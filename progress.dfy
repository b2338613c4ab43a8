// The fixed Hangul progress map that a new account starts with and that the
// progress resets restore (services/authService.ts signup,
// src/components/KoreanStudyView.tsx `handleResetProgress`, the reset button
// of App.tsx and src/App.tsx): the fourteen basic consonants, only ㄱ unlocked.
module Progress {
  import opened Types
  import opened Seqs

  const BasicConsonants: seq<string> :=
    ["ㄱ", "ㄴ", "ㄷ", "ㄹ", "ㅁ", "ㅂ", "ㅅ", "ㅇ", "ㅈ", "ㅊ", "ㅋ", "ㅌ", "ㅍ", "ㅎ"]

  function DefaultStatus(key: string): LessonStatus {
    if key == "ㄱ" then Unlocked else Locked
  }

  const DefaultProgress: Progress := map k | k in BasicConsonants :: DefaultStatus(k)

  lemma DefaultProgressShape()
    ensures |BasicConsonants| == 14 && NoDup(BasicConsonants)
    ensures DefaultProgress.Keys == set k | k in BasicConsonants
    ensures |DefaultProgress| == 14
    ensures DefaultProgress["ㄱ"] == Unlocked
    ensures forall k :: k in DefaultProgress && k != "ㄱ" ==> DefaultProgress[k] == Locked
  {
    KeysOfDistinct(BasicConsonants);
  }

  /** A duplicate-free list has as many distinct members as elements. */
  lemma {:induction false} KeysOfDistinct(s: seq<string>)
    requires NoDup(s)
    ensures |set k | k in s| == |s|
    decreases |s|
  {
    if s != [] {
      KeysOfDistinct(s[1..]);
      assert (set k | k in s) == (set k | k in s[1..]) + {s[0]};
      assert s[0] !in s[1..];
    }
  }

  /** The default map marks nothing completed. */
  lemma DefaultNothingCompleted()
    ensures CompletedCount(DefaultProgress) == 0
  {
    var p := DefaultProgress;
    forall k | k in p ensures p[k] != Completed {
      assert p[k] == DefaultStatus(k);
    }
    assert (set k | k in p && p[k] == Completed) == {};
  }

  /** The number of lessons marked completed (`Object.values(progress).filter(s => s === 'completed').length`). */
  function CompletedCount(p: Progress): (n: nat)
    ensures n <= |p|
    ensures n == 0 <==> forall k :: k in p ==> p[k] != Completed
    ensures n == |p| <==> forall k :: k in p ==> p[k] == Completed
  {
    CompletedSet(p);
    |set k | k in p && p[k] == Completed|
  }

  /** The completed keys: as many as the map has when all are completed, none when none is. */
  lemma CompletedSet(p: Progress)
    ensures var done := set k | k in p && p[k] == Completed;
      |done| <= |p| &&
      (|done| == 0 <==> forall k :: k in p ==> p[k] != Completed) &&
      (|done| == |p| <==> forall k :: k in p ==> p[k] == Completed)
  {
    var done := set k | k in p && p[k] == Completed;
    assert done <= p.Keys;
    SubsetCard(done, p.Keys);
    if |done| != 0 {
      var x :| x in done;
    } else {
      forall k | k in p ensures p[k] != Completed {
        assert k !in done;
      }
    }
    if forall k :: k in p ==> p[k] == Completed {
      assert done == p.Keys;
    }
  }

  /** A subset is no larger, and it is the whole set exactly when it is as large. */
  lemma SubsetCard(a: set<string>, b: set<string>)
    requires a <= b
    ensures |a| <= |b|
    ensures |a| == |b| ==> a == b
  {
    assert b == a + (b - a);
    if a != b {
      var x :| x in b - a;
      assert |b - a| >= 1;
    }
  }
}
