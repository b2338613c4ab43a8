// The Hangul study screen (src/components/KoreanStudyView.tsx): the lesson
// table, the per-group and overall completion percentages, the writing and
// pronunciation checks, the four practice flags that unlock a lesson's quiz,
// and the progress updates on completing a lesson or resetting. Handwriting
// recognition and speech transcription are network calls; their replies are
// inputs. A lesson's practice state is the object `LessonDetail`; the
// account-level updates build a new `User`, as the screen hands a new user
// record to the user-state setter.
module KoreanStudyView {
  import opened Wrappers
  import opened Seqs
  import opened Strings
  import opened Types
  import ProgressMap = Progress

  /** One lesson: the letter or word (`char`), its name, romanisation, spoken text, quiz options and group. */
  datatype LessonEntry = LessonEntry(
    hangul: string,
    name: string,
    roman: string,
    audioText: string,
    quizOptions: seq<string>,
    group: string)

  /** The 19 consonants: the 14 basic ones, then the 5 tense ones. */
  const Consonants: seq<LessonEntry> :=
    [
      LessonEntry("ㄱ", "기역", "g/k", "기역", ["ㄱ", "ㄴ", "ㄷ", "ㅏ"], "consonants"),
      LessonEntry("ㄴ", "니은", "n", "니은", ["ㄴ", "ㄷ", "ㄹ", "ㅓ"], "consonants"),
      LessonEntry("ㄷ", "디귿", "d/t", "디귿", ["ㄷ", "ㄹ", "ㅁ", "ㅗ"], "consonants"),
      LessonEntry("ㄹ", "리을", "r/l", "리을", ["ㄹ", "ㅁ", "ㅂ", "ㅜ"], "consonants"),
      LessonEntry("ㅁ", "미음", "m", "미음", ["ㅁ", "ㅂ", "ㅅ", "ㅡ"], "consonants"),
      LessonEntry("ㅂ", "비읍", "b/p", "비읍", ["ㅂ", "ㅅ", "ㅇ", "ㅣ"], "consonants"),
      LessonEntry("ㅅ", "시옷", "s", "시옷", ["ㅅ", "ㅇ", "ㅈ", "ㅐ"], "consonants"),
      LessonEntry("ㅇ", "이응", "ng", "이응", ["ㅇ", "ㅈ", "ㅊ", "ㅔ"], "consonants"),
      LessonEntry("ㅈ", "지읒", "j", "지읒", ["ㅈ", "ㅊ", "ㅋ", "ㅚ"], "consonants"),
      LessonEntry("ㅊ", "치읓", "ch", "치읓", ["ㅊ", "ㅋ", "ㅌ", "ㅟ"], "consonants"),
      LessonEntry("ㅋ", "키읔", "k", "키읔", ["ㅋ", "ㅌ", "ㅍ", "ㅑ"], "consonants"),
      LessonEntry("ㅌ", "티읕", "t", "티읕", ["ㅌ", "ㅍ", "ㅎ", "ㅕ"], "consonants"),
      LessonEntry("ㅍ", "피읖", "p", "피읖", ["ㅍ", "ㅎ", "ㄱ", "ㅛ"], "consonants"),
      LessonEntry("ㅎ", "히읗", "h", "히읗", ["ㅎ", "ㄱ", "ㄴ", "ㅠ"], "consonants"),
      LessonEntry("ㄲ", "쌍기역", "kk", "쌍기역", ["ㄲ", "ㄸ", "ㅃ", "ㅆ"], "consonants"),
      LessonEntry("ㄸ", "쌍디귿", "tt", "쌍디귿", ["ㄸ", "ㅃ", "ㅆ", "ㅉ"], "consonants"),
      LessonEntry("ㅃ", "쌍비읍", "pp", "쌍비읍", ["ㅃ", "ㅆ", "ㅉ", "ㄲ"], "consonants"),
      LessonEntry("ㅆ", "쌍시옷", "ss", "쌍시옷", ["ㅆ", "ㅉ", "ㄲ", "ㄸ"], "consonants"),
      LessonEntry("ㅉ", "쌍지읒", "jj", "쌍지읒", ["ㅉ", "ㄲ", "ㄸ", "ㅃ"], "consonants")
    ]

  /** The 21 vowels: the 10 basic ones and the 11 compound ones. */
  const Vowels: seq<LessonEntry> :=
    [
      LessonEntry("ㅏ", "아", "a", "아", ["ㅏ", "ㅑ", "ㅓ", "ㅕ"], "vowels"),
      LessonEntry("ㅑ", "야", "ya", "야", ["ㅑ", "ㅓ", "ㅕ", "ㅗ"], "vowels"),
      LessonEntry("ㅓ", "어", "eo", "어", ["ㅓ", "ㅕ", "ㅗ", "ㅛ"], "vowels"),
      LessonEntry("ㅕ", "여", "yeo", "여", ["ㅕ", "ㅗ", "ㅛ", "ㅜ"], "vowels"),
      LessonEntry("ㅗ", "오", "o", "오", ["ㅗ", "ㅛ", "ㅜ", "ㅠ"], "vowels"),
      LessonEntry("ㅛ", "요", "yo", "요", ["ㅛ", "ㅜ", "ㅠ", "ㅡ"], "vowels"),
      LessonEntry("ㅜ", "우", "u", "우", ["ㅜ", "ㅠ", "ㅡ", "ㅣ"], "vowels"),
      LessonEntry("ㅠ", "유", "yu", "유", ["ㅠ", "ㅡ", "ㅣ", "ㅐ"], "vowels"),
      LessonEntry("ㅡ", "으", "eu", "으", ["ㅡ", "ㅣ", "ㅐ", "ㅔ"], "vowels"),
      LessonEntry("ㅣ", "이", "i", "이", ["ㅣ", "ㅐ", "ㅔ", "ㅏ"], "vowels"),
      LessonEntry("ㅐ", "애", "ae", "애", ["ㅐ", "ㅔ", "ㅒ", "ㅖ"], "vowels"),
      LessonEntry("ㅒ", "얘", "yae", "얘", ["ㅒ", "ㅖ", "ㅐ", "ㅔ"], "vowels"),
      LessonEntry("ㅔ", "에", "e", "에", ["ㅔ", "ㅐ", "ㅖ", "ㅒ"], "vowels"),
      LessonEntry("ㅖ", "예", "ye", "예", ["ㅖ", "ㅒ", "ㅔ", "ㅐ"], "vowels"),
      LessonEntry("ㅘ", "와", "wa", "와", ["ㅘ", "ㅙ", "ㅝ", "ㅞ"], "vowels"),
      LessonEntry("ㅙ", "왜", "wae", "왜", ["ㅙ", "ㅚ", "ㅘ", "ㅟ"], "vowels"),
      LessonEntry("ㅚ", "외", "oe", "외", ["ㅚ", "ㅟ", "ㅙ", "ㅝ"], "vowels"),
      LessonEntry("ㅝ", "워", "wo", "워", ["ㅝ", "ㅞ", "ㅘ", "ㅢ"], "vowels"),
      LessonEntry("ㅞ", "웨", "we", "웨", ["ㅞ", "ㅝ", "ㅟ", "ㅚ"], "vowels"),
      LessonEntry("ㅟ", "위", "wi", "위", ["ㅟ", "ㅢ", "ㅚ", "ㅙ"], "vowels"),
      LessonEntry("ㅢ", "의", "ui", "의", ["ㅢ", "ㅟ", "ㅣ", "ㅡ"], "vowels")
    ]

  /** The 10 first words. */
  const Words: seq<LessonEntry> :=
    [
      LessonEntry("가구", "Furniture", "gagu", "가구", ["가구", "구두", "고기", "아기"], "words"),
      LessonEntry("나비", "Butterfly", "nabi", "나비", ["나비", "나이", "다리", "머리"], "words"),
      LessonEntry("다리", "Leg/Bridge", "dari", "다리", ["다리", "라디오", "오리", "우리"], "words"),
      LessonEntry("라디오", "Radio", "radio", "라디오", ["라디오", "피아노", "비디오", "오디오"], "words"),
      LessonEntry("모자", "Hat", "moja", "모자", ["모자", "바지", "사자", "의자"], "words"),
      LessonEntry("바나나", "Banana", "banana", "바나나", ["바나나", "피아노", "어머니", "아버지"], "words"),
      LessonEntry("사자", "Lion", "saja", "사자", ["사자", "새우", "치즈", "바지"], "words"),
      LessonEntry("아기", "Baby", "agi", "아기", ["아기", "야구", "여우", "우유"], "words"),
      LessonEntry("지도", "Map", "jido", "지도", ["지도", "지우개", "구두", "포도"], "words"),
      LessonEntry("토마토", "Tomato", "tomato", "토마토", ["토마토", "포도", "코", "타조"], "words")
    ]

  /** `lessons`: the three groups, in order. */
  const Lessons: seq<LessonEntry> := Consonants + Vowels + Words

  /** Four quiz options, the first of which is the lesson's own letter or word. */
  predicate WellFormed(l: LessonEntry) {
    |l.quizOptions| == 4 && l.quizOptions[0] == l.hangul
  }

  lemma ConsonantsShape()
    ensures |Consonants| == 19
    ensures forall k :: 0 <= k < |Consonants| ==> WellFormed(Consonants[k]) && Consonants[k].group == "consonants"
  {
    ConsonantsWellFormed();
    ConsonantsGrouped();
  }

  lemma ConsonantsWellFormed()
    ensures forall k :: 0 <= k < |Consonants| ==> WellFormed(Consonants[k])
  {
  }

  lemma ConsonantsGrouped()
    ensures forall k :: 0 <= k < |Consonants| ==> Consonants[k].group == "consonants"
  {
  }

  lemma VowelsShape()
    ensures |Vowels| == 21
    ensures forall k :: 0 <= k < |Vowels| ==> WellFormed(Vowels[k]) && Vowels[k].group == "vowels"
  {
    VowelsWellFormed();
    VowelsGrouped();
  }

  lemma VowelsWellFormed()
    ensures forall k :: 0 <= k < |Vowels| ==> WellFormed(Vowels[k])
  {
  }

  lemma VowelsGrouped()
    ensures forall k :: 0 <= k < |Vowels| ==> Vowels[k].group == "vowels"
  {
  }

  lemma WordsShape()
    ensures |Words| == 10
    ensures forall k :: 0 <= k < |Words| ==> WellFormed(Words[k]) && Words[k].group == "words"
  {
    WordsWellFormed();
    WordsGrouped();
  }

  lemma WordsWellFormed()
    ensures forall k :: 0 <= k < |Words| ==> WellFormed(Words[k])
  {
  }

  lemma WordsGrouped()
    ensures forall k :: 0 <= k < |Words| ==> Words[k].group == "words"
  {
  }

  /** The table has 50 lessons, 19 consonants, 21 vowels and 10 words, each quiz led by its own answer. */
  lemma LessonsShape()
    ensures |Lessons| == 50
    ensures forall k :: 0 <= k < |Lessons| ==> WellFormed(Lessons[k])
    ensures GroupLessons("consonants") == Consonants && |Consonants| == 19
    ensures GroupLessons("vowels") == Vowels && |Vowels| == 21
    ensures GroupLessons("words") == Words && |Words| == 10
  {
    ConsonantsShape();
    VowelsShape();
    WordsShape();
    AllWellFormed(Consonants, Vowels, Words);
    LessonsGroups();
  }

  lemma LessonCount()
    ensures |Lessons| == 50
  {
  }

  lemma LessonsGroups()
    ensures GroupLessons("consonants") == Consonants
    ensures GroupLessons("vowels") == Vowels
    ensures GroupLessons("words") == Words
  {
    ConsonantGroup();
    VowelGroup();
    WordGroup();
  }

  lemma ConsonantGroup()
    ensures GroupLessons("consonants") == Consonants
  {
    ConsonantsShape();
    VowelsShape();
    WordsShape();
    GroupOfThree(Consonants, Vowels, Words, "consonants", true, false, false);
  }

  lemma VowelGroup()
    ensures GroupLessons("vowels") == Vowels
  {
    ConsonantsShape();
    VowelsShape();
    WordsShape();
    GroupOfThree(Consonants, Vowels, Words, "vowels", false, true, false);
  }

  lemma WordGroup()
    ensures GroupLessons("words") == Words
  {
    ConsonantsShape();
    VowelsShape();
    WordsShape();
    GroupOfThree(Consonants, Vowels, Words, "words", false, false, true);
  }

  lemma AllWellFormed(a: seq<LessonEntry>, b: seq<LessonEntry>, c: seq<LessonEntry>)
    requires forall k :: 0 <= k < |a| ==> WellFormed(a[k])
    requires forall k :: 0 <= k < |b| ==> WellFormed(b[k])
    requires forall k :: 0 <= k < |c| ==> WellFormed(c[k])
    ensures forall k :: 0 <= k < |a + b + c| ==> WellFormed((a + b + c)[k])
  {
    var all := a + b + c;
    forall k | 0 <= k < |all| ensures WellFormed(all[k]) {
      if k < |a| {
        assert all[k] == a[k];
      } else if k < |a| + |b| {
        assert all[k] == b[k - |a|];
      } else {
        assert all[k] == c[k - |a| - |b|];
      }
    }
  }

  /** Filtering three blocks each wholly in or wholly out of a group. */
  lemma GroupOfThree(a: seq<LessonEntry>, b: seq<LessonEntry>, c: seq<LessonEntry>, g: string, inA: bool, inB: bool, inC: bool)
    requires forall k :: 0 <= k < |a| ==> (a[k].group == g <==> inA)
    requires forall k :: 0 <= k < |b| ==> (b[k].group == g <==> inB)
    requires forall k :: 0 <= k < |c| ==> (c[k].group == g <==> inC)
    ensures Filter(a + b + c, InGroup(g)) ==
      (if inA then a else []) + (if inB then b else []) + (if inC then c else [])
  {
    FilterAppend(a + b, c, InGroup(g));
    FilterAppend(a, b, InGroup(g));
    WholeBlock(a, g, inA);
    WholeBlock(b, g, inB);
    WholeBlock(c, g, inC);
  }

  lemma WholeBlock(s: seq<LessonEntry>, g: string, inside: bool)
    requires forall k :: 0 <= k < |s| ==> (s[k].group == g <==> inside)
    ensures Filter(s, InGroup(g)) == if inside then s else []
  {
    if inside {
      FilterKeepsAll(s, InGroup(g));
    } else {
      FilterNone(s, InGroup(g));
    }
  }

  function InGroup(g: string): LessonEntry -> bool {
    (l: LessonEntry) => l.group == g
  }

  /** `lessons.filter(l => l.group === groupId)`. */
  function GroupLessons(g: string): (r: seq<LessonEntry>)
    ensures forall k :: 0 <= k < |r| ==> r[k].group == g
    ensures IsSubsequence(r, Lessons)
  {
    Filter(Lessons, InGroup(g))
  }

  /** A group name that no lesson carries has no lessons. */
  lemma UnknownGroup(g: string)
    requires g != "consonants" && g != "vowels" && g != "words"
    ensures GroupLessons(g) == []
  {
    ConsonantsShape();
    VowelsShape();
    WordsShape();
    GroupOfThree(Consonants, Vowels, Words, g, false, false, false);
  }

  /** `progress[l.char] === 'completed'`: an absent entry is not completed. */
  function IsCompleted(progress: Progress): LessonEntry -> bool {
    (l: LessonEntry) => l.hangul in progress && progress[l.hangul] == Completed
  }

  /** `r` is `done / total * 100` rounded half up: `r <= 100 * done / total + 1/2 < r + 1`. */
  predicate RoundsTo(r: nat, done: nat, total: nat) {
    2 * total * r <= 200 * done + total < 2 * total * (r + 1)
  }

  /** `Math.round(done / total * 100)` for a positive total: round half up. */
  function RoundPercent(done: nat, total: nat): (r: nat)
    requires total > 0
    ensures done == 0 ==> r == 0
    ensures done <= total ==> r <= 100
    ensures done == total ==> r == 100
    ensures done < total && total < 200 ==> r < 100
    ensures RoundsTo(r, done, total)
  {
    var r := (200 * done + total) / (2 * total);
    assert RoundsTo(r, done, total) by {
      QuotientBounds(200 * done + total, 2 * total);
    }
    assert done == 0 ==> r == 0 by {
      if done == 0 { DivBetween(total, 2 * total, 1); }
    }
    assert done <= total ==> r <= 100 by {
      if done <= total { DivBetween(200 * done + total, 2 * total, 101); }
    }
    assert done == total ==> r == 100 by {
      if done == total { DivExact(200 * done + total, 2 * total, 100); }
    }
    assert done < total && total < 200 ==> r < 100 by {
      if done < total && total < 200 { DivBetween(200 * done + total, 2 * total, 100); }
    }
    r
  }

  /** The quotient is the largest `q` with `d * q <= x`. */
  lemma QuotientBounds(x: nat, d: nat)
    requires d > 0
    ensures d * (x / d) <= x < d * (x / d + 1)
  {
    assert x == d * (x / d) + x % d;
    assert d * (x / d + 1) == d * (x / d) + d;
  }

  /** Below `m` whole divisors, the quotient is below `m`. */
  lemma DivBetween(x: nat, d: nat, m: nat)
    requires d > 0 && x < m * d
    ensures x / d < m
  {
    var q := x / d;
    assert d * (m - q) == d * m - d * q;
    MulSign(d, m - q);
  }

  lemma DivExact(x: nat, d: nat, q: nat)
    requires d > 0 && q * d <= x < q * d + d
    ensures x / d == q
  {
    var p := x / d;
    assert d * (p - q) == d * p - d * q;
    MulSign(d, p - q);
  }

  lemma MulSign(d: int, e: int)
    requires d > 0
    ensures e <= 0 ==> d * e <= 0
    ensures e <= -1 ==> d * e <= -d
    ensures e >= 1 ==> d * e >= d
  {
  }

  /**
   * `getGroupProgress`: 0 for a group without lessons; otherwise the rounded
   * percentage of that group's lessons marked completed, 100 exactly when
   * every one of them is.
   */
  function GroupProgress(progress: Progress, g: string): (r: nat)
    ensures GroupLessons(g) == [] ==> r == 0
    ensures r <= 100
    ensures GroupLessons(g) != [] ==>
      (r == 100 <==> |Filter(GroupLessons(g), IsCompleted(progress))| == |GroupLessons(g)|)
    ensures GroupLessons(g) != [] && Filter(GroupLessons(g), IsCompleted(progress)) == [] ==> r == 0
    ensures GroupLessons(g) != [] ==> RoundsTo(r, |Filter(GroupLessons(g), IsCompleted(progress))|, |GroupLessons(g)|)
  {
    var lessons := GroupLessons(g);
    if lessons == [] then 0
    else
      var done := Filter(lessons, IsCompleted(progress));
      SubsequenceMembers(done, lessons);
      SubsequenceMembers(lessons, Lessons);
      LessonsShape();
      RoundPercent(|done|, |lessons|)
  }

  /** A group is at 100 percent exactly when every lesson of it is completed. */
  lemma GroupCompleteIff(progress: Progress, g: string)
    requires GroupLessons(g) != []
    ensures GroupProgress(progress, g) == 100 <==>
      forall k :: 0 <= k < |GroupLessons(g)| ==> IsCompleted(progress)(GroupLessons(g)[k])
  {
    var lessons := GroupLessons(g);
    if forall k :: 0 <= k < |lessons| ==> IsCompleted(progress)(lessons[k]) {
      FilterKeepsAll(lessons, IsCompleted(progress));
    } else {
      var k :| 0 <= k < |lessons| && !IsCompleted(progress)(lessons[k]);
      FilterDropsOne(lessons, IsCompleted(progress), k);
    }
  }

  lemma {:induction false} FilterDropsOne<T>(s: seq<T>, keep: T -> bool, k: nat)
    requires k < |s| && !keep(s[k])
    ensures |Filter(s, keep)| < |s|
    decreases |s|
  {
    if k > 0 {
      FilterDropsOne(s[1..], keep, k - 1);
    } else {
      SubsequenceMembers(Filter(s[1..], keep), s[1..]);
    }
  }

  /** The progress the screen reads: the user's, or ㄱ alone unlocked when there is none. */
  function ViewProgress(user: User): (p: Progress)
    ensures user.hangulProgress.Some? ==> p == user.hangulProgress.value
    ensures user.hangulProgress.None? ==> p == map["ㄱ" := Unlocked]
  {
    user.hangulProgress.GetOr(map["ㄱ" := Unlocked])
  }

  /** The overall percentage: completed entries of the progress map over the 50 lessons, rounded. */
  function OverallProgress(progress: Progress): (r: nat)
    ensures r == 2 * ProgressMap.CompletedCount(progress)
  {
    LessonCount();
    var c := ProgressMap.CompletedCount(progress);
    assert 200 * c + 50 == (2 * c) * 100 + 50;
    DivExact(200 * c + 50, 100, 2 * c);
    RoundPercent(c, |Lessons|)
  }

  /**
   * The handwriting check: the Hangul of the recognised text against the
   * trimmed lesson text, accepted when they are equal or either contains the
   * other.
   */
  predicate WritingAccepted(recognized: string, hangul: string) {
    Matches(Trim(HangulOnly(recognized)), Trim(hangul))
  }

  /** `normalized === expected || normalized.includes(expected) || expected.includes(normalized)`. */
  predicate Matches(normalized: string, expected: string) {
    normalized == expected || Contains(normalized, expected) || Contains(expected, normalized)
  }

  lemma ContainsEmpty(s: string)
    ensures Contains(s, "")
  {
  }

  /** Hangul text has nothing to trim. */
  lemma {:induction false} TrimHangul(s: string)
    requires forall k :: 0 <= k < |s| ==> IsHangul(s[k])
    ensures Trim(s) == s
  {
    if s != [] {
      assert !IsWhitespace(s[0]) && !IsWhitespace(s[|s| - 1]) by {
        assert IsHangul(s[0]) && IsHangul(s[|s| - 1]);
      }
      TrimIdempotent(s);
    }
  }

  /** A recognition with no Hangul in it is accepted, whatever the lesson. */
  lemma WritingAcceptsNoHangul(recognized: string, hangul: string)
    requires HangulOnly(recognized) == []
    ensures WritingAccepted(recognized, hangul)
  {
    assert Trim(HangulOnly(recognized)) == [];
    ContainsEmpty(Trim(hangul));
  }

  /**
   * For a one-letter lesson, a recognition is accepted exactly when it has no
   * Hangul or its Hangul includes the letter.
   */
  lemma {:induction false} WritingOneLetter(recognized: string, letter: char)
    requires IsHangul(letter)
    ensures WritingAccepted(recognized, [letter]) <==> HangulOnly(recognized) == [] || letter in HangulOnly(recognized)
  {
    OneLetterHangul(HangulOnly(recognized), letter);
  }

  /** The one-letter check on text that is all Hangul, where trimming changes nothing. */
  lemma {:induction false} OneLetterHangul(n: string, letter: char)
    requires IsHangul(letter) && forall k :: 0 <= k < |n| ==> IsHangul(n[k])
    ensures Matches(Trim(n), Trim([letter])) <==> n == [] || letter in n
  {
    TrimHangul(n);
    TrimHangul([letter]);
    OneLetterMatches(n, letter);
  }

  lemma OneLetterMatches(n: string, letter: char)
    ensures Matches(n, [letter]) <==> n == [] || letter in n
  {
    ContainsChar(n, letter);
    ContainedInOne(n, letter);
  }

  /** The strings a one-character string contains: the empty one and itself. */
  lemma ContainedInOne(n: string, c: char)
    ensures Contains([c], n) <==> n == [] || n == [c]
  {
    if Contains([c], n) && n != [] {
      ContainsBound([c], n);
      EqualLengthContainment([c], n);
    }
    if n == [] {
      ContainsEmpty([c]);
    }
  }

  lemma {:induction false} ContainsChar(s: string, c: char)
    ensures Contains(s, [c]) <==> c in s
    decreases |s|
  {
    if s != [] {
      ContainsChar(s[1..], c);
      assert c in s <==> s[0] == c || c in s[1..];
    }
  }

  /**
   * The pronunciation check: the trimmed, lower-cased transcription against
   * the lower-cased letter, name and spoken text, matched when one contains
   * the other for some of them.
   */
  predicate SpeechMatches(transcription: string, lesson: LessonEntry) {
    var heard := ToLower(Trim(transcription));
    var targets := [ToLower(lesson.hangul), ToLower(lesson.name), ToLower(lesson.audioText)];
    exists k :: 0 <= k < 3 && (Contains(heard, targets[k]) || Contains(targets[k], heard))
  }

  /** An empty (or all-blank) transcription matches every lesson. */
  lemma SpeechAcceptsBlank(transcription: string, lesson: LessonEntry)
    requires IsBlank(transcription)
    ensures SpeechMatches(transcription, lesson)
  {
    var heard := ToLower(Trim(transcription));
    var targets := [ToLower(lesson.hangul), ToLower(lesson.name), ToLower(lesson.audioText)];
    assert heard == [];
    ContainsEmpty(targets[0]);
    assert Contains(targets[0], heard);
  }

  /** Saying the lesson's letter, name or spoken text, in any ASCII case and with surrounding blanks, matches. */
  lemma SpeechAcceptsTarget(transcription: string, lesson: LessonEntry)
    requires ToLower(Trim(transcription)) in [ToLower(lesson.hangul), ToLower(lesson.name), ToLower(lesson.audioText)]
    ensures SpeechMatches(transcription, lesson)
  {
    var heard := ToLower(Trim(transcription));
    var targets := [ToLower(lesson.hangul), ToLower(lesson.name), ToLower(lesson.audioText)];
    var k :| 0 <= k < 3 && targets[k] == heard;
    assert heard <= targets[k];
  }

  /** One lesson's practice state (`LessonDetailView`): the open tab and the reading, writing and speaking flags. */
  class LessonDetail {
    const lesson: LessonEntry
    var activeTab: string
    var reading: bool
    var writing: bool
    var speaking: bool

    /** The quiz tab is shown only once all three practices are done. */
    predicate QuizOffered()
      reads this
    {
      reading && writing && speaking
    }

    /** No flag ever goes back from done to not done. */
    twostate predicate FlagsKept()
      reads this
    {
      (old(reading) ==> reading) && (old(writing) ==> writing) && (old(speaking) ==> speaking)
    }

    constructor (lesson: LessonEntry)
      ensures this.lesson == lesson && activeTab == "reading"
      ensures !reading && !writing && !speaking && !QuizOffered()
    {
      this.lesson := lesson;
      activeTab := "reading";
      reading, writing, speaking := false, false, false;
    }

    /** The reading, writing and speaking tab buttons only switch the tab. */
    method ShowTab(tab: string)
      requires tab == "reading" || tab == "writing" || tab == "speaking"
      modifies this`activeTab
      ensures activeTab == tab
    {
      activeTab := tab;
    }

    /** The quiz tab button exists only while the quiz is offered. */
    method ShowQuiz()
      requires QuizOffered()
      modifies this`activeTab
      ensures activeTab == "quiz"
    {
      activeTab := "quiz";
    }

    /** The spoken text finished playing: reading is done. */
    method AudioEnded()
      modifies this`reading
      ensures reading && FlagsKept()
    {
      reading := true;
    }

    /** The canvas reported a correct letter: writing is done. */
    method WritingCorrect()
      modifies this`writing
      ensures writing && FlagsKept()
    {
      writing := true;
    }

    /** A transcription came back: speaking is done when it matches. */
    method SpeechResult(transcription: string) returns (matched: bool)
      modifies this`speaking
      ensures matched <==> SpeechMatches(transcription, lesson)
      ensures speaking == (old(speaking) || matched) && FlagsKept()
    {
      matched := SpeechMatches(transcription, lesson);
      if matched {
        speaking := true;
      }
    }

    /** `handleQuizAnswer`: the lesson is completed exactly when the option is the lesson's own text. */
    method QuizAnswer(option: string) returns (completes: bool)
      ensures completes <==> option == lesson.hangul
    {
      completes := option == lesson.hangul;
    }
  }

  /**
   * `handleLessonComplete`: without a selected lesson or a signed-in user
   * nothing changes; otherwise the user's progress (as the screen reads it)
   * gets the lesson marked completed.
   */
  function CompleteLesson(user: Option<User>, selected: Option<LessonEntry>): (r: Option<User>)
    ensures user.None? || selected.None? ==> r == user
    ensures user.Some? && selected.Some? ==>
      r == Some(user.value.(hangulProgress := Some(ViewProgress(user.value)[selected.value.hangul := Completed])))
  {
    if user.None? || selected.None? then user
    else Some(user.value.(hangulProgress := Some(ViewProgress(user.value)[selected.value.hangul := Completed])))
  }

  /** Completing a lesson marks it and no other entry changes; the completed count goes up by one unless it was already completed. */
  lemma CompleteLessonProgress(user: User, lesson: LessonEntry)
    ensures var p := ViewProgress(user);
      var q := CompleteLesson(Some(user), Some(lesson)).value.hangulProgress.value;
      q.Keys == p.Keys + {lesson.hangul} && q[lesson.hangul] == Completed &&
      (forall k :: k in p && k != lesson.hangul ==> q[k] == p[k]) &&
      ProgressMap.CompletedCount(q) == ProgressMap.CompletedCount(p) +
        (if lesson.hangul in p && p[lesson.hangul] == Completed then 0 else 1)
  {
    var p := ViewProgress(user);
    var q := p[lesson.hangul := Completed];
    var before := set k | k in p && p[k] == Completed;
    var after := set k | k in q && q[k] == Completed;
    if lesson.hangul in p && p[lesson.hangul] == Completed {
      assert after == before;
    } else {
      assert after == before + {lesson.hangul};
    }
  }

  /**
   * `handleResetProgress`: with a signed-in user and a confirmed dialog the
   * progress becomes the default map; otherwise nothing changes.
   */
  function ResetProgress(user: Option<User>, confirmed: bool): (r: Option<User>)
    ensures user.None? || !confirmed ==> r == user
    ensures user.Some? && confirmed ==> r == Some(user.value.(hangulProgress := Some(ProgressMap.DefaultProgress)))
  {
    if user.None? || !confirmed then user else Some(user.value.(hangulProgress := Some(ProgressMap.DefaultProgress)))
  }

  /** After a reset the progress is the default map: nothing is completed and the overall percentage is 0. */
  lemma ResetClearsProgress(user: User)
    ensures ResetProgress(Some(user), true).value.hangulProgress == Some(ProgressMap.DefaultProgress)
    ensures OverallProgress(ProgressMap.DefaultProgress) == 0
  {
    ProgressMap.DefaultNothingCompleted();
  }
}
