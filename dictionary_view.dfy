// The dictionary screen (components/DictionaryView.tsx): the recent-search
// history kept in local storage, the "already saved" bookmark flag and the
// pool of trending words offered as tags. Every update builds a new list and
// hands it to a state setter, so each is a function of the previous list.
module DictionaryView {
  import opened Wrappers
  import opened Seqs
  import opened Strings
  import opened Types
  import Folders

  /** At most this many recent searches are kept. */
  const HistoryLimit: nat := 10

  /** `saveToHistory`: `[term, ...prev.filter(t => t !== term)].slice(0, 10)`. */
  function SaveToHistory(prev: seq<string>, term: string): (r: seq<string>)
    ensures 1 <= |r| <= HistoryLimit
    ensures r[0] == term && term !in r[1..]
    ensures Occurrences(r, term) == 1
    ensures r[1..] <= Remove(prev, term)
    ensures |r| == if |Remove(prev, term)| < HistoryLimit then |Remove(prev, term)| + 1 else HistoryLimit
  {
    var r := Take([term] + Remove(prev, term), HistoryLimit);
    assert r[1..] <= Remove(prev, term);
    assert term !in r[1..];
    assert r == [term] + r[1..];
    OccurrencesAppend([term], r[1..], term);
    r
  }

  lemma {:induction false} OccurrencesAppend(a: seq<string>, b: seq<string>, x: string)
    ensures Occurrences(a + b, x) == Occurrences(a, x) + Occurrences(b, x)
    decreases |a|
  {
    if a != [] {
      assert (a + b)[1..] == a[1..] + b;
      OccurrencesAppend(a[1..], b, x);
    } else {
      assert a + b == b;
    }
  }

  /** The searches other than `term` keep their relative order. */
  lemma SaveToHistoryKeepsOrder(prev: seq<string>, term: string)
    ensures IsSubsequence(SaveToHistory(prev, term)[1..], prev)
  {
    var r := SaveToHistory(prev, term);
    var rest := Remove(prev, term);
    PrefixSubsequence(r[1..], rest);
    RemoveSubsequence(prev, term);
    SubsequenceTransitive(r[1..], rest, prev);
  }

  lemma {:induction false} PrefixSubsequence(a: seq<string>, b: seq<string>)
    requires a <= b
    ensures IsSubsequence(a, b)
    decreases |b|
  {
    if a != [] {
      PrefixSubsequence(a[1..], b[1..]);
    }
  }

  /** Searching for the same term twice leaves the history as searching once did. */
  lemma SaveToHistoryIdempotent(prev: seq<string>, term: string)
    ensures SaveToHistory(SaveToHistory(prev, term), term) == SaveToHistory(prev, term)
  {
    var rest := Remove(prev, term);
    var once := SaveToHistory(prev, term);
    assert once == [term] + once[1..];
    RemoveHead(term, once[1..]);
    assert Remove(once, term) == once[1..];
    assert once[1..] == Take(rest, HistoryLimit - 1);
  }

  lemma RemoveHead(x: string, s: seq<string>)
    requires x !in s
    ensures Remove([x] + s, x) == s
  {
    assert ([x] + s)[1..] == s;
  }

  /** A history without repeats stays without repeats. */
  lemma SaveToHistoryNoDup(prev: seq<string>, term: string)
    requires NoDup(prev)
    ensures NoDup(SaveToHistory(prev, term))
  {
    var rest := Remove(prev, term);
    RemoveSubsequence(prev, term);
    NoDupSubsequence(rest, prev);
    var r := SaveToHistory(prev, term);
    forall i, j | 0 <= i < j < |r| ensures r[i] != r[j] {
      if i == 0 {
        assert r[j] == r[1..][j - 1];
      } else {
        assert r[i] == rest[i - 1] && r[j] == rest[j - 1];
      }
    }
  }

  /** `deleteFromHistory`: `prev.filter(t => t !== term)`. */
  function DeleteFromHistory(prev: seq<string>, term: string): (r: seq<string>)
    ensures term !in r
    ensures IsSubsequence(r, prev)
    ensures forall k :: 0 <= k < |prev| && prev[k] != term ==> prev[k] in r
    ensures KeepsExactly(r, prev, Other(term))
  {
    RemoveSubsequence(prev, term);
    RemoveIsFilter(prev, term);
    FilterKeepsExactly(prev, Other(term));
    Remove(prev, term)
  }

  /** Deleting a term just searched for leaves the earlier searches, in order, without it. */
  lemma DeleteAfterSave(prev: seq<string>, term: string)
    ensures DeleteFromHistory(SaveToHistory(prev, term), term) <= DeleteFromHistory(prev, term)
  {
    var once := SaveToHistory(prev, term);
    assert once == [term] + once[1..];
    RemoveHead(term, once[1..]);
  }

  /**
   * The bookmark flag shown beside a result: set exactly when there is a
   * result, the user has folders and one of them holds the result's word.
   */
  function IsBookmarked(result: Option<DictionaryEntry>, folders: Option<seq<VocabFolder>>): (b: bool)
    ensures b <==> (result.Some? && folders.Some? &&
      exists i, k :: 0 <= i < |folders.value| && 0 <= k < |folders.value[i].words| &&
        folders.value[i].words[k].word == result.value.word)
  {
    result.Some? && folders.Some? && Folders.Bookmarked(folders.value, result.value.word)
  }

  /** At most this many trending words are shown. */
  const TrendingCount: nat := 7

  /** The words shown when the glossary cannot be loaded. */
  const FallbackTrending: seq<string> := ["갓생", "소확행", "복세편살", "얼죽아", "알잘딱깔센", "워라밸", "꾸안꾸"]

  /** A glossary word may be offered: not blank and free of `(` and of `GMG`. */
  predicate Offerable(w: string) {
    w != [] && !IsBlank(w) && !Contains(w, "(") && !Contains(w, "GMG")
  }

  /** The distinct offerable slang words of the glossary, in first-occurrence order. */
  function TrendingPool(slangs: seq<string>): (r: seq<string>)
    ensures NoDup(r)
    ensures forall k :: 0 <= k < |r| ==> Offerable(r[k]) && r[k] in slangs
    ensures forall k :: 0 <= k < |slangs| && Offerable(slangs[k]) ==> slangs[k] in r
  {
    var d := Dedup(slangs);
    var r := Filter(d, Offerable);
    SubsequenceMembers(r, d);
    NoDupSubsequence(r, d);
    r
  }

  /**
   * The trending tags: the glossary's slang words (`None` when the glossary
   * fails to load, which shows the fixed fallback words) reduced to the
   * pool, put in an arbitrary order `order` (the random-comparator sort), of
   * which the first seven are taken.
   */
  function Trending(slangs: Option<seq<string>>, order: seq<string>): (r: seq<string>)
    requires slangs.Some? ==> multiset(order) == multiset(TrendingPool(slangs.value))
    ensures slangs.None? ==> r == FallbackTrending
    ensures |r| <= TrendingCount
    ensures slangs.Some? ==> NoDup(r)
    ensures slangs.Some? ==> forall k :: 0 <= k < |r| ==> Offerable(r[k]) && r[k] in slangs.value
    ensures slangs.Some? && |TrendingPool(slangs.value)| >= TrendingCount ==> |r| == TrendingCount
    ensures slangs.Some? ==> (r <= order && |r| == if |order| < TrendingCount then |order| else TrendingCount)
  {
    if slangs.None? then FallbackTrending
    else
      TakeFromPool(slangs.value, order);
      Take(order, TrendingCount)
  }

  /** The first seven of any order of the pool are distinct offerable glossary words; the order is as long as the pool. */
  lemma TakeFromPool(slangs: seq<string>, order: seq<string>)
    requires multiset(order) == multiset(TrendingPool(slangs))
    ensures |order| == |TrendingPool(slangs)|
    ensures var r := Take(order, TrendingCount);
      NoDup(r) && forall k :: 0 <= k < |r| ==> Offerable(r[k]) && r[k] in slangs
  {
    var pool := TrendingPool(slangs);
    NoDupPermutation(order, pool);
    var r := Take(order, TrendingCount);
    forall k | 0 <= k < |r| ensures Offerable(r[k]) && r[k] in slangs {
      assert r[k] in multiset(pool);
    }
    assert |multiset(order)| == |multiset(pool)|;
  }
}
