// Matching books against Aladin search results in the Python backend
// (backend/app.py): the two `normalize_string` helpers, the score of an item
// in `/aladin/search_book` and the loop that keeps the best one, the score of
// an item in `/recommend/books` and the query loop that stops at the first
// good enough match, the ISBN and cover clean-up, the Naver `display` clamp
// and the Hangul-only filter of `/recognize`. The HTTP requests are left out:
// their replies are inputs (`None` for a failed request or one without items).
module BookMatch {
  import opened Wrappers
  import opened Seqs
  import opened Strings

  predicate NotSpace(c: char) { c != ' ' }
  predicate NotIdeographicSpace(c: char) { c != '\U{3000}' }
  predicate NotAnySpace(c: char) { c != ' ' && c != '\U{3000}' }

  /**
   * `normalize_string` of `/aladin/search_book`: spaces removed, then
   * lower-cased; that is, the lower-cased input with exactly its spaces
   * dropped.
   */
  function Normalize(s: string): (r: string)
    ensures |r| <= |s|
    ensures forall k :: 0 <= k < |r| ==> r[k] != ' ' && !('A' <= r[k] <= 'Z')
    ensures KeepsExactly(r, ToLower(s), NotSpace)
  {
    SubsequenceMembers(Filter(s, NotSpace), s);
    FilterToLower(s, NotSpace);
    FilterKeepsExactly(ToLower(s), NotSpace);
    ToLower(Filter(s, NotSpace))
  }

  /** Lower-casing creates no space, so a lower-cased string without spaces passes the filter untouched. */
  lemma LowerKeepsNoSpace(t: string)
    requires forall k :: 0 <= k < |t| ==> t[k] != ' '
    ensures Filter(ToLower(t), NotSpace) == ToLower(t)
  {
    FilterKeepsAll(ToLower(t), NotSpace);
  }

  /** Normalising twice is normalising once. */
  lemma NormalizeIdempotent(s: string)
    ensures Normalize(Normalize(s)) == Normalize(s)
  {
    var t := Filter(s, NotSpace);
    LowerKeepsNoSpace(t);
    ToLowerIdempotent(t);
  }

  /** The spaces of a string make no difference: it normalises like the string without them. */
  lemma NormalizeIgnoresSpaces(a: string, b: string)
    ensures Normalize(a + " " + b) == Normalize(a + b)
  {
    SpaceFiltered(a, b);
  }

  lemma SpaceFiltered(a: string, b: string)
    ensures Filter(a + " " + b, NotSpace) == Filter(a + b, NotSpace)
  {
    assert Filter(" ", NotSpace) == [] by {
      assert " "[1..] == [];
    }
    calc {
      Filter(a + " " + b, NotSpace);
      { FilterAppend(a + " ", b, NotSpace); }
      Filter(a + " ", NotSpace) + Filter(b, NotSpace);
      { FilterAppend(a, " ", NotSpace); }
      Filter(a, NotSpace) + [] + Filter(b, NotSpace);
      { assert Filter(a, NotSpace) + [] == Filter(a, NotSpace); }
      Filter(a, NotSpace) + Filter(b, NotSpace);
      { FilterAppend(a, b, NotSpace); }
      Filter(a + b, NotSpace);
    }
  }

  /**
   * `normalize_string` of `/recommend/books`: a falsy input (None or "")
   * gives ""; otherwise spaces and ideographic spaces (U+3000) are removed
   * and the rest lower-cased.
   */
  function NormalizeFull(s: Option<string>): (r: string)
    ensures s.None? || s.value == "" ==> r == ""
    ensures forall k :: 0 <= k < |r| ==> r[k] != ' ' && r[k] != '\U{3000}' && !('A' <= r[k] <= 'Z')
    ensures s.Some? && s.value != "" ==> KeepsExactly(r, ToLower(s.value), NotAnySpace)
  {
    if s.None? || s.value == "" then ""
    else
      var once := Filter(s.value, NotSpace);
      var twice := Filter(once, NotIdeographicSpace);
      SubsequenceMembers(twice, once);
      FilterTwice(s.value, NotSpace, NotIdeographicSpace, NotAnySpace);
      FilterToLower(s.value, NotAnySpace);
      FilterKeepsExactly(ToLower(s.value), NotAnySpace);
      ToLower(twice)
  }

  /** The second helper agrees with the first on text without ideographic spaces. */
  lemma NormalizeFullExtends(s: string)
    requires '\U{3000}' !in s
    ensures NormalizeFull(Some(s)) == Normalize(s)
  {
    var t := Filter(s, NotSpace);
    forall k | 0 <= k < |t| ensures NotIdeographicSpace(t[k]) {
      SubsequenceMembers(t, s);
      assert t[k] in s;
    }
    FilterKeepsAll(t, NotIdeographicSpace);
  }

  /** The second helper is idempotent too. */
  lemma NormalizeFullIdempotent(s: Option<string>)
    ensures NormalizeFull(Some(NormalizeFull(s))) == NormalizeFull(s)
  {
    var r := NormalizeFull(s);
    if r != "" {
      FilterKeepsAll(r, NotSpace);
      FilterKeepsAll(r, NotIdeographicSpace);
    }
  }

  /** An Aladin search item; an absent field reads as `item.get(name, default)` does. */
  datatype AladinItem = AladinItem(
    title: Option<string>,
    author: Option<string>,
    isbn13: Option<string>,
    isbn: Option<string>,
    cover: string,
    publisher: string,
    pubDate: string,
    priceStandard: int,
    link: string,
    salesPoint: int)

  /**
   * The score of one item in `/aladin/search_book`: 10 when either
   * normalised title contains the other, plus 5 when a given (non-empty)
   * normalised author is contained in the item's.
   */
  function AladinScore(nt: string, na: string, it: string, ia: string): (s: nat)
    ensures s == 0 || s == 5 || s == 10 || s == 15
    ensures s >= 10 <==> Contains(it, nt) || Contains(nt, it)
    ensures s % 10 == 5 <==> na != "" && Contains(ia, na)
  {
    (if Contains(it, nt) || Contains(nt, it) then 10 else 0) + (if na != "" && Contains(ia, na) then 5 else 0)
  }

  /** The score `/aladin/search_book` gives an item for the requested title and author ("" when none). */
  function MatchScore(title: string, author: string, item: AladinItem): nat {
    AladinScore(Normalize(title), if author != "" then Normalize(author) else "",
                Normalize(item.title.GetOr("")), Normalize(item.author.GetOr("")))
  }

  function MatchScorer(title: string, author: string): AladinItem -> nat {
    (item: AladinItem) => MatchScore(title, author, item)
  }

  /**
   * The best-match loop of `/aladin/search_book` (run only when the search
   * returned items): the first item of maximal score, which is the first
   * item when every score is 0.
   */
  method BestMatch(items: seq<AladinItem>, title: string, author: string) returns (best: nat)
    requires |items| > 0
    ensures best < |items|
    ensures forall j :: 0 <= j < |items| ==> MatchScorer(title, author)(items[j]) <= MatchScorer(title, author)(items[best])
    ensures forall j :: 0 <= j < best ==> MatchScorer(title, author)(items[j]) < MatchScorer(title, author)(items[best])
  {
    best := FirstBest(items, MatchScorer(title, author));
  }

  /** `best_match`, `best_score` over the items: replaced only by a strictly higher score. */
  method FirstBest(items: seq<AladinItem>, score: AladinItem -> nat) returns (best: nat)
    requires |items| > 0
    ensures best < |items|
    ensures forall j :: 0 <= j < |items| ==> score(items[j]) <= score(items[best])
    ensures forall j :: 0 <= j < best ==> score(items[j]) < score(items[best])
  {
    best := 0;
    var bestScore := 0;
    var i := 0;
    while i < |items|
      invariant 0 <= i <= |items| && best < |items|
      invariant i == 0 ==> best == 0 && bestScore == 0
      invariant i > 0 ==> best < i && bestScore == score(items[best])
      invariant forall j :: 0 <= j < i ==> score(items[j]) <= bestScore
      invariant forall j :: 0 <= j < best ==> score(items[j]) < bestScore
    {
      var s := score(items[i]);
      if s > bestScore {
        bestScore := s;
        best := i;
      }
      i := i + 1;
    }
  }

  /** The white space Python's `str.split()` splits on. */
  predicate IsPythonSpace(c: char) {
    c == ' ' || ('\t' <= c <= '\r') || ('\U{001C}' <= c <= '\U{001F}') || c == '\U{0085}' ||
    c == '\U{00A0}' || c == '\U{1680}' || ('\U{2000}' <= c <= '\U{200A}') ||
    c == '\U{2028}' || c == '\U{2029}' || c == '\U{202F}' || c == '\U{205F}' || c == '\U{3000}'
  }

  /**
   * The pieces of `s` between separator characters (empty pieces
   * included): one more piece than separators, none holding a separator,
   * and glued back with the separators in their order they give `s`.
   */
  function SplitWhere(s: string, sep: char -> bool): (r: seq<string>)
    ensures |r| == |Filter(s, sep)| + 1
    ensures forall k, j :: 0 <= k < |r| && 0 <= j < |r[k]| ==> !sep(r[k][j])
    ensures Glue(r, Filter(s, sep)) == s
    decreases |s|
  {
    if s == [] then [""]
    else
      var rest := SplitWhere(s[1..], sep);
      if sep(s[0]) then
        assert Glue([""] + rest, [s[0]] + Filter(s[1..], sep)) == [s[0]] + s[1..];
        [""] + rest
      else
        var r := [[s[0]] + rest[0]] + rest[1..];
        GlueFront(s[0], rest, Filter(s[1..], sep));
        assert forall k, j :: 0 <= k < |r| && 0 <= j < |r[k]| ==> !sep(r[k][j]) by {
          forall k, j | 0 <= k < |r| && 0 <= j < |r[k]| ensures !sep(r[k][j]) {
            if k == 0 {
              if j > 0 {
                assert r[0][j] == rest[0][j - 1];
              }
            } else {
              assert r[k] == rest[k];
            }
          }
        }
        r
  }

  /** The pieces joined, the `k`-th separator between pieces `k` and `k + 1`. */
  function Glue(pieces: seq<string>, seps: string): string
    requires |pieces| == |seps| + 1
    decreases |seps|
  {
    if seps == [] then pieces[0] else pieces[0] + [seps[0]] + Glue(pieces[1..], seps[1..])
  }

  lemma GlueFront(c: char, pieces: seq<string>, seps: string)
    requires |pieces| == |seps| + 1
    ensures Glue([[c] + pieces[0]] + pieces[1..], seps) == [c] + Glue(pieces, seps)
  {
    var q := [[c] + pieces[0]] + pieces[1..];
    assert q[1..] == pieces[1..];
  }

  lemma {:induction false} SplitWhereNone(s: string, sep: char -> bool)
    requires forall k :: 0 <= k < |s| ==> !sep(s[k])
    ensures SplitWhere(s, sep) == [s]
    decreases |s|
  {
    if s != [] {
      assert !sep(s[0]);
      SplitWhereNone(s[1..], sep);
      assert [s[0]] + s[1..] == s;
    }
  }

  predicate NonEmpty(w: string) { w != "" }
  predicate NotParen(c: char) { c != '(' && c != ')' }

  /** `set(s.replace('(', '').replace(')', '').split())`. */
  function WordSet(s: string): set<string> {
    WordsIn(Filter(s, NotParen))
  }

  /** The non-empty runs of non-white-space characters of `t`, as a set. */
  function WordsIn(t: string): set<string> {
    SetOf(Filter(SplitWhere(t, IsPythonSpace), NonEmpty))
  }

  /** The distinct members of a sequence, as a set. */
  function SetOf(w: seq<string>): (r: set<string>)
    ensures forall x :: x in r <==> x in w
    decreases |w|
  {
    if w == [] then {} else {w[0]} + SetOf(w[1..])
  }

  /** A text without white space is one word (after removing parentheses), or none. */
  lemma WordSetWithoutSpace(s: string)
    requires forall k :: 0 <= k < |s| ==> !IsPythonSpace(s[k])
    ensures WordSet(s) == if Filter(s, NotParen) == "" then {} else {Filter(s, NotParen)}
  {
    var t := Filter(s, NotParen);
    SubsequenceAvoids(t, s, IsPythonSpace);
    WordsOfOne(t);
  }

  lemma WordsOfOne(t: string)
    requires forall k :: 0 <= k < |t| ==> !IsPythonSpace(t[k])
    ensures WordsIn(t) == if t == "" then {} else {t}
  {
    SplitWhereNone(t, IsPythonSpace);
    FilterSingle(t);
    assert [t][1..] == [];
  }

  /** A subsequence of a text with no character of some kind has none either. */
  lemma SubsequenceAvoids(t: string, s: string, p: char -> bool)
    requires IsSubsequence(t, s)
    requires forall k :: 0 <= k < |s| ==> !p(s[k])
    ensures forall k :: 0 <= k < |t| ==> !p(t[k])
  {
    SubsequenceMembers(t, s);
    forall k | 0 <= k < |t| ensures !p(t[k]) {
      assert t[k] in s;
    }
  }

  lemma FilterSingle(t: string)
    ensures Filter([t], NonEmpty) == if t == "" then [] else [t]
  {
    assert [t][1..] == [];
  }

  /**
   * The title part of the `/recommend/books` score: nothing for an empty
   * title; 50 for the same normalised title, 30 when the item's contains
   * it, 20 when it contains the item's, else 5 per common word.
   */
  function TitleScore(nt: string, it: string): (s: nat)
    ensures nt == "" ==> s == 0
    ensures nt != "" && nt == it ==> s == 50
    ensures nt != "" && nt != it && Contains(it, nt) ==> s == 30
    ensures nt != "" && !Contains(it, nt) && Contains(nt, it) ==> s == 20
    ensures nt != "" && !Contains(it, nt) && !Contains(nt, it) ==> s == 5 * |WordSet(nt) * WordSet(it)|
  {
    if nt == "" then 0
    else if nt == it then 50
    else if Contains(it, nt) then 30
    else if Contains(nt, it) then 20
    else 5 * |WordSet(nt) * WordSet(it)|
  }

  lemma ContainsEachOther(a: string, b: string)
    requires Contains(a, b) && Contains(b, a)
    ensures a == b
  {
    ContainsBound(a, b);
    ContainsBound(b, a);
    EqualLengthContainment(a, b);
  }

  /**
   * On normalised titles without white space the word count adds at most 5
   * (the whole titles are single words), and 50 is reached exactly for the
   * same title.
   */
  lemma TitleScoreWithoutSpace(nt: string, it: string)
    requires forall k :: 0 <= k < |nt| ==> !IsPythonSpace(nt[k])
    requires forall k :: 0 <= k < |it| ==> !IsPythonSpace(it[k])
    ensures var s := TitleScore(nt, it);
      (s == 0 || s == 5 || s == 20 || s == 30 || s == 50) && (s == 50 <==> nt != "" && nt == it)
  {
    WordSetWithoutSpace(nt);
    WordSetWithoutSpace(it);
    var common := WordSet(nt) * WordSet(it);
    assert common <= WordSet(nt);
    if WordSet(nt) != {} {
      var w :| w in WordSet(nt);
      assert WordSet(nt) == {w};
      assert common == {} || common == {w};
    }
    if nt != "" && nt != it && Contains(it, nt) && Contains(nt, it) {
      ContainsEachOther(nt, it);
    }
  }

  /** The author part of the `/recommend/books` score: 15 when both are non-empty and either contains the other. */
  function AuthorScore(na: string, ia: string): (s: nat)
    ensures s == 0 || s == 15
    ensures s == 15 <==> na != "" && ia != "" && (Contains(ia, na) || Contains(na, ia))
  {
    if na != "" && ia != "" && (Contains(ia, na) || Contains(na, ia)) then 15 else 0
  }

  /** The score `/recommend/books` gives an item, from the normalised recommended title and author. */
  function RecScore(nt: string, na: string, item: AladinItem): nat {
    TitleScore(nt, NormalizeFull(item.title)) + AuthorScore(na, NormalizeFull(item.author))
  }

  function RecScorer(title: string, author: string): AladinItem -> nat {
    var nt := NormalizeFull(Some(title));
    var na := if author != "" then NormalizeFull(Some(author)) else "";
    (item: AladinItem) => RecScore(nt, na, item)
  }

  /** The best score so far and the item that holds it (`best_score`, `best_match`). */
  datatype Best = Best(score: nat, item: Option<AladinItem>)

  /**
   * The inner loop as a fold: an item replaces the best only when it scores
   * strictly more, so the best is kept exactly when no item beats it.
   */
  function ScanItems(items: seq<AladinItem>, score: AladinItem -> nat, b: Best): (r: Best)
    ensures r.score >= b.score
    ensures forall k :: 0 <= k < |items| ==> score(items[k]) <= r.score
    ensures r == b <==> forall k :: 0 <= k < |items| ==> score(items[k]) <= b.score
    ensures r != b ==> r.item.Some? && r.item.value in items && score(r.item.value) == r.score
    decreases |items|
  {
    if items == [] then b
    else
      var s := score(items[0]);
      var r := ScanItems(items[1..], score, if s > b.score then Best(s, Some(items[0])) else b);
      assert forall k :: 1 <= k < |items| ==> items[k] == items[1..][k - 1];
      r
  }

  /** When some item beats the best, the scan ends on the first item of maximal score. */
  lemma {:induction false} ScanItemsFirst(items: seq<AladinItem>, score: AladinItem -> nat, b: Best) returns (i: nat)
    requires ScanItems(items, score, b) != b
    ensures i < |items| && ScanItems(items, score, b) == Best(score(items[i]), Some(items[i]))
    ensures forall j :: 0 <= j < i ==> score(items[j]) < score(items[i])
    decreases |items|
  {
    var s := score(items[0]);
    var b' := if s > b.score then Best(s, Some(items[0])) else b;
    var r := ScanItems(items[1..], score, b');
    assert ScanItems(items, score, b) == r;
    if r == b' {
      i := 0;
    } else {
      var i' := ScanItemsFirst(items[1..], score, b');
      i := i' + 1;
      assert items[i] == items[1..][i'];
      var k' :| 0 <= k' < |items[1..]| && score(items[1..][k']) > b'.score;
      forall j | 0 <= j < i ensures score(items[j]) < score(items[i]) {
        if j > 0 {
          assert items[j] == items[1..][j - 1];
        }
      }
    }
  }

  /** Scanning two runs of items one after the other is scanning them as one run. */
  lemma {:induction false} ScanItemsAppend(a: seq<AladinItem>, c: seq<AladinItem>, score: AladinItem -> nat, b: Best)
    ensures ScanItems(a + c, score, b) == ScanItems(c, score, ScanItems(a, score, b))
    decreases |a|
  {
    if a == [] {
      assert a + c == c;
    } else {
      assert (a + c)[0] == a[0] && (a + c)[1..] == a[1..] + c;
      var s := score(a[0]);
      ScanItemsAppend(a[1..], c, score, if s > b.score then Best(s, Some(a[0])) else b);
    }
  }

  function ItemsOf(reply: Option<seq<AladinItem>>): seq<AladinItem> {
    if reply.Some? then reply.value else []
  }

  /** The items of all replies, in query order. */
  function AllItems(replies: seq<Option<seq<AladinItem>>>): seq<AladinItem>
    decreases |replies|
  {
    if replies == [] then [] else AllItems(replies[..|replies| - 1]) + ItemsOf(replies[|replies| - 1])
  }

  /** The state after the replies of the queries asked so far, in order. */
  function ScanReplies(replies: seq<Option<seq<AladinItem>>>, score: AladinItem -> nat): (r: Best)
    ensures r.item.Some? ==> score(r.item.value) == r.score
    ensures r.item.None? ==> r.score == 0
    decreases |replies|
  {
    if replies == [] then Best(0, None)
    else ScanItems(ItemsOf(replies[|replies| - 1]), score, ScanReplies(replies[..|replies| - 1], score))
  }

  /**
   * The replies are scanned as one run of all their items from
   * `best_score = 0` and no match: by `ScanItems` and `ScanItemsFirst`, the
   * first item of maximal score over every reply, and none while every
   * score is 0.
   */
  lemma {:induction false} ScanRepliesAll(replies: seq<Option<seq<AladinItem>>>, score: AladinItem -> nat)
    ensures ScanReplies(replies, score) == ScanItems(AllItems(replies), score, Best(0, None))
    decreases |replies|
  {
    if replies != [] {
      var init := replies[..|replies| - 1];
      ScanRepliesAll(init, score);
      ScanItemsAppend(AllItems(init), ItemsOf(replies[|replies| - 1]), score, Best(0, None));
    }
  }

  /** `best_score` never decreases from one query to the next. */
  lemma BestScoreMonotone(replies: seq<Option<seq<AladinItem>>>, score: AladinItem -> nat, j: nat, k: nat)
    requires j <= k <= |replies|
    ensures ScanReplies(replies[..j], score).score <= ScanReplies(replies[..k], score).score
  {
    PrefixMonotone(replies[..j], replies[..k], score);
  }

  lemma {:induction false} PrefixMonotone(p: seq<Option<seq<AladinItem>>>, r: seq<Option<seq<AladinItem>>>, score: AladinItem -> nat)
    requires p <= r
    ensures ScanReplies(p, score).score <= ScanReplies(r, score).score
    decreases |r|
  {
    if |p| < |r| {
      var init := r[..|r| - 1];
      assert p <= init;
      PrefixMonotone(p, init, score);
      assert ScanReplies(r, score) == ScanItems(ItemsOf(r[|r| - 1]), score, ScanReplies(init, score));
    } else {
      assert p == r;
    }
  }

  /** The best score bounds every item of every reply seen. */
  lemma {:induction false} BestScoreBounds(replies: seq<Option<seq<AladinItem>>>, score: AladinItem -> nat, q: nat, x: AladinItem)
    requires q < |replies| && x in ItemsOf(replies[q])
    ensures score(x) <= ScanReplies(replies, score).score
    decreases |replies|
  {
    var init := replies[..|replies| - 1];
    if q < |replies| - 1 {
      assert init[q] == replies[q];
      BestScoreBounds(init, score, q, x);
    }
  }

  /**
   * The query loop of `/recommend/books` after the direct ISBN look-up
   * failed or was skipped: the queries are asked in order, each reply's
   * items rescored against the best so far, and the loop stops after the
   * first query that leaves `best_score` at 10 or more.
   */
  method SearchBest(title: string, author: string, replies: seq<Option<seq<AladinItem>>>)
    returns (best: Option<AladinItem>, bestScore: nat, found: bool, asked: nat)
    ensures asked <= |replies|
    ensures Best(bestScore, best) == ScanReplies(replies[..asked], RecScorer(title, author))
    ensures found <==> bestScore >= 10
    ensures !found ==> asked == |replies|
    ensures forall k :: 0 <= k < asked ==> ScanReplies(replies[..k], RecScorer(title, author)).score < 10
  {
    best, bestScore, found, asked := SearchWith(replies, RecScorer(title, author));
  }

  /** The query loop for a given scoring of items. */
  method SearchWith(replies: seq<Option<seq<AladinItem>>>, score: AladinItem -> nat)
    returns (best: Option<AladinItem>, bestScore: nat, found: bool, asked: nat)
    ensures asked <= |replies|
    ensures Best(bestScore, best) == ScanReplies(replies[..asked], score)
    ensures found <==> bestScore >= 10
    ensures !found ==> asked == |replies|
    ensures forall k :: 0 <= k < asked ==> ScanReplies(replies[..k], score).score < 10
  {
    best, bestScore, found := None, 0, false;
    var i := 0;
    while i < |replies|
      invariant 0 <= i <= |replies|
      invariant Best(bestScore, best) == ScanReplies(replies[..i], score)
      invariant !found && bestScore < 10
    {
      if found {
        break;
      }
      var items := ItemsOf(replies[i]);
      best, bestScore := ScanReply(items, score, best, bestScore);
      ScanRepliesStep(replies, score, i, Best(bestScore, best));
      if items != [] && bestScore >= 10 {
        found := true;
        asked := i + 1;
        return;
      }
      i := i + 1;
    }
    asked := i;
    EarlierBelow(replies, score, i);
  }

  /** One more reply extends the scan by that reply's items. */
  lemma ScanRepliesStep(replies: seq<Option<seq<AladinItem>>>, score: AladinItem -> nat, i: nat, b: Best)
    requires i < |replies| && ScanReplies(replies[..i], score).score < 10
    requires b == ScanItems(ItemsOf(replies[i]), score, ScanReplies(replies[..i], score))
    ensures b == ScanReplies(replies[..i + 1], score)
    ensures forall k :: 0 <= k <= i ==> ScanReplies(replies[..k], score).score < 10
  {
    assert replies[..i + 1][..i] == replies[..i];
    EarlierBelow(replies, score, i);
  }

  /** Every earlier prefix scores no more than prefix `i`, so below the threshold when prefix `i` is. */
  lemma EarlierBelow(replies: seq<Option<seq<AladinItem>>>, score: AladinItem -> nat, i: nat)
    requires i <= |replies| && ScanReplies(replies[..i], score).score < 10
    ensures forall k :: 0 <= k <= i ==> ScanReplies(replies[..k], score).score < 10
  {
    forall k | 0 <= k <= i ensures ScanReplies(replies[..k], score).score < 10 {
      BestScoreMonotone(replies, score, k, i);
    }
  }

  /** The inner loop over one reply's items: the best so far is replaced only by a strictly higher score. */
  method ScanReply(items: seq<AladinItem>, score: AladinItem -> nat, best0: Option<AladinItem>, bestScore0: nat)
    returns (best: Option<AladinItem>, bestScore: nat)
    ensures Best(bestScore, best) == ScanItems(items, score, Best(bestScore0, best0))
  {
    best, bestScore := best0, bestScore0;
    var j := 0;
    while j < |items|
      invariant 0 <= j <= |items|
      invariant ScanItems(items[j..], score, Best(bestScore, best)) == ScanItems(items, score, Best(bestScore0, best0))
    {
      assert items[j..][1..] == items[j + 1..];
      var s := score(items[j]);
      if s > bestScore {
        bestScore := s;
        best := Some(items[j]);
      }
      j := j + 1;
    }
  }

  const AladinImagePrefix: string := "https://image.aladin.co.kr/product/"

  /** A non-empty cover that does not start with `http` is given the Aladin image prefix; anything else is kept. */
  function AladinCover(cover: string): (r: string)
    ensures cover == "" ==> r == ""
    ensures "http" <= cover ==> r == cover
    ensures cover != "" && !("http" <= cover) ==> r == AladinImagePrefix + cover
    ensures r == "" || "http" <= r
  {
    if cover != "" && !("http" <= cover) then AladinImagePrefix + cover else cover
  }

  lemma AladinCoverIdempotent(cover: string)
    ensures AladinCover(AladinCover(cover)) == AladinCover(cover)
  {
  }

  predicate NotDash(c: char) { c != '-' }

  /** `isbn.replace('-', '')`: every character but the dashes, in order. */
  function StripDashes(isbn: string): (r: string)
    ensures '-' !in r
    ensures KeepsExactly(r, isbn, NotDash)
    ensures '-' !in isbn ==> r == isbn
  {
    FilterKeepsExactly(isbn, NotDash);
    var r := Filter(isbn, NotDash);
    assert '-' !in isbn ==> r == isbn by {
      if '-' !in isbn {
        FilterKeepsAll(isbn, NotDash);
      }
    }
    r
  }

  datatype IdType = ISBN13 | ISBN

  predicate NotDashOrSpace(c: char) { c != '-' && c != ' ' }

  /**
   * `gemini_isbn.strip()` cleaned of `-` and spaces (an empty ISBN stays
   * empty): every character of the stripped text but dashes and spaces, in
   * order.
   */
  function CleanGeminiIsbn(geminiIsbn: string): (r: string)
    ensures '-' !in r && ' ' !in r
    ensures IsSubsequence(r, geminiIsbn)
    ensures KeepsExactly(r, Trim(geminiIsbn), NotDashOrSpace)
  {
    var stripped := Trim(geminiIsbn);
    var once := Filter(stripped, NotDash);
    var cleaned := Filter(once, NotSpace);
    TrimSubsequence(geminiIsbn);
    SubsequenceTransitive(once, stripped, geminiIsbn);
    SubsequenceTransitive(cleaned, once, geminiIsbn);
    SubsequenceMembers(cleaned, once);
    FilterTwice(stripped, NotDash, NotSpace, NotDashOrSpace);
    FilterKeepsExactly(stripped, NotDashOrSpace);
    cleaned
  }

  /**
   * The direct look-up of an ISBN that Gemini suggested: attempted only
   * with at least 10 characters left after cleaning, as an `ISBN13` id
   * exactly when 13 are left.
   */
  function DirectLookup(geminiIsbn: string): (r: Option<(string, IdType)>)
    ensures r.Some? <==> |CleanGeminiIsbn(geminiIsbn)| >= 10
    ensures r.Some? ==> r.value.0 == CleanGeminiIsbn(geminiIsbn)
    ensures r.Some? ==> (r.value.1 == ISBN13 <==> |r.value.0| == 13)
    ensures Trim(geminiIsbn) == "" ==> r.None?
  {
    var cleaned := CleanGeminiIsbn(geminiIsbn);
    if Trim(geminiIsbn) == "" then
      assert cleaned == "" by {
        FilterEmpty(NotDash);
        FilterEmpty(NotSpace);
      }
      None
    else if |cleaned| >= 10 then Some((cleaned, if |cleaned| == 13 then ISBN13 else ISBN))
    else None
  }

  lemma FilterEmpty(p: char -> bool)
    ensures Filter([], p) == []
  {
  }

  /** A trimmed string is a block of the original, so a subsequence of it. */
  lemma TrimSubsequence(s: string)
    ensures IsSubsequence(Trim(s), s)
  {
    var t := TrimStart(s);
    var u := TrimEnd(t);
    TrimStartSuffix(s);
    SuffixSubsequence(s, |s| - |t|);
    PrefixSubsequence(t, |u|);
    SubsequenceTransitive(u, t, s);
  }

  lemma {:induction false} SuffixSubsequence(s: string, i: nat)
    requires i <= |s|
    ensures IsSubsequence(s[i..], s)
    decreases i
  {
    if i == 0 {
      assert s[0..] == s;
      SubsequenceReflexive(s);
    } else {
      SuffixSubsequence(s[1..], i - 1);
      assert s[1..][i - 1..] == s[i..];
    }
  }

  lemma {:induction false} PrefixSubsequence(s: string, n: nat)
    requires n <= |s|
    ensures IsSubsequence(s[..n], s)
    decreases |s|
  {
    if n == |s| {
      assert s[..n] == s;
      SubsequenceReflexive(s);
    } else if n == 0 {
      EmptySubsequence(s);
    } else {
      PrefixSubsequence(s[1..], n - 1);
      assert s[..n] == [s[0]] + s[1..][..n - 1];
    }
  }

  lemma {:induction false} EmptySubsequence(s: string)
    ensures IsSubsequence([], s)
    decreases |s|
  {
    if s != [] {
      EmptySubsequence(s[1..]);
    }
  }

  /** A cleaned id is cleaned to itself, when the only white space given was spaces. */
  lemma CleanGeminiIsbnIdempotent(geminiIsbn: string)
    requires forall k :: 0 <= k < |geminiIsbn| && geminiIsbn[k] != ' ' ==> !IsWhitespace(geminiIsbn[k])
    ensures CleanGeminiIsbn(CleanGeminiIsbn(geminiIsbn)) == CleanGeminiIsbn(geminiIsbn)
  {
    var id := CleanGeminiIsbn(geminiIsbn);
    NoWhitespaceLeft(id, geminiIsbn);
    assert Trim(id) == id by {
      TrimNothing(id);
    }
    assert Filter(id, NotDash) == id by {
      FilterKeepsAll(id, NotDash);
    }
    assert Filter(id, NotSpace) == id by {
      FilterKeepsAll(id, NotSpace);
    }
  }

  lemma TrimNothing(s: string)
    requires forall k :: 0 <= k < |s| ==> !IsWhitespace(s[k])
    ensures Trim(s) == s
  {
    if s != [] {
      assert !IsWhitespace(s[0]) && !IsWhitespace(s[|s| - 1]);
      TrimIdempotent(s);
    }
  }

  lemma NoWhitespaceLeft(id: string, given: string)
    requires IsSubsequence(id, given) && ' ' !in id
    requires forall k :: 0 <= k < |given| && given[k] != ' ' ==> !IsWhitespace(given[k])
    ensures forall k :: 0 <= k < |id| ==> !IsWhitespace(id[k])
  {
    forall k | 0 <= k < |id| ensures !IsWhitespace(id[k]) {
      SubsequenceMembers(id, given);
      assert id[k] in given && id[k] != ' ';
    }
  }

  /** `min(display, 100)`: the number of Naver results asked for never exceeds 100. */
  function ClampDisplay(display: int): (r: int)
    ensures r <= 100
    ensures display <= 100 ==> r == display
    ensures display > 100 ==> r == 100
  {
    if display < 100 then display else 100
  }

  /** The characters `re.sub(r'[^가-힣ㄱ-ㅎㅏ-ㅣ]', '', text)` keeps. */
  predicate KoreanChar(c: char) {
    ('가' <= c <= '힣') || ('ㄱ' <= c <= 'ㅎ') || ('ㅏ' <= c <= 'ㅣ')
  }

  /** The handwriting recogniser's Hangul-only filter: every Korean character of `text`, in order. */
  function KoreanOnly(text: string): (r: string)
    ensures forall k :: 0 <= k < |r| ==> KoreanChar(r[k])
    ensures KeepsExactly(r, text, KoreanChar)
  {
    FilterKeepsExactly(text, KoreanChar);
    Filter(text, KoreanChar)
  }

  /** The backend keeps exactly the characters the front end keeps. */
  lemma KoreanOnlyIsHangulOnly(text: string)
    ensures KoreanOnly(text) == HangulOnly(text)
  {
    assert forall c :: KoreanChar(c) == IsHangul(c);
    FilterSame(text, KoreanChar, IsHangul);
  }

  lemma {:induction false} FilterSame(s: string, p: char -> bool, q: char -> bool)
    requires forall c :: p(c) == q(c)
    ensures Filter(s, p) == Filter(s, q)
    decreases |s|
  {
    if s != [] {
      FilterSame(s[1..], p, q);
    }
  }

  /** A book as the backend returns it. */
  datatype BackendBook = BackendBook(
    id: string,
    title: string,
    author: string,
    description: string,
    coverImageUrl: string,
    isbn: string,
    publisher: string,
    pubdate: string,
    price: int,
    link: string)

  /** `isbn13 if isbn13 else isbn` (each `''` when absent), dashes removed. */
  function MatchIsbn(item: AladinItem): (r: string)
    ensures '-' !in r
    ensures item.isbn13.GetOr("") != "" ==> KeepsExactly(r, item.isbn13.GetOr(""), NotDash)
    ensures item.isbn13.GetOr("") == "" ==> KeepsExactly(r, item.isbn.GetOr(""), NotDash)
  {
    var i13 := item.isbn13.GetOr("");
    var final := if i13 != "" then i13 else item.isbn.GetOr("");
    StripDashes(final)
  }

  /**
   * The entry `/recommend/books` adds for a found match: the cleaned ISBN as
   * id (title-author when there is none), the match's title and author
   * (the recommended ones when absent), the recommendation's description
   * and the cover given the Aladin prefix.
   */
  function EnrichedBook(title: string, author: string, aiDescription: string, m: AladinItem): (b: BackendBook)
    ensures b.id != ""
    ensures b.isbn == MatchIsbn(m)
    ensures b.isbn != "" ==> b.id == b.isbn
    ensures b.isbn == "" ==> b.id == title + "-" + author
    ensures b.title == m.title.GetOr(title) && b.author == m.author.GetOr(author)
    ensures b.description == aiDescription
    ensures b.coverImageUrl == AladinCover(m.cover) && (b.coverImageUrl == "" || "http" <= b.coverImageUrl)
  {
    var isbn := MatchIsbn(m);
    BackendBook(if isbn != "" then isbn else title + "-" + author, m.title.GetOr(title), m.author.GetOr(author),
                aiDescription, AladinCover(m.cover), isbn, m.publisher, m.pubDate, m.priceStandard, m.link)
  }
}
