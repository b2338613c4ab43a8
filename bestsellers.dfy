// The level-based bestseller list of `/recommend/books` (backend/app.py):
// Aladin search items are kept only when their title looks like a Korean
// textbook of the requested level, collected without two entries for one
// ISBN or one series, sorted by sales and cut to three books. The searches
// are left out: the items of all the replies, in order, are the input.
// `extract_series_name` (a set of regular expressions) is the parameter
// `series`.
module Bestsellers {
  import opened Wrappers
  import opened Seqs
  import opened Strings
  import opened BookMatch

  /** Words that mark a Korean textbook; compared upper-cased. */
  const TextbookKeywords: seq<string> :=
    ["한국어", "TOPIK", "KOREAN", "한글", "문법", "교재", "학습", "입문", "기초", "중급", "고급"]

  const BeginnerKeywords: seq<string> := ["초급", "입문", "기초", "1급", "2급", "1단계", "2단계", "beginner", "basic"]
  const IntermediateKeywords: seq<string> := ["중급", "3급", "4급", "2단계", "3단계", "intermediate"]
  const AdvancedKeywords: seq<string> := ["고급", "5급", "6급", "4단계", "5단계", "advanced"]

  /** `level_filter_keywords.get(level, [])`. */
  function LevelKeywords(level: string): (r: seq<string>)
    ensures level == "초급" ==> r == BeginnerKeywords
    ensures level == "중급" ==> r == IntermediateKeywords
    ensures level == "고급" ==> r == AdvancedKeywords
    ensures level != "초급" && level != "중급" && level != "고급" ==> r == []
  {
    if level == "초급" then BeginnerKeywords
    else if level == "중급" then IntermediateKeywords
    else if level == "고급" then AdvancedKeywords
    else []
  }

  /** The keywords of every other level, in the order of the table. */
  function OtherLevelKeywords(level: string): (r: seq<string>)
    ensures forall w :: w in r <==>
      (level != "초급" && w in BeginnerKeywords) ||
      (level != "중급" && w in IntermediateKeywords) ||
      (level != "고급" && w in AdvancedKeywords)
  {
    (if level != "초급" then BeginnerKeywords else []) +
    (if level != "중급" then IntermediateKeywords else []) +
    (if level != "고급" then AdvancedKeywords else [])
  }

  /** Some keyword occurs in `text` once both are upper-cased. */
  predicate AnyUpper(text: string, keywords: seq<string>) {
    exists k :: 0 <= k < |keywords| && Contains(ToUpper(text), ToUpper(keywords[k]))
  }

  /** Some keyword occurs in `text` once both are lower-cased. */
  predicate AnyLower(text: string, keywords: seq<string>) {
    exists k :: 0 <= k < |keywords| && Contains(ToLower(text), ToLower(keywords[k]))
  }

  /**
   * The title filter: a textbook keyword is required, and a title with
   * another level's keyword but none of its own level's is dropped.
   */
  predicate KeepForLevel(title: string, level: string) {
    AnyUpper(title, TextbookKeywords) &&
    !(AnyLower(title, OtherLevelKeywords(level)) && !AnyLower(title, LevelKeywords(level)))
  }

  /** A textbook title carrying its own level's keyword is kept, whatever else it carries. */
  lemma KeepsOwnLevel(title: string, level: string, k: nat)
    requires AnyUpper(title, TextbookKeywords)
    requires k < |LevelKeywords(level)| && Contains(ToLower(title), ToLower(LevelKeywords(level)[k]))
    ensures KeepForLevel(title, level)
  {
  }

  /** A title without a textbook keyword is never kept. */
  lemma DropsNonTextbook(title: string, level: string)
    requires forall k :: 0 <= k < |TextbookKeywords| ==> !Contains(ToUpper(title), ToUpper(TextbookKeywords[k]))
    ensures !KeepForLevel(title, level)
  {
  }

  /** For a level outside the table every level keyword is "another level's", so a title carrying one is dropped. */
  lemma UnknownLevelDropsLevelled(title: string, level: string, k: nat)
    requires level != "초급" && level != "중급" && level != "고급"
    requires k < |BeginnerKeywords| && Contains(ToLower(title), ToLower(BeginnerKeywords[k]))
    ensures !KeepForLevel(title, level)
  {
    var other := OtherLevelKeywords(level);
    assert other == BeginnerKeywords + IntermediateKeywords + AdvancedKeywords;
    assert other[k] == BeginnerKeywords[k];
  }

  /** The title filter as a test on items. */
  function LevelFilter(level: string): AladinItem -> bool {
    (item: AladinItem) => KeepForLevel(Title(item), level)
  }

  /** One collected search item: the item, its sales point and its cleaned ISBN. */
  datatype Entry = Entry(item: AladinItem, sales: int, isbn: string)

  function Title(item: AladinItem): string {
    item.title.GetOr("")
  }

  /** `item.get('isbn13', item.get('isbn', ''))` with the dashes removed. */
  function CleanedIsbn(item: AladinItem): (r: string)
    ensures '-' !in r
    ensures item.isbn13.Some? ==> KeepsExactly(r, item.isbn13.value, NotDash)
    ensures item.isbn13.None? ==> KeepsExactly(r, item.isbn.GetOr(""), NotDash)
  {
    StripDashes(if item.isbn13.Some? then item.isbn13.value else item.isbn.GetOr(""))
  }

  /** A series name counts only when it is a non-empty string. */
  predicate Truthy(name: Option<string>) {
    name.Some? && name.value != ""
  }

  /** The series key of an entry: its series name when it has one, else none. */
  function SeriesKey(series: string -> Option<string>): Entry -> Option<string> {
    (e: Entry) => if Truthy(series(Title(e.item))) then series(Title(e.item)) else None
  }

  function IsbnKey(e: Entry): Option<string> {
    Some(e.isbn)
  }

  /** No two entries share a key (entries without one are free). */
  predicate UniqueBy(s: seq<Entry>, key: Entry -> Option<string>) {
    forall i, j :: 0 <= i < j < |s| && key(s[i]).Some? ==> key(s[i]) != key(s[j])
  }

  lemma UniqueByAppend(s: seq<Entry>, e: Entry, key: Entry -> Option<string>)
    requires UniqueBy(s, key)
    requires forall k :: 0 <= k < |s| && key(s[k]).Some? ==> key(s[k]) != key(e)
    ensures UniqueBy(s + [e], key)
  {
    var t := s + [e];
    forall i, j | 0 <= i < j < |t| && key(t[i]).Some? ensures key(t[i]) != key(t[j]) {
      assert t[i] == s[i];
      if j < |s| {
        assert t[j] == s[j];
      }
    }
  }

  lemma {:induction false} UniqueBySubsequence(a: seq<Entry>, b: seq<Entry>, key: Entry -> Option<string>)
    requires IsSubsequence(a, b) && UniqueBy(b, key)
    ensures UniqueBy(a, key)
    decreases |b|
  {
    if a != [] {
      assert UniqueBy(b[1..], key) by {
        forall i, j | 0 <= i < j < |b| - 1 && key(b[1..][i]).Some? ensures key(b[1..][i]) != key(b[1..][j]) {
          assert b[1..][i] == b[i + 1] && b[1..][j] == b[j + 1];
        }
      }
      if a[0] == b[0] && IsSubsequence(a[1..], b[1..]) {
        UniqueBySubsequence(a[1..], b[1..], key);
        SubsequenceMembers(a[1..], b[1..]);
        forall i, j | 0 <= i < j < |a| && key(a[i]).Some? ensures key(a[i]) != key(a[j]) {
          if i == 0 {
            assert a[j] in b[1..] by {
              assert a[j] == a[1..][j - 1];
            }
            var m :| 0 <= m < |b[1..]| && b[1..][m] == a[j];
            assert b[m + 1] == a[j];
          } else {
            assert a[i] == a[1..][i - 1] && a[j] == a[1..][j - 1];
          }
        }
      } else {
        UniqueBySubsequence(a, b[1..], key);
      }
    }
  }

  /** The first entry of the named series (`next(r for r in all_results if ... == series_name)`). */
  function FirstOfSeries(all: seq<Entry>, name: string, series: string -> Option<string>): (r: Option<nat>)
    ensures r.Some? ==> r.value < |all| && series(Title(all[r.value].item)) == Some(name)
    ensures r.None? ==> forall k :: 0 <= k < |all| ==> series(Title(all[k].item)) != Some(name)
    ensures r.Some? ==> forall k :: 0 <= k < r.value ==> series(Title(all[k].item)) != Some(name)
    decreases |all|
  {
    if all == [] then None
    else if series(Title(all[0].item)) == Some(name) then Some(0)
    else
      match FirstOfSeries(all[1..], name, series)
      case None => None
      case Some(k) =>
        assert all[k + 1] == all[1..][k];
        assert forall j :: 1 <= j < k + 1 ==> all[j] == all[1..][j - 1];
        Some(k + 1)
  }

  /** An item the loop can collect: it passes the title filter and has a non-empty cleaned ISBN. */
  predicate Passes(item: AladinItem, keep: AladinItem -> bool) {
    keep(item) && CleanedIsbn(item) != ""
  }

  /** An admitted entry's item is one the loop can collect. */
  lemma AdmittedPasses(e: Entry, items: seq<AladinItem>, keep: AladinItem -> bool)
    requires Admitted(e, items, keep)
    ensures exists k :: 0 <= k < |items| && Passes(items[k], keep)
  {
    var k :| 0 <= k < |items| && items[k] == e.item;
  }

  /** What every collected entry satisfies: it passed the filter, came from the items and carries its item's cleaned, non-empty ISBN. */
  predicate Admitted(e: Entry, items: seq<AladinItem>, keep: AladinItem -> bool) {
    e.item in items && keep(e.item) &&
    e.isbn == CleanedIsbn(e.item) && e.isbn != "" && e.sales == e.item.salesPoint
  }

  /** What the collection loop keeps true of its list and its set of series seen. */
  predicate Collected(all: seq<Entry>, items: seq<AladinItem>, keep: AladinItem -> bool,
                      series: string -> Option<string>, seen: set<string>)
  {
    (forall k :: 0 <= k < |all| ==> Admitted(all[k], items, keep)) &&
    UniqueBy(all, IsbnKey) && UniqueBy(all, SeriesKey(series)) &&
    (forall k :: 0 <= k < |all| && SeriesKey(series)(all[k]).Some? ==> SeriesKey(series)(all[k]).value in seen)
  }

  /** Adding an admitted entry whose ISBN is new, and whose series (if any) is seen but not yet collected, keeps the loop's invariant. */
  lemma CollectedAppend(all: seq<Entry>, e: Entry, items: seq<AladinItem>, keep: AladinItem -> bool,
                        series: string -> Option<string>, seen: set<string>)
    requires Collected(all, items, keep, series, seen)
    requires Admitted(e, items, keep)
    requires forall k :: 0 <= k < |all| ==> all[k].isbn != e.isbn
    requires Truthy(series(Title(e.item))) ==> series(Title(e.item)).value in seen
    requires Truthy(series(Title(e.item))) ==> forall k :: 0 <= k < |all| ==> series(Title(all[k].item)) != series(Title(e.item))
    ensures Collected(all + [e], items, keep, series, seen)
  {
    var t := all + [e];
    var key := SeriesKey(series);
    UniqueByAppend(all, e, IsbnKey);
    forall k | 0 <= k < |all| && key(all[k]).Some? ensures key(all[k]) != key(e) {
    }
    UniqueByAppend(all, e, key);
    forall k | 0 <= k < |t| ensures Admitted(t[k], items, keep) && (key(t[k]).Some? ==> key(t[k]).value in seen) {
      if k < |all| {
        assert t[k] == all[k];
      }
    }
  }

  /** The filter that drops every entry of the series `name`. */
  function OutsideSeries(series: string -> Option<string>, name: Option<string>): Entry -> bool {
    (r: Entry) => series(Title(r.item)) != name
  }

  /** Replacing the entries of the new entry's series by the new entry keeps the loop's invariant. */
  lemma CollectedReplace(all: seq<Entry>, e: Entry, items: seq<AladinItem>, keep: AladinItem -> bool,
                         series: string -> Option<string>, seen: set<string>)
    requires Collected(all, items, keep, series, seen)
    requires Admitted(e, items, keep)
    requires forall k :: 0 <= k < |all| ==> all[k].isbn != e.isbn
    requires Truthy(series(Title(e.item))) && series(Title(e.item)).value in seen
    ensures Collected(Filter(all, OutsideSeries(series, series(Title(e.item)))) + [e], items, keep, series, seen)
  {
    var kept := Filter(all, OutsideSeries(series, series(Title(e.item))));
    CollectedSubsequence(kept, all, items, keep, series, seen);
    SubsequenceMembers(kept, all);
    forall k | 0 <= k < |kept| ensures kept[k].isbn != e.isbn {
      assert kept[k] in all;
    }
    CollectedAppend(kept, e, items, keep, series, seen);
  }

  /** A series not yet seen has no collected entry. */
  lemma UnseenSeries(all: seq<Entry>, items: seq<AladinItem>, keep: AladinItem -> bool,
                     series: string -> Option<string>, seen: set<string>, name: Option<string>)
    requires Collected(all, items, keep, series, seen)
    requires Truthy(name) && name.value !in seen
    ensures forall k :: 0 <= k < |all| ==> series(Title(all[k].item)) != name
  {
    forall k | 0 <= k < |all| ensures series(Title(all[k].item)) != name {
      assert SeriesKey(series)(all[k]).Some? ==> SeriesKey(series)(all[k]).value in seen;
    }
  }

  /** Dropping entries keeps the loop's invariant. */
  lemma CollectedSubsequence(kept: seq<Entry>, all: seq<Entry>, items: seq<AladinItem>, keep: AladinItem -> bool,
                             series: string -> Option<string>, seen: set<string>)
    requires Collected(all, items, keep, series, seen) && IsSubsequence(kept, all)
    ensures Collected(kept, items, keep, series, seen)
  {
    SubsequenceMembers(kept, all);
    UniqueBySubsequence(kept, all, IsbnKey);
    UniqueBySubsequence(kept, all, SeriesKey(series));
    forall k | 0 <= k < |kept| ensures Admitted(kept[k], items, keep) && (SeriesKey(series)(kept[k]).Some? ==> SeriesKey(series)(kept[k]).value in seen) {
      assert kept[k] in all;
    }
  }

  /** One more series seen keeps the loop's invariant. */
  lemma CollectedSeen(all: seq<Entry>, items: seq<AladinItem>, keep: AladinItem -> bool,
                      series: string -> Option<string>, seen: set<string>, name: string)
    requires Collected(all, items, keep, series, seen)
    ensures Collected(all, items, keep, series, seen + {name})
  {
  }

  /**
   * The collection loop: every item that passes the title filter and has a
   * non-empty cleaned ISBN not yet collected is added, except that an item
   * of a series already seen replaces that series' entries when it sells
   * more and is skipped otherwise. No two entries share an ISBN or a
   * series.
   */
  method Collect(items: seq<AladinItem>, level: string, series: string -> Option<string>) returns (all: seq<Entry>)
    ensures forall k :: 0 <= k < |all| ==> Admitted(all[k], items, LevelFilter(level))
    ensures UniqueBy(all, IsbnKey)
    ensures UniqueBy(all, SeriesKey(series))
    ensures all == [] <==> forall k :: 0 <= k < |items| ==> !Passes(items[k], LevelFilter(level))
    ensures all == CollectSpec(items, LevelFilter(level), series).0
  {
    var keep := LevelFilter(level);
    all := [];
    var seen: set<string> := {};
    for i := 0 to |items|
      invariant (all, seen) == CollectSpec(items[..i], keep, series)
      invariant Collected(all, items, keep, series, seen)
    {
      assert items[..i + 1][..i] == items[..i];
      all, seen := CollectItem(all, seen, items[i], items, keep, series);
    }
    assert items[..|items|] == items;
    CollectSpecKeeps(items, items, keep, series);
  }

  /**
   * One round of the collection loop as a value: the item is skipped when it
   * fails the title filter, has an empty cleaned ISBN or one already
   * collected, or belongs to a series seen before whose collected entry sells
   * at least as much; it replaces that series' entries when it sells more;
   * otherwise it is appended, and its series, if it has one, is marked seen.
   */
  function CollectStep(all: seq<Entry>, seen: set<string>, item: AladinItem,
                       keep: AladinItem -> bool, series: string -> Option<string>): (seq<Entry>, set<string>)
  {
    var cleaned := CleanedIsbn(item);
    if !keep(item) || cleaned == "" || exists k :: 0 <= k < |all| && all[k].isbn == cleaned then (all, seen)
    else
      var name := series(Title(item));
      var e := Entry(item, item.salesPoint, cleaned);
      if Truthy(name) && name.value in seen then
        match FirstOfSeries(all, name.value, series)
        case Some(x) =>
          if item.salesPoint <= all[x].sales then (all, seen)
          else (Filter(all, OutsideSeries(series, name)) + [e], seen)
        case None => (all + [e], seen)
      else if Truthy(name) then (all + [e], seen + {name.value})
      else (all + [e], seen)
  }

  /** The collection loop over `items` as a fold of `CollectStep`, starting from nothing collected and no series seen. */
  function CollectSpec(items: seq<AladinItem>, keep: AladinItem -> bool, series: string -> Option<string>): (seq<Entry>, set<string>)
    decreases |items|
  {
    if items == [] then ([], {})
    else
      var prev := CollectSpec(items[..|items| - 1], keep, series);
      CollectStep(prev.0, prev.1, items[|items| - 1], keep, series)
  }

  /** One round keeps the loop's invariant, and leaves the list empty iff it was empty and the item cannot be collected. */
  lemma CollectStepKeeps(all: seq<Entry>, seen: set<string>, item: AladinItem, items: seq<AladinItem>,
                         keep: AladinItem -> bool, series: string -> Option<string>)
    requires Collected(all, items, keep, series, seen) && item in items
    ensures var r := CollectStep(all, seen, item, keep, series);
      Collected(r.0, items, keep, series, r.1) && (r.0 == [] <==> all == [] && !Passes(item, keep))
  {
    var cleaned := CleanedIsbn(item);
    if keep(item) && cleaned != "" && !(exists k :: 0 <= k < |all| && all[k].isbn == cleaned) {
      var name := series(Title(item));
      var e := Entry(item, item.salesPoint, cleaned);
      if Truthy(name) && name.value in seen {
        var existing := FirstOfSeries(all, name.value, series);
        if existing.Some? {
          if item.salesPoint > all[existing.value].sales {
            CollectedReplace(all, e, items, keep, series, seen);
          }
        } else {
          CollectedAppend(all, e, items, keep, series, seen);
        }
      } else if Truthy(name) {
        UnseenSeries(all, items, keep, series, seen, name);
        CollectedSeen(all, items, keep, series, seen, name.value);
        CollectedAppend(all, e, items, keep, series, seen + {name.value});
      } else {
        CollectedAppend(all, e, items, keep, series, seen);
      }
    }
  }

  /** Every prefix of the fold satisfies the loop's invariant; its list is empty iff no item of the prefix can be collected. */
  lemma {:induction false} CollectSpecKeeps(prefix: seq<AladinItem>, items: seq<AladinItem>,
                                            keep: AladinItem -> bool, series: string -> Option<string>)
    requires forall j :: 0 <= j < |prefix| ==> prefix[j] in items
    ensures var r := CollectSpec(prefix, keep, series);
      Collected(r.0, items, keep, series, r.1) &&
      (r.0 == [] <==> forall j :: 0 <= j < |prefix| ==> !Passes(prefix[j], keep))
    decreases |prefix|
  {
    if prefix != [] {
      var init := prefix[..|prefix| - 1];
      PrefixSplit(prefix, items, keep);
      CollectSpecKeeps(init, items, keep, series);
      var prev := CollectSpec(init, keep, series);
      CollectStepKeeps(prev.0, prev.1, prefix[|prefix| - 1], items, keep, series);
    }
  }

  /** What `CollectSpecKeeps` needs of a prefix's last item and the rest before it. */
  lemma PrefixSplit(prefix: seq<AladinItem>, items: seq<AladinItem>, keep: AladinItem -> bool)
    requires prefix != [] && forall j :: 0 <= j < |prefix| ==> prefix[j] in items
    ensures var init := prefix[..|prefix| - 1];
      (forall j :: 0 <= j < |init| ==> init[j] in items) && prefix[|prefix| - 1] in items &&
      ((forall j :: 0 <= j < |prefix| ==> !Passes(prefix[j], keep)) <==>
       (forall j :: 0 <= j < |init| ==> !Passes(init[j], keep)) && !Passes(prefix[|prefix| - 1], keep))
  {
    var init := prefix[..|prefix| - 1];
    assert forall j :: 0 <= j < |init| ==> init[j] == prefix[j];
  }

  /** One round of the collection loop, on the item `item` of the search. */
  method CollectItem(all: seq<Entry>, seen: set<string>, item: AladinItem, ghost items: seq<AladinItem>,
                     keep: AladinItem -> bool, series: string -> Option<string>)
    returns (all': seq<Entry>, seen': set<string>)
    requires Collected(all, items, keep, series, seen) && item in items
    ensures (all', seen') == CollectStep(all, seen, item, keep, series)
    ensures Collected(all', items, keep, series, seen')
    ensures all' == [] <==> all == [] && !Passes(item, keep)
  {
    CollectStepKeeps(all, seen, item, items, keep, series);
    all', seen' := all, seen;
    if !keep(item) {
      return;
    }
    var cleaned := CleanedIsbn(item);
    if cleaned == "" || exists k :: 0 <= k < |all| && all[k].isbn == cleaned {
      return;
    }
    var name := series(Title(item));
    var e := Entry(item, item.salesPoint, cleaned);
    if Truthy(name) && name.value in seen {
      var existing := FirstOfSeries(all, name.value, series);
      if existing.Some? {
        if item.salesPoint <= all[existing.value].sales {
          return;
        }
        all' := Filter(all, OutsideSeries(series, name)) + [e];
      } else {
        all' := all + [e];
      }
    } else {
      if Truthy(name) {
        seen' := seen + {name.value};
      }
      all' := all + [e];
    }
  }

  predicate SalesDescending(s: seq<Entry>) {
    forall i, j :: 0 <= i < j < |s| ==> s[i].sales >= s[j].sales
  }

  /** `sort(key=sales_point, reverse=True)` on one more entry: it goes before the first entry that sells no more. */
  function InsertBySales(e: Entry, s: seq<Entry>): (r: seq<Entry>)
    ensures multiset(r) == multiset(s) + multiset{e}
    ensures |r| == |s| + 1
    decreases |s|
  {
    if s == [] then [e]
    else if s[0].sales <= e.sales then [e] + s
    else
      assert s == [s[0]] + s[1..];
      [s[0]] + InsertBySales(e, s[1..])
  }

  /** An entry selling at least as much as every entry of a descending list can head it. */
  lemma ConsDescending(x: Entry, s: seq<Entry>)
    requires SalesDescending(s)
    requires forall y :: y in s ==> x.sales >= y.sales
    ensures SalesDescending([x] + s)
  {
    var r := [x] + s;
    forall i, j | 0 <= i < j < |r| ensures r[i].sales >= r[j].sales {
      assert r[j] == s[j - 1];
      if i > 0 {
        assert r[i] == s[i - 1];
      }
    }
  }

  lemma TailDescending(s: seq<Entry>)
    requires s != [] && SalesDescending(s)
    ensures SalesDescending(s[1..])
    ensures forall y :: y in s[1..] ==> s[0].sales >= y.sales
  {
    forall i, j | 0 <= i < j < |s| - 1 ensures s[1..][i].sales >= s[1..][j].sales {
      assert s[1..][i] == s[i + 1] && s[1..][j] == s[j + 1];
    }
  }

  lemma {:induction false} InsertKeepsDescending(e: Entry, s: seq<Entry>)
    requires SalesDescending(s)
    ensures SalesDescending(InsertBySales(e, s))
    decreases |s|
  {
    if s == [] {
    } else if s[0].sales <= e.sales {
      ConsDescending(e, s);
    } else {
      var rest := InsertBySales(e, s[1..]);
      TailDescending(s);
      InsertKeepsDescending(e, s[1..]);
      forall x | x in rest ensures s[0].sales >= x.sales {
        assert x in multiset(rest);
      }
      ConsDescending(s[0], rest);
    }
  }

  /** The stable sort by descending sales (Python's `sort` keeps equal keys in order, also with `reverse=True`). */
  function SortBySales(s: seq<Entry>): (r: seq<Entry>)
    ensures multiset(r) == multiset(s)
    ensures |r| == |s|
    ensures SalesDescending(r)
    decreases |s|
  {
    if s == [] then []
    else
      assert s == [s[0]] + s[1..];
      var rest := SortBySales(s[1..]);
      InsertKeepsDescending(s[0], rest);
      InsertBySales(s[0], rest)
  }

  /** The entries selling exactly `v`. */
  function SalesIs(v: int): Entry -> bool {
    (e: Entry) => e.sales == v
  }

  /** Inserting `e` puts it ahead of every entry with the same sales and leaves their order alone. */
  lemma {:induction false} InsertBySalesFilter(e: Entry, s: seq<Entry>, v: int)
    ensures Filter(InsertBySales(e, s), SalesIs(v)) ==
      if e.sales == v then [e] + Filter(s, SalesIs(v)) else Filter(s, SalesIs(v))
    decreases |s|
  {
    if s != [] && s[0].sales > e.sales {
      InsertBySalesFilter(e, s[1..], v);
      assert InsertBySales(e, s)[1..] == InsertBySales(e, s[1..]);
    } else if s != [] {
      assert ([e] + s)[1..] == s;
    }
  }

  /**
   * Stability: among entries with equal sales the sorted list keeps the
   * order of the collection, as Python's `sort` does with `reverse=True`.
   */
  lemma {:induction false} SortBySalesStable(s: seq<Entry>, v: int)
    ensures Filter(SortBySales(s), SalesIs(v)) == Filter(s, SalesIs(v))
    decreases |s|
  {
    if s != [] {
      SortBySalesStable(s[1..], v);
      InsertBySalesFilter(s[0], SortBySales(s[1..]), v);
    }
  }

  /** Distinct keys survive any reordering (for a key every entry has). */
  lemma UniqueByPermutation(a: seq<Entry>, b: seq<Entry>)
    requires multiset(a) == multiset(b) && UniqueBy(b, IsbnKey)
    ensures UniqueBy(a, IsbnKey)
  {
    assert NoDup(b) by {
      forall i, j | 0 <= i < j < |b| ensures b[i] != b[j] {
        assert IsbnKey(b[i]) != IsbnKey(b[j]);
      }
    }
    NoDupPermutation(a, b);
    forall i, j | 0 <= i < j < |a| && IsbnKey(a[i]).Some? ensures IsbnKey(a[i]) != IsbnKey(a[j]) {
      assert a[i] in multiset(b) && a[j] in multiset(b);
      var p :| 0 <= p < |b| && b[p] == a[i];
      var q :| 0 <= q < |b| && b[q] == a[j];
      assert p != q;
      if p > q {
        assert IsbnKey(b[q]).Some?;
      }
    }
  }

  const DefaultDescription: string := "한국어 학습을 위한 베스트셀러 교재입니다."
  const BeginnerDescription: string := "초급 한국어 학습자를 위한 베스트셀러 교재입니다. 기초 문법과 어휘를 체계적으로 학습할 수 있습니다."
  const IntermediateDescription: string := "중급 한국어 학습자를 위한 베스트셀러 교재입니다. 실용적인 표현과 문법을 심화 학습할 수 있습니다."
  const AdvancedDescription: string := "고급 한국어 학습자를 위한 베스트셀러 교재입니다. 고급 문법과 표현을 마스터할 수 있습니다."

  /** `level_descriptions.get(level, ...)`. */
  function LevelDescription(level: string): (d: string)
    ensures level == "초급" ==> d == BeginnerDescription
    ensures level == "중급" ==> d == IntermediateDescription
    ensures level == "고급" ==> d == AdvancedDescription
    ensures level != "초급" && level != "중급" && level != "고급" ==> d == DefaultDescription
  {
    if level == "초급" then BeginnerDescription
    else if level == "중급" then IntermediateDescription
    else if level == "고급" then AdvancedDescription
    else DefaultDescription
  }

  /** One returned bestseller: the cleaned ISBN as id (title-author when empty), the prefixed cover, the given description. */
  function BestsellerBook(e: Entry, description: string): (b: BackendBook)
    ensures b.id != "" && b.isbn == CleanedIsbn(e.item)
    ensures b.isbn != "" ==> b.id == b.isbn
    ensures b.coverImageUrl == AladinCover(e.item.cover)
    ensures b.description == description
    ensures b.title == Title(e.item) && b.author == e.item.author.GetOr("")
  {
    var isbn := CleanedIsbn(e.item);
    var title := Title(e.item);
    var author := e.item.author.GetOr("");
    BackendBook(if isbn != "" then isbn else title + "-" + author, title, author, description,
                AladinCover(e.item.cover), isbn, e.item.publisher, e.item.pubDate, e.item.priceStandard, e.item.link)
  }

  /**
   * The end of the bestseller path: nothing collected falls back to the
   * AI recommendation (`None`); otherwise the three best-selling entries,
   * in descending order of sales, as books.
   */
  method TopBestsellers(all: seq<Entry>, level: string) returns (r: Option<seq<BackendBook>>)
    ensures r.None? <==> all == []
    ensures r.Some? ==> |r.value| == if |all| < 3 then |all| else 3
    ensures r.Some? ==> forall k :: 0 <= k < |r.value| ==> r.value[k] == BestsellerBook(SortBySales(all)[k], LevelDescription(level))
  {
    if all == [] {
      return None;
    }
    var sorted := SortBySales(all);
    var top := Take(sorted, 3);
    var books := BooksOf(top, LevelDescription(level));
    r := Some(books);
  }

  /** The loop over `all_results[:3]`: one book per entry, in order. */
  method BooksOf(top: seq<Entry>, description: string) returns (books: seq<BackendBook>)
    ensures |books| == |top|
    ensures forall k :: 0 <= k < |top| ==> books[k] == BestsellerBook(top[k], description)
  {
    books := [];
    for k := 0 to |top|
      invariant |books| == k
      invariant forall m :: 0 <= m < k ==> books[m] == BestsellerBook(top[m], description)
    {
      books := books + [BestsellerBook(top[k], description)];
    }
  }

  /** Sorting keeps the collected entries and their distinct ISBNs. */
  lemma SortedFromCollection(items: seq<AladinItem>, keep: AladinItem -> bool, all: seq<Entry>)
    requires forall k :: 0 <= k < |all| ==> Admitted(all[k], items, keep)
    requires UniqueBy(all, IsbnKey)
    ensures var sorted := SortBySales(all);
      (forall k :: 0 <= k < |sorted| ==> sorted[k] in all && Admitted(sorted[k], items, keep)) &&
      (forall i, j :: 0 <= i < j < |sorted| ==> sorted[i].isbn != sorted[j].isbn)
  {
    var sorted := SortBySales(all);
    UniqueByPermutation(sorted, all);
    forall k | 0 <= k < |sorted| ensures sorted[k] in all && Admitted(sorted[k], items, keep) {
      assert sorted[k] in multiset(all);
    }
    forall i, j | 0 <= i < j < |sorted| ensures sorted[i].isbn != sorted[j].isbn {
      assert IsbnKey(sorted[i]).Some?;
    }
  }

  /** The returned entries: at most three, selling in descending order, admitted entries of the collection, with distinct ISBNs. */
  lemma TopThree(items: seq<AladinItem>, keep: AladinItem -> bool, all: seq<Entry>)
    requires forall k :: 0 <= k < |all| ==> Admitted(all[k], items, keep)
    requires UniqueBy(all, IsbnKey)
    ensures var top := Take(SortBySales(all), 3);
      |top| <= 3 && SalesDescending(top) &&
      (forall k :: 0 <= k < |top| ==> top[k] in all && Admitted(top[k], items, keep)) &&
      (forall i, j :: 0 <= i < j < |top| ==> top[i].isbn != top[j].isbn)
  {
    var sorted := SortBySales(all);
    var top := Take(sorted, 3);
    SortedFromCollection(items, keep, all);
    forall k | 0 <= k < |top| ensures top[k] == sorted[k] {
    }
  }

  /** A returned book comes from an item of the search that passed the title filter. */
  predicate FromItem(b: BackendBook, items: seq<AladinItem>, keep: AladinItem -> bool) {
    exists item :: item in items && keep(item) && b.isbn == CleanedIsbn(item) && b.title == Title(item)
  }

  /** Books made from admitted entries with distinct ISBNs have their ISBN as id and distinct ISBNs. */
  lemma BooksOfAdmitted(books: seq<BackendBook>, top: seq<Entry>, items: seq<AladinItem>, keep: AladinItem -> bool, description: string)
    requires |books| == |top|
    requires forall k :: 0 <= k < |top| ==> books[k] == BestsellerBook(top[k], description)
    requires forall k :: 0 <= k < |top| ==> Admitted(top[k], items, keep)
    requires forall i, j :: 0 <= i < j < |top| ==> top[i].isbn != top[j].isbn
    ensures forall k :: 0 <= k < |books| ==>
      books[k].isbn != "" && books[k].id == books[k].isbn && FromItem(books[k], items, keep)
    ensures forall i, j :: 0 <= i < j < |books| ==> books[i].isbn != books[j].isbn
  {
    forall k | 0 <= k < |books| ensures books[k].isbn != "" && books[k].id == books[k].isbn && FromItem(books[k], items, keep) {
      var item := top[k].item;
      assert item in items && keep(item);
    }
  }

  /**
   * The whole bestseller path on the collected search items: at most three
   * books, each one a filtered item of the search with its own non-empty
   * ISBN as id, no two with the same ISBN; `None` (the fall-back to the AI
   * recommendation) when no item survives.
   */
  method LevelBestsellers(items: seq<AladinItem>, level: string, series: string -> Option<string>)
    returns (r: Option<seq<BackendBook>>)
    ensures r.None? <==> forall k :: 0 <= k < |items| ==> !Passes(items[k], LevelFilter(level))
    ensures r.Some? ==> 1 <= |r.value| <= 3
    ensures r.Some? ==> forall k :: 0 <= k < |r.value| ==>
      r.value[k].isbn != "" && r.value[k].id == r.value[k].isbn && FromItem(r.value[k], items, LevelFilter(level))
    ensures r.Some? ==> forall k :: 0 <= k < |r.value| ==> r.value[k].description == LevelDescription(level)
    ensures r.Some? ==> forall i, j :: 0 <= i < j < |r.value| ==> r.value[i].isbn != r.value[j].isbn
    ensures var all := CollectSpec(items, LevelFilter(level), series).0;
      (r.None? <==> all == []) &&
      (r.Some? ==> (|r.value| == (if |all| < 3 then |all| else 3) &&
        forall k :: 0 <= k < |r.value| ==> r.value[k] == BestsellerBook(SortBySales(all)[k], LevelDescription(level))))
  {
    var all := Collect(items, level, series);
    r := TopBestsellers(all, level);
    if r.Some? {
      TopBooks(items, LevelFilter(level), LevelDescription(level), all, r.value);
    }
  }

  /** The books made from the three best-selling collected entries. */
  lemma TopBooks(items: seq<AladinItem>, keep: AladinItem -> bool, description: string, all: seq<Entry>, books: seq<BackendBook>)
    requires forall k :: 0 <= k < |all| ==> Admitted(all[k], items, keep)
    requires UniqueBy(all, IsbnKey) && all != []
    requires |books| == if |all| < 3 then |all| else 3
    requires forall k :: 0 <= k < |books| ==> books[k] == BestsellerBook(SortBySales(all)[k], description)
    ensures 1 <= |books| <= 3
    ensures forall k :: 0 <= k < |books| ==>
      books[k].isbn != "" && books[k].id == books[k].isbn && FromItem(books[k], items, keep)
    ensures forall k :: 0 <= k < |books| ==> books[k].description == description
    ensures forall i, j :: 0 <= i < j < |books| ==> books[i].isbn != books[j].isbn
  {
    var sorted := SortBySales(all);
    var top := Take(sorted, 3);
    TopThree(items, keep, all);
    assert |top| == |books|;
    forall k | 0 <= k < |top| ensures books[k] == BestsellerBook(top[k], description) {
      assert top[k] == sorted[k];
    }
    BooksOfAdmitted(books, top, items, keep, description);
  }
}
