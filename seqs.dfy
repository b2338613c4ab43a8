// Generic sequence vocabulary shared by the models: the `filter` of the
// application's JavaScript and Python, subsequences (order-preserving
// selection), duplicate-freedom and removal of one value.
module Seqs {

  /** `a` can be obtained from `b` by deleting elements: the order of what is kept is preserved. */
  predicate IsSubsequence<T(==)>(a: seq<T>, b: seq<T>)
    decreases |b|
  {
    a == [] ||
    (b != [] && ((a[0] == b[0] && IsSubsequence(a[1..], b[1..])) || IsSubsequence(a, b[1..])))
  }

  lemma {:induction false} SubsequenceReflexive<T>(s: seq<T>)
    ensures IsSubsequence(s, s)
    decreases |s|
  {
    if s != [] {
      SubsequenceReflexive(s[1..]);
    }
  }

  lemma {:induction false} SubsequenceMembers<T>(a: seq<T>, b: seq<T>)
    requires IsSubsequence(a, b)
    ensures |a| <= |b|
    ensures forall x :: x in a ==> x in b
    decreases |b|
  {
    if a != [] {
      if a[0] == b[0] && IsSubsequence(a[1..], b[1..]) {
        SubsequenceMembers(a[1..], b[1..]);
        forall x | x in a ensures x in b {
          if x != a[0] {
            assert x in a[1..];
          }
        }
      } else {
        SubsequenceMembers(a, b[1..]);
      }
    }
  }

  lemma {:induction false} SubsequenceTransitive<T>(a: seq<T>, b: seq<T>, c: seq<T>)
    requires IsSubsequence(a, b) && IsSubsequence(b, c)
    ensures IsSubsequence(a, c)
    decreases |c|
  {
    if a == [] {
    } else if IsSubsequence(b, c[1..]) && c != [] {
      SubsequenceTransitive(a, b, c[1..]);
    } else {
      assert b != [] && b[0] == c[0] && IsSubsequence(b[1..], c[1..]);
      if a[0] == b[0] && IsSubsequence(a[1..], b[1..]) {
        SubsequenceTransitive(a[1..], b[1..], c[1..]);
      } else {
        SubsequenceTransitive(a, b[1..], c[1..]);
      }
    }
  }

  /** The elements of `s` that satisfy `keep`, in their original order. */
  function Filter<T(==)>(s: seq<T>, keep: T -> bool): (r: seq<T>)
    ensures forall k :: 0 <= k < |r| ==> keep(r[k])
    ensures forall x :: x in s && keep(x) ==> x in r
    ensures IsSubsequence(r, s)
    decreases |s|
  {
    if s == [] then []
    else if keep(s[0]) then [s[0]] + Filter(s[1..], keep)
    else Filter(s[1..], keep)
  }

  lemma {:induction false} FilterKeepsAll<T>(s: seq<T>, keep: T -> bool)
    requires forall k :: 0 <= k < |s| ==> keep(s[k])
    ensures Filter(s, keep) == s
    decreases |s|
  {
    if s != [] {
      assert keep(s[0]);
      FilterKeepsAll(s[1..], keep);
    }
  }

  lemma FilterIdempotent<T>(s: seq<T>, keep: T -> bool)
    ensures Filter(Filter(s, keep), keep) == Filter(s, keep)
  {
    FilterKeepsAll(Filter(s, keep), keep);
  }

  lemma {:induction false} FilterAppend<T>(a: seq<T>, b: seq<T>, keep: T -> bool)
    ensures Filter(a + b, keep) == Filter(a, keep) + Filter(b, keep)
    decreases |a|
  {
    if a == [] {
      assert a + b == b;
    } else {
      ConsAppend(a, b);
      FilterAppend(a[1..], b, keep);
      FilterConsAppend(a[0], Filter(a[1..], keep), Filter(b, keep), keep);
    }
  }

  /** The front element and the rest of `a + b`. */
  lemma ConsAppend<T>(a: seq<T>, b: seq<T>)
    requires a != []
    ensures (a + b)[0] == a[0] && (a + b)[1..] == a[1..] + b
    ensures a + b == [a[0]] + (a[1..] + b)
  {
    assert a == [a[0]] + a[1..];
  }

  /** The step of `FilterAppend`: the front element is kept or dropped on both sides alike. */
  lemma FilterConsAppend<T>(x: T, fa: seq<T>, fb: seq<T>, keep: T -> bool)
    ensures (if keep(x) then [x] + (fa + fb) else fa + fb) == (if keep(x) then [x] + fa else fa) + fb
  {
  }

  lemma {:induction false} FilterNone<T>(s: seq<T>, keep: T -> bool)
    requires forall k :: 0 <= k < |s| ==> !keep(s[k])
    ensures Filter(s, keep) == []
    decreases |s|
  {
    if s != [] {
      assert !keep(s[0]);
      FilterNone(s[1..], keep);
    }
  }

  /** The filter keeps every copy of a kept value and no copy of a dropped one. */
  lemma {:induction false} FilterOccurrences<T>(s: seq<T>, keep: T -> bool, x: T)
    ensures Occurrences(Filter(s, keep), x) == if keep(x) then Occurrences(s, x) else 0
    decreases |s|
  {
    if s != [] {
      FilterOccurrences(s[1..], keep, x);
      if keep(s[0]) {
        assert ([s[0]] + Filter(s[1..], keep))[1..] == Filter(s[1..], keep);
      }
    }
  }

  /** `r` holds, in their order in `s`, every copy of the values `keep` accepts and nothing else. */
  ghost predicate KeepsExactly<T(!new)>(r: seq<T>, s: seq<T>, keep: T -> bool) {
    IsSubsequence(r, s) && forall x :: Occurrences(r, x) == if keep(x) then Occurrences(s, x) else 0
  }

  lemma FilterKeepsExactly<T(!new)>(s: seq<T>, keep: T -> bool)
    ensures KeepsExactly(Filter(s, keep), s, keep)
  {
    forall x ensures Occurrences(Filter(s, keep), x) == if keep(x) then Occurrences(s, x) else 0 {
      FilterOccurrences(s, keep, x);
    }
  }

  /** A subsequence has no more copies of any value than the sequence it is drawn from. */
  lemma {:induction false} SubsequenceOccurrences<T>(a: seq<T>, b: seq<T>, x: T)
    requires IsSubsequence(a, b)
    ensures Occurrences(a, x) <= Occurrences(b, x)
    decreases |b|
  {
    if a != [] {
      if a[0] == b[0] && IsSubsequence(a[1..], b[1..]) {
        SubsequenceOccurrences(a[1..], b[1..], x);
      } else {
        SubsequenceOccurrences(a, b[1..], x);
      }
    }
  }

  /** `KeepsExactly` determines its first argument: it is the filter. */
  lemma {:induction false} KeepsExactlyUnique<T(!new)>(r: seq<T>, s: seq<T>, keep: T -> bool)
    requires KeepsExactly(r, s, keep)
    ensures r == Filter(s, keep)
    decreases |s|
  {
    if s != [] {
      var h, t := s[0], s[1..];
      if r != [] && r[0] == h && IsSubsequence(r[1..], t) {
        assert keep(h) by {
          assert Occurrences(r, h) > 0;
        }
        forall x ensures Occurrences(r[1..], x) == if keep(x) then Occurrences(t, x) else 0 {
          assert Occurrences(r, x) == (if x == h then 1 else 0) + Occurrences(r[1..], x);
        }
        KeepsExactlyUnique(r[1..], t, keep);
      } else {
        assert IsSubsequence(r, t);
        SubsequenceOccurrences(r, t, h);
        assert !keep(h) by {
          assert Occurrences(s, h) == 1 + Occurrences(t, h);
        }
        forall x ensures Occurrences(r, x) == if keep(x) then Occurrences(t, x) else 0 {
          assert Occurrences(s, x) == (if x == h then 1 else 0) + Occurrences(t, x);
        }
        KeepsExactlyUnique(r, t, keep);
      }
    }
  }

  /** Filtering twice is filtering once with both tests. */
  lemma {:induction false} FilterTwice<T>(s: seq<T>, p: T -> bool, q: T -> bool, both: T -> bool)
    requires forall x :: both(x) == (p(x) && q(x))
    ensures Filter(Filter(s, p), q) == Filter(s, both)
    decreases |s|
  {
    if s != [] {
      FilterTwice(s[1..], p, q, both);
      if p(s[0]) {
        assert ([s[0]] + Filter(s[1..], p))[1..] == Filter(s[1..], p);
      }
    }
  }

  predicate NoDup<T(==)>(s: seq<T>) {
    forall i, j :: 0 <= i < j < |s| ==> s[i] != s[j]
  }

  /** Duplicate-freedom is a property of the multiset: every element occurs at most once. */
  lemma {:induction false} NoDupMultiset<T>(s: seq<T>)
    ensures NoDup(s) <==> forall x :: multiset(s)[x] <= 1
    decreases |s|
  {
    if s != [] {
      var h, t := s[0], s[1..];
      assert s == [h] + t;
      NoDupMultiset(t);
      if NoDup(s) {
        assert NoDup(t) by {
          forall i, j | 0 <= i < j < |t| ensures t[i] != t[j] {
            assert t[i] == s[i + 1] && t[j] == s[j + 1];
          }
        }
        forall k | 0 <= k < |t| ensures t[k] != h {
          assert t[k] == s[k + 1];
        }
      } else {
        var i, j :| 0 <= i < j < |s| && s[i] == s[j];
        if i == 0 {
          assert s[j] in t by { assert t[j - 1] == s[j]; }
          assert multiset(s)[h] == multiset(t)[h] + 1;
        } else {
          assert t[i - 1] == t[j - 1];
          assert !NoDup(t);
          var x :| multiset(t)[x] > 1;
          assert multiset(s)[x] >= multiset(t)[x];
        }
      }
    }
  }

  lemma NoDupPermutation<T>(a: seq<T>, b: seq<T>)
    requires multiset(a) == multiset(b) && NoDup(b)
    ensures NoDup(a)
  {
    NoDupMultiset(a);
    NoDupMultiset(b);
  }

  lemma {:induction false} NoDupSubsequence<T>(a: seq<T>, b: seq<T>)
    requires IsSubsequence(a, b) && NoDup(b)
    ensures NoDup(a)
    decreases |b|
  {
    if a != [] {
      assert NoDup(b[1..]) by {
        forall i, j | 0 <= i < j < |b| - 1 ensures b[1..][i] != b[1..][j] {
          assert b[1..][i] == b[i + 1] && b[1..][j] == b[j + 1];
        }
      }
      if a[0] == b[0] && IsSubsequence(a[1..], b[1..]) {
        NoDupSubsequence(a[1..], b[1..]);
        SubsequenceMembers(a[1..], b[1..]);
        forall k | 0 <= k < |b| - 1 ensures b[1..][k] != a[0] {
          assert b[1..][k] == b[k + 1];
        }
        forall i, j | 0 <= i < j < |a| ensures a[i] != a[j] {
          if i == 0 {
            assert a[j] == a[1..][j - 1];
            assert a[j] in a[1..];
          } else {
            assert a[i] == a[1..][i - 1] && a[j] == a[1..][j - 1];
          }
        }
      } else {
        NoDupSubsequence(a, b[1..]);
      }
    }
  }

  /** `s` with every occurrence of `x` removed, the rest in order. */
  function Remove<T(==)>(s: seq<T>, x: T): (r: seq<T>)
    ensures x !in r
    ensures forall y :: y in s && y != x ==> y in r
    ensures forall y :: y in r ==> y in s
    ensures |r| <= |s|
    ensures x !in s ==> r == s
    decreases |s|
  {
    if s == [] then []
    else if s[0] == x then Remove(s[1..], x)
    else [s[0]] + Remove(s[1..], x)
  }

  /** The test of `filter(y => y !== x)`. */
  function Other<T(==)>(x: T): T -> bool {
    y => y != x
  }

  /** Removing a value is filtering out every copy of it. */
  lemma {:induction false} RemoveIsFilter<T>(s: seq<T>, x: T)
    ensures Remove(s, x) == Filter(s, Other(x))
    decreases |s|
  {
    if s != [] {
      RemoveIsFilter(s[1..], x);
    }
  }

  lemma {:induction false} RemoveSubsequence<T>(s: seq<T>, x: T)
    ensures IsSubsequence(Remove(s, x), s)
    decreases |s|
  {
    if s != [] {
      RemoveSubsequence(s[1..], x);
    }
  }

  /** How many times `x` occurs in `s`. */
  function Occurrences<T(==)>(s: seq<T>, x: T): (n: nat)
    ensures n == 0 <==> x !in s
    ensures n <= |s|
    decreases |s|
  {
    if s == [] then 0 else (if s[0] == x then 1 else 0) + Occurrences(s[1..], x)
  }

  /** The first `n` elements, or all of them when there are fewer (JavaScript `slice(0, n)`). */
  function Take<T>(s: seq<T>, n: nat): (r: seq<T>)
    ensures |r| == if n < |s| then n else |s|
    ensures r <= s
  {
    if n < |s| then s[..n] else s
  }
  /**
   * The distinct elements of `s` in order of first occurrence: what
   * `Array.from(new Set(s))` yields, a JavaScript `Set` iterating in
   * insertion order.
   */
  function Dedup<T(==)>(s: seq<T>): (r: seq<T>)
    ensures NoDup(r)
    ensures forall k :: 0 <= k < |s| ==> s[k] in r
    ensures forall k :: 0 <= k < |r| ==> r[k] in s
    ensures |r| <= |s|
    decreases |s|
  {
    if s == [] then []
    else
      var r := Dedup(s[..|s| - 1]);
      assert s == s[..|s| - 1] + [s[|s| - 1]];
      if s[|s| - 1] in r then r else r + [s[|s| - 1]]
  }
}
