// String vocabulary shared by the front end (JavaScript) and the backend
// (Python): whitespace trimming, substring containment (`includes`, `in`),
// ASCII case mapping, global replacement, splitting on one character and the
// Hangul-only filter the application applies to recognised handwriting and
// speech.
module Strings {
  import opened Seqs

  /** The characters JavaScript's `trim` removes: white space and line terminators. */
  predicate IsWhitespace(c: char) {
    c == ' ' || c == '\t' || c == '\n' || c == '\r' || c == '\U{000B}' || c == '\U{000C}' ||
    c == '\U{00A0}' || c == '\U{1680}' || ('\U{2000}' <= c <= '\U{200A}') ||
    c == '\U{2028}' || c == '\U{2029}' || c == '\U{202F}' || c == '\U{205F}' ||
    c == '\U{3000}' || c == '\U{FEFF}'
  }

  function TrimStart(s: string): (r: string)
    ensures |r| <= |s|
    ensures r == [] || !IsWhitespace(r[0])
    ensures forall k :: 0 <= k < |s| - |r| ==> IsWhitespace(s[k])
    decreases |s|
  {
    if s != [] && IsWhitespace(s[0]) then TrimStart(s[1..]) else s
  }

  /** What `TrimStart` leaves is a suffix of its input. */
  lemma {:induction false} TrimStartSuffix(s: string)
    ensures TrimStart(s) == s[|s| - |TrimStart(s)|..]
    decreases |s|
  {
    if s != [] && IsWhitespace(s[0]) {
      TrimStartSuffix(s[1..]);
      var t := TrimStart(s[1..]);
      assert s[1..][|s| - 1 - |t|..] == s[|s| - |t|..];
    }
  }

  function TrimEnd(s: string): (r: string)
    ensures |r| <= |s| && r == s[..|r|]
    ensures r == [] || !IsWhitespace(r[|r| - 1])
    ensures forall k :: |r| <= k < |s| ==> IsWhitespace(s[k])
    decreases |s|
  {
    if s != [] && IsWhitespace(s[|s| - 1]) then TrimEnd(s[..|s| - 1]) else s
  }

  /**
   * JavaScript `trim`: the block of `s` left when the white space at both
   * ends is removed. Python `strip` differs on a few characters (it keeps
   * U+FEFF and removes U+001C–U+001F and U+0085); this model uses the
   * JavaScript set for both.
   */
  function Trim(s: string): (r: string)
    ensures r == [] || (!IsWhitespace(r[0]) && !IsWhitespace(r[|r| - 1]))
    ensures |r| <= |s|
    ensures TrimmedFrom(r, s)
  {
    TrimSlice(s);
    TrimEnd(TrimStart(s))
  }

  /**
   * `r` is a block of `s` that neither starts nor ends with white space and
   * outside of which `s` holds only white space.
   */
  ghost predicate TrimmedFrom(r: string, s: string) {
    (r == [] || (!IsWhitespace(r[0]) && !IsWhitespace(r[|r| - 1]))) &&
    exists i :: 0 <= i <= |s| && r <= s[i..] &&
      (forall k :: 0 <= k < i ==> IsWhitespace(s[k])) &&
      (forall k :: i + |r| <= k < |s| ==> IsWhitespace(s[k]))
  }

  lemma TrimSlice(s: string)
    ensures TrimmedFrom(TrimEnd(TrimStart(s)), s)
  {
    var t := TrimStart(s);
    TrimStartSuffix(s);
    var i := |s| - |t|;
    var r := TrimEnd(t);
    assert s[i..] == t;
    assert r <= s[i..];
    assert forall k :: 0 <= k < i ==> IsWhitespace(s[k]);
    TrailOutside(s, t, r, i);
    assert r != [] ==> r[0] == t[0];
    assert r == [] || (!IsWhitespace(r[0]) && !IsWhitespace(r[|r| - 1]));
  }

  lemma TrailOutside(s: string, t: string, r: string, i: nat)
    requires i <= |s| && t == s[i..] && |r| <= |t|
    requires forall k :: |r| <= k < |t| ==> IsWhitespace(t[k])
    ensures forall k :: i + |r| <= k < |s| ==> IsWhitespace(s[k])
  {
    forall k | i + |r| <= k < |s| ensures IsWhitespace(s[k]) {
      assert s[k] == t[k - i];
    }
  }

  /** Trimming leaves nothing exactly when every character is white space. */
  lemma TrimBlank(s: string)
    ensures Trim(s) == [] <==> forall k :: 0 <= k < |s| ==> IsWhitespace(s[k])
  {
    var t := TrimStart(s);
    TrimStartSuffix(s);
    assert forall k :: 0 <= k < |t| ==> t[k] == s[|s| - |t| + k];
  }

  /** A string without white space at either end is its own trim; so trimming twice is trimming once. */
  lemma TrimIdempotent(s: string)
    ensures (s == [] || (!IsWhitespace(s[0]) && !IsWhitespace(s[|s| - 1]))) ==> Trim(s) == s
    ensures Trim(Trim(s)) == Trim(s)
  {
  }

  /** A string is blank when trimming leaves nothing (`!x || x.trim() === ''`). */
  predicate IsBlank(s: string) {
    Trim(s) == []
  }

  /** `sub` occurs in `s` as a contiguous block (`s.includes(sub)`, Python `sub in s`). */
  predicate Contains(s: string, sub: string)
    decreases |s|
  {
    sub <= s || (s != [] && Contains(s[1..], sub))
  }

  lemma {:induction false} ContainsBound(s: string, sub: string)
    requires Contains(s, sub)
    ensures |sub| <= |s|
    decreases |s|
  {
    if !(sub <= s) {
      ContainsBound(s[1..], sub);
    }
  }

  /** A block that occurs in `s` also has each of its prefixes occurring in `s`. */
  lemma {:induction false} ContainsPrefix(s: string, sub: string, p: string)
    requires Contains(s, sub) && p <= sub
    ensures Contains(s, p)
    decreases |s|
  {
    if !(sub <= s) {
      ContainsPrefix(s[1..], sub, p);
    }
  }

  /** Containment either way between two strings of the same length is equality. */
  lemma EqualLengthContainment(a: string, b: string)
    requires |a| == |b| && (Contains(a, b) || Contains(b, a))
    ensures a == b
  {
    if Contains(a, b) && !(b <= a) {
      ContainsBound(a[1..], b);
    }
    if Contains(b, a) && !(a <= b) {
      ContainsBound(b[1..], a);
    }
  }

  function ToLowerChar(c: char): (r: char)
    ensures 'A' <= c <= 'Z' ==> 'a' <= r <= 'z' && r as int == c as int + 32
    ensures !('A' <= c <= 'Z') ==> r == c
  {
    if 'A' <= c <= 'Z' then (c as int + 32) as char else c
  }

  function ToUpperChar(c: char): (r: char)
    ensures 'a' <= c <= 'z' ==> 'A' <= r <= 'Z' && r as int == c as int - 32
    ensures !('a' <= c <= 'z') ==> r == c
  {
    if 'a' <= c <= 'z' then (c as int - 32) as char else c
  }

  /** `toLowerCase` / Python `lower`, on the ASCII letters. */
  function ToLower(s: string): (r: string)
    ensures |r| == |s|
    ensures forall k :: 0 <= k < |s| ==> r[k] == ToLowerChar(s[k])
  {
    seq(|s|, k requires 0 <= k < |s| => ToLowerChar(s[k]))
  }

  /** `toUpperCase` / Python `upper`, on the ASCII letters. */
  function ToUpper(s: string): (r: string)
    ensures |r| == |s|
    ensures forall k :: 0 <= k < |s| ==> r[k] == ToUpperChar(s[k])
  {
    seq(|s|, k requires 0 <= k < |s| => ToUpperChar(s[k]))
  }

  /** Lower-casing commutes with a filter whose test ignores case. */
  lemma {:induction false} FilterToLower(s: string, p: char -> bool)
    requires forall c :: p(ToLowerChar(c)) == p(c)
    ensures Filter(ToLower(s), p) == ToLower(Filter(s, p))
    decreases |s|
  {
    if s != [] {
      var t := ToLower(s);
      assert t[0] == ToLowerChar(s[0]) && t[1..] == ToLower(s[1..]);
      FilterToLower(s[1..], p);
      if p(s[0]) {
        ToLowerCons(s[0], Filter(s[1..], p));
      }
    }
  }

  /** Lower-casing works character by character from the front. */
  lemma ToLowerCons(c: char, s: string)
    ensures ToLower([c] + s) == [ToLowerChar(c)] + ToLower(s)
  {
  }

  lemma ToLowerIdempotent(s: string)
    ensures ToLower(ToLower(s)) == ToLower(s)
  {
  }

  /**
   * Every non-overlapping occurrence of `pat`, scanning left to right, replaced
   * by `rep` (JavaScript `replace` with a global pattern, Python `replace`).
   */
  function ReplaceAll(s: string, pat: string, rep: string): (r: string)
    requires pat != []
    ensures !Contains(s, pat) ==> r == s
    decreases |s|
  {
    if s == [] then []
    else if pat <= s then rep + ReplaceAll(s[|pat|..], pat, rep)
    else [s[0]] + ReplaceAll(s[1..], pat, rep)
  }

  /**
   * The replacement at the first occurrence: when `pat` does not occur in
   * `a` nor start inside `a` and end inside the `pat` that follows, the
   * scan copies `a`, replaces that `pat` and carries on after it.
   */
  lemma {:induction false} ReplaceAllFirst(a: string, pat: string, b: string, rep: string)
    requires pat != [] && !Contains(a + pat[..|pat| - 1], pat)
    ensures ReplaceAll(a + pat + b, pat, rep) == a + rep + ReplaceAll(b, pat, rep)
    decreases |a|
  {
    if a == [] {
      assert a + pat + b == pat + b && (pat + b)[|pat|..] == b;
    } else {
      NoMatchBefore(a, pat, b);
      ReplaceAllFirst(a[1..], pat, b, rep);
      ReplaceAllCons(a, pat, b, rep);
    }
  }

  /** One step of `ReplaceAllFirst`: a character of `a` that starts no match is copied in front. */
  lemma ReplaceAllCons(a: string, pat: string, b: string, rep: string)
    requires pat != [] && a != [] && !(pat <= a + pat + b)
    requires ReplaceAll(a[1..] + pat + b, pat, rep) == a[1..] + rep + ReplaceAll(b, pat, rep)
    ensures ReplaceAll(a + pat + b, pat, rep) == a + rep + ReplaceAll(b, pat, rep)
  {
    ConsAppend(a + pat, b);
    ConsAppend(a, pat);
    ConsAppend(a + rep, ReplaceAll(b, pat, rep));
    ConsAppend(a, rep);
  }

  /** Before the first occurrence, no match starts at the front, nor later in the tail of `a`. */
  lemma NoMatchBefore(a: string, pat: string, b: string)
    requires pat != [] && a != [] && !Contains(a + pat[..|pat| - 1], pat)
    ensures !(pat <= a + pat + b) && (a + pat + b)[0] == a[0]
    ensures !Contains(a[1..] + pat[..|pat| - 1], pat)
  {
    var x := a + pat[..|pat| - 1];
    assert x[1..] == a[1..] + pat[..|pat| - 1];
    assert x <= a + pat + b;
    NoMatchAtFront(x, a + pat + b, pat);
  }

  /** A prefix `x` of `s` without `pat`, and long enough to hold it, rules out a match at the front of `s`. */
  lemma NoMatchAtFront(x: string, s: string, pat: string)
    requires x <= s && |pat| <= |x| && !Contains(x, pat)
    ensures !(pat <= s) && (x != [] ==> !Contains(x[1..], pat))
  {
  }

  /** A string whose tail holds no `pat` and that is a prefix of one not starting with `pat` holds none either. */
  lemma NoMatchWithFront(x: string, s: string, pat: string)
    requires x != [] && x <= s && |pat| <= |x| && !(pat <= s) && !Contains(x[1..], pat)
    ensures !Contains(x, pat)
  {
  }

  /** Every string holding `pat` splits at its first occurrence, as `ReplaceAllFirst` needs. */
  lemma {:induction false} FirstOccurrence(s: string, pat: string) returns (a: string, b: string)
    requires pat != [] && Contains(s, pat)
    ensures s == a + pat + b && !Contains(a + pat[..|pat| - 1], pat)
    decreases |s|
  {
    if pat <= s {
      a, b := [], s[|pat|..];
      assert s == a + pat + b;
      assert a + pat[..|pat| - 1] == pat[..|pat| - 1];
      if Contains(pat[..|pat| - 1], pat) {
        ContainsBound(pat[..|pat| - 1], pat);
      }
    } else {
      var a', b' := FirstOccurrence(s[1..], pat);
      a, b := [s[0]] + a', b';
      assert s == a + pat + b by {
        assert s == [s[0]] + s[1..];
      }
      var x := a + pat[..|pat| - 1];
      assert x[1..] == a' + pat[..|pat| - 1];
      assert x <= s;
      NoMatchWithFront(x, s, pat);
    }
  }

  /** `s.split(c)` for a one-character separator: never empty, pieces free of `c`. */
  function Split(s: string, c: char): (r: seq<string>)
    ensures |r| >= 1
    ensures forall k :: 0 <= k < |r| ==> c !in r[k]
    decreases |s|
  {
    if s == [] then [""]
    else
      var rest := Split(s[1..], c);
      if s[0] == c then [""] + rest else [[s[0]] + rest[0]] + rest[1..]
  }

  /** The inverse of `Split`: the pieces glued back with the separator. */
  function Join(parts: seq<string>, c: char): string
    requires |parts| >= 1
    decreases |parts|
  {
    if |parts| == 1 then parts[0] else parts[0] + [c] + Join(parts[1..], c)
  }

  lemma {:induction false} SplitJoin(s: string, c: char)
    ensures Join(Split(s, c), c) == s
    decreases |s|
  {
    if s != [] {
      SplitJoin(s[1..], c);
      var rest := Split(s[1..], c);
      if s[0] == c {
        assert Split(s, c)[1..] == rest;
      } else {
        var r := Split(s, c);
        assert r[1..] == rest[1..];
        if |rest| > 1 {
          assert Join(r, c) == [s[0]] + rest[0] + [c] + Join(rest[1..], c);
        }
      }
    }
  }

  /** Hangul Compatibility Jamo U+3131–U+3163 (ㄱ-ㅎ, ㅏ-ㅣ) and Hangul Syllables U+AC00–U+D7A3 (가-힣). */
  predicate IsHangul(c: char) {
    ('\U{3131}' <= c <= '\U{3163}') || ('\U{AC00}' <= c <= '\U{D7A3}')
  }

  /** The Hangul characters of `s`, in order (`match(/[ㄱ-ㅎㅏ-ㅣ가-힣]/g).join('')`, `re.sub(r'[^ㄱ-ㅎㅏ-ㅣ가-힣]', '', s)`). */
  function HangulOnly(s: string): (r: string)
    ensures forall k :: 0 <= k < |r| ==> IsHangul(r[k])
    ensures forall c :: c in s && IsHangul(c) ==> c in r
    ensures KeepsExactly(r, s, IsHangul)
  {
    FilterKeepsExactly(s, IsHangul);
    Filter(s, IsHangul)
  }

  lemma HangulOnlyIdempotent(s: string)
    ensures HangulOnly(HangulOnly(s)) == HangulOnly(s)
  {
    FilterIdempotent(s, IsHangul);
  }

  lemma HangulOnlyKeepsHangul(s: string)
    requires forall k :: 0 <= k < |s| ==> IsHangul(s[k])
    ensures HangulOnly(s) == s
  {
    FilterKeepsAll(s, IsHangul);
  }

  /** Trimming first makes no difference to the Hangul kept: white space is never Hangul. */
  lemma HangulOnlyIgnoresTrim(s: string)
    ensures HangulOnly(Trim(s)) == HangulOnly(s)
  {
    HangulOnlyIgnoresLead(s);
    HangulOnlyIgnoresTrail(TrimStart(s));
  }

  lemma HangulOnlyIgnoresLead(s: string)
    ensures HangulOnly(TrimStart(s)) == HangulOnly(s)
  {
    forall c | IsWhitespace(c) ensures !IsHangul(c) {
    }
    FilterIgnoresLead(s, IsHangul);
  }

  /** A filter that rejects all white space is not changed by trimming the front first. */
  lemma FilterIgnoresLead(s: string, q: char -> bool)
    requires forall c :: IsWhitespace(c) ==> !q(c)
    ensures Filter(TrimStart(s), q) == Filter(s, q)
  {
    TrimStartSuffix(s);
    DropAvoided(s, |s| - |TrimStart(s)|, IsWhitespace, q);
  }

  /** Dropping a prefix whose characters all satisfy `p` does not change the `q`-filter when no `p` character satisfies `q`. */
  lemma DropAvoided(s: string, n: nat, p: char -> bool, q: char -> bool)
    requires n <= |s|
    requires forall k :: 0 <= k < n ==> p(s[k])
    requires forall c :: p(c) ==> !q(c)
    ensures Filter(s[n..], q) == Filter(s, q)
  {
    var lead := s[..n];
    assert s == lead + s[n..];
    FilterAppend(lead, s[n..], q);
    forall k | 0 <= k < n ensures !q(lead[k]) {
      assert lead[k] == s[k];
    }
    FilterNone(lead, q);
  }

  lemma HangulOnlyIgnoresTrail(t: string)
    ensures HangulOnly(TrimEnd(t)) == HangulOnly(t)
  {
    var u := TrimEnd(t);
    var trail := t[|u|..];
    assert t == u + trail;
    forall k | 0 <= k < |trail| ensures IsWhitespace(trail[k]) {
      assert trail[k] == t[|u| + k];
    }
    WhitespaceNotHangul(trail);
    FilterAppend(u, trail, IsHangul);
  }

  lemma WhitespaceNotHangul(w: string)
    requires forall k :: 0 <= k < |w| ==> IsWhitespace(w[k])
    ensures Filter(w, IsHangul) == []
  {
    forall k | 0 <= k < |w| ensures !IsHangul(w[k]) {
      assert IsWhitespace(w[k]);
    }
    FilterNone(w, IsHangul);
  }

  /** A natural number in decimal (`String(n)` for a non-negative integer). */
  function NatToString(n: nat): (r: string)
    ensures |r| >= 1
    ensures forall k :: 0 <= k < |r| ==> '0' <= r[k] <= '9'
    decreases n
  {
    if n < 10 then [Digit(n)] else NatToString(n / 10) + [Digit(n % 10)]
  }

  function Digit(d: nat): (c: char)
    requires d < 10
    ensures '0' <= c <= '9'
  {
    ((d + '0' as int) as char)
  }

  function ParseNat(s: string): nat
    requires forall k :: 0 <= k < |s| ==> '0' <= s[k] <= '9'
    decreases |s|
  {
    if s == [] then 0 else ParseNat(s[..|s| - 1]) * 10 + (s[|s| - 1] as int - '0' as int)
  }

  lemma {:induction false} NatToStringRoundTrip(n: nat)
    ensures ParseNat(NatToString(n)) == n
    decreases n
  {
    if n >= 10 {
      NatToStringRoundTrip(n / 10);
      var r := NatToString(n);
      assert r[..|r| - 1] == NatToString(n / 10);
    }
  }
}
