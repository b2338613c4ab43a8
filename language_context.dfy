// The translation provider (src/contexts/LanguageContext.tsx): the current
// language, the loaded translation table and the `t` look-up with `{{name}}`
// interpolation. The provider's React state is the object `LanguageProvider`;
// local storage is its field `stored`; the fetched locale file is the
// argument of `TranslationsLoaded`.
module LanguageContext {
  import opened Wrappers
  import opened Strings
  import opened Types

  /** A parsed JSON value of a locale file. */
  datatype Value =
    | Null
    | Bool(b: bool)
    | Number(n: int)
    | Str(s: string)
    | Arr(items: seq<Value>)
    | Obj(fields: map<string, Value>)

  /** `obj?.[name]`: a member of an object; anything else has no such member here. */
  function Member(v: Option<Value>, name: string): (r: Option<Value>)
    ensures r.Some? <==> v.Some? && v.value.Obj? && name in v.value.fields
    ensures r.Some? ==> r.value == v.value.fields[name]
  {
    if v.Some? && v.value.Obj? && name in v.value.fields then Some(v.value.fields[name]) else None
  }

  /** `path.reduce((obj, i) => obj?.[i], v)`: the value reached along `path`, `None` for `undefined`. */
  function Lookup(v: Option<Value>, path: seq<string>): Option<Value>
    decreases |path|
  {
    if path == [] then v else Lookup(Member(v, path[0]), path[1..])
  }

  /** A walk along two paths one after the other is the walk along their concatenation. */
  lemma {:induction false} LookupAppend(v: Option<Value>, p: seq<string>, q: seq<string>)
    ensures Lookup(v, p + q) == Lookup(Lookup(v, p), q)
    decreases |p|
  {
    if p != [] {
      assert (p + q)[0] == p[0] && (p + q)[1..] == p[1..] + q;
      LookupAppend(Member(v, p[0]), p[1..], q);
    } else {
      assert p + q == q;
    }
  }

  /** Once the walk leaves the objects it stays `undefined`. */
  lemma {:induction false} LookupUndefined(path: seq<string>)
    ensures Lookup(None, path) == None
    decreases |path|
  {
    if path != [] {
      LookupUndefined(path[1..]);
    }
  }

  /** An option value of `t`. */
  datatype Arg = ArgText(s: string) | ArgNumber(n: int) | ArgFlag(b: bool)

  predicate Truthy(a: Arg) {
    match a
    case ArgText(s) => s != ""
    case ArgNumber(n) => n != 0
    case ArgFlag(b) => b
  }

  /** `String(value)`. */
  function ArgString(a: Arg): (r: string)
    ensures a.ArgText? ==> r == a.s
    ensures a.ArgNumber? && a.n >= 0 ==> r == NatToString(a.n)
    ensures a.ArgNumber? && a.n < 0 ==> r == "-" + NatToString(-a.n)
    ensures a.ArgFlag? ==> r == if a.b then "true" else "false"
  {
    match a
    case ArgText(s) => s
    case ArgNumber(n) => if n >= 0 then NatToString(n) else "-" + NatToString(-n)
    case ArgFlag(b) => if b then "true" else "false"
  }

  /** The first `returnObjects` option is at `k` and its value is truthy. */
  ghost predicate FirstReturnObjectsAt(options: seq<(string, Arg)>, k: int) {
    0 <= k < |options| && options[k].0 == "returnObjects" && Truthy(options[k].1) &&
    forall j :: 0 <= j < k ==> options[j].0 != "returnObjects"
  }

  /** `'returnObjects' in options && options.returnObjects`: the first such key decides. */
  function ReturnObjects(options: seq<(string, Arg)>): (r: bool)
    ensures r ==> exists k :: 0 <= k < |options| && options[k].0 == "returnObjects" && Truthy(options[k].1)
    ensures (forall k :: 0 <= k < |options| ==> options[k].0 != "returnObjects") ==> !r
    ensures r <==> exists k :: FirstReturnObjectsAt(options, k)
    decreases |options|
  {
    if options == [] then false
    else if options[0].0 == "returnObjects" then
      assert (exists k :: FirstReturnObjectsAt(options, k)) ==> FirstReturnObjectsAt(options, 0);
      assert Truthy(options[0].1) ==> FirstReturnObjectsAt(options, 0);
      Truthy(options[0].1)
    else
      var r := ReturnObjects(options[1..]);
      assert r ==> exists k :: FirstReturnObjectsAt(options, k) by {
        if r {
          var k :| FirstReturnObjectsAt(options[1..], k);
          assert FirstReturnObjectsAt(options, k + 1);
        }
      }
      assert (exists k :: FirstReturnObjectsAt(options, k)) ==> r by {
        if k :| FirstReturnObjectsAt(options, k) {
          assert FirstReturnObjectsAt(options[1..], k - 1);
        }
      }
      r
  }

  /** The placeholder an option key fills (the key read literally, not as a pattern). */
  function Placeholder(key: string): (p: string)
    ensures |p| == |key| + 4 && "{{" <= p
  {
    "{{" + key + "}}"
  }

  /** One round of the interpolation loop. */
  function Fill(text: string, option: (string, Arg)): (r: string)
    ensures option.0 == "returnObjects" ==> r == text
    ensures !Contains(text, Placeholder(option.0)) ==> r == text
  {
    if option.0 == "returnObjects" then text else ReplaceAll(text, Placeholder(option.0), ArgString(option.1))
  }

  /**
   * Any other option replaces the first placeholder of its key by its value
   * as text, keeps what comes before and fills the rest in turn; with the
   * clause above (no placeholder, nothing changes) this decides the result
   * on every text, since `FirstOccurrence` splits every text with a
   * placeholder this way.
   */
  lemma FillFirst(a: string, b: string, option: (string, Arg))
    requires option.0 != "returnObjects"
    requires var p := Placeholder(option.0); !Contains(a + p[..|p| - 1], p)
    ensures Fill(a + Placeholder(option.0) + b, option) == a + ArgString(option.1) + Fill(b, option)
  {
    ReplaceAllFirst(a, Placeholder(option.0), b, ArgString(option.1));
  }

  /** The interpolated text: every option key but `returnObjects`, in order, replaces all its placeholders. */
  function Interpolated(text: string, options: seq<(string, Arg)>): string
    decreases |options|
  {
    if options == [] then text else Interpolated(Fill(text, options[0]), options[1..])
  }

  /** Text without `{{` comes out of interpolation unchanged. */
  lemma {:induction false} InterpolatedNoPlaceholder(text: string, options: seq<(string, Arg)>)
    requires !Contains(text, "{{")
    ensures Interpolated(text, options) == text
    decreases |options|
  {
    if options != [] {
      if options[0].0 != "returnObjects" {
        var p := Placeholder(options[0].0);
        if Contains(text, p) {
          ContainsPrefix(text, p, "{{");
        }
      }
      InterpolatedNoPlaceholder(text, options[1..]);
    }
  }

  /** The `returnObjects` entries play no part in interpolation. */
  lemma {:induction false} InterpolatedIgnoresReturnObjects(text: string, options: seq<(string, Arg)>)
    ensures Interpolated(text, options) == Interpolated(text, WithoutReturnObjects(options))
    decreases |options|
  {
    if options != [] {
      InterpolatedIgnoresReturnObjects(Fill(text, options[0]), options[1..]);
    }
  }

  function WithoutReturnObjects(options: seq<(string, Arg)>): (r: seq<(string, Arg)>)
    ensures forall k :: 0 <= k < |r| ==> r[k].0 != "returnObjects"
    ensures |r| <= |options|
    decreases |options|
  {
    if options == [] then []
    else if options[0].0 == "returnObjects" then WithoutReturnObjects(options[1..])
    else [options[0]] + WithoutReturnObjects(options[1..])
  }

  /** The interpolation loop of `t`: `interpolatedText` reassigned once per option key. */
  method Interpolate(text: string, options: seq<(string, Arg)>) returns (r: string)
    ensures r == Interpolated(text, options)
  {
    r := text;
    var i := 0;
    while i < |options|
      invariant 0 <= i <= |options|
      invariant Interpolated(r, options[i..]) == Interpolated(text, options)
    {
      assert options[i..][1..] == options[i + 1..];
      var (key, value) := options[i];
      if key != "returnObjects" {
        r := ReplaceAll(r, Placeholder(key), ArgString(value));
      }
      i := i + 1;
    }
  }

  /**
   * The provider's state: the language, the translations (`null` while
   * loading) and the local-storage entry `hangul_garden_language`.
   */
  class LanguageProvider {
    var language: string
    var translations: Option<Value>
    var stored: Option<string>

    predicate Valid()
      reads this
    {
      language in Languages
    }

    /** `useState('ko')`, `useState(null)`. */
    constructor (stored: Option<string>)
      ensures Valid()
      ensures language == "ko" && translations.None? && this.stored == stored
    {
      language := "ko";
      translations := None;
      this.stored := stored;
    }

    /** The mount effect: a stored language is adopted only when it is one of the seven. */
    method AdoptSaved()
      requires Valid()
      modifies this`language
      ensures Valid()
      ensures stored.Some? && stored.value in Languages ==> language == stored.value
      ensures !(stored.Some? && stored.value in Languages) ==> language == old(language)
    {
      if stored.Some? && stored.value in Languages {
        language := stored.value;
      }
    }

    /** The fetch effect's end: the parsed locale file, or `{}` when the fetch or the parse failed. */
    method TranslationsLoaded(data: Option<Value>)
      modifies this`translations
      ensures translations == Some(data.GetOr(Obj(map[])))
    {
      translations := Some(data.GetOr(Obj(map[])));
    }

    /** `handleSetLanguage`: the code is stored, the translations are cleared, the language is set. */
    method SetLanguage(lang: string)
      requires lang in Languages
      modifies this
      ensures Valid()
      ensures stored == Some(lang) && translations.None? && language == lang
    {
      stored := Some(lang);
      translations := None;
      language := lang;
    }

    /**
     * `t(key, options)`: the key itself while nothing is loaded or when the
     * dotted path leads nowhere; with `returnObjects` the value found; a
     * string found is interpolated; any other value is returned as found.
     */
    method Translate(key: string, options: seq<(string, Arg)>) returns (r: Value)
      ensures translations.None? ==> r == Str(key)
      ensures translations.Some? && Lookup(translations, Split(key, '.')).None? ==> r == Str(key)
      ensures translations.Some? && Lookup(translations, Split(key, '.')).Some? && ReturnObjects(options) ==>
        r == Lookup(translations, Split(key, '.')).value
      ensures translations.Some? && Lookup(translations, Split(key, '.')).Some? && !ReturnObjects(options) ==>
        var found := Lookup(translations, Split(key, '.')).value;
        r == if found.Str? then Str(Interpolated(found.s, options)) else found
    {
      if translations.None? {
        return Str(key);
      }
      var text := Lookup(translations, Split(key, '.'));
      if text.None? {
        return Str(key);
      }
      if ReturnObjects(options) {
        return text.value;
      }
      if text.value.Str? {
        var s := Interpolate(text.value.s, options);
        return Str(s);
      }
      r := text.value;
    }
  }

  /** A key without a dot is looked up at the top level of the table. */
  lemma TopLevelKey(table: Value, key: string)
    requires '.' !in key
    ensures Lookup(Some(table), Split(key, '.')) == Member(Some(table), key)
  {
    SplitNoSeparator(key, '.');
  }

  lemma {:induction false} SplitNoSeparator(s: string, c: char)
    requires c !in s
    ensures Split(s, c) == [s]
    decreases |s|
  {
    if s != [] {
      SplitNoSeparator(s[1..], c);
      assert [s[0]] + s[1..] == s;
    }
  }

  /** `a.b` is `b` looked up inside `a`. */
  lemma NestedKey(table: Value, outer: string, inner: string)
    requires '.' !in outer && '.' !in inner
    ensures Lookup(Some(table), Split(outer + "." + inner, '.')) == Member(Member(Some(table), outer), inner)
  {
    var key := outer + "." + inner;
    SplitAround(outer, inner, '.');
    assert Split(key, '.') == [outer, inner];
    LookupTwo(Some(table), outer, inner);
  }

  lemma LookupTwo(v: Option<Value>, a: string, b: string)
    ensures Lookup(v, [a, b]) == Member(Member(v, a), b)
  {
    assert [a, b][1..] == [b] && [b][1..] == [];
    assert Lookup(v, [a, b]) == Lookup(Member(v, a), [b]);
    assert Lookup(Member(v, a), [b]) == Lookup(Member(Member(v, a), b), []);
  }

  lemma {:induction false} SplitAround(a: string, b: string, c: char)
    requires c !in a && c !in b
    ensures Split(a + [c] + b, c) == [a, b]
    decreases |a|
  {
    if a == [] {
      assert [] + [c] + b == [c] + b;
      assert ([c] + b)[1..] == b;
      SplitNoSeparator(b, c);
    } else {
      assert (a + [c] + b)[1..] == a[1..] + [c] + b;
      SplitAround(a[1..], b, c);
      assert [a[0]] + a[1..] == a;
    }
  }
}
