// Book search results from the Naver book API (services/naverService.ts):
// turning the API's items into the application's `Book` records (HTML tags
// stripped, one ISBN picked, the image URL given a scheme, empty fields made
// absent) and building the search queries. The HTTP calls are left out; the
// response items are inputs. `encodeURIComponent` is the parameter `encode`.
module NaverService {
  import opened Wrappers
  import opened Seqs
  import opened Strings
  import opened Types

  /** The fields of one item of the Naver response. */
  datatype NaverItem = NaverItem(
    title: string,
    link: string,
    image: string,
    author: string,
    discount: string,
    publisher: string,
    pubdate: string,
    isbn: string,
    description: string)

  /** The position of the first `c` in `s`. */
  function FirstIndex(s: string, c: char): (i: nat)
    requires c in s
    ensures i < |s| && s[i] == c && c !in s[..i]
    decreases |s|
  {
    if s[0] == c then 0
    else
      assert c in s[1..];
      var i := FirstIndex(s[1..], c) + 1;
      assert s[..i] == [s[0]] + s[1..][..i - 1];
      i
  }

  /**
   * `s.replace(/<[^>]*>/g, '')`: scanning left to right, a `<` that has a
   * `>` somewhere after it starts a tag that runs to the first such `>` and
   * is deleted; a `<` with no `>` after it is kept.
   */
  function StripTags(s: string): (r: string)
    ensures |r| <= |s|
    ensures forall k :: 0 <= k < |r| ==> r[k] in s
    decreases |s|
  {
    if s == [] then []
    else if s[0] == '<' && '>' in s then
      var e := FirstIndex(s, '>');
      var r := StripTags(s[e + 1..]);
      assert forall k :: 0 <= k < |r| ==> r[k] in s by {
        forall k | 0 <= k < |r| ensures r[k] in s {
          var m :| 0 <= m < |s[e + 1..]| && s[e + 1..][m] == r[k];
          assert s[e + 1 + m] == r[k];
        }
      }
      r
    else
      var r := [s[0]] + StripTags(s[1..]);
      assert forall k :: 0 <= k < |r| ==> r[k] in s by {
        forall k | 0 <= k < |r| ensures r[k] in s {
          if k > 0 {
            var m :| 0 <= m < |s[1..]| && s[1..][m] == r[k];
            assert s[m + 1] == r[k];
          }
        }
      }
      r
  }

  /** No complete tag is left: every `<` has no `>` after it. */
  predicate TagFree(s: string) {
    forall i :: 0 <= i < |s| && s[i] == '<' ==> '>' !in s[i + 1..]
  }

  lemma {:induction false} StripTagsIsTagFree(s: string)
    ensures TagFree(StripTags(s))
    decreases |s|
  {
    if s != [] {
      if s[0] == '<' && '>' in s {
        StripTagsIsTagFree(s[FirstIndex(s, '>') + 1..]);
      } else {
        StripTagsIsTagFree(s[1..]);
        var t := StripTags(s[1..]);
        var r := [s[0]] + t;
        forall i | 0 <= i < |r| && r[i] == '<' ensures '>' !in r[i + 1..] {
          if i == 0 {
            assert '>' !in s;
            assert r[1..] == t;
            assert forall k :: 0 <= k < |t| ==> t[k] != '>';
          } else {
            assert r[i + 1..] == t[i..];
          }
        }
      }
    }
  }

  lemma {:induction false} TagFreeUnchanged(s: string)
    requires TagFree(s)
    ensures StripTags(s) == s
    decreases |s|
  {
    if s != [] {
      assert s[0] == '<' ==> '>' !in s[1..];
      assert TagFree(s[1..]) by {
        forall i | 0 <= i < |s[1..]| && s[1..][i] == '<' ensures '>' !in s[1..][i + 1..] {
          assert s[1..][i + 1..] == s[i + 2..];
        }
      }
      TagFreeUnchanged(s[1..]);
    }
  }

  /** Stripping tags twice strips nothing more; text without `<` is left alone. */
  lemma StripTagsIdempotent(s: string)
    ensures StripTags(StripTags(s)) == StripTags(s)
    ensures '<' !in s ==> StripTags(s) == s
  {
    StripTagsIsTagFree(s);
    TagFreeUnchanged(StripTags(s));
    if '<' !in s {
      TagFreeUnchanged(s);
    }
  }

  /** Removing tags only deletes characters: the result is a subsequence of the text. */
  lemma {:induction false} StripTagsSubsequence(s: string)
    ensures IsSubsequence(StripTags(s), s)
    decreases |s|
  {
    if s != [] {
      if s[0] == '<' && '>' in s {
        var e := FirstIndex(s, '>');
        StripTagsSubsequence(s[e + 1..]);
        SuffixSubsequence(StripTags(s[e + 1..]), s, e + 1);
      } else {
        StripTagsSubsequence(s[1..]);
      }
    }
  }

  /** Whatever is a subsequence of `s[j..]` is a subsequence of `s`. */
  lemma {:induction false} SuffixSubsequence(r: string, s: string, j: nat)
    requires j <= |s| && IsSubsequence(r, s[j..])
    ensures IsSubsequence(r, s)
    decreases j
  {
    if j > 0 {
      assert s[1..][j - 1..] == s[j..];
      SuffixSubsequence(r, s[1..], j - 1);
    }
  }

  /** Text before the first `<` passes through untouched. */
  lemma {:induction false} StripTagsPlainPrefix(a: string, b: string)
    requires '<' !in a
    ensures StripTags(a + b) == a + StripTags(b)
    decreases |a|
  {
    if a == [] {
      assert a + b == b;
    } else {
      ConsAppend(a, b);
      StripTagsPlainPrefix(a[1..], b);
      ConsAppend(a, StripTags(b));
    }
  }

  /** A complete tag `<t>` is deleted, and the rest after it is stripped in turn. */
  lemma {:induction false} StripTagsTag(a: string, t: string, b: string)
    requires '<' !in a && '>' !in t
    ensures StripTags(a + "<" + t + ">" + b) == a + StripTags(b)
  {
    var s := "<" + t + ">" + b;
    assert a + "<" + t + ">" + b == a + s;
    StripTagsPlainPrefix(a, s);
    var n := |t| + 1;
    assert s[n] == '>';
    assert s[..n] == "<" + t;
    var e := FirstIndex(s, '>');
    assert e == n;
    assert s[e + 1..] == b;
  }

  /** `tokens.find(t => t.length === n)`. */
  function FirstOfLength(tokens: seq<string>, n: nat): (r: Option<nat>)
    ensures r.Some? ==> r.value < |tokens| && |tokens[r.value]| == n
    ensures r.Some? ==> forall m :: 0 <= m < r.value ==> |tokens[m]| != n
    ensures r.None? <==> forall m :: 0 <= m < |tokens| ==> |tokens[m]| != n
    decreases |tokens|
  {
    if tokens == [] then None
    else if |tokens[0]| == n then Some(0)
    else
      match FirstOfLength(tokens[1..], n)
      case None => None
      case Some(k) => Some(k + 1)
  }

  /** `r` is the first token of `tokens` that has `r`'s length. */
  ghost predicate FirstOfItsLength(tokens: seq<string>, r: string) {
    exists i :: 0 <= i < |tokens| && tokens[i] == r && forall m :: 0 <= m < i ==> |tokens[m]| != |r|
  }

  /**
   * The ISBN kept from Naver's space-separated ISBN field: the first
   * 13-character token, else the first 10-character one, else "".
   */
  function PickIsbn(field: string): (r: string)
    ensures r == "" || |r| == 13 || |r| == 10
    ensures r != "" ==> r in Split(field, ' ') && FirstOfItsLength(Split(field, ' '), r)
    ensures |r| == 10 ==> forall m :: 0 <= m < |Split(field, ' ')| ==> |Split(field, ' ')[m]| != 13
    ensures r == "" <==> forall m :: 0 <= m < |Split(field, ' ')| ==> |Split(field, ' ')[m]| != 13 && |Split(field, ' ')[m]| != 10
  {
    var tokens := Split(field, ' ');
    var i13 := FirstOfLength(tokens, 13);
    var i10 := FirstOfLength(tokens, 10);
    if i13.Some? then
      assert |tokens[i13.value]| == 13;
      tokens[i13.value]
    else if i10.Some? then
      assert |tokens[i10.value]| == 10;
      tokens[i10.value]
    else ""
  }

  /** The image URL: tags stripped and `https://` added unless it has an http(s) scheme; an empty image gives no cover. */
  function CoverUrl(image: string): (r: Option<string>)
    ensures r.None? <==> image == ""
    ensures r.Some? ==> "http://" <= r.value || "https://" <= r.value
    ensures r.Some? ==> r.value == StripTags(image) || r.value == "https://" + StripTags(image)
    ensures r.Some? && ("http://" <= StripTags(image) || "https://" <= StripTags(image)) ==> r.value == StripTags(image)
  {
    if image == "" then None
    else
      var u := StripTags(image);
      if "http://" <= u || "https://" <= u then Some(u) else Some("https://" + u)
  }

  /** A URL that has been through `CoverUrl` comes out of it again unchanged. */
  lemma CoverUrlIdempotent(image: string)
    requires image != ""
    ensures CoverUrl(CoverUrl(image).value) == CoverUrl(image)
  {
    var u := StripTags(image);
    StripTagsIsTagFree(image);
    var v := CoverUrl(image).value;
    if v != u {
      assert v == "https://" + u;
      assert TagFree(v) by {
        forall i | 0 <= i < |v| && v[i] == '<' ensures '>' !in v[i + 1..] {
          assert i >= 8;
          assert v[i] == u[i - 8];
          assert v[i + 1..] == u[i - 8 + 1..];
        }
      }
    }
    TagFreeUnchanged(v);
  }

  /** `x || undefined`. */
  function NonEmpty(s: string): (r: Option<string>)
    ensures r.None? <==> s == ""
    ensures r.Some? ==> r.value == s
  {
    if s == "" then None else Some(s)
  }

  const NoDescription: string := "설명이 제공되지 않았습니다."
  const SearchLinkPrefix: string := "https://search.naver.com/search.naver?where=nexearch&sm=top_hty&fbm=0&ie=utf8&query="

  /** One item as a `Book`; `linkQuery` is the text the Naver search link looks up. */
  function ConvertItem(item: NaverItem, linkQuery: string, encode: string -> string): (b: Book)
    ensures b.id.None?
    ensures b.title == StripTags(item.title) && b.author == StripTags(item.author)
    ensures b.description != ""
    ensures b.description == if StripTags(item.description) == "" then NoDescription else StripTags(item.description)
    ensures b.coverImageUrl == CoverUrl(item.image)
    ensures b.isbn == Some(PickIsbn(item.isbn))
    ensures b.link == Some(SearchLinkPrefix + encode(linkQuery))
    ensures b.price == NonEmpty(item.discount) && b.publisher == NonEmpty(item.publisher) && b.pubdate == NonEmpty(item.pubdate)
  {
    var description := StripTags(item.description);
    Book(None, StripTags(item.title), StripTags(item.author),
         if description == "" then NoDescription else description,
         CoverUrl(item.image), Some(PickIsbn(item.isbn)), Some(SearchLinkPrefix + encode(linkQuery)),
         NonEmpty(item.discount), NonEmpty(item.publisher), NonEmpty(item.pubdate))
  }

  /** `convertNaverBooksToBooks`: one book per item, in order, linked to a search for its cleaned title and author. */
  function ConvertBooks(items: seq<NaverItem>, encode: string -> string): (r: seq<Book>)
    ensures |r| == |items|
    ensures forall k :: 0 <= k < |items| ==>
      r[k] == ConvertItem(items[k], StripTags(items[k].title) + " " + StripTags(items[k].author), encode)
  {
    seq(|items|, k requires 0 <= k < |items| =>
      ConvertItem(items[k], StripTags(items[k].title) + " " + StripTags(items[k].author), encode))
  }

  /** Converting a concatenation of result pages converts each page. */
  lemma ConvertBooksAppend(a: seq<NaverItem>, b: seq<NaverItem>, encode: string -> string)
    ensures ConvertBooks(a + b, encode) == ConvertBooks(a, encode) + ConvertBooks(b, encode)
  {
    var whole, parts := ConvertBooks(a + b, encode), ConvertBooks(a, encode) + ConvertBooks(b, encode);
    forall k | 0 <= k < |whole| ensures whole[k] == parts[k] {
      if k < |a| {
        assert (a + b)[k] == a[k];
      } else {
        assert (a + b)[k] == b[k - |a|];
      }
    }
  }

  /** `getSearchQueryByLevel`. */
  function SearchQueryByLevel(level: string): (q: string)
    ensures level == "초급" ==> q == "한국어 초급 학습책"
    ensures level == "중급" ==> q == "한국어 중급 학습책"
    ensures level == "고급" ==> q == "한국어 고급 학습책"
    ensures level != "초급" && level != "중급" && level != "고급" ==> q == "한국어 학습책"
  {
    if level == "초급" then "한국어 초급 학습책"
    else if level == "중급" then "한국어 중급 학습책"
    else if level == "고급" then "한국어 고급 학습책"
    else "한국어 학습책"
  }

  /** `getSearchQueryByGenre`. */
  function SearchQueryByGenre(genre: string): (q: string)
    ensures q == "한국어 " + genre + " 책"
  {
    "한국어 " + genre + " 책"
  }

  /** The query of `searchBookByTitleAndAuthor`: the author is added only when given and non-empty. */
  function TitleAuthorQuery(title: string, author: Option<string>): (q: string)
    ensures title <= q
    ensures author.None? || author.value == "" ==> q == title
    ensures author.Some? && author.value != "" ==> q == title + " " + author.value
  {
    if author.Some? && author.value != "" then title + " " + author.value else title
  }

  /**
   * `searchBookByTitleAndAuthor` after the request: no reply (`None`) or no
   * items gives null; otherwise the first item, linked to a search for the
   * query as asked.
   */
  function BookByTitleAndAuthor(title: string, author: Option<string>, items: Option<seq<NaverItem>>,
                                encode: string -> string): (r: Option<Book>)
    ensures r.None? <==> items.None? || items.value == []
    ensures r.Some? ==> r.value == ConvertItem(items.value[0], TitleAuthorQuery(title, author), encode)
  {
    if items.None? || items.value == [] then None
    else Some(ConvertItem(items.value[0], TitleAuthorQuery(title, author), encode))
  }
}
