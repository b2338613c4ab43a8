// The book recommendation screen (components/BookRecView.tsx): the saved
// (bookmarked) books kept in local storage, the id a book is saved under, the
// mood form's guard and the cover thumbnail choice.
module BookRecView {
  import opened Wrappers
  import opened Seqs
  import opened Types

  /** `book.id || `${book.title}-${book.author}``: an absent or empty id falls back to title and author. */
  function BookId(b: Book): (id: string)
    ensures id != ""
    ensures b.id.Some? && b.id.value != "" ==> id == b.id.value
    ensures !(b.id.Some? && b.id.value != "") ==> id == b.title + "-" + b.author
  {
    if b.id.Some? && b.id.value != "" then b.id.value else b.title + "-" + b.author
  }

  /** `isBookmarked`: some saved book has the same id. */
  predicate IsBookmarked(saved: seq<Book>, b: Book) {
    exists k :: 0 <= k < |saved| && BookId(saved[k]) == BookId(b)
  }

  /** The test of `saved.filter(s => id(s) !== id)`. */
  function OtherId(id: string): Book -> bool {
    (b: Book) => BookId(b) != id
  }

  /** `saved.filter(s => id(s) !== id)`. */
  function WithoutId(saved: seq<Book>, id: string): (r: seq<Book>)
    ensures forall k :: 0 <= k < |r| ==> BookId(r[k]) != id
    ensures forall k :: 0 <= k < |saved| && BookId(saved[k]) != id ==> saved[k] in r
    ensures KeepsExactly(r, saved, OtherId(id))
    ensures (forall k :: 0 <= k < |saved| ==> BookId(saved[k]) != id) ==> r == saved
  {
    FilterKeepsExactly(saved, OtherId(id));
    if forall k :: 0 <= k < |saved| ==> BookId(saved[k]) != id then
      FilterKeepsAll(saved, OtherId(id));
      Filter(saved, OtherId(id))
    else
      Filter(saved, OtherId(id))
  }

  /**
   * `handleToggleBookmark`: a saved book (by id) is removed, every copy of
   * it; an unsaved one is appended with its id filled in.
   */
  function ToggleBookmark(saved: seq<Book>, b: Book): (r: seq<Book>)
    ensures IsBookmarked(saved, b) ==> r == WithoutId(saved, BookId(b))
    ensures !IsBookmarked(saved, b) ==> r == saved + [b.(id := Some(BookId(b)))]
    ensures IsBookmarked(r, b) <==> !IsBookmarked(saved, b)
  {
    var id := BookId(b);
    if IsBookmarked(saved, b) then WithoutId(saved, id)
    else
      var r := saved + [b.(id := Some(id))];
      assert BookId(r[|saved|]) == id;
      r
  }

  /** Bookmarking a book that was not saved and then un-bookmarking it restores the saved list. */
  lemma ToggleTwice(saved: seq<Book>, b: Book)
    requires !IsBookmarked(saved, b)
    ensures ToggleBookmark(ToggleBookmark(saved, b), b) == saved
  {
    var id := BookId(b);
    var once := saved + [b.(id := Some(id))];
    assert BookId(once[|saved|]) == id;
    WithoutIdLast(saved, b.(id := Some(id)), id);
  }

  lemma {:induction false} WithoutIdLast(saved: seq<Book>, x: Book, id: string)
    requires forall k :: 0 <= k < |saved| ==> BookId(saved[k]) != id
    requires BookId(x) == id
    ensures WithoutId(saved + [x], id) == saved
    decreases |saved|
  {
    if saved == [] {
      assert saved + [x] == [x];
    } else {
      assert (saved + [x])[1..] == saved[1..] + [x];
      WithoutIdLast(saved[1..], x, id);
    }
  }

  /** No two saved books share an id. */
  predicate DistinctIds(saved: seq<Book>) {
    forall i, j :: 0 <= i < j < |saved| ==> BookId(saved[i]) != BookId(saved[j])
  }

  /** Saved ids stay distinct under toggling. */
  lemma ToggleKeepsIdsDistinct(saved: seq<Book>, b: Book)
    requires DistinctIds(saved)
    ensures DistinctIds(ToggleBookmark(saved, b))
  {
    var r := ToggleBookmark(saved, b);
    if IsBookmarked(saved, b) {
      WithoutIdDistinct(saved, BookId(b));
    } else {
      assert BookId(r[|saved|]) == BookId(b);
    }
  }

  lemma {:induction false} WithoutIdDistinct(saved: seq<Book>, id: string)
    requires DistinctIds(saved)
    ensures DistinctIds(WithoutId(saved, id))
    decreases |saved|
  {
    if saved != [] {
      DistinctTail(saved);
      WithoutIdDistinct(saved[1..], id);
      var rest := WithoutId(saved[1..], id);
      if BookId(saved[0]) != id {
        SubsequenceMembers(rest, saved[1..]);
        HeadIdFresh(saved);
        forall k | 0 <= k < |rest| ensures BookId(rest[k]) != BookId(saved[0]) {
          assert rest[k] in saved[1..];
        }
        DistinctCons(saved[0], rest);
      }
    }
  }

  lemma DistinctTail(saved: seq<Book>)
    requires saved != [] && DistinctIds(saved)
    ensures DistinctIds(saved[1..])
  {
    forall i, j | 0 <= i < j < |saved| - 1 ensures BookId(saved[1..][i]) != BookId(saved[1..][j]) {
      assert saved[1..][i] == saved[i + 1] && saved[1..][j] == saved[j + 1];
    }
  }

  lemma HeadIdFresh(saved: seq<Book>)
    requires saved != [] && DistinctIds(saved)
    ensures forall b :: b in saved[1..] ==> BookId(b) != BookId(saved[0])
  {
    forall b | b in saved[1..] ensures BookId(b) != BookId(saved[0]) {
      var m :| 0 <= m < |saved[1..]| && saved[1..][m] == b;
      assert saved[1..][m] == saved[m + 1];
    }
  }

  lemma DistinctCons(b: Book, rest: seq<Book>)
    requires DistinctIds(rest)
    requires forall k :: 0 <= k < |rest| ==> BookId(rest[k]) != BookId(b)
    ensures DistinctIds([b] + rest)
  {
    var r := [b] + rest;
    forall i, j | 0 <= i < j < |r| ensures BookId(r[i]) != BookId(r[j]) {
      if i > 0 {
        assert r[i] == rest[i - 1] && r[j] == rest[j - 1];
      } else {
        assert r[j] == rest[j - 1];
      }
    }
  }

  datatype MoodRequest = MoodRequired | Recommend(mood: string, situation: Option<string>, level: Option<string>)

  /** The form's text for an optional request field: absent reads as the empty field. */
  function FieldText(v: Option<string>): string {
    if v.Some? then v.value else ""
  }

  /**
   * `handleMoodSubmit`: an empty mood is refused before anything loads; an
   * empty situation or level is sent as absent (`x || undefined`), so no
   * request carries an empty field and none of the form is lost.
   */
  function MoodSubmit(mood: string, situation: string, level: string): (r: MoodRequest)
    ensures r.MoodRequired? <==> mood == ""
    ensures r.Recommend? ==> r.mood == mood
    ensures r.Recommend? ==> r.situation != Some("") && r.level != Some("")
    ensures r.Recommend? ==> FieldText(r.situation) == situation && FieldText(r.level) == level
  {
    if mood == "" then MoodRequired
    else Recommend(mood, if situation == "" then None else Some(situation), if level == "" then None else Some(level))
  }

  datatype Thumbnail = Cover(url: string) | Placeholder(initial: string)

  /** `getThumbnailUrl`: the cover when it starts with `http`, else a placeholder with the title's first character (📖 for an empty title). */
  function ThumbnailFor(b: Book): (t: Thumbnail)
    ensures t.Cover? <==> b.coverImageUrl.Some? && "http" <= b.coverImageUrl.value
    ensures t.Cover? ==> t.url == b.coverImageUrl.value
    ensures t.Placeholder? ==> t.initial == if b.title == "" then "📖" else b.title[..1]
  {
    if b.coverImageUrl.Some? && "http" <= b.coverImageUrl.value then Cover(b.coverImageUrl.value)
    else Placeholder(if b.title == "" then "📖" else b.title[..1])
  }
}
