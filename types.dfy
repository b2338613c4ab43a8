// The record shapes of src/types.ts that the models share. Optional
// TypeScript fields (`x?: T`) become `Option<T>`.
module Types {
  import opened Wrappers

  /** The interface languages (`type Language`), also the keys of every per-language prompt table. */
  const Languages: set<string> := {"ko", "en", "ja", "zh", "vi", "fr", "sv"}

  /** A dictionary look-up result. */
  datatype DictionaryEntry = DictionaryEntry(
    word: string,
    traditionalMeaning: string,
    slangMeaning: string,
    exampleSentence: string)

  /** A saved word: a dictionary entry plus its id (the creation time, as text). */
  datatype VocabWord = VocabWord(
    id: string,
    word: string,
    traditionalMeaning: string,
    slangMeaning: string,
    exampleSentence: string)

  /** A vocabulary folder ("화단", a garden bed) of saved words. */
  datatype VocabFolder = VocabFolder(id: string, name: string, words: seq<VocabWord>)

  /** The status of one Hangul lesson in a user's progress map. */
  datatype LessonStatus = Locked | Unlocked | Completed

  type Progress = map<string, LessonStatus>

  datatype User = User(
    email: string,
    password: Option<string>,
    fullName: string,
    nickname: string,
    profileImage: Option<string>,
    folders: seq<VocabFolder>,
    hangulProgress: Option<Progress>)

  /** A book recommendation. */
  datatype Book = Book(
    id: Option<string>,
    title: string,
    author: string,
    description: string,
    coverImageUrl: Option<string>,
    isbn: Option<string>,
    link: Option<string>,
    price: Option<string>,
    publisher: Option<string>,
    pubdate: Option<string>)

  /** A quiz entry: the slang word, its meaning and an example. */
  datatype SlangEntry = SlangEntry(slang: string, meaning: string, example: string)

  /** A saved word as a quiz entry: the slang meaning, or the dictionary meaning when that is empty. */
  function AsEntry(w: VocabWord): (e: SlangEntry)
    ensures e.slang == w.word && e.example == w.exampleSentence
    ensures e.meaning == if w.slangMeaning != "" then w.slangMeaning else w.traditionalMeaning
  {
    SlangEntry(w.word, if w.slangMeaning != "" then w.slangMeaning else w.traditionalMeaning, w.exampleSentence)
  }

  function Entries(words: seq<VocabWord>): (r: seq<SlangEntry>)
    ensures |r| == |words|
    ensures forall k :: 0 <= k < |words| ==> r[k] == AsEntry(words[k])
  {
    seq(|words|, k requires 0 <= k < |words| => AsEntry(words[k]))
  }

  /** `{ ...entry, id }`: the saved form of a dictionary entry. */
  function SavedWord(entry: DictionaryEntry, id: string): (w: VocabWord)
    ensures w.id == id && w.word == entry.word
    ensures w.traditionalMeaning == entry.traditionalMeaning && w.slangMeaning == entry.slangMeaning
    ensures w.exampleSentence == entry.exampleSentence
  {
    VocabWord(id, entry.word, entry.traditionalMeaning, entry.slangMeaning, entry.exampleSentence)
  }

  /** Number of words over all folders (`folders.reduce((sum, f) => sum + f.words.length, 0)`). */
  function SavedWordCount(folders: seq<VocabFolder>): nat
    decreases |folders|
  {
    if folders == [] then 0 else |folders[0].words| + SavedWordCount(folders[1..])
  }

  lemma {:induction false} SavedWordCountAppend(a: seq<VocabFolder>, b: seq<VocabFolder>)
    ensures SavedWordCount(a + b) == SavedWordCount(a) + SavedWordCount(b)
    decreases |a|
  {
    if a != [] {
      assert (a + b)[1..] == a[1..] + b;
      SavedWordCountAppend(a[1..], b);
    } else {
      assert a + b == b;
    }
  }

  /** Replacing one folder changes the total by the difference in that folder's size. */
  lemma SavedWordCountUpdate(folders: seq<VocabFolder>, k: nat, f: VocabFolder)
    requires k < |folders|
    ensures SavedWordCount(folders[k := f]) + |folders[k].words| == SavedWordCount(folders) + |f.words|
  {
    var before, after := folders[..k], folders[k + 1..];
    assert folders == before + [folders[k]] + after;
    assert folders[k := f] == before + [f] + after;
    SavedWordCountAppend(before + [folders[k]], after);
    SavedWordCountAppend(before, [folders[k]]);
    SavedWordCountAppend(before + [f], after);
    SavedWordCountAppend(before, [f]);
  }
}
