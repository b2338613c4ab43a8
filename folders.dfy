// Vocabulary folders ("화단", garden beds) as the views update them: adding a
// looked-up word to a chosen folder, creating a folder around a word, and the
// "already saved" check. The same two handlers appear in
// components/DictionaryView.tsx and components/MinigameView.tsx; both build a
// new folder array and hand it to the user-state setter, so they are
// functions from the old folder list to the new one.
module Folders {
  import opened Wrappers
  import opened Seqs
  import opened Strings
  import opened Types

  /** `folder.words.some(w => w.word === word)`. */
  predicate HasWord(f: VocabFolder, word: string) {
    exists k :: 0 <= k < |f.words| && f.words[k].word == word
  }

  /** Some folder already holds the word (`folders.some(f => f.words.some(...))`). */
  predicate Bookmarked(folders: seq<VocabFolder>, word: string) {
    exists i :: 0 <= i < |folders| && HasWord(folders[i], word)
  }

  /** No two folders share an id. */
  predicate UniqueIds(folders: seq<VocabFolder>) {
    forall i, j :: 0 <= i < j < |folders| ==> folders[i].id != folders[j].id
  }

  /** No two folders share a name. */
  predicate UniqueNames(folders: seq<VocabFolder>) {
    forall i, j :: 0 <= i < j < |folders| ==> folders[i].name != folders[j].name
  }

  /** `folders.find(f => f.id === id)`, as the position of the first match. */
  function FindFolder(folders: seq<VocabFolder>, id: string): (r: Option<nat>)
    ensures r.Some? ==> r.value < |folders| && folders[r.value].id == id
    ensures r.Some? ==> forall k :: 0 <= k < r.value ==> folders[k].id != id
    ensures r.None? <==> forall k :: 0 <= k < |folders| ==> folders[k].id != id
    decreases |folders|
  {
    if folders == [] then None
    else if folders[0].id == id then Some(0)
    else
      match FindFolder(folders[1..], id)
      case None => None
      case Some(k) => Some(k + 1)
  }

  /** `folders.map(f => f.id === id ? { ...f, words: [...f.words, w] } : f)`. */
  function AppendWhere(folders: seq<VocabFolder>, id: string, w: VocabWord): (r: seq<VocabFolder>)
    ensures |r| == |folders|
    ensures forall k :: 0 <= k < |folders| && folders[k].id != id ==> r[k] == folders[k]
    ensures forall k :: 0 <= k < |folders| && folders[k].id == id ==>
      r[k] == folders[k].(words := folders[k].words + [w])
  {
    seq(|folders|, k requires 0 <= k < |folders| =>
      if folders[k].id == id then folders[k].(words := folders[k].words + [w]) else folders[k])
  }

  datatype AddOutcome = UnknownFolder | AlreadyInFolder | Added(folders: seq<VocabFolder>)

  /**
   * `handleAddToVocabulary(folderId)`: the folder is looked up with `find`; an
   * unknown id does nothing, a folder that already holds the word is left as
   * it is, and otherwise the saved form of the entry (id `newId`, the
   * creation time) is appended to the folder(s) with that id.
   */
  function AddWord(folders: seq<VocabFolder>, folderId: string, entry: DictionaryEntry, newId: string): (r: AddOutcome)
    ensures r.UnknownFolder? <==> forall k :: 0 <= k < |folders| ==> folders[k].id != folderId
    ensures r.AlreadyInFolder? <==>
      exists k :: 0 <= k < |folders| && folders[k].id == folderId && HasWord(folders[k], entry.word) &&
        forall m :: 0 <= m < k ==> folders[m].id != folderId
    ensures r.Added? ==> |r.folders| == |folders|
    ensures r.Added? ==> forall k :: 0 <= k < |folders| && folders[k].id != folderId ==> r.folders[k] == folders[k]
    ensures r.Added? ==> forall k :: 0 <= k < |folders| && folders[k].id == folderId ==>
      r.folders[k].id == folders[k].id && r.folders[k].name == folders[k].name &&
      r.folders[k].words == folders[k].words + [SavedWord(entry, newId)]
  {
    match FindFolder(folders, folderId)
    case None => UnknownFolder
    case Some(k) =>
      if HasWord(folders[k], entry.word) then AlreadyInFolder
      else Added(AppendWhere(folders, folderId, SavedWord(entry, newId)))
  }

  /** Once added, the word counts as saved: the bookmark icon lights up. */
  lemma AddWordBookmarks(folders: seq<VocabFolder>, folderId: string, entry: DictionaryEntry, newId: string)
    requires AddWord(folders, folderId, entry, newId).Added?
    ensures Bookmarked(AddWord(folders, folderId, entry, newId).folders, entry.word)
  {
    var k :| 0 <= k < |folders| && folders[k].id == folderId;
    var f := AddWord(folders, folderId, entry, newId).folders[k];
    assert f.words[|f.words| - 1].word == entry.word;
  }

  /** With distinct folder ids an addition saves exactly one more word, and keeps the ids distinct. */
  lemma AddWordCount(folders: seq<VocabFolder>, folderId: string, entry: DictionaryEntry, newId: string)
    requires UniqueIds(folders)
    requires AddWord(folders, folderId, entry, newId).Added?
    ensures SavedWordCount(AddWord(folders, folderId, entry, newId).folders) == SavedWordCount(folders) + 1
    ensures UniqueIds(AddWord(folders, folderId, entry, newId).folders)
  {
    var r := AddWord(folders, folderId, entry, newId).folders;
    var k := FindFolder(folders, folderId).value;
    var f := folders[k].(words := folders[k].words + [SavedWord(entry, newId)]);
    assert r == folders[k := f];
    SavedWordCountUpdate(folders, k, f);
  }

  datatype CreateOutcome = BlankName | DuplicateName | Created(folders: seq<VocabFolder>)

  /**
   * `handleCreateNewFolder`: a blank name and a (trimmed) name that an
   * existing folder already has are refused; otherwise one folder named with
   * the trimmed name and holding just the saved word is appended. The folder
   * and the word both take the creation time `newId` as their id.
   */
  function CreateFolderWith(folders: seq<VocabFolder>, name: string, entry: DictionaryEntry, newId: string): (r: CreateOutcome)
    ensures r.BlankName? <==> IsBlank(name)
    ensures r.DuplicateName? <==>
      !IsBlank(name) && exists k :: 0 <= k < |folders| && folders[k].name == Trim(name)
    ensures r.Created? ==> |r.folders| == |folders| + 1 && r.folders[..|folders|] == folders
    ensures r.Created? ==> r.folders[|folders|] == VocabFolder(newId, Trim(name), [SavedWord(entry, newId)])
  {
    if IsBlank(name) then BlankName
    else if exists k :: 0 <= k < |folders| && folders[k].name == Trim(name) then DuplicateName
    else Created(folders + [VocabFolder(newId, Trim(name), [SavedWord(entry, newId)])])
  }

  /** Creating a folder keeps folder names distinct, saves one more word and bookmarks it. */
  lemma CreateFolderKeepsNamesUnique(folders: seq<VocabFolder>, name: string, entry: DictionaryEntry, newId: string)
    requires UniqueNames(folders)
    requires CreateFolderWith(folders, name, entry, newId).Created?
    ensures UniqueNames(CreateFolderWith(folders, name, entry, newId).folders)
    ensures SavedWordCount(CreateFolderWith(folders, name, entry, newId).folders) == SavedWordCount(folders) + 1
    ensures Bookmarked(CreateFolderWith(folders, name, entry, newId).folders, entry.word)
  {
    var r := CreateFolderWith(folders, name, entry, newId).folders;
    var nf := VocabFolder(newId, Trim(name), [SavedWord(entry, newId)]);
    assert r == folders + [nf];
    SavedWordCountAppend(folders, [nf]);
    assert SavedWordCount([nf]) == 1;
    assert HasWord(r[|folders|], entry.word) by {
      assert r[|folders|].words[0].word == entry.word;
    }
  }
}
