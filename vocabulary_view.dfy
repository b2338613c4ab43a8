// The vocabulary screen (src/components/VocabularyView.tsx): the user's
// folders and the selected folder. Each handler builds a new folder list with
// map/filter/spread and hands it to the user-state setter; here each is a
// function from the old list (and selection) to the new one. The browser's
// `confirm` dialog is a boolean input. Folder ids are the creation times as
// text; the selection is `None` for JavaScript's `null`.
module VocabularyView {
  import opened Wrappers
  import opened Seqs
  import opened Strings
  import opened Types
  import Folders

  /** A selection that JavaScript treats as false: `null` or the empty id. */
  predicate NoSelection(selected: Option<string>) {
    selected.None? || selected.value == ""
  }

  /** `useState(folders ? folders[0]?.id : null)`. */
  function InitialSelection(folders: Option<seq<VocabFolder>>): (r: Option<string>)
    ensures r.Some? <==> folders.Some? && |folders.value| > 0
    ensures r.Some? ==> r.value == folders.value[0].id
  {
    if folders.Some? && |folders.value| > 0 then Some(folders.value[0].id) else None
  }

  /** The effect that selects the first folder when nothing is selected and folders exist. */
  function DefaultSelection(selected: Option<string>, folders: Option<seq<VocabFolder>>): (r: Option<string>)
    ensures !NoSelection(selected) ==> r == selected
    ensures NoSelection(selected) && folders.Some? && |folders.value| > 0 ==> r == Some(folders.value[0].id)
    ensures NoSelection(selected) && !(folders.Some? && |folders.value| > 0) ==> r == selected
  {
    if NoSelection(selected) && folders.Some? && |folders.value| > 0 then Some(folders.value[0].id) else selected
  }

  /** The effect settles: applying it to its own result changes nothing when folder ids are non-empty. */
  lemma DefaultSelectionStable(selected: Option<string>, folders: Option<seq<VocabFolder>>)
    requires folders.Some? ==> forall k :: 0 <= k < |folders.value| ==> folders.value[k].id != ""
    ensures DefaultSelection(DefaultSelection(selected, folders), folders) == DefaultSelection(selected, folders)
  {
  }

  /** `handleAddFolder`: a non-blank name adds an empty folder under the trimmed name. */
  function AddFolder(folders: seq<VocabFolder>, name: string, newId: string): (r: seq<VocabFolder>)
    ensures IsBlank(name) ==> r == folders
    ensures !IsBlank(name) ==> |r| == |folders| + 1 && r[..|folders|] == folders
    ensures !IsBlank(name) ==> r[|folders|] == VocabFolder(newId, Trim(name), [])
  {
    if IsBlank(name) then folders else folders + [VocabFolder(newId, Trim(name), [])]
  }

  /** Adding a folder adds no word. */
  lemma AddFolderKeepsCount(folders: seq<VocabFolder>, name: string, newId: string)
    ensures SavedWordCount(AddFolder(folders, name, newId)) == SavedWordCount(folders)
  {
    if !IsBlank(name) {
      SavedWordCountAppend(folders, [VocabFolder(newId, Trim(name), [])]);
    }
  }

  /** The test of `folders.filter(f => f.id !== id)`. */
  function OtherFolder(id: string): VocabFolder -> bool {
    (f: VocabFolder) => f.id != id
  }

  /** `folders.filter(f => f.id !== id)`. */
  function WithoutFolder(folders: seq<VocabFolder>, id: string): (r: seq<VocabFolder>)
    ensures forall k :: 0 <= k < |r| ==> r[k].id != id && r[k] in folders
    ensures forall k :: 0 <= k < |folders| && folders[k].id != id ==> folders[k] in r
    ensures KeepsExactly(r, folders, OtherFolder(id))
    ensures |r| <= |folders|
  {
    FilterKeepsExactly(folders, OtherFolder(id));
    SubsequenceMembers(Filter(folders, OtherFolder(id)), folders);
    Filter(folders, OtherFolder(id))
  }

  datatype DeleteFolderOutcome = LastFolder | Cancelled | FolderDeleted(folders: seq<VocabFolder>, selected: Option<string>)

  /**
   * `handleDeleteFolder`: the last remaining folder is never deleted; a
   * confirmed deletion drops the folders with that id and, when the deleted
   * folder was the selected one, selects the first remaining folder
   * (`newFolders[0]?.id || null`).
   */
  function DeleteFolder(folders: seq<VocabFolder>, selected: Option<string>, id: string, confirmed: bool): (r: DeleteFolderOutcome)
    ensures r.LastFolder? <==> |folders| <= 1
    ensures r.Cancelled? <==> |folders| > 1 && !confirmed
    ensures r.FolderDeleted? ==> r.folders == WithoutFolder(folders, id)
    ensures r.FolderDeleted? && selected != Some(id) ==> r.selected == selected
    ensures r.FolderDeleted? && selected == Some(id) ==>
      r.selected == if r.folders != [] && r.folders[0].id != "" then Some(r.folders[0].id) else None
  {
    if |folders| <= 1 then LastFolder
    else if !confirmed then Cancelled
    else
      var rest := WithoutFolder(folders, id);
      var sel := if selected == Some(id) then (if rest != [] && rest[0].id != "" then Some(rest[0].id) else None) else selected;
      FolderDeleted(rest, sel)
  }

  /** After a deletion no folder carries the id, and the selection never names the deleted folder. */
  lemma DeleteFolderForgets(folders: seq<VocabFolder>, selected: Option<string>, id: string)
    requires |folders| > 1
    ensures selected == Some(id) ==> DeleteFolder(folders, selected, id, true).selected != Some(id)
    ensures forall k :: 0 <= k < |DeleteFolder(folders, selected, id, true).folders| ==>
      DeleteFolder(folders, selected, id, true).folders[k].id != id
  {
  }

  /** The test of `words.filter(w => w.id !== wordId)`. */
  function OtherWord(wordId: string): VocabWord -> bool {
    (w: VocabWord) => w.id != wordId
  }

  /** `words.filter(w => w.id !== wordId)`. */
  function WithoutWord(words: seq<VocabWord>, wordId: string): (r: seq<VocabWord>)
    ensures forall k :: 0 <= k < |r| ==> r[k].id != wordId && r[k] in words
    ensures forall k :: 0 <= k < |words| && words[k].id != wordId ==> words[k] in r
    ensures KeepsExactly(r, words, OtherWord(wordId))
    ensures |r| == |words| - IdCount(words, wordId)
  {
    FilterKeepsExactly(words, OtherWord(wordId));
    SubsequenceMembers(Filter(words, OtherWord(wordId)), words);
    WithoutWordCount(words, wordId);
    Filter(words, OtherWord(wordId))
  }

  lemma {:induction false} WithoutWordCount(words: seq<VocabWord>, wordId: string)
    ensures |Filter(words, OtherWord(wordId))| == |words| - IdCount(words, wordId)
    decreases |words|
  {
    if words != [] {
      WithoutWordCount(words[1..], wordId);
    }
  }

  /** How many words carry the id. */
  function IdCount(words: seq<VocabWord>, wordId: string): (n: nat)
    ensures n <= |words|
    decreases |words|
  {
    if words == [] then 0 else (if words[0].id == wordId then 1 else 0) + IdCount(words[1..], wordId)
  }

  /** `handleDeleteWord`: the words with that id leave the selected folder; every other folder is kept. */
  function DeleteWord(folders: seq<VocabFolder>, selected: Option<string>, wordId: string): (r: seq<VocabFolder>)
    ensures |r| == |folders|
    ensures forall k :: 0 <= k < |folders| && Some(folders[k].id) != selected ==> r[k] == folders[k]
    ensures forall k :: 0 <= k < |folders| && Some(folders[k].id) == selected ==>
      r[k].id == folders[k].id && r[k].name == folders[k].name &&
      r[k].words == WithoutWord(folders[k].words, wordId)
  {
    seq(|folders|, k requires 0 <= k < |folders| =>
      if Some(folders[k].id) == selected then folders[k].(words := WithoutWord(folders[k].words, wordId)) else folders[k])
  }

  /** Deleting a word never adds one: the total shrinks by the copies removed from the selected folder. */
  lemma DeleteWordCount(folders: seq<VocabFolder>, selected: Option<string>, wordId: string)
    ensures SavedWordCount(DeleteWord(folders, selected, wordId)) <= SavedWordCount(folders)
  {
    DeleteWordCountFrom(folders, DeleteWord(folders, selected, wordId));
  }

  lemma {:induction false} DeleteWordCountFrom(folders: seq<VocabFolder>, r: seq<VocabFolder>)
    requires |r| == |folders|
    requires forall k :: 0 <= k < |folders| ==> |r[k].words| <= |folders[k].words|
    ensures SavedWordCount(r) <= SavedWordCount(folders)
    decreases |folders|
  {
    if folders != [] {
      DeleteWordCountFrom(folders[1..], r[1..]);
    }
  }

  datatype MoveOutcome = NothingToMove | ExistsInDestination | Moved(folders: seq<VocabFolder>)

  /**
   * `handleMoveWord(destination)`: without a word to move or a selected
   * folder nothing happens; a destination (found with `find`) that already
   * holds a word with the same text refuses the move; otherwise every folder
   * is rebuilt: the selected one loses the words with the moved word's id,
   * failing that a folder with the destination id gets the word appended,
   * and the rest are kept.
   */
  function MoveWord(folders: seq<VocabFolder>, selected: Option<string>, word: Option<VocabWord>, dest: string): (r: MoveOutcome)
    ensures r.NothingToMove? <==> word.None? || NoSelection(selected)
    ensures r.ExistsInDestination? <==> (word.Some? && !NoSelection(selected) &&
      exists k :: 0 <= k < |folders| && folders[k].id == dest &&
        (forall m :: 0 <= m < k ==> folders[m].id != dest) &&
        exists j :: 0 <= j < |folders[k].words| && folders[k].words[j].word == word.value.word)
    ensures r.Moved? ==> |r.folders| == |folders|
    ensures r.Moved? ==> forall k :: 0 <= k < |folders| && Some(folders[k].id) == selected ==>
      r.folders[k] == folders[k].(words := WithoutWord(folders[k].words, word.value.id))
    ensures r.Moved? ==> forall k :: 0 <= k < |folders| && Some(folders[k].id) != selected && folders[k].id == dest ==>
      r.folders[k] == folders[k].(words := folders[k].words + [word.value])
    ensures r.Moved? ==> forall k :: 0 <= k < |folders| && Some(folders[k].id) != selected && folders[k].id != dest ==>
      r.folders[k] == folders[k]
  {
    if word.None? || NoSelection(selected) then NothingToMove
    else
      var w := word.value;
      var d := Folders.FindFolder(folders, dest);
      if d.Some? && Folders.HasWord(folders[d.value], w.word) then
        ExistsInDestination
      else
        Moved(seq(|folders|, k requires 0 <= k < |folders| =>
          if Some(folders[k].id) == selected then folders[k].(words := WithoutWord(folders[k].words, w.id))
          else if folders[k].id == dest then folders[k].(words := folders[k].words + [w])
          else folders[k]))
  }

  /**
   * Moving between two different folders keeps the number of saved words,
   * when folder ids are distinct and the moved word's id occurs once in the
   * selected folder.
   */
  lemma MoveWordKeepsCount(folders: seq<VocabFolder>, s: nat, d: nat, word: VocabWord)
    requires s < |folders| && d < |folders| && s != d
    requires forall i, j :: 0 <= i < j < |folders| ==> folders[i].id != folders[j].id
    requires folders[s].id != "" && IdCount(folders[s].words, word.id) == 1
    requires MoveWord(folders, Some(folders[s].id), Some(word), folders[d].id).Moved?
    ensures SavedWordCount(MoveWord(folders, Some(folders[s].id), Some(word), folders[d].id).folders) ==
      SavedWordCount(folders)
  {
    MovedFolders(folders, s, d, word);
    MovedCount(folders, s, d, word);
  }

  /** The folders after the move: the word leaves folder `s` and joins the end of folder `d`. */
  function MovedBetween(folders: seq<VocabFolder>, s: nat, d: nat, word: VocabWord): (r: seq<VocabFolder>)
    requires s < |folders| && d < |folders|
    ensures |r| == |folders|
  {
    folders[s := folders[s].(words := WithoutWord(folders[s].words, word.id))]
      [d := folders[d].(words := folders[d].words + [word])]
  }

  lemma MovedCount(folders: seq<VocabFolder>, s: nat, d: nat, word: VocabWord)
    requires s < |folders| && d < |folders| && s != d
    requires IdCount(folders[s].words, word.id) == 1
    ensures SavedWordCount(MovedBetween(folders, s, d, word)) == SavedWordCount(folders)
  {
    var src := folders[s].(words := WithoutWord(folders[s].words, word.id));
    var mid := folders[s := src];
    SavedWordCountUpdate(folders, s, src);
    SavedWordCountUpdate(mid, d, folders[d].(words := folders[d].words + [word]));
  }

  lemma MovedFolders(folders: seq<VocabFolder>, s: nat, d: nat, word: VocabWord)
    requires s < |folders| && d < |folders| && s != d
    requires forall i, j :: 0 <= i < j < |folders| ==> folders[i].id != folders[j].id
    requires folders[s].id != ""
    requires MoveWord(folders, Some(folders[s].id), Some(word), folders[d].id).Moved?
    ensures MoveWord(folders, Some(folders[s].id), Some(word), folders[d].id).folders == MovedBetween(folders, s, d, word)
  {
    var r := MoveWord(folders, Some(folders[s].id), Some(word), folders[d].id).folders;
    var m := MovedBetween(folders, s, d, word);
    forall k | 0 <= k < |folders| ensures r[k] == m[k] {
      if k != s {
        assert folders[k].id != folders[s].id by {
          if k < s {
            assert folders[k].id != folders[s].id;
          } else {
            assert folders[s].id != folders[k].id;
          }
        }
      }
      if k != d {
        assert folders[k].id != folders[d].id by {
          if k < d {
            assert folders[k].id != folders[d].id;
          } else {
            assert folders[d].id != folders[k].id;
          }
        }
      }
    }
  }
}
