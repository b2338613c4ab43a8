// The quiz screen (components/MinigameView.tsx): the glossary load, the
// favorites list built from the user's folders, the guards in front of the
// engine calls, the look-up of a missed word and the two ways of saving it.
// The screen's own updates build new values; the engine it drives is the
// `GameEngine` object of module Minigame.
module MinigameView {
  import opened Wrappers
  import opened Types
  import opened Strings
  import Folders
  import Minigame

  /** The two tabs: the glossary quiz and the word-book quiz. */
  datatype Tab = NewSlangTab | VocabularyTab

  /** The glossary is usable only with a non-empty `entries` array. */
  function LoadGlossary(entries: Option<seq<SlangEntry>>): (r: Option<seq<SlangEntry>>)
    ensures r.Some? <==> entries.Some? && |entries.value| > 0
    ensures r.Some? ==> r.value == entries.value
  {
    if entries.None? || |entries.value| == 0 then None else entries
  }

  /** The favorites: every folder's words, folder after folder, as quiz entries (`flatMap` then `map`). */
  function Favorites(folders: seq<VocabFolder>): (r: seq<SlangEntry>)
    ensures |r| == SavedWordCount(folders)
    decreases |folders|
  {
    if folders == [] then [] else Entries(folders[0].words) + Favorites(folders[1..])
  }

  /**
   * Order and multiplicity: word `k` of folder `i` is the favorite at the
   * position after all the words of the folders before it.
   */
  lemma {:induction false} FavoritesAt(folders: seq<VocabFolder>, i: nat, k: nat)
    requires i < |folders| && k < |folders[i].words|
    ensures SavedWordCount(folders[..i]) + k < |Favorites(folders)|
    ensures Favorites(folders)[SavedWordCount(folders[..i]) + k] == AsEntry(folders[i].words[k])
    decreases i
  {
    var head := Entries(folders[0].words);
    if i == 0 {
      assert folders[..0] == [];
    } else {
      FavoritesAt(folders[1..], i - 1, k);
      assert folders[..i] == [folders[0]] + folders[1..][..i - 1];
      assert SavedWordCount(folders[..i]) == |head| + SavedWordCount(folders[1..][..i - 1]);
    }
  }

  /** Each favorite is some saved word, and each saved word gives a favorite. */
  lemma {:induction false} FavoritesFromWords(folders: seq<VocabFolder>)
    ensures forall e :: e in Favorites(folders) ==>
      exists i, k :: 0 <= i < |folders| && 0 <= k < |folders[i].words| && e == AsEntry(folders[i].words[k])
    ensures forall i, k :: 0 <= i < |folders| && 0 <= k < |folders[i].words| ==>
      AsEntry(folders[i].words[k]) in Favorites(folders)
    decreases |folders|
  {
    if folders != [] {
      FavoritesFromWords(folders[1..]);
      var head := Entries(folders[0].words);
      forall e | e in Favorites(folders)
        ensures exists i, k :: 0 <= i < |folders| && 0 <= k < |folders[i].words| && e == AsEntry(folders[i].words[k])
      {
        if e in head {
          var k :| 0 <= k < |head| && head[k] == e;
          assert e == AsEntry(folders[0].words[k]);
        } else {
          assert e in Favorites(folders[1..]);
          var i, k :| 0 <= i < |folders[1..]| && 0 <= k < |folders[1..][i].words| && e == AsEntry(folders[1..][i].words[k]);
          assert folders[1..][i] == folders[i + 1];
        }
      }
      forall i, k | 0 <= i < |folders| && 0 <= k < |folders[i].words|
        ensures AsEntry(folders[i].words[k]) in Favorites(folders)
      {
        if i == 0 {
          assert head[k] == AsEntry(folders[i].words[k]);
        } else {
          assert folders[1..][i - 1] == folders[i];
        }
      }
    }
  }

  datatype StartView =
    | NoGlossary
    | NoVocabulary
    | InitRefused
    | StartRefused(outcome: Minigame.StartOutcome)
    | Started(question: Minigame.GameQuestion)

  /**
   * `handleStartGame`: the 신조어 tab needs a loaded glossary and the 단어장
   * tab a non-empty favorites list, checked before the engine is touched;
   * then `initGame` (questions shuffled, without a seed) and `startGame`.
   */
  method HandleStart(engine: Minigame.GameEngine, tab: Tab, glossary: Option<seq<SlangEntry>>,
                     favorites: Option<seq<SlangEntry>>, language: string,
                     initDraws: nat -> nat, draws: nat -> nat, reply: Option<string>,
                     wrongDraws: nat -> nat, optionDraws: nat -> nat) returns (r: StartView)
    requires engine.Valid()
    modifies engine`game, engine`currentQuestionOptions
    ensures engine.Valid()
    ensures r.NoGlossary? <==> tab == NewSlangTab && glossary.None?
    ensures r.NoVocabulary? <==> tab == VocabularyTab && (favorites.None? || favorites.value == [])
    ensures r.NoGlossary? || r.NoVocabulary? || r.InitRefused? ==>
      engine.game == old(engine.game) && engine.currentQuestionOptions == old(engine.currentQuestionOptions)
    ensures r.InitRefused? <==> tab == NewSlangTab && glossary.Some? && |glossary.value| < 4
    ensures r.StartRefused? || r.Started? ==>
      fresh(engine.game) && engine.game.mode == (if tab == NewSlangTab then Minigame.NewSlang else Minigame.Wordbook) &&
      engine.game.options == Minigame.GameOptions(0, true, None, language) &&
      engine.game.questionIndex == 0 && engine.game.score == 0 && engine.game.wrongAnswers == {}
    ensures r.Started? ==> engine.currentQuestionOptions == r.question.options
  {
    if tab == NewSlangTab && glossary.None? {
      return NoGlossary;
    }
    if tab == VocabularyTab && (favorites.None? || favorites.value == []) {
      return NoVocabulary;
    }
    var mode := if tab == NewSlangTab then Minigame.NewSlang else Minigame.Wordbook;
    var ok := engine.InitGame(mode, glossary, favorites, Minigame.GameOptions(0, true, None, language), initDraws);
    if !ok {
      return InitRefused;
    }
    r := BeginRound(engine, draws, reply, wrongDraws, optionDraws);
  }

  /** The `startGame` half of `handleStart`, on the game `initGame` has just made. */
  method BeginRound(engine: Minigame.GameEngine, draws: nat -> nat, reply: Option<string>,
                    wrongDraws: nat -> nat, optionDraws: nat -> nat) returns (r: StartView)
    requires engine.Valid() && engine.game != null
    requires engine.game.questionIndex == 0 && engine.game.score == 0 && engine.game.wrongAnswers == {}
    modifies engine`currentQuestionOptions, engine.game
    ensures engine.Valid() && engine.game == old(engine.game)
    ensures r.StartRefused? || r.Started?
    ensures engine.game.mode == old(engine.game.mode) && engine.game.options == old(engine.game.options)
    ensures engine.game.questionIndex == 0 && engine.game.score == 0 && engine.game.wrongAnswers == {}
    ensures r.Started? ==> engine.currentQuestionOptions == r.question.options
  {
    var outcome := engine.StartGame(draws, reply, wrongDraws, optionDraws);
    if outcome.Question? {
      r := Started(outcome.question);
    } else {
      r := StartRefused(outcome);
    }
  }

  datatype AnswerView = Ignored | Alerted | Shown(feedback: Minigame.AnswerFeedback)

  /**
   * `handleAnswer`: ignored while no question is on screen or feedback is
   * already shown; an `invalid_input` reply is only reported.
   */
  method HandleAnswer(engine: Minigame.GameEngine, showingQuestion: bool, showingFeedback: bool, answer: string)
    returns (r: AnswerView)
    requires engine.Valid()
    modifies engine.Games()`score, engine.Games()`questionIndex, engine.Games()`wrongAnswers
    ensures engine.Valid()
    ensures !showingQuestion || showingFeedback ==> r.Ignored?
    ensures r.Ignored? || r.Alerted? ==> engine.game == null || unchanged(engine.game)
    ensures r.Alerted? <==> (showingQuestion && !showingFeedback &&
      (engine.game == null || engine.game.currentQuestion.None? ||
       Minigame.SelectOption(engine.currentQuestionOptions, answer).None?))
    ensures r.Shown? ==> engine.game.questionIndex == old(engine.game.questionIndex) + 1
    ensures r.Shown? ==> r.feedback.currentScore == engine.game.score
  {
    if !showingQuestion || showingFeedback {
      return Ignored;
    }
    var result := engine.SubmitAnswer(answer);
    if result.InvalidInput? {
      return Alerted;
    }
    r := Shown(result.feedback);
  }

  /** The fixed dictionary meaning given to a missed glossary word when it is saved. */
  const NotInStandardDictionary: string := "신조어로, 표준 사전에는 등재되지 않았습니다."

  /** The glossary entry (else the favorite) whose slang is the correct option's text. */
  function MissedWord(glossary: Option<seq<SlangEntry>>, favorites: Option<seq<SlangEntry>>, text: string): (r: Option<SlangEntry>)
    ensures r.Some? ==> r.value.slang == text
    ensures r.Some? ==> (glossary.Some? && r.value in glossary.value) || (favorites.Some? && r.value in favorites.value)
    ensures r.None? <==>
      (glossary.None? || forall k :: 0 <= k < |glossary.value| ==> glossary.value[k].slang != text) &&
      (favorites.None? || forall k :: 0 <= k < |favorites.value| ==> favorites.value[k].slang != text)
    ensures glossary.Some? && (exists k :: 0 <= k < |glossary.value| && glossary.value[k].slang == text) ==>
      r.Some? && FirstWithSlang(glossary.value, text, r.value)
    ensures (glossary.None? || forall k :: 0 <= k < |glossary.value| ==> glossary.value[k].slang != text) && r.Some? ==>
      favorites.Some? && FirstWithSlang(favorites.value, text, r.value)
  {
    var g := if glossary.Some? then FindSlang(glossary.value, text) else None;
    if g.Some? then g else if favorites.Some? then FindSlang(favorites.value, text) else None
  }

  /** `e` is the first of `entries` whose slang is `text`. */
  ghost predicate FirstWithSlang(entries: seq<SlangEntry>, text: string, e: SlangEntry) {
    exists i :: 0 <= i < |entries| && entries[i] == e && e.slang == text &&
      forall k :: 0 <= k < i ==> entries[k].slang != text
  }

  /** `entries.find(e => e.slang === text)`. */
  function FindSlang(entries: seq<SlangEntry>, text: string): (r: Option<SlangEntry>)
    ensures r.Some? ==> r.value in entries && r.value.slang == text
    ensures r.Some? ==> FirstWithSlang(entries, text, r.value)
    ensures r.None? <==> forall k :: 0 <= k < |entries| ==> entries[k].slang != text
    decreases |entries|
  {
    if entries == [] then None
    else if entries[0].slang == text then Some(entries[0])
    else
      var r := FindSlang(entries[1..], text);
      assert r.Some? ==> FirstWithSlang(entries, text, r.value) by {
        if r.Some? {
          var i :| 0 <= i < |entries[1..]| && entries[1..][i] == r.value && r.value.slang == text &&
            forall k :: 0 <= k < i ==> entries[1..][k].slang != text;
          assert entries[i + 1] == r.value;
          assert forall k :: 1 <= k < i + 1 ==> entries[k] == entries[1..][k - 1];
        }
      }
      r
  }

  /** The dictionary entry offered for saving after a miss. */
  function WrongWordEntry(e: SlangEntry): (d: DictionaryEntry)
    ensures d.word == e.slang && d.slangMeaning == e.meaning && d.exampleSentence == e.example
    ensures d.traditionalMeaning == NotInStandardDictionary
  {
    DictionaryEntry(e.slang, NotInStandardDictionary, e.meaning, e.example)
  }

  /**
   * `handleAddToVocabulary` on the quiz screen: the same folder update as on
   * the dictionary screen, applied to the missed word.
   */
  function AddMissedWord(folders: seq<VocabFolder>, folderId: string, e: SlangEntry, newId: string): (r: Folders.AddOutcome)
    ensures r.UnknownFolder? <==> forall k :: 0 <= k < |folders| ==> folders[k].id != folderId
    ensures r.AlreadyInFolder? <==>
      exists k :: 0 <= k < |folders| && folders[k].id == folderId && Folders.HasWord(folders[k], e.slang) &&
        forall m :: 0 <= m < k ==> folders[m].id != folderId
    ensures r.Added? ==> Folders.Bookmarked(r.folders, e.slang)
    ensures r.Added? ==> |r.folders| == |folders|
    ensures r.Added? ==> forall k :: 0 <= k < |folders| && folders[k].id != folderId ==> r.folders[k] == folders[k]
    ensures r.Added? ==> forall k :: 0 <= k < |folders| && folders[k].id == folderId ==>
      r.folders[k].id == folders[k].id && r.folders[k].name == folders[k].name &&
      r.folders[k].words == folders[k].words + [SavedWord(WrongWordEntry(e), newId)]
  {
    var r := Folders.AddWord(folders, folderId, WrongWordEntry(e), newId);
    assert r.Added? ==> Folders.Bookmarked(r.folders, e.slang) by {
      if r.Added? {
        Folders.AddWordBookmarks(folders, folderId, WrongWordEntry(e), newId);
      }
    }
    r
  }

  /** `handleCreateNewFolder` on the quiz screen: a new folder around the missed word. */
  function CreateFolderForMissedWord(folders: seq<VocabFolder>, name: string, e: SlangEntry, newId: string): (r: Folders.CreateOutcome)
    ensures r.BlankName? <==> IsBlank(name)
    ensures r.DuplicateName? <==> !IsBlank(name) && exists k :: 0 <= k < |folders| && folders[k].name == Trim(name)
    ensures r.Created? ==> r.folders == folders + [VocabFolder(newId, Trim(name), [SavedWord(WrongWordEntry(e), newId)])]
  {
    var r := Folders.CreateFolderWith(folders, name, WrongWordEntry(e), newId);
    assert r.Created? ==> r.folders == r.folders[..|folders|] + [r.folders[|folders|]];
    r
  }
}
