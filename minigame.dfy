// The slang quiz engine of services/minigameService.ts. The service keeps one
// module-level `gameState` object (null until `initGame`) and a module-level
// `currentQuestionOptions` list; both become fields of `GameEngine`, and
// every engine entry point becomes a method that updates them in place.
//
// Two modes: 신조어 ("new slang", `NewSlang`) asks once through a glossary;
// 단어장 ("word book", `Wordbook`) asks the user's saved words in rounds, each
// round keeping only the words answered wrongly.
//
// Randomness: `Math.random` is a parameter `draws` of each call that shuffles
// without a seed. The OpenAI translation of the question text is the
// parameter `reply` (None when there is no client or the call fails).
module Minigame {
  import opened Wrappers
  import opened Seqs
  import opened Strings
  import opened Types
  import Shuffle

  datatype Mode = NewSlang | Wordbook

  /** The `options` argument of `initGame`; `maxQuestions` 0 and `language` "" stand for absent. */
  datatype GameOptions = GameOptions(
    maxQuestions: nat,
    shuffleQuestions: bool,
    seed: Option<nat>,
    language: string)

  datatype GameOption = GameOption(letter: char, text: string)

  datatype GameQuestion = GameQuestion(
    questionIndex: nat,
    totalQuestions: nat,
    questionText: string,
    options: seq<GameOption>,
    correctAnswer: string,
    canHint: bool)

  datatype RoundRecord = RoundRecord(round: nat, asked: nat, correct: nat, wrongSlangs: seq<string>)

  /** The `Error`s `presentQuestion` throws. */
  datatype Fault = NoGameState | NoMoreQuestions | DistractorShortage(poolSize: nat)

  /** The `code` of an `{ error: true, code }` reply. */
  datatype ErrorCode = NotInitialized | NoActiveSet | NoQuestions | NoState

  datatype Presented = Presented(question: GameQuestion) | Thrown(fault: Fault)

  /** What `startGame` and `resumeGame` resolve to (or reject with). */
  datatype StartOutcome = Question(question: GameQuestion) | Error(code: ErrorCode) | Rejected(fault: Fault)

  datatype AnswerFeedback = AnswerFeedback(
    isCorrect: bool,
    selected: GameOption,
    correct: Option<GameOption>,
    explanation: string,
    currentScore: nat,
    remaining: int)

  datatype SubmitOutcome = Feedback(feedback: AnswerFeedback) | InvalidInput

  datatype NextOutcome =
    | NextQuestion(question: GameQuestion)
    | NextRound(round: nat, wordsLeft: nat)
    | WordbookComplete(rounds: nat, totalQuestionsEver: nat, totalCorrect: nat, history: seq<RoundRecord>)
    | QuizComplete(totalQuestions: nat, correctAnswers: nat, wrongAnswers: int)
    | NextRejected(fault: Fault)

  datatype GameStatus = GameStatus(
    mode: Mode,
    score: nat,
    remaining: int,
    activeSetSize: Option<nat>,
    round: Option<nat>,
    totalQuestionsEver: Option<nat>)

  function Slangs(entries: seq<SlangEntry>): (r: seq<string>)
    ensures |r| == |entries|
    ensures forall k :: 0 <= k < |entries| ==> r[k] == entries[k].slang
  {
    seq(|entries|, k requires 0 <= k < |entries| => entries[k].slang)
  }

  /** The slangs that may serve as distractors: not the answer and not excluded, in pool order. */
  function Candidates(correct: string, entries: seq<SlangEntry>, exclude: seq<string>): (r: seq<string>)
    ensures forall k :: 0 <= k < |r| ==> r[k] != correct && r[k] !in exclude
    ensures forall e :: e in entries && e.slang != correct && e.slang !in exclude ==> e.slang in r
    ensures IsSubsequence(r, Slangs(entries))
    decreases |entries|
  {
    if entries == [] then []
    else
      var rest := Candidates(correct, entries[1..], exclude);
      assert Slangs(entries)[1..] == Slangs(entries[1..]);
      var e := entries[0];
      if e.slang != correct && e.slang !in exclude then [e.slang] + rest else rest
  }

  /** `generateWrongAnswers`: the candidates in an unseeded shuffle, cut to three. */
  function GenerateWrongAnswers(correct: string, entries: seq<SlangEntry>, exclude: seq<string>, draws: nat -> nat): (r: seq<string>)
    ensures var n := |Candidates(correct, entries, exclude)|; |r| == if n < 3 then n else 3
    ensures forall k :: 0 <= k < |r| ==> r[k] != correct && r[k] !in exclude && r[k] in Slangs(entries)
  {
    var pool := Candidates(correct, entries, exclude);
    var shuffled := Shuffle.Shuffled(pool, None, draws);
    Shuffle.ShuffledPermutes(pool, None, draws);
    SubsequenceMembers(pool, Slangs(entries));
    assert forall k :: 0 <= k < |shuffled| ==> shuffled[k] in multiset(pool);
    Take(shuffled, 3)
  }

  /** The distractors are distinct whenever the pool's slangs are. */
  lemma WrongAnswersDistinct(correct: string, entries: seq<SlangEntry>, exclude: seq<string>, draws: nat -> nat)
    requires NoDup(Slangs(entries))
    ensures NoDup(GenerateWrongAnswers(correct, entries, exclude, draws))
  {
    var pool := Candidates(correct, entries, exclude);
    NoDupSubsequence(pool, Slangs(entries));
    var shuffled := Shuffle.Shuffled(pool, None, draws);
    Shuffle.ShuffledPermutes(pool, None, draws);
    NoDupPermutation(shuffled, pool);
  }

  /** The four options before shuffling: A is the answer, B–D the distractors. */
  function BuildOptions(correct: string, wrong: seq<string>): (r: seq<GameOption>)
    requires |wrong| >= 3
  {
    [GameOption('A', correct), GameOption('B', wrong[0]), GameOption('C', wrong[1]), GameOption('D', wrong[2])]
  }

  /** Some option carries the letter `c`. */
  predicate HasLetter(opts: seq<GameOption>, c: char) {
    exists i :: 0 <= i < |opts| && opts[i].letter == c
  }

  /**
   * Four options carrying the letters A–D once each, and the option with the
   * answer's text is exactly the one lettered A.
   */
  predicate OptionsWellFormed(opts: seq<GameOption>, correct: string) {
    |opts| == 4 &&
    HasLetter(opts, 'A') && HasLetter(opts, 'B') && HasLetter(opts, 'C') && HasLetter(opts, 'D') &&
    (forall i, j :: 0 <= i < j < 4 ==> opts[i].letter != opts[j].letter) &&
    (forall i :: 0 <= i < 4 ==> (opts[i].letter == 'A' <==> opts[i].text == correct))
  }

  /** Any reordering of `BuildOptions` is well formed, and offers only the answer and the distractors. */
  lemma ShuffledOptionsWellFormed(correct: string, wrong: seq<string>, opts: seq<GameOption>)
    requires |wrong| >= 3 && forall k :: 0 <= k < |wrong| ==> wrong[k] != correct
    requires multiset(opts) == multiset(BuildOptions(correct, wrong)) && |opts| == 4
    ensures OptionsWellFormed(opts, correct)
    ensures forall i :: 0 <= i < 4 ==> opts[i].text == correct || opts[i].text in wrong
  {
    var all := BuildOptions(correct, wrong);
    ReorderedOptions(correct, wrong, opts);
    assert all[0].letter == 'A' && all[1].letter == 'B' && all[2].letter == 'C' && all[3].letter == 'D';
    ReorderedLetters(all, opts);
    forall i | 0 <= i < 4
      ensures (opts[i].letter == 'A' <==> opts[i].text == correct)
      ensures opts[i].text == correct || opts[i].text in wrong
    {
      OptionText(correct, wrong, opts[i]);
    }
    assert HasLetter(opts, all[0].letter) && HasLetter(opts, all[1].letter);
    assert HasLetter(opts, all[2].letter) && HasLetter(opts, all[3].letter);
  }

  /** Distinct options drawn from a list with distinct letters carry distinct letters. */
  lemma ReorderedLetters(all: seq<GameOption>, opts: seq<GameOption>)
    requires |all| == 4 && forall i, j :: 0 <= i < j < 4 ==> all[i].letter != all[j].letter
    requires |opts| == 4 && NoDup(opts) && forall i :: 0 <= i < 4 ==> opts[i] in all
    ensures forall i, j :: 0 <= i < j < 4 ==> opts[i].letter != opts[j].letter
  {
    forall i, j | 0 <= i < j < 4 ensures opts[i].letter != opts[j].letter {
      var a :| 0 <= a < 4 && all[a] == opts[i];
      var b :| 0 <= b < 4 && all[b] == opts[j];
      assert a != b;
    }
  }

  /** Each of the four built options is lettered A exactly when it holds the answer. */
  lemma OptionText(correct: string, wrong: seq<string>, o: GameOption)
    requires |wrong| >= 3 && forall k :: 0 <= k < |wrong| ==> wrong[k] != correct
    requires o in BuildOptions(correct, wrong)
    ensures o.letter == 'A' <==> o.text == correct
    ensures o.text == correct || o.text in wrong
  {
    var all := BuildOptions(correct, wrong);
    if o != all[0] {
      assert o in all[1..];
      assert o.text in wrong[..3];
    }
  }

  /** A reordering of the four options holds each of them exactly once. */
  lemma ReorderedOptions(correct: string, wrong: seq<string>, opts: seq<GameOption>)
    requires |wrong| >= 3
    requires multiset(opts) == multiset(BuildOptions(correct, wrong)) && |opts| == 4
    ensures forall i :: 0 <= i < 4 ==> opts[i] in BuildOptions(correct, wrong)
    ensures NoDup(opts)
    ensures forall k :: 0 <= k < 4 ==> HasLetter(opts, BuildOptions(correct, wrong)[k].letter)
  {
    var all := BuildOptions(correct, wrong);
    assert NoDup(all);
    NoDupPermutation(opts, all);
    forall i | 0 <= i < 4 ensures opts[i] in all {
      assert opts[i] in multiset(opts);
    }
    forall k | 0 <= k < 4 ensures HasLetter(opts, all[k].letter) {
      assert all[k] in multiset(opts);
      var i :| 0 <= i < 4 && opts[i] == all[k];
    }
  }

  /** The list the distractors come from: the glossary when it has four entries, else favorites in 단어장. */
  function DistractorPool(mode: Mode, glossary: seq<SlangEntry>, favorites: seq<SlangEntry>): seq<SlangEntry> {
    if |glossary| >= 4 then glossary else if mode == Wordbook then favorites else glossary
  }

  /** `translateMeaning`: the trimmed reply, or the meaning itself for Korean, no reply or an empty reply. */
  function TranslateMeaning(meaning: string, language: string, reply: Option<string>): (r: string)
    ensures language == "ko" || reply.None? ==> r == meaning
    ensures r == meaning || (reply.Some? && r == Trim(reply.value) && r != [])
    ensures language != "ko" && reply.Some? && Trim(reply.value) != [] ==> r == Trim(reply.value)
  {
    if language == "ko" then meaning
    else match reply
      case None => meaning
      case Some(text) => if Trim(text) == [] then meaning else Trim(text)
  }

  /** What `presentQuestion` produces for `question` once the index check has passed. */
  function PresentedQuestion(question: SlangEntry, pool: seq<SlangEntry>, index: nat, total: nat,
                             language: string, reply: Option<string>,
                             wrongDraws: nat -> nat, optionDraws: nat -> nat): Presented
  {
    var wrong := GenerateWrongAnswers(question.slang, pool, [], wrongDraws);
    if |wrong| < 3 then Thrown(DistractorShortage(|pool|))
    else
      var opts := ShuffledOptions(question.slang, wrong, optionDraws);
      Presented(GameQuestion(index + 1, total, TranslateMeaning(question.meaning, language, reply), opts, question.slang, true))
  }

  /**
   * A question is thrown exactly when fewer than three distractors exist;
   * otherwise it carries four well-formed options, the entry's slang as its
   * answer and the position one past the index.
   */
  lemma PresentedQuestionShape(question: SlangEntry, pool: seq<SlangEntry>, index: nat, total: nat,
                               language: string, reply: Option<string>, wrongDraws: nat -> nat, optionDraws: nat -> nat)
    ensures var r := PresentedQuestion(question, pool, index, total, language, reply, wrongDraws, optionDraws);
      (r.Thrown? <==> |Candidates(question.slang, pool, [])| < 3) &&
      (r.Thrown? ==> r.fault == DistractorShortage(|pool|)) &&
      (r.Presented? ==>
        OptionsWellFormed(r.question.options, question.slang) &&
        r.question.questionIndex == index + 1 && r.question.totalQuestions == total &&
        r.question.correctAnswer == question.slang && r.question.canHint)
  {
  }

  /** Every option offered is the answer or a slang of the distractor pool. */
  lemma OptionsFromPool(question: SlangEntry, pool: seq<SlangEntry>, index: nat, total: nat,
                        language: string, reply: Option<string>, wrongDraws: nat -> nat, optionDraws: nat -> nat)
    ensures var r := PresentedQuestion(question, pool, index, total, language, reply, wrongDraws, optionDraws);
      r.Presented? ==> forall i :: 0 <= i < 4 ==>
        r.question.options[i].text == question.slang || r.question.options[i].text in Slangs(pool)
  {
    var wrong := GenerateWrongAnswers(question.slang, pool, [], wrongDraws);
    forall x | x in wrong ensures x in Slangs(pool) {
      var k :| 0 <= k < |wrong| && wrong[k] == x;
    }
  }

  /** The options of a question: `BuildOptions` in an unseeded shuffle. */
  function ShuffledOptions(correct: string, wrong: seq<string>, draws: nat -> nat): (r: seq<GameOption>)
    requires |wrong| >= 3 && forall k :: 0 <= k < |wrong| ==> wrong[k] != correct
    ensures OptionsWellFormed(r, correct)
    ensures forall i :: 0 <= i < 4 ==> r[i].text == correct || r[i].text in wrong
  {
    var all := BuildOptions(correct, wrong);
    Shuffle.ShuffledPermutes(all, None, draws);
    var opts := Shuffle.Shuffled(all, None, draws);
    ShuffledOptionsWellFormed(correct, wrong, opts);
    opts
  }

  /** The option shuffle of `presentQuestion`, done by `shuffleArray`. */
  method ShuffleOptions(correct: string, wrong: seq<string>, draws: nat -> nat) returns (opts: seq<GameOption>)
    requires |wrong| >= 3 && forall k :: 0 <= k < |wrong| ==> wrong[k] != correct
    ensures opts == ShuffledOptions(correct, wrong, draws)
  {
    opts := Shuffle.ShuffleArray(BuildOptions(correct, wrong), None, draws);
  }

  /** Inputs read as option labels rather than as option texts: one of A, B, C, D, a, b, c, d. */
  predicate IsLabelInput(t: string) {
    |t| == 1 && t[0] in "ABCDabcd"
  }

  /** `opts.find(matches) || null`: the first option that `matches` accepts. */
  function Find(opts: seq<GameOption>, matches: GameOption -> bool): (r: Option<GameOption>)
    ensures r.Some? ==> r.value in opts && matches(r.value)
    ensures r.None? <==> forall o :: o in opts ==> !matches(o)
    ensures r.Some? ==> exists k :: 0 <= k < |opts| && opts[k] == r.value && forall j :: 0 <= j < k ==> !matches(opts[j])
    decreases |opts|
  {
    if opts == [] then None
    else if matches(opts[0]) then Some(opts[0])
    else
      var r := Find(opts[1..], matches);
      assert r.Some? ==> exists k :: 0 <= k < |opts| && opts[k] == r.value && forall j :: 0 <= j < k ==> !matches(opts[j]) by {
        if r.Some? {
          var k :| 0 <= k < |opts[1..]| && opts[1..][k] == r.value && forall j :: 0 <= j < k ==> !matches(opts[1..][j]);
          assert forall j :: 0 <= j < k + 1 ==> !matches(opts[j]) by {
            forall j | 0 <= j < k + 1 ensures !matches(opts[j]) {
              if j > 0 { assert opts[j] == opts[1..][j - 1]; }
            }
          }
        }
      }
      r
  }

  /** The option labelled `letter`. */
  function FirstWithLabel(opts: seq<GameOption>, letter: char): Option<GameOption> {
    Find(opts, (o: GameOption) => o.letter == letter)
  }

  /** The option whose text is `text`. */
  function FirstWithText(opts: seq<GameOption>, text: string): Option<GameOption> {
    Find(opts, (o: GameOption) => o.text == text)
  }

  /**
   * The option an answer selects: a trimmed A–D (either case) is a letter,
   * anything else is compared with the option texts.
   */
  function SelectOption(opts: seq<GameOption>, answer: string): (r: Option<GameOption>)
    ensures r.Some? ==> r.value in opts
    ensures IsLabelInput(Trim(answer)) && r.Some? ==> r.value.letter == ToUpperChar(Trim(answer)[0])
    ensures !IsLabelInput(Trim(answer)) && r.Some? ==> r.value.text == Trim(answer)
    ensures IsLabelInput(Trim(answer)) ==>
      (r.None? <==> forall o :: o in opts ==> o.letter != ToUpperChar(Trim(answer)[0]))
    ensures !IsLabelInput(Trim(answer)) ==> (r.None? <==> forall o :: o in opts ==> o.text != Trim(answer))
  {
    var t := Trim(answer);
    if IsLabelInput(t) then FirstWithLabel(opts, ToUpperChar(t[0])) else FirstWithText(opts, t)
  }

  /** With well-formed options, answering the letter A (or the answer's text) is judged correct. */
  lemma LabelAIsCorrect(opts: seq<GameOption>, correct: string, answer: string)
    requires OptionsWellFormed(opts, correct)
    requires Trim(answer) == "A" || Trim(answer) == "a"
    ensures SelectOption(opts, answer).Some? && SelectOption(opts, answer).value.text == correct
  {
    var t := Trim(answer);
    assert t[0] == 'A' || t[0] == 'a';
    assert IsLabelInput(t) && ToUpperChar(t[0]) == 'A';
    var i :| 0 <= i < 4 && opts[i].letter == 'A';
    assert opts[i] in opts;
    assert FirstWithLabel(opts, 'A').Some?;
  }

  function TotalCorrect(history: seq<RoundRecord>): nat
    decreases |history|
  {
    if history == [] then 0 else TotalCorrect(history[..|history| - 1]) + history[|history| - 1].correct
  }

  /** The active set after a 단어장 round: the entries whose slang was answered wrongly, in order. */
  function KeepMissed(activeSet: seq<SlangEntry>, wrong: set<string>): (r: seq<SlangEntry>)
    ensures forall e :: e in r ==> e.slang in wrong
    ensures forall e :: e in activeSet && e.slang in wrong ==> e in r
    ensures KeepsExactly(r, activeSet, Missed(wrong))
  {
    FilterKeepsExactly(activeSet, Missed(wrong));
    Filter(activeSet, Missed(wrong))
  }

  /** The test of the 단어장 narrowing: the entry's slang was answered wrongly. */
  function Missed(wrong: set<string>): SlangEntry -> bool {
    (e: SlangEntry) => e.slang in wrong
  }


  /** `options?.shuffleQuestions !== false ? shuffleArray(pool, options?.seed) : pool`. */
  function Ordered(opts: GameOptions, pool: seq<SlangEntry>, draws: nat -> nat): seq<SlangEntry> {
    if opts.shuffleQuestions then Shuffle.Shuffled(pool, opts.seed, draws) else pool
  }

  /** A round asks each of its questions exactly once, in the given order when shuffling is off. */
  lemma OrderedPermutes(opts: GameOptions, pool: seq<SlangEntry>, draws: nat -> nat)
    ensures multiset(Ordered(opts, pool, draws)) == multiset(pool) && |Ordered(opts, pool, draws)| == |pool|
    ensures !opts.shuffleQuestions ==> Ordered(opts, pool, draws) == pool
  {
    Shuffle.ShuffledPermutes(pool, opts.seed, draws);
  }

  /** The question order of a round, computed by `shuffleArray` when shuffling is on. */
  method Order(opts: GameOptions, pool: seq<SlangEntry>, draws: nat -> nat) returns (r: seq<SlangEntry>)
    ensures r == Ordered(opts, pool, draws)
  {
    r := pool;
    if opts.shuffleQuestions {
      r := Shuffle.ShuffleArray(pool, opts.seed, draws);
    }
  }

  /** What `presentQuestion` returns or throws once a game exists: the index check, then `PresentedQuestion`. */
  function PresentAt(questions: seq<SlangEntry>, index: nat, pool: seq<SlangEntry>, total: nat, language: string,
                     reply: Option<string>, wrongDraws: nat -> nat, optionDraws: nat -> nat): Presented
  {
    if index >= |questions| then Thrown(NoMoreQuestions)
    else PresentedQuestion(questions[index], pool, index, total, language, reply, wrongDraws, optionDraws)
  }

  /**
   * A presented question has four well-formed options, its answer is the
   * entry at the index, and it reports the index plus one; past the end of
   * the questions the only outcome is `NoMoreQuestions`.
   */
  lemma PresentAtShape(questions: seq<SlangEntry>, index: nat, pool: seq<SlangEntry>, total: nat, language: string,
                       reply: Option<string>, wrongDraws: nat -> nat, optionDraws: nat -> nat)
    ensures var r := PresentAt(questions, index, pool, total, language, reply, wrongDraws, optionDraws);
      (r == Thrown(NoMoreQuestions) <==> index >= |questions|) &&
      (r.Presented? ==>
        index < |questions| &&
        |r.question.options| == 4 &&
        OptionsWellFormed(r.question.options, questions[index].slang) &&
        r.question.correctAnswer == questions[index].slang &&
        r.question.questionIndex == index + 1 && r.question.totalQuestions == total)
  {
    if index < |questions| {
      PresentedQuestionShape(questions[index], pool, index, total, language, reply, wrongDraws, optionDraws);
    }
  }

  /** The stored options after `presentQuestion`: replaced only when a question was produced. */
  function OptionsAfter(r: Presented, before: seq<GameOption>): seq<GameOption> {
    if r.Presented? then r.question.options else before
  }

  function AsStart(r: Presented): StartOutcome {
    if r.Presented? then Question(r.question) else Rejected(r.fault)
  }

  function AsNext(r: Presented): NextOutcome {
    if r.Presented? then NextQuestion(r.question) else NextRejected(r.fault)
  }

  function Explanation(question: SlangEntry, isCorrect: bool): string {
    if isCorrect then "정답입니다! 예: \"" + question.example + "\""
    else "틀렸습니다. 정답은 \"" + question.slang + "\"입니다. 예: \"" + question.example + "\""
  }

  /** The totals over a history grow by exactly the last round's correct answers. */
  lemma TotalCorrectAppend(history: seq<RoundRecord>, record: RoundRecord)
    ensures TotalCorrect(history + [record]) == TotalCorrect(history) + record.correct
  {
    assert (history + [record])[..|history|] == history;
  }

  /** With nothing missed, nothing stays active. */
  lemma {:induction false} KeepMissedNone(activeSet: seq<SlangEntry>, wrong: set<string>)
    requires |wrong| == 0
    ensures KeepMissed(activeSet, wrong) == []
    decreases |activeSet|
  {
    if activeSet != [] {
      KeepMissedNone(activeSet[1..], wrong);
    }
  }

  /** With every word of the active set missed, the whole set stays active. */
  lemma {:induction false} KeepMissedAll(activeSet: seq<SlangEntry>, wrong: set<string>)
    requires forall k :: 0 <= k < |activeSet| ==> activeSet[k].slang in wrong
    ensures KeepMissed(activeSet, wrong) == activeSet
    decreases |activeSet|
  {
    if activeSet != [] {
      KeepMissedAll(activeSet[1..], wrong);
    }
  }

  /** The question-building part of `presentQuestion`, once the index check has passed. */
  method BuildQuestion(question: SlangEntry, pool: seq<SlangEntry>, index: nat, total: nat, language: string,
                       reply: Option<string>, wrongDraws: nat -> nat, optionDraws: nat -> nat) returns (r: Presented)
    ensures r == PresentedQuestion(question, pool, index, total, language, reply, wrongDraws, optionDraws)
  {
    var correct := question.slang;
    var wrong := GenerateWrongAnswers(correct, pool, [], wrongDraws);
    if |wrong| < 3 {
      return Thrown(DistractorShortage(|pool|));
    }
    var shuffled := ShuffleOptions(correct, wrong, optionDraws);
    var text := TranslateMeaning(question.meaning, language, reply);
    r := Presented(GameQuestion(index + 1, total, text, shuffled, correct, true));
  }

  /** The service's `GameState` object; the engine updates its fields in place. */
  class GameState {
    var mode: Mode
    var glossary: seq<SlangEntry>
    var favorites: seq<SlangEntry>
    var activeSet: seq<SlangEntry>
    var currentRound: nat
    var questionIndex: nat
    var totalQuestions: nat
    var score: nat
    var totalQuestionsEver: nat
    var history: seq<RoundRecord>
    var currentQuestion: Option<SlangEntry>
    var shuffledQuestions: seq<SlangEntry>
    var wrongAnswers: set<string>
    var options: GameOptions
    var language: string

    /**
     * What holds of every game: the score never exceeds the answers taken;
     * a 신조어 game has no word book state and asks a permutation of its
     * glossary; a 단어장 active set is an ordered selection of the favorites.
     */
    ghost predicate Valid()
      reads this`score, this`questionIndex, this`currentRound, this`mode, this`favorites, this`activeSet
      reads this`wrongAnswers, this`history, this`totalQuestionsEver, this`shuffledQuestions, this`glossary
    {
      Scored() && SlangShape() && BookShape()
    }

    ghost predicate Scored()
      reads this`score, this`questionIndex, this`currentRound
    {
      score <= questionIndex && currentRound >= 1
    }

    ghost predicate SlangShape()
      reads this`mode, this`favorites, this`activeSet, this`wrongAnswers, this`history, this`currentRound
      reads this`totalQuestionsEver, this`shuffledQuestions, this`glossary
    {
      mode == NewSlang ==>
        favorites == [] && activeSet == [] && wrongAnswers == {} && history == [] &&
        currentRound == 1 && totalQuestionsEver == 0 &&
        multiset(shuffledQuestions) == multiset(glossary)
    }

    ghost predicate BookShape()
      reads this`mode, this`activeSet, this`favorites
    {
      mode == Wordbook ==> IsSubsequence(activeSet, favorites)
    }

    /** The object literal of `initGame`: round 1, nothing asked, scored or missed. */
    constructor (mode: Mode, glossary: seq<SlangEntry>, favorites: seq<SlangEntry>, activeSet: seq<SlangEntry>,
                 totalQuestions: nat, shuffledQuestions: seq<SlangEntry>, options: GameOptions, language: string)
      ensures this.mode == mode && this.glossary == glossary && this.favorites == favorites
      ensures this.activeSet == activeSet && this.totalQuestions == totalQuestions
      ensures this.shuffledQuestions == shuffledQuestions && this.options == options && this.language == language
      ensures currentRound == 1 && questionIndex == 0 && score == 0 && totalQuestionsEver == 0
      ensures history == [] && currentQuestion == None && wrongAnswers == {}
    {
      this.mode, this.glossary, this.favorites, this.activeSet := mode, glossary, favorites, activeSet;
      this.totalQuestions, this.shuffledQuestions := totalQuestions, shuffledQuestions;
      this.options, this.language := options, language;
      currentRound, questionIndex, score, totalQuestionsEver := 1, 0, 0, 0;
      history, currentQuestion, wrongAnswers := [], None, {};
    }

    /** The distractor pool of this game. */
    function Pool(): seq<SlangEntry>
      reads this`mode, this`glossary, this`favorites
    {
      DistractorPool(mode, glossary, favorites)
    }

    /** The entry `presentQuestion` would ask now, if any is left. */
    function Asked(): Option<SlangEntry>
      reads this`questionIndex, this`shuffledQuestions
    {
      if questionIndex < |shuffledQuestions| then Some(shuffledQuestions[questionIndex]) else None
    }

    /** What `presentQuestion` returns or throws for this game now. */
    function Presenting(reply: Option<string>, wrongDraws: nat -> nat, optionDraws: nat -> nat): Presented
      reads this`shuffledQuestions, this`questionIndex, this`mode, this`glossary, this`favorites
      reads this`totalQuestions, this`language
    {
      PresentAt(shuffledQuestions, questionIndex, Pool(), totalQuestions, language, reply, wrongDraws, optionDraws)
    }

    /**
     * How `getNextQuestion` ends a 단어장 round: only the missed words stay
     * active and the round is recorded. With nothing missed the word book is
     * complete, and the running total it reports adds the round's size to a
     * total that already includes it; with missed words the next round starts
     * over them; and when the missed words are none of the active set's, the
     * word book is complete with the stored total.
     */
    twostate predicate RoundEnded(r: NextOutcome, draws: nat -> nat)
      reads this
    {
      var kept := KeepMissed(old(activeSet), wrongAnswers);
      var wrongSlangs := if |wrongAnswers| > 0 && kept != [] then Slangs(kept) else [];
      activeSet == kept &&
      history == old(history) + [RoundRecord(old(currentRound), old(totalQuestions), old(score), wrongSlangs)] &&
      (kept == [] ==>
        currentRound == old(currentRound) && shuffledQuestions == old(shuffledQuestions) &&
        questionIndex == old(questionIndex) && totalQuestions == old(totalQuestions) &&
        totalQuestionsEver == old(totalQuestionsEver) && score == old(score) &&
        r == WordbookComplete(currentRound,
                              if |wrongAnswers| == 0 then totalQuestionsEver + totalQuestions else totalQuestionsEver,
                              TotalCorrect(history), history)) &&
      (kept != [] ==>
        currentRound == old(currentRound) + 1 && shuffledQuestions == Ordered(options, kept, draws) &&
        questionIndex == 0 && totalQuestions == |kept| && totalQuestionsEver == old(totalQuestionsEver) + |kept| &&
        score == 0 && r == NextRound(currentRound, |kept|))
    }

    /**
     * `presentQuestion` on this game: the entry at the index becomes the
     * current question before its distractors are chosen, so a distractor
     * shortage leaves it recorded.
     */
    method Present(reply: Option<string>, wrongDraws: nat -> nat, optionDraws: nat -> nat) returns (r: Presented)
      modifies this`currentQuestion
      ensures r == Presenting(reply, wrongDraws, optionDraws)
      ensures currentQuestion == if Asked().Some? then Asked() else old(currentQuestion)
    {
      if questionIndex >= |shuffledQuestions| {
        return Thrown(NoMoreQuestions);
      }
      var question := shuffledQuestions[questionIndex];
      currentQuestion := Some(question);
      r := BuildQuestion(question, Pool(), questionIndex, totalQuestions, language, reply, wrongDraws, optionDraws);
    }

    /** The bookkeeping of `submitAnswer` for one judged answer. */
    method Score(isCorrect: bool, slang: string)
      requires Valid()
      modifies this`score, this`questionIndex, this`wrongAnswers
      ensures Valid()
      ensures questionIndex == old(questionIndex) + 1 && score == old(score) + (if isCorrect then 1 else 0)
      ensures wrongAnswers == if mode == NewSlang then old(wrongAnswers)
                              else if isCorrect then old(wrongAnswers) - {slang}
                              else old(wrongAnswers) + {slang}
    {
      if isCorrect {
        score := score + 1;
        if mode == Wordbook {
          wrongAnswers := wrongAnswers - {slang};
        }
      } else {
        if mode == Wordbook {
          wrongAnswers := wrongAnswers + {slang};
        }
      }
      questionIndex := questionIndex + 1;
    }

    /** The state reset of `startGame`, over the round's questions. */
    method Restart(questions: seq<SlangEntry>, draws: nat -> nat)
      requires Valid() && (mode == NewSlang ==> multiset(questions) == multiset(glossary))
      modifies this`shuffledQuestions, this`questionIndex, this`totalQuestions, this`score, this`wrongAnswers
      modifies this`totalQuestionsEver
      ensures Valid()
      ensures shuffledQuestions == Ordered(options, questions, draws)
      ensures questionIndex == 0 && score == 0 && totalQuestions == |questions| && wrongAnswers == {}
      ensures totalQuestionsEver == old(totalQuestionsEver) + (if mode == Wordbook then |questions| else 0)
    {
      var order := Order(options, questions, draws);
      OrderedPermutes(options, questions, draws);
      var total := |questions|;
      ghost var slangKept := mode == NewSlang ==> multiset(order) == multiset(glossary);
      assert slangKept;
      shuffledQuestions, questionIndex, totalQuestions, score, wrongAnswers := order, 0, total, 0, {};
      if mode == Wordbook {
        totalQuestionsEver := totalQuestionsEver + total;
      }
    }

    /** The 단어장 branch of `getNextQuestion` once the round is over. */
    method EndRound(draws: nat -> nat) returns (r: NextOutcome)
      requires Valid() && mode == Wordbook
      modifies this`activeSet, this`history, this`currentRound, this`shuffledQuestions
      modifies this`questionIndex, this`totalQuestions, this`totalQuestionsEver, this`score
      ensures Valid() && RoundEnded(r, draws)
    {
      var kept := KeepMissed(activeSet, wrongAnswers);
      SubsequenceTransitive(kept, activeSet, favorites);
      if |wrongAnswers| == 0 {
        KeepMissedNone(activeSet, wrongAnswers);
        RecordRound(kept, []);
        r := WordbookComplete(currentRound, totalQuestionsEver + totalQuestions, TotalCorrect(history), history);
      } else if |kept| > 0 {
        RecordRound(kept, Slangs(kept));
        r := NewRound(draws);
      } else {
        RecordRound(kept, []);
        r := WordbookComplete(currentRound, totalQuestionsEver, TotalCorrect(history), history);
      }
    }

    /** Narrows the active set and appends the finished round to the history. */
    method RecordRound(kept: seq<SlangEntry>, wrongSlangs: seq<string>)
      modifies this`activeSet, this`history
      ensures activeSet == kept
      ensures history == old(history) + [RoundRecord(currentRound, totalQuestions, score, wrongSlangs)]
    {
      activeSet, history := kept, history + [RoundRecord(currentRound, totalQuestions, score, wrongSlangs)];
    }

    /** Starts the next 단어장 round over the active set. */
    method NewRound(draws: nat -> nat) returns (r: NextOutcome)
      modifies this`currentRound, this`shuffledQuestions, this`questionIndex, this`totalQuestions
      modifies this`totalQuestionsEver, this`score
      ensures currentRound == old(currentRound) + 1 && shuffledQuestions == Ordered(options, activeSet, draws)
      ensures questionIndex == 0 && score == 0 && totalQuestions == |activeSet|
      ensures totalQuestionsEver == old(totalQuestionsEver) + |activeSet|
      ensures r == NextRound(currentRound, |activeSet|)
    {
      var order := Order(options, activeSet, draws);
      OrderedPermutes(options, activeSet, draws);
      currentRound, shuffledQuestions, questionIndex := currentRound + 1, order, 0;
      totalQuestions, totalQuestionsEver, score := |order|, totalQuestionsEver + |order|, 0;
      r := NextRound(currentRound, |activeSet|);
    }
  }

  /**
   * Every round end records exactly one round, whose correct answers the
   * reported total then includes; the active set narrows to missed words,
   * and the word book completes exactly when no word is left.
   */
  twostate lemma RoundEndProgress(g: GameState, r: NextOutcome, draws: nat -> nat)
    requires g.RoundEnded(r, draws)
    ensures |g.history| == |old(g.history)| + 1 && g.history[..|old(g.history)|] == old(g.history)
    ensures TotalCorrect(g.history) == TotalCorrect(old(g.history)) + old(g.score)
    ensures IsSubsequence(g.activeSet, old(g.activeSet)) && forall e :: e in g.activeSet ==> e.slang in g.wrongAnswers
    ensures r.WordbookComplete? <==> g.activeSet == []
    ensures r.WordbookComplete? ==> r.history == g.history && r.totalCorrect == TotalCorrect(g.history)
    ensures r.NextRound? ==> g.questionIndex == 0 && g.score == 0 && multiset(g.shuffledQuestions) == multiset(g.activeSet)
  {
    var record := g.history[|old(g.history)|];
    assert g.history == old(g.history) + [record];
    TotalCorrectAppend(old(g.history), record);
    if r.NextRound? {
      OrderedPermutes(g.options, g.activeSet, draws);
    }
  }

  class GameEngine {
    /** `gameState`: null until a game is initialised. */
    var game: GameState?
    /** The options of the last question presented; `initGame` leaves them as they were. */
    var currentQuestionOptions: seq<GameOption>

    ghost predicate Valid()
      reads this`game, Games()`score, Games()`questionIndex, Games()`currentRound, Games()`mode
      reads Games()`favorites, Games()`activeSet, Games()`wrongAnswers, Games()`history
      reads Games()`totalQuestionsEver, Games()`shuffledQuestions, Games()`glossary
    {
      game != null ==> game.Valid()
    }

    /** The game object, if any: what the engine's methods may update. */
    function Games(): set<GameState>
      reads this`game
    {
      if game == null then {} else {game}
    }

    constructor ()
      ensures Valid() && game == null && currentQuestionOptions == []
    {
      game := null;
      currentQuestionOptions := [];
    }

    /**
     * The effect of `presentQuestion` on an existing game: the entry at the
     * index becomes the current question (before the distractors are
     * chosen), and the stored options change only when a question results.
     */
    twostate predicate PresentEffect(reply: Option<string>, wrongDraws: nat -> nat, optionDraws: nat -> nat)
      reads this, game
    {
      game != null && old(game) == game &&
      game.currentQuestion == (if game.Asked().Some? then game.Asked() else old(game.currentQuestion)) &&
      currentQuestionOptions == OptionsAfter(game.Presenting(reply, wrongDraws, optionDraws), old(currentQuestionOptions))
    }

    /**
     * `initGame`: 신조어 needs at least four glossary entries, 단어장 at least
     * one favorite; otherwise nothing changes. `entries` is
     * `sourceData?.entries` and `saved` is `favorites?.favorites`.
     */
    method InitGame(gameMode: Mode, entries: Option<seq<SlangEntry>>, saved: Option<seq<SlangEntry>>,
                    opts: GameOptions, draws: nat -> nat) returns (success: bool)
      requires Valid()
      modifies this`game
      ensures Valid()
      ensures success <==> if gameMode == NewSlang then entries.Some? && |entries.value| >= 4
                           else saved.Some? && |saved.value| > 0
      ensures !success ==> game == old(game)
      ensures success ==>
        fresh(game) && game.mode == gameMode && game.currentRound == 1 &&
        game.questionIndex == 0 && game.score == 0 && game.totalQuestionsEver == 0 && game.history == [] &&
        game.wrongAnswers == {} && game.currentQuestion == None && game.options == opts &&
        game.language == (if opts.language == "" then "ko" else opts.language)
      ensures success && gameMode == NewSlang ==>
        game.glossary == entries.value && game.favorites == [] && game.activeSet == [] &&
        game.totalQuestions == (if opts.maxQuestions > 0 then opts.maxQuestions else |entries.value|) &&
        game.shuffledQuestions == Ordered(opts, entries.value, draws)
      ensures success && gameMode == Wordbook ==>
        game.glossary == entries.GetOr([]) && game.favorites == saved.value && game.activeSet == saved.value &&
        game.totalQuestions == |saved.value| && game.shuffledQuestions == Ordered(opts, saved.value, draws)
    {
      var list: seq<SlangEntry>;
      if gameMode == NewSlang {
        if entries.None? || |entries.value| < 4 {
          return false;
        }
        list := entries.value;
      } else {
        if saved.None? || |saved.value| == 0 {
          return false;
        }
        list := saved.value;
      }
      var order := Order(opts, list, draws);
      OrderedPermutes(opts, list, draws);
      var language := if opts.language == "" then "ko" else opts.language;
      if gameMode == NewSlang {
        var total := if opts.maxQuestions > 0 then opts.maxQuestions else |list|;
        game := new GameState(NewSlang, list, [], [], total, order, opts, language);
      } else {
        SubsequenceReflexive(list);
        game := new GameState(Wordbook, entries.GetOr([]), list, list, |list|, order, opts, language);
      }
      success := true;
    }

    /**
     * `presentQuestion`: records the question at the current index, then
     * builds its options; a distractor shortage is thrown after the question
     * was recorded and leaves the previous options in place.
     */
    method PresentQuestion(reply: Option<string>, wrongDraws: nat -> nat, optionDraws: nat -> nat) returns (r: Presented)
      requires Valid()
      modifies this`currentQuestionOptions, Games()`currentQuestion
      ensures Valid()
      ensures game == null ==> r == Thrown(NoGameState) && currentQuestionOptions == old(currentQuestionOptions)
      ensures game != null ==> r == game.Presenting(reply, wrongDraws, optionDraws) && PresentEffect(reply, wrongDraws, optionDraws)
    {
      if game == null {
        return Thrown(NoGameState);
      }
      assert game.Scored() && game.SlangShape() && game.BookShape();
      r := game.Present(reply, wrongDraws, optionDraws);
      assert game.Scored() && game.SlangShape() && game.BookShape();
      currentQuestionOptions := OptionsAfter(r, currentQuestionOptions);
    }

    /**
     * `startGame`: the round's questions (the active set in 단어장, the
     * current order in 신조어) are put in order afresh; index, score and
     * missed words start over, 단어장 adds the round to its running total,
     * and the first question is presented.
     */
    method StartGame(draws: nat -> nat, reply: Option<string>, wrongDraws: nat -> nat, optionDraws: nat -> nat)
      returns (r: StartOutcome)
      requires Valid()
      modifies this`currentQuestionOptions, Games()`shuffledQuestions, Games()`questionIndex, Games()`totalQuestions
      modifies Games()`score, Games()`wrongAnswers, Games()`totalQuestionsEver, Games()`currentQuestion
      ensures Valid()
      ensures r.Error? <==> game == null || (game.mode == Wordbook && old(game.activeSet) == []) ||
                            (game.mode == NewSlang && old(game.shuffledQuestions) == [])
      ensures game == null ==> r == Error(NotInitialized)
      ensures game != null && game.mode == Wordbook && old(game.activeSet) == [] ==> r == Error(NoActiveSet)
      ensures game != null && game.mode == NewSlang && old(game.shuffledQuestions) == [] ==> r == Error(NoQuestions)
      ensures r.Error? ==> currentQuestionOptions == old(currentQuestionOptions) && (game != null ==> unchanged(game))
      ensures !r.Error? ==>
        var questions := if game.mode == Wordbook then game.activeSet else old(game.shuffledQuestions);
        questions != [] &&
        game.shuffledQuestions == Ordered(game.options, questions, draws) &&
        game.questionIndex == 0 && game.score == 0 && game.totalQuestions == |questions| && game.wrongAnswers == {} &&
        game.totalQuestionsEver == old(game.totalQuestionsEver) + (if game.mode == Wordbook then |questions| else 0) &&
        r == AsStart(game.Presenting(reply, wrongDraws, optionDraws)) && PresentEffect(reply, wrongDraws, optionDraws)
      ensures !r.Error? && game.mode == NewSlang ==> multiset(game.shuffledQuestions) == multiset(game.glossary)
    {
      if game == null {
        return Error(NotInitialized);
      }
      if game.mode == Wordbook && |game.activeSet| == 0 {
        return Error(NoActiveSet);
      }
      var questions := if game.mode == Wordbook then game.activeSet else game.shuffledQuestions;
      if |questions| == 0 {
        return Error(NoQuestions);
      }
      game.Restart(questions, draws);
      var p := PresentQuestion(reply, wrongDraws, optionDraws);
      r := AsStart(p);
    }

    /**
     * `submitAnswer`: judges the answer against the stored options and
     * advances the index; the current question stays set, and only 단어장
     * keeps track of missed words.
     */
    method SubmitAnswer(answer: string) returns (r: SubmitOutcome)
      requires Valid()
      modifies Games()`score, Games()`questionIndex, Games()`wrongAnswers
      ensures Valid()
      ensures r.InvalidInput? <==>
        game == null || game.currentQuestion.None? || SelectOption(currentQuestionOptions, answer).None?
      ensures r.InvalidInput? && game != null ==> unchanged(game)
      ensures r.Feedback? ==>
        var question := game.currentQuestion.value;
        var selected := SelectOption(currentQuestionOptions, answer).value;
        var isCorrect := selected.text == question.slang;
        game.questionIndex == old(game.questionIndex) + 1 &&
        game.score == old(game.score) + (if isCorrect then 1 else 0) &&
        game.wrongAnswers == (if game.mode == NewSlang then old(game.wrongAnswers)
                              else if isCorrect then old(game.wrongAnswers) - {question.slang}
                              else old(game.wrongAnswers) + {question.slang}) &&
        r.feedback == AnswerFeedback(isCorrect, selected, FirstWithText(currentQuestionOptions, question.slang),
                                     Explanation(question, isCorrect), game.score, game.totalQuestions - game.questionIndex)
    {
      if game == null || game.currentQuestion.None? {
        return InvalidInput;
      }
      var question := game.currentQuestion.value;
      var correctSlang := question.slang;
      var selectedOption := SelectOption(currentQuestionOptions, answer);
      if selectedOption.None? {
        return InvalidInput;
      }
      var selected := selectedOption.value;
      var isCorrect := selected.text == correctSlang;
      var correctOption := FirstWithText(currentQuestionOptions, correctSlang);
      game.Score(isCorrect, correctSlang);
      r := Feedback(AnswerFeedback(isCorrect, selected, correctOption, Explanation(question, isCorrect),
                                   game.score, game.totalQuestions - game.questionIndex));
    }

    /**
     * `getNextQuestion`: presents the next question while the round lasts;
     * at its end 신조어 reports the result and 단어장 ends the round
     * (`RoundEnded`).
     */
    method GetNextQuestion(roundDraws: nat -> nat, reply: Option<string>, wrongDraws: nat -> nat, optionDraws: nat -> nat)
      returns (r: NextOutcome)
      requires Valid()
      modifies this`currentQuestionOptions, Games()`currentQuestion, Games()`activeSet, Games()`history, Games()`currentRound
      modifies Games()`shuffledQuestions, Games()`questionIndex, Games()`totalQuestions, Games()`totalQuestionsEver, Games()`score
      ensures Valid()
      ensures game == null ==> r == NextRejected(NoGameState)
      ensures game != null && old(game.questionIndex) < old(game.totalQuestions) ==>
        unchanged(game`activeSet, game`history, game`currentRound, game`shuffledQuestions, game`questionIndex,
                  game`totalQuestions, game`totalQuestionsEver, game`score) &&
        r == AsNext(game.Presenting(reply, wrongDraws, optionDraws)) && PresentEffect(reply, wrongDraws, optionDraws)
      ensures game != null && old(game.questionIndex) >= old(game.totalQuestions) ==>
        currentQuestionOptions == old(currentQuestionOptions) && game.currentQuestion == old(game.currentQuestion)
      ensures game != null && old(game.questionIndex) >= old(game.totalQuestions) && game.mode == NewSlang ==>
        unchanged(game) && r == QuizComplete(game.totalQuestions, game.score, game.totalQuestions - game.score)
      ensures game != null && old(game.questionIndex) >= old(game.totalQuestions) && game.mode == Wordbook ==>
        game.RoundEnded(r, roundDraws)
    {
      if game == null {
        return NextRejected(NoGameState);
      }
      if game.questionIndex >= game.totalQuestions {
        if game.mode == Wordbook {
          r := game.EndRound(roundDraws);
          return;
        } else {
          return QuizComplete(game.totalQuestions, game.score, game.totalQuestions - game.score);
        }
      }
      var p := PresentQuestion(reply, wrongDraws, optionDraws);
      r := AsNext(p);
    }

    /** `getStatus`: None where the service throws for want of a game. */
    function GetStatus(): (r: Option<GameStatus>)
      reads this, game
      ensures r.None? <==> game == null
      ensures r.Some? ==>
        r.value.mode == game.mode && r.value.score == game.score &&
        r.value.remaining == game.totalQuestions - game.questionIndex &&
        (game.mode == Wordbook ==>
          r.value.activeSetSize == Some(|game.activeSet|) && r.value.round == Some(game.currentRound) &&
          r.value.totalQuestionsEver == Some(game.totalQuestionsEver)) &&
        (game.mode == NewSlang ==>
          r.value.activeSetSize.None? && r.value.round.None? && r.value.totalQuestionsEver.None?)
    {
      if game == null then None
      else
        var wordbook := game.mode == Wordbook;
        Some(GameStatus(game.mode, game.score, game.totalQuestions - game.questionIndex,
                        if wordbook then Some(|game.activeSet|) else None,
                        if wordbook then Some(game.currentRound) else None,
                        if wordbook then Some(game.totalQuestionsEver) else None))
    }

    /** `stopGame`: the status plus a message; nothing changes, so the game can be resumed. */
    function StopGame(): (r: Option<(GameStatus, string)>)
      reads this, game
      ensures r.None? <==> game == null
      ensures r.Some? ==> GetStatus() == Some(r.value.0)
    {
      if game == null then None
      else Some((GetStatus().value, "게임이 중단되었습니다. resume_game()으로 재개할 수 있습니다."))
    }

    /** `resumeGame`: presents the question at the current index, resetting nothing. */
    method ResumeGame(reply: Option<string>, wrongDraws: nat -> nat, optionDraws: nat -> nat) returns (r: StartOutcome)
      requires Valid()
      modifies this`currentQuestionOptions, Games()`currentQuestion
      ensures Valid()
      ensures game == null ==> r == Error(NoState)
      ensures game != null && game.mode == Wordbook && game.activeSet == [] ==>
        r == Error(NoActiveSet) && unchanged(game) && currentQuestionOptions == old(currentQuestionOptions)
      ensures game != null && !(game.mode == Wordbook && game.activeSet == []) ==>
        r == AsStart(game.Presenting(reply, wrongDraws, optionDraws)) && PresentEffect(reply, wrongDraws, optionDraws)
    {
      if game == null {
        return Error(NoState);
      }
      if game.mode == Wordbook && |game.activeSet| == 0 {
        return Error(NoActiveSet);
      }
      var p := PresentQuestion(reply, wrongDraws, optionDraws);
      r := AsStart(p);
    }

    /**
     * `resetWordbook`: a 단어장 game starts over from all favorites at round
     * 1; `totalQuestions` keeps its value.
     */
    method ResetWordbook(draws: nat -> nat) returns (success: bool)
      requires Valid()
      modifies Games()`activeSet, Games()`currentRound, Games()`questionIndex, Games()`score
      modifies Games()`totalQuestionsEver, Games()`history, Games()`wrongAnswers, Games()`shuffledQuestions
      ensures Valid()
      ensures success <==> game != null && game.mode == Wordbook
      ensures !success && game != null ==> unchanged(game)
      ensures success ==>
        game.activeSet == game.favorites && game.currentRound == 1 && game.questionIndex == 0 && game.score == 0 &&
        game.totalQuestionsEver == 0 && game.history == [] && game.wrongAnswers == {} &&
        game.shuffledQuestions == Ordered(game.options, game.favorites, draws)
    {
      if game == null || game.mode != Wordbook {
        return false;
      }
      SubsequenceReflexive(game.favorites);
      game.activeSet := game.favorites;
      game.currentRound := 1;
      game.questionIndex := 0;
      game.score := 0;
      game.totalQuestionsEver := 0;
      game.history := [];
      game.wrongAnswers := {};
      game.shuffledQuestions := Order(game.options, game.favorites, draws);
      success := true;
    }
  }
}
