// The checks the quiz generators of services/openaiService.backup.ts and
// services/openaiService.clean.ts run on the model's reply and on their
// input: `fill` questions dropped from the trend quiz, short multiple-choice
// definitions replaced by a fixed explanation, the vocabulary words sampled
// for a quiz (reordering the caller's array in place), short `fill`
// definitions repaired from those words, the ISBN cleanup before a cover
// look-up and the Hangul kept from recognised handwriting. The chat requests
// themselves are left out: the parsed replies are inputs.
module QuizGeneration {
  import opened Wrappers
  import opened Seqs
  import opened Strings
  import opened Types

  /**
   * One parsed quiz question. QuizQuestion's own declaration is not part of
   * this model; these are the fields the checks read and write.
   */
  datatype QuizQuestion = QuizQuestion(
    kind: string,
    definition: Option<string>,
    correctAnswer: Option<string>,
    options: seq<string>,
    sentence: Option<string>)

  predicate NotFill(q: QuizQuestion) {
    q.kind != "fill"
  }

  /** `questions.filter(q => q.type !== 'fill')`. */
  function DropFill(questions: seq<QuizQuestion>): (r: seq<QuizQuestion>)
    ensures forall k :: 0 <= k < |r| ==> r[k].kind != "fill"
    ensures forall q :: q in questions && q.kind != "fill" ==> q in r
    ensures IsSubsequence(r, questions)
  {
    Filter(questions, NotFill)
  }

  /** Exactly the `fill` questions go: every other question keeps all its copies, in order. */
  lemma DropFillExactly(questions: seq<QuizQuestion>, q: QuizQuestion)
    ensures q.kind == "fill" ==> Occurrences(DropFill(questions), q) == 0
    ensures q.kind != "fill" ==> Occurrences(DropFill(questions), q) == Occurrences(questions, q)
  {
    FilterOccurrences(questions, NotFill, q);
  }

  /** `generateMinigameQuestions`' result: the reply's `questions` (none when absent) without `fill`. */
  function MinigameQuestions(questions: Option<seq<QuizQuestion>>): (r: seq<QuizQuestion>)
    ensures questions.None? ==> r == []
    ensures questions.Some? ==> r == DropFill(questions.value)
  {
    DropFill(questions.GetOr([]))
  }

  /** `!d || d.trim() === '' || d.length < min`: a definition the generator does not accept. */
  predicate Deficient(definition: Option<string>, min: nat) {
    definition.None? || IsBlank(definition.value) || |definition.value| < min
  }

  /** The text after the quoted answer in the fallback multiple-choice definition. */
  const McqExplanation: string :=
    "'는 최근 한국 인터넷에서 유행하는 신조어입니다. 주로 온라인 커뮤니티와 SNS에서 MZ세대들이 많이 사용하는 표현으로, 특정 상황이나 감정을 나타낼 때 사용됩니다."

  lemma McqExplanationLength()
    ensures |McqExplanation| >= 20
  {
  }

  /** The fallback definition for a multiple-choice question: the answer (else 신조어) quoted, then the explanation. */
  function McqDefinition(correctAnswer: Option<string>): (d: string)
    ensures |d| >= 20 && d[0] == '\''
    ensures correctAnswer.Some? && correctAnswer.value != "" ==> d == "'" + correctAnswer.value + McqExplanation
    ensures correctAnswer.None? || correctAnswer.value == "" ==> d == "'신조어" + McqExplanation
  {
    McqExplanationLength();
    var answer := if correctAnswer.Some? && correctAnswer.value != "" then correctAnswer.value else "신조어";
    "'" + answer + McqExplanation
  }

  /** A string that starts with a non-blank character is not blank. */
  lemma NotBlankFromFirst(s: string)
    requires s != [] && !IsWhitespace(s[0])
    ensures !IsBlank(s)
  {
    TrimBlank(s);
  }

  /** The map step of the trend quiz: a deficient `mcq` definition is replaced; anything else is kept. */
  function ValidateMcq(q: QuizQuestion): (r: QuizQuestion)
    ensures r.kind == q.kind && r.correctAnswer == q.correctAnswer && r.options == q.options && r.sentence == q.sentence
    ensures q.kind != "mcq" || !Deficient(q.definition, 20) ==> r == q
    ensures q.kind == "mcq" ==> !Deficient(r.definition, 20)
    ensures q.kind == "mcq" && Deficient(q.definition, 20) ==> r.definition == Some(McqDefinition(q.correctAnswer))
  {
    if q.kind == "mcq" && Deficient(q.definition, 20) then
      var d := McqDefinition(q.correctAnswer);
      NotBlankFromFirst(d);
      q.(definition := Some(d))
    else q
  }

  /**
   * The trend quiz's checks: `fill` dropped, then each multiple-choice
   * definition validated. No `fill` question is left; every `mcq` has an
   * acceptable definition of at least 20 characters, the one it had when
   * that was acceptable and the fallback otherwise; every other question is
   * the kept one in the same place; only definitions change.
   */
  function ValidateQuestions(questions: seq<QuizQuestion>): (r: seq<QuizQuestion>)
    ensures |r| == |DropFill(questions)|
    ensures forall k :: 0 <= k < |r| ==> r[k].kind != "fill"
    ensures forall k :: 0 <= k < |r| && r[k].kind == "mcq" ==>
      r[k].definition.Some? && |r[k].definition.value| >= 20 && !IsBlank(r[k].definition.value)
    ensures forall k :: 0 <= k < |r| && r[k].kind == "mcq" && Deficient(DropFill(questions)[k].definition, 20) ==>
      r[k].definition == Some(McqDefinition(r[k].correctAnswer))
    ensures forall k :: 0 <= k < |r| && (r[k].kind != "mcq" || !Deficient(DropFill(questions)[k].definition, 20)) ==>
      r[k] == DropFill(questions)[k]
    ensures forall k :: 0 <= k < |r| ==> r[k].(definition := DropFill(questions)[k].definition) == DropFill(questions)[k]
  {
    var kept := DropFill(questions);
    seq(|kept|, k requires 0 <= k < |kept| => ValidateMcq(kept[k]))
  }

  /** Validating an already validated list changes nothing. */
  lemma ValidateQuestionsIdempotent(questions: seq<QuizQuestion>)
    ensures ValidateQuestions(ValidateQuestions(questions)) == ValidateQuestions(questions)
  {
    var r := ValidateQuestions(questions);
    FilterKeepsAll(r, NotFill);
    assert DropFill(r) == r;
  }

  datatype QuizError = EmptyWordList

  /**
   * The word sample of `generateQuizFromVocabulary`: an empty list is
   * refused; more words than `count` are reordered IN the caller's array
   * by `words.sort` with a random comparator (`shuffled` is the order it
   * leaves, some permutation of the words) and the first `count` are
   * taken; otherwise the array itself is used and left as it was.
   */
  method SelectWords(words: array<VocabWord>, count: nat, shuffled: seq<VocabWord>)
    returns (r: Result<seq<VocabWord>, QuizError>)
    requires words.Length > count ==> multiset(shuffled) == multiset(words[..])
    modifies words
    ensures r.Failure? <==> words.Length == 0
    ensures r.Failure? ==> r.error == EmptyWordList
    ensures words.Length <= count ==> words[..] == old(words[..])
    ensures words.Length > count ==> words[..] == shuffled
    ensures multiset(words[..]) == multiset(old(words[..]))
    ensures r.Success? ==> |r.value| == (if count < words.Length then count else words.Length)
    ensures r.Success? ==> r.value <= words[..]
    ensures r.Success? ==> multiset(r.value) <= multiset(old(words[..]))
  {
    if words.Length == 0 {
      return Failure(EmptyWordList);
    }
    if words.Length > count {
      assert |shuffled| == words.Length by {
        assert |multiset(shuffled)| == |multiset(words[..])|;
      }
      for i := 0 to words.Length
        invariant words[..i] == shuffled[..i]
        invariant words[i..] == old(words[..])[i..]
      {
        words[i] := shuffled[i];
        assert words[..i + 1] == shuffled[..i + 1];
      }
      assert words[..] == shuffled;
      r := Success(words[..count]);
      assert words[..] == r.value + words[count..];
    } else {
      r := Success(words[..]);
    }
  }

  /** The first word-info entry for `answer` (`wordsInfo.find(w => w.word === answer)`). */
  function FindInfo(info: seq<SlangEntry>, answer: Option<string>): (r: Option<SlangEntry>)
    ensures r.Some? ==> answer.Some? && r.value in info && r.value.slang == answer.value
    ensures r.None? <==> answer.None? || forall k :: 0 <= k < |info| ==> info[k].slang != answer.value
    decreases |info|
  {
    if info == [] || answer.None? then None
    else if info[0].slang == answer.value then Some(info[0])
    else FindInfo(info[1..], answer)
  }

  /** The fallback `fill` definition: how many characters the answer has (2 when it is absent or empty). */
  function FillHint(correctAnswer: Option<string>): (d: string)
    ensures d != ""
    ensures correctAnswer.Some? && correctAnswer.value != "" ==>
      d == "이 한국어 단어의 의미를 맞춰보세요. " + NatToString(|correctAnswer.value|) + "글자로 구성된 단어입니다."
    ensures correctAnswer.None? || correctAnswer.value == "" ==>
      d == "이 한국어 단어의 의미를 맞춰보세요. " + NatToString(2) + "글자로 구성된 단어입니다."
  {
    var n := if correctAnswer.Some? && correctAnswer.value != "" then |correctAnswer.value| else 2;
    "이 한국어 단어의 의미를 맞춰보세요. " + NatToString(n) + "글자로 구성된 단어입니다."
  }

  /**
   * The repair of one vocabulary question: a `fill` question whose
   * definition is deficient (under 10 characters) gets the meaning of the
   * sampled word it answers, or the hint when no such word has a non-empty
   * meaning; anything else is kept.
   */
  function FixFill(info: seq<SlangEntry>, q: QuizQuestion): (r: QuizQuestion)
    ensures r.kind == q.kind && r.correctAnswer == q.correctAnswer && r.options == q.options && r.sentence == q.sentence
    ensures q.kind != "fill" || !Deficient(q.definition, 10) ==> r == q
    ensures q.kind == "fill" && Deficient(q.definition, 10) ==> r.definition.Some? && r.definition.value != ""
    ensures q.kind == "fill" && Deficient(q.definition, 10) ==>
      var found := FindInfo(info, q.correctAnswer);
      r.definition == Some(if found.Some? && found.value.meaning != "" then found.value.meaning else FillHint(q.correctAnswer))
  {
    if q.kind == "fill" && Deficient(q.definition, 10) then
      var found := FindInfo(info, q.correctAnswer);
      q.(definition := Some(if found.Some? && found.value.meaning != "" then found.value.meaning else FillHint(q.correctAnswer)))
    else q
  }

  /**
   * The vocabulary quiz's repair over the reply: the count is kept, only
   * definitions change, and only those of `fill` questions whose definition
   * was absent, blank or under 10 characters; every `fill` question ends up
   * with a non-empty definition.
   */
  function FixFills(selected: seq<VocabWord>, questions: seq<QuizQuestion>): (r: seq<QuizQuestion>)
    ensures |r| == |questions|
    ensures forall k :: 0 <= k < |questions| ==> r[k].(definition := questions[k].definition) == questions[k]
    ensures forall k :: 0 <= k < |questions| && (questions[k].kind != "fill" || !Deficient(questions[k].definition, 10)) ==>
      r[k] == questions[k]
    ensures forall k :: 0 <= k < |questions| && questions[k].kind == "fill" ==>
      r[k].definition.Some? && r[k].definition.value != ""
    ensures forall k :: 0 <= k < |questions| ==> r[k] == FixFill(Entries(selected), questions[k])
  {
    var info := Entries(selected);
    seq(|questions|, k requires 0 <= k < |questions| => FixFill(info, questions[k]))
  }

  /** A replaced definition comes from the sampled word the question answers, when one has a meaning. */
  lemma FixFillUsesWord(selected: seq<VocabWord>, q: QuizQuestion, k: nat)
    requires q.kind == "fill" && Deficient(q.definition, 10)
    requires k < |selected| && q.correctAnswer == Some(selected[k].word)
    requires forall m :: 0 <= m < k ==> selected[m].word != selected[k].word
    requires AsEntry(selected[k]).meaning != ""
    ensures FixFill(Entries(selected), q).definition == Some(AsEntry(selected[k]).meaning)
  {
    FindInfoFirst(Entries(selected), q.correctAnswer.value, k);
  }

  lemma {:induction false} FindInfoFirst(info: seq<SlangEntry>, answer: string, k: nat)
    requires k < |info| && info[k].slang == answer
    requires forall m :: 0 <= m < k ==> info[m].slang != answer
    ensures FindInfo(info, Some(answer)) == Some(info[k])
    decreases k
  {
    if k > 0 {
      FindInfoFirst(info[1..], answer, k - 1);
    }
  }

  predicate IsbnChar(c: char) {
    ('0' <= c <= '9') || c == 'X' || c == 'x'
  }

  /** `isbn.replace(/[^0-9X]/gi, '')`: the digits and the letter X in either case, in order. */
  function CleanIsbn(isbn: string): (r: string)
    ensures forall k :: 0 <= k < |r| ==> IsbnChar(r[k])
    ensures KeepsExactly(r, isbn, IsbnChar)
  {
    FilterKeepsExactly(isbn, IsbnChar);
    Filter(isbn, IsbnChar)
  }

  /** Every digit and X keeps all its occurrences; every other character loses them all. */
  lemma CleanIsbnExactly(isbn: string, c: char)
    ensures IsbnChar(c) ==> Occurrences(CleanIsbn(isbn), c) == Occurrences(isbn, c)
    ensures !IsbnChar(c) ==> Occurrences(CleanIsbn(isbn), c) == 0
  {
    FilterOccurrences(isbn, IsbnChar, c);
  }

  /** Cleaning a cleaned ISBN changes nothing. */
  lemma CleanIsbnIdempotent(isbn: string)
    ensures CleanIsbn(CleanIsbn(isbn)) == CleanIsbn(isbn)
  {
    FilterIdempotent(isbn, IsbnChar);
  }

  /** The handwriting reply reduced to its Hangul: trimmed (an absent reply is ""), then only ㄱ-ㅎ, ㅏ-ㅣ and 가-힣 kept. */
  function RecognizedHangul(reply: Option<string>): (r: string)
    ensures forall k :: 0 <= k < |r| ==> IsHangul(r[k])
    ensures reply.None? ==> r == ""
    ensures reply.Some? ==> KeepsExactly(r, reply.value, IsHangul)
  {
    var text := if reply.Some? then reply.value else "";
    HangulOnlyIgnoresTrim(text);
    var r := HangulOnly(Trim(text));
    assert r == HangulOnly(text);
    r
  }

  /** The trim does not matter: the result is the Hangul of the whole reply, and recognising it again keeps it. */
  lemma RecognizedHangulShape(reply: string)
    ensures RecognizedHangul(Some(reply)) == HangulOnly(reply)
    ensures RecognizedHangul(Some(RecognizedHangul(Some(reply)))) == RecognizedHangul(Some(reply))
  {
    HangulOnlyIgnoresTrim(reply);
    HangulOnlyIgnoresTrim(HangulOnly(reply));
    HangulOnlyIdempotent(reply);
  }
}
