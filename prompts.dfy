// The request texts the AI services send (services/openaiService.ts,
// src/services/geminiService.ts, services/openaiService.clean.ts): which
// language's prompt is used, how a study level is described, how the mood
// prompt is assembled, and how the books the model returns are turned into
// `Book` records. The model calls themselves are left out.
module Prompts {
  import opened Wrappers
  import opened Types

  /** `prompts[language] || prompts['en']`: the language whose prompt is used. */
  function PromptLanguage(language: string): (r: string)
    ensures r in Languages
    ensures r == language <==> language in Languages
    ensures language !in Languages ==> r == "en"
  {
    if language in Languages then language else "en"
  }

  /** Choosing again from the chosen language changes nothing. */
  lemma PromptLanguageIdempotent(language: string)
    ensures PromptLanguage(PromptLanguage(language)) == PromptLanguage(language)
  {
  }

  /** The prompt pair looked up in a table with one entry per prompt language. */
  function PromptFor<P>(prompts: map<string, P>, language: string): (p: P)
    requires prompts.Keys == Languages
    ensures language in Languages ==> p == prompts[language]
    ensures language !in Languages ==> p == prompts["en"]
  {
    prompts[PromptLanguage(language)]
  }

  const BeginnerTopik: string := " (TOPIK 1-2급)"
  const IntermediateTopik: string := " (TOPIK 3-4급)"
  const AdvancedTopik: string := " (TOPIK 5-6급)"

  /**
   * `levelMap[level] || level` in services/openaiService.ts: the three Korean
   * level names get their TOPIK grades appended; any other level is passed
   * through as it is.
   */
  function LevelDescription(level: string): (r: string)
    ensures level <= r
    ensures r == level <==> level != "초급" && level != "중급" && level != "고급"
    ensures level == "초급" ==> r == level + BeginnerTopik
    ensures level == "중급" ==> r == level + IntermediateTopik
    ensures level == "고급" ==> r == level + AdvancedTopik
  {
    if level == "초급" then level + BeginnerTopik
    else if level == "중급" then level + IntermediateTopik
    else if level == "고급" then level + AdvancedTopik
    else level
  }

  /** A described level is described no further. */
  lemma LevelDescriptionIdempotent(level: string)
    ensures LevelDescription(LevelDescription(level)) == LevelDescription(level)
  {
  }

  /** JavaScript truthiness of an optional string argument. */
  predicate Truthy(v: Option<string>) {
    v.Some? && v.value != ""
  }

  /** The optional parts of the mood prompt, in the order the prompt always uses. */
  datatype Part = SituationPart | PurposePart | GenrePart | LevelPart

  const SituationHeading: string := "\n\n현재 상황: "
  const PurposeHeading: string := "\n\n이 책을 통해 얻고 싶은 것: "
  const GenreHeading: string := "\n\n선호 장르: "
  const LevelHeading: string := "\n\n학습 수준: "

  /** The text that introduces a part: a blank line and the part's title. */
  function Heading(p: Part): string {
    match p
    case SituationPart => SituationHeading
    case PurposePart => PurposeHeading
    case GenrePart => GenreHeading
    case LevelPart => LevelHeading
  }

  function Rank(p: Part): nat {
    match p
    case SituationPart => 0
    case PurposePart => 1
    case GenrePart => 2
    case LevelPart => 3
  }

  /** A part that is present, with the caller's text. */
  datatype Section = Section(part: Part, value: string)

  /** The texts of the optional parts of the mood prompt (the level already described). */
  datatype MoodArgs = MoodArgs(situation: Option<string>, purpose: Option<string>, genre: Option<string>,
                               level: Option<string>)

  /** The text a part shows. */
  function Argument(a: MoodArgs, p: Part): Option<string> {
    match p
    case SituationPart => a.situation
    case PurposePart => a.purpose
    case GenrePart => a.genre
    case LevelPart => a.level
  }

  /** The optional arguments of `recommendBooksByMood` as the prompt shows them: the level by its description. */
  function Described(situation: Option<string>, purpose: Option<string>, genre: Option<string>,
                     level: Option<string>): (a: MoodArgs)
    ensures a.situation == situation && a.purpose == purpose && a.genre == genre
    ensures a.level.Some? <==> level.Some?
    ensures level.Some? ==> a.level.value == LevelDescription(level.value)
    ensures Truthy(a.level) <==> Truthy(level)
  {
    MoodArgs(situation, purpose, genre, if level.Some? then Some(LevelDescription(level.value)) else None)
  }

  /** The section for part `p` when its argument is truthy. */
  function Present(p: Part, a: MoodArgs): (r: seq<Section>)
    ensures |r| <= 1
    ensures r != [] <==> Truthy(Argument(a, p))
    ensures r != [] ==> r[0] == Section(p, Argument(a, p).value)
  {
    if Truthy(Argument(a, p)) then [Section(p, Argument(a, p).value)] else []
  }

  /**
   * The parts of the mood prompt that are present: one for each truthy
   * argument, in the order situation, purpose, genre, level.
   */
  function MoodSections(a: MoodArgs): seq<Section> {
    Present(SituationPart, a) + Present(PurposePart, a) + Present(GenrePart, a) + Present(LevelPart, a)
  }

  /** Where the section at position `k` of `MoodSections(a)` comes from. */
  lemma SectionAt(a: MoodArgs, k: int)
    requires 0 <= k < |MoodSections(a)|
    ensures var s0, s1, s2 := Present(SituationPart, a), Present(PurposePart, a), Present(GenrePart, a);
      MoodSections(a)[k] ==
        if k < |s0| then s0[k]
        else if k < |s0| + |s1| then s1[k - |s0|]
        else if k < |s0| + |s1| + |s2| then s2[k - |s0| - |s1|]
        else Present(LevelPart, a)[k - |s0| - |s1| - |s2|]
  {
  }

  /** Every part shown carries its own, truthy, argument. */
  lemma MoodSectionsFaithful(a: MoodArgs)
    ensures forall k :: 0 <= k < |MoodSections(a)| ==>
      Truthy(Argument(a, MoodSections(a)[k].part)) && MoodSections(a)[k].value == Argument(a, MoodSections(a)[k].part).value
  {
    forall k | 0 <= k < |MoodSections(a)|
      ensures Truthy(Argument(a, MoodSections(a)[k].part)) && MoodSections(a)[k].value == Argument(a, MoodSections(a)[k].part).value
    {
      SectionAt(a, k);
    }
  }

  /** Every truthy argument is shown. */
  lemma MoodSectionsComplete(a: MoodArgs)
    ensures forall p: Part :: Truthy(Argument(a, p)) ==> Section(p, Argument(a, p).value) in MoodSections(a)
  {
    var s0, s1, s2, s3 := Present(SituationPart, a), Present(PurposePart, a), Present(GenrePart, a), Present(LevelPart, a);
    var r := MoodSections(a);
    forall p: Part | Truthy(Argument(a, p)) ensures Section(p, Argument(a, p).value) in r {
      match p
      case SituationPart => SectionAt(a, 0);
      case PurposePart => SectionAt(a, |s0|);
      case GenrePart => SectionAt(a, |s0| + |s1|);
      case LevelPart => SectionAt(a, |s0| + |s1| + |s2|);
    }
  }

  /** The parts come in the fixed order situation, purpose, genre, level. */
  lemma MoodSectionsOrdered(a: MoodArgs)
    ensures forall i, j :: 0 <= i < j < |MoodSections(a)| ==> Rank(MoodSections(a)[i].part) < Rank(MoodSections(a)[j].part)
  {
    var s0, s1, s2 := Present(SituationPart, a), Present(PurposePart, a), Present(GenrePart, a);
    var r := MoodSections(a);
    forall k | 0 <= k < |r|
      ensures Rank(r[k].part) == if k < |s0| then 0 else if k < |s0| + |s1| then 1 else if k < |s0| + |s1| + |s2| then 2 else 3
    {
      SectionAt(a, k);
    }
  }

  /** The text of the parts, each introduced by its heading. */
  function Render(sections: seq<Section>): (r: string)
    decreases |sections|
  {
    if sections == [] then ""
    else Render(sections[..|sections| - 1]) + Heading(sections[|sections| - 1].part) + sections[|sections| - 1].value
  }

  function MoodHeader(mood: string): string {
    "현재 기분이 \"" + mood + "\"인 한국어 학습자를 위한 책 5권을 추천해주세요."
  }

  const MoodFooter: string := "\n\n기분과 상황에 맞는 책을 추천해주세요. 실제 출판된 책의 정확한 정보(제목, 저자)를 제공하세요. JSON 형식:\n{\"books\": [{\"title\": \"책 제목\", \"author\": \"저자\", \"description\": \"이 책을 추천하는 이유와 현재 기분/상황에 어떻게 도움이 되는지 설명\"}]}"

  /** The mood prompt: the header naming the mood, the present parts, then the fixed instructions. */
  function MoodPrompt(mood: string, situation: Option<string>, purpose: Option<string>, genre: Option<string>,
                      level: Option<string>): string
  {
    MoodHeader(mood) + Render(MoodSections(Described(situation, purpose, genre, level))) + MoodFooter
  }

  /** Without any optional argument the prompt is the header and the instructions alone. */
  lemma MoodPromptWithoutOptions(mood: string)
    ensures MoodPrompt(mood, None, None, None, None) == MoodHeader(mood) + MoodFooter
  {
    assert MoodSections(Described(None, None, None, None)) == [];
    EmptyMiddle(MoodHeader(mood), MoodFooter);
  }

  lemma EmptyMiddle(header: string, footer: string)
    ensures header + Render([]) + footer == header + footer
  {
  }

  /**
   * `recommendBooksByMood` builds its prompt in a `let` string, appending one
   * part for each truthy optional argument and the instructions last.
   */
  method BuildMoodPrompt(mood: string, situation: Option<string>, purpose: Option<string>, genre: Option<string>,
                         level: Option<string>) returns (prompt: string)
    ensures prompt == MoodPrompt(mood, situation, purpose, genre, level)
  {
    var args := Described(situation, purpose, genre, level);
    ghost var header := MoodHeader(mood);
    prompt := MoodHeader(mood);
    AppendNothing(prompt);
    prompt := AppendPart(prompt, header, [], SituationPart, args);
    ghost var parts := Present(SituationPart, args);
    prompt := AppendPart(prompt, header, parts, PurposePart, args);
    parts := parts + Present(PurposePart, args);
    prompt := AppendPart(prompt, header, parts, GenrePart, args);
    parts := parts + Present(GenrePart, args);
    prompt := AppendPart(prompt, header, parts, LevelPart, args);
    parts := parts + Present(LevelPart, args);
    assert parts == MoodSections(args);
    prompt := prompt + MoodFooter;
  }

  lemma AppendNothing(header: string)
    ensures header == header + Render([])
  {
  }

  lemma RenderSnoc(parts: seq<Section>, section: Section)
    ensures Render(parts + [section]) == Render(parts) + Heading(section.part) + section.value
  {
    assert (parts + [section])[..|parts|] == parts;
  }

  lemma SeqAssoc3(w: string, x: string, y: string, z: string)
    ensures w + (x + y + z) == w + x + y + z
  {
  }

  /** One `if (x) prompt += heading + x` step: the prompt renders one more part when that part is present. */
  method AppendPart(prompt: string, ghost header: string, ghost parts: seq<Section>, p: Part, a: MoodArgs)
    returns (r: string)
    requires prompt == header + Render(parts)
    ensures r == header + Render(parts + Present(p, a))
  {
    if Truthy(Argument(a, p)) {
      var section := Section(p, Argument(a, p).value);
      r := prompt + Heading(p) + section.value;
      RenderSnoc(parts, section);
      calc {
        header + Render(parts + Present(p, a));
        header + Render(parts + [section]);
        header + (Render(parts) + Heading(p) + section.value);
        { SeqAssoc3(header, Render(parts), Heading(p), section.value); }
        r;
      }
    } else {
      assert parts + Present(p, a) == parts;
      r := prompt;
    }
  }

  /**
   * The books a Gemini recommendation returns: every parsed book is kept, in
   * order, with its cover and ISBN cleared (`{ ...book, coverImageUrl:
   * undefined, isbn: undefined }`).
   */
  function ClearLookups(books: seq<Book>): (r: seq<Book>)
    ensures |r| == |books|
    ensures forall k :: 0 <= k < |r| ==> r[k].coverImageUrl.None? && r[k].isbn.None?
    ensures forall k :: 0 <= k < |r| ==> r[k].(coverImageUrl := books[k].coverImageUrl, isbn := books[k].isbn) == books[k]
  {
    seq(|books|, k requires 0 <= k < |books| => books[k].(coverImageUrl := None, isbn := None))
  }

  /** Clearing twice is clearing once. */
  lemma ClearLookupsIdempotent(books: seq<Book>)
    ensures ClearLookups(ClearLookups(books)) == ClearLookups(books)
  {
  }

  /**
   * `levelMap[level]` in services/openaiService.clean.ts: defined only for
   * the English level keys, with no fallback.
   */
  function EnglishLevelDescription(level: string): (r: Option<string>)
    ensures r.Some? <==> level == "beginner" || level == "intermediate" || level == "advanced"
    ensures level == "beginner" ==> r == Some(LevelDescription("초급"))
    ensures level == "intermediate" ==> r == Some(LevelDescription("중급"))
    ensures level == "advanced" ==> r == Some(LevelDescription("고급"))
  {
    if level == "beginner" then
      Some("초급" + BeginnerTopik)
    else if level == "intermediate" then
      Some("중급" + IntermediateTopik)
    else if level == "advanced" then
      Some("고급" + AdvancedTopik)
    else None
  }
}
