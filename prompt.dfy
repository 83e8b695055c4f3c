/** The prompt builder behind the "Generate Prompt" button: the topic check,
    the prompt lines with their conditionally numbered optional items, the
    newline join, and the name offered for the download. */
module Prompt {
  import opened Wrappers
  import opened Strings
  import opened Dates
  import opened Essay

  // ---------- Numbered items ----------

  /** A numbered item as a reader of the prompt sees it. */
  datatype Item = Item(number: nat, text: string)

  /** Reads a line of the form "N. text", N a run of decimal digits. */
  function ParseItem(line: string): Option<Item> {
    var d := DigitPrefix(line);
    if 1 <= |d| && |d| + 2 <= |line| && line[|d|] == '.' && line[|d| + 1] == ' ' then
      Some(Item(DecimalValue(d), line[|d| + 2..]))
    else
      None
  }

  /** A line that does not start with a digit is not a numbered item. */
  lemma UnnumberedLine(line: string)
    requires line == [] || !IsDigit(line[0])
    ensures ParseItem(line) == None
  {
    assert |DigitPrefix(line)| == 0;
  }

  /** None of `lines` is a numbered item. */
  predicate Unnumbered(lines: seq<string>) {
    forall k :: 0 <= k < |lines| ==> ParseItem(lines[k]) == None
  }

  /** The form of every numbered item, `f"{n}. {text}"`: it reads back as
      the number and the text it was written from. */
  function ItemLine(n: nat, text: string): (r: string)
    ensures ParseItem(r) == Some(Item(n, text))
  {
    var d := NatToDecimal(n);
    var r := d + ". " + text;
    assert r == d + (". " + text);
    DigitPrefixOfDigits(d, ". " + text);
    DecimalValueOfDecimal(n);
    assert r[|d| + 2..] == text;
    r
  }

  // ---------- The nine lines every prompt starts with ----------

  const RoleLine: string := "Act as an academic " + "writing coach."
  const ProvideLine: string := "Please provide:"
  const OutlineText: string :=
    "A detailed essay outline " + "with 3\U{2013}5 main sections " + "and bullet\U{2011}point "
    + "sub\U{2011}arguments."
  const ThesisText: string := "A clear thesis statement."
  const ClosingLine: string :=
    "Keep the tone and " + "vocabulary appropriate " + "for the stated academic level."

  const SummaryLead: string := "I\U{2019}m writing a **"
  const WordSuffix: string := "-word "
  const LevelLead: string := " essay** at **"
  const LevelSuffix: string := "** level."

  /** The summary line. Like every line before the numbered items, it is
      not read as one. */
  function SummaryLine(wordCount: int, essayType: EssayType, level: AcademicLevel): (r: string)
    ensures ParseItem(r) == None
  {
    var r := SummaryLead + IntToDecimal(wordCount) + WordSuffix + LowerAscii(essayType.Label())
             + LevelLead + level.Label() + LevelSuffix;
    UnnumberedLine(r);
    r
  }

  /** The summary holds the word count, the essay type lower-cased and the
      academic level, each verbatim and in that order. */
  lemma SummaryLineFields(wordCount: int, essayType: EssayType, level: AcademicLevel)
    ensures var r, w, t := SummaryLine(wordCount, essayType, level), IntToDecimal(wordCount), LowerAscii(essayType.Label());
            OccursAt(w, r, |SummaryLead|)
            && OccursAt(t, r, |SummaryLead| + |w| + |WordSuffix|)
            && OccursAt(level.Label(), r, |SummaryLead| + |w| + |WordSuffix| + |t| + |LevelLead|)
  {
    var w, t, l := IntToDecimal(wordCount), LowerAscii(essayType.Label()), level.Label();
    TemplateFields(SummaryLead, w, WordSuffix, t, LevelLead, l, LevelSuffix);
  }

  /** The topic between double quotes. */
  function Quoted(topic: string): (r: string)
    ensures |r| == |topic| + 2 && r[0] == '"' && r[|r| - 1] == '"' && r[1..|r| - 1] == topic
  {
    "\"" + topic + "\""
  }

  const TopicLead: string := "**Topic:** "

  /** The topic line: the topic, exactly as entered, between double quotes. */
  function TopicLine(topic: string): (r: string)
    ensures OccursAt(Quoted(topic), r, |TopicLead|)
    ensures ParseItem(r) == None
  {
    var r := TopicLead + Quoted(topic);
    assert r[|TopicLead|..] == Quoted(topic);
    UnnumberedLine(r);
    r
  }

  const StyleLead: string := "**Writing style:** "

  /** The style line: the writing style's option text, verbatim. */
  function StyleLine(style: WritingStyle): (r: string)
    ensures OccursAt(style.Label(), r, |StyleLead|)
    ensures ParseItem(r) == None
  {
    var r := StyleLead + style.Label();
    assert r[|StyleLead|..] == style.Label();
    UnnumberedLine(r);
    r
  }

  const DeadlineLead: string := "My deadline is in **"

  const DaysSuffix: string := " days**."

  /** The deadline line; it is not read as a numbered item. */
  function DeadlineLine(urgency: int): (r: string)
    ensures ParseItem(r) == None
  {
    var r := DeadlineLead + IntToDecimal(urgency) + DaysSuffix;
    UnnumberedLine(r);
    r
  }

  /** The deadline line holds the number of days, in decimal. */
  lemma DeadlineLineFields(urgency: int)
    ensures OccursAt(IntToDecimal(urgency), DeadlineLine(urgency), |DeadlineLead|)
  {
    var w := IntToDecimal(urgency);
    var r := DeadlineLead + w + DaysSuffix;
    assert r == DeadlineLine(urgency);
    assert r[|DeadlineLead|..|DeadlineLead| + |w|] == w;
  }

  lemma FixedItemLines()
    ensures ParseItem("1. " + OutlineText) == Some(Item(1, OutlineText))
    ensures ParseItem("2. " + ThesisText) == Some(Item(2, ThesisText))
  {
    assert NatToDecimal(1) + ". " == "1. " && NatToDecimal(2) + ". " == "2. ";
    assert ItemLine(1, OutlineText) == "1. " + OutlineText;
    assert ItemLine(2, ThesisText) == "2. " + ThesisText;
  }

  /** The nine lines every prompt starts with: the role, the summary, the
      topic as the third line, the style, the deadline, a blank line, the
      request header, and items 1 (the outline) and 2 (the thesis). */
  function FixedLines(req: EssayRequest): (r: seq<string>)
    ensures |r| == 9
    ensures r[1] == SummaryLine(req.wordCount, req.essayType, req.academicLevel)
    ensures r[2] == TopicLine(req.topic)
  {
    var summary := SummaryLine(req.wordCount, req.essayType, req.academicLevel);
    var rest := [StyleLine(req.writingStyle), DeadlineLine(req.urgency), "", ProvideLine,
                 "1. " + OutlineText, "2. " + ThesisText];
    FixedLayout(RoleLine, summary, TopicLine(req.topic), rest);
    [RoleLine, summary] + [TopicLine(req.topic)] + rest
  }

  /** Where the lines of the fixed block sit, whatever they say. */
  lemma FixedLayout(role: string, summary: string, topic: string, rest: seq<string>)
    ensures var r := [role, summary] + [topic] + rest;
            |r| == 3 + |rest| && r[1] == summary && r[2] == topic
  {
  }

  // ---------- The optional items ----------

  const IntroductionText: string := "A sample introduction " + "paragraph (100\U{2013}150 words)."
  const SourcesText: string := "Suggestions for reputable " + "sources or study types " + "to reference."
  const CitationsText: string :=
    "The appropriate citation " + "style (explain why it " + "suits this assignment)."

  /** The optional items, each behind its own check box. */
  datatype Section = Introduction | Sources | Citations {
    function Text(): string {
      match this
      case Introduction => IntroductionText
      case Sources => SourcesText
      case Citations => CitationsText
    }

    /** Place in the fixed order introduction, sources, citations. */
    function Rank(): nat {
      match this
      case Introduction => 0
      case Sources => 1
      case Citations => 2
    }
  }

  predicate Requested(req: EssayRequest, s: Section) {
    match s
    case Introduction => req.showIntroduction
    case Sources => req.showSources
    case Citations => req.showCitations
  }

  function Bit(b: bool): nat {
    if b then 1 else 0
  }

  /** The number of optional items the request asks for. */
  function CountRequested(req: EssayRequest): nat {
    Bit(req.showIntroduction) + Bit(req.showSources) + Bit(req.showCitations)
  }

  /** The number of optional items asked for that come before `s`. */
  function RequestedBefore(req: EssayRequest, s: Section): nat {
    match s
    case Introduction => 0
    case Sources => Bit(req.showIntroduction)
    case Citations => Bit(req.showIntroduction) + Bit(req.showSources)
  }

  predicate Ranked(ss: seq<Section>) {
    forall i, j :: 0 <= i < j < |ss| ==> ss[i].Rank() < ss[j].Rank()
  }

  /** `ss`, followed by `s` when its box is ticked. */
  function AddIfTicked(ss: seq<Section>, ticked: bool, s: Section): seq<Section> {
    if ticked then ss + [s] else ss
  }

  /** The optional sections of the prompt, in the order they are listed: each
      check box, in turn, adds its section when it is ticked. So a section is
      listed exactly when its box is ticked, once, in the fixed order
      introduction, sources, citations. */
  function EnabledSections(req: EssayRequest): (r: seq<Section>)
    ensures forall s :: s in r <==> Requested(req, s)
    ensures Ranked(r)
    ensures |r| == CountRequested(req)
  {
    AddIfTicked(AddIfTicked(AddIfTicked([], req.showIntroduction, Introduction),
                            req.showSources, Sources),
                req.showCitations, Citations)
  }

  /** The texts of the sections, in order. */
  function Texts(ss: seq<Section>): (r: seq<string>)
    ensures |r| == |ss|
  {
    seq(|ss|, i requires 0 <= i < |ss| => ss[i].Text())
  }

  /** The item lines for `texts`, numbered consecutively from `first`. */
  function NumberedItems(first: nat, texts: seq<string>): (r: seq<string>)
    ensures |r| == |texts|
    ensures forall i :: 0 <= i < |texts| ==> r[i] == ItemLine(first + i, texts[i])
    decreases texts
  {
    if texts == [] then []
    else
      var rest := NumberedItems(first + 1, texts[1..]);
      [ItemLine(first, texts[0])] + rest
  }

  /** The number the first optional item gets: the counter starts at 3 and is
      incremented before each optional item is written. */
  const FirstOptionalNumber: nat := 4

  /** The lines of the prompt: the fixed nine, the requested optional items
      numbered 4, 5, ..., 3 + k in the fixed order, a blank line and the
      closing sentence; 9 + k + 2 lines for k requested items. */
  function PromptLines(req: EssayRequest): (r: seq<string>)
    ensures var e := EnabledSections(req);
            |r| == 11 + CountRequested(req)
            && r[..9] == FixedLines(req)
            && (forall i :: 0 <= i < |e| ==> r[9 + i] == ItemLine(FirstOptionalNumber + i, e[i].Text()))
            && r[|r| - 2] == "" && r[|r| - 1] == ClosingLine
  {
    var e := EnabledSections(req);
    var fixed := FixedLines(req);
    PromptLayout(fixed, e, "", ClosingLine);
    fixed + NumberedItems(FirstOptionalNumber, Texts(e)) + ["", ClosingLine]
  }

  /** Where the parts of a prompt sit, whatever the fixed lines and the
      closing lines say. */
  lemma PromptLayout(fixed: seq<string>, e: seq<Section>, x: string, y: string)
    requires |fixed| == 9
    ensures var r := fixed + NumberedItems(FirstOptionalNumber, Texts(e)) + [x, y];
            |r| == 11 + |e| && r[..9] == fixed
            && (forall i :: 0 <= i < |e| ==> r[9 + i] == ItemLine(FirstOptionalNumber + i, e[i].Text()))
            && r[|r| - 2] == x && r[|r| - 1] == y
  {
    var opt := NumberedItems(FirstOptionalNumber, Texts(e));
    var r := fixed + opt + [x, y];
    assert r[..9] == fixed;
    forall i | 0 <= i < |e| ensures r[9 + i] == ItemLine(FirstOptionalNumber + i, e[i].Text()) {
      assert r[9 + i] == opt[i];
      assert Texts(e)[i] == e[i].Text();
    }
  }

  /** Numbering one more text continues the count where it stopped. */
  lemma NumberedItemsAppend(first: nat, texts: seq<string>, t: string)
    ensures NumberedItems(first, texts + [t])
         == NumberedItems(first, texts) + [ItemLine(first + |texts|, t)]
  {
    var a, b := NumberedItems(first, texts + [t]), NumberedItems(first, texts) + [ItemLine(first + |texts|, t)];
    assert |a| == |b|;
    forall i | 0 <= i < |a| ensures a[i] == b[i] {
      if i < |texts| { assert (texts + [t])[i] == texts[i]; }
    }
  }

  lemma TextsAppend(ss: seq<Section>, s: Section)
    ensures Texts(ss + [s]) == Texts(ss) + [s.Text()]
  {
  }

  /** Appending the next numbered item to lines that end with the items for
      `listed` gives the lines that end with the items for `listed + [s]`. */
  lemma AppendItemStep(head: seq<string>, listed: seq<Section>, s: Section)
    ensures head + NumberedItems(FirstOptionalNumber, Texts(listed))
              + [ItemLine(FirstOptionalNumber + |listed|, s.Text())]
         == head + NumberedItems(FirstOptionalNumber, Texts(listed + [s]))
  {
    TextsAppend(listed, s);
    NumberedItemsAppend(FirstOptionalNumber, Texts(listed), s.Text());
  }

  /** The optional-item steps of the button handler: a counter that starts
      at 3 is incremented before each requested item, and the item is
      appended under the new number. */
  method AppendOptionalItems(lines: seq<string>, req: EssayRequest) returns (promptLines: seq<string>)
    ensures promptLines == lines + NumberedItems(FirstOptionalNumber, Texts(EnabledSections(req)))
  {
    promptLines := lines;
    var lineNo: nat := 3;
    ghost var listed: seq<Section> := [];
    if req.showIntroduction {
      lineNo := lineNo + 1;
      promptLines := promptLines + [ItemLine(lineNo, Introduction.Text())];
      AppendItemStep(lines, listed, Introduction);
      listed := listed + [Introduction];
    }
    assert listed == AddIfTicked([], req.showIntroduction, Introduction);
    assert promptLines == lines + NumberedItems(FirstOptionalNumber, Texts(listed));
    assert lineNo == 3 + |listed|;
    if req.showSources {
      lineNo := lineNo + 1;
      promptLines := promptLines + [ItemLine(lineNo, Sources.Text())];
      AppendItemStep(lines, listed, Sources);
      listed := listed + [Sources];
    }
    assert listed == AddIfTicked(AddIfTicked([], req.showIntroduction, Introduction), req.showSources, Sources);
    assert promptLines == lines + NumberedItems(FirstOptionalNumber, Texts(listed));
    assert lineNo == 3 + |listed|;
    if req.showCitations {
      lineNo := lineNo + 1;
      promptLines := promptLines + [ItemLine(lineNo, Citations.Text())];
      AppendItemStep(lines, listed, Citations);
      listed := listed + [Citations];
    }
    assert listed == EnabledSections(req);
  }

  /** The list-building steps of the button handler: the nine fixed lines,
      then the requested optional items, then a blank line and the closing
      sentence. */
  method BuildPromptLines(req: EssayRequest) returns (promptLines: seq<string>)
    ensures promptLines == PromptLines(req)
  {
    promptLines := FixedLines(req);
    promptLines := AppendOptionalItems(promptLines, req);
    promptLines := promptLines + [""];
    promptLines := promptLines + [ClosingLine];
  }

  // ---------- The download name ----------

  const FileNamePrefix: string := "PromptMyPapers_"
  const FileNameSuffix: string := ".txt"

  /** The name offered for the download: the prefix, the ISO date, `.txt`.
      It depends on the date alone, and names that date. */
  function FileName(today: Date): (r: string)
    requires ValidDate(today)
    ensures |r| == |FileNamePrefix| + 10 + |FileNameSuffix|
    ensures ParseFileName(r) == Some(today)
  {
    var iso := IsoFormat(today);
    var r := FileNamePrefix + iso + FileNameSuffix;
    assert r[..15] == FileNamePrefix && r[15..25] == iso && r[25..] == FileNameSuffix;
    IsoFormatRoundTrip(today);
    r
  }

  /** Reads the date back out of a download name. */
  function ParseFileName(name: string): Option<Date> {
    if |name| == 29 && name[..15] == FileNamePrefix && name[25..] == FileNameSuffix then
      ParseIsoDate(name[15..25])
    else
      None
  }

  // ---------- The button handler ----------

  datatype ValidationError = EmptyTopic

  /** What one click produces: the prompt lines, their newline join shown in
      the text area, and the download name. */
  datatype RenderedPrompt = RenderedPrompt(lines: seq<string>, text: string, fileName: string)

  /** `not topic.strip()`: the topic is empty or whitespace only. */
  predicate IsBlankTopic(topic: string)
    ensures IsBlankTopic(topic) <==> AllWhitespace(topic)
  {
    StripEmptyIffAllWhitespace(topic);
    Strip(topic) == []
  }

  /** The prompt a request renders to on the given day: 9 + k + 2 lines, a
      text that quotes the topic, and a download name that names the day. */
  function Render(req: EssayRequest, today: Date): (r: RenderedPrompt)
    requires ValidDate(today)
    ensures |r.lines| == 11 + CountRequested(req)
    ensures IsSubstring(Quoted(req.topic), r.text)
    ensures ParseFileName(r.fileName) == Some(today)
  {
    var lines := PromptLines(req);
    var text := Join(lines, "\n");
    assert lines[2] == FixedLines(req)[2];
    PartInJoin(lines, "\n", 2);
    SubstringTransitive(Quoted(req.topic), lines[2], text);
    RenderedPrompt(lines, text, FileName(today))
  }

  /** The button handler: stop with an error when the topic is empty or
      whitespace only; otherwise build the lines, join them with newlines,
      and name the download after the day. */
  method GeneratePrompt(req: EssayRequest, today: Date) returns (r: Result<RenderedPrompt, ValidationError>)
    requires ValidDate(today)
    ensures r.Failure? <==> AllWhitespace(req.topic)
    ensures r.Failure? ==> r.error == EmptyTopic
    ensures r.Success? ==> r.value == Render(req, today)
  {
    if IsBlankTopic(req.topic) {
      return Failure(EmptyTopic);
    }
    var promptLines := BuildPromptLines(req);
    var fullPrompt := Join(promptLines, "\n");
    var fileName := FileName(today);
    r := Success(RenderedPrompt(promptLines, fullPrompt, fileName));
  }
}
