/** What the button handler promises about every prompt it builds: the fixed
    lines, which optional items appear and how they are numbered, where the
    request's fields end up, how the lines are joined, and the download name. */
module PromptProperties {
  import opened Wrappers
  import opened Strings
  import opened Dates
  import opened Essay
  import opened Prompt

  // ---------- Reading numbered items back ----------

  /** The numbered items among `lines`, in order. */
  function ItemsOf(lines: seq<string>): seq<Item> {
    if lines == [] then []
    else
      (match ParseItem(lines[0]) case Some(it) => [it] case None => []) + ItemsOf(lines[1..])
  }

  lemma {:induction false} ItemsOfConcat(a: seq<string>, b: seq<string>)
    ensures ItemsOf(a + b) == ItemsOf(a) + ItemsOf(b)
  {
    if a == [] {
      assert a + b == b;
    } else {
      assert (a + b)[0] == a[0] && (a + b)[1..] == a[1..] + b;
      ItemsOfConcat(a[1..], b);
    }
  }

  lemma ItemsOfSingle(line: string)
    ensures ItemsOf([line]) == match ParseItem(line) case Some(it) => [it] case None => []
  {
    assert [line][1..] == [];
  }

  lemma {:induction false} ItemsOfUnnumbered(lines: seq<string>)
    requires forall k :: 0 <= k < |lines| ==> ParseItem(lines[k]) == None
    ensures ItemsOf(lines) == []
  {
    if lines != [] {
      ItemsOfUnnumbered(lines[1..]);
    }
  }

  /** Consecutively numbered item lines read back as their numbers and texts. */
  lemma {:induction false} ItemsOfNumbered(first: nat, texts: seq<string>)
    ensures |ItemsOf(NumberedItems(first, texts))| == |texts|
    ensures forall i :: 0 <= i < |texts| ==> ItemsOf(NumberedItems(first, texts))[i] == Item(first + i, texts[i])
    decreases texts
  {
    if texts != [] {
      var head := ItemLine(first, texts[0]);
      assert NumberedItems(first, texts) == [head] + NumberedItems(first + 1, texts[1..]);
      ItemsOfConcat([head], NumberedItems(first + 1, texts[1..]));
      ItemsOfSingle(head);
      ItemsOfNumbered(first + 1, texts[1..]);
    }
  }

  /** Unnumbered lines in front of other lines add no items. */
  lemma ItemsAfterUnnumbered(a: seq<string>, b: seq<string>)
    requires Unnumbered(a)
    ensures ItemsOf(a + b) == ItemsOf(b)
  {
    ItemsOfConcat(a, b);
    ItemsOfUnnumbered(a);
  }

  lemma UnnumberedConcat(a: seq<string>, b: seq<string>)
    requires Unnumbered(a) && Unnumbered(b)
    ensures Unnumbered(a + b)
  {
  }

  /** Lines laid out like the fixed block (two, one, then six), of which
      only the last two are numbered, hold exactly those two items. */
  lemma ItemsOfFixedLayout(l0: string, l1: string, l2: string, l3: string, l4: string,
                           l5: string, l6: string, x: string, y: string, a: Item, b: Item)
    requires ParseItem(l0) == None && ParseItem(l1) == None && ParseItem(l2) == None
    requires ParseItem(l3) == None && ParseItem(l4) == None && ParseItem(l5) == None
    requires ParseItem(l6) == None
    requires ParseItem(x) == Some(a) && ParseItem(y) == Some(b)
    ensures ItemsOf([l0, l1] + [l2] + [l3, l4, l5, l6, x, y]) == [a, b]
  {
    var u := [l0, l1, l2, l3, l4, l5, l6];
    assert Unnumbered(u);
    assert [l0, l1] + [l2] + [l3, l4, l5, l6, x, y] == u + ([x] + [y]);
    ItemsAfterUnnumbered(u, [x] + [y]);
    ItemsOfConcat([x], [y]);
    ItemsOfSingle(x);
    ItemsOfSingle(y);
  }

  /** Of the nine fixed lines only the outline and the thesis are numbered. */
  lemma FixedItems(req: EssayRequest)
    ensures ItemsOf(FixedLines(req)) == [Item(1, OutlineText), Item(2, ThesisText)]
  {
    UnnumberedLine(RoleLine);
    UnnumberedLine("");
    UnnumberedLine(ProvideLine);
    FixedItemLines();
    ItemsOfFixedLayout(RoleLine, SummaryLine(req.wordCount, req.essayType, req.academicLevel),
                       TopicLine(req.topic), StyleLine(req.writingStyle), DeadlineLine(req.urgency),
                       "", ProvideLine, "1. " + OutlineText, "2. " + ThesisText,
                       Item(1, OutlineText), Item(2, ThesisText));
  }

  // ---------- Which optional items appear, and in what order ----------

  /** The items of a prompt: the two fixed ones, then those of the optional lines. */
  lemma PromptItemsSplit(req: EssayRequest)
    ensures ItemsOf(PromptLines(req))
         == [Item(1, OutlineText), Item(2, ThesisText)]
            + ItemsOf(NumberedItems(FirstOptionalNumber, Texts(EnabledSections(req))))
  {
    var tail := ["", ClosingLine];
    assert ItemsOf(tail) == [] by {
      UnnumberedLine("");
      UnnumberedLine(ClosingLine);
      ItemsOfUnnumbered(tail);
    }
    FixedItems(req);
    ItemsOfParts(PromptLines(req), FixedLines(req), NumberedItems(FirstOptionalNumber, Texts(EnabledSections(req))),
                 tail, Item(1, OutlineText), Item(2, ThesisText));
  }

  /** The numbered items of every prompt: 1 and 2 always, then one item per
      requested section numbered 4, 5, ..., 3 + k with no gaps; no item is
      ever numbered 3. */
  lemma PromptItems(req: EssayRequest)
    ensures var items := ItemsOf(PromptLines(req));
            var e := EnabledSections(req);
            |e| == CountRequested(req) && |items| == 2 + |e|
            && items[0] == Item(1, OutlineText) && items[1] == Item(2, ThesisText)
            && (forall i :: 2 <= i < |items| ==> items[i] == Item(i + 2, e[i - 2].Text()))
            && (forall i :: 0 <= i < |items| ==> items[i].number != 3)
  {
    var e := EnabledSections(req);
    PromptItemsSplit(req);
    ItemsOfNumbered(FirstOptionalNumber, Texts(e));
    ItemsAfterTwo(ItemsOf(PromptLines(req)), Item(1, OutlineText), Item(2, ThesisText),
                  ItemsOf(NumberedItems(FirstOptionalNumber, Texts(e))), e);
  }

  /** Two items followed by the items for the texts of `e` numbered from 4. */
  lemma ItemsAfterTwo(items: seq<Item>, first: Item, second: Item, rest: seq<Item>, e: seq<Section>)
    requires items == [first, second] + rest
    requires first.number == 1 && second.number == 2
    requires |rest| == |e| && forall i :: 0 <= i < |e| ==> rest[i] == Item(FirstOptionalNumber + i, Texts(e)[i])
    ensures |items| == 2 + |e| && items[0] == first && items[1] == second
    ensures forall i :: 2 <= i < |items| ==> items[i] == Item(i + 2, e[i - 2].Text())
    ensures forall i :: 0 <= i < |items| ==> items[i].number != 3
  {
  }

  /** The items of three runs of lines when the first run holds exactly two
      items and the last none. */
  lemma ItemsOfParts(lines: seq<string>, fixed: seq<string>, opt: seq<string>, tail: seq<string>, a: Item, b: Item)
    requires lines == fixed + opt + tail
    requires ItemsOf(fixed) == [a, b] && ItemsOf(tail) == []
    ensures ItemsOf(lines) == [a, b] + ItemsOf(opt)
  {
    ItemsOfConcat(fixed + opt, tail);
    ItemsOfConcat(fixed, opt);
  }

  /** The section texts differ from each other and from the two fixed items. */
  lemma SectionTextsDistinct(s1: Section, s2: Section)
    ensures s1.Text() == s2.Text() ==> s1 == s2
    ensures s1.Text() != OutlineText && s1.Text() != ThesisText
  {
    assert |s1.Text()| != |OutlineText| && |s1.Text()| != |ThesisText|;
    assert s1 != s2 ==> |s1.Text()| != |s2.Text()|;
  }

  /** An item with a section's text appears exactly when its box is ticked. */
  lemma SectionItemIff(req: EssayRequest, s: Section)
    ensures var items := ItemsOf(PromptLines(req));
            (exists i :: 0 <= i < |items| && items[i].text == s.Text()) <==> Requested(req, s)
  {
    var e := EnabledSections(req);
    PromptItems(req);
    ItemTextIff(ItemsOf(PromptLines(req)), e, s);
  }

  lemma ItemTextIff(items: seq<Item>, e: seq<Section>, s: Section)
    requires |items| == 2 + |e|
    requires items[0] == Item(1, OutlineText) && items[1] == Item(2, ThesisText)
    requires forall i :: 2 <= i < |items| ==> items[i] == Item(i + 2, e[i - 2].Text())
    ensures (exists i :: 0 <= i < |items| && items[i].text == s.Text()) <==> s in e
  {
    SectionTextsDistinct(s, s);
    if s in e {
      var j :| 0 <= j < |e| && e[j] == s;
      assert items[2 + j].text == s.Text();
    }
    forall i | 2 <= i < |items| && items[i].text == s.Text() ensures s in e {
      SectionTextsDistinct(e[i - 2], s);
    }
  }

  /** A requested section's item is numbered 4 plus the number of requested
      sections before it, so turning an item off closes the gap it leaves. */
  lemma SectionNumber(req: EssayRequest, s: Section)
    requires Requested(req, s)
    ensures var items := ItemsOf(PromptLines(req));
            var p := RequestedBefore(req, s);
            2 + p < |items| && items[2 + p] == Item(FirstOptionalNumber + p, s.Text())
  {
    PromptItems(req);
    SectionPosition(req, s);
  }

  /** A requested section sits after the requested sections that come before it. */
  lemma SectionPosition(req: EssayRequest, s: Section)
    requires Requested(req, s)
    ensures RequestedBefore(req, s) < |EnabledSections(req)|
    ensures EnabledSections(req)[RequestedBefore(req, s)] == s
  {
  }

  // ---------- Where the request's fields appear ----------

  /** The summary line holds the essay type lower-cased. */
  lemma SummaryNamesEssayType(req: EssayRequest)
    ensures IsSubstring(LowerAscii(req.essayType.Label()), PromptLines(req)[1])
  {
    SummaryLineNamesType(req.wordCount, req.essayType, req.academicLevel);
    SubstringOfLeadingLine(PromptLines(req), FixedLines(req), 1, LowerAscii(req.essayType.Label()));
  }

  lemma SummaryLineNamesType(wordCount: int, essayType: EssayType, level: AcademicLevel)
    ensures IsSubstring(LowerAscii(essayType.Label()), SummaryLine(wordCount, essayType, level))
  {
    var w := IntToDecimal(wordCount);
    SummaryLineFields(wordCount, essayType, level);
    assert OccursAt(LowerAscii(essayType.Label()), SummaryLine(wordCount, essayType, level),
                    |SummaryLead| + |w| + |WordSuffix|);
  }

  /** A substring of one of the leading lines of `lines` is a substring of
      that line of `lines`. */
  lemma SubstringOfLeadingLine(lines: seq<string>, front: seq<string>, j: int, t: string)
    requires |front| <= |lines| && lines[..|front|] == front
    requires 0 <= j < |front| && IsSubstring(t, front[j])
    ensures IsSubstring(t, lines[j])
  {
    assert lines[j] == lines[..|front|][j];
  }

  /** Two blocks laid out like the fixed block that differ only in their
      second line agree everywhere else. */
  lemma SecondLineOnly(l0: string, x: string, y: string, l2: string, rest: seq<string>)
    ensures var a, b := [l0, x] + [l2] + rest, [l0, y] + [l2] + rest;
            |a| == |b| && forall i :: 0 <= i < |a| && i != 1 ==> a[i] == b[i]
  {
  }

  /** The essay type shows only in the summary line: changing it leaves every
      other line as it was. */
  lemma EssayTypeOnlyInSummary(req: EssayRequest, t: EssayType)
    ensures var a, b := PromptLines(req), PromptLines(req.(essayType := t));
            |a| == |b| && forall i :: 0 <= i < |a| && i != 1 ==> a[i] == b[i]
  {
    var other := req.(essayType := t);
    FixedBesideSummary(req, t);
    SectionsIgnoreEssayType(req, t);
    AgreeBesideSecond(PromptLines(req), PromptLines(other), FixedLines(req), FixedLines(other),
                      EnabledSections(req));
  }

  lemma SectionsIgnoreEssayType(req: EssayRequest, t: EssayType)
    ensures EnabledSections(req.(essayType := t)) == EnabledSections(req)
  {
  }

  /** Changing the essay type changes no fixed line but the summary. */
  lemma FixedBesideSummary(req: EssayRequest, t: EssayType)
    ensures forall i :: 0 <= i < 9 && i != 1 ==> FixedLines(req)[i] == FixedLines(req.(essayType := t))[i]
  {
    SecondLineOnly(RoleLine, SummaryLine(req.wordCount, req.essayType, req.academicLevel),
                   SummaryLine(req.wordCount, t, req.academicLevel), TopicLine(req.topic),
                   [StyleLine(req.writingStyle), DeadlineLine(req.urgency), "", ProvideLine,
                    "1. " + OutlineText, "2. " + ThesisText]);
  }

  /** Two prompts laid out alike (nine fixed lines, the items for the same
      sections, two closing lines) whose fixed blocks agree beside their
      second line agree everywhere beside their second line. */
  lemma AgreeBesideSecond(a: seq<string>, b: seq<string>, fa: seq<string>, fb: seq<string>, e: seq<Section>)
    requires |fa| == |fb| == 9 && |a| == |b| == 11 + |e| && a[..9] == fa && b[..9] == fb
    requires forall i :: 0 <= i < 9 && i != 1 ==> fa[i] == fb[i]
    requires forall i :: 0 <= i < |e| ==> a[9 + i] == ItemLine(FirstOptionalNumber + i, e[i].Text())
    requires forall i :: 0 <= i < |e| ==> b[9 + i] == ItemLine(FirstOptionalNumber + i, e[i].Text())
    requires a[|a| - 2] == b[|b| - 2] && a[|a| - 1] == b[|b| - 1]
    ensures forall i :: 0 <= i < |a| && i != 1 ==> a[i] == b[i]
  {
    forall i | 0 <= i < |a| && i != 1 ensures a[i] == b[i] {
      if i < 9 {
        assert a[i] == a[..9][i] && b[i] == b[..9][i];
      } else if i < 9 + |e| {
        var k := i - 9;
        assert a[9 + k] == ItemLine(FirstOptionalNumber + k, e[k].Text()) == b[9 + k];
      }
    }
  }

  // ---------- The newline join ----------

  lemma DigitsHaveNoNewline(s: string)
    requires AllDigits(s)
    ensures '\n' !in s
  {
    forall i | 0 <= i < |s| ensures s[i] != '\n' {
      assert IsDigit(s[i]);
    }
  }

  lemma DecimalHasNoNewline(i: int)
    ensures '\n' !in IntToDecimal(i)
  {
    var r := IntToDecimal(i);
    if i < 0 {
      DigitsHaveNoNewline(r[1..]);
      assert r == [r[0]] + r[1..];
    } else {
      DigitsHaveNoNewline(r);
    }
  }

  lemma LoweredHasNoNewline(s: string)
    requires '\n' !in s
    ensures '\n' !in LowerAscii(s)
  {
    var r := LowerAscii(s);
    forall i | 0 <= i < |r| ensures r[i] != '\n' {
      assert r[i] == LowerChar(s[i]) && s[i] in s;
    }
  }

  // Each fixed text is checked for newlines once, in a lemma of its own.

  lemma RoleLineHasNoNewline() ensures '\n' !in RoleLine {}
  lemma ProvideLineHasNoNewline() ensures '\n' !in ProvideLine {}
  lemma OutlineHasNoNewline() ensures '\n' !in OutlineText {}
  lemma ThesisHasNoNewline() ensures '\n' !in ThesisText {}
  lemma ClosingLineHasNoNewline() ensures '\n' !in ClosingLine {}
  lemma IntroductionHasNoNewline() ensures '\n' !in IntroductionText {}
  lemma SourcesHasNoNewline() ensures '\n' !in SourcesText {}
  lemma CitationsHasNoNewline() ensures '\n' !in CitationsText {}
  lemma EssayTypeHasNoNewline(t: EssayType) ensures '\n' !in t.Label() {}
  lemma LevelHasNoNewline(l: AcademicLevel) ensures '\n' !in l.Label() {}
  lemma StyleHasNoNewline(w: WritingStyle) ensures '\n' !in w.Label() {}

  lemma SectionTextHasNoNewline(s: Section)
    ensures '\n' !in s.Text()
  {
    match s
    case Introduction => IntroductionHasNoNewline();
    case Sources => SourcesHasNoNewline();
    case Citations => CitationsHasNoNewline();
  }

  lemma SummaryHasNoNewline(wordCount: int, essayType: EssayType, level: AcademicLevel)
    ensures '\n' !in SummaryLine(wordCount, essayType, level)
  {
    DecimalHasNoNewline(wordCount);
    EssayTypeHasNoNewline(essayType);
    LevelHasNoNewline(level);
    LoweredHasNoNewline(essayType.Label());
    SummaryPartsHaveNoNewline();
  }

  lemma SummaryPartsHaveNoNewline()
    ensures '\n' !in SummaryLead && '\n' !in WordSuffix && '\n' !in LevelLead && '\n' !in LevelSuffix
  {
  }

  /** No line of `lines` contains `c`. */
  predicate NoneContain(lines: seq<string>, c: char) {
    forall k :: 0 <= k < |lines| ==> c !in lines[k]
  }

  lemma NoneContainConcat(a: seq<string>, b: seq<string>, c: char)
    requires NoneContain(a, c) && NoneContain(b, c)
    ensures NoneContain(a + b, c)
  {
  }

  lemma TopicLineHasNoNewline(topic: string)
    requires '\n' !in topic
    ensures '\n' !in TopicLine(topic)
  {
    assert '\n' !in TopicLead;
  }

  lemma StyleLineHasNoNewline(style: WritingStyle)
    ensures '\n' !in StyleLine(style)
  {
    StyleHasNoNewline(style);
    assert '\n' !in StyleLead;
  }

  lemma DeadlineLineHasNoNewline(urgency: int)
    ensures '\n' !in DeadlineLine(urgency)
  {
    DecimalHasNoNewline(urgency);
    DeadlinePartsHaveNoNewline();
  }

  lemma DeadlinePartsHaveNoNewline()
    ensures '\n' !in DeadlineLead && '\n' !in DaysSuffix
  {
  }

  lemma FixedItemLinesHaveNoNewline()
    ensures '\n' !in "1. " + OutlineText && '\n' !in "2. " + ThesisText
  {
    OutlineHasNoNewline();
    ThesisHasNoNewline();
  }

  /** Lines laid out like the fixed block, none holding `c`. */
  lemma NoneContainFixedLayout(l0: string, l1: string, l2: string, l3: string, l4: string,
                               l5: string, l6: string, l7: string, l8: string, c: char)
    requires c !in l0 && c !in l1 && c !in l2 && c !in l3 && c !in l4
    requires c !in l5 && c !in l6 && c !in l7 && c !in l8
    ensures NoneContain([l0, l1] + [l2] + [l3, l4, l5, l6, l7, l8], c)
  {
  }

  lemma FixedLinesHaveNoNewline(req: EssayRequest)
    requires '\n' !in req.topic
    ensures NoneContain(FixedLines(req), '\n')
  {
    RoleLineHasNoNewline();
    SummaryHasNoNewline(req.wordCount, req.essayType, req.academicLevel);
    TopicLineHasNoNewline(req.topic);
    StyleLineHasNoNewline(req.writingStyle);
    DeadlineLineHasNoNewline(req.urgency);
    ProvideLineHasNoNewline();
    FixedItemLinesHaveNoNewline();
    NoneContainFixedLayout(RoleLine, SummaryLine(req.wordCount, req.essayType, req.academicLevel),
                           TopicLine(req.topic), StyleLine(req.writingStyle), DeadlineLine(req.urgency),
                           "", ProvideLine, "1. " + OutlineText, "2. " + ThesisText, '\n');
  }

  lemma ItemsHaveNoNewline(first: nat, ss: seq<Section>)
    ensures NoneContain(NumberedItems(first, Texts(ss)), '\n')
  {
    var items := NumberedItems(first, Texts(ss));
    forall k | 0 <= k < |items| ensures '\n' !in items[k] {
      DigitsHaveNoNewline(NatToDecimal(first + k));
      SectionTextHasNoNewline(ss[k]);
    }
  }

  /** No line holds a newline unless the topic does. */
  lemma LinesHaveNoNewline(req: EssayRequest)
    requires '\n' !in req.topic
    ensures var lines := PromptLines(req);
            forall k :: 0 <= k < |lines| ==> '\n' !in lines[k]
  {
    var opt := NumberedItems(FirstOptionalNumber, Texts(EnabledSections(req)));
    FixedLinesHaveNoNewline(req);
    ItemsHaveNoNewline(FirstOptionalNumber, EnabledSections(req));
    assert NoneContain(["", ClosingLine], '\n') by {
      ClosingLineHasNoNewline();
    }
    NoneContainConcat(FixedLines(req), opt, '\n');
    NoneContainConcat(FixedLines(req) + opt, ["", ClosingLine], '\n');
  }

  /** The prompt text holds the newlines inside its lines plus one between
      each pair of neighbouring lines; with a single-line topic that is
      exactly one fewer than there are lines, and splitting the text at its
      newlines gives the lines back. */
  lemma PromptNewlines(req: EssayRequest)
    ensures var lines := PromptLines(req);
            Count(Join(lines, "\n"), '\n') == CountAll(lines, '\n') + |lines| - 1
    ensures '\n' !in req.topic ==>
            var lines := PromptLines(req);
            Count(Join(lines, "\n"), '\n') == |lines| - 1 == 10 + CountRequested(req)
            && Split(Join(lines, "\n"), '\n') == lines
  {
    var lines := PromptLines(req);
    JoinCount(lines, '\n');
    if '\n' !in req.topic {
      LinesHaveNoNewline(req);
      CountAllAbsent(lines, '\n');
      SplitJoin(lines, '\n');
    }
  }

  // ---------- The download name ----------

  /** Different days give different download names. */
  lemma FileNameInjective(d1: Date, d2: Date)
    requires ValidDate(d1) && ValidDate(d2)
    requires FileName(d1) == FileName(d2)
    ensures d1 == d2
  {
  }

  lemma YearExample()
    ensures ZeroPadded(2024, 4) == "2024"
  {
    assert NatToDecimal(202) == "202" by {
      assert NatToDecimal(20) == "20";
    }
  }

  lemma MonthDayExample()
    ensures ZeroPadded(3, 2) == "03" && ZeroPadded(5, 2) == "05"
  {
  }

  /** The ISO form of 5 March 2024, zero-padded. */
  lemma IsoFormatExample()
    ensures IsoFormat(Date(2024, 3, 5)) == "2024-03-05"
  {
    YearExample();
    MonthDayExample();
  }

  /** The download name for 5 March 2024. */
  lemma FileNameExample()
    ensures FileName(Date(2024, 3, 5)) == "PromptMyPapers_2024-03-05.txt"
  {
    IsoFormatExample();
    assert FileName(Date(2024, 3, 5)) == FileNamePrefix + "2024-03-05" + FileNameSuffix;
  }

  // ---------- The two extreme requests ----------

  /** The numbers of a run of items, in order. */
  function Numbers(items: seq<Item>): (r: seq<nat>)
    ensures |r| == |items| && forall i :: 0 <= i < |items| ==> r[i] == items[i].number
  {
    seq(|items|, i requires 0 <= i < |items| => items[i].number)
  }

  /** With every box ticked the items are numbered 1, 2, 4, 5, 6. */
  lemma AllOptionsNumbers(req: EssayRequest)
    requires req.showIntroduction && req.showSources && req.showCitations
    ensures Numbers(ItemsOf(PromptLines(req))) == [1, 2, 4, 5, 6]
  {
    PromptItems(req);
    assert |EnabledSections(req)| == 3;
    FiveNumbers(ItemsOf(PromptLines(req)));
  }

  lemma FiveNumbers(items: seq<Item>)
    requires |items| == 5 && items[0].number == 1 && items[1].number == 2
    requires forall i :: 2 <= i < |items| ==> items[i].number == i + 2
    ensures Numbers(items) == [1, 2, 4, 5, 6]
  {
    assert items[2].number == 4 && items[3].number == 5 && items[4].number == 6;
  }

  /** With no box ticked only items 1 and 2 remain. */
  lemma NoOptionsItems(req: EssayRequest)
    requires !req.showIntroduction && !req.showSources && !req.showCitations
    ensures ItemsOf(PromptLines(req)) == [Item(1, OutlineText), Item(2, ThesisText)]
  {
    var items := ItemsOf(PromptLines(req));
    PromptItems(req);
    assert |items| == 2;
  }
}
