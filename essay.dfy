/** The parameters the sidebar of the app collects for one essay. The three
    select boxes offer fixed option lists, so each becomes a closed datatype
    whose `Label` is the option text shown and interpolated into the prompt. */
module Essay {
  import opened Strings

  datatype EssayType =
    | Analytical | Argumentative | Persuasive | Narrative
    | CompareAndContrast | CauseAndEffect | Expository
  {
    function Label(): string {
      match this
      case Analytical => "Analytical"
      case Argumentative => "Argumentative"
      case Persuasive => "Persuasive"
      case Narrative => "Narrative"
      case CompareAndContrast => "Compare & Contrast"
      case CauseAndEffect => "Cause & Effect"
      case Expository => "Expository"
    }
  }

  datatype AcademicLevel = HighSchool | Undergraduate | Masters | PhD {
    function Label(): string {
      match this
      case HighSchool => "High School"
      case Undergraduate => "Undergraduate"
      case Masters => "Master\U{2019}s"
      case PhD => "PhD"
    }
  }

  datatype WritingStyle = FormalAcademic | ConversationalAcademic | Creative | Technical {
    function Label(): string {
      match this
      case FormalAcademic => "Formal Academic"
      case ConversationalAcademic => "Conversational Academic"
      case Creative => "Creative"
      case Technical => "Technical"
    }
  }

  /** One request: the free-text topic, the three selections, the word count
      and the days until the deadline (both whatever int the widgets return),
      and the three check boxes for the optional prompt items. */
  datatype EssayRequest = EssayRequest(
    topic: string,
    essayType: EssayType,
    wordCount: int,
    academicLevel: AcademicLevel,
    writingStyle: WritingStyle,
    urgency: int,
    showIntroduction: bool,
    showSources: bool,
    showCitations: bool)

  /** Lower-casing the essay-type labels keeps them apart, so the summary line
      still names the essay type chosen. */
  lemma LoweredEssayTypesDistinct(a: EssayType, b: EssayType)
    requires LowerAscii(a.Label()) == LowerAscii(b.Label())
    ensures a == b
  {
    assert |a.Label()| == |b.Label()|;
    assert LowerChar(a.Label()[0]) == LowerChar(b.Label()[0]);
  }
}
