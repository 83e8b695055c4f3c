# Prompt My Papers: a Dafny model of the prompt builder

Prompt My Papers is a small Streamlit app. A user picks essay parameters in a
sidebar, presses "Generate Prompt", and gets a ChatGPT prompt to copy, plus a
`.txt` download. All of the app's logic sits in the button handler of
`app.py`, and this project models it:

- **Topic check.** Generation stops when `topic.strip()` is empty (app.py:67-69).
- **Prompt lines.** There are nine fixed lines: the role, the summary (word
  count, lower-cased essay type, academic level), the quoted topic, the
  style, the deadline, a blank line, "Please provide:", item 1 and item 2.
  After them come up to three optional items, numbered by a counter that
  starts at 3 and goes up before each emitted item. Then comes a blank line
  and the closing sentence (app.py:72-96).
- **Join.** The lines are joined with `"\n"` (app.py:98).
- **Download name.** `PromptMyPapers_` + `date.isoformat()` + `.txt` (app.py:108).

Modules:

- `Wrappers`: `Option` and `Result`.
- `Strings`: the Python string built-ins the handler uses. These are
  `str.strip`, with the whitespace set of `str.isspace`; `str.lower` on
  ASCII text; `str(int)`; zero-padded decimal; `sep.join`; and the readers
  that undo them (decimal value, split on a one-character separator).
- `Dates`: `datetime.date` values and `isoformat`.
- `Essay`: the request the sidebar collects. The three select boxes become
  closed datatypes whose `Label` is the option text.
- `Prompt`: the handler itself.
  - Each prompt line has its own function. The numbered items are read
    back through `ParseItem`, the reader of `f"{n}. {text}"` lines.
  - `PromptLines` is the specification function of the whole list.
  - `AppendOptionalItems` and `BuildPromptLines` are methods with the list
    and the counter as local state, as in the source.
  - `AppendOptionalItems` is proved to append exactly
    `NumberedItems(4, Texts(EnabledSections(req)))` to the lines it is
    given. `BuildPromptLines` is proved to return `PromptLines(req)`.
  - `Render` is the value of one click, and `GeneratePrompt` is the whole
    click: check, build, join, name.
- `PromptProperties`: what every prompt satisfies, stated over
  `PromptLines` and read back through `ParseItem`.

The date is a parameter (`today`), and the model never reads the clock.

### Numbering and the topic

- **Numbering of optional items.** The counter starts at 3 (app.py:84). It
  goes up before each emitted item (app.py:86, 89, 92). So the optional
  items are numbered 4, 5, …, 3+k, and no item is numbered 3.
  `PromptItems` and `AllOptionsNumbers` state this.
- **The topic is stripped only for the check.** `topic.strip()` is used
  only to decide whether to stop (app.py:67). The topic line quotes the
  topic unstripped (app.py:75), surrounding whitespace included.

## Model

| member | source | states |
|---|---|---|
| Strings.Strip | app.py:67 | `s.strip()` is a slice of `s` with only whitespace before and after it, and it neither starts nor ends with whitespace |
| Strings.StripEmptyIffAllWhitespace | app.py:67 | `not topic.strip()` holds exactly when the topic is empty or made only of whitespace |
| Strings.LowerAscii | app.py:74 | `.lower()` keeps the length and maps each character to its lower-case form, so no upper-case ASCII letter remains |
| Essay.LoweredEssayTypesDistinct | app.py:19-30 | lower-casing the seven essay-type option labels keeps them distinct, so the summary still names the type chosen |
| Strings.NatToDecimal | app.py:87 | `str(n)` for `n >= 0` is a non-empty run of decimal digits that starts with `0` only for zero |
| Strings.IntToDecimal | app.py:74 | the f-string `{word_count}` / `{urgency}` text is a minus sign exactly for negative values, followed by canonical decimal digits (no leading zero unless the value is 0) whose value is the magnitude |
| Strings.DecimalValueOfDecimal | app.py:87 | the digits written for a number read back as that number |
| Strings.ZeroPadded | app.py:108 | zero-padded formatting gives `max(width, digits)` decimal digits denoting the same number |
| Dates.IsoFormat | app.py:108 | `isoformat()` is ten characters `YYYY-MM-DD` whose three digit fields denote the year, month and day |
| Dates.IsoFormatRoundTrip | app.py:108 | parsing the ISO text of a valid date gives that date back |
| Dates.IsoFormatInjective | app.py:108 | two valid dates with the same ISO text are the same date |
| Strings.Join | app.py:98 | `"\n".join(lines)` starts with the first line and is as long as the lines together plus one separator between each pair of neighbours |
| Strings.SplitJoin | app.py:98 | splitting `"\n".join(lines)` at newlines gives `lines` back when no line holds a newline |
| Strings.JoinCount | app.py:98 | a join holds the separators inside its parts plus exactly one between each pair of neighbours |
| Strings.PartInJoin | app.py:98 | every line occurs verbatim in the joined text |
| Prompt.IsBlankTopic | app.py:67 | `not topic.strip()` holds exactly when every character of the topic is whitespace |
| Prompt.SummaryLine | app.py:74 | the summary line is not read as a numbered item |
| Prompt.SummaryLineFields | app.py:74 | the summary holds the word count, then the lower-cased essay type, then the academic level, each verbatim at its place in the template |
| Prompt.Quoted | app.py:75 | the quoted topic is the topic, unchanged, between two double quotes |
| Prompt.TopicLine | app.py:75 | the topic line holds the quoted topic right after `**Topic:** ` and is not a numbered item |
| Prompt.StyleLine | app.py:76 | the style line holds the writing style's option text right after `**Writing style:** ` and is not a numbered item |
| Prompt.DeadlineLine | app.py:77 | the deadline line is not read as a numbered item |
| Prompt.DeadlineLineFields | app.py:77 | the deadline line holds the urgency in decimal right after `My deadline is in **` |
| Prompt.FixedItemLines | app.py:80-81 | the two fixed item lines read back as items 1 (the outline) and 2 (the thesis) |
| Prompt.FixedLines | app.py:72-82 | there are nine fixed lines; the second is the summary and the third is the topic line |
| Prompt.NumberedItems | app.py:84-93 | the i-th item line reads `first + i` followed by `. ` and the i-th text; there is one line per text |
| Prompt.NumberedItemsAppend | app.py:86-93 | numbering one more text continues the count where it stopped |
| Prompt.AppendOptionalItems | app.py:84-93 | the counter steps append exactly the lines for the ticked sections, in order, numbered from 4 |
| Prompt.BuildPromptLines | app.py:72-96 | the step-by-step list building produces exactly `PromptLines(req)` |
| Prompt.FileName | app.py:108 | the download name has 15 + 10 + 4 characters, and the date read back out of it is `today` |
| Prompt.GeneratePrompt | app.py:67-108 | the click fails with `EmptyTopic` exactly when the topic is blank after stripping; otherwise it always succeeds with the lines, their newline join and the date-derived name |
| Prompt.ItemLine | app.py:87 | an item line `N. text` reads back as number N and that text |
| PromptProperties.FixedItems | app.py:72-82 | of the nine fixed lines, only the outline (1) and the thesis (2) are numbered items |
| Prompt.EnabledSections | app.py:85-93 | a section is listed if and only if its flag is true; listed sections keep the order introduction, sources, citations; there is one per true flag |
| Prompt.PromptLines | app.py:72-96 | every prompt has 9 + k + 2 lines: the nine fixed lines first, then the item lines for the ticked sections numbered 4 … 3+k in order, then `""` and the closing sentence |
| PromptProperties.PromptItems | app.py:84-93 | the items are 1 and 2 (never renumbered), then one item per ticked section numbered contiguously 4, 5, …, 3+k; no item is numbered 3 |
| PromptProperties.SectionItemIff | app.py:85-93 | an item with a section's text appears if and only if that section's flag is true |
| PromptProperties.PromptItemsSplit | app.py:72-96 | the items of a prompt are 1 and 2 followed by the items of the optional lines; the closing lines add none |
| PromptProperties.SectionNumber | app.py:84-93 | a ticked section is numbered 4 plus the number of ticked sections before it, so an unticked one leaves no gap |
| Prompt.Render | app.py:72-108 | one click renders 9 + k + 2 lines; their newline join contains `"` + topic + `"` verbatim; the download name reads back as the day it was made on |
| PromptProperties.SummaryLineNamesType | app.py:74 | the summary line contains the lower-cased essay type |
| PromptProperties.SummaryNamesEssayType | app.py:74 | the summary line contains the lower-cased essay type |
| PromptProperties.EssayTypeOnlyInSummary | app.py:72-82 | changing the essay type changes no line but the summary |
| PromptProperties.FixedLinesHaveNoNewline | app.py:72-82 | none of the nine fixed lines contains a newline unless the topic does |
| PromptProperties.LinesHaveNoNewline | app.py:72-96 | no prompt line contains a newline unless the topic does |
| PromptProperties.PromptNewlines | app.py:98 | the prompt text has (lines − 1) separator newlines beyond those inside lines: 10 + k for a single-line topic, and splitting it at newlines gives the lines back |
| PromptProperties.FileNameInjective | app.py:108 | different days give different download names |
| PromptProperties.IsoFormatExample | app.py:108 | 5 March 2024 is written `2024-03-05` |
| PromptProperties.FileNameExample | app.py:108 | the download name for 5 March 2024 is `PromptMyPapers_2024-03-05.txt` |
| PromptProperties.AllOptionsNumbers | app.py:84-93 | with all three boxes ticked the items are numbered 1, 2, 4, 5, 6 |
| PromptProperties.NoOptionsItems | app.py:84-93 | with no box ticked the only items are 1 (outline) and 2 (thesis) |

`Prompt.Render` and `Prompt.GeneratePrompt` are Dafny functions and methods
of the request, the flags and the date alone. So rendering is deterministic:
the same inputs give the same lines, text and file name. The file name is
computed from `today` only.

## Left out

- Streamlit calls: page setup, title, sidebar widgets, the button,
  `st.error`/`st.stop`, the text area, the download button and the
  success/info messages (app.py:1-65, 100-118). These are UI calls into a
  foreign library. The error path is modelled as `Failure(EmptyTopic)`.
- Widget bounds: the word count is 250–5000 in steps of 50 (app.py:32-38)
  and the urgency is 1–30 (app.py:50-56). The handler never re-checks them,
  so the model accepts any int.
- `date.today()` (app.py:108, 128): the clock is not read. The date is a
  parameter, and a valid `datetime.date` (years 1–9999) is required.
- The HTML footer and its `strftime("%b %d, %Y")` date (app.py:121-130):
  this is presentation only.
- Strings.LowerAscii: this is `str.lower` for ASCII letters only. Python's
  full Unicode case mapping is not modelled. The strings lower-cased here
  are the essay-type labels, which are ASCII.
- Strings.IsWhitespace: this is the set of characters for which Python's
  `str.isspace` is true, written out as a fixed table. Unicode database
  version differences are not modelled.
- The Markdown markup and typographic characters (`**`, `’`, `–`, the
  non-breaking hyphen) are kept as literal characters. Their rendering is
  not modelled.
