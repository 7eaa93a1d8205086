# One Click Insight: a Dafny model of the analysis core

One Click Insight is a small Flask service. A user uploads a CSV or Excel
table to `/analyze`. The service summarises the table and asks a language
model for five business insights, each written as `Title:`, `Explanation:`,
`Chart:`, `Columns:` and `Tip:` lines. It parses the reply into insight
records and draws a chart for the first one. This project models the three
decision-making parts of `app.py` and proves properties of them:

- `parse_detailed_insights`, the line parser, is modelled in `parser.dfy`.
  It rests on the Python string operations it uses, in `text.dfy`:
  `strip`, `split`, `split(":", 1)[-1]`, `replace("**", "")`,
  `lower().startswith` and `endswith`.
- A second account of the parser's result is given block by block in
  `reference.dfy`. The proof that the fold computes it is there too, and
  `laws.dfy` draws the counting consequences from it.
- The reply format the prompt asks for is modelled as a serialiser in
  `format.dfy`, with the round trip through the parser. `scenarios.dfy`
  holds worked replies.
- The validation and chart-kind selection of `plot_chart` is in `chart.dfy`.
- The dispatch of the `analyze` handler (upload check, loader choice, empty
  parse, first insight charted) is in `analyze.dfy`.
- `wrappers.dfy` holds `Option` and `Result`.

An insight is a record of five optional fields (`Insights.Insight`). A
missing key of the Python dict is `None`.

Not every returned insight has a non-empty title. A trigger line emits the
previous dict whenever it is non-empty (`app.py:47`). Only the dict still
open at the end is checked for a non-empty title (`app.py:61-62`). The model
keeps both behaviours:

- Field lines before the first trigger yield a record without a title key
  (`ParseScenarios.FieldsBeforeFirstTitle`).
- A `Title:` line with nothing after it yields a record with an empty title
  when another trigger follows (`ParseScenarios.EmptyTitleKeptBeforeAnother`).
- `Insights.ParseLines` states what does hold: every record is a non-empty
  dict, and every record after the first has a title key.

## Model

| member | source | states |
|---|---|---|
| Text.Strip | app.py:41-42 | The result has no whitespace at either end, is empty exactly when the input is all whitespace, and is no longer than the input |
| Text.StripDecompose | app.py:41-42 | Every string is its stripped form with a run of whitespace before it and a run after it |
| Text.StripOfTrimmed | app.py:42 | Stripping a string with no whitespace at either end leaves it unchanged, so stripping twice is stripping once |
| Text.Split | app.py:41 | `split` on one character returns at least one piece, and no piece contains the separator |
| Text.JoinSplit | app.py:41 | Joining the pieces of `s.split(sep)` with `sep` rebuilds `s` |
| Text.SplitJoin | app.py:41 | Splitting a join of one or more separator-free parts gives the parts back |
| Text.AfterFirst | app.py:52 | `split(c, 1)[-1]` is the whole string when it has no `c`; otherwise the string is a `c`-free prefix, then `c`, then the result |
| Text.AfterFirstOf | app.py:48 | After a `c`-free prefix and a `c`, the text that follows is what `split(c, 1)[-1]` returns |
| Text.RemoveDoubleStars | app.py:48 | `replace("**", "")` leaves no `**`, removes only `*` characters, and keeps a first character that is not `*`; the three lemmas below fix its value on every input |
| Text.FirstPair | app.py:48 | Every string containing `**` is a `**`-free prefix not ending in `*`, then the leftmost `**`, then the rest |
| Text.RemoveDoubleStarsAtFirstPair | app.py:48 | The replacement keeps that prefix, drops the leftmost pair and continues on the rest, scanning left to right without overlap |
| Text.SingleStarKept | app.py:48 | A lone `*` survives: `x**y*z` becomes `xy*z` |
| Text.RemoveDoubleStarsOfFree | app.py:48 | Text without `**` is unchanged by the replacement |
| Text.RemoveDoubleStarsIdempotent | app.py:48 | Applying the replacement twice is the same as applying it once |
| Insights.TitleOf | app.py:48 | A trigger line's title has no whitespace at either end and contains no `**`; its value is fixed by the two lemmas below |
| Insights.TitleOfFree | app.py:48 | On a line without `**` the title is the stripped text after the first colon, or the whole stripped line when there is none |
| Insights.TitleDropsPair | app.py:48 | Removing the leftmost `**` from a line does not change its title, so the title is that of the line with every pair removed |
| Insights.ValueOf | app.py:52 | A field value has no whitespace at either end |
| Insights.NonBlank | app.py:57 | The kept column names are non-empty and stripped; none are kept from all-whitespace pieces; there are no more of them than pieces |
| Insights.NonBlankSingle | app.py:57 | One piece gives its stripped form when that is non-empty, and nothing otherwise |
| Insights.NonBlankAppend | app.py:57 | The names kept from `a + b` are those kept from `a` followed by those kept from `b`, so the comprehension keeps the pieces' order |
| Insights.ColumnsOf | app.py:56-57 | Every column name is non-empty and stripped; an all-whitespace value gives no names; with the two lemmas above, the names are the non-blank stripped pieces in their order |
| Insights.Classify | app.py:44-59 | A line is classified as a trigger exactly when it passes the trigger test, and then carries the line's title; an empty line does nothing |
| Insights.Step | app.py:42-59 | A trigger appends the open dict when non-empty and opens `{"title": t}`; any other line emits nothing and keeps the title; a blank line changes nothing |
| Insights.Apply | app.py:47-59 | A non-trigger line emits nothing and leaves the title; an ignored line changes nothing |
| Insights.ParseLines | app.py:41-63 | Every returned record is a non-empty dict, and every record after the first has a title key |
| Insights.Parse | app.py:37-63 | The same shape for a whole reply |
| Insights.RunKeepsShape | app.py:41-59 | The loop preserves the invariant behind that shape |
| Insights.RunAppend | app.py:41-59 | Running over `a + b` is running over `a`, then over `b` |
| Insights.RunExtends | app.py:47 | Records already emitted are never dropped, changed or reordered by later lines |
| Insights.RunBlank | app.py:42-59 | Lines made only of whitespace leave the parser state unchanged |
| Insights.StepPadded | app.py:42 | A line with whitespace added around it acts like the line itself |
| Insights.ParseIsFoldOfLines | app.py:41 | Stripping the whole reply before splitting makes no difference to the result |
| Insights.TitleAfterColon | app.py:48 | The title of a `**`-free line with a colon is the stripped text after the first colon |
| Insights.TitleWithoutColon | app.py:48 | The title of a `**`-free line without a colon is the whole line, stripped |
| Text.ClosingPairRemoved | app.py:48 | A closing `**` after `**`-free text is removed whole, even after a single `*`: `a***` gives `a*` |
| Insights.BoldTitle | app.py:44-48 | `**t**` is a trigger, and its title is `t` stripped when `t` has no colon and no `**`, a trailing single `*` included |
| ParserReference.LatestNone | app.py:51-59 | A field of a block stays absent exactly when no line of the block sets it |
| ParserReference.LatestSome | app.py:51-59 | A field that is set holds the value of a line that sets it, and no later line of the block sets it: the last assignment wins |
| ParserReference.Blocks | app.py:44-59 | Cutting the classified lines at each trigger gives one record per trigger line, and each of them has a title key |
| ParserReference.RunIsFold | app.py:41-42 | The loop over raw lines is the fold over their classifications |
| ParserReference.FoldBlocks | app.py:44-59 | From a trigger onwards, the fold emits the block records in order and leaves the last one open |
| ParserReference.FoldIsReference | app.py:41-63 | Folding the classified lines and applying the final check gives the block-wise reference result: an optional preamble record, one record per block, and the last block only when its title is non-empty |
| ParserReference.ParseLinesIsReference | app.py:41-63 | Parsing split lines gives the reference result of their classifications |
| InsightLaws.ReferenceCount | app.py:44-62 | With no trigger line the result is empty; with `t` trigger lines it holds between `t - 1` and `t + 1` records |
| InsightLaws.ParseLinesCount | app.py:41-63 | The same bounds for the parse of split lines |
| InsightLaws.NoTriggerNoInsights | app.py:41-63 | A reply none of whose stripped lines passes the trigger test yields no insight |
| InsightFormat.KindOfTitleLine | app.py:44-49 | `Title: t` is a trigger whose title is `t`, for a non-empty stripped `t` without `**` |
| InsightFormat.KindOfExplanationLine | app.py:51-52 | `Explanation: v` sets the explanation to `v` for a stripped `v` |
| InsightFormat.KindOfChartLine | app.py:53-54 | `Chart: v` sets the chart hint to `v` for a stripped `v` |
| InsightFormat.KindOfColumnsValue | app.py:55-57 | `Columns: v` sets the columns to the non-blank stripped pieces of `v` split on commas |
| InsightFormat.KindOfColumnsLine | app.py:55-57 | `Columns:` followed by clean names joined with `, ` sets the columns to exactly those names |
| InsightFormat.KindOfTipLine | app.py:58-59 | `Tip: v` sets the tip to `v` for a stripped `v` |
| InsightFormat.BoldKeyTitle | app.py:44-49 | `**Title:** t` is a trigger whose title is `t`, for a stripped `t` without `**` |
| InsightFormat.ColumnNamesRoundTrip | app.py:56-57 | Splitting a `, `-join of clean names on commas and keeping the non-blank stripped pieces gives the names back, the empty list included |
| InsightFormat.LexLines | app.py:44-59 | The lines written for one record classify as its trigger followed by one field line per present field |
| InsightFormat.FoldKinds | app.py:44-59 | Those classifications close the open record and leave the written record open |
| InsightFormat.ParseLinesSerialise | app.py:41-63 | Parsing the serialised lines of well-formed records gives exactly those records back |
| InsightFormat.ParseRender | app.py:37-63 | Parsing a reply written in the requested format gives exactly the records it was written from |
| ParseScenarios.RevenueReply | app.py:37-63 | A five-line reply in the requested format parses to its one complete insight, with columns `Region` and `Sales` |
| ParseScenarios.BackToBackTitles | app.py:44-49 | Two consecutive `Title:` lines give two records that hold only their titles |
| ParseScenarios.EmptyReply | app.py:41-63 | An empty reply yields no insight |
| ParseScenarios.SingleTrigger | app.py:44-62 | A lone trigger line yields one title-only record, or nothing when its title is empty |
| ParseScenarios.NumberedTitle | app.py:46-49 | `1. Revenue` is a trigger because of the digit-and-dot rule, and it keeps its whole text as the title |
| ParseScenarios.EmptyTitleDropped | app.py:61-62 | A reply that is only `Title:` yields nothing, because the final record needs a non-empty title |
| ParseScenarios.EmptyTitleKeptBeforeAnother | app.py:47 | A `Title:` line with an empty title is still emitted when another trigger follows it |
| ParseScenarios.FieldsBeforeFirstTitle | app.py:47 | A field line before the first trigger produces a title-less record ahead of the titled one |
| Charts.SelectChart | app.py:67-90 | The chart fails with `Missing or invalid columns` exactly when the column list is empty or names an absent column. Otherwise it is drawn on the first two names, or on the first alone when there is no non-empty second, fits their dtypes, and is titled by its kind |
| Charts.PlotChart | app.py:65-98 | Exactly one of image and error is set. Invalid columns give the validation message. An image exists exactly when selection and rendering both succeed, and it is the rendered one; a rendering failure's message becomes the error |
| Charts.FitsUnique | app.py:75-90 | At most one chart kind fits the dtypes of given columns, so the branches never overlap |
| Charts.SelectionIsTheFit | app.py:75-90 | Any chart on the leading columns that fits their dtypes is the one selected, titled by its kind |
| Charts.ChartHintIgnored | app.py:65-90 | The insight's `chart` hint plays no part in the selection |
| Charts.OnlyLeadingColumnsDecide | app.py:71-90 | Two valid column lists that agree on their leading names get the same chart |
| Charts.MixedGroupsByFirst | app.py:81-83 | One categorical and one numeric column always give mean bars grouped by the first, whichever of the two is numeric |
| Charts.ExtraColumnsOnlyValidated | app.py:67-72 | Names past the second only have to be present in the table; they do not change the chart |
| Charts.NoColumnsNoChart | app.py:67-69 | An insight without columns gets the validation error, whatever rendering would do |
| Analysis.ChooseLoader | app.py:102-113 | A missing or unnamed upload is refused as `No file uploaded`. A `.csv` name picks the CSV reader and a `.xlsx` name the Excel reader. Any other name is refused as `Unsupported file type` |
| Analysis.NotBothSuffixes | app.py:108-111 | No file name ends in both `.csv` and `.xlsx`, so the order of the two tests does not matter |
| Analysis.Analyze | app.py:101-153 | Status 400 exactly when the loader choice fails, with its message. A refusal with status 500 happens exactly when reading the table or summarising it fails, and carries the exception text. A refusal has no other status. When loading succeeds, the table always reaches the model: an unparsable reply is answered with 500 and the raw reply, and otherwise the answer holds all parsed insights and the chart outcome of the first one |
| Analysis.UpperCaseSuffixRefused | app.py:108-113 | `DATA.CSV` is refused, because the suffix test is case-sensitive |
| Analysis.OnlyFirstInsightCharted | app.py:145 | Two replies whose first insights agree get the same chart and error |
| Analysis.TriggerlessReplyUnparsed | app.py:34-35 | A reply without any trigger line, such as the error text returned when the model call fails, gets status 500 together with the reply |

## Left out

- The Flask routing, CORS setup and JSON encoding are not modelled. A `Response` value stands for the JSON body and its status.
- `query_llama3` is not modelled: the HTTP request, the API key and the model settings are left out. It becomes the `ask` parameter of `Analysis.Analyze`, which maps the loaded table to the reply text. Its error-string fallback is covered by `Analysis.TriggerlessReplyUnparsed`.
- The pandas readers are not modelled. They become the `load` parameter, and a read error becomes its failure message. A table is reduced to its string-labelled columns and whether each has dtype `object`. A column whose label is not a string, such as the integer label `pd.read_excel` gives a numeric header cell like 2021, is left out of the table. That matches the source: the reply's string `"2021"` is never in `df.columns` (`app.py:68`), so naming such a column always gives "Missing or invalid columns". Duplicate column names cannot be expressed.
- The text of the `describe` summary and of the prompt is not modelled. It only shapes what `ask` is given. The failure of `describe` on a table without columns is a `load` failure, so it is answered with status 500 and the exception text.
- Plotly figure building, PNG export and base64 encoding are not modelled. Together they become the `render` parameter of `Charts.PlotChart`. An exception anywhere in chart construction is a `render` failure.
- The `if fig:` test and its fall-through are left out. When the test fails the function returns a bare `None`, and unpacking it into `chart, error` at `app.py:145` would raise and give a 500. This cannot happen, because every branch of the chart selection assigns a figure.
- Analysis.Analyze: the outer `except` is modelled for reading the table and `describe` (`app.py:107-115`). Both are `load`, and a reader that returns a table pandas cannot describe for some other reason is also a `load` failure. The model also assumes two later steps succeed. First, the reply is a string: `query_llama3` returns the JSON `content` field as it is (`app.py:33`), so a null there would make `text.strip()` at `app.py:41` raise. Second, printing the reply at `app.py:139` succeeds, although a standard output that cannot encode its emoji would raise. In the source either failure is answered with status 500 and the exception text. The model has no such outcome, so its promise that a successful load ends in an unparsed-reply 500 or an answer holds only under these two assumptions. `plot_chart` catches its own exceptions, and `query_llama3` turns a failed request into an error string.
- The output of `print` and `traceback.print_exc()` is left out. Only the print's possible failure matters, and the Analysis.Analyze line above covers it.
- Digits are ASCII only in `Text.IsDigit`. Python's `str.isdigit` also accepts other Unicode digits, such as superscripts, so a line like `². x` is a trigger in `app.py` but not in the model.
- The `__main__` block and the server start-up are left out.
