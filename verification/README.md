# Call-center quality dashboard: a Dafny model

This project models the deterministic core of a call-center quality-monitoring
web application (Neoenergia Brasília, protocol v1.2025). It covers:

- The **rubric**: 27 criteria in six categories, worth 100 points in total.
- The **scoring policy** the rubric page and the evaluator instructions state:
  binary credit per item, five auto-conforme items, and a severe failure (NCG)
  that zeroes the total.
- The **dashboard statistics**: verdict counts, the rounded average, the
  compliance band, the volume histogram and the verdict percentages.
- The **order-preserving group-by**, written as a `reduce` into a plain
  object. The rubric page and the analysis screen both use it.
- The **request** built for the external evaluator: the rubric lines, the
  content parts, and the verdict enumeration of the response schema.
- The **analysis screen**: the analyze step (guard, request, success and
  failure), clearing the form, and the display grouping of a result.
- The **application shell**: initial state, prepend-on-save, the view for
  each tab, and loading from storage.

The model is functional. Every entity is an immutable datatype (`types.dfy`)
and every operation is a pure function. The external evaluator, the file
reader and browser storage become parameters: an outcome value or a parse
function. Scores are whole numbers. `Math.round` of a quotient is modelled on
the exact quotient, as the nearest integer with halves rounded up
(`Dashboard.RoundDiv`). The browser divides in binary floating point, which
can differ at exact halves; see "Left out".

Modules follow the source layout:

| file | module | source |
|---|---|---|
| types.dfy | Types | types.ts |
| grouping.dfy | Grouping | the `reduce`-into-object pattern |
| catalog.dfy | Catalog | constants.tsx |
| text.dfy | Text | JavaScript `trim`, `join`, `split`, and number-to-text |
| scoring.dfy | Scoring | the rules in services/geminiService.ts and components/ScorecardManager.tsx |
| prompt.dfy | Prompt | services/geminiService.ts |
| dashboard.dfy | Dashboard | components/Dashboard.tsx |
| analysis.dfy | AnalysisTool | components/AnalysisTool.tsx |
| app.dfy | App | App.tsx |

The rubric is written as its six commented sections, concatenated in order.
Each numbered entry is built by `Catalog.Numbered` from its id and title,
because its name is the id, a space and the title. The strings that result
are exactly those of constants.tsx.

The dashboard total is the number of interactions, including those without
a result, and the average divides by that number, counting a missing score
as 0 (components/Dashboard.tsx:13-19).

Some definitions carry no contract of their own and have no row below; the
rows of the lemmas and functions built on them state their properties:

- `Grouping.GroupBy`, the object-building reduce: `Grouping.GroupByIsSelect`,
  `GroupByKeys`, `GroupByMembers`, `GroupByPermutes` and `GroupByRuns`.
- `Dashboard.Tally`, the per-date counting loop: `Dashboard.TallyIsGroupSizes`
  and `Dashboard.Volume`.
- `Dashboard.ScoreSum`, the reduce over scores, and `Dashboard.ScoreOf`,
  `curr.result?.totalScore || 0`: `Dashboard.AverageScore`.
- `Dashboard.Window`, `interactions.slice(0, 7)`: `Dashboard.Volume`.
- `Text.Join`, `join('\n')`, and `Text.IntToString`, the weight rendered in
  the rubric line: `Text.SplitJoin`, `Text.ParseNatToString` and
  `Prompt.ScorecardTextLines`.
- `Prompt.ScorecardLine` and `Prompt.ScorecardText`, the rubric block:
  `Prompt.ScorecardLines` and `Prompt.ScorecardTextLines`.
- `AnalysisTool.MissingInput`, the guard: `AnalysisTool.HandleAnalyze`.
- `Scoring.ExpectedTotal` and `Scoring.PolicyConsistent`, the reference
  definitions of the scoring policy: `Scoring.ExpectedTotalBounds`,
  `Scoring.PolicyConsistentTotals`, `Scoring.SchemaSumIsExpectedTotal` and
  `Scoring.MissingVerdictsInconsistent`.

## Model

| member | source | states |
|---|---|---|
| Types.ParseStatus | types.ts:2 | A label reads back as a verdict exactly when it is one of the three verdict labels, and then it reads back as the verdict that prints as that label |
| Types.StatusLabelRoundTrip | types.ts:2 | Every verdict printed and read back is the same verdict |
| Grouping.GroupByIsSelect | components/ScorecardManager.tsx:6-10 | The object-building reduce has one entry per distinct key, in first-seen order. Each entry holds exactly the items with that key, in item order |
| Grouping.GroupByKeys | components/ScorecardManager.tsx:6-10 | The group keys are pairwise distinct, and a key heads a group exactly when some item has it |
| Grouping.GroupByMembers | components/ScorecardManager.tsx:7-8 | No group is empty, and every item filed under key k has key k |
| Grouping.GroupByPermutes | components/ScorecardManager.tsx:7-8 | Every item lands in exactly one group, once: the flattened groups are a permutation of the items |
| Grouping.ContiguousGroupsFlatten | components/ScorecardManager.tsx:6-10 | When items that share a key are adjacent, reading the groups in key order gives back the items exactly |
| Grouping.GroupByRuns | components/ScorecardManager.tsx:6-10 | Grouping a concatenation of non-empty runs with distinct keys gives back the runs, and the key sequence is contiguous |
| Grouping.FirstSeenFacts | components/ScorecardManager.tsx:7 | The first-seen key order has no repeats and holds exactly the keys that occur |
| Catalog.Find | components/AnalysisTool.tsx:69 | An array `find` by id: nothing exactly when no entry has the id; otherwise the first entry with that id |
| Catalog.CatalogSize | constants.tsx:4-43 | The rubric has 27 entries and is the six sections in order |
| Catalog.WeightsPositive | constants.tsx:6-42 | Every weight is a positive whole number |
| Catalog.SectionSubtotals | constants.tsx:5-42 | The sections' weights add up to 14, 14, 35, 20, 8 and 9, as their headings say |
| Catalog.TotalIsHundred | constants.tsx:6-42 | All weights add up to 100, the total the rubric page displays |
| Catalog.IdsDistinct | constants.tsx:6-42 | The ids are pairwise distinct |
| Catalog.FindById | constants.tsx:6-42 | Looking up any entry's id finds that very entry, so a lookup finds at most one criterion |
| Catalog.FindUnique | constants.tsx:6-42 | In a list with distinct ids, the lookup of the i-th id returns the i-th entry |
| Catalog.NamesStartWithIds | constants.tsx:6-39 | Every name except the bonus's begins with its id and a space |
| Catalog.SectionsShape | constants.tsx:5-42 | Each section is non-empty. Every entry of a section carries the section's category and a positive weight, and its id begins with the section's digit (the bonus's with `B`) |
| Catalog.CategoriesNonEmpty | constants.tsx:6-42 | No entry has an empty category |
| Catalog.CatalogGroups | components/ScorecardManager.tsx:6-10 | Grouping the rubric by category gives its six sections in the order 1, 2, 4, 5, 6, Sistema. Entries of one category are adjacent, and the groups read in order are the rubric itself |
| Catalog.CategorySubtotals | constants.tsx:5-42 | The entries filed under each category weigh 14, 14, 35, 20, 8 and 9 |
| Text.Trim | services/geminiService.ts:77 | `trim` leaves no whitespace or line terminator at either end, and is empty exactly when the text is blank |
| Text.TrimIsSlice | services/geminiService.ts:77 | The trimmed text is a slice of the original, and everything outside the slice is whitespace |
| Text.SplitJoin | services/geminiService.ts:14-16 | Splitting lines joined by a separator they do not contain gives back the lines, so the join adds no trailing separator |
| Text.JoinSplit | services/geminiService.ts:14-16 | The inverse direction of `Text.SplitJoin`, which is what `Split` exists for: joining the pieces of a split gives back the text, so `Split` loses nothing |
| Text.ParseNatToString | services/geminiService.ts:15 | The decimal rendering of a weight reads back as that weight |
| Prompt.ScorecardLines | services/geminiService.ts:14-15 | One line per rubric entry, in rubric order, each formatted `- [id] name: description (Valor: weight pts)` |
| Prompt.ScorecardTextLines | services/geminiService.ts:14-16 | For a rubric whose text fields contain no line break, the rubric block splits into exactly its lines: one per entry, in order, no trailing newline |
| Prompt.ScorecardLineSingleLine | services/geminiService.ts:15 | A rubric line contains no line break when the entry's fields contain none |
| Prompt.Parts | services/geminiService.ts:75-77 | The audio part comes first exactly when audio is given. The text part, `Transcrição: ` plus the untrimmed transcript, is present exactly when the transcript is not blank, and it is last |
| Prompt.SchemaEnumMatchesStatus | services/geminiService.ts:88 | The schema's verdict enumeration is exactly the three verdict labels, in declaration order, and each reads back as a verdict |
| Scoring.EarnedPoints | components/ScorecardManager.tsx:76 | Credit is binary: the full weight or nothing. An auto-conforme item always gets the full weight; any other item gets it exactly when marked CONFORME |
| Scoring.AutoListMatchesCatalog | services/geminiService.ts:26-31 | The auto-conforme ids are BONUS, 2.3, 2.4, 4.4 and 4.7. Each names a rubric item whose weight is the points the instructions quote (9, 3, 5, 3, 3), 23 in all |
| Scoring.GuaranteedPoints | services/geminiService.ts:26-31 | The auto-conforme items of the rubric are worth 23 points |
| Scoring.ExpectedTotalOverBounds | services/geminiService.ts:33-38 | For any rubric with non-negative weights, the reference total is 0 with NCG, and otherwise lies between the guaranteed points and the full weight |
| Scoring.AllConformeEarnsAll | services/geminiService.ts:33-35 | When every item is marked CONFORME and there is no NCG, the reference total is the rubric's full weight |
| Scoring.ExpectedTotalBounds | services/geminiService.ts:37-38 | Under the stated rules a monitoring scores 0 with NCG and otherwise 23 to 100 points. It scores 100 when every item is CONFORME |
| Scoring.PolicyConsistentTotals | components/ScorecardManager.tsx:82 | A result that follows the policy totals 0 when NCG is detected, and otherwise 23 to 100 |
| Scoring.NcgWithPointsIsInconsistent | components/ScorecardManager.tsx:82 | A result reporting NCG with a non-zero total does not follow the policy |
| Scoring.SchemaSumIsExpectedTotal | services/geminiService.ts:89 | The schema describes the total as the sum of points earned. For verdicts that name each rubric item once, in any order, and follow the rules, that sum is the reference total without NCG |
| Scoring.SchemaSumOver | services/geminiService.ts:89 | The same agreement for any rubric with distinct ids |
| Scoring.MissingVerdictsInconsistent | services/geminiService.ts:23 | The instructions ask for a verdict on each item, so a result whose verdicts do not number 27 does not follow the policy, whatever its total |
| Scoring.FindScore | services/geminiService.ts:33-35 | The lookup of an item's verdict finds nothing exactly when no verdict names the item; otherwise it finds a verdict for that item |
| Dashboard.RoundDiv | components/Dashboard.tsx:19 | `Math.round(a / b)` is the integer q with q - 1/2 <= a/b < q + 1/2 |
| Dashboard.RoundDivBounds | components/Dashboard.tsx:38-40 | A quotient between two whole numbers rounds to a value between them |
| Dashboard.CountStatus | components/Dashboard.tsx:14-16 | A verdict count never exceeds the list length, and is zero exactly when no record has that verdict |
| Dashboard.CountsPartition | components/Dashboard.tsx:13-16 | Every record is counted under exactly one verdict or as pending |
| Dashboard.CountsBound | components/Dashboard.tsx:13-16 | The three verdict counts add up to at most the total, and to exactly the total when every record has a result |
| Dashboard.AverageScore | components/Dashboard.tsx:18-20 | The average is 0 for no records. Otherwise it is the mean score (missing results count 0) rounded to the nearest integer, halves up, and it lies in 0..100 when every stored score does |
| Dashboard.LevelOf | components/Dashboard.tsx:22 | ALTO exactly when avg >= 90, MÉDIO exactly when 70 <= avg < 90, and BAIXO exactly when avg < 70 |
| Dashboard.ColorOf | components/Dashboard.tsx:23 | The band colour follows the same thresholds, each colour exactly on its band |
| Dashboard.TallyIsGroupSizes | components/Dashboard.tsx:26-31 | The per-date counting loop yields, for each group of the reduce, its key and its size |
| Dashboard.Volume | components/Dashboard.tsx:26-31 | Only the first seven records are counted. There is one bucket per distinct date, in first-seen order, each counting that date's records and none empty. The buckets count the whole window once, and there are none exactly when the list is empty |
| Dashboard.FinalVolume | components/Dashboard.tsx:33-35 | The chart data is never empty. It is the single `-` bucket with count 0 exactly when there are no records; otherwise it is the histogram |
| Dashboard.Percent | components/Dashboard.tsx:37-41 | A percentage is 100·count/total rounded to the nearest integer, halves up. It lies in 0..100 and is 0 when there are no records |
| Dashboard.ComplianceData | components/Dashboard.tsx:37-41 | Three slices, CONFORME, NÃO CONFORME and NCG in that order. Each value is that count's rounded percentage of the total, in 0..100, and all are 0 when there are no records |
| Dashboard.PercentagesNeedNotSumToHundred | components/Dashboard.tsx:38-40 | One record of each verdict shows 33% three times, which adds up to 99 |
| Dashboard.ComputeStats | components/Dashboard.tsx:12-44 | The total is the list length. The counts obey the partition bound. The band, its printed label (ALTO, MÉDIO or BAIXO) and the colour come from the average. The chart data is never empty, and the three percentages lie in 0..100 and are 0 for an empty list |
| Dashboard.EmptyDashboard | components/Dashboard.tsx:12-44 | An empty list shows zero counts, average 0, the BAIXO band, the placeholder bucket and 0% everywhere |
| AnalysisTool.AudioMime | components/AnalysisTool.tsx:54 | The audio's MIME type is the file's type, or `audio/mpeg` when that is empty |
| AnalysisTool.AgentOrDefault | components/AnalysisTool.tsx:59 | The saved agent name is the typed name, or `Operador Não Identificado` only when it is empty |
| AnalysisTool.HandleAnalyze | components/AnalysisTool.tsx:44-66 | With a blank transcript and no audio, the step sets the missing-input message and changes nothing else. Otherwise the busy flag ends false. A request goes out unless the file cannot be read. On a reply, the result is shown. It is saved exactly once, with the typed transcript and no message, unless the save handler throws. A save handler that throws (AnalysisTool.tsx:59 inside the try) leaves the reply on screen with the generic message and nothing saved. A failure before the reply sets the generic message, keeps the previous result and saves nothing. The form inputs are never changed |
| AnalysisTool.RequestHasParts | services/geminiService.ts:75-77 | Whenever the guard lets a request through, its content parts are not empty |
| AnalysisTool.HandleClear | components/AnalysisTool.tsx:31-42 | Clearing empties the transcript, names, company, audio, result and message, and leaves the busy flag alone |
| AnalysisTool.ClearThenAnalyze | components/AnalysisTool.tsx:31-48 | Right after clearing, analyzing is refused with the missing-input message, whatever the reader and the evaluator would do |
| AnalysisTool.CategoryIn | components/AnalysisTool.tsx:69-70 | An id the rubric does not list is filed under `Outros`; a listed id whose entry has a category is filed under that category |
| AnalysisTool.Annotate | components/AnalysisTool.tsx:72 | The displayed item keeps the score. It carries a name exactly when the id is in the rubric, and that name belongs to a rubric entry with the id |
| AnalysisTool.AnnotateNamesEntry | components/AnalysisTool.tsx:69-72 | A score for a rubric entry's id is shown with that entry's name |
| AnalysisTool.GroupedCriteria | components/AnalysisTool.tsx:68-74 | There are groups exactly when a result is shown |
| AnalysisTool.GroupedCriteriaFacts | components/AnalysisTool.tsx:68-74 | One group per category in order of first appearance among the scores. Each group holds that category's scores in the result's order, no group is empty, and no score is lost or repeated |
| AnalysisTool.ScorePlacement | components/AnalysisTool.tsx:69-72 | A score whose id the rubric lists sits under the group of that entry's category; a score for an unknown id sits under `Outros` |
| AnalysisTool.CategoryForKnown | components/AnalysisTool.tsx:69-70 | Every rubric entry's id is filed under the entry's own category |
| App.InitialAppState | App.tsx:11-12 | The application starts on the dashboard tab with no interactions |
| App.SaveInteraction | App.tsx:31-40 | A save puts one new record in front, carrying the given id, date, agent, transcript and result. The old records follow unchanged and in order |
| App.SaveCounts | App.tsx:39 | After a save the dashboard total grows by one, the saved verdict's count grows by one, and the other counts stay the same |
| App.RenderContent | App.tsx:42-55 | `analyze`, `history` and `scorecard` each show their own view; every other tab value shows the dashboard |
| App.Load | App.tsx:15-24 | Nothing stored, empty text, or text that cannot be read leaves the list unchanged. Readable text replaces it |
| App.ReloadRestores | App.tsx:15-29 | Stored text that reads back as a list restores that list on start |
| App.ApplySave | components/AnalysisTool.tsx:59 | The list changes only when the analyze step stored a record (its save handler returned), and then grows by one |
| App.AnalyzeThenSave | App.tsx:31-40 | A successful analysis whose save does not throw adds exactly one record in front, with the evaluator's result. Every other outcome leaves the list alone, including a save that throws before `setInteractions` |

## Left out

- The evaluator call itself (services/geminiService.ts:12, 79-113). It is a
  network service; its answer is a parameter, either a complete result with
  every field present or a failure.
- Replies that lack fields. `JSON.parse(response.text || "{}")`
  (services/geminiService.ts:115) turns an empty reply text into `{}`, and
  the success path shows and saves it (components/AnalysisTool.tsx:57-59).
  The next render then reads `criteriaScores` of `undefined`, which throws
  (components/AnalysisTool.tsx:68). On the dashboard such a record has a
  result but counts under no verdict. `AnalysisTool.Reply` carries only
  complete `AnalysisResult` values. So `AnalysisTool.GroupedCriteria`,
  `Dashboard.CountsBound` and `App.SaveCounts` hold for well-formed replies
  only.
- The reply is cast from JSON without validation
  (services/geminiService.ts:115). The code does not enforce the scoring
  policy or zero the total on NCG. The policy is stated as predicates and
  reference totals (`Scoring.PolicyConsistent`, `Scoring.ExpectedTotal`),
  not as a property of the code.
- Verdict strings outside the three labels, and non-integer or NaN scores,
  which an unvalidated reply could carry. Verdicts are a three-valued
  datatype and scores are integers.
- The fixed prose of the evaluator instructions, including the reconnection
  deadlines (services/geminiService.ts:18-73, components/ScorecardManager.tsx:47-65).
  It is instruction text that no code computes with. Only the rubric block
  and the scoring rules it states are modelled.
- Prompt.ScorecardTextLines: proved for any rubric whose ids, names and
  descriptions contain no line break. That the 27 literal entries contain
  none is not proved, because scanning the literal text is beyond the
  solver's budget.
- Browser I/O:
  - `localStorage` and JSON (de)serialisation (App.tsx:16-29); the stored
    text and the parser are parameters of `App.Load`, and writing back on
    every change is not modelled;
  - `crypto.randomUUID` and the locale date (App.tsx:33-35). The id and
    date are parameters of `App.SaveInteraction`. Whether `randomUUID`
    throws, as it does outside a secure context, is the `saveThrows`
    parameter of `AnalysisTool.HandleAnalyze` and `App.AnalyzeThenSave`;
  - `FileReader` and base64 (components/AnalysisTool.tsx:22-29), whose
    outcome is a parameter of `AnalysisTool.HandleAnalyze`;
  - the clipboard and `alert`.
- A stored text that parses to something other than a list of interactions.
  `App.Load`'s parser returns a list or nothing.
- JSX, styling, the charts, the sidebar and the history page. The history
  page's only logic is display fallbacks.
- Floating-point division in `Math.round` (components/Dashboard.tsx:19,
  38-40). Division is exact here, so results at exact halves can differ
  from the browser's. For 23 CONFORME records out of 40, the browser
  computes `(23 / 40) * 100` as 57.49999999999999 and shows 57, while
  `Dashboard.Percent(23, 40)` is 58.
- Integer-like object keys. JavaScript lists keys that look like array
  indices before all others. The model keeps every key in first-seen
  order, which matches the source for dates and category names.
- Asynchrony. `AnalysisTool.HandleAnalyze` is one atomic step; the
  intermediate busy state and double submission (prevented only by the
  disabled button, components/AnalysisTool.tsx:148) are not modelled.
