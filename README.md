# Prosper Insights survey dashboard — a Dafny model of its core

The dashboard lets an analyst:
- search a corpus of survey questions by meaning;
- fetch a question's metadata and response data from the Prosper Insights API, for everyone or for a demographic segment;
- chart the data and save the question;
- send saved questions to a language model for insights or an executive report;
- assemble the results into an editable report.

This project models the logic of that core in Dafny and proves properties of it. One module per source file:

- `Search` (`search.dfy`): corpus normalisation (object or array form), the bounded top-k selection behind `argsort(...)[-top_k:][::-1]`, and the `SemanticSearch` class with `LoadQuestions` and `Search`.
- `Prosper` (`prosper.dfy`): the segment string of `create_segment_string` and its parser, the endpoint paths, URL joining and the query parameters `_make_request` sends.
- `Charts` (`charts.dfy`): flattening trend or single-point data into chart rows, and the figure's axes, colour column and title.
- `Reports` (`reports.dfy`): the markdown header pattern, section parsing, and the `ReportBuilder` item list (add, move, remove).
- `App` (`app.dfy`): duplicate-free saving, removal by question text, valid-data filtering, the segment selector, credentials and the login/logout session.
- `Llm` (`llm.dfy`): the text rendering of a saved question and the choice of prompt template.
- `SurveyData`, `Json`, `Strings`, `Seqs`, `Wrappers`: the API response shapes and the Python behaviours shared by the above (`d.get`, `next(...)`, `split`, `join`, `strip`, `str(int)`, comprehensions with `if`).

The methods that loop in the source loop here too, and each is proved equal to a specification function; the properties are lemmas about those functions.

Python behaviours the model writes out:
- `d.get(k)` reads `None` both for a missing key and for a JSON null.
- `x or default` treats the empty string as missing.
- `if end_date:` requires a present, non-empty date.
- `next(gen, "Unknown")` takes the first match.
- `list.pop(i)` is followed by `list.insert(j, x)`.
- `str.split('\n')` always yields at least one piece.
- `re.match(r'^(#{1,6})\s+(.+)$', line)`: the title is what remains after the maximal run of whitespace. When the rest of the line is all whitespace, backtracking leaves its last character as the title.

Where the code departs from the behaviour its documentation describes, the model follows the code:
- **Question ids.** An explicit `question_id` in the array form is kept as the JSON value it is, not converted to a string.
- **Result count.** `search` returns `top_k` results only for `top_k >= 1`. `top_k == 0` returns the whole corpus, because the slice `[-0:]` is `[0:]`. A negative `top_k` drops the lowest scores. `Search.ResultCountCases` states all three cases.
- **Ties.** Equal scores are ordered by whatever `np.argsort` yields. The model fixes no tie order.
- **Plain text.** Content with no header becomes one "Introduction" item at level 0, whatever title and level the caller passed (`Reports.PlainTextIgnoresTitle`). The caller's title and level are used only when parsing keeps no section: blank text (`Reports.BlankContentItem`), or text made only of header lines (`Reports.HeadersOnlyContentItem`).

## Model

| member | source | states |
|---|---|---|
| Search.Kept | semantic_search.py:28-37 | the positions whose entries produce a record are increasing and are exactly the entries carrying `question_text` |
| Search.EntryAtCases | semantic_search.py:28-37 | an entry raises exactly when it is malformed; otherwise it yields a record exactly when it carries `question_text` |
| Search.RecordsOkIff | semantic_search.py:28-37 | normalising the first `n` entries succeeds iff none of them is malformed |
| Search.RecordsFollowKept | semantic_search.py:28-37 | on success, record `j` is the record built from the `j`-th kept position |
| Search.RecordsCharacterised | semantic_search.py:28-37 | normalising succeeds iff no entry is malformed, and then yields one record per kept position, in order |
| Search.NormalizeFails | semantic_search.py:28-39 | "unsupported format" arises exactly for a top level that is neither an object nor an array; any other failure is a malformed entry |
| Search.RecordsNeverUnsupported | semantic_search.py:28-37 | the comprehensions fail only with a malformed-entry error |
| Search.ObjectForm | semantic_search.py:28-32 | object form: the key becomes the id and the text is kept, in iteration order; entries without `question_text` are dropped |
| Search.ArrayForm | semantic_search.py:33-37 | array form: the id is `question_id` if present, else `str` of the original position; order is kept and entries without text are dropped |
| Search.ArrayDefaultIdsDistinct | semantic_search.py:35 | without explicit ids, two loaded records never share an id |
| Search.ArrayWithoutIdsExample | semantic_search.py:33-37 | `[{"question_text": "A"}, {"question_text": "B"}]` loads as ids "0" and "1" in order |
| Search.BareStringsExample | semantic_search.py:36 | an array of strings that do not contain the key loads no records |
| Search.SliceStart | semantic_search.py:66 | Python's slice start stays within the sequence |
| Search.ResultCountCases | semantic_search.py:66 | the slice keeps `min(top_k, n)` indices for `top_k >= 1`, all `n` for 0, and `max(n + top_k, 0)` for negative `top_k` |
| Search.SelectTop | semantic_search.py:66 | returns `count` distinct positions, best first, none of them beaten by a position left out |
| Search.InsertionPoint | semantic_search.py:66 | the place for a new position in a best-first list: every earlier entry scores at least as much, the entry there scores less |
| Search.FullSelectionIsPermutation | semantic_search.py:66 | a selection as long as the corpus covers every position |
| Search.SemanticSearch.constructor | semantic_search.py:9-17 | starts with no questions and no embeddings |
| Search.SemanticSearch.LoadQuestions | semantic_search.py:19-42 | on success, replaces the records with the normalised corpus and stores aligned embeddings; on a normalisation failure, leaves both unchanged and reports the error |
| Search.SemanticSearch.Scores | semantic_search.py:58-63 | one similarity per stored record |
| Search.SemanticSearch.Search | semantic_search.py:44-74 | fails iff nothing is loaded; otherwise returns `ResultCount` results: a top selection of the scores, each a copy of its record with its score |
| Search.LoadThenSearchAll | semantic_search.py:19-74 | loading a non-empty corpus, then searching with `top_k` at least its size, succeeds with one result per record: the results come from distinct positions, each carries its record's id and text, and every record is returned |
| Prosper.Pieces | api_client.py:74-80 | one `qid~a1^a2` piece per segment, in order |
| Prosper.CreateSegmentString | api_client.py:53-83 | the loop builds exactly the pieces joined by the bar separator |
| Prosper.SegmentStringExample | api_client.py:64-70 | the documented example yields the pieces "1~1", "2~0" and "3~2^3" joined by the bar separator |
| Prosper.GenderAgeSegmentString | api_client.py:74-83 | Female and Age 25-44 yield "1~1" and "3~2^3" joined by the bar separator |
| Prosper.SegmentStringEmpty | api_client.py:83 | no segments give the empty string |
| Prosper.PieceRoundTrip | api_client.py:79 | a well-formed segment's piece has no bar separator and parses back to the segment |
| Prosper.ParsePiecesRoundTrip | api_client.py:74-80 | the pieces of well-formed segments parse back to the segments |
| Prosper.SegmentStringRoundTrip | api_client.py:53-83 | parsing the segment string of well-formed segments gives them back (the string is injective on them) |
| Prosper.Configure | api_client.py:11-19 | the client is built iff the URL, key and study are all non-empty, and then holds exactly those |
| Prosper.DataEndpointComponents | api_client.py:111-119 | split on "/", the data endpoint is `data/study/q/segment` for `months == 0`; otherwise the `datatrend` path, with the end date only when it is non-empty |
| Prosper.LookupEndpointComponents | api_client.py:85-133 | the metadata and most-recent-date paths split into their kind ("metadata" or "mrd"), the study and the question |
| Prosper.SinglePointIgnoresTrendArguments | api_client.py:111-113 | with `months == 0`, the end date and increment do not affect the endpoint |
| Prosper.DataRangeEndpointComponents | api_client.py:149 | the range path splits into the study, both dates, the question, the segment and the increment |
| Prosper.RequestUrlShape | api_client.py:40 | the URL is the base without trailing "/", one "/", then the endpoint without leading "/" |
| Prosper.RequestUrlSlashInsensitive | api_client.py:40 | an extra "/" at the end of the base or the start of the endpoint does not change the URL |
| Prosper.WithApiKey | api_client.py:36-38 | `apikey` is set to the key and overrides any caller value; other parameters are kept; no parameters give a map holding only the key |
| Prosper.DataRequestsCarryOnlyTheKey | api_client.py:97-121 | every data request is a GET to the joined URL whose only parameter is the API key |
| SurveyData.FindAnswer | visualization.py:29-33 | the first answer whose id equals the result's id; none iff no answer has it |
| Charts.Dated | visualization.py:34-38 | each row is stamped with the point's date, keeping its answer and value |
| Charts.PrepareTrendData | visualization.py:11-40 | the nested loops produce exactly `TrendRows`: each point's result rows, stamped with its date, in order |
| Charts.PrepareSinglePointData | visualization.py:42-68 | the loop produces exactly `ResultRows` of the point |
| Charts.ResultRowsOfKept | visualization.py:26-38 | one row per result with a value, in order: the first matching answer's label and the value times 100 |
| Charts.ResultRowsIgnoreMissing | visualization.py:27 | dropping null results first changes nothing |
| Charts.DatedAppend | visualization.py:34-38 | stamping distributes over concatenation |
| Charts.TrendRowsAppend | visualization.py:24-38 | trend rows of two runs of points are the rows of each, in order |
| Charts.TrendRowProvenance | visualization.py:24-38 | every trend row carries some point's date and one of that point's result rows |
| Charts.ChartTitle | visualization.py:110 | a non-empty title wins; otherwise the metadata's `Text` if present, else "Question Results" |
| Charts.CreateVisualization | visualization.py:70-131 | line iff `chart_type == "line"`; trend data plots by date with "Answer" as colour; single-point data by answer with no colour; y is "Value" |
| Reports.LeadingHashes | report_builder.py:38 | the count of leading `#` characters, and none follows them |
| Reports.MatchHeader | report_builder.py:38 | a reported header is a match of the pattern: 1 to 6 hashes, whitespace, then a non-empty title ending the line |
| Reports.MatchedLevelIsLeadingHashes | report_builder.py:38 | in any match, the level is exactly the number of leading hashes |
| Reports.MatchHeaderComplete | report_builder.py:38 | every line that matches the pattern is reported, with its level and the shortest title (greedy `\s+`) |
| Reports.NoMatchMeansNoHeader | report_builder.py:38 | a line reported as no header matches the pattern in no way |
| Reports.ParseMarkdownSections | report_builder.py:23-60 | the loop computes exactly `SectionsOf` of the content |
| Reports.FlushWellFormed | report_builder.py:41-42 | flushing keeps the section list well formed |
| Reports.ScanWellFormed | report_builder.py:36-54 | the scan keeps every state well formed |
| Reports.SectionsWellFormed | report_builder.py:23-60 | parsed sections have non-blank content and levels 1 to 6; only the first can be the level-0 "Introduction" |
| Reports.HeaderLineGrows | report_builder.py:36-54 | a header line stays a header line as more lines are read |
| Reports.ScanTitles | report_builder.py:36-54 | during the scan, each section's title and level come from a header line |
| Reports.SectionTitlesFromHeaders | report_builder.py:23-60 | every section apart from the introduction is titled and levelled by a header line of the text |
| Reports.LinesJoin | report_builder.py:54 | the accumulated content is the lines joined by "\n", plus a final "\n" |
| Reports.ScanWithoutHeaders | report_builder.py:36-54 | without headers, every line goes into the introduction |
| Reports.SectionsWithoutHeaders | report_builder.py:23-60 | without headers: blank text gives no section; other text gives one introduction holding the text plus "\n" |
| Reports.ScanOnlyHeaders | report_builder.py:36-51 | a run of header lines keeps no section and leaves the current section empty |
| Reports.HeadersOnlyContentItem | report_builder.py:62-88 | content made only of header lines parses to no section and is added as one item with the caller's title (or "Section") and level |
| Reports.HeaderThenHeaderExample | report_builder.py:40-51 | a header followed directly by another leaves no section of its own |
| Reports.OneHashHeader | report_builder.py:38 | "# c" is a level-1 header titled "c" |
| Reports.OrDefault | report_builder.py:75-88 | `title or default`: a non-empty title wins, otherwise the default |
| Reports.SectionItems | report_builder.py:91-97 | one item per section |
| Reports.SectionItemsAt | report_builder.py:91-97 | item `k` carries section `k`'s title and level, and its stripped content |
| Reports.ContentItemsShape | report_builder.py:62-97 | adding content always adds at least one item, and every item added is text |
| Reports.BlankContentItem | report_builder.py:74-88 | blank content is added unchanged as one item, titled by the title or "Section" |
| Reports.PlainTextIgnoresTitle | report_builder.py:71-97 | non-blank text without headers becomes one "Introduction" item at level 0, whatever the caller passed |
| Reports.Removed | report_builder.py:130 | `pop(i)`: the items before `i` are kept and the later ones shift down |
| Reports.Inserted | report_builder.py:121 | `insert(i, x)`: `x` lands at `i`, and later items shift up |
| Reports.MovedKeepsItems | report_builder.py:119-121 | a move keeps the length and the multiset of items, puts the item at the target, and is otherwise the removal |
| Reports.MoveBack | report_builder.py:112-121 | moving from `to` back to `from` undoes a move |
| Reports.ReportBuilder.constructor | report_builder.py:16-21 | lists already in the session are kept; missing ones start empty |
| Reports.ReportBuilder.AddContent | report_builder.py:62-97 | appends exactly `ContentItems` and nothing else changes |
| Reports.ReportBuilder.AppendSections | report_builder.py:91-97 | appends one text item per section, in order; the visualisations are unchanged |
| Reports.ReportBuilder.AddVisualization | report_builder.py:99-110 | appends one visualisation item titled `title or "Visualization"` |
| Reports.ReportBuilder.MoveSection | report_builder.py:112-121 | moves the item when both indices are in range; otherwise nothing changes |
| Reports.ReportBuilder.RemoveContent | report_builder.py:123-130 | removes the item at an in-range index; otherwise nothing changes |
| App.SaveIdempotent | app.py:177-186 | saving the same request twice stores it once |
| App.SavePreservesNoDuplicates | app.py:164-187 | saving keeps the list free of duplicates, and the request is present afterwards |
| App.DuplicateIgnoresPayload | app.py:179-182 | duplicates are judged by question, segment, months and end date only |
| App.Session.constructor | app.py:50-65 | no saved questions, not authenticated, no user |
| App.Session.SaveQuestionData | app.py:164-187 | appends the question iff no duplicate is saved, and reports which case happened |
| App.WithoutTextKeeps | app.py:331-334 | removal keeps exactly the questions with another text |
| App.WithoutTextIdempotent | app.py:331-334 | removing the same text again removes nothing more |
| App.WithoutTextFails | app.py:331-334 | a saved question without `Text` makes the removal raise |
| App.Session.RemoveQuestionsWithText | app.py:325-335 | replaces the list by the questions with another text; if that raises, the list is unchanged |
| App.ValidDataPoints | app.py:439-447 | the loop keeps exactly the valid points (`N > 0`, results non-empty, some result with a value), in order |
| App.ValidPointsMembership | app.py:442-447 | a point is kept iff it is in the data and valid |
| App.ValidPointHasChartRow | app.py:444-446 | every valid point contributes at least one chart row |
| App.AnswerId | app.py:159 | `answers[label]` is the id of the first entry with that label |
| App.AnswerIds | app.py:159 | one id per selected label, in order, each that label's id |
| App.LookupAnswerIds | app.py:159 | the comprehension yields exactly the ids of the selected labels, in order |
| App.SelectedSegmentsStep | app.py:148-160 | one more filter adds one segment exactly when its selection is non-empty |
| App.CreateSegmentSelector | app.py:140-162 | one segment per filter with a non-empty selection, in table order, with the selected ids |
| App.AnswerIdsClean | app.py:159 | the ids chosen from a separator-free table are separator-free |
| App.SelectedSegmentsWellFormed | app.py:140-162 | the selector's segments from a clean table are well formed |
| App.SelectorRoundTrip | app.py:140-162 | the selector's segment string parses back to the selected segments |
| App.CommonSegmentsClean | app.py:107-138 | the common segment table contains no separator characters |
| App.GenderIds | app.py:110-116 | "Female" is a Gender option, with id "1" |
| App.AgeIds | app.py:117-127 | "25-34" and "35-44" are Age options, with ids "2" and "3" |
| App.SelectedSegmentsFirstTwo | app.py:140-162 | a non-empty choice in the first two filters and none in the third is a valid selection, and gives exactly one segment for each of the first two filters, holding the chosen ids |
| App.ExampleSegments | app.py:140-162 | the selection gives the Gender and Age segments only |
| App.SelectorExample | app.py:140-162 | the selection serialises to "1~1" and "3~2^3" joined by the bar separator |
| App.GetEnvVar | app.py:24-34 | secrets first, then the environment, then the default; an error only if all three are missing |
| App.DefaultCredentials | app.py:505-507 | with nothing configured, exactly admin/admin is accepted |
| App.Session.Login | app.py:505-523 | a successful check sets the flag and the user; a failed one changes nothing |
| App.Session.Logout | app.py:660-662 | clears the flag and the user |
| Llm.FormatQuestionData | llm_client.py:19-73 | the loops build exactly `Formatted`: header lines, answer options, then trend blocks or the single-point block |
| Llm.AppendResultLines | llm_client.py:50-58 | appends exactly the result lines of the results |
| Llm.AppendPointBlocks | llm_client.py:46-58 | appends exactly one block per trend point, in order |
| Llm.FormattedStartsWithHeader | llm_client.py:32-41 | the rendering begins with the question, type, segment and period lines, then the answer options |
| Llm.ResultLinesIgnoreMissing | llm_client.py:51 | results without a value leave no trace in the prompt |
| Llm.ResultLinesAppend | llm_client.py:50-58 | rendering two runs of results renders each in turn |
| Llm.PointBlocksAppend | llm_client.py:46-58 | rendering two runs of points renders each in turn |
| Llm.ResultLinesMatchChartRows | llm_client.py:50-58 | the prompt lists the same results as the chart: one line per chart row, in order, with the same label and value |
| Llm.InsightsTemplate | llm_client.py:93-178 | each named analysis type selects its template; every other string selects the segments template |
| Llm.UnknownAnalysisIsSegments | llm_client.py:178 | an unrecognised analysis type gives the same prompt as "segments" |
| Llm.FormattedDataShape | llm_client.py:90 | no questions give "", one gives its rendering, and each further one follows a blank line |
| Llm.PromptShape | llm_client.py:208 | the prompt is the selected template followed by the formatted data |
| Strings.StripEmptyIffAllSpace | report_builder.py:41 | `s.strip()` is empty exactly when `s` is all whitespace |
| Strings.SplitJoin | report_builder.py:34 | splitting a join of separator-free pieces gives the pieces back |
| Strings.JoinSplit | report_builder.py:34 | joining the pieces of a split gives the string back |
| Strings.NatToStringInjective | semantic_search.py:35 | different positions have different decimal spellings |
| Seqs.FilterMembership | app.py:331-334 | a comprehension with `if` keeps an element iff it occurs and passes |
| Seqs.FilterAppend | app.py:331-334 | filtering distributes over concatenation |
| Json.Lookup | semantic_search.py:31 | a field is found iff the key is present, and the value found belongs to that key |

## Left out

- Sentence embeddings and cosine similarity: the model and the similarity are abstract functions fixed at construction. The numeric values, and the NaN a zero-norm vector gives, are not modelled.
- `Search.SemanticSearch.LoadQuestions`: takes the parsed JSON value. Opening the file, JSON parsing and their errors are not modelled.
- Search.SemanticSearch.LoadQuestions: the encoder is taken to be total. In the source `model.encode` can raise, for instance on a `question_text` that is null or a number. `questions` has already been replaced at that point, so the source keeps the new questions beside the old `embeddings` (or `None`), and the two no longer line up. The model does not represent that state, and its promise that a failure changes nothing covers only normalisation failures.
- `Prosper`: every HTTP request stops at the `Request` value `_make_request` would send. Sending it, `raise_for_status`, the JSON response and the wrapping exception are not modelled.
- `_make_request` puts the key into the caller's `params` dict itself. That aliasing of the caller's dict is not modelled; `WithApiKey` returns a new map.
- `get_summary` and `generate_report` of the API client: both pass a `data=` keyword that `_make_request` does not accept, so they raise `TypeError` before any request. They are not modelled.
- The OpenAI calls of `generate_insights` and `generate_report`, their error wrapping, and the `logger` that `generate_report` uses without defining it are not modelled. The LLM client's construction from `OPENAI_API_KEY` is not modelled either.
- `Llm.InsightsPrompt`, `Llm.ReportPrompt`: the template texts are parameters; their wording is not reproduced.
- `Llm.Render`: `str()` of JSON numbers, lists and objects is a parameter `show`, because Python's float formatting is not modelled. Strings, null and booleans are rendered as Python prints them.
- `SurveyData.DataPoint`: `N` and `Result` are modelled as present-and-numeric or absent. A null or non-numeric `N` in `IsValidPoint` and the prompt, and a non-numeric `Result`, are not modelled.
- `SurveyData.DataPoint`, `SurveyData.Metadata`: `AnswerResults` and `Answers` are lists, a missing one read as empty. A present-but-null list is not represented. In the source it makes the `for` loops of visualization.py:26 and llm_client.py:50 raise `TypeError`, while `is_valid_data_point` (app.py:445) treats it as an invalid point. A null `Answers` makes the loop at llm_client.py:39 raise as well.
- `Json.Json`: an object's fields are taken as listed. `json.load` keeps one entry per repeated key (the last value, at the first key's position); the model assumes a parsed object has distinct keys and does not enforce it. With a repeated key, `Normalize` would give two records where the source gives one.
- `SurveyData.SameId`: label lookup compares JSON values structurally. Python's equality differs (`True == 1`, and dict equality ignores key order).
- `export_to_word` and `display_builder` of the report builder (Word document, Streamlit layout) are not modelled.
- Plotly layout, colours and rendering: a figure is the data frame rows and the column and title choices.
- Streamlit widgets, pages and messages: their results (multiselect choices, selectbox value, form fields) are parameters. The explanatory scenes and state files of app.py are not modelled.
- `uuid4` and the saving time are given as fields of the saved question.
- The saved-questions table at app.py:311-320 (display only) is not modelled.
- The `report_visualizations` list is initialised but never used by any method; the model keeps it unchanged.
