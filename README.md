# Field-drift diagnosis engine, modelled in Dafny

The `diagnostico` tools look for a naming drift between three artifacts of a
request pipeline: an OpenAPI contract, the source text of the Lambda
handler that processes requests, and CloudWatch log lines. This project
models their core and proves what each part promises.

- **Handler-source analyser** (`lambda_analyzer.py`). The six regular
  expressions are written as scanners (`Patterns.MatchAt`), and
  `re.findall` is written as `Patterns.FindAll`, which resumes after each
  match.
  - Three idioms give the fields a handler reads from the request body:
    `body.get('x')` or `body['x']`, `'x' in body`, and
    `const { x, y } = body`.
  - Three idioms give the fields its DynamoDB update expression writes.
  - On top of these sit the six diagnostic checks and their report,
    proved against a filter over the rules, and the comparison of two
    handlers.
- **OpenAPI consistency check** (`openapi_validator.py`).
  - Field extraction walks `paths`, then the route, the method,
    `requestBody`, `content`, `application/json` and `schema`.
  - The per-field discrepancy records, the two difference lists and the
    recommendations follow from it.
- **Log analyser** (`cloudwatch_analyzer.py`).
  - `parse_log_entry` takes the whole line, or the first `\{.*\}` span.
  - Request bodies are found under `body` and under `event.body`.
  - Per-field counts keep up to three samples for date and time fields.
  - Each of the eight text patterns gets a counter.
  - The recommendations follow from all of the above.
- **Prompt date-handling check** (`analyze_prompt_date_handling` in
  `full_system_diagnosis.py`). It runs five checks, and each failed check
  appends its issue and its recommendation.

Modules:

- `Common`, `Text` and `Json` hold the shared vocabulary: options, lists
  without duplicates, `list(set(...))`, ASCII character classes and
  `lower()`, and a JSON value whose objects are lists of members.
- `Patterns` holds the regular expressions.
- `FieldNames` holds the `'fecha' in f.lower()` filters and Python's
  `repr` of a list of names, as the notes print it.
- One module per analyser.

Three inputs are parameters of the model rather than computed:

- `json.loads`/`yaml.safe_load` is the parameter `decode`;
- the prompt file's content is an `Option` (`None` when the file does not
  exist);
- `extract_request_fields` in the consistency check is always called with
  the default method `post`.

Where the prose description of the system and the code disagree, the model
follows the code:

- **The SET-clause pattern** (`lambda_analyzer.py:57`) is described as
  capturing the last name before each placeholder. As written, its lazy
  group must take at least one character, so with a single blank after
  `SET` it drops the first letter of the first name. `findall` then
  resumes after that match, so it reports one name per clause.
  `LambdaAnalyzer.SetClauseIsTruncated` states this.
- **An exception while reading the properties** (`openapi_validator.py:74-87`)
  is described as giving an empty catalogue. The code keeps `required` and
  the entries of the properties handled before the exception.
  `OpenapiValidator.Handled` and `HandleProperties` model this.
- **Keyword letter case.** Keywords are described as case-insensitive. The
  three body-reading patterns are case-sensitive in the code; only the
  update-expression patterns pass `re.IGNORECASE`.

## Model

| member | source | states |
|---|---|---|
| Common.ListOfSet | diagnostico/lambda_analyzer.py:61 | `list(set(xs))`: a list without duplicates holding exactly the elements of the set |
| Patterns.FindAllSound | diagnostico/lambda_analyzer.py:48 | every group list `findall` reports is the groups of a match of the pattern at some position |
| Patterns.FindAllComplete | diagnostico/lambda_analyzer.py:78 | when matches cannot overlap, `findall` reports the groups of every match, wherever it starts |
| Patterns.FindAllStringsExact | diagnostico/lambda_analyzer.py:84 | for a one-group pattern whose matches cannot overlap, a name is reported iff some match captures it |
| Patterns.KeyedAccessNoOverlap | diagnostico/lambda_analyzer.py:77 | no match of the `body.get(...)`/`body[...]` pattern starts inside another |
| Patterns.MembershipNoOverlap | diagnostico/lambda_analyzer.py:83 | no match of the `'x' in body` pattern starts inside another |
| Patterns.DestructuringNoOverlap | diagnostico/lambda_analyzer.py:88 | no match of the `const { ... } = body` pattern starts inside another |
| Patterns.AppendClauseNoOverlap | diagnostico/lambda_analyzer.py:47 | no match of the `update_expression += ', x =` pattern starts inside another |
| Patterns.SetClauseNoOverlap | diagnostico/lambda_analyzer.py:57 | no match of the SET-clause pattern starts inside another |
| LambdaAnalyzer.ExtractProcessedFields | diagnostico/lambda_analyzer.py:64-95 | the result has no duplicates and holds exactly the names the three body-reading idioms capture |
| LambdaAnalyzer.ExtractUpdateExpressionFields | diagnostico/lambda_analyzer.py:33-61 | the result has no duplicates and holds exactly the captures of the three update-expression patterns |
| LambdaAnalyzer.ProcessedFieldsExact | diagnostico/lambda_analyzer.py:76-93 | a name is processed iff it is a non-empty group of a keyed-access match, the capture of a membership match, or one stripped binding of a destructuring match |
| LambdaAnalyzer.UpdateFieldsSound | diagnostico/lambda_analyzer.py:46-59 | every update field is the capture of a match of one of the three update-expression patterns |
| LambdaAnalyzer.UpdateFieldsComplete | diagnostico/lambda_analyzer.py:46-59 | every capture of the append pattern and of the SET-clause pattern is an update field |
| LambdaAnalyzer.KeyedGetIsProcessed | diagnostico/lambda_analyzer.py:77 | `body.get('x')` anywhere in the code (even as the tail of `request_body`) makes `x` a processed field |
| LambdaAnalyzer.KeyedIndexIsProcessed | diagnostico/lambda_analyzer.py:77 | `body['x']` anywhere in the code makes `x` a processed field |
| LambdaAnalyzer.MembershipIsProcessed | diagnostico/lambda_analyzer.py:83 | `'x' in body` makes `x` a processed field |
| LambdaAnalyzer.AppendClauseIsUpdate | diagnostico/lambda_analyzer.py:47 | `update_expression += ', x =`, in any letter case of the variable, makes `x` an update field |
| LambdaAnalyzer.SetClauseIsTruncated | diagnostico/lambda_analyzer.py:57 | `'SET name = :v` with one blank yields the name without its first letter |
| LambdaAnalyzer.FiredFrom | diagnostico/lambda_analyzer.py:119-179 | the failed checks, in the order the checks run: a rule is listed iff it is checked and fails |
| LambdaAnalyzer.FindingForInjective | diagnostico/lambda_analyzer.py:119-179 | different checks append different findings |
| LambdaAnalyzer.FiresIffTriggers | diagnostico/lambda_analyzer.py:116-171 | each check fails exactly when its condition on the field sets holds (no update field mentions `fecha`/`hora`; fewer than two processed fields mention it; no logging call; no logged update expression) |
| LambdaAnalyzer.ReportRuleIff | diagnostico/lambda_analyzer.py:119-179 | the report holds a check's finding iff that check's condition holds on the handler |
| LambdaAnalyzer.ReportShape | diagnostico/lambda_analyzer.py:109-198 | at most six findings, all in category `code`, in check order; code change iff a critical finding; never a configuration change |
| LambdaAnalyzer.FindingsShape | diagnostico/lambda_analyzer.py:116-179 | for any outcome of the checks: at most six findings, all in category `code`, in the order the checks run |
| LambdaAnalyzer.ReportCounts | diagnostico/lambda_analyzer.py:182-198 | critical count = failed date/time update checks; warning count = failed variant and logging checks; the summary reports no problems iff none of those failed |
| LambdaAnalyzer.SummaryReportsNothing | diagnostico/lambda_analyzer.py:185-190 | the summary is the no-problem line iff both counts are zero |
| LambdaAnalyzer.AnalyzeLambdaCode | diagnostico/lambda_analyzer.py:98-198 | the report of the extracted lists: a check's finding is present iff its condition holds; code change iff a date or time field is missing from the update expression |
| LambdaAnalyzer.ComparisonFlags | diagnostico/lambda_analyzer.py:218-231 | the date (time) flag is set iff the two handlers' sets of date (time) field names differ |
| LambdaAnalyzer.ComparisonAdvice | diagnostico/lambda_analyzer.py:235-245 | one recommendation per raised flag, each present iff its flag is set |
| LambdaAnalyzer.CompareFieldHandling | diagnostico/lambda_analyzer.py:201-247 | the extracted lists are exact and duplicate-free; the flags compare the date/time name sets; one recommendation per flag |
| FieldNames.Variants | diagnostico/lambda_analyzer.py:138-139 | the filter keeps exactly the names mentioning the substring in any letter case, and keeps them duplicate-free |
| FieldNames.VariantsOfSet | diagnostico/lambda_analyzer.py:141-150 | for a duplicate-free list, the filtered list's length is the number of distinct names mentioning the substring |
| FieldNames.VariantsAppend | diagnostico/cloudwatch_analyzer.py:212-213 | the filter distributes over concatenation, so the kept names stay in the order of the list |
| FieldNames.VariantsFirst | diagnostico/cloudwatch_analyzer.py:212-223 | the first kept name (`fecha_fields[0]`) is the first name of the list that mentions the substring |
| FieldNames.Repr | diagnostico/openapi_validator.py:146 | a name in a printed list is quoted by `"` exactly when it holds `'` and no `"`, and by `'` otherwise |
| FieldNames.ReprRoundTrip | diagnostico/openapi_validator.py:145-153 | the quoted, escaped rendering of a name reads back as that name |
| FieldNames.ReprPlain | diagnostico/cloudwatch_analyzer.py:222 | a name without quotes, backslashes or control characters is printed between single quotes as it is |
| OpenapiValidator.EntryOf | diagnostico/openapi_validator.py:75-81 | an entry exists iff the property schema is a dict and `in required` does not raise; its `required` flag is that membership; absent keys give the defaults `unknown`, `''`, `None`, `None` |
| OpenapiValidator.Handled | diagnostico/openapi_validator.py:74-87 | the properties before the first one that raises are handled; the first unhandled one is the one that raises |
| OpenapiValidator.HandleStep | diagnostico/openapi_validator.py:74-84 | handling one more property adds its entry and, if it is not required, appends its name to `optional` |
| OpenapiValidator.ExtractRequestFields | diagnostico/openapi_validator.py:37-89 | the method computes the defaults-or-descent result of `RequestFields` |
| OpenapiValidator.HandleProperties | diagnostico/openapi_validator.py:74-87 | the loop leaves `all_fields` and `optional` as they are after the handled prefix of the properties |
| OpenapiValidator.MissingNodeGivesEmpty | diagnostico/openapi_validator.py:58-65 | a dict on the path that lacks the next key gives the empty catalogue for the endpoint |
| OpenapiValidator.AllFieldsKeys | diagnostico/openapi_validator.py:74-81 | when every property is handled, `all_fields` has exactly the property names |
| OpenapiValidator.AllFieldsRequired | diagnostico/openapi_validator.py:78 | each entry's `required` flag is whether its name is in `required` |
| OpenapiValidator.AllFieldsEntry | diagnostico/openapi_validator.py:75-81 | with distinct property names, each entry is built from that property's schema |
| OpenapiValidator.OptionalMembers | diagnostico/openapi_validator.py:83-84 | a name is optional iff it is a property not in `required` |
| OpenapiValidator.OptionalInOrder | diagnostico/openapi_validator.py:83-84 | `optional` lists names in the order of their properties |
| OpenapiValidator.RequestFieldsComplete | diagnostico/openapi_validator.py:56-84 | when the schema is reached and every property is handled: `required` copied, endpoint echoed, `all_fields` keys = property names, flags = membership, optional iff not required, in property order |
| OpenapiValidator.PropertiesFields | diagnostico/openapi_validator.py:74-84 | when every property is handled: `all_fields` keys = property names, each flag = membership in `required`, `optional` = the names not in `required`, in property order |
| OpenapiValidator.DiscrepancyFor | diagnostico/openapi_validator.py:124-139 | a record exists iff the two sides disagree on the field; it names the field, both flags, the type only when OpenAPI has it, `processed` iff the handler reads it |
| OpenapiValidator.CollectDiscrepancies | diagnostico/openapi_validator.py:122-139 | the loop builds the records of `DiscrepanciesOf` in iteration order |
| OpenapiValidator.DiscrepanciesMembers | diagnostico/openapi_validator.py:124-139 | a record for `f` exists iff `f` is iterated and the two sides disagree on it |
| OpenapiValidator.DiscrepanciesWellFormed | diagnostico/openapi_validator.py:128-139 | every record is the one `DiscrepancyFor` builds for its field |
| OpenapiValidator.DiscrepanciesDistinct | diagnostico/openapi_validator.py:124-139 | iterating distinct fields gives records with distinct names |
| OpenapiValidator.Recommendations | diagnostico/openapi_validator.py:142-173 | one note per non-empty difference list, one critical note per date/time family declared by OpenAPI but not read by the handler |
| OpenapiValidator.RecommendationsIff | diagnostico/openapi_validator.py:144-173 | each of the four notes is present iff its condition holds |
| OpenapiValidator.DateTimeRecommendations | diagnostico/openapi_validator.py:156-173 | the notes for the two name sets: the count formula, with date/time lists whose sets are the names mentioning `fecha`/`hora` |
| OpenapiValidator.ValidateOpenapiLambdaConsistency | diagnostico/openapi_validator.py:92-185 | missing lists are the two set differences, without duplicates; a record exists iff a name is on exactly one side; records are distinct; consistent iff no record iff both lists empty; at most four recommendations |
| OpenapiValidator.ConsistentIff | diagnostico/openapi_validator.py:118-175 | no discrepancy record iff both difference lists are empty |
| OpenapiValidator.CompareFields | diagnostico/openapi_validator.py:117-139 | the difference lists are the two set differences, without duplicates; a record exists iff a name is on exactly one side; records have distinct names, each the one `DiscrepancyFor` builds; no record iff both lists are empty |
| CloudwatchAnalyzer.BraceSearch | diagnostico/cloudwatch_analyzer.py:45 | a found span starts at or after the search start and lies within the line |
| CloudwatchAnalyzer.BraceSearchIsSearch | diagnostico/cloudwatch_analyzer.py:45 | `re.search(r'\{.*\}')`: the leftmost `{`...`}` span on one line and, at that start, the longest; none iff there is no such span |
| CloudwatchAnalyzer.ParseWithoutBraces | diagnostico/cloudwatch_analyzer.py:37-52 | a line that is not whole JSON and has no `{...}` span on one line parses to nothing |
| CloudwatchAnalyzer.ParseEmbedded | diagnostico/cloudwatch_analyzer.py:44-50 | otherwise the result is the decoding of the leftmost, longest span |
| CloudwatchAnalyzer.BodyOf | diagnostico/cloudwatch_analyzer.py:72-79 | a string body is decoded (and dropped if it does not decode); any other value is kept |
| CloudwatchAnalyzer.BodyUnder | diagnostico/cloudwatch_analyzer.py:71-79 | at most one body, present iff the dict has `body` and it decodes |
| CloudwatchAnalyzer.EntryBodies | diagnostico/cloudwatch_analyzer.py:67-91 | at most two bodies per line, none when the line does not parse |
| CloudwatchAnalyzer.LineBodies | diagnostico/cloudwatch_analyzer.py:68-91 | the loop body's if-chain appends exactly the line's bodies |
| CloudwatchAnalyzer.ExtractRequestBodies | diagnostico/cloudwatch_analyzer.py:55-93 | the loop collects every line's bodies, line by line |
| CloudwatchAnalyzer.RequestBodiesAppend | diagnostico/cloudwatch_analyzer.py:67-91 | the bodies of consecutive runs of lines follow each other, in line order |
| CloudwatchAnalyzer.RequestBodiesBound | diagnostico/cloudwatch_analyzer.py:67-91 | at most two bodies per log line |
| CloudwatchAnalyzer.CountBodies | diagnostico/cloudwatch_analyzer.py:108-115 | a field's count is at most the number of bodies |
| CloudwatchAnalyzer.CountBodiesZero | diagnostico/cloudwatch_analyzer.py:108-115 | a field's count is zero iff no body has it |
| CloudwatchAnalyzer.ValuesOf | diagnostico/cloudwatch_analyzer.py:118-120 | one value per body that has the field |
| CloudwatchAnalyzer.TallyMeaning | diagnostico/cloudwatch_analyzer.py:106-120 | count = bodies having the field; at most three samples, only for date/time fields, exactly min(3, count) of them, the first values in body order |
| CloudwatchAnalyzer.TallyStep | diagnostico/cloudwatch_analyzer.py:108-120 | a body with the field bumps its count and adds its value while fewer than three samples are kept |
| CloudwatchAnalyzer.FieldOrderMembers | diagnostico/cloudwatch_analyzer.py:109-114 | a field is a key of `field_stats` iff some body has it |
| CloudwatchAnalyzer.RecordField | diagnostico/cloudwatch_analyzer.py:110-120 | a new field is inserted with zero count at the end of the key order; the entry is then bumped |
| CloudwatchAnalyzer.TallyKeys | diagnostico/cloudwatch_analyzer.py:109-120 | the inner loop over one body's keys extends the key order and the tallies to that body |
| CloudwatchAnalyzer.AnalyzeFieldPresence | diagnostico/cloudwatch_analyzer.py:96-122 | fails iff a body is not a dict; otherwise keys in first-seen order and every entry is the field's tally over all bodies |
| CloudwatchAnalyzer.PatternKeysAreNames | diagnostico/cloudwatch_analyzer.py:135-144 | the eight counter keys are exactly the names of the eight patterns |
| CloudwatchAnalyzer.CountEntries | diagnostico/cloudwatch_analyzer.py:146-171 | a counter never exceeds the number of lines |
| CloudwatchAnalyzer.CountEntriesExtremes | diagnostico/cloudwatch_analyzer.py:146-171 | a counter is zero iff no line triggers it, and equals the line count iff every line does |
| CloudwatchAnalyzer.TallyLineCounts | diagnostico/cloudwatch_analyzer.py:149-171 | one line adds one to exactly the counters it triggers and keeps the keys |
| CloudwatchAnalyzer.TallyOverCounts | diagnostico/cloudwatch_analyzer.py:149-171 | over distinct patterns, a counter moves by one exactly when its pattern is among them and the line triggers it |
| CloudwatchAnalyzer.IdentifyPatterns | diagnostico/cloudwatch_analyzer.py:125-173 | the keys are the eight pattern names, and each counter is the number of lines whose lower-cased text triggers it |
| CloudwatchAnalyzer.KindNote | diagnostico/cloudwatch_analyzer.py:211-235 | the no-field note iff no field mentions `fecha`/`hora`; otherwise the found-fields note listing those fields with the count of the first of them |
| CloudwatchAnalyzer.CountNotesDiffer | diagnostico/cloudwatch_analyzer.py:199-209 | the errors note and the missing-parameters note differ, whatever their counts |
| CloudwatchAnalyzer.CountNotes | diagnostico/cloudwatch_analyzer.py:199-209 | the errors note with its count is present iff there are errors, and first; the missing-parameters note with its count iff there are missing parameters; nothing else |
| CloudwatchAnalyzer.LogRecommendations | diagnostico/cloudwatch_analyzer.py:196-241 | the errors and missing-parameters notes each iff its count is positive, the UpdateExpression note iff nothing logged it, each no-field note iff no field mentions that family, otherwise the found-fields note with the first field's count; the total count of notes |
| CloudwatchAnalyzer.PatternRecommendations | diagnostico/cloudwatch_analyzer.py:199-241 | the same notes, stated on the pattern counts of the log lines and with the found-fields count being the number of request bodies that hold the first field |
| CloudwatchAnalyzer.AnalyzeCloudwatchLogs | diagnostico/cloudwatch_analyzer.py:176-251 | fails iff a body is not a dict; otherwise it echoes the log group, sets `last 30 minutes`, and gives the line count, the error count, the bodies, the eight counters and the recommendations as stated above |
| PromptAnalysis.Failing | diagnostico/full_system_diagnosis.py:65-110 | the failed checks, in check order, never more than those checked |
| PromptAnalysis.FailingSnoc | diagnostico/full_system_diagnosis.py:65-108 | one more check appends its note at the end iff it fails |
| PromptAnalysis.ApplyCheck | diagnostico/full_system_diagnosis.py:65-101 | a passed check leaves the notes alone; a failed one appends its issue and its recommendation |
| PromptAnalysis.AnalyzePromptDateHandling | diagnostico/full_system_diagnosis.py:45-110 | a missing file gives the not-found error; otherwise each flag is its check's outcome, and the issues and recommendations are those of the failed checks, in order |
| PromptAnalysis.InFailing | diagnostico/full_system_diagnosis.py:65-110 | a check is failing iff it is among those checked and the prompt fails it |
| PromptAnalysis.TextsDistinct | diagnostico/full_system_diagnosis.py:68-108 | different checks have different issue and recommendation texts |
| PromptAnalysis.IssueIff | diagnostico/full_system_diagnosis.py:65-101 | each of the four issues is reported iff its check fails |
| PromptAnalysis.AdviceIff | diagnostico/full_system_diagnosis.py:65-108 | each of the five recommendations is made iff its check fails |
| PromptAnalysis.ReportCounts | diagnostico/full_system_diagnosis.py:65-110 | at most four issues; one more recommendation than issues iff no date example; no issue iff the first four checks pass |

## Left out

- The `print`ing functions, `main` and the `__main__` blocks,
  `analyze_sample_logs`, `fetch_logs.py`, `run_diagnosis.py` and
  `extract_lambda_code_from_cloudformation` are left out. They are console
  output, AWS access, file reading and orchestration around the core.
- The error printed by `extract_request_fields` when it catches an
  exception is console output and is not modelled. The partial result is
  modelled.
- `json.loads` and `yaml.safe_load` are the abstract parameter `decode`. A
  JSON object is a list of members. With duplicate keys, Python keeps the
  last value and `Json.Lookup` takes the first; the two agree on every
  object without duplicate keys.
- Character classes are ASCII. `\w`, `\s`, `\d`, `str.lower()` and
  `str.strip()` act on Unicode in Python, so non-ASCII letters, digits and
  white space (such as U+0085 or U+00A0) are outside the model. The ASCII
  white space is all of it, the separators 0x1C-0x1F included.
- FieldNames.Repr: non-ASCII characters are written as they are. Python
  escapes the non-printable ones (`\x..`, `\u....`, `\U........`).
- Json.JNum: numbers are integers only. JSON floats have no value in the
  model; numbers are only carried along as sample values and examples.
- Patterns.SetAssignmentAt: the `UpdateExpression = 'SET x =` pattern has
  matches that can overlap. Only soundness (`UpdateFieldsSound`) is proved
  for it, not completeness.
- LambdaAnalyzer.Description: the variant warnings print a Python list
  `repr`. The order of a `list(set(...))` is whatever Python's set
  iteration gives. `Common.ListOfSet` fixes only the membership and that
  there are no duplicates.
- CloudwatchAnalyzer.EntryBodies: a decoded line that is not a dict
  contributes no bodies. `json.loads` cannot return one for text starting
  with `{`. Python's `if parsed:` also skips an empty dict, which has no
  `body` anyway.
- CloudwatchAnalyzer.AnalyzeFieldPresence: Python raises `AttributeError`
  when a body is not a dict. The model returns `None` there, and so does
  `AnalyzeCloudwatchLogs`.
- PromptAnalysis.AnalyzePromptDateHandling: only a missing file is
  modelled. Other I/O and decoding errors from `open`/`read` propagate in
  Python and are not modelled.
