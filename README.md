# mLabValueExtractor extraction engine, in Dafny

mLabValueExtractor is a small Qt tool. It reads a text data file line by line
and copies selected values into a delimiter-separated output text. This
project models the engine behind its "extract" button, in `mainwindow.cpp`.

- **Single-value extraction** (`read1Value`). Every line that starts with the
  value prefix is a match. A match whose 1-based ordinal lies in the range
  [start, stop] is written as `<ordinal - start><delimiter><value>\r\n`.
  Reading stops right after the match that brings the count to `stop`.
- **Paired extraction** (`read2Values`). Two prefixes name a first and a
  second value. A `{` line forgets both values before the prefixes are
  looked at, and a `}` line forgets both after. Whenever a line leaves both
  values held, a record is counted. When its ordinal is in range it is
  written as `<v1><delimiter><v2>\r\n`. The values are not forgotten after a
  record, so a later line that changes neither value counts the same record
  again.
- **Decimal convention** (`replacePointWithKomma`). With the comma convention
  every `.` in a written value becomes `,`. `read2Values` rewrites its held
  values in place, so a value that stays held is rewritten again, which
  changes nothing.
- **Settings.** `getDelimiter` maps the delimiter combo box to tab,
  semicolon, comma or space, with semicolon for any other entry. The top of
  `extractValues` normalises the range: without range mode it is
  [1, LLONG_MAX], and a stop of 0 means LLONG_MAX.
- **Dispatch and status line.** The chosen extractor runs. The run then
  reports "No values read!" when the text is empty, and otherwise
  "Data file read, N values extracted.".

The input stream is modelled as the sequence of its lines (`seq<string>`).
Each extractor is a method with the source's loop, including its early
`break`. It is proved against a declarative reading of the whole input:
- `SingleValue.Values` and `PairValue.Pairs` are the records counted.
- `Selection.Selected` is the records whose ordinal is in range.
- `SingleValue.Render` and `PairValue.PairRender` are their text.

`PairValue.Run` is a state function that replays the loop line by line. It
carries the in-place rewrite of the held values. `PairValue.RunModel`
connects it to the declarative reading. In `PairValue.Read2Values` the loop
body of mainwindow.cpp:247-279 is the helper method `PairValue.ReadLine`.
The loop then breaks when both values are held and the count has reached
`stop`, which is the source's test at 266-267 and 281-284 combined.

With range [2, 2] over three matches `read1Value` writes `0,2\r\n` and
returns 2. The index is `numValues - start`, which is 0 for the first record
in range, and the loop breaks once the count reaches `stop`
(mainwindow.cpp:224, 228-231). `Scenarios.SingleSecondRecordOnly` states this
outcome.

## Model

| member | source | states |
|---|---|---|
| Strings.Find | mainwindow.cpp:292-294 | `text.find('.')`: the index of the first occurrence with no earlier occurrence, and `npos` (None) exactly when the character is absent |
| Strings.DecimalString | mainwindow.cpp:224 | `std::to_string` of a count is never empty |
| Strings.DecimalDigits | mainwindow.cpp:224 | `std::to_string` of a count gives only digits and no leading zero |
| Strings.DecimalRoundTrip | mainwindow.cpp:224 | reading the decimal text of a count back gives the count |
| Strings.DecimalStringInjective | mainwindow.cpp:224 | distinct indices are written as distinct texts |
| LineClassifier.Head | mainwindow.cpp:213 | `line.substr(0, n)` has length n, or the line's length when the line is shorter |
| LineClassifier.Field | mainwindow.cpp:219 | the value of a matching line is the line without its prefix, so it is shorter by the prefix length |
| LineClassifier.MatchesIffPrefix | mainwindow.cpp:213 | `line.substr(0, p.length()) == p` holds exactly when `p` is a prefix of the line |
| LineClassifier.ShortLineNeverMatches | mainwindow.cpp:213 | a line shorter than the prefix never matches, because `substr` clips instead of failing |
| LineClassifier.EmptyPrefixMatchesAll | mainwindow.cpp:213-219 | an empty prefix matches every line, and its value is the whole line |
| LineClassifier.FieldSplit | mainwindow.cpp:219 | a matching line is its prefix followed by the value `line.substr(p.length())` |
| Locale.CommaDecimal | mainwindow.cpp:290-297 | the rewritten text has the length of the original |
| Locale.Localize | mainwindow.cpp:220-223 | a value is written with its length unchanged, in either convention |
| Locale.CommaDecimalChars | mainwindow.cpp:290-297 | the rewritten text has each `.` replaced by `,` and every other character unchanged, at the same position |
| Locale.NoPointLeft | mainwindow.cpp:292 | no `.` survives the rewrite, the loop's exit condition |
| Locale.PointFreeUnchanged | mainwindow.cpp:292-296 | text without a `.` is returned unchanged |
| Locale.CommaDecimalIdempotent | mainwindow.cpp:275-276 | rewriting an already rewritten value changes nothing |
| Locale.ReplacePointWithKomma | mainwindow.cpp:290-297 | the find-and-replace loop terminates and returns the text with every `.` turned into `,` |
| Settings.NormalizeRange | mainwindow.cpp:135-144 | without range mode the range is [1, LLONG_MAX]; in range mode the start is the start spin box; a stop of 0 becomes LLONG_MAX; the stop is never 0 |
| Settings.NormalizedStopPositive | mainwindow.cpp:138-144 | with a non-negative stop spin box the stop is at least 1 |
| Settings.LowestOrdinal | mainwindow.cpp:216-231 | the smallest 1-based ordinal at or above a bound: at least 1 and at least the bound, and equal to one of the two, so exactly the bound when it is 1 or more and exactly 1 below that (a stop of 0 or less stops after the first record); it is both the first ordinal a range selects and the count at which reading stops |
| Settings.GetDelimiter | mainwindow.cpp:101-123 | the delimiter is one character among tab, `;`, `,` and space; tab, `,` and space each come exactly from their entry; `;` comes from the semicolon entry and from any unknown entry |
| Selection.Selected | mainwindow.cpp:216-217 | the records in range are never more than the records counted |
| Selection.Indexed | mainwindow.cpp:224 | numbering values keeps one record per value |
| Selection.SelectedCount | mainwindow.cpp:216-217 | the number of records in range is min(stop, count) - max(start, 1) + 1, or 0 when that is negative |
| Selection.SelectedItems | mainwindow.cpp:216-217 | the i-th selected record is the record with ordinal max(start, 1) + i, and that ordinal lies in [start, stop] |
| Selection.SelectedSnoc | mainwindow.cpp:270-279 | one more record is selected exactly when its ordinal lies in range, and it then comes last |
| Selection.SelectedSettled | mainwindow.cpp:281-284 | once `stop` records have been counted, further records change nothing selected |
| Selection.IndexedItems | mainwindow.cpp:224 | record i of a list numbered from `first` carries index first + i and value i |
| Selection.IndexedSnoc | mainwindow.cpp:224 | numbering one more value appends it with the next index |
| Selection.WindowItems | mainwindow.cpp:216-224 | the i-th written single record is the value with ordinal max(start, 1) + i, indexed by that ordinal minus `start` |
| Selection.WindowSnocIn | mainwindow.cpp:215-225 | a value in range appends its record, indexed by its ordinal minus `start` |
| Selection.WindowSnocOut | mainwindow.cpp:216-217 | a value out of range writes nothing |
| SingleValue.Values | mainwindow.cpp:211-219 | the values carried by the first n lines: no more of them than lines |
| SingleValue.ValuesStep | mainwindow.cpp:213-219 | a matching line appends its value, and any other line appends nothing |
| SingleValue.ValuesGrow | mainwindow.cpp:211-215 | reading more lines only adds values at the end |
| SingleValue.NoMatchNoValues | mainwindow.cpp:213 | an input in which no line carries the prefix yields no value |
| SingleValue.RenderSnoc | mainwindow.cpp:224-225 | one more record appends `index + delimiter + value + "\r\n"`, with the value in the chosen convention |
| SingleValue.RenderEmpty | mainwindow.cpp:224-225 | each record is at least three characters, so the text is empty exactly when no record is written |
| SingleValue.SingleTextAppend | mainwindow.cpp:215-225 | a matching line whose ordinal is in range appends its record |
| SingleValue.SingleTextAppendValue | mainwindow.cpp:219-225 | the same step, stated for the text, count and converted value the loop holds |
| SingleValue.SingleTextKeep | mainwindow.cpp:213-217 | any other line leaves the text unchanged |
| SingleValue.RenderWindowSnocIn | mainwindow.cpp:215-225 | rendering the window of one more in-range value appends that value's record |
| SingleValue.SingleTextWindowStepIn | mainwindow.cpp:213-225 | a line whose value is selected extends the text and the window alike |
| SingleValue.SingleTextWindowStepOut | mainwindow.cpp:213-217 | a line whose value is not selected changes neither the text nor the window |
| SingleValue.SingleTextWindow | mainwindow.cpp:204-235 | the text is the rendering of the selected values in input order, indexed from their offset to `start` |
| SingleValue.SingleTextSettled | mainwindow.cpp:228-231 | once `stop` values have been seen, later lines add no record, so the early break loses nothing |
| SingleValue.ReadFinished | mainwindow.cpp:211-233 | wherever reading ends, by end of stream or by the break, the count is min(total, stop count) and the text is that of the whole input |
| SingleValue.Read1Value | mainwindow.cpp:204-235 | the text is that of the whole input; the count is the number of matches read, which equals min(total matches, stop count); reading ends early only right after a match that brings the count to the stop count, and whenever the count reaches the stop count the last line read is the one that brought it there |
| PairValue.Pairs | mainwindow.cpp:266-269 | the records counted over the first n lines: no more than lines, and each with both values non-empty |
| PairValue.HeldStep | mainwindow.cpp:247-264 | one more line moves the held values by one step |
| PairValue.PairsCount | mainwindow.cpp:266-269 | a line after which both values are held counts one more record, the held pair |
| PairValue.PairsSkip | mainwindow.cpp:266-267 | any other line counts nothing |
| PairValue.PairsGrow | mainwindow.cpp:245-269 | reading more lines only adds records at the end |
| PairValue.CloseLineNeverCompletes | mainwindow.cpp:260-264 | a `}` line forgets both values whatever prefixes it carries, so it never counts a record |
| PairValue.OpenLineForgets | mainwindow.cpp:247-259 | after a `{` line nothing read before it is held, only what the `{` line itself carries |
| PairValue.BothPrefixesSetBoth | mainwindow.cpp:252-259 | a line other than `}` that carries both prefixes sets both values |
| PairValue.RetentionRepeatsRecord | mainwindow.cpp:244-269 | values are not cleared after a record, so a further line that is not a block line and carries neither prefix counts the same pair again |
| PairValue.OneSidedBlockEmitsNothing | mainwindow.cpp:247-269 | from a `{` line on, as long as no line carries the second prefix, the second value stays empty and no record is counted |
| PairValue.BlockWithoutFirstEmitsNothing | mainwindow.cpp:247-269 | from a `{` line on, as long as no line carries the first prefix, the first value stays empty and no record is counted |
| PairValue.FirstNeverMatchesNoPairs | mainwindow.cpp:252-267 | where no line carries the first prefix, the first value stays empty and no record is counted |
| PairValue.FirstStaysForgotten | mainwindow.cpp:247-267 | a line without the first prefix leaves an empty first value empty, so it completes no record |
| PairValue.PairRenderSnoc | mainwindow.cpp:278 | one more record appends `v1 + delimiter + v2 + "\r\n"`, with the values in the chosen convention |
| PairValue.PairRenderEmpty | mainwindow.cpp:266-278 | each record is at least four characters, so the text is empty exactly when no record is written |
| PairValue.AgreesEmpty | mainwindow.cpp:266-277 | a value rewritten in place is empty exactly when the value as read is |
| PairValue.StepAgrees | mainwindow.cpp:247-264 | a line moves the rewritten values and the values as read alike |
| PairValue.AgreesWritten | mainwindow.cpp:273-278 | writing a rewritten value gives the same text as writing it as read |
| PairValue.RunStep | mainwindow.cpp:245-285 | the loop state after one more line is one `Advance` step |
| PairValue.TracksStep | mainwindow.cpp:245-285 | one more line keeps the loop's held values in step with the declarative ones, and its count equal to the records counted |
| PairValue.RunTextIn | mainwindow.cpp:266-279 | a line that counts a record in range appends that record's text |
| PairValue.RunTextOut | mainwindow.cpp:266-272 | any other line leaves the text unchanged |
| PairValue.RunTextStep | mainwindow.cpp:266-279 | one more line keeps the text equal to the rendering of the selected records |
| PairValue.RunBegins | mainwindow.cpp:244 | before any line nothing is held, counted or written |
| PairValue.ModelStep | mainwindow.cpp:245-285 | one more line keeps the whole loop state modelled |
| PairValue.RunModel | mainwindow.cpp:245-285 | over any prefix of the input, the loop's values agree with the declarative ones, its count is the number of records counted, and its text renders the selected records in input order |
| PairValue.RunFinished | mainwindow.cpp:245-286 | wherever reading ends, by end of stream or by the break, the count is min(total, stop count) and the text is that of the whole input |
| PairValue.RunCounts | mainwindow.cpp:266-269 | after any number of lines the loop's count is the number of records counted over them |
| PairValue.ReadLine | mainwindow.cpp:247-279 | the loop body for one line (update the held values, count a completed record, rewrite and write it when in range) is exactly one `Advance` step |
| PairValue.TakeLine | mainwindow.cpp:247-264 | the four in-place updates of `v1` and `v2` for one line are exactly one `Step` |
| PairValue.Read2Values | mainwindow.cpp:237-288 | the text renders the records whose ordinal is in range, over the whole input; the count is the number of records read, which equals min(total records, stop count); reading ends early only right after a line that completes a record at the stop count, and whenever the count reaches the stop count the last line read is the one that brought it there |
| Extraction.StatusNamesCount | mainwindow.cpp:184-193 | the status line tells the two outcomes of the empty-text decision apart, and the "values extracted" line determines the count it reports |
| Extraction.WrittenCount | mainwindow.cpp:164-175 | in either mode, the records written are those with ordinal from max(start, 1) to min(stop, total) |
| Extraction.TextEmptyIffNothingWritten | mainwindow.cpp:184-189 | in either mode the text is empty exactly when no record is written |
| Extraction.NoMatchNoValuesRead | mainwindow.cpp:164-189 | in either mode, an input in which no line carries the first prefix counts nothing and leaves the text empty, so the run reports "No values read!" |
| Extraction.UnboundedStopCountsAll | mainwindow.cpp:136-144 | without range mode, or with a stop of 0, every record of an input no longer than LLONG_MAX lines is counted |
| Extraction.ExtractValues | mainwindow.cpp:135-194 | the text and count are those of the extractor the mode selects, under the normalised range, delimiter and decimal convention; the status line is "No values read!" for empty text and otherwise names the count |
| Scenarios.SingleLinesValues | mainwindow.cpp:211-219 | on the lines `A:1`, `B:x`, `A:2`, `A:3` with prefix `A:`, the values read grow as 1; 1; 1, 2; 1, 2, 3 |
| Scenarios.SingleAllRecords | mainwindow.cpp:204-235 | on those lines, without a range and with `,`, the text is `0,1\r\n1,2\r\n2,3\r\n` and the count is 3 |
| Scenarios.SingleSecondRecordOnly | mainwindow.cpp:204-235 | on those lines with range [2, 2], the text is `0,2\r\n` and the count is 2 |
| Scenarios.PairLinesHeld | mainwindow.cpp:247-264 | on two blocks `{`, `X=1`, `Y=2`, `}`, `{`, `X=3`, `Y=4`, `}`, the held values after each line |
| Scenarios.PairTwoBlocks | mainwindow.cpp:237-288 | on those blocks with `;`, the records are (1, 2) and (3, 4) and the text is `1;2\r\n3;4\r\n` |

## Left out

- The worker thread, the `_readWrite_` flag and the busy wait on it
  (mainwindow.cpp:159-160, 166-181, 234, 287) are left out. The model calls
  the extractor directly, which is what the wait amounts to once the
  extractor has finished.
- File I/O is left out: opening and closing the input stream
  (mainwindow.cpp:148-156, 182) and `writeTextToFile`. The stream is given as
  the sequence of its lines, as `std::getline` yields them. `getline` itself,
  line-end handling included, is not part of this model.
- The Qt form is left out: `allValuesSet`, the button enabling, clearing the
  text fields, and the timestamp `addInfoText` puts on each message.
  `ExtractValues` takes the widget states as parameters and returns the
  status line.
- Neither radio button checked: the source then starts no thread, so the busy
  wait never ends. `Extraction.Mode` has only the two checked states.
- Extraction.ExtractValues: reports only the status line that depends on the
  extracted text, not the messages before and after it ("Reading input data
  file...", "Extraction finished :)").
- SingleValue.Read1Value: the `long long` counter is an unbounded integer.
  Overflow would need more than LLONG_MAX matching lines.
- PairValue.Read2Values: the same holds for its counter.
