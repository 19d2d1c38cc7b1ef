# TestResultService, modelled in Dafny

The data-streaming service of MeterSphere receives load-test results and does three things with them. This project models and proves that core.

- **Metric-to-line encoder.** `convertToLine` turns one metric record into one line of the test's result file. The line has 17 comma-separated columns and ends in a line feed. `convertFailureMessage` removes the line feeds from the failure message and turns its commas into spaces. `getElapsed` gives the seconds within the hour of the sample's end time.
- **Ordered part store.** `savePartContent` stores each content fragment of a report as the report's next numbered part. `generateReport` reads the parts in part order and joins their contents.
- **Status lifecycle and generator join.** A report and its test go from `Starting` to `Running` on the first fragment. On the tear-down message they become `Reporting`. Every generator is initialised with the assembled content and, unless `init` throws, executed once. Its task counts the latch down once `execute` has returned or thrown, but not when `init` threw before it. Once every generator has counted down, both become `Completed`; a latch that never reaches zero leaves them `Reporting`.

Modules, one file each:

- `Strings` (`strings.dfy`) models the library calls the core uses:
  - `StringUtils.remove`, `replace`, `deleteWhitespace` and `isBlank`;
  - `Character.isWhitespace`;
  - the decimal text of integers and booleans.

  It also has a comma splitter, which is what a reader of the produced line would apply.
- `LineEncoder` (`line_encoder.dfy`) holds the metric record, `getElapsed`, `convertFailureMessage`, the URL column and `convertToLine`. It also proves what a reader gets back when it splits the line at its commas.
- `PartStore` (`part_store.dfy`) has the detail table in two forms:
  - a pure map from report id to rows, with the numbering and assembly properties;
  - the class `DetailTable`, with the count, insert and ordered-select calls the service makes.

  It also has the content reduce, written as a loop.
- `Status` (`status.dfy`) models the two status writes:
  - the guarded `updateStatus(id, new, expected)`, read as a compare-and-set;
  - `updateByPrimaryKeySelective`, which sets the status unconditionally when the row exists.

  It also holds the lifecycle lemmas.
- `TestResults` (`test_result_service.dfy`) holds:
  - the fan-out loop with its countdown latch;
  - the class `TestResultService`, with `SavePartContent`, `CompleteReport` and `GenerateReport` over in-memory report, test and detail tables, plus a ghost log of the status writes in issue order;
  - `Session`, which feeds one test run's fragments and its tear-down message through the service.

Calls run one at a time. `completeReport` calls `generateReport` directly instead of handing it to a thread pool, so when the fan-out loop ends the latch holds its final count. If that count is above zero, `await` would block for good, so the model writes nothing more.

How the code writes statuses and treats missing values:

- Only the `Starting`→`Running` change is guarded (lines 46-47). The `Reporting` and `Completed` writes are unconditional selective updates of the row (lines 113, 118, 149, 154), so a second tear-down message moves a `Completed` report back to `Reporting`.
- A null URL is blank, so its column is empty (lines 82-86). A null timestamp or end time makes `getTime()` (line 61) or `Calendar.setTime` (line 101) throw. Other null fields reach `StringBuilder.append`, which writes `null`. The model has no null fields.

Metric.java is not part of this model, so the types of the metric fields are assumed:

- the timestamp is the integer value of `Date.getTime()`;
- the counters and times are integers rendered in decimal;
- success is a boolean;
- the text fields are strings.

## Model

All source paths below are `src/main/java/io/metersphere/streaming/service/TestResultService.java`.

| member | source | states |
|---|---|---|
| LineEncoder.GetElapsed | src/main/java/io/metersphere/streaming/service/TestResultService.java:99-106 | The elapsed value is in 0..3599, and its quotient and remainder by 60 are the end time's minute and second. The hour plays no part. |
| LineEncoder.GetElapsedIgnoresHour | src/main/java/io/metersphere/streaming/service/TestResultService.java:99-106 | Two end times with the same minute and second give the same value, whatever their hours. |
| LineEncoder.GetElapsedExample | src/main/java/io/metersphere/streaming/service/TestResultService.java:99-106 | 02:15:47 gives 947. |
| LineEncoder.ConvertFailureMessage | src/main/java/io/metersphere/streaming/service/TestResultService.java:93-97 | The sanitised message holds no line feed and no comma. Its length is the original length minus the number of line feeds. |
| LineEncoder.FailureMessageCharacters | src/main/java/io/metersphere/streaming/service/TestResultService.java:93-97 | Every character that is not a line feed survives. It moves left by the number of line feeds before it, and is unchanged except that a comma becomes a space. |
| LineEncoder.ConvertFailureMessageIdempotent | src/main/java/io/metersphere/streaming/service/TestResultService.java:93-97 | Sanitising a sanitised message changes nothing. |
| LineEncoder.NoNewlineUnchanged | src/main/java/io/metersphere/streaming/service/TestResultService.java:94 | Removing line feeds from a text without any returns it unchanged. |
| LineEncoder.NoCommaUnchanged | src/main/java/io/metersphere/streaming/service/TestResultService.java:95 | Replacing commas in a text without any returns it unchanged. |
| LineEncoder.FailureMessageExample | src/main/java/io/metersphere/streaming/service/TestResultService.java:93-97 | Take three comma-free, line-feed-free texts a, b and c. The message a,b, a line feed, then c sanitises to a, a space, b, then c. |
| LineEncoder.UrlColumn | src/main/java/io/metersphere/streaming/service/TestResultService.java:82-86 | The URL column holds no whitespace. It is empty exactly when the URL is blank. |
| LineEncoder.UrlColumnIsDeleteWhitespace | src/main/java/io/metersphere/streaming/service/TestResultService.java:82-86 | The URL column always equals the URL with its whitespace deleted, so the blank test changes no result. |
| LineEncoder.UrlColumnNoComma | src/main/java/io/metersphere/streaming/service/TestResultService.java:82-86 | A URL without commas gives a URL column without commas. |
| LineEncoder.ConvertToLine | src/main/java/io/metersphere/streaming/service/TestResultService.java:59-91 | The line is not empty and its last character is a line feed. |
| LineEncoder.ConvertToLineIsJoin | src/main/java/io/metersphere/streaming/service/TestResultService.java:59-91 | The line is the 17 columns, in the header-comment order, joined by commas and followed by one line feed. |
| LineEncoder.ConvertToLineSplits | src/main/java/io/metersphere/streaming/service/TestResultService.java:59-91 | Assume the label, response code, thread name, data type and URL hold no comma. Then cutting the line, less its line feed, at every comma gives back exactly the 17 columns. |
| LineEncoder.ConvertToLineFields | src/main/java/io/metersphere/streaming/service/TestResultService.java:59-91 | Under the same assumption, the cut gives 17 fields:<br>- every numeric field parses back to the record's value, and the elapsed field to minute*60+second;<br>- label, code, thread name and data type come back as they were;<br>- the fifth field is empty and success is `true` or `false`;<br>- the failure message comes back sanitised;<br>- the URL comes back whitespace-free, or empty when it is blank. |
| LineEncoder.ColumnsText | src/main/java/io/metersphere/streaming/service/TestResultService.java:67-86 | The text columns are:<br>- 2: the label;<br>- 3: the response code;<br>- 4: empty, for the response message;<br>- 5: the thread name;<br>- 6: the data type;<br>- 7: the success text;<br>- 8: the sanitised failure message;<br>- 13: the URL column. |
| LineEncoder.ColumnsNumbers | src/main/java/io/metersphere/streaming/service/TestResultService.java:61-89 | Each numeric column holds the decimal text of its field. The elapsed column holds the text of the elapsed value. |
| LineEncoder.ColumnsDecodeTimes | src/main/java/io/metersphere/streaming/service/TestResultService.java:61-66 | The timestamp column parses back to the timestamp. The elapsed column parses back to minute*60+second of the end time. |
| LineEncoder.ColumnsDecodeCounts | src/main/java/io/metersphere/streaming/service/TestResultService.java:77-80 | The byte, sent-byte, group-thread and all-thread columns parse back to their fields. |
| LineEncoder.ColumnsDecodeTimings | src/main/java/io/metersphere/streaming/service/TestResultService.java:87-89 | The latency, idle-time and connect-time columns parse back to their fields. |
| LineEncoder.ColumnsNoComma | src/main/java/io/metersphere/streaming/service/TestResultService.java:59-91 | Under the same assumption, no column holds a comma. |
| LineEncoder.ConvertToLineCommas | src/main/java/io/metersphere/streaming/service/TestResultService.java:59-91 | Under the same assumption, the line holds exactly 16 commas, so it has 17 fields. |
| LineEncoder.ColumnsNoNewline | src/main/java/io/metersphere/streaming/service/TestResultService.java:59-91 | Assume the label, response code, thread name and data type hold no line feed. Then no column holds one. The failure-message and URL columns never do. |
| LineEncoder.ConvertToLineOneLine | src/main/java/io/metersphere/streaming/service/TestResultService.java:59-91 | Under the same assumption, the line holds exactly one line feed, its last character. |
| Strings.RemoveNewlines | src/main/java/io/metersphere/streaming/service/TestResultService.java:94 | No line feed is left. |
| Strings.RemoveNewlinesLength | src/main/java/io/metersphere/streaming/service/TestResultService.java:94 | Removing line feeds shortens a text by exactly its number of line feeds. |
| Strings.ReplaceChar | src/main/java/io/metersphere/streaming/service/TestResultService.java:95 | Replacing one character by another keeps the length. Each position holds the replacement where the original had the replaced character, and the original character elsewhere. |
| Strings.DeleteWhitespace | src/main/java/io/metersphere/streaming/service/TestResultService.java:83 | The result holds no whitespace character. |
| Strings.DeleteWhitespaceLength | src/main/java/io/metersphere/streaming/service/TestResultService.java:83 | Deleting whitespace shortens the text by exactly its number of whitespace characters, so every other character is kept. With `FilterAt`, they stay in order. |
| Strings.DeleteWhitespaceEmpty | src/main/java/io/metersphere/streaming/service/TestResultService.java:82-83 | Deleting whitespace leaves nothing exactly when the text is blank, that is empty or made only of `Character.isWhitespace` characters. |
| Strings.IsWhitespace | src/main/java/io/metersphere/streaming/service/TestResultService.java:82-83 | Space, tab, line feed and carriage return are whitespace. The no-break spaces U+00A0, U+2007 and U+202F are not. |
| Strings.FilterAt | src/main/java/io/metersphere/streaming/service/TestResultService.java:94 | Removal keeps the order of the kept characters: a kept character lands after the kept characters before it. |
| Strings.FilterIdempotent | src/main/java/io/metersphere/streaming/service/TestResultService.java:94 | Removing a second time changes nothing. |
| Strings.ParseDecimalString | src/main/java/io/metersphere/streaming/service/TestResultService.java:64 | Reading back the decimal text of an integer gives the integer. |
| Strings.DecimalString | src/main/java/io/metersphere/streaming/service/TestResultService.java:61-89 | The decimal text of an integer is not empty. It holds only digits and a minus sign. |
| Strings.DecimalNoSeparator | src/main/java/io/metersphere/streaming/service/TestResultService.java:64 | The decimal text of an integer holds no comma and no line feed. |
| Strings.BoolString | src/main/java/io/metersphere/streaming/service/TestResultService.java:73 | The text of a boolean holds no comma and no line feed. |
| Strings.SplitJoin | src/main/java/io/metersphere/streaming/service/TestResultService.java:59-91 | Cutting a join at its delimiter gives back the columns, provided no column holds the delimiter. |
| Strings.JoinCount | src/main/java/io/metersphere/streaming/service/TestResultService.java:59-91 | A join holds one delimiter per gap between columns, plus the delimiters inside the columns. |
| PartStore.WithPart | src/main/java/io/metersphere/streaming/service/TestResultService.java:49-56 | The new part goes after the report's existing parts and gets their count plus one. The rows of every other report are unchanged. |
| PartStore.NewParts | src/main/java/io/metersphere/streaming/service/TestResultService.java:49-56 | Appending chunks creates one new row per chunk. |
| PartStore.NewPartsAt | src/main/java/io/metersphere/streaming/service/TestResultService.java:49-56 | Appending chunks to a report with k rows gives the i-th chunk the number k+i+1. |
| PartStore.AppendAllParts | src/main/java/io/metersphere/streaming/service/TestResultService.java:49-56 | Appending chunks keeps the report's rows and puts the new rows after them, in chunk order, numbered on from the count the report had. |
| PartStore.AppendAllNumbered | src/main/java/io/metersphere/streaming/service/TestResultService.java:49-56 | Appends keep the 1..N numbering of a report's rows. |
| PartStore.AppendAllFromEmpty | src/main/java/io/metersphere/streaming/service/TestResultService.java:49-56 | From a report with no parts, N appends give parts numbered exactly 1..N holding the chunks in order. |
| PartStore.AppendAllOthers | src/main/java/io/metersphere/streaming/service/TestResultService.java:49-56 | Appends to one report leave the parts of every other report unchanged. |
| PartStore.AppendAllSnoc | src/main/java/io/metersphere/streaming/service/TestResultService.java:44-57 | Appending one more chunk is one more savePartContent after the earlier ones. |
| PartStore.AppendAll | src/main/java/io/metersphere/streaming/service/TestResultService.java:44-57 | Each savePartContent adds exactly one row to the report, so N calls add N rows. |
| PartStore.ConcatOfChunks | src/main/java/io/metersphere/streaming/service/TestResultService.java:136 | Reducing parts that hold the given chunks in order gives the concatenation of the chunks. |
| PartStore.AssembleAppendAll | src/main/java/io/metersphere/streaming/service/TestResultService.java:128-136 | The content assembled for a report is the concatenation of its chunks in append order. It is empty when no chunk arrived. |
| PartStore.ConcatPrefix | src/main/java/io/metersphere/streaming/service/TestResultService.java:136 | The fold only extends what it has built: the content of the first k parts starts the content of all of them. |
| PartStore.ReduceContents | src/main/java/io/metersphere/streaming/service/TestResultService.java:136 | The reduce loop with seed "" yields the left fold of the part contents in stored order. |
| PartStore.DetailTable.CountByReport | src/main/java/io/metersphere/streaming/service/TestResultService.java:49-51 | The count is the number of rows the report has. |
| PartStore.DetailTable.Insert | src/main/java/io/metersphere/streaming/service/TestResultService.java:52-56 | The row goes after the report's rows, and other reports' rows are unchanged. The 1..N numbering is kept when the row carries the count plus one. |
| PartStore.DetailTable.SelectOrdered | src/main/java/io/metersphere/streaming/service/TestResultService.java:128-131 | The rows come back in stored order, which is strictly ascending in part number. |
| Status.CompareAndSet | src/main/java/io/metersphere/streaming/service/TestResultService.java:46-47 | The row takes the new status only if it exists and holds the expected status. Every other row is unchanged. |
| Status.CompareAndSetIdempotent | src/main/java/io/metersphere/streaming/service/TestResultService.java:46-47 | A repeated identical guarded update changes nothing more, so later fragments do not repeat the transition. |
| Status.CompareAndSetChanges | src/main/java/io/metersphere/streaming/service/TestResultService.java:46-47 | The guarded update changes the table exactly when the row exists, holds the expected status, and the new status differs from it. |
| Status.LateFragmentKeepsStatus | src/main/java/io/metersphere/streaming/service/TestResultService.java:46-47 | A fragment arriving after `Starting` leaves the status alone. It never rolls `Reporting` or `Completed` back. |
| Status.SetStatus | src/main/java/io/metersphere/streaming/service/TestResultService.java:111-118 | A selective update sets the row's status whatever it held. An id with no row changes nothing. |
| Status.SetStatusLastWins | src/main/java/io/metersphere/streaming/service/TestResultService.java:112-149 | Of two selective writes to one row, only the later one is seen: the report's `Completed` write (148-149) overrides its `Reporting` write (112-113). |
| Status.LifecycleNoRegress | src/main/java/io/metersphere/streaming/service/TestResultService.java:46-154 | Start from a row at `Reporting` or earlier. The guarded Running write, then Reporting, then Completed, never move it back in the lifecycle. |
| Status.RepeatedTearDownRegresses | src/main/java/io/metersphere/streaming/service/TestResultService.java:112-113 | A second tear-down message for a report that is already `Completed` sets it back to `Reporting`. This is a move back in the lifecycle. |
| Status.Lifecycle | src/main/java/io/metersphere/streaming/service/TestResultService.java:46-154 | A row that starts at `Starting`:<br>- is `Running` after the first fragment and stays so on later ones;<br>- is `Reporting` after completion;<br>- is `Completed` at the end. |
| TestResults.Schedule | src/main/java/io/metersphere/streaming/service/TestResultService.java:134-143 | There is one turn per generator, in list order. Each turn has that generator, the report id, the assembled content and what the turn did. |
| TestResults.TurnsShape | src/main/java/io/metersphere/streaming/service/TestResultService.java:134-143 | Turn i belongs to generator i and carries the shared report id and content and the outcome of that generator's `init` and `execute`. |
| TestResults.TurnsCountDown | src/main/java/io/metersphere/streaming/service/TestResultService.java:137-142 | Each turn lowers the latch by one, or by nothing when `init` threw. After the last turn the latch is the starting count, less the number of turns, plus the number of turns whose `init` threw. |
| TestResults.ScheduleCountsDown | src/main/java/io/metersphere/streaming/service/TestResultService.java:134-143 | The latch starts at the number of generators:<br>- there is one turn per generator, in order;<br>- a turn whose `init` returned lowers the latch by one, and a turn whose `init` threw leaves it;<br>- after the last turn the latch holds the number of `init`s that threw, so it is 0 exactly when none threw. |
| TestResults.LatchIgnoresOutcome | src/main/java/io/metersphere/streaming/service/TestResultService.java:138-142 | Take two behaviours whose `init` throws for the same generators. Then every turn leaves the latch at the same count, whether `execute` returns or throws. |
| TestResults.InitFailureBlocks | src/main/java/io/metersphere/streaming/service/TestResultService.java:136-145 | If one `init` throws, the latch never reaches 0. |
| TestResults.CountOutcomeZero | src/main/java/io/metersphere/streaming/service/TestResultService.java:134-143 | No turn has an outcome exactly when the count of that outcome is 0. |
| TestResults.CountDowns | src/main/java/io/metersphere/streaming/service/TestResultService.java:138-142 | There is one countDown entry per turn whose `init` returned. |
| TestResults.IngestWritesShape | src/main/java/io/metersphere/streaming/service/TestResultService.java:46-47 | Each fragment issues the report's and then the test's `Starting`→`Running` guarded update, and nothing else. |
| TestResults.TestResultService.SavePartContent | src/main/java/io/metersphere/streaming/service/TestResultService.java:44-57 | First, report then test take the guarded `Starting`→`Running` update. Then the fragment is stored as the report's next part. The write log records the two guarded updates in that order. |
| TestResults.TestResultService.TakeTurn | src/main/java/io/metersphere/streaming/service/TestResultService.java:135-142 | One generator's task: the content is reduced from the parts, then the generator is initialised and, unless `init` throws, executed. The latch goes down by one, with a countDown logged, unless `init` threw. The turn is appended to the turns so far. |
| TestResults.TestResultService.FanOut | src/main/java/io/metersphere/streaming/service/TestResultService.java:134-143 | The turns are exactly `Schedule` over the assembled content. The final latch is the number of `init`s that threw. The log gains one countDown per counted turn, in turn order. No status changes. |
| TestResults.TestResultService.GenerateReport | src/main/java/io/metersphere/streaming/service/TestResultService.java:127-159 | The turns run over the parts in part order, with their countDowns logged. Only when the latch is 0 and the report row exists are the report and then its own test set to `Completed`, and these writes come after every countDown in the log. Otherwise no status is written, as for an `await` that never returns or a missing row. |
| TestResults.TestResultService.CompleteReport | src/main/java/io/metersphere/streaming/service/TestResultService.java:108-125 | With a report row:<br>- the report, then the metric's test, are set to `Reporting`;<br>- the report is generated, with the countDowns logged after both `Reporting` writes;<br>- when no `init` threw, `Completed` for the report and then its test follow the countDowns; otherwise both stay `Reporting`.<br>Without a row, nothing is written and nothing is generated. |
| TestResults.TearDown | src/main/java/io/metersphere/streaming/service/TestResultService.java:108-159 | For a report and test that both have rows, where the report's row names the metric's test, the tear-down runs every generator. (When the report's row names another test, `CompleteReport` gives the outcome.) The service's report and test rows end `Completed` when no `init` threw and `Reporting` otherwise. Every other row is unchanged, and the service stays valid. The log gains, in order, the two `Reporting` writes, the countDowns and, when no `init` threw, the two `Completed` writes. |
| TestResults.Session | src/main/java/io/metersphere/streaming/service/TestResultService.java:44-159 | Start with a report and a test at `Starting`, send N fragments and then the tear-down. Then:<br>- every generator gets exactly the fragments concatenated in arrival order;<br>- the writes are the N fragments' guarded updates, Reporting for report and test, then the countDowns;<br>- when no `init` threw, both rows end `Completed`, and the two `Completed` writes come last;<br>- otherwise both rows stay `Reporting`. |
| TestResults.Ingest | src/main/java/io/metersphere/streaming/service/TestResultService.java:44-57 | Fragments are fed one savePartContent at a time:<br>- the detail table ends equal to all the appends in order;<br>- with no fragment, both status tables are unchanged;<br>- otherwise each table is the single `Starting`→`Running` guarded update of the old one;<br>- the write log is one pair of guarded updates per fragment. |

## Left out

- Thread pools (lines 41-42, 122-124, 135): calls run one at a time and generators run in list order. So the model says nothing about interleavings, about concurrent appends to one report getting duplicate part numbers, or about the order in which generators finish.
- `CountDownLatch.await` and the `InterruptedException` branch (lines 145, 156-158): the latch is a counter that holds its final count when the loop ends. A count above zero stands for an `await` that never returns, and then nothing more is written. The interrupted run that stays in `Reporting` is not modelled.
- MyBatis mappers and `*Example` criteria: the report, test and detail tables are in-memory maps. The SQL of `updateStatus` is not part of this model. Its guard is assumed to be `status = expected`, from the argument order.
- `Calendar` and time zones: the end time is given as hour, minute and second fields. `Date.getTime()` is a given integer. `System.currentTimeMillis()` update times are not stored.
- Null handling: no field of the model is null. So the `null` text that `StringBuilder.append` writes, the null pass-through of `StringUtils` and the exceptions from a null timestamp or end time are not modelled. A missing report row is modelled: nothing is written.
- Generator internals (`ReportGeneratorFactory`, `AbstractReport.init` and `execute`): a generator is a name. A given function from generator, report id and content says what its turn did: `execute` returned, `execute` threw, or `init` threw. An exception thrown by `init` in a pool thread ends only that task; the other generators still take their turns.
- Logging (`LogUtil`).
- Integer widths: the numeric metric fields are unbounded integers. A Java `long` or `int` renders the same digits for every value it can hold.
- Strings.IsWhitespace: follows current `Character.isWhitespace`, so U+180E is not whitespace, unlike older Java releases.
- TestResults.Session: it is a driver for one test run, not a method of the service. It creates a fresh service for one report and one test.
- `LoadTestReportWithBLOBs.java` and `Errors.java`: plain field holders with no logic.
