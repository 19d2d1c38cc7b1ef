/** TestResultService.convertToLine and its helpers: one metric record becomes
    one comma-separated, line-feed-terminated line of 17 columns. In order they
    are the timestamp, the elapsed seconds, the label, the response code, an
    empty response message, the thread name, the data type, the success flag,
    the failure message, the received and sent byte counts, the group and total
    thread counts, the URL, the latency, the idle time and the connect time.

    ColumnsAt, NoCharInColumns and JoinSeventeen state facts about a 17-column
    row given column by column, over plain string parameters; ColumnsText and
    ColumnsNumbers read single columns out of Columns through ColumnsAt. They
    exist to keep each proof about the whole line small for the solver: the
    property a reader of the line relies on is ConvertToLineFields. */
module LineEncoder {
  import opened Strings

  /** The end time as Calendar splits it: HOUR_OF_DAY, MINUTE and SECOND. */
  datatype ClockFields = ClockFields(hour: int, minute: int, second: int)
  type TimeOfDay = t: ClockFields | 0 <= t.hour < 24 && 0 <= t.minute < 60 && 0 <= t.second < 60
    witness ClockFields(0, 0, 0)

  /** The fields of a metric record that the service reads. The timestamp is the
      value of Date.getTime(), in milliseconds. */
  datatype Metric = Metric(
    timestamp: int,
    elapsedTime: TimeOfDay,
    sampleLabel: string,
    responseCode: string,
    threadName: string,
    dataType: string,
    success: bool,
    failureMessage: string,
    bytes: int,
    sentBytes: int,
    grpThreads: int,
    allThreads: int,
    url: string,
    latency: int,
    idleTime: int,
    connectTime: int,
    reportId: string,
    testId: string,
    testName: string)

  /** getElapsed: seconds since the start of the hour; the hour is read and dropped. */
  function GetElapsed(end: TimeOfDay): (r: int)
    ensures 0 <= r < 3600
    ensures r / 60 == end.minute && r % 60 == end.second
  {
    var hours := end.hour;
    end.minute * 60 + end.second
  }

  /** Two end times in the same minute and second of different hours give one value. */
  lemma GetElapsedIgnoresHour(a: TimeOfDay, b: TimeOfDay)
    requires a.minute == b.minute && a.second == b.second
    ensures GetElapsed(a) == GetElapsed(b)
  {
  }

  lemma GetElapsedExample()
    ensures GetElapsed(ClockFields(2, 15, 47)) == 947
  {
  }

  /** convertFailureMessage: line feeds removed, then commas replaced by spaces. */
  function ConvertFailureMessage(message: string): (r: string)
    ensures '\n' !in r && ',' !in r
    ensures |r| == |message| - multiset(message)['\n']
  {
    RemoveNewlinesLength(message);
    ReplaceChar(RemoveNewlines(message), ',', ' ')
  }

  /** Each character of the message other than a line feed survives at the
      position given by the line feeds before it, unchanged except that a comma
      becomes a space. */
  lemma FailureMessageCharacters(message: string, i: nat)
    requires i < |message| && message[i] != '\n'
    ensures i - multiset(message[..i])['\n'] < |ConvertFailureMessage(message)|
    ensures ConvertFailureMessage(message)[i - multiset(message[..i])['\n']]
         == if message[i] == ',' then ' ' else message[i]
  {
    FilterAt(message, NotNewline, i);
    RemoveNewlinesLength(message[..i]);
  }

  /** Sanitising an already sanitised message changes nothing. */
  lemma ConvertFailureMessageIdempotent(message: string)
    ensures ConvertFailureMessage(ConvertFailureMessage(message)) == ConvertFailureMessage(message)
  {
    var r := ConvertFailureMessage(message);
    assert RemoveNewlines(r) == r by {
      NoNewlineUnchanged(r);
    }
    NoCommaUnchanged(r);
  }

  lemma {:induction false} NoNewlineUnchanged(s: string)
    requires '\n' !in s
    ensures RemoveNewlines(s) == s
  {
    if s != [] {
      NoNewlineUnchanged(s[1..]);
      assert [s[0]] + s[1..] == s;
    }
  }

  lemma NoCommaUnchanged(s: string)
    requires ',' !in s
    ensures ReplaceChar(s, ',', ' ') == s
  {
  }

  /** A message such as "timeout, at line\n2": its comma becomes a space and its
      line feed disappears, so it sanitises to "timeout  at line2". */
  lemma FailureMessageExample(a: string, b: string, c: string)
    requires '\n' !in a && ',' !in a && '\n' !in b && ',' !in b && '\n' !in c && ',' !in c
    ensures ConvertFailureMessage(a + "," + b + "\n" + c) == a + " " + b + c
  {
    var ab := a + "," + b;
    assert RemoveNewlines(a + "," + b + "\n" + c) == ab + c by {
      FilterConcat(ab + "\n", c, NotNewline);
      FilterConcat(ab, "\n", NotNewline);
      FilterConcat(a + ",", b, NotNewline);
      FilterConcat(a, ",", NotNewline);
      NoNewlineUnchanged(a);
      NoNewlineUnchanged(b);
      NoNewlineUnchanged(c);
      assert Filter("\n", NotNewline) == "";
      assert Filter(",", NotNewline) == ",";
      assert ab + "" == ab;
    }
    assert ReplaceChar(ab + c, ',', ' ') == a + " " + b + c by {
      ReplaceCharConcat(ab, c, ',', ' ');
      ReplaceCharConcat(a + ",", b, ',', ' ');
      ReplaceCharConcat(a, ",", ',', ' ');
      NoCommaUnchanged(a);
      NoCommaUnchanged(b);
      NoCommaUnchanged(c);
    }
  }

  /** The URL column: the URL with all whitespace deleted, or nothing when it is blank. */
  function UrlColumn(url: string): (r: string)
    ensures forall c :: c in r ==> !IsWhitespace(c)
    ensures r == [] <==> IsBlank(url)
  {
    DeleteWhitespaceEmpty(url);
    if !IsBlank(url) then DeleteWhitespace(url) else ""
  }

  /** The blank test is redundant: deleting whitespace from a blank URL already gives nothing. */
  lemma UrlColumnIsDeleteWhitespace(url: string)
    ensures UrlColumn(url) == DeleteWhitespace(url)
  {
    DeleteWhitespaceEmpty(url);
  }

  /** convertToLine, append by append. */
  function ConvertToLine(m: Metric): (line: string)
    ensures |line| >= 1 && line[|line| - 1] == '\n'
  {
    DecimalString(m.timestamp) + "," +
    DecimalString(GetElapsed(m.elapsedTime)) + "," +
    m.sampleLabel + "," +
    m.responseCode + "," +
    "," +
    m.threadName + "," +
    m.dataType + "," +
    BoolString(m.success) + "," +
    ConvertFailureMessage(m.failureMessage) + "," +
    DecimalString(m.bytes) + "," +
    DecimalString(m.sentBytes) + "," +
    DecimalString(m.grpThreads) + "," +
    DecimalString(m.allThreads) + "," +
    UrlColumn(m.url) + "," +
    DecimalString(m.latency) + "," +
    DecimalString(m.idleTime) + "," +
    DecimalString(m.connectTime) + "\n"
  }

  /** The line without its terminating line feed. */
  function Body(m: Metric): string {
    var line := ConvertToLine(m);
    line[..|line| - 1]
  }

  /** The 17 column values, in the order of the header comment of convertToLine. */
  function Columns(m: Metric): seq<string> {
    [DecimalString(m.timestamp), DecimalString(GetElapsed(m.elapsedTime)), m.sampleLabel,
     m.responseCode, "", m.threadName, m.dataType, BoolString(m.success),
     ConvertFailureMessage(m.failureMessage), DecimalString(m.bytes), DecimalString(m.sentBytes),
     DecimalString(m.grpThreads), DecimalString(m.allThreads), UrlColumn(m.url),
     DecimalString(m.latency), DecimalString(m.idleTime), DecimalString(m.connectTime)]
  }

  /** The free-text fields in which the line does not neutralise commas: the
      label, the response code, the thread name, the data type and the URL
      (whitespace deletion leaves its commas in place). */
  predicate NoStrayCommas(m: Metric) {
    ',' !in m.sampleLabel && ',' !in m.responseCode && ',' !in m.threadName &&
    ',' !in m.dataType && ',' !in m.url
  }

  /** When the free-text fields hold no comma, a reader that cuts the line (less its
      line feed) at every comma gets exactly 17 fields back: the numbers it can
      parse back to the record's values, the text fields as they are, an empty
      response message, the sanitised failure message and the stripped URL. */
  lemma ConvertToLineFields(m: Metric)
    requires NoStrayCommas(m)
    ensures var f := Split(Body(m), ',');
      |f| == 17 &&
      ParseDecimal(f[0]) == m.timestamp &&
      ParseDecimal(f[1]) == m.elapsedTime.minute * 60 + m.elapsedTime.second &&
      f[2] == m.sampleLabel && f[3] == m.responseCode && f[4] == "" &&
      f[5] == m.threadName && f[6] == m.dataType &&
      f[7] == (if m.success then "true" else "false") &&
      f[8] == ConvertFailureMessage(m.failureMessage) &&
      ParseDecimal(f[9]) == m.bytes && ParseDecimal(f[10]) == m.sentBytes &&
      ParseDecimal(f[11]) == m.grpThreads && ParseDecimal(f[12]) == m.allThreads &&
      f[13] == (if IsBlank(m.url) then "" else DeleteWhitespace(m.url)) &&
      ParseDecimal(f[14]) == m.latency && ParseDecimal(f[15]) == m.idleTime &&
      ParseDecimal(f[16]) == m.connectTime
  {
    ConvertToLineSplits(m);
    ColumnsDecodeTimes(m);
    ColumnsDecodeCounts(m);
    ColumnsDecodeTimings(m);
    ColumnsText(m);
  }

  lemma ColumnsText(m: Metric)
    ensures Columns(m)[2] == m.sampleLabel
    ensures Columns(m)[3] == m.responseCode
    ensures Columns(m)[4] == ""
    ensures Columns(m)[5] == m.threadName
    ensures Columns(m)[6] == m.dataType
    ensures Columns(m)[7] == if m.success then "true" else "false"
    ensures Columns(m)[8] == ConvertFailureMessage(m.failureMessage)
    ensures Columns(m)[13] == if IsBlank(m.url) then "" else DeleteWhitespace(m.url)
  {
    ColumnsAt(DecimalString(m.timestamp), DecimalString(GetElapsed(m.elapsedTime)),
      m.sampleLabel, m.responseCode, m.threadName, m.dataType, BoolString(m.success),
      ConvertFailureMessage(m.failureMessage), DecimalString(m.bytes), DecimalString(m.sentBytes),
      DecimalString(m.grpThreads), DecimalString(m.allThreads), UrlColumn(m.url),
      DecimalString(m.latency), DecimalString(m.idleTime), DecimalString(m.connectTime));
  }

  /** The numeric columns hold the decimal text of their fields. */
  lemma ColumnsNumbers(m: Metric)
    ensures Columns(m)[0] == DecimalString(m.timestamp)
    ensures Columns(m)[1] == DecimalString(GetElapsed(m.elapsedTime))
    ensures Columns(m)[9] == DecimalString(m.bytes)
    ensures Columns(m)[10] == DecimalString(m.sentBytes)
    ensures Columns(m)[11] == DecimalString(m.grpThreads)
    ensures Columns(m)[12] == DecimalString(m.allThreads)
    ensures Columns(m)[14] == DecimalString(m.latency)
    ensures Columns(m)[15] == DecimalString(m.idleTime)
    ensures Columns(m)[16] == DecimalString(m.connectTime)
  {
    ColumnsAt(DecimalString(m.timestamp), DecimalString(GetElapsed(m.elapsedTime)),
      m.sampleLabel, m.responseCode, m.threadName, m.dataType, BoolString(m.success),
      ConvertFailureMessage(m.failureMessage), DecimalString(m.bytes), DecimalString(m.sentBytes),
      DecimalString(m.grpThreads), DecimalString(m.allThreads), UrlColumn(m.url),
      DecimalString(m.latency), DecimalString(m.idleTime), DecimalString(m.connectTime));
  }

  /** Indexing into a row of 17 columns whose fifth is empty gives back the
      column placed there. */
  lemma ColumnsAt(s0: string, s1: string, s2: string, s3: string, s5: string, s6: string, s7: string, s8: string, s9: string, s10: string, s11: string, s12: string, s13: string, s14: string, s15: string, s16: string)
    ensures [s0, s1, s2, s3, "", s5, s6, s7, s8, s9, s10, s11, s12, s13, s14, s15, s16][4] == ""
    ensures [s0, s1, s2, s3, "", s5, s6, s7, s8, s9, s10, s11, s12, s13, s14, s15, s16][0] == s0
    ensures [s0, s1, s2, s3, "", s5, s6, s7, s8, s9, s10, s11, s12, s13, s14, s15, s16][1] == s1
    ensures [s0, s1, s2, s3, "", s5, s6, s7, s8, s9, s10, s11, s12, s13, s14, s15, s16][2] == s2
    ensures [s0, s1, s2, s3, "", s5, s6, s7, s8, s9, s10, s11, s12, s13, s14, s15, s16][3] == s3
    ensures [s0, s1, s2, s3, "", s5, s6, s7, s8, s9, s10, s11, s12, s13, s14, s15, s16][5] == s5
    ensures [s0, s1, s2, s3, "", s5, s6, s7, s8, s9, s10, s11, s12, s13, s14, s15, s16][6] == s6
    ensures [s0, s1, s2, s3, "", s5, s6, s7, s8, s9, s10, s11, s12, s13, s14, s15, s16][7] == s7
    ensures [s0, s1, s2, s3, "", s5, s6, s7, s8, s9, s10, s11, s12, s13, s14, s15, s16][8] == s8
    ensures [s0, s1, s2, s3, "", s5, s6, s7, s8, s9, s10, s11, s12, s13, s14, s15, s16][9] == s9
    ensures [s0, s1, s2, s3, "", s5, s6, s7, s8, s9, s10, s11, s12, s13, s14, s15, s16][10] == s10
    ensures [s0, s1, s2, s3, "", s5, s6, s7, s8, s9, s10, s11, s12, s13, s14, s15, s16][11] == s11
    ensures [s0, s1, s2, s3, "", s5, s6, s7, s8, s9, s10, s11, s12, s13, s14, s15, s16][12] == s12
    ensures [s0, s1, s2, s3, "", s5, s6, s7, s8, s9, s10, s11, s12, s13, s14, s15, s16][13] == s13
    ensures [s0, s1, s2, s3, "", s5, s6, s7, s8, s9, s10, s11, s12, s13, s14, s15, s16][14] == s14
    ensures [s0, s1, s2, s3, "", s5, s6, s7, s8, s9, s10, s11, s12, s13, s14, s15, s16][15] == s15
    ensures [s0, s1, s2, s3, "", s5, s6, s7, s8, s9, s10, s11, s12, s13, s14, s15, s16][16] == s16
  {
  }

  lemma ConvertToLineSplits(m: Metric)
    requires NoStrayCommas(m)
    ensures Split(Body(m), ',') == Columns(m)
  {
    var c := Columns(m);
    var j := Join(c, ',');
    ConvertToLineIsJoin(m);
    assert (j + "\n")[..|j|] == j;
    assert Body(m) == j;
    ColumnsNoComma(m);
    SplitJoin(c, ',');
  }

  lemma ColumnsNoComma(m: Metric)
    requires NoStrayCommas(m)
    ensures forall i :: 0 <= i < |Columns(m)| ==> ',' !in Columns(m)[i]
  {
    UrlColumnNoComma(m.url);
    DecimalNoSeparator(m.timestamp);
    DecimalNoSeparator(GetElapsed(m.elapsedTime));
    DecimalNoSeparator(m.bytes);
    DecimalNoSeparator(m.sentBytes);
    DecimalNoSeparator(m.grpThreads);
    DecimalNoSeparator(m.allThreads);
    DecimalNoSeparator(m.latency);
    DecimalNoSeparator(m.idleTime);
    DecimalNoSeparator(m.connectTime);
    NoCharInColumns(DecimalString(m.timestamp), DecimalString(GetElapsed(m.elapsedTime)),
      m.sampleLabel, m.responseCode, m.threadName, m.dataType, BoolString(m.success),
      ConvertFailureMessage(m.failureMessage), DecimalString(m.bytes), DecimalString(m.sentBytes),
      DecimalString(m.grpThreads), DecimalString(m.allThreads), UrlColumn(m.url),
      DecimalString(m.latency), DecimalString(m.idleTime), DecimalString(m.connectTime), ',');
  }

  /** A character absent from all 16 given columns is absent from every column of the row. */
  lemma NoCharInColumns(s0: string, s1: string, s2: string, s3: string, s5: string, s6: string, s7: string, s8: string, s9: string, s10: string, s11: string, s12: string, s13: string, s14: string, s15: string, s16: string, x: char)
    requires x !in s0 && x !in s1 && x !in s2 && x !in s3 && x !in s5 && x !in s6 && x !in s7 && x !in s8 && x !in s9 && x !in s10 && x !in s11 && x !in s12 && x !in s13 && x !in s14 && x !in s15 && x !in s16
    ensures forall i :: 0 <= i < 17 ==> x !in [s0, s1, s2, s3, "", s5, s6, s7, s8, s9, s10, s11, s12, s13, s14, s15, s16][i]
  {
  }

  /** The timestamp and elapsed columns parse back to their values. */
  lemma ColumnsDecodeTimes(m: Metric)
    ensures var f := Columns(m);
      ParseDecimal(f[0]) == m.timestamp &&
      ParseDecimal(f[1]) == m.elapsedTime.minute * 60 + m.elapsedTime.second
  {
    var f := Columns(m);
    ColumnsNumbers(m);
    ColumnParses(f, 0, m.timestamp);
    ColumnParses(f, 1, GetElapsed(m.elapsedTime));
  }

  /** The byte and thread-count columns parse back to their values. */
  lemma ColumnsDecodeCounts(m: Metric)
    ensures var f := Columns(m);
      ParseDecimal(f[9]) == m.bytes && ParseDecimal(f[10]) == m.sentBytes &&
      ParseDecimal(f[11]) == m.grpThreads && ParseDecimal(f[12]) == m.allThreads
  {
    var f := Columns(m);
    ColumnsNumbers(m);
    ColumnParses(f, 9, m.bytes);
    ColumnParses(f, 10, m.sentBytes);
    ColumnParses(f, 11, m.grpThreads);
    ColumnParses(f, 12, m.allThreads);
  }

  /** The latency, idle-time and connect-time columns parse back to their values. */
  lemma ColumnsDecodeTimings(m: Metric)
    ensures var f := Columns(m);
      ParseDecimal(f[14]) == m.latency && ParseDecimal(f[15]) == m.idleTime &&
      ParseDecimal(f[16]) == m.connectTime
  {
    var f := Columns(m);
    ColumnsNumbers(m);
    ColumnParses(f, 14, m.latency);
    ColumnParses(f, 15, m.idleTime);
    ColumnParses(f, 16, m.connectTime);
  }

  /** A column holding the decimal text of n parses back to n. */
  lemma ColumnParses(f: seq<string>, k: nat, n: int)
    requires k < |f| && f[k] == DecimalString(n)
    ensures ParseDecimal(f[k]) == n
  {
    ParseDecimalString(n);
  }

  lemma UrlColumnNoComma(url: string)
    requires ',' !in url
    ensures ',' !in UrlColumn(url)
  {
  }

  /** With comma-free free-text fields the line holds exactly 16 commas. */
  lemma ConvertToLineCommas(m: Metric)
    requires NoStrayCommas(m)
    ensures multiset(ConvertToLine(m))[','] == 16
  {
    ConvertToLineIsJoin(m);
    ColumnsNoComma(m);
    JoinLineCount(ConvertToLine(m), Columns(m), ',');
  }

  /** A line made of columns free of the delimiter, joined by it and closed by a
      line feed, holds one delimiter per gap and no other. */
  lemma JoinLineCount(line: string, cols: seq<string>, d: char)
    requires |cols| >= 1 && d != '\n'
    requires line == Join(cols, d) + "\n"
    requires forall i :: 0 <= i < |cols| ==> d !in cols[i]
    ensures multiset(line)[d] == |cols| - 1
  {
    JoinCount(cols, d, d);
    SumCountZero(cols, d);
  }

  /** No line feed survives in the failure-message and URL columns, nor can one
      occur in a number or a boolean: only the label, the response code, the
      thread name and the data type can carry one. */
  lemma ColumnsNoNewline(m: Metric)
    requires '\n' !in m.sampleLabel && '\n' !in m.responseCode
    requires '\n' !in m.threadName && '\n' !in m.dataType
    ensures forall i :: 0 <= i < |Columns(m)| ==> '\n' !in Columns(m)[i]
  {
    assert IsWhitespace('\n');
    DecimalNoSeparator(m.timestamp);
    DecimalNoSeparator(GetElapsed(m.elapsedTime));
    DecimalNoSeparator(m.bytes);
    DecimalNoSeparator(m.sentBytes);
    DecimalNoSeparator(m.grpThreads);
    DecimalNoSeparator(m.allThreads);
    DecimalNoSeparator(m.latency);
    DecimalNoSeparator(m.idleTime);
    DecimalNoSeparator(m.connectTime);
    NoCharInColumns(DecimalString(m.timestamp), DecimalString(GetElapsed(m.elapsedTime)),
      m.sampleLabel, m.responseCode, m.threadName, m.dataType, BoolString(m.success),
      ConvertFailureMessage(m.failureMessage), DecimalString(m.bytes), DecimalString(m.sentBytes),
      DecimalString(m.grpThreads), DecimalString(m.allThreads), UrlColumn(m.url),
      DecimalString(m.latency), DecimalString(m.idleTime), DecimalString(m.connectTime), '\n');
  }

  /** So when those four fields hold no line feed, the line ends in the only one. */
  lemma ConvertToLineOneLine(m: Metric)
    requires '\n' !in m.sampleLabel && '\n' !in m.responseCode
    requires '\n' !in m.threadName && '\n' !in m.dataType
    ensures '\n' !in Body(m)
    ensures multiset(ConvertToLine(m))['\n'] == 1
  {
    ConvertToLineIsJoin(m);
    ColumnsNoNewline(m);
    JoinLineFeeds(ConvertToLine(m), Columns(m), ',');
  }

  /** A line made of columns free of line feeds, joined by another character and
      closed by a line feed, holds that one line feed only. */
  lemma JoinLineFeeds(line: string, cols: seq<string>, d: char)
    requires |cols| >= 1 && d != '\n'
    requires line == Join(cols, d) + "\n"
    requires forall i :: 0 <= i < |cols| ==> '\n' !in cols[i]
    ensures '\n' !in line[..|line| - 1]
    ensures multiset(line)['\n'] == 1
  {
    var j := Join(cols, d);
    assert line[..|line| - 1] == j;
    JoinCount(cols, d, '\n');
    SumCountZero(cols, '\n');
    AbsentCount(j, '\n');
  }

  /** The line is its 17 columns joined by commas and closed by a line feed. */
  lemma ConvertToLineIsJoin(m: Metric)
    ensures ConvertToLine(m) == Join(Columns(m), ',') + "\n"
  {
    JoinSeventeen(DecimalString(m.timestamp), DecimalString(GetElapsed(m.elapsedTime)),
      m.sampleLabel, m.responseCode, m.threadName, m.dataType, BoolString(m.success),
      ConvertFailureMessage(m.failureMessage), DecimalString(m.bytes), DecimalString(m.sentBytes),
      DecimalString(m.grpThreads), DecimalString(m.allThreads), UrlColumn(m.url),
      DecimalString(m.latency), DecimalString(m.idleTime), DecimalString(m.connectTime));
  }

  /** Joining 17 columns whose fifth is empty, written out as appends. */
  lemma JoinSeventeen(s0: string, s1: string, s2: string, s3: string, s5: string, s6: string,
                      s7: string, s8: string, s9: string, s10: string, s11: string, s12: string,
                      s13: string, s14: string, s15: string, s16: string)
    ensures Join([s0, s1, s2, s3, "", s5, s6, s7, s8, s9, s10, s11, s12, s13, s14, s15, s16], ',')
         == s0 + "," + s1 + "," + s2 + "," + s3 + "," + "," + s5 + "," + s6 + "," + s7 + "," +
            s8 + "," + s9 + "," + s10 + "," + s11 + "," + s12 + "," + s13 + "," + s14 + "," +
            s15 + "," + s16
  {
    var c := [s0, s1, s2, s3, "", s5, s6, s7, s8, s9, s10, s11, s12, s13, s14, s15, s16];
    assert Join(c[..1], ',') == c[0];
    JoinSnoc(c[..1], c[1], ','); assert c[..1] + [c[1]] == c[..2];
    JoinSnoc(c[..2], c[2], ','); assert c[..2] + [c[2]] == c[..3];
    JoinSnoc(c[..3], c[3], ','); assert c[..3] + [c[3]] == c[..4];
    JoinSnoc(c[..4], c[4], ','); assert c[..4] + [c[4]] == c[..5];
    assert Join(c[..4], ',') + "," + "" == Join(c[..4], ',') + ",";
    JoinSnoc(c[..5], c[5], ','); assert c[..5] + [c[5]] == c[..6];
    JoinSnoc(c[..6], c[6], ','); assert c[..6] + [c[6]] == c[..7];
    JoinSnoc(c[..7], c[7], ','); assert c[..7] + [c[7]] == c[..8];
    JoinSnoc(c[..8], c[8], ','); assert c[..8] + [c[8]] == c[..9];
    JoinSnoc(c[..9], c[9], ','); assert c[..9] + [c[9]] == c[..10];
    JoinSnoc(c[..10], c[10], ','); assert c[..10] + [c[10]] == c[..11];
    JoinSnoc(c[..11], c[11], ','); assert c[..11] + [c[11]] == c[..12];
    JoinSnoc(c[..12], c[12], ','); assert c[..12] + [c[12]] == c[..13];
    JoinSnoc(c[..13], c[13], ','); assert c[..13] + [c[13]] == c[..14];
    JoinSnoc(c[..14], c[14], ','); assert c[..14] + [c[14]] == c[..15];
    JoinSnoc(c[..15], c[15], ','); assert c[..15] + [c[15]] == c[..16];
    JoinSnoc(c[..16], c[16], ','); assert c[..16] + [c[16]] == c[..17];
    assert c[..17] == c;
  }
}
