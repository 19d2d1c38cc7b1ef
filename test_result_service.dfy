/** TestResultService's ingest and completion path, run one call at a time:
    savePartContent stores a data fragment and marks the report and its test as
    running; completeReport marks both as reporting and has every report generator
    build its part of the report from the assembled content; generateReport waits
    for all generators to count down and then marks both as completed. */
module TestResults {
  import opened LineEncoder
  import opened PartStore
  import opened Status

  /** What a generator's turn did: init returned and execute returned, init
      returned and execute threw, or init threw (so execute never ran and the
      finally block that counts the latch down was never entered). */
  datatype Outcome = Succeeded | Failed | InitFailed

  /** A report generator listed by ReportGeneratorFactory, known by its name. */
  datatype Generator = Generator(name: string)

  /** One generator's turn in the fan-out: the report id and content it was
      initialised with, what the turn did, and the latch count after it. */
  datatype Run = Run(generator: Generator, reportId: string, content: string,
                     outcome: Outcome, remaining: nat)

  /** How much a turn with this outcome counts the latch down. */
  function Decrement(o: Outcome): nat {
    if o == InitFailed then 0 else 1
  }

  /** The turns of the given generators in list order, each initialised with the
      same report id and content, starting from a latch at the given count. */
  function Turns(generators: seq<Generator>, reportId: string, content: string,
                 turn: (Generator, string, string) -> Outcome, latch: nat): (r: seq<Run>)
    requires |generators| <= latch
    ensures |r| == |generators|
    decreases |generators|
  {
    if generators == [] then []
    else
      var o := turn(generators[0], reportId, content);
      var after := latch - Decrement(o);
      [Run(generators[0], reportId, content, o, after)]
        + Turns(generators[1..], reportId, content, turn, after)
  }

  /** The fan-out's turns, the latch starting at the number of generators. */
  function Schedule(generators: seq<Generator>, reportId: string, content: string,
                    turn: (Generator, string, string) -> Outcome): (r: seq<Run>)
    ensures |r| == |generators|
    ensures forall i :: 0 <= i < |r| ==>
      r[i].generator == generators[i] && r[i].reportId == reportId && r[i].content == content &&
      r[i].outcome == turn(generators[i], reportId, content)
  {
    TurnsShape(generators, reportId, content, turn, |generators|);
    Turns(generators, reportId, content, turn, |generators|)
  }

  /** Turn i is generator i's, with the shared report id and content and what
      the turn did. */
  lemma {:induction false} TurnsShape(generators: seq<Generator>, reportId: string, content: string,
                                     turn: (Generator, string, string) -> Outcome, latch: nat)
    requires |generators| <= latch
    ensures var r := Turns(generators, reportId, content, turn, latch);
      forall i :: 0 <= i < |r| ==>
        r[i].generator == generators[i] && r[i].reportId == reportId && r[i].content == content &&
        r[i].outcome == turn(generators[i], reportId, content)
    decreases |generators|
  {
    if generators != [] {
      var o := turn(generators[0], reportId, content);
      var after := latch - Decrement(o);
      var rest := Turns(generators[1..], reportId, content, turn, after);
      TurnsShape(generators[1..], reportId, content, turn, after);
      var r := Turns(generators, reportId, content, turn, latch);
      forall i | 0 < i < |r|
        ensures r[i].generator == generators[i] && r[i].reportId == reportId &&
                r[i].content == content && r[i].outcome == turn(generators[i], reportId, content)
      {
        assert r[i] == rest[i - 1];
      }
    }
  }

  /** How many turns had the given outcome. */
  function CountOutcome(runs: seq<Run>, o: Outcome): nat {
    if runs == [] then 0 else (if runs[0].outcome == o then 1 else 0) + CountOutcome(runs[1..], o)
  }

  lemma {:induction false} CountOutcomeSnoc(runs: seq<Run>, r: Run, o: Outcome)
    ensures CountOutcome(runs + [r], o) == CountOutcome(runs, o) + (if r.outcome == o then 1 else 0)
  {
    if runs == [] {
      assert [] + [r] == [r];
      assert [r][1..] == [];
    } else {
      assert (runs + [r])[1..] == runs[1..] + [r];
      CountOutcomeSnoc(runs[1..], r, o);
    }
  }

  /** No turn has the outcome exactly when none was counted. */
  lemma {:induction false} CountOutcomeZero(runs: seq<Run>, o: Outcome)
    ensures CountOutcome(runs, o) == 0 <==> forall i :: 0 <= i < |runs| ==> runs[i].outcome != o
  {
    if runs != [] {
      CountOutcomeZero(runs[1..], o);
      if CountOutcome(runs, o) == 0 {
        forall i | 0 <= i < |runs| ensures runs[i].outcome != o {
          if i > 0 {
            assert runs[i] == runs[1..][i - 1];
          }
        }
      } else if runs[0].outcome != o {
        var k :| 0 <= k < |runs[1..]| && runs[1..][k].outcome == o;
        assert runs[k + 1].outcome == o;
      }
    }
  }

  /** Each turn lowers the latch by its decrement; after the last turn the latch
      is at the count it started from less the generators, plus one for every
      turn whose init threw. */
  lemma {:induction false} TurnsCountDown(generators: seq<Generator>, reportId: string, content: string,
                                         turn: (Generator, string, string) -> Outcome, latch: nat)
    requires |generators| <= latch
    ensures var r := Turns(generators, reportId, content, turn, latch);
      (r != [] ==> r[0].remaining == latch - Decrement(r[0].outcome)) &&
      (forall i :: 0 < i < |r| ==> r[i].remaining == r[i - 1].remaining - Decrement(r[i].outcome)) &&
      (r != [] ==> r[|r| - 1].remaining == latch - |r| + CountOutcome(r, InitFailed))
    decreases |generators|
  {
    if generators != [] {
      var r := Turns(generators, reportId, content, turn, latch);
      var after := latch - Decrement(r[0].outcome);
      var rest := Turns(generators[1..], reportId, content, turn, after);
      assert r == [r[0]] + rest;
      assert r[1..] == rest;
      TurnsCountDown(generators[1..], reportId, content, turn, after);
      forall i | 0 < i < |r|
        ensures r[i].remaining == r[i - 1].remaining - Decrement(r[i].outcome)
      {
        assert r[i] == rest[i - 1];
        if i > 1 {
          assert r[i - 1] == rest[i - 2];
        }
      }
    }
  }

  /** The turns from generator i on are generator i's turn followed by the turns
      after it. */
  lemma TurnsStep(generators: seq<Generator>, i: nat, reportId: string, content: string,
                  turn: (Generator, string, string) -> Outcome, latch: nat)
    requires i < |generators| && |generators| - i <= latch
    ensures var o := turn(generators[i], reportId, content);
      Turns(generators[i..], reportId, content, turn, latch)
        == [Run(generators[i], reportId, content, o, latch - Decrement(o))]
           + Turns(generators[i + 1..], reportId, content, turn, latch - Decrement(o))
  {
    assert generators[i..][1..] == generators[i + 1..];
  }

  /** Taking turn i moves the fan-out on by one: the turns so far followed by
      the remaining turns stay the whole schedule, and the latch still counts
      the turns not yet counted down. */
  lemma TurnAdvances(generators: seq<Generator>, i: nat, reportId: string, content: string,
                     turn: (Generator, string, string) -> Outcome, latch: nat, runs: seq<Run>)
    requires i < |generators| && |runs| == i && |generators| - i <= latch
    requires latch == |generators| - i + CountOutcome(runs, InitFailed)
    ensures var o := turn(generators[i], reportId, content);
      var after := latch - Decrement(o);
      var next := runs + [Run(generators[i], reportId, content, o, after)];
      |generators| - (i + 1) <= after &&
      next + Turns(generators[i + 1..], reportId, content, turn, after)
        == runs + Turns(generators[i..], reportId, content, turn, latch) &&
      after == |generators| - (i + 1) + CountOutcome(next, InitFailed)
  {
    var o := turn(generators[i], reportId, content);
    var after := latch - Decrement(o);
    var run := Run(generators[i], reportId, content, o, after);
    TurnsStep(generators, i, reportId, content, turn, latch);
    CountOutcomeSnoc(runs, run, InitFailed);
    Associative(runs, [run], Turns(generators[i + 1..], reportId, content, turn, after));
  }

  /** Every generator of the list has exactly one turn, in list order, with the
      same report id and content; the latch goes down by one for every turn
      whose init returned; after the last turn it holds the number of turns
      whose init threw, so it reaches zero exactly when no init threw. */
  lemma ScheduleCountsDown(generators: seq<Generator>, reportId: string, content: string,
                           turn: (Generator, string, string) -> Outcome)
    ensures var runs := Schedule(generators, reportId, content, turn);
      |runs| == |generators| &&
      (forall i :: 0 <= i < |runs| ==> runs[i].generator == generators[i] && runs[i].content == content) &&
      (runs != [] ==> runs[0].remaining == |generators| - Decrement(runs[0].outcome)) &&
      (forall i :: 0 < i < |runs| ==> runs[i].remaining == runs[i - 1].remaining - Decrement(runs[i].outcome)) &&
      (runs != [] ==> runs[|runs| - 1].remaining == CountOutcome(runs, InitFailed)) &&
      (CountOutcome(runs, InitFailed) == 0 <==> forall i :: 0 <= i < |runs| ==> runs[i].outcome != InitFailed)
  {
    TurnsCountDown(generators, reportId, content, turn, |generators|);
    CountOutcomeZero(Schedule(generators, reportId, content, turn), InitFailed);
  }

  /** The countdown does not depend on whether execute returns or throws: under
      two behaviours whose inits throw for the same generators, every turn
      leaves the latch at the same count. */
  lemma {:induction false} LatchIgnoresOutcome(generators: seq<Generator>, reportId: string, content: string,
                            e1: (Generator, string, string) -> Outcome,
                            e2: (Generator, string, string) -> Outcome, latch: nat)
    requires |generators| <= latch
    requires forall g :: (e1(g, reportId, content) == InitFailed) == (e2(g, reportId, content) == InitFailed)
    ensures var r1 := Turns(generators, reportId, content, e1, latch);
      var r2 := Turns(generators, reportId, content, e2, latch);
      |r1| == |r2| && forall i :: 0 <= i < |r1| ==> r1[i].remaining == r2[i].remaining
    decreases |generators|
  {
    if generators != [] {
      var r1 := Turns(generators, reportId, content, e1, latch);
      var r2 := Turns(generators, reportId, content, e2, latch);
      var after := latch - Decrement(e1(generators[0], reportId, content));
      assert after == latch - Decrement(e2(generators[0], reportId, content));
      LatchIgnoresOutcome(generators[1..], reportId, content, e1, e2, after);
      forall i | 0 < i < |r1| ensures r1[i].remaining == r2[i].remaining {
        assert r1[i] == Turns(generators[1..], reportId, content, e1, after)[i - 1];
        assert r2[i] == Turns(generators[1..], reportId, content, e2, after)[i - 1];
      }
    }
  }

  /** One init that throws keeps the latch above zero for good: generateReport's
      await never returns and the report is never completed. */
  lemma InitFailureBlocks(generators: seq<Generator>, reportId: string, content: string,
                          turn: (Generator, string, string) -> Outcome, k: nat)
    requires k < |generators| && turn(generators[k], reportId, content) == InitFailed
    ensures CountOutcome(Schedule(generators, reportId, content, turn), InitFailed) > 0
  {
    CountOutcomeZero(Schedule(generators, reportId, content, turn), InitFailed);
  }

  lemma Associative<T>(a: seq<T>, b: seq<T>, c: seq<T>)
    ensures a + (b + c) == (a + b) + c
  {
  }

  /** The two tables that carry a status. */
  datatype Entity = Report | Test

  /** A status write as the service issues it, or a generator's countDown with
      the latch count it left. */
  datatype Write =
    | Guarded(entity: Entity, id: string, newStatus: TestStatus, expected: TestStatus)
    | Selective(entity: Entity, id: string, status: TestStatus)
    | CountDown(generator: Generator, remaining: nat)

  /** The countDowns of the given turns in turn order: one for each turn whose
      init returned. */
  function CountDowns(runs: seq<Run>): (r: seq<Write>)
    ensures |r| == |runs| - CountOutcome(runs, InitFailed)
  {
    if runs == [] then []
    else
      var last := runs[|runs| - 1];
      CountOutcomeSnoc(runs[..|runs| - 1], last, InitFailed);
      assert runs[..|runs| - 1] + [last] == runs;
      CountDowns(runs[..|runs| - 1])
        + (if last.outcome == InitFailed then [] else [CountDown(last.generator, last.remaining)])
  }

  lemma CountDownsSnoc(runs: seq<Run>, r: Run)
    ensures CountDowns(runs + [r])
         == CountDowns(runs) + (if r.outcome == InitFailed then [] else [CountDown(r.generator, r.remaining)])
  {
    assert (runs + [r])[..|runs|] == runs;
  }

  /** The writes generateReport makes once the latch is at zero: Completed for
      the report, then for its test. */
  function CompletedWrites(reportId: string, testId: string): seq<Write> {
    [Selective(Report, reportId, Completed), Selective(Test, testId, Completed)]
  }

  /** The writes of n fragments: per fragment, the report's then the test's
      Starting-to-Running compare-and-set. */
  function IngestWrites(reportId: string, testId: string, n: nat): seq<Write> {
    if n == 0 then []
    else IngestWrites(reportId, testId, n - 1)
         + [Guarded(Report, reportId, Running, Starting), Guarded(Test, testId, Running, Starting)]
  }

  /** Every write of the ingest phase is a Starting-to-Running compare-and-set, in
      report-then-test pairs. */
  lemma {:induction false} IngestWritesShape(reportId: string, testId: string, n: nat)
    ensures |IngestWrites(reportId, testId, n)| == 2 * n
    ensures forall k :: 0 <= k < n ==>
      IngestWrites(reportId, testId, n)[2 * k] == Guarded(Report, reportId, Running, Starting) &&
      IngestWrites(reportId, testId, n)[2 * k + 1] == Guarded(Test, testId, Running, Starting)
  {
    if n > 0 {
      IngestWritesShape(reportId, testId, n - 1);
    }
  }

  class TestResultService {
    /** The report-detail table. */
    const details: DetailTable
    /** The status of each report row. */
    var reportStatus: StatusTable
    /** The test each report row belongs to. */
    const reportTest: map<string, string>
    /** The status of each test row. */
    var testStatus: StatusTable
    /** The status writes issued so far, in order. */
    ghost var writes: seq<Write>

    ghost predicate Valid()
      reads this, details
    {
      details.Valid() && reportStatus.Keys == reportTest.Keys
    }

    /** A service over the given report and test rows and an empty detail table. */
    constructor (reports: StatusTable, reportTests: map<string, string>, tests: StatusTable)
      requires reports.Keys == reportTests.Keys
      ensures Valid() && fresh(details)
      ensures reportStatus == reports && reportTest == reportTests && testStatus == tests
      ensures details.rows == map[] && writes == []
    {
      details := new DetailTable();
      reportStatus := reports;
      reportTest := reportTests;
      testStatus := tests;
      writes := [];
    }

    /** savePartContent: the report and then the test go from Starting to Running
        if they are still Starting; the fragment is stored as the report's next part. */
    method SavePartContent(reportId: string, testId: string, content: string)
      requires Valid()
      modifies this, details
      ensures Valid()
      ensures reportStatus == CompareAndSet(old(reportStatus), reportId, Running, Starting)
      ensures testStatus == CompareAndSet(old(testStatus), testId, Running, Starting)
      ensures details.rows == WithPart(old(details.rows), reportId, content)
      ensures writes == old(writes) + [Guarded(Report, reportId, Running, Starting),
                                       Guarded(Test, testId, Running, Starting)]
    {
      reportStatus := CompareAndSet(reportStatus, reportId, Running, Starting);
      testStatus := CompareAndSet(testStatus, testId, Running, Starting);
      writes := writes + [Guarded(Report, reportId, Running, Starting),
                          Guarded(Test, testId, Running, Starting)];
      var part := details.CountByReport(reportId);
      details.Insert(reportId, Part(part + 1, content));
    }

    /** The fan-out of generateReport, one generator after another: each turn
        assembles the content, initialises the generator and executes it; the
        latch is counted down in the finally block around execute, so a turn
        whose init threw leaves it as it was. */
    method FanOut(reportId: string, parts: seq<Part>, generators: seq<Generator>,
                  turn: (Generator, string, string) -> Outcome)
      returns (latch: nat, runs: seq<Run>)
      requires Valid()
      modifies this
      ensures Valid()
      ensures runs == Schedule(generators, reportId, Concat(parts), turn)
      ensures latch == CountOutcome(runs, InitFailed)
      ensures reportStatus == old(reportStatus) && testStatus == old(testStatus)
      ensures writes == old(writes) + CountDowns(runs)
    {
      latch := |generators|;
      runs := [];
      assert generators[0..] == generators;
      for i := 0 to |generators|
        invariant |runs| == i
        invariant |generators| - i <= latch
        invariant runs + Turns(generators[i..], reportId, Concat(parts), turn, latch)
               == Schedule(generators, reportId, Concat(parts), turn)
        invariant latch == |generators| - i + CountOutcome(runs, InitFailed)
        invariant writes == old(writes) + CountDowns(runs)
        invariant reportStatus == old(reportStatus) && testStatus == old(testStatus)
      {
        latch, runs := TakeTurn(reportId, parts, generators, turn, i, latch, runs, old(writes));
      }
      assert generators[|generators|..] == [];
    }

    /** One generator's task in the fan-out: assemble the content with the
        reduce, init and execute the generator, and count the latch down unless
        init threw. The turns taken so far are followed by this one. */
    method TakeTurn(reportId: string, parts: seq<Part>, generators: seq<Generator>,
                    turn: (Generator, string, string) -> Outcome, i: nat, latch: nat,
                    runs: seq<Run>, ghost base: seq<Write>)
      returns (latch': nat, runs': seq<Run>)
      requires i < |generators| && |runs| == i && |generators| - i <= latch
      requires latch == |generators| - i + CountOutcome(runs, InitFailed)
      requires writes == base + CountDowns(runs)
      modifies this
      ensures |generators| - (i + 1) <= latch'
      ensures runs' == runs + [Run(generators[i], reportId, Concat(parts),
                                   turn(generators[i], reportId, Concat(parts)), latch')]
      ensures runs' + Turns(generators[i + 1..], reportId, Concat(parts), turn, latch')
           == runs + Turns(generators[i..], reportId, Concat(parts), turn, latch)
      ensures latch' == |generators| - (i + 1) + CountOutcome(runs', InitFailed)
      ensures writes == base + CountDowns(runs')
      ensures reportStatus == old(reportStatus) && testStatus == old(testStatus)
    {
      var content := ReduceContents(parts);
      var outcome := turn(generators[i], reportId, content);
      TurnAdvances(generators, i, reportId, content, turn, latch, runs);
      latch' := latch - Decrement(outcome);
      var run := Run(generators[i], reportId, content, outcome, latch');
      ghost var counted := if outcome == InitFailed then [] else [CountDown(generators[i], latch')];
      CountDownsSnoc(runs, run);
      Associative(base, CountDowns(runs), counted);
      writes := writes + counted;
      runs' := runs + [run];
    }

    /** generateReport: every generator gets its turn with the report's parts
        assembled in part order. Once the latch is at zero the report and then its
        test are marked Completed; a latch left above zero is an await that never
        returns, and nothing more is written. With no report row there is nothing
        to mark and no status is written. */
    method GenerateReport(reportId: string, generators: seq<Generator>,
                          turn: (Generator, string, string) -> Outcome)
      returns (latch: nat, runs: seq<Run>, completed: bool)
      requires Valid()
      modifies this
      ensures Valid()
      ensures runs == Schedule(generators, reportId, Concat(PartsOf(details.rows, reportId)), turn)
      ensures latch == CountOutcome(runs, InitFailed)
      ensures completed <==> latch == 0 && reportId in old(reportStatus)
      ensures completed ==>
        reportStatus == SetStatus(old(reportStatus), reportId, Completed) &&
        testStatus == SetStatus(old(testStatus), reportTest[reportId], Completed) &&
        writes == old(writes) + CountDowns(runs) + CompletedWrites(reportId, reportTest[reportId])
      ensures !completed ==>
        reportStatus == old(reportStatus) && testStatus == old(testStatus) &&
        writes == old(writes) + CountDowns(runs)
    {
      var parts := details.SelectOrdered(reportId);
      latch, runs := FanOut(reportId, parts, generators, turn);
      completed := latch == 0 && reportId in reportStatus;
      if completed {
        reportStatus := SetStatus(reportStatus, reportId, Completed);
        testStatus := SetStatus(testStatus, reportTest[reportId], Completed);
        writes := writes + CompletedWrites(reportId, reportTest[reportId]);
      }
    }

    /** completeReport: with a report row, the report and then the metric's test are
        marked Reporting and the report is generated; without one, nothing is written
        and nothing is generated. */
    method CompleteReport(metric: Metric, generators: seq<Generator>,
                          turn: (Generator, string, string) -> Outcome)
      returns (found: bool, runs: seq<Run>, completed: bool)
      requires Valid()
      modifies this
      ensures Valid()
      ensures found <==> metric.reportId in old(reportStatus)
      ensures !found ==>
        runs == [] && !completed && reportStatus == old(reportStatus) &&
        testStatus == old(testStatus) && writes == old(writes)
      ensures found ==>
        runs == Schedule(generators, metric.reportId,
                         Concat(PartsOf(details.rows, metric.reportId)), turn) &&
        (completed <==> CountOutcome(runs, InitFailed) == 0) &&
        var reporting := SetStatus(old(reportStatus), metric.reportId, Reporting);
        var testReporting := SetStatus(old(testStatus), metric.testId, Reporting);
        var started := old(writes) + [Selective(Report, metric.reportId, Reporting),
                                      Selective(Test, metric.testId, Reporting)]
                                   + CountDowns(runs);
        (completed ==>
          reportStatus == SetStatus(reporting, metric.reportId, Completed) &&
          testStatus == SetStatus(testReporting, reportTest[metric.reportId], Completed) &&
          writes == started + CompletedWrites(metric.reportId, reportTest[metric.reportId])) &&
        (!completed ==>
          reportStatus == reporting && testStatus == testReporting && writes == started)
    {
      found := metric.reportId in reportStatus;
      if !found {
        runs := [];
        completed := false;
        return;
      }
      reportStatus := SetStatus(reportStatus, metric.reportId, Reporting);
      testStatus := SetStatus(testStatus, metric.testId, Reporting);
      writes := writes + [Selective(Report, metric.reportId, Reporting),
                          Selective(Test, metric.testId, Reporting)];
      var latch;
      latch, runs, completed := GenerateReport(metric.reportId, generators, turn);
    }
  }

  /** One test run as the service sees it: a fresh report and test, both Starting,
      the data fragments in order, then the tear-down metric. Every generator is
      handed the fragments concatenated in arrival order. The writes are the
      fragments' compare-and-sets, then Reporting for report and test, then the
      countDowns; when no init threw, report and test end Completed after them,
      otherwise both stay Reporting. */
  method Session(reportId: string, testId: string, chunks: seq<string>, tearDown: Metric,
                 generators: seq<Generator>, turn: (Generator, string, string) -> Outcome)
    returns (runs: seq<Run>, reportFinal: TestStatus, testFinal: TestStatus, ghost log: seq<Write>)
    requires tearDown.reportId == reportId && tearDown.testId == testId
    ensures runs == Schedule(generators, reportId, Flatten(chunks), turn)
    ensures var done := CountOutcome(runs, InitFailed) == 0;
      reportFinal == (if done then Completed else Reporting) &&
      testFinal == (if done then Completed else Reporting) &&
      log == IngestWrites(reportId, testId, |chunks|)
             + [Selective(Report, reportId, Reporting), Selective(Test, testId, Reporting)]
             + CountDowns(runs)
             + (if done then CompletedWrites(reportId, testId) else [])
  {
    var svc := new TestResultService(map[reportId := Starting], map[reportId := testId],
                                     map[testId := Starting]);
    Ingest(svc, reportId, testId, chunks);
    AssembleAppendAll(map[], reportId, chunks);
    runs, reportFinal, testFinal := TearDown(svc, tearDown, generators, turn, svc.writes);
    log := svc.writes;
  }

  /** The tear-down message for a report and test that both have rows: the
      report is completed, and what each row ends at depends only on whether
      some init threw. */
  method TearDown(svc: TestResultService, tearDown: Metric, generators: seq<Generator>,
                  turn: (Generator, string, string) -> Outcome, ghost before: seq<Write>)
    returns (runs: seq<Run>, reportFinal: TestStatus, testFinal: TestStatus)
    requires svc.Valid() && svc.writes == before
    requires tearDown.reportId in svc.reportStatus && tearDown.testId in svc.testStatus
    requires svc.reportTest[tearDown.reportId] == tearDown.testId
    modifies svc
    ensures svc.Valid()
    ensures svc.reportStatus == SetStatus(old(svc.reportStatus), tearDown.reportId, reportFinal)
    ensures svc.testStatus == SetStatus(old(svc.testStatus), tearDown.testId, testFinal)
    ensures runs == Schedule(generators, tearDown.reportId,
                             Concat(PartsOf(svc.details.rows, tearDown.reportId)), turn)
    ensures var done := CountOutcome(runs, InitFailed) == 0;
      reportFinal == (if done then Completed else Reporting) &&
      testFinal == (if done then Completed else Reporting) &&
      svc.writes == before
             + [Selective(Report, tearDown.reportId, Reporting), Selective(Test, tearDown.testId, Reporting)]
             + CountDowns(runs)
             + (if done then CompletedWrites(tearDown.reportId, tearDown.testId) else [])
  {
    var found, completed;
    found, runs, completed := svc.CompleteReport(tearDown, generators, turn);
    reportFinal := svc.reportStatus[tearDown.reportId];
    testFinal := svc.testStatus[tearDown.testId];
  }

  /** Whether or not an earlier fragment already took the Starting-to-Running
      compare-and-set, taking it now leaves the table as one take would. */
  lemma RepeatedFragment(t: StatusTable, current: StatusTable, id: string, first: bool)
    requires current == if first then t else CompareAndSet(t, id, Running, Starting)
    ensures CompareAndSet(current, id, Running, Starting) == CompareAndSet(t, id, Running, Starting)
  {
    CompareAndSetIdempotent(t, id, Running, Starting);
  }

  /** The data fragments of a session, one savePartContent each, into a service
      that has no parts yet: after the first fragment the report and the test have
      taken the Starting-to-Running compare-and-set, which later fragments repeat
      without effect. */
  method Ingest(svc: TestResultService, reportId: string, testId: string, chunks: seq<string>)
    requires svc.Valid() && svc.details.rows == map[] && svc.writes == []
    modifies svc, svc.details
    ensures svc.Valid()
    ensures svc.details.rows == AppendAll(map[], reportId, chunks)
    ensures svc.reportStatus == if chunks == [] then old(svc.reportStatus)
                                else CompareAndSet(old(svc.reportStatus), reportId, Running, Starting)
    ensures svc.testStatus == if chunks == [] then old(svc.testStatus)
                              else CompareAndSet(old(svc.testStatus), testId, Running, Starting)
    ensures svc.writes == IngestWrites(reportId, testId, |chunks|)
  {
    ghost var reports := svc.reportStatus;
    ghost var tests := svc.testStatus;
    for i := 0 to |chunks|
      invariant svc.Valid()
      invariant svc.details.rows == AppendAll(map[], reportId, chunks[..i])
      invariant svc.reportStatus == if i == 0 then reports
                                    else CompareAndSet(reports, reportId, Running, Starting)
      invariant svc.testStatus == if i == 0 then tests
                                  else CompareAndSet(tests, testId, Running, Starting)
      invariant svc.writes == IngestWrites(reportId, testId, i)
    {
      AppendAllSnoc(map[], reportId, chunks[..i], chunks[i]);
      assert chunks[..i + 1] == chunks[..i] + [chunks[i]];
      RepeatedFragment(reports, svc.reportStatus, reportId, i == 0);
      RepeatedFragment(tests, svc.testStatus, testId, i == 0);
      svc.SavePartContent(reportId, testId, chunks[i]);
    }
    assert chunks[..|chunks|] == chunks;
  }
}
