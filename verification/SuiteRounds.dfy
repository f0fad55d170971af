/** The rounds of a suite are schedules of the test scheduler. */
module SuiteRounds {
  import opened Results
  import opened ExecTest
  import opened TestScheduler
  import opened TestSchedulerInv
  import opened TestSchedulerProperties
  import opened ScheduleOutcome
  import opened ScheduleProgress
  import Suite = SuiteScheduler

  function ResultsOf(records: seq<Record>): (rs: seq<Suite.TestResult>)
    ensures |rs| == |records|
    ensures forall k :: 0 <= k < |rs| ==> rs[k] == Suite.TestResult(records[k].test, records[k].row.returncode, false)
  {
    seq(|records|, k requires 0 <= k < |records| =>
      Suite.TestResult(records[k].test, records[k].row.returncode, false))
  }

  /** What the suite loop gets from a schedule that returns. */
  function RoundOf(s: Scheduler): Suite.Round
    requires Returning(s)
  {
    Suite.Round(ResultsOf(s.records), Suite.Returned(StepEnd(s).returned.value))
  }

  /** What it gets from one that is dropped by the suite timeout. */
  function RoundCut(s: Scheduler): Suite.Round {
    Suite.Round(ResultsOf(s.records), Suite.TimedOut)
  }

  lemma RecordsAreLegal(records: seq<Record>, run: Run, end: Suite.RoundEnd)
    requires RecordInv(records, run)
    ensures Suite.LegalRound(run.tests, Suite.Round(ResultsOf(records), end))
  {
    var from := seq(|records|, k requires 0 <= k < |records| => records[k].job);
    forall k | 0 <= k < |records| ensures from[k] < |run.tests| && run.tests[from[k]] == records[k].test {
      assert RecordFits(records[k], run);
    }
    assert Suite.StandsFor(run.tests, ResultsOf(records), from);
  }

  /** However a schedule ends, at whatever moment, what it recorded is a legal round. */
  lemma EveryRoundIsLegal(maxWorkers: nat, actions: seq<Action>)
    requires History(maxWorkers, actions).run.Some?
    ensures var s := History(maxWorkers, actions);
            && Suite.LegalRound(s.run.value.tests, RoundCut(s))
            && (Returning(s) ==> Suite.LegalRound(s.run.value.tests, RoundOf(s)))
  {
    hide History, ShapeInv, PermitInv, StopInv, RecordInv;
    EveryHistoryKeepsInv(maxWorkers, actions);
    var s := History(maxWorkers, actions);
    RecordsAreLegal(s.records, s.run.value, RoundCut(s).end);
    if Returning(s) {
      RecordsAreLegal(s.records, s.run.value, RoundOf(s).end);
    }
  }

  // ---------------------------------------------------------------- rounds that make progress

  /**
    Answers that cannot lose a result and go on: no panic before the command, no kernel error instead of
    a row, and none from reading the result.
   */
  predicate TameAnswers(answers: Answers) {
    !PanicsBefore(answers) && (Blocker(answers).Some? ==> !IsKernelError(Blocker(answers).value))
  }

  predicate TameVerdict(verdict: Verdict) {
    verdict.Unreadable? ==> !IsKernelError(verdict.error)
  }

  ghost predicate Tame(actions: seq<Action>) {
    forall k :: 0 <= k < |actions| && actions[k].OfTest? ==>
      match actions[k].act
      case Conclude(answers) => TameAnswers(answers)
      case Judge(verdict) => TameVerdict(verdict)
      case _ => true
  }

  lemma TameJob(j: Job, i: nat, actions: seq<Action>)
    requires Tame(actions) && TracedJob(j, i, actions) && j.Finished? && Sound(j) && !Interrupted(j)
    ensures Clear(j) ==> HasRecord(j)
    ensures forall e :: RaisedBy(j, e) && IsKernelError(e) ==> HasRecord(j)
  {
    if HeardBy(j).Some? {
      var answers := HeardBy(j).value;
      var k :| 0 <= k < |actions| && actions[k] == OfTest(i, Conclude(answers));
      assert TameAnswers(answers);
      RowMissingIff(answers);
    }
    if j.why.Unparsed? {
      var k :| 0 <= k < |actions| && actions[k] == OfTest(i, Judge(Unreadable(j.why.error)));
      assert TameVerdict(Unreadable(j.why.error));
    }
  }

  /** A schedule begun and finished without any stop on tame answers is a productive round. */
  lemma {:induction false} UnstoppedRoundIsProductive(maxWorkers: nat, before: seq<Action>, tests: seq<Test>, more: seq<Action>)
    requires Unstopped(maxWorkers, before, tests, more) && Tame(more)
    ensures Suite.Productive(tests, RoundOf(After(maxWorkers, before, tests, more)))
  {
    UnstoppedFacts(maxWorkers, before, tests, more);
    var r := After(maxWorkers, before, tests, more);
    hide After, Unstopped, Tame, PermitInv, StopInv, InOrder, HasRecord, Clear, RaisedBy, Sound, Interrupted, TracedJob, IsKernelError;
    var run, round := r.run.value, RoundOf(r);
    RecordedMeansRecord(r.records, run);
    match run.stage.error
    case None =>
      forall t | t in run.tests ensures t.name in Suite.Names(round.results) {
        var i :| 0 <= i < |run.tests| && run.tests[i] == t;
        assert JobFits(run.stage, InParallel(r, run.tests[i]), i, run.jobs[i]);
        assert run.jobs[i].Finished? by { ClearIsFinished(run.jobs[i]); }
        TameJob(run.jobs[i], i, more);
        var k :| 0 <= k < |r.records| && r.records[k].job == i;
        assert RecordFits(r.records[k], run);
        assert round.results[k] in round.results;
      }
    case Some(e) =>
      if IsKernelError(e) {
        var i :| 0 <= i < |run.jobs| && RaisedBy(run.jobs[i], e);
        assert run.jobs[i].Finished? by { RaiserIsFinished(run.jobs[i], e); }
        TameJob(run.jobs[i], i, more);
        assert Recorded1(r.records, i);
      }
  }

  lemma ClearIsFinished(j: Job)
    requires Clear(j)
    ensures j.Finished?
  {}

  lemma RaiserIsFinished(j: Job, e: KirkError)
    requires RaisedBy(j, e)
    ensures j.Finished?
  {}

  /**
    The same for any unstopped round, panics of tasks included: the suite's remainder gets strictly smaller
    if and only if some test that was started did not leave nothing.
   */
  lemma RoundShrinksIffSomethingLeft(suite: seq<Test>, left: seq<Test>, results: seq<Suite.TestResult>,
                                     maxWorkers: nat, before: seq<Action>, more: seq<Action>)
    requires Suite.Books(suite, left, results) && Unstopped(maxWorkers, before, left, more)
    ensures var r := After(maxWorkers, before, left, more);
            |Suite.NotDone(suite, Suite.Names(results + RoundOf(r).results))| < |left|
            <==> exists i :: 0 <= i < |r.run.value.jobs| && !r.run.value.jobs[i].Unspawned? && !LeftNothing(r.run.value.jobs[i])
  {
    UnstoppedFacts(maxWorkers, before, left, more);
    NothingRecordedIff(maxWorkers, before, left, more);
    var r := After(maxWorkers, before, left, more);
    hide After, Unstopped, ShapeInv, PermitInv, StopInv, InOrder, LeftNothing;
    RecordsAreLegal(r.records, r.run.value, RoundOf(r).end);
    Suite.RoundShrinksIff(suite, left, results, RoundOf(r));
  }

  /**
    The exact condition for an unstopped round to make progress, decided by what the target answers: the
    suite's remainder gets strictly smaller if and only if some test that is reached leaves a row that can
    be read, whatever the interleaving.
   */
  lemma RoundShrinksIffNotBarren(suite: seq<Test>, left: seq<Test>, results: seq<Suite.TestResult>,
                                 maxWorkers: nat, before: seq<Action>, more: seq<Action>, fates: seq<Fate>)
    requires Suite.Books(suite, left, results)
    requires Unstopped(maxWorkers, before, left, more) && |fates| == |left| && Obeys(more, fates)
    ensures var round := RoundOf(After(maxWorkers, before, left, more));
            |Suite.NotDone(suite, Suite.Names(results + round.results))| < |left|
            <==> !Barren(Workers(maxWorkers), left, fates)
  {
    UnstoppedFacts(maxWorkers, before, left, more);
    BarrenIff(maxWorkers, before, left, more, fates);
    var r := After(maxWorkers, before, left, more);
    hide After, Unstopped, Barren, Obeys, ShapeInv, PermitInv, StopInv, InOrder;
    RecordsAreLegal(r.records, r.run.value, RoundOf(r).end);
    Suite.RoundShrinksIff(suite, left, results, RoundOf(r));
  }

  // ---------------------------------------------------------------- a suite of schedules

  /**
    The round is a schedule of exactly the tests left, begun with no stop outstanding and run without
    one, that returned, or was dropped at some moment by the suite timeout.
   */
  ghost predicate ArisesFrom(left: seq<Test>, round: Suite.Round, maxWorkers: nat, before: seq<Action>, more: seq<Action>) {
    var r := After(maxWorkers, before, left, more);
    || (Unstopped(maxWorkers, before, left, more) && round == RoundOf(r))
    || (History(maxWorkers, before).run.None? && left != [] && r.run.Some?
        && r.epoch == History(maxWorkers, before).epoch + 1 && round == RoundCut(r))
  }

  /** `tame`: the target's answers in it are tame. */
  ghost predicate Arises(maxWorkers: nat, left: seq<Test>, round: Suite.Round, tame: bool) {
    exists before: seq<Action>, more: seq<Action> ::
      ArisesFrom(left, round, maxWorkers, before, more) && (tame ==> Tame(more))
  }

  /** Every turn of the loop that schedules at all schedules what is left then. */
  ghost predicate Genuine(maxWorkers: nat, suite: seq<Test>, left: seq<Test>, results: seq<Suite.TestResult>,
                          script: seq<Suite.Turn>, tame: bool)
    decreases |script|
  {
    left == [] || script == [] || script[0].stop ||
    var round := script[0].round;
    var collected := results + round.results;
    && Arises(maxWorkers, left, round, tame)
    && (Suite.Continues(script[0]) ==>
          Genuine(maxWorkers, suite, Suite.NotDone(suite, Suite.Names(collected)), collected, script[1..], tame))
  }

  lemma ArisingRoundIsLegal(maxWorkers: nat, left: seq<Test>, round: Suite.Round, tame: bool)
    requires Arises(maxWorkers, left, round, tame)
    ensures Suite.LegalRound(left, round)
  {
    var before: seq<Action>, more: seq<Action> :| ArisesFrom(left, round, maxWorkers, before, more);
    var r := After(maxWorkers, before, left, more);
    if Unstopped(maxWorkers, before, left, more) && round == RoundOf(r) {
      UnstoppedFacts(maxWorkers, before, left, more);
      hide After, Unstopped, ShapeInv, PermitInv, StopInv, InOrder;
      RecordsAreLegal(r.records, r.run.value, round.end);
    } else {
      CutRoundIsLegal(left, maxWorkers, before, more);
    }
  }

  lemma ArisingRoundIsProductive(maxWorkers: nat, left: seq<Test>, round: Suite.Round)
    requires Arises(maxWorkers, left, round, true)
    ensures Suite.Productive(left, round)
  {
    var before: seq<Action>, more: seq<Action> :| ArisesFrom(left, round, maxWorkers, before, more) && Tame(more);
    hide After, Unstopped, Tame;
    if Unstopped(maxWorkers, before, left, more) && round == RoundOf(After(maxWorkers, before, left, more)) {
      UnstoppedRoundIsProductive(maxWorkers, before, left, more);
    }
  }

  lemma CutRoundIsLegal(left: seq<Test>, maxWorkers: nat, before: seq<Action>, more: seq<Action>)
    requires var s, r := History(maxWorkers, before), After(maxWorkers, before, left, more);
             s.run.None? && left != [] && r.run.Some? && r.epoch == s.epoch + 1
    ensures Suite.LegalRound(left, RoundCut(After(maxWorkers, before, left, more)))
  {
    hide History, Step, RunFrom;
    TestsStay(StepBegin(History(maxWorkers, before), left), more);
    hide StepBegin;
    BeganHere(maxWorkers, before, left, more);
    EveryRoundIsLegal(maxWorkers, before + [Begin(left)] + more);
  }

  lemma {:induction false} GenuineIsWellRun(maxWorkers: nat, suite: seq<Test>, left: seq<Test>,
                                            results: seq<Suite.TestResult>, script: seq<Suite.Turn>)
    requires Suite.Books(suite, left, results) && Genuine(maxWorkers, suite, left, results, script, true)
    ensures Suite.WellRun(suite, left, results, script)
    decreases |script|
  {
    hide Suite.LegalRound, Suite.Productive, Arises, Suite.NotDone, Suite.Names;
    if left != [] && script != [] && !script[0].stop {
      var round := script[0].round;
      ArisingRoundIsLegal(maxWorkers, left, round, true);
      ArisingRoundIsProductive(maxWorkers, left, round);
      Suite.RoundKeepsBooks(suite, left, results, round);
      if Suite.Continues(script[0]) {
        var collected := results + round.results;
        GenuineIsWellRun(maxWorkers, suite, Suite.NotDone(suite, Suite.Names(collected)), collected, script[1..]);
      }
    }
  }

  /**
    Both schedulers together: if every round is a schedule of the test scheduler without stops, whatever
    its interleaving, and the target's answers are tame, then the suite ends within as many rounds as it
    has tests and, unless it fails, with exactly one result for each.
   */
  lemma {:induction false} SuiteOfSchedulesCompletes(maxWorkers: nat, suite: seq<Test>, script: seq<Suite.Turn>)
    requires Suite.DistinctTests(suite) && Genuine(maxWorkers, suite, suite, [], script, true) && |script| >= |suite|
    ensures var d := Suite.DriveFrom(suite, suite, [], script);
            && !d.ending.ScriptOver? && d.restarts <= |suite|
            && (d.ending.AllDone? || d.ending.SuiteTimedOut? ==> Suite.Complete(suite, d.results))
  {
    hide Genuine, Suite.WellRun, Suite.DriveFrom, Suite.Complete, Suite.NotDone, Suite.Names;
    Suite.NothingDoneYet(suite);
    assert Suite.Books(suite, suite, []);
    GenuineIsWellRun(maxWorkers, suite, suite, [], script);
    Suite.SuiteCompletes(suite, script);
  }

  // ---------------------------------------------------------------- a round that brings nothing

  /** `error` is what a schedule of these tests with these fates may return. */
  ghost predicate Decided(workers: nat, tests: seq<Test>, fates: seq<Fate>, error: Option<KirkError>)
    requires |fates| == |tests|
  {
    && (error.None? <==> forall i :: 0 <= i < |tests| && Reached(workers, tests, fates, i) ==> Raises(fates[i]).None?)
    && (error.Some? ==> exists i :: 0 <= i < |tests| && Reached(workers, tests, fates, i) && Raises(fates[i]) == error)
  }

  lemma UnstoppedReturnsItsError(maxWorkers: nat, before: seq<Action>, tests: seq<Test>, more: seq<Action>)
    requires Unstopped(maxWorkers, before, tests, more)
    ensures var r := After(maxWorkers, before, tests, more);
            RoundOf(r) == Suite.Round(ResultsOf(r.records), Suite.Returned(r.run.value.stage.error))
  {
    UnstoppedFacts(maxWorkers, before, tests, more);
  }

  /** Whatever the tests and their fates, there is a schedule on those fates, and what it returns is decided. */
  lemma ScheduleExists(maxWorkers: nat, tests: seq<Test>, fates: seq<Fate>)
    returns (more: seq<Action>, error: Option<KirkError>)
    requires tests != [] && |fates| == |tests|
    ensures Unstopped(maxWorkers, [], tests, more) && Obeys(more, fates)
    ensures RoundOf(After(maxWorkers, [], tests, more)).end == Suite.Returned(error)
    ensures Decided(Workers(maxWorkers), tests, fates, error)
    ensures Arises(maxWorkers, tests, RoundOf(After(maxWorkers, [], tests, more)), false)
  {
    assert History(maxWorkers, []) == Init(maxWorkers) && OutstandingCount(Init(maxWorkers).stops) == 0;
    more := EveryScheduleCanReturn(maxWorkers, [], tests, fates);
    UnstoppedReturnsItsError(maxWorkers, [], tests, more);
    ErrorIsDecided(maxWorkers, [], tests, more, fates);
    hide After, Unstopped, Obeys, Reached, Raises;
    error := After(maxWorkers, [], tests, more).run.value.stage.error;
    assert ArisesFrom(tests, RoundOf(After(maxWorkers, [], tests, more)), maxWorkers, [], more);
  }

  /**
    For any tests, any number of workers and any barren fates there is a schedule that records nothing,
    and what it returns is what some reached test raises, or no error if none does.
   */
  lemma BarrenScheduleExists(maxWorkers: nat, tests: seq<Test>, fates: seq<Fate>)
    returns (more: seq<Action>, error: Option<KirkError>)
    requires tests != [] && |fates| == |tests| && Barren(Workers(maxWorkers), tests, fates)
    ensures Unstopped(maxWorkers, [], tests, more) && Obeys(more, fates)
    ensures RoundOf(After(maxWorkers, [], tests, more)) == Suite.Round([], Suite.Returned(error))
    ensures Decided(Workers(maxWorkers), tests, fates, error)
    ensures Arises(maxWorkers, tests, Suite.Round([], Suite.Returned(error)), false)
  {
    hide Unstopped, Obeys, Barren, Decided, After, Arises;
    more, error := ScheduleExists(maxWorkers, tests, fates);
    BarrenIff(maxWorkers, [], tests, more, fates);
    UnstoppedReturnsItsError(maxWorkers, [], tests, more);
  }

  lemma {:induction false} BarrenTurnsAreGenuine(maxWorkers: nat, suite: seq<Test>, error: Option<KirkError>, n: nat)
    requires Arises(maxWorkers, suite, Suite.Round([], Suite.Returned(error)), false)
    ensures Genuine(maxWorkers, suite, suite, [], Suite.BarrenScript(error, n), false)
  {
    hide Arises;
    if n > 0 && suite != [] {
      Suite.NothingDoneYet(suite);
      var script := Suite.BarrenScript(error, n);
      assert script[1..] == Suite.BarrenScript(error, n - 1) && [] + script[0].round.results == [];
      BarrenTurnsAreGenuine(maxWorkers, suite, error, n - 1);
    }
  }

  /** The loop never ends on this target: every turn is a schedule, and any number of them changes nothing. */
  ghost predicate NeverEnds(maxWorkers: nat, suite: seq<Test>, error: Option<KirkError>) {
    forall n: nat ::
      && Genuine(maxWorkers, suite, suite, [], Suite.BarrenScript(error, n), false)
      && Suite.DriveFrom(suite, suite, [], Suite.BarrenScript(error, n))
         == Suite.Drive([], if error.Some? then n else 0, Suite.ScriptOver)
  }

  /**
    For any suite and any number of workers, a target whose answers are barren, and raise nothing or a
    kernel error, keeps the suite loop going without end: with a kernel error it is restarted after every
    round.
   */
  lemma RowlessTargetLoopsForever(maxWorkers: nat, suite: seq<Test>, fates: seq<Fate>) returns (error: Option<KirkError>)
    requires suite != [] && |fates| == |suite| && Barren(Workers(maxWorkers), suite, fates)
    requires forall i :: 0 <= i < |suite| && Reached(Workers(maxWorkers), suite, fates, i) && Raises(fates[i]).Some? ==>
                           IsKernelError(Raises(fates[i]).value)
    ensures NeverEnds(maxWorkers, suite, error) && Decided(Workers(maxWorkers), suite, fates, error)
  {
    var more;
    more, error := BarrenScheduleExists(maxWorkers, suite, fates);
    hide Arises, Barren, Reached, Raises, Unstopped, Obeys, After;
    forall n: nat
      ensures Genuine(maxWorkers, suite, suite, [], Suite.BarrenScript(error, n), false)
      ensures Suite.DriveFrom(suite, suite, [], Suite.BarrenScript(error, n))
           == Suite.Drive([], if error.Some? then n else 0, Suite.ScriptOver)
    {
      BarrenTurnsAreGenuine(maxWorkers, suite, error, n);
      Suite.LoopsForever(suite, error, n);
    }
  }

  /** The same fate for every test. */
  function Same(fate: Fate, tests: seq<Test>): (fates: seq<Fate>)
    ensures |fates| == |tests| && forall i :: 0 <= i < |fates| ==> fates[i] == fate
  {
    seq(|tests|, i => fate)
  }

  /** Some test is always reached: a parallel one, or else the first. */
  lemma SomeReached(workers: nat, tests: seq<Test>, fates: seq<Fate>) returns (i: nat)
    requires tests != [] && |fates| == |tests|
    ensures i < |tests| && Reached(workers, tests, fates, i)
  {
    if k: nat :| k < |tests| && RunsInParallel(workers, tests[k]) {
      i := k;
    } else {
      i := 0;
    }
  }

  /** A target that panics before the command of every test. */
  function PanicsAtOnce(partial: string): Fate {
    Fate(Answers(Err(KernelPanic(partial)), Completed(None), Replied, Ok((0, "")), ""), Readable)
  }

  /** A panic seen before the command is swallowed: neither result nor error, and the tests come again. */
  lemma PanicBeforeCommandIsSwallowed(maxWorkers: nat, suite: seq<Test>, partial: string)
    requires suite != []
    ensures NeverEnds(maxWorkers, suite, None)
  {
    hide NeverEnds, Reached;
    var error := RowlessTargetLoopsForever(maxWorkers, suite, Same(PanicsAtOnce(partial), suite));
  }

  /** A panic found by the ping after a timeout is raised without a row: the target is restarted forever. */
  lemma PanicAtPingRestartsForever(maxWorkers: nat, suite: seq<Test>, partial: string)
    requires suite != []
    ensures NeverEnds(maxWorkers, suite, Some(KernelPanic(partial)))
  {
    hide NeverEnds, Reached;
    var answers := KernelErrorWithoutRow(partial);
    var fates := Same(Fate(answers, Readable), suite);
    var i := SomeReached(Workers(maxWorkers), suite, fates);
    var error := RowlessTargetLoopsForever(maxWorkers, suite, fates);
  }

  // ---------------------------------------------------------------- suites with a repeated name

  /** Whatever schedules its rounds are, a loop that ends undisturbed has one result for each test. */
  ghost predicate AlwaysCompletes(maxWorkers: nat, suite: seq<Test>) {
    forall script: seq<Suite.Turn> :: Genuine(maxWorkers, suite, suite, [], script, false) ==>
      var d := Suite.DriveFrom(suite, suite, [], script);
      d.ending.AllDone? || d.ending.SuiteTimedOut? ==> Suite.Complete(suite, d.results)
  }

  /** For distinct names legal rounds are enough: any answers, any number of rounds, any cut by the timeout. */
  lemma {:induction false} DistinctCompletes(maxWorkers: nat, suite: seq<Test>, left: seq<Test>,
                                             results: seq<Suite.TestResult>, script: seq<Suite.Turn>)
    requires Suite.Books(suite, left, results) && Genuine(maxWorkers, suite, left, results, script, false)
    ensures var d := Suite.DriveFrom(suite, left, results, script);
            d.ending.AllDone? || d.ending.SuiteTimedOut? ==> Suite.Complete(suite, d.results)
    decreases |script|
  {
    hide Suite.LegalRound, Suite.Complete, Arises, Suite.NotDone, Suite.Names;
    if left == [] {
      Suite.NothingLeftIsComplete(suite, results);
    } else if script != [] && !script[0].stop {
      var round := script[0].round;
      var collected := results + round.results;
      var left' := Suite.NotDone(suite, Suite.Names(collected));
      ArisingRoundIsLegal(maxWorkers, left, round, false);
      Suite.RoundKeepsBooks(suite, left, results, round);
      if round.end.TimedOut? {
        Suite.FillInsComplete(suite, left', collected);
      } else if Suite.Continues(script[0]) {
        DistinctCompletes(maxWorkers, suite, left', collected, script[1..]);
      }
    }
  }

  /** A test that passes but leaves other taint flags, and one that passes. */
  function Taints(): Fate {
    Fate(Answers(Ok(0), Completed(Some(Row(0, ""))), Replied, Ok((1, "")), ""), Readable)
  }

  function PassesClean(): Fate {
    Fate(Answers(Ok(0), Completed(Some(Row(0, ""))), Replied, Ok((0, "")), ""), Readable)
  }

  lemma FatesDecide(partial: string)
    ensures Records(Taints()) && Raises(Taints()) == Some(KernelTainted(""))
    ensures Records(PassesClean()) && Raises(PassesClean()) == None
    ensures !Records(PanicsAtOnce(partial)) && Raises(PanicsAtOnce(partial)) == None
  {}

  lemma SoleRecord(records: seq<Record>, run: Run, i: nat)
    requires RecordInv(records, run) && i < |run.tests| && Recorded1(records, i)
    requires forall m :: 0 <= m < |run.tests| && Recorded1(records, m) ==> m == i
    ensures |records| == 1 && records[0].test == run.tests[i]
  {
    forall k | 0 <= k < |records| ensures records[k].job == i {
      assert RecordFits(records[k], run);
      assert Recorded1(records, records[k].job);
    }
    assert records[0].job == records[|records| - 1].job;
    assert RecordFits(records[0], run);
  }

  /** Panics before every command but that of test `i`, which leaves other taint flags. */
  function OneTaints(tests: seq<Test>, i: nat): (fates: seq<Fate>)
    requires i < |tests|
    ensures |fates| == |tests|
  {
    Same(PanicsAtOnce(""), tests)[i := Taints()]
  }

  lemma OneTaintsDecides(workers: nat, tests: seq<Test>, i: nat, error: Option<KirkError>)
    requires i < |tests|
    ensures Reached(workers, tests, OneTaints(tests, i), i)
    ensures forall m :: 0 <= m < |tests| ==> (Records(OneTaints(tests, i)[m]) <==> m == i)
    ensures Decided(workers, tests, OneTaints(tests, i), error) ==> error == Some(KernelTainted(""))
  {
    FatesDecide("");
    hide Raises, Records, PanicsAtOnce, Taints;
  }

  /** A schedule that records test `i` alone and returns a kernel error. */
  lemma OneRecordedRound(maxWorkers: nat, suite: seq<Test>, i: nat) returns (round: Suite.Round, returncode: int)
    requires i < |suite|
    ensures Arises(maxWorkers, suite, round, false)
    ensures round == Suite.Round([Suite.TestResult(suite[i], returncode, false)], Suite.Returned(Some(KernelTainted(""))))
  {
    var fates := OneTaints(suite, i);
    hide After, Unstopped, Obeys, Reached, Records, Decided, Arises, OneTaints, ShapeInv, PermitInv, StopInv, InOrder;
    var more, error := ScheduleExists(maxWorkers, suite, fates);
    OneTaintsDecides(Workers(maxWorkers), suite, i, error);
    RecordsAreDecided(maxWorkers, [], suite, more, fates);
    UnstoppedFacts(maxWorkers, [], suite, more);
    var r := After(maxWorkers, [], suite, more);
    SoleRecord(r.records, r.run.value, i);
    round, returncode := RoundOf(r), r.records[0].row.returncode;
  }

  /** A schedule that records every test. */
  lemma PassingRound(maxWorkers: nat, tests: seq<Test>) returns (round: Suite.Round)
    requires tests != []
    ensures Arises(maxWorkers, tests, round, false) && round.end == Suite.Returned(None)
    ensures Suite.LegalRound(tests, round) && Suite.Productive(tests, round)
  {
    var fates := Same(PassesClean(), tests);
    FatesDecide("");
    hide Raises, Records, PassesClean;
    var more, error := ScheduleExists(maxWorkers, tests, fates);
    RecordsAreDecided(maxWorkers, [], tests, more, fates);
    UnstoppedFacts(maxWorkers, [], tests, more);
    hide After, Unstopped, Obeys, ShapeInv, PermitInv, StopInv, InOrder, Arises;
    var r := After(maxWorkers, [], tests, more);
    round := RoundOf(r);
    ArisingRoundIsLegal(maxWorkers, tests, round, false);
    forall t | t in tests ensures t.name in Suite.Names(round.results) {
      var i :| 0 <= i < |tests| && tests[i] == t;
      assert Reached(Workers(maxWorkers), tests, fates, i);
      var k :| 0 <= k < |r.records| && r.records[k].job == i;
      assert RecordFits(r.records[k], r.run.value);
      assert round.results[k] in round.results;
    }
  }

  /**
    Two schedules of the test scheduler that go wrong together: the first records one of two tests of a
    name and ends in a kernel error, the second records all that is left.
   */
  lemma DuplicateSchedules(maxWorkers: nat, suite: seq<Test>, i: nat, j: nat) returns (script: seq<Suite.Turn>)
    requires i < |suite| && j < |suite| && i != j && suite[i].name == suite[j].name
    ensures Genuine(maxWorkers, suite, suite, [], script, false)
    ensures var d := Suite.DriveFrom(suite, suite, [], script);
            d.ending.AllDone? && !Suite.Complete(suite, d.results)
  {
    hide Arises, Suite.WellRun, Suite.Complete, Suite.NotDone, Suite.Names, Suite.LegalRound;
    var first, returncode := OneRecordedRound(maxWorkers, suite, i);
    var r := Suite.TestResult(suite[i], returncode, false);
    var left := Suite.NotDone(suite, Suite.Names([r]));
    var rest := [];
    if left != [] {
      var second := PassingRound(maxWorkers, left);
      rest := [Suite.Turn(false, second, None)];
      Suite.EverythingRecorded(suite, [r], second);
    }
    LastRound(maxWorkers, suite, left, [r], rest);
    Suite.RecordedNameIsForgotten(suite, i, j, returncode, KernelTainted(""), rest);
    script := [Suite.Turn(false, first, None)] + rest;
    assert script[1..] == rest && [] + [r] == [r];
  }

  /** A loop with one more round that records everything, or none because nothing is left. */
  lemma LastRound(maxWorkers: nat, suite: seq<Test>, left: seq<Test>, results: seq<Suite.TestResult>, rest: seq<Suite.Turn>)
    requires left == Suite.NotDone(suite, Suite.Names(results))
    requires if left == [] then rest == [] else
               && |rest| == 1 && !rest[0].stop && rest[0].round.end == Suite.Returned(None)
               && Suite.LegalRound(left, rest[0].round) && Suite.Productive(left, rest[0].round)
               && Arises(maxWorkers, left, rest[0].round, false)
               && Suite.NotDone(suite, Suite.Names(results + rest[0].round.results)) == []
    ensures Suite.WellRun(suite, left, results, rest) && Genuine(maxWorkers, suite, left, results, rest, false)
    ensures Suite.DriveFrom(suite, left, results, rest).ending.AllDone?
  {
    hide Arises, Suite.NotDone, Suite.Names, Suite.LegalRound, Suite.Productive;
  }

  /**
    The exact condition on the suite, for loops whose rounds are schedules of the test scheduler, on any
    answers: each one that ends undisturbed has exactly one result per test if and only if the names of
    the suite's tests are distinct.
   */
  lemma SchedulesCompleteIffDistinct(maxWorkers: nat, suite: seq<Test>)
    ensures AlwaysCompletes(maxWorkers, suite) <==> Suite.DistinctTests(suite)
  {
    hide Genuine, Suite.DriveFrom, Suite.Complete, Suite.NotDone, Suite.Names;
    if Suite.DistinctTests(suite) {
      Suite.NothingDoneYet(suite);
      assert Suite.Books(suite, suite, []);
      forall script: seq<Suite.Turn> | Genuine(maxWorkers, suite, suite, [], script, false)
        ensures var d := Suite.DriveFrom(suite, suite, [], script);
                d.ending.AllDone? || d.ending.SuiteTimedOut? ==> Suite.Complete(suite, d.results)
      {
        DistinctCompletes(maxWorkers, suite, suite, [], script);
      }
    } else {
      var i, j :| 0 <= i < j < |suite| && suite[i].name == suite[j].name;
      var script := DuplicateSchedules(maxWorkers, suite, i, j);
    }
  }
}
