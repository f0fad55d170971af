/** What a schedule records and raises, read off what the target answers to each of its tests. */
module ScheduleOutcome {
  import opened Results
  import opened ExecTest
  import opened TestScheduler
  import opened TestSchedulerInv
  import opened TestSchedulerProperties

  // ---------------------------------------------------------------- sequential order

  /** Test `k` comes before test `i`: it runs in the parallel phase, or stands earlier in the list. */
  predicate Precedes(workers: nat, tests: seq<Test>, k: nat, i: nat)
    requires k < |tests|
  {
    k != i && ((workers > 1 && tests[k].parallel) || k < i)
  }

  /** Every test that must be over before test `i` may start is over, with nothing to raise. */
  ghost predicate EarlierClear(s: Scheduler, i: nat)
    requires s.run.Some?
  {
    var run := s.run.value;
    forall k :: 0 <= k < |run.jobs| && k < |run.tests| && Precedes(s.workers, run.tests, k, i) ==> Clear(run.jobs[k])
  }

  ghost predicate InOrder(s: Scheduler) {
    s.run.Some? ==> forall i :: 0 <= i < |s.run.value.jobs| && SequentialStarted(s, i) ==> EarlierClear(s, i)
  }

  lemma OrderAfterJob(s: Scheduler, r: Scheduler, i: nat)
    requires InOrder(s) && JobAt(s, i) && r.run.Some? && r.workers == s.workers
    requires !s.run.value.jobs[i].Unspawned? && !s.run.value.jobs[i].Finished?
    requires r.run.value.tests == s.run.value.tests && i < |r.run.value.jobs|
    requires r.run.value.jobs == s.run.value.jobs[i := r.run.value.jobs[i]]
    ensures InOrder(r)
  {
    hide Clear;
    assert !Clear(s.run.value.jobs[i]) by { OnlyFinishedIsClear(s.run.value.jobs[i]); }
    forall j | 0 <= j < |r.run.value.jobs| && SequentialStarted(r, j) ensures EarlierClear(r, j) {
      assert SequentialStarted(s, j) && EarlierClear(s, j);
    }
  }

  lemma OnlyFinishedIsClear(j: Job)
    requires !j.Finished?
    ensures !Clear(j)
  {}

  lemma JobKeepsOrder(s: Scheduler, i: nat, act: JobAction)
    requires InOrder(s) && CanFinish(s, i)
    ensures InOrder(StepJob(s, i, act))
  {
    JobChangesOne(s, i, act);
    hide StepJob, InOrder;
    var r := StepJob(s, i, act);
    if r.run != s.run {
      OrderAfterJob(s, r, i);
    } else {
      SameRunInOrder(s, r);
    }
  }

  lemma SameRunInOrder(s: Scheduler, r: Scheduler)
    requires InOrder(s) && r.run == s.run && r.workers == s.workers
    ensures InOrder(r)
  {
    if s.run.Some? {
      forall j | 0 <= j < |r.run.value.jobs| && SequentialStarted(r, j) ensures EarlierClear(r, j) {
        assert SequentialStarted(s, j) && EarlierClear(s, j);
      }
    }
  }

  lemma JobChangesOne(s: Scheduler, i: nat, act: JobAction)
    requires CanFinish(s, i)
    ensures var r := StepJob(s, i, act);
            && r.workers == s.workers && r.run.Some? && r.run.value.tests == s.run.value.tests
            && |r.run.value.jobs| == |s.run.value.jobs|
            && r.run.value.jobs == s.run.value.jobs[i := r.run.value.jobs[i]]
            && r.run.value.stage == s.run.value.stage
            && (r.run != s.run ==> !s.run.value.jobs[i].Unspawned? && !s.run.value.jobs[i].Finished?)
  {
    hide Outcome, RaisedAfterRecord, Give, Take;
  }

  lemma StartKeepsOrder(s: Scheduler, i: nat)
    requires ShapeInv(s) && InOrder(s)
    requires JobAt(s, i) && s.run.value.stage.Sequential? && s.run.value.stage.current.None? && IsNext(s, i)
    ensures InOrder(StepStartNext(s, i))
  {
    var run, r := s.run.value, StepStartNext(s, i);
    forall j | 0 <= j < |r.run.value.jobs| && SequentialStarted(r, j) ensures EarlierClear(r, j) {
      if j == i {
        forall k | 0 <= k < |run.jobs| && k != i && (InParallel(s, run.tests[k]) || k < i) ensures Clear(run.jobs[k]) {
          assert JobFits(run.stage, InParallel(s, run.tests[k]), k, run.jobs[k]);
        }
      } else {
        assert !Clear(run.jobs[i]);
        assert SequentialStarted(s, j) && EarlierClear(s, j);
      }
    }
  }

  lemma OpenKeepsOrder(s: Scheduler)
    requires ShapeInv(s) && s.run.Some? && s.run.value.stage.Starting?
    ensures InOrder(StepOpenParallel(s))
  {
    var run, r := s.run.value, StepOpenParallel(s);
    forall j | 0 <= j < |r.run.value.jobs| ensures !SequentialStarted(r, j) {
      assert JobFits(run.stage, InParallel(s, run.tests[j]), j, run.jobs[j]);
    }
  }

  lemma StageKeepsOrder(s: Scheduler, g: Stage, sems: seq<Semaphore>, running: nat)
    requires InOrder(s) && s.run.Some?
    ensures InOrder(SetStage(s.(sems := sems, running := running), g))
  {
    var r := SetStage(s.(sems := sems, running := running), g);
    forall j | 0 <= j < |r.run.value.jobs| && SequentialStarted(r, j) ensures EarlierClear(r, j) {
      assert SequentialStarted(s, j) && EarlierClear(s, j);
    }
  }

  lemma ScheduleKeepsOrder(s: Scheduler, a: Action)
    requires ShapeInv(s) && InOrder(s) && s.run.Some?
    ensures InOrder(StepSchedule(s, a))
  {
    hide AllJoined, IsNext, AnyParallel, AnySequential, NoneUnspawned, Held, InOrder, StepOpenParallel, StepStartNext, ErrorOf;
    var r, g := StepSchedule(s, a), s.run.value.stage;
    match a
    case OpenParallel => if g.Starting? { OpenKeepsOrder(s); }
    case StartNext(i) =>
      if g.Sequential? && g.current.None? && JobAt(s, i) && IsNext(s, i) { StartKeepsOrder(s, i); }
    case _ =>
      if r.run.Some? {
        StageKeepsOrder(s, r.run.value.stage, r.sems, r.running);
        SameRunInOrder(SetStage(s.(sems := r.sems, running := r.running), r.run.value.stage), r);
      } else {
        NoRunInOrder(r);
      }
  }

  lemma NoRunInOrder(s: Scheduler)
    requires s.run.None?
    ensures InOrder(s)
  {}

  lemma StepKeepsOrder(s: Scheduler, a: Action)
    requires Inv(s) && InOrder(s)
    ensures InOrder(Step(s, a))
  {
    StepKeepsWorkers(s, a);
    hide StepJob, StepSchedule, PermitInv, StopInv, RecordInv, ShapeInv, InOrder;
    match a
    case OfTest(i, act) =>
      if CanFinish(s, i) { JobKeepsOrder(s, i, act); }
    case Begin(tests) =>
      var r := StepBegin(s, tests);
      if r != s { FreshInOrder(r); }
    case OfStop(k, step) => SameRunInOrder(s, Step(s, a));
    case CountStop => SameRunInOrder(s, Step(s, a));
    case _ => if s.run.Some? { ScheduleKeepsOrder(s, a); }
  }

  lemma FreshInOrder(s: Scheduler)
    requires s.run.Some? && forall i :: 0 <= i < |s.run.value.jobs| ==> s.run.value.jobs[i].Unspawned?
    ensures InOrder(s)
  {}

  /** In every history a sequential test is started only when all that come before it are over and clear. */
  lemma {:induction false} SequentialTestsRunInOrder(maxWorkers: nat, actions: seq<Action>)
    ensures InOrder(History(maxWorkers, actions))
    decreases |actions|
  {
    hide Inv, Step, InOrder;
    if actions == [] {
      NoRunInOrder(Init(maxWorkers));
    } else {
      var init := actions[..|actions| - 1];
      SequentialTestsRunInOrder(maxWorkers, init);
      EveryHistoryKeepsInv(maxWorkers, init);
      StepKeepsOrder(History(maxWorkers, init), actions[|actions| - 1]);
    }
  }

  // ---------------------------------------------------------------- what a test has heard

  /** The target's answers a test has come by. */
  function HeardBy(j: Job): Option<Answers> {
    match j
    case Judged(answers) => Some(answers)
    case Parsed(answers, _) => Some(answers)
    case Pushed(answers) => Some(answers)
    case Finished(Killed(answers)) => Some(answers)
    case Finished(NoRow(answers)) => Some(answers)
    case Finished(Unparsed(answers, _)) => Some(answers)
    case Finished(Recorded(answers)) => Some(answers)
    case _ => None
  }

  predicate ReadOk(j: Job) {
    j.Parsed? || j.Pushed? || (j.Finished? && j.why.Recorded?)
  }

  /** Every outside event test `i` has come by is one of the actions. */
  ghost predicate TracedJob(j: Job, i: nat, actions: seq<Action>) {
    && (HeardBy(j).Some? ==> OfTest(i, Conclude(HeardBy(j).value)) in actions)
    && (ReadOk(j) ==> OfTest(i, Judge(Readable)) in actions)
    && (j.Finished? && j.why.Unparsed? ==> OfTest(i, Judge(Unreadable(j.why.error))) in actions)
    && (j.Finished? && j.why.Crashed? ==> OfTest(i, Crash) in actions)
  }

  ghost predicate Traced(s: Scheduler, actions: seq<Action>) {
    s.run.Some? ==> forall i :: 0 <= i < |s.run.value.jobs| ==> TracedJob(s.run.value.jobs[i], i, actions)
  }

  lemma TracedLonger(j: Job, i: nat, actions: seq<Action>, last: Action)
    requires TracedJob(j, i, actions)
    ensures TracedJob(j, i, actions + [last])
  {}

  /** A test's own step: what it has heard before, and what it may hear now. */
  lemma HeardByStep(s: Scheduler, i: nat, act: JobAction)
    requires CanFinish(s, i)
    ensures StepJob(s, i, act).run.Some? && i < |StepJob(s, i, act).run.value.jobs|
    ensures var j, j' := s.run.value.jobs[i], StepJob(s, i, act).run.value.jobs[i];
            && (HeardBy(j').Some? ==> HeardBy(j') == HeardBy(j) || act == Conclude(HeardBy(j').value))
            && (ReadOk(j') ==> ReadOk(j) || act == Judge(Readable))
            && (j'.Finished? && j'.why.Unparsed? ==> j' == j || act == Judge(Unreadable(j'.why.error)))
            && (j'.Finished? && j'.why.Crashed? ==> j' == j || act == Crash)
  {
    hide Outcome, RaisedAfterRecord, Give, Take;
  }

  lemma JobIsTraced(s: Scheduler, i: nat, act: JobAction, actions: seq<Action>)
    requires CanFinish(s, i) && TracedJob(s.run.value.jobs[i], i, actions)
    ensures StepJob(s, i, act).run.Some? && i < |StepJob(s, i, act).run.value.jobs|
    ensures TracedJob(StepJob(s, i, act).run.value.jobs[i], i, actions + [OfTest(i, act)])
  {
    hide StepJob, HeardBy, ReadOk;
    HeardByStep(s, i, act);
    TracedLonger(s.run.value.jobs[i], i, actions, OfTest(i, act));
    assert OfTest(i, act) in actions + [OfTest(i, act)];
  }

  lemma JobsAreTraced(s: Scheduler, i: nat, act: JobAction, actions: seq<Action>)
    requires Traced(s, actions) && CanFinish(s, i)
    ensures Traced(StepJob(s, i, act), actions + [OfTest(i, act)])
  {
    JobChangesOne(s, i, act);
    hide StepJob, TracedJob;
    var r := StepJob(s, i, act);
    forall k | 0 <= k < |r.run.value.jobs|
      ensures TracedJob(r.run.value.jobs[k], k, actions + [OfTest(i, act)])
    {
      if k == i {
        JobIsTraced(s, i, act, actions);
      } else {
        TracedLonger(s.run.value.jobs[k], k, actions, OfTest(i, act));
      }
    }
  }

  /** Jobs a step other than a test's own leaves alone, or finds or leaves not concluded. */
  lemma OthersAreTraced(s: Scheduler, r: Scheduler, actions: seq<Action>, last: Action)
    requires Traced(s, actions)
    requires r.run.Some? ==>
               forall i :: 0 <= i < |r.run.value.jobs| ==>
                 (r.run.value.jobs[i].Unspawned? || r.run.value.jobs[i].Spawned?
                  || (s.run.Some? && i < |s.run.value.jobs| && r.run.value.jobs[i] == s.run.value.jobs[i]))
    ensures Traced(r, actions + [last])
  {
    if r.run.Some? {
      forall i | 0 <= i < |r.run.value.jobs| ensures TracedJob(r.run.value.jobs[i], i, actions + [last]) {
        if !r.run.value.jobs[i].Unspawned? && !r.run.value.jobs[i].Spawned? {
          TracedLonger(s.run.value.jobs[i], i, actions, last);
        }
      }
    }
  }

  lemma StepIsTraced(s: Scheduler, a: Action, actions: seq<Action>)
    requires Traced(s, actions)
    ensures Traced(Step(s, a), actions + [a])
  {
    hide StepJob, StepSchedule, Traced;
    match a
    case OfTest(i, act) =>
      if CanFinish(s, i) { JobsAreTraced(s, i, act, actions); } else { OthersAreTraced(s, s, actions, a); }
    case Begin(tests) => OthersAreTraced(s, StepBegin(s, tests), actions, a);
    case OfStop(k, step) => OthersAreTraced(s, Step(s, a), actions, a);
    case CountStop => OthersAreTraced(s, Step(s, a), actions, a);
    case _ =>
      if s.run.Some? {
        ScheduleLeavesJobs(s, a);
        OthersAreTraced(s, StepSchedule(s, a), actions, a);
      } else {
        OthersAreTraced(s, s, actions, a);
      }
  }

  lemma ScheduleLeavesJobs(s: Scheduler, a: Action)
    requires s.run.Some?
    ensures var r := StepSchedule(s, a);
            r.run.Some? ==>
              forall i :: 0 <= i < |r.run.value.jobs| ==>
                (r.run.value.jobs[i].Spawned?
                 || (i < |s.run.value.jobs| && r.run.value.jobs[i] == s.run.value.jobs[i]))
  {
    hide Held, AllJoined, IsNext, AnyParallel, AnySequential, NoneUnspawned;
  }

  /** Whatever the tests of a schedule have heard, it is among the actions since the schedule began. */
  lemma {:induction false} AnswersComeFromActions(s: Scheduler, more: seq<Action>)
    requires s.run.Some? ==> forall i :: 0 <= i < |s.run.value.jobs| ==> s.run.value.jobs[i].Unspawned?
    ensures Traced(RunFrom(s, more), more)
    decreases |more|
  {
    hide Step;
    if more != [] {
      var init, last := more[..|more| - 1], more[|more| - 1];
      AnswersComeFromActions(s, init);
      StepIsTraced(RunFrom(s, init), last, init);
      assert more == init + [last];
    }
  }

  /**
    A result is dropped silently exactly when the command itself came back with return code -9 while more
    than one stop was counted; any other row is recorded, or its error raised.
   */
  lemma DroppedIffKilled(s: Scheduler, i: nat, verdict: Verdict)
    requires CanFinish(s, i) && s.run.value.jobs[i].Judged?
    ensures var answers := s.run.value.jobs[i].answers;
            var j := StepJob(s, i, Judge(verdict)).run.value.jobs[i];
            var killed := s.stopCount > 1 && !LeavesNoRow(answers) && answers.command.Completed?
                          && answers.command.row.value.returncode == -9 && answers.after.Ok?;
            && (j == Finished(Killed(answers)) <==> killed)
            && (!killed && !LeavesNoRow(answers) ==>
                  if verdict.Unreadable? then j == Finished(Unparsed(answers, verdict.error))
                  else j.Parsed? && j.answers == answers && RowFor(answers, j.row))
            && (LeavesNoRow(answers) ==> j == Finished(NoRow(answers)))
  {
    var answers := s.run.value.jobs[i].answers;
    OutcomeHolds(answers);
    RowMissingIff(answers);
    if Outcome(answers).row.Some? && !(answers.command.Completed? && answers.after.Ok?) {
      assert Outcome(answers).row.value.returncode == -1;
    }
    hide Outcome, RaisedAfterRecord, Give;
  }

  /** The row of a record is the one that belongs to what the target answered to its test. */
  ghost predicate RecordHeard(r: Record, actions: seq<Action>) {
    exists answers :: OfTest(r.job, Conclude(answers)) in actions && !LeavesNoRow(answers) && RowFor(answers, r.row)
  }

  ghost predicate RecordsHeard(records: seq<Record>, actions: seq<Action>) {
    forall k :: 0 <= k < |records| ==> RecordHeard(records[k], actions)
  }

  lemma RecordsHeardLonger(records: seq<Record>, actions: seq<Action>, last: Action)
    requires RecordsHeard(records, actions)
    ensures RecordsHeard(records, actions + [last])
  {
    hide LeavesNoRow, RowFor;
    forall k | 0 <= k < |records| ensures RecordHeard(records[k], actions + [last]) {
      assert RecordHeard(records[k], actions);
      var answers :| OfTest(records[k].job, Conclude(answers)) in actions && !LeavesNoRow(answers) && RowFor(answers, records[k].row);
      assert OfTest(records[k].job, Conclude(answers)) in actions + [last];
    }
  }

  /** Only a test that has a readable row adds a record, and the record holds that row. */
  lemma RecordsChange(s: Scheduler, a: Action)
    ensures var r := Step(s, a);
            || r.records == s.records || r.records == []
            || (a.OfTest? && JobAt(s, a.i) && a.i < |s.run.value.tests| && s.run.value.jobs[a.i].Parsed?
                && r.records == s.records + [Record(a.i, s.run.value.tests[a.i], s.run.value.jobs[a.i].row)])
  {
    hide Outcome, RaisedAfterRecord, Held, AllJoined, IsNext, AnyParallel, AnySequential, NoneUnspawned, Give, Take;
  }

  lemma RecordsStayHeard(s: Scheduler, a: Action, actions: seq<Action>)
    requires Inv(s) && Traced(s, actions) && RecordsHeard(s.records, actions)
    ensures RecordsHeard(Step(s, a).records, actions + [a])
  {
    RecordsChange(s, a);
    RecordsHeardLonger(s.records, actions, a);
    hide Step, PermitInv, StopInv, RecordInv, LeavesNoRow, RowFor, Outcome, HasSource, RecordHeard;
    var r := Step(s, a);
    if r.records != s.records && r.records != [] {
      var j := s.run.value.jobs[a.i];
      assert TracedJob(j, a.i, actions) && Sound(j);
      ParsedHolds(j, a.i, s.run.value.tests[a.i], actions, a);
    }
  }

  lemma ParsedHolds(j: Job, i: nat, test: Test, actions: seq<Action>, last: Action)
    requires j.Parsed? && Sound(j) && TracedJob(j, i, actions)
    ensures RecordHeard(Record(i, test, j.row), actions + [last])
  {
    OutcomeHolds(j.answers);
    RowMissingIff(j.answers);
    hide Outcome, LeavesNoRow, RowFor;
    assert OfTest(i, Conclude(j.answers)) in actions + [last];
  }

  /** What a schedule records is, test by test, the row that belongs to what the target answered in it. */
  lemma {:induction false} RecordsHoldTheirRows(s: Scheduler, more: seq<Action>)
    requires Inv(s) && s.records == []
    requires s.run.Some? ==> forall i :: 0 <= i < |s.run.value.jobs| ==> s.run.value.jobs[i].Unspawned?
    ensures Inv(RunFrom(s, more)) && RecordsHeard(RunFrom(s, more).records, more)
    decreases |more|
  {
    hide Step, Inv, RecordHeard;
    if more != [] {
      var init, last := more[..|more| - 1], more[|more| - 1];
      RecordsHoldTheirRows(s, init);
      AnswersComeFromActions(s, init);
      StepKeepsInv(RunFrom(s, init), last);
      RecordsStayHeard(RunFrom(s, init), last, init);
      assert more == init + [last];
    }
  }

  /** In every history, stops or none, each record holds the row of answers that were given to its test. */
  lemma EveryRecordHoldsItsRow(maxWorkers: nat, actions: seq<Action>)
    ensures RecordsHeard(History(maxWorkers, actions).records, actions)
  {
    hide Inv, RecordHeard;
    InitKeepsInv(maxWorkers);
    RecordsHoldTheirRows(Init(maxWorkers), actions);
  }

  // ---------------------------------------------------------------- a schedule without stops

  /** Begun with no stop outstanding, about to return, and no stop in between. */
  ghost predicate Unstopped(maxWorkers: nat, before: seq<Action>, tests: seq<Test>, more: seq<Action>) {
    var s := History(maxWorkers, before);
    var r := RunFrom(StepBegin(s, tests), more);
    && s.run.None? && tests != [] && OutstandingCount(s.stops) == 0
    && Returning(r) && r.epoch == s.epoch + 1 && |r.stops| == |s.stops|
  }

  function Workers(maxWorkers: nat): nat {
    if maxWorkers < 1 then 1 else maxWorkers
  }

  function After(maxWorkers: nat, before: seq<Action>, tests: seq<Test>, more: seq<Action>): Scheduler {
    RunFrom(StepBegin(History(maxWorkers, before), tests), more)
  }

  lemma UnstoppedFacts(maxWorkers: nat, before: seq<Action>, tests: seq<Test>, more: seq<Action>)
    requires Unstopped(maxWorkers, before, tests, more)
    ensures var r := After(maxWorkers, before, tests, more);
            && Inv(r) && InOrder(r) && NobodyInterrupted(r) && Traced(r, more) && r.stopCount == 0
            && r.run.value.tests == tests && r.workers == Workers(maxWorkers)
  {
    hide History, Step, RunFrom, Inv;
    var s := History(maxWorkers, before);
    var s' := StepBegin(s, tests);
    EveryHistoryKeepsInv(maxWorkers, before);
    NoCountOf(s);
    NoStopNoInterruption(s, tests, more);
    TestsStay(s', more);
    AnswersComeFromActions(s', more);
    hide StepBegin;
    BeganHere(maxWorkers, before, tests, more);
    var all := before + [Begin(tests)] + more;
    EveryHistoryKeepsInv(maxWorkers, all);
    SequentialTestsRunInOrder(maxWorkers, all);
    WorkersStay(maxWorkers, all);
  }

  lemma NoCountOf(s: Scheduler)
    requires Inv(s) && OutstandingCount(s.stops) == 0
    ensures s.stopCount == 0
  {
    NoCountWithoutStops(s);
  }

  /** The command ran without leaving a row, or its result could not be read, or the task panicked first. */
  predicate LeftNothing(j: Job) {
    || (HeardBy(j).Some? && LeavesNoRow(HeardBy(j).value))
    || (j.Finished? && j.why.Unparsed?)
    || j == Finished(Crashed(false))
  }

  lemma OverAndUnrecorded(j: Job)
    requires j.Finished? && Sound(j) && !Interrupted(j)
    ensures LeftNothing(j) <==> !HasRecord(j)
  {
    if HeardBy(j).Some? {
      RowMissingIff(HeardBy(j).value);
    }
  }

  /**
    An unstopped schedule records nothing if and only if every test that was started left nothing: its
    answers leave no row, its result could not be read, or its task panicked before the result was pushed.
   */
  lemma NothingRecordedIff(maxWorkers: nat, before: seq<Action>, tests: seq<Test>, more: seq<Action>)
    requires Unstopped(maxWorkers, before, tests, more)
    ensures var r := After(maxWorkers, before, tests, more);
            r.records == [] <==>
            forall i :: 0 <= i < |r.run.value.jobs| && !r.run.value.jobs[i].Unspawned? ==> LeftNothing(r.run.value.jobs[i])
  {
    UnstoppedFacts(maxWorkers, before, tests, more);
    var r := After(maxWorkers, before, tests, more);
    hide After, Unstopped, PermitInv, StopInv, LeftNothing, Interrupted, HasRecord;
    var run := r.run.value;
    RecordedMeansRecord(r.records, run);
    forall i | 0 <= i < |run.jobs| && !run.jobs[i].Unspawned?
      ensures LeftNothing(run.jobs[i]) <==> !HasRecord(run.jobs[i])
    {
      assert JobFits(run.stage, InParallel(r, run.tests[i]), i, run.jobs[i]);
      OverAndUnrecorded(run.jobs[i]);
    }
    if r.records != [] {
      assert RecordFits(r.records[0], run);
      var i := r.records[0].job;
      assert HasRecord(run.jobs[i]) && !run.jobs[i].Unspawned? by { UnspawnedHasNone(run.jobs[i]); }
    }
    if i :| 0 <= i < |run.jobs| && !run.jobs[i].Unspawned? && !LeftNothing(run.jobs[i]) {
      assert Recorded1(r.records, i);
    }
  }

  lemma UnspawnedHasNone(j: Job)
    ensures HasRecord(j) ==> !j.Unspawned?
  {}

  // ---------------------------------------------------------------- decided by the target's answers

  /** What the target will answer to a test, and what the framework will make of its result. */
  datatype Fate = Fate(answers: Answers, verdict: Verdict)

  /** A test left alone by stops and panics of its task ends like this. */
  function EndOf(f: Fate): Ending {
    if LeavesNoRow(f.answers) then NoRow(f.answers)
    else if f.verdict.Unreadable? then Unparsed(f.answers, f.verdict.error)
    else Recorded(f.answers)
  }

  predicate Records(f: Fate) {
    !LeavesNoRow(f.answers) && f.verdict.Readable?
  }

  function Raises(f: Fate): Option<KirkError> {
    ErrorOf(EndOf(f))
  }

  /**
    Which error a test raises, read off its fate: one that comes instead of a row, one from reading the
    row, or one that comes after the record; a panic seen before the command raises none.
   */
  lemma RaisesIff(f: Fate, e: KirkError)
    ensures Raises(f) == Some(e) <==>
              if LeavesNoRow(f.answers) then ErrorInstead(f.answers, e)
              else if f.verdict.Unreadable? then e == f.verdict.error
              else ErrorAfterRow(f.answers, e)
  {
    RowMissingIff(f.answers);
    OutcomeHolds(f.answers);
    hide Outcome, LeavesNoRow, ErrorInstead, ErrorAfterRow, RaisedAfterRecord, RowFor;
  }

  /** Test `i` is reached: in the parallel phase always, later only if nothing before it raises. */
  ghost predicate Reached(workers: nat, tests: seq<Test>, fates: seq<Fate>, i: nat)
    requires |fates| == |tests| && i < |tests|
  {
    (workers > 1 && tests[i].parallel) ||
    forall k :: 0 <= k < |tests| && Precedes(workers, tests, k, i) ==> Raises(fates[k]).None?
  }

  /** The actions follow the fates: no other answer, no other verdict on a result, no panic. */
  ghost predicate Obeys(actions: seq<Action>, fates: seq<Fate>) {
    forall k :: 0 <= k < |actions| && actions[k].OfTest? ==>
      match actions[k].act
      case Conclude(answers) => actions[k].i < |fates| && answers == fates[actions[k].i].answers
      case Judge(verdict) => actions[k].i < |fates| && verdict == fates[actions[k].i].verdict
      case Crash => false
      case _ => true
  }

  lemma FinishedAsFated(j: Job, i: nat, actions: seq<Action>, fates: seq<Fate>)
    requires Obeys(actions, fates) && TracedJob(j, i, actions) && i < |fates|
    requires j.Finished? && Sound(j) && !Interrupted(j)
    ensures j.why == EndOf(fates[i])
  {
    hide Outcome, LeavesNoRow;
    RowMissingIff(fates[i].answers);
    if HeardBy(j).Some? {
      var k :| 0 <= k < |actions| && actions[k] == OfTest(i, Conclude(HeardBy(j).value));
    }
    if ReadOk(j) {
      var k :| 0 <= k < |actions| && actions[k] == OfTest(i, Judge(Readable));
    }
    if j.why.Unparsed? {
      var k :| 0 <= k < |actions| && actions[k] == OfTest(i, Judge(Unreadable(j.why.error)));
    }
    NoCrashObeys(actions, fates, i);
  }

  lemma NoCrashObeys(actions: seq<Action>, fates: seq<Fate>, i: nat)
    requires Obeys(actions, fates)
    ensures OfTest(i, Crash) !in actions
  {}

  /** Every test of an unstopped schedule ends as its fate says, or is never started, in every interleaving. */
  lemma TestsEndAsDecided(maxWorkers: nat, before: seq<Action>, tests: seq<Test>, more: seq<Action>, fates: seq<Fate>)
    requires Unstopped(maxWorkers, before, tests, more) && |fates| == |tests| && Obeys(more, fates)
    ensures var r := After(maxWorkers, before, tests, more);
            && |r.run.value.jobs| == |tests|
            && forall i :: 0 <= i < |tests| ==>
                 r.run.value.jobs[i] ==
                 if Reached(Workers(maxWorkers), tests, fates, i) then Finished(EndOf(fates[i])) else Unspawned
  {
    UnstoppedFacts(maxWorkers, before, tests, more);
    var r := After(maxWorkers, before, tests, more);
    hide After, Unstopped, PermitInv, StopInv, RecordInv, EndOf, Obeys, TracedJob, Sound, Interrupted, ErrorOf;
    var run := r.run.value;
    forall i | 0 <= i < |run.jobs| && run.jobs[i].Finished? ensures run.jobs[i] == Finished(EndOf(fates[i])) {
      FinishedAsFated(run.jobs[i], i, more, fates);
    }
    forall i | 0 <= i < |tests|
      ensures run.jobs[i] == if Reached(r.workers, tests, fates, i) then Finished(EndOf(fates[i])) else Unspawned
    {
      StartedIffReached(r, fates, i);
    }
  }

  lemma StartedIffReached(r: Scheduler, fates: seq<Fate>, i: nat)
    requires ShapeInv(r) && InOrder(r) && Returning(r)
    requires |fates| == |r.run.value.tests| && i < |fates|
    requires forall k :: 0 <= k < |r.run.value.jobs| && r.run.value.jobs[k].Finished? ==>
               r.run.value.jobs[k] == Finished(EndOf(fates[k]))
    ensures r.run.value.jobs[i] ==
            if Reached(r.workers, r.run.value.tests, fates, i) then Finished(EndOf(fates[i])) else Unspawned
  {
    hide EndOf, ErrorOf, Sound;
    var run := r.run.value;
    forall k | 0 <= k < |run.jobs| ensures JobFits(run.stage, InParallel(r, run.tests[k]), k, run.jobs[k]) {}
    if run.jobs[i].Finished? {
      if !InParallel(r, run.tests[i]) {
        assert SequentialStarted(r, i) && EarlierClear(r, i);
      }
    } else {
      var e := run.stage.error.value;
      var m :| 0 <= m < |run.jobs| && RaisedBy(run.jobs[m], e);
      OnlyFinishedIsClear(run.jobs[i]);
      if !InParallel(r, run.tests[m]) {
        assert SequentialStarted(r, m) && EarlierClear(r, m);
      }
      assert Raises(fates[m]) == Some(e);
    }
  }

  lemma FateLeavesRecord(f: Fate)
    ensures HasRecord(Finished(EndOf(f))) <==> Records(f)
    ensures !HasRecord(Unspawned)
  {}

  /**
    What an unstopped schedule records is decided by the target's answers alone, whatever the
    interleaving: exactly the reached tests whose answers leave a row that can be read.
   */
  lemma RecordsAreDecided(maxWorkers: nat, before: seq<Action>, tests: seq<Test>, more: seq<Action>, fates: seq<Fate>)
    requires Unstopped(maxWorkers, before, tests, more) && |fates| == |tests| && Obeys(more, fates)
    ensures var r := After(maxWorkers, before, tests, more);
            forall i :: 0 <= i < |tests| ==>
              (Recorded1(r.records, i) <==> Reached(Workers(maxWorkers), tests, fates, i) && Records(fates[i]))
  {
    UnstoppedFacts(maxWorkers, before, tests, more);
    TestsEndAsDecided(maxWorkers, before, tests, more, fates);
    var r := After(maxWorkers, before, tests, more);
    hide After, Unstopped, ShapeInv, PermitInv, StopInv, Obeys, Traced, Reached, Records, HasRecord, EndOf, InOrder, NobodyInterrupted;
    RecordedMeansRecord(r.records, r.run.value);
    hide RecordInv;
    forall i | 0 <= i < |tests|
      ensures Recorded1(r.records, i) <==> Reached(Workers(maxWorkers), tests, fates, i) && Records(fates[i])
    {
      FateLeavesRecord(fates[i]);
    }
  }

  /** It returns an error if and only if a reached test raises one, and then one of those. */
  lemma ErrorIsDecided(maxWorkers: nat, before: seq<Action>, tests: seq<Test>, more: seq<Action>, fates: seq<Fate>)
    requires Unstopped(maxWorkers, before, tests, more) && |fates| == |tests| && Obeys(more, fates)
    ensures var error := After(maxWorkers, before, tests, more).run.value.stage.error;
            && (error.None? <==>
                  forall i :: 0 <= i < |tests| && Reached(Workers(maxWorkers), tests, fates, i) ==> Raises(fates[i]).None?)
            && (error.Some? ==>
                  exists i :: 0 <= i < |tests| && Reached(Workers(maxWorkers), tests, fates, i) && Raises(fates[i]) == error)
  {
    UnstoppedFacts(maxWorkers, before, tests, more);
    TestsEndAsDecided(maxWorkers, before, tests, more, fates);
    var r := After(maxWorkers, before, tests, more);
    hide After, Unstopped, PermitInv, StopInv, RecordInv, Obeys, Traced, Sound, ErrorOf, Reached, EndOf, InOrder, NobodyInterrupted;
    var run := r.run.value;
    if run.stage.error.Some? {
      var m :| 0 <= m < |run.jobs| && RaisedBy(run.jobs[m], run.stage.error.value);
      assert Reached(r.workers, tests, fates, m) && Raises(fates[m]) == run.stage.error;
    } else {
      forall i | 0 <= i < |tests| && Reached(r.workers, tests, fates, i) ensures Raises(fates[i]).None? {
        assert JobFits(run.stage, InParallel(r, run.tests[i]), i, run.jobs[i]);
      }
    }
  }

  /** Nothing the target will answer leaves a result. */
  ghost predicate Barren(workers: nat, tests: seq<Test>, fates: seq<Fate>)
    requires |fates| == |tests|
  {
    forall i :: 0 <= i < |tests| && Reached(workers, tests, fates, i) ==> !Records(fates[i])
  }

  /** An unstopped schedule records nothing if and only if the target's answers are barren. */
  lemma BarrenIff(maxWorkers: nat, before: seq<Action>, tests: seq<Test>, more: seq<Action>, fates: seq<Fate>)
    requires Unstopped(maxWorkers, before, tests, more) && |fates| == |tests| && Obeys(more, fates)
    ensures After(maxWorkers, before, tests, more).records == [] <==> Barren(Workers(maxWorkers), tests, fates)
  {
    UnstoppedFacts(maxWorkers, before, tests, more);
    RecordsAreDecided(maxWorkers, before, tests, more, fates);
    var r := After(maxWorkers, before, tests, more);
    hide After, Unstopped, PermitInv, StopInv, Obeys, Traced, Reached, Records, InOrder;
    if r.records != [] {
      assert RecordFits(r.records[0], r.run.value);
      assert Recorded1(r.records, r.records[0].job);
    }
    if i :| 0 <= i < |tests| && Reached(r.workers, tests, fates, i) && Records(fates[i]) {
      assert Recorded1(r.records, i);
    }
  }
}
