/** What the test scheduler promises, in every interleaving. */
module TestSchedulerProperties {
  import opened Results
  import opened ExecTest
  import opened TestScheduler
  import opened TestSchedulerInv

  // ---------------------------------------------------------------- concurrency

  /** Permits are conserved: what is available plus what tests and stops hold is the capacity, always. */
  lemma PermitsAreConserved(maxWorkers: nat, actions: seq<Action>, sem: nat)
    requires sem < |History(maxWorkers, actions).sems|
    ensures var s := History(maxWorkers, actions);
            s.sems[sem].available + TestsHolding(s.run, sem) + StopsHolding(s.stops, sem) == s.sems[sem].capacity
  {
    hide History, ShapeInv, StopInv, RecordInv;
    EveryHistoryKeepsInv(maxWorkers, actions);
    assert Balanced(History(maxWorkers, actions), sem);
  }

  /** The number of tests between their permit and their end. */
  function Active(s: Scheduler): nat {
    if s.run.Some? then Held(s.run.value.jobs) else 0
  }

  /** Test `j` belongs to the sequential phase and has been started. */
  predicate SequentialStarted(s: Scheduler, j: nat)
    requires s.run.Some?
  {
    var run := s.run.value;
    j < |run.jobs| && j < |run.tests| && !(s.workers > 1 && run.tests[j].parallel) && !run.jobs[j].Unspawned?
  }

  predicate ParallelOver(s: Scheduler)
    requires s.run.Some?
  {
    var run := s.run.value;
    forall i :: 0 <= i < |run.jobs| && i < |run.tests| && s.workers > 1 && run.tests[i].parallel ==> run.jobs[i].Finished?
  }

  /**
    At most `max_workers` tests are under way in the parallel phase, at most one in the sequential
    phase and none between the phases; while a sequential test has started, every parallel one is over.
   */
  lemma ConcurrencyIsBounded(maxWorkers: nat, actions: seq<Action>)
    ensures var s := History(maxWorkers, actions);
            && Active(s) <= (if maxWorkers < 1 then 1 else maxWorkers)
            && (s.run.Some? && !s.run.value.stage.Parallel? ==> Active(s) <= 1)
            && (s.run.Some? ==> forall j :: 0 <= j < |s.run.value.jobs| && SequentialStarted(s, j) ==> ParallelOver(s))
  {
    hide StopInv, RecordInv;
    EveryHistoryKeepsInv(maxWorkers, actions);
    WorkersStay(maxWorkers, actions);
    var s := History(maxWorkers, actions);
    hide History;
    if s.run.Some? {
      var run := s.run.value;
      match StageSem(run.stage)
      case Some(sem) => assert Balanced(s, sem);
      case None =>
        forall k | 0 <= k < |run.jobs| ensures !HoldsPermit(run.jobs[k]) {
          assert JobFits(run.stage, InParallel(s, run.tests[k]), k, run.jobs[k]);
        }
        NobodyHolds(run.jobs);
      forall j | 0 <= j < |run.jobs| && SequentialStarted(s, j) ensures ParallelOver(s) {
        assert JobFits(run.stage, InParallel(s, run.tests[j]), j, run.jobs[j]);
        forall i | 0 <= i < |run.jobs| && i < |run.tests| && s.workers > 1 && run.tests[i].parallel ensures run.jobs[i].Finished? {
          assert JobFits(run.stage, InParallel(s, run.tests[i]), i, run.jobs[i]);
        }
      }
    }
  }

  /** Started and not over. */
  predicate UnderWay(j: Job) {
    !j.Unspawned? && !j.Finished?
  }

  /**
    Two tests of a schedule are under way together only if there is more than one worker and both are
    marked parallel: any other test has the target for itself from its start to its end.
   */
  lemma OnlyParallelTestsMeet(maxWorkers: nat, actions: seq<Action>, i: nat, k: nat)
    requires var s := History(maxWorkers, actions);
             && s.run.Some? && i < |s.run.value.jobs| && k < |s.run.value.jobs| && i != k
             && UnderWay(s.run.value.jobs[i]) && UnderWay(s.run.value.jobs[k])
    ensures var tests := History(maxWorkers, actions).run.value.tests;
            && i < |tests| && k < |tests|
            && maxWorkers > 1 && tests[i].parallel && tests[k].parallel
  {
    hide History, PermitInv, StopInv, RecordInv, HasSource, Sound, Clear;
    EveryHistoryKeepsInv(maxWorkers, actions);
    WorkersStay(maxWorkers, actions);
    var s := History(maxWorkers, actions);
    var run := s.run.value;
    assert JobFits(run.stage, InParallel(s, run.tests[i]), i, run.jobs[i]);
    assert JobFits(run.stage, InParallel(s, run.tests[k]), k, run.jobs[k]);
    ClearNotUnderWay(run.jobs[i]);
    ClearNotUnderWay(run.jobs[k]);
  }

  lemma ClearNotUnderWay(j: Job)
    ensures Clear(j) ==> !UnderWay(j)
    ensures HoldsPermit(j) ==> UnderWay(j)
  {}

  /** A test that is not marked parallel holds its permit alone, whatever the number of workers. */
  lemma NonParallelTestRunsAlone(maxWorkers: nat, actions: seq<Action>, i: nat)
    requires var s := History(maxWorkers, actions);
             && s.run.Some? && i < |s.run.value.jobs| && i < |s.run.value.tests|
             && !s.run.value.tests[i].parallel && HoldsPermit(s.run.value.jobs[i])
    ensures var jobs := History(maxWorkers, actions).run.value.jobs;
            forall k :: 0 <= k < |jobs| && k != i ==> !HoldsPermit(jobs[k])
  {
    hide History, HoldsPermit, UnderWay;
    var jobs := History(maxWorkers, actions).run.value.jobs;
    ClearNotUnderWay(jobs[i]);
    forall k | 0 <= k < |jobs| && k != i ensures !HoldsPermit(jobs[k]) {
      ClearNotUnderWay(jobs[k]);
      if HoldsPermit(jobs[k]) {
        OnlyParallelTestsMeet(maxWorkers, actions, i, k);
      }
    }
  }

  /**
    A schedule with more than one worker opens by starting exactly the tests marked parallel; with one
    worker it starts none of them.
   */
  lemma OpensWithParallelTests(maxWorkers: nat, actions: seq<Action>)
    requires var s := History(maxWorkers, actions); s.run.Some? && s.run.value.stage.Starting?
    ensures var s := History(maxWorkers, actions);
            var r := Step(s, OpenParallel);
            && r.run.Some? && r.run.value.tests == s.run.value.tests && |r.run.value.jobs| == |s.run.value.tests|
            && forall i :: 0 <= i < |s.run.value.tests| ==>
                 r.run.value.jobs[i] == if maxWorkers > 1 && s.run.value.tests[i].parallel then Spawned else Unspawned
  {
    hide History, PermitInv, StopInv, RecordInv, HasSource, Sound, Clear;
    EveryHistoryKeepsInv(maxWorkers, actions);
    WorkersStay(maxWorkers, actions);
    var s := History(maxWorkers, actions);
    var run := s.run.value;
    forall i | 0 <= i < |run.jobs| ensures run.jobs[i].Unspawned? {
      assert JobFits(run.stage, InParallel(s, run.tests[i]), i, run.jobs[i]);
    }
  }

  lemma {:induction false} WorkersStay(maxWorkers: nat, actions: seq<Action>)
    ensures History(maxWorkers, actions).workers == Init(maxWorkers).workers
    decreases |actions|
  {
    if actions != [] {
      WorkersStay(maxWorkers, actions[..|actions| - 1]);
      StepKeepsWorkers(History(maxWorkers, actions[..|actions| - 1]), actions[|actions| - 1]);
    }
  }

  lemma StepKeepsWorkers(s: Scheduler, a: Action)
    ensures Step(s, a).workers == s.workers
  {
    hide Outcome, RaisedAfterRecord, Held, AllJoined, IsNext, AnyParallel, AnySequential;
  }

  // ---------------------------------------------------------------- what a schedule returns with

  /** `s` is a schedule about to return. */
  predicate Returning(s: Scheduler) {
    s.run.Some? && s.run.value.stage.Ended?
  }

  /**
    A schedule returns only when none of its tests is alive; each test has at most one result, and
    exactly those have one that recorded it.
   */
  lemma NoTestOutlivesItsSchedule(maxWorkers: nat, actions: seq<Action>)
    requires Returning(History(maxWorkers, actions))
    ensures var s := History(maxWorkers, actions);
            && (forall i :: 0 <= i < |s.run.value.jobs| ==> s.run.value.jobs[i].Unspawned? || s.run.value.jobs[i].Finished?)
            && RecordInv(s.records, s.run.value)
            && (forall i :: 0 <= i < |s.run.value.jobs| ==> Sound(s.run.value.jobs[i]))
            && (s.run.value.stage.error.None? ==> forall i :: 0 <= i < |s.run.value.jobs| ==> Clear(s.run.value.jobs[i]))
            && (s.run.value.stage.error.Some? ==>
                 exists i :: 0 <= i < |s.run.value.jobs| && RaisedBy(s.run.value.jobs[i], s.run.value.stage.error.value))
  {
    hide History, PermitInv, StopInv, RecordInv;
    EveryHistoryKeepsInv(maxWorkers, actions);
    var s := History(maxWorkers, actions);
    var run := s.run.value;
    forall k | 0 <= k < |run.jobs|
      ensures run.jobs[k].Unspawned? || run.jobs[k].Finished?
      ensures run.stage.error.None? ==> Clear(run.jobs[k])
    {
      assert JobFits(run.stage, InParallel(s, run.tests[k]), k, run.jobs[k]);
    }
  }

  // ---------------------------------------------------------------- schedules without a stop

  predicate Interrupted(j: Job) {
    j.Finished? && (j.why.Skipped? || j.why.Killed?)
  }

  ghost predicate NobodyInterrupted(s: Scheduler) {
    s.run.Some? ==> forall i :: 0 <= i < |s.run.value.jobs| ==> !Interrupted(s.run.value.jobs[i])
  }

  lemma CalmJob(s: Scheduler, i: nat, act: JobAction)
    requires s.stopCount == 0 && NobodyInterrupted(s) && CanFinish(s, i)
    ensures StepJob(s, i, act).stopCount == 0 && NobodyInterrupted(StepJob(s, i, act))
  {
    hide Outcome, RaisedAfterRecord, NobodyInterrupted;
    var r := StepJob(s, i, act);
    if r.run != s.run {
      assert r.run == Some(s.run.value.(jobs := s.run.value.jobs[i := r.run.value.jobs[i]]));
      CalmMove(s, r, i);
    } else {
      assert NobodyInterrupted(r) by { SameRunCalm(s, r); }
    }
  }

  lemma SameRunCalm(s: Scheduler, r: Scheduler)
    requires NobodyInterrupted(s) && r.run == s.run
    ensures NobodyInterrupted(r)
  {}

  lemma CalmMove(s: Scheduler, r: Scheduler, i: nat)
    requires NobodyInterrupted(s) && s.run.Some? && r.run.Some? && i < |s.run.value.jobs|
    requires i < |r.run.value.jobs| && r.run.value.jobs == s.run.value.jobs[i := r.run.value.jobs[i]]
    requires !Interrupted(r.run.value.jobs[i])
    ensures NobodyInterrupted(r)
  {}

  lemma CalmSchedule(s: Scheduler, a: Action)
    requires NobodyInterrupted(s) && s.run.Some?
    ensures StepSchedule(s, a).stopCount == s.stopCount && NobodyInterrupted(StepSchedule(s, a))
  {
    hide Held, AllJoined, IsNext, AnyParallel, AnySequential, NoneUnspawned;
  }

  lemma CalmStep(s: Scheduler, a: Action)
    requires s.stopCount == 0 && NobodyInterrupted(s) && a != CountStop
    ensures Step(s, a).stopCount == 0 && NobodyInterrupted(Step(s, a))
  {
    hide StepJob, StepSchedule, Interrupted;
    match a
    case OfTest(i, act) => if CanFinish(s, i) { CalmJob(s, i, act); }
    case OfStop(k, step) =>
    case Begin(tests) => assert !Interrupted(Unspawned) by { FreshIsCalm(); }
    case CountStop =>
    case _ => if s.run.Some? { CalmSchedule(s, a); }
  }

  lemma FreshIsCalm()
    ensures !Interrupted(Unspawned)
  {}

  lemma StopsOnlyGrow(s: Scheduler, a: Action)
    ensures |Step(s, a).stops| == |s.stops| + (if a == CountStop then 1 else 0)
    ensures Step(s, a).epoch >= s.epoch
  {
    hide StepJob, StepSchedule;
    match a
    case OfTest(i, act) => if CanFinish(s, i) { JobLeavesStops(s, i, act); }
    case OfStop(k, step) =>
    case Begin(tests) =>
    case CountStop =>
    case _ => if s.run.Some? { ScheduleLeavesStops(s, a); }
  }

  /** As long as no stop comes, no test is skipped or dropped. */
  lemma {:induction false} NoStopNoInterruption(s: Scheduler, tests: seq<Test>, more: seq<Action>)
    requires s.run.None? && s.stopCount == 0
    requires |RunFrom(StepBegin(s, tests), more).stops| == |s.stops|
    ensures var r := RunFrom(StepBegin(s, tests), more); r.stopCount == 0 && NobodyInterrupted(r)
    ensures forall k :: 0 <= k <= |more| ==> |RunFrom(StepBegin(s, tests), more[..k]).stops| >= |s.stops|
    decreases |more|
  {
    hide Step;
    var s' := StepBegin(s, tests);
    StopsAlongTheWay(s', more);
    if more != [] {
      var init, last := more[..|more| - 1], more[|more| - 1];
      StopsAlongTheWay(s', init);
      StopsOnlyGrow(RunFrom(s', init), last);
      NoStopNoInterruption(s, tests, init);
      CalmStep(RunFrom(s', init), last);
    }
  }

  lemma {:induction false} StopsAlongTheWay(s: Scheduler, more: seq<Action>)
    ensures |RunFrom(s, more).stops| >= |s.stops|
    ensures forall k :: 0 <= k <= |more| ==> |RunFrom(s, more[..k]).stops| >= |s.stops|
    decreases |more|
  {
    hide Step;
    if more != [] {
      var init := more[..|more| - 1];
      StopsAlongTheWay(s, init);
      StopsOnlyGrow(RunFrom(s, init), more[|more| - 1]);
      forall k | 0 <= k <= |more| ensures |RunFrom(s, more[..k]).stops| >= |s.stops| {
        if k < |more| {
          assert more[..k] == init[..k];
        } else {
          assert more[..k] == more;
        }
      }
    }
  }

  lemma {:induction false} HistoryContinues(s: Scheduler, xs: seq<Action>, ys: seq<Action>)
    ensures RunFrom(s, xs + ys) == RunFrom(RunFrom(s, xs), ys)
    decreases |ys|
  {
    hide Step;
    if ys == [] {
      assert xs + ys == xs;
    } else {
      var init := ys[..|ys| - 1];
      HistoryContinues(s, xs, init);
      assert (xs + ys)[..|xs + ys| - 1] == xs + init;
    }
  }

  lemma BeganHere(maxWorkers: nat, before: seq<Action>, tests: seq<Test>, more: seq<Action>)
    ensures RunFrom(StepBegin(History(maxWorkers, before), tests), more)
         == History(maxWorkers, before + [Begin(tests)] + more)
  {
    var begin := [Begin(tests)];
    HistoryContinues(Init(maxWorkers), before, begin);
    assert begin[..0] == [];
    HistoryContinues(Init(maxWorkers), before + begin, more);
  }

  predicate HasNoRow(j: Job) {
    j.Finished? && j.why.NoRow?
  }

  /**
    A schedule begun with no stop outstanding and returning without error before any stop came: every
    test has exactly one result, but for those whose taint check panicked before their command ran.
   */
  lemma {:induction false} ExactlyOneResultEach(maxWorkers: nat, before: seq<Action>, tests: seq<Test>, more: seq<Action>)
    requires var s := History(maxWorkers, before); s.run.None? && tests != [] && OutstandingCount(s.stops) == 0
    requires var s := History(maxWorkers, before);
             var r := RunFrom(StepBegin(s, tests), more);
             |r.stops| == |s.stops| && Returning(r) && r.run.value.stage.error.None?
    ensures var r := RunFrom(StepBegin(History(maxWorkers, before), tests), more);
            && (forall k, m :: 0 <= k < m < |r.records| ==> r.records[k].job != r.records[m].job)
            && (forall i :: 0 <= i < |r.run.value.jobs| ==>
                  (Recorded1(r.records, i) <==> !HasNoRow(r.run.value.jobs[i])))
            && (forall i :: 0 <= i < |r.run.value.jobs| && HasNoRow(r.run.value.jobs[i]) ==>
                  PanicsBefore(r.run.value.jobs[i].why.answers))
  {
    hide History, Step, StepBegin, RunFrom;
    EveryHistoryKeepsInv(maxWorkers, before);
    var s := History(maxWorkers, before);
    NoCountWithoutStops(s);
    NoStopNoInterruption(s, tests, more);
    var r := RunFrom(StepBegin(s, tests), more);
    BeganHere(maxWorkers, before, tests, more);
    NoTestOutlivesItsSchedule(maxWorkers, before + [Begin(tests)] + more);
    RecordedMeansRecord(r.records, r.run.value);
    forall i | 0 <= i < |r.run.value.jobs|
      ensures Recorded1(r.records, i) <==> !HasNoRow(r.run.value.jobs[i])
      ensures HasNoRow(r.run.value.jobs[i]) ==> PanicsBefore(r.run.value.jobs[i].why.answers)
    {
      assert Clear(r.run.value.jobs[i]) && !Interrupted(r.run.value.jobs[i]);
      assert Sound(r.run.value.jobs[i]);
      if HasNoRow(r.run.value.jobs[i]) {
        RowMissingIff(r.run.value.jobs[i].why.answers);
      }
    }
  }

  lemma NoCountWithoutStops(s: Scheduler)
    requires Inv(s) && OutstandingCount(s.stops) == 0
    ensures s.stopCount == 0
  {}

  lemma RecordedMeansRecord(records: seq<Record>, run: Run)
    requires RecordInv(records, run)
    ensures forall i :: 0 <= i < |run.jobs| ==> (Recorded1(records, i) <==> HasRecord(run.jobs[i]))
    ensures forall k, m :: 0 <= k < m < |records| ==> records[k].job != records[m].job
  {
    forall i | 0 <= i < |run.jobs| && Recorded1(records, i) ensures HasRecord(run.jobs[i]) {
      var k :| 0 <= k < |records| && records[k].job == i;
      assert RecordFits(records[k], run);
    }
  }

  /** The parallel phase has failed with `e`, or the schedule is about to return with it. */
  predicate FailedWith(s: Scheduler, e: KirkError) {
    s.run.Some? &&
    match s.run.value.stage
    case Parallel(_, _, first) => first == Some(e)
    case Ended(error) => error == Some(e)
    case _ => false
  }

  lemma FailureStays(s: Scheduler, a: Action, e: KirkError)
    requires FailedWith(s, e) && Step(s, a).run.Some?
    ensures FailedWith(Step(s, a), e)
  {
    hide StepJob, AllJoined, IsNext, AnyParallel, AnySequential, NoneUnspawned, Held, Give;
    if a.OfTest? && CanFinish(s, a.i) {
      JobLeavesStage(s, a.i, a.act);
    }
  }

  lemma JobLeavesStage(s: Scheduler, i: nat, act: JobAction)
    requires CanFinish(s, i)
    ensures var r := StepJob(s, i, act);
            r.run.Some? && r.run.value.stage == s.run.value.stage && r.run.value.tests == s.run.value.tests
  {
    hide Outcome, RaisedAfterRecord, Give, Take;
  }

  /** The first error joined in the parallel phase is the one the schedule ends with. */
  lemma {:induction false} FirstErrorIsReported(s: Scheduler, e: KirkError, more: seq<Action>)
    requires FailedWith(s, e) && RunFrom(s, more).run.Some? && RunFrom(s, more).epoch == s.epoch
    ensures FailedWith(RunFrom(s, more), e)
    decreases |more|
  {
    hide Step, FailedWith;
    assert s.run.Some? by { FailedIsOn(s, e); }
    if more != [] {
      var init, last := more[..|more| - 1], more[|more| - 1];
      ScheduleStillOn(s, init, last);
      FirstErrorIsReported(s, e, init);
      FailureStays(RunFrom(s, init), last, e);
    }
  }

  lemma FailedIsOn(s: Scheduler, e: KirkError)
    requires FailedWith(s, e)
    ensures s.run.Some?
  {}

  predicate DroppedAsKilled(j: Job) {
    j.Finished? && j.why.Killed?
  }

  ghost predicate NothingKilled(s: Scheduler) {
    s.run.Some? ==> forall i :: 0 <= i < |s.run.value.jobs| ==> !DroppedAsKilled(s.run.value.jobs[i])
  }

  lemma UnforcedJob(s: Scheduler, i: nat, act: JobAction)
    requires NothingKilled(s) && CanFinish(s, i) && s.stopCount <= 1
    ensures NothingKilled(StepJob(s, i, act))
  {
    hide Outcome, RaisedAfterRecord, Give, Take;
    var r := StepJob(s, i, act);
    assert forall k :: 0 <= k < |r.run.value.jobs| && k != i ==> r.run.value.jobs[k] == s.run.value.jobs[k];
  }

  lemma UnforcedSchedule(s: Scheduler, a: Action)
    requires NothingKilled(s) && s.run.Some?
    ensures NothingKilled(StepSchedule(s, a))
  {
    hide Held, AllJoined, IsNext, AnyParallel, AnySequential, NoneUnspawned;
  }

  lemma UnforcedStep(s: Scheduler, a: Action)
    requires NothingKilled(s) && s.stopCount <= 1
    ensures NothingKilled(Step(s, a))
  {
    hide StepJob, StepSchedule, DroppedAsKilled;
    match a
    case OfTest(i, act) => if CanFinish(s, i) { UnforcedJob(s, i, act); }
    case OfStop(k, step) =>
    case Begin(tests) => assert !DroppedAsKilled(Unspawned) by { FreshIsAlive(); }
    case CountStop =>
    case _ => if s.run.Some? { UnforcedSchedule(s, a); }
  }

  lemma FreshIsAlive()
    ensures !DroppedAsKilled(Unspawned)
  {}

  lemma CountStep(s: Scheduler, a: Action)
    ensures Step(s, a).stopCount <= s.stopCount + (if a == CountStop then 1 else 0)
  {
    hide StepJob, StepSchedule;
    match a
    case OfTest(i, act) => if CanFinish(s, i) { JobLeavesStops(s, i, act); }
    case OfStop(k, step) =>
    case Begin(tests) =>
    case CountStop =>
    case _ => if s.run.Some? { ScheduleLeavesStops(s, a); }
  }

  /** The first stop lets running tests finish: only a second one can make a result be dropped. */
  lemma {:induction false} OneStopDropsNothing(s: Scheduler, tests: seq<Test>, more: seq<Action>)
    requires s.run.None? && s.stopCount == 0
    requires |RunFrom(StepBegin(s, tests), more).stops| <= |s.stops| + 1
    ensures var r := RunFrom(StepBegin(s, tests), more);
            r.stopCount <= |r.stops| - |s.stops| && NothingKilled(r)
    decreases |more|
  {
    hide Step;
    var s' := StepBegin(s, tests);
    if more != [] {
      var init, last := more[..|more| - 1], more[|more| - 1];
      StopsAlongTheWay(s', init);
      StopsOnlyGrow(RunFrom(s', init), last);
      OneStopDropsNothing(s, tests, init);
      CountStep(RunFrom(s', init), last);
      UnforcedStep(RunFrom(s', init), last);
    }
  }

  lemma TestsStayStep(s: Scheduler, a: Action)
    requires s.run.Some? && Step(s, a).run.Some?
    ensures Step(s, a).run.value.tests == s.run.value.tests
  {
    hide StepJob, AllJoined, IsNext, AnyParallel, AnySequential, NoneUnspawned, Held, Give;
    if a.OfTest? && CanFinish(s, a.i) {
      JobLeavesStage(s, a.i, a.act);
    }
  }

  lemma {:induction false} TestsStay(s: Scheduler, more: seq<Action>)
    requires s.run.Some? && RunFrom(s, more).run.Some? && RunFrom(s, more).epoch == s.epoch
    ensures RunFrom(s, more).run.value.tests == s.run.value.tests
    decreases |more|
  {
    hide Step;
    if more != [] {
      var init, last := more[..|more| - 1], more[|more| - 1];
      ScheduleStillOn(s, init, last);
      TestsStay(s, init);
      TestsStayStep(RunFrom(s, init), last);
    }
  }

  // ---------------------------------------------------------------- stopping a schedule

  /** No stop has been let through the schedule lock without having reset the counter yet. */
  ghost predicate NoneResetting(s: Scheduler) {
    forall k :: 0 <= k < |s.stops| ==> !s.stops[k].phase.Resetting?
  }

  /** The command of the test has not been started and never will be, or is still held back. */
  predicate NotExecuted(j: Job) {
    j.Unspawned? || j.Spawned? || j.Queued? || j.Permitted? || j == Finished(Skipped) || j == Finished(Crashed(false))
  }

  ghost predicate StartsNothing(s: Scheduler, r: Scheduler) {
    s.run.Some? && r.run.Some? && |s.run.value.jobs| == |r.run.value.jobs| &&
    forall i :: 0 <= i < |s.run.value.jobs| && NotExecuted(s.run.value.jobs[i]) ==> NotExecuted(r.run.value.jobs[i])
  }

  lemma CountGrowsStep(s: Scheduler, a: Action)
    requires s.run.Some? && NoneResetting(s) && Step(s, a).run.Some?
    ensures var r := Step(s, a); r.epoch == s.epoch && NoneResetting(r) && r.stopCount >= s.stopCount
  {
    hide StepJob, StepSchedule;
    match a
    case OfTest(i, act) => if CanFinish(s, i) { JobLeavesStops(s, i, act); }
    case OfStop(k, step) =>
    case Begin(tests) =>
    case CountStop =>
    case _ => ScheduleLeavesStops(s, a);
  }

  lemma JobLeavesStops(s: Scheduler, i: nat, act: JobAction)
    requires CanFinish(s, i)
    ensures var r := StepJob(s, i, act); r.epoch == s.epoch && r.stops == s.stops && r.stopCount == s.stopCount
  {
    hide Outcome, RaisedAfterRecord, Give, Take;
  }

  lemma ScheduleLeavesStops(s: Scheduler, a: Action)
    requires s.run.Some?
    ensures var r := StepSchedule(s, a); r.epoch == s.epoch && r.stops == s.stops && r.stopCount == s.stopCount
  {
    hide Held, AllJoined, IsNext, AnyParallel, AnySequential, NoneUnspawned, Give, Take;
  }

  lemma HeldBackJob(s: Scheduler, i: nat, act: JobAction)
    requires CanFinish(s, i) && s.stopCount > 0
    ensures StartsNothing(s, StepJob(s, i, act))
  {
    hide Outcome, RaisedAfterRecord;
  }

  lemma HeldBackSchedule(s: Scheduler, a: Action)
    requires ShapeInv(s) && s.run.Some? && StepSchedule(s, a).run.Some?
    ensures StartsNothing(s, StepSchedule(s, a))
  {
    hide Held, AllJoined, IsNext, AnyParallel, AnySequential, NoneUnspawned, JobFits, HasSource;
  }

  lemma HeldBackStep(s: Scheduler, a: Action)
    requires Inv(s) && s.run.Some? && s.stopCount > 0 && Step(s, a).run.Some?
    ensures StartsNothing(s, Step(s, a))
  {
    hide StepJob, StepSchedule, NotExecuted, PermitInv, StopInv, RecordInv, ShapeInv;
    match a
    case OfTest(i, act) => if CanFinish(s, i) { HeldBackJob(s, i, act); }
    case OfStop(k, step) =>
    case Begin(tests) =>
    case CountStop =>
    case _ => HeldBackSchedule(s, a);
  }

  /**
    Once a stop is counted while a schedule is under way, and no earlier stop is about to reset the
    counter, the counter stays positive until that schedule ends, and no test that had not passed its
    second look starts any more.
   */
  lemma {:induction false} StopHoldsUntilScheduleEnds(s: Scheduler, more: seq<Action>)
    requires Inv(s) && s.run.Some? && NoneResetting(s) && s.stopCount > 0
    requires RunFrom(s, more).run.Some? && RunFrom(s, more).epoch == s.epoch
    ensures var r := RunFrom(s, more);
            Inv(r) && NoneResetting(r) && r.stopCount >= s.stopCount && StartsNothing(s, r)
    decreases |more|
  {
    hide Step, Inv, NotExecuted;
    if more != [] {
      var init, last := more[..|more| - 1], more[|more| - 1];
      var u := RunFrom(s, init);
      ScheduleStillOn(s, init, last);
      StopHoldsUntilScheduleEnds(s, init);
      StepKeepsInv(u, last);
      CountGrowsStep(u, last);
      HeldBackStep(u, last);
    }
  }

  lemma {:induction false} EpochsGrow(s: Scheduler, more: seq<Action>)
    ensures RunFrom(s, more).epoch >= s.epoch
    decreases |more|
  {
    hide Step;
    if more != [] {
      EpochsGrow(s, more[..|more| - 1]);
      StopsOnlyGrow(RunFrom(s, more[..|more| - 1]), more[|more| - 1]);
    }
  }

  lemma OnlyBeginStarts(s: Scheduler, a: Action)
    requires s.run.None? && Step(s, a).run.Some?
    ensures Step(s, a).epoch == s.epoch + 1
  {}

  lemma OnlyBeginCounts(s: Scheduler, a: Action)
    requires s.run.Some?
    ensures Step(s, a).epoch == s.epoch
  {
    hide StepJob, StepSchedule;
    match a
    case OfTest(i, act) => if CanFinish(s, i) { JobLeavesStops(s, i, act); }
    case OfStop(k, step) =>
    case Begin(tests) =>
    case CountStop =>
    case _ => ScheduleLeavesStops(s, a);
  }

  /** A schedule that is still on was on all the time. */
  lemma ScheduleStillOn(s: Scheduler, init: seq<Action>, last: Action)
    requires s.run.Some? && Step(RunFrom(s, init), last).run.Some? && Step(RunFrom(s, init), last).epoch == s.epoch
    ensures RunFrom(s, init).run.Some? && RunFrom(s, init).epoch == s.epoch
  {
    hide Step;
    var u := RunFrom(s, init);
    EpochsGrow(s, init);
    if u.run.None? {
      OnlyBeginStarts(u, last);
    } else {
      OnlyBeginCounts(u, last);
    }
  }

  /** Whatever happens, the counter does not fall while the schedule begun here is under way. */
  ghost predicate CountNeverFalls(s: Scheduler, tests: seq<Test>) {
    forall more: seq<Action>, a: Action ::
      var u := RunFrom(StepBegin(s, tests), more);
      u.run.Some? && u.epoch == s.epoch + 1 && Step(u, a).run.Some? ==> Step(u, a).stopCount >= u.stopCount
  }

  lemma {:induction false} NoneResettingLater(s: Scheduler, more: seq<Action>)
    requires s.run.Some? && NoneResetting(s) && RunFrom(s, more).run.Some? && RunFrom(s, more).epoch == s.epoch
    ensures NoneResetting(RunFrom(s, more))
    decreases |more|
  {
    hide Step;
    if more != [] {
      var init, last := more[..|more| - 1], more[|more| - 1];
      ScheduleStillOn(s, init, last);
      NoneResettingLater(s, init);
      CountGrowsStep(RunFrom(s, init), last);
    }
  }

  /**
    The exact condition: stops counted during a schedule keep their effect until it ends if and only
    if, when it begins, no earlier stop stands between the schedule lock and the reset of the counter.
   */
  lemma StopKeepsEffectIff(s: Scheduler, tests: seq<Test>)
    requires s.run.None? && tests != []
    ensures CountNeverFalls(s, tests) <==> NoneResetting(s)
  {
    var s' := StepBegin(s, tests);
    if NoneResetting(s) {
      hide Step;
      forall more: seq<Action>, a: Action |
        RunFrom(s', more).run.Some? && RunFrom(s', more).epoch == s.epoch + 1 && Step(RunFrom(s', more), a).run.Some?
        ensures Step(RunFrom(s', more), a).stopCount >= RunFrom(s', more).stopCount
      {
        NoneResettingLater(s', more);
        CountGrowsStep(RunFrom(s', more), a);
      }
    } else {
      var k :| 0 <= k < |s.stops| && s.stops[k].phase.Resetting?;
      var u := RunFrom(s', [CountStop]);
      assert [CountStop][..0] == [];
      assert u == StepCountStop(s');
      assert Step(u, OfStop(k, Reset)).stopCount == 0 < u.stopCount;
    }
  }

  /** A stop that is through the schedule lock was counted before the schedule now running began. */
  lemma StopReturnsAfterItsSchedule(maxWorkers: nat, actions: seq<Action>, k: nat)
    requires k < |History(maxWorkers, actions).stops| && PassedLock(History(maxWorkers, actions).stops[k])
    requires History(maxWorkers, actions).run.Some?
    ensures History(maxWorkers, actions).stops[k].since < History(maxWorkers, actions).epoch
  {
    hide History, ShapeInv, PermitInv, RecordInv;
    EveryHistoryKeepsInv(maxWorkers, actions);
  }

  // ---------------------------------------------------------------- a stop that is lost

  /** A test `t` scheduled on one worker, in its sequential phase. */
  function OneTest(job: Job, current: Option<nat>): Option<Run> {
    Some(Run([Test("t", false)], [job], Sequential(1, current)))
  }

  lemma Played(actions: seq<Action>, s: Scheduler, a: Action, next: Scheduler) returns (longer: seq<Action>, now: Scheduler)
    requires History(1, actions) == s && Step(s, a) == next
    ensures longer == actions + [a] && now == next && History(1, longer) == next
  {
    longer, now := actions + [a], next;
    assert longer[..|actions|] == actions;
  }

  /** The state with its only stop in the given phase. */
  function Only(s: Scheduler, phase: StopPhase): Scheduler {
    s.(stops := [Stop(phase, 0)])
  }

  lemma OnlyStopMoves(s: Scheduler, from: StopPhase, to: StopPhase)
    ensures MoveStop(Only(s, from), 0, to) == Only(s, to)
  {
    assert [Stop(from, 0)][0 := Stop(to, 0)] == [Stop(to, 0)];
  }

  /** A stop with nothing to wait for gets through the schedule lock. */
  lemma FirstStopPasses() returns (actions: seq<Action>, s: Scheduler)
    ensures s == Only(Init(1).(stopCount := 1), Resetting) && History(1, actions) == s
  {
    hide RunFrom, History, StepJob, StepSchedule, StepBegin, MoveStop;
    NothingPlayed();
    var c := Init(1).(stopCount := 1);
    var d := c.(sems := [Semaphore(1, 0)]);
    OnlyStopMoves(c, Reading, Waiting(0));
    OnlyStopMoves(d, Waiting(0), Holding(0));
    OnlyStopMoves(c, Holding(0), Locking);
    OnlyStopMoves(c, Locking, Resetting);
    assert [Semaphore(1, 1)][0 := Semaphore(1, 0)] == [Semaphore(1, 0)];
    assert [Semaphore(1, 0)][0 := Semaphore(1, 1)] == [Semaphore(1, 1)];
    actions, s := Played([], Init(1), CountStop, Only(c, Reading));
    actions, s := Played(actions, s, OfStop(0, ReadSem), Only(c, Waiting(0)));
    actions, s := Played(actions, s, OfStop(0, AcquireSem), Only(d, Holding(0)));
    actions, s := Played(actions, s, OfStop(0, LetGo), Only(c, Locking));
    actions, s := Played(actions, s, OfStop(0, Pass), Only(c, Resetting));
  }

  lemma NothingPlayed()
    ensures History(1, []) == Init(1)
  {}

  /** A schedule of one test begins, and a second stop is counted before the test has looked. */
  lemma SecondStopComes() returns (actions: seq<Action>, s: Scheduler)
    ensures s == Scheduler(1, 2, false, [], [Semaphore(1, 1), Semaphore(1, 1)], 1, OneTest(Spawned, Some(0)), 1,
                           [Stop(Resetting, 0), Stop(Forcing, 1)], None)
    ensures History(1, actions) == s
  {
    hide RunFrom, History;
    actions, s := FirstStopPasses();
    var tests := [Test("t", false)];
    assert seq(1, i => Unspawned) == [Unspawned];
    actions, s := Played(actions, s, Begin(tests), s.(epoch := 1, run := Some(Run(tests, [Unspawned], Starting))));
    actions, s := Played(actions, s, OpenParallel, s.(run := Some(Run(tests, [Unspawned], Between))));
    assert !InParallel(s, tests[0]);
    actions, s := Played(actions, s, OpenSequential,
                         s.(sems := s.sems + [Semaphore(1, 1)], running := 1, run := OneTest(Unspawned, None)));
    assert [Unspawned][0 := Spawned] == [Spawned];
    actions, s := Played(actions, s, StartNext(0), s.(run := OneTest(Spawned, Some(0))));
    actions, s := Played(actions, s, CountStop, s.(stopCount := 2, stops := [Stop(Resetting, 0), Stop(Forcing, 1)]));
  }

  /**
    The condition matters: a stop counted while an earlier one is about to reset the counter is
    forgotten, and the test it should have held back is executed while it waits.
   */
  lemma AStopCanBeLost() returns (actions: seq<Action>)
    ensures var s := History(1, actions);
            && |s.stops| == 2 && Outstanding(s.stops[1]) && s.stops[1].since == s.epoch && s.run.Some?
            && s.stopCount == 0 && s.run.value.jobs == [Executing]
  {
    hide RunFrom, History, StepSchedule, StepBegin, StepJob, StepStop;
    var s;
    actions, s := SecondStopComes();
    ResetForgets(s);
    actions, s := Played(actions, s, OfStop(0, Reset), s.(stopCount := 0, stops := [Stop(Flagging, 0), Stop(Forcing, 1)]));
    TestGoesOn(s);
    actions, s := Played(actions, s, OfTest(0, FirstLook), s.(run := OneTest(Queued, Some(0))));
    actions, s := Played(actions, s, OfTest(0, Acquire),
                         s.(run := OneTest(Permitted, Some(0)), sems := [Semaphore(1, 1), Semaphore(1, 0)]));
    actions, s := Played(actions, s, OfTest(0, SecondLook), s.(run := OneTest(Executing, Some(0))));
  }

  lemma ResetForgets(s: Scheduler)
    requires s.stops == [Stop(Resetting, 0), Stop(Forcing, 1)]
    ensures StepStop(s, 0, Reset) == s.(stopCount := 0, stops := [Stop(Flagging, 0), Stop(Forcing, 1)])
  {}

  /** With the counter at zero a spawned test goes all the way to its command. */
  lemma TestGoesOn(s: Scheduler)
    requires s.run == OneTest(Spawned, Some(0)) && s.stopCount == 0 && s.sems == [Semaphore(1, 1), Semaphore(1, 1)]
    ensures var queued := s.(run := OneTest(Queued, Some(0)));
            var permitted := s.(run := OneTest(Permitted, Some(0)), sems := [Semaphore(1, 1), Semaphore(1, 0)]);
            && CanFinish(s, 0) && StepJob(s, 0, FirstLook) == queued
            && CanFinish(queued, 0) && StepJob(queued, 0, Acquire) == permitted
            && CanFinish(permitted, 0)
            && StepJob(permitted, 0, SecondLook) == permitted.(run := OneTest(Executing, Some(0)))
  {
    hide Finish, StepConclude, StepJudge, StepPush, StepLeave, StepCrash;
    assert [Spawned][0 := Queued] == [Queued] && [Queued][0 := Permitted] == [Permitted]
           && [Permitted][0 := Executing] == [Executing];
    assert [Semaphore(1, 1), Semaphore(1, 1)][1 := Semaphore(1, 0)] == [Semaphore(1, 1), Semaphore(1, 0)];
  }
}
