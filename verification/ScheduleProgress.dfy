/** A schedule without stops never gets stuck: whatever the target answers, it can go on until it returns. */
module ScheduleProgress {
  import opened Results
  import opened ExecTest
  import opened TestScheduler
  import opened TestSchedulerInv
  import opened TestSchedulerProperties
  import opened ScheduleOutcome

  // ---------------------------------------------------------------- how far a schedule still has to go

  function StageRank(g: Stage): nat {
    match g
    case Starting => 4
    case Parallel(_, _, _) => 3
    case Between => 2
    case Sequential(_, _) => 1
    case Ended(_) => 0
  }

  function Weight(j: Job): nat {
    match j
    case Unspawned => 9
    case Spawned => 8
    case Queued => 7
    case Permitted => 6
    case Executing => 5
    case Judged(_) => 4
    case Parsed(_, _) => 3
    case Pushed(_) => 2
    case Finished(_) => 1
  }

  function Total(jobs: seq<Job>): nat {
    if jobs == [] then 0 else Total(jobs[..|jobs| - 1]) + Weight(jobs[|jobs| - 1])
  }

  /** How many of the first `n` tests are not joined. */
  function Unjoined(n: nat, joined: set<nat>): nat {
    if n == 0 then 0 else Unjoined(n - 1, joined) + (if n - 1 in joined then 0 else 1)
  }

  function Rest(run: Run): nat {
    match run.stage
    case Parallel(_, joined, _) => Unjoined(|run.jobs|, joined)
    case Sequential(_, current) => if current.Some? then 1 else 0
    case _ => 0
  }

  /** `r` is nearer to its end than `s`. */
  predicate Nearer(s: Run, r: Run) {
    || StageRank(r.stage) < StageRank(s.stage)
    || (StageRank(r.stage) == StageRank(s.stage) && Total(r.jobs) < Total(s.jobs))
    || (StageRank(r.stage) == StageRank(s.stage) && Total(r.jobs) == Total(s.jobs) && Rest(r) < Rest(s))
  }

  lemma {:induction false} TotalUpdate(jobs: seq<Job>, i: nat, j: Job)
    requires i < |jobs|
    ensures Total(jobs[i := j]) + Weight(jobs[i]) == Total(jobs) + Weight(j)
    decreases |jobs|
  {
    var n := |jobs| - 1;
    if i == n {
      assert jobs[i := j][..n] == jobs[..n];
    } else {
      TotalUpdate(jobs[..n], i, j);
      assert jobs[i := j][..n] == jobs[..n][i := j];
    }
  }

  lemma {:induction false} OneMoreJoined(n: nat, joined: set<nat>, i: nat)
    requires i !in joined
    ensures Unjoined(n, joined + {i}) == Unjoined(n, joined) - (if i < n then 1 else 0)
    ensures i < n ==> Unjoined(n, joined) > 0
  {
    if n > 0 {
      OneMoreJoined(n - 1, joined, i);
    }
  }

  // ---------------------------------------------------------------- there is always a next step

  /** A schedule is under way, and no stop holds a permit. */
  ghost predicate Unblocked(s: Scheduler) {
    Inv(s) && s.run.Some? && forall sem :: 0 <= sem < |s.sems| ==> StopsHolding(s.stops, sem) == 0
  }

  /** A schedule is under way, and nobody is stopping anything. */
  ghost predicate Quiet(s: Scheduler) {
    Inv(s) && s.run.Some? && s.stopCount == 0 && OutstandingCount(s.stops) == 0
  }

  lemma QuietIsUnblocked(s: Scheduler)
    requires Quiet(s)
    ensures Unblocked(s)
  {
    hide Inv;
    forall sem | 0 <= sem < |s.sems| ensures StopsHolding(s.stops, sem) == 0 {
      NoStopHoldsHere(s.stops, sem);
    }
  }

  predicate Obedient(a: Action, fates: seq<Fate>) {
    match a
    case OfTest(i, Conclude(answers)) => i < |fates| && answers == fates[i].answers
    case OfTest(i, Judge(verdict)) => i < |fates| && verdict == fates[i].verdict
    case OfTest(_, Crash) => false
    case CountStop => false
    case OfStop(_, _) => false
    case Drop => false
    case End => false
    case Begin(_) => false
    case _ => true
  }

  lemma {:induction false} HeldBySomeone(jobs: seq<Job>) returns (i: nat)
    requires Held(jobs) > 0
    ensures i < |jobs| && HoldsPermit(jobs[i])
    decreases |jobs|
  {
    if HoldsPermit(jobs[|jobs| - 1]) {
      i := |jobs| - 1;
    } else {
      i := HeldBySomeone(jobs[..|jobs| - 1]);
    }
  }

  lemma {:induction false} NoStopHoldsHere(stops: seq<Stop>, sem: nat)
    requires OutstandingCount(stops) == 0
    ensures StopsHolding(stops, sem) == 0
    decreases |stops|
  {
    if stops != [] {
      NoStopHoldsHere(stops[..|stops| - 1], sem);
    }
  }

  lemma FreeOrHeld(s: Scheduler)
    requires Unblocked(s) && StageSem(s.run.value.stage).Some?
    ensures var sem := StageSem(s.run.value.stage).value;
            sem < |s.sems| && (s.sems[sem].available > 0 || Held(s.run.value.jobs) > 0)
  {
    hide RecordInv, StopInv, ShapeInv;
    assert s.workers >= 1 by { AtLeastOneWorker(s); }
    var sem := StageSem(s.run.value.stage).value;
    assert Balanced(s, sem);
  }

  lemma AtLeastOneWorker(s: Scheduler)
    requires ShapeInv(s)
    ensures s.workers >= 1
  {}

  /** What a test does next, given its fate. */
  function NextOf(j: Job, f: Fate): JobAction {
    match j
    case Spawned => FirstLook
    case Queued => Acquire
    case Permitted => SecondLook
    case Executing => Conclude(f.answers)
    case Judged(_) => Judge(f.verdict)
    case Parsed(_, _) => Push
    case _ => Leave
  }

  lemma TestAdvances(s: Scheduler, i: nat, f: Fate)
    requires CanFinish(s, i) && |s.run.value.jobs| == |s.run.value.tests|
    requires !s.run.value.jobs[i].Unspawned? && !s.run.value.jobs[i].Finished?
    requires s.run.value.jobs[i].Queued? ==> s.sems[StageSem(s.run.value.stage).value].available > 0
    ensures var r := StepJob(s, i, NextOf(s.run.value.jobs[i], f));
            && r.run.Some? && r.run.value.stage == s.run.value.stage && |r.run.value.jobs| == |s.run.value.jobs|
            && r.run.value.jobs == s.run.value.jobs[i := r.run.value.jobs[i]]
            && Weight(r.run.value.jobs[i]) < Weight(s.run.value.jobs[i])
  {
    hide Outcome, RaisedAfterRecord, Give, Take;
  }

  /** A test that can go on goes on. */
  lemma TestStep(s: Scheduler, i: nat, fates: seq<Fate>) returns (a: Action)
    requires Unblocked(s) && CanFinish(s, i) && |fates| == |s.run.value.tests|
    requires !s.run.value.jobs[i].Unspawned? && !s.run.value.jobs[i].Finished?
    requires s.run.value.jobs[i].Queued? ==> s.sems[StageSem(s.run.value.stage).value].available > 0
    ensures Obedient(a, fates) && Step(s, a).run.Some? && Nearer(s.run.value, Step(s, a).run.value)
  {
    LengthsAgree(s, i);
    hide Inv, StepJob, Weight, Total;
    var act := NextOf(s.run.value.jobs[i], fates[i]);
    a := OfTest(i, act);
    TestAdvances(s, i, fates[i]);
    var r := StepJob(s, i, act);
    TotalUpdate(s.run.value.jobs, i, r.run.value.jobs[i]);
  }

  predicate Waits(j: Job) {
    j.Spawned? || j.Queued?
  }

  /** In a phase with a semaphore: some test goes on, or none is between its start and its end. */
  lemma SomeTestStep(s: Scheduler, fates: seq<Fate>) returns (found: bool, a: Action)
    requires Unblocked(s) && StageSem(s.run.value.stage).Some? && |fates| == |s.run.value.tests|
    ensures found ==> Obedient(a, fates) && Step(s, a).run.Some? && Nearer(s.run.value, Step(s, a).run.value)
    ensures !found ==> forall i :: 0 <= i < |s.run.value.jobs| ==>
                                 s.run.value.jobs[i].Unspawned? || s.run.value.jobs[i].Finished?
  {
    hide Inv, Step, Nearer, Obedient;
    var jobs := s.run.value.jobs;
    FreeOrHeld(s);
    found, a := false, End;
    if Held(jobs) > 0 {
      var i := HeldBySomeone(jobs);
      a := TestStep(s, i, fates);
      found := true;
    } else if i: nat :| i < |jobs| && Waits(jobs[i]) {
      a := TestStep(s, i, fates);
      found := true;
    } else {
      forall i | 0 <= i < |jobs| ensures jobs[i].Unspawned? || jobs[i].Finished? {
        assert !Waits(jobs[i]);
        NobodyHeld(jobs, i);
      }
    }
  }

  lemma {:induction false} NobodyHeld(jobs: seq<Job>, i: nat)
    requires Held(jobs) == 0 && i < |jobs|
    ensures !HoldsPermit(jobs[i])
    decreases |jobs|
  {
    if i < |jobs| - 1 {
      NobodyHeld(jobs[..|jobs| - 1], i);
    }
  }

  lemma ParallelStep(s: Scheduler, fates: seq<Fate>) returns (a: Action)
    requires Unblocked(s) && s.run.value.stage.Parallel? && |fates| == |s.run.value.tests|
    ensures Obedient(a, fates) && Step(s, a).run.Some? && Nearer(s.run.value, Step(s, a).run.value)
  {
    hide PermitInv, RecordInv, StopInv, Total, Weight, HasSource, Clear, Sound;
    var found;
    found, a := SomeTestStep(s, fates);
    if !found {
      var run := s.run.value;
      if i: nat :| i < |run.tests| && InParallel(s, run.tests[i]) && i !in run.stage.joined {
        assert JobFits(run.stage, InParallel(s, run.tests[i]), i, run.jobs[i]);
        a := Join(i);
        OneMoreJoined(|run.jobs|, run.stage.joined, i);
      } else {
        a := CloseParallel;
      }
    }
  }

  lemma {:induction false} FirstUnspawned(s: Scheduler, n: nat) returns (i: nat)
    requires s.run.Some? && n < |s.run.value.jobs| == |s.run.value.tests|
    requires s.run.value.jobs[n].Unspawned? && !InParallel(s, s.run.value.tests[n])
    ensures JobAt(s, i) && IsNext(s, i)
    decreases n
  {
    if j: nat :| j < n && s.run.value.jobs[j].Unspawned? && !InParallel(s, s.run.value.tests[j]) {
      i := FirstUnspawned(s, j);
    } else {
      i := n;
    }
  }

  lemma SequentialStep(s: Scheduler, fates: seq<Fate>) returns (a: Action)
    requires Unblocked(s) && s.run.value.stage.Sequential? && |fates| == |s.run.value.tests|
    ensures Obedient(a, fates) && Step(s, a).run.Some? && Nearer(s.run.value, Step(s, a).run.value)
  {
    hide PermitInv, RecordInv, StopInv, Total, HasSource, Sound, ErrorOf;
    var found;
    found, a := SomeTestStep(s, fates);
    if !found {
      var run := s.run.value;
      forall i | 0 <= i < |run.jobs| ensures JobFits(run.stage, InParallel(s, run.tests[i]), i, run.jobs[i]) {}
      if run.stage.current.Some? || NoneUnspawned(s) {
        a := Advance;
      } else {
        var n :| 0 <= n < |run.jobs| && run.jobs[n].Unspawned?;
        var i := FirstUnspawned(s, n);
        a := StartNext(i);
        TotalUpdate(run.jobs, i, Spawned);
      }
    }
  }

  /** Until a schedule is about to return there is, unless a stop is in its way, a step that brings it nearer to that. */
  lemma NextStep(s: Scheduler, fates: seq<Fate>) returns (a: Action)
    requires Unblocked(s) && !Returning(s) && |fates| == |s.run.value.tests|
    ensures Obedient(a, fates) && Step(s, a).run.Some? && Nearer(s.run.value, Step(s, a).run.value)
  {
    match s.run.value.stage
    case Parallel(_, _, _) => a := ParallelStep(s, fates);
    case Sequential(_, _) => a := SequentialStep(s, fates);
    case Starting =>
      hide Inv, Total, AnyParallel;
      a := OpenParallel;
    case Between =>
      hide Inv, Total, AnySequential;
      a := OpenSequential;
  }

  lemma QuietStays(s: Scheduler, a: Action, fates: seq<Fate>)
    requires Quiet(s) && Obedient(a, fates) && Step(s, a).run.Some?
    ensures var r := Step(s, a);
            Quiet(r) && r.stops == s.stops && r.epoch == s.epoch && r.run.value.tests == s.run.value.tests
  {
    StepKeepsInv(s, a);
    TestsStayStep(s, a);
    OnlyBeginCounts(s, a);
    hide Inv, StepJob, StepSchedule;
    match a
    case OfTest(i, act) => if CanFinish(s, i) { JobLeavesStops(s, i, act); }
    case _ => ScheduleLeavesStops(s, a);
  }

  /**
    From wherever a schedule without stops has come, whatever the target answers from now on, it can run
    on until it returns: no interleaving leads into a dead end.
   */
  lemma {:induction false} CanAlwaysReturn(s: Scheduler, fates: seq<Fate>) returns (more: seq<Action>)
    requires Quiet(s) && |fates| == |s.run.value.tests|
    ensures var r := RunFrom(s, more);
            Returning(r) && r.epoch == s.epoch && r.stops == s.stops && Obeys(more, fates)
    decreases StageRank(s.run.value.stage), Total(s.run.value.jobs), Rest(s.run.value)
  {
    if Returning(s) {
      more := [];
    } else {
      QuietIsUnblocked(s);
      var a := NextStep(s, fates);
      QuietStays(s, a, fates);
      var later := CanAlwaysReturn(Step(s, a), fates);
      hide Quiet, Step;
      more := [a] + later;
      assert [a][..0] == [];
      HistoryContinues(s, [a], later);
      ObeysMore(a, later, fates);
    }
  }

  lemma ObeysMore(a: Action, later: seq<Action>, fates: seq<Fate>)
    requires Obedient(a, fates) && Obeys(later, fates)
    ensures Obeys([a] + later, fates)
  {
    var all := [a] + later;
    forall k | 0 <= k < |all| && all[k].OfTest?
      ensures match all[k].act
              case Conclude(answers) => all[k].i < |fates| && answers == fates[all[k].i].answers
              case Judge(verdict) => all[k].i < |fates| && verdict == fates[all[k].i].verdict
              case Crash => false
              case _ => true
    {
      if k > 0 {
        assert all[k] == later[k - 1];
      }
    }
  }

  /** Every schedule begun with no stop outstanding can run without stops until it returns. */
  lemma EveryScheduleCanReturn(maxWorkers: nat, before: seq<Action>, tests: seq<Test>, fates: seq<Fate>)
    returns (more: seq<Action>)
    requires History(maxWorkers, before).run.None? && tests != [] && |fates| == |tests|
    requires OutstandingCount(History(maxWorkers, before).stops) == 0
    ensures Unstopped(maxWorkers, before, tests, more) && Obeys(more, fates)
  {
    hide History;
    EveryHistoryKeepsInv(maxWorkers, before);
    var s := History(maxWorkers, before);
    NoCountOf(s);
    BeginKeeps(s, tests);
    hide Inv, Obeys;
    more := CanAlwaysReturn(StepBegin(s, tests), fates);
  }
}
