/** Nothing the test scheduler does ever gets stuck: every schedule can end, and every stop can return. */
module StopProgress {
  import opened Results
  import opened ExecTest
  import opened TestScheduler
  import opened TestSchedulerInv
  import opened TestSchedulerProperties
  import opened ScheduleOutcome
  import opened ScheduleProgress

  // ---------------------------------------------------------------- how far the stops still have to go

  function StopWeight(phase: StopPhase): nat {
    match phase
    case Forcing => 7
    case Reading => 6
    case Waiting(_) => 5
    case Holding(_) => 4
    case Locking => 3
    case Resetting => 2
    case Flagging => 1
    case Done => 0
  }

  function StopsTotal(stops: seq<Stop>): nat {
    if stops == [] then 0 else StopsTotal(stops[..|stops| - 1]) + StopWeight(stops[|stops| - 1].phase)
  }

  lemma {:induction false} StopsTotalUpdate(stops: seq<Stop>, k: nat, stop: Stop)
    requires k < |stops|
    ensures StopsTotal(stops[k := stop]) + StopWeight(stops[k].phase) == StopsTotal(stops) + StopWeight(stop.phase)
    decreases |stops|
  {
    var n := |stops| - 1;
    if k == n {
      assert stops[k := stop][..n] == stops[..n];
    } else {
      StopsTotalUpdate(stops[..n], k, stop);
      assert stops[k := stop][..n] == stops[..n][k := stop];
    }
  }

  lemma {:induction false} AllDoneIff(stops: seq<Stop>)
    ensures StopsTotal(stops) == 0 <==> forall k :: 0 <= k < |stops| ==> stops[k].phase.Done?
    decreases |stops|
  {
    if stops != [] {
      AllDoneIff(stops[..|stops| - 1]);
    }
  }

  // ---------------------------------------------------------------- one step of a stop

  /** A stop that waits neither for a permit nor for the schedule lock. */
  predicate Ready(phase: StopPhase) {
    !phase.Waiting? && !phase.Locking? && !phase.Done?
  }

  function NextOfStop(phase: StopPhase): StopAction {
    match phase
    case Forcing => Force
    case Reading => ReadSem
    case Waiting(_) => AcquireSem
    case Holding(_) => LetGo
    case Locking => Pass
    case Resetting => Reset
    case _ => RaiseFlag
  }

  /** `r` has one stop further on, and the schedule as it was. */
  ghost predicate StopMoved(s: Scheduler, a: Action, r: Scheduler) {
    && (a.OfStop? && r == Step(s, a))
    && r.run == s.run && r.epoch == s.epoch && |r.stops| == |s.stops| && StopsTotal(r.stops) < StopsTotal(s.stops)
    && (s.stopped ==> r.stopped) && (StopsTotal(r.stops) == 0 ==> r.stopped)
  }

  lemma StopMoves(s: Scheduler, k: nat) returns (a: Action)
    requires Inv(s) && k < |s.stops| && !s.stops[k].phase.Done?
    requires s.stops[k].phase.Waiting? ==> s.sems[s.stops[k].phase.sem].available > 0
    requires s.stops[k].phase.Locking? ==> s.run.None?
    ensures StopMoved(s, a, Step(s, a))
  {
    hide ShapeInv, StopInv, RecordInv, Give, Take;
    a := OfStop(k, NextOfStop(s.stops[k].phase));
    var r := Step(s, a);
    assert r.stops == s.stops[k := r.stops[k]] && r.run == s.run;
    StopsTotalUpdate(s.stops, k, r.stops[k]);
    if !r.stops[k].phase.Done? {
      AllDoneIff(r.stops);
    }
  }

  lemma {:induction false} NoneHolding(stops: seq<Stop>, sem: nat)
    requires forall k :: 0 <= k < |stops| ==> !Ready(stops[k].phase)
    ensures StopsHolding(stops, sem) == 0
    decreases |stops|
  {
    if stops != [] {
      NoneHolding(stops[..|stops| - 1], sem);
    }
  }

  /** Without a schedule, and with no stop holding a permit, every permit is free. */
  lemma PermitsAreFree(s: Scheduler, sem: nat)
    requires Inv(s) && s.run.None? && sem < |s.sems| && StopsHolding(s.stops, sem) == 0
    ensures s.sems[sem].available > 0
  {
    hide ShapeInv, StopInv, RecordInv;
    assert Balanced(s, sem);
  }

  /** Whenever a stop is under way without a schedule, or is not waiting for one, some stop goes on. */
  lemma SomeStopStep(s: Scheduler) returns (found: bool, a: Action)
    requires Inv(s)
    ensures found ==> StopMoved(s, a, Step(s, a))
    ensures !found ==> forall k :: 0 <= k < |s.stops| ==> !Ready(s.stops[k].phase)
    ensures !found && s.run.None? ==> StopsTotal(s.stops) == 0
  {
    found, a := false, End;
    if k: nat :| k < |s.stops| && Ready(s.stops[k].phase) {
      a := StopMoves(s, k);
      found := true;
    } else if s.run.None? {
      if k: nat :| k < |s.stops| && !s.stops[k].phase.Done? {
        hide ShapeInv, StopInv, RecordInv;
        if s.stops[k].phase.Waiting? {
          var sem := s.stops[k].phase.sem;
          NoneHolding(s.stops, sem);
          PermitsAreFree(s, sem);
        }
        a := StopMoves(s, k);
        found := true;
      } else {
        AllDoneIff(s.stops);
      }
    }
  }

  // ---------------------------------------------------------------- the whole scheduler

  function RunRank(s: Scheduler): nat {
    if s.run.None? then 0 else 1 + StageRank(s.run.value.stage)
  }

  function JobsLeft(s: Scheduler): nat {
    if s.run.None? then 0 else Total(s.run.value.jobs)
  }

  function JoinsLeft(s: Scheduler): nat {
    if s.run.None? then 0 else Rest(s.run.value)
  }

  /** Fates for a schedule of which nothing is known. */
  function AnyFates(n: nat): (fates: seq<Fate>)
    ensures |fates| == n
  {
    seq(n, i => Fate(Answers(Ok(0), Completed(Some(Row(0, ""))), Replied, Ok((0, "")), ""), Readable))
  }

  /** The schedule takes a step, or is over, and no stop has moved. */
  lemma ScheduleStep(s: Scheduler) returns (a: Action)
    requires Inv(s) && s.run.Some? && forall k :: 0 <= k < |s.stops| ==> !Ready(s.stops[k].phase)
    ensures var r := Step(s, a);
            && r.stops == s.stops && r.epoch == s.epoch && r.stopped == s.stopped
            && (r.run.None? || Nearer(s.run.value, r.run.value))
    ensures Internal(a)
  {
    hide Inv, Nearer, StepJob, StepSchedule;
    if Returning(s) {
      a := End;
      EndLeaves(s);
    } else {
      forall sem | 0 <= sem < |s.sems| ensures StopsHolding(s.stops, sem) == 0 {
        NoneHolding(s.stops, sem);
      }
      var fates := AnyFates(|s.run.value.tests|);
      a := NextStep(s, fates);
      OnlyBeginCounts(s, a);
      StoppedStays(s, a);
      match a
      case OfTest(i, act) => if CanFinish(s, i) { JobLeavesStops(s, i, act); }
      case _ => ScheduleLeavesStops(s, a);
    }
  }

  lemma EndLeaves(s: Scheduler)
    requires Returning(s)
    ensures var r := Step(s, End);
            r.run.None? && r.stops == s.stops && r.epoch == s.epoch && r.stopped == s.stopped
  {}

  lemma StoppedStays(s: Scheduler, a: Action)
    requires !a.OfStop?
    ensures Step(s, a).stopped == s.stopped
  {
    hide Outcome, RaisedAfterRecord, Held, AllJoined, IsNext, AnyParallel, AnySequential, NoneUnspawned, Give, Take;
  }

  /** Nobody begins or drops a schedule, and no further stop is counted. */
  predicate Internal(a: Action) {
    !a.Begin? && !a.Drop? && !a.CountStop?
  }

  /**
    There is no deadlock between a schedule's tests and any number of stops: from every state a history
    can reach, some actions lead to where the schedule is over, every stop has returned, and the flag that
    a stop leaves is up if there was one to wait for.
   */
  lemma {:induction false} EverythingCanEnd(s: Scheduler) returns (more: seq<Action>)
    requires Inv(s)
    ensures var r := RunFrom(s, more);
            && r.run.None? && r.epoch == s.epoch && |r.stops| == |s.stops| && r.stopCount == 0
            && (forall k :: 0 <= k < |r.stops| ==> r.stops[k].phase.Done?)
            && (StopsTotal(s.stops) > 0 || s.stopped ==> r.stopped)
    ensures forall k :: 0 <= k < |more| ==> Internal(more[k])
    decreases StopsTotal(s.stops), RunRank(s), JobsLeft(s), JoinsLeft(s)
  {
    var found, a := SomeStopStep(s);
    if !found && s.run.None? {
      more := [];
      AllDoneIff(s.stops);
      NothingCounted(s);
    } else {
      if !found {
        a := ScheduleStep(s);
      }
      StepKeepsInv(s, a);
      hide Inv, Step;
      var later := EverythingCanEnd(Step(s, a));
      more := [a] + later;
      assert [a][..0] == [];
      HistoryContinues(s, [a], later);
    }
  }

  lemma {:induction false} DoneAreNotOutstanding(stops: seq<Stop>)
    requires forall k :: 0 <= k < |stops| ==> stops[k].phase.Done?
    ensures OutstandingCount(stops) == 0
    decreases |stops|
  {
    if stops != [] {
      DoneAreNotOutstanding(stops[..|stops| - 1]);
    }
  }

  lemma NothingCounted(s: Scheduler)
    requires Inv(s) && forall k :: 0 <= k < |s.stops| ==> s.stops[k].phase.Done?
    ensures s.stopCount == 0
  {
    DoneAreNotOutstanding(s.stops);
    NoCountWithoutStops(s);
  }
}
