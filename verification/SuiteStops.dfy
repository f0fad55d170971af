/**
  Stopping a suite: the flag of the suite scheduler and the counter of the test scheduler together, with
  the loop that looks at the flag before every round, in every interleaving.
 */
module SuiteStops {
  import opened Results
  import Tests = TestScheduler
  import Inv = TestSchedulerInv
  import Props = TestSchedulerProperties

  /** Where a `stop` of the suite scheduler stands. */
  datatype StopPhase =
    | Raised                      // flag set, stop of the test scheduler not counted yet
    | Inner(k: nat)               // waits for stop `k` of the test scheduler
    | Locking                     // waits for the suite schedule to end
    | Resetting                   // was let through, flag not reset yet
    | Done

  /** Where the suite schedule stands; `Restarting(k)` waits for stop `k` of the test scheduler. */
  datatype Loop = Idle | AtHead | InRound | Restarting(k: nat)

  /** Who called a stop of the test scheduler. */
  datatype Caller = SuiteStop(m: nat) | Restart

  datatype Suites = Suites(
    flag: bool, loop: Loop, epoch: nat, rounds: nat, inner: Tests.Scheduler,
    stops: seq<StopPhase>, callers: seq<Caller>)

  datatype Action =
    | Start
    | Look(tests: seq<Tests.Test>)
    | RoundOver
    | RestartTarget
    | Restarted
    | Finish
    | Raise
    | CountInner(m: nat)
    | InnerDone(m: nat)
    | Pass(m: nat)
    | Lower(m: nat)
    | Within(a: Tests.Action)

  function Init(maxWorkers: nat): Suites {
    Suites(false, Idle, 0, 0, Tests.Init(maxWorkers), [], [])
  }

  predicate StopIs(s: Suites, m: nat, phase: StopPhase) {
    m < |s.stops| && s.stops[m] == phase
  }

  predicate InnerStopDone(s: Suites, k: nat) {
    k < |s.inner.stops| && s.inner.stops[k].phase.Done?
  }

  function CountStop(s: Suites, caller: Caller): Suites {
    s.(inner := Tests.Step(s.inner, Tests.CountStop), callers := s.callers + [caller])
  }

  /** An action that is not enabled changes nothing. */
  function Step(s: Suites, a: Action): Suites {
    match a
    case Start => if s.loop.Idle? then s.(loop := AtHead, epoch := s.epoch + 1) else s
    case Look(tests) =>
      if !s.loop.AtHead? then s
      else if s.flag then s                                       // on to the head of the next suite's loop
      else s.(loop := InRound, rounds := s.rounds + 1, inner := Tests.Step(s.inner, Tests.Begin(tests)))
    case RoundOver => if s.loop.InRound? && s.inner.run.None? then s.(loop := AtHead) else s
    case RestartTarget =>
      if s.loop.InRound? && s.inner.run.None?
      then CountStop(s, Restart).(loop := Restarting(|s.inner.stops|)) else s
    case Restarted => if s.loop.Restarting? && InnerStopDone(s, s.loop.k) then s.(loop := AtHead) else s
    case Finish =>
      if s.loop.AtHead? || (s.loop.InRound? && s.inner.run.None?)
         || (s.loop.Restarting? && InnerStopDone(s, s.loop.k))
      then s.(loop := Idle) else s
    case Raise => s.(flag := true, stops := s.stops + [Raised])
    case CountInner(m) =>
      if StopIs(s, m, Raised)
      then CountStop(s, SuiteStop(m)).(stops := s.stops[m := Inner(|s.inner.stops|)]) else s
    case InnerDone(m) =>
      if m < |s.stops| && s.stops[m].Inner? && InnerStopDone(s, s.stops[m].k)
      then s.(stops := s.stops[m := Locking]) else s
    case Pass(m) => if StopIs(s, m, Locking) && s.loop.Idle? then s.(stops := s.stops[m := Resetting]) else s
    case Lower(m) => if StopIs(s, m, Resetting) then s.(flag := false, stops := s.stops[m := Done]) else s
    case Within(step) =>
      if step.Begin? || step.CountStop? then s else s.(inner := Tests.Step(s.inner, step))
  }

  function RunFrom(s: Suites, actions: seq<Action>): Suites
    decreases |actions|
  {
    if actions == [] then s else Step(RunFrom(s, actions[..|actions| - 1]), actions[|actions| - 1])
  }

  function History(maxWorkers: nat, actions: seq<Action>): Suites {
    RunFrom(Init(maxWorkers), actions)
  }

  // ---------------------------------------------------------------- who called which stop

  /** A stop of the test scheduler that is not over has its caller waiting for it. */
  ghost predicate CallerWaits(s: Suites, k: nat)
    requires k < |s.callers|
  {
    match s.callers[k]
    case SuiteStop(m) => StopIs(s, m, Inner(k))
    case Restart => s.loop == Restarting(k)
  }

  ghost predicate Joint(s: Suites) {
    && Inv.Inv(s.inner)
    && |s.callers| == |s.inner.stops|
    && (forall k :: 0 <= k < |s.callers| && !s.inner.stops[k].phase.Done? ==> CallerWaits(s, k))
    && (s.inner.run.Some? ==> s.loop.InRound?)
    && (s.loop.Restarting? ==> s.loop.k < |s.inner.stops|)
    && (forall m :: 0 <= m < |s.stops| && s.stops[m].Inner? ==> s.stops[m].k < |s.inner.stops|)
  }

  /** Inner stops only ever move towards `Done`, and a schedule begins only by `Begin`. */
  lemma InnerStops(inner: Tests.Scheduler, a: Tests.Action)
    ensures var r := Tests.Step(inner, a);
            && |r.stops| == |inner.stops| + (if a == Tests.CountStop then 1 else 0)
            && (forall k :: 0 <= k < |inner.stops| && inner.stops[k].phase.Done? ==> r.stops[k].phase.Done?)
            && (!a.Begin? && r.run.Some? ==> inner.run.Some?)
            && (a == Tests.CountStop ==> r.run == inner.run)
            && (a.Begin? ==> r.stops == inner.stops)
  {
    hide Tests.StepJob, Tests.StepSchedule;
    match a
    case OfTest(i, act) => if Tests.CanFinish(inner, i) { Props.JobLeavesStops(inner, i, act); }
    case OfStop(k, step) =>
    case Begin(tests) =>
    case CountStop =>
    case _ => if inner.run.Some? { Props.ScheduleLeavesStops(inner, a); }
  }

  lemma StepKeepsJoint(s: Suites, a: Action)
    requires Joint(s)
    ensures Joint(Step(s, a))
  {
    hide Inv.Inv, Tests.Step;
    var r := Step(s, a);
    match a
    case Look(tests) =>
      InnerStops(s.inner, Tests.Begin(tests));
      Inv.StepKeepsInv(s.inner, Tests.Begin(tests));
      assert forall k :: 0 <= k < |s.callers| && CallerWaits(s, k) && s.loop.AtHead? ==> CallerWaits(r, k);
    case RestartTarget =>
      InnerStops(s.inner, Tests.CountStop);
      Inv.StepKeepsInv(s.inner, Tests.CountStop);
      OldStopsStay(s.inner);
    case CountInner(m) =>
      InnerStops(s.inner, Tests.CountStop);
      Inv.StepKeepsInv(s.inner, Tests.CountStop);
      OldStopsStay(s.inner);
    case Within(step) =>
      InnerStops(s.inner, step);
      Inv.StepKeepsInv(s.inner, step);
      assert forall k :: 0 <= k < |s.callers| && CallerWaits(s, k) ==> CallerWaits(r, k);
    case _ =>
  }

  lemma OldStopsStay(inner: Tests.Scheduler)
    ensures Tests.Step(inner, Tests.CountStop).stops[..|inner.stops|] == inner.stops
  {}

  lemma {:induction false} EveryHistoryIsJoint(maxWorkers: nat, actions: seq<Action>)
    ensures Joint(History(maxWorkers, actions))
    decreases |actions|
  {
    hide Step, Joint;
    if actions == [] {
      assert Joint(Init(maxWorkers)) by { Inv.InitKeepsInv(maxWorkers); StartIsJoint(maxWorkers); }
    } else {
      EveryHistoryIsJoint(maxWorkers, actions[..|actions| - 1]);
      StepKeepsJoint(History(maxWorkers, actions[..|actions| - 1]), actions[|actions| - 1]);
    }
  }

  lemma StartIsJoint(maxWorkers: nat)
    requires Inv.Inv(Tests.Init(maxWorkers))
    ensures Joint(Init(maxWorkers))
  {}

  // ---------------------------------------------------------------- the flag during a suite schedule

  ghost predicate NoneResetting(s: Suites) {
    forall m :: 0 <= m < |s.stops| ==> !s.stops[m].Resetting?
  }

  /** The flag is up for every stop that has raised it and is not through the lock. */
  ghost predicate FlagStands(s: Suites) {
    NoneResetting(s) && forall m :: 0 <= m < |s.stops| && !s.stops[m].Done? ==> s.flag
  }

  /** The schedule that was on in `s` is still on in `r`. */
  predicate StillOn(s: Suites, r: Suites) {
    !s.loop.Idle? && !r.loop.Idle? && r.epoch == s.epoch
  }

  lemma OnStep(s: Suites, a: Action)
    requires !s.loop.Idle? && !Step(s, a).loop.Idle?
    ensures var r := Step(s, a);
            && r.epoch == s.epoch
            && (NoneResetting(s) ==> NoneResetting(r) && (s.flag ==> r.flag && r.rounds == s.rounds))
            && (FlagStands(s) ==> FlagStands(r))
  {
    hide Tests.Step;
  }

  lemma {:induction false} EpochsGrow(s: Suites, more: seq<Action>)
    ensures RunFrom(s, more).epoch >= s.epoch
    decreases |more|
  {
    hide Tests.Step;
    if more != [] {
      EpochsGrow(s, more[..|more| - 1]);
    }
  }

  /** A schedule that is still on was on all the time. */
  lemma WasOn(s: Suites, init: seq<Action>, last: Action)
    requires StillOn(s, Step(RunFrom(s, init), last))
    ensures StillOn(s, RunFrom(s, init))
  {
    hide Tests.Step;
    EpochsGrow(s, init);
  }

  /**
    Once the flag is up during a suite schedule, and no earlier stop is about to lower it, it stays up and
    no further round begins until that schedule ends.
   */
  lemma {:induction false} RaisedFlagEndsTheLoop(s: Suites, more: seq<Action>)
    requires NoneResetting(s) && s.flag && StillOn(s, RunFrom(s, more))
    ensures var r := RunFrom(s, more); NoneResetting(r) && r.flag && r.rounds == s.rounds
    decreases |more|
  {
    hide Step;
    if more != [] {
      var init, last := more[..|more| - 1], more[|more| - 1];
      WasOn(s, init, last);
      RaisedFlagEndsTheLoop(s, init);
      OnStep(RunFrom(s, init), last);
    }
  }

  lemma {:induction false} FlagStandsOn(s: Suites, more: seq<Action>)
    requires StillOn(s, RunFrom(s, more))
    ensures NoneResetting(s) ==> NoneResetting(RunFrom(s, more))
    ensures FlagStands(s) ==> FlagStands(RunFrom(s, more))
    decreases |more|
  {
    hide Step;
    if more != [] {
      var init, last := more[..|more| - 1], more[|more| - 1];
      WasOn(s, init, last);
      FlagStandsOn(s, init);
      OnStep(RunFrom(s, init), last);
    }
  }

  /** Whatever happens, the flag does not fall while the suite schedule started here is on. */
  ghost predicate FlagNeverFalls(s: Suites) {
    forall more: seq<Action>, a: Action ::
      var u := RunFrom(Step(s, Start), more);
      StillOn(Step(s, Start), u) && !Step(u, a).loop.Idle? && u.flag ==> Step(u, a).flag
  }

  /**
    The exact condition: a stop's flag stays up until the suite schedule it was raised in ends if and only
    if, when that schedule starts, no earlier stop stands between its lock and the reset of the flag.
   */
  lemma FlagKeepsEffectIff(s: Suites)
    requires s.loop.Idle?
    ensures FlagNeverFalls(s) <==> NoneResetting(s)
  {
    var s' := Step(s, Start);
    if NoneResetting(s) {
      hide Step;
      assert NoneResetting(s') by { StartLeavesStops(s); }
      forall more: seq<Action>, a: Action |
        StillOn(s', RunFrom(s', more)) && !Step(RunFrom(s', more), a).loop.Idle? && RunFrom(s', more).flag
        ensures Step(RunFrom(s', more), a).flag
      {
        FlagStandsOn(s', more);
        OnStep(RunFrom(s', more), a);
      }
    } else {
      var m :| 0 <= m < |s.stops| && s.stops[m].Resetting?;
      var u := RunFrom(s', [Raise]);
      assert [Raise][..0] == [];
      assert u == s'.(flag := true, stops := s'.stops + [Raised]);
      assert StopIs(u, m, Resetting) && !Step(u, Lower(m)).flag;
    }
  }

  lemma StartLeavesStops(s: Suites)
    ensures Step(s, Start).stops == s.stops && Step(s, Start).flag == s.flag
  {}

  /** The flag is never left behind: while it is up, some stop is under way that will lower it. */
  ghost predicate FlagIsHeld(s: Suites) {
    s.flag ==> exists m :: 0 <= m < |s.stops| && !s.stops[m].Done?
  }

  lemma StepKeepsFlagHeld(s: Suites, a: Action)
    requires FlagIsHeld(s)
    ensures FlagIsHeld(Step(s, a))
  {
    hide Tests.Step;
    var r := Step(s, a);
    if a.Raise? {
      assert r.stops[|s.stops|] == Raised;
    } else if r.flag {
      var m :| 0 <= m < |s.stops| && !s.stops[m].Done?;
      assert !r.stops[m].Done?;
    }
  }

  lemma {:induction false} EveryFlagIsHeld(maxWorkers: nat, actions: seq<Action>)
    ensures FlagIsHeld(History(maxWorkers, actions))
    decreases |actions|
  {
    hide Step;
    if actions != [] {
      EveryFlagIsHeld(maxWorkers, actions[..|actions| - 1]);
      StepKeepsFlagHeld(History(maxWorkers, actions[..|actions| - 1]), actions[|actions| - 1]);
    }
  }

  // ---------------------------------------------------------------- a round that is cut short

  /**
    In a suite schedule started with no stop under way, whenever a round runs while the test scheduler
    counts a stop, the flag is up: the loop sees the stop at its next look, and no further round begins.
   */
  lemma CutRoundIsSeen(maxWorkers: nat, before: seq<Action>, more: seq<Action>)
    requires var s := History(maxWorkers, before);
             s.loop.Idle? && forall m :: 0 <= m < |s.stops| ==> s.stops[m].Done?
    requires var s := History(maxWorkers, before);
             var u := RunFrom(Step(s, Start), more);
             StillOn(Step(s, Start), u) && u.loop.InRound? && u.inner.stopCount > 0
    ensures var u := RunFrom(Step(History(maxWorkers, before), Start), more);
            && u.flag
            && forall later: seq<Action> :: StillOn(u, RunFrom(u, later)) ==>
                 RunFrom(u, later).flag && RunFrom(u, later).rounds == u.rounds
  {
    hide Step, Joint;
    var s := History(maxWorkers, before);
    var s' := Step(s, Start);
    StartLeavesStops(s);
    assert FlagStands(s');
    FlagStandsOn(s', more);
    var u := RunFrom(s', more);
    HistoryGoesOn(maxWorkers, before, more);
    EveryHistoryIsJoint(maxWorkers, before + [Start] + more);
    CountedStopIsAStop(u);
    forall later: seq<Action> | StillOn(u, RunFrom(u, later))
      ensures RunFrom(u, later).flag && RunFrom(u, later).rounds == u.rounds
    {
      RaisedFlagEndsTheLoop(u, later);
    }
  }

  /** During a round, a counted stop of the test scheduler is one a suite stop waits for. */
  lemma CountedStopIsAStop(s: Suites)
    requires Joint(s) && s.loop.InRound? && s.inner.stopCount > 0 && FlagStands(s)
    ensures s.flag
  {
    var k := SomeOutstanding(s.inner.stops);
    assert CallerWaits(s, k);
  }

  lemma {:induction false} SomeOutstanding(stops: seq<Tests.Stop>) returns (k: nat)
    requires Inv.OutstandingCount(stops) > 0
    ensures k < |stops| && Inv.Outstanding(stops[k])
    decreases |stops|
  {
    if Inv.Outstanding(stops[|stops| - 1]) {
      k := |stops| - 1;
    } else {
      k := SomeOutstanding(stops[..|stops| - 1]);
    }
  }

  lemma {:induction false} RunsJoin(s: Suites, xs: seq<Action>, ys: seq<Action>)
    ensures RunFrom(s, xs + ys) == RunFrom(RunFrom(s, xs), ys)
    decreases |ys|
  {
    hide Step;
    if ys == [] {
      assert xs + ys == xs;
    } else {
      var init := ys[..|ys| - 1];
      RunsJoin(s, xs, init);
      assert (xs + ys)[..|xs + ys| - 1] == xs + init;
    }
  }

  lemma HistoryGoesOn(maxWorkers: nat, before: seq<Action>, more: seq<Action>)
    ensures RunFrom(Step(History(maxWorkers, before), Start), more) == History(maxWorkers, before + [Start] + more)
  {
    hide Step;
    assert [Start][..0] == [];
    RunsJoin(Init(maxWorkers), before, [Start]);
    RunsJoin(Init(maxWorkers), before + [Start], more);
  }

  // ---------------------------------------------------------------- a stop that is lost

  lemma Played(actions: seq<Action>, s: Suites, a: Action, next: Suites) returns (longer: seq<Action>, now: Suites)
    requires History(1, actions) == s && Step(s, a) == next
    ensures longer == actions + [a] && now == next && History(1, longer) == next
  {
    longer, now := actions + [a], next;
    assert longer[..|actions|] == actions;
  }

  lemma NothingPlayed()
    ensures History(1, []) == Init(1)
  {}

  /** The test scheduler with one stop in the given phase, a permit taken or not. */
  function OneStop(phase: Tests.StopPhase, available: nat, count: nat, stopped: bool): Tests.Scheduler {
    Tests.Init(1).(stopCount := count, stopped := stopped, sems := [Tests.Semaphore(1, available)],
                   stops := [Tests.Stop(phase, 0)])
  }

  lemma OneStopMoves(phase: Tests.StopPhase, next: Tests.StopPhase)
    ensures [Tests.Stop(phase, 0)][0 := Tests.Stop(next, 0)] == [Tests.Stop(next, 0)]
    ensures [Tests.Semaphore(1, 1)][0 := Tests.Semaphore(1, 0)] == [Tests.Semaphore(1, 0)]
    ensures [Tests.Semaphore(1, 0)][0 := Tests.Semaphore(1, 1)] == [Tests.Semaphore(1, 1)]
  {}

  lemma OneStopBegins()
    ensures Tests.Step(Tests.Init(1), Tests.CountStop) == OneStop(Tests.Reading, 1, 1, false)
    ensures Tests.Step(OneStop(Tests.Reading, 1, 1, false), Tests.OfStop(0, Tests.ReadSem))
         == OneStop(Tests.Waiting(0), 1, 1, false)
    ensures Tests.Step(OneStop(Tests.Waiting(0), 1, 1, false), Tests.OfStop(0, Tests.AcquireSem))
         == OneStop(Tests.Holding(0), 0, 1, false)
  {
    hide Tests.StepJob, Tests.StepSchedule, Tests.StepBegin;
    OneStopMoves(Tests.Reading, Tests.Waiting(0));
    OneStopMoves(Tests.Waiting(0), Tests.Holding(0));
  }

  lemma OneStopPasses()
    ensures Tests.Step(OneStop(Tests.Holding(0), 0, 1, false), Tests.OfStop(0, Tests.LetGo))
         == OneStop(Tests.Locking, 1, 1, false)
    ensures Tests.Step(OneStop(Tests.Locking, 1, 1, false), Tests.OfStop(0, Tests.Pass))
         == OneStop(Tests.Resetting, 1, 1, false)
  {
    hide Tests.StepJob, Tests.StepSchedule, Tests.StepBegin;
    OneStopMoves(Tests.Holding(0), Tests.Locking);
    OneStopMoves(Tests.Locking, Tests.Resetting);
  }

  lemma OneStopEnds()
    ensures Tests.Step(OneStop(Tests.Resetting, 1, 1, false), Tests.OfStop(0, Tests.Reset))
         == OneStop(Tests.Flagging, 1, 0, false)
    ensures Tests.Step(OneStop(Tests.Flagging, 1, 0, false), Tests.OfStop(0, Tests.RaiseFlag))
         == OneStop(Tests.Done, 1, 0, true)
  {
    hide Tests.StepJob, Tests.StepSchedule, Tests.StepBegin;
    OneStopMoves(Tests.Resetting, Tests.Flagging);
    OneStopMoves(Tests.Flagging, Tests.Done);
  }

  lemma InnerPlayed(actions: seq<Action>, s: Suites, step: Tests.Action, inner: Tests.Scheduler)
    returns (longer: seq<Action>, now: Suites)
    requires History(1, actions) == s && Tests.Step(s.inner, step) == inner && !step.Begin? && !step.CountStop?
    ensures longer == actions + [Within(step)] && now == s.(inner := inner) && History(1, longer) == now
  {
    hide Tests.Step, RunFrom, History;
    longer, now := Played(actions, s, Within(step), s.(inner := inner));
  }

  /** A suite stop has raised the flag and counted its stop of the test scheduler. */
  lemma FirstStopBegins() returns (actions: seq<Action>, s: Suites)
    ensures s == Suites(true, Idle, 0, 0, OneStop(Tests.Reading, 1, 1, false), [Inner(0)], [SuiteStop(0)])
    ensures History(1, actions) == s
  {
    OneStopBegins();
    NothingPlayed();
    NoStopsYet();
    hide RunFrom, History, Tests.Step, OneStop, Tests.Init;
    assert [Raised][0 := Inner(0)] == [Inner(0)];
    actions, s := Played([], Init(1), Raise, Init(1).(flag := true, stops := [Raised]));
    actions, s := Played(actions, s, CountInner(0),
                         s.(stops := [Inner(0)], callers := [SuiteStop(0)], inner := OneStop(Tests.Reading, 1, 1, false)));
  }

  /** Its stop of the test scheduler is over. */
  lemma FirstStopWaited() returns (actions: seq<Action>, s: Suites)
    ensures s == Suites(true, Idle, 0, 0, OneStop(Tests.Done, 1, 0, true), [Inner(0)], [SuiteStop(0)])
    ensures History(1, actions) == s
  {
    OneStopBegins();
    OneStopPasses();
    OneStopEnds();
    hide RunFrom, History, Step, Tests.Step, OneStop;
    actions, s := FirstStopBegins();
    actions, s := InnerPlayed(actions, s, Tests.OfStop(0, Tests.ReadSem), OneStop(Tests.Waiting(0), 1, 1, false));
    actions, s := InnerPlayed(actions, s, Tests.OfStop(0, Tests.AcquireSem), OneStop(Tests.Holding(0), 0, 1, false));
    actions, s := InnerPlayed(actions, s, Tests.OfStop(0, Tests.LetGo), OneStop(Tests.Locking, 1, 1, false));
    actions, s := InnerPlayed(actions, s, Tests.OfStop(0, Tests.Pass), OneStop(Tests.Resetting, 1, 1, false));
    actions, s := InnerPlayed(actions, s, Tests.OfStop(0, Tests.Reset), OneStop(Tests.Flagging, 1, 0, false));
    actions, s := InnerPlayed(actions, s, Tests.OfStop(0, Tests.RaiseFlag), OneStop(Tests.Done, 1, 0, true));
  }

  /** A suite stop on an idle scheduler gets through the schedule lock: the failing state is reached. */
  lemma FirstStopPasses() returns (actions: seq<Action>, s: Suites)
    ensures s == Suites(true, Idle, 0, 0, OneStop(Tests.Done, 1, 0, true), [Resetting], [SuiteStop(0)])
    ensures History(1, actions) == s && !NoneResetting(s)
  {
    hide RunFrom, History, Tests.Step, OneStop;
    actions, s := FirstStopWaited();
    assert [Inner(0)][0 := Locking] == [Locking] && [Locking][0 := Resetting] == [Resetting];
    assert InnerStopDone(s, 0) by { OneStopDone(); }
    actions, s := Played(actions, s, InnerDone(0), s.(stops := [Locking]));
    actions, s := Played(actions, s, Pass(0), s.(stops := [Resetting]));
    assert s.stops[0].Resetting?;
  }

  lemma NoStopsYet()
    ensures Tests.Init(1).stops == []
  {}

  lemma OneStopDone()
    ensures |OneStop(Tests.Done, 1, 0, true).stops| == 1 && OneStop(Tests.Done, 1, 0, true).stops[0].phase.Done?
  {}

  /**
    A suite stop can be lost: raised while an earlier one is about to reset the flag, it is still under
    way when the loop finds the flag down and begins a round.
   */
  lemma ASuiteStopCanBeLost(tests: seq<Tests.Test>) returns (actions: seq<Action>)
    ensures var s := History(1, actions);
            s.stops == [Done, Raised] && !s.flag && s.loop.InRound? && s.rounds == 1
  {
    var s;
    actions, s := FirstStopPasses();
    hide RunFrom, History, Tests.Step, OneStop;
    assert [Resetting, Raised][0 := Done] == [Done, Raised];
    actions, s := Played(actions, s, Start, s.(loop := AtHead, epoch := 1));
    actions, s := Played(actions, s, Raise, s.(stops := [Resetting, Raised]));
    actions, s := Played(actions, s, Lower(0), s.(flag := false, stops := [Done, Raised]));
    actions, s := Played(actions, s, Look(tests),
                         s.(loop := InRound, rounds := 1, inner := Tests.Step(s.inner, Tests.Begin(tests))));
  }
}
