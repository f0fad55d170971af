/** Suite schedules, their rounds and the stops of both schedulers never get stuck together. */
module SuiteProgress {
  import opened Results
  import opened ExecTest
  import opened SuiteHistory
  import Tests = TestScheduler
  import Inv = TestSchedulerInv
  import Props = TestSchedulerProperties
  import Suite = SuiteScheduler
  import Stops = SuiteStops
  import Progress = StopProgress

  lemma {:induction false} RunsJoin(s: Loop, xs: seq<Action>, ys: seq<Action>)
    ensures RunFrom(s, xs + ys) == RunFrom(RunFrom(s, xs), ys)
    decreases |ys|
  {
    hide Step;
    if ys == [] {
      assert xs + ys == xs;
    } else {
      var init := ys[..|ys| - 1];
      RunsJoin(s, xs, init);
      assert (xs + ys)[..|xs + ys| - 1] == xs + init;
    }
  }

  lemma OneStep(s: Loop, a: Action)
    ensures RunFrom(s, [a]) == Step(s, a)
  {
    hide Step;
    assert [a][..0] == [];
    assert RunFrom(s, []) == s;
  }

  // ---------------------------------------------------------------- the test scheduler within

  lemma {:induction false} WithinRuns(s: Loop, steps: seq<Tests.Action>) returns (actions: seq<Action>)
    requires forall k :: 0 <= k < |steps| ==> Progress.Internal(steps[k])
    ensures RunFrom(s, actions) == s.(u := s.u.(inner := Tests.RunFrom(s.u.inner, steps)))
    decreases |steps|
  {
    hide Tests.Step;
    if steps == [] {
      actions := [];
    } else {
      var n := |steps| - 1;
      var earlier := WithinRuns(s, steps[..n]);
      actions := earlier + [Outside(Stops.Within(steps[n]))];
      assert actions[..|actions| - 1] == earlier;
    }
  }

  /** The test scheduler can always come to rest: no schedule, and every stop of it over. */
  ghost predicate AtRest(inner: Tests.Scheduler) {
    inner.run.None? && forall k :: 0 <= k < |inner.stops| ==> inner.stops[k].phase.Done?
  }

  lemma ComesToRest(s: Loop) returns (actions: seq<Action>)
    requires Shape(s)
    ensures var r := RunFrom(s, actions);
            Shape(r) && r == s.(u := s.u.(inner := r.u.inner)) && AtRest(r.u.inner) && |r.u.inner.stops| == |s.u.inner.stops|
  {
    assert Inv.Inv(s.u.inner);
    var steps := Progress.EverythingCanEnd(s.u.inner);
    actions := WithinRuns(s, steps);
    RunKeepsShape(s, actions);
  }

  lemma {:induction false} RunKeepsShape(s: Loop, actions: seq<Action>)
    requires Shape(s)
    ensures Shape(RunFrom(s, actions))
    decreases |actions|
  {
    hide Step, Shape;
    if actions != [] {
      RunKeepsShape(s, actions[..|actions| - 1]);
      StepKeepsShape(RunFrom(s, actions[..|actions| - 1]), actions[|actions| - 1]);
    }
  }

  // ---------------------------------------------------------------- how far there is to go

  /** How far the suite schedule is from its end. */
  function LoopRank(s: Loop): nat {
    match s.u.loop
    case Idle => 0
    case AtHead => if s.ending.Some? then 1 else 4
    case Restarting(_) => 2
    case InRound => if s.u.inner.run.Some? then 3 else if s.timedOut then 2 else 5
  }

  function StopWeight(phase: Stops.StopPhase): nat {
    match phase
    case Raised => 4
    case Inner(_) => 3
    case Locking => 2
    case Resetting => 1
    case Done => 0
  }

  function StopsTotal(stops: seq<Stops.StopPhase>): nat {
    if stops == [] then 0 else StopsTotal(stops[..|stops| - 1]) + StopWeight(stops[|stops| - 1])
  }

  lemma {:induction false} StopsTotalUpdate(stops: seq<Stops.StopPhase>, m: nat, phase: Stops.StopPhase)
    requires m < |stops|
    ensures StopsTotal(stops[m := phase]) + StopWeight(stops[m]) == StopsTotal(stops) + StopWeight(phase)
    decreases |stops|
  {
    var n := |stops| - 1;
    if m == n {
      assert stops[m := phase][..n] == stops[..n];
    } else {
      StopsTotalUpdate(stops[..n], m, phase);
      assert stops[m := phase][..n] == stops[..n][m := phase];
    }
  }

  // ---------------------------------------------------------------- steps of the loop

  /** Closing a round leads back to the head of the loop. */
  lemma CloseLeads(s: Loop, turn: Suite.Turn)
    requires s.ending.None?
    ensures Close(s, turn).u == s.u && (turn.round.end.TimedOut? || (NeedsRestart(turn.round) && turn.restart.Some?) ==>
              Close(s, turn).ending.Some?)
  {
    hide Suite.NotDone, Suite.Names, Suite.FillIns;
  }

  lemma CollectLeads(s: Loop)
    requires Shape(s) && s.u.loop.InRound? && s.u.inner.run.None?
    ensures var r := Step(s, Collect);
            LoopRank(r) < LoopRank(s) && r.u.stops == s.u.stops
  {
    var u := Stops.Step(s.u, Stops.RoundOver);
    CloseLeads(s.(u := u), Suite.Turn(false, RoundOver(s), None));
    assert s.timedOut ==> RoundOver(s).end.TimedOut?;
    hide Close, RoundOver, Tests.Step, Stops.Joint;
  }

  lemma RestartedLeads(s: Loop)
    requires Shape(s) && RoundFits(s) && s.u.loop.Restarting? && AtRest(s.u.inner)
    ensures var r := Step(s, Restarted(Some(OtherError(""))));
            LoopRank(r) < LoopRank(s) && r.u.stops == s.u.stops
  {
    var turn := Suite.Turn(false, s.pending.value, Some(OtherError("")));
    var u := Stops.Step(s.u, Stops.Restarted);
    assert Stops.InnerStopDone(s.u, s.u.loop.k) by { RestartIsKnown(s); }
    CloseLeads(s.(u := u), turn);
    hide Close, RoundOver, Tests.Step, Stops.Joint, Suite.LegalRound;
  }

  /** The stop that a restart waits for is one of the test scheduler. */
  lemma RestartIsKnown(s: Loop)
    requires Shape(s) && s.u.loop.Restarting? && AtRest(s.u.inner)
    ensures Stops.InnerStopDone(s.u, s.u.loop.k)
  {}

  lemma HeadLeads(s: Loop)
    requires Shape(s) && s.u.loop.AtHead? && s.ending.None?
    ensures var r := Step(s, Look);
            LoopRank(r) < LoopRank(s) && r.u.stops == s.u.stops
  {
    if s.left != [] && !s.u.flag {
      HeadIsFree(s.u);
      hide Stops.Joint;
      BeginBegins(s.u.inner, s.left);
    }
    hide Tests.Step, Stops.Joint;
  }

  lemma HeadIsFree(u: Stops.Suites)
    requires Stops.Joint(u) && u.loop.AtHead?
    ensures u.inner.run.None?
  {}

  // ---------------------------------------------------------------- to the end

  ghost predicate Sane(s: Loop) {
    Shape(s) && RoundFits(s) && Stops.FlagIsHeld(s.u)
  }

  lemma StepStaysSane(s: Loop, a: Action)
    requires Sane(s)
    ensures Sane(Step(s, a))
  {
    StepKeepsShape(s, a);
    StepKeepsFit(s, a);
    FlagStaysHeld(s, a);
    hide Step, Shape, RoundFits, Stops.FlagIsHeld;
  }

  lemma FlagStaysHeld(s: Loop, a: Action)
    requires Stops.FlagIsHeld(s.u)
    ensures Stops.FlagIsHeld(Step(s, a).u)
  {
    hide Stops.FlagIsHeld, Stops.Step, Suite.NotDone, Suite.Names, RoundOver;
    forall act ensures Stops.FlagIsHeld(Stops.Step(s.u, act)) {
      Stops.StepKeepsFlagHeld(s.u, act);
    }
  }

  lemma {:induction false} RunStaysSane(s: Loop, actions: seq<Action>)
    requires Sane(s)
    ensures Sane(RunFrom(s, actions))
    decreases |actions|
  {
    hide Step, Sane;
    if actions != [] {
      RunStaysSane(s, actions[..|actions| - 1]);
      StepStaysSane(RunFrom(s, actions[..|actions| - 1]), actions[|actions| - 1]);
    }
  }

  /** The next step of a suite schedule, once the stop it may be waiting for is over. */
  lemma LoopStep(s: Loop) returns (a: Action)
    requires Shape(s) && RoundFits(s) && !s.u.loop.Idle? && (s.u.loop.Restarting? ==> AtRest(s.u.inner))
    ensures var r := Step(s, a);
            LoopRank(r) < LoopRank(s) && r.u.stops == s.u.stops
  {
    hide AtRest, RoundFits;
    match s.u.loop
    case Restarting(_) =>
      a := Restarted(Some(OtherError("")));
      assert RoundFits(s);
      RestartedLeads(s);
    case AtHead =>
      if s.ending.None? {
        a := Look;
        HeadLeads(s);
      } else {
        a := Finish;
      }
    case InRound =>
      if s.u.inner.run.None? {
        a := Collect;
        CollectLeads(s);
      } else {
        a := TimeOut;
        DropLeads(s);
      }
  }

  lemma DropLeads(s: Loop)
    requires Shape(s) && s.u.loop.InRound? && s.u.inner.run.Some?
    ensures LoopRank(Step(s, TimeOut)) < LoopRank(s) && Step(s, TimeOut).u.stops == s.u.stops
  {
    assert Inv.Inv(s.u.inner);
    DropEnds(s.u.inner);
    hide Stops.Joint, Inv.Inv, Tests.Step;
  }

  /** From wherever a suite schedule has come, it can end. */
  lemma {:induction false} LoopCanEnd(s: Loop) returns (more: seq<Action>)
    requires Sane(s)
    ensures var r := RunFrom(s, more); Sane(r) && r.u.loop.Idle? && r.u.stops == s.u.stops
    decreases LoopRank(s)
  {
    if s.u.loop.Idle? {
      more := [];
    } else {
      var drain := [];
      if s.u.loop.Restarting? {
        drain := ComesToRest(s);
      }
      var rested := RunFrom(s, drain);
      RunStaysSane(s, drain);
      var a := LoopStep(rested);
      StepStaysSane(rested, a);
      OneStep(rested, a);
      RunsJoin(s, drain, [a]);
      hide Sane, Step, LoopRank;
      var later := LoopCanEnd(RunFrom(s, drain + [a]));
      more := drain + [a] + later;
      RunsJoin(s, drain + [a], later);
    }
  }

  /** The next step of a stop, once no suite schedule is on and the test scheduler is at rest. */
  lemma StopStep(s: Loop, m: nat) returns (a: Action)
    requires Shape(s) && s.u.loop.Idle? && AtRest(s.u.inner) && m < |s.u.stops| && !s.u.stops[m].Done?
    ensures var r := Step(s, a);
            r.u.loop.Idle? && StopsTotal(r.u.stops) < StopsTotal(s.u.stops)
  {
    match s.u.stops[m] {
      case Raised => a := Outside(Stops.CountInner(m));
      case Inner(k) =>
        assert Stops.InnerStopDone(s.u, k);
        a := Outside(Stops.InnerDone(m));
      case Locking => a := Outside(Stops.Pass(m));
      case Resetting => a := Outside(Stops.Lower(m));
    }
    hide Tests.Step, Inv.Inv;
    var r := Step(s, a);
    assert r.u.stops == s.u.stops[m := r.u.stops[m]];
    StopsTotalUpdate(s.u.stops, m, r.u.stops[m]);
  }

  lemma {:induction false} AllDone(stops: seq<Stops.StopPhase>)
    requires forall m :: 0 <= m < |stops| ==> stops[m].Done?
    ensures StopsTotal(stops) == 0
    decreases |stops|
  {
    if stops != [] {
      AllDone(stops[..|stops| - 1]);
    }
  }

  lemma {:induction false} StopsCanEnd(s: Loop) returns (more: seq<Action>)
    requires Sane(s) && s.u.loop.Idle?
    ensures var r := RunFrom(s, more);
            Sane(r) && r.u.loop.Idle? && AtRest(r.u.inner) && forall m :: 0 <= m < |r.u.stops| ==> r.u.stops[m].Done?
    decreases StopsTotal(s.u.stops)
  {
    var drain := ComesToRest(s);
    var rested := RunFrom(s, drain);
    RunStaysSane(s, drain);
    if m: nat :| m < |rested.u.stops| && !rested.u.stops[m].Done? {
      var a := StopStep(rested, m);
      StepStaysSane(rested, a);
      OneStep(rested, a);
      RunsJoin(s, drain, [a]);
      hide Sane, Step;
      var later := StopsCanEnd(RunFrom(s, drain + [a]));
      more := drain + [a] + later;
      RunsJoin(s, drain + [a], later);
    } else {
      more := drain;
    }
  }

  lemma EveryHistoryIsSane(maxWorkers: nat, actions: seq<Action>)
    ensures Sane(History(maxWorkers, actions))
  {
    hide Sane;
    InitIsSane(maxWorkers);
    RunStaysSane(Init(maxWorkers), actions);
  }

  lemma InitIsSane(maxWorkers: nat)
    ensures Sane(Init(maxWorkers))
  {
    InitKeepsLoopInv(maxWorkers);
    hide Shape, RoundFits, Followed, Counted;
  }

  /**
    There is no deadlock between suite schedules, their rounds, restarts and the stops of both schedulers:
    whatever has happened, some actions lead to where no schedule is on, every stop of either scheduler
    has returned, and the flag is down for whoever schedules next.
   */
  lemma EverythingCanEnd(maxWorkers: nat, actions: seq<Action>) returns (more: seq<Action>)
    ensures var r := History(maxWorkers, actions + more);
            && r.u.loop.Idle? && r.u.inner.run.None? && !r.u.flag
            && (forall m :: 0 <= m < |r.u.stops| ==> r.u.stops[m].Done?)
            && (forall k :: 0 <= k < |r.u.inner.stops| ==> r.u.inner.stops[k].phase.Done?)
  {
    EveryHistoryIsSane(maxWorkers, actions);
    var s := History(maxWorkers, actions);
    var first := LoopCanEnd(s);
    var last := StopsCanEnd(RunFrom(s, first));
    more := first + last;
    RunsJoin(s, first, last);
    RunsJoin(Init(maxWorkers), actions, more);
  }
}
