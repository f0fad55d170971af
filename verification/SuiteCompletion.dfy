/** A suite schedule that nobody was stopping when it began: its turns are well-run, stops or no stops. */
module SuiteCompletion {
  import opened Results
  import opened ExecTest
  import opened SuiteHistory
  import Tests = TestScheduler
  import Inv = TestSchedulerInv
  import Props = TestSchedulerProperties
  import Outcome = ScheduleOutcome
  import Suite = SuiteScheduler
  import Rounds = SuiteRounds
  import Stops = SuiteStops

  // ---------------------------------------------------------------- one round

  predicate NoneResetting(stops: seq<Tests.Stop>) {
    forall k :: 0 <= k < |stops| ==> !stops[k].phase.Resetting?
  }

  ghost predicate Begun(maxWorkers: nat, inner: Tests.Scheduler, left: seq<Tests.Test>, flag: bool,
                        before: seq<Tests.Action>, more: seq<Tests.Action>) {
    var s := Tests.History(maxWorkers, before);
    && s.run.None? && left != [] && Inv.OutstandingCount(s.stops) == 0
    && inner == Outcome.After(maxWorkers, before, left, more)
    && inner.epoch == s.epoch + 1 && Rounds.Tame(more)
    && (|inner.stops| == |s.stops| || (flag && inner.stopCount > 0))
  }

  /** A schedule of what is left on tame answers; if a stop was counted since it began, the flag is up. */
  ghost predicate Underway(maxWorkers: nat, inner: Tests.Scheduler, left: seq<Tests.Test>, flag: bool) {
    && NoneResetting(inner.stops)
    && exists before: seq<Tests.Action>, more: seq<Tests.Action> :: Begun(maxWorkers, inner, left, flag, before, more)
  }

  /** The round made progress, or was cut short by a stop and the flag is up. */
  ghost predicate Excused(left: seq<Tests.Test>, round: Suite.Round, flag: bool) {
    Suite.Productive(left, round) || (round.end == Suite.Returned(None) && flag)
  }

  lemma {:induction false} NothingOutstanding(stops: seq<Tests.Stop>)
    requires forall k :: 0 <= k < |stops| ==> stops[k].phase.Done?
    ensures Inv.OutstandingCount(stops) == 0
    decreases |stops|
  {
    if stops != [] {
      NothingOutstanding(stops[..|stops| - 1]);
    }
  }

  /** The loop begins a round only when every stop of either scheduler is over. */
  lemma AllStopsOver(u: Stops.Suites)
    requires Stops.Joint(u) && Stops.FlagStands(u) && u.loop.AtHead? && !u.flag
    ensures u.inner.run.None? && forall k :: 0 <= k < |u.inner.stops| ==> u.inner.stops[k].phase.Done?
  {
    forall k | 0 <= k < |u.inner.stops| ensures u.inner.stops[k].phase.Done? {
      assert !Stops.CallerWaits(u, k);
    }
  }

  ghost predicate Reachable(maxWorkers: nat, inner: Tests.Scheduler) {
    exists actions: seq<Tests.Action> :: inner == Tests.History(maxWorkers, actions)
  }

  lemma ReachableStep(maxWorkers: nat, inner: Tests.Scheduler, a: Tests.Action)
    requires Reachable(maxWorkers, inner)
    ensures Reachable(maxWorkers, Tests.Step(inner, a))
  {
    hide Tests.Step;
    var actions: seq<Tests.Action> :| inner == Tests.History(maxWorkers, actions);
    assert (actions + [a])[..|actions|] == actions;
    assert Tests.Step(inner, a) == Tests.History(maxWorkers, actions + [a]);
  }

  lemma RoundBegins(maxWorkers: nat, u: Stops.Suites, left: seq<Tests.Test>)
    requires Stops.Joint(u) && Stops.FlagStands(u) && u.loop.AtHead? && !u.flag && left != []
    requires Reachable(maxWorkers, u.inner)
    ensures Underway(maxWorkers, Tests.Step(u.inner, Tests.Begin(left)), left, false)
  {
    AllStopsOver(u);
    NothingOutstanding(u.inner.stops);
    hide Stops.Joint, Stops.FlagStands, Inv.Inv;
    var before: seq<Tests.Action> :| u.inner == Tests.History(maxWorkers, before);
    hide Tests.History;
    assert Outcome.After(maxWorkers, before, left, []) == Tests.StepBegin(u.inner, left);
    assert Begun(maxWorkers, Tests.StepBegin(u.inner, left), left, false, before, []);
  }

  lemma BegunStep(maxWorkers: nat, inner: Tests.Scheduler, left: seq<Tests.Test>, flag: bool, flag': bool,
                  before: seq<Tests.Action>, more: seq<Tests.Action>, a: Tests.Action)
    requires Begun(maxWorkers, inner, left, flag, before, more) && (flag ==> flag') && Rounds.Tame([a])
    requires var r := Tests.Step(inner, a);
             r.epoch == inner.epoch && ((|r.stops| == |inner.stops| && r.stopCount >= inner.stopCount) || (flag' && r.stopCount > 0))
    ensures Begun(maxWorkers, Tests.Step(inner, a), left, flag', before, more + [a])
  {
    hide Tests.Step, Tests.StepBegin, Tests.History;
    assert (more + [a])[..|more|] == more;
    TameMore(more, a);
  }

  lemma TameMore(more: seq<Tests.Action>, a: Tests.Action)
    requires Rounds.Tame(more) && Rounds.Tame([a])
    ensures Rounds.Tame(more + [a])
  {
    var all := more + [a];
    forall k | 0 <= k < |all| && all[k].OfTest?
      ensures match all[k].act
              case Conclude(answers) => Rounds.TameAnswers(answers)
              case Judge(verdict) => Rounds.TameVerdict(verdict)
              case _ => true
    {
      if k == |more| {
        assert [a][0] == all[k];
      }
    }
  }

  /** While a schedule runs, no stop gets past the lock, and the counter does not go down. */
  lemma CountHolds(inner: Tests.Scheduler, a: Tests.Action)
    requires inner.run.Some? && NoneResetting(inner.stops) && !a.Begin?
    ensures var r := Tests.Step(inner, a);
            NoneResetting(r.stops) && r.stopCount >= inner.stopCount && r.epoch == inner.epoch
    ensures a.CountStop? ==> Tests.Step(inner, a).stopCount > 0
  {
    hide Tests.StepJob, Tests.StepSchedule;
    match a
    case OfTest(i, act) => if Tests.CanFinish(inner, i) { Props.JobLeavesStops(inner, i, act); }
    case OfStop(k, step) =>
    case CountStop =>
    case _ => Props.ScheduleLeavesStops(inner, a);
  }

  lemma UnderwayStep(maxWorkers: nat, inner: Tests.Scheduler, left: seq<Tests.Test>, flag: bool, a: Tests.Action)
    requires Underway(maxWorkers, inner, left, flag) && inner.run.Some? && !a.Begin?
    requires Rounds.Tame([a]) && (a.CountStop? ==> flag)
    ensures Underway(maxWorkers, Tests.Step(inner, a), left, flag)
  {
    CountHolds(inner, a);
    Stops.InnerStops(inner, a);
    hide Tests.Step, Begun, NoneResetting;
    var before: seq<Tests.Action>, more: seq<Tests.Action> :| Begun(maxWorkers, inner, left, flag, before, more);
    BegunStep(maxWorkers, inner, left, flag, flag, before, more, a);
  }

  lemma UnderwayRaised(maxWorkers: nat, inner: Tests.Scheduler, left: seq<Tests.Test>, flag: bool, flag': bool)
    requires Underway(maxWorkers, inner, left, flag) && (flag ==> flag')
    ensures Underway(maxWorkers, inner, left, flag')
  {
    hide NoneResetting, Outcome.After, Rounds.Tame;
    var before: seq<Tests.Action>, more: seq<Tests.Action> :| Begun(maxWorkers, inner, left, flag, before, more);
    assert Begun(maxWorkers, inner, left, flag', before, more);
  }

  /** The schedule returns: its round made progress, or a stop was counted and swallowed its error. */
  lemma RoundIsExcused(maxWorkers: nat, inner: Tests.Scheduler, left: seq<Tests.Test>, flag: bool)
    requires Underway(maxWorkers, inner, left, flag) && Props.Returning(inner)
    ensures Excused(left, Rounds.RoundOf(inner), flag)
  {
    hide NoneResetting, Outcome.After, Rounds.Tame, Suite.Productive;
    var before: seq<Tests.Action>, more: seq<Tests.Action> :| Begun(maxWorkers, inner, left, flag, before, more);
    hide Tests.History;
    if |inner.stops| == |Tests.History(maxWorkers, before).stops| {
      assert Outcome.Unstopped(maxWorkers, before, left, more) by { IsAfter(maxWorkers, before, left, more); }
      Rounds.UnstoppedRoundIsProductive(maxWorkers, before, left, more);
    }
  }

  lemma IsAfter(maxWorkers: nat, before: seq<Tests.Action>, left: seq<Tests.Test>, more: seq<Tests.Action>)
    ensures Outcome.After(maxWorkers, before, left, more)
         == Tests.RunFrom(Tests.StepBegin(Tests.History(maxWorkers, before), left), more)
  {}

  // ---------------------------------------------------------------- the whole loop

  /** At the head of the loop with something left and the flag up, the next turn is the last. */
  predicate Stopping(s: Loop) {
    s.u.loop.AtHead? && s.u.flag && s.left != []
  }

  ghost predicate RoundCalm(s: Loop, maxWorkers: nat) {
    && (s.u.loop.InRound? && s.u.inner.run.Some? ==> Underway(maxWorkers, s.u.inner, s.left, s.u.flag))
    && (s.u.loop.InRound? && s.u.inner.run.None? ==> Excused(s.left, RoundOver(s), s.u.flag))
    && (s.pending.Some? ==> Suite.Productive(s.left, s.pending.value))
  }

  /** The turns so far are well-run, and whatever well-run turns follow, they are together. */
  ghost predicate Forward(s: Loop) {
    if s.ending.Some? then Suite.WellRun(s.suite, s.suite, [], s.script)
    else
      forall rest: seq<Suite.Turn> ::
        (Stopping(s) ==> rest != [] && rest[0].stop) && Suite.WellRun(s.suite, s.left, s.results, rest) ==>
        Suite.WellRun(s.suite, s.suite, [], s.script + rest)
  }

  function RoundsOf(script: seq<Suite.Turn>): nat {
    if script != [] && script[|script| - 1].stop then |script| - 1 else |script|
  }

  ghost predicate FewRounds(s: Loop) {
    Suite.DistinctTests(s.suite) ==>
      && RoundsOf(s.script) <= |s.suite|
      && (s.ending.None? ==> RoundsOf(s.script) == |s.script|)
      && (s.ending.None? && !Stopping(s) ==> |s.script| + |s.left| <= |s.suite|)
  }

  ghost predicate Calm(s: Loop, maxWorkers: nat) {
    && Reachable(maxWorkers, s.u.inner)
    && (!s.u.loop.Idle? ==> Stops.FlagStands(s.u))
    && RoundCalm(s, maxWorkers) && Forward(s) && FewRounds(s)
  }

  /** The action keeps to tame answers, and does not start another suite schedule. */
  ghost predicate Fair(a: Action) {
    !a.Start? && (a.Outside? && a.a.Within? ==> Rounds.Tame([a.a.a]))
  }

  lemma StepStaysReachable(s: Loop, a: Action, maxWorkers: nat)
    requires Reachable(maxWorkers, s.u.inner)
    ensures Reachable(maxWorkers, Step(s, a).u.inner)
  {
    hide Tests.Step, Reachable, Suite.NotDone, Suite.Names, Rounds.ResultsOf;
    ReachableStep(maxWorkers, s.u.inner, Tests.CountStop);
    ReachableStep(maxWorkers, s.u.inner, Tests.Begin(s.left));
    ReachableStep(maxWorkers, s.u.inner, Tests.Drop);
    match a
    case Outside(act) =>
      if act.Within? { ReachableStep(maxWorkers, s.u.inner, act.a); }
    case _ =>
  }

  lemma StepKeepsFlag(s: Loop, a: Action)
    requires Shape(s) && (!s.u.loop.Idle? ==> Stops.FlagStands(s.u)) && !a.Start?
    ensures !Step(s, a).u.loop.Idle? ==> Stops.FlagStands(Step(s, a).u) && (s.u.flag ==> Step(s, a).u.flag)
    ensures s.u.loop.Idle? ==> Step(s, a).u.loop.Idle?
  {
    hide Stops.Joint, Suite.NotDone, Suite.Names, Rounds.ResultsOf, Tests.Step;
    match a
    case Outside(act) => if IsOutside(act) { OutsideLeavesLoop(s.u, act); OnStep(s.u, act); }
    case _ =>
  }

  lemma OnStep(u: Stops.Suites, a: Stops.Action)
    ensures !u.loop.Idle? && !Stops.Step(u, a).loop.Idle? && Stops.FlagStands(u) ==>
              Stops.FlagStands(Stops.Step(u, a)) && (u.flag ==> Stops.Step(u, a).flag)
  {
    if !u.loop.Idle? && !Stops.Step(u, a).loop.Idle? {
      Stops.OnStep(u, a);
    }
  }

  lemma OutsideKeepsCalm(s: Loop, a: Stops.Action, maxWorkers: nat)
    requires Shape(s) && RoundFits(s) && RoundCalm(s, maxWorkers) && s.u.loop.InRound? && Stops.FlagStands(s.u)
    requires IsOutside(a) && Fair(Outside(a))
    requires var r := s.(u := Stops.Step(s.u, a)); r.u.loop.InRound? && (s.u.flag ==> r.u.flag)
    ensures RoundCalm(s.(u := Stops.Step(s.u, a)), maxWorkers)
  {
    var r := s.(u := Stops.Step(s.u, a));
    hide Stops.Joint, Suite.LegalRound, Suite.NotDone, Suite.Names, Suite.Productive, Rounds.ResultsOf, Tests.Step, Underway, Tests.StepEnd;
    match a
    case Within(step) =>
      if !step.Begin? && !step.CountStop? {
        InnerKeeps(s.u.inner, step);
        if s.u.inner.run.Some? {
          if r.u.inner.run.Some? {
            UnderwayStep(maxWorkers, s.u.inner, s.left, s.u.flag, step);
          } else {
            RoundIsExcused(maxWorkers, s.u.inner, s.left, s.u.flag);
            RoundOverIs(s, r);
          }
        }
      }
    case CountInner(m) =>
      InnerKeeps(s.u.inner, Tests.CountStop);
      if Stops.StopIs(s.u, m, Stops.Raised) && s.u.inner.run.Some? {
        StillCounting(s.u.inner);
        UnderwayStep(maxWorkers, s.u.inner, s.left, s.u.flag, Tests.CountStop);
      }
    case Raise =>
      if s.u.inner.run.Some? { UnderwayRaised(maxWorkers, s.u.inner, s.left, s.u.flag, r.u.flag); }
    case _ =>
      if s.u.inner.run.Some? { UnderwayRaised(maxWorkers, s.u.inner, s.left, s.u.flag, r.u.flag); }
  }

  lemma StillCounting(inner: Tests.Scheduler)
    ensures Tests.Step(inner, Tests.CountStop).run == inner.run && Rounds.Tame([Tests.CountStop])
  {}

  lemma RoundOverIs(s: Loop, r: Loop)
    requires Props.Returning(s.u.inner) && r.u.inner == Tests.StepEnd(s.u.inner) && !r.timedOut
    ensures RoundOver(r) == Rounds.RoundOf(s.u.inner)
  {}

  lemma CloseLeaves(s: Loop, turn: Suite.Turn)
    requires s.ending.None?
    ensures var r := Close(s, turn);
            && r.u == s.u && r.suite == s.suite && r.pending.None? && r.script == s.script + [turn]
            && (r.ending.None? <==> Suite.Continues(turn))
            && (r.ending.None? ==>
                  r.results == s.results + turn.round.results && r.left == Suite.NotDone(s.suite, Suite.Names(r.results)))
  {
    hide Suite.NotDone, Suite.Names, Suite.FillIns;
  }

  lemma CollectKeepsCalm(s: Loop, maxWorkers: nat)
    requires s.u.loop.InRound? && s.u.inner.run.None? && RoundCalm(s, maxWorkers) && s.ending.None? && s.pending.None?
    ensures RoundCalm(CollectRound(s), maxWorkers)
  {
    RestartIsProductive(s);
    CloseLeaves(s.(u := Stops.Step(s.u, Stops.RoundOver)), Suite.Turn(false, RoundOver(s), None));
    hide Close, RoundOver, Suite.Productive, Underway, Tests.Step;
  }

  lemma RestartKeepsCalm(s: Loop, error: Option<KirkError>, maxWorkers: nat)
    requires s.u.loop.Restarting? && s.pending.Some? && RoundCalm(s, maxWorkers) && s.ending.None?
    ensures RoundCalm(Step(s, Restarted(error)), maxWorkers)
  {
    CloseLeaves(s.(u := Stops.Step(s.u, Stops.Restarted)), Suite.Turn(false, s.pending.value, error));
    hide Close, RoundOver, Suite.Productive, Underway, Tests.Step;
  }

  lemma LookKeepsCalm(s: Loop, maxWorkers: nat)
    requires LoopInv(s) && Stops.FlagStands(s.u) && Reachable(maxWorkers, s.u.inner) && RoundCalm(s, maxWorkers)
    requires s.u.loop.AtHead? && s.ending.None?
    ensures RoundCalm(LookAhead(s), maxWorkers)
  {
    hide Suite.Productive, Rounds.ResultsOf, RoundFits, Followed, Counted, Tests.Step, Underway;
    if s.left != [] && !s.u.flag {
      RoundBegins(maxWorkers, s.u, s.left);
      AllStopsOver(s.u);
      hide Stops.Joint, Stops.FlagStands, Reachable;
      BeginBegins(s.u.inner, s.left);
    }
  }

  lemma TimeOutKeepsCalm(s: Loop, maxWorkers: nat)
    requires Shape(s) && s.u.loop.InRound? && s.u.inner.run.Some?
    ensures RoundCalm(Step(s, TimeOut), maxWorkers)
  {
    TimedOutIsProductive(s.left, Step(s, TimeOut));
    JointInner(s.u);
    DropEnds(s.u.inner);
    hide Suite.Productive, RoundOver, Tests.Step, Underway, Stops.Joint;
  }

  lemma StepKeepsRoundCalm(s: Loop, a: Action, maxWorkers: nat)
    requires LoopInv(s) && Calm(s, maxWorkers) && Fair(a)
    ensures RoundCalm(Step(s, a), maxWorkers)
  {
    StepKeepsFlag(s, a);
    hide Stops.Joint, Stops.FlagStands, Reachable, Forward, FewRounds, RoundFits, Suite.NotDone, Suite.Names,
         RoundCalm, RoundOver, Close, CollectRound, LookAhead, Stops.Step, Followed, Counted, Rounds.Tame;
    match a
    case Look => if s.u.loop.AtHead? && s.ending.None? { LookKeepsCalm(s, maxWorkers); }
    case TimeOut => if s.u.loop.InRound? && s.u.inner.run.Some? { TimeOutKeepsCalm(s, maxWorkers); }
    case Outside(act) =>
      if IsOutside(act) {
        OutsideLeavesLoop(s.u, act);
        if s.u.loop.InRound? { OutsideKeepsCalm(s, act, maxWorkers); } else { NoRoundCalm(s, Step(s, a), maxWorkers); }
      }
    case Collect => if s.u.loop.InRound? && s.u.inner.run.None? { CollectKeepsCalm(s, maxWorkers); }
    case Restarted(error) => if s.u.loop.Restarting? { RestartKeepsCalm(s, error, maxWorkers); }
    case NextSuite(suite) => if Step(s, a) != s { NoRoundCalm(s, Step(s, a), maxWorkers); }
    case Finish => if Step(s, a) != s { FinishLeavesRound(s); NoRoundCalm(s, Step(s, a), maxWorkers); }
    case Start(_) =>
  }

  lemma NoRoundCalm(s: Loop, r: Loop, maxWorkers: nat)
    requires RoundCalm(s, maxWorkers) && !r.u.loop.InRound?
    requires r.pending.None? || (r.pending == s.pending && r.left == s.left)
    ensures RoundCalm(r, maxWorkers)
  {
    hide RoundOver, Suite.Productive, Underway;
  }

  lemma FinishLeavesRound(s: Loop)
    requires s.u.loop.AtHead? && s.ending.Some?
    ensures Step(s, Finish).u.loop.Idle? && Step(s, Finish) == s.(u := Step(s, Finish).u)
  {}

  lemma JointInner(u: Stops.Suites)
    requires Stops.Joint(u)
    ensures Inv.Inv(u.inner)
  {}

  lemma TimedOutIsProductive(left: seq<Tests.Test>, r: Loop)
    requires r.timedOut
    ensures Suite.Productive(left, RoundOver(r))
  {}

  lemma RestartIsProductive(s: Loop)
    ensures Excused(s.left, RoundOver(s), s.u.flag) && NeedsRestart(RoundOver(s)) ==> Suite.Productive(s.left, RoundOver(s))
  {}

  // ---------------------------------------------------------------- turns

  lemma TurnIsWellRun(suite: seq<Tests.Test>, left: seq<Tests.Test>, results: seq<Suite.TestResult>,
                      turn: Suite.Turn, rest: seq<Suite.Turn>)
    requires Suite.LegalRound(left, turn.round) && Excused(left, turn.round, rest != [] && rest[0].stop)
    requires Suite.Continues(turn) ==>
               var collected := results + turn.round.results;
               Suite.WellRun(suite, Suite.NotDone(suite, Suite.Names(collected)), collected, rest)
    ensures Suite.WellRun(suite, left, results, [turn] + rest)
  {
    hide Suite.LegalRound, Suite.NotDone, Suite.Names, Suite.Productive;
    var all := [turn] + rest;
    assert all[0] == turn && all[1..] == rest;
  }

  /** A round that made no progress leaves something. */
  lemma UnproductiveLeavesSome(suite: seq<Tests.Test>, left: seq<Tests.Test>, results: seq<Suite.TestResult>, round: Suite.Round)
    requires left == Suite.NotDone(suite, Suite.Names(results)) && round.end == Suite.Returned(None)
    requires !Suite.Productive(left, round)
    ensures Suite.NotDone(suite, Suite.Names(results + round.results)) != []
  {
    var t :| t in left && t.name !in Suite.Names(round.results);
    var collected := results + round.results;
    forall q | q in collected ensures q.test.name != t.name {
      assert q in results || q in round.results;
    }
    assert t in Suite.NotDone(suite, Suite.Names(collected));
  }

  /** The loop takes its turn: a round has come back that made progress or was cut short by a stop. */
  ghost predicate TakesTurn(s: Loop, turn: Suite.Turn, r: Loop) {
    && s.ending.None? && s.left != [] && !Stopping(s) && !turn.stop
    && Suite.LegalRound(s.left, turn.round) && s.left == Suite.NotDone(s.suite, Suite.Names(s.results))
    && r == Close(s.(u := r.u), turn) && r.u.loop.AtHead? && Excused(s.left, turn.round, r.u.flag)
  }

  lemma ForwardMore(s: Loop, turn: Suite.Turn, r: Loop, rest: seq<Suite.Turn>)
    requires Forward(s) && TakesTurn(s, turn, r)
    requires Excused(s.left, turn.round, rest != [] && rest[0].stop)
    requires Suite.Continues(turn) ==>
               var collected := s.results + turn.round.results;
               Suite.WellRun(s.suite, Suite.NotDone(s.suite, Suite.Names(collected)), collected, rest)
    ensures Suite.WellRun(s.suite, s.suite, [], (s.script + [turn]) + rest)
  {
    hide Close, Suite.LegalRound, Suite.NotDone, Suite.Names, Suite.Productive, Suite.WellRun, Suite.Continues;
    TurnIsWellRun(s.suite, s.left, s.results, turn, rest);
    assert (s.script + [turn]) + rest == s.script + ([turn] + rest);
  }

  lemma ForwardByTurn(s: Loop, turn: Suite.Turn, r: Loop)
    requires Forward(s) && TakesTurn(s, turn, r)
    ensures Forward(r)
  {
    CloseLeaves(s.(u := r.u), turn);
    if turn.round.end == Suite.Returned(None) && !Suite.Productive(s.left, turn.round) {
      UnproductiveLeavesSome(s.suite, s.left, s.results, turn.round);
    }
    hide Close, Suite.LegalRound, Suite.NotDone, Suite.Names, Suite.Productive, Suite.WellRun;
    if r.ending.Some? {
      EndsExcused(s.left, turn, r.u.flag);
      ForwardMore(s, turn, r, []);
      assert r.script + [] == r.script;
    } else {
      assert !Stopping(r) ==> Suite.Productive(s.left, turn.round);
      assert r.suite == s.suite && r.script == s.script + [turn];
      forall rest: seq<Suite.Turn> |
        (Stopping(r) ==> rest != [] && rest[0].stop) && Suite.WellRun(r.suite, r.left, r.results, rest)
        ensures Suite.WellRun(r.suite, r.suite, [], r.script + rest)
      {
        ForwardMore(s, turn, r, rest);
      }
    }
  }

  lemma EndsExcused(left: seq<Tests.Test>, turn: Suite.Turn, flag: bool)
    requires Excused(left, turn.round, flag) && !Suite.Continues(turn)
    ensures Suite.Productive(left, turn.round)
  {}

  lemma ProductiveShrinks(suite: seq<Tests.Test>, left: seq<Tests.Test>, results: seq<Suite.TestResult>, turn: Suite.Turn)
    requires Suite.Books(suite, left, results) && left != [] && Suite.LegalRound(left, turn.round)
    requires Suite.Productive(left, turn.round) && Suite.Continues(turn)
    ensures |Suite.NotDone(suite, Suite.Names(results + turn.round.results))| < |left|
  {
    Suite.RoundKeepsBooks(suite, left, results, turn.round);
    if turn.round.end == Suite.Returned(None) {
      Suite.EverythingRecorded(suite, results, turn.round);
    }
  }

  lemma FewRoundsByTurn(s: Loop, turn: Suite.Turn, r: Loop)
    requires FewRounds(s) && TakesTurn(s, turn, r)
    requires Suite.DistinctTests(s.suite) ==> Suite.Books(s.suite, s.left, s.results)
    ensures FewRounds(r)
  {
    CloseLeaves(s.(u := r.u), turn);
    if Suite.DistinctTests(s.suite) && Suite.Continues(turn) {
      if Suite.Productive(s.left, turn.round) {
        ProductiveShrinks(s.suite, s.left, s.results, turn);
      } else {
        UnproductiveLeavesSome(s.suite, s.left, s.results, turn.round);
      }
    }
    hide Close, Suite.LegalRound, Suite.NotDone, Suite.Names, Suite.Productive, Suite.Books, Suite.DistinctTests;
  }

  lemma StepTakesTurn(s: Loop, a: Action, maxWorkers: nat)
    requires LoopInv(s) && Calm(s, maxWorkers) && Step(s, a) != s
    requires a.Restarted? || (a.Collect? && !NeedsRestart(RoundOver(s)))
    ensures exists turn :: TakesTurn(s, turn, Step(s, a))
  {
    hide Stops.Joint, Stops.FlagStands, Reachable, Forward, FewRounds, Suite.LegalRound, Suite.NotDone, Suite.Names,
         Suite.Productive, RoundOver, Tests.Step, Underway, Followed, Counted;
    var r := Step(s, a);
    var turn := if a.Restarted? then Suite.Turn(false, s.pending.value, a.error) else Suite.Turn(false, RoundOver(s), None);
    CloseLeaves(s.(u := r.u), turn);
    if a.Collect? {
      CloseLeaves(s.(u := Stops.Step(s.u, Stops.RoundOver)), turn);
    } else {
      CloseLeaves(s.(u := Stops.Step(s.u, Stops.Restarted)), turn);
    }
    assert TakesTurn(s, turn, r);
  }

  /** The head of the loop ends it: nothing is left, or the flag is up. */
  lemma LookIsForward(s: Loop)
    requires Forward(s) && FewRounds(s) && s.ending.None? && s.u.loop.AtHead? && (s.left == [] || s.u.flag)
    requires Suite.DistinctTests(s.suite) ==> Suite.Books(s.suite, s.left, s.results)
    ensures Forward(LookAhead(s)) && FewRounds(LookAhead(s))
  {
    hide Suite.NotDone, Suite.Names;
    if s.left == [] {
      assert s.script + [] == s.script;
    } else {
      assert Suite.WellRun(s.suite, s.left, s.results, [STOP_TURN]);
    }
  }

  lemma EnteredIsCalm(s: Loop, u: Stops.Suites, suite: seq<Tests.Test>)
    requires u.loop.AtHead?
    ensures Forward(Entered(s, u, suite)) && FewRounds(Entered(s, u, suite))
  {
    hide Suite.WellRun;
    assert forall rest: seq<Suite.Turn> :: [] + rest == rest;
  }

  /** Nothing but the flag and the place in the loop has changed, and the flag has not fallen at its head. */
  lemma SameScript(s: Loop, r: Loop)
    requires Forward(s) && FewRounds(s) && (s.ending.None? && Stopping(s) ==> Stopping(r))
    requires r == s.(u := r.u, timedOut := r.timedOut, pending := r.pending)
    ensures Forward(r) && FewRounds(r)
  {
    hide Suite.WellRun, Suite.DistinctTests;
  }

  lemma StepKeepsForward(s: Loop, a: Action, maxWorkers: nat)
    requires LoopInv(s) && Calm(s, maxWorkers) && Fair(a)
    ensures Forward(Step(s, a)) && FewRounds(Step(s, a))
  {
    StepKeepsFlag(s, a);
    var r := Step(s, a);
    if r != s && (a.Restarted? || (a.Collect? && !NeedsRestart(RoundOver(s)))) {
      StepTakesTurn(s, a, maxWorkers);
      var turn :| TakesTurn(s, turn, r);
      hide Step, Calm, LoopInv;
      assert Forward(s) && FewRounds(s) && Counted(s) by { CalmParts(s, maxWorkers); }
      ForwardByTurn(s, turn, r);
      FewRoundsByTurn(s, turn, r);
    } else {
      hide Stops.Joint, Stops.FlagStands, Reachable, Forward, FewRounds, RoundCalm, RoundFits, Suite.NotDone, Suite.Names,
           RoundOver, Close, Tests.Step, Followed;
      match a
      case NextSuite(suite) => if r != s { EnteredIsCalm(s, r.u, suite); }
      case Look =>
        if r != s && (s.left == [] || s.u.flag) { LookIsForward(s); } else { SameScript(s, r); }
      case Outside(act) =>
        if IsOutside(act) { OutsideLeavesLoop(s.u, act); }
        SameScript(s, r);
      case _ => SameScript(s, r);
    }
  }

  lemma CalmParts(s: Loop, maxWorkers: nat)
    requires LoopInv(s) && Calm(s, maxWorkers)
    ensures Forward(s) && FewRounds(s) && Counted(s)
  {}

  lemma StepKeepsCalm(s: Loop, a: Action, maxWorkers: nat)
    requires LoopInv(s) && Calm(s, maxWorkers) && Fair(a)
    ensures Calm(Step(s, a), maxWorkers)
  {
    StepStaysReachable(s, a, maxWorkers);
    StepKeepsFlag(s, a);
    StepKeepsRoundCalm(s, a, maxWorkers);
    StepKeepsForward(s, a, maxWorkers);
    hide Step, Shape, RoundFits, Followed, Counted, Reachable, RoundCalm, Forward, FewRounds;
  }

  // ---------------------------------------------------------------- every suite schedule begun in peace

  /** No suite schedule is on and every stop is over. */
  ghost predicate Peaceful(s: Loop) {
    s.u.loop.Idle? && forall m :: 0 <= m < |s.u.stops| ==> s.u.stops[m].Done?
  }

  lemma {:induction false} EveryHistoryIsReachable(maxWorkers: nat, actions: seq<Action>)
    ensures Reachable(maxWorkers, History(maxWorkers, actions).u.inner)
    decreases |actions|
  {
    hide Step;
    if actions == [] {
      assert Tests.History(maxWorkers, []) == History(maxWorkers, []).u.inner;
    } else {
      EveryHistoryIsReachable(maxWorkers, actions[..|actions| - 1]);
      StepStaysReachable(History(maxWorkers, actions[..|actions| - 1]), actions[|actions| - 1], maxWorkers);
    }
  }

  lemma StartIsCalm(maxWorkers: nat, s: Loop, suite: seq<Tests.Test>)
    requires Peaceful(s) && Reachable(maxWorkers, s.u.inner)
    ensures Calm(Step(s, Start(suite)), maxWorkers)
  {
    Stops.StartLeavesStops(s.u);
    EnteredIsCalm(s, Stops.Step(s.u, Stops.Start), suite);
    hide Forward, FewRounds, Reachable;
  }

  /** The state `more` leads to from the start of a suite schedule. */
  function Later(maxWorkers: nat, before: seq<Action>, suite: seq<Tests.Test>, more: seq<Action>): Loop {
    RunFrom(Step(History(maxWorkers, before), Start(suite)), more)
  }

  lemma {:induction false} EveryScheduleIsCalm(maxWorkers: nat, before: seq<Action>, suite: seq<Tests.Test>, more: seq<Action>)
    requires Peaceful(History(maxWorkers, before)) && forall k :: 0 <= k < |more| ==> Fair(more[k])
    ensures LoopInv(Later(maxWorkers, before, suite, more)) && Calm(Later(maxWorkers, before, suite, more), maxWorkers)
    decreases |more|
  {
    hide LoopInv, Calm, Fair, Step, History;
    if more == [] {
      EveryHistoryKeepsLoopInv(maxWorkers, before);
      EveryHistoryIsReachable(maxWorkers, before);
      StepKeepsLoopInv(History(maxWorkers, before), Start(suite));
      StartIsCalm(maxWorkers, History(maxWorkers, before), suite);
    } else {
      var init := more[..|more| - 1];
      EveryScheduleIsCalm(maxWorkers, before, suite, init);
      StepKeepsLoopInv(Later(maxWorkers, before, suite, init), more[|more| - 1]);
      StepKeepsCalm(Later(maxWorkers, before, suite, init), more[|more| - 1], maxWorkers);
    }
  }

  lemma {:induction false} RestartsAreRounds(suite: seq<Tests.Test>, left: seq<Tests.Test>, results: seq<Suite.TestResult>,
                                             script: seq<Suite.Turn>)
    ensures Suite.DriveFrom(suite, left, results, script).restarts <= RoundsOf(script)
    decreases |script|
  {
    hide Suite.NotDone, Suite.Names, Suite.FillIns;
    if left != [] && script != [] && !script[0].stop {
      var collected := results + script[0].round.results;
      RestartsAreRounds(suite, Suite.NotDone(suite, Suite.Names(collected)), collected, script[1..]);
    }
  }

  /**
    Both schedulers and the stops of both together. In every suite schedule that begins with no stop under
    way, on tame answers, in every interleaving of rounds, stops raised at any moment, restarts and
    timeouts: the turns of every suite that is over are well-run, a round that was cut short included;
    the loop has come to what its specification says of them; and with distinct names it never takes more
    rounds than the suite has tests, nor restarts the target more often, and unless it was stopped or
    failed ends with exactly one result for each test.
   */
  lemma {:induction false} EveryScheduleIsWellRun(maxWorkers: nat, before: seq<Action>, suite: seq<Tests.Test>, more: seq<Action>)
    requires Peaceful(History(maxWorkers, before)) && forall k :: 0 <= k < |more| ==> Fair(more[k])
    ensures var s := Later(maxWorkers, before, suite, more);
            && (Suite.DistinctTests(s.suite) ==> RoundsOf(s.script) <= |s.suite|)
            && (s.ending.Some? ==>
                  && Suite.WellRun(s.suite, s.suite, [], s.script)
                  && Suite.DriveFrom(s.suite, s.suite, [], s.script) == Suite.Drive(s.results, s.restarts, s.ending.value)
                  && s.restarts <= RoundsOf(s.script)
                  && (Suite.DistinctTests(s.suite) && (s.ending.value.AllDone? || s.ending.value.SuiteTimedOut?) ==>
                        Suite.Complete(s.suite, s.results)))
  {
    EveryScheduleIsCalm(maxWorkers, before, suite, more);
    hide Later, History, Fair, Shape, RoundFits, RoundCalm, Reachable, Suite.WellRun, Suite.DriveFrom, Suite.Complete,
         Suite.DistinctTests, Stops.FlagStands, RoundsOf;
    var s := Later(maxWorkers, before, suite, more);
    RestartsAreRounds(s.suite, s.suite, [], s.script);
  }

  /**
    In such a schedule, every round that the loop is about to collect, or restarts the target for, made
    progress, or came back without an error while the flag is up: the loop takes no further round.
   */
  lemma EveryRoundIsExcused(maxWorkers: nat, before: seq<Action>, suite: seq<Tests.Test>, more: seq<Action>)
    requires Peaceful(History(maxWorkers, before)) && forall k :: 0 <= k < |more| ==> Fair(more[k])
    ensures var s := Later(maxWorkers, before, suite, more);
            && (s.u.loop.InRound? && s.u.inner.run.None? ==>
                  Suite.LegalRound(s.left, RoundOver(s)) && Excused(s.left, RoundOver(s), s.u.flag))
            && (s.pending.Some? ==> Suite.LegalRound(s.left, s.pending.value) && Suite.Productive(s.left, s.pending.value))
  {
    hide Later, History, Fair, Shape, Excused, Suite.LegalRound, Suite.Productive, RoundOver, Underway, Stops.FlagStands;
    EveryScheduleIsCalm(maxWorkers, before, suite, more);
  }
}
