/**
  A suite schedule from end to end: the suite loop, its rounds as schedules of the test scheduler, the
  suite timeout, restarts and any number of stops, in every interleaving.
 */
module SuiteHistory {
  import opened Results
  import opened ExecTest
  import Tests = TestScheduler
  import Inv = TestSchedulerInv
  import Props = TestSchedulerProperties
  import Outcome = ScheduleOutcome
  import Suite = SuiteScheduler
  import Rounds = SuiteRounds
  import Stops = SuiteStops

  /**
    `script` holds the turns taken since this suite's loop was entered; `pending` is the round whose kernel
    error the target is being restarted for; `ending` is set once the loop over this suite is left.
   */
  datatype Loop = Loop(
    u: Stops.Suites, suite: seq<Tests.Test>, left: seq<Tests.Test>, results: seq<Suite.TestResult>,
    script: seq<Suite.Turn>, restarts: nat, pending: Option<Suite.Round>, timedOut: bool,
    ending: Option<Suite.Ending>)

  datatype Action =
    | Start(suite: seq<Tests.Test>)                   // the suite schedule begins with its first suite
    | NextSuite(suite: seq<Tests.Test>)
    | Look                                            // the head of the loop
    | TimeOut                                         // the suite timeout drops the round
    | Collect                                         // the round is over
    | Restarted(error: Option<KirkError>)
    | Finish
    | Outside(a: Stops.Action)                        // a step of the test scheduler, or of a stop

  // ---------------------------------------------------------------- steps

  function Init(maxWorkers: nat): Loop {
    Loop(Stops.Init(maxWorkers), [], [], [], [], 0, None, false, Some(Suite.AllDone))
  }

  function Entered(s: Loop, u: Stops.Suites, suite: seq<Tests.Test>): Loop {
    Loop(u, suite, suite, [], [], 0, None, false, None)
  }

  /** What the loop gets from the schedule that is over. */
  function RoundOver(s: Loop): Suite.Round {
    var returned := s.u.inner.returned;
    Suite.Round(Rounds.ResultsOf(s.u.inner.records),
                if s.timedOut then Suite.TimedOut else Suite.Returned(if returned.Some? then returned.value else None))
  }

  predicate NeedsRestart(round: Suite.Round) {
    round.end.Returned? && round.end.error.Some? && IsKernelError(round.end.error.value)
  }

  /** The rest of a turn once the round is over, and the target restarted if need be. */
  function Close(s: Loop, turn: Suite.Turn): Loop {
    var collected := s.results + turn.round.results;
    var left := Suite.NotDone(s.suite, Suite.Names(collected));
    var closed := s.(script := s.script + [turn], results := collected, pending := None);
    match turn.round.end
    case TimedOut => closed.(results := collected + Suite.FillIns(left), ending := Some(Suite.SuiteTimedOut))
    case Returned(None) => closed.(left := left)
    case Returned(Some(e)) =>
      if !IsKernelError(e) then closed.(ending := Some(Suite.Raised(e)))
      else if turn.restart.Some?
      then closed.(restarts := s.restarts + 1, ending := Some(Suite.Raised(turn.restart.value)))
      else closed.(restarts := s.restarts + 1, left := left)
  }

  const STOP_TURN := Suite.Turn(true, Suite.Round([], Suite.Returned(None)), None)

  function LookAhead(s: Loop): Loop {
    if s.left == [] then s.(ending := Some(Suite.AllDone))
    else if s.u.flag then s.(script := s.script + [STOP_TURN], ending := Some(Suite.StopSeen))
    else s.(u := Stops.Step(s.u, Stops.Look(s.left)), timedOut := false)
  }

  function CollectRound(s: Loop): Loop {
    var round := RoundOver(s);
    if NeedsRestart(round) then s.(u := Stops.Step(s.u, Stops.RestartTarget), pending := Some(round))
    else Close(s.(u := Stops.Step(s.u, Stops.RoundOver)), Suite.Turn(false, round, None))
  }

  predicate IsOutside(a: Stops.Action) {
    a.Raise? || a.CountInner? || a.InnerDone? || a.Pass? || a.Lower? || (a.Within? && !a.a.Drop?)
  }

  /** An action that is not enabled changes nothing. */
  function Step(s: Loop, a: Action): Loop {
    match a
    case Start(suite) => if s.u.loop.Idle? then Entered(s, Stops.Step(s.u, Stops.Start), suite) else s
    case NextSuite(suite) =>
      if s.u.loop.AtHead? && s.ending.Some? && !s.ending.value.Raised? then Entered(s, s.u, suite) else s
    case Look => if s.u.loop.AtHead? && s.ending.None? then LookAhead(s) else s
    case TimeOut =>
      if s.u.loop.InRound? && s.u.inner.run.Some?
      then s.(u := Stops.Step(s.u, Stops.Within(Tests.Drop)), timedOut := true) else s
    case Collect => if s.u.loop.InRound? && s.u.inner.run.None? then CollectRound(s) else s
    case Restarted(error) =>
      if s.u.loop.Restarting? && Stops.InnerStopDone(s.u, s.u.loop.k) && s.pending.Some?
      then Close(s.(u := Stops.Step(s.u, Stops.Restarted)), Suite.Turn(false, s.pending.value, error)) else s
    case Finish =>
      if s.u.loop.AtHead? && s.ending.Some? then s.(u := Stops.Step(s.u, Stops.Finish)) else s
    case Outside(act) => if IsOutside(act) then s.(u := Stops.Step(s.u, act)) else s
  }

  function RunFrom(s: Loop, actions: seq<Action>): Loop
    decreases |actions|
  {
    if actions == [] then s else Step(RunFrom(s, actions[..|actions| - 1]), actions[|actions| - 1])
  }

  function History(maxWorkers: nat, actions: seq<Action>): Loop {
    RunFrom(Init(maxWorkers), actions)
  }

  // ---------------------------------------------------------------- what holds whatever is stopped

  ghost predicate Shape(s: Loop) {
    && Stops.Joint(s.u)
    && (s.ending.Some? ==> s.u.loop.Idle? || s.u.loop.AtHead?)
    && (s.u.loop.Idle? ==> s.ending.Some?)
    && (s.pending.Some? <==> s.u.loop.Restarting?)
  }

  /** The round under way is given what is left, and what comes of it is legal. */
  ghost predicate RoundFits(s: Loop) {
    && (s.ending.None? ==> s.left == Suite.NotDone(s.suite, Suite.Names(s.results)))
    && (s.u.loop.InRound? ==>
          && s.left != []
          && (if s.u.inner.run.Some? then s.u.inner.run.value.tests == s.left && !s.timedOut
              else Suite.LegalRound(s.left, RoundOver(s))))
    && (s.pending.Some? ==>
          s.left != [] && Suite.LegalRound(s.left, s.pending.value) && NeedsRestart(s.pending.value))
  }

  /** What the specification of the loop makes of the turns so far is what the loop has come to. */
  ghost predicate Followed(s: Loop) {
    if s.ending.Some? then
      Suite.DriveFrom(s.suite, s.suite, [], s.script) == Suite.Drive(s.results, s.restarts, s.ending.value)
    else
      forall rest: seq<Suite.Turn> ::
        Suite.DriveFrom(s.suite, s.suite, [], s.script + rest)
        == var d := Suite.DriveFrom(s.suite, s.left, s.results, rest); d.(restarts := d.restarts + s.restarts)
  }

  ghost predicate Counted(s: Loop) {
    Suite.DistinctTests(s.suite) ==>
      && (s.ending.None? ==> Suite.Books(s.suite, s.left, s.results))
      && (s.ending == Some(Suite.AllDone) || s.ending == Some(Suite.SuiteTimedOut) ==> Suite.Complete(s.suite, s.results))
  }

  ghost predicate LoopInv(s: Loop) {
    Shape(s) && RoundFits(s) && Followed(s) && Counted(s)
  }

  /** A step of the test scheduler other than a begin and a drop. */
  lemma InnerKeeps(inner: Tests.Scheduler, a: Tests.Action)
    requires !a.Begin? && !a.Drop?
    ensures var r := Tests.Step(inner, a);
            && (inner.run.None? ==> r.run.None? && r.records == inner.records && r.returned == inner.returned)
            && (inner.run.Some? && r.run.Some? ==> r.run.value.tests == inner.run.value.tests)
            && (inner.run.Some? && r.run.None? ==> a.End? && Props.Returning(inner) && r == Tests.StepEnd(inner))
  {
    if inner.run.Some? && Tests.Step(inner, a).run.Some? {
      Props.TestsStayStep(inner, a);
    }
    hide Tests.AllJoined, Tests.IsNext, Tests.AnyParallel, Tests.AnySequential, Tests.NoneUnspawned,
         Tests.Held, Tests.Give, Tests.Take, ExecTest.Outcome;
  }

  lemma RecordsFit(inner: Tests.Scheduler)
    requires Inv.Inv(inner) && inner.run.Some?
    ensures Inv.RecordInv(inner.records, inner.run.value)
  {}

  lemma OutsideKeepsFit(s: Loop, a: Stops.Action)
    requires Shape(s) && RoundFits(s) && IsOutside(a)
    ensures RoundFits(s.(u := Stops.Step(s.u, a)))
  {
    var r := s.(u := Stops.Step(s.u, a));
    hide Tests.Step, Suite.LegalRound, Suite.NotDone, Suite.Names, Rounds.ResultsOf, Inv.Inv, Stops.CallerWaits;
    if a.Within? {
      if !a.a.Begin? {
        InnerKeeps(s.u.inner, a.a);
      }
      if s.u.inner.run.Some? && r.u.inner.run.None? {
        RecordsFit(s.u.inner);
        Rounds.RecordsAreLegal(s.u.inner.records, s.u.inner.run.value, RoundOver(r).end);
      }
    } else if a.CountInner? {
      InnerKeeps(s.u.inner, Tests.CountStop);
    }
  }

  lemma OutsideLeavesLoop(u: Stops.Suites, a: Stops.Action)
    requires IsOutside(a)
    ensures Stops.Step(u, a).loop == u.loop
  {
    hide Tests.Step;
  }

  lemma DropEnds(inner: Tests.Scheduler)
    requires Inv.Inv(inner) && inner.run.Some?
    ensures Tests.Step(inner, Tests.Drop).run.None? && Tests.Step(inner, Tests.Drop).records == inner.records
  {
    hide Tests.Held, Tests.Give;
  }

  lemma BeginBegins(inner: Tests.Scheduler, tests: seq<Tests.Test>)
    requires inner.run.None? && tests != []
    ensures Tests.Step(inner, Tests.Begin(tests)) == Tests.StepBegin(inner, tests)
    ensures Tests.StepBegin(inner, tests).run.Some? && Tests.StepBegin(inner, tests).run.value.tests == tests
  {}

  lemma StepKeepsShape(s: Loop, a: Action)
    requires Shape(s)
    ensures Shape(Step(s, a))
  {
    hide Stops.Joint, Tests.Step, Suite.NotDone, Suite.Names, Rounds.ResultsOf;
    match a
    case Start(suite) => Stops.StepKeepsJoint(s.u, Stops.Start);
    case NextSuite(suite) =>
    case Look => Stops.StepKeepsJoint(s.u, Stops.Look(s.left));
    case TimeOut => Stops.StepKeepsJoint(s.u, Stops.Within(Tests.Drop));
    case Collect =>
      Stops.StepKeepsJoint(s.u, Stops.RestartTarget);
      Stops.StepKeepsJoint(s.u, Stops.RoundOver);
    case Restarted(error) => Stops.StepKeepsJoint(s.u, Stops.Restarted);
    case Finish => Stops.StepKeepsJoint(s.u, Stops.Finish);
    case Outside(act) =>
      Stops.StepKeepsJoint(s.u, act);
      if IsOutside(act) { OutsideLeavesLoop(s.u, act); }
  }

  lemma StepKeepsFit(s: Loop, a: Action)
    requires Shape(s) && RoundFits(s)
    ensures RoundFits(Step(s, a))
  {
    hide Tests.Step, Tests.StepBegin, Suite.LegalRound, Suite.NotDone, Suite.Names, Rounds.ResultsOf, Inv.Inv, Stops.CallerWaits;
    match a
    case Start(suite) => Suite.NothingDoneYet(suite);
    case NextSuite(suite) => Suite.NothingDoneYet(suite);
    case Look =>
      if s.u.loop.AtHead? && s.ending.None? && s.left != [] && !s.u.flag {
        BeginBegins(s.u.inner, s.left);
      }
    case TimeOut =>
      if s.u.loop.InRound? && s.u.inner.run.Some? {
        DropEnds(s.u.inner);
        RecordsFit(s.u.inner);
        Rounds.RecordsAreLegal(s.u.inner.records, s.u.inner.run.value, Suite.TimedOut);
      }
    case Outside(act) => if IsOutside(act) { OutsideKeepsFit(s, act); }
    case _ =>
  }

  // ---------------------------------------------------------------- the loop's specification is followed

  lemma FollowedByTurn(s: Loop, turn: Suite.Turn, r: Loop)
    requires Followed(s) && s.ending.None? && s.left != []
    requires r.suite == s.suite && r.script == s.script + [turn]
    requires if turn.stop then r == s.(script := r.script, ending := Some(Suite.StopSeen))
             else exists u, p :: r == Close(s.(u := u, pending := p), turn)
    ensures Followed(r)
  {
    hide Suite.NotDone, Suite.Names, Suite.FillIns;
    if r.ending.Some? {
      assert s.script + [turn] == r.script;
    } else {
      forall rest: seq<Suite.Turn>
        ensures Suite.DriveFrom(r.suite, r.suite, [], r.script + rest)
             == var d := Suite.DriveFrom(r.suite, r.left, r.results, rest); d.(restarts := d.restarts + r.restarts)
      {
        assert r.script + rest == s.script + ([turn] + rest);
        assert ([turn] + rest)[1..] == rest;
      }
    }
  }

  lemma StepKeepsFollowed(s: Loop, a: Action)
    requires Shape(s) && RoundFits(s) && Followed(s)
    ensures Followed(Step(s, a))
  {
    hide Stops.Step, Stops.Joint, Suite.NotDone, Suite.Names, Suite.LegalRound, Rounds.ResultsOf, Suite.FillIns;
    var r := Step(s, a);
    match a
    case Start(suite) => if s.u.loop.Idle? { EnteredIsFollowed(s, r.u, suite); }
    case NextSuite(suite) => if r != s { EnteredIsFollowed(s, r.u, suite); }
    case Look =>
      if s.u.loop.AtHead? && s.ending.None? {
        if s.left == [] {
          assert s.script + [] == s.script;
        } else if s.u.flag {
          FollowedByTurn(s, STOP_TURN, r);
        }
      }
    case Collect =>
      if s.u.loop.InRound? && s.u.inner.run.None? && !NeedsRestart(RoundOver(s)) {
        var turn := Suite.Turn(false, RoundOver(s), None);
        assert r == Close(s.(u := Stops.Step(s.u, Stops.RoundOver), pending := s.pending), turn);
        FollowedByTurn(s, turn, r);
      }
    case Restarted(error) =>
      if r != s {
        var turn := Suite.Turn(false, s.pending.value, error);
        assert r == Close(s.(u := Stops.Step(s.u, Stops.Restarted), pending := s.pending), turn);
        FollowedByTurn(s, turn, r);
      }
    case _ =>
  }

  lemma EnteredIsFollowed(s: Loop, u: Stops.Suites, suite: seq<Tests.Test>)
    ensures Followed(Entered(s, u, suite))
  {
    hide Suite.DriveFrom;
    assert forall rest: seq<Suite.Turn> :: [] + rest == rest;
  }

  // ---------------------------------------------------------------- the books are kept

  lemma CountedByTurn(s: Loop, turn: Suite.Turn)
    requires Counted(s) && s.ending.None? && Suite.LegalRound(s.left, turn.round)
    ensures Counted(Close(s, turn))
  {
    hide Suite.NotDone, Suite.Names, Suite.FillIns, Suite.LegalRound, Suite.Complete;
    if Suite.DistinctTests(s.suite) {
      Suite.RoundKeepsBooks(s.suite, s.left, s.results, turn.round);
      var collected := s.results + turn.round.results;
      Suite.FillInsComplete(s.suite, Suite.NotDone(s.suite, Suite.Names(collected)), collected);
    }
  }

  lemma StepKeepsCounted(s: Loop, a: Action)
    requires Shape(s) && RoundFits(s) && Counted(s)
    ensures Counted(Step(s, a))
  {
    hide Stops.Step, Stops.Joint, Suite.NotDone, Suite.Names, Suite.LegalRound, Rounds.ResultsOf, Suite.FillIns, Suite.Complete;
    match a
    case Start(suite) => Suite.NothingDoneYet(suite);
    case NextSuite(suite) => Suite.NothingDoneYet(suite);
    case Look =>
      if s.u.loop.AtHead? && s.ending.None? && s.left == [] && Suite.DistinctTests(s.suite) {
        Suite.NothingLeftIsComplete(s.suite, s.results);
      }
    case Collect =>
      if s.u.loop.InRound? && s.u.inner.run.None? && !NeedsRestart(RoundOver(s)) {
        CountedByTurn(s.(u := Stops.Step(s.u, Stops.RoundOver)), Suite.Turn(false, RoundOver(s), None));
      }
    case Restarted(error) =>
      if Step(s, a) != s {
        CountedByTurn(s.(u := Stops.Step(s.u, Stops.Restarted)), Suite.Turn(false, s.pending.value, error));
      }
    case _ =>
  }

  lemma StepKeepsLoopInv(s: Loop, a: Action)
    requires LoopInv(s)
    ensures LoopInv(Step(s, a))
  {
    hide Step, Shape, RoundFits, Followed, Counted;
    StepKeepsShape(s, a);
    StepKeepsFit(s, a);
    StepKeepsFollowed(s, a);
    StepKeepsCounted(s, a);
  }

  lemma {:induction false} EveryHistoryKeepsLoopInv(maxWorkers: nat, actions: seq<Action>)
    ensures LoopInv(History(maxWorkers, actions))
    decreases |actions|
  {
    hide Step, LoopInv;
    if actions == [] {
      InitKeepsLoopInv(maxWorkers);
    } else {
      EveryHistoryKeepsLoopInv(maxWorkers, actions[..|actions| - 1]);
      StepKeepsLoopInv(History(maxWorkers, actions[..|actions| - 1]), actions[|actions| - 1]);
    }
  }

  lemma InitKeepsLoopInv(maxWorkers: nat)
    ensures LoopInv(Init(maxWorkers))
  {
    Inv.InitKeepsInv(maxWorkers);
    Stops.StartIsJoint(maxWorkers);
  }

  /**
    In every interleaving of rounds, stops, restarts and timeouts, on any answers and after any earlier
    schedules: a suite that is over has come to what the loop's specification says of its turns, and
    unless it was stopped or failed, with distinct names, to exactly one result for each test.
   */
  lemma EveryHistoryFollows(maxWorkers: nat, actions: seq<Action>)
    requires History(maxWorkers, actions).ending.Some?
    ensures var s := History(maxWorkers, actions);
            && Suite.DriveFrom(s.suite, s.suite, [], s.script) == Suite.Drive(s.results, s.restarts, s.ending.value)
            && (Suite.DistinctTests(s.suite) && (s.ending.value.AllDone? || s.ending.value.SuiteTimedOut?) ==>
                  Suite.Complete(s.suite, s.results))
  {
    hide History, Shape, RoundFits, Suite.Complete, Suite.DriveFrom;
    EveryHistoryKeepsLoopInv(maxWorkers, actions);
  }
}
