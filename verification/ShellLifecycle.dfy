/**
  The shell channel's children: commands that spawn, register, stream and reap them, and stops that
  kill them, in every interleaving. A pid is never reused.
 */
module ShellLifecycle {
  import opened Results

  type Pid = nat

  // ---------------------------------------------------------------- the locked state

  function Retained(pids: seq<Pid>, pid: Pid): (kept: seq<Pid>)
    ensures forall p :: p in kept <==> p in pids && p != pid
  {
    if pids == [] then []
    else Retained(pids[..|pids| - 1], pid) + (if pids[|pids| - 1] == pid then [] else [pids[|pids| - 1]])
  }

  /** The activity flag and the tracked children, always changed together under one lock. */
  class LifecycleState {
    var active: bool
    var pids: seq<Pid>

    ghost predicate Valid()
      reads this
    {
      !active ==> pids == []
    }

    constructor ()
      ensures Valid() && !active
    {
      active, pids := false, [];
    }

    method Communicate() returns (started: bool)
      requires Valid()
      modifies this
      ensures Valid() && active && started == !old(active) && pids == old(pids)
    {
      if active {
        return false;
      }
      active := true;
      return true;
    }

    method TryRegister(pid: Pid) returns (tracked: bool)
      requires Valid()
      modifies this
      ensures Valid() && active == old(active) && tracked == active
      ensures pids == if tracked then old(pids) + [pid] else old(pids)
    {
      if !active {
        return false;
      }
      pids := pids + [pid];
      return true;
    }

    method Unregister(pid: Pid)
      requires Valid()
      modifies this
      ensures Valid() && active == old(active) && pids == Retained(old(pids), pid)
    {
      var kept: seq<Pid> := [];
      for i := 0 to |pids|
        invariant kept == Retained(pids[..i], pid) && active == old(active) && pids == old(pids)
      {
        assert pids[..i + 1][..i] == pids[..i];
        if pids[i] != pid {
          kept := kept + [pids[i]];
        }
      }
      assert pids[..|pids|] == pids;
      pids := kept;
    }

    /** The tracked children, which the caller must kill; none if the channel is already inactive. */
    method Deactivate() returns (taken: seq<Pid>)
      requires Valid()
      modifies this
      ensures Valid() && !active && pids == [] && taken == old(pids)
    {
      if !active {
        return [];
      }
      active := false;
      taken := pids;
      pids := [];
    }
  }

  // ---------------------------------------------------------------- the step system

  /** A child runs until it exits or is killed; `Signalled` ones have their kill on the way. */
  datatype Process = Running | Signalled | Gone

  datatype Command =
    | Called
    | Checked                      // found the channel active
    | Spawned(pid: Pid)            // not registered yet
    | Lost(pid: Pid)               // a stop came first: to be killed by the command itself
    | Doomed(pid: Pid)             // killed for that reason, to be reaped
    | Streaming(pid: Pid)          // tracked, guard armed
    | Reaped(pid: Pid)             // process is over, guard still armed
    | Dropping(pid: Pid)           // guard dropped: unregistered, kill to come
    | Over

  /** `parents`: which command spawned which child; `stops`: the pids each stop still has to kill. */
  datatype Shell = Shell(active: bool, pids: seq<Pid>, procs: seq<Process>, parents: seq<nat>,
                         cmds: seq<Command>, stops: seq<seq<Pid>>)

  datatype CommandAction =
    | Check
    | Spawn
    | SpawnFails
    | Register
    | KillLost
    | ReapLost
    | KillOverCap
    | Reap
    | Disarm
    | Abandon                      // an error, or the command's future dropped
    | KillDropped
    | Cancel

  datatype Action =
    | Communicate
    | Call
    | OfCommand(c: nat, act: CommandAction)
    | Exit(p: Pid)
    | Stop
    | StopKills(k: nat)

  function Init(): Shell {
    Shell(false, [], [], [], [], [])
  }

  function Signal(procs: seq<Process>, p: Pid): (r: seq<Process>)
    ensures |r| == |procs|
    ensures forall q :: 0 <= q < |r| ==> r[q] == if q == p && procs[q].Running? then Signalled else procs[q]
  {
    if p < |procs| && procs[p].Running? then procs[p := Signalled] else procs
  }

  function SetCmd(s: Shell, c: nat, phase: Command): Shell
    requires c < |s.cmds|
  {
    s.(cmds := s.cmds[c := phase])
  }

  function StepCommand(s: Shell, c: nat, act: CommandAction): Shell
    requires c < |s.cmds|
  {
    match (act, s.cmds[c])
    case (Check, Called) => SetCmd(s, c, if s.active then Checked else Over)
    case (Spawn, Checked) =>
      SetCmd(s.(procs := s.procs + [Running], parents := s.parents + [c]), c, Spawned(|s.procs|))
    case (SpawnFails, Checked) => SetCmd(s, c, Over)
    case (Register, Spawned(p)) =>
      if s.active then SetCmd(s.(pids := s.pids + [p]), c, Streaming(p)) else SetCmd(s, c, Lost(p))
    case (KillLost, Lost(p)) => SetCmd(s.(procs := Signal(s.procs, p)), c, Doomed(p))
    case (ReapLost, Doomed(p)) => SetCmd(s, c, Over)
    case (KillOverCap, Streaming(p)) => s.(procs := Signal(s.procs, p))
    case (Reap, Streaming(p)) =>
      if p < |s.procs| && !s.procs[p].Running? then SetCmd(s.(procs := s.procs[p := Gone]), c, Reaped(p)) else s
    case (Disarm, Reaped(p)) => SetCmd(s.(pids := Retained(s.pids, p)), c, Over)
    case (Abandon, Streaming(p)) => SetCmd(s.(pids := Retained(s.pids, p)), c, Dropping(p))
    case (KillDropped, Dropping(p)) => SetCmd(s.(procs := Signal(s.procs, p)), c, Over)
    case (Cancel, Called) => SetCmd(s, c, Over)
    case (Cancel, Doomed(p)) => SetCmd(s, c, Over)
    case _ => s
  }

  /** An action that is not enabled changes nothing. */
  function Step(s: Shell, a: Action): Shell {
    match a
    case Communicate => s.(active := true)
    case Call => s.(cmds := s.cmds + [Called])
    case OfCommand(c, act) => if c < |s.cmds| then StepCommand(s, c, act) else s
    case Exit(p) => if p < |s.procs| && s.procs[p] != Gone then s.(procs := s.procs[p := Gone]) else s
    case Stop => if s.active then s.(active := false, pids := [], stops := s.stops + [s.pids]) else s
    case StopKills(k) =>
      if k < |s.stops| && s.stops[k] != []
      then s.(procs := Signal(s.procs, s.stops[k][0]), stops := s.stops[k := s.stops[k][1..]])
      else s
  }

  function History(actions: seq<Action>): Shell
    decreases |actions|
  {
    if actions == [] then Init() else Step(History(actions[..|actions| - 1]), actions[|actions| - 1])
  }

  // ---------------------------------------------------------------- the invariant

  function PidOf(c: Command): Option<Pid> {
    match c
    case Spawned(p) => Some(p)
    case Lost(p) => Some(p)
    case Doomed(p) => Some(p)
    case Streaming(p) => Some(p)
    case Reaped(p) => Some(p)
    case Dropping(p) => Some(p)
    case _ => None
  }

  predicate OnKillList(stops: seq<seq<Pid>>, p: Pid) {
    exists k :: 0 <= k < |stops| && p in stops[k]
  }

  /** Why a running child will be killed or waited for: who is responsible for it. */
  ghost predicate Obliged(s: Shell, p: Pid) {
    p < |s.parents| && s.parents[p] < |s.cmds| &&
    match s.cmds[s.parents[p]]
    case Spawned(q) => q == p                                       // the command will register or kill it
    case Lost(q) => q == p                                          // the command will kill it
    case Dropping(q) => q == p                                      // the guard will kill it
    case Streaming(q) => q == p && (p in s.pids || OnKillList(s.stops, p))  // guard, and a stop now or later
    case _ => false
  }

  /** Every command's child is its own. */
  ghost predicate Families(s: Shell) {
    && |s.parents| == |s.procs|
    && forall c :: 0 <= c < |s.cmds| && PidOf(s.cmds[c]).Some? ==>
         PidOf(s.cmds[c]).value < |s.procs| && s.parents[PidOf(s.cmds[c]).value] == c
  }

  ghost predicate Tracked(s: Shell, p: Pid) {
    p < |s.procs| && p < |s.parents| && s.parents[p] < |s.cmds|
    && (s.cmds[s.parents[p]] == Streaming(p) || s.cmds[s.parents[p]] == Reaped(p))
  }

  ghost predicate Inv(s: Shell) {
    && (!s.active ==> s.pids == [])
    && Families(s)
    && (forall p :: 0 <= p < |s.procs| && s.procs[p].Running? ==> Obliged(s, p))
    && (forall p :: p in s.pids ==> Tracked(s, p))
  }

  lemma CommandKeepsTracked(s: Shell, c: nat, act: CommandAction)
    requires Inv(s) && c < |s.cmds|
    ensures Families(StepCommand(s, c, act))
    ensures forall p :: p in StepCommand(s, c, act).pids ==> Tracked(StepCommand(s, c, act), p)
  {
    hide Retained, Signal, Obliged;
    var r := StepCommand(s, c, act);
    forall p | p in r.pids ensures Tracked(r, p) {
      if p in s.pids {
        assert Tracked(s, p);
      }
    }
  }

  lemma CommandKeepsObliged(s: Shell, c: nat, act: CommandAction)
    requires Inv(s) && c < |s.cmds|
    ensures var r := StepCommand(s, c, act);
            forall p :: 0 <= p < |r.procs| && r.procs[p].Running? ==> Obliged(r, p)
  {
    hide Retained, Signal, Tracked, OnKillList;
    var r := StepCommand(s, c, act);
    forall p | 0 <= p < |r.procs| && r.procs[p].Running? ensures Obliged(r, p) {
      if p < |s.procs| {
        assert s.procs[p].Running? && Obliged(s, p);
      }
    }
  }

  lemma CommandKeepsInv(s: Shell, c: nat, act: CommandAction)
    requires Inv(s) && c < |s.cmds|
    ensures Inv(StepCommand(s, c, act))
  {
    CommandKeepsTracked(s, c, act);
    CommandKeepsObliged(s, c, act);
    hide Families, Obliged, Tracked, Retained, Signal;
  }

  lemma StopKeepsInv(s: Shell)
    requires Inv(s)
    ensures Inv(Step(s, Stop))
  {
    hide OnKillList;
    var r := Step(s, Stop);
    if s.active {
      forall p | 0 <= p < |r.procs| && r.procs[p].Running? ensures Obliged(r, p) {
        assert Obliged(s, p);
        if p in s.pids || OnKillList(s.stops, p) {
          KillListsGrow(s.stops, s.pids, p);
        }
      }
    }
  }

  lemma StopKillsKeepsInv(s: Shell, k: nat)
    requires Inv(s)
    ensures Inv(Step(s, StopKills(k)))
  {
    hide OnKillList, Signal;
    var r := Step(s, StopKills(k));
    if k < |s.stops| && s.stops[k] != [] {
      forall p | 0 <= p < |r.procs| && r.procs[p].Running? ensures Obliged(r, p) {
        assert s.procs[p].Running? && Obliged(s, p) && p != s.stops[k][0];
        if OnKillList(s.stops, p) {
          KillListShrinks(s.stops, k, p);
        }
      }
      forall p | p in r.pids ensures Tracked(r, p) {
        assert Tracked(s, p);
      }
    }
  }

  lemma EasyStepKeepsInv(s: Shell, a: Action)
    requires Inv(s) && (a.Communicate? || a.Call? || a.Exit?)
    ensures Inv(Step(s, a))
  {
    hide OnKillList;
    var r := Step(s, a);
    forall p | 0 <= p < |r.procs| && r.procs[p].Running? ensures Obliged(r, p) {
      assert Obliged(s, p);
    }
    forall p | p in r.pids ensures Tracked(r, p) {
      assert Tracked(s, p);
    }
  }

  lemma StepKeepsInv(s: Shell, a: Action)
    requires Inv(s)
    ensures Inv(Step(s, a))
  {
    hide Inv, StepCommand;
    match a
    case Stop => StopKeepsInv(s);
    case StopKills(k) => StopKillsKeepsInv(s, k);
    case OfCommand(c, act) => if c < |s.cmds| { CommandKeepsInv(s, c, act); }
    case _ => EasyStepKeepsInv(s, a);
  }

  lemma KillListsGrow(stops: seq<seq<Pid>>, pids: seq<Pid>, p: Pid)
    requires p in pids || OnKillList(stops, p)
    ensures OnKillList(stops + [pids], p)
  {
    if p in pids {
      assert p in (stops + [pids])[|stops|];
    } else {
      var k :| 0 <= k < |stops| && p in stops[k];
      assert p in (stops + [pids])[k];
    }
  }

  lemma KillListShrinks(stops: seq<seq<Pid>>, k: nat, p: Pid)
    requires k < |stops| && stops[k] != [] && p != stops[k][0] && OnKillList(stops, p)
    ensures OnKillList(stops[k := stops[k][1..]], p)
  {
    var m :| 0 <= m < |stops| && p in stops[m];
    assert p in stops[k := stops[k][1..]][m];
  }

  lemma {:induction false} EveryHistoryKeepsInv(actions: seq<Action>)
    ensures Inv(History(actions))
    decreases |actions|
  {
    hide Inv, Step;
    if actions == [] {
      assert Inv(Init()) by { FreshShell(); }
    } else {
      EveryHistoryKeepsInv(actions[..|actions| - 1]);
      StepKeepsInv(History(actions[..|actions| - 1]), actions[|actions| - 1]);
    }
  }

  lemma FreshShell()
    ensures Inv(Init())
  {}

  // ---------------------------------------------------------------- what it means

  /** An inactive channel tracks no child, at no time. */
  lemma InactiveTracksNothing(actions: seq<Action>)
    requires !History(actions).active
    ensures History(actions).pids == []
  {
    EveryHistoryKeepsInv(actions);
  }

  /**
    Every child that runs and has not been signalled is somebody's to kill: its command's, between spawn
    and registration, after a lost race, or with its guard dropped; or it is tracked with an armed guard
    and either in the pid list or on the kill list of a stop.
   */
  lemma EveryRunningChildIsObliged(actions: seq<Action>, p: Pid)
    requires p < |History(actions).procs| && History(actions).procs[p].Running?
    ensures Obliged(History(actions), p)
  {
    hide Obliged;
    EveryHistoryKeepsInv(actions);
  }

  /** When no command is under way any more, no child runs unsignalled. */
  lemma NoChildSurvivesItsCommand(actions: seq<Action>, p: Pid)
    requires forall c :: 0 <= c < |History(actions).cmds| ==> History(actions).cmds[c].Over?
    requires p < |History(actions).procs|
    ensures !History(actions).procs[p].Running?
  {
    hide History;
    EveryHistoryKeepsInv(actions);
  }

  /**
    When the channel is inactive and every stop has worked off its list, no tracked child runs: whoever
    still runs belongs to a command that will kill it in its next step.
   */
  lemma StopLeavesNoTrackedChild(actions: seq<Action>, p: Pid)
    requires var s := History(actions);
             && !s.active && (forall k :: 0 <= k < |s.stops| ==> s.stops[k] == [])
             && p < |s.procs| && s.procs[p].Running?
    ensures var s := History(actions);
            && p < |s.parents| && s.parents[p] < |s.cmds|
            && s.cmds[s.parents[p]] in {Spawned(p), Lost(p), Dropping(p)}
            && (s.cmds[s.parents[p]] == Spawned(p) ==> Step(s, OfCommand(s.parents[p], Register)).cmds[s.parents[p]] == Lost(p))
  {
    hide History;
    EveryHistoryKeepsInv(actions);
  }

  // ---------------------------------------------------------------- whole lives

  lemma {:induction false} RetainedIsRest(pids: seq<Pid>, pid: Pid)
    requires pid !in pids
    ensures Retained(pids, pid) == pids
    decreases |pids|
  {
    if pids != [] {
      RetainedIsRest(pids[..|pids| - 1], pid);
    }
  }

  lemma RetainedDropsLast(pids: seq<Pid>, pid: Pid)
    requires pid !in pids
    ensures Retained(pids + [pid], pid) == pids
  {
    RetainedIsRest(pids, pid);
    assert (pids + [pid])[..|pids|] == pids;
  }

  lemma NewPidIsFree(s: Shell)
    requires Inv(s)
    ensures |s.procs| !in s.pids
  {}

  /** One more command, ended like this, and its one child. */
  function Grown(s: Shell, cmd: Command, child: Process): Shell {
    s.(cmds := s.cmds + [cmd], procs := s.procs + [child], parents := s.parents + [|s.cmds|])
  }

  /** What a command has done up to its registration: its child runs, is tracked, and nothing else changed. */
  lemma CommandStarts(s: Shell)
    requires s.active
    ensures var c := |s.cmds|;
            var s1 := Step(Step(s, Call), OfCommand(c, Check));
            && Step(s1, OfCommand(c, SpawnFails)) == s.(cmds := s.cmds + [Over])
            && Step(Step(s1, OfCommand(c, Spawn)), OfCommand(c, Register))
               == Grown(s, Streaming(|s.procs|), Running).(pids := s.pids + [|s.procs|])
  {
    var c := |s.cmds|;
    assert (s.cmds + [Called])[c := Checked] == s.cmds + [Checked];
    assert (s.cmds + [Checked])[c := Over] == s.cmds + [Over];
    assert (s.cmds + [Checked])[c := Spawned(|s.procs|)] == s.cmds + [Spawned(|s.procs|)];
    assert (s.cmds + [Spawned(|s.procs|)])[c := Streaming(|s.procs|)] == s.cmds + [Streaming(|s.procs|)];
  }

  /** The last of the commands and of the children moves on. */
  lemma LastMoves(s: Shell)
    ensures forall x, y: Command :: (s.cmds + [x])[|s.cmds| := y] == s.cmds + [y]
    ensures forall x, y: Process :: (s.procs + [x])[|s.procs| := y] == s.procs + [y]
  {}

  /** A command's child over and reaped, and its guard disarmed. */
  lemma ReapedCommandEnds(s: Shell, child: Process)
    requires |s.procs| !in s.pids && !child.Running?
    ensures var c, p := |s.cmds|, |s.procs|;
            var t := Grown(s, Streaming(p), child).(pids := s.pids + [p]);
            Step(Step(t, OfCommand(c, Reap)), OfCommand(c, Disarm)) == Grown(s, Over, Gone)
  {
    RetainedDropsLast(s.pids, |s.procs|);
    LastMoves(s);
    hide Retained;
  }

  lemma DroppedCommandEnds(s: Shell)
    requires |s.procs| !in s.pids
    ensures var c, p := |s.cmds|, |s.procs|;
            var t := Grown(s, Streaming(p), Running).(pids := s.pids + [p]);
            Step(Step(t, OfCommand(c, Abandon)), OfCommand(c, KillDropped)) == Grown(s, Over, Signalled)
  {
    RetainedDropsLast(s.pids, |s.procs|);
    LastMoves(s);
    hide Retained;
  }

  lemma ChildEnds(s: Shell)
    ensures var c, p := |s.cmds|, |s.procs|;
            var t := Grown(s, Streaming(p), Running).(pids := s.pids + [p]);
            && Step(t, Exit(p)) == Grown(s, Streaming(p), Gone).(pids := s.pids + [p])
            && Step(t, OfCommand(c, KillOverCap)) == Grown(s, Streaming(p), Signalled).(pids := s.pids + [p])
  {
    LastMoves(s);
    hide Retained;
  }

  /** How a tracked command can end: its child exits, or is killed beyond the cap, or the command is dropped. */
  lemma TrackedCommandEnds(s: Shell)
    requires Inv(s) && s.active
    ensures var c, p := |s.cmds|, |s.procs|;
            var t := Grown(s, Streaming(p), Running).(pids := s.pids + [p]);
            && Step(Step(Step(t, Exit(p)), OfCommand(c, Reap)), OfCommand(c, Disarm)) == Grown(s, Over, Gone)
            && Step(Step(Step(t, OfCommand(c, KillOverCap)), OfCommand(c, Reap)), OfCommand(c, Disarm)) == Grown(s, Over, Gone)
            && Step(Step(t, OfCommand(c, Abandon)), OfCommand(c, KillDropped)) == Grown(s, Over, Signalled)
  {
    NewPidIsFree(s);
    hide Step, Grown;
    ChildEnds(s);
    ReapedCommandEnds(s, Gone);
    ReapedCommandEnds(s, Signalled);
    DroppedCommandEnds(s);
  }

  /** A command that a stop overtakes between spawn and registration kills and reaps its child itself. */
  lemma LostCommandEnds(s: Shell)
    requires s.active
    ensures var c, p := |s.cmds|, |s.procs|;
            var t := Step(Step(Step(Step(s, Call), OfCommand(c, Check)), OfCommand(c, Spawn)), Stop);
            var lost := Step(Step(Step(t, OfCommand(c, Register)), OfCommand(c, KillLost)), Exit(p));
            var over := Grown(s, Over, Gone).(active := false, pids := [], stops := s.stops + [s.pids]);
            Step(lost, OfCommand(c, ReapLost)) == over && Step(lost, OfCommand(c, Cancel)) == over
  {
    var c, p := |s.cmds|, |s.procs|;
    assert (s.cmds + [Called])[c := Checked] == s.cmds + [Checked];
    assert (s.cmds + [Checked])[c := Spawned(p)] == s.cmds + [Spawned(p)];
    assert (s.cmds + [Spawned(p)])[c := Lost(p)] == s.cmds + [Lost(p)];
    assert (s.cmds + [Lost(p)])[c := Doomed(p)] == s.cmds + [Doomed(p)];
    assert (s.cmds + [Doomed(p)])[c := Over] == s.cmds + [Over];
    assert (s.procs + [Running])[p := Signalled] == s.procs + [Signalled];
    assert (s.procs + [Signalled])[p := Gone] == s.procs + [Gone];
  }

  /** On an inactive channel, or cancelled before it looks, a command ends without having done anything. */
  lemma IdleCommandEnds(s: Shell)
    ensures var c := |s.cmds|;
            && (!s.active ==> Step(Step(s, Call), OfCommand(c, Check)) == s.(cmds := s.cmds + [Over]))
            && Step(Step(s, Call), OfCommand(c, Cancel)) == s.(cmds := s.cmds + [Over])
    ensures Init() == Shell(false, [], [], [], [], []) && Step(s, Communicate) == s.(active := true)
  {
    assert (s.cmds + [Called])[|s.cmds| := Over] == s.cmds + [Over];
  }

  /**
    All lives of a command, from any state a history can reach on an active channel: called, it starts its
    child and has it tracked, or fails to spawn and changes nothing; it ends with the child gone, or
    signalled if the command is dropped, and tracked no more; or a stop overtakes it and it kills and reaps
    the child itself. Whatever else is going on is left as it was.
   */
  lemma EveryLifeEndsClean(actions: seq<Action>)
    requires History(actions).active
    ensures var s := History(actions);
            var c, p := |s.cmds|, |s.procs|;
            var called := Step(Step(s, Call), OfCommand(c, Check));
            var spawned := Step(called, OfCommand(c, Spawn));
            var tracked := Step(spawned, OfCommand(c, Register));
            var killed := Step(tracked, OfCommand(c, KillOverCap));
            var dropped := Step(tracked, OfCommand(c, Abandon));
            var lost := Step(Step(Step(Step(spawned, Stop), OfCommand(c, Register)), OfCommand(c, KillLost)), Exit(p));
            && Step(called, OfCommand(c, SpawnFails)) == s.(cmds := s.cmds + [Over])
            && tracked.procs[..p] == s.procs && tracked.procs[p..] == [Running] && tracked.pids == s.pids + [p]
            && Step(Step(Step(tracked, Exit(p)), OfCommand(c, Reap)), OfCommand(c, Disarm)) == Grown(s, Over, Gone)
            && Step(Step(killed, OfCommand(c, Reap)), OfCommand(c, Disarm)) == Grown(s, Over, Gone)
            && Step(dropped, OfCommand(c, KillDropped)) == Grown(s, Over, Signalled)
            && Step(lost, OfCommand(c, ReapLost))
               == Grown(s, Over, Gone).(active := false, pids := [], stops := s.stops + [s.pids])
  {
    hide History, Step;
    EveryHistoryKeepsInv(actions);
    var s := History(actions);
    CommandStarts(s);
    TrackedCommandEnds(s);
    LostCommandEnds(s);
    assert (s.procs + [Running])[..|s.procs|] == s.procs && (s.procs + [Running])[|s.procs|..] == [Running];
  }

  /** A stop that works off its list signals every child on it that still runs, and nobody else. */
  lemma {:induction false} StopSignalsItsList(s: Shell, k: nat) returns (more: seq<Action>, r: Shell)
    requires k < |s.stops|
    ensures forall i :: 0 <= i < |more| ==> more[i] == StopKills(k)
    ensures r == After(s, more)
    ensures r == s.(procs := r.procs, stops := s.stops[k := []]) && |r.procs| == |s.procs|
    ensures forall p :: 0 <= p < |s.procs| ==>
              r.procs[p] == if p in s.stops[k] && s.procs[p].Running? then Signalled else s.procs[p]
    decreases |s.stops[k]|
  {
    if s.stops[k] == [] {
      more, r := [], s;
      assert s.stops[k := []] == s.stops;
    } else {
      var next := Step(s, StopKills(k));
      var later;
      later, r := StopSignalsItsList(next, k);
      more := [StopKills(k)] + later;
      assert more[1..] == later;
      assert s.stops[k] == [s.stops[k][0]] + s.stops[k][1..];
      assert next.stops[k := []] == s.stops[k := []];
    }
  }

  function After(s: Shell, more: seq<Action>): Shell
    decreases |more|
  {
    if more == [] then s else After(Step(s, more[0]), more[1..])
  }
}
