/** What becomes of a caller from its entry to its return, and that no caller can be kept waiting for ever. */
module MultiplexerProgress {
  import opened Bytes
  import opened Stream
  import opened Results
  import opened Requests
  import opened Dispatch
  import opened Slots
  import opened Multiplexer
  import opened MultiplexerBook
  import opened MultiplexerOwners
  import opened MultiplexerRuns

  // ---------------------------------------------------------------- the life of one caller

  /** The connection with one more caller, the last one. */
  function With(s: Mux, task: Task): Mux {
    s.(tasks := s.tasks + [task])
  }

  lemma LastMoves(s: Mux, task: Task, next: Task)
    ensures (s.tasks + [task])[|s.tasks| := next] == s.tasks + [next]
  {}

  /** In step, polling, with the write lock free and no fatal message. */
  predicate Healthy(s: Mux) {
    s.running && !s.desynced && s.writer.None? && s.book.fatal.None?
  }

  predicate ArgumentsFit(op: Op) {
    match op
    case RunCommand(command, cwd, env) =>
      command != [] && cwd != Some([]) && forall i :: 0 <= i < |env| ==> env[i].0 != [] && env[i].1 != []
    case FetchFile(path) => path != []
    case _ => true
  }

  /** Entering takes nothing but a polling connection and arguments that are not empty. */
  lemma Enters(s: Mux, op: Op)
    requires OpTyped(op)
    ensures s.running && ArgumentsFit(op) ==> Step(s, Enter(op)) == With(s, Task(op, None, [], Entered))
    ensures !s.running ==> Step(s, Enter(op)) == s
    ensures (op.RunCommand? && op.command == []) || (op.FetchFile? && op.path == []) ==> Step(s, Enter(op)) == s
  {
    hide OpTyped;
  }

  /** A command takes the first free slot and asks on it for what it was given; without one it fails. */
  lemma CommandPrepares(s: Mux, op: Op)
    requires op.RunCommand? && OpTyped(op) && ArgumentsFit(op)
    ensures var free := FirstFree(s.slots);
            var r := Step(With(s, Task(op, None, [], Entered)), Prepare(|s.tasks|));
            if free.None? then r == With(s, Task(op, None, [], Failed(None)))
            else exists reqs :: BatchShape(op, free, reqs) && reqs != []
                                && r == With(s.(slots := s.slots + [free.value]), Task(op, free, reqs, Ready))
  {
    var before := Task(op, None, [], Entered);
    forall next ensures (s.tasks + [before])[|s.tasks| := next] == s.tasks + [next] {
      LastMoves(s, before, next);
    }
    var free := FirstFree(s.slots);
    if free.Some? {
      CommandRefusedIff(free.value, op);
      CommandBatchShape(free.value, op);
      var reqs := CommandBatch(free.value, op).value;
      hide CommandBatch, BatchShape, OpTyped;
      assert BatchShape(op, free, reqs);
      assert Step(With(s, before), Prepare(|s.tasks|))
          == With(s.(slots := s.slots + [free.value]), Task(op, free, reqs, Ready));
    }
  }

  /** The other operations: a ping, a path, or a kill for every slot in use, none if there is none. */
  lemma OthersPrepare(s: Mux, op: Op)
    requires !op.RunCommand?
    ensures var r := Step(With(s, Task(op, None, [], Entered)), Prepare(|s.tasks|));
            match op
            case PingPeer => r == With(s, Task(op, None, [Ping(PingReq(false, false))], Ready))
            case FetchFile(path) => r == With(s, Task(op, None, [GetFile(GetFileReq(false, path, []))], Ready))
            case KillInFlight =>
              if s.slots == [] then r == With(s, Task(op, None, [], Returned(None, None)))
              else exists reqs :: OrdersOf(reqs) == KillOrders(s.slots) && r == With(s, Task(op, None, reqs, Ready))
            case _ => true
  {
    var before := Task(op, None, [], Entered);
    forall next ensures (s.tasks + [before])[|s.tasks| := next] == s.tasks + [next] {
      LastMoves(s, before, next);
    }
    if op.KillInFlight? {
      assert OrdersOf(Kills(s.slots)) == KillOrders(s.slots);
    }
  }

  function KillOrders(slots: seq<byte>): (orders: seq<Order>)
    ensures |orders| == |slots| && forall i :: 0 <= i < |orders| ==> orders[i] == KillCommand(slots[i])
  {
    seq(|slots|, i requires 0 <= i < |slots| => KillCommand(slots[i]))
  }

  /** The connection once the batch of caller `t` is registered and written in full. */
  ghost function Sent(s: Mux, t: nat, reqs: seq<Request>): Mux
    requires SerializableAll(reqs)
  {
    s.(book := s.book.(pending := s.book.pending + NewEntries(s.nextId, reqs)), nextId := s.nextId + |reqs|,
       issued := s.issued + reqs, owners := s.owners + seq(|reqs|, i => t), wire := s.wire + PackEach(reqs))
  }

  /** A caller that is let in gets the lock and registers its batch, ids and all. */
  lemma Registers(s: Mux, task: Task)
    requires Healthy(s) && task.phase.Ready? && SerializableAll(task.reqs) && s.nextId + |task.reqs| <= MAX_ID
    ensures var t := |s.tasks|;
            Step(Step(Step(With(s, task), Admit(t)), Acquire(t)), Register(t))
            == With(Sent(s, t, task.reqs).(writer := Some(t), wire := s.wire),
                    task.(phase := Writing(s.nextId, PackEach(task.reqs))))
  {
    forall x, y ensures (s.tasks + [x])[|s.tasks| := y] == s.tasks + [y] {
      LastMoves(s, x, y);
    }
    hide SerializableAll, PackEach, NewEntries;
  }

  /** It writes its batch in one piece, gives the lock back and waits for its replies. */
  lemma Writes(s: Mux, task: Task)
    requires task.phase.Writing? && task.phase.rest != []
    ensures var t, w := |s.tasks|, task.phase;
            var written := Step(With(s, task), Write(t, |w.rest|));
            && written == With(s.(wire := s.wire + w.rest), task.(phase := Writing(w.first, [])))
            && Step(Step(written, Commit(t)), Unlock(t))
               == With(s.(writer := None, wire := s.wire + w.rest), task.(phase := Polling(w.first)))
  {
    var w := task.phase;
    assert w.rest[..|w.rest|] == w.rest && w.rest[|w.rest|..] == [];
    LastMoves(s, task, task.(phase := Writing(w.first, [])));
    LastMoves(s, task.(phase := Writing(w.first, [])), task.(phase := Committed(w.first)));
    LastMoves(s, task.(phase := Committed(w.first)), task.(phase := Polling(w.first)));
  }

  /** A write that fails, or a writer that is dropped, breaks the connection before the lock is free. */
  lemma WriteBreaks(s: Mux, task: Task)
    requires task.phase.Writing? && task.phase.rest != []
    ensures var t, first := |s.tasks|, task.phase.first;
            var failed, cancelled := Step(With(s, task), FailWrite(t)), Step(With(s, task), Cancel(t));
            && failed == With(s.(desynced := true), task.(phase := Aborting(first, false)))
            && Step(failed, Unlock(t)) == With(s.(writer := None, desynced := true), task.(phase := Failed(Some(first))))
            && cancelled == With(s.(desynced := true), task.(phase := Aborting(first, true)))
            && Step(cancelled, Unlock(t)) == With(s.(writer := None, desynced := true), task.(phase := Cancelled(Some(first))))
  {
    var first := task.phase.first;
    forall c: bool
      ensures (s.tasks + [task])[|s.tasks| := task.(phase := Aborting(first, c))]
           == s.tasks + [task.(phase := Aborting(first, c))]
    {
      LastMoves(s, task, task.(phase := Aborting(first, c)));
    }
    LastMoves(s, task.(phase := Aborting(first, false)), task.(phase := Failed(Some(first))));
    LastMoves(s, task.(phase := Aborting(first, true)), task.(phase := Cancelled(Some(first))));
  }

  /** The slot of a caller that returns is in the pool no more. */
  function SlotsWithout(slots: seq<byte>, slot: Option<byte>): seq<byte> {
    if slot.Some? then Without(slots, slot.value) else slots
  }

  /** Once all its replies are there it takes them and returns with them; until then it keeps looking. */
  lemma PicksUp(s: Mux, task: Task)
    requires task.phase.Polling? && s.running && !s.desynced && s.book.fatal.None?
    ensures var t, first, ids := |s.tasks|, task.phase.first, IdsOf(task, task.phase.first);
            var looked := Step(With(s, task), PickUp(t));
            if ids <= s.book.replies.Keys then
              exists replies ::
                && |replies| == |task.reqs| && (forall i :: 0 <= i < |replies| ==> replies[i] == s.book.replies[first + i])
                && looked == With(s.(book := s.book.(replies := s.book.replies - ids), collected := s.collected + ids),
                                  task.(phase := Answered(first, replies)))
            else looked == With(s, task)
  {
    forall x, y ensures (s.tasks + [x])[|s.tasks| := y] == s.tasks + [y] {
      LastMoves(s, x, y);
    }
    var looked := Step(With(s, task), PickUp(|s.tasks|));
    var ids := IdsOf(task, task.phase.first);
    if ids <= s.book.replies.Keys {
      var replies := looked.tasks[|s.tasks|].phase.replies;
      assert looked == With(s.(book := s.book.(replies := s.book.replies - ids), collected := s.collected + ids),
                            task.(phase := Answered(task.phase.first, replies)));
    }
  }

  /** It fails as soon as there is a fatal message, the connection is out of step, or polling has ended. */
  lemma PickUpFails(s: Mux, task: Task)
    requires task.phase.Polling? && (!s.running || s.desynced || s.book.fatal.Some?)
    ensures Step(With(s, task), PickUp(|s.tasks|)) == With(s, task.(phase := Failed(Some(task.phase.first))))
  {
    LastMoves(s, task, task.(phase := Failed(Some(task.phase.first))));
  }

  lemma Returns(s: Mux, task: Task)
    ensures var r := Step(With(s, task), Release(|s.tasks|));
            && (task.phase.Answered? ==>
                  r == With(s.(slots := SlotsWithout(s.slots, task.slot)),
                            task.(phase := Returned(Some(task.phase.replies), Some(task.phase.first)))))
            && (task.phase.Failed? ==>
                  r == With(s.(slots := SlotsWithout(s.slots, task.slot)), task.(phase := Returned(None, task.phase.sent))))
  {
    forall x, y ensures (s.tasks + [x])[|s.tasks| := y] == s.tasks + [y] {
      LastMoves(s, x, y);
    }
    hide Without;
  }

  /** Where a caller is turned away before anything of it is registered. */
  lemma TurnedAway(s: Mux, task: Task)
    ensures var t, failed := |s.tasks|, With(s, task.(phase := Failed(None)));
            && (task.phase.Ready? && (!s.running || s.desynced) ==> Step(With(s, task), Admit(t)) == failed)
            && (task.phase.Queued? && s.desynced && s.writer.None? ==> Step(With(s, task), Acquire(t)) == failed)
            && (task.phase.Holding? && SerializableAll(task.reqs)
                && (s.book.fatal.Some? || s.nextId + |task.reqs| > 0xFFFF_FFFF_FFFF_FFFF) ==>
                  Step(With(s, task), Register(t)) == failed.(writer := None))
  {
    LastMoves(s, task, task.(phase := Failed(None)));
    hide SerializableAll, PackEach, NewEntries;
  }

  /** A caller that is dropped: nothing more happens on its behalf, and its slot stays where it is. */
  lemma Drops(s: Mux, task: Task)
    ensures var r := Step(With(s, task), Cancel(|s.tasks|));
            match task.phase
            case Entered | Ready | Queued => r == With(s, task.(phase := Cancelled(None)))
            case Holding => r == With(s.(writer := None), task.(phase := Cancelled(None)))
            case Polling(first) => r == With(s, task.(phase := Cancelled(Some(first))))
            case Answered(first, _) => r == With(s, task.(phase := Cancelled(Some(first))))
            case _ => true
  {
    forall x, y ensures (s.tasks + [x])[|s.tasks| := y] == s.tasks + [y] {
      LastMoves(s, x, y);
    }
  }

  // ---------------------------------------------------------------- nobody waits for ever

  /** How far a caller is from its return. */
  function PhaseRank(p: Phase): nat {
    match p
    case Entered => 9
    case Ready => 8
    case Queued => 7
    case Holding => 6
    case Writing(_, rest) => if rest == [] then 4 else 5
    case Aborting(_, _) => 3
    case Committed(_) => 3
    case Polling(_) => 2
    case Answered(_, _) => 1
    case Failed(_) => 1
    case Returned(_, _) => 0
    case Cancelled(_) => 0
  }

  function RankTotal(tasks: seq<Task>): nat {
    if tasks == [] then 0 else RankTotal(tasks[..|tasks| - 1]) + PhaseRank(tasks[|tasks| - 1].phase)
  }

  lemma {:induction false} RankUpdate(tasks: seq<Task>, t: nat, task: Task)
    requires t < |tasks|
    ensures RankTotal(tasks[t := task]) + PhaseRank(tasks[t].phase) == RankTotal(tasks) + PhaseRank(task.phase)
    decreases |tasks|
  {
    var n := |tasks| - 1;
    if t == n {
      assert tasks[t := task][..n] == tasks[..n];
    } else {
      RankUpdate(tasks[..n], t, task);
      assert tasks[t := task][..n] == tasks[..n][t := task];
    }
  }

  predicate IsOver(p: Phase) {
    p.Returned? || p.Cancelled?
  }

  /** What a caller that is not over does next, on a connection that is polled no more. */
  function NextOf(s: Mux, t: nat): Action
    requires At(s, t)
  {
    match s.tasks[t].phase
    case Entered => Prepare(t)
    case Ready => Admit(t)
    case Queued => Acquire(t)
    case Holding => Register(t)
    case Writing(_, rest) => if rest == [] then Commit(t) else Write(t, |rest|)
    case Aborting(_, _) => Unlock(t)
    case Committed(_) => Unlock(t)
    case Polling(_) => PickUp(t)
    case _ => Release(t)
  }

  /** Caller `t` is nearer to its return, and nobody else has moved. */
  predicate Nearer(s: Mux, t: nat, r: Mux) {
    && At(s, t) && r.running == s.running && |r.tasks| == |s.tasks| && r.tasks == s.tasks[t := r.tasks[t]]
    && PhaseRank(r.tasks[t].phase) < PhaseRank(s.tasks[t].phase)
  }

  lemma PreparedIsNearer(s: Mux, t: nat)
    requires At(s, t) && s.tasks[t].phase.Entered?
    ensures Nearer(s, t, StepPrepare(s, t))
  {
    hide CommandBatch, Kills, FirstFree;
  }

  lemma WriterIsNearer(s: Mux, t: nat, a: Action)
    requires At(s, t) && a == NextOf(s, t)
    requires s.tasks[t].phase.Writing? || s.tasks[t].phase.Aborting? || s.tasks[t].phase.Committed?
    ensures Nearer(s, t, Step(s, a))
  {}

  lemma CallerMoves(s: Mux, t: nat)
    requires At(s, t) && !IsOver(s.tasks[t].phase) && !s.running
    requires s.tasks[t].phase.Queued? ==> s.writer.None?
    requires s.tasks[t].phase.Holding? ==> SerializableAll(s.tasks[t].reqs)
    ensures Nearer(s, t, Step(s, NextOf(s, t)))
  {
    hide StepPrepare, SerializableAll, PackEach, NewEntries, Without, IdsOf;
    match s.tasks[t].phase
    case Entered => PreparedIsNearer(s, t);
    case Writing(_, _) => WriterIsNearer(s, t, NextOf(s, t));
    case Aborting(_, _) => WriterIsNearer(s, t, NextOf(s, t));
    case Committed(_) => WriterIsNearer(s, t, NextOf(s, t));
    case _ =>
  }

  /** Whoever holds the write lock can go on, and when it is free everybody can. */
  lemma SomeoneMoves(s: Mux) returns (t: nat)
    requires Inv(s) && !s.running && exists u :: 0 <= u < |s.tasks| && !IsOver(s.tasks[u].phase)
    ensures At(s, t) && !IsOver(s.tasks[t].phase)
    ensures s.tasks[t].phase.Queued? ==> s.writer.None?
    ensures s.tasks[t].phase.Holding? ==> SerializableAll(s.tasks[t].reqs)
  {
    hide CallersInv, Serializable;
    if s.writer.Some? {
      t := s.writer.value;
      LockOf(s, t);
      HoldingHolds(s.tasks[t].phase);
    } else {
      t :| 0 <= t < |s.tasks| && !IsOver(s.tasks[t].phase);
    }
    TasksOf(s);
    TaskOf(s.tasks, t);
    BatchSerializes(s.tasks[t]);
  }

  lemma BatchSerializes(task: Task)
    requires TaskInv(task)
    ensures SerializableAll(task.reqs)
  {
    hide Serializable, Unfed, BatchShape, OpTyped;
  }

  lemma {:induction false} RunsJoin(s: Mux, xs: seq<Action>, ys: seq<Action>)
    ensures RunFrom(s, xs + ys) == RunFrom(RunFrom(s, xs), ys)
    decreases |ys|
  {
    hide Step;
    if ys == [] {
      assert xs + ys == xs;
    } else {
      var init := ys[..|ys| - 1];
      RunsJoin(s, xs, init);
      assert (xs + ys)[..|xs + ys| - 1] == xs + init;
    }
  }

  lemma OneStep(s: Mux, a: Action)
    ensures RunFrom(s, [a]) == Step(s, a)
  {
    hide Step;
    assert [a][..0] == [] && RunFrom(s, []) == s;
  }

  lemma {:induction false} CallersReturn(s: Mux) returns (more: seq<Action>)
    requires Inv(s) && !s.running
    ensures var r := RunFrom(s, more);
            Inv(r) && !r.running && |r.tasks| == |s.tasks| && forall t :: 0 <= t < |r.tasks| ==> IsOver(r.tasks[t].phase)
    decreases RankTotal(s.tasks)
  {
    if exists u :: 0 <= u < |s.tasks| && !IsOver(s.tasks[u].phase) {
      var t := SomeoneMoves(s);
      var a := NextOf(s, t);
      CallerMoves(s, t);
      RankUpdate(s.tasks, t, Step(s, a).tasks[t]);
      StepKeepsInv(s, a);
      hide Inv, Step, IsOver;
      var later := CallersReturn(Step(s, a));
      more := [a] + later;
      OneStep(s, a);
      RunsJoin(s, [a], later);
    } else {
      more := [];
    }
  }

  lemma PollingStops(s: Mux) returns (a: Action)
    requires Inv(s)
    ensures Inv(Step(s, a)) && !Step(s, a).running && |Step(s, a).tasks| == |s.tasks|
  {
    hide Inv, Step;
    a := PollEnds(None, false);
    StepKeepsInv(s, a);
    PollEndsStops(s);
  }

  lemma PollEndsStops(s: Mux)
    ensures var r := Step(s, PollEnds(None, false)); !r.running && r.tasks == s.tasks
  {}

  lemma LockIsFree(s: Mux)
    requires Inv(s) && forall t :: 0 <= t < |s.tasks| ==> IsOver(s.tasks[t].phase)
    ensures s.writer.None?
  {
    hide CallersInv, PackEach, Serializable;
  }

  /**
    The write lock, the replies and the slots can keep no caller waiting for ever: whatever has happened,
    once polling ends every caller can return, and the write lock is free.
   */
  lemma EveryCallerCanReturn(actions: seq<Action>) returns (more: seq<Action>)
    ensures var r := Run(actions + more);
            && |r.tasks| == |Run(actions).tasks| && (forall t :: 0 <= t < |r.tasks| ==> IsOver(r.tasks[t].phase))
            && r.writer.None?
  {
    hide Step, Inv;
    EveryRunKeepsInv(actions);
    var s := Run(actions);
    var stop := PollingStops(s);
    var later := CallersReturn(Step(s, stop));
    more := [stop] + later;
    OneStep(s, stop);
    RunsJoin(s, [stop], later);
    RunsJoin(Init(), actions, more);
    LockIsFree(Run(actions + more));
  }
}
