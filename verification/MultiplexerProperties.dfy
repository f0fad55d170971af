/** The promises of the shared connection, for every interleaving of its callers. */
module MultiplexerProperties {
  import opened Msgpack
  import opened Stream
  import opened Results
  import opened Requests
  import opened Dispatch
  import opened Slots
  import opened Multiplexer
  import opened MultiplexerBook
  import opened MultiplexerOwners
  import opened MultiplexerWire
  import opened MultiplexerSlots
  import opened MultiplexerRuns

  // ---------------------------------------------------------------- the wire

  /**
    While the connection is in step, what was written plus what the lock holder still has to write is
    every registered batch, one behind the other in id order; out of step, it is a prefix of that.
   */
  lemma WireHoldsBatchesInOrder(actions: seq<Action>)
    ensures var s := Run(actions);
            && SerializableAll(s.issued)
            && (!s.desynced ==> s.wire + Unwritten(s.tasks, s.writer) == PackEach(s.issued))
            && s.wire <= PackEach(s.issued)
  {
    hide Run, CallersInv, PackEach, Serializable;
    EveryRunKeepsInv(actions);
  }

  lemma BrokenStepWritesNothing(s: Mux, a: Action)
    requires Inv(s) && s.desynced
    ensures Step(s, a).desynced && Step(s, a).wire == s.wire && Step(s, a).issued == s.issued
  {
    hide Inv, Deliver, RecordFatal, CommandBatch, Kills, Without, IdsOf, OpTyped, SerializableAll, NewEntries, PackEach;
    match a
    case Register(t) => if At(s, t) { LockOf(s, t); }
    case Write(t, count) => if At(s, t) { LockOf(s, t); }
    case _ =>
  }

  /** A desynchronised connection never recovers: no byte is appended and nothing is registered. */
  lemma {:induction false} BrokenWireIsFrozen(actions: seq<Action>, more: seq<Action>)
    requires Run(actions).desynced
    ensures var s, r := Run(actions), Run(actions + more);
            r.desynced && r.wire == s.wire && r.issued == s.issued
    decreases |more|
  {
    hide Inv, Step;
    if more == [] {
      assert actions + more == actions;
    } else {
      var init := more[..|more| - 1];
      BrokenWireIsFrozen(actions, init);
      EveryRunKeepsInv(actions + init);
      BrokenStepWritesNothing(Run(actions + init), more[|more| - 1]);
      assert (actions + more)[..|actions + more| - 1] == actions + init;
    }
  }

  /**
    A peer that reads the wire finds exactly the orders of the requests registered so far, with their
    arguments, one after the other, as far as their bytes have arrived, and no others.
   */
  lemma PeerReadsRegisteredRequests(actions: seq<Action>)
    requires forall i :: 0 <= i < |Run(actions).issued| ==> FitsLimits(Run(actions).issued[i])
    ensures var s := Run(actions);
            var seen := DecodeAll(s.wire);
            && |seen.frames| <= |s.issued|
            && (forall i :: 0 <= i < |seen.frames| ==> ReadOrder(seen.frames[i]) == Some(OrderOf(s.issued[i])))
            && DecodeOne(seen.rest) == More
            && (!s.desynced && Unwritten(s.tasks, s.writer) == [] ==> |seen.frames| == |s.issued| && seen.rest == [])
  {
    hide Run, PackEach, FitsLimits, Serializable, DecodeAll, DecodeOne, FieldsOf, ReadOrder, OrderOf, Pack;
    var s := Run(actions);
    WireHoldsBatchesInOrder(actions);
    PackEachIsPackAll(s.issued);
    FramesFit(s.issued);
    assert s.wire == PackEach(s.issued)[..|s.wire|];
    PackedPrefixDecodes(FramesOf(s.issued), |s.wire|);
    PackedAllDecodes(FramesOf(s.issued));
    assert s.wire + [] == s.wire;
    var seen := DecodeAll(s.wire);
    forall i | 0 <= i < |seen.frames| ensures ReadOrder(seen.frames[i]) == Some(OrderOf(s.issued[i])) {
      PackRoundTrip(s.issued[i], []);
      assert seen.frames[i] == FramesOf(s.issued)[i];
    }
  }

  // ---------------------------------------------------------------- ids and replies

  /**
    Pending ids ascend; every id below `next_id`, and no other, is in exactly one of pending, replies
    and collected; what is pending is the request registered under that id, and a filed reply answers it.
   */
  lemma EveryIdInOnePlace(actions: seq<Action>)
    ensures var s := Run(actions);
            && s.nextId == |s.issued| && Ascending(s.book.pending)
            && (forall id :: id in Ids(s.book.pending) || id in s.book.replies || id in s.collected <==> 0 <= id < s.nextId)
            && Ids(s.book.pending) !! s.book.replies.Keys && Ids(s.book.pending) !! s.collected
            && s.book.replies.Keys !! s.collected
            && (forall e :: e in s.book.pending ==> e.id < |s.issued| && Unanswered(s.issued[e.id], e.request))
            && (forall id :: id in s.book.replies ==> Answers(s.issued[id], s.book.replies[id]))
  {
    hide Run, Unanswered, Answers, OwnInv, WireInv, SlotInv, ExecInv, TasksInv, Ascending;
    EveryRunKeepsInv(actions);
    var s := Run(actions);
    forall e | e in s.book.pending ensures TypedEntry(e, s.issued) {
      var i :| 0 <= i < |s.book.pending| && s.book.pending[i] == e;
    }
    var here := Ids(s.book.pending) + s.book.replies.Keys + s.collected;
    forall id: int ensures id in here <==> 0 <= id < s.nextId {
      assert id in here <==> id in Interval(0, s.nextId);
    }
  }

  /**
    A caller that gets its replies gets one for each of its own registered requests, in order, of the
    kind, slot and path asked for.
   */
  lemma EveryAnswerMatches(actions: seq<Action>, t: nat)
    requires t < |Run(actions).tasks| && Gathered(Run(actions).tasks[t].phase).Some?
    ensures var s := Run(actions);
            var task, replies := s.tasks[t], Gathered(s.tasks[t].phase).value;
            && |replies| == |task.reqs|
            && (forall i :: 0 <= i < |replies| ==> Answers(task.reqs[i], replies[i]))
            && First(task.phase).Some?
            && IdsOf(task, First(task.phase).value) <= s.collected
            && (forall i :: 0 <= i < |task.reqs| ==> RegisteredAs(task, i, t, s.owners, s.issued))
  {
    hide Run, BookInv, Answers, WireInv, SlotInv, ExecInv, TasksInv, Serializable, OwnsItsIds, Covers;
    EveryRunKeepsInv(actions);
    var s := Run(actions);
    assert HasAnswers(s.tasks[t], s.collected) && OwnsItsIds(s.tasks[t], t, s.owners, s.issued);
    OwnIds(s.tasks[t], t, s.owners, s.issued);
  }

  /** The `i`th request of a caller's batch is registered under the `i`th of its ids. */
  ghost predicate RegisteredAs(task: Task, i: nat, t: nat, owners: seq<nat>, issued: seq<Request>) {
    First(task.phase).Some? && i < |task.reqs| &&
    var id := First(task.phase).value + i;
    id < |issued| && id < |owners| && issued[id] == task.reqs[i] && owners[id] == t
  }

  lemma OwnIds(task: Task, t: nat, owners: seq<nat>, issued: seq<Request>)
    requires |owners| == |issued| && OwnsItsIds(task, t, owners, issued) && First(task.phase).Some?
    ensures forall i :: 0 <= i < |task.reqs| ==> RegisteredAs(task, i, t, owners, issued)
  {
    var first := First(task.phase).value;
    forall i | 0 <= i < |task.reqs| ensures RegisteredAs(task, i, t, owners, issued) {
      assert issued[first..first + |task.reqs|][i] == task.reqs[i];
      assert owners[first..first + |task.reqs|][i] == t;
    }
  }

  /**
    The reply a command looks at is always the one to its EXEC, and a fetched file's is always the one
    for its path: the channel's branches for an unexpected reply are never taken.
   */
  lemma NoUnexpectedReply(actions: seq<Action>, t: nat)
    requires t < |Run(actions).tasks| && Gathered(Run(actions).tasks[t].phase).Some?
    ensures var task := Run(actions).tasks[t];
            var replies := Gathered(task.phase).value;
            && (task.op.RunCommand? ==>
                 replies != [] && replies[|replies| - 1].ExecuteReply?
                 && |replies[|replies| - 1].stdout| <= MAX_STDOUT_BYTES)
            && (task.op.FetchFile? ==>
                 |replies| == 1 && replies[0].GetFileReply? && replies[0].path == task.op.path
                 && |replies[0].data| <= MAX_FILE_BYTES)
  {
    hide Run, OwnInv, BookInv, WireInv, SlotInv, ExecInv, OpTyped, Unanswered, Serializable;
    EveryRunKeepsInv(actions);
    EveryAnswerMatches(actions, t);
    var s := Run(actions);
    var task := s.tasks[t];
    assert TaskInv(task);
    assert !BeforeRequests(task.phase);
  }

  // ---------------------------------------------------------------- slots

  /** At no time do two EXEC requests wait on the same slot. */
  lemma OneExecPerSlot(actions: seq<Action>, i: nat, j: nat)
    requires var pending := Run(actions).book.pending;
             i < j < |pending| && pending[i].request.Execute? && pending[j].request.Execute?
    ensures var pending := Run(actions).book.pending;
            pending[i].request.exec.slot != pending[j].request.exec.slot
  {
    hide Run, OwnInv, TasksInv, WireInv, SlotInv, ExecHeld, Serializable;
    EveryRunKeepsInv(actions);
    var s := Run(actions);
    var p, q := s.book.pending[i], s.book.pending[j];
    assert TypedEntry(p, s.issued) && TypedEntry(q, s.issued);
    assert p.id in Ids(s.book.pending) && q.id in Ids(s.book.pending);
  }

  /** Commands that have not returned hold pairwise distinct, assignable slots. */
  lemma CommandsHoldDistinctSlots(actions: seq<Action>)
    ensures var s := Run(actions);
            && NoDuplicates(s.slots) && (forall slot :: slot in s.slots ==> slot < MAX_SLOTS)
            && (forall t :: 0 <= t < |s.tasks| && Reserved(s.tasks[t]) ==> s.tasks[t].slot.value in s.slots)
            && (forall t, u :: 0 <= t < u < |s.tasks| && Reserved(s.tasks[t]) && Reserved(s.tasks[u]) ==>
                  s.tasks[t].slot != s.tasks[u].slot)
  {
    hide Run, OwnInv, TasksInv, WireInv, BookInv, ExecInv;
    EveryRunKeepsInv(actions);
  }

  /**
    A command gives its slot back before its EXEC is answered only when the connection has failed:
    a fatal message, a broken batch, or the end of polling.
   */
  lemma EarlyReleaseOnlyAfterFailure(actions: seq<Action>, t: nat, k: nat)
    requires var s := Run(actions);
             && t < |s.tasks| && (s.tasks[t].phase.Failed? || s.tasks[t].phase.Answered?)
             && k < |s.book.pending| && s.book.pending[k].id < |s.owners| && s.owners[s.book.pending[k].id] == t
    ensures var s := Run(actions);
            s.book.fatal.Some? || s.desynced || !s.running
  {
    hide Run, CallersInv, WireInv;
    EveryRunKeepsInv(actions);
    var s := Run(actions);
    MayReturn(s, t);
    assert s.book.pending[k].id in Ids(s.book.pending);
  }

  lemma PrepareMovesOne(s: Mux, t: nat)
    requires At(s, t) && s.tasks[t].phase.Entered?
    ensures var r := StepPrepare(s, t).tasks; |r| == |s.tasks| && r == s.tasks[t := r[t]]
  {
    hide CommandBatch, Kills, FirstFree;
  }

  lemma PickUpMovesOne(s: Mux, t: nat)
    requires At(s, t) && s.tasks[t].phase.Polling?
    ensures var r := StepPickUp(s, t).tasks; |r| == |s.tasks| && r == s.tasks[t := r[t]]
  {
    hide IdsOf;
  }

  lemma CancelMovesOne(s: Mux, t: nat)
    requires At(s, t)
    ensures var r := StepCancel(s, t).tasks; |r| == |s.tasks| && r == s.tasks[t := r[t]]
    ensures s.tasks[t].phase.Cancelled? ==> StepCancel(s, t) == s
  {}

  lemma CancelledStaysCancelled(s: Mux, a: Action, t: nat)
    requires At(s, t) && s.tasks[t].phase.Cancelled?
    ensures At(Step(s, a), t) && Step(s, a).tasks[t] == s.tasks[t]
  {
    hide Deliver, RecordFatal, CommandBatch, Kills, Without, IdsOf, OpTyped, SerializableAll, NewEntries, PackEach, FirstFree,
         StepPickUp, StepPrepare, StepCancel;
    match a
    case Prepare(u) => if At(s, u) && s.tasks[u].phase.Entered? { PrepareMovesOne(s, u); }
    case PickUp(u) => if At(s, u) && s.tasks[u].phase.Polling? { PickUpMovesOne(s, u); }
    case Cancel(u) => if At(s, u) { CancelMovesOne(s, u); }
    case _ =>
  }

  /** A cancelled command's slot is never handed out again. */
  lemma {:induction false} CancelledKeepsItsSlot(actions: seq<Action>, more: seq<Action>, t: nat)
    requires t < |Run(actions).tasks| && Run(actions).tasks[t].phase.Cancelled? && Run(actions).tasks[t].slot.Some?
    ensures var s, r := Run(actions), Run(actions + more);
            && t < |r.tasks| && r.tasks[t] == s.tasks[t] && s.tasks[t].slot.value in r.slots
            && forall u :: 0 <= u < |r.tasks| && u != t && Reserved(r.tasks[u]) ==> r.tasks[u].slot != s.tasks[t].slot
    decreases |more|
  {
    hide Step;
    if more == [] {
      assert actions + more == actions;
    } else {
      var init := more[..|more| - 1];
      CancelledKeepsItsSlot(actions, init, t);
      CancelledStaysCancelled(Run(actions + init), more[|more| - 1], t);
      assert (actions + more)[..|actions + more| - 1] == actions + init;
    }
    CommandsHoldDistinctSlots(actions + more);
  }
}
