/** What holds after every list of actions on a fresh connection. */
module MultiplexerRuns {
  import opened Stream
  import opened Results
  import opened Requests
  import opened Dispatch
  import opened Slots
  import opened Multiplexer
  import opened MultiplexerBook
  import opened MultiplexerOwners
  import opened MultiplexerWire
  import opened MultiplexerSlots

  ghost predicate CallersInv(s: Mux) {
    && s.nextId == |s.issued|
    && BookInv(s.book, s.issued, s.collected)
    && TasksInv(s.tasks)
    && OwnInv(s.tasks, s.owners, s.issued, s.collected)
    && SlotInv(s.tasks, s.slots)
    && ExecInv(s.tasks, Ids(s.book.pending), s.owners, s.issued, s.book.fatal.Some?, s.desynced, s.running)
  }

  ghost predicate Inv(s: Mux) {
    CallersInv(s) && WireInv(s.tasks, s.writer, s.desynced, s.wire, s.issued)
  }

  // ---------------------------------------------------------------- one caller moves

  /** A caller goes on with the batch and the slot it has. */
  predicate Onward(task: Task, phase: Phase) {
    && First(phase) == First(task.phase)
    && (Over(task.phase) ==> Over(phase))
    && (Gathered(phase).Some? ==> Gathered(phase) == Gathered(task.phase))
    && !phase.Entered? && !phase.Returned? && !task.phase.Returned?
    && (task.reqs != [] || BeforeRequests(phase))
  }

  lemma TaskMoves(tasks: seq<Task>, t: nat, phase: Phase)
    requires TasksInv(tasks) && t < |tasks|
    requires !phase.Entered? && (tasks[t].reqs != [] || BeforeRequests(phase))
    ensures TaskInv(tasks[t]) && TasksInv(tasks[t := tasks[t].(phase := phase)])
  {
    hide BatchShape, OpTyped, Unanswered, Serializable;
  }

  lemma MoveKeepsCallers(s: Mux, t: nat, phase: Phase)
    requires CallersInv(s) && At(s, t) && Onward(s.tasks[t], phase)
    requires phase.Queued? ==> s.running
    requires phase.Holding? ==> s.tasks[t].phase.Queued?
    requires phase.Failed? && phase.sent.Some? ==> s.book.fatal.Some? || s.desynced || !s.running
    ensures CallersInv(Move(s, t, phase))
  {
    hide BookInv, TasksInv, OwnInv, SlotInv, ExecInv, Ids, TaskInv;
    var task := s.tasks[t].(phase := phase);
    TaskMoves(s.tasks, t, phase);
    OwnersAfterMove(s.tasks, t, task, s.owners, s.issued, s.collected);
    SlotsAfterMove(s.tasks, t, task, s.slots);
    ExecAfterMove(s.tasks, t, task, Ids(s.book.pending), s.owners, s.issued, s.book.fatal.Some?, s.desynced, s.running);
  }

  lemma LockOf(s: Mux, t: nat)
    requires Inv(s) && At(s, t)
    ensures HoldsLock(s.tasks[t].phase) <==> s.writer == Some(t)
    ensures s.writer == Some(t) && !s.tasks[t].phase.Aborting? ==> !s.desynced
    ensures s.tasks[t].phase.Aborting? ==> s.desynced
    ensures s.nextId == |s.issued|
    ensures s.tasks[t].phase.Entered? || s.tasks[t].reqs != [] || BeforeRequests(s.tasks[t].phase)
  {
    hide CallersInv, PackEach, BookInv, OwnInv, SlotInv, ExecInv, Serializable, Unanswered;
    TasksOf(s);
    assert TaskInv(s.tasks[t]) by { TaskOf(s.tasks, t); }
  }

  lemma TasksOf(s: Mux)
    requires CallersInv(s)
    ensures TasksInv(s.tasks) && s.nextId == |s.issued|
  {}

  /** A caller outside the lock moves on and stays outside it. */
  lemma MoveKeeps(s: Mux, t: nat, phase: Phase)
    requires Inv(s) && At(s, t) && Onward(s.tasks[t], phase)
    requires !HoldsLock(s.tasks[t].phase) && !HoldsLock(phase)
    requires phase.Queued? ==> s.running
    requires phase.Failed? && phase.sent.Some? ==> s.book.fatal.Some? || s.desynced || !s.running
    ensures Inv(Move(s, t, phase))
  {
    hide CallersInv, WireInv;
    MoveKeepsCallers(s, t, phase);
    WireAfterMove(s.tasks, t, s.tasks[t].(phase := phase), s.writer, s.desynced, s.wire, s.issued);
  }

  lemma AdmitKeeps(s: Mux, t: nat)
    requires Inv(s) && At(s, t) && s.tasks[t].phase.Ready?
    ensures Inv(StepAdmit(s, t))
  {
    hide Inv;
    LockOf(s, t);
    MoveKeeps(s, t, if !s.running || s.desynced then Failed(None) else Queued);
  }

  lemma AcquireKeeps(s: Mux, t: nat)
    requires Inv(s) && At(s, t) && s.tasks[t].phase.Queued? && s.writer.None?
    ensures Inv(StepAcquire(s, t))
  {
    hide WireInv, BookInv, TasksInv, OwnInv, SlotInv, ExecInv, Ids;
    LockOf(s, t);
    if s.desynced {
      MoveKeeps(s, t, Failed(None));
    } else {
      MoveKeepsCallers(s, t, Holding);
      WireAfterAcquire(s.tasks, t, s.wire, s.issued);
    }
  }

  // ---------------------------------------------------------------- under the write lock

  lemma ReleaseLockKeeps(s: Mux, t: nat, phase: Phase)
    requires Inv(s) && At(s, t) && s.writer == Some(t) && Onward(s.tasks[t], phase)
    requires !s.tasks[t].phase.Writing? && !HoldsLock(phase) && !phase.Queued?
    requires phase.Failed? && phase.sent.Some? ==> s.book.fatal.Some? || s.desynced || !s.running
    ensures Inv(Move(s.(writer := None), t, phase))
  {
    hide WireInv, BookInv, TasksInv, OwnInv, SlotInv, ExecInv, Ids;
    MoveKeepsCallers(s, t, phase);
    WireAfterRelease(s.tasks, t, phase, s.desynced, s.wire, s.issued);
  }

  lemma RegisterKeeps(s: Mux, t: nat)
    requires Inv(s) && At(s, t) && s.tasks[t].phase.Holding? && SerializableAll(s.tasks[t].reqs)
    ensures Inv(StepRegister(s, t))
  {
    hide CallersInv, WireInv, SerializableAll, HoldsLock;
    assert HoldsLock(s.tasks[t].phase) by { HoldingHolds(s.tasks[t].phase); }
    LockOf(s, t);
    if s.book.fatal.Some? || s.nextId + |s.tasks[t].reqs| > MAX_ID {
      HoldingHolds(Failed(None));
      ReleaseLockKeeps(s, t, Failed(None));
    } else {
      BatchFiled(s, t);
      BatchOnWire(s, t);
    }
  }

  lemma HoldingHolds(p: Phase)
    ensures HoldsLock(p) <==> p.Holding? || p.Writing? || p.Aborting? || p.Committed?
  {}

  lemma BatchOnWire(s: Mux, t: nat)
    requires At(s, t) && s.tasks[t].phase.Holding? && SerializableAll(s.tasks[t].reqs)
    requires s.book.fatal.None? && s.nextId + |s.tasks[t].reqs| <= MAX_ID
    requires s.nextId == |s.issued| && s.writer == Some(t) && !s.desynced
    requires WireInv(s.tasks, s.writer, s.desynced, s.wire, s.issued)
    ensures var r := StepRegister(s, t); WireInv(r.tasks, r.writer, r.desynced, r.wire, r.issued)
  {
    hide WireInv, SerializableAll, PackEach, NewEntries;
    WireAfterRegister(s.tasks, t, s.wire, s.issued);
  }

  lemma BatchIsNew(task: Task)
    requires TaskInv(task)
    ensures forall i :: 0 <= i < |task.reqs| ==> Unfed(task.reqs[i])
  {
    hide Unfed;
  }

  lemma BatchFiled(s: Mux, t: nat)
    requires CallersInv(s) && At(s, t) && s.tasks[t].phase.Holding? && SerializableAll(s.tasks[t].reqs)
    requires s.book.fatal.None? && !s.desynced && s.nextId + |s.tasks[t].reqs| <= MAX_ID
    requires s.tasks[t].reqs != []
    ensures CallersInv(StepRegister(s, t))
  {
    hide BookInv, OwnInv, SlotInv, ExecInv, Ids, TasksInv, TaskInv, OneExec, Serializable, SerializableAll, PackEach,
         Interval, NewEntries, Unfed;
    NothingIssuedBy(s, t);
    var task, reqs := s.tasks[t], s.tasks[t].reqs;
    var phase := Writing(s.nextId, PackEach(reqs));
    TaskMoves(s.tasks, t, phase);
    BatchIsNew(task);
    BatchHasOneExec(task);
    RegisterKeepsBook(s.book, s.issued, s.collected, reqs);
    OwnersAfterRegister(s.tasks, t, phase, s.owners, s.issued, s.collected);
    SlotsAfterMove(s.tasks, t, task.(phase := phase), s.slots);
    ExecAfterRegister(s.tasks, s.slots, t, phase, Ids(s.book.pending), s.owners, s.issued, s.running);
    assert |s.issued + reqs| == |s.issued| + |reqs|;
  }

  /** A caller without a registered batch owns no pending request. */
  lemma NothingIssuedBy(s: Mux, t: nat)
    requires CallersInv(s) && At(s, t) && First(s.tasks[t].phase).None?
    ensures forall id :: id in Ids(s.book.pending) ==> id < |s.owners| && s.owners[id] != t
  {
    hide BookInv, TasksInv, SlotInv, Ids, Serializable, HasAnswers, OwnsItsIds, SlotsDistinct, ExecHeld;
    forall id | id in Ids(s.book.pending) ensures id < |s.owners| && s.owners[id] != t {
      assert id < |s.owners|;
      assert Covers(s.tasks[s.owners[id]], id);
    }
  }

  lemma WriteKeeps(s: Mux, t: nat, count: nat)
    requires Inv(s) && At(s, t) && s.tasks[t].phase.Writing? && count <= |s.tasks[t].phase.rest|
    ensures Inv(StepWrite(s, t, count))
  {
    hide WireInv, BookInv, TasksInv, OwnInv, SlotInv, ExecInv, Ids;
    LockOf(s, t);
    var w := s.tasks[t].phase;
    MoveKeepsCallers(s, t, w.(rest := w.rest[count..]));
    WireAfterWrite(s.tasks, t, count, s.wire, s.issued);
  }

  lemma FailWriteKeeps(s: Mux, t: nat, cancelled: bool)
    requires Inv(s) && At(s, t) && s.tasks[t].phase.Writing?
    ensures Inv(StepFailWrite(s, t, cancelled))
  {
    hide WireInv, BookInv, TasksInv, OwnInv, SlotInv, ExecInv, Ids;
    LockOf(s, t);
    var phase := Aborting(s.tasks[t].phase.first, cancelled);
    MoveKeepsCallers(s, t, phase);
    var waiting, fatal := Ids(s.book.pending), s.book.fatal.Some?;
    ExecAfterNews(Move(s, t, phase).tasks, waiting, waiting, s.owners, s.issued,
                  fatal, s.desynced, s.running, fatal, true, s.running);
    WireAfterAbort(s.tasks, t, cancelled, s.wire, s.issued);
  }

  lemma CommitKeeps(s: Mux, t: nat)
    requires Inv(s) && At(s, t) && s.tasks[t].phase.Writing? && s.tasks[t].phase.rest == []
    ensures Inv(StepCommit(s, t))
  {
    hide WireInv, BookInv, TasksInv, OwnInv, SlotInv, ExecInv, Ids;
    LockOf(s, t);
    MoveKeepsCallers(s, t, Committed(s.tasks[t].phase.first));
    WireAfterCommit(s.tasks, t, s.wire, s.issued);
  }

  lemma UnlockKeeps(s: Mux, t: nat)
    requires Inv(s) && At(s, t) && (s.tasks[t].phase.Committed? || s.tasks[t].phase.Aborting?)
    ensures Inv(StepUnlock(s, t))
  {
    hide Inv;
    LockOf(s, t);
    match s.tasks[t].phase
    case Aborting(first, cancelled) =>
      ReleaseLockKeeps(s, t, if cancelled then Cancelled(Some(first)) else Failed(Some(first)));
    case Committed(first) =>
      ReleaseLockKeeps(s, t, Polling(first));
  }

  // ---------------------------------------------------------------- entering and leaving

  lemma EnterKeeps(s: Mux, op: Op)
    requires Inv(s)
    ensures Inv(StepEnter(s, op))
  {
    hide WireInv, BookInv, OwnInv, SlotInv, ExecInv, Ids, OpTyped, Serializable;
    if StepEnter(s, op) != s {
      var task := Task(op, None, [], Entered);
      assert TaskInv(task);
      OwnersAfterEnter(s.tasks, task, s.owners, s.issued, s.collected);
      SlotsAfterEnter(s.tasks, task, s.slots);
      ExecAfterEnter(s.tasks, task, Ids(s.book.pending), s.owners, s.issued, s.book.fatal.Some?, s.desynced, s.running);
      WireAfterEnter(s.tasks, task, s.writer, s.desynced, s.wire, s.issued);
    }
  }

  lemma PrepareShape(s: Mux, t: nat)
    requires At(s, t) && s.tasks[t].phase.Entered? && s.tasks[t].slot.None?
    ensures var r := StepPrepare(s, t);
            && r == s.(tasks := s.tasks[t := r.tasks[t]], slots := r.slots)
            && (r.tasks[t].phase == Ready || r.tasks[t].phase == Failed(None) || r.tasks[t].phase == Returned(None, None))
            && (if r.tasks[t].slot.None? then r.slots == s.slots
                else
                  && r.tasks[t].slot.value < MAX_SLOTS
                  && r.tasks[t].slot.value !in s.slots && r.slots == s.slots + [r.tasks[t].slot.value]
                  && !r.tasks[t].phase.Returned?)
  {
    hide CommandBatch;
  }

  lemma PrepareKeeps(s: Mux, t: nat)
    requires Inv(s) && At(s, t) && s.tasks[t].phase.Entered?
    ensures Inv(StepPrepare(s, t))
  {
    TasksOf(s);
    LockOf(s, t);
    NothingIssuedBy(s, t);
    hide WireInv, BookInv, OwnInv, SlotInv, ExecInv, Ids, OpTyped, TasksInv, BatchShape, Serializable, Unanswered;
    assert s.tasks[t].slot.None? by { TaskOf(s.tasks, t); }
    PrepareShape(s, t);
    PrepareKeepsTask(s, t);
    var r := StepPrepare(s, t);
    hide StepPrepare;
    var task := r.tasks[t];
    OwnersAfterMove(s.tasks, t, task, s.owners, s.issued, s.collected);
    ExecAfterPrepare(s.tasks, t, task, Ids(s.book.pending), s.owners, s.issued, s.book.fatal.Some?, s.desynced, s.running);
    WireAfterMove(s.tasks, t, task, s.writer, s.desynced, s.wire, s.issued);
    if task.slot.None? {
      SlotsAfterMove(s.tasks, t, task, s.slots);
    } else {
      SlotsAfterReserve(s.tasks, t, task, s.slots, task.slot.value);
    }
  }

  lemma PickUpKeeps(s: Mux, t: nat)
    requires Inv(s) && At(s, t) && s.tasks[t].phase.Polling?
    ensures Inv(StepPickUp(s, t))
  {
    hide WireInv, BookInv, OwnInv, SlotInv, ExecInv, Ids, TasksInv, IdsOf;
    LockOf(s, t);
    var task := s.tasks[t];
    var first := task.phase.first;
    var ids := IdsOf(task, first);
    if s.book.fatal.Some? || s.desynced || !s.running {
      hide Inv;
      MoveKeeps(s, t, Failed(Some(first)));
    } else if ids <= s.book.replies.Keys {
      BatchPickedUp(s, t);
      WireAfterMove(s.tasks, t, StepPickUp(s, t).tasks[t], s.writer, s.desynced, s.wire, s.issued);
    }
  }

  lemma BatchPickedUp(s: Mux, t: nat)
    requires CallersInv(s) && At(s, t) && s.tasks[t].phase.Polling? && s.tasks[t].reqs != []
    requires !s.book.fatal.Some? && !s.desynced && s.running
    requires IdsOf(s.tasks[t], s.tasks[t].phase.first) <= s.book.replies.Keys
    ensures CallersInv(StepPickUp(s, t))
  {
    var task := s.tasks[t];
    var first := task.phase.first;
    var ids := IdsOf(task, first);
    var replies := StepPickUp(s, t).tasks[t].phase.replies;
    PickedAnswer(s, t);
    hide BookInv, OwnInv, SlotInv, ExecInv, Ids, TasksInv, TaskInv, Answers, IdsOf;
    var task' := task.(phase := Answered(first, replies));
    TaskMoves(s.tasks, t, task'.phase);
    CollectKeepsBook(s.book, s.issued, s.collected, ids);
    OwnersAfterPickUp(s.tasks, t, replies, s.owners, s.issued, s.collected);
    SlotsAfterMove(s.tasks, t, task', s.slots);
    ExecAfterMove(s.tasks, t, task', Ids(s.book.pending), s.owners, s.issued, s.book.fatal.Some?, s.desynced, s.running);
  }

  /** The replies a caller picks up are the ones filed for its own requests. */
  lemma PickedAnswer(s: Mux, t: nat)
    requires CallersInv(s) && At(s, t) && s.tasks[t].phase.Polling?
    requires !s.book.fatal.Some? && !s.desynced && s.running
    requires IdsOf(s.tasks[t], s.tasks[t].phase.first) <= s.book.replies.Keys
    ensures var replies := StepPickUp(s, t).tasks[t].phase.replies;
            && |replies| == |s.tasks[t].reqs|
            && forall i :: 0 <= i < |replies| ==> Answers(s.tasks[t].reqs[i], replies[i])
  {
    hide Ids, Ascending, Partition, TasksInv, SlotInv, ExecInv, Answers, Typed, HasAnswers, Serializable;
    var task := s.tasks[t];
    var first := task.phase.first;
    assert OwnsItsIds(task, t, s.owners, s.issued);
    var replies := StepPickUp(s, t).tasks[t].phase.replies;
    forall i | 0 <= i < |replies| ensures Answers(task.reqs[i], replies[i]) {
      assert s.issued[first..first + |task.reqs|][i] == task.reqs[i];
      assert first + i in IdsOf(task, first);
      assert Answers(s.issued[first + i], s.book.replies[first + i]);
    }
  }

  lemma ReleaseKeeps(s: Mux, t: nat)
    requires Inv(s) && At(s, t) && (s.tasks[t].phase.Failed? || s.tasks[t].phase.Answered?)
    ensures Inv(StepRelease(s, t))
  {
    hide WireInv, BookInv, OwnInv, SlotInv, ExecInv, Ids, TasksInv, TaskInv, Without;
    LockOf(s, t);
    MayReturn(s, t);
    var task' := StepRelease(s, t).tasks[t];
    TaskMoves(s.tasks, t, task'.phase);
    OwnersAfterMove(s.tasks, t, task', s.owners, s.issued, s.collected);
    ExecAfterReturn(s.tasks, s.slots, t, task', Ids(s.book.pending), s.owners, s.issued, s.book.fatal.Some?, s.desynced, s.running);
    WireAfterMove(s.tasks, t, task', s.writer, s.desynced, s.wire, s.issued);
    if task'.slot.Some? {
      SlotsAfterReturn(s.tasks, t, task', s.slots);
    } else {
      SlotsAfterMove(s.tasks, t, task', s.slots);
    }
  }

  /**
    A caller about to give its slot back has no request pending any more, unless the connection
    already refuses every new registration.
   */
  lemma MayReturn(s: Mux, t: nat)
    requires CallersInv(s) && At(s, t) && (s.tasks[t].phase.Failed? || s.tasks[t].phase.Answered?)
    ensures || s.book.fatal.Some? || s.desynced || !s.running
            || forall id :: id in Ids(s.book.pending) ==> s.owners[id] != t
  {
    var phase := s.tasks[t].phase;
    if First(phase).None? {
      NothingIssuedBy(s, t);
    } else if phase.Answered? {
      hide Ids, Ascending, TasksInv, SlotInv, Typed, TypedReplies, Serializable, OwnsItsIds, SlotsDistinct, ExecHeld;
      assert HasAnswers(s.tasks[t], s.collected);
      forall id | id in Ids(s.book.pending) ensures s.owners[id] != t {
        assert Covers(s.tasks[s.owners[id]], id);
      }
    }
  }

  lemma CancelKeeps(s: Mux, t: nat)
    requires Inv(s) && At(s, t)
    ensures Inv(StepCancel(s, t))
  {
    hide Inv, StepFailWrite;
    LockOf(s, t);
    match s.tasks[t].phase
    case Entered => MoveKeeps(s, t, Cancelled(None));
    case Ready => MoveKeeps(s, t, Cancelled(None));
    case Queued => MoveKeeps(s, t, Cancelled(None));
    case Holding => ReleaseLockKeeps(s, t, Cancelled(None));
    case Writing(_, _) => FailWriteKeeps(s, t, true);
    case Polling(first) => MoveKeeps(s, t, Cancelled(Some(first)));
    case Answered(first, _) => MoveKeeps(s, t, Cancelled(Some(first)));
    case _ =>
  }

  // ---------------------------------------------------------------- the poll task

  lemma ReceiveKeeps(s: Mux, msg: Frame, locked: bool)
    requires Inv(s)
    ensures Inv(StepReceive(s, msg, locked))
  {
    hide WireInv, BookInv, OwnInv, SlotInv, ExecInv, Ids, TasksInv, Deliver;
    DeliverKeepsBook(s.book, msg, locked, s.issued, s.collected);
    var b := Deliver(s.book, msg, locked);
    ExecAfterNews(s.tasks, Ids(s.book.pending), Ids(b.pending), s.owners, s.issued,
                  s.book.fatal.Some?, s.desynced, s.running, b.fatal.Some?, s.desynced, s.running);
  }

  lemma PollEndsKeeps(s: Mux, message: Option<Fatal>, locked: bool)
    requires Inv(s)
    ensures Inv(StepPollEnds(s, message, locked))
  {
    hide WireInv, BookInv, OwnInv, SlotInv, ExecInv, Ids, TasksInv;
    BookOnlyNeedsQueue(s.book, s.issued, s.collected);
    var r := StepPollEnds(s, message, locked);
    ExecAfterNews(s.tasks, Ids(s.book.pending), Ids(s.book.pending), s.owners, s.issued,
                  s.book.fatal.Some?, s.desynced, s.running, r.book.fatal.Some?, s.desynced, false);
  }

  // ---------------------------------------------------------------- every run

  lemma StepKeepsInv(s: Mux, a: Action)
    requires Inv(s)
    ensures Inv(Step(s, a))
  {
    hide Inv, StepEnter, StepPrepare, StepAdmit, StepAcquire, StepRegister, StepWrite, StepFailWrite, StepCommit,
         StepUnlock, StepPickUp, StepRelease, StepCancel, StepReceive, StepPollEnds;
    match a
    case Enter(op) => EnterKeeps(s, op);
    case Prepare(t) => if At(s, t) && s.tasks[t].phase.Entered? { PrepareKeeps(s, t); }
    case Admit(t) => if At(s, t) && s.tasks[t].phase.Ready? { AdmitKeeps(s, t); }
    case Acquire(t) => if At(s, t) && s.tasks[t].phase.Queued? && s.writer.None? { AcquireKeeps(s, t); }
    case Register(t) =>
      if At(s, t) && s.tasks[t].phase.Holding? && SerializableAll(s.tasks[t].reqs) { RegisterKeeps(s, t); }
    case Write(t, count) =>
      if At(s, t) && s.tasks[t].phase.Writing? && 0 < count <= |s.tasks[t].phase.rest| { WriteKeeps(s, t, count); }
    case FailWrite(t) =>
      if At(s, t) && s.tasks[t].phase.Writing? && s.tasks[t].phase.rest != [] { FailWriteKeeps(s, t, false); }
    case Commit(t) =>
      if At(s, t) && s.tasks[t].phase.Writing? && s.tasks[t].phase.rest == [] { CommitKeeps(s, t); }
    case Unlock(t) =>
      if At(s, t) && (s.tasks[t].phase.Committed? || s.tasks[t].phase.Aborting?) { UnlockKeeps(s, t); }
    case PickUp(t) => if At(s, t) && s.tasks[t].phase.Polling? { PickUpKeeps(s, t); }
    case Release(t) =>
      if At(s, t) && (s.tasks[t].phase.Failed? || s.tasks[t].phase.Answered?) { ReleaseKeeps(s, t); }
    case Cancel(t) => if At(s, t) { CancelKeeps(s, t); }
    case Receive(msg, locked) => ReceiveKeeps(s, msg, locked);
    case PollEnds(message, locked) => if s.running { PollEndsKeeps(s, message, locked); }
  }

  lemma FreshBook()
    ensures BookInv(Book([], map[], None), [], {})
  {
    hide Unanswered, Answers;
    assert Interval(0, 0) == {};
  }

  lemma FreshCallers()
    ensures TasksInv([]) && OwnInv([], [], [], {}) && SlotInv([], []) && ExecInv([], {}, [], [], false, false, true)
  {
    hide Serializable, OwnsItsIds, HasAnswers, Covers, ExecHeld, TaskInv;
  }

  lemma FreshWire()
    ensures WireInv([], None, false, [], [])
  {
    hide Serializable;
    assert PackEach([]) == [];
  }

  lemma InitKeeps()
    ensures Inv(Init())
  {
    hide BookInv, TasksInv, OwnInv, SlotInv, ExecInv, WireInv;
    FreshBook();
    FreshCallers();
    FreshWire();
    assert Ids([]) == {};
  }

  lemma {:induction false} EveryRunKeepsInv(actions: seq<Action>)
    ensures Inv(Run(actions))
    decreases |actions|
  {
    hide Inv, Step;
    if actions == [] {
      InitKeeps();
    } else {
      EveryRunKeepsInv(actions[..|actions| - 1]);
      StepKeepsInv(Run(actions[..|actions| - 1]), actions[|actions| - 1]);
    }
  }
}
