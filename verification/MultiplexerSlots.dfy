/** Execution slots: who holds which, and why two EXEC requests never wait on the same one. */
module MultiplexerSlots {
  import opened Bytes
  import opened Results
  import opened Requests
  import opened Dispatch
  import opened Slots
  import opened Multiplexer
  import opened MultiplexerOwners

  /** A command's slot is its own until it returns; a cancelled command never gives it back. */
  predicate Reserved(task: Task) {
    task.slot.Some? && !task.phase.Returned?
  }

  ghost predicate SlotInv(tasks: seq<Task>, slots: seq<byte>) {
    && NoDuplicates(slots)
    && (forall slot :: slot in slots ==> slot < MAX_SLOTS)
    && (forall t :: 0 <= t < |tasks| && Reserved(tasks[t]) ==> tasks[t].slot.value in slots)
    && (forall t, u :: 0 <= t < u < |tasks| && Reserved(tasks[t]) && Reserved(tasks[u]) ==>
          tasks[t].slot != tasks[u].slot)
  }

  /** No caller past the first checks will register anything more for `slot`. */
  ghost predicate Shut(tasks: seq<Task>, slot: byte, fatal: bool, desynced: bool, running: bool) {
    fatal || desynced ||
    (!running && forall u :: 0 <= u < |tasks| && Reserved(tasks[u]) && tasks[u].slot == Some(slot) ==>
       !tasks[u].phase.Queued? && !tasks[u].phase.Holding?)
  }

  /** No two of these requests are EXECs on the same slot. */
  ghost predicate SlotsDistinct(waiting: set<nat>, issued: seq<Request>)
    requires forall id :: id in waiting ==> id < |issued|
  {
    forall i, j :: i in waiting && j in waiting && i != j && issued[i].Execute? && issued[j].Execute? ==>
      issued[i].exec.slot != issued[j].exec.slot
  }

  /** The command behind a pending EXEC still has the slot, or nobody can register for it any more. */
  ghost predicate ExecHeld(tasks: seq<Task>, owner: nat, slot: byte, fatal: bool, desynced: bool, running: bool)
    requires owner < |tasks|
  {
    tasks[owner].slot == Some(slot) && (Reserved(tasks[owner]) || Shut(tasks, slot, fatal, desynced, running))
  }

  /** `waiting` are the ids of the pending requests. */
  ghost predicate ExecInv(tasks: seq<Task>, waiting: set<nat>, owners: seq<nat>, issued: seq<Request>,
                          fatal: bool, desynced: bool, running: bool) {
    && |owners| == |issued|
    && (forall id :: id in waiting ==> id < |owners| && owners[id] < |tasks|)
    && (forall id :: id in waiting && issued[id].Execute? ==>
          ExecHeld(tasks, owners[id], issued[id].exec.slot, fatal, desynced, running))
    && SlotsDistinct(waiting, issued)
    && (forall t :: 0 <= t < |tasks| && tasks[t].phase.Failed? && tasks[t].phase.sent.Some? ==>
          fatal || desynced || !running)
  }

  // ---------------------------------------------------------------- slots

  lemma SlotsAfterMove(tasks: seq<Task>, t: nat, task: Task, slots: seq<byte>)
    requires SlotInv(tasks, slots) && t < |tasks|
    requires Reserved(task) ==> Reserved(tasks[t]) && task.slot == tasks[t].slot
    ensures SlotInv(tasks[t := task], slots)
  {}

  lemma SlotsAfterEnter(tasks: seq<Task>, task: Task, slots: seq<byte>)
    requires SlotInv(tasks, slots) && !Reserved(task)
    ensures SlotInv(tasks + [task], slots)
  {}

  lemma SlotsAfterReserve(tasks: seq<Task>, t: nat, task: Task, slots: seq<byte>, slot: byte)
    requires SlotInv(tasks, slots) && t < |tasks| && slot !in slots && slot < MAX_SLOTS
    requires !Reserved(tasks[t]) && task.slot == Some(slot)
    ensures SlotInv(tasks[t := task], slots + [slot])
  {
    var tasks' := tasks[t := task];
    forall u | 0 <= u < |tasks'| && Reserved(tasks'[u]) ensures tasks'[u].slot.value in slots + [slot] {
      if u != t {
        assert tasks[u].slot.value in slots;
      }
    }
  }

  lemma SlotsAfterReturn(tasks: seq<Task>, t: nat, task: Task, slots: seq<byte>)
    requires SlotInv(tasks, slots) && t < |tasks|
    requires Reserved(tasks[t]) && !Reserved(task)
    ensures SlotInv(tasks[t := task], Without(slots, tasks[t].slot.value))
  {
    WithoutIsGone(slots, tasks[t].slot.value);
  }

  // ---------------------------------------------------------------- pending EXEC requests

  /** The caller moves on, keeping its slot, and does not newly pass the first checks. */
  lemma ExecAfterMove(tasks: seq<Task>, t: nat, task: Task, waiting: set<nat>, owners: seq<nat>, issued: seq<Request>,
                      fatal: bool, desynced: bool, running: bool)
    requires ExecInv(tasks, waiting, owners, issued, fatal, desynced, running) && t < |tasks|
    requires task.slot == tasks[t].slot && (Reserved(tasks[t]) <==> Reserved(task))
    requires task.phase.Queued? ==> running
    requires task.phase.Holding? ==> tasks[t].phase.Queued?
    requires task.phase.Failed? && task.phase.sent.Some? ==> fatal || desynced || !running
    ensures ExecInv(tasks[t := task], waiting, owners, issued, fatal, desynced, running)
  {
    var tasks' := tasks[t := task];
    forall id | id in waiting && issued[id].Execute?
      ensures ExecHeld(tasks', owners[id], issued[id].exec.slot, fatal, desynced, running)
    {
      assert ExecHeld(tasks, owners[id], issued[id].exec.slot, fatal, desynced, running);
    }
  }

  lemma ExecAfterEnter(tasks: seq<Task>, task: Task, waiting: set<nat>, owners: seq<nat>, issued: seq<Request>,
                       fatal: bool, desynced: bool, running: bool)
    requires ExecInv(tasks, waiting, owners, issued, fatal, desynced, running)
    requires task.phase.Entered?
    ensures ExecInv(tasks + [task], waiting, owners, issued, fatal, desynced, running)
  {
    var tasks' := tasks + [task];
    forall id | id in waiting && issued[id].Execute?
      ensures ExecHeld(tasks', owners[id], issued[id].exec.slot, fatal, desynced, running)
    {
      assert ExecHeld(tasks, owners[id], issued[id].exec.slot, fatal, desynced, running);
    }
  }

  /** A caller without registered requests gets, or fails to get, its slot. */
  lemma ExecAfterPrepare(tasks: seq<Task>, t: nat, task: Task, waiting: set<nat>, owners: seq<nat>, issued: seq<Request>,
                         fatal: bool, desynced: bool, running: bool)
    requires ExecInv(tasks, waiting, owners, issued, fatal, desynced, running) && t < |tasks|
    requires forall id :: id in waiting ==> owners[id] != t
    requires !task.phase.Queued? && !task.phase.Holding?
    requires task.phase.Failed? ==> task.phase.sent.None?
    ensures ExecInv(tasks[t := task], waiting, owners, issued, fatal, desynced, running)
  {
    var tasks' := tasks[t := task];
    forall id | id in waiting && issued[id].Execute?
      ensures ExecHeld(tasks', owners[id], issued[id].exec.slot, fatal, desynced, running)
    {
      assert ExecHeld(tasks, owners[id], issued[id].exec.slot, fatal, desynced, running);
    }
  }

  /** Fewer pending requests, or a connection more broken than before. */
  lemma ExecAfterNews(tasks: seq<Task>, waiting: set<nat>, less: set<nat>, owners: seq<nat>, issued: seq<Request>,
                      fatal: bool, desynced: bool, running: bool, fatal': bool, desynced': bool, running': bool)
    requires ExecInv(tasks, waiting, owners, issued, fatal, desynced, running) && less <= waiting
    requires (fatal ==> fatal') && (desynced ==> desynced') && (running' ==> running)
    ensures ExecInv(tasks, less, owners, issued, fatal', desynced', running')
  {}

  /** Returning with an error: the slot is free again, but nobody can use it on this connection. */
  lemma ExecAfterReturn(tasks: seq<Task>, slots: seq<byte>, t: nat, task: Task, waiting: set<nat>, owners: seq<nat>,
                        issued: seq<Request>, fatal: bool, desynced: bool, running: bool)
    requires ExecInv(tasks, waiting, owners, issued, fatal, desynced, running) && t < |tasks|
    requires SlotInv(tasks, slots)
    requires !tasks[t].phase.Returned? && task.slot == tasks[t].slot && task.phase.Returned?
    requires fatal || desynced || !running || forall id :: id in waiting ==> owners[id] != t
    ensures ExecInv(tasks[t := task], waiting, owners, issued, fatal, desynced, running)
  {
    var tasks' := tasks[t := task];
    forall id | id in waiting && issued[id].Execute?
      ensures ExecHeld(tasks', owners[id], issued[id].exec.slot, fatal, desynced, running)
    {
      assert ExecHeld(tasks, owners[id], issued[id].exec.slot, fatal, desynced, running);
      if owners[id] == t && tasks[t].slot.Some? {
        forall u | 0 <= u < |tasks'| && Reserved(tasks'[u])
          ensures tasks'[u].slot != tasks[t].slot
        {
          if u < t {
            assert tasks[u].slot != tasks[t].slot;
          }
          if u > t {
            assert tasks[u].slot != tasks[t].slot;
          }
        }
      }
    }
  }

  /** While a command holds its slot and can still register, no pending EXEC uses that slot. */
  lemma OwnSlotIsFree(tasks: seq<Task>, slots: seq<byte>, t: nat, waiting: set<nat>, owners: seq<nat>,
                      issued: seq<Request>, running: bool)
    requires ExecInv(tasks, waiting, owners, issued, false, false, running) && t < |tasks|
    requires SlotInv(tasks, slots) && tasks[t].phase.Holding?
    requires forall id :: id in waiting ==> owners[id] != t
    ensures forall id :: id in waiting && issued[id].Execute? ==> tasks[t].slot != Some(issued[id].exec.slot)
  {
    forall id | id in waiting && issued[id].Execute?
      ensures tasks[t].slot != Some(issued[id].exec.slot)
    {
      assert ExecHeld(tasks, owners[id], issued[id].exec.slot, false, false, running);
    }
  }

  /** What a caller's registered EXEC requests look like: at most one, on its own slot. */
  ghost predicate OneExec(reqs: seq<Request>, slot: Option<byte>) {
    forall i :: 0 <= i < |reqs| && reqs[i].Execute? ==> i == |reqs| - 1 && slot == Some(reqs[i].exec.slot)
  }

  lemma BatchHasOneExec(task: Task)
    requires TaskInv(task)
    ensures OneExec(task.reqs, task.slot)
  {
    hide Serializable, OpTyped, Unanswered;
  }

  /** Registering a batch on a live connection keeps pending EXEC requests on distinct slots. */
  lemma ExecAfterRegister(tasks: seq<Task>, slots: seq<byte>, t: nat, phase: Phase, waiting: set<nat>,
                          owners: seq<nat>, issued: seq<Request>, running: bool)
    requires ExecInv(tasks, waiting, owners, issued, false, false, running) && t < |tasks|
    requires SlotInv(tasks, slots) && OneExec(tasks[t].reqs, tasks[t].slot) && tasks[t].phase.Holding? && phase.Writing?
    requires forall id :: id in waiting ==> owners[id] != t
    ensures ExecInv(tasks[t := tasks[t].(phase := phase)],
                    waiting + Interval(|issued|, |issued| + |tasks[t].reqs|),
                    owners + seq(|tasks[t].reqs|, i => t), issued + tasks[t].reqs, false, false, running)
  {
    hide SlotInv, Shut, SlotsDistinct, ExecHeld, OneExec, Interval;
    OwnSlotIsFree(tasks, slots, t, waiting, owners, issued, running);
    var task := tasks[t].(phase := phase);
    ExecAfterMove(tasks, t, task, waiting, owners, issued, false, false, running);
    hide ExecInv;
    NewExecsHeld(tasks[t := task], t, waiting, owners, issued, running);
  }

  /** Adding a batch to the queue of a caller that holds its slot. */
  lemma NewExecsHeld(tasks: seq<Task>, t: nat, waiting: set<nat>, owners: seq<nat>, issued: seq<Request>, running: bool)
    requires ExecInv(tasks, waiting, owners, issued, false, false, running) && t < |tasks|
    requires OneExec(tasks[t].reqs, tasks[t].slot) && !tasks[t].phase.Returned?
    requires forall id :: id in waiting && issued[id].Execute? ==> tasks[t].slot != Some(issued[id].exec.slot)
    ensures ExecInv(tasks, waiting + Interval(|issued|, |issued| + |tasks[t].reqs|),
                    owners + seq(|tasks[t].reqs|, i => t), issued + tasks[t].reqs, false, false, running)
  {
    hide Shut;
    var reqs, n := tasks[t].reqs, |issued|;
    var owners', issued' := owners + seq(|reqs|, i => t), issued + reqs;
    var waiting' := waiting + Interval(n, n + |reqs|);
    NewExecsDiffer(waiting, issued, reqs, tasks[t].slot);
    hide SlotsDistinct;
    forall id | id in waiting' && issued'[id].Execute?
      ensures ExecHeld(tasks, owners'[id], issued'[id].exec.slot, false, false, running)
    {
      if id < n {
        assert ExecHeld(tasks, owners[id], issued[id].exec.slot, false, false, running);
      } else {
        assert issued'[id] == reqs[id - n] && owners'[id] == t;
      }
    }
  }

  lemma NewExecsDiffer(waiting: set<nat>, issued: seq<Request>, reqs: seq<Request>, slot: Option<byte>)
    requires forall id :: id in waiting ==> id < |issued|
    requires forall id :: id in waiting && issued[id].Execute? ==> slot != Some(issued[id].exec.slot)
    requires SlotsDistinct(waiting, issued) && OneExec(reqs, slot)
    ensures SlotsDistinct(waiting + Interval(|issued|, |issued| + |reqs|), issued + reqs)
  {
    var n, all := |issued|, issued + reqs;
    var waiting' := waiting + Interval(n, n + |reqs|);
    forall i, j | i in waiting' && j in waiting' && i != j && all[i].Execute? && all[j].Execute?
      ensures all[i].exec.slot != all[j].exec.slot
    {
      if i >= n {
        assert all[i] == reqs[i - n];
      }
      if j >= n {
        assert all[j] == reqs[j - n];
      }
    }
  }
}
