/**
  Many callers sharing one LTX connection, from the return of `connect` to `disconnect`, as a step
  system: every interleaving of the callers' own steps, of partial writes, failures and
  cancellations, and of the poll task's deliveries is one list of actions.
 */
module Multiplexer {
  import opened Bytes
  import opened Stream
  import opened Results
  import opened Requests
  import opened Dispatch
  import opened Slots

  /** What a caller asks of the channel. */
  datatype Op =
    | RunCommand(command: bytes, cwd: Option<bytes>, env: seq<(bytes, bytes)>)
    | PingPeer
    | FetchFile(path: bytes)
    | KillInFlight

  /** Where a caller stands; `first` is the id of its first registered request. */
  datatype Phase =
    | Entered                                            // found the channel active
    | Ready                                              // requests built; slot taken, if one is needed
    | Queued                                             // passed the first checks, waits for the write lock
    | Holding                                            // has the write lock, not desynchronised
    | Writing(first: nat, rest: bytes)                   // registered, send guard armed
    | Aborting(first: nat, cancelled: bool)              // guard dropped, write lock not released yet
    | Committed(first: nat)                              // guard committed, write lock not released yet
    | Polling(first: nat)                                // polls for its replies
    | Answered(first: nat, replies: seq<Reply>)          // has all replies, slot not released yet
    | Failed(sent: Option<nat>)                          // has an error, slot not released yet
    | Returned(answer: Option<seq<Reply>>, sent: Option<nat>)
    | Cancelled(sent: Option<nat>)                       // dropped: nothing more happens on its behalf

  datatype Task = Task(op: Op, slot: Option<byte>, reqs: seq<Request>, phase: Phase)

  /**
    Connection and channel state. `issued` lists every registered request as it was when registered,
    by id; `owners` the task that registered it; `collected` the ids whose reply was picked up.
   */
  datatype Mux = Mux(
    book: Book, nextId: nat, running: bool, desynced: bool, writer: Option<nat>, wire: bytes,
    slots: seq<byte>, tasks: seq<Task>,
    issued: seq<Request>, owners: seq<nat>, collected: set<nat>)

  datatype Action =
    | Enter(op: Op)
    | Prepare(t: nat)
    | Admit(t: nat)
    | Acquire(t: nat)
    | Register(t: nat)
    | Write(t: nat, count: nat)
    | FailWrite(t: nat)
    | Commit(t: nat)
    | Unlock(t: nat)
    | PickUp(t: nat)
    | Release(t: nat)
    | Cancel(t: nat)
    | Receive(msg: Frame, locked: bool)
    | PollEnds(message: Option<Fatal>, locked: bool)

  // ---------------------------------------------------------------- the requests of an operation

  function EnvRequests(slot: byte, env: seq<(bytes, bytes)>): Result<seq<Request>, Fault> {
    if env == [] then Ok([]) else
    match NewEnv(Some(slot), env[0].0, env[0].1)
    case Err(e) => Err(e)
    case Ok(r) =>
      match EnvRequests(slot, env[1..])
      case Err(e) => Err(e)
      case Ok(rs) => Ok([r] + rs)
  }

  function CwdRequests(slot: byte, cwd: Option<bytes>): Result<seq<Request>, Fault> {
    match cwd
    case None => Ok([])
    case Some(path) =>
      match NewCwd(Some(slot), path)
      case Err(e) => Err(e)
      case Ok(r) => Ok([r])
  }

  /** The batch of a command: its working directory, its variables, and last the EXEC itself. */
  function CommandBatch(slot: byte, op: Op): Result<seq<Request>, Fault>
    requires op.RunCommand?
  {
    match CwdRequests(slot, op.cwd)
    case Err(e) => Err(e)
    case Ok(cwd) =>
      match EnvRequests(slot, op.env)
      case Err(e) => Err(e)
      case Ok(env) =>
        match NewExecute(slot, op.command, true)
        case Err(e) => Err(e)
        case Ok(exec) => Ok(cwd + env + [exec])
  }

  function Kills(slots: seq<byte>): (rs: seq<Request>)
    ensures |rs| == |slots| && forall i :: 0 <= i < |rs| ==> rs[i] == Kill(KillReq(false, slots[i]))
  {
    seq(|slots|, i requires 0 <= i < |slots| => Kill(KillReq(false, slots[i])))
  }

  /** Arguments are UTF-8 strings of a length the format can express. */
  ghost predicate OpTyped(op: Op) {
    match op
    case RunCommand(command, cwd, env) =>
      && Text(command) && (cwd.Some? ==> Text(cwd.value))
      && forall i :: 0 <= i < |env| ==> Text(env[i].0) && Text(env[i].1)
    case FetchFile(path) => Text(path)
    case _ => true
  }

  // ---------------------------------------------------------------- steps

  function Init(): Mux {
    Mux(Book([], map[], None), 0, true, false, None, [], [], [], [], [], {})
  }

  predicate At(s: Mux, t: nat) {
    t < |s.tasks|
  }

  function SetTask(s: Mux, t: nat, task: Task): Mux
    requires At(s, t)
  {
    s.(tasks := s.tasks[t := task])
  }

  function Move(s: Mux, t: nat, phase: Phase): Mux
    requires At(s, t)
  {
    SetTask(s, t, s.tasks[t].(phase := phase))
  }

  ghost function StepEnter(s: Mux, op: Op): Mux {
    if s.running && OpTyped(op) && (op.RunCommand? ==> op.command != []) && (op.FetchFile? ==> op.path != [])
    then s.(tasks := s.tasks + [Task(op, None, [], Entered)])
    else s
  }

  /** Takes a slot for a command and builds the requests; nothing is sent for an empty kill list. */
  function StepPrepare(s: Mux, t: nat): Mux
    requires At(s, t) && s.tasks[t].phase.Entered?
  {
    var task := s.tasks[t];
    match task.op
    case RunCommand(_, _, _) =>
      (match FirstFree(s.slots)
       case None => Move(s, t, Failed(None))
       case Some(slot) =>
         var r := s.(slots := s.slots + [slot]);
         match CommandBatch(slot, task.op)
         case Err(_) => SetTask(r, t, task.(slot := Some(slot), phase := Failed(None)))
         case Ok(reqs) => SetTask(r, t, task.(slot := Some(slot), reqs := reqs, phase := Ready)))
    case PingPeer => SetTask(s, t, task.(reqs := [Ping(PingReq(false, false))], phase := Ready))
    case FetchFile(path) => SetTask(s, t, task.(reqs := [GetFile(GetFileReq(false, path, []))], phase := Ready))
    case KillInFlight =>
      if s.slots == [] then Move(s, t, Returned(None, None))
      else SetTask(s, t, task.(reqs := Kills(s.slots), phase := Ready))
  }

  function StepAdmit(s: Mux, t: nat): Mux
    requires At(s, t) && s.tasks[t].phase.Ready?
  {
    Move(s, t, if !s.running || s.desynced then Failed(None) else Queued)
  }

  function StepAcquire(s: Mux, t: nat): Mux
    requires At(s, t) && s.tasks[t].phase.Queued? && s.writer.None?
  {
    if s.desynced then Move(s, t, Failed(None)) else Move(s.(writer := Some(t)), t, Holding)
  }

  /** Files the whole batch, or gives the write lock back with an error. */
  ghost function StepRegister(s: Mux, t: nat): Mux
    requires At(s, t) && s.tasks[t].phase.Holding? && SerializableAll(s.tasks[t].reqs)
  {
    var reqs := s.tasks[t].reqs;
    if s.book.fatal.Some? || s.nextId + |reqs| > MAX_ID
    then Move(s.(writer := None), t, Failed(None))
    else
      Move(s.(book := s.book.(pending := s.book.pending + NewEntries(s.nextId, reqs)),
              nextId := s.nextId + |reqs|,
              issued := s.issued + reqs,
              owners := s.owners + seq(|reqs|, i => t)),
           t, Writing(s.nextId, PackEach(reqs)))
  }

  function StepWrite(s: Mux, t: nat, count: nat): Mux
    requires At(s, t) && s.tasks[t].phase.Writing? && count <= |s.tasks[t].phase.rest|
  {
    var w := s.tasks[t].phase;
    Move(s.(wire := s.wire + w.rest[..count]), t, w.(rest := w.rest[count..]))
  }

  /** The guard drops first: the connection is desynchronised while the write lock is still held. */
  function StepFailWrite(s: Mux, t: nat, cancelled: bool): Mux
    requires At(s, t) && s.tasks[t].phase.Writing?
  {
    Move(s.(desynced := true), t, Aborting(s.tasks[t].phase.first, cancelled))
  }

  function StepCommit(s: Mux, t: nat): Mux
    requires At(s, t) && s.tasks[t].phase.Writing?
  {
    Move(s, t, Committed(s.tasks[t].phase.first))
  }

  function StepUnlock(s: Mux, t: nat): Mux
    requires At(s, t) && (s.tasks[t].phase.Committed? || s.tasks[t].phase.Aborting?)
  {
    var r := s.(writer := None);
    match s.tasks[t].phase
    case Aborting(first, cancelled) =>
      Move(r, t, if cancelled then Cancelled(Some(first)) else Failed(Some(first)))
    case _ => Move(r, t, Polling(s.tasks[t].phase.first))
  }

  function Interval(lo: nat, hi: nat): (ids: set<nat>)
    ensures forall id :: id in ids <==> lo <= id < hi
    decreases hi - lo
  {
    if hi <= lo then {} else {lo} + Interval(lo + 1, hi)
  }

  function IdsOf(task: Task, first: nat): set<nat> {
    Interval(first, first + |task.reqs|)
  }

  /** One look at the replies: an error if the connection is gone, all replies if all are there. */
  function StepPickUp(s: Mux, t: nat): Mux
    requires At(s, t) && s.tasks[t].phase.Polling?
  {
    var task := s.tasks[t];
    var first := task.phase.first;
    var ids := IdsOf(task, first);
    if s.book.fatal.Some? || s.desynced || !s.running then Move(s, t, Failed(Some(first)))
    else if ids <= s.book.replies.Keys then
      var picked := seq(|task.reqs|, i requires 0 <= i < |task.reqs| =>
        assert first + i in ids; s.book.replies[first + i]);
      Move(s.(book := s.book.(replies := s.book.replies - ids), collected := s.collected + ids),
           t, Answered(first, picked))
    else s
  }

  /** The caller returns; a command's slot goes back to the pool. */
  function StepRelease(s: Mux, t: nat): Mux
    requires At(s, t) && (s.tasks[t].phase.Failed? || s.tasks[t].phase.Answered?)
  {
    var task := s.tasks[t];
    var r := if task.slot.Some? then s.(slots := Without(s.slots, task.slot.value)) else s;
    match task.phase
    case Answered(first, replies) => Move(r, t, Returned(Some(replies), Some(first)))
    case _ => Move(r, t, Returned(None, task.phase.sent))
  }

  /** The caller's future is dropped: its guard and its lock go, its slot stays reserved. */
  function StepCancel(s: Mux, t: nat): Mux
    requires At(s, t)
  {
    match s.tasks[t].phase
    case Entered | Ready | Queued => Move(s, t, Cancelled(None))
    case Holding => Move(s.(writer := None), t, Cancelled(None))
    case Writing(_, _) => StepFailWrite(s, t, true)
    case Polling(first) => Move(s, t, Cancelled(Some(first)))
    case Answered(first, _) => Move(s, t, Cancelled(Some(first)))
    case _ => s
  }

  function StepReceive(s: Mux, msg: Frame, locked: bool): Mux {
    if s.running then s.(book := Deliver(s.book, msg, locked)) else s
  }

  function StepPollEnds(s: Mux, message: Option<Fatal>, locked: bool): Mux {
    s.(running := false,
       book := if message.Some? then RecordFatal(s.book, message.value, locked) else s.book)
  }

  /** An action that is not enabled changes nothing. */
  ghost function Step(s: Mux, a: Action): Mux {
    match a
    case Enter(op) => StepEnter(s, op)
    case Prepare(t) => if At(s, t) && s.tasks[t].phase.Entered? then StepPrepare(s, t) else s
    case Admit(t) => if At(s, t) && s.tasks[t].phase.Ready? then StepAdmit(s, t) else s
    case Acquire(t) => if At(s, t) && s.tasks[t].phase.Queued? && s.writer.None? then StepAcquire(s, t) else s
    case Register(t) =>
      if At(s, t) && s.tasks[t].phase.Holding? && SerializableAll(s.tasks[t].reqs) then StepRegister(s, t) else s
    case Write(t, count) =>
      if At(s, t) && s.tasks[t].phase.Writing? && 0 < count <= |s.tasks[t].phase.rest| then StepWrite(s, t, count) else s
    case FailWrite(t) =>
      if At(s, t) && s.tasks[t].phase.Writing? && s.tasks[t].phase.rest != [] then StepFailWrite(s, t, false) else s
    case Commit(t) => if At(s, t) && s.tasks[t].phase.Writing? && s.tasks[t].phase.rest == [] then StepCommit(s, t) else s
    case Unlock(t) => if At(s, t) && (s.tasks[t].phase.Committed? || s.tasks[t].phase.Aborting?) then StepUnlock(s, t) else s
    case PickUp(t) => if At(s, t) && s.tasks[t].phase.Polling? then StepPickUp(s, t) else s
    case Release(t) => if At(s, t) && (s.tasks[t].phase.Failed? || s.tasks[t].phase.Answered?) then StepRelease(s, t) else s
    case Cancel(t) => if At(s, t) then StepCancel(s, t) else s
    case Receive(msg, locked) => StepReceive(s, msg, locked)
    case PollEnds(message, locked) => if s.running then StepPollEnds(s, message, locked) else s
  }

  ghost function RunFrom(s: Mux, actions: seq<Action>): Mux
    decreases |actions|
  {
    if actions == [] then s else Step(RunFrom(s, actions[..|actions| - 1]), actions[|actions| - 1])
  }

  /** The state after a list of actions on a fresh connection; every reachable state is one of these. */
  ghost function Run(actions: seq<Action>): Mux {
    RunFrom(Init(), actions)
  }
}
