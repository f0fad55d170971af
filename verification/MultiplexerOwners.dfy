/** Which caller each registered request belongs to, and what an answered caller has in hand. */
module MultiplexerOwners {
  import opened Bytes
  import opened Results
  import opened Requests
  import opened Dispatch
  import opened Slots
  import opened Multiplexer
  import opened MultiplexerBook

  // ---------------------------------------------------------------- one caller

  /** The id of a caller's first registered request, once its batch is registered. */
  function First(p: Phase): Option<nat> {
    match p
    case Writing(first, _) => Some(first)
    case Aborting(first, _) => Some(first)
    case Committed(first) => Some(first)
    case Polling(first) => Some(first)
    case Answered(first, _) => Some(first)
    case Failed(sent) => sent
    case Returned(_, sent) => sent
    case Cancelled(sent) => sent
    case _ => None
  }

  /** The replies a caller got, if it got them. */
  function Gathered(p: Phase): Option<seq<Reply>> {
    match p
    case Answered(_, replies) => Some(replies)
    case Returned(answer, _) => answer
    case _ => None
  }

  /** A caller that no longer looks at the replies. */
  predicate Over(p: Phase) {
    p.Answered? || p.Failed? || p.Returned? || p.Cancelled?
  }

  predicate BeforeRequests(p: Phase) {
    p.Entered? || (First(p).None? && Over(p))
  }

  /** What the requests ask the peer to do, in order. */
  function OrdersOf(reqs: seq<Request>): (orders: seq<Order>)
    ensures |orders| == |reqs| && forall i :: 0 <= i < |reqs| ==> orders[i] == OrderOf(reqs[i])
  {
    seq(|reqs|, i requires 0 <= i < |reqs| => OrderOf(reqs[i]))
  }

  function VariableOrders(slot: byte, env: seq<(bytes, bytes)>): (orders: seq<Order>)
    ensures |orders| == |env| && forall i :: 0 <= i < |env| ==> orders[i] == SetVariable(slot, env[i].0, env[i].1)
  {
    seq(|env|, i requires 0 <= i < |env| => SetVariable(slot, env[i].0, env[i].1))
  }

  /** A command on its slot: the directory if one is given, each variable in order, and the command itself. */
  function CommandOrders(slot: byte, op: Op): seq<Order>
    requires op.RunCommand?
  {
    (if op.cwd.Some? then [EnterDirectory(slot, op.cwd.value)] else [])
    + VariableOrders(slot, op.env) + [StartCommand(slot, op.command)]
  }

  /**
    A command's batch asks for its directory, its variables and the command, all on its own slot, and ends
    in its one EXEC, which streams; other batches hold none.
   */
  ghost predicate BatchShape(op: Op, slot: Option<byte>, reqs: seq<Request>) {
    && (op.RunCommand? && reqs != [] ==>
         && slot.Some? && reqs[|reqs| - 1].Execute? && reqs[|reqs| - 1].exec.slot == slot.value
         && reqs[|reqs| - 1].exec.streaming
         && (forall i :: 0 <= i < |reqs| - 1 ==> !reqs[i].Execute?)
         && OrdersOf(reqs) == CommandOrders(slot.value, op))
    && (!op.RunCommand? ==> slot.None? && forall i :: 0 <= i < |reqs| ==> !reqs[i].Execute?)
    && (op.FetchFile? && reqs != [] ==> reqs == [GetFile(GetFileReq(false, op.path, []))])
    && (op.PingPeer? && reqs != [] ==> reqs == [Ping(PingReq(false, false))])
    && (op.KillInFlight? ==> forall i :: 0 <= i < |reqs| ==> reqs[i].Kill?)
  }

  ghost predicate TaskInv(task: Task) {
    && OpTyped(task.op)
    && (task.phase.Entered? ==> task.slot.None? && task.reqs == [])
    && (BeforeRequests(task.phase) || task.reqs != [])
    && (forall i :: 0 <= i < |task.reqs| ==> Unfed(task.reqs[i]) && Serializable(task.reqs[i]))
    && BatchShape(task.op, task.slot, task.reqs)
  }

  ghost predicate TasksInv(tasks: seq<Task>) {
    forall t :: 0 <= t < |tasks| ==> TaskInv(tasks[t])
  }

  lemma TasksAfterMove(tasks: seq<Task>, t: nat, task: Task)
    requires TasksInv(tasks) && t < |tasks| && TaskInv(task)
    ensures TasksInv(tasks[t := task])
  {}

  // ---------------------------------------------------------------- building a batch

  lemma {:induction false} EnvRequestsShape(slot: byte, env: seq<(bytes, bytes)>)
    requires EnvRequests(slot, env).Ok? && forall i :: 0 <= i < |env| ==> Text(env[i].0) && Text(env[i].1)
    ensures forall r :: r in EnvRequests(slot, env).value ==> r.Env? && Unfed(r) && Serializable(r)
    ensures OrdersOf(EnvRequests(slot, env).value) == VariableOrders(slot, env)
    decreases |env|
  {
    hide Utf8;
    if env != [] {
      EnvRequestsShape(slot, env[1..]);
      var head := NewEnv(Some(slot), env[0].0, env[0].1).value;
      assert head.Env? && Unfed(head) && Serializable(head) && OrderOf(head) == SetVariable(slot, env[0].0, env[0].1);
      var rest := EnvRequests(slot, env[1..]).value;
      assert OrdersOf([head] + rest) == [OrderOf(head)] + OrdersOf(rest);
      assert VariableOrders(slot, env) == [SetVariable(slot, env[0].0, env[0].1)] + VariableOrders(slot, env[1..]);
    }
  }

  lemma OrdersJoin(xs: seq<Request>, ys: seq<Request>)
    ensures OrdersOf(xs + ys) == OrdersOf(xs) + OrdersOf(ys)
  {
    hide OrderOf;
  }

  lemma CwdShape(slot: byte, op: Op)
    requires op.RunCommand? && OpTyped(op) && CwdRequests(slot, op.cwd).Ok?
    ensures var cwd := CwdRequests(slot, op.cwd).value;
            && OrdersOf(cwd) == (if op.cwd.Some? then [EnterDirectory(slot, op.cwd.value)] else [])
            && forall i :: 0 <= i < |cwd| ==> !cwd[i].Execute? && Unfed(cwd[i]) && Serializable(cwd[i])
  {
    hide Utf8;
  }

  lemma ExecShape(slot: byte, command: bytes)
    requires Text(command) && NewExecute(slot, command, true).Ok?
    ensures var exec := NewExecute(slot, command, true).value;
            && exec.Execute? && exec.exec.slot == slot && exec.exec.streaming && Unfed(exec) && Serializable(exec)
            && OrdersOf([exec]) == [StartCommand(slot, command)]
  {
    hide Utf8;
  }

  /** A request built for a command that is not its EXEC. */
  ghost predicate IsSetting(r: Request) {
    !r.Execute? && Unfed(r) && Serializable(r)
  }

  lemma SettingsJoin(xs: seq<Request>, ys: seq<Request>)
    requires forall i :: 0 <= i < |xs| ==> IsSetting(xs[i])
    requires forall r :: r in ys ==> IsSetting(r)
    ensures forall i :: 0 <= i < |xs + ys| ==> IsSetting((xs + ys)[i])
  {
    hide IsSetting;
    forall i | 0 <= i < |xs + ys| ensures IsSetting((xs + ys)[i]) {
      if i >= |xs| {
        assert (xs + ys)[i] == ys[i - |xs|] && ys[i - |xs|] in ys;
      }
    }
  }

  lemma CommandBatchShape(slot: byte, op: Op)
    requires op.RunCommand? && OpTyped(op) && CommandBatch(slot, op).Ok?
    ensures var reqs := CommandBatch(slot, op).value;
            && reqs != [] && BatchShape(op, Some(slot), reqs)
            && forall i :: 0 <= i < |reqs| ==> Unfed(reqs[i]) && Serializable(reqs[i])
  {
    hide Utf8, Unfed, Serializable, OrderOf, OrdersOf, VariableOrders, EnvRequests, CwdRequests, NewExecute;
    CwdShape(slot, op);
    EnvRequestsShape(slot, op.env);
    ExecShape(slot, op.command);
    var cwd, env := CwdRequests(slot, op.cwd).value, EnvRequests(slot, op.env).value;
    var exec := NewExecute(slot, op.command, true).value;
    SettingsJoin(cwd, env);
    OrdersJoin(cwd, env);
    OrdersJoin(cwd + env, [exec]);
  }

  lemma {:induction false} EnvRefusedIff(slot: byte, env: seq<(bytes, bytes)>)
    requires slot <= MAX_SLOTS
    ensures EnvRequests(slot, env).Err? <==> exists i :: 0 <= i < |env| && (env[i].0 == [] || env[i].1 == [])
    decreases |env|
  {
    if env != [] {
      EnvRefusedIff(slot, env[1..]);
      if EnvRequests(slot, env[1..]).Err? {
        var i :| 0 <= i < |env| - 1 && (env[1..][i].0 == [] || env[1..][i].1 == []);
        assert env[i + 1] == env[1..][i];
      }
      if i :| 0 < i < |env| && (env[i].0 == [] || env[i].1 == []) {
        assert env[1..][i - 1] == env[i];
      }
    }
  }

  /** A command is refused before anything is sent exactly when one of its arguments is empty. */
  lemma CommandRefusedIff(slot: byte, op: Op)
    requires op.RunCommand? && slot < MAX_SLOTS
    ensures CommandBatch(slot, op).Err? <==>
      (|| op.command == [] || op.cwd == Some([])
       || exists i :: 0 <= i < |op.env| && (op.env[i].0 == [] || op.env[i].1 == []))
  {
    hide EnvRequests;
    EnvRefusedIff(slot, op.env);
  }

  lemma PrepareKeepsTask(s: Mux, t: nat)
    requires At(s, t) && s.tasks[t].phase.Entered? && TasksInv(s.tasks)
    ensures TasksInv(StepPrepare(s, t).tasks)
  {
    hide Utf8, FirstFree, CommandBatch, TasksInv, BatchShape;
    var task := s.tasks[t];
    assert TaskInv(task) by {
      TaskOf(s.tasks, t);
    }
    var task' := StepPrepare(s, t).tasks[t];
    if task.op.RunCommand? && FirstFree(s.slots).Some? && CommandBatch(FirstFree(s.slots).value, task.op).Ok? {
      CommandBatchShape(FirstFree(s.slots).value, task.op);
    } else {
      SmallBatchShape(task'.op, task'.slot, task'.reqs, s.slots);
    }
    TasksAfterMove(s.tasks, t, task');
  }

  lemma TaskOf(tasks: seq<Task>, t: nat)
    requires TasksInv(tasks) && t < |tasks|
    ensures TaskInv(tasks[t])
  {}

  lemma SmallBatchShape(op: Op, slot: Option<byte>, reqs: seq<Request>, slots: seq<byte>)
    requires op.RunCommand? ==> reqs == []
    requires !op.RunCommand? ==> slot.None?
    requires op.PingPeer? ==> reqs == [] || reqs == [Ping(PingReq(false, false))]
    requires op.FetchFile? ==> reqs == [] || reqs == [GetFile(GetFileReq(false, op.path, []))]
    requires op.KillInFlight? ==> reqs == [] || reqs == Kills(slots)
    ensures BatchShape(op, slot, reqs)
    ensures OpTyped(op) ==> forall i :: 0 <= i < |reqs| ==> Unfed(reqs[i]) && Serializable(reqs[i])
  {
    hide Utf8;
  }

  // ---------------------------------------------------------------- all callers

  ghost predicate Covers(task: Task, id: nat) {
    First(task.phase).Some? && First(task.phase).value <= id < First(task.phase).value + |task.reqs|
  }

  /** A registered caller owns consecutive ids, and they stand for its own requests. */
  ghost predicate OwnsItsIds(task: Task, t: nat, owners: seq<nat>, issued: seq<Request>)
    requires |owners| == |issued|
  {
    First(task.phase).Some? ==>
      var first := First(task.phase).value;
      && first + |task.reqs| <= |issued|
      && owners[first..first + |task.reqs|] == seq(|task.reqs|, i => t)
      && issued[first..first + |task.reqs|] == task.reqs
  }

  /** An answered caller has one reply per request, in order, each answering its request. */
  ghost predicate HasAnswers(task: Task, collected: set<nat>) {
    Gathered(task.phase).Some? ==>
      && First(task.phase).Some?
      && |Gathered(task.phase).value| == |task.reqs|
      && (forall i :: 0 <= i < |task.reqs| ==> Answers(task.reqs[i], Gathered(task.phase).value[i]))
      && IdsOf(task, First(task.phase).value) <= collected
  }

  ghost predicate OwnInv(tasks: seq<Task>, owners: seq<nat>, issued: seq<Request>, collected: set<nat>) {
    && |owners| == |issued|
    && SerializableAll(issued)
    && (forall id :: 0 <= id < |owners| ==> owners[id] < |tasks| && Covers(tasks[owners[id]], id))
    && (forall t :: 0 <= t < |tasks| ==> OwnsItsIds(tasks[t], t, owners, issued))
    && (forall t :: 0 <= t < |tasks| ==> HasAnswers(tasks[t], collected))
    && (forall id :: id in collected ==> id < |owners| && Over(tasks[owners[id]].phase))
  }

  /** Moving one caller on without touching its batch keeps every ownership. */
  lemma OwnersAfterMove(tasks: seq<Task>, t: nat, task: Task, owners: seq<nat>, issued: seq<Request>, collected: set<nat>)
    requires OwnInv(tasks, owners, issued, collected) && t < |tasks|
    requires First(task.phase) == First(tasks[t].phase)
    requires First(task.phase).Some? ==> task.reqs == tasks[t].reqs
    requires Over(tasks[t].phase) ==> Over(task.phase)
    requires Gathered(task.phase).Some? ==> Gathered(task.phase) == Gathered(tasks[t].phase)
    ensures OwnInv(tasks[t := task], owners, issued, collected)
  {
    hide Serializable;
    var tasks' := tasks[t := task];
    forall id | 0 <= id < |owners| ensures Covers(tasks'[owners[id]], id) {
      assert Covers(tasks[owners[id]], id);
    }
    assert OwnsItsIds(tasks[t], t, owners, issued) && HasAnswers(tasks[t], collected);
  }

  lemma OwnersAfterEnter(tasks: seq<Task>, task: Task, owners: seq<nat>, issued: seq<Request>, collected: set<nat>)
    requires OwnInv(tasks, owners, issued, collected)
    requires First(task.phase).None? && Gathered(task.phase).None?
    ensures OwnInv(tasks + [task], owners, issued, collected)
  {
    hide Serializable;
    var tasks' := tasks + [task];
    forall id | 0 <= id < |owners| ensures Covers(tasks'[owners[id]], id) {
      assert Covers(tasks[owners[id]], id);
    }
  }

  lemma OwnersAfterRegister(tasks: seq<Task>, t: nat, phase: Phase, owners: seq<nat>, issued: seq<Request>, collected: set<nat>)
    requires OwnInv(tasks, owners, issued, collected) && t < |tasks|
    requires First(tasks[t].phase).None? && SerializableAll(tasks[t].reqs)
    requires First(phase) == Some(|issued|) && Gathered(phase).None?
    ensures OwnInv(tasks[t := tasks[t].(phase := phase)],
                   owners + seq(|tasks[t].reqs|, i => t), issued + tasks[t].reqs, collected)
  {
    hide Serializable;
    var task := tasks[t].(phase := phase);
    var tasks' := tasks[t := task];
    var n := |tasks[t].reqs|;
    var owners', issued' := owners + seq(n, i => t), issued + tasks[t].reqs;
    assert owners'[|issued|..|issued| + n] == seq(n, i => t);
    assert issued'[|issued|..|issued| + n] == task.reqs;
    forall id | 0 <= id < |owners'|
      ensures owners'[id] < |tasks'| && Covers(tasks'[owners'[id]], id)
    {
      if id < |owners| {
        assert Covers(tasks[owners[id]], id);
        assert owners[id] != t;
      }
    }
    forall u | 0 <= u < |tasks'| ensures OwnsItsIds(tasks'[u], u, owners', issued') {
      if u != t {
        assert OwnsItsIds(tasks[u], u, owners, issued);
        if First(tasks[u].phase).Some? {
          var first := First(tasks[u].phase).value;
          var end := first + |tasks[u].reqs|;
          assert owners'[first..end] == owners[first..end];
          assert issued'[first..end] == issued[first..end];
        }
      }
    }
    forall u | 0 <= u < |tasks'| ensures HasAnswers(tasks'[u], collected) {
      assert HasAnswers(tasks[u], collected);
    }
  }

  lemma OwnersAfterPickUp(tasks: seq<Task>, t: nat, replies: seq<Reply>, owners: seq<nat>, issued: seq<Request>, collected: set<nat>)
    requires OwnInv(tasks, owners, issued, collected) && t < |tasks| && tasks[t].phase.Polling?
    requires |replies| == |tasks[t].reqs|
    requires forall i :: 0 <= i < |replies| ==> Answers(tasks[t].reqs[i], replies[i])
    ensures var first := tasks[t].phase.first;
            OwnInv(tasks[t := tasks[t].(phase := Answered(first, replies))], owners, issued,
                   collected + IdsOf(tasks[t], first))
  {
    hide Serializable, Answers;
    var first := tasks[t].phase.first;
    var ids := IdsOf(tasks[t], first);
    var task := tasks[t].(phase := Answered(first, replies));
    var tasks' := tasks[t := task];
    assert OwnsItsIds(tasks[t], t, owners, issued);
    forall id | id in ids ensures id < |owners| && owners[id] == t {
      assert owners[first..first + |task.reqs|][id - first] == t;
    }
    forall id | 0 <= id < |owners| ensures Covers(tasks'[owners[id]], id) {
      assert Covers(tasks[owners[id]], id);
    }
    forall u | 0 <= u < |tasks'| ensures HasAnswers(tasks'[u], collected + ids) {
      assert HasAnswers(tasks[u], collected);
    }
    forall u | 0 <= u < |tasks'| ensures OwnsItsIds(tasks'[u], u, owners, issued) {
      assert OwnsItsIds(tasks[u], u, owners, issued);
    }
  }
}
