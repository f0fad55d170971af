/** From the frames on the connection to the caller that gets the reply: its output or its file, and what it says. */
module MultiplexerOutput {
  import opened Bytes
  import opened Stream
  import opened Results
  import opened Requests
  import opened Replies
  import opened Dispatch
  import opened Slots
  import opened Multiplexer
  import opened MultiplexerBook
  import opened MultiplexerOwners
  import opened MultiplexerWire
  import opened MultiplexerSlots
  import opened MultiplexerRuns
  import opened MultiplexerProperties

  /** What the last action of a run brings to the request registered under `id`, if it is pending. */
  ghost function Brings(s: Mux, a: Action, id: nat): bytes {
    if a.Receive? && s.running && id in Ids(s.book.pending) && id < |s.issued| then Carried(s.issued[id], a.msg) else []
  }

  /** The payloads received for request `id` while it was pending, in order. */
  ghost function ReceivedFor(actions: seq<Action>, id: nat): bytes
    decreases |actions|
  {
    if actions == [] then [] else
    var init := actions[..|actions| - 1];
    ReceivedFor(init, id) + Brings(Run(init), actions[|actions| - 1], id)
  }

  lemma LoggedStep(actions: seq<Action>, a: Action, id: nat)
    ensures ReceivedFor(actions + [a], id) == ReceivedFor(actions, id) + Brings(Run(actions), a, id)
    ensures Run(actions + [a]) == Step(Run(actions), a)
  {
    hide Step, Brings;
    assert (actions + [a])[..|actions|] == actions;
  }

  // ---------------------------------------------------------------- the books

  /** A pending request holds what was received for it so far, and a streaming EXEC has forwarded it. */
  ghost predicate HoldsOutput(e: Entry, actions: seq<Action>) {
    && (e.request.Execute? ==> Collecting(e.request.exec) && e.request.exec.stdout == ReceivedFor(actions, e.id))
    && (e.request.GetFile? ==> e.request.getFile.data == ReceivedFor(actions, e.id))
  }

  /** Action `k` brought the answer to the request while it was pending. */
  ghost predicate AnsweredBy(actions: seq<Action>, k: nat, asked: Request, id: nat, reply: Reply)
    requires k < |actions|
  {
    var s := Run(actions[..k]);
    actions[k].Receive? && s.running && id in Ids(s.book.pending) && Says(asked, actions[k].msg, reply)
  }

  /** The reply says what a frame received while the request was pending says. */
  ghost predicate HasOrigin(reply: Reply, asked: Request, id: nat, actions: seq<Action>) {
    exists k :: 0 <= k < |actions| && AnsweredBy(actions, k, asked, id, reply)
  }

  ghost predicate ReplyHasOutput(reply: Reply, asked: Request, id: nat, actions: seq<Action>) {
    && (asked.Execute? ==> reply.ExecuteReply? && reply.stdout == ReceivedFor(actions, id))
    && (asked.GetFile? ==> reply.GetFileReply? && reply.data == ReceivedFor(actions, id))
    && HasOrigin(reply, asked, id, actions)
  }

  ghost predicate BookOutput(b: Book, issued: seq<Request>, actions: seq<Action>) {
    && (forall k :: 0 <= k < |b.pending| ==> HoldsOutput(b.pending[k], actions))
    && (forall id :: id in b.replies && id < |issued| ==> ReplyHasOutput(b.replies[id], issued[id], id, actions))
  }

  /** One frame and one EXEC: output is appended, or the reply is given with what was there. */
  lemma ExecFed(x: ExecuteReq, msg: Frame)
    requires Collecting(x)
    ensures var fed := FeedExecute(x, msg);
            && (fed.outcome.Waiting? ==> Collecting(fed.next) && fed.next.stdout == x.stdout + Carried(Execute(x), msg))
            && (fed.outcome.Completed? ==>
                  && fed.outcome.reply.ExecuteReply? && fed.outcome.reply.stdout == x.stdout
                  && Carried(Execute(x), msg) == [])
  {
    if |msg| > 1 && FeedExecute(x, msg).outcome.Waiting? {
      OutputStep(x, msg);
    }
  }

  /** `more` goes on from `actions` by the frame, with these books. */
  ghost predicate GoesOn(pending: seq<Entry>, msg: Frame, issued: seq<Request>, actions: seq<Action>, more: seq<Action>) {
    && |more| == |actions| + 1 && more[..|actions|] == actions && more[|actions|].Receive? && more[|actions|].msg == msg
    && Run(actions).running && Run(actions).book.pending == pending
    && forall id :: 0 <= id < |issued| ==>
         ReceivedFor(more, id) == ReceivedFor(actions, id) + if id in Ids(pending) then Carried(issued[id], msg) else []
  }

  lemma EntryFed(e: Entry, pending: seq<Entry>, issued: seq<Request>, actions: seq<Action>, more: seq<Action>, msg: Frame)
    requires HoldsOutput(e, actions) && e.id < |issued| && Unanswered(issued[e.id], e.request) && e.id in Ids(pending)
    requires GoesOn(pending, msg, issued, actions, more)
    ensures var fed := Feed(e.request, msg);
            && (fed.outcome.Waiting? ==> HoldsOutput(Entry(e.id, fed.next), more))
            && (fed.outcome.Completed? ==> ReplyHasOutput(fed.outcome.reply, issued[e.id], e.id, more))
  {
    hide Carried, Collecting, FeedVersion, FeedPing, FeedEnv, FeedCwd, FeedGetFile, FeedSetFile, FeedExecute, FeedKill,
         Run, ReceivedFor, Says, HasOpcode, DataOf;
    CarriedAlike(issued[e.id], e.request, msg);
    if e.request.Execute? {
      ExecFed(e.request.exec, msg);
    }
    if e.request.GetFile? {
      FileFed(e.request.getFile, msg);
    }
    if Feed(e.request, msg).outcome.Completed? {
      AnswerSays(issued[e.id], e.request, msg, Feed(e.request, msg).outcome.reply);
      assert AnsweredBy(more, |actions|, issued[e.id], e.id, Feed(e.request, msg).outcome.reply);
    }
  }

  /** What the frame makes of one pending request, if it does not refuse it. */
  ghost predicate FedRight(e: Entry, msg: Frame, issued: seq<Request>, more: seq<Action>) {
    var fed := Feed(e.request, msg);
    && e.id < |issued| && !fed.outcome.Refuse?
    && (fed.outcome.Waiting? ==> HoldsOutput(Entry(e.id, fed.next), more))
    && (fed.outcome.Completed? ==> ReplyHasOutput(fed.outcome.reply, issued[e.id], e.id, more))
  }

  lemma AllFedRight(b: Book, msg: Frame, issued: seq<Request>, actions: seq<Action>, more: seq<Action>)
    requires Typed(b.pending, issued) && BookOutput(b, issued, actions) && GoesOn(b.pending, msg, issued, actions, more)
    requires FirstRefusal(b.pending, msg) == |b.pending|
    ensures forall k :: 0 <= k < |b.pending| ==> FedRight(b.pending[k], msg, issued, more)
  {
    hide Feed, Unanswered, HoldsOutput, ReplyHasOutput, GoesOn;
    forall k | 0 <= k < |b.pending| ensures FedRight(b.pending[k], msg, issued, more) {
      var e := b.pending[k];
      assert TypedEntry(e, issued) && e.id in Ids(b.pending);
      assert !RefusedBy(e, msg);
      EntryFed(e, b.pending, issued, actions, more, msg);
    }
  }

  lemma PendingAfter(todo: seq<Entry>, msg: Frame, issued: seq<Request>, more: seq<Action>)
    requires forall k :: 0 <= k < |todo| ==> FedRight(todo[k], msg, issued, more)
    ensures forall k :: 0 <= k < |Survivors(todo, msg)| ==> HoldsOutput(Survivors(todo, msg)[k], more)
  {
    hide Feed, Survivors, HoldsOutput, ReplyHasOutput;
    var from := SurvivorsKeepOrder(todo, msg);
    forall k | 0 <= k < |Survivors(todo, msg)| ensures HoldsOutput(Survivors(todo, msg)[k], more) {
      assert FedRight(todo[from[k]], msg, issued, more) && Survives(todo[from[k]], msg);
    }
  }

  lemma GoneIsCompleted(todo: seq<Entry>, msg: Frame, k: nat)
    requires k < |todo| && todo[k].id !in Ids(Survivors(todo, msg))
    ensures !Survives(todo[k], msg)
  {
    hide Feed, Survivors, Survives;
    var from := SurvivorsKeepOrder(todo, msg);
    forall i | 0 <= i < |from| ensures from[i] != k {
      assert Survivors(todo, msg)[i].id in Ids(Survivors(todo, msg));
    }
  }

  lemma RepliesAfter(b: Book, msg: Frame, issued: seq<Request>, collected: set<nat>, actions: seq<Action>, more: seq<Action>,
                     id: nat)
    requires BookInv(b, issued, collected) && BookOutput(b, issued, actions) && GoesOn(b.pending, msg, issued, actions, more)
    requires forall k :: 0 <= k < |b.pending| ==> FedRight(b.pending[k], msg, issued, more)
    requires id in Filed(b.replies, b.pending, msg) && id < |issued|
    ensures ReplyHasOutput(Filed(b.replies, b.pending, msg)[id], issued[id], id, more)
  {
    hide Feed, Carried, Survivors, Filed, HoldsOutput, ReplyHasOutput, Typed, TypedReplies, Ascending;
    var todo := b.pending;
    NoRequestLost(b.replies, todo, msg);
    FiledIsOwnReply(b.replies, todo, msg);
    if id in b.replies {
      ReplyUntouched(b.replies[id], issued[id], id, actions, more);
    } else {
      var k :| 0 <= k < |todo| && todo[k].id == id;
      GoneIsCompleted(todo, msg, k);
      assert FedRight(todo[k], msg, issued, more);
    }
  }

  lemma ScanKeepsOutput(b: Book, msg: Frame, issued: seq<Request>, collected: set<nat>, actions: seq<Action>, more: seq<Action>)
    requires BookInv(b, issued, collected) && BookOutput(b, issued, actions) && GoesOn(b.pending, msg, issued, actions, more)
    requires Scan(b, msg).fatal.None?
    ensures BookOutput(Scan(b, msg), issued, more)
  {
    var todo, r := b.pending, Scan(b, msg);
    hide Feed, Carried, Survivors, Filed, Ids, HoldsOutput, ReplyHasOutput, GoesOn, FedRight, Typed, TypedReplies, Ascending;
    assert todo[..|todo|] == todo && todo[|todo|..] == [];
    AllFedRight(b, msg, issued, actions, more);
    PendingAfter(todo, msg, issued, more);
    forall id | id in r.replies && id < |issued| ensures ReplyHasOutput(r.replies[id], issued[id], id, more) {
      RepliesAfter(b, msg, issued, collected, actions, more, id);
    }
  }

  lemma ReplyUntouched(reply: Reply, asked: Request, id: nat, actions: seq<Action>, more: seq<Action>)
    requires ReplyHasOutput(reply, asked, id, actions) && actions <= more
    requires ReceivedFor(more, id) == ReceivedFor(actions, id)
    ensures ReplyHasOutput(reply, asked, id, more)
  {
    hide Run, Says;
    var k :| 0 <= k < |actions| && AnsweredBy(actions, k, asked, id, reply);
    assert more[..k] == actions[..k];
    assert AnsweredBy(more, k, asked, id, reply);
  }

  // ---------------------------------------------------------------- every run

  /** The output in the replies a caller has in hand is what was logged for its EXEC. */
  ghost predicate HandsOutput(task: Task, actions: seq<Action>) {
    Gathered(task.phase).Some? && First(task.phase).Some? ==>
      forall i :: 0 <= i < |task.reqs| && i < |Gathered(task.phase).value| ==>
        ReplyHasOutput(Gathered(task.phase).value[i], task.reqs[i], First(task.phase).value + i, actions)
  }

  ghost predicate OutputInv(s: Mux, actions: seq<Action>) {
    && (s.book.fatal.None? ==> BookOutput(s.book, s.issued, actions))
    && (forall t :: 0 <= t < |s.tasks| ==> HandsOutput(s.tasks[t], actions))
    && (forall id: nat :: id >= |s.issued| ==> ReceivedFor(actions, id) == [])
  }

  /** Nothing was logged for anyone by the last action. */
  ghost predicate SameOutput(actions: seq<Action>, more: seq<Action>) {
    actions <= more && forall id: nat :: ReceivedFor(more, id) == ReceivedFor(actions, id)
  }

  lemma OthersBringNothing(actions: seq<Action>, a: Action)
    requires !a.Receive? || !Run(actions).running
    ensures SameOutput(actions, actions + [a])
  {
    forall id: nat ensures ReceivedFor(actions + [a], id) == ReceivedFor(actions, id) {
      LoggedStep(actions, a, id);
    }
  }

  lemma SameBook(b: Book, issued: seq<Request>, actions: seq<Action>, more: seq<Action>)
    requires BookOutput(b, issued, actions) && SameOutput(actions, more)
    ensures BookOutput(b, issued, more)
  {
    forall k | 0 <= k < |b.pending| ensures HoldsOutput(b.pending[k], more) {
      assert HoldsOutput(b.pending[k], actions);
    }
    hide Run, ReplyHasOutput;
    forall id | id in b.replies && id < |issued| ensures ReplyHasOutput(b.replies[id], issued[id], id, more) {
      ReplyUntouched(b.replies[id], issued[id], id, actions, more);
    }
  }

  lemma SameHands(task: Task, actions: seq<Action>, more: seq<Action>)
    requires HandsOutput(task, actions) && SameOutput(actions, more)
    ensures HandsOutput(task, more)
  {
    hide ReplyHasOutput;
    if Gathered(task.phase).Some? && First(task.phase).Some? {
      forall i | 0 <= i < |task.reqs| && i < |Gathered(task.phase).value|
        ensures ReplyHasOutput(Gathered(task.phase).value[i], task.reqs[i], First(task.phase).value + i, more)
      {
        ReplyUntouched(Gathered(task.phase).value[i], task.reqs[i], First(task.phase).value + i, actions, more);
      }
    }
  }

  /** What a caller has in hand is collected, and frames no longer concern it. */
  lemma HandsKept(s: Mux, t: nat, actions: seq<Action>, a: Action)
    requires s == Run(actions) && At(s, t) && HandsOutput(s.tasks[t], actions)
    ensures HandsOutput(s.tasks[t], actions + [a])
  {
    hide Run, BookInv, WireInv, SlotInv, ExecInv, TasksInv, OwnsItsIds, Covers, Ids, Answers, Carried, ReplyHasOutput, Step;
    EveryRunKeepsInv(actions);
    EveryIdInOnePlace(actions);
    assert HasAnswers(s.tasks[t], s.collected);
    if Gathered(s.tasks[t].phase).Some? {
      var first := First(s.tasks[t].phase).value;
      forall i | 0 <= i < |s.tasks[t].reqs|
        ensures ReplyHasOutput(Gathered(s.tasks[t].phase).value[i], s.tasks[t].reqs[i], first + i, actions + [a])
      {
        assert first + i in IdsOf(s.tasks[t], first);
        LoggedStep(actions, a, first + i);
        ReplyUntouched(Gathered(s.tasks[t].phase).value[i], s.tasks[t].reqs[i], first + i, actions, actions + [a]);
      }
    }
  }

  lemma BringsLog(s: Mux, msg: Frame, locked: bool, id: nat)
    requires s.running && id < |s.issued|
    ensures Brings(s, Receive(msg, locked), id)
         == if id in Ids(s.book.pending) then Carried(s.issued[id], msg) else []
  {}

  lemma ReceiveGoesOn(s: Mux, actions: seq<Action>, msg: Frame, locked: bool)
    requires s == Run(actions) && s.running
    ensures GoesOn(s.book.pending, msg, s.issued, actions, actions + [Receive(msg, locked)])
  {
    hide Run, Ids, Carried, Brings, Step, ReceivedFor;
    assert (actions + [Receive(msg, locked)])[..|actions|] == actions;
    forall id | 0 <= id < |s.issued|
      ensures ReceivedFor(actions + [Receive(msg, locked)], id) ==
              ReceivedFor(actions, id)
              + if id in Ids(s.book.pending) then Carried(s.issued[id], msg) else []
    {
      LoggedStep(actions, Receive(msg, locked), id);
      BringsLog(s, msg, locked, id);
    }
  }

  lemma DeliverKeepsOutput(b: Book, msg: Frame, locked: bool, issued: seq<Request>, collected: set<nat>,
                           actions: seq<Action>, more: seq<Action>)
    requires BookInv(b, issued, collected) && BookOutput(b, issued, actions) && GoesOn(b.pending, msg, issued, actions, more)
    requires Deliver(b, msg, locked).fatal.None?
    ensures BookOutput(Deliver(b, msg, locked), issued, more)
  {
    if msg == [] || Opcode(msg).None? || Opcode(msg) == Some(OP_ERROR) {
      NotALog(b, msg, issued, collected, actions, more);
      hide BookInv, BookOutput, GoesOn;
      var r := Deliver(b, msg, locked);
      assert r == b;
    } else {
      ScanKeepsOutput(b, msg, issued, collected, actions, more);
    }
  }

  lemma NotALog(b: Book, msg: Frame, issued: seq<Request>, collected: set<nat>, actions: seq<Action>, more: seq<Action>)
    requires BookInv(b, issued, collected) && BookOutput(b, issued, actions) && GoesOn(b.pending, msg, issued, actions, more)
    requires msg == [] || Opcode(msg).None? || Opcode(msg) == Some(OP_ERROR)
    ensures BookOutput(b, issued, more)
  {
    hide Ids, Ascending, Partition, TypedReplies;
    forall k | 0 <= k < |b.pending| ensures HoldsOutput(b.pending[k], more) {
      assert TypedEntry(b.pending[k], issued) && HoldsOutput(b.pending[k], actions);
    }
    hide Run, ReplyHasOutput;
    forall id | id in b.replies && id < |issued| ensures ReplyHasOutput(b.replies[id], issued[id], id, more) {
      ReplyUntouched(b.replies[id], issued[id], id, actions, more);
    }
  }

  lemma FatalStays(s: Mux, a: Action)
    requires Step(s, a).book.fatal.None?
    ensures s.book.fatal.None?
  {
    hide StepPrepare, StepCancel, Scan, CommandBatch, OpTyped, SerializableAll, PackEach;
    match a
    case Receive(msg, locked) => if s.book.fatal.Some? { FatalIsKept(s.book, msg, locked); }
    case Prepare(t) => if At(s, t) && s.tasks[t].phase.Entered? { PrepareLeavesBook(s, t); }
    case Cancel(t) => if At(s, t) { CancelLeavesBook(s, t); }
    case _ =>
  }

  lemma PrepareLeavesBook(s: Mux, t: nat)
    requires At(s, t) && s.tasks[t].phase.Entered?
    ensures StepPrepare(s, t).book == s.book && StepPrepare(s, t).issued == s.issued
  {
    hide CommandBatch, Kills, FirstFree;
  }

  lemma CancelLeavesBook(s: Mux, t: nat)
    requires At(s, t)
    ensures StepCancel(s, t).book == s.book && StepCancel(s, t).issued == s.issued
  {}

  /** Replies in hand were in hand before, of the same batch. */
  ghost predicate KeepsHands(s: Mux, r: Mux) {
    forall t :: 0 <= t < |r.tasks| && Gathered(r.tasks[t].phase).Some? ==>
      && t < |s.tasks| && r.tasks[t].reqs == s.tasks[t].reqs
      && Gathered(r.tasks[t].phase) == Gathered(s.tasks[t].phase) && First(r.tasks[t].phase) == First(s.tasks[t].phase)
  }

  predicate IsQuiet(a: Action) {
    !a.Receive? && !a.Register? && !a.PickUp?
  }

  lemma PrepareKeepsHands(s: Mux, t: nat)
    requires At(s, t) && s.tasks[t].phase.Entered?
    ensures KeepsHands(s, StepPrepare(s, t))
  {
    hide CommandBatch, Kills, FirstFree;
    PrepareMovesOne(s, t);
  }

  lemma CancelKeepsHands(s: Mux, t: nat)
    requires At(s, t)
    ensures KeepsHands(s, StepCancel(s, t))
  {
    CancelMovesOne(s, t);
  }

  lemma QuietLeavesBook(s: Mux, a: Action)
    requires IsQuiet(a)
    ensures var r := Step(s, a);
            r.book.pending == s.book.pending && r.book.replies == s.book.replies && r.issued == s.issued
  {
    hide StepPrepare, StepCancel, StepEnter, StepRelease, CommandBatch, OpTyped, SerializableAll, Without;
    match a
    case Enter(op) => EnterLeavesBook(s, op);
    case Prepare(t) => if At(s, t) && s.tasks[t].phase.Entered? { PrepareLeavesBook(s, t); }
    case Cancel(t) => if At(s, t) { CancelLeavesBook(s, t); }
    case Release(t) =>
      if At(s, t) && (s.tasks[t].phase.Failed? || s.tasks[t].phase.Answered?) { ReleaseLeavesBook(s, t); }
    case _ =>
  }

  lemma EnterLeavesBook(s: Mux, op: Op)
    ensures StepEnter(s, op).book == s.book && StepEnter(s, op).issued == s.issued
  {
    hide OpTyped;
  }

  lemma ReleaseLeavesBook(s: Mux, t: nat)
    requires At(s, t) && (s.tasks[t].phase.Failed? || s.tasks[t].phase.Answered?)
    ensures StepRelease(s, t).book == s.book && StepRelease(s, t).issued == s.issued
  {
    hide Without;
  }

  lemma ReleaseKeepsHands(s: Mux, t: nat)
    requires At(s, t) && (s.tasks[t].phase.Failed? || s.tasks[t].phase.Answered?)
    ensures KeepsHands(s, StepRelease(s, t))
  {
    hide Without;
  }

  /** Moving on without replies in hand. */
  lemma MoveKeepsHands(s: Mux, r: Mux, t: nat, phase: Phase)
    requires At(s, t) && Gathered(phase).None? && r.tasks == s.tasks[t := s.tasks[t].(phase := phase)]
    ensures KeepsHands(s, r)
  {}

  lemma EnterKeepsHands(s: Mux, op: Op)
    ensures KeepsHands(s, StepEnter(s, op))
  {
    hide OpTyped;
  }

  lemma WriterKeepsHands(s: Mux, a: Action)
    requires a.Write? || a.FailWrite? || a.Commit? || a.Unlock?
    ensures KeepsHands(s, Step(s, a))
  {
    hide KeepsHands;
    var r := Step(s, a);
    if r == s {
      SameTasks(s, r);
    } else {
      MoveKeepsHands(s, r, a.t, r.tasks[a.t].phase);
    }
  }

  lemma SameTasks(s: Mux, r: Mux)
    requires r.tasks == s.tasks
    ensures KeepsHands(s, r)
  {}

  lemma QuietKeepsHands(s: Mux, a: Action)
    requires IsQuiet(a)
    ensures KeepsHands(s, Step(s, a))
  {
    hide KeepsHands, StepEnter, StepPrepare, StepCancel, StepRelease, RecordFatal;
    match a
    case Enter(op) => EnterKeepsHands(s, op);
    case Prepare(t) =>
      if At(s, t) && s.tasks[t].phase.Entered? { PrepareKeepsHands(s, t); } else { SameTasks(s, s); }
    case Cancel(t) => if At(s, t) { CancelKeepsHands(s, t); } else { SameTasks(s, s); }
    case Release(t) =>
      if At(s, t) && (s.tasks[t].phase.Failed? || s.tasks[t].phase.Answered?) {
        ReleaseKeepsHands(s, t);
      } else {
        SameTasks(s, s);
      }
    case Admit(t) =>
      var r := Step(s, a);
      if r == s { SameTasks(s, r); } else { MoveKeepsHands(s, r, t, r.tasks[t].phase); }
    case Acquire(t) =>
      var r := Step(s, a);
      if r == s { SameTasks(s, r); } else { MoveKeepsHands(s, r, t, r.tasks[t].phase); }
    case PollEnds(message, locked) => SameTasks(s, Step(s, a));
    case _ => WriterKeepsHands(s, a);
  }

  /** Books, ids and hands are as they were. */
  ghost predicate Unmoved(s: Mux, r: Mux) {
    && r.book.pending == s.book.pending && r.book.replies == s.book.replies && r.issued == s.issued
    && (r.book.fatal.None? ==> s.book.fatal.None?) && KeepsHands(s, r)
  }

  lemma HandsFollow(s: Mux, r: Mux, actions: seq<Action>, more: seq<Action>)
    requires KeepsHands(s, r) && SameOutput(actions, more)
    requires forall t :: 0 <= t < |s.tasks| ==> HandsOutput(s.tasks[t], actions)
    ensures forall t :: 0 <= t < |r.tasks| ==> HandsOutput(r.tasks[t], more)
  {
    hide ReplyHasOutput;
    forall t | 0 <= t < |r.tasks| ensures HandsOutput(r.tasks[t], more) {
      if Gathered(r.tasks[t].phase).Some? {
        SameHands(s.tasks[t], actions, more);
      }
    }
  }

  lemma UnmovedKeepsOutput(s: Mux, r: Mux, actions: seq<Action>, more: seq<Action>)
    requires Unmoved(s, r) && OutputInv(s, actions) && SameOutput(actions, more)
    ensures OutputInv(r, more)
  {
    hide ReplyHasOutput, HoldsOutput, HandsOutput;
    if r.book.fatal.None? {
      SameBook(s.book, s.issued, actions, more);
    }
    HandsFollow(s, r, actions, more);
  }

  lemma QuietKeepsOutput(s: Mux, a: Action, actions: seq<Action>, more: seq<Action>)
    requires IsQuiet(a) && OutputInv(s, actions) && SameOutput(actions, more)
    ensures OutputInv(Step(s, a), more)
  {
    hide Step, OutputInv, SameOutput, KeepsHands;
    QuietLeavesBook(s, a);
    QuietKeepsHands(s, a);
    if Step(s, a).book.fatal.None? {
      FatalStays(s, a);
    }
    UnmovedKeepsOutput(s, Step(s, a), actions, more);
  }

  lemma NewHolds(e: Entry, actions: seq<Action>)
    requires Unfed(e.request) && ReceivedFor(actions, e.id) == []
    ensures HoldsOutput(e, actions)
  {}

  lemma RegisterIs(s: Mux, t: nat)
    requires At(s, t) && s.tasks[t].phase.Holding? && SerializableAll(s.tasks[t].reqs)
    ensures var r := StepRegister(s, t);
            && KeepsHands(s, r) && r.book.replies == s.book.replies && r.book.fatal == s.book.fatal
            && ((r.book.pending == s.book.pending && r.issued == s.issued)
                || (r.book.pending == s.book.pending + NewEntries(s.nextId, s.tasks[t].reqs)
                    && r.issued == s.issued + s.tasks[t].reqs))
  {
    hide SerializableAll, PackEach, NewEntries;
  }

  lemma RegisteredBook(b: Book, issued: seq<Request>, reqs: seq<Request>, actions: seq<Action>)
    requires BookOutput(b, issued, actions) && TypedReplies(b.replies, issued)
    requires forall i :: 0 <= i < |reqs| ==> Unfed(reqs[i])
    requires forall id: nat :: id >= |issued| ==> ReceivedFor(actions, id) == []
    ensures BookOutput(b.(pending := b.pending + NewEntries(|issued|, reqs)), issued + reqs, actions)
  {
    hide Unfed, HoldsOutput, ReplyHasOutput, ReceivedFor, Answers;
    var es := NewEntries(|issued|, reqs);
    forall k | 0 <= k < |es| ensures HoldsOutput(es[k], actions) {
      NewHolds(es[k], actions);
    }
  }

  lemma RegisterKeepsOutput(s: Mux, t: nat, actions: seq<Action>, more: seq<Action>)
    requires CallersInv(s) && OutputInv(s, actions) && SameOutput(actions, more)
    requires At(s, t) && s.tasks[t].phase.Holding? && SerializableAll(s.tasks[t].reqs)
    ensures OutputInv(StepRegister(s, t), more)
  {
    TasksOf(s);
    TaskOf(s.tasks, t);
    BatchIsNew(s.tasks[t]);
    RepliesOf(s);
    RegisterIs(s, t);
    var r := StepRegister(s, t);
    hide StepRegister, CallersInv, TasksInv, TaskInv, SerializableAll, BookOutput, HandsOutput, Unfed, TypedReplies,
         ReceivedFor;
    if s.book.fatal.None? {
      SameBook(s.book, s.issued, actions, more);
      RegisteredBook(s.book, s.issued, s.tasks[t].reqs, more);
      assert BookOutput(r.book, r.issued, more) by { BookOutputOf(s.book, r.book, s.issued, s.tasks[t].reqs, r.issued, more); }
    }
    HandsFollow(s, r, actions, more);
  }

  lemma BookOutputOf(b: Book, r: Book, issued: seq<Request>, reqs: seq<Request>, grown: seq<Request>, actions: seq<Action>)
    requires BookOutput(b, issued, actions)
    requires BookOutput(b.(pending := b.pending + NewEntries(|issued|, reqs)), issued + reqs, actions)
    requires r.replies == b.replies
    requires (r.pending == b.pending && grown == issued)
             || (r.pending == b.pending + NewEntries(|issued|, reqs) && grown == issued + reqs)
    ensures BookOutput(r, grown, actions)
  {
    hide HoldsOutput, ReplyHasOutput;
  }

  lemma RepliesOf(s: Mux)
    requires CallersInv(s)
    ensures TypedReplies(s.book.replies, s.issued)
  {}

  lemma PickUpKeepsOutput(s: Mux, t: nat, actions: seq<Action>, more: seq<Action>)
    requires CallersInv(s) && OutputInv(s, actions) && SameOutput(actions, more)
    requires At(s, t) && s.tasks[t].phase.Polling?
    ensures OutputInv(StepPickUp(s, t), more)
  {
    hide BookInv, TasksInv, SlotInv, ExecInv, Covers, HasAnswers, ReplyHasOutput, HoldsOutput, Serializable;
    var r := StepPickUp(s, t);
    var task := s.tasks[t];
    var first := task.phase.first;
    PickUpMovesOne(s, t);
    if s.book.fatal.None? {
      SameBook(s.book, s.issued, actions, more);
    }
    forall u | 0 <= u < |r.tasks| ensures HandsOutput(r.tasks[u], more) {
      if u == t && Gathered(r.tasks[u].phase).Some? {
        assert OwnsItsIds(task, t, s.owners, s.issued);
        forall i | 0 <= i < |task.reqs|
          ensures ReplyHasOutput(Gathered(r.tasks[t].phase).value[i], task.reqs[i], first + i, more)
        {
          assert s.issued[first..first + |task.reqs|][i] == task.reqs[i];
          assert first + i in IdsOf(task, first);
        }
      } else if u != t {
        SameHands(s.tasks[u], actions, more);
      }
    }
  }

  lemma ReceivedBook(s: Mux, actions: seq<Action>, msg: Frame, locked: bool)
    requires s == Run(actions) && BookInv(s.book, s.issued, s.collected)
    requires s.book.fatal.None? ==> BookOutput(s.book, s.issued, actions)
    requires StepReceive(s, msg, locked).book.fatal.None?
    ensures BookOutput(StepReceive(s, msg, locked).book, s.issued, actions + [Receive(msg, locked)])
  {
    hide Run, BookInv, BookOutput, GoesOn, SameOutput, Deliver, Brings, ReceivedFor;
    var more := actions + [Receive(msg, locked)];
    if s.running {
      ReceiveGoesOn(s, actions, msg, locked);
      if s.book.fatal.Some? {
        FatalIsKept(s.book, msg, locked);
      } else {
        DeliverKeepsOutput(s.book, msg, locked, s.issued, s.collected, actions, more);
      }
    } else {
      OthersBringNothing(actions, Receive(msg, locked));
      SameBook(s.book, s.issued, actions, more);
    }
  }

  lemma NothingIssued(s: Mux, a: Action, id: nat)
    requires id >= |s.issued|
    ensures Brings(s, a, id) == []
  {}

  lemma ReceiveIs(s: Mux, msg: Frame, locked: bool)
    ensures var r := StepReceive(s, msg, locked);
            Step(s, Receive(msg, locked)) == r && r.tasks == s.tasks && r.issued == s.issued
  {
    hide Deliver;
  }

  lemma NothingForLater(s: Mux, actions: seq<Action>, a: Action)
    requires s == Run(actions) && forall id: nat :: id >= |s.issued| ==> ReceivedFor(actions, id) == []
    ensures forall id: nat :: id >= |s.issued| ==> ReceivedFor(actions + [a], id) == []
  {
    hide Run, Step, Brings, ReceivedFor;
    forall id: nat | id >= |s.issued| ensures ReceivedFor(actions + [a], id) == [] {
      LoggedStep(actions, a, id);
      NothingIssued(s, a, id);
    }
  }

  lemma ReceiveKeepsOutput(s: Mux, actions: seq<Action>, msg: Frame, locked: bool)
    requires s == Run(actions) && CallersInv(s) && OutputInv(s, actions)
    ensures OutputInv(Step(s, Receive(msg, locked)), actions + [Receive(msg, locked)])
  {
    ReceiveIs(s, msg, locked);
    assert BookInv(s.book, s.issued, s.collected);
    hide Run, Step, StepReceive, CallersInv, BookInv, BookOutput, HandsOutput, ReceivedFor;
    if StepReceive(s, msg, locked).book.fatal.None? {
      ReceivedBook(s, actions, msg, locked);
    }
    forall t | 0 <= t < |s.tasks| ensures HandsOutput(s.tasks[t], actions + [Receive(msg, locked)]) {
      HandsKept(s, t, actions, Receive(msg, locked));
    }
    NothingForLater(s, actions, Receive(msg, locked));
  }

  lemma BookOf(s: Mux)
    requires Inv(s)
    ensures BookInv(s.book, s.issued, s.collected) && CallersInv(s) && s.nextId == |s.issued|
  {
    hide BookInv, WireInv;
  }

  lemma {:induction false} EveryRunKeepsOutput(actions: seq<Action>)
    ensures OutputInv(Run(actions), actions)
    decreases |actions|
  {
    if actions == [] {
      assert Run([]) == Init();
    } else {
      var init, a := actions[..|actions| - 1], actions[|actions| - 1];
      var s := Run(init);
      hide Run, OutputInv, Inv, CallersInv, SerializableAll, SameOutput, StepRegister, StepPickUp;
      EveryRunKeepsOutput(init);
      assert init + [a] == actions;
      LoggedStep(init, a, 0);
      EveryRunKeepsInv(init);
      BookOf(s);
      if a.Receive? {
        ReceiveKeepsOutput(s, init, a.msg, a.locked);
      } else {
        OthersBringNothing(init, a);
        OthersKeepOutput(s, a, init, actions);
      }
    }
  }

  lemma OthersKeepOutput(s: Mux, a: Action, actions: seq<Action>, more: seq<Action>)
    requires !a.Receive? && CallersInv(s) && OutputInv(s, actions) && SameOutput(actions, more)
    ensures OutputInv(Step(s, a), more)
  {
    hide OutputInv, SameOutput, CallersInv, SerializableAll, StepRegister, StepPickUp;
    match a
    case Register(t) =>
      if At(s, t) && s.tasks[t].phase.Holding? && SerializableAll(s.tasks[t].reqs) {
        RegisterKeepsOutput(s, t, actions, more);
      } else {
        NothingDone(s, actions, more);
      }
    case PickUp(t) =>
      if At(s, t) && s.tasks[t].phase.Polling? {
        PickUpKeepsOutput(s, t, actions, more);
      } else {
        NothingDone(s, actions, more);
      }
    case _ => QuietKeepsOutput(s, a, actions, more);
  }

  lemma NothingDone(s: Mux, actions: seq<Action>, more: seq<Action>)
    requires OutputInv(s, actions) && SameOutput(actions, more)
    ensures OutputInv(s, more)
  {
    if s.book.fatal.None? {
      SameBook(s.book, s.issued, actions, more);
    }
    forall t | 0 <= t < |s.tasks| ensures HandsOutput(s.tasks[t], more) {
      SameHands(s.tasks[t], actions, more);
    }
  }

  // ---------------------------------------------------------------- the promises

  /** What a caller has in hand for request `i` of its batch, and where it came from. */
  lemma InHand(actions: seq<Action>, t: nat, i: nat)
    requires t < |Run(actions).tasks| && Gathered(Run(actions).tasks[t].phase).Some?
    requires i < |Run(actions).tasks[t].reqs|
    ensures var task := Run(actions).tasks[t];
            var replies := Gathered(task.phase).value;
            && |replies| == |task.reqs| && First(task.phase).Some?
            && ReplyHasOutput(replies[i], task.reqs[i], First(task.phase).value + i, actions)
            && RegisteredAs(task, i, t, Run(actions).owners, Run(actions).issued)
  {
    hide Run, BookOutput, RegisteredAs, Answers, ReplyHasOutput;
    EveryRunKeepsOutput(actions);
    EveryAnswerMatches(actions, t);
    assert HandsOutput(Run(actions).tasks[t], actions);
  }

  lemma BatchOf(actions: seq<Action>, t: nat)
    requires t < |Run(actions).tasks| && Gathered(Run(actions).tasks[t].phase).Some?
    ensures var task := Run(actions).tasks[t];
            BatchShape(task.op, task.slot, task.reqs) && task.reqs != []
  {
    hide Run, BookInv, OwnInv, WireInv, SlotInv, ExecInv, OpTyped, Unfed, Serializable, BatchShape, RegisteredAs, Answers;
    EveryRunKeepsInv(actions);
    EveryAnswerMatches(actions, t);
    assert TaskInv(Run(actions).tasks[t]);
  }

  /** A RESULT for the slot, received while request `id` was pending, says what the reply says. */
  ghost predicate ResultReceived(actions: seq<Action>, id: nat, slot: byte, reply: Reply) {
    exists k :: 0 <= k < |actions| && actions[k].Receive?
      && Run(actions[..k]).running && id in Ids(Run(actions[..k]).book.pending)
      && ForSlot(actions[k].msg, 0x08, slot) && ResultSays(actions[k].msg, reply)
  }

  lemma OriginOfResult(actions: seq<Action>, asked: Request, id: nat, reply: Reply)
    requires asked.Execute? && HasOrigin(reply, asked, id, actions)
    ensures ResultReceived(actions, id, asked.exec.slot, reply)
  {
    hide Run, ForSlot, ResultSays;
    var k :| 0 <= k < |actions| && AnsweredBy(actions, k, asked, id, reply);
  }

  lemma LastIsExec(op: Op, slot: Option<byte>, reqs: seq<Request>)
    requires op.RunCommand? && BatchShape(op, slot, reqs) && reqs != []
    ensures var exec := reqs[|reqs| - 1]; exec.Execute? && Some(exec.exec.slot) == slot
  {}

  /** The last of the replies is to the EXEC, the last request: it says what was received for it. */
  ghost predicate HandedOutput(task: Task, actions: seq<Action>) {
    && task.slot.Some? && Gathered(task.phase).Some? && First(task.phase).Some?
    && var replies := Gathered(task.phase).value;
       var last := |task.reqs| - 1;
       && |replies| == |task.reqs| > 0
       && task.reqs[last].Execute? && task.reqs[last].exec.slot == task.slot.value && replies[last].ExecuteReply?
       && replies[last].stdout == ReceivedFor(actions, First(task.phase).value + last)
       && ResultReceived(actions, First(task.phase).value + last, task.slot.value, replies[last])
  }

  lemma ExecHanded(task: Task, actions: seq<Action>)
    requires task.op.RunCommand? && BatchShape(task.op, task.slot, task.reqs) && task.reqs != []
    requires Gathered(task.phase).Some? && First(task.phase).Some? && |Gathered(task.phase).value| == |task.reqs|
    requires var last := |task.reqs| - 1;
             ReplyHasOutput(Gathered(task.phase).value[last], task.reqs[last], First(task.phase).value + last, actions)
    ensures HandedOutput(task, actions)
  {
    hide Run, ReceivedFor, HasOrigin, ResultReceived, BatchShape, First, Gathered;
    LastIsExec(task.op, task.slot, task.reqs);
    var last := |task.reqs| - 1;
    OriginOfResult(actions, task.reqs[last], First(task.phase).value + last, Gathered(task.phase).value[last]);
  }

  /**
    In every run, the reply a command is handed is the one to its EXEC. It carries exactly the payloads of
    the LOG frames received for its slot while that EXEC was pending, in order, and its time, code and
    status are those of a RESULT frame received for its slot while it was pending.
   */
  lemma CommandGetsItsOutput(actions: seq<Action>, t: nat)
    requires t < |Run(actions).tasks| && Run(actions).tasks[t].op.RunCommand?
    requires Gathered(Run(actions).tasks[t].phase).Some?
    ensures HandedOutput(Run(actions).tasks[t], actions)
    ensures var s := Run(actions);
            s.tasks[t].reqs != [] && RegisteredAs(s.tasks[t], |s.tasks[t].reqs| - 1, t, s.owners, s.issued)
  {
    hide Run, RegisteredAs, ReplyHasOutput, HandedOutput, BatchShape;
    BatchOf(actions, t);
    InHand(actions, t, |Run(actions).tasks[t].reqs| - 1);
    ExecHanded(Run(actions).tasks[t], actions);
  }

  lemma FileHanded(task: Task, actions: seq<Action>)
    requires task.op.FetchFile? && BatchShape(task.op, task.slot, task.reqs) && task.reqs != []
    requires Gathered(task.phase).Some? && First(task.phase).Some? && |Gathered(task.phase).value| == |task.reqs|
    requires ReplyHasOutput(Gathered(task.phase).value[0], task.reqs[0], First(task.phase).value, actions)
    ensures |task.reqs| == 1
    ensures var reply := Gathered(task.phase).value[0];
            reply.GetFileReply? && reply.data == ReceivedFor(actions, First(task.phase).value)
  {
    hide Run, ReceivedFor, HasOrigin;
  }

  /** In every run a fetched file is exactly the payloads of the DATA frames received meanwhile, in order. */
  lemma FetchGetsItsFile(actions: seq<Action>, t: nat)
    requires t < |Run(actions).tasks| && Run(actions).tasks[t].op.FetchFile?
    requires Gathered(Run(actions).tasks[t].phase).Some?
    ensures var task := Run(actions).tasks[t];
            var replies := Gathered(task.phase).value;
            && |replies| == 1 && First(task.phase).Some?
            && replies[0].GetFileReply? && replies[0].path == task.op.path
            && replies[0].data == ReceivedFor(actions, First(task.phase).value)
  {
    hide Run, ReceivedFor, RegisteredAs, ReplyHasOutput, BatchShape;
    BatchOf(actions, t);
    InHand(actions, t, 0);
    FileHanded(Run(actions).tasks[t], actions);
    NoUnexpectedReply(actions, t);
  }

  /**
    As long as the connection has not failed, a pending EXEC holds exactly what was logged for it so far,
    at most 16 MiB, and if it streams has forwarded exactly that.
   */
  lemma PendingHoldsItsOutput(actions: seq<Action>, k: nat)
    requires var b := Run(actions).book;
             b.fatal.None? && k < |b.pending| && b.pending[k].request.Execute?
    ensures var e := Run(actions).book.pending[k];
            var x := e.request.exec;
            && x.stdout == ReceivedFor(actions, e.id) && |x.stdout| <= MAX_STDOUT_BYTES
            && (x.streaming ==> Concat(x.streamed) == x.stdout)
  {
    hide Run;
    EveryRunKeepsOutput(actions);
    assert HoldsOutput(Run(actions).book.pending[k], actions);
  }

  /** No frame's output goes to two commands. */
  lemma OutputGoesToOneCommand(actions: seq<Action>, a: Action, id: nat, other: nat)
    requires var s := Run(actions);
             && id != other && id < |s.issued| && other < |s.issued|
             && s.issued[id].Execute? && s.issued[other].Execute?
    ensures Brings(Run(actions), a, id) == [] || Brings(Run(actions), a, other) == []
  {
    hide Run, OwnInv, TasksInv, WireInv, SlotInv, ExecHeld, Serializable, BookInv;
    EveryRunKeepsInv(actions);
    var s := Run(actions);
    var waiting := Ids(s.book.pending);
    hide Ids;
    if id in waiting && other in waiting {
      assert SlotsDistinct(waiting, s.issued);
      assert s.issued[id].exec.slot != s.issued[other].exec.slot;
    }
  }
}
