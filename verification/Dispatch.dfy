/**
  What one decoded frame does to the pending requests, the replies and the fatal marker, as a
  function of the whole book-keeping.
 */
module Dispatch {
  import opened Bytes
  import opened Msgpack
  import opened Stream
  import opened Results
  import opened Requests
  import opened Replies

  datatype Entry = Entry(id: nat, request: Request)

  const MAX_ID: nat := 0xFFFF_FFFF_FFFF_FFFF

  /** A batch queued under consecutive ids. */
  function NewEntries(first: nat, reqs: seq<Request>): (es: seq<Entry>)
    ensures |es| == |reqs| && forall i :: 0 <= i < |es| ==> es[i] == Entry(first + i, reqs[i])
  {
    seq(|reqs|, i requires 0 <= i < |reqs| => Entry(first + i, reqs[i]))
  }

  /** Messages a connection can end with. */
  datatype Fatal =
    | PeerError(detail: Option<bytes>)
    | BadOpcode
    | Refused(fault: Fault)
    | OutputClosed
    | BufferFull(total: nat)
    | CannotDecode
    | CannotRead

  /** Pending requests in registration order, replies not collected yet, and the first fatal message. */
  datatype Book = Book(pending: seq<Entry>, replies: map<nat, Reply>, fatal: Option<Fatal>)

  function OrElse<T>(first: Option<T>, second: T): Option<T> {
    if first.Some? then first else Some(second)
  }

  /** Requests still waiting after the frame, in their old order. */
  function Survivors(todo: seq<Entry>, msg: Frame): (kept: seq<Entry>)
    ensures |kept| <= |todo|
  {
    if todo == [] then [] else
    var last := todo[|todo| - 1];
    var fed := Feed(last.request, msg);
    var earlier := Survivors(todo[..|todo| - 1], msg);
    if fed.outcome.Completed? then earlier else earlier + [Entry(last.id, fed.next)]
  }

  /** Replies of the requests the frame completes, each under its own id. */
  function Filed(replies: map<nat, Reply>, todo: seq<Entry>, msg: Frame): map<nat, Reply> {
    if todo == [] then replies else
    var last := todo[|todo| - 1];
    var earlier := Filed(replies, todo[..|todo| - 1], msg);
    match Feed(last.request, msg).outcome
    case Completed(reply) => earlier[last.id := reply]
    case _ => earlier
  }

  predicate RefusedBy(e: Entry, msg: Frame) {
    Feed(e.request, msg).outcome.Refuse?
  }

  /** Position of the first request that refuses the frame, or the number of requests. */
  function FirstRefusal(todo: seq<Entry>, msg: Frame): (k: nat)
    ensures k <= |todo|
    ensures k < |todo| ==> RefusedBy(todo[k], msg)
    ensures forall i :: 0 <= i < k ==> !RefusedBy(todo[i], msg)
  {
    if todo == [] then 0
    else if RefusedBy(todo[0], msg) then 0
    else 1 + FirstRefusal(todo[1..], msg)
  }

  /**
    A frame meets the requests up to the first that refuses it: those answered leave with their
    reply, the others stay in order; the refusing request and all later ones are untouched.
   */
  function Scan(b: Book, msg: Frame): Book {
    var k := FirstRefusal(b.pending, msg);
    Book(Survivors(b.pending[..k], msg) + b.pending[k..],
         Filed(b.replies, b.pending[..k], msg),
         if k < |b.pending|
         then OrElse(b.fatal, Refused(Feed(b.pending[k].request, msg).outcome.fault))
         else b.fatal)
  }

  /** `locked`: whether a fatal message found the state unlocked and was recorded. */
  function RecordFatal(b: Book, message: Fatal, locked: bool): Book {
    if locked then b.(fatal := OrElse(b.fatal, message)) else b
  }

  function PeerDetail(msg: Frame): Option<bytes> {
    if |msg| > 1 && msg[1].Str? then Some(msg[1].text) else None
  }

  function Deliver(b: Book, msg: Frame, locked: bool): Book {
    if msg == [] then b
    else if Opcode(msg) == Some(OP_ERROR) then RecordFatal(b, PeerError(PeerDetail(msg)), locked)
    else if Opcode(msg).None? then RecordFatal(b, BadOpcode, locked)
    else Scan(b, msg)
  }

  /** What can happen to the books: a frame, a batch queued, replies picked up. */
  datatype Event = Delivered(msg: Frame, locked: bool) | Registered(entries: seq<Entry>) | Collected(ids: set<nat>)

  function Apply(b: Book, e: Event): Book {
    match e
    case Delivered(msg, locked) => Deliver(b, msg, locked)
    case Registered(entries) => b.(pending := b.pending + entries)
    case Collected(ids) => b.(replies := b.replies - ids)
  }

  function Replay(b: Book, events: seq<Event>): Book {
    if events == [] then b else Apply(Replay(b, events[..|events| - 1]), events[|events| - 1])
  }

  /** The frames among the events, in order. */
  function FramesIn(events: seq<Event>): seq<Frame> {
    if events == [] then []
    else FramesIn(events[..|events| - 1])
         + (if events[|events| - 1].Delivered? then [events[|events| - 1].msg] else [])
  }

  // ---------------------------------------------------------------- properties

  ghost predicate Ascending(todo: seq<Entry>) {
    forall i, j :: 0 <= i < j < |todo| ==> todo[i].id < todo[j].id
  }

  function Ids(todo: seq<Entry>): set<nat> {
    set i | 0 <= i < |todo| :: todo[i].id
  }

  predicate Survives(e: Entry, msg: Frame) {
    !Feed(e.request, msg).outcome.Completed?
  }

  lemma LastSurvivor(todo: seq<Entry>, msg: Frame)
    ensures todo == [] ==> Survivors(todo, msg) == []
    ensures todo != [] ==>
      var n := |todo| - 1;
      Survivors(todo, msg) == Survivors(todo[..n], msg)
        + (if Survives(todo[n], msg) then [Entry(todo[n].id, Feed(todo[n].request, msg).next)] else [])
  {
    hide Feed;
  }

  /**
    Where each survivor stood: the positions ascend, so survivors keep their relative order, and every
    request the frame does not complete survives.
   */
  lemma {:induction false} SurvivorsKeepOrder(todo: seq<Entry>, msg: Frame) returns (from: seq<nat>)
    ensures |from| == |Survivors(todo, msg)|
    ensures forall i, j :: 0 <= i < j < |from| ==> from[i] < from[j]
    ensures forall i :: 0 <= i < |from| ==>
      (from[i] < |todo| && Survives(todo[from[i]], msg)
       && Survivors(todo, msg)[i] == Entry(todo[from[i]].id, Feed(todo[from[i]].request, msg).next))
    ensures forall k :: 0 <= k < |todo| && Survives(todo[k], msg) ==> k in from
    decreases |todo|
  {
    hide Feed, Survivors, Survives;
    LastSurvivor(todo, msg);
    if todo == [] {
      from := [];
    } else {
      var n := |todo| - 1;
      from := SurvivorsKeepOrder(todo[..n], msg);
      if Survives(todo[n], msg) {
        from := from + [n];
      }
      forall k | 0 <= k < |todo| && Survives(todo[k], msg) ensures k in from {
        if k < n {
          assert Survives(todo[..n][k], msg);
        }
      }
    }
  }

  /** The reply filed under a completed request's id is the one that request gave. */
  lemma {:induction false} FiledIsOwnReply(replies: map<nat, Reply>, todo: seq<Entry>, msg: Frame)
    requires Ascending(todo)
    ensures forall k :: 0 <= k < |todo| && Feed(todo[k].request, msg).outcome.Completed? ==>
              (todo[k].id in Filed(replies, todo, msg)
               && Filed(replies, todo, msg)[todo[k].id] == Feed(todo[k].request, msg).outcome.reply)
    decreases |todo|
  {
    hide Feed;
    if todo != [] {
      var n := |todo| - 1;
      FiledIsOwnReply(replies, todo[..n], msg);
      forall k | 0 <= k < |todo| && Feed(todo[k].request, msg).outcome.Completed?
        ensures todo[k].id in Filed(replies, todo, msg)
        ensures Filed(replies, todo, msg)[todo[k].id] == Feed(todo[k].request, msg).outcome.reply
      {
        if k < n {
          assert todo[..n][k] == todo[k];
        }
      }
    }
  }

  lemma IdsOfLast(todo: seq<Entry>, last: Entry)
    requires Ascending(todo) && forall id :: id in Ids(todo) ==> id < last.id
    ensures Ids(todo + [last]) == Ids(todo) + {last.id} && Ascending(todo + [last])
  {
    var all := todo + [last];
    assert forall i :: 0 <= i < |todo| ==> all[i] == todo[i] && all[i].id in Ids(todo);
    assert all[|todo|].id == last.id;
  }

  lemma AscendingFront(todo: seq<Entry>)
    requires Ascending(todo) && todo != []
    ensures var n := |todo| - 1;
            && Ascending(todo[..n]) && todo[..n] + [todo[n]] == todo
            && forall id :: id in Ids(todo[..n]) ==> id < todo[n].id
  {}

  /** Every request that was there is afterwards either still pending or has its reply filed. */
  lemma {:induction false} NoRequestLost(replies: map<nat, Reply>, todo: seq<Entry>, msg: Frame)
    requires Ascending(todo)
    ensures Ascending(Survivors(todo, msg))
    ensures Ids(Survivors(todo, msg)) <= Ids(todo)
    ensures Filed(replies, todo, msg).Keys == replies.Keys + (Ids(todo) - Ids(Survivors(todo, msg)))
    ensures forall id :: id in replies && id !in Ids(todo) ==> Filed(replies, todo, msg)[id] == replies[id]
    decreases |todo|
  {
    hide Feed, Ids, Ascending;
    if todo != [] {
      var n := |todo| - 1;
      var init, last := todo[..n], todo[n];
      AscendingFront(todo);
      IdsOfLast(init, last);
      NoRequestLost(replies, init, msg);
      var fed := Feed(last.request, msg);
      if !fed.outcome.Completed? {
        IdsOfLast(Survivors(init, msg), Entry(last.id, fed.next));
      }
    } else {
      assert Ids([]) == {} by { NoIds(); }
    }
  }

  lemma NoIds()
    ensures Ids([]) == {}
  {}

  /** A fatal message, once there, is never replaced, whatever frame arrives. */
  lemma FatalIsKept(b: Book, msg: Frame, locked: bool)
    requires b.fatal.Some?
    ensures Deliver(b, msg, locked).fatal == b.fatal
  {}

  /**
    A frame that some request refuses still reaches those before it, and no other: the first that refuses
    and all behind it stay as they are.
   */
  lemma RefusalStopsTheScan(b: Book, msg: Frame) returns (k: nat)
    ensures k <= |b.pending| && (k < |b.pending| ==> RefusesFrame(b.pending[k].request, msg))
    ensures forall i :: 0 <= i < k ==> !RefusesFrame(b.pending[i].request, msg)
    ensures Scan(b, msg).pending == Survivors(b.pending[..k], msg) + b.pending[k..]
    ensures Scan(b, msg).replies == Filed(b.replies, b.pending[..k], msg)
    ensures b.fatal.Some? ==> Scan(b, msg).fatal == b.fatal
  {
    hide Feed, FirstRefusal, RefusesFrame, Survivors, Filed;
    k := FirstRefusal(b.pending, msg);
    if k < |b.pending| {
      assert RefusedBy(b.pending[k], msg);
      FeedIff(b.pending[k].request, msg);
    }
    forall i | 0 <= i < k ensures !RefusesFrame(b.pending[i].request, msg) {
      assert !RefusedBy(b.pending[i], msg);
      FeedIff(b.pending[i].request, msg);
    }
  }

  /** The first field is a number that can be an opcode. */
  ghost predicate HasAnyOpcode(msg: Frame) {
    exists code: byte :: HasOpcode(msg, code)
  }

  ghost predicate SomeoneRefuses(todo: seq<Entry>, msg: Frame) {
    exists k :: 0 <= k < |todo| && RefusesFrame(todo[k].request, msg)
  }

  lemma OpcodeIsAny(msg: Frame)
    ensures Opcode(msg).Some? <==> HasAnyOpcode(msg)
    ensures Opcode(msg) == Some(OP_ERROR) <==> HasOpcode(msg, 0xFF)
  {
    OpcodeIs(msg, 0xFF);
    if Opcode(msg).Some? {
      OpcodeIs(msg, Opcode(msg).value);
    }
  }

  lemma RefusalIff(todo: seq<Entry>, msg: Frame)
    ensures FirstRefusal(todo, msg) < |todo| <==> SomeoneRefuses(todo, msg)
  {
    hide Feed, FirstRefusal, RefusesFrame;
    var k := FirstRefusal(todo, msg);
    if k < |todo| {
      assert RefusedBy(todo[k], msg);
      FeedIff(todo[k].request, msg);
    }
    if m :| 0 <= m < |todo| && RefusesFrame(todo[m].request, msg) {
      FeedIff(todo[m].request, msg);
      assert RefusedBy(todo[m], msg);
    }
  }

  /**
    When a frame condemns the connection, and with which message: an ERROR frame, or one without an opcode,
    that could be recorded; or any other that some pending request refuses. The first two touch no request.
   */
  lemma FatalIff(b: Book, msg: Frame, locked: bool)
    requires b.fatal.None?
    ensures var r := Deliver(b, msg, locked);
            r.fatal.Some? <==>
              msg != [] && if HasOpcode(msg, 0xFF) || !HasAnyOpcode(msg) then locked else SomeoneRefuses(b.pending, msg)
    ensures var r := Deliver(b, msg, locked);
            && (HasOpcode(msg, 0xFF) && locked ==>
                  r.fatal == Some(PeerError(if |msg| > 1 && msg[1].Str? then Some(msg[1].text) else None)))
            && (msg != [] && !HasAnyOpcode(msg) && locked ==> r.fatal == Some(BadOpcode))
            && (msg == [] || HasOpcode(msg, 0xFF) || !HasAnyOpcode(msg) ==> r.pending == b.pending && r.replies == b.replies)
  {
    hide Feed, FirstRefusal, HasAnyOpcode, HasOpcode, SomeoneRefuses;
    OpcodeIsAny(msg);
    RefusalIff(b.pending, msg);
  }
}
