/** The live connection: its book-keeping updated in place, and the poll task that reads replies. */
module Connection {
  import opened Bytes
  import opened Msgpack
  import opened Stream
  import opened Results
  import opened Requests
  import opened RequestObjects
  import opened Dispatch

  const MAX_BUFFERED_BYTES: nat := 8 * 0x10_0000

  datatype Pending = Pending(id: nat, request: RequestObject)

  datatype SendError = Ended(fatal: Fatal) | IdOverflow

  /** One attempt of `gather` to pick up its replies. */
  datatype Pickup = NotYet | Gone(fatal: Fatal) | Desynchronized | NotConnected | Picked(replies: seq<Reply>)

  /** What a read of the output FIFO yields: bytes (none when every writer is gone) or a failure. */
  datatype Read = Chunk(data: bytes) | ReadFailed

  /** Why the poll task ended. */
  datatype Ending = Stopped | OnFatal | Closed | OverCap | Failed | OutOfInput

  function Data(chunks: seq<Read>): seq<bytes> {
    if chunks == [] then [] else
    Data(chunks[..|chunks| - 1]) + (match chunks[|chunks| - 1] case Chunk(d) => [d] case ReadFailed => [])
  }

  ghost function Views(rs: seq<RequestObject>): (vs: seq<Request>)
    reads set r | r in rs :: Cell(r)
    ensures |vs| == |rs| && forall i :: 0 <= i < |rs| ==> vs[i] == View(rs[i])
  {
    if rs == [] then [] else [View(rs[0])] + Views(rs[1..])
  }

  ghost function EntriesOf(ps: seq<Pending>): (es: seq<Entry>)
    reads set p | p in ps :: Cell(p.request)
    ensures |es| == |ps| && forall i :: 0 <= i < |ps| ==> es[i] == Entry(ps[i].id, View(ps[i].request))
  {
    if ps == [] then [] else [Entry(ps[0].id, View(ps[0].request))] + EntriesOf(ps[1..])
  }

  lemma NothingSeen(queue: seq<Entry>, msg: Frame, replies: map<nat, Reply>)
    ensures Survivors(queue[..0], msg) == [] && Filed(replies, queue[..0], msg) == replies
    ensures Border(queue, 0, msg) == queue
  {}

  lemma {:induction false} FirstRefusalIs(todo: seq<Entry>, msg: Frame, k: nat)
    requires k <= |todo| && (k < |todo| ==> RefusedBy(todo[k], msg))
    requires forall i :: 0 <= i < k ==> !RefusedBy(todo[i], msg)
    ensures FirstRefusal(todo, msg) == k
  {}

  lemma ScanIs(b: Book, msg: Frame, k: nat)
    requires k <= |b.pending| && (k < |b.pending| ==> RefusedBy(b.pending[k], msg))
    requires forall i :: 0 <= i < k ==> !RefusedBy(b.pending[i], msg)
    ensures Scan(b, msg) == Book(
      Border(b.pending, k, msg),
      Filed(b.replies, b.pending[..k], msg),
      if k < |b.pending| then OrElse(b.fatal, Refused(Feed(b.pending[k].request, msg).outcome.fault)) else b.fatal)
  {
    hide Feed, Survivors, Filed;
    FirstRefusalIs(b.pending, msg, k);
  }

  /** The border of the scan: seen survivors on the left, unseen entries on the right. */
  function Border(queue: seq<Entry>, done: nat, msg: Frame): (b: seq<Entry>)
    requires done <= |queue|
    ensures |b| == |Survivors(queue[..done], msg)| + |queue| - done
  {
    Survivors(queue[..done], msg) + queue[done..]
  }

  lemma BorderHead(queue: seq<Entry>, done: nat, msg: Frame)
    requires done < |queue|
    ensures |Survivors(queue[..done], msg)| < |Border(queue, done, msg)|
    ensures Border(queue, done, msg)[|Survivors(queue[..done], msg)|] == queue[done]
  {
    hide Survivors;
  }

  /** A request that goes on waiting joins the survivors where it stands. */
  lemma BorderPassesWaiting(queue: seq<Entry>, done: nat, msg: Frame, replies: map<nat, Reply>)
    requires done < |queue| && Feed(queue[done].request, msg).outcome.Waiting?
    ensures var seen := Survivors(queue[..done], msg);
            && Border(queue, done + 1, msg)
               == Border(queue, done, msg)[|seen| := Entry(queue[done].id, Feed(queue[done].request, msg).next)]
            && |Survivors(queue[..done + 1], msg)| == |seen| + 1
            && Filed(replies, queue[..done + 1], msg) == Filed(replies, queue[..done], msg)
  {
    hide Feed;
    assert queue[..done + 1][..done] == queue[..done];
  }

  /** An answered request is taken out, and its reply filed. */
  lemma BorderPassesCompleted(queue: seq<Entry>, done: nat, msg: Frame, replies: map<nat, Reply>)
    requires done < |queue| && Feed(queue[done].request, msg).outcome.Completed?
    ensures var seen := Survivors(queue[..done], msg);
            && Border(queue, done + 1, msg) == Border(queue, done, msg)[..|seen|] + Border(queue, done, msg)[|seen| + 1..]
            && |Survivors(queue[..done + 1], msg)| == |seen|
            && Filed(replies, queue[..done + 1], msg)
               == Filed(replies, queue[..done], msg)[queue[done].id := Feed(queue[done].request, msg).outcome.reply]
  {
    hide Feed;
    assert queue[..done + 1][..done] == queue[..done];
  }

  lemma RefusalChangesNothing(r: Request, msg: Frame)
    ensures Feed(r, msg).outcome.Refuse? ==> Feed(r, msg).next == r
  {}

  ghost function CellsIn(ps: seq<Pending>): set<object> {
    set i | 0 <= i < |ps| :: Cell(ps[i].request)
  }

  ghost function CellsOf(rs: seq<RequestObject>): set<object> {
    set i | 0 <= i < |rs| :: Cell(rs[i])
  }

  ghost predicate Queued(before: seq<Pending>, rs: seq<RequestObject>, after: seq<Pending>) {
    && |after| == |before| + |rs|
    && (forall i :: 0 <= i < |before| ==> after[i] == before[i])
    && forall i :: |before| <= i < |after| ==> after[i].request == rs[i - |before|]
  }

  lemma CellsJoin(before: seq<Pending>, rs: seq<RequestObject>, after: seq<Pending>)
    requires Queued(before, rs, after)
    ensures CellsIn(after) == CellsIn(before) + CellsOf(rs)
  {
    forall o | o in CellsIn(before) ensures o in CellsIn(after) {
      var i :| 0 <= i < |before| && Cell(before[i].request) == o;
      assert after[i] == before[i];
    }
    forall o | o in CellsOf(rs) ensures o in CellsIn(after) {
      var i :| 0 <= i < |rs| && Cell(rs[i]) == o;
      assert after[|before| + i].request == rs[i];
    }
    forall o | o in CellsIn(after) ensures o in CellsIn(before) + CellsOf(rs) {
      var i :| 0 <= i < |after| && Cell(after[i].request) == o;
      if i < |before| {
        assert before[i] == after[i];
      }
    }
  }

  /** Any list of ids without repetition. */
  method SomeIds() returns (ids: seq<nat>)
    ensures forall i, j :: 0 <= i < j < |ids| ==> ids[i] != ids[j]
  {
    var count: nat := *;
    ids := [];
    while |ids| < count
      invariant forall i, j :: 0 <= i < j < |ids| ==> ids[i] != ids[j]
      decreases count - |ids|
    {
      var id: nat := *;
      if id in ids { break; }
      ids := ids + [id];
    }
  }

  /** New objects for a batch of requests, no two of them the same. */
  method NewBatch(requests: seq<Request>) returns (batch: seq<RequestObject>)
    ensures |batch| == |requests|
    ensures forall i :: 0 <= i < |batch| ==> fresh(Cell(batch[i])) && View(batch[i]) == requests[i]
    ensures forall i, j :: 0 <= i < j < |batch| ==> Cell(batch[i]) != Cell(batch[j])
  {
    batch := [];
    for k := 0 to |requests|
      invariant |batch| == k
      invariant forall i :: 0 <= i < |batch| ==> fresh(Cell(batch[i])) && View(batch[i]) == requests[i]
      invariant forall i, j :: 0 <= i < j < |batch| ==> Cell(batch[i]) != Cell(batch[j])
    {
      var o := NewObject(requests[k]);
      batch := batch + [o];
    }
  }

  class Ltx {
    var pending: seq<Pending>
    var replies: map<nat, Reply>
    var nextId: nat
    var fatal: Option<Fatal>
    var running: bool
    var desynced: bool
    /** Everything that has happened to the books so far. */
    ghost var log: seq<Event>

    /** The state `connect` leaves behind. */
    constructor ()
      ensures pending == [] && replies == map[] && nextId == 0 && fatal == None
      ensures running && !desynced && log == []
    {
      pending, replies, nextId, fatal := [], map[], 0, None;
      running, desynced, log := true, false, [];
    }

    ghost function Cells(): set<object>
      reads this`pending
    {
      CellsIn(pending)
    }

    ghost predicate Valid()
      reads this`pending
    {
      && this !in Cells()
      && forall i, j :: 0 <= i < j < |pending| ==> Cell(pending[i].request) != Cell(pending[j].request)
    }

    ghost function Queue(): (q: seq<Entry>)
      reads this`pending, Cells()
      ensures |q| == |pending|
    {
      EntriesOf(pending)
    }

    ghost function State(): Book
      reads this, Cells()
    {
      Book(Queue(), replies, fatal)
    }

    /** Files a whole batch under fresh consecutive ids, or nothing at all. */
    method Register(requests: seq<RequestObject>) returns (r: Result<seq<nat>, SendError>)
      requires Valid()
      requires forall i :: 0 <= i < |requests| ==> Cell(requests[i]) != this && Cell(requests[i]) !in Cells()
      requires forall i, j :: 0 <= i < j < |requests| ==> Cell(requests[i]) != Cell(requests[j])
      modifies this`pending, this`nextId, this`log
      ensures Valid()
      ensures log == old(log) + (if r.Ok? then [Registered(NewEntries(old(nextId), Views(requests)))] else [])
      ensures r.Ok? ==> Queued(old(pending), requests, pending)
      ensures match r
              case Err(Ended(f)) => old(fatal) == Some(f)
              case Err(IdOverflow) => old(fatal).None? && old(nextId) + |requests| > MAX_ID
              case Ok(ids) => old(fatal).None? && ids == seq(|requests|, i => old(nextId) + i)
      ensures r.Err? ==> pending == old(pending) && nextId == old(nextId)
      ensures r.Ok? ==> nextId == old(nextId) + |requests|
      ensures r.Ok? ==> Queue() == old(Queue()) + NewEntries(old(nextId), Views(requests))
    {
      hide EntriesOf, Views, Cell;
      if fatal.Some? { return Err(Ended(fatal.value)); }
      if nextId + |requests| > MAX_ID { return Err(IdOverflow); }
      var ids := [];
      var k := 0;
      while k < |requests|
        invariant k <= |requests|
        invariant nextId == old(nextId) + k && log == old(log)
        invariant ids == seq(k, i => old(nextId) + i)
        invariant |pending| == |old(pending)| + k
        invariant forall i :: 0 <= i < |old(pending)| ==> pending[i] == old(pending)[i]
        invariant forall i :: |old(pending)| <= i < |pending| ==>
          pending[i] == Pending(old(nextId) + (i - |old(pending)|), requests[i - |old(pending)|])
      {
        var id := nextId;
        nextId := nextId + 1;
        ids := ids + [id];
        pending := pending + [Pending(id, requests[k])];
        k := k + 1;
      }
      ghost var filed := old(Queue()) + NewEntries(old(nextId), Views(requests));
      forall i | 0 <= i < |filed| ensures Queue()[i] == filed[i] {
        if i < |old(pending)| {
          assert Cell(old(pending)[i].request) in old(Cells());
          assert View(pending[i].request) == old(View(pending[i].request));
        }
      }
      log := log + [Registered(NewEntries(old(nextId), Views(requests)))];
      return Ok(ids);
    }

    /** Keeps the first fatal message; a message that finds the state locked is lost. */
    method Record(message: Fatal, locked: bool)
      requires Valid()
      modifies this`fatal
      ensures Valid() && Queue() == old(Queue())
      ensures fatal == if locked then OrElse(old(fatal), message) else old(fatal)
    {
      if locked {
        if fatal.None? { fatal := Some(message); }
      }
    }

    method FeedAt(position: nat, msg: Frame) returns (out: Outcome)
      requires Valid() && position < |pending|
      modifies Cell(pending[position].request)
      ensures Valid()
      ensures var e := old(Queue())[position];
              var fed := Feed(e.request, msg);
              out == fed.outcome && Queue() == old(Queue())[position := Entry(e.id, fed.next)]
    {
      out := FeedObject(pending[position].request, msg);
      forall i | 0 <= i < |pending| && i != position
        ensures View(pending[i].request) == old(View(pending[i].request))
      {
        assert Cell(pending[i].request) != Cell(pending[position].request);
      }
    }

    method RemoveAt(position: nat)
      requires Valid() && position < |pending|
      modifies this`pending
      ensures Valid() && Cells() <= old(Cells())
      ensures Queue() == old(Queue())[..position] + old(Queue())[position + 1..]
    {
      pending := pending[..position] + pending[position + 1..];
    }

    /** One turn of the scan: feed the request at `position` and act on what it makes of the frame. */
    method Turn(position: nat, msg: Frame) returns (out: Outcome)
      requires Valid() && position < |pending|
      modifies this`pending, this`replies, this`fatal, Cells()
      ensures Valid() && Cells() <= old(Cells())
      ensures var e := old(Queue())[position];
              var fed := Feed(e.request, msg);
              out == fed.outcome &&
              match out
              case Completed(reply) =>
                && Queue() == old(Queue())[..position] + old(Queue())[position + 1..]
                && replies == old(replies)[e.id := reply] && fatal == old(fatal)
              case Waiting =>
                && Queue() == old(Queue())[position := Entry(e.id, fed.next)]
                && replies == old(replies) && fatal == old(fatal)
              case Refuse(error) =>
                && Queue() == old(Queue())
                && replies == old(replies) && fatal == OrElse(old(fatal), Refused(error))
    {
      hide Feed, EntriesOf, View, Cell;
      RefusalChangesNothing(Queue()[position].request, msg);
      out := FeedAt(position, msg);
      match out {
        case Completed(reply) =>
          var id := pending[position].id;
          RemoveAt(position);
          replies := replies[id := reply];
        case Waiting =>
        case Refuse(error) =>
          fatal := OrElse(fatal, Refused(error));
      }
    }

    /** The scan over the pending requests, removing the answered ones on the way. */
    method ScanPending(msg: Frame)
      requires Valid()
      modifies this`pending, this`replies, this`fatal, Cells()
      ensures Valid() && Cells() <= old(Cells())
      ensures State() == Scan(old(State()), msg)
    {
      hide Feed, Survivors, Filed, Border, EntriesOf, View, Cell, Scan, Valid, Cells;
      ghost var start := State();
      ghost var queue := Queue();
      ghost var done: nat := 0;
      var position := 0;
      NothingSeen(queue, msg, replies);
      while position < |pending|
        invariant done <= |queue| && position <= |pending|
        invariant Valid() && Cells() <= old(Cells())
        invariant position == |Survivors(queue[..done], msg)|
        invariant Queue() == Border(queue, done, msg)
        invariant replies == Filed(old(replies), queue[..done], msg)
        invariant fatal == old(fatal)
        invariant forall i :: 0 <= i < done ==> !RefusedBy(queue[i], msg)
        decreases |queue| - done
      {
        BorderHead(queue, done, msg);
        var out := Turn(position, msg);
        if out.Refuse? {
          break;
        }
        if out.Waiting? {
          BorderPassesWaiting(queue, done, msg, old(replies));
          position := position + 1;
        } else {
          BorderPassesCompleted(queue, done, msg, old(replies));
        }
        done := done + 1;
      }
      ScanIs(start, msg, done);
    }

    /** Hands one decoded frame to the pending requests; `locked` as for `Record`. */
    method DispatchFrame(msg: Frame, locked: bool)
      requires Valid()
      modifies this`pending, this`replies, this`fatal, this`log, Cells()
      ensures Valid() && Cells() <= old(Cells())
      ensures State() == Deliver(old(State()), msg, locked)
      ensures log == old(log) + [Delivered(msg, locked)]
    {
      hide Feed, EntriesOf, View, Cell, Scan;
      log := log + [Delivered(msg, locked)];
      if msg == [] { return; }
      if AsByte(msg[0]) == Some(OP_ERROR) {
        Record(PeerError(PeerDetail(msg)), locked);
        return;
      }
      if AsByte(msg[0]).None? {
        Record(BadOpcode, locked);
        return;
      }
      ScanPending(msg);
    }

    /** Picks up the replies to a batch once all of them are filed, in the order of its ids. */
    method Collect(ids: seq<nat>) returns (p: Pickup)
      requires forall i, j :: 0 <= i < j < |ids| ==> ids[i] != ids[j]
      modifies this`replies, this`log
      ensures log == old(log) + (if p.Picked? then [Collected(IdSet(ids, |ids|))] else [])
      ensures p.Gone? <==> fatal.Some?
      ensures fatal.Some? ==> p == Gone(fatal.value)
      ensures fatal.None? ==> (p.Desynchronized? <==> desynced)
      ensures fatal.None? && !desynced ==> (p.NotConnected? <==> !running)
      ensures fatal.None? && !desynced && running ==>
        (p.Picked? <==> forall i :: 0 <= i < |ids| ==> ids[i] in old(replies))
      ensures p.Picked? ==>
        && |p.replies| == |ids|
        && (forall i :: 0 <= i < |ids| ==> ids[i] in old(replies) && p.replies[i] == old(replies)[ids[i]])
        && replies == old(replies) - IdSet(ids, |ids|)
      ensures !p.Picked? ==> replies == old(replies)
    {
      hide IdSet;
      if fatal.Some? { return Gone(fatal.value); }
      if desynced { return Desynchronized; }
      if !running { return NotConnected; }
      if |replies| < |ids| {
        KeysFillCount(ids, replies);
        return NotYet;
      }
      var k := 0;
      while k < |ids|
        invariant k <= |ids| && log == old(log)
        invariant forall i :: 0 <= i < k ==> ids[i] in replies
      {
        if ids[k] !in replies { return NotYet; }
        k := k + 1;
      }
      var picked := [];
      k := 0;
      NoneTaken(replies, ids);
      while k < |ids|
        invariant k <= |ids| && |picked| == k && log == old(log)
        invariant forall i :: 0 <= i < k ==> picked[i] == old(replies)[ids[i]]
        invariant replies == old(replies) - IdSet(ids, k)
      {
        OneMoreTaken(old(replies), ids, k);
        if ids[k] in replies {
          picked := picked + [replies[ids[k]]];
          replies := replies - {ids[k]};
        }
        k := k + 1;
      }
      log := log + [Collected(IdSet(ids, |ids|))];
      return Picked(picked);
    }

    /** One of the other tasks registers a batch of its own. */
    method SomeoneRegisters()
      requires Valid()
      modifies this`pending, this`nextId, this`log
      ensures Valid() && (forall o :: o in Cells() ==> o in old(Cells()) || fresh(o))
      ensures old(log) <= log && FramesIn(log[|old(log)|..]) == []
      ensures State() == Replay(old(State()), log[|old(log)|..])
    {
      hide EntriesOf, View, Apply, Replay, FramesIn;
      ghost var before := State();
      var requests: seq<Request> := *;
      var batch := NewBatch(requests);
      assert State() == before;
      forall i | 0 <= i < |batch| ensures Cell(batch[i]) != this && Cell(batch[i]) !in Cells() {}
      var r := Register(batch);
      OneEvent(before, log[|old(log)|..]);
      if r.Ok? {
        CellsJoin(old(pending), batch, pending);
        assert log[|old(log)|..] == [log[|old(log)|]];
        assert State() == Apply(before, log[|old(log)|]) by { AppliedToOthers(before, log[|old(log)|]); }
      } else {
        assert log[|old(log)|..] == [];
      }
    }

    /** One of the other tasks looks for its replies. */
    method SomeonePicksUp()
      requires Valid()
      modifies this`replies, this`log
      ensures Valid()
      ensures old(log) <= log && FramesIn(log[|old(log)|..]) == []
      ensures State() == Replay(old(State()), log[|old(log)|..])
    {
      hide EntriesOf, View, Apply, Replay, FramesIn;
      ghost var before := State();
      var ids := SomeIds();
      var p := Collect(ids);
      OneEvent(before, log[|old(log)|..]);
      forall i | 0 <= i < |pending| ensures Queue()[i] == before.pending[i] {
        assert Cell(pending[i].request) in Cells();
        assert View(pending[i].request) == old(View(pending[i].request));
      }
      if p.Picked? {
        assert log[|old(log)|..] == [log[|old(log)|]];
        AppliedToOthers(before, log[|old(log)|]);
      } else {
        assert log[|old(log)|..] == [];
      }
    }

    /** Whatever the other tasks do while the poll task waits: batches, pick-ups, a broken send. */
    method OtherTasks()
      requires Valid()
      modifies this`pending, this`replies, this`nextId, this`desynced, this`log
      ensures Valid() && (forall o :: o in Cells() ==> o in old(Cells()) || fresh(o))
      ensures old(log) <= log && FramesIn(log[|old(log)|..]) == []
      ensures State() == Replay(old(State()), log[|old(log)|..])
    {
      hide EntriesOf, View, Cell, Apply, Replay, FramesIn;
      NothingHappened(State());
      var turns: nat := *;
      ghost var start := State();
      assert log[|old(log)|..] == [];
      while turns > 0
        invariant Valid() && (forall o :: o in Cells() ==> o in old(Cells()) || fresh(o))
        invariant old(log) <= log && FramesIn(log[|old(log)|..]) == []
        invariant State() == Replay(start, log[|old(log)|..])
      {
        turns := turns - 1;
        ghost var sofar := log;
        var registers: bool := *;
        if registers {
          SomeoneRegisters();
        } else {
          SomeonePicksUp();
        }
        ReplayJoin(start, sofar[|old(log)|..], log[|sofar|..]);
        assert log[|old(log)|..] == sofar[|old(log)|..] + log[|sofar|..];
      }
      var breaks: bool := *;
      desynced := desynced || breaks;
    }

    /** Decodes and dispatches every complete frame in the buffer; returns the bytes left. */
    method DrainBuffer(buffered: bytes) returns (rest: bytes)
      requires Valid()
      modifies this`pending, this`replies, this`fatal, this`nextId, this`desynced, this`log, Cells()
      ensures Valid() && (forall o :: o in Cells() ==> o in old(Cells()) || fresh(o))
      ensures |rest| <= |buffered| && old(log) <= log
      ensures DecodeAll(buffered) == Resume(FramesIn(log[|old(log)|..]), rest)
      ensures Follows(State(), Replay(old(State()), log[|old(log)|..]))
      ensures DecodeOne(rest).Done? ==> fatal.Some?
      ensures OwnMessage(Replay(old(State()), log[|old(log)|..]).fatal, fatal, CannotDecode)
      ensures DecodeOne(rest) == Corrupt || fatal == Replay(old(State()), log[|old(log)|..]).fatal
    {
      hide Feed, EntriesOf, View, Cell, Deliver, DecodeOne, Apply, Replay, FramesIn, DecodeAll, CellsIn;
      rest := buffered;
      ghost var start := State();
      NothingHappened(start);
      ResumeNothing(buffered);
      assert log[|old(log)|..] == [];
      var going := true;
      while going
        invariant Valid() && (forall o :: o in Cells() ==> o in old(Cells()) || fresh(o))
        invariant |rest| <= |buffered| && old(log) <= log
        invariant DecodeAll(buffered) == Resume(FramesIn(log[|old(log)|..]), rest)
        invariant Follows(State(), Replay(start, log[|old(log)|..]))
        invariant going ==> State() == Replay(start, log[|old(log)|..])
        invariant !going ==> (DecodeOne(rest).Done? ==> fatal.Some?)
        invariant OwnMessage(Replay(start, log[|old(log)|..]).fatal, fatal, CannotDecode)
        invariant DecodeOne(rest) == Corrupt || fatal == Replay(start, log[|old(log)|..]).fatal
        decreases going, |rest|
      {
        ghost var before := log;
        OtherTasks();
        ReplayJoin(start, before[|old(log)|..], log[|before|..]);
        assert log[|old(log)|..] == before[|old(log)|..] + log[|before|..];
        ghost var seen := log[|old(log)|..];
        assert State() == Replay(start, seen) && DecodeAll(buffered) == Resume(FramesIn(seen), rest);
        match DecodeOne(rest) {
          case Done(msg, used) =>
            ResumeStep(FramesIn(seen), rest);
            rest := rest[used..];
            var locked: bool := *;
            DispatchFrame(msg, locked);
            assert log[|old(log)|..] == seen + [Delivered(msg, locked)];
            FrameHappened(start, seen, msg, locked);
            if fatal.Some? { going := false; }
          case More =>
            going := false;
          case Corrupt =>
            var locked: bool := *;
            Record(CannotDecode, locked);
            going := false;
        }
      }
    }

    /** The poll task: reads until told to stop, the peer is gone, or something fatal was recorded. */
    method PollLoop(input: seq<Read>) returns (taken: nat, rest: bytes, ending: Ending)
      requires Valid() && log == [] && running
      modifies this`pending, this`replies, this`fatal, this`nextId, this`desynced, this`log, this`running, Cells()
      ensures Valid() && (forall o :: o in Cells() ==> o in old(Cells()) || fresh(o))
      ensures taken <= |input| && |rest| <= MAX_BUFFERED_BYTES
      ensures running <==> ending.OutOfInput?
      ensures ending.OutOfInput? ==> taken == |input|
      ensures DecodeAll(Concat(Data(input[..taken]))) == Resume(FramesIn(log), rest)
      ensures !ending.OnFatal? ==> DecodeAll(Concat(Data(input[..taken]))) == Decoded(FramesIn(log), rest)
      ensures ending.OnFatal? ==> fatal.Some?
      ensures Follows(State(), Replay(old(State()), log))
      ensures forall k :: 0 <= k < taken ==> input[k].Chunk? && input[k].data != []
      ensures EndsFor(ending, input, taken, rest)
      ensures OwnEnding(ending, input, taken, rest, Replay(old(State()), log).fatal, fatal)
    {
      hide Feed, EntriesOf, View, Cell, Deliver, DecodeOne, Concat, DecodeAll, Apply, Replay, FramesIn, CellsIn,
           EndsFor, OwnEnding;
      taken, rest, ending := 0, [], OutOfInput;
      NothingReceived();
      ghost var start := State();
      NothingHappened(start);
      EndingIs(ending, input, taken, rest, fatal, fatal);
      while taken < |input| && ending == OutOfInput
        invariant Valid() && (forall o :: o in Cells() ==> o in old(Cells()) || fresh(o))
        invariant taken <= |input| && |rest| <= MAX_BUFFERED_BYTES && running
        invariant DecodeAll(Concat(Data(input[..taken]))) == Resume(FramesIn(log), rest)
        invariant !ending.OnFatal? ==> DecodeAll(Concat(Data(input[..taken]))) == Decoded(FramesIn(log), rest)
        invariant ending.OnFatal? ==> fatal.Some?
        invariant Follows(State(), Replay(start, log))
        invariant forall k :: 0 <= k < taken ==> input[k].Chunk? && input[k].data != []
        invariant ending.OutOfInput? || EndsFor(ending, input, taken, rest)
        invariant OwnEnding(ending, input, taken, rest, Replay(start, log).fatal, fatal)
        invariant ending.OutOfInput? ==> State() == Replay(start, log)
        decreases |input| - taken, ending == OutOfInput
      {
        ghost var before := log;
        OtherTasks();
        ReplayJoin(start, before, log[|before|..]);
        assert log == before + log[|before|..];
        var stop: bool := *;
        var locked: bool := *;
        if stop {
          ending := Stopped;
        } else if input[taken].ReadFailed? {
          Record(CannotRead, locked);
          ending := Failed;
        } else if input[taken].data == [] {
          Record(OutputClosed, locked);
          ending := Closed;
        } else if |rest| + |input[taken].data| > MAX_BUFFERED_BYTES {
          Record(BufferFull(|rest| + |input[taken].data|), locked);
          ending := OverCap;
        } else {
          ghost var received, seen := Concat(Data(input[..taken])), log;
          var data := input[taken].data;
          OneMoreChunk(input, taken);
          taken := taken + 1;
          ghost var buffered := rest + data;
          rest := DrainBuffer(rest + data);
          ghost var news := log[|seen|..];
          assert log == seen + news;
          ReplayJoin(start, seen, news);
          ChunkReceived(received, data, FramesIn(seen), buffered[..|buffered| - |data|], FramesIn(news), rest);
          if fatal.Some? {
            ending := OnFatal;
          }
        }
        EndingIs(ending, input, taken, rest, Replay(start, log).fatal, fatal);
      }
      EndingIs(ending, input, taken, rest, Replay(start, log).fatal, fatal);
      running := ending == OutOfInput;
    }
  }

  /** The reader has left the fatal message as it was, or recorded this one of its own where there was none. */
  predicate OwnMessage(before: Option<Fatal>, after: Option<Fatal>, message: Fatal) {
    after == before || (before.None? && after == Some(message))
  }

  /** What the next read brought, or what is left over, is what the poll task ended for. */
  predicate EndsFor(ending: Ending, input: seq<Read>, taken: nat, rest: bytes) {
    taken <= |input| &&
    match ending
    case Failed => taken < |input| && input[taken] == ReadFailed
    case Closed => taken < |input| && input[taken] == Chunk([])
    case OverCap => taken < |input| && input[taken].Chunk? && |rest| + |input[taken].data| > 0x80_0000
    case OutOfInput => taken == |input|
    case Stopped => true
    case OnFatal => taken > 0
  }

  /** The message the poll task itself ends with, unless an earlier one stands or it could not be recorded. */
  predicate OwnEnding(ending: Ending, input: seq<Read>, taken: nat, rest: bytes, before: Option<Fatal>, after: Option<Fatal>) {
    match ending
    case Failed => OwnMessage(before, after, CannotRead)
    case Closed => OwnMessage(before, after, OutputClosed)
    case OverCap =>
      taken < |input| && input[taken].Chunk? && OwnMessage(before, after, BufferFull(|rest| + |input[taken].data|))
    case OnFatal => after == before || (DecodeOne(rest) == Corrupt && OwnMessage(before, after, CannotDecode))
    case _ => after == before
  }

  lemma EndingIs(ending: Ending, input: seq<Read>, taken: nat, rest: bytes, before: Option<Fatal>, after: Option<Fatal>)
    requires taken <= |input|
    ensures (ending.Stopped? || ending.OutOfInput?) && after == before ==> OwnEnding(ending, input, taken, rest, before, after)
    ensures ending.Stopped? || (ending.OutOfInput? && taken == |input|) || (ending.OnFatal? && taken > 0) ==>
              EndsFor(ending, input, taken, rest)
    ensures ending.OnFatal? && (after == before || (DecodeOne(rest) == Corrupt && OwnMessage(before, after, CannotDecode))) ==>
              OwnEnding(ending, input, taken, rest, before, after)
    ensures taken < |input| && ending.Failed? && input[taken] == ReadFailed && OwnMessage(before, after, CannotRead) ==>
              EndsFor(ending, input, taken, rest) && OwnEnding(ending, input, taken, rest, before, after)
    ensures taken < |input| && ending.Closed? && input[taken] == Chunk([]) && OwnMessage(before, after, OutputClosed) ==>
              EndsFor(ending, input, taken, rest) && OwnEnding(ending, input, taken, rest, before, after)
    ensures taken < |input| && ending.OverCap? && input[taken].Chunk? && |rest| + |input[taken].data| > MAX_BUFFERED_BYTES
            && OwnMessage(before, after, BufferFull(|rest| + |input[taken].data|)) ==>
              EndsFor(ending, input, taken, rest) && OwnEnding(ending, input, taken, rest, before, after)
  {
    hide DecodeOne;
  }

  /** The frames taken out of a stream so far, and the decoding of what is left of it. */
  function Resume(frames: seq<Frame>, rest: bytes): Decoded {
    var d := DecodeAll(rest);
    Decoded(frames + d.frames, d.rest)
  }

  lemma ResumeStep(frames: seq<Frame>, rest: bytes)
    requires DecodeOne(rest).Done?
    ensures Resume(frames, rest) == Resume(frames + [DecodeOne(rest).value], rest[DecodeOne(rest).end..])
  {
    hide DecodeOne;
    var head, tail := [DecodeOne(rest).value], DecodeAll(rest[DecodeOne(rest).end..]).frames;
    assert frames + (head + tail) == frames + head + tail;
  }

  lemma NothingReceived()
    ensures DecodeAll(Concat(Data([]))) == Decoded([], []) == Resume([], [])
  {}

  /** A chunk decoded behind the bytes left over continues the decoding of the whole stream. */
  lemma ChunkReceived(received: bytes, data: bytes, seen: seq<Frame>, rest: bytes,
                      news: seq<Frame>, left: bytes)
    requires DecodeAll(received) == Decoded(seen, rest)
    requires DecodeAll(rest + data) == Resume(news, left)
    ensures DecodeAll(received + data) == Resume(seen + news, left)
    ensures !DecodeOne(left).Done? ==> DecodeAll(received + data) == Decoded(seen + news, left)
  {
    hide DecodeOne;
    DecodeAllResumes(received, data);
    var more := DecodeAll(left).frames;
    assert seen + (news + more) == seen + news + more;
  }

  /** `s` is where delivering led to; only a fatal message of the reader itself may have been added. */
  predicate Follows(s: Book, delivered: Book) {
    && s.pending == delivered.pending && s.replies == delivered.replies
    && (delivered.fatal.Some? || s.fatal.None? ==> s.fatal == delivered.fatal)
  }

  lemma AppliedToOthers(b: Book, e: Event)
    ensures e.Registered? ==> Apply(b, e) == b.(pending := b.pending + e.entries)
    ensures e.Collected? ==> Apply(b, e) == b.(replies := b.replies - e.ids)
  {}

  lemma NothingHappened(b: Book)
    ensures Replay(b, []) == b && FramesIn([]) == []
  {}

  lemma OneEvent(b: Book, events: seq<Event>)
    ensures |events| == 1 ==> Replay(b, events) == Apply(b, events[0])
    ensures |events| == 1 ==> FramesIn(events) == if events[0].Delivered? then [events[0].msg] else []
    ensures events == [] ==> Replay(b, events) == b && FramesIn(events) == []
  {
    if |events| == 1 {
      assert events[..0] == [];
    }
  }

  function FramesOfOne(e: Event): seq<Frame> {
    if e.Delivered? then [e.msg] else []
  }

  lemma LastEvent(b: Book, events: seq<Event>, last: Event)
    ensures Replay(b, events + [last]) == Apply(Replay(b, events), last)
    ensures FramesIn(events + [last]) == FramesIn(events) + FramesOfOne(last)
  {
    hide Apply;
    assert (events + [last])[..|events|] == events;
  }

  lemma FrameHappened(b: Book, events: seq<Event>, msg: Frame, locked: bool)
    ensures var longer := events + [Delivered(msg, locked)];
            Replay(b, longer) == Deliver(Replay(b, events), msg, locked) && FramesIn(longer) == FramesIn(events) + [msg]
  {
    hide Deliver, Replay, FramesIn;
    LastEvent(b, events, Delivered(msg, locked));
  }

  lemma Regrouped<T>(xs: seq<T>, ys: seq<T>, zs: seq<T>)
    ensures xs + ys + zs == xs + (ys + zs)
  {}

  lemma ReplayJoinStep(b: Book, xs: seq<Event>, init: seq<Event>, last: Event)
    requires Replay(b, xs + init) == Replay(Replay(b, xs), init)
    requires FramesIn(xs + init) == FramesIn(xs) + FramesIn(init)
    ensures Replay(b, xs + init + [last]) == Replay(Replay(b, xs), init + [last])
    ensures FramesIn(xs + init + [last]) == FramesIn(xs) + FramesIn(init + [last])
  {
    hide Apply, Replay, FramesIn, FramesOfOne;
    LastEvent(b, xs + init, last);
    LastEvent(Replay(b, xs), init, last);
    Regrouped(FramesIn(xs), FramesIn(init), FramesOfOne(last));
  }

  lemma {:induction false} ReplayJoin(b: Book, xs: seq<Event>, ys: seq<Event>)
    ensures Replay(b, xs + ys) == Replay(Replay(b, xs), ys)
    ensures FramesIn(xs + ys) == FramesIn(xs) + FramesIn(ys)
    decreases |ys|
  {
    hide Apply, Replay, FramesIn;
    if ys == [] {
      assert xs + ys == xs;
      NothingHappened(Replay(b, xs));
    } else {
      var init, last := ys[..|ys| - 1], ys[|ys| - 1];
      ReplayJoin(b, xs, init);
      ReplayJoinStep(b, xs, init, last);
      assert init + [last] == ys;
      Regrouped(xs, init, [last]);
    }
  }

  lemma OneMoreChunk(input: seq<Read>, taken: nat)
    requires taken < |input| && input[taken].Chunk?
    ensures Concat(Data(input[..taken + 1])) == Concat(Data(input[..taken])) + input[taken].data
  {
    hide Concat;
    assert input[..taken + 1][..taken] == input[..taken];
    ConcatLast(Data(input[..taken]), input[taken].data);
  }

  lemma ResumeNothing(b: bytes)
    ensures DecodeAll(b) == Resume([], b)
  {}

  /** The first `k` of some ids. */
  function IdSet(ids: seq<nat>, k: nat): (taken: set<nat>)
    requires k <= |ids|
    ensures forall i :: 0 <= i < k ==> ids[i] in taken
  {
    set i | 0 <= i < k :: ids[i]
  }

  lemma NoneTaken(replies: map<nat, Reply>, ids: seq<nat>)
    ensures replies - IdSet(ids, 0) == replies
  {}

  /** Taking one more id out of the replies; it was still there. */
  lemma OneMoreTaken(replies: map<nat, Reply>, ids: seq<nat>, k: nat)
    requires k < |ids| && forall i, j :: 0 <= i < j < |ids| ==> ids[i] != ids[j]
    ensures ids[k] !in IdSet(ids, k)
    ensures replies - IdSet(ids, k) - {ids[k]} == replies - IdSet(ids, k + 1)
  {
    assert IdSet(ids, k + 1) == IdSet(ids, k) + {ids[k]};
  }

  /** Distinct keys that are all present cannot outnumber the entries of the map. */
  lemma {:induction false} KeysFillCount(ids: seq<nat>, replies: map<nat, Reply>)
    requires forall i, j :: 0 <= i < j < |ids| ==> ids[i] != ids[j]
    ensures (forall i :: 0 <= i < |ids| ==> ids[i] in replies) ==> |ids| <= |replies|
  {
    if |ids| > 0 && forall i :: 0 <= i < |ids| ==> ids[i] in replies {
      var last := ids[|ids| - 1];
      var fewer := replies - {last};
      assert fewer.Keys == replies.Keys - {last};
      KeysFillCount(ids[..|ids| - 1], fewer);
      assert |fewer.Keys| == |fewer| && |replies.Keys| == |replies|;
    }
  }

  /** Feeding a stream chunk by chunk, each time decoding what can be decoded. */
  function DeliverChunks(buffered: bytes, chunks: seq<bytes>): Decoded
    decreases |chunks|
  {
    if chunks == [] then Decoded([], buffered) else
    var now := DecodeAll(buffered + chunks[0]);
    var later := DeliverChunks(now.rest, chunks[1..]);
    Decoded(now.frames + later.frames, later.rest)
  }

  /** However the stream is cut into chunks, the frames delivered are those of the whole stream. */
  lemma {:induction false} ChunkingIsInvisible(buffered: bytes, chunks: seq<bytes>)
    requires !DecodeOne(buffered).Done?
    ensures DeliverChunks(buffered, chunks) == DecodeAll(buffered + Concat(chunks))
    decreases |chunks|
  {
    hide DecodeOne;
    if chunks == [] {
      assert buffered + [] == buffered;
    } else {
      var head := buffered + chunks[0];
      RestIsSuffix(head);
      ChunkingIsInvisible(DecodeAll(head).rest, chunks[1..]);
      DecodeAllResumes(head, Concat(chunks[1..]));
      assert head + Concat(chunks[1..]) == buffered + Concat(chunks);
    }
  }
}
