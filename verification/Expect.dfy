/**
  Waiting for a message on the serial line, chunk by chunk, with what was read beyond it carried over
  to the next wait. Text is held as UTF-8 bytes.
 */
module Expect {
  import opened Bytes
  import opened Results
  import opened Stream
  import opened TextSearch
  import PanicScan

  const MAX_STDOUT_BYTES: nat := 8 * 0x10_0000
  const EXCERPT_BYTES: nat := 4096

  datatype Read = ReadTimedOut | ReadFailed | NoData | Data(chunk: bytes, bufferFails: bool) | Dropped

  /**
    What one turn of the loop meets: a cancel or a dead process, a passed deadline, a read; or the end of
    the wait itself, whose future is dropped while it reads.
   */
  datatype Tick = Tick(abort: bool, late: bool, read: Read)

  datatype WaitEnd =
    | Matched(text: bytes)
    | Aborted(text: bytes)
    | Panicked(excerpt: bytes)
    | TimedOut
    | SerialFailed
    | BufferFailed
    | OverCap
    | WaitDropped
    | StillWaiting

  /** How a wait ends, what it leaves pending, and everything it took off the line. */
  datatype Waited = Waited(end: WaitEnd, pending: bytes, heard: bytes)

  /** The last characters of the output, for the panic message. */
  function Excerpt(text: bytes): bytes {
    text[FloorBoundary(text, if |text| < EXCERPT_BYTES then 0 else |text| - EXCERPT_BYTES)..]
  }

  predicate HasPanic(text: bytes) {
    Find(text, PanicScan.MARKER).Some?
  }

  /** The rest of a wait whose buffer holds `text`; `settled` is what arrives after a panic. */
  function WaitFrom(text: bytes, message: bytes, script: seq<Tick>, settled: bytes): Waited
    decreases |script|
  {
    if script == [] then Waited(StillWaiting, text, [])
    else if script[0].abort then Waited(Aborted(text), text, [])
    else
      match Find(text, message)
      case Some(at) => Waited(Matched(text), text[at + |message|..], [])
      case None =>
        if HasPanic(text) then Waited(Panicked(Excerpt(text + settled)), [], settled)
        else if script[0].late then Waited(TimedOut, text, [])
        else
          match script[0].read
          case ReadTimedOut => Waited(TimedOut, text, [])
          case ReadFailed => Waited(SerialFailed, text, [])
          case Dropped => Waited(WaitDropped, [], [])
          case NoData => WaitFrom(text, message, script[1..], settled)
          case Data(chunk, bufferFails) =>
            if chunk == [] then WaitFrom(text, message, script[1..], settled)
            else if bufferFails then Waited(BufferFailed, [], chunk)
            else if |text| + |chunk| > MAX_STDOUT_BYTES then Waited(OverCap, text, chunk)
            else
              var w := WaitFrom(text + chunk, message, script[1..], settled);
              w.(heard := chunk + w.heard)
  }

  /** Carry-over between waits. */
  class ExpectState {
    var pending: bytes
    var panicked: bool

    constructor ()
      ensures pending == [] && !panicked
    {
      pending, panicked := [], false;
    }

    method WaitForMessage(message: bytes, script: seq<Tick>, settled: bytes) returns (end: WaitEnd, heard: bytes)
      modifies this
      ensures Waited(end, pending, heard) == WaitFrom(old(pending), message, script, settled)
      ensures panicked <==> end.Panicked?
    {
      var stdout := pending;
      pending := [];
      panicked := false;
      heard := [];
      var tick := 0;
      while tick < |script|
        invariant tick <= |script| && pending == [] && !panicked
        invariant var w := WaitFrom(stdout, message, script[tick..], settled);
                  w.(heard := heard + w.heard) == WaitFrom(old(pending), message, script, settled)
        decreases |script| - tick
      {
        if script[tick].abort {
          pending := stdout;
          return Aborted(stdout), heard;
        }
        var pos := Find(stdout, message);
        if pos.Some? {
          pending := stdout[pos.value + |message|..];
          return Matched(stdout), heard;
        }
        if HasPanic(stdout) {
          stdout := stdout + settled;
          panicked := true;
          return Panicked(Excerpt(stdout)), heard + settled;
        }
        if script[tick].late {
          pending := stdout;
          return TimedOut, heard;
        }
        assert script[tick..][1..] == script[tick + 1..];
        match script[tick].read {
          case ReadTimedOut =>
            pending := stdout;
            return TimedOut, heard;
          case ReadFailed =>
            pending := stdout;
            return SerialFailed, heard;
          case Dropped =>
            return WaitDropped, heard;
          case NoData =>
          case Data(data, bufferFails) =>
            if data != [] {
              if bufferFails {
                return BufferFailed, heard + data;
              }
              if |stdout| + |data| > MAX_STDOUT_BYTES {
                pending := stdout;
                return OverCap, heard + data;
              }
              stdout := stdout + data;
              ghost var rest := WaitFrom(stdout, message, script[tick + 1..], settled).heard;
              assert heard + (data + rest) == heard + data + rest;
              heard := heard + data;
            }
        }
        tick := tick + 1;
      }
      pending := stdout;
      assert heard + [] == heard;
      return StillWaiting, heard;
    }
  }

  // ---------------------------------------------------------------- conservation

  /**
    On a match, what was pending and everything read make up the returned text, which splits into the
    shortest prefix that ends in the message and what is pending now; on an abort, a timeout or a failed
    read every character is pending; beyond the cap exactly the last chunk is lost; when the copy of a
    chunk cannot be delivered, the kernel panics, or the wait is dropped, nothing is kept.
   */
  ghost predicate Keeps(w: Waited, all: bytes, message: bytes, script: seq<Tick>) {
    match w.end
    case Matched(found) =>
      found == all && Find(all, message).Some? && w.pending == all[Find(all, message).value + |message|..]
    case Aborted(found) => found == all && w.pending == all
    case TimedOut => w.pending == all
    case SerialFailed => w.pending == all
    case StillWaiting => w.pending == all
    case OverCap => LostLastChunk(w, all, script) && |all| > MAX_STDOUT_BYTES
    case Panicked(excerpt) => w.pending == [] && excerpt == Excerpt(all)
    case BufferFailed => w.pending == []
    case WaitDropped => w.pending == []
  }

  /** What is pending, followed by one chunk that was read, is everything heard. */
  ghost predicate LostLastChunk(w: Waited, all: bytes, script: seq<Tick>) {
    exists k :: 0 <= k < |script| && ChunkIs(script[k], w, all)
  }

  predicate ChunkIs(tick: Tick, w: Waited, all: bytes) {
    tick.read.Data? && tick.read.chunk != [] && |w.pending| + |tick.read.chunk| > MAX_STDOUT_BYTES
    && all == w.pending + tick.read.chunk
  }

  lemma {:induction false} NothingReadIsLost(text: bytes, message: bytes, script: seq<Tick>, settled: bytes)
    ensures var w := WaitFrom(text, message, script, settled); Keeps(w, text + w.heard, message, script)
    decreases |script|
  {
    hide Excerpt, Find, FindFrom;
    if GoesOn(text, message, script) {
      var chunk := if script[0].read.Data? then script[0].read.chunk else [];
      OneTickOn(text, message, script, settled);
      NothingReadIsLost(text + chunk, message, script[1..], settled);
      hide WaitFrom, Keeps;
      var rest := WaitFrom(text + chunk, message, script[1..], settled);
      assert text + chunk + rest.heard == text + (chunk + rest.heard);
      KeepsIgnoresHeard(rest, chunk + rest.heard, text + chunk + rest.heard, message, script);
    } else {
      assert text + [] == text;
      if script != [] && WaitFrom(text, message, script, settled).end.OverCap? {
        assert ChunkIs(script[0], WaitFrom(text, message, script, settled), text + script[0].read.chunk);
      }
    }
  }

  lemma KeepsIgnoresHeard(w: Waited, heard: bytes, all: bytes, message: bytes, script: seq<Tick>)
    requires script != [] && Keeps(w, all, message, script[1..])
    ensures Keeps(w.(heard := heard), all, message, script)
  {
    hide Excerpt, Find;
    if w.end.OverCap? {
      var k :| 0 <= k < |script[1..]| && ChunkIs(script[1..][k], w, all);
      assert ChunkIs(script[k + 1], w.(heard := heard), all);
    }
  }

  /** Neither the message nor a panic is in the text, and the turn is not the last for another reason. */
  ghost predicate Undecided(text: bytes, message: bytes, tick: Tick) {
    && !tick.abort && !Contains(text, message) && !Contains(text, PanicScan.MARKER) && !tick.late
    && (tick.read.NoData?
        || (tick.read.Data?
            && (tick.read.chunk == []
                || (!tick.read.bufferFails && |text| + |tick.read.chunk| <= 0x80_0000))))
  }

  /** The loop takes another turn, with or without a new chunk. */
  ghost predicate GoesOn(text: bytes, message: bytes, script: seq<Tick>) {
    script != [] && Undecided(text, message, script[0])
  }

  lemma OneTickOn(text: bytes, message: bytes, script: seq<Tick>, settled: bytes)
    requires GoesOn(text, message, script)
    ensures var chunk := if script[0].read.Data? then script[0].read.chunk else [];
            var w := WaitFrom(text + chunk, message, script[1..], settled);
            WaitFrom(text, message, script, settled) == w.(heard := chunk + w.heard)
  {
    hide Find;
    assert text + [] == text;
    var w := WaitFrom(text, message, script[1..], settled);
    assert [] + w.heard == w.heard;
  }

  /** The excerpt is the shortest end of the text that has at least 4096 bytes and splits no character. */
  lemma ExcerptIsTheEnd(text: bytes)
    ensures var e := Excerpt(text);
            |text| <= 4096 ==> e == text
    ensures var e := Excerpt(text);
            |text| > 4096 ==>
              && |e| >= 4096 && e == text[|text| - |e|..] && Boundary(text, |text| - |e|)
              && forall at :: |text| - |e| < at <= |text| - 4096 ==> !Boundary(text, at)
  {}

  // ---------------------------------------------------------------- which end a wait comes to

  /** What the first `k` turns add to the text. */
  function Taken(script: seq<Tick>, k: nat): bytes
    requires k <= |script|
  {
    if k == 0 then []
    else (if script[0].read.Data? then script[0].read.chunk else []) + Taken(script[1..], k - 1)
  }

  /** A turn that ends the wait, with this text so far, ends it like this. */
  ghost predicate EndsAs(text: bytes, message: bytes, tick: Tick, settled: bytes, end: WaitEnd) {
    if tick.abort then end == Aborted(text)
    else if Contains(text, message) then end == Matched(text)
    else if Contains(text, PanicScan.MARKER) then end == Panicked(Excerpt(text + settled))
    else if tick.late then end == TimedOut
    else
      match tick.read
      case ReadTimedOut => end == TimedOut
      case ReadFailed => end == SerialFailed
      case Dropped => end == WaitDropped
      case NoData => false
      case Data(chunk, bufferFails) =>
        chunk != [] &&
        if bufferFails then end == BufferFailed
        else |text| + |chunk| > 0x80_0000 && end == OverCap
  }

  /** Before turn `k` the loop has gone on at every turn. */
  ghost predicate GetsTo(text: bytes, message: bytes, script: seq<Tick>, k: nat)
    requires k <= |script|
  {
    forall j :: 0 <= j < k ==> Undecided(text + Taken(script, j), message, script[j])
  }

  /** The wait ends so at its first turn that does not go on, or has not ended at all. */
  ghost predicate ComesTo(text: bytes, message: bytes, script: seq<Tick>, settled: bytes, end: WaitEnd) {
    || (end == StillWaiting && GetsTo(text, message, script, |script|))
    || exists k :: 0 <= k < |script| && GetsTo(text, message, script, k)
                   && EndsAs(text + Taken(script, k), message, script[k], settled, end)
  }

  lemma FirstTurnEnds(text: bytes, message: bytes, script: seq<Tick>, settled: bytes, end: WaitEnd)
    requires script != [] && !Undecided(text, message, script[0])
    ensures ComesTo(text, message, script, settled, end) <==> EndsAs(text, message, script[0], settled, end)
  {
    hide Undecided, EndsAs;
    assert text + Taken(script, 0) == text;
    if EndsAs(text, message, script[0], settled, end) {
      assert GetsTo(text, message, script, 0);
    }
    forall k | 0 < k <= |script| ensures !GetsTo(text, message, script, k) {
      assert !Undecided(text + Taken(script, 0), message, script[0]);
    }
  }

  lemma GetsFurther(text: bytes, message: bytes, script: seq<Tick>, k: nat)
    requires k < |script| && Undecided(text, message, script[0])
    ensures var next := text + Taken(script, 1);
            && GetsTo(text, message, script, k + 1) == GetsTo(next, message, script[1..], k)
            && text + Taken(script, k + 1) == next + Taken(script[1..], k)
  {
    hide Undecided;
    var next := text + Taken(script, 1);
    assert text + Taken(script, 0) == text;
    forall j | 0 <= j <= k ensures text + Taken(script, j + 1) == next + Taken(script[1..], j) {
      TakenShifts(text, script, j);
    }
    if GetsTo(text, message, script, k + 1) {
      forall j | 0 <= j < k ensures Undecided(next + Taken(script[1..], j), message, script[1..][j]) {
        assert Undecided(text + Taken(script, j + 1), message, script[j + 1]);
      }
    }
    if GetsTo(next, message, script[1..], k) {
      forall j | 0 <= j < k + 1 ensures Undecided(text + Taken(script, j), message, script[j]) {
        if j > 0 {
          assert Undecided(next + Taken(script[1..], j - 1), message, script[1..][j - 1]);
        }
      }
    }
  }

  lemma TakenShifts(text: bytes, script: seq<Tick>, j: nat)
    requires j < |script|
    ensures text + Taken(script, j + 1) == (text + Taken(script, 1)) + Taken(script[1..], j)
  {
    var head := if script[0].read.Data? then script[0].read.chunk else [];
    assert Taken(script, 1) == head + Taken(script[1..], 0) == head;
    assert text + (head + Taken(script[1..], j)) == text + head + Taken(script[1..], j);
  }

  lemma LaterTurnEnds(text: bytes, message: bytes, script: seq<Tick>, settled: bytes, end: WaitEnd)
    requires GoesOn(text, message, script)
    ensures ComesTo(text, message, script, settled, end)
       <==> ComesTo(text + Taken(script, 1), message, script[1..], settled, end)
  {
    var next := text + Taken(script, 1);
    assert text + Taken(script, 0) == text;
    assert forall any :: !EndsAs(text, message, script[0], settled, any);
    hide Undecided, EndsAs, GetsTo, Taken;
    if k :| 0 <= k < |script| && GetsTo(text, message, script, k)
            && EndsAs(text + Taken(script, k), message, script[k], settled, end) {
      assert k > 0;
      GetsFurther(text, message, script, k - 1);
      assert script[1..][k - 1] == script[k];
    }
    if k :| 0 <= k < |script| - 1 && GetsTo(next, message, script[1..], k)
            && EndsAs(next + Taken(script[1..], k), message, script[1..][k], settled, end) {
      GetsFurther(text, message, script, k);
      assert script[k + 1] == script[1..][k];
    }
    GetsFurther(text, message, script, |script| - 1);
  }

  /**
    The exact condition for every end a wait can come to: it is decided by the first turn at which the
    wait is aborted, the text so far contains the message or else the panic marker, the deadline has
    passed, or the read brings something that cannot be taken; without such a turn it still waits.
   */
  lemma {:induction false} WaitEndsIff(text: bytes, message: bytes, script: seq<Tick>, settled: bytes, end: WaitEnd)
    ensures WaitFrom(text, message, script, settled).end == end <==> ComesTo(text, message, script, settled, end)
    decreases |script|
  {
    hide Excerpt, FindFrom;
    if script == [] {
      assert GetsTo(text, message, script, 0);
    } else if GoesOn(text, message, script) {
      hide Find, HasPanic, Undecided, EndsAs, ComesTo;
      OneTickOn(text, message, script, settled);
      LaterTurnEnds(text, message, script, settled, end);
      assert Taken(script, 1) == (if script[0].read.Data? then script[0].read.chunk else []) by {
        TakenShifts([], script, 0);
      }
      WaitEndsIff(text + Taken(script, 1), message, script[1..], settled, end);
    } else {
      FirstTurnEnds(text, message, script, settled, end);
      hide ComesTo;
    }
  }

  /** The first match in a text stays the first however the text goes on. */
  lemma FirstMatchStays(text: bytes, more: bytes, message: bytes)
    requires Find(text, message).Some?
    ensures Find(text + more, message) == Find(text, message)
  {
    hide FindFrom;
    var at := Find(text, message).value;
    OccursInLonger(text, at, message, more);
    var first := Find(text + more, message).value;
    OccursInLonger(text, first, message, more);
  }

  /**
    However the same input is cut into chunks, a wait that ends in a match leaves the same input ahead:
    what is pending together with what is still unread is everything behind the first match.
   */
  lemma {:induction false} ChunkingIsInvisible(text: bytes, message: bytes, script: seq<Tick>, settled: bytes, unread: bytes)
    requires WaitFrom(text, message, script, settled).end.Matched?
    ensures var w := WaitFrom(text, message, script, settled);
            var input := text + (w.heard + unread);
            && Find(input, message).Some?
            && w.pending + unread == input[Find(input, message).value + |message|..]
            && |w.pending| <= |w.end.text|
            && w.end.text[..|w.end.text| - |w.pending|] == input[..Find(input, message).value + |message|]
  {
    hide WaitFrom, FindFrom, Find;
    NothingReadIsLost(text, message, script, settled);
    var w := WaitFrom(text, message, script, settled);
    var all := text + w.heard;
    FirstMatchStays(all, unread, message);
    assert all + unread == text + (w.heard + unread);
    var cut := Find(all, message).value + |message|;
    MatchFits(all, message);
    assert (all + unread)[cut..] == all[cut..] + unread;
    assert (all + unread)[..cut] == all[..cut];
  }

  lemma MatchFits(text: bytes, message: bytes)
    requires Find(text, message).Some?
    ensures Find(text, message).value + |message| <= |text|
  {}

  lemma TwoChunkingsAgree(text: bytes, message: bytes, script: seq<Tick>, settled: bytes, unread: bytes,
                          script': seq<Tick>, settled': bytes, unread': bytes)
    requires WaitFrom(text, message, script, settled).end.Matched?
    requires WaitFrom(text, message, script', settled').end.Matched?
    requires WaitFrom(text, message, script, settled).heard + unread
          == WaitFrom(text, message, script', settled').heard + unread'
    ensures WaitFrom(text, message, script, settled).pending + unread
         == WaitFrom(text, message, script', settled').pending + unread'
  {
    ChunkingIsInvisible(text, message, script, settled, unread);
    ChunkingIsInvisible(text, message, script', settled', unread');
  }

  // ---------------------------------------------------------------- many waits

  datatype Wait = Wait(message: bytes, script: seq<Tick>, settled: bytes)

  /** What a row of matching waits consumed, piece by piece, what it heard, and what is pending at the end. */
  datatype Talk = Talk(pieces: seq<bytes>, heard: bytes, pending: bytes)

  predicate AllMatch(text: bytes, waits: seq<Wait>)
    decreases |waits|
  {
    waits == [] ||
    var w := WaitFrom(text, waits[0].message, waits[0].script, waits[0].settled);
    w.end.Matched? && AllMatch(w.pending, waits[1..])
  }

  function TalkFrom(text: bytes, waits: seq<Wait>): Talk
    requires AllMatch(text, waits)
    decreases |waits|
  {
    if waits == [] then Talk([], [], text)
    else
      var w := WaitFrom(text, waits[0].message, waits[0].script, waits[0].settled);
      var rest := TalkFrom(w.pending, waits[1..]);
      var piece := if |w.pending| <= |w.end.text| then w.end.text[..|w.end.text| - |w.pending|] else [];
      Talk([piece] + rest.pieces, w.heard + rest.heard, rest.pending)
  }

  /** Over any number of waits the pieces consumed and what is pending are exactly what came in, in order. */
  lemma {:induction false} TalkConservesInput(text: bytes, waits: seq<Wait>)
    requires AllMatch(text, waits)
    ensures var t := TalkFrom(text, waits);
            Concat(t.pieces) + t.pending == text + t.heard
    decreases |waits|
  {
    hide WaitFrom, Find, FindFrom;
    if waits == [] {
      assert [] + text == text + [];
    } else {
      var m, script, settled := waits[0].message, waits[0].script, waits[0].settled;
      var w := WaitFrom(text, m, script, settled);
      NothingReadIsLost(text, m, script, settled);
      MatchFits(text + w.heard, m);
      TalkConservesInput(w.pending, waits[1..]);
      var rest := TalkFrom(w.pending, waits[1..]);
      hide TalkFrom, AllMatch;
      var piece := w.end.text[..|w.end.text| - |w.pending|];
      assert ([piece] + rest.pieces)[1..] == rest.pieces;
      Regroup(text, w.heard, piece, w.pending, rest.heard, Concat(rest.pieces), rest.pending);
    }
  }

  lemma Regroup(text: bytes, heard: bytes, piece: bytes, pending: bytes, later: bytes, pieces: bytes, last: bytes)
    requires piece + pending == text + heard && pieces + last == pending + later
    ensures piece + pieces + last == text + (heard + later)
  {
    assert piece + pieces + last == piece + (pieces + last);
    assert piece + (pending + later) == piece + pending + later;
    assert text + heard + later == text + (heard + later);
  }
}
