/** When a request is answered, and with what; when it refuses a frame; and what a frame leaves of it otherwise. */
module Replies {
  import opened Bytes
  import opened Results
  import opened Msgpack
  import opened Stream
  import opened Requests

  // ---------------------------------------------------------------- reading a frame

  /** The field holds this integer, written unsigned or signed. */
  predicate IsNumber(f: Field, n: int) {
    (n >= 0 && f == U64(n)) || f == I64(n)
  }

  predicate IsInt32(f: Field, n: int) {
    IsNumber(f, n) && -0x8000_0000 <= n <= 0x7FFF_FFFF
  }

  predicate HasOpcode(msg: Frame, code: byte) {
    msg != [] && IsNumber(msg[0], code)
  }

  /** The frame names the slot, or no slot at all. */
  predicate Addressed(msg: Frame, slot: byte) {
    |msg| <= 1 || msg[1] == U64(slot)
  }

  ghost predicate HasTime(f: Field) {
    exists n: nat :: IsNumber(f, n)
  }

  ghost predicate HasInt32(f: Field) {
    exists n: int :: IsInt32(f, n)
  }

  /** The time, the code and the status of a RESULT frame. */
  predicate ResultSays(msg: Frame, reply: Reply) {
    && |msg| >= 5 && reply.ExecuteReply?
    && IsNumber(msg[2], reply.timeNs) && IsInt32(msg[3], reply.siCode) && IsInt32(msg[4], reply.siStatus)
  }

  ghost predicate ResultIsWhole(msg: Frame) {
    |msg| >= 5 && HasTime(msg[2]) && HasInt32(msg[3]) && HasInt32(msg[4])
  }

  /** The bytes a DATA frame carries. */
  function DataOf(msg: Frame): Option<bytes> {
    if |msg| < 2 then None
    else match msg[1]
         case Bin(d) => Some(d)
         case Str(t) => Some(t)
         case _ => None
  }

  // ---------------------------------------------------------------- one frame

  /** The frame answers the request, and this is what the reply says. */
  predicate AnsweredWith(r: Request, msg: Frame, reply: Reply) {
    !r.Completed() &&
    match r
    case Version(_) =>
      HasOpcode(msg, 0x00) && |msg| >= 2 && reply.VersionReply? && msg[1] == Str(reply.version)
    case Ping(p) =>
      HasOpcode(msg, 0x02) && p.echoed && |msg| >= 2 && reply.PingReply? && IsNumber(msg[1], reply.timeNs)
    case Env(e) => HasOpcode(msg, 0x05) && Addressed(msg, e.slot) && reply == EnvReply(e.slot, e.key, e.value)
    case Cwd(c) => HasOpcode(msg, 0x06) && Addressed(msg, c.slot) && reply == CwdReply(c.slot, c.path)
    case GetFile(g) => HasOpcode(msg, 0x03) && reply == GetFileReply(g.path, g.data)
    case SetFile(s) =>
      HasOpcode(msg, 0x04) && |msg| >= 2 && msg[1] == Str(s.path) && reply == SetFileReply(s.path, s.data)
    case Execute(x) =>
      HasOpcode(msg, 0x08) && Addressed(msg, x.slot) && x.echoed && ResultSays(msg, reply) && reply.stdout == x.stdout
    case Kill(k) => HasOpcode(msg, 0xA1) && Addressed(msg, k.slot) && reply == KillReply(k.slot)
  }

  ghost predicate RefusesFrame(r: Request, msg: Frame) {
    !r.Completed() &&
    match r
    case Version(_) => HasOpcode(msg, 0x00) && (|msg| < 2 || !msg[1].Str?)
    case Ping(p) => HasOpcode(msg, 0x02) && (!p.echoed || |msg| < 2 || !HasTime(msg[1]))
    case GetFile(g) =>
      HasOpcode(msg, 0xA0) && (DataOf(msg).None? || |g.data| + |DataOf(msg).value| > 0x400_0000)
    case Execute(x) =>
      Addressed(msg, x.slot) &&
      (|| (HasOpcode(msg, 0x08) && (!x.echoed || !ResultIsWhole(msg)))
       || (HasOpcode(msg, 0x09) &&
             (!x.echoed || |msg| < 4 || !msg[3].Str?
              || (msg[3].text != [] && |x.stdout| + |msg[3].text| > 0x100_0000))))
    case _ => false
  }

  /** A request the frame neither answers nor makes refuse: echoes are noted and payloads appended. */
  function Noted(r: Request, msg: Frame): Request {
    match r
    case Ping(p) => if HasOpcode(msg, 0x01) && !p.completed then Ping(p.(echoed := true)) else r
    case GetFile(g) =>
      if HasOpcode(msg, 0xA0) && !g.completed && DataOf(msg).Some?
      then GetFile(g.(data := g.data + DataOf(msg).value)) else r
    case Execute(x) =>
      if x.completed || !Addressed(msg, x.slot) then r
      else if HasOpcode(msg, 0x07) then Execute(x.(echoed := true))
      else if HasOpcode(msg, 0x09) && |msg| >= 4 && msg[3].Str? && msg[3].text != [] then
        Execute(x.(stdout := x.stdout + msg[3].text,
                   streamed := if x.streaming then x.streamed + [msg[3].text] else x.streamed))
      else r
    case _ => r
  }

  lemma OpcodeIs(msg: Frame, code: byte)
    ensures Opcode(msg) == Some(code) <==> HasOpcode(msg, code)
  {}

  lemma NumbersAreRead(f: Field)
    ensures forall n :: AsU64(f) == Ok(n) <==> n >= 0 && IsNumber(f, n)
    ensures AsU64(f).Ok? <==> HasTime(f)
    ensures forall n :: AsI32(f) == Ok(n) <==> IsInt32(f, n)
    ensures AsI32(f).Ok? <==> HasInt32(f)
  {
    if AsU64(f).Ok? {
      assert IsNumber(f, AsU64(f).value);
    }
    if AsI32(f).Ok? {
      assert IsInt32(f, AsI32(f).value);
    }
  }

  lemma ResultIff(x: ExecuteReq, msg: Frame)
    requires x.echoed
    ensures forall reply :: FeedResult(x, msg).outcome == Completed(reply) <==> ResultSays(msg, reply) && reply.stdout == x.stdout
    ensures FeedResult(x, msg).outcome.Refuse? <==> !ResultIsWhole(msg)
    ensures !FeedResult(x, msg).outcome.Waiting?
  {
    if |msg| >= 5 {
      NumbersAreRead(msg[2]);
      NumbersAreRead(msg[3]);
      NumbersAreRead(msg[4]);
    }
    hide AsU64, AsI32, IsNumber, IsInt32, HasTime, HasInt32;
  }

  lemma ExecIff(x: ExecuteReq, msg: Frame)
    ensures forall reply :: FeedExecute(x, msg).outcome == Completed(reply) <==> AnsweredWith(Execute(x), msg, reply)
    ensures FeedExecute(x, msg).outcome.Refuse? <==> RefusesFrame(Execute(x), msg)
    ensures FeedExecute(x, msg).outcome.Waiting? ==> Execute(FeedExecute(x, msg).next) == Noted(Execute(x), msg)
  {
    if x.echoed {
      ResultIff(x, msg);
    }
    OpcodeIs(msg, 0x07);
    OpcodeIs(msg, 0x08);
    OpcodeIs(msg, 0x09);
    hide Opcode, HasOpcode, ResultSays, ResultIsWhole;
    if !x.echoed {
      assert FeedResult(x, msg).outcome.Refuse?;
    } else {
      hide FeedResult;
    }
  }

  /** A frame answers a request, or is refused by it, exactly when it says so; otherwise it is noted. */
  lemma FeedIff(r: Request, msg: Frame)
    ensures forall reply :: Feed(r, msg).outcome == Completed(reply) <==> AnsweredWith(r, msg, reply)
    ensures Feed(r, msg).outcome.Refuse? <==> RefusesFrame(r, msg)
    ensures Feed(r, msg).outcome.Waiting? ==> Feed(r, msg).next == Noted(r, msg)
  {
    if r.Execute? {
      ExecIff(r.exec, msg);
      hide FeedExecute, AnsweredWith, RefusesFrame, Noted;
    } else {
      OtherIff(r, msg);
      hide AnsweredWith, RefusesFrame, Noted;
    }
  }

  lemma OtherIff(r: Request, msg: Frame)
    requires !r.Execute?
    ensures forall reply :: Feed(r, msg).outcome == Completed(reply) <==> AnsweredWith(r, msg, reply)
    ensures Feed(r, msg).outcome.Refuse? <==> RefusesFrame(r, msg)
    ensures Feed(r, msg).outcome.Waiting? ==> Feed(r, msg).next == Noted(r, msg)
  {
    OpcodeIs(msg, 0x00);
    OpcodeIs(msg, 0x01);
    OpcodeIs(msg, 0x02);
    OpcodeIs(msg, 0x03);
    OpcodeIs(msg, 0x04);
    OpcodeIs(msg, 0x05);
    OpcodeIs(msg, 0x06);
    OpcodeIs(msg, 0xA0);
    OpcodeIs(msg, 0xA1);
    if |msg| >= 2 {
      NumbersAreRead(msg[1]);
    }
    hide FeedExecute, Opcode, HasOpcode, AsU64, HasTime, IsNumber;
  }

  // ---------------------------------------------------------------- what a frame brings

  predicate ForSlot(msg: Frame, code: byte, slot: byte) {
    HasOpcode(msg, code) && Addressed(msg, slot)
  }

  /** The frame is of the kind that answers the request, and says what the reply says. */
  predicate Says(asked: Request, msg: Frame, reply: Reply) {
    match asked
    case Version(_) => HasOpcode(msg, 0x00) && |msg| >= 2 && reply.VersionReply? && msg[1] == Str(reply.version)
    case Ping(_) => HasOpcode(msg, 0x02) && |msg| >= 2 && reply.PingReply? && IsNumber(msg[1], reply.timeNs)
    case Env(e) => ForSlot(msg, 0x05, e.slot)
    case Cwd(c) => ForSlot(msg, 0x06, c.slot)
    case GetFile(_) => HasOpcode(msg, 0x03)
    case SetFile(f) => HasOpcode(msg, 0x04) && |msg| >= 2 && msg[1] == Str(f.path)
    case Execute(x) => ForSlot(msg, 0x08, x.slot) && ResultSays(msg, reply)
    case Kill(k) => ForSlot(msg, 0xA1, k.slot)
  }

  lemma AnswerSays(asked: Request, r: Request, msg: Frame, reply: Reply)
    requires Unanswered(asked, r) && Feed(r, msg).outcome == Completed(reply)
    ensures Says(asked, msg, reply)
  {
    FeedIff(r, msg);
    assert AnsweredWith(r, msg, reply);
    hide Feed, HasOpcode, Addressed, ResultSays, IsNumber;
  }

  /** The payload a frame carries to a request: of a LOG for a command's slot, of a DATA for a fetched file. */
  function Carried(asked: Request, msg: Frame): bytes {
    match asked
    case Execute(x) => Logged(msg, x.slot)
    case GetFile(_) => if HasOpcode(msg, OP_DATA) && DataOf(msg).Some? then DataOf(msg).value else []
    case _ => []
  }

  lemma CarriedAlike(asked: Request, r: Request, msg: Frame)
    requires Unanswered(asked, r)
    ensures Carried(asked, msg) == Carried(r, msg)
  {
    hide Logged;
  }

  lemma FileFed(g: GetFileReq, msg: Frame)
    requires !g.completed
    ensures var fed := FeedGetFile(g, msg);
            && (fed.outcome.Waiting? ==> fed.next.data == g.data + Carried(GetFile(g), msg))
            && (fed.outcome.Completed? ==>
                  && fed.outcome.reply.GetFileReply? && fed.outcome.reply.data == g.data
                  && Carried(GetFile(g), msg) == [])
  {
    OpcodeIs(msg, OP_DATA);
    OpcodeIs(msg, OP_GET_FILE);
  }

  // ---------------------------------------------------------------- the life of an EXEC

  /** The EXEC was echoed before, or one of the first `k` frames echoes it. */
  ghost predicate EchoedBy(x: ExecuteReq, msgs: seq<Frame>, k: nat)
    requires k <= |msgs|
  {
    x.echoed || exists e :: 0 <= e < k && ForSlot(msgs[e], 0x07, x.slot)
  }

  /** No earlier frame ends the EXEC: no RESULT, and no LOG that is malformed or comes before the echo. */
  ghost predicate LivesThrough(x: ExecuteReq, msgs: seq<Frame>, k: nat)
    requires k < |msgs|
  {
    && !ForSlot(msgs[k], 0x08, x.slot)
    && (ForSlot(msgs[k], 0x09, x.slot) ==> |msgs[k]| >= 4 && msgs[k][3].Str? && EchoedBy(x, msgs, k))
  }

  /** Frame `r` answers the EXEC: the first RESULT for its slot, behind an echo, with all that was logged. */
  ghost predicate AnsweredAt(x: ExecuteReq, msgs: seq<Frame>, r: nat, reply: Reply)
    requires r < |msgs|
  {
    && ForSlot(msgs[r], 0x08, x.slot) && EchoedBy(x, msgs, r) && ResultSays(msgs[r], reply)
    && (forall k :: 0 <= k < r ==> LivesThrough(x, msgs, k))
    && reply.stdout == x.stdout + LoggedTo(msgs[..r], x.slot) && |reply.stdout| <= 0x100_0000
  }

  ghost predicate AnsweredSomewhere(x: ExecuteReq, msgs: seq<Frame>, reply: Reply) {
    exists r :: 0 <= r < |msgs| && AnsweredAt(x, msgs, r, reply)
  }

  lemma OpcodeIsOne(msg: Frame, code: byte, other: byte)
    requires HasOpcode(msg, code) && HasOpcode(msg, other)
    ensures code == other
  {}

  lemma LoggedIs(msg: Frame, slot: byte)
    ensures Logged(msg, slot) ==
            if ForSlot(msg, 0x09, slot) && |msg| >= 4 && msg[3].Str? then msg[3].text else []
  {
    OpcodeIs(msg, 0x07);
    OpcodeIs(msg, 0x08);
    OpcodeIs(msg, 0x09);
  }

  /** A frame that leaves the EXEC waiting: it lives through it, with the echo noted and the payload kept. */
  lemma WaitingFrame(x: ExecuteReq, msgs: seq<Frame>)
    requires msgs != [] && !x.completed && FeedExecute(x, msgs[0]).outcome.Waiting?
    ensures LivesThrough(x, msgs, 0)
    ensures var y := FeedExecute(x, msgs[0]).next;
            && y.slot == x.slot && !y.completed && (y.echoed <==> x.echoed || ForSlot(msgs[0], 0x07, x.slot))
            && y.stdout == x.stdout + Logged(msgs[0], x.slot)
  {
    ExecIff(x, msgs[0]);
    LoggedIs(msgs[0], x.slot);
    hide FeedExecute, Logged, HasOpcode, Addressed, ResultIsWhole;
    if HasOpcode(msgs[0], 0x07) && HasOpcode(msgs[0], 0x09) {
      OpcodeIsOne(msgs[0], 0x07, 0x09);
    }
  }

  /** Frame `r` of the rest answers what is left of the EXEC if and only if frame `r + 1` of all answers it. */
  lemma AnsweredLater(x: ExecuteReq, y: ExecuteReq, msgs: seq<Frame>, r: nat, reply: Reply)
    requires r + 1 < |msgs| && y.slot == x.slot && LivesThrough(x, msgs, 0)
    requires y.echoed <==> x.echoed || ForSlot(msgs[0], 0x07, x.slot)
    requires y.stdout == x.stdout + Logged(msgs[0], x.slot)
    ensures AnsweredAt(x, msgs, r + 1, reply) <==> AnsweredAt(y, msgs[1..], r, reply)
  {
    hide ForSlot, Logged, ResultSays;
    var rest := msgs[1..];
    forall k | 0 <= k <= r
      ensures EchoedBy(x, msgs, k + 1) <==> EchoedBy(y, rest, k)
    {
      EchoShifts(x, y, msgs, k);
    }
    assert msgs[..r + 1][1..] == rest[..r] && msgs[..r + 1][0] == msgs[0];
    assert x.stdout + (Logged(msgs[0], x.slot) + LoggedTo(rest[..r], x.slot)) == y.stdout + LoggedTo(rest[..r], x.slot);
    hide EchoedBy, LoggedTo;
    if AnsweredAt(x, msgs, r + 1, reply) {
      forall k | 0 <= k < r ensures LivesThrough(y, rest, k) {
        assert LivesThrough(x, msgs, k + 1);
      }
    }
    if AnsweredAt(y, rest, r, reply) {
      forall k | 0 <= k < r + 1 ensures LivesThrough(x, msgs, k) {
        if k > 0 {
          assert LivesThrough(y, rest, k - 1);
        }
      }
    }
  }

  lemma EchoShifts(x: ExecuteReq, y: ExecuteReq, msgs: seq<Frame>, k: nat)
    requires k + 1 <= |msgs| && y.slot == x.slot
    requires y.echoed <==> x.echoed || ForSlot(msgs[0], 0x07, x.slot)
    ensures EchoedBy(x, msgs, k + 1) <==> EchoedBy(y, msgs[1..], k)
  {
    hide ForSlot;
    var rest := msgs[1..];
    if EchoedBy(y, rest, k) && !y.echoed {
      var e :| 0 <= e < k && ForSlot(rest[e], 0x07, x.slot);
      assert ForSlot(msgs[e + 1], 0x07, x.slot);
    }
    if EchoedBy(x, msgs, k + 1) && !x.echoed {
      var e :| 0 <= e < k + 1 && ForSlot(msgs[e], 0x07, x.slot);
      if e > 0 {
        assert ForSlot(rest[e - 1], 0x07, x.slot);
      }
    }
  }

  /** A frame that does not end the EXEC and is still refused brings its output beyond the cap. */
  lemma OverCap(x: ExecuteReq, msgs: seq<Frame>, r: nat)
    requires 0 < r <= |msgs| && !x.completed && LivesThrough(x, msgs, 0)
    requires !FeedExecute(x, msgs[0]).outcome.Waiting?
    ensures |x.stdout + LoggedTo(msgs[..r], x.slot)| > 0x100_0000
  {
    ExecIff(x, msgs[0]);
    LoggedIs(msgs[0], x.slot);
    hide FeedExecute, Logged, HasOpcode, Addressed, IsNumber;
    assert msgs[..r][0] == msgs[0];
    assert |LoggedTo(msgs[..r], x.slot)| >= |Logged(msgs[0], x.slot)|;
  }

  /** A frame that does not leave the EXEC waiting decides: it is answered at once or never. */
  lemma DecidingFrame(x: ExecuteReq, msgs: seq<Frame>, reply: Reply)
    requires msgs != [] && !x.completed && |x.stdout| <= 0x100_0000 && !FeedExecute(x, msgs[0]).outcome.Waiting?
    ensures AnsweredSomewhere(x, msgs, reply) <==> FeedExecute(x, msgs[0]).outcome == Completed(reply)
  {
    ExecIff(x, msgs[0]);
    hide FeedExecute, Logged, HasOpcode, Addressed, IsNumber, LivesThrough;
    assert LoggedTo(msgs[..0], x.slot) == [];
    if FeedExecute(x, msgs[0]).outcome == Completed(reply) {
      assert AnsweredAt(x, msgs, 0, reply);
    }
    forall r | 0 < r < |msgs| ensures !AnsweredAt(x, msgs, r, reply) {
      if LivesThrough(x, msgs, 0) {
        OverCap(x, msgs, r);
      }
    }
    if AnsweredAt(x, msgs, 0, reply) {
      assert AnsweredWith(Execute(x), msgs[0], reply);
    }
  }

  /**
    The whole life of an EXEC: it is answered if and only if some frame is the first RESULT for its slot,
    whole, behind an echo of the EXEC, with no LOG for the slot before the echo, every LOG since whole, and
    no more than 16 MiB logged; the reply says what that RESULT says and carries what was logged.
   */
  lemma {:induction false} ExecAnsweredIff(x: ExecuteReq, msgs: seq<Frame>, reply: Reply)
    requires !x.completed && |x.stdout| <= 0x100_0000
    ensures FeedAll(x, msgs).outcome == Completed(reply) <==> AnsweredSomewhere(x, msgs, reply)
    decreases |msgs|
  {
    hide FeedExecute, Logged, LivesThrough, AnsweredAt;
    if msgs != [] {
      var fed := FeedExecute(x, msgs[0]);
      if fed.outcome.Waiting? {
        WaitingFrame(x, msgs);
        WaitingKeepsCap(x, msgs[0]);
        ExecAnsweredIff(fed.next, msgs[1..], reply);
        forall r: nat | r + 1 < |msgs|
          ensures AnsweredAt(x, msgs, r + 1, reply) <==> AnsweredAt(fed.next, msgs[1..], r, reply)
        {
          AnsweredLater(x, fed.next, msgs, r, reply);
        }
        assert !AnsweredAt(x, msgs, 0, reply) by { NotAnsweredAtOnce(x, msgs, reply); }
        if r :| 0 <= r < |msgs| && AnsweredAt(x, msgs, r, reply) {
          assert AnsweredAt(fed.next, msgs[1..], r - 1, reply);
        }
        if r :| 0 <= r < |msgs| - 1 && AnsweredAt(fed.next, msgs[1..], r, reply) {
          assert AnsweredAt(x, msgs, r + 1, reply);
        }
      } else {
        DecidingFrame(x, msgs, reply);
      }
    }
  }

  lemma WaitingKeepsCap(x: ExecuteReq, msg: Frame)
    requires |x.stdout| <= 0x100_0000 && FeedExecute(x, msg).outcome.Waiting?
    ensures |FeedExecute(x, msg).next.stdout| <= 0x100_0000
  {}

  lemma NotAnsweredAtOnce(x: ExecuteReq, msgs: seq<Frame>, reply: Reply)
    requires msgs != [] && LivesThrough(x, msgs, 0)
    ensures !AnsweredAt(x, msgs, 0, reply)
  {}
}
