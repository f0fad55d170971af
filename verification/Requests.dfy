/**
  LTX requests as values: how they are built and packed, what each one makes of a decoded frame,
  and what a whole sequence of frames makes of one request.
 */
module Requests {
  import opened Bytes
  import opened Results
  import opened Msgpack
  import opened Stream

  const OP_ERROR: byte := 0xFF
  const OP_VERSION: byte := 0x00
  const OP_PING: byte := 0x01
  const OP_PONG: byte := 0x02
  const OP_GET_FILE: byte := 0x03
  const OP_SET_FILE: byte := 0x04
  const OP_ENV: byte := 0x05
  const OP_CWD: byte := 0x06
  const OP_EXEC: byte := 0x07
  const OP_RESULT: byte := 0x08
  const OP_LOG: byte := 0x09
  const OP_DATA: byte := 0xA0
  const OP_KILL: byte := 0xA1

  const MAX_SLOTS: nat := 127
  const ALL_SLOTS: nat := 128
  const MAX_STDOUT_BYTES: nat := 16 * 0x10_0000
  const MAX_FILE_BYTES: nat := 64 * 0x10_0000

  /** Why a frame or a constructor was refused. */
  datatype Fault =
    | PongWithoutPing
    | LogWithoutExec
    | ResultWithoutExec
    | MalformedFrame(opcode: byte)
    | ExpectedText
    | ExpectedBytes
    | ExpectedInteger
    | OutOfRange
    | PayloadTooLong(total: nat)
    | StdoutTooLong(total: nat)
    | SlotOutOfBounds
    | EmptyArgument

  datatype VersionReq = VersionReq(completed: bool)

  datatype PingReq = PingReq(completed: bool, echoed: bool)

  datatype EnvReq = EnvReq(completed: bool, slot: byte, key: bytes, value: bytes)

  datatype CwdReq = CwdReq(completed: bool, slot: byte, path: bytes)

  datatype GetFileReq = GetFileReq(completed: bool, path: bytes, data: bytes)

  datatype SetFileReq = SetFileReq(completed: bool, path: bytes, data: bytes)

  /** `streaming`: output is also forwarded as it arrives; `streamed`: what was forwarded so far. */
  datatype ExecuteReq = ExecuteReq(completed: bool, echoed: bool, slot: byte, command: bytes,
                                   stdout: bytes, streaming: bool, streamed: seq<bytes>)

  datatype KillReq = KillReq(completed: bool, slot: byte)

  /** A request and how far it has come. */
  datatype Request =
    | Version(version: VersionReq)
    | Ping(ping: PingReq)
    | Env(env: EnvReq)
    | Cwd(cwd: CwdReq)
    | GetFile(getFile: GetFileReq)
    | SetFile(setFile: SetFileReq)
    | Execute(exec: ExecuteReq)
    | Kill(kill: KillReq)
  {
    predicate Completed() {
      match this
      case Version(r) => r.completed
      case Ping(r) => r.completed
      case Env(r) => r.completed
      case Cwd(r) => r.completed
      case GetFile(r) => r.completed
      case SetFile(r) => r.completed
      case Execute(r) => r.completed
      case Kill(r) => r.completed
    }
  }

  datatype Reply =
    | VersionReply(version: bytes)
    | PingReply(timeNs: nat)
    | EnvReply(slot: byte, key: bytes, value: bytes)
    | CwdReply(slot: byte, path: bytes)
    | GetFileReply(path: bytes, data: bytes)
    | SetFileReply(path: bytes, data: bytes)
    | ExecuteReply(timeNs: nat, siCode: int, siStatus: int, stdout: bytes)
    | KillReply(slot: byte)

  // ---------------------------------------------------------------- construction

  function CheckBroadcastSlot(slot: Option<byte>): Result<byte, Fault> {
    match slot
    case None => Ok(ALL_SLOTS)
    case Some(id) => if id <= ALL_SLOTS then Ok(id) else Err(SlotOutOfBounds)
  }

  function NewEnv(slot: Option<byte>, key: bytes, value: bytes): Result<Request, Fault> {
    match CheckBroadcastSlot(slot)
    case Err(e) => Err(e)
    case Ok(id) =>
      if key == [] || value == [] then Err(EmptyArgument) else Ok(Env(EnvReq(false, id, key, value)))
  }

  function NewCwd(slot: Option<byte>, path: bytes): Result<Request, Fault> {
    match CheckBroadcastSlot(slot)
    case Err(e) => Err(e)
    case Ok(id) => if path == [] then Err(EmptyArgument) else Ok(Cwd(CwdReq(false, id, path)))
  }

  function NewExecute(slot: byte, command: bytes, streaming: bool): Result<Request, Fault> {
    if slot > MAX_SLOTS then Err(SlotOutOfBounds)
    else if command == [] then Err(EmptyArgument)
    else Ok(Execute(ExecuteReq(false, false, slot, command, [], streaming, [])))
  }

  // ---------------------------------------------------------------- packing

  /** The opcode and arguments a request is packed from. */
  function FieldsOf(r: Request): (fs: Frame)
    ensures 1 <= |fs| <= 4
  {
    match r
    case Version(_) => [U64(OP_VERSION)]
    case Ping(_) => [U64(OP_PING)]
    case Env(e) => [U64(OP_ENV), U64(e.slot), Str(e.key), Str(e.value)]
    case Cwd(c) => [U64(OP_CWD), U64(c.slot), Str(c.path)]
    case GetFile(g) => [U64(OP_GET_FILE), Str(g.path)]
    case SetFile(s) => [U64(OP_SET_FILE), Str(s.path), Bin(s.data)]
    case Execute(x) => [U64(OP_EXEC), U64(x.slot), Str(x.command)]
    case Kill(k) => [U64(OP_KILL), U64(k.slot)]
  }

  /** What a peer is asked to do. */
  datatype Order =
    | TellVersion
    | AnswerPing
    | SetVariable(slot: byte, key: bytes, value: bytes)
    | EnterDirectory(slot: byte, path: bytes)
    | SendFile(path: bytes)
    | TakeFile(path: bytes, data: bytes)
    | StartCommand(slot: byte, command: bytes)
    | KillCommand(slot: byte)

  function OrderOf(r: Request): Order {
    match r
    case Version(_) => TellVersion
    case Ping(_) => AnswerPing
    case Env(e) => SetVariable(e.slot, e.key, e.value)
    case Cwd(c) => EnterDirectory(c.slot, c.path)
    case GetFile(g) => SendFile(g.path)
    case SetFile(s) => TakeFile(s.path, s.data)
    case Execute(x) => StartCommand(x.slot, x.command)
    case Kill(k) => KillCommand(k.slot)
  }

  /** The peer's side: the opcode in the first field says what the others are. */
  function ReadOrder(f: Frame): Option<Order> {
    match |f|
    case 1 =>
      if f[0] == U64(0x00) then Some(TellVersion)
      else if f[0] == U64(0x01) then Some(AnswerPing)
      else None
    case 2 =>
      if f[0] == U64(0x03) && f[1].Str? then Some(SendFile(f[1].text))
      else if f[0] == U64(0xA1) && f[1].U64? && f[1].u < 256 then Some(KillCommand(f[1].u))
      else None
    case 3 =>
      if f[0] == U64(0x04) && f[1].Str? && f[2].Bin? then Some(TakeFile(f[1].text, f[2].data))
      else if !(f[1].U64? && f[1].u < 256 && f[2].Str?) then None
      else if f[0] == U64(0x06) then Some(EnterDirectory(f[1].u, f[2].text))
      else if f[0] == U64(0x07) then Some(StartCommand(f[1].u, f[2].text))
      else None
    case 4 =>
      if f[0] == U64(0x05) && f[1].U64? && f[1].u < 256 && f[2].Str? && f[3].Str?
      then Some(SetVariable(f[1].u, f[2].text, f[3].text))
      else None
    case _ => None
  }

  /** What the constructors accept, and that a new request asks for just that and has heard nothing. */
  lemma NewRequests(slot: Option<byte>, id: byte, key: bytes, value: bytes, streaming: bool)
    ensures var s := if slot.Some? then slot.value else 128;
            && (NewEnv(slot, key, value).Ok? <==> s <= 128 && key != [] && value != [])
            && (NewEnv(slot, key, value).Ok? ==> NewEnv(slot, key, value).value == Env(EnvReq(false, s, key, value)))
            && (NewCwd(slot, key).Ok? <==> s <= 128 && key != [])
            && (NewCwd(slot, key).Ok? ==> NewCwd(slot, key).value == Cwd(CwdReq(false, s, key)))
    ensures NewExecute(id, key, streaming).Ok? <==> id <= 127 && key != []
    ensures NewExecute(id, key, streaming).Ok? ==>
              NewExecute(id, key, streaming).value == Execute(ExecuteReq(false, false, id, key, [], streaming, []))
  {}

  predicate Text(t: bytes) {
    Utf8(t) && |t| < 0x1_0000_0000
  }

  /** Text arguments are UTF-8 strings; lengths are those the format can express. */
  predicate Serializable(r: Request) {
    match r
    case Env(e) => Text(e.key) && Text(e.value)
    case Cwd(c) => Text(c.path)
    case GetFile(g) => Text(g.path)
    case SetFile(s) => Text(s.path) && |s.data| < 0x1_0000_0000
    case Execute(x) => Text(x.command)
    case _ => true
  }

  /** No argument is longer than a field may be. */
  predicate FitsLimits(r: Request) {
    && Serializable(r)
    && match r
       case Env(e) => |e.key| <= MAX_FIELD_BYTES && |e.value| <= MAX_FIELD_BYTES
       case Cwd(c) => |c.path| <= MAX_FIELD_BYTES
       case GetFile(g) => |g.path| <= MAX_FIELD_BYTES
       case SetFile(s) => |s.path| <= MAX_FIELD_BYTES && |s.data| <= MAX_FIELD_BYTES
       case Execute(x) => |x.command| <= MAX_FIELD_BYTES
       case _ => true
  }

  lemma SerializableIsPackable(r: Request)
    requires Serializable(r)
    ensures PackableFrame(FieldsOf(r))
    ensures FitsLimits(r) ==> FittingFrame(FieldsOf(r))
  {
    hide Utf8;
  }

  predicate InLimit(f: Field) {
    (f.Str? ==> |f.text| <= 0x80_0000) && (f.Bin? ==> |f.data| <= 0x80_0000)
  }

  /** The limits are the decoder's own: every argument fits a field of at most 8 MiB. */
  lemma FitsLimitsIff(r: Request)
    ensures FitsLimits(r) <==> Serializable(r) && forall i :: 0 <= i < |FieldsOf(r)| ==> InLimit(FieldsOf(r)[i])
  {
    hide Utf8;
    var fs := FieldsOf(r);
    match r
    case Env(e) => assert fs[2] == Str(e.key) && fs[3] == Str(e.value);
    case Cwd(c) => assert fs[2] == Str(c.path);
    case GetFile(g) => assert fs[1] == Str(g.path);
    case SetFile(s) => assert fs[1] == Str(s.path) && fs[2] == Bin(s.data);
    case Execute(x) => assert fs[2] == Str(x.command);
    case _ =>
  }

  function Pack(r: Request): (b: bytes)
    requires Serializable(r)
    ensures b != []
  {
    SerializableIsPackable(r);
    EncodeFrame(FieldsOf(r))
  }

  /**
    A packed request, whatever follows it, is taken off the stream whole, and its peer reads in it the
    order and the arguments it was made with.
   */
  lemma PackRoundTrip(r: Request, rest: bytes)
    requires FitsLimits(r)
    ensures DecodeOne(Pack(r) + rest) == Done(FieldsOf(r), |Pack(r)|)
    ensures ReadOrder(FieldsOf(r)) == Some(OrderOf(r))
    ensures forall k :: 0 <= k < |Pack(r)| ==> DecodeOne(Pack(r)[..k]) == More
  {
    hide DecodeOne, EncodeFrame;
    SerializableIsPackable(r);
    FrameRoundTrip(FieldsOf(r), rest);
    FrameRoundTrip(FieldsOf(r), []);
    assert Pack(r) + [] == Pack(r);
    forall k | 0 <= k < |Pack(r)| ensures DecodeOne(Pack(r)[..k]) == More {
      StrictPrefixNeedsMore(Pack(r), k);
    }
  }

  ghost predicate SerializableAll(rs: seq<Request>) {
    forall i :: 0 <= i < |rs| ==> Serializable(rs[i])
  }

  ghost function PackEach(rs: seq<Request>): bytes
    requires SerializableAll(rs)
  {
    if rs == [] then [] else Pack(rs[0]) + PackEach(rs[1..])
  }

  function FramesOf(rs: seq<Request>): (fs: seq<Frame>)
    ensures |fs| == |rs| && forall i :: 0 <= i < |rs| ==> fs[i] == FieldsOf(rs[i])
  {
    seq(|rs|, i requires 0 <= i < |rs| => FieldsOf(rs[i]))
  }

  lemma {:induction false} PackEachIsPackAll(rs: seq<Request>)
    requires SerializableAll(rs)
    ensures PackableAll(FramesOf(rs)) && PackEach(rs) == PackAll(FramesOf(rs))
  {
    hide EncodeFrame, PackableFrame, Serializable;
    forall i | 0 <= i < |rs| ensures PackableFrame(FramesOf(rs)[i]) {
      SerializableIsPackable(rs[i]);
    }
    if rs != [] {
      PackEachIsPackAll(rs[1..]);
      assert FramesOf(rs)[1..] == FramesOf(rs[1..]);
    }
  }

  lemma FramesJoin(xs: seq<Request>, ys: seq<Request>)
    ensures FramesOf(xs + ys) == FramesOf(xs) + FramesOf(ys)
  {
    hide FieldsOf;
  }

  lemma PackEachAppend(xs: seq<Request>, ys: seq<Request>)
    requires SerializableAll(xs) && SerializableAll(ys)
    ensures SerializableAll(xs + ys) && PackEach(xs + ys) == PackEach(xs) + PackEach(ys)
  {
    hide EncodeFrame, PackableFrame, Serializable, PackEach, PackAll, FramesOf;
    PackEachIsPackAll(xs);
    PackEachIsPackAll(ys);
    PackEachIsPackAll(xs + ys);
    FramesJoin(xs, ys);
    PackAllAppend(FramesOf(xs), FramesOf(ys));
  }

  lemma FramesFit(rs: seq<Request>)
    requires forall i :: 0 <= i < |rs| ==> FitsLimits(rs[i])
    ensures FittingAll(FramesOf(rs))
  {
    hide PackableFrame, FittingFrame, FitsLimits, FieldsOf;
    forall i | 0 <= i < |rs| ensures PackableFrame(FramesOf(rs)[i]) && FittingFrame(FramesOf(rs)[i]) {
      FitsMeansSerializable(rs[i]);
      SerializableIsPackable(rs[i]);
    }
  }

  lemma FitsMeansSerializable(r: Request)
    requires FitsLimits(r)
    ensures Serializable(r)
  {}

  // ---------------------------------------------------------------- feeding

  /** What a request makes of one frame. */
  datatype Outcome = Waiting | Completed(reply: Reply) | Refuse(fault: Fault)

  datatype Fed<R> = Fed(next: R, outcome: Outcome)

  function AsByte(f: Field): Option<byte> {
    match f
    case U64(v) => if v < 256 then Some(v as byte) else None
    case I64(v) => if 0 <= v < 256 then Some(v as byte) else None
    case _ => None
  }

  function AsU64(f: Field): Result<nat, Fault> {
    match f
    case U64(v) => Ok(v)
    case I64(v) => if v >= 0 then Ok(v) else Err(OutOfRange)
    case _ => Err(ExpectedInteger)
  }

  function AsI32(f: Field): Result<int, Fault> {
    var v := match f
      case U64(v) => Some(v)
      case I64(v) => Some(v)
      case _ => None;
    match v
    case None => Err(ExpectedInteger)
    case Some(n) => if -0x8000_0000 <= n < 0x8000_0000 then Ok(n) else Err(OutOfRange)
  }

  function AsBytes(f: Field): Option<bytes> {
    match f
    case Bin(d) => Some(d)
    case Str(t) => Some(t)
    case _ => None
  }

  function Opcode(msg: Frame): Option<byte> {
    if msg == [] then None else AsByte(msg[0])
  }

  /** Frames without a slot field address every slot; a slot sent as a signed integer addresses none. */
  predicate TargetsSlot(msg: Frame, slot: byte) {
    |msg| <= 1 || msg[1] == U64(slot)
  }

  function Stay<R>(r: R): Fed<R> {
    Fed(r, Waiting)
  }

  function FeedVersion(r: VersionReq, msg: Frame): Fed<VersionReq>
  {
    if r.completed || Opcode(msg) != Some(OP_VERSION) then Stay(r)
    else if |msg| < 2 then Fed(r, Refuse(MalformedFrame(OP_VERSION)))
    else if !msg[1].Str? then Fed(r, Refuse(ExpectedText))
    else Fed(r.(completed := true), Completed(VersionReply(msg[1].text)))
  }

  function FeedPing(r: PingReq, msg: Frame): Fed<PingReq>
  {
    if r.completed then Stay(r)
    else if Opcode(msg) == Some(OP_PING) then Stay(r.(echoed := true))
    else if Opcode(msg) != Some(OP_PONG) then Stay(r)
    else if !r.echoed then Fed(r, Refuse(PongWithoutPing))
    else if |msg| < 2 then Fed(r, Refuse(MalformedFrame(OP_PONG)))
    else
      match AsU64(msg[1])
      case Err(e) => Fed(r, Refuse(e))
      case Ok(t) => Fed(r.(completed := true), Completed(PingReply(t)))
  }

  function FeedEnv(r: EnvReq, msg: Frame): Fed<EnvReq>
  {
    if r.completed || !TargetsSlot(msg, r.slot) || Opcode(msg) != Some(OP_ENV) then Stay(r)
    else Fed(r.(completed := true), Completed(EnvReply(r.slot, r.key, r.value)))
  }

  function FeedCwd(r: CwdReq, msg: Frame): Fed<CwdReq>
  {
    if r.completed || !TargetsSlot(msg, r.slot) || Opcode(msg) != Some(OP_CWD) then Stay(r)
    else Fed(r.(completed := true), Completed(CwdReply(r.slot, r.path)))
  }

  function FeedGetFile(r: GetFileReq, msg: Frame): Fed<GetFileReq>
  {
    if r.completed then Stay(r)
    else if Opcode(msg) == Some(OP_DATA) then
      if |msg| < 2 then Fed(r, Refuse(MalformedFrame(OP_DATA))) else
      match AsBytes(msg[1])
      case None => Fed(r, Refuse(ExpectedBytes))
      case Some(chunk) =>
        var total := |r.data| + |chunk|;
        if total > MAX_FILE_BYTES then Fed(r, Refuse(PayloadTooLong(total)))
        else Stay(r.(data := r.data + chunk))
    else if Opcode(msg) == Some(OP_GET_FILE) then
      Fed(r.(completed := true, data := []), Completed(GetFileReply(r.path, r.data)))
    else Stay(r)
  }

  function FeedSetFile(r: SetFileReq, msg: Frame): Fed<SetFileReq>
  {
    if r.completed then Stay(r)
    else if Opcode(msg) == Some(OP_SET_FILE) && |msg| >= 2 && msg[1] == Str(r.path) then
      Fed(r.(completed := true, data := []), Completed(SetFileReply(r.path, r.data)))
    else Stay(r)
  }

  /** A LOG frame's payload is appended and, when streaming, forwarded; an empty one does nothing. */
  function FeedLog(r: ExecuteReq, msg: Frame): Fed<ExecuteReq>
  {
    if !r.echoed then Fed(r, Refuse(LogWithoutExec))
    else if |msg| < 4 then Fed(r, Refuse(MalformedFrame(OP_LOG)))
    else if !msg[3].Str? then Fed(r, Refuse(ExpectedText))
    else
      var log := msg[3].text;
      var total := |r.stdout| + |log|;
      if log == [] then Stay(r)
      else if total > MAX_STDOUT_BYTES then Fed(r, Refuse(StdoutTooLong(total)))
      else Stay(r.(stdout := r.stdout + log,
                   streamed := if r.streaming then r.streamed + [log] else r.streamed))
  }

  function FeedResult(r: ExecuteReq, msg: Frame): Fed<ExecuteReq>
  {
    if !r.echoed then Fed(r, Refuse(ResultWithoutExec))
    else if |msg| < 3 then Fed(r, Refuse(MalformedFrame(OP_RESULT)))
    else
      match AsU64(msg[2])
      case Err(e) => Fed(r, Refuse(e))
      case Ok(time) =>
        if |msg| < 4 then Fed(r, Refuse(MalformedFrame(OP_RESULT))) else
        match AsI32(msg[3])
        case Err(e) => Fed(r, Refuse(e))
        case Ok(code) =>
          if |msg| < 5 then Fed(r, Refuse(MalformedFrame(OP_RESULT))) else
          match AsI32(msg[4])
          case Err(e) => Fed(r, Refuse(e))
          case Ok(status) =>
            Fed(r.(completed := true, stdout := []), Completed(ExecuteReply(time, code, status, r.stdout)))
  }

  function FeedExecute(r: ExecuteReq, msg: Frame): Fed<ExecuteReq>
  {
    if r.completed || !TargetsSlot(msg, r.slot) then Stay(r)
    else if Opcode(msg) == Some(OP_EXEC) then Stay(r.(echoed := true))
    else if Opcode(msg) == Some(OP_LOG) then FeedLog(r, msg)
    else if Opcode(msg) == Some(OP_RESULT) then FeedResult(r, msg)
    else Stay(r)
  }

  function FeedKill(r: KillReq, msg: Frame): Fed<KillReq>
  {
    if r.completed || !TargetsSlot(msg, r.slot) || Opcode(msg) != Some(OP_KILL) then Stay(r)
    else Fed(r.(completed := true), Completed(KillReply(r.slot)))
  }

  function Lift<R>(fed: Fed<R>, wrap: R -> Request): Fed<Request> {
    Fed(wrap(fed.next), fed.outcome)
  }

  function Feed(r: Request, msg: Frame): Fed<Request> {
    match r
    case Version(v) => Lift(FeedVersion(v, msg), s => Version(s))
    case Ping(p) => Lift(FeedPing(p, msg), s => Ping(s))
    case Env(e) => Lift(FeedEnv(e, msg), s => Env(s))
    case Cwd(c) => Lift(FeedCwd(c, msg), s => Cwd(s))
    case GetFile(g) => Lift(FeedGetFile(g, msg), s => GetFile(s))
    case SetFile(f) => Lift(FeedSetFile(f, msg), s => SetFile(s))
    case Execute(x) => Lift(FeedExecute(x, msg), s => Execute(s))
    case Kill(k) => Lift(FeedKill(k, msg), s => Kill(s))
  }

  // ---------------------------------------------------------------- what feeding keeps

  /** `r` is the request `asked`, still unanswered. */
  predicate Unanswered(asked: Request, r: Request) {
    !r.Completed() &&
    match asked
    case Version(_) => r.Version?
    case Ping(_) => r.Ping?
    case Env(e) => r == Env(e.(completed := false))
    case Cwd(c) => r == Cwd(c.(completed := false))
    case GetFile(g) => r.GetFile? && r.getFile.path == g.path && |r.getFile.data| <= MAX_FILE_BYTES
    case SetFile(s) => r == SetFile(s.(completed := false))
    case Execute(x) =>
      r.Execute? && r.exec.slot == x.slot && r.exec.command == x.command
      && r.exec.streaming == x.streaming && |r.exec.stdout| <= MAX_STDOUT_BYTES
    case Kill(k) => r == Kill(k.(completed := false))
  }

  /** A reply of the kind `asked` calls for, about the same slot, key, value or path. */
  predicate Answers(asked: Request, reply: Reply) {
    match asked
    case Version(_) => reply.VersionReply?
    case Ping(_) => reply.PingReply?
    case Env(e) => reply == EnvReply(e.slot, e.key, e.value)
    case Cwd(c) => reply == CwdReply(c.slot, c.path)
    case GetFile(g) => reply.GetFileReply? && reply.path == g.path && |reply.data| <= MAX_FILE_BYTES
    case SetFile(s) => reply == SetFileReply(s.path, s.data)
    case Execute(_) => reply.ExecuteReply? && |reply.stdout| <= MAX_STDOUT_BYTES
    case Kill(k) => reply == KillReply(k.slot)
  }

  /**
    One frame either leaves the request unanswered, or answers it with a reply that fits it, or is
    refused with nothing changed.
   */
  lemma FeedKeepsIdentity(asked: Request, r: Request, msg: Frame)
    requires Unanswered(asked, r)
    ensures var fed := Feed(r, msg);
            match fed.outcome
            case Waiting => Unanswered(asked, fed.next)
            case Completed(reply) => fed.next.Completed() && Answers(asked, reply)
            case Refuse(_) => fed.next == r
  {}

  /** An answered request ignores every further frame: the reply is given once. */
  lemma AnsweredIgnoresFrames(r: Request, msg: Frame)
    requires r.Completed()
    ensures Feed(r, msg) == Stay(r)
  {}

  // ---------------------------------------------------------------- one EXEC among many frames

  /** Feeds frames until the request is answered or refuses one. */
  function FeedAll(x: ExecuteReq, msgs: seq<Frame>): Fed<ExecuteReq>
    decreases |msgs|
  {
    if msgs == [] then Stay(x) else
    var fed := FeedExecute(x, msgs[0]);
    if fed.outcome.Waiting? then FeedAll(fed.next, msgs[1..]) else fed
  }

  /** The frames an EXEC on `slot` listens to. */
  predicate Concerns(msg: Frame, slot: byte) {
    |msg| > 1 && msg[1] == U64(slot) && Opcode(msg) in {Some(OP_EXEC), Some(OP_LOG), Some(OP_RESULT)}
  }

  function OnlyConcerning(msgs: seq<Frame>, slot: byte): seq<Frame> {
    if msgs == [] then []
    else (if Concerns(msgs[0], slot) then [msgs[0]] else []) + OnlyConcerning(msgs[1..], slot)
  }

  /**
    Slots do not interfere: among frames that carry a slot field, an EXEC's fate depends only on
    the EXEC, LOG and RESULT frames addressed to its own slot.
   */
  lemma {:induction false} SlotsDoNotInterfere(x: ExecuteReq, msgs: seq<Frame>)
    requires forall i :: 0 <= i < |msgs| ==> |msgs[i]| > 1
    ensures FeedAll(x, msgs) == FeedAll(x, OnlyConcerning(msgs, x.slot))
    decreases |msgs|
  {
    if msgs != [] {
      var kept := OnlyConcerning(msgs[1..], x.slot);
      var fed := FeedExecute(x, msgs[0]);
      assert Concerns(msgs[0], x.slot) ==> ([msgs[0]] + kept)[1..] == kept;
      assert !Concerns(msgs[0], x.slot) ==> fed == Stay(x) && [] + kept == kept;
      SlotsDoNotInterfere(fed.next, msgs[1..]);
    }
  }

  /** The output one frame carries to `slot`: the payload of a LOG frame addressed to it. */
  function Logged(msg: Frame, slot: byte): bytes {
    if Concerns(msg, slot) && Opcode(msg) == Some(OP_LOG) && |msg| > 3 && msg[3].Str? then msg[3].text else []
  }

  function LoggedTo(msgs: seq<Frame>, slot: byte): bytes {
    if msgs == [] then [] else Logged(msgs[0], slot) + LoggedTo(msgs[1..], slot)
  }

  /** Everything received so far is kept, within the cap, and was forwarded when streaming. */
  predicate Collecting(x: ExecuteReq) {
    !x.completed && |x.stdout| <= MAX_STDOUT_BYTES && (x.streaming ==> Concat(x.streamed) == x.stdout)
  }

  lemma OutputStep(x: ExecuteReq, msg: Frame)
    requires |msg| > 1 && Collecting(x) && FeedExecute(x, msg).outcome.Waiting?
    ensures var y := FeedExecute(x, msg).next;
            Collecting(y) && y.stdout == x.stdout + Logged(msg, x.slot)
            && y.slot == x.slot && y.streaming == x.streaming
  {
    var y := FeedExecute(x, msg).next;
    if y.stdout != x.stdout {
      ConcatLast(x.streamed, msg[3].text);
    }
  }

  lemma {:induction false} OutputSoFar(x: ExecuteReq, msgs: seq<Frame>)
    requires forall i :: 0 <= i < |msgs| ==> |msgs[i]| > 1
    requires Collecting(x) && FeedAll(x, msgs).outcome.Waiting?
    ensures var y := FeedAll(x, msgs).next;
            Collecting(y) && y.stdout == x.stdout + LoggedTo(msgs, x.slot) && y.streaming == x.streaming
    decreases |msgs|
  {
    hide FeedExecute, Logged, Concat;
    if msgs != [] {
      OutputStep(x, msgs[0]);
      var next := FeedExecute(x, msgs[0]).next;
      OutputSoFar(next, msgs[1..]);
      var first, rest := Logged(msgs[0], x.slot), LoggedTo(msgs[1..], x.slot);
      assert x.stdout + first + rest == x.stdout + (first + rest);
    }
  }

  /**
    When an EXEC is answered, the reply carries the payloads of the LOG frames addressed to its slot
    so far, in order; a streaming EXEC has forwarded exactly that output, and it is at most 16 MiB.
   */
  lemma ReplyCarriesOutput(x: ExecuteReq, msgs: seq<Frame>, result: Frame)
    requires forall i :: 0 <= i < |msgs| ==> |msgs[i]| > 1
    requires !x.completed && x.stdout == [] && x.streamed == []
    requires FeedAll(x, msgs).outcome.Waiting?
    requires FeedExecute(FeedAll(x, msgs).next, result).outcome.Completed?
    ensures var last := FeedExecute(FeedAll(x, msgs).next, result);
            && last.outcome.reply.ExecuteReply?
            && last.outcome.reply.stdout == LoggedTo(msgs, x.slot)
            && |last.outcome.reply.stdout| <= MAX_STDOUT_BYTES
            && (x.streaming ==> Concat(last.next.streamed) == last.outcome.reply.stdout)
  {
    hide LoggedTo, FeedAll;
    OutputSoFar(x, msgs);
    assert x.stdout + LoggedTo(msgs, x.slot) == LoggedTo(msgs, x.slot);
  }
}
