/** The request state machines as the objects the poll task feeds in place. */
module RequestObjects {
  import opened Bytes
  import opened Msgpack
  import opened Stream
  import opened Results
  import opened Requests

  class VersionRequest {
    var completed: bool

    constructor (r: VersionReq)
      ensures State() == r
    {
      completed := r.completed;
    }

    function State(): VersionReq
      reads this
    {
      VersionReq(completed)
    }

    method Feed(msg: Frame) returns (out: Outcome)
      modifies this
      ensures Fed(State(), out) == FeedVersion(old(State()), msg)
    {
      if completed { return Waiting; }
      if Opcode(msg) == Some(OP_VERSION) {
        if |msg| <= 1 { return Refuse(MalformedFrame(OP_VERSION)); }
        if !msg[1].Str? { return Refuse(ExpectedText); }
        completed := true;
        return Completed(VersionReply(msg[1].text));
      }
      return Waiting;
    }
  }

  class PingRequest {
    var completed: bool
    var echoed: bool

    constructor (r: PingReq)
      ensures State() == r
    {
      completed, echoed := r.completed, r.echoed;
    }

    function State(): PingReq
      reads this
    {
      PingReq(completed, echoed)
    }

    method Feed(msg: Frame) returns (out: Outcome)
      modifies this
      ensures Fed(State(), out) == FeedPing(old(State()), msg)
    {
      if completed { return Waiting; }
      if Opcode(msg) == Some(OP_PING) {
        echoed := true;
      } else if Opcode(msg) == Some(OP_PONG) {
        if !echoed { return Refuse(PongWithoutPing); }
        if |msg| <= 1 { return Refuse(MalformedFrame(OP_PONG)); }
        var end := AsU64(msg[1]);
        if end.Err? { return Refuse(end.error); }
        completed := true;
        return Completed(PingReply(end.value));
      }
      return Waiting;
    }
  }

  class EnvRequest {
    var completed: bool
    const slot: byte
    const key: bytes
    const value: bytes

    constructor (r: EnvReq)
      ensures State() == r
    {
      completed, slot, key, value := r.completed, r.slot, r.key, r.value;
    }

    function State(): EnvReq
      reads this
    {
      EnvReq(completed, slot, key, value)
    }

    method Feed(msg: Frame) returns (out: Outcome)
      modifies this
      ensures Fed(State(), out) == FeedEnv(old(State()), msg)
    {
      if completed || !TargetsSlot(msg, slot) { return Waiting; }
      if Opcode(msg) == Some(OP_ENV) {
        completed := true;
        return Completed(EnvReply(slot, key, value));
      }
      return Waiting;
    }
  }

  class CwdRequest {
    var completed: bool
    const slot: byte
    const path: bytes

    constructor (r: CwdReq)
      ensures State() == r
    {
      completed, slot, path := r.completed, r.slot, r.path;
    }

    function State(): CwdReq
      reads this
    {
      CwdReq(completed, slot, path)
    }

    method Feed(msg: Frame) returns (out: Outcome)
      modifies this
      ensures Fed(State(), out) == FeedCwd(old(State()), msg)
    {
      if completed || !TargetsSlot(msg, slot) { return Waiting; }
      if Opcode(msg) == Some(OP_CWD) {
        completed := true;
        return Completed(CwdReply(slot, path));
      }
      return Waiting;
    }
  }

  class GetFileRequest {
    var completed: bool
    const path: bytes
    var data: bytes

    constructor (r: GetFileReq)
      ensures State() == r
    {
      completed, path, data := r.completed, r.path, r.data;
    }

    function State(): GetFileReq
      reads this
    {
      GetFileReq(completed, path, data)
    }

    method Feed(msg: Frame) returns (out: Outcome)
      modifies this
      ensures Fed(State(), out) == FeedGetFile(old(State()), msg)
    {
      if completed { return Waiting; }
      if Opcode(msg) == Some(OP_DATA) {
        if |msg| <= 1 { return Refuse(MalformedFrame(OP_DATA)); }
        var chunk := AsBytes(msg[1]);
        if chunk.None? { return Refuse(ExpectedBytes); }
        var total := |data| + |chunk.value|;
        if total > MAX_FILE_BYTES { return Refuse(PayloadTooLong(total)); }
        data := data + chunk.value;
      } else if Opcode(msg) == Some(OP_GET_FILE) {
        completed := true;
        out := Completed(GetFileReply(path, data));
        data := [];
        return;
      }
      return Waiting;
    }
  }

  class SetFileRequest {
    var completed: bool
    const path: bytes
    var data: bytes

    constructor (r: SetFileReq)
      ensures State() == r
    {
      completed, path, data := r.completed, r.path, r.data;
    }

    function State(): SetFileReq
      reads this
    {
      SetFileReq(completed, path, data)
    }

    method Feed(msg: Frame) returns (out: Outcome)
      modifies this
      ensures Fed(State(), out) == FeedSetFile(old(State()), msg)
    {
      if completed { return Waiting; }
      if Opcode(msg) == Some(OP_SET_FILE) && |msg| > 1 && msg[1] == Str(path) {
        completed := true;
        out := Completed(SetFileReply(path, data));
        data := [];
        return;
      }
      return Waiting;
    }
  }

  class ExecuteRequest {
    var completed: bool
    var echoed: bool
    const slot: byte
    const command: bytes
    var stdout: bytes
    const streaming: bool
    var streamed: seq<bytes>

    constructor (r: ExecuteReq)
      ensures State() == r
    {
      completed, echoed, slot, command := r.completed, r.echoed, r.slot, r.command;
      stdout, streaming, streamed := r.stdout, r.streaming, r.streamed;
    }

    function State(): ExecuteReq
      reads this
    {
      ExecuteReq(completed, echoed, slot, command, stdout, streaming, streamed)
    }

    method Feed(msg: Frame) returns (out: Outcome)
      modifies this
      ensures Fed(State(), out) == FeedExecute(old(State()), msg)
    {
      if completed || !TargetsSlot(msg, slot) { return Waiting; }
      if Opcode(msg) == Some(OP_EXEC) {
        echoed := true;
      } else if Opcode(msg) == Some(OP_LOG) {
        out := OnLog(msg);
        return;
      } else if Opcode(msg) == Some(OP_RESULT) {
        out := OnResult(msg);
        return;
      }
      return Waiting;
    }

    method OnLog(msg: Frame) returns (out: Outcome)
      modifies this
      ensures Fed(State(), out) == FeedLog(old(State()), msg)
    {
      if !echoed { return Refuse(LogWithoutExec); }
      if |msg| <= 3 { return Refuse(MalformedFrame(OP_LOG)); }
      if !msg[3].Str? { return Refuse(ExpectedText); }
      var log := msg[3].text;
      if log != [] {
        var total := |stdout| + |log|;
        if total > MAX_STDOUT_BYTES { return Refuse(StdoutTooLong(total)); }
        stdout := stdout + log;
        if streaming {
          streamed := streamed + [log];
        }
      }
      return Waiting;
    }

    method OnResult(msg: Frame) returns (out: Outcome)
      modifies this
      ensures Fed(State(), out) == FeedResult(old(State()), msg)
    {
      if !echoed { return Refuse(ResultWithoutExec); }
      if |msg| <= 2 { return Refuse(MalformedFrame(OP_RESULT)); }
      var time := AsU64(msg[2]);
      if time.Err? { return Refuse(time.error); }
      if |msg| <= 3 { return Refuse(MalformedFrame(OP_RESULT)); }
      var code := AsI32(msg[3]);
      if code.Err? { return Refuse(code.error); }
      if |msg| <= 4 { return Refuse(MalformedFrame(OP_RESULT)); }
      var status := AsI32(msg[4]);
      if status.Err? { return Refuse(status.error); }
      completed := true;
      out := Completed(ExecuteReply(time.value, code.value, status.value, stdout));
      stdout := [];
    }
  }

  class KillRequest {
    var completed: bool
    const slot: byte

    constructor (r: KillReq)
      ensures State() == r
    {
      completed, slot := r.completed, r.slot;
    }

    function State(): KillReq
      reads this
    {
      KillReq(completed, slot)
    }

    method Feed(msg: Frame) returns (out: Outcome)
      modifies this
      ensures Fed(State(), out) == FeedKill(old(State()), msg)
    {
      if completed || !TargetsSlot(msg, slot) { return Waiting; }
      if Opcode(msg) == Some(OP_KILL) {
        completed := true;
        return Completed(KillReply(slot));
      }
      return Waiting;
    }
  }

  /** One of the eight request objects. */
  datatype RequestObject =
    | VersionObject(version: VersionRequest)
    | PingObject(ping: PingRequest)
    | EnvObject(env: EnvRequest)
    | CwdObject(cwd: CwdRequest)
    | GetFileObject(getFile: GetFileRequest)
    | SetFileObject(setFile: SetFileRequest)
    | ExecuteObject(exec: ExecuteRequest)
    | KillObject(kill: KillRequest)

  function Cell(r: RequestObject): object {
    match r
    case VersionObject(o) => o
    case PingObject(o) => o
    case EnvObject(o) => o
    case CwdObject(o) => o
    case GetFileObject(o) => o
    case SetFileObject(o) => o
    case ExecuteObject(o) => o
    case KillObject(o) => o
  }

  /** The request an object currently stands for. */
  function View(r: RequestObject): Request
    reads Cell(r)
  {
    match r
    case VersionObject(o) => Version(o.State())
    case PingObject(o) => Ping(o.State())
    case EnvObject(o) => Env(o.State())
    case CwdObject(o) => Cwd(o.State())
    case GetFileObject(o) => GetFile(o.State())
    case SetFileObject(o) => SetFile(o.State())
    case ExecuteObject(o) => Execute(o.State())
    case KillObject(o) => Kill(o.State())
  }

  /** A new object for a request. */
  method NewObject(r: Request) returns (o: RequestObject)
    ensures fresh(Cell(o)) && View(o) == r
  {
    match r {
      case Version(v) => var n := new VersionRequest(v); o := VersionObject(n);
      case Ping(v) => var n := new PingRequest(v); o := PingObject(n);
      case Env(v) => var n := new EnvRequest(v); o := EnvObject(n);
      case Cwd(v) => var n := new CwdRequest(v); o := CwdObject(n);
      case GetFile(v) => var n := new GetFileRequest(v); o := GetFileObject(n);
      case SetFile(v) => var n := new SetFileRequest(v); o := SetFileObject(n);
      case Execute(v) => var n := new ExecuteRequest(v); o := ExecuteObject(n);
      case Kill(v) => var n := new KillRequest(v); o := KillObject(n);
    }
  }

  /** Feeding the object in place is feeding the request it stands for. */
  method FeedObject(r: RequestObject, msg: Frame) returns (out: Outcome)
    modifies Cell(r)
    ensures Fed(View(r), out) == Feed(old(View(r)), msg)
  {
    match r
    case VersionObject(o) => out := o.Feed(msg);
    case PingObject(o) => out := o.Feed(msg);
    case EnvObject(o) => out := o.Feed(msg);
    case CwdObject(o) => out := o.Feed(msg);
    case GetFileObject(o) => out := o.Feed(msg);
    case SetFileObject(o) => out := o.Feed(msg);
    case ExecuteObject(o) => out := o.Feed(msg);
    case KillObject(o) => out := o.Feed(msg);
  }
}
