/** Running one test's command: what the target's answers make of it. */
module ExecTest {
  import opened Results

  datatype KirkError =
    | KernelPanic(partial: string)
    | KernelTainted(detail: string)
    | KernelTimeout(message: string)
    | SchedulerError(message: string)
    | OtherError(message: string)

  /** Errors after which the suite loop restarts the target and goes on. */
  predicate IsKernelError(e: KirkError) {
    e.KernelPanic? || e.KernelTainted? || e.KernelTimeout?
  }

  const KILLED_RETURNCODE := -9

  datatype Row = Row(returncode: int, stdout: string)

  datatype TestStatus = StatusOk | TestTimedOut | Panicked | Tainted | NotResponding

  /** Either a row to build a result from, or none, possibly with an error to raise. */
  datatype ExecOutcome = ExecOutcome(row: Option<Row>, status: TestStatus, detail: string, fatal: Option<KirkError>)

  /** How the command under the timeout ended. */
  datatype CommandEnd = Completed(row: Option<Row>) | Failed(error: KirkError) | Expired

  /** How the ping after an expired timeout ended. */
  datatype PingEnd = Replied | PingFailed(error: KirkError) | PingExpired

  /** Everything the target answers while one test runs; `captured` is the output streamed so far. */
  datatype Answers = Answers(before: Result<int, KirkError>, command: CommandEnd, ping: PingEnd,
                             after: Result<(int, string), KirkError>, captured: string)

  const NO_RESULT := SchedulerError("Test command return None")

  function FatalOutcome(e: KirkError): ExecOutcome {
    ExecOutcome(None, StatusOk, "", Some(e))
  }

  // ---------------------------------------------------------------- specification

  /** The target answered the ping after an expired timeout, or is known not to respond. */
  predicate PingDecides(ping: PingEnd) {
    ping.Replied? || ping.PingExpired? || ping.error.KernelTimeout?
  }

  /** The taint flags are checked again only after a command that completed with a row. */
  predicate RowOk(a: Answers) {
    a.command.Completed? && a.command.row.Some?
  }

  /** The error that leaves the test without a row, if any; a panic before the command raises none. */
  function Blocker(a: Answers): Option<KirkError> {
    if a.before.Err? then (if a.before.error.KernelPanic? then None else Some(a.before.error))
    else if a.command.Failed? && !a.command.error.KernelPanic? then Some(a.command.error)
    else if a.command == Completed(None) then Some(NO_RESULT)
    else if a.command.Expired? && !PingDecides(a.ping) then Some(a.ping.error)
    else if RowOk(a) && a.after.Err? && !a.after.error.KernelPanic? then Some(a.after.error)
    else None
  }

  predicate PanicsBefore(a: Answers) {
    a.before.Err? && a.before.error.KernelPanic?
  }

  /** What is wrong with the kernel, given that nothing blocks the row. */
  function StatusOf(a: Answers): TestStatus {
    match a.command
    case Failed(_) => Panicked
    case Expired => if a.ping.Replied? then TestTimedOut else NotResponding
    case Completed(_) =>
      if a.after.Err? then Panicked
      else if a.before.Ok? && a.after.value.0 != a.before.value then Tainted
      else StatusOk
  }

  function DetailOf(a: Answers): string {
    match a.command
    case Failed(KernelPanic(partial)) => partial
    case Completed(_) =>
      (match a.after
       case Err(KernelPanic(partial)) => partial
       case Ok((_, messages)) => if StatusOf(a) == Tainted then messages else ""
       case _ => "")
    case _ => ""
  }

  function RowOf(a: Answers): Option<Row> {
    if StatusOf(a) in {StatusOk, Tainted} && a.command.Completed? then a.command.row
    else Some(Row(-1, if DetailOf(a) == "" then a.captured else DetailOf(a)))
  }

  function Outcome(a: Answers): ExecOutcome {
    if PanicsBefore(a) then ExecOutcome(None, Panicked, a.before.error.partial, None)
    else if Blocker(a).Some? then FatalOutcome(Blocker(a).value)
    else ExecOutcome(RowOf(a), StatusOf(a), DetailOf(a), None)
  }

  /** The error a test raises once its result is recorded. */
  function RaisedAfterRecord(o: ExecOutcome): Option<KirkError> {
    match o.status
    case Tainted => Some(KernelTainted(o.detail))
    case Panicked => Some(KernelPanic(o.detail))
    case NotResponding => Some(KernelTimeout("SUT is not responding"))
    case _ => None
  }

  // ---------------------------------------------------------------- the code

  method Execute(a: Answers) returns (o: ExecOutcome)
    ensures o == Outcome(a)
    ensures o.row.Some? ==> RowFor(a, o.row.value)
    ensures forall e :: o.fatal == Some(e) <==> ErrorInstead(a, e)
  {
    OutcomeHolds(a);
    hide RowFor, ErrorInstead;
    var taintedBefore;
    match a.before {
      case Ok(code) => taintedBefore := code;
      case Err(KernelPanic(partial)) => return ExecOutcome(None, Panicked, partial, None);
      case Err(error) => return FatalOutcome(error);
    }
    var status := StatusOk;
    var row: Option<Row> := None;
    var detail := "";
    match a.command {
      case Completed(data) => row := data;
      case Failed(KernelPanic(partial)) =>
        status := Panicked;
        detail := partial;
      case Failed(error) => return FatalOutcome(error);
      case Expired =>
        status := TestTimedOut;
        match a.ping {
          case Replied =>
          case PingFailed(KernelTimeout(_)) => status := NotResponding;
          case PingFailed(error) => return FatalOutcome(error);
          case PingExpired => status := NotResponding;
        }
    }
    if status == StatusOk && row.None? {
      return FatalOutcome(NO_RESULT);
    }
    if status == StatusOk {
      match a.after {
        case Ok((code, messages)) =>
          if code != taintedBefore {
            status := Tainted;
            detail := messages;
          }
        case Err(KernelPanic(partial)) =>
          status := Panicked;
          detail := partial;
        case Err(error) => return FatalOutcome(error);
      }
    }
    if status != StatusOk && status != Tainted {
      row := Some(Row(-1, if detail == "" then a.captured else detail));
    }
    return ExecOutcome(row, status, detail, None);
  }

  // ---------------------------------------------------------------- properties

  /** The answers after which no result can be recorded. */
  predicate LeavesNoRow(a: Answers) {
    || a.before.Err?
    || (a.command.Failed? && !a.command.error.KernelPanic?)
    || a.command == Completed(None)
    || (a.command.Expired? && !PingDecides(a.ping))
    || (RowOk(a) && a.after.Err? && !a.after.error.KernelPanic?)
  }

  /**
    A row is missing exactly after those answers, and only a missing row comes with an error of its
    own; a panic seen before the command leaves neither row nor error.
   */
  lemma RowMissingIff(a: Answers)
    ensures Outcome(a).row.None? <==> LeavesNoRow(a)
    ensures Outcome(a).fatal.Some? ==> Outcome(a).row.None?
    ensures Outcome(a).row.None? && Outcome(a).fatal.None? <==> PanicsBefore(a)
  {}

  /**
    When a row is built, a kernel error follows exactly when the command or the second taint check
    panicked, the target stopped answering, or the taint flags changed over the test.
   */
  lemma KernelErrorFollowsIff(a: Answers)
    requires Outcome(a).row.Some?
    ensures RaisedAfterRecord(Outcome(a)).Some? <==>
      (|| a.command.Failed?
       || (a.command.Expired? && !a.ping.Replied?)
       || (a.command.Completed? && (a.after.Err? || a.after.value.0 != a.before.value)))
    ensures RaisedAfterRecord(Outcome(a)).Some? ==> IsKernelError(RaisedAfterRecord(Outcome(a)).value)
  {}

  /** The text of the panic that the command, or the second taint check, ended in. */
  predicate PanicText(a: Answers, text: string) {
    a.command == Failed(KernelPanic(text)) || (RowOk(a) && a.after == Err(KernelPanic(text)))
  }

  /**
    The row that belongs to these answers: the command's own when it completed and the target answered
    the second check, else return code -1 with the panic's text, or with what was captured if there is none.
   */
  ghost predicate RowFor(a: Answers, row: Row) {
    if a.command.Completed? && a.after.Ok? then a.command == Completed(Some(row))
    else
      && row.returncode == -1
      && (forall text :: PanicText(a, text) && text != "" ==> row.stdout == text)
      && ((forall text :: PanicText(a, text) ==> text == "") ==> row.stdout == a.captured)
  }

  /** The error that comes after the row: the panic, the changed taint flags, or a target that is gone. */
  predicate ErrorAfterRow(a: Answers, e: KirkError) {
    match a.command
    case Failed(KernelPanic(text)) => e == KernelPanic(text)
    case Failed(_) => false
    case Expired =>
      (a.ping.PingExpired? || (a.ping.PingFailed? && a.ping.error.KernelTimeout?))
      && e == KernelTimeout("SUT is not responding")
    case Completed(_) =>
      match a.after
      case Err(KernelPanic(text)) => e == KernelPanic(text)
      case Err(_) => false
      case Ok((code, messages)) => a.before != Ok(code) && e == KernelTainted(messages)
  }

  /** The error that comes instead of a row: the first one met that is no panic, or a missing result. */
  predicate ErrorInstead(a: Answers, e: KirkError) {
    match a.before
    case Err(first) => e == first && !first.KernelPanic?
    case Ok(_) =>
      match a.command
      case Failed(failure) => e == failure && !failure.KernelPanic?
      case Expired => a.ping == PingFailed(e) && !e.KernelTimeout?
      case Completed(None) => e == SchedulerError("Test command return None")
      case Completed(Some(_)) => a.after == Err(e) && !e.KernelPanic?
  }

  /** Everything a test's command comes to, read off the target's answers. */
  lemma OutcomeHolds(a: Answers)
    ensures Outcome(a).row.Some? ==> RowFor(a, Outcome(a).row.value)
    ensures forall e :: Outcome(a).row.Some? && RaisedAfterRecord(Outcome(a)) == Some(e) <==>
                          !LeavesNoRow(a) && ErrorAfterRow(a, e)
    ensures forall e :: Outcome(a).fatal == Some(e) <==> ErrorInstead(a, e)
  {
    RowMissingIff(a);
    if Outcome(a).row.Some? && a.command.Failed? {
      assert PanicText(a, a.command.error.partial);
    }
    if Outcome(a).row.Some? && RowOk(a) && a.after.Err? {
      assert PanicText(a, a.after.error.partial);
    }
  }

  /** A command that times out, and a ping that finds a panic: a kernel error without a row to record. */
  lemma KernelErrorWithoutRow(partial: string) returns (a: Answers)
    ensures a == Answers(Ok(0), Expired, PingFailed(KernelPanic(partial)), Ok((0, "")), "")
    ensures LeavesNoRow(a) && Outcome(a).row.None? && Outcome(a).fatal == Some(KernelPanic(partial))
  {
    a := Answers(Ok(0), Expired, PingFailed(KernelPanic(partial)), Ok((0, "")), "");
  }
}
