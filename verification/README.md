# Verification of kirk's concurrent core

kirk runs Linux test suites on a target: a session picks suites, schedulers run their tests in parallel
and reboot the target after kernel failures, and a channel (LTX over a FIFO pair, a QEMU serial line, a
local shell, ssh) carries commands and output. This project models the parts of kirk in which several
things go on at once or bytes arrive in arbitrary pieces, and proves what they promise for every input and
every interleaving.

Verify everything with `dafny verify dfyconfig.toml` (Dafny 4.11).

## How the model is laid out

| files | what they model |
|---|---|
| `Bytes`, `Utf8Text`, `Msgpack`, `Spellings`, `Stream`, `Residue` | the LTX wire format: decoding one frame, checked against every form a writer may choose; decoding a stream in pieces; what a residue can still become |
| `Requests`, `Replies`, `RequestObjects` | the eight LTX requests: packing and what a peer reads, feeding frames, what answers or ends a request, as values and as objects updated in place |
| `Dispatch`, `Connection` | dispatching a frame over all pending requests and the poll loop: pure functions, and the class that refines them |
| `Slots`, `Multiplexer*` | execution slots and many concurrent callers on one connection, as a step system over all interleavings |
| `ExecTest`, `TestScheduler*`, `ScheduleOutcome`, `ScheduleProgress`, `StopProgress` | one test's command, the two-phase test scheduler with its stops as a step system, what a schedule records, decided by the target's answers, and that tests and stops never deadlock |
| `SuiteScheduler`, `SuiteRounds` | the reboot-and-retry loop over a suite, and why schedules of the test scheduler are its rounds |
| `SuiteStops`, `SuiteHistory`, `SuiteCompletion`, `SuiteProgress` | the stops of both schedulers together, and the whole suite schedule in every interleaving of rounds, stops, restarts and timeouts |
| `TextSearch`, `Expect`, `PanicScan` | the serial expect loop and incremental kernel-panic detection |
| `Characters`, `Reply`, `NameOrder`, `Quoting`, `WordForms` | reading a guest's return code; shell quoting against the repository's own word splitters; every way to write a word and what the splitters read |
| `ShellLifecycle` | children of the shell channel: register, stop, reap and kill races |
| `Session` | the `executed` file and restoring a session from it |

Concurrent components are step systems: an action that is not enabled changes nothing, a run is a list of
actions, and a theorem about `Run(actions)` or `History(actions)` for every list is a theorem about every
interleaving. Where the code is a loop or an object, the model is a loop or a class whose contract says it
computes a specification function; the theorems are about that function. What comes from outside (bytes
read, timeouts, write failures, cancellations, the target's answers, whether a lock was free) is an input.

## What turned out not to hold, and exactly when it does

* A residue in the LTX reader's buffer need not be the beginning of any frame: `0xCC` alone keeps the
  reader waiting for a frame that cannot come (`Residue.WaitingInVain`). `Residue.BeginsFrameIffOpen` gives
  the exact condition, judged from the bytes received.
* A stop counted during a schedule keeps its effect if and only if no earlier stop stands between the
  schedule lock and the reset of the counter when the schedule begins
  (`TestSchedulerProperties.StopKeepsEffectIff`); otherwise a stop can be lost and the test it should have
  held back runs (`AStopCanBeLost`).
* A round of the suite loop need not make progress. What an unstopped schedule records is decided by what
  the target answers to its tests (`ScheduleOutcome.RecordsAreDecided`), and the round shrinks what is left
  if and only if some test that is reached leaves a row that can be read
  (`SuiteRounds.RoundShrinksIffNotBarren`). A panic seen before a test's command is swallowed, and a panic
  found by the ping after a timeout restarts the target, both without end
  (`SuiteRounds.PanicBeforeCommandIsSwallowed`, `SuiteRounds.PanicAtPingRestartsForever`).
* Every suite loop that ends undisturbed has one result per test if and only if the suite's test names are
  distinct: for all well-run rounds (`SuiteScheduler.CompleteIffDistinct`), and for rounds that are schedules
  of the test scheduler, on any answers (`SuiteRounds.SchedulesCompleteIffDistinct`;
  `SuiteRounds.DuplicateSchedules` gives two schedules that go wrong together for any suite with a repeated
  name).
* A stop of the suite scheduler is lost in the same way, under the same kind of condition
  (`SuiteStops.FlagKeepsEffectIff`); `SuiteStops.ASuiteStopCanBeLost` gives the actions after which a stop is
  under way, the flag is down and a round has begun.
* A guest's reply is read back exactly if and only if no marker starts inside the output
  (`Reply.ReplyReadBackIff`; output `5` with return code 0 is read as 50, `Reply.DigitsRunTogether`), and the
  `executed` file if and only if every pair is recoverable (`Session.ExecutedReadBackIff`; suite `a::b` is
  not, `Session.ColonsMoveTheSplit`). A run with more than one iteration records under renamed suites, so
  restoring from it takes nothing from a suite whose name does not end in a bracket
  (`Session.IterationDefeatsRestore`); one that bears such a name by itself can lose tests
  (`Session.IteratedNameCanCollide`).
* The comment on `wait_for_message` (expect.rs:64-67) says that the returned text ends with the message; the
  code returns the whole buffer, tail included, and also keeps the tail pending. The model follows the code.

## Model

| member | source | states |
|---|---|---|
| Msgpack.DecodeOne | crates/kirk-com-ltx/src/ltx.rs:168-183 | a decoded frame takes at least one byte and no more than there are, which is why the decode loop ends |
| Msgpack.FrameDecided | crates/kirk-com-ltx/src/ltx.rs:150-183 | once a buffer decodes to a frame or is refused, the answer, the frame and its length stay the same whatever bytes follow |
| Msgpack.StrictPrefixNeedsMore | crates/kirk-com-ltx/src/ltx.rs:150-183 | every strict prefix of exactly one frame is answered "need more bytes" |
| Msgpack.FieldRoundTrip | crates/kirk-com-ltx/src/request.rs:208-313 | an encoded field within the size limit is read back as itself, wherever it stands in a buffer, and exactly its own bytes are consumed |
| Msgpack.FrameRoundTrip | crates/kirk-com-ltx/src/request.rs:316-355 | an encoded frame, whatever follows it, decodes to exactly its fields and exactly its length |
| Spellings.DecodesIffSpelled | crates/kirk-com-ltx/src/request.rs:208-313 | a value is read between two positions of a buffer if and only if the bytes there are one of the forms the format allows for it: fixed and sized numbers, two's complement, short and sized strings and binaries |
| Spellings.FrameDecodesIffSpelled | crates/kirk-com-ltx/src/ltx.rs:168-183 | a frame is taken off a buffer if and only if those bytes are an array of at most eight scalar values, in whichever of their forms |
| Utf8Text.Utf8IffEncoded | crates/kirk-com-ltx/src/request.rs:269-285 | bytes are accepted as text if and only if they are the UTF-8 encoding of some characters |
| Stream.DecodeAllResumes | crates/kirk-com-ltx/src/ltx.rs:557-596 | decoding a stream can be interrupted anywhere and continued with the residue and the bytes that follow, with the same frames and the same final residue |
| Stream.PackedPrefixDecodes | crates/kirk-com-ltx/src/ltx.rs:168-183 | a concatenation of packed frames cut at any byte decodes to the frames it holds in full, and the rest needs more bytes |
| Stream.PackedAllDecodes | crates/kirk-com-ltx/src/ltx.rs:390-393 | a whole concatenation of packed frames parses back to exactly those frames, with nothing left |
| Residue.BeginsFrameIffOpen | crates/kirk-com-ltx/src/ltx.rs:168-183 | an undecided residue begins some complete frame if and only if its own bytes satisfy the stated condition |
| Residue.WaitingInVain | crates/kirk-com-ltx/src/ltx.rs:168-183 | a concrete residue that is undecided although no continuation makes it a frame |
| Requests.PackRoundTrip | crates/kirk-com-ltx/src/request.rs:562-573 | for every request within the limits, its packing, whatever follows it, is taken off the stream whole, and a peer that reads opcode and fields by position finds the order and the arguments the request was made with; every strict prefix needs more |
| Requests.NewRequests | crates/kirk-com-ltx/src/request.rs:419-548 | which slots and arguments the constructors accept, and that a new request holds just those and has heard nothing |
| Requests.FeedKeepsIdentity | crates/kirk-com-ltx/src/request.rs:582-593 | one frame leaves a request unanswered and the same request, or answers it with a reply of its own kind, slot, key or path within the size caps, or is refused with the request unchanged |
| Requests.AnsweredIgnoresFrames | crates/kirk-com-ltx/src/request.rs:575-581 | an answered request ignores every further frame, so its reply is given once |
| Replies.FeedIff | crates/kirk-com-ltx/src/request.rs:582-940 | for each kind of request, exactly which frames answer it and with which reply, which it refuses, and what any other frame leaves of it |
| Replies.ExecAnsweredIff | crates/kirk-com-ltx/src/request.rs:845-910 | an EXEC is answered by a sequence of frames if and only if one is the first RESULT for its slot, whole, behind an echo, with every LOG since whole and within the cap; the reply says what that RESULT says |
| Requests.SlotsDoNotInterfere | crates/kirk-com-ltx/src/request.rs:603-608 | over any frames that carry a slot field, what becomes of an EXEC depends only on the EXEC, LOG and RESULT frames addressed to its own slot |
| Requests.ReplyCarriesOutput | crates/kirk-com-ltx/src/request.rs:845-910 | the reply's stdout is the concatenation of the LOG payloads addressed to the slot, in order, is what was streamed, and is at most 16 MiB |
| RequestObjects.VersionRequest.Feed | crates/kirk-com-ltx/src/request.rs:622-637 | updating the request in place computes the specified transition and outcome |
| RequestObjects.PingRequest.Feed | crates/kirk-com-ltx/src/request.rs:653-677 | as above, with the PING echo required before PONG |
| RequestObjects.EnvRequest.Feed | crates/kirk-com-ltx/src/request.rs:695-712 | as above, answered by the slot's ENV echo |
| RequestObjects.CwdRequest.Feed | crates/kirk-com-ltx/src/request.rs:729-745 | as above, answered by the slot's CWD echo |
| RequestObjects.GetFileRequest.Feed | crates/kirk-com-ltx/src/request.rs:762-793 | as above, collecting DATA up to 64 MiB until the GET_FILE echo |
| RequestObjects.SetFileRequest.Feed | crates/kirk-com-ltx/src/request.rs:810-825 | as above, answered by the echo of its own path |
| RequestObjects.ExecuteRequest.Feed | crates/kirk-com-ltx/src/request.rs:845-910 | as above, with output, caps and the RESULT checks in the code's order |
| RequestObjects.KillRequest.Feed | crates/kirk-com-ltx/src/request.rs:926-939 | as above, answered by the slot's KILL echo |
| Dispatch.SurvivorsKeepOrder | crates/kirk-com-ltx/src/ltx.rs:517-534 | requests still waiting after a frame keep their relative order, and they are all and only the ones the frame did not complete |
| Dispatch.NoRequestLost | crates/kirk-com-ltx/src/ltx.rs:517-527 | every request that was pending is afterwards still pending or has a reply filed under its own id; other replies are untouched |
| Dispatch.FiledIsOwnReply | crates/kirk-com-ltx/src/ltx.rs:517-527 | the reply filed under a completed request's id is the one that request gave |
| Dispatch.FatalIsKept | crates/kirk-com-ltx/src/ltx.rs:493-499 | an earlier fatal message is never overwritten |
| Dispatch.FatalIff | crates/kirk-com-ltx/src/ltx.rs:501-535 | a frame condemns the connection if and only if it is an ERROR or has no opcode and could be recorded, or some pending request refuses it; with which message |
| Dispatch.RefusalStopsTheScan | crates/kirk-com-ltx/src/ltx.rs:517-534 | a refused frame has reached exactly the requests before the first that refuses it; that one and all behind it stay as they are |
| Connection.Ltx.Register | crates/kirk-com-ltx/src/ltx.rs:397-419 | a batch is queued whole under consecutive fresh ids, or nothing changes: after a fatal message, or on id overflow |
| Connection.Ltx.ScanPending | crates/kirk-com-ltx/src/ltx.rs:516-535 | the loop that removes while it scans computes the pure fold: entries before the first refusal processed, that one and all later ones unchanged |
| Connection.Ltx.DispatchFrame | crates/kirk-com-ltx/src/ltx.rs:501-535 | one frame does to the whole book-keeping exactly what the specification says: empty, ERROR, non-integer opcode, or a scan |
| Connection.Ltx.Collect | crates/kirk-com-ltx/src/ltx.rs:438-467 | replies are handed out only when all ids have one, in the order of the ids, each once, after the three connection checks in order |
| Connection.KeysFillCount | crates/kirk-com-ltx/src/ltx.rs:453-455 | the length test before the key test never changes the answer: distinct keys that are all present cannot outnumber the entries |
| Connection.Ltx.DrainBuffer | crates/kirk-com-ltx/src/ltx.rs:572-590 | the inner loop ends and takes from the buffer exactly the frames decoding it gives, unless a fatal message ends it early, with other tasks registering and picking up between any two frames |
| Connection.Ltx.PollLoop | crates/kirk-com-ltx/src/ltx.rs:537-597 | the frames and the residue are the decoding of all input taken, the buffer stays within its cap, the books replay all events, the loop ends for what the read it did not take brings, and the only fatal message it adds of its own is the one for that, where none stood |
| Connection.ChunkingIsInvisible | crates/kirk-com-ltx/src/ltx.rs:547-596 | however the stream is cut into chunks, the frames delivered and the residue are those of the whole stream |
| Slots.FirstFree | crates/kirk-com-ltx/src/channel.rs:125-136 | the slot chosen is assignable, free, and the least free one; there is none only when all 127 are taken |
| Slots.WithoutIsGone | crates/kirk-com-ltx/src/channel.rs:139-144 | a released slot is out of the pool and the pool stays free of duplicates |
| Slots.SlotPool.ReserveSlot | crates/kirk-com-ltx/src/channel.rs:125-136 | the scan adds exactly the first free slot, or fails and changes nothing |
| Slots.SlotPool.ReleaseSlot | crates/kirk-com-ltx/src/channel.rs:139-144 | removes exactly the given slot, if it is there |
| MultiplexerOwners.CommandBatchShape | crates/kirk-com-ltx/src/channel.rs:186-207 | a command's batch asks, on the command's own slot, for its directory if one is given, each variable in order, and last for the command, as its only EXEC; every request in it is new and packable |
| MultiplexerOwners.CommandRefusedIff | crates/kirk-com-ltx/src/channel.rs:186-207 | a command is refused before anything is sent if and only if its text, its directory, or a variable's name or value is empty |
| MultiplexerBook.ScanKeepsBook | crates/kirk-com-ltx/src/ltx.rs:501-535 | a frame only moves ids from pending to replies, keeps them ascending, and files replies that answer what was issued under the id |
| MultiplexerRuns.EveryRunKeepsInv | crates/kirk-com-ltx/src/ltx.rs:376-467 | the combined invariant of books, owners, wire, slots and pending EXECs holds after every list of actions |
| MultiplexerProperties.WireHoldsBatchesInOrder | crates/kirk-com-ltx/src/ltx.rs:376-430 | while not desynchronised, bytes written plus the unwritten rest of the lock holder's batch are the packings of all registered requests in id order; always, the wire is a prefix of that |
| MultiplexerProperties.BrokenWireIsFrozen | crates/kirk-com-ltx/src/ltx.rs:203-231 | once desynchronised, no byte is ever appended and nothing is ever registered again |
| MultiplexerProperties.PeerReadsRegisteredRequests | crates/kirk-com-ltx/src/ltx.rs:376-430 | a peer reading the wire finds exactly the orders of the registered requests with their arguments, one after the other, as far as their bytes arrived, in every interleaving of writes, failures and cancellations |
| MultiplexerProperties.EveryIdInOnePlace | crates/kirk-com-ltx/src/ltx.rs:397-416 | pending ids ascend; every id below next_id is in exactly one of pending, replies and collected; what is pending or filed belongs to the request issued under that id |
| MultiplexerProperties.EveryAnswerMatches | crates/kirk-com-ltx/src/ltx.rs:438-467 | a successful gather returns one reply per request, in order, each answering the caller's own request registered under the caller's own id |
| MultiplexerProperties.NoUnexpectedReply | crates/kirk-com-ltx/src/channel.rs:219-229 | the last reply of a command is always its EXEC reply and a fetched file's is always the one for its path, so the "unexpected reply" branches are never taken |
| MultiplexerProperties.OneExecPerSlot | crates/kirk-com-ltx/src/channel.rs:364-383 | at no time are two EXEC requests pending on the same slot |
| MultiplexerProperties.CommandsHoldDistinctSlots | crates/kirk-com-ltx/src/channel.rs:125-144 | commands that have not returned hold pairwise distinct assignable slots, all in the pool |
| MultiplexerProperties.EarlyReleaseOnlyAfterFailure | crates/kirk-com-ltx/src/channel.rs:378-382 | a slot is given back before its EXEC is answered only after a fatal message, a desynchronisation or the end of polling |
| MultiplexerProperties.CancelledKeepsItsSlot | crates/kirk-com-ltx/src/channel.rs:364-383 | a cancelled command's slot stays reserved and is never handed to another command |
| MultiplexerOutput.CommandGetsItsOutput | crates/kirk-com-ltx/src/channel.rs:203-232 | in every run the reply a command is handed carries exactly the payloads of the LOG frames received for its slot while its EXEC was pending, in order, and its time, code and status are those of a RESULT frame received for its slot meanwhile |
| MultiplexerOutput.FetchGetsItsFile | crates/kirk-com-ltx/src/request.rs:762-800 | in every run a fetched file is exactly the payloads of the DATA frames received while the request was pending, in order |
| MultiplexerOutput.PendingHoldsItsOutput | crates/kirk-com-ltx/src/request.rs:845-882 | while the connection has not failed, a pending EXEC holds exactly what was logged for its slot so far, within 16 MiB, and has forwarded exactly that if it streams |
| MultiplexerOutput.OutputGoesToOneCommand | crates/kirk-com-ltx/src/ltx.rs:517-534 | in every run the payload of one frame reaches at most one pending EXEC |
| MultiplexerProgress.CommandPrepares | crates/kirk-com-ltx/src/channel.rs:186-207 | a command takes the first free slot and builds on it the batch for what it was given, or fails without one |
| MultiplexerProgress.Registers | crates/kirk-com-ltx/src/ltx.rs:376-416 | a caller that is let in gets the lock and registers its batch under fresh ids |
| MultiplexerProgress.Writes | crates/kirk-com-ltx/src/ltx.rs:418-436 | it writes its batch, gives the lock back and waits for its replies |
| MultiplexerProgress.WriteBreaks | crates/kirk-com-ltx/src/ltx.rs:203-231 | a write that fails, or a writer that is dropped, breaks the connection before the lock is free |
| MultiplexerProgress.PicksUp | crates/kirk-com-ltx/src/ltx.rs:438-467 | once all its replies are there, and not before, a caller takes them |
| MultiplexerProgress.PickUpFails | crates/kirk-com-ltx/src/ltx.rs:438-467 | it fails as soon as there is a fatal message, the connection is out of step or polling has ended |
| MultiplexerProgress.EveryCallerCanReturn | crates/kirk-com-ltx/src/ltx.rs:376-467 | whatever has happened, once polling ends every caller can return and the write lock is free: no deadlock |
| ExecTest.Execute | crates/kirk-scheduler/src/test_sched.rs:563-671 | the code computes the specified outcome, its row is the one that belongs to the target's answers, and its error is exactly the one that comes instead of a row |
| ExecTest.RowMissingIff | crates/kirk-scheduler/src/test_sched.rs:577-650 | exactly which answers leave a test without a row, and that only a panic before the command leaves neither row nor error |
| ExecTest.KernelErrorFollowsIff | crates/kirk-scheduler/src/test_sched.rs:538-561 | with a row, a kernel error follows exactly after a panic, a target that stopped answering, or changed taint flags |
| ExecTest.OutcomeHolds | crates/kirk-scheduler/src/test_sched.rs:563-671 | over the answers alone: the row is the command's own, or has return code -1 with the panic's text or else what was captured; which error comes after it, and which instead of it, with which text |
| ExecTest.KernelErrorWithoutRow | crates/kirk-scheduler/src/test_sched.rs:612-625 | a command that times out and a ping that finds a panic: a kernel error that comes without a row |
| TestSchedulerInv.EveryHistoryKeepsInv | crates/kirk-scheduler/src/test_sched.rs:342-561 | stages, permits, records and stops keep their joint invariant in every interleaving of tests, joins, stops, crashes and dropped schedules |
| TestSchedulerProperties.PermitsAreConserved | crates/kirk-scheduler/src/test_sched.rs:487-547 | for every semaphore, permits available plus permits held by tests and stops are its capacity, through every exit of a test |
| TestSchedulerProperties.ConcurrencyIsBounded | crates/kirk-scheduler/src/test_sched.rs:392-471 | at most max_workers tests are under way in the parallel phase, at most one otherwise, and no sequential test starts before every parallel one is over |
| TestSchedulerProperties.OnlyParallelTestsMeet | crates/kirk-scheduler/src/test_sched.rs:392-410 | in every history two tests are under way together only if there is more than one worker and both are marked parallel |
| TestSchedulerProperties.NonParallelTestRunsAlone | crates/kirk-scheduler/src/test_sched.rs:392-410 | while a test that is not marked parallel holds a permit, no other test of the schedule holds one |
| TestSchedulerProperties.OpensWithParallelTests | crates/kirk-scheduler/src/test_sched.rs:392-424 | a schedule opens by starting exactly the tests marked parallel when there is more than one worker, and none otherwise |
| TestSchedulerProperties.NoTestOutlivesItsSchedule | crates/kirk-scheduler/src/test_sched.rs:373-446 | a schedule returns only when no test of it is alive; each test has at most one result, exactly those that recorded one; an error returned was raised by one of its tests |
| TestSchedulerProperties.ExactlyOneResultEach | crates/kirk-scheduler/src/test_sched.rs:373-536 | a schedule without a stop that returns without error has exactly one result per test, but for tests whose taint check panicked before their command |
| TestSchedulerProperties.FirstErrorIsReported | crates/kirk-scheduler/src/test_sched.rs:427-446 | the first error joined in the parallel phase stays the schedule's error until it returns, whatever is joined later |
| TestSchedulerProperties.OneStopDropsNothing | crates/kirk-scheduler/src/test_sched.rs:513-517 | with at most one stop during a schedule no test's result is dropped as killed |
| TestSchedulerProperties.NoStopNoInterruption | crates/kirk-scheduler/src/test_sched.rs:487-519 | as long as no stop comes, the counter stays zero and no test is skipped or dropped as killed |
| TestSchedulerProperties.StopHoldsUntilScheduleEnds | crates/kirk-scheduler/src/test_sched.rs:342-390 | once a stop is counted during a schedule, the counter stays positive until that schedule ends and no test that had not passed its second look starts |
| TestSchedulerProperties.StopKeepsEffectIff | crates/kirk-scheduler/src/test_sched.rs:342-357 | the counter never falls during a schedule if and only if, at its beginning, no stop is between the schedule lock and the reset |
| TestSchedulerProperties.StopReturnsAfterItsSchedule | crates/kirk-scheduler/src/test_sched.rs:349-357 | a stop gets past the schedule lock only after the schedule it was counted in is over |
| TestSchedulerProperties.AStopCanBeLost | crates/kirk-scheduler/src/test_sched.rs:342-357 | a concrete interleaving in which a waiting stop is forgotten and the test is executed |
| SuiteScheduler.DriveSuite | crates/kirk-scheduler/src/suite_sched.rs:192-268 | the loop computes the specified results, restarts and ending for every script of rounds |
| SuiteScheduler.DriveEnds | crates/kirk-scheduler/src/suite_sched.rs:192-268 | for every script of rounds, the turn the loop ends at, how it ends, how often it has restarted the target, and the results it brings, skipped ones in the suite's order after a timeout |
| SuiteScheduler.RoundKeepsBooks | crates/kirk-scheduler/src/suite_sched.rs:225-250 | results stay distinct tests of the suite, and what is left shrinks by exactly the number of results of the round |
| ScheduleOutcome.SequentialTestsRunInOrder | crates/kirk-scheduler/src/test_sched.rs:448-471 | in every interleaving a sequential test is started only when every parallel test and every earlier sequential one is over with nothing to raise |
| ScheduleOutcome.AnswersComeFromActions | crates/kirk-scheduler/src/test_sched.rs:476-561 | whatever a test has come to rests on answers, verdicts and panics that happened in its own schedule |
| ScheduleOutcome.EveryRecordHoldsItsRow | crates/kirk-scheduler/src/test_sched.rs:501-536 | in every history, stops or none, each record holds the row that belongs to answers the target gave to its test |
| ScheduleOutcome.DroppedIffKilled | crates/kirk-scheduler/src/test_sched.rs:503-536 | a result is dropped silently if and only if the command came back with return code -9 while more than one stop was counted; any other row is handed on to be recorded |
| ScheduleOutcome.RaisesIff | crates/kirk-scheduler/src/test_sched.rs:501-561 | which error a test raises, read off the target's answers and the reading of its row |
| ScheduleOutcome.NothingRecordedIff | crates/kirk-scheduler/src/test_sched.rs:476-561 | an unstopped schedule records nothing if and only if every test it started left nothing: answers without a row, a result that cannot be read, or a panic of its task before the push |
| ScheduleOutcome.TestsEndAsDecided | crates/kirk-scheduler/src/test_sched.rs:392-561 | given what the target will answer to each test, every test of an unstopped schedule ends as those answers say, or is never started, in every interleaving |
| ScheduleOutcome.RecordsAreDecided | crates/kirk-scheduler/src/test_sched.rs:392-536 | such a schedule records exactly the tests that are reached and whose answers leave a readable row, whatever the interleaving |
| ScheduleOutcome.ErrorIsDecided | crates/kirk-scheduler/src/test_sched.rs:392-561 | it returns an error if and only if a reached test raises one, and then one of those |
| ScheduleOutcome.BarrenIff | crates/kirk-scheduler/src/test_sched.rs:476-561 | it records nothing if and only if no reached test's answers leave a readable row |
| SuiteScheduler.RoundShrinksIff | crates/kirk-scheduler/src/suite_sched.rs:240-250 | a legal round makes what is left strictly smaller if and only if it recorded something |
| SuiteScheduler.FillInsComplete | crates/kirk-scheduler/src/suite_sched.rs:252-267 | after a suite timeout the fill-ins complete the results to exactly one per test |
| SuiteScheduler.SuiteCompletes | crates/kirk-scheduler/src/suite_sched.rs:192-268 | with distinct names and productive rounds the loop ends within as many rounds as tests, restarts at most that often, and without a stop or failure ends with exactly one result per test |
| SuiteScheduler.LoopsForever | crates/kirk-scheduler/src/suite_sched.rs:229-250 | rounds that record nothing keep the loop going for any number of turns, restarting after every kernel error |
| SuiteScheduler.DoneNamesStayDone | crates/kirk-scheduler/src/suite_sched.rs:240-267 | once a name has a result, no later result of the loop bears it, fill-ins included |
| SuiteScheduler.RecordedNameIsForgotten | crates/kirk-scheduler/src/suite_sched.rs:240-267 | in every suite with two tests of one name, a round that records only one of them and returns a kernel error makes the loop forget the other for good, however it goes on |
| SuiteScheduler.CompleteIffDistinct | crates/kirk-scheduler/src/suite_sched.rs:192-268 | every well-run loop that ends undisturbed has exactly one result per test if and only if the names of the suite's tests are distinct |
| SuiteScheduler.Schedule | crates/kirk-scheduler/src/suite_sched.rs:126-190 | suites are recorded in order up to the first failure, the failing one included unless its information could not be read |
| ScheduleProgress.CanAlwaysReturn | crates/kirk-scheduler/src/test_sched.rs:392-561 | wherever a schedule without stops has come to, and whatever the target answers from then on, it can go on until it returns: no interleaving is a dead end |
| ScheduleProgress.EveryScheduleCanReturn | crates/kirk-scheduler/src/test_sched.rs:373-390 | for any tests and any answers, every schedule begun with no stop outstanding can run on those answers until it returns |
| StopProgress.EverythingCanEnd | crates/kirk-scheduler/src/test_sched.rs:340-390 | from every state a history reaches, a schedule's tests and any number of stops can all come to their end: no deadlock over permits or the schedule lock |
| SuiteRounds.EveryRoundIsLegal | crates/kirk-scheduler/src/test_sched.rs:373-390 | whatever a schedule recorded, when it returns or is dropped at any moment, is a legal round for the suite loop |
| SuiteRounds.UnstoppedRoundIsProductive | crates/kirk-scheduler/src/test_sched.rs:411-561 | a schedule without a stop is a productive round when no answer in it is a panic before the command or a kernel error instead of a row, and no result fails to be read with a kernel error |
| SuiteRounds.RoundShrinksIffNotBarren | crates/kirk-scheduler/src/suite_sched.rs:225-250 | an unstopped round makes what is left of the suite strictly smaller if and only if, by what the target answers, some reached test leaves a readable row |
| SuiteRounds.RoundShrinksIffSomethingLeft | crates/kirk-scheduler/src/suite_sched.rs:225-250 | the same with panics of tasks: if and only if some test that was started left something |
| SuiteRounds.SuiteOfSchedulesCompletes | crates/kirk-scheduler/src/suite_sched.rs:192-268 | both schedulers together: when every round is some interleaving of a schedule of what is left, without stops and on such answers, or one cut by the suite timeout, the suite ends within as many rounds as tests and, unless it fails, with exactly one result per test |
| SuiteRounds.BarrenScheduleExists | crates/kirk-scheduler/src/test_sched.rs:476-511 | for any tests, any number of workers and any answers that leave no readable row there is a schedule that records nothing and returns what some reached test raises, or no error if and only if none raises |
| SuiteRounds.RowlessTargetLoopsForever | crates/kirk-scheduler/src/suite_sched.rs:229-250 | for any suite and any number of workers, a target that always answers so, raising nothing or a kernel error, keeps the loop going for any number of rounds, each a schedule of the test scheduler |
| SuiteRounds.PanicBeforeCommandIsSwallowed | crates/kirk-scheduler/src/test_sched.rs:577-587 | a panic seen before every command leaves neither results nor error, and the loop schedules the whole suite, whatever it is, again without end |
| SuiteRounds.PanicAtPingRestartsForever | crates/kirk-scheduler/src/test_sched.rs:612-625 | a panic found by the ping after every timeout is raised without a row, and for any suite the target is restarted after every round without end |
| SuiteRounds.DuplicateSchedules | crates/kirk-scheduler/src/suite_sched.rs:240-250 | for any suite with a repeated name and any number of workers there are schedules that record one of two tests of the name, then all that is left, and the loop ends without the other |
| SuiteRounds.SchedulesCompleteIffDistinct | crates/kirk-scheduler/src/suite_sched.rs:192-268 | when every round is a schedule of the test scheduler, on any answers, each loop that ends undisturbed has exactly one result per test if and only if the names of the suite's tests are distinct |
| SuiteStops.EveryHistoryIsJoint | crates/kirk-scheduler/src/suite_sched.rs:103-154 | in every interleaving of suite stops, restarts and rounds, each unfinished stop of the test scheduler has its caller waiting for it, and a schedule runs only during a round |
| SuiteStops.FlagKeepsEffectIff | crates/kirk-scheduler/src/suite_sched.rs:103-111 | a suite stop's flag stays up until the suite schedule ends if and only if, when that schedule starts, no earlier stop stands between its lock and the reset of the flag |
| SuiteStops.RaisedFlagEndsTheLoop | crates/kirk-scheduler/src/suite_sched.rs:192-196 | once the flag is up so, no further round begins until the suite schedule ends |
| SuiteStops.EveryFlagIsHeld | crates/kirk-scheduler/src/suite_sched.rs:103-111 | the flag is never left behind: while it is up, some stop is under way |
| SuiteStops.CutRoundIsSeen | crates/kirk-scheduler/src/suite_sched.rs:192-196 | in a suite schedule started with no stop under way, a round during which the test scheduler counts a stop finds the flag up, and no further round begins |
| SuiteStops.ASuiteStopCanBeLost | crates/kirk-scheduler/src/suite_sched.rs:103-111 | a run in which a stop raised while an earlier one is about to reset the flag is still under way, the flag down, when the loop begins a round |
| SuiteHistory.EveryHistoryFollows | crates/kirk-scheduler/src/suite_sched.rs:126-268 | in every interleaving of rounds, stops, restarts and timeouts, on any answers, a suite that is over has come to what the loop's specification says of its turns, and undisturbed and with distinct names to exactly one result per test |
| SuiteCompletion.EveryScheduleIsWellRun | crates/kirk-scheduler/src/suite_sched.rs:192-268 | in every suite schedule begun with no stop under way, on tame answers, with stops raised at any moment, the turns are well-run, the rounds and restarts are never more than the suite's distinctly named tests, and undisturbed there is exactly one result per test |
| SuiteCompletion.EveryRoundIsExcused | crates/kirk-scheduler/src/suite_sched.rs:192-236 | in such a schedule every round that comes back is legal and made progress, or came back without an error while the flag is up |
| SuiteProgress.EverythingCanEnd | crates/kirk-scheduler/src/suite_sched.rs:103-268 | whatever has happened, the suite schedule, its rounds and restarts and the stops of both schedulers can all come to their end, with the flag down: no deadlock |
| TextSearch.Find | crates/kirk-com-qemu/src/expect.rs:95-98 | the position found is the first occurrence; none is found only if there is none |
| Expect.ExpectState.WaitForMessage | crates/kirk-com-qemu/src/expect.rs:76-151 | the loop ends as specified, with exactly the specified pending text, for every script of chunks, timeouts, failures and aborts, the wait being dropped included |
| Expect.NothingReadIsLost | crates/kirk-com-qemu/src/expect.rs:85-151 | what becomes of every character read, for each way a wait can end; beyond the cap exactly one chunk, the last, is lost |
| Expect.WaitEndsIff | crates/kirk-com-qemu/src/expect.rs:85-151 | for each end a wait can come to, the exact condition over the text so far and the turns: the first turn at which it is aborted, the message is there, else the marker, the deadline has passed, or the read cannot be taken |
| Expect.ExcerptIsTheEnd | crates/kirk-com-qemu/src/expect.rs:107-111 | the excerpt in the panic message is the shortest end of the text that has at least 4096 bytes and splits no character |
| Expect.ChunkingIsInvisible | crates/kirk-com-qemu/src/expect.rs:95-98 | a wait that ends in a match consumes the input's shortest prefix ending in the message and leaves pending plus unread the rest, however the input was chunked |
| Expect.TwoChunkingsAgree | crates/kirk-com-qemu/src/expect.rs:85-151 | two chunkings of one input that end in a match leave the same input ahead |
| Expect.TalkConservesInput | crates/kirk-com-qemu/src/expect.rs:85-98 | over any number of matching waits, the pieces consumed and what is pending are exactly what came in, in order |
| PanicScan.OutputCollector.Push | crates/kirk-com-ssh/src/config.rs:272-289 | after every chunk the flag says whether the marker is anywhere in the whole buffer |
| PanicScan.TailSearchSuffices | crates/kirk-com-ssh/src/config.rs:276-288 | searching from a start rounded up over the inside of a character finds the marker whenever the whole text has it |
| PanicScan.TailContainsPanic | crates/kirk-com-shell/src/lib.rs:239-245 | the tail search, rounded down to a boundary, misses no marker that the text before the last read did not have |
| PanicScan.StreamOutput | crates/kirk-com-shell/src/lib.rs:457-491 | the output is the text of the reads before the 8 MiB cap, and the panic flag is set exactly when that output contains the marker |
| PanicScan.KeptIsWholePrefix | crates/kirk-com-shell/src/lib.rs:457-479 | what is kept are the reads before the first that brings the raw total over 8 MiB, whole and in order |
| Reply.FindMarker | crates/kirk-com-qemu/src/expect.rs:166-171 | the marker found is the leftmost; none is found only if there is none |
| Reply.ReplyReadBackIff | crates/kirk-com-qemu/src/expect.rs:162-181 | a guest's reply parses to exactly its output and return code if and only if no marker starts inside the output |
| Reply.LinesAreUnambiguousIff | crates/kirk-com-qemu/src/expect.rs:162-181 | for output ending in a newline the condition is that the output itself contains no marker |
| Reply.ParsesTo | crates/kirk-com-qemu/src/expect.rs:156-181 | for every text: blank ones stand for no command and return code -1, without a marker or with a number of more than 32 bits it is refused, else the number and what stands before the marker come back |
| Reply.DigitsRunTogether | crates/kirk-com-qemu/src/expect.rs:162-181 | output "5" with return code 0 is read back as no output and 50, whatever the code and the tail |
| Quoting.SplitArgv | crates/kirk-com-ssh/src/config.rs:309-353 | the loop computes the word splitting, for all texts |
| Quoting.SplitOptions | crates/kirk-com-qemu/src/expect.rs:219-270 | likewise, with its own treatment of a final backslash |
| Quoting.QuotedWordsSplitBack | crates/kirk-com-ssh/src/config.rs:175-177 | quoting any words and splitting the result gives them back, in both splitters; the two quoting functions are equal |
| Quoting.SplittersDifferOnlyAtTheEnd | crates/kirk-com-ssh/src/config.rs:329-333 | the two splitters agree on every text that does not end in a backslash |
| WordForms.WrittenWordsSplitBack | crates/kirk-com-ssh/src/config.rs:309-353 | however words are written, with bare, escaped, single-quoted and double-quoted pieces and any white space around them, both splitters give back what they mean |
| WordForms.OpenQuoteIsRefused | crates/kirk-com-ssh/src/config.rs:345-349 | a quote that is never closed is refused |
| WordForms.FinalBackslash | crates/kirk-com-ssh/src/config.rs:329-333 | a final backslash is dropped by one splitter and taken for a word by the other |
| NameOrder.ListedOneWay | crates/kirk-com-ssh/src/config.rs:212-213 | a set of names is listed in order in only one way |
| NameOrder.Sort | crates/kirk-com-ssh/src/config.rs:212-213 | lists every name of the set once, in order |
| Quoting.BuildRemoteCommand | crates/kirk-com-ssh/src/config.rs:199-232 | the string built is the specified command for the variables in name order, or the first invalid name in that order is reported |
| Quoting.ValidNameIff | crates/kirk-com-qemu/src/expect.rs:198-212 | which names may be exported, by their characters' codes |
| Quoting.SudoFormCarriesScript | crates/kirk-com-ssh/src/config.rs:228-231 | splitting the sudo form gives sudo, the shell, -c and the whole plain form as one word |
| Quoting.NothingEscapesItsQuotes | crates/kirk-com-ssh/src/config.rs:205-227 | whatever the directory and the values contain, each stays one word and the command's own words follow unchanged |
| ShellLifecycle.LifecycleState.TryRegister | crates/kirk-com-shell/src/lib.rs:78-85 | a pid is tracked exactly when the channel is active, and an inactive channel tracks none |
| ShellLifecycle.LifecycleState.Unregister | crates/kirk-com-shell/src/lib.rs:87-89 | removes exactly that pid |
| ShellLifecycle.LifecycleState.Deactivate | crates/kirk-com-shell/src/lib.rs:327-335 | hands over all tracked pids and leaves none, in one step with going inactive |
| ShellLifecycle.InactiveTracksNothing | crates/kirk-com-shell/src/lib.rs:327-351 | in every interleaving an inactive channel tracks no pid |
| ShellLifecycle.EveryRunningChildIsObliged | crates/kirk-com-shell/src/lib.rs:97-131 | in every interleaving each running, unsignalled child is owned by a command that will register or kill it, or tracked with an armed guard and in the pid list or on a stop's kill list |
| ShellLifecycle.NoChildSurvivesItsCommand | crates/kirk-com-shell/src/lib.rs:440-498 | when no command is under way, no child runs unsignalled |
| ShellLifecycle.EveryLifeEndsClean | crates/kirk-com-shell/src/lib.rs:397-482 | all lives of a command on an active channel, step by step: its child is gone or signalled and tracked no more, and nothing else has changed |
| ShellLifecycle.StopSignalsItsList | crates/kirk-com-shell/src/lib.rs:336-338 | a stop signals every child on its list that still runs, and nobody else |
| ShellLifecycle.StopLeavesNoTrackedChild | crates/kirk-com-shell/src/lib.rs:327-351 | once the channel is inactive and the stops are done killing, only children whose own command kills them next can still run |
| Session.AppendExecuted | crates/kirk-session/src/session.rs:476-498 | appends one line per recorded result, in order, and changes nothing else |
| Session.LineReadBackIff | crates/kirk-session/src/session.rs:303-311 | a line is read back as its pair if and only if the pair is recoverable |
| Session.ColonsMoveTheSplit | crates/kirk-session/src/session.rs:303-311 | suite "a::b" with test "t" is read back as suite "a" with test "b::t" |
| Session.ReadRestoredSession | crates/kirk-session/src/session.rs:296-315 | the map built holds under each suite exactly the tests read for it, in order |
| Session.ExecutedReadBackIff | crates/kirk-session/src/session.rs:273-315 | the file of a run reads back as exactly the recorded pairs if and only if every pair is recoverable |
| Session.NotYetKeepsOrder | crates/kirk-session/src/session.rs:374-384 | the remaining tests keep their order and none that should remain is missing |
| Session.RestoreTests | crates/kirk-session/src/session.rs:359-387 | every suite in the slice is rewritten in place to what remains of it |
| Session.RestoreComplementsExecution | crates/kirk-session/src/session.rs:359-387 | each test of a suite is either recorded under the suite's name or remains, never both |
| Session.RestoreTakesNothingIff | crates/kirk-session/src/session.rs:359-387 | restoring takes nothing from a suite if and only if none of its tests is recorded under its name |
| Session.ApplyIterate | crates/kirk-session/src/session.rs:255-270 | the suites unchanged for at most one iteration, otherwise renamed, iteration by iteration |
| Session.ExecutedAre | crates/kirk-session/src/session.rs:255-270 | up to one iteration the suites themselves; beyond, each as often as asked, in its turn, with its own tests and the number of the iteration in brackets behind its name |
| Session.IterationDefeatsRestore | crates/kirk-session/src/session.rs:255-270 | restoring from a run with more than one iteration takes nothing from a suite whose name does not end in a bracket |
| Session.IteratedNameCanCollide | crates/kirk-session/src/session.rs:255-270 | a suite that bears an iterated name of another does lose the test the other one ran |

## Left out

- Real FIFOs, serial lines, ssh and processes: reads, writes, exits, timeouts and cancellations are inputs or actions.
- Reconnecting: the multiplexer covers one connection from `connect` to `disconnect`; the drain loop and the disconnect in the channel's `stop` end it, and the VERSION exchange of `communicate`, before any caller can see the connection, is not a caller.
- `record_fatal` finding the state locked is an input, so an ERROR frame is not claimed to become fatal.
- Matching of PING, ENV, VERSION and GET_FILE echoes to individual requests: one frame may answer several, as in the code.
- Arguments longer than the four-byte length of the format: registering needs `Serializable` requests. Float fields are kept as their raw bytes, and `check_target_path` beyond the empty path is not modelled, so more callers enter than in the code.
- The test scheduler, the callers of the connection and the shell's commands are step systems over values, because their interleavings are the point; update in place is modelled for the LTX connection, its requests, the slot pool, the expect state, the panic collector, the shell's locked state and the suites slice.
- A task that panics is modelled in the parallel phase only.
- Task abort is one step: a dropped schedule's tasks are gone, and their permits back, at once.
- Fairness of locks, semaphores and tasks: that schedules, stops and callers can always go on until they return is proved (`ScheduleProgress.CanAlwaysReturn`, `StopProgress.EverythingCanEnd`, `SuiteProgress.EverythingCanEnd`, `MultiplexerProgress.EveryCallerCanReturn`), that a runtime does go on is not.
- Taking the schedule lock and clearing the old results are one step with the start of a schedule, so a suite timeout cannot fall between them.
- `read_result` is assumed to return a result for the test it was given; parsing of test output is not modelled.
- Dropping a suite schedule or a `stop` half-way, and the two stopped flags as read from outside.
- Wall-clock values: execution times and suite times are not recorded; the suite timeout is one way a round can end.
- The expect loop and the panic scanners work on UTF-8 bytes, without requiring well-formed text; quoting, replies and the session work on characters.
- Unicode digits other than ASCII are a parameter of the reply parser; any class that holds the ASCII digits and neither dash nor newline will do.
- Write errors while appending to the `executed` file, and path resolution before reading it.
- `filter_tests`, `force_parallel`, runtime repetition, shuffling, event delivery, kmsg annotations, the monitor, reports and the command line.
- Signals sent to a reused pid: pids are never reused.
