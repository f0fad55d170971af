/**
  The test scheduler as a step system: the tests of one schedule, its parallel and its sequential
  phase, any number of `stop` calls, and a schedule dropped by the suite timeout, in every interleaving.
 */
module TestScheduler {
  import opened Results
  import opened ExecTest

  datatype Test = Test(name: string, parallel: bool)

  /** A recorded result: which test of the schedule it belongs to, and what was recorded. */
  datatype Record = Record(job: nat, test: Test, row: Row)

  /** Why a test is over, with the answers of the target it is over because of. */
  datatype Ending =
    | Skipped                                         // a stop was seen before the command
    | Killed(answers: Answers)                        // killed by a forced stop
    | NoRow(answers: Answers)                         // the command left nothing to record
    | Unparsed(answers: Answers, error: KirkError)    // the framework could not read the result
    | Recorded(answers: Answers)
    | Crashed(recorded: bool)                         // the task panicked

  /** Where a test stands. */
  datatype Job =
    | Unspawned
    | Spawned
    | Queued                                          // no stop seen, waits for a permit
    | Permitted                                       // has a permit, second look at the counter to come
    | Executing
    | Judged(answers: Answers)                        // the command is over
    | Parsed(answers: Answers, row: Row)
    | Pushed(answers: Answers)                        // result recorded, permit still held
    | Finished(why: Ending)

  datatype Stage =
    | Starting
    | Parallel(sem: nat, joined: set<nat>, first: Option<KirkError>)
    | Between
    | Sequential(sem: nat, current: Option<nat>)
    | Ended(error: Option<KirkError>)

  /** The schedule holding the schedule lock. */
  datatype Run = Run(tests: seq<Test>, jobs: seq<Job>, stage: Stage)

  datatype Semaphore = Semaphore(capacity: nat, available: nat)

  datatype StopPhase =
    | Forcing                                 // not the first stop: takes the target down
    | Reading
    | Waiting(sem: nat)
    | Holding(sem: nat)
    | Locking                                 // waits for the schedule lock
    | Resetting                               // was let through, counter not reset yet
    | Flagging
    | Done

  /** `since`: the number of schedules begun when the stop was counted. */
  datatype Stop = Stop(phase: StopPhase, since: nat)

  datatype Scheduler = Scheduler(
    workers: nat, stopCount: nat, stopped: bool, records: seq<Record>,
    sems: seq<Semaphore>, running: nat, run: Option<Run>, epoch: nat, stops: seq<Stop>,
    returned: Option<Option<KirkError>>)

  /** What the framework makes of a row. */
  datatype Verdict = Readable | Unreadable(error: KirkError)

  datatype JobAction =
    | FirstLook
    | Acquire
    | SecondLook
    | Conclude(answers: Answers)
    | Judge(verdict: Verdict)
    | Push
    | Leave
    | Crash

  datatype StopAction = Force | ReadSem | AcquireSem | LetGo | Pass | Reset | RaiseFlag

  datatype Action =
    | Begin(tests: seq<Test>)
    | OpenParallel
    | Join(i: nat)
    | CloseParallel
    | OpenSequential
    | StartNext(i: nat)
    | Advance
    | End
    | Drop
    | OfTest(i: nat, act: JobAction)
    | CountStop
    | OfStop(k: nat, step: StopAction)

  // ---------------------------------------------------------------- helpers

  function Init(maxWorkers: nat): Scheduler {
    Scheduler(if maxWorkers < 1 then 1 else maxWorkers, 0, false, [], [Semaphore(1, 1)], 0, None, 0, [], None)
  }

  /** Which tests of a schedule run in the parallel phase. */
  predicate InParallel(s: Scheduler, test: Test) {
    RunsInParallel(s.workers, test)
  }

  predicate RunsInParallel(workers: nat, test: Test) {
    workers > 1 && test.parallel
  }

  predicate AnyParallel(s: Scheduler, tests: seq<Test>) {
    exists i :: 0 <= i < |tests| && InParallel(s, tests[i])
  }

  predicate AnySequential(s: Scheduler, tests: seq<Test>) {
    exists i :: 0 <= i < |tests| && !InParallel(s, tests[i])
  }

  predicate HoldsPermit(j: Job) {
    j.Permitted? || j.Executing? || j.Judged? || j.Parsed? || j.Pushed?
  }

  function StageSem(g: Stage): Option<nat> {
    match g
    case Parallel(sem, _, _) => Some(sem)
    case Sequential(sem, _) => Some(sem)
    case _ => None
  }

  /** The error a test that is over returns to its schedule. */
  function ErrorOf(why: Ending): Option<KirkError> {
    match why
    case NoRow(answers) => Outcome(answers).fatal
    case Unparsed(_, error) => Some(error)
    case Recorded(answers) => RaisedAfterRecord(Outcome(answers))
    case Crashed(_) => Some(SchedulerError("test task failed"))
    case _ => None
  }

  predicate JobAt(s: Scheduler, i: nat) {
    s.run.Some? && i < |s.run.value.jobs|
  }

  function SetJob(s: Scheduler, i: nat, j: Job): Scheduler
    requires JobAt(s, i)
  {
    s.(run := Some(s.run.value.(jobs := s.run.value.jobs[i := j])))
  }

  function SetStage(s: Scheduler, g: Stage): Scheduler
    requires s.run.Some?
  {
    s.(run := Some(s.run.value.(stage := g)))
  }

  function Take(sems: seq<Semaphore>, sem: nat): seq<Semaphore>
    requires sem < |sems| && sems[sem].available > 0
  {
    sems[sem := sems[sem].(available := sems[sem].available - 1)]
  }

  function Give(sems: seq<Semaphore>, sem: nat, permits: nat): seq<Semaphore>
    requires sem < |sems|
  {
    sems[sem := sems[sem].(available := sems[sem].available + permits)]
  }

  /** The number of tests holding a permit. */
  function Held(jobs: seq<Job>): nat {
    if jobs == [] then 0
    else Held(jobs[..|jobs| - 1]) + (if HoldsPermit(jobs[|jobs| - 1]) then 1 else 0)
  }

  /** The test is over and its permit, if it has one, is back. */
  function Finish(s: Scheduler, i: nat, why: Ending): Scheduler
    requires JobAt(s, i) && StageSem(s.run.value.stage).Some? && StageSem(s.run.value.stage).value < |s.sems|
  {
    var r := SetJob(s, i, Finished(why));
    if HoldsPermit(s.run.value.jobs[i])
    then r.(sems := Give(s.sems, StageSem(s.run.value.stage).value, 1))
    else r
  }

  predicate CanFinish(s: Scheduler, i: nat) {
    JobAt(s, i) && StageSem(s.run.value.stage).Some? && StageSem(s.run.value.stage).value < |s.sems|
  }

  // ---------------------------------------------------------------- a schedule

  function StepBegin(s: Scheduler, tests: seq<Test>): Scheduler {
    if s.run.None? && tests != []
    then s.(records := [], epoch := s.epoch + 1,
            run := Some(Run(tests, seq(|tests|, i => Unspawned), Starting)))
    else s
  }

  /** A fresh semaphore for the phase; every parallelizable test is spawned at once. */
  function StepOpenParallel(s: Scheduler): Scheduler
    requires s.run.Some? && s.run.value.stage.Starting?
  {
    var run := s.run.value;
    if !AnyParallel(s, run.tests) || |run.tests| != |run.jobs| then SetStage(s, Between)
    else
      s.(sems := s.sems + [Semaphore(s.workers, s.workers)], running := |s.sems|,
         run := Some(Run(run.tests,
                         seq(|run.jobs|, i requires 0 <= i < |run.jobs| =>
                           if InParallel(s, run.tests[i]) then Spawned else run.jobs[i]),
                         Parallel(|s.sems|, {}, None))))
  }

  /** One finished task is joined; the first error joined is the one that counts. */
  function StepJoin(s: Scheduler, i: nat): Scheduler
    requires JobAt(s, i) && s.run.value.stage.Parallel? && s.run.value.jobs[i].Finished?
  {
    var g := s.run.value.stage;
    if i in g.joined then s
    else SetStage(s, g.(joined := g.joined + {i},
                        first := if g.first.None? then ErrorOf(s.run.value.jobs[i].why) else g.first))
  }

  /** Every spawned task has been joined. */
  predicate AllJoined(s: Scheduler)
    requires s.run.Some? && s.run.value.stage.Parallel?
  {
    forall i :: 0 <= i < |s.run.value.tests| && InParallel(s, s.run.value.tests[i]) ==> i in s.run.value.stage.joined
  }

  function StepCloseParallel(s: Scheduler): Scheduler
    requires s.run.Some? && s.run.value.stage.Parallel? && AllJoined(s)
  {
    var g := s.run.value.stage;
    SetStage(s, if g.first.Some? then Ended(g.first) else Between)
  }

  function StepOpenSequential(s: Scheduler): Scheduler
    requires s.run.Some? && s.run.value.stage.Between?
  {
    if !AnySequential(s, s.run.value.tests) then SetStage(s, Ended(None))
    else SetStage(s.(sems := s.sems + [Semaphore(1, 1)], running := |s.sems|), Sequential(|s.sems|, None))
  }

  /** The next sequential test is the first one not started yet. */
  predicate IsNext(s: Scheduler, i: nat)
    requires JobAt(s, i)
  {
    && i < |s.run.value.tests| && !InParallel(s, s.run.value.tests[i]) && s.run.value.jobs[i].Unspawned?
    && forall j :: 0 <= j < i && j < |s.run.value.tests| && !InParallel(s, s.run.value.tests[j]) ==>
         !s.run.value.jobs[j].Unspawned?
  }

  function StepStartNext(s: Scheduler, i: nat): Scheduler
    requires JobAt(s, i) && s.run.value.stage.Sequential? && s.run.value.stage.current.None? && IsNext(s, i)
  {
    SetStage(SetJob(s, i, Spawned), s.run.value.stage.(current := Some(i)))
  }

  predicate NoneUnspawned(s: Scheduler)
    requires s.run.Some?
  {
    forall i :: 0 <= i < |s.run.value.jobs| ==> !s.run.value.jobs[i].Unspawned?
  }

  /** The current test returned: an error ends the phase, otherwise the next test's turn comes. */
  function StepAdvance(s: Scheduler): Scheduler
    requires s.run.Some? && s.run.value.stage.Sequential?
  {
    var run := s.run.value;
    match run.stage.current
    case Some(i) =>
      if i < |run.jobs| && run.jobs[i].Finished? then
        var e := ErrorOf(run.jobs[i].why);
        SetStage(s, if e.Some? then Ended(e) else run.stage.(current := None))
      else s
    case None => if NoneUnspawned(s) then SetStage(s, Ended(None)) else s
  }

  /** The schedule returns and the lock is free; an error is swallowed when a stop was requested. */
  function StepEnd(s: Scheduler): Scheduler
    requires s.run.Some? && s.run.value.stage.Ended?
  {
    var e := s.run.value.stage.error;
    s.(run := None, returned := Some(if s.stopCount == 0 then e else None))
  }

  /** The schedule is dropped: its tasks are gone, their permits are back, its results stay. */
  function StepDrop(s: Scheduler): Scheduler
    requires s.run.Some?
  {
    match StageSem(s.run.value.stage)
    case Some(sem) =>
      if sem < |s.sems| then s.(run := None, sems := Give(s.sems, sem, Held(s.run.value.jobs))) else s
    case None => s.(run := None)
  }

  // ---------------------------------------------------------------- one test

  function StepFirstLook(s: Scheduler, i: nat): Scheduler
    requires CanFinish(s, i) && s.run.value.jobs[i].Spawned?
  {
    if s.stopCount > 0 then Finish(s, i, Skipped) else SetJob(s, i, Queued)
  }

  function StepAcquire(s: Scheduler, i: nat): Scheduler
    requires CanFinish(s, i) && s.run.value.jobs[i].Queued?
  {
    var sem := StageSem(s.run.value.stage).value;
    if s.sems[sem].available > 0 then SetJob(s.(sems := Take(s.sems, sem)), i, Permitted) else s
  }

  function StepSecondLook(s: Scheduler, i: nat): Scheduler
    requires CanFinish(s, i) && s.run.value.jobs[i].Permitted?
  {
    if s.stopCount > 0 then Finish(s, i, Skipped) else SetJob(s, i, Executing)
  }

  function StepConclude(s: Scheduler, i: nat, answers: Answers): Scheduler
    requires CanFinish(s, i) && s.run.value.jobs[i].Executing?
  {
    SetJob(s, i, Judged(answers))
  }

  /** A row killed by a forced stop is dropped; any other is handed to the framework. */
  function StepJudge(s: Scheduler, i: nat, verdict: Verdict): Scheduler
    requires CanFinish(s, i) && s.run.value.jobs[i].Judged?
  {
    var answers := s.run.value.jobs[i].answers;
    var row := Outcome(answers).row;
    if row.None? then Finish(s, i, NoRow(answers))
    else if row.value.returncode == KILLED_RETURNCODE && s.stopCount > 1 then Finish(s, i, Killed(answers))
    else if verdict.Unreadable? then Finish(s, i, Unparsed(answers, verdict.error))
    else SetJob(s, i, Parsed(answers, row.value))
  }

  function StepPush(s: Scheduler, i: nat): Scheduler
    requires CanFinish(s, i) && i < |s.run.value.tests| && s.run.value.jobs[i].Parsed?
  {
    var job := s.run.value.jobs[i];
    SetJob(s.(records := s.records + [Record(i, s.run.value.tests[i], job.row)]), i, Pushed(job.answers))
  }

  function StepLeave(s: Scheduler, i: nat): Scheduler
    requires CanFinish(s, i) && s.run.value.jobs[i].Pushed?
  {
    Finish(s, i, Recorded(s.run.value.jobs[i].answers))
  }

  /** A task of the parallel phase panics. */
  function StepCrash(s: Scheduler, i: nat): Scheduler
    requires CanFinish(s, i)
  {
    var job := s.run.value.jobs[i];
    if s.run.value.stage.Parallel? && !job.Unspawned? && !job.Finished?
    then Finish(s, i, Crashed(job.Pushed?)) else s
  }

  // ---------------------------------------------------------------- stopping

  function StepCountStop(s: Scheduler): Scheduler {
    s.(stopCount := s.stopCount + 1,
       stops := s.stops + [Stop(if s.stopCount + 1 > 1 then Forcing else Reading, s.epoch)])
  }

  function MoveStop(s: Scheduler, k: nat, phase: StopPhase): Scheduler
    requires k < |s.stops|
  {
    s.(stops := s.stops[k := s.stops[k].(phase := phase)])
  }

  function StepStop(s: Scheduler, k: nat, step: StopAction): Scheduler
    requires k < |s.stops|
  {
    match (step, s.stops[k].phase)
    case (Force, Forcing) => MoveStop(s, k, Reading)
    case (ReadSem, Reading) => MoveStop(s, k, Waiting(s.running))
    case (AcquireSem, Waiting(sem)) =>
      if sem < |s.sems| && s.sems[sem].available > 0
      then MoveStop(s.(sems := Take(s.sems, sem)), k, Holding(sem)) else s
    case (LetGo, Holding(sem)) =>
      if sem < |s.sems| then MoveStop(s.(sems := Give(s.sems, sem, 1)), k, Locking) else s
    case (Pass, Locking) => if s.run.None? then MoveStop(s, k, Resetting) else s
    case (Reset, Resetting) => MoveStop(s.(stopCount := 0), k, Flagging)
    case (RaiseFlag, Flagging) => MoveStop(s.(stopped := true), k, Done)
    case _ => s
  }

  // ---------------------------------------------------------------- runs

  function StepJob(s: Scheduler, i: nat, act: JobAction): Scheduler
    requires CanFinish(s, i)
  {
    match (act, s.run.value.jobs[i])
    case (FirstLook, Spawned) => StepFirstLook(s, i)
    case (Acquire, Queued) => StepAcquire(s, i)
    case (SecondLook, Permitted) => StepSecondLook(s, i)
    case (Conclude(answers), Executing) => StepConclude(s, i, answers)
    case (Judge(verdict), Judged(_)) => StepJudge(s, i, verdict)
    case (Push, Parsed(_, _)) => if i < |s.run.value.tests| then StepPush(s, i) else s
    case (Leave, Pushed(_)) => StepLeave(s, i)
    case (Crash, _) => StepCrash(s, i)
    case _ => s
  }

  function StepSchedule(s: Scheduler, a: Action): Scheduler
    requires s.run.Some?
  {
    var g := s.run.value.stage;
    match a
    case OpenParallel => if g.Starting? then StepOpenParallel(s) else s
    case Join(i) => if g.Parallel? && JobAt(s, i) && s.run.value.jobs[i].Finished? then StepJoin(s, i) else s
    case CloseParallel => if g.Parallel? && AllJoined(s) then StepCloseParallel(s) else s
    case OpenSequential => if g.Between? then StepOpenSequential(s) else s
    case StartNext(i) =>
      if g.Sequential? && g.current.None? && JobAt(s, i) && IsNext(s, i) then StepStartNext(s, i) else s
    case Advance => if g.Sequential? then StepAdvance(s) else s
    case End => if g.Ended? then StepEnd(s) else s
    case Drop => StepDrop(s)
    case _ => s
  }

  /** An action that is not enabled changes nothing. */
  function Step(s: Scheduler, a: Action): Scheduler {
    match a
    case Begin(tests) => StepBegin(s, tests)
    case OfTest(i, act) => if CanFinish(s, i) then StepJob(s, i, act) else s
    case CountStop => StepCountStop(s)
    case OfStop(k, step) => if k < |s.stops| then StepStop(s, k, step) else s
    case _ => if s.run.Some? then StepSchedule(s, a) else s
  }

  function RunFrom(s: Scheduler, actions: seq<Action>): Scheduler
    decreases |actions|
  {
    if actions == [] then s else Step(RunFrom(s, actions[..|actions| - 1]), actions[|actions| - 1])
  }

  /** Every reachable state of a scheduler with that many workers is one of these. */
  function History(maxWorkers: nat, actions: seq<Action>): Scheduler {
    RunFrom(Init(maxWorkers), actions)
  }
}
