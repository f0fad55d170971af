/** What every reachable state of the test scheduler keeps. */
module TestSchedulerInv {
  import opened Results
  import opened ExecTest
  import opened TestScheduler

  // ---------------------------------------------------------------- stages and tests

  /** Over, with nothing to raise. */
  predicate Clear(j: Job) {
    j.Finished? && ErrorOf(j.why).None?
  }

  /** Where test `i` may stand in each stage. */
  predicate JobFits(g: Stage, parallel: bool, i: nat, j: Job) {
    match g
    case Starting => j.Unspawned?
    case Parallel(_, joined, first) =>
      if parallel then !j.Unspawned? && (i in joined ==> j.Finished? && (first.None? ==> Clear(j)))
      else j.Unspawned? && i !in joined
    case Between => if parallel then Clear(j) else j.Unspawned?
    case Sequential(_, current) =>
      if parallel then Clear(j)
      else if current == Some(i) then !j.Unspawned?
      else j.Unspawned? || Clear(j)
    case Ended(error) => if error.None? then Clear(j) else j.Finished? || (!parallel && j.Unspawned?)
  }

  /** What a test has come to agrees with what the target answered to it. */
  predicate Sound(j: Job) {
    match j
    case Parsed(answers, row) => Outcome(answers).row == Some(row)
    case Pushed(answers) => Outcome(answers).row.Some?
    case Finished(Killed(answers)) => Outcome(answers).row.Some?
    case Finished(NoRow(answers)) => Outcome(answers).row.None?
    case Finished(Unparsed(answers, _)) => Outcome(answers).row.Some?
    case Finished(Recorded(answers)) => Outcome(answers).row.Some?
    case _ => true
  }

  predicate RaisedBy(j: Job, e: KirkError) {
    j.Finished? && ErrorOf(j.why) == Some(e)
  }

  /** The error a stage carries was raised by one of its tests. */
  ghost predicate HasSource(g: Stage, jobs: seq<Job>) {
    match g
    case Parallel(_, _, Some(e)) => exists i :: 0 <= i < |jobs| && RaisedBy(jobs[i], e)
    case Ended(Some(e)) => exists i :: 0 <= i < |jobs| && RaisedBy(jobs[i], e)
    case _ => true
  }

  ghost predicate ShapeInv(s: Scheduler) {
    s.workers >= 1 &&
    (s.run.Some? ==>
      var run := s.run.value;
      && |run.jobs| == |run.tests|
      && (forall i :: 0 <= i < |run.jobs| ==> JobFits(run.stage, InParallel(s, run.tests[i]), i, run.jobs[i]))
      && (forall i :: 0 <= i < |run.jobs| ==> Sound(run.jobs[i]))
      && HasSource(run.stage, run.jobs)
      && (run.stage.Sequential? && run.stage.current.Some? ==>
            run.stage.current.value < |run.jobs| && !InParallel(s, run.tests[run.stage.current.value])))
  }

  // ---------------------------------------------------------------- permits

  predicate StopHolds(stop: Stop, sem: nat) {
    stop.phase == Holding(sem)
  }

  /** The number of stops holding a permit of semaphore `sem`. */
  function StopsHolding(stops: seq<Stop>, sem: nat): nat {
    if stops == [] then 0
    else StopsHolding(stops[..|stops| - 1], sem) + (if StopHolds(stops[|stops| - 1], sem) then 1 else 0)
  }

  /** The number of tests holding a permit of semaphore `sem`. */
  function TestsHolding(run: Option<Run>, sem: nat): nat {
    if run.Some? && StageSem(run.value.stage) == Some(sem) then Held(run.value.jobs) else 0
  }

  predicate Balanced(s: Scheduler, sem: nat)
    requires sem < |s.sems|
  {
    s.sems[sem].available + TestsHolding(s.run, sem) + StopsHolding(s.stops, sem) == s.sems[sem].capacity
  }

  /** Permits held and permits available always add up to the capacity. */
  ghost predicate PermitInv(s: Scheduler) {
    && (forall sem :: 0 <= sem < |s.sems| ==> Balanced(s, sem))
    && (forall sem :: 0 <= sem < |s.sems| ==> s.sems[sem].capacity >= 1)
    && s.running < |s.sems|
    && (forall k :: 0 <= k < |s.stops| ==>
          (match s.stops[k].phase
           case Waiting(sem) => sem < |s.sems|
           case Holding(sem) => sem < |s.sems|
           case _ => true))
    && (s.run.Some? ==>
          (match s.run.value.stage
           case Parallel(sem, _, _) => sem < |s.sems| && s.sems[sem].capacity == s.workers
           case Sequential(sem, _) => sem < |s.sems| && s.sems[sem].capacity == 1
           case _ => true))
  }

  // ---------------------------------------------------------------- records

  predicate HasRecord(j: Job) {
    j.Pushed? || (j.Finished? && (j.why.Recorded? || j.why == Crashed(true)))
  }

  predicate RecordFits(r: Record, run: Run) {
    && r.job < |run.jobs| && r.job < |run.tests|
    && r.test == run.tests[r.job] && HasRecord(run.jobs[r.job])
  }

  predicate Recorded1(records: seq<Record>, i: nat) {
    exists k :: 0 <= k < |records| && records[k].job == i
  }

  /** One record for each test that has come that far, and no other. */
  ghost predicate RecordInv(records: seq<Record>, run: Run) {
    && (forall k :: 0 <= k < |records| ==> RecordFits(records[k], run))
    && (forall k, m :: 0 <= k < m < |records| ==> records[k].job != records[m].job)
    && (forall i :: 0 <= i < |run.jobs| && HasRecord(run.jobs[i]) ==> Recorded1(records, i))
  }

  // ---------------------------------------------------------------- stops

  /** Counted, and the counter not reset on its behalf yet. */
  predicate Outstanding(stop: Stop) {
    !stop.phase.Flagging? && !stop.phase.Done?
  }

  function OutstandingCount(stops: seq<Stop>): nat {
    if stops == [] then 0
    else OutstandingCount(stops[..|stops| - 1]) + (if Outstanding(stops[|stops| - 1]) then 1 else 0)
  }

  predicate PassedLock(stop: Stop) {
    stop.phase.Resetting? || stop.phase.Flagging? || stop.phase.Done?
  }

  ghost predicate StopInv(s: Scheduler) {
    && s.stopCount <= OutstandingCount(s.stops)
    && (forall k :: 0 <= k < |s.stops| ==> s.stops[k].since <= s.epoch)
    && (forall k :: 0 <= k < |s.stops| && PassedLock(s.stops[k]) && s.run.Some? ==> s.stops[k].since < s.epoch)
  }

  ghost predicate Inv(s: Scheduler) {
    && ShapeInv(s) && PermitInv(s) && StopInv(s)
    && (s.run.Some? ==> RecordInv(s.records, s.run.value))
  }

  // ---------------------------------------------------------------- counting

  lemma {:induction false} HeldUpdate(jobs: seq<Job>, i: nat, j: Job)
    requires i < |jobs|
    ensures Held(jobs[i := j]) + (if HoldsPermit(jobs[i]) then 1 else 0)
         == Held(jobs) + (if HoldsPermit(j) then 1 else 0)
    decreases |jobs|
  {
    var n := |jobs| - 1;
    if i == n {
      assert jobs[i := j][..n] == jobs[..n];
    } else {
      HeldUpdate(jobs[..n], i, j);
      assert jobs[i := j][..n] == jobs[..n][i := j];
    }
  }

  lemma {:induction false} NobodyHolds(jobs: seq<Job>)
    requires forall i :: 0 <= i < |jobs| ==> !HoldsPermit(jobs[i])
    ensures Held(jobs) == 0
    decreases |jobs|
  {
    if jobs != [] {
      NobodyHolds(jobs[..|jobs| - 1]);
    }
  }

  lemma {:induction false} StopsHoldingUpdate(stops: seq<Stop>, k: nat, stop: Stop, sem: nat)
    requires k < |stops|
    ensures StopsHolding(stops[k := stop], sem) + (if StopHolds(stops[k], sem) then 1 else 0)
         == StopsHolding(stops, sem) + (if StopHolds(stop, sem) then 1 else 0)
    decreases |stops|
  {
    var n := |stops| - 1;
    if k == n {
      assert stops[k := stop][..n] == stops[..n];
    } else {
      StopsHoldingUpdate(stops[..n], k, stop, sem);
      assert stops[k := stop][..n] == stops[..n][k := stop];
    }
  }

  lemma {:induction false} NoStopHolds(stops: seq<Stop>, sem: nat)
    requires forall k :: 0 <= k < |stops| ==> !StopHolds(stops[k], sem)
    ensures StopsHolding(stops, sem) == 0
    decreases |stops|
  {
    if stops != [] {
      NoStopHolds(stops[..|stops| - 1], sem);
    }
  }

  lemma {:induction false} OutstandingUpdate(stops: seq<Stop>, k: nat, stop: Stop)
    requires k < |stops|
    ensures OutstandingCount(stops[k := stop]) + (if Outstanding(stops[k]) then 1 else 0)
         == OutstandingCount(stops) + (if Outstanding(stop) then 1 else 0)
    decreases |stops|
  {
    var n := |stops| - 1;
    if k == n {
      assert stops[k := stop][..n] == stops[..n];
    } else {
      OutstandingUpdate(stops[..n], k, stop);
      assert stops[k := stop][..n] == stops[..n][k := stop];
    }
  }

  // ---------------------------------------------------------------- a test moves

  /** A running test goes on, keeping or changing whether it holds a permit. */
  predicate JobMoves(old': Job, j: Job) {
    !old'.Finished? && !old'.Unspawned? && !j.Unspawned?
  }

  lemma ShapeAfterJob(s: Scheduler, i: nat, j: Job)
    requires ShapeInv(s) && CanFinish(s, i) && JobMoves(s.run.value.jobs[i], j) && Sound(j)
    ensures ShapeInv(SetJob(s, i, j))
  {
    var run := s.run.value;
    var jobs' := run.jobs[i := j];
    assert JobFits(run.stage, InParallel(s, run.tests[i]), i, run.jobs[i]);
    forall k | 0 <= k < |jobs'| ensures JobFits(run.stage, InParallel(s, run.tests[k]), k, jobs'[k]) {
      assert JobFits(run.stage, InParallel(s, run.tests[k]), k, run.jobs[k]);
    }
    if run.stage.Parallel? && run.stage.first.Some? {
      var src :| 0 <= src < |run.jobs| && RaisedBy(run.jobs[src], run.stage.first.value);
      assert jobs'[src] == run.jobs[src];
    }
  }

  /** What a test takes from, or gives back to, its stage's semaphore. */
  lemma PermitsAfterJob(s: Scheduler, i: nat, j: Job, sems: seq<Semaphore>)
    requires PermitInv(s) && CanFinish(s, i)
    requires var sem := StageSem(s.run.value.stage).value;
             && sem < |s.sems| == |sems|
             && (forall k :: 0 <= k < |sems| && k != sem ==> sems[k] == s.sems[k])
             && sems[sem].capacity == s.sems[sem].capacity
             && sems[sem].available + (if HoldsPermit(j) then 1 else 0)
                == s.sems[sem].available + (if HoldsPermit(s.run.value.jobs[i]) then 1 else 0)
    ensures PermitInv(SetJob(s.(sems := sems), i, j))
  {
    HeldUpdate(s.run.value.jobs, i, j);
    var r := SetJob(s.(sems := sems), i, j);
    forall k | 0 <= k < |r.sems| ensures Balanced(r, k) {
      assert Balanced(s, k);
    }
  }

  lemma RecordsAfterJob(records: seq<Record>, run: Run, i: nat, j: Job)
    requires RecordInv(records, run) && i < |run.jobs|
    requires HasRecord(run.jobs[i]) <==> HasRecord(j)
    ensures RecordInv(records, run.(jobs := run.jobs[i := j]))
  {
    var run' := run.(jobs := run.jobs[i := j]);
    forall k | 0 <= k < |records| ensures RecordFits(records[k], run') {
      assert RecordFits(records[k], run);
    }
  }

  lemma RecordsAfterPush(records: seq<Record>, run: Run, i: nat, j: Job, row: Row)
    requires RecordInv(records, run) && i < |run.jobs| == |run.tests|
    requires !HasRecord(run.jobs[i]) && HasRecord(j)
    ensures RecordInv(records + [Record(i, run.tests[i], row)], run.(jobs := run.jobs[i := j]))
  {
    var run' := run.(jobs := run.jobs[i := j]);
    var records' := records + [Record(i, run.tests[i], row)];
    forall k | 0 <= k < |records'| ensures RecordFits(records'[k], run') {
      if k < |records| {
        assert RecordFits(records[k], run);
      }
    }
    forall m | 0 <= m < |run'.jobs| && HasRecord(run'.jobs[m]) ensures Recorded1(records', m) {
      if m == i {
        assert records'[|records|].job == i;
      } else {
        assert Recorded1(records, m);
        var k :| 0 <= k < |records| && records[k].job == m;
        assert records'[k].job == m;
      }
    }
    forall k, m | 0 <= k < m < |records'| ensures records'[k].job != records'[m].job {
      assert RecordFits(records[k], run);
    }
  }

  lemma StopsAfterJob(s: Scheduler, r: Scheduler)
    requires StopInv(s)
    requires r.stopCount == s.stopCount && r.stops == s.stops && r.epoch == s.epoch && (r.run.Some? ==> s.run.Some?)
    ensures StopInv(r)
  {}

  lemma FinishKeeps(s: Scheduler, i: nat, why: Ending)
    requires Inv(s) && CanFinish(s, i) && !s.run.value.jobs[i].Finished? && !s.run.value.jobs[i].Unspawned?
    requires HasRecord(s.run.value.jobs[i]) <==> HasRecord(Finished(why))
    requires Sound(Finished(why))
    ensures Inv(Finish(s, i, why))
  {
    hide ShapeInv, PermitInv, RecordInv, StopInv, HasRecord, ErrorOf, Sound;
    var r := Finish(s, i, why);
    ShapeAfterJob(s, i, Finished(why));
    ShapeIgnoresSems(SetJob(s, i, Finished(why)), r.sems);
    PermitsAfterJob(s, i, Finished(why), r.sems);
    RecordsAfterJob(s.records, s.run.value, i, Finished(why));
    StopsAfterJob(s, r);
  }

  lemma ShapeIgnoresSems(s: Scheduler, sems: seq<Semaphore>)
    requires ShapeInv(s)
    ensures ShapeInv(s.(sems := sems))
  {}

  /** A test goes on without touching the semaphore or the records. */
  lemma OnwardKeeps(s: Scheduler, i: nat, j: Job)
    requires Inv(s) && CanFinish(s, i) && JobMoves(s.run.value.jobs[i], j) && Sound(j)
    requires HoldsPermit(s.run.value.jobs[i]) <==> HoldsPermit(j)
    requires HasRecord(s.run.value.jobs[i]) <==> HasRecord(j)
    ensures Inv(SetJob(s, i, j))
  {
    hide ShapeInv, PermitInv, RecordInv, StopInv, HasRecord, HoldsPermit, Sound;
    ShapeAfterJob(s, i, j);
    PermitsAfterJob(s, i, j, s.sems);
    assert s.(sems := s.sems) == s;
    RecordsAfterJob(s.records, s.run.value, i, j);
    StopsAfterJob(s, SetJob(s, i, j));
  }

  lemma AcquireKeeps(s: Scheduler, i: nat)
    requires Inv(s) && CanFinish(s, i) && s.run.value.jobs[i].Queued?
    ensures Inv(StepAcquire(s, i))
  {
    hide ShapeInv, PermitInv, RecordInv, StopInv;
    var r := StepAcquire(s, i);
    if r != s {
      ShapeAfterJob(s, i, Permitted);
      ShapeIgnoresSems(SetJob(s, i, Permitted), r.sems);
      PermitsAfterJob(s, i, Permitted, r.sems);
      RecordsAfterJob(s.records, s.run.value, i, Permitted);
      StopsAfterJob(s, r);
    }
  }

  lemma PushKeeps(s: Scheduler, i: nat)
    requires Inv(s) && CanFinish(s, i) && i < |s.run.value.tests| && s.run.value.jobs[i].Parsed?
    ensures Inv(StepPush(s, i))
  {
    LengthsAgree(s, i);
    hide ShapeInv, PermitInv, RecordInv, StopInv;
    var job := s.run.value.jobs[i];
    var j := Pushed(job.answers);
    var r := StepPush(s, i);
    ShapeAfterJob(s, i, j);
    PermitsAfterJob(s, i, j, s.sems);
    IgnoreRecords(SetJob(s, i, j), r.records);
    RecordsAfterPush(s.records, s.run.value, i, j, job.row);
    StopsAfterJob(s, r);
  }

  lemma LengthsAgree(s: Scheduler, i: nat)
    requires ShapeInv(s) && JobAt(s, i)
    ensures |s.run.value.jobs| == |s.run.value.tests| && Sound(s.run.value.jobs[i])
  {}

  lemma IgnoreRecords(s: Scheduler, records: seq<Record>)
    requires ShapeInv(s) && PermitInv(s)
    ensures ShapeInv(s.(records := records)) && PermitInv(s.(records := records))
  {
    var r := s.(records := records);
    forall k | 0 <= k < |r.sems| ensures Balanced(r, k) {
      assert Balanced(s, k);
    }
  }

  lemma JobKeeps(s: Scheduler, i: nat, act: JobAction)
    requires Inv(s) && CanFinish(s, i)
    ensures Inv(StepJob(s, i, act))
  {
    assert Sound(s.run.value.jobs[i]) by { LengthsAgree(s, i); }
    hide Inv, Outcome, RaisedAfterRecord, ErrorOf, StepPush, StepAcquire;
    match (act, s.run.value.jobs[i])
    case (FirstLook, Spawned) =>
      if s.stopCount > 0 { FinishKeeps(s, i, Skipped); } else { OnwardKeeps(s, i, Queued); }
    case (Acquire, Queued) => AcquireKeeps(s, i);
    case (SecondLook, Permitted) =>
      if s.stopCount > 0 { FinishKeeps(s, i, Skipped); } else { OnwardKeeps(s, i, Executing); }
    case (Conclude(answers), Executing) => OnwardKeeps(s, i, Judged(answers));
    case (Judge(verdict), Judged(answers)) =>
      var row := Outcome(answers).row;
      if row.None? { FinishKeeps(s, i, NoRow(answers)); }
      else if row.value.returncode == KILLED_RETURNCODE && s.stopCount > 1 { FinishKeeps(s, i, Killed(answers)); }
      else if verdict.Unreadable? { FinishKeeps(s, i, Unparsed(answers, verdict.error)); }
      else { OnwardKeeps(s, i, Parsed(answers, row.value)); }
    case (Push, Parsed(_, _)) => if i < |s.run.value.tests| { PushKeeps(s, i); }
    case (Leave, Pushed(answers)) => FinishKeeps(s, i, Recorded(answers));
    case (Crash, job) =>
      if s.run.value.stage.Parallel? && !job.Unspawned? && !job.Finished? { FinishKeeps(s, i, Crashed(job.Pushed?)); }
    case _ =>
  }

  // ---------------------------------------------------------------- a stage ends or begins

  ghost predicate NobodyHolding(jobs: seq<Job>) {
    forall i :: 0 <= i < |jobs| ==> !HoldsPermit(jobs[i])
  }

  /** The stage changes but not its semaphore. */
  lemma PermitsAfterStage(s: Scheduler, jobs: seq<Job>, g: Stage)
    requires PermitInv(s) && s.run.Some? && Held(jobs) == Held(s.run.value.jobs)
    requires g.Parallel? <==> s.run.value.stage.Parallel?
    requires StageSem(g) == StageSem(s.run.value.stage)
    ensures PermitInv(s.(run := Some(Run(s.run.value.tests, jobs, g))))
  {
    var r := s.(run := Some(Run(s.run.value.tests, jobs, g)));
    forall k | 0 <= k < |r.sems| ensures Balanced(r, k) {
      assert Balanced(s, k);
    }
  }

  /** A phase without a semaphore, entered when nobody holds a permit. */
  lemma PermitsAfterPhase(s: Scheduler, run: Option<Run>)
    requires PermitInv(s)
    requires s.run.Some? ==> NobodyHolding(s.run.value.jobs)
    requires run.Some? ==> StageSem(run.value.stage).None?
    ensures PermitInv(s.(run := run))
  {
    var r := s.(run := run);
    if s.run.Some? {
      NobodyHolds(s.run.value.jobs);
    }
    forall k | 0 <= k < |r.sems| ensures Balanced(r, k) {
      assert Balanced(s, k);
    }
  }

  /** A phase with a fresh semaphore, all of whose permits are available. */
  lemma PermitsAfterOpen(s: Scheduler, run: Run, capacity: nat)
    requires PermitInv(s) && s.run.Some? && StageSem(s.run.value.stage).None?
    requires NobodyHolding(run.jobs) && StageSem(run.stage) == Some(|s.sems|)
    requires run.stage.Parallel? ==> capacity == s.workers
    requires run.stage.Sequential? ==> capacity == 1
    requires capacity >= 1
    ensures PermitInv(s.(sems := s.sems + [Semaphore(capacity, capacity)], running := |s.sems|, run := Some(run)))
  {
    var r := s.(sems := s.sems + [Semaphore(capacity, capacity)], running := |s.sems|, run := Some(run));
    NobodyHolds(run.jobs);
    NoStopHolds(s.stops, |s.sems|);
    forall k | 0 <= k < |r.sems| ensures Balanced(r, k) {
      if k < |s.sems| {
        assert Balanced(s, k);
      }
    }
  }

  lemma BeginKeeps(s: Scheduler, tests: seq<Test>)
    requires Inv(s)
    ensures Inv(StepBegin(s, tests))
  {
    hide PermitInv;
    var r := StepBegin(s, tests);
    if r != s {
      PermitsAfterPhase(s, r.run);
      IgnoreEpoch(s.(run := r.run), r.records, r.epoch);
    }
  }

  lemma IgnoreEpoch(s: Scheduler, records: seq<Record>, epoch: nat)
    requires PermitInv(s)
    ensures PermitInv(s.(records := records, epoch := epoch))
  {
    var r := s.(records := records, epoch := epoch);
    forall k | 0 <= k < |r.sems| ensures Balanced(r, k) {
      assert Balanced(s, k);
    }
  }

  /** Where nobody has a record there are none. */
  lemma NoRecords(records: seq<Record>, run: Run, run': Run)
    requires RecordInv(records, run)
    requires forall i :: 0 <= i < |run.jobs| ==> !HasRecord(run.jobs[i])
    requires forall i :: 0 <= i < |run'.jobs| ==> !HasRecord(run'.jobs[i])
    ensures RecordInv(records, run')
  {
    assert 0 < |records| ==> RecordFits(records[0], run);
  }

  lemma OpenParallelKeeps(s: Scheduler)
    requires Inv(s) && s.run.Some? && s.run.value.stage.Starting?
    ensures Inv(StepOpenParallel(s))
  {
    hide PermitInv, RecordInv;
    var run, r := s.run.value, StepOpenParallel(s);
    forall i | 0 <= i < |run.jobs| ensures run.jobs[i].Unspawned? {
      assert JobFits(Starting, InParallel(s, run.tests[i]), i, run.jobs[i]);
    }
    if AnyParallel(s, run.tests) {
      PermitsAfterOpen(s, r.run.value, s.workers);
      NoRecords(s.records, run, r.run.value);
    } else {
      PermitsAfterPhase(s, r.run);
      NoRecords(s.records, run, r.run.value);
    }
  }

  lemma RecordsIgnoreStage(records: seq<Record>, run: Run, g: Stage)
    requires RecordInv(records, run)
    ensures RecordInv(records, run.(stage := g))
  {
    forall k | 0 <= k < |records| ensures RecordFits(records[k], run.(stage := g)) {
      assert RecordFits(records[k], run);
    }
  }

  lemma JoinKeeps(s: Scheduler, i: nat)
    requires Inv(s) && JobAt(s, i) && s.run.value.stage.Parallel? && s.run.value.jobs[i].Finished?
    ensures Inv(StepJoin(s, i))
  {
    hide PermitInv, RecordInv;
    var run, r := s.run.value, StepJoin(s, i);
    if r != s {
      var g := r.run.value.stage;
      assert JobFits(run.stage, InParallel(s, run.tests[i]), i, run.jobs[i]);
      forall k | 0 <= k < |run.jobs| ensures JobFits(g, InParallel(s, run.tests[k]), k, run.jobs[k]) {
        assert JobFits(run.stage, InParallel(s, run.tests[k]), k, run.jobs[k]);
      }
      PermitsAfterStage(s, run.jobs, g);
      RecordsIgnoreStage(s.records, run, g);
      if run.stage.first.None? && g.first.Some? {
        assert RaisedBy(run.jobs[i], g.first.value);
      }
    }
  }

  lemma CloseParallelKeeps(s: Scheduler)
    requires Inv(s) && s.run.Some? && s.run.value.stage.Parallel? && AllJoined(s)
    ensures Inv(StepCloseParallel(s))
  {
    hide PermitInv, RecordInv;
    var run, r := s.run.value, StepCloseParallel(s);
    var g := r.run.value.stage;
    forall k | 0 <= k < |run.jobs|
      ensures JobFits(g, InParallel(s, run.tests[k]), k, run.jobs[k]) && !HoldsPermit(run.jobs[k])
    {
      assert JobFits(run.stage, InParallel(s, run.tests[k]), k, run.jobs[k]);
    }
    PermitsAfterPhase(s, r.run);
    RecordsIgnoreStage(s.records, run, g);
  }

  lemma OpenSequentialKeeps(s: Scheduler)
    requires Inv(s) && s.run.Some? && s.run.value.stage.Between?
    ensures Inv(StepOpenSequential(s))
  {
    hide PermitInv, RecordInv;
    var run, r := s.run.value, StepOpenSequential(s);
    var g := r.run.value.stage;
    forall k | 0 <= k < |run.jobs|
      ensures JobFits(g, InParallel(s, run.tests[k]), k, run.jobs[k]) && !HoldsPermit(run.jobs[k])
    {
      assert JobFits(run.stage, InParallel(s, run.tests[k]), k, run.jobs[k]);
    }
    RecordsIgnoreStage(s.records, run, g);
    if AnySequential(s, run.tests) {
      PermitsAfterOpen(s, r.run.value, 1);
    } else {
      PermitsAfterPhase(s, r.run);
    }
  }

  lemma StartNextKeeps(s: Scheduler, i: nat)
    requires Inv(s) && JobAt(s, i) && s.run.value.stage.Sequential? && s.run.value.stage.current.None? && IsNext(s, i)
    ensures Inv(StepStartNext(s, i))
  {
    hide PermitInv, RecordInv;
    var run, r := s.run.value, StepStartNext(s, i);
    var jobs, g := r.run.value.jobs, r.run.value.stage;
    forall k | 0 <= k < |jobs| ensures JobFits(g, InParallel(s, run.tests[k]), k, jobs[k]) {
      assert JobFits(run.stage, InParallel(s, run.tests[k]), k, run.jobs[k]);
    }
    HeldUpdate(run.jobs, i, Spawned);
    PermitsAfterStage(s, jobs, g);
    RecordsAfterJob(s.records, run, i, Spawned);
    RecordsIgnoreStage(s.records, run.(jobs := jobs), g);
  }

  lemma AdvanceKeeps(s: Scheduler)
    requires Inv(s) && s.run.Some? && s.run.value.stage.Sequential?
    ensures Inv(StepAdvance(s))
  {
    hide PermitInv, RecordInv, ErrorOf;
    var run, r := s.run.value, StepAdvance(s);
    if r != s {
      var g := r.run.value.stage;
      forall k | 0 <= k < |run.jobs|
        ensures JobFits(g, InParallel(s, run.tests[k]), k, run.jobs[k]) && !HoldsPermit(run.jobs[k])
      {
        assert JobFits(run.stage, InParallel(s, run.tests[k]), k, run.jobs[k]);
      }
      if g.Ended? && g.error.Some? {
        assert RaisedBy(run.jobs[run.stage.current.value], g.error.value);
      }
      RecordsIgnoreStage(s.records, run, g);
      if g.Ended? {
        PermitsAfterPhase(s, r.run);
      } else {
        PermitsAfterStage(s, run.jobs, g);
      }
    }
  }

  lemma EndKeeps(s: Scheduler)
    requires Inv(s) && s.run.Some? && s.run.value.stage.Ended?
    ensures Inv(StepEnd(s))
  {
    hide PermitInv, RecordInv;
    var run := s.run.value;
    forall k | 0 <= k < |run.jobs| ensures !HoldsPermit(run.jobs[k]) {
      assert JobFits(run.stage, InParallel(s, run.tests[k]), k, run.jobs[k]);
    }
    PermitsAfterPhase(s, None);
    IgnoreReturned(s.(run := None), StepEnd(s).returned);
  }

  lemma IgnoreReturned(s: Scheduler, returned: Option<Option<KirkError>>)
    requires PermitInv(s)
    ensures PermitInv(s.(returned := returned))
  {
    forall k | 0 <= k < |s.sems| ensures Balanced(s.(returned := returned), k) {
      assert Balanced(s, k);
    }
  }

  lemma DropKeeps(s: Scheduler)
    requires Inv(s) && s.run.Some?
    ensures Inv(StepDrop(s))
  {
    var r := StepDrop(s);
    var run := s.run.value;
    if StageSem(run.stage).None? {
      forall k | 0 <= k < |r.sems| ensures Balanced(r, k) {
        assert Balanced(s, k);
      }
    } else if r != s {
      forall k | 0 <= k < |r.sems| ensures Balanced(r, k) {
        assert Balanced(s, k);
      }
    }
  }

  // ---------------------------------------------------------------- stops

  lemma CountStopKeeps(s: Scheduler)
    requires Inv(s)
    ensures Inv(StepCountStop(s))
  {
    hide RecordInv;
    var r := StepCountStop(s);
    assert r.stops[..|r.stops| - 1] == s.stops;
    forall k | 0 <= k < |r.sems| ensures Balanced(r, k) {
      assert Balanced(s, k);
    }
  }

  lemma PermitsAfterStop(s: Scheduler, k: nat, step: StopAction)
    requires PermitInv(s) && k < |s.stops|
    ensures PermitInv(StepStop(s, k, step))
  {
    var r := StepStop(s, k, step);
    if r != s {
      forall sem | 0 <= sem < |r.sems| ensures Balanced(r, sem) {
        assert Balanced(s, sem);
        StopsHoldingUpdate(s.stops, k, r.stops[k], sem);
      }
    }
  }

  lemma StopKeeps(s: Scheduler, k: nat, step: StopAction)
    requires Inv(s) && k < |s.stops|
    ensures Inv(StepStop(s, k, step))
  {
    hide RecordInv, ShapeInv, PermitInv;
    var r := StepStop(s, k, step);
    PermitsAfterStop(s, k, step);
    OutstandingUpdate(s.stops, k, r.stops[k]);
    ShapeIgnoresStops(s, r);
  }

  lemma ShapeIgnoresStops(s: Scheduler, r: Scheduler)
    requires ShapeInv(s) && r.workers == s.workers && r.run == s.run
    ensures ShapeInv(r)
  {}

  // ---------------------------------------------------------------- every history

  lemma StepKeepsInv(s: Scheduler, a: Action)
    requires Inv(s)
    ensures Inv(Step(s, a))
  {
    hide Inv, StepBegin, StepOpenParallel, StepJoin, StepCloseParallel, StepOpenSequential, StepStartNext, StepAdvance,
         StepEnd, StepDrop, StepJob, StepStop, StepCountStop, AllJoined, IsNext;
    match a
    case Begin(tests) => BeginKeeps(s, tests);
    case OfTest(i, act) => if CanFinish(s, i) { JobKeeps(s, i, act); }
    case CountStop => CountStopKeeps(s);
    case OfStop(k, step) => if k < |s.stops| { StopKeeps(s, k, step); }
    case _ => if s.run.Some? { ScheduleKeeps(s, a); }
  }

  lemma ScheduleKeeps(s: Scheduler, a: Action)
    requires Inv(s) && s.run.Some?
    ensures Inv(StepSchedule(s, a))
  {
    hide Inv, StepOpenParallel, StepJoin, StepCloseParallel, StepOpenSequential, StepStartNext, StepAdvance, StepEnd, StepDrop;
    var g := s.run.value.stage;
    match a
    case OpenParallel => if g.Starting? { OpenParallelKeeps(s); }
    case Join(i) => if g.Parallel? && JobAt(s, i) && s.run.value.jobs[i].Finished? { JoinKeeps(s, i); }
    case CloseParallel => if g.Parallel? && AllJoined(s) { CloseParallelKeeps(s); }
    case OpenSequential => if g.Between? { OpenSequentialKeeps(s); }
    case StartNext(i) =>
      if g.Sequential? && g.current.None? && JobAt(s, i) && IsNext(s, i) { StartNextKeeps(s, i); }
    case Advance => if g.Sequential? { AdvanceKeeps(s); }
    case End => if g.Ended? { EndKeeps(s); }
    case Drop => DropKeeps(s);
    case _ =>
  }

  lemma {:induction false} EveryHistoryKeepsInv(maxWorkers: nat, actions: seq<Action>)
    ensures Inv(History(maxWorkers, actions))
    decreases |actions|
  {
    hide Inv, Step;
    if actions == [] {
      InitKeepsInv(maxWorkers);
    } else {
      EveryHistoryKeepsInv(maxWorkers, actions[..|actions| - 1]);
      StepKeepsInv(History(maxWorkers, actions[..|actions| - 1]), actions[|actions| - 1]);
    }
  }

  lemma InitKeepsInv(maxWorkers: nat)
    ensures Inv(Init(maxWorkers))
  {
    assert Balanced(Init(maxWorkers), 0);
  }
}
