/**
  The reboot-and-retry loop over one suite. Each turn of the loop is one call of the test scheduler;
  what that call comes back with is an input, and legal when the test scheduler can produce it.
 */
module SuiteScheduler {
  import opened Results
  import opened ExecTest
  import opened TestScheduler

  /** `filledIn`: entered as skipped after a suite timeout, without having run. */
  datatype TestResult = TestResult(test: Test, returncode: int, filledIn: bool)

  const CONF_RETURNCODE := 32

  datatype RoundEnd = Returned(error: Option<KirkError>) | TimedOut

  datatype Round = Round(results: seq<TestResult>, end: RoundEnd)

  /** The stop flag at the head of the loop, the round if there is one, and how a restart would end. */
  datatype Turn = Turn(stop: bool, round: Round, restart: Option<KirkError>)

  datatype Ending = AllDone | StopSeen | SuiteTimedOut | Raised(error: KirkError) | ScriptOver

  datatype Drive = Drive(results: seq<TestResult>, restarts: nat, ending: Ending)

  // ---------------------------------------------------------------- the loop

  function Names(results: seq<TestResult>): set<string> {
    set r | r in results :: r.test.name
  }

  /** The tests of the suite without a result under their name. */
  function NotDone(tests: seq<Test>, done: set<string>): (left: seq<Test>)
    ensures forall t :: t in left <==> t in tests && t.name !in done
  {
    if tests == [] then []
    else (if tests[0].name in done then [] else [tests[0]]) + NotDone(tests[1..], done)
  }

  function FillIns(left: seq<Test>): (rs: seq<TestResult>)
    ensures |rs| == |left| && forall i :: 0 <= i < |rs| ==> rs[i] == TestResult(left[i], CONF_RETURNCODE, true)
  {
    seq(|left|, i requires 0 <= i < |left| => TestResult(left[i], CONF_RETURNCODE, true))
  }

  /** The rest of the loop, given what is left and what was collected. */
  function DriveFrom(suite: seq<Test>, left: seq<Test>, results: seq<TestResult>, script: seq<Turn>): Drive
    decreases |script|
  {
    if left == [] then Drive(results, 0, AllDone)
    else if script == [] then Drive(results, 0, ScriptOver)
    else if script[0].stop then Drive(results, 0, StopSeen)
    else
      var collected := results + script[0].round.results;
      var left' := NotDone(suite, Names(collected));
      match script[0].round.end
      case TimedOut => Drive(collected + FillIns(left'), 0, SuiteTimedOut)
      case Returned(None) => DriveFrom(suite, left', collected, script[1..])
      case Returned(Some(e)) =>
        if !IsKernelError(e) then Drive(collected, 0, Raised(e))
        else if script[0].restart.Some? then Drive(collected, 1, Raised(script[0].restart.value))
        else
          var d := DriveFrom(suite, left', collected, script[1..]);
          d.(restarts := d.restarts + 1)
  }

  method DriveSuite(suite: seq<Test>, script: seq<Turn>)
    returns (results: seq<TestResult>, restarts: nat, ending: Ending)
    ensures Drive(results, restarts, ending) == DriveFrom(suite, suite, [], script)
  {
    results, restarts := [], 0;
    var left := suite;
    var turn := 0;
    while left != []
      invariant turn <= |script|
      invariant var d := DriveFrom(suite, left, results, script[turn..]);
                d.(restarts := d.restarts + restarts) == DriveFrom(suite, suite, [], script)
      decreases |script| - turn
    {
      if turn == |script| {
        return results, restarts, ScriptOver;
      }
      if script[turn].stop {
        return results, restarts, StopSeen;
      }
      var round, restart := script[turn].round, script[turn].restart;
      assert script[turn..][1..] == script[turn + 1..];
      turn := turn + 1;
      results := results + round.results;
      match round.end {
        case TimedOut =>
        case Returned(None) =>
        case Returned(Some(error)) =>
          if !IsKernelError(error) {
            return results, restarts, Raised(error);
          }
          restarts := restarts + 1;
          if restart.Some? {
            return results, restarts, Raised(restart.value);
          }
      }
      left := NotDone(suite, Names(results));
      if round.end.TimedOut? {
        ghost var collected := results;
        for i := 0 to |left|
          invariant results == collected + FillIns(left)[..i]
        {
          results := results + [TestResult(left[i], CONF_RETURNCODE, true)];
        }
        return results, restarts, SuiteTimedOut;
      }
    }
    return results, restarts, AllDone;
  }

  // ---------------------------------------------------------------- what a round may bring

  ghost predicate DistinctTests(tests: seq<Test>) {
    forall i, j :: 0 <= i < j < |tests| ==> tests[i].name != tests[j].name
  }

  ghost predicate DistinctResults(results: seq<TestResult>) {
    forall i, j :: 0 <= i < j < |results| ==> results[i].test.name != results[j].test.name
  }

  ghost predicate Within(results: seq<TestResult>, tests: seq<Test>) {
    forall i :: 0 <= i < |results| ==> results[i].test in tests
  }

  /** Result `k` is that of the test at position `from[k]`, and no test has two. */
  ghost predicate StandsFor(left: seq<Test>, results: seq<TestResult>, from: seq<nat>) {
    && |from| == |results|
    && (forall k :: 0 <= k < |from| ==> from[k] < |left| && left[from[k]] == results[k].test)
    && forall k, m :: 0 <= k < m < |from| ==> from[k] != from[m]
  }

  /** A round records tests it was given, each at most once. */
  ghost predicate LegalRound(left: seq<Test>, round: Round) {
    && (exists from: seq<nat> :: StandsFor(left, round.results, from))
    && forall i :: 0 <= i < |round.results| ==> !round.results[i].filledIn
  }

  lemma LegalIsWithin(left: seq<Test>, round: Round)
    requires LegalRound(left, round)
    ensures Within(round.results, left)
    ensures DistinctTests(left) ==> DistinctResults(round.results)
  {
    var from: seq<nat> :| StandsFor(left, round.results, from);
    forall i | 0 <= i < |round.results| ensures round.results[i].test in left {
      assert left[from[i]] == round.results[i].test;
    }
    if DistinctTests(left) {
      forall i, j | 0 <= i < j < |round.results| ensures round.results[i].test.name != round.results[j].test.name {
        assert left[from[i]] == round.results[i].test && left[from[j]] == round.results[j].test;
      }
    }
  }

  /** Returning without error every test has its result; a kernel error comes with at least one. */
  ghost predicate Productive(left: seq<Test>, round: Round) {
    match round.end
    case Returned(None) => forall t :: t in left ==> t.name in Names(round.results)
    case Returned(Some(e)) => IsKernelError(e) ==> round.results != []
    case TimedOut => true
  }

  /**
    Every round is legal, and productive unless a stop cut it short, which the loop sees next.
    `SuiteCompletion.EveryScheduleIsWellRun` proves it of suite schedules on tame answers.
   */
  ghost predicate WellRun(suite: seq<Test>, left: seq<Test>, results: seq<TestResult>, script: seq<Turn>)
    decreases |script|
  {
    left == [] || script == [] || script[0].stop ||
    var round := script[0].round;
    var left' := NotDone(suite, Names(results + round.results));
    && LegalRound(left, round)
    && (Productive(left, round) || (round.end == Returned(None) && |script| > 1 && script[1].stop))
    && (Continues(script[0]) ==> WellRun(suite, left', results + round.results, script[1..]))
  }

  predicate Continues(turn: Turn) {
    turn.round.end.Returned? &&
    (turn.round.end.error.None? || (IsKernelError(turn.round.end.error.value) && turn.restart.None?))
  }

  // ---------------------------------------------------------------- counting what is left

  function TestNames(tests: seq<Test>): set<string> {
    set t | t in tests :: t.name
  }

  lemma {:induction false} NamesCount(tests: seq<Test>)
    requires DistinctTests(tests)
    ensures |TestNames(tests)| == |tests|
  {
    if tests != [] {
      var rest := tests[1..];
      NamesCount(rest);
      assert TestNames(tests) == {tests[0].name} + TestNames(rest) by {
        assert forall t :: t in tests <==> t == tests[0] || t in rest;
      }
      assert tests[0].name !in TestNames(rest);
    } else {
      assert TestNames(tests) == {};
    }
  }

  lemma {:induction false} NotDoneDistinct(tests: seq<Test>, done: set<string>)
    requires DistinctTests(tests)
    ensures DistinctTests(NotDone(tests, done))
  {
    if tests != [] {
      var rest := tests[1..];
      NotDoneDistinct(rest, done);
      assert forall t :: t in NotDone(rest, done) ==> t.name != tests[0].name;
    }
  }

  function TestsOf(results: seq<TestResult>): (ts: seq<Test>)
    ensures |ts| == |results| && forall i :: 0 <= i < |ts| ==> ts[i] == results[i].test
  {
    seq(|results|, i requires 0 <= i < |results| => results[i].test)
  }

  lemma NamesAreTestNames(results: seq<TestResult>)
    ensures Names(results) == TestNames(TestsOf(results))
  {
    forall name | name in Names(results) ensures name in TestNames(TestsOf(results)) {
      var r :| r in results && r.test.name == name;
      var i :| 0 <= i < |results| && results[i] == r;
      assert TestsOf(results)[i] == r.test;
    }
    forall name | name in TestNames(TestsOf(results)) ensures name in Names(results) {
      var t :| t in TestsOf(results) && t.name == name;
      var i :| 0 <= i < |results| && TestsOf(results)[i] == t;
      assert results[i] in results;
    }
  }

  /** Results and tests left always add up to the suite. */
  lemma LeftCount(suite: seq<Test>, results: seq<TestResult>)
    requires DistinctTests(suite) && DistinctResults(results) && Within(results, suite)
    ensures |NotDone(suite, Names(results))| + |results| == |suite|
  {
    var left := NotDone(suite, Names(results));
    NotDoneDistinct(suite, Names(results));
    NamesCount(suite);
    NamesCount(left);
    NamesCount(TestsOf(results));
    NamesAreTestNames(results);
    assert TestNames(suite) == TestNames(left) + Names(results) by {
      assert forall t :: t in left ==> t in suite;
      forall name | name in TestNames(suite) ensures name in TestNames(left) + Names(results) {
        var t :| t in suite && t.name == name;
        assert t.name !in Names(results) ==> t in left;
      }
    }
    assert TestNames(left) !! Names(results);
  }

  /** What was collected so far, and that the rest is what is left. */
  ghost predicate Books(suite: seq<Test>, left: seq<Test>, results: seq<TestResult>) {
    && DistinctTests(suite) && DistinctResults(results) && Within(results, suite)
    && left == NotDone(suite, Names(results))
  }

  /** A legal round keeps the books, and shrinks what is left by exactly its number of results. */
  lemma {:induction false} RoundKeepsBooks(suite: seq<Test>, left: seq<Test>, results: seq<TestResult>, round: Round)
    requires Books(suite, left, results) && LegalRound(left, round)
    ensures var collected := results + round.results;
            && Books(suite, NotDone(suite, Names(collected)), collected)
            && |NotDone(suite, Names(collected))| == |left| - |round.results|
  {
    var collected := results + round.results;
    NotDoneDistinct(suite, Names(results));
    LegalIsWithin(left, round);
    forall i, j | 0 <= i < j < |collected| ensures collected[i].test.name != collected[j].test.name {
      if i < |results| <= j {
        assert round.results[j - |results|].test in left;
        assert results[i] in results;
      }
    }
    forall i | 0 <= i < |collected| ensures collected[i].test in suite {
      if i >= |results| {
        assert round.results[i - |results|].test in left;
      }
    }
    LeftCount(suite, results);
    LeftCount(suite, collected);
  }

  /** A legal round makes the suite's remainder strictly smaller exactly when it recorded something. */
  lemma RoundShrinksIff(suite: seq<Test>, left: seq<Test>, results: seq<TestResult>, round: Round)
    requires Books(suite, left, results) && LegalRound(left, round)
    ensures |NotDone(suite, Names(results + round.results))| < |left| <==> round.results != []
  {
    RoundKeepsBooks(suite, left, results, round);
  }

  // ---------------------------------------------------------------- completeness and termination

  /** Exactly one result for each test of the suite. */
  ghost predicate Complete(suite: seq<Test>, results: seq<TestResult>) {
    multiset(TestsOf(results)) == multiset(suite)
  }

  lemma {:induction false} DistinctOccursOnce(tests: seq<Test>, t: Test)
    requires DistinctTests(tests)
    ensures multiset(tests)[t] == if t in tests then 1 else 0
  {
    if tests != [] {
      DistinctOccursOnce(tests[1..], t);
      assert tests == [tests[0]] + tests[1..];
      assert tests[0] !in tests[1..];
    }
  }

  /** Distinct results of tests of the suite, as many as there are tests, are one for each. */
  lemma EnoughIsComplete(suite: seq<Test>, results: seq<TestResult>)
    requires DistinctTests(suite) && DistinctResults(results) && Within(results, suite)
    requires forall t :: t in suite ==> t.name in Names(results)
    ensures Complete(suite, results)
  {
    var tests := TestsOf(results);
    forall t ensures multiset(tests)[t] == multiset(suite)[t] {
      DistinctOccursOnce(tests, t);
      DistinctOccursOnce(suite, t);
      if t in suite {
        var r :| r in results && r.test.name == t.name;
        var i :| 0 <= i < |results| && results[i] == r;
        assert results[i].test in suite && results[i].test.name == t.name;
        assert r.test == t && tests[i] == t;
      }
      if t in tests {
        var i :| 0 <= i < |tests| && tests[i] == t;
        assert results[i].test in suite;
      }
    }
  }

  lemma NothingLeftIsComplete(suite: seq<Test>, results: seq<TestResult>)
    requires Books(suite, [], results)
    ensures Complete(suite, results)
  {
    forall t | t in suite ensures t.name in Names(results) {
      assert t.name !in Names(results) ==> t in NotDone(suite, Names(results));
    }
    EnoughIsComplete(suite, results);
  }

  /** After a suite timeout the fill-ins complete the results, with return code 32. */
  lemma FillInsComplete(suite: seq<Test>, left: seq<Test>, results: seq<TestResult>)
    requires Books(suite, left, results)
    ensures Complete(suite, results + FillIns(left))
  {
    var all := results + FillIns(left);
    NotDoneDistinct(suite, Names(results));
    forall i, j | 0 <= i < j < |all| ensures all[i].test.name != all[j].test.name {
      if j >= |results| {
        assert all[j].test == left[j - |results|] && left[j - |results|] in left;
      }
      if i < |results| {
        assert results[i] in results;
      } else {
        assert all[i].test == left[i - |results|];
      }
    }
    forall i | 0 <= i < |all| ensures all[i].test in suite {
      if i >= |results| {
        assert left[i - |results|] in left;
      }
    }
    forall t | t in suite ensures t.name in Names(all) {
      if t.name in Names(results) {
        var r :| r in results && r.test.name == t.name;
        assert r in all;
      } else {
        assert t in left;
        var i :| 0 <= i < |left| && left[i] == t;
        assert all[|results| + i] == FillIns(left)[i] && all[|results| + i] in all;
      }
    }
    EnoughIsComplete(suite, all);
  }

  lemma {:induction false} DriveCompletes(suite: seq<Test>, left: seq<Test>, results: seq<TestResult>, script: seq<Turn>)
    requires Books(suite, left, results) && WellRun(suite, left, results, script)
    requires |script| >= |left| || (script != [] && script[0].stop)
    ensures var d := DriveFrom(suite, left, results, script);
            && !d.ending.ScriptOver? && d.restarts <= |left|
            && (d.ending.AllDone? || d.ending.SuiteTimedOut? ==> Complete(suite, d.results))
            && results <= d.results
    decreases |script|
  {
    hide Complete, NotDone, LegalRound, Names;
    if left == [] {
      NothingLeftIsComplete(suite, results);
    } else if !script[0].stop {
      var round := script[0].round;
      var collected := results + round.results;
      var left' := NotDone(suite, Names(collected));
      RoundKeepsBooks(suite, left, results, round);
      if round.end.TimedOut? {
        FillInsComplete(suite, left', collected);
      } else if Continues(script[0]) {
        if round.end.error.None? && Productive(left, round) {
          EverythingRecorded(suite, results, round);
        }
        DriveCompletes(suite, left', collected, script[1..]);
      }
    }
  }

  lemma {:induction false} AllNamesDone(tests: seq<Test>, done: set<string>)
    requires forall t :: t in tests ==> t.name in done
    ensures NotDone(tests, done) == []
  {
    if tests != [] {
      AllNamesDone(tests[1..], done);
    }
  }

  /**
    With distinct test names, and rounds that come back with a result whenever they come back with a
    kernel error, the loop ends within as many rounds as the suite has tests and restarts the target at
    most that often; unless stopped or failed, it ends with exactly one result for every test.
   */
  lemma {:induction false} SuiteCompletes(suite: seq<Test>, script: seq<Turn>)
    requires DistinctTests(suite) && WellRun(suite, suite, [], script) && |script| >= |suite|
    ensures var d := DriveFrom(suite, suite, [], script);
            && !d.ending.ScriptOver? && d.restarts <= |suite|
            && (d.ending.AllDone? || d.ending.SuiteTimedOut? ==> Complete(suite, d.results))
  {
    NothingDoneYet(suite);
    DriveCompletes(suite, suite, [], script);
  }

  lemma {:induction false} NothingDoneYet(suite: seq<Test>)
    ensures NotDone(suite, Names([])) == suite
  {
    assert Names([]) == {};
    if suite != [] {
      NothingDoneYet(suite[1..]);
    }
  }

  // ---------------------------------------------------------------- where the loop ends

  /** What the first `k` rounds brought. */
  function Collected(script: seq<Turn>, k: nat): seq<TestResult>
    requires k <= |script|
  {
    if k == 0 then [] else Collected(script, k - 1) + script[k - 1].round.results
  }

  /** How often the target was restarted for the first `k` rounds. */
  function RestartsFor(script: seq<Turn>, k: nat): nat
    requires k <= |script|
  {
    if k == 0 then 0 else RestartsFor(script, k - 1) + (if EndsInKernelError(script[k - 1].round) then 1 else 0)
  }

  predicate EndsInKernelError(round: Round) {
    round.end.Returned? && round.end.error.Some?
    && (round.end.error.value.KernelPanic? || round.end.error.value.KernelTainted? || round.end.error.value.KernelTimeout?)
  }

  /** Some test of the suite has no result under its name after `k` rounds. */
  ghost predicate SomeLeft(suite: seq<Test>, script: seq<Turn>, k: nat)
    requires k <= |script|
  {
    exists i :: 0 <= i < |suite| && Unnamed(Collected(script, k), suite[i].name)
  }

  predicate Unnamed(results: seq<TestResult>, name: string) {
    forall r :: r in results ==> r.test.name != name
  }

  /** After `k` rounds the loop takes another, and comes back from it. */
  ghost predicate TakesRound(suite: seq<Test>, script: seq<Turn>, k: nat)
    requires k < |script|
  {
    && SomeLeft(suite, script, k) && !script[k].stop && script[k].round.end.Returned?
    && (script[k].round.end.error.None? || (EndsInKernelError(script[k].round) && script[k].restart.None?))
  }

  /** The skipped results, with return code 32, of the tests left over, in the suite's order. */
  ghost predicate Skips(fills: seq<TestResult>, suite: seq<Test>, results: seq<TestResult>, from: seq<nat>) {
    && |from| == |fills| && (forall i, j :: 0 <= i < j < |from| ==> from[i] < from[j])
    && (forall i :: 0 <= i < |from| ==> from[i] < |suite| && fills[i] == TestResult(suite[from[i]], 32, true))
    && (forall k :: 0 <= k < |suite| ==> (k in from <==> Unnamed(results, suite[k].name)))
  }

  ghost predicate SkipsTheRest(fills: seq<TestResult>, suite: seq<Test>, results: seq<TestResult>) {
    exists from: seq<nat> :: Skips(fills, suite, results, from)
  }

  /**
    What the loop comes to when `k` is the first turn it does not come back from: everything done, the
    script or the turn's stop flag at an end, the round timed out or failed, or its restart failed.
   */
  ghost predicate EndsAt(suite: seq<Test>, script: seq<Turn>, k: nat, d: Drive)
    requires k <= |script|
  {
    if !SomeLeft(suite, script, k) then d == Drive(Collected(script, k), RestartsFor(script, k), AllDone)
    else if k == |script| then d == Drive(Collected(script, k), RestartsFor(script, k), ScriptOver)
    else if script[k].stop then d == Drive(Collected(script, k), RestartsFor(script, k), StopSeen)
    else
      && d.restarts == RestartsFor(script, k + 1)
      && match script[k].round.end
         case TimedOut =>
           && d.ending == SuiteTimedOut && Collected(script, k + 1) <= d.results
           && SkipsTheRest(d.results[|Collected(script, k + 1)|..], suite, Collected(script, k + 1))
         case Returned(error) =>
           && d.results == Collected(script, k + 1) && error.Some?
           && (if EndsInKernelError(script[k].round)
               then script[k].restart.Some? && d.ending == Raised(script[k].restart.value)
               else d.ending == Raised(error.value))
  }

  lemma UnnamedIff(results: seq<TestResult>, name: string)
    ensures Unnamed(results, name) <==> name !in Names(results)
  {}

  lemma LeftIff(suite: seq<Test>, script: seq<Turn>, k: nat)
    requires k <= |script|
    ensures SomeLeft(suite, script, k) <==> NotDone(suite, Names(Collected(script, k))) != []
  {
    hide Unnamed, Names;
    var results := Collected(script, k);
    var left := NotDone(suite, Names(results));
    forall name ensures Unnamed(results, name) <==> name !in Names(results) {
      UnnamedIff(results, name);
    }
    if left != [] {
      assert left[0] in left;
      var i :| 0 <= i < |suite| && suite[i] == left[0];
      assert Unnamed(results, suite[i].name);
    }
    if i :| 0 <= i < |suite| && Unnamed(results, suite[i].name) {
      assert suite[i] in left;
    }
  }

  lemma FillInsSkip(suite: seq<Test>, results: seq<TestResult>)
    ensures SkipsTheRest(FillIns(NotDone(suite, Names(results))), suite, results)
  {
    hide Unnamed, Names, NotDone;
    var from := LeftPositions(suite, results, |suite|);
    assert suite[..|suite|] == suite;
    assert Skips(FillIns(NotDone(suite, Names(results))), suite, results, from);
  }

  lemma {:induction false} NotDoneLast(tests: seq<Test>, done: set<string>)
    requires tests != []
    ensures var n := |tests| - 1;
            NotDone(tests, done) == NotDone(tests[..n], done) + (if tests[n].name in done then [] else [tests[n]])
    decreases |tests|
  {
    var n := |tests| - 1;
    if n > 0 {
      var rest := tests[1..];
      NotDoneLast(rest, done);
      assert rest[..n - 1] == tests[..n][1..] && rest[n - 1] == tests[n];
      var first, last := if tests[0].name in done then [] else [tests[0]], if tests[n].name in done then [] else [tests[n]];
      assert first + (NotDone(rest[..n - 1], done) + last) == first + NotDone(rest[..n - 1], done) + last;
    }
  }

  lemma NothingNotDone(done: set<string>)
    ensures NotDone([], done) == []
  {}

  /** The tests left over of the first `n` stand at these positions. */
  ghost predicate StandAt(left: seq<Test>, suite: seq<Test>, n: nat, results: seq<TestResult>, from: seq<nat>) {
    && |from| == |left| && n <= |suite| && (forall i, j :: 0 <= i < j < |from| ==> from[i] < from[j])
    && (forall i :: 0 <= i < |from| ==> from[i] < n && left[i] == suite[from[i]])
    && (forall k :: 0 <= k < n ==> (k in from <==> Unnamed(results, suite[k].name)))
  }

  lemma OneMoreStands(left: seq<Test>, suite: seq<Test>, n: nat, results: seq<TestResult>, from: seq<nat>)
    requires StandAt(left, suite, n, results, from) && n < |suite|
    ensures if Unnamed(results, suite[n].name) then StandAt(left + [suite[n]], suite, n + 1, results, from + [n])
            else StandAt(left, suite, n + 1, results, from)
  {
    hide Unnamed;
    var more := from + [n];
    assert forall k :: 0 <= k < n ==> (k in more <==> k in from);
  }

  lemma {:induction false} LeftPositions(suite: seq<Test>, results: seq<TestResult>, n: nat) returns (from: seq<nat>)
    requires n <= |suite|
    ensures StandAt(NotDone(suite[..n], Names(results)), suite, n, results, from)
  {
    hide Unnamed, Names, NotDone;
    if n == 0 {
      from := [];
      NothingNotDone(Names(results));
      assert suite[..0] == [];
    } else {
      hide StandAt;
      from := LeftPositions(suite, results, n - 1);
      NotDoneLast(suite[..n], Names(results));
      UnnamedIff(results, suite[n - 1].name);
      var left := NotDone(suite[..n - 1], Names(results));
      OneMoreStands(left, suite, n - 1, results, from);
      assert suite[..n][..n - 1] == suite[..n - 1];
      if Unnamed(results, suite[n - 1].name) {
        from := from + [n - 1];
      } else {
        assert left + [] == left;
      }
    }
  }

  /** The loop from turn `k` on, with what it has collected so far, comes to where it ends. */
  lemma {:induction false} DriveEndsFrom(suite: seq<Test>, script: seq<Turn>, k: nat) returns (last: nat)
    requires k <= |script|
    ensures k <= last <= |script| && forall j :: k <= j < last ==> TakesRound(suite, script, j)
    ensures var results := Collected(script, k);
            var d := DriveFrom(suite, NotDone(suite, Names(results)), results, script[k..]);
            EndsAt(suite, script, last, d.(restarts := d.restarts + RestartsFor(script, k)))
    decreases |script| - k
  {
    hide NotDone, Names, SomeLeft, SkipsTheRest;
    var results := Collected(script, k);
    var left := NotDone(suite, Names(results));
    LeftIff(suite, script, k);
    last := k;
    if left != [] && k < |script| && !script[k].stop {
      assert script[k..][0] == script[k] && script[k..][1..] == script[k + 1..];
      if script[k].round.end.TimedOut? {
        var collected := Collected(script, k + 1);
        FillInsSkip(suite, collected);
        var fills := FillIns(NotDone(suite, Names(collected)));
        assert (collected + fills)[|collected|..] == fills;
      } else if Continues(script[k]) {
        last := DriveEndsFrom(suite, script, k + 1);
      }
    }
  }

  /**
    Where the loop ends and what it brings, for every script: it takes rounds, restarting the target after
    each kernel error, up to the first turn at which no test is left, the stop flag is up, or the round or
    the restart does not let it go on; it has collected every round's results, and after a timeout a
    skipped one for each test left.
   */
  lemma {:induction false} DriveEnds(suite: seq<Test>, script: seq<Turn>) returns (last: nat)
    ensures last <= |script| && forall j :: 0 <= j < last ==> TakesRound(suite, script, j)
    ensures EndsAt(suite, script, last, DriveFrom(suite, suite, [], script))
  {
    hide NotDone, Names;
    NothingDoneYet(suite);
    assert script[0..] == script;
    last := DriveEndsFrom(suite, script, 0);
  }

  // ---------------------------------------------------------------- when the loop does not end

  /** `n` rounds that record nothing and come back without error, or with a kernel error. */
  function BarrenScript(error: Option<KirkError>, n: nat): (script: seq<Turn>)
    ensures |script| == n && forall i :: 0 <= i < n ==> script[i] == Turn(false, Round([], Returned(error)), None)
  {
    seq(n, i => Turn(false, Round([], Returned(error)), None))
  }

  /** Without a result from any round the loop goes on without bound, restarting after every kernel error. */
  lemma {:induction false} LoopsForever(suite: seq<Test>, error: Option<KirkError>, n: nat)
    requires suite != [] && (error.Some? ==> IsKernelError(error.value))
    ensures DriveFrom(suite, suite, [], BarrenScript(error, n))
         == Drive([], if error.Some? then n else 0, ScriptOver)
  {
    if n > 0 {
      NothingDoneYet(suite);
      var script := BarrenScript(error, n);
      assert script[1..] == BarrenScript(error, n - 1);
      assert [] + script[0].round.results == [];
      LoopsForever(suite, error, n - 1);
    }
  }

  // ---------------------------------------------------------------- tests of one name

  /** What every result of a list is not called. */
  ghost predicate NoneNamed(results: seq<TestResult>, name: string) {
    forall k :: 0 <= k < |results| ==> results[k].test.name != name
  }

  /** Once a name has a result, no later result of a well-run loop bears it, fill-ins included. */
  lemma {:induction false} DoneNamesStayDone(suite: seq<Test>, left: seq<Test>, results: seq<TestResult>,
                                             script: seq<Turn>, name: string)
    requires WellRun(suite, left, results, script) && name in Names(results)
    requires forall t :: t in left ==> t.name != name
    ensures var d := DriveFrom(suite, left, results, script);
            results <= d.results && NoneNamed(d.results[|results|..], name)
    decreases |script|
  {
    hide LegalRound, Productive, NotDone, Names;
    if left != [] && script != [] && !script[0].stop {
      var round := script[0].round;
      var collected := results + round.results;
      var left' := NotDone(suite, Names(collected));
      LegalIsWithin(left, round);
      assert NoneNamed(round.results, name);
      NamesGrow(results, round.results);
      if Continues(script[0]) {
        DoneNamesStayDone(suite, left', collected, script[1..], name);
        var all := DriveFrom(suite, left', collected, script[1..]).results;
        assert all[|results|..] == round.results + all[|collected|..];
      } else {
        var all := DriveFrom(suite, left, results, script).results;
        if round.end.TimedOut? {
          assert all[|results|..] == round.results + FillIns(left');
        } else {
          assert all[|results|..] == round.results;
        }
      }
    }
  }

  lemma NamesGrow(results: seq<TestResult>, more: seq<TestResult>)
    ensures Names(results) <= Names(results + more)
  {
    assert forall r :: r in results ==> r in results + more;
  }

  /**
    Of two tests of one name, a round that records only one and returns a kernel error makes the loop
    forget the other: nothing of that name is left, and no later result, fill-ins included, bears it.
   */
  lemma RecordedNameIsForgotten(suite: seq<Test>, i: nat, j: nat, returncode: int, e: KirkError, rest: seq<Turn>)
    requires i < |suite| && j < |suite| && i != j && suite[i].name == suite[j].name && IsKernelError(e)
    requires var r := TestResult(suite[i], returncode, false);
             WellRun(suite, NotDone(suite, Names([r])), [r], rest)
    ensures var r := TestResult(suite[i], returncode, false);
            var d := DriveFrom(suite, suite, [], [Turn(false, Round([r], Returned(Some(e))), None)] + rest);
            && suite[j] !in NotDone(suite, Names([r]))
            && |d.results| >= 1 && d.results[0] == r && NoneNamed(d.results[1..], suite[j].name)
            && (d.ending.AllDone? || d.ending.SuiteTimedOut? ==> !Complete(suite, d.results))
  {
    hide WellRun;
    var r := TestResult(suite[i], returncode, false);
    var first := Turn(false, Round([r], Returned(Some(e))), None);
    var script := [first] + rest;
    assert r in [r] && [] + [r] == [r] && script[1..] == rest;
    DoneNamesStayDone(suite, NotDone(suite, Names([r])), [r], rest, suite[j].name);
    var d := DriveFrom(suite, suite, [], script);
    assert d.results == DriveFrom(suite, NotDone(suite, Names([r])), [r], rest).results;
    OneOfTheName(suite, i, j, d.results);
  }

  /** Results with a single one of a name are not complete for a suite with two tests of it. */
  lemma OneOfTheName(suite: seq<Test>, i: nat, j: nat, results: seq<TestResult>)
    requires i < |suite| && j < |suite| && i != j && suite[i].name == suite[j].name
    requires |results| >= 1 && results[0].test == suite[i] && NoneNamed(results[1..], suite[j].name)
    ensures !Complete(suite, results)
  {
    var tests := TestsOf(results);
    forall k | 1 <= k < |tests| ensures tests[k].name != suite[j].name {
      assert results[1..][k - 1] == results[k];
    }
    assert tests == [suite[i]] + tests[1..];
    assert suite[i] !in tests[1..] && suite[j] !in tests[1..];
    assert multiset(tests) == multiset{suite[i]} + multiset(tests[1..]);
    assert multiset(tests)[suite[i]] == 1;
    if suite[i] == suite[j] {
      TwiceIn(suite, i, j);
    } else {
      assert multiset(tests)[suite[j]] == 0;
      assert suite[j] in multiset(suite);
    }
  }

  lemma TwiceIn(tests: seq<Test>, i: nat, j: nat)
    requires i < |tests| && j < |tests| && i != j && tests[i] == tests[j]
    ensures multiset(tests)[tests[i]] >= 2
  {
    var m, n := if i < j then i else j, if i < j then j else i;
    assert tests == tests[..n] + ([tests[n]] + tests[n + 1..]);
    assert tests[..n][m] == tests[n];
    assert tests[m] in multiset(tests[..n]);
  }

  /** Whatever well-run rounds come, a loop that ends undisturbed has one result for each test. */
  ghost predicate AlwaysCompletes(suite: seq<Test>) {
    forall script: seq<Turn> :: WellRun(suite, suite, [], script) && |script| >= |suite| ==>
      var d := DriveFrom(suite, suite, [], script);
      d.ending.AllDone? || d.ending.SuiteTimedOut? ==> Complete(suite, d.results)
  }

  /** Results of every test, in order, with return code 0. */
  function Passes(tests: seq<Test>): (rs: seq<TestResult>)
    ensures |rs| == |tests| && forall k :: 0 <= k < |rs| ==> rs[k] == TestResult(tests[k], 0, false)
  {
    seq(|tests|, k requires 0 <= k < |tests| => TestResult(tests[k], 0, false))
  }

  lemma PassesAreLegal(tests: seq<Test>)
    ensures LegalRound(tests, Round(Passes(tests), Returned(None)))
    ensures Productive(tests, Round(Passes(tests), Returned(None)))
  {
    var from := seq(|tests|, k requires 0 <= k < |tests| => k as nat);
    assert StandsFor(tests, Passes(tests), from);
    forall t | t in tests ensures t.name in Names(Passes(tests)) {
      var k :| 0 <= k < |tests| && tests[k] == t;
      assert Passes(tests)[k] in Passes(tests);
    }
  }

  /** Turns after everything is done are never looked at. */
  function Idle(n: nat): (script: seq<Turn>)
    ensures |script| == n
  {
    seq(n, i => Turn(false, Round([], Returned(None)), None))
  }

  /** A well-run loop that goes wrong: the first round records one of the two tests, the second all that is left. */
  lemma DuplicateRuns(suite: seq<Test>, i: nat, j: nat)
    requires i < |suite| && j < |suite| && i != j && suite[i].name == suite[j].name
    ensures !AlwaysCompletes(suite)
  {
    hide WellRun, DriveFrom, Complete;
    var e := KernelPanic("");
    var r := TestResult(suite[i], 0, false);
    var left := NotDone(suite, Names([r]));
    var rest := [Turn(false, Round(Passes(left), Returned(None)), None)] + Idle(|suite|);
    var script := [Turn(false, Round([r], Returned(Some(e))), None)] + rest;
    RestIsWellRun(suite, left, [r]);
    FirstIsWellRun(suite, i, e, rest);
    RecordedNameIsForgotten(suite, i, j, 0, e, rest);
    FirstContinues(suite, i, e, rest);
    assert |script| >= |suite|;
  }

  lemma FirstIsWellRun(suite: seq<Test>, i: nat, e: KirkError, rest: seq<Turn>)
    requires i < |suite| && IsKernelError(e)
    requires var r := TestResult(suite[i], 0, false); WellRun(suite, NotDone(suite, Names([r])), [r], rest)
    ensures var r := TestResult(suite[i], 0, false);
            WellRun(suite, suite, [], [Turn(false, Round([r], Returned(Some(e))), None)] + rest)
  {
    hide NotDone, Names;
    var r := TestResult(suite[i], 0, false);
    var turn := Turn(false, Round([r], Returned(Some(e))), None);
    var script := [turn] + rest;
    assert script[0] == turn && script[1..] == rest && [] + [r] == [r];
    assert StandsFor(suite, [r], [i]);
  }

  lemma FirstContinues(suite: seq<Test>, i: nat, e: KirkError, rest: seq<Turn>)
    requires i < |suite| && IsKernelError(e)
    ensures var r := TestResult(suite[i], 0, false);
            DriveFrom(suite, suite, [], [Turn(false, Round([r], Returned(Some(e))), None)] + rest).ending
            == DriveFrom(suite, NotDone(suite, Names([r])), [r], rest).ending
  {
    hide NotDone, Names;
    var r := TestResult(suite[i], 0, false);
    var turn := Turn(false, Round([r], Returned(Some(e))), None);
    var script := [turn] + rest;
    assert script[0] == turn && script[1..] == rest && [] + [r] == [r];
  }

  lemma RestIsWellRun(suite: seq<Test>, left: seq<Test>, results: seq<TestResult>)
    requires left == NotDone(suite, Names(results))
    ensures var rest := [Turn(false, Round(Passes(left), Returned(None)), None)] + Idle(|suite|);
            WellRun(suite, left, results, rest) && DriveFrom(suite, left, results, rest).ending.AllDone?
  {
    var turn := Turn(false, Round(Passes(left), Returned(None)), None);
    var rest := [turn] + Idle(|suite|);
    assert rest[0] == turn && rest[1..] == Idle(|suite|);
    if left != [] {
      PassesAreLegal(left);
      EverythingRecorded(suite, results, turn.round);
    }
  }

  lemma EverythingRecorded(suite: seq<Test>, results: seq<TestResult>, round: Round)
    requires round.end == Returned(None) && Productive(NotDone(suite, Names(results)), round)
    ensures NotDone(suite, Names(results + round.results)) == []
  {
    var collected := results + round.results;
    forall t | t in suite ensures t.name in Names(collected) {
      if t.name in Names(results) {
        NamesGrow(results, round.results);
      } else {
        assert t in NotDone(suite, Names(results));
        var r :| r in round.results && r.test.name == t.name;
        assert r in collected;
      }
    }
    AllNamesDone(suite, Names(collected));
  }

  /**
    The exact condition on the suite: every well-run loop that ends undisturbed has exactly one result
    for each test if and only if the names of its tests are distinct.
   */
  lemma CompleteIffDistinct(suite: seq<Test>)
    ensures AlwaysCompletes(suite) <==> DistinctTests(suite)
  {
    hide WellRun, DriveFrom, Complete;
    if DistinctTests(suite) {
      forall script: seq<Turn> | WellRun(suite, suite, [], script) && |script| >= |suite|
        ensures var d := DriveFrom(suite, suite, [], script);
                d.ending.AllDone? || d.ending.SuiteTimedOut? ==> Complete(suite, d.results)
      {
        SuiteCompletes(suite, script);
      }
    } else {
      var i, j :| 0 <= i < j < |suite| && suite[i].name == suite[j].name;
      DuplicateRuns(suite, i, j);
    }
  }

  // ---------------------------------------------------------------- all suites

  /** One suite: its tests, the error reading the target's information ends with, if any, and its rounds. */
  datatype SuiteRun = SuiteRun(tests: seq<Test>, infoError: Option<KirkError>, script: seq<Turn>)

  datatype SuiteResult = SuiteResult(suite: nat, results: seq<TestResult>)

  function Driven(run: SuiteRun): Drive {
    DriveFrom(run.tests, run.tests, [], run.script)
  }

  /** The error a suite ends with; nothing is recorded when the information cannot be read. */
  function SuiteError(run: SuiteRun): Option<KirkError> {
    if run.infoError.Some? then run.infoError
    else match Driven(run).ending
         case Raised(e) => Some(e)
         case _ => None
  }

  /**
    Suites run one after another until one fails; every suite that was driven is recorded, the failing
    one included, with what it had collected.
   */
  method Schedule(runs: seq<SuiteRun>) returns (recorded: seq<SuiteResult>, error: Option<KirkError>)
    ensures runs == [] ==> recorded == [] && error.Some?
    ensures |recorded| <= |runs|
    ensures forall k :: 0 <= k < |recorded| ==>
              recorded[k] == SuiteResult(k, Driven(runs[k]).results) && runs[k].infoError.None?
    ensures forall k :: 0 <= k < |recorded| - 1 ==> SuiteError(runs[k]).None?
    ensures error.None? ==> |recorded| == |runs| && forall k :: 0 <= k < |runs| ==> SuiteError(runs[k]).None?
    ensures error.Some? && runs != [] ==>
              exists k :: 0 <= k < |runs| && SuiteError(runs[k]) == error
                && |recorded| == (if runs[k].infoError.Some? then k else k + 1)
  {
    recorded := [];
    if runs == [] {
      return [], Some(SchedulerError("jobs list is empty"));
    }
    for k := 0 to |runs|
      invariant |recorded| == k
      invariant forall m :: 0 <= m < k ==> recorded[m] == SuiteResult(m, Driven(runs[m]).results)
      invariant forall m :: 0 <= m < k ==> SuiteError(runs[m]).None?
    {
      if runs[k].infoError.Some? {
        return recorded, runs[k].infoError;
      }
      var results, restarts, ending := DriveSuite(runs[k].tests, runs[k].script);
      recorded := recorded + [SuiteResult(k, results)];
      match ending {
        case Raised(e) =>
          return recorded, Some(e);
        case _ =>
      }
    }
    return recorded, None;
  }
}
