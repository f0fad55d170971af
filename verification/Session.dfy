/**
  The `executed` file of a session: what a run appends to it, what a later session reads back, and
  which tests that later session still has to run.
 */
module Session {
  import opened Results
  import opened Characters
  import opened Reply

  datatype SuiteTest = SuiteTest(name: string, command: string)

  datatype Suite = Suite(name: string, tests: seq<SuiteTest>)

  /** The names under which one suite's results were recorded. */
  datatype SuiteResults = SuiteResults(suite: string, tests: seq<string>)

  type Pair = (string, string)

  // ---------------------------------------------------------------- writing

  function Line(pair: Pair): string {
    pair.0 + "::" + pair.1 + "\n"
  }

  function Written(pairs: seq<Pair>): string {
    if pairs == [] then "" else Written(pairs[..|pairs| - 1]) + Line(pairs[|pairs| - 1])
  }

  /** Every recorded (suite, test) pair, in order. */
  function PairsOf(results: seq<SuiteResults>): seq<Pair> {
    if results == [] then []
    else PairsOf(results[..|results| - 1]) + PairsUnder(results[|results| - 1])
  }

  function PairsUnder(r: SuiteResults): (ps: seq<Pair>)
    ensures |ps| == |r.tests| && forall i :: 0 <= i < |ps| ==> ps[i] == (r.suite, r.tests[i])
  {
    seq(|r.tests|, i requires 0 <= i < |r.tests| => (r.suite, r.tests[i]))
  }

  lemma {:induction false} WrittenAppend(xs: seq<Pair>, ys: seq<Pair>)
    ensures Written(xs + ys) == Written(xs) + Written(ys)
    decreases |ys|
  {
    if ys == [] {
      assert xs + ys == xs;
    } else {
      var n := |ys| - 1;
      WrittenAppend(xs, ys[..n]);
      assert (xs + ys)[..|xs + ys| - 1] == xs + ys[..n];
      assert Written(xs) + Written(ys[..n]) + Line(ys[n]) == Written(xs) + (Written(ys[..n]) + Line(ys[n]));
    }
  }

  lemma OneMoreLine(file: string, before: seq<Pair>, r: SuiteResults, i: nat)
    requires i < |r.tests|
    ensures file + Written(before + PairsUnder(r)[..i]) + Line((r.suite, r.tests[i]))
         == file + Written(before + PairsUnder(r)[..i + 1])
  {
    hide Line;
    var pairs := before + PairsUnder(r)[..i + 1];
    var init := pairs[..|pairs| - 1];
    assert init == before + PairsUnder(r)[..i] && pairs[|pairs| - 1] == (r.suite, r.tests[i]);
    assert file + (Written(init) + Line(pairs[|pairs| - 1])) == file + Written(init) + Line(pairs[|pairs| - 1]);
  }

  lemma OneMoreSuite(results: seq<SuiteResults>, k: nat)
    requires k < |results|
    ensures PairsOf(results[..k + 1]) == PairsOf(results[..k]) + PairsUnder(results[k])
  {
    assert results[..k + 1][..k] == results[..k];
  }

  method AppendExecuted(file: string, results: seq<SuiteResults>) returns (text: string)
    ensures text == file + Written(PairsOf(results))
  {
    hide Line, Written, PairsOf;
    text := file;
    assert text == file + Written(PairsOf(results[..0])) by { NothingToWrite(); }
    for k := 0 to |results|
      invariant text == file + Written(PairsOf(results[..k]))
    {
      var r := results[k];
      ghost var before := PairsOf(results[..k]);
      assert before + PairsUnder(r)[..0] == before;
      for i := 0 to |r.tests|
        invariant text == file + Written(before + PairsUnder(r)[..i])
      {
        OneMoreLine(file, before, r, i);
        text := text + Line((r.suite, r.tests[i]));
      }
      assert PairsUnder(r)[..|r.tests|] == PairsUnder(r);
      OneMoreSuite(results, k);
    }
    assert results[..|results|] == results;
  }

  lemma NothingToWrite()
    ensures Written(PairsOf([])) == ""
  {}

  // ---------------------------------------------------------------- reading

  /** The length of the first line, its newline included. */
  function LineLength(text: string): (n: nat)
    requires text != []
    ensures 0 < n <= |text| && (forall i :: 0 <= i < n - 1 ==> text[i] != '\n') && (n < |text| ==> text[n - 1] == '\n')
  {
    if text[0] == '\n' || |text| == 1 then 1 else 1 + LineLength(text[1..])
  }

  /** Where the first double colon starts. */
  function FirstColons(line: string): (r: Option<nat>)
    ensures match r
            case Some(i) => i + 1 < |line| && line[i] == ':' && line[i + 1] == ':'
                            && forall k :: 0 <= k < i ==> !(line[k] == ':' && line[k + 1] == ':')
            case None => forall k :: 0 <= k < |line| - 1 ==> !(line[k] == ':' && line[k + 1] == ':')
  {
    if |line| < 2 then None
    else if line[0] == ':' && line[1] == ':' then Some(0)
    else match FirstColons(line[1..])
         case None =>
           assert forall k :: 1 <= k < |line| - 1 ==> line[k] == line[1..][k - 1] && line[k + 1] == line[1..][k];
           None
         case Some(i) =>
           assert forall k :: 1 <= k < i + 1 ==> line[k] == line[1..][k - 1] && line[k + 1] == line[1..][k];
           Some(i + 1)
  }

  /** What one line of the file says, if anything. */
  function ReadLine(line: string): Option<Pair> {
    match FirstColons(line)
    case None => None
    case Some(i) =>
      var suite, test := line[..i], TrimEnd(line[i + 2..]);
      if suite == [] || test == [] then None else Some((suite, test))
  }

  function ReadExecuted(text: string): seq<Pair>
    decreases |text|
  {
    if text == [] then []
    else
      var n := LineLength(text);
      (match ReadLine(text[..n])
       case None => []
       case Some(pair) => [pair])
      + ReadExecuted(text[n..])
  }

  /** The tests recorded under one suite, in order. */
  function Under(pairs: seq<Pair>, suite: string): seq<string> {
    if pairs == [] then []
    else Under(pairs[..|pairs| - 1], suite)
         + (if pairs[|pairs| - 1].0 == suite then [pairs[|pairs| - 1].1] else [])
  }

  ghost predicate Collects(data: map<string, seq<string>>, pairs: seq<Pair>) {
    forall suite :: (if suite in data then data[suite] else []) == Under(pairs, suite)
  }

  lemma CollectOne(data: map<string, seq<string>>, pairs: seq<Pair>, suite: string, test: string)
    requires Collects(data, pairs)
    ensures Collects(data[suite := (if suite in data then data[suite] else []) + [test]], pairs + [(suite, test)])
  {
    var longer := pairs + [(suite, test)];
    assert longer[..|longer| - 1] == pairs;
    var data' := data[suite := (if suite in data then data[suite] else []) + [test]];
    forall name ensures (if name in data' then data'[name] else []) == Under(longer, name) {
      assert (if name in data then data[name] else []) == Under(pairs, name);
    }
  }

  lemma ReadOneLine(text: string)
    requires text != []
    ensures var n := LineLength(text);
            ReadExecuted(text) == (if ReadLine(text[..n]).None? then [] else [ReadLine(text[..n]).value]) + ReadExecuted(text[n..])
  {
    hide LineLength, ReadLine;
  }

  method ReadRestoredSession(text: string) returns (data: map<string, seq<string>>)
    ensures Collects(data, ReadExecuted(text))
  {
    hide ReadExecuted, LineLength, FirstColons, TrimEnd, Collects;
    data := map[];
    ghost var pairs: seq<Pair> := [];
    assert Collects(data, pairs) by { NothingCollected(); }
    assert pairs + ReadExecuted(text[0..]) == ReadExecuted(text) by { assert text[0..] == text; }
    var at := 0;
    while at < |text|
      invariant at <= |text|
      invariant pairs + ReadExecuted(text[at..]) == ReadExecuted(text)
      invariant Collects(data, pairs)
    {
      ReadOneLine(text[at..]);
      var n := LineLength(text[at..]);
      var line := text[at..][..n];
      assert text[at..][n..] == text[at + n..];
      ghost var rest := ReadExecuted(text[at + n..]);
      assert [] + rest == rest;
      at := at + n;
      var colons := FirstColons(line);
      if colons.None? {
        continue;
      }
      var suite, test := line[..colons.value], TrimEnd(line[colons.value + 2..]);
      if suite == [] || test == [] {
        continue;
      }
      CollectOne(data, pairs, suite, test);
      assert pairs + ([(suite, test)] + rest) == pairs + [(suite, test)] + rest;
      pairs := pairs + [(suite, test)];
      data := data[suite := (if suite in data then data[suite] else []) + [test]];
    }
    assert pairs + ReadExecuted([]) == pairs by { NothingWritten(); }
    assert text[at..] == [];
  }

  lemma NothingCollected()
    ensures Collects(map[], [])
  {}

  // ---------------------------------------------------------------- reading back what was written

  /** The line's first double colon is the one behind the suite, and nothing is trimmed or left out. */
  predicate Recoverable(pair: Pair) {
    && pair.0 != [] && FirstColons(pair.0 + ":").None?
    && pair.1 != [] && !IsSpace(pair.1[|pair.1| - 1])
  }

  predicate OneLine(pair: Pair) {
    '\n' !in pair.0 && '\n' !in pair.1
  }

  lemma SplitAtSuite(pair: Pair)
    ensures var line := Line(pair);
            && FirstColons(line).Some? && FirstColons(line).value <= |pair.0|
            && (FirstColons(line).value == |pair.0| <==> FirstColons(pair.0 + ":").None?)
            && line[..|pair.0|] == pair.0 && line[|pair.0| + 2..] == pair.1 + "\n"
  {
    var line, marked := Line(pair), pair.0 + ":";
    assert line == marked + (":" + pair.1 + "\n");
    assert forall k :: 0 <= k < |marked| ==> line[k] == marked[k];
    assert line[|pair.0|] == ':' && line[|pair.0| + 1] == ':';
    assert forall k :: 0 <= k < |marked| - 1 ==>
             ((line[k] == ':' && line[k + 1] == ':') <==> (marked[k] == ':' && marked[k + 1] == ':'));
  }

  lemma TrimsNewline(test: string)
    ensures TrimEnd(test + "\n") == TrimEnd(test)
  {
    var s := test + "\n";
    assert s[..|s| - 1] == test;
  }

  /** One line is read back as the pair it was written from if and only if the pair is recoverable. */
  lemma LineReadBackIff(pair: Pair)
    ensures ReadLine(Line(pair)) == Some(pair) <==> Recoverable(pair)
  {
    hide FirstColons, Line;
    SplitAtSuite(pair);
    TrimsNewline(pair.1);
    if pair.1 != [] && !IsSpace(pair.1[|pair.1| - 1]) {
      TrimmedStays(pair.1);
    }
  }

  /** A suite whose name holds a double colon is read back as another suite with another test. */
  lemma ColonsMoveTheSplit()
    ensures ReadLine(Line(("a::b", "t"))) == Some(("a", "b::t"))
  {
    var line := Line(("a::b", "t"));
    assert line == "a::b::t\n";
    assert line[0] == 'a' && line[1] == ':' && line[2] == ':';
    assert FirstColons(line) == Some(1);
    assert line[..1] == "a" && line[3..] == "b::t" + "\n";
    TrimsNewline("b::t");
    TrimmedStays("b::t");
  }

  /** The first line of a file that starts with a pair's line is that line. */
  lemma FirstLineIs(pair: Pair, rest: string)
    requires OneLine(pair)
    ensures var text := Line(pair) + rest;
            LineLength(text) == |Line(pair)| && text[..|Line(pair)|] == Line(pair) && text[|Line(pair)|..] == rest
  {
    var line := Line(pair);
    var text := line + rest;
    assert forall i :: 0 <= i < |line| - 1 ==> text[i] == line[i] != '\n';
    assert text[|line| - 1] == line[|line| - 1] == '\n';
  }

  lemma {:induction false} WrittenHead(pairs: seq<Pair>)
    requires pairs != []
    ensures Written(pairs) == Line(pairs[0]) + Written(pairs[1..])
  {
    assert pairs == pairs[..1] + pairs[1..];
    WrittenAppend(pairs[..1], pairs[1..]);
    assert pairs[..1][..0] == [] && Written(pairs[..1]) == Line(pairs[0]);
  }

  /** Every line of the written file is read on its own. */
  lemma {:induction false} ReadsLineByLine(pairs: seq<Pair>)
    requires pairs != [] && OneLine(pairs[0])
    ensures var first := ReadLine(Line(pairs[0]));
            ReadExecuted(Written(pairs)) == (if first.None? then [] else [first.value]) + ReadExecuted(Written(pairs[1..]))
  {
    hide Line, ReadLine, LineLength;
    WrittenHead(pairs);
    FirstLineIs(pairs[0], Written(pairs[1..]));
    assert |Line(pairs[0])| > 0 by { LineNotEmpty(pairs[0]); }
  }

  lemma LineNotEmpty(pair: Pair)
    ensures |Line(pair)| > 0
  {}

  lemma {:induction false} NoMorePairsThanLines(pairs: seq<Pair>)
    requires forall i :: 0 <= i < |pairs| ==> OneLine(pairs[i])
    ensures |ReadExecuted(Written(pairs))| <= |pairs|
    decreases |pairs|
  {
    hide ReadLine, Line, OneLine, Written;
    if pairs == [] {
      assert ReadExecuted(Written(pairs)) == [] by { NothingWritten(); }
    } else {
      ReadsLineByLine(pairs);
      NoMorePairsThanLines(pairs[1..]);
    }
  }

  lemma NothingWritten()
    ensures ReadExecuted(Written([])) == []
  {}

  /**
    Reading back the file of a run gives exactly the recorded pairs, in order, if and only if every pair
    is recoverable: for names without newlines, there is no other way to lose or change one.
   */
  lemma {:induction false} ExecutedReadBackIff(pairs: seq<Pair>)
    requires forall i :: 0 <= i < |pairs| ==> OneLine(pairs[i])
    ensures ReadExecuted(Written(pairs)) == pairs <==> forall i :: 0 <= i < |pairs| ==> Recoverable(pairs[i])
    decreases |pairs|
  {
    hide ReadExecuted, ReadLine, Line, OneLine, Written, Recoverable;
    if pairs == [] {
      NothingWritten();
    } else {
      var rest := pairs[1..];
      ReadsLineByLine(pairs);
      LineReadBackIff(pairs[0]);
      NoMorePairsThanLines(rest);
      ExecutedReadBackIff(rest);
      assert pairs == [pairs[0]] + rest;
      assert forall i :: 0 <= i < |rest| ==> rest[i] == pairs[i + 1];
      var read := ReadExecuted(Written(rest));
      if ReadLine(Line(pairs[0])) == Some(pairs[0]) {
        assert ([pairs[0]] + read)[1..] == read;
      }
    }
  }

  // ---------------------------------------------------------------- restoring

  /** The tests whose name is not among `done`. */
  function NotYet(tests: seq<SuiteTest>, done: seq<string>): (kept: seq<SuiteTest>)
    ensures forall t :: t in kept <==> t in tests && t.name !in done
  {
    if tests == [] then []
    else NotYet(tests[..|tests| - 1], done)
         + (if tests[|tests| - 1].name !in done then [tests[|tests| - 1]] else [])
  }

  predicate Remains(t: SuiteTest, done: seq<string>) {
    t.name !in done
  }

  /** Where each remaining test stood: the positions ascend, and none that should remain is missing. */
  lemma {:induction false} NotYetKeepsOrder(tests: seq<SuiteTest>, done: seq<string>) returns (from: seq<nat>)
    ensures |from| == |NotYet(tests, done)|
    ensures forall i, j :: 0 <= i < j < |from| ==> from[i] < from[j]
    ensures forall i :: 0 <= i < |from| ==> from[i] < |tests| && NotYet(tests, done)[i] == tests[from[i]]
    ensures forall k :: 0 <= k < |tests| && Remains(tests[k], done) ==> k in from
    decreases |tests|
  {
    hide NotYet, Remains;
    LastNotYet(tests, done);
    if tests == [] {
      from := [];
    } else {
      var n := |tests| - 1;
      from := NotYetKeepsOrder(tests[..n], done);
      if Remains(tests[n], done) {
        from := from + [n];
      }
      forall k | 0 <= k < |tests| && Remains(tests[k], done) ensures k in from {
        if k < n {
          assert Remains(tests[..n][k], done);
        }
      }
    }
  }

  lemma LastNotYet(tests: seq<SuiteTest>, done: seq<string>)
    ensures tests == [] ==> NotYet(tests, done) == []
    ensures tests != [] ==>
      var n := |tests| - 1;
      NotYet(tests, done) == NotYet(tests[..n], done) + (if Remains(tests[n], done) then [tests[n]] else [])
  {}

  /** The suite without the tests recorded under its name. */
  function Remaining(suite: Suite, data: map<string, seq<string>>): Suite {
    Suite(suite.name, NotYet(suite.tests, if suite.name in data then data[suite.name] else []))
  }

  /** Rewrites every suite in place. */
  method RestoreTests(suites: array<Suite>, data: map<string, seq<string>>)
    modifies suites
    ensures forall i :: 0 <= i < suites.Length ==> suites[i] == Remaining(old(suites[i]), data)
  {
    hide NotYet;
    if data == map[] {
      forall i | 0 <= i < suites.Length ensures suites[i] == Remaining(suites[i], data) {
        NoneDone(suites[i].tests, []);
      }
      return;
    }
    for k := 0 to suites.Length
      invariant forall i :: 0 <= i < k ==> suites[i] == Remaining(old(suites[i]), data)
      invariant forall i :: k <= i < suites.Length ==> suites[i] == old(suites[i])
    {
      var suite := suites[k];
      if suite.name !in data {
        NoneDone(suite.tests, []);
        continue;
      }
      var kept := KeepNotDone(suite.tests, data[suite.name]);
      suites[k] := Suite(suite.name, kept);
    }
  }

  method KeepNotDone(tests: seq<SuiteTest>, done: seq<string>) returns (kept: seq<SuiteTest>)
    ensures kept == NotYet(tests, done)
  {
    kept := [];
    for i := 0 to |tests|
      invariant kept == NotYet(tests[..i], done)
    {
      assert tests[..i + 1][..i] == tests[..i];
      if tests[i].name !in done {
        kept := kept + [tests[i]];
      }
    }
    assert tests[..|tests|] == tests;
  }

  lemma {:induction false} NoneDone(tests: seq<SuiteTest>, done: seq<string>)
    requires forall t :: t in tests ==> t.name !in done
    ensures NotYet(tests, done) == tests
    decreases |tests|
  {
    if tests != [] {
      var n := |tests| - 1;
      assert tests == tests[..n] + [tests[n]];
      NoneDone(tests[..n], done);
    }
  }

  lemma {:induction false} UnderIsRecorded(pairs: seq<Pair>, suite: string)
    ensures forall name :: name in Under(pairs, suite) <==> (suite, name) in pairs
    decreases |pairs|
  {
    if pairs != [] {
      var n := |pairs| - 1;
      UnderIsRecorded(pairs[..n], suite);
      assert pairs == pairs[..n] + [pairs[n]];
    }
  }

  /**
    Restoring from the file of a run leaves of each suite exactly the tests not recorded under its name;
    together with the recorded ones they are the whole suite.
   */
  lemma {:induction false} RestoreComplementsExecution(pairs: seq<Pair>, data: map<string, seq<string>>, suite: Suite)
    requires forall i :: 0 <= i < |pairs| ==> OneLine(pairs[i]) && Recoverable(pairs[i])
    requires Collects(data, ReadExecuted(Written(pairs)))
    ensures forall t :: t in Remaining(suite, data).tests <==> t in suite.tests && (suite.name, t.name) !in pairs
    ensures forall t :: t in suite.tests ==> ((suite.name, t.name) in pairs) != (t in Remaining(suite, data).tests)
  {
    ExecutedReadBackIff(pairs);
    UnderIsRecorded(pairs, suite.name);
  }

  // ---------------------------------------------------------------- iterating

  function IteratedName(name: string, i: nat): string {
    name + "[" + Decimal(i) + "]"
  }

  function Iterations(suite: Suite, iterate: nat): (out: seq<Suite>)
    ensures |out| == iterate
    ensures forall i :: 0 <= i < iterate ==> out[i] == Suite(IteratedName(suite.name, i), suite.tests)
  {
    seq(iterate, i requires 0 <= i < iterate => Suite(IteratedName(suite.name, i), suite.tests))
  }

  function Iterated(suites: seq<Suite>, iterate: nat): seq<Suite> {
    if suites == [] then []
    else Iterated(suites[..|suites| - 1], iterate) + Iterations(suites[|suites| - 1], iterate)
  }

  /** The suites a run with `iterate` executes, under the names it records them by. */
  function Executed(suites: seq<Suite>, iterate: nat): seq<Suite> {
    if iterate <= 1 then suites else Iterated(suites, iterate)
  }

  method ApplyIterate(suites: seq<Suite>, iterate: nat) returns (out: seq<Suite>)
    ensures out == Executed(suites, iterate)
  {
    if iterate <= 1 {
      return suites;
    }
    out := [];
    for k := 0 to |suites|
      invariant out == Iterated(suites[..k], iterate)
    {
      ghost var before := out;
      for i := 0 to iterate
        invariant out == before + Iterations(suites[k], iterate)[..i]
      {
        out := out + [Suite(IteratedName(suites[k].name, i), suites[k].tests)];
      }
      assert Iterations(suites[k], iterate)[..iterate] == Iterations(suites[k], iterate);
      assert suites[..k + 1][..k] == suites[..k];
    }
    assert suites[..|suites|] == suites;
  }

  lemma {:induction false} OneMoreRow(k: int, width: int)
    ensures (k + 1) * width == k * width + width
  {}

  lemma {:induction false} Rows(k: nat, n: nat, width: nat)
    requires k < n
    ensures k * width + width <= n * width
    decreases n
  {
    OneMoreRow(n - 1, width);
    if k < n - 1 {
      Rows(k, n - 1, width);
    }
  }

  lemma {:induction false} IteratedCount(suites: seq<Suite>, iterate: nat)
    ensures |Iterated(suites, iterate)| == |suites| * iterate
    decreases |suites|
  {
    hide IteratedName;
    if suites != [] {
      IteratedCount(suites[..|suites| - 1], iterate);
      OneMoreRow(|suites| - 1, iterate);
    }
  }

  lemma {:induction false} IteratedStand(suites: seq<Suite>, iterate: nat, k: nat, i: nat)
    requires k < |suites| && i < iterate
    ensures k * iterate + i < |Iterated(suites, iterate)|
    ensures Iterated(suites, iterate)[k * iterate + i] == Suite(IteratedName(suites[k].name, i), suites[k].tests)
    decreases |suites|
  {
    hide IteratedName;
    var n := |suites| - 1;
    var at := k * iterate + i;
    Rows(k, |suites|, iterate);
    IteratedCount(suites, iterate);
    IteratedCount(suites[..n], iterate);
    if k < n {
      IteratedStand(suites[..n], iterate, k, i);
      assert at < |Iterated(suites[..n], iterate)|;
    } else {
      assert at == |Iterated(suites[..n], iterate)| + i;
    }
  }

  /**
    What a run executes: up to one iteration the suites themselves; beyond, each in its turn as often as
    asked, with its own tests, and its name followed by the number of the iteration in brackets.
   */
  lemma ExecutedAre(suites: seq<Suite>, iterate: nat)
    ensures iterate <= 1 ==> Executed(suites, iterate) == suites
    ensures iterate > 1 && suites != [] ==> |Executed(suites, iterate)| == |suites| * iterate
    ensures forall k, i :: 0 <= k < |suites| && 0 <= i < iterate && iterate > 1 ==> ExecutedAs(suites, iterate, k, i)
  {
    hide Iterated;
    if iterate > 1 {
      IteratedCount(suites, iterate);
      forall k, i | 0 <= k < |suites| && 0 <= i < iterate ensures ExecutedAs(suites, iterate, k, i) {
        IteratedStand(suites, iterate, k, i);
        var digits := Decimal(i);
        assert Value(digits) == i;
      }
    }
  }

  /** Iteration `i` of suite `k`, where it stands. */
  ghost predicate ExecutedAs(suites: seq<Suite>, iterate: nat, k: nat, i: nat)
    requires k < |suites|
  {
    var at := k * iterate + i;
    at < |Executed(suites, iterate)| &&
    exists digits :: AsciiDigits(digits) && Value(digits) == i && (|digits| > 1 ==> digits[0] != '0')
      && Executed(suites, iterate)[at] == Suite(suites[k].name + "[" + digits + "]", suites[k].tests)
  }

  lemma {:induction false} IteratedNamesEndInBracket(suites: seq<Suite>, iterate: nat)
    ensures forall s :: s in Iterated(suites, iterate) ==> s.name != [] && s.name[|s.name| - 1] == ']'
    decreases |suites|
  {
    if suites != [] {
      IteratedNamesEndInBracket(suites[..|suites| - 1], iterate);
    }
  }

  ghost predicate NamedIn(suites: seq<Suite>, name: string) {
    exists s :: s in suites && s.name == name
  }

  /** Restoring takes nothing from a suite if and only if none of its tests is recorded under its name. */
  lemma {:induction false} RestoreTakesNothingIff(pairs: seq<Pair>, data: map<string, seq<string>>, suite: Suite)
    requires forall i :: 0 <= i < |pairs| ==> OneLine(pairs[i]) && Recoverable(pairs[i])
    requires Collects(data, ReadExecuted(Written(pairs)))
    ensures Remaining(suite, data) == suite <==> forall t :: t in suite.tests ==> (suite.name, t.name) !in pairs
  {
    hide NotYet, Recoverable, OneLine, ReadExecuted, Written, Under;
    ExecutedReadBackIff(pairs);
    UnderIsRecorded(pairs, suite.name);
    if forall t :: t in suite.tests ==> (suite.name, t.name) !in pairs {
      NoneDone(suite.tests, Under(pairs, suite.name));
    }
  }

  /**
    What a run with more than one iteration records is under other names: restoring from it takes nothing
    from a suite whose own name does not end in a bracket.
   */
  lemma {:induction false} IterationDefeatsRestore(suites: seq<Suite>, iterate: nat, pairs: seq<Pair>, data: map<string, seq<string>>, suite: Suite)
    requires iterate > 1
    requires forall i :: 0 <= i < |pairs| ==>
               OneLine(pairs[i]) && Recoverable(pairs[i]) && NamedIn(Executed(suites, iterate), pairs[i].0)
    requires Collects(data, ReadExecuted(Written(pairs)))
    requires suite.name == [] || suite.name[|suite.name| - 1] != ']'
    ensures Remaining(suite, data) == suite
  {
    hide Recoverable, OneLine, ReadExecuted, Written, Iterated, Remaining;
    IteratedNamesEndInBracket(suites, iterate);
    forall i | 0 <= i < |pairs| ensures pairs[i].0 != suite.name {
      assert NamedIn(Executed(suites, iterate), pairs[i].0);
    }
    RestoreTakesNothingIff(pairs, data, suite);
  }

  /** A suite that bears an iterated name of another one does lose the tests the other one ran. */
  lemma IteratedNameCanCollide(suite: Suite, t: SuiteTest, iterate: nat)
    requires t in suite.tests && iterate > 1
    requires OneLine((IteratedName(suite.name, 0), t.name)) && Recoverable((IteratedName(suite.name, 0), t.name))
    ensures NamedIn(Executed([suite], iterate), IteratedName(suite.name, 0))
    ensures var pairs := [(IteratedName(suite.name, 0), t.name)];
            forall data: map<string, seq<string>> :: Collects(data, ReadExecuted(Written(pairs))) ==>
              t !in Remaining(Suite(IteratedName(suite.name, 0), suite.tests), data).tests
  {
    hide Recoverable, OneLine, ReadExecuted, Written, IteratedName, NotYet;
    var name := IteratedName(suite.name, 0);
    var pairs := [(name, t.name)];
    assert [suite][..0] == [];
    assert Iterated([suite], iterate) == [] + Iterations(suite, iterate);
    assert Iterations(suite, iterate)[0] in Executed([suite], iterate);
    forall data: map<string, seq<string>> | Collects(data, ReadExecuted(Written(pairs)))
      ensures t !in Remaining(Suite(name, suite.tests), data).tests
    {
      RestoreComplementsExecution(pairs, data, Suite(name, suite.tests));
      assert (name, t.name) in pairs;
    }
  }
}
