/**
  `run_tests`: filter, then list or run, feeding every outcome to the
  printer and to the conclusion (src/lib.rs). The runner is a parameter.
  On the thread-pool path the order in which the channel delivers
  completions is a parameter too: any reordering of what was sent.
 */
module Runner {
  import opened Text
  import opened Collections
  import opened Args
  import opened Harness
  import opened Printer

  /** What `run_tests` produces: after `--list`, the list that is printed;
      otherwise the conclusion, the failure list and everything written. */
  datatype Run =
    | Listed(tests: seq<Test>)
    | Completed(conclusion: Conclusion, failed: seq<Failure>, output: seq<Effect>)
  {
    /** The `Conclusion` `run_tests` returns: all zeros after listing. */
    function Result(): Conclusion {
      if Listed? then EmptyConclusion() else conclusion
    }
  }

  /** Only a thread count of exactly one runs the tests on the calling
      thread. */
  predicate Sequential(args: Arguments) {
    args.numThreads == Some(1)
  }

  /** On the thread-pool path every sent completion is received exactly
      once, in some order. */
  predicate ValidDelivery(args: Arguments, tests: seq<Test>, runner: Test -> Outcome, delivered: seq<Completion>) {
    Sequential(args) || multiset(delivered) == multiset(Completions(args, Prefilter(args, tests).kept, runner))
  }

  /** The runner never answers `Measured` for a test it is asked to run,
      that is a test that survives filtering and is not ignored: the printer
      has no text for that outcome. A listing asks the runner nothing. */
  predicate RunnerPrintable(args: Arguments, tests: seq<Test>, runner: Test -> Outcome) {
    args.list || forall t :: t in Prefilter(args, tests).kept && !IsIgnored(args, t) ==> !runner(t).Measured?
  }

  /** The order in which `handle_outcome` sees the completions. */
  function Arrivals(args: Arguments, kept: seq<Test>, runner: Test -> Outcome, delivered: seq<Completion>): seq<Completion> {
    if Sequential(args) then Completions(args, kept, runner) else delivered
  }

  /** `Conclusion::empty()` carrying the number of filtered-out tests, and no
      failures yet. */
  function StartTally(sel: Selection): Tally {
    Tally(EmptyConclusion().(numFilteredOut := sel.numFilteredOut), [])
  }

  /** The conclusion and failure list of a run that is not a listing. */
  function Aggregate(args: Arguments, tests: seq<Test>, runner: Test -> Outcome, delivered: seq<Completion>): Tally
    requires ValidDelivery(args, tests, runner, delivered)
  {
    var sel := Prefilter(args, tests);
    Drain(StartTally(sel), Arrivals(args, sel.kept, runner, delivered))
  }

  /** Whatever the delivery order, every completion has a printable outcome. */
  lemma ArrivalsPrintable(args: Arguments, tests: seq<Test>, runner: Test -> Outcome, delivered: seq<Completion>)
    requires ValidDelivery(args, tests, runner, delivered)
    requires RunnerPrintable(args, tests, runner) && !args.list
    ensures Printable(Arrivals(args, Prefilter(args, tests).kept, runner, delivered))
  {
    var kept := Prefilter(args, tests).kept;
    var cs := Completions(args, kept, runner);
    assert Printable(cs) by {
      forall i | 0 <= i < |cs|
        ensures !cs[i].outcome.Measured?
      {
        assert kept[i] in kept;
      }
    }
    if !Sequential(args) {
      forall i | 0 <= i < |delivered|
        ensures !delivered[i].outcome.Measured?
      {
        assert delivered[i] in multiset(cs);
      }
    }
  }

  /** `run_tests`. */
  function RunTests(args: Arguments, tests: seq<Test>, runner: Test -> Outcome, delivered: seq<Completion>): (r: Run)
    requires ValidDelivery(args, tests, runner, delivered)
    requires RunnerPrintable(args, tests, runner)
    ensures r.Listed? <==> args.list
    ensures r.Listed? ==> r.tests == Prefilter(args, tests).kept && r.Result() == EmptyConclusion()
    ensures r.Completed? ==> Tally(r.conclusion, r.failed) == Aggregate(args, tests, runner, delivered)
  {
    var sel := Prefilter(args, tests);
    var p := NewPrinter(args, sel.kept);
    if args.list then Listed(sel.kept)
    else
      var arrived := Arrivals(args, sel.kept, runner, delivered);
      ArrivalsPrintable(args, tests, runner, delivered);
      var t := Drain(StartTally(sel), arrived);
      var listing := PrintFailures(t.failed);
      Completed(t.conclusion, t.failed,
        PrintTitle(p, |sel.kept|) + Report(p, arrived) + listing + PrintSummary(p, t.conclusion))
  }

  /** Every test of the catalog is accounted for exactly once: filtered out,
      passed, failed, ignored or measured; and the failure list holds one
      entry per failure. */
  lemma {:induction false} AggregateAccountsForEveryTest(
    args: Arguments, tests: seq<Test>, runner: Test -> Outcome, delivered: seq<Completion>)
    requires ValidDelivery(args, tests, runner, delivered)
    ensures var t := Aggregate(args, tests, runner, delivered);
      var measured := Count(Arrivals(args, Prefilter(args, tests).kept, runner, delivered), IsMeasured);
      && t.conclusion.numFilteredOut + t.conclusion.numPassed + t.conclusion.numFailed
         + t.conclusion.numIgnored + measured == |tests|
      && |t.failed| == t.conclusion.numFailed
  {
    var sel := Prefilter(args, tests);
    var arrived := Arrivals(args, sel.kept, runner, delivered);
    OutcomeKindsPartition(arrived);
    if !Sequential(args) {
      assert |arrived| == |multiset(arrived)| == |multiset(Completions(args, sel.kept, runner))|;
    }
  }

  /** The thread pool reaches the same conclusion as the sequential loop,
      whatever order the completions arrive in, and reports the same
      failures, possibly reordered. */
  lemma PoolAgreesWithSequential(
    args: Arguments, tests: seq<Test>, runner: Test -> Outcome, delivered: seq<Completion>)
    requires !Sequential(args)
    requires ValidDelivery(args, tests, runner, delivered)
    ensures var sequential := args.(numThreads := Some(1));
      && Aggregate(args, tests, runner, delivered).conclusion == Aggregate(sequential, tests, runner, []).conclusion
      && multiset(Aggregate(args, tests, runner, delivered).failed) == multiset(Aggregate(sequential, tests, runner, []).failed)
  {
    var sequential := args.(numThreads := Some(1));
    var sel := Prefilter(args, tests);
    assert Prefilter(sequential, tests) == sel by {
      assert forall t :: IsFilteredOut(sequential, t) == IsFilteredOut(args, t);
      RetainSameFilter(args, sequential, tests);
    }
    assert Completions(sequential, sel.kept, runner) == Completions(args, sel.kept, runner);
    DrainOrderIndependent(StartTally(sel), delivered, Completions(args, sel.kept, runner));
  }

  /** Two configurations that filter alike keep the same tests. */
  lemma {:induction false} RetainSameFilter(a: Arguments, b: Arguments, tests: seq<Test>)
    requires forall t :: IsFilteredOut(a, t) == IsFilteredOut(b, t)
    requires a.filterString == b.filterString && a.skip == b.skip
    ensures Prefilter(a, tests) == Prefilter(b, tests)
    ensures Retain(a, tests) == Retain(b, tests)
  {
    if tests != [] {
      RetainSameFilter(a, b, tests[1..]);
    }
  }

  /** The runner is never consulted on a filtered-out or an ignored test:
      runners that agree on the tests they are asked to run give identical
      runs. */
  lemma IgnoredTestsNeverRun(
    args: Arguments, tests: seq<Test>, runner: Test -> Outcome, other: Test -> Outcome)
    requires Sequential(args)
    requires RunnerPrintable(args, tests, runner)
    requires forall t :: t in Prefilter(args, tests).kept && !IsIgnored(args, t) ==> runner(t) == other(t)
    ensures RunnerPrintable(args, tests, other)
    ensures RunTests(args, tests, runner, []) == RunTests(args, tests, other, [])
  {
    var kept := Prefilter(args, tests).kept;
    assert Completions(args, kept, runner) == Completions(args, kept, other) by {
      forall i | 0 <= i < |kept|
        ensures OutcomeOf(args, runner, kept[i]) == OutcomeOf(args, other, kept[i])
      {
        assert kept[i] in kept;
      }
    }
  }

  /** On the thread-pool path too, an ignored test arrives as `Ignored`
      without the runner being asked. */
  lemma PoolIgnoredArriveIgnored(
    args: Arguments, tests: seq<Test>, runner: Test -> Outcome, delivered: seq<Completion>, i: nat)
    requires !Sequential(args)
    requires ValidDelivery(args, tests, runner, delivered)
    requires i < |delivered|
    requires IsIgnored(args, delivered[i].test)
    ensures delivered[i].outcome == Ignored
    ensures delivered[i].test in Prefilter(args, tests).kept
  {
    var cs := Completions(args, Prefilter(args, tests).kept, runner);
    assert delivered[i] in multiset(cs);
    var j :| 0 <= j < |cs| && cs[j] == delivered[i];
  }

  /** Colour reaches the stream only around outcome tokens, in the token's
      colour, and is reset right after each one. */
  lemma OutputStyled(args: Arguments, tests: seq<Test>, runner: Test -> Outcome, delivered: seq<Completion>)
    requires ValidDelivery(args, tests, runner, delivered)
    requires RunnerPrintable(args, tests, runner)
    requires !args.list
    ensures Styled(RunTests(args, tests, runner, delivered).output)
  {
    var sel := Prefilter(args, tests);
    var p := NewPrinter(args, sel.kept);
    var arrived := Arrivals(args, sel.kept, runner, delivered);
    ArrivalsPrintable(args, tests, runner, delivered);
    var t := Drain(StartTally(sel), arrived);
    var listing := PrintFailures(t.failed);
    SummaryStyled(p, t.conclusion);
    StyledFour(PrintTitle(p, |sel.kept|), Report(p, arrived), listing, PrintSummary(p, t.conclusion));
  }

  /** Every test that runs gets its outcome token coloured, and so does
      the verdict: a run changes colour exactly once per kept test plus once
      for the summary. With `OutputStyled`, each of those changes wraps one
      token. */
  lemma ColorChangePerToken(args: Arguments, tests: seq<Test>, runner: Test -> Outcome, delivered: seq<Completion>)
    requires ValidDelivery(args, tests, runner, delivered)
    requires RunnerPrintable(args, tests, runner)
    requires !args.list
    ensures Count(RunTests(args, tests, runner, delivered).output, IsColorChange) == |Prefilter(args, tests).kept| + 1
  {
    var sel := Prefilter(args, tests);
    var p := NewPrinter(args, sel.kept);
    var arrived := Arrivals(args, sel.kept, runner, delivered);
    ArrivalsPrintable(args, tests, runner, delivered);
    if !Sequential(args) {
      assert |arrived| == |multiset(arrived)| == |multiset(Completions(args, sel.kept, runner))|;
    }
    var t := Drain(StartTally(sel), arrived);
    var title, report, listing, summary := PrintTitle(p, |sel.kept|), Report(p, arrived), PrintFailures(t.failed), PrintSummary(p, t.conclusion);
    CountAppend(title, report, IsColorChange);
    CountAppend(title + report, listing, IsColorChange);
    CountAppend(title + report + listing, summary, IsColorChange);
  }

  /** A sequential terse run writes the title and then one character per
      test that survived filtering, in catalog order. */
  lemma SequentialTerseOutput(args: Arguments, tests: seq<Test>, runner: Test -> Outcome)
    requires Sequential(args) && !args.list && EffectiveFormat(args) == Terse
    requires RunnerPrintable(args, tests, runner)
    ensures var kept := Prefilter(args, tests).kept;
      var cs := Completions(args, kept, runner);
      var text := Plain(RunTests(args, tests, runner, []).output);
      var title := Plain(PrintTitle(NewPrinter(args, kept), |kept|));
      && Printable(cs)
      && title + TerseLine(cs) <= text
  {
    var sel := Prefilter(args, tests);
    var p := NewPrinter(args, sel.kept);
    var cs := Completions(args, sel.kept, runner);
    var title, body, rest := SequentialOutputParts(args, tests, runner);
    PlainOfThree(title, body, rest);
    TerseReport(p, cs);
  }

  /** The output of a sequential run in three parts: title, report, and
      what follows the report. */
  lemma SequentialOutputParts(args: Arguments, tests: seq<Test>, runner: Test -> Outcome)
    returns (title: seq<Effect>, body: seq<Effect>, rest: seq<Effect>)
    requires Sequential(args) && !args.list
    requires RunnerPrintable(args, tests, runner)
    ensures var kept := Prefilter(args, tests).kept;
      && Printable(Completions(args, kept, runner))
      && title == PrintTitle(NewPrinter(args, kept), |kept|)
      && body == Report(NewPrinter(args, kept), Completions(args, kept, runner))
      && RunTests(args, tests, runner, []).output == title + body + rest
  {
    SequentialRunUnfolds(args, tests, runner);
    var sel := Prefilter(args, tests);
    var p := NewPrinter(args, sel.kept);
    var cs := Completions(args, sel.kept, runner);
    var t := Drain(StartTally(sel), cs);
    title := PrintTitle(p, |sel.kept|);
    body := Report(p, cs);
    var listing := PrintFailures(t.failed);
    rest := listing + PrintSummary(p, t.conclusion);
    RegroupFirst(title + body, listing, PrintSummary(p, t.conclusion));
  }

  /** The sequential path as written: filter, list or print the title, run
      the loop, then the failure listing, if any, and the summary. */
  method RunSequentially(args: Arguments, tests: seq<Test>, runner: Test -> Outcome) returns (r: Run)
    requires Sequential(args)
    requires RunnerPrintable(args, tests, runner)
    ensures r == RunTests(args, tests, runner, [])
  {
    var sel := Prefilter(args, tests);
    var printer := NewPrinter(args, sel.kept);
    if args.list {
      return Listed(sel.kept);
    }
    ArrivalsPrintable(args, tests, runner, []);
    var out, state := RunLoop(args, printer, sel.kept, runner, StartTally(sel), PrintTitle(printer, |sel.kept|));
    var listing := PrintFailures(state.failed);
    out := out + listing + PrintSummary(printer, state.conclusion);
    r := Completed(state.conclusion, state.failed, out);
    SequentialRunUnfolds(args, tests, runner);
  }

  /** The loop of the sequential path: for each test in order, announce it,
      take `Ignored` or ask the runner, print the outcome and handle it. It
      writes exactly the report of the completions and ends in the fold's
      tally. */
  method RunLoop(args: Arguments, printer: Printer, kept: seq<Test>, runner: Test -> Outcome, start: Tally, title: seq<Effect>)
    returns (out: seq<Effect>, state: Tally)
    requires Printable(Completions(args, kept, runner))
    ensures state == Drain(start, Completions(args, kept, runner))
    ensures out == title + Report(printer, Completions(args, kept, runner))
  {
    out := title;
    state := start;
    ghost var cs := Completions(args, kept, runner);
    var i := 0;
    assert cs[i..] == cs;
    while i < |kept|
      invariant 0 <= i <= |kept|
      invariant Drain(state, cs[i..]) == Drain(start, cs)
      invariant out + Report(printer, cs[i..]) == title + Report(printer, cs)
    {
      var test := kept[i];
      var announce := PrintTest(printer, test.name, test.kind);
      var outcome := if IsIgnored(args, test) then Ignored else runner(test);
      assert cs[i] == Completion(outcome, test);
      var entry := announce + PrintSingleOutcome(printer, outcome);
      AdvanceLoop(printer, start, state, out, title, cs, i);
      out := out + entry;
      state := HandleOutcome(state, Completion(outcome, test));
      i := i + 1;
    }
    assert cs[i..] == [];
  }

  /** What `RunTests` produces on the sequential path, spelt out. */
  lemma SequentialRunUnfolds(args: Arguments, tests: seq<Test>, runner: Test -> Outcome)
    requires Sequential(args) && !args.list
    requires RunnerPrintable(args, tests, runner)
    ensures var sel := Prefilter(args, tests);
      var p := NewPrinter(args, sel.kept);
      var cs := Completions(args, sel.kept, runner);
      var t := Drain(StartTally(sel), cs);
      && Printable(cs)
      && RunTests(args, tests, runner, []) == Completed(t.conclusion, t.failed,
           PrintTitle(p, |sel.kept|) + Report(p, cs)
           + PrintFailures(t.failed)
           + PrintSummary(p, t.conclusion))
  {
    ArrivalsPrintable(args, tests, runner, []);
  }

  /** One turn of the sequential loop handles the next completion and
      writes its entry, keeping the loop's invariants. */
  lemma AdvanceLoop(p: Printer, start: Tally, s: Tally, out: seq<Effect>, title: seq<Effect>, cs: seq<Completion>, i: nat)
    requires i < |cs|
    requires Printable(cs)
    requires Drain(s, cs[i..]) == Drain(start, cs)
    requires out + Report(p, cs[i..]) == title + Report(p, cs)
    ensures Drain(HandleOutcome(s, cs[i]), cs[i + 1..]) == Drain(start, cs)
    ensures (out + Entry(p, cs[i])) + Report(p, cs[i + 1..]) == title + Report(p, cs)
    ensures Entry(p, cs[i]) == PrintTest(p, cs[i].test.name, cs[i].test.kind) + PrintSingleOutcome(p, cs[i].outcome)
  {
    DrainAdvance(start, s, cs, i);
    ReportAdvance(p, out, title, cs, i);
  }

  /** Handling the next completion leaves the rest of the fold to do. */
  lemma DrainAdvance(start: Tally, s: Tally, cs: seq<Completion>, i: nat)
    requires i < |cs|
    requires Drain(s, cs[i..]) == Drain(start, cs)
    ensures Drain(HandleOutcome(s, cs[i]), cs[i + 1..]) == Drain(start, cs)
  {
    var rest := cs[i..];
    assert rest[0] == cs[i] && rest[1..] == cs[i + 1..];
    assert Drain(s, rest) == Drain(HandleOutcome(s, rest[0]), rest[1..]);
  }

  /** Writing the next entry leaves the rest of the report to write. */
  lemma ReportAdvance(p: Printer, out: seq<Effect>, title: seq<Effect>, cs: seq<Completion>, i: nat)
    requires i < |cs|
    requires Printable(cs)
    requires out + Report(p, cs[i..]) == title + Report(p, cs)
    ensures (out + Entry(p, cs[i])) + Report(p, cs[i + 1..]) == title + Report(p, cs)
  {
    var rest := cs[i..];
    assert rest[0] == cs[i] && rest[1..] == cs[i + 1..];
    ReportFirst(p, rest);
    RegroupFirst(out, Entry(p, cs[i]), Report(p, cs[i + 1..]));
  }
}
