/**
  Concrete runs of the harness: a quiet one-thread run with an ignored test
  in the middle, substring filtering over three names, a filtered-out
  benchmark the runner is never asked about, and a listing of a benchmark
  suite.
 */
module Scenarios {
  import opened Text
  import opened Args
  import opened Harness
  import opened Printer
  import opened Runner

  /** A one-thread quiet run: no filter, no skip pattern. */
  function QuietOneThread(): Arguments {
    Arguments(None, false, [], false, false, false, false, true, Some(1), None, None)
  }

  /** Three plain tests, the middle one marked ignored. */
  function MiddleIgnored(): seq<Test> {
    [Test("a", "", false, false), Test("b", "", true, false), Test("c", "", false, false)]
  }

  /** A runner under which every test passes. */
  function AlwaysPasses(t: Test): Outcome {
    Passed
  }

  /** What the scenario's tests complete with, in catalog order. */
  function MiddleIgnoredCompletions(): seq<Completion> {
    [Completion(Passed, MiddleIgnored()[0]), Completion(Ignored, MiddleIgnored()[1]), Completion(Passed, MiddleIgnored()[2])]
  }

  /** Nothing is filtered out; the ignored test completes as `Ignored`
      without the runner, the others as the runner says. */
  lemma MiddleIgnoredArrivals()
    ensures Prefilter(QuietOneThread(), MiddleIgnored()) == Selection(MiddleIgnored(), 0)
    ensures Completions(QuietOneThread(), MiddleIgnored(), AlwaysPasses) == MiddleIgnoredCompletions()
    ensures RunnerPrintable(QuietOneThread(), MiddleIgnored(), AlwaysPasses)
  {
  }

  /** Handling the three completions from an empty conclusion. */
  lemma MiddleIgnoredDrain()
    ensures Drain(Tally(EmptyConclusion(), []), MiddleIgnoredCompletions()) == Tally(Conclusion(0, 2, 0, 1, 0), [])
  {
    var cs := MiddleIgnoredCompletions();
    assert cs[1..] == [cs[1], cs[2]] && cs[1..][1..] == [cs[2]] && cs[1..][1..][1..] == [];
  }

  /** With the middle test ignored and everything else passing, the run
      counts two passes and one ignore, records no failure and exits with 0. */
  lemma IgnoredInTheMiddleCounts()
    ensures RunnerPrintable(QuietOneThread(), MiddleIgnored(), AlwaysPasses)
    ensures var r := RunTests(QuietOneThread(), MiddleIgnored(), AlwaysPasses, []);
      && r.Completed?
      && r.conclusion == Conclusion(0, 2, 0, 1, 0)
      && r.failed == []
      && r.conclusion.ExitCode() == 0
  {
    MiddleIgnoredArrivals();
    MiddleIgnoredDrain();
    SequentialRunUnfolds(QuietOneThread(), MiddleIgnored(), AlwaysPasses);
  }

  /** The same run in terse mode writes the title and then `.i.`: a dot for
      each pass and `i` for the ignored test, in catalog order. */
  lemma IgnoredInTheMiddleOutput()
    ensures RunnerPrintable(QuietOneThread(), MiddleIgnored(), AlwaysPasses)
    ensures var text := Plain(RunTests(QuietOneThread(), MiddleIgnored(), AlwaysPasses, []).output);
      "\nrunning 3 tests\n" + ".i." <= text
  {
    MiddleIgnoredArrivals();
    SequentialTerseOutput(QuietOneThread(), MiddleIgnored(), AlwaysPasses);
    ThreeTestsTitle(NewPrinter(QuietOneThread(), MiddleIgnored()));
    MiddleIgnoredTerseLine();
  }

  /** The terse characters of the scenario's completions. */
  lemma MiddleIgnoredTerseLine()
    ensures Printable(MiddleIgnoredCompletions())
    ensures TerseLine(MiddleIgnoredCompletions()) == ".i."
  {
    var cs := MiddleIgnoredCompletions();
    assert cs[1..] == [cs[1], cs[2]] && cs[1..][1..] == [cs[2]] && cs[1..][1..][1..] == [];
  }

  /** Three tests named `alpha`, `beta` and `calpha`. */
  function GreekNames(): seq<Test> {
    [Test("alpha", "", false, false), Test("beta", "", false, false), Test("calpha", "", false, false)]
  }

  /** Substring filtering by `f`, no skip pattern. */
  function FilterBy(f: string): Arguments {
    Arguments(Some(f), false, [], false, false, false, false, false, None, None, None)
  }

  /** Every one of the three names holds `a`, so the filter `a` removes
      nothing. */
  lemma FilterByLetterKeepsAll()
    ensures Prefilter(FilterBy("a"), GreekNames()) == Selection(GreekNames(), 0)
  {
    var tests := GreekNames();
    assert Contains("alpha", "a");
    assert Contains("beta"[1..][1..], "a");
    assert Contains("calpha"[1..], "a");
    assert !IsFilteredOut(FilterBy("a"), tests[0]);
    assert !IsFilteredOut(FilterBy("a"), tests[1]);
    assert !IsFilteredOut(FilterBy("a"), tests[2]);
    RetainKeepsSurvivors(FilterBy("a"), tests);
  }

  /** `alpha` occurs in `alpha` and in `calpha` but not in `beta`, so only
      `beta` is filtered out and the order of the others is kept. */
  lemma FilterByWordDropsOne()
    ensures Prefilter(FilterBy("alpha"), GreekNames()) == Selection([GreekNames()[0], GreekNames()[2]], 1)
  {
    WhichNamesHoldAlpha();
    var tests := GreekNames();
    MiddleFilteredOut(FilterBy("alpha"), tests[0], tests[1], tests[2]);
  }

  /** Filtering out only the middle one of three tests keeps the outer two
      in order and counts one. */
  lemma MiddleFilteredOut(args: Arguments, a: Test, b: Test, c: Test)
    requires args.filterString.Some?
    requires !IsFilteredOut(args, a) && IsFilteredOut(args, b) && !IsFilteredOut(args, c)
    ensures Prefilter(args, [a, b, c]) == Selection([a, c], 1)
  {
    assert Retain(args, [c]) == [c] by {
      assert [c][1..] == [];
    }
    assert Retain(args, [b, c]) == [c] by {
      assert [b, c][1..] == [c];
    }
    assert Retain(args, [a, b, c]) == [a, c] by {
      assert [a, b, c][1..] == [b, c];
    }
  }

  /** `alpha` and `calpha` hold `alpha`; `beta`, being shorter, cannot. */
  lemma WhichNamesHoldAlpha()
    ensures !IsFilteredOut(FilterBy("alpha"), GreekNames()[0])
    ensures IsFilteredOut(FilterBy("alpha"), GreekNames()[1])
    ensures !IsFilteredOut(FilterBy("alpha"), GreekNames()[2])
  {
    assert Contains("calpha"[1..], "alpha");
    LongerNeverContained("beta", "alpha");
  }

  /** A benchmark whose runner would report a measurement. */
  function MeasuredBench(): seq<Test> {
    [Test("b", "", false, true)]
  }

  /** A runner that reports a measurement for everything. */
  function AlwaysMeasures(t: Test): Outcome {
    Measured(1, 0)
  }

  /** When the filter removes the only test, the runner is never asked, so a
      runner that would answer `Measured` still gives a well-defined run:
      zero tests run, one is filtered out, and the run exits with 0. */
  lemma FilteredBenchNeverRun()
    ensures var args := FilterBy("xy").(numThreads := Some(1));
      && Prefilter(args, MeasuredBench()) == Selection([], 1)
      && RunnerPrintable(args, MeasuredBench(), AlwaysMeasures)
      && RunTests(args, MeasuredBench(), AlwaysMeasures, []).Result() == Conclusion(1, 0, 0, 0, 0)
  {
    var args := FilterBy("xy").(numThreads := Some(1));
    assert !Contains("b", "xy") by {
      LongerNeverContained("b", "xy");
    }
    assert [Test("b", "", false, true)][1..] == [];
    SequentialRunUnfolds(args, MeasuredBench(), AlwaysMeasures);
  }

  /** `--list` on a benchmark suite: the runner would answer `Measured`, but
      a listing never asks it, so the run lists the benchmark and concludes
      with the empty conclusion. */
  lemma ListingBenchSuite()
    ensures var args := QuietOneThread().(list := true, quiet := false);
      && RunnerPrintable(args, MeasuredBench(), AlwaysMeasures)
      && RunTests(args, MeasuredBench(), AlwaysMeasures, []) == Listed(MeasuredBench())
      && RunTests(args, MeasuredBench(), AlwaysMeasures, []).Result() == EmptyConclusion()
  {
    var args := QuietOneThread().(list := true, quiet := false);
    assert Prefilter(args, MeasuredBench()).kept == MeasuredBench();
  }
}
