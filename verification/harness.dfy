/**
  Tests, outcomes and the run's conclusion; which tests a configuration
  filters out or ignores; and the fold that turns per-test outcomes into a
  conclusion and a list of failures (src/lib.rs).
 */
module Harness {
  import opened Text
  import opened Collections
  import opened Args

  /** One test or benchmark. The caller's payload is not part of this model. */
  datatype Test = Test(name: string, kind: string, isIgnored: bool, isBench: bool)

  /** The outcome of performing one test. */
  datatype Outcome =
    | Passed
    | Failed(msg: Option<string>)
    | Ignored
    | Measured(avg: nat, variance: nat)

  /** Counters of a finished run. */
  datatype Conclusion = Conclusion(
    numFilteredOut: nat,
    numPassed: nat,
    numFailed: nat,
    numIgnored: nat,
    numBenches: nat)
  {
    /** `Conclusion::has_failed`. */
    predicate HasFailed() {
      numFailed > 0
    }

    /** The status `exit` ends the process with: 101 after a failure, 0
        otherwise. */
    function ExitCode(): (code: int)
      ensures code == 101 <==> numFailed > 0
      ensures code == 0 <==> numFailed == 0
    {
      if HasFailed() then 101 else 0
    }
  }

  /** `Conclusion::empty`: every counter is zero. */
  function EmptyConclusion(): (c: Conclusion)
    ensures c.numFilteredOut + c.numPassed + c.numFailed + c.numIgnored + c.numBenches == 0
    ensures c.ExitCode() == 0
  {
    Conclusion(0, 0, 0, 0, 0)
  }

  /** `Arguments::is_ignored`: the test is skipped by default and ignored
      tests were not asked for, or it is of the kind (bench or plain test)
      the run excludes. */
  predicate IsIgnored(args: Arguments, t: Test) {
    || (t.isIgnored && !args.ignored)
    || (t.isBench && args.test)
    || (!t.isBench && args.bench)
  }

  /** How the ignore flags combine. */
  lemma IgnoreFlags(args: Arguments, t: Test)
    ensures !args.test && !args.bench ==> (IsIgnored(args, t) <==> t.isIgnored && !args.ignored)
    ensures args.test && !t.isBench && !args.bench ==> (IsIgnored(args, t) <==> t.isIgnored && !args.ignored)
    ensures args.test && t.isBench ==> IsIgnored(args, t)
    ensures args.bench && !t.isBench ==> IsIgnored(args, t)
  {
  }

  /** A name matches a filter or skip pattern: by equality in exact mode, by
      substring otherwise. */
  predicate Matches(exact: bool, name: string, pattern: string) {
    if exact then name == pattern else Contains(name, pattern)
  }

  /** The loop over the `--skip` patterns: stops at the first pattern that
      matches. */
  function SkipHit(exact: bool, name: string, skip: seq<string>): (r: bool)
    ensures r <==> exists k :: 0 <= k < |skip| && Matches(exact, name, skip[k])
  {
    if skip == [] then false
    else if Matches(exact, name, skip[0]) then true
    else SkipHit(exact, name, skip[1..])
  }

  /** `Arguments::is_filtered_out`: the name misses the filter string, if one
      is set, or matches one of the skip patterns. */
  function IsFilteredOut(args: Arguments, t: Test): (r: bool)
    ensures r <==>
      || (args.filterString.Some? && !Matches(args.exact, t.name, args.filterString.value))
      || (exists k :: 0 <= k < |args.skip| && Matches(args.exact, t.name, args.skip[k]))
    ensures args.exact ==> (r <==>
      || (args.filterString.Some? && t.name != args.filterString.value)
      || t.name in args.skip)
    ensures !args.exact ==> (r <==>
      || (args.filterString.Some? && !Contains(t.name, args.filterString.value))
      || (exists k :: 0 <= k < |args.skip| && Contains(t.name, args.skip[k])))
  {
    if args.filterString.Some? && !Matches(args.exact, t.name, args.filterString.value) then true
    else SkipHit(args.exact, t.name, args.skip)
  }

  /** In substring mode a surviving name holds the filter string at some
      position and holds no skip pattern anywhere. */
  lemma {:induction false} SubstringSurvivor(args: Arguments, t: Test)
    requires !args.exact
    requires !IsFilteredOut(args, t)
    ensures args.filterString.Some? ==> OccursIn(args.filterString.value, t.name)
    ensures forall k :: 0 <= k < |args.skip| ==> !OccursIn(args.skip[k], t.name)
  {
    if args.filterString.Some? {
      ContainsIffOccurs(t.name, args.filterString.value);
    }
    forall k | 0 <= k < |args.skip|
      ensures !OccursIn(args.skip[k], t.name)
    {
      ContainsIffOccurs(t.name, args.skip[k]);
    }
  }

  /** `a` is `b` with some elements left out, the rest kept in order. */
  predicate IsSubsequence<T(==)>(a: seq<T>, b: seq<T>)
    decreases |b|
  {
    || a == []
    || (|b| > 0 && ((a[0] == b[0] && IsSubsequence(a[1..], b[1..])) || IsSubsequence(a, b[1..])))
  }

  /** `tests.retain(|test| !args.is_filtered_out(test))`. */
  function Retain(args: Arguments, tests: seq<Test>): (kept: seq<Test>)
    ensures IsSubsequence(kept, tests)
    ensures forall t :: multiset(kept)[t] == if IsFilteredOut(args, t) then 0 else multiset(tests)[t]
  {
    if tests == [] then []
    else
      assert tests == [tests[0]] + tests[1..];
      if IsFilteredOut(args, tests[0]) then Retain(args, tests[1..])
      else [tests[0]] + Retain(args, tests[1..])
  }

  /** The tests that survive filtering and how many were removed. */
  datatype Selection = Selection(kept: seq<Test>, numFilteredOut: nat)

  /** The filtering pre-pass of `run_tests`, done only when a filter string or
      a skip pattern is given. */
  function Prefilter(args: Arguments, tests: seq<Test>): (s: Selection)
    ensures IsSubsequence(s.kept, tests)
    ensures forall t :: multiset(s.kept)[t] == if IsFilteredOut(args, t) then 0 else multiset(tests)[t]
    ensures s.numFilteredOut + |s.kept| == |tests|
    ensures s.numFilteredOut == NumFilteredOut(args, tests)
    ensures args.filterString.None? && args.skip == [] ==> s == Selection(tests, 0)
  {
    if args.filterString.Some? || args.skip != [] then
      var kept := Retain(args, tests);
      RetainCount(args, tests);
      Selection(kept, |tests| - |kept|)
    else
      RetainCount(args, tests);
      RetainKeepsSurvivors(args, tests);
      Selection(tests, 0)
  }

  /** How many of the tests the configuration filters out. */
  function NumFilteredOut(args: Arguments, tests: seq<Test>): nat {
    Count(tests, t => IsFilteredOut(args, t))
  }

  /** `Retain` removes exactly the tests the configuration filters out. */
  lemma {:induction false} RetainCount(args: Arguments, tests: seq<Test>)
    ensures |Retain(args, tests)| + NumFilteredOut(args, tests) == |tests|
  {
    if tests != [] {
      RetainCount(args, tests[1..]);
    }
  }

  /** Filtering the survivors again removes nothing. */
  lemma {:induction false} PrefilterIdempotent(args: Arguments, tests: seq<Test>)
    ensures Prefilter(args, Prefilter(args, tests).kept) == Selection(Prefilter(args, tests).kept, 0)
  {
    var kept := Prefilter(args, tests).kept;
    forall t | t in kept
      ensures !IsFilteredOut(args, t)
    {
      assert multiset(kept)[t] > 0;
    }
    RetainKeepsSurvivors(args, kept);
  }

  /** `Retain` over tests none of which is filtered out is the identity. */
  lemma {:induction false} RetainKeepsSurvivors(args: Arguments, tests: seq<Test>)
    requires forall t :: t in tests ==> !IsFilteredOut(args, t)
    ensures Retain(args, tests) == tests
  {
    if tests != [] {
      assert tests[0] in tests;
      assert forall t :: t in tests[1..] ==> t in tests;
      RetainKeepsSurvivors(args, tests[1..]);
      assert Retain(args, tests) == [tests[0]] + tests[1..];
    }
  }

  /** What the harness sends or records for one test: its outcome and the
      test itself. */
  datatype Completion = Completion(outcome: Outcome, test: Test)

  /** One entry of the failure list: the failed test and its message. */
  datatype Failure = Failure(test: Test, msg: Option<string>)

  /** The coordinating thread's state: the conclusion so far and the
      failures recorded so far. */
  datatype Tally = Tally(conclusion: Conclusion, failed: seq<Failure>)

  /** The failure list stays in step with the failure counter. */
  predicate InStep(s: Tally) {
    |s.failed| == s.conclusion.numFailed
  }

  /** The outcome the sequential loop gets for a test: `Ignored` without
      consulting the runner when the test is ignored, the runner's verdict
      otherwise. */
  function OutcomeOf(args: Arguments, runner: Test -> Outcome, t: Test): (o: Outcome)
    ensures IsIgnored(args, t) ==> o == Ignored
    ensures !IsIgnored(args, t) ==> o == runner(t)
  {
    if IsIgnored(args, t) then Ignored else runner(t)
  }

  /** The completions of the given tests in order. */
  function Completions(args: Arguments, tests: seq<Test>, runner: Test -> Outcome): (cs: seq<Completion>)
    ensures |cs| == |tests|
    ensures forall i :: 0 <= i < |tests| ==> cs[i] == Completion(OutcomeOf(args, runner, tests[i]), tests[i])
  {
    seq(|tests|, i requires 0 <= i < |tests| => Completion(OutcomeOf(args, runner, tests[i]), tests[i]))
  }

  predicate IsPassed(c: Completion) { c.outcome.Passed? }
  predicate IsFailed(c: Completion) { c.outcome.Failed? }
  predicate IsIgnoredOutcome(c: Completion) { c.outcome.Ignored? }
  predicate IsMeasured(c: Completion) { c.outcome.Measured? }
  predicate IsBench(c: Completion) { c.test.isBench }

  /** `handle_outcome`: counts the outcome in exactly one of the passed,
      failed and ignored counters (none for `Measured`), counts every
      benchmark whatever its outcome, and records failures. */
  function HandleOutcome(s: Tally, c: Completion): (r: Tally)
    ensures r.conclusion.numFilteredOut == s.conclusion.numFilteredOut
    ensures r.conclusion.numPassed == s.conclusion.numPassed + (if c.outcome.Passed? then 1 else 0)
    ensures r.conclusion.numFailed == s.conclusion.numFailed + (if c.outcome.Failed? then 1 else 0)
    ensures r.conclusion.numIgnored == s.conclusion.numIgnored + (if c.outcome.Ignored? then 1 else 0)
    ensures r.conclusion.numBenches == s.conclusion.numBenches + (if c.test.isBench then 1 else 0)
    ensures (r.conclusion.numPassed + r.conclusion.numFailed + r.conclusion.numIgnored)
         == (s.conclusion.numPassed + s.conclusion.numFailed + s.conclusion.numIgnored)
            + (if c.outcome.Measured? then 0 else 1)
    ensures r.failed == s.failed + FailureEntry(c)
    ensures InStep(s) ==> InStep(r)
  {
    var k := s.conclusion;
    var k' := if c.test.isBench then k.(numBenches := k.numBenches + 1) else k;
    match c.outcome
    case Passed => Tally(k'.(numPassed := k'.numPassed + 1), s.failed)
    case Failed(msg) => Tally(k'.(numFailed := k'.numFailed + 1), s.failed + [Failure(c.test, msg)])
    case Ignored => Tally(k'.(numIgnored := k'.numIgnored + 1), s.failed)
    case Measured(_, _) => Tally(k', s.failed)
  }

  /** The failure list entry a completion adds: one for a failure, none
      otherwise. */
  function FailureEntry(c: Completion): seq<Failure> {
    if c.outcome.Failed? then [Failure(c.test, c.outcome.msg)] else []
  }

  /** The failures among the completions, in order. */
  function FailuresOf(cs: seq<Completion>): (fs: seq<Failure>)
    ensures |fs| == Count(cs, IsFailed)
  {
    if cs == [] then []
    else FailureEntry(cs[0]) + FailuresOf(cs[1..])
  }

  /** Feeding a sequence of completions to `HandleOutcome` one by one. */
  function Drain(s: Tally, cs: seq<Completion>): (r: Tally)
    ensures r.conclusion.numFilteredOut == s.conclusion.numFilteredOut
    ensures r.conclusion.numPassed == s.conclusion.numPassed + Count(cs, IsPassed)
    ensures r.conclusion.numFailed == s.conclusion.numFailed + Count(cs, IsFailed)
    ensures r.conclusion.numIgnored == s.conclusion.numIgnored + Count(cs, IsIgnoredOutcome)
    ensures r.conclusion.numBenches == s.conclusion.numBenches + Count(cs, IsBench)
    ensures r.failed == s.failed + FailuresOf(cs)
    ensures InStep(s) ==> InStep(r)
    decreases |cs|
  {
    if cs == [] then s
    else
      FirstCompletion(cs);
      var r := Drain(HandleOutcome(s, cs[0]), cs[1..]);
      assert r.failed == s.failed + (FailureEntry(cs[0]) + FailuresOf(cs[1..]));
      r
  }

  /** The counts and failures of a non-empty sequence of completions, split
      into its first completion and the rest. */
  lemma FirstCompletion(cs: seq<Completion>)
    requires cs != []
    ensures Count(cs, IsPassed) == Count([cs[0]], IsPassed) + Count(cs[1..], IsPassed)
    ensures Count(cs, IsFailed) == Count([cs[0]], IsFailed) + Count(cs[1..], IsFailed)
    ensures Count(cs, IsIgnoredOutcome) == Count([cs[0]], IsIgnoredOutcome) + Count(cs[1..], IsIgnoredOutcome)
    ensures Count(cs, IsBench) == Count([cs[0]], IsBench) + Count(cs[1..], IsBench)
    ensures FailuresOf(cs) == FailureEntry(cs[0]) + FailuresOf(cs[1..])
  {
    assert cs == [cs[0]] + cs[1..];
    CountAppend([cs[0]], cs[1..], IsPassed);
    CountAppend([cs[0]], cs[1..], IsFailed);
    CountAppend([cs[0]], cs[1..], IsIgnoredOutcome);
    CountAppend([cs[0]], cs[1..], IsBench);
  }

  /** Every completion is exactly one of passed, failed, ignored or measured. */
  lemma {:induction false} OutcomeKindsPartition(cs: seq<Completion>)
    ensures Count(cs, IsPassed) + Count(cs, IsFailed) + Count(cs, IsIgnoredOutcome) + Count(cs, IsMeasured) == |cs|
  {
    if cs != [] {
      OutcomeKindsPartition(cs[1..]);
    }
  }

  lemma {:induction false} FailuresAppend(a: seq<Completion>, b: seq<Completion>)
    ensures FailuresOf(a + b) == FailuresOf(a) + FailuresOf(b)
    decreases |a|
  {
    if a == [] {
      assert a + b == b;
    } else {
      assert (a + b)[1..] == a[1..] + b;
      FailuresAppend(a[1..], b);
    }
  }

  /** Reordering the completions reorders the failure list and nothing else. */
  lemma {:induction false} FailuresPermutation(a: seq<Completion>, b: seq<Completion>)
    requires multiset(a) == multiset(b)
    ensures multiset(FailuresOf(a)) == multiset(FailuresOf(b))
    decreases |a|
  {
    if a != [] {
      var j := PickFirst(a, b);
      var b1, b2 := b[..j], b[j + 1..];
      FailuresPermutation(a[1..], b1 + b2);
      FailuresAppend(b1 + [a[0]], b2);
      FailuresAppend(b1, [a[0]]);
      FailuresAppend(b1, b2);
      assert [a[0]][1..] == [];
      assert b == b1 + [a[0]] + b2;
      assert FailuresOf(a) == FailureEntry(a[0]) + FailuresOf(a[1..]);
      MovedToFront(FailuresOf(a[1..]), FailuresOf(b1), FailureEntry(a[0]), FailuresOf(b2));
    } else {
      assert |b| == |multiset(b)| == 0;
    }
  }

  /** The fold depends only on the multiset of completions: draining them in
      any order gives the same conclusion and a reordering of the same
      failure list. */
  lemma DrainOrderIndependent(s: Tally, a: seq<Completion>, b: seq<Completion>)
    requires multiset(a) == multiset(b)
    ensures Drain(s, a).conclusion == Drain(s, b).conclusion
    ensures multiset(Drain(s, a).failed) == multiset(Drain(s, b).failed)
  {
    DrainCountsOrderIndependent(s, a, b);
    FailuresPermutation(a, b);
    assert multiset(Drain(s, a).failed) == multiset(s.failed) + multiset(FailuresOf(a));
    assert multiset(Drain(s, b).failed) == multiset(s.failed) + multiset(FailuresOf(b));
  }

  /** The counters after the fold depend only on the multiset of completions. */
  lemma DrainCountsOrderIndependent(s: Tally, a: seq<Completion>, b: seq<Completion>)
    requires multiset(a) == multiset(b)
    ensures Drain(s, a).conclusion == Drain(s, b).conclusion
  {
    CountPermutation(a, b, IsPassed);
    CountPermutation(a, b, IsFailed);
    CountPermutation(a, b, IsIgnoredOutcome);
    CountPermutation(a, b, IsBench);
  }
}
