# libtest-mimic core, modelled in Dafny

libtest-mimic is a test harness that looks like Rust's built-in `cargo test` harness.
You give it a list of tests (or benchmarks), the parsed command-line arguments and a
runner closure. `run_tests` then does the following:

- it filters the tests by the filter string and the `--skip` patterns;
- it lists the tests or runs them, on the calling thread or in a thread pool;
- it prints a title, one line (pretty) or one character (terse) per test, the
  failures and a summary line;
- it returns a `Conclusion`, whose `exit` ends the process with 0 or 101.

This project is a pure, functional model of that core. It has six modules,
and a seventh, `Scenarios`, holds concrete example runs.

- `Text` and `Collections` hold generic helpers: substring search, padding,
  decimal rendering with its parser, counting over sequences, and counting
  under reordering.
- `Args` models the `--color` and `--format` values, their defaults and their
  `from_str` parsers, plus the record of resolved arguments.
- `Harness` models `Test`, `Outcome` and `Conclusion`. It also models
  `is_ignored`, `is_filtered_out`, the filtering pre-pass, and the
  `handle_outcome` closure as a fold (`Drain`) over completions.
- `Printer` models `Printer::new` (format choice and column widths),
  `print_title`, `print_test`, `print_single_outcome`, `print_outcome_pretty`,
  `color_of_outcome` and `print_summary`.
  - The output stream is a sequence of effects: writes, colour changes,
    colour resets, and one opaque failure listing.
  - `Plain` gives the text of the modelled writes, as a colourless stream
    shows them. The failure listing's text is not modelled, so `Plain`
    shows nothing for it.
  - `Styled` says that every colour change wraps exactly one outcome token
    in that token's colour and is reset right after.
- `Runner` models `run_tests`, once as a function and once as a method with
  the sequential loop.
  - The runner closure is a function parameter.
  - On the thread-pool path, the order in which the channel delivers
    completions is a parameter too. It may be any reordering of the
    completions that were sent.

Some behaviours of the program are worth stating plainly.

- Only `num_threads == Some(1)` selects the sequential path (`src/lib.rs:296`).
  Every other value, `Some(0)` included, uses the pool.
- Filtering `alpha`, `beta`, `calpha` by `a` keeps all three, because each
  name contains an `a`, so no test is filtered out
  (`Scenarios.FilterByLetterKeepsAll`).
- The runner is asked only about tests that survive filtering and are not
  ignored (`src/lib.rs:256-260`, `302-306`, `316-329`).
- The summary prints the literal `-1` as the measured count
  (`src/printer.rs:164`).
- `num_benches` counts every benchmark that reaches `handle_outcome`,
  whatever its outcome (`src/lib.rs:279-281`). The field's comment says it
  counts only those that "successfully ran".

The three source files come from slightly different revisions. The model
resolves each mismatch as follows.

- `print_summary` calls `num_passed()`, `num_failed()` and
  `num_filtered_out()`. These methods do not exist on `Conclusion` in
  `src/lib.rs`, so they are modelled as reads of the fields of the same name.
- `printer.rs` knows only the outcomes `Passed`, `Failed` and `Ignored`,
  while `lib.rs` adds `Failed { msg }` and `Measured`. The printer is
  modelled for the three outcomes it can print.
  - `Runner.RunTests` requires `RunnerPrintable`: the runner never answers
    `Measured` for a test it actually runs, that is, a test that survives
    filtering and is not ignored. A `--list` run asks the runner nothing,
    so it meets `RunnerPrintable` whatever the runner would answer.
  - The fold itself accepts every outcome.
- `args.rs` names the fields `filter` and `test_threads`, while `lib.rs`
  reads `filter_string` and `num_threads`. `Args.Arguments` uses the names
  `lib.rs` reads.

## Model

| member | source | states |
|---|---|---|
| `Args.DefaultColor` | src/args.rs:168-172 | The default colour setting is the one spelled `auto`. |
| `Args.DefaultFormat` | src/args.rs:196-200 | The default format is the one spelled `pretty`. |
| `Args.ParseColor` | src/args.rs:174-184 | Parsing succeeds exactly for `auto`, `always`, `never`. A success yields the setting with that spelling. Every other string yields the error `invalid color setting`. |
| `Args.ParseFormat` | src/args.rs:202-211 | Parsing succeeds exactly for `pretty` and `terse`. A success yields the setting with that spelling. Every other string yields the error `invalid output format`. |
| `Args.ParsersRoundTrip` | src/args.rs:174-211 | Parsing a setting's spelling gives the setting back, and a string parses to a setting only if it is that setting's spelling (both parsers). |
| `Args.ParsersInjective` | src/args.rs:174-211 | Two different accepted strings never parse to the same setting (both parsers). |
| `Args.ParsersRejectOtherSpellings` | src/args.rs:174-211 | Matching is case-sensitive: `Auto`, `Pretty`, the empty string and `json` are all rejected with the parser's error message. |
| `Harness.Conclusion.ExitCode` | src/lib.rs:158-177 | The exit status is 101 exactly when some test failed, and 0 exactly when none did. |
| `Harness.EmptyConclusion` | src/lib.rs:179-187 | Every counter of the empty conclusion is zero, so its exit status is 0. |
| `Harness.IsIgnored` | src/lib.rs:192-196 | Defines when a test is ignored: it is marked ignored and `--ignored` is off, or it is a benchmark under `--test`, or it is not a benchmark under `--bench`. |
| `Harness.Conclusion.HasFailed` | src/lib.rs:174-177 | Defines a run as failed exactly when its failed counter is not zero. |
| `Harness.IgnoreFlags` | src/lib.rs:192-196 | Without `--test` or `--bench`, a test is ignored iff it is marked ignored and `--ignored` is off. `--test` ignores every benchmark. `--bench` ignores every non-benchmark. |
| `Text.Contains` | src/lib.rs:203 | `str::contains` as a left-to-right scan. `Text.ContainsIffOccurs` proves it true exactly when the pattern occurs at some position. |
| `Text.ContainsIffOccurs` | src/lib.rs:212 | The scan finds a pattern exactly when the pattern occurs in the name at some position. |
| `Text.NatToString` | src/printer.rs:85 | `{}` on a count, as in the title and in the summary counts (`src/printer.rs:160-165`): at least one digit, only digits, and no leading zero. |
| `Text.DecimalRoundTrip` | src/printer.rs:158-166 | Reading a rendered count back gives the count. |
| `Text.PadRight` | src/printer.rs:104 | `{: <w$}`: the string is kept as a prefix, filled with spaces to the width, and never truncated. |
| `Harness.SkipHit` | src/lib.rs:209-215 | The skip loop reports a hit iff some skip pattern matches the name: equality in exact mode, substring otherwise. |
| `Harness.IsFilteredOut` | src/lib.rs:198-218 | A test is filtered out iff a filter string is given and the name misses it, or some skip pattern matches. Both the exact and the substring reading are stated separately. |
| `Harness.SubstringSurvivor` | src/lib.rs:198-218 | In substring mode, a surviving name contains the filter string at some position and contains no skip pattern at any position. |
| `Harness.Retain` | src/lib.rs:258 | The kept tests are a subsequence of the catalogue: order is kept, and a test's multiplicity is zero if it is filtered out and unchanged otherwise. |
| `Harness.Prefilter` | src/lib.rs:255-260 | Kept tests plus filtered-out count make up the catalogue. The count is the number of tests the configuration filters out. With no filter and no skip patterns, nothing is touched and the count stays 0. |
| `Harness.RetainCount` | src/lib.rs:257-259 | The length subtraction of `run_tests` equals the number of filtered-out tests. |
| `Harness.PrefilterIdempotent` | src/lib.rs:255-260 | Filtering the survivors again keeps all of them and filters out none. |
| `Harness.RetainKeepsSurvivors` | src/lib.rs:258 | `retain` over tests none of which is filtered out returns them unchanged. |
| `Harness.OutcomeOf` | src/lib.rs:302-306 | An ignored test gets `Ignored` without consulting the runner. Every other test gets the runner's outcome. |
| `Harness.Completions` | src/lib.rs:298-308 | The sequential loop pairs every kept test, in order, with its outcome. |
| `Harness.HandleOutcome` | src/lib.rs:276-293 | One outcome raises exactly one of passed, failed or ignored (none for measured), and raises the bench count for a benchmark. Only a failure appends to the failure list (test and message). The failure list stays as long as the failed count. |
| `Harness.Drain` | src/lib.rs:296-308 | Folding `handle_outcome` over completions adds the number of passed, failed, ignored and benchmark completions to the counters. It appends exactly the failures, in arrival order. |
| `Harness.OutcomeKindsPartition` | src/lib.rs:284-292 | Every completion is exactly one of passed, failed, ignored or measured. |
| `Harness.FailuresPermutation` | src/lib.rs:286-288 | Reordering the completions only reorders the failure list. |
| `Harness.DrainOrderIndependent` | src/lib.rs:332-338 | The counters after the fold do not depend on arrival order. The failure list is the same up to reordering. |
| `Printer.EffectiveFormat` | src/printer.rs:37-42 | `--quiet` forces terse. Otherwise the requested format is used, or pretty when none is given. |
| `Printer.NameWidth` | src/printer.rs:49-52 | The name column is as wide as the longest name and no wider (one name attains it). It is 0 for no tests. |
| `Printer.KindWidth` | src/printer.rs:54-64 | The kind column fits every `[kind] ` label and is attained by some non-empty kind. It is 0 when every kind is empty. |
| `Printer.NewPrinter` | src/printer.rs:17-72 | The printer takes the effective format. Its name and kind columns are exactly `NameWidth` and `KindWidth` of the tests that will run, so they fit every test and are no wider. |
| `Printer.PrintTitle` | src/printer.rs:75-89 | The title is an empty line, then `running N test`, plus an `s` unless N is 1. It has no colour change. |
| `Printer.TitleStatesCount` | src/printer.rs:78-85 | The number read back from the title's digits is the number of tests. The title ends in `tests` exactly when that number is not 1. |
| `Printer.KindLabel` | src/printer.rs:96-100 | A non-empty kind is shown as `[kind] `, an empty kind as nothing. The label is as long as the room the width calculation reserves for it. |
| `Printer.Announcement` | src/printer.rs:102-109 | The announcement is `test `, then the kind label padded to the kind column, then the name padded to the name column, then ` ... `. Its length, the position of each part, and the spaces filling both paddings are stated exactly. |
| `Printer.PrintTest` | src/printer.rs:93-117 | Pretty mode writes the announcement as one uncoloured write. Terse mode writes nothing. Neither changes colour. |
| `Printer.AlignedPrefixes` | src/printer.rs:102-109 | In pretty mode, every test's announcement has the same length: 10 plus the kind and name column widths. So all outcome tokens start in one column. |
| `Printer.ColorOf` | src/printer.rs:186-195 | Defines the colour of each outcome: green for passed, red for failed, yellow for ignored. |
| `Printer.PrettyToken` | src/printer.rs:173-178 | Defines the pretty word of each outcome: `ok`, `FAILED` or `ignored`. |
| `Printer.TerseToken` | src/printer.rs:128-132 | Defines the terse character of each outcome: `.`, `F` or `i`. |
| `Printer.TokensIdentifyOutcome` | src/printer.rs:173-195 | The pretty word, the terse character and the colour each determine the outcome kind, and each token is tied to its colour (green `ok`/`.`, red `FAILED`/`F`, yellow `ignored`/`i`). |
| `Printer.Colored` | src/printer.rs:180-182 | A coloured token is exactly three effects: set the token's colour, write the token, reset. It shows exactly the token and changes colour once. |
| `Printer.PrintOutcomePretty` | src/printer.rs:173-183 | Exactly three effects: set the outcome's colour, write the outcome's word, reset. |
| `Printer.PrintSingleOutcome` | src/printer.rs:121-140 | Both formats open with the outcome's colour, write the token (the word in pretty mode, the character in terse mode) and then reset. Pretty mode adds a line break. Exactly one colour change. |
| `Printer.PrintSummary` | src/printer.rs:143-171 | The summary is an empty line, `test result: `, `FAILED` if some test failed else `ok`, the counts line, and an empty line, in either format. The verdict word is its own write, preceded by red (`FAILED`) or green (`ok`) and followed by a reset. It is the summary's only colour change. |
| `Printer.SummaryCounts` | src/printer.rs:158-166 | The counts start with `. ` and end with ` filtered out` and a line break. |
| `Printer.SummaryCountsReadBack` | src/printer.rs:158-166 | Reading the counts part back with the independent parser `ReadCounts` gives the conclusion's passed, failed, ignored and filtered-out counters. It also confirms the fixed text between them, `-1` measured included. The parser refuses zero-padded numbers (`Text.ReadNumberRefusesLeadingZero`), so it pins the plain decimal rendering. |
| `Printer.SummaryVerdict` | src/printer.rs:149-157 | The summary opens with `test result: FAILED.` exactly when the exit status is 101. It opens with `test result: ok.` exactly when the status is 0. |
| `Printer.SummaryStyled` | src/printer.rs:155-167 | Every colour change in the summary wraps an outcome token in that token's colour and is reset after it. |
| `Printer.PrintFailures` | src/lib.rs:341-344 | The failure listing appears exactly when some test failed and carries the whole failure list. Its text is not modelled, so it adds nothing to `Plain`, and it is taken to use no colour. |
| `Printer.Entry` | src/lib.rs:298-308 | A completed test shows its announcement followed by its outcome token. Terse mode shows just its character. Exactly one colour change. |
| `Printer.Report` | src/lib.rs:298-338 | Styled, with exactly one colour change per completion. Its arrival order is stated by `Printer.ReportInArrivalOrder`. |
| `Printer.ReportConcat` | src/lib.rs:332-338 | Reporting two runs of completions, one after the other, gives the first report followed by the second. |
| `Printer.ReportInArrivalOrder` | src/lib.rs:298-338 | Each completion's entry is in the report, after the entries of the completions that arrived before it and before those that arrived after it. |
| `Printer.TerseReport` | src/printer.rs:127-137 | In terse mode, the tests' text is one character per completion, in order, each the character of that completion's outcome. |
| `Runner.Sequential` | src/lib.rs:296 | Defines the sequential path: the thread count is exactly `Some(1)`. |
| `Runner.RunTests` | src/lib.rs:248-349 | `--list` is reported exactly when given, with the kept tests and an all-zero conclusion, whatever the runner would answer. Otherwise the conclusion and failures are the fold of the arrived completions, started from the filtered-out count. |
| `Runner.AggregateAccountsForEveryTest` | src/lib.rs:253-293 | Filtered out + passed + failed + ignored + measured equals the number of tests given. The failure list has one entry per failure. |
| `Runner.PoolAgreesWithSequential` | src/lib.rs:309-339 | For any delivery order, the pool reaches the conclusion the sequential loop reaches, and the same failures up to order. |
| `Runner.IgnoredTestsNeverRun` | src/lib.rs:302-306 | On the sequential path, what the runner answers for filtered-out or ignored tests changes nothing in the run. |
| `Runner.PoolIgnoredArriveIgnored` | src/lib.rs:316-319 | On the pool path, every delivered ignored test arrives as `Ignored` and is one of the kept tests. |
| `Runner.ColorChangePerToken` | src/lib.rs:272-346 | A run that is not a listing changes colour exactly once per kept test plus once for the verdict. Together with `Runner.OutputStyled`, every outcome token and the verdict are coloured, and nothing else is. |
| `Runner.OutputStyled` | src/lib.rs:272-346 | Apart from the failure listing, whose colours are not modelled, a run uses colour only around outcome tokens, each reset right after. |
| `Runner.SequentialTerseOutput` | src/lib.rs:273-308 | A sequential terse run's text starts with the title followed by one outcome character per kept test, in catalogue order. |
| `Runner.RunSequentially` | src/lib.rs:253-349 | The loop-based run produces exactly the run that `Runner.RunTests` describes: same conclusion, failures and output. |
| `Runner.RunLoop` | src/lib.rs:296-308 | The loop leaves the fold of all completions as its state, and writes each test's announcement and outcome, in order, after the title. |
| `Scenarios.IgnoredInTheMiddleCounts` | src/lib.rs:296-308 | With one thread and the middle of three tests ignored, the run ends with 2 passed, 1 ignored, no failures and exit status 0. |
| `Scenarios.IgnoredInTheMiddleOutput` | src/printer.rs:127-137 | The same quiet run writes `running 3 tests` followed by `.i.`. |
| `Scenarios.FilterByLetterKeepsAll` | src/lib.rs:198-218 | Filtering `alpha`, `beta`, `calpha` by `a` keeps all three and filters out none. |
| `Scenarios.ListingBenchSuite` | src/lib.rs:266-270 | `--list` on one benchmark whose runner would answer `Measured` lists the benchmark and concludes with the empty conclusion. |
| `Scenarios.FilteredBenchNeverRun` | src/lib.rs:255-270 | With one bench that the filter removes and a runner that would answer `Measured`, the run is well-defined: nothing is kept, one test is filtered out, and the conclusion is all zero apart from that one. |
| `Scenarios.FilterByWordDropsOne` | src/lib.rs:255-260 | Filtering the same names by `alpha` keeps `alpha` and `calpha`, in order, and filters out one. |

## Left out

- The thread pool, the channel and `pool.execute` are left out because they involve concurrency. They are modelled only as the arrival order, which is a parameter and must be a reordering of what was sent. A runner that hangs, and the `take(num_tests)` cut-off, are not modelled.
- Panics are left out: the runner is a total function and the output sink never fails. In the source, a panicking runner unwinds the sequential loop. On the pool path it leaves `receiver.iter().take(num_tests)` (`src/lib.rs:332`) waiting forever, because the calling thread still holds `sender` (`src/lib.rs:312`). Every `write!` and `set_color(...).unwrap()` in `src/printer.rs` panics when the sink fails.
- The `data` payload of `Test` is left out: the harness never reads it.
- `Test::test` and `Test::bench` are left out: they are constructors with no logic beyond default field values.
- `Arguments::from_args`, `from_iter` and the command-line parsing by clap are left out because they are a foreign library. Only the `Default` and `FromStr` impls of the two option types are modelled.
- `--include-ignored`, `--nocapture` and `--logfile` are left out: `run_tests` never reads the first two, and the log file is I/O.
- The choice of output stream (stdout, or a log file with or without ANSI codes) is left out because it is I/O. For the same reason the colour setting has no effect in the model: the colour effects are always recorded, and `Plain` shows what a colourless stream would.
- `print_list` and `print_failures` are not part of this model; `printer.rs` does not define them. A listing run returns the kept tests. The failure listing is one opaque effect that carries the failures. Its text is absent from `Plain`, and it is assumed to write no colour changes. `Printer.PrintFailures` and `Runner.OutputStyled` rest on that assumption.
- The `Json` format arms (`unimplemented!()`) are left out: `FormatSetting` has no such variant in `args.rs`, and the code panics there.
- Terminal width is left out because it needs Unicode data. Names and kinds are measured in characters (code points), as `chars().count()` does, so the sequence length of a string is its width.
- Counter overflow is left out. The `u64` counters and the `usize` widths are unbounded naturals here, because no catalogue in memory reaches 2^64 tests.
- `Conclusion::exit` and `exit_if_failed` are modelled as the status they pass to `process::exit` (`Harness.Conclusion.ExitCode`), because ending the process is I/O.
- Runner.RunTests: requires `RunnerPrintable`: the runner never answers `Measured` for a test it runs, one that survives filtering and is not ignored. `printer.rs` has no text for that outcome, so such a run has no defined output. The requirement does not apply to `--list` runs, which never call the runner.
