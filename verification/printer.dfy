/**
  The text the harness writes: title, per-test line or character, coloured
  outcome tokens and the summary (src/printer.rs). The output stream is a
  sequence of effects; `Plain` is the text of the modelled writes as a
  colourless stream shows them. The failure listing is one opaque effect
  whose text is not part of this model, so `Plain` shows nothing for it.
 */
module Printer {
  import opened Text
  import opened Collections
  import opened Args
  import opened Harness

  /** Foreground colours used for outcome tokens. */
  datatype Color = Green | Red | Yellow

  /** One operation on the output stream. `FailureListing` stands for the
      listing of failures written before the summary, whose text is not part
      of this model. */
  datatype Effect =
    | Write(text: string)
    | SetColor(fg: Color)
    | ResetColor
    | FailureListing(failed: seq<Failure>)

  /** An effect that switches the foreground colour. */
  predicate IsColorChange(e: Effect) {
    e.SetColor?
  }

  /** A single effect counts once if it changes the colour. */
  lemma CountOne(e: Effect)
    ensures Count([e], IsColorChange) == if e.SetColor? then 1 else 0
  {
    assert [e][1..] == [];
  }

  /** The text of all modelled writes, in order; colour changes and the
      opaque failure listing show no text. */
  function Plain(out: seq<Effect>): string {
    if out == [] then []
    else (if out[0].Write? then out[0].text else []) + Plain(out[1..])
  }

  lemma {:induction false} PlainAppend(a: seq<Effect>, b: seq<Effect>)
    ensures Plain(a + b) == Plain(a) + Plain(b)
    decreases |a|
  {
    if a == [] {
      assert a + b == b;
    } else {
      assert (a + b)[1..] == a[1..] + b;
      PlainAppend(a[1..], b);
    }
  }

  /** The text of a three-part output. */
  lemma PlainOfThree(a: seq<Effect>, b: seq<Effect>, c: seq<Effect>)
    ensures Plain(a + b + c) == Plain(a) + Plain(b) + Plain(c)
  {
    PlainAppend(a, b);
    PlainAppend(a + b, c);
  }

  /** Two plain writes show their texts one after the other and no colour. */
  lemma WritesAppend(a: string, b: string)
    ensures Plain([Write(a), Write(b)]) == a + b
    ensures Styled([Write(a), Write(b)])
  {
    assert [Write(b)][1..] == [];
    assert Plain([Write(b)]) == b;
    assert [Write(a), Write(b)][1..] == [Write(b)];
  }

  predicate EndsWith(s: string, suffix: string) {
    |suffix| <= |s| && s[|s| - |suffix|..] == suffix
  }

  /** A line ending in ` test` plus a line break for one and ` tests` for
      any other count ends in `tests` exactly when the count is not one. */
  lemma PluralSuffix(front: string, n: nat)
    ensures EndsWith(front + (if n == 1 then " test\n" else " tests\n"), "tests\n") <==> n != 1
  {
    var tail := if n == 1 then " test\n" else " tests\n";
    AfterPrefix(front, tail);
    if n == 1 {
      assert (front + tail)[|front + tail| - 6..] == tail;
      assert tail[0] != "tests\n"[0];
    } else {
      AfterPrefix(front + " ", "tests\n");
      assert front + tail == (front + " ") + "tests\n";
    }
  }

  /** The state of a `Printer` that shapes its text. */
  datatype Printer = Printer(format: FormatSetting, nameWidth: nat, kindWidth: nat)

  /** `--quiet` forces the terse format; otherwise the requested format, or
      the default one. */
  function EffectiveFormat(args: Arguments): (f: FormatSetting)
    ensures args.quiet ==> f == Terse
    ensures !args.quiet && args.format.Some? ==> f == args.format.value
    ensures !args.quiet && args.format.None? ==> FormatName(f) == "pretty"
  {
    if args.quiet then Terse else args.format.GetOr(DefaultFormat())
  }

  /** The widest test name, in characters; 0 for no tests. */
  function NameWidth(tests: seq<Test>): (w: nat)
    ensures forall i :: 0 <= i < |tests| ==> |tests[i].name| <= w
    ensures tests == [] ==> w == 0
    ensures tests != [] ==> exists i :: 0 <= i < |tests| && |tests[i].name| == w
  {
    if tests == [] then 0 else Max(|tests[0].name|, NameWidth(tests[1..]))
  }

  /** Room a kind takes before the name: the kind, two brackets and a space;
      nothing for an empty kind. */
  function LabelWidth(kind: string): nat {
    if kind == [] then 0 else |kind| + 3
  }

  /** The widest kind label; 0 when no test has a kind. */
  function KindWidth(tests: seq<Test>): (w: nat)
    ensures forall i :: 0 <= i < |tests| ==> LabelWidth(tests[i].kind) <= w
    ensures (forall i :: 0 <= i < |tests| ==> tests[i].kind == []) ==> w == 0
    ensures w > 0 ==> exists i :: 0 <= i < |tests| && tests[i].kind != [] && |tests[i].kind| + 3 == w
  {
    if tests == [] then 0 else Max(LabelWidth(tests[0].kind), KindWidth(tests[1..]))
  }

  /** `Printer::new` without the output stream: format choice and the widths
      of the two columns, computed over the tests that will run. */
  function NewPrinter(args: Arguments, tests: seq<Test>): (p: Printer)
    ensures p.format == EffectiveFormat(args)
    ensures p.nameWidth == NameWidth(tests) && p.kindWidth == KindWidth(tests)
    ensures forall i :: 0 <= i < |tests| ==> |tests[i].name| <= p.nameWidth && LabelWidth(tests[i].kind) <= p.kindWidth
    ensures tests == [] ==> p.nameWidth == 0 && p.kindWidth == 0
  {
    Printer(EffectiveFormat(args), NameWidth(tests), KindWidth(tests))
  }

  /** `print_title`: an empty line, then `running N test`, with an `s`
      unless N is 1. */
  function PrintTitle(p: Printer, n: nat): (out: seq<Effect>)
    ensures Plain(out) == "\nrunning " + NatToString(n) + (if n == 1 then " test\n" else " tests\n")
    ensures Styled(out)
    ensures Count(out, IsColorChange) == 0
  {
    var plural := if n == 1 then "" else "s";
    var line := "running " + NatToString(n) + " test" + plural + "\n";
    WritesAppend("\n", line);
    CountOne(Write("\n"));
    CountOne(Write(line));
    CountAppend([Write("\n")], [Write(line)], IsColorChange);
    [Write("\n"), Write(line)]
  }

  /** The title of a run of three tests. */
  lemma ThreeTestsTitle(p: Printer)
    ensures Plain(PrintTitle(p, 3)) == "\nrunning 3 tests\n"
  {
    assert NatToString(3) == "3";
  }

  /** The count a title line announces: the digits after `\nrunning `. */
  function CountInTitle(text: string): nat
    requires 9 <= |text|
  {
    ParseDecimal(LeadingDigits(text[9..]))
  }

  /** The title announces exactly the number of tests, and pluralises all
      counts but one. */
  lemma TitleStatesCount(p: Printer, n: nat)
    ensures |Plain(PrintTitle(p, n))| >= 9
    ensures CountInTitle(Plain(PrintTitle(p, n))) == n
    ensures EndsWith(Plain(PrintTitle(p, n)), "tests\n") <==> n != 1
  {
    var digits := NatToString(n);
    var tail := if n == 1 then " test\n" else " tests\n";
    var front := "\nrunning " + digits;
    var text := Plain(PrintTitle(p, n));
    assert text == front + tail;
    RegroupFirst("\nrunning ", digits, tail);
    AfterPrefix("\nrunning ", digits + tail);
    assert text[9..] == digits + tail;
    LeadingDigitsOf(digits, tail);
    DecimalRoundTrip(n);
    PluralSuffix(front, n);
  }

  /** `[kind] ` for a non-empty kind, nothing otherwise. */
  function KindLabel(kind: string): (l: string)
    ensures |l| == LabelWidth(kind)
    ensures kind != [] ==> l == "[" + kind + "] "
    ensures kind == [] ==> l == []
  {
    if kind == [] then [] else "[" + kind + "] "
  }

  /** The text `print_test` writes in pretty mode: `test `, the kind tag
      and the name, each padded to its column width, and ` ... `. */
  function Announcement(p: Printer, name: string, kind: string): (text: string)
    ensures var nameAt := 5 + Max(LabelWidth(kind), p.kindWidth);
      && |text| == nameAt + Max(|name|, p.nameWidth) + 5
      && text[..5] == "test "
      && text[5..5 + LabelWidth(kind)] == KindLabel(kind)
      && text[nameAt..nameAt + |name|] == name
      && text[|text| - 5..] == " ... "
      && (forall j :: 5 + LabelWidth(kind) <= j < nameAt ==> text[j] == ' ')
      && (forall j :: nameAt + |name| <= j < |text| - 5 ==> text[j] == ' ')
  {
    var padded := PadRight(KindLabel(kind), p.kindWidth);
    var column := PadRight(name, p.nameWidth);
    FourParts("test ", padded, column, " ... ");
    "test " + padded + column + " ... "
  }

  /** `print_test`: the announcement in pretty mode, in one write; nothing in
      terse mode. */
  function PrintTest(p: Printer, name: string, kind: string): (out: seq<Effect>)
    ensures p.format.Terse? ==> out == []
    ensures p.format.Pretty? ==> |out| == 1 && out[0].Write? && Plain(out) == Announcement(p, name, kind)
    ensures Count(out, IsColorChange) == 0
  {
    match p.format
    case Pretty =>
      assert [Write(Announcement(p, name, kind))][1..] == [];
      CountOne(Write(Announcement(p, name, kind)));
      [Write(Announcement(p, name, kind))]
    case Terse => []
  }

  /** Every test of the list the printer was made for gets a prefix of the
      same length, so outcomes line up in one column. */
  lemma AlignedPrefixes(args: Arguments, tests: seq<Test>, i: nat)
    requires i < |tests|
    requires EffectiveFormat(args) == Pretty
    ensures var p := NewPrinter(args, tests);
      |Plain(PrintTest(p, tests[i].name, tests[i].kind))| == 5 + p.kindWidth + p.nameWidth + 5
  {
  }

  /** The colour of an outcome's token. */
  function ColorOf(o: Outcome): Color
    requires !o.Measured?
  {
    match o
    case Passed => Green
    case Failed(_) => Red
    case Ignored => Yellow
  }

  /** The word pretty mode prints for an outcome. */
  function PrettyToken(o: Outcome): string
    requires !o.Measured?
  {
    match o
    case Passed => "ok"
    case Failed(_) => "FAILED"
    case Ignored => "ignored"
  }

  /** The character terse mode prints for an outcome. */
  function TerseToken(o: Outcome): char
    requires !o.Measured?
  {
    match o
    case Passed => '.'
    case Failed(_) => 'F'
    case Ignored => 'i'
  }

  /** The colour that belongs to an outcome token, if the text is one. */
  function TokenColor(text: string): Option<Color> {
    if text == "ok" || text == "." then Some(Green)
    else if text == "FAILED" || text == "F" then Some(Red)
    else if text == "ignored" || text == "i" then Some(Yellow)
    else None
  }

  predicate SameKind(o: Outcome, o': Outcome) {
    || (o.Passed? && o'.Passed?)
    || (o.Failed? && o'.Failed?)
    || (o.Ignored? && o'.Ignored?)
    || (o.Measured? && o'.Measured?)
  }

  /** Tokens and colours tell the three printable outcomes apart, and each
      token carries its outcome's colour. */
  lemma TokensIdentifyOutcome(o: Outcome, o': Outcome)
    requires !o.Measured? && !o'.Measured?
    ensures PrettyToken(o) == PrettyToken(o') <==> SameKind(o, o')
    ensures TerseToken(o) == TerseToken(o') <==> SameKind(o, o')
    ensures ColorOf(o) == ColorOf(o') <==> SameKind(o, o')
    ensures TokenColor(PrettyToken(o)) == Some(ColorOf(o))
    ensures TokenColor([TerseToken(o)]) == Some(ColorOf(o))
  {
  }

  /** Colour is only ever set immediately before an outcome token of that
      colour and reset immediately after it: the output is a run of
      uncoloured writes and listings, and of triples made of a colour, one
      token of that colour, and a reset. */
  predicate Styled(out: seq<Effect>)
    decreases |out|
  {
    if out == [] then true
    else if out[0].SetColor? then
      && 3 <= |out|
      && out[1].Write?
      && TokenColor(out[1].text) == Some(out[0].fg)
      && out[2].ResetColor?
      && Styled(out[3..])
    else !out[0].ResetColor? && Styled(out[1..])
  }

  /** Styled outputs written one after the other stay styled. */
  lemma {:induction false} StyledAppend(a: seq<Effect>, b: seq<Effect>)
    requires Styled(a) && Styled(b)
    ensures Styled(a + b)
    decreases |a|
  {
    if a == [] {
      assert a + b == b;
    } else if a[0].SetColor? {
      assert (a + b)[3..] == a[3..] + b;
      StyledAppend(a[3..], b);
    } else {
      assert (a + b)[1..] == a[1..] + b;
      StyledAppend(a[1..], b);
    }
  }

  /** Four styled outputs written one after the other stay styled. */
  lemma StyledFour(a: seq<Effect>, b: seq<Effect>, c: seq<Effect>, d: seq<Effect>)
    requires Styled(a) && Styled(b) && Styled(c) && Styled(d)
    ensures Styled(a + b + c + d)
  {
    StyledAppend(a, b);
    StyledAppend(a + b, c);
    StyledAppend(a + b + c, d);
  }

  /** Writes `token` in `color`, restoring the stream's colour after it. */
  function Colored(color: Color, token: string): (out: seq<Effect>)
    requires TokenColor(token) == Some(color)
    ensures Styled(out)
    ensures Plain(out) == token
    ensures |out| == 3 && out[0] == SetColor(color) && out[1] == Write(token) && out[2] == ResetColor
    ensures Count(out, IsColorChange) == 1
  {
    var out := [SetColor(color), Write(token), ResetColor];
    assert out[1..] == [Write(token), ResetColor];
    assert out[1..][1..] == [ResetColor];
    assert [ResetColor][1..] == [];
    assert Plain([ResetColor]) == [];
    assert Plain(out[1..]) == token;
    assert Count(out[1..][1..], IsColorChange) == 0;
    out
  }

  /** `print_outcome_pretty`: the outcome's word in the outcome's colour. */
  function PrintOutcomePretty(o: Outcome): (out: seq<Effect>)
    requires !o.Measured?
    ensures Styled(out)
    ensures Plain(out) == PrettyToken(o)
    ensures |out| == 3 && out[0] == SetColor(ColorOf(o)) && out[1] == Write(PrettyToken(o)) && out[2] == ResetColor
    ensures Count(out, IsColorChange) == 1
  {
    Colored(ColorOf(o), PrettyToken(o))
  }

  /** `print_single_outcome`: the coloured word and a line break in pretty
      mode, the coloured character alone in terse mode. */
  function PrintSingleOutcome(p: Printer, o: Outcome): (out: seq<Effect>)
    requires !o.Measured?
    ensures Styled(out)
    ensures p.format.Pretty? ==> Plain(out) == PrettyToken(o) + "\n"
    ensures p.format.Terse? ==> Plain(out) == [TerseToken(o)]
    ensures 3 <= |out| && out[0] == SetColor(ColorOf(o)) && out[2] == ResetColor
    ensures out[1] == Write(if p.format.Pretty? then PrettyToken(o) else [TerseToken(o)])
    ensures Count(out, IsColorChange) == 1
  {
    match p.format
    case Pretty =>
      PlainAppend(PrintOutcomePretty(o), [Write("\n")]);
      StyledAppend(PrintOutcomePretty(o), [Write("\n")]);
      CountOne(Write("\n"));
      CountAppend(PrintOutcomePretty(o), [Write("\n")], IsColorChange);
      PrintOutcomePretty(o) + [Write("\n")]
    case Terse =>
      Colored(ColorOf(o), [TerseToken(o)])
  }

  /** `print_summary`: an empty line, `test result: ` with the coloured
      verdict, the counts (the measured count is the literal `-1`), and an
      empty line; the same in both formats. */
  function PrintSummary(p: Printer, c: Conclusion): (out: seq<Effect>)
    ensures Plain(out) ==
      "\n" + "test result: " + (if c.HasFailed() then "FAILED" else "ok") + SummaryCounts(c) + "\n"
    ensures 5 <= |out| && out[2] == SetColor(if c.HasFailed() then Red else Green) && out[4] == ResetColor
    ensures out[3] == Write(if c.HasFailed() then "FAILED" else "ok")
    ensures Count(out, IsColorChange) == 1
  {
    var verdict := if c.HasFailed() then Failed(None) else Passed;
    var head := [Write("\n"), Write("test result: ")];
    var mid := PrintOutcomePretty(verdict);
    var tail := [Write(SummaryCounts(c)), Write("\n")];
    WritesAppend("\n", "test result: ");
    WritesAppend(SummaryCounts(c), "\n");
    PlainAppend(head, mid);
    PlainAppend(head + mid, tail);
    SummaryColorChanges(head, mid, tail);
    head + mid + tail
  }

  /** The colour changes of the summary's three parts: none in the plain
      writes around the verdict. */
  lemma SummaryColorChanges(head: seq<Effect>, mid: seq<Effect>, tail: seq<Effect>)
    requires |head| == 2 && head[0].Write? && head[1].Write?
    requires |tail| == 2 && tail[0].Write? && tail[1].Write?
    requires Count(mid, IsColorChange) == 1
    ensures Count(head + mid + tail, IsColorChange) == 1
  {
    assert head == [head[0]] + [head[1]];
    assert tail == [tail[0]] + [tail[1]];
    CountOne(head[0]);
    CountOne(head[1]);
    CountOne(tail[0]);
    CountOne(tail[1]);
    CountAppend([head[0]], [head[1]], IsColorChange);
    CountAppend([tail[0]], [tail[1]], IsColorChange);
    CountAppend(head, mid, IsColorChange);
    CountAppend(head + mid, tail, IsColorChange);
  }

  /** The summary colours its verdict word and nothing else. */
  lemma SummaryStyled(p: Printer, c: Conclusion)
    ensures Styled(PrintSummary(p, c))
  {
    var verdict := if c.HasFailed() then Failed(None) else Passed;
    var head := [Write("\n"), Write("test result: ")];
    var mid := PrintOutcomePretty(verdict);
    var tail := [Write(SummaryCounts(c)), Write("\n")];
    WritesAppend("\n", "test result: ");
    WritesAppend(SummaryCounts(c), "\n");
    StyledAppend(head, mid);
    StyledAppend(head + mid, tail);
    assert PrintSummary(p, c) == head + mid + tail;
  }

  /** The counts part of the summary line, the measured count being the
      literal `-1`. */
  function SummaryCounts(c: Conclusion): (s: string)
    ensures ". " <= s
    ensures EndsWith(s, " filtered out\n")
  {
    var tail := NatToString(c.numFilteredOut) + " filtered out\n";
    var s := ". " + (NatToString(c.numPassed) + (" passed; "
      + (NatToString(c.numFailed) + (" failed; "
      + (NatToString(c.numIgnored) + (" ignored; -1 measured; " + tail))))));
    assert s[..2] == ". ";
    AfterPrefix(NatToString(c.numFilteredOut), " filtered out\n");
    s
  }

  /** The four numbers the counts part shows. */
  datatype Counts = Counts(passed: nat, failed: nat, ignored: nat, filteredOut: nat)

  /** Reads the numbers back from a counts part: `. `, passed, ` passed; `,
      failed, ` failed; `, ignored, ` ignored; -1 measured; `, filtered out,
      ` filtered out` and a line break. */
  function ReadCounts(s: string): Option<Counts> {
    match ReadField(s, ". ")
    case None => None
    case Some((passed, s1)) =>
      match ReadField(s1, " passed; ")
      case None => None
      case Some((failed, s2)) =>
        match ReadField(s2, " failed; ")
        case None => None
        case Some((ignored, s3)) =>
          match ReadField(s3, " ignored; -1 measured; ")
          case None => None
          case Some((filteredOut, s4)) =>
            if s4 == " filtered out\n" then Some(Counts(passed, failed, ignored, filteredOut)) else None
  }

  /** The counts part shows the conclusion's passed, failed, ignored and
      filtered-out counters, in that order, with `-1` for measured. */
  lemma SummaryCountsReadBack(c: Conclusion)
    ensures ReadCounts(SummaryCounts(c)) == Some(Counts(c.numPassed, c.numFailed, c.numIgnored, c.numFilteredOut))
  {
    var r4 := " filtered out\n";
    var r3 := " ignored; -1 measured; " + (NatToString(c.numFilteredOut) + r4);
    var r2 := " failed; " + (NatToString(c.numIgnored) + r3);
    var r1 := " passed; " + (NatToString(c.numFailed) + r2);
    ReadFieldOf(". ", c.numPassed, r1);
    ReadFieldOf(" passed; ", c.numFailed, r2);
    ReadFieldOf(" failed; ", c.numIgnored, r3);
    ReadFieldOf(" ignored; -1 measured; ", c.numFilteredOut, r4);
  }

  /** The summary opens with `FAILED` exactly when the run exits with 101,
      and with `ok` exactly when it exits with 0. */
  lemma SummaryVerdict(p: Printer, c: Conclusion)
    ensures "\ntest result: FAILED. " <= Plain(PrintSummary(p, c)) <==> c.ExitCode() == 101
    ensures "\ntest result: ok. " <= Plain(PrintSummary(p, c)) <==> c.ExitCode() == 0
  {
    OpeningDecidesVerdict(if c.HasFailed() then "FAILED" else "ok", SummaryCounts(c));
  }

  /** Which verdict word follows `test result: ` is visible in the opening. */
  lemma OpeningDecidesVerdict(word: string, counts: string)
    requires word == "FAILED" || word == "ok"
    requires ". " <= counts
    ensures var text := "\n" + "test result: " + word + counts + "\n";
      && ("\ntest result: FAILED. " <= text <==> word == "FAILED")
      && ("\ntest result: ok. " <= text <==> word == "ok")
  {
    var opening := "\n" + "test result: " + word;
    var text := opening + counts + "\n";
    assert text[14] == word[0];
    assert text[..|opening| + 2] == opening + ". ";
  }

  /** The failure listing `run_tests` asks for when at least one test
      failed: one opaque listing effect, nothing when no test failed. Its
      text is not modelled, so it adds nothing to `Plain`, and it is taken
      to set no colour. */
  function PrintFailures(failed: seq<Failure>): (out: seq<Effect>)
    ensures out == [] <==> failed == []
    ensures out != [] ==> out == [FailureListing(failed)]
    ensures Styled(out) && Plain(out) == []
    ensures Count(out, IsColorChange) == 0
  {
    if failed == [] then [] else CountOne(FailureListing(failed)); [FailureListing(failed)]
  }

  /** What the harness writes for one test: its announcement and then its
      outcome, as one unit. */
  function Entry(p: Printer, c: Completion): (out: seq<Effect>)
    requires !c.outcome.Measured?
    ensures Styled(out)
    ensures p.format.Terse? ==> Plain(out) == [TerseToken(c.outcome)]
    ensures p.format.Pretty? ==> Plain(out) == Plain(PrintTest(p, c.test.name, c.test.kind)) + PrettyToken(c.outcome) + "\n"
    ensures Count(out, IsColorChange) == 1
  {
    var announce := PrintTest(p, c.test.name, c.test.kind);
    PlainAppend(announce, PrintSingleOutcome(p, c.outcome));
    StyledAppend(announce, PrintSingleOutcome(p, c.outcome));
    CountAppend(announce, PrintSingleOutcome(p, c.outcome), IsColorChange);
    announce + PrintSingleOutcome(p, c.outcome)
  }

  /** No completion carries an outcome the printer has no text for. */
  predicate Printable(cs: seq<Completion>) {
    forall i :: 0 <= i < |cs| ==> !cs[i].outcome.Measured?
  }

  /** The entries of the completions, in the order given. */
  function Report(p: Printer, cs: seq<Completion>): (out: seq<Effect>)
    requires Printable(cs)
    ensures Styled(out)
    ensures Count(out, IsColorChange) == |cs|
  {
    if cs == [] then []
    else
      StyledAppend(Entry(p, cs[0]), Report(p, cs[1..]));
      CountAppend(Entry(p, cs[0]), Report(p, cs[1..]), IsColorChange);
      Entry(p, cs[0]) + Report(p, cs[1..])
  }

  /** A non-empty report is the first entry followed by the rest. */
  lemma ReportFirst(p: Printer, cs: seq<Completion>)
    requires Printable(cs) && cs != []
    ensures Printable(cs[1..])
    ensures Report(p, cs) == Entry(p, cs[0]) + Report(p, cs[1..])
  {
  }

  /** The report of two runs of completions is the report of the first
      followed by the report of the second. */
  lemma {:induction false} ReportConcat(p: Printer, a: seq<Completion>, b: seq<Completion>)
    requires Printable(a) && Printable(b)
    ensures Printable(a + b)
    ensures Report(p, a + b) == Report(p, a) + Report(p, b)
    decreases |a|
  {
    if a == [] {
      assert a + b == b;
    } else {
      assert (a + b)[1..] == a[1..] + b;
      ReportConcat(p, a[1..], b);
      RegroupFirst(Entry(p, a[0]), Report(p, a[1..]), Report(p, b));
    }
  }

  /** Each completion's entry sits in the report after the entries of the
      completions that arrived before it and before those of the ones that
      arrived after it. */
  lemma ReportInArrivalOrder(p: Printer, cs: seq<Completion>, i: nat)
    requires Printable(cs) && i < |cs|
    ensures Printable(cs[..i]) && Printable(cs[i + 1..])
    ensures Report(p, cs) == Report(p, cs[..i]) + Entry(p, cs[i]) + Report(p, cs[i + 1..])
  {
    assert cs == cs[..i] + cs[i..];
    ReportConcat(p, cs[..i], cs[i..]);
    ReportFirst(p, cs[i..]);
    assert cs[i..][1..] == cs[i + 1..];
    RegroupFirst(Report(p, cs[..i]), Entry(p, cs[i]), Report(p, cs[i + 1..]));
  }

  /** One character per completion, in the order given. */
  function TerseLine(cs: seq<Completion>): (line: string)
    requires Printable(cs)
    ensures |line| == |cs|
    ensures forall i :: 0 <= i < |cs| ==> line[i] == TerseToken(cs[i].outcome)
  {
    if cs == [] then [] else [TerseToken(cs[0].outcome)] + TerseLine(cs[1..])
  }

  /** In terse mode the report is one character per completion, in order,
      with nothing between them. */
  lemma {:induction false} TerseReport(p: Printer, cs: seq<Completion>)
    requires Printable(cs)
    requires p.format == Terse
    ensures Plain(Report(p, cs)) == TerseLine(cs)
  {
    if cs != [] {
      TerseReport(p, cs[1..]);
      PlainAppend(Entry(p, cs[0]), Report(p, cs[1..]));
    }
  }
}
