/**
  The `--color` and `--format` option values with their defaults and their
  string parsers, and the resolved command-line configuration the harness
  reads (src/args.rs).
 */
module Args {
  import opened Text

  /** Whether to colour the output. */
  datatype ColorSetting = Auto | Always | Never

  /** One line per test (`Pretty`) or one character per test (`Terse`). */
  datatype FormatSetting = Pretty | Terse

  /** The `Result<Self, &'static str>` a `from_str` returns. */
  datatype Parsed<T> = Ok(value: T) | Err(msg: string)

  /** The command-line spelling of each colour setting. */
  function ColorName(c: ColorSetting): string {
    match c
    case Auto => "auto"
    case Always => "always"
    case Never => "never"
  }

  /** The command-line spelling of each format setting. */
  function FormatName(f: FormatSetting): string {
    match f
    case Pretty => "pretty"
    case Terse => "terse"
  }

  /** `ColorSetting::default()`. */
  function DefaultColor(): (c: ColorSetting)
    ensures ColorName(c) == "auto"
  {
    Auto
  }

  /** `FormatSetting::default()`. */
  function DefaultFormat(): (f: FormatSetting)
    ensures FormatName(f) == "pretty"
  {
    Pretty
  }

  /** `ColorSetting::from_str`: exact, case-sensitive match of the three
      spellings; anything else is an error. */
  function ParseColor(s: string): (r: Parsed<ColorSetting>)
    ensures r.Ok? <==> s == "auto" || s == "always" || s == "never"
    ensures r.Ok? ==> ColorName(r.value) == s
    ensures r.Err? ==> r.msg == "invalid color setting"
  {
    if s == "auto" then Ok(Auto)
    else if s == "always" then Ok(Always)
    else if s == "never" then Ok(Never)
    else Err("invalid color setting")
  }

  /** `FormatSetting::from_str`: exact, case-sensitive match of the two
      spellings; anything else, `json` included, is an error. */
  function ParseFormat(s: string): (r: Parsed<FormatSetting>)
    ensures r.Ok? <==> s == "pretty" || s == "terse"
    ensures r.Ok? ==> FormatName(r.value) == s
    ensures r.Err? ==> r.msg == "invalid output format"
  {
    if s == "pretty" then Ok(Pretty)
    else if s == "terse" then Ok(Terse)
    else Err("invalid output format")
  }

  /** Every setting is reachable from its spelling, and each parser accepts
      exactly one spelling per setting. */
  lemma ParsersRoundTrip(c: ColorSetting, f: FormatSetting, s: string)
    ensures ParseColor(ColorName(c)) == Ok(c)
    ensures ParseFormat(FormatName(f)) == Ok(f)
    ensures ParseColor(s) == Ok(c) <==> s == ColorName(c)
    ensures ParseFormat(s) == Ok(f) <==> s == FormatName(f)
  {
  }

  /** Distinct accepted strings give distinct settings. */
  lemma ParsersInjective(s: string, t: string)
    requires s != t
    ensures ParseColor(s).Ok? && ParseColor(t).Ok? ==> ParseColor(s).value != ParseColor(t).value
    ensures ParseFormat(s).Ok? && ParseFormat(t).Ok? ==> ParseFormat(s).value != ParseFormat(t).value
  {
  }

  /** Matching is case-sensitive, and the machine-readable format is refused. */
  lemma ParsersRejectOtherSpellings()
    ensures ParseColor("Auto") == Err("invalid color setting")
    ensures ParseColor("") == Err("invalid color setting")
    ensures ParseFormat("json") == Err("invalid output format")
    ensures ParseFormat("Pretty") == Err("invalid output format")
  {
  }

  /** The resolved configuration of one run, with the field names the
      harness reads. `numThreads == Some(1)` selects the sequential path. */
  datatype Arguments = Arguments(
    filterString: Option<string>,
    exact: bool,
    skip: seq<string>,
    ignored: bool,
    test: bool,
    bench: bool,
    list: bool,
    quiet: bool,
    numThreads: Option<nat>,
    color: Option<ColorSetting>,
    format: Option<FormatSetting>)
}
