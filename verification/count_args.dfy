/**
 * The command-line layer of `tail` that the option library cannot handle:
 * the `-K` / `+K` count argument, the filter that pulls it out of the
 * argument list, and the resolution of the final configuration.
 */
module CountArgs {
  import opened TailBase

  predicate IsDigit(c: char) {
    '0' <= c <= '9'
  }

  predicate AllDigits(s: string) {
    forall i :: 0 <= i < |s| ==> IsDigit(s[i])
  }

  /** The decimal value of a string of digits, read most significant first. */
  function DigitsValue(s: string): nat
    requires AllDigits(s)
  {
    if s == [] then 0
    else 10 * DigitsValue(s[..|s| - 1]) + (s[|s| - 1] as int - '0' as int)
  }

  /** Parsing an unsigned number: a non-empty run of ASCII digits and nothing else. */
  function ParseUnsigned(s: string): (r: Option<nat>)
    ensures r.Some? <==> |s| > 0 && AllDigits(s)
    ensures r.Some? ==> r.value == DigitsValue(s)
  {
    if |s| > 0 && AllDigits(s) then Some(DigitsValue(s)) else None
  }

  function DigitChar(d: nat): (c: char)
    requires d < 10
    ensures IsDigit(c) && c as int - '0' as int == d
  {
    ('0' as int + d) as char
  }

  /** The shortest decimal spelling of `n`: the inverse partner of `DigitsValue`. */
  function Decimal(n: nat): string
  {
    if n < 10 then [DigitChar(n)] else Decimal(n / 10) + [DigitChar(n % 10)]
  }

  lemma {:induction false} DecimalRoundTrip(n: nat)
    ensures |Decimal(n)| > 0 && AllDigits(Decimal(n))
    ensures DigitsValue(Decimal(n)) == n
  {
    if n >= 10 {
      DecimalRoundTrip(n / 10);
      var s := Decimal(n);
      assert s[..|s| - 1] == Decimal(n / 10);
    }
  }

  /**
   * A count argument: longer than one character, a leading `-` (count from
   * the end) or `+` (count from the beginning), then an unsigned number.
   */
  function ParseCount(arg: string): (r: Option<(Anchor, nat)>)
    ensures r.Some? <==> |arg| > 1 && (arg[0] == '-' || arg[0] == '+') && AllDigits(arg[1..])
    ensures r.Some? ==> r.value == (if arg[0] == '-' then FromEnd else FromBeginning, DigitsValue(arg[1..]))
  {
    var maybeAnchor :=
      if |arg| > 1 && arg[0] == '-' then Some(FromEnd)
      else if |arg| > 1 && arg[0] == '+' then Some(FromBeginning)
      else None;
    if maybeAnchor.Some? then
      match ParseUnsigned(arg[1..])
      case Some(number) => Some((maybeAnchor.value, number))
      case None => None
    else
      None
  }

  function SignOf(anchor: Anchor): char {
    if anchor == FromEnd then '-' else '+'
  }

  /** Writing a count as `-K` or `+K` and parsing it back gives the count. */
  lemma ParseCountRoundTrip(anchor: Anchor, n: nat)
    ensures ParseCount([SignOf(anchor)] + Decimal(n)) == Some((anchor, n))
  {
    DecimalRoundTrip(n);
    var arg := [SignOf(anchor)] + Decimal(n);
    assert arg[1..] == Decimal(n);
  }

  /** A bare sign, an option letter, or a number without a sign is not a count. */
  lemma ParseCountRejects(s: string)
    requires |s| > 0 && AllDigits(s)
    ensures ParseCount("-") == None && ParseCount("+") == None
    ensures ParseCount("-n") == None && ParseCount("-c") == None
    ensures ParseCount(s) == None
  {
  }

  // ---------------------------------------------------------------------
  // Pre-processing of the argument list
  // ---------------------------------------------------------------------

  /** The "-1", "+2", ... argument, if one was given first. */
  datatype OddOpts = OddOpts(mode: Option<Mode>)

  datatype Preprocessed = Preprocessed(args: seq<string>, odd: OddOpts)

  /** Argument `j` is the value of a `-c` or `-n` option. */
  predicate AfterCountOption(args: seq<string>, j: nat)
    requires j < |args|
  {
    0 < j && (args[j - 1] == "-c" || args[j - 1] == "-n")
  }

  /** Argument `j` is taken as a count argument and removed from the list. */
  predicate IsOddCount(args: seq<string>, j: nat)
    requires j < |args|
  {
    !AfterCountOption(args, j) && ParseCount(args[j]).Some?
  }

  /** The mode the first real argument (index 1, after the program name) selects. */
  function LeadingMode(args: seq<string>): (m: Option<Mode>)
    ensures m.Some? <==> 1 < |args| && IsOddCount(args, 1)
    ensures m.Some? ==> m.value.unit == Lines
    ensures m.Some? ==> ParseCount(args[1]) == Some((m.value.anchor, m.value.count))
  {
    if 1 < |args| && IsOddCount(args, 1) then
      var p := ParseCount(args[1]).value;
      Some(Mode(Lines, p.0, p.1))
    else
      None
  }

  /** The arguments among the first `n` that survive the filter, in their original order. */
  function KeptArgs(args: seq<string>, n: nat): seq<string>
    requires n <= |args|
  {
    if n == 0 then []
    else KeptArgs(args, n - 1) + (if IsOddCount(args, n - 1) then [] else [args[n - 1]])
  }

  /**
   * When no count argument stands anywhere but right after the program
   * name, the filter removes that one (if present) and keeps every other
   * argument, in order.
   */
  lemma {:induction false} OnlyLeadingCountRemoved(args: seq<string>, n: nat)
    requires n <= |args|
    requires forall j :: 0 <= j < n && j != 1 ==> !IsOddCount(args, j)
    ensures KeptArgs(args, n) ==
      if 1 < n && IsOddCount(args, 1) then args[..1] + args[2..n] else args[..n]
  {
    if n > 0 {
      var m := n - 1;
      OnlyLeadingCountRemoved(args, m);
      if IsOddCount(args, m) {
        assert m == 1;
      } else if 1 < m && IsOddCount(args, 1) {
        assert args[2..n] == args[2..m] + [args[m]];
      } else {
        assert args[..n] == args[..m] + [args[m]];
      }
    }
  }

  /**
   * Filters the argument list: a count argument right after the program
   * name becomes the odd-option mode and is removed; one anywhere else is
   * an error (status 1); the value of a `-c` or `-n` option is never taken
   * as a count. Every other argument is kept, in order.
   */
  method PreprocessArgs(args: seq<string>) returns (r: Result<Preprocessed, int>)
    ensures r.Err? <==> exists j :: 0 <= j < |args| && j != 1 && IsOddCount(args, j)
    ensures r.Err? ==> r.error == 1
    ensures r.Ok? ==> r.value.odd.mode == LeadingMode(args)
    ensures r.Ok? ==> r.value.args == if LeadingMode(args).Some? then args[..1] + args[2..] else args
  {
    var mode: Option<Mode> := None;
    var success := true;
    var justSawDashCOrN := false;
    var kept: seq<string> := [];
    var i := 0;
    while i < |args|
      invariant 0 <= i <= |args|
      invariant justSawDashCOrN == (0 < i && (args[i - 1] == "-c" || args[i - 1] == "-n"))
      invariant kept == KeptArgs(args, i)
      invariant mode == if 1 < i then LeadingMode(args) else None
      invariant success == forall j :: 0 <= j < i && j != 1 ==> !IsOddCount(args, j)
    {
      var arg := args[i];
      var validCountPosition := i == 1;
      var keep := true;
      if !justSawDashCOrN {
        match ParseCount(arg)
        case Some((anchor, count)) =>
          if validCountPosition {
            mode := Some(Mode(Lines, anchor, count));
          } else {
            success := false;
          }
          keep := false;
        case None =>
          keep := true;
      }
      justSawDashCOrN := arg == "-c" || arg == "-n";
      if keep {
        kept := kept + [arg];
      }
      i := i + 1;
    }
    if success {
      OnlyLeadingCountRemoved(args, |args|);
      r := Ok(Preprocessed(kept, OddOpts(mode)));
    } else {
      r := Err(1);
    }
  }

  // ---------------------------------------------------------------------
  // Configuration
  // ---------------------------------------------------------------------

  /**
   * What the option parser reports: the value of `-n`/`--lines`, if any,
   * and the free (file) arguments. The `-c` value is never consulted.
   */
  datatype Matches = Matches(lines: Option<string>, free: seq<string>)

  datatype Config = Config(mode: Mode, files: seq<string>, printHeaders: bool)

  /**
   * The mode is the leading count if there was one, else the parsed `-n`
   * value, else the default; an unparseable `-n` value silently gives the
   * default. Headers are printed only for more than one file.
   */
  function ConfigFromMatches(m: Matches, odd: OddOpts): (c: Config)
    ensures c.files == m.free
    ensures c.printHeaders <==> |m.free| > 1
    ensures odd.mode.Some? ==> c.mode == odd.mode.value
    ensures odd.mode.None? && m.lines.Some? && ParseCount(m.lines.value).Some? ==>
      c.mode.unit == Lines && ParseCount(m.lines.value) == Some((c.mode.anchor, c.mode.count))
    ensures odd.mode.None? && (m.lines.None? || ParseCount(m.lines.value).None?) ==>
      c.mode == DefaultMode
    ensures (odd.mode.None? || odd.mode.value.unit == Lines) ==> c.mode.unit == Lines
  {
    var defaultMode := DefaultMode;
    var mode :=
      match m.lines
      case Some(countStr) =>
        (match ParseCount(countStr)
         case Some((anchor, count)) => Mode(Lines, anchor, count)
         case None => defaultMode)
      case None => defaultMode;
    var mode := if odd.mode.Some? then odd.mode.value else mode;
    Config(mode, m.free, |m.free| > 1)
  }

  /** `-n K` with an unsigned K is not a count, so it falls back to the default mode. */
  lemma UnsignedLinesValueFallsBack(s: string, free: seq<string>)
    requires |s| > 0 && AllDigits(s)
    ensures ConfigFromMatches(Matches(Some(s), free), OddOpts(None)).mode == DefaultMode
  {
  }
}
