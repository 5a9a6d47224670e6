/**
 * The positional-argument gate of ls-sim: six unsigned 64-bit numbers
 * (`N_OSC R_INC FRAC PHASE_BITS FREQ_RES duration`) followed by an output file
 * name.  Each way of getting the arguments wrong prints the usage text and
 * exits with code 1; only the "not enough arguments" paths add that line to it.
 */
module LsSimArgs {
  import opened Wrappers
  import opened BoundedInts

  // ---------------------------------------------------------------------------
  // Parsing one argument as Rust's `u64::from_str` does
  // ---------------------------------------------------------------------------

  predicate IsDigit(c: char)
  {
    '0' <= c <= '9'
  }

  predicate AllDigits(s: string)
  {
    forall j :: 0 <= j < |s| ==> IsDigit(s[j])
  }

  /** The value of a string of decimal digits, most significant first. */
  function DigitsValue(s: string): nat
    requires AllDigits(s)
    decreases |s|
  {
    if s == [] then 0 else DigitsValue(s[..|s| - 1]) * 10 + (s[|s| - 1] as int - '0' as int)
  }

  /**
   * `s.parse::<u64>().ok()`: an optional `+` sign (not on its own), then one or
   * more decimal digits whose value fits in 64 bits; anything else is refused.
   */
  function ParseU64(s: string): (r: Option<uint64>)
    ensures r.Some? ==> s != [] && (IsDigit(s[0]) || s[0] == '+')
    ensures r.Some? ==> forall j :: 0 < j < |s| ==> IsDigit(s[j])
    ensures s != [] && AllDigits(s) ==> (r.Some? <==> DigitsValue(s) <= U64_MAX)
    ensures s != [] && AllDigits(s) && r.Some? ==> r.value == DigitsValue(s)
    ensures s == "+" ==> r.None?
    ensures |s| > 1 && s[0] == '+' && AllDigits(s[1..]) ==>
      (r.Some? <==> DigitsValue(s[1..]) <= U64_MAX) && (r.Some? ==> r.value == DigitsValue(s[1..]))
  {
    var digits := if |s| > 1 && s[0] == '+' then s[1..] else s;
    if digits == [] || !AllDigits(digits) then None
    else if DigitsValue(digits) > U64_MAX then None
    else Some(DigitsValue(digits))
  }

  /** The decimal representation of `n`, without sign or leading zeros. */
  function DecimalString(n: nat): (s: string)
    ensures |s| > 0 && AllDigits(s)
    decreases n
  {
    (if n < 10 then [] else DecimalString(n / 10)) + ['0' + (n % 10) as char]
  }

  /** Every 64-bit value, written in decimal, parses back to itself. */
  lemma {:induction false} ParseDecimalString(n: uint64)
    ensures ParseU64(DecimalString(n)) == Some(n)
  {
    DigitsValueOfDecimalString(n);
  }

  lemma {:induction false} DigitsValueOfDecimalString(n: nat)
    ensures DigitsValue(DecimalString(n)) == n
    decreases n
  {
    var s := DecimalString(n);
    var prefix := if n < 10 then [] else DecimalString(n / 10);
    assert s[..|s| - 1] == prefix;
    if n >= 10 {
      DigitsValueOfDecimalString(n / 10);
    }
  }

  // ---------------------------------------------------------------------------
  // The gate
  // ---------------------------------------------------------------------------

  /** The parameters of the simulated `logistic_snd` module. */
  datatype Parameters = Parameters(nOsc: uint64, rInc: uint64, frac: uint64, phaseBits: uint64, freqRes: uint64)

  /** An accepted command line. */
  datatype Invocation = Invocation(params: Parameters, duration: uint64, outFname: string)

  /** Why a command line was refused. */
  datatype ArgError = NotEnough | NotNumeric | TooMany

  datatype Gate = Accepted(inv: Invocation) | Refused(error: ArgError)

  /** The first (at most) six arguments, each parsed as `u64`. */
  function LeadingNumbers(args: seq<string>): seq<Option<uint64>>
  {
    seq(if |args| < 6 then |args| else 6, j requires 0 <= j < |args| => ParseU64(args[j]))
  }

  predicate AllParsed(numeric: seq<Option<uint64>>)
  {
    forall j :: 0 <= j < |numeric| ==> numeric[j].Some?
  }

  /**
   * The gate of `main`.  `argv` is the whole command line, program name
   * included.  The first six arguments are parsed; fewer than six is "not
   * enough", an unparsable one among them is "not numeric", then a missing
   * seventh is "not enough" again and an eighth is "too many".
   */
  function ClassifyArgs(argv: seq<string>): (g: Gate)
    ensures g.Accepted? ==> |argv| == 8 && g.inv.outFname == argv[7]
    ensures g.Accepted? ==> ParseU64(argv[1]) == Some(g.inv.params.nOsc) && ParseU64(argv[6]) == Some(g.inv.duration)
    ensures |argv| < 7 ==> g == Refused(NotEnough)
  {
    var args := if argv == [] then [] else argv[1..];
    var numeric := LeadingNumbers(args);
    if |numeric| < 6 then Refused(NotEnough)
    else if !AllParsed(numeric) then Refused(NotNumeric)
    else if |args| < 7 then Refused(NotEnough)
    else if |args| > 7 then Refused(TooMany)
    else
      Accepted(Invocation(
        Parameters(numeric[0].value, numeric[1].value, numeric[2].value, numeric[3].value, numeric[4].value),
        numeric[5].value, args[6]))
  }

  /** `usage`: prints the usage text (with "not enough arguments" first when asked) and gives exit code 1. */
  function Usage(notEnough: bool): (code: uint8)
    ensures code == 1
  {
    1
  }

  /** The exit code for a refused command line: `usage`, told whether arguments were missing. */
  function RefusalExitCode(error: ArgError): uint8
  {
    Usage(error == NotEnough)
  }

  /** Six leading arguments all parse as `u64`. */
  predicate SixNumeric(args: seq<string>)
  {
    |args| >= 6 && forall j :: 0 <= j < 6 ==> ParseU64(args[j]).Some?
  }

  /**
   * The outcome of the gate for every shape of command line: the count check
   * comes before the numeric check, the numeric check before the file-name
   * check, and the file-name check before the "too many" check.  Every
   * refusal exits with code 1.
   */
  lemma ClassifyArgsOutcomes(argv: seq<string>)
    requires |argv| >= 1
    ensures var args := argv[1..];
      && (|args| < 6 ==> ClassifyArgs(argv) == Refused(NotEnough))
      && (|args| >= 6 && !SixNumeric(args) ==> ClassifyArgs(argv) == Refused(NotNumeric))
      && (|args| == 6 && SixNumeric(args) ==> ClassifyArgs(argv) == Refused(NotEnough))
      && (|args| > 7 && SixNumeric(args) ==> ClassifyArgs(argv) == Refused(TooMany))
      && (ClassifyArgs(argv).Accepted? <==> |args| == 7 && SixNumeric(args))
      && (ClassifyArgs(argv).Refused? ==> RefusalExitCode(ClassifyArgs(argv).error) == 1)
  {
    var args := argv[1..];
    if |args| >= 6 && !SixNumeric(args) {
      var j :| 0 <= j < 6 && ParseU64(args[j]).None?;
      assert LeadingNumbers(args)[j].None?;
    }
  }

  /** A command line of seven arguments whose first six parse is accepted with the parsed values. */
  lemma AcceptsSevenNumeric(argv: seq<string>, numbers: seq<uint64>)
    requires |argv| == 8 && |numbers| == 6
    requires forall j :: 0 <= j < 6 ==> ParseU64(argv[j + 1]) == Some(numbers[j])
    ensures ClassifyArgs(argv) == Accepted(Invocation(
      Parameters(numbers[0], numbers[1], numbers[2], numbers[3], numbers[4]), numbers[5], argv[7]))
  {
    var args := argv[1..];
    assert forall j :: 0 <= j < 6 ==> LeadingNumbers(args)[j] == Some(numbers[j]);
  }

  /** The numbers written out in decimal, one argument each. */
  function Render(numbers: seq<uint64>): (args: seq<string>)
    ensures |args| == |numbers|
  {
    seq(|numbers|, j requires 0 <= j < |numbers| => DecimalString(numbers[j]))
  }

  /**
   * Any five parameters and a duration, written out in decimal after the
   * program name and followed by any file name, are accepted and read back
   * unchanged.
   */
  lemma ClassifyArgsRoundTrip(prog: string, numbers: seq<uint64>, outFname: string)
    requires |numbers| == 6
    ensures ClassifyArgs([prog] + Render(numbers) + [outFname])
         == Accepted(Invocation(
              Parameters(numbers[0], numbers[1], numbers[2], numbers[3], numbers[4]), numbers[5], outFname))
  {
    var argv := [prog] + Render(numbers) + [outFname];
    forall j | 0 <= j < 6
      ensures ParseU64(argv[j + 1]) == Some(numbers[j])
    {
      ParseDecimalString(numbers[j]);
    }
    AcceptsSevenNumeric(argv, numbers);
  }
}
