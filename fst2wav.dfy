/**
 * fst2wav's `main_fallible`: check the arguments, create the WAV file, parse
 * the VCD header, look up `clk` and `snd_out`, then run the falling-edge
 * sampler over the command stream, writing each sample to the WAV file.
 *
 * The file system, the VCD parser and `find_var` are not modelled: whether the
 * WAV file could be created, the parsed header (or a parse error) and the
 * stream of commands (each one read, or a read error) are parameters.  The WAV
 * writer is the sequence of samples written to it.
 */
module Fst2Wav {
  import opened Wrappers
  import opened BoundedInts
  import opened FallingEdge

  /** What `find_var` finds in the parsed header for `TOP.tb.clk` and `TOP.tb.snd_out`. */
  datatype Header = Header(clk: Option<IdCode>, sndOut: Option<IdCode>)

  /** One item the command iterator yields: a command, or an error reading it. */
  datatype ReadResult = Read(cmd: Command) | ReadError

  /** The result of `main_fallible`: success, or the exit code of the failure. */
  datatype Status = Success | Failure(code: uint8)

  /** The position of the first read error, or the length of the stream when there is none. */
  function FirstError(input: seq<ReadResult>): (n: nat)
    ensures n <= |input|
    ensures forall j :: 0 <= j < n ==> input[j].Read?
    ensures n < |input| ==> input[n].ReadError?
    decreases |input|
  {
    if input == [] || input[0].ReadError? then 0 else 1 + FirstError(input[1..])
  }

  /** The commands of a stream that holds no read error. */
  function Commands(input: seq<ReadResult>): (cmds: seq<Command>)
    requires forall j :: 0 <= j < |input| ==> input[j].Read?
  {
    seq(|input|, j requires 0 <= j < |input| && input[j].Read? => input[j].cmd)
  }

  /** The header was parsed and both variables were found in it. */
  predicate BothFound(header: Option<Header>)
  {
    header.Some? && header.value.clk.Some? && header.value.sndOut.Some?
  }

  /**
   * `main_fallible`.  `args` is the whole command line, program name included.
   * The checks run in the source's order, each failure with its own code, and
   * nothing is written before the command loop starts.  The loop writes the
   * samples of the commands read before the first read error and then stops
   * with code 6, or succeeds once the stream ends.
   */
  method MainFallible(args: seq<string>, wavCreated: bool, header: Option<Header>, input: seq<ReadResult>)
    returns (status: Status, written: seq<int16>)
    ensures |args| != 2 ==> status == Failure(1) && written == []
    ensures |args| == 2 && !wavCreated ==> status == Failure(3) && written == []
    ensures |args| == 2 && wavCreated && header.None? ==> status == Failure(4) && written == []
    ensures |args| == 2 && wavCreated && header.Some? && !BothFound(header) ==> status == Failure(5) && written == []
    ensures |args| == 2 && wavCreated && BothFound(header) ==>
      var n := FirstError(input);
      && written == Fold(Commands(input[..n]), header.value.clk.value, header.value.sndOut.value).samples
      && status == if n < |input| then Failure(6) else Success
  {
    written := [];
    if |args| != 2 {
      return Failure(1), written;
    }
    if !wavCreated {
      return Failure(3), written;
    }
    if header.None? {
      return Failure(4), written;
    }
    if header.value.clk.None? {
      return Failure(5), written;
    }
    var clk := header.value.clk.value;
    if header.value.sndOut.None? {
      return Failure(5), written;
    }
    var sndOut := header.value.sndOut.value;

    var clkVal, sndVal, k: uint64 := X, X, 0;
    var idx := 0;
    while idx < |input|
      invariant idx <= |input|
      invariant forall j :: 0 <= j < idx ==> input[j].Read?
      invariant Fold(Commands(input[..idx]), clk, sndOut) == Trace(Sampler(clkVal, sndVal, k), written)
    {
      if input[idx].ReadError? {
        return Failure(6), written;
      }
      var command := input[idx].cmd;
      match command {
        case ChangeScalar(i, v) =>
          if i == clk {
            if clkVal == V1 && v == V0 {
              var sample := match sndVal { case V1 => I16_MAX case _ => I16_MIN };
              written := written + [sample];
            }
            clkVal := v;
            k := WrappingAdd(k, 1);
          } else if i == sndOut {
            sndVal := v;
          }
        case Other =>
      }
      assert Commands(input[..idx + 1])[..idx] == Commands(input[..idx]);
      idx := idx + 1;
    }
    assert input[..idx] == input;
    status := Success;
  }

  /** The exit code `main` returns for a result of `main_fallible`: the error code, or 0. */
  function ExitCode(status: Status): (code: uint8)
    ensures status.Success? ==> code == 0
    ensures status.Failure? ==> code == status.code
  {
    match status
    case Success => 0
    case Failure(code) => code
  }

  /**
   * `main`: the process exit code.  It is one of 0, 1, 3, 4, 5 and 6, and it is
   * 0 exactly when the arguments, the WAV file, the header and both variables
   * were all fine and every command was read without error.
   */
  method Run(args: seq<string>, wavCreated: bool, header: Option<Header>, input: seq<ReadResult>)
    returns (code: uint8, written: seq<int16>)
    ensures code in {0, 1, 3, 4, 5, 6}
    ensures code == 0 <==> |args| == 2 && wavCreated && BothFound(header) && FirstError(input) == |input|
    ensures !(|args| == 2 && wavCreated && BothFound(header)) ==> written == []
    ensures |args| == 2 && wavCreated && BothFound(header) ==>
      written == Fold(Commands(input[..FirstError(input)]), header.value.clk.value, header.value.sndOut.value).samples
  {
    var status;
    status, written := MainFallible(args, wavCreated, header, input);
    code := ExitCode(status);
  }
}
