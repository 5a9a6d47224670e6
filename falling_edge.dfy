/**
 * The falling-edge sampler of fst2wav: a state machine folded over the
 * value-change commands of a VCD trace.  It remembers the last value of the
 * `clk` variable and of the `snd_out` variable, and on every change of `clk`
 * from 1 to 0 it emits one full-scale 16-bit sample taken from `snd_out`.
 *
 * `Step` and `Fold` are the loop as written; `LastValueOf`, `FallingEdges` and
 * `ExpectedSamples` describe the same output independently ("one sample per
 * falling edge, in order, each the `snd_out` value in effect just before that
 * edge"), and the lemmas connect the two.
 */
module FallingEdge {
  import opened BoundedInts

  /** A VCD scalar value: unknown, high impedance, 0 or 1. */
  datatype Value = X | Z | V0 | V1

  /** The identifier code the VCD header assigns to a variable. */
  type IdCode = nat

  /** A VCD command: a scalar value change, or any other command. */
  datatype Command = ChangeScalar(id: IdCode, value: Value) | Other

  /** The mutable locals of the command loop: `clk_val`, `snd_val` and the counter `k`. */
  datatype Sampler = Sampler(clkVal: Value, sndVal: Value, k: uint64)

  /** Both values start unknown and no clock change has been counted. */
  const Start: Sampler := Sampler(X, X, 0)

  /** The sample written for a `snd_out` value: full scale positive for 1, negative otherwise. */
  function SampleOf(snd: Value): (r: int16)
    ensures r == I16_MAX <==> snd == V1
    ensures r != I16_MAX ==> r == I16_MIN
  {
    if snd == V1 then I16_MAX else I16_MIN
  }

  /**
   * One pass of the command loop: the new locals and the samples written.  At
   * most one sample is written, and one exactly on a change of the clock from
   * 1 to 0; only a clock change moves the counter.
   */
  function Step(s: Sampler, cmd: Command, clk: IdCode, sndOut: IdCode): (r: (Sampler, seq<int16>))
    ensures |r.1| <= 1
    ensures |r.1| == 1 <==> cmd == ChangeScalar(clk, V0) && s.clkVal == V1
    ensures r.0.k == if cmd.ChangeScalar? && cmd.id == clk then (s.k + 1) % (U64_MAX + 1) else s.k
  {
    match cmd
    case ChangeScalar(i, v) =>
      if i == clk then
        var out := if s.clkVal == V1 && v == V0 then [SampleOf(s.sndVal)] else [];
        (Sampler(v, s.sndVal, WrappingAdd(s.k, 1)), out)
      else if i == sndOut then
        (s.(sndVal := v), [])
      else
        (s, [])
    case Other => (s, [])
  }

  /** The locals after a run of commands and every sample written so far, in order. */
  datatype Trace = Trace(state: Sampler, samples: seq<int16>)

  /**
   * The command loop run over `cmds` from the start state.  Every sample needs
   * a change of the clock to 0 of its own.
   */
  function Fold(cmds: seq<Command>, clk: IdCode, sndOut: IdCode): (t: Trace)
    ensures |t.samples| <= ChangesTo(cmds, clk, V0)
    decreases |cmds|
  {
    if cmds == [] then Trace(Start, [])
    else
      var t := Fold(cmds[..|cmds| - 1], clk, sndOut);
      var (s, out) := Step(t.state, cmds[|cmds| - 1], clk, sndOut);
      Trace(s, t.samples + out)
  }

  // ---------------------------------------------------------------------------
  // An independent description of what the loop computes
  // ---------------------------------------------------------------------------

  /** The value of the last change of `id` in `cmds`, or X when there is none. */
  function LastValueOf(cmds: seq<Command>, id: IdCode): Value
    decreases |cmds|
  {
    if cmds == [] then X
    else
      var c := cmds[|cmds| - 1];
      if c.ChangeScalar? && c.id == id then c.value else LastValueOf(cmds[..|cmds| - 1], id)
  }

  /**
   * The `snd_out` value in effect after `cmds`.  When both variables share one
   * identifier code, every change of it is taken as a clock change, so the
   * sound value is never updated.
   */
  function LastSnd(cmds: seq<Command>, clk: IdCode, sndOut: IdCode): Value
  {
    if clk == sndOut then X else LastValueOf(cmds, sndOut)
  }

  /** The number of changes of `id` in `cmds`. */
  function Changes(cmds: seq<Command>, id: IdCode): nat
    decreases |cmds|
  {
    if cmds == [] then 0
    else
      var c := cmds[|cmds| - 1];
      Changes(cmds[..|cmds| - 1], id) + if c.ChangeScalar? && c.id == id then 1 else 0
  }

  /** The number of changes of `id` to the value `v` in `cmds`. */
  function ChangesTo(cmds: seq<Command>, id: IdCode, v: Value): nat
    decreases |cmds|
  {
    if cmds == [] then 0
    else ChangesTo(cmds[..|cmds| - 1], id, v) + if cmds[|cmds| - 1] == ChangeScalar(id, v) then 1 else 0
  }

  /** Command `j` sets the clock to 0 while its last value was 1. */
  predicate IsFallingEdge(cmds: seq<Command>, j: int, clk: IdCode)
  {
    0 <= j < |cmds| && cmds[j] == ChangeScalar(clk, V0) && LastValueOf(cmds[..j], clk) == V1
  }

  /** The positions of the clock's falling edges in `cmds`, in increasing order. */
  function FallingEdges(cmds: seq<Command>, clk: IdCode): (e: seq<nat>)
    ensures forall m :: 0 <= m < |e| ==> IsFallingEdge(cmds, e[m], clk)
    ensures forall j :: IsFallingEdge(cmds, j, clk) ==> j in e
    ensures forall m, n :: 0 <= m < n < |e| ==> e[m] < e[n]
    decreases |cmds|
  {
    if cmds == [] then []
    else
      var p := cmds[..|cmds| - 1];
      var e := FallingEdges(p, clk);
      assert forall j :: 0 <= j < |p| ==> cmds[..j] == p[..j] && cmds[j] == p[j];
      e + if IsFallingEdge(cmds, |cmds| - 1, clk) then [|cmds| - 1] else []
  }

  /** One sample per falling edge, in order, each taken from the `snd_out` value in effect just before it. */
  function ExpectedSamples(cmds: seq<Command>, clk: IdCode, sndOut: IdCode): (r: seq<int16>)
  {
    var e := FallingEdges(cmds, clk);
    seq(|e|, m requires 0 <= m < |e| => SampleOf(LastSnd(cmds[..e[m]], clk, sndOut)))
  }

  // ---------------------------------------------------------------------------
  // Lemmas connecting the loop to that description
  // ---------------------------------------------------------------------------

  /**
   * After any run of commands, `clk_val` is the last clock value (X when the
   * clock never changed), `snd_val` the last sound value, and `k` the number of
   * clock changes modulo 2^64.
   */
  lemma {:induction false} FoldState(cmds: seq<Command>, clk: IdCode, sndOut: IdCode)
    ensures Fold(cmds, clk, sndOut).state
         == Sampler(LastValueOf(cmds, clk), LastSnd(cmds, clk, sndOut), Changes(cmds, clk) % (U64_MAX + 1))
    decreases |cmds|
  {
    if cmds != [] {
      FoldState(cmds[..|cmds| - 1], clk, sndOut);
    }
  }

  /** The loop writes exactly the expected samples: one per falling edge, in order, with the right value. */
  lemma {:induction false} FoldSamples(cmds: seq<Command>, clk: IdCode, sndOut: IdCode)
    ensures Fold(cmds, clk, sndOut).samples == ExpectedSamples(cmds, clk, sndOut)
    ensures |Fold(cmds, clk, sndOut).samples| == |FallingEdges(cmds, clk)|
    decreases |cmds|
  {
    if cmds != [] {
      var p := cmds[..|cmds| - 1];
      var c := cmds[|cmds| - 1];
      FoldSamples(p, clk, sndOut);
      var out := Step(Fold(p, clk, sndOut).state, c, clk, sndOut).1;
      assert Fold(cmds, clk, sndOut).samples == Fold(p, clk, sndOut).samples + out;
      LastEdgeWritesOne(cmds, clk, sndOut);
      ExpectedSamplesExtend(cmds, clk, sndOut);
    }
  }

  /** The last command writes a sample exactly when it is a falling edge, and then the expected one. */
  lemma LastEdgeWritesOne(cmds: seq<Command>, clk: IdCode, sndOut: IdCode)
    requires cmds != []
    ensures var p := cmds[..|cmds| - 1];
      var out := Step(Fold(p, clk, sndOut).state, cmds[|cmds| - 1], clk, sndOut).1;
      out == if IsFallingEdge(cmds, |cmds| - 1, clk) then [SampleOf(LastSnd(p, clk, sndOut))] else []
  {
    FoldState(cmds[..|cmds| - 1], clk, sndOut);
  }

  /** The expected samples of a trace extend those of the trace without its last command. */
  lemma ExpectedSamplesExtend(cmds: seq<Command>, clk: IdCode, sndOut: IdCode)
    requires cmds != []
    ensures var p := cmds[..|cmds| - 1];
      ExpectedSamples(cmds, clk, sndOut) == ExpectedSamples(p, clk, sndOut)
        + if IsFallingEdge(cmds, |cmds| - 1, clk) then [SampleOf(LastSnd(p, clk, sndOut))] else []
  {
    var p := cmds[..|cmds| - 1];
    var ep := FallingEdges(p, clk);
    var e := FallingEdges(cmds, clk);
    assert e[..|ep|] == ep;
    forall m | 0 <= m < |ep|
      ensures cmds[..e[m]] == p[..ep[m]]
    {
    }
  }

  /**
   * Samples already written are never changed by later commands: the samples
   * of a run are a prefix of the samples of any longer run.
   */
  lemma {:induction false} EarlierSamplesKept(a: seq<Command>, b: seq<Command>, clk: IdCode, sndOut: IdCode)
    ensures Fold(a, clk, sndOut).samples <= Fold(a + b, clk, sndOut).samples
    decreases |b|
  {
    if b != [] {
      var b' := b[..|b| - 1];
      EarlierSamplesKept(a, b', clk, sndOut);
      assert (a + b)[..|a + b| - 1] == a + b';
    } else {
      assert a + b == a;
    }
  }

  /**
   * Every sample needs its own earlier change of the clock to 1, and one more
   * is pending while the clock stands at 1.  So a trace whose clock is never
   * set to 1 (in particular its first clock change) writes no sample.
   */
  lemma {:induction false} SamplesBoundedByRises(cmds: seq<Command>, clk: IdCode, sndOut: IdCode)
    ensures |Fold(cmds, clk, sndOut).samples| + (if LastValueOf(cmds, clk) == V1 then 1 else 0)
         <= ChangesTo(cmds, clk, V1)
    decreases |cmds|
  {
    if cmds != [] {
      var p := cmds[..|cmds| - 1];
      SamplesBoundedByRises(p, clk, sndOut);
      FoldState(p, clk, sndOut);
    }
  }

  /** When `clk` and `snd_out` share an identifier code, every sample is full-scale negative. */
  lemma SharedIdentifierSamplesLow(cmds: seq<Command>, id: IdCode)
    ensures forall m :: 0 <= m < |Fold(cmds, id, id).samples| ==> Fold(cmds, id, id).samples[m] == I16_MIN
  {
    FoldSamples(cmds, id, id);
  }

  /**
   * A change of `snd_out` (not shared with `clk`) only updates `snd_val`, and
   * every command that is not a change of either variable leaves the state
   * and the output alone.
   */
  lemma NonClockCommandsWriteNothing(cmds: seq<Command>, c: Command, clk: IdCode, sndOut: IdCode)
    requires !(c.ChangeScalar? && c.id == clk)
    ensures Fold(cmds + [c], clk, sndOut).samples == Fold(cmds, clk, sndOut).samples
    ensures c.ChangeScalar? && c.id == sndOut ==>
      Fold(cmds + [c], clk, sndOut).state == Fold(cmds, clk, sndOut).state.(sndVal := c.value)
    ensures !(c.ChangeScalar? && c.id == sndOut) ==>
      Fold(cmds + [c], clk, sndOut).state == Fold(cmds, clk, sndOut).state
  {
    assert (cmds + [c])[..|cmds|] == cmds;
  }
}
