/**
 * ls-sim's decimation loop: a high-rate buffer with a fill index, handed to
 * the resampler when it is (nearly) full; the samples the resampler writes to
 * the low-rate buffer go to the WAV writer, and the input it did not consume
 * is moved to the front of the high-rate buffer in place.
 *
 * The resampler is not modelled: its `k`-th reply is `replyAt(k)`, and all it
 * promises is to consume no more input than the high-rate buffer holds and to
 * write no more output than the low-rate buffer holds.  The WAV writer is the
 * sequence of samples written to it.  `Step` and `Run` are proved against the
 * functions `StepSpec` and `RunSpec` on values.
 */
module Decimation {
  import opened Wrappers

  /** The length of one channel of an `AudioBuffer`. */
  const BUF_LEN: nat := 32768

  /** A reply of `process_into_buffer`: input consumed and output written, or an error. */
  datatype Reply = Processed(inUsed: nat, out: seq<real>) | Failed

  /** What the resampler promises about every successful reply. */
  predicate Fits(r: Reply)
  {
    r.Processed? ==> r.inUsed <= BUF_LEN && |r.out| <= BUF_LEN
  }

  /**
   * The buffer after `copy_within(in_used.., 0)`: the unconsumed tail moved to
   * the front, the rest left as it was.
   */
  function Shifted(s: seq<real>, inUsed: nat): (r: seq<real>)
    requires inUsed <= |s|
    ensures |r| == |s|
    ensures forall k :: 0 <= k < |s| - inUsed ==> r[k] == s[inUsed + k]
    ensures forall k :: |s| - inUsed <= k < |s| ==> r[k] == s[k]
  {
    s[inUsed..] + s[|s| - inUsed..]
  }

  // ---------------------------------------------------------------------------
  // The loop on values
  // ---------------------------------------------------------------------------

  /**
   * The high-rate and low-rate buffers, the fill index, the samples written,
   * the resampler calls made and the passes of the driver loop made.
   */
  datatype State = State(hi: seq<real>, lo: seq<real>, fill: nat, written: seq<real>, calls: nat, passes: nat)

  predicate WellFormed(st: State)
  {
    |st.hi| == BUF_LEN && |st.lo| == BUF_LEN && st.fill <= BUF_LEN
  }

  ghost predicate AllFit(replyAt: nat -> Reply)
  {
    forall c :: Fits(replyAt(c))
  }

  /**
   * One pass of the loop body: nothing happens unless the fill index has
   * reached `BUF_LEN - 1`; then the resampler is called (a failure aborts),
   * its output is written, the unconsumed input is carried over and the fill
   * index reset to its length.  Every pass that does not abort is counted.
   */
  function StepSpec(st: State, replyAt: nat -> Reply): (r: Option<State>)
    requires WellFormed(st) && Fits(replyAt(st.calls))
    ensures r.Some? ==> WellFormed(r.value)
  {
    if st.fill < BUF_LEN - 1 then Some(st.(passes := st.passes + 1))
    else
      match replyAt(st.calls)
      case Failed => None
      case Processed(inUsed, out) =>
        var hi := if inUsed < BUF_LEN then Shifted(st.hi, inUsed) else st.hi;
        Some(State(hi, out + st.lo[|out|..], BUF_LEN - inUsed, st.written + out, st.calls + 1, st.passes + 1))
  }

  /** `n` passes of the loop body, stopping at the first failure. */
  function RunSpec(st: State, replyAt: nat -> Reply, n: nat): (r: Option<State>)
    requires WellFormed(st) && AllFit(replyAt)
    ensures r.Some? ==> WellFormed(r.value)
    decreases n
  {
    if n == 0 then Some(st)
    else
      match RunSpec(st, replyAt, n - 1)
      case None => None
      case Some(s) => StepSpec(s, replyAt)
  }

  /**
   * A pass that calls the resampler writes exactly the samples it produced,
   * in order; moves the unconsumed input `[in_used, BUF_LEN)` to
   * `[0, BUF_LEN - in_used)` and leaves the rest of the buffer alone; and sets
   * the fill index to the number of samples carried over.
   */
  lemma StepCarriesOver(st: State, replyAt: nat -> Reply)
    requires WellFormed(st) && Fits(replyAt(st.calls))
    requires st.fill >= BUF_LEN - 1 && replyAt(st.calls).Processed?
    ensures var u, out := replyAt(st.calls).inUsed, replyAt(st.calls).out;
      var r := StepSpec(st, replyAt);
      && r.Some?
      && r.value.written == st.written + out
      && r.value.lo[..|out|] == out
      && r.value.fill == BUF_LEN - u
      && r.value.hi[..BUF_LEN - u] == st.hi[u..]
      && r.value.hi[BUF_LEN - u..] == st.hi[BUF_LEN - u..]
      && r.value.calls == st.calls + 1
      && r.value.passes == st.passes + 1
  {
  }

  /** Below the threshold a pass changes nothing but the pass count. */
  lemma StepIdle(st: State, replyAt: nat -> Reply)
    requires WellFormed(st) && Fits(replyAt(st.calls))
    requires st.fill < BUF_LEN - 1
    ensures StepSpec(st, replyAt) == Some(st.(passes := st.passes + 1))
  {
  }

  /**
   * Once the loop starts below the threshold it stays there, since only a
   * resampler call moves the fill index: `n` passes leave the state, and so
   * the written samples, exactly as they were, and only count themselves.
   */
  lemma {:induction false} RunFromIdle(st: State, replyAt: nat -> Reply, n: nat)
    requires WellFormed(st) && AllFit(replyAt)
    requires st.fill < BUF_LEN - 1
    ensures RunSpec(st, replyAt, n) == Some(st.(passes := st.passes + n))
    decreases n
  {
    if n > 0 {
      RunFromIdle(st, replyAt, n - 1);
    }
  }

  /** Samples once written stay written: every run extends the writer's output. */
  lemma {:induction false} RunExtendsWritten(st: State, replyAt: nat -> Reply, n: nat)
    requires WellFormed(st) && AllFit(replyAt)
    requires RunSpec(st, replyAt, n).Some?
    ensures st.written <= RunSpec(st, replyAt, n).value.written
    decreases n
  {
    if n > 0 {
      RunExtendsWritten(st, replyAt, n - 1);
    }
  }

  /** A run that does not abort makes exactly the passes it was asked for. */
  lemma {:induction false} RunCountsPasses(st: State, replyAt: nat -> Reply, n: nat)
    requires WellFormed(st) && AllFit(replyAt)
    requires RunSpec(st, replyAt, n).Some?
    ensures RunSpec(st, replyAt, n).value.passes == st.passes + n
    decreases n
  {
    if n > 0 {
      RunCountsPasses(st, replyAt, n - 1);
    }
  }

  /** After a failure the run stays failed. */
  lemma {:induction false} RunStaysFailed(st: State, replyAt: nat -> Reply, m: nat, n: nat)
    requires WellFormed(st) && AllFit(replyAt)
    requires m <= n && RunSpec(st, replyAt, m).None?
    ensures RunSpec(st, replyAt, n).None?
    decreases n
  {
    if m < n {
      RunStaysFailed(st, replyAt, m, n - 1);
    }
  }

  // ---------------------------------------------------------------------------
  // The loop in place
  // ---------------------------------------------------------------------------

  class Pipeline {
    /** `hi_rate_samples.buf[0]` */
    const hiRate: array<real>
    /** `lo_rate_samples.buf[0]` */
    const loRate: array<real>
    /** The resampler's reply to its `k`-th call. */
    const replyAt: nat -> Reply
    /** `i`, the fill index of the high-rate buffer. */
    var fill: nat
    /** The samples handed to the WAV writer. */
    var written: seq<real>
    /** The number of resampler calls so far. */
    var calls: nat
    /** The number of passes of the driver loop so far. */
    var passes: nat

    ghost predicate Valid()
      reads this
    {
      hiRate.Length == BUF_LEN && loRate.Length == BUF_LEN && hiRate != loRate
      && fill <= BUF_LEN && AllFit(replyAt)
    }

    ghost function Abs(): (st: State)
      reads this, hiRate, loRate
      requires Valid()
      ensures WellFormed(st)
    {
      State(hiRate[..], loRate[..], fill, written, calls, passes)
    }

    /** Both buffers zeroed (`Box::default()`), fill index 0, nothing written, no pass made. */
    constructor (replyAt: nat -> Reply)
      requires AllFit(replyAt)
      ensures Valid() && fresh(hiRate) && fresh(loRate) && this.replyAt == replyAt
      ensures Abs() == State(seq(BUF_LEN, _ => 0.0), seq(BUF_LEN, _ => 0.0), 0, [], 0, 0)
    {
      hiRate := new real[BUF_LEN](_ => 0.0);
      loRate := new real[BUF_LEN](_ => 0.0);
      this.replyAt := replyAt;
      fill, written, calls, passes := 0, [], 0, 0;
    }

    /**
     * `interpolator.process_into_buffer(&hi_rate, &mut lo_rate, None)`: the
     * next reply; on success its output is in the front of the low-rate buffer
     * and the counts it returns fit the two buffers.
     */
    method ProcessIntoBuffer() returns (res: Option<(nat, nat)>)
      requires Valid()
      modifies this`calls, loRate
      ensures Valid() && calls == old(calls) + 1
      ensures res.Some? ==> res.value.0 <= hiRate.Length && res.value.1 <= loRate.Length
      ensures match replyAt(old(calls))
        case Failed => res.None? && loRate[..] == old(loRate[..])
        case Processed(u, out) => res == Some((u, |out|)) && loRate[..] == out + old(loRate[..])[|out|..]
    {
      var reply := replyAt(calls);
      calls := calls + 1;
      match reply {
        case Failed =>
          res := None;
        case Processed(u, out) =>
          forall k | 0 <= k < |out| {
            loRate[k] := out[k];
          }
          res := Some((u, |out|));
      }
    }

    /** `for sample in lo_rate[0..out_written] { writer.write_sample(sample); }` */
    method WriteOut(outWritten: nat)
      requires Valid() && outWritten <= loRate.Length
      modifies this`written
      ensures written == old(written) + loRate[..outWritten]
    {
      for k := 0 to outWritten
        invariant written == old(written) + loRate[..k]
      {
        written := written + [loRate[k]];
      }
    }

    /**
     * `if in_used < buf_len { copy_within(in_used.., 0) }; i = buf_len - in_used`:
     * the unconsumed input moves to the front in place and the fill index
     * counts it.
     */
    method CarryOver(inUsed: nat)
      requires Valid() && inUsed <= BUF_LEN
      modifies hiRate, this`fill
      ensures Valid()
      ensures hiRate[..] == Shifted(old(hiRate[..]), inUsed)
      ensures fill == BUF_LEN - inUsed
    {
      if inUsed < BUF_LEN {
        forall k | 0 <= k < BUF_LEN - inUsed {
          hiRate[k] := hiRate[inUsed + k];
        }
      } else {
        assert Shifted(hiRate[..], inUsed) == hiRate[..];
      }
      fill := BUF_LEN - inUsed;
    }

    /** One pass of the driver loop's body; `false` when the resampler failed and the run aborts. */
    method Step() returns (ok: bool)
      requires Valid()
      modifies this`fill, this`written, this`calls, this`passes, hiRate, loRate
      ensures Valid()
      ensures ok <==> StepSpec(old(Abs()), replyAt).Some?
      ensures ok ==> Abs() == StepSpec(old(Abs()), replyAt).value
    {
      ok := true;
      if fill >= BUF_LEN - 1 {
        var res := ProcessIntoBuffer();
        if res.None? {
          return false;
        }
        var (inUsed, outWritten) := res.value;
        WriteOut(outWritten);
        CarryOver(inUsed);
      }
      passes := passes + 1;
    }

    /** `for _ in 0..iterations { … }`: the loop body `iterations` times, stopping at a failure. */
    method Run(iterations: nat) returns (ok: bool)
      requires Valid()
      modifies this`fill, this`written, this`calls, this`passes, hiRate, loRate
      ensures Valid()
      ensures ok <==> RunSpec(old(Abs()), replyAt, iterations).Some?
      ensures ok ==> Abs() == RunSpec(old(Abs()), replyAt, iterations).value
    {
      ok := true;
      var t := 0;
      while t < iterations
        invariant Valid() && t <= iterations
        invariant RunSpec(old(Abs()), replyAt, t) == Some(Abs())
      {
        ok := Step();
        if !ok {
          RunStaysFailed(old(Abs()), replyAt, t + 1, iterations);
          return;
        }
        t := t + 1;
      }
    }
  }
}
