/**
 * ls-sim's `main`: the argument gate, the WAV writer, the cycle count and the
 * decimation loop, in the source's order.
 *
 * The simulated `logistic_snd` stages are stubs in the source and are not
 * modelled; nothing in the loop as written stores a sample in the high-rate
 * buffer or advances its fill index.  The fill index therefore stays at 0,
 * below the resampling threshold, and a run that gets through its checks ends
 * with nothing written, after `duration_in_clocks / 2` passes of the loop.
 */
module LsSim {
  import opened BoundedInts
  import opened LsSimArgs
  import opened LsSimClock
  import opened Decimation

  /** Why a run panicked. */
  datatype Abort = WavCreateFailed | ClockCountOverflow | ResamplerFailed

  /**
   * How a run ends: an exit code from the gate, a panic, or the end of `main`
   * with the samples written and the passes the driver loop made.
   */
  datatype Outcome = Exited(code: uint8) | Aborted(reason: Abort) | Finished(written: seq<real>, passes: nat)

  /**
   * `main`.  `argv` is the whole command line, `wavCreated` whether the WAV
   * file could be created, and `replyAt` the resampler's successive replies.
   */
  method Simulate(argv: seq<string>, wavCreated: bool, replyAt: nat -> Reply) returns (o: Outcome)
    requires AllFit(replyAt)
    ensures ClassifyArgs(argv).Refused? ==> o == Exited(1)
    ensures ClassifyArgs(argv).Accepted? && !wavCreated ==> o == Aborted(WavCreateFailed)
    ensures ClassifyArgs(argv).Accepted? && wavCreated && ClassifyArgs(argv).inv.duration > MAX_DURATION
      ==> o == Aborted(ClockCountOverflow)
    ensures ClassifyArgs(argv).Accepted? && wavCreated && ClassifyArgs(argv).inv.duration <= MAX_DURATION
      ==> o == Finished([], ClassifyArgs(argv).inv.duration * 12_600_000)
  {
    var gate := ClassifyArgs(argv);
    if gate.Refused? {
      return Exited(RefusalExitCode(gate.error));
    }
    if !wavCreated {
      return Aborted(WavCreateFailed);
    }
    var clocks := DurationInClocks(gate.inv.duration);
    if clocks.None? {
      return Aborted(ClockCountOverflow);
    }
    var pipeline := new Pipeline(replyAt);
    RunFromIdle(pipeline.Abs(), replyAt, clocks.value / 2);
    var ok := pipeline.Run(clocks.value / 2);
    if !ok {
      return Aborted(ResamplerFailed);
    }
    LoopIterationsPerSecond(gate.inv.duration);
    o := Finished(pipeline.written, pipeline.passes);
  }
}
