# logistic_snd tooling — a Dafny model

This project models the parts of the tt08-square1 audio tooling that are
actually implemented, and proves properties of them:

- **fst2wav**, which converts a VCD waveform trace of the hardware test bench
  into a 16-bit WAV file. It folds a state machine over the trace's
  value-change commands. The machine remembers the last value of `clk` and of
  `snd_out`, and on every falling edge of `clk` (a change from 1 to 0) it
  writes one full-scale sample: 32767 when `snd_out` is 1, and -32768 for 0,
  X or Z. Each failure has its own exit code: 1 for the arguments, 3 for
  the WAV file, 4 for the header, 5 for a missing variable and 6 for a read
  error.
- the **ls-sim driver**, which is meant to simulate the `logistic_snd`
  module at 25.2 MHz and resample its output to 48 kHz. The parts modelled
  here are:
  - the positional-argument gate (six `u64` numbers and a file name, exit
    code 1 through `usage` on every failure);
  - `low_bits`;
  - the overflow-checked cycle count;
  - the decimation loop, which hands a 32768-sample high-rate buffer
    (`AudioBuffer`) to the resampler and then moves the unconsumed input to
    the front of that buffer, in place.

The synthesizer stages of ls-sim (`LogisticSnd`, `LogsIterateMap`,
`LogsMixer`, `LogsNCO`, `LogsDivider`) have empty bodies in the source.
Nothing in the driver loop as written stores a sample in the high-rate buffer
or advances its fill index `i`. So the fill index stays at 0, below the
resampling threshold `BUF_LEN - 1`, and a run that gets past its checks
writes no samples. `Decimation.RunFromIdle` and `LsSim.Simulate` state this.
The loop body (resample, write out, carry over) is verified on its own, for
any fill index: `Decimation.Pipeline.Step` and `Decimation.StepCarriesOver`.

Modules and files:

| file | module | models |
|---|---|---|
| wrappers.dfy | Wrappers | `Option` |
| bounded_ints.dfy | BoundedInts | `u8`, `i16` and `u64` as subset types, `wrapping_add` |
| falling_edge.dfy | FallingEdge | the fst2wav command loop as a function, with an independent description of its output |
| fst2wav.dfy | Fst2Wav | `main_fallible` (the loop in place) and `main` |
| ls_sim_args.dfy | LsSimArgs | `u64::from_str` and ls-sim's argument gate and `usage` |
| ls_sim_clock.dfy | LsSimClock | `low_bits`, `CLK_FREQUENCY` and the cycle count |
| decimation.dfy | Decimation | the high-rate buffer, fill index, resampler call, write-out and carry-over |
| ls_sim.dfy | LsSim | ls-sim's `main` |

ls-sim is described as a complete simulator, but the code implements only
part of it, and the model follows the code:
- ls-sim does not build as written. `main` is declared to return
  `std::process::ExitCode`, yet its body ends with `std::mem::drop(writer);`
  (experiments/ls-sim/src/main.rs:88-89). The synthesizer stubs declare
  `-> Self` or `-> f32` but have empty bodies (lines 125, 129, 145, 160, 174
  and 188). Line 77 iterates over the unsized slice
  `lo_rate_samples.buf[0][0..out_written]`. `#[derive(Default)]` is applied
  to an `[f32; 32768]` field (lines 108-112). The model follows what the
  text evidently means. The buffers start zeroed (`Decimation.Pipeline`'s
  constructor), the loop writes `lo_rate[0..out_written]` sample by sample,
  and a completed run is `Finished(written, passes)`. No success exit code is
  assumed, because the source gives none.
- the synthesizer formulas are not modelled at all.

## Model

| member | source | states |
|---|---|---|
| `BoundedInts.WrappingAdd` | fst2wav/src/main.rs:72 | `k.wrapping_add(1)` is the sum modulo 2^64 |
| `FallingEdge.SampleOf` | fst2wav/src/main.rs:66 | the sample is `i16::MAX` exactly when `snd_out` is 1, and `i16::MIN` for every other value (0, X, Z) |
| `FallingEdge.Step` | fst2wav/src/main.rs:62-78 | one pass of the command loop writes at most one sample, and writes one exactly when the command changes `clk` to 0 while `clk_val` is 1; `k` advances (modulo 2^64) exactly on a `clk` change; `FallingEdge.LastEdgeWritesOne` and `FallingEdge.NonClockCommandsWriteNothing` state the rest of its behaviour |
| `FallingEdge.Fold` | fst2wav/src/main.rs:51-79 | the loop over a run of commands writes no more samples than there are changes of `clk` to 0; `FallingEdge.FoldState` and `FallingEdge.FoldSamples` give its final locals and its samples exactly |
| `FallingEdge.FallingEdges` | fst2wav/src/main.rs:63-68 | lists exactly the positions of the commands that set `clk` to V0 while its last value was V1, in strictly increasing order |
| `FallingEdge.FoldState` | fst2wav/src/main.rs:51-76 | after any run of commands, `clk_val` is the last `clk` value (X if `clk` never changed, including X/Z values); `snd_val` is the last `snd_out` value (always X when both variables share an identifier, because the clk arm wins); `k` is the number of `clk` changes modulo 2^64 |
| `FallingEdge.FoldSamples` | fst2wav/src/main.rs:55-68 | the samples written are exactly one per falling edge, in trace order; each is `SampleOf` (32767 for V1, -32768 for V0/X/Z) of the `snd_out` value in effect just before that edge; so the sample count equals the number of falling edges |
| `FallingEdge.LastEdgeWritesOne` | fst2wav/src/main.rs:63-68 | a command writes one sample exactly when it is a falling edge of `clk`, and that sample is `SampleOf` the `snd_out` value in effect before it; otherwise it writes nothing |
| `FallingEdge.EarlierSamplesKept` | fst2wav/src/main.rs:55-79 | the samples of a run are a prefix of the samples of any extension of it, so later `snd_out` changes never alter a sample already written |
| `FallingEdge.SamplesBoundedByRises` | fst2wav/src/main.rs:51-69 | samples written, plus one while `clk` stands at 1, never exceed the number of `clk` changes to V1; since `clk_val` starts at X, a trace that never sets `clk` to 1 (in particular its first clk change) writes nothing |
| `FallingEdge.SharedIdentifierSamplesLow` | fst2wav/src/main.rs:62-76 | when `clk` and `snd_out` resolve to the same identifier, every sample is -32768 |
| `FallingEdge.NonClockCommandsWriteNothing` | fst2wav/src/main.rs:74-77 | a `snd_out` change only sets `snd_val` and writes nothing; any other non-clock command changes neither the state nor the output |
| `Fst2Wav.FirstError` | fst2wav/src/main.rs:55-61 | gives the position of the first read error (or the stream length): every earlier item was read successfully and the item at it is an error |
| `Fst2Wav.MainFallible` | fst2wav/src/main.rs:10-82 | checks run in the source's order: wrong argument count gives 1, WAV create failure 3, header parse error 4, missing `clk` or `snd_out` 5, none writing anything; otherwise the samples written are those of the falling-edge fold over the commands before the first read error, and the result is Err(6) if there was a read error, else Ok |
| `Fst2Wav.ExitCode` | fst2wav/src/main.rs:7 | `err().unwrap_or(0)`: success gives 0 and a failure gives its own code; `Fst2Wav.Run` states which codes occur |
| `Fst2Wav.Run` | fst2wav/src/main.rs:6-8 | the process exit code is one of 0, 1, 3, 4, 5, 6, and is 0 exactly when the arguments, WAV file, header and both variables are fine and no command failed to read; the samples written are none when a check before the loop fails, and otherwise those of the falling-edge fold over the commands read before the first read error |
| `LsSimArgs.DigitsValueOfDecimalString` | experiments/ls-sim/src/main.rs:11 | reading the decimal digits of `n` back gives `n` |
| `LsSimArgs.ParseU64` | experiments/ls-sim/src/main.rs:11 | `s.parse::<u64>().ok()`: a parsed argument starts with a digit or `+` and has only digits after that; a string of digits parses exactly when its value is at most u64::MAX, and then to that value; a lone `+` is refused, and one leading `+` before digits is skipped, with the same rule for the digits; `LsSimArgs.ParseDecimalString` gives the round trip |
| `LsSimArgs.ParseDecimalString` | experiments/ls-sim/src/main.rs:11 | `parse::<u64>` (optional `+`, digits only, value at most u64::MAX) accepts the decimal form of every 64-bit value and returns that value |
| `LsSimArgs.ClassifyArgs` | experiments/ls-sim/src/main.rs:9-30 | an accepted command line has exactly seven arguments after the program name, the file name is the seventh, and `n_osc` and `duration` are the parses of the first and sixth; fewer than six arguments is "not enough"; `LsSimArgs.ClassifyArgsOutcomes` covers every other shape |
| `LsSimArgs.Usage` | experiments/ls-sim/src/main.rs:91-101 | `usage` gives exit code 1 whichever message it prints |
| `LsSimArgs.ClassifyArgsOutcomes` | experiments/ls-sim/src/main.rs:11-30 | with fewer than six arguments, "not enough" always wins; with six or more, an unparsable one among the first six gives "not numeric" whatever follows; six numbers and no file name give "not enough"; an eighth argument gives "too many"; the command line is accepted exactly when there are seven arguments and the first six are numbers; every refusal exits with code 1 through `usage` |
| `LsSimArgs.AcceptsSevenNumeric` | experiments/ls-sim/src/main.rs:11-30 | a command line of exactly seven arguments whose first six parse is accepted, with the parsed values in order as `n_osc`, `r_inc`, `frac`, `phase_bits`, `freq_res` and `duration`, and the seventh as the file name |
| `LsSimArgs.ClassifyArgsRoundTrip` | experiments/ls-sim/src/main.rs:11-25 | a program name, any six 64-bit numbers written in decimal, and any file name are accepted, and the gate gives back exactly those values |
| `LsSimClock.LowBits` | experiments/ls-sim/src/main.rs:103-106 | for `n < 64` (the shift's domain), `low_bits(n) + 1 == 2^n` and bit `b` of the result is set exactly when `b < n`, for every `b < 64` |
| `LsSimClock.LowBitsAt` | experiments/ls-sim/src/main.rs:103-106 | bit `b` of 2^n - 1 is set exactly when `b < n` |
| `LsSimClock.Pow2Below64` | experiments/ls-sim/src/main.rs:105 | `1u64 << n` fits in 64 bits for every `n < 64` |
| `LsSimClock.DurationInClocks` | experiments/ls-sim/src/main.rs:50-51 | the cycle count exists exactly when `duration <= 732_013_653_718`, and is then `duration * 25_200_000`; larger durations abort instead of wrapping |
| `LsSimClock.LoopIterationsPerSecond` | experiments/ls-sim/src/main.rs:50-71 | for an accepted duration, the loop bound `duration_in_clocks / 2` is `duration * 12_600_000`; `LsSim.Simulate` uses it to give the number of passes its loop makes |
| `Decimation.Shifted` | experiments/ls-sim/src/main.rs:80-82 | after `copy_within(in_used.., 0)`, positions `[0, len - in_used)` hold the old `[in_used, len)` and positions `[len - in_used, len)` are unchanged |
| `Decimation.StepSpec` | experiments/ls-sim/src/main.rs:72-84 | a pass keeps both buffers 32768 long and the fill index within the buffer; `Decimation.StepCarriesOver` and `Decimation.StepIdle` state its behaviour on both sides of the threshold |
| `Decimation.RunSpec` | experiments/ls-sim/src/main.rs:71-85 | any number of passes keeps both buffers 32768 long and the fill index within the buffer; `Decimation.RunFromIdle`, `Decimation.RunCountsPasses`, `Decimation.RunExtendsWritten` and `Decimation.RunStaysFailed` state its behaviour |
| `Decimation.StepCarriesOver` | experiments/ls-sim/src/main.rs:72-84 | when the fill index has reached `BUF_LEN - 1` and the resampler answers `(in_used, out)`, exactly `out` is appended to the writer in order; `out` is in the front of the low-rate buffer; the unconsumed input is moved to the front; the rest of the buffer is unchanged (all of it when `in_used == BUF_LEN`); the fill index becomes `BUF_LEN - in_used`; one more pass is counted |
| `Decimation.StepIdle` | experiments/ls-sim/src/main.rs:72 | below `BUF_LEN - 1` a pass does not call the resampler and changes nothing but the pass count |
| `Decimation.RunFromIdle` | experiments/ls-sim/src/main.rs:56-85 | starting below the threshold, as the loop does with `i = 0`, `n` passes leave the buffers, fill index, output and resampler calls unchanged, so nothing is written, and the pass count grows by `n` |
| `Decimation.RunCountsPasses` | experiments/ls-sim/src/main.rs:71 | a run of `n` passes that does not abort makes exactly `n` passes of the loop body |
| `Decimation.RunExtendsWritten` | experiments/ls-sim/src/main.rs:77-79 | the writer's output only grows: every run's output extends the output before it |
| `Decimation.RunStaysFailed` | experiments/ls-sim/src/main.rs:73-75 | once the resampler has failed (the `unwrap` panics), the run stays aborted |
| `Decimation.Pipeline.Abs` | experiments/ls-sim/src/main.rs:110-112 | both buffers hold 32768 samples and the fill index is within them |
| `Decimation.Pipeline.constructor` | experiments/ls-sim/src/main.rs:53-56 | both buffers zeroed, fill index 0, nothing written, no resampler call and no pass yet |
| `Decimation.Pipeline.ProcessIntoBuffer` | experiments/ls-sim/src/main.rs:73-75 | the resampler's promises: `in_used <= buf_len` and `out_written <= out_len`, with its output in the front of the low-rate buffer; the model also fixes the low-rate buffer past `out_written` as unchanged, which nothing reads |
| `Decimation.Pipeline.WriteOut` | experiments/ls-sim/src/main.rs:77-79 | the writer receives exactly `lo_rate[0..out_written]`, in order |
| `Decimation.Pipeline.CarryOver` | experiments/ls-sim/src/main.rs:80-83 | the high-rate buffer becomes `Shifted(old, in_used)` in place and the fill index `BUF_LEN - in_used` |
| `Decimation.Pipeline.Step` | experiments/ls-sim/src/main.rs:72-84 | the loop body in place equals `StepSpec` on the old state, and fails exactly when it does |
| `Decimation.Pipeline.Run` | experiments/ls-sim/src/main.rs:71-85 | the loop in place equals `RunSpec` on the old state, pass count included, and fails exactly when it does |
| `LsSim.Simulate` | experiments/ls-sim/src/main.rs:6-89 | a refused command line exits with 1; an accepted one panics if the WAV file cannot be created, then panics if the cycle count overflows; otherwise it finishes after exactly `duration * 12_600_000` passes of the loop (`duration_in_clocks / 2`), having written nothing, since the fill index never reaches the threshold |

## Left out

- The synthesizer (`LogisticSnd`, `LogsIterateMap`, `LogsMixer`, `LogsNCO`, `LogsDivider`, experiments/ls-sim/src/main.rs:122-191) has empty bodies in the source, so a model would be invented behaviour. Its construction at lines 58-69 is left out too.
- The sinc resampling itself (`rubato::SincFixedIn`, lines 40-48 and 73-75) is 32-bit float arithmetic in a foreign library. `Decimation.Pipeline.ProcessIntoBuffer` keeps only its contract, and its successive replies are a parameter. Its construction (`SincFixedIn::new(...).unwrap()`) is assumed to succeed because its arguments are constants.
- Sample values are `real`, and f32 rounding is not modelled. The hound library is not part of this model. ls-sim hands `f32` samples to a writer set up for 16-bit integers and ignores the result of `write_sample`. What hound does with such a sample is not modelled.
- WAV writing via `hound` is file I/O. Whether the file can be created is a parameter, and the writer is the sequence of samples written to it. A failing `write_sample` is not modelled (fst2wav unwraps it; ls-sim ignores its result). The WAV header constants (mono, 48 kHz, 16-bit integer) are not modelled.
- VCD parsing and `find_var` run a foreign parser over stdin. The parsed header (or a parse error) and the command stream (each item a command or a read error) are parameters. Vector and real value changes, timestamps and the other commands are all `Other`.
- `Decimation.Pipeline.ProcessIntoBuffer`: the model assumes the resampler keeps its promise `in_used <= buf_len`. A reply with `in_used > buf_len` never reaches `copy_within`, because the `in_used < buf_len` guard at line 80 skips it. The subtraction `buf_len - in_used` at line 83 would then underflow, which panics in a debug build. That case is not modelled.
- `LsSimClock.LowBits` requires `n < 64`. For `n >= 64`, `1u64 << n` panics in a debug build and masks the shift amount in a release build. That case is not modelled, and nothing in the source calls `low_bits`.
- `LsSim.Simulate`: the resampler failure path (`Aborted(ResamplerFailed)`) is unreachable as written, because the resampler is never called.
- Messages on stderr (usage text, the "not numeric" and "too many" lines, the progress dot every 2^20 clock changes in fst2wav) are output only. The model keeps `usage`'s `not_enough` flag as the kind of refusal, but not the text.
- `#[repr(align(4096))]` on `AudioBuffer` is a memory-layout detail.
- The separate `Parameters` values are carried by the argument gate, but nothing in the source uses them.
- Command-line arguments are strings of Unicode scalar values. `std::env::args()` panics (exit code 101) on an argument that is not valid Unicode. fst2wav collects all its arguments at fst2wav/src/main.rs:14, and ls-sim reads every argument it pulls at experiments/ls-sim/src/main.rs:9-27, the skipped program name included. So `Fst2Wav.Run`'s exit codes and `LsSim.Simulate`'s outcomes cover only Unicode command lines.
- audio-test/test.py is a hardware test bench driven by a simulator. It is not part of this model.
