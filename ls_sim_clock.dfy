/**
 * ls-sim's arithmetic helpers: the `low_bits` mask and the number of clock
 * cycles simulated for a duration in seconds, both on unsigned 64-bit words.
 */
module LsSimClock {
  import opened Wrappers
  import opened BoundedInts

  /** The clock frequency of the simulated hardware, in Hz. */
  const CLK_FREQUENCY: uint64 := 25_200_000

  /** The longest duration, in seconds, whose cycle count fits in 64 bits. */
  const MAX_DURATION: uint64 := 732_013_653_718

  function Pow2(n: nat): (p: nat)
    ensures p >= 1
    decreases n
  {
    if n == 0 then 1 else 2 * Pow2(n - 1)
  }

  /** Bit `b` (the one of weight 2^b) of `x` is set. */
  predicate Bit(x: nat, b: nat)
    decreases b
  {
    if b == 0 then x % 2 == 1 else Bit(x / 2, b - 1)
  }

  /**
   * `low_bits(n)`: the mask whose lower `n` bits are set, and no other.  The
   * shift `1u64 << n` is only defined for `n < 64`.
   */
  function LowBits(n: uint64): (m: uint64)
    requires n < 64
    ensures m + 1 == Pow2(n)
    ensures forall b: nat :: b < 64 ==> (Bit(m, b) <==> b < n)
  {
    Pow2Below64(n);
    var m := Pow2(n) - 1;
    forall b: nat | b < 64
      ensures Bit(m, b) <==> b < n
    {
      LowBitsAt(n, b);
    }
    m
  }

  lemma {:induction false} Pow2Below64(n: nat)
    requires n < 64
    ensures Pow2(n) <= U64_MAX
  {
    Pow2Monotone(n, 63);
    assert Pow2(8) == 0x100 && Pow2(7) == 0x80;
    Pow2Add(8, 8);
    assert Pow2(16) == 0x1_0000;
    Pow2Add(8, 7);
    assert Pow2(15) == 0x8000;
    Pow2Add(16, 16);
    assert Pow2(32) == 0x1_0000_0000;
    Pow2Add(16, 15);
    assert Pow2(31) == 0x8000_0000;
    Pow2Add(32, 31);
    assert Pow2(63) == 0x8000_0000_0000_0000;
  }

  lemma {:induction false} Pow2Add(a: nat, b: nat)
    ensures Pow2(a + b) == Pow2(a) * Pow2(b)
    decreases a
  {
    if a > 0 {
      Pow2Add(a - 1, b);
    }
  }

  lemma {:induction false} Pow2Monotone(a: nat, b: nat)
    requires a <= b
    ensures Pow2(a) <= Pow2(b)
    decreases b
  {
    if a < b {
      Pow2Monotone(a, b - 1);
    }
  }

  lemma {:induction false} NoBitOfZero(b: nat)
    ensures !Bit(0, b)
    decreases b
  {
    if b > 0 {
      NoBitOfZero(b - 1);
    }
  }

  /** Bit `b` of 2^n - 1 is set exactly when `b < n`. */
  lemma {:induction false} LowBitsAt(n: nat, b: nat)
    ensures Bit(Pow2(n) - 1, b) <==> b < n
    decreases b
  {
    if n == 0 {
      NoBitOfZero(b);
    } else if b > 0 {
      assert (Pow2(n) - 1) / 2 == Pow2(n - 1) - 1;
      LowBitsAt(n - 1, b - 1);
    }
  }

  /**
   * `duration.checked_mul(CLK_FREQUENCY)`: the cycle count for `duration`
   * seconds, or nothing (the run aborts) when it would not fit in 64 bits.
   */
  function DurationInClocks(duration: uint64): (r: Option<uint64>)
    ensures r.Some? <==> duration <= MAX_DURATION
    ensures r.Some? ==> r.value == duration * CLK_FREQUENCY
  {
    if duration * CLK_FREQUENCY <= U64_MAX then Some(duration * CLK_FREQUENCY) else None
  }

  /** The driver loop runs once per two clock cycles: 12.6 million times per simulated second. */
  lemma LoopIterationsPerSecond(duration: uint64)
    requires duration <= MAX_DURATION
    ensures DurationInClocks(duration).Some?
    ensures DurationInClocks(duration).value / 2 == duration * 12_600_000
  {
  }
}
