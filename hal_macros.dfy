/** The two computing macros of the HAL: IF_HZ_TO_REG, which turns an IF
    frequency offset in Hz into register units, and SET_PPM_ON, which says
    when LoRa low-datarate (PPM) compensation is needed. */
module HalMacros {
  import opened Arith
  import opened HalTypes

  /** Divisor of IF_HZ_TO_REG: one register unit is 15625 / 32 Hz. */
  const IfRegDivisor: nat := 15625

  /** Largest register magnitude IF_HZ_TO_REG can produce: 2^26 * 32 / 15625. */
  const IfRegMax: nat := 137438

  /** The offsets for which the shift `f << 5` fits a 32-bit signed int. */
  predicate IfHzInRange(f: int) {
    -0x400_0000 <= f < 0x400_0000
  }

  /** IF_HZ_TO_REG(f) = (f << 5) / 15625 on a signed 32-bit offset. The shift
      is a multiplication by 32; the division truncates toward zero, as C's
      does, so the register of a negative offset rounds toward zero. */
  function IfHzToReg(f: int): (r: int)
    requires IfHzInRange(f)
    ensures 0 <= f ==> 0 <= r && r * IfRegDivisor <= 32 * f < (r + 1) * IfRegDivisor
    ensures f < 0 ==> r <= 0 && (r - 1) * IfRegDivisor < 32 * f <= r * IfRegDivisor
  {
    TruncDiv(f * 32, IfRegDivisor)
  }

  /** A zero offset gives a zero register. */
  lemma IfHzToRegZero()
    ensures IfHzToReg(0) == 0
  {
  }

  /** Negating the offset negates the register: C's division rounds toward
      zero on both sides. */
  lemma IfHzToRegOdd(f: int)
    requires -0x400_0000 < f < 0x400_0000
    ensures IfHzToReg(-f) == -IfHzToReg(f)
  {
  }

  /** IF_HZ_TO_REG is monotone non-decreasing over its whole domain. */
  lemma IfHzToRegMonotone(f1: int, f2: int)
    requires IfHzInRange(f1) && IfHzInRange(f2) && f1 <= f2
    ensures IfHzToReg(f1) <= IfHzToReg(f2)
  {
    if 0 <= f1 {
      DivMono(f1 * 32, f2 * 32, IfRegDivisor);
    } else if f2 < 0 {
      DivMono(-f2 * 32, -f1 * 32, IfRegDivisor);
    }
  }

  /** Every register IF_HZ_TO_REG produces lies within +/- IfRegMax. */
  lemma IfHzToRegRange(f: int)
    requires IfHzInRange(f)
    ensures -(IfRegMax as int) <= IfHzToReg(f) <= IfRegMax
  {
    if 0 <= f {
      DivMono(f * 32, 0x400_0000 * 32, IfRegDivisor);
    } else {
      DivMono(-f * 32, 0x400_0000 * 32, IfRegDivisor);
    }
  }

  /** For a non-negative offset the register is f * 2^16 / 32 MHz, the same
      form as the PLL register of the SX125x radios. */
  lemma {:induction false} IfHzToRegAsClockFraction(f: int)
    requires 0 <= f < 0x400_0000
    ensures IfHzToReg(f) == f * Pow2(16) / 32_000_000
  {
    Pow2Values();
    DivCancel(f * 32, IfRegDivisor, 2048);
    assert (f * 32) * 2048 == f * 65536;
  }

  /** Inverse of IF_HZ_TO_REG on non-negative registers: the lowest
      non-negative offset whose register is r. (For r = 0 the negative
      offsets down to -488 also give 0.) */
  function IfRegToHz(r: nat): (f: nat)
    requires r <= IfRegMax
    ensures IfHzInRange(f) && IfHzToReg(f) == r
    ensures forall g :: 0 <= g < f ==> IfHzToReg(g) < r
  {
    var f := CeilDiv(r * IfRegDivisor, 32);
    assert f * 32 < (r + 1) * IfRegDivisor;
    f
  }

  /** Converting an offset to its register and back loses less than one
      register step (15625 / 32 = 488.28 Hz), and never overshoots. */
  lemma IfHzRoundTrip(f: int)
    requires 0 <= f < 0x400_0000
    ensures IfHzToReg(f) <= IfRegMax
    ensures IfRegToHz(IfHzToReg(f)) <= f
    ensures (f - IfRegToHz(IfHzToReg(f))) * 32 < IfRegDivisor
  {
    IfHzToRegRange(f);
  }

  /** SET_PPM_ON(bw, dr): true for exactly the pairs of PpmPairs. */
  function SetPpmOn(bw: Bandwidth, dr: Datarate): (on: bool)
    ensures on <==> (bw, dr) in PpmPairs
  {
    (bw == Bw125kHz && (dr == DrLoraSf11 || dr == DrLoraSf12)) || (bw == Bw250kHz && dr == DrLoraSf12)
  }

  /** The three (bandwidth, datarate) pairs that need PPM compensation. */
  const PpmPairs: set<(Bandwidth, Datarate)> :=
    {(Bw125kHz, DrLoraSf11), (Bw125kHz, DrLoraSf12), (Bw250kHz, DrLoraSf12)}

  /** For a bandwidth other than 125 kHz and 250 kHz, SET_PPM_ON is false
      whatever the datarate. */
  lemma SetPpmOnOtherBandwidths(bw: Bandwidth, dr: Datarate)
    requires bw != Bw125kHz && bw != Bw250kHz
    ensures !SetPpmOn(bw, dr)
  {
  }

  /** A LoRa symbol lasts 2^SF / BW seconds; it is longer than 16 ms when
      2^SF * 1000 > 16 * BW. */
  predicate SymbolLongerThan16ms(sf: nat, bwHz: nat) {
    Pow2(sf) * 1000 > 16 * bwHz
  }

  /** On the named LoRa bandwidths and spreading factors, SET_PPM_ON is the
      LoRa low-datarate rule: compensation is on exactly when a symbol lasts
      longer than 16 ms. */
  lemma SetPpmOnIsLowDatarateRule(bw: Bandwidth, dr: Datarate)
    requires BandwidthHz(bw).Some? && SpreadingFactor(dr).Some?
    ensures SetPpmOn(bw, dr) <==> SymbolLongerThan16ms(SpreadingFactor(dr).value, BandwidthHz(bw).value)
  {
    assert Pow2(7) == 128;
    assert Pow2(12) == 4096;
  }
}
