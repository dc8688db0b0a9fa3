/** The PLL frequency register of the SX1255 and SX1257 radios, as the HAL
    derives it: F_register = F_rf / F_step = F_rf * 2^bits / F_xtal, with a
    32 MHz crystal, reduced to F_rf * 256 / 15625 (SX1257, 19 fractional
    bits) and F_rf * 512 / 15625 (SX1255, 20 fractional bits). The register
    is 24 bits wide. */
module Sx125x {
  import opened Arith

  /** SX125x_32MHz_FRAC: the denominator of the reduced fraction. */
  const Sx125x32MHzFrac: nat := 15625

  /** Reference crystal of the radios, in Hz. */
  const XtalHz: nat := 32_000_000

  /** Width of the frequency register. */
  const RegisterBits: nat := 24

  datatype Radio = Sx1255 | Sx1257

  /** Fractional bits of the PLL: 2^bits / F_xtal is the inverse of F_step. */
  function PllFracBits(radio: Radio): (bits: nat) {
    match radio
    case Sx1257 => 19
    case Sx1255 => 20
  }

  /** Numerator of the reduced fraction 2^bits / 32e6 = n / 15625. */
  function PllNumerator(radio: Radio): (n: nat) {
    match radio
    case Sx1257 => 256
    case Sx1255 => 512
  }

  /** The unreduced form: F_rf * 2^bits / F_xtal, rounded down. */
  function StepRegister(fHz: nat, fracBits: nat, xtalHz: nat): (reg: nat)
    requires xtalHz > 0
  {
    fHz * Pow2(fracBits) / xtalHz
  }

  /** The reduced fraction is exact: 2^bits / 32e6 == n / 15625. */
  lemma PllFractionExact(radio: Radio)
    ensures Pow2(PllFracBits(radio)) * Sx125x32MHzFrac == PllNumerator(radio) * XtalHz
  {
    Pow2Values();
  }

  /** The reduced fraction n / 15625 is in lowest terms: n is a power of
      two and 15625 = 5^6, so no divisor above 1 divides both. */
  lemma PllFractionIrreducible(radio: Radio)
    ensures forall d: int :: 1 < d && PllNumerator(radio) % d == 0 ==> Sx125x32MHzFrac % d != 0
  {
    match radio
    case Sx1257 => BezoutCoprime(256, 15625, 12146, 199);
    case Sx1255 => BezoutCoprime(512, 15625, 6073, 199);
  }

  /** The frequency register for an RF frequency in Hz, from the reduced
      fraction. It is the documented unreduced register F_rf * 2^bits / 32e6
      exactly, and it is the floor of F_rf / F_step. */
  function FreqToReg(radio: Radio, fHz: nat): (reg: nat)
    ensures reg == StepRegister(fHz, PllFracBits(radio), XtalHz)
    ensures reg * Sx125x32MHzFrac <= fHz * PllNumerator(radio) < (reg + 1) * Sx125x32MHzFrac
  {
    var n := PllNumerator(radio);
    Pow2Values();
    DivCancel(fHz * n, Sx125x32MHzFrac, 2048);
    assert (fHz * n) * 2048 == fHz * Pow2(PllFracBits(radio));
    fHz * n / Sx125x32MHzFrac
  }

  /** The highest frequency (exclusive) whose register fits 24 bits. */
  function MaxFreqHz(radio: Radio): (fHz: nat) {
    match radio
    case Sx1257 => 1_024_000_000
    case Sx1255 => 512_000_000
  }

  /** The register fits the 24-bit register exactly when the frequency is
      below MaxFreqHz. */
  lemma FreqToRegFits24Bits(radio: Radio, fHz: nat)
    ensures FreqToReg(radio, fHz) < Pow2(RegisterBits) <==> fHz < MaxFreqHz(radio)
  {
    Pow2Values();
  }

  /** The register is monotone non-decreasing in the frequency. */
  lemma FreqToRegMonotone(radio: Radio, f1: nat, f2: nat)
    requires f1 <= f2
    ensures FreqToReg(radio, f1) <= FreqToReg(radio, f2)
  {
    var n := PllNumerator(radio);
    MulMono(f1, f2, n);
    DivMono(f1 * n, f2 * n, Sx125x32MHzFrac);
  }

  /** Inverse of FreqToReg: the lowest frequency whose register is reg. */
  function RegToFreq(radio: Radio, reg: nat): (fHz: nat)
    ensures FreqToReg(radio, fHz) == reg
    ensures forall g: nat :: g < fHz ==> FreqToReg(radio, g) < reg
  {
    var n := PllNumerator(radio);
    var f := CeilDiv(reg * Sx125x32MHzFrac, n);
    assert f * n < (reg + 1) * Sx125x32MHzFrac;
    DivUnique(f * n, Sx125x32MHzFrac, reg);
    forall g: nat | g < f
      ensures FreqToReg(radio, g) < reg
    {
      MulMono(g + 1, f, n);
    }
    f
  }

  /** Converting a frequency to its register and back loses less than one
      register step (15625 / 256 = 61.04 Hz on the SX1257, 30.52 Hz on the
      SX1255), and never overshoots. */
  lemma FreqRoundTrip(radio: Radio, fHz: nat)
    ensures RegToFreq(radio, FreqToReg(radio, fHz)) <= fHz
    ensures (fHz - RegToFreq(radio, FreqToReg(radio, fHz))) * PllNumerator(radio) < Sx125x32MHzFrac
  {
  }
}
