/** The ARMv7-M register file and the flag setters of the interpreter. */
module Cpu {
  import opened Words

  type Reg = n: nat | n < 16
  type Regs = s: seq<u32> | |s| == 16 witness [0, 0, 0, 0, 0, 0, 0, 0, 0, 0, 0, 0, 0, 0, 0, 0]

  const REG_SP: Reg := 13
  const REG_LR: Reg := 14
  const REG_PC: Reg := 15

  const APSR_N: u32 := 0x8000_0000
  const APSR_Z: u32 := 0x4000_0000
  const APSR_C: u32 := 0x2000_0000
  const APSR_V: u32 := 0x1000_0000

  datatype Mode = Thread | Handler

  datatype CpuState = CpuState(
    r: Regs,          // r[SP] aliases the active stack pointer
    msp: u32,
    psp: u32,
    apsr: u32,
    ipsr: u32,
    epsr: u32,
    primask: u32,
    faultmask: u32,
    basepri: u32,
    control: u32,     // bit 0 nPriv, bit 1 SPSEL
    mode: Mode,
    cycles: nat,
    halted: bool,
    itstate: u8,
    cfsr: u32,
    hfsr: u32)
  {
    function Pc(): u32 { r[REG_PC] }

    /** CONTROL.SPSEL: Thread mode runs on the process stack. */
    predicate SpSel() { control / 2 % 2 == 1 }

    predicate InIt() { itstate % 16 != 0 }
    function ItCond(): nat { itstate / 16 }
  }

  /* APSR updates, as the interpreter writes them. */

  predicate Test(word: u32, mask: u32) {
    And32(word, mask) != 0
  }

  function SetIf(f: u32, mask: u32, on: bool): u32 {
    if on then Or32(f, mask) else f
  }

  function FlagsNz(apsr: u32, result: u32): u32 {
    var f := And32(apsr, 0x3FFF_FFFF);
    var f := SetIf(f, APSR_N, Test(result, 0x8000_0000));
    SetIf(f, APSR_Z, result == 0)
  }

  function FlagsAdd(apsr: u32, a: u32, b: u32, result: u32, carryIn: bool): u32 {
    var f := And32(apsr, 0x0FFF_FFFF);
    var f := SetIf(f, APSR_N, Test(result, 0x8000_0000));
    var f := SetIf(f, APSR_Z, result == 0);
    var ext: u64 := a + b + (if carryIn then 1 else 0);
    var f := SetIf(f, APSR_C, ext / 0x1_0000_0000 != 0);
    SetIf(f, APSR_V, Test(And32(Not32(Xor32(a, b)), Xor32(a, result)), 0x8000_0000))
  }

  function FlagsSub(apsr: u32, a: u32, b: u32, result: u32): u32 {
    var f := And32(apsr, 0x0FFF_FFFF);
    var f := SetIf(f, APSR_N, Test(result, 0x8000_0000));
    var f := SetIf(f, APSR_Z, result == 0);
    var f := SetIf(f, APSR_C, a >= b);
    SetIf(f, APSR_V, Test(And32(Xor32(a, b), Xor32(a, result)), 0x8000_0000))
  }

  /* The same words described flag by flag. */

  function Flag(on: bool, weight: u32): u32 { if on then weight else 0 }

  /** apsr with its top two (four) bits replaced. */
  function Nz(apsr: u32, n: bool, z: bool): u32 {
    apsr % 0x4000_0000 + Flag(n, APSR_N) + Flag(z, APSR_Z)
  }

  function Nzcv(apsr: u32, n: bool, z: bool, c: bool, v: bool): u32 {
    apsr % 0x1000_0000 + Flag(n, APSR_N) + Flag(z, APSR_Z) + Flag(c, APSR_C) + Flag(v, APSR_V)
  }

  /** Setting a flag above the bits already present adds its weight. */
  lemma SetFlag(f: u32, k: nat, on: bool)
    requires k < 32 && f % (2 * Pow2(k)) < Pow2(k)
    ensures Pow2(k) < 0x1_0000_0000
    ensures on ==> f + Pow2(k) < 0x1_0000_0000
    ensures SetIf(f, Pow2(k), on) == f + (if on then Pow2(k) else 0)
  {
    Pow32();
    assert Pow2(32) == Pow2(k) * Pow2(32 - k) by { PowSum(k, 32 - k); }
    PowLess(k, 32);
    if on {
      OrSetBit(f, k, 32);
    }
  }

  lemma {:induction false} PowLess(j: nat, k: nat)
    requires j < k
    ensures 2 * Pow2(j) <= Pow2(k)
  {
    if j + 1 < k {
      PowLess(j, k - 1);
    }
  }

  lemma {:induction false} OrSetBit(f: nat, k: nat, n: nat)
    requires k < n && f < Pow2(n) && f % (2 * Pow2(k)) < Pow2(k)
    ensures Or(f, Pow2(k), n) == f + Pow2(k)
  {
    if k == 0 {
      OrZero(f / 2, n - 1);
    } else {
      ModDouble(f, 2 * Pow2(k - 1));
      OrSetBit(f / 2, k - 1, n - 1);
    }
  }

  lemma Powers()
    ensures Pow2(24) == 0x100_0000
    ensures Pow2(27) == 0x800_0000
    ensures Pow2(28) == 0x1000_0000
    ensures Pow2(29) == 0x2000_0000
    ensures Pow2(30) == 0x4000_0000
    ensures Pow2(31) == 0x8000_0000
    ensures Pow2(32) == 0x1_0000_0000
  {
    Pow32();
    assert Pow2(8) == 0x100 && Pow2(3) == 8;
    PowSum(24, 8);
    PowSum(24, 3);
  }

  lemma MaskLow28(x: u32)
    ensures And32(x, 0x0FFF_FFFF) == x % 0x1000_0000
  {
    Powers();
    AndLow(x, 28, 32);
  }

  lemma MaskLow30(x: u32)
    ensures And32(x, 0x3FFF_FFFF) == x % 0x4000_0000
  {
    Powers();
    AndLow(x, 30, 32);
  }

  /** Bits 31 and 30 set onto a word that has neither. */
  lemma SetNz(f: u32, n: bool, z: bool)
    requires f < 0x4000_0000
    ensures SetIf(SetIf(f, APSR_N, n), APSR_Z, z) == f + Flag(n, APSR_N) + Flag(z, APSR_Z)
  {
    hide SetIf;
    Powers();
    SetFlag(f, 31, n);
    SetFlag(f + Flag(n, APSR_N), 30, z);
  }

  lemma SetCv(f: u32, c: bool, v: bool)
    requires f % 0x4000_0000 < 0x1000_0000
    ensures f + Flag(c, APSR_C) + Flag(v, APSR_V) < 0x1_0000_0000
    ensures SetIf(SetIf(f, APSR_C, c), APSR_V, v) == f + Flag(c, APSR_C) + Flag(v, APSR_V)
  {
    hide SetIf;
    Powers();
    SetFlag(f, 29, c);
    RoomForV(f, c);
    SetFlag(f + Flag(c, APSR_C), 28, v);
  }

  lemma RoomForV(f: u32, c: bool)
    requires f % 0x4000_0000 < 0x1000_0000
    ensures (f + Flag(c, APSR_C)) % 0x2000_0000 < 0x1000_0000
  {
  }

  lemma FlagsNzMeaning(apsr: u32, result: u32)
    ensures FlagsNz(apsr, result) == Nz(apsr, result >= 0x8000_0000, result == 0)
  {
    MaskLow30(apsr);
    SignTest(result);
    SetNz(apsr % 0x4000_0000, result >= 0x8000_0000, result == 0);
  }

  /** The word a + b + carry keeps. */
  function Sum(a: u32, b: u32, carryIn: bool): u32 {
    Add32(Add32(a, b), if carryIn then 1 else 0)
  }

  predicate Negative(a: u32) { a >= 0x8000_0000 }

  lemma LowPart(low: u32, n: bool, z: bool)
    requires low < 0x1000_0000
    ensures (low + Flag(n, APSR_N) + Flag(z, APSR_Z)) % 0x4000_0000 == low
  {
  }

  /** Four flags set in turn onto a word whose top four bits are clear. */
  lemma SetNzcv(apsr: u32, n: bool, z: bool, c: bool, v: bool)
    ensures SetIf(SetIf(SetIf(SetIf(And32(apsr, 0x0FFF_FFFF), APSR_N, n), APSR_Z, z), APSR_C, c), APSR_V, v)
         == Nzcv(apsr, n, z, c, v)
  {
    hide SetIf, And32;
    var low := apsr % 0x1000_0000;
    MaskLow28(apsr);
    SetNz(low, n, z);
    LowPart(low, n, z);
    SetCv(low + Flag(n, APSR_N) + Flag(z, APSR_Z), c, v);
  }

  /** The bit-31 test of `~(a ^ b) & (a ^ r)`: operands agree in sign and the result does not. */
  lemma AddOverflowTest(a: u32, b: u32, r: u32)
    ensures Test(And32(Not32(Xor32(a, b)), Xor32(a, r)), 0x8000_0000)
       <==> Negative(a) == Negative(b) && Negative(a) != Negative(r)
  {
    SignTest(And32(Not32(Xor32(a, b)), Xor32(a, r)));
    TopBit32(a, b);
    TopBit32(a, r);
    TopBit32(Not32(Xor32(a, b)), Xor32(a, r));
  }

  lemma SubOverflowTest(a: u32, b: u32, r: u32)
    ensures Test(And32(Xor32(a, b), Xor32(a, r)), 0x8000_0000)
       <==> Negative(a) != Negative(b) && Negative(a) != Negative(r)
  {
    SignTest(And32(Xor32(a, b), Xor32(a, r)));
    TopBit32(a, b);
    TopBit32(a, r);
    TopBit32(Xor32(a, b), Xor32(a, r));
  }

  predicate FitsSigned(x: int) { -0x8000_0000 <= x < 0x8000_0000 }

  /** The addition flags are the sign and zero tests of the 32-bit sum, the carry out
      of the unsigned sum, and the overflow of the signed sum. */
  lemma AddFlagsMeaning(apsr: u32, a: u32, b: u32, carryIn: bool)
    ensures var r := Sum(a, b, carryIn); var ci := if carryIn then 1 else 0;
      FlagsAdd(apsr, a, b, r, carryIn) ==
      Nzcv(apsr, Signed(r) < 0, r == 0, a + b + ci >= 0x1_0000_0000, !FitsSigned(Signed(a) + Signed(b) + ci))
  {
    var r, ci := Sum(a, b, carryIn), if carryIn then 1 else 0;
    SignTest(r);
    AddOverflowTest(a, b, r);
    assert (a + b + ci) / 0x1_0000_0000 != 0 <==> a + b + ci >= 0x1_0000_0000;
    SetNzcv(apsr, Negative(r), r == 0, a + b + ci >= 0x1_0000_0000, !FitsSigned(Signed(a) + Signed(b) + ci));
  }

  /** The subtraction flags: C is the absence of a borrow, V the overflow of the signed difference. */
  lemma SubFlagsMeaning(apsr: u32, a: u32, b: u32)
    ensures var r := Sub32(a, b);
      FlagsSub(apsr, a, b, r) ==
      Nzcv(apsr, Signed(r) < 0, r == 0, a - b >= 0, !FitsSigned(Signed(a) - Signed(b)))
  {
    var r := Sub32(a, b);
    SignTest(r);
    SubOverflowTest(a, b, r);
    SetNzcv(apsr, Negative(r), r == 0, a >= b, !FitsSigned(Signed(a) - Signed(b)));
  }

  /** Subtraction is addition of the complement with carry in, result and flags:
      this is why SBC may reuse the addition flags. */
  lemma SubIsAddComplement(apsr: u32, a: u32, b: u32)
    ensures Sum(a, Not32(b), true) == Sub32(a, b)
    ensures FlagsSub(apsr, a, b, Sub32(a, b)) == FlagsAdd(apsr, a, Not32(b), Sub32(a, b), true)
  {
    AddFlagsMeaning(apsr, a, Not32(b), true);
    SubFlagsMeaning(apsr, a, b);
  }

  lemma BitTest(x: u32, k: nat)
    requires k < 32
    ensures Pow2(k) < 0x1_0000_0000
    ensures Test(x, Pow2(k)) <==> x / Pow2(k) % 2 == 1
  {
    Pow32();
    PowLess(k, 32);
    AndBit(x, k, 32);
    DigitDiv(x, k);
  }

  /** Reading the four flags back out of a word. */
  lemma FlagTests(apsr: u32)
    ensures Test(apsr, APSR_N) <==> apsr / 0x8000_0000 % 2 == 1
    ensures Test(apsr, APSR_Z) <==> apsr / 0x4000_0000 % 2 == 1
    ensures Test(apsr, APSR_C) <==> apsr / 0x2000_0000 % 2 == 1
    ensures Test(apsr, APSR_V) <==> apsr / 0x1000_0000 % 2 == 1
  {
    hide And, Digit;
    Powers();
    BitTest(apsr, 31);
    BitTest(apsr, 30);
    BitTest(apsr, 29);
    BitTest(apsr, 28);
  }

  /** ITSTATE[2:0] zero ends the block; otherwise the low five bits shift left. */
  function ItAdvance(it: u8): u8 {
    if it % 8 == 0 then 0
    else it - it % 32 + (it % 32 * 2) % 32
  }
}
