/** Machine words as integers, the wrap-around operations the emulator performs
    on them, and the bitwise operators, defined bit by bit.

    A u32 is an int in range rather than a bit-vector: addresses, stack pointers
    and carries are then ordinary linear arithmetic, and the few places that mask
    or shift are handled by the lemmas at the end of this module. */
module Words {

  type u8 = x: int | 0 <= x < 0x100
  type u32 = x: int | 0 <= x < 0x1_0000_0000
  type u64 = x: int | 0 <= x < 0x1_0000_0000_0000_0000

  datatype Option<+T> = None | Some(value: T)

  function Add32(a: u32, b: u32): u32 {
    if a + b < 0x1_0000_0000 then a + b else a + b - 0x1_0000_0000
  }

  function Sub32(a: u32, b: u32): u32 {
    if a >= b then a - b else a - b + 0x1_0000_0000
  }

  function Not32(a: u32): u32 {
    0xFFFF_FFFF - a
  }

  /** The value of a word read as a two's-complement number. */
  function Signed(a: u32): int {
    if a >= 0x8000_0000 then a - 0x1_0000_0000 else a
  }

  function Pow2(k: nat): (p: nat)
    ensures p >= 1
  {
    if k == 0 then 1 else 2 * Pow2(k - 1)
  }

  /* Bitwise operators on the low n bits of two numbers. */

  function And(x: nat, y: nat, n: nat): (r: nat)
    ensures r < Pow2(n)
  {
    if n == 0 then 0
    else 2 * And(x / 2, y / 2, n - 1) + (if x % 2 == 1 && y % 2 == 1 then 1 else 0)
  }

  function Or(x: nat, y: nat, n: nat): (r: nat)
    ensures r < Pow2(n)
  {
    if n == 0 then 0
    else 2 * Or(x / 2, y / 2, n - 1) + (if x % 2 == 1 || y % 2 == 1 then 1 else 0)
  }

  function Xor(x: nat, y: nat, n: nat): (r: nat)
    ensures r < Pow2(n)
  {
    if n == 0 then 0
    else 2 * Xor(x / 2, y / 2, n - 1) + (if x % 2 != y % 2 then 1 else 0)
  }

  lemma Pow32()
    ensures Pow2(32) == 0x1_0000_0000
  {
    assert Pow2(8) == 0x100;
    PowSum(8, 8);
    PowSum(16, 16);
  }

  lemma {:induction false} PowSum(j: nat, k: nat)
    ensures Pow2(j + k) == Pow2(j) * Pow2(k)
  {
    if j != 0 {
      PowSum(j - 1, k);
      assert Pow2(j) * Pow2(k) == 2 * (Pow2(j - 1) * Pow2(k));
    }
  }

  function And32(x: u32, y: u32): u32 {
    Pow32();
    And(x, y, 32)
  }

  function Or32(x: u32, y: u32): u32 {
    Pow32();
    Or(x, y, 32)
  }

  function Xor32(x: u32, y: u32): u32 {
    Pow32();
    Xor(x, y, 32)
  }

  function ShiftLeft(v: u32, n: nat): u32 { v * Pow2(n) % 0x1_0000_0000 }

  function ShiftRight(v: u32, n: nat): u32 { Shrink(v, Pow2(n)); v / Pow2(n) }

  lemma Shrink(v: nat, p: nat)
    requires p >= 1
    ensures 0 <= v / p <= v
  {
    var q := v / p;
    assert v == q * p + v % p;
    assert q * p == q * (p - 1) + q;
    assert q * (p - 1) >= 0;
  }

  /* What masking, combining and comparing bits mean arithmetically. */

  lemma ModDouble(x: nat, p: nat)
    requires p > 0
    ensures x % (2 * p) == 2 * ((x / 2) % p) + x % 2
    ensures x / (2 * p) == (x / 2) / p
  {
    var h := x / 2;
    var q := h / p;
    assert h == q * p + h % p;
    var r := 2 * (h % p) + x % 2;
    assert x == q * (2 * p) + r by {
      assert x == 2 * h + x % 2;
      assert q * (2 * p) == 2 * (q * p);
    }
    DivModUnique(x, 2 * p, q, r);
  }

  lemma DivModUnique(x: nat, m: nat, q: nat, r: nat)
    requires x == q * m + r && r < m
    ensures x / m == q && x % m == r
  {
    var d := x / m - q;
    assert d * m == r - x % m by {
      assert (x / m) * m == x - x % m;
      assert d * m == (x / m) * m - q * m;
    }
    if d != 0 {
      MultipleBound(d, m);
    }
  }

  lemma MultipleBound(d: int, m: nat)
    requires d != 0
    ensures d > 0 ==> d * m >= m
    ensures d < 0 ==> d * m + m <= 0
  {
    if d > 0 {
      assert (d - 1) * m >= 0;
    } else {
      assert (-d - 1) * m >= 0;
    }
  }

  /* One digit at a time. */

  lemma AndStep(x: nat, y: nat, n: nat)
    requires n > 0
    ensures And(x, y, n) == 2 * And(x / 2, y / 2, n - 1) + (if x % 2 == 1 && y % 2 == 1 then 1 else 0)
  {
  }

  lemma XorStep(x: nat, y: nat, n: nat)
    requires n > 0
    ensures Xor(x, y, n) == 2 * Xor(x / 2, y / 2, n - 1) + (if x % 2 != y % 2 then 1 else 0)
  {
  }

  lemma {:induction false} AndSame(v: nat, n: nat)
    requires v < Pow2(n)
    ensures And(v, v, n) == v
  {
    if n != 0 {
      AndSame(v / 2, n - 1);
    }
  }

  lemma {:induction false} AndZero(x: nat, n: nat)
    ensures And(x, 0, n) == 0
  {
    if n != 0 {
      AndZero(x / 2, n - 1);
    }
  }

  lemma AndOdd(x: nat, h: nat, n: nat)
    requires n > 0
    ensures And(x, 2 * h + 1, n) == 2 * And(x / 2, h, n - 1) + x % 2
  {
  }

  /** Remainder, named so that proofs can treat it as one term. */
  function Mod(x: nat, m: nat): nat
    requires m > 0
  {
    x % m
  }

  lemma ModTwice(x: nat, p: nat)
    requires p > 0
    ensures Mod(x, 2 * p) == 2 * Mod(x / 2, p) + x % 2
  {
    ModDouble(x, p);
  }

  lemma AndLowStep(x: nat, k: nat, n: nat)
    requires 0 < k <= n
    requires And(x / 2, Pow2(k - 1) - 1, n - 1) == Mod(x / 2, Pow2(k - 1))
    ensures And(x, Pow2(k) - 1, n) == Mod(x, Pow2(k))
  {
    hide Mod, And;
    var p := Pow2(k - 1);
    AndOdd(x, p - 1, n);
    ModTwice(x, p);
  }

  /** Masking with k ones keeps the remainder modulo 2^k. */
  lemma {:induction false} AndLow(x: nat, k: nat, n: nat)
    requires k <= n
    ensures And(x, Pow2(k) - 1, n) == Mod(x, Pow2(k))
  {
    hide Mod, And, Pow2;
    if k == 0 {
      AndLowBase(x, n);
    } else {
      AndLow(x / 2, k - 1, n - 1);
      AndLowStep(x, k, n);
    }
  }

  lemma AndLowBase(x: nat, n: nat)
    ensures And(x, Pow2(0) - 1, n) == Mod(x, Pow2(0))
  {
    AndZero(x, n);
    assert Mod(x, 1) == 0;
  }

  /** Binary digit k. */
  function Digit(x: nat, k: nat): (d: nat)
    ensures d < 2
  {
    if k == 0 then x % 2 else Digit(x / 2, k - 1)
  }

  lemma {:induction false} DigitDiv(x: nat, k: nat)
    ensures Digit(x, k) == x / Pow2(k) % 2
  {
    if k != 0 {
      DigitDiv(x / 2, k - 1);
      ModDouble(x, Pow2(k - 1));
    }
  }

  /** Masking with the single bit k picks that binary digit. */
  lemma {:induction false} AndBit(x: nat, k: nat, n: nat)
    requires k < n
    ensures And(x, Pow2(k), n) == if Digit(x, k) == 1 then Pow2(k) else 0
  {
    if k == 0 {
      AndZero(x / 2, n - 1);
    } else {
      AndBit(x / 2, k - 1, n - 1);
    }
  }

  /** Masking away the low k bits rounds down to a multiple of 2^k. */
  lemma {:induction false} AndHigh(x: nat, k: nat, n: nat, mask: nat)
    requires k <= n && x < Pow2(n) && mask + Pow2(k) == Pow2(n)
    ensures And(x, mask, n) == x - x % Pow2(k)
  {
    if k == 0 {
      AndLow(x, n, n);
      SmallMod(x, Pow2(n));
    } else {
      AndHigh(x / 2, k - 1, n - 1, mask / 2);
      ModDouble(x, Pow2(k - 1));
    }
  }

  lemma EvenMod(a: nat, p: nat)
    requires p > 0
    ensures 2 * a % (2 * p) == 2 * (a % p)
  {
    ModDouble(2 * a, p);
  }

  lemma SmallMod(x: nat, m: nat)
    requires x < m
    ensures x % m == x && x / m == 0
  {
    DivModUnique(x, m, 0, x);
  }

  lemma {:induction false} AndBound(x: nat, y: nat, n: nat)
    ensures And(x, y, n) <= y && And(x, y, n) <= x
  {
    if n != 0 {
      AndBound(x / 2, y / 2, n - 1);
    }
  }

  /** A mask whose low k bits are clear clears them. */
  lemma {:induction false} AndClears(x: nat, y: nat, k: nat, n: nat)
    requires y % Pow2(k) == 0
    ensures And(x, y, n) % Pow2(k) == 0
  {
    if n == 0 {
      SmallMod(0, Pow2(k));
    } else if k != 0 {
      var p := Pow2(k - 1);
      HalfMultiple(y, p);
      AndClears(x / 2, y / 2, k - 1, n - 1);
      EvenMod(And(x / 2, y / 2, n - 1), p);
    }
  }

  lemma HalfMultiple(y: nat, p: nat)
    requires p > 0 && y % (2 * p) == 0
    ensures y % 2 == 0 && y / 2 % p == 0
  {
    ModDouble(y, p);
  }

  lemma {:induction false} OrZero(x: nat, n: nat)
    requires x < Pow2(n)
    ensures Or(x, 0, n) == x && Or(0, x, n) == x && Xor(x, 0, n) == x && Xor(0, x, n) == x
  {
    if n != 0 {
      OrZero(x / 2, n - 1);
    }
  }

  /** Combining numbers whose digits do not overlap is addition. */
  lemma {:induction false} OrDisjoint(x: nat, y: nat, k: nat, n: nat)
    requires k <= n && x < Pow2(k) && y < Pow2(n) && y % Pow2(k) == 0
    ensures Or(x, y, n) == x + y && Or(y, x, n) == x + y && Xor(x, y, n) == x + y
  {
    if k == 0 {
      OrZero(y, n);
    } else {
      ModDouble(y, Pow2(k - 1));
      OrDisjoint(x / 2, y / 2, k - 1, n - 1);
    }
  }

  lemma XorSelf(v: u32)
    ensures Xor32(v, v) == 0
  {
    XorSame(v, 32);
  }

  lemma {:induction false} XorSame(v: nat, n: nat)
    ensures Xor(v, v, n) == 0
  {
    if n != 0 {
      XorSame(v / 2, n - 1);
    }
  }

  lemma {:induction false} XorAssoc(x: nat, y: nat, z: nat, n: nat)
    ensures Xor(Xor(x, y, n), z, n) == Xor(x, Xor(y, z, n), n)
  {
    if n != 0 {
      XorAssoc(x / 2, y / 2, z / 2, n - 1);
      XorStep(x, y, n);
      XorStep(y, z, n);
    }
  }

  lemma XorAssoc32(x: u32, y: u32, z: u32)
    ensures Xor32(Xor32(x, y), z) == Xor32(x, Xor32(y, z))
  {
    XorAssoc(x, y, z, 32);
  }

  lemma {:induction false} XorSwap(x: nat, y: nat, n: nat)
    ensures Xor(x, y, n) == Xor(y, x, n)
  {
    if n != 0 {
      XorSwap(x / 2, y / 2, n - 1);
    }
  }

  lemma XorZero32(x: u32)
    ensures Xor32(x, 0) == x && Xor32(0, x) == x
  {
    Pow32();
    OrZero(x, 32);
  }

  /** Changing one operand changes the result. */
  lemma XorCancel(x: u32, y: u32, z: u32)
    ensures Xor32(x, z) == Xor32(y, z) ==> x == y
    ensures Xor32(z, x) == Xor32(z, y) ==> x == y
  {
    XorSwap(x, z, 32);
    XorSwap(y, z, 32);
    XorAssoc32(x, z, z);
    XorAssoc32(y, z, z);
    XorSelf(z);
    XorZero32(x);
    XorZero32(y);
  }

  /** The top digit of a conjunction or exclusive-or is that of the operands' top digits. */
  lemma {:induction false} TopBit(x: nat, y: nat, n: nat)
    requires x < Pow2(n + 1) && y < Pow2(n + 1)
    ensures And(x, y, n + 1) >= Pow2(n) <==> x >= Pow2(n) && y >= Pow2(n)
    ensures Xor(x, y, n + 1) >= Pow2(n) <==> (x >= Pow2(n)) != (y >= Pow2(n))
  {
    if n != 0 {
      TopBit(x / 2, y / 2, n - 1);
    }
  }

  lemma Pow31()
    ensures Pow2(31) == 0x8000_0000
  {
    Pow32();
    assert Pow2(32) == 2 * Pow2(31);
  }

  /** The C test `x & 0x80000000` asks whether the word is negative. */
  lemma SignTest(x: u32)
    ensures And32(x, 0x8000_0000) != 0 <==> x >= 0x8000_0000
    ensures And32(x, 0x8000_0000) == if x >= 0x8000_0000 then 0x8000_0000 else 0
  {
    Pow31();
    AndBit(x, 31, 32);
    DigitDiv(x, 31);
    assert x / 0x8000_0000 == if x >= 0x8000_0000 then 1 else 0;
  }

  lemma TopBit32(x: u32, y: u32)
    ensures And32(x, y) >= 0x8000_0000 <==> x >= 0x8000_0000 && y >= 0x8000_0000
    ensures Xor32(x, y) >= 0x8000_0000 <==> (x >= 0x8000_0000) != (y >= 0x8000_0000)
  {
    Pow31();
    Pow32();
    TopBit(x, y, 31);
  }

  /* Little-endian encoding of a word in memory or in the instruction stream. */

  function LeBytes(v: nat, n: nat): (s: seq<u8>)
    ensures |s| == n
    decreases v, n
  {
    if n == 0 then [] else [v % 256] + LeBytes(v / 256, n - 1)
  }

  function LeVal(s: seq<u8>): (v: nat) {
    if |s| == 0 then 0 else s[0] + 256 * LeVal(s[1..])
  }

  function Pow256(n: nat): (p: nat)
    ensures p >= 1
  {
    if n == 0 then 1 else 256 * Pow256(n - 1)
  }

  lemma {:induction false} LeRoundTrip(v: nat, n: nat)
    requires v < Pow256(n)
    ensures LeVal(LeBytes(v, n)) == v
  {
    if n != 0 {
      LeRoundTrip(v / 256, n - 1);
      assert LeBytes(v, n)[1..] == LeBytes(v / 256, n - 1);
    }
  }

  lemma {:induction false} LeBound(s: seq<u8>)
    ensures LeVal(s) < Pow256(|s|)
  {
    if |s| != 0 {
      LeBound(s[1..]);
    }
  }

  function Min(a: nat, b: nat): nat { if a < b then a else b }
}
