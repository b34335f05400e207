/** Branches: the native condition test is CondPass, and the right PC is stored. */
module NativeBranch {
  import opened Words
  import opened Cpu
  import opened Insn
  import opened Asm
  import opened Codegen
  import opened NativeRun
  import opened NativeSteps
  import opened NativeFlags
  import opened NativeMemory
  import opened Layout
  import X = X86
  import Executor

  /** The four flags, read from the top byte of the APSR. */
  lemma TopByte(apsr: u32)
    ensures var v := apsr / 0x100_0000;
      && (Test(apsr, APSR_N) <==> v >= 128) && (Test(apsr, APSR_Z) <==> v / 64 % 2 == 1)
      && (Test(apsr, APSR_C) <==> v / 32 % 2 == 1) && (Test(apsr, APSR_V) <==> v / 16 % 2 == 1)
  {
    hide Test;
    FlagTests(apsr);
  }

  lemma BytePowers()
    ensures Pow2(2) == 4 && Pow2(4) == 16 && Pow2(5) == 32 && Pow2(6) == 64 && Pow2(7) == 128
  {
  }

  lemma ByteTests(v: u8)
    ensures And32(v, 0x40) == 0 <==> v / 64 % 2 == 0
    ensures And32(v, 0x20) == 0 <==> v / 32 % 2 == 0
    ensures And32(v, 0x10) == 0 <==> v / 16 % 2 == 0
    ensures And32(v, 0x80) == 0 <==> v < 128
  {
    hide And32, Pow2;
    BytePowers();
    BitTest(v, 7);
    BitTest(v, 6);
    BitTest(v, 5);
    BitTest(v, 4);
  }

  lemma AndOneOf(x: nat, n: nat)
    requires n > 0
    ensures And(x, 1, n) == x % 2
  {
    assert Pow2(1) == 2;
    AndLow(x, 1, n);
  }

  lemma NibbleSix(q: u32)
    ensures And32(q, 6) == 2 * (q / 2 % 4)
  {
    hide And, Pow2;
    BytePowers();
    AndLow(q / 2, 2, 31);
    AndStep(q, 6, 32);
  }

  lemma NibbleFive(q: u32)
    ensures And32(q, 5) == 4 * (q / 4 % 2) + q % 2
  {
    hide And;
    AndStep(q, 5, 32);
    AndStep(q / 2, 2, 31);
    AndOneOf(q / 2 / 2, 30);
  }

  lemma XorNothing(x: nat)
    requires x < 8
    ensures Xor(x, 0, 31) == x
  {
    hide Xor;
    Pow31();
    OrZero(x, 31);
  }

  lemma XorBit(q: u32, b: u32)
    requires q < 16 && b < 2
    ensures Xor32(q, b) == q - q % 2 + (if q % 2 != b then 1 else 0)
  {
    hide Xor, Pow2;
    XorStep(q, b, 32);
    XorNothing(q / 2);
  }

  /* Running the test. */

  lemma TestMeans(n: u8)
    ensures Meaning(Imm8(TestAlImm, n)) == X.Alu8RI(X.TEST, X.AL, n)
    ensures Meaning(Imm8(AndAlImm, n)) == X.Alu8RI(X.AND, X.AL, n)
    ensures Meaning(Imm8(CmpAlImm, n)) == X.Alu8RI(X.CMP, X.AL, n)
    ensures Meaning(Imm8(ShrAl, n)) == X.Shr8(X.AL, n)
    ensures Meaning(Imm8(ShrAh, n)) == X.Shr8(X.AH, n)
  {
  }

  lemma MixMeans()
    ensures Meaning(Plain(MovAhAl)) == X.MovR8(X.AH, X.AL)
    ensures Meaning(Plain(XorAlAh)) == X.Alu8RR(X.XOR, X.AL, X.AH)
  {
  }

  /** s' differs from s at most in rax, the x86 flags and the clock. */
  predicate TestWork(s: X.State, s': X.State) {
    s' == s.(x := s.x.(rax := s'.x.rax), fl := s'.fl, time := s'.time)
  }

  lemma TestImmByte(h: X.Host, s: X.State, v: u8, m: u8)
    ensures X.Alu8(h, s, X.TEST, X.AL, v, m) == s.(fl := X.NoFlags(h, s).(zf := And32(v, m) == 0))
    ensures And32(v, m) < 256
    ensures X.Alu8(h, s, X.AND, X.AL, v, m) ==
      X.SetB(s.(fl := X.NoFlags(h, s).(zf := And32(v, m) == 0)), X.AL, And32(v, m))
    ensures X.Alu8(h, s, X.CMP, X.AL, v, m) == s.(fl := X.NoFlags(h, s).(zf := v == m))
  {
    hide And, X.NoFlags, X.SetB;
    AndBound(v, m, 32);
  }

  lemma RunTestImm(h: X.Host, m: u8, k: Code, s: X.State) returns (s': X.State)
    requires s.status == X.Running
    ensures Exec(h, B(TestAlImm, m, k), s) == Exec(h, k, s')
    ensures TestWork(s, s') && s'.fl.zf == (And32(X.GetByte(s.x, X.AL), m) == 0)
  {
    hide Exec, Meaning, X.Alu8, And32, X.GetByte, X.NoFlags;
    TestMeans(m);
    TestImmByte(h, s, X.GetByte(s.x, X.AL), m);
    s' := DoAlu8Imm(h, Imm8(TestAlImm, m), X.TEST, X.AL, m, k, s);
  }

  /** and al, 6; cmp al, 2 */
  lemma RunHighTest(h: X.Host, k: Code, s: X.State) returns (s': X.State)
    requires s.status == X.Running
    ensures Exec(h, B(AndAlImm, 0x06, B(CmpAlImm, 0x02, k)), s) == Exec(h, k, s')
    ensures TestWork(s, s') && s'.fl.zf == (And32(X.GetByte(s.x, X.AL), 6) == 2)
  {
    hide Exec, Meaning, X.Alu8, And32, X.GetByte, X.NoFlags, X.LowByte;
    var v := X.GetByte(s.x, X.AL);
    TestMeans(6);
    TestMeans(2);
    TestImmByte(h, s, v, 6);
    var s1 := DoAlu8Imm(h, Imm8(AndAlImm, 6), X.AND, X.AL, 6, B(CmpAlImm, 2, k), s);
    ByteBack(s.x, X.AL, And32(v, 6));
    SameByte(X.PutByte(s.x, X.AL, And32(v, 6)), s1.x);
    TestImmByte(h, s1, And32(v, 6), 2);
    s' := DoAlu8Imm(h, Imm8(CmpAlImm, 2), X.CMP, X.AL, 2, k, s1);
  }

  lemma ShrByte(v: u8)
    ensures X.ShiftRight8(v, 4) == v / 16 && X.ShiftRight8(v, 3) == v / 8
  {
    assert Pow2(4) == 16 && Pow2(3) == 8;
  }

  /** shr al, 4 */
  lemma RunNibble(h: X.Host, k: Code, s: X.State) returns (s': X.State)
    requires s.status == X.Running
    ensures Exec(h, B(ShrAl, 4, k), s) == Exec(h, k, s')
    ensures TestWork(s, s') && X.GetByte(s'.x, X.AL) == X.GetByte(s.x, X.AL) / 16
  {
    hide Exec, Meaning, X.GetByte, X.NoFlags, X.LowByte, X.ShiftRight8;
    var v := X.GetByte(s.x, X.AL);
    TestMeans(4);
    ShrByte(v);
    s' := DoShrByte(h, Imm8(ShrAl, 4), X.AL, 4, k, s);
    ByteBack(s.x, X.AL, v / 16);
  }

  lemma OtherByte(x: X.RegFile, v: u8)
    ensures X.GetByte(X.PutByte(x, X.AH, v), X.AL) == X.GetByte(x, X.AL)
    ensures X.GetByte(X.PutByte(x, X.AL, v), X.AH) == X.GetByte(x, X.AH)
  {
    var w := x.rax;
    DivModUnique(X.LowByte(w, v), 256, w / 256, v);
    DivModUnique(X.HighByte(w, v), 256, w / 0x1_0000 * 256 + v, w % 256);
  }

  lemma XorByte(h: X.Host, s: X.State, q: u8, b: u8)
    requires q < 16 && b < 2
    ensures Xor32(q, b) < 256
    ensures X.Alu8(h, s, X.XOR, X.AL, q, b) ==
      X.SetB(s.(fl := X.NoFlags(h, s).(zf := Xor32(q, b) == 0)), X.AL, Xor32(q, b))
  {
    hide Xor32, And32, Or32, Add32, Sub32, X.NoFlags, X.SetB;
    XorBit(q, b);
  }

  lemma RunMovAh(h: X.Host, k: Code, s: X.State) returns (s': X.State)
    requires s.status == X.Running
    ensures Exec(h, P(MovAhAl, k), s) == Exec(h, k, s')
    ensures TestWork(s, s') && X.GetByte(s'.x, X.AL) == X.GetByte(s.x, X.AL)
    ensures X.GetByte(s'.x, X.AH) == X.GetByte(s.x, X.AL)
  {
    hide Exec, Meaning, X.GetByte, X.HighByte;
    var v := X.GetByte(s.x, X.AL);
    MixMeans();
    s' := DoMovByte(h, Plain(MovAhAl), X.AH, X.AL, k, s);
    ByteBack(s.x, X.AH, v);
    OtherByte(s.x, v);
  }

  lemma RunShrAh(h: X.Host, k: Code, s: X.State) returns (s': X.State)
    requires s.status == X.Running
    ensures Exec(h, B(ShrAh, 3, k), s) == Exec(h, k, s')
    ensures TestWork(s, s') && X.GetByte(s'.x, X.AL) == X.GetByte(s.x, X.AL)
    ensures X.GetByte(s'.x, X.AH) == X.GetByte(s.x, X.AH) / 8
  {
    hide Exec, Meaning, X.GetByte, X.NoFlags, X.HighByte, X.ShiftRight8;
    var v := X.GetByte(s.x, X.AH);
    TestMeans(3);
    ShrByte(v);
    s' := DoShrByte(h, Imm8(ShrAh, 3), X.AH, 3, k, s);
    ByteBack(s.x, X.AH, v / 8);
    OtherByte(s.x, v / 8);
  }

  /** mov ah, al; shr ah, 3: the sign bit in ah. */
  lemma RunSignToAh(h: X.Host, k: Code, s: X.State) returns (s': X.State)
    requires s.status == X.Running
    ensures Exec(h, P(MovAhAl, B(ShrAh, 3, k)), s) == Exec(h, k, s')
    ensures TestWork(s, s') && X.GetByte(s'.x, X.AL) == X.GetByte(s.x, X.AL)
    ensures X.GetByte(s'.x, X.AH) == X.GetByte(s.x, X.AL) / 8
  {
    hide Exec, X.GetByte;
    var s1 := RunMovAh(h, B(ShrAh, 3, k), s);
    s' := RunShrAh(h, k, s1);
  }

  /** xor al, ah; test al, m: the low bit of al becomes N xor V. */
  lemma RunXorTest(h: X.Host, m: u8, k: Code, s: X.State) returns (s': X.State)
    requires s.status == X.Running && X.GetByte(s.x, X.AL) < 16 && X.GetByte(s.x, X.AH) < 2
    ensures Exec(h, P(XorAlAh, B(TestAlImm, m, k)), s) == Exec(h, k, s')
    ensures TestWork(s, s')
    ensures s'.fl.zf == (And32(Xor32(X.GetByte(s.x, X.AL), X.GetByte(s.x, X.AH)), m) == 0)
  {
    hide Exec, Meaning, X.GetByte, X.NoFlags, X.LowByte, X.Alu8, Xor32, And32;
    var q, b := X.GetByte(s.x, X.AL), X.GetByte(s.x, X.AH);
    MixMeans();
    XorByte(h, s, q, b);
    var s1 := DoAlu8(h, Plain(XorAlAh), X.XOR, X.AL, X.AH, B(TestAlImm, m, k), s);
    ByteBack(s.x, X.AL, Xor32(q, b));
    SameByte(X.PutByte(s.x, X.AL, Xor32(q, b)), s1.x);
    s' := RunTestImm(h, m, k, s1);
  }

  /* The condition. */

  /** Whether the branch's jcc is taken. */
  predicate Passes(cond: nat, zf: bool) {
    if CondJump(cond) == X.CcE then zf else !zf
  }

  /** Equality, carry, sign and overflow tests look at one bit of the top APSR byte. */
  lemma SimpleCond(apsr: u32, cond: nat, v: u8, zf: bool)
    requires cond < 8 && v == apsr / 0x100_0000
    requires zf ==
      (And32(v, if cond < 2 then 0x40 else if cond < 4 then 0x20 else if cond < 6 then 0x80 else 0x10) == 0)
    ensures Passes(cond, zf) == Executor.CondPass(apsr, cond)
  {
    hide And32, Test;
    TopByte(apsr);
    ByteTests(v);
  }

  /** The others look at the flag nibble: C without Z, or N against V. */
  function Bit(b: bool): u8 { if b then 1 else 0 }

  function Nibble(n: bool, z: bool, c: bool, v: bool): u8 {
    8 * Bit(n) + 4 * Bit(z) + 2 * Bit(c) + Bit(v)
  }

  /** The top four bits of the APSR are the four flags. */
  lemma NibbleIs(apsr: u32)
    ensures apsr / 0x1000_0000 ==
      Nibble(Test(apsr, APSR_N), Test(apsr, APSR_Z), Test(apsr, APSR_C), Test(apsr, APSR_V))
  {
    hide Test;
    TopByte(apsr);
  }

  lemma NibbleParts(n: bool, z: bool, c: bool, v: bool)
    ensures var q := Nibble(n, z, c, v);
      q / 2 % 4 == 2 * Bit(z) + Bit(c) && q / 8 == Bit(n) && q % 2 == Bit(v) && q / 4 % 2 == Bit(z)
  {
    var q := Nibble(n, z, c, v);
    DivModUnique(q, 2, 4 * Bit(n) + 2 * Bit(z) + Bit(c), Bit(v));
    DivModUnique(4 * Bit(n) + 2 * Bit(z) + Bit(c), 4, Bit(n), 2 * Bit(z) + Bit(c));
  }

  lemma HighBits(n: bool, z: bool, c: bool, v: bool)
    ensures And32(Nibble(n, z, c, v), 6) == 2 <==> c && !z
  {
    hide And32, Nibble;
    NibbleSix(Nibble(n, z, c, v));
    NibbleParts(n, z, c, v);
  }

  lemma MixedNibble(n: bool, z: bool, c: bool, v: bool)
    ensures Xor32(Nibble(n, z, c, v), Bit(n)) == Nibble(n, z, c, v != n)
  {
    hide Xor32;
    XorBit(Nibble(n, z, c, v), Bit(n));
    NibbleParts(n, z, c, v);
  }

  lemma SignedBits(n: bool, z: bool, c: bool, v: bool)
    ensures var q := Nibble(n, z, c, v);
      && q / 8 == Bit(n)
      && (And32(Xor32(q, Bit(n)), 1) == 0 <==> n == v)
      && (And32(Xor32(q, Bit(n)), 5) == 0 <==> n == v && !z)
  {
    hide And32, Xor32, Nibble;
    MixedNibble(n, z, c, v);
    var x := Nibble(n, z, c, v != n);
    NibbleParts(n, z, c, v);
    NibbleParts(n, z, c, v != n);
    AndOne(x);
    NibbleFive(x);
  }

  lemma HighCond(apsr: u32, cond: nat, zf: bool)
    requires cond == 8 || cond == 9
    requires zf == (And32(apsr / 0x1000_0000, 6) == 2)
    ensures Passes(cond, zf) == Executor.CondPass(apsr, cond)
  {
    hide And32, Test, Nibble;
    NibbleIs(apsr);
    HighBits(Test(apsr, APSR_N), Test(apsr, APSR_Z), Test(apsr, APSR_C), Test(apsr, APSR_V));
  }

  lemma SignedCond(apsr: u32, cond: nat, zf: bool)
    requires 10 <= cond < 14
    requires var q: u32 := apsr / 0x1000_0000; zf == (And32(Xor32(q, q / 8), if cond < 12 then 1 else 5) == 0)
    ensures Passes(cond, zf) == Executor.CondPass(apsr, cond)
  {
    hide And32, Test, Xor32, Nibble, Bit;
    NibbleIs(apsr);
    SignedBits(Test(apsr, APSR_N), Test(apsr, APSR_Z), Test(apsr, APSR_C), Test(apsr, APSR_V));
  }

  lemma LoadTopByte(h: X.Host, k: Code, s: X.State) returns (s': X.State)
    requires Ready(h, s)
    ensures Exec(h, Then(LdAlApsrByte3, k), s) == Exec(h, k, s')
    ensures TestWork(s, s') && X.GetByte(s'.x, X.AL) == s.guest.apsr / 0x100_0000
  {
    hide Exec, HostOk, X.GetByte, X.LowByte;
    ByteBack(s.x, X.AL, s.guest.apsr / 0x100_0000);
    s' := DoApsrByte(h, k, s);
  }

  function SimpleMask(cond: nat): u8 {
    if cond < 2 then 0x40 else if cond < 4 then 0x20 else if cond < 6 then 0x80 else 0x10
  }

  lemma CondTestCases(cond: nat, k: Code)
    requires cond < 14
    ensures CondTest(cond, k) ==
      if cond < 8 then B(TestAlImm, SimpleMask(cond), k)
      else if cond < 10 then B(AndAlImm, 0x06, B(CmpAlImm, 0x02, k))
      else P(MovAhAl, B(ShrAh, 3, P(XorAlAh, B(TestAlImm, if cond < 12 then 1 else 5, k))))
  {
  }

  lemma RunSignedTest(h: X.Host, m: u8, k: Code, s: X.State) returns (s': X.State)
    requires s.status == X.Running && X.GetByte(s.x, X.AL) < 16
    ensures Exec(h, P(MovAhAl, B(ShrAh, 3, P(XorAlAh, B(TestAlImm, m, k)))), s) == Exec(h, k, s')
    ensures TestWork(s, s')
    ensures s'.fl.zf == (And32(Xor32(X.GetByte(s.x, X.AL), X.GetByte(s.x, X.AL) / 8), m) == 0)
  {
    hide Exec, X.GetByte, And32, Xor32;
    var s1 := RunSignToAh(h, P(XorAlAh, B(TestAlImm, m, k)), s);
    s' := RunXorTest(h, m, k, s1);
  }

  /** The emitted test leaves ZF such that the branch's jcc is taken exactly when the
      condition passes. */
  lemma RunCondTest(h: X.Host, cond: nat, k: Code, s: X.State) returns (s': X.State)
    requires Ready(h, s) && cond < 14
    ensures Exec(h, Then(LdAlApsrByte3, if cond >= 8 then B(ShrAl, 4, CondTest(cond, k)) else CondTest(cond, k)), s) ==
      Exec(h, k, s')
    ensures TestWork(s, s') && Passes(cond, s'.fl.zf) == Executor.CondPass(s.guest.apsr, cond)
  {
    hide Exec, X.GetByte, And32, Xor32, HostOk, CondTest, Passes, Executor.CondPass;
    var apsr := s.guest.apsr;
    CondTestCases(cond, k);
    if cond < 8 {
      var s1 := LoadTopByte(h, CondTest(cond, k), s);
      s' := RunTestImm(h, SimpleMask(cond), k, s1);
      SimpleCond(apsr, cond, apsr / 0x100_0000, s'.fl.zf);
    } else {
      var s1 := LoadTopByte(h, B(ShrAl, 4, CondTest(cond, k)), s);
      var s2 := RunNibble(h, CondTest(cond, k), s1);
      assert X.GetByte(s2.x, X.AL) == apsr / 0x1000_0000;
      if cond < 10 {
        s' := RunHighTest(h, k, s2);
        HighCond(apsr, cond, s'.fl.zf);
      } else {
        s' := RunSignedTest(h, if cond < 12 then 1 else 5, k, s2);
        SignedCond(apsr, cond, s'.fl.zf);
      }
    }
  }

  lemma NearMeans(c: X.Cc, n: u32)
    ensures Meaning(JccNear(c, n)) == X.Jcc(c, n)
  {
  }

  lemma JumpCond(h: X.Host, c: X.Cc, n: u32, k: Code, k': Code, s: X.State) returns (s': X.State)
    requires s.status == X.Running && (c == X.CcE || c == X.CcNE) && Skip(k, n) == Some(k')
    ensures s' == Tick(s, s)
    ensures Exec(h, Then(JccNear(c, n), k), s) == Exec(h, if X.Holds(s.fl, c) then k' else k, s')
  {
    hide Exec, Skip, Meaning, X.Effect;
    NearMeans(c, n);
    if X.Holds(s.fl, c) {
      s' := Jump(h, JccNear(c, n), k, n, k', s);
    } else {
      s' := Go(h, JccNear(c, n), k, s);
      StepJump(h, X.Jcc(c, n), s);
    }
  }

  function PickPc(cond: nat, fall: u32, target: u32, k: Code): Code {
    Then(JccNear(CondJump(cond), 13), Then(StPc(fall), Then(JmpShort(11), Then(StPc(target), k))))
  }

  lemma SpanPick(fall: u32, target: u32, k: Code)
    ensures Span(Then(StPc(fall), Then(JmpShort(11), Then(StPc(target), k))), 13, Then(StPc(target), k))
    ensures Span(Then(StPc(target), k), 11, k)
  {
    Span2(StPc(fall), JmpShort(11), Then(StPc(target), k));
    Span1(StPc(target), k);
  }

  lemma RunPick(h: X.Host, cond: nat, fall: u32, target: u32, k: Code, s: X.State) returns (s': X.State)
    requires Ready(h, s)
    ensures Exec(h, PickPc(cond, fall, target, k), s) == Exec(h, k, s')
    ensures s' == s.(guest := s.guest.(r := s.guest.r[REG_PC := if Passes(cond, s.fl.zf) then target else fall]),
      time := s'.time)
  {
    hide Exec, Skip, Meaning, HostOk;
    var taken := Then(StPc(target), k);
    var close := Then(JmpShort(11), taken);
    SpanPick(fall, target, k);
    var s1 := JumpCond(h, CondJump(cond), 13, Then(StPc(fall), close), taken, s);
    if Passes(cond, s.fl.zf) {
      s' := DoStPc(h, target, k, s1);
    } else {
      var s2 := DoStPc(h, fall, close, s1);
      assert Meaning(JmpShort(11)) == X.Jmp(11) by { ShortMeans(11); }
      s' := Jump(h, JmpShort(11), taken, 11, k, s2);
    }
  }

  lemma ShortMeans(n: u8)
    ensures Meaning(JmpShort(n)) == X.Jmp(n)
  {
  }

  /** A conditional branch stores the branch target exactly when its condition passes, and
      the next address otherwise. */
  lemma RunBCond(h: X.Host, i: Insn, k: Code, s: X.State) returns (s': X.State)
    requires Ready(h, s) && i.cond < 14
    ensures Exec(h, BCondCode(i, k), s) == Exec(h, k, s')
    ensures var pc :=
        if Executor.CondPass(s.guest.apsr, i.cond) then Add32(Add32(i.pc, 4), i.imm) else Add32(i.pc, i.size);
      Quiet(s, s', s.x.rbx, s.guest.(r := s.guest.r[REG_PC := pc]), s.mem)
  {
    hide Exec, HostOk, CondTest, Passes, Executor.CondPass, PickPc;
    var target, fall := Add32(Add32(i.pc, 4), i.imm), Add32(i.pc, i.size);
    var jump := PickPc(i.cond, fall, target, k);
    BCondShape(i, k);
    var s1 := RunCondTest(h, i.cond, jump, s);
    s' := RunPick(h, i.cond, fall, target, k, s1);
  }

  lemma BCondShape(i: Insn, k: Code)
    requires i.cond < 14
    ensures var jump := PickPc(i.cond, Add32(i.pc, i.size), Add32(Add32(i.pc, 4), i.imm), k);
      BCondCode(i, k) ==
        Then(LdAlApsrByte3, if i.cond >= 8 then B(ShrAl, 4, CondTest(i.cond, jump)) else CondTest(i.cond, jump))
  {
    hide CondTest, CondJump;
  }
}
