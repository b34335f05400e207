/** The flag emitters: after a host addition, subtraction or logical operation, the
    lahf/seto shuffle leaves in the guest APSR exactly the host's flags. */
module NativeFlags {
  import opened Words
  import opened Cpu
  import opened Asm
  import opened Codegen
  import opened NativeRun
  import opened NativeSteps
  import opened X86

  /* The arithmetic of the shuffle. */

  predicate Odd(v: u64) { v % 2 == 1 }

  /** The byte lahf reads, bit by bit. */
  lemma AhBits(n: Noise, f: Flags)
    ensures var v := AhFlags(n, f);
      (v >= 128 <==> f.sf) && (v / 64 % 2 == 1 <==> f.zf) && (Odd(v) <==> f.cf)
  {
  }

  lemma SignShift(v: u32)
    requires v < 256
    ensures ShiftLeft(ShiftRight(v, 7), 31) == Flag(v >= 128, APSR_N)
  {
    Powers();
    assert Pow2(7) == 128;
  }

  lemma AndOne(v: u32)
    ensures And32(v, 1) == v % 2
  {
    assert Pow2(1) == 2;
    AndLow(v, 1, 32);
  }

  lemma ShiftFlag(b: u32, k: nat)
    requires b < 2 && k < 32
    ensures Pow2(k) < 0x1_0000_0000 && ShiftLeft(b, k) == Flag(b == 1, Pow2(k))
  {
    Powers();
    PowLess(k, 32);
  }

  lemma ZeroShift(v: u32)
    requires v < 256
    ensures ShiftLeft(And32(ShiftRight(v, 6), 1), 30) == Flag(v / 64 % 2 == 1, APSR_Z)
  {
    Powers();
    assert Pow2(6) == 64;
    AndOne(ShiftRight(v, 6));
    ShiftFlag(v / 64 % 2, 30);
  }

  lemma XorOne(b: u32)
    requires b < 2
    ensures Xor32(b, 1) == 1 - b
  {
    hide Xor;
    XorStep(b, 1, 32);
    OrZero(0, 31);
  }

  lemma CarryShift(v: u32, isSub: bool)
    ensures ShiftLeft(if isSub then Xor32(And32(v, 1), 1) else And32(v, 1), 29) == Flag(Odd(v) != isSub, APSR_C)
  {
    hide Xor32, And32, ShiftLeft;
    Powers();
    AndOne(v);
    XorOne(v % 2);
    ShiftFlag(v % 2, 29);
    ShiftFlag(1 - v % 2, 29);
  }

  /** Or-ing one more flag below the ones already there adds its weight. */
  lemma Combine(f: u32, on: bool, k: nat)
    requires k < 32 && f % (2 * Pow2(k)) < Pow2(k)
    ensures Pow2(k) < 0x1_0000_0000 && f + (if on then Pow2(k) else 0) < 0x1_0000_0000
    ensures Or32(f, Flag(on, Pow2(k))) == f + Flag(on, Pow2(k))
  {
    SetFlag(f, k, on);
    Pow32();
    OrZero(f, 32);
  }

  /** Flags gathered in esi meet the untouched low part of the APSR. */
  lemma Merged(low: u32, high: u32, k: nat)
    requires k <= 32 && low < Pow2(k) && high % Pow2(k) == 0
    ensures Or32(low, high) == low + high
  {
    Pow32();
    OrDisjoint(low, high, k, 32);
  }

  /* The fragments. */

  /** s' differs from s at most in rsi, r10, the x86 flags and the clock. */
  predicate FlagWork(s: State, s': State) {
    s' == s.(x := s.x.(rsi := s'.x.rsi, r10 := s'.x.r10), fl := s'.fl, time := s'.time)
  }

  lemma MovesMean()
    ensures Meaning(Plain(MovR11dEax)) == MovRR(false, R11, RAX)
    ensures Meaning(Plain(MovEaxR11d)) == MovRR(false, RAX, R11)
    ensures Meaning(Plain(MovEsiEdx)) == MovRR(false, RSI, RDX)
    ensures Meaning(Plain(MovR10dEdx)) == MovRR(false, R10, RDX)
  {
  }

  lemma JoinsMean()
    ensures Meaning(Plain(MovzxEdxAh)) == Movzx(RDX, AH)
    ensures Meaning(Plain(MovzxR10dCl)) == Movzx(R10, CL)
    ensures Meaning(Plain(OrEsiR10d)) == AluRR(OR, false, RSI, R10)
    ensures Meaning(Plain(OrR10dEsi)) == AluRR(OR, false, R10, RSI)
    ensures Meaning(Plain(TestEaxEax)) == AluRR(TEST, false, RAX, RAX)
  {
  }

  lemma ShiftsMean(n: u8)
    ensures Meaning(Imm8(ShrEsi, n)) == Shr(RSI, n)
    ensures Meaning(Imm8(ShlEsi, n)) == Shl(RSI, n)
    ensures Meaning(Imm8(ShrR10d, n)) == Shr(R10, n)
    ensures Meaning(Imm8(ShlR10d, n)) == Shl(R10, n)
  {
  }

  lemma MasksMean(v: u32)
    ensures Meaning(Imm32(AndR10d, v)) == AluRI(AND, false, R10, v)
    ensures Meaning(Imm32(XorR10d, v)) == AluRI(XOR, false, R10, v)
  {
  }

  lemma Low(v: u64)
    ensures v < 0x1_0000_0000 ==> Lo32(v) == v
  {
  }

  lemma MoveStep(h: Host, k: Code, s: State) returns (s': State)
    requires s.status == Running
    ensures Exec(h, P(MovEsiEdx, k), s) == Exec(h, k, s')
    ensures FlagWork(s, s') && s'.x.rsi == Lo32(s.x.rdx)
  {
    hide Exec, NoFlags, Lo32, Meaning;
    MovesMean();
    s' := DoMov(h, Plain(MovEsiEdx), false, RSI, RDX, k, s);
  }

  lemma ShrStep(h: Host, n: u8, k: Code, s: State) returns (s': State)
    requires s.status == Running && n < 32
    ensures Exec(h, B(ShrEsi, n, k), s) == Exec(h, k, s')
    ensures FlagWork(s, s') && s'.x.rsi == ShiftRight(Lo32(s.x.rsi), n)
  {
    hide Exec, ShiftLeft, ShiftRight, NoFlags, Lo32, Meaning;
    ShiftsMean(n);
    s' := DoShift(h, Imm8(ShrEsi, n), false, RSI, n, k, s);
  }

  lemma ShlStep(h: Host, n: u8, k: Code, s: State) returns (s': State)
    requires s.status == Running && n < 32
    ensures Exec(h, B(ShlEsi, n, k), s) == Exec(h, k, s')
    ensures FlagWork(s, s') && s'.x.rsi == ShiftLeft(Lo32(s.x.rsi), n)
  {
    hide Exec, ShiftLeft, ShiftRight, NoFlags, Lo32, Meaning;
    ShiftsMean(n);
    s' := DoShift(h, Imm8(ShlEsi, n), true, RSI, n, k, s);
  }

  lemma RunShifts(h: Host, k: Code, s: State) returns (s': State)
    requires s.status == Running
    ensures Exec(h, SignBit(k), s) == Exec(h, k, s')
    ensures FlagWork(s, s') && s'.x.rsi == ShiftLeft(Lo32(ShiftRight(Lo32(Lo32(s.x.rdx)), 7)), 31)
  {
    hide Exec, ShiftLeft, ShiftRight, Lo32;
    var s1 := MoveStep(h, B(ShrEsi, 7, B(ShlEsi, 31, k)), s);
    var s2 := ShrStep(h, 7, B(ShlEsi, 31, k), s1);
    s' := ShlStep(h, 31, k, s2);
  }

  lemma RunSignBit(h: Host, k: Code, s: State) returns (s': State)
    requires s.status == Running && s.x.rdx < 256
    ensures Exec(h, SignBit(k), s) == Exec(h, k, s')
    ensures FlagWork(s, s') && s'.x.rsi == Flag(s.x.rdx >= 128, APSR_N)
  {
    hide Exec, SignBit, ShiftLeft, ShiftRight, Lo32;
    SignShift(s.x.rdx);
    Low(s.x.rdx);
    Low(ShiftRight(s.x.rdx, 7));
    s' := RunShifts(h, k, s);
  }

  lemma OrStep(h: Host, k: Code, s: State) returns (s': State)
    requires s.status == Running
    ensures Exec(h, P(OrEsiR10d, k), s) == Exec(h, k, s')
    ensures FlagWork(s, s') && s'.x.rsi == Or32(Lo32(s.x.rsi), Lo32(s.x.r10))
  {
    hide Exec, NoFlags, AluFlags, Or32, And32, Xor32, Add32, Sub32, Lo32, Meaning;
    JoinsMean();
    s' := DoAlu(h, Plain(OrEsiR10d), OR, RSI, R10, k, s);
  }

  /** The masked, shifted bit in r10 joins esi. */
  lemma RunJoinBit(h: Host, k: Code, s: State, n: nat) returns (s': State)
    requires s.status == Running && n < 32 && s.x.rsi < 0x1_0000_0000
    ensures Exec(h, B(ShlR10d, n, P(OrEsiR10d, k)), s) == Exec(h, k, s')
    ensures FlagWork(s, s') && s'.x.rsi == Or32(s.x.rsi, ShiftLeft(Lo32(s.x.r10), n))
  {
    hide Exec, ShiftLeft, ShiftRight, NoFlags, Or32, Wrap32, Meaning;
    ShiftsMean(n);
    var s1 := DoShift(h, Imm8(ShlR10d, n), true, R10, n, P(OrEsiR10d, k), s);
    s' := OrStep(h, k, s1);
  }

  /** The bits of e below weight m are clear. */
  predicate Clear(e: u64, m: u64)
    requires m > 0
  {
    e % m == 0
  }

  lemma ZeroJoin(e: u32, v: u32)
    requires v < 256 && Clear(e, 0x8000_0000)
    ensures e + Flag(v / 64 % 2 == 1, APSR_Z) < 0x1_0000_0000
    ensures Or32(e, ShiftLeft(And32(ShiftRight(v, 6), 1), 30)) == e + Flag(v / 64 % 2 == 1, APSR_Z)
  {
    hide Or32, And32, ShiftLeft, ShiftRight;
    ZeroShift(v);
    Powers();
    Combine(e, v / 64 % 2 == 1, 30);
  }

  lemma RunZeroBit(h: Host, k: Code, s: State) returns (s': State)
    requires s.status == Running && s.x.rdx < 256 && s.x.rsi < 0x1_0000_0000 && Clear(s.x.rsi, 0x8000_0000)
    ensures Exec(h, ZeroBit(k), s) == Exec(h, k, s')
    ensures FlagWork(s, s') && s'.x.rsi == s.x.rsi + Flag(s.x.rdx / 64 % 2 == 1, APSR_Z)
  {
    hide Exec, ShiftLeft, ShiftRight, NoFlags, AluFlags, Or32, And32, Wrap32, Meaning, Clear;
    ZeroJoin(s.x.rsi, s.x.rdx);
    MovesMean();
    ShiftsMean(6);
    MasksMean(1);
    var k3 := B(ShlR10d, 30, P(OrEsiR10d, k));
    var s1 := DoMov(h, Plain(MovR10dEdx), false, R10, RDX, B(ShrR10d, 6, I(AndR10d, 1, k3)), s);
    var s2 := DoShift(h, Imm8(ShrR10d, 6), false, R10, 6, I(AndR10d, 1, k3), s1);
    var s3 := DoAluImm(h, Imm32(AndR10d, 1), AND, R10, 1, k3, s2);
    s' := RunJoinBit(h, k, s3, 30);
  }

  lemma CarryJoin(e: u32, v: u32, isSub: bool)
    requires Clear(e, 0x4000_0000)
    ensures e + Flag(Odd(v) != isSub, APSR_C) < 0x1_0000_0000
    ensures Or32(e, ShiftLeft(if isSub then Xor32(And32(v, 1), 1) else And32(v, 1), 29))
         == e + Flag(Odd(v) != isSub, APSR_C)
  {
    hide Or32, And32, Xor32, ShiftLeft;
    CarryShift(v, isSub);
    Powers();
    Combine(e, Odd(v) != isSub, 29);
  }

  /** r10 = bit 0 of the flag byte. */
  lemma RunLowBit(h: Host, k: Code, s: State) returns (s': State)
    requires s.status == Running
    ensures Exec(h, P(MovR10dEdx, I(AndR10d, 1, k)), s) == Exec(h, k, s')
    ensures FlagWork(s, s') && s'.x.rsi == s.x.rsi && s'.x.r10 == And32(Lo32(Lo32(s.x.rdx)), 1)
  {
    hide Exec, NoFlags, AluFlags, Or32, And32, Xor32, Add32, Sub32, Lo32, Meaning;
    MovesMean();
    MasksMean(1);
    var s1 := DoMov(h, Plain(MovR10dEdx), false, R10, RDX, I(AndR10d, 1, k), s);
    s' := DoAluImm(h, Imm32(AndR10d, 1), AND, R10, 1, k, s1);
  }

  lemma RunFlip(h: Host, k: Code, s: State) returns (s': State)
    requires s.status == Running
    ensures Exec(h, I(XorR10d, 1, k), s) == Exec(h, k, s')
    ensures FlagWork(s, s') && s'.x.rsi == s.x.rsi && s'.x.r10 == Xor32(Lo32(s.x.r10), 1)
  {
    hide Exec, NoFlags, AluFlags, Or32, And32, Xor32, Add32, Sub32, Lo32, Meaning;
    MasksMean(1);
    s' := DoAluImm(h, Imm32(XorR10d, 1), XOR, R10, 1, k, s);
  }

  lemma RunCarryBit(h: Host, isSub: bool, k: Code, s: State) returns (s': State)
    requires s.status == Running && s.x.rdx < 256 && s.x.rsi < 0x1_0000_0000 && Clear(s.x.rsi, 0x4000_0000)
    ensures Exec(h, CarryBit(isSub, k), s) == Exec(h, k, s')
    ensures FlagWork(s, s') && s'.x.rsi == s.x.rsi + Flag(Odd(s.x.rdx) != isSub, APSR_C)
  {
    hide Exec, ShiftLeft, And32, Xor32, Or32, Lo32, Clear, Odd, Flag;
    CarryJoin(s.x.rsi, s.x.rdx, isSub);
    Low(s.x.rdx);
    Low(And32(s.x.rdx, 1));
    Low(Xor32(And32(s.x.rdx, 1), 1));
    var shift := B(ShlR10d, 29, P(OrEsiR10d, k));
    if isSub {
      var s1 := RunLowBit(h, I(XorR10d, 1, shift), s);
      var s2 := RunFlip(h, shift, s1);
      s' := RunJoinBit(h, k, s2, 29);
    } else {
      var s1 := RunLowBit(h, shift, s);
      s' := RunJoinBit(h, k, s1, 29);
    }
  }

  lemma OverflowJoin(e: u32, b: u32)
    requires Clear(e, 0x2000_0000) && b < 2
    ensures e + Flag(b == 1, APSR_V) < 0x1_0000_0000
    ensures Or32(e, ShiftLeft(b, 28)) == e + Flag(b == 1, APSR_V)
  {
    hide Or32, ShiftLeft;
    ShiftFlag(b, 28);
    Powers();
    Combine(e, b == 1, 28);
  }

  lemma RunOverflowBit(h: Host, k: Code, s: State) returns (s': State)
    requires s.status == Running && s.x.rsi < 0x1_0000_0000 && Clear(s.x.rsi, 0x2000_0000) && GetByte(s.x, CL) < 2
    ensures Exec(h, OverflowBit(k), s) == Exec(h, k, s')
    ensures FlagWork(s, s') && s'.x.rsi == s.x.rsi + Flag(GetByte(s.x, CL) == 1, APSR_V)
  {
    hide Exec, ShiftLeft, NoFlags, AluFlags, Or32, Wrap32, Meaning, GetByte, Clear;
    OverflowJoin(s.x.rsi, GetByte(s.x, CL));
    JoinsMean();
    var s1 := DoMovzx(h, Plain(MovzxR10dCl), R10, CL, B(ShlR10d, 28, P(OrEsiR10d, k)), s);
    s' := RunJoinBit(h, k, s1, 28);
  }

  /** s' differs from s at most in the scratch registers rcx, rdx, rsi, r10 and r11, the
      flags, the clock and the guest APSR. */
  predicate ApsrWork(s: State, s': State, apsr: u32) {
    s' == s.(x := s.x.(rcx := s'.x.rcx, rdx := s'.x.rdx, rsi := s'.x.rsi, r10 := s'.x.r10, r11 := s'.x.r11),
             fl := s'.fl, time := s'.time, guest := s.guest.(apsr := apsr))
  }

  lemma MergeMeans()
    ensures Meaning(Disp(LdR10d, APSR_OFF)) == LoadRM(R10, R15, APSR_OFF)
    ensures Meaning(Disp(StR10d, APSR_OFF)) == StoreMR(R15, APSR_OFF, R10)
  {
  }

  lemma RunMerge(h: Host, mask: u32, k: Code, s: State) returns (s': State)
    requires Ready(h, s) && s.x.rsi < 0x1_0000_0000
    ensures Exec(h, MergeApsr(mask, k), s) == Exec(h, k, s')
    ensures ApsrWork(s, s', Or32(And32(s.guest.apsr, mask), s.x.rsi))
  {
    hide Exec, NoFlags, AluFlags, Or32, And32, Xor32, Add32, Sub32, Wrap32, Meaning, HostOk;
    MergeMeans();
    MasksMean(mask);
    JoinsMean();
    var k3 := D(StR10d, APSR_OFF, k);
    var k2 := P(OrR10dEsi, k3);
    var s1 := DoGuestLoad(h, Disp(LdR10d, APSR_OFF), R10, APSR_OFF, I(AndR10d, mask, k2), s);
    var s2 := DoAluImm(h, Imm32(AndR10d, mask), AND, R10, mask, k2, s1);
    var s3 := DoAlu(h, Plain(OrR10dEsi), OR, R10, RSI, k3, s2);
    s' := DoGuestStore(h, Disp(StR10d, APSR_OFF), R10, APSR_OFF, k, s3);
  }

  lemma ByteBack(x: RegFile, r: Byte, v: u8)
    ensures GetByte(PutByte(x, r, v), r) == v
  {
    hide LowByte, HighByte;
    LowByteBack(x.rax, v);
    LowByteBack(x.rcx, v);
    LowByteBack(x.rdx, v);
    LowByteBack(x.rbx, v);
    HighByteBack(x.rax, v);
  }

  lemma LowByteBack(w: u64, v: u8)
    ensures LowByte(w, v) % 256 == v
  {
    DivModUnique(LowByte(w, v), 256, w / 256, v);
  }

  lemma HighByteBack(w: u64, v: u8)
    ensures HighByte(w, v) / 256 % 256 == v
  {
    var q := w / 0x1_0000 * 256 + v;
    DivModUnique(HighByte(w, v), 256, q, w % 256);
    DivModUnique(q, 256, w / 0x1_0000, v);
  }

  lemma SameByte(x: RegFile, y: RegFile)
    ensures x.rcx == y.rcx ==> GetByte(x, CL) == GetByte(y, CL)
    ensures x.rax == y.rax ==> GetByte(x, AL) == GetByte(y, AL) && GetByte(x, AH) == GetByte(y, AH)
  {
  }

  /** Save eax, read the flags into edx (and cl), restore eax. */
  lemma RunReadFlags(h: Host, k: Code, s: State) returns (s': State)
    requires s.status == Running && s.x.rax < 0x1_0000_0000
    ensures Exec(h, P(MovR11dEax, P(LahfAh, P(MovzxEdxAh, P(MovEaxR11d, k)))), s) == Exec(h, k, s')
    ensures ApsrWork(s, s', s.guest.apsr) && s'.x.rcx == s.x.rcx
    ensures exists n :: s'.x.rdx == AhFlags(n, s.fl)
  {
    hide Exec, AhFlags, Wrap32, Meaning, HighByte, LowByte, GetByte;
    MovesMean();
    JoinsMean();
    var k3 := P(MovEaxR11d, k);
    var k2 := P(MovzxEdxAh, k3);
    var s1 := DoMov(h, Plain(MovR11dEax), false, R11, RAX, P(LahfAh, k2), s);
    var s2 := DoLahf(h, k2, s1);
    ByteBack(s1.x, AH, AhFlags(h.noise(s1.time), s1.fl));
    var s3 := DoMovzx(h, Plain(MovzxEdxAh), RDX, AH, k3, s2);
    s' := DoMov(h, Plain(MovEaxR11d), false, RAX, R11, k, s3);
    assert s'.x.rdx == AhFlags(h.noise(s.time + 1), s.fl);
  }

  lemma RunReadAllFlags(h: Host, k: Code, s: State) returns (s': State)
    requires s.status == Running && s.x.rax < 0x1_0000_0000
    ensures Exec(h, P(MovR11dEax, P(LahfAh, P(SetoCl, P(MovzxEdxAh, P(MovEaxR11d, k))))), s) == Exec(h, k, s')
    ensures ApsrWork(s, s', s.guest.apsr) && GetByte(s'.x, CL) == if s.fl.of then 1 else 0
    ensures exists n :: s'.x.rdx == AhFlags(n, s.fl)
  {
    hide Exec, AhFlags, Wrap32, Meaning, HighByte, LowByte, GetByte;
    MovesMean();
    JoinsMean();
    var k3 := P(MovEaxR11d, k);
    var k2 := P(MovzxEdxAh, k3);
    var s1 := DoMov(h, Plain(MovR11dEax), false, R11, RAX, P(LahfAh, P(SetoCl, k2)), s);
    var s2 := DoLahf(h, P(SetoCl, k2), s1);
    ByteBack(s1.x, AH, AhFlags(h.noise(s1.time), s1.fl));
    var s3 := DoSeto(h, k2, s2);
    ByteBack(s2.x, CL, if s.fl.of then 1 else 0);
    SameByte(s2.x, s3.x);
    var s4 := DoMovzx(h, Plain(MovzxEdxAh), RDX, AH, k3, s3);
    s' := DoMov(h, Plain(MovEaxR11d), false, RAX, R11, k, s4);
    SameByte(s3.x, s'.x);
    assert s'.x.rdx == AhFlags(h.noise(s.time + 1), s.fl);
  }

  lemma FourFlags(n: bool, z: bool, c: bool, v: bool)
    ensures var e := Flag(n, APSR_N) + Flag(z, APSR_Z) + Flag(c, APSR_C) + Flag(v, APSR_V);
      e < 0x1_0000_0000 && e % 0x1000_0000 == 0 && (!c && !v ==> e % 0x4000_0000 == 0)
    ensures Flag(false, APSR_C) == 0 && Flag(false, APSR_V) == 0
  {
  }

  lemma NzcvSum(apsr: u32, n: bool, z: bool, c: bool, v: bool)
    ensures var e := Flag(n, APSR_N) + Flag(z, APSR_Z) + Flag(c, APSR_C) + Flag(v, APSR_V);
      e < 0x1_0000_0000 && Or32(And32(apsr, 0x0FFF_FFFF), e) == Nzcv(apsr, n, z, c, v)
  {
    hide Or32, And32, Flag;
    var e := Flag(n, APSR_N) + Flag(z, APSR_Z) + Flag(c, APSR_C) + Flag(v, APSR_V);
    FourFlags(n, z, c, v);
    MaskLow28(apsr);
    Powers();
    Merged(apsr % 0x1000_0000, e, 28);
  }

  lemma NzSum(apsr: u32, n: bool, z: bool)
    ensures var e := Flag(n, APSR_N) + Flag(z, APSR_Z);
      e < 0x1_0000_0000 && Or32(And32(apsr, 0x3FFF_FFFF), e) == Nz(apsr, n, z)
  {
    hide Or32, And32, Flag;
    var e := Flag(n, APSR_N) + Flag(z, APSR_Z);
    FourFlags(n, z, false, false);
    MaskLow30(apsr);
    Powers();
    Merged(apsr % 0x4000_0000, e, 30);
  }

  lemma FlagSums(n: bool, z: bool)
    ensures Clear(Flag(n, APSR_N), 0x8000_0000)
    ensures Clear(Flag(n, APSR_N) + Flag(z, APSR_Z), 0x4000_0000)
    ensures Flag(n, APSR_N) + Flag(z, APSR_Z) < 0x1_0000_0000
  {
  }

  /** Gathering N and Z in esi. */
  lemma RunGatherNz(h: Host, k: Code, s: State) returns (s': State)
    requires s.status == Running && s.x.rdx < 256
    ensures Exec(h, SignBit(ZeroBit(k)), s) == Exec(h, k, s')
    ensures FlagWork(s, s')
    ensures s'.x.rsi == Flag(s.x.rdx >= 128, APSR_N) + Flag(s.x.rdx / 64 % 2 == 1, APSR_Z)
  {
    hide Exec, SignBit, ZeroBit, Flag, Clear;
    FlagSums(s.x.rdx >= 128, false);
    var s1 := RunSignBit(h, ZeroBit(k), s);
    s' := RunZeroBit(h, k, s1);
  }

  /** Adding C and V below flags already gathered. */
  lemma RunGatherCv(h: Host, isSub: bool, k: Code, s: State) returns (s': State)
    requires s.status == Running && s.x.rdx < 256 && GetByte(s.x, CL) < 2
    requires s.x.rsi < 0x1_0000_0000 && Clear(s.x.rsi, 0x4000_0000)
    ensures Exec(h, CarryBit(isSub, OverflowBit(k)), s) == Exec(h, k, s')
    ensures FlagWork(s, s')
    ensures s'.x.rsi == s.x.rsi + Flag(Odd(s.x.rdx) != isSub, APSR_C) + Flag(GetByte(s.x, CL) == 1, APSR_V)
  {
    hide Exec, CarryBit, OverflowBit, GetByte, Flag, Clear, Odd;
    var c := Odd(s.x.rdx) != isSub;
    CarryRoom(s.x.rsi, c);
    var s1 := RunCarryBit(h, isSub, OverflowBit(k), s);
    SameByte(s.x, s1.x);
    s' := RunOverflowBit(h, k, s1);
  }

  lemma CarryRoom(e: u32, c: bool)
    requires Clear(e, 0x4000_0000)
    ensures e + Flag(c, APSR_C) < 0x1_0000_0000 && Clear(e + Flag(c, APSR_C), 0x2000_0000)
  {
  }

  /** The APSR after the full update: N, Z and V are the host's sign, zero and overflow
      flags, C its carry, inverted after a subtraction. */
  lemma RunNzcv(h: Host, isSub: bool, k: Code, s: State) returns (s': State)
    requires Ready(h, s) && s.x.rax < 0x1_0000_0000
    ensures Exec(h, FlagsNzcvCode(isSub, k), s) == Exec(h, k, s')
    ensures ApsrWork(s, s', Nzcv(s.guest.apsr, s.fl.sf, s.fl.zf, s.fl.cf != isSub, s.fl.of))
  {
    hide Exec, SignBit, ZeroBit, CarryBit, OverflowBit, MergeApsr, GetByte, AhFlags, Nzcv, Flag, Clear, Odd, HostOk,
         Or32, And32;
    FlagSums(s.fl.sf, s.fl.zf);
    var k2 := MergeApsr(0x0FFF_FFFF, k);
    var k1 := CarryBit(isSub, OverflowBit(k2));
    var s1 := RunReadAllFlags(h, SignBit(ZeroBit(k1)), s);
    var n :| s1.x.rdx == AhFlags(n, s.fl);
    AhBits(n, s.fl);
    var s2 := RunGatherNz(h, k1, s1);
    SameByte(s1.x, s2.x);
    var s3 := RunGatherCv(h, isSub, k2, s2);
    NzcvSum(s.guest.apsr, s.fl.sf, s.fl.zf, s.fl.cf != isSub, s.fl.of);
    s' := RunMerge(h, 0x0FFF_FFFF, k, s3);
  }

  lemma RunNz(h: Host, k: Code, s: State) returns (s': State)
    requires Ready(h, s) && s.x.rax < 0x1_0000_0000
    ensures Exec(h, FlagsNzCode(k), s) == Exec(h, k, s')
    ensures ApsrWork(s, s', Nz(s.guest.apsr, s.fl.sf, s.fl.zf))
  {
    hide Exec, SignBit, ZeroBit, MergeApsr, GetByte, AhFlags, Nz, Flag, HostOk, Or32, And32;
    var k2 := MergeApsr(0x3FFF_FFFF, k);
    var s1 := RunReadFlags(h, SignBit(ZeroBit(k2)), s);
    var n :| s1.x.rdx == AhFlags(n, s.fl);
    AhBits(n, s.fl);
    var s2 := RunGatherNz(h, k2, s1);
    NzSum(s.guest.apsr, s.fl.sf, s.fl.zf);
    s' := RunMerge(h, 0x3FFF_FFFF, k, s2);
  }

  /** test eax, eax, then the two-flag update. */
  lemma RunTestNz(h: Host, k: Code, s: State) returns (s': State)
    requires Ready(h, s) && s.x.rax < 0x1_0000_0000
    ensures Exec(h, TestNz(k), s) == Exec(h, k, s')
    ensures ApsrWork(s, s', Nz(s.guest.apsr, s.x.rax >= 0x8000_0000, s.x.rax == 0))
  {
    hide Exec, FlagsNzCode, Nz, HostOk, And32, Or32, Xor32, Add32, Sub32, Meaning, NoFlags;
    AndSelf(s.x.rax);
    JoinsMean();
    var s1 := DoAlu(h, Plain(TestEaxEax), TEST, RAX, RAX, FlagsNzCode(k), s);
    s' := RunNz(h, k, s1);
  }

  lemma AndSelf(v: u32)
    ensures And32(v, v) == v
  {
    Pow32();
    AndSame(v, 32);
  }
}
