/** The instructions the code generator emits, one constructor per emitting helper,
    with the bytes the helper appends and the x86 instruction they encode. */
module Asm {
  import opened Words
  import opened Cpu
  import opened X86
  import Bus

  /** Instructions with fixed bytes. */
  datatype PlainOp =
    | OpAddEc | OpSubEc | OpAndEc | OpOrEc | OpXorEc | AddR11R10 | TestEaxEax | ClearFail
    | OrEsiR10d | OrR10dEsi | MovRcxR14 | MovEdxEax | MovEsiEdx | MovR10dEdx | MovR11dEax | MovEaxR11d
    | MovR15Rcx | MovR14Rdx | CallRax | LahfAh | SetoCl | MovzxEdxAh | MovzxR10dCl | MovAhAl
    | XorAlAh | XorAlAl | TestAl | TestBl | OrBl1 | MovAl1 | PushR15 | PushR14
    | PushRbx | PushRsi | PopR15 | PopR14 | PopRbx | PopRsi | LeaR9Rsp0 | MovEcxRsp0
    | RetIns

  /** A 32-bit displacement off r15 (the guest register file) or r11 (guest memory). */
  datatype DispOp = LdEax | LdEcx | LdR9d | LdR10d | StEax | StEcx | StR10d | StR11Ecx | StR11Eax | LdR11Ecx

  /** A 32-bit immediate. */
  datatype ImmOp =
    | MovEax | MovR8d | MovR9d | AddEax | SubEax | AndEax | OrEax | XorEax
    | CmpEax | AddEdx | AndEcx | AndR9d | AndR10d | XorR10d | SubR11

  /** An 8-bit immediate. */
  datatype ByteOp =
    | ShrEsi | ShlEsi | ShrR10d | ShlR10d | ShrAl | ShrAh | SubRsp | AddRsp | TestAlImm | AndAlImm | CmpAlImm

  datatype Asm =
    | Plain(p: PlainOp)
    | Disp(d: DispOp, v: u32)
    | Imm32(o: ImmOp, v: u32)
    | Imm8(b: ByteOp, n: u8)
    | MovRaxQ(q: u64)
    | MovR10Q(q: u64)
    | LdAlApsrByte3
    | SetHalted
    | StPc(v: u32)
    | JmpShort(n: u8)
    | JmpNear(v: u32)
    | Jcc8(c: Cc, n: u8)
    | JccNear(c: Cc, v: u32)

  function W32(v: u32): seq<u8> { LeBytes(v, 4) }

  function W64(q: u64): seq<u8> { LeBytes(q, 8) }

  function RegDisp(r: Reg): u32 { R_OFF + 4 * r }

  function CcCode(c: Cc): u8 {
    match c case CcO => 0 case CcB => 2 case CcAE => 3 case CcE => 4 case CcNE => 5 case CcA => 7
  }

  /* The bytes each helper appends. */

  function PlainBytes(p: PlainOp): seq<u8> {
    match p
    case OpAddEc => [0x01, 0xC8]
    case OpSubEc => [0x29, 0xC8]
    case OpAndEc => [0x21, 0xC8]
    case OpOrEc => [0x09, 0xC8]
    case OpXorEc => [0x31, 0xC8]
    case AddR11R10 => [0x4D, 0x01, 0xD3]
    case TestEaxEax => [0x85, 0xC0]
    case ClearFail => [0x31, 0xDB]
    case OrEsiR10d => [0x44, 0x09, 0xD6]
    case OrR10dEsi => [0x41, 0x09, 0xF2]
    case MovRcxR14 => [0x4C, 0x89, 0xF1]
    case MovEdxEax => [0x89, 0xC2]
    case MovEsiEdx => [0x89, 0xD6]
    case MovR10dEdx => [0x41, 0x89, 0xD2]
    case MovR11dEax => [0x41, 0x89, 0xC3]
    case MovEaxR11d => [0x44, 0x89, 0xD8]
    case MovR15Rcx => [0x49, 0x89, 0xCF]
    case MovR14Rdx => [0x49, 0x89, 0xD6]
    case CallRax => [0xFF, 0xD0]
    case LahfAh => [0x9F]
    case SetoCl => [0x0F, 0x90, 0xC1]
    case MovzxEdxAh => [0x0F, 0xB6, 0xD4]
    case MovzxR10dCl => [0x44, 0x0F, 0xB6, 0xD1]
    case MovAhAl => [0x88, 0xC4]
    case XorAlAh => [0x30, 0xE0]
    case XorAlAl => [0x30, 0xC0]
    case TestAl => [0x84, 0xC0]
    case TestBl => [0x84, 0xDB]
    case OrBl1 => [0x80, 0xCB, 0x01]
    case MovAl1 => [0xB0, 0x01]
    case PushR15 => [0x41, 0x57]
    case PushR14 => [0x41, 0x56]
    case PushRbx => [0x53]
    case PushRsi => [0x56]
    case PopR15 => [0x41, 0x5F]
    case PopR14 => [0x41, 0x5E]
    case PopRbx => [0x5B]
    case PopRsi => [0x5E]
    case LeaR9Rsp0 => [0x4C, 0x8D, 0x0C, 0x24]
    case MovEcxRsp0 => [0x8B, 0x0C, 0x24]
    case RetIns => [0xC3]
  }

  function DispHead(d: DispOp): (s: seq<u8>)
    ensures |s| == 3
  {
    match d
    case LdEax => [0x41, 0x8B, 0x87]
    case LdEcx => [0x41, 0x8B, 0x8F]
    case LdR9d => [0x45, 0x8B, 0x8F]
    case LdR10d => [0x45, 0x8B, 0x97]
    case StEax => [0x41, 0x89, 0x87]
    case StEcx => [0x41, 0x89, 0x8F]
    case StR10d => [0x45, 0x89, 0x97]
    case StR11Ecx => [0x41, 0x89, 0x8B]
    case StR11Eax => [0x41, 0x89, 0x83]
    case LdR11Ecx => [0x41, 0x8B, 0x8B]
  }

  function ImmHead(o: ImmOp): seq<u8> {
    match o
    case MovEax => [0xB8]
    case MovR8d => [0x41, 0xB8]
    case MovR9d => [0x41, 0xB9]
    case AddEax => [0x05]
    case SubEax => [0x2D]
    case AndEax => [0x25]
    case OrEax => [0x0D]
    case XorEax => [0x35]
    case CmpEax => [0x3D]
    case AddEdx => [0x81, 0xC2]
    case AndEcx => [0x81, 0xE1]
    case AndR9d => [0x41, 0x81, 0xE1]
    case AndR10d => [0x41, 0x81, 0xE2]
    case XorR10d => [0x41, 0x81, 0xF2]
    case SubR11 => [0x49, 0x81, 0xEB]
  }

  function ByteHead(b: ByteOp): seq<u8> {
    match b
    case ShrEsi => [0xC1, 0xEE]
    case ShlEsi => [0xC1, 0xE6]
    case ShrR10d => [0x41, 0xC1, 0xEA]
    case ShlR10d => [0x41, 0xC1, 0xE2]
    case ShrAl => [0xC0, 0xE8]
    case ShrAh => [0xC0, 0xEC]
    case SubRsp => [0x48, 0x83, 0xEC]
    case AddRsp => [0x48, 0x83, 0xC4]
    case TestAlImm => [0xA8]
    case AndAlImm => [0x24]
    case CmpAlImm => [0x3C]
  }

  function Bytes(a: Asm): seq<u8> {
    match a
    case Plain(p) => PlainBytes(p)
    case Disp(d, v) => DispHead(d) + W32(v)
    case Imm32(o, v) => ImmHead(o) + W32(v)
    case Imm8(b, n) => ByteHead(b) + [n]
    case MovRaxQ(q) => [0x48, 0xB8] + W64(q)
    case MovR10Q(q) => [0x49, 0xBA] + W64(q)
    case LdAlApsrByte3 => [0x41, 0x8A, 0x87] + W32(APSR_OFF + 3)
    case SetHalted => [0x41, 0xC6, 0x87] + W32(HALT_OFF) + [0x01]
    case StPc(v) => [0x41, 0xC7, 0x87] + W32(PC_OFF) + W32(v)
    case JmpShort(n) => [0xEB, n]
    case JmpNear(v) => [0xE9] + W32(v)
    case Jcc8(c, n) => [0x70 + CcCode(c), n]
    case JccNear(c, v) => [0x0F, 0x80 + CcCode(c)] + W32(v)
  }

  /* What those bytes are meant to do. */

  function PlainMeaning(p: PlainOp): Ins {
    match p
    case OpAddEc => AluRR(ADD, false, RAX, RCX)
    case OpSubEc => AluRR(SUB, false, RAX, RCX)
    case OpAndEc => AluRR(AND, false, RAX, RCX)
    case OpOrEc => AluRR(OR, false, RAX, RCX)
    case OpXorEc => AluRR(XOR, false, RAX, RCX)
    case AddR11R10 => AluRR(ADD, true, R11, R10)
    case TestEaxEax => AluRR(TEST, false, RAX, RAX)
    case ClearFail => AluRR(XOR, false, RBX, RBX)
    case OrEsiR10d => AluRR(OR, false, RSI, R10)
    case OrR10dEsi => AluRR(OR, false, R10, RSI)
    case MovRcxR14 => MovRR(true, RCX, R14)
    case MovEdxEax => MovRR(false, RDX, RAX)
    case MovEsiEdx => MovRR(false, RSI, RDX)
    case MovR10dEdx => MovRR(false, R10, RDX)
    case MovR11dEax => MovRR(false, R11, RAX)
    case MovEaxR11d => MovRR(false, RAX, R11)
    case MovR15Rcx => MovRR(true, R15, RCX)
    case MovR14Rdx => MovRR(true, R14, RDX)
    case CallRax => Call(RAX)
    case LahfAh => Ins.Lahf
    case SetoCl => Set(CcO, CL)
    case MovzxEdxAh => Movzx(RDX, AH)
    case MovzxR10dCl => Movzx(R10, CL)
    case MovAhAl => MovR8(AH, AL)
    case XorAlAh => Alu8RR(XOR, AL, AH)
    case XorAlAl => Alu8RR(XOR, AL, AL)
    case TestAl => Alu8RR(TEST, AL, AL)
    case TestBl => Alu8RR(TEST, BL, BL)
    case OrBl1 => Alu8RI(OR, BL, 1)
    case MovAl1 => MovR8I(AL, 1)
    case PushR15 => Push(R15)
    case PushR14 => Push(R14)
    case PushRbx => Push(RBX)
    case PushRsi => Push(RSI)
    case PopR15 => Pop(R15)
    case PopR14 => Pop(R14)
    case PopRbx => Pop(RBX)
    case PopRsi => Pop(RSI)
    case LeaR9Rsp0 => Lea(R9, RSP)
    case MovEcxRsp0 => LoadRM(RCX, RSP, 0)
    case RetIns => Ins.Ret
  }

  function DispMeaning(d: DispOp, v: u32): Ins {
    match d
    case LdEax => LoadRM(RAX, R15, v)
    case LdEcx => LoadRM(RCX, R15, v)
    case LdR9d => LoadRM(R9, R15, v)
    case LdR10d => LoadRM(R10, R15, v)
    case StEax => StoreMR(R15, v, RAX)
    case StEcx => StoreMR(R15, v, RCX)
    case StR10d => StoreMR(R15, v, R10)
    case StR11Ecx => StoreMR(R11, v, RCX)
    case StR11Eax => StoreMR(R11, v, RAX)
    case LdR11Ecx => LoadRM(RCX, R11, v)
  }

  function ImmMeaning(o: ImmOp, v: u32): Ins {
    match o
    case MovEax => MovRI(RAX, v)
    case MovR8d => MovRI(R8, v)
    case MovR9d => MovRI(R9, v)
    case AddEax => AluRI(ADD, false, RAX, v)
    case SubEax => AluRI(SUB, false, RAX, v)
    case AndEax => AluRI(AND, false, RAX, v)
    case OrEax => AluRI(OR, false, RAX, v)
    case XorEax => AluRI(XOR, false, RAX, v)
    case CmpEax => AluRI(CMP, false, RAX, v)
    case AddEdx => AluRI(ADD, false, RDX, v)
    case AndEcx => AluRI(AND, false, RCX, v)
    case AndR9d => AluRI(AND, false, R9, v)
    case AndR10d => AluRI(AND, false, R10, v)
    case XorR10d => AluRI(XOR, false, R10, v)
    case SubR11 => AluRI(SUB, true, R11, v)
  }

  function ByteMeaning(b: ByteOp, n: u8): Ins {
    match b
    case ShrEsi => Shr(RSI, n)
    case ShlEsi => Shl(RSI, n)
    case ShrR10d => Shr(R10, n)
    case ShlR10d => Shl(R10, n)
    case ShrAl => Shr8(AL, n)
    case ShrAh => Shr8(AH, n)
    case SubRsp => AluRI(SUB, true, RSP, n)
    case AddRsp => AluRI(ADD, true, RSP, n)
    case TestAlImm => Alu8RI(TEST, AL, n)
    case AndAlImm => Alu8RI(AND, AL, n)
    case CmpAlImm => Alu8RI(CMP, AL, n)
  }

  function Meaning(a: Asm): Ins {
    match a
    case Plain(p) => PlainMeaning(p)
    case Disp(d, v) => DispMeaning(d, v)
    case Imm32(o, v) => ImmMeaning(o, v)
    case Imm8(b, n) => ByteMeaning(b, n)
    case MovRaxQ(q) => MovRI64(RAX, q)
    case MovR10Q(q) => MovRI64(R10, q)
    case LdAlApsrByte3 => LoadByteRM(AL, R15, APSR_OFF + 3)
    case SetHalted => StoreByteMI(R15, HALT_OFF, 1)
    case StPc(v) => StoreMI(R15, PC_OFF, v)
    case JmpShort(n) => Jmp(n)
    case JmpNear(v) => Jmp(v)
    case Jcc8(c, n) => Jcc(c, n)
    case JccNear(c, v) => Jcc(c, v)
  }

  /** Immediates the encodings can carry: shift counts below the operand width, and
      displacements that are not sign-extended to negative ones. */
  predicate Encodable(a: Asm) {
    match a
    case Imm8(b, n) => n < (if b.ShrAl? || b.ShrAh? then 8 else if b.SubRsp? || b.AddRsp? then 0x80
                            else if b.TestAlImm? || b.AndAlImm? || b.CmpAlImm? then 0x100 else 32)
    case JmpShort(n) => n < 0x80
    case Jcc8(_, n) => n < 0x80
    case JmpNear(v) => v < 0x8000_0000
    case JccNear(_, v) => v < 0x8000_0000
    case _ => true
  }

  /* Decoding what was emitted, by shape of encoding. */

  /** The byte stream starts with these bytes. */
  predicate Starts(code: seq<u8>, bytes: seq<u8>) {
    |bytes| <= |code| && code[..|bytes|] == bytes
  }

  lemma At(code: seq<u8>, bytes: seq<u8>)
    requires Starts(code, bytes)
    ensures forall j :: 0 <= j < |bytes| ==> code[j] == bytes[j]
  {
    forall j | 0 <= j < |bytes|
      ensures code[j] == bytes[j]
    {
      assert code[..|bytes|][j] == code[j];
    }
  }

  /** An immediate stored little-endian at position k reads back. */
  lemma ImmAt(code: seq<u8>, head: seq<u8>, v: u32, tail: seq<u8>)
    requires Starts(code, head + W32(v) + tail)
    ensures |head| + 4 <= |code| && Imm(code, |head|, 4) == v
    ensures Starts(code, head)
  {
    var k := |head|;
    var all := head + W32(v) + tail;
    At(code, all);
    forall j | 0 <= j < 4
      ensures code[k + j] == W32(v)[j]
    {
      assert all[k + j] == (head + W32(v))[k + j] == W32(v)[j];
    }
    assert code[k..k + 4] == W32(v);
    forall j | 0 <= j < k
      ensures code[j] == head[j]
    {
      assert all[j] == (head + W32(v))[j] == head[j];
    }
    assert code[..k] == head;
    assert Pow256(4) == 0x1_0000_0000;
    LeRoundTrip(v, 4);
    assert code[k..k + 4][0..0 + 4] == code[k..k + 4];
  }

  /** The prefix byte, if there is one, and where the opcode is. */
  predicate Opcode(code: seq<u8>, k: nat, rex: Rex) {
    if k == 0 then rex == NO_REX && |code| > 0 && !(0x40 <= code[0] < 0x50)
    else k == 1 && |code| > 0 && 0x40 <= code[0] < 0x50 && rex == RexOf(code[0])
  }

  function RegForm(b: u8, rex: Rex): ModRm {
    ModRm(b / 8 % 8, RegOf(if rex.r then b / 8 % 8 + 8 else b / 8 % 8),
      Operand.Reg(RegOf(if rex.b then b % 8 + 8 else b % 8)), 1)
  }

  function MemForm(b: u8, rex: Rex, disp: u32): ModRm {
    RegForm(b, rex).(rm := Mem(RegOf(if rex.b then b % 8 + 8 else b % 8), disp), n := 5)
  }

  lemma ShapeReg(code: seq<u8>, k: nat, rex: Rex, op: u8, b: u8)
    requires Opcode(code, k, rex) && k + 2 <= |code| && code[k] == op && code[k + 1] == b
    requires HasRm(op) && b / 64 == 3
    ensures Decode(code) == With(DecodeRm(op, RegForm(b, rex), rex), k + 2)
  {
    assert DecodeModRm(code, k + 1, rex) == Some(RegForm(b, rex));
  }

  lemma ShapeMem(code: seq<u8>, k: nat, rex: Rex, op: u8, b: u8, disp: u32)
    requires Opcode(code, k, rex) && k + 6 <= |code| && code[k] == op && code[k + 1] == b
    requires HasRm(op) && b / 64 == 2 && b % 8 != 4 && Imm(code, k + 2, 4) == disp
    ensures Decode(code) == With(DecodeRm(op, MemForm(b, rex, disp), rex), k + 6)
  {
    assert DecodeModRm(code, k + 1, rex) == Some(MemForm(b, rex, disp));
  }

  lemma ShapeRsp(code: seq<u8>, k: nat, rex: Rex, op: u8, b: u8)
    requires Opcode(code, k, rex) && k + 3 <= |code| && code[k] == op && code[k + 1] == b && code[k + 2] == 0x24
    requires HasRm(op) && b / 64 == 0 && b % 8 == 4
    ensures Decode(code) == With(DecodeRm(op, RegForm(b, rex).(rm := Mem(RSP, 0), n := 2), rex), k + 3)
  {
    assert DecodeModRm(code, k + 1, rex) == Some(RegForm(b, rex).(rm := Mem(RSP, 0), n := 2));
  }

  lemma ShapeRegImm32(code: seq<u8>, k: nat, rex: Rex, b: u8, v: u32)
    requires Opcode(code, k, rex) && k + 6 <= |code| && code[k] == 0x81 && code[k + 1] == b
    requires b / 64 == 3 && Imm(code, k + 2, 4) == v
    ensures Decode(code) == With(DecodeRmImm32(0x81, RegForm(b, rex), rex, v), k + 6)
  {
    assert DecodeModRm(code, k + 1, rex) == Some(RegForm(b, rex));
  }

  lemma ShapeRegImm8(code: seq<u8>, k: nat, rex: Rex, op: u8, b: u8, v: u8)
    requires Opcode(code, k, rex) && k + 3 <= |code| && code[k] == op && code[k + 1] == b && code[k + 2] == v
    requires HasRmImm8(op) && b / 64 == 3
    ensures Decode(code) == With(DecodeRmImm8(op, b, RegForm(b, rex), rex, v), k + 3)
  {
    assert DecodeModRm(code, k + 1, rex) == Some(RegForm(b, rex));
  }

  lemma ShapeRm8(code: seq<u8>, op: u8, b: u8)
    requires |code| >= 2 && code[0] == op && code[1] == b && HasRm8(op)
    ensures Decode(code) == With(DecodeRm8(op, b, NO_REX), 2)
  {
  }

  lemma ShapeShort(code: seq<u8>, k: nat, rex: Rex, op: u8)
    requires Opcode(code, k, rex) && k < |code| && code[k] == op
    requires op != 0x0F && op != 0x8A && !HasRm8(op) && !HasRm(op) && !HasRmImm32(op) && !HasRmImm8(op)
    ensures Decode(code) == DecodeShort(code, k, rex)
  {
  }

  lemma ShapeEaxImm(code: seq<u8>, op: u8, v: u32, a: Alu)
    requires Starts(code, [op] + W32(v)) && op < 0x40 && op % 8 == 5 && op != 0x25 - 1 && AluOf(op / 8) == Some(a)
    ensures Decode(code) == Some((AluRI(a, false, RAX, v), 5))
  {
    hide Decode, DecodeAt, DecodeModRm, Decode0F;
    assert [op] + W32(v) == [op] + W32(v) + [];
    ImmAt(code, [op], v, []);
    At(code, [op]);
    ShapeShort(code, 0, NO_REX, op);
  }

  lemma EmittedImm(code: seq<u8>, head: seq<u8>, v: u32)
    requires Starts(code, head + W32(v))
    ensures |head| + 4 <= |code| && Imm(code, |head|, 4) == v && forall j :: 0 <= j < |head| ==> code[j] == head[j]
  {
    assert head + W32(v) == head + W32(v) + [];
    ImmAt(code, head, v, []);
    At(code, head);
  }

  lemma EmittedMem(code: seq<u8>, head: seq<u8>, rex: Rex, disp: u32)
    requires Starts(code, head + W32(disp)) && |head| == 3
    requires 0x40 <= head[0] < 0x50 && rex == RexOf(head[0]) && HasRm(head[1]) && head[2] / 64 == 2 && head[2] % 8 != 4
    ensures Decode(code) == With(DecodeRm(head[1], MemForm(head[2], rex, disp), rex), 7)
  {
    hide Decode, DecodeAt, DecodeModRm, Decode0F;
    EmittedImm(code, head, disp);
    ShapeMem(code, 1, rex, head[1], head[2], disp);
  }

  lemma EmittedRegImm32(code: seq<u8>, head: seq<u8>, k: nat, rex: Rex, v: u32)
    requires Starts(code, head + W32(v)) && k + 2 == |head|
    requires head[k] == 0x81 && head[k + 1] / 64 == 3
    requires Opcode(head, k, rex)
    ensures Decode(code) == With(DecodeRmImm32(0x81, RegForm(head[k + 1], rex), rex, v), k + 6)
  {
    hide Decode, DecodeAt, DecodeModRm, Decode0F;
    EmittedImm(code, head, v);
    ShapeRegImm32(code, k, rex, head[k + 1], v);
  }

  lemma Shape0F(code: seq<u8>, k: nat, rex: Rex)
    requires Opcode(code, k, rex) && k + 1 < |code| && code[k] == 0x0F
    ensures Decode(code) == Decode0F(code, k + 1, rex)
  {
  }

  lemma DecodePlain1(p: PlainOp, code: seq<u8>)
    requires Starts(code, PlainBytes(p))
    requires p.OpAddEc? || p.OpSubEc? || p.OpAndEc? || p.OpOrEc? || p.OpXorEc?
    ensures Decode(code) == Some((PlainMeaning(p), |PlainBytes(p)|))
  {
    hide Decode, DecodeAt, DecodeModRm, DecodeShort, Decode0F, Imm;
    At(code, PlainBytes(p));
    match p {
      case OpAddEc => ShapeReg(code, 0, NO_REX, 0x01, 0xC8);
      case OpSubEc => ShapeReg(code, 0, NO_REX, 0x29, 0xC8);
      case OpAndEc => ShapeReg(code, 0, NO_REX, 0x21, 0xC8);
      case OpOrEc => ShapeReg(code, 0, NO_REX, 0x09, 0xC8);
      case OpXorEc => ShapeReg(code, 0, NO_REX, 0x31, 0xC8);
    }
  }

  lemma DecodePlain2(p: PlainOp, code: seq<u8>)
    requires Starts(code, PlainBytes(p))
    requires p.AddR11R10? || p.TestEaxEax? || p.ClearFail? || p.OrEsiR10d? || p.OrR10dEsi?
    ensures Decode(code) == Some((PlainMeaning(p), |PlainBytes(p)|))
  {
    hide Decode, DecodeAt, DecodeModRm, DecodeShort, Decode0F, Imm;
    At(code, PlainBytes(p));
    match p {
      case AddR11R10 => ShapeReg(code, 1, Rex(true, true, true, true), 0x01, 0xD3);
      case TestEaxEax => ShapeReg(code, 0, NO_REX, 0x85, 0xC0);
      case ClearFail => ShapeReg(code, 0, NO_REX, 0x31, 0xDB);
      case OrEsiR10d => ShapeReg(code, 1, Rex(true, false, true, false), 0x09, 0xD6);
      case OrR10dEsi => ShapeReg(code, 1, Rex(true, false, false, true), 0x09, 0xF2);
    }
  }

  lemma DecodePlain3(p: PlainOp, code: seq<u8>)
    requires Starts(code, PlainBytes(p))
    requires p.MovRcxR14? || p.MovEdxEax? || p.MovEsiEdx? || p.MovR10dEdx? || p.MovR11dEax?
    ensures Decode(code) == Some((PlainMeaning(p), |PlainBytes(p)|))
  {
    hide Decode, DecodeAt, DecodeModRm, DecodeShort, Decode0F, Imm;
    At(code, PlainBytes(p));
    match p {
      case MovRcxR14 => ShapeReg(code, 1, Rex(true, true, true, false), 0x89, 0xF1);
      case MovEdxEax => ShapeReg(code, 0, NO_REX, 0x89, 0xC2);
      case MovEsiEdx => ShapeReg(code, 0, NO_REX, 0x89, 0xD6);
      case MovR10dEdx => ShapeReg(code, 1, Rex(true, false, false, true), 0x89, 0xD2);
      case MovR11dEax => ShapeReg(code, 1, Rex(true, false, false, true), 0x89, 0xC3);
    }
  }

  lemma DecodePlain4(p: PlainOp, code: seq<u8>)
    requires Starts(code, PlainBytes(p))
    requires p.MovEaxR11d? || p.MovR15Rcx? || p.MovR14Rdx? || p.CallRax?
    ensures Decode(code) == Some((PlainMeaning(p), |PlainBytes(p)|))
  {
    hide Decode, DecodeAt, DecodeModRm, DecodeShort, Decode0F, Imm;
    At(code, PlainBytes(p));
    match p {
      case MovEaxR11d => ShapeReg(code, 1, Rex(true, false, true, false), 0x89, 0xD8);
      case MovR15Rcx => ShapeReg(code, 1, Rex(true, true, false, true), 0x89, 0xCF);
      case MovR14Rdx => ShapeReg(code, 1, Rex(true, true, false, true), 0x89, 0xD6);
      case CallRax => ShapeReg(code, 0, NO_REX, 0xFF, 0xD0);
    }
  }

  lemma DecodePlain5(p: PlainOp, code: seq<u8>)
    requires Starts(code, PlainBytes(p))
    requires p.LahfAh? || p.MovAl1? || p.PushR15? || p.PushR14? || p.PushRbx?
    ensures Decode(code) == Some((PlainMeaning(p), |PlainBytes(p)|))
  {
    hide Decode, DecodeAt, DecodeModRm, Decode0F, Imm;
    At(code, PlainBytes(p));
    match p {
      case LahfAh => ShapeShort(code, 0, NO_REX, 0x9F);
      case MovAl1 => ShapeShort(code, 0, NO_REX, 0xB0);
      case PushR15 => ShapeShort(code, 1, Rex(true, false, false, true), 0x57);
      case PushR14 => ShapeShort(code, 1, Rex(true, false, false, true), 0x56);
      case PushRbx => ShapeShort(code, 0, NO_REX, 0x53);
    }
  }

  lemma DecodePlain6(p: PlainOp, code: seq<u8>)
    requires Starts(code, PlainBytes(p))
    requires p.PushRsi? || p.PopR15? || p.PopR14? || p.PopRbx? || p.PopRsi?
    ensures Decode(code) == Some((PlainMeaning(p), |PlainBytes(p)|))
  {
    hide Decode, DecodeAt, DecodeModRm, Decode0F, Imm;
    At(code, PlainBytes(p));
    match p {
      case PushRsi => ShapeShort(code, 0, NO_REX, 0x56);
      case PopR15 => ShapeShort(code, 1, Rex(true, false, false, true), 0x5F);
      case PopR14 => ShapeShort(code, 1, Rex(true, false, false, true), 0x5E);
      case PopRbx => ShapeShort(code, 0, NO_REX, 0x5B);
      case PopRsi => ShapeShort(code, 0, NO_REX, 0x5E);
    }
  }

  lemma DecodePlain7(p: PlainOp, code: seq<u8>)
    requires Starts(code, PlainBytes(p))
    requires p.RetIns?
    ensures Decode(code) == Some((PlainMeaning(p), |PlainBytes(p)|))
  {
    hide Decode, DecodeAt, DecodeModRm, Decode0F, Imm;
    At(code, PlainBytes(p));
    match p {
      case RetIns => ShapeShort(code, 0, NO_REX, 0xC3);
    }
  }

  lemma DecodePlain8(p: PlainOp, code: seq<u8>)
    requires Starts(code, PlainBytes(p))
    requires p.SetoCl? || p.MovzxEdxAh? || p.MovzxR10dCl?
    ensures Decode(code) == Some((PlainMeaning(p), |PlainBytes(p)|))
  {
    hide Decode, DecodeAt, DecodeModRm, DecodeShort, Imm;
    At(code, PlainBytes(p));
    match p {
      case SetoCl => Shape0F(code, 0, NO_REX);
      case MovzxEdxAh => Shape0F(code, 0, NO_REX);
      case MovzxR10dCl => Shape0F(code, 1, Rex(true, false, true, false));
    }
  }

  lemma DecodePlain9(p: PlainOp, code: seq<u8>)
    requires Starts(code, PlainBytes(p))
    requires p.MovAhAl? || p.XorAlAh? || p.XorAlAl? || p.TestAl? || p.TestBl?
    ensures Decode(code) == Some((PlainMeaning(p), |PlainBytes(p)|))
  {
    hide Decode, DecodeAt, DecodeModRm, DecodeShort, Decode0F, Imm;
    At(code, PlainBytes(p));
    match p {
      case MovAhAl => ShapeRm8(code, 0x88, 0xC4);
      case XorAlAh => ShapeRm8(code, 0x30, 0xE0);
      case XorAlAl => ShapeRm8(code, 0x30, 0xC0);
      case TestAl => ShapeRm8(code, 0x84, 0xC0);
      case TestBl => ShapeRm8(code, 0x84, 0xDB);
    }
  }

  lemma DecodePlain10(p: PlainOp, code: seq<u8>)
    requires Starts(code, PlainBytes(p))
    requires p.OrBl1?
    ensures Decode(code) == Some((PlainMeaning(p), |PlainBytes(p)|))
  {
    hide Decode, DecodeAt, DecodeModRm, DecodeShort, Decode0F, Imm;
    At(code, PlainBytes(p));
    match p {
      case OrBl1 => ShapeRegImm8(code, 0, NO_REX, 0x80, 0xCB, 1);
    }
  }

  lemma DecodePlain11(p: PlainOp, code: seq<u8>)
    requires Starts(code, PlainBytes(p))
    requires p.LeaR9Rsp0? || p.MovEcxRsp0?
    ensures Decode(code) == Some((PlainMeaning(p), |PlainBytes(p)|))
  {
    hide Decode, DecodeAt, DecodeModRm, DecodeShort, Decode0F, Imm;
    At(code, PlainBytes(p));
    match p {
      case LeaR9Rsp0 => ShapeRsp(code, 1, Rex(true, true, true, false), 0x8D, 0x0C);
      case MovEcxRsp0 => ShapeRsp(code, 0, NO_REX, 0x8B, 0x0C);
    }
  }

  lemma DecodePlain(p: PlainOp, code: seq<u8>)
    requires Starts(code, PlainBytes(p))
    ensures Decode(code) == Some((PlainMeaning(p), |PlainBytes(p)|))
  {
    hide Decode, PlainBytes, PlainMeaning, Starts;
    match p {
      case OpAddEc | OpSubEc | OpAndEc | OpOrEc | OpXorEc => DecodePlain1(p, code);
      case AddR11R10 | TestEaxEax | ClearFail | OrEsiR10d | OrR10dEsi => DecodePlain2(p, code);
      case MovRcxR14 | MovEdxEax | MovEsiEdx | MovR10dEdx | MovR11dEax => DecodePlain3(p, code);
      case MovEaxR11d | MovR15Rcx | MovR14Rdx | CallRax => DecodePlain4(p, code);
      case LahfAh | MovAl1 | PushR15 | PushR14 | PushRbx => DecodePlain5(p, code);
      case PushRsi | PopR15 | PopR14 | PopRbx | PopRsi => DecodePlain6(p, code);
      case RetIns => DecodePlain7(p, code);
      case SetoCl | MovzxEdxAh | MovzxR10dCl => DecodePlain8(p, code);
      case MovAhAl | XorAlAh | XorAlAl | TestAl | TestBl => DecodePlain9(p, code);
      case OrBl1 => DecodePlain10(p, code);
      case LeaR9Rsp0 | MovEcxRsp0 => DecodePlain11(p, code);
    }
  }

  lemma DecodeDisp(d: DispOp, v: u32, code: seq<u8>)
    requires Starts(code, DispHead(d) + W32(v))
    ensures Decode(code) == Some((DispMeaning(d, v), 7))
  {
    hide Decode, DecodeAt, DecodeModRm, DecodeShort, Decode0F, Imm, Starts, W32;
    EmittedMem(code, DispHead(d), RexOf(DispHead(d)[0]), v);
  }

  lemma DecodeImm1(o: ImmOp, v: u32, code: seq<u8>)
    requires Starts(code, ImmHead(o) + W32(v))
    requires o.MovEax? || o.MovR8d? || o.MovR9d?
    ensures Decode(code) == Some((ImmMeaning(o, v), |ImmHead(o)| + 4))
  {
    hide Decode, DecodeAt, DecodeModRm, Decode0F;
    match o {
      case MovEax => EmittedImm(code, [0xB8], v); ShapeShort(code, 0, NO_REX, 0xB8);
      case MovR8d => EmittedImm(code, [0x41, 0xB8], v); ShapeShort(code, 1, Rex(true, false, false, true), 0xB8);
      case MovR9d => EmittedImm(code, [0x41, 0xB9], v); ShapeShort(code, 1, Rex(true, false, false, true), 0xB9);
    }
  }

  lemma DecodeImm2(o: ImmOp, v: u32, code: seq<u8>)
    requires Starts(code, ImmHead(o) + W32(v))
    requires o.AddEax? || o.SubEax? || o.AndEax?
    ensures Decode(code) == Some((ImmMeaning(o, v), |ImmHead(o)| + 4))
  {
    hide Decode, DecodeAt, DecodeModRm, Decode0F, DecodeShort, Imm;
    match o {
      case AddEax => ShapeEaxImm(code, 0x05, v, ADD);
      case SubEax => ShapeEaxImm(code, 0x2D, v, SUB);
      case AndEax => ShapeEaxImm(code, 0x25, v, AND);
    }
  }

  lemma DecodeImm3(o: ImmOp, v: u32, code: seq<u8>)
    requires Starts(code, ImmHead(o) + W32(v))
    requires o.OrEax? || o.XorEax? || o.CmpEax?
    ensures Decode(code) == Some((ImmMeaning(o, v), |ImmHead(o)| + 4))
  {
    hide Decode, DecodeAt, DecodeModRm, Decode0F, DecodeShort, Imm;
    match o {
      case OrEax => ShapeEaxImm(code, 0x0D, v, OR);
      case XorEax => ShapeEaxImm(code, 0x35, v, XOR);
      case CmpEax => ShapeEaxImm(code, 0x3D, v, CMP);
    }
  }

  lemma DecodeImm4(o: ImmOp, v: u32, code: seq<u8>)
    requires Starts(code, ImmHead(o) + W32(v))
    requires o.AddEdx? || o.AndEcx? || o.AndR9d?
    ensures Decode(code) == Some((ImmMeaning(o, v), |ImmHead(o)| + 4))
  {
    hide Decode, DecodeAt, DecodeModRm, Decode0F, DecodeShort, Imm;
    match o {
      case AddEdx => EmittedRegImm32(code, [0x81, 0xC2], 0, NO_REX, v);
      case AndEcx => EmittedRegImm32(code, [0x81, 0xE1], 0, NO_REX, v);
      case AndR9d => EmittedRegImm32(code, [0x41, 0x81, 0xE1], 1, Rex(true, false, false, true), v);
    }
  }

  lemma DecodeImm5(o: ImmOp, v: u32, code: seq<u8>)
    requires Starts(code, ImmHead(o) + W32(v))
    requires o.AndR10d? || o.XorR10d? || o.SubR11?
    ensures Decode(code) == Some((ImmMeaning(o, v), |ImmHead(o)| + 4))
  {
    hide Decode, DecodeAt, DecodeModRm, Decode0F, DecodeShort, Imm;
    match o {
      case AndR10d => EmittedRegImm32(code, [0x41, 0x81, 0xE2], 1, Rex(true, false, false, true), v);
      case XorR10d => EmittedRegImm32(code, [0x41, 0x81, 0xF2], 1, Rex(true, false, false, true), v);
      case SubR11 => EmittedRegImm32(code, [0x49, 0x81, 0xEB], 1, Rex(true, true, false, true), v);
    }
  }

  lemma DecodeImm(o: ImmOp, v: u32, code: seq<u8>)
    requires Starts(code, ImmHead(o) + W32(v))
    ensures Decode(code) == Some((ImmMeaning(o, v), |ImmHead(o)| + 4))
  {
    hide Decode, ImmHead, ImmMeaning, Starts, W32;
    match o {
      case MovEax | MovR8d | MovR9d => DecodeImm1(o, v, code);
      case AddEax | SubEax | AndEax => DecodeImm2(o, v, code);
      case OrEax | XorEax | CmpEax => DecodeImm3(o, v, code);
      case AddEdx | AndEcx | AndR9d => DecodeImm4(o, v, code);
      case AndR10d | XorR10d | SubR11 => DecodeImm5(o, v, code);
    }
  }

  lemma DecodeByte1(b: ByteOp, n: u8, code: seq<u8>)
    requires Starts(code, ByteHead(b) + [n]) && Encodable(Imm8(b, n))
    requires b.ShrEsi? || b.ShlEsi? || b.ShrR10d? || b.ShlR10d?
    ensures Decode(code) == Some((ByteMeaning(b, n), |ByteHead(b)| + 1))
  {
    hide Decode, DecodeAt, DecodeModRm, Decode0F, Imm, DecodeShort;
    At(code, ByteHead(b) + [n]);
    match b {
      case ShrEsi => ShapeRegImm8(code, 0, NO_REX, 0xC1, 0xEE, n);
      case ShlEsi => ShapeRegImm8(code, 0, NO_REX, 0xC1, 0xE6, n);
      case ShrR10d => ShapeRegImm8(code, 1, Rex(true, false, false, true), 0xC1, 0xEA, n);
      case ShlR10d => ShapeRegImm8(code, 1, Rex(true, false, false, true), 0xC1, 0xE2, n);
    }
  }

  lemma DecodeByte2(b: ByteOp, n: u8, code: seq<u8>)
    requires Starts(code, ByteHead(b) + [n]) && Encodable(Imm8(b, n))
    requires b.ShrAl? || b.ShrAh? || b.SubRsp? || b.AddRsp?
    ensures Decode(code) == Some((ByteMeaning(b, n), |ByteHead(b)| + 1))
  {
    hide Decode, DecodeAt, DecodeModRm, Decode0F, Imm, DecodeShort;
    At(code, ByteHead(b) + [n]);
    match b {
      case ShrAl => ShapeRegImm8(code, 0, NO_REX, 0xC0, 0xE8, n);
      case ShrAh => ShapeRegImm8(code, 0, NO_REX, 0xC0, 0xEC, n);
      case SubRsp => ShapeRegImm8(code, 1, Rex(true, true, false, false), 0x83, 0xEC, n);
      case AddRsp => ShapeRegImm8(code, 1, Rex(true, true, false, false), 0x83, 0xC4, n);
    }
  }

  lemma DecodeByte3(b: ByteOp, n: u8, code: seq<u8>)
    requires Starts(code, ByteHead(b) + [n]) && Encodable(Imm8(b, n))
    requires b.TestAlImm? || b.AndAlImm? || b.CmpAlImm?
    ensures Decode(code) == Some((ByteMeaning(b, n), |ByteHead(b)| + 1))
  {
    hide Decode, DecodeAt, DecodeModRm, Decode0F, Imm;
    At(code, ByteHead(b) + [n]);
    match b {
      case TestAlImm => ShapeShort(code, 0, NO_REX, 0xA8);
      case AndAlImm => ShapeShort(code, 0, NO_REX, 0x24);
      case CmpAlImm => ShapeShort(code, 0, NO_REX, 0x3C);
    }
  }

  lemma DecodeByte(b: ByteOp, n: u8, code: seq<u8>)
    requires Starts(code, ByteHead(b) + [n]) && Encodable(Imm8(b, n))
    ensures Decode(code) == Some((ByteMeaning(b, n), |ByteHead(b)| + 1))
  {
    hide Decode, ByteHead, ByteMeaning, Starts, Encodable;
    match b {
      case ShrEsi | ShlEsi | ShrR10d | ShlR10d => DecodeByte1(b, n, code);
      case ShrAl | ShrAh | SubRsp | AddRsp => DecodeByte2(b, n, code);
      case TestAlImm | AndAlImm | CmpAlImm => DecodeByte3(b, n, code);
    }
  }

  lemma DecodeLoadByte(code: seq<u8>)
    requires Starts(code, Bytes(LdAlApsrByte3))
    ensures Decode(code) == Some((Meaning(LdAlApsrByte3), 7))
  {
    var rex := Rex(true, false, false, true);
    EmittedImm(code, [0x41, 0x8A, 0x87], APSR_OFF + 3);
    assert Opcode(code, 1, rex);
    assert DecodeModRm(code, 2, rex) == Some(MemForm(0x87, rex, APSR_OFF + 3));
  }

  lemma DecodeStPc(v: u32, code: seq<u8>)
    requires Starts(code, Bytes(StPc(v)))
    ensures Decode(code) == Some((Meaning(StPc(v)), 11))
  {
    var head, rex := [0x41, 0xC7, 0x87], Rex(true, false, false, true);
    ImmAt(code, head, PC_OFF, W32(v));
    EmittedImm(code, head + W32(PC_OFF), v);
    At(code, head);
    assert Opcode(code, 1, rex);
    assert DecodeModRm(code, 2, rex) == Some(MemForm(0x87, rex, PC_OFF));
    assert DecodeRmImm32(0xC7, MemForm(0x87, rex, PC_OFF), rex, v) == Some(StoreMI(R15, PC_OFF, v));
  }

  lemma DecodeSetHalted(code: seq<u8>)
    requires Starts(code, Bytes(SetHalted))
    ensures Decode(code) == Some((Meaning(SetHalted), 8))
  {
    var head, rex := [0x41, 0xC6, 0x87], Rex(true, false, false, true);
    ImmAt(code, head, HALT_OFF, [0x01]);
    At(code, head);
    At(code, Bytes(SetHalted));
    assert code[7] == 0x01;
    assert Opcode(code, 1, rex);
    assert DecodeModRm(code, 2, rex) == Some(MemForm(0x87, rex, HALT_OFF));
    assert DecodeRmImm8(0xC6, 0x87, MemForm(0x87, rex, HALT_OFF), rex, 1) == Some(StoreByteMI(R15, HALT_OFF, 1));
  }

  lemma DecodeJcc8(c: Cc, n: u8, code: seq<u8>)
    requires Starts(code, Bytes(Jcc8(c, n))) && n < 0x80
    ensures Decode(code) == Some((Meaning(Jcc8(c, n)), 2))
  {
    At(code, Bytes(Jcc8(c, n)));
    ShapeShort(code, 0, NO_REX, 0x70 + CcCode(c));
    assert CcOf(CcCode(c)) == Some(c);
  }

  lemma DecodeJmpShort(n: u8, code: seq<u8>)
    requires Starts(code, Bytes(JmpShort(n))) && n < 0x80
    ensures Decode(code) == Some((Meaning(JmpShort(n)), 2))
  {
    At(code, Bytes(JmpShort(n)));
    ShapeShort(code, 0, NO_REX, 0xEB);
  }

  lemma DecodeJmpNear(v: u32, code: seq<u8>)
    requires Starts(code, Bytes(JmpNear(v))) && v < 0x8000_0000
    ensures Decode(code) == Some((Meaning(JmpNear(v)), 5))
  {
    EmittedImm(code, [0xE9], v);
    ShapeShort(code, 0, NO_REX, 0xE9);
  }

  lemma DecodeJccNear(c: Cc, v: u32, code: seq<u8>)
    requires Starts(code, Bytes(JccNear(c, v))) && v < 0x8000_0000
    ensures Decode(code) == Some((Meaning(JccNear(c, v)), 6))
  {
    EmittedImm(code, [0x0F, 0x80 + CcCode(c)], v);
    assert CcOf(CcCode(c)) == Some(c);
    Shape0F(code, 0, NO_REX);
  }

  /** A 64-bit immediate is its low word followed by its high word. */
  lemma W64Halves(q: u64)
    ensures W64(q) == W32(q % 0x1_0000_0000) + W32(q / 0x1_0000_0000)
  {
    assert Quotient(q, 4) == Quotient(q / 256, 3) == Quotient(q / 256 / 256, 2) == Quotient(q / 256 / 256 / 256, 1);
    assert q / 256 / 256 == q / 0x1_0000;
    assert q / 0x1_0000 / 256 == q / 0x100_0000;
    assert q / 0x100_0000 / 256 == q / 0x1_0000_0000;
    LeSplit(q, 4, 4, q / 0x1_0000_0000);
    assert Pow256(4) == 0x1_0000_0000;
    Bus.LowBytes(q, 4, q % 0x1_0000_0000);
  }

  lemma {:induction false} LeSplit(v: nat, j: nat, k: nat, d: nat)
    requires Quotient(v, j) == d
    ensures LeBytes(v, j + k) == LeBytes(v, j) + LeBytes(d, k)
  {
    if j != 0 {
      LeSplit(v / 256, j - 1, k, d);
      assert LeBytes(v, j + k) == [v % 256] + LeBytes(v / 256, (j - 1) + k);
    } else {
      assert LeBytes(v, 0) == [];
    }
  }

  function Quotient(v: nat, j: nat): nat {
    if j == 0 then v else Quotient(v / 256, j - 1)
  }

  lemma EmittedImm64(code: seq<u8>, head: seq<u8>, q: u64)
    requires Starts(code, head + W64(q))
    ensures |head| + 8 <= |code| && forall j :: 0 <= j < |head| ==> code[j] == head[j]
    ensures Imm(code, |head|, 4) + 0x1_0000_0000 * Imm(code, |head| + 4, 4) == q
  {
    var lo, hi: u32 := q % 0x1_0000_0000, q / 0x1_0000_0000;
    W64Halves(q);
    assert head + W64(q) == head + W32(lo) + W32(hi);
    ImmAt(code, head, lo, W32(hi));
    assert head + W64(q) == (head + W32(lo)) + W32(hi) + [];
    ImmAt(code, head + W32(lo), hi, []);
    At(code, head);
  }

  lemma DecodeMovRaxQ(q: u64, code: seq<u8>)
    requires Starts(code, Bytes(MovRaxQ(q)))
    ensures Decode(code) == Some((Meaning(MovRaxQ(q)), 10))
  {
    EmittedImm64(code, [0x48, 0xB8], q);
    ShapeShort(code, 1, Rex(true, true, false, false), 0xB8);
  }

  lemma DecodeMovR10Q(q: u64, code: seq<u8>)
    requires Starts(code, Bytes(MovR10Q(q)))
    ensures Decode(code) == Some((Meaning(MovR10Q(q)), 10))
  {
    EmittedImm64(code, [0x49, 0xBA], q);
    ShapeShort(code, 1, Rex(true, true, false, true), 0xBA);
  }

  lemma BytesLength(a: Asm)
    ensures a.Disp? ==> |Bytes(a)| == 7
    ensures a.Imm32? ==> |Bytes(a)| == |ImmHead(a.o)| + 4
    ensures a.Imm8? ==> |Bytes(a)| == |ByteHead(a.b)| + 1
  {
  }

  /** The encoding of every instruction the generator emits, at the head of any byte
      stream, is decoded as that instruction and no more of the stream. */
  lemma DecodeEmitted(a: Asm, code: seq<u8>)
    requires Starts(code, Bytes(a)) && Encodable(a)
    ensures Decode(code) == Some((Meaning(a), |Bytes(a)|))
  {
    hide Decode, PlainBytes, PlainMeaning, DispHead, DispMeaning, ImmHead, ImmMeaning, ByteHead, ByteMeaning, Starts;
    BytesLength(a);
    match a {
      case Plain(p) => DecodePlain(p, code);
      case Disp(d, v) => DecodeDisp(d, v, code);
      case Imm32(o, v) => DecodeImm(o, v, code);
      case Imm8(b, n) => DecodeByte(b, n, code);
      case MovRaxQ(q) => DecodeMovRaxQ(q, code);
      case MovR10Q(q) => DecodeMovR10Q(q, code);
      case LdAlApsrByte3 => DecodeLoadByte(code);
      case SetHalted => DecodeSetHalted(code);
      case StPc(v) => DecodeStPc(v, code);
      case JmpShort(n) => DecodeJmpShort(n, code);
      case JmpNear(v) => DecodeJmpNear(v, code);
      case Jcc8(c, n) => DecodeJcc8(c, n, code);
      case JccNear(c, v) => DecodeJccNear(c, v, code);
    }
  }
}
