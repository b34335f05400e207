/** The part of x86-64 the code generator emits: a decoder for its encodings
    (REX prefix, opcode, ModRM, immediates) and a machine that runs them.

    The machine is total: an access outside the guest register file, the SRAM
    buffer or the stack, a call to anything but the two bus helpers, or bytes
    outside the subset make it Stuck. Values the architecture or the calling
    convention leaves undefined (flags after a shift, volatile registers after a
    call, fresh stack) come from an arbitrary noise stream. */
module X86 {
  import opened Words
  import opened Cpu
  import Bus

  datatype Gpr = RAX | RCX | RDX | RBX | RSP | RBP | RSI | RDI | R8 | R9 | R10 | R11 | R12 | R13 | R14 | R15
  datatype Byte = AL | CL | DL | BL | AH

  datatype Alu = ADD | OR | AND | SUB | XOR | CMP | TEST
  datatype Cc = CcO | CcB | CcAE | CcE | CcNE | CcA

  datatype Ins =
    | MovRR(wide: bool, d: Gpr, s: Gpr)
    | LoadRM(d: Gpr, b: Gpr, disp: u32)
    | StoreMR(b: Gpr, disp: u32, s: Gpr)
    | StoreMI(b: Gpr, disp: u32, imm: u32)
    | StoreByteMI(b: Gpr, disp: u32, imm: u32)
    | LoadByteRM(d8: Byte, b: Gpr, disp: u32)
    | MovRI(d: Gpr, imm: u32)
    | MovRI64(d: Gpr, imm64: u64)
    | AluRR(op: Alu, wide: bool, d: Gpr, s: Gpr)
    | AluRI(op: Alu, wide: bool, d: Gpr, imm: u32)
    | Alu8RR(op: Alu, d8: Byte, s8: Byte)
    | Alu8RI(op: Alu, d8: Byte, imm: u32)
    | Shl(d: Gpr, n: nat)
    | Shr(d: Gpr, n: nat)
    | Shr8(d8: Byte, n: nat)
    | MovR8(d8: Byte, s8: Byte)
    | MovR8I(d8: Byte, imm: u32)
    | Movzx(d: Gpr, s8: Byte)
    | Set(cc: Cc, d8: Byte)
    | Lahf
    | Lea(d: Gpr, b: Gpr)
    | Push(s: Gpr)
    | Pop(d: Gpr)
    | Call(s: Gpr)
    | Ret
    | Jmp(rel: nat)
    | Jcc(cc: Cc, rel: nat)

  /* Decoding. */

  function RegOf(n: nat): Gpr
    requires n < 16
  {
    match n
    case 0 => RAX case 1 => RCX case 2 => RDX case 3 => RBX
    case 4 => RSP case 5 => RBP case 6 => RSI case 7 => RDI
    case 8 => R8 case 9 => R9 case 10 => R10 case 11 => R11
    case 12 => R12 case 13 => R13 case 14 => R14 case _ => R15
  }

  /** Byte registers; number 4 is AH only without a REX prefix. */
  function ByteOf(n: nat, rex: Rex): Option<Byte> {
    match n
    case 0 => Some(AL) case 1 => Some(CL) case 2 => Some(DL) case 3 => Some(BL)
    case 4 => if rex.present then None else Some(AH)
    case _ => None
  }

  function AluOf(n: nat): Option<Alu> {
    match n
    case 0 => Some(ADD) case 1 => Some(OR) case 4 => Some(AND) case 5 => Some(SUB) case 6 => Some(XOR)
    case 7 => Some(CMP)
    case _ => None
  }

  function CcOf(n: nat): Option<Cc> {
    match n
    case 0 => Some(CcO) case 2 => Some(CcB) case 3 => Some(CcAE) case 4 => Some(CcE) case 5 => Some(CcNE)
    case 7 => Some(CcA)
    case _ => None
  }

  datatype Rex = Rex(present: bool, w: bool, r: bool, b: bool)

  const NO_REX := Rex(false, false, false, false)

  function RexOf(p: u8): Rex {
    Rex(true, p / 8 % 2 == 1, p / 4 % 2 == 1, p % 2 == 1)
  }

  datatype Operand = Reg(r: Gpr) | Mem(b: Gpr, disp: u32)

  /** ModRM: the reg field, the register-or-memory operand, and the bytes they took. */
  datatype ModRm = ModRm(field: nat, reg: Gpr, rm: Operand, n: nat)

  function Imm(code: seq<u8>, k: nat, n: Bus.Width): u32
    requires k + n <= |code|
  {
    Bus.Load(Prefix(code, k, n), 0, n)
  }

  function Prefix(code: seq<u8>, k: nat, n: Bus.Width): (s: Bus.Buf)
    requires k + n <= |code|
    ensures |s| == n
  {
    code[k..k + n]
  }

  function DecodeModRm(code: seq<u8>, k: nat, rex: Rex): Option<ModRm> {
    if k >= |code| then None else
    var b := code[k];
    var field := b / 8 % 8;
    var reg := RegOf(if rex.r then field + 8 else field);
    var rm := b % 8;
    if b / 64 == 3 then Some(ModRm(field, reg, Reg(RegOf(if rex.b then rm + 8 else rm)), 1))
    else if b / 64 == 2 && rm != 4 && k + 5 <= |code| then
      Some(ModRm(field, reg, Mem(RegOf(if rex.b then rm + 8 else rm), Imm(code, k + 1, 4)), 5))
    else if b / 64 == 0 && rm == 4 && k + 2 <= |code| && code[k + 1] == 0x24 then
      Some(ModRm(field, reg, Mem(RSP, 0), 2))
    else None
  }

  type Decoded = Option<(Ins, nat)>

  /** Forms with a ModRM byte and no immediate. */
  function DecodeRm(op: u8, m: ModRm, rex: Rex): Option<Ins> {
    match op
    case 0x89 => Some(match m.rm case Reg(d) => MovRR(rex.w, d, m.reg) case Mem(b, disp) => StoreMR(b, disp, m.reg))
    case 0x8B => Some(match m.rm case Reg(s) => MovRR(rex.w, m.reg, s) case Mem(b, disp) => LoadRM(m.reg, b, disp))
    case 0x8D => if m.rm.Mem? && m.rm.disp == 0 && rex.w then Some(Lea(m.reg, m.rm.b)) else None
    case 0x85 => if m.rm.Reg? then Some(AluRR(TEST, rex.w, m.rm.r, m.reg)) else None
    case 0xFF => if m.rm.Reg? && m.field == 2 then Some(Call(m.rm.r)) else None
    case _ =>
      if op % 8 == 1 && op < 0x40 && m.rm.Reg? then
        match AluOf(op / 8) case Some(a) => Some(AluRR(a, rex.w, m.rm.r, m.reg)) case None => None
      else None
  }

  /** Byte-register forms. */
  function DecodeRm8(op: u8, b: u8, rex: Rex): Option<Ins> {
    if b / 64 != 3 then None else
    match (ByteOf(b % 8, rex), ByteOf(b / 8 % 8, rex))
    case (Some(d), Some(s)) =>
      (match op
       case 0x30 => Some(Alu8RR(XOR, d, s))
       case 0x84 => Some(Alu8RR(TEST, d, s))
       case 0x88 => Some(MovR8(d, s))
       case _ => None)
    case _ => None
  }

  function DecodeRmImm32(op: u8, m: ModRm, rex: Rex, imm: u32): Option<Ins> {
    if op == 0xC7 then
      if m.field == 0 && m.rm.Mem? then Some(StoreMI(m.rm.b, m.rm.disp, imm)) else None
    else if m.rm.Reg? then
      match AluOf(m.field) case Some(a) => Some(AluRI(a, rex.w, m.rm.r, imm)) case None => None
    else None
  }

  function DecodeRmImm8(op: u8, b: u8, m: ModRm, rex: Rex, imm: u8): Option<Ins> {
    match op
    case 0x83 =>
      if m.rm.Reg? && imm < 0x80 then
        match AluOf(m.field) case Some(a) => Some(AluRI(a, rex.w, m.rm.r, imm)) case None => None
      else None
    case 0xC1 =>
      if m.rm.Reg? && imm < 32 && !rex.w then
        if m.field == 4 then Some(Shl(m.rm.r, imm)) else if m.field == 5 then Some(Shr(m.rm.r, imm)) else None
      else None
    case 0xC0 =>
      if b / 64 == 3 && m.field == 5 && imm < 8 then
        match ByteOf(b % 8, rex) case Some(d) => Some(Shr8(d, imm)) case None => None
      else None
    case 0x80 =>
      if b / 64 == 3 then
        match (ByteOf(b % 8, rex), AluOf(m.field)) case (Some(d), Some(a)) => Some(Alu8RI(a, d, imm)) case _ => None
      else None
    case 0xC6 => if m.rm.Mem? && m.field == 0 then Some(StoreByteMI(m.rm.b, m.rm.disp, imm)) else None
    case _ => None
  }

  predicate HasRm(op: u8) {
    op == 0x89 || op == 0x8B || op == 0x8D || op == 0x85 || op == 0xFF || (op < 0x40 && op % 8 == 1)
  }
  predicate HasRm8(op: u8) { op == 0x30 || op == 0x84 || op == 0x88 }
  predicate HasRmImm32(op: u8) { op == 0x81 || op == 0xC7 }
  predicate HasRmImm8(op: u8) { op == 0x83 || op == 0xC1 || op == 0xC0 || op == 0x80 || op == 0xC6 }

  /** One-byte opcodes whose operand is an immediate or nothing. */
  function DecodeShort(code: seq<u8>, k: nat, rex: Rex): Decoded
    requires k < |code|
  {
    var op, high := code[k], if rex.b then 8 else 0;
    if op == 0x9F then Some((Ins.Lahf, k + 1))
    else if op == 0xC3 then Some((Ins.Ret, k + 1))
    else if 0x50 <= op < 0x58 then Some((Ins.Push(RegOf(op - 0x50 + high)), k + 1))
    else if 0x58 <= op < 0x60 then Some((Ins.Pop(RegOf(op - 0x58 + high)), k + 1))
    else if k + 2 <= |code| && (op == 0x24 || op == 0x3C || op == 0xA8) then
      Some((Alu8RI(if op == 0x24 then AND else if op == 0x3C then CMP else TEST, AL, code[k + 1]), k + 2))
    else if k + 2 <= |code| && op == 0xB0 then Some((MovR8I(AL, code[k + 1]), k + 2))
    else if k + 2 <= |code| && op == 0xEB && code[k + 1] < 0x80 then Some((Ins.Jmp(code[k + 1]), k + 2))
    else if k + 2 <= |code| && 0x70 <= op < 0x80 && code[k + 1] < 0x80 then
      match CcOf(op - 0x70) case Some(c) => Some((Ins.Jcc(c, code[k + 1]), k + 2)) case None => None
    else if k + 5 <= |code| && op == 0xE9 && Imm(code, k + 1, 4) < 0x8000_0000 then
      Some((Ins.Jmp(Imm(code, k + 1, 4)), k + 5))
    else if k + 5 <= |code| && op < 0x40 && op % 8 == 5 then
      match AluOf(op / 8) case Some(a) => Some((AluRI(a, rex.w, RAX, Imm(code, k + 1, 4)), k + 5)) case None => None
    else if 0xB8 <= op < 0xC0 && rex.w && k + 9 <= |code| then
      Some((MovRI64(RegOf(op - 0xB8 + high), Imm(code, k + 1, 4) + 0x1_0000_0000 * Imm(code, k + 5, 4)), k + 9))
    else if 0xB8 <= op < 0xC0 && !rex.w && k + 5 <= |code| then
      Some((MovRI(RegOf(op - 0xB8 + high), Imm(code, k + 1, 4)), k + 5))
    else None
  }

  /** Two-byte opcodes. */
  function Decode0F(code: seq<u8>, k: nat, rex: Rex): Decoded
    requires k < |code|
  {
    if k + 2 > |code| then None else
    var op, b := code[k], code[k + 1];
    if 0x90 <= op < 0xA0 && b / 64 == 3 then
      match (CcOf(op - 0x90), ByteOf(b % 8, rex)) case (Some(c), Some(d)) => Some((Ins.Set(c, d), k + 2)) case _ => None
    else if op == 0xB6 && b / 64 == 3 then
      match ByteOf(b % 8, rex)
      case Some(s) => Some((Movzx(RegOf(if rex.r then b / 8 % 8 + 8 else b / 8 % 8), s), k + 2))
      case None => None
    else if 0x80 <= op < 0x90 && k + 5 <= |code| && Imm(code, k + 1, 4) < 0x8000_0000 then
      match CcOf(op - 0x80) case Some(c) => Some((Ins.Jcc(c, Imm(code, k + 1, 4)), k + 5)) case None => None
    else None
  }

  function With(i: Option<Ins>, n: nat): Decoded {
    match i case Some(i) => Some((i, n)) case None => None
  }

  /** The opcode at position k, after any prefix. */
  function DecodeAt(code: seq<u8>, k: nat, rex: Rex): Decoded {
    if k >= |code| then None else
    var op := code[k];
    if op == 0x0F then
      if k + 1 < |code| then Decode0F(code, k + 1, rex) else None
    else if HasRm8(op) then
      if k + 2 <= |code| then With(DecodeRm8(op, code[k + 1], rex), k + 2) else None
    else if HasRm(op) || HasRmImm32(op) || HasRmImm8(op) || op == 0x8A then
      match DecodeModRm(code, k + 1, rex)
      case None => None
      case Some(m) =>
        var k' := k + 1 + m.n;
        if HasRm(op) then With(DecodeRm(op, m, rex), k')
        else if op == 0x8A then
          match ByteOf(m.field, rex)
          case Some(d) => if m.rm.Mem? then Some((LoadByteRM(d, m.rm.b, m.rm.disp), k')) else None
          case None => None
        else if HasRmImm32(op) then
          if k' + 4 <= |code| then With(DecodeRmImm32(op, m, rex, Imm(code, k', 4)), k' + 4) else None
        else if k' + 1 <= |code| then With(DecodeRmImm8(op, code[k + 1], m, rex, code[k']), k' + 1) else None
    else DecodeShort(code, k, rex)
  }

  /** The instruction at the start of the byte stream, and its length. */
  function Decode(code: seq<u8>): (d: Decoded) {
    if |code| > 0 && 0x40 <= code[0] < 0x50 then DecodeAt(code, 1, RexOf(code[0]))
    else DecodeAt(code, 0, NO_REX)
  }

  /* The machine. */

  datatype Noise = Noise(w: nat -> u64, flag: nat -> bool)

  /** Addresses the thunk was compiled against, and the noise stream. The SRAM buffer
      is the backing store of region `sram`. */
  datatype Host = Host(cpu: u64, bus: u64, readFn: u64, writeFn: u64, buf: u64, sram: nat, noise: nat -> Noise)

  datatype Status = Running | Returned | Stuck

  datatype RegFile = RegFile(
    rax: u64, rcx: u64, rdx: u64, rbx: u64, rsp: u64, rbp: u64, rsi: u64, rdi: u64,
    r8: u64, r9: u64, r10: u64, r11: u64, r12: u64, r13: u64, r14: u64, r15: u64)

  datatype Flags = Flags(cf: bool, zf: bool, sf: bool, of: bool)

  datatype State = State(
    x: RegFile,
    fl: Flags,
    stack: seq<u64>,      // the words from [rsp] upwards
    guest: CpuState,
    mem: Bus.Memory,
    time: nat,
    status: Status)

  /* Layout of cpu_t. */
  const R_OFF: u32 := 0
  const PC_OFF: u32 := 60
  const APSR_OFF: u32 := 72
  const HALT_OFF: u32 := 120
  const CPU_SIZE: u32 := 1024

  function Get(x: RegFile, r: Gpr): u64 {
    match r
    case RAX => x.rax case RCX => x.rcx case RDX => x.rdx case RBX => x.rbx
    case RSP => x.rsp case RBP => x.rbp case RSI => x.rsi case RDI => x.rdi
    case R8 => x.r8 case R9 => x.r9 case R10 => x.r10 case R11 => x.r11
    case R12 => x.r12 case R13 => x.r13 case R14 => x.r14 case R15 => x.r15
  }

  function Put(x: RegFile, r: Gpr, v: u64): RegFile {
    match r
    case RAX => x.(rax := v) case RCX => x.(rcx := v) case RDX => x.(rdx := v) case RBX => x.(rbx := v)
    case RSP => x.(rsp := v) case RBP => x.(rbp := v) case RSI => x.(rsi := v) case RDI => x.(rdi := v)
    case R8 => x.(r8 := v) case R9 => x.(r9 := v) case R10 => x.(r10 := v) case R11 => x.(r11 := v)
    case R12 => x.(r12 := v) case R13 => x.(r13 := v) case R14 => x.(r14 := v) case R15 => x.(r15 := v)
  }

  function SetR(s: State, r: Gpr, v: u64): State { s.(x := Put(s.x, r, v)) }

  function Fail(s: State): State { s.(status := Stuck) }

  /** The low half of a register. */
  function Lo32(v: u64): u32 { if v < 0x1_0000_0000 then v else Wrap32(v) }
  function Wrap32(v: u64): u32 { v % 0x1_0000_0000 }

  function Add64(a: u64, b: u64): u64 {
    if a + b < 0x1_0000_0000_0000_0000 then a + b else a + b - 0x1_0000_0000_0000_0000
  }
  function Sub64(a: u64, b: u64): u64 {
    if a >= b then a - b else a - b + 0x1_0000_0000_0000_0000
  }
  function SignExtend(v: u32): u64 {
    if v < 0x8000_0000 then v else v + 0xFFFF_FFFF_0000_0000
  }

  function GetByte(x: RegFile, r: Byte): u8 {
    match r
    case AL => x.rax % 256
    case CL => x.rcx % 256
    case DL => x.rdx % 256
    case BL => x.rbx % 256
    case AH => x.rax / 256 % 256
  }

  function PutByte(x: RegFile, r: Byte, v: u8): RegFile {
    match r
    case AL => x.(rax := LowByte(x.rax, v))
    case CL => x.(rcx := LowByte(x.rcx, v))
    case DL => x.(rdx := LowByte(x.rdx, v))
    case BL => x.(rbx := LowByte(x.rbx, v))
    case AH => x.(rax := HighByte(x.rax, v))
  }

  function LowByte(w: u64, v: u8): u64 { w / 256 * 256 + v }
  function HighByte(w: u64, v: u8): u64 { w / 0x1_0000 * 0x1_0000 + 256 * v + w % 256 }

  function SetB(s: State, r: Byte, v: u8): State { s.(x := PutByte(s.x, r, v)) }

  predicate Holds(f: Flags, c: Cc) {
    match c
    case CcO => f.of
    case CcB => f.cf
    case CcAE => !f.cf
    case CcE => f.zf
    case CcNE => !f.zf
    case CcA => !f.cf && !f.zf
  }

  function NoFlags(h: Host, s: State): Flags {
    var n := h.noise(s.time);
    Flags(n.flag(0), n.flag(1), n.flag(2), n.flag(3))
  }

  function NoiseFlags(h: Host, s: State): State { s.(fl := NoFlags(h, s)) }

  function AluResult(op: Alu, a: u32, b: u32): u32 {
    match op
    case ADD => Add32(a, b)
    case OR => Or32(a, b)
    case XOR => Xor32(a, b)
    case SUB => Sub32(a, b)
    case CMP => Sub32(a, b)
    case AND => And32(a, b)
    case TEST => And32(a, b)
  }

  predicate Stores(op: Alu) { op != CMP && op != TEST }

  /** Flags of a 32-bit arithmetic or logical operation. */
  function AluFlags(op: Alu, a: u32, b: u32): Flags {
    var v := AluResult(op, a, b);
    var z, n := v == 0, v >= 0x8000_0000;
    match op
    case ADD => Flags(a + b >= 0x1_0000_0000, z, n, !FitsSigned(Signed(a) + Signed(b)))
    case SUB => Flags(a < b, z, n, !FitsSigned(Signed(a) - Signed(b)))
    case CMP => Flags(a < b, z, n, !FitsSigned(Signed(a) - Signed(b)))
    case _ => Flags(false, z, n, false)
  }

  function Alu32(s: State, op: Alu, d: Gpr, a: u32, b: u32): State {
    var s' := s.(fl := AluFlags(op, a, b));
    if Stores(op) then SetR(s', d, AluResult(op, a, b)) else s'
  }

  /** 64-bit additions and subtractions are used for addresses only; their flags are not. */
  function Alu64(h: Host, s: State, op: Alu, d: Gpr, a: u64, b: u64): State {
    match op
    case ADD => SetR(NoiseFlags(h, s), d, Add64(a, b))
    case SUB => SetR(NoiseFlags(h, s), d, Sub64(a, b))
    case _ => Fail(s)
  }

  predicate ByteOpOk(op: Alu, v: u32) {
    op == CMP || (v < 256 && (op == AND || op == OR || op == XOR || op == TEST))
  }

  /** Byte operations: result and the zero flag; the others are not relied on. */
  function Alu8(h: Host, s: State, op: Alu, d: Byte, a: u8, b: u8): State {
    var v := AluResult(op, a, b);
    if !ByteOpOk(op, v) then Fail(s) else
    var s' := s.(fl := NoFlags(h, s).(zf := v == 0));
    if Stores(op) && v < 256 then SetB(s', d, v) else s'
  }

  /** Moving rsp by whole words drops or exposes stack words. */
  function MoveRsp(h: Host, s: State, op: Alu, imm: u32): State {
    if imm % 8 != 0 then Fail(s) else
    var n := imm / 8;
    if op == SUB then
      NoiseFlags(h, s).(x := s.x.(rsp := Sub64(s.x.rsp, imm)), stack := Fresh(h.noise(s.time), n) + s.stack)
    else if op == ADD && n <= |s.stack| then
      NoiseFlags(h, s).(x := s.x.(rsp := Add64(s.x.rsp, imm)), stack := s.stack[n..])
    else Fail(s)
  }

  function Fresh(n: Noise, k: nat): (s: seq<u64>)
    ensures |s| == k
  {
    seq<u64>(k, (i: nat) => n.w(i))
  }

  /** Effective address of [b + disp32]. */
  function Ea(x: RegFile, b: Gpr, disp: u32): u64 {
    Add64(Get(x, b), SignExtend(disp))
  }

  predicate InCpu(h: Host, ea: u64) {
    h.cpu <= ea < h.cpu + CPU_SIZE
  }

  predicate InSram(h: Host, m: Bus.Memory, ea: u64, n: nat) {
    h.sram < |m| && h.buf <= ea && ea + n <= h.buf + m[h.sram].Size()
  }

  /** A 32-bit field of the processor structure. */
  function CpuField(c: CpuState, off: nat): Option<u32> {
    if off < 64 && off % 4 == 0 then Some(c.r[off / 4])
    else if off == APSR_OFF then Some(c.apsr)
    else None
  }

  function SetCpuField(c: CpuState, off: nat, v: u32): Option<CpuState> {
    if off < 64 && off % 4 == 0 then Some(c.(r := c.r[off / 4 := v]))
    else if off == APSR_OFF then Some(c.(apsr := v))
    else None
  }

  function Load32(h: Host, s: State, ea: u64): Option<u32> {
    if InCpu(h, ea) then CpuField(s.guest, ea - h.cpu)
    else if InSram(h, s.mem, ea, 4) then Some(Bus.Load(s.mem[h.sram].buf, ea - h.buf, 4))
    else None
  }

  function SetSram(h: Host, m: Bus.Memory, ea: u64, v: u32): Bus.Memory
    requires InSram(h, m, ea, 4)
  {
    m[h.sram := m[h.sram].(buf := Bus.Store(m[h.sram].buf, ea - h.buf, 4, v))]
  }

  function Store32(h: Host, s: State, ea: u64, v: u32): State {
    if InCpu(h, ea) then
      match SetCpuField(s.guest, ea - h.cpu, v) case Some(c) => s.(guest := c) case None => Fail(s)
    else if InSram(h, s.mem, ea, 4) then s.(mem := SetSram(h, s.mem, ea, v))
    else Fail(s)
  }

  /** Registers and flags a call may change: rax, rcx, rdx, r8-r11. */
  function Clobber(h: Host, s: State, ok: bool): State {
    var n := h.noise(s.time);
    NoiseFlags(h, s).(x := s.x.(rax := LowByte(n.w(0), if ok then 1 else 0),
      rcx := n.w(1), rdx := n.w(2), r8 := n.w(3), r9 := n.w(4), r10 := n.w(5), r11 := n.w(6)))
  }

  /** The 32-bit result stored in the low half of the stack slot the caller passed. */
  function PutSlot(stack: seq<u64>, v: u32): seq<u64>
    requires |stack| > 0
  {
    stack[0 := stack[0] - Lo32(stack[0]) + v]
  }

  /** bus_read(bus, addr, size, &out) */
  function CallRead(h: Host, s: State, n: Bus.Width): State {
    if s.x.r9 != s.x.rsp || |s.stack| == 0 then Fail(s)
    else match Bus.Read(s.mem, Lo32(s.x.rdx), n)
      case None => Clobber(h, s, false)
      case Some(v) => Clobber(h, s, true).(stack := PutSlot(s.stack, v))
  }

  /** bus_write(bus, addr, size, value) */
  function CallWrite(h: Host, s: State, n: Bus.Width): State {
    match Bus.Write(s.mem, Lo32(s.x.rdx), n, Lo32(s.x.r9))
    case None => Clobber(h, s, false)
    case Some(m) => Clobber(h, s, true).(mem := m)
  }

  function CallHelper(h: Host, s: State, fn: u64): State {
    var n := Lo32(s.x.r8);
    if s.x.rcx != h.bus || !(n == 1 || n == 2 || n == 4) then Fail(s)
    else if fn == h.readFn then CallRead(h, s, n)
    else if fn == h.writeFn then CallWrite(h, s, n)
    else Fail(s)
  }

  function AhFlags(n: Noise, f: Flags): u8 {
    (if f.sf then 128 else 0) + (if f.zf then 64 else 0) + (if n.flag(4) then 16 else 0)
    + (if n.flag(5) then 4 else 0) + 2 + (if f.cf then 1 else 0)
  }

  /* Effects of instructions other than jumps. */

  function LoadReg(h: Host, s: State, d: Gpr, b: Gpr, disp: u32): State {
    if b == RSP then
      if |s.stack| == 0 || disp != 0 then Fail(s) else SetR(s, d, Lo32(s.stack[0]))
    else match Load32(h, s, Ea(s.x, b, disp))
      case Some(v) => SetR(s, d, v)
      case None => Fail(s)
  }

  function StoreValue(h: Host, s: State, b: Gpr, disp: u32, v: u32): State {
    if b == RSP then Fail(s) else Store32(h, s, Ea(s.x, b, disp), v)
  }

  function StoreByte(h: Host, s: State, b: Gpr, disp: u32, imm: u32): State {
    if Ea(s.x, b, disp) == h.cpu + HALT_OFF then s.(guest := s.guest.(halted := imm != 0)) else Fail(s)
  }

  function LoadByte(h: Host, s: State, d: Byte, b: Gpr, disp: u32): State {
    if Ea(s.x, b, disp) == h.cpu + APSR_OFF + 3 then SetB(s, d, s.guest.apsr / 0x100_0000) else Fail(s)
  }

  function EffectMove(h: Host, i: Ins, s: State): State {
    match i
    case MovRR(wide, d, r) => SetR(s, d, if wide then Get(s.x, r) else Lo32(Get(s.x, r)))
    case LoadRM(d, b, disp) => LoadReg(h, s, d, b, disp)
    case StoreMR(b, disp, r) => StoreValue(h, s, b, disp, Lo32(Get(s.x, r)))
    case StoreMI(b, disp, imm) => StoreValue(h, s, b, disp, imm)
    case MovRI(d, imm) => SetR(s, d, imm)
    case MovRI64(d, imm) => SetR(s, d, imm)
    case _ => Fail(s)
  }

  function AluRegs(h: Host, s: State, op: Alu, wide: bool, d: Gpr, r: Gpr): State {
    if wide then Alu64(h, s, op, d, Get(s.x, d), Get(s.x, r)) else Alu32(s, op, d, Lo32(Get(s.x, d)), Lo32(Get(s.x, r)))
  }

  function AluImm(h: Host, s: State, op: Alu, wide: bool, d: Gpr, imm: u32): State {
    if d == RSP then if wide then MoveRsp(h, s, op, imm) else Fail(s)
    else if wide then Alu64(h, s, op, d, Get(s.x, d), SignExtend(imm))
    else Alu32(s, op, d, Lo32(Get(s.x, d)), imm)
  }

  function EffectAlu(h: Host, i: Ins, s: State): State {
    match i
    case AluRR(op, wide, d, r) => AluRegs(h, s, op, wide, d, r)
    case AluRI(op, wide, d, imm) => AluImm(h, s, op, wide, d, imm)
    case Shl(d, n) => SetR(NoiseFlags(h, s), d, ShiftLeft(Lo32(Get(s.x, d)), n))
    case Shr(d, n) => SetR(NoiseFlags(h, s), d, ShiftRight(Lo32(Get(s.x, d)), n))
    case _ => Fail(s)
  }

  function EffectByte(h: Host, i: Ins, s: State): State {
    match i
    case StoreByteMI(b, disp, imm) => StoreByte(h, s, b, disp, imm)
    case LoadByteRM(d, b, disp) => LoadByte(h, s, d, b, disp)
    case Alu8RR(op, d, r) => Alu8(h, s, op, d, GetByte(s.x, d), GetByte(s.x, r))
    case Alu8RI(op, d, imm) => Alu8(h, s, op, d, GetByte(s.x, d), imm % 256)
    case Shr8(d, n) => SetB(NoiseFlags(h, s), d, ShiftRight8(GetByte(s.x, d), n))
    case MovR8(d, r) => SetB(s, d, GetByte(s.x, r))
    case MovR8I(d, imm) => SetB(s, d, imm % 256)
    case Movzx(d, r) => SetR(s, d, GetByte(s.x, r))
    case Set(c, d) => SetB(s, d, if Holds(s.fl, c) then 1 else 0)
    case Lahf => SetB(s, AH, AhFlags(h.noise(s.time), s.fl))
    case _ => Fail(s)
  }

  function PushReg(s: State, v: u64): State {
    s.(x := s.x.(rsp := Sub64(s.x.rsp, 8)), stack := [v] + s.stack)
  }

  function PopReg(s: State, d: Gpr): State {
    if |s.stack| == 0 then Fail(s)
    else SetR(s.(x := s.x.(rsp := Add64(s.x.rsp, 8)), stack := s.stack[1..]), d, s.stack[0])
  }

  function EffectStack(h: Host, i: Ins, s: State): State {
    match i
    case Lea(d, b) => SetR(s, d, Get(s.x, b))
    case Push(r) => PushReg(s, Get(s.x, r))
    case Pop(d) => PopReg(s, d)
    case Call(r) => CallHelper(h, s, Get(s.x, r))
    case Ret => s.(status := Returned)
    case _ => s
  }

  predicate IsMove(i: Ins) { i.MovRR? || i.LoadRM? || i.StoreMR? || i.StoreMI? || i.MovRI? || i.MovRI64? }
  predicate IsAlu(i: Ins) { i.AluRR? || i.AluRI? || i.Shl? || i.Shr? }
  predicate IsByte(i: Ins) {
    i.StoreByteMI? || i.LoadByteRM? || i.Alu8RR? || i.Alu8RI? || i.Shr8? || i.MovR8? || i.MovR8I? || i.Movzx? ||
      i.Set? || i.Lahf?
  }

  function Effect(h: Host, i: Ins, s: State): State {
    if IsMove(i) then EffectMove(h, i, s)
    else if IsAlu(i) then EffectAlu(h, i, s)
    else if IsByte(i) then EffectByte(h, i, s)
    else EffectStack(h, i, s)
  }

  function ShiftRight8(v: u8, n: nat): u8 {
    Shrink(v, Pow2(n));
    v / Pow2(n)
  }

  /** The displacement of a jump that is taken. */
  function Taken(i: Ins, f: Flags): Option<nat> {
    match i
    case Jmp(rel) => Some(rel)
    case Jcc(c, rel) => if Holds(f, c) then Some(rel) else None
    case _ => None
  }

  function Step(h: Host, i: Ins, s: State): State {
    Effect(h, i, s).(time := s.time + 1)
  }

  /** Fetch, decode and execute until the code returns, gets stuck or runs out. Every
      jump in the subset is forward, so the remaining bytes only get fewer. */
  function Run(h: Host, code: seq<u8>, s: State): State
    decreases |code|
  {
    if s.status != Running || |code| == 0 then s
    else match Decode(code)
      case None => s.(status := Stuck)
      case Some((i, n)) =>
        if n == 0 || n > |code| then s.(status := Stuck)
        else
          var rel := match Taken(i, s.fl) case Some(d) => d case None => 0;
          if n + rel > |code| then s.(status := Stuck)
          else Run(h, code[n + rel..], Step(h, i, s))
  }
}
