/** Data-processing instructions: native code computes what the interpreter does. */
module NativeData {
  import opened Words
  import opened Cpu
  import opened Insn
  import opened Asm
  import opened Codegen
  import opened NativeRun
  import opened NativeSteps
  import opened NativeFlags
  import opened NativeMemory
  import X = X86
  import Executor

  /** What the data-processing opcodes have in common: an operation on a register and a
      register or constant, which flags it updates, and whether it has a destination. */
  datatype Arith = ArMov | ArAdd | ArSub | ArAnd | ArOr | ArXor
  datatype Source = FromReg(j: Reg) | Const(v: u32)
  datatype Update = KeepFlags | UpdateNz | UpdateNzcv
  datatype Shape = Shape(op: Arith, rn: Reg, src: Source, upd: Update, store: bool)

  function When(on: bool, u: Update): Update { if on then u else KeepFlags }

  function ShapeOf(i: Insn): Shape {
    var rm, imm := FromReg(i.rm), Const(i.imm);
    match i.op
    case MovImm => Shape(ArMov, 0, imm, UpdateNz, true)
    case T32MovImm => Shape(ArMov, 0, imm, When(i.setFlags, UpdateNz), true)
    case T32Movw => Shape(ArMov, 0, imm, KeepFlags, true)
    case MovReg => Shape(ArMov, 0, rm, When(i.setFlags, UpdateNz), true)
    case AddReg => Shape(ArAdd, i.rn, rm, UpdateNzcv, true)
    case SubReg => Shape(ArSub, i.rn, rm, UpdateNzcv, true)
    case AddImm3 => Shape(ArAdd, i.rn, imm, UpdateNzcv, true)
    case AddImm8 => Shape(ArAdd, i.rn, imm, UpdateNzcv, true)
    case SubImm3 => Shape(ArSub, i.rn, imm, UpdateNzcv, true)
    case SubImm8 => Shape(ArSub, i.rn, imm, UpdateNzcv, true)
    case T32AddImm => Shape(ArAdd, i.rn, imm, When(i.setFlags, UpdateNzcv), true)
    case T32SubImm => Shape(ArSub, i.rn, imm, When(i.setFlags, UpdateNzcv), true)
    case T32Addw => Shape(ArAdd, i.rn, imm, KeepFlags, true)
    case T32Subw => Shape(ArSub, i.rn, imm, KeepFlags, true)
    case AndReg => Shape(ArAnd, i.rn, rm, UpdateNz, true)
    case OrrReg => Shape(ArOr, i.rn, rm, UpdateNz, true)
    case EorReg => Shape(ArXor, i.rn, rm, UpdateNz, true)
    case T32AndImm => Shape(ArAnd, i.rn, imm, When(i.setFlags, UpdateNz), true)
    case T32OrrImm => Shape(ArOr, i.rn, imm, When(i.setFlags, UpdateNz), true)
    case T32EorImm => Shape(ArXor, i.rn, imm, When(i.setFlags, UpdateNz), true)
    case CmpImm => Shape(ArSub, i.rn, imm, UpdateNzcv, false)
    case T32CmpImm => Shape(ArSub, i.rn, imm, UpdateNzcv, false)
    case CmpReg => Shape(ArSub, i.rn, rm, UpdateNzcv, false)
    case CmpRegT2 => Shape(ArSub, i.rn, rm, UpdateNzcv, false)
    case T32CmpReg => Shape(ArSub, i.rn, rm, UpdateNzcv, false)
    case CmnReg => Shape(ArAdd, i.rn, rm, UpdateNzcv, false)
    case T32CmnReg => Shape(ArAdd, i.rn, rm, UpdateNzcv, false)
    case T32CmnImm => Shape(ArAdd, i.rn, imm, UpdateNzcv, false)
    case _ => Shape(ArAnd, i.rn, rm, UpdateNz, false)
  }

  /* The interpreter's side. */

  function Value(r: Regs, src: Source): u32 {
    match src case FromReg(j) => r[j] case Const(v) => v
  }

  function Result(op: Arith, a: u32, b: u32): u32 {
    match op
    case ArMov => b
    case ArAdd => Add32(a, b)
    case ArSub => Sub32(a, b)
    case ArAnd => And32(a, b)
    case ArOr => Or32(a, b)
    case ArXor => Xor32(a, b)
  }

  function Updated(apsr: u32, op: Arith, upd: Update, a: u32, b: u32): u32 {
    match upd
    case KeepFlags => apsr
    case UpdateNz => FlagsNz(apsr, Result(op, a, b))
    case UpdateNzcv =>
      if op.ArSub? then FlagsSub(apsr, a, b, Result(op, a, b)) else FlagsAdd(apsr, a, b, Result(op, a, b), false)
  }

  function Shaped(c: CpuState, sh: Shape, rd: Reg): CpuState {
    var a, b := c.r[sh.rn], Value(c.r, sh.src);
    c.(r := if sh.store then c.r[rd := Result(sh.op, a, b)] else c.r,
       apsr := Updated(c.apsr, sh.op, sh.upd, a, b))
  }

  /* The generator's side. */

  function RegOp(op: Arith): PlainOp {
    match op
    case ArSub => OpSubEc
    case ArAnd => OpAndEc
    case ArOr => OpOrEc
    case ArXor => OpXorEc
    case _ => OpAddEc
  }

  function ConstOp(op: Arith): ImmOp {
    match op
    case ArSub => SubEax
    case ArAnd => AndEax
    case ArOr => OrEax
    case ArXor => XorEax
    case _ => AddEax
  }

  function UpdateCode(sh: Shape, k: Code): Code {
    match sh.upd
    case KeepFlags => k
    case UpdateNz => if sh.op.ArMov? then TestNz(k) else FlagsNzCode(k)
    case UpdateNzcv => FlagsNzcvCode(sh.op.ArSub?, k)
  }

  function ComputeCode(sh: Shape, k: Code): Code {
    match sh.src
    case FromReg(j) =>
      if sh.op.ArMov? then R(LdEax, j, k) else R(LdEax, sh.rn, R(LdEcx, j, P(RegOp(sh.op), k)))
    case Const(v) =>
      if sh.op.ArMov? then I(MovEax, v, k) else R(LdEax, sh.rn, I(ConstOp(sh.op), v, k))
  }

  function ShapeCode(sh: Shape, rd: Reg, k: Code): Code {
    ComputeCode(sh, UpdateCode(sh, if sh.store then R(StEax, rd, k) else k))
  }

  lemma DataCodeShape(i: Insn, k: Code)
    requires IsData(i.op)
    ensures DataCode(i, k) == ShapeCode(ShapeOf(i), i.rd, k)
  {
    hide FlagsNzcvCode, FlagsNzCode;
  }

  /** Comparisons with a shifted register agree only when the shift amount is zero, whatever its kind. */
  lemma NoShift(v: u32, kind: nat)
    ensures Executor.T32Shift(v, kind, 0) == v
  {
    assert Pow2(0) == 1;
  }

  /** The interpreter reads its operands as they stand: no R15 as address plus four, no shift. */
  predicate PlainData(i: Insn) {
    && (i.op.CmpRegT2? ==> i.rn != REG_PC && i.rm != REG_PC)
    && (i.op.MovReg? ==> i.rd != REG_PC && i.rm != REG_PC && !i.setFlags)
    && (i.op.T32CmpReg? || i.op.T32CmnReg? ==> i.shiftN == 0)
  }

  predicate Logical(op: Op) {
    op.MovImm? || op.T32MovImm? || op.T32Movw? || op.AndReg? || op.OrrReg? || op.EorReg? || op.T32AndImm? ||
    op.T32OrrImm? || op.T32EorImm? || op.TstReg?
  }

  predicate Comparison(op: Op) {
    op.CmpImm? || op.T32CmpImm? || op.CmpReg? || op.CmpRegT2? || op.T32CmpReg? || op.CmnReg? || op.T32CmnReg? ||
    op.T32CmnImm?
  }

  lemma LogicalShape(c: CpuState, i: Insn)
    requires Logical(i.op)
    ensures Executor.DataProcessing(c, i) == Shaped(c, ShapeOf(i), i.rd)
  {
    hide FlagsAdd, FlagsSub, FlagsNz, And32, Or32, Xor32, Add32, Sub32, Executor.T32Shift;
    match i.op
    case MovImm =>
    case T32MovImm =>
    case T32Movw =>
    case AndReg =>
    case OrrReg =>
    case EorReg =>
    case T32AndImm =>
    case T32OrrImm =>
    case T32EorImm =>
    case _ =>
  }

  lemma ComparisonShape(c: CpuState, i: Insn)
    requires Comparison(i.op) && PlainData(i)
    ensures Executor.DataProcessing(c, i) == Shaped(c, ShapeOf(i), i.rd)
  {
    hide FlagsAdd, FlagsSub, FlagsNz, And32, Or32, Xor32, Add32, Sub32, Executor.T32Shift;
    match i.op
    case CmpImm =>
    case T32CmpImm =>
    case CmpReg =>
    case CmpRegT2 =>
    case T32CmpReg => NoShift(c.r[i.rm], i.shiftType);
    case CmnReg =>
    case T32CmnReg => NoShift(c.r[i.rm], i.shiftType);
    case _ =>
  }

  lemma ArithmeticShape(c: CpuState, i: Insn)
    requires IsData(i.op) && !Logical(i.op) && !Comparison(i.op) && !i.op.MovReg?
    ensures Executor.DataProcessing(c, i) == Shaped(c, ShapeOf(i), i.rd)
  {
    hide FlagsAdd, FlagsSub, FlagsNz, And32, Or32, Xor32, Add32, Sub32, Executor.T32Shift;
    match i.op
    case AddReg =>
    case SubReg =>
    case AddImm3 =>
    case AddImm8 =>
    case SubImm3 =>
    case SubImm8 =>
    case T32AddImm =>
    case T32SubImm =>
    case T32Addw =>
    case _ =>
  }

  lemma DataProcessingShape(c: CpuState, i: Insn)
    requires IsData(i.op) && !i.op.MovReg? && PlainData(i)
    ensures Executor.DataProcessing(c, i) == Shaped(c, ShapeOf(i), i.rd)
  {
    hide Executor.DataProcessing, Shaped, ShapeOf;
    if Logical(i.op) {
      LogicalShape(c, i);
    } else if Comparison(i.op) {
      ComparisonShape(c, i);
    } else {
      ArithmeticShape(c, i);
    }
  }

  /* Running the native form. */

  function AluOf(op: Arith): X.Alu {
    match op
    case ArSub => X.SUB
    case ArAnd => X.AND
    case ArOr => X.OR
    case ArXor => X.XOR
    case _ => X.ADD
  }

  lemma OpsMean(op: Arith, v: u32)
    ensures Meaning(Plain(RegOp(op))) == X.AluRR(AluOf(op), false, X.RAX, X.RCX)
    ensures Meaning(Imm32(ConstOp(op), v)) == X.AluRI(AluOf(op), false, X.RAX, v)
    ensures Meaning(Imm32(MovEax, v)) == X.MovRI(X.RAX, v)
  {
  }

  lemma AluIsResult(op: Arith, a: u32, b: u32)
    requires !op.ArMov?
    ensures X.AluResult(AluOf(op), a, b) == Result(op, a, b) && X.Stores(AluOf(op))
  {
    hide And32, Or32, Xor32, Add32, Sub32;
  }

  /** rax holds the result, and the x86 flags are those of the operation. */
  ghost predicate Computed(s: X.State, s': X.State, sh: Shape) {
    var a, b := s.guest.r[sh.rn], Value(s.guest.r, sh.src);
    && s' == s.(x := s.x.(rax := Result(sh.op, a, b), rcx := s'.x.rcx), fl := s'.fl, time := s'.time)
    && (!sh.op.ArMov? ==> s'.fl == X.AluFlags(AluOf(sh.op), a, b))
  }

  lemma RunMove(h: X.Host, sh: Shape, k: Code, s: X.State) returns (s': X.State)
    requires Ready(h, s) && sh.op.ArMov?
    ensures Exec(h, ComputeCode(sh, k), s) == Exec(h, k, s') && Computed(s, s', sh)
  {
    hide Exec, Meaning, HostOk, Result;
    var a, b := s.guest.r[sh.rn], Value(s.guest.r, sh.src);
    OpsMean(sh.op, b);
    MovResult(a, b);
    if sh.src.FromReg? {
      s' := LoadEax(h, sh.src.j, k, s);
    } else {
      s' := DoMovImm(h, Imm32(MovEax, b), X.RAX, b, k, s);
    }
  }

  lemma RunTwoRegs(h: X.Host, sh: Shape, k: Code, s: X.State) returns (s': X.State)
    requires Ready(h, s) && !sh.op.ArMov? && sh.src.FromReg?
    ensures Exec(h, ComputeCode(sh, k), s) == Exec(h, k, s') && Computed(s, s', sh)
  {
    hide Exec, Meaning, HostOk, X.AluFlags, X.AluResult, X.Stores, Result, X.Wrap32, RegOp, ConstOp, AluOf;
    var a, b := s.guest.r[sh.rn], Value(s.guest.r, sh.src);
    OpsMean(sh.op, b);
    AluIsResult(sh.op, a, b);
    var k2 := P(RegOp(sh.op), k);
    var s1 := LoadEax(h, sh.rn, R(LdEcx, sh.src.j, k2), s);
    var s2 := LoadEcx(h, sh.src.j, k2, s1);
    s' := DoAlu(h, Plain(RegOp(sh.op)), AluOf(sh.op), X.RAX, X.RCX, k, s2);
  }

  lemma RunRegConst(h: X.Host, sh: Shape, k: Code, s: X.State) returns (s': X.State)
    requires Ready(h, s) && !sh.op.ArMov? && sh.src.Const?
    ensures Exec(h, ComputeCode(sh, k), s) == Exec(h, k, s') && Computed(s, s', sh)
  {
    hide Exec, Meaning, HostOk, X.AluFlags, X.AluResult, X.Stores, Result, X.Wrap32, RegOp, ConstOp, AluOf;
    var a, b := s.guest.r[sh.rn], Value(s.guest.r, sh.src);
    OpsMean(sh.op, b);
    AluIsResult(sh.op, a, b);
    var s1 := LoadEax(h, sh.rn, I(ConstOp(sh.op), b, k), s);
    s' := DoAluImm(h, Imm32(ConstOp(sh.op), b), AluOf(sh.op), X.RAX, b, k, s1);
  }

  lemma RunCompute(h: X.Host, sh: Shape, k: Code, s: X.State) returns (s': X.State)
    requires Ready(h, s)
    ensures Exec(h, ComputeCode(sh, k), s) == Exec(h, k, s') && Computed(s, s', sh)
  {
    hide Exec, HostOk, ComputeCode, Computed;
    if sh.op.ArMov? {
      s' := RunMove(h, sh, k, s);
    } else if sh.src.FromReg? {
      s' := RunTwoRegs(h, sh, k, s);
    } else {
      s' := RunRegConst(h, sh, k, s);
    }
  }

  lemma MovResult(a: u32, b: u32)
    ensures Result(ArMov, a, b) == b
  {
  }

  /** The flags the emitters build are the ones the interpreter's formulas give. */
  lemma UpdatedIs(apsr: u32, op: Arith, a: u32, b: u32)
    requires !op.ArMov?
    ensures var f := X.AluFlags(AluOf(op), a, b);
      && Nz(apsr, f.sf, f.zf) == Updated(apsr, op, UpdateNz, a, b)
      && (op.ArAdd? || op.ArSub? ==>
            Nzcv(apsr, f.sf, f.zf, f.cf != op.ArSub?, f.of) == Updated(apsr, op, UpdateNzcv, a, b))
  {
    hide And32, Or32, Xor32, FlagsNz, FlagsAdd, FlagsSub, Nz, Nzcv;
    FlagsNzMeaning(apsr, Result(op, a, b));
    AddFlagsMeaning(apsr, a, b, false);
    SubFlagsMeaning(apsr, a, b);
  }

  /** Shapes the generator produces: a move never asks for all four flags, and only
      additions and subtractions do. */
  predicate ShapeOk(sh: Shape) {
    sh.upd.UpdateNzcv? ==> sh.op.ArAdd? || sh.op.ArSub?
  }

  lemma ShapesOk(i: Insn)
    requires IsData(i.op)
    ensures ShapeOk(ShapeOf(i))
  {
  }

  lemma RunUpdate(h: X.Host, sh: Shape, a: u32, b: u32, k: Code, s: X.State) returns (s': X.State)
    requires Ready(h, s) && ShapeOk(sh) && s.x.rax == Result(sh.op, a, b)
    requires !sh.op.ArMov? ==> s.fl == X.AluFlags(AluOf(sh.op), a, b)
    ensures Exec(h, UpdateCode(sh, k), s) == Exec(h, k, s')
    ensures ApsrWork(s, s', Updated(s.guest.apsr, sh.op, sh.upd, a, b))
  {
    hide Exec, HostOk, X.AluFlags, Result, FlagsNzcvCode, FlagsNzCode, TestNz, FlagsNz, FlagsAdd, FlagsSub, Nz, Nzcv,
         AluOf;
    var apsr := s.guest.apsr;
    if sh.upd.KeepFlags? {
      s' := s;
    } else if sh.op.ArMov? {
      FlagsNzMeaning(apsr, s.x.rax);
      s' := RunTestNz(h, k, s);
    } else {
      UpdatedIs(apsr, sh.op, a, b);
      if sh.upd.UpdateNz? {
        s' := RunNz(h, k, s);
      } else {
        s' := RunNzcv(h, sh.op.ArSub?, k, s);
      }
    }
  }

  /** A whole data-processing instruction. */
  lemma RunShape(h: X.Host, sh: Shape, rd: Reg, k: Code, s: X.State) returns (s': X.State)
    requires Ready(h, s) && ShapeOk(sh)
    ensures Exec(h, ShapeCode(sh, rd, k), s) == Exec(h, k, s')
    ensures Quiet(s, s', s.x.rbx, Shaped(s.guest, sh, rd), s.mem)
  {
    hide Exec, HostOk, Result, Updated, UpdateCode, ComputeCode, X.AluFlags, X.Wrap32, AluOf;
    var a, b := s.guest.r[sh.rn], Value(s.guest.r, sh.src);
    var k2 := if sh.store then R(StEax, rd, k) else k;
    var s1 := RunCompute(h, sh, UpdateCode(sh, k2), s);
    var s2 := RunUpdate(h, sh, a, b, k2, s1);
    s' := s2;
    if sh.store {
      s' := StoreEax(h, rd, k, s2);
    }
  }
}
