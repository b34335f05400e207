/** The forms of the supported instructions on which the emitted code and the interpreter agree. */
module NativeForms {
  import opened Words
  import opened Cpu
  import opened Insn
  import opened Nvic
  import opened Codegen
  import opened NativeRun
  import opened NativeSteps
  import opened NativeMemory
  import opened NativeData
  import opened NativeAccess
  import opened NativeMulti
  import opened NativeOps
  import X = X86
  import Bus
  import Executor

  /* The forms. */

  /** An operand is R15, which the interpreter keeps up to date and native code does not. */
  predicate ReadsPc(i: Insn) {
    var sh := ShapeOf(i);
    (!sh.op.ArMov? && sh.rn == REG_PC) || (sh.src.FromReg? && i.rm == REG_PC)
  }

  /** The result goes to R15 without flags, where the next PC overwrites it. */
  predicate Discarded(i: Insn) {
    ShapeOf(i).store && i.rd == REG_PC && ShapeOf(i).upd.KeepFlags?
  }

  /** AND with zero: the other operand does not matter. */
  predicate ClearsAll(i: Insn) {
    ShapeOf(i).op.ArAnd? && ShapeOf(i).src == Const(0)
  }

  predicate DataForm(i: Insn) {
    match i.op
    case MovReg => i.rd != REG_PC && i.rm != REG_PC && !i.setFlags
    case CmpRegT2 => i.rn == REG_PC <==> i.rm == REG_PC
    case T32CmpReg =>
      if i.rn == REG_PC && i.rm == REG_PC then Executor.T32Shift(i.pc, i.shiftType, i.shiftN) == i.pc
      else i.rn != REG_PC && i.rm != REG_PC && i.shiftN == 0
    case T32CmnReg => i.rn != REG_PC && i.rm != REG_PC && i.shiftN == 0
    case _ => !ReadsPc(i) || Discarded(i) || ClearsAll(i)
  }

  predicate PlainAddress(a: Address) {
    match a
    case Based(rn, _) => rn != REG_PC
    case Fixed(_) => true
    case Summed(rn, rm) => rn != REG_PC && rm != REG_PC
  }

  /** R15 takes no part in the address, and is not stored; it may be loaded. */
  predicate AvoidsPc(t: Access) {
    (t.load || t.rd != REG_PC) && PlainAddress(t.a)
  }

  predicate MemoryForm(i: Insn) {
    PlainAccess(i) && forall t :: t in AccessesOf(i) ==> AvoidsPc(t)
  }

  /** A load may overwrite its own base when it does so last and writes no base back. */
  predicate MultiForm(i: Insn) {
    match i.op
    case Pop => REG_SP !in i.regs
    case T32Ldm =>
      || i.regs == {}
      || (i.rn != REG_PC && (i.rn !in i.regs || (!i.writeback && forall j: Reg :: j in i.regs ==> j <= i.rn)))
    case T32Stm => i.regs == {} || i.rn != REG_PC
    case _ => true
  }

  predicate BranchForm(i: Insn) {
    match i.op
    case BCond => i.cond < 14
    case T32BCond => i.cond != 14 || Add32(4, i.imm) == i.size
    case T32Bl => i.size == 4
    case _ => true
  }

  /** What the generator accepts. */
  predicate Accepted(i: Insn) { Supports(i.op) && NativeOk(i) }

  /** The instructions native code and interpreter agree on, whatever the state. */
  predicate NativeForm(i: Insn) {
    && Accepted(i)
    && (IsData(i.op) ==> DataForm(i))
    && (IsMemory(i.op) ==> MemoryForm(i))
    && (IsMulti(i.op) ==> MultiForm(i))
    && (IsBranch(i.op) ==> BranchForm(i))
  }

  /* Agreement. */

  /** The guest structure agrees with the interpreter's processor up to the PC, which native
      code stores only at the end of a block, and the cycle counter, which it never touches. */
  predicate Tracks(c: CpuState, g: CpuState) {
    c == g.(r := g.r[REG_PC := c.Pc()], cycles := c.cycles)
  }

  /** The processor the interpreter starts an instruction from. */
  predicate Entry(c: CpuState, g: CpuState, i: Insn) {
    Tracks(c, g) && c.Pc() == i.pc && c.itstate == 0
  }

  /** Machine states before and after the emitted code of an instruction, against the
      interpreter's outcome: same effect and fault register untouched, or fault register set. */
  ghost predicate Simulates(s: X.State, s': X.State, i: Insn, o: Outcome) {
    && Bus.RomKept(s.mem, s'.mem)
    && Quiet(s, s', if o.ok then s.x.rbx else 1, s'.guest, s'.mem)
    && s'.guest.itstate == s.guest.itstate && s'.guest.cycles == s.guest.cycles
    && (o.ok ==> Tracks(o.c, s'.guest) && o.m == s'.mem)
    && (o.ok && IsBranch(i.op) ==> s'.guest.Pc() == o.c.Pc())
    && (o.ok && !IsBranch(i.op) ==> o.c.Pc() == Add32(i.pc, i.size))
  }

  /** What the emitted code leaves, against the interpreter's outcome. */
  predicate Meets(i: Insn, e: Option<(CpuState, Bus.Memory)>, o: Outcome) {
    if o.ok then
      && e.Some? && Tracks(o.c, e.value.0) && o.m == e.value.1
      && (if IsBranch(i.op) then e.value.0.Pc() == o.c.Pc() else o.c.Pc() == Add32(i.pc, i.size))
    else e.None?
  }

  /** With a clear fault register the machine simulates exactly when the effects meet. */
  lemma SimulatesIsMeets(s: X.State, s': X.State, i: Insn, e: Option<(CpuState, Bus.Memory)>, o: Outcome)
    requires Effected(s, s', e)
    ensures Meets(i, e, o) ==> Simulates(s, s', i, o)
    ensures s.x.rbx == 0 && Simulates(s, s', i, o) ==> Meets(i, e, o)
  {
    hide Tracks, IsBranch, Bus.RomKept;
  }

  /* The interpreter, one group of instructions at a time. */

  lemma PerformData(c: CpuState, m: Bus.Memory, i: Insn, pc: u32)
    requires IsData(i.op) && !i.op.MovReg?
    ensures Executor.Perform(c, m, i, pc) == Executor.Next(Executor.DataProcessing(c, i), m, pc)
  {
    hide Executor.DataProcessing, Executor.Transfer, Executor.LoadStore, ExcEnter, ExcReturn, RaiseUndefined,
         Executor.Msr, Executor.Mrs;
  }

  lemma PerformMove(c: CpuState, m: Bus.Memory, i: Insn, pc: u32)
    requires i.op.MovReg?
    ensures var v := Executor.HiReg(c, i.rm);
      Executor.Perform(c, m, i, pc) ==
        if i.rd == REG_PC then Executor.Next(c, m, Even(v)) else Executor.Next(Executor.SetReg(c, i.rd, v), m, pc)
  {
    hide Executor.DataProcessing, Executor.Transfer, Executor.LoadStore, ExcEnter, ExcReturn, RaiseUndefined,
         Executor.Msr, Executor.Mrs, Even, Executor.HiReg;
  }

  lemma OutcomeOf(c: CpuState, m: Bus.Memory, i: Insn, e: Executor.Effect)
    requires c.itstate == 0 && Executor.Perform(c, m, i, Add32(c.Pc(), i.size)) == e
    ensures e.End? ==> Executor.Execute(c, m, i) == Outcome(e.c, e.m, e.ok)
    ensures e.Next? ==>
      Executor.Execute(c, m, i) == Outcome(Executor.SetReg(e.c, REG_PC, e.pc).(cycles := e.c.cycles + 1), e.m, true)
  {
    hide Executor.Perform, Executor.Execute;
    Executor.PlainStep(c, m, i);
  }

  lemma TracksNext(c: CpuState, g: CpuState, pc: u32, n: nat)
    requires Tracks(c, g)
    ensures Tracks(Executor.SetReg(c, REG_PC, pc).(cycles := n), g)
    ensures Executor.SetReg(c, REG_PC, pc).Pc() == pc
  {
    assert g.r[REG_PC := c.Pc()][REG_PC := pc] == g.r[REG_PC := pc];
  }

  lemma EntryPc(c: CpuState, g: CpuState, i: Insn)
    requires Entry(c, g, i)
    ensures Tracks(c, g) && c.itstate == 0 && Add32(c.Pc(), i.size) == Add32(i.pc, i.size)
  {
  }

  /** The instruction goes on, to a processor the native guest agrees with. */
  lemma MeetsNext(c: CpuState, g: CpuState, m: Bus.Memory, i: Insn, d: CpuState, m': Bus.Memory, pc: u32, e: CpuState)
    requires Entry(c, g, i) && Tracks(d, e)
    requires Executor.Perform(c, m, i, Add32(i.pc, i.size)) == Executor.Next(d, m', pc)
    requires if IsBranch(i.op) then e.Pc() == pc else pc == Add32(i.pc, i.size)
    ensures Meets(i, Some((e, m')), Executor.Execute(c, m, i))
  {
    hide Tracks, IsBranch, Executor.Perform, Executor.Execute;
    EntryPc(c, g, i);
    OutcomeOf(c, m, i, Executor.Next(d, m', pc));
    TracksNext(d, e, pc, d.cycles + 1);
  }

  lemma MeetsFault(c: CpuState, g: CpuState, m: Bus.Memory, i: Insn, e: Executor.Effect)
    requires Entry(c, g, i) && Executor.Perform(c, m, i, Add32(i.pc, i.size)) == e && e.End? && !e.ok
    ensures Meets(i, None, Executor.Execute(c, m, i))
  {
    hide Tracks, IsBranch, Executor.Perform, Executor.Execute;
    EntryPc(c, g, i);
    OutcomeOf(c, m, i, e);
  }

  /* Data processing. */

  lemma ShapedTracks(c: CpuState, g: CpuState, i: Insn)
    requires Tracks(c, g) && IsData(i.op) && (!ReadsPc(i) || Discarded(i) || ClearsAll(i))
    ensures Tracks(Shaped(c, ShapeOf(i), i.rd), Shaped(g, ShapeOf(i), i.rd))
  {
    hide Updated, Result, ShapeOf, And32, Or32, Xor32, IsData;
    var sh := ShapeOf(i);
    SourceReg(i);
    if !ReadsPc(i) {
      SameOperands(c, g, i);
    } else if !Discarded(i) {
      NothingLeft(c.apsr, c.r[sh.rn], g.r[sh.rn], sh.upd);
    } else {
      KeptFlags(c.apsr, sh.op, c.r[sh.rn], Value(c.r, sh.src));
      KeptFlags(g.apsr, sh.op, g.r[sh.rn], Value(g.r, sh.src));
    }
    var x := Result(sh.op, g.r[sh.rn], Value(g.r, sh.src));
    var y := Result(sh.op, c.r[sh.rn], Value(c.r, sh.src));
    if sh.store {
      assert c.r[i.rd := y] == g.r[i.rd := x][REG_PC := c.r[i.rd := y][REG_PC]];
    }
  }

  lemma KeptFlags(apsr: u32, op: Arith, a: u32, b: u32)
    ensures Updated(apsr, op, KeepFlags, a, b) == apsr
  {
  }

  lemma NothingLeft(apsr: u32, a: u32, b: u32, upd: Update)
    ensures Result(ArAnd, a, 0) == Result(ArAnd, b, 0) == 0
    ensures !upd.UpdateNzcv? ==> Updated(apsr, ArAnd, upd, a, 0) == Updated(apsr, ArAnd, upd, b, 0)
  {
    hide FlagsNz;
    AndZero(a, 32);
    AndZero(b, 32);
  }

  lemma SameOperands(c: CpuState, g: CpuState, i: Insn)
    requires Tracks(c, g) && IsData(i.op) && !ReadsPc(i)
    ensures var sh := ShapeOf(i);
      && Result(sh.op, c.r[sh.rn], Value(c.r, sh.src)) == Result(sh.op, g.r[sh.rn], Value(g.r, sh.src))
      && Updated(c.apsr, sh.op, sh.upd, c.r[sh.rn], Value(c.r, sh.src)) ==
        Updated(g.apsr, sh.op, sh.upd, g.r[sh.rn], Value(g.r, sh.src))
  {
    hide And32, Or32, Xor32, FlagsAdd, FlagsSub, FlagsNz, Add32, Sub32, ShapeOf, IsData;
    SourceReg(i);
  }

  lemma SourceReg(i: Insn)
    requires IsData(i.op)
    ensures var sh := ShapeOf(i);
      && (sh.src.FromReg? ==> sh.src.j == i.rm) && (sh.src.Const? ==> sh.src.v == i.imm)
      && (!sh.op.ArMov? ==> sh.rn == i.rn) && (sh.op.ArMov? ==> !sh.upd.UpdateNzcv?)
      && (sh.op.ArAnd? ==> !sh.upd.UpdateNzcv?)
  {
  }

  /** Comparing a word with itself gives the same flags for every word. */
  lemma SelfCompare(apsr: u32, a: u32, b: u32)
    ensures FlagsSub(apsr, a, a, Sub32(a, a)) == FlagsSub(apsr, b, b, Sub32(b, b))
  {
    hide FlagsSub, Nzcv;
    SubFlagsMeaning(apsr, a, a);
    SubFlagsMeaning(apsr, b, b);
  }

  /** A comparison of R15 with itself does not depend on its value. */
  lemma PcWithItself(c: CpuState, g: CpuState, i: Insn)
    requires Tracks(c, g) && c.Pc() == i.pc && i.rn == REG_PC && i.rm == REG_PC && DataForm(i)
    requires i.op.CmpRegT2? || i.op.T32CmpReg?
    ensures Tracks(Executor.DataProcessing(c, i), Shaped(g, ShapeOf(i), i.rd))
  {
    hide FlagsSub, Sub32, Executor.T32Shift;
    SelfCompare(c.apsr, i.pc, g.Pc());
    SelfCompare(c.apsr, Executor.HiReg(c, REG_PC), g.Pc());
  }

  lemma DataTracks(c: CpuState, g: CpuState, i: Insn)
    requires Tracks(c, g) && c.Pc() == i.pc && IsData(i.op) && DataForm(i) && !i.op.MovReg?
    ensures Tracks(Executor.DataProcessing(c, i), Shaped(g, ShapeOf(i), i.rd))
  {
    if (i.op.CmpRegT2? || i.op.T32CmpReg?) && i.rn == REG_PC && i.rm == REG_PC {
      PcWithItself(c, g, i);
    } else {
      hide Executor.DataProcessing, Shaped, Tracks, Executor.T32Shift;
      DataProcessingShape(c, i);
      ShapedTracks(c, g, i);
    }
  }

  /** A plain move is the shape the generator emits. */
  lemma MoveShape(c: CpuState, i: Insn)
    requires i.op.MovReg? && DataForm(i)
    ensures Executor.SetReg(c, i.rd, Executor.HiReg(c, i.rm)) == Shaped(c, ShapeOf(i), i.rd)
    ensures !ReadsPc(i)
  {
  }

  lemma DataMeets(c: CpuState, g: CpuState, m: Bus.Memory, i: Insn)
    requires IsData(i.op) && DataForm(i) && Entry(c, g, i)
    ensures Meets(i, Some((Shaped(g, ShapeOf(i), i.rd), m)), Executor.Execute(c, m, i))
  {
    hide Executor.DataProcessing, Executor.Perform, Executor.Execute, Shaped, ShapeOf, Tracks, DataForm, Meets, IsData,
         ReadsPc;
    var pc := Add32(i.pc, i.size);
    EntryPc(c, g, i);
    NoBranch(i.op);
    if i.op.MovReg? {
      PerformMove(c, m, i, pc);
      MoveShape(c, i);
      ShapedTracks(c, g, i);
      NotToPc(i);
      MeetsNext(c, g, m, i, Executor.SetReg(c, i.rd, Executor.HiReg(c, i.rm)), m, pc, Shaped(g, ShapeOf(i), i.rd));
    } else {
      PerformData(c, m, i, pc);
      DataTracks(c, g, i);
      MeetsNext(c, g, m, i, Executor.DataProcessing(c, i), m, pc, Shaped(g, ShapeOf(i), i.rd));
    }
  }

  lemma NotToPc(i: Insn)
    requires i.op.MovReg? && DataForm(i)
    ensures i.rd != REG_PC
  {
  }

  lemma NoBranch(op: Op)
    requires IsData(op) || IsMemory(op) || IsMulti(op)
    ensures !IsBranch(op)
  {
    hide IsData, IsMemory, IsMulti;
    if IsBranch(op) {
      BranchOp(op);
    }
  }

  /* Loads and stores. */

  /** Registers other than the PC. */
  predicate SameButPc(r: Regs, q: Regs) {
    r == q[REG_PC := r[REG_PC]]
  }

  lemma SameAddress(r: Regs, q: Regs, t: Access)
    requires SameButPc(r, q) && AvoidsPc(t)
    ensures AddressOf(r, t.a) == AddressOf(q, t.a) && (!t.load ==> r[t.rd] == q[t.rd])
  {
  }

  lemma SameLoaded(r: Regs, q: Regs, rd: Reg, v: u32)
    requires SameButPc(r, q)
    ensures SameButPc(r[rd := v], q[rd := v])
  {
    if rd != REG_PC {
      assert q[REG_PC := r[REG_PC]][rd := v] == q[rd := v][REG_PC := r[REG_PC]];
    } else {
      assert q[REG_PC := r[REG_PC]][rd := v] == q[rd := v];
      assert q[rd := v][REG_PC := v] == q[rd := v];
    }
  }

  lemma SameAccess(r: Regs, q: Regs, m: Bus.Memory, t: Access)
    requires SameButPc(r, q) && AvoidsPc(t)
    ensures NativeAccess.Perform(r, m, t).Some? == NativeAccess.Perform(q, m, t).Some?
    ensures NativeAccess.Perform(r, m, t).Some? ==>
      && SameButPc(NativeAccess.Perform(r, m, t).value.0, NativeAccess.Perform(q, m, t).value.0)
      && NativeAccess.Perform(r, m, t).value.1 == NativeAccess.Perform(q, m, t).value.1
  {
    hide Bus.Read, Bus.Write, AddressOf;
    SameAddress(r, q, t);
    var v := Bus.Read(m, AddressOf(r, t.a), t.n);
    if v.Some? {
      SameLoaded(r, q, t.rd, v.value);
    }
  }

  lemma {:induction false} SameAccesses(r: Regs, q: Regs, m: Bus.Memory, ts: seq<Access>)
    requires SameButPc(r, q) && forall t :: t in ts ==> AvoidsPc(t)
    ensures PerformAll(r, m, ts).Some? == PerformAll(q, m, ts).Some?
    ensures PerformAll(r, m, ts).Some? ==>
      && SameButPc(PerformAll(r, m, ts).value.0, PerformAll(q, m, ts).value.0)
      && PerformAll(r, m, ts).value.1 == PerformAll(q, m, ts).value.1
    decreases |ts|
  {
    hide NativeAccess.Perform, SameButPc, AvoidsPc;
    if |ts| != 0 {
      SameAccess(r, q, m, ts[0]);
      if NativeAccess.Perform(r, m, ts[0]).Some? {
        SameAccesses(NativeAccess.Perform(r, m, ts[0]).value.0, NativeAccess.Perform(q, m, ts[0]).value.0,
          NativeAccess.Perform(r, m, ts[0]).value.1, ts[1..]);
      }
    }
  }

  lemma TracksRegs(c: CpuState, g: CpuState, r: Regs, q: Regs)
    requires Tracks(c, g) && SameButPc(r, q)
    ensures Tracks(c.(r := r), g.(r := q))
  {
  }

  lemma TracksSame(c: CpuState, g: CpuState)
    requires Tracks(c, g)
    ensures SameButPc(c.r, g.r)
  {
  }

  lemma MemoryMeets(c: CpuState, g: CpuState, m: Bus.Memory, i: Insn)
    requires IsMemory(i.op) && MemoryForm(i) && Entry(c, g, i)
    ensures Meets(i, WithRegs(g, PerformAll(g.r, m, AccessesOf(i))), Executor.Execute(c, m, i))
  {
    hide AccessesOf, PerformAll, Tracks, SameButPc, Executor.Execute, Executor.Perform, Executor.LoadStore, PlainAccess,
         AvoidsPc, Meets;
    var ts, pc := AccessesOf(i), Add32(i.pc, i.size);
    EntryPc(c, g, i);
    NoBranch(i.op);
    Executor.PerformsAccess(c, m, i, pc);
    LoadStoreShape(c, m, i, pc);
    TracksSame(c, g);
    SameAccesses(c.r, g.r, m, ts);
    var o, p := PerformAll(c.r, m, ts), PerformAll(g.r, m, ts);
    if o.Some? {
      TracksRegs(c, g, o.value.0, p.value.0);
      MeetsNext(c, g, m, i, c.(r := o.value.0), o.value.1, pc, g.(r := p.value.0));
    } else {
      MeetsFault(c, g, m, i, Executor.LoadStore(c, m, i, pc));
    }
  }

  /* Multiple transfers. */

  /** The list the interpreter walks names the registers native code transfers. */
  predicate SameList(t: Multi, regs: set<Reg>, hi: nat) {
    forall k: Reg :: k in t.regs <==> k in regs && k < hi
  }

  /** Storing: the interpreter's loop is the transfer. */
  lemma {:induction false} StoresAgree(t: Multi, q: Regs, m: Bus.Memory, r: Regs, regs: set<Reg>, j: nat,
      hi: nat, a: u32)
    requires !t.load && j <= hi <= 16 && SameList(t, regs, hi)
    requires forall k: Reg :: k in t.regs ==> r[k] == Stored(t, q, k)
    ensures var o := TransferFrom(t, q, m, j, a); var e := Executor.StoreRegs(m, r, regs, j, hi, a);
      if o.Some? then o.value.0 == q && e == (o.value.1, true) else !e.1
    decreases 16 - j
  {
    hide Bus.Write, Stored;
    if j == hi {
      NoneListed(t, q, m, hi, a);
    } else if j !in regs {
      StoresAgree(t, q, m, r, regs, j + 1, hi, a);
    } else {
      assert j in t.regs;
      var o := Bus.Write(m, a, 4, r[j]);
      if o.Some? {
        StoresAgree(t, q, o.value, r, regs, j + 1, hi, Add32(a, 4));
      }
    }
  }

  /** Loading registers other than the PC: the interpreter's loop is the transfer. */
  lemma {:induction false} LoadsAgree(t: Multi, q: Regs, m: Bus.Memory, r: Regs, j: nat, a: u32)
    requires t.load && j <= 16 && REG_PC !in t.regs && SameButPc(r, q)
    ensures var o := TransferFrom(t, q, m, j, a); var e := Executor.LoadRegs(m, r, t.regs, j, 16, a);
      if o.Some? then o.value.1 == m && e.1 && SameButPc(e.0, o.value.0) && e.0[REG_PC] == r[REG_PC] else !e.1
    decreases 16 - j
  {
    hide Bus.Read, SameButPc;
    if j == 16 {
    } else if j !in t.regs {
      LoadsAgree(t, q, m, r, j + 1, a);
    } else {
      var v := Bus.Read(m, a, 4);
      if v.Some? {
        SameLoaded(r, q, j, v.value);
        LoadsAgree(t, q[j := v.value], m, r[j := v.value], j + 1, Add32(a, 4));
      }
    }
  }

  lemma {:induction false} BaseUnmoved(t: Multi, q: Regs, m: Bus.Memory, j: nat, a: u32)
    requires j <= 16 && (t.load ==> t.base !in t.regs) && TransferFrom(t, q, m, j, a).Some?
    ensures TransferFrom(t, q, m, j, a).value.0[t.base] == q[t.base]
    decreases 16 - j
  {
    hide Bus.Read, Bus.Write;
    if j == 16 {
    } else if j !in t.regs {
      BaseUnmoved(t, q, m, j + 1, a);
    } else {
      var o := TransferOne(t, q, m, j, a).value;
      BaseUnmoved(t, o.0, o.1, j + 1, Add32(a, 4));
    }
  }

  lemma {:induction false} CountSame(a: set<Reg>, b: set<Reg>, k: nat)
    requires k <= 16 && forall j: Reg :: j < k ==> (j in a <==> j in b)
    ensures Count(a, k) == Count(b, k)
    decreases k
  {
    if k != 0 {
      CountSame(a, b, k - 1);
    }
  }

  /** The interpreter's effect e, as registers r and memory for a transfer the native code made. */
  predicate Matches(e: Executor.Effect, c: CpuState, o: Option<(Regs, Bus.Memory)>, pc: u32) {
    if o.Some? then
      && e.Next? && e.m == o.value.1 && e.pc == pc && e.c == c.(r := e.c.r)
      && SameButPc(e.c.r, o.value.0)
    else e.End? && !e.ok
  }

  lemma MatchesMeets(c: CpuState, g: CpuState, m: Bus.Memory, i: Insn, o: Option<(Regs, Bus.Memory)>)
    requires Entry(c, g, i) && !IsBranch(i.op)
    requires Matches(Executor.Perform(c, m, i, Add32(i.pc, i.size)), c, o, Add32(i.pc, i.size))
    ensures Meets(i, WithRegs(g, o), Executor.Execute(c, m, i))
  {
    hide Executor.Execute, Executor.Perform, Tracks, SameButPc, Meets;
    var e := Executor.Perform(c, m, i, Add32(i.pc, i.size));
    EntryPc(c, g, i);
    if o.Some? {
      TracksRegs(c, g, e.c.r, o.value.0);
      MeetsNext(c, g, m, i, e.c, e.m, e.pc, g.(r := o.value.0));
    } else {
      MeetsFault(c, g, m, i, e);
    }
  }

  lemma PushList(i: Insn)
    ensures var t := PushMulti(i);
      SameList(t, i.regs, 15) && t.Words() == Count(i.regs, 15) && !t.load && !t.down && !t.wb && t.base == REG_SP &&
        BaseSafe(t)
  {
    var t := PushMulti(i);
    assert Count(t.regs, 16) == Count(t.regs, 15);
    CountSame(t.regs, i.regs, 15);
  }

  lemma PerformPush(c: CpuState, m: Bus.Memory, i: Insn, g: Regs, pc: u32)
    requires i.op.Push? && SameButPc(c.r, g)
    ensures Matches(Executor.Perform(c, m, i, pc), c, Transferred(PushMulti(i), Prepared(i, g), m), pc)
  {
    hide Executor.Perform, Executor.StoreRegs, TransferFrom, Count;
    var t := PushMulti(i);
    PushList(i);
    Executor.PerformsTransfer(c, m, i, pc);
    var sp := Sub32(g[REG_SP], t.Len());
    var q := g[REG_SP := sp];
    SameLoaded(c.r, g, REG_SP, sp);
    StoresAgree(t, q, m, c.r[REG_SP := sp], i.regs, 0, 15, sp);
  }

  /** The base written back by the interpreter is the one native code computes. */
  lemma SameWriteback(t: Multi, r: Regs, q: Regs)
    requires SameButPc(r, q) && t.base != REG_PC
    ensures SameButPc(WroteBack(t, r), WroteBack(t, q)) && WroteBack(t, r)[REG_PC] == r[REG_PC]
  {
    hide Count;
    if t.wb {
      SameLoaded(r, q, t.base, NewBase(t, r));
    }
  }

  /** Pop, and LDM without the PC, as a transfer. */
  lemma LoadMatches(t: Multi, q: Regs, m: Bus.Memory, r: Regs)
    requires t.load && REG_PC !in t.regs && t.base != REG_PC && SameButPc(r, q)
    ensures var o := Transferred(t, q, m); var e := Executor.LoadRegs(m, r, t.regs, 0, 16, Start(t, q));
      if o.Some? then o.value.1 == m && e.1 && SameButPc(WroteBack(t, e.0), o.value.0) && e.0[REG_PC] == r[REG_PC]
                      && (t.base !in t.regs ==> NewBase(t, e.0) == NewBase(t, r) && e.0[t.base] == r[t.base])
      else !e.1
  {
    hide TransferFrom, Executor.LoadRegs, Count, SameButPc, Start, WroteBack;
    var a := Start(t, q);
    LoadsAgree(t, q, m, r, 0, a);
    var o := TransferFrom(t, q, m, 0, a);
    if o.Some? {
      var e := Executor.LoadRegs(m, r, t.regs, 0, 16, a);
      SameWriteback(t, e.0, o.value.0);
      if t.base !in t.regs {
        BaseUnmoved(t, q, m, 0, a);
        SameAt(r, q, t.base);
        SameAt(e.0, o.value.0, t.base);
        SameNewBase(t, e.0, r);
      }
    }
  }

  lemma SameAt(r: Regs, q: Regs, j: Reg)
    requires SameButPc(r, q) && j != REG_PC
    ensures r[j] == q[j]
  {
  }

  lemma SameNewBase(t: Multi, r: Regs, q: Regs)
    requires r[t.base] == q[t.base]
    ensures NewBase(t, r) == NewBase(t, q)
  {
  }

  lemma PerformPop(c: CpuState, m: Bus.Memory, i: Insn, g: Regs, pc: u32)
    requires i.op.Pop? && REG_PC !in i.regs && REG_SP !in i.regs && SameButPc(c.r, g)
    ensures Matches(Executor.Perform(c, m, i, pc), c, Transferred(PopMulti(i), g, m), pc)
  {
    hide Executor.Perform, Executor.LoadRegs, Count, TransferFrom, SameButPc, ExcReturn;
    var t := PopMulti(i);
    Executor.PerformsTransfer(c, m, i, pc);
    LoadMatches(t, g, m, c.r);
    SameAt(c.r, g, REG_SP);
    var e := Executor.LoadRegs(m, c.r, i.regs, 0, 16, c.r[REG_SP]);
    if e.1 {
      KeepPc(e.0, c.Pc());
    }
  }

  lemma KeepPc(r: Regs, pc: u32)
    requires r[REG_PC] == pc
    ensures r[REG_PC := pc] == r
  {
  }

  lemma PerformLdm(c: CpuState, m: Bus.Memory, i: Insn, g: Regs, pc: u32)
    requires i.op.T32Ldm? && REG_PC !in i.regs && i.rn != REG_PC && SameButPc(c.r, g)
    requires i.writeback ==> i.rn !in i.regs
    ensures Matches(Executor.Perform(c, m, i, pc), c, Transferred(LdmStmMulti(i), g, m), pc)
  {
    hide Executor.Perform, Executor.LoadRegs, Count, TransferFrom, SameButPc;
    var t := LdmStmMulti(i);
    Executor.PerformsTransfer(c, m, i, pc);
    LoadMatches(t, g, m, c.r);
    SameAt(c.r, g, i.rn);
    assert Start(t, g) == Executor.MultipleStart(c, i);
    var e := Executor.LoadRegs(m, c.r, i.regs, 0, 16, Start(t, g));
    if e.1 {
      KeepPc(e.0, c.Pc());
      assert NewBase(t, c.r) == Executor.MultipleEnd(c, i);
    }
  }

  lemma PerformStm(c: CpuState, m: Bus.Memory, i: Insn, g: Regs, pc: u32)
    requires i.op.T32Stm? && i.rn != REG_PC && c.Pc() == i.pc && SameButPc(c.r, g)
    ensures Matches(Executor.Perform(c, m, i, pc), c, Transferred(LdmStmMulti(i), g, m), pc)
  {
    hide Executor.Perform, Executor.StoreRegs, Count, TransferFrom, SameButPc;
    var t := LdmStmMulti(i);
    Executor.PerformsTransfer(c, m, i, pc);
    SameAt(c.r, g, i.rn);
    var r := c.r[REG_PC := Add32(c.Pc(), 4)];
    StoredSame(t, c.r, g);
    StoresAgree(t, g, m, r, i.regs, 0, 16, Start(t, g));
    assert Start(t, g) == Executor.MultipleStart(c, i);
    assert NewBase(t, c.r) == Executor.MultipleEnd(c, i);
    SameWriteback(t, c.r, g);
  }

  lemma StoredSame(t: Multi, r: Regs, q: Regs)
    requires SameButPc(r, q)
    ensures forall k: Reg :: r[REG_PC := t.pcWord][k] == Stored(t, q, k)
  {
  }

  lemma {:induction false} NothingLoaded(m: Bus.Memory, r: Regs, k: nat, a: u32)
    requires k <= 16
    ensures Executor.LoadRegs(m, r, {}, k, 16, a) == (r, true) && Executor.StoreRegs(m, r, {}, k, 16, a) == (m, true)
    decreases 16 - k
  {
    if k != 16 {
      NothingLoaded(m, r, k + 1, a);
    }
  }

  lemma {:induction false} CountNone(k: nat)
    requires k <= 16
    ensures Count({}, k) == 0
    decreases k
  {
    if k != 0 {
      CountNone(k - 1);
    }
  }

  lemma ZeroLen(a: u32)
    ensures Add32(a, 0) == a && Sub32(a, 0) == a
  {
  }

  lemma SelfUpdate(r: Regs, j: Reg)
    ensures r[j := r[j]] == r
  {
  }

  /** An empty list loads, stores and moves nothing, whatever the base. */
  lemma PerformNone(c: CpuState, m: Bus.Memory, i: Insn, pc: u32)
    requires (i.op.T32Ldm? || i.op.T32Stm?) && i.regs == {}
    ensures Executor.Perform(c, m, i, pc) == Executor.Next(c, m, pc)
  {
    hide Executor.Perform, Executor.LoadRegs, Executor.StoreRegs, Count, Add32, Sub32;
    Executor.PerformsTransfer(c, m, i, pc);
    CountNone(16);
    ZeroLen(c.r[i.rn]);
    SelfUpdate(c.r, REG_PC);
    SelfUpdate(c.r, i.rn);
    NothingLoaded(m, c.r, 0, Executor.MultipleStart(c, i));
    NothingLoaded(m, c.r[REG_PC := Add32(c.Pc(), 4)], 0, Executor.MultipleStart(c, i));
  }

  lemma NoneMatches(c: CpuState, m: Bus.Memory, i: Insn, g: Regs, pc: u32)
    requires (i.op.T32Ldm? || i.op.T32Stm?) && i.regs == {} && SameButPc(c.r, g)
    ensures Matches(Executor.Perform(c, m, i, pc), c, SlowTransferred(LdmStmMulti(i), g, m), pc)
  {
    hide Executor.Perform, SlowTransferred, SameButPc, Count;
    PerformNone(c, m, i, pc);
    CountNone(16);
    EmptyTransfer(LdmStmMulti(i), g, m);
  }

  lemma PerformMultiple(c: CpuState, m: Bus.Memory, i: Insn, g: Regs, pc: u32)
    requires IsMulti(i.op) && NativeOk(i) && MultiForm(i) && c.Pc() == i.pc && SameButPc(c.r, g)
    ensures BaseSafe(MultiOf(i))
    ensures Matches(Executor.Perform(c, m, i, pc), c, SlowTransferred(MultiOf(i), Prepared(i, g), m), pc)
  {
    hide Transferred, SlowTransferred, Executor.Perform, SameButPc, Matches;
    if (i.op.T32Ldm? || i.op.T32Stm?) && i.regs == {} {
      NoneMatches(c, m, i, g, pc);
    } else {
      SlowIsTransferred(MultiOf(i), Prepared(i, g), m);
      if i.op.Push? {
        PerformPush(c, m, i, g, pc);
      } else if i.op.Pop? {
        PerformPop(c, m, i, g, pc);
      } else if i.op.T32Ldm? {
        PerformLdm(c, m, i, g, pc);
      } else {
        PerformStm(c, m, i, g, pc);
      }
    }
  }

  lemma MultiMeets(c: CpuState, g: CpuState, m: Bus.Memory, i: Insn)
    requires IsMulti(i.op) && NativeOk(i) && MultiForm(i) && Entry(c, g, i)
    ensures Meets(i, WithRegs(g, SlowTransferred(MultiOf(i), Prepared(i, g.r), m)), Executor.Execute(c, m, i))
  {
    hide Executor.Execute, Executor.Perform, Tracks, SameButPc, Count, Matches, MultiOf, SlowTransferred, Prepared,
         Meets, MultiForm, IsMulti, NativeOk;
    EntryPc(c, g, i);
    NoBranch(i.op);
    TracksSame(c, g);
    PerformMultiple(c, m, i, g.r, Add32(i.pc, i.size));
    MatchesMeets(c, g, m, i, SlowTransferred(MultiOf(i), Prepared(i, g.r), m));
  }

  /* Branches and no-ops. */

  lemma PerformBranch(c: CpuState, m: Bus.Memory, i: Insn)
    requires IsBranch(i.op) && BranchForm(i) && c.Pc() == i.pc
    ensures Executor.Perform(c, m, i, Add32(i.pc, i.size)) ==
      Executor.Next(c.(r := Linked(c.r, i)), m, StoredPc(c.apsr, i))
  {
    hide Executor.DataProcessing, Executor.Transfer, Executor.LoadStore, ExcEnter, ExcReturn, RaiseUndefined,
         Executor.Msr, Executor.Mrs, Executor.CondPass;
  }

  lemma TracksLinked(c: CpuState, g: CpuState, i: Insn)
    requires Tracks(c, g)
    ensures StoredPc(c.apsr, i) == StoredPc(g.apsr, i)
    ensures Tracks(c.(r := Linked(c.r, i)), g.(r := Linked(g.r, i)[REG_PC := StoredPc(g.apsr, i)]))
  {
    hide StoredPc, Even, SetThumb;
    var pc := StoredPc(g.apsr, i);
    assert Linked(g.r[REG_PC := c.Pc()], i) == Linked(g.r, i)[REG_PC := c.Pc()];
    assert Linked(g.r, i)[REG_PC := pc][REG_PC := c.Pc()] == Linked(g.r, i)[REG_PC := c.Pc()];
    assert Linked(c.r, i)[REG_PC] == c.Pc();
  }

  lemma BranchMeets(c: CpuState, g: CpuState, m: Bus.Memory, i: Insn)
    requires IsBranch(i.op) && BranchForm(i) && Entry(c, g, i)
    ensures Meets(i, Some((g.(r := Linked(g.r, i)[REG_PC := StoredPc(g.apsr, i)]), m)), Executor.Execute(c, m, i))
  {
    hide Executor.Execute, Executor.Perform, Tracks, StoredPc, Linked, BranchForm, Meets;
    EntryPc(c, g, i);
    PerformBranch(c, m, i);
    TracksLinked(c, g, i);
    MeetsNext(c, g, m, i, c.(r := Linked(c.r, i)), m, StoredPc(c.apsr, i),
      g.(r := Linked(g.r, i)[REG_PC := StoredPc(g.apsr, i)]));
  }

  predicate IsNop(op: Op) { op.Nop? || op.T32Nop? }

  lemma PerformNop(c: CpuState, m: Bus.Memory, i: Insn, pc: u32)
    requires IsNop(i.op)
    ensures Executor.Perform(c, m, i, pc) == Executor.Next(c, m, pc)
  {
    hide Executor.DataProcessing, Executor.Transfer, Executor.LoadStore, ExcEnter, ExcReturn, RaiseUndefined,
         Executor.Msr, Executor.Mrs;
  }

  lemma NopMeets(c: CpuState, g: CpuState, m: Bus.Memory, i: Insn)
    requires IsNop(i.op) && Entry(c, g, i)
    ensures Meets(i, Some((g, m)), Executor.Execute(c, m, i))
  {
    hide Executor.Execute, Executor.Perform, Tracks, Meets;
    EntryPc(c, g, i);
    PerformNop(c, m, i, Add32(i.pc, i.size));
    MeetsNext(c, g, m, i, c, m, Add32(i.pc, i.size), g);
  }

  /* Every form. */

  /** On these forms the emitted code has the interpreter's effect, from every state. */
  lemma FormMeets(c: CpuState, g: CpuState, m: Bus.Memory, i: Insn)
    requires NativeForm(i) && Entry(c, g, i)
    ensures Meets(i, Emitted(i, g, m), Executor.Execute(c, m, i))
  {
    hide Executor.Execute, Tracks, Meets, Entry, DataForm, MemoryForm, MultiForm, BranchForm, NativeOk, Shaped, ShapeOf,
         AccessesOf, PerformAll, SlowTransferred, MultiOf, Prepared, StoredPc, Linked;
    if IsData(i.op) {
      DataMeets(c, g, m, i);
    } else if IsMemory(i.op) {
      MemoryMeets(c, g, m, i);
    } else if IsMulti(i.op) {
      MultiMeets(c, g, m, i);
    } else if IsBranch(i.op) {
      BranchMeets(c, g, m, i);
    } else {
      NopMeets(c, g, m, i);
    }
  }

  lemma FormIsSafe(i: Insn)
    requires NativeForm(i) && IsMulti(i.op)
    ensures BaseSafe(MultiOf(i))
  {
    hide IsData, IsMemory, IsBranch, DataForm, MemoryForm, BranchForm;
  }

  /** One supported instruction: the emitted code has the interpreter's effect on registers,
      flags and memory, or, when the interpreter faults, sets the fault register and goes on. */
  lemma SimOp(h: X.Host, env: Env, i: Insn, k: Code, s: X.State, c: CpuState) returns (s': X.State)
    requires Ready(h, s) && EnvFits(h, env, s.mem) && s.x.rbx < 2 && NativeForm(i) && Entry(c, s.guest, i)
    ensures Exec(h, OpCode(env, i, k), s) == Exec(h, k, s')
    ensures Simulates(s, s', i, Executor.Execute(c, s.mem, i))
  {
    hide Exec, HostOk, OpCode, Executor.Execute, Entry, SramOk, Simulates, Emitted, Effected, Meets, DataForm,
         MemoryForm, MultiForm, BranchForm, BaseSafe;
    if IsMulti(i.op) {
      FormIsSafe(i);
    }
    s' := RunOp(h, env, i, k, s);
    FormMeets(c, s.guest, s.mem, i);
    SimulatesIsMeets(s, s', i, Emitted(i, s.guest, s.mem), Executor.Execute(c, s.mem, i));
  }
}
