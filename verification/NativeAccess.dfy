/** Loads and stores: native code performs the accesses the interpreter performs, and
    a bus fault on either side is a fault on the other. */
module NativeAccess {
  import opened Words
  import opened Cpu
  import opened Insn
  import opened Asm
  import opened Codegen
  import opened NativeRun
  import opened NativeSteps
  import opened NativeFlags
  import opened NativeMemory
  import X = X86
  import Bus
  import Executor
  import Nvic

  /** How an address is formed. */
  datatype Address = Based(rn: Reg, imm: u32) | Fixed(a: u32) | Summed(rn: Reg, rm: Reg)

  function AddressOf(r: Regs, a: Address): u32 {
    match a
    case Based(rn, imm) => Add32(r[rn], imm)
    case Fixed(v) => v
    case Summed(rn, rm) => Add32(r[rn], r[rm])
  }

  /** One transfer of n bytes between register rd and memory. */
  datatype Access = Access(load: bool, n: Bus.Width, rd: Reg, a: Address)

  /** The accesses of an instruction, in order. */
  function AccessesOf(i: Insn): seq<Access> {
    var based, summed := Based(i.rn, i.imm), Summed(i.rn, i.rm);
    match i.op
    case LdrImm => [Access(true, 4, i.rd, based)]
    case T32LdrImm => [Access(true, 4, i.rd, based)]
    case LdrbImm => [Access(true, 1, i.rd, based)]
    case T32LdrbImm => [Access(true, 1, i.rd, based)]
    case LdrhImm => [Access(true, 2, i.rd, based)]
    case T32LdrhImm => [Access(true, 2, i.rd, based)]
    case StrImm => [Access(false, 4, i.rd, based)]
    case T32StrImm => [Access(false, 4, i.rd, based)]
    case StrbImm => [Access(false, 1, i.rd, based)]
    case T32StrbImm => [Access(false, 1, i.rd, based)]
    case StrhImm => [Access(false, 2, i.rd, based)]
    case T32StrhImm => [Access(false, 2, i.rd, based)]
    case LdrSp => [Access(true, 4, i.rd, Based(REG_SP, i.imm))]
    case StrSp => [Access(false, 4, i.rd, Based(REG_SP, i.imm))]
    case LdrLit => [Access(true, 4, i.rd, Fixed(LiteralAddress(i)))]
    case T32LdrLit => [Access(true, 4, i.rd, Fixed(LiteralAddress(i)))]
    case LdrReg => [Access(true, 4, i.rd, summed)]
    case T32LdrReg => [Access(true, 4, i.rd, summed)]
    case StrReg => [Access(false, 4, i.rd, summed)]
    case T32StrReg => [Access(false, 4, i.rd, summed)]
    case T32LdrdImm => [Access(true, 4, i.rd, based), Access(true, 4, i.rs, Based(i.rn, Add32(i.imm, 4)))]
    case _ => [Access(false, 4, i.rd, based), Access(false, 4, i.rs, Based(i.rn, Add32(i.imm, 4)))]
  }

  /** Registers and memory after one access; None on a bus fault. */
  function Perform(r: Regs, m: Bus.Memory, t: Access): Option<(Regs, Bus.Memory)> {
    if t.load then
      match Bus.Read(m, AddressOf(r, t.a), t.n) case None => None case Some(v) => Some((r[t.rd := v], m))
    else
      match Bus.Write(m, AddressOf(r, t.a), t.n, r[t.rd]) case None => None case Some(m') => Some((r, m'))
  }

  function PerformAll(r: Regs, m: Bus.Memory, ts: seq<Access>): Option<(Regs, Bus.Memory)>
    decreases |ts|
  {
    if |ts| == 0 then Some((r, m))
    else match Perform(r, m, ts[0]) case None => None case Some((r', m')) => PerformAll(r', m', ts[1..])
  }

  /* The generator's side. */

  function AddressCode(a: Address, k: Code): Code {
    match a
    case Based(rn, imm) => R(LdEax, rn, AddOffset(imm, k))
    case Fixed(v) => I(MovEax, v, k)
    case Summed(rn, rm) => R(LdEax, rn, R(LdEcx, rm, P(OpAddEc, k)))
  }

  function AccessCode(env: Env, t: Access, k: Code): Code {
    AddressCode(t.a, if t.load then LoadFromEax(env, t.rd, t.n, k) else StoreFromEax(env, t.rd, t.n, k))
  }

  function AccessesCode(env: Env, ts: seq<Access>, k: Code): Code {
    if |ts| == 0 then k else AccessCode(env, ts[0], AccessesCode(env, ts[1..], k))
  }

  lemma One(env: Env, t: Access, k: Code)
    ensures AccessesCode(env, [t], k) == AccessCode(env, t, k)
  {
    assert [t][1..] == [];
  }

  lemma Two(env: Env, t: Access, t': Access, k: Code)
    ensures AccessesCode(env, [t, t'], k) == AccessCode(env, t, AccessCode(env, t', k))
  {
    assert [t, t'][1..] == [t'];
    One(env, t', k);
  }

  lemma MemoryCodeShape(env: Env, i: Insn, k: Code)
    requires IsMemory(i.op)
    ensures MemoryCode(env, i, k) == AccessesCode(env, AccessesOf(i), k)
  {
    hide LoadFromEax, StoreFromEax, AccessesCode;
    var ts := AccessesOf(i);
    if |ts| == 1 {
      One(env, ts[0], k);
    } else {
      Two(env, ts[0], ts[1], k);
    }
    match i.op
    case LdrImm =>
    case T32LdrImm =>
    case LdrbImm =>
    case T32LdrbImm =>
    case LdrhImm =>
    case T32LdrhImm =>
    case StrImm =>
    case T32StrImm =>
    case StrbImm =>
    case T32StrbImm =>
    case StrhImm =>
    case T32StrhImm =>
    case LdrSp =>
    case StrSp =>
    case LdrLit =>
    case T32LdrLit =>
    case LdrReg =>
    case T32LdrReg =>
    case StrReg =>
    case T32StrReg =>
    case _ =>
  }

  /* Running one access. */

  lemma AddressMeans(imm: u32)
    ensures Meaning(Imm32(AddEax, imm)) == X.AluRI(X.ADD, false, X.RAX, imm)
    ensures Meaning(Imm32(MovEax, imm)) == X.MovRI(X.RAX, imm)
    ensures Meaning(Plain(OpAddEc)) == X.AluRR(X.ADD, false, X.RAX, X.RCX)
  {
  }

  lemma RunAddress(h: X.Host, a: Address, k: Code, s: X.State) returns (s': X.State)
    requires Ready(h, s)
    ensures Exec(h, AddressCode(a, k), s) == Exec(h, k, s')
    ensures s' == s.(x := s.x.(rax := AddressOf(s.guest.r, a), rcx := s'.x.rcx), fl := s'.fl, time := s'.time)
  {
    hide Exec, Meaning, HostOk, X.AluFlags, X.Wrap32, And32, Or32, Xor32, Sub32;
    match a {
      case Based(rn, imm) =>
        AddressMeans(imm);
        s' := LoadEax(h, rn, AddOffset(imm, k), s);
        if imm != 0 {
          s' := DoAluImm(h, Imm32(AddEax, imm), X.ADD, X.RAX, imm, k, s');
        }
      case Fixed(v) =>
        AddressMeans(v);
        s' := DoMovImm(h, Imm32(MovEax, v), X.RAX, v, k, s);
      case Summed(rn, rm) =>
        AddressMeans(0);
        var s1 := LoadEax(h, rn, R(LdEcx, rm, P(OpAddEc, k)), s);
        var s2 := LoadEcx(h, rm, P(OpAddEc, k), s1);
        s' := DoAlu(h, Plain(OpAddEc), X.ADD, X.RAX, X.RCX, k, s2);
    }
  }

  /** After an access: its effect, or the fault register set and nothing else changed. */
  ghost predicate Accessed(s: X.State, s': X.State, t: Access) {
    match Perform(s.guest.r, s.mem, t)
    case None => Quiet(s, s', 1, s.guest, s.mem)
    case Some((r, m)) => Quiet(s, s', s.x.rbx, s.guest.(r := r), m)
  }

  lemma RunAccess(h: X.Host, env: Env, t: Access, k: Code, s: X.State) returns (s': X.State)
    requires Ready(h, s) && EnvOk(h, env) && s.x.rbx < 2
    ensures Exec(h, AccessCode(env, t, k), s) == Exec(h, k, s')
    ensures Accessed(s, s', t)
  {
    hide Exec, HostOk, AddressCode, LoadFromEax, StoreFromEax, AddressOf, Bus.Read, Bus.Write;
    if t.load {
      var s1 := RunAddress(h, t.a, LoadFromEax(env, t.rd, t.n, k), s);
      s' := RunLoadFromEax(h, env, t.rd, t.n, k, s1);
    } else {
      var s1 := RunAddress(h, t.a, StoreFromEax(env, t.rd, t.n, k), s);
      s' := RunStoreFromEax(h, env, t.rd, t.n, k, s1);
    }
  }

  /* The interpreter's side. */

  /** The interpreter's accesses are the ones the generator emits: no scaled offset, no literal
      below the instruction, no doubleword load into its own base. */
  predicate PlainAccess(i: Insn) {
    && NativeOk(i)
    && (i.op.T32LdrReg? || i.op.T32StrReg? ==> i.shiftN == 0)
    && (i.op.T32LdrLit? ==> i.add || i.imm == 0 || i.imm == 0x8000_0000)
    && (i.op.T32LdrdImm? ==> i.rd != i.rn)
  }

  /** The interpreter faults when an access does, and otherwise has the accesses' effect. */
  predicate Finishes(e: Executor.Effect, c: CpuState, o: Option<(Regs, Bus.Memory)>, pc: u32) {
    match o
    case None => e.End? && !e.ok
    case Some((r, m)) => e == Executor.Next(c.(r := r), m, pc)
  }

  lemma PerformOne(r: Regs, m: Bus.Memory, t: Access)
    ensures PerformAll(r, m, [t]) == Perform(r, m, t)
  {
    assert [t][1..] == [];
  }

  lemma PerformTwo(r: Regs, m: Bus.Memory, t: Access, t': Access)
    ensures PerformAll(r, m, [t, t']) ==
      match Perform(r, m, t) case None => None case Some((r', m')) => Perform(r', m', t')
  {
    assert [t, t'][1..] == [t'];
    match Perform(r, m, t)
    case None =>
    case Some((r', m')) => PerformOne(r', m', t');
  }

  lemma NoScale(v: u32)
    ensures ShiftLeft(v, 0) == v
  {
  }

  lemma LowStore(m: Bus.Memory, a: u32, v: u32)
    ensures Bus.Write(m, a, 1, v) == Bus.Write(m, a, 1, v % 0x100)
    ensures Bus.Write(m, a, 2, v) == Bus.Write(m, a, 2, v % 0x1_0000)
  {
    Bus.WriteLow(m, a, 1, v);
    Bus.WriteLow(m, a, 2, v);
  }

  predicate Double(op: Op) { op.T32LdrdImm? || op.T32StrdImm? }

  lemma LoadStoreOne(c: CpuState, m: Bus.Memory, i: Insn, pc: u32)
    requires IsMemory(i.op) && !Double(i.op) && PlainAccess(i) && c.Pc() == i.pc
    ensures Finishes(Executor.LoadStore(c, m, i, pc), c, Perform(c.r, m, AccessesOf(i)[0]), pc)
  {
    hide Bus.Read, Bus.Write, Nvic.Aligned;
    match i.op
    case LdrImm =>
    case T32LdrImm =>
    case LdrbImm =>
    case T32LdrbImm =>
    case LdrhImm =>
    case T32LdrhImm =>
    case StrImm =>
    case T32StrImm =>
    case StrbImm => LowStore(m, Add32(c.r[i.rn], i.imm), c.r[i.rd]);
    case T32StrbImm => LowStore(m, Add32(c.r[i.rn], i.imm), c.r[i.rd]);
    case StrhImm => LowStore(m, Add32(c.r[i.rn], i.imm), c.r[i.rd]);
    case T32StrhImm => LowStore(m, Add32(c.r[i.rn], i.imm), c.r[i.rd]);
    case LdrSp =>
    case StrSp =>
    case LdrLit =>
    case T32LdrLit => SameLiteral(Executor.Literal(c), i.imm);
    case LdrReg =>
    case T32LdrReg => NoScale(c.r[i.rm]);
    case StrReg =>
    case T32StrReg => NoScale(c.r[i.rm]);
    case _ =>
  }

  /** Half the address space up is half the address space down. */
  lemma SameLiteral(a: u32, imm: u32)
    ensures Sub32(a, imm) == Add32(a, imm) <==> imm == 0 || imm == 0x8000_0000
  {
  }

  lemma AddFour(a: u32, imm: u32)
    ensures Add32(a, Add32(imm, 4)) == Add32(Add32(a, imm), 4)
  {
  }

  lemma LoadStoreTwo(c: CpuState, m: Bus.Memory, i: Insn, pc: u32)
    requires Double(i.op) && PlainAccess(i)
    ensures Finishes(Executor.LoadStore(c, m, i, pc), c, PerformAll(c.r, m, AccessesOf(i)), pc)
  {
    hide Bus.Read, Bus.Write, PerformAll;
    var ts := AccessesOf(i);
    AddFour(c.r[i.rn], i.imm);
    PerformTwo(c.r, m, ts[0], ts[1]);
    match i.op
    case T32LdrdImm =>
    case _ =>
  }

  lemma LoadStoreShape(c: CpuState, m: Bus.Memory, i: Insn, pc: u32)
    requires IsMemory(i.op) && PlainAccess(i) && c.Pc() == i.pc
    ensures Finishes(Executor.LoadStore(c, m, i, pc), c, PerformAll(c.r, m, AccessesOf(i)), pc)
  {
    if Double(i.op) {
      LoadStoreTwo(c, m, i, pc);
    } else {
      var ts := AccessesOf(i);
      assert ts == [ts[0]];
      LoadStoreOne(c, m, i, pc);
      PerformOne(c.r, m, ts[0]);
    }
  }

  /* All the accesses of an instruction. */

  lemma AccessKeeps(s: X.State, s': X.State, t: Access)
    requires Accessed(s, s', t)
    ensures Bus.RomKept(s.mem, s'.mem)
  {
    if !t.load && Bus.Write(s.mem, AddressOf(s.guest.r, t.a), t.n, s.guest.r[t.rd]).Some? {
      Bus.WriteKeeps(s.mem, AddressOf(s.guest.r, t.a), t.n, s.guest.r[t.rd]);
    }
  }

  /** What native code leaves after part of an instruction: the given result with the
      fault register untouched, or the fault register set. */
  ghost predicate Left(s: X.State, s': X.State, o: Option<(Regs, Bus.Memory)>) {
    && Bus.RomKept(s.mem, s'.mem)
    && Quiet(s, s', if o.Some? then s.x.rbx else 1, s'.guest, s'.mem)
    && s'.guest.itstate == s.guest.itstate && s'.guest.cycles == s.guest.cycles
    && (o.Some? ==> s'.guest == s.guest.(r := o.value.0) && s'.mem == o.value.1)
  }

  lemma ReadyAfter(h: X.Host, s: X.State, s': X.State)
    requires Ready(h, s) && Bus.RomKept(s.mem, s'.mem)
    requires exists b :: Quiet(s, s', b, s'.guest, s'.mem)
    ensures Ready(h, s')
  {
  }

  lemma {:induction false} RunAccesses(h: X.Host, env: Env, ts: seq<Access>, k: Code, s: X.State) returns (s': X.State)
    requires Ready(h, s) && EnvOk(h, env) && s.x.rbx < 2
    ensures Exec(h, AccessesCode(env, ts, k), s) == Exec(h, k, s')
    ensures Left(s, s', PerformAll(s.guest.r, s.mem, ts))
    decreases |ts|
  {
    if |ts| == 0 {
      s' := s;
    } else {
      hide Exec, AccessCode, Perform;
      var s1 := RunAccess(h, env, ts[0], AccessesCode(env, ts[1..], k), s);
      AccessKeeps(s, s1, ts[0]);
      ReadyAfter(h, s, s1);
      s' := RunAccesses(h, env, ts[1..], k, s1);
      hide HostOk, Ready;
      Bus.RomKeptTrans(s.mem, s1.mem, s'.mem);
    }
  }
}
