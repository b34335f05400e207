/** PUSH, POP, LDM and STM: the inline SRAM path and the bus-helper path both transfer
    exactly the registers and words the interpreter's loops do. */
module NativeMulti {
  import opened Words
  import opened Cpu
  import opened Insn
  import opened Asm
  import opened Codegen
  import opened NativeRun
  import opened NativeSteps
  import opened NativeFlags
  import opened NativeMemory
  import opened NativeAccess
  import opened Layout
  import X = X86
  import Bus

  /** Lowest address of the transfer. */
  function Start(t: Multi, r: Regs): u32 {
    if t.down then Sub32(r[t.base], t.Len()) else r[t.base]
  }

  /** The word a store transfers for register j. */
  function Stored(t: Multi, r: Regs, j: Reg): u32 {
    if j == REG_PC then t.pcWord else r[j]
  }

  /** One word of the transfer, at address a. */
  function TransferOne(t: Multi, r: Regs, m: Bus.Memory, j: Reg, a: u32): Option<(Regs, Bus.Memory)> {
    if t.load then match Bus.Read(m, a, 4) case None => None case Some(v) => Some((r[j := v], m))
    else match Bus.Write(m, a, 4, Stored(t, r, j)) case None => None case Some(m') => Some((r, m'))
  }

  /** The whole transfer from register j on, word by word, stopping at the first fault. */
  function TransferFrom(t: Multi, r: Regs, m: Bus.Memory, j: nat, a: u32): Option<(Regs, Bus.Memory)>
    requires j <= 16
    decreases t, 16 - j
  {
    if j == 16 then Some((r, m))
    else if j !in t.regs then TransferFrom(t, r, m, j + 1, a)
    else match TransferOne(t, r, m, j, a)
      case None => None
      case Some((r', m')) => TransferFrom(t, r', m', j + 1, Add32(a, 4))
  }

  /* The helper path. */

  lemma DownMeans(v: u32)
    ensures Meaning(Imm32(SubEax, v)) == X.AluRI(X.SUB, false, X.RAX, v)
    ensures Meaning(Imm32(AddEax, v)) == X.AluRI(X.ADD, false, X.RAX, v)
    ensures Meaning(Imm32(AddEdx, v)) == X.AluRI(X.ADD, false, X.RDX, v)
  {
  }

  /** eax holds the lowest address. */
  lemma RunStart(h: X.Host, t: Multi, k: Code, s: X.State) returns (s': X.State)
    requires Ready(h, s)
    ensures Exec(h, R(LdEax, t.base, Down(t, k)), s) == Exec(h, k, s')
    ensures s' == s.(x := s.x.(rax := Start(t, s.guest.r)), fl := s'.fl, time := s'.time)
  {
    hide Exec, Meaning, HostOk, X.AluFlags, X.Wrap32, And32, Or32, Xor32, Add32, Count;
    DownMeans(t.Len());
    s' := LoadEax(h, t.base, Down(t, k), s);
    if t.down {
      s' := DoAluImm(h, Imm32(SubEax, t.Len()), X.SUB, X.RAX, t.Len(), k, s');
    }
  }

  lemma RunAddEdx(h: X.Host, off: u32, k: Code, s: X.State) returns (s': X.State)
    requires s.status == X.Running && s.x.rdx < 0x1_0000_0000
    ensures Exec(h, I(AddEdx, off, k), s) == Exec(h, k, s')
    ensures s' == s.(x := s.x.(rdx := Add32(s.x.rdx, off)), fl := s'.fl, time := s'.time)
  {
    hide Exec, Meaning, X.AluFlags, X.Wrap32, And32, Or32, Xor32, Add32, Sub32;
    DownMeans(off);
    s' := DoAluImm(h, Imm32(AddEdx, off), X.ADD, X.RDX, off, k, s);
  }

  /** The read helper at the address in edx, and the register it fills. */
  lemma RunWordLoad(h: X.Host, env: Env, j: Reg, k: Code, s: X.State) returns (s': X.State)
    requires Ready(h, s) && EnvOk(h, env) && s.x.rbx < 2 && s.x.rcx == h.bus && s.x.rdx < 0x1_0000_0000
    requires |s.stack| >= 2
    ensures Exec(h, ReadCallCode(env, 4, CommitLoad(j, k)), s) == Exec(h, k, s')
    ensures var u := s.(x := s.x.(rsp := X.Add64(s.x.rsp, 16)), stack := s.stack[2..]);
      match Bus.Read(s.mem, s.x.rdx, 4)
      case None => Quiet(u, s', 1, s.guest, s.mem)
      case Some(v) => Quiet(u, s', s.x.rbx, s.guest.(r := s.guest.r[j := v]), s.mem)
  {
    hide Exec, HostOk, Bus.Read, X.GetByte, CommitLoad, ReadCallCode, X.Wrap32, X.Add64;
    var s1 := RunCallRead(h, env, 4, CommitLoad(j, k), s);
    s' := RunCommitLoad(h, j, k, s1);
  }

  /** Width and value in place. */
  lemma RunSource(h: X.Host, t: Multi, j: Reg, k: Code, s: X.State) returns (s': X.State)
    requires Ready(h, s)
    ensures Exec(h, I(MovR8d, 4, SlowSource(t, j, k)), s) == Exec(h, k, s')
    ensures s' == s.(x := s.x.(r8 := 4, r9 := Stored(t, s.guest.r, j)), time := s'.time)
  {
    hide Exec, Meaning, HostOk;
    AccessMeans(4);
    AccessMeans(t.pcWord);
    var s1 := DoMovImm(h, Imm32(MovR8d, 4), X.R8, 4, SlowSource(t, j, k), s);
    if j == REG_PC {
      s' := DoMovImm(h, Imm32(MovR9d, t.pcWord), X.R9, t.pcWord, k, s1);
    } else {
      s' := LoadR9(h, j, k, s1);
    }
  }

  /** The value to store, then the write helper. */
  lemma RunWordStore(h: X.Host, env: Env, t: Multi, j: Reg, k: Code, s: X.State) returns (s': X.State)
    requires Ready(h, s) && EnvOk(h, env) && s.x.rbx < 2 && s.x.rcx == h.bus && s.x.rdx < 0x1_0000_0000
    requires |s.stack| >= 2
    ensures var tail := Then(MovRaxQ(env.writeFn), P(CallRax, B(AddRsp, 16, CommitStore(k))));
      Exec(h, I(MovR8d, 4, SlowSource(t, j, tail)), s) == Exec(h, k, s')
    ensures var u := s.(x := s.x.(rsp := X.Add64(s.x.rsp, 16)), stack := s.stack[2..]);
      match Bus.Write(s.mem, s.x.rdx, 4, Stored(t, s.guest.r, j))
      case None => Quiet(u, s', 1, s.guest, s.mem)
      case Some(m) => Quiet(u, s', s.x.rbx, s.guest, m)
  {
    hide Exec, HostOk, Bus.Write, CommitStore, X.Add64, Stored, SlowSource;
    DistinctHelpers(h, s.mem);
    var tail := Then(MovRaxQ(env.writeFn), P(CallRax, B(AddRsp, 16, CommitStore(k))));
    var s1 := RunSource(h, t, j, tail, s);
    s' := RunCallWrite(h, env, 4, k, s1);
  }

  /** After one word: its effect, or the fault register set and nothing else changed. */
  ghost predicate WordDone(s: X.State, s': X.State, t: Multi, j: Reg, a: u32) {
    match TransferOne(t, s.guest.r, s.mem, j, a)
    case None => Quiet(s, s', 1, s.guest, s.mem)
    case Some((r, m)) => Quiet(s, s', s.x.rbx, s.guest.(r := r), m)
  }

  lemma RunSlowOne(h: X.Host, env: Env, t: Multi, j: Reg, off: u32, k: Code, s: X.State) returns (s': X.State)
    requires Ready(h, s) && EnvOk(h, env) && s.x.rbx < 2
    ensures Exec(h, SlowOne(env, t, j, off, k), s) == Exec(h, k, s')
    ensures WordDone(s, s', t, j, Add32(Start(t, s.guest.r), off))
  {
    hide Exec, HostOk, Bus.Read, Bus.Write, Start, Down, CommitLoad, CommitStore, ReadCallCode, SlowSource, X.Add64,
         X.Sub64, Stored, Add32;
    RspBack(s.x.rsp, 16);
    var access := SlowAccess(env, t, j, k);
    var add := I(AddEdx, off, access);
    var s1 := RunStart(h, t, B(SubRsp, 16, P(MovRcxR14, P(MovEdxEax, add))), s);
    var s2 := RunArguments(h, add, s1);
    var s3 := RunAddEdx(h, off, access, s2);
    if t.load {
      s' := RunWordLoad(h, env, j, k, s3);
    } else {
      s' := RunWordStore(h, env, t, j, k, s3);
    }
  }

  lemma WordKeeps(t: Multi, r: Regs, m: Bus.Memory, j: Reg, a: u32)
    requires TransferOne(t, r, m, j, a).Some?
    ensures Bus.RomKept(m, TransferOne(t, r, m, j, a).value.1)
    ensures t.load ==> j != t.base ==> TransferOne(t, r, m, j, a).value.0[t.base] == r[t.base]
    ensures !t.load ==> TransferOne(t, r, m, j, a).value.0 == r
  {
    if !t.load {
      Bus.WriteKeeps(m, a, 4, Stored(t, r, j));
    }
  }

  /** What the helper path does from register j on: the base is read again for every word, so
      a load that overwrites it moves the words that follow. */
  function Reloaded(t: Multi, r: Regs, m: Bus.Memory, j: nat, off: u32): Option<(Regs, Bus.Memory)>
    requires j <= 16
    decreases t, 16 - j
  {
    if j == 16 then Some((r, m))
    else if j !in t.regs then Reloaded(t, r, m, j + 1, off)
    else match TransferOne(t, r, m, j, Add32(Start(t, r), off))
      case None => None
      case Some((r', m')) => Reloaded(t, r', m', j + 1, Add32(off, 4))
  }

  /** A load that overwrites its own base does so last. */
  predicate BaseSafe(t: Multi) {
    t.load && t.base in t.regs ==> forall j: Reg :: j in t.regs ==> j <= t.base
  }

  lemma SameStart(t: Multi, r: Regs, r': Regs)
    requires r[t.base] == r'[t.base]
    ensures Start(t, r) == Start(t, r')
  {
  }

  lemma NextOff(a: u32, off: u32)
    ensures Add32(a, Add32(off, 4)) == Add32(Add32(a, off), 4)
  {
  }

  lemma AfterWord(s: X.State, s': X.State, t: Multi, j: Reg, a: u32)
    requires WordDone(s, s', t, j, a)
    ensures Bus.RomKept(s.mem, s'.mem)
  {
    hide Quiet, TransferOne;
    var o := TransferOne(t, s.guest.r, s.mem, j, a);
    QuietParts(s, s', if o.Some? then s.x.rbx else 1, if o.Some? then s.guest.(r := o.value.0) else s.guest,
      if o.Some? then o.value.1 else s.mem);
    if o.Some? {
      WordKeeps(t, s.guest.r, s.mem, j, a);
    }
  }

  /** While the base stays, reading it again changes nothing. */
  lemma {:induction false} ReloadedIs(t: Multi, r: Regs, m: Bus.Memory, j: nat, off: u32)
    requires j <= 16 && BaseSafe(t)
    ensures Reloaded(t, r, m, j, off) == TransferFrom(t, r, m, j, Add32(Start(t, r), off))
    decreases 16 - j
  {
    hide TransferOne, Start, Add32;
    if j == 16 {
    } else if j !in t.regs {
      ReloadedIs(t, r, m, j + 1, off);
    } else {
      var a := Add32(Start(t, r), off);
      NextOff(Start(t, r), off);
      var o := TransferOne(t, r, m, j, a);
      if o.Some? {
        WordKeeps(t, r, m, j, a);
        var (r', m') := o.value;
        if t.load && j == t.base {
          NoneListed(t, r', m', j + 1, Add32(a, 4));
          NoneReloaded(t, r', m', j + 1, Add32(off, 4));
        } else {
          SameStart(t, r, r');
          ReloadedIs(t, r', m', j + 1, Add32(off, 4));
        }
      }
    }
  }

  /** Past the list there is nothing to transfer. */
  lemma {:induction false} NoneListed(t: Multi, q: Regs, m: Bus.Memory, j: nat, a: u32)
    requires j <= 16 && forall k: Reg :: k in t.regs ==> k < j
    ensures TransferFrom(t, q, m, j, a) == Some((q, m))
    decreases 16 - j
  {
    if j != 16 {
      NoneListed(t, q, m, j + 1, a);
    }
  }

  lemma {:induction false} NoneReloaded(t: Multi, q: Regs, m: Bus.Memory, j: nat, off: u32)
    requires j <= 16 && forall k: Reg :: k in t.regs ==> k < j
    ensures Reloaded(t, q, m, j, off) == Some((q, m))
    decreases 16 - j
  {
    if j != 16 {
      NoneReloaded(t, q, m, j + 1, off);
    }
  }

  lemma QuietParts(s: X.State, s': X.State, b: u64, g: CpuState, m: Bus.Memory)
    ensures Quiet(s, s', b, g, m) ==> s'.guest == g && s'.mem == m && s'.x.rbx == b
  {
  }

  lemma {:induction false} RunSlowLoop(h: X.Host, env: Env, t: Multi, j: nat, off: u32, k: Code, s: X.State)
    returns (s': X.State)
    requires j <= 16 && Ready(h, s) && EnvOk(h, env) && s.x.rbx < 2
    ensures Exec(h, SlowLoop(env, t, j, off, k), s) == Exec(h, k, s')
    ensures Left(s, s', Reloaded(t, s.guest.r, s.mem, j, off))
    decreases 16 - j
  {
    hide Exec, SlowOne, TransferOne, Start, Add32;
    if j == 16 {
      s' := s;
    } else if j !in t.regs {
      s' := RunSlowLoop(h, env, t, j + 1, off, k, s);
    } else {
      var a := Add32(Start(t, s.guest.r), off);
      var s1 := RunSlowOne(h, env, t, j, off, SlowLoop(env, t, j + 1, Add32(off, 4), k), s);
      AfterWord(s, s1, t, j, a);
      ReadyAfter(h, s, s1);
      s' := RunSlowLoop(h, env, t, j + 1, Add32(off, 4), k, s1);
      Bus.RomKeptTrans(s.mem, s1.mem, s'.mem);
    }
  }

  /* Write-back, and the helper path as a whole. */

  /** The base after the transfer. */
  function NewBase(t: Multi, r: Regs): u32 {
    if t.down then Sub32(r[t.base], t.Len()) else Add32(r[t.base], t.Len())
  }

  function WroteBack(t: Multi, r: Regs): Regs {
    if t.wb then r[t.base := NewBase(t, r)] else r
  }

  /** Registers and memory after the instruction; None when a word faults. */
  function Transferred(t: Multi, r: Regs, m: Bus.Memory): Option<(Regs, Bus.Memory)> {
    match TransferFrom(t, r, m, 0, Start(t, r))
    case None => None
    case Some((r', m')) => Some((WroteBack(t, r'), m'))
  }

  /** The same along the helper path. */
  function SlowTransferred(t: Multi, r: Regs, m: Bus.Memory): Option<(Regs, Bus.Memory)> {
    match Reloaded(t, r, m, 0, 0)
    case None => None
    case Some((r', m')) => Some((WroteBack(t, r'), m'))
  }

  lemma SlowIsTransferred(t: Multi, r: Regs, m: Bus.Memory)
    requires BaseSafe(t)
    ensures SlowTransferred(t, r, m) == Transferred(t, r, m)
  {
    hide Reloaded, TransferFrom, Start, WroteBack, BaseSafe;
    ReloadedIs(t, r, m, 0, 0);
    ZeroOff(Start(t, r));
  }

  lemma RunWriteback(h: X.Host, t: Multi, k: Code, s: X.State) returns (s': X.State)
    requires Ready(h, s)
    ensures Exec(h, WritebackCode(t, k), s) == Exec(h, k, s')
    ensures Quiet(s, s', s.x.rbx, s.guest.(r := WroteBack(t, s.guest.r)), s.mem)
  {
    hide Exec, Meaning, HostOk, X.AluFlags, X.Wrap32, And32, Or32, Xor32, Count;
    if !t.wb {
      s' := s;
    } else {
      DownMeans(t.Len());
      var st := R(StEax, t.base, k);
      var s1 := LoadEax(h, t.base, I(if t.down then SubEax else AddEax, t.Len(), st), s);
      var s2;
      if t.down {
        s2 := DoAluImm(h, Imm32(SubEax, t.Len()), X.SUB, X.RAX, t.Len(), st, s1);
      } else {
        s2 := DoAluImm(h, Imm32(AddEax, t.Len()), X.ADD, X.RAX, t.Len(), st, s1);
      }
      s' := StoreEax(h, t.base, k, s2);
    }
  }

  lemma LeftReady(h: X.Host, s: X.State, s': X.State, o: Option<(Regs, Bus.Memory)>)
    requires Ready(h, s) && Left(s, s', o)
    ensures Ready(h, s')
  {
    ReadyAfter(h, s, s');
  }

  /** A completed part followed by a register-only step. */
  lemma LeftThen(s: X.State, s1: X.State, s': X.State, o: Option<(Regs, Bus.Memory)>, t: Multi)
    requires Left(s, s1, o)
    requires Quiet(s1, s', s1.x.rbx, s1.guest.(r := WroteBack(t, s1.guest.r)), s1.mem)
    ensures Left(s, s', match o case None => None case Some((r, m)) => Some((WroteBack(t, r), m)))
  {
    hide WroteBack;
  }

  lemma ZeroOff(a: u32)
    ensures Add32(a, 0) == a
  {
  }

  lemma RunSlowPath(h: X.Host, env: Env, t: Multi, k: Code, s: X.State) returns (s': X.State)
    requires Ready(h, s) && EnvOk(h, env) && s.x.rbx < 2
    ensures Exec(h, SlowPath(env, t, k), s) == Exec(h, k, s')
    ensures Left(s, s', SlowTransferred(t, s.guest.r, s.mem))
  {
    hide Exec, HostOk, SlowLoop, WritebackCode, Reloaded, Left, WroteBack;
    var s1 := RunSlowLoop(h, env, t, 0, 0, WritebackCode(t, k), s);
    LeftReady(h, s, s1, Reloaded(t, s.guest.r, s.mem, 0, 0));
    s' := RunWriteback(h, t, k, s1);
    LeftThen(s, s1, s', Reloaded(t, s.guest.r, s.mem, 0, 0), t);
  }

  /* The SRAM path. */

  /** The region the generator inlined: flat, writable, based where the code says, and the
      first to match each of its addresses. */
  ghost predicate SramOk(h: X.Host, m: Bus.Memory, f: Sram) {
    && h.sram < |m| && h.buf == f.buf
    && m[h.sram].base == f.base && m[h.sram].Size() == f.size && m[h.sram].writable
    && m[h.sram].Covers(SRAM_BASE)
    && forall a: u32 :: m[h.sram].Covers(a) ==> Bus.Find(m, a) == Some(h.sram)
  }

  lemma SramKept(h: X.Host, m: Bus.Memory, m': Bus.Memory, f: Sram)
    requires SramOk(h, m, f) && Bus.RomKept(m, m')
    ensures SramOk(h, m', f)
  {
    forall a: u32 | m'[h.sram].Covers(a)
      ensures Bus.Find(m', a) == Some(h.sram)
    {
      assert m[h.sram].Covers(a);
      Bus.FindKept(m, m', a, 0);
    }
  }

  /** The region lies below 2^31 and does not wrap around the address space. */
  lemma SramBounds(h: X.Host, m: Bus.Memory, f: Sram)
    requires SramOk(h, m, f)
    ensures f.base <= SRAM_BASE < f.base + f.size < 0x1_0000_0000
  {
  }

  /** An aligned-or-not word inside the region: the bus reads and writes the buffer the
      native code addresses directly. */
  lemma SramWord(h: X.Host, m: Bus.Memory, f: Sram, p: nat, v: u32)
    requires HostOk(h, m) && SramOk(h, m, f) && p + 4 <= f.size
    ensures f.base + p < 0x1_0000_0000
    ensures Bus.Read(m, f.base + p, 4) == Some(Bus.Load(m[h.sram].buf, p, 4))
    ensures X.InSram(h, m, h.buf + p, 4)
    ensures Bus.Write(m, f.base + p, 4, v) == Some(X.SetSram(h, m, h.buf + p, v))
  {
    hide Bus.Load, Bus.Store;
    SramBounds(h, m, f);
    assert m[h.sram].Covers(f.base + p);
  }

  /** s' differs from s at most in rax, rcx, the x86 flags, the clock, guest and memory. */
  predicate FastWork(s: X.State, s': X.State, g: CpuState, m: Bus.Memory) {
    s' == s.(x := s.x.(rax := s'.x.rax, rcx := s'.x.rcx), fl := s'.fl, time := s'.time, guest := g, mem := m)
  }

  lemma FastMeans(off: u32, v: u32)
    ensures Meaning(Disp(LdR11Ecx, off)) == X.LoadRM(X.RCX, X.R11, off)
    ensures Meaning(Disp(StR11Ecx, off)) == X.StoreMR(X.R11, off, X.RCX)
    ensures Meaning(Disp(StR11Eax, off)) == X.StoreMR(X.R11, off, X.RAX)
    ensures Meaning(Imm32(MovEax, v)) == X.MovRI(X.RAX, v)
  {
  }

  /** r11 points at byte p of the SRAM buffer. */
  predicate Points(h: X.Host, s: X.State, p: nat) {
    h.sram < |s.mem| && p <= s.mem[h.sram].Size() && s.x.r11 == h.buf + p
  }

  lemma FastAddress(h: X.Host, s: X.State, p: nat, off: u32)
    requires Ready(h, s) && Points(h, s, p) && p + off + 4 <= s.mem[h.sram].Size() && off < 0x8000_0000
    ensures X.Ea(s.x, X.R11, off) == h.buf + p + off && !X.InCpu(h, h.buf + p + off)
  {
  }

  lemma SramLoadStep(h: X.Host, s: X.State, off: u32, ea: u64)
    requires X.Ea(s.x, X.R11, off) == ea && !X.InCpu(h, ea) && X.InSram(h, s.mem, ea, 4)
    ensures X.LoadReg(h, s, X.RCX, X.R11, off) == X.SetR(s, X.RCX, Bus.Load(s.mem[h.sram].buf, ea - h.buf, 4))
  {
    hide X.Ea, X.InCpu, Bus.Load, X.Put, X.CpuField;
  }

  lemma SramStoreStep(h: X.Host, s: X.State, off: u32, ea: u64, v: u32)
    requires X.Ea(s.x, X.R11, off) == ea && !X.InCpu(h, ea) && X.InSram(h, s.mem, ea, 4)
    ensures X.StoreValue(h, s, X.R11, off, v) == s.(mem := X.SetSram(h, s.mem, ea, v))
  {
    hide X.Ea, X.InCpu, X.SetSram, X.SetCpuField;
  }

  lemma DoSramLoad(h: X.Host, f: Sram, p: nat, off: u32, k: Code, s: X.State) returns (s': X.State)
    requires Ready(h, s) && SramOk(h, s.mem, f) && Points(h, s, p) && p + off + 4 <= f.size && off < 0x8000_0000
    ensures Exec(h, D(LdR11Ecx, off, k), s) == Exec(h, k, s')
    ensures f.base + p + off < 0x1_0000_0000 && Bus.Read(s.mem, f.base + p + off, 4).Some?
    ensures s' == Tick(s, X.SetR(s, X.RCX, Bus.Read(s.mem, f.base + p + off, 4).value))
  {
    hide Exec, Meaning, HostOk, SramOk, Points, X.Ea, X.InCpu, X.InSram, Bus.Read, Bus.Write, Bus.Load, X.LoadReg,
         X.SetR, X.SetSram, X.EffectAlu, X.EffectByte, X.EffectStack;
    FastWord(h, s, f, p, off, 0);
    FastMeans(off, 0);
    SramLoadStep(h, s, off, h.buf + p + off);
    s' := Go(h, Disp(LdR11Ecx, off), k, s);
  }

  lemma FastWord(h: X.Host, s: X.State, f: Sram, p: nat, off: u32, v: u32)
    requires Ready(h, s) && SramOk(h, s.mem, f) && Points(h, s, p) && p + off + 4 <= f.size && off < 0x8000_0000
    ensures f.base + p + off < 0x1_0000_0000 && h.buf + p + off < 0x1_0000_0000_0000_0000
    ensures h.sram < |s.mem| && p + off + 4 <= |s.mem[h.sram].buf|
    ensures Bus.Read(s.mem, f.base + p + off, 4) == Some(Bus.Load(s.mem[h.sram].buf, p + off, 4))
    ensures X.InSram(h, s.mem, h.buf + p + off, 4)
    ensures Bus.Write(s.mem, f.base + p + off, 4, v) == Some(X.SetSram(h, s.mem, h.buf + p + off, v))
    ensures X.Ea(s.x, X.R11, off) == h.buf + p + off && !X.InCpu(h, h.buf + p + off)
  {
    hide X.Ea, X.InCpu, X.InSram, Bus.Read, Bus.Write, Bus.Load, X.SetSram;
    SramBounds(h, s.mem, f);
    SramWord(h, s.mem, f, p + off, v);
    FastAddress(h, s, p, off);
  }

  lemma DoSramStore(h: X.Host, f: Sram, p: nat, off: u32, a: Asm, r: X.Gpr, k: Code, s: X.State) returns (s': X.State)
    requires Ready(h, s) && SramOk(h, s.mem, f) && Points(h, s, p) && p + off + 4 <= f.size && off < 0x8000_0000
    requires Meaning(a) == X.StoreMR(X.R11, off, r)
    ensures Exec(h, Then(a, k), s) == Exec(h, k, s')
    ensures f.base + p + off < 0x1_0000_0000
    ensures Bus.Write(s.mem, f.base + p + off, 4, X.Lo32(X.Get(s.x, r))).Some?
    ensures s' == Tick(s, s.(mem := Bus.Write(s.mem, f.base + p + off, 4, X.Lo32(X.Get(s.x, r))).value))
    ensures Bus.RomKept(s.mem, s'.mem)
  {
    hide Exec, Meaning, HostOk, SramOk, Points, X.Ea, X.InCpu, X.InSram, Bus.Read, Bus.Write, Bus.Load, X.StoreValue,
         X.Get, X.Lo32, X.SetSram, X.EffectAlu, X.EffectByte, X.EffectStack;
    var v := X.Lo32(X.Get(s.x, r));
    FastWord(h, s, f, p, off, v);
    SramStoreStep(h, s, off, h.buf + p + off, v);
    Bus.WriteKeeps(s.mem, f.base + p + off, 4, v);
    s' := Go(h, a, k, s);
  }

  /** One word through the buffer: it never faults and is the bus's word. */
  lemma RunFastOne(h: X.Host, f: Sram, t: Multi, j: Reg, p: nat, off: u32, k: Code, s: X.State) returns (s': X.State)
    requires Ready(h, s) && SramOk(h, s.mem, f) && Points(h, s, p) && p + off + 4 <= f.size && off < 0x8000_0000
    ensures Exec(h, FastOne(t, j, off, k), s) == Exec(h, k, s')
    ensures f.base + p + off < 0x1_0000_0000
    ensures var o := TransferOne(t, s.guest.r, s.mem, j, f.base + p + off);
      o.Some? && FastWork(s, s', s.guest.(r := o.value.0), o.value.1)
  {
    hide Exec, Meaning, HostOk, SramOk, Points, Down, Bus.Read, Bus.Write, Start, Count;
    FastMeans(off, t.pcWord);
    if t.load {
      var s1 := DoSramLoad(h, f, p, off, R(StEcx, j, k), s);
      s' := StoreReg(h, j, k, s1);
    } else if j == REG_PC {
      var reload := R(LdEax, t.base, Down(t, k));
      var s1 := DoMovImm(h, Imm32(MovEax, t.pcWord), X.RAX, t.pcWord, D(StR11Eax, off, reload), s);
      SamePoints(h, s, s1, p);
      var s2 := DoSramStore(h, f, p, off, Disp(StR11Eax, off), X.RAX, reload, s1);
      FastReady(h, s1, s2, f, p);
      s' := RunStart(h, t, k, s2);
    } else {
      var s1 := LoadEcx(h, j, D(StR11Ecx, off, k), s);
      SamePoints(h, s, s1, p);
      s' := DoSramStore(h, f, p, off, Disp(StR11Ecx, off), X.RCX, k, s1);
    }
  }

  lemma SamePoints(h: X.Host, s: X.State, s': X.State, p: nat)
    requires Points(h, s, p) && s'.mem == s.mem && s'.x.r11 == s.x.r11
    ensures Points(h, s', p)
  {
  }

  /** The pointer and the host conditions survive a store. */
  lemma FastReady(h: X.Host, s: X.State, s': X.State, f: Sram, p: nat)
    requires Ready(h, s) && SramOk(h, s.mem, f) && Points(h, s, p) && Bus.RomKept(s.mem, s'.mem)
    requires s'.x.r11 == s.x.r11 && s'.x.r14 == s.x.r14 && s'.x.r15 == s.x.r15 && s'.status == s.status
    ensures Ready(h, s') && SramOk(h, s'.mem, f) && Points(h, s', p)
  {
    SramKept(h, s.mem, s'.mem, f);
  }

  /** How many listed registers are numbered j or above. */
  function Remaining(t: Multi, j: nat): nat
    requires j <= 16
    decreases t, 16 - j
  {
    if j == 16 then 0 else (if j in t.regs then 1 else 0) + Remaining(t, j + 1)
  }

  lemma {:induction false} RemainingCount(t: Multi, j: nat)
    requires j <= 16
    ensures Count(t.regs, j) + Remaining(t, j) == t.Words()
    decreases 16 - j
  {
    if j != 16 {
      RemainingCount(t, j + 1);
      assert Count(t.regs, j + 1) == Count(t.regs, j) + (if j in t.regs then 1 else 0);
    }
  }

  lemma FastWordKeeps(h: X.Host, f: Sram, t: Multi, j: Reg, p: nat, a: u32, s: X.State, s': X.State)
    requires Ready(h, s) && SramOk(h, s.mem, f) && Points(h, s, p)
    requires var o := TransferOne(t, s.guest.r, s.mem, j, a);
      o.Some? && FastWork(s, s', s.guest.(r := o.value.0), o.value.1)
    ensures Ready(h, s') && SramOk(h, s'.mem, f) && Points(h, s', p) && Bus.RomKept(s.mem, s'.mem)
  {
    hide TransferOne, Ready, SramOk, Points;
    WordKeeps(t, s.guest.r, s.mem, j, a);
    FastReady(h, s, s', f, p);
  }

  /** The fast loop from register j on: every word goes through, and together they are
      the bus transfer of those words. */
  lemma {:induction false} RunFastLoop(h: X.Host, f: Sram, t: Multi, j: nat, p: nat, off: u32, k: Code, s: X.State)
    returns (s': X.State)
    requires j <= 16 && Ready(h, s) && SramOk(h, s.mem, f) && Points(h, s, p)
    requires p + off + 4 * Remaining(t, j) <= f.size && off + 4 * Remaining(t, j) <= 64
    ensures f.base + p + off < 0x1_0000_0000
    ensures Exec(h, FastLoop(t, j, off, k), s) == Exec(h, k, s')
    ensures var o := TransferFrom(t, s.guest.r, s.mem, j, f.base + p + off);
      o.Some? && FastWork(s, s', s.guest.(r := o.value.0), o.value.1)
    ensures Bus.RomKept(s.mem, s'.mem)
    decreases 16 - j
  {
    hide Exec, FastOne, TransferOne, Ready, SramOk, Points;
    SramBounds(h, s.mem, f);
    if j == 16 {
      s' := s;
    } else if j !in t.regs {
      s' := RunFastLoop(h, f, t, j + 1, p, off, k, s);
    } else {
      var a: u32 := f.base + p + off;
      var s1 := RunFastOne(h, f, t, j, p, off, FastLoop(t, j + 1, Add32(off, 4), k), s);
      FastWordKeeps(h, f, t, j, p, a, s, s1);
      var o := TransferOne(t, s.guest.r, s.mem, j, a);
      assert s1.guest.r == o.value.0 && s1.mem == o.value.1;
      s' := RunFastLoop(h, f, t, j + 1, p, off + 4, k, s1);
      Bus.RomKeptTrans(s.mem, s1.mem, s'.mem);
    }
  }

  lemma SetupMeans(b: u64, base: u32)
    ensures Meaning(MovR10Q(b)) == X.MovRI64(X.R10, b)
    ensures Meaning(Plain(MovR11dEax)) == X.MovRR(false, X.R11, X.RAX)
    ensures Meaning(Plain(AddR11R10)) == X.AluRR(X.ADD, true, X.R11, X.R10)
    ensures Meaning(Imm32(SubR11, base)) == X.AluRI(X.SUB, true, X.R11, base)
  {
  }

  lemma DoWideAdd(h: X.Host, k: Code, s: X.State) returns (s': X.State)
    requires s.status == X.Running
    ensures Exec(h, P(AddR11R10, k), s) == Exec(h, k, s')
    ensures s' == s.(x := s.x.(r11 := X.Add64(s.x.r11, s.x.r10)), fl := s'.fl, time := s.time + 1)
  {
    hide Exec, Meaning, X.Alu32, X.Add64, X.Sub64, X.NoFlags, X.EffectMove, X.EffectByte, X.EffectStack;
    SetupMeans(0, 0);
    s' := Go(h, Plain(AddR11R10), k, s);
  }

  lemma DoWideSub(h: X.Host, base: u32, k: Code, s: X.State) returns (s': X.State)
    requires s.status == X.Running && base < 0x8000_0000
    ensures Exec(h, I(SubR11, base, k), s) == Exec(h, k, s')
    ensures s' == s.(x := s.x.(r11 := X.Sub64(s.x.r11, base)), fl := s'.fl, time := s.time + 1)
  {
    hide Exec, Meaning, X.Alu32, X.Add64, X.Sub64, X.NoFlags, X.EffectMove, X.EffectByte, X.EffectStack, X.MoveRsp;
    SetupMeans(0, base);
    s' := Go(h, Imm32(SubR11, base), k, s);
  }

  lemma Offset(buf: u64, a: u32, base: u32, size: u32)
    requires base <= a && a - base <= size && buf + size < 0x1_0000_0000_0000_0000
    ensures X.Sub64(X.Add64(a, buf), base) == buf + (a - base)
  {
  }

  /** r11 = the host address of guest address eax. */
  lemma RunFastSetup(h: X.Host, f: Sram, k: Code, s: X.State) returns (s': X.State)
    requires Ready(h, s) && SramOk(h, s.mem, f) && f.base <= s.x.rax <= f.base + f.size
    ensures Exec(h, FastSetup(f, k), s) == Exec(h, k, s')
    ensures s' == s.(x := s.x.(r10 := s'.x.r10, r11 := s'.x.r11), fl := s'.fl, time := s'.time)
    ensures Points(h, s', s.x.rax - f.base)
  {
    hide Exec, Meaning, X.Wrap32, X.Add64, X.Sub64;
    SramBounds(h, s.mem, f);
    Offset(f.buf, s.x.rax, f.base, f.size);
    SetupMeans(f.buf, f.base);
    var k3 := I(SubR11, f.base, k);
    var s1 := DoMovImm(h, MovR10Q(f.buf), X.R10, f.buf, P(MovR11dEax, P(AddR11R10, k3)), s);
    var s2 := DoMov(h, Plain(MovR11dEax), false, X.R11, X.RAX, P(AddR11R10, k3), s1);
    var s3 := DoWideAdd(h, k3, s2);
    s' := DoWideSub(h, f.base, k, s3);
  }

  /** The fast path: the whole transfer, never a fault. */
  lemma RunFastPath(h: X.Host, f: Sram, t: Multi, k: Code, s: X.State) returns (s': X.State)
    requires Ready(h, s) && SramOk(h, s.mem, f) && s.x.rax == Start(t, s.guest.r)
    requires f.base <= s.x.rax && s.x.rax + t.Len() <= f.base + f.size
    ensures Exec(h, FastPath(f, t, k), s) == Exec(h, k, s')
    ensures Transferred(t, s.guest.r, s.mem).Some? && Left(s, s', Transferred(t, s.guest.r, s.mem))
  {
    hide Exec, HostOk, FastSetup, FastLoop, WritebackCode, TransferFrom, Start, WroteBack, SramOk, Points;
    RemainingCount(t, 0);
    SramBounds(h, s.mem, f);
    var loop := FastLoop(t, 0, 0, WritebackCode(t, k));
    var s1 := RunFastSetup(h, f, loop, s);
    var s2 := RunFastLoop(h, f, t, 0, s.x.rax - f.base, 0, WritebackCode(t, k), s1);
    var o := TransferFrom(t, s.guest.r, s.mem, 0, s.x.rax);
    assert Left(s, s2, o);
    LeftReady(h, s, s2, o);
    s' := RunWriteback(h, t, k, s2);
    LeftThen(s, s2, s', o, t);
  }

  /* Choosing between the paths. */

  lemma BoundMeans(v: u32, c: X.Cc, n: u8)
    ensures Meaning(Imm32(CmpEax, v)) == X.AluRI(X.CMP, false, X.RAX, v)
    ensures Meaning(Jcc8(c, n)) == X.Jcc(c, n)
    ensures Meaning(JmpShort(n)) == X.Jmp(n)
    ensures Meaning(JmpNear(v)) == X.Jmp(v)
  {
  }

  /** The address a fails the bounds check: below the base, or above the highest start. */
  predicate OutOfBound(c: X.Cc, a: u32, v: u32) {
    if c == X.CcB then a < v else v < a
  }

  lemma CmpFlags(c: X.Cc, a: u32, v: u32)
    requires c == X.CcB || c == X.CcA
    ensures X.Holds(X.AluFlags(X.CMP, a, v), c) == OutOfBound(c, a, v)
  {
  }

  /** cmp eax, v; jcc n */
  lemma RunBound(h: X.Host, v: u32, c: X.Cc, n: u8, k: Code, k': Code, s: X.State) returns (s': X.State)
    requires s.status == X.Running && s.x.rax < 0x1_0000_0000 && (c == X.CcB || c == X.CcA) && Skip(k, n) == Some(k')
    ensures s' == s.(fl := s'.fl, time := s'.time)
    ensures Exec(h, I(CmpEax, v, Then(Jcc8(c, n), k)), s) == Exec(h, if OutOfBound(c, s.x.rax, v) then k' else k, s')
  {
    hide Exec, Skip, Meaning, X.Effect, X.AluFlags, X.Wrap32, And32, Or32, Xor32, Add32, Sub32, X.Holds;
    BoundMeans(v, c, n);
    CmpFlags(c, s.x.rax, v);
    var s1 := DoAluImm(h, Imm32(CmpEax, v), X.CMP, X.RAX, v, Then(Jcc8(c, n), k), s);
    if X.Holds(s1.fl, c) {
      s' := Jump(h, Jcc8(c, n), k, n, k', s1);
    } else {
      s' := Go(h, Jcc8(c, n), k, s1);
      StepJump(h, X.Jcc(c, n), s1);
    }
  }

  lemma RunJumpOver(h: X.Host, t: Multi, k: Code, k': Code, s: X.State) returns (s': X.State)
    requires s.status == X.Running && SlowBody(t) < 0x8000_0000 && Span(k, SlowBody(t), k')
    ensures s' == Tick(s, s)
    ensures Exec(h, JumpOver(t, k), s) == Exec(h, k', s')
  {
    hide Exec, Skip, Meaning, SlowBody;
    var n := SlowBody(t);
    if n <= 127 {
      BoundMeans(0, X.CcB, n);
      s' := Jump(h, JmpShort(n), k, n, k', s);
    } else {
      BoundMeans(n, X.CcB, 0);
      s' := Jump(h, JmpNear(n), k, n, k', s);
    }
  }

  /** An address that passes both bounds checks keeps the whole transfer inside the region. */
  lemma InBounds(h: X.Host, m: Bus.Memory, f: Sram, t: Multi, a: u32)
    requires SramOk(h, m, f)
    ensures f.base <= a <= HighestStart(f, t) <==> f.base <= a && a + t.Len() <= f.base + f.size
  {
    SramBounds(h, m, f);
  }

  lemma LeftAfter(s: X.State, s1: X.State, s': X.State, o: Option<(Regs, Bus.Memory)>)
    requires Left(s1, s', o)
    requires s1 == s.(fl := s1.fl, time := s1.time)
    ensures Left(s, s', o)
  {
  }

  lemma LeftBefore(s: X.State, s1: X.State, s': X.State, o: Option<(Regs, Bus.Memory)>)
    requires Left(s, s1, o) && s' == s1.(time := s'.time)
    ensures Left(s, s', o)
  {
  }

  /** The fast path and the jump over the slow one. */
  lemma RunFastBranch(h: X.Host, env: Env, f: Sram, t: Multi, k: Code, s: X.State) returns (s': X.State)
    requires Ready(h, s) && SramOk(h, s.mem, f) && s.x.rax == Start(t, s.guest.r) && JbTarget(t) <= 127
    requires SlowBody(t) < 0x8000_0000 && Span(SlowPath(env, t, k), SlowBody(t), k)
    requires f.base <= s.x.rax && s.x.rax + t.Len() <= f.base + f.size
    ensures Exec(h, AfterJa(env, f, t, k), s) == Exec(h, k, s')
    ensures Left(s, s', Transferred(t, s.guest.r, s.mem))
  {
    hide Exec, Skip, FastPath, SlowPath, SlowBody, JbTarget, JumpOver, SramOk, Transferred, Start, Count, HostOk;
    var slow := SlowPath(env, t, k);
    var s1 := RunFastPath(h, f, t, JumpOver(t, slow), s);
    LeftReady(h, s, s1, Transferred(t, s.guest.r, s.mem));
    s' := RunJumpOver(h, t, slow, k, s1);
    LeftBefore(s, s1, s', Transferred(t, s.guest.r, s.mem));
  }

  /** Whichever path the bounds checks pick, the result is the bus transfer. */
  lemma RunBothPaths(h: X.Host, env: Env, f: Sram, t: Multi, k: Code, s: X.State) returns (s': X.State)
    requires Ready(h, s) && EnvOk(h, env) && SramOk(h, s.mem, f) && s.x.rbx < 2 && BaseSafe(t)
    requires JbTarget(t) <= 127 && s.x.rax == Start(t, s.guest.r)
    ensures Exec(h, BothPaths(env, f, t, k), s) == Exec(h, k, s')
    ensures Left(s, s', Transferred(t, s.guest.r, s.mem))
  {
    hide Exec, Skip, BothPaths, AfterJa, SlowPath, SlowBody, JaTarget, JbTarget, HighestStart, SramOk, Left,
         Transferred, SlowTransferred, BaseSafe, Start, Count, HostOk;
    JumpsLand(env, f, t, k);
    SlowIsTransferred(t, s.guest.r, s.mem);
    InBounds(h, s.mem, f, t, s.x.rax);
    var slow := SlowPath(env, t, k);
    var o := Transferred(t, s.guest.r, s.mem);
    var s1 := RunBound(h, f.base, X.CcB, JbTarget(t), AfterJb(env, f, t, k), slow, s);
    if s.x.rax < f.base {
      s' := RunSlowPath(h, env, t, k, s1);
      LeftAfter(s, s1, s', o);
    } else {
      var s2 := RunBound(h, HighestStart(f, t), X.CcA, JaTarget(t), AfterJa(env, f, t, k), slow, s1);
      if s.x.rax > HighestStart(f, t) {
        s' := RunSlowPath(h, env, t, k, s2);
      } else {
        s' := RunFastBranch(h, env, f, t, k, s2);
      }
      LeftAfter(s, s2, s', o);
    }
  }

  ghost predicate EnvFits(h: X.Host, env: Env, m: Bus.Memory) {
    EnvOk(h, env) && (env.sram.Some? ==> SramOk(h, m, env.sram.value))
  }

  /** A load that overwrites its base and goes on meets different words on the two paths;
      any other transfer does not depend on which is taken. */
  lemma RunMulti(h: X.Host, env: Env, t: Multi, k: Code, s: X.State) returns (s': X.State)
    requires Ready(h, s) && EnvFits(h, env, s.mem) && s.x.rbx < 2 && s.x.rax == Start(t, s.guest.r)
    requires BaseSafe(t) || env.sram.None?
    ensures Exec(h, MultiCode(env, t, k), s) == Exec(h, k, s')
    ensures Left(s, s', SlowTransferred(t, s.guest.r, s.mem))
    ensures BaseSafe(t) ==> Left(s, s', Transferred(t, s.guest.r, s.mem))
  {
    hide Exec, BothPaths, SlowPath, JbTarget, Left, Transferred, SlowTransferred, BaseSafe, Start, HostOk, SramOk;
    if BaseSafe(t) {
      SlowIsTransferred(t, s.guest.r, s.mem);
    }
    if env.sram.Some? && JbTarget(t) <= 127 {
      s' := RunBothPaths(h, env, env.sram.value, t, k, s);
    } else {
      s' := RunSlowPath(h, env, t, k, s);
    }
  }

  /** Inside SRAM the inline path and the helper path leave the same registers, memory and
      fault flag; so it does not matter which one a displacement limit selects. */
  lemma PathsAgree(h: X.Host, env: Env, f: Sram, t: Multi, k: Code, s: X.State)
    requires Ready(h, s) && EnvOk(h, env) && SramOk(h, s.mem, f) && s.x.rbx < 2 && BaseSafe(t)
    requires s.x.rax == Start(t, s.guest.r) && f.base <= s.x.rax && s.x.rax + t.Len() <= f.base + f.size
    ensures exists fast: X.State, slow: X.State :: SameEffect(h, env, f, t, k, s, fast, slow)
  {
    hide Exec, FastPath, SlowPath, Transferred, SlowTransferred, BaseSafe, Start, HostOk, SramOk;
    SlowIsTransferred(t, s.guest.r, s.mem);
    var fast := RunFastPath(h, f, t, k, s);
    var slow := RunSlowPath(h, env, t, k, s);
    assert SameEffect(h, env, f, t, k, s, fast, slow);
  }

  /** The two paths reach k in states with one guest, memory, stack and fault register. */
  predicate SameEffect(h: X.Host, env: Env, f: Sram, t: Multi, k: Code, s: X.State, fast: X.State, slow: X.State) {
    && Exec(h, FastPath(f, t, k), s) == Exec(h, k, fast) && Exec(h, SlowPath(env, t, k), s) == Exec(h, k, slow)
    && fast.guest == slow.guest && fast.mem == slow.mem && fast.x.rbx == slow.x.rbx == s.x.rbx
    && fast.stack == slow.stack == s.stack
  }
}
