/** The run loop: decode through a direct-mapped cache, execute, tick the timers, dispatch
    at most one pending exception. */
module RunLoop {
  import opened Words
  import opened Cpu
  import opened Insn
  import opened Nvic
  import opened SysTick
  import opened Arbitration
  import Bus

  const DCACHE_SIZE: nat := 4096
  const BLOCK_LEN: nat := 32

  /** Cycle counter of the trace unit. */
  datatype Dwt = Dwt(enabled: bool, cyccnt: u32)

  /** Received bytes wait in a ring; head and tail wrap as bytes do. */
  type Ring = s: seq<u8> | |s| == 64 witness seq<u8>(64, _ => 0)
  datatype Uart = Uart(replay: bool, rx: Ring, head: u8, tail: u8)

  /** Everything the run loop reads or writes. */
  datatype Board = Board(c: CpuState, m: Bus.Memory, st: Timer, pendsv: bool, nvic: Lines, dwt: Dwt, uart: Uart)

  /** The interpreter and the decoder, as the loop calls them. An instruction may change any
      part of the board, since peripherals are memory-mapped; the decoder sees the two
      halfwords at the address. */
  datatype Env = Env(exec: (Board, Insn) -> (Board, bool), decoder: (u32, Option<u32>, Option<u32>) -> Insn)

  function Decode(env: Env, m: Bus.Memory, pc: u32): Insn {
    env.decoder(pc, Bus.Read(m, pc, 2), Bus.Read(m, Add32(pc, 2), 2))
  }

  /* Code in read-only memory. */

  /** Neither halfword at the address lies in a writable region. */
  predicate InRom(m: Bus.Memory, pc: u32) {
    Unwritable(m, pc) && Unwritable(m, Add32(pc, 2))
  }

  predicate Unwritable(m: Bus.Memory, a: u32) {
    match Bus.Find(m, a) case None => true case Some(k) => !m[k].writable
  }

  lemma UnwritableKept(m: Bus.Memory, m': Bus.Memory, a: u32)
    requires Bus.RomKept(m, m') && Unwritable(m, a)
    ensures Unwritable(m', a) && Bus.Read(m', a, 2) == Bus.Read(m, a, 2)
  {
    Bus.FindKept(m, m', a, 0);
  }

  lemma DecodeKept(env: Env, m: Bus.Memory, m': Bus.Memory, pc: u32)
    requires Bus.RomKept(m, m') && InRom(m, pc)
    ensures InRom(m', pc) && Decode(env, m', pc) == Decode(env, m, pc)
  {
    UnwritableKept(m, m', pc);
    UnwritableKept(m, m', Add32(pc, 2));
  }

  lemma {:induction false} WordsKeepRom(m: Bus.Memory, a: u32, ws: seq<u32>)
    ensures Bus.RomKept(m, Bus.WriteWords(m, a, ws).0)
    decreases |ws|
  {
    if |ws| != 0 && Bus.Write(m, a, 4, ws[0]).Some? {
      hide Bus.Write, Bus.RomKept;
      Bus.WriteKeeps(m, a, 4, ws[0]);
      var m' := Bus.Write(m, a, 4, ws[0]).value;
      WordsKeepRom(m', Add32(a, 4), ws[1..]);
      Bus.RomKeptTrans(m, m', Bus.WriteWords(m', Add32(a, 4), ws[1..]).0);
    }
  }

  lemma EntryKeepsRom(c: CpuState, m: Bus.Memory, exc: u8)
    ensures Bus.RomKept(m, ExcEnter(c, m, exc).m)
  {
    hide Bus.RomKept, Bus.WriteWords, Frame;
    WordsKeepRom(m, Sub32(c.r[REG_SP], 32), Frame(c, exc));
  }

  /** What the run loop relies on: a failing instruction leaves the core halted, and no
      instruction changes read-only memory or the map. */
  ghost predicate Lawful(env: Env) {
    forall b: Board, i: Insn ::
      (!env.exec(b, i).1 ==> env.exec(b, i).0.c.halted) && Bus.RomKept(b.m, env.exec(b, i).0.m)
  }

  /* One turn. */

  function TickDwt(d: Dwt, n: nat): Dwt {
    if d.enabled then d.(cyccnt := (d.cyccnt + n) % 0x1_0000_0000) else d
  }

  function Tick(b: Board, n: nat): Board {
    b.(st := Ticked(b.st, n), dwt := TickDwt(b.dwt, n))
  }

  predicate Interruptible(c: CpuState) {
    c.mode.Thread? && c.primask % 2 == 0 && c.basepri == 0
  }

  function Enter(b: Board, exc: u8): Board {
    var o := ExcEnter(b.c, b.m, exc);
    b.(c := o.c, m := o.m)
  }

  /** At most one exception is taken: SysTick before PendSV before the chosen line. */
  function Dispatch(b: Board): Board {
    if !Interruptible(b.c) then b
    else if b.st.irqPending then Enter(b.(st := b.st.(irqPending := false)), EXC_SYSTICK)
    else if b.pendsv then Enter(b.(pendsv := false), EXC_PENDSV)
    else match Best(b.nvic)
      case None => b
      case Some(irq) => Enter(b.(nvic := Accept(b.nvic, irq)), EXC_IRQ0 + irq)
  }

  lemma DispatchKeepsRom(b: Board)
    ensures Bus.RomKept(b.m, Dispatch(b).m)
  {
    hide Bus.RomKept, ExcEnter;
    Bus.SelfKept(b.m);
    EntryKeepsRom(b.c, b.m, EXC_SYSTICK);
    EntryKeepsRom(b.c, b.m, EXC_PENDSV);
    if Best(b.nvic).Some? {
      EntryKeepsRom(b.c, b.m, EXC_IRQ0 + Best(b.nvic).value);
    }
  }

  /** One turn of the loop; false when the instruction failed, which ends the run uncounted. */
  function UnitStep(env: Env, b: Board): (Board, bool) {
    var (b', ok) := env.exec(b, Decode(env, b.m, b.c.Pc()));
    if ok then (Dispatch(Tick(b', 1)), true) else (b', false)
  }

  /** The board after at most n turns, and how many were counted. */
  function Run(env: Env, b: Board, n: nat): (Board, nat)
    decreases n
  {
    if n == 0 || b.c.halted then (b, 0)
    else
      var (b', ok) := UnitStep(env, b);
      if !ok then (b', 0)
      else var (b'', k) := Run(env, b', n - 1); (b'', k + 1)
  }

  /** Never more turns than asked for; fewer only when the core halts. */
  lemma {:induction false} RunCount(env: Env, b: Board, n: nat)
    requires Lawful(env)
    ensures Run(env, b, n).1 <= n
    ensures Run(env, b, n).1 < n ==> Run(env, b, n).0.c.halted
    decreases n
  {
    hide Dispatch, Decode, Tick;
    if n != 0 && !b.c.halted && UnitStep(env, b).1 {
      RunCount(env, UnitStep(env, b).0, n - 1);
    }
  }

  /** Splitting a run anywhere changes nothing: not the board, not the count, not where it
      halts or which interrupts it takes. */
  lemma {:induction false} BatchLaw(env: Env, b: Board, j: nat, k: nat)
    requires Lawful(env)
    ensures var first := Run(env, b, j); var second := Run(env, first.0, k);
      Run(env, b, j + k) == (second.0, first.1 + second.1)
    decreases j
  {
    hide Dispatch, Decode, Tick;
    if j != 0 && !b.c.halted && UnitStep(env, b).1 {
      BatchLaw(env, UnitStep(env, b).0, j - 1, k);
    }
  }

  /* The budget of a chain of translated blocks. */

  /** How far a chain may run before interrupts are looked at again. */
  function SafeBudget(st: Timer, pendsv: bool, remaining: nat): (r: nat)
    ensures r <= remaining
  {
    var cap := if pendsv && BLOCK_LEN < remaining then BLOCK_LEN else remaining;
    if !st.Enabled() || !st.TickInt() then cap
    else
      var cvr := if st.cvr != 0 then st.cvr else st.rvr;
      if cvr != 0 && cvr < cap then cvr else cap
  }

  /** With SysTick and its interrupt enabled, and not rewritten meanwhile, a chain that
      respects its budget sees at most one expiry, so none is merged into another. */
  lemma BudgetSeesOneExpiry(st: Timer, pendsv: bool, remaining: nat, n: nat)
    requires st.Enabled() && st.TickInt() && n <= SafeBudget(st, pendsv, remaining)
    ensures Expiries(st, n) <= 1
  {
    if st.Left() > 0 {
      OneExpiry(st, n);
    }
  }

  /* The decode cache. */

  datatype Entry = Entry(valid: bool, tag: u32, ins: Insn)

  function CacheIndex(pc: u32): nat { pc / 2 % DCACHE_SIZE }

  /** Every valid entry is what its tag decodes to now, and will keep decoding to. */
  ghost predicate Coherent(env: Env, m: Bus.Memory, cache: seq<Entry>) {
    forall k :: 0 <= k < |cache| && cache[k].valid ==>
      InRom(m, cache[k].tag) && cache[k].ins == Decode(env, m, cache[k].tag)
  }

  lemma CoherentKept(env: Env, m: Bus.Memory, m': Bus.Memory, cache: seq<Entry>)
    requires Coherent(env, m, cache) && Bus.RomKept(m, m')
    ensures Coherent(env, m', cache)
  {
    forall k | 0 <= k < |cache| && cache[k].valid
      ensures InRom(m', cache[k].tag) && cache[k].ins == Decode(env, m', cache[k].tag)
    {
      DecodeKept(env, m, m', cache[k].tag);
    }
  }

  /** Every instruction of the run is fetched from read-only memory. */
  ghost predicate StaysInRom(env: Env, b: Board, n: nat)
    decreases n
  {
    n == 0 || b.c.halted ||
      (InRom(b.m, b.c.Pc()) && (UnitStep(env, b).1 ==> StaysInRom(env, UnitStep(env, b).0, n - 1)))
  }

  class Runner {
    const env: Env
    const cache: array<Entry>
    var board: Board

    constructor (env: Env, board: Board)
      ensures this.env == env && this.board == board && cache.Length == DCACHE_SIZE && fresh(cache)
    {
      this.env := env;
      this.board := board;
      cache := new Entry[DCACHE_SIZE](_ =>
        Entry(false, 0, Insn(Undefined, 0, 2, 0, 0, 0, 0, 0, 0, {}, false, false, false, false, 0, 0, 0, 0)));
    }

    method Invalidate()
      requires cache.Length == DCACHE_SIZE
      modifies cache
      ensures forall k :: 0 <= k < DCACHE_SIZE ==> !cache[k].valid
    {
      for k := 0 to DCACHE_SIZE
        invariant forall j :: 0 <= j < k ==> !cache[j].valid
      {
        cache[k] := cache[k].(valid := false);
      }
    }

    /** Decode through the cache: never anything but what memory decodes to now, and the
        cache stays coherent as long as code is read-only. */
    method CacheDecode(pc: u32) returns (i: Insn)
      requires cache.Length == DCACHE_SIZE
      modifies cache
      ensures old(Coherent(env, board.m, cache[..])) ==> i == Decode(env, board.m, pc)
      ensures old(Coherent(env, board.m, cache[..])) && InRom(board.m, pc) ==> Coherent(env, board.m, cache[..])
    {
      hide Decode, InRom;
      var k := CacheIndex(pc);
      if cache[k].valid && cache[k].tag == pc {
        assert cache[..][k] == cache[k];
        return cache[k].ins;
      }
      i := Decode(env, board.m, pc);
      ghost var before := cache[..];
      cache[k] := Entry(true, pc, i);
      assert cache[..] == before[k := Entry(true, pc, i)];
    }

    /** One turn: decode, execute, tick, dispatch. */
    method Step() returns (ok: bool)
      requires cache.Length == DCACHE_SIZE
      modifies this, cache
      ensures old(Coherent(env, board.m, cache[..])) ==> (board, ok) == UnitStep(env, old(board))
      ensures old(Coherent(env, board.m, cache[..]) && InRom(board.m, board.c.Pc())) ==>
        Coherent(env, old(board).m, cache[..])
      ensures !ok && Lawful(env) ==> board.c.halted
    {
      hide Decode, InRom, Dispatch, Tick, Coherent, Bus.RomKept;
      var i := CacheDecode(board.c.Pc());
      var (b', done) := env.exec(board, i);
      board, ok := b', done;
      if ok {
        board := Dispatch(Tick(board, 1));
      }
    }

    /** Run at most maxSteps instructions, without a translator. */
    method Steps(maxSteps: nat) returns (count: nat)
      requires cache.Length == DCACHE_SIZE && Lawful(env) && StaysInRom(env, board, maxSteps)
      modifies this, cache
      ensures (board, count) == Run(env, old(board), maxSteps)
      ensures count <= maxSteps
    {
      hide Decode, InRom, UnitStep, Bus.RomKept, Coherent, Lawful;
      Invalidate();
      NothingCached(env, board.m, cache[..]);
      count := 0;
      while count < maxSteps && !board.c.halted
        invariant count <= maxSteps && StaysInRom(env, board, maxSteps - count)
        invariant Coherent(env, board.m, cache[..])
        invariant var rest := Run(env, board, maxSteps - count);
          Run(env, old(board), maxSteps) == (rest.0, count + rest.1)
        decreases maxSteps - count
      {
        ghost var b := board;
        var ok := Step();
        if !ok {
          break;
        }
        StepKeepsRom(env, b);
        CoherentKept(env, b.m, board.m, cache[..]);
        count := count + 1;
      }
    }
  }

  lemma NothingCached(env: Env, m: Bus.Memory, cache: seq<Entry>)
    requires forall k :: 0 <= k < |cache| ==> !cache[k].valid
    ensures Coherent(env, m, cache)
  {
  }

  lemma StepKeepsRom(env: Env, b: Board)
    requires Lawful(env)
    ensures Bus.RomKept(b.m, UnitStep(env, b).0.m)
  {
    hide Bus.RomKept, Dispatch, Decode;
    var (b', ok) := env.exec(b, Decode(env, b.m, b.c.Pc()));
    DispatchKeepsRom(Tick(b', 1));
    Bus.RomKeptTrans(b.m, b'.m, Dispatch(Tick(b', 1)).m);
  }
}
