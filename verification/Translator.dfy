/** The run loop with the translator: chains of translated blocks under an interrupt budget,
    one batched tick and one look at the pending exceptions after each. */
module Translator {
  import opened Words
  import opened Cpu
  import opened Insn
  import opened Nvic
  import opened SysTick
  import opened RunLoop
  import Jit
  import Arbitration
  import Bus

  /* The reference: batches of sequential steps. */

  /** After a batch the timers advance by its steps at once, then at most one exception is taken. */
  function Settle(b: Board, k: nat): Board { Dispatch(Tick(b, k)) }

  /** Running batches of the given lengths: the board, and the steps counted. */
  function Batched(env: Env, b: Board, ns: seq<nat>): (Board, nat)
    decreases |ns|
  {
    if |ns| == 0 then (b, 0)
    else
      var (p, k) := Batched(env, b, ns[..|ns| - 1]);
      var (b', j) := Jit.Sequential(env, p, ns[|ns| - 1]);
      (Settle(b', j), k + j)
  }

  /** Every batch stays within the budget computed where it starts. */
  ghost predicate Budgeted(env: Env, b: Board, ns: seq<nat>, max: nat)
    decreases |ns|
  {
    |ns| == 0 ||
    var (p, k) := Batched(env, b, ns[..|ns| - 1]);
    && Budgeted(env, b, ns[..|ns| - 1], max) && ns[|ns| - 1] > 0
    && k + Jit.Sequential(env, p, ns[|ns| - 1]).1 <= max
    && Jit.Sequential(env, p, ns[|ns| - 1]).1 <= SafeBudget(p.st, p.pendsv, max - k)
  }

  lemma BatchedAppend(env: Env, b: Board, ns: seq<nat>, n: nat)
    ensures var (p, k) := Batched(env, b, ns); var (b', j) := Jit.Sequential(env, p, n);
      Batched(env, b, ns + [n]) == (Settle(b', j), k + j)
  {
    hide Settle;
    assert (ns + [n])[..|ns|] == ns;
  }

  lemma BudgetedAppend(env: Env, b: Board, ns: seq<nat>, n: nat, max: nat)
    requires Budgeted(env, b, ns, max) && Batched(env, b, ns).1 <= max && n > 0
    requires var (p, k) := Batched(env, b, ns); Jit.Sequential(env, p, n).1 <= SafeBudget(p.st, p.pendsv, max - k)
    ensures Budgeted(env, b, ns + [n], max)
  {
    hide SafeBudget, Jit.Sequential;
    assert (ns + [n])[..|ns|] == ns;
  }

  /** Where SysTick interrupts and the batch leaves its registers alone, the batch sees it
      expire at most once: no tick is lost by merging two expiries into one request. */
  lemma {:induction false} EveryBatchSeesOneExpiry(env: Env, b: Board, ns: seq<nat>, max: nat, at: nat)
    requires Budgeted(env, b, ns, max) && at < |ns|
    ensures var p := Batched(env, b, ns[..at]).0; var (b', j) := Jit.Sequential(env, p, ns[at]);
      p.st.Enabled() && p.st.TickInt() && b'.st == p.st ==> Expiries(b'.st, j) <= 1
    decreases |ns|
  {
    hide SafeBudget, Jit.Sequential, Expiries, Batched;
    if at == |ns| - 1 {
      var (p, k) := Batched(env, b, ns[..at]);
      var (b', j) := Jit.Sequential(env, p, ns[at]);
      if p.st.Enabled() && p.st.TickInt() {
        BudgetSeesOneExpiry(p.st, p.pendsv, max - k, j);
      }
    } else {
      var front := ns[..|ns| - 1];
      assert front[..at] == ns[..at];
      EveryBatchSeesOneExpiry(env, b, front, max, at);
    }
  }

  /* A batch against the loop that looks after every instruction. */

  /** Instructions neither read nor write the timers. */
  ghost predicate Clockless(env: Env) {
    forall b: Board, i: Insn, n: nat :: env.exec(Tick(b, n), i) == (Tick(env.exec(b, i).0, n), env.exec(b, i).1)
  }

  ghost predicate HaltSticks(env: Env) {
    forall b: Board, i: Insn :: b.c.halted ==> env.exec(b, i).0.c.halted
  }

  /** No step but the last leaves an exception the loop would take. */
  ghost predicate Silent(env: Env, b: Board, n: nat)
    decreases n
  {
    n <= 1 || b.c.halted ||
    var (b', ok) := env.exec(b, Decode(env, b.m, b.c.Pc()));
    ok ==> Settle(b', 1) == Tick(b', 1) && Silent(env, Tick(b', 1), n - 1)
  }

  lemma SettleSticky(b: Board, k: nat)
    ensures (b.c.halted ==> Settle(b, k).c.halted) && Settle(b, k).c.cycles == b.c.cycles
  {
    hide ExcEnter, Expiries, Remaining;
    EntrySticky(b.c, b.m, EXC_SYSTICK);
    EntrySticky(b.c, b.m, EXC_PENDSV);
    if Arbitration.Best(b.nvic).Some? {
      EntrySticky(b.c, b.m, EXC_IRQ0 + Arbitration.Best(b.nvic).value);
    }
  }

  /** Taking an exception neither restarts a halted core nor advances the cycle counter. */
  lemma EntrySticky(c: CpuState, m: Bus.Memory, exc: u8)
    ensures var o := ExcEnter(c, m, exc); (c.halted ==> o.c.halted) && o.c.cycles == c.cycles
  {
    hide Bus.WriteWords, Bus.Read, Frame;
  }

  lemma TickTwice(b: Board, j: nat, k: nat)
    ensures Tick(Tick(b, j), k) == Tick(b, j + k)
  {
    hide Ticked;
    TickAdds(b.st, j, k);
  }

  /** Sequential steps commute with the timers. */
  lemma {:induction false} SequentialTicks(env: Env, b: Board, t: nat, n: nat)
    requires Clockless(env)
    ensures var r := Jit.Sequential(env, b, n); Jit.Sequential(env, Tick(b, t), n) == (Tick(r.0, t), r.1)
    decreases n
  {
    hide Decode, Ticked, TickDwt;
    if n != 0 && !b.c.halted {
      var i := Decode(env, b.m, b.c.Pc());
      assert env.exec(Tick(b, t), i) == (Tick(env.exec(b, i).0, t), env.exec(b, i).1);
      SequentialTicks(env, env.exec(b, i).0, t, n - 1);
    }
  }

  /** A batch during which nothing could be taken is the same number of turns of the plain
      loop: same board, same count, the exception after it taken at the same instruction. */
  lemma {:induction false} BatchIsRun(env: Env, b: Board, n: nat)
    requires Lawful(env) && Clockless(env) && Silent(env, b, n) && n > 0 && !b.c.halted
    ensures var (b', k) := Jit.Sequential(env, b, n); var r := Run(env, b, n);
      if b'.c.halted then r.0.c.halted && r.1 == k else r == (Settle(b', k), k)
    decreases n
  {
    hide Decode, Dispatch, Tick;
    var (b1, ok) := env.exec(b, Decode(env, b.m, b.c.Pc()));
    if ok {
      var t := Tick(b1, 1);
      TickOnly(b1, 1);
      if n == 1 || b1.c.halted {
        if b1.c.halted {
          SettleSticky(b1, 1);
        }
      } else {
        SequentialTicks(env, b1, 1, n - 1);
        var (b', k) := Jit.Sequential(env, b1, n - 1);
        TickTwice(b', 1, k);
        TickOnly(b', 1);
        BatchIsRun(env, t, n - 1);
      }
    }
  }

  lemma TickOnly(b: Board, n: nat)
    ensures Tick(b, n).c == b.c
  {
  }

  function Total(ns: seq<nat>): nat
    decreases |ns|
  {
    if |ns| == 0 then 0 else Total(ns[..|ns| - 1]) + ns[|ns| - 1]
  }

  ghost predicate AllSilent(env: Env, b: Board, ns: seq<nat>)
    decreases |ns|
  {
    |ns| == 0 ||
    var n := ns[|ns| - 1];
    AllSilent(env, b, ns[..|ns| - 1]) && n > 0 && Silent(env, Batched(env, b, ns[..|ns| - 1]).0, n)
  }

  /** With no exception to be taken inside a batch, the loop with the translator is the loop
      without it: same board, same count, same interrupts at the same instructions; and it
      halts when that one does. */
  lemma {:induction false} BatchedIsRun(env: Env, b: Board, ns: seq<nat>)
    requires Lawful(env) && Clockless(env) && AllSilent(env, b, ns)
    ensures var r, q := Batched(env, b, ns), Run(env, b, Total(ns));
      if r.0.c.halted then q.0.c.halted else q == r
    decreases |ns|
  {
    hide Lawful, Clockless, Silent, Settle, Jit.Sequential, UnitStep;
    if |ns| != 0 {
      var front, n := ns[..|ns| - 1], ns[|ns| - 1];
      BatchedIsRun(env, b, front);
      BatchLaw(env, b, Total(front), n);
      var p := Batched(env, b, front).0;
      if p.c.halted {
        HaltedBatch(env, p, n);
      } else {
        BatchIsRun(env, p, n);
        var (b', k) := Jit.Sequential(env, p, n);
        if b'.c.halted {
          SettleSticky(b', k);
        }
      }
    }
  }

  lemma HaltedBatch(env: Env, b: Board, n: nat)
    requires b.c.halted
    ensures Jit.Sequential(env, b, n) == (b, 0) && Settle(b, 0).c.halted
  {
    hide Settle;
    SettleSticky(b, 0);
  }

  /* Why the budget keeps SysTick on time. */

  ghost predicate TimerAlone(env: Env) {
    forall b: Board, i: Insn :: env.exec(b, i).0.st == b.st
  }

  /** No step but the last leaves a PendSV or an external interrupt the loop would take. */
  ghost predicate Undisturbed(env: Env, b: Board, n: nat)
    decreases n
  {
    n <= 1 || b.c.halted ||
    var (b', ok) := env.exec(b, Decode(env, b.m, b.c.Pc()));
    ok ==>
      && (Interruptible(b'.c) ==> !b'.pendsv && Arbitration.Best(b'.nvic).None?)
      && Undisturbed(env, Tick(b', 1), n - 1)
  }

  /** SysTick cannot ask for an interrupt before the last of n ticks. */
  predicate OnTime(t: Timer, n: nat) {
    !t.irqPending && (!t.Enabled() || !t.TickInt() || t.Left() == 0 || n <= t.Left())
  }

  lemma OnTimeStep(t: Timer, n: nat)
    requires OnTime(t, n) && n >= 2
    ensures OnTime(Ticked(t, 1), n - 1)
  {
  }

  lemma {:induction false} UndisturbedIsSilent(env: Env, b: Board, n: nat)
    requires TimerAlone(env) && OnTime(b.st, n) && Undisturbed(env, b, n)
    ensures Silent(env, b, n)
    decreases n
  {
    hide Decode, Ticked, OnTime, Arbitration.Best, Enter;
    if n > 1 && !b.c.halted {
      var (b', ok) := env.exec(b, Decode(env, b.m, b.c.Pc()));
      if ok {
        OnTimeStep(b.st, n);
        NotYet(Ticked(b.st, 1), n - 1);
        UndisturbedIsSilent(env, Tick(b', 1), n - 1);
      }
    }
  }

  lemma NotYet(t: Timer, n: nat)
    requires OnTime(t, n)
    ensures !t.irqPending
  {
  }

  /** A batch within its budget, with SysTick not yet due, takes the SysTick interrupt at
      the instruction where the plain loop takes it: only PendSV and external interrupts
      raised inside the batch can be late. */
  lemma BudgetedBatchIsRun(env: Env, b: Board, n: nat, remaining: nat)
    requires Lawful(env) && Clockless(env) && TimerAlone(env) && Undisturbed(env, b, n) && n > 0 && !b.c.halted
    requires !b.st.irqPending && n <= SafeBudget(b.st, b.pendsv, remaining)
    ensures var (b', k) := Jit.Sequential(env, b, n); var r := Run(env, b, n);
      if b'.c.halted then r.0.c.halted && r.1 == k else r == (Settle(b', k), k)
  {
    hide Lawful, Clockless, TimerAlone, Undisturbed, Silent, Settle, Jit.Sequential, Run;
    UndisturbedIsSilent(env, b, n);
    BatchIsRun(env, b, n);
  }

  /* The loop itself. */

  /** Equal, or equal but for the cycle counter, which emitted code does not advance. */
  predicate Same(exact: bool, b: Board, b': Board) {
    if exact then b == b' else Jit.Uncounted(b) == Jit.Uncounted(b')
  }

  /** What is asked of the thunks: that there are none, or that they are faithful. */
  ghost predicate Trusted(exact: bool, env: Env, native: Jit.Native, m: Bus.Memory) {
    if exact then Jit.NoThunks(native)
    else Jit.CycleBlind(env) && Jit.Faithful(env, native, m) && Jit.ThunksKeepRom(env, native, m)
  }

  /** An invariant of the firmware and its interrupts, under which code stays in read-only
      memory and no thunk is entered inside an IT block. */
  ghost predicate Firm(env: Env, native: Jit.Native, inv: Board -> bool) {
    && (forall b: Board :: inv(b) == inv(Jit.Uncounted(b)))
    && (forall b: Board :: inv(b) && !b.c.halted ==> Onward(env, native, inv, b))
    && (forall b: Board, n: nat :: inv(b) ==> inv(Settle(b, n)))
  }

  ghost predicate Onward(env: Env, native: Jit.Native, inv: Board -> bool, b: Board) {
    var (b', ok) := env.exec(b, Decode(env, b.m, b.c.Pc()));
    Jit.Suits(env, native, b) && (ok ==> inv(b'))
  }

  lemma {:induction false} FirmThroughout(env: Env, native: Jit.Native, inv: Board -> bool, b: Board, n: nat)
    requires Firm(env, native, inv) && inv(b)
    ensures Jit.Throughout(env, native, b, n)
    decreases n
  {
    hide Decode, Settle, Jit.Suits, Jit.Uncounted;
    if n != 0 && !b.c.halted {
      assert Onward(env, native, inv, b);
      var (b', ok) := env.exec(b, Decode(env, b.m, b.c.Pc()));
      if ok {
        FirmThroughout(env, native, inv, b', n - 1);
      }
    }
  }

  /** The invariant survives a batch that does not fail. */
  lemma {:induction false} FirmBatch(env: Env, native: Jit.Native, inv: Board -> bool, b: Board, n: nat)
    requires Firm(env, native, inv) && inv(b) && Lawful(env)
    ensures var b' := Jit.Sequential(env, b, n).0; inv(b') || b'.c.halted
    decreases n
  {
    hide Decode, Settle, Jit.Suits, Jit.Uncounted;
    if n != 0 && !b.c.halted {
      assert Onward(env, native, inv, b);
      var (b', ok) := env.exec(b, Decode(env, b.m, b.c.Pc()));
      if ok {
        FirmBatch(env, native, inv, b', n - 1);
      }
    }
  }

  lemma FirmSame(env: Env, native: Jit.Native, inv: Board -> bool, exact: bool, b: Board, b': Board)
    requires Firm(env, native, inv) && Same(exact, b, b') && inv(b)
    ensures inv(b')
  {
    hide Settle, Onward;
    if !exact {
      assert inv(b) == inv(Jit.Uncounted(b)) && inv(b') == inv(Jit.Uncounted(b'));
    }
  }

  lemma FirmSettle(env: Env, native: Jit.Native, inv: Board -> bool, b: Board, n: nat)
    requires Firm(env, native, inv) && inv(b)
    ensures inv(Settle(b, n))
  {
    hide Settle, Onward;
  }

  /** The loop's board and count are those of the batches run so far. */
  ghost predicate OnTrack(exact: bool, env: Env, b: Board, ns: seq<nat>, max: nat, now: Board, count: nat) {
    var ref := Batched(env, b, ns);
    Budgeted(env, b, ns, max) && Same(exact, ref.0, now) && count == ref.1
  }

  /** Board and count when the last batch halts the core: as its steps leave them, or, when the
      batch failed in the translator, as one more turn of the loop on the halted core does. */
  ghost predicate Last(env: Env, p: Board, k: nat, n: nat, now: Board, count: nat) {
    var q := Jit.Sequential(env, p, n).0;
    var (u, ok) := UnitStep(env, q);
    (now, count) == (q, k) || (now, count) == (u, if ok then k + 1 else k)
  }

  /** The core has halted within the last batch, in the loop and in the reference; without
      thunks the board is determined. */
  ghost predicate Ended(exact: bool, env: Env, b: Board, ns: seq<nat>, max: nat, now: Board, count: nat) {
    && |ns| > 0 && Budgeted(env, b, ns[..|ns| - 1], max) && now.c.halted && Batched(env, b, ns).0.c.halted
    && var (p, k) := Batched(env, b, ns[..|ns| - 1]);
    exact ==> Last(env, p, k, ns[|ns| - 1], now, count)
  }

  lemma EndedAppend(exact: bool, env: Env, b: Board, ns: seq<nat>, n: nat, max: nat, now: Board, count: nat)
    requires Budgeted(env, b, ns, max) && now.c.halted && Jit.Sequential(env, Batched(env, b, ns).0, n).0.c.halted
    requires exact ==> Last(env, Batched(env, b, ns).0, Batched(env, b, ns).1, n, now, count)
    ensures Ended(exact, env, b, ns + [n], max, now, count)
  {
    hide Budgeted, Jit.Sequential, Settle, Last;
    assert (ns + [n])[..|ns|] == ns;
    BatchedAppend(env, b, ns, n);
    var (b', j) := Jit.Sequential(env, Batched(env, b, ns).0, n);
    SettleSticky(b', j);
  }

  /** A sequential batch from boards that are the same ends in boards that are the same. */
  lemma SameBatch(exact: bool, env: Env, b: Board, b': Board, n: nat)
    requires Same(exact, b, b') && (exact || Jit.CycleBlind(env))
    ensures var r, r' := Jit.Sequential(env, b, n), Jit.Sequential(env, b', n); Same(exact, r.0, r'.0) && r.1 == r'.1
  {
    hide Jit.CycleBlind, Jit.Sequential;
    if !exact {
      Jit.SequentialBlind(env, b, b', n);
    }
  }

  lemma SameFacts(exact: bool, b: Board, b': Board)
    requires Same(exact, b, b')
    ensures b.c.halted == b'.c.halted && b.m == b'.m && b.st == b'.st && b.pendsv == b'.pendsv
    ensures b.c.Pc() == b'.c.Pc() && Jit.Uncounted(b) == Jit.Uncounted(b')
  {
    assert Jit.Uncounted(b).c.halted == Jit.Uncounted(b').c.halted;
    assert Jit.Uncounted(b).c.r == Jit.Uncounted(b').c.r;
    assert Jit.Uncounted(b).m == b.m && Jit.Uncounted(b').m == b'.m;
  }

  lemma EnterBlind(c: CpuState, m: Bus.Memory, exc: u8)
    ensures var o, o' := ExcEnter(c, m, exc), ExcEnter(c.(cycles := 0), m, exc); o' == o.(c := o.c.(cycles := 0))
  {
    hide Bus.WriteWords, Bus.Read, StackedPsr, Sub32, Even;
    SameFrame(c, exc);
  }

  lemma SameFrame(c: CpuState, exc: u8)
    ensures Frame(c.(cycles := 0), exc) == Frame(c, exc)
  {
    hide And32, Or32;
  }

  lemma SettleBlind(b: Board, k: nat)
    ensures Settle(Jit.Uncounted(b), k) == Jit.Uncounted(Settle(b, k))
  {
    hide ExcEnter, Ticked, TickDwt, Arbitration.Best;
    EnterBlind(b.c, b.m, EXC_SYSTICK);
    EnterBlind(b.c, b.m, EXC_PENDSV);
    if Arbitration.Best(b.nvic).Some? {
      EnterBlind(b.c, b.m, EXC_IRQ0 + Arbitration.Best(b.nvic).value);
    }
  }

  lemma SameSettle(exact: bool, b: Board, b': Board, k: nat)
    requires Same(exact, b, b')
    ensures Same(exact, Settle(b, k), Settle(b', k))
  {
    hide Settle, Jit.Uncounted;
    if !exact {
      SettleBlind(b, k);
      SettleBlind(b', k);
    }
  }

  lemma SomeBudget(st: Timer, pendsv: bool, remaining: nat)
    requires remaining > 0
    ensures SafeBudget(st, pendsv, remaining) > 0
  {
  }

  /** A chain's outcome is n sequential steps, exactly or but for cycles, or both have halted. */
  ghost predicate Chained(exact: bool, env: Env, now: Board, n: nat, b': Board, total: nat) {
    if exact then (b', total) == Jit.Sequential(env, now, n) else Jit.Follows(env, now, n, b', total)
  }

  lemma ChainAdvances(exact: bool, env: Env, b: Board, ns: seq<nat>, max: nat, now: Board, count: nat, n: nat,
      b': Board, total: nat)
    requires OnTrack(exact, env, b, ns, max, now, count) && (exact || Jit.CycleBlind(env)) && count <= max
    requires Chained(exact, env, now, n, b', total) && 0 < total <= SafeBudget(now.st, now.pendsv, max - count)
    ensures OnTrack(exact, env, b, ns + [n], max, Settle(b', total), count + total) ||
      Ended(exact, env, b, ns + [n], max, Settle(b', total), count + total)
  {
    hide Batched, Budgeted, Settle, Jit.Sequential, Jit.CycleBlind, Ended, SafeBudget, Same;
    var p, ref := Batched(env, b, ns).0, Jit.Sequential(env, now, n);
    SameBatch(exact, env, p, now, n);
    SameFacts(exact, p, now);
    ChainSame(exact, env, now, n, b', total);
    var (r, j) := Jit.Sequential(env, p, n);
    if Same(exact, ref.0, b') && total == ref.1 {
      SameTrans(exact, r, ref.0, b');
      SameSettle(exact, r, b', total);
      BatchedAppend(env, b, ns, n);
      if n == 0 {
        Jit.NoSteps(env, now);
      }
      BudgetedAppend(env, b, ns, n, max);
    } else {
      SameFacts(exact, r, ref.0);
      SettleSticky(b', total);
      EndedAppend(exact, env, b, ns, n, max, Settle(b', total), count + total);
    }
  }

  lemma ChainSame(exact: bool, env: Env, now: Board, n: nat, b': Board, total: nat)
    requires Chained(exact, env, now, n, b', total)
    ensures var ref := Jit.Sequential(env, now, n);
      (Same(exact, ref.0, b') && total == ref.1) || (!exact && b'.c.halted && ref.0.c.halted)
  {
    hide Jit.Sequential, Jit.Uncounted;
  }

  lemma SameTrans(exact: bool, a: Board, b: Board, c: Board)
    requires Same(exact, a, b) && Same(exact, b, c)
    ensures Same(exact, a, c)
  {
    hide Jit.Uncounted;
  }

  /** A chain has halted the core before it counted a step. */
  ghost predicate Stopped(exact: bool, env: Env, b: Board, ns: seq<nat>, max: nat, n: nat, b': Board, count: nat) {
    var (p, k) := Batched(env, b, ns);
    var q := Jit.Sequential(env, p, n).0;
    Budgeted(env, b, ns, max) && k == count && q.c.halted && b'.c.halted && (exact ==> b' == q)
  }

  lemma Exactly(exact: bool, a: Board, b: Board)
    requires Same(exact, a, b)
    ensures exact ==> a == b
  {
  }

  /** A chain that ran nothing has left the board as it was, or halted the core. */
  lemma ChainIdle(exact: bool, env: Env, b: Board, ns: seq<nat>, max: nat, now: Board, count: nat, n: nat, b': Board)
    requires OnTrack(exact, env, b, ns, max, now, count) && (exact || Jit.CycleBlind(env)) && Lawful(env)
    requires Chained(exact, env, now, n, b', 0)
    ensures b'.c.halted ==> Stopped(exact, env, b, ns, max, n, b', count)
    ensures !b'.c.halted ==> OnTrack(exact, env, b, ns, max, b', count) && Same(exact, now, b')
  {
    hide Batched, Budgeted, Jit.Sequential, Jit.CycleBlind, Ended, SafeBudget, Same, Lawful;
    var p, ref := Batched(env, b, ns).0, Jit.Sequential(env, now, n);
    SameBatch(exact, env, p, now, n);
    ChainSame(exact, env, now, n, b', 0);
    var r := Jit.Sequential(env, p, n).0;
    SameFacts(exact, r, ref.0);
    if Same(exact, ref.0, b') {
      SameFacts(exact, ref.0, b');
    }
    if b'.c.halted {
      if exact {
        Exactly(exact, r, ref.0);
        Exactly(exact, ref.0, b');
      }
    } else {
      StoppedAtOnce(env, now, n);
      SameTrans(exact, p, now, b');
    }
  }

  /** Counting no step without halting is asking for none. */
  lemma StoppedAtOnce(env: Env, b: Board, n: nat)
    requires Lawful(env) && Jit.Sequential(env, b, n).1 == 0 && !Jit.Sequential(env, b, n).0.c.halted
    ensures Jit.Sequential(env, b, n).0 == b
  {
    hide Decode;
  }

  lemma StepAdvances(exact: bool, env: Env, b: Board, ns: seq<nat>, max: nat, now: Board, count: nat)
    requires OnTrack(exact, env, b, ns, max, now, count) && (exact || Jit.CycleBlind(env)) && Lawful(env)
    requires !now.c.halted && count < max
    ensures var (after, ok) := env.exec(now, Decode(env, now.m, now.c.Pc()));
      if ok then
        OnTrack(exact, env, b, ns + [1], max, Settle(after, 1), count + 1) ||
          Ended(exact, env, b, ns + [1], max, Settle(after, 1), count + 1)
      else Ended(exact, env, b, ns + [1], max, after, count)
  {
    hide OnTrack, Jit.CycleBlind, Settle, Ended, SafeBudget, Decode, Same;
    var (after, ok) := env.exec(now, Decode(env, now.m, now.c.Pc()));
    OneStep(env, now);
    Jit.Followed(env, now, 1);
    if ok {
      SomeBudget(now.st, now.pendsv, max - count);
      ChainAdvances(exact, env, b, ns, max, now, count, 1, after, 1);
    } else {
      FailedStep(exact, env, b, ns, max, now, count, after);
    }
  }

  lemma OneStep(env: Env, b: Board)
    requires !b.c.halted
    ensures var (after, ok) := env.exec(b, Decode(env, b.m, b.c.Pc()));
      Jit.Sequential(env, b, 1) == (after, if ok then 1 else 0)
  {
    hide Decode;
    var after := env.exec(b, Decode(env, b.m, b.c.Pc())).0;
    Jit.NoSteps(env, after);
  }

  lemma FailedStep(exact: bool, env: Env, b: Board, ns: seq<nat>, max: nat, now: Board, count: nat, after: Board)
    requires OnTrack(exact, env, b, ns, max, now, count) && (exact || Jit.CycleBlind(env))
    requires Jit.Sequential(env, now, 1).0 == after && after.c.halted
    ensures Ended(exact, env, b, ns + [1], max, after, count)
  {
    hide Batched, Budgeted, Jit.CycleBlind, Ended, Same, Jit.Sequential;
    var p := Batched(env, b, ns).0;
    SameBatch(exact, env, p, now, 1);
    SameFacts(exact, Jit.Sequential(env, p, 1).0, after);
    Exactly(exact, Jit.Sequential(env, p, 1).0, after);
    EndedAppend(exact, env, b, ns, 1, max, after, count);
  }

  lemma InvAdvances(exact: bool, env: Env, native: Jit.Native, inv: Board -> bool, now: Board, n: nat, b': Board,
      total: nat)
    requires Firm(env, native, inv) && inv(now) && Lawful(env) && Chained(exact, env, now, n, b', total)
    ensures b'.c.halted || inv(b')
    ensures Settle(b', total).c.halted || inv(Settle(b', total))
  {
    hide Jit.Sequential, Firm, Lawful, Settle, Same;
    var ref := Jit.Sequential(env, now, n).0;
    FirmBatch(env, native, inv, now, n);
    ChainSame(exact, env, now, n, b', total);
    if b'.c.halted {
      SettleSticky(b', total);
    } else {
      SameFacts(exact, ref, b');
      FirmSame(env, native, inv, exact, ref, b');
      FirmSettle(env, native, inv, b', total);
    }
  }

  /** Everything the loop relies on while the core runs. */
  ghost predicate Grounded(exact: bool, env: Env, native: Jit.Native, inv: Board -> bool, m: Bus.Memory) {
    Jit.Plain(env, m) && Firm(env, native, inv) && Trusted(exact, env, native, m) && HaltSticks(env)
  }

  lemma GroundedKept(exact: bool, env: Env, native: Jit.Native, inv: Board -> bool, m: Bus.Memory, m': Bus.Memory)
    requires Grounded(exact, env, native, inv, m) && Bus.RomKept(m, m')
    ensures Grounded(exact, env, native, inv, m')
  {
    hide Jit.Plain, Firm, HaltSticks, Bus.RomKept, Jit.Faithful, Jit.ThunksKeepRom, Jit.NoThunks;
    Jit.PlainKept(env, m, m');
    Jit.ThunksStay(env, native, m, m');
  }

  lemma SettleKeepsRom(m: Bus.Memory, b: Board, k: nat)
    requires Bus.RomKept(m, b.m)
    ensures Bus.RomKept(m, Settle(b, k).m)
  {
    hide Bus.RomKept, Dispatch;
    DispatchKeepsRom(Tick(b, k));
    Bus.RomKeptTrans(m, b.m, Settle(b, k).m);
  }

  /** Ready to go round: everything cached is what memory decodes to, and the invariant holds. */
  ghost predicate Going(exact: bool, inv: Board -> bool, j: Jit.Cache, cache: seq<Entry>, m: Bus.Memory, now: Board)
    reads j, j.blocks, j.lookupPc, j.lookupIdx, j.counters
  {
    && Grounded(exact, j.env, j.native, inv, now.m) && inv(now)
    && j.Coherent(now.m) && Coherent(j.env, now.m, cache) && Bus.RomKept(m, now.m)
  }

  /** The loop invariant: on track and ready to go round, or halted. */
  ghost predicate Underway(exact: bool, inv: Board -> bool, j: Jit.Cache, cache: seq<Entry>,
    b: Board, ns: seq<nat>, max: nat, now: Board, count: nat)
    reads j, j.blocks, j.lookupPc, j.lookupIdx, j.counters
  {
    || (OnTrack(exact, j.env, b, ns, max, now, count) && (now.c.halted || Going(exact, inv, j, cache, b.m, now)))
    || Ended(exact, j.env, b, ns, max, now, count)
  }

  lemma Starts(exact: bool, inv: Board -> bool, j: Jit.Cache, cache: seq<Entry>, b: Board, max: nat)
    requires Grounded(exact, j.env, j.native, inv, b.m) && inv(b) && j.Coherent(b.m) && Coherent(j.env, b.m, cache)
    ensures Underway(exact, inv, j, cache, b, [], max, b, 0)
  {
    hide Grounded, Coherent, Jit.GoodBlock;
    Bus.SelfKept(b.m);
  }

  lemma ReadyToChain(exact: bool, inv: Board -> bool, j: Jit.Cache, cache: seq<Entry>,
    b: Board, ns: seq<nat>, max: nat, now: Board, count: nat, budget: nat)
    requires Underway(exact, inv, j, cache, b, ns, max, now, count) && !now.c.halted
    ensures OnTrack(exact, j.env, b, ns, max, now, count) && Going(exact, inv, j, cache, b.m, now) && j.Coherent(now.m)
    ensures Jit.Plain(j.env, now.m) && Jit.Throughout(j.env, j.native, now, budget) && Lawful(j.env)
    ensures HaltSticks(j.env)
    ensures if exact then Jit.NoThunks(j.native)
      else Jit.CycleBlind(j.env) && Jit.Faithful(j.env, j.native, now.m) && Jit.ThunksKeepRom(j.env, j.native, now.m)
  {
    hide Firm, Jit.Throughout, Jit.Faithful, Jit.ThunksKeepRom, Jit.CycleBlind, HaltSticks, Jit.NoThunks, Lawful,
         Jit.GoodBlock, Coherent, Bus.RomKept, OnTrack, Jit.StraightCode;
    FirmThroughout(j.env, j.native, inv, now, budget);
    Jit.PlainLawful(j.env, now.m);
  }

  /** The invariant after a chain and one look at the interrupts. */
  lemma AfterChain(exact: bool, inv: Board -> bool, j: Jit.Cache, cache: seq<Entry>, b: Board, ns: seq<nat>, max: nat,
    now: Board, count: nat, n: nat, b': Board, total: nat)
    requires OnTrack(exact, j.env, b, ns, max, now, count) && count <= max
    requires Grounded(exact, j.env, j.native, inv, now.m) && inv(now) && Coherent(j.env, now.m, cache)
    requires Bus.RomKept(b.m, now.m)
    requires Chained(exact, j.env, now, n, b', total) && 0 < total <= SafeBudget(now.st, now.pendsv, max - count)
    requires j.Coherent(b'.m) && Bus.RomKept(now.m, b'.m)
    ensures Underway(exact, inv, j, cache, b, ns + [n], max, Settle(b', total), count + total)
  {
    hide OnTrack, Ended, Grounded, Coherent, Settle, Chained, SafeBudget, Bus.RomKept, Jit.GoodBlock;
    var after := Settle(b', total);
    GroundedMeans(exact, j.env, j.native, inv, now.m);
    ChainAdvances(exact, j.env, b, ns, max, now, count, n, b', total);
    InvAdvances(exact, j.env, j.native, inv, now, n, b', total);
    SettleKeepsRom(now.m, b', total);
    SettleKeepsRom(b'.m, b', total) by { Bus.SelfKept(b'.m); }
    Bus.RomKeptTrans(b.m, now.m, after.m);
    GroundedKept(exact, j.env, j.native, inv, now.m, after.m);
    j.KeptCoherent(b'.m, after.m);
    CoherentKept(j.env, now.m, after.m, cache);
  }

  lemma GroundedMeans(exact: bool, env: Env, native: Jit.Native, inv: Board -> bool, m: Bus.Memory)
    requires Grounded(exact, env, native, inv, m)
    ensures Firm(env, native, inv) && Lawful(env) && (exact || Jit.CycleBlind(env)) && HaltSticks(env)
  {
    hide Firm, HaltSticks, Lawful, Jit.CycleBlind, Jit.Faithful, Jit.ThunksKeepRom, Jit.StraightCode;
  }

  /** The invariant after a chain that ran nothing: unchanged, or the core has halted. */
  lemma AfterIdle(exact: bool, inv: Board -> bool, j: Jit.Cache, cache: seq<Entry>, b: Board, ns: seq<nat>, max: nat,
    now: Board, count: nat, n: nat, b': Board)
    requires OnTrack(exact, j.env, b, ns, max, now, count) && !now.c.halted
    requires Grounded(exact, j.env, j.native, inv, now.m) && inv(now) && Coherent(j.env, now.m, cache)
    requires Bus.RomKept(b.m, now.m)
    requires Chained(exact, j.env, now, n, b', 0) && j.Coherent(b'.m) && Bus.RomKept(now.m, b'.m)
    ensures Coherent(j.env, b'.m, cache)
    ensures if b'.c.halted then Stopped(exact, j.env, b, ns, max, n, b', count)
      else OnTrack(exact, j.env, b, ns, max, b', count) && Going(exact, inv, j, cache, b.m, b')
    ensures !b'.c.halted ==> InRom(b'.m, b'.c.Pc())
  {
    hide OnTrack, Ended, Grounded, Coherent, Chained, Bus.RomKept, Jit.GoodBlock, Same, InRom, Firm;
    GroundedMeans(exact, j.env, j.native, inv, now.m);
    ChainIdle(exact, j.env, b, ns, max, now, count, n, b');
    CoherentKept(j.env, now.m, b'.m, cache);
    InvAdvances(exact, j.env, j.native, inv, now, n, b', 0);
    GroundedKept(exact, j.env, j.native, inv, now.m, b'.m);
    Bus.RomKeptTrans(b.m, now.m, b'.m);
    if !b'.c.halted {
      FirmInRom(j.env, j.native, inv, b');
    }
  }

  lemma FirmInRom(env: Env, native: Jit.Native, inv: Board -> bool, b: Board)
    requires Firm(env, native, inv) && inv(b) && !b.c.halted
    ensures InRom(b.m, b.c.Pc())
  {
    hide InRom, Settle, Jit.RomAhead, Decode;
    assert Onward(env, native, inv, b);
    Jit.RomAt(b.m, b.c.Pc(), 0);
    assert Jit.Plus(b.c.Pc(), 0) == b.c.Pc();
  }

  /** The invariant after one instruction and one look at the interrupts. */
  lemma AfterStep(exact: bool, inv: Board -> bool, j: Jit.Cache, cache: seq<Entry>, b: Board, ns: seq<nat>, max: nat,
    now: Board, count: nat)
    requires OnTrack(exact, j.env, b, ns, max, now, count) && count < max && !now.c.halted
    requires Grounded(exact, j.env, j.native, inv, now.m) && inv(now) && j.Coherent(now.m) && Bus.RomKept(b.m, now.m)
    requires Coherent(j.env, now.m, cache)
    ensures var (after, ok) := j.env.exec(now, Decode(j.env, now.m, now.c.Pc()));
      if ok then Underway(exact, inv, j, cache, b, ns + [1], max, Settle(after, 1), count + 1)
      else Ended(exact, j.env, b, ns + [1], max, after, count)
  {
    hide OnTrack, Ended, Grounded, Coherent, Settle, Bus.RomKept, Jit.GoodBlock, SafeBudget, Decode;
    GroundedMeans(exact, j.env, j.native, inv, now.m);
    var (after, ok) := j.env.exec(now, Decode(j.env, now.m, now.c.Pc()));
    StepAdvances(exact, j.env, b, ns, max, now, count);
    if ok {
      OneStep(j.env, now);
      Jit.Followed(j.env, now, 1);
      SomeBudget(now.st, now.pendsv, max - count);
      LawfulRom(j.env, now);
      j.KeptCoherent(now.m, after.m);
      AfterChain(exact, inv, j, cache, b, ns, max, now, count, 1, after, 1);
    }
  }

  /** The invariant after a chain that ran nothing and one instruction. */
  lemma AfterIdleStep(exact: bool, inv: Board -> bool, j: Jit.Cache, was: seq<Entry>, cache: seq<Entry>, b: Board,
    ns: seq<nat>, max: nat, count: nat, n: nat, b': Board)
    requires Lawful(j.env) && HaltSticks(j.env) && count < max && (!b'.c.halted ==> Coherent(j.env, b'.m, cache))
    requires if b'.c.halted then Stopped(exact, j.env, b, ns, max, n, b', count)
      else OnTrack(exact, j.env, b, ns, max, b', count) && Going(exact, inv, j, was, b.m, b')
    ensures var (after, ok) := UnitStep(j.env, b');
      Underway(exact, inv, j, cache, b, ns + [if b'.c.halted then n else 1], max, after,
        if ok then count + 1 else count)
  {
    hide OnTrack, Ended, Grounded, Coherent, Bus.RomKept, Jit.GoodBlock, Decode, Tick, Dispatch, Lawful;
    if b'.c.halted {
      HaltedStep(j.env, b');
      StoppedEnds(exact, j.env, b, ns, max, n, b', count);
    } else {
      AfterStep(exact, inv, j, cache, b, ns, max, b', count);
    }
  }

  /** After a chain that stopped, one more turn ends the run. */
  lemma StoppedEnds(exact: bool, env: Env, b: Board, ns: seq<nat>, max: nat, n: nat, b': Board, count: nat)
    requires Stopped(exact, env, b, ns, max, n, b', count) && UnitStep(env, b').0.c.halted
    ensures var (after, ok) := UnitStep(env, b');
      Ended(exact, env, b, ns + [n], max, after, if ok then count + 1 else count)
  {
    hide Batched, Budgeted, Jit.Sequential, Ended, UnitStep;
    var (after, ok) := UnitStep(env, b');
    EndedAppend(exact, env, b, ns, n, max, after, if ok then count + 1 else count);
  }

  lemma HaltedStep(env: Env, b: Board)
    requires HaltSticks(env) && b.c.halted
    ensures UnitStep(env, b).0.c.halted
  {
    hide Decode, Dispatch, Tick;
    var b' := env.exec(b, Decode(env, b.m, b.c.Pc())).0;
    SettleSticky(b', 1);
  }

  lemma LawfulRom(env: Env, b: Board)
    requires Lawful(env)
    ensures Bus.RomKept(b.m, env.exec(b, Decode(env, b.m, b.c.Pc())).0.m)
  {
    hide Decode, Bus.RomKept;
  }

  /** The whole loop, at most maxSteps instructions. Never one more; fewer only when the core
      halts. Under the assumptions of Grounded, the board it leaves and the steps it counts
      are those of a run in budgeted batches; when the last batch halts the core, both have
      halted, and without thunks the board is the one `Last` says. */
  method RunFull(r: Runner, j: Jit.Cache, ghost exact: bool, ghost inv: Board -> bool, maxSteps: nat)
    returns (count: nat, ghost ns: seq<nat>)
    requires r.cache.Length == DCACHE_SIZE && j.Shape() && r.env == j.env
    modifies r, r.cache, j, j.blocks, j.lookupPc, j.lookupIdx, j.counters
    ensures j.Shape() && count <= maxSteps
    ensures Lawful(r.env) && count < maxSteps ==> r.board.c.halted
    ensures old(Grounded(exact, r.env, j.native, inv, r.board.m) && inv(r.board) && j.Coherent(r.board.m)) ==>
      || OnTrack(exact, r.env, old(r.board), ns, maxSteps, r.board, count)
      || Ended(exact, r.env, old(r.board), ns, maxSteps, r.board, count)
  {
    hide Grounded, OnTrack, Ended, Going, Underway, Lawful, SafeBudget, Decode, Dispatch, Tick, Bus.RomKept, Coherent,
         Jit.GoodBlock, Jit.Sequential, Jit.Throughout, Jit.Plain, Jit.CycleBlind, Jit.Faithful, Jit.ThunksKeepRom,
         Jit.NoThunks, HaltSticks, Jit.Follows, UnitStep, InRom, Stopped, Jit.Cache.Coherent;
    r.Invalidate();
    NothingCached(r.env, r.board.m, r.cache[..]);
    ghost var b := r.board;
    ghost var hosted := Grounded(exact, r.env, j.native, inv, b.m) && inv(b) && j.Coherent(b.m);
    count, ns := 0, [];
    if hosted {
      Starts(exact, inv, j, r.cache[..], b, maxSteps);
    }
    while count < maxSteps && !r.board.c.halted
      invariant j.Shape() && count <= maxSteps
      invariant hosted ==> Underway(exact, inv, j, r.cache[..], b, ns, maxSteps, r.board, count)
      decreases maxSteps - count
    {
      ghost var now := r.board;
      var budget := SafeBudget(r.board.st, r.board.pendsv, maxSteps - count);
      if hosted {
        ReadyToChain(exact, inv, j, r.cache[..], b, ns, maxSteps, now, count, budget);
        GoingMeans(exact, inv, j, r.cache[..], b.m, now);
      }
      var after, total;
      ghost var n;
      after, total, n := j.RunChained(r.board, budget);
      r.board := after;
      if total > 0 {
        if hosted {
          AfterChain(exact, inv, j, r.cache[..], b, ns, maxSteps, now, count, n, after, total);
        }
        r.board := Dispatch(Tick(r.board, total));
        count := count + total;
        ns := ns + [n];
      } else {
        if hosted {
          AfterIdle(exact, inv, j, r.cache[..], b, ns, maxSteps, now, count, n, after);
        }
        ghost var was := r.cache[..];
        var ok := r.Step();
        if hosted {
          AfterIdleStep(exact, inv, j, was, r.cache[..], b, ns, maxSteps, count, n, after);
        }
        ns := ns + [if after.c.halted then n else 1];
        if !ok {
          break;
        }
        count := count + 1;
      }
    }
    if hosted {
      UnderwayMeans(exact, inv, j, r.cache[..], b, ns, maxSteps, r.board, count);
    }
  }

  lemma GoingMeans(exact: bool, inv: Board -> bool, j: Jit.Cache, cache: seq<Entry>, m: Bus.Memory, now: Board)
    requires Going(exact, inv, j, cache, m, now)
    ensures Grounded(exact, j.env, j.native, inv, now.m) && inv(now) && j.Coherent(now.m)
    ensures Coherent(j.env, now.m, cache)
    ensures Bus.RomKept(m, now.m)
  {
    hide Grounded, Coherent, Bus.RomKept, Jit.GoodBlock;
  }

  lemma UnderwayMeans(exact: bool, inv: Board -> bool, j: Jit.Cache, cache: seq<Entry>,
    b: Board, ns: seq<nat>, max: nat, now: Board, count: nat)
    requires Underway(exact, inv, j, cache, b, ns, max, now, count)
    ensures OnTrack(exact, j.env, b, ns, max, now, count) || Ended(exact, j.env, b, ns, max, now, count)
  {
    hide OnTrack, Ended, Going;
  }
}
