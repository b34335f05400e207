/** Threads under the context switch: what a suspended thread left is what it finds. */
module Threads {
  import opened Words
  import opened Cpu
  import opened Nvic
  import opened ExceptionRoundTrip
  import opened ContextSwitch
  import RunLoop
  import Bus

  /** Where things are: the handler and its literals, the kernel's two words, each thread's
      control block and stack. */
  datatype System = System(at: u32, pool: Pool, kc: u32, kn: u32, tcb: seq<u32>, lo: seq<nat>, hi: seq<nat>)

  predicate WordsApart(a: nat, b: nat) { a + 4 <= b || b + 4 <= a }

  /** The word at a is no part of thread i's stack. */
  predicate OffStack(l: System, i: nat, a: nat)
    requires i < |l.lo| == |l.hi|
  {
    a + 4 <= l.lo[i] || l.hi[i] <= a
  }

  predicate IsThread(l: System, i: nat) { i < |l.tcb| }

  /** Kernel words, control blocks and stacks do not overlap. */
  ghost predicate Apart(l: System) {
    && |l.tcb| == |l.lo| == |l.hi| && WordsApart(l.kc, l.kn)
    && forall i: nat :: IsThread(l, i) ==>
         && l.lo[i] <= l.hi[i] < 0x1_0000_0000 && WordsApart(l.kc, l.tcb[i]) && WordsApart(l.kn, l.tcb[i])
         && OffStack(l, i, l.kc) && OffStack(l, i, l.kn)
         && forall j: nat :: IsThread(l, j) ==>
              OffStack(l, i, l.tcb[j]) &&
                (i != j ==> WordsApart(l.tcb[i], l.tcb[j]) && (l.hi[i] <= l.lo[j] || l.hi[j] <= l.lo[i]))
  }

  predicate Writable4(m: Bus.Memory, a: u32) { Bus.Write(m, a, 4, 0).Some? }

  /** Stacks, control blocks and the current-thread word can be written; the vector and the
      literals are read-only. */
  ghost predicate Mapped(l: System, m: Bus.Memory)
    requires |l.tcb| == |l.lo| == |l.hi|
  {
    && Writable4(m, l.kc) && (forall i: nat :: IsThread(l, i) ==> Writable4(m, l.tcb[i]))
    && (forall i: nat, a: u32 :: IsThread(l, i) && l.lo[i] <= a && a + 4 <= l.hi[i] ==> Writable4(m, a))
    && RunLoop.Unwritable(m, 4 * EXC_PENDSV) && Bus.Read(m, 4 * EXC_PENDSV, 4).Some?
    && Even(Bus.Read(m, 4 * EXC_PENDSV, 4).value) == l.at
    && RunLoop.Unwritable(m, LitAddress(l.at, 8, l.pool.current))
    && RunLoop.Unwritable(m, LitAddress(l.at, 14, l.pool.next))
    && RunLoop.Unwritable(m, LitAddress(l.at, 36, l.pool.ret)) && PoolReads(m, l.at, l.pool, l.kc, l.kn)
  }

  /* Memory that only differs where it may be written. */

  lemma RomWordKept(m: Bus.Memory, m': Bus.Memory, a: u32)
    requires Bus.RomKept(m, m') && RunLoop.Unwritable(m, a)
    ensures RunLoop.Unwritable(m', a) && Bus.Read(m', a, 4) == Bus.Read(m, a, 4)
  {
    Bus.FindKept(m, m', a, 0);
  }

  lemma WritableKept(m: Bus.Memory, m': Bus.Memory, a: u32)
    requires Bus.RomKept(m, m') && Writable4(m, a)
    ensures Writable4(m', a) && forall v: u32 :: Bus.Write(m', a, 4, v).Some?
  {
    Bus.FindKept(m, m', a, 0);
  }

  lemma MappedKept(l: System, m: Bus.Memory, m': Bus.Memory)
    requires |l.tcb| == |l.lo| == |l.hi| && Mapped(l, m) && Bus.RomKept(m, m')
    ensures Mapped(l, m')
  {
    hide Bus.Read, Bus.RomKept, RunLoop.Unwritable, Writable4, LitAddress;
    RomWordKept(m, m', 4 * EXC_PENDSV);
    RomWordKept(m, m', LitAddress(l.at, 8, l.pool.current));
    RomWordKept(m, m', LitAddress(l.at, 14, l.pool.next));
    RomWordKept(m, m', LitAddress(l.at, 36, l.pool.ret));
    WritableKept(m, m', l.kc);
    forall i: nat | IsThread(l, i)
      ensures Writable4(m', l.tcb[i])
    {
      WritableKept(m, m', l.tcb[i]);
    }
    forall i: nat, a: u32 | IsThread(l, i) && l.lo[i] <= a && a + 4 <= l.hi[i]
      ensures Writable4(m', a)
    {
      WritableKept(m, m', a);
    }
  }

  /** Writing words that can all be written succeeds. */
  lemma {:induction false} WordsGo(m: Bus.Memory, a: u32, ws: seq<u32>)
    requires a + 4 * |ws| < 0x1_0000_0000 && forall b: u32 :: a <= b && b + 4 <= a + 4 * |ws| ==> Writable4(m, b)
    ensures Bus.WriteWords(m, a, ws).1
    decreases |ws|
  {
    hide Bus.Write, Writable4, Bus.RomKept;
    if |ws| != 0 {
      assert Writable4(m, a);
      Bus.SelfKept(m);
      WritableKept(m, m, a);
      var m' := Bus.Write(m, a, 4, ws[0]).value;
      Bus.WriteKeeps(m, a, 4, ws[0]);
      forall b: u32 | a + 4 <= b && b + 4 <= a + 4 * |ws|
        ensures Writable4(m', b)
      {
        WritableKept(m, m', b);
      }
      WordsGo(m', a + 4, ws[1..]);
    }
  }

  /* The invariant. */

  /** A suspended thread: its control block points into its stack, at its saved words. */
  predicate Parked(l: System, m: Bus.Memory, u: nat, sp: u32, ws: seq<u32>)
    requires u < |l.tcb| == |l.lo| == |l.hi|
  {
    && Bus.Read(m, l.tcb[u], 4) == Some(sp) && l.lo[u] <= sp && sp + 64 <= l.hi[u] && sp % 4 == 0
    && |ws| == 16 && Bus.ReadWords(m, sp, 16) == Some(ws)
  }

  /** The machine, which thread runs, and what the suspended ones have left where. */
  datatype Node = Node(c: CpuState, m: Bus.Memory, run: nat, sps: seq<u32>, saved: seq<seq<u32>>)

  /** The running thread is in Thread mode on its own stack, with room for a switch. */
  predicate OnStack(l: System, c: CpuState, run: nat)
    requires run < |l.tcb| == |l.lo| == |l.hi|
  {
    UsesPsp(c) && l.lo[run] + 64 <= c.r[REG_SP] <= l.hi[run] && c.r[REG_SP] % 4 == 0
  }

  ghost predicate Inv(l: System, x: Node) {
    && Apart(l) && Mapped(l, x.m) && x.run < |l.tcb| == |x.sps| == |x.saved|
    && OnStack(l, x.c, x.run) && Bus.Read(x.m, l.kc, 4) == Some(l.tcb[x.run])
    && forall u: nat :: IsThread(l, u) && u != x.run ==> Parked(l, x.m, u, x.sps[u], x.saved[u])
  }

  /** The running thread, the kernel calls it makes and the handlers that interrupt it: they may
      store anywhere but in the word that says which thread runs, the stack pointers kept for
      the others, and the others' stacks. */
  ghost predicate Computes(l: System, x: Node, y: Node)
    requires x.run < |l.tcb| == |l.lo| == |l.hi|
  {
    && y.run == x.run && y.sps == x.sps && y.saved == x.saved && OnStack(l, y.c, y.run) && Bus.RomKept(x.m, y.m)
    && Bus.Read(y.m, l.kc, 4) == Bus.Read(x.m, l.kc, 4)
    && (forall u: nat :: IsThread(l, u) && u != x.run ==> Bus.Read(y.m, l.tcb[u], 4) == Bus.Read(x.m, l.tcb[u], 4))
    && (forall u: nat, a: u32 :: IsThread(l, u) && u != x.run && l.lo[u] <= a && a + 4 <= l.hi[u] ==>
          Bus.Read(y.m, a, 4) == Bus.Read(x.m, a, 4))
  }

  lemma {:induction false} SameWords(m: Bus.Memory, m': Bus.Memory, a: u32, n: nat)
    requires a + 4 * n < 0x1_0000_0000
    requires forall b: u32 :: a <= b && b + 4 <= a + 4 * n ==> Bus.Read(m', b, 4) == Bus.Read(m, b, 4)
    ensures Bus.ReadWords(m', a, n) == Bus.ReadWords(m, a, n)
    decreases n
  {
    hide Bus.Read;
    if n != 0 {
      SameWords(m, m', a + 4, n - 1);
    }
  }

  /** A suspended thread stays parked while memory outside another's reach is unchanged. */
  lemma ParkedKept(l: System, m: Bus.Memory, m': Bus.Memory, u: nat, sp: u32, ws: seq<u32>)
    requires u < |l.tcb| == |l.lo| == |l.hi| && l.hi[u] < 0x1_0000_0000 && Parked(l, m, u, sp, ws)
    requires Bus.Read(m', l.tcb[u], 4) == Bus.Read(m, l.tcb[u], 4)
    requires forall a: u32 :: l.lo[u] <= a && a + 4 <= l.hi[u] ==> Bus.Read(m', a, 4) == Bus.Read(m, a, 4)
    ensures Parked(l, m', u, sp, ws)
  {
    hide Bus.Read, Bus.ReadWords;
    SameWords(m, m', sp, 16);
  }

  lemma ComputesKeeps(l: System, x: Node, y: Node)
    requires Inv(l, x) && Computes(l, x, y)
    ensures Inv(l, y)
  {
    hide Bus.Read, Bus.ReadWords, Bus.RomKept, Mapped, OnStack;
    MappedKept(l, x.m, y.m);
    forall u: nat | IsThread(l, u) && u != x.run
      ensures Parked(l, y.m, u, y.sps[u], y.saved[u])
    {
      ParkedKept(l, x.m, y.m, u, x.sps[u], x.saved[u]);
    }
  }

  /* A switch keeps the invariant. */

  lemma {:induction false} ReadWordsJoin(m: Bus.Memory, a: u32, j: nat, k: nat)
    requires a + 4 * (j + k) < 0x1_0000_0000 && Bus.ReadWords(m, a, j).Some? && Bus.ReadWords(m, a + 4 * j, k).Some?
    ensures Bus.ReadWords(m, a, j + k) == Some(Bus.ReadWords(m, a, j).value + Bus.ReadWords(m, a + 4 * j, k).value)
    decreases j
  {
    hide Bus.Read;
    if j != 0 {
      ReadWordsJoin(m, a + 4, j - 1, k);
      var v, x, y := Bus.Read(m, a, 4).value, Bus.ReadWords(m, a + 4, j - 1).value,
        Bus.ReadWords(m, a + 4 * j, k).value;
      assert [v] + (x + y) == ([v] + x) + y;
    } else {
      var y := Bus.ReadWords(m, a, k).value;
      assert Bus.ReadWords(m, a, 0).value + y == y;
    }
  }

  lemma {:induction false} ReadWordsCut(m: Bus.Memory, a: u32, j: nat, k: nat)
    requires a + 4 * (j + k) < 0x1_0000_0000 && Bus.ReadWords(m, a, j + k).Some?
    ensures Bus.ReadWords(m, a, j) == Some(Bus.ReadWords(m, a, j + k).value[..j])
    ensures Bus.ReadWords(m, a + 4 * j, k) == Some(Bus.ReadWords(m, a, j + k).value[j..])
    decreases j
  {
    hide Bus.Read;
    if j != 0 {
      ReadWordsCut(m, a + 4, j - 1, k);
      var v, rest := Bus.Read(m, a, 4).value, Bus.ReadWords(m, a + 4, j - 1 + k).value;
      assert ([v] + rest)[..j] == [v] + rest[..j - 1] && ([v] + rest)[j..] == rest[j - 1..];
    }
  }

  /** Memory after the frame, and then the callee registers, are on the stack. */
  function Framed(c: CpuState, m: Bus.Memory): (Bus.Memory, bool) {
    Bus.WriteWords(m, Sub32(c.r[REG_SP], 32), Frame(c, EXC_PENDSV))
  }

  function Stacked16(c: CpuState, m: Bus.Memory): (Bus.Memory, bool) {
    Bus.WriteWords(Framed(c, m).0, Sub32(c.r[REG_SP], 64), Callee(c.r))
  }

  /** The sixteen words are written where the thread has room for them, and nothing else is. */
  lemma StackWritten(c: CpuState, m: Bus.Memory)
    requires c.r[REG_SP] >= 64 && forall b: u32 :: c.r[REG_SP] - 64 <= b && b + 4 <= c.r[REG_SP] ==> Writable4(m, b)
    ensures Framed(c, m).1 && Stacked16(c, m).1 && Bus.RomKept(m, Framed(c, m).0) && Bus.RomKept(m, Stacked16(c, m).0)
    ensures Bus.ReadWords(Stacked16(c, m).0, c.r[REG_SP] - 64, 16) == Some(SavedWords(c))
    ensures forall a: u32 :: a + 4 <= c.r[REG_SP] - 64 || c.r[REG_SP] <= a ==>
                               Bus.Read(Stacked16(c, m).0, a, 4) == Bus.Read(m, a, 4)
  {
    hide Bus.Read, Bus.Write, Bus.WriteWords, Bus.ReadWords, Bus.RomKept, Writable4, Frame;
    var top := c.r[REG_SP];
    var f, k := Frame(c, EXC_PENDSV), Callee(c.r);
    WordsGo(m, top - 32, f);
    var m1 := Framed(c, m).0;
    Bus.WriteWordsFrame(m, top - 32, f, 0, 4);
    forall b: u32 | top - 64 <= b && b + 4 <= top - 32
      ensures Writable4(m1, b)
    {
      WritableKept(m, m1, b);
    }
    WordsGo(m1, top - 64, k);
    var m2 := Stacked16(c, m).0;
    Bus.WriteWordsFrame(m1, top - 64, k, 0, 4);
    Bus.RomKeptTrans(m, m1, m2);
    Bus.WordsRoundTrip(m, top - 32, f);
    Bus.WordsRoundTrip(m1, top - 64, k);
    Bus.ReadWordsFrame(m1, top - 64, k, top - 32, 8);
    ReadWordsJoin(m2, top - 64, 8, 8);
    forall a: u32 | a + 4 <= top - 64 || top <= a
      ensures Bus.Read(m2, a, 4) == Bus.Read(m, a, 4)
    {
      Bus.WriteWordsFrame(m, top - 32, f, a, 4);
      Bus.WriteWordsFrame(m1, top - 64, k, a, 4);
    }
  }

  /** Two words written apart from each other: each reads back, and nothing else changes. */
  lemma TwoWords(m: Bus.Memory, a: u32, v: u32, b: u32, w: u32)
    requires Writable4(m, a) && Writable4(m, b) && WordsApart(a, b)
    ensures var m' := Bus.Write(m, a, 4, v); m'.Some? && Bus.Write(m'.value, b, 4, w).Some?
    ensures var m' := Bus.Write(m, a, 4, v).value; var m'' := Bus.Write(m', b, 4, w).value;
      && Bus.RomKept(m, m') && Bus.RomKept(m, m'') && Bus.Read(m'', a, 4) == Some(v) && Bus.Read(m'', b, 4) == Some(w)
      && (forall p: u32 :: WordsApart(p, a) ==> Bus.Read(m', p, 4) == Bus.Read(m, p, 4))
      && (forall p: u32 :: WordsApart(p, a) && WordsApart(p, b) ==> Bus.Read(m'', p, 4) == Bus.Read(m, p, 4))
  {
    hide Bus.Read, Bus.Write, Bus.RomKept, Writable4;
    Bus.SelfKept(m);
    WritableKept(m, m, a);
    var m' := Bus.Write(m, a, 4, v).value;
    Bus.WriteLaws(m, a, 4, v, a, 4);
    WritableKept(m, m', b);
    var m'' := Bus.Write(m', b, 4, w).value;
    Bus.WriteLaws(m', b, 4, w, a, 4);
    Bus.RomKeptTrans(m, m', m'');
    forall p: u32 | WordsApart(p, a)
      ensures Bus.Read(m', p, 4) == Bus.Read(m, p, 4)
      ensures WordsApart(p, b) ==> Bus.Read(m'', p, 4) == Bus.Read(m, p, 4)
    {
      Bus.WriteLaws(m, a, 4, v, p, 4);
      Bus.WriteLaws(m', b, 4, w, p, 4);
    }
  }

  /** Memory after a switch from thread x.run to thread v: its words on its stack, their
      address in its control block, and v the current thread. */
  function Renamed(l: System, x: Node): Option<Bus.Memory>
    requires x.run < |l.tcb|
  {
    Bus.Write(Stacked16(x.c, x.m).0, l.tcb[x.run], 4, Sub32(x.c.r[REG_SP], 64))
  }

  function Switched(l: System, x: Node, v: nat): Option<Bus.Memory>
    requires x.run < |l.tcb| && v < |l.tcb| && Renamed(l, x).Some?
  {
    Bus.Write(Renamed(l, x).value, l.kc, 4, l.tcb[v])
  }

  /** What a switch leaves in memory: every thread parked, the one that ran included. */
  ghost predicate AllParked(l: System, x: Node, m': Bus.Memory, v: nat)
    requires x.run < |l.tcb| == |l.lo| == |l.hi| == |x.sps| == |x.saved| && v < |l.tcb|
  {
    && Bus.RomKept(x.m, m') && Bus.Read(m', l.kc, 4) == Some(l.tcb[v])
    && Parked(l, m', x.run, Sub32(x.c.r[REG_SP], 64), SavedWords(x.c))
    && forall u: nat :: IsThread(l, u) && u != x.run ==> Parked(l, m', u, x.sps[u], x.saved[u])
  }

  lemma StackRoom(l: System, x: Node)
    requires Inv(l, x)
    ensures forall b: u32 :: x.c.r[REG_SP] - 64 <= b && b + 4 <= x.c.r[REG_SP] ==> Writable4(x.m, b)
    ensures x.c.r[REG_SP] >= 64
  {
    hide Bus.Read, Bus.ReadWords, Writable4, Parked, RunLoop.Unwritable, PoolReads;
  }

  /** Reads that a switch does not disturb: outside the sixteen words and the two it writes. */
  lemma SwitchedMemory(l: System, x: Node, v: nat)
    requires Inv(l, x) && v < |l.tcb|
    ensures Renamed(l, x).Some? && Switched(l, x, v).Some?
    ensures Bus.RomKept(x.m, Stacked16(x.c, x.m).0) && Bus.RomKept(x.m, Renamed(l, x).value)
    ensures Bus.RomKept(x.m, Switched(l, x, v).value)
    ensures var top, m2, m3, m4 := x.c.r[REG_SP], Stacked16(x.c, x.m).0, Renamed(l, x).value, Switched(l, x, v).value;
      && Bus.Read(m4, l.kc, 4) == Some(l.tcb[v]) && Bus.Read(m4, l.tcb[x.run], 4) == Some(top - 64)
      && Bus.Read(m2, l.kc, 4) == Bus.Read(x.m, l.kc, 4) && Bus.Read(m3, l.kn, 4) == Bus.Read(x.m, l.kn, 4)
      && Bus.ReadWords(m4, top - 64, 16) == Some(SavedWords(x.c))
      && forall a: u32 :: OffStack(l, x.run, a) && WordsApart(a, l.tcb[x.run]) && WordsApart(a, l.kc) ==>
           Bus.Read(m4, a, 4) == Bus.Read(x.m, a, 4)
  {
    hide Bus.Read, Bus.Write, Bus.ReadWords, Bus.RomKept, Writable4, Parked, RunLoop.Unwritable, PoolReads, Stacked16,
         Framed, SavedWords;
    var top, m2 := x.c.r[REG_SP], Stacked16(x.c, x.m).0;
    StackRoom(l, x);
    StackWritten(x.c, x.m);
    assert OffStack(l, x.run, l.kc) && OffStack(l, x.run, l.kn) && OffStack(l, x.run, l.tcb[x.run]);
    WritableKept(x.m, m2, l.tcb[x.run]);
    WritableKept(x.m, m2, l.kc);
    TwoWords(m2, l.tcb[x.run], top - 64, l.kc, l.tcb[v]);
    var m3, m4 := Renamed(l, x).value, Switched(l, x, v).value;
    Bus.RomKeptTrans(x.m, m2, m3);
    Bus.RomKeptTrans(x.m, m2, m4);
    forall b: u32 | top - 64 <= b && b + 4 <= top
      ensures Bus.Read(m4, b, 4) == Bus.Read(m2, b, 4)
    {
      assert WordsApart(b, l.tcb[x.run]) && WordsApart(b, l.kc);
    }
    SameWords(m2, m4, top - 64, 16);
  }

  lemma AllParkedAfter(l: System, x: Node, v: nat)
    requires Inv(l, x) && v < |l.tcb|
    ensures Renamed(l, x).Some? && Switched(l, x, v).Some? && AllParked(l, x, Switched(l, x, v).value, v)
  {
    hide Bus.Read, Bus.ReadWords, Bus.RomKept, Mapped, Renamed, Switched, Stacked16, SavedWords;
    SwitchedMemory(l, x, v);
    var m4 := Switched(l, x, v).value;
    forall u: nat | IsThread(l, u) && u != x.run
      ensures Parked(l, m4, u, x.sps[u], x.saved[u])
    {
      assert IsThread(l, x.run);
      assert OffStack(l, x.run, l.tcb[u]) && OffStack(l, u, l.kc) && OffStack(l, u, l.tcb[x.run]);
      forall a: u32 | l.lo[u] <= a && a + 4 <= l.hi[u]
        ensures Bus.Read(m4, a, 4) == Bus.Read(x.m, a, 4)
      {
        assert OffStack(l, x.run, a) && WordsApart(a, l.tcb[x.run]) && WordsApart(a, l.kc);
      }
      ParkedKept(l, x.m, m4, u, x.sps[u], x.saved[u]);
    }
  }

  /** The machine after a switch, and what the thread that ran has left. */
  function SwitchTo(l: System, x: Node, v: nat): Node
    requires x.run < |x.sps| == |x.saved|
  {
    var o := Switch(x.c, x.m, l.pool);
    Node(o.c, o.m, v, x.sps[x.run := Sub32(x.c.r[REG_SP], 64)], x.saved[x.run := SavedWords(x.c)])
  }

  lemma SwitchGoes(l: System, x: Node, v: nat)
    requires Inv(l, x) && v < |l.tcb| && Bus.Read(x.m, l.kn, 4) == Some(l.tcb[v])
    ensures Renamed(l, x).Some? && Switched(l, x, v).Some?
    ensures Goes(x.c, x.m, l.pool, l.at, l.kc, l.kn, l.tcb[x.run], l.tcb[v],
              Framed(x.c, x.m).0, Stacked16(x.c, x.m).0, Renamed(l, x).value, Switched(l, x, v).value)
  {
    hide Bus.Read, Bus.Write, Bus.ReadWords, Bus.WriteWords, Bus.RomKept, Writable4, Parked, RunLoop.Unwritable,
         PoolReads, SavedWords, Frame;
    StackRoom(l, x);
    StackWritten(x.c, x.m);
    SwitchedMemory(l, x, v);
    MappedKept(l, x.m, Framed(x.c, x.m).0);
    RomWordKept(x.m, Framed(x.c, x.m).0, 4 * EXC_PENDSV);
    MappedKept(l, x.m, Stacked16(x.c, x.m).0);
    MappedKept(l, x.m, Renamed(l, x).value);
    MappedKept(l, x.m, Switched(l, x, v).value);
  }

  /** The words of every thread once the one that ran has saved its own. */
  function ParkedAt(x: Node, u: nat): u32
    requires x.run < |x.sps| && u < |x.sps|
  {
    if u == x.run then Sub32(x.c.r[REG_SP], 64) else x.sps[u]
  }

  function ParkedWords(x: Node, u: nat): seq<u32>
    requires x.run < |x.saved| && u < |x.saved|
  {
    if u == x.run then SavedWords(x.c) else x.saved[u]
  }

  lemma SwitchOutcome(l: System, x: Node, v: nat)
    requires Inv(l, x) && v < |l.tcb| && Bus.Read(x.m, l.kn, 4) == Some(l.tcb[v])
    ensures AllParked(l, x, Switch(x.c, x.m, l.pool).m, v)
    ensures var o, sp, ws := Switch(x.c, x.m, l.pool), ParkedAt(x, v), ParkedWords(x, v);
      && Parked(l, o.m, v, sp, ws) && |ws| == 16 && sp + 64 < 0x1_0000_0000
      && o.ok && ContextOf(o.c) == Resumed(ws, sp) && UsesPsp(o.c)
  {
    hide Bus.Read, Bus.ReadWords, Bus.RomKept, Mapped, Renamed, Switched, Stacked16, Framed, SavedWords, Goes, Switch,
         Resumed, OnStack;
    SwitchGoes(l, x, v);
    AllParkedAfter(l, x, v);
    var m4, sp, ws := Switched(l, x, v).value, ParkedAt(x, v), ParkedWords(x, v);
    ReadWordsCut(m4, sp, 8, 8);
    SwitchResumes(x.c, x.m, l.pool, l.at, l.kc, l.kn, l.tcb[x.run], l.tcb[v],
      Framed(x.c, x.m).0, Stacked16(x.c, x.m).0, Renamed(l, x).value, m4, sp, ws);
  }

  /** The thread's context is the one its recorded words stand for. */
  predicate Arrived(y: Node, v: nat) {
    && v < |y.sps| == |y.saved| && |y.saved[v]| == 16 && y.sps[v] < 0x1_0000_0000 - 64
    && ContextOf(y.c) == Resumed(y.saved[v], y.sps[v])
  }

  /** A switch succeeds, keeps every thread's words where they are, and resumes the context
      the next thread's words stand for. */
  lemma SwitchKeeps(l: System, x: Node, v: nat)
    requires Inv(l, x) && v < |l.tcb| && Bus.Read(x.m, l.kn, 4) == Some(l.tcb[v])
    ensures Switch(x.c, x.m, l.pool).ok && Inv(l, SwitchTo(l, x, v)) && Arrived(SwitchTo(l, x, v), v)
  {
    hide Bus.Read, Bus.ReadWords, Bus.RomKept, Mapped, SavedWords, Switch, Resumed, Apart, Parked, OnStack, AllParked;
    Sizes(l);
    SwitchOutcome(l, x, v);
    var y := SwitchTo(l, x, v);
    ParkedSwitched(l, x, y.m, v);
    MappedKept(l, x.m, y.m);
    ResumedOnStack(l, y.m, y.c, v, y.sps[v], y.saved[v]);
  }

  lemma Sizes(l: System)
    requires Apart(l)
    ensures |l.tcb| == |l.lo| == |l.hi|
  {
  }

  /** Every thread but the next one is parked, at the words recorded for it. */
  lemma ParkedSwitched(l: System, x: Node, m': Bus.Memory, v: nat)
    requires x.run < |l.tcb| == |l.lo| == |l.hi| == |x.sps| == |x.saved| && v < |l.tcb| && AllParked(l, x, m', v)
    ensures Bus.RomKept(x.m, m') && Bus.Read(m', l.kc, 4) == Some(l.tcb[v])
    ensures var sps, saved := x.sps[x.run := Sub32(x.c.r[REG_SP], 64)], x.saved[x.run := SavedWords(x.c)];
      forall u: nat :: IsThread(l, u) && u != v ==> Parked(l, m', u, sps[u], saved[u])
  {
    hide Bus.Read, Bus.RomKept, Parked, SavedWords;
  }

  lemma ResumedOnStack(l: System, m: Bus.Memory, c: CpuState, v: nat, sp: u32, ws: seq<u32>)
    requires v < |l.tcb| == |l.lo| == |l.hi| && Parked(l, m, v, sp, ws) && sp + 64 < 0x1_0000_0000
    requires ContextOf(c) == Resumed(ws, sp) && UsesPsp(c)
    ensures OnStack(l, c, v)
  {
    hide Bus.Read, Bus.ReadWords, Resumed;
    ResumedSp(ws, sp);
  }

  lemma ResumedSp(ws: seq<u32>, sp: nat)
    requires |ws| == 16 && sp + 64 < 0x1_0000_0000
    ensures Resumed(ws, sp).r[REG_SP] == sp + 64
  {
    hide And32, Even;
  }

  /* Runs. */

  /** What the words of a suspended thread are, and where. */
  predicate Holds(x: Node, u: nat, c: CpuState) {
    u < |x.sps| == |x.saved| && x.sps[u] == Sub32(c.r[REG_SP], 64) && x.saved[u] == SavedWords(c)
  }

  /** One step: the running thread computes, or the kernel's choice is switched to. */
  ghost predicate Step(l: System, x: Node, y: Node) {
    && x.run < |l.tcb| == |l.lo| == |l.hi| == |x.sps| == |x.saved|
    && (Computes(l, x, y) ||
        exists v: nat :: v < |l.tcb| && Bus.Read(x.m, l.kn, 4) == Some(l.tcb[v]) && y == SwitchTo(l, x, v))
  }

  ghost predicate Trace(l: System, xs: seq<Node>) {
    |xs| > 0 && Inv(l, xs[0]) && forall k :: 0 <= k < |xs| - 1 ==> Step(l, xs[k], xs[k + 1])
  }

  lemma StepKeeps(l: System, x: Node, y: Node)
    requires Inv(l, x) && Step(l, x, y)
    ensures Inv(l, y)
    ensures forall u: nat, c: CpuState :: u != x.run && Holds(x, u, c) ==> Holds(y, u, c)
    ensures y.run != x.run ==> Holds(y, x.run, x.c) && Arrived(y, y.run)
  {
    hide Bus.Read, Mapped, Parked, OnStack, Switch, SavedWords, Resumed;
    if Computes(l, x, y) {
      ComputesKeeps(l, x, y);
    } else {
      var v: nat :| v < |l.tcb| && Bus.Read(x.m, l.kn, 4) == Some(l.tcb[v]) && y == SwitchTo(l, x, v);
      SwitchKeeps(l, x, v);
    }
  }

  lemma {:induction false} TraceKeeps(l: System, xs: seq<Node>, k: nat)
    requires Trace(l, xs) && k < |xs|
    ensures Inv(l, xs[k])
  {
    hide Inv, Step;
    if k > 0 {
      TraceKeeps(l, xs, k - 1);
      assert Step(l, xs[k - 1], xs[k - 1 + 1]);
      StepKeeps(l, xs[k - 1], xs[k]);
    }
  }

  /** Thread u runs in node i, and then not until node j. */
  predicate Suspended(xs: seq<Node>, u: nat, i: nat, j: nat) {
    i + 1 < j < |xs| && xs[i].run == u && forall k :: i < k < j ==> xs[k].run != u
  }

  lemma {:induction false} WordsStay(l: System, xs: seq<Node>, u: nat, i: nat, j: nat, k: nat)
    requires Trace(l, xs) && Suspended(xs, u, i, j) && i < k <= j
    ensures Inv(l, xs[k]) && Holds(xs[k], u, xs[i].c)
    decreases k
  {
    hide Bus.Read, Mapped, Parked, OnStack, SavedWords, Step, Resumed;
    TraceKeeps(l, xs, k - 1);
    assert Step(l, xs[k - 1], xs[k - 1 + 1]);
    StepKeeps(l, xs[k - 1], xs[k]);
    if k > i + 1 {
      WordsStay(l, xs, u, i, j, k - 1);
      assert IsThread(l, u);
    }
  }

  /** While a thread is suspended its sixteen words stay where it left them, whatever the
      others compute and however often they switch. */
  lemma SuspendedWordsStay(l: System, xs: seq<Node>, u: nat, i: nat, j: nat, k: nat)
    requires Trace(l, xs) && Suspended(xs, u, i, j) && i < k < j
    ensures Bus.ReadWords(xs[k].m, Sub32(xs[i].c.r[REG_SP], 64), 16) == Some(SavedWords(xs[i].c))
  {
    hide Bus.Read, Bus.ReadWords, Mapped, OnStack, SavedWords, Step;
    WordsStay(l, xs, u, i, j, k);
    assert IsThread(l, u);
  }

  /** A thread resumes exactly as it was stopped: the same registers, stack pointer, program
      counter and flags, whatever ran in between, if and only if it was stopped at an even
      address, outside an IT block, with only the flags of the APSR set. */
  lemma ThreadResumesAsStopped(l: System, xs: seq<Node>, u: nat, i: nat, j: nat)
    requires Trace(l, xs) && Suspended(xs, u, i, j) && xs[j].run == u
    ensures ContextOf(xs[j].c) == ContextOf(xs[i].c) <==> Recoverable(xs[i].c)
  {
    hide Bus.Read, Mapped, Parked, SavedWords, Resumed, Computes, Recoverable, Step;
    TraceKeeps(l, xs, i);
    TraceKeeps(l, xs, j - 1);
    WordsStay(l, xs, u, i, j, j);
    assert Step(l, xs[j - 1], xs[j - 1 + 1]);
    StepKeeps(l, xs[j - 1], xs[j]);
    SavedIsOwn(xs[i].c);
  }
}
