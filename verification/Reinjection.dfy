/** Inputs injected a second time: what a replay does with events stamped at its snapshot's cycle
    but fed before the snapshot was taken, and exactly when that does no harm. */
module Reinjection {
  import opened Words
  import opened Cpu
  import Insn
  import opened Nvic
  import opened RunLoop
  import opened Replay
  import Arbitration
  import Bus

  function InjectAll(b: Board, es: seq<Event>): Board
    decreases |es|
  {
    if |es| == 0 then b else InjectAll(Inject(b, es[0]), es[1..])
  }

  lemma {:induction false} InjectAllKeeps(b: Board, es: seq<Event>)
    ensures var b' := InjectAll(b, es); b' == b.(nvic := b'.nvic, uart := b'.uart)
    ensures InjectAll(b, es).c == b.c
    decreases |es|
  {
    hide Arbitration.With;
    if |es| != 0 {
      InjectAllKeeps(Inject(b, es[0]), es[1..]);
    }
  }

  /** Events already due are injected before anything runs: the replay is the one from the board
      with all of them injected. */
  lemma {:induction false} DueFirst(env: Env, b: Board, dup: seq<Event>, rest: seq<Event>, target: nat)
    requires b.c.cycles < target && forall e :: e in dup ==> e.cycle <= b.c.cycles
    ensures Ref(env, b, dup + rest, target) == Ref(env, InjectAll(b, dup), rest, target)
    ensures Lively(env, b, dup + rest, target) == Lively(env, InjectAll(b, dup), rest, target)
    decreases |dup|
  {
    hide UnitStep, Inject;
    if |dup| == 0 {
      assert dup + rest == rest;
    } else {
      InjectKeepsTime(b, dup[0]);
      assert (dup + rest)[0] == dup[0] && (dup + rest)[1..] == dup[1..] + rest;
      DueFirst(env, Inject(b, dup[0]), dup[1..], rest, target);
    }
  }

  /* The two parts of an input: bytes for the ring, and lines. */

  function BytesOf(es: seq<Event>): seq<u8>
    decreases |es|
  {
    if |es| == 0 then []
    else (if es[0].kind.UartRx? then [es[0].payload % 256] else []) + BytesOf(es[1..])
  }

  /** Bytes pushed one after the other. */
  function PushAll(u: Uart, bytes: seq<u8>): Uart
    decreases |bytes|
  {
    if |bytes| == 0 then u else PushAll(Push(u, bytes[0]), bytes[1..])
  }

  predicate Raises(e: Event) { e.kind.IrqInject? && e.payload < Arbitration.LINES }

  function RaiseAll(p: Arbitration.Bank, es: seq<Event>): Arbitration.Bank
    decreases |es|
  {
    if |es| == 0 then p else RaiseAll(if Raises(es[0]) then Arbitration.With(p, es[0].payload) else p, es[1..])
  }

  lemma {:induction false} Parts(b: Board, es: seq<Event>)
    ensures InjectAll(b, es) ==
      b.(nvic := b.nvic.(pending := RaiseAll(b.nvic.pending, es)), uart := PushAll(b.uart, BytesOf(es)))
    decreases |es|
  {
    hide Arbitration.With, Push;
    if |es| != 0 {
      Parts(Inject(b, es[0]), es[1..]);
      if es[0].kind.UartRx? {
        var x := es[0].payload % 256;
        assert ([x] + BytesOf(es[1..]))[1..] == BytesOf(es[1..]);
      } else {
        assert BytesOf(es) == BytesOf(es[1..]);
      }
    }
  }

  /* Lines: raising a pending line changes nothing, and raising another does. */

  /** Every line the events raise is pending. */
  predicate AllPending(p: Arbitration.Bank, es: seq<Event>) {
    forall e :: e in es && Raises(e) ==> Arbitration.On(p, e.payload)
  }

  lemma RaisedAgain(p: Arbitration.Bank, irq: nat)
    requires irq < Arbitration.LINES && Arbitration.On(p, irq)
    ensures Arbitration.With(p, irq) == p
  {
  }

  lemma {:induction false} RaiseAllOn(p: Arbitration.Bank, es: seq<Event>, irq: nat)
    requires irq < 256
    ensures Arbitration.On(RaiseAll(p, es), irq) <==>
      Arbitration.On(p, irq) || exists e :: e in es && Raises(e) && e.payload == irq
    decreases |es|
  {
    hide Arbitration.With, Arbitration.On;
    if |es| != 0 {
      var q := if Raises(es[0]) then Arbitration.With(p, es[0].payload) else p;
      if Raises(es[0]) {
        Arbitration.WithOn(p, es[0].payload, irq);
      }
      RaiseAllOn(q, es[1..], irq);
      assert forall e :: e in es <==> e == es[0] || e in es[1..];
    }
  }

  lemma {:induction false} RaiseAllSame(p: Arbitration.Bank, es: seq<Event>)
    ensures RaiseAll(p, es) == p <==> AllPending(p, es)
    decreases |es|
  {
    hide Arbitration.With, Arbitration.On;
    if AllPending(p, es) {
      if |es| != 0 {
        if Raises(es[0]) {
          RaisedAgain(p, es[0].payload);
        }
        RaiseAllSame(p, es[1..]);
      }
    } else {
      var e :| e in es && Raises(e) && !Arbitration.On(p, e.payload);
      RaiseAllOn(p, es, e.payload);
    }
  }

  /* The ring: 64 slots behind a counter that wraps at 256. */

  /** The slot of the byte that comes i places after the next one. */
  function Slot(u: Uart, i: nat): (s: nat)
    ensures s < 64
  {
    (u.tail + i) % 64
  }

  /** What its slot then holds: the byte, or what was there when there are not that many. */
  function Held(u: Uart, bytes: seq<u8>, i: nat): u8 {
    if i < |bytes| then bytes[i] else u.rx[Slot(u, i)]
  }

  lemma PushOne(u: Uart, bytes: seq<u8>, x: u8)
    requires PushAll(u, bytes).tail == (u.tail + |bytes|) % 256
    ensures Push(PushAll(u, bytes), x).tail == (u.tail + |bytes| + 1) % 256
    ensures Push(PushAll(u, bytes), x).rx == PushAll(u, bytes).rx[Slot(u, |bytes|) := x]
  {
    hide PushAll;
    WrapsOnce(u.tail + |bytes|);
  }

  lemma WrapsOnce(n: nat)
    ensures (n % 256 + 1) % 256 == (n + 1) % 256 && n % 256 % 64 == n % 64
  {
  }

  lemma {:induction false} PushAllAppend(u: Uart, a: seq<u8>, b: seq<u8>)
    ensures PushAll(u, a + b) == PushAll(PushAll(u, a), b)
    decreases |a|
  {
    hide Push;
    if |a| == 0 {
      assert a + b == b;
    } else {
      assert (a + b)[0] == a[0] && (a + b)[1..] == a[1..] + b;
      PushAllAppend(Push(u, a[0]), a[1..], b);
    }
  }

  lemma PushLast(u: Uart, bytes: seq<u8>)
    requires |bytes| > 0
    ensures PushAll(u, bytes) == Push(PushAll(u, bytes[..|bytes| - 1]), bytes[|bytes| - 1])
  {
    hide Push;
    var front, x := bytes[..|bytes| - 1], bytes[|bytes| - 1];
    assert bytes == front + [x] && [x][1..] == [];
    PushAllAppend(u, front, [x]);
  }

  /** Two of 64 consecutive places share no slot. */
  lemma SlotsApart(u: Uart, i: nat, j: nat)
    requires Slot(u, i) == Slot(u, j) && i < j + 64 && j < i + 64
    ensures i == j
  {
  }

  /** After pushing, the counter has moved on by the number of bytes, and each slot holds the last
      byte that fell to it, or what it held before. */
  lemma {:induction false} Pushed(u: Uart, bytes: seq<u8>, i: nat)
    requires i + 64 >= |bytes| && (i < 64 || i < |bytes|)
    ensures var u' := PushAll(u, bytes);
      u'.tail == (u.tail + |bytes|) % 256 && u'.rx[Slot(u, i)] == Held(u, bytes, i)
    decreases |bytes|
  {
    hide Push, PushAll;
    var n := |bytes|;
    if n == 0 {
      PushNone(u, bytes);
    } else {
      var front := bytes[..n - 1];
      PushLast(u, bytes);
      Pushed(u, front, if i == n - 1 && n > 64 then n - 2 else i);
      PushOne(u, front, bytes[n - 1]);
      if i != n - 1 && Slot(u, i) == Slot(u, n - 1) {
        SlotsApart(u, i, n - 1);
      }
    }
  }

  lemma PushNone(u: Uart, bytes: seq<u8>)
    requires |bytes| == 0
    ensures PushAll(u, bytes) == u && u.tail == (u.tail + 0) % 256
  {
  }

  /** Pushing d and then r leaves the ring that pushing r alone does: the counter comes round to
      where it was, and the last 64 of d are what the slots r leaves alone already held. */
  predicate Unnoticed(u: Uart, d: seq<u8>, r: seq<u8>) {
    && |d| % 256 == 0
    && (|d| > 0 ==> forall j :: |r| <= j < 64 ==> d[|d| - 64 + j] == u.rx[Slot(u, j)])
  }

  lemma {:induction false} PushAllKeeps(u: Uart, bytes: seq<u8>)
    ensures PushAll(u, bytes).replay == u.replay && PushAll(u, bytes).head == u.head
    decreases |bytes|
  {
    if |bytes| != 0 {
      PushAllKeeps(Push(u, bytes[0]), bytes[1..]);
    }
  }

  lemma FullTurns(t: nat, k: nat, n: nat)
    ensures (t + (k + n)) % 256 == (t + n) % 256 <==> k % 256 == 0
  {
  }

  /** A place with a given slot among the 64 that decide what the ring holds. */
  function Place(u: Uart, s: nat, n: nat): (j: nat)
    requires s < 64
    ensures Slot(u, j) == s && j + 64 >= n && (j < 64 || j < n)
  {
    var lo := if n > 64 then n - 64 else 0;
    lo + (s + 64 - (u.tail + lo) % 64) % 64
  }

  lemma SameAfterTurns(u: Uart, j: nat, k: nat)
    requires k % 256 == 0 && k > 0
    ensures Slot(u, j + k) == Slot(u, j) && k >= 256 && Slot(u, j + k - 64) == Slot(u, j)
  {
    var q := k / 256;
    AddTurns(u.tail + j, 4 * q);
    AddTurns(u.tail + j, 4 * q - 1);
  }

  lemma AddTurns(x: nat, q: nat)
    ensures (x + 64 * q) % 64 == x % 64
  {
    DivModUnique(x + 64 * q, 64, x / 64 + q, x % 64);
  }

  /** One slot of the two rings, after full turns. */
  lemma SameSlot(u: Uart, d: seq<u8>, r: seq<u8>, j: nat)
    requires |d| % 256 == 0 && |d| > 0 && j + 64 >= |r| && (j < 64 || j < |r|)
    ensures PushAll(u, d + r).rx[Slot(u, j)] == if j < |r| then r[j] else d[|d| - 64 + j]
    ensures PushAll(u, r).rx[Slot(u, j)] == Held(u, r, j)
  {
    hide PushAll, Slot;
    var k, n := |d|, |r|;
    Pushed(u, r, j);
    SameAfterTurns(u, j, k);
    if j < n {
      Pushed(u, d + r, j + k);
    } else {
      Pushed(u, d + r, j + k - 64);
    }
  }

  lemma SameTails(u: Uart, d: seq<u8>, r: seq<u8>)
    ensures PushAll(u, d + r).tail == PushAll(u, r).tail <==> |d| % 256 == 0
  {
    hide PushAll;
    Pushed(u, d + r, Place(u, 0, |d + r|));
    Pushed(u, r, Place(u, 0, |r|));
    FullTurns(u.tail, |d|, |r|);
  }

  /** The bytes d go unnoticed exactly when the ring afterwards is the one without them. */
  lemma UnnoticedIs(u: Uart, d: seq<u8>, r: seq<u8>)
    ensures PushAll(PushAll(u, d), r) == PushAll(u, r) <==> Unnoticed(u, d, r)
  {
    hide PushAll, Slot, Held;
    PushAllAppend(u, d, r);
    SameTails(u, d, r);
    var a, b := PushAll(u, d + r), PushAll(u, r);
    if |d| == 0 {
      assert d + r == r;
    } else if |d| % 256 == 0 {
      PushAllKeeps(u, d + r);
      PushAllKeeps(u, r);
      if Unnoticed(u, d, r) {
        forall s | 0 <= s < 64
          ensures a.rx[s] == b.rx[s]
        {
          var j := Place(u, s, |r|);
          SameSlot(u, d, r, j);
          HeldThere(u, r, j);
        }
        assert a.rx == b.rx;
      } else {
        var j :| |r| <= j < 64 && d[|d| - 64 + j] != u.rx[Slot(u, j)];
        SameSlot(u, d, r, j);
        HeldThere(u, r, j);
      }
    }
  }

  lemma HeldThere(u: Uart, r: seq<u8>, j: nat)
    ensures Held(u, r, j) == if j < |r| then r[j] else u.rx[Slot(u, j)]
  {
  }

  /* When injecting again changes nothing. */

  /** Every line is already pending, and the bytes come full circle over what the ring held. */
  predicate Harmless(b: Board, es: seq<Event>) {
    AllPending(b.nvic.pending, es) && Unnoticed(b.uart, BytesOf(es), [])
  }

  lemma HarmlessIs(b: Board, es: seq<Event>)
    ensures InjectAll(b, es) == b <==> Harmless(b, es)
  {
    hide InjectAll, RaiseAll, PushAll, AllPending, Unnoticed;
    Parts(b, es);
    RaiseAllSame(b.nvic.pending, es);
    UnnoticedIs(b.uart, BytesOf(es), []);
    PushNone(PushAll(b.uart, BytesOf(es)), []);
    PushNone(b.uart, []);
  }

  /** Whatever the firmware does from this board on, a replay that injects these events again is
      the original run. */
  ghost predicate NeverShows(b: Board, dup: seq<Event>) {
    forall env: Env, acts: seq<Act>, target: nat ::
      Paced(env) && Reached(env, b, acts, target) && b.c.cycles < target ==>
        Ref(env, b, dup + Recorded(env, b, acts), target) == At(env, b, acts, target)
  }

  /** Firmware that does nothing, with interrupts off. */
  function Doze(): Env {
    Env((b: Board, i: Insn.Insn) => (b.(c := b.c.(cycles := b.c.cycles + 1, primask := 1)), true),
      (pc: u32, low: Option<u32>, high: Option<u32>) =>
        Insn.Insn(Insn.Nop, pc, 2, 0, 0, 0, 0, 0, 0, {}, false, false, false, false, 0, 0, 0, 0))
  }

  lemma DozeSteps(b: Board)
    ensures var (b', ok) := UnitStep(Doze(), b);
      && ok && b'.c.cycles == b.c.cycles + 1 && b'.nvic == b.nvic && b'.uart == b.uart
  {
    hide Arbitration.Best, ExcEnter, SysTick.Ticked;
  }

  lemma DozePaced()
    ensures Paced(Doze())
  {
    hide UnitStep;
    forall b: Board
      ensures var b' := UnitStep(Doze(), b).0; b.c.cycles <= b'.c.cycles <= b.c.cycles + 1
    {
      DozeSteps(b);
    }
  }

  /** One dozing step shows whatever injecting again has changed. */
  lemma DozeShows(b: Board, dup: seq<Event>)
    requires !b.c.halted && forall e :: e in dup ==> e.cycle <= b.c.cycles
    requires InjectAll(b, dup) != b
    ensures !NeverShows(b, dup)
  {
    hide UnitStep, InjectAll, Doze, Paced;
    var env, acts, target := Doze(), [Steps(1)], b.c.cycles + 1;
    DozePaced();
    DozeSteps(b);
    DozeSteps(InjectAll(b, dup));
    InjectAllKeeps(b, dup);
    DueFirst(env, b, dup, [], target);
    assert Recorded(env, b, acts) == [];
    assert Reached(env, b, acts, target);
    assert At(env, b, acts, target) == UnitStep(env, b).0;
    assert Ref(env, InjectAll(b, dup), [], target) == UnitStep(env, InjectAll(b, dup)).0;
  }

  /** Replay over events stamped at the snapshot's cycle and fed before it is exact for every
      firmware if and only if those events are harmless. */
  lemma ExactWhenHarmless(b: Board, dup: seq<Event>)
    requires !b.c.halted && forall e :: e in dup ==> e.cycle <= b.c.cycles
    ensures NeverShows(b, dup) <==> Harmless(b, dup)
  {
    hide Ref, At, Reached, Recorded, Paced, InjectAll, Harmless, UnitStep;
    HarmlessIs(b, dup);
    if InjectAll(b, dup) == b {
      forall env: Env, acts: seq<Act>, target: nat |
        Paced(env) && Reached(env, b, acts, target) && b.c.cycles < target
        ensures Ref(env, b, dup + Recorded(env, b, acts), target) == At(env, b, acts, target)
      {
        DueFirst(env, b, dup, Recorded(env, b, acts), target);
        RefIsOriginal(env, b, acts, target);
      }
    } else {
      DozeShows(b, dup);
    }
  }

  /* Firmware that leaves the ring alone. */

  /** No instruction reads or writes the ring. */
  ghost predicate RingAlone(env: Env) {
    forall b: Board, u: Uart ::
      UnitStep(env, b.(uart := u)) == (UnitStep(env, b).0.(uart := u), UnitStep(env, b).1)
  }

  /** The bytes a replay feeds on its way to the target. */
  function FedBytes(env: Env, b: Board, es: seq<Event>, target: nat): seq<u8>
    decreases target - b.c.cycles, |es|
  {
    if b.c.cycles >= target then []
    else if |es| > 0 && es[0].cycle <= b.c.cycles then
      InjectKeepsTime(b, es[0]);
      BytesOf([es[0]]) + FedBytes(env, Inject(b, es[0]), es[1..], target)
    else
      var (b', ok) := UnitStep(env, b);
      if !b.c.halted && ok && b.c.cycles < b'.c.cycles then FedBytes(env, b', es, target) else []
  }

  lemma InjectUart(b: Board, e: Event, u: Uart)
    ensures Inject(b.(uart := u), e) == Inject(b, e).(uart := PushAll(u, BytesOf([e])))
  {
    hide Arbitration.With, Push;
    assert [e][1..] == [];
    var x: u8 := e.payload % 256;
    assert [x][1..] == [] && [x] + [] == [x];
  }

  /** The ring only collects what is fed: a replay from another ring is the same replay. */
  lemma {:induction false} RefRing(env: Env, b: Board, es: seq<Event>, target: nat, u: Uart)
    requires RingAlone(env)
    ensures Ref(env, b.(uart := u), es, target) ==
      Ref(env, b, es, target).(uart := PushAll(u, FedBytes(env, b, es, target)))
    decreases target - b.c.cycles, |es|
  {
    hide UnitStep, Inject, PushAll;
    var c := b.(uart := u);
    PushNone(u, []);
    if b.c.cycles < target {
      if |es| > 0 && es[0].cycle <= b.c.cycles {
        InjectKeepsTime(b, es[0]);
        InjectUart(b, es[0], u);
        var next := FedBytes(env, Inject(b, es[0]), es[1..], target);
        PushAllAppend(u, BytesOf([es[0]]), next);
        RefRing(env, Inject(b, es[0]), es[1..], target, PushAll(u, BytesOf([es[0]])));
      } else {
        var (b', ok) := UnitStep(env, b);
        assert UnitStep(env, c) == (b'.(uart := u), ok);
        if !b.c.halted && ok && b.c.cycles < b'.c.cycles {
          RefRing(env, b', es, target, u);
        }
      }
    }
  }

  /** For such firmware a replay that injects bytes and pending lines again gives the original
      board exactly when the bytes go unnoticed behind those fed later. */
  lemma RingDecides(env: Env, b: Board, dup: seq<Event>, rest: seq<Event>, target: nat)
    requires RingAlone(env) && b.c.cycles < target && forall e :: e in dup ==> e.cycle <= b.c.cycles
    requires AllPending(b.nvic.pending, dup)
    ensures Ref(env, b, dup + rest, target) == Ref(env, b, rest, target) <==>
      Unnoticed(b.uart, BytesOf(dup), FedBytes(env, b, rest, target))
  {
    hide Ref, FedBytes, InjectAll, PushAll, RaiseAll, AllPending, Unnoticed, RingAlone;
    DueFirst(env, b, dup, rest, target);
    Parts(b, dup);
    RaiseAllSame(b.nvic.pending, dup);
    var d, r := BytesOf(dup), FedBytes(env, b, rest, target);
    RefRing(env, b, rest, target, PushAll(b.uart, d));
    RefRing(env, b, rest, target, b.uart);
    UnnoticedIs(b.uart, d, r);
  }
}
