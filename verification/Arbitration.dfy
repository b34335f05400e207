/** Interrupt lines: pending and active bookkeeping, and which line is taken next. */
module Arbitration {
  import opened Words
  import opened Cpu

  const LINES: nat := 240

  /** Eight words of 32 lines each. */
  type Bank = s: seq<u32> | |s| == 8 witness [0, 0, 0, 0, 0, 0, 0, 0]
  type Prios = s: seq<u8> | |s| == 240 witness seq<u8>(240, _ => 0)

  datatype Lines = Lines(enable: Bank, pending: Bank, active: Bank, prio: Prios)

  predicate On(b: Bank, irq: nat)
    requires irq < 256
  {
    Digit(b[irq / 32], irq % 32) == 1
  }

  /** Enabled, pending and not being handled. */
  predicate Ready(n: Lines, irq: nat)
    requires irq < 256
  {
    On(n.enable, irq) && On(n.pending, irq) && !On(n.active, irq)
  }

  /** Lines the hardware does not have are never enabled and pending at once. */
  ghost predicate Wired(n: Lines) {
    forall irq: nat :: LINES <= irq < 256 ==> !Ready(n, irq)
  }

  /** Ready, and urgent enough to be taken at all. */
  predicate Candidate(n: Lines, irq: nat) {
    irq < LINES && Ready(n, irq) && n.prio[irq] < 0xFF
  }

  /** The choice: the lowest priority value, and among equals the lowest number. */
  predicate Beats(n: Lines, j: nat, k: nat)
    requires j < LINES && k < LINES
  {
    n.prio[j] < n.prio[k] || (n.prio[j] == n.prio[k] && j <= k)
  }

  /* Bits of a word. */

  function SetBit(w: u32, k: nat): (r: u32)
    requires k < 32
    ensures Digit(r, k) == 1
    ensures forall j: nat :: j < 32 && j != k ==> Digit(r, j) == Digit(w, j)
  {
    if Digit(w, k) == 1 then w else AddBit(w, k); w + Pow2(k)
  }

  function ClearBit(w: u32, k: nat): (r: u32)
    requires k < 32
    ensures Digit(r, k) == 0
    ensures forall j: nat :: j < 32 && j != k ==> Digit(r, j) == Digit(w, j)
  {
    if Digit(w, k) == 0 then w else DropBit(w, k); w - Pow2(k)
  }

  lemma {:induction false} DigitsAdd(w: nat, k: nat, n: nat)
    requires k < n && w < Pow2(n) && Digit(w, k) == 0
    ensures w + Pow2(k) < Pow2(n) && Digit(w + Pow2(k), k) == 1
    ensures forall j: nat :: j != k ==> Digit(w + Pow2(k), j) == Digit(w, j)
    decreases k
  {
    if k == 0 {
      assert (w + 1) / 2 == w / 2;
    } else {
      DigitsAdd(w / 2, k - 1, n - 1);
      assert (w + Pow2(k)) / 2 == w / 2 + Pow2(k - 1) && (w + Pow2(k)) % 2 == w % 2;
      forall j: nat | j != k
        ensures Digit(w + Pow2(k), j) == Digit(w, j)
      {
        if j != 0 {
          assert Digit(w / 2 + Pow2(k - 1), j - 1) == Digit(w / 2, j - 1);
        }
      }
    }
  }

  lemma AddBit(w: u32, k: nat)
    requires k < 32 && Digit(w, k) == 0
    ensures w + Pow2(k) < 0x1_0000_0000 && Digit(w + Pow2(k), k) == 1
    ensures forall j: nat :: j != k ==> Digit(w + Pow2(k), j) == Digit(w, j)
  {
    Pow32();
    DigitsAdd(w, k, 32);
  }

  lemma {:induction false} DigitsDrop(w: nat, k: nat)
    requires Digit(w, k) == 1
    ensures w >= Pow2(k) && Digit(w - Pow2(k), k) == 0
    ensures forall j: nat :: j != k ==> Digit(w - Pow2(k), j) == Digit(w, j)
    decreases k
  {
    if k == 0 {
      assert (w - 1) / 2 == w / 2;
    } else {
      DigitsDrop(w / 2, k - 1);
      assert (w - Pow2(k)) / 2 == w / 2 - Pow2(k - 1) && (w - Pow2(k)) % 2 == w % 2;
      forall j: nat | j != k
        ensures Digit(w - Pow2(k), j) == Digit(w, j)
      {
        if j != 0 {
          assert Digit(w / 2 - Pow2(k - 1), j - 1) == Digit(w / 2, j - 1);
        }
      }
    }
  }

  lemma DropBit(w: u32, k: nat)
    requires k < 32 && Digit(w, k) == 1
    ensures w >= Pow2(k) && Digit(w - Pow2(k), k) == 0
    ensures forall j: nat :: j != k ==> Digit(w - Pow2(k), j) == Digit(w, j)
  {
    DigitsDrop(w, k);
  }

  lemma {:induction false} DigitAnd(x: nat, y: nat, n: nat, k: nat)
    requires k < n
    ensures Digit(And(x, y, n), k) == 1 <==> Digit(x, k) == 1 && Digit(y, k) == 1
    decreases k
  {
    hide Pow2;
    if k != 0 {
      DigitAnd(x / 2, y / 2, n - 1, k - 1);
    }
  }

  lemma {:induction false} DigitNot(x: nat, n: nat, k: nat)
    requires k < n && x < Pow2(n)
    ensures Digit(Pow2(n) - 1 - x, k) == 1 - Digit(x, k)
    decreases k
  {
    assert (Pow2(n) - 1 - x) / 2 == Pow2(n - 1) - 1 - x / 2;
    if k != 0 {
      DigitNot(x / 2, n - 1, k - 1);
    }
  }

  /** Number of the lowest set bit. */
  function Lowest(w: nat): (k: nat)
    requires w > 0
    ensures Digit(w, k) == 1 && forall j: nat :: j < k ==> Digit(w, j) == 0
  {
    if w % 2 == 1 then 0 else
    var k := Lowest(w / 2) + 1;
    assert forall j: nat :: j < k ==> Digit(w, j) == (if j == 0 then 0 else Digit(w / 2, j - 1));
    k
  }

  /** `w & (w - 1)` clears the lowest set bit. */
  lemma {:induction false} AndLess(w: nat, n: nat)
    requires 0 < w < Pow2(n)
    ensures And(w, w - 1, n) == w - Pow2(Lowest(w)) 
  {
    if w % 2 == 1 {
      AndSame(w / 2, n - 1);
      assert (w - 1) / 2 == w / 2;
    } else {
      assert (w - 1) / 2 == w / 2 - 1;
      AndLess(w / 2, n - 1);
    }
  }

  lemma {:induction false} HighDigits(w: nat, n: nat, k: nat)
    requires w < Pow2(n) && n <= k
    ensures Digit(w, k) == 0
    decreases n
  {
    if n == 0 {
      ZeroDigits(k);
    } else {
      HighDigits(w / 2, n - 1, k - 1);
    }
  }

  lemma {:induction false} ZeroDigits(k: nat)
    ensures Digit(0, k) == 0
  {
    if k != 0 {
      ZeroDigits(k - 1);
    }
  }

  /** A ready word: enabled and pending and not active, bit by bit. */
  lemma ReadyWord(n: Lines, w: nat, k: nat)
    requires w < 8 && k < 32
    ensures 32 * w + k < 256
    ensures Digit(And32(And32(n.enable[w], n.pending[w]), Not32(n.active[w])), k) == 1 <==> Ready(n, 32 * w + k)
  {
    Pow32();
    DigitAnd(n.enable[w], n.pending[w], 32, k);
    DigitAnd(And32(n.enable[w], n.pending[w]), Not32(n.active[w]), 32, k);
    DigitNot(n.active[w], 32, k);
    assert (32 * w + k) / 32 == w && (32 * w + k) % 32 == k;
  }

  lemma {:induction false} OrBit(w: nat, k: nat, n: nat)
    requires k < n && w < Pow2(n)
    ensures Or(w, Pow2(k), n) == if Digit(w, k) == 1 then w else w + Pow2(k)
    decreases k
  {
    if k == 0 {
      OrZero(w / 2, n - 1);
    } else {
      OrBit(w / 2, k - 1, n - 1);
    }
  }

  lemma {:induction false} AndAllBut(w: nat, k: nat, n: nat)
    requires k < n && w < Pow2(n)
    ensures Pow2(k) < Pow2(n) && And(w, Pow2(n) - 1 - Pow2(k), n) == if Digit(w, k) == 1 then w - Pow2(k) else w
    decreases k
  {
    hide And;
    PowLess(k, n);
    var m := Pow2(n) - 1 - Pow2(k);
    AndStep(w, m, n);
    if k == 0 {
      AndLow(w / 2, n - 1, n - 1);
      SmallMod(w / 2, Pow2(n - 1));
      assert m / 2 == Pow2(n - 1) - 1 && m % 2 == 0;
    } else {
      AndAllBut(w / 2, k - 1, n - 1);
      assert m / 2 == Pow2(n - 1) - 1 - Pow2(k - 1) && m % 2 == 1;
    }
  }

  lemma OrOps(w: u32, k: nat)
    requires k < 32
    ensures Pow2(k) < 0x1_0000_0000 && Or32(w, Pow2(k)) == SetBit(w, k)
  {
    hide Or, Digit;
    Pow32();
    PowLess(k, 32);
    OrBit(w, k, 32);
  }

  lemma AndOps(w: u32, k: nat)
    requires k < 32
    ensures Pow2(k) < 0x1_0000_0000 && And32(w, Not32(Pow2(k))) == ClearBit(w, k)
  {
    hide And, Digit;
    Pow32();
    PowLess(k, 32);
    AndAllBut(w, k, 32);
  }

  /* The bookkeeping functions. */

  function With(b: Bank, irq: nat): (r: Bank)
    requires irq < LINES
  {
    b[irq / 32 := SetBit(b[irq / 32], irq % 32)]
  }

  function Without(b: Bank, irq: nat): (r: Bank)
    requires irq < LINES
  {
    b[irq / 32 := ClearBit(b[irq / 32], irq % 32)]
  }

  lemma WithOn(b: Bank, irq: nat, j: nat)
    requires irq < LINES && j < 256
    ensures On(With(b, irq), j) <==> j == irq || On(b, j)
    ensures On(Without(b, irq), j) <==> j != irq && On(b, j)
  {
  }

  /** A line being taken is no longer pending and becomes active. */
  function Accept(n: Lines, irq: nat): Lines
    requires irq < LINES
  {
    n.(pending := Without(n.pending, irq), active := With(n.active, irq))
  }

  /** The best candidate among the lines below k, the way the scan finds it. */
  function BestBelow(n: Lines, k: nat): (r: Option<nat>)
    requires k <= LINES
    ensures r.Some? ==> r.value < k && Candidate(n, r.value)
  {
    if k == 0 then None
    else
      var best := BestBelow(n, k - 1);
      if Candidate(n, k - 1) && (best.None? || n.prio[k - 1] < n.prio[best.value]) then Some(k - 1) else best
  }

  function Best(n: Lines): (r: Option<nat>)
    ensures r.Some? ==> r.value < LINES
  {
    BestBelow(n, LINES)
  }

  lemma {:induction false} BestBelowBeats(n: Lines, k: nat)
    requires k <= LINES
    ensures BestBelow(n, k).None? ==> forall j: nat :: j < k ==> !Candidate(n, j)
    ensures BestBelow(n, k).Some? ==> forall j: nat :: j < k && Candidate(n, j) ==> Beats(n, BestBelow(n, k).value, j)
  {
    if k != 0 {
      BestBelowBeats(n, k - 1);
    }
  }

  /** Arbitration: the chosen line is ready, has the least priority value among the ready
      lines whose value is below 0xFF, and the least number among those; no line is chosen
      exactly when there is none. */
  lemma BestIsBest(n: Lines)
    ensures Best(n).None? <==> forall j: nat :: !Candidate(n, j)
    ensures Best(n).Some? ==> Candidate(n, Best(n).value)
    ensures Best(n).Some? ==> forall j: nat :: Candidate(n, j) ==> Beats(n, Best(n).value, j)
  {
    BestBelowBeats(n, LINES);
  }

  /** Skipping lines that are not candidates. */
  lemma {:induction false} SkipTo(n: Lines, j: nat, k: nat)
    requires j <= k <= LINES && forall i: nat :: j <= i < k ==> !Candidate(n, i)
    ensures BestBelow(n, k) == BestBelow(n, j)
  {
    if j != k {
      SkipTo(n, j, k - 1);
    }
  }

  /** Taking the lowest set bit out of a word. */
  lemma TakeLowest(w: u32)
    requires w > 0
    ensures Lowest(w) < 32 && And32(w, w - 1) < w
    ensures Digit(w, Lowest(w)) == 1 && forall j: nat :: j < Lowest(w) ==> Digit(w, j) == 0
    ensures Digit(And32(w, w - 1), Lowest(w)) == 0
    ensures forall j: nat :: j != Lowest(w) ==> Digit(And32(w, w - 1), j) == Digit(w, j)
  {
    Pow32();
    if Lowest(w) >= 32 {
      HighDigits(w, 32, Lowest(w));
    }
    AndLess(w, 32);
    DropBit(w, Lowest(w));
  }

  /** Line k of word w. */
  predicate ReadyAt(n: Lines, w: nat, k: nat)
    requires w < 8 && k < 32
  {
    Ready(n, 32 * w + k)
  }

  /** Lines of word w from number j on that are not ready do not change the choice. */
  lemma SkipLines(n: Lines, w: nat, j: nat, k: nat)
    requires Wired(n) && w < 8 && j <= k <= 32
    requires forall i: nat :: j <= i < k ==> !ReadyAt(n, w, i)
    ensures BestBelow(n, Min(32 * w + j, LINES)) == BestBelow(n, Min(32 * w + k, LINES))
  {
    var a, b := Min(32 * w + j, LINES), Min(32 * w + k, LINES);
    forall i: nat | a <= i < b
      ensures !Candidate(n, i)
    {
      assert !ReadyAt(n, w, i - 32 * w);
    }
    SkipTo(n, a, b);
  }

  /** A ready line the scan reaches takes over when it is strictly more urgent. */
  lemma TakeLine(n: Lines, w: nat, k: nat)
    requires Wired(n) && w < 8 && k < 32 && ReadyAt(n, w, k)
    ensures 32 * w + k < LINES
    ensures var irq, best := 32 * w + k, BestBelow(n, Min(32 * w + k, LINES));
      BestBelow(n, Min(32 * w + (k + 1), LINES)) ==
        if n.prio[irq] < (if best.Some? then n.prio[best.value] else 0xFF) then Some(irq) else best
  {
  }

  /** The word still holds exactly the ready lines from number `from` on. */
  ghost predicate Holds(n: Lines, w: nat, word: u32, from: nat)
    requires w < 8
  {
    && from <= 32
    && (forall k: nat :: from <= k < 32 ==> (Digit(word, k) == 1 <==> ReadyAt(n, w, k)))
    && (forall k: nat :: k < from ==> Digit(word, k) == 0)
  }

  lemma HoldsAll(n: Lines, w: nat)
    requires w < 8
    ensures Holds(n, w, And32(And32(n.enable[w], n.pending[w]), Not32(n.active[w])), 0)
  {
    hide And32, Not32;
    forall k: nat | k < 32
      ensures Digit(And32(And32(n.enable[w], n.pending[w]), Not32(n.active[w])), k) == 1 <==> ReadyAt(n, w, k)
    {
      ReadyWord(n, w, k);
    }
  }

  /** The lowest set bit is the next ready line. */
  lemma NextLine(n: Lines, w: nat, word: u32, from: nat)
    requires w < 8 && word > 0 && Holds(n, w, word, from)
    ensures var b := Lowest(word);
      from <= b < 32 && ReadyAt(n, w, b) && And32(word, word - 1) < word && Holds(n, w, And32(word, word - 1), b + 1)
    ensures forall k: nat :: from <= k < Lowest(word) ==> !ReadyAt(n, w, k)
  {
    hide And32, Ready, Digit, Lowest, And;
    TakeLowest(word);
    var b, rest := Lowest(word), And32(word, word - 1);
    forall k: nat | k < b + 1
      ensures Digit(rest, k) == 0
    {
      assert k < b ==> Digit(word, k) == 0;
    }
    forall k: nat | b + 1 <= k < 32
      ensures Digit(rest, k) == 1 <==> ReadyAt(n, w, k)
    {
      assert Digit(rest, k) == Digit(word, k);
    }
  }

  lemma NoneLeft(n: Lines, w: nat, from: nat)
    requires w < 8 && Holds(n, w, 0, from)
    ensures forall k: nat :: from <= k < 32 ==> !ReadyAt(n, w, k)
  {
    forall k: nat | from <= k < 32
      ensures !ReadyAt(n, w, k)
    {
      ZeroDigits(k);
    }
  }

  class Registers {
    const enable: array<u32>
    const pending: array<u32>
    const active: array<u32>
    const prio: array<u8>

    ghost predicate Valid() {
      && enable.Length == 8 && pending.Length == 8 && active.Length == 8 && prio.Length == 240
      && enable != pending && enable != active && pending != active
    }

    constructor ()
      ensures Valid() && fresh(enable) && fresh(pending) && fresh(active) && fresh(prio)
    {
      enable := new u32[8](_ => 0);
      pending := new u32[8](_ => 0);
      active := new u32[8](_ => 0);
      prio := new u8[240](_ => 0);
    }

    function Value(): Lines
      requires Valid()
      reads enable, pending, active, prio
    {
      Lines(enable[..], pending[..], active[..], prio[..])
    }

    method SetPending(irq: u32)
      requires Valid()
      modifies pending
      ensures Value() == if irq < LINES then old(Value()).(pending := With(old(Value()).pending, irq)) else old(Value())
    {
      if irq < LINES {
        OrOps(pending[irq / 32], irq % 32);
        pending[irq / 32] := Or32(pending[irq / 32], Pow2(irq % 32));
      }
    }

    method ClearPending(irq: u32)
      requires Valid()
      modifies pending
      ensures Value() == if irq < LINES then old(Value()).(pending := Without(old(Value()).pending, irq))
        else old(Value())
    {
      if irq < LINES {
        AndOps(pending[irq / 32], irq % 32);
        pending[irq / 32] := And32(pending[irq / 32], Not32(Pow2(irq % 32)));
      }
    }

    method SetActive(irq: u32)
      requires Valid()
      modifies active
      ensures Value() == if irq < LINES then old(Value()).(active := With(old(Value()).active, irq)) else old(Value())
    {
      if irq < LINES {
        OrOps(active[irq / 32], irq % 32);
        active[irq / 32] := Or32(active[irq / 32], Pow2(irq % 32));
      }
    }

    method ClearActive(irq: u32)
      requires Valid()
      modifies active
      ensures Value() == if irq < LINES then old(Value()).(active := Without(old(Value()).active, irq))
        else old(Value())
    {
      if irq < LINES {
        AndOps(active[irq / 32], irq % 32);
        active[irq / 32] := And32(active[irq / 32], Not32(Pow2(irq % 32)));
      }
    }

    /** Scan the words, and in each the set bits from the lowest up. */
    method Pick() returns (best: int)
      requires Valid() && Wired(Value())
      ensures best == match Best(Value()) case None => -1 case Some(irq) => irq
    {
      hide And32, Not32, Digit, Lowest, BestBelow, Holds, ReadyAt, Ready, Wired;
      ghost var n := Value();
      best := -1;
      var bestPrio: u8 := 0xFF;
      NoLines(n);
      for w := 0 to 8
        invariant best == Number(BestBelow(n, Min(32 * w, LINES)))
        invariant bestPrio == if best < 0 then 0xFF else n.prio[best]
      {
        var ready := And32(And32(enable[w], pending[w]), Not32(active[w]));
        ghost var from := 0;
        HoldsAll(n, w);
        while ready > 0
          invariant from <= 32 && Holds(n, w, ready, from)
          invariant best == Number(BestBelow(n, Min(32 * w + from, LINES)))
          invariant bestPrio == if best < 0 then 0xFF else n.prio[best]
          decreases ready
        {
          NextLine(n, w, ready, from);
          var b := Lowest(ready);
          SkipLines(n, w, from, b);
          TakeLine(n, w, b);
          ready := And32(ready, ready - 1);
          var irq := 32 * w + b;
          if prio[irq] < bestPrio {
            bestPrio := prio[irq];
            best := irq;
          }
          from := b + 1;
        }
        NoneLeft(n, w, from);
        SkipLines(n, w, from, 32);
      }
    }
  }

  function Number(r: Option<nat>): int {
    match r case None => -1 case Some(irq) => irq
  }

  lemma NoLines(n: Lines)
    ensures BestBelow(n, 0) == None
  {
  }
}
