/** The 24-bit down counter: batched ticks lose nothing. */
module SysTick {
  import opened Words

  datatype Timer = Timer(csr: u32, rvr: u32, cvr: u32, countFlag: bool, irqPending: bool) {
    predicate Enabled() { csr % 2 == 1 }
    predicate TickInt() { csr / 2 % 2 == 1 }

    /** Ticks left in the current period: a zero counter reloads before it counts. */
    function Left(): u32 { if cvr == 0 then rvr else cvr }
  }

  /** How many times the counter runs out in n ticks. */
  function Expiries(t: Timer, n: nat): nat {
    var left := t.Left();
    if !t.Enabled() || left == 0 || n < left then 0
    else if t.rvr == 0 then 1
    else 1 + (n - left) / t.rvr
  }

  /** The counter after n ticks. */
  function Remaining(left: u32, rvr: u32, n: nat): u32 {
    if left == 0 then 0
    else if n < left then left - n
    else if rvr == 0 then 0
    else rvr - (n - left) % rvr
  }

  /** The timer after n ticks, in closed form: a counter, and flags raised by any expiry. */
  function Ticked(t: Timer, n: nat): Timer {
    if !t.Enabled() then t
    else
      var fired := Expiries(t, n) > 0;
      t.(cvr := Remaining(t.Left(), t.rvr, n), countFlag := t.countFlag || fired,
         irqPending := t.irqPending || (fired && t.TickInt()))
  }

  /** The device: its registers, advanced in place. */
  class Device {
    var csr: u32
    var rvr: u32
    var cvr: u32
    var countFlag: bool
    var irqPending: bool

    constructor ()
      ensures Value() == Timer(0, 0, 0, false, false)
    {
      csr, rvr, cvr, countFlag, irqPending := 0, 0, 0, false, false;
    }

    function Value(): Timer
      reads this
    {
      Timer(csr, rvr, cvr, countFlag, irqPending)
    }

    /** Advance the counter: subtract whole periods, reloading after each. */
    method Tick(n: nat)
      modifies this
      ensures Value() == Ticked(old(Value()), n)
    {
      hide Remaining, Expiries;
      if csr % 2 == 0 {
        return;
      }
      var c := cvr;
      if c == 0 {
        c := rvr;
      }
      ghost var left := c;
      var cycles := n;
      Started(left, rvr);
      while cycles > 0
        invariant 0 <= cycles <= n && csr == old(csr) && rvr == old(rvr)
        invariant c == Remaining(left, rvr, n - cycles)
        invariant countFlag == (old(countFlag) || Fires(left, n - cycles))
        invariant irqPending == (old(irqPending) || (Fires(left, n - cycles) && csr / 2 % 2 == 1))
        decreases cycles
      {
        if c == 0 {
          break;
        }
        PeriodEnds(left, rvr, n - cycles);
        if cycles >= c {
          cycles := cycles - c;
          c := rvr;
          countFlag := true;
          if csr / 2 % 2 == 1 {
            irqPending := true;
          }
        } else {
          PeriodContinues(left, rvr, n - cycles, cycles);
          c := c - cycles;
          cycles := 0;
        }
      }
      cvr := c;
      if cycles > 0 {
        Stopped(left, rvr, n - cycles, n);
      }
      FiresExpiries(old(Value()), n);
    }
  }

  /** The counter has run out at least once in n ticks. */
  predicate Fires(left: u32, n: nat) { left > 0 && n >= left }

  lemma FiresExpiries(t: Timer, n: nat)
    requires t.Enabled()
    ensures Expiries(t, n) > 0 <==> Fires(t.Left(), n)
  {
  }

  lemma Started(left: u32, rvr: u32)
    ensures Remaining(left, rvr, 0) == left && !Fires(left, 0)
  {
  }

  /** After the first expiry the counter is found from whole periods and a remainder. */
  lemma InPeriod(left: u32, rvr: u32, n: nat, q: nat, r: nat)
    requires left > 0 && r < rvr && n == left + q * rvr + r
    ensures Remaining(left, rvr, n) == rvr - r
  {
    assert q * rvr >= 0;
    DivModUnique(n - left, rvr, q, r);
  }

  lemma Distribute(q: nat, k: nat, rvr: nat)
    ensures (q + 1 + k) * rvr == q * rvr + rvr + k * rvr && (q + 1) * rvr == q * rvr + rvr
  {
  }

  /** Whole periods and remainder after the first expiry. */
  function Periods(left: u32, rvr: u32, n: nat): nat
    requires rvr > 0 && n >= left
  {
    (n - left) / rvr
  }

  function Phase(left: u32, rvr: u32, n: nat): (r: nat)
    requires rvr > 0 && n >= left
    ensures r < rvr && n == left + Periods(left, rvr, n) * rvr + r
  {
    (n - left) % rvr
  }

  /** Running out the period in progress brings a full one. */
  lemma PeriodEnds(left: u32, rvr: u32, done: nat)
    requires Remaining(left, rvr, done) > 0
    ensures var c := Remaining(left, rvr, done);
      Remaining(left, rvr, done + c) == rvr && Fires(left, done + c)
  {
    var c := Remaining(left, rvr, done);
    if done >= left {
      var q, r := Periods(left, rvr, done), Phase(left, rvr, done);
      Distribute(q, 0, rvr);
      InPeriod(left, rvr, done + c, q + 1, 0);
    } else if rvr > 0 {
      InPeriod(left, rvr, left, 0, 0);
    }
  }

  /** Within a period the counter just counts, and nothing fires. */
  lemma PeriodContinues(left: u32, rvr: u32, done: nat, k: nat)
    requires k < Remaining(left, rvr, done)
    ensures Remaining(left, rvr, done + k) == Remaining(left, rvr, done) - k
    ensures Fires(left, done + k) == Fires(left, done)
  {
    if done >= left {
      InPeriod(left, rvr, done + k, Periods(left, rvr, done), Phase(left, rvr, done) + k);
    }
  }

  /** Only a zero reload value, or no period at all, stops the counter. */
  lemma Stops(left: u32, rvr: u32, done: nat)
    requires Remaining(left, rvr, done) == 0
    ensures left == 0 || (rvr == 0 && done >= left)
  {
    if left > 0 && rvr > 0 && done >= left {
      InPeriod(left, rvr, done, Periods(left, rvr, done), Phase(left, rvr, done));
    }
  }

  /** A counter at zero stays there. */
  lemma Stopped(left: u32, rvr: u32, done: nat, n: nat)
    requires Remaining(left, rvr, done) == 0 && done <= n
    ensures Remaining(left, rvr, n) == 0 && Fires(left, n) == Fires(left, done)
  {
    Stops(left, rvr, done);
  }

  /* Splitting a batch. */

  /** After some ticks, what is left of the period is the counter itself, or a full reload
      that has not been written yet. */
  lemma LeftAfter(t: Timer, n: nat)
    requires t.Enabled()
    ensures Ticked(t, n).Left() ==
      if n == 0 || t.Left() == 0 || Remaining(t.Left(), t.rvr, n) > 0 then Remaining(t.Left(), t.rvr, n) else t.rvr
  {
  }

  lemma RemainingAdds(left: u32, rvr: u32, j: nat, k: nat)
    requires Remaining(left, rvr, j) > 0
    ensures Remaining(Remaining(left, rvr, j), rvr, k) == Remaining(left, rvr, j + k)
    ensures Fires(left, j + k) == (Fires(left, j) || Fires(Remaining(left, rvr, j), k))
  {
    var c := Remaining(left, rvr, j);
    if k < c {
      PeriodContinues(left, rvr, j, k);
    } else if j >= left && rvr > 0 {
      hide Remaining, Periods, Phase;
      var q, k' := Periods(left, rvr, j), Periods(c, rvr, k);
      Distribute(q, k', rvr);
      InPeriod(left, rvr, j, q, Phase(left, rvr, j));
      InPeriod(c, rvr, k, k', Phase(c, rvr, k));
      InPeriod(left, rvr, j + k, q + 1 + k', Phase(c, rvr, k));
    }
  }

  /** Ticking by a and then by b is ticking by a + b: no expiry is lost or invented. */
  lemma TickAdds(t: Timer, a: nat, b: nat)
    ensures Ticked(Ticked(t, a), b) == Ticked(t, a + b)
  {
    hide Expiries, Remaining, Fires;
    if t.Enabled() {
      var left := t.Left();
      var t' := Ticked(t, a);
      FiresExpiries(t, a);
      FiresExpiries(t, a + b);
      FiresExpiries(t', b);
      LeftAfter(t, a);
      if Remaining(left, t.rvr, a) > 0 {
        RemainingAdds(left, t.rvr, a, b);
      } else {
        Stopped(left, t.rvr, a, a + b);
        Halted(t, a, b);
      }
    }
  }

  /** Once the counter has stopped, a zero reload value keeps it stopped. */
  lemma Halted(t: Timer, a: nat, b: nat)
    requires t.Enabled() && Remaining(t.Left(), t.rvr, a) == 0
    ensures Ticked(t, a).Left() == 0
    ensures Remaining(0, t.rvr, b) == 0 && !Fires(0, b)
  {
    Stops(t.Left(), t.rvr, a);
  }

  lemma ExpiryCount(t: Timer, n: nat, q: nat, r: nat)
    requires t.Enabled() && t.Left() > 0 && r < t.rvr && n == t.Left() + q * t.rvr + r
    ensures Expiries(t, n) == 1 + q
  {
    assert q * t.rvr >= 0;
    DivModUnique(n - t.Left(), t.rvr, q, r);
  }

  /** The number of expiries adds up as well. */
  lemma ExpiriesAdd(t: Timer, a: nat, b: nat)
    ensures Expiries(t, a + b) == Expiries(t, a) + Expiries(Ticked(t, a), b)
  {
    var left, rvr := t.Left(), t.rvr;
    if t.Enabled() && left > 0 && a >= left && rvr > 0 {
      hide Expiries, Remaining, Periods, Phase;
      var q := Periods(left, rvr, a);
      var r := Phase(left, rvr, a);
      InPeriod(left, rvr, a, q, r);
      ExpiryCount(t, a, q, r);
      LeftAfter(t, a);
      var c := rvr - r;
      if b < c {
        NoExpiry(Ticked(t, a), b);
        ExpiryCount(t, a + b, q, r + b);
      } else {
        var k := Periods(c, rvr, b);
        Distribute(q, k, rvr);
        ExpiryCount(Ticked(t, a), b, k, Phase(c, rvr, b));
        ExpiryCount(t, a + b, q + 1 + k, Phase(c, rvr, b));
      }
    }
  }

  lemma NoExpiry(t: Timer, n: nat)
    requires n < t.Left()
    ensures Expiries(t, n) == 0
  {
  }

  /** In a stretch no longer than what is left of the period the counter fires at most once,
      and it fires exactly when the stretch is that long. */
  lemma OneExpiry(t: Timer, n: nat)
    requires t.Enabled() && n <= t.Left()
    ensures Expiries(t, n) <= 1
    ensures Expiries(t, n) == 1 <==> n == t.Left() && n > 0
  {
    if t.Left() > 0 && n == t.Left() && t.rvr > 0 {
      SmallMod(0, t.rvr);
    }
  }
}
