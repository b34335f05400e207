/** The firmware's kernel: round-robin choice, sleeping, semaphores. */
module Rtos {
  import opened Words

  const K_MAX_THREADS: nat := 4

  datatype Status = Ready | Sleeping | Blocked

  /** A thread as the scheduler sees it; semaphores are known by number. */
  datatype Thread = Thread(state: Status, delay: u32, blockedOn: Option<nat>)

  type Threads = seq<Thread>

  ghost predicate AnyReady(ts: Threads) { exists k :: 0 <= k < |ts| && ts[k].state.Ready? }

  /** How many places after the current thread, counting cyclically from its successor. */
  function Distance(n: nat, current: nat, k: nat): (d: nat)
    requires current < n && k < n
    ensures d < n
  {
    if k > current then k - current - 1 else k + n - current - 1
  }

  /** The ready thread nearest after the current one; the first thread when none is ready. */
  ghost predicate Picked(ts: Threads, current: nat, r: nat)
    requires current < |ts|
  {
    && r < |ts|
    && (AnyReady(ts) ==>
          && ts[r].state.Ready?
          && forall k :: 0 <= k < |ts| && ts[k].state.Ready? ==>
               Distance(|ts|, current, r) <= Distance(|ts|, current, k))
    && (!AnyReady(ts) ==> r == 0)
  }

  /** Different places are at different distances. */
  lemma DistanceInjective(n: nat, current: nat, j: nat, k: nat)
    requires current < n && j < n && k < n && Distance(n, current, j) == Distance(n, current, k)
    ensures j == k
  {
  }

  lemma PickedOnce(ts: Threads, current: nat, r: nat, r': nat)
    requires current < |ts| && Picked(ts, current, r) && Picked(ts, current, r')
    ensures r == r'
  {
    if AnyReady(ts) {
      DistanceInjective(|ts|, current, r, r');
    }
  }

  /* Fairness. */

  /** Moving to the nearest ready thread brings every other ready thread nearer. */
  lemma PickBringsNearer(ts: Threads, current: nat, r: nat, x: nat)
    requires current < |ts| && Picked(ts, current, r) && x < |ts| && ts[x].state.Ready? && x != r
    ensures Distance(|ts|, r, x) < Distance(|ts|, current, x)
  {
    assert Distance(|ts|, current, r) <= Distance(|ts|, current, x);
  }

  /** A sequence of switches, each to the thread picked among those ready at the time. */
  ghost predicate Switches(history: seq<Threads>, running: seq<nat>) {
    && |running| == |history| + 1
    && forall k :: 0 <= k < |history| ==>
         && |history[k]| == |history[0]| && running[k] < |history[k]| && Picked(history[k], running[k], running[k + 1])
  }

  /** A thread that stays ready runs after at most as many switches as it is far away. */
  lemma {:induction false} RunsWithin(history: seq<Threads>, running: seq<nat>, x: nat, at: nat)
    requires Switches(history, running) && at < |history| && x < |history[0]|
    requires forall k :: 0 <= k < |history| ==> x < |history[k]| && history[k][x].state.Ready?
    requires at + Distance(|history[0]|, running[at], x) < |history|
    ensures exists k :: at < k <= at + Distance(|history[0]|, running[at], x) + 1 && running[k] == x
    decreases |history| - at
  {
    assert Picked(history[at], running[at], running[at + 1]);
    if running[at + 1] != x {
      PickBringsNearer(history[at], running[at], running[at + 1], x);
      RunsWithin(history, running, x, at + 1);
    }
  }

  /** Round robin is fair: with n threads, one that stays ready runs within n switches. */
  lemma RoundRobinIsFair(history: seq<Threads>, running: seq<nat>, x: nat)
    requires Switches(history, running) && |history| > 0 && |history| >= |history[0]| && x < |history[0]|
    requires forall k :: 0 <= k < |history| ==> x < |history[k]| && history[k][x].state.Ready?
    ensures exists k :: 0 < k <= |history[0]| && running[k] == x
  {
    RunsWithin(history, running, x, 0);
  }

  /* Sleeping. */

  /** What the tick handler does to one thread. */
  function TickThread(t: Thread): Thread {
    if !t.state.Sleeping? then t
    else
      var left := if t.delay > 0 then t.delay - 1 else 0;
      t.(delay := left, state := if left == 0 then Ready else Sleeping)
  }

  function TickThreadN(t: Thread, n: nat): Thread {
    if n == 0 then t else TickThread(TickThreadN(t, n - 1))
  }

  function Asleep(t: Thread, ticks: u32): Thread { t.(delay := ticks, state := Sleeping) }

  /** A sleep of t ticks ends on exactly the max(1, t)-th tick. */
  lemma {:induction false} SleepIsExact(t: Thread, ticks: u32, n: nat)
    ensures var woken := TickThreadN(Asleep(t, ticks), n);
      && (woken.state.Ready? <==> n >= 1 && n >= ticks)
      && (!woken.state.Ready? ==> woken.state.Sleeping? && woken.delay == ticks - Min(n, ticks))
    decreases n
  {
    if n != 0 {
      SleepIsExact(t, ticks, n - 1);
    }
  }

  /* Semaphores. */

  datatype Sem = Sem(count: int, max: int)

  /** One attempt to take, and one give. */
  datatype SemOp = Take | Give

  function SemAfter(s: Sem, op: SemOp): Sem {
    match op
    case Take => if s.count > 0 then s.(count := s.count - 1) else s
    case Give => if s.count < s.max then s.(count := s.count + 1) else s
  }

  function SemRun(s: Sem, ops: seq<SemOp>): Sem
    decreases |ops|
  {
    if |ops| == 0 then s else SemAfter(SemRun(s, ops[..|ops| - 1]), ops[|ops| - 1])
  }

  /** Attempts that succeeded, and gives that found the semaphore full. */
  function Taken(s: Sem, ops: seq<SemOp>): nat
    decreases |ops|
  {
    if |ops| == 0 then 0
    else
      var front, op := ops[..|ops| - 1], ops[|ops| - 1];
      Taken(s, front) + if op.Take? && SemRun(s, front).count > 0 then 1 else 0
  }

  function Lost(s: Sem, ops: seq<SemOp>): nat
    decreases |ops|
  {
    if |ops| == 0 then 0
    else
      var front, op := ops[..|ops| - 1], ops[|ops| - 1];
      Lost(s, front) + if op.Give? && SemRun(s, front).count >= s.max then 1 else 0
  }

  function Gives(ops: seq<SemOp>): nat
    decreases |ops|
  {
    if |ops| == 0 then 0 else Gives(ops[..|ops| - 1]) + if ops[|ops| - 1].Give? then 1 else 0
  }

  /** Whatever the order of takes and gives, the count stays between zero and the maximum,
      and every unit given is taken once, still there, or was given to a full semaphore. */
  lemma {:induction false} UnitsAreConserved(s: Sem, ops: seq<SemOp>)
    requires 0 <= s.count <= s.max
    ensures var r := SemRun(s, ops); 0 <= r.count <= r.max == s.max
    ensures SemRun(s, ops).count + Taken(s, ops) + Lost(s, ops) == s.count + Gives(ops)
    decreases |ops|
  {
    if |ops| != 0 {
      UnitsAreConserved(s, ops[..|ops| - 1]);
    }
  }

  /* Calls of the kernel, as far as its semaphores see them. */

  /** One call; semaphores by number. */
  datatype KernelCall = SleepFor(ticks: u32) | TickOnce | TakeFrom(sem: nat) | GiveTo(sem: nat) | SwitchOver

  /** What each of the kernel's methods does to the semaphores. */
  function SemsAfter(sems: seq<Sem>, call: KernelCall): (r: seq<Sem>)
    ensures |r| == |sems|
  {
    match call
    case TakeFrom(s) => if s < |sems| then sems[s := SemAfter(sems[s], Take)] else sems
    case GiveTo(s) => if s < |sems| then sems[s := SemAfter(sems[s], Give)] else sems
    case _ => sems
  }

  function SemsRun(sems: seq<Sem>, calls: seq<KernelCall>): (r: seq<Sem>)
    ensures |r| == |sems|
    decreases |calls|
  {
    if |calls| == 0 then sems else SemsAfter(SemsRun(sems, calls[..|calls| - 1]), calls[|calls| - 1])
  }

  /** The takes and gives a sequence of calls makes on one semaphore. */
  function OpsOn(calls: seq<KernelCall>, sem: nat): seq<SemOp>
    decreases |calls|
  {
    if |calls| == 0 then []
    else
      var front := OpsOn(calls[..|calls| - 1], sem);
      match calls[|calls| - 1]
      case TakeFrom(s) => if s == sem then front + [Take] else front
      case GiveTo(s) => if s == sem then front + [Give] else front
      case _ => front
  }

  /** Every sequence of calls runs each semaphore through the takes and gives made on it; calls
      on others, sleeping, ticks and switches leave it alone. */
  lemma {:induction false} CallsAreRuns(sems: seq<Sem>, calls: seq<KernelCall>, sem: nat)
    requires sem < |sems|
    ensures SemsRun(sems, calls)[sem] == SemRun(sems[sem], OpsOn(calls, sem))
    decreases |calls|
  {
    if |calls| != 0 {
      var front := calls[..|calls| - 1];
      CallsAreRuns(sems, front, sem);
      var ops := OpsOn(front, sem);
      assert (ops + [Take])[..|ops|] == ops && (ops + [Give])[..|ops|] == ops;
    }
  }

  /** So over any sequence of calls the units of every semaphore are conserved. */
  lemma CallsConserveUnits(sems: seq<Sem>, calls: seq<KernelCall>, sem: nat)
    requires sem < |sems| && 0 <= sems[sem].count <= sems[sem].max
    ensures var s, r, ops := sems[sem], SemsRun(sems, calls)[sem], OpsOn(calls, sem);
      && 0 <= r.count <= r.max == s.max
      && r.count + Taken(s, ops) + Lost(s, ops) == s.count + Gives(ops)
  {
    CallsAreRuns(sems, calls, sem);
    UnitsAreConserved(sems[sem], OpsOn(calls, sem));
  }

  /** The first thread waiting for the semaphore, if any, becomes ready. */
  ghost predicate WokeFirst(ts: Threads, ts': Threads, sem: nat) {
    || (ts' == ts && forall k :: 0 <= k < |ts| ==> !WaitsFor(ts[k], sem))
    || exists i :: 0 <= i < |ts| && WaitsFor(ts[i], sem) && (forall k :: 0 <= k < i ==> !WaitsFor(ts[k], sem)) &&
         ts' == ts[i := ts[i].(state := Ready, blockedOn := None)]
  }

  predicate WaitsFor(t: Thread, sem: nat) { t.state.Blocked? && t.blockedOn == Some(sem) }

  class Kernel {
    var threads: Threads
    var current: nat
    var next: nat
    var pendsv: bool
    var sems: seq<Sem>

    constructor (sems: seq<Sem>)
      ensures threads == [] && this.sems == sems && !pendsv
    {
      threads, current, next, pendsv := [], 0, 0, false;
      this.sems := sems;
    }

    /** Threads exist, and the current one is one of them. */
    predicate Started()
      reads this
    {
      current < |threads| <= K_MAX_THREADS
    }

    method Create() returns (ok: bool)
      modifies this`threads
      ensures ok <==> old(|threads|) < K_MAX_THREADS
      ensures threads == if ok then old(threads) + [Thread(Ready, 0, None)] else old(threads)
    {
      ok := |threads| < K_MAX_THREADS;
      if ok {
        threads := threads + [Thread(Ready, 0, None)];
      }
    }

    method PickNext() returns (r: nat)
      requires Started()
      ensures Picked(threads, current, r)
    {
      var start := current + 1;
      for j := 0 to |threads|
        invariant forall k :: 0 <= k < |threads| && threads[k].state.Ready? ==> Distance(|threads|, current, k) >= j
      {
        var idx := (start + j) % |threads|;
        AtDistance(|threads|, current, j);
        if threads[idx].state.Ready? {
          return idx;
        }
        forall k | 0 <= k < |threads| && threads[k].state.Ready?
          ensures Distance(|threads|, current, k) >= j + 1
        {
          if Distance(|threads|, current, k) == j {
            DistanceInjective(|threads|, current, k, idx);
          }
        }
      }
      for i := 0 to |threads|
        invariant forall k :: 0 <= k < i ==> !threads[k].state.Ready?
      {
        if threads[i].state.Ready? {
          return i;
        }
      }
      return 0;
    }

    /** Choose the next thread, and ask for a switch unless it is the one running. */
    method Schedule()
      requires Started()
      modifies this`next, this`pendsv
      ensures Picked(threads, current, next) && pendsv == (old(pendsv) || next != current)
    {
      next := PickNext();
      if next != current {
        pendsv := true;
      }
    }

    /** Up to the wait: the running thread is put to sleep and another one chosen. */
    method Sleep(ticks: u32)
      requires Started()
      modifies this
      ensures Started() && current == old(current) && sems == SemsAfter(old(sems), SleepFor(ticks))
      ensures threads == old(threads)[current := Asleep(old(threads)[current], ticks)]
      ensures Picked(threads, current, next) && pendsv == (old(pendsv) || next != current)
    {
      threads := threads[current := Asleep(threads[current], ticks)];
      Schedule();
    }

    /** The tick handler: every sleeping thread counts down, and the next one is chosen. */
    method Tick()
      requires Started()
      modifies this
      ensures Started() && current == old(current) && sems == SemsAfter(old(sems), TickOnce)
      ensures |threads| == old(|threads|)
      ensures forall k :: 0 <= k < |threads| ==> threads[k] == TickThread(old(threads)[k])
      ensures Picked(threads, current, next) && pendsv == (old(pendsv) || next != current)
    {
      for i := 0 to |threads|
        invariant |threads| == old(|threads|) && current == old(current) && sems == old(sems) && pendsv == old(pendsv)
        invariant forall k :: 0 <= k < i ==> threads[k] == TickThread(old(threads)[k])
        invariant forall k :: i <= k < |threads| ==> threads[k] == old(threads)[k]
      {
        var t := threads[i];
        if t.state.Sleeping? {
          if t.delay > 0 {
            t := t.(delay := t.delay - 1);
          }
          if t.delay == 0 {
            t := t.(state := Ready);
          }
          threads := threads[i := t];
        }
      }
      Schedule();
    }

    /** One round of taking: the unit is taken, or the running thread blocks. */
    method TryTake(s: nat) returns (taken: bool)
      requires Started() && s < |sems|
      modifies this
      ensures Started() && current == old(current)
      ensures taken == (old(sems)[s].count > 0) && sems == SemsAfter(old(sems), TakeFrom(s))
      ensures taken ==> threads == old(threads) && next == old(next) && pendsv == old(pendsv)
      ensures !taken ==>
        threads == old(threads)[current := old(threads)[current].(state := Blocked, blockedOn := Some(s))]
      ensures !taken ==> Picked(threads, current, next) && pendsv == (old(pendsv) || next != current)
    {
      if sems[s].count > 0 {
        sems := sems[s := sems[s].(count := sems[s].count - 1)];
        return true;
      }
      threads := threads[current := threads[current].(state := Blocked, blockedOn := Some(s))];
      Schedule();
      taken := false;
      assert sems == old(sems)[s := old(sems)[s]];
    }

    /** Give a unit, unless the semaphore is full, and wake the first thread waiting for it. */
    method SemGive(s: nat)
      requires Started() && s < |sems|
      modifies this
      ensures Started() && current == old(current) && sems == SemsAfter(old(sems), GiveTo(s))
      ensures WokeFirst(old(threads), threads, s)
      ensures Picked(threads, current, next) && pendsv == (old(pendsv) || next != current)
    {
      if sems[s].count < sems[s].max {
        sems := sems[s := sems[s].(count := sems[s].count + 1)];
      }
      assert sems == old(sems)[s := SemAfter(old(sems)[s], Give)];
      for i := 0 to |threads|
        invariant threads == old(threads) && current == old(current) && pendsv == old(pendsv)
        invariant sems == old(sems)[s := SemAfter(old(sems)[s], Give)]
        invariant forall k :: 0 <= k < i ==> !WaitsFor(threads[k], s)
      {
        if threads[i].state.Blocked? && threads[i].blockedOn == Some(s) {
          threads := threads[i := threads[i].(state := Ready, blockedOn := None)];
          break;
        }
      }
      Schedule();
    }

    /** The switch itself: the chosen thread becomes the running one. */
    method Switch()
      requires Started() && next < |threads|
      modifies this`current, this`pendsv
      ensures current == old(next) && !pendsv && Started() && sems == SemsAfter(old(sems), SwitchOver)
    {
      current := next;
      pendsv := false;
    }
  }

  /** The place j steps after the successor of the current one. */
  lemma AtDistance(n: nat, current: nat, j: nat)
    requires current < n && j < n
    ensures (current + 1 + j) % n < n && Distance(n, current, (current + 1 + j) % n) == j
  {
    var p := current + 1 + j;
    if p < n {
      SmallMod(p, n);
    } else {
      DivModUnique(p, n, 1, p - n);
    }
  }
}
