/** Replaying a recorded run: events drained at their stamps between batches of steps. */
module Replay {
  import opened Words
  import opened Cpu
  import opened Nvic
  import opened RunLoop
  import Arbitration
  import Bus

  /** A recorded input: a received byte, or an external interrupt line raised. */
  datatype Kind = UartRx | IrqInject | Other
  datatype Event = Event(cycle: nat, kind: Kind, payload: u32)

  function Push(u: Uart, byte: u8): Uart {
    u.(rx := u.rx[u.tail % 64 := byte], tail := (u.tail + 1) % 256)
  }

  function Inject(b: Board, e: Event): Board {
    match e.kind
    case UartRx => b.(uart := Push(b.uart, e.payload % 256))
    case IrqInject =>
      if e.payload < Arbitration.LINES then
        b.(nvic := b.nvic.(pending := Arbitration.With(b.nvic.pending, e.payload)))
      else b
    case Other => b
  }

  ghost predicate Sorted(es: seq<Event>) {
    forall j, k :: 0 <= j < k < |es| ==> es[j].cycle <= es[k].cycle
  }

  /** An instruction advances the cycle counter by one or not at all. */
  ghost predicate Paced(env: Env) {
    forall b: Board :: var b' := UnitStep(env, b).0; b.c.cycles <= b'.c.cycles <= b.c.cycles + 1
  }

  lemma {:induction false} RunPaced(env: Env, b: Board, n: nat)
    requires Paced(env)
    ensures var b' := Run(env, b, n).0; b.c.cycles <= b'.c.cycles <= b.c.cycles + n
    decreases n
  {
    hide UnitStep;
    if n != 0 && !b.c.halted {
      var (b', ok) := UnitStep(env, b);
      assert b.c.cycles <= b'.c.cycles <= b.c.cycles + 1;
      if ok {
        RunPaced(env, b', n - 1);
      }
    }
  }

  /* The reference: one instruction at a time, each event as soon as its stamp is reached. */

  function Ref(env: Env, b: Board, es: seq<Event>, target: nat): Board
    decreases target - b.c.cycles, |es|
  {
    if b.c.cycles >= target then b
    else if |es| > 0 && es[0].cycle <= b.c.cycles then
      InjectKeepsTime(b, es[0]); Ref(env, Inject(b, es[0]), es[1..], target)
    else
      var (b', ok) := UnitStep(env, b);
      if !b.c.halted && ok && b.c.cycles < b'.c.cycles then Ref(env, b', es, target) else b
  }

  lemma InjectKeepsTime(b: Board, e: Event)
    ensures Inject(b, e).c == b.c && Inject(b, e).m == b.m
  {
    hide Arbitration.With;
  }

  /** Until the target every instruction runs, succeeds, and advances the counter by one. */
  ghost predicate Lively(env: Env, b: Board, es: seq<Event>, target: nat)
    decreases target - b.c.cycles, |es|
  {
    b.c.cycles >= target ||
    if |es| > 0 && es[0].cycle <= b.c.cycles then
      InjectKeepsTime(b, es[0]); Lively(env, Inject(b, es[0]), es[1..], target)
    else
      var (b', ok) := UnitStep(env, b);
      !b.c.halted && ok && b'.c.cycles == b.c.cycles + 1 && Lively(env, b', es, target)
  }

  /** A batch that ends by the next event is that many steps of the reference. */
  lemma {:induction false} BatchIsRef(env: Env, b: Board, es: seq<Event>, target: nat, n: nat)
    requires Lively(env, b, es, target) && b.c.cycles + n <= target
    requires n > 0 && |es| > 0 ==> b.c.cycles + n <= es[0].cycle
    ensures var (b', k) := Run(env, b, n);
      && k == n && b'.c.cycles == b.c.cycles + n
      && Lively(env, b', es, target) && Ref(env, b', es, target) == Ref(env, b, es, target)
    decreases n
  {
    hide UnitStep, Inject;
    if n != 0 {
      BatchIsRef(env, UnitStep(env, b).0, es, target, n - 1);
    }
  }

  /* What the host did, and what it recorded. */

  /** The host runs the board in batches and feeds it inputs in between. */
  datatype Act = Steps(n: nat) | Feed(kind: Kind, payload: u32)

  function Fed(b: Board, a: Act): Event
    requires a.Feed?
  {
    Event(b.c.cycles, a.kind, a.payload)
  }

  function Done(env: Env, b: Board, a: Act): Board {
    match a case Steps(n) => Run(env, b, n).0 case Feed(_, _) => Inject(b, Fed(b, a))
  }

  /** The board after all the host's actions. */
  function After(env: Env, b: Board, acts: seq<Act>): Board
    decreases |acts|
  {
    if |acts| == 0 then b else After(env, Done(env, b, acts[0]), acts[1..])
  }

  /** The log the host records: each input stamped with the counter when it was fed. */
  function Recorded(env: Env, b: Board, acts: seq<Act>): seq<Event>
    decreases |acts|
  {
    if |acts| == 0 then []
    else (if acts[0].Feed? then [Fed(b, acts[0])] else []) + Recorded(env, Done(env, b, acts[0]), acts[1..])
  }

  /** The board of the original run when the counter first reached the target, before any
      input fed at that very cycle. */
  function At(env: Env, b: Board, acts: seq<Act>, target: nat): Board
    decreases |acts|, if |acts| > 0 && acts[0].Steps? then acts[0].n else 0
  {
    if b.c.cycles >= target || |acts| == 0 then b
    else match acts[0]
      case Feed(_, _) => At(env, Inject(b, Fed(b, acts[0])), acts[1..], target)
      case Steps(n) =>
        if n == 0 || b.c.halted then At(env, b, acts[1..], target)
        else
          var (b', ok) := UnitStep(env, b);
          if ok then At(env, b', [Steps(n - 1)] + acts[1..], target) else At(env, b', acts[1..], target)
  }

  /** The original run reached the target, and on the way every instruction succeeded and
      advanced the counter. */
  ghost predicate Reached(env: Env, b: Board, acts: seq<Act>, target: nat)
    decreases |acts|, if |acts| > 0 && acts[0].Steps? then acts[0].n else 0
  {
    b.c.cycles >= target ||
    (|acts| > 0 && match acts[0]
      case Feed(_, _) => Reached(env, Inject(b, Fed(b, acts[0])), acts[1..], target)
      case Steps(n) =>
        if n == 0 then Reached(env, b, acts[1..], target)
        else
          var (b', ok) := UnitStep(env, b);
          !b.c.halted && ok && b'.c.cycles == b.c.cycles + 1 && Reached(env, b', [Steps(n - 1)] + acts[1..], target))
  }

  /** Recorded stamps never precede the recording's start, and are in order. */
  lemma {:induction false} RecordedSorted(env: Env, b: Board, acts: seq<Act>)
    requires Paced(env)
    ensures forall k :: 0 <= k < |Recorded(env, b, acts)| ==> b.c.cycles <= Recorded(env, b, acts)[k].cycle
    ensures Sorted(Recorded(env, b, acts))
    decreases |acts|
  {
    if |acts| != 0 {
      hide Run, Inject, Paced;
      match acts[0] {
        case Steps(n) => RunPaced(env, b, n);
        case Feed(_, _) => InjectKeepsTime(b, Fed(b, acts[0]));
      }
      RecordedSorted(env, Done(env, b, acts[0]), acts[1..]);
    }
  }

  /** One instruction less to run is the same recording from one instruction on. */
  lemma RecordedStep(env: Env, b: Board, acts: seq<Act>)
    requires |acts| > 0 && acts[0].Steps? && acts[0].n > 0 && !b.c.halted && UnitStep(env, b).1
    ensures Recorded(env, b, acts) == Recorded(env, UnitStep(env, b).0, [Steps(acts[0].n - 1)] + acts[1..])
  {
    hide UnitStep, Inject, Run;
    var less := [Steps(acts[0].n - 1)] + acts[1..];
    RunOneMore(env, b, acts[0].n);
    assert less[1..] == acts[1..];
  }

  lemma RunOneMore(env: Env, b: Board, n: nat)
    requires n > 0 && !b.c.halted && UnitStep(env, b).1
    ensures Run(env, b, n).0 == Run(env, UnitStep(env, b).0, n - 1).0
  {
    hide UnitStep;
  }

  lemma RecordedNone(env: Env, b: Board, acts: seq<Act>)
    requires |acts| > 0 && acts[0] == Steps(0)
    ensures Recorded(env, b, acts) == Recorded(env, b, acts[1..])
  {
    hide UnitStep, Inject;
  }

  /** The reference run over the recorded log is the original run, whatever the batches the
      host used. */
  lemma {:induction false} RefIsOriginal(env: Env, b: Board, acts: seq<Act>, target: nat)
    requires Paced(env) && Reached(env, b, acts, target)
    ensures var es := Recorded(env, b, acts);
      Ref(env, b, es, target) == At(env, b, acts, target) && Lively(env, b, es, target)
    decreases |acts|, if |acts| > 0 && acts[0].Steps? then acts[0].n else 0
  {
    hide UnitStep, Inject, Run, Paced;
    if b.c.cycles < target {
      match acts[0] {
        case Feed(_, _) =>
          var e := Fed(b, acts[0]);
          InjectKeepsTime(b, e);
          RefIsOriginal(env, Inject(b, e), acts[1..], target);
          assert Recorded(env, b, acts)[1..] == Recorded(env, Inject(b, e), acts[1..]);
        case Steps(n) =>
          if n == 0 {
            RecordedNone(env, b, acts);
            RefIsOriginal(env, b, acts[1..], target);
          } else {
            var b', less := UnitStep(env, b).0, [Steps(n - 1)] + acts[1..];
            RecordedStep(env, b, acts);
            RecordedSorted(env, b', less);
            RefIsOriginal(env, b', less, target);
            var es := Recorded(env, b, acts);
            assert |es| > 0 ==> es[0].cycle > b.c.cycles;
          }
      }
    }
  }


  /* The loop. */

  /** An invariant under which the core only fetches from read-only memory. */
  ghost predicate Homely(env: Env, inv: Board -> bool) {
    && (forall b: Board :: inv(b) && !b.c.halted ==>
          InRom(b.m, b.c.Pc()) && (UnitStep(env, b).1 ==> inv(UnitStep(env, b).0)))
    && (forall b: Board, e: Event :: inv(b) ==> inv(Inject(b, e)))
  }

  lemma {:induction false} HomelyRun(env: Env, inv: Board -> bool, b: Board, n: nat)
    requires Homely(env, inv) && Lawful(env) && (inv(b) || b.c.halted)
    ensures StaysInRom(env, b, n) && (inv(Run(env, b, n).0) || Run(env, b, n).0.c.halted)
    decreases n
  {
    hide UnitStep, Inject, InRom;
    if n != 0 && !b.c.halted {
      assert InRom(b.m, b.c.Pc());
      if UnitStep(env, b).1 {
        HomelyRun(env, inv, UnitStep(env, b).0, n - 1);
      } else {
        FailedHalts(env, b);
      }
    }
  }

  lemma FailedHalts(env: Env, b: Board)
    requires Lawful(env) && !UnitStep(env, b).1
    ensures UnitStep(env, b).0.c.halted
  {
    hide Decode, Dispatch;
  }

  /** A batch has just run without advancing the counter. */
  ghost predicate Stalled(env: Env, b': Board) {
    exists b: Board, n: nat :: n > 0 && Run(env, b, n).0 == b' && b.c.cycles == b'.c.cycles
  }

  /** Events from start on were injected in order, each at the counter given for it: never
      before its stamp, and exactly at it unless it was already past when the loop began. */
  ghost predicate OnStamp(log: seq<Event>, start: nat, began: nat, times: seq<nat>, now: nat) {
    && start + |times| <= |log|
    && (forall k :: 0 <= k < |times| ==> log[start + k].cycle <= times[k] <= now && began <= times[k])
    && (forall j, k :: 0 <= j < k < |times| ==> times[j] <= times[k])
    && (Sorted(log) ==> forall k :: 0 <= k < |times| ==> times[k] == Later(log[start + k].cycle, began))
  }

  function Later(a: nat, b: nat): nat { if a < b then b else a }

  /** Where the loop stands, for a run begun on b with the log's events from start on. */
  ghost predicate Standing(env: Env, inv: Board -> bool, b: Board, log: seq<Event>, start: nat, target: nat,
    times: seq<nat>, now: Board)
    requires start + |times| <= |log|
  {
    var pos := start + |times|;
    && (inv(now) || now.c.halted) && b.c.cycles <= now.c.cycles <= Later(b.c.cycles, target)
    && OnStamp(log, start, b.c.cycles, times, now.c.cycles)
    && (Sorted(log) && pos < |log| && now.c.cycles > b.c.cycles ==> log[pos].cycle >= now.c.cycles)
    && (Lively(env, b, log[start..], target) ==>
          && Lively(env, now, log[pos..], target)
          && Ref(env, now, log[pos..], target) == Ref(env, b, log[start..], target))
  }

  lemma StandingStart(env: Env, inv: Board -> bool, b: Board, log: seq<Event>, start: nat, target: nat)
    requires start <= |log| && (inv(b) || b.c.halted)
    ensures Standing(env, inv, b, log, start, target, [], b)
  {
    hide Lively, Ref;
  }

  /** Draining one due event. */
  lemma StandingInject(env: Env, inv: Board -> bool, b: Board, log: seq<Event>, start: nat, target: nat,
      times: seq<nat>, now: Board)
    requires start + |times| < |log| && Standing(env, inv, b, log, start, target, times, now) && Homely(env, inv)
    requires var e := log[start + |times|]; e.cycle <= now.c.cycles < target
    ensures var after := Inject(now, log[start + |times|]);
      Standing(env, inv, b, log, start, target, times + [now.c.cycles], after) && after.c.cycles == now.c.cycles
  {
    hide UnitStep, Inject, Homely;
    var pos := start + |times|;
    InjectKeepsTime(now, log[pos]);
    HomelyInject(env, inv, now, log[pos]);
    assert log[pos..][1..] == log[pos + 1..];
    var more := times + [now.c.cycles];
    if Sorted(log) && pos + 1 < |log| {
      assert log[pos].cycle <= log[pos + 1].cycle;
    }
    StampAdded(log, start, b.c.cycles, times, now.c.cycles);
  }

  lemma StampAdded(log: seq<Event>, start: nat, began: nat, times: seq<nat>, now: nat)
    requires start + |times| < |log| && OnStamp(log, start, began, times, now) && log[start + |times|].cycle <= now
    requires began <= now
    requires Sorted(log) && now > began ==> log[start + |times|].cycle >= now
    ensures OnStamp(log, start, began, times + [now], now)
  {
  }

  /** Running a batch that ends by the next event and by the target. */
  lemma StandingRun(env: Env, inv: Board -> bool, b: Board, log: seq<Event>, start: nat, target: nat, times: seq<nat>,
      now: Board, gap: nat)
    requires start + |times| <= |log| && Standing(env, inv, b, log, start, target, times, now) && Homely(env, inv)
    requires Paced(env) && Lawful(env) && now.c.cycles + gap <= target
    requires start + |times| < |log| ==> now.c.cycles + gap <= log[start + |times|].cycle
    ensures var after := Run(env, now, gap).0;
      && Standing(env, inv, b, log, start, target, times, after) && now.c.cycles <= after.c.cycles
      && StaysInRom(env, now, gap)
      && (Lively(env, b, log[start..], target) ==> after.c.cycles == now.c.cycles + gap)
  {
    hide UnitStep, Inject, Homely, Run, Lively, Ref, Lawful, Paced;
    HomelyRun(env, inv, now, gap);
    RunPaced(env, now, gap);
    if Lively(env, b, log[start..], target) {
      BatchIsRef(env, now, log[start + |times|..], target, gap);
    }
  }

  /** Drain the events that are due, run up to the next event or the target, and again. */
  method RunUntil(r: Runner, log: seq<Event>, start: nat, target: nat, ghost inv: Board -> bool)
    returns (pos: nat, ghost times: seq<nat>)
    requires r.cache.Length == DCACHE_SIZE && start <= |log|
    requires Lawful(r.env) && Paced(r.env) && Homely(r.env, inv) && (inv(r.board) || r.board.c.halted)
    modifies r, r.cache
    ensures pos == start + |times| && OnStamp(log, start, old(r.board.c.cycles), times, r.board.c.cycles)
    ensures old(r.board.c.cycles) <= r.board.c.cycles <= Later(old(r.board.c.cycles), target)
    ensures r.board.c.cycles < target ==> Stalled(r.env, r.board)
    ensures old(Lively(r.env, r.board, log[start..], target)) ==>
      r.board.c.cycles >= target && r.board == Ref(r.env, old(r.board), log[start..], target)
  {
    hide UnitStep, Inject, Run, StaysInRom, Homely, Lawful, Paced, Standing, OnStamp, Sorted, Lively, Ref;
    pos, times := start, [];
    ghost var b := r.board;
    StandingStart(r.env, inv, b, log, start, target);
    while r.board.c.cycles < target
      invariant pos == start + |times| <= |log| && Standing(r.env, inv, b, log, start, target, times, r.board)
      decreases target - r.board.c.cycles
    {
      ghost var time := r.board.c.cycles;
      while pos < |log| && log[pos].cycle <= r.board.c.cycles
        invariant pos == start + |times| <= |log| && Standing(r.env, inv, b, log, start, target, times, r.board)
        invariant r.board.c.cycles == time
        decreases |log| - pos
      {
        StandingInject(r.env, inv, b, log, start, target, times, r.board);
        times := times + [r.board.c.cycles];
        r.board := Inject(r.board, log[pos]);
        pos := pos + 1;
      }
      var nextEvent := if pos < |log| then log[pos].cycle else target;
      var stop := if nextEvent < target then nextEvent else target;
      var gap := stop - r.board.c.cycles;
      assert gap > 0;
      if gap == 0 {
        break;
      }
      ghost var now := r.board;
      var prev := r.board.c.cycles;
      StandingRun(r.env, inv, b, log, start, target, times, now, gap);
      var count := r.Steps(gap);
      if r.board.c.cycles == prev {
        StalledBy(r.env, now, gap);
        break;
      }
    }
    StandingEnd(r.env, inv, b, log, start, target, times, r.board);
  }

  lemma StandingEnd(env: Env, inv: Board -> bool, b: Board, log: seq<Event>, start: nat, target: nat, times: seq<nat>,
      now: Board)
    requires start + |times| <= |log| && Standing(env, inv, b, log, start, target, times, now)
    ensures OnStamp(log, start, b.c.cycles, times, now.c.cycles)
    ensures b.c.cycles <= now.c.cycles <= Later(b.c.cycles, target)
    ensures Lively(env, b, log[start..], target) && now.c.cycles >= target ==> now == Ref(env, b, log[start..], target)
  {
    hide Lively, UnitStep, Inject;
  }

  lemma HomelyInject(env: Env, inv: Board -> bool, b: Board, e: Event)
    requires Homely(env, inv)
    ensures inv(b) ==> inv(Inject(b, e))
  {
    hide UnitStep, Inject, InRom;
  }

  lemma StalledBy(env: Env, b: Board, n: nat)
    requires n > 0 && Run(env, b, n).0.c.cycles == b.c.cycles
    ensures Stalled(env, Run(env, b, n).0)
  {
    hide Run;
  }
}
