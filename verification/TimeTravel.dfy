/** Time travel: the event log, the snapshot index, rewinding and stepping back. */
module TimeTravel {
  import opened Words
  import opened Cpu
  import opened RunLoop
  import opened Replay
  import opened Reinjection
  import opened Snapshot
  import Bus
  import Jit

  const TT_LOG_MAX: nat := 65536

  /** The log: a buffer that doubles when it is full, up to a limit. */
  class EventLog {
    var buf: array<Event>
    var n: nat

    ghost predicate Valid()
      reads this
    {
      n <= buf.Length
    }

    ghost function Contents(): seq<Event>
      requires Valid()
      reads this, buf
    {
      buf[..n]
    }

    constructor (cap: nat)
      ensures Valid() && Contents() == [] && buf.Length == cap && fresh(buf)
    {
      buf := new Event[cap](_ => Event(0, Other, 0));
      n := 0;
    }

    /** Append, doubling the buffer if need be. Refused, with nothing changed, exactly when the
        log is full. */
    method Append(e: Event) returns (ok: bool)
      requires Valid()
      modifies this, buf
      ensures Valid() && (buf == old(buf) || fresh(buf))
      ensures ok <==> old(n) < Later(old(buf.Length), TT_LOG_MAX)
      ensures Contents() == if ok then old(Contents()) + [e] else old(Contents())
    {
      if n >= buf.Length {
        var cap := if buf.Length != 0 then buf.Length * 2 else 64;
        if cap > TT_LOG_MAX {
          cap := TT_LOG_MAX;
        }
        if cap <= buf.Length {
          return false;
        }
        var bigger := new Event[cap](i reads this, buf => if 0 <= i < buf.Length then buf[i] else e);
        assert bigger[..n] == buf[..n];
        buf := bigger;
      }
      buf[n] := e;
      n := n + 1;
      ok := true;
    }

    /** The first entry stamped at or after a cycle. */
    method Seek(cycle: nat) returns (lo: nat)
      requires Valid()
      ensures lo <= n
      ensures Sorted(Contents()) ==> FirstFrom(Contents(), cycle, lo)
    {
      lo := 0;
      var hi := n;
      while lo < hi
        invariant lo <= hi <= n
        invariant Sorted(Contents()) ==> forall k :: 0 <= k < lo ==> buf[k].cycle < cycle
        invariant Sorted(Contents()) ==> forall k :: hi <= k < n ==> cycle <= buf[k].cycle
        decreases hi - lo
      {
        var mid := lo + (hi - lo) / 2;
        if buf[mid].cycle < cycle {
          if Sorted(Contents()) {
            forall k | 0 <= k <= mid
              ensures buf[k].cycle < cycle
            {
              assert Contents()[k].cycle <= Contents()[mid].cycle;
            }
          }
          lo := mid + 1;
        } else {
          if Sorted(Contents()) {
            forall k | mid <= k < n
              ensures cycle <= buf[k].cycle
            {
              assert Contents()[mid].cycle <= Contents()[k].cycle;
            }
          }
          hi := mid;
        }
      }
    }
  }

  ghost predicate FirstFrom(es: seq<Event>, cycle: nat, at: nat) {
    && at <= |es|
    && (forall k :: 0 <= k < at ==> es[k].cycle < cycle)
    && (forall k :: at <= k < |es| ==> cycle <= es[k].cycle)
  }

  /* A replay from a snapshot against the original run. */

  /** The log is what the host recorded on these actions since the snapshot, after entries fed
      before it; and the run reached the target. */
  ghost predicate Recording(env: Env, b: Board, acts: seq<Act>, log: seq<Event>, target: nat) {
    && Reached(env, b, acts, target)
    && |Recorded(env, b, acts)| <= |log| && log[|log| - |Recorded(env, b, acts)|..] == Recorded(env, b, acts)
    && forall k :: 0 <= k < |log| - |Recorded(env, b, acts)| ==> log[k].cycle <= b.c.cycles
  }

  /** The entries stamped at a cycle. */
  function Stamped(es: seq<Event>, cycle: nat): seq<Event>
    decreases |es|
  {
    if |es| == 0 then []
    else
      var e := es[|es| - 1];
      Stamped(es[..|es| - 1], cycle) + if e.cycle == cycle then [e] else []
  }

  /** The entries fed before the snapshot but stamped at its very cycle, as the counter had
      already reached it: the seek does not tell them from later ones. */
  function Twice(env: Env, b: Board, acts: seq<Act>, log: seq<Event>): seq<Event>
    requires |Recorded(env, b, acts)| <= |log|
  {
    Stamped(log[..|log| - |Recorded(env, b, acts)|], b.c.cycles)
  }

  /** A recording whose entries at the snapshot's cycle do no harm when they are injected again. */
  ghost predicate History(env: Env, b: Board, acts: seq<Act>, log: seq<Event>, target: nat) {
    Recording(env, b, acts, log, target) && Harmless(b, Twice(env, b, acts, log))
  }

  lemma {:induction false} StampedSlice(log: seq<Event>, cycle: nat, at: nat, first: nat)
    requires at <= first <= |log| && (forall k :: 0 <= k < at ==> log[k].cycle < cycle)
    requires forall k :: at <= k < first ==> log[k].cycle == cycle
    ensures Stamped(log[..first], cycle) == log[at..first]
    decreases first
  {
    if first != 0 {
      assert log[..first][..first - 1] == log[..first - 1];
      if first > at {
        StampedSlice(log, cycle, at, first - 1);
        assert log[at..first] == log[at..first - 1] + [log[first - 1]];
      } else {
        StampedSlice(log, cycle, at - 1, first - 1);
        assert log[at..first] == [] == log[at - 1..first - 1];
      }
    }
  }

  /** Seeking the snapshot's cycle finds those entries and then the recording. */
  lemma SeekFinds(env: Env, b: Board, acts: seq<Act>, log: seq<Event>, target: nat, at: nat)
    requires Paced(env) && Recording(env, b, acts, log, target) && FirstFrom(log, b.c.cycles, at)
    ensures log[at..] == Twice(env, b, acts, log) + Recorded(env, b, acts)
    ensures forall e :: e in Twice(env, b, acts, log) ==> e.cycle == b.c.cycles
  {
    hide Paced, Reached, Recorded;
    var es := Recorded(env, b, acts);
    RecordedSorted(env, b, acts);
    var first := |log| - |es|;
    assert |es| > 0 ==> log[first] == log[first..][0] && es[0].cycle >= b.c.cycles;
    assert at <= first;
    StampedSlice(log, b.c.cycles, at, first);
    assert log[at..] == log[at..first] + log[first..];
  }

  /** What a replay gives, harmless or not: the run from the snapshot with the entries stamped at
      its cycle injected once more. */
  lemma ReplayIsTwice(env: Env, b: Board, acts: seq<Act>, log: seq<Event>, target: nat, at: nat)
    requires Paced(env) && Recording(env, b, acts, log, target) && FirstFrom(log, b.c.cycles, at)
    requires b.c.cycles < target
    ensures var again, es := InjectAll(b, Twice(env, b, acts, log)), Recorded(env, b, acts);
      && Ref(env, b, log[at..], target) == Ref(env, again, es, target)
      && Lively(env, b, log[at..], target) == Lively(env, again, es, target)
  {
    hide Paced, Recording, Recorded, Lively, Ref, InjectAll, Stamped;
    SeekFinds(env, b, acts, log, target, at);
    DueFirst(env, b, Twice(env, b, acts, log), Recorded(env, b, acts), target);
  }

  /** Replaying from the entry found by seeking the snapshot's cycle is the original run, as long
      as what is injected again is harmless. */
  lemma ReplayIsOriginal(env: Env, b: Board, acts: seq<Act>, log: seq<Event>, target: nat, at: nat)
    requires Paced(env) && History(env, b, acts, log, target) && FirstFrom(log, b.c.cycles, at)
    ensures Lively(env, b, log[at..], target) && Ref(env, b, log[at..], target) == At(env, b, acts, target)
  {
    hide Paced, Reached, Recorded, InjectAll, Harmless, Stamped, UnitStep;
    RefIsOriginal(env, b, acts, target);
    if b.c.cycles < target {
      hide Lively, Ref, At;
      ReplayIsTwice(env, b, acts, log, target, at);
      HarmlessIs(b, Twice(env, b, acts, log));
    }
  }

  /** For firmware that leaves the ring alone, with the lines injected again all pending, it is the
      original run exactly when the bytes injected again go unnoticed behind those fed later. */
  lemma RingDecidesReplay(env: Env, b: Board, acts: seq<Act>, log: seq<Event>, target: nat, at: nat)
    requires Paced(env) && Recording(env, b, acts, log, target) && FirstFrom(log, b.c.cycles, at)
    requires RingAlone(env) && b.c.cycles < target && AllPending(b.nvic.pending, Twice(env, b, acts, log))
    ensures Ref(env, b, log[at..], target) == At(env, b, acts, target) <==>
      Unnoticed(b.uart, BytesOf(Twice(env, b, acts, log)), FedBytes(env, b, Recorded(env, b, acts), target))
  {
    hide Paced, Reached, Recorded, Lively, Ref, At, Stamped, RingAlone, AllPending, Unnoticed, FedBytes, BytesOf;
    SeekFinds(env, b, acts, log, target, at);
    RefIsOriginal(env, b, acts, target);
    RingDecides(env, b, Twice(env, b, acts, log), Recorded(env, b, acts), target);
  }

  /** Every step of these actions succeeds and advances the counter. */
  ghost predicate Advancing(env: Env, b: Board, acts: seq<Act>)
    decreases |acts|, if |acts| > 0 && acts[0].Steps? then acts[0].n else 0
  {
    |acts| == 0 || match acts[0]
    case Feed(_, _) => Advancing(env, Inject(b, Fed(b, acts[0])), acts[1..])
    case Steps(n) =>
      if n == 0 then Advancing(env, b, acts[1..])
      else
        var (b', ok) := UnitStep(env, b);
        !b.c.halted && ok && b'.c.cycles == b.c.cycles + 1 && Advancing(env, b', [Steps(n - 1)] + acts[1..])
  }

  lemma {:induction false} AdvancingMoves(env: Env, b: Board, acts: seq<Act>)
    requires Advancing(env, b, acts)
    ensures After(env, b, acts).c.cycles >= b.c.cycles
    ensures |acts| > 0 && acts[0].Steps? && acts[0].n > 0 ==>
      && After(env, b, acts) == After(env, UnitStep(env, b).0, [Steps(acts[0].n - 1)] + acts[1..])
      && After(env, b, acts).c.cycles > b.c.cycles
    decreases |acts|, if |acts| > 0 && acts[0].Steps? then acts[0].n else 0
  {
    hide UnitStep, Inject, Run;
    if |acts| > 0 {
      match acts[0] {
        case Feed(_, _) =>
          InjectKeepsTime(b, Fed(b, acts[0]));
          AdvancingMoves(env, Inject(b, Fed(b, acts[0])), acts[1..]);
        case Steps(n) =>
          if n == 0 {
            RunNone(env, b);
            AdvancingMoves(env, b, acts[1..]);
          } else {
            var less := [Steps(n - 1)] + acts[1..];
            assert less[1..] == acts[1..];
            RunOneMore(env, b, n);
            AdvancingMoves(env, UnitStep(env, b).0, less);
          }
      }
    }
  }

  lemma RunNone(env: Env, b: Board)
    ensures Run(env, b, 0).0 == b
  {
  }

  /** Whichever snapshot a replay starts from, it looks for the same board: one taken later in
      the same run gives the same answer, unless the target is its very cycle and input was fed
      at that cycle before it. */
  lemma {:induction false} AnySnapshotWillDo(env: Env, b: Board, before: seq<Act>, acts: seq<Act>, target: nat)
    requires Paced(env) && Advancing(env, b, before) && Reached(env, After(env, b, before), acts, target)
    requires After(env, b, before).c.cycles <= target
    requires After(env, b, before).c.cycles == target ==>
      forall e :: e in Recorded(env, b, before) ==> e.cycle < target
    ensures At(env, b, before + acts, target) == At(env, After(env, b, before), acts, target)
    ensures Reached(env, b, before + acts, target)
    decreases |before|, if |before| > 0 && before[0].Steps? then before[0].n else 0
  {
    hide UnitStep, Inject, Run, Paced;
    if |before| == 0 {
      assert before + acts == acts;
    } else {
      assert (before + acts)[1..] == before[1..] + acts && (before + acts)[0] == before[0];
      match before[0] {
        case Feed(_, _) =>
          var e := Fed(b, before[0]);
          InjectKeepsTime(b, e);
          AdvancingMoves(env, b, before);
          assert Recorded(env, b, before) == [e] + Recorded(env, Inject(b, e), before[1..]);
          AnySnapshotWillDo(env, Inject(b, e), before[1..], acts, target);
        case Steps(n) =>
          if n == 0 {
            RunNone(env, b);
            RecordedNone(env, b, before);
            AnySnapshotWillDo(env, b, before[1..], acts, target);
          } else {
            var less := [Steps(n - 1)] + before[1..];
            AdvancingMoves(env, b, before);
            RecordedStep(env, b, before);
            AnySnapshotWillDo(env, UnitStep(env, b).0, less, acts, target);
            assert less + acts == [Steps(n - 1)] + (before + acts)[1..];
          }
      }
    }
  }

  /** An event stamped at the snapshot's very cycle but injected before the snapshot is found
      by the seek and injected again: the replay ends with one more byte in the receive ring
      than the original run, for any firmware that leaves the ring alone. */
  lemma StampAtSnapshotReplaysTwice(env: Env, b: Board, byte: u32, n: nat)
    requires UartAlone(env) && n > 0 && Reached(env, b, [Steps(n)], b.c.cycles + n)
    ensures var log := [Event(b.c.cycles, UartRx, byte)]; var target := b.c.cycles + n;
      && FirstFrom(log, b.c.cycles, 0)
      && Ref(env, b, log[0..], target).uart.tail == (b.uart.tail + 1) % 256
      && At(env, b, [Steps(n)], target).uart.tail == b.uart.tail
  {
    hide UnitStep;
    var log, target := [Event(b.c.cycles, UartRx, byte)], b.c.cycles + n;
    assert log[0..] == log && log[1..] == [];
    InjectKeepsTime(b, log[0]);
    RefKeepsUart(env, Inject(b, log[0]), target);
    AtKeepsUart(env, b, [Steps(n)], target);
  }

  ghost predicate UartAlone(env: Env) {
    forall b: Board :: UnitStep(env, b).0.uart == b.uart
  }

  lemma {:induction false} RefKeepsUart(env: Env, b: Board, target: nat)
    requires UartAlone(env)
    ensures Ref(env, b, [], target).uart == b.uart
    decreases target - b.c.cycles
  {
    hide UnitStep;
    if b.c.cycles < target {
      var (b', ok) := UnitStep(env, b);
      assert b'.uart == b.uart;
      if !b.c.halted && ok && b.c.cycles < b'.c.cycles {
        RefKeepsUart(env, b', target);
      }
    }
  }

  lemma {:induction false} AtKeepsUart(env: Env, b: Board, acts: seq<Act>, target: nat)
    requires UartAlone(env) && forall a :: a in acts ==> a.Steps?
    ensures At(env, b, acts, target).uart == b.uart
    decreases |acts|, if |acts| > 0 && acts[0].Steps? then acts[0].n else 0
  {
    hide UnitStep;
    if b.c.cycles < target && |acts| > 0 {
      var n := acts[0].n;
      if n == 0 || b.c.halted {
        AtKeepsUart(env, b, acts[1..], target);
      } else {
        var (b', ok) := UnitStep(env, b);
        assert b'.uart == b.uart;
        AtKeepsUart(env, b', if ok then [Steps(n - 1)] + acts[1..] else acts[1..], target);
      }
    }
  }

  /* The session. */

  datatype IndexEntry = IndexEntry(cycle: nat, snap: nat)

  /** Entry k points at snapshot k, its cycle is the snapshot's, and consecutive cycles are at
      least a stride apart. */
  ghost predicate Indexed(idx: seq<IndexEntry>, snaps: seq<Blob>, stride: nat) {
    && |idx| == |snaps|
    && (forall k :: 0 <= k < |idx| ==> idx[k].snap == k && idx[k].cycle == snaps[k].cycle == snaps[k].cpu.cycles)
    && (forall k :: 0 <= k < |idx| ==> idx[k].cycle >= stride)
    && (forall j, k :: 0 <= j < k < |idx| ==> idx[j].cycle + stride <= idx[k].cycle)
  }

  /** The last entry not after the target, or -1 if there is none. */
  ghost predicate Latest(idx: seq<IndexEntry>, target: nat, i: int) {
    && -1 <= i < |idx|
    && (forall k :: 0 <= k <= i ==> idx[k].cycle <= target)
    && (forall k :: i < k < |idx| ==> target < idx[k].cycle)
  }

  /** Largest index whose cycle is not after the target. */
  method BsearchLe(a: array<IndexEntry>, n: nat, target: nat) returns (best: int)
    requires n <= a.Length && forall j, k :: 0 <= j < k < n ==> a[j].cycle <= a[k].cycle
    ensures Latest(a[..n], target, best)
  {
    var lo, hi := 0, n - 1;
    best := -1;
    while lo <= hi
      invariant 0 <= lo <= n && -1 <= hi < n && best == lo - 1 && lo <= hi + 1
      invariant forall k :: 0 <= k < lo ==> a[k].cycle <= target
      invariant forall k :: hi < k < n ==> target < a[k].cycle
      decreases hi - lo
    {
      var mid := lo + (hi - lo) / 2;
      if a[mid].cycle <= target {
        best := mid;
        lo := mid + 1;
      } else {
        hi := mid - 1;
      }
    }
  }

  class Session {
    const stride: nat
    const maxSnaps: nat
    const raw: Image
    const snaps: array<Blob>
    const idx: array<IndexEntry>
    const log: EventLog
    var n: nat
    /** The boards the snapshots were taken of. */
    ghost var origin: seq<Board>

    ghost predicate Valid()
      reads this, snaps, idx, log
    {
      && stride > 0 && snaps.Length == idx.Length == maxSnaps && n <= maxSnaps && log.Valid()
      && Indexed(idx[..n], snaps[..n], stride)
      && |origin| == n && forall k :: 0 <= k < n ==> Save(origin[k], raw) == Some(snaps[k])
    }

    constructor (stride: nat, maxSnaps: nat, raw: Image, blank: Blob)
      requires stride > 0
      ensures Valid() && n == 0 && this.stride == stride && this.maxSnaps == maxSnaps && this.raw == raw
      ensures log.Contents() == [] && fresh(snaps) && fresh(idx) && fresh(log) && fresh(log.buf)
    {
      this.stride, this.maxSnaps, this.raw := stride, maxSnaps, raw;
      snaps := new Blob[maxSnaps](_ => blank);
      idx := new IndexEntry[maxSnaps](_ => IndexEntry(0, 0));
      log := new EventLog(16);
      n := 0;
      origin := [];
    }

    /** The cycle from which the next snapshot is due. */
    function Due(): nat
      requires n <= idx.Length
      reads this, idx
    {
      if n == 0 then stride else idx[n - 1].cycle + stride
    }

    /** Take a snapshot when one is due and there is room. The index stays well formed. */
    method OnCycle(b: Board, replaying: bool)
      requires Valid()
      modifies this, snaps, idx
      ensures Valid()
      ensures if !replaying && b.c.cycles >= old(Due()) && old(n) < maxSnaps && Save(b, raw).Some?
        then n == old(n) + 1 && origin == old(origin) + [b] && snaps[..n] == old(snaps[..n]) + [Save(b, raw).value]
        else n == old(n) && origin == old(origin) && snaps[..] == old(snaps[..]) && idx[..] == old(idx[..])
    {
      hide Save;
      if replaying || b.c.cycles < Due() || n >= maxSnaps {
        return;
      }
      var blob := Save(b, raw);
      if blob.None? {
        return;
      }
      SavedCycle(b, raw);
      ghost var was, taken := idx[..n], snaps[..n];
      snaps[n] := blob.value;
      idx[n] := IndexEntry(b.c.cycles, n);
      IndexGrows(was, taken, stride, idx[n], snaps[n]);
      n := n + 1;
      origin := origin + [b];
      assert idx[..n] == was + [idx[n - 1]] && snaps[..n] == taken + [snaps[n - 1]];
    }

    /** What rewinding needs of the machine: the snapshots were taken of this machine, whose
        only writable memory is SRAM, on firmware that stays in read-only code. */
    ghost predicate Same(r: Runner, inv: Board -> bool)
      reads this, r
    {
      && r.cache.Length == DCACHE_SIZE && Lawful(r.env) && Paced(r.env) && Homely(r.env, inv)
      && forall k :: 0 <= k < |origin| ==>
           inv(origin[k]) && OnlySram(origin[k].m) && Bus.RomKept(origin[k].m, r.board.m)
    }

    /** Record an input fed to the board now; replays record nothing. */
    method Record(b: Board, a: Act, replaying: bool)
      requires Valid() && a.Feed?
      modifies log, log.buf
      ensures Valid() && (log.buf == old(log.buf) || fresh(log.buf))
      ensures log.Contents() ==
        if replaying || old(log.n) >= Later(old(log.buf.Length), TT_LOG_MAX) then old(log.Contents())
        else old(log.Contents()) + [Fed(b, a)]
    {
      hide Save, Indexed;
      if !replaying {
        var kept := log.Append(Fed(b, a));
      }
    }

    /** Some snapshot is not after the target. */
    ghost predicate Reachable(target: nat)
      requires n <= idx.Length
      reads this, idx
    {
      exists k :: 0 <= k < n && idx[k].cycle <= target
    }

    /** The board is the one replayed to the target from the latest snapshot not after it. */
    ghost predicate Rewound(env: Env, target: nat, now: Board)
      requires Valid()
      reads this, snaps, idx, log, log.buf
    {
      now.c.cycles <= target &&
      exists i :: 0 <= i < n && Latest(idx[..n], target, i) && Replayed(env, origin[i], log.Contents(), target, now)
    }

    /** Go back to the latest snapshot not after the target, and replay from there to the
        target. Fails, with the machine untouched, exactly when there is no such snapshot.
        Otherwise, if the log is in order and is the recording of a run from the snapshot that
        reached the target, the board is exactly the one that run had when it first reached
        the target, whatever the host's batches and wherever the machine was; unless entries
        stamped at the snapshot's cycle were fed before it and do harm when injected again, which
        is when the board is the one with them injected twice. */
    method Rewind(r: Runner, j: Jit.Cache, target: nat, ghost inv: Board -> bool) returns (ok: bool)
      requires Valid() && j.Shape() && Same(r, inv)
      modifies r, r.cache, j, j.lookupPc, j.lookupIdx, j.counters
      ensures Valid() && j.Shape()
      ensures ok <==> Reachable(target)
      ensures if ok then Rewound(r.env, target, r.board) else r.board == old(r.board)
    {
      hide Save, Restored, Homely, Lawful, Paced, Bus.RomKept, OnlySram, Acceptable, Replayed, Lively, Ref, Sorted,
           Stalled, OnStamp, Coherent, Jit.GoodBlock, Roomy;
      ghost var entries := idx[..n];
      var i := BsearchLe(idx, n, target);
      assert forall k :: 0 <= k < n ==> idx[k] == entries[k];
      if i < 0 {
        return false;
      }
      var blob := snaps[idx[i].snap];
      ghost var b := origin[i];
      assert idx[..n][i].snap == i && snaps[..n][i] == snaps[i];
      SnapshotSurvivesRun(b, r.board, raw);
      SavedCycle(b, raw);
      ok := Restore(r, j, blob, raw);
      assert r.board == b && b.c.cycles == idx[i].cycle;
      var pos := 0;
      if target > r.board.c.cycles {
        pos := log.Seek(r.board.c.cycles);
        ghost var times;
        var past;
        past, times := RunUntil(r, log.buf[..log.n], pos, target, inv);
      }
      ReplayedTo(r.env, b, log.Contents(), target, pos, r.board);
    }

    /** Rewind by a number of cycles; fails when there have not been that many. */
    method StepBack(r: Runner, j: Jit.Cache, back: nat, ghost inv: Board -> bool) returns (ok: bool)
      requires Valid() && j.Shape() && Same(r, inv)
      modifies r, r.cache, j, j.lookupPc, j.lookupIdx, j.counters
      ensures Valid() && j.Shape()
      ensures ok <==> back <= old(r.board.c.cycles) && Reachable(old(r.board.c.cycles) - back)
      ensures if ok then Rewound(r.env, old(r.board.c.cycles) - back, r.board) else r.board == old(r.board)
    {
      hide Homely, Lawful, Paced, Bus.RomKept, OnlySram, Replayed, Indexed, Save, Jit.GoodBlock, Latest;
      if back > r.board.c.cycles {
        return false;
      }
      ok := Rewind(r, j, r.board.c.cycles - back, inv);
    }
  }

  /** The board is the original run's, for every run the log can be the recording of with nothing
      harmful stamped at the snapshot's cycle; otherwise it is that of the run with those entries
      injected twice, where this run gets through. */
  ghost predicate Replayed(env: Env, b: Board, log: seq<Event>, target: nat, now: Board) {
    Sorted(log) ==>
      forall acts: seq<Act> :: Recording(env, b, acts, log, target) ==> Outcome(env, b, acts, log, target, now)
  }

  ghost predicate Outcome(env: Env, b: Board, acts: seq<Act>, log: seq<Event>, target: nat, now: Board)
    requires |Recorded(env, b, acts)| <= |log|
  {
    var again, es := InjectAll(b, Twice(env, b, acts, log)), Recorded(env, b, acts);
    && (Harmless(b, Twice(env, b, acts, log)) ==> now == At(env, b, acts, target))
    && (b.c.cycles < target && Lively(env, again, es, target) ==> now == Ref(env, again, es, target))
  }

  lemma ReplayedTo(env: Env, b: Board, log: seq<Event>, target: nat, at: nat, now: Board)
    requires Paced(env) && b.c.cycles <= target
    requires if target <= b.c.cycles then now == b
      else at <= |log| && (Sorted(log) ==> FirstFrom(log, b.c.cycles, at)) &&
           (Lively(env, b, log[at..], target) ==> now == Ref(env, b, log[at..], target))
    ensures Replayed(env, b, log, target, now)
  {
    hide Paced, Lively, Ref, UnitStep, InjectAll, Harmless, Recorded, Twice, Reached;
    if Sorted(log) && target > b.c.cycles {
      forall acts: seq<Act> | Recording(env, b, acts, log, target)
        ensures Outcome(env, b, acts, log, target, now)
      {
        ReplayIsTwice(env, b, acts, log, target, at);
        if Harmless(b, Twice(env, b, acts, log)) {
          ReplayIsOriginal(env, b, acts, log, target, at);
        }
      }
    }
  }

  lemma SavedCycle(b: Board, raw: Image)
    requires Save(b, raw).Some?
    ensures Save(b, raw).value.cycle == Save(b, raw).value.cpu.cycles == b.c.cycles
  {
    hide Checksum;
  }

  lemma IndexGrows(idx: seq<IndexEntry>, snaps: seq<Blob>, stride: nat, e: IndexEntry, blob: Blob)
    requires Indexed(idx, snaps, stride) && e.snap == |idx| && e.cycle == blob.cycle == blob.cpu.cycles
    requires e.cycle >= if |idx| == 0 then stride else idx[|idx| - 1].cycle + stride
    ensures Indexed(idx + [e], snaps + [blob], stride)
  {
    forall k | 0 <= k < |idx|
      ensures idx[k].cycle + stride <= e.cycle
    {
      assert k < |idx| - 1 ==> idx[k].cycle + stride <= idx[|idx| - 1].cycle;
    }
  }
}
