/** Machine snapshots: the checksum, saving, and restoring all or nothing. */
module Snapshot {
  import opened Words
  import opened Cpu
  import opened SysTick
  import opened RunLoop
  import Arbitration
  import Bus
  import Jit

  const SNAP_MAGIC: u32 := 0x5454_4B30
  const SNAP_VERSION: u32 := 1
  const SRAM_BASE: u32 := 0x2000_0000
  const SRAM_SIZE: nat := 0x4_0000

  /* The checksum. */

  /** The exclusive-or of the little-endian words, the last one padded with zeros. */
  function XorWords(s: seq<u8>): u32
    decreases |s|
  {
    if |s| == 0 then 0 else Xor32(FirstWord(s), XorWords(s[Min(4, |s|)..]))
  }

  function FirstWord(s: seq<u8>): u32 {
    var w := s[..Min(4, |s|)];
    LeBound(w);
    PowerBound(|w|);
    LeVal(w)
  }

  lemma PowerBound(n: nat)
    requires n <= 4
    ensures Pow256(n) <= 0x1_0000_0000
  {
    assert Pow256(4) == 0x1_0000_0000 && Pow256(3) == 0x100_0000 && Pow256(2) == 0x1_0000 && Pow256(1) == 0x100;
  }

  /** What is still to be joined when k bytes of the last, partial word have been. */
  function TailFrom(t: seq<u8>, k: nat): nat
    requires k <= |t|
  {
    LeVal(t[k..]) * Pow256(k)
  }

  /** Joining the next byte of a partial word, shifted into place. */
  lemma TailStep(t: seq<u8>, k: nat)
    requires k < |t| < 4
    ensures 0 <= TailFrom(t, k + 1) < 0x1_0000_0000 && 0 <= TailFrom(t, k) < 0x1_0000_0000
    ensures Xor32(ShiftLeft(t[k], 8 * k), TailFrom(t, k + 1)) == TailFrom(t, k)
  {
    var p, v := Pow256(k), LeVal(t[k + 1..]);
    assert t[k..][1..] == t[k + 1..];
    assert LeVal(t[k..]) == t[k] + 256 * v;
    assert TailFrom(t, k + 1) == v * (256 * p);
    assert TailFrom(t, k) == t[k] * p + v * (256 * p) by {
      assert (t[k] + 256 * v) * p == t[k] * p + v * (256 * p);
    }
    LeBound(t[k + 1..]);
    TailBound(t, k, v);
    PowerOfTwo(k);
    PowerOfTwo(k + 1);
    var x := t[k] * p;
    ModMultiple(v, 256 * p);
    Pow32();
    OrDisjoint(x, v * (256 * p), 8 * (k + 1), 32);
  }

  lemma PowerOfTwo(k: nat)
    requires k <= 4
    ensures Pow256(k) == Pow2(8 * k)
  {
    assert Pow2(8) == 256;
    if k != 0 {
      PowerOfTwo(k - 1);
      PowSum(8, 8 * (k - 1));
    }
  }

  lemma ModMultiple(v: nat, m: nat)
    requires m > 0
    ensures v * m % m == 0
  {
    DivModUnique(v * m, m, v, 0);
  }

  lemma TailBound(t: seq<u8>, k: nat, v: nat)
    requires k < |t| < 4 && v < Pow256(|t| - k - 1)
    ensures t[k] * Pow256(k) + v * (256 * Pow256(k)) < 0x1_0000_0000 && t[k] * Pow256(k) < 256 * Pow256(k)
    ensures ShiftLeft(t[k], 8 * k) == t[k] * Pow256(k)
  {
    PowerOfTwo(k);
    assert Pow256(3) == 0x100_0000 && Pow256(2) == 0x1_0000 && Pow256(1) == 0x100 && Pow256(0) == 1;
    if k == 0 {
    } else if k == 1 {
    } else {
    }
  }

  lemma TailWhole(t: seq<u8>)
    requires 0 < |t| < 4
    ensures TailFrom(t, 0) == FirstWord(t) == XorWords(t) && TailFrom(t, |t|) == 0
  {
    assert t[0..] == t && t[..|t|] == t && t[|t|..] == [];
    XorZero32(FirstWord(t));
  }

  /** Whole words up to i have been joined into a. */
  predicate Folded(s: seq<u8>, i: nat, a: u32)
    requires i <= |s|
  {
    Xor32(a, XorWords(s[i..])) == XorWords(s)
  }

  /** Whole words up to start, and then bytes up to i, have been joined into a. */
  predicate Tailed(s: seq<u8>, start: nat, i: nat, a: u32)
    requires start <= i <= |s| && |s| < start + 4
  {
    if start == |s| then a == XorWords(s)
    else TailFrom(s[start..], i - start) < 0x1_0000_0000 && Xor32(a, TailFrom(s[start..], i - start)) == XorWords(s)
  }

  lemma FoldStart(s: seq<u8>)
    ensures Folded(s, 0, 0)
  {
    hide Xor32, XorWords;
    assert s[0..] == s;
    XorZero32(XorWords(s));
  }

  lemma FoldWord(s: seq<u8>, i: nat, a: u32)
    requires i + 4 <= |s| && Folded(s, i, a)
    ensures Folded(s, i + 4, Xor32(a, FirstWord(s[i..i + 4])))
  {
    hide Xor32, LeVal;
    var t := s[i..];
    assert t[..4] == s[i..i + 4] && s[i..i + 4][..4] == s[i..i + 4] && t[4..] == s[i + 4..];
    XorAssoc32(a, FirstWord(t), XorWords(t[4..]));
  }

  lemma TailStart(s: seq<u8>, i: nat, a: u32)
    requires i <= |s| < i + 4 && Folded(s, i, a)
    ensures Tailed(s, i, i, a)
  {
    hide Xor32, LeVal, Pow256;
    if i < |s| {
      TailWhole(s[i..]);
    } else {
      XorZero32(a);
    }
  }

  lemma TailByte(s: seq<u8>, start: nat, i: nat, a: u32)
    requires start <= i < |s| < start + 4 && Tailed(s, start, i, a)
    ensures Tailed(s, start, i + 1, Xor32(a, ShiftLeft(s[i], 8 * (i - start))))
  {
    hide Xor32, XorWords, TailFrom, ShiftLeft;
    var t, k := s[start..], i - start;
    TailStep(t, k);
    XorAssoc32(a, ShiftLeft(t[k], 8 * k), TailFrom(t, k + 1));
  }

  lemma TailEnd(s: seq<u8>, start: nat, a: u32)
    requires start <= |s| < start + 4 && Tailed(s, start, |s|, a)
    ensures a == XorWords(s)
  {
    hide Xor32, XorWords, LeVal;
    if start < |s| {
      TailWhole(s[start..]);
      XorZero32(a);
    }
  }

  /** The loop of the implementation: whole words first, then the tail byte by byte. */
  method SnapXor32(d: array<u8>, n: nat) returns (a: u32)
    requires n <= d.Length
    ensures a == XorWords(d[..n])
  {
    hide Xor32, ShiftLeft, XorWords, FirstWord, Folded, Tailed;
    ghost var s := d[..n];
    var i := 0;
    a := 0;
    FoldStart(s);
    while i + 4 <= n
      invariant 0 <= i <= n && i % 4 == 0 && Folded(s, i, a)
    {
      FoldWord(s, i, a);
      assert s[i..i + 4] == d[i..i + 4];
      a := Xor32(a, FirstWord(d[i..i + 4]));
      i := i + 4;
    }
    ghost var start := i;
    TailStart(s, i, a);
    while i < n
      invariant start <= i <= n < start + 4 && start % 4 == 0 && Tailed(s, start, i, a)
    {
      TailByte(s, start, i, a);
      a := Xor32(a, ShiftLeft(d[i], i % 4 * 8));
      i := i + 1;
    }
    TailEnd(s, start, a);
  }

  /** The images differ, and only within word w. */
  predicate OneWordOff(s: seq<u8>, t: seq<u8>, w: nat) {
    && s != t && |s| == |t| && 4 * w <= |s|
    && s[..4 * w] == t[..4 * w] && s[Min(4 * w + 4, |s|)..] == t[Min(4 * w + 4, |s|)..]
  }

  lemma {:induction false} LeInjective(s: seq<u8>, t: seq<u8>)
    requires |s| == |t| && LeVal(s) == LeVal(t)
    ensures s == t
  {
    if |s| != 0 {
      LeInjective(s[1..], t[1..]);
      assert s == [s[0]] + s[1..] && t == [t[0]] + t[1..];
    }
  }

  /** Any change within one aligned word changes the checksum. */
  lemma {:induction false} OneWordDetected(s: seq<u8>, t: seq<u8>, w: nat)
    requires OneWordOff(s, t, w)
    ensures XorWords(s) != XorWords(t)
    decreases w
  {
    hide Xor32, LeVal;
    var n := Min(4, |s|);
    if w == 0 {
      assert s == s[..n] + s[n..] && t == t[..n] + t[n..];
      if FirstWord(s) == FirstWord(t) {
        LeInjective(s[..n], t[..n]);
      }
      XorCancel(FirstWord(s), FirstWord(t), XorWords(s[n..]));
    } else {
      assert n == 4 && s[..4] == s[..4 * w][..4] && t[..4] == t[..4 * w][..4];
      assert s == s[..4] + s[4..] && t == t[..4] + t[4..];
      assert s[4..][..4 * (w - 1)] == s[..4 * w][4..] && t[4..][..4 * (w - 1)] == t[..4 * w][4..];
      var m := Min(4 * w + 4, |s|);
      assert s[4..][m - 4..] == s[m..] && t[4..][m - 4..] == t[m..];
      OneWordDetected(s[4..], t[4..], w - 1);
      XorCancel(XorWords(s[4..]), XorWords(t[4..]), FirstWord(s));
    }
  }

  /* Saving and restoring. */

  type Sram = s: seq<u8> | |s| == SRAM_SIZE witness seq<u8>(SRAM_SIZE, _ => 0)

  datatype Blob = Blob(magic: u32, version: u32, cycle: nat, cpu: CpuState, st: Timer, nvic: Arbitration.Lines,
    pendsv: bool, dwt: Dwt, uart: Uart, sramSize: u32, sram: Sram, checksum: u32)

  /** The bytes of a blob before its checksum field, as the compiler lays them out. */
  type Image = Blob -> seq<u8>

  /** The first region with that very base. */
  function FindFlat(m: Bus.Memory, base: u32, i: nat := 0): (r: Option<nat>)
    requires i <= |m|
    ensures r.Some? ==>
      i <= r.value < |m| && m[r.value].base == base && forall j :: i <= j < r.value ==> m[j].base != base
    ensures r.None? ==> forall j :: i <= j < |m| ==> m[j].base != base
    decreases |m| - i
  {
    if i == |m| then None else if m[i].base == base then Some(i) else FindFlat(m, base, i + 1)
  }

  function Checksum(blob: Blob, raw: Image): u32 { XorWords(raw(blob.(checksum := 0))) }

  function Save(b: Board, raw: Image): Option<Blob> {
    match FindFlat(b.m, SRAM_BASE)
    case None => None
    case Some(i) =>
      if b.m[i].Size() < SRAM_SIZE then None
      else
        var blob := Blob(SNAP_MAGIC, SNAP_VERSION, b.c.cycles, b.c, b.st, b.nvic, b.pendsv, b.dwt, b.uart, SRAM_SIZE,
          b.m[i].buf[..SRAM_SIZE], 0);
        Some(blob.(checksum := Checksum(blob, raw)))
  }

  predicate Acceptable(blob: Blob, raw: Image) {
    && blob.magic == SNAP_MAGIC && blob.version == SNAP_VERSION && blob.sramSize == SRAM_SIZE
    && Checksum(blob, raw) == blob.checksum
  }

  /** Any SRAM region has room for the saved one: restoring does not look at its size. */
  predicate Roomy(m: Bus.Memory) {
    match FindFlat(m, SRAM_BASE) case None => true case Some(i) => m[i].Size() >= SRAM_SIZE
  }

  function Restored(blob: Blob, b: Board): Board
    requires FindFlat(b.m, SRAM_BASE).Some? && Roomy(b.m)
  {
    var i := FindFlat(b.m, SRAM_BASE).value;
    var buf := blob.sram + b.m[i].buf[SRAM_SIZE..];
    Board(blob.cpu, b.m[i := b.m[i].(buf := buf)], blob.st, blob.pendsv, blob.nvic, blob.dwt, blob.uart)
  }

  /** Restore into the running machine: everything, with both caches emptied, or nothing. The
      size of the region is not looked at: when it is smaller than the snapshot the copy runs
      past its end, and nothing is known of the board but that both caches are empty. */
  method Restore(r: Runner, j: Jit.Cache, blob: Blob, raw: Image) returns (ok: bool)
    requires r.cache.Length == DCACHE_SIZE && j.Shape()
    modifies r, r.cache, j, j.lookupPc, j.lookupIdx, j.counters
    ensures ok <==> Acceptable(blob, raw) && FindFlat(old(r.board.m), SRAM_BASE).Some?
    ensures !ok ==> unchanged(r, r.cache, j, j.lookupPc, j.lookupIdx, j.counters)
    ensures ok && Roomy(old(r.board.m)) ==> r.board == Restored(blob, old(r.board))
    ensures ok ==> Coherent(r.env, r.board.m, r.cache[..]) && j.Coherent(r.board.m)
    ensures j.Shape()
  {
    if !Acceptable(blob, raw) {
      return false;
    }
    var flat := FindFlat(r.board.m, SRAM_BASE);
    if flat.None? {
      return false;
    }
    if Roomy(r.board.m) {
      r.board := Restored(blob, r.board);
    } else {
      r.board := *;
    }
    r.Invalidate();
    NothingCached(r.env, r.board.m, r.cache[..]);
    j.Flush();
    ok := true;
  }

  /** Memories that agree everywhere but in the saved part of SRAM. */
  predicate SameOutside(m: Bus.Memory, m': Bus.Memory)
    requires FindFlat(m, SRAM_BASE).Some?
  {
    var i := FindFlat(m, SRAM_BASE).value;
    && |m| == |m'| && (forall k :: 0 <= k < |m| && k != i ==> m'[k] == m[k])
    && m'[i].base == m[i].base && m'[i].writable == m[i].writable && m'[i].Size() == m[i].Size()
    && (SRAM_SIZE <= m[i].Size() ==> m'[i].buf[SRAM_SIZE..] == m[i].buf[SRAM_SIZE..])
  }

  /** Restoring what was saved brings back the whole board, exactly when the memory it is
      restored into differs from the saved one in the saved part of SRAM only. */
  lemma RestoreInvertsSave(b: Board, b': Board, raw: Image)
    requires Save(b, raw).Some? && FindFlat(b'.m, SRAM_BASE).Some? && Roomy(b'.m)
    ensures Acceptable(Save(b, raw).value, raw)
    ensures Restored(Save(b, raw).value, b') == b <==> SameOutside(b.m, b'.m)
  {
    hide XorWords;
    var i, k := FindFlat(b.m, SRAM_BASE).value, FindFlat(b'.m, SRAM_BASE).value;
    var blob := Save(b, raw).value;
    assert blob.(checksum := 0).(checksum := 0) == blob.(checksum := 0);
    assert b.m[i].buf == b.m[i].buf[..SRAM_SIZE] + b.m[i].buf[SRAM_SIZE..];
    assert b'.m[k].buf == b'.m[k].buf[..SRAM_SIZE] + b'.m[k].buf[SRAM_SIZE..];
    var back := Restored(blob, b').m;
    assert back[k].buf[SRAM_SIZE..] == b'.m[k].buf[SRAM_SIZE..];
    if back == b.m {
      assert k == i;
      assert forall n :: 0 <= n < |b.m| && n != i ==> back[n] == b'.m[n];
    }
    if SameOutside(b.m, b'.m) {
      assert k == i;
      assert back[i] == b.m[i];
      assert back == b.m;
    }
  }

  /** SRAM, of exactly the saved size, is all that can be written. */
  predicate OnlySram(m: Bus.Memory) {
    FindFlat(m, SRAM_BASE).Some? && forall k :: 0 <= k < |m| && m[k].writable ==>
      k == FindFlat(m, SRAM_BASE).value && m[k].Size() == SRAM_SIZE
  }

  /** However the machine ran in between, its snapshot brings it back. */
  lemma SnapshotSurvivesRun(b: Board, b': Board, raw: Image)
    requires Save(b, raw).Some? && OnlySram(b.m) && Bus.RomKept(b.m, b'.m)
    ensures FindFlat(b'.m, SRAM_BASE) == FindFlat(b.m, SRAM_BASE) && FindFlat(b.m, SRAM_BASE).Some? && Roomy(b'.m)
    ensures Acceptable(Save(b, raw).value, raw) && Restored(Save(b, raw).value, b') == b
  {
    hide XorWords;
    FlatKept(b.m, b'.m, 0);
    var i := FindFlat(b.m, SRAM_BASE).value;
    if b.m[i].writable {
      assert b'.m[i].buf[SRAM_SIZE..] == [] && b.m[i].buf[SRAM_SIZE..] == [];
    }
    assert SameOutside(b.m, b'.m);
    RestoreInvertsSave(b, b', raw);
  }

  lemma {:induction false} FlatKept(m: Bus.Memory, m': Bus.Memory, i: nat)
    requires Bus.RomKept(m, m') && i <= |m|
    ensures FindFlat(m', SRAM_BASE, i) == FindFlat(m, SRAM_BASE, i)
    decreases |m| - i
  {
    if i < |m| {
      FlatKept(m, m', i + 1);
    }
  }

  /** A blob altered within one aligned word, checksum apart, or in its checksum, is rejected. */
  lemma TamperingRejected(blob: Blob, blob': Blob, raw: Image, w: nat)
    requires Acceptable(blob, raw)
    requires
      || (blob'.checksum == blob.checksum && OneWordOff(raw(blob.(checksum := 0)), raw(blob'.(checksum := 0)), w))
      || (blob' == blob.(checksum := blob'.checksum) && blob'.checksum != blob.checksum)
    ensures !Acceptable(blob', raw)
  {
    hide XorWords;
    if blob'.checksum == blob.checksum {
      OneWordDetected(raw(blob.(checksum := 0)), raw(blob'.(checksum := 0)), w);
    } else {
      assert blob'.(checksum := 0) == blob.(checksum := 0);
    }
  }
}
