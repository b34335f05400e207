/** The memory bus: a table of flat regions, first match wins. */
module Bus {
  import opened Words

  type Buf = s: seq<u8> | |s| < 0x1_0000_0000

  datatype Region = Region(base: u32, writable: bool, buf: Buf) {
    function Size(): u32 { |buf| }

    /** `a >= base && a < base + size` in 32-bit arithmetic. */
    predicate Covers(a: u32) {
      a >= base && a < Add32(base, Size())
    }
  }

  type Memory = seq<Region>

  /** Width of an access, in bytes. */
  type Width = n: nat | n == 1 || n == 2 || n == 4 witness 1

  /** Index of the first region at or after i that covers the address. */
  function Find(m: Memory, a: u32, i: nat := 0): (r: Option<nat>)
    requires i <= |m|
    ensures r.Some? ==> i <= r.value < |m| && m[r.value].Covers(a)
    ensures r.Some? ==> forall j :: i <= j < r.value ==> !m[j].Covers(a)
    ensures r.None? ==> forall j :: i <= j < |m| ==> !m[j].Covers(a)
    decreases |m| - i
  {
    if i == |m| then None
    else if m[i].Covers(a) then Some(i)
    else Find(m, a, i + 1)
  }

  function Load(buf: Buf, off: nat, n: Width): u32
    requires off + n <= |buf|
  {
    LeBound(buf[off..off + n]);
    assert Pow256(1) == 0x100 && Pow256(2) == 0x1_0000 && Pow256(4) == 0x1_0000_0000;
    LeVal(buf[off..off + n])
  }

  function Store(buf: Buf, off: nat, n: Width, v: u32): Buf
    requires off + n <= |buf|
  {
    buf[..off] + LeBytes(v, n) + buf[off + n..]
  }

  function Read(m: Memory, a: u32, n: Width): Option<u32> {
    match Find(m, a)
    case None => None
    case Some(i) =>
      var off := a - m[i].base;
      if off + n > m[i].Size() then None else Some(Load(m[i].buf, off, n))
  }

  function Write(m: Memory, a: u32, n: Width, v: u32): Option<Memory> {
    match Find(m, a)
    case None => None
    case Some(i) =>
      var off := a - m[i].base;
      if !m[i].writable || off + n > m[i].Size() then None
      else Some(m[i := m[i].(buf := Store(m[i].buf, off, n, v))])
  }

  /** The map is the same, and no read-only region has changed: all that writes can do. */
  ghost predicate RomKept(m: Memory, m': Memory) {
    && |m| == |m'|
    && forall i :: 0 <= i < |m| ==>
         && m[i].base == m'[i].base && m[i].writable == m'[i].writable && m[i].Size() == m'[i].Size()
         && (!m[i].writable ==> m'[i] == m[i])
  }

  lemma SelfKept(m: Memory)
    ensures RomKept(m, m)
  {
  }

  lemma RomKeptTrans(a: Memory, b: Memory, c: Memory)
    requires RomKept(a, b) && RomKept(b, c)
    ensures RomKept(a, c)
  {
  }

  lemma {:induction false} FindKept(m: Memory, m': Memory, a: u32, i: nat)
    requires i <= |m| && RomKept(m, m')
    ensures Find(m, a, i) == Find(m', a, i)
    decreases |m| - i
  {
    if i != |m| {
      FindKept(m, m', a, i + 1);
    }
  }

  function Low(v: u32, n: Width): u32 {
    if n == 1 then v % 0x100 else if n == 2 then v % 0x1_0000 else v
  }

  /** Only the low n bytes of a value are stored, and they read back as its remainder. */
  lemma {:induction false} LowBytes(v: nat, n: nat, m: nat)
    requires m == v % Pow256(n)
    ensures LeBytes(v, n) == LeBytes(m, n)
    ensures LeVal(LeBytes(v, n)) == m
  {
    if n != 0 {
      var p := Pow256(n - 1);
      assert v / 256 % p == m / 256 && v % 256 == m % 256 by {
        ModSplit(v, p);
      }
      LowBytes(v / 256, n - 1, m / 256);
      assert LeBytes(v, n)[1..] == LeBytes(v / 256, n - 1);
    }
  }

  lemma ModSplit(v: nat, p: nat)
    requires p > 0
    ensures v % (256 * p) == 256 * (v / 256 % p) + v % 256
  {
    var q := v / 256 / p;
    var r := 256 * (v / 256 % p) + v % 256;
    assert v / 256 == q * p + v / 256 % p;
    assert q * (256 * p) == 256 * (q * p);
    DivModUnique(v, 256 * p, q, r);
  }

  lemma LowMod(v: u32, n: Width)
    ensures Low(v, n) == v % Pow256(n)
  {
    assert Pow256(1) == 0x100 && Pow256(2) == 0x1_0000 && Pow256(4) == 0x1_0000_0000;
  }

  lemma LoadStore(buf: Buf, off: nat, n: Width, v: u32)
    requires off + n <= |buf|
    ensures Load(Store(buf, off, n, v), off, n) == Low(v, n)
  {
    assert Store(buf, off, n, v)[off..off + n] == LeBytes(v, n);
    LowMod(v, n);
    LowBytes(v, n, Low(v, n));
  }

  lemma LoadStoreOther(buf: Buf, off: nat, n: Width, v: u32, q: nat, w: Width)
    requires off + n <= |buf| && q + w <= |buf|
    requires q + w <= off || off + n <= q
    ensures Load(Store(buf, off, n, v), q, w) == Load(buf, q, w)
  {
    var s := Store(buf, off, n, v);
    assert |LeBytes(v, n)| == n && |s| == |buf|;
    forall k | q <= k < q + w
      ensures s[k] == buf[k]
    {
      if k >= off + n {
        assert buf[off + n..][k - (off + n)] == buf[k];
      }
    }
    assert s[q..q + w] == buf[q..q + w];
  }

  lemma WriteKeeps(m: Memory, a: u32, n: Width, v: u32)
    requires Write(m, a, n, v).Some?
    ensures RomKept(m, Write(m, a, n, v).value)
  {
    var i := Find(m, a).value;
    assert |Store(m[i].buf, a - m[i].base, n, v)| == |m[i].buf|;
  }

  lemma WriteSame(m: Memory, a: u32, n: Width, v: u32)
    requires Write(m, a, n, v).Some?
    ensures Read(Write(m, a, n, v).value, a, n) == Some(Low(v, n))
    ensures a + n < 0x1_0000_0000
  {
    var m' := Write(m, a, n, v).value;
    WriteKeeps(m, a, n, v);
    FindKept(m, m', a, 0);
    var i := Find(m, a).value;
    LoadStore(m[i].buf, a - m[i].base, n, v);
  }

  lemma WriteOther(m: Memory, a: u32, n: Width, v: u32, p: u32, w: Width)
    requires Write(m, a, n, v).Some?
    ensures Read(Write(m, a, n, v).value, p, w).Some? <==> Read(m, p, w).Some?
    ensures p + w <= a || a + n <= p ==> Read(Write(m, a, n, v).value, p, w) == Read(m, p, w)
  {
    var m' := Write(m, a, n, v).value;
    WriteKeeps(m, a, n, v);
    FindKept(m, m', p, 0);
    var i := Find(m, a).value;
    if Read(m, p, w).Some? && Find(m, p).value == i && (p + w <= a || a + n <= p) {
      LoadStoreOther(m[i].buf, a - m[i].base, n, v, p - m[i].base, w);
    }
  }

  /** A write is seen by a read of the same width at the same address, and writes
      nothing but the bytes it names: a read elsewhere, and every question of
      whether an access faults, is unaffected. */
  lemma WriteLaws(m: Memory, a: u32, n: Width, v: u32, p: u32, w: Width)
    requires Write(m, a, n, v).Some?
    ensures var m' := Write(m, a, n, v).value;
      && RomKept(m, m')
      && Read(m', a, n) == Some(Low(v, n))
      && (Read(m', p, w).Some? <==> Read(m, p, w).Some?)
      && (p + w <= a || a + n <= p ==> Read(m', p, w) == Read(m, p, w))
      && a + n < 0x1_0000_0000
  {
    WriteKeeps(m, a, n, v);
    WriteSame(m, a, n, v);
    WriteOther(m, a, n, v, p, w);
  }

  /** Storing a value and storing its low n bytes are the same write. */
  lemma WriteLow(m: Memory, a: u32, n: Width, v: u32)
    ensures Write(m, a, n, v) == Write(m, a, n, Low(v, n))
  {
    LowMod(v, n);
    LowBytes(v, n, Low(v, n));
  }

  lemma ReadBound(m: Memory, a: u32, n: Width)
    requires Read(m, a, n).Some?
    ensures Low(Read(m, a, n).value, n) == Read(m, a, n).value
    ensures a + n < 0x1_0000_0000
  {
    var i := Find(m, a).value;
    var off := a - m[i].base;
    LeBound(m[i].buf[off..off + n]);
    assert Pow256(1) == 0x100 && Pow256(2) == 0x1_0000 && Pow256(4) == 0x1_0000_0000;
  }

  /* Runs of consecutive words: exception frames and register transfers. */

  /** Store the words from a upwards, stopping at the first fault. */
  function WriteWords(m: Memory, a: u32, ws: seq<u32>): (r: (Memory, bool))
    decreases |ws|
  {
    if |ws| == 0 then (m, true)
    else match Write(m, a, 4, ws[0])
      case None => (m, false)
      case Some(m') => WriteWords(m', Add32(a, 4), ws[1..])
  }

  function ReadWords(m: Memory, a: u32, n: nat): (r: Option<seq<u32>>)
    ensures r.Some? ==> |r.value| == n
    decreases |m|, n
  {
    if n == 0 then Some([])
    else match Read(m, a, 4)
      case None => None
      case Some(v) =>
        match ReadWords(m, Add32(a, 4), n - 1)
        case None => None
        case Some(vs) => Some([v] + vs)
  }

  /** A read whose bytes lie outside [a, a + 4n). */
  predicate Outside(p: u32, w: Width, a: u32, n: nat) {
    p + w <= a || a + 4 * n <= p
  }

  lemma {:induction false} WriteWordsFrame(m: Memory, a: u32, ws: seq<u32>, p: u32, w: Width)
    requires WriteWords(m, a, ws).1
    ensures a + 4 * |ws| < 0x1_0000_0000
    ensures RomKept(m, WriteWords(m, a, ws).0)
    ensures Outside(p, w, a, |ws|) ==> Read(WriteWords(m, a, ws).0, p, w) == Read(m, p, w)
    decreases |ws|
  {
    if |ws| != 0 {
      WriteLaws(m, a, 4, ws[0], p, w);
      WriteWordsFrame(Write(m, a, 4, ws[0]).value, Add32(a, 4), ws[1..], p, w);
    }
  }

  /** What a completed run of writes stored is what a run of reads returns. */
  lemma {:induction false} WordsRoundTrip(m: Memory, a: u32, ws: seq<u32>)
    requires WriteWords(m, a, ws).1
    ensures ReadWords(WriteWords(m, a, ws).0, a, |ws|) == Some(ws)
    decreases |ws|
  {
    if |ws| != 0 {
      WriteLaws(m, a, 4, ws[0], a, 4);
      var m' := Write(m, a, 4, ws[0]).value;
      WriteWordsFrame(m', Add32(a, 4), ws[1..], a, 4);
      WordsRoundTrip(m', Add32(a, 4), ws[1..]);
      assert [ws[0]] + ws[1..] == ws;
    }
  }

  lemma {:induction false} ReadWordsFrame(m: Memory, a: u32, ws: seq<u32>, p: u32, n: nat)
    requires WriteWords(m, a, ws).1
    requires ReadWords(m, p, n).Some?
    requires p + 4 * n <= a || a + 4 * |ws| <= p
    ensures ReadWords(WriteWords(m, a, ws).0, p, n) == ReadWords(m, p, n)
    decreases n
  {
    if n != 0 {
      WriteWordsFrame(m, a, ws, p, 4);
      ReadBound(m, p, 4);
      ReadWordsFrame(m, a, ws, Add32(p, 4), n - 1);
    }
  }
}
