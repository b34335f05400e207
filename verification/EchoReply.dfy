/** The loopback Ethernet device's ICMP echo reply, and its checksum. */
module EchoReply {
  import opened Words
  import Bus

  const ECHO_MIN: nat := 42
  const FRAME_MAX: nat := 1600

  /* One's-complement arithmetic. */

  /** Sum of the big-endian 16-bit words; an odd last byte is not part of it. */
  function WordSum(s: seq<u8>): nat
    decreases |s|
  {
    if |s| < 2 then 0 else s[0] * 256 + s[1] + WordSum(s[2..])
  }

  /** Carries folded back in until sixteen bits are left. */
  function Fold(x: nat): nat
    decreases x
  {
    if x < 0x1_0000 then x else Fold(x % 0x1_0000 + x / 0x1_0000)
  }

  lemma {:induction false} WordSumBound(s: seq<u8>)
    ensures WordSum(s) <= 0xFFFF * (|s| / 2)
    decreases |s|
  {
    if |s| >= 2 {
      WordSumBound(s[2..]);
    }
  }

  lemma {:induction false} WordSumSplit(s: seq<u8>, t: seq<u8>)
    requires |s| % 2 == 0
    ensures WordSum(s + t) == WordSum(s) + WordSum(t)
    decreases |s|
  {
    if |s| == 0 {
      assert s + t == t;
    } else {
      assert (s + t)[2..] == s[2..] + t;
      WordSumSplit(s[2..], t);
    }
  }

  /** Folding keeps the value modulo 0xFFFF, and only zero folds to zero. */
  lemma {:induction false} FoldMod(x: nat, q: int)
    ensures Fold(x) <= 0xFFFF && (Fold(x) == 0 <==> x == 0)
    ensures x == 0xFFFF * q && x > 0 ==> Fold(x) == 0xFFFF
    decreases x
  {
    if x >= 0x1_0000 {
      FoldMod(x % 0x1_0000 + x / 0x1_0000, q - x / 0x1_0000);
    }
  }

  /** What folding takes away is a multiple of 0xFFFF. */
  lemma {:induction false} FoldTakes(x: nat) returns (q: nat)
    ensures x == Fold(x) + 0xFFFF * q
    decreases x
  {
    if x < 0x1_0000 {
      q := 0;
    } else {
      q := FoldTakes(x % 0x1_0000 + x / 0x1_0000);
      q := q + x / 0x1_0000;
    }
  }

  /** Adding the complement of a sum's fold makes the whole fold to all ones. */
  lemma ComplementFolds(x: nat)
    ensures Fold(x) <= 0xFFFF && Fold(x + (0xFFFF - Fold(x))) == 0xFFFF
  {
    FoldMod(x, 0);
    var q := FoldTakes(x);
    FoldMod(x + (0xFFFF - Fold(x)), q + 1);
  }

  /* The reply. */

  /** Hardware and network addresses are exchanged, the type is echo reply, the checksum is
      valid, and nothing else has changed. */
  ghost predicate IsReply(f: seq<u8>, r: seq<u8>)
    requires |f| == |r| >= ECHO_MIN
  {
    && r[..6] == f[6..12] && r[6..12] == f[..6] && r[12..26] == f[12..26]
    && r[26..30] == f[30..34] && r[30..34] == f[26..30]
    && r[34] == 0 && r[35] == f[35] && r[38..] == f[38..]
    && Fold(WordSum(r[34..])) == 0xFFFF
  }

  /** Replying to a reply restores every header field but the type. */
  lemma ReplyToReply(f: seq<u8>, r: seq<u8>, t: seq<u8>)
    requires |f| == |r| == |t| >= ECHO_MIN && IsReply(f, r) && IsReply(r, t)
    ensures t[..34] == f[..34] && t[35] == f[35] && t[38..] == f[38..] && WordSum(t[34..]) % 0xFFFF == 0
  {
    hide WordSum, Fold;
    assert t[..34] == t[..6] + t[6..12] + t[12..26] + t[26..30] + t[30..34];
    assert f[..34] == f[..6] + f[6..12] + f[12..26] + f[26..30] + f[30..34];
    var q := FoldTakes(WordSum(t[34..]));
    DivModUnique(WordSum(t[34..]), 0xFFFF, q + 1, 0);
  }

  /** Two stretches of equal length exchanged. */
  function Exchanged(s: seq<u8>, a: nat, b: nat, len: nat): (t: seq<u8>)
    requires a + len <= b && b + len <= |s|
    ensures |t| == |s|
  {
    seq(|s|, k requires 0 <= k < |s| =>
      if a <= k < a + len then s[k - a + b] else if b <= k < b + len then s[k - b + a] else s[k])
  }

  /** One more byte exchanged. */
  lemma ExchangedStep(s: seq<u8>, a: nat, b: nat, i: nat)
    requires a + i < b && b + i < |s|
    ensures Exchanged(s, a, b, i)[a + i] == s[a + i] && Exchanged(s, a, b, i)[b + i] == s[b + i]
    ensures Exchanged(s, a, b, i + 1) == Exchanged(s, a, b, i)[a + i := s[b + i]][b + i := s[a + i]]
  {
  }

  method Exchange(buf: array<u8>, a: nat, b: nat, len: nat)
    requires a + len <= b && b + len <= buf.Length
    modifies buf
    ensures buf[..] == Exchanged(old(buf[..]), a, b, len)
  {
    hide Exchanged;
    ghost var was: seq<u8> := buf[..];
    ExchangedNone(was, a, b);
    for i := 0 to len
      invariant buf[..] == Exchanged(was, a, b, i)
    {
      ExchangedStep(was, a, b, i);
      assert buf[a + i] == buf[..][a + i] && buf[b + i] == buf[..][b + i];
      var t := buf[a + i];
      buf[a + i] := buf[b + i];
      buf[b + i] := t;
    }
  }

  lemma ExchangedNone(s: seq<u8>, a: nat, b: nat)
    requires a <= b <= |s|
    ensures Exchanged(s, a, b, 0) == s
  {
  }

  /** The checksum loop and its folding: no carry is lost in 32 bits. */
  method Checksum(buf: array<u8>, n: nat) returns (sum: u32)
    requires ECHO_MIN <= n <= buf.Length <= FRAME_MAX
    ensures sum == 0xFFFF - Fold(WordSum(buf[34..n]))
  {
    var i := 34;
    var acc: nat := 0;
    while i + 1 < n
      invariant 34 <= i <= n && i % 2 == 0 && acc + WordSum(buf[i..n]) == WordSum(buf[34..n])
      invariant acc <= 0xFFFF * ((i - 34) / 2)
    {
      assert buf[i..n][2..] == buf[i + 2..n];
      var hi: nat, lo: nat := buf[i], buf[i + 1];
      acc := acc + (hi * 256 + lo);
      i := i + 2;
    }
    sum := acc;
    while sum / 0x1_0000 != 0
      invariant Fold(sum) == Fold(WordSum(buf[34..n]))
      decreases sum
    {
      sum := sum % 0x1_0000 + sum / 0x1_0000;
    }
    sum := 0xFFFF - sum;
  }

  /** Replacing two zero bytes at an even place adds their word to the sum. */
  lemma WordAdded(s: seq<u8>, t: seq<u8>, v: u32)
    requires |s| == |t| >= 4 && v < 0x1_0000 && s[2] == 0 && s[3] == 0
    requires t[..2] == s[..2] && t[2] == v / 256 && t[3] == v % 256 && t[4..] == s[4..]
    ensures WordSum(t) == WordSum(s) + v
  {
    assert s[2..][2..] == s[4..] && t[2..][2..] == t[4..];
    assert t[0] == t[..2][0] == s[..2][0] && t[1] == t[..2][1] == s[..2][1];
  }

  /** Turn an echo request in the buffer into its reply. */
  method MakeReply(buf: array<u8>, n: nat)
    requires ECHO_MIN <= n <= buf.Length <= FRAME_MAX
    modifies buf
    ensures IsReply(old(buf[..n]), buf[..n]) && buf[n..] == old(buf[n..])
  {
    ghost var f: seq<u8> := buf[..];
    Exchange(buf, 0, 6, 6);
    Exchange(buf, 26, 30, 4);
    buf[34] := 0;
    buf[36] := 0;
    buf[37] := 0;
    ghost var zeroed: seq<u8> := buf[..];
    var sum := Checksum(buf, n);
    FoldMod(WordSum(buf[34..n]), 0);
    buf[36] := sum / 256;
    buf[37] := sum % 256;
    assert buf[..] == zeroed[36 := sum / 256][37 := sum % 256];
    assert zeroed[34..n] == Zeroed(f)[34..n];
    Replied(f, n, sum);
    assert buf[..n] == Zeroed(f)[36 := sum / 256][37 := sum % 256][..n];
  }

  /** The buffer before the checksum is filled in. */
  function Zeroed(f: seq<u8>): (z: seq<u8>)
    requires |f| >= ECHO_MIN
    ensures |z| == |f|
  {
    Exchanged(Exchanged(f, 0, 6, 6), 26, 30, 4)[34 := 0][36 := 0][37 := 0]
  }

  lemma SameStretch(f: seq<u8>, r: seq<u8>, n: nat, from: nat, to: nat, len: nat)
    requires n <= |f| == |r| && from + len <= n && to + len <= n
    requires forall k :: to <= k < to + len ==> r[k] == f[k - to + from]
    ensures r[..n][to..to + len] == f[..n][from..from + len]
  {
  }

  lemma Replied(f: seq<u8>, n: nat, sum: u32)
    requires ECHO_MIN <= n <= |f| && sum == 0xFFFF - Fold(WordSum(Zeroed(f)[34..n])) && sum < 0x1_0000
    ensures var r := Zeroed(f)[36 := sum / 256][37 := sum % 256]; IsReply(f[..n], r[..n]) && r[n..] == f[n..]
  {
    hide WordSum, Fold;
    var z := Zeroed(f);
    var r := z[36 := sum / 256][37 := sum % 256];
    ComplementFolds(WordSum(z[34..n]));
    WordAdded(z[34..n], r[34..n], sum);
    assert r[..n][34..] == r[34..n];
    SameStretch(f, r, n, 6, 0, 6);
    SameStretch(f, r, n, 0, 6, 6);
    SameStretch(f, r, n, 12, 12, 14);
    SameStretch(f, r, n, 30, 26, 4);
    SameStretch(f, r, n, 26, 30, 4);
    SameStretch(f, r, n, 38, 38, n - 38);
  }

  /* On the bus. */

  /** A byte that cannot be read counts as zero; one that cannot be written is dropped. */
  function GetByte(m: Bus.Memory, a: u32): u8 {
    match Bus.Read(m, a, 1) case None => 0 case Some(v) => v % 0x100
  }

  function PutByte(m: Bus.Memory, a: u32, v: u8): Bus.Memory {
    match Bus.Write(m, a, 1, v) case None => m case Some(m') => m'
  }

  function Plus(a: u32, i: nat): u32 { (a + i) % 0x1_0000_0000 }

  function GetBytes(m: Bus.Memory, a: u32, n: nat): (s: seq<u8>)
    ensures |s| == n
  {
    seq(n, i requires 0 <= i < n => GetByte(m, Plus(a, i)))
  }

  function PutBytes(m: Bus.Memory, a: u32, s: seq<u8>): Bus.Memory
    decreases |s|
  {
    if |s| == 0 then m else PutByte(PutBytes(m, a, s[..|s| - 1]), Plus(a, |s| - 1), s[|s| - 1])
  }

  predicate Writable(m: Bus.Memory, a: u32, n: nat) {
    forall i :: 0 <= i < n ==> Bus.Write(m, Plus(a, i), 1, 0).Some?
  }

  lemma WriteKept(m: Bus.Memory, m': Bus.Memory, a: u32, v: u8)
    requires Bus.RomKept(m, m') && Bus.Write(m, a, 1, 0).Some?
    ensures Bus.Write(m', a, 1, v).Some?
  {
    Bus.FindKept(m, m', a, 0);
  }

  /** Bytes put in writable memory are the bytes found there. */
  lemma {:induction false} PutGet(m: Bus.Memory, a: u32, s: seq<u8>)
    requires a + |s| < 0x1_0000_0000 && Writable(m, a, |s|)
    ensures Bus.RomKept(m, PutBytes(m, a, s))
    ensures GetBytes(PutBytes(m, a, s), a, |s|) == s
    decreases |s|
  {
    hide Bus.Read, Bus.Write, Bus.RomKept;
    Bus.SelfKept(m);
    if |s| != 0 {
      var n := |s| - 1;
      var p := PutBytes(m, a, s[..n]);
      PutGet(m, a, s[..n]);
      WriteKept(m, p, Plus(a, n), s[n]);
      var q := PutBytes(m, a, s);
      Bus.WriteLaws(p, Plus(a, n), 1, s[n], Plus(a, n), 1);
      Bus.RomKeptTrans(m, p, q);
      forall k | 0 <= k < |s|
        ensures GetBytes(q, a, |s|)[k] == s[k]
      {
        if k < n {
          Bus.WriteLaws(p, Plus(a, n), 1, s[n], Plus(a, k), 1);
          assert GetBytes(p, a, n)[k] == s[k];
        }
      }
    }
  }

  /** Frames too short for an echo request are copied byte by byte. */
  function Copied(m: Bus.Memory, src: u32, dst: u32, n: nat): Bus.Memory {
    if n == 0 then m
    else var p := Copied(m, src, dst, n - 1); PutByte(p, Plus(dst, n - 1), GetByte(p, Plus(src, n - 1)))
  }

  /** What the device does when the firmware sends a frame. */
  method Send(m: Bus.Memory, src: u32, dst: u32, len: u32) returns (m': Bus.Memory)
    ensures len < ECHO_MIN ==> m' == Copied(m, src, dst, len)
    ensures len >= ECHO_MIN ==> exists reply: seq<u8> ::
      |reply| == Min(len, FRAME_MAX) && IsReply(GetBytes(m, src, |reply|), reply) && m' == PutBytes(m, dst, reply)
  {
    hide Bus.Read, Bus.Write, IsReply;
    m' := m;
    if len < ECHO_MIN {
      for i := 0 to len
        invariant m' == Copied(m, src, dst, i)
      {
        m' := PutByte(m', Plus(dst, i), GetByte(m', Plus(src, i)));
      }
      return;
    }
    var buf := new u8[FRAME_MAX](_ => 0);
    var n := if len < FRAME_MAX then len else FRAME_MAX;
    for i := 0 to n
      invariant forall k :: 0 <= k < i ==> buf[k] == GetByte(m, Plus(src, k))
    {
      buf[i] := GetByte(m, Plus(src, i));
    }
    assert buf[..n] == GetBytes(m, src, n);
    MakeReply(buf, n);
    ghost var reply := buf[..n];
    for i := 0 to n
      invariant buf[..n] == reply && m' == PutBytes(m, dst, reply[..i])
    {
      assert reply[..i + 1][..i] == reply[..i];
      m' := PutByte(m', Plus(dst, i), buf[i]);
    }
    assert reply[..n] == reply;
  }
}
