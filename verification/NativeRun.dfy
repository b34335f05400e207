/** Running emitted code instruction by instruction, and why that is what the x86
    machine does with its bytes. */
module NativeRun {
  import opened Words
  import opened Asm
  import opened Codegen
  import opened X86

  function Len(c: Code): nat {
    match c case End => 0 case Then(_, k) => 1 + Len(k)
  }

  /** The code a forward jump of n bytes lands on; None if it lands inside an instruction. */
  function Skip(c: Code, n: nat): (r: Option<Code>)
    ensures r.Some? ==> Len(r.value) <= Len(c)
    decreases c
  {
    if n == 0 then Some(c)
    else match c
      case End => None
      case Then(a, k) => if |Bytes(a)| <= n then Skip(k, n - |Bytes(a)|) else None
  }

  function Exec(h: Host, c: Code, s: State): State
    decreases Len(c)
  {
    if s.status != Running then s
    else match c
      case End => s
      case Then(a, k) =>
        var i := Meaning(a);
        match Taken(i, s.fl)
        case None => Exec(h, k, Step(h, i, s))
        case Some(d) =>
          match Skip(k, d)
          case None => s.(status := Stuck)
          case Some(k') => Exec(h, k', Step(h, i, s))
  }

  predicate AllEncodable(c: Code) {
    match c case End => true case Then(a, k) => Encodable(a) && AllEncodable(k)
  }

  lemma {:induction false} SkipFlat(c: Code, n: nat)
    requires Skip(c, n).Some?
    ensures n <= |Flat(c)| && Flat(c)[n..] == Flat(Skip(c, n).value)
    ensures AllEncodable(c) ==> AllEncodable(Skip(c, n).value)
    decreases c
  {
    if n != 0 {
      SkipFlat(c.k, n - |Bytes(c.a)|);
      assert Flat(c) == Bytes(c.a) + Flat(c.k);
      assert Flat(c)[n..] == Flat(c.k)[n - |Bytes(c.a)|..];
    }
  }

  lemma StartsWith(bytes: seq<u8>, rest: seq<u8>)
    ensures Starts(bytes + rest, bytes) && (bytes + rest)[|bytes|..] == rest
  {
  }

  lemma BytesNonEmpty(a: Asm)
    ensures |Bytes(a)| > 0
  {
  }

  function Displacement(i: Ins, s: State): nat {
    match Taken(i, s.fl) case Some(d) => d case None => 0
  }

  lemma RunOne(h: Host, code: seq<u8>, s: State, i: Ins, n: nat)
    requires s.status == Running && 0 < n <= |code| && Decode(code) == Some((i, n))
    requires n + Displacement(i, s) <= |code|
    ensures Run(h, code, s) == Run(h, code[n + Displacement(i, s)..], Step(h, i, s))
  {
    hide Step, Taken, Decode;
  }

  lemma DropBoth(a: seq<u8>, b: seq<u8>, junk: seq<u8>, d: nat)
    requires d <= |b|
    ensures (a + b + junk)[|a| + d..] == b[d..] + junk
  {
  }

  lemma Landing(a: Asm, k: Code, d: nat, junk: seq<u8>)
    requires Skip(k, d).Some? && AllEncodable(k)
    ensures var code := Bytes(a) + Flat(k) + junk; var n := |Bytes(a)|;
      n + d <= |code| && code[n + d..] == Flat(Skip(k, d).value) + junk && AllEncodable(Skip(k, d).value)
  {
    hide Bytes, Flat, Skip;
    SkipFlat(k, d);
    DropBoth(Bytes(a), Flat(k), junk, d);
  }

  lemma FetchOne(a: Asm, k: Code, junk: seq<u8>)
    requires Encodable(a)
    ensures Decode(Bytes(a) + Flat(k) + junk) == Some((Meaning(a), |Bytes(a)|))
    ensures 0 < |Bytes(a)| <= |Bytes(a) + Flat(k) + junk|
  {
    hide Bytes, Meaning, Encodable, Decode;
    var code := Bytes(a) + Flat(k) + junk;
    assert code == Bytes(a) + (Flat(k) + junk);
    StartsWith(Bytes(a), Flat(k) + junk);
    BytesNonEmpty(a);
    DecodeEmitted(a, code);
  }

  lemma ExecOne(h: Host, a: Asm, k: Code, s: State)
    requires s.status == Running
    ensures var i := Meaning(a); var d := Displacement(i, s);
      Exec(h, Then(a, k), s) ==
        if Skip(k, d).Some? then Exec(h, Skip(k, d).value, Step(h, i, s)) else s.(status := Stuck)
  {
    hide Step, Taken, Bytes, Meaning;
    assert Skip(k, 0) == Some(k);
  }

  /** If the described code returns, so does the machine on its bytes, in the same state,
      whatever bytes follow. */
  lemma {:induction false} RunIsExec(h: Host, c: Code, s: State, junk: seq<u8>)
    requires AllEncodable(c)
    requires Exec(h, c, s).status == Returned
    ensures Run(h, Flat(c) + junk, s) == Exec(h, c, s)
    decreases Len(c), 1
  {
    hide Step, Displacement, Bytes, Meaning, Encodable, Decode, Skip;
    if s.status == Running && c.Then? {
      RunThen(h, c.a, c.k, s, junk);
    } else {
      assert Run(h, Flat(c) + junk, s) == s;
    }
  }

  lemma {:induction false} RunThen(h: Host, a: Asm, k: Code, s: State, junk: seq<u8>)
    requires Encodable(a) && AllEncodable(k) && s.status == Running
    requires Exec(h, Then(a, k), s).status == Returned
    ensures Run(h, Bytes(a) + Flat(k) + junk, s) == Exec(h, Then(a, k), s)
    decreases Len(k) + 1, 0
  {
    hide Step, Displacement, Bytes, Meaning, Encodable, Decode, Run, Exec;
    FetchOne(a, k, junk);
    ExecOne(h, a, k, s);
    var i := Meaning(a);
    var d := Displacement(i, s);
    Landing(a, k, d, junk);
    RunOne(h, Bytes(a) + Flat(k) + junk, s, i, |Bytes(a)|);
    RunIsExec(h, Skip(k, d).value, Step(h, i, s), junk);
  }
}
