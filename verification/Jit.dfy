/** The block cache: translation into pre-decoded blocks, direct-mapped lookup, chained
    dispatch, and the generation flush. */
module Jit {
  import opened Words
  import opened Cpu
  import opened Insn
  import opened RunLoop
  import Bus

  const MAX_BLOCKS: nat := 1024
  const HOT_THRESHOLD: nat := 16
  const EMPTY: int := -1
  const COUNTING: int := -2

  datatype Block = Block(pcStart: u32, pcEnd: u32, ins: seq<Insn>)

  /** A thunk, when the code generator took the block. */
  type Native = Block -> Option<Board -> (Board, bool)>

  predicate IsTerminator(op: Op) {
    op.BCond? || op.BUncond? || op.Bx? || op.BlxReg? || op.T32Bl? || op.T32BCond? || op.Cbz? || op.Cbnz? ||
    op.Pop? || op.T32Ldm? || op.Udf? || op.Svc? || op.Bkpt?
  }

  function Hash(pc: u32): nat { pc / 2 % MAX_BLOCKS }

  /** The decoder records the address it decoded. */
  ghost predicate Addressed(env: Env) {
    forall pc: u32, lo: Option<u32>, hi: Option<u32> :: env.decoder(pc, lo, hi).pc == pc
  }

  /** The bytes a block starting here can cover are read-only: 32 instructions of at most four. */
  ghost predicate RomAhead(m: Bus.Memory, pc: u32) {
    forall d: nat :: d < 4 * BLOCK_LEN + 2 ==> Unwritable(m, Plus(pc, d))
  }

  function Plus(pc: u32, d: nat): u32 { (pc + d) % 0x1_0000_0000 }

  /** Consecutive decodes from an address, a terminator only last, all in read-only memory. */
  ghost predicate Decodes(env: Env, m: Bus.Memory, pc: u32, ins: seq<Insn>)
    decreases |ins|
  {
    |ins| > 0 ==>
      && InRom(m, pc) && ins[0] == Decode(env, m, pc)
      && (|ins| > 1 ==> !IsTerminator(ins[0].op))
      && Decodes(env, m, Add32(pc, ins[0].size), ins[1..])
  }

  function EndOf(pc: u32, ins: seq<Insn>): u32
    decreases |ins|
  {
    if |ins| == 0 then pc else EndOf(Add32(pc, ins[0].size), ins[1..])
  }

  /** A block as compiled: as many decodes as fit, up to the first terminator. */
  ghost predicate GoodBlock(env: Env, m: Bus.Memory, bk: Block) {
    && 1 <= |bk.ins| <= BLOCK_LEN
    && Decodes(env, m, bk.pcStart, bk.ins)
    && (IsTerminator(bk.ins[|bk.ins| - 1].op) || |bk.ins| == BLOCK_LEN)
    && bk.pcEnd == EndOf(bk.pcStart, bk.ins)
  }

  lemma {:induction false} DecodesKept(env: Env, m: Bus.Memory, m': Bus.Memory, pc: u32, ins: seq<Insn>)
    requires Bus.RomKept(m, m') && Decodes(env, m, pc, ins)
    ensures Decodes(env, m', pc, ins)
    decreases |ins|
  {
    hide Bus.RomKept, InRom, Decode;
    if |ins| > 0 {
      DecodeKept(env, m, m', pc);
      DecodesKept(env, m, m', Add32(pc, ins[0].size), ins[1..]);
    }
  }

  /* Sequential execution, the reference. */

  /** Decode and execute at most n instructions, without timers or interrupts. */
  function Sequential(env: Env, b: Board, n: nat): (Board, nat)
    decreases n
  {
    if n == 0 || b.c.halted then (b, 0)
    else
      var (b', ok) := env.exec(b, Decode(env, b.m, b.c.Pc()));
      if !ok then (b', 0)
      else var (b'', k) := Sequential(env, b', n - 1); (b'', k + 1)
  }

  lemma {:induction false} SequentialAdds(env: Env, b: Board, j: nat, k: nat)
    requires Lawful(env)
    ensures var first := Sequential(env, b, j); var second := Sequential(env, first.0, k);
      Sequential(env, b, j + k) == (second.0, first.1 + second.1)
    decreases j
  {
    hide Decode;
    if j != 0 && !b.c.halted && env.exec(b, Decode(env, b.m, b.c.Pc())).1 {
      SequentialAdds(env, env.exec(b, Decode(env, b.m, b.c.Pc())).0, j - 1, k);
    }
  }

  lemma {:induction false} SequentialKeepsRom(env: Env, b: Board, n: nat)
    requires Lawful(env)
    ensures Bus.RomKept(b.m, Sequential(env, b, n).0.m) && Sequential(env, b, n).1 <= n
    decreases n
  {
    hide Decode, Bus.RomKept;
    Bus.SelfKept(b.m);
    if n != 0 && !b.c.halted {
      var (b', ok) := env.exec(b, Decode(env, b.m, b.c.Pc()));
      if ok {
        SequentialKeepsRom(env, b', n - 1);
        Bus.RomKeptTrans(b.m, b'.m, Sequential(env, b', n - 1).0.m);
      }
    }
  }

  /** An instruction that, when it succeeds, goes on at the next address. */
  ghost predicate Straight(env: Env, i: Insn) {
    forall b: Board :: b.c.Pc() == i.pc && env.exec(b, i).1 ==> env.exec(b, i).0.c.Pc() == Add32(i.pc, i.size)
  }

  /** Read-only code has no instruction that jumps without being a terminator. */
  ghost predicate StraightCode(env: Env, m: Bus.Memory) {
    forall pc: u32 :: InRom(m, pc) && !IsTerminator(Decode(env, m, pc).op) ==> Straight(env, Decode(env, m, pc))
  }

  lemma StraightKept(env: Env, m: Bus.Memory, m': Bus.Memory)
    requires Bus.RomKept(m, m') && StraightCode(env, m)
    ensures StraightCode(env, m')
  {
    forall pc: u32 | InRom(m', pc) && !IsTerminator(Decode(env, m', pc).op)
      ensures Straight(env, Decode(env, m', pc))
    {
      RomKeptBack(m, m');
      DecodeKept(env, m', m, pc);
    }
  }

  lemma RomKeptBack(m: Bus.Memory, m': Bus.Memory)
    requires Bus.RomKept(m, m')
    ensures Bus.RomKept(m', m)
  {
  }

  /** Setting the PC to where it already is. */
  lemma SamePc(b: Board, pc: u32)
    requires b.c.Pc() == pc
    ensures b.(c := b.c.(r := b.c.r[REG_PC := pc])) == b
  {
    assert b.c.r[REG_PC := pc] == b.c.r;
  }

  /** The address of instruction j of a run of decodes. */
  lemma {:induction false} DecodesAt(env: Env, m: Bus.Memory, pc: u32, ins: seq<Insn>, j: nat)
    requires Decodes(env, m, pc, ins) && j < |ins| && Addressed(env)
    ensures InRom(m, ins[j].pc) && ins[j] == Decode(env, m, ins[j].pc)
    ensures j == 0 ==> ins[j].pc == pc
    ensures j + 1 < |ins| ==> !IsTerminator(ins[j].op) && ins[j + 1].pc == Add32(ins[j].pc, ins[j].size)
    decreases j
  {
    hide InRom;
    if j != 0 {
      DecodesAt(env, m, Add32(pc, ins[0].size), ins[1..], j - 1);
    } else if |ins| > 1 {
      assert ins[1..][0] == ins[1];
    }
  }

  /** Adding one more decode at the end. */
  lemma {:induction false} DecodesAppend(env: Env, m: Bus.Memory, pc: u32, ins: seq<Insn>, i: Insn)
    requires Decodes(env, m, pc, ins) && InRom(m, EndOf(pc, ins)) && i == Decode(env, m, EndOf(pc, ins))
    requires |ins| > 0 ==> !IsTerminator(ins[|ins| - 1].op)
    ensures Decodes(env, m, pc, ins + [i]) && EndOf(pc, ins + [i]) == Add32(EndOf(pc, ins), i.size)
    decreases |ins|
  {
    hide InRom, Decode;
    var all := ins + [i];
    if |ins| > 0 {
      assert all[1..] == ins[1..] + [i];
      DecodesAppend(env, m, Add32(pc, ins[0].size), ins[1..], i);
    } else {
      assert all[1..] == [];
    }
  }

  /** The end of n decodes is at most 4n bytes on. */
  lemma {:induction false} EndBound(pc: u32, ins: seq<Insn>) returns (d: nat)
    ensures d <= 4 * |ins| && EndOf(pc, ins) == Plus(pc, d)
    decreases |ins|
  {
    if |ins| == 0 {
      d := 0;
    } else {
      d := EndBound(Add32(pc, ins[0].size), ins[1..]);
      d := d + ins[0].size;
    }
  }

  lemma RomAt(m: Bus.Memory, pc: u32, d: nat)
    requires RomAhead(m, pc) && d < 4 * BLOCK_LEN
    ensures InRom(m, Plus(pc, d))
  {
    assert Unwritable(m, Plus(pc, d));
    assert Plus(pc, d + 2) == Add32(Plus(pc, d), 2);
  }

  class Cache {
    const env: Env
    const native: Native
    const blocks: array<Block>
    const lookupPc: array<u32>
    const lookupIdx: array<int>
    const counters: array<u32>
    var nBlocks: nat

    /** Sizes and indices in range; every block has between 1 and 32 instructions. */
    ghost predicate Shape()
      reads this, blocks, lookupPc, lookupIdx, counters
    {
      && blocks.Length == MAX_BLOCKS && lookupPc.Length == MAX_BLOCKS && lookupIdx.Length == MAX_BLOCKS
      && counters.Length == MAX_BLOCKS
      && lookupPc != counters && nBlocks <= MAX_BLOCKS
      && (forall k :: 0 <= k < nBlocks ==> 1 <= |blocks[k].ins| <= BLOCK_LEN)
      && (forall h :: 0 <= h < MAX_BLOCKS ==> lookupIdx[h] < nBlocks)
    }

    /** Every block is what its code decodes to, and every slot that names a block names one
        that starts at the slot's address. */
    ghost predicate Coherent(m: Bus.Memory)
      reads this, blocks, lookupPc, lookupIdx, counters
    {
      && Shape()
      && (forall k :: 0 <= k < nBlocks ==> GoodBlock(env, m, blocks[k]))
      && (forall h :: 0 <= h < MAX_BLOCKS && lookupIdx[h] >= 0 ==>
            blocks[lookupIdx[h]].pcStart == lookupPc[h] && Hash(lookupPc[h]) == h)
    }

    constructor (env: Env, native: Native)
      ensures this.env == env && this.native == native && nBlocks == 0
      ensures forall m: Bus.Memory :: Coherent(m)
      ensures fresh(blocks) && fresh(lookupPc) && fresh(lookupIdx) && fresh(counters)
    {
      this.env, this.native, nBlocks := env, native, 0;
      blocks := new Block[MAX_BLOCKS](_ => Block(0, 0, []));
      lookupPc := new u32[MAX_BLOCKS](_ => 0);
      lookupIdx := new int[MAX_BLOCKS](_ => EMPTY);
      counters := new u32[MAX_BLOCKS](_ => 0);
    }

    /** The block starting at an address, if its slot still names it. */
    function Lookup(pc: u32): (idx: int)
      requires Shape()
      reads this, blocks, lookupPc, lookupIdx, counters
      ensures idx < nBlocks
      ensures idx >= 0 ==> lookupPc[Hash(pc)] == pc && lookupIdx[Hash(pc)] == idx
    {
      var h := Hash(pc);
      if lookupIdx[h] >= 0 && lookupPc[h] == pc then lookupIdx[h] else -1
    }

    /** Start a new generation: no block, no slot, no count survives. */
    method Flush()
      requires Shape()
      modifies this, lookupPc, lookupIdx, counters
      ensures nBlocks == 0 && Shape() && forall m: Bus.Memory :: Coherent(m)
      ensures forall h :: 0 <= h < MAX_BLOCKS ==> lookupIdx[h] == EMPTY && counters[h] == 0
    {
      nBlocks := 0;
      for k := 0 to MAX_BLOCKS
        invariant nBlocks == 0
        invariant forall h :: 0 <= h < k ==> lookupIdx[h] == EMPTY && counters[h] == 0
      {
        lookupIdx[k] := EMPTY;
        lookupPc[k] := 0;
        counters[k] := 0;
      }
    }

    /** Decode up to the first terminator, or 32 instructions, and give the block a slot. */
    method Compile(m: Bus.Memory, pc: u32) returns (bk: Block)
      requires Shape()
      modifies this, blocks, lookupPc, lookupIdx, counters
      ensures Shape() && 1 <= |bk.ins| <= BLOCK_LEN && bk.pcStart == pc
      ensures nBlocks == (if old(nBlocks) == MAX_BLOCKS then 1 else old(nBlocks) + 1) && blocks[nBlocks - 1] == bk
      ensures Lookup(pc) == nBlocks - 1
      ensures old(Coherent(m)) && RomAhead(m, pc) ==> Coherent(m) && GoodBlock(env, m, bk)
    {
      hide GoodBlock, RomAhead;
      if nBlocks >= MAX_BLOCKS {
        Flush();
      }
      bk := Gather(m, pc);
      blocks[nBlocks] := bk;
      var h := Hash(pc);
      lookupPc[h] := pc;
      lookupIdx[h] := nBlocks;
      nBlocks := nBlocks + 1;
    }

    method Gather(m: Bus.Memory, pc: u32) returns (bk: Block)
      ensures 1 <= |bk.ins| <= BLOCK_LEN && bk.pcStart == pc
      ensures RomAhead(m, pc) ==> GoodBlock(env, m, bk)
    {
      hide Decode, InRom, RomAhead, Unwritable;
      var ins, cur := [], pc;
      var done := false;
      while !done && |ins| < BLOCK_LEN
        invariant |ins| <= BLOCK_LEN && cur == EndOf(pc, ins) && (done ==> |ins| > 0)
        invariant RomAhead(m, pc) ==> Decodes(env, m, pc, ins)
        invariant |ins| > 0 ==> (done <==> IsTerminator(ins[|ins| - 1].op))
        decreases BLOCK_LEN - |ins|, !done
      {
        var i := Decode(env, m, cur);
        AppendDecode(env, m, pc, ins, i);
        ins := ins + [i];
        cur := Add32(cur, i.size);
        done := IsTerminator(i.op);
      }
      bk := Block(pc, cur, ins);
    }

    /** Run a block's decoded instructions until one fails, the core halts, or the block ends. */
    method Interpret(b: Board, bk: Block) returns (b': Board, steps: nat)
      requires 1 <= |bk.ins| <= BLOCK_LEN
      ensures steps <= |bk.ins| && (b.c.halted ==> b' == b && steps == 0)
      ensures Lawful(env) ==> Bus.RomKept(b.m, b'.m)
      ensures Transparent(env, b, bk) ==> (b', steps) == Sequential(env, b, |bk.ins|)
    {
      hide Decodes, Decode, InRom, Bus.RomKept, Straight, StraightCode, Addressed, EndOf, GoodBlock;
      b', steps := b, 0;
      Bus.SelfKept(b.m);
      if Transparent(env, b, bk) {
        AtStart(env, b, bk);
      }
      for j := 0 to |bk.ins|
        invariant steps == j && (b.c.halted ==> j == 0 && b' == b)
        invariant Lawful(env) ==> Bus.RomKept(b.m, b'.m)
        invariant Transparent(env, b, bk) ==> Midway(env, b, bk, b', j)
      {
        if b'.c.halted {
          return;
        }
        ghost var before := b';
        b' := b'.(c := b'.c.(r := b'.c.r[REG_PC := bk.ins[j].pc]));
        var (after, ok) := env.exec(b', bk.ins[j]);
        if Transparent(env, b, bk) {
          Advance(env, b, bk, before, j);
        }
        RomKeptFrom(env, b.m, b', bk.ins[j]);
        b' := after;
        if !ok {
          return;
        }
        steps := steps + 1;
        if IsTerminator(bk.ins[j].op) {
          if Transparent(env, b, bk) {
            LastOne(env, b.m, bk, j);
          }
          return;
        }
      }
    }

    /** The block at the PC, compiled now if it has become hot. */
    method FindBlock(m: Bus.Memory, pc: u32) returns (r: Option<Block>)
      requires Shape()
      modifies this, blocks, lookupPc, lookupIdx, counters
      ensures Shape() && (r.Some? ==> 1 <= |r.value.ins| <= BLOCK_LEN)
      ensures old(Coherent(m)) && RomAhead(m, pc) ==>
        Coherent(m) && (r.Some? ==> GoodBlock(env, m, r.value) && r.value.pcStart == pc)
    {
      hide GoodBlock, RomAhead;
      var idx := Lookup(pc);
      if idx >= 0 {
        return Some(blocks[idx]);
      }
      var h := Hash(pc);
      if lookupIdx[h] < 0 || lookupPc[h] != pc {
        lookupPc[h] := pc;
        lookupIdx[h] := COUNTING;
      }
      counters[h] := Add32(counters[h], 1);
      if counters[h] < HOT_THRESHOLD {
        return None;
      }
      var bk := Compile(m, pc);
      r := Some(bk);
    }

    /** Run the block at the PC: its thunk if it has one, its decoded instructions if it has
        none or the thunk failed. */
    method RunBlock(b: Board) returns (b': Board, steps: nat, ghost n: nat)
      requires Shape()
      modifies this, blocks, lookupPc, lookupIdx, counters
      ensures Shape() && steps <= BLOCK_LEN && n <= BLOCK_LEN
      ensures old(Coherent(b.m)) && Suits(env, native, b) && Plain(env, b.m) && ThunksKeepRom(env, native, b.m) ==>
        Bus.RomKept(b.m, b'.m) && Coherent(b'.m)
      ensures old(Coherent(b.m)) && RomAhead(b.m, b.c.Pc()) && Plain(env, b.m) && NoThunks(native) ==>
        (b', steps) == Sequential(env, b, n)
      ensures old(Coherent(b.m)) && Suits(env, native, b) && Plain(env, b.m) && Faithful(env, native, b.m) ==>
        Follows(env, b, n, b', steps)
    {
      hide GoodBlock, RomAhead, Plain, Sequential, Transparent, Bus.RomKept, Coherent;
      b', steps, n := b, 0, 0;
      NoSteps(env, b);
      Bus.SelfKept(b.m);
      Followed(env, b, 0);
      PlainLawful(env, b.m);
      var found := FindBlock(b.m, b.c.Pc());
      if found.None? {
        KeptCoherent(b.m, b.m);
        return;
      }
      var bk := found.value;
      if Plain(env, b.m) && GoodBlock(env, b.m, bk) && bk.pcStart == b.c.Pc() {
        TransparentBlock(env, b, bk);
      }
      n := |bk.ins|;
      match native(bk) {
        case Some(thunk) =>
          var (after, ok) := thunk(b);
          b' := after;
          ThunkRuns(env, native, b, bk);
          if ok {
            steps := |bk.ins|;
            KeptCoherent(b.m, b'.m);
            return;
          }
        case None =>
          Followed(env, b, n);
      }
      ghost var failed := b';
      b', steps := Interpret(b', bk);
      RomKeptThrough(env, b.m, failed.m, b'.m);
      KeptCoherent(b.m, b'.m);
    }

    /** Block after block, until the budget is nearly spent, an exception is requested, the
        core halts, or a block does not run. Never a step over budget. */
    method RunChained(b: Board, maxSteps: nat) returns (b': Board, total: nat, ghost n: nat)
      requires Shape()
      modifies this, blocks, lookupPc, lookupIdx, counters
      ensures Shape() && total <= maxSteps
      ensures old(Coherent(b.m)) && Plain(env, b.m) && Throughout(env, native, b, maxSteps) && NoThunks(native) ==>
        Coherent(b'.m) && Bus.RomKept(b.m, b'.m) && (b', total) == Sequential(env, b, n)
      ensures (old(Coherent(b.m)) && Plain(env, b.m) && Throughout(env, native, b, maxSteps) &&
               CycleBlind(env) && Faithful(env, native, b.m) && ThunksKeepRom(env, native, b.m)) ==>
        Coherent(b'.m) && Bus.RomKept(b.m, b'.m) && Follows(env, b, n, b', total)
    {
      hide GoodBlock, Sequential, Plain, Throughout, Suits, Coherent, Bus.RomKept, Follows, CycleBlind, Faithful,
           ThunksKeepRom;
      b', total, n := b, 0, 0;
      NoSteps(env, b);
      Bus.SelfKept(b.m);
      Followed(env, b, 0);
      ghost var hosted := Coherent(b.m) && Plain(env, b.m) && Throughout(env, native, b, maxSteps);
      ghost var exact := hosted && NoThunks(native);
      ghost var alike := hosted && CycleBlind(env) && Faithful(env, native, b.m) && ThunksKeepRom(env, native, b.m);
      PlainLawful(env, b.m);
      while !b'.c.halted && total < maxSteps
        invariant Shape() && total <= maxSteps
        invariant exact || alike ==> Coherent(b'.m) && Bus.RomKept(b.m, b'.m)
        invariant exact ==> (b', total) == Sequential(env, b, n)
        invariant alike ==> Follows(env, b, n, b', total)
        decreases maxSteps - total
      {
        if maxSteps - total < BLOCK_LEN || b'.pendsv {
          break;
        }
        ghost var before, done := b', total;
        if exact {
          SuitsLater(env, native, b, maxSteps, n);
        }
        if alike {
          FollowedLater(env, native, b, maxSteps, n, b', total);
        }
        PlainKept(env, b.m, b'.m);
        ThunksStay(env, native, b.m, b'.m);
        SuitsRom(env, native, b');
        var steps;
        ghost var k;
        b', steps, k := RunBlock(b');
        if exact {
          SequentialAdds2(env, b, n, k);
        }
        if alike {
          FollowsAdds(env, b, n, before, done, k, b', steps);
        }
        RomKeptThrough(env, b.m, before.m, b'.m);
        total := total + steps;
        n := n + k;
        if steps == 0 {
          break;
        }
      }
    }

    /** Coherence is about read-only memory only. */
    lemma KeptCoherent(m: Bus.Memory, m': Bus.Memory)
      ensures Coherent(m) && Bus.RomKept(m, m') ==> Coherent(m')
    {
      hide Decodes, Bus.RomKept;
      if Coherent(m) && Bus.RomKept(m, m') {
        forall k | 0 <= k < nBlocks
          ensures GoodBlock(env, m', blocks[k])
        {
          DecodesKept(env, m, m', blocks[k].pcStart, blocks[k].ins);
        }
      }
    }
  }

  lemma AppendDecode(env: Env, m: Bus.Memory, pc: u32, ins: seq<Insn>, i: Insn)
    requires |ins| < BLOCK_LEN && i == Decode(env, m, EndOf(pc, ins))
    requires |ins| > 0 ==> !IsTerminator(ins[|ins| - 1].op)
    ensures RomAhead(m, pc) && Decodes(env, m, pc, ins) ==> Decodes(env, m, pc, ins + [i])
    ensures EndOf(pc, ins + [i]) == Add32(EndOf(pc, ins), i.size)
  {
    hide Decode, InRom, RomAhead, Unwritable;
    EndAppend(pc, ins, i);
    if RomAhead(m, pc) && Decodes(env, m, pc, ins) {
      var d := EndBound(pc, ins);
      RomAt(m, pc, d);
      DecodesAppend(env, m, pc, ins, i);
    }
  }

  lemma {:induction false} EndAppend(pc: u32, ins: seq<Insn>, i: Insn)
    ensures EndOf(pc, ins + [i]) == Add32(EndOf(pc, ins), i.size)
    decreases |ins|
  {
    if |ins| > 0 {
      assert (ins + [i])[1..] == ins[1..] + [i];
      EndAppend(Add32(pc, ins[0].size), ins[1..], i);
    } else {
      assert (ins + [i])[1..] == [];
    }
  }

  /** The interpreter is lawful, addresses are recorded, and the code has no hidden jumps. */
  ghost predicate Plain(env: Env, m: Bus.Memory) {
    Lawful(env) && Addressed(env) && StraightCode(env, m)
  }

  /** A good block, entered at its start. */
  ghost predicate Transparent(env: Env, b: Board, bk: Block) {
    Plain(env, b.m) && GoodBlock(env, b.m, bk) && b.c.Pc() == bk.pcStart
  }

  lemma TransparentBlock(env: Env, b: Board, bk: Block)
    requires Plain(env, b.m) && GoodBlock(env, b.m, bk) && b.c.Pc() == bk.pcStart
    ensures Transparent(env, b, bk)
  {
  }

  lemma NoSteps(env: Env, b: Board)
    ensures Sequential(env, b, 0) == (b, 0)
  {
  }

  /** After j instructions of a block: what remains is the sequential run of the rest. */
  ghost predicate Midway(env: Env, b: Board, bk: Block, b': Board, j: nat)
    requires j <= |bk.ins|
  {
    var rest := Sequential(env, b', |bk.ins| - j);
    && Sequential(env, b, |bk.ins|) == (rest.0, j + rest.1)
    && Bus.RomKept(b.m, b'.m)
    && (j < |bk.ins| ==> b'.c.Pc() == bk.ins[j].pc)
  }

  lemma AtStart(env: Env, b: Board, bk: Block)
    requires Transparent(env, b, bk)
    ensures Midway(env, b, bk, b, 0)
  {
    hide Decode, InRom, Bus.RomKept;
    Bus.SelfKept(b.m);
    DecodesAt(env, b.m, bk.pcStart, bk.ins, 0);
  }

  lemma LastOne(env: Env, m: Bus.Memory, bk: Block, j: nat)
    requires GoodBlock(env, m, bk) && Addressed(env) && j < |bk.ins| && IsTerminator(bk.ins[j].op)
    ensures j == |bk.ins| - 1
  {
    hide Decodes, InRom, Decode;
    DecodesAt(env, m, bk.pcStart, bk.ins, j);
  }

  /** One more instruction of the block is one more sequential step. */
  lemma Advance(env: Env, b: Board, bk: Block, b': Board, j: nat)
    requires Transparent(env, b, bk) && j < |bk.ins| && Midway(env, b, bk, b', j) && !b'.c.halted
    ensures b'.(c := b'.c.(r := b'.c.r[REG_PC := bk.ins[j].pc])) == b'
    ensures var (after, ok) := env.exec(b', bk.ins[j]);
      if ok then Midway(env, b, bk, after, j + 1) else Sequential(env, b, |bk.ins|) == (after, j)
  {
    hide Decodes, Decode, InRom, Bus.RomKept, Straight, EndOf;
    var i := bk.ins[j];
    SamePc(b', i.pc);
    DecodesAt(env, b.m, bk.pcStart, bk.ins, j);
    DecodeKept(env, b.m, b'.m, i.pc);
    var (after, ok) := env.exec(b', i);
    Bus.RomKeptTrans(b.m, b'.m, after.m);
    if ok && j + 1 < |bk.ins| {
      GoesOn(env, b', i);
    }
  }

  lemma GoesOn(env: Env, b: Board, i: Insn)
    requires Straight(env, i) && b.c.Pc() == i.pc && env.exec(b, i).1
    ensures env.exec(b, i).0.c.Pc() == Add32(i.pc, i.size)
  {
  }

  lemma RomKeptFrom(env: Env, m: Bus.Memory, b: Board, i: Insn)
    ensures Lawful(env) && Bus.RomKept(m, b.m) ==> Bus.RomKept(m, env.exec(b, i).0.m)
  {
    hide Bus.RomKept;
    if Lawful(env) && Bus.RomKept(m, b.m) {
      Bus.RomKeptTrans(m, b.m, env.exec(b, i).0.m);
    }
  }

  lemma RomKeptThrough(env: Env, a: Bus.Memory, b: Bus.Memory, c: Bus.Memory)
    ensures Bus.RomKept(a, b) && Bus.RomKept(b, c) ==> Bus.RomKept(a, c)
  {
    if Bus.RomKept(a, b) && Bus.RomKept(b, c) {
      Bus.RomKeptTrans(a, b, c);
    }
  }

  lemma PlainKept(env: Env, m: Bus.Memory, m': Bus.Memory)
    ensures Plain(env, m) && Bus.RomKept(m, m') ==> Plain(env, m')
  {
    hide Bus.RomKept, StraightCode;
    if Plain(env, m) && Bus.RomKept(m, m') {
      StraightKept(env, m, m');
    }
  }

  /* Thunks. */

  ghost predicate NoThunks(native: Native) { forall bk: Block :: native(bk).None? }

  /** A block's thunk, entered where the block starts, on a running core outside any IT block. */
  ghost predicate Entered(env: Env, native: Native, b: Board, bk: Block) {
    native(bk).Some? && Transparent(env, b, bk) && b.c.itstate == 0 && !b.c.halted
  }

  /** On memory with this map and this read-only part, no thunk writes the read-only part. */
  ghost predicate ThunksKeepRom(env: Env, native: Native, m: Bus.Memory) {
    forall b: Board, bk: Block :: Bus.RomKept(m, b.m) && Entered(env, native, b, bk) ==>
      Bus.RomKept(b.m, native(bk).value(b).0.m)
  }

  lemma ThunksStay(env: Env, native: Native, m: Bus.Memory, m': Bus.Memory)
    ensures Bus.RomKept(m, m') && ThunksKeepRom(env, native, m) ==> ThunksKeepRom(env, native, m')
    ensures Bus.RomKept(m, m') && Faithful(env, native, m) ==> Faithful(env, native, m')
    ensures NoThunks(native) ==> ThunksKeepRom(env, native, m')
  {
    hide Bus.RomKept, Faithful, Transparent;
    if Bus.RomKept(m, m') {
      ThunksLater(env, native, m, m');
    }
  }

  /** What is promised of the thunks still holds when only writable memory has changed. */
  lemma ThunksLater(env: Env, native: Native, m: Bus.Memory, m': Bus.Memory)
    requires Bus.RomKept(m, m')
    ensures ThunksKeepRom(env, native, m) ==> ThunksKeepRom(env, native, m')
    ensures Faithful(env, native, m) ==> Faithful(env, native, m')
  {
    hide Bus.RomKept, Entered, ThunkAgrees;
    forall b: Board | Bus.RomKept(m', b.m)
      ensures Bus.RomKept(m, b.m)
    {
      Bus.RomKeptTrans(m, m', b.m);
    }
  }

  /** A board but for its cycle counter, which thunks do not advance. */
  function Uncounted(b: Board): Board {
    b.(c := b.c.(cycles := 0))
  }

  /** No instruction's effect depends on the cycle counter. */
  ghost predicate CycleBlind(env: Env) {
    forall b: Board, i: Insn :: var x, y := env.exec(b, i), env.exec(Uncounted(b), i);
      x.1 == y.1 && Uncounted(x.0) == Uncounted(y.0)
  }

  /** b' and its step count are what n sequential steps give, cycles excepted; or a thunk
      failed, and both end halted. */
  ghost predicate Follows(env: Env, b: Board, n: nat, b': Board, steps: nat) {
    var ref := Sequential(env, b, n);
    (Uncounted(b') == Uncounted(ref.0) && steps == ref.1) || (b'.c.halted && ref.0.c.halted)
  }

  /** On such memory, a thunk does what its block's instructions do: it succeeds with their
      effect, or fails with the core halted where they halt it. */
  ghost predicate Faithful(env: Env, native: Native, m: Bus.Memory) {
    forall b: Board, bk: Block :: Bus.RomKept(m, b.m) && Entered(env, native, b, bk) ==>
      ThunkAgrees(env, b, bk, native(bk).value(b))
  }

  ghost predicate ThunkAgrees(env: Env, b: Board, bk: Block, r: (Board, bool)) {
    var ref := Sequential(env, b, |bk.ins|);
    if r.1 then Uncounted(r.0) == Uncounted(ref.0) && ref.1 == |bk.ins| else r.0.c.halted && ref.0.c.halted
  }

  /** The code ahead is read-only, and no thunk is entered inside an IT block. */
  ghost predicate Suits(env: Env, native: Native, b: Board) {
    RomAhead(b.m, b.c.Pc()) && !b.c.halted &&
      (b.c.itstate == 0 || forall bk: Block :: bk.pcStart == b.c.Pc() ==> native(bk).None?)
  }

  /** This holds wherever the run goes until it halts. */
  ghost predicate Throughout(env: Env, native: Native, b: Board, n: nat)
    decreases n
  {
    n == 0 || b.c.halted ||
    (Suits(env, native, b) &&
     (env.exec(b, Decode(env, b.m, b.c.Pc())).1 ==>
        Throughout(env, native, env.exec(b, Decode(env, b.m, b.c.Pc())).0, n - 1)))
  }

  lemma Followed(env: Env, b: Board, n: nat)
    ensures Follows(env, b, n, Sequential(env, b, n).0, Sequential(env, b, n).1)
  {
  }

  /** What a thunk leaves, for the contract of running a block. */
  lemma ThunkRuns(env: Env, native: Native, b: Board, bk: Block)
    requires native(bk).Some?
    ensures Transparent(env, b, bk) && Suits(env, native, b) && ThunksKeepRom(env, native, b.m) ==>
      Bus.RomKept(b.m, native(bk).value(b).0.m)
    ensures Transparent(env, b, bk) && Suits(env, native, b) && Faithful(env, native, b.m) ==>
      var r := native(bk).value(b);
      if r.1 then Follows(env, b, |bk.ins|, r.0, |bk.ins|)
      else r.0.c.halted && forall k :: Follows(env, b, |bk.ins|, r.0, k)
  {
    hide Bus.RomKept, GoodBlock, Sequential, RomAhead, Plain;
    Bus.SelfKept(b.m);
    if Transparent(env, b, bk) && Suits(env, native, b) {
      assert Entered(env, native, b, bk);
    }
  }

  lemma PlainLawful(env: Env, m: Bus.Memory)
    ensures Plain(env, m) ==> Lawful(env)
  {
  }

  lemma SuitsRom(env: Env, native: Native, b: Board)
    ensures Suits(env, native, b) ==> RomAhead(b.m, b.c.Pc())
  {
  }

  lemma {:induction false} SuitsLater(env: Env, native: Native, b: Board, n: nat, j: nat)
    requires Throughout(env, native, b, n) && Lawful(env) && Sequential(env, b, j).1 < n
    requires !Sequential(env, b, j).0.c.halted
    ensures Suits(env, native, Sequential(env, b, j).0)
    decreases j
  {
    hide Decode, Suits;
    if j != 0 && !b.c.halted {
      var (b', ok) := env.exec(b, Decode(env, b.m, b.c.Pc()));
      if ok {
        SuitsLater(env, native, b', n - 1, j - 1);
      }
    }
  }

  /** Boards that differ in the cycle counter only are equally fit to run a block. */
  lemma FollowedLater(env: Env, native: Native, b: Board, max: nat, n: nat, b': Board, total: nat)
    requires Throughout(env, native, b, max) && Lawful(env) && Follows(env, b, n, b', total) && total < max
    requires !b'.c.halted
    ensures Suits(env, native, b')
  {
    hide Throughout, RomAhead, Sequential, Lawful;
    var ref := Sequential(env, b, n);
    assert ref.0.c.halted == b'.c.halted by {
      assert Uncounted(ref.0).c.halted == Uncounted(b').c.halted;
    }
    SuitsLater(env, native, b, max, n);
    SameSuits(env, native, ref.0, b');
  }

  lemma SameSuits(env: Env, native: Native, b: Board, b': Board)
    requires Uncounted(b) == Uncounted(b') && Suits(env, native, b)
    ensures Suits(env, native, b')
  {
    hide RomAhead;
    assert b.c.(cycles := 0) == b'.c.(cycles := 0);
    assert b.m == b'.m && b.c.r == b'.c.r;
  }

  lemma Blind(env: Env, b: Board, i: Insn)
    requires CycleBlind(env)
    ensures var x, y := env.exec(b, i), env.exec(Uncounted(b), i); x.1 == y.1 && Uncounted(x.0) == Uncounted(y.0)
  {
  }

  lemma {:induction false} SequentialBlind(env: Env, b: Board, b': Board, n: nat)
    requires CycleBlind(env) && Uncounted(b) == Uncounted(b')
    ensures var x, y := Sequential(env, b, n), Sequential(env, b', n); Uncounted(x.0) == Uncounted(y.0) && x.1 == y.1
    decreases n
  {
    hide Decode;
    assert b.c.(cycles := 0) == b'.c.(cycles := 0) && b.m == b'.m;
    if n != 0 && !b.c.halted {
      var i := Decode(env, b.m, b.c.Pc());
      var x, y := env.exec(b, i), env.exec(b', i);
      Blind(env, b, i);
      Blind(env, b', i);
      if x.1 {
        SequentialBlind(env, x.0, y.0, n - 1);
      }
    }
  }

  lemma SequentialAdds2(env: Env, b: Board, n: nat, k: nat)
    requires Plain(env, b.m)
    ensures var first := Sequential(env, b, n); var second := Sequential(env, first.0, k);
      Sequential(env, b, n + k) == (second.0, first.1 + second.1)
  {
    hide Sequential, Lawful, StraightCode;
    SequentialAdds(env, b, n, k);
  }

  /** Following one stretch and then another is following both. */
  lemma FollowsAdds(env: Env, b: Board, n: nat, b': Board, total: nat, k: nat, b'': Board, steps: nat)
    requires Plain(env, b.m) && CycleBlind(env) && !b'.c.halted
    requires Follows(env, b, n, b', total) && Follows(env, b', k, b'', steps)
    ensures Follows(env, b, n + k, b'', total + steps)
  {
    hide Sequential, Plain, CycleBlind;
    var first := Sequential(env, b, n);
    SequentialAdds2(env, b, n, k);
    SequentialBlind(env, b', first.0, k);
    HaltedAlike(Sequential(env, b', k).0, Sequential(env, first.0, k).0);
  }

  lemma HaltedAlike(b: Board, b': Board)
    ensures Uncounted(b) == Uncounted(b') ==> b.c.halted == b'.c.halted
  {
    if Uncounted(b) == Uncounted(b') {
      assert Uncounted(b).c.halted == Uncounted(b').c.halted;
    }
  }
}
