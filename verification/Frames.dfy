/** Connection frames inside blocks. The pool cuts at byte offsets and the peer decodes each block by itself, so a
    frame survives only when no cut falls inside it. */
module Frames {
  import opened Bytes
  import opened Records
  import opened SendBuffer

  /** The guard a sender could test before adding `n` bytes: either they fit in the block being filled, or that
      block is exactly full and they fit in the next. */
  predicate Fits(p: Pool, n: nat) {
    |p.last| + n <= p.max || (|p.last| == p.max && n <= p.max)
  }

  ghost predicate AllWhole(p: Pool) {
    Whole(p.last) && forall k :: k in p.blocks ==> Whole(p.blocks[k])
  }

  ghost predicate SomeBroken(p: Pool) {
    exists k :: k in p.blocks && !Whole(p.blocks[k])
  }

  lemma {:induction false} CutKeepsStored(p: Pool, k: nat)
    requires Shape(p) && k in p.blocks
    ensures k in Cut(p).blocks && Cut(p).blocks[k] == p.blocks[k]
    decreases |p.last|
  {
    if |p.last| > p.max {
      CutOnceKeeps(p);
      CutKeepsStored(CutOnce(p), k);
    }
  }

  /** The pool with `b` queued but not yet cut. */
  function Queue(p: Pool, b: bytes): Pool {
    p.(size := p.size + |b|, last := p.last + b)
  }

  /** The last block was exactly full: the cut falls between frames, and only a frame longer than a block is broken. */
  lemma SendAfterFull(p: Pool, f: Record)
    requires PoolInv(p) && AllWhole(p) && InRange(f) && |p.last| == p.max
    ensures |BuildOne(f)| <= p.max ==> AllWhole(Added(p, BuildOne(f)))
    ensures |BuildOne(f)| > p.max ==> SomeBroken(Added(p, BuildOne(f)))
  {
    hide Build, BuildOne;
    var b := BuildOne(f);
    var q := Queue(p, b);
    WholeOne(f);
    BuiltNotEmpty(f);
    CutOnceKeeps(q);
    var c := CutOnce(q);
    assert q.last[..p.max] == p.last && q.last[p.max..] == b;
    assert Cut(q) == Cut(c);
    if |b| > p.max {
      CutOnceKeeps(c);
      CutIsNotWhole([], f, p.max);
      BuildNone();
      assert [] + b[..p.max] == b[..p.max];
      CutKeepsStored(CutOnce(c), c.head);
    }
  }

  lemma BuiltNotEmpty(f: Record)
    ensures BuildOne(f) != []
  {
  }

  lemma BuildNone()
    ensures Build([]) == [] && AllInRange([])
  {
  }

  /** The last block had room, but not enough: the cut falls inside the new frame. */
  lemma SendAcross(p: Pool, f: Record)
    requires PoolInv(p) && AllWhole(p) && InRange(f) && |p.last| < p.max < |p.last| + |BuildOne(f)|
    ensures SomeBroken(Added(p, BuildOne(f)))
  {
    hide Build, BuildOne;
    var b := BuildOne(f);
    var q := Queue(p, b);
    CutOnceKeeps(q);
    var c := CutOnce(q);
    var k := p.max - |p.last|;
    var rs :| AllInRange(rs) && p.last == Build(rs);
    CutIsNotWhole(rs, f, k);
    assert (p.last + b)[..p.max] == p.last + b[..k];
    CutKeepsStored(c, p.head);
  }

  /** From a pool of whole frames, adding one frame leaves every block whole exactly when it fits; otherwise a
      stored block is broken for good. */
  lemma SendWholeIffFits(p: Pool, f: Record)
    requires PoolInv(p) && AllWhole(p) && InRange(f)
    ensures Fits(p, |BuildOne(f)|) ==> AllWhole(Added(p, BuildOne(f)))
    ensures !Fits(p, |BuildOne(f)|) ==> SomeBroken(Added(p, BuildOne(f)))
  {
    hide BuildOne;
    if |p.last| == p.max {
      SendAfterFull(p, f);
    } else if |p.last| + |BuildOne(f)| <= p.max {
      WholeOne(f);
      WholeConcat(p.last, BuildOne(f));
    } else {
      SendAcross(p, f);
    }
  }

  /** A broken stored block stays broken in the pool under any add. */
  lemma AddKeepsBroken(p: Pool, data: bytes)
    requires PoolInv(p) && SomeBroken(p)
    ensures SomeBroken(Added(p, data))
  {
    var k :| k in p.blocks && !Whole(p.blocks[k]);
    CutKeepsStored(p.(size := p.size + |data|, last := p.last + data), k);
  }

  datatype FrameOp = Send(f: Record) | Hand

  ghost predicate AllSendable(ops: seq<FrameOp>) {
    forall i :: 0 <= i < |ops| && ops[i].Send? ==> InRange(ops[i].f)
  }

  function Ops(ops: seq<FrameOp>): (r: seq<Op>)
    ensures |r| == |ops|
  {
    if ops == [] then []
    else Ops(ops[..|ops| - 1]) + [match ops[|ops| - 1] case Send(f) => OpAdd(BuildOne(f)) case Hand => OpGet]
  }

  function FramesOf(ops: seq<FrameOp>): seq<Record> {
    if ops == [] then []
    else FramesOf(ops[..|ops| - 1]) + (match ops[|ops| - 1] case Send(f) => [f] case Hand => [])
  }

  /** Every send met the guard at the time it was made. */
  ghost predicate AllFit(max: nat, ops: seq<FrameOp>)
    requires max >= 1
  {
    ops == [] ||
    var before := ops[..|ops| - 1];
    && AllFit(max, before)
    && match ops[|ops| - 1]
       case Send(f) => Fits(Run(max, Ops(before)).pool, |BuildOne(f)|)
       case Hand => true
  }

  ghost predicate BlocksWhole(blocks: seq<bytes>) {
    forall i :: 0 <= i < |blocks| ==> Whole(blocks[i])
  }

  /** After any calls, either every send fitted and every block is whole, or some block is broken. */
  lemma {:induction false} FitDecides(max: nat, ops: seq<FrameOp>)
    requires max >= 1 && AllSendable(ops)
    ensures var t := Run(max, Ops(ops));
      if AllFit(max, ops) then BlocksWhole(t.blocks) && AllWhole(t.pool)
      else !BlocksWhole(t.blocks) || SomeBroken(t.pool)
  {
    if ops == [] {
      assert Build([]) == [] && AllInRange([]);
    } else {
      var before, op := ops[..|ops| - 1], ops[|ops| - 1];
      FitDecides(max, before);
      var t, u := Run(max, Ops(before)), Run(max, Ops(ops));
      assert Ops(ops)[..|ops| - 1] == Ops(before);
      match op
      case Send(f) =>
        if AllFit(max, before) {
          SendWholeIffFits(t.pool, f);
        } else if SomeBroken(t.pool) {
          AddKeepsBroken(t.pool, BuildOne(f));
        }
      case Hand =>
        HandDecides(t);
    }
  }

  lemma HandDecides(t: Trace)
    requires TraceInv(t)
    ensures var u := Perform(t, OpGet);
      && (BlocksWhole(t.blocks) && AllWhole(t.pool) ==> BlocksWhole(u.blocks) && AllWhole(u.pool))
      && (!BlocksWhole(t.blocks) || SomeBroken(t.pool) ==> !BlocksWhole(u.blocks) || SomeBroken(u.pool))
  {
    var g, u := Taken(t.pool), Perform(t, OpGet);
    GetTakes(t.pool);
    assert Build([]) == [] && AllInRange([]);
    if !BlocksWhole(t.blocks) {
      var i :| 0 <= i < |t.blocks| && !Whole(t.blocks[i]);
      assert u.blocks[i] == t.blocks[i];
    } else if SomeBroken(t.pool) {
      var k :| k in t.pool.blocks && !Whole(t.pool.blocks[k]);
      if k == t.pool.tail {
        assert u.blocks[|t.blocks|] == t.pool.blocks[k];
      } else {
        assert k in u.pool.blocks;
      }
    }
  }

  lemma {:induction false} SentBytes(ops: seq<FrameOp>)
    requires AllSendable(ops)
    ensures AddedBy(Ops(ops)) == Build(FramesOf(ops)) && AllInRange(FramesOf(ops))
  {
    if ops != [] {
      var before, op := ops[..|ops| - 1], ops[|ops| - 1];
      SentBytes(before);
      assert Ops(ops)[..|ops| - 1] == Ops(before);
      match op
      case Send(f) => BuildSnoc(FramesOf(before), f);
      case Hand =>
        assert FramesOf(before) + [] == FramesOf(before);
        assert AddedBy(Ops(before)) + [] == AddedBy(Ops(before));
    }
  }

  /** Whatever the order of sends and hand-outs, once the pool is empty the blocks decode one by one to exactly the
      frames sent if and only if every send met the guard. */
  lemma FramesSurviveIffFit(max: nat, ops: seq<FrameOp>)
    requires max >= 1 && AllSendable(ops)
    requires Queued(Run(max, Ops(ops)).pool) == []
    ensures (ParseEach(Run(max, Ops(ops)).blocks) == Parsed(FramesOf(ops), true)) <==> AllFit(max, ops)
  {
    var t := Run(max, Ops(ops));
    RefinesByteQueue(max, Ops(ops));
    SentBytes(ops);
    FitDecides(max, ops);
    assert Flatten(t.blocks) + [] == Flatten(t.blocks);
    SplitDecodesIffWhole(t.blocks, FramesOf(ops));
    assert !SomeBroken(t.pool) by {
      if SomeBroken(t.pool) {
        QueuedHead(t.pool);
        assert false;
      }
    }
  }

  /** In a run where every send fits, what has been handed out so far always decodes to a prefix of the frames. */
  lemma FittingFramesArriveInOrder(max: nat, ops: seq<FrameOp>, n: nat)
    requires max >= 1 && AllSendable(ops) && AllFit(max, ops)
    requires n <= |Run(max, Ops(ops)).blocks|
    ensures ParseEach(Run(max, Ops(ops)).blocks[..n]).complete
    ensures ParseEach(Run(max, Ops(ops)).blocks[..n]).records <= FramesOf(ops)
  {
    var t := Run(max, Ops(ops));
    RefinesByteQueue(max, Ops(ops));
    SentBytes(ops);
    FitDecides(max, ops);
    EachWholeParses(t.blocks[..n]);
    WholePrefix(t.blocks[..n]);
    var rs :| AllInRange(rs) && Flatten(t.blocks[..n]) == Build(rs);
    FlattenPrefix(t.blocks, n);
    var rest := Build(FramesOf(ops))[|Build(rs)|..];
    assert Build(FramesOf(ops)) == Build(rs) + rest;
    ParseBuild(rs);
    ParseBuildThen(rs, rest);
    ParseBuild(FramesOf(ops));
  }

  lemma {:induction false} WholePrefix(blocks: seq<bytes>)
    requires BlocksWhole(blocks)
    ensures Whole(Flatten(blocks))
  {
    if blocks == [] {
      assert Build([]) == [] && AllInRange([]);
    } else {
      WholePrefix(blocks[1..]);
      WholeConcat(blocks[0], Flatten(blocks[1..]));
    }
  }

  /** The promise fails without the guard: two 12 byte frames sent through blocks of 16 bytes leave a first block
      whose second frame is cut inside its header. */
  lemma CutFrameIsLost(a: Record, b: Record)
    requires InRange(a) && InRange(b) && |a.payload| == |b.payload| == 4
    ensures var t := Run(16, [OpAdd(BuildOne(a)), OpAdd(BuildOne(b)), OpGet, OpGet]);
      Queued(t.pool) == [] && ParseEach(t.blocks) != Parsed([a, b], true)
  {
    hide Fits, AllFit, BuildOne, ParseEach, Perform, Queued;
    var fs := [Send(a), Send(b), Hand, Hand];
    FramesOfThese(a, b);
    SecondDoesNotFit(a, b);
    TwoCutOnce16(a, b);
    FramesSurviveIffFit(16, fs);
  }

  lemma SecondDoesNotFit(a: Record, b: Record)
    requires InRange(a) && InRange(b) && |a.payload| == |b.payload| == 4
    ensures !AllFit(16, [Send(a), Send(b), Hand, Hand])
  {
    var fs := [Send(a), Send(b), Hand, Hand];
    assert fs[..3][..2] == fs[..2] && fs[..2][..1] == fs[..1] == [Send(a)];
    FirstSent(a);
    FramesOfThese(a, b);
    assert !AllFit(16, fs[..2]);
    assert !AllFit(16, fs[..3]);
  }

  lemma FirstSent(a: Record)
    requires InRange(a) && |a.payload| == 4
    ensures var t1 := Run(16, [OpAdd(BuildOne(a))]);
      |t1.pool.last| == 12 && t1.pool.max == 16 && t1.pool.head == t1.pool.tail
  {
    RunSnoc(16, [], OpAdd(BuildOne(a)));
    assert [] + [OpAdd(BuildOne(a))] == [OpAdd(BuildOne(a))];
  }

  lemma TwoCutOnce16(a: Record, b: Record)
    requires InRange(a) && InRange(b) && |a.payload| == |b.payload| == 4
    ensures Queued(Run(16, [OpAdd(BuildOne(a)), OpAdd(BuildOne(b)), OpGet, OpGet]).pool) == []
  {
    hide BuildOne;
    var ops := [OpAdd(BuildOne(a)), OpAdd(BuildOne(b)), OpGet, OpGet];
    FirstSent(a);
    assert ops[..1] == [ops[0]];
    RunSnoc(16, ops[..1], ops[1]);
    assert ops[..1] + [ops[1]] == ops[..2];
    TwelveBytes(b);
    RefinesByteQueue(16, ops[..1]);
    TwoCutOnce(Run(16, ops[..1]).pool, BuildOne(b));
    RunSnoc(16, ops[..2], OpGet);
    assert ops[..2] + [OpGet] == ops[..3];
    RunSnoc(16, ops[..3], OpGet);
    assert ops[..3] + [OpGet] == ops;
  }

  lemma TwelveBytes(f: Record)
    requires InRange(f) && |f.payload| == 4
    ensures |BuildOne(f)| == 12
  {
  }

  lemma RunSnoc(max: nat, ops: seq<Op>, op: Op)
    requires max >= 1
    ensures Run(max, ops + [op]) == Perform(Run(max, ops), op)
  {
    assert (ops + [op])[..|ops|] == ops;
  }

  lemma TwoCutOnce(p: Pool, data: bytes)
    requires PoolInv(p) && |p.last| <= p.max < |p.last| + |data| <= 2 * p.max
    ensures Added(p, data).head == p.head + 1 && |Added(p, data).last| == |p.last| + |data| - p.max
  {
    var q := p.(size := p.size + |data|, last := p.last + data);
    assert Cut(q) == Cut(CutOnce(q)) == CutOnce(q);
  }

  lemma FramesOfThese(a: Record, b: Record)
    ensures FramesOf([Send(a), Send(b), Hand, Hand]) == [a, b]
    ensures Ops([Send(a), Send(b), Hand, Hand]) == [OpAdd(BuildOne(a)), OpAdd(BuildOne(b)), OpGet, OpGet]
    ensures Ops([Send(a)]) == [OpAdd(BuildOne(a))]
  {
    var fs := [Send(a), Send(b), Hand, Hand];
    assert fs[..3][..2] == fs[..2] && fs[..2][..1] == fs[..1] == [Send(a)] && fs[..1][..0] == [];
    assert FramesOf(fs[..1]) == [a];
    assert FramesOf(fs[..2]) == [a, b];
    assert FramesOf(fs[..3]) == [a, b];
    assert Ops(fs[..1]) == [OpAdd(BuildOne(a))];
    assert Ops(fs[..2]) == [OpAdd(BuildOne(a)), OpAdd(BuildOne(b))];
    assert Ops(fs[..3]) == [OpAdd(BuildOne(a)), OpAdd(BuildOne(b)), OpGet];
  }
}
