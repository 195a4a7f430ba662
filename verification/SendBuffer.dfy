/** The send pool: a byte stream cut into numbered blocks. */
module SendBuffer {
  import opened Bytes
  import opened Buffers

  /** The fields of the pool. Blocks `tail .. head-1` are full and wait; `last` is still being filled. */
  datatype Pool = Pool(max: nat, size: nat, head: nat, tail: nat, blocks: map<nat, bytes>, last: bytes)

  function InitPool(max: nat): Pool {
    Pool(max, 0, 1, 1, map[], [])
  }

  /** Cuts full blocks off the last one while it is longer than the maximum. */
  function Cut(p: Pool): Pool
    requires p.max >= 1
    decreases |p.last|
  {
    if |p.last| > p.max then Cut(CutOnce(p)) else p
  }

  function CutOnce(p: Pool): Pool
    requires |p.last| > p.max
  {
    p.(blocks := p.blocks[p.head := p.last[..p.max]], head := p.head + 1, last := p.last[p.max..])
  }

  function Added(p: Pool, data: bytes): Pool
    requires p.max >= 1
  {
    if data == [] then p else Cut(p.(size := p.size + |data|, last := p.last + data))
  }

  datatype Got = Got(pool: Pool, block: bytes, sn: nat)

  function Taken(p: Pool): Got
    requires PoolInv(p)
  {
    if p.tail < p.head then
      assert |p.blocks[p.tail]| <= |Queued(p)| == p.size by { QueuedHead(p); }
      Got(p.(blocks := p.blocks - {p.tail}, tail := p.tail + 1, size := p.size - |p.blocks[p.tail]|),
          p.blocks[p.tail], p.tail)
    else if |p.last| > 0 then
      Got(p.(last := [], head := p.head + 1, tail := p.tail + 1, size := p.size - |p.last|), p.last, p.tail)
    else
      Got(p, [], 0)
  }

  /** The stored blocks from `lo` up to `hi`, joined. */
  ghost function Joined(blocks: map<nat, bytes>, lo: nat, hi: nat): bytes
    requires forall k :: lo <= k < hi ==> k in blocks
    decreases hi - lo
  {
    if lo >= hi then [] else blocks[lo] + Joined(blocks, lo + 1, hi)
  }

  /** The bytes held, in the order they will leave. */
  ghost function Queued(p: Pool): bytes
    requires forall k :: p.tail <= k < p.head ==> k in p.blocks
  {
    Joined(p.blocks, p.tail, p.head) + p.last
  }

  /** The stored keys are exactly `tail .. head-1`, stored blocks are full, the last block is no longer than a
      full one, and the size counts every byte held. */
  ghost predicate PoolInv(p: Pool) {
    && Shape(p)
    && |p.last| <= p.max
    && p.size == |Queued(p)|
  }

  ghost predicate Shape(p: Pool) {
    && 1 <= p.max && 1 <= p.tail <= p.head
    && (forall k :: k in p.blocks <==> p.tail <= k < p.head)
    && (forall k :: k in p.blocks ==> |p.blocks[k]| == p.max)
  }

  lemma {:induction false} JoinedSame(a: map<nat, bytes>, b: map<nat, bytes>, lo: nat, hi: nat)
    requires forall k :: lo <= k < hi ==> k in a && k in b && a[k] == b[k]
    ensures Joined(a, lo, hi) == Joined(b, lo, hi)
    decreases hi - lo
  {
    if lo < hi {
      JoinedSame(a, b, lo + 1, hi);
    }
  }

  lemma {:induction false} JoinedSnoc(blocks: map<nat, bytes>, lo: nat, hi: nat)
    requires lo <= hi && forall k :: lo <= k <= hi ==> k in blocks
    ensures Joined(blocks, lo, hi + 1) == Joined(blocks, lo, hi) + blocks[hi]
    decreases hi - lo
  {
    if lo < hi {
      JoinedSnoc(blocks, lo + 1, hi);
      assert blocks[lo] + (Joined(blocks, lo + 1, hi) + blocks[hi])
          == (blocks[lo] + Joined(blocks, lo + 1, hi)) + blocks[hi];
    } else {
      assert Joined(blocks, lo, hi + 1) == blocks[hi] + Joined(blocks, hi + 1, hi + 1);
    }
  }

  lemma QueuedHead(p: Pool)
    requires Shape(p) && p.tail < p.head
    ensures Queued(p) == p.blocks[p.tail] + (Joined(p.blocks, p.tail + 1, p.head) + p.last)
  {
  }

  lemma CutOnceKeeps(p: Pool)
    requires Shape(p) && |p.last| > p.max
    ensures Shape(CutOnce(p)) && Queued(CutOnce(p)) == Queued(p)
  {
    var q := CutOnce(p);
    JoinedSnoc(q.blocks, p.tail, p.head);
    JoinedSame(p.blocks, q.blocks, p.tail, p.head);
    assert p.last == p.last[..p.max] + p.last[p.max..];
    assert Joined(p.blocks, p.tail, p.head) + (p.last[..p.max] + p.last[p.max..])
        == (Joined(p.blocks, p.tail, p.head) + p.last[..p.max]) + p.last[p.max..];
  }

  lemma {:induction false} CutKeeps(p: Pool)
    requires Shape(p)
    ensures Shape(Cut(p)) && Queued(Cut(p)) == Queued(p)
    ensures |Cut(p).last| <= p.max && Cut(p).size == p.size && Cut(p).tail == p.tail && Cut(p).max == p.max
    ensures p.last != [] ==> Cut(p).last != []
    decreases |p.last|
  {
    if |p.last| > p.max {
      CutOnceKeeps(p);
      CutKeeps(CutOnce(p));
    }
  }

  /** Adding appends to the queue and touches nothing else. */
  lemma AddAppends(p: Pool, data: bytes)
    requires PoolInv(p)
    ensures PoolInv(Added(p, data))
    ensures Queued(Added(p, data)) == Queued(p) + data
    ensures Added(p, data).tail == p.tail && Added(p, data).max == p.max
  {
    var q := p.(size := p.size + |data|, last := p.last + data);
    assert Joined(p.blocks, p.tail, p.head) + (p.last + data) == Joined(p.blocks, p.tail, p.head) + p.last + data;
    CutKeeps(q);
    if data == [] {
      assert Queued(p) + data == Queued(p);
    }
  }

  /** Getting takes the next block off the front, numbered consecutively, and fails only on an empty queue. */
  lemma GetTakes(p: Pool)
    requires PoolInv(p)
    ensures var g := Taken(p);
      && PoolInv(g.pool) && g.pool.max == p.max
      && Queued(p) == g.block + Queued(g.pool)
      && (if Queued(p) == [] then g == Got(p, [], 0)
          else g.sn == p.tail && g.pool.tail == p.tail + 1 && 0 < |g.block| <= p.max)
  {
    var g := Taken(p);
    if p.tail < p.head {
      QueuedHead(p);
      JoinedSame(p.blocks, g.pool.blocks, p.tail + 1, p.head);
    } else {
      assert Joined(p.blocks, p.tail, p.head) == [];
      assert Queued(g.pool) == g.pool.last;
    }
  }

  /** One operation of the pool's users. */
  datatype Op = OpAdd(data: bytes) | OpGet

  datatype Trace = Trace(pool: Pool, blocks: seq<bytes>, numbers: seq<nat>, added: bytes)

  ghost predicate TraceInv(t: Trace) {
    && PoolInv(t.pool)
    && Flatten(t.blocks) + Queued(t.pool) == t.added
    && |t.numbers| == |t.blocks| == t.pool.tail - 1
    && forall i :: 0 <= i < |t.numbers| ==> t.numbers[i] == i + 1
  }

  ghost function Perform(t: Trace, op: Op): Trace
    requires TraceInv(t)
  {
    match op
    case OpAdd(data) => t.(pool := Added(t.pool, data), added := t.added + data)
    case OpGet =>
      var g := Taken(t.pool);
      if g.block == [] then t.(pool := g.pool)
      else t.(pool := g.pool, blocks := t.blocks + [g.block], numbers := t.numbers + [g.sn])
  }

  lemma PerformKeeps(t: Trace, op: Op)
    requires TraceInv(t)
    ensures TraceInv(Perform(t, op))
  {
    match op
    case OpAdd(data) =>
      AddAppends(t.pool, data);
      assert Flatten(t.blocks) + (Queued(t.pool) + data) == (Flatten(t.blocks) + Queued(t.pool)) + data;
    case OpGet =>
      GetTakes(t.pool);
      var g := Taken(t.pool);
      FlattenSnoc(t.blocks, g.block);
      assert Flatten(t.blocks) + (g.block + Queued(g.pool)) == Flatten(t.blocks) + g.block + Queued(g.pool);
  }

  /** The state after a sequence of operations on a new pool. */
  ghost function Run(max: nat, ops: seq<Op>): (t: Trace)
    requires max >= 1
    ensures TraceInv(t)
  {
    if ops == [] then
      var p := InitPool(max);
      assert Queued(p) == [];
      Trace(p, [], [], [])
    else
      var t := Run(max, ops[..|ops| - 1]);
      PerformKeeps(t, ops[|ops| - 1]);
      Perform(t, ops[|ops| - 1])
  }

  function AddedBy(ops: seq<Op>): bytes {
    if ops == [] then []
    else AddedBy(ops[..|ops| - 1]) + (match ops[|ops| - 1] case OpAdd(d) => d case OpGet => [])
  }

  /** The pool refines a byte queue: whatever the calls, the blocks handed out are numbered 1, 2, 3, ... and they,
      then the stored blocks, then the last block, are all bytes added, in order. */
  lemma RefinesByteQueue(max: nat, ops: seq<Op>)
    requires max >= 1
    ensures var t := Run(max, ops);
      && Flatten(t.blocks) + Queued(t.pool) == AddedBy(ops)
      && (forall i :: 0 <= i < |t.numbers| ==> t.numbers[i] == i + 1)
      && |t.numbers| == |t.blocks| == t.pool.tail - 1
      && t.pool.size == |AddedBy(ops)| - |Flatten(t.blocks)|
  {
    AddedTracks(max, ops);
  }

  lemma {:induction false} AddedTracks(max: nat, ops: seq<Op>)
    requires max >= 1
    ensures Run(max, ops).added == AddedBy(ops)
  {
    if ops != [] {
      AddedTracks(max, ops[..|ops| - 1]);
      assert AddedBy(ops[..|ops| - 1]) + [] == AddedBy(ops[..|ops| - 1]);
    }
  }

  class AsyncSendBuffer {
    const maxPayload: nat
    var poolSize: nat
    var headSn: nat
    var tailSn: nat
    var blockList: map<nat, bytes>
    var lastBlock: WriteBuffer

    ghost function View(): Pool
      reads this, lastBlock
    {
      Pool(maxPayload, poolSize, headSn, tailSn, blockList, lastBlock.Contents())
    }

    ghost predicate Valid()
      reads this, lastBlock
    {
      lastBlock.Valid() && PoolInv(View())
    }

    constructor (maxPayload: nat)
      requires maxPayload >= 1
      ensures Valid() && fresh(lastBlock) && View() == InitPool(maxPayload)
    {
      this.maxPayload := maxPayload;
      poolSize, headSn, tailSn, blockList := 0, 1, 1, map[];
      lastBlock := new WriteBuffer.Empty();
      new;
      assert View() == InitPool(maxPayload);
      assert Queued(View()) == [];
    }

    method Add(data: bytes)
      requires Valid()
      modifies this, lastBlock
      ensures Valid() && (lastBlock == old(lastBlock) || fresh(lastBlock))
      ensures View() == Added(old(View()), data)
    {
      hide Queued, Flatten;
      if |data| == 0 {
        return;
      }
      AddAppends(View(), data);
      ghost var result := Added(View(), data);
      poolSize := poolSize + |data|;
      lastBlock.Append(data);
      while lastBlock.stringLen > maxPayload
        invariant lastBlock.Valid() && maxPayload >= 1
        invariant lastBlock == old(lastBlock) || fresh(lastBlock)
        invariant Cut(View()) == result
        decreases lastBlock.stringLen
      {
        var joined := lastBlock.ToBytes();
        blockList := blockList[headSn := joined[..maxPayload]];
        headSn := headSn + 1;
        lastBlock := new WriteBuffer(joined[maxPayload..]);
      }
    }

    method Get() returns (block: bytes, sn: nat)
      requires Valid()
      modifies this
      ensures Valid() && (lastBlock == old(lastBlock) || fresh(lastBlock))
      ensures Got(View(), block, sn) == Taken(old(View()))
    {
      GetTakes(View());
      if tailSn < headSn {
        QueuedHead(View());
        block, sn := blockList[tailSn], tailSn;
        blockList := blockList - {tailSn};
        tailSn := tailSn + 1;
        poolSize := poolSize - |block|;
        return;
      }
      if lastBlock.stringLen > 0 {
        block := lastBlock.ToBytes();
        sn := tailSn;
        lastBlock := new WriteBuffer.Empty();
        headSn, tailSn := headSn + 1, tailSn + 1;
        poolSize := poolSize - |block|;
        return;
      }
      return [], 0;
    }
  }
}
