/** Connection frames end to end: which runs of the tunnel let the far side decode, block by block, the frames written
    on the near side. */
module TunnelFrames {
  import opened Bytes
  import opened Records
  import opened SendBuffer
  import opened Frames
  import opened Window
  import opened Tunnel
  import opened TunnelRuns

  /** What `send_conn_data` adds: one frame, its fields in range. */
  ghost predicate IsFrame(data: bytes) {
    exists f :: InRange(f) && data == BuildOne(f)
  }

  ghost function FrameOf(data: bytes): (f: Record)
    requires IsFrame(data)
    ensures InRange(f) && data == BuildOne(f)
  {
    var f :| InRange(f) && data == BuildOne(f);
    f
  }

  /** The side writes whole frames only. */
  ghost predicate WritesFrames(steps: seq<Step>, side: Side) {
    forall i :: 0 <= i < |steps| && steps[i].Write? && steps[i].side == side ==> IsFrame(steps[i].data)
  }

  ghost function FramesWritten(steps: seq<Step>, side: Side): seq<Record>
    requires WritesFrames(steps, side)
  {
    if steps == [] then []
    else (if steps[0].Write? && steps[0].side == side then [FrameOf(steps[0].data)] else [])
         + FramesWritten(Rest(steps, side), side)
  }

  ghost function Rest(steps: seq<Step>, side: Side): (r: seq<Step>)
    requires WritesFrames(steps, side) && steps != []
    ensures WritesFrames(r, side) && r == steps[1..]
  {
    assert forall i :: 0 <= i < |steps[1..]| ==> steps[1..][i] == steps[i + 1];
    steps[1..]
  }

  /** What one step does to the side's pool: a write sends its frame, and a `get_data` may hand out a block. */
  ghost function PoolStep(t: Tunnel, step: Step, side: Side): seq<FrameOp>
    requires Inv(t) && Enabled(t, step) && WritesFrames([step], side)
  {
    if step.Write? && step.side == side then (assert [step][0] == step; [Send(FrameOf(step.data))])
    else if After(t, step).At(side).out.pool != t.At(side).out.pool then [Hand]
    else []
  }

  /** The sends and hand-outs of a run, in order. */
  ghost function PoolOps(t: Tunnel, steps: seq<Step>, side: Side): seq<FrameOp>
    requires Inv(t) && Legal(t, steps) && WritesFrames(steps, side)
    decreases |steps|
  {
    if steps == [] then []
    else
      assert [steps[0]][0] == steps[0];
      PoolStep(t, steps[0], side) + PoolOps(After(t, steps[0]), Rest(steps, side), side)
  }

  ghost function RunOps(setup: Setup, steps: seq<Step>, side: Side): seq<FrameOp>
    requires LegalRun(setup, steps) && WritesFrames(steps, side)
  {
    NewTunnelInv(setup);
    PoolOps(NewTunnel(setup), steps, side)
  }

  /** The side's pool and the blocks it handed out are as the calls make them. */
  ghost predicate PoolIs(t: Tunnel, side: Side, max: nat, ops: seq<FrameOp>)
    requires max >= 1
  {
    var s, r := t.At(side).out, Run(max, Ops(ops));
    s.pool == r.pool && s.handed == r.blocks
  }

  lemma OpsSnoc(ops: seq<FrameOp>, op: FrameOp)
    ensures Ops(ops + [op]) == Ops(ops) + [match op case Send(f) => OpAdd(BuildOne(f)) case Hand => OpGet]
    ensures FramesOf(ops + [op]) == FramesOf(ops) + (match op case Send(f) => [f] case Hand => [])
  {
    assert (ops + [op])[..|ops|] == ops;
  }

  /** A `get_data` leaves the pool alone or takes its next block. */
  lemma HandsNext(s: Sender, now: real, timeout: real, due: bool)
    requires PoolInv(s.pool) && s.win.wait.Listing()
    ensures var s' := Sends(s, DataSection(s.pool, s.win, now, timeout, due));
      if s'.pool == s.pool then s'.handed == s.handed
      else s'.pool == Taken(s.pool).pool && Taken(s.pool).block != [] && s'.handed == s.handed + [Taken(s.pool).block]
  {
    GetTakes(s.pool);
    ResendKeeps(Sent(s.pool, s.win, [], false), s.win.wait.keys, now, timeout);
    assert s.handed + [] == s.handed;
  }

  lemma PoolIsAfterSend(t: Tunnel, side: Side, max: nat, ops: seq<FrameOp>, data: bytes)
    requires Inv(t) && max >= 1 && PoolIs(t, side, max, ops) && IsFrame(data)
    ensures PoolIs(After(t, Write(side, data)), side, max, ops + [Send(FrameOf(data))])
  {
    hide Direction;
    OpsSnoc(ops, Send(FrameOf(data)));
    RunSnoc(max, Ops(ops), OpAdd(data));
  }

  lemma PoolIsAfterData(t: Tunnel, side: Side, max: nat, ops: seq<FrameOp>)
    requires Inv(t) && max >= 1 && PoolIs(t, side, max, ops) && Enabled(t, SendData(side))
    ensures var t' := After(t, SendData(side));
      PoolIs(t', side, max, if t'.At(side).out.pool == t.At(side).out.pool then ops else ops + [Hand])
  {
    hide Direction, DataSection;
    var s := t.At(side).out;
    EachDirection(t, side);
    SenderShape(s, t.At(side.Other()).into);
    HandsNext(s, t.clock, t.timing.resend, Due(s, t.clock, t.timing.delay));
    OpsSnoc(ops, Hand);
    RunSnoc(max, Ops(ops), OpGet);
  }

  lemma SenderShape(s: Sender, t: Taker)
    requires Direction(s, t)
    ensures PoolInv(s.pool) && s.win.wait.Listing()
  {
    ShapeIsValid(s.win, s.pool.tail);
  }

  lemma OthersLeavePool(t: Tunnel, step: Step, side: Side)
    requires Inv(t) && Enabled(t, step)
    requires !((step.Write? || step.SendData?) && step.side == side)
    ensures After(t, step).At(side).out.pool == t.At(side).out.pool
    ensures After(t, step).At(side).out.handed == t.At(side).out.handed
  {
    hide Direction, Parse, Receiver.Put, DataSection, Acknowledge, Receiver.Unacked, Added;
  }

  lemma StepPoolIs(t: Tunnel, step: Step, side: Side, max: nat, ops: seq<FrameOp>)
    requires Inv(t) && Enabled(t, step) && max >= 1 && PoolIs(t, side, max, ops) && WritesFrames([step], side)
    ensures PoolIs(After(t, step), side, max, ops + PoolStep(t, step, side))
  {
    hide Inv, Enabled, After;
    assert [step][0] == step;
    assert ops + [] == ops;
    if step.Write? && step.side == side {
      PoolIsAfterSend(t, side, max, ops, step.data);
    } else if step.SendData? && step.side == side {
      PoolIsAfterData(t, side, max, ops);
    } else {
      OthersLeavePool(t, step, side);
    }
  }

  lemma {:induction false} RunPoolIs(t: Tunnel, steps: seq<Step>, side: Side, max: nat, ops: seq<FrameOp>)
    requires Inv(t) && Legal(t, steps) && WritesFrames(steps, side) && max >= 1 && PoolIs(t, side, max, ops)
    ensures PoolIs(Execute(t, steps), side, max, ops + PoolOps(t, steps, side))
    decreases |steps|
  {
    hide Inv, Enabled, After, PoolIs, PoolStep;
    if steps == [] {
      assert ops + [] == ops;
    } else {
      assert [steps[0]][0] == steps[0];
      StepPoolIs(t, steps[0], side, max, ops);
      var now, later := PoolStep(t, steps[0], side), PoolOps(After(t, steps[0]), Rest(steps, side), side);
      RunPoolIs(After(t, steps[0]), Rest(steps, side), side, max, ops + now);
      assert ops + now + later == ops + (now + later);
    }
  }

  lemma {:induction false} FramesOfConcat(a: seq<FrameOp>, b: seq<FrameOp>)
    ensures FramesOf(a + b) == FramesOf(a) + FramesOf(b)
    decreases |b|
  {
    if b == [] {
      assert a + b == a;
    } else {
      assert (a + b)[..|a + b| - 1] == a + b[..|b| - 1];
      FramesOfConcat(a, b[..|b| - 1]);
    }
  }

  lemma NoOps()
    ensures FramesOf([]) == []
  {
  }

  lemma StepCarriesFrame(t: Tunnel, step: Step, side: Side)
    requires Inv(t) && Enabled(t, step) && WritesFrames([step], side)
    ensures var ops := PoolStep(t, step, side);
      && AllSendable(ops)
      && if step.Write? && step.side == side then [step][0] == step && FramesOf(ops) == [FrameOf(step.data)]
         else FramesOf(ops) == []
  {
    hide Inv, Enabled, After;
    var ops := PoolStep(t, step, side);
    assert [step][0] == step;
    assert ops != [] ==> ops[..0] == [];
  }

  /** The frames of the calls are the frames written. */
  lemma {:induction false} OpsCarryFrames(t: Tunnel, steps: seq<Step>, side: Side)
    requires Inv(t) && Legal(t, steps) && WritesFrames(steps, side)
    ensures FramesOf(PoolOps(t, steps, side)) == FramesWritten(steps, side)
    ensures AllSendable(PoolOps(t, steps, side))
    decreases |steps|
  {
    hide Inv, Enabled, After, PoolStep, FramesOf;
    NoOps();
    if steps != [] {
      assert [steps[0]][0] == steps[0];
      var now, later := PoolStep(t, steps[0], side), PoolOps(After(t, steps[0]), Rest(steps, side), side);
      OpsCarryFrames(After(t, steps[0]), Rest(steps, side), side);
      FramesOfConcat(now, later);
      StepCarriesFrame(t, steps[0], side);
    }
  }

  lemma RunFacts(setup: Setup, steps: seq<Step>, side: Side)
    requires LegalRun(setup, steps) && WritesFrames(steps, side)
    ensures PoolIs(EndOf(setup, steps), side, setup.max, RunOps(setup, steps, side))
    ensures FramesOf(RunOps(setup, steps, side)) == FramesWritten(steps, side)
      && AllSendable(RunOps(setup, steps, side))
  {
    hide Inv;
    NewTunnelInv(setup);
    var t, ops := NewTunnel(setup), RunOps(setup, steps, side);
    assert PoolIs(t, side, setup.max, []);
    RunPoolIs(t, steps, side, setup.max, []);
    assert [] + ops == ops;
    OpsCarryFrames(t, steps, side);
  }

  /** In every run in which the side writes frames that fit when they are written, what the peer has released so far
      decodes block by block to a prefix of the frames written. */
  lemma PeerDecodesPrefix(setup: Setup, steps: seq<Step>, side: Side)
    requires LegalRun(setup, steps) && WritesFrames(steps, side)
    requires AllFit(setup.max, RunOps(setup, steps, side))
    ensures var p := ParseEach(EndOf(setup, steps).At(side.Other()).into.released);
      p.complete && p.records <= FramesWritten(steps, side)
  {
    hide Inv, Direction, Legal, EndOf, AllFit, AllSendable, ParseEach, FramesOf, FramesWritten, RunOps;
    var t := EndOf(setup, steps);
    RunFacts(setup, steps, side);
    EachDirection(t, side);
    ReleasedAreHanded(t.At(side).out, t.At(side.Other()).into);
    FittingFramesArriveInOrder(setup.max, RunOps(setup, steps, side), t.At(side.Other()).into.recv.next - 1);
  }

  /** With everything written released, nothing is left in the pool and every block was released. */
  lemma AllReleased(s: Sender, t: Taker)
    requires Direction(s, t) && Flatten(t.released) == s.added
    ensures t.released == s.handed && Queued(s.pool) == []
  {
    ReleasedAreHanded(s, t);
    var n := t.recv.next - 1;
    PrefixShorter(s.handed, n);
    assert s.handed[..|s.handed|] == s.handed;
  }

  /** When every byte written has been released, the peer has decoded exactly the frames written if and only if each
      of them fitted when it was written. */
  lemma PeerDecodesAllIffFit(setup: Setup, steps: seq<Step>, side: Side)
    requires LegalRun(setup, steps) && WritesFrames(steps, side)
    requires Flatten(EndOf(setup, steps).At(side.Other()).into.released) == Written(steps, side)
    ensures ParseEach(EndOf(setup, steps).At(side.Other()).into.released) == Parsed(FramesWritten(steps, side), true)
       <==> AllFit(setup.max, RunOps(setup, steps, side))
  {
    hide Inv, Direction, Legal, AllFit, ParseEach, Written;
    var t := EndOf(setup, steps);
    RunFacts(setup, steps, side);
    EachDirection(t, side);
    NewTunnelInv(setup);
    AddedIsWritten(NewTunnel(setup), steps, side);
    assert [] + Written(steps, side) == Written(steps, side);
    AllReleased(t.At(side).out, t.At(side.Other()).into);
    FramesSurviveIffFit(setup.max, RunOps(setup, steps, side));
  }
}
