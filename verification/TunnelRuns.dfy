/** What holds in every run of the two endpoints, and what remains possible from every state of a run. */
module TunnelRuns {
  import opened Bytes
  import opened Records
  import opened SendBuffer
  import opened Receiver
  import opened Window
  import opened Tunnel

  /** `max_payload`, the timing of both ends, and the time at the start. */
  datatype Setup = Setup(max: nat, timing: Timing, clock: real)

  function NewEndpoint(max: nat): Endpoint {
    Endpoint(Sender(InitPool(max), INIT_WINDOW, [], [], {}, 0.0), Taker(INIT_RECV, [], map[], {}))
  }

  function NewTunnel(setup: Setup): Tunnel {
    Tunnel(NewEndpoint(setup.max), NewEndpoint(setup.max), setup.clock, setup.timing)
  }

  lemma NewTunnelInv(setup: Setup)
    requires setup.max >= 1
    ensures Inv(NewTunnel(setup))
  {
    assert Queued(InitPool(setup.max)) == [];
  }

  /** Every step of the run is possible when its turn comes. */
  ghost predicate Legal(t: Tunnel, steps: seq<Step>)
    requires Inv(t)
    decreases |steps|
  {
    steps == [] ||
    (Enabled(t, steps[0]) &&
     Legal(After(t, steps[0]), steps[1..]))
  }

  ghost function After(t: Tunnel, step: Step): (r: Tunnel)
    requires Inv(t) && Enabled(t, step)
    ensures Inv(r)
  {
    ApplyKeeps(t, step);
    Apply(t, step)
  }

  ghost function Execute(t: Tunnel, steps: seq<Step>): (r: Tunnel)
    requires Inv(t) && Legal(t, steps)
    ensures Inv(r)
    decreases |steps|
  {
    if steps == [] then t else Execute(After(t, steps[0]), steps[1..])
  }

  /** A run from two new endpoints. */
  ghost predicate LegalRun(setup: Setup, steps: seq<Step>) {
    setup.max >= 1 && (NewTunnelInv(setup); Legal(NewTunnel(setup), steps))
  }

  ghost function EndOf(setup: Setup, steps: seq<Step>): (t: Tunnel)
    requires LegalRun(setup, steps)
    ensures Inv(t)
  {
    NewTunnelInv(setup);
    Execute(NewTunnel(setup), steps)
  }

  /** What was written on one side, in order. */
  function Written(steps: seq<Step>, side: Side): bytes {
    if steps == [] then [] else WrittenBy(steps[0], side) + Written(steps[1..], side)
  }

  function WrittenBy(step: Step, side: Side): bytes {
    if step.Write? && step.side == side then step.data else []
  }

  lemma StepAdds(t: Tunnel, step: Step, side: Side)
    requires Inv(t) && Enabled(t, step)
    ensures After(t, step).At(side).out.added == t.At(side).out.added + WrittenBy(step, side)
  {
    hide Direction, Parse, Put, DataSection, Acknowledge, Unacked, Added;
    var was := t.At(side).out.added;
    assert was + [] == was;
    match step
    case Tick(_) =>
    case Write(_, _) =>
    case SendData(_) =>
    case SendAck(_) =>
    case DeliverBlock(_, _, _) =>
    case DeliverAck(_, _) =>
    case DeliverReport(_, _, _, _, _) =>
  }

  lemma Assoc(a: bytes, b: bytes, c: bytes)
    ensures a + b + c == a + (b + c)
  {
  }

  lemma {:induction false} AddedIsWritten(t: Tunnel, steps: seq<Step>, side: Side)
    requires Inv(t) && Legal(t, steps)
    ensures Execute(t, steps).At(side).out.added == t.At(side).out.added + Written(steps, side)
    decreases |steps|
  {
    hide Inv, Enabled, After, WrittenBy;
    var was := t.At(side).out.added;
    if steps == [] {
      assert was + [] == was;
    } else {
      StepAdds(t, steps[0], side);
      AddedIsWritten(After(t, steps[0]), steps[1..], side);
      Assoc(was, WrittenBy(steps[0], side), Written(steps[1..], side));
    }
  }

  lemma {:induction false} FirstsAreOriginals(m: map<nat, bytes>, handed: seq<bytes>, n: nat)
    requires 1 <= n <= |handed| + 1
    requires forall k :: 1 <= k < n ==> k in m && m[k] == handed[k - 1]
    ensures Firsts(m, n) == handed[..n - 1]
  {
    if n > 1 {
      FirstsAreOriginals(m, handed, n - 1);
      assert handed[..n - 1] == handed[..n - 2] + [handed[n - 2]];
    }
  }

  lemma PrefixShorter(blocks: seq<bytes>, n: nat)
    requires NoneEmpty(blocks) && n <= |blocks|
    ensures |Flatten(blocks[..n])| <= |Flatten(blocks)|
    ensures n < |blocks| ==> |Flatten(blocks[..n])| < |Flatten(blocks)|
  {
    assert blocks == blocks[..n] + blocks[n..];
    FlattenConcat(blocks[..n], blocks[n..]);
    if n < |blocks| {
      assert blocks[n..][0] == blocks[n];
    }
  }

  lemma ReleasedAreHanded(s: Sender, t: Taker)
    requires Direction(s, t)
    ensures 1 <= t.recv.next <= |s.handed| + 1 && t.released == s.handed[..t.recv.next - 1]
  {
    if t.recv.next > 1 {
      assert t.recv.next - 1 in t.seen;
    }
    FirstsAreOriginals(t.seen, s.handed, t.recv.next);
  }

  lemma EachDirection(t: Tunnel, side: Side)
    requires Inv(t)
    ensures Direction(t.At(side).out, t.At(side.Other()).into)
  {
  }

  lemma ReleasedIsPrefix(s: Sender, t: Taker)
    requires Direction(s, t)
    ensures Flatten(t.released) <= s.added
  {
    ReleasedAreHanded(s, t);
    FlattenPrefix(s.handed, t.recv.next - 1);
  }

  /** End-to-end safety: in every run over a network that loses, repeats, delays and reorders, the bytes one side has
      released, joined in release order, are a prefix of the bytes written on the other side. */
  lemma DeliveredIsPrefixOfWritten(setup: Setup, steps: seq<Step>, side: Side)
    requires LegalRun(setup, steps)
    ensures Flatten(EndOf(setup, steps).At(side.Other()).into.released) <= Written(steps, side)
  {
    hide Inv, Direction, Enabled, After, Written;
    NewTunnelInv(setup);
    AddedIsWritten(NewTunnel(setup), steps, side);
    var t := EndOf(setup, steps);
    EachDirection(t, side);
    ReleasedIsPrefix(t.At(side).out, t.At(side.Other()).into);
  }

  /** Number `k` is received by the peer or held here with the bytes it was handed out with; if it counts as acked it
      was received; and if the peer released it, it released those bytes in its place. */
  ghost predicate Safe(s: Sender, t: Taker, k: nat)
    requires 1 <= k <= |s.handed|
  {
    && (IsReceived(t.recv, k)
      || (k in s.win.wait.at && s.win.wait.at[k].Held? && s.win.wait.at[k].payload == s.handed[k - 1]))
    && (Passed(s.win, k) ==> IsReceived(t.recv, k))
    && (k < t.recv.next ==> k <= |t.released| && t.released[k - 1] == s.handed[k - 1])
  }

  lemma DirectionIsSafe(s: Sender, t: Taker, k: nat)
    requires Direction(s, t) && 1 <= k <= |s.handed|
    ensures Safe(s, t, k)
  {
    ReleasedAreHanded(s, t);
  }

  /** No loss and no false ack, in every run and for every number handed out. */
  lemma NothingIsLost(setup: Setup, steps: seq<Step>, side: Side, k: nat)
    requires LegalRun(setup, steps)
    requires 1 <= k <= |EndOf(setup, steps).At(side).out.handed|
    ensures Safe(EndOf(setup, steps).At(side).out, EndOf(setup, steps).At(side.Other()).into, k)
  {
    hide Inv, Direction, Legal, Safe;
    var t := EndOf(setup, steps);
    EachDirection(t, side);
    DirectionIsSafe(t.At(side).out, t.At(side.Other()).into, k);
  }

  /** Exactly the numbers from the continuous ack to the next new one, in order, the lowest, if any, not acked. */
  ghost predicate InShape(w: Window, tail: nat) {
    && w.cont < tail
    && w.wait.keys == Span(w.cont + 1, tail)
    && (forall k :: k in w.wait.at <==> w.cont < k < tail)
    && (w.cont + 1 < tail ==> w.wait.at[w.cont + 1] != Acked)
  }

  lemma DirectionInShape(s: Sender, t: Taker)
    requires Direction(s, t)
    ensures InShape(s.win, s.pool.tail)
  {
  }

  lemma WindowAlwaysInShape(setup: Setup, steps: seq<Step>, side: Side)
    requires LegalRun(setup, steps)
    ensures InShape(EndOf(setup, steps).At(side).out.win, EndOf(setup, steps).At(side).out.pool.tail)
  {
    hide Inv, Direction, Legal, InShape;
    var t := EndOf(setup, steps);
    EachDirection(t, side);
    DirectionInShape(t.At(side).out, t.At(side.Other()).into);
  }

  /** Since when bytes wait in the side's pool: the time of the write that found it empty, 0 while it is. */
  ghost function WaitingSince(t: Tunnel, steps: seq<Step>, side: Side, since: real): real
    requires Inv(t) && Legal(t, steps)
    decreases |steps|
  {
    if steps == [] then since
    else
      var t' := After(t, steps[0]);
      WaitingSince(t', steps[1..], side,
        if t'.At(side).out.pool.size == 0 then 0.0 else if t.At(side).out.pool.size == 0 then t.clock else since)
  }

  ghost predicate NoEmptyWrite(steps: seq<Step>) {
    forall i :: 0 <= i < |steps| && steps[i].Write? ==> steps[i].data != []
  }

  lemma StepWaits(t: Tunnel, step: Step, side: Side)
    requires Inv(t) && Enabled(t, step) && t.clock > 0.0 && (step.Write? ==> step.data != [])
    requires t.At(side).out.pool.size == 0 <==> t.At(side).out.oldest == 0.0
    ensures var t' := After(t, step); var s, s' := t.At(side).out, t'.At(side).out;
      && t'.clock >= t.clock && (s'.pool.size == 0 <==> s'.oldest == 0.0)
      && s'.oldest == if s'.pool.size == 0 then 0.0 else if s.pool.size == 0 then t.clock else s.oldest
  {
    hide Direction, Parse, Put, Resend, Acknowledge, Unacked, Build, Queued, Added;
    match step {
      case Write(w, data) => WriteFills(t, w, data);
      case SendData(w) => SendTakes(t, w);
      case _ =>
    }
  }

  lemma WriteFills(t: Tunnel, side: Side, data: bytes)
    requires Inv(t) && data != []
    ensures PoolInv(t.At(side).out.pool) && Added(t.At(side).out.pool, data).size == t.At(side).out.pool.size + |data|
  {
    EachDirection(t, side);
    AddAppends(t.At(side).out.pool, data);
  }

  lemma SendTakes(t: Tunnel, side: Side)
    requires Inv(t) && Enabled(t, SendData(side))
    ensures var p := t.At(side).out.pool;
      && PoolInv(p) && t.At(side).out.win.wait.Listing()
      && (Section(t, side).pool == p || (p.size > 0 && Section(t, side).pool == Taken(p).pool))
  {
    hide Build, Queued;
    EachDirection(t, side);
    ShapeIsValid(t.At(side).out.win, t.At(side).out.pool.tail);
    var s := t.At(side).out;
    var n := DataSectionExactly(s.pool, s.win, t.clock, t.timing.resend, Due(s, t.clock, t.timing.delay));
  }

  lemma {:induction false} RunWaits(t: Tunnel, steps: seq<Step>, side: Side)
    requires Inv(t) && Legal(t, steps) && t.clock > 0.0 && NoEmptyWrite(steps)
    requires t.At(side).out.pool.size == 0 <==> t.At(side).out.oldest == 0.0
    ensures Execute(t, steps).At(side).out.oldest == WaitingSince(t, steps, side, t.At(side).out.oldest)
    decreases |steps|
  {
    hide Inv, Enabled, After;
    if steps != [] {
      StepWaits(t, steps[0], side);
      assert NoEmptyWrite(steps[1..]);
      RunWaits(After(t, steps[0]), steps[1..], side);
    }
  }

  /** `oldest_received_time` is the time since which bytes wait, in every run with a clock that starts after 0. */
  lemma OldestIsWaitingSince(setup: Setup, steps: seq<Step>, side: Side)
    requires LegalRun(setup, steps) && setup.clock > 0.0 && NoEmptyWrite(steps)
    ensures Inv(NewTunnel(setup)) && Legal(NewTunnel(setup), steps)
    ensures EndOf(setup, steps).At(side).out.oldest == WaitingSince(NewTunnel(setup), steps, side, 0.0)
  {
    NewTunnelInv(setup);
    RunWaits(NewTunnel(setup), steps, side);
  }

  /** In every run, while nothing in the window is overdue, the next section takes a block from the pool if and only if
      more than a full one is queued, or anything is and it has waited longer than the delay. */
  lemma BlockLeavesIffDue(setup: Setup, steps: seq<Step>, side: Side)
    requires LegalRun(setup, steps) && setup.clock > 0.0 && NoEmptyWrite(steps)
    requires var t := EndOf(setup, steps); var w := t.At(side).out.win;
      forall k :: k in w.wait.at ==> !Overdue(w, k, t.clock, t.timing.resend)
    ensures Inv(NewTunnel(setup)) && Legal(NewTunnel(setup), steps)
    ensures var t := EndOf(setup, steps); var p := t.At(side).out.pool;
      && PoolInv(p) && t.At(side).out.win.wait.Listing()
      && Section(t, side).buf == (
           if p.size > p.max || (p.size > 0
              && t.clock - WaitingSince(NewTunnel(setup), steps, side, 0.0) > t.timing.delay)
           then [Record(p.tail, Taken(p).block)] else [])
  {
    hide Build, Queued, Inv, Legal, Direction;
    OldestIsWaitingSince(setup, steps, side);
    var t := EndOf(setup, steps);
    NothingOverdue(t, side);
  }

  lemma NothingOverdue(t: Tunnel, side: Side)
    requires Inv(t)
    requires var w := t.At(side).out.win; forall k :: k in w.wait.at ==> !Overdue(w, k, t.clock, t.timing.resend)
    ensures var p := t.At(side).out.pool;
      && PoolInv(p) && t.At(side).out.win.wait.Listing()
      && Section(t, side).buf == (
           if p.size > p.max || (p.size > 0 && t.clock - t.At(side).out.oldest > t.timing.delay)
           then [Record(p.tail, Taken(p).block)] else [])
  {
    hide Build, Queued, OverdueIn;
    EachDirection(t, side);
    ShapeIsValid(t.At(side).out.win, t.At(side).out.pool.tail);
    var s := t.At(side).out;
    var n := DataSectionExactly(s.pool, s.win, t.clock, t.timing.resend, Due(s, t.clock, t.timing.delay));
    NoneOverdueIn(s.win, s.win.wait.keys, t.clock, t.timing.resend);
  }
}
