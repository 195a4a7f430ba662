/** Two endpoints joined by a network that keeps every section ever sent and may deliver any of them, any number of
    times, in any order, or never. */
module Tunnel {
  import opened Bytes
  import opened Records
  import opened SendBuffer
  import opened Receiver
  import opened Window

  /** `resend_timeout` and `send_delay`. */
  datatype Timing = Timing(resend: real, delay: real)

  /** The send side, with all it was given, the blocks handed out so far, every data section sent, and the time the
      oldest byte of the pool came in. */
  datatype Sender = Sender(pool: Pool, win: Window, added: bytes, handed: seq<bytes>, sections: set<bytes>,
    oldest: real)

  /** The receive side, with the blocks released so far, the first data of every number that arrived, and every ack
      section sent. */
  datatype Taker = Taker(recv: Recv, released: seq<bytes>, seen: map<nat, bytes>, acks: set<bytes>)

  datatype Endpoint = Endpoint(out: Sender, into: Taker)

  datatype Side = Client | Server {
    function Other(): Side {
      if this == Client then Server else Client
    }
  }

  /** Both ends and the time, which never goes back. */
  datatype Tunnel = Tunnel(client: Endpoint, server: Endpoint, clock: real, timing: Timing) {
    function At(s: Side): Endpoint {
      if s == Client then client else server
    }

    function With(s: Side, e: Endpoint): Tunnel {
      if s == Client then this.(client := e) else this.(server := e)
    }
  }

  /** Time passes, or a side acts; `from` names the side whose section is delivered to the other. */
  datatype Step =
    | Tick(to: real)
    | Write(side: Side, data: bytes)
    | SendData(side: Side)
    | SendAck(side: Side)
    | DeliverBlock(from: Side, section: bytes, i: nat)
    | DeliverAck(from: Side, section: bytes)
    | DeliverReport(side: Side, sn: nat, sentAt: real, serverTime: real, retry: real)

  /** One direction of the tunnel. */
  ghost predicate Direction(s: Sender, t: Taker) {
    && SendSide(s.pool, s.win, s.handed) && NoneEmpty(s.handed) && NoneLonger(s.handed, s.pool.max)
    && Flatten(s.handed) + Queued(s.pool) == s.added
    && TakesOriginals(t, s.handed)
    && SectionsCarry(s.sections, s.handed)
    && (forall a :: a in t.acks ==> AckedBefore(a, t.recv))
    && AcksTrue(s.win, t.recv)
  }

  ghost predicate NoneEmpty(blocks: seq<bytes>) {
    forall i :: 0 <= i < |blocks| ==> blocks[i] != []
  }

  ghost predicate NoneLonger(blocks: seq<bytes>, max: nat) {
    forall i :: 0 <= i < |blocks| ==> |blocks[i]| <= max
  }

  /** Every record of every section on the network is an original block. */
  ghost predicate SectionsCarry(sections: set<bytes>, handed: seq<bytes>) {
    forall b :: b in sections ==> CarriesOriginals(Parse(b).records, handed)
  }

  /** What the sender takes for acked was received, and its window starts at a block not acked. */
  ghost predicate AcksTrue(w: Window, r: Recv) {
    (forall k :: Passed(w, k) ==> IsReceived(r, k)) && !Passed(w, w.cont + 1)
  }

  /** The receiver is as the arrivals make it, and only original blocks have arrived. */
  ghost predicate TakesOriginals(t: Taker, handed: seq<bytes>) {
    && Matches(History(t.recv, t.released), t.seen) && t.recv.blocks.Valid()
    && forall k :: k in t.seen ==> 1 <= k <= |handed| && t.seen[k] == handed[k - 1]
  }

  /** The ack was built by this receiver at some earlier time. */
  ghost predicate AckedBefore(a: bytes, r: Recv) {
    exists r0 :: AckInRange(r0) && a == AckSection(r0) && forall k :: IsReceived(r0, k) ==> IsReceived(r, k)
  }

  ghost predicate Inv(t: Tunnel) {
    Direction(t.client.out, t.server.into) && Direction(t.server.out, t.client.into)
  }

  /** The length of the ack section fits its field: 16 bits in a request, 32 bits in a reply. */
  predicate AckFits(from: Side, r: Recv)
    requires r.next >= 1
  {
    |AckSection(r)| < if from == Client then U16 else U32
  }

  /** What the fixed-width fields and the network allow. */
  ghost predicate Enabled(t: Tunnel, step: Step)
    requires Inv(t)
  {
    match step
    case Tick(to) => to >= t.clock
    case Write(_, _) => true
    case SendData(side) =>
      ShapeIsValid(t.At(side).out.win, t.At(side).out.pool.tail);
      AllInRange(Section(t, side).buf)
    case SendAck(side) => AckInRange(t.At(side).into.recv) && AckFits(side, t.At(side).into.recv)
    case DeliverBlock(from, section, i) => section in t.At(from).out.sections && i < |Parse(section).records|
    case DeliverAck(from, section) => section in t.At(from).into.acks
    case DeliverReport(_, _, _, _, _) => true
  }

  /** `time.time() - oldest_received_time > send_delay`. */
  predicate Due(s: Sender, clock: real, delay: real) {
    clock - s.oldest > delay
  }

  /** What `get_data` makes of the side's pool and window now. */
  function Section(t: Tunnel, side: Side): Sent
    requires PoolInv(t.At(side).out.pool) && t.At(side).out.win.wait.Listing()
  {
    var s := t.At(side).out;
    DataSection(s.pool, s.win, t.clock, t.timing.resend, Due(s, t.clock, t.timing.delay))
  }

  function Writes(s: Sender, data: bytes, clock: real): Sender
    requires PoolInv(s.pool)
  {
    s.(pool := Added(s.pool, data), added := s.added + data, oldest := if s.oldest == 0.0 then clock else s.oldest)
  }

  /** The sender after it sent the section `d`. */
  function Sends(s: Sender, d: Sent): Sender
    requires PoolInv(s.pool)
  {
    s.(pool := d.pool, win := d.win, handed := s.handed + NewlyHanded(s.pool, d),
      sections := s.sections + {Build(d.buf)},
      oldest := OldestAfter(s.oldest, s.pool, d))
  }

  function Takes(t: Taker, sn: nat, data: bytes): Taker {
    var p := Put(t.recv, sn, data);
    t.(recv := p.recv, released := t.released + p.blocks, seen := Seen(t.seen, sn, data))
  }

  ghost function Apply(t: Tunnel, step: Step): Tunnel
    requires Inv(t) && Enabled(t, step)
  {
    match step
    case Tick(to) => t.(clock := to)
    case Write(side, data) =>
      var e := t.At(side);
      t.With(side, e.(out := Writes(e.out, data, t.clock)))
    case SendData(side) =>
      var e := t.At(side);
      ShapeIsValid(e.out.win, e.out.pool.tail);
      t.With(side, e.(out := Sends(e.out, Section(t, side))))
    case SendAck(side) =>
      var e := t.At(side);
      t.With(side, e.(into := e.into.(acks := e.into.acks + {AckSection(e.into.recv)})))
    case DeliverBlock(from, section, i) =>
      var e, r := t.At(from.Other()), Parse(section).records[i];
      t.With(from.Other(), e.(into := Takes(e.into, r.id, r.payload)))
    case DeliverAck(from, section) =>
      var e := t.At(from.Other());
      ShapeIsValid(e.out.win, e.out.pool.tail);
      t.With(from.Other(), e.(out := e.out.(win := Acknowledge(e.out.win, section))))
    case DeliverReport(side, sn, sentAt, now, retry) =>
      var e := t.At(side);
      t.With(side, e.(into := e.into.(recv := Unacked(e.into.recv, sn, sentAt, now, retry))))
  }

  lemma WriteKeeps(s: Sender, t: Taker, data: bytes, clock: real)
    requires Direction(s, t)
    ensures Direction(Writes(s, data, clock), t)
  {
    AddAppends(s.pool, data);
    assert Flatten(s.handed) + (Queued(s.pool) + data) == Flatten(s.handed) + Queued(s.pool) + data;
  }

  lemma CarriedLater(rs: seq<Record>, handed: seq<bytes>, more: seq<bytes>)
    requires CarriesOriginals(rs, handed)
    ensures CarriesOriginals(rs, handed + more)
  {
  }

  lemma TakenLater(t: Taker, handed: seq<bytes>, more: seq<bytes>)
    requires TakesOriginals(t, handed)
    ensures TakesOriginals(t, handed + more)
  {
  }

  lemma SectionsKeep(sections: set<bytes>, handed: seq<bytes>, more: seq<bytes>, buf: seq<Record>)
    requires SectionsCarry(sections, handed) && AllInRange(buf) && CarriesOriginals(buf, handed + more)
    ensures SectionsCarry(sections + {Build(buf)}, handed + more)
  {
    ParseBuild(buf);
    forall b | b in sections + {Build(buf)} ensures CarriesOriginals(Parse(b).records, handed + more) {
      if b in sections {
        CarriedLater(Parse(b).records, handed, more);
      }
    }
  }

  /** Resending and handing out acks nothing. */
  lemma PassedKept(w: Window, w': Window, tail: nat, tail': nat, r: Recv)
    requires AcksTrue(w, r)
    requires WindowShape(w, tail) && WindowShape(w', tail') && w'.cont == w.cont && SameAcked(w, w')
    requires tail' == tail || (tail' == tail + 1 && w'.wait.at[tail] != Acked)
    ensures AcksTrue(w', r)
  {
    forall k: nat | Passed(w', k) ensures Passed(w, k) {
      if k > w.cont {
        assert k in w.wait.at || k == tail;
      }
    }
  }

  lemma SizesConcat(a: seq<bytes>, b: seq<bytes>, max: nat)
    requires NoneEmpty(a) && NoneLonger(a, max) && NoneEmpty(b) && NoneLonger(b, max)
    ensures NoneEmpty(a + b) && NoneLonger(a + b, max)
  {
  }

  /** Any outcome of `get_data` that hands out `more` and otherwise only resends. */
  lemma HandOutKeeps(s: Sender, t: Taker, d: Sent, more: seq<bytes>)
    requires Direction(s, t)
    requires SendSide(d.pool, d.win, s.handed + more) && AllInRange(d.buf) && CarriesOriginals(d.buf, s.handed + more)
    requires SameAcked(s.win, d.win) && d.win.cont == s.win.cont
    requires d.pool.tail == s.pool.tail || (d.pool.tail == s.pool.tail + 1 && d.win.wait.at[s.pool.tail] != Acked)
    requires Queued(s.pool) == Flatten(more) + Queued(d.pool) && d.pool.max == s.pool.max
    requires NoneEmpty(more) && NoneLonger(more, s.pool.max)
    ensures var sections := s.sections + {Build(d.buf)};
      Direction(s.(pool := d.pool, win := d.win, handed := s.handed + more, sections := sections,
        oldest := OldestAfter(s.oldest, s.pool, d)), t)
  {
    hide Queued, Parse, AckedBefore, IsReceived, NoneEmpty, NoneLonger, SectionsCarry, AcksTrue, TakesOriginals;
    SizesConcat(s.handed, more, s.pool.max);
    SectionsKeep(s.sections, s.handed, more, d.buf);
    PassedKept(s.win, d.win, s.pool.tail, d.pool.tail, t.recv);
    TakenLater(t, s.handed, more);
    FlattenConcat(s.handed, more);
    assert Flatten(s.handed) + (Flatten(more) + Queued(d.pool)) == Flatten(s.handed) + Flatten(more) + Queued(d.pool);
  }

  lemma SendDataKeeps(s: Sender, t: Taker, now: real, timeout: real, due: bool)
    requires Direction(s, t) && s.win.wait.Listing()
    requires AllInRange(DataSection(s.pool, s.win, now, timeout, due).buf)
    ensures Direction(Sends(s, DataSection(s.pool, s.win, now, timeout, due)), t)
  {
    var d := DataSection(s.pool, s.win, now, timeout, due);
    DataSectionCarries(s.pool, s.win, s.handed, now, timeout, due);
    HandOutKeeps(s, t, d, NewlyHanded(s.pool, d));
  }

  lemma SendAckKeeps(s: Sender, t: Taker)
    requires Direction(s, t) && AckInRange(t.recv)
    ensures Direction(s, t.(acks := t.acks + {AckSection(t.recv)}))
  {
    var t' := t.(acks := t.acks + {AckSection(t.recv)});
    forall a | a in t'.acks ensures AckedBefore(a, t.recv) {
      if a !in t.acks {
        assert a == AckSection(t.recv) && AckInRange(t.recv);
      }
    }
  }

  /** More received: older acks stay sound. */
  lemma AckStaysSound(a: bytes, r: Recv, r': Recv)
    requires AckedBefore(a, r)
    requires forall k :: IsReceived(r, k) ==> IsReceived(r', k)
    ensures AckedBefore(a, r')
  {
    var r0 :| AckInRange(r0) && a == AckSection(r0) && forall k :: IsReceived(r0, k) ==> IsReceived(r, k);
    assert AckInRange(r0) && a == AckSection(r0) && forall k :: IsReceived(r0, k) ==> IsReceived(r', k);
  }

  lemma TakeKeepsOriginals(t: Taker, handed: seq<bytes>, sn: nat, data: bytes)
    requires TakesOriginals(t, handed) && 1 <= sn <= |handed| && data == handed[sn - 1]
    ensures TakesOriginals(Takes(t, sn, data), handed)
  {
    ArriveMatches(History(t.recv, t.released), t.seen, sn, data);
    PutValid(t.recv, sn, data);
  }

  lemma TakeKeeps(s: Sender, t: Taker, section: bytes, i: nat)
    requires Direction(s, t) && section in s.sections && i < |Parse(section).records|
    ensures var r := Parse(section).records[i]; Direction(s, Takes(t, r.id, r.payload))
  {
    var r := Parse(section).records[i];
    var t' := Takes(t, r.id, r.payload);
    assert CarriesOriginals(Parse(section).records, s.handed);
    TakeKeepsOriginals(t, s.handed, r.id, r.payload);
    forall k: nat ensures IsReceived(t.recv, k) ==> IsReceived(t'.recv, k) {
      PutReceives(t.recv, r.id, r.payload, k);
    }
    forall a | a in t'.acks ensures AckedBefore(a, t'.recv) {
      AckStaysSound(a, t.recv, t'.recv);
    }
  }

  /** Learning from any earlier state of the peer is sound. */
  lemma LearnedIsTrue(w: Window, w': Window, tail: nat, r0: Recv, r: Recv, handed: seq<bytes>)
    requires Learned(w, w', tail, r0) && WindowShape(w, tail)
    requires HoldsOriginals(w, handed) && |handed| == tail - 1 && AcksTrue(w, r)
    requires forall k :: IsReceived(r0, k) ==> IsReceived(r, k)
    ensures HoldsOriginals(w', handed) && AcksTrue(w', r)
  {
    forall k | k in w'.wait.at && w'.wait.at[k].Held?
      ensures 1 <= k <= |handed| && w'.wait.at[k].payload == handed[k - 1]
    {
      assert !Passed(w', k);
    }
    forall k: nat | Passed(w', k) ensures IsReceived(r, k) {
      if w.cont < k {
        assert k < tail;
      } else {
        assert Passed(w, k);
      }
    }
  }

  lemma AckKeeps(s: Sender, t: Taker, ack: bytes)
    requires Direction(s, t) && ack in t.acks && s.win.wait.Listing()
    ensures Direction(s.(win := Acknowledge(s.win, ack)), t)
  {
    assert AckedBefore(ack, t.recv);
    var r0 :| AckInRange(r0) && ack == AckSection(r0) && forall k :: IsReceived(r0, k) ==> IsReceived(t.recv, k);
    AckExact(s.win, s.pool.tail, r0);
    LearnedIsTrue(s.win, Acknowledge(s.win, ack), s.pool.tail, r0, t.recv, s.handed);
  }

  lemma ReportKeeps(s: Sender, t: Taker, sn: nat, sentAt: real, now: real, retry: real)
    requires Direction(s, t)
    ensures Direction(s, t.(recv := Unacked(t.recv, sn, sentAt, now, retry)))
  {
    var r := Unacked(t.recv, sn, sentAt, now, retry);
    assert forall k :: IsReceived(r, k) <==> IsReceived(t.recv, k);
    forall a | a in t.acks ensures AckedBefore(a, r) {
      AckStaysSound(a, t.recv, r);
    }
  }

  lemma OutChanges(t: Tunnel, side: Side, out: Sender)
    requires Inv(t) && Direction(out, t.At(side.Other()).into)
    ensures Inv(t.With(side, t.At(side).(out := out)))
  {
  }

  lemma IntoChanges(t: Tunnel, side: Side, into: Taker)
    requires Inv(t) && Direction(t.At(side.Other()).out, into)
    ensures Inv(t.With(side, t.At(side).(into := into)))
  {
  }

  lemma WriteStep(t: Tunnel, side: Side, data: bytes)
    requires Inv(t)
    ensures Inv(Apply(t, Write(side, data)))
  {
    var s := t.At(side).out;
    WriteKeeps(s, t.At(side.Other()).into, data, t.clock);
    OutChanges(t, side, Writes(s, data, t.clock));
  }

  lemma SendDataStep(t: Tunnel, side: Side)
    requires Inv(t) && Enabled(t, SendData(side))
    ensures Inv(Apply(t, SendData(side)))
  {
    var s := t.At(side).out;
    ShapeIsValid(s.win, s.pool.tail);
    SendDataKeeps(s, t.At(side.Other()).into, t.clock, t.timing.resend, Due(s, t.clock, t.timing.delay));
    OutChanges(t, side, Sends(s, Section(t, side)));
  }

  lemma DeliverBlockStep(t: Tunnel, from: Side, section: bytes, i: nat)
    requires Inv(t) && Enabled(t, DeliverBlock(from, section, i))
    ensures Inv(Apply(t, DeliverBlock(from, section, i)))
  {
    var into, r := t.At(from.Other()).into, Parse(section).records[i];
    TakeKeeps(t.At(from).out, into, section, i);
    IntoChanges(t, from.Other(), Takes(into, r.id, r.payload));
  }

  lemma DeliverAckStep(t: Tunnel, from: Side, section: bytes)
    requires Inv(t) && Enabled(t, DeliverAck(from, section))
    ensures Inv(Apply(t, DeliverAck(from, section)))
  {
    var s := t.At(from.Other()).out;
    ShapeIsValid(s.win, s.pool.tail);
    AckKeeps(s, t.At(from).into, section);
    OutChanges(t, from.Other(), s.(win := Acknowledge(s.win, section)));
  }

  lemma ApplyKeeps(t: Tunnel, step: Step)
    requires Inv(t) && Enabled(t, step)
    ensures Inv(Apply(t, step))
  {
    match step
    case Tick(_) =>
    case Write(side, data) => WriteStep(t, side, data);
    case SendData(side) => SendDataStep(t, side);
    case SendAck(side) =>
      var into := t.At(side).into;
      SendAckKeeps(t.At(side.Other()).out, into);
      IntoChanges(t, side, into.(acks := into.acks + {AckSection(into.recv)}));
    case DeliverBlock(from, section, i) => DeliverBlockStep(t, from, section, i);
    case DeliverAck(from, section) => DeliverAckStep(t, from, section);
    case DeliverReport(side, sn, sentAt, now, retry) =>
      var into := t.At(side).into;
      ReportKeeps(t.At(side.Other()).out, into, sn, sentAt, now, retry);
      IntoChanges(t, side, into.(recv := Unacked(into.recv, sn, sentAt, now, retry)));
  }
}
