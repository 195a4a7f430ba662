/** From every state of a run, whatever was lost, undisturbed round trips deliver everything. */
module TunnelRecovery {
  import opened Bytes
  import opened Records
  import opened SendBuffer
  import opened Receiver
  import opened Window
  import opened Tunnel
  import opened TunnelRuns

  /** So few bytes in all, and blocks so short, that no number and no section length leaves its 32 bit field. */
  predicate Roomy(s: Sender) {
    |s.added| + 2 <= U32 && 2 * s.pool.max + 8 < U32
  }

  predicate RoomyBoth(t: Tunnel) {
    Roomy(t.client.out) && Roomy(t.server.out)
  }

  /** What is left to do in one direction. */
  function Left(s: Sender): nat {
    2 * s.pool.size + |s.win.wait.keys|
  }

  lemma {:induction false} PiecesFit(pieces: seq<bytes>, i: nat)
    requires NoneEmpty(pieces) && i <= |pieces|
    ensures |pieces| <= |Flatten(pieces)|
    ensures i < |pieces| ==> |pieces[i]| <= |Flatten(pieces)|
  {
    if pieces != [] {
      assert NoneEmpty(pieces[1..]) by {
        assert forall j :: 0 <= j < |pieces[1..]| ==> pieces[1..][j] == pieces[j + 1];
      }
      PiecesFit(pieces[1..], if i == 0 then 0 else i - 1);
    }
  }

  lemma OriginalsInRange(buf: seq<Record>, handed: seq<bytes>)
    requires CarriesOriginals(buf, handed) && NoneEmpty(handed) && |Flatten(handed)| + 2 <= U32
    ensures AllInRange(buf)
  {
    forall i | 0 <= i < |buf| ensures InRange(buf[i]) {
      PiecesFit(handed, buf[i].id - 1);
    }
  }

  lemma SendEnabled(s: Sender, t: Taker, now: real, timeout: real, due: bool)
    requires Direction(s, t) && Roomy(s) && s.win.wait.Listing()
    ensures var buf := DataSection(s.pool, s.win, now, timeout, due).buf; AllInRange(buf) && |Build(buf)| < U32
  {
    hide DataSection, Build;
    var d := DataSection(s.pool, s.win, now, timeout, due);
    DataSectionCarries(s.pool, s.win, s.handed, now, timeout, due);
    var more := NewlyHanded(s.pool, d);
    FlattenConcat(s.handed, more);
    assert |Flatten(s.handed + more)| <= |s.added|;
    OriginalsInRange(d.buf, s.handed + more);
    DataSectionLength(s.pool, s.win, now, timeout, due);
  }

  lemma AckEnabled(s: Sender, t: Taker)
    requires Direction(s, t) && Roomy(s)
    ensures AckInRange(t.recv)
  {
    PiecesFit(s.handed, 0);
    ReleasedAreHanded(s, t);
    forall k | k in t.recv.blocks.at ensures k < U32 {
      assert k in t.seen;
    }
  }

  /** When the lowest block waits longer than the timeout, it is the first record written. */
  lemma LowestIsResent(s: Sender, now: real, timeout: real, due: bool)
    requires SendSide(s.pool, s.win, s.handed) && s.win.wait.Listing()
    requires s.win.cont + 1 < s.pool.tail && Overdue(s.win, s.win.cont + 1, now, timeout)
    ensures var buf := DataSection(s.pool, s.win, now, timeout, due).buf;
      buf != [] && buf[0] == Record(s.win.cont + 1, s.handed[s.win.cont])
  {
    var sn := s.win.cont + 1;
    var keys := s.win.wait.keys;
    assert keys[0] == sn;
    var payload := s.win.wait.at[sn].payload;
    var s0 := Sent(s.pool, s.win, [], false);
    var s1 := Again(s0, sn, payload, now);
    ResendKeepsBuf(s1, keys[1..], now, timeout);
    ResendKeeps(s0, keys, now, timeout);
    var r := Resend(s0, keys, now, timeout);
    assert r.buf[0] == Record(sn, payload);
  }

  /** Sending never adds to what is left, and leaves less when a block leaves the pool. */
  lemma SendingLeaves(s: Sender, now: real, timeout: real, due: bool)
    requires SendSide(s.pool, s.win, s.handed) && s.win.wait.Listing()
    ensures var s' := Sends(s, DataSection(s.pool, s.win, now, timeout, due));
      && SendSide(s'.pool, s'.win, s'.handed) && s'.win.cont == s.win.cont && s'.added == s.added
      && s'.pool.tail >= s.pool.tail && s'.pool.max == s.pool.max
      && Left(s') <= Left(s) && (s'.pool != s.pool ==> Left(s') < Left(s))
  {
    var d := DataSection(s.pool, s.win, now, timeout, due);
    DataSectionCarries(s.pool, s.win, s.handed, now, timeout, due);
    var more := NewlyHanded(s.pool, d);
    if d.pool != s.pool {
      assert |more| == 1 && |more[0]| <= |Flatten(more)|;
    }
  }

  /** With an empty window, a block leaves the pool as soon as its delay is over. */
  lemma FlushTakes(s: Sender, now: real, timeout: real)
    requires SendSide(s.pool, s.win, s.handed) && s.win.wait.Listing()
    requires Left(s) > 0 && s.win.cont + 1 == s.pool.tail
    ensures Left(Sends(s, DataSection(s.pool, s.win, now, timeout, true))) < Left(s)
  {
    assert s.win.wait.keys == [];
    GetTakes(s.pool);
    SendingLeaves(s, now, timeout, true);
  }

  lemma {:induction false} RunThen(t: Tunnel, a: seq<Step>, b: seq<Step>)
    requires Inv(t) && Legal(t, a) && Legal(Execute(t, a), b)
    ensures Legal(t, a + b) && Execute(t, a + b) == Execute(Execute(t, a), b)
    decreases |a|
  {
    hide Inv, Enabled, After;
    if a == [] {
      assert a + b == b;
    } else {
      RunThen(After(t, a[0]), a[1..], b);
      assert (a + b)[1..] == a[1..] + b;
    }
  }

  lemma RunOne(t: Tunnel, a: seq<Step>, step: Step)
    requires Inv(t) && Legal(t, a) && Enabled(Execute(t, a), step)
    ensures Legal(t, a + [step]) && Execute(t, a + [step]) == After(Execute(t, a), step)
  {
    hide Inv, Enabled, After;
    var r := Execute(t, a);
    assert [step][1..] == [];
    assert Legal(After(r, step), []);
    assert Legal(r, [step]) && Execute(r, [step]) == After(r, step);
    RunThen(t, a, [step]);
  }

  /** An ack from a peer that has the lowest block passes it. */
  lemma AckPasses(s: Sender, t: Taker)
    requires Direction(s, t) && AckInRange(t.recv) && s.win.wait.Listing()
    requires s.win.cont + 1 < s.pool.tail && IsReceived(t.recv, s.win.cont + 1)
    ensures |Acknowledge(s.win, AckSection(t.recv)).wait.keys| < |s.win.wait.keys|
  {
    hide Acknowledge, AckSection, IsReceived, AckInRange;
    AckExact(s.win, s.pool.tail, t.recv);
    var w := Acknowledge(s.win, AckSection(t.recv));
    assert Passed(w, s.win.cont + 1);
    assert w.cont > s.win.cont;
  }

  lemma WindowListed(s: Sender, t: Taker)
    requires Direction(s, t)
    ensures s.win.wait.Listing() && |s.win.wait.keys| == s.pool.tail - 1 - s.win.cont
  {
    ShapeIsValid(s.win, s.pool.tail);
  }

  /** Every block the window `w'` holds was held just so by `w`. */
  ghost predicate HeldAsBefore(w: Window, w': Window) {
    forall k :: k in w'.wait.at && w'.wait.at[k].Held? ==> k in w.wait.at && w.wait.at[k] == w'.wait.at[k]
  }

  /** An ack leaves the blocks still held as they are. */
  lemma AckKeepsHeld(s: Sender, t: Taker)
    requires Direction(s, t) && AckInRange(t.recv) && s.win.wait.Listing()
    ensures var w := Acknowledge(s.win, AckSection(t.recv));
      && w.cont >= s.win.cont && WindowShape(w, s.pool.tail) && |w.wait.keys| <= |s.win.wait.keys|
      && (|w.wait.keys| == |s.win.wait.keys| ==> w.cont == s.win.cont)
      && HeldAsBefore(s.win, w)
  {
    hide Acknowledge, AckSection, IsReceived, AckInRange;
    AckExact(s.win, s.pool.tail, t.recv);
    var w := Acknowledge(s.win, AckSection(t.recv));
    forall k | k in w.wait.at && w.wait.at[k].Held?
      ensures k in s.win.wait.at && s.win.wait.at[k] == w.wait.at[k]
    {
      assert s.win.cont < k < s.pool.tail && !Passed(w, k);
    }
  }

  /** All records of a section, delivered in order, as `round_trip_process` puts them. */
  function Deliveries(from: Side, section: bytes, n: nat): seq<Step> {
    if n == 0 then [] else Deliveries(from, section, n - 1) + [DeliverBlock(from, section, n - 1)]
  }

  /** A packet that arrives: its data and ack sections are built, every record is put, then the ack is processed. */
  function PacketSteps(from: Side, section: bytes, ack: bytes): seq<Step> {
    [SendData(from), SendAck(from)] + Deliveries(from, section, |Parse(section).records|) + [DeliverAck(from, ack)]
  }

  lemma SideReady(t: Tunnel, side: Side)
    requires Inv(t)
    ensures PoolInv(t.At(side).out.pool) && t.At(side).out.win.wait.Listing() && t.At(side).into.recv.next >= 1
  {
    ShapeIsValid(t.At(side).out.win, t.At(side).out.pool.tail);
    EachDirection(t, side.Other());
  }

  /** The steps are one packet of the side, built from its state now and delivered whole. */
  ghost predicate IsPacket(t: Tunnel, from: Side, steps: seq<Step>)
    requires Inv(t)
  {
    SideReady(t, from);
    var section := Build(Section(t, from).buf);
    |section| < U32 && steps == PacketSteps(from, section, AckSection(t.At(from).into.recv))
  }

  /** Delivering records changes what the other side received and nothing else. */
  lemma {:induction false} DeliverAll(t: Tunnel, from: Side, section: bytes, n: nat)
    requires Inv(t) && section in t.At(from).out.sections && n <= |Parse(section).records|
    ensures Legal(t, Deliveries(from, section, n))
    ensures var r := Execute(t, Deliveries(from, section, n));
      && r.At(from) == t.At(from) && r.At(from.Other()).out == t.At(from.Other()).out && r.clock == t.clock
      && r.timing == t.timing
      && r.At(from.Other()).into.acks == t.At(from.Other()).into.acks
      && (forall i :: 0 <= i < n ==> IsReceived(r.At(from.Other()).into.recv, Parse(section).records[i].id))
      && (forall k :: IsReceived(t.At(from.Other()).into.recv, k) ==> IsReceived(r.At(from.Other()).into.recv, k))
    decreases n
  {
    hide Inv, Direction, Legal, Execute, After, Parse, Put, Enabled, IsReceived;
    if n == 0 {
      NoStep(t);
    } else {
      DeliverAll(t, from, section, n - 1);
      var r := Execute(t, Deliveries(from, section, n - 1));
      var step := DeliverBlock(from, section, n - 1);
      OneDelivery(r, from, section, n - 1);
      RunOne(t, Deliveries(from, section, n - 1), step);
    }
  }

  lemma NoStep(t: Tunnel)
    requires Inv(t)
    ensures Legal(t, []) && Execute(t, []) == t
  {
  }

  lemma OneDelivery(t: Tunnel, from: Side, section: bytes, i: nat)
    requires Inv(t) && section in t.At(from).out.sections && i < |Parse(section).records|
    ensures Enabled(t, DeliverBlock(from, section, i))
    ensures var r := After(t, DeliverBlock(from, section, i));
      && r.At(from) == t.At(from) && r.At(from.Other()).out == t.At(from.Other()).out && r.clock == t.clock
      && r.timing == t.timing
      && r.At(from.Other()).into.acks == t.At(from.Other()).into.acks
      && IsReceived(r.At(from.Other()).into.recv, Parse(section).records[i].id)
      && (forall k :: IsReceived(t.At(from.Other()).into.recv, k) ==> IsReceived(r.At(from.Other()).into.recv, k))
  {
    hide Direction, Put, IsReceived;
    var record, recv := Parse(section).records[i], t.At(from.Other()).into.recv;
    forall k: nat
      ensures IsReceived(Put(recv, record.id, record.payload).recv, k) <==> IsReceived(recv, k) || k == record.id {
      PutReceives(recv, record.id, record.payload, k);
    }
  }

  /** Every block of the side waits longer than the timeout; its pool has waited for its delay. */
  ghost predicate Ready(t: Tunnel, side: Side) {
    AllOverdue(t.At(side).out.win, t.clock, t.timing.resend) && Due(t.At(side).out, t.clock, t.timing.delay)
  }

  /** How many blocks the side holds out of order. */
  function HeldCount(t: Tunnel, side: Side): nat {
    |t.At(side).into.recv.blocks.keys|
  }

  /** The side's ack fits its length field: at most 16382 blocks held by the client, 2^30 - 2 by the server. */
  predicate AckFitsAt(t: Tunnel, side: Side) {
    4 + 4 * HeldCount(t, side) < if side == Client then U16 else U32
  }

  lemma AckFitsIff(t: Tunnel, side: Side)
    requires Inv(t)
    ensures t.At(side).into.recv.next >= 1
    ensures AckFits(side, t.At(side).into.recv) <==> AckFitsAt(t, side)
  {
    SideReady(t, side);
    AckLength(t.At(side).into.recv);
  }

  /** Every number below a record is received before or delivered before it. */
  ghost predicate InTurn(r: Recv, records: seq<Record>) {
    forall i: nat, k: nat :: i < |records| && k < records[i].id ==> IsReceived(r, k) || WrittenBefore(records, i, k)
  }

  /** Delivering records none of which is ahead of its turn leaves no more held than before. */
  lemma {:induction false} DeliverInTurn(t: Tunnel, from: Side, section: bytes, n: nat)
    requires Inv(t) && section in t.At(from).out.sections && n <= |Parse(section).records|
    requires InTurn(t.At(from.Other()).into.recv, Parse(section).records)
    requires Legal(t, Deliveries(from, section, n))
    ensures HeldCount(Execute(t, Deliveries(from, section, n)), from.Other()) <= HeldCount(t, from.Other())
    decreases n
  {
    hide Inv, Direction, Legal, Execute, After, Parse, Put, Enabled, IsReceived, InTurn;
    if n == 0 {
      NoStep(t);
    } else {
      DeliverAll(t, from, section, n - 1);
      DeliverInTurn(t, from, section, n - 1);
      var r := Execute(t, Deliveries(from, section, n - 1));
      OneDelivery(r, from, section, n - 1);
      RunOne(t, Deliveries(from, section, n - 1), DeliverBlock(from, section, n - 1));
      InTurnNext(t.At(from.Other()).into.recv, r.At(from.Other()).into.recv, Parse(section).records, n - 1);
      SideReady(r, from.Other());
      NextNotReceived(r, from.Other());
      DeliveryInTurn(r, from, section, n - 1);
    }
  }

  /** With everything before record `i` delivered, every number below it is received. */
  lemma InTurnNext(r0: Recv, r: Recv, records: seq<Record>, i: nat)
    requires InTurn(r0, records) && i < |records|
    requires forall k :: IsReceived(r0, k) ==> IsReceived(r, k)
    requires forall j :: 0 <= j < i ==> IsReceived(r, records[j].id)
    ensures forall k: nat :: k < records[i].id ==> IsReceived(r, k)
  {
    hide IsReceived;
    forall k: nat | k < records[i].id ensures IsReceived(r, k) {
      if !IsReceived(r0, k) {
        assert WrittenBefore(records, i, k);
      }
    }
  }

  lemma NextNotReceived(t: Tunnel, side: Side)
    requires Inv(t)
    ensures !IsReceived(t.At(side).into.recv, t.At(side).into.recv.next)
  {
    EachDirection(t, side.Other());
    NextIsMissing(t.At(side.Other()).out, t.At(side).into);
  }

  lemma DeliveryInTurn(t: Tunnel, from: Side, section: bytes, i: nat)
    requires Inv(t) && Enabled(t, DeliverBlock(from, section, i))
    requires var recv := t.At(from.Other()).into.recv;
      !IsReceived(recv, recv.next) && forall k: nat :: k < Parse(section).records[i].id ==> IsReceived(recv, k)
    ensures HeldCount(After(t, DeliverBlock(from, section, i)), from.Other()) <= HeldCount(t, from.Other())
  {
    hide Direction, Put, IsReceived;
    var record, recv := Parse(section).records[i], t.At(from.Other()).into.recv;
    PutInTurn(recv, record.id, record.payload);
  }

  /** What the side's own packet does to its direction. */
  ghost predicate Sent1(t: Tunnel, r: Tunnel, side: Side) {
    var s, s', o' := t.At(side).out, r.At(side).out, r.At(side.Other());
    && s'.added == s.added && s'.pool.max == s.pool.max
    && s'.win.cont == s.win.cont && s'.pool.tail >= s.pool.tail && Left(s') <= Left(s)
    && (Ready(t, side) && Left(s) > 0 ==>
          if s.win.cont + 1 < s.pool.tail then IsReceived(o'.into.recv, s.win.cont + 1) else Left(s') < Left(s))
    && (Ready(t, side) ==> HeldCount(r, side.Other()) <= HeldCount(t, side.Other()))
  }

  /** What its ack does to the other direction. */
  ghost predicate Acked1(t: Tunnel, r: Tunnel, side: Side) {
    var o, o' := t.At(side.Other()).out, r.At(side.Other()).out;
    && o'.added == o.added && o'.pool == o.pool && o'.oldest == o.oldest && Left(o') <= Left(o)
    && HeldAsBefore(o.win, o'.win)
    && (Left(o') == Left(o) ==>
          && o'.win.cont == o.win.cont
          && (o.win.cont + 1 < o.pool.tail ==> !IsReceived(t.At(side).into.recv, o.win.cont + 1)))
  }

  /** The first half of a packet: both sections are built. */
  lemma Build1(t: Tunnel, side: Side) returns (section: bytes)
    requires Inv(t) && RoomyBoth(t) && AckFitsAt(t, side)
    ensures PoolInv(t.At(side).out.pool) && t.At(side).out.win.wait.Listing() && section == Build(Section(t, side).buf)
    ensures |section| < U32
    ensures Legal(t, [SendData(side), SendAck(side)])
    ensures t.At(side).into.recv.next >= 1
    ensures var r, ack := Execute(t, [SendData(side), SendAck(side)]), AckSection(t.At(side).into.recv);
      var s, s' := t.At(side).out, r.At(side).out;
      && section in s'.sections && ack in r.At(side).into.acks && AckInRange(t.At(side).into.recv)
      && r.At(side).into.recv == t.At(side).into.recv && r.At(side.Other()) == t.At(side.Other())
      && r.clock == t.clock && r.timing == t.timing
      && s'.added == s.added && s'.pool.max == s.pool.max
      && s'.win.cont == s.win.cont && s'.pool.tail >= s.pool.tail && Left(s') <= Left(s)
      && (Ready(t, side) && Left(s) > 0 ==>
            if s.win.cont + 1 < s.pool.tail then
              |Parse(section).records| > 0 && Parse(section).records[0].id == s.win.cont + 1
            else Left(s') < Left(s))
      && (Ready(t, side) ==> InTurn(t.At(side.Other()).into.recv, Parse(section).records))
  {
    hide DataSection, Direction, AckInRange, AckSection, Parse, SendSide, Left, AllOverdue, InTurn, AckFits, Build;
    var s, r := t.At(side).out, t.At(side.Other()).into;
    EachDirection(t, side);
    EachDirection(t, side.Other());
    SideReady(t, side);
    SenderIs(s, r);
    SendEnabled(s, r, t.clock, t.timing.resend, Due(s, t.clock, t.timing.delay));
    AckEnabled(t.At(side.Other()).out, t.At(side).into);
    AckFitsIff(t, side);
    section := Build(Section(t, side).buf);
    SendingLeaves(s, t.clock, t.timing.resend, Due(s, t.clock, t.timing.delay));
    ParseBuild(Section(t, side).buf);
    if Ready(t, side) {
      SectionInTurn(s, r, t.clock, t.timing);
      if Left(s) > 0 {
        LowestHeld(s, r);
        LowestOverdue(s, t.clock, t.timing.resend);
        ReadySends(s, t.clock, t.timing);
      }
    }
    TwoSteps(t, SendData(side), SendAck(side));
  }

  lemma LowestOverdue(s: Sender, now: real, timeout: real)
    requires AllOverdue(s.win, now, timeout)
    requires s.win.cont + 1 < s.pool.tail ==> s.win.cont + 1 in s.win.wait.at && s.win.wait.at[s.win.cont + 1].Held?
    ensures s.win.cont + 1 < s.pool.tail ==> Overdue(s.win, s.win.cont + 1, now, timeout)
  {
  }

  /** A ready sender writes nothing ahead of its turn: what it passes over was acked, so it was received. */
  lemma SectionInTurn(s: Sender, t: Taker, clock: real, timing: Timing)
    requires Direction(s, t) && s.win.wait.Listing() && AllOverdue(s.win, clock, timing.resend)
    ensures InTurn(t.recv, DataSection(s.pool, s.win, clock, timing.resend, true).buf)
  {
    hide DataSection, AllOverdue, WrittenBefore, IsReceived, Passed;
    DataSectionNoGap(s.pool, s.win, clock, timing.resend, true);
  }

  /** A ready sender writes its lowest block first, or else takes a block from its pool. */
  lemma ReadySends(s: Sender, clock: real, timing: Timing)
    requires SendSide(s.pool, s.win, s.handed) && s.win.wait.Listing() && Left(s) > 0 && s.win.cont < s.pool.tail
    requires s.win.cont + 1 < s.pool.tail ==> Overdue(s.win, s.win.cont + 1, clock, timing.resend)
    ensures var d := DataSection(s.pool, s.win, clock, timing.resend, true);
      if s.win.cont + 1 < s.pool.tail then d.buf != [] && d.buf[0].id == s.win.cont + 1
      else Left(Sends(s, d)) < Left(s)
  {
    hide DataSection, SendSide, Overdue;
    if s.win.cont + 1 < s.pool.tail {
      LowestIsResent(s, clock, timing.resend, true);
    } else {
      FlushTakes(s, clock, timing.resend);
    }
  }

  lemma SenderIs(s: Sender, t: Taker)
    requires Direction(s, t)
    ensures SendSide(s.pool, s.win, s.handed) && s.win.cont < s.pool.tail
  {
  }

  lemma TwoSteps(t: Tunnel, a: Step, b: Step)
    requires Inv(t) && Enabled(t, a) && Enabled(After(t, a), b)
    ensures Legal(t, [a, b]) && Execute(t, [a, b]) == After(After(t, a), b)
  {
    hide Inv, Enabled, After;
    RunOne(t, [], a);
    assert [] + [a] == [a] && [a] + [b] == [a, b];
    RunOne(t, [a], b);
  }

  /** The last part: the ack arrives. */
  lemma TakeAck(t: Tunnel, side: Side)
    requires Inv(t) && t.At(side).into.recv.next >= 1 && AckInRange(t.At(side).into.recv)
    requires AckSection(t.At(side).into.recv) in t.At(side).into.acks
    ensures Enabled(t, DeliverAck(side, AckSection(t.At(side).into.recv)))
    ensures var r := After(t, DeliverAck(side, AckSection(t.At(side).into.recv)));
      && Acked1(t, r, side) && r.At(side) == t.At(side) && r.At(side.Other()).into == t.At(side.Other()).into
      && r.clock == t.clock && r.timing == t.timing
  {
    hide Acknowledge, AckSection, IsReceived, Direction, AckInRange;
    var s, r := t.At(side.Other()).out, t.At(side).into;
    EachDirection(t, side.Other());
    WindowListed(s, r);
    AckKeepsHeld(s, r);
    if s.win.cont + 1 < s.pool.tail && IsReceived(r.recv, s.win.cont + 1) {
      AckPasses(s, r);
    }
    ShapeKeys(s, r);
  }

  lemma ShapeKeys(s: Sender, t: Taker)
    requires Direction(s, t) && AckInRange(t.recv) && s.win.wait.Listing()
    ensures var w := Acknowledge(s.win, AckSection(t.recv));
      |w.wait.keys| == s.pool.tail - 1 - w.cont && |s.win.wait.keys| == s.pool.tail - 1 - s.win.cont
  {
    hide Acknowledge, AckSection;
    AckExact(s.win, s.pool.tail, t.recv);
  }

  /** One packet from a side arrives whole. */
  lemma PacketArrives(t: Tunnel, side: Side) returns (steps: seq<Step>)
    requires Inv(t) && RoomyBoth(t) && AckFitsAt(t, side)
    ensures IsPacket(t, side, steps) && Legal(t, steps)
    ensures var r := Execute(t, steps);
      && Sent1(t, r, side) && Acked1(t, r, side) && r.clock == t.clock && r.timing == t.timing
      && r.At(side).into.recv == t.At(side).into.recv
      && (forall k :: IsReceived(t.At(side.Other()).into.recv, k) ==> IsReceived(r.At(side.Other()).into.recv, k))
  {
    hide Inv, Direction, Enabled, After, Legal, Execute, Left, Ready, IsReceived, AckSection, AckInRange, Parse,
      Section, Deliveries, InTurn, AckFitsAt, HeldAsBefore;
    SideReady(t, side);
    var section := Build1(t, side);
    var n, ack := |Parse(section).records|, AckSection(t.At(side).into.recv);
    var first, all := [SendData(side), SendAck(side)], Deliveries(side, section, n);
    var t1 := Execute(t, first);
    DeliverAll(t1, side, section, n);
    if Ready(t, side) {
      DeliverInTurn(t1, side, section, n);
    }
    var t2 := Execute(t1, all);
    RunThen(t, first, all);
    TakeAck(t2, side);
    RunOne(t, first + all, DeliverAck(side, ack));
    steps := first + all + [DeliverAck(side, ack)];
  }

  /** A round trip of a client that waited until `to`: the request arrives whole, then the reply does. */
  datatype RoundTrip = RoundTrip(to: real, request: seq<Step>, reply: seq<Step>) {
    function Steps(): seq<Step> {
      [Tick(to)] + request + reply
    }
  }

  /** Nothing of the round trip is lost, and nothing else happens meanwhile. */
  ghost predicate Undisturbed(t: Tunnel, trip: RoundTrip)
    requires Inv(t)
  {
    && Enabled(t, Tick(trip.to))
    && var t0 := After(t, Tick(trip.to));
       && IsPacket(t0, Client, trip.request) && Legal(t0, trip.request)
       && var t1 := Execute(t0, trip.request);
          IsPacket(t1, Server, trip.reply) && Legal(t1, trip.reply)
  }

  ghost function AfterTrip(t: Tunnel, trip: RoundTrip): (r: Tunnel)
    requires Inv(t) && Undisturbed(t, trip)
    ensures Inv(r)
  {
    Execute(Execute(After(t, Tick(trip.to)), trip.request), trip.reply)
  }

  /** The round trip is a piece of a run. */
  lemma TripIsLegal(t: Tunnel, trip: RoundTrip)
    requires Inv(t) && Undisturbed(t, trip)
    ensures Legal(t, trip.Steps()) && Execute(t, trip.Steps()) == AfterTrip(t, trip)
  {
    hide Inv, Enabled, After, IsPacket;
    var t0 := After(t, Tick(trip.to));
    RunThen(t0, trip.request, trip.reply);
    var rest := trip.request + trip.reply;
    assert trip.Steps() == [Tick(trip.to)] + rest && trip.Steps()[1..] == rest;
  }

  ghost predicate AllUndisturbed(t: Tunnel, trips: seq<RoundTrip>)
    requires Inv(t)
    decreases |trips|
  {
    trips == [] || (Undisturbed(t, trips[0]) && AllUndisturbed(AfterTrip(t, trips[0]), trips[1..]))
  }

  ghost function AfterTrips(t: Tunnel, trips: seq<RoundTrip>): (r: Tunnel)
    requires Inv(t) && AllUndisturbed(t, trips)
    ensures Inv(r)
    decreases |trips|
  {
    if trips == [] then t else AfterTrips(AfterTrip(t, trips[0]), trips[1..])
  }

  /** Late enough for both sides. */
  ghost function Later(t: Tunnel): (to: real)
    requires Inv(t)
    ensures to >= t.clock
  {
    SideReady(t, Client);
    SideReady(t, Server);
    Max(t.clock, Max(ReadyAt(t.client.out, t.timing), ReadyAt(t.server.out, t.timing)))
  }

  function Max(a: real, b: real): real {
    if a >= b then a else b
  }

  /** When every block has waited for the timeout and the pool for its delay. */
  function ReadyAt(s: Sender, timing: Timing): real
    requires s.win.wait.Listing()
  {
    Max(s.oldest + timing.delay, LastSent(s.win.wait.at, s.win.wait.keys) + timing.resend) + 1.0
  }

  /** When the last of these blocks was sent. */
  function LastSent(at: map<nat, Slot>, keys: seq<nat>): real
    requires forall k :: k in keys ==> k in at
  {
    if keys == [] then 0.0
    else
      var rest := LastSent(at, keys[1..]);
      match at[keys[0]]
      case Acked => rest
      case Held(_, sentAt) => Max(sentAt, rest)
  }

  lemma {:induction false} SentByThen(at: map<nat, Slot>, keys: seq<nat>)
    requires forall k :: k in keys ==> k in at
    ensures forall k :: k in keys && at[k].Held? ==> at[k].sentAt <= LastSent(at, keys)
  {
    if keys != [] {
      SentByThen(at, keys[1..]);
      assert forall k :: k in keys ==> k == keys[0] || k in keys[1..];
    }
  }

  lemma LaterIsReady(t: Tunnel, side: Side)
    requires Inv(t)
    ensures Ready(t.(clock := Later(t)), side)
  {
    hide Direction, Inv;
    var s := t.At(side).out;
    SideReady(t, side);
    assert Later(t) >= ReadyAt(s, t.timing);
    SentByThen(s.win.wait.at, s.win.wait.keys);
  }

  lemma LowestHeld(s: Sender, t: Taker)
    requires Direction(s, t)
    ensures s.win.cont + 1 < s.pool.tail ==> s.win.cont + 1 in s.win.wait.at && s.win.wait.at[s.win.cont + 1].Held?
  {
  }

  /** The client already has the server's lowest block. */
  predicate ServerLowestReceived(t: Tunnel) {
    t.server.out.win.cont + 1 < t.server.out.pool.tail && IsReceived(t.client.into.recv, t.server.out.win.cont + 1)
  }

  /** What is left in both directions, in half steps. */
  function LeftInAll(t: Tunnel): int {
    2 * (Left(t.client.out) + Left(t.server.out)) - (if ServerLowestReceived(t) then 1 else 0)
  }

  lemma NothingReceivedNothingLeft(t: Tunnel)
    requires Inv(t)
    ensures LeftInAll(t) >= 0 && (LeftInAll(t) == 0 ==> Left(t.client.out) == 0 && Left(t.server.out) == 0)
  {
    hide Direction;
    EachDirection(t, Server);
    WindowListed(t.server.out, t.client.into);
  }

  /** After the request: the server has the client's lowest block, or the client's direction has less left. */
  lemma RequestLeaves(t: Tunnel, r: Tunnel)
    requires Sent1(t, r, Client) && Acked1(t, r, Client) && Ready(t, Client) && Left(t.client.out) > 0
    requires t.client.out.win.cont < t.client.out.pool.tail
    ensures Left(r.client.out) < Left(t.client.out) ||
      (r.client.out.win.cont + 1 < r.client.out.pool.tail && IsReceived(r.server.into.recv, r.client.out.win.cont + 1))
  {
    hide Ready, Left, IsReceived;
  }

  /** While anything is left, one undisturbed round trip leaves less. */
  lemma RoundTripLeavesLess(t: Tunnel) returns (trip: RoundTrip)
    requires Inv(t) && RoomyBoth(t) && LeftInAll(t) > 0 && AckFitsAt(t, Client) && AckFitsAt(t, Server)
    ensures Undisturbed(t, trip) && LeftInAll(AfterTrip(t, trip)) < LeftInAll(t)
    ensures var r := AfterTrip(t, trip);
      && r.client.out.added == t.client.out.added && r.server.out.added == t.server.out.added
      && RoomyBoth(r) && AckFitsAt(r, Client) && AckFitsAt(r, Server)
  {
    hide Inv, Direction, Legal, Execute, Left, IsReceived, IsPacket, Later, AllOverdue, HeldAsBefore;
    var t0 := After(t, Tick(Later(t)));
    LaterIsReady(t, Client);
    LaterIsReady(t, Server);
    var request := PacketArrives(t0, Client);
    var t1 := Execute(t0, request);
    var reply := PacketArrives(t1, Server);
    var t2 := Execute(t1, reply);
    trip := RoundTrip(Later(t), request, reply);
    TripProgress(t0, t1, t2);
  }

  lemma ServerStaysReady(t: Tunnel, r: Tunnel)
    requires Acked1(t, r, Client) && Ready(t, Server) && r.clock == t.clock && r.timing == t.timing
    ensures Ready(r, Server)
  {
    hide Left;
  }

  lemma ContBelowTail(t: Tunnel)
    requires Inv(t)
    ensures t.client.out.win.cont < t.client.out.pool.tail && t.server.out.win.cont < t.server.out.pool.tail
  {
  }

  lemma TripProgress(t0: Tunnel, t1: Tunnel, t2: Tunnel)
    requires Inv(t0) && Inv(t1) && Ready(t0, Client) && Ready(t0, Server) && LeftInAll(t0) > 0
    requires Sent1(t0, t1, Client) && Acked1(t0, t1, Client) && t1.clock == t0.clock && t1.timing == t0.timing
    requires Sent1(t1, t2, Server) && Acked1(t1, t2, Server)
    requires t1.client.into.recv == t0.client.into.recv && t2.server.into.recv == t1.server.into.recv
    ensures LeftInAll(t2) < LeftInAll(t0)
    ensures HeldCount(t2, Client) <= HeldCount(t0, Client) && HeldCount(t2, Server) <= HeldCount(t0, Server)
  {
    hide Inv, IsReceived, Left, Ready, HeldAsBefore;
    ContBelowTail(t0);
    ContBelowTail(t1);
    NothingReceivedNothingLeft(t0);
    if Left(t0.client.out) > 0 {
      RequestLeaves(t0, t1);
    }
    ServerStaysReady(t0, t1);
  }

  /** Whatever the network did so far, if the acks of both ends fit, undisturbed round trips deliver every byte written
      in both directions and empty both pools and windows, when the client waits for the timeouts before each: four for
      each byte left and two for each block not acked are enough. */
  lemma UndisturbedTripsDeliverAll(t: Tunnel) returns (trips: seq<RoundTrip>)
    requires Inv(t) && RoomyBoth(t) && AckFitsAt(t, Client) && AckFitsAt(t, Server)
    ensures DeliversAll(t, trips) && |trips| <= 2 * (Left(t.client.out) + Left(t.server.out))
  {
    trips := DeliverAllTrips(t);
  }

  /** Every byte written was released, and nothing waits or is unacked. */
  ghost predicate Delivered(s: Sender, t: Taker) {
    Flatten(t.released) == s.added && s.pool.size == 0 && s.win.wait.keys == []
  }

  /** These round trips can happen one after another, undisturbed, and afterwards each end has released exactly what
      was written at the other before. */
  ghost predicate DeliversAll(t: Tunnel, trips: seq<RoundTrip>)
    requires Inv(t)
  {
    && AllUndisturbed(t, trips)
    && var r := AfterTrips(t, trips);
       && r.client.out.added == t.client.out.added && r.server.out.added == t.server.out.added
       && Delivered(r.client.out, r.server.into) && Delivered(r.server.out, r.client.into)
  }

  lemma {:induction false} DeliverAllTrips(t: Tunnel) returns (trips: seq<RoundTrip>)
    requires Inv(t) && RoomyBoth(t) && AckFitsAt(t, Client) && AckFitsAt(t, Server)
    ensures DeliversAll(t, trips) && |trips| <= LeftInAll(t)
    decreases LeftInAll(t)
  {
    hide Inv, Direction, Left, Undisturbed, AfterTrip, LeftInAll, Delivered, RoomyBoth, AckFitsAt;
    NothingReceivedNothingLeft(t);
    if LeftInAll(t) == 0 {
      trips := [];
      EachDirection(t, Client);
      EachDirection(t, Server);
      NothingLeft(t.client.out, t.server.into);
      NothingLeft(t.server.out, t.client.into);
    } else {
      var trip := RoundTripLeavesLess(t);
      var rest := DeliverAllTrips(AfterTrip(t, trip));
      trips := [trip] + rest;
      assert trips[1..] == rest;
    }
  }

  /** While its ack does not fit, the client can send nothing. */
  lemma NoRequestFits(t: Tunnel, trip: RoundTrip)
    requires Inv(t) && Undisturbed(t, trip)
    ensures AckFitsAt(t, Client)
  {
    hide Inv, Direction, Section, Deliveries, AckFits;
    var t0 := After(t, Tick(trip.to));
    var steps := trip.request;
    SideReady(t0, Client);
    assert steps[0] == SendData(Client) && steps[1] == SendAck(Client);
    var t1 := After(t0, steps[0]);
    assert Legal(t1, steps[1..]) && steps[1..][0] == steps[1];
    SameTaker(t0, t1);
    AckFitsIff(t, Client);
  }

  lemma SameTaker(t: Tunnel, r: Tunnel)
    requires Inv(t) && Enabled(t, SendData(Client)) && r == After(t, SendData(Client))
    ensures r.client.into == t.client.into
  {
  }

  /** An end that holds a block out of order misses one before it. */
  lemma HeldMeansMissing(s: Sender, t: Taker)
    requires Direction(s, t) && t.recv.blocks.keys != []
    ensures !Delivered(s, t)
  {
    hide Parse, Queued, SectionsCarry, SendSide, AckedBefore;
    ReleasedAreHanded(s, t);
    var k := t.recv.blocks.keys[0];
    assert k in t.recv.blocks.keys && k in t.seen && t.recv.next <= k <= |s.handed|;
    PrefixShorter(s.handed, t.recv.next - 1);
    QueueIsEmpty(s, t);
  }

  lemma QueueIsEmpty(s: Sender, t: Taker)
    requires Direction(s, t)
    ensures s.pool.size == 0 ==> s.added == Flatten(s.handed)
  {
    assert Flatten(s.handed) + [] == Flatten(s.handed);
  }

  /** After any state of a run the client can bring everything over, in as few round trips as above, if and only if its
      own ack still fits its 16 bit length: it holds at most 16382 blocks out of order. Otherwise it can make no round
      trip at all, and bytes are missing. */
  lemma RecoversIffAckFits(t: Tunnel)
    requires Inv(t) && RoomyBoth(t) && AckFitsAt(t, Server)
    ensures if HeldCount(t, Client) <= 16382 then
        exists trips :: DeliversAll(t, trips) && |trips| <= 2 * (Left(t.client.out) + Left(t.server.out))
      else
        !Delivered(t.server.out, t.client.into) && forall trip :: !Undisturbed(t, trip)
  {
    hide Inv, Direction, Undisturbed, DeliversAll, Left;
    if AckFitsAt(t, Client) {
      var trips := UndisturbedTripsDeliverAll(t);
    } else {
      Overfull(t);
    }
  }

  lemma Overfull(t: Tunnel)
    requires Inv(t) && !AckFitsAt(t, Client)
    ensures !Delivered(t.server.out, t.client.into) && forall trip :: !Undisturbed(t, trip)
  {
    hide Inv, Direction, Undisturbed;
    forall trip ensures !Undisturbed(t, trip) {
      if Undisturbed(t, trip) {
        NoRequestFits(t, trip);
      }
    }
    EachDirection(t, Server);
    if Delivered(t.server.out, t.client.into) {
      HeldMeansMissing(t.server.out, t.client.into);
    }
  }

  lemma MaxOfStep(t: Tunnel, step: Step, side: Side)
    requires Inv(t) && Enabled(t, step)
    ensures After(t, step).At(side).out.pool.max == t.At(side).out.pool.max
  {
    hide Direction, Parse, Put, DataSection, Acknowledge, Unacked, Added, Queued, Build;
    match step {
      case Write(w, data) => PoolOf(t, w); AddAppends(t.At(w).out.pool, data);
      case SendData(w) =>
        PoolOf(t, w);
        var s := t.At(w).out;
        SendingLeaves(s, t.clock, t.timing.resend, Due(s, t.clock, t.timing.delay));
      case _ =>
    }
  }

  lemma PoolOf(t: Tunnel, side: Side)
    requires Inv(t)
    ensures var s := t.At(side).out; PoolInv(s.pool) && SendSide(s.pool, s.win, s.handed) && s.win.wait.Listing()
  {
    SideReady(t, side);
    EachDirection(t, side);
  }

  lemma {:induction false} MaxStays(t: Tunnel, steps: seq<Step>, side: Side)
    requires Inv(t) && Legal(t, steps)
    ensures Execute(t, steps).At(side).out.pool.max == t.At(side).out.pool.max
    decreases |steps|
  {
    hide Inv, Enabled, After;
    if steps != [] {
      MaxOfStep(t, steps[0], side);
      MaxStays(After(t, steps[0]), steps[1..], side);
    }
  }

  /** So a run with fewer than 2^32 - 1 bytes written on each side, and blocks under 2 GiB, can be brought to complete
      delivery by undisturbed round trips if and only if the client holds at most 16382 blocks out of order. */
  lemma RunRecoversIffAckFits(setup: Setup, steps: seq<Step>)
    requires LegalRun(setup, steps) && 2 * setup.max + 8 < U32
    requires |Written(steps, Client)| + 2 <= U32 && |Written(steps, Server)| + 2 <= U32
    requires AckFitsAt(EndOf(setup, steps), Server)
    ensures var t := EndOf(setup, steps);
      && t.client.out.added == Written(steps, Client) && t.server.out.added == Written(steps, Server)
      && ((exists trips :: DeliversAll(t, trips)) <==> HeldCount(t, Client) <= 16382)
  {
    hide Inv, Legal, Written, Left, DeliversAll, Direction, AckFitsAt, LegalRun, EndOf;
    RunIsRoomy(setup, steps);
    var t := EndOf(setup, steps);
    RecoversIffAckFits(t);
    if trips :| DeliversAll(t, trips) {
      SomeTripOrDelivered(t, trips);
    }
  }

  lemma RunIsRoomy(setup: Setup, steps: seq<Step>)
    requires LegalRun(setup, steps) && 2 * setup.max + 8 < U32
    requires |Written(steps, Client)| + 2 <= U32 && |Written(steps, Server)| + 2 <= U32
    ensures var t := EndOf(setup, steps);
      && t.client.out.added == Written(steps, Client) && t.server.out.added == Written(steps, Server)
      && RoomyBoth(t)
  {
    hide Inv, Legal, Written;
    NewTunnelInv(setup);
    AddedIsWritten(NewTunnel(setup), steps, Client);
    AddedIsWritten(NewTunnel(setup), steps, Server);
    MaxStays(NewTunnel(setup), steps, Client);
    MaxStays(NewTunnel(setup), steps, Server);
    assert [] + Written(steps, Client) == Written(steps, Client)
      && [] + Written(steps, Server) == Written(steps, Server);
  }

  lemma SomeTripOrDelivered(t: Tunnel, trips: seq<RoundTrip>)
    requires Inv(t) && DeliversAll(t, trips)
    ensures Delivered(t.server.out, t.client.into) || exists trip :: Undisturbed(t, trip)
  {
    hide Inv, Undisturbed, Delivered;
    if trips != [] {
      assert Undisturbed(t, trips[0]);
    }
  }

  lemma NothingLeft(s: Sender, t: Taker)
    requires Direction(s, t) && Left(s) == 0
    ensures Delivered(s, t)
  {
    ReleasedAreHanded(s, t);
    NextIsMissing(s, t);
    forall k | 1 <= k <= |s.handed| ensures IsReceived(t.recv, k) {
      assert Passed(s.win, k);
    }
    assert t.recv.next == |s.handed| + 1;
    assert s.handed[..|s.handed|] == s.handed;
    assert Flatten(s.handed) + [] == Flatten(s.handed);
  }

  lemma NextIsMissing(s: Sender, t: Taker)
    requires Direction(s, t)
    ensures !IsReceived(t.recv, t.recv.next)
  {
  }
}
