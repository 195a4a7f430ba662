/** A run after which no request of the client can carry its ack: one block of the server is lost while so many later
    ones arrive that their numbers do not fit the 16 bit length of the ack section. */
module AckTooLong {
  import opened Bytes
  import opened Records
  import opened SendBuffer
  import opened Receiver
  import opened Window
  import opened Tunnel
  import opened TunnelRuns
  import opened TunnelRecovery

  /** A request arrives; the server has been given one more block `d`, and replies; the first reply is lost. */
  datatype Exchange = Exchange(request: seq<Step>, reply: seq<Step>, lost: bool) {
    function Steps(d: bytes): seq<Step> {
      request + [Write(Server, d)] + Reply()
    }

    /** A lost reply is built, but not delivered. */
    function Reply(): seq<Step> {
      if lost && |reply| >= 2 then reply[..2] else reply
    }
  }

  /** Request and reply are whole packets, built from the state they leave in. */
  ghost predicate Happens(t: Tunnel, d: bytes, e: Exchange)
    requires Inv(t)
  {
    && IsPacket(t, Client, e.request) && Legal(t, e.request)
    && var t1 := After(Execute(t, e.request), Write(Server, d));
       IsPacket(t1, Server, e.reply) && Legal(t1, e.Reply())
  }

  /** The server is given one block, then come the exchanges. */
  function RunOf(d: bytes, es: seq<Exchange>): seq<Step> {
    if es == [] then [Write(Server, d)] else RunOf(d, es[..|es| - 1]) + es[|es| - 1].Steps(d)
  }

  /** All of them happen, and only the first reply is lost. */
  ghost predicate AllHappen(setup: Setup, d: bytes, es: seq<Exchange>) {
    es == [] ||
    (var before := es[..|es| - 1];
     && AllHappen(setup, d, before) && LegalRun(setup, RunOf(d, before))
     && Happens(EndOf(setup, RunOf(d, before)), d, es[|es| - 1])
     && (es[|es| - 1].lost <==> |es| == 1))
  }

  /** The server has sent `n` blocks of the bytes `d` and holds one more; all but the first have arrived. */
  ghost predicate Filled(t: Tunnel, setup: Setup, d: bytes, n: nat) {
    && Inv(t) && t.clock == setup.clock && t.timing == setup.timing
    && t.server.out.pool == Pool(setup.max, setup.max, n + 1, n + 1, map[], d)
    && |t.server.out.added| == (n + 1) * setup.max
    && t.client.out.added == [] && t.client.out.pool.max == setup.max
    && SentNow(t.server.out.win, t.clock)
    && HoldsFrom2(t.client.into.recv, n)
  }

  ghost predicate SentNow(w: Window, clock: real) {
    forall k :: k in w.wait.at && w.wait.at[k].Held? ==> w.wait.at[k].sentAt == clock
  }

  ghost predicate HoldsFrom2(r: Recv, n: nat) {
    && r.next == 1 && |r.blocks.keys| == (if n == 0 then 0 else n - 1)
    && forall k :: k in r.blocks.at ==> 2 <= k <= n
  }

  /** Writing a full block to a pool with a full last block moves that one to the stored blocks. */
  lemma AddsOne(max: nat, n: nat, d: bytes)
    requires |d| == max >= 1
    ensures Added(Pool(max, max, n + 1, n + 1, map[], d), d) == Pool(max, 2 * max, n + 2, n + 1, map[n + 1 := d], d)
  {
    var p := Pool(max, 2 * max, n + 1, n + 1, map[], d + d);
    assert (d + d)[..max] == d && (d + d)[max..] == d;
    assert Cut(CutOnce(p)) == CutOnce(p);
  }

  /** The next section is that block alone: nothing is overdue. */
  lemma SendsOne(max: nat, n: nat, d: bytes, w: Window, clock: real, timing: Timing, due: bool)
    requires |d| == max >= 1 && timing.resend >= 0.0 && WindowShape(w, n + 1) && SentNow(w, clock)
    requires PoolInv(Pool(max, 2 * max, n + 2, n + 1, map[n + 1 := d], d)) && w.wait.Listing()
    ensures var s := DataSection(Pool(max, 2 * max, n + 2, n + 1, map[n + 1 := d], d), w, clock, timing.resend, due);
      && s.pool == Pool(max, max, n + 2, n + 2, map[], d) && s.buf == [Record(n + 1, d)]
      && SentNow(s.win, clock)
  {
    var p := Pool(max, 2 * max, n + 2, n + 1, map[n + 1 := d], d);
    ResendNothing(Sent(p, w, [], false), w.wait.keys, clock, timing.resend);
    assert p.blocks - {n + 1} == map[];
    assert Taken(p).block == d;
  }

  /** What the run needs of its setting: blocks so short that all of them together are in range. */
  predicate Suits(setup: Setup, d: bytes) {
    |d| == setup.max >= 1 && 16385 * setup.max + 2 <= U32 && setup.timing.resend >= 0.0
  }

  lemma FilledIsRoomy(t: Tunnel, setup: Setup, d: bytes, n: nat)
    requires Filled(t, setup, d, n) && Suits(setup, d) && n < 16384
    ensures RoomyBoth(t) && AckFitsAt(t, Client) && AckFitsAt(t, Server)
    ensures |t.server.out.added + d| == (n + 2) * setup.max
  {
    hide Direction;
    AtMost(n + 1, 16385, setup.max);
    assert (n + 2) * setup.max == (n + 1) * setup.max + setup.max;
    NothingSentNothingHeld(t);
  }

  /** A client that wrote nothing: the server holds nothing. */
  lemma NothingSentNothingHeld(t: Tunnel)
    requires Inv(t) && t.client.out.added == []
    ensures HeldCount(t, Server) == 0
  {
    EachDirection(t, Client);
    HeldWasHanded(t.client.out, t.server.into);
    PiecesFit(t.client.out.handed, 0);
  }

  lemma HeldWasHanded(s: Sender, t: Taker)
    requires Direction(s, t)
    ensures t.recv.blocks.keys == [] || |s.handed| >= 1
  {
    if t.recv.blocks.keys != [] {
      var k := t.recv.blocks.keys[0];
      assert k in t.recv.blocks.keys && k in t.seen;
    }
  }

  lemma AtMost(a: nat, b: nat, m: nat)
    requires a <= b
    ensures a * m <= b * m
  {
  }

  /** The request changes nothing here: the client has nothing to send. */
  lemma Requested(t: Tunnel, setup: Setup, d: bytes, n: nat) returns (request: seq<Step>)
    requires Filled(t, setup, d, n) && Suits(setup, d) && n < 16384
    ensures IsPacket(t, Client, request) && Legal(t, request)
    ensures Filled(Execute(t, request), setup, d, n)
  {
    hide Inv, Direction, Legal, Execute, IsPacket, Left, Ready, IsReceived, HoldsFrom2;
    FilledIsRoomy(t, setup, d, n);
    request := PacketArrives(t, Client);
    var r := Execute(t, request);
    assert HeldAsBefore(t.server.out.win, r.server.out.win);
  }

  /** The server's block is written and goes into the next section, alone. */
  lemma WrittenAndSent(t: Tunnel, setup: Setup, d: bytes, n: nat) returns (t1: Tunnel, r: Tunnel)
    requires Filled(t, setup, d, n) && Suits(setup, d) && n < 16384
    ensures t1 == After(t, Write(Server, d)) && Enabled(t1, SendData(Server)) && r == After(t1, SendData(Server))
    ensures PoolInv(t1.server.out.pool) && t1.server.out.win.wait.Listing()
    ensures Section(t1, Server).buf == [Record(n + 1, d)] && Build([Record(n + 1, d)]) in r.server.out.sections
    ensures r.clock == t.clock && r.timing == t.timing && r.client == t.client && r.server.into == t.server.into
    ensures r.server.out.pool == Pool(setup.max, setup.max, n + 2, n + 2, map[], d)
    ensures SentNow(r.server.out.win, r.clock) && r.server.out.added == t.server.out.added + d
    ensures t1.server.into == t.server.into
  {
    hide Direction, DataSection, Added, Build, Queued, SentNow, HoldsFrom2;
    AddsOne(setup.max, n, d);
    t1 := After(t, Write(Server, d));
    PoolOf(t, Server);
    PoolOf(t1, Server);
    var s := t1.server.out;
    SendsOne(setup.max, n, d, s.win, t1.clock, t1.timing, Due(s, t1.clock, t1.timing.delay));
    r := After(t1, SendData(Server));
  }

  /** A later block arrives and is held. */
  lemma ArrivesEarly(t: Tunnel, d: bytes, k: nat)
    requires Inv(t) && Build([Record(k, d)]) in t.server.out.sections && InRange(Record(k, d))
    requires k >= 2 && HoldsFrom2(t.client.into.recv, k - 1)
    ensures Enabled(t, DeliverBlock(Server, Build([Record(k, d)]), 0))
    ensures var r := After(t, DeliverBlock(Server, Build([Record(k, d)]), 0));
      && r.server == t.server && r.client.out == t.client.out && r.clock == t.clock && r.timing == t.timing
      && HoldsFrom2(r.client.into.recv, k)
  {
    hide Direction, Build, Parse;
    ParseBuild([Record(k, d)]);
  }

  /** Building the ack changes nothing but the acks on the network. */
  lemma BothBuilt(t: Tunnel)
    requires Inv(t) && Legal(t, [SendData(Server), SendAck(Server)])
    ensures Enabled(t, SendData(Server))
    ensures var r, t2 := Execute(t, [SendData(Server), SendAck(Server)]), After(t, SendData(Server));
      && r.server.out == t2.server.out && r.server.into.recv == t2.server.into.recv && r.client == t2.client
      && r.clock == t2.clock && r.timing == t2.timing
  {
    hide Direction, Section, AckSection;
    var t2 := After(t, SendData(Server));
    assert [SendData(Server), SendAck(Server)][1..] == [SendAck(Server)];
    assert Legal(t2, [SendAck(Server)]) && [SendAck(Server)][1..] == [];
  }

  /** Sections and ack of the reply are built. */
  lemma ReplyBuilt(t: Tunnel, setup: Setup, d: bytes, n: nat) returns (t1: Tunnel, r: Tunnel)
    requires Filled(t, setup, d, n) && Suits(setup, d) && n < 16384
    ensures t1 == After(t, Write(Server, d)) && Legal(t1, [SendData(Server), SendAck(Server)])
    ensures r == Execute(t1, [SendData(Server), SendAck(Server)])
    ensures PoolInv(t1.server.out.pool) && t1.server.out.win.wait.Listing() && t1.server.into.recv.next >= 1
    ensures Section(t1, Server).buf == [Record(n + 1, d)] && Build([Record(n + 1, d)]) in r.server.out.sections
    ensures |Build([Record(n + 1, d)])| < U32
    ensures AckSection(t1.server.into.recv) in r.server.into.acks && AckInRange(t1.server.into.recv)
    ensures r.server.into.recv == t1.server.into.recv
    ensures r.client == t.client && r.clock == t.clock && r.timing == t.timing
    ensures r.server.out.pool == Pool(setup.max, setup.max, n + 2, n + 2, map[], d)
    ensures SentNow(r.server.out.win, r.clock) && |r.server.out.added| == (n + 2) * setup.max
  {
    hide Inv, Direction, Legal, Execute, SentNow, HoldsFrom2, AckSection, Parse, Build, AckInRange;
    FilledIsRoomy(t, setup, d, n);
    var t2;
    t1, t2 := WrittenAndSent(t, setup, d, n);
    StillRoomy(t, t1, setup, d, n);
    var section := Build1(t1, Server);
    BothBuilt(t1);
    r := Execute(t1, [SendData(Server), SendAck(Server)]);
  }

  lemma StillRoomy(t: Tunnel, t1: Tunnel, setup: Setup, d: bytes, n: nat)
    requires Filled(t, setup, d, n) && Suits(setup, d) && n < 16384 && t1 == After(t, Write(Server, d))
    requires |t.server.out.added + d| == (n + 2) * setup.max && RoomyBoth(t) && AckFitsAt(t, Server)
    ensures RoomyBoth(t1) && AckFitsAt(t1, Server)
  {
    hide Direction, HoldsFrom2, SentNow, Added, Queued;
    PoolOf(t, Server);
    AddAppends(t.server.out.pool, d);
    AtMost(n + 2, 16385, setup.max);
  }

  /** The reply to exchange `n + 1`, lost or not. */
  lemma Replied(t: Tunnel, setup: Setup, d: bytes, n: nat) returns (reply: seq<Step>)
    requires Filled(t, setup, d, n) && Suits(setup, d) && n < 16384
    ensures var t1, steps := After(t, Write(Server, d)), Exchange([], reply, n == 0).Reply();
      && IsPacket(t1, Server, reply) && Legal(t1, steps)
      && Filled(Execute(t1, steps), setup, d, n + 1)
  {
    hide Inv, Direction, Legal, Execute, Enabled, After, SentNow, Section, AckSection, Parse, Build, AckInRange;
    var t1, r := ReplyBuilt(t, setup, d, n);
    var section, ack := Build([Record(n + 1, d)]), AckSection(t1.server.into.recv);
    var both, block := [SendData(Server), SendAck(Server)], DeliverBlock(Server, section, 0);
    OneRecord(n + 1, d);
    reply := PacketSteps(Server, section, ack);
    assert reply == both + [block] + [DeliverAck(Server, ack)];
    if n == 0 {
      assert reply[..2] == both;
    } else {
      ArrivesEarly(r, d, n + 1);
      RunOne(t1, both, block);
      var r1 := After(r, block);
      TakeAck(r1, Server);
      RunOne(t1, both + [block], DeliverAck(Server, ack));
    }
  }

  lemma OneRecord(k: nat, d: bytes)
    requires InRange(Record(k, d))
    ensures Parse(Build([Record(k, d)])).records == [Record(k, d)]
    ensures Deliveries(Server, Build([Record(k, d)]), 1) == [DeliverBlock(Server, Build([Record(k, d)]), 0)]
  {
    ParseBuild([Record(k, d)]);
    assert Deliveries(Server, Build([Record(k, d)]), 0) == [];
  }

  lemma Exchanged(t: Tunnel, setup: Setup, d: bytes, n: nat) returns (e: Exchange)
    requires Filled(t, setup, d, n) && Suits(setup, d) && n < 16384
    ensures Happens(t, d, e) && (e.lost <==> n == 0)
    ensures Legal(t, e.Steps(d)) && Filled(Execute(t, e.Steps(d)), setup, d, n + 1)
  {
    hide Inv, Direction, Legal, Execute, Enabled, IsPacket, SentNow, HoldsFrom2;
    var request := Requested(t, setup, d, n);
    var t1 := Execute(t, request);
    var reply := Replied(t1, setup, d, n);
    e := Exchange(request, reply, n == 0);
    assert e.Reply() == Exchange([], reply, n == 0).Reply();
    WriteEnabled(t1, d);
    RunOne(t, request, Write(Server, d));
    RunThen(t, request + [Write(Server, d)], e.Reply());
  }

  lemma WriteEnabled(t: Tunnel, d: bytes)
    requires Inv(t)
    ensures Enabled(t, Write(Server, d))
  {
  }

  lemma FirstWrite(setup: Setup, d: bytes)
    requires Suits(setup, d)
    ensures LegalRun(setup, RunOf(d, [])) && Filled(EndOf(setup, RunOf(d, [])), setup, d, 0)
  {
    NewTunnelInv(setup);
    var t := NewTunnel(setup);
    RunOne(t, [], Write(Server, d));
    assert [] + [Write(Server, d)] == RunOf(d, []);
    assert Added(InitPool(setup.max), d) == Pool(setup.max, setup.max, 1, 1, map[], d);
  }

  lemma {:induction false} FillUp(setup: Setup, d: bytes, n: nat) returns (es: seq<Exchange>)
    requires Suits(setup, d) && n <= 16384
    ensures |es| == n && AllHappen(setup, d, es)
    ensures LegalRun(setup, RunOf(d, es)) && Filled(EndOf(setup, RunOf(d, es)), setup, d, n)
  {
    hide Inv, Legal, Execute, Filled, Happens;
    if n == 0 {
      es := [];
      FirstWrite(setup, d);
    } else {
      var before := FillUp(setup, d, n - 1);
      NewTunnelInv(setup);
      var e := Exchanged(EndOf(setup, RunOf(d, before)), setup, d, n - 1);
      es := before + [e];
      assert es[..|es| - 1] == before;
      RunThen(NewTunnel(setup), RunOf(d, before), e.Steps(d));
    }
  }

  /** The promise of recovery fails. In every such setting there is a run of 16384 round trips, all of them whole but
      for one lost reply, after which the client lacks one block, its ack is 65536 bytes long, and it can make no
      further round trip. */
  lemma LostReplyStopsRequests(setup: Setup, d: bytes) returns (es: seq<Exchange>)
    requires Suits(setup, d)
    ensures |es| == 16384 && AllHappen(setup, d, es) && LegalRun(setup, RunOf(d, es))
    ensures var t := EndOf(setup, RunOf(d, es));
      && HeldCount(t, Client) == 16383 && t.client.into.recv.next == 1 && |AckSection(t.client.into.recv)| == U16
      && !Delivered(t.server.out, t.client.into) && forall trip :: !Undisturbed(t, trip)
  {
    hide Inv, RunOf, LegalRun, EndOf, Undisturbed, Delivered, AllHappen;
    es := FillUp(setup, d, 16384);
    var t := EndOf(setup, RunOf(d, es));
    Overfull(t);
    AckLength(t.client.into.recv);
  }
}
