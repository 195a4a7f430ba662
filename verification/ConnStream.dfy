/** The two ends of one connection. Every frame either end ever sent may be delivered to the other any number of times
    and in any order. */
module ConnStream {
  import opened Bytes
  import opened Commands
  import opened Conn
  import opened ConnRuns
  import opened Wrappers

  datatype Pair = Pair(client: Live, peer: Live, connect: Cmd)

  /** Which end acts; a delivery goes to that end and carries the i-th command of the other. */
  datatype Turn =
    | ToClient(i: nat)
    | ToPeer(i: nat)
    | AtClient(step: Step)
    | AtPeer(step: Step)

  /** What the client sends: the connect command, which `create_conn` numbers 0, and then the connection's own. */
  function FromClient(p: Pair): seq<Cmd> {
    [p.connect] + Cmds(p.client.conn.out.sent)
  }

  function FromPeer(p: Pair): seq<Cmd> {
    Cmds(p.peer.conn.out.sent)
  }

  predicate Possible(p: Pair, t: Turn) {
    match t
    case ToClient(i) => i < |FromPeer(p)| && 1 + i < U32 && CmdInRange(FromPeer(p)[i])
    case ToPeer(i) => i < |FromClient(p)| && i < U32 && CmdInRange(FromClient(p)[i])
    case AtClient(step) => !step.Frame? && Enabled(p.client, step)
    case AtPeer(step) => !step.Frame? && Enabled(p.peer, step)
  }

  function Play(p: Pair, t: Turn): Pair
    requires Possible(p, t)
  {
    match t
    case ToClient(i) => p.(client := Apply(p.client, Frame(BuildCmd(1 + i, FromPeer(p)[i]))))
    case ToPeer(i) => p.(peer := Apply(p.peer, Frame(BuildCmd(i, FromClient(p)[i]))))
    case AtClient(step) => p.(client := Apply(p.client, step))
    case AtPeer(step) => p.(peer := Apply(p.peer, step))
  }

  /** An end has performed a prefix of what the other sent, and holds only commands the other sent. */
  ghost predicate Follows(i: Inbox, first: nat, cmds: seq<Cmd>) {
    && i.next == first + |i.performed|
    && i.performed <= cmds
    && forall k :: k in i.queue ==> i.next <= k < first + |cmds| && ParseBody(i.queue[k]) == Some(cmds[k - first])
  }

  ghost predicate PairInv(p: Pair) {
    && Inv(p.client, 1) && Inv(p.peer, 0)
    && Follows(p.client.conn.inbox, 1, FromPeer(p))
    && Follows(p.peer.conn.inbox, 0, FromClient(p))
    && p.connect.Connect?
  }

  lemma TakeFollows(i: Inbox, first: nat, cmds: seq<Cmd>)
    requires Follows(i, first, cmds) && i.next in i.queue
    ensures Follows(Take(i), first, cmds) && ParseBody(i.queue[i.next]).Some?
  {
    hide ParseBody;
    assert cmds[..|i.performed|] == i.performed;
    assert cmds[..|i.performed| + 1] == i.performed + [cmds[|i.performed|]];
  }

  /** A loop performs only what follows, and only adds to what goes out. */
  lemma {:induction false} LoopFollows(c: Conn, first: nat, cmds: seq<Cmd>)
    requires Follows(c.inbox, first, cmds)
    ensures Follows(Loop(c).conn.inbox, first, cmds)
    ensures c.out.sent <= Loop(c).conn.out.sent
    decreases c.inbox.queue
  {
    hide ParseBody, Perform, Take, Follows;
    if c.running && c.inbox.next in c.inbox.queue {
      TakeFollows(c.inbox, first, cmds);
      TakeShrinks(c.inbox);
      match ParseBody(c.inbox.queue[c.inbox.next])
      case None =>
      case Some(cmd) =>
        PerformKeepsInbox(c.(inbox := Take(c.inbox)), cmd);
        PerformAdds(c.(inbox := Take(c.inbox)), cmd);
        var s := Perform(c.(inbox := Take(c.inbox)), cmd);
        if s.pause == Done {
          LoopFollows(s.conn, first, cmds);
        }
    }
  }

  lemma PerformAdds(c: Conn, cmd: Cmd)
    ensures c.out.sent <= Perform(c, cmd).conn.out.sent
  {
  }

  lemma WakeAdds(c: Conn, p: Pause, o: Outcome)
    ensures c.out.sent <= Wake(c, p, o).out.sent && Wake(c, p, o).inbox == c.inbox
  {
  }

  lemma FollowsMore(i: Inbox, first: nat, cmds: seq<Cmd>, more: seq<Cmd>)
    requires Follows(i, first, cmds) && cmds <= more
    ensures Follows(i, first, more)
  {
    assert forall k :: 0 <= k < |cmds| ==> more[k] == cmds[k];
  }

  /** A frame the other end sent arrives. */
  lemma FrameFollows(l: Live, first: nat, cmds: seq<Cmd>, i: nat)
    requires Follows(l.conn.inbox, first, cmds) && i < |cmds| && first + i < U32 && CmdInRange(cmds[i])
    ensures var l' := Apply(l, Frame(BuildCmd(first + i, cmds[i])));
      Follows(l'.conn.inbox, first, cmds) && l.conn.out.sent <= l'.conn.out.sent
  {
    hide ParseBody, BuildCmd, FromLE, Loop;
    var frame := BuildCmd(first + i, cmds[i]);
    ParseBuildCmd(first + i, cmds[i]);
    var c := l.conn;
    if c.running && first + i >= c.inbox.next {
      var c' := c.(inbox := c.inbox.(queue := c.inbox.queue[first + i := frame[4..]]));
      assert Follows(c'.inbox, first, cmds);
      LoopFollows(c', first, cmds);
    }
  }

  /** Anything else an end does. */
  lemma StepFollows(l: Live, first: nat, cmds: seq<Cmd>, step: Step)
    requires Follows(l.conn.inbox, first, cmds) && Enabled(l, step) && !step.Frame?
    ensures var l' := Apply(l, step);
      Follows(l'.conn.inbox, first, cmds) && l.conn.out.sent <= l'.conn.out.sent
  {
    hide Loop, Wake, Follows;
    match step
    case GetWriter =>
    case Resume(i, outcome) =>
      WakeAdds(l.conn, l.loops[i], outcome);
      LoopFollows(Wake(l.conn, l.loops[i], outcome), first, cmds);
    case Receive(_) =>
    case Halt =>
  }

  lemma CmdsGrow(a: seq<(nat, Cmd)>, b: seq<(nat, Cmd)>)
    requires a <= b
    ensures Cmds(a) <= Cmds(b)
  {
  }

  lemma PlayKeeps(p: Pair, t: Turn)
    requires PairInv(p) && Possible(p, t)
    ensures PairInv(Play(p, t))
  {
    hide Inv, Apply, Follows, BuildCmd, Cmds;
    var q := Play(p, t);
    match t {
      case ToClient(i) =>
        ApplyKeeps(p.client, 1, Frame(BuildCmd(1 + i, FromPeer(p)[i])));
        FrameFollows(p.client, 1, FromPeer(p), i);
      case ToPeer(i) =>
        ApplyKeeps(p.peer, 0, Frame(BuildCmd(i, FromClient(p)[i])));
        FrameFollows(p.peer, 0, FromClient(p), i);
      case AtClient(step) =>
        ApplyKeeps(p.client, 1, step);
        StepFollows(p.client, 1, FromPeer(p), step);
      case AtPeer(step) =>
        ApplyKeeps(p.peer, 0, step);
        StepFollows(p.peer, 0, FromClient(p), step);
    }
    CmdsGrow(p.client.conn.out.sent, q.client.conn.out.sent);
    CmdsGrow(p.peer.conn.out.sent, q.peer.conn.out.sent);
    FollowsMore(q.client.conn.inbox, 1, FromPeer(p), FromPeer(q));
    FollowsMore(q.peer.conn.inbox, 0, FromClient(p), FromClient(q));
  }

  ghost predicate Legal(p: Pair, turns: seq<Turn>)
    decreases |turns|
  {
    turns == [] || (Possible(p, turns[0]) && Legal(Play(p, turns[0]), turns[1..]))
  }

  function Run(p: Pair, turns: seq<Turn>): Pair
    requires Legal(p, turns)
    decreases |turns|
  {
    if turns == [] then p else Run(Play(p, turns[0]), turns[1..])
  }

  lemma {:induction false} RunKeeps(p: Pair, turns: seq<Turn>)
    requires PairInv(p) && Legal(p, turns)
    ensures PairInv(Run(p, turns))
    decreases |turns|
  {
    hide PairInv, Play, Possible;
    if turns != [] {
      PlayKeeps(p, turns[0]);
      RunKeeps(Play(p, turns[0]), turns[1..]);
    }
  }

  function NewPair(clientWindow: nat, peerWindow: nat, host: bytes, port: nat): Pair {
    Pair(Live(ClientConn(clientWindow), []), Live(PeerConn(peerWindow), []), Connect(0, host, port))
  }

  lemma NewPairInv(clientWindow: nat, peerWindow: nat, host: bytes, port: nat)
    ensures PairInv(NewPair(clientWindow, peerWindow, host, port))
  {
    assert Cmds([]) == [];
  }

  lemma {:induction false} PayloadsPrefix(a: seq<Cmd>, b: seq<Cmd>)
    requires a <= b
    ensures Payloads(a) <= Payloads(b) && MaxAck(a) <= MaxAck(b)
  {
    if |a| < |b| {
      PayloadsPrefix(a, b[..|b| - 1]);
    } else {
      assert a == b;
    }
  }

  lemma {:induction false} MaxAckBound(cmds: seq<Cmd>, bound: nat)
    requires forall i :: 0 <= i < |cmds| && cmds[i].Ack? ==> cmds[i].position <= bound
    ensures MaxAck(cmds) <= bound
  {
    if cmds != [] {
      MaxAckBound(cmds[..|cmds| - 1], bound);
    }
  }

  lemma ConnectCarriesNothing(connect: Cmd, cmds: seq<Cmd>)
    requires connect.Connect?
    ensures Payloads([connect] + cmds) == Payloads(cmds)
    decreases |cmds|
  {
    var all := [connect] + cmds;
    if cmds == [] {
      assert all == [connect] && all[..0] == [];
    } else {
      ConnectCarriesNothing(connect, cmds[..|cmds| - 1]);
      assert all[..|all| - 1] == [connect] + cmds[..|cmds| - 1];
    }
  }

  /** What reached one end was read at the other. */
  lemma PerformedWasRead(i: Inbox, first: nat, cmds: seq<Cmd>, o: Outgoing)
    requires Follows(i, first, cmds) && OutOk(o) && Payloads(cmds) == Payloads(Cmds(o.sent))
    ensures Payloads(i.performed) <= o.readAll && |Payloads(i.performed)| <= o.received
  {
    PayloadsPrefix(i.performed, cmds);
  }

  /** The guard, over a run: whenever the end performs a command with data, its writer is set. */
  predicate HasWriterThroughout(p: Pair, turns: seq<Turn>, atClient: bool)
    requires Legal(p, turns)
    decreases |turns|
  {
    turns == [] ||
    (TurnHasWriter(p, turns[0], atClient) && HasWriterThroughout(Play(p, turns[0]), turns[1..], atClient))
  }

  predicate TurnHasWriter(p: Pair, t: Turn, atClient: bool)
    requires Possible(p, t)
  {
    match t
    case ToClient(i) => atClient ==> StepHasWriter(p.client, Frame(BuildCmd(1 + i, FromPeer(p)[i])))
    case ToPeer(i) => !atClient ==> StepHasWriter(p.peer, Frame(BuildCmd(i, FromClient(p)[i])))
    case AtClient(step) => atClient ==> StepHasWriter(p.client, step)
    case AtPeer(step) => !atClient ==> StepHasWriter(p.peer, step)
  }

  function End(p: Pair, atClient: bool): Conn {
    if atClient then p.client.conn else p.peer.conn
  }

  lemma PlayWrites(p: Pair, t: Turn, atClient: bool)
    requires PairInv(p) && Possible(p, t)
    ensures AllWritten(End(Play(p, t), atClient)) <==> AllWritten(End(p, atClient)) && TurnHasWriter(p, t, atClient)
  {
    hide Apply, StepHasWriter, BuildCmd, Follows, Payloads, AllWritten;
    match t {
      case ToClient(i) => StepWrites(p.client, Frame(BuildCmd(1 + i, FromPeer(p)[i])));
      case ToPeer(i) => StepWrites(p.peer, Frame(BuildCmd(i, FromClient(p)[i])));
      case AtClient(step) => StepWrites(p.client, step);
      case AtPeer(step) => StepWrites(p.peer, step);
    }
  }

  lemma {:induction false} PairWrites(p: Pair, turns: seq<Turn>, atClient: bool)
    requires PairInv(p) && Legal(p, turns)
    ensures AllWritten(End(Run(p, turns), atClient))
       <==> AllWritten(End(p, atClient)) && HasWriterThroughout(p, turns, atClient)
    decreases |turns|
  {
    hide PairInv, Play, Possible, AllWritten, TurnHasWriter;
    if turns != [] {
      PlayKeeps(p, turns[0]);
      PlayWrites(p, turns[0], atClient);
      PairWrites(Play(p, turns[0]), turns[1..], atClient);
    }
  }

  /** In every run, with frames delivered in any order and with repeats, the commands an end performed carry a prefix of
      what the other end's reader read, and all they carried was written if and only if a writer was set whenever a
      command with data was performed. */
  lemma WritesAllIffWriterThroughout(clientWindow: nat, peerWindow: nat, host: bytes, port: nat, turns: seq<Turn>,
    atClient: bool)
    requires Legal(NewPair(clientWindow, peerWindow, host, port), turns)
    ensures var p0 := NewPair(clientWindow, peerWindow, host, port);
      var p := Run(p0, turns);
      && Payloads(End(p, atClient).inbox.performed) <= End(p, !atClient).out.readAll
      && (End(p, atClient).to.written == Payloads(End(p, atClient).inbox.performed)
          <==> HasWriterThroughout(p0, turns, atClient))
  {
    hide Follows, OutOk, InOrder, AcksOk, HasWriterThroughout;
    var p0 := NewPair(clientWindow, peerWindow, host, port);
    NewPairInv(clientWindow, peerWindow, host, port);
    RunKeeps(p0, turns);
    PairWrites(p0, turns, atClient);
    var p := Run(p0, turns);
    ConnectCarriesNothing(p.connect, Cmds(p.client.conn.out.sent));
    PerformedWasRead(p.peer.conn.inbox, 0, FromClient(p), p.client.conn.out);
    PerformedWasRead(p.client.conn.inbox, 1, FromPeer(p), p.peer.conn.out);
  }

  lemma {:induction false} WriterStays(p: Pair, turns: seq<Turn>)
    requires Legal(p, turns) && WriterWhileRunning(p.client.conn)
    ensures HasWriterThroughout(p, turns, true)
    decreases |turns|
  {
    hide WriterWhileRunning, StepHasWriter, Apply, Enabled, BuildCmd, Cmds;
    if turns != [] {
      match turns[0] {
        case ToClient(i) =>
          var frame := BuildCmd(1 + i, FromPeer(p)[i]);
          FrameEnabled(p.client, frame);
          StepMeetsWriter(p.client, Frame(frame));
        case ToPeer(_) =>
        case AtClient(step) => StepMeetsWriter(p.client, step);
        case AtPeer(_) =>
      }
      WriterStays(Play(p, turns[0]), turns[1..]);
    }
  }

  lemma FrameEnabled(l: Live, frame: bytes)
    ensures Enabled(l, Frame(frame))
  {
  }

  /** So a client whose socket gets its writer before anything else happens writes a prefix of what the peer's reader
      read, in every run. */
  lemma ClientReceivesPrefix(clientWindow: nat, peerWindow: nat, host: bytes, port: nat, turns: seq<Turn>)
    requires Legal(NewPair(clientWindow, peerWindow, host, port), turns)
    requires turns != [] && turns[0] == AtClient(GetWriter)
    ensures var p := Run(NewPair(clientWindow, peerWindow, host, port), turns);
      p.client.conn.to.written <= p.peer.conn.out.readAll
  {
    hide HasWriterThroughout;
    var p := NewPair(clientWindow, peerWindow, host, port);
    WriterStays(Play(p, turns[0]), turns[1..]);
    FirstTurn(p, turns);
    WritesAllIffWriterThroughout(clientWindow, peerWindow, host, port, turns, true);
  }

  lemma FirstTurn(p: Pair, turns: seq<Turn>)
    requires Legal(p, turns) && turns != [] && turns[0] == AtClient(GetWriter)
    requires HasWriterThroughout(Play(p, turns[0]), turns[1..], true)
    ensures HasWriterThroughout(p, turns, true)
  {
  }

  /** What one end believes the other has written: no more than it passed on. */
  lemma AckedWasReceived(c: Conn, d: Conn, firstC: nat, firstD: nat, pendingC: nat, pendingD: nat, fromD: seq<Cmd>,
    fromC: seq<Cmd>)
    requires ConnOk(c, firstC, pendingC) && ConnOk(d, firstD, pendingD)
    requires Follows(c.inbox, firstC, fromD) && Follows(d.inbox, firstD, fromC)
    requires MaxAck(fromD) == MaxAck(Cmds(d.out.sent)) && Payloads(fromC) == Payloads(Cmds(c.out.sent))
    ensures c.remoteAcked <= d.to.sentWindow <= d.to.sended <= |d.to.written| <= c.out.received
  {
    hide InOrder;
    PayloadsPrefix(c.inbox.performed, fromD);
    MaxAckBound(Cmds(d.out.sent), d.to.sentWindow);
    PerformedWasRead(d.inbox, firstD, fromC, c.out);
  }

  lemma ConnectAcksNothing(connect: Cmd, cmds: seq<Cmd>)
    requires connect.Connect?
    ensures MaxAck([connect] + cmds) == MaxAck(cmds)
    decreases |cmds|
  {
    var all := [connect] + cmds;
    if cmds == [] {
      assert all == [connect] && all[..0] == [];
    } else {
      ConnectAcksNothing(connect, cmds[..|cmds| - 1]);
      assert all[..|all| - 1] == [connect] + cmds[..|cmds| - 1];
    }
  }

  /** Flow control in every run, at both ends: the position an end holds as acked was written by the other end, and
      never passes the bytes it has itself passed on. */
  lemma AckedNeverPassesReceived(clientWindow: nat, peerWindow: nat, host: bytes, port: nat, turns: seq<Turn>)
    requires Legal(NewPair(clientWindow, peerWindow, host, port), turns)
    ensures var p := Run(NewPair(clientWindow, peerWindow, host, port), turns);
      && p.client.conn.remoteAcked <= |p.peer.conn.to.written| <= p.client.conn.out.received
      && p.peer.conn.remoteAcked <= |p.client.conn.to.written| <= p.peer.conn.out.received
  {
    hide Follows, ConnOk;
    NewPairInv(clientWindow, peerWindow, host, port);
    RunKeeps(NewPair(clientWindow, peerWindow, host, port), turns);
    var p := Run(NewPair(clientWindow, peerWindow, host, port), turns);
    var c, d := p.client.conn, p.peer.conn;
    ConnectCarriesNothing(p.connect, Cmds(c.out.sent));
    ConnectAcksNothing(p.connect, Cmds(c.out.sent));
    AckedWasReceived(c, d, 1, 0, Pending(p.client.loops), Pending(p.peer.loops), FromPeer(p), FromClient(p));
    AckedWasReceived(d, c, 0, 1, Pending(p.peer.loops), Pending(p.client.loops), FromClient(p), FromPeer(p));
  }

  /** The next command arrives at an empty queue: it is performed alone. */
  lemma PutNext(c: Conn, cmd: Cmd)
    requires c.running && c.inbox.queue == map[] && c.inbox.next < U32 && CmdInRange(cmd)
    ensures Put(c, BuildCmd(c.inbox.next, cmd))
         == Perform(c.(inbox := Inbox(c.inbox.next + 1, map[], c.inbox.performed + [cmd])), cmd)
  {
    hide BuildCmd, ParseBody, FromLE, Perform;
    var frame := BuildCmd(c.inbox.next, cmd);
    ParseBuildCmd(c.inbox.next, cmd);
    var c' := c.(inbox := c.inbox.(queue := c.inbox.queue[c.inbox.next := frame[4..]]));
    assert c'.inbox.queue - {c.inbox.next} == map[];
    assert Take(c'.inbox) == Inbox(c.inbox.next + 1, map[], c.inbox.performed + [cmd]);
    var s := Perform(c'.(inbox := Take(c'.inbox)), cmd);
    PerformKeepsInbox(c'.(inbox := Take(c'.inbox)), cmd);
    assert Loop(s.conn) == Segment(s.conn, Done);
  }

  lemma RunNothing(l: Live)
    ensures ConnRuns.Legal(l, []) && ConnRuns.Run(l, []) == l
  {
  }

  /** The four states of the run below. */
  lemma OvertakenStates(connect: Cmd, a: bytes, b: bytes) returns (l1: Live, l2: Live, l3: Live, l4: Live)
    requires connect.Connect? && CmdInRange(connect) && a != []
    ensures l1 == Apply(Live(PeerConn(40), []), Frame(BuildCmd(0, connect)))
    ensures l2 == Apply(l1, Frame(BuildCmd(1, Data(a))))
    ensures Enabled(l2, Resume(0, Ok)) && l3 == Apply(l2, Resume(0, Ok))
    ensures l4 == Apply(l3, Frame(BuildCmd(2, Data(b))))
    ensures l4.conn.to.written == b && l4.conn.inbox.performed == [connect, Data(a), Data(b)]
  {
    hide BuildCmd, Put, ParseBody, Drained;
    var c0 := PeerConn(40);
    PutNext(c0, connect);
    l1 := Apply(Live(c0, []), Frame(BuildCmd(0, connect)));
    assert l1 == Live(c0.(inbox := Inbox(1, map[], [connect])), [Connecting]);
    PutNext(l1.conn, Data(a));
    l2 := Apply(l1, Frame(BuildCmd(1, Data(a))));
    assert l2.loops == [Connecting] && l2.conn.inbox == Inbox(2, map[], [connect, Data(a)]);
    l3 := Apply(l2, Resume(0, Ok));
    assert l3.conn == l2.conn.(to := l2.conn.to.(ready := true));
    PutNext(l3.conn, Data(b));
    l4 := Apply(l3, Frame(BuildCmd(2, Data(b))));
  }

  /** The exception is real: data that overtakes the connect is taken and lost, and later data is written without it. */
  lemma DataDuringConnectIsLost(connect: Cmd, a: bytes, b: bytes)
    requires connect.Connect? && CmdInRange(connect) && a != []
    ensures var steps := [Frame(BuildCmd(0, connect)), Frame(BuildCmd(1, Data(a))), Resume(0, Ok),
      Frame(BuildCmd(2, Data(b)))];
      && ConnRuns.Legal(Live(PeerConn(40), []), steps)
      && var c := ConnRuns.Run(Live(PeerConn(40), []), steps).conn;
         c.to.written == b && c.inbox.performed == [connect, Data(a), Data(b)]
  {
    hide BuildCmd, Put, Apply, ConnRuns.Legal, ConnRuns.Run;
    var l1, l2, l3, l4 := OvertakenStates(connect, a, b);
    var s1, s2, s3, s4 := Frame(BuildCmd(0, connect)), Frame(BuildCmd(1, Data(a))), Resume(0, Ok),
      Frame(BuildCmd(2, Data(b)));
    RunNothing(l4);
    StepThen(l3, s4, []);
    StepThen(l2, s3, [s4] + []);
    StepThen(l1, s2, [s3] + ([s4] + []));
    StepThen(Live(PeerConn(40), []), s1, [s2] + ([s3] + ([s4] + [])));
    assert [s1] + ([s2] + ([s3] + ([s4] + []))) == [s1, s2, s3, s4];
  }

  /** The same at the client's end: data that arrives before the socket has its writer is taken and lost. */
  lemma DataBeforeSocketIsLost(windowsAck: nat, a: bytes, b: bytes)
    requires a != []
    ensures var steps := [Frame(BuildCmd(1, Data(a))), GetWriter, Frame(BuildCmd(2, Data(b)))];
      && ConnRuns.Legal(Live(ClientConn(windowsAck), []), steps)
      && var c := ConnRuns.Run(Live(ClientConn(windowsAck), []), steps).conn;
         c.to.written == b && c.inbox.performed == [Data(a), Data(b)]
  {
    hide BuildCmd, Put, ConnRuns.Legal, ConnRuns.Run;
    var s1, s2, s3 := Frame(BuildCmd(1, Data(a))), GetWriter, Frame(BuildCmd(2, Data(b)));
    var l0 := Live(ClientConn(windowsAck), []);
    PutNext(l0.conn, Data(a));
    var l1 := Apply(l0, s1);
    assert l1 == Live(l0.conn.(inbox := Inbox(2, map[], [Data(a)])), []);
    var l2 := Apply(l1, s2);
    PutNext(l2.conn, Data(b));
    var l3 := Apply(l2, s3);
    RunNothing(l3);
    StepThen(l2, s3, []);
    StepThen(l1, s2, [s3] + []);
    StepThen(l0, s1, [s2] + ([s3] + []));
    assert [s1] + ([s2] + ([s3] + [])) == [s1, s2, s3];
  }
}
