/** One connection under any interleaving of its drain loops: a loop may be suspended in the writer, or in a connect,
    while other frames arrive and start loops of their own. */
module ConnRuns {
  import opened Bytes
  import opened Commands
  import opened Conn

  /** A connection with its suspended loops. */
  datatype Live = Live(conn: Conn, loops: seq<Pause>)

  /** `GetWriter`: the client's `add_sock`, which `create_conn` awaits after it has registered the connection. */
  datatype Step =
    | GetWriter
    | Frame(frame: bytes)
    | Resume(i: nat, outcome: Outcome)
    | Receive(data: bytes)
    | Halt

  predicate Suspended(p: Pause) {
    p.Writing? || p.Connecting?
  }

  function With(loops: seq<Pause>, p: Pause): seq<Pause> {
    if Suspended(p) then loops + [p] else loops
  }

  predicate Enabled(l: Live, step: Step) {
    (step.Resume? ==> step.i < |l.loops|) && (step.GetWriter? ==> l.conn.isClient)
  }

  function Apply(l: Live, step: Step): Live
    requires Enabled(l, step)
  {
    match step
    case GetWriter => l.(conn := WithWriter(l.conn))
    case Frame(frame) => var s := Put(l.conn, frame); Live(s.conn, With(l.loops, s.pause))
    case Resume(i, outcome) =>
      var s := Loop(Wake(l.conn, l.loops[i], outcome));
      Live(s.conn, With(l.loops[..i] + l.loops[i + 1..], s.pause))
    case Receive(data) => l.(conn := l.conn.(out := Read(l.conn.out, data)))
    case Halt => l.(conn := Stop(l.conn))
  }

  function PayloadOf(cmd: Cmd): bytes {
    if cmd.Data? then cmd.payload else []
  }

  /** The data a list of commands carries, in order. */
  function Payloads(cmds: seq<Cmd>): bytes {
    if cmds == [] then [] else Payloads(cmds[..|cmds| - 1]) + PayloadOf(cmds[|cmds| - 1])
  }

  /** The highest position acked by a list of commands. */
  function MaxAck(cmds: seq<Cmd>): nat {
    if cmds == [] then 0
    else
      var m, last := MaxAck(cmds[..|cmds| - 1]), cmds[|cmds| - 1];
      if last.Ack? && last.position > m then last.position else m
  }

  function Cmds(sent: seq<(nat, Cmd)>): (r: seq<Cmd>)
    ensures |r| == |sent| && forall i :: 0 <= i < |r| ==> r[i] == sent[i].1
  {
    seq(|sent|, i requires 0 <= i < |sent| => sent[i].1)
  }

  function PendingOf(p: Pause): nat {
    if p.Writing? then p.n else 0
  }

  /** Bytes written whose drain has not returned. */
  function Pending(loops: seq<Pause>): nat {
    if loops == [] then 0 else Pending(loops[..|loops| - 1]) + PendingOf(loops[|loops| - 1])
  }

  lemma {:induction false} PendingConcat(a: seq<Pause>, b: seq<Pause>)
    ensures Pending(a + b) == Pending(a) + Pending(b)
  {
    if b == [] {
      assert a + b == a;
    } else {
      assert (a + b)[..|a + b| - 1] == a + b[..|b| - 1];
      PendingConcat(a, b[..|b| - 1]);
    }
  }

  lemma PendingWith(loops: seq<Pause>, p: Pause)
    ensures Pending(With(loops, p)) == Pending(loops) + (if Suspended(p) then PendingOf(p) else 0)
  {
    if Suspended(p) {
      assert (loops + [p])[..|loops|] == loops;
    }
  }

  lemma PendingRemoved(loops: seq<Pause>, i: nat)
    requires i < |loops| && Suspended(loops[i])
    ensures Pending(loops[..i] + loops[i + 1..]) == Pending(loops) - PendingOf(loops[i])
  {
    hide Pending, PendingOf;
    var before, after := loops[..i], loops[i + 1..];
    assert loops == before + [loops[i]] + after;
    PendingConcat(before + [loops[i]], after);
    PendingConcat(before, after);
    PendingWith(before, loops[i]);
  }

  /** Commands were performed in consecutive order, each once, and only later ones wait. */
  ghost predicate InOrder(i: Inbox, first: nat) {
    && i.next == first + |i.performed|
    && forall k :: k in i.queue ==> k >= i.next
  }

  /** Commands go out numbered 1, 2, 3, ...; a close comes once and last; and the data passed on is what was read, up
      to the close. */
  ghost predicate OutOk(o: Outgoing) {
    && o.nextRecv == 1 + |o.sent|
    && (forall i :: 0 <= i < |o.sent| ==> o.sent[i].0 == 1 + i)
    && (forall i :: 0 <= i < |o.sent| ==> (o.sent[i].1.Close? <==> o.closeSent && i == |o.sent| - 1))
    && (o.closeSent ==> |o.sent| > 0)
    && Payloads(Cmds(o.sent)) <= o.readAll
    && (!o.closeSent ==> Payloads(Cmds(o.sent)) == o.readAll)
    && o.received == |Payloads(Cmds(o.sent))|
  }

  /** Acks go out more than the ack window apart and never pass the counted position; the last one, until a close went
      out, is the reported position; and what is counted but not yet reported never stays above the ack window. */
  ghost predicate AcksOk(o: Outgoing, w: Writer) {
    && (forall i, j :: 0 <= i < j < |o.sent| && o.sent[i].1.Ack? && o.sent[j].1.Ack?
          ==> o.sent[i].1.position + w.windowsAck < o.sent[j].1.position)
    && (forall i :: 0 <= i < |o.sent| && o.sent[i].1.Ack? ==> w.windowsAck < o.sent[i].1.position <= w.sentWindow)
    && (!o.closeSent ==> MaxAck(Cmds(o.sent)) == w.sentWindow)
    && w.sentWindow <= w.sended <= w.sentWindow + w.windowsAck
  }

  /** No more is written than the performed commands carried, and what is counted or pending was written. */
  ghost predicate WrittenOk(w: Writer, performed: seq<Cmd>, pending: nat) {
    w.sended + pending <= |w.written| <= |Payloads(performed)|
  }

  /** Everything the performed commands carried was written, in their order. */
  ghost predicate AllWritten(c: Conn) {
    c.to.written == Payloads(c.inbox.performed)
  }

  ghost predicate ConnOk(c: Conn, first: nat, pending: nat) {
    && InOrder(c.inbox, first)
    && OutOk(c.out) && AcksOk(c.out, c.to)
    && WrittenOk(c.to, c.inbox.performed, pending)
    && c.remoteAcked == MaxAck(c.inbox.performed)
    && (c.isClient <==> first == 1)
  }

  /** No stall: when the next command waits, some loop is under way. */
  ghost predicate NoStall(l: Live) {
    l.conn.running && l.conn.inbox.next in l.conn.inbox.queue ==> l.loops != []
  }

  ghost predicate Inv(l: Live, first: nat) {
    ConnOk(l.conn, first, Pending(l.loops)) && NoStall(l) && forall i :: 0 <= i < |l.loops| ==> Suspended(l.loops[i])
  }

  lemma CmdsSnoc(sent: seq<(nat, Cmd)>, no: nat, cmd: Cmd)
    ensures Payloads(Cmds(sent + [(no, cmd)])) == Payloads(Cmds(sent)) + PayloadOf(cmd)
    ensures MaxAck(Cmds(sent + [(no, cmd)])) == if cmd.Ack? && cmd.position > MaxAck(Cmds(sent)) then cmd.position
      else MaxAck(Cmds(sent))
  {
    assert Cmds(sent + [(no, cmd)])[..|sent|] == Cmds(sent);
  }

  lemma PeerCloseKeeps(o: Outgoing, w: Writer, reason: bytes)
    requires OutOk(o) && AcksOk(o, w)
    ensures OutOk(PeerClose(o, reason)) && AcksOk(PeerClose(o, reason), w)
  {
    hide Payloads, Cmds;
    CmdsSnoc(o.sent, o.nextRecv, Close(reason));
    assert Payloads(Cmds(o.sent)) + [] == Payloads(Cmds(o.sent));
  }

  lemma ReadKeeps(o: Outgoing, w: Writer, data: bytes)
    requires OutOk(o) && AcksOk(o, w)
    ensures OutOk(Read(o, data)) && AcksOk(Read(o, data), w)
  {
    hide Payloads, Cmds;
    CmdsSnoc(o.sent, o.nextRecv, Data(data));
  }

  lemma SendAckKeeps(o: Outgoing, w: Writer, position: nat)
    requires OutOk(o) && AcksOk(o, w.(sended := w.sentWindow)) && position > w.sentWindow + w.windowsAck
    ensures OutOk(SendAck(o, position))
    ensures AcksOk(SendAck(o, position), w.(sended := position, sentWindow := position))
  {
    hide Payloads, Cmds;
    CmdsSnoc(o.sent, o.nextRecv, Ack(position));
    assert Payloads(Cmds(o.sent)) + [] == Payloads(Cmds(o.sent));
  }

  lemma TakeKeeps(i: Inbox, first: nat)
    requires InOrder(i, first) && i.next in i.queue
    ensures InOrder(Take(i), first)
    ensures ParseBody(i.queue[i.next]).Some? ==> Take(i).performed == i.performed + [ParseBody(i.queue[i.next]).value]
    ensures ParseBody(i.queue[i.next]).None? ==> Take(i).performed == i.performed && Take(i).next !in Take(i).queue
  {
    hide ParseBody;
  }

  lemma PerformedSnoc(performed: seq<Cmd>, cmd: Cmd)
    ensures Payloads(performed + [cmd]) == Payloads(performed) + PayloadOf(cmd)
    ensures MaxAck(performed + [cmd]) == if cmd.Ack? && cmd.position > MaxAck(performed) then cmd.position
      else MaxAck(performed)
  {
    assert (performed + [cmd])[..|performed|] == performed;
  }

  /** A taken command keeps everything, with its own bytes pending while its loop is suspended. */
  lemma PerformKeeps(c: Conn, i: Inbox, first: nat, pending: nat, cmd: Cmd)
    requires c.running && ConnOk(c, first, pending) && InOrder(i, first) && i.performed == c.inbox.performed + [cmd]
    ensures ConnOk(Perform(c.(inbox := i), cmd).conn, first, pending + PendingOf(Perform(c.(inbox := i), cmd).pause))
  {
    hide OutOk, AcksOk, InOrder, Payloads, MaxAck, PeerClose;
    var before := c.inbox.performed;
    PerformedSnoc(before, cmd);
    assert Payloads(before) + [] == Payloads(before);
    match cmd
    case Data(payload) =>
      AcksIgnore(c.out, c.to, Perform(c.(inbox := i), cmd).conn.to);
    case Close(_) =>
      PeerCloseKeeps(c.out, c.to, FINISH);
      AcksIgnore(c.out, c.to, c.to.(ready := false));
      AcksIgnore(PeerClose(c.out, FINISH), c.to, c.to.(ready := false));
    case Ack(_) =>
    case Connect(_, _, _) =>
    case Unknown(_, _) =>
  }

  /** The acks depend only on the positions. */
  lemma AcksIgnore(o: Outgoing, w: Writer, w': Writer)
    requires AcksOk(o, w) && w'.sentWindow == w.sentWindow && w'.sended == w.sended && w'.windowsAck == w.windowsAck
    ensures AcksOk(o, w')
  {
  }

  /** One round of the loop: the exception of a malformed command, or a performed command. */
  lemma RoundKeeps(c: Conn, first: nat, pending: nat)
    requires ConnOk(c, first, pending) && c.running && c.inbox.next in c.inbox.queue
    ensures match ParseBody(c.inbox.queue[c.inbox.next])
      case None => ConnOk(c.(inbox := Take(c.inbox)), first, pending) && Take(c.inbox).next !in Take(c.inbox).queue
      case Some(cmd) =>
        var s := Perform(c.(inbox := Take(c.inbox)), cmd);
        ConnOk(s.conn, first, pending + PendingOf(s.pause)) && (s.pause == Done || Suspended(s.pause))
  {
    hide ParseBody, Perform, Take, OutOk, AcksOk, WrittenOk, InOrder;
    TakeKeeps(c.inbox, first);
    match ParseBody(c.inbox.queue[c.inbox.next])
    case None =>
    case Some(cmd) =>
      PerformKeeps(c, Take(c.inbox), first, pending, cmd);
      PauseOfPerform(c.(inbox := Take(c.inbox)), cmd);
  }

  lemma {:induction false} LoopKeeps(c: Conn, first: nat, pending: nat)
    requires ConnOk(c, first, pending)
    ensures var s := Loop(c);
      && ConnOk(s.conn, first, pending + (if Suspended(s.pause) then PendingOf(s.pause) else 0))
      && (!Suspended(s.pause) ==> !(s.conn.running && s.conn.inbox.next in s.conn.inbox.queue))
    decreases c.inbox.queue
  {
    hide ParseBody, Perform, Take, ConnOk;
    if c.running && c.inbox.next in c.inbox.queue {
      RoundKeeps(c, first, pending);
      TakeShrinks(c.inbox);
      match ParseBody(c.inbox.queue[c.inbox.next])
      case None =>
      case Some(cmd) =>
        PerformKeepsInbox(c.(inbox := Take(c.inbox)), cmd);
        var s := Perform(c.(inbox := Take(c.inbox)), cmd);
        if s.pause == Done {
          LoopKeeps(s.conn, first, pending);
        }
    }
  }

  lemma PauseOfPerform(c: Conn, cmd: Cmd)
    ensures Perform(c, cmd).pause == Done || Suspended(Perform(c, cmd).pause)
  {
  }

  lemma DrainedAcks(o: Outgoing, w: Writer, n: nat)
    requires OutOk(o) && AcksOk(o, w)
    ensures w.sended + n - w.sentWindow > w.windowsAck ==>
      && OutOk(SendAck(o, w.sended + n))
      && AcksOk(SendAck(o, w.sended + n), w.(sended := w.sended + n, sentWindow := w.sended + n))
    ensures w.sended + n - w.sentWindow <= w.windowsAck ==> AcksOk(o, w.(sended := w.sended + n))
  {
    hide OutOk, SendAck;
    assert AcksOk(o, w.(sended := w.sentWindow));
    if w.sended + n - w.sentWindow > w.windowsAck {
      SendAckKeeps(o, w, w.sended + n);
    }
  }

  lemma WakeKeeps(c: Conn, first: nat, pending: nat, p: Pause, o: Outcome)
    requires ConnOk(c, first, pending + PendingOf(p)) && Suspended(p)
    ensures ConnOk(Wake(c, p, o), first, pending)
  {
    hide OutOk, AcksOk, InOrder, Payloads, SendAck;
    match p
    case Writing(n) =>
      DrainedAcks(c.out, c.to, n);
      AcksIgnore(c.out, c.to, c.to.(blocked := true));
    case Connecting =>
      PeerCloseKeeps(c.out, c.to, CONNECT_FAIL);
      AcksIgnore(c.out, c.to, c.to.(ready := c.running));
  }

  lemma PutKeeps(c: Conn, first: nat, pending: nat, frame: bytes)
    requires ConnOk(c, first, pending)
    ensures var s := Put(c, frame);
      && ConnOk(s.conn, first, pending + (if Suspended(s.pause) then PendingOf(s.pause) else 0))
      && (!Suspended(s.pause) && s.conn.running && s.conn.inbox.next in s.conn.inbox.queue
          ==> c.running && c.inbox.next in c.inbox.queue)
  {
    hide OutOk, AcksOk, WrittenOk, FromLE;
    if c.running && |frame| >= 4 && FromLE(frame[..4]) >= c.inbox.next {
      var c' := c.(inbox := c.inbox.(queue := c.inbox.queue[FromLE(frame[..4]) := frame[4..]]));
      LoopKeeps(c', first, pending);
    }
  }

  lemma ApplyKeeps(l: Live, first: nat, step: Step)
    requires Inv(l, first) && Enabled(l, step)
    ensures Inv(Apply(l, step), first)
  {
    hide Put, Loop, Wake, OutOk, AcksOk, WrittenOk, InOrder, Pending;
    match step
    case GetWriter => WriterIgnored(l.conn, Pending(l.loops));
    case Frame(frame) =>
      PutKeeps(l.conn, first, Pending(l.loops), frame);
      PendingWith(l.loops, Put(l.conn, frame).pause);
    case Resume(i, outcome) =>
      var rest := l.loops[..i] + l.loops[i + 1..];
      PendingRemoved(l.loops, i);
      WakeKeeps(l.conn, first, Pending(rest), l.loops[i], outcome);
      LoopKeeps(Wake(l.conn, l.loops[i], outcome), first, Pending(rest));
      PendingWith(rest, Loop(Wake(l.conn, l.loops[i], outcome)).pause);
    case Receive(data) => ReadKeeps(l.conn.out, l.conn.to, data);
    case Halt =>
      AcksIgnore(l.conn.out, l.conn.to, Stop(l.conn).to);
      assert WrittenOk(Stop(l.conn).to, l.conn.inbox.performed, Pending(l.loops)) by {
        WrittenIgnores(l.conn, Pending(l.loops));
      }
  }

  lemma WriterIgnored(c: Conn, pending: nat)
    requires AcksOk(c.out, c.to) && WrittenOk(c.to, c.inbox.performed, pending)
    ensures AcksOk(c.out, WithWriter(c).to) && WrittenOk(WithWriter(c).to, c.inbox.performed, pending)
  {
    AcksIgnore(c.out, c.to, WithWriter(c).to);
  }

  lemma WrittenIgnores(c: Conn, pending: nat)
    requires WrittenOk(c.to, c.inbox.performed, pending)
    ensures WrittenOk(Stop(c).to, c.inbox.performed, pending)
  {
  }

  /** The guard: a command with data meets a writer. */
  predicate HasWriter(c: Conn, cmd: Cmd) {
    cmd.Data? && cmd.payload != [] ==> c.to.ready
  }

  /** ... at every command the loop performs before it suspends. */
  predicate LoopHasWriter(c: Conn)
    decreases c.inbox.queue
  {
    c.running && c.inbox.next in c.inbox.queue ==>
      match ParseBody(c.inbox.queue[c.inbox.next])
      case None => true
      case Some(cmd) =>
        var s := Perform(c.(inbox := Take(c.inbox)), cmd);
        PerformKeepsInbox(c.(inbox := Take(c.inbox)), cmd);
        HasWriter(c, cmd) && (s.pause == Done ==> LoopHasWriter(s.conn))
  }

  /** ... in one step. */
  predicate StepHasWriter(l: Live, step: Step)
    requires Enabled(l, step)
  {
    match step
    case GetWriter => true
    case Frame(frame) =>
      l.conn.running && |frame| >= 4 && FromLE(frame[..4]) == l.conn.inbox.next ==>
        var queue := l.conn.inbox.queue[FromLE(frame[..4]) := frame[4..]];
        LoopHasWriter(l.conn.(inbox := l.conn.inbox.(queue := queue)))
    case Resume(i, outcome) => LoopHasWriter(Wake(l.conn, l.loops[i], outcome))
    case Receive(_) => true
    case Halt => true
  }

  /** A performed command is written if and only if it met a writer; once bytes are missing they stay missing. */
  lemma PerformWrites(c: Conn, i: Inbox, cmd: Cmd)
    requires |c.to.written| <= |Payloads(c.inbox.performed)| && i.performed == c.inbox.performed + [cmd]
    ensures var c' := Perform(c.(inbox := i), cmd).conn;
      && |c'.to.written| <= |Payloads(c'.inbox.performed)|
      && (AllWritten(c') <==> AllWritten(c) && HasWriter(c, cmd))
  {
    hide Payloads;
    PerformedSnoc(c.inbox.performed, cmd);
    var before := Payloads(c.inbox.performed);
    assert before + [] == before;
    if cmd.Data? {
      assert |c.to.written| < |before| ==> |c.to.written + cmd.payload| < |before + cmd.payload|;
      assert c.to.written + cmd.payload == before + cmd.payload && |c.to.written| == |before|
        ==> c.to.written == before by {
        AppendedSame(c.to.written, before, cmd.payload);
      }
    }
  }

  lemma AppendedSame(a: bytes, b: bytes, c: bytes)
    ensures a + c == b + c && |a| == |b| ==> a == b
  {
    assert (a + c)[..|a|] == a && (b + c)[..|b|] == b;
  }

  lemma {:induction false} LoopWrites(c: Conn)
    requires |c.to.written| <= |Payloads(c.inbox.performed)|
    ensures |Loop(c).conn.to.written| <= |Payloads(Loop(c).conn.inbox.performed)|
    ensures AllWritten(Loop(c).conn) <==> AllWritten(c) && LoopHasWriter(c)
    decreases c.inbox.queue
  {
    hide ParseBody, Perform, Payloads, HasWriter;
    if c.running && c.inbox.next in c.inbox.queue {
      TakeShrinks(c.inbox);
      match ParseBody(c.inbox.queue[c.inbox.next]) {
        case None =>
        case Some(cmd) =>
          var i := Take(c.inbox);
          PerformWrites(c, i, cmd);
          PerformKeepsInbox(c.(inbox := i), cmd);
          var s := Perform(c.(inbox := i), cmd);
          if s.pause == Done {
            LoopWrites(s.conn);
          }
      }
    }
  }

  lemma WakeWrites(c: Conn, p: Pause, o: Outcome)
    ensures Wake(c, p, o).to.written == c.to.written && Wake(c, p, o).inbox == c.inbox
  {
  }

  lemma StepWrites(l: Live, step: Step)
    requires Enabled(l, step) && |l.conn.to.written| <= |Payloads(l.conn.inbox.performed)|
    ensures AllWritten(Apply(l, step).conn) <==> AllWritten(l.conn) && StepHasWriter(l, step)
  {
    hide Loop, LoopHasWriter, Payloads, FromLE, Wake;
    match step {
      case GetWriter =>
      case Frame(frame) =>
        if |frame| >= 4 {
          var queue := l.conn.inbox.queue[FromLE(frame[..4]) := frame[4..]];
          LoopWrites(l.conn.(inbox := l.conn.inbox.(queue := queue)));
        }
      case Resume(i, outcome) =>
        WakeWrites(l.conn, l.loops[i], outcome);
        LoopWrites(Wake(l.conn, l.loops[i], outcome));
      case Receive(_) =>
      case Halt =>
    }
  }

  /** The bytes whose drain returns in this step. */
  function DrainedBy(l: Live, step: Step): nat
    requires Enabled(l, step)
  {
    if step.Resume? && step.outcome == Ok then PendingOf(l.loops[step.i]) else 0
  }

  function DrainedIn(l: Live, steps: seq<Step>): nat
    requires Legal(l, steps)
    decreases |steps|
  {
    if steps == [] then 0 else DrainedBy(l, steps[0]) + DrainedIn(Apply(l, steps[0]), steps[1..])
  }

  lemma {:induction false} LoopCountsNothing(c: Conn)
    ensures Loop(c).conn.to.sended == c.to.sended && Loop(c).conn.to.windowsAck == c.to.windowsAck
    decreases c.inbox.queue
  {
    hide ParseBody;
    if c.running && c.inbox.next in c.inbox.queue {
      TakeShrinks(c.inbox);
      match ParseBody(c.inbox.queue[c.inbox.next]) {
        case None =>
        case Some(cmd) =>
          PerformKeepsInbox(c.(inbox := Take(c.inbox)), cmd);
          var s := Perform(c.(inbox := Take(c.inbox)), cmd);
          if s.pause == Done {
            LoopCountsNothing(s.conn);
          }
      }
    }
  }

  lemma StepCounts(l: Live, step: Step)
    requires Enabled(l, step)
    ensures Apply(l, step).conn.to.sended == l.conn.to.sended + DrainedBy(l, step)
    ensures Apply(l, step).conn.to.windowsAck == l.conn.to.windowsAck
  {
    hide Loop, FromLE;
    match step {
      case GetWriter =>
      case Frame(frame) =>
        if |frame| >= 4 {
          var queue := l.conn.inbox.queue[FromLE(frame[..4]) := frame[4..]];
          LoopCountsNothing(l.conn.(inbox := l.conn.inbox.(queue := queue)));
        }
      case Resume(i, outcome) => LoopCountsNothing(Wake(l.conn, l.loops[i], outcome));
      case Receive(_) =>
      case Halt =>
    }
  }

  lemma {:induction false} RunCounts(l: Live, steps: seq<Step>)
    requires Legal(l, steps)
    ensures Run(l, steps).conn.to.sended == l.conn.to.sended + DrainedIn(l, steps)
    ensures Run(l, steps).conn.to.windowsAck == l.conn.to.windowsAck
    decreases |steps|
  {
    hide Apply, Enabled, DrainedBy;
    if steps != [] {
      StepCounts(l, steps[0]);
      RunCounts(Apply(l, steps[0]), steps[1..]);
    }
  }

  /** Exactly what was drained is counted, and until a close has gone out the highest ack sent is at most
      `windows_ack` behind it. */
  lemma DrainedIsAcked(isClient: bool, first: nat, windowsAck: nat, steps: seq<Step>)
    requires first == (if isClient then 1 else 0)
    requires Legal(Live(NewConn(isClient, first, windowsAck), []), steps)
    ensures var l := Live(NewConn(isClient, first, windowsAck), []);
      var c, drained := Run(l, steps).conn, DrainedIn(l, steps);
      && c.to.sended == drained
      && (!c.out.closeSent ==> MaxAck(Cmds(c.out.sent)) <= drained <= MaxAck(Cmds(c.out.sent)) + windowsAck)
  {
    hide Legal, Run, DrainedIn;
    NewConnInv(isClient, first, windowsAck);
    RunKeeps(Live(NewConn(isClient, first, windowsAck), []), first, steps);
    RunCounts(Live(NewConn(isClient, first, windowsAck), []), steps);
  }

  ghost predicate Legal(l: Live, steps: seq<Step>)
    decreases |steps|
  {
    steps == [] || (Enabled(l, steps[0]) && Legal(Apply(l, steps[0]), steps[1..]))
  }

  function Run(l: Live, steps: seq<Step>): Live
    requires Legal(l, steps)
    decreases |steps|
  {
    if steps == [] then l else Run(Apply(l, steps[0]), steps[1..])
  }

  lemma StepThen(l: Live, step: Step, rest: seq<Step>)
    requires Enabled(l, step) && Legal(Apply(l, step), rest)
    ensures Legal(l, [step] + rest) && Run(l, [step] + rest) == Run(Apply(l, step), rest)
  {
    assert ([step] + rest)[1..] == rest;
  }

  lemma {:induction false} RunKeeps(l: Live, first: nat, steps: seq<Step>)
    requires Inv(l, first) && Legal(l, steps)
    ensures Inv(Run(l, steps), first)
    decreases |steps|
  {
    hide Inv, Apply, Enabled;
    if steps != [] {
      ApplyKeeps(l, first, steps[0]);
      RunKeeps(Apply(l, steps[0]), first, steps[1..]);
    }
  }

  /** In every run of a connection, for any frames in any order with any repeats and any interleaving of loops:
      commands are performed in consecutive number order, each once; the next command never waits without a loop
      under way; what goes out is numbered consecutively with at most one close, the last; acks rise and the unreported
      lag stays within the window. */
  lemma EveryRunIsOrdered(isClient: bool, first: nat, windowsAck: nat, steps: seq<Step>)
    requires first == (if isClient then 1 else 0)
    requires Legal(Live(NewConn(isClient, first, windowsAck), []), steps)
    ensures var l := Run(Live(NewConn(isClient, first, windowsAck), []), steps);
      InOrder(l.conn.inbox, first) && NoStall(l) && OutOk(l.conn.out) && AcksOk(l.conn.out, l.conn.to)
  {
    NewConnInv(isClient, first, windowsAck);
    RunKeeps(Live(NewConn(isClient, first, windowsAck), []), first, steps);
  }

  lemma NewConnInv(isClient: bool, first: nat, windowsAck: nat)
    requires first == (if isClient then 1 else 0)
    ensures Inv(Live(NewConn(isClient, first, windowsAck), []), first)
    ensures AllWritten(NewConn(isClient, first, windowsAck))
  {
    assert Cmds([]) == [];
  }

  /** The guard, over a run: whenever a command with data is performed, a writer is set. */
  predicate AlwaysWriter(l: Live, steps: seq<Step>)
    requires Legal(l, steps)
    decreases |steps|
  {
    steps == [] || (StepHasWriter(l, steps[0]) && AlwaysWriter(Apply(l, steps[0]), steps[1..]))
  }

  lemma {:induction false} RunWrites(l: Live, first: nat, steps: seq<Step>)
    requires Inv(l, first) && Legal(l, steps)
    ensures AllWritten(Run(l, steps).conn) <==> AllWritten(l.conn) && AlwaysWriter(l, steps)
    decreases |steps|
  {
    hide Apply, Enabled, StepHasWriter, Payloads, InOrder, OutOk, AcksOk;
    if steps != [] {
      StepWrites(l, steps[0]);
      ApplyKeeps(l, first, steps[0]);
      RunWrites(Apply(l, steps[0]), first, steps[1..]);
    }
  }

  /** In every run of a connection of either side, what the performed commands carried was written, all of it and in
      their order, if and only if a writer was set whenever a command with data was performed. */
  lemma WritesAllIffAlwaysWriter(isClient: bool, first: nat, windowsAck: nat, steps: seq<Step>)
    requires first == (if isClient then 1 else 0)
    requires Legal(Live(NewConn(isClient, first, windowsAck), []), steps)
    ensures var l := Live(NewConn(isClient, first, windowsAck), []);
      Run(l, steps).conn.to.written == Payloads(Run(l, steps).conn.inbox.performed) <==> AlwaysWriter(l, steps)
  {
    NewConnInv(isClient, first, windowsAck);
    RunWrites(Live(NewConn(isClient, first, windowsAck), []), first, steps);
  }

  /** A client's writer is set for as long as it runs. */
  ghost predicate WriterWhileRunning(c: Conn) {
    c.isClient && (c.running ==> c.to.ready)
  }

  lemma {:induction false} LoopMeetsWriter(c: Conn)
    requires WriterWhileRunning(c)
    ensures LoopHasWriter(c) && WriterWhileRunning(Loop(c).conn)
    decreases c.inbox.queue
  {
    hide ParseBody;
    if c.running && c.inbox.next in c.inbox.queue {
      TakeShrinks(c.inbox);
      match ParseBody(c.inbox.queue[c.inbox.next]) {
        case None =>
        case Some(cmd) =>
          PerformKeepsInbox(c.(inbox := Take(c.inbox)), cmd);
          var s := Perform(c.(inbox := Take(c.inbox)), cmd);
          if s.pause == Done {
            LoopMeetsWriter(s.conn);
          }
      }
    }
  }

  lemma StepMeetsWriter(l: Live, step: Step)
    requires WriterWhileRunning(l.conn) && Enabled(l, step)
    ensures StepHasWriter(l, step) && WriterWhileRunning(Apply(l, step).conn)
  {
    hide Loop, LoopHasWriter, FromLE;
    match step {
      case GetWriter =>
      case Frame(frame) =>
        if |frame| >= 4 {
          var queue := l.conn.inbox.queue[FromLE(frame[..4]) := frame[4..]];
          LoopMeetsWriter(l.conn.(inbox := l.conn.inbox.(queue := queue)));
        }
      case Resume(i, outcome) => LoopMeetsWriter(Wake(l.conn, l.loops[i], outcome));
      case Receive(_) =>
      case Halt =>
    }
  }
}
