/** How connections end: what a close does, and which closes go out, in every run of a connection. */
module ConnCloses {
  import opened Bytes
  import opened Commands
  import opened Conn
  import opened ConnRuns

  ghost predicate ClosePerformed(performed: seq<Cmd>) {
    exists k :: 0 <= k < |performed| && performed[k].Close?
  }

  /** A performed close is the last command performed. */
  ghost predicate CloseIsLast(performed: seq<Cmd>) {
    forall k :: 0 <= k < |performed| && performed[k].Close? ==> k == |performed| - 1
  }

  /** The step ends a connect that failed. */
  predicate ConnectFails(l: Live, step: Step)
    requires Enabled(l, step)
  {
    step.Resume? && l.loops[step.i].Connecting? && step.outcome == Failed
  }

  ghost predicate SomeConnectFails(l: Live, steps: seq<Step>)
    requires Legal(l, steps)
    decreases |steps|
  {
    steps != [] && (ConnectFails(l, steps[0]) || SomeConnectFails(Apply(l, steps[0]), steps[1..]))
  }

  /** Every close in `sent` has its cause: the close a client performed, or a connect that failed. */
  ghost predicate ClosesHaveCause(sent: seq<(nat, Cmd)>, answers: bool, failed: bool) {
    forall i :: 0 <= i < |sent| && sent[i].1.Close? ==>
      || (sent[i].1.reason == FINISH && answers)
      || (sent[i].1.reason == CONNECT_FAIL && failed)
  }

  /** A close was sent exactly when a client has performed one or a connect has failed. */
  ghost predicate CloseOk(c: Conn, failed: bool) {
    var closed := ClosePerformed(c.inbox.performed);
    && CloseIsLast(c.inbox.performed) && (closed ==> !c.running)
    && (c.out.closeSent <==> (c.isClient && closed) || failed)
    && ClosesHaveCause(c.out.sent, c.isClient && closed, failed)
  }

  lemma PerformCloses(c: Conn, i: Inbox, cmd: Cmd, failed: bool)
    requires CloseOk(c, failed) && c.running && i.performed == c.inbox.performed + [cmd]
    ensures CloseOk(Perform(c.(inbox := i), cmd).conn, failed)
    ensures Perform(c.(inbox := i), cmd).conn.isClient == c.isClient
  {
    var c' := Perform(c.(inbox := i), cmd).conn;
    assert i.performed[|c.inbox.performed|] == cmd;
    assert forall k :: 0 <= k < |c.inbox.performed| ==> i.performed[k] == c.inbox.performed[k];
    assert forall k :: 0 <= k < |c.inbox.performed| ==> !c.inbox.performed[k].Close?;
    assert ClosePerformed(i.performed) <==> cmd.Close?;
  }

  lemma {:induction false} LoopCloses(c: Conn, failed: bool)
    requires CloseOk(c, failed)
    ensures CloseOk(Loop(c).conn, failed) && Loop(c).conn.isClient == c.isClient
    decreases c.inbox.queue
  {
    hide ParseBody, Perform, CloseOk;
    if c.running && c.inbox.next in c.inbox.queue {
      TakeShrinks(c.inbox);
      var i := Take(c.inbox);
      match ParseBody(c.inbox.queue[c.inbox.next]) {
        case None => QueueIgnored(c, i, failed);
        case Some(cmd) =>
          PerformCloses(c, i, cmd, failed);
          PerformKeepsInbox(c.(inbox := i), cmd);
          var s := Perform(c.(inbox := i), cmd);
          if s.pause == Done {
            LoopCloses(s.conn, failed);
          }
      }
    }
  }

  lemma QueueIgnored(c: Conn, i: Inbox, failed: bool)
    requires CloseOk(c, failed) && i.performed == c.inbox.performed
    ensures CloseOk(c.(inbox := i), failed)
  {
  }

  lemma WakeCloses(c: Conn, p: Pause, o: Outcome, failed: bool)
    requires CloseOk(c, failed)
    ensures CloseOk(Wake(c, p, o), failed || (p.Connecting? && o == Failed)) && Wake(c, p, o).isClient == c.isClient
  {
  }

  lemma StepCloses(l: Live, step: Step, failed: bool)
    requires Enabled(l, step) && CloseOk(l.conn, failed)
    ensures CloseOk(Apply(l, step).conn, failed || ConnectFails(l, step))
    ensures Apply(l, step).conn.isClient == l.conn.isClient
  {
    hide Loop, Wake, FromLE;
    match step {
      case GetWriter =>
      case Frame(frame) =>
        if l.conn.running && |frame| >= 4 && FromLE(frame[..4]) >= l.conn.inbox.next {
          var i := l.conn.inbox.(queue := l.conn.inbox.queue[FromLE(frame[..4]) := frame[4..]]);
          QueueIgnored(l.conn, i, failed);
          LoopCloses(l.conn.(inbox := i), failed);
        }
      case Resume(i, outcome) =>
        WakeCloses(l.conn, l.loops[i], outcome, failed);
        LoopCloses(Wake(l.conn, l.loops[i], outcome), failed || ConnectFails(l, step));
      case Receive(_) =>
      case Halt =>
    }
  }

  lemma {:induction false} RunCloses(l: Live, steps: seq<Step>, failed: bool)
    requires Legal(l, steps) && CloseOk(l.conn, failed)
    ensures CloseOk(Run(l, steps).conn, failed || SomeConnectFails(l, steps))
    ensures Run(l, steps).conn.isClient == l.conn.isClient
    decreases |steps|
  {
    hide CloseOk, Apply, Enabled, ConnectFails;
    if steps != [] {
      StepCloses(l, steps[0], failed);
      RunCloses(Apply(l, steps[0]), steps[1..], failed || ConnectFails(l, steps[0]));
    }
  }

  /** In every run of a connection, whatever frames arrive: a performed close is the last command it performs. A close
      goes out if and only if a client has performed one or a connect has failed; it is "finish" only in answer to a
      performed close, and "connect fail" only after such a failure. */
  lemma ClosesAreAnswered(isClient: bool, first: nat, windowsAck: nat, steps: seq<Step>)
    requires Legal(Live(NewConn(isClient, first, windowsAck), []), steps)
    ensures var l := Live(NewConn(isClient, first, windowsAck), []);
      var c, failed := Run(l, steps).conn, SomeConnectFails(l, steps);
      && (forall k :: 0 <= k < |c.inbox.performed| && c.inbox.performed[k].Close? ==>
            k == |c.inbox.performed| - 1 && !c.running)
      && (c.out.closeSent <==>
            || (isClient && exists k :: 0 <= k < |c.inbox.performed| && c.inbox.performed[k].Close?)
            || failed)
      && (forall i :: 0 <= i < |c.out.sent| && c.out.sent[i].1.Close? ==>
            || (c.out.sent[i].1.reason == FINISH && isClient
                && exists k :: 0 <= k < |c.inbox.performed| && c.inbox.performed[k].Close?)
            || (c.out.sent[i].1.reason == CONNECT_FAIL && failed))
  {
    hide Legal, Run, SomeConnectFails;
    RunCloses(Live(NewConn(isClient, first, windowsAck), []), steps, false);
  }

  /** The step gives the connection, still running, a writer: a connect that came off, or the client's socket. */
  predicate GivesWriter(l: Live, step: Step)
    requires Enabled(l, step)
  {
    l.conn.running && (step.GetWriter? || (step.Resume? && l.loops[step.i].Connecting? && step.outcome == Ok))
  }

  ghost predicate SomeGivesWriter(l: Live, steps: seq<Step>)
    requires Legal(l, steps)
    decreases |steps|
  {
    steps != [] && (GivesWriter(l, steps[0]) || SomeGivesWriter(Apply(l, steps[0]), steps[1..]))
  }

  lemma {:induction false} LoopKeepsWriter(c: Conn, given: bool)
    requires c.to.ready <==> c.running && given
    ensures Loop(c).conn.to.ready <==> Loop(c).conn.running && given
    ensures Loop(c).conn.running ==> c.running
    decreases c.inbox.queue
  {
    hide ParseBody;
    if c.running && c.inbox.next in c.inbox.queue {
      TakeShrinks(c.inbox);
      match ParseBody(c.inbox.queue[c.inbox.next]) {
        case None =>
        case Some(cmd) =>
          PerformKeepsInbox(c.(inbox := Take(c.inbox)), cmd);
          var s := Perform(c.(inbox := Take(c.inbox)), cmd);
          if s.pause == Done {
            LoopKeepsWriter(s.conn, given);
          }
      }
    }
  }

  lemma StepKeepsWriter(l: Live, step: Step, given: bool)
    requires Enabled(l, step) && (l.conn.to.ready <==> l.conn.running && given)
    ensures var c := Apply(l, step).conn; c.to.ready <==> c.running && (given || GivesWriter(l, step))
  {
    hide Loop, FromLE;
    match step {
      case GetWriter =>
      case Frame(frame) =>
        if |frame| >= 4 {
          var queue := l.conn.inbox.queue[FromLE(frame[..4]) := frame[4..]];
          LoopKeepsWriter(l.conn.(inbox := l.conn.inbox.(queue := queue)), given);
        }
      case Resume(i, outcome) =>
        LoopKeepsWriter(Wake(l.conn, l.loops[i], outcome), given || GivesWriter(l, step));
      case Receive(_) =>
      case Halt =>
    }
  }

  lemma {:induction false} RunKeepsWriter(l: Live, steps: seq<Step>, given: bool)
    requires Legal(l, steps) && (l.conn.to.ready <==> l.conn.running && given)
    ensures var c := Run(l, steps).conn; c.to.ready <==> c.running && (given || SomeGivesWriter(l, steps))
    decreases |steps|
  {
    hide Apply, Enabled, GivesWriter;
    if steps != [] {
      StepKeepsWriter(l, steps[0], given);
      RunKeepsWriter(Apply(l, steps[0]), steps[1..], given || GivesWriter(l, steps[0]));
    }
  }

  /** In every run a connection has a writer if and only if it still runs and, while it ran, its socket got one or its
      connect came off. */
  lemma WriterIsFromSocket(isClient: bool, first: nat, windowsAck: nat, steps: seq<Step>)
    requires Legal(Live(NewConn(isClient, first, windowsAck), []), steps)
    ensures var l := Live(NewConn(isClient, first, windowsAck), []);
      var c := Run(l, steps).conn; c.to.ready <==> c.running && SomeGivesWriter(l, steps)
  {
    hide Legal, Run, SomeGivesWriter;
    RunKeepsWriter(Live(NewConn(isClient, first, windowsAck), []), steps, false);
  }
}
