/** One connection: numbered commands come in through a queue, numbered commands go out to the session. */
module Conn {
  import opened Bytes
  import opened Commands
  import opened Buffers
  import opened Wrappers

  /** Commands coming in: the next number, the queue, and the commands performed so far. */
  datatype Inbox = Inbox(next: nat, queue: map<nat, bytes>, performed: seq<Cmd>)

  /** Commands going out: the next number, the bytes read and passed on, everything passed to the session with its
      number, and all bytes the reader delivered. */
  datatype Outgoing = Outgoing(closeSent: bool, nextRecv: nat, received: nat, sent: seq<(nat, Cmd)>, readAll: bytes)

  /** The local socket: whether a writer is set, the positions of its acks, and what was written to it. */
  datatype Writer = Writer(ready: bool, blocked: bool, windowsAck: nat, sended: nat, sentWindow: nat, written: bytes)

  datatype Conn = Conn(isClient: bool, running: bool, remoteAcked: nat, inbox: Inbox, out: Outgoing, to: Writer)

  function NewConn(isClient: bool, first: nat, windowsAck: nat): Conn {
    Conn(isClient, true, 0, Inbox(first, map[], []), Outgoing(false, 1, 0, [], []),
         Writer(false, false, windowsAck, 0, 0, []))
  }

  /** A client connection, whose socket is given but has no writer yet; its connect command has gone out as number 0. */
  function ClientConn(windowsAck: nat): Conn {
    NewConn(true, 1, windowsAck)
  }

  /** The peer's side: no socket yet, so it waits for command 0. */
  function PeerConn(windowsAck: nat): Conn {
    NewConn(false, 0, windowsAck)
  }

  const FINISH: bytes := [102, 105, 110, 105, 115, 104]
  const CONNECT_FAIL: bytes := [99, 111, 110, 110, 101, 99, 116, 32, 102, 97, 105, 108]

  function Emit(o: Outgoing, cmd: Cmd): Outgoing {
    o.(sent := o.sent + [(o.nextRecv, cmd)], nextRecv := o.nextRecv + 1)
  }

  function PeerClose(o: Outgoing, reason: bytes): Outgoing {
    if o.closeSent then o else Emit(o, Close(reason)).(closeSent := true)
  }

  function Read(o: Outgoing, data: bytes): Outgoing {
    var o' := o.(readAll := o.readAll + data);
    if o.closeSent then o' else Emit(o', Data(data)).(received := o.received + |data|)
  }

  function SendAck(o: Outgoing, position: nat): Outgoing {
    if o.closeSent then o else Emit(o, Ack(position))
  }

  /** After the writer has drained `n` more bytes: an ack goes out when more than the window is not yet reported. */
  function Drained(c: Conn, n: nat): Conn {
    var sended := c.to.sended + n;
    if sended - c.to.sentWindow > c.to.windowsAck then
      c.(to := c.to.(sended := sended, sentWindow := sended), out := SendAck(c.out, sended))
    else c.(to := c.to.(sended := sended))
  }

  /** Where a drain loop stops: for good, in an exception, waiting for the writer to drain, or connecting. */
  datatype Pause = Done | Raised | Writing(n: nat) | Connecting

  datatype Segment = Segment(conn: Conn, pause: Pause)

  /** Takes the next command off the queue; the number moves only after the fields were read. */
  function Take(i: Inbox): Inbox
    requires i.next in i.queue
  {
    match ParseBody(i.queue[i.next])
    case None => i.(queue := i.queue - {i.next})
    case Some(cmd) => Inbox(i.next + 1, i.queue - {i.next}, i.performed + [cmd])
  }

  /** What a taken command does, up to the first suspension; Done means the loop goes on. */
  function Perform(c: Conn, cmd: Cmd): Segment {
    match cmd
    case Data(payload) =>
      if c.to.ready then Segment(c.(to := c.to.(written := c.to.written + payload)), Writing(|payload|))
      else Segment(c, Done)
    case Ack(position) => Segment(if position > c.remoteAcked then c.(remoteAcked := position) else c, Done)
    case Close(_) =>
      Segment(Stop(if c.isClient then c.(out := PeerClose(c.out, FINISH)) else c), Done)
    case Connect(_, _, _) => Segment(c, Connecting)
    case Unknown(_, _) => Segment(c, Done)
  }

  function Stop(c: Conn): Conn {
    c.(running := false, to := c.to.(ready := false))
  }

  /** `_process_next_cmd` from its loop head to its next suspension. */
  function Loop(c: Conn): Segment
    decreases c.inbox.queue
  {
    if !c.running || c.inbox.next !in c.inbox.queue then Segment(c, Done)
    else
      match ParseBody(c.inbox.queue[c.inbox.next])
      case None => Segment(c.(inbox := Take(c.inbox)), Raised)
      case Some(cmd) =>
        var s := Perform(c.(inbox := Take(c.inbox)), cmd);
        PerformKeepsInbox(c.(inbox := Take(c.inbox)), cmd);
        if s.pause != Done then s else Loop(s.conn)
  }

  lemma PerformKeepsInbox(c: Conn, cmd: Cmd)
    ensures Perform(c, cmd).conn.inbox == c.inbox
  {
  }

  lemma TakeShrinks(i: Inbox)
    requires i.next in i.queue
    ensures Take(i).queue == i.queue - {i.next} && Take(i).queue.Keys < i.queue.Keys
  {
    hide ParseBody;
  }

  /** `put_cmd_data`: queue the command, and run the loop when it is the next one. */
  function Put(c: Conn, frame: bytes): Segment {
    if !c.running then Segment(c, Done)
    else if |frame| < 4 then Segment(c, Raised)
    else
      var no := FromLE(frame[..4]);
      if no < c.inbox.next then Segment(c, Done)
      else
        var c' := c.(inbox := c.inbox.(queue := c.inbox.queue[no := frame[4..]]));
        if no == c.inbox.next then Loop(c') else Segment(c', Done)
  }

  /** `add_sock` has made a writer for the socket; one that comes after the end is never used. */
  function WithWriter(c: Conn): Conn {
    c.(to := c.to.(ready := c.running))
  }

  /** What the wait of a paused loop came to. */
  datatype Outcome = Ok | Failed | NoWriter

  function Wake(c: Conn, p: Pause, o: Outcome): Conn {
    match p
    case Writing(n) => if o == Ok then Drained(c, n) else c.(to := c.to.(blocked := true))
    case Connecting =>
      if o == Ok then WithWriter(c)
      else if o == Failed then c.(out := PeerClose(c.out, CONNECT_FAIL)) else c
    case _ => c
  }

  class AsyncConn {
    const isClient: bool
    const windowsAck: nat
    var running: bool
    var writer: bool
    var blocked: bool
    var nextCmdSeq: nat
    var cmdQueue: map<nat, bytes>
    var remoteAckedPosition: nat
    var transferredCloseToPeer: bool
    var nextRecvSeq: nat
    var receivedPosition: nat
    var sendedPosition: nat
    var sentWindowPosition: nat
    var outbox: seq<(nat, Cmd)>
    var output: bytes
    ghost var readAll: bytes
    ghost var performed: seq<Cmd>

    ghost function View(): Conn
      reads this
    {
      Conn(isClient, running, remoteAckedPosition, In(), Out(),
           Writer(writer, blocked, windowsAck, sendedPosition, sentWindowPosition, output))
    }

    ghost function In(): Inbox
      reads this
    {
      Inbox(nextCmdSeq, cmdQueue, performed)
    }

    ghost function Out(): Outgoing
      reads this
    {
      Outgoing(transferredCloseToPeer, nextRecvSeq, receivedPosition, outbox, readAll)
    }

    constructor (hasSock: bool, isClient: bool, windowsAck: nat)
      ensures hasSock && isClient ==> View() == ClientConn(windowsAck)
      ensures !hasSock && !isClient ==> View() == PeerConn(windowsAck)
    {
      this.isClient, this.windowsAck := isClient, windowsAck;
      running, writer, blocked := true, false, false;
      nextCmdSeq := if hasSock then 1 else 0;
      cmdQueue, remoteAckedPosition := map[], 0;
      transferredCloseToPeer, nextRecvSeq, receivedPosition := false, 1, 0;
      sendedPosition, sentWindowPosition := 0, 0;
      outbox, output, readAll, performed := [], [], [], [];
    }

    /** The end of `add_sock`. */
    method SetWriter()
      modifies `writer
      ensures View() == WithWriter(old(View()))
    {
      writer := running;
    }

    method TransferPeerClose(reason: bytes)
      modifies `transferredCloseToPeer, `outbox, `nextRecvSeq
      ensures Out() == PeerClose(old(Out()), reason)
    {
      if transferredCloseToPeer {
        return;
      }
      transferredCloseToPeer := true;
      outbox := outbox + [(nextRecvSeq, Close(reason))];
      nextRecvSeq := nextRecvSeq + 1;
    }

    method TransferReceivedData(data: bytes)
      modifies `readAll, `outbox, `nextRecvSeq, `receivedPosition
      ensures Out() == Read(old(Out()), data)
    {
      readAll := readAll + data;
      if transferredCloseToPeer {
        return;
      }
      outbox := outbox + [(nextRecvSeq, Data(data))];
      nextRecvSeq := nextRecvSeq + 1;
      receivedPosition := receivedPosition + |data|;
    }

    method TransferAck(position: nat)
      modifies `outbox, `nextRecvSeq
      ensures Out() == SendAck(old(Out()), position)
    {
      if transferredCloseToPeer {
        return;
      }
      outbox := outbox + [(nextRecvSeq, Ack(position))];
      nextRecvSeq := nextRecvSeq + 1;
    }

    /** `_send_to_writer` after `drain` returned. */
    method AfterDrain(n: nat)
      modifies this
      ensures View() == Drained(old(View()), n)
    {
      sendedPosition := sendedPosition + n;
      if sendedPosition - sentWindowPosition > windowsAck {
        sentWindowPosition := sendedPosition;
        TransferAck(sendedPosition);
      }
    }

    /** The part of the loop under the command lock. */
    method TakeNext() returns (parsed: Option<Cmd>)
      requires nextCmdSeq in cmdQueue
      modifies `cmdQueue, `nextCmdSeq, `performed
      ensures In() == Take(old(In())) && parsed == ParseBody(old(cmdQueue[nextCmdSeq]))
    {
      hide ParseBody;
      var data := cmdQueue[nextCmdSeq];
      cmdQueue := cmdQueue - {nextCmdSeq};
      parsed := ParseBody(data);
      if parsed.Some? {
        nextCmdSeq := nextCmdSeq + 1;
        performed := performed + [parsed.value];
      }
    }

    /** The part after it. */
    method PerformCmd(cmd: Cmd) returns (pause: Pause)
      modifies this
      ensures Segment(View(), pause) == Perform(old(View()), cmd)
    {
      pause := Done;
      match cmd {
        case Data(payload) =>
          if writer {
            output := output + payload;
            pause := Writing(|payload|);
          }
        case Ack(position) =>
          if position > remoteAckedPosition {
            remoteAckedPosition := position;
          }
        case Close(reason) =>
          if isClient {
            TransferPeerClose(FINISH);
          }
          running, writer := false, false;
        case Connect(_, _, _) =>
          pause := Connecting;
        case Unknown(_, _) =>
      }
    }

    /** `_process_next_cmd` from its loop head; it returns where the loop suspends or ends. */
    method ProcessNextCmd() returns (pause: Pause)
      modifies this
      ensures Segment(View(), pause) == Loop(old(View()))
    {
      hide Perform, Take, ParseBody;
      while running
        invariant Loop(View()) == Loop(old(View()))
        decreases cmdQueue
      {
        if nextCmdSeq !in cmdQueue {
          return Done;
        }
        TakeShrinks(In());
        var parsed := TakeNext();
        if parsed.None? {
          return Raised;
        }
        PerformKeepsInbox(View(), parsed.value);
        pause := PerformCmd(parsed.value);
        if pause != Done {
          return;
        }
      }
      return Done;
    }

    method PutCmdData(data: ReadBuffer) returns (pause: Pause)
      requires data.Valid()
      modifies this, data
      ensures Segment(View(), pause) == Put(old(View()), old(data.Contents()))
    {
      ghost var frame := data.Contents();
      if !running {
        return Done;
      }
      var head := data.Get(4);
      if |head| < 4 {
        return Raised;
      }
      assert head == frame[..4];
      var no := FromLE(head);
      if no < nextCmdSeq {
        return Done;
      }
      var rest := data.Get(data.size);
      assert rest == frame[4..];
      cmdQueue := cmdQueue[no := rest];
      if no == nextCmdSeq {
        pause := ProcessNextCmd();
      } else {
        pause := Done;
      }
    }
  }
}
