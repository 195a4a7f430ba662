/** The block-level methods of the proxy session. */
module Session {
  import opened Bytes
  import opened Dicts
  import opened Records
  import opened Buffers
  import opened SendBuffer
  import opened Receiver
  import opened Window

  class AsyncProxySession {
    const sendBuffer: AsyncSendBuffer
    const receiveProcess: AsyncReceiveProcess
    const resendTimeout: real
    const sendDelay: real
    const ackDelay: real
    var waitAckSendList: Dict<nat, Slot>
    var ackSendContinueSn: nat
    var oldestReceivedTime: real
    var lastReceiveTime: real
    var lastSendTime: real

    ghost function Win(): Window
      reads this
    {
      Window(waitAckSendList, ackSendContinueSn)
    }

    ghost predicate Valid()
      reads this, sendBuffer, sendBuffer.lastBlock
    {
      sendBuffer.Valid() && WindowShape(Win(), sendBuffer.tailSn)
    }

    constructor (maxPayload: nat, resendTimeout: real, sendDelay: real, ackDelay: real, now: real)
      requires maxPayload >= 1
      ensures Valid() && fresh(sendBuffer) && fresh(sendBuffer.lastBlock) && fresh(receiveProcess)
      ensures sendBuffer.View() == InitPool(maxPayload) && Win() == INIT_WINDOW && receiveProcess.View() == INIT_RECV
      ensures this.resendTimeout == resendTimeout && this.sendDelay == sendDelay && this.ackDelay == ackDelay
      ensures oldestReceivedTime == 0.0 && lastReceiveTime == 0.0 && lastSendTime == now
    {
      sendBuffer := new AsyncSendBuffer(maxPayload);
      receiveProcess := new AsyncReceiveProcess();
      this.resendTimeout, this.sendDelay, this.ackDelay := resendTimeout, sendDelay, ackDelay;
      oldestReceivedTime, lastReceiveTime, lastSendTime := 0.0, 0.0, now;
      waitAckSendList, ackSendContinueSn := Dict([], map[]), 0;
    }

    /** The resend loop of `get_data`: true when the buffer filled up. */
    method ResendOverdue(now: real, buf: WriteBuffer) returns (full: bool, ghost written: seq<Record>)
      requires buf.Valid() && buf.Contents() == [] && buf != sendBuffer.lastBlock && waitAckSendList.Listing()
      modifies `waitAckSendList, buf
      ensures buf.Valid() && buf.Contents() == Build(written)
      ensures Sent(sendBuffer.View(), Win(), written, full)
           == Resend(Sent(sendBuffer.View(), old(Win()), [], false), old(waitAckSendList.keys), now, resendTimeout)
    {
      ghost var pool := sendBuffer.View();
      written := [];
      ghost var all := Resend(Sent(pool, Win(), [], false), waitAckSendList.keys, now, resendTimeout);
      var keys := waitAckSendList.keys;
      for i := 0 to |keys|
        invariant buf.Valid() && buf.Contents() == Build(written)
        invariant forall k :: k in keys[i..] ==> k in waitAckSendList.at
        invariant Resend(Sent(pool, Win(), written, false), keys[i..], now, resendTimeout) == all
      {
        var sn := keys[i];
        assert keys[i..][0] == sn && keys[i..][1..] == keys[i + 1..];
        var pk := waitAckSendList.at[sn];
        if pk.Held? && now - pk.sentAt > resendTimeout {
          BuildSnoc(written, Record(sn, pk.payload));
          AppendRecord(buf, sn, pk.payload);
          written := written + [Record(sn, pk.payload)];
          waitAckSendList := waitAckSendList.Set(sn, Held(pk.payload, now));
          if buf.stringLen > sendBuffer.maxPayload {
            return true, written;
          }
        }
      }
      assert keys[|keys|..] == [];
      return false, written;
    }

    /** The new block of `get_data`. */
    method FetchBlock(now: real, buf: WriteBuffer, ghost written: seq<Record>) returns (ghost s: Sent)
      requires sendBuffer.Valid() && buf.Valid() && buf != sendBuffer.lastBlock && buf.Contents() == Build(written)
      modifies `waitAckSendList, `oldestReceivedTime, buf, sendBuffer
      ensures sendBuffer.Valid() && buf.Valid()
      ensures sendBuffer.lastBlock == old(sendBuffer.lastBlock) || fresh(sendBuffer.lastBlock)
      ensures s == Fetch(Sent(old(sendBuffer.View()), old(Win()), written, false), now,
        now - old(oldestReceivedTime) > sendDelay)
      ensures sendBuffer.View() == s.pool && Win() == s.win && buf.Contents() == Build(s.buf)
      ensures oldestReceivedTime == OldestAfter(old(oldestReceivedTime), old(sendBuffer.View()), s)
    {
      ghost var pool := sendBuffer.View();
      GetTakes(pool);
      s := Sent(pool, Win(), written, false);
      var poolSize := sendBuffer.poolSize;
      if poolSize > sendBuffer.maxPayload || (poolSize > 0 && now - oldestReceivedTime > sendDelay) {
        var payload, sn := sendBuffer.Get();
        s := s.(pool := sendBuffer.View());
        if |payload| > 0 && sn > 0 {
          waitAckSendList := waitAckSendList.Set(sn, Held(payload, now));
          BuildSnoc(written, Record(sn, payload));
          AppendRecord(buf, sn, payload);
          s := s.(win := Win(), buf := written + [Record(sn, payload)]);
          if sendBuffer.poolSize == 0 {
            oldestReceivedTime := 0.0;
          }
        }
      }
    }

    /** Numbers and lengths fit `<II`. */
    method GetData(now: real) returns (buf: WriteBuffer, ghost s: Sent)
      requires Valid() && sendBuffer.tailSn < U32 && sendBuffer.maxPayload < U32
      modifies this, sendBuffer
      ensures Valid() && fresh(buf) && buf.Valid()
      ensures sendBuffer.lastBlock == old(sendBuffer.lastBlock) || fresh(sendBuffer.lastBlock)
      ensures old(waitAckSendList).Listing()
      ensures var due := now - old(oldestReceivedTime) > sendDelay;
        s == DataSection(old(sendBuffer.View()), old(Win()), now, resendTimeout, due)
      ensures sendBuffer.View() == s.pool && Win() == s.win && buf.Contents() == Build(s.buf)
      ensures oldestReceivedTime == OldestAfter(old(oldestReceivedTime), old(sendBuffer.View()), s)
    {
      ghost var pool, win := sendBuffer.View(), Win();
      ghost var due := now - oldestReceivedTime > sendDelay;
      ShapeIsValid(win, pool.tail);
      ghost var handed := seq(pool.tail - 1, i requires 0 <= i < pool.tail - 1 =>
        if i + 1 in win.wait.at && win.wait.at[i + 1].Held? then win.wait.at[i + 1].payload else []);
      DataSectionCarries(pool, win, handed, now, resendTimeout, due);
      ResendKeeps(Sent(pool, win, [], false), win.wait.keys, now, resendTimeout);
      buf := new WriteBuffer.Empty();
      var full;
      ghost var written;
      full, written := ResendOverdue(now, buf);
      s := Sent(sendBuffer.View(), Win(), written, full);
      if !full {
        s := FetchBlock(now, buf, written);
      }
    }

    /** One connection frame joins the stream; the time of the oldest byte is set when there was none. */
    method SendConnData(connId: nat, data: bytes, now: real)
      requires Valid() && connId < U32 && |data| < U32
      modifies `oldestReceivedTime, sendBuffer, sendBuffer.lastBlock
      ensures Valid() && (sendBuffer.lastBlock == old(sendBuffer.lastBlock) || fresh(sendBuffer.lastBlock))
      ensures sendBuffer.View() == Added(old(sendBuffer.View()), BuildOne(Record(connId, data)))
      ensures oldestReceivedTime == if old(oldestReceivedTime) == 0.0 then now else old(oldestReceivedTime)
    {
      var buf := new WriteBuffer.Empty();
      AppendRecord(buf, connId, data);
      AddAppends(sendBuffer.View(), BuildOne(Record(connId, data)));
      var frame := buf.ToBytes();
      assert frame == BuildOne(Record(connId, data));
      sendBuffer.Add(frame);
      if oldestReceivedTime == 0.0 {
        oldestReceivedTime := now;
      }
    }

    static method AppendRecord(buf: WriteBuffer, sn: nat, payload: bytes)
      requires buf.Valid()
      modifies buf
      ensures buf.Valid() && buf.Contents() == old(buf.Contents()) + BuildOne(Record(sn, payload))
    {
      buf.Append(LE(sn, 4) + LE(|payload|, 4));
      buf.Append(payload);
    }

    /** An ack that the caller forces, or that is due: something came in since the last request went out, and the delay
        has passed. */
    method GetAck(force: bool, now: real) returns (ack: bytes)
      requires AckInRange(receiveProcess.View())
      ensures ack == if force || (lastReceiveTime > lastSendTime && now - lastReceiveTime > ackDelay)
                     then AckSection(receiveProcess.View()) else []
    {
      if !force && !(lastReceiveTime > lastSendTime && now - lastReceiveTime > ackDelay) {
        return [];
      }
      ack := LE(receiveProcess.nextSn - 1, 4);
      var keys := receiveProcess.blockList.keys;
      for i := 0 to |keys|
        invariant ack + Listed(keys[i..]) == AckSection(receiveProcess.View())
      {
        assert keys[i..][0] == keys[i] && keys[i..][1..] == keys[i + 1..];
        assert ack + (LE(keys[i], 4) + Listed(keys[i + 1..])) == ack + LE(keys[i], 4) + Listed(keys[i + 1..]);
        ack := ack + LE(keys[i], 4);
      }
      assert ack + [] == ack;
    }

    /** Marks the listed numbers; false where a short rest raised. */
    method MarkListedNumbers(ack: ReadBuffer) returns (complete: bool)
      requires ack.Valid()
      modifies `waitAckSendList, ack
      ensures Marked(waitAckSendList, complete) == MarkListed(old(waitAckSendList), old(ack.Contents()))
    {
      while ack.size > 0
        invariant ack.Valid()
        invariant MarkListed(waitAckSendList, ack.Contents()) == MarkListed(old(waitAckSendList), old(ack.Contents()))
        decreases ack.size
      {
        ghost var rest := ack.Contents();
        var entry := ack.Get(4);
        if |entry| < 4 {
          return false;
        }
        assert entry == rest[..4];
        var sn := FromLE(entry);
        if sn in waitAckSendList.at {
          waitAckSendList := waitAckSendList.Set(sn, Acked);
        }
      }
      return true;
    }

    method MarkContinuous(lastAck: nat)
      requires waitAckSendList.Listing()
      modifies `waitAckSendList
      ensures waitAckSendList == MarkUpTo(old(waitAckSendList), old(waitAckSendList).keys, lastAck)
    {
      var keys := waitAckSendList.keys;
      for i := 0 to |keys|
        invariant forall k :: k in keys[i..] ==> k in waitAckSendList.at
        invariant MarkUpTo(waitAckSendList, keys[i..], lastAck) == MarkUpTo(old(waitAckSendList), keys, lastAck)
      {
        var sn := keys[i];
        assert keys[i..][0] == sn && keys[i..][1..] == keys[i + 1..];
        if sn > lastAck || waitAckSendList.at[sn] == Acked {
          continue;
        }
        waitAckSendList := waitAckSendList.Set(sn, Acked);
      }
      assert keys[|keys|..] == [];
    }

    method SlideWindow()
      modifies this
      ensures Win() == Slide(old(Win()))
    {
      while ackSendContinueSn + 1 in waitAckSendList.at && waitAckSendList.at[ackSendContinueSn + 1] == Acked
        invariant Slide(Win()) == Slide(old(Win()))
        decreases waitAckSendList.at
      {
        ackSendContinueSn := ackSendContinueSn + 1;
        waitAckSendList := waitAckSendList.Remove(ackSendContinueSn);
      }
    }

    /** Any bytes: an exception leaves what was marked before it. */
    method AckProcess(ack: ReadBuffer)
      requires Valid() && ack.Valid()
      modifies this, ack
      ensures Valid()
      ensures old(waitAckSendList).Listing() && Win() == Acknowledge(old(Win()), old(ack.Contents()))
    {
      ghost var win, all := Win(), ack.Contents();
      ShapeIsValid(win, sendBuffer.tailSn);
      AckKeepsShape(win, sendBuffer.tailSn, all);
      var head := ack.Get(4);
      if |head| < 4 {
        return;
      }
      MarkListedKeeps(win.wait, all[4..]);
      var complete := MarkListedNumbers(ack);
      if complete {
        MarkContinuous(FromLE(head));
        SlideWindow();
      }
    }

    /** The data section of a reply: every complete record is put, in order; what is released goes to the
        handler. An incomplete section ends in the exception of a short header, and its ack section is not read. */
    method TakeDataSection(data: ReadBuffer) returns (released: seq<bytes>, complete: bool)
      requires data.Valid()
      modifies data, receiveProcess
      ensures complete == Parse(old(data.Contents())).complete
      ensures forall before, m :: Matches(History(old(receiveProcess.View()), before), m) ==>
        Matches(History(receiveProcess.View(), before + released), SeenAll(m, Parse(old(data.Contents())).records))
      ensures Release(receiveProcess.View(), released)
           == PutAll(old(receiveProcess.View()), Parse(old(data.Contents())).records)
    {
      hide Put, Parse, Matches, SeenAll;
      ghost var recv := receiveProcess.View();
      var records;
      records, complete := ReadRecords(data);
      released := [];
      for i := 0 to |records|
        invariant var rest := PutAll(receiveProcess.View(), records[i..]);
          Release(rest.recv, released + rest.blocks) == PutAll(old(receiveProcess.View()), records)
      {
        assert records[i..][0] == records[i] && records[i..][1..] == records[i + 1..];
        ghost var was := released;
        var pending := receiveProcess.PutBlock(records[i].id, records[i].payload);
        released := released + pending;
        ghost var rest := PutAll(receiveProcess.View(), records[i + 1..]);
        assert was + (pending + rest.blocks) == released + rest.blocks;
      }
      assert released + [] == released;
      forall before, m | Matches(History(recv, before), m)
        ensures Matches(History(receiveProcess.View(), before + released), SeenAll(m, records))
      {
        PutAllReleases(History(recv, before), m, records);
      }
    }
  }

  /** The first data of every number, with the records of a section arrived one after another. */
  function SeenAll(m: map<nat, bytes>, records: seq<Record>): map<nat, bytes>
    decreases |records|
  {
    if records == [] then m else SeenAll(Seen(m, records[0].id, records[0].payload), records[1..])
  }

  /** A section released in order: with what was released before, its blocks are the first data of 1, 2, 3, ... up to
      the least number that has not arrived. */
  lemma {:induction false} PutAllReleases(h: History, m: map<nat, bytes>, records: seq<Record>)
    requires Matches(h, m)
    ensures var p, m' := PutAll(h.recv, records), SeenAll(m, records);
      && Matches(History(p.recv, h.released + p.blocks), m')
      && (forall k :: 1 <= k < p.recv.next ==> k in m') && p.recv.next !in m'
      && h.released + p.blocks == Firsts(m', p.recv.next)
    decreases |records|
  {
    hide Put, Seen;
    if records == [] {
      assert h.released + [] == h.released;
    } else {
      var r := records[0];
      var p := Put(h.recv, r.id, r.payload);
      ArriveMatches(h, m, r.id, r.payload);
      var rest := PutAll(p.recv, records[1..]);
      PutAllReleases(History(p.recv, h.released + p.blocks), Seen(m, r.id, r.payload), records[1..]);
      assert h.released + p.blocks + rest.blocks == h.released + (p.blocks + rest.blocks);
    }
  }

  ghost predicate FirstWith(records: seq<Record>, i: int, k: nat) {
    0 <= i < |records| && records[i].id == k && forall j :: 0 <= j < i ==> records[j].id != k
  }

  /** A number that arrives in a section has the data of its first record, unless it arrived before. */
  lemma {:induction false} SeenAllIsFirst(m: map<nat, bytes>, records: seq<Record>, k: nat)
    ensures k in SeenAll(m, records) <==> k in m || exists i :: 0 <= i < |records| && records[i].id == k
    ensures k in m ==> SeenAll(m, records)[k] == m[k]
    ensures forall i :: k !in m && FirstWith(records, i, k) ==> SeenAll(m, records)[k] == records[i].payload
    decreases |records|
  {
    if records != [] {
      var r, rest := records[0], records[1..];
      var m' := Seen(m, r.id, r.payload);
      SeenAllIsFirst(m', rest, k);
      assert forall i :: 0 < i < |records| ==> records[i] == rest[i - 1];
      if i :| 0 <= i < |rest| && rest[i].id == k {
        assert records[i + 1].id == k;
      }
      if r.id == k {
        assert records[0].id == k;
      }
      forall i | k !in m && FirstWith(records, i, k)
        ensures SeenAll(m, records)[k] == records[i].payload
      {
        if i > 0 {
          assert records[0].id != k && k !in m';
          assert FirstWith(rest, i - 1, k);
        }
      }
    }
  }

  function PutAll(r: Recv, records: seq<Record>): Release
    decreases |records|
  {
    if records == [] then Release(r, [])
    else
      var p := Put(r, records[0].id, records[0].payload);
      var rest := PutAll(p.recv, records[1..]);
      Release(rest.recv, p.blocks + rest.blocks)
  }
}
