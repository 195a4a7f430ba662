/** The table of round trips of one running session: the fields and the methods that change them. */
module Transfers {
  import opened Buffers
  import opened Bytes
  import opened Dicts
  import opened Wrappers

  datatype Stat = Request | Timeout | Retry

  /** What a transfer number carries, for good. */
  datatype Body = Body(data: bytes, ack: bytes, downloadTimeout: bytes)

  /** `serverReceived` and `serverSent` are 0 where the program holds False. */
  datatype Info = Info(stat: Stat, startTime: real, serverTimeout: int, serverReceived: real, serverSent: real,
                       body: Body, retry: nat)

  type Table = Dict<nat, Info>

  /** The first entry, in table order, that is marked timed out. */
  function FirstTimedOut(keys: seq<nat>, at: map<nat, Info>): Option<nat>
    requires forall k :: k in keys ==> k in at
  {
    if keys == [] then None
    else if at[keys[0]].stat == Timeout then Some(keys[0])
    else FirstTimedOut(keys[1..], at)
  }

  lemma {:induction false} FirstTimedOutIsFirst(keys: seq<nat>, at: map<nat, Info>)
    requires forall k :: k in keys ==> k in at
    ensures match FirstTimedOut(keys, at)
            case None => forall k :: k in keys ==> at[k].stat != Timeout
            case Some(no) => no in keys && at[no].stat == Timeout && IsFirst(keys, at, no)
  {
    if keys != [] && at[keys[0]].stat != Timeout {
      FirstTimedOutIsFirst(keys[1..], at);
      assert forall k :: k in keys <==> k == keys[0] || k in keys[1..];
      assert forall i :: 0 < i < |keys| ==> keys[i] == keys[1..][i - 1];
      if FirstTimedOut(keys[1..], at).Some? {
        var no := FirstTimedOut(keys[1..], at).value;
        var i: nat :| FirstAt(keys[1..], at, no, i);
        assert forall j :: 0 < j < i + 1 ==> at[keys[j]].stat != Timeout;
        assert FirstAt(keys, at, no, i + 1);
      }
    } else if keys != [] {
      assert FirstAt(keys, at, keys[0], 0);
    }
  }

  /** The i-th key is `no`, and no key in front of it is marked timed out. */
  ghost predicate FirstAt(keys: seq<nat>, at: map<nat, Info>, no: nat, i: nat)
    requires forall k :: k in keys ==> k in at
  {
    i < |keys| && keys[i] == no && forall j :: 0 <= j < i ==> at[keys[j]].stat != Timeout
  }

  ghost predicate IsFirst(keys: seq<nat>, at: map<nat, Info>, no: nat)
    requires forall k :: k in keys ==> k in at
  {
    exists i: nat :: FirstAt(keys, at, no, i)
  }

  /** The entry is marked timed out, and none in front of it in the table is. */
  ghost predicate FirstInTable(t: Table, no: nat) {
    t.Listing() && no in t.at && t.at[no].stat == Timeout && IsFirst(t.keys, t.at, no)
  }

  /** Every number of the table was given out: it is at least 1 and at most the last one. */
  ghost predicate Numbered(t: Table, lastNo: nat) {
    t.Valid() && forall no :: no in t.at ==> 1 <= no <= lastNo
  }

  /** A new number enters the table with its bytes. */
  function Opened(t: Table, no: nat, body: Body, now: real, roundtripTimeout: int): Table {
    t.Set(no, Info(Request, now, roundtripTimeout, 0.0, 0.0, body, 0))
  }

  /** The number after the last is new: it comes last in the table, as a request never retried, and nothing else of the
      table changes. */
  lemma OpenedIsNew(t: Table, lastNo: nat, body: Body, now: real, roundtripTimeout: int)
    requires Numbered(t, lastNo)
    ensures var t' := Opened(t, lastNo + 1, body, now, roundtripTimeout);
      && lastNo + 1 !in t.at && lastNo + 1 in t'.at
      && t'.at[lastNo + 1].stat == Request && t'.at[lastNo + 1].retry == 0 && t'.at[lastNo + 1].body == body
      && t'.keys == t.keys + [lastNo + 1] && t'.at.Keys == t.at.Keys + {lastNo + 1}
      && (forall no :: no in t.at ==> t'.at[no] == t.at[no])
      && Numbered(t', lastNo + 1)
  {
    SetValid(t, lastNo + 1, Info(Request, now, roundtripTimeout, 0.0, 0.0, body, 0));
  }

  /** `if transfer_no in transfer_list: del transfer_list[transfer_no]`. */
  function Completed(t: Table, no: nat): Table {
    if no in t.at then t.Remove(no) else t
  }

  /** After a completed round trip its number is gone for good, and every other entry is as it was. */
  lemma CompletedRemovesOnly(t: Table, lastNo: nat, no: nat)
    requires Numbered(t, lastNo)
    ensures var t' := Completed(t, no);
      && no !in t'.at && t'.at.Keys == t.at.Keys - {no}
      && (forall k :: k in t'.at ==> t'.at[k] == t.at[k])
      && (forall k :: k in t'.keys <==> k in t.keys && k != no)
      && Numbered(t', lastNo)
  {
    RemoveValid(t, no);
    WithoutElements(t.keys, no);
  }

  function Retried(t: Table, no: nat, now: real): Table {
    if no in t.at then t.Set(no, t.at[no].(stat := Retry, retry := t.at[no].retry + 1, startTime := now)) else t
  }

  function Departed(t: Table, no: nat, serverTimeout: int): Table {
    if no in t.at then t.Set(no, t.at[no].(serverTimeout := serverTimeout)) else t
  }

  /** `if transfer_no in transfer_list: transfer_list[transfer_no]["stat"] = "timeout"`. */
  function TimedOut(t: Table, no: nat): Table {
    if no in t.at then t.Set(no, t.at[no].(stat := Timeout)) else t
  }

  /** Marks, in table order, every entry that is late and that is not marked yet. */
  function MarkLate(t: Table, keys: seq<nat>, late: Deadline): Table
    decreases |keys|
  {
    if keys == [] then t
    else MarkLate(if keys[0] in t.at && t.at[keys[0]].stat != Timeout && IsLate(late, t.at[keys[0]])
                  then TimedOut(t, keys[0]) else t, keys[1..], late)
  }

  /** What makes an entry late: `_check_timeout` looks at its own clock, `check_upload_not_acked` at the server's. */
  datatype Deadline =
    | TooOld(now: real, limit: real)
    | NotAcked(serverTime: real, localTime: real, limit: real)

  predicate IsLate(d: Deadline, i: Info) {
    match d
    case TooOld(now, limit) => i.startTime + i.serverTimeout as real < now - limit
    case NotAcked(serverTime, localTime, limit) =>
      || (i.serverReceived == 0.0 && localTime - i.startTime > limit)
      || (i.serverSent != 0.0 && serverTime - i.serverSent > limit)
  }

  /** The peer's report: everything below the two next numbers, then the numbers listed out of order. */
  function Reported(t: Table, keys: seq<nat>, receivedNext: nat, sentNext: nat, serverTime: real): Table
    decreases |keys|
  {
    if keys == [] then t
    else
      var no := keys[0];
      var t' := if no !in t.at then t else
        var i := t.at[no];
        t.Set(no, i.(serverReceived := if no < receivedNext then 1.0 else i.serverReceived,
                     serverSent := if no < sentNext then serverTime else i.serverSent));
      Reported(t', keys[1..], receivedNext, sentNext, serverTime)
  }

  function ListReceived(t: Table, entries: seq<(nat, real)>): Table
    decreases |entries|
  {
    if entries == [] then t
    else
      var (no, at) := entries[0];
      ListReceived(if no in t.at then t.Set(no, t.at[no].(serverReceived := at)) else t, entries[1..])
  }

  function ListSent(t: Table, entries: seq<(nat, real)>): Table
    decreases |entries|
  {
    if entries == [] then t
    else
      var (no, at) := entries[0];
      ListSent(if no in t.at then t.Set(no, t.at[no].(serverSent := at)) else t, entries[1..])
  }

  /** Same numbers, same bodies; an entry changes its mark only to timed out. */
  ghost predicate OnlyMarks(t: Table, t': Table) {
    && t'.keys == t.keys && t'.at.Keys == t.at.Keys
    && forall no :: no in t.at ==>
         t'.at[no].body == t.at[no].body && (t'.at[no].stat == t.at[no].stat || t'.at[no].stat == Timeout)
  }

  lemma OnlyMarksNumbered(t: Table, t': Table, lastNo: nat)
    requires Numbered(t, lastNo) && OnlyMarks(t, t')
    ensures Numbered(t', lastNo)
  {
  }

  lemma {:induction false} MarkLateOnlyMarks(t: Table, keys: seq<nat>, late: Deadline)
    ensures OnlyMarks(t, MarkLate(t, keys, late))
    decreases |keys|
  {
    if keys != [] {
      MarkLateOnlyMarks(if keys[0] in t.at && t.at[keys[0]].stat != Timeout && IsLate(late, t.at[keys[0]])
                        then TimedOut(t, keys[0]) else t, keys[1..], late);
    }
  }

  lemma {:induction false} ReportedOnlyMarks(t: Table, keys: seq<nat>, receivedNext: nat, sentNext: nat,
    serverTime: real)
    ensures OnlyMarks(t, Reported(t, keys, receivedNext, sentNext, serverTime))
    decreases |keys|
  {
    if keys != [] {
      var no := keys[0];
      var t' := if no !in t.at then t else
        var i := t.at[no];
        t.Set(no, i.(serverReceived := if no < receivedNext then 1.0 else i.serverReceived,
                     serverSent := if no < sentNext then serverTime else i.serverSent));
      ReportedOnlyMarks(t', keys[1..], receivedNext, sentNext, serverTime);
    }
  }

  lemma {:induction false} ListReceivedOnlyMarks(t: Table, entries: seq<(nat, real)>)
    ensures OnlyMarks(t, ListReceived(t, entries))
    decreases |entries|
  {
    if entries != [] {
      var (no, at) := entries[0];
      ListReceivedOnlyMarks(if no in t.at then t.Set(no, t.at[no].(serverReceived := at)) else t, entries[1..]);
    }
  }

  lemma {:induction false} ListSentOnlyMarks(t: Table, entries: seq<(nat, real)>)
    ensures OnlyMarks(t, ListSent(t, entries))
    decreases |entries|
  {
    if entries != [] {
      var (no, at) := entries[0];
      ListSentOnlyMarks(if no in t.at then t.Set(no, t.at[no].(serverSent := at)) else t, entries[1..]);
    }
  }

  /** A whole report as a function of its two sections: what comes before a short field counts, the rest does not. */
  function ReportOf(t: Table, rcvd: bytes, sent: bytes, serverTime: real, time: bytes -> real): Table {
    if |rcvd| < 4 || |sent| < 4 then t
    else
      var t1 := Reported(t, t.keys, FromLE(rcvd[..4]), FromLE(sent[..4]), serverTime);
      if |rcvd| < 8 then t1
      else
        var received := EntriesOf(rcvd[8..], FromLE(rcvd[4..8]), time);
        var t2 := ListReceived(t1, received.list);
        if !received.complete || |sent| < 8 then t2
        else ListSent(t2, EntriesOf(sent[8..], FromLE(sent[4..8]), time).list)
  }

  /** The checks mark an entry if and only if it was marked or is late, and change nothing else. */
  lemma {:induction false} MarkLateExactly(t: Table, keys: seq<nat>, late: Deadline, no: nat)
    requires no in t.at
    ensures var t' := MarkLate(t, keys, late);
      && no in t'.at
      && t'.at[no] == if no in keys && IsLate(late, t.at[no]) then t.at[no].(stat := Timeout) else t.at[no]
    decreases |keys|
  {
    if keys != [] {
      assert no in keys <==> no == keys[0] || no in keys[1..];
      MarkLateExactly(if keys[0] in t.at && t.at[keys[0]].stat != Timeout && IsLate(late, t.at[keys[0]])
                      then TimedOut(t, keys[0]) else t, keys[1..], late, no);
    }
  }

  /** `_check_timeout`: marked are, besides those already marked, exactly the entries for which more than the timeout
      they asked for and the limit has passed since their last start. */
  lemma CheckMarksExactly(t: Table, now: real, limit: real, no: nat)
    requires t.Listing() && no in t.at
    ensures var t' := MarkLate(t, t.keys, TooOld(now, limit));
      no in t'.at && t'.at[no] == t.at[no].(stat :=
        if now - t.at[no].startTime > t.at[no].serverTimeout as real + limit then Timeout else t.at[no].stat)
  {
    MarkLateExactly(t, t.keys, TooOld(now, limit), no);
  }

  /** `check_upload_not_acked`: marked are, besides those already marked, exactly the entries not received within the
      limit since their start, and those answered longer ago than the limit. */
  lemma AckCheckMarksExactly(t: Table, serverTime: real, localTime: real, limit: real, no: nat)
    requires t.Listing() && no in t.at
    ensures var t', i := MarkLate(t, t.keys, NotAcked(serverTime, localTime, limit)), t.at[no];
      no in t'.at && t'.at[no] == i.(stat :=
        if (i.serverReceived == 0.0 && localTime - i.startTime > limit)
           || (i.serverSent != 0.0 && serverTime - i.serverSent > limit)
        then Timeout else i.stat)
  {
    MarkLateExactly(t, t.keys, NotAcked(serverTime, localTime, limit), no);
  }

  /** A request that goes out again is late only once more than its new timeout and the limit has passed since then. */
  lemma RetryStartsAnew(t: Table, no: nat, now: real, serverTimeout: int, later: real, limit: real)
    requires t.Valid() && no in t.at
    ensures var t' := Departed(Retried(t, no, now), no, serverTimeout);
      && no in t'.at && t'.at[no].retry == t.at[no].retry + 1 && t'.at[no].body == t.at[no].body
      && var t'' := MarkLate(t', t'.keys, TooOld(later, limit));
         no in t''.at && (t''.at[no].stat == Timeout <==> later - now > serverTimeout as real + limit)
  {
    var t1 := Retried(t, no, now);
    SetValid(t, no, t1.at[no]);
    var t2 := Departed(t1, no, serverTimeout);
    SetValid(t1, no, t2.at[no]);
    CheckMarksExactly(t2, later, limit, no);
  }

  /** A new request is on time when it goes out: the checker marks it once more than the timeout it asks for and the
      limit has passed since it was collected, the other check once it is not received within the limit since then. */
  lemma NewStartsNow(t: Table, lastNo: nat, body: Body, now: real, configured: int, serverTimeout: int, later: real,
    serverTime: real, limit: real)
    requires Numbered(t, lastNo)
    ensures var no := lastNo + 1;
      var t' := Departed(Opened(t, no, body, now, configured), no, serverTimeout);
      var checked := MarkLate(t', t'.keys, TooOld(later, limit));
      var acked := MarkLate(t', t'.keys, NotAcked(serverTime, later, limit));
      && no in t'.at && t'.at[no].stat == Request && no in checked.at && no in acked.at
      && (checked.at[no].stat == Timeout <==> later - now > serverTimeout as real + limit)
      && (acked.at[no].stat == Timeout <==> later - now > limit)
  {
    var no := lastNo + 1;
    OpenedIsNew(t, lastNo, body, now, configured);
    var t1 := Opened(t, no, body, now, configured);
    var t2 := Departed(t1, no, serverTimeout);
    SetValid(t1, no, t2.at[no]);
    CheckMarksExactly(t2, later, limit, no);
    AckCheckMarksExactly(t2, serverTime, later, limit, no);
  }

  /** The time in the last entry for a number, or what there was. */
  function LastTime(list: seq<(nat, real)>, no: nat, otherwise: real): real
    decreases |list|
  {
    if list == [] then otherwise
    else if list[|list| - 1].0 == no then list[|list| - 1].1
    else LastTime(list[..|list| - 1], no, otherwise)
  }

  lemma {:induction false} LastTimeFirst(list: seq<(nat, real)>, no: nat, otherwise: real)
    requires list != []
    ensures LastTime(list, no, otherwise)
         == LastTime(list[1..], no, if list[0].0 == no then list[0].1 else otherwise)
    decreases |list|
  {
    if |list| > 1 {
      assert list[..|list| - 1][1..] == list[1..][..|list| - 2];
      LastTimeFirst(list[..|list| - 1], no, otherwise);
    } else {
      assert list[..0] == [] && list[1..] == [];
    }
  }

  lemma {:induction false} ReceivedExactly(t: Table, list: seq<(nat, real)>, no: nat)
    requires no in t.at
    ensures no in ListReceived(t, list).at && ListReceived(t, list).keys == t.keys
    ensures ListReceived(t, list).at[no] == t.at[no].(serverReceived := LastTime(list, no, t.at[no].serverReceived))
    decreases |list|
  {
    if list != [] {
      var (n, at) := list[0];
      LastTimeFirst(list, no, t.at[no].serverReceived);
      ReceivedExactly(if n in t.at then t.Set(n, t.at[n].(serverReceived := at)) else t, list[1..], no);
    }
  }

  lemma {:induction false} SentExactly(t: Table, list: seq<(nat, real)>, no: nat)
    requires no in t.at
    ensures no in ListSent(t, list).at && ListSent(t, list).keys == t.keys
    ensures ListSent(t, list).at[no] == t.at[no].(serverSent := LastTime(list, no, t.at[no].serverSent))
    decreases |list|
  {
    if list != [] {
      var (n, at) := list[0];
      LastTimeFirst(list, no, t.at[no].serverSent);
      SentExactly(if n in t.at then t.Set(n, t.at[n].(serverSent := at)) else t, list[1..], no);
    }
  }

  lemma {:induction false} ReportedExactly(t: Table, keys: seq<nat>, receivedNext: nat, sentNext: nat, serverTime: real,
    no: nat)
    requires no in t.at && no in keys
    ensures var t' := Reported(t, keys, receivedNext, sentNext, serverTime);
      && no in t'.at && t'.keys == t.keys
      && t'.at[no] == t.at[no].(serverReceived := if no < receivedNext then 1.0 else t.at[no].serverReceived,
                                serverSent := if no < sentNext then serverTime else t.at[no].serverSent)
    decreases |keys|
  {
    var k := keys[0];
    var t1 := if k !in t.at then t else
      var i := t.at[k];
      t.Set(k, i.(serverReceived := if k < receivedNext then 1.0 else i.serverReceived,
                  serverSent := if k < sentNext then serverTime else i.serverSent));
    if no in keys[1..] {
      ReportedExactly(t1, keys[1..], receivedNext, sentNext, serverTime, no);
    } else {
      assert k == no;
      NotReported(t1, keys[1..], receivedNext, sentNext, serverTime, no);
    }
  }

  lemma {:induction false} NotReported(t: Table, keys: seq<nat>, receivedNext: nat, sentNext: nat, serverTime: real,
    no: nat)
    requires no in t.at && no !in keys
    ensures var t' := Reported(t, keys, receivedNext, sentNext, serverTime);
      no in t'.at && t'.keys == t.keys && t'.at[no] == t.at[no]
    decreases |keys|
  {
    if keys != [] {
      var k := keys[0];
      var t1 := if k !in t.at then t else
        var i := t.at[k];
        t.Set(k, i.(serverReceived := if k < receivedNext then 1.0 else i.serverReceived,
                    serverSent := if k < sentNext then serverTime else i.serverSent));
      NotReported(t1, keys[1..], receivedNext, sentNext, serverTime, no);
    }
  }

  /** A whole report, as the server packs it, sets the two times of every entry and nothing else: to those of the last
      entry listed for its number, or else to what being below the next number says, or else not at all. */
  lemma ReportSetsExactly(t: Table, receivedNext: nat, received: seq<(nat, bytes)>, sentNext: nat,
    sent: seq<(nat, bytes)>, serverTime: real, time: bytes -> real, no: nat)
    requires EntriesFit(received) && EntriesFit(sent) && |received| < U32 && |sent| < U32
    requires receivedNext < U32 && sentNext < U32 && t.Listing() && no in t.at
    ensures var t' := ReportOf(t, ListBytes(receivedNext, received), ListBytes(sentNext, sent), serverTime, time);
      && no in t'.at
      && t'.at[no] == t.at[no].(
           serverReceived := LastTime(Timed(received, time), no,
             if no < receivedNext then 1.0 else t.at[no].serverReceived),
           serverSent := LastTime(Timed(sent, time), no, if no < sentNext then serverTime else t.at[no].serverSent))
  {
    hide Reported, ListReceived, ListSent, EntriesOf, ListBytes, Timed, LastTime, FromLE;
    ListRoundTrip(receivedNext, received, time);
    ListRoundTrip(sentNext, sent, time);
    var t1 := Reported(t, t.keys, receivedNext, sentNext, serverTime);
    ReportedExactly(t, t.keys, receivedNext, sentNext, serverTime, no);
    var t2 := ListReceived(t1, Timed(received, time));
    ReceivedExactly(t1, Timed(received, time), no);
    SentExactly(t2, Timed(sent, time), no);
  }

  /** A report whose list of received numbers is cut short: what is listed before the cut counts, and the list of sent
      numbers is not read. */
  lemma CutReportSetsExactly(t: Table, receivedNext: nat, announced: nat, received: seq<(nat, bytes)>, rest: bytes,
    sentNext: nat, sent: seq<(nat, bytes)>, serverTime: real, time: bytes -> real, no: nat)
    requires EntriesFit(received) && EntriesFit(sent) && |received| < announced < U32 && |sent| < U32 && |rest| < 12
    requires receivedNext < U32 && sentNext < U32 && t.Listing() && no in t.at
    ensures var t' := ReportOf(t, CutListBytes(receivedNext, announced, received, rest), ListBytes(sentNext, sent),
        serverTime, time);
      && no in t'.at
      && t'.at[no] == t.at[no].(
           serverReceived := LastTime(Timed(received, time), no,
             if no < receivedNext then 1.0 else t.at[no].serverReceived),
           serverSent := if no < sentNext then serverTime else t.at[no].serverSent)
  {
    hide Reported, ListReceived, ListSent, EntriesOf, ListBytes, CutListBytes, Timed, LastTime, FromLE;
    CutListReadsFront(receivedNext, announced, received, rest, time);
    ListRoundTrip(sentNext, sent, time);
    ReportedExactly(t, t.keys, receivedNext, sentNext, serverTime, no);
    ReceivedExactly(Reported(t, t.keys, receivedNext, sentNext, serverTime), Timed(received, time), no);
  }

  lemma OnlyMarksTwice(a: Table, b: Table, c: Table)
    requires OnlyMarks(a, b) && OnlyMarks(b, c)
    ensures OnlyMarks(a, c)
  {
  }

  /** A report, whatever its bytes, changes marks and times only. */
  lemma ReportOnlyMarks(t: Table, rcvd: bytes, sent: bytes, serverTime: real, time: bytes -> real)
    ensures OnlyMarks(t, ReportOf(t, rcvd, sent, serverTime, time))
  {
    hide Reported, ListReceived, ListSent, OnlyMarks;
    NoMarks(t);
    if |rcvd| >= 4 && |sent| >= 4 {
      ReportedOnlyMarks(t, t.keys, FromLE(rcvd[..4]), FromLE(sent[..4]), serverTime);
      if |rcvd| >= 8 {
        var t1 := Reported(t, t.keys, FromLE(rcvd[..4]), FromLE(sent[..4]), serverTime);
        var received := EntriesOf(rcvd[8..], FromLE(rcvd[4..8]), time).list;
        ListReceivedOnlyMarks(t1, received);
        OnlyMarksTwice(t, t1, ListReceived(t1, received));
        if |sent| >= 8 {
          var listed := EntriesOf(sent[8..], FromLE(sent[4..8]), time).list;
          ListSentOnlyMarks(ListReceived(t1, received), listed);
          OnlyMarksTwice(t, ListReceived(t1, received), ListSent(ListReceived(t1, received), listed));
        }
      }
    }
  }

  lemma NoMarks(t: Table)
    ensures OnlyMarks(t, t)
  {
  }

  /** The fields of the session that the round trips share. Every method runs without suspending. */
  class TransferTable {
    var transferList: Table
    var lastTransferNo: nat
    var onRoadNum: int

    ghost predicate Valid()
      reads this
    {
      Numbered(transferList, lastTransferNo)
    }

    constructor ()
      ensures Valid() && transferList == Dict([], map[]) && lastTransferNo == 0 && onRoadNum == 0
    {
      transferList, lastTransferNo, onRoadNum := Dict([], map[]), 0, 0;
    }

    /** The first loop of `get_upload_data`: the first timed-out entry becomes a retry. */
    method TakeTimedOut(now: real) returns (found: Option<nat>)
      requires Valid()
      modifies `transferList
      ensures Valid()
      ensures found == FirstTimedOut(old(transferList.keys), old(transferList.at))
      ensures found.Some? ==> FirstInTable(old(transferList), found.value)
      ensures found.None? ==> forall no :: no in old(transferList.at) ==> old(transferList.at)[no].stat != Timeout
      ensures transferList == if found.None? then old(transferList) else Retried(old(transferList), found.value, now)
    {
      FirstTimedOutIsFirst(transferList.keys, transferList.at);
      for i := 0 to |transferList.keys|
        invariant transferList == old(transferList)
        invariant forall k :: k in transferList.keys[i..] ==> k in transferList.at
        invariant FirstTimedOut(transferList.keys[i..], transferList.at)
          == FirstTimedOut(transferList.keys, transferList.at)
      {
        var no := transferList.keys[i];
        assert transferList.keys[i..][1..] == transferList.keys[i + 1..];
        if transferList.at[no].stat == Timeout {
          SetValid(transferList, no, Retried(transferList, no, now).at[no]);
          transferList := Retried(transferList, no, now);
          return Some(no);
        }
      }
      return None;
    }

    /** The second part of `get_upload_data`: a number never used before, for the collected bytes. */
    method NewTransfer(body: Body, now: real, roundtripTimeout: int) returns (no: nat)
      requires Valid()
      modifies `transferList, `lastTransferNo
      ensures Valid() && no == lastTransferNo && no !in old(transferList).at
      ensures transferList == Opened(old(transferList), old(lastTransferNo) + 1, body, now, roundtripTimeout)
    {
      OpenedIsNew(transferList, lastTransferNo, body, now, roundtripTimeout);
      lastTransferNo := lastTransferNo + 1;
      no := lastTransferNo;
      transferList := transferList.Set(no, Info(Request, now, roundtripTimeout, 0.0, 0.0, body, 0));
    }

    /** `roundtrip_task` before it suspends on the request; false is the "not found" return. */
    method Depart(no: nat, serverTimeout: int) returns (found: bool)
      requires Valid()
      modifies `transferList, `onRoadNum
      ensures Valid() && found == (no in old(transferList).at)
      ensures onRoadNum == old(onRoadNum) + (if found then 1 else 0)
      ensures transferList == Departed(old(transferList), no, serverTimeout)
    {
      if no !in transferList.at {
        return false;
      }
      onRoadNum := onRoadNum + 1;
      SetValid(transferList, no, transferList.at[no].(serverTimeout := serverTimeout));
      transferList := Departed(transferList, no, serverTimeout);
      return true;
    }

    method MarkTimeout(no: nat)
      requires Valid()
      modifies `transferList
      ensures Valid() && transferList == TimedOut(old(transferList), no)
    {
      if no in transferList.at {
        SetValid(transferList, no, transferList.at[no].(stat := Timeout));
        transferList := transferList.Set(no, transferList.at[no].(stat := Timeout));
      }
    }

    method LeaveRoad()
      modifies `onRoadNum
      ensures onRoadNum == old(onRoadNum) - 1
    {
      onRoadNum := onRoadNum - 1;
    }

    method Complete(no: nat)
      requires Valid()
      modifies `transferList
      ensures Valid() && no !in transferList.at
      ensures transferList == Completed(old(transferList), no)
    {
      CompletedRemovesOnly(transferList, lastTransferNo, no);
      if no in transferList.at {
        transferList := transferList.Remove(no);
      }
    }

    /** The loop shared by `_check_timeout` (TooOld) and `check_upload_not_acked` (NotAcked). */
    method MarkLateEntries(late: Deadline)
      requires Valid()
      modifies `transferList
      ensures Valid() && transferList == MarkLate(old(transferList), old(transferList.keys), late)
    {
      hide IsLate, OnlyMarks, Distinct;
      MarkLateOnlyMarks(transferList, transferList.keys, late);
      OnlyMarksNumbered(transferList, MarkLate(transferList, transferList.keys, late), lastTransferNo);
      var keys := transferList.keys;
      for i := 0 to |keys|
        invariant MarkLate(transferList, keys[i..], late) == MarkLate(old(transferList), keys, late)
      {
        var no := keys[i];
        assert keys[i..][0] == no && keys[i..][1..] == keys[i + 1..];
        if no in transferList.at && transferList.at[no].stat != Timeout && IsLate(late, transferList.at[no]) {
          transferList := transferList.Set(no, transferList.at[no].(stat := Timeout));
        }
      }
    }

    /** The first loop of the report. */
    method MarkReported(receivedNext: nat, sentNext: nat, serverTime: real)
      modifies `transferList
      ensures transferList == Reported(old(transferList), old(transferList.keys), receivedNext, sentNext, serverTime)
    {
      var keys := transferList.keys;
      for i := 0 to |keys|
        invariant Reported(transferList, keys[i..], receivedNext, sentNext, serverTime)
               == Reported(old(transferList), keys, receivedNext, sentNext, serverTime)
      {
        var no := keys[i];
        assert keys[i..][0] == no && keys[i..][1..] == keys[i + 1..];
        if no in transferList.at {
          var info := transferList.at[no];
          transferList := transferList.Set(no, info.(
            serverReceived := if no < receivedNext then 1.0 else info.serverReceived,
            serverSent := if no < sentNext then serverTime else info.serverSent));
        }
      }
    }

    method MarkReceived(received: seq<(nat, real)>)
      modifies `transferList
      ensures transferList == ListReceived(old(transferList), received)
    {
      for i := 0 to |received|
        invariant ListReceived(transferList, received[i..]) == ListReceived(old(transferList), received)
      {
        var (no, at) := received[i];
        assert received[i..][0] == received[i] && received[i..][1..] == received[i + 1..];
        if no in transferList.at {
          transferList := transferList.Set(no, transferList.at[no].(serverReceived := at));
        }
      }
    }

    method MarkSent(sent: seq<(nat, real)>)
      modifies `transferList
      ensures transferList == ListSent(old(transferList), sent)
    {
      for i := 0 to |sent|
        invariant ListSent(transferList, sent[i..]) == ListSent(old(transferList), sent)
      {
        var (no, at) := sent[i];
        assert sent[i..][0] == sent[i] && sent[i..][1..] == sent[i + 1..];
        if no in transferList.at {
          transferList := transferList.Set(no, transferList.at[no].(serverSent := at));
        }
      }
    }

    /** `process_server_received_transfer_no`, for any bytes: a short field ends it where it is. */
    method ServerReport(rcvd: ReadBuffer, sent: ReadBuffer, serverTime: real, time: bytes -> real)
      requires Valid() && rcvd.Valid() && sent.Valid() && rcvd != sent
      modifies `transferList, rcvd, sent
      ensures Valid()
      ensures transferList == ReportOf(old(transferList), old(rcvd.Contents()), old(sent.Contents()), serverTime, time)
    {
      hide Reported, ListReceived, ListSent, EntriesOf, FromLE;
      ghost var t, r, s := transferList, rcvd.Contents(), sent.Contents();
      ReportOnlyMarks(t, r, s, serverTime, time);
      OnlyMarksNumbered(t, ReportOf(t, r, s, serverTime, time), lastTransferNo);
      var receivedNext := rcvd.Get(4);
      if |receivedNext| < 4 {
        return;
      }
      var sentNext := sent.Get(4);
      if |sentNext| < 4 {
        return;
      }
      assert receivedNext == r[..4] && sentNext == s[..4];
      MarkReported(FromLE(receivedNext), FromLE(sentNext), serverTime);
      var receivedNum := rcvd.Get(4);
      if |receivedNum| < 4 {
        return;
      }
      assert receivedNum == r[4..8] && rcvd.Contents() == r[8..];
      var received, complete := ReadEntries(rcvd, FromLE(receivedNum), time);
      MarkReceived(received);
      if !complete {
        return;
      }
      var sentNum := sent.Get(4);
      if |sentNum| < 4 {
        return;
      }
      assert sentNum == s[4..8] && sent.Contents() == s[8..];
      var listed, _ := ReadEntries(sent, FromLE(sentNum), time);
      MarkSent(listed);
    }
  }
}
