/** The receive side: numbered blocks arrive in any order and with repeats, and leave in number order. */
module Receiver {
  import opened Buffers
  import opened Bytes
  import opened Dicts

  datatype Recv = Recv(next: nat, blocks: Dict<nat, bytes>, timeouts: map<nat, real>)

  const INIT_RECV := Recv(1, Dict([], map[]), map[])

  predicate IsReceived(r: Recv, sn: nat) {
    sn < r.next || sn in r.blocks.at
  }

  datatype Release = Release(recv: Recv, blocks: seq<bytes>)

  /** Releases held blocks while the next number is held. */
  function Drain(r: Recv): Release
    decreases r.blocks.at
  {
    if r.next in r.blocks.at then
      var rest := Drain(r.(next := r.next + 1, blocks := r.blocks.Remove(r.next)));
      Release(rest.recv, [r.blocks.at[r.next]] + rest.blocks)
    else
      Release(r, [])
  }

  /** A block arrives: what is released, in order, and the new state. */
  function Put(r0: Recv, sn: nat, data: bytes): Release {
    var r := r0.(timeouts := r0.timeouts - {sn});
    if sn < r.next then Release(r, [])
    else if sn > r.next then
      Release(if sn in r.blocks.at then r else r.(blocks := r.blocks.Set(sn, data)), [])
    else
      var rest := Drain(r.(next := r.next + 1));
      Release(rest.recv, [data] + rest.blocks)
  }

  function Mark(r: Recv, sn: nat, t: real): Recv {
    if sn !in r.timeouts || t > r.timeouts[sn] then r.(timeouts := r.timeouts[sn := t]) else r
  }

  /** One entry of the peer's list of blocks it sent and saw no ack for. */
  function Unacked(r: Recv, sn: nat, t: real, serverTime: real, retry: real): Recv {
    if IsReceived(r, sn) then r else if serverTime - t > retry then Mark(r, sn, t) else r
  }

  datatype Event = Arrive(sn: nat, data: bytes) | Report(rsn: nat, t: real, serverTime: real, retry: real)

  datatype History = History(recv: Recv, released: seq<bytes>)

  function Observe(h: History, e: Event): History {
    match e
    case Arrive(sn, data) => var p := Put(h.recv, sn, data); History(p.recv, h.released + p.blocks)
    case Report(sn, t, now, retry) => h.(recv := Unacked(h.recv, sn, t, now, retry))
  }

  function Run(es: seq<Event>): History {
    if es == [] then History(INIT_RECV, []) else Observe(Run(es[..|es| - 1]), es[|es| - 1])
  }

  /** For every number that arrived, the data of its first arrival. */
  function FirstOf(es: seq<Event>): map<nat, bytes> {
    if es == [] then map[]
    else
      var m := FirstOf(es[..|es| - 1]);
      match es[|es| - 1]
      case Arrive(sn, data) => Seen(m, sn, data)
      case Report(_, _, _, _) => m
  }

  /** The first data of 1, 2, ..., n - 1. */
  function Firsts(m: map<nat, bytes>, n: nat): seq<bytes>
    requires forall k :: 1 <= k < n ==> k in m
  {
    if n <= 1 then [] else Firsts(m, n - 1) + [m[n - 1]]
  }

  function From(m: map<nat, bytes>, n: nat): map<nat, bytes> {
    map k | k in m && k >= n :: m[k]
  }

  /** The receiver in terms of the first data `m` of every number seen: everything below the next number has been
      released in order, everything from it on is held. */
  ghost predicate Draining(h: History, m: map<nat, bytes>) {
    && h.recv.next >= 1
    && (forall k :: 1 <= k < h.recv.next ==> k in m)
    && h.recv.blocks.at == From(m, h.recv.next)
    && h.released == Firsts(m, h.recv.next)
  }

  /** Between calls the next number is also missing. */
  ghost predicate Matches(h: History, m: map<nat, bytes>) {
    Draining(h, m) && h.recv.next !in m
  }

  lemma {:induction false} DrainValid(r: Recv)
    requires r.blocks.Valid()
    ensures Drain(r).recv.blocks.Valid()
    decreases r.blocks.at
  {
    hide Distinct, Without;
    if r.next in r.blocks.at {
      RemoveValid(r.blocks, r.next);
      DrainValid(r.(next := r.next + 1, blocks := r.blocks.Remove(r.next)));
    }
  }

  lemma PutValid(r: Recv, sn: nat, data: bytes)
    requires r.blocks.Valid()
    ensures Put(r, sn, data).recv.blocks.Valid()
  {
    if sn == r.next {
      DrainValid(r.(timeouts := r.timeouts - {sn}, next := r.next + 1));
    } else {
      SetValid(r.blocks, sn, data);
    }
  }

  lemma {:induction false} DrainMatches(h: History, m: map<nat, bytes>)
    requires Draining(h, m)
    ensures Matches(History(Drain(h.recv).recv, h.released + Drain(h.recv).blocks), m)
    decreases h.recv.blocks.at
  {
    var r := h.recv;
    if r.next in m {
      var r' := r.(next := r.next + 1, blocks := r.blocks.Remove(r.next));
      var h' := History(r', h.released + [m[r.next]]);
      DrainMatches(h', m);
      var rest := Drain(r').blocks;
      assert h.released + [m[r.next]] + rest == h.released + ([m[r.next]] + rest);
    } else {
      assert h.released + [] == h.released;
    }
  }

  lemma {:induction false} FirstsSame(m: map<nat, bytes>, m': map<nat, bytes>, n: nat)
    requires forall k :: 1 <= k < n ==> k in m && k in m' && m[k] == m'[k]
    ensures Firsts(m, n) == Firsts(m', n)
  {
    if n > 1 {
      FirstsSame(m, m', n - 1);
    }
  }

  lemma FirstsSnoc(m: map<nat, bytes>, n: nat)
    requires n >= 1 && forall k :: 1 <= k <= n ==> k in m
    ensures Firsts(m, n + 1) == Firsts(m, n) + [m[n]]
  {
  }

  function Seen(m: map<nat, bytes>, sn: nat, data: bytes): map<nat, bytes> {
    if sn in m then m else m[sn := data]
  }

  lemma ArriveMatches(h: History, m: map<nat, bytes>, sn: nat, data: bytes)
    requires Matches(h, m)
    ensures Matches(Observe(h, Arrive(sn, data)), Seen(m, sn, data))
  {
    hide Drain, Firsts, Without;
    var r := h.recv.(timeouts := h.recv.timeouts - {sn});
    var m' := Seen(m, sn, data);
    FirstsSame(m, m', r.next);
    if sn == r.next {
      var r' := r.(next := r.next + 1);
      var h' := History(r', h.released + [data]);
      assert From(m', r.next + 1) == From(m, r.next);
      FirstsSnoc(m', r.next);
      DrainMatches(h', m');
      assert h.released + [data] + Drain(r').blocks == h.released + ([data] + Drain(r').blocks);
    } else {
      assert h.released + [] == h.released;
      if sn > r.next && sn !in m {
        assert From(m', r.next) == From(m, r.next)[sn := data];
      } else {
        assert From(m', r.next) == From(m, r.next);
      }
    }
  }

  /** After any arrivals and reports the receiver is the least-missing-number machine: the next number is the least
      one, from 1, that never arrived; the held blocks are exactly the arrivals above it, each with the data of its
      first arrival; the released blocks are 1, 2, ... below it, once each and in order. */
  lemma {:induction false} LeastMissingNumber(es: seq<Event>)
    ensures var h, m := Run(es), FirstOf(es);
      && h.recv.next >= 1 && h.recv.next !in m
      && (forall k :: 1 <= k < h.recv.next ==> k in m)
      && h.recv.blocks.at == (map k | k in m && k > h.recv.next :: m[k])
      && h.released == Firsts(m, h.recv.next)
      && Matches(h, m)
  {
    if es != [] {
      var before := es[..|es| - 1];
      LeastMissingNumber(before);
      match es[|es| - 1]
      case Arrive(sn, data) => ArriveMatches(Run(before), FirstOf(before), sn, data);
      case Report(sn, t, now, retry) =>
    }
    var h, m := Run(es), FirstOf(es);
    assert forall k :: k in m && k >= h.recv.next ==> k > h.recv.next;
  }

  /** So once 1..n have arrived, in any order and with any repeats, and nothing above n, exactly those are released. */
  lemma CompleteArrivalReleasesAll(es: seq<Event>, n: nat)
    requires forall k :: 1 <= k <= n ==> k in FirstOf(es)
    requires forall k :: k in FirstOf(es) ==> k <= n
    ensures Run(es).released == Firsts(FirstOf(es), n + 1)
    ensures Run(es).recv.next == n + 1 && Run(es).recv.blocks.at == map[]
  {
    LeastMissingNumber(es);
    assert n + 1 !in FirstOf(es);
    assert Run(es).recv.next == n + 1;
  }

  lemma {:induction false} DrainReceived(r: Recv, k: nat)
    ensures IsReceived(Drain(r).recv, k) <==> IsReceived(r, k)
    ensures Drain(r).recv.timeouts == r.timeouts
    decreases r.blocks.at
  {
    if r.next in r.blocks.at {
      DrainReceived(r.(next := r.next + 1, blocks := r.blocks.Remove(r.next)), k);
    }
  }

  /** A block that arrives becomes received, and no other number changes. */
  lemma PutReceives(r: Recv, sn: nat, data: bytes, k: nat)
    ensures IsReceived(Put(r, sn, data).recv, k) <==> IsReceived(r, k) || k == sn
    ensures Put(r, sn, data).recv.timeouts == r.timeouts - {sn}
  {
    if sn == r.next {
      DrainReceived(r.(timeouts := r.timeouts - {sn}, next := r.next + 1), k);
    }
  }

  lemma DrainStep(r: Recv)
    ensures Drain(r) ==
      if r.next in r.blocks.at then
        var rest := Drain(r.(next := r.next + 1, blocks := r.blocks.Remove(r.next)));
        Release(rest.recv, [r.blocks.at[r.next]] + rest.blocks)
      else Release(r, [])
  {
  }

  lemma {:induction false} DrainShrinks(r: Recv)
    ensures |Drain(r).recv.blocks.keys| <= |r.blocks.keys|
    decreases r.blocks.at
  {
    if r.next in r.blocks.at {
      WithoutShortens(r.blocks.keys, r.next);
      DrainShrinks(r.(next := r.next + 1, blocks := r.blocks.Remove(r.next)));
    }
  }

  /** A block that is not ahead of its turn leaves no more held than before. */
  lemma PutInTurn(r: Recv, sn: nat, data: bytes)
    requires sn <= r.next
    ensures |Put(r, sn, data).recv.blocks.keys| <= |r.blocks.keys|
  {
    if sn == r.next {
      DrainShrinks(r.(timeouts := r.timeouts - {sn}, next := r.next + 1));
    }
  }

  /** No number listed as timed out has been received. */
  lemma {:induction false} TimeoutsAreMissing(es: seq<Event>, k: nat)
    requires k in Run(es).recv.timeouts
    ensures !IsReceived(Run(es).recv, k)
  {
    var before := es[..|es| - 1];
    var r := Run(before).recv;
    if k in r.timeouts {
      TimeoutsAreMissing(before, k);
    }
    match es[|es| - 1]
    case Arrive(sn, data) => PutReceives(r, sn, data, k);
    case Report(sn, t, now, retry) =>
  }

  class AsyncReceiveProcess {
    var nextSn: nat
    var blockList: Dict<nat, bytes>
    var timeoutList: map<nat, real>

    ghost function View(): Recv
      reads this
    {
      Recv(nextSn, blockList, timeoutList)
    }

    constructor ()
      ensures View() == INIT_RECV
    {
      nextSn, blockList, timeoutList := 1, Dict([], map[]), map[];
    }

    /** The locked part of `put`; the handler is then run on each released block in turn. */
    method PutBlock(sn: nat, data: bytes) returns (pending: seq<bytes>)
      modifies this
      ensures Release(View(), pending) == Put(old(View()), sn, data)
    {
      hide Without, Drain;
      pending := [];
      if sn in timeoutList {
        timeoutList := timeoutList - {sn};
      }
      assert timeoutList == old(timeoutList) - {sn};
      if sn < nextSn {
        return;
      }
      if sn > nextSn {
        if sn in blockList.at {
          return;
        }
        blockList := blockList.Set(sn, data);
        return;
      }
      pending := [data];
      nextSn := nextSn + 1;
      ghost var whole := Put(old(View()), sn, data);
      while nextSn in blockList.at
        invariant Release(Drain(View()).recv, pending + Drain(View()).blocks) == whole
        decreases blockList.at
      {
        DrainStep(View());
        ghost var was := pending;
        var block := blockList.at[nextSn];
        pending := pending + [block];
        blockList := blockList.Remove(nextSn);
        nextSn := nextSn + 1;
        assert was + ([block] + Drain(View()).blocks) == was + [block] + Drain(View()).blocks;
      }
      DrainStep(View());
      assert pending + [] == pending;
    }

    method MarkSnTimeout(sn: nat, t: real)
      modifies `timeoutList
      ensures View() == Mark(old(View()), sn, t)
    {
      if sn !in timeoutList {
        timeoutList := timeoutList[sn := t];
      } else if t > timeoutList[sn] {
        timeoutList := timeoutList[sn := t];
      }
    }

    /** The loop of `process_server_unacked_sent_sn`. */
    method MarkUnacked(entries: seq<(nat, real)>, serverTime: real, retry: real)
      modifies `timeoutList
      ensures View() == UnackedAll(old(View()), entries, serverTime, retry)
    {
      for i := 0 to |entries|
        invariant UnackedAll(View(), entries[i..], serverTime, retry)
               == UnackedAll(old(View()), entries, serverTime, retry)
      {
        var (sn, t) := entries[i];
        assert entries[i..][1..] == entries[i + 1..];
        if sn < nextSn || sn in blockList.at {
          continue;
        }
        if serverTime - t > retry {
          MarkSnTimeout(sn, t);
        }
      }
    }

    /** `process_server_unacked_sent_sn`, for any bytes: a short field ends it where it is. */
    method ProcessUnacked(data: ReadBuffer, serverTime: real, retry: real, time: bytes -> real)
      requires data.Valid()
      modifies `timeoutList, data
      ensures View() == UnackedOf(old(View()), old(data.Contents()), serverTime, retry, time)
    {
      hide EntriesOf, UnackedAll, FromLE;
      ghost var b := data.Contents();
      var head := data.Get(4);
      if |head| < 4 {
        return;
      }
      assert head == b[..4] && data.Contents() == b[4..];
      var entries, _ := ReadEntries(data, FromLE(head), time);
      MarkUnacked(entries, serverTime, retry);
    }
  }

  /** A section of unacked numbers as a function of its bytes: the entries in front of a short one count. */
  function UnackedOf(r: Recv, b: bytes, serverTime: real, retry: real, time: bytes -> real): Recv {
    if |b| < 4 then r else UnackedAll(r, EntriesOf(b[4..], FromLE(b[..4]), time).list, serverTime, retry)
  }

  function UnackedAll(r: Recv, entries: seq<(nat, real)>, serverTime: real, retry: real): Recv
    decreases |entries|
  {
    if entries == [] then r
    else UnackedAll(Unacked(r, entries[0].0, entries[0].1, serverTime, retry), entries[1..], serverTime, retry)
  }

  predicate LateEntry(r: Recv, e: (nat, real), serverTime: real, retry: real) {
    !IsReceived(r, e.0) && serverTime - e.1 > retry
  }

  /** Exactly the numbers of late entries not received join the timeout list, and nothing is received or forgotten. */
  lemma {:induction false} UnackedMarksLate(r: Recv, entries: seq<(nat, real)>, serverTime: real, retry: real, k: nat)
    ensures var r' := UnackedAll(r, entries, serverTime, retry);
      && r'.next == r.next && r'.blocks == r.blocks
      && (k in r'.timeouts <==>
            k in r.timeouts
              || exists i :: 0 <= i < |entries| && entries[i].0 == k && LateEntry(r, entries[i], serverTime, retry))
    decreases |entries|
  {
    if entries != [] {
      var e := entries[0];
      UnackedMarksLate(Unacked(r, e.0, e.1, serverTime, retry), entries[1..], serverTime, retry, k);
      assert forall i :: 0 < i < |entries| ==> entries[i] == entries[1..][i - 1];
      if i :| 0 <= i < |entries| && entries[i].0 == k && LateEntry(r, entries[i], serverTime, retry) {
        if i > 0 {
          assert entries[1..][i - 1].0 == k && LateEntry(r, entries[1..][i - 1], serverTime, retry);
        }
      }
    }
  }

  /** A section of unacked numbers, as the server packs it, counts every entry; one cut short those before the cut. */
  lemma UnackedReads(r: Recv, list: seq<(nat, bytes)>, announced: nat, rest: bytes, serverTime: real, retry: real,
    time: bytes -> real)
    requires EntriesFit(list) && announced < U32
    requires announced == |list| || (|list| < announced && |rest| < 12)
    ensures UnackedOf(r, LE(announced, 4) + (EntryBytes(list) + rest), serverTime, retry, time)
         == UnackedAll(r, Timed(list, time), serverTime, retry)
  {
    hide EntriesOf, UnackedAll, EntryBytes, Timed;
    var b := LE(announced, 4) + (EntryBytes(list) + rest);
    assert b[..4] == LE(announced, 4) && b[4..] == EntryBytes(list) + rest;
    U32RoundTrip(announced);
    if announced == |list| {
      EntriesRoundTrip(list, rest, time);
    } else {
      CutEntries(list, rest, announced, time);
    }
  }

  /** A number on the timeout list carries the latest of the times it was listed with: that of one of its late entries
      or the one it had, and none of them is later. */
  lemma {:induction false} LatestTimeIsKept(r: Recv, entries: seq<(nat, real)>, serverTime: real, retry: real, k: nat)
    ensures var r' := UnackedAll(r, entries, serverTime, retry);
      && (k in r.timeouts ==> k in r'.timeouts && r'.timeouts[k] >= r.timeouts[k])
      && (forall i :: 0 <= i < |entries| && entries[i].0 == k && LateEntry(r, entries[i], serverTime, retry)
            ==> k in r'.timeouts && r'.timeouts[k] >= entries[i].1)
      && (k in r'.timeouts ==>
            || (k in r.timeouts && r'.timeouts[k] == r.timeouts[k])
            || exists i :: 0 <= i < |entries| && entries[i] == (k, r'.timeouts[k])
                           && LateEntry(r, entries[i], serverTime, retry))
    decreases |entries|
  {
    if entries != [] {
      var e, rest := entries[0], entries[1..];
      var r1 := Unacked(r, e.0, e.1, serverTime, retry);
      var r' := UnackedAll(r, entries, serverTime, retry);
      LatestTimeIsKept(r1, rest, serverTime, retry, k);
      assert forall i :: 0 < i < |entries| ==> entries[i] == rest[i - 1];
      assert forall i :: 0 <= i < |rest| ==> rest[i] == entries[i + 1];
      if k in r'.timeouts && !(k in r1.timeouts && r'.timeouts[k] == r1.timeouts[k]) {
        var i :| 0 <= i < |rest| && rest[i] == (k, r'.timeouts[k]) && LateEntry(r1, rest[i], serverTime, retry);
        assert entries[i + 1] == (k, r'.timeouts[k]);
      } else if k in r'.timeouts && !(k in r.timeouts && r'.timeouts[k] == r.timeouts[k]) {
        assert entries[0] == (k, r'.timeouts[k]);
      }
    }
  }
}
