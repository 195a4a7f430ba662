/** The sliding window of sent blocks: what is resent, what an ack marks, and how the window moves. */
module Window {
  import opened Bytes
  import opened Dicts
  import opened Records
  import opened SendBuffer
  import opened Receiver

  datatype Slot = Acked | Held(payload: bytes, sentAt: real)

  /** The blocks handed out and not yet passed by the continuous ack, in the order of the dictionary. */
  datatype Window = Window(wait: Dict<nat, Slot>, cont: nat)

  const INIT_WINDOW := Window(Dict([], map[]), 0)

  datatype Sent = Sent(pool: Pool, win: Window, buf: seq<Record>, full: bool)

  /** One block written again. */
  function Again(s: Sent, sn: nat, payload: bytes, now: real): Sent {
    s.(win := s.win.(wait := s.win.wait.Set(sn, Held(payload, now))), buf := s.buf + [Record(sn, payload)])
  }

  /** The resend loop over the remaining keys: blocks waiting longer than the timeout are written again, until the
      buffer is longer than a full block. */
  function Resend(s: Sent, order: seq<nat>, now: real, timeout: real): Sent
    requires forall k :: k in order ==> k in s.win.wait.at
    decreases |order|
  {
    if order == [] then s
    else
      var sn := order[0];
      match s.win.wait.at[sn]
      case Acked => Resend(s, order[1..], now, timeout)
      case Held(payload, sentAt) =>
        if now - sentAt > timeout then
          var s' := Again(s, sn, payload, now);
          if |Build(s'.buf)| > s.pool.max then s'.(full := true) else Resend(s', order[1..], now, timeout)
        else Resend(s, order[1..], now, timeout)
  }

  /** Takes one new block when more than a full one waits, or when anything waits and the delay has passed. */
  function Fetch(s: Sent, now: real, due: bool): Sent
    requires PoolInv(s.pool)
  {
    if s.pool.size > s.pool.max || (s.pool.size > 0 && due) then
      var g := Taken(s.pool);
      if g.block != [] && g.sn > 0 then
        s.(pool := g.pool,
           win := s.win.(wait := s.win.wait.Set(g.sn, Held(g.block, now))),
           buf := s.buf + [Record(g.sn, g.block)])
      else s.(pool := g.pool)
    else s
  }

  function DataSection(pool: Pool, win: Window, now: real, timeout: real, due: bool): Sent
    requires PoolInv(pool) && win.wait.Listing()
  {
    var s := Resend(Sent(pool, win, [], false), win.wait.keys, now, timeout);
    ResendKeeps(Sent(pool, win, [], false), win.wait.keys, now, timeout);
    if s.full then s else Fetch(s, now, due)
  }

  /** When the oldest byte of the pool came in, 0 for an empty pool: taking the last block resets it. */
  function OldestAfter(oldest: real, pool: Pool, s: Sent): real {
    if s.pool != pool && s.pool.size == 0 then 0.0 else oldest
  }

  lemma {:induction false} ResendKeeps(s: Sent, order: seq<nat>, now: real, timeout: real)
    requires forall k :: k in order ==> k in s.win.wait.at
    ensures var s' := Resend(s, order, now, timeout);
      && s'.pool == s.pool && s'.win.cont == s.win.cont
      && s'.win.wait.keys == s.win.wait.keys && s'.win.wait.at.Keys == s.win.wait.at.Keys
    decreases |order|
  {
    if order != [] {
      var sn := order[0];
      match s.win.wait.at[sn]
      case Acked => ResendKeeps(s, order[1..], now, timeout);
      case Held(payload, sentAt) =>
        var s' := Again(s, sn, payload, now);
        ResendKeeps(s, order[1..], now, timeout);
        ResendKeeps(s', order[1..], now, timeout);
    }
  }

  /** The ack section: the last number released and every number held out of order. */
  function AckSection(r: Recv): bytes
    requires r.next >= 1
  {
    LE(r.next - 1, 4) + Listed(r.blocks.keys)
  }

  function Listed(keys: seq<nat>): bytes {
    if keys == [] then [] else LE(keys[0], 4) + Listed(keys[1..])
  }

  datatype Marked = Marked(wait: Dict<nat, Slot>, complete: bool)

  /** The listed numbers, one after another; `complete` is false where `struct.unpack` meets a short rest. */
  function MarkListed(wait: Dict<nat, Slot>, ack: bytes): Marked
    decreases |ack|
  {
    if |ack| == 0 then Marked(wait, true)
    else if |ack| < 4 then Marked(wait, false)
    else
      var sn := FromLE(ack[..4]);
      MarkListed(if sn in wait.at then wait.Set(sn, Acked) else wait, ack[4..])
  }

  /** Everything up to the continuous number. */
  function MarkUpTo(wait: Dict<nat, Slot>, order: seq<nat>, last: nat): Dict<nat, Slot>
    requires forall k :: k in order ==> k in wait.at
    decreases |order|
  {
    if order == [] then wait
    else if order[0] > last || wait.at[order[0]] == Acked then MarkUpTo(wait, order[1..], last)
    else MarkUpTo(wait.Set(order[0], Acked), order[1..], last)
  }

  function Slide(w: Window): Window
    decreases w.wait.at
  {
    if w.cont + 1 in w.wait.at && w.wait.at[w.cont + 1] == Acked
    then Slide(Window(w.wait.Remove(w.cont + 1), w.cont + 1))
    else w
  }

  /** An ack section of any bytes: an exception keeps what was marked before it. */
  function Acknowledge(w: Window, ack: bytes): Window
    requires w.wait.Listing()
  {
    if |ack| < 4 then w
    else
      var m := MarkListed(w.wait, ack[4..]);
      MarkListedKeeps(w.wait, ack[4..]);
      if !m.complete then w.(wait := m.wait)
      else Slide(w.(wait := MarkUpTo(m.wait, m.wait.keys, FromLE(ack[..4]))))
  }

  lemma {:induction false} MarkListedKeeps(wait: Dict<nat, Slot>, ack: bytes)
    ensures MarkListed(wait, ack).wait.keys == wait.keys
    ensures MarkListed(wait, ack).wait.at.Keys == wait.at.Keys
    ensures forall k :: k in wait.at ==> MarkListed(wait, ack).wait.at[k] in {Acked, wait.at[k]}
    decreases |ack|
  {
    if |ack| >= 4 {
      var sn := FromLE(ack[..4]);
      MarkListedKeeps(if sn in wait.at then wait.Set(sn, Acked) else wait, ack[4..]);
    }
  }

  lemma {:induction false} MarkUpToMarks(wait: Dict<nat, Slot>, order: seq<nat>, last: nat)
    requires forall k :: k in order ==> k in wait.at
    ensures var m := MarkUpTo(wait, order, last);
      && m.keys == wait.keys && m.at.Keys == wait.at.Keys
      && forall k :: k in wait.at ==> m.at[k] == if k in order && k <= last then Acked else wait.at[k]
    decreases |order|
  {
    if order != [] {
      assert forall k :: k in order <==> k == order[0] || k in order[1..];
      MarkUpToMarks(wait, order[1..], last);
      MarkUpToMarks(wait.Set(order[0], Acked), order[1..], last);
    }
  }

  function Span(lo: nat, hi: nat): seq<nat> {
    if lo >= hi then [] else seq(hi - lo, i => lo + i)
  }

  /** The keys are exactly `cont+1 .. tail-1`, in ascending order. */
  ghost predicate WindowShape(w: Window, tail: nat) {
    && w.cont < tail
    && w.wait.keys == Span(w.cont + 1, tail)
    && (forall k :: k in w.wait.at <==> w.cont < k < tail)
  }

  lemma ShapeIsValid(w: Window, tail: nat)
    requires WindowShape(w, tail)
    ensures w.wait.Listing()
  {
    forall k | k in w.wait.at ensures k in w.wait.keys {
      assert w.wait.keys[k - w.cont - 1] == k;
    }
  }

  lemma SpanDropsFirst(lo: nat, hi: nat)
    requires lo < hi
    ensures Without(Span(lo, hi), lo) == Span(lo + 1, hi)
  {
    assert Span(lo, hi)[1..] == Span(lo + 1, hi);
  }

  lemma {:induction false} SlideSlides(w: Window, tail: nat)
    requires WindowShape(w, tail)
    ensures var s := Slide(w);
      && WindowShape(s, tail) && w.cont <= s.cont
      && (forall k :: w.cont < k <= s.cont ==> k < tail && w.wait.at[k] == Acked)
      && (forall k :: s.cont < k < tail ==> s.wait.at[k] == w.wait.at[k])
      && (s.cont + 1 < tail ==> s.wait.at[s.cont + 1] != Acked)
    decreases w.wait.at
  {
    hide Without;
    if w.cont + 1 in w.wait.at && w.wait.at[w.cont + 1] == Acked {
      var w' := Window(w.wait.Remove(w.cont + 1), w.cont + 1);
      SpanDropsFirst(w.cont + 1, tail);
      SlideSlides(w', tail);
      forall k | w.cont < k <= Slide(w).cont ensures k < tail && w.wait.at[k] == Acked {
        assert k > w'.cont ==> w.wait.at[k] == w'.wait.at[k];
      }
      forall k | Slide(w).cont < k < tail ensures Slide(w).wait.at[k] == w.wait.at[k] {
        assert w.wait.at[k] == w'.wait.at[k];
      }
    }
  }

  /** Whatever bytes arrive as an ack, the window keeps its shape, moves only forward and only over acked blocks,
      and a block still held is exactly as before. */
  lemma AckKeepsShape(w: Window, tail: nat, ack: bytes)
    requires WindowShape(w, tail) && w.wait.Listing()
    ensures WindowShape(Acknowledge(w, ack), tail) && w.cont <= Acknowledge(w, ack).cont
    ensures forall k :: Acknowledge(w, ack).cont < k < tail ==>
      Acknowledge(w, ack).wait.at[k] == Acked || Acknowledge(w, ack).wait.at[k] == w.wait.at[k]
  {
    if |ack| >= 4 {
      var m := MarkListed(w.wait, ack[4..]);
      MarkListedKeeps(w.wait, ack[4..]);
      if m.complete {
        MarkUpToMarks(m.wait, m.wait.keys, FromLE(ack[..4]));
        var u := w.(wait := MarkUpTo(m.wait, m.wait.keys, FromLE(ack[..4])));
        SlideSlides(u, tail);
        forall k | Slide(u).cont < k < tail
          ensures Slide(u).wait.at[k] == Acked || Slide(u).wait.at[k] == w.wait.at[k]
        {
          assert u.wait.at[k] == Acked || u.wait.at[k] == m.wait.at[k];
        }
      }
    }
  }

  lemma {:induction false} ListedMarks(wait: Dict<nat, Slot>, keys: seq<nat>)
    requires forall k :: k in keys ==> k < U32
    ensures var m := MarkListed(wait, Listed(keys));
      && m.complete && m.wait.keys == wait.keys && m.wait.at.Keys == wait.at.Keys
      && forall k :: k in wait.at ==> m.wait.at[k] == if k in keys then Acked else wait.at[k]
    decreases |keys|
  {
    if keys != [] {
      var ack := Listed(keys);
      assert ack[..4] == LE(keys[0], 4) && ack[4..] == Listed(keys[1..]);
      assert keys[0] in keys;
      U32RoundTrip(keys[0]);
      assert forall k :: k in keys <==> k == keys[0] || k in keys[1..];
      ListedMarks(if keys[0] in wait.at then wait.Set(keys[0], Acked) else wait, keys[1..]);
    }
  }

  lemma {:induction false} CutListMarks(wait: Dict<nat, Slot>, keys: seq<nat>, rest: bytes)
    requires (forall k :: k in keys ==> k < U32) && 0 < |rest| < 4
    ensures var m := MarkListed(wait, Listed(keys) + rest);
      && !m.complete && m.wait.keys == wait.keys && m.wait.at.Keys == wait.at.Keys
      && forall k :: k in wait.at ==> m.wait.at[k] == if k in keys then Acked else wait.at[k]
    decreases |keys|
  {
    if keys != [] {
      var ack := Listed(keys) + rest;
      assert ack[..4] == LE(keys[0], 4) && ack[4..] == Listed(keys[1..]) + rest;
      assert keys[0] in keys;
      U32RoundTrip(keys[0]);
      assert forall k :: k in keys <==> k == keys[0] || k in keys[1..];
      CutListMarks(if keys[0] in wait.at then wait.Set(keys[0], Acked) else wait, keys[1..], rest);
    }
  }

  /** An ack section that is cut short raises: the numbers listed before the cut are marked, but nothing up to the
      continuous number is, and the window does not move. */
  lemma CutAckMarksListed(w: Window, last: nat, keys: seq<nat>, rest: bytes)
    requires w.wait.Listing() && (forall k :: k in keys ==> k < U32) && last < U32 && 0 < |rest| < 4
    ensures var w' := Acknowledge(w, LE(last, 4) + (Listed(keys) + rest));
      && w'.cont == w.cont && w'.wait.keys == w.wait.keys && w'.wait.at.Keys == w.wait.at.Keys
      && forall k :: k in w.wait.at ==> w'.wait.at[k] == if k in keys then Acked else w.wait.at[k]
  {
    hide MarkListed, Listed, Slide, MarkUpTo;
    var ack := LE(last, 4) + (Listed(keys) + rest);
    assert ack[4..] == Listed(keys) + rest;
    CutListMarks(w.wait, keys, rest);
  }

  /** What a receiver can put in an ack. */
  ghost predicate AckInRange(r: Recv) {
    && 1 <= r.next <= U32 && r.blocks.Listing()
    && forall k :: k in r.blocks.at ==> k < U32
  }

  /** The window with every number the peer has received marked, before it slides. */
  lemma AckMarks(w: Window, tail: nat, r: Recv) returns (u: Window)
    requires WindowShape(w, tail) && w.wait.Listing() && AckInRange(r)
    ensures WindowShape(u, tail) && u.cont == w.cont && Acknowledge(w, AckSection(r)) == Slide(u)
    ensures forall k :: w.cont < k < tail ==> u.wait.at[k] == if IsReceived(r, k) then Acked else w.wait.at[k]
  {
    hide MarkListed, MarkUpTo, LE, FromLE, Slide, Listed, Span;
    var ack := AckSection(r);
    assert ack[..4] == LE(r.next - 1, 4) && ack[4..] == Listed(r.blocks.keys);
    U32RoundTrip(r.next - 1);
    ListedMarks(w.wait, r.blocks.keys);
    var m := MarkListed(w.wait, ack[4..]).wait;
    MarkUpToMarks(m, m.keys, r.next - 1);
    u := w.(wait := MarkUpTo(m, m.keys, r.next - 1));
    forall k | w.cont < k < tail
      ensures u.wait.at[k] == if IsReceived(r, k) then Acked else w.wait.at[k]
    {
      assert k in w.wait.keys;
      assert k in r.blocks.keys <==> k in r.blocks.at;
      assert m.at[k] == if k in r.blocks.keys then Acked else w.wait.at[k];
    }
  }

  /** Which numbers count as acked. */
  predicate Passed(w: Window, k: nat) {
    k <= w.cont || (k in w.wait.at && w.wait.at[k] == Acked)
  }

  lemma SlidePasses(u: Window, tail: nat)
    requires WindowShape(u, tail)
    ensures WindowShape(Slide(u), tail) && u.cont <= Slide(u).cont
    ensures forall k :: u.cont < k < tail ==> (Passed(Slide(u), k) <==> Passed(u, k))
    ensures forall k :: u.cont < k < tail && !Passed(u, k)
              ==> k in Slide(u).wait.at && Slide(u).wait.at[k] == u.wait.at[k]
    ensures !Passed(Slide(u), Slide(u).cont + 1)
  {
    SlideSlides(u, tail);
    var s := Slide(u);
    forall k | u.cont < k < tail
      ensures Passed(s, k) <==> Passed(u, k)
      ensures !Passed(u, k) ==> k in s.wait.at && s.wait.at[k] == u.wait.at[k]
    {
      if k > s.cont {
        assert s.wait.at[k] == u.wait.at[k];
      } else {
        assert u.wait.at[k] == Acked;
      }
    }
  }

  /** `w'` is `w` after learning exactly what `r` had received: a number of the window counts as acked if and only if
      it did before or `r` had it; all others are held unchanged; and the window starts at a block not acked. */
  ghost predicate Learned(w: Window, w': Window, tail: nat, r: Recv) {
    && WindowShape(w', tail) && w.cont <= w'.cont
    && (forall k :: w.cont < k < tail ==> (Passed(w', k) <==> Passed(w, k) || IsReceived(r, k)))
    && (forall k :: w.cont < k < tail && !Passed(w', k)
          ==> k in w.wait.at && k in w'.wait.at && w'.wait.at[k] == w.wait.at[k])
    && !Passed(w', w'.cont + 1)
  }

  lemma MarkedLearns(w: Window, u: Window, tail: nat, r: Recv)
    requires WindowShape(w, tail) && WindowShape(u, tail) && u.cont == w.cont
    requires forall k :: w.cont < k < tail ==> u.wait.at[k] == if IsReceived(r, k) then Acked else w.wait.at[k]
    ensures Learned(w, Slide(u), tail, r)
  {
    SlidePasses(u, tail);
    var s := Slide(u);
    forall k | w.cont < k < tail
      ensures Passed(s, k) <==> Passed(w, k) || IsReceived(r, k)
      ensures !Passed(s, k) ==> k in w.wait.at && k in s.wait.at && s.wait.at[k] == w.wait.at[k]
    {
      assert u.wait.at[k] == if IsReceived(r, k) then Acked else w.wait.at[k];
      assert Passed(s, k) <==> Passed(u, k);
    }
  }

  /** An ack built by `get_ack` is understood exactly, in any window and whatever the receiver holds. */
  lemma AckExact(w: Window, tail: nat, r: Recv)
    requires WindowShape(w, tail) && w.wait.Listing() && AckInRange(r)
    ensures Learned(w, Acknowledge(w, AckSection(r)), tail, r)
  {
    var u := AckMarks(w, tail, r);
    MarkedLearns(w, u, tail, r);
  }

  /** Every block still held has the bytes it was handed out with. */
  ghost predicate HoldsOriginals(w: Window, handed: seq<bytes>) {
    forall k :: k in w.wait.at && w.wait.at[k].Held? ==> 1 <= k <= |handed| && w.wait.at[k].payload == handed[k - 1]
  }

  /** Every record written carries the bytes its number was handed out with. */
  ghost predicate CarriesOriginals(rs: seq<Record>, handed: seq<bytes>) {
    forall i :: 0 <= i < |rs| ==> 1 <= rs[i].id <= |handed| && rs[i].payload == handed[rs[i].id - 1]
  }

  ghost predicate SameAcked(w: Window, w': Window) {
    forall k :: k in w.wait.at ==> k in w'.wait.at && (w.wait.at[k] == Acked <==> w'.wait.at[k] == Acked)
  }

  lemma AgainCarries(s: Sent, sn: nat, now: real, handed: seq<bytes>)
    requires sn in s.win.wait.at && s.win.wait.at[sn].Held?
    requires HoldsOriginals(s.win, handed) && CarriesOriginals(s.buf, handed)
    ensures var s' := Again(s, sn, s.win.wait.at[sn].payload, now);
      HoldsOriginals(s'.win, handed) && CarriesOriginals(s'.buf, handed) && SameAcked(s.win, s'.win)
  {
  }

  lemma SameAckedTrans(a: Window, b: Window, c: Window)
    requires SameAcked(a, b) && SameAcked(b, c)
    ensures SameAcked(a, c)
  {
  }

  lemma {:induction false} ResendCarries(s: Sent, order: seq<nat>, now: real, timeout: real, handed: seq<bytes>)
    requires forall k :: k in order ==> k in s.win.wait.at
    requires HoldsOriginals(s.win, handed) && CarriesOriginals(s.buf, handed)
    ensures var s' := Resend(s, order, now, timeout);
      HoldsOriginals(s'.win, handed) && CarriesOriginals(s'.buf, handed) && SameAcked(s.win, s'.win)
    decreases |order|
  {
    hide HoldsOriginals, CarriesOriginals, SameAcked;
    SameAckedSelf(s.win);
    if order != [] {
      var sn := order[0];
      match s.win.wait.at[sn]
      case Acked => ResendCarries(s, order[1..], now, timeout, handed);
      case Held(payload, sentAt) =>
        var s' := Again(s, sn, payload, now);
        AgainCarries(s, sn, now, handed);
        ResendCarries(s, order[1..], now, timeout, handed);
        ResendCarries(s', order[1..], now, timeout, handed);
        SameAckedTrans(s.win, s'.win, Resend(s', order[1..], now, timeout).win);
    }
  }

  lemma SameAckedSelf(w: Window)
    ensures SameAcked(w, w)
  {
  }

  predicate Overdue(w: Window, k: nat, now: real, timeout: real) {
    k in w.wait.at && w.wait.at[k].Held? && now - w.wait.at[k].sentAt > timeout
  }

  lemma {:induction false} ResendKeepsBuf(s: Sent, order: seq<nat>, now: real, timeout: real)
    requires forall k :: k in order ==> k in s.win.wait.at
    ensures s.buf <= Resend(s, order, now, timeout).buf
    decreases |order|
  {
    if order != [] {
      var sn := order[0];
      match s.win.wait.at[sn]
      case Acked => ResendKeepsBuf(s, order[1..], now, timeout);
      case Held(payload, sentAt) =>
        ResendKeepsBuf(s, order[1..], now, timeout);
        ResendKeepsBuf(Again(s, sn, payload, now),
          order[1..], now, timeout);
    }
  }

  /** With nothing overdue nothing is written. */
  lemma {:induction false} ResendNothing(s: Sent, order: seq<nat>, now: real, timeout: real)
    requires forall k :: k in order ==> k in s.win.wait.at && !Overdue(s.win, k, now, timeout)
    ensures Resend(s, order, now, timeout) == s
    decreases |order|
  {
    if order != [] {
      assert order[0] in order;
      ResendNothing(s, order[1..], now, timeout);
    }
  }

  /** Every overdue block of the order is written again, unless the buffer filled up first. */
  lemma {:induction false} ResendsOverdue(s: Sent, order: seq<nat>, now: real, timeout: real, k: nat)
    requires forall k :: k in order ==> k in s.win.wait.at
    requires Distinct(order) && k in order && Overdue(s.win, k, now, timeout) && !s.full
    ensures var s' := Resend(s, order, now, timeout);
      s'.full || Record(k, s.win.wait.at[k].payload) in s'.buf
    decreases |order|
  {
    var sn := order[0];
    assert k == sn || k in order[1..];
    match s.win.wait.at[sn]
    case Acked => ResendsOverdue(s, order[1..], now, timeout, k);
    case Held(payload, sentAt) =>
      var s' := Again(s, sn, payload, now);
      if now - sentAt <= timeout {
        ResendsOverdue(s, order[1..], now, timeout, k);
      } else if k == sn {
        ResendKeepsBuf(s', order[1..], now, timeout);
        assert s'.buf[|s.buf|] == Record(k, payload);
      } else if |Build(s'.buf)| <= s.pool.max {
        ResendsOverdue(s', order[1..], now, timeout, k);
      }
  }

  ghost predicate AllOverdue(w: Window, now: real, timeout: real) {
    forall k :: k in w.wait.at && w.wait.at[k].Held? ==> Overdue(w, k, now, timeout)
  }

  /** One of the first `n` records has number `k`. */
  ghost predicate WrittenBefore(buf: seq<Record>, n: nat, k: nat) {
    exists j :: 0 <= j < n && j < |buf| && buf[j].id == k
  }

  /** Every number below one that is written is acked or written before it. */
  ghost predicate LeavesNoGap(w: Window, buf: seq<Record>) {
    forall i: nat, k: nat :: i < |buf| && k < buf[i].id ==> Passed(w, k) || WrittenBefore(buf, i, k)
  }

  /** Every number below `lo` is acked or written. */
  ghost predicate Covered(w: Window, buf: seq<Record>, lo: nat) {
    forall k: nat :: k < lo ==> Passed(w, k) || WrittenBefore(buf, |buf|, k)
  }

  lemma WrittenNext(w: Window, buf: seq<Record>, r: Record)
    requires LeavesNoGap(w, buf) && Covered(w, buf, r.id)
    ensures LeavesNoGap(w, buf + [r]) && Covered(w, buf + [r], r.id + 1)
  {
    var more := buf + [r];
    assert more[|buf|] == r;
    forall i: nat, k: nat | WrittenBefore(buf, i, k) ensures WrittenBefore(more, i, k) {
      var j :| 0 <= j < i && j < |buf| && buf[j].id == k;
      assert more[j].id == k;
    }
    forall i: nat, k: nat | i < |more| && k < more[i].id ensures Passed(w, k) || WrittenBefore(more, i, k) {
      if i < |buf| {
        assert more[i] == buf[i];
      }
    }
    forall k: nat | k < r.id + 1 ensures Passed(w, k) || WrittenBefore(more, |more|, k) {
      if k < r.id && !Passed(w, k) {
        var j :| 0 <= j < |buf| && j < |buf| && buf[j].id == k;
        assert more[j].id == k;
      }
    }
  }

  lemma AckedNext(w: Window, buf: seq<Record>, lo: nat)
    requires Covered(w, buf, lo) && Passed(w, lo)
    ensures Covered(w, buf, lo + 1)
  {
  }

  /** Nothing up to the continuous ack is missing. */
  lemma CoveredAtFirst(w: Window)
    ensures LeavesNoGap(w, []) && Covered(w, [], w.cont + 1)
  {
  }

  /** The first number of the loop. */
  lemma ResendFirst(s: Sent, lo: nat, tail: nat, now: real, timeout: real)
    requires lo < tail && forall k :: k in Span(lo, tail) ==> k in s.win.wait.at
    ensures lo in s.win.wait.at && forall k :: k in Span(lo + 1, tail) ==> k in s.win.wait.at
    ensures Resend(s, Span(lo, tail), now, timeout) ==
      if !Overdue(s.win, lo, now, timeout) then Resend(s, Span(lo + 1, tail), now, timeout)
      else
        var s' := Again(s, lo, s.win.wait.at[lo].payload, now);
        if |Build(s'.buf)| > s.pool.max then s'.(full := true) else Resend(s', Span(lo + 1, tail), now, timeout)
  {
    hide Build;
    assert Span(lo, tail)[0] == lo && Span(lo, tail)[1..] == Span(lo + 1, tail);
  }

  lemma NothingToResend(s: Sent, lo: nat, now: real, timeout: real)
    ensures Span(lo, lo) == [] && Resend(s, [], now, timeout) == s
  {
  }

  /** When everything held is overdue, the resend loop writes the numbers not acked in their order, up to where the
      buffer is full. */
  lemma {:induction false} ResendNoGap(w: Window, s: Sent, lo: nat, tail: nat, now: real, timeout: real)
    requires WindowShape(w, tail) && w.cont < lo <= tail && !s.full && AllOverdue(w, now, timeout)
    requires forall k :: k in Span(lo, tail) ==> k in s.win.wait.at
    requires forall k :: lo <= k < tail ==> k in s.win.wait.at && s.win.wait.at[k] == w.wait.at[k]
    requires LeavesNoGap(w, s.buf) && Covered(w, s.buf, lo)
    ensures var s' := Resend(s, Span(lo, tail), now, timeout);
      LeavesNoGap(w, s'.buf) && (!s'.full ==> Covered(w, s'.buf, tail))
    decreases tail - lo
  {
    hide LeavesNoGap, Covered, Build, Resend, Span;
    NothingToResend(s, tail, now, timeout);
    if lo < tail {
      ResendFirst(s, lo, tail, now, timeout);
      match s.win.wait.at[lo] {
        case Acked =>
          AckedNext(w, s.buf, lo);
          ResendNoGap(w, s, lo + 1, tail, now, timeout);
        case Held(payload, sentAt) =>
          assert Overdue(w, lo, now, timeout);
          var s' := Again(s, lo, payload, now);
          WrittenNext(w, s.buf, Record(lo, payload));
          if |Build(s'.buf)| <= s.pool.max {
            ResendNoGap(w, s', lo + 1, tail, now, timeout);
          }
      }
    }
  }

  /** A data section of a window that waited long enough, new block included, leaves no gap. */
  lemma DataSectionNoGap(pool: Pool, win: Window, now: real, timeout: real, due: bool)
    requires PoolInv(pool) && WindowShape(win, pool.tail) && win.wait.Listing() && AllOverdue(win, now, timeout)
    ensures LeavesNoGap(win, DataSection(pool, win, now, timeout, due).buf)
  {
    hide Resend, Span, Queued, LeavesNoGap, Covered;
    var s0 := Sent(pool, win, [], false);
    CoveredAtFirst(win);
    assert win.wait.keys == Span(win.cont + 1, pool.tail);
    ResendNoGap(win, s0, win.cont + 1, pool.tail, now, timeout);
    ResendKeeps(s0, win.wait.keys, now, timeout);
    var r := Resend(s0, win.wait.keys, now, timeout);
    GetTakes(pool);
    var f := Fetch(r, now, due);
    if !r.full && f.buf != r.buf {
      WrittenNext(win, r.buf, Record(pool.tail, Taken(pool).block));
    }
  }

  /** The numbers of the order that wait longer than the timeout. */
  function OverdueIn(w: Window, order: seq<nat>, now: real, timeout: real): (r: seq<nat>)
    ensures forall k :: k in r ==> k in order && Overdue(w, k, now, timeout)
  {
    if order == [] then []
    else (if Overdue(w, order[0], now, timeout) then [order[0]] else []) + OverdueIn(w, order[1..], now, timeout)
  }

  lemma {:induction false} NoneOverdueIn(w: Window, order: seq<nat>, now: real, timeout: real)
    requires forall k :: k in order ==> !Overdue(w, k, now, timeout)
    ensures OverdueIn(w, order, now, timeout) == []
  {
    if order != [] {
      assert order[0] in order;
      NoneOverdueIn(w, order[1..], now, timeout);
    }
  }

  function RecordsOf(w: Window, keys: seq<nat>): seq<Record>
    requires forall k :: k in keys ==> k in w.wait.at && w.wait.at[k].Held?
  {
    seq(|keys|, i requires 0 <= i < |keys| => Record(keys[i], w.wait.at[keys[i]].payload))
  }

  lemma {:induction false} OverdueInSame(w: Window, w': Window, order: seq<nat>, now: real, timeout: real)
    requires forall k :: k in order ==> k in w.wait.at && k in w'.wait.at && w.wait.at[k] == w'.wait.at[k]
    ensures OverdueIn(w, order, now, timeout) == OverdueIn(w', order, now, timeout)
  {
    if order != [] {
      assert order[0] in order;
      OverdueInSame(w, w', order[1..], now, timeout);
    }
  }

  /** What the resend loop leaves in the window and the buffer: the first `n` overdue blocks of the order were written
      again, with a new send time; it stopped at the first that made the buffer longer than a full block. */
  ghost predicate ResentExactly(s: Sent, s': Sent, over: seq<nat>, n: nat, now: real)
    requires forall k :: k in over ==> k in s.win.wait.at && s.win.wait.at[k].Held?
  {
    && n <= |over| && s'.buf == s.buf + RecordsOf(s.win, over[..n])
    && (forall m :: 1 <= m < n ==> |Build(s.buf + RecordsOf(s.win, over[..m]))| <= s.pool.max)
    && (s'.full <==> n > 0 && |Build(s'.buf)| > s.pool.max) && (!s'.full ==> n == |over|)
    && s'.win.wait.at.Keys == s.win.wait.at.Keys
    && forall k :: k in s.win.wait.at ==>
         s'.win.wait.at[k] == if k in over[..n] then Held(s.win.wait.at[k].payload, now) else s.win.wait.at[k]
  }

  lemma {:induction false} ResendExactly(s: Sent, order: seq<nat>, now: real, timeout: real) returns (n: nat)
    requires (forall k :: k in order ==> k in s.win.wait.at) && Distinct(order) && !s.full
    ensures ResentExactly(s, Resend(s, order, now, timeout), OverdueIn(s.win, order, now, timeout), n, now)
    decreases |order|
  {
    hide Build;
    if order == [] {
      n := 0;
      assert s.buf + [] == s.buf;
    } else {
      var sn, rest := order[0], order[1..];
      assert sn !in rest;
      if !Overdue(s.win, sn, now, timeout) {
        n := ResendExactly(s, rest, now, timeout);
        assert OverdueIn(s.win, order, now, timeout) == OverdueIn(s.win, rest, now, timeout);
      } else {
        var payload := s.win.wait.at[sn].payload;
        var s1 := Again(s, sn, payload, now);
        var over, later := OverdueIn(s.win, order, now, timeout), OverdueIn(s.win, rest, now, timeout);
        assert over == [sn] + later;
        if |Build(s1.buf)| > s.pool.max {
          n := 1;
          assert over[..1] == [sn];
        } else {
          var m := ResendExactly(s1, rest, now, timeout);
          OverdueInSame(s.win, s1.win, rest, now, timeout);
          n := m + 1;
          OneMoreResent(s, s1, Resend(s1, rest, now, timeout), sn, later, m, now);
        }
      }
    }
  }

  lemma OneMoreResent(s: Sent, s1: Sent, s': Sent, sn: nat, later: seq<nat>, m: nat, now: real)
    requires sn in s.win.wait.at && s.win.wait.at[sn].Held? && sn !in later
    requires s1 == Again(s, sn, s.win.wait.at[sn].payload, now) && |Build(s1.buf)| <= s.pool.max
    requires forall k :: k in later ==> k in s.win.wait.at && s.win.wait.at[k].Held?
    requires forall k :: k in later ==> k in s1.win.wait.at && s1.win.wait.at[k].Held?
    requires forall k :: k in later ==> s.win.wait.at[k] == s1.win.wait.at[k]
    requires ResentExactly(s1, s', later, m, now)
    ensures ResentExactly(s, s', [sn] + later, m + 1, now)
  {
    hide Build;
    var over := [sn] + later;
    var first := Record(sn, s.win.wait.at[sn].payload);
    forall i | 0 <= i <= |later|
      ensures s.buf + RecordsOf(s.win, over[..i + 1]) == s1.buf + RecordsOf(s1.win, later[..i])
    {
      assert over[..i + 1] == [sn] + later[..i];
      assert RecordsOf(s.win, later[..i]) == RecordsOf(s1.win, later[..i]);
      assert RecordsOf(s.win, over[..i + 1]) == [first] + RecordsOf(s.win, later[..i]);
    }
    forall j | 1 <= j < m + 1 ensures |Build(s.buf + RecordsOf(s.win, over[..j]))| <= s.pool.max {
      assert s.buf + RecordsOf(s.win, over[..j - 1 + 1]) == s1.buf + RecordsOf(s1.win, later[..j - 1]);
      if j == 1 {
        assert s1.buf + RecordsOf(s1.win, later[..0]) == s1.buf;
      }
    }
    assert over[..m + 1] == [sn] + later[..m];
    if m == 0 {
      assert s1.buf + RecordsOf(s1.win, later[..0]) == s1.buf;
    }
  }

  /** A section of `get_data`, exactly: the overdue blocks of the window in order, up to the first that makes it longer
      than a full block; then, unless it is that long, the next block of the pool, if more than a full one is queued or
      anything is and the delay has passed. What is written is held with the time of writing; all else is as before. */
  lemma DataSectionExactly(pool: Pool, win: Window, now: real, timeout: real, due: bool) returns (n: nat)
    requires PoolInv(pool) && WindowShape(win, pool.tail) && win.wait.Listing()
    ensures var s, over := DataSection(pool, win, now, timeout, due), OverdueIn(win, win.wait.keys, now, timeout);
      && n <= |over|
      && var resent := RecordsOf(win, over[..n]);
         && (forall m :: 1 <= m < n ==> |Build(RecordsOf(win, over[..m]))| <= pool.max)
         && (n < |over| ==> |Build(resent)| > pool.max)
         && var full, wanted := n > 0 && |Build(resent)| > pool.max, pool.size > pool.max || (pool.size > 0 && due);
            && s.buf == resent + (if !full && wanted then [Record(pool.tail, Taken(pool).block)] else [])
            && s.pool == (if !full && wanted then Taken(pool).pool else pool)
            && (forall k :: k in s.win.wait.at <==> k in win.wait.at || (!full && wanted && k == pool.tail))
            && (forall k :: k in win.wait.at ==>
                  s.win.wait.at[k] == if k in over[..n] then Held(win.wait.at[k].payload, now) else win.wait.at[k])
            && (!full && wanted ==> s.win.wait.at[pool.tail] == Held(Taken(pool).block, now))
  {
    hide Build, Queued, Resend, OverdueIn, RecordsOf;
    SpanDistinct(win.cont + 1, pool.tail);
    var s0 := Sent(pool, win, [], false);
    n := ResendExactly(s0, win.wait.keys, now, timeout);
    var over := OverdueIn(win, win.wait.keys, now, timeout);
    OnTopOfNothing(win, over);
    ResendKeeps(s0, win.wait.keys, now, timeout);
    GetTakes(pool);
    var resent := RecordsOf(win, over[..n]);
    assert resent + [] == resent;
  }

  lemma OnTopOfNothing(w: Window, over: seq<nat>)
    requires forall k :: k in over ==> k in w.wait.at && w.wait.at[k].Held?
    ensures forall m :: 0 <= m <= |over| ==> [] + RecordsOf(w, over[..m]) == RecordsOf(w, over[..m])
  {
  }

  lemma SpanDistinct(lo: nat, hi: nat)
    ensures Distinct(Span(lo, hi))
  {
  }

  /** Every record of a section is in the window afterwards, sent at that time. */
  lemma WrittenIsFresh(pool: Pool, win: Window, now: real, timeout: real, due: bool, i: nat)
    requires PoolInv(pool) && WindowShape(win, pool.tail) && win.wait.Listing()
    requires i < |DataSection(pool, win, now, timeout, due).buf|
    ensures var s := DataSection(pool, win, now, timeout, due);
      s.buf[i].id in s.win.wait.at && s.win.wait.at[s.buf[i].id] == Held(s.buf[i].payload, now)
  {
    hide Build, DataSection, Queued, Taken, Span, OverdueIn;
    var n := DataSectionExactly(pool, win, now, timeout, due);
    var over := OverdueIn(win, win.wait.keys, now, timeout);
    if i < n {
      assert over[i] in over[..n];
    }
  }

  /** ... and was overdue in the window, or is new. */
  lemma WrittenWasDue(pool: Pool, win: Window, now: real, timeout: real, due: bool, i: nat)
    requires PoolInv(pool) && WindowShape(win, pool.tail) && win.wait.Listing()
    requires i < |DataSection(pool, win, now, timeout, due).buf|
    ensures var id := DataSection(pool, win, now, timeout, due).buf[i].id;
      Overdue(win, id, now, timeout) || id == pool.tail
  {
    hide Build, DataSection, Queued, Taken, Span, OverdueIn;
    var n := DataSectionExactly(pool, win, now, timeout, due);
    var over := OverdueIn(win, win.wait.keys, now, timeout);
    if i < n {
      assert over[i] in over;
    }
  }

  /** What a section has written is not written again before the timeout has passed. */
  lemma NotAgainTooSoon(pool: Pool, win: Window, now: real, timeout: real, due: bool, pool': Pool, now': real,
    due': bool, i: nat, j: nat)
    requires PoolInv(pool) && WindowShape(win, pool.tail) && win.wait.Listing() && now' - now <= timeout
    requires var s := DataSection(pool, win, now, timeout, due);
      && PoolInv(pool') && WindowShape(s.win, pool'.tail) && s.win.wait.Listing()
      && i < |s.buf| && j < |DataSection(pool', s.win, now', timeout, due').buf|
    ensures var s := DataSection(pool, win, now, timeout, due);
      DataSection(pool', s.win, now', timeout, due').buf[j].id != s.buf[i].id
  {
    hide DataSection;
    var s := DataSection(pool, win, now, timeout, due);
    WrittenIsFresh(pool, win, now, timeout, due, i);
    WrittenWasDue(pool', s.win, now', timeout, due', j);
  }

  ghost predicate HoldsShort(w: Window, max: nat) {
    forall k :: k in w.wait.at && w.wait.at[k].Held? ==> |w.wait.at[k].payload| <= max
  }

  lemma {:induction false} ResendLength(s: Sent, order: seq<nat>, now: real, timeout: real)
    requires forall k :: k in order ==> k in s.win.wait.at
    requires HoldsShort(s.win, s.pool.max) && |Build(s.buf)| <= s.pool.max && !s.full
    ensures var s' := Resend(s, order, now, timeout);
      |Build(s'.buf)| <= if s'.full then 2 * s.pool.max + 8 else s.pool.max
    decreases |order|
  {
    hide Build;
    if order != [] {
      var sn := order[0];
      match s.win.wait.at[sn] {
        case Acked => ResendLength(s, order[1..], now, timeout);
        case Held(payload, sentAt) =>
          var s' := Again(s, sn, payload, now);
          BuildSnoc(s.buf, Record(sn, payload));
          ResendLength(s, order[1..], now, timeout);
          if |Build(s'.buf)| <= s.pool.max {
            ResendLength(s', order[1..], now, timeout);
          }
      }
    }
  }

  /** A data section is at most two full blocks and a record header long. */
  lemma DataSectionLength(pool: Pool, win: Window, now: real, timeout: real, due: bool)
    requires PoolInv(pool) && win.wait.Listing() && HoldsShort(win, pool.max)
    ensures |Build(DataSection(pool, win, now, timeout, due).buf)| <= 2 * pool.max + 8
  {
    hide Build, Resend, Queued;
    var s0 := Sent(pool, win, [], false);
    assert |Build([])| == 0 by { BuildNothing(); }
    ResendLength(s0, win.wait.keys, now, timeout);
    ResendKeeps(s0, win.wait.keys, now, timeout);
    var r := Resend(s0, win.wait.keys, now, timeout);
    GetTakes(pool);
    BuildSnoc(r.buf, Record(Taken(pool).sn, Taken(pool).block));
  }

  lemma BuildNothing()
    ensures Build([]) == []
  {
  }

  lemma {:induction false} ListedLength(keys: seq<nat>)
    ensures |Listed(keys)| == 4 * |keys|
  {
    if keys != [] {
      ListedLength(keys[1..]);
    }
  }

  /** The length of an ack section. */
  lemma AckLength(r: Recv)
    requires r.next >= 1
    ensures |AckSection(r)| == 4 + 4 * |r.blocks.keys|
  {
    ListedLength(r.blocks.keys);
  }

  /** The send side between calls: every number handed out is in the window or behind it, with its bytes. */
  ghost predicate SendSide(pool: Pool, win: Window, handed: seq<bytes>) {
    && PoolInv(pool) && |handed| == pool.tail - 1
    && WindowShape(win, pool.tail) && HoldsOriginals(win, handed)
  }

  lemma EnterWindow(w: Window, tail: nat, handed: seq<bytes>, block: bytes, now: real)
    requires WindowShape(w, tail) && HoldsOriginals(w, handed) && |handed| == tail - 1
    ensures var w' := w.(wait := w.wait.Set(tail, Held(block, now)));
      WindowShape(w', tail + 1) && HoldsOriginals(w', handed + [block]) && SameAcked(w, w')
  {
    var w' := w.(wait := w.wait.Set(tail, Held(block, now)));
    assert w'.wait.keys == Span(w.cont + 1, tail + 1);
  }

  /** The blocks that left the pool, at most one, in the order handed out. */
  function NewlyHanded(pool: Pool, s: Sent): seq<bytes>
    requires PoolInv(pool)
  {
    if s.pool == pool then [] else [Taken(pool).block]
  }

  lemma FetchCarries(s: Sent, handed: seq<bytes>, now: real, due: bool)
    requires SendSide(s.pool, s.win, handed) && CarriesOriginals(s.buf, handed)
    ensures var f := Fetch(s, now, due); var handed' := handed + NewlyHanded(s.pool, f);
      && SendSide(f.pool, f.win, handed') && CarriesOriginals(f.buf, handed') && SameAcked(s.win, f.win)
      && f.pool.max == s.pool.max && f.win.cont == s.win.cont
      && (f.pool != s.pool ==> f.win.wait.at[s.pool.tail] != Acked)
  {
    GetTakes(s.pool);
    var g := Taken(s.pool);
    EnterWindow(s.win, s.pool.tail, handed, g.block, now);
    if Fetch(s, now, due).pool == s.pool {
      assert handed + [] == handed;
    }
  }

  lemma NewlyHandedLeave(pool: Pool, s: Sent, now: real, due: bool)
    requires PoolInv(pool) && s.pool == pool
    ensures Queued(pool) == Flatten(NewlyHanded(pool, Fetch(s, now, due))) + Queued(Fetch(s, now, due).pool)
  {
    hide Queued, PoolInv, Taken;
    GetTakes(pool);
    FlattenSnoc([], Taken(pool).block);
    assert [] + [Taken(pool).block] == [Taken(pool).block];
  }

  /** One `get_data`: the window keeps its shape, at most one block leaves the pool and is the next of the queue,
      and everything written or held is what was handed out under its number. */
  lemma DataSectionCarries(pool: Pool, win: Window, handed: seq<bytes>, now: real, timeout: real, due: bool)
    requires SendSide(pool, win, handed) && win.wait.Listing()
    ensures var s := DataSection(pool, win, now, timeout, due); var handed' := handed + NewlyHanded(pool, s);
      && SendSide(s.pool, s.win, handed') && CarriesOriginals(s.buf, handed') && SameAcked(win, s.win)
      && s.pool.max == pool.max && s.win.cont == win.cont
      && (s.pool != pool ==> s.win.wait.at[pool.tail] != Acked)
      && (forall i :: 0 <= i < |NewlyHanded(pool, s)| ==> 0 < |NewlyHanded(pool, s)[i]| <= pool.max)
      && Queued(pool) == Flatten(NewlyHanded(pool, s)) + Queued(s.pool)
  {
    hide Resend, Queued, Span;
    var s0 := Sent(pool, win, [], false);
    GetTakes(pool);
    ResendKeeps(s0, win.wait.keys, now, timeout);
    ResendCarries(s0, win.wait.keys, now, timeout, handed);
    var r := Resend(s0, win.wait.keys, now, timeout);
    assert WindowShape(r.win, pool.tail);
    if r.full {
      assert handed + [] == handed;
    } else {
      FetchCarries(r, handed, now, due);
      NewlyHandedLeave(pool, r, now, due);
    }
  }
}
