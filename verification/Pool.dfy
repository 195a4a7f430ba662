/** The connection pool of the HTTP client: an idle pool, the held set, and queues of waiters. */
module Pool {
  import opened Dicts
  import opened Wrappers

  type Key = nat

  /** What the held sets contain: a placeholder for a connection being made, or a protocol. */
  datatype Handler = Placeholder(task: nat) | Proto(id: nat)

  /** An idle protocol and when it was released. */
  datatype Idle = Idle(proto: nat, since: real)

  /** `woken` is the set of futures that have a result. */
  datatype Pool = Pool(
    limit: nat, limitPerHost: nat, keepalive: real,
    conns: map<Key, seq<Idle>>, acquired: set<Handler>, perHost: map<Key, set<Handler>>,
    waiters: map<Key, seq<nat>>, woken: set<nat>, closed: bool)

  /** At least 1 exactly when a new connection for the key may start; 0 limits do not bound. */
  function Available(p: Pool, key: Key): int {
    var total := if p.limit == 0 then 1 else p.limit - |p.acquired|;
    if p.limit > 0 && total <= 0 then total
    else if p.limitPerHost > 0 then
      var host := p.limitPerHost - (if key in p.perHost then |p.perHost[key]| else 0);
      if total > host then host else total
    else total
  }

  function Acquire(p: Pool, key: Key, h: Handler): Pool {
    p.(acquired := p.acquired + {h},
       perHost := if p.limitPerHost == 0 then p.perHost
                  else p.perHost[key := (if key in p.perHost then p.perHost[key] else {}) + {h}])
  }

  predicate Reusable(p: Pool, i: Idle, now: real, connected: set<nat>) {
    i.proto in connected && now - i.since <= p.keepalive
  }

  /** The position of the first reusable protocol of a queue, or the length. */
  function FirstReusable(p: Pool, q: seq<Idle>, now: real, connected: set<nat>): (n: nat)
    ensures n <= |q| && (n < |q| ==> Reusable(p, q[n], now, connected))
    ensures forall i :: 0 <= i < n ==> !Reusable(p, q[i], now, connected)
  {
    if q == [] then 0 else if Reusable(p, q[0], now, connected) then 0 else 1 + FirstReusable(p, q[1..], now, connected)
  }

  datatype Got = Got(pool: Pool, proto: Option<nat>)

  /** `_get`: the first reusable protocol of the key; the ones before it are closed and forgotten. */
  function Get(p: Pool, key: Key, now: real, connected: set<nat>): Got {
    if key !in p.conns then Got(p, None)
    else
      var q := p.conns[key];
      var n := FirstReusable(p, q, now, connected);
      if n == |q| then Got(p.(conns := p.conns - {key}), None)
      else
        var rest := if n + 1 == |q| then p.conns - {key} else p.conns[key := q[n + 1..]];
        Got(Acquire(p.(conns := rest), key, Proto(q[n].proto)), Some(q[n].proto))
  }

  /** `_get` hands out the first of the key's queue that is connected and was released within the keep-alive timeout,
      and leaves what is behind it; with none such in the queue it hands out nothing and leaves nothing. */
  lemma GetHandsOutFresh(p: Pool, key: Key, now: real, connected: set<nat>)
    ensures var g := Get(p, key, now, connected);
      match g.proto
      case Some(x) =>
        && key in p.conns && Proto(x) in g.pool.acquired
        && exists n: nat :: n < |p.conns[key]|
             && p.conns[key][n].proto == x && x in connected && now - p.conns[key][n].since <= p.keepalive
             && (forall i :: 0 <= i < n ==>
                   p.conns[key][i].proto !in connected || now - p.conns[key][i].since > p.keepalive)
             && (if n + 1 == |p.conns[key]| then g.pool.conns == p.conns - {key}
                 else g.pool.conns == p.conns[key := p.conns[key][n + 1..]])
      case None =>
        && g.pool == p.(conns := p.conns - {key})
        && (key in p.conns ==> forall i :: 0 <= i < |p.conns[key]| ==>
              p.conns[key][i].proto !in connected || now - p.conns[key][i].since > p.keepalive)
  {
    if key in p.conns {
      var q := p.conns[key];
      var n := FirstReusable(p, q, now, connected);
      assert forall i :: 0 <= i < n ==> !Reusable(p, q[i], now, connected);
    } else {
      assert p.conns - {key} == p.conns;
    }
  }

  /** The first waiter of a queue that has no result yet, and what is left behind it. */
  function FirstPending(q: seq<nat>, woken: set<nat>): (n: nat)
    ensures n <= |q| && (n < |q| ==> q[n] !in woken) && forall i :: 0 <= i < n ==> q[i] in woken
  {
    if q == [] then 0 else if q[0] !in woken then 0 else 1 + FirstPending(q[1..], woken)
  }

  /** `_release_waiter` over the keys in the shuffled order. */
  function ReleaseWaiter(p: Pool, order: seq<Key>): Pool
    decreases |order|
  {
    if order == [] then p
    else if Available(p, order[0]) < 1 || order[0] !in p.waiters then ReleaseWaiter(p, order[1..])
    else
      var q := p.waiters[order[0]];
      var n := FirstPending(q, p.woken);
      if n < |q| then p.(waiters := p.waiters[order[0] := q[n + 1..]], woken := p.woken + {q[n]})
      else ReleaseWaiter(p.(waiters := p.waiters[order[0] := []]), order[1..])
  }

  function Forget(p: Pool, key: Key, h: Handler): Pool {
    p.(acquired := p.acquired - {h},
       perHost := if p.limitPerHost == 0 || key !in p.perHost then p.perHost
                  else if p.perHost[key] - {h} == {} then p.perHost - {key}
                  else p.perHost[key := p.perHost[key] - {h}])
  }

  function ReleaseAcquired(p: Pool, key: Key, h: Handler, order: seq<Key>): Pool {
    if p.closed then p else ReleaseWaiter(Forget(p, key, h), order)
  }

  function Release(p: Pool, key: Key, proto: nat, close: bool, now: real, order: seq<Key>): Pool {
    if p.closed then p
    else
      var p' := ReleaseAcquired(p, key, Proto(proto), order);
      if close then p'
      else p'.(conns := p'.conns[key := (if key in p'.conns then p'.conns[key] else []) + [Idle(proto, now)]])
  }

  predicate Alive(p: Pool, i: Idle, now: real, connected: set<nat>) {
    i.proto in connected && i.since - (now - p.keepalive) >= 0.0
  }

  function Survivors(p: Pool, q: seq<Idle>, now: real, connected: set<nat>): seq<Idle> {
    if q == [] then []
    else (if Alive(p, q[0], now, connected) then [q[0]] else []) + Survivors(p, q[1..], now, connected)
  }

  /** A clean-up of a queue leaves exactly what is connected and was released within the keep-alive timeout, in
      order. */
  lemma {:induction false} SurvivorsAreFresh(p: Pool, q: seq<Idle>, now: real, connected: set<nat>)
    ensures Survivors(p, q, now, connected)
         == Filter(q, (i: Idle) => i.proto in connected && now - i.since <= p.keepalive)
  {
    if q != [] {
      SurvivorsAreFresh(p, q[1..], now, connected);
    }
  }

  /** `_cleanup`: what is no longer alive is closed, and keys left without a protocol are dropped. */
  function Cleanup(p: Pool, now: real, connected: set<nat>): Pool {
    p.(conns := map k | k in p.conns && Survivors(p, p.conns[k], now, connected) != []
                :: Survivors(p, p.conns[k], now, connected))
  }

  function Close(p: Pool): Pool {
    if p.closed then p
    else p.(conns := map[], acquired := {}, perHost := p.perHost, waiters := map[], closed := true)
  }

  /** A waiter enters the queue of its key: at the back the first time, at the front after a failed attempt. */
  function Enqueue(p: Pool, key: Key, fut: nat, front: bool): Pool {
    var q := if key in p.waiters then p.waiters[key] else [];
    p.(waiters := p.waiters[key := if front then [fut] + q else q + [fut]])
  }

  /** The waiter leaves its queue, which is dropped when empty. */
  function Dequeue(p: Pool, key: Key, fut: nat): Pool {
    if key !in p.waiters then p
    else
      var q := Without(p.waiters[key], fut);
      p.(waiters := if q == [] then p.waiters - {key} else p.waiters[key := q])
  }

  predicate Pending(p: Pool, key: Key, fut: nat) {
    key in p.waiters && fut in p.waiters[key] && fut !in p.woken
  }

  /** The front pending waiter of an eligible key was woken and nothing else about pending waiters changed. */
  ghost predicate WokeOne(p: Pool, p': Pool, k: Key, f: nat) {
    && Available(p, k) >= 1 && Pending(p, k, f) && p'.woken == p.woken + {f}
    && p.waiters[k][FirstPending(p.waiters[k], p.woken)] == f
    && forall k', f' :: f' != f ==> (Pending(p', k', f') <==> Pending(p, k', f'))
  }

  ghost predicate WokeNone(p: Pool, p': Pool) {
    p'.woken == p.woken && forall k, f :: Pending(p', k, f) <==> Pending(p, k, f)
  }

  /** Some waiter could be woken: it is pending and its key has room. */
  ghost predicate Wakeable(p: Pool) {
    exists k, f :: Pending(p, k, f) && Available(p, k) >= 1
  }

  lemma {:induction false} ReleaseWaiterOver(p: Pool, order: seq<Key>)
    ensures var p' := ReleaseWaiter(p, order);
      || (WokeNone(p, p') && forall k, f :: k in order && Pending(p, k, f) ==> Available(p, k) < 1)
      || exists k, f :: k in order && WokeOne(p, p', k, f)
    decreases |order|
  {
    if order != [] {
      var k := order[0];
      assert forall x :: x in order <==> x == k || x in order[1..];
      if Available(p, k) < 1 || k !in p.waiters {
        ReleaseWaiterOver(p, order[1..]);
      } else {
        var q := p.waiters[k];
        var n := FirstPending(q, p.woken);
        if n < |q| {
          assert WokeOne(p, ReleaseWaiter(p, order), k, q[n]);
        } else {
          var p1 := p.(waiters := p.waiters[k := []]);
          var p' := ReleaseWaiter(p1, order[1..]);
          assert forall k', f' :: Pending(p1, k', f') <==> Pending(p, k', f');
          assert forall x :: Available(p1, x) == Available(p, x);
          ReleaseWaiterOver(p1, order[1..]);
          forall x, f | WokeOne(p1, p', x, f) ensures WokeOne(p, p', x, f) {
            assert x != k;
          }
        }
      }
    }
  }

  /** The keys of the waiters in any order, as the shuffle gives them. */
  predicate Lists(order: seq<Key>, waiters: map<Key, seq<nat>>) {
    && (forall k :: k in order ==> k in waiters)
    && (forall k :: k in waiters ==> k in order)
  }

  /** Freeing a slot wakes the front pending waiter of one key with room, and nobody exactly when no key has both room
      and a pending waiter; no other waiter stops being pending. */
  lemma ReleaseWaiterWakesOne(p: Pool, order: seq<Key>)
    requires Lists(order, p.waiters)
    ensures var p' := ReleaseWaiter(p, order);
      if Wakeable(p) then exists k, f :: WokeOne(p, p', k, f) else WokeNone(p, p')
  {
    hide ReleaseWaiter, Available;
    ReleaseWaiterOver(p, order);
  }

  class BaseConnector {
    const limit: nat
    const limitPerHost: nat
    const keepaliveTimeout: real
    var conns: map<Key, seq<Idle>>
    var acquired: set<Handler>
    var acquiredPerHost: map<Key, set<Handler>>
    var waiters: map<Key, seq<nat>>
    var woken: set<nat>
    var closed: bool

    ghost function View(): Pool
      reads this
    {
      Pool(limit, limitPerHost, keepaliveTimeout, conns, acquired, acquiredPerHost, waiters, woken, closed)
    }

    constructor (limit: nat, limitPerHost: nat, keepaliveTimeout: real)
      ensures View() == NewPool(limit, limitPerHost, keepaliveTimeout)
    {
      this.limit, this.limitPerHost, this.keepaliveTimeout := limit, limitPerHost, keepaliveTimeout;
      conns, acquired, acquiredPerHost, waiters, woken, closed := map[], {}, map[], map[], {}, false;
    }

    method AvailableConnections(key: Key) returns (n: int)
      ensures n == Available(View(), key)
    {
      var total := 1;
      if limit > 0 {
        total := limit - |acquired|;
        if total <= 0 {
          return total;
        }
      }
      if limitPerHost > 0 {
        var host := limitPerHost;
        if key in acquiredPerHost {
          host := host - |acquiredPerHost[key]|;
        }
        if total > host {
          return host;
        }
      }
      return total;
    }

    method AcquireHandler(key: Key, h: Handler)
      modifies `acquired, `acquiredPerHost
      ensures View() == Acquire(old(View()), key, h)
    {
      acquired := acquired + {h};
      if limitPerHost > 0 {
        var held := if key in acquiredPerHost then acquiredPerHost[key] else {};
        acquiredPerHost := acquiredPerHost[key := held + {h}];
      }
    }

    method GetIdle(key: Key, now: real, connected: set<nat>) returns (proto: Option<nat>)
      modifies `conns, `acquired, `acquiredPerHost
      ensures Got(View(), proto) == Get(old(View()), key, now, connected)
    {
      if key !in conns {
        return None;
      }
      var queue := conns[key];
      ghost var n, taken := FirstReusable(View(), queue, now, connected), 0;
      while queue != []
        invariant View() == old(View()) && 0 <= taken <= n && queue == old(conns[key])[taken..]
        decreases |queue|
      {
        var first := queue[0];
        queue := queue[1..];
        if first.proto in connected && now - first.since <= keepaliveTimeout {
          assert taken == n;
          conns := if queue == [] then conns - {key} else conns[key := queue];
          AcquireHandler(key, Proto(first.proto));
          return Some(first.proto);
        }
        taken := taken + 1;
      }
      conns := conns - {key};
      return None;
    }

    method ReleaseOneWaiter(order: seq<Key>)
      modifies `waiters, `woken
      ensures View() == ReleaseWaiter(old(View()), order)
    {
      for i := 0 to |order|
        invariant ReleaseWaiter(View(), order[i..]) == ReleaseWaiter(old(View()), order)
      {
        var key := order[i];
        assert order[i..][0] == key && order[i..][1..] == order[i + 1..];
        var room := AvailableConnections(key);
        if room < 1 || key !in waiters {
          continue;
        }
        var queue := waiters[key];
        ghost var n, taken := FirstPending(queue, woken), 0;
        ghost var whole := queue;
        while queue != []
          invariant 0 <= taken <= n && queue == whole[taken..]
          decreases |queue|
        {
          var waiter := queue[0];
          queue := queue[1..];
          if waiter !in woken {
            waiters := waiters[key := queue];
            woken := woken + {waiter};
            return;
          }
          taken := taken + 1;
        }
        waiters := waiters[key := []];
      }
      assert order[|order|..] == [];
    }

    method ReleaseHeld(key: Key, h: Handler, order: seq<Key>)
      modifies `acquired, `acquiredPerHost, `waiters, `woken
      ensures View() == ReleaseAcquired(old(View()), key, h, order)
    {
      if closed {
        return;
      }
      acquired := acquired - {h};
      if limitPerHost > 0 && key in acquiredPerHost {
        var held := acquiredPerHost[key] - {h};
        acquiredPerHost := if held == {} then acquiredPerHost - {key} else acquiredPerHost[key := held];
      }
      ReleaseOneWaiter(order);
    }

    method ReleaseProtocol(key: Key, proto: nat, close: bool, now: real, order: seq<Key>)
      modifies this
      ensures View() == Release(old(View()), key, proto, close, now, order)
    {
      if closed {
        return;
      }
      ReleaseHeld(key, Proto(proto), order);
      if close {
        return;
      }
      var queue := if key in conns then conns[key] else [];
      conns := conns[key := queue + [Idle(proto, now)]];
    }

    method AliveOf(queue: seq<Idle>, now: real, connected: set<nat>) returns (alive: seq<Idle>)
      ensures alive == Survivors(View(), queue, now, connected)
    {
      alive := [];
      for i := 0 to |queue|
        invariant alive + Survivors(View(), queue[i..], now, connected) == Survivors(View(), queue, now, connected)
      {
        assert queue[i..][0] == queue[i] && queue[i..][1..] == queue[i + 1..];
        ghost var was := alive;
        if queue[i].proto in connected && queue[i].since - (now - keepaliveTimeout) >= 0.0 {
          alive := alive + [queue[i]];
        }
        assert was + Survivors(View(), queue[i..], now, connected)
            == alive + Survivors(View(), queue[i + 1..], now, connected);
      }
      assert alive + [] == alive;
    }

    method CleanupIdle(now: real, connected: set<nat>)
      modifies `conns
      ensures View() == Cleanup(old(View()), now, connected)
    {
      hide Survivors;
      var kept: map<Key, seq<Idle>> := map[];
      var left := conns.Keys;
      while left != {}
        invariant left <= conns.Keys && View() == old(View())
        invariant kept == map k | k in conns.Keys - left && Survivors(View(), conns[k], now, connected) != []
                          :: Survivors(View(), conns[k], now, connected)
        decreases left
      {
        var key :| key in left;
        left := left - {key};
        var alive := AliveOf(conns[key], now, connected);
        if alive != [] {
          kept := kept[key := alive];
        }
      }
      conns := kept;
    }
  }

  function NewPool(limit: nat, limitPerHost: nat, keepalive: real): Pool {
    Pool(limit, limitPerHost, keepalive, map[], {}, map[], map[], {}, false)
  }
}
