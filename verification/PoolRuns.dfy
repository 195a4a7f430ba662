/** Every run of connects, releases, closes and clean-ups over the pool, with any number of tasks under way. */
module PoolRuns {
  import opened Pool
  import opened Dicts

  /** A task inside `connect`: waiting for a slot, or making a connection behind its placeholder. */
  datatype Task = Waiting(key: Key, fut: nat) | Creating(key: Key)

  /** A live `Connection` object. */
  datatype Lease = Lease(key: Key, proto: nat)

  /** The pool, the tasks, and the live connections; for every held handler the key it is held for, for every
      protocol the key it was made for and the connection that owns it, and which held handlers were created rather
      than reused. */
  datatype World = World(pool: Pool, tasks: map<nat, Task>, leases: map<nat, Lease>, nextFut: nat,
                         keyed: map<Handler, Key>, madeFor: map<nat, Key>, owner: map<nat, nat>, created: set<Handler>)

  datatype Step =
    | Connect(task: nat, key: Key, now: real, connected: set<nat>)
    | Resume(task: nat, now: real, connected: set<nat>)
    | Created(task: nat, proto: nat)
    | CreateFails(task: nat, order: seq<Key>)
    | EndLease(conn: nat, close: bool, now: real, order: seq<Key>)
    | CleanUp(now: real, connected: set<nat>)
    | CloseAll

  predicate Enabled(w: World, step: Step) {
    match step
    case Connect(task, _, _, _) => task !in w.tasks && task !in w.leases
    case Resume(task, _, _) => task in w.tasks && w.tasks[task].Waiting? && w.tasks[task].fut in w.pool.woken
    case Created(task, proto) => task in w.tasks && w.tasks[task].Creating? && proto !in w.madeFor
    case CreateFails(task, order) => task in w.tasks && w.tasks[task].Creating? && Lists(order, w.pool.waiters)
    case EndLease(conn, _, _, order) => conn in w.leases && Lists(order, w.pool.waiters)
    case CleanUp(_, _) => true
    case CloseAll => true
  }

  /** A reused protocol becomes a connection of the caller. */
  function Reuse(w: World, task: nat, key: Key, g: Got): World
    requires g.proto.Some?
  {
    w.(pool := g.pool, tasks := w.tasks - {task}, leases := w.leases[task := Lease(key, g.proto.value)],
       keyed := w.keyed[Proto(g.proto.value) := key], owner := w.owner[g.proto.value := task])
  }

  /** A placeholder is held while the connection is made. */
  function Begin(w: World, task: nat, key: Key, pool: Pool): World {
    w.(pool := Acquire(pool, key, Placeholder(task)), tasks := w.tasks[task := Creating(key)],
       keyed := w.keyed[Placeholder(task) := key], created := w.created + {Placeholder(task)})
  }

  function Wait(w: World, task: nat, key: Key, pool: Pool, front: bool): World {
    w.(pool := Enqueue(pool, key, w.nextFut, front), tasks := w.tasks[task := Waiting(key, w.nextFut)],
       nextFut := w.nextFut + 1)
  }

  /** The placeholder makes way for the protocol. */
  function Swap(p: Pool, key: Key, task: nat, proto: nat): Pool {
    var acquired := p.acquired - {Placeholder(task)} + {Proto(proto)};
    if p.limitPerHost == 0 then p.(acquired := acquired)
    else
      var held := if key in p.perHost then p.perHost[key] else {};
      p.(acquired := acquired, perHost := p.perHost[key := held - {Placeholder(task)} + {Proto(proto)}])
  }

  function Apply(w: World, step: Step): World
    requires Enabled(w, step)
  {
    match step
    case Connect(task, key, now, connected) =>
      var g := Get(w.pool, key, now, connected);
      if g.proto.Some? then Reuse(w, task, key, g)
      else if Available(g.pool, key) <= 0 then Wait(w, task, key, g.pool, false)
      else Begin(w, task, key, g.pool)
    case Resume(task, now, connected) =>
      var key := w.tasks[task].key;
      var p := Dequeue(w.pool, key, w.tasks[task].fut);
      if Available(p, key) <= 0 then Wait(w, task, key, p, true)
      else
        var g := Get(p, key, now, connected);
        if g.proto.Some? then Reuse(w, task, key, g) else Begin(w, task, key, g.pool)
    case Created(task, proto) =>
      var key := w.tasks[task].key;
      var w' := w.(tasks := w.tasks - {task}, madeFor := w.madeFor[proto := key]);
      if w.pool.closed then w'
      else w'.(pool := Swap(w.pool, key, task, proto), leases := w.leases[task := Lease(key, proto)],
               keyed := w.keyed - {Placeholder(task)} + map[Proto(proto) := key], owner := w.owner[proto := task],
               created := w.created - {Placeholder(task)} + {Proto(proto)})
    case CreateFails(task, order) =>
      w.(pool := ReleaseAcquired(w.pool, w.tasks[task].key, Placeholder(task), order), tasks := w.tasks - {task},
         keyed := w.keyed - {Placeholder(task)}, created := w.created - {Placeholder(task)})
    case EndLease(conn, close, now, order) =>
      var l := w.leases[conn];
      w.(pool := Release(w.pool, l.key, l.proto, close, now, order), leases := w.leases - {conn},
         keyed := w.keyed - {Proto(l.proto)}, created := w.created - {Proto(l.proto)})
    case CleanUp(now, connected) => w.(pool := Cleanup(w.pool, now, connected))
    case CloseAll => w.(pool := Close(w.pool))
  }

  /** The held set is what is keyed, and the per-host sets, when kept, split it by key with none left empty. */
  ghost predicate HeldOk(acquired: set<Handler>, perHost: map<Key, set<Handler>>, limitPerHost: nat,
    keyed: map<Handler, Key>) {
    && acquired == keyed.Keys
    && (limitPerHost == 0 ==> perHost == map[])
    && (limitPerHost > 0 ==>
         && (forall k :: k in perHost ==> perHost[k] != {})
         && (forall k, h :: k in perHost && h in perHost[k] ==> h in keyed && keyed[h] == k)
         && (forall h :: h in keyed ==> keyed[h] in perHost && h in perHost[keyed[h]]))
  }

  /** Held are exactly the placeholders of creating tasks and the protocols of the live connections; every
      connection has a protocol of its own, made for its key. */
  ghost predicate LeasesOk(w: World) {
    && w.tasks.Keys !! w.leases.Keys
    && PlaceholdersOk(w.tasks, w.keyed)
    && ConnectionsOk(w.leases, w.keyed, w.madeFor, w.owner)
  }

  ghost predicate PlaceholdersOk(tasks: map<nat, Task>, keyed: map<Handler, Key>) {
    && (forall t :: Placeholder(t) in keyed <==> t in tasks && tasks[t].Creating?)
    && (forall t :: t in tasks && tasks[t].Creating? ==> keyed[Placeholder(t)] == tasks[t].key)
  }

  ghost predicate ConnectionsOk(leases: map<nat, Lease>, keyed: map<Handler, Key>, madeFor: map<nat, Key>,
    owner: map<nat, nat>) {
    && (forall c :: c in leases ==>
          var l := leases[c];
          Proto(l.proto) in keyed && keyed[Proto(l.proto)] == l.key
          && l.proto in madeFor && madeFor[l.proto] == l.key && l.proto in owner && owner[l.proto] == c)
    && (forall p :: Proto(p) in keyed ==> p in owner && owner[p] in leases && leases[owner[p]].proto == p)
  }

  /** Idle queues are never empty and hold distinct protocols made for their key, none of them held. */
  ghost predicate IdleOk(conns: map<Key, seq<Idle>>, keyed: map<Handler, Key>, madeFor: map<nat, Key>) {
    && (forall k :: k in conns ==> conns[k] != [])
    && (forall k, i :: k in conns && 0 <= i < |conns[k]| ==>
          conns[k][i].proto in madeFor && madeFor[conns[k][i].proto] == k && Proto(conns[k][i].proto) !in keyed)
    && (forall k, i, j :: k in conns && 0 <= i < j < |conns[k]| ==> conns[k][i].proto != conns[k][j].proto)
  }

  ghost function CreatedFor(created: set<Handler>, keyed: map<Handler, Key>, k: Key): set<Handler> {
    set h | h in created && h in keyed && keyed[h] == k
  }

  ghost function CreatedCount(created: set<Handler>, keyed: map<Handler, Key>, k: Key): nat {
    |CreatedFor(created, keyed, k)|
  }

  /** Of what is held, at most the limit was created, in all and for every key. */
  ghost predicate CreatedOk(limit: nat, limitPerHost: nat, created: set<Handler>, keyed: map<Handler, Key>) {
    && created <= keyed.Keys && (forall t :: Placeholder(t) in keyed ==> Placeholder(t) in created)
    && (limit > 0 ==> |created| <= limit)
    && (limitPerHost > 0 ==> forall k :: CreatedCount(created, keyed, k) <= limitPerHost)
  }

  /** Every waiting task is woken or still queued. */
  ghost predicate WaitersOk(pool: Pool, tasks: map<nat, Task>, nextFut: nat) {
    forall t :: t in tasks && tasks[t].Waiting? ==>
      tasks[t].fut < nextFut && (tasks[t].fut in pool.woken
        || (tasks[t].key in pool.waiters && tasks[t].fut in pool.waiters[tasks[t].key]))
  }

  ghost predicate DistinctFuts(tasks: map<nat, Task>) {
    forall t, u :: t in tasks && u in tasks && t != u && tasks[t].Waiting? && tasks[u].Waiting?
      ==> tasks[t].fut != tasks[u].fut
  }

  ghost predicate OpenInv(w: World) {
    && HeldOk(w.pool.acquired, w.pool.perHost, w.pool.limitPerHost, w.keyed)
    && LeasesOk(w)
    && IdleOk(w.pool.conns, w.keyed, w.madeFor)
    && CreatedOk(w.pool.limit, w.pool.limitPerHost, w.created, w.keyed)
    && WaitersOk(w.pool, w.tasks, w.nextFut) && DistinctFuts(w.tasks)
  }

  ghost predicate Inv(w: World) {
    w.pool.closed || OpenInv(w)
  }

  lemma AcquireHolds(p: Pool, keyed: map<Handler, Key>, key: Key, h: Handler)
    requires HeldOk(p.acquired, p.perHost, p.limitPerHost, keyed) && h !in keyed
    ensures HeldOk(Acquire(p, key, h).acquired, Acquire(p, key, h).perHost, p.limitPerHost, keyed[h := key])
  {
  }

  lemma ForgetLets(p: Pool, keyed: map<Handler, Key>, key: Key, h: Handler)
    requires HeldOk(p.acquired, p.perHost, p.limitPerHost, keyed) && h in keyed && keyed[h] == key
    ensures HeldOk(Forget(p, key, h).acquired, Forget(p, key, h).perHost, p.limitPerHost, keyed - {h})
  {
  }

  lemma {:induction false} ReleaseWaiterOnlyWaiters(p: Pool, order: seq<Key>)
    ensures ReleaseWaiter(p, order)
      == p.(waiters := ReleaseWaiter(p, order).waiters, woken := ReleaseWaiter(p, order).woken)
    decreases |order|
  {
    if order != [] {
      if Available(p, order[0]) < 1 || order[0] !in p.waiters {
        ReleaseWaiterOnlyWaiters(p, order[1..]);
      } else if FirstPending(p.waiters[order[0]], p.woken) == |p.waiters[order[0]]| {
        ReleaseWaiterOnlyWaiters(p.(waiters := p.waiters[order[0] := []]), order[1..]);
      }
    }
  }

  lemma ReleaseWaiterKeeps(p: Pool, order: seq<Key>, tasks: map<nat, Task>, nextFut: nat)
    requires WaitersOk(p, tasks, nextFut)
    ensures WaitersOk(ReleaseWaiter(p, order), tasks, nextFut)
  {
    ReleaseWaiterOver(p, order);
    var p' := ReleaseWaiter(p, order);
    forall t | t in tasks && tasks[t].Waiting?
      ensures tasks[t].fut in p'.woken || (tasks[t].key in p'.waiters && tasks[t].fut in p'.waiters[tasks[t].key])
    {
      if tasks[t].fut !in p.woken {
        assert Pending(p, tasks[t].key, tasks[t].fut);
        assert tasks[t].fut in p'.woken || Pending(p', tasks[t].key, tasks[t].fut);
      }
    }
  }

  lemma {:induction false} SubsetSize<T>(a: set<T>, b: set<T>)
    requires a <= b
    ensures |a| <= |b|
    decreases a
  {
    if a != {} {
      var x :| x in a;
      SubsetSize(a - {x}, b - {x});
    }
  }

  /** What `_get` does to the idle pool, and that what it hands out was made for the key and is held by nobody. */
  lemma GetTakesIdle(p: Pool, keyed: map<Handler, Key>, madeFor: map<nat, Key>, key: Key, now: real,
    connected: set<nat>)
    requires IdleOk(p.conns, keyed, madeFor)
    ensures var g := Get(p, key, now, connected);
      match g.proto
      case None => IdleOk(g.pool.conns, keyed, madeFor) && g.pool == p.(conns := g.pool.conns)
      case Some(x) =>
        && Proto(x) !in keyed && x in madeFor && madeFor[x] == key && x in connected
        && g.pool == Acquire(p.(conns := g.pool.conns), key, Proto(x))
        && IdleOk(g.pool.conns, keyed[Proto(x) := key], madeFor)
  {
    hide FirstReusable, IdleOk;
    if key in p.conns {
      var q := p.conns[key];
      var n := FirstReusable(p, q, now, connected);
      IdleWithout(p.conns, keyed, madeFor, key);
      if n < |q| {
        IdleBehind(p.conns, keyed, madeFor, key, n);
      }
    }
  }

  lemma IdleWithout(conns: map<Key, seq<Idle>>, keyed: map<Handler, Key>, madeFor: map<nat, Key>, key: Key)
    requires IdleOk(conns, keyed, madeFor)
    ensures IdleOk(conns - {key}, keyed, madeFor)
  {
  }

  /** A protocol taken out of its queue is held by nobody yet, and what stays behind it stays idle. */
  lemma IdleBehind(conns: map<Key, seq<Idle>>, keyed: map<Handler, Key>, madeFor: map<nat, Key>, key: Key, n: nat)
    requires IdleOk(conns, keyed, madeFor) && key in conns && n < |conns[key]|
    ensures var x := conns[key][n].proto;
      && Proto(x) !in keyed && x in madeFor && madeFor[x] == key
      && IdleOk(if n + 1 == |conns[key]| then conns - {key} else conns[key := conns[key][n + 1..]],
        keyed[Proto(x) := key], madeFor)
  {
    var q, x := conns[key], conns[key][n].proto;
    var rest: map<Key, seq<Idle>> := if n + 1 == |q| then conns - {key} else conns[key := q[n + 1..]];
    forall k: Key, i: nat | k in rest && i < |rest[k]|
      ensures rest[k][i].proto in madeFor && madeFor[rest[k][i].proto] == k
      ensures Proto(rest[k][i].proto) !in keyed[Proto(x) := key]
    {
      if k == key {
        assert rest[k][i] == q[n + 1 + i];
      } else {
        assert rest[k][i] == conns[k][i];
      }
    }
  }

  lemma {:induction false} SurvivorsAreSome(p: Pool, q: seq<Idle>, now: real, connected: set<nat>)
    requires forall i, j :: 0 <= i < j < |q| ==> q[i].proto != q[j].proto
    ensures forall x :: x in Survivors(p, q, now, connected) ==> x in q
    ensures forall i, j :: 0 <= i < j < |Survivors(p, q, now, connected)| ==>
      Survivors(p, q, now, connected)[i].proto != Survivors(p, q, now, connected)[j].proto
  {
    if q != [] {
      SurvivorsAreSome(p, q[1..], now, connected);
      var s := Survivors(p, q[1..], now, connected);
      forall x | x in s ensures x in q && x.proto != q[0].proto {
        assert x in q[1..];
      }
      assert forall i :: 0 <= i < |s| ==> s[i] in s;
    }
  }

  lemma CleanupIdleOk(p: Pool, keyed: map<Handler, Key>, madeFor: map<nat, Key>, now: real, connected: set<nat>)
    requires IdleOk(p.conns, keyed, madeFor)
    ensures IdleOk(Cleanup(p, now, connected).conns, keyed, madeFor)
  {
    var conns := Cleanup(p, now, connected).conns;
    forall k | k in conns
      ensures forall i :: 0 <= i < |conns[k]| ==> conns[k][i] in p.conns[k]
      ensures forall i, j :: 0 <= i < j < |conns[k]| ==> conns[k][i].proto != conns[k][j].proto
    {
      SurvivorsAreSome(p, p.conns[k], now, connected);
      assert forall i :: 0 <= i < |conns[k]| ==> conns[k][i] in conns[k];
      assert conns[k] == Survivors(p, p.conns[k], now, connected);
    }
  }

  /** Room for the key means room for one more created handler. */
  lemma RoomMeansCreatable(p: Pool, keyed: map<Handler, Key>, created: set<Handler>, key: Key, h: Handler)
    requires HeldOk(p.acquired, p.perHost, p.limitPerHost, keyed) && CreatedOk(p.limit, p.limitPerHost, created, keyed)
    requires Available(p, key) >= 1 && h !in keyed
    ensures CreatedOk(p.limit, p.limitPerHost, created + {h}, keyed[h := key])
  {
    var created', keyed' := created + {h}, keyed[h := key];
    SubsetSize(created, p.acquired);
    if p.limitPerHost > 0 {
      forall k ensures CreatedCount(created', keyed', k) <= p.limitPerHost {
        if k == key {
          RoomForKey(p, keyed, created, key, h);
        } else {
          SubsetSize(CreatedFor(created', keyed', k), CreatedFor(created, keyed, k));
          assert CreatedCount(created, keyed, k) <= p.limitPerHost;
        }
      }
    }
  }

  lemma RoomForKey(p: Pool, keyed: map<Handler, Key>, created: set<Handler>, key: Key, h: Handler)
    requires HeldOk(p.acquired, p.perHost, p.limitPerHost, keyed) && p.limitPerHost > 0
    requires Available(p, key) >= 1
    ensures CreatedCount(created + {h}, keyed[h := key], key) <= p.limitPerHost
  {
    var held := if key in p.perHost then p.perHost[key] else {};
    var after := CreatedFor(created + {h}, keyed[h := key], key);
    assert after <= held + {h};
    SubsetSize(after, held + {h});
    assert |held| < p.limitPerHost;
  }

  /** Holding one handler more that was reused keeps the bound. */
  lemma ReuseKeepsCreated(limit: nat, limitPerHost: nat, created: set<Handler>, keyed: map<Handler, Key>, h: Handler,
    key: Key)
    requires CreatedOk(limit, limitPerHost, created, keyed) && h !in keyed && h.Proto?
    ensures CreatedOk(limit, limitPerHost, created, keyed[h := key])
  {
    var keyed' := keyed[h := key];
    if limitPerHost > 0 {
      forall k ensures CreatedCount(created, keyed', k) <= limitPerHost {
        assert CreatedFor(created, keyed', k) == CreatedFor(created, keyed, k);
        assert CreatedCount(created, keyed, k) <= limitPerHost;
      }
    }
  }

  lemma LettingGoKeepsCreated(limit: nat, limitPerHost: nat, created: set<Handler>, keyed: map<Handler, Key>,
    h: Handler)
    requires CreatedOk(limit, limitPerHost, created, keyed)
    ensures CreatedOk(limit, limitPerHost, created - {h}, keyed - {h})
  {
    var created', keyed' := created - {h}, keyed - {h};
    SubsetSize(created', created);
    forall k ensures CreatedCount(created', keyed', k) <= CreatedCount(created, keyed, k) {
      SubsetSize(CreatedFor(created', keyed', k), CreatedFor(created, keyed, k));
    }
  }

  /** The protocol takes the place of its placeholder. */
  lemma SwapKeepsCreated(limit: nat, limitPerHost: nat, created: set<Handler>, keyed: map<Handler, Key>, h: Handler,
    h': Handler, key: Key)
    requires CreatedOk(limit, limitPerHost, created, keyed)
    requires h in created && keyed[h] == key && h' !in keyed && h'.Proto? && h.Placeholder?
    ensures CreatedOk(limit, limitPerHost, created - {h} + {h'}, keyed - {h} + map[h' := key])
  {
    var created' := created - {h} + {h'};
    var keyed': map<Handler, Key> := keyed - {h} + map[h' := key];
    assert |created'| == |created|;
    forall k ensures CreatedCount(created', keyed', k) <= CreatedCount(created, keyed, k) {
      SwapCount(created, keyed, h, h', key, k);
    }
  }

  lemma SwapCount(created: set<Handler>, keyed: map<Handler, Key>, h: Handler, h': Handler, key: Key, k: Key)
    requires created <= keyed.Keys && h in created && keyed[h] == key && h' !in keyed
    ensures CreatedCount(created - {h} + {h'}, keyed - {h} + map[h' := key], k) <= CreatedCount(created, keyed, k)
  {
    var before, after := CreatedFor(created, keyed, k),
      CreatedFor(created - {h} + {h'}, keyed - {h} + map[h' := key], k);
    if k == key {
      assert after <= before - {h} + {h'};
      SubsetSize(after, before - {h} + {h'});
    } else {
      assert after <= before;
      SubsetSize(after, before);
    }
  }

  lemma SwapHolds(p: Pool, keyed: map<Handler, Key>, key: Key, task: nat, proto: nat)
    requires HeldOk(p.acquired, p.perHost, p.limitPerHost, keyed)
    requires Placeholder(task) in keyed && keyed[Placeholder(task)] == key && Proto(proto) !in keyed
    ensures HeldOk(Swap(p, key, task, proto).acquired, Swap(p, key, task, proto).perHost, p.limitPerHost,
                   keyed - {Placeholder(task)} + map[Proto(proto) := key])
  {
    var keyed': map<Handler, Key> := keyed - {Placeholder(task)} + map[Proto(proto) := key];
    var q := Swap(p, key, task, proto);
    assert q.acquired == keyed'.Keys;
    if p.limitPerHost > 0 {
      forall h | h in keyed' ensures keyed'[h] in q.perHost && h in q.perHost[keyed'[h]] {
        if h != Proto(proto) {
          assert keyed'[h] == keyed[h] && h in p.perHost[keyed[h]];
        }
      }
    }
  }

  /** A task starts waiting, in any place of its queue. */
  lemma WaitKeeps(p: Pool, tasks: map<nat, Task>, task: nat, key: Key, fut: nat, front: bool)
    requires WaitersOk(p, tasks - {task}, fut) && DistinctFuts(tasks - {task})
    ensures WaitersOk(Enqueue(p, key, fut, front), tasks[task := Waiting(key, fut)], fut + 1)
    ensures DistinctFuts(tasks[task := Waiting(key, fut)])
  {
    var p', tasks' := Enqueue(p, key, fut, front), tasks[task := Waiting(key, fut)];
    forall t | t in tasks' && tasks'[t].Waiting?
      ensures tasks'[t].fut < fut + 1
        && (tasks'[t].fut in p'.woken || (tasks'[t].key in p'.waiters && tasks'[t].fut in p'.waiters[tasks'[t].key]))
    {
      if t != task {
        assert t in tasks - {task} && (tasks - {task})[t] == tasks'[t];
      }
    }
    forall t, u | t in tasks' && u in tasks' && t != u && tasks'[t].Waiting? && tasks'[u].Waiting?
      ensures tasks'[t].fut != tasks'[u].fut
    {
      assert t != task ==> t in tasks - {task} && (tasks - {task})[t] == tasks'[t];
      assert u != task ==> u in tasks - {task} && (tasks - {task})[u] == tasks'[u];
    }
  }

  /** A woken task leaves its queue; the others stay in theirs. */
  lemma DequeueKeeps(p: Pool, tasks: map<nat, Task>, nextFut: nat, task: nat)
    requires WaitersOk(p, tasks, nextFut) && DistinctFuts(tasks) && task in tasks && tasks[task].Waiting?
    ensures WaitersOk(Dequeue(p, tasks[task].key, tasks[task].fut), tasks - {task}, nextFut)
    ensures DistinctFuts(tasks - {task})
  {
    var p', key, fut := Dequeue(p, tasks[task].key, tasks[task].fut), tasks[task].key, tasks[task].fut;
    forall t | t in tasks - {task} && tasks[t].Waiting?
      ensures tasks[t].fut in p'.woken || (tasks[t].key in p'.waiters && tasks[t].fut in p'.waiters[tasks[t].key])
    {
      if tasks[t].fut !in p.woken && tasks[t].key == key {
        WithoutKeepsOthers(p.waiters[key], fut, tasks[t].fut);
      }
    }
  }

  lemma FewerWaiters(p: Pool, tasks: map<nat, Task>, nextFut: nat, task: nat, state: Task)
    requires WaitersOk(p, tasks, nextFut) && DistinctFuts(tasks) && !state.Waiting?
    ensures WaitersOk(p, tasks - {task}, nextFut) && DistinctFuts(tasks - {task})
    ensures WaitersOk(p, tasks[task := state], nextFut) && DistinctFuts(tasks[task := state])
  {
  }

  /** This caller is neither creating nor the owner of a connection. */
  predicate Free(w: World, task: nat) {
    task !in w.leases && !(task in w.tasks && w.tasks[task].Creating?)
  }

  lemma ReuseLeases(w: World, task: nat, key: Key, p: Pool, g: Got)
    requires LeasesOk(w.(pool := p, tasks := w.tasks - {task})) && Free(w, task)
    requires g.proto.Some? && Proto(g.proto.value) !in w.keyed
    requires g.proto.value in w.madeFor && w.madeFor[g.proto.value] == key
    ensures LeasesOk(Reuse(w, task, key, g))
  {
  }

  lemma BeginLeases(w: World, task: nat, key: Key, p: Pool)
    requires LeasesOk(w.(pool := p, tasks := w.tasks - {task})) && Free(w, task)
    ensures LeasesOk(Begin(w, task, key, p)) && Placeholder(task) !in w.keyed
  {
    hide Acquire;
  }

  lemma ReuseKeeps(w: World, task: nat, key: Key, p: Pool, now: real, connected: set<nat>)
    requires OpenInv(w.(pool := p, tasks := w.tasks - {task})) && Free(w, task)
    requires Get(p, key, now, connected).proto.Some?
    ensures OpenInv(Reuse(w, task, key, Get(p, key, now, connected)))
  {
    hide HeldOk, IdleOk, CreatedOk, WaitersOk, DistinctFuts, Get, LeasesOk;
    var g := Get(p, key, now, connected);
    GetTakesIdle(p, w.keyed, w.madeFor, key, now, connected);
    ReuseLeases(w, task, key, p, g);
    AcquireHolds(p.(conns := g.pool.conns), w.keyed, key, Proto(g.proto.value));
    ReuseKeepsCreated(p.limit, p.limitPerHost, w.created, w.keyed, Proto(g.proto.value), key);
    SameWaiters(p, g.pool, w.tasks - {task}, w.nextFut);
  }

  lemma SameWaiters(p: Pool, p': Pool, tasks: map<nat, Task>, nextFut: nat)
    requires WaitersOk(p, tasks, nextFut) && p'.waiters == p.waiters && p'.woken == p.woken
    ensures WaitersOk(p', tasks, nextFut)
  {
  }

  lemma BeginKeeps(w: World, task: nat, key: Key, p: Pool)
    requires OpenInv(w.(pool := p, tasks := w.tasks - {task})) && Free(w, task) && Available(p, key) >= 1
    ensures OpenInv(Begin(w, task, key, p))
  {
    hide HeldOk, IdleOk, CreatedOk, WaitersOk, DistinctFuts, Available, LeasesOk;
    var h := Placeholder(task);
    BeginLeases(w, task, key, p);
    AcquireHolds(p, w.keyed, key, h);
    RoomMeansCreatable(p, w.keyed, w.created, key, h);
    HeldPlaceholder(p.conns, w.keyed, w.madeFor, task, key);
    FewerWaiters(p, w.tasks - {task}, w.nextFut, task, Creating(key));
    assert (w.tasks - {task})[task := Creating(key)] == w.tasks[task := Creating(key)];
    SameWaiters(p, Acquire(p, key, h), w.tasks[task := Creating(key)], w.nextFut);
  }

  lemma HeldPlaceholder(conns: map<Key, seq<Idle>>, keyed: map<Handler, Key>, madeFor: map<nat, Key>, task: nat,
    key: Key)
    requires IdleOk(conns, keyed, madeFor)
    ensures IdleOk(conns, keyed[Placeholder(task) := key], madeFor)
    ensures IdleOk(conns, keyed - {Placeholder(task)}, madeFor)
  {
  }

  lemma WaitingKeeps(w: World, task: nat, key: Key, p: Pool, front: bool)
    requires OpenInv(w.(pool := p, tasks := w.tasks - {task})) && Free(w, task)
    ensures OpenInv(Wait(w, task, key, p, front))
  {
    hide HeldOk, IdleOk, CreatedOk, WaitersOk, DistinctFuts;
    WaitKeeps(p, w.tasks, task, key, w.nextFut, front);
  }

  /** From a free task and a pool, however it got there, to the end of its segment. */
  lemma ProceedKeeps(w: World, task: nat, key: Key, p: Pool, now: real, connected: set<nat>)
    requires OpenInv(w.(pool := p, tasks := w.tasks - {task})) && Free(w, task)
    ensures var g := Get(p, key, now, connected);
      && (g.proto.Some? ==> OpenInv(Reuse(w, task, key, g)))
      && (g.proto.None? && Available(g.pool, key) >= 1 ==> OpenInv(Begin(w, task, key, g.pool)))
      && (g.proto.None? ==> OpenInv(Wait(w, task, key, g.pool, false)) && Available(g.pool, key) == Available(p, key))
  {
    hide OpenInv, Get, Reuse, Begin, Wait;
    var g := Get(p, key, now, connected);
    if g.proto.Some? {
      ReuseKeeps(w, task, key, p, now, connected);
    } else {
      NothingIdle(w, task, key, p, now, connected);
      WaitingKeeps(w, task, key, g.pool, false);
      if Available(g.pool, key) >= 1 {
        BeginKeeps(w, task, key, g.pool);
      }
    }
  }

  lemma NothingIdle(w: World, task: nat, key: Key, p: Pool, now: real, connected: set<nat>)
    requires OpenInv(w.(pool := p, tasks := w.tasks - {task})) && Get(p, key, now, connected).proto.None?
    ensures OpenInv(w.(pool := Get(p, key, now, connected).pool, tasks := w.tasks - {task}))
    ensures Available(Get(p, key, now, connected).pool, key) == Available(p, key)
  {
    hide HeldOk, IdleOk, CreatedOk, WaitersOk, DistinctFuts, Get, LeasesOk;
    var w' := w.(pool := Get(p, key, now, connected).pool, tasks := w.tasks - {task});
    GetTakesIdle(p, w.keyed, w.madeFor, key, now, connected);
    SameWaiters(p, Get(p, key, now, connected).pool, w.tasks - {task}, w.nextFut);
    LeasesIgnorePool(w.(pool := p, tasks := w.tasks - {task}), w'.pool);
  }

  lemma LeasesIgnorePool(w: World, p: Pool)
    requires LeasesOk(w)
    ensures LeasesOk(w.(pool := p))
  {
  }

  lemma ConnectKeeps(w: World, task: nat, key: Key, now: real, connected: set<nat>)
    requires OpenInv(w) && Enabled(w, Connect(task, key, now, connected))
    ensures OpenInv(Apply(w, Connect(task, key, now, connected)))
  {
    hide OpenInv, Get, Reuse, Begin, Wait;
    assert w.tasks - {task} == w.tasks && w.(pool := w.pool, tasks := w.tasks - {task}) == w;
    ProceedKeeps(w, task, key, w.pool, now, connected);
  }

  lemma ResumeKeeps(w: World, task: nat, now: real, connected: set<nat>)
    requires OpenInv(w) && Enabled(w, Resume(task, now, connected))
    ensures OpenInv(Apply(w, Resume(task, now, connected)))
  {
    var key, p := w.tasks[task].key, Dequeue(w.pool, w.tasks[task].key, w.tasks[task].fut);
    LeaveQueue(w, task);
    hide OpenInv, Get, Reuse, Begin, Wait, Dequeue;
    ProceedKeeps(w, task, key, p, now, connected);
    WaitingKeeps(w, task, key, p, true);
  }

  lemma LeaveQueue(w: World, task: nat)
    requires OpenInv(w) && task in w.tasks && w.tasks[task].Waiting?
    ensures OpenInv(w.(pool := Dequeue(w.pool, w.tasks[task].key, w.tasks[task].fut), tasks := w.tasks - {task}))
  {
    hide HeldOk, IdleOk, CreatedOk, WaitersOk, DistinctFuts;
    DequeueKeeps(w.pool, w.tasks, w.nextFut, task);
  }

  lemma CreatedPlaceholders(tasks: map<nat, Task>, keyed: map<Handler, Key>, task: nat, proto: nat, key: Key)
    requires PlaceholdersOk(tasks, keyed)
    ensures PlaceholdersOk(tasks - {task}, keyed - {Placeholder(task)} + map[Proto(proto) := key])
  {
  }

  lemma CreatedConnections(leases: map<nat, Lease>, keyed: map<Handler, Key>, madeFor: map<nat, Key>,
                           owner: map<nat, nat>, task: nat, proto: nat, key: Key)
    requires ConnectionsOk(leases, keyed, madeFor, owner) && Proto(proto) !in keyed && task !in leases
    ensures ConnectionsOk(leases[task := Lease(key, proto)], keyed - {Placeholder(task)} + map[Proto(proto) := key],
              madeFor[proto := key], owner[proto := task])
  {
    assert forall c :: c in leases ==> leases[c].proto != proto;
  }

  lemma CreatedLeases(w: World, task: nat, proto: nat)
    requires LeasesOk(w) && !w.pool.closed && Enabled(w, Created(task, proto)) && Proto(proto) !in w.keyed
    ensures LeasesOk(Apply(w, Created(task, proto)))
  {
    hide Swap, Reuse, Begin, Wait, Get, Dequeue, ReleaseAcquired, Cleanup, Close, Available, PlaceholdersOk,
      ConnectionsOk;
    CreatedPlaceholders(w.tasks, w.keyed, task, proto, w.tasks[task].key);
    CreatedConnections(w.leases, w.keyed, w.madeFor, w.owner, task, proto, w.tasks[task].key);
  }

  lemma CreatedIdle(conns: map<Key, seq<Idle>>, keyed: map<Handler, Key>, madeFor: map<nat, Key>, task: nat, proto: nat,
    key: Key)
    requires IdleOk(conns, keyed, madeFor) && proto !in madeFor
    ensures IdleOk(conns, keyed - {Placeholder(task)} + map[Proto(proto) := key], madeFor[proto := key])
  {
  }

  lemma ProtoIsNew(w: World, proto: nat)
    requires LeasesOk(w) && proto !in w.madeFor
    ensures Proto(proto) !in w.keyed
  {
  }

  lemma CreatedKeeps(w: World, task: nat, proto: nat)
    requires OpenInv(w) && !w.pool.closed && Enabled(w, Created(task, proto))
    ensures OpenInv(Apply(w, Created(task, proto)))
  {
    hide HeldOk, CreatedOk, WaitersOk, DistinctFuts, IdleOk, LeasesOk;
    var key := w.tasks[task].key;
    ProtoIsNew(w, proto);
    CreatedLeases(w, task, proto);
    CreatedIdle(w.pool.conns, w.keyed, w.madeFor, task, proto, key);
    assert Placeholder(task) in w.keyed && w.keyed[Placeholder(task)] == key by { PlaceholderHeld(w, task); }
    SwapHolds(w.pool, w.keyed, key, task, proto);
    PlaceholderCreated(w, task);
    SwapKeepsCreated(w.pool.limit, w.pool.limitPerHost, w.created, w.keyed, Placeholder(task), Proto(proto), key);
    FewerWaiters(w.pool, w.tasks, w.nextFut, task, Creating(key));
    SameWaiters(w.pool, Swap(w.pool, key, task, proto), w.tasks - {task}, w.nextFut);
  }

  lemma PlaceholderHeld(w: World, task: nat)
    requires LeasesOk(w) && task in w.tasks && w.tasks[task].Creating?
    ensures Placeholder(task) in w.keyed && w.keyed[Placeholder(task)] == w.tasks[task].key
  {
  }

  lemma PlaceholderCreated(w: World, task: nat)
    requires CreatedOk(w.pool.limit, w.pool.limitPerHost, w.created, w.keyed) && Placeholder(task) in w.keyed
    ensures Placeholder(task) in w.created
  {
  }

  /** A held handler is let go and a waiter is woken. */
  lemma LetGo(w: World, key: Key, h: Handler, order: seq<Key>)
    requires OpenInv(w) && !w.pool.closed && h in w.keyed && w.keyed[h] == key
    ensures var p := ReleaseAcquired(w.pool, key, h, order); var keyed := w.keyed - {h};
      && HeldOk(p.acquired, p.perHost, p.limitPerHost, keyed) && p.limitPerHost == w.pool.limitPerHost
      && p.limit == w.pool.limit
      && IdleOk(p.conns, keyed, w.madeFor) && p.conns == w.pool.conns && p.closed == w.pool.closed
      && CreatedOk(p.limit, p.limitPerHost, w.created - {h}, keyed)
      && WaitersOk(p, w.tasks, w.nextFut)
  {
    hide HeldOk, CreatedOk, WaitersOk, DistinctFuts, LeasesOk, ReleaseWaiter;
    var p := Forget(w.pool, key, h);
    ForgetLets(w.pool, w.keyed, key, h);
    SameWaiters(w.pool, p, w.tasks, w.nextFut);
    ReleaseWaiterKeeps(p, order, w.tasks, w.nextFut);
    ReleaseWaiterOnlyWaiters(p, order);
    LettingGoKeepsCreated(w.pool.limit, w.pool.limitPerHost, w.created, w.keyed, h);
  }

  lemma CreateFailsKeeps(w: World, task: nat, order: seq<Key>)
    requires OpenInv(w) && !w.pool.closed && Enabled(w, CreateFails(task, order))
    ensures OpenInv(Apply(w, CreateFails(task, order)))
  {
    hide HeldOk, IdleOk, CreatedOk, WaitersOk, DistinctFuts, ReleaseAcquired;
    LetGo(w, w.tasks[task].key, Placeholder(task), order);
    var p := ReleaseAcquired(w.pool, w.tasks[task].key, Placeholder(task), order);
    FewerWaiters(p, w.tasks, w.nextFut, task, Creating(0));
  }

  lemma EndLeaseKeeps(w: World, conn: nat, close: bool, now: real, order: seq<Key>)
    requires OpenInv(w) && !w.pool.closed && Enabled(w, EndLease(conn, close, now, order))
    ensures OpenInv(Apply(w, EndLease(conn, close, now, order)))
  {
    hide HeldOk, IdleOk, CreatedOk, WaitersOk, DistinctFuts, ReleaseAcquired;
    var l := w.leases[conn];
    LetGo(w, l.key, Proto(l.proto), order);
    var p := ReleaseAcquired(w.pool, l.key, Proto(l.proto), order);
    var p' := Release(w.pool, l.key, l.proto, close, now, order);
    SameWaiters(p, p', w.tasks, w.nextFut);
    GoesIdle(p, w.keyed, w.madeFor, l.key, l.proto, now, w.pool.conns);
  }

  lemma GoesIdle(p: Pool, keyed: map<Handler, Key>, madeFor: map<nat, Key>, key: Key, proto: nat, now: real,
    conns: map<Key, seq<Idle>>)
    requires IdleOk(p.conns, keyed - {Proto(proto)}, madeFor) && IdleOk(conns, keyed, madeFor) && conns == p.conns
    requires Proto(proto) in keyed && proto in madeFor && madeFor[proto] == key
    ensures IdleOk(p.conns[key := (if key in p.conns then p.conns[key] else []) + [Idle(proto, now)]],
      keyed - {Proto(proto)}, madeFor)
  {
  }

  lemma ApplyKeeps(w: World, step: Step)
    requires Inv(w) && Enabled(w, step)
    ensures Inv(Apply(w, step))
  {
    if w.pool.closed {
      StepKeepsSettings(w, step);
    } else {
      OpenStep(w, step);
    }
  }

  /** The limits never change and a closed connector stays closed. */
  predicate SameSettings(p: Pool, p': Pool) {
    && p'.limit == p.limit && p'.limitPerHost == p.limitPerHost && p'.keepalive == p.keepalive
    && (p.closed ==> p'.closed)
  }

  lemma GetSame(p: Pool, key: Key, now: real, connected: set<nat>)
    ensures SameSettings(p, Get(p, key, now, connected).pool)
  {
    hide FirstReusable;
  }

  lemma ReleaseSame(p: Pool, key: Key, h: Handler, order: seq<Key>)
    ensures SameSettings(p, ReleaseAcquired(p, key, h, order))
  {
    hide ReleaseWaiter;
    ReleaseWaiterOnlyWaiters(Forget(p, key, h), order);
  }

  lemma DequeueSame(p: Pool, key: Key, fut: nat)
    ensures SameSettings(p, Dequeue(p, key, fut))
  {
  }

  lemma ConnectKeepsSettings(w: World, step: Step)
    requires Enabled(w, step) && (step.Connect? || step.Resume?)
    ensures SameSettings(w.pool, Apply(w, step).pool)
  {
    hide Get, ReleaseAcquired, Cleanup, Dequeue, Available, Swap, Close, Release;
    match step {
      case Connect(_, key, now, connected) => GetSame(w.pool, key, now, connected);
      case Resume(task, now, connected) =>
        var p := Dequeue(w.pool, w.tasks[task].key, w.tasks[task].fut);
        DequeueSame(w.pool, w.tasks[task].key, w.tasks[task].fut);
        GetSame(p, w.tasks[task].key, now, connected);
    }
  }

  lemma StepKeepsSettings(w: World, step: Step)
    requires Enabled(w, step)
    ensures SameSettings(w.pool, Apply(w, step).pool)
  {
    hide Get, ReleaseAcquired, Cleanup, Dequeue, Available, Reuse, Begin, Wait;
    match step
    case Connect(_, _, _, _) => ConnectKeepsSettings(w, step);
    case Resume(_, _, _) => ConnectKeepsSettings(w, step);
    case Created(_, _) =>
    case CreateFails(task, order) => ReleaseSame(w.pool, w.tasks[task].key, Placeholder(task), order);
    case EndLease(conn, _, _, order) => ReleaseSame(w.pool, w.leases[conn].key, Proto(w.leases[conn].proto), order);
    case CleanUp(now, connected) => CleanupSame(w.pool, now, connected);
    case CloseAll =>
  }

  lemma CleanupSame(p: Pool, now: real, connected: set<nat>)
    ensures SameSettings(p, Cleanup(p, now, connected))
  {
    hide Survivors;
  }

  lemma OpenStep(w: World, step: Step)
    requires OpenInv(w) && !w.pool.closed && Enabled(w, step)
    ensures Inv(Apply(w, step))
  {
    hide OpenInv, Get, Release, ReleaseAcquired, Reuse, Begin, Wait, Swap;
    match step
    case Connect(task, key, now, connected) => ConnectKeeps(w, task, key, now, connected);
    case Resume(task, now, connected) => ResumeKeeps(w, task, now, connected);
    case Created(task, proto) => CreatedKeeps(w, task, proto);
    case CreateFails(task, order) => CreateFailsKeeps(w, task, order);
    case EndLease(conn, close, now, order) => EndLeaseKeeps(w, conn, close, now, order);
    case CleanUp(now, connected) => CleanUpKeeps(w, now, connected);
    case CloseAll =>
  }

  lemma CleanUpKeeps(w: World, now: real, connected: set<nat>)
    requires OpenInv(w)
    ensures OpenInv(w.(pool := Cleanup(w.pool, now, connected)))
  {
    hide HeldOk, CreatedOk, WaitersOk, DistinctFuts, LeasesOk, IdleOk;
    CleanupIdleOk(w.pool, w.keyed, w.madeFor, now, connected);
    SameWaiters(w.pool, Cleanup(w.pool, now, connected), w.tasks, w.nextFut);
    LeasesIgnorePool(w, Cleanup(w.pool, now, connected));
  }

  function NewWorld(limit: nat, limitPerHost: nat, keepalive: real): World {
    World(NewPool(limit, limitPerHost, keepalive), map[], map[], 0, map[], map[], map[], {})
  }

  ghost predicate Legal(w: World, steps: seq<Step>)
    decreases |steps|
  {
    steps == [] || (Enabled(w, steps[0]) && Legal(Apply(w, steps[0]), steps[1..]))
  }

  function Run(w: World, steps: seq<Step>): World
    requires Legal(w, steps)
    decreases |steps|
  {
    if steps == [] then w else Run(Apply(w, steps[0]), steps[1..])
  }

  lemma {:induction false} RunKeeps(w: World, steps: seq<Step>)
    requires Inv(w) && Legal(w, steps)
    ensures Inv(Run(w, steps))
    decreases |steps|
  {
    hide Inv, Apply, Enabled;
    if steps != [] {
      ApplyKeeps(w, steps[0]);
      RunKeeps(Apply(w, steps[0]), steps[1..]);
    }
  }

  lemma NewWorldInv(limit: nat, limitPerHost: nat, keepalive: real)
    ensures Inv(NewWorld(limit, limitPerHost, keepalive))
  {
    var w := NewWorld(limit, limitPerHost, keepalive);
    forall k ensures CreatedCount(w.created, w.keyed, k) <= limitPerHost {
      assert CreatedFor(w.created, w.keyed, k) == {};
    }
  }

  /** Ownership, while the connector is open, in every run: the held set is exactly the placeholders of tasks that
      make a connection and the protocols of the live connections; no two connections share a protocol; idle
      protocols are held by nobody and no idle queue is empty. */
  lemma HeldIsExactlyOwned(limit: nat, limitPerHost: nat, keepalive: real, steps: seq<Step>)
    requires Legal(NewWorld(limit, limitPerHost, keepalive), steps)
    requires !Run(NewWorld(limit, limitPerHost, keepalive), steps).pool.closed
    ensures var w := Run(NewWorld(limit, limitPerHost, keepalive), steps);
      && (forall t :: Placeholder(t) in w.pool.acquired <==> t in w.tasks && w.tasks[t].Creating?)
      && (forall p :: Proto(p) in w.pool.acquired <==> exists c :: c in w.leases && w.leases[c].proto == p)
      && (forall c, d :: c in w.leases && d in w.leases && w.leases[c].proto == w.leases[d].proto ==> c == d)
      && (forall k :: k in w.pool.conns ==> w.pool.conns[k] != [])
      && (forall k, i :: k in w.pool.conns && 0 <= i < |w.pool.conns[k]|
            ==> Proto(w.pool.conns[k][i].proto) !in w.pool.acquired)
  {
    hide Legal, CreatedOk, WaitersOk, DistinctFuts;
    NewWorldInv(limit, limitPerHost, keepalive);
    RunKeeps(NewWorld(limit, limitPerHost, keepalive), steps);
    var w := Run(NewWorld(limit, limitPerHost, keepalive), steps);
    assert OpenInv(w);
  }

  /** A connection for a key has a protocol that was made for that key, and so has every idle one. */
  lemma ProtocolsStayWithTheirKey(limit: nat, limitPerHost: nat, keepalive: real, steps: seq<Step>)
    requires Legal(NewWorld(limit, limitPerHost, keepalive), steps)
    requires !Run(NewWorld(limit, limitPerHost, keepalive), steps).pool.closed
    ensures var w := Run(NewWorld(limit, limitPerHost, keepalive), steps);
      && (forall c :: c in w.leases
            ==> w.leases[c].proto in w.madeFor && w.madeFor[w.leases[c].proto] == w.leases[c].key)
      && (forall k, i :: k in w.pool.conns && 0 <= i < |w.pool.conns[k]| ==>
            w.pool.conns[k][i].proto in w.madeFor && w.madeFor[w.pool.conns[k][i].proto] == k)
  {
    hide Legal, CreatedOk, WaitersOk, DistinctFuts, HeldOk;
    NewWorldInv(limit, limitPerHost, keepalive);
    RunKeeps(NewWorld(limit, limitPerHost, keepalive), steps);
    assert OpenInv(Run(NewWorld(limit, limitPerHost, keepalive), steps));
  }

  /** The held set is split by the per-host sets. */
  ghost predicate Partition(acquired: set<Handler>, perHost: map<Key, set<Handler>>) {
    && (forall h :: h in acquired ==> exists k :: k in perHost && h in perHost[k])
    && (forall k, h :: k in perHost && h in perHost[k] ==> h in acquired)
    && (forall k, l, h :: k in perHost && l in perHost && h in perHost[k] && h in perHost[l] ==> k == l)
    && (forall k :: k in perHost ==> perHost[k] != {})
  }

  lemma HeldPartition(acquired: set<Handler>, perHost: map<Key, set<Handler>>, limitPerHost: nat,
    keyed: map<Handler, Key>)
    requires HeldOk(acquired, perHost, limitPerHost, keyed) && limitPerHost > 0
    ensures Partition(acquired, perHost)
  {
    forall k, l, h | k in perHost && l in perHost && h in perHost[k] && h in perHost[l] ensures k == l {
      assert keyed[h] == k;
    }
  }

  /** The per-host sets, when a per-host limit is set, partition the held set, with none empty. */
  lemma PerHostSetsPartition(limit: nat, limitPerHost: nat, keepalive: real, steps: seq<Step>)
    requires limitPerHost > 0 && Legal(NewWorld(limit, limitPerHost, keepalive), steps)
    requires !Run(NewWorld(limit, limitPerHost, keepalive), steps).pool.closed
    ensures var p := Run(NewWorld(limit, limitPerHost, keepalive), steps).pool; Partition(p.acquired, p.perHost)
  {
    hide Legal, CreatedOk, WaitersOk, DistinctFuts, LeasesOk, IdleOk, HeldOk, Partition;
    NewWorldInv(limit, limitPerHost, keepalive);
    RunKeeps(NewWorld(limit, limitPerHost, keepalive), steps);
    LimitsStay(NewWorld(limit, limitPerHost, keepalive), steps);
    var w := Run(NewWorld(limit, limitPerHost, keepalive), steps);
    assert OpenInv(w);
    HeldPartition(w.pool.acquired, w.pool.perHost, w.pool.limitPerHost, w.keyed);
  }

  lemma {:induction false} LimitsStay(w: World, steps: seq<Step>)
    requires Legal(w, steps)
    ensures Run(w, steps).pool.limit == w.pool.limit && Run(w, steps).pool.limitPerHost == w.pool.limitPerHost
    ensures Run(w, steps).pool.keepalive == w.pool.keepalive
    decreases |steps|
  {
    hide Apply, Enabled;
    if steps != [] {
      StepKeepsSettings(w, steps[0]);
      LimitsStay(Apply(w, steps[0]), steps[1..]);
    }
  }

  /** Of the handlers held at any moment at most `limit` were obtained by creation, and at most `limitPerHost` for any
      one key; reuse lies outside the bound. */
  lemma CreationIsBounded(limit: nat, limitPerHost: nat, keepalive: real, steps: seq<Step>, k: Key)
    requires Legal(NewWorld(limit, limitPerHost, keepalive), steps)
    requires !Run(NewWorld(limit, limitPerHost, keepalive), steps).pool.closed
    ensures var w := Run(NewWorld(limit, limitPerHost, keepalive), steps);
      && w.created <= w.pool.acquired
      && (limit > 0 ==> |w.created| <= limit)
      && (limitPerHost > 0 ==> CreatedCount(w.created, w.keyed, k) <= limitPerHost)
  {
    hide Legal, WaitersOk, DistinctFuts, LeasesOk, IdleOk, CreatedCount;
    NewWorldInv(limit, limitPerHost, keepalive);
    RunKeeps(NewWorld(limit, limitPerHost, keepalive), steps);
    LimitsStay(NewWorld(limit, limitPerHost, keepalive), steps);
    assert OpenInv(Run(NewWorld(limit, limitPerHost, keepalive), steps));
  }

  /** A new connection starts only where there is room, also after waiting. */
  lemma CreatingNeedsRoom(w: World, step: Step, task: nat)
    requires Enabled(w, step) && !(task in w.tasks && w.tasks[task].Creating?)
    requires task in Apply(w, step).tasks && Apply(w, step).tasks[task].Creating?
    ensures (step.Connect? || step.Resume?) && HasRoom(w.pool, Apply(w, step).tasks[task].key)
  {
    hide Get, ReleaseAcquired, Cleanup, Dequeue, Available, HasRoom, Swap;
    match step
    case Connect(_, key, now, connected) =>
      if Get(w.pool, key, now, connected).proto.None? {
        GetLeavesRoom(w.pool, key, now, connected);
      }
      AvailableIsRoom(w.pool, key);
    case Resume(t, now, connected) =>
      var key := w.tasks[t].key;
      DequeueLeavesRoom(w.pool, key, w.tasks[t].fut);
      AvailableIsRoom(w.pool, key);
    case Created(_, _) =>
    case CreateFails(_, _) =>
    case EndLease(_, _, _, _) =>
    case CleanUp(_, _) =>
    case CloseAll =>
  }

  predicate HasRoom(p: Pool, key: Key) {
    && (p.limit > 0 ==> |p.acquired| < p.limit)
    && (p.limitPerHost > 0 && key in p.perHost ==> |p.perHost[key]| < p.limitPerHost)
  }

  lemma AvailableIsRoom(p: Pool, key: Key)
    ensures Available(p, key) >= 1 ==> HasRoom(p, key)
    ensures HasRoom(p, key) ==> Available(p, key) >= 1
  {
  }

  lemma GetLeavesRoom(p: Pool, key: Key, now: real, connected: set<nat>)
    requires Get(p, key, now, connected).proto.None?
    ensures Available(Get(p, key, now, connected).pool, key) == Available(p, key)
  {
    hide FirstReusable;
  }

  lemma DequeueLeavesRoom(p: Pool, key: Key, fut: nat)
    ensures Available(Dequeue(p, key, fut), key) == Available(p, key)
  {
  }

  /** No waiter is lost: while the connector is open a waiting task is woken or in the queue of its key. */
  lemma WaitersAreQueuedOrWoken(limit: nat, limitPerHost: nat, keepalive: real, steps: seq<Step>, t: nat)
    requires Legal(NewWorld(limit, limitPerHost, keepalive), steps)
    requires !Run(NewWorld(limit, limitPerHost, keepalive), steps).pool.closed
    requires var w := Run(NewWorld(limit, limitPerHost, keepalive), steps); t in w.tasks && w.tasks[t].Waiting?
    ensures var w := Run(NewWorld(limit, limitPerHost, keepalive), steps);
      w.tasks[t].fut in w.pool.woken || Pending(w.pool, w.tasks[t].key, w.tasks[t].fut)
  {
    hide Legal, LeasesOk, IdleOk, CreatedOk, HeldOk;
    NewWorldInv(limit, limitPerHost, keepalive);
    RunKeeps(NewWorld(limit, limitPerHost, keepalive), steps);
    assert OpenInv(Run(NewWorld(limit, limitPerHost, keepalive), steps));
  }
}
