/** What the two limits of the connector bound, over runs. */
module PoolLimits {
  import opened Dicts
  import opened Pool
  import opened PoolRuns
  import opened Wrappers

  lemma FullHasNoRoom(p: Pool, key: Key)
    ensures p.limit > 0 && |p.acquired| == p.limit ==> Available(p, key) <= 0
  {
  }

  /** What a connect adds to the held set. */
  lemma ConnectHolds(w: World, task: nat, key: Key, now: real, connected: set<nat>)
    requires OpenInv(w) && Enabled(w, Connect(task, key, now, connected))
    ensures task !in w.tasks
    ensures var held := Apply(w, Connect(task, key, now, connected)).pool.acquired;
      match Get(w.pool, key, now, connected).proto
      case Some(x) => Proto(x) !in w.keyed && held == w.pool.acquired + {Proto(x)}
      case None => held == if Available(w.pool, key) <= 0 then w.pool.acquired
        else w.pool.acquired + {Placeholder(task)}
  {
    hide CreatedOk, WaitersOk, DistinctFuts, Get, IdleOk, LeasesOk, HeldOk, Available, Swap, Close, Release, Cleanup,
      Dequeue;
    GetTakesIdle(w.pool, w.keyed, w.madeFor, key, now, connected);
    if Get(w.pool, key, now, connected).proto.None? {
      GetLeavesRoom(w.pool, key, now, connected);
    }
  }

  lemma HeldIsKeyed(w: World)
    requires HeldOk(w.pool.acquired, w.pool.perHost, w.pool.limitPerHost, w.keyed)
    ensures w.pool.acquired == w.keyed.Keys
  {
  }

  lemma PlaceholderFree(w: World, task: nat)
    requires LeasesOk(w) && task !in w.tasks
    ensures Placeholder(task) !in w.keyed
  {
  }

  /** A connection is made for an empty per-host table: the protocol is held in place of the placeholder. */
  lemma MakesConnection(w: World, task: nat, proto: nat, key: Key)
    requires key !in w.pool.conns && w.pool.acquired == {} && task !in w.tasks && task !in w.leases
    requires w.pool.limit == 1 && w.pool.limitPerHost == 0 && !w.pool.closed && proto !in w.madeFor
    ensures Enabled(w, Connect(task, key, 0.0, {})) &&
      var w1 := Apply(w, Connect(task, key, 0.0, {}));
      Enabled(w1, Created(task, proto)) &&
      var w2 := Apply(w1, Created(task, proto));
      && w2.pool == w.pool.(acquired := {Proto(proto)}) && w2.tasks == w.tasks
      && w2.leases == w.leases[task := Lease(key, proto)] && w2.madeFor == w.madeFor[proto := key]
  {
    hide Get, Available;
    AvailableIsRoom(w.pool, key);
    StartsCreating(w, task, key, 0.0, {});
  }

  /** The states of the run below. */
  lemma LimitOneStates() returns (w1: World, w2: World, w3: World, w4: World, w5: World, w6: World)
    ensures w1 == Apply(NewWorld(1, 0, 15.0), Connect(0, 7, 0.0, {}))
    ensures Enabled(w1, Created(0, 100)) && w2 == Apply(w1, Created(0, 100))
    ensures Enabled(w2, EndLease(0, false, 0.0, [])) && w3 == Apply(w2, EndLease(0, false, 0.0, []))
    ensures Enabled(w3, Connect(1, 8, 0.0, {})) && w4 == Apply(w3, Connect(1, 8, 0.0, {}))
    ensures Enabled(w4, Created(1, 101)) && w5 == Apply(w4, Created(1, 101))
    ensures Enabled(w5, Connect(2, 7, 0.0, {100})) && w6 == Apply(w5, Connect(2, 7, 0.0, {100}))
    ensures w6.pool.acquired == {Proto(100), Proto(101)}
  {
    hide Apply, Enabled;
    var w0 := NewWorld(1, 0, 15.0);
    MakesConnection(w0, 0, 100, 7);
    w1 := Apply(w0, Connect(0, 7, 0.0, {}));
    w2 := Apply(w1, Created(0, 100));
    LeaseGoesIdle(w2, 0, 7, 100);
    w3 := Apply(w2, EndLease(0, false, 0.0, []));
    MakesConnection(w3, 1, 101, 8);
    w4 := Apply(w3, Connect(1, 8, 0.0, {}));
    w5 := Apply(w4, Created(1, 101));
    IdleIsReused(w5, 2, 7, 100);
    w6 := Apply(w5, Connect(2, 7, 0.0, {100}));
  }

  lemma LeaseGoesIdle(w: World, conn: nat, key: Key, proto: nat)
    requires conn in w.leases && w.leases[conn] == Lease(key, proto) && w.pool.waiters == map[]
    requires !w.pool.closed && w.pool.limitPerHost == 0 && key !in w.pool.conns && w.pool.acquired == {Proto(proto)}
    ensures Enabled(w, EndLease(conn, false, 0.0, [])) &&
      var w' := Apply(w, EndLease(conn, false, 0.0, []));
      && w'.pool == w.pool.(acquired := {}, conns := w.pool.conns[key := [Idle(proto, 0.0)]])
      && w'.tasks == w.tasks && w'.leases == w.leases - {conn} && w'.madeFor == w.madeFor
  {
    hide Release;
    GoesIdleAlone(w.pool, key, proto, 0.0);
  }

  lemma IdleIsReused(w: World, task: nat, key: Key, proto: nat)
    requires task !in w.tasks && task !in w.leases && w.pool.keepalive >= 0.0
    requires key in w.pool.conns && w.pool.conns[key] == [Idle(proto, 0.0)]
    ensures Enabled(w, Connect(task, key, 0.0, {proto}))
    ensures Apply(w, Connect(task, key, 0.0, {proto})).pool.acquired == w.pool.acquired + {Proto(proto)}
  {
    hide Get;
    IsReused(w.pool, key, Idle(proto, 0.0), 0.0);
  }

  lemma StartsCreating(w: World, task: nat, key: Key, now: real, connected: set<nat>)
    requires Enabled(w, Connect(task, key, now, connected)) && key !in w.pool.conns && Available(w.pool, key) >= 1
    ensures Apply(w, Connect(task, key, now, connected)) == Begin(w, task, key, w.pool)
  {
    hide Begin;
  }

  lemma GoesIdleAlone(p: Pool, key: Key, proto: nat, now: real)
    requires !p.closed && p.limitPerHost == 0 && key !in p.conns
    ensures Release(p, key, proto, false, now, [])
         == p.(acquired := p.acquired - {Proto(proto)}, conns := p.conns[key := [Idle(proto, now)]])
  {
    assert [] + [Idle(proto, now)] == [Idle(proto, now)];
  }

  lemma IsReused(p: Pool, key: Key, i: Idle, now: real)
    requires key in p.conns && p.conns[key] == [i] && Reusable(p, i, now, {i.proto})
    ensures Get(p, key, now, {i.proto}).proto == Some(i.proto)
    ensures Get(p, key, now, {i.proto}).pool.acquired == p.acquired + {Proto(i.proto)}
  {
    assert FirstReusable(p, [i], now, {i.proto}) == 0;
  }

  /** An idle protocol of the key can be reused. */
  ghost predicate Reuses(p: Pool, key: Key, now: real, connected: set<nat>) {
    key in p.conns && exists i :: 0 <= i < |p.conns[key]| && Reusable(p, p.conns[key][i], now, connected)
  }

  lemma GetReuses(p: Pool, key: Key, now: real, connected: set<nat>)
    ensures Get(p, key, now, connected).proto.Some? <==> Reuses(p, key, now, connected)
  {
    if key in p.conns {
      var n := FirstReusable(p, p.conns[key], now, connected);
      assert n < |p.conns[key]| ==> Reusable(p, p.conns[key][n], now, connected);
    }
  }

  /** The guard: a connect finds all slots taken and an idle protocol of its key that can be reused. */
  ghost predicate ReuseAtLimit(w: World, step: Step) {
    && step.Connect? && w.pool.limit > 0 && |w.pool.acquired| >= w.pool.limit
    && Reuses(w.pool, step.key, step.now, step.connected)
  }

  predicate WithinLimit(p: Pool) {
    p.limit > 0 ==> |p.acquired| <= p.limit
  }

  /** What holds in every state of a run: while open, the invariant; once closed, an empty idle pool. */
  ghost predicate Sound(w: World) {
    if w.pool.closed then w.pool.conns == map[] else OpenInv(w)
  }

  lemma GetWhenEmpty(p: Pool, key: Key, now: real, connected: set<nat>)
    requires p.conns == map[]
    ensures Get(p, key, now, connected) == Got(p, None)
  {
  }

  lemma ClosedStaysEmpty(w: World, step: Step)
    requires w.pool.closed && w.pool.conns == map[] && Enabled(w, step)
    ensures Apply(w, step).pool.closed && Apply(w, step).pool.conns == map[]
  {
    hide Available, Swap, ReleaseWaiter, Survivors, Get, Without;
    match step {
      case Connect(_, key, now, connected) => GetWhenEmpty(w.pool, key, now, connected);
      case Resume(task, now, connected) =>
        GetWhenEmpty(Dequeue(w.pool, w.tasks[task].key, w.tasks[task].fut), w.tasks[task].key, now, connected);
      case _ =>
    }
  }

  lemma StepSound(w: World, step: Step)
    requires Sound(w) && Enabled(w, step)
    ensures Sound(Apply(w, step)) && SameSettings(w.pool, Apply(w, step).pool)
  {
    hide OpenInv, Apply, Enabled;
    StepKeepsSettings(w, step);
    if w.pool.closed {
      ClosedStaysEmpty(w, step);
    } else {
      OpenStep(w, step);
      ClosingEmpties(w, step);
    }
  }

  lemma GetLeavesOpen(p: Pool, key: Key, now: real, connected: set<nat>)
    ensures Get(p, key, now, connected).pool.closed == p.closed
  {
    hide FirstReusable;
  }

  lemma ClosingEmpties(w: World, step: Step)
    requires !w.pool.closed && Enabled(w, step)
    ensures Apply(w, step).pool.closed ==> Apply(w, step).pool.conns == map[]
  {
    hide Available, Swap, ReleaseWaiter, Survivors, Get, Without;
    match step {
      case Connect(_, key, now, connected) => GetLeavesOpen(w.pool, key, now, connected);
      case Resume(task, now, connected) =>
        GetLeavesOpen(Dequeue(w.pool, w.tasks[task].key, w.tasks[task].fut), w.tasks[task].key, now, connected);
      case Created(task, proto) => SwapLeavesOpen(w.pool, w.tasks[task].key, task, proto);
      case CreateFails(task, order) =>
        ReleaseWaiterOnlyWaiters(Forget(w.pool, w.tasks[task].key, Placeholder(task)), order);
      case EndLease(conn, _, _, order) =>
        ReleaseWaiterOnlyWaiters(Forget(w.pool, w.leases[conn].key, Proto(w.leases[conn].proto)), order);
      case CleanUp(_, _) =>
      case CloseAll =>
    }
  }

  lemma SwapLeavesOpen(p: Pool, key: Key, task: nat, proto: nat)
    ensures Swap(p, key, task, proto).closed == p.closed
  {
  }

  /** Letting go and waking takes from the held sets and leaves the idle pool. */
  lemma ReleaseTakes(p: Pool, key: Key, h: Handler, order: seq<Key>)
    ensures var r := ReleaseAcquired(p, key, h, order);
      && r.acquired == (if p.closed then p.acquired else p.acquired - {h}) && r.conns == p.conns
      && r.perHost == (if p.closed then p.perHost else Forget(p, key, h).perHost)
  {
    hide ReleaseWaiter;
    ReleaseWaiterOnlyWaiters(Forget(p, key, h), order);
  }

  /** After waiting, a task takes a slot only where there is room. */
  lemma ResumeTakes(w: World, task: nat, now: real, connected: set<nat>)
    requires Enabled(w, Resume(task, now, connected))
    ensures var p, p' := w.pool, Apply(w, Resume(task, now, connected)).pool;
      || p'.acquired == p.acquired
      || (Available(p, w.tasks[task].key) >= 1 && exists h :: p'.acquired == p.acquired + {h})
  {
    hide FirstReusable, FirstPending, Available, Without;
    var key := w.tasks[task].key;
    var p := Dequeue(w.pool, key, w.tasks[task].fut);
    DequeueLeavesRoom(w.pool, key, w.tasks[task].fut);
    var g := Get(p, key, now, connected);
    assert g.proto.Some? ==> g.pool.acquired == w.pool.acquired + {Proto(g.proto.value)};
    assert g.proto.None? ==> g.pool.acquired == w.pool.acquired;
    assert Acquire(g.pool, key, Placeholder(task)).acquired == g.pool.acquired + {Placeholder(task)};
  }

  lemma ConnectWithin(w: World, step: Step)
    requires Sound(w) && WithinLimit(w.pool) && Enabled(w, step) && step.Connect?
    ensures WithinLimit(Apply(w, step).pool) <==> !ReuseAtLimit(w, step)
  {
    hide OpenInv, Apply, Enabled, Available, Get, Reuses;
    StepSound(w, step);
    GetReuses(w.pool, step.key, step.now, step.connected);
    FullHasNoRoom(w.pool, step.key);
    if w.pool.closed {
      NothingIdleConnect(w, step);
    } else {
      ConnectHolds(w, step.task, step.key, step.now, step.connected);
      OpenHeld(w, step.task);
    }
  }

  lemma OpenHeld(w: World, task: nat)
    requires OpenInv(w)
    ensures w.pool.acquired == w.keyed.Keys && (task !in w.tasks ==> Placeholder(task) !in w.keyed)
  {
    HeldIsKeyed(w);
    if task !in w.tasks {
      PlaceholderFree(w, task);
    }
  }

  lemma NothingIdleConnect(w: World, step: Step)
    requires w.pool.conns == map[] && Enabled(w, step) && step.Connect?
    ensures Get(w.pool, step.key, step.now, step.connected).proto.None?
    ensures var p' := Apply(w, step).pool;
      p'.acquired == if Available(w.pool, step.key) <= 0 then w.pool.acquired
        else w.pool.acquired + {Placeholder(step.task)}
  {
    hide Available;
  }

  lemma CreatedSwaps(w: World, step: Step)
    requires OpenInv(w) && Enabled(w, step) && step.Created?
    ensures |Apply(w, step).pool.acquired| <= |w.pool.acquired|
  {
    hide IdleOk, CreatedOk, WaitersOk, DistinctFuts;
    assert Placeholder(step.task) in w.pool.acquired;
  }

  /** One step from a state within the limit leaves it exactly where the guard is met. */
  lemma StepWithin(w: World, step: Step)
    requires Sound(w) && WithinLimit(w.pool) && Enabled(w, step)
    ensures WithinLimit(Apply(w, step).pool) <==> !ReuseAtLimit(w, step)
  {
    hide OpenInv, Available, Get, Survivors, ReleaseAcquired, Swap, Begin, Wait, Reuse, Reuses, Dequeue;
    StepSound(w, step);
    match step {
      case Connect(_, _, _, _) => ConnectWithin(w, step);
      case Resume(task, now, connected) =>
        ResumeTakes(w, task, now, connected);
        FullHasNoRoom(w.pool, w.tasks[task].key);
      case Created(_, _) =>
        if !w.pool.closed {
          CreatedSwaps(w, step);
        }
      case CreateFails(task, order) => ReleaseTakes(w.pool, w.tasks[task].key, Placeholder(task), order);
      case EndLease(conn, _, _, order) =>
        ReleaseTakes(w.pool, w.leases[conn].key, Proto(w.leases[conn].proto), order);
      case CleanUp(_, _) =>
      case CloseAll =>
    }
  }

  ghost predicate AlwaysWithin(w: World, steps: seq<Step>)
    requires Legal(w, steps)
    decreases |steps|
  {
    WithinLimit(w.pool) && (steps == [] || AlwaysWithin(Apply(w, steps[0]), steps[1..]))
  }

  ghost predicate NeverReusesAtLimit(w: World, steps: seq<Step>)
    requires Legal(w, steps)
    decreases |steps|
  {
    steps == [] || (!ReuseAtLimit(w, steps[0]) && NeverReusesAtLimit(Apply(w, steps[0]), steps[1..]))
  }

  lemma {:induction false} RunWithin(w: World, steps: seq<Step>)
    requires Sound(w) && WithinLimit(w.pool) && Legal(w, steps)
    ensures AlwaysWithin(w, steps) <==> NeverReusesAtLimit(w, steps)
    decreases |steps|
  {
    hide Sound, Apply, Enabled, ReuseAtLimit, WithinLimit;
    if steps != [] {
      StepSound(w, steps[0]);
      StepWithin(w, steps[0]);
      if WithinLimit(Apply(w, steps[0]).pool) {
        RunWithin(Apply(w, steps[0]), steps[1..]);
      } else {
        assert !AlwaysWithin(Apply(w, steps[0]), steps[1..]);
      }
    }
  }

  /** The documented total limit is not kept by reuse: a run stays within it throughout if and only if no connect of the
      run finds all slots taken and an idle protocol of its key to reuse. */
  lemma WithinLimitIffNoReuseWhenFull(limit: nat, limitPerHost: nat, keepalive: real, steps: seq<Step>)
    requires Legal(NewWorld(limit, limitPerHost, keepalive), steps)
    ensures AlwaysWithin(NewWorld(limit, limitPerHost, keepalive), steps)
       <==> NeverReusesAtLimit(NewWorld(limit, limitPerHost, keepalive), steps)
  {
    hide OpenInv;
    NewWorldInv(limit, limitPerHost, keepalive);
    RunWithin(NewWorld(limit, limitPerHost, keepalive), steps);
  }

  /** A limit of 1 does not keep two from being held: a protocol goes idle, a second key takes the slot, and the first
      is reused. */
  lemma LimitOneHoldsTwo()
    ensures var steps := [Connect(0, 7, 0.0, {}), Created(0, 100), EndLease(0, false, 0.0, []), Connect(1, 8, 0.0, {}),
                          Created(1, 101), Connect(2, 7, 0.0, {100})];
      Legal(NewWorld(1, 0, 15.0), steps) && |Run(NewWorld(1, 0, 15.0), steps).pool.acquired| == 2
  {
    hide Apply, Legal, Run, Enabled;
    var s1, s2, s3, s4, s5, s6 := Connect(0, 7, 0.0, {}), Created(0, 100), EndLease(0, false, 0.0, []),
      Connect(1, 8, 0.0, {}), Created(1, 101), Connect(2, 7, 0.0, {100});
    var w1, w2, w3, w4, w5, w6 := LimitOneStates();
    FirstIsEnabled();
    NoSteps(w6);
    StepThen(w5, s6, []);
    StepThen(w4, s5, [s6] + []);
    StepThen(w3, s4, [s5] + ([s6] + []));
    StepThen(w2, s3, [s4] + ([s5] + ([s6] + [])));
    StepThen(w1, s2, [s3] + ([s4] + ([s5] + ([s6] + []))));
    StepThen(NewWorld(1, 0, 15.0), s1, [s2] + ([s3] + ([s4] + ([s5] + ([s6] + [])))));
    assert [s1] + ([s2] + ([s3] + ([s4] + ([s5] + ([s6] + []))))) == [s1, s2, s3, s4, s5, s6];
  }

  lemma FirstIsEnabled()
    ensures Enabled(NewWorld(1, 0, 15.0), Connect(0, 7, 0.0, {}))
  {
  }

  lemma NoSteps(w: World)
    ensures Legal(w, []) && Run(w, []) == w
  {
  }

  lemma StepThen(w: World, step: Step, rest: seq<Step>)
    requires Enabled(w, step) && Legal(Apply(w, step), rest)
    ensures Legal(w, [step] + rest) && Run(w, [step] + rest) == Run(Apply(w, step), rest)
  {
    assert ([step] + rest)[1..] == rest;
  }

  /** The protocols of a key: those held, or held for, and those idle. */
  function OfHost(p: Pool, k: Key): nat {
    (if k in p.perHost then |p.perHost[k]| else 0) + (if k in p.conns then |p.conns[k]| else 0)
  }

  /** Acquiring adds at most one handler to its key. */
  lemma AcquireOfHost(p: Pool, key: Key, h: Handler, k: Key)
    ensures OfHost(Acquire(p, key, h), k) <= OfHost(p, k) + (if k == key then 1 else 0)
  {
  }

  /** Reuse moves a protocol from idle to held; without one the key has nothing idle left. */
  lemma GetOfHost(p: Pool, key: Key, now: real, connected: set<nat>, k: Key)
    ensures var g := Get(p, key, now, connected);
      && OfHost(g.pool, k) <= OfHost(p, k)
      && (g.proto.None? ==> key !in g.pool.conns && g.pool.perHost == p.perHost)
  {
    hide FirstReusable;
    if key in p.conns {
      var q := p.conns[key];
      var n := FirstReusable(p, q, now, connected);
      if n < |q| {
        var rest := if n + 1 == |q| then p.conns - {key} else p.conns[key := q[n + 1..]];
        AcquireOfHost(p.(conns := rest), key, Proto(q[n].proto), k);
      }
    }
  }

  /** A connection begins only when nothing of its key is idle and the per-host limit leaves room. */
  lemma BeginOfHost(p: Pool, key: Key, h: Handler, k: Key)
    requires key !in p.conns && Available(p, key) >= 1 && p.limitPerHost > 0 && OfHost(p, k) <= p.limitPerHost
    ensures OfHost(Acquire(p, key, h), k) <= p.limitPerHost
  {
  }

  lemma ConnectOfHost(w: World, step: Step, k: Key)
    requires Enabled(w, step) && step.Connect? && w.pool.limitPerHost > 0 && OfHost(w.pool, k) <= w.pool.limitPerHost
    ensures OfHost(Apply(w, step).pool, k) <= w.pool.limitPerHost
  {
    hide Get, Available, Acquire;
    GetSame(w.pool, step.key, step.now, step.connected);
    GetOfHost(w.pool, step.key, step.now, step.connected, k);
    var g := Get(w.pool, step.key, step.now, step.connected);
    if g.proto.None? && Available(g.pool, step.key) > 0 {
      BeginOfHost(g.pool, step.key, Placeholder(step.task), k);
    }
  }

  lemma DequeueOfHost(p: Pool, key: Key, fut: nat)
    ensures var p' := Dequeue(p, key, fut);
      p'.conns == p.conns && p'.perHost == p.perHost && p'.limit == p.limit && p'.limitPerHost == p.limitPerHost
  {
  }

  lemma ResumeOfHost(w: World, step: Step, k: Key)
    requires Enabled(w, step) && step.Resume? && w.pool.limitPerHost > 0 && OfHost(w.pool, k) <= w.pool.limitPerHost
    ensures OfHost(Apply(w, step).pool, k) <= w.pool.limitPerHost
  {
    hide Get, Available, Acquire, Dequeue;
    var key := w.tasks[step.task].key;
    var p := Dequeue(w.pool, key, w.tasks[step.task].fut);
    DequeueOfHost(w.pool, key, w.tasks[step.task].fut);
    GetSame(p, key, step.now, step.connected);
    GetOfHost(p, key, step.now, step.connected, k);
    var g := Get(p, key, step.now, step.connected);
    if g.proto.None? && Available(p, key) > 0 {
      GetLeavesRoom(p, key, step.now, step.connected);
      BeginOfHost(g.pool, key, Placeholder(step.task), k);
    }
  }

  /** A placeholder gives way to its protocol under the same key. */
  lemma CreatedOfHost(w: World, step: Step, k: Key)
    requires OpenInv(w) && Enabled(w, step) && step.Created? && w.pool.limitPerHost > 0
    ensures OfHost(Apply(w, step).pool, k) <= OfHost(w.pool, k)
  {
    hide IdleOk, CreatedOk, WaitersOk, DistinctFuts;
    PlaceholderHeld(w, step.task);
  }

  /** A released protocol leaves the held set of its key before it goes idle under it. */
  lemma EndOfHost(w: World, step: Step, k: Key)
    requires OpenInv(w) && !w.pool.closed && Enabled(w, step) && step.EndLease? && w.pool.limitPerHost > 0
    ensures OfHost(Apply(w, step).pool, k) <= OfHost(w.pool, k)
  {
    hide IdleOk, CreatedOk, WaitersOk, DistinctFuts, ReleaseAcquired;
    var l := w.leases[step.conn];
    ReleaseTakes(w.pool, l.key, Proto(l.proto), step.order);
    assert Proto(l.proto) in w.keyed && w.keyed[Proto(l.proto)] == l.key;
    assert l.key in w.pool.perHost && Proto(l.proto) in w.pool.perHost[l.key];
    ForgetOfHost(w.pool, l.key, Proto(l.proto));
  }

  lemma ForgetOfHost(p: Pool, key: Key, h: Handler)
    requires p.limitPerHost > 0 && key in p.perHost && h in p.perHost[key]
    ensures var p' := Forget(p, key, h);
      && (if key in p'.perHost then |p'.perHost[key]| else 0) == |p.perHost[key]| - 1
      && forall k :: k != key
           ==> ((k in p'.perHost <==> k in p.perHost) && (k in p.perHost ==> p'.perHost[k] == p.perHost[k]))
  {
    if p.perHost[key] - {h} == {} {
      assert p.perHost[key] == {h};
    }
  }

  lemma {:induction false} SurvivorsNoMore(p: Pool, q: seq<Idle>, now: real, connected: set<nat>)
    ensures |Survivors(p, q, now, connected)| <= |q|
  {
    if q != [] {
      SurvivorsNoMore(p, q[1..], now, connected);
    }
  }

  lemma ForgetNoMore(p: Pool, key: Key, h: Handler, k: Key)
    ensures OfHost(Forget(p, key, h), k) <= OfHost(p, k)
  {
    if key in p.perHost {
      assert p.perHost[key] == (p.perHost[key] - {h}) + (p.perHost[key] * {h});
    }
  }

  lemma StepOfHost(w: World, step: Step, k: Key)
    requires Sound(w) && Enabled(w, step) && w.pool.limitPerHost > 0 && OfHost(w.pool, k) <= w.pool.limitPerHost
    ensures OfHost(Apply(w, step).pool, k) <= w.pool.limitPerHost
  {
    hide OpenInv, Available, Get, Survivors, ReleaseAcquired, Swap, Begin, Wait, Reuse, Dequeue;
    match step {
      case Connect(_, _, _, _) => ConnectOfHost(w, step, k);
      case Resume(_, _, _) => ResumeOfHost(w, step, k);
      case Created(_, _) =>
        if !w.pool.closed {
          CreatedOfHost(w, step, k);
        }
      case CreateFails(task, order) =>
        ReleaseTakes(w.pool, w.tasks[task].key, Placeholder(task), order);
        ForgetNoMore(w.pool, w.tasks[task].key, Placeholder(task), k);
      case EndLease(_, _, _, _) =>
        if !w.pool.closed {
          EndOfHost(w, step, k);
        }
      case CleanUp(now, connected) =>
        if k in w.pool.conns {
          SurvivorsNoMore(w.pool, w.pool.conns[k], now, connected);
        }
      case CloseAll =>
    }
  }

  lemma {:induction false} RunOfHost(w: World, steps: seq<Step>, k: Key)
    requires Sound(w) && Legal(w, steps) && w.pool.limitPerHost > 0 && OfHost(w.pool, k) <= w.pool.limitPerHost
    ensures OfHost(Run(w, steps).pool, k) <= w.pool.limitPerHost
    decreases |steps|
  {
    hide Sound, Apply, Enabled, OfHost;
    if steps != [] {
      StepSound(w, steps[0]);
      StepOfHost(w, steps[0], k);
      RunOfHost(Apply(w, steps[0]), steps[1..], k);
    }
  }

  /** The per-host limit is kept, reuse included: in every run the protocols held for a key and those idle under it are
      together never more than `limitPerHost`, because a connection begins only when nothing of its key is idle. */
  lemma PerHostLimitHolds(limit: nat, limitPerHost: nat, keepalive: real, steps: seq<Step>, k: Key)
    requires limitPerHost > 0 && Legal(NewWorld(limit, limitPerHost, keepalive), steps)
    ensures OfHost(Run(NewWorld(limit, limitPerHost, keepalive), steps).pool, k) <= limitPerHost
  {
    hide OpenInv;
    NewWorldInv(limit, limitPerHost, keepalive);
    RunOfHost(NewWorld(limit, limitPerHost, keepalive), steps, k);
  }
}
