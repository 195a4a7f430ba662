/** Lost wake-ups of the pool: freeing a slot wakes one waiter, of any key with room. */
module PoolWakeups {
  import opened Dicts
  import opened Pool
  import opened PoolLimits
  import opened PoolRuns

  /** The tasks that were woken and did not go on yet. */
  function WokenTasks(w: World): set<nat> {
    set t | t in w.tasks && w.tasks[t].Waiting? && w.tasks[t].fut in w.pool.woken
  }

  /** A waiter whose key has room has a wake-up under way. */
  ghost predicate NoLostWakeup(w: World) {
    !w.pool.closed && Wakeable(w.pool) ==> WokenTasks(w) != {}
  }

  /** The per-host limit never binds before the total one. */
  predicate SharedLimit(limit: nat, limitPerHost: nat) {
    limitPerHost == 0 || 0 < limit <= limitPerHost
  }

  ghost predicate AnyPending(p: Pool) {
    exists k, f :: Pending(p, k, f)
  }

  /** Every pending waiter is a waiting task, and futures are numbered below the next. */
  ghost predicate PendingOk(p: Pool, tasks: map<nat, Task>, nextFut: nat) {
    && (forall k, f :: Pending(p, k, f) ==> exists t :: t in tasks && tasks[t] == Waiting(k, f))
    && (forall f :: f in p.woken ==> f < nextFut)
  }

  /** While anybody waits, at least as many wake-ups are under way as there are slots. */
  ghost predicate EnoughWoken(w: World) {
    AnyPending(w.pool) ==> w.pool.limit > 0 && |WokenTasks(w)| >= w.pool.limit - |w.pool.acquired|
  }

  ghost predicate WakeInv(w: World) {
    !w.pool.closed ==>
      && OpenInv(w) && SharedLimit(w.pool.limit, w.pool.limitPerHost)
      && PendingOk(w.pool, w.tasks, w.nextFut) && EnoughWoken(w)
  }

  lemma HostIsHeld(p: Pool, keyed: map<Handler, Key>, key: Key)
    requires HeldOk(p.acquired, p.perHost, p.limitPerHost, keyed)
    ensures key in p.perHost ==> p.limitPerHost > 0 && |p.perHost[key]| <= |p.acquired|
  {
    if key in p.perHost {
      assert p.perHost[key] <= p.acquired;
      SubsetSize(p.perHost[key], p.acquired);
    }
  }

  /** Then every key has the room that is left in total. */
  lemma RoomIsShared(p: Pool, keyed: map<Handler, Key>, key: Key)
    requires HeldOk(p.acquired, p.perHost, p.limitPerHost, keyed) && SharedLimit(p.limit, p.limitPerHost)
    ensures p.limit > 0 ==> Available(p, key) == p.limit - |p.acquired|
    ensures p.limit == 0 ==> Available(p, key) == 1
  {
    hide HeldOk;
    HostIsHeld(p, keyed, key);
  }

  lemma EnoughIsNone(w: World)
    requires WakeInv(w)
    ensures NoLostWakeup(w)
  {
    hide CreatedOk, WaitersOk, DistinctFuts, IdleOk, LeasesOk, HeldOk;
    if !w.pool.closed && Wakeable(w.pool) {
      var k, f :| Pending(w.pool, k, f) && Available(w.pool, k) >= 1;
      RoomIsShared(w.pool, w.keyed, k);
    }
  }

  /** A slot is taken, by somebody who was not among the woken or was. */
  lemma SlotTaken(w: World, w': World)
    requires EnoughWoken(w) && w'.pool.limit == w.pool.limit
    requires AnyPending(w'.pool) ==> AnyPending(w.pool)
    requires |w'.pool.acquired| >= |w.pool.acquired| + 1 && |WokenTasks(w')| >= |WokenTasks(w)| - 1
    ensures EnoughWoken(w')
  {
  }

  lemma NobodyLeaves(w: World, w': World)
    requires EnoughWoken(w) && w'.pool.limit == w.pool.limit
    requires AnyPending(w'.pool) ==> AnyPending(w.pool)
    requires |w'.pool.acquired| >= |w.pool.acquired| && WokenTasks(w') == WokenTasks(w)
    ensures EnoughWoken(w')
  {
  }

  /** Waiting is for those who find no room. */
  lemma NoRoomEnough(w: World)
    requires w.pool.limit > 0 && w.pool.limit <= |w.pool.acquired|
    ensures EnoughWoken(w)
  {
  }

  lemma EnqueuePending(p: Pool, tasks: map<nat, Task>, task: nat, key: Key, fut: nat, front: bool)
    requires PendingOk(p, tasks, fut)
    requires task in tasks ==> !tasks[task].Waiting? || tasks[task].fut in p.woken
    ensures PendingOk(Enqueue(p, key, fut, front), tasks[task := Waiting(key, fut)], fut + 1)
  {
    var p', tasks' := Enqueue(p, key, fut, front), tasks[task := Waiting(key, fut)];
    forall k, f | Pending(p', k, f) ensures exists t :: t in tasks' && tasks'[t] == Waiting(k, f) {
      if k == key && f == fut {
        assert tasks'[task] == Waiting(k, f);
      } else {
        assert Pending(p, k, f);
        var t :| t in tasks && tasks[t] == Waiting(k, f);
        assert t != task && tasks'[t] == Waiting(k, f);
      }
    }
  }

  lemma {:induction false} WithoutIsLess(s: seq<nat>, x: nat)
    ensures forall y :: y in Without(s, x) ==> y in s
    ensures forall y :: y in s && y != x ==> y in Without(s, x)
  {
    if s != [] {
      assert s == [s[0]] + s[1..];
      if s[0] != x {
        WithoutIsLess(s[1..], x);
      }
    }
  }

  lemma DequeuePending(p: Pool, key: Key, fut: nat)
    requires fut in p.woken
    ensures var p' := Dequeue(p, key, fut);
      p'.woken == p.woken && forall k, f :: Pending(p', k, f) <==> Pending(p, k, f)
  {
    if key in p.waiters {
      WithoutIsLess(p.waiters[key], fut);
    }
  }

  lemma FewerTasksPending(p: Pool, p': Pool, tasks: map<nat, Task>, tasks': map<nat, Task>, nextFut: nat)
    requires PendingOk(p, tasks, nextFut) && p'.woken == p.woken
    requires forall k, f :: Pending(p', k, f) ==> Pending(p, k, f)
    requires forall t :: t in tasks && tasks[t].Waiting? && tasks[t].fut !in p.woken
               ==> t in tasks' && tasks'[t] == tasks[t]
    ensures PendingOk(p', tasks', nextFut)
  {
    forall k, f | Pending(p', k, f) ensures exists t :: t in tasks' && tasks'[t] == Waiting(k, f) {
      var t :| t in tasks && tasks[t] == Waiting(k, f);
      assert tasks'[t] == Waiting(k, f);
    }
  }

  lemma GetPending(p: Pool, key: Key, now: real, connected: set<nat>)
    ensures var p' := Get(p, key, now, connected).pool;
      p'.woken == p.woken && p'.waiters == p.waiters && p'.closed == p.closed
  {
    hide FirstReusable;
  }

  /** What a connect does to the waiters and to the held set. */
  lemma ConnectTakes(w: World, step: Step)
    requires OpenInv(w) && !w.pool.closed && Enabled(w, step) && step.Connect?
    ensures var w' := Apply(w, step); var g := Get(w.pool, step.key, step.now, step.connected);
      && g.pool.woken == w.pool.woken && g.pool.waiters == w.pool.waiters && g.pool.acquired >= w.pool.acquired
      && if g.proto.None? && Available(w.pool, step.key) <= 0 then
           w' == Wait(w, step.task, step.key, g.pool, false) && g.pool.acquired == w.pool.acquired
         else
           && |w'.pool.acquired| == |w.pool.acquired| + 1
           && w'.pool.waiters == w.pool.waiters && w'.pool.woken == w.pool.woken && w'.nextFut == w.nextFut
           && (w'.tasks == w.tasks - {step.task} || w'.tasks == w.tasks[step.task := Creating(step.key)])
  {
    hide HeldOk, CreatedOk, WaitersOk, DistinctFuts, IdleOk, LeasesOk, Get, Available;
    GetTakesIdle(w.pool, w.keyed, w.madeFor, step.key, step.now, step.connected);
    GetPending(w.pool, step.key, step.now, step.connected);
    OpenHeld(w, step.task);
    if Get(w.pool, step.key, step.now, step.connected).proto.None? {
      GetLeavesRoom(w.pool, step.key, step.now, step.connected);
    }
  }

  lemma ConnectWakes(w: World, step: Step)
    requires WakeInv(w) && !w.pool.closed && Enabled(w, step) && step.Connect?
    ensures var w' := Apply(w, step); PendingOk(w'.pool, w'.tasks, w'.nextFut) && EnoughWoken(w')
  {
    hide HeldOk, CreatedOk, WaitersOk, DistinctFuts, IdleOk, LeasesOk, Get, Available, PendingOk, EnoughWoken,
      AnyPending, Apply;
    var p, w' := w.pool, Apply(w, step);
    var g := Get(p, step.key, step.now, step.connected);
    ConnectTakes(w, step);
    StepKeepsSettings(w, step);
    if g.proto.None? && Available(p, step.key) <= 0 {
      SamePendingOk(p, g.pool, w.tasks, w.nextFut);
      EnqueuePending(g.pool, w.tasks, step.task, step.key, w.nextFut, false);
      RoomIsShared(p, w.keyed, step.key);
      NoRoomEnough(w');
    } else {
      SamePending(p, w'.pool);
      FewerTasksPending(p, w'.pool, w.tasks, w'.tasks, w.nextFut);
      assert WokenTasks(w') == WokenTasks(w);
      SlotTaken(w, w');
    }
  }

  lemma SamePending(p: Pool, p': Pool)
    requires p'.woken == p.woken && p'.waiters == p.waiters
    ensures forall k, f :: Pending(p', k, f) <==> Pending(p, k, f)
    ensures AnyPending(p') <==> AnyPending(p)
  {
  }

  lemma SamePendingOk(p: Pool, p': Pool, tasks: map<nat, Task>, nextFut: nat)
    requires PendingOk(p, tasks, nextFut) && p'.woken == p.woken && p'.waiters == p.waiters
    ensures PendingOk(p', tasks, nextFut)
  {
    SamePending(p, p');
  }

  /** What a woken task adds to the held set. */
  lemma ResumeHolds(w: World, step: Step)
    requires OpenInv(w) && !w.pool.closed && Enabled(w, step) && step.Resume?
    ensures var key := w.tasks[step.task].key; var p := Dequeue(w.pool, key, w.tasks[step.task].fut);
      var w' := Apply(w, step);
      if Available(w.pool, key) <= 0 then w' == Wait(w, step.task, key, p, true)
      else
        && |w'.pool.acquired| == |w.pool.acquired| + 1
        && w'.pool.waiters == p.waiters && w'.pool.woken == p.woken && w'.nextFut == w.nextFut
        && (w'.tasks == w.tasks - {step.task} || w'.tasks == w.tasks[step.task := Creating(key)])
  {
    hide HeldOk, CreatedOk, WaitersOk, DistinctFuts, IdleOk, LeasesOk, Get, Available, Without;
    var key, fut := w.tasks[step.task].key, w.tasks[step.task].fut;
    var p := Dequeue(w.pool, key, fut);
    DequeueLeavesRoom(w.pool, key, fut);
    DequeueOfHost(w.pool, key, fut);
    if Available(p, key) > 0 {
      GetTakesIdle(p, w.keyed, w.madeFor, key, step.now, step.connected);
      GetPending(p, key, step.now, step.connected);
      HeldIsKeyed(w);
      WaitingHoldsNothing(w, step.task);
    }
  }

  lemma WaitingHoldsNothing(w: World, task: nat)
    requires LeasesOk(w) && task in w.tasks && w.tasks[task].Waiting?
    ensures Placeholder(task) !in w.keyed
  {
  }

  lemma ResumeWakes(w: World, step: Step)
    requires WakeInv(w) && !w.pool.closed && Enabled(w, step) && step.Resume?
    ensures var w' := Apply(w, step); PendingOk(w'.pool, w'.tasks, w'.nextFut) && EnoughWoken(w')
  {
    hide HeldOk, CreatedOk, WaitersOk, DistinctFuts, IdleOk, LeasesOk, Get, Available, PendingOk, EnoughWoken,
      AnyPending, Dequeue, Apply;
    var key, fut := w.tasks[step.task].key, w.tasks[step.task].fut;
    var p, w' := Dequeue(w.pool, key, fut), Apply(w, step);
    ResumeHolds(w, step);
    DequeuePending(w.pool, key, fut);
    DequeueOfHost(w.pool, key, fut);
    StepKeepsSettings(w, step);
    SamePendingAny(w.pool, p);
    if Available(w.pool, key) <= 0 {
      FewerTasksPending(w.pool, p, w.tasks, w.tasks, w.nextFut);
      EnqueuePending(p, w.tasks, step.task, key, w.nextFut, true);
      RoomIsShared(w.pool, w.keyed, key);
      DequeueHeld(w.pool, key, fut);
      NoRoomEnough(w');
    } else {
      SamePending(p, w'.pool);
      FewerTasksPending(w.pool, w'.pool, w.tasks, w'.tasks, w.nextFut);
      assert WokenTasks(w') == WokenTasks(w) - {step.task};
      SlotTaken(w, w');
    }
  }

  lemma SamePendingAny(p: Pool, p': Pool)
    requires forall k, f :: Pending(p', k, f) <==> Pending(p, k, f)
    ensures AnyPending(p') <==> AnyPending(p)
  {
  }

  lemma DequeueHeld(p: Pool, key: Key, fut: nat)
    ensures Dequeue(p, key, fut).acquired == p.acquired
  {
  }

  /** A slot is freed: one more wake-up, unless nobody can be woken. */
  lemma FreedWakes(w: World, key: Key, h: Handler, order: seq<Key>, w': World)
    requires WakeInv(w) && !w.pool.closed && h in w.keyed && w.keyed[h] == key && Lists(order, w.pool.waiters)
    requires var r := ReleaseAcquired(w.pool, key, h, order);
      && w'.pool.waiters == r.waiters && w'.pool.woken == r.woken && w'.pool.acquired == r.acquired
      && w'.pool.limit == w.pool.limit && w'.nextFut == w.nextFut
    requires forall t :: t in w.tasks && w.tasks[t].Waiting? ==> t in w'.tasks && w'.tasks[t] == w.tasks[t]
    requires forall t :: t in w'.tasks && w'.tasks[t].Waiting? ==> t in w.tasks && w.tasks[t] == w'.tasks[t]
    ensures PendingOk(w'.pool, w'.tasks, w'.nextFut) && EnoughWoken(w')
  {
    hide HeldOk, CreatedOk, WaitersOk, DistinctFuts, IdleOk, LeasesOk, ReleaseWaiter, Available, Wakeable, PendingOk,
      EnoughWoken;
    var p := Forget(w.pool, key, h);
    var r := ReleaseWaiter(p, order);
    ForgetLets(w.pool, w.keyed, key, h);
    HeldIsKeyed(w);
    ReleaseWaiterOnlyWaiters(p, order);
    ReleaseWaiterWakesOne(p, order);
    SamePending(w.pool, p);
    SamePendingOk(w.pool, p, w.tasks, w.nextFut);
    SameWaiters(w.pool, p, w.tasks, w.nextFut);
    assert |p.acquired| == |w.pool.acquired| - 1;
    if Wakeable(p) {
      var k, f :| WokeOne(p, r, k, f);
      PendingBelow(p, w.tasks, w.nextFut, k, f);
      OneMoreWoken(w, w', p, r, k, f);
    } else {
      SamePending(r, w'.pool);
      assert WokenTasks(w') == WokenTasks(w);
      FewerTasksPending(p, w'.pool, w.tasks, w'.tasks, w.nextFut);
      NotWakeable(p, w.keyed - {h}, w', |WokenTasks(w)|);
    }
  }

  lemma PendingBelow(p: Pool, tasks: map<nat, Task>, nextFut: nat, k: Key, f: nat)
    requires PendingOk(p, tasks, nextFut) && WaitersOk(p, tasks, nextFut) && Pending(p, k, f)
    ensures exists t :: t in tasks && tasks[t].Waiting? && tasks[t].fut == f && f < nextFut
  {
    var t :| t in tasks && tasks[t] == Waiting(k, f);
    assert tasks[t].fut < nextFut;
  }

  lemma NotWakeable(p: Pool, keyed: map<Handler, Key>, w': World, n: nat)
    requires !Wakeable(p) && HeldOk(p.acquired, p.perHost, p.limitPerHost, keyed)
      && SharedLimit(p.limit, p.limitPerHost)
    requires w'.pool.acquired == p.acquired && w'.pool.limit == p.limit
    requires forall k, f :: Pending(w'.pool, k, f) ==> Pending(p, k, f)
    ensures EnoughWoken(w')
  {
    hide HeldOk, Available;
    if AnyPending(w'.pool) {
      var k, f :| Pending(w'.pool, k, f);
      RoomIsShared(p, keyed, k);
    }
  }

  lemma OneMoreWoken(w: World, w': World, p: Pool, r: Pool, k: Key, f: nat)
    requires WokeOne(p, r, k, f) && p.woken == w.pool.woken && p.waiters == w.pool.waiters
    requires PendingOk(p, w.tasks, w.nextFut) && EnoughWoken(w)
    requires w'.pool.woken == r.woken && w'.pool.waiters == r.waiters && w'.nextFut == w.nextFut
    requires w'.pool.limit == w.pool.limit && |w'.pool.acquired| >= |w.pool.acquired| - 1
    requires forall t :: t in w.tasks && w.tasks[t].Waiting? ==> t in w'.tasks && w'.tasks[t] == w.tasks[t]
    requires forall t :: t in w'.tasks && w'.tasks[t].Waiting? ==> t in w.tasks && w.tasks[t] == w'.tasks[t]
    requires exists t :: t in w.tasks && w.tasks[t].Waiting? && w.tasks[t].fut == f && f < w.nextFut
    ensures PendingOk(w'.pool, w'.tasks, w'.nextFut) && EnoughWoken(w')
  {
    hide Available, FirstPending;
    var t :| t in w.tasks && w.tasks[t].Waiting? && w.tasks[t].fut == f;
    assert Pending(w.pool, k, f);
    assert AnyPending(w.pool);
    assert t !in WokenTasks(w) && WokenTasks(w) + {t} <= WokenTasks(w');
    SubsetSize(WokenTasks(w) + {t}, WokenTasks(w'));
    forall k', f' | Pending(w'.pool, k', f') ensures exists u :: u in w'.tasks && w'.tasks[u] == Waiting(k', f') {
      assert Pending(r, k', f') && f' != f;
      assert Pending(p, k', f');
      var u :| u in w.tasks && w.tasks[u] == Waiting(k', f');
      assert w'.tasks[u] == Waiting(k', f');
    }
  }

  lemma SwapIsSame(w: World, task: nat, proto: nat)
    requires OpenInv(w) && Enabled(w, Created(task, proto))
    ensures var p' := Swap(w.pool, w.tasks[task].key, task, proto);
      && |p'.acquired| == |w.pool.acquired| && p'.waiters == w.pool.waiters && p'.woken == w.pool.woken
      && p'.limit == w.pool.limit
  {
    hide CreatedOk, WaitersOk, DistinctFuts, IdleOk, HeldOk;
    HeldIsKeyed(w);
    PlaceholderHeld(w, task);
    ProtoIsNew(w, proto);
  }

  lemma CreatedWakes(w: World, step: Step)
    requires WakeInv(w) && !w.pool.closed && Enabled(w, step) && step.Created?
    ensures var w' := Apply(w, step); PendingOk(w'.pool, w'.tasks, w'.nextFut) && EnoughWoken(w')
  {
    hide OpenInv, PendingOk, EnoughWoken, AnyPending, Swap;
    var w' := Apply(w, step);
    SwapIsSame(w, step.task, step.proto);
    SamePending(w.pool, w'.pool);
    FewerTasksPending(w.pool, w'.pool, w.tasks, w'.tasks, w.nextFut);
    assert WokenTasks(w') == WokenTasks(w);
    NobodyLeaves(w, w');
  }

  lemma CreateFailsWakes(w: World, step: Step)
    requires WakeInv(w) && !w.pool.closed && Enabled(w, step) && step.CreateFails?
    ensures var w' := Apply(w, step); PendingOk(w'.pool, w'.tasks, w'.nextFut) && EnoughWoken(w')
  {
    hide HeldOk, CreatedOk, WaitersOk, DistinctFuts, IdleOk, LeasesOk, PendingOk, EnoughWoken, ReleaseAcquired;
    var w', key, h := Apply(w, step), w.tasks[step.task].key, Placeholder(step.task);
    PlaceholderHeld(w, step.task);
    StepKeepsSettings(w, step);
    FreedWakes(w, key, h, step.order, w');
  }

  lemma LeaseHeld(w: World, conn: nat)
    requires LeasesOk(w) && conn in w.leases
    ensures Proto(w.leases[conn].proto) in w.keyed && w.keyed[Proto(w.leases[conn].proto)] == w.leases[conn].key
  {
  }

  lemma EndLeaseWakes(w: World, step: Step)
    requires WakeInv(w) && !w.pool.closed && Enabled(w, step) && step.EndLease?
    ensures var w' := Apply(w, step); PendingOk(w'.pool, w'.tasks, w'.nextFut) && EnoughWoken(w')
  {
    hide HeldOk, CreatedOk, WaitersOk, DistinctFuts, IdleOk, LeasesOk, PendingOk, EnoughWoken, ReleaseAcquired;
    var w', l := Apply(w, step), w.leases[step.conn];
    LeaseHeld(w, step.conn);
    StepKeepsSettings(w, step);
    FreedWakes(w, l.key, Proto(l.proto), step.order, w');
  }

  lemma CleanUpWakes(w: World, step: Step)
    requires WakeInv(w) && !w.pool.closed && Enabled(w, step) && step.CleanUp?
    ensures var w' := Apply(w, step); PendingOk(w'.pool, w'.tasks, w'.nextFut) && EnoughWoken(w')
  {
    hide OpenInv, Survivors, PendingOk, AnyPending;
    var w' := Apply(w, step);
    SamePending(w.pool, w'.pool);
    SamePendingOk(w.pool, w'.pool, w.tasks, w.nextFut);
    assert WokenTasks(w') == WokenTasks(w);
  }

  lemma StepWakes(w: World, step: Step)
    requires WakeInv(w) && Enabled(w, step)
    ensures WakeInv(Apply(w, step))
  {
    hide OpenInv, Apply, Enabled, PendingOk, EnoughWoken;
    StepKeepsSettings(w, step);
    if !w.pool.closed {
      OpenStep(w, step);
      match step {
        case Connect(_, _, _, _) => ConnectWakes(w, step);
        case Resume(_, _, _) => ResumeWakes(w, step);
        case Created(_, _) => CreatedWakes(w, step);
        case CreateFails(_, _) => CreateFailsWakes(w, step);
        case EndLease(_, _, _, _) => EndLeaseWakes(w, step);
        case CleanUp(_, _) => CleanUpWakes(w, step);
        case CloseAll => CloseCloses(w, step);
      }
    }
  }

  lemma CloseCloses(w: World, step: Step)
    requires Enabled(w, step) && step.CloseAll?
    ensures Apply(w, step).pool.closed
  {
  }

  /** Some run of a connector with these settings ends in this state. */
  ghost predicate Reachable(limit: nat, limitPerHost: nat, keepalive: real, w: World) {
    exists steps :: Legal(NewWorld(limit, limitPerHost, keepalive), steps)
      && Run(NewWorld(limit, limitPerHost, keepalive), steps) == w
  }

  lemma {:induction false} RunWakes(w: World, steps: seq<Step>)
    requires WakeInv(w) && Legal(w, steps)
    ensures WakeInv(Run(w, steps))
    decreases |steps|
  {
    hide WakeInv, Apply, Enabled;
    if steps != [] {
      StepWakes(w, steps[0]);
      RunWakes(Apply(w, steps[0]), steps[1..]);
    }
  }

  lemma ReachableWakes(limit: nat, limitPerHost: nat, keepalive: real, w: World)
    requires Reachable(limit, limitPerHost, keepalive, w) && SharedLimit(limit, limitPerHost)
    ensures NoLostWakeup(w)
  {
    hide OpenInv, NoLostWakeup;
    var w0 := NewWorld(limit, limitPerHost, keepalive);
    var steps :| Legal(w0, steps) && Run(w0, steps) == w;
    NewWorldInv(limit, limitPerHost, keepalive);
    assert !AnyPending(w0.pool);
    RunWakes(w0, steps);
    EnoughIsNone(w);
  }

  lemma {:induction false} RunMore(w: World, steps: seq<Step>, step: Step)
    requires Legal(w, steps) && Enabled(Run(w, steps), step)
    ensures Legal(w, steps + [step]) && Run(w, steps + [step]) == Apply(Run(w, steps), step)
    decreases |steps|
  {
    hide Apply, Enabled;
    if steps == [] {
      assert [] + [step] == [step] && [step][1..] == [];
      assert Legal(Apply(w, step), []);
    } else {
      RunMore(Apply(w, steps[0]), steps[1..], step);
      assert (steps + [step])[1..] == steps[1..] + [step];
    }
  }

  lemma ReachMore(limit: nat, limitPerHost: nat, keepalive: real, w: World, step: Step)
    requires Reachable(limit, limitPerHost, keepalive, w) && Enabled(w, step)
    ensures Reachable(limit, limitPerHost, keepalive, Apply(w, step))
  {
    hide Apply, Enabled, Legal, Run;
    var w0 := NewWorld(limit, limitPerHost, keepalive);
    var steps :| Legal(w0, steps) && Run(w0, steps) == w;
    RunMore(w0, steps, step);
  }

  function Placeholders(lo: nat, hi: nat): set<Handler> {
    set t: nat | lo <= t < hi :: Placeholder(t)
  }

  lemma {:induction false} PlaceholdersCount(lo: nat, hi: nat)
    requires lo <= hi
    ensures |Placeholders(lo, hi)| == hi - lo
    decreases hi - lo
  {
    if lo < hi {
      PlaceholdersCount(lo, hi - 1);
      assert Placeholders(lo, hi) == Placeholders(lo, hi - 1) + {Placeholder(hi - 1)};
    }
  }

  function OfKey(p: Pool, key: Key): set<Handler> {
    if key in p.perHost then p.perHost[key] else {}
  }

  /** `a` placeholders are held for key 0 and `b` for key 1, and nobody waits. */
  ghost predicate FilledPool(p: Pool, limit: nat, limitPerHost: nat, a: nat, b: nat) {
    && p.limit == limit && p.limitPerHost == limitPerHost && !p.closed
    && p.conns == map[] && p.waiters == map[] && p.woken == {}
    && p.acquired == Placeholders(0, a + b)
    && OfKey(p, 0) == Placeholders(0, a) && OfKey(p, 1) == Placeholders(a, a + b)
  }

  ghost predicate FilledTasks(tasks: map<nat, Task>, a: nat, b: nat) {
    && (forall t: nat :: t in tasks <==> t < a + b)
    && (forall t: nat :: t in tasks ==> tasks[t] == Creating(if t < a then 0 else 1))
  }

  ghost predicate Filled(w: World, limit: nat, limitPerHost: nat, a: nat, b: nat) {
    && FilledPool(w.pool, limit, limitPerHost, a, b) && FilledTasks(w.tasks, a, b)
    && w.leases == map[] && w.nextFut == 0
  }

  /** One more task starts a connection where there is room. */
  lemma BeginsAlone(w: World, task: nat, key: Key)
    requires w.pool.conns == map[] && task !in w.tasks && task !in w.leases && HasRoom(w.pool, key)
    ensures Enabled(w, Connect(task, key, 0.0, {}))
    ensures Apply(w, Connect(task, key, 0.0, {})) == Begin(w, task, key, w.pool)
  {
    hide Available, HasRoom, Acquire;
    AvailableIsRoom(w.pool, key);
    GetWhenEmpty(w.pool, key, 0.0, {});
  }

  lemma FillPool(p: Pool, limit: nat, limitPerHost: nat, a: nat, b: nat, key: Key)
    requires FilledPool(p, limit, limitPerHost, a, b) && limitPerHost > 0 && key <= 1 && (key == 0 ==> b == 0)
    ensures FilledPool(Acquire(p, key, Placeholder(a + b)), limit, limitPerHost,
              if key == 0 then a + 1 else a, if key == 0 then b else b + 1)
  {
    assert Placeholders(0, a + b + 1) == Placeholders(0, a + b) + {Placeholder(a + b)};
    if key == 0 {
      assert Placeholders(a + 1, a + 1) == {} && Placeholders(a, a) == {};
    } else {
      assert Placeholders(a, a + b + 1) == Placeholders(a, a + b) + {Placeholder(a + b)};
    }
  }

  lemma FilledRoom(p: Pool, limit: nat, limitPerHost: nat, a: nat, b: nat, key: Key)
    requires FilledPool(p, limit, limitPerHost, a, b) && limitPerHost > 0 && key <= 1
    ensures |p.acquired| == a + b && |OfKey(p, 0)| == a && |OfKey(p, 1)| == b
    ensures HasRoom(p, key) <==> (limit > 0 ==> a + b < limit) && (if key == 0 then a else b) < limitPerHost
  {
    PlaceholdersCount(0, a + b);
    PlaceholdersCount(0, a);
    PlaceholdersCount(a, a + b);
  }

  lemma FillOne(w: World, limit: nat, limitPerHost: nat, a: nat, b: nat, key: Key)
    requires Filled(w, limit, limitPerHost, a, b) && limitPerHost > 0 && key <= 1 && (key == 0 ==> b == 0)
    requires limit == 0 || a + b < limit
    requires (if key == 0 then a else b) < limitPerHost
    ensures Enabled(w, Connect(a + b, key, 0.0, {}))
    ensures var w' := Apply(w, Connect(a + b, key, 0.0, {}));
      Filled(w', limit, limitPerHost, if key == 0 then a + 1 else a, if key == 0 then b else b + 1)
  {
    hide Apply, Enabled, HasRoom, Acquire;
    FilledRoom(w.pool, limit, limitPerHost, a, b, key);
    assert w.pool.conns == map[];
    BeginsAlone(w, a + b, key);
    FillPool(w.pool, limit, limitPerHost, a, b, key);
  }

  lemma {:induction false} Fill(limit: nat, limitPerHost: nat, keepalive: real, a: nat, b: nat) returns (w: World)
    requires 0 < limitPerHost && a <= limitPerHost && b <= limitPerHost && (limit == 0 || a + b <= limit)
    ensures Reachable(limit, limitPerHost, keepalive, w) && Filled(w, limit, limitPerHost, a, b)
    decreases a + b
  {
    hide Apply, Enabled, Filled, Reachable;
    if b > 0 {
      var v := Fill(limit, limitPerHost, keepalive, a, b - 1);
      FillOne(v, limit, limitPerHost, a, b - 1, 1);
      var step := Connect(a + (b - 1), 1, 0.0, {});
      ReachMore(limit, limitPerHost, keepalive, v, step);
      w := Apply(v, step);
    } else if a > 0 {
      var v := Fill(limit, limitPerHost, keepalive, a - 1, 0);
      FillOne(v, limit, limitPerHost, a - 1, 0, 0);
      var step := Connect(a - 1 + 0, 0, 0.0, {});
      ReachMore(limit, limitPerHost, keepalive, v, step);
      w := Apply(v, step);
    } else {
      w := NewWorld(limit, limitPerHost, keepalive);
      NothingFilled(limit, limitPerHost, keepalive);
    }
  }

  lemma NothingFilled(limit: nat, limitPerHost: nat, keepalive: real)
    ensures var w := NewWorld(limit, limitPerHost, keepalive);
      Reachable(limit, limitPerHost, keepalive, w) && Filled(w, limit, limitPerHost, 0, 0)
  {
    var w := NewWorld(limit, limitPerHost, keepalive);
    assert Legal(w, []) && Run(w, []) == w;
    assert Placeholders(0, 0) == {};
  }

  /** A task waits where there is no room. */
  lemma WaitsAlone(w: World, task: nat, key: Key)
    requires w.pool.conns == map[] && task !in w.tasks && task !in w.leases && !HasRoom(w.pool, key)
    ensures Enabled(w, Connect(task, key, 0.0, {}))
    ensures Apply(w, Connect(task, key, 0.0, {})) == Wait(w, task, key, w.pool, false)
  {
    hide Available, HasRoom;
    AvailableIsRoom(w.pool, key);
    GetWhenEmpty(w.pool, key, 0.0, {});
  }

  /** Three tasks wait, two for key 0 and one for key 1. */
  lemma ThreeWait(limit: nat, limitPerHost: nat, keepalive: real, w: World, n: nat) returns (v: World)
    requires Reachable(limit, limitPerHost, keepalive, w)
    requires w.pool.conns == map[] && w.pool.waiters == map[] && w.leases == map[] && w.nextFut == 0
    requires !HasRoom(w.pool, 0) && !HasRoom(w.pool, 1) && forall t :: t >= n ==> t !in w.tasks
    ensures Reachable(limit, limitPerHost, keepalive, v)
    ensures v.pool == w.pool.(waiters := map[0 := [0, 1], 1 := [2]]) && v.leases == map[] && v.nextFut == 3
    ensures v.tasks == w.tasks[n := Waiting(0, 0)][n + 1 := Waiting(0, 1)][n + 2 := Waiting(1, 2)]
  {
    hide Apply, Enabled, Reachable, HasRoom;
    assert [] + [0] == [0] && [0] + [1] == [0, 1] && [] + [2] == [2];
    WaitsAlone(w, n, 0);
    ReachMore(limit, limitPerHost, keepalive, w, Connect(n, 0, 0.0, {}));
    var w1 := Apply(w, Connect(n, 0, 0.0, {}));
    SameRoom(w.pool, w1.pool);
    assert w1.pool.waiters == map[0 := [0]];
    WaitsAlone(w1, n + 1, 0);
    ReachMore(limit, limitPerHost, keepalive, w1, Connect(n + 1, 0, 0.0, {}));
    var w2 := Apply(w1, Connect(n + 1, 0, 0.0, {}));
    SameRoom(w.pool, w2.pool);
    assert w2.pool.waiters == map[0 := [0, 1]];
    WaitsAlone(w2, n + 2, 1);
    ReachMore(limit, limitPerHost, keepalive, w2, Connect(n + 2, 1, 0.0, {}));
    v := Apply(w2, Connect(n + 2, 1, 0.0, {}));
  }

  lemma SameRoom(p: Pool, p': Pool)
    requires p'.acquired == p.acquired && p'.perHost == p.perHost && p'.limit == p.limit
      && p'.limitPerHost == p.limitPerHost
    ensures HasRoom(p', 0) == HasRoom(p, 0) && HasRoom(p', 1) == HasRoom(p, 1)
  {
  }

  /** How many handlers are held, in all and for the two keys. */
  predicate Counts(p: Pool, all: nat, zero: nat, one: nat) {
    |p.acquired| == all && |OfKey(p, 0)| == zero && |OfKey(p, 1)| == one
  }

  lemma CountsRoom(p: Pool, all: nat, zero: nat, one: nat, key: Key)
    requires Counts(p, all, zero, one) && p.limitPerHost > 0 && key <= 1
    ensures HasRoom(p, key) <==> (p.limit > 0 ==> all < p.limit) && (if key == 0 then zero else one) < p.limitPerHost
  {
  }

  lemma ForgetCounts(p: Pool, key: Key, h: Handler, all: nat, zero: nat, one: nat)
    requires Counts(p, all, zero, one) && p.limitPerHost > 0 && key <= 1 && h in p.acquired && h in OfKey(p, key)
    ensures all >= 1 && (if key == 0 then zero else one) >= 1
    ensures Counts(Forget(p, key, h), all - 1, if key == 0 then zero - 1 else zero, if key == 0 then one else one - 1)
    ensures var p' := Forget(p, key, h);
      && p' == p.(acquired := p.acquired - {h}, perHost := p'.perHost)
      && OfKey(p', 0) <= OfKey(p, 0) && OfKey(p', 1) >= OfKey(p, 1) - {h}
  {
    ForgetOfHost(p, key, h);
    var p' := Forget(p, key, h);
    assert OfKey(p', key) == OfKey(p, key) - {h};
  }

  /** A failed creation wakes the first of key 0 that is not woken yet. */
  lemma FailWakes(w: World, task: nat, all: nat, zero: nat, one: nat, gone: nat)
    requires Counts(w.pool, all, zero, one) && w.pool.limitPerHost > 0 && !w.pool.closed
    requires task in w.tasks && w.tasks[task].Creating? && w.tasks[task].key <= 1
    requires Placeholder(task) in w.pool.acquired && Placeholder(task) in OfKey(w.pool, w.tasks[task].key)
    requires gone <= 1 && w.pool.waiters == map[0 := [0, 1][gone..], 1 := [2]] && gone !in w.pool.woken
    requires w.pool.limit > 0 ==> all <= w.pool.limit
    requires (if w.tasks[task].key == 0 then zero - 1 else zero) < w.pool.limitPerHost
    ensures Enabled(w, CreateFails(task, [0, 1]))
    ensures var w' := Apply(w, CreateFails(task, [0, 1]));
      && all >= 1 && (if w.tasks[task].key == 0 then zero else one) >= 1
      && Counts(w'.pool, all - 1, if w.tasks[task].key == 0 then zero - 1 else zero,
        if w.tasks[task].key == 0 then one else one - 1)
      && w'.pool.waiters == map[0 := [0, 1][gone + 1..], 1 := [2]] && w'.pool.woken == w.pool.woken + {gone}
      && w'.pool.conns == w.pool.conns && w'.pool.limit == w.pool.limit && w'.pool.limitPerHost == w.pool.limitPerHost
      && !w'.pool.closed && w'.pool.acquired == w.pool.acquired - {Placeholder(task)}
      && OfKey(w'.pool, 0) <= OfKey(w.pool, 0) && OfKey(w'.pool, 1) >= OfKey(w.pool, 1) - {Placeholder(task)}
      && w'.tasks == w.tasks - {task} && w'.leases == w.leases && w'.nextFut == w.nextFut
  {
    hide Available, HasRoom, Counts, Forget, OfKey, ReleaseWaiter, Apply;
    FailApplies(w, task, [0, 1]);
    var key, h := w.tasks[task].key, Placeholder(task);
    var p := Forget(w.pool, key, h);
    var zero', one' := if key == 0 then zero - 1 else zero, if key == 0 then one else one - 1;
    ForgetCounts(w.pool, key, h, all, zero, one);
    CountsRoom(p, all - 1, zero', one', 0);
    AvailableIsRoom(p, 0);
    WakesFront(p, gone);
    SameCounts(p, ReleaseWaiter(p, [0, 1]), all - 1, zero', one');
  }

  lemma FailApplies(w: World, task: nat, order: seq<Key>)
    requires !w.pool.closed && task in w.tasks && w.tasks[task].Creating? && Lists(order, w.pool.waiters)
    ensures Enabled(w, CreateFails(task, order))
    ensures var w' := Apply(w, CreateFails(task, order));
      && w'.pool == ReleaseWaiter(Forget(w.pool, w.tasks[task].key, Placeholder(task)), order)
      && w'.tasks == w.tasks - {task} && w'.leases == w.leases && w'.nextFut == w.nextFut
  {
    hide ReleaseWaiter, Forget;
  }

  lemma WakesFront(p: Pool, gone: nat)
    requires Available(p, 0) >= 1 && gone <= 1 && p.waiters == map[0 := [0, 1][gone..], 1 := [2]] && gone !in p.woken
    ensures ReleaseWaiter(p, [0, 1]) == p.(waiters := map[0 := [0, 1][gone + 1..], 1 := [2]], woken := p.woken + {gone})
  {
    hide Available;
    var q := [0, 1][gone..];
    assert q[0] == gone && q[1..] == [0, 1][gone + 1..];
    assert p.waiters[0 := q[1..]] == map[0 := [0, 1][gone + 1..], 1 := [2]];
  }

  lemma SameCounts(p: Pool, p': Pool, all: nat, zero: nat, one: nat)
    requires Counts(p, all, zero, one) && p'.acquired == p.acquired && p'.perHost == p.perHost
    ensures Counts(p', all, zero, one) && OfKey(p', 1) == OfKey(p, 1) && OfKey(p', 0) == OfKey(p, 0)
  {
  }

  /** The first of the two woken tasks takes the slot of its key. */
  lemma ResumeBegins(w: World, task: nat)
    requires task in w.tasks && w.tasks[task] == Waiting(0, 0) && 0 in w.pool.woken && w.pool.conns == map[]
    requires w.pool.waiters == map[0 := [], 1 := [2]] && HasRoom(w.pool, 0)
    ensures Enabled(w, Resume(task, 0.0, {}))
    ensures Apply(w, Resume(task, 0.0, {})) == Begin(w, task, 0, w.pool.(waiters := map[1 := [2]]))
  {
    hide Available, HasRoom;
    var p := Dequeue(w.pool, 0, 0);
    assert Without<nat>([], 0) == [];
    assert p == w.pool.(waiters := map[1 := [2]]);
    SameRoom(w.pool, p);
    AvailableIsRoom(p, 0);
    GetWhenEmpty(p, 0, 0.0, {});
  }

  /** The second finds none and waits again. */
  lemma ResumeWaits(w: World, task: nat)
    requires task in w.tasks && w.tasks[task] == Waiting(0, 1) && 1 in w.pool.woken
    requires w.pool.waiters == map[1 := [2]] && !HasRoom(w.pool, 0)
    ensures Enabled(w, Resume(task, 0.0, {}))
    ensures Apply(w, Resume(task, 0.0, {})) == Wait(w, task, 0, w.pool, true)
  {
    hide Available, HasRoom;
    AvailableIsRoom(w.pool, 0);
  }

  lemma BeginCounts(p: Pool, task: nat, all: nat, zero: nat, one: nat)
    requires Counts(p, all, zero, one) && p.limitPerHost > 0
    requires Placeholder(task) !in p.acquired && Placeholder(task) !in OfKey(p, 0)
    ensures Counts(Acquire(p, 0, Placeholder(task)), all + 1, zero + 1, one)
  {
  }

  /** Both woken tasks were of the key with room for one: the waiter of the other key has room and nobody is woken. */
  lemma TwoResume(limit: nat, limitPerHost: nat, keepalive: real, v: World, n: nat, c: nat) returns (w: World)
    requires Reachable(limit, limitPerHost, keepalive, v) && v.pool.limit == limit
      && v.pool.limitPerHost == limitPerHost
    requires limitPerHost > 0 && 1 <= c <= limitPerHost && n == limitPerHost + c && (limit > 0 ==> n <= limit)
    requires Counts(v.pool, n - 2, limitPerHost - 1, c - 1) && !v.pool.closed && v.pool.conns == map[]
    requires v.pool.waiters == map[0 := [], 1 := [2]] && v.pool.woken == {0, 1} && v.nextFut == 3
    requires Placeholder(n) !in v.pool.acquired && Placeholder(n) !in OfKey(v.pool, 0)
    requires n in v.tasks && n + 1 in v.tasks && n + 2 in v.tasks
    requires v.tasks[n] == Waiting(0, 0) && v.tasks[n + 1] == Waiting(0, 1) && v.tasks[n + 2] == Waiting(1, 2)
    requires forall t :: t in v.tasks && t < n ==> v.tasks[t].Creating?
    requires forall t :: t in v.tasks ==> t <= n + 2
    ensures Reachable(limit, limitPerHost, keepalive, w) && !NoLostWakeup(w)
  {
    hide Apply, Enabled, Reachable, HasRoom, Counts, OfKey, Acquire, Available;
    CountsRoom(v.pool, n - 2, limitPerHost - 1, c - 1, 0);
    ResumeBegins(v, n);
    ReachMore(limit, limitPerHost, keepalive, v, Resume(n, 0.0, {}));
    var v1 := Apply(v, Resume(n, 0.0, {}));
    var p := v.pool.(waiters := map[1 := [2]]);
    SameCounts(v.pool, p, n - 2, limitPerHost - 1, c - 1);
    BeginCounts(p, n, n - 2, limitPerHost - 1, c - 1);
    AcquireWaiters(p, 0, Placeholder(n));
    CountsRoom(v1.pool, n - 1, limitPerHost, c - 1, 0);
    ResumeWaits(v1, n + 1);
    ReachMore(limit, limitPerHost, keepalive, v1, Resume(n + 1, 0.0, {}));
    w := Apply(v1, Resume(n + 1, 0.0, {}));
    CountsRoom(v1.pool, n - 1, limitPerHost, c - 1, 1);
    SameRoom(v1.pool, w.pool);
    AvailableIsRoom(w.pool, 1);
    assert 2 in w.pool.waiters[1] && 2 !in w.pool.woken;
    assert Pending(w.pool, 1, 2);
    assert WokenTasks(w) == {};
  }

  lemma AcquireWaiters(p: Pool, key: Key, h: Handler)
    ensures var p' := Acquire(p, key, h);
      && p'.waiters == p.waiters && p'.woken == p.woken && p'.closed == p.closed && p'.conns == p.conns
      && p'.limit == p.limit && p'.limitPerHost == p.limitPerHost
  {
  }

  /** A wake-up is lost wherever a per-host limit can bind before the total one: two slots become free, both wake
      waiters of one key with room for only one, and a waiter of another key, which has room, is forgotten. */
  lemma WakeupIsLost(limit: nat, limitPerHost: nat, keepalive: real) returns (w: World)
    requires !SharedLimit(limit, limitPerHost)
    ensures Reachable(limit, limitPerHost, keepalive, w) && !NoLostWakeup(w)
  {
    hide Apply, Enabled, Reachable, HasRoom, Counts, NoLostWakeup, OfKey;
    var h := limitPerHost;
    var c := if limit == 0 || limit >= 2 * h then h else limit - h;
    var n := h + c;
    var w0 := Fill(limit, h, keepalive, h, c);
    FilledRoom(w0.pool, limit, h, h, c, 0);
    FilledRoom(w0.pool, limit, h, h, c, 1);
    var v := ThreeWait(limit, h, keepalive, w0, n);
    FilledCounts(w0.pool, v.pool, limit, h, c);
    var v2 := TwoFail(limit, h, keepalive, v, n, c);
    w := TwoResume(limit, h, keepalive, v2, n, c);
  }

  /** Two connections fail, one of each key, and both wake waiters of key 0. */
  lemma TwoFail(limit: nat, h: nat, keepalive: real, v: World, n: nat, c: nat) returns (w: World)
    requires Reachable(limit, h, keepalive, v) && v.pool.limit == limit && v.pool.limitPerHost == h && !v.pool.closed
    requires h > 0 && 1 <= c <= h && n == h + c && (limit > 0 ==> n <= limit) && Counts(v.pool, n, h, c)
    requires v.pool.waiters == map[0 := [0, 1], 1 := [2]] && v.pool.woken == {} && v.pool.conns == map[]
    requires v.pool.acquired == Placeholders(0, n)
    requires OfKey(v.pool, 0) == Placeholders(0, h) && OfKey(v.pool, 1) == Placeholders(h, n)
    requires 0 in v.tasks && v.tasks[0] == Creating(0) && h in v.tasks && v.tasks[h] == Creating(1)
    ensures Reachable(limit, h, keepalive, w) && w.pool.limit == limit && w.pool.limitPerHost == h && !w.pool.closed
    ensures Counts(w.pool, n - 2, h - 1, c - 1) && w.pool.conns == map[]
    ensures w.pool.waiters == map[0 := [], 1 := [2]] && w.pool.woken == {0, 1}
    ensures Placeholder(n) !in w.pool.acquired && Placeholder(n) !in OfKey(w.pool, 0)
    ensures w.tasks == v.tasks - {0} - {h} && w.nextFut == v.nextFut
  {
    hide Apply, Enabled, Reachable, HasRoom, Counts, OfKey;
    assert [0, 1][0..] == [0, 1] && [0, 1][1..] == [1] && [0, 1][2..] == [];
    FailWakes(v, 0, n, h, c, 0);
    ReachMore(limit, h, keepalive, v, CreateFails(0, [0, 1]));
    var v1 := Apply(v, CreateFails(0, [0, 1]));
    assert Placeholder(h) in OfKey(v.pool, 1);
    FailWakes(v1, h, n - 1, h - 1, c, 1);
    ReachMore(limit, h, keepalive, v1, CreateFails(h, [0, 1]));
    w := Apply(v1, CreateFails(h, [0, 1]));
  }

  lemma FilledCounts(p: Pool, p': Pool, limit: nat, h: nat, c: nat)
    requires FilledPool(p, limit, h, h, c) && p'.acquired == p.acquired && p'.perHost == p.perHost
    ensures Counts(p', h + c, h, c) && OfKey(p', 0) == Placeholders(0, h) && OfKey(p', 1) == Placeholders(h, h + c)
  {
    PlaceholdersCount(0, h + c);
    PlaceholdersCount(0, h);
    PlaceholdersCount(h, h + c);
  }

  /** In every reachable state a waiter whose key has room has a wake-up under way, if and only if there is no per-host
      limit or it is no smaller than the total one. */
  lemma NoWakeupLostIffLimitShared(limit: nat, limitPerHost: nat, keepalive: real)
    ensures (forall w :: Reachable(limit, limitPerHost, keepalive, w) ==> NoLostWakeup(w))
      <==> SharedLimit(limit, limitPerHost)
  {
    hide Reachable, NoLostWakeup;
    if SharedLimit(limit, limitPerHost) {
      forall w | Reachable(limit, limitPerHost, keepalive, w) ensures NoLostWakeup(w) {
        ReachableWakes(limit, limitPerHost, keepalive, w);
      }
    } else {
      var w := WakeupIsLost(limit, limitPerHost, keepalive);
    }
  }
}
