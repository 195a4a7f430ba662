/** What is reused, in every run: nothing that was released to be closed, and nothing idle for too long. */
module PoolReuse {
  import opened Dicts
  import opened Pool
  import opened PoolRuns
  import opened PoolLimits
  import opened Wrappers

  /** The protocol is idle nowhere and leased to nobody, and its number is taken. */
  ghost predicate Gone(w: World, x: nat) {
    && x in w.madeFor
    && (forall k, i :: k in w.pool.conns && 0 <= i < |w.pool.conns[k]| ==> w.pool.conns[k][i].proto != x)
    && (forall c :: c in w.leases ==> w.leases[c].proto != x)
  }

  /** Everything idle was idle before, under the same key. */
  ghost predicate IdleShrinks(conns: map<Key, seq<Idle>>, conns': map<Key, seq<Idle>>) {
    forall k, i :: k in conns' && 0 <= i < |conns'[k]| ==> k in conns && conns'[k][i] in conns[k]
  }

  /** The i-th of the key's queue is `x`, connected and idle for no longer than the keep-alive timeout. */
  ghost predicate HandedOut(p: Pool, key: Key, now: real, connected: set<nat>, x: nat, i: int)
    requires key in p.conns
  {
    && 0 <= i < |p.conns[key]| && p.conns[key][i].proto == x
    && x in connected && now - p.conns[key][i].since <= p.keepalive
  }

  lemma GetShrinks(p: Pool, key: Key, now: real, connected: set<nat>)
    ensures var g := Get(p, key, now, connected);
      && IdleShrinks(p.conns, g.pool.conns)
      && (g.proto.Some? ==> key in p.conns && exists i :: HandedOut(p, key, now, connected, g.proto.value, i))
  {
    hide Get;
    GetHandsOutFresh(p, key, now, connected);
    var g := Get(p, key, now, connected);
    if g.proto.Some? {
      var n: nat :| n < |p.conns[key]| && p.conns[key][n].proto == g.proto.value
        && g.proto.value in connected && now - p.conns[key][n].since <= p.keepalive
        && (if n + 1 == |p.conns[key]| then g.pool.conns == p.conns - {key}
            else g.pool.conns == p.conns[key := p.conns[key][n + 1..]]);
      assert HandedOut(p, key, now, connected, g.proto.value, n);
    }
  }

  /** The step reuses an idle protocol of the key: connected, and idle for no longer than the keep-alive timeout. */
  ghost predicate ReusesOne(w: World, step: Step, w': World, k: Key, i: int)
    requires step.Connect? || step.Resume?
  {
    && k in w.pool.conns && 0 <= i < |w.pool.conns[k]|
    && w'.leases == w.leases[step.task := Lease(k, w.pool.conns[k][i].proto)]
    && w.pool.conns[k][i].proto in step.connected && step.now - w.pool.conns[k][i].since <= w.pool.keepalive
  }

  lemma ConnectTakesFromIdle(w: World, step: Step)
    requires Enabled(w, step) && step.Connect?
    ensures var w' := Apply(w, step);
      && w'.madeFor == w.madeFor && IdleShrinks(w.pool.conns, w'.pool.conns)
      && (w'.leases == w.leases || exists k, i :: ReusesOne(w, step, w', k, i))
  {
    hide Get, Available, IdleShrinks;
    GetShrinks(w.pool, step.key, step.now, step.connected);
    var g := Get(w.pool, step.key, step.now, step.connected);
    if g.proto.Some? {
      var i :| HandedOut(w.pool, step.key, step.now, step.connected, g.proto.value, i);
      assert ReusesOne(w, step, Apply(w, step), step.key, i);
    }
  }

  lemma DequeueLeavesIdle(p: Pool, key: Key, fut: nat)
    ensures Dequeue(p, key, fut).conns == p.conns && Dequeue(p, key, fut).keepalive == p.keepalive
  {
  }

  lemma ResumeTakesFromIdle(w: World, step: Step)
    requires Enabled(w, step) && step.Resume?
    ensures var w' := Apply(w, step);
      && w'.madeFor == w.madeFor && IdleShrinks(w.pool.conns, w'.pool.conns)
      && (w'.leases == w.leases || exists k, i :: ReusesOne(w, step, w', k, i))
  {
    hide Get, Available, IdleShrinks, Dequeue;
    var key := w.tasks[step.task].key;
    var p := Dequeue(w.pool, key, w.tasks[step.task].fut);
    DequeueLeavesIdle(w.pool, key, w.tasks[step.task].fut);
    SameIdle(w.pool.conns);
    GetShrinks(p, key, step.now, step.connected);
    var g := Get(p, key, step.now, step.connected);
    if Available(p, key) > 0 && g.proto.Some? {
      var i :| HandedOut(p, key, step.now, step.connected, g.proto.value, i);
      assert ReusesOne(w, step, Apply(w, step), key, i);
    }
  }

  lemma SameIdle(conns: map<Key, seq<Idle>>)
    ensures IdleShrinks(conns, conns)
  {
  }

  /** A connect or a resumed task either reuses an idle protocol or leases nothing; the idle pool only shrinks. */
  lemma TakesFromIdle(w: World, step: Step)
    requires Enabled(w, step) && (step.Connect? || step.Resume?)
    ensures var w' := Apply(w, step);
      && w'.madeFor == w.madeFor && IdleShrinks(w.pool.conns, w'.pool.conns)
      && (w'.leases == w.leases || exists k, i :: ReusesOne(w, step, w', k, i))
  {
    hide Apply, IdleShrinks, ReusesOne;
    if step.Connect? {
      ConnectTakesFromIdle(w, step);
    } else {
      ResumeTakesFromIdle(w, step);
    }
  }

  lemma ReleaseLeavesIdle(p: Pool, key: Key, h: Handler, order: seq<Key>)
    ensures ReleaseAcquired(p, key, h, order).conns == p.conns
  {
    ReleaseTakes(p, key, h, order);
  }

  lemma CleanupShrinks(p: Pool, now: real, connected: set<nat>)
    ensures Cleanup(p, now, connected) == p.(conns := Cleanup(p, now, connected).conns)
    ensures IdleShrinks(p.conns, Cleanup(p, now, connected).conns)
  {
    var conns := Cleanup(p, now, connected).conns;
    forall k, i | k in conns && 0 <= i < |conns[k]| ensures k in p.conns && conns[k][i] in p.conns[k] {
      SurvivorsAreFresh(p, p.conns[k], now, connected);
      FilterMembers(p.conns[k], (i: Idle) => i.proto in connected && now - i.since <= p.keepalive, conns[k][i]);
    }
  }

  /** Once gone, a protocol stays gone. */
  lemma StepGone(w: World, step: Step, x: nat)
    requires Enabled(w, step) && Gone(w, x)
    ensures Gone(Apply(w, step), x)
  {
    hide Get, Available, ReleaseAcquired, Cleanup, Dequeue, Begin, Wait, Reuse;
    match step {
      case Connect(_, _, _, _) => TakesFromIdle(w, step);
      case Resume(_, _, _) => TakesFromIdle(w, step);
      case Created(_, _) =>
      case CreateFails(task, order) => ReleaseLeavesIdle(w.pool, w.tasks[task].key, Placeholder(task), order);
      case EndLease(conn, _, _, order) =>
        ReleaseLeavesIdle(w.pool, w.leases[conn].key, Proto(w.leases[conn].proto), order);
      case CleanUp(now, connected) =>
        CleanupShrinks(w.pool, now, connected);
      case CloseAll =>
    }
  }

  lemma {:induction false} RunGone(w: World, steps: seq<Step>, x: nat)
    requires Legal(w, steps) && Gone(w, x)
    ensures Gone(Run(w, steps), x)
    decreases |steps|
  {
    hide Apply, Enabled, Gone;
    if steps != [] {
      StepGone(w, steps[0], x);
      RunGone(Apply(w, steps[0]), steps[1..], x);
    }
  }

  lemma {:induction false} RunSplit(w: World, a: seq<Step>, b: seq<Step>)
    requires Legal(w, a + b)
    ensures Legal(w, a) && Legal(Run(w, a), b) && Run(w, a + b) == Run(Run(w, a), b)
    decreases |a|
  {
    hide Apply, Enabled;
    if a == [] {
      assert a + b == b;
    } else {
      assert (a + b)[1..] == a[1..] + b;
      RunSplit(Apply(w, a[0]), a[1..], b);
    }
  }

  /** Live connections have protocols of their own, none of them idle, in every state; once closed, nothing is idle. */
  ghost predicate Owned(w: World) {
    && Sound(w)
    && (forall c :: c in w.leases ==> w.leases[c].proto in w.madeFor)
    && (forall c, d :: c in w.leases && d in w.leases && w.leases[c].proto == w.leases[d].proto ==> c == d)
    && (forall c, k, i :: c in w.leases && k in w.pool.conns && 0 <= i < |w.pool.conns[k]| ==>
          w.pool.conns[k][i].proto != w.leases[c].proto)
  }

  lemma OpenOwned(w: World)
    requires OpenInv(w) && !w.pool.closed
    ensures Owned(w)
  {
    hide HeldOk, CreatedOk, WaitersOk, DistinctFuts;
  }

  lemma StepOwned(w: World, step: Step)
    requires Owned(w) && Enabled(w, step)
    ensures Owned(Apply(w, step))
  {
    hide OpenInv, Get, Available, ReleaseAcquired, Cleanup, Dequeue, Begin, Wait, Reuse, Swap;
    var w' := Apply(w, step);
    StepSound(w, step);
    if !w'.pool.closed {
      OpenOwned(w');
    } else if step.Connect? || step.Resume? {
      TakesFromIdle(w, step);
      if !w.pool.closed {
        ClosesOnly(w, step);
      }
    } else if !w.pool.closed {
      ClosesOnly(w, step);
    }
  }

  /** Only closing closes. */
  lemma ClosesOnly(w: World, step: Step)
    requires !w.pool.closed && Enabled(w, step)
    ensures Apply(w, step).pool.closed <==> step.CloseAll?
  {
    hide Get, Available, ReleaseWaiter, Survivors, Without;
    match step {
      case Connect(_, key, now, connected) => GetLeavesOpen(w.pool, key, now, connected);
      case Resume(task, now, connected) =>
        GetLeavesOpen(Dequeue(w.pool, w.tasks[task].key, w.tasks[task].fut), w.tasks[task].key, now, connected);
      case Created(task, proto) => SwapLeavesOpen(w.pool, w.tasks[task].key, task, proto);
      case CreateFails(task, order) =>
        ReleaseWaiterOnlyWaiters(Forget(w.pool, w.tasks[task].key, Placeholder(task)), order);
      case EndLease(conn, _, _, order) =>
        ReleaseWaiterOnlyWaiters(Forget(w.pool, w.leases[conn].key, Proto(w.leases[conn].proto)), order);
      case CleanUp(_, _) =>
      case CloseAll =>
    }
  }

  lemma {:induction false} RunOwned(w: World, steps: seq<Step>)
    requires Owned(w) && Legal(w, steps)
    ensures Owned(Run(w, steps))
    decreases |steps|
  {
    hide Apply, Enabled, Owned;
    if steps != [] {
      StepOwned(w, steps[0]);
      RunOwned(Apply(w, steps[0]), steps[1..]);
    }
  }

  lemma NewWorldOwned(limit: nat, limitPerHost: nat, keepalive: real)
    ensures Owned(NewWorld(limit, limitPerHost, keepalive))
  {
    NewWorldInv(limit, limitPerHost, keepalive);
  }

  lemma EndsToClose(w: World, conn: nat, now: real, order: seq<Key>)
    requires Owned(w) && Enabled(w, EndLease(conn, true, now, order))
    ensures Gone(Apply(w, EndLease(conn, true, now, order)), w.leases[conn].proto)
  {
    hide Sound, ReleaseAcquired;
    ReleaseLeavesIdle(w.pool, w.leases[conn].key, Proto(w.leases[conn].proto), order);
  }

  /** A protocol released to be closed is gone: at no later point of the run is it idle or leased. */
  lemma ClosedIsNeverReused(limit: nat, limitPerHost: nat, keepalive: real, before: seq<Step>, conn: nat, now: real,
    order: seq<Key>, after: seq<Step>)
    requires Legal(NewWorld(limit, limitPerHost, keepalive), before + [EndLease(conn, true, now, order)] + after)
    ensures var w0 := NewWorld(limit, limitPerHost, keepalive);
      && Legal(w0, before) && conn in Run(w0, before).leases
      && Gone(Run(w0, before + [EndLease(conn, true, now, order)] + after), Run(w0, before).leases[conn].proto)
  {
    hide Apply, Gone;
    var w0, step := NewWorld(limit, limitPerHost, keepalive), EndLease(conn, true, now, order);
    RunSplit(w0, before + [step], after);
    RunSplit(w0, before, [step]);
    var w := Run(w0, before);
    NewWorldOwned(limit, limitPerHost, keepalive);
    RunOwned(w0, before);
    assert [step][1..] == [];
    assert Run(w, [step]) == Apply(w, step);
    EndsToClose(w, conn, now, order);
    RunGone(Apply(w, step), after, w.leases[conn].proto);
  }

  /** A protocol released otherwise is the last of its key's queue, idle since then; the rest of the idle pool stays. */
  lemma OpenGoesLast(w: World, conn: nat, now: real, order: seq<Key>)
    requires Enabled(w, EndLease(conn, false, now, order)) && !w.pool.closed
    ensures var key, w' := w.leases[conn].key, Apply(w, EndLease(conn, false, now, order));
      && key in w'.pool.conns && w'.pool.conns[key] != []
      && w'.pool.conns[key][|w'.pool.conns[key]| - 1] == Idle(w.leases[conn].proto, now)
      && w'.pool.conns[key][..|w'.pool.conns[key]| - 1] == (if key in w.pool.conns then w.pool.conns[key] else [])
      && forall k :: k != key ==>
           (k in w'.pool.conns <==> k in w.pool.conns) && (k in w.pool.conns ==> w'.pool.conns[k] == w.pool.conns[k])
  {
    hide ReleaseAcquired;
    ReleaseLeavesIdle(w.pool, w.leases[conn].key, Proto(w.leases[conn].proto), order);
    ReleaseStaysOpen(w.pool, w.leases[conn].key, Proto(w.leases[conn].proto), order);
  }

  lemma ReleaseStaysOpen(p: Pool, key: Key, h: Handler, order: seq<Key>)
    ensures ReleaseAcquired(p, key, h, order).closed == p.closed
  {
    ReleaseWaiterOnlyWaiters(Forget(p, key, h), order);
  }

  lemma WasIdle(conns: map<Key, seq<Idle>>, conns': map<Key, seq<Idle>>, k: Key, i: nat)
    requires IdleShrinks(conns, conns') && k in conns' && i < |conns'[k]|
    ensures k in conns && conns'[k][i] in conns[k]
  {
  }

  lemma TakenIdle(w: World, step: Step, k: Key, i: nat)
    requires Enabled(w, step) && (step.Connect? || step.Resume?)
    requires k in Apply(w, step).pool.conns && i < |Apply(w, step).pool.conns[k]|
    ensures k in w.pool.conns && Apply(w, step).pool.conns[k][i] in w.pool.conns[k]
  {
    hide Apply, ReusesOne, IdleShrinks;
    TakesFromIdle(w, step);
    WasIdle(w.pool.conns, Apply(w, step).pool.conns, k, i);
  }

  /** What is idle after a step was idle before, or was just released. */
  lemma StepIdle(w: World, step: Step, k: Key, i: nat)
    requires Enabled(w, step) && k in Apply(w, step).pool.conns && i < |Apply(w, step).pool.conns[k]|
    ensures var x := Apply(w, step).pool.conns[k][i];
      || (k in w.pool.conns && x in w.pool.conns[k])
      || (step.EndLease? && !step.close && step.conn in w.leases && w.leases[step.conn] == Lease(k, x.proto)
          && x.since == step.now)
  {
    hide Get, Available, ReleaseAcquired, Cleanup, Dequeue, Begin, Wait, Reuse;
    match step {
      case Connect(_, _, _, _) => TakenIdle(w, step, k, i);
      case Resume(_, _, _) => TakenIdle(w, step, k, i);
      case Created(_, _) =>
      case CreateFails(task, order) => ReleaseLeavesIdle(w.pool, w.tasks[task].key, Placeholder(task), order);
      case EndLease(conn, _, _, order) =>
        ReleaseLeavesIdle(w.pool, w.leases[conn].key, Proto(w.leases[conn].proto), order);
      case CleanUp(now, connected) => CleanupShrinks(w.pool, now, connected);
      case CloseAll =>
    }
  }

  /** Some step of the run released the protocol, not to be closed, at the time it is idle since. */
  ghost predicate WasReleased(w0: World, steps: seq<Step>, k: Key, x: Idle)
    requires Legal(w0, steps)
  {
    exists j :: 0 <= j < |steps| && ReleasedAt(w0, steps, j, k, x)
  }

  ghost predicate ReleasedAt(w0: World, steps: seq<Step>, j: nat, k: Key, x: Idle)
    requires Legal(w0, steps) && j < |steps|
  {
    && steps[j].EndLease? && !steps[j].close && steps[j].now == x.since
    && Legal(w0, steps[..j]) && steps[j].conn in Run(w0, steps[..j]).leases
    && Run(w0, steps[..j]).leases[steps[j].conn] == Lease(k, x.proto)
  }

  lemma {:induction false} IdleWasReleased(w0: World, steps: seq<Step>, k: Key, i: nat)
    requires Legal(w0, steps) && w0.pool.conns == map[]
    requires k in Run(w0, steps).pool.conns && i < |Run(w0, steps).pool.conns[k]|
    ensures WasReleased(w0, steps, k, Run(w0, steps).pool.conns[k][i])
    decreases |steps|
  {
    hide Apply, Enabled;
    var n := |steps| - 1;
    assert steps == steps[..n] + [steps[n]];
    RunSplit(w0, steps[..n], [steps[n]]);
    var w := Run(w0, steps[..n]);
    assert [steps[n]][1..] == [];
    assert Run(w, [steps[n]]) == Apply(w, steps[n]);
    StepIdle(w, steps[n], k, i);
    var x := Run(w0, steps).pool.conns[k][i];
    if k in w.pool.conns && x in w.pool.conns[k] {
      var m :| 0 <= m < |w.pool.conns[k]| && w.pool.conns[k][m] == x;
      IdleWasReleased(w0, steps[..n], k, m);
      var j :| 0 <= j < n && ReleasedAt(w0, steps[..n], j, k, x);
      assert steps[..n][..j] == steps[..j];
      assert ReleasedAt(w0, steps, j, k, x);
    } else {
      assert ReleasedAt(w0, steps, n, k, x);
    }
  }

  /** In every run, a task that gets a protocol by reuse gets one that is connected, was released in the run not to be
      closed, for the same key, and no longer ago than the keep-alive timeout. */
  lemma ReuseIsFresh(limit: nat, limitPerHost: nat, keepalive: real, steps: seq<Step>, step: Step)
    requires Legal(NewWorld(limit, limitPerHost, keepalive), steps)
    requires Enabled(Run(NewWorld(limit, limitPerHost, keepalive), steps), step) && (step.Connect? || step.Resume?)
    requires var w := Run(NewWorld(limit, limitPerHost, keepalive), steps); Apply(w, step).leases != w.leases
    ensures var w0 := NewWorld(limit, limitPerHost, keepalive);
      var w' := Apply(Run(w0, steps), step);
      step.task in w'.leases && w'.leases[step.task].proto in step.connected &&
      exists x: Idle :: x.proto == w'.leases[step.task].proto && step.now - x.since <= keepalive
        && WasReleased(w0, steps, w'.leases[step.task].key, x)
  {
    hide Apply, Enabled, IdleShrinks;
    var w0 := NewWorld(limit, limitPerHost, keepalive);
    var w := Run(w0, steps);
    TakesFromIdle(w, step);
    LimitsStay(w0, steps);
    var k, i :| ReusesOne(w, step, Apply(w, step), k, i);
    IdleWasReleased(w0, steps, k, i);
  }

  /** Some protocol idle under the key is connected and was released within the keep-alive timeout. */
  ghost predicate HasFresh(p: Pool, key: Key, now: real, connected: set<nat>) {
    key in p.conns && exists x, i :: HandedOut(p, key, now, connected, x, i)
  }

  lemma GetFindsFresh(p: Pool, key: Key, now: real, connected: set<nat>)
    ensures Get(p, key, now, connected).proto.Some? <==> HasFresh(p, key, now, connected)
  {
    hide Get;
    GetHandsOutFresh(p, key, now, connected);
    if Get(p, key, now, connected).proto.Some? {
      GetShrinks(p, key, now, connected);
      var i :| HandedOut(p, key, now, connected, Get(p, key, now, connected).proto.value, i);
    }
  }

  /** What a connect comes to: a fresh idle protocol of its key is leased; without one the task begins to create when
      there is room under both limits, and waits otherwise. */
  lemma ConnectComesTo(w: World, task: nat, key: Key, now: real, connected: set<nat>)
    requires Enabled(w, Connect(task, key, now, connected))
    ensures var w' := Apply(w, Connect(task, key, now, connected));
      if HasFresh(w.pool, key, now, connected) then task in w'.leases && w'.leases[task].key == key && task !in w'.tasks
      else if HasRoom(w.pool, key) then
        task in w'.tasks && w'.tasks[task] == Creating(key) && Placeholder(task) in w'.pool.acquired
      else task in w'.tasks && w'.tasks[task] == Waiting(key, w.nextFut)
  {
    hide Get, Available, HasRoom, HasFresh;
    GetFindsFresh(w.pool, key, now, connected);
    if !HasFresh(w.pool, key, now, connected) {
      GetLeavesRoom(w.pool, key, now, connected);
      AvailableIsRoom(w.pool, key);
    }
  }

  /** What a woken task comes to: without room under both limits it waits again; with room it leases a fresh idle
      protocol of its key, or else begins to create. */
  lemma ResumeComesTo(w: World, task: nat, now: real, connected: set<nat>)
    requires Enabled(w, Resume(task, now, connected))
    ensures var w', key := Apply(w, Resume(task, now, connected)), w.tasks[task].key;
      if !HasRoom(w.pool, key) then task in w'.tasks && w'.tasks[task] == Waiting(key, w.nextFut)
      else if HasFresh(w.pool, key, now, connected) then
        task in w'.leases && w'.leases[task].key == key && task !in w'.tasks
      else task in w'.tasks && w'.tasks[task] == Creating(key) && Placeholder(task) in w'.pool.acquired
  {
    hide Get, Available, HasRoom, HasFresh, Dequeue;
    var key, fut := w.tasks[task].key, w.tasks[task].fut;
    DequeueLeavesIdle(w.pool, key, fut);
    DequeueLeavesRoom(w.pool, key, fut);
    AvailableIsRoom(w.pool, key);
    SameFresh(w.pool, Dequeue(w.pool, key, fut), key, now, connected);
    GetFindsFresh(Dequeue(w.pool, key, fut), key, now, connected);
  }

  lemma SameFresh(p: Pool, p': Pool, key: Key, now: real, connected: set<nat>)
    requires p'.conns == p.conns && p'.keepalive == p.keepalive
    ensures HasFresh(p, key, now, connected) <==> HasFresh(p', key, now, connected)
  {
    if key in p.conns {
      assert forall x, i :: HandedOut(p, key, now, connected, x, i) <==> HandedOut(p', key, now, connected, x, i);
    }
  }

  lemma StepClosedLeases(w: World, step: Step)
    requires w.pool.closed && w.pool.conns == map[] && Enabled(w, step)
    ensures var w' := Apply(w, step); w'.pool.closed && w'.pool.conns == map[] && w'.leases.Keys <= w.leases.Keys
    ensures forall c :: c in Apply(w, step).leases ==> c in w.leases && Apply(w, step).leases[c] == w.leases[c]
  {
    hide Get, Available, ReleaseAcquired, Cleanup, Dequeue, Begin, Wait, Swap;
    ClosedStaysEmpty(w, step);
    if step.Connect? || step.Resume? {
      TakesFromIdle(w, step);
    }
  }

  lemma {:induction false} RunClosedLeases(w: World, steps: seq<Step>)
    requires w.pool.closed && w.pool.conns == map[] && Legal(w, steps)
    ensures forall c :: c in Run(w, steps).leases ==> c in w.leases && Run(w, steps).leases[c] == w.leases[c]
    decreases |steps|
  {
    hide Apply, Enabled;
    if steps != [] {
      StepClosedLeases(w, steps[0]);
      RunClosedLeases(Apply(w, steps[0]), steps[1..]);
    }
  }

  /** Closing lets everything go: nothing is held, idle or waiting then, and from then on no task gets a connection, not
      even one that was being made. */
  lemma ClosedLeasesNothing(limit: nat, limitPerHost: nat, keepalive: real, before: seq<Step>, after: seq<Step>)
    requires Legal(NewWorld(limit, limitPerHost, keepalive), before + [CloseAll] + after)
    requires Legal(NewWorld(limit, limitPerHost, keepalive), before)
    requires !Run(NewWorld(limit, limitPerHost, keepalive), before).pool.closed
    ensures var w0 := NewWorld(limit, limitPerHost, keepalive);
      var w, w' := Run(w0, before), Run(w0, before + [CloseAll] + after);
      && Apply(w, CloseAll).pool.acquired == {} && Apply(w, CloseAll).pool.conns == map[]
      && Apply(w, CloseAll).pool.waiters == map[]
      && forall c :: c in w'.leases ==> c in w.leases && w'.leases[c] == w.leases[c]
  {
    var w0 := NewWorld(limit, limitPerHost, keepalive);
    RunSplit(w0, before + [CloseAll], after);
    RunSplit(w0, before, [CloseAll]);
    var w := Run(w0, before);
    assert [CloseAll][1..] == [];
    assert Run(w, [CloseAll]) == Apply(w, CloseAll);
    RunClosedLeases(Apply(w, CloseAll), after);
  }
}
