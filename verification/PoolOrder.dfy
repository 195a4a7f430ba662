/** Who is woken first: tasks that wait for the first time in the order in which they came, after those that wait
    again. */
module PoolOrder {
  import opened Dicts
  import opened Pool
  import opened PoolRuns

  /** A task starts to wait for the first time. */
  predicate Joins(w: World, step: Step)
    requires Enabled(w, step)
  {
    step.Connect? && step.task in Apply(w, step).tasks && Apply(w, step).tasks[step.task].Waiting?
  }

  /** The futures of tasks that wait, or waited, for the first time; later futures have higher numbers. */
  function FirstTimers(w: World, steps: seq<Step>, firsts: set<nat>): set<nat>
    requires Legal(w, steps)
    decreases |steps|
  {
    if steps == [] then firsts
    else FirstTimers(Apply(w, steps[0]), steps[1..], if Joins(w, steps[0]) then firsts + {w.nextFut} else firsts)
  }

  /** Those that wait again stand in front; behind them the others, in the order in which they came. */
  ghost predicate InOrder(q: seq<nat>, firsts: set<nat>, next: nat) {
    && (forall i :: 0 <= i < |q| ==> q[i] < next)
    && (forall i, j :: 0 <= i < j < |q| && q[i] in firsts ==> q[j] in firsts && q[i] < q[j])
  }

  ghost predicate AllInOrder(waiters: map<Key, seq<nat>>, firsts: set<nat>, next: nat) {
    && (forall k :: k in waiters ==> InOrder(waiters[k], firsts, next))
    && (forall f :: f in firsts ==> f < next)
    && forall k, l, f :: k in waiters && l in waiters && f in waiters[k] && f in waiters[l] ==> k == l
  }

  lemma {:induction false} WithoutInOrder(q: seq<nat>, f: nat, firsts: set<nat>, next: nat)
    requires InOrder(q, firsts, next)
    ensures InOrder(Without(q, f), firsts, next)
    ensures forall x :: x in Without(q, f) ==> x in q
  {
    if q != [] {
      assert forall i :: 0 <= i < |q[1..]| ==> q[1..][i] == q[i + 1];
      WithoutInOrder(q[1..], f, firsts, next);
      if q[0] != f {
        var r := [q[0]] + Without(q[1..], f);
        forall j | 0 < j < |r| && q[0] in firsts ensures r[j] in firsts && q[0] < r[j] {
          assert r[j] in q[1..];
          var i :| 0 <= i < |q[1..]| && q[1..][i] == r[j];
          assert q[i + 1] == r[j];
        }
      }
    }
  }

  lemma {:induction false} ReleaseInOrder(p: Pool, order: seq<Key>, firsts: set<nat>, next: nat)
    requires AllInOrder(p.waiters, firsts, next)
    ensures AllInOrder(ReleaseWaiter(p, order).waiters, firsts, next)
    decreases |order|
  {
    if order != [] {
      if Available(p, order[0]) < 1 || order[0] !in p.waiters {
        ReleaseInOrder(p, order[1..], firsts, next);
      } else {
        var q := p.waiters[order[0]];
        var n := FirstPending(q, p.woken);
        if n == |q| {
          ReleaseInOrder(p.(waiters := p.waiters[order[0] := []]), order[1..], firsts, next);
        }
      }
    }
  }

  lemma ReleaseAcquiredInOrder(p: Pool, key: Key, h: Handler, order: seq<Key>, firsts: set<nat>, next: nat)
    requires AllInOrder(p.waiters, firsts, next)
    ensures AllInOrder(ReleaseAcquired(p, key, h, order).waiters, firsts, next)
  {
    ReleaseInOrder(Forget(p, key, h), order, firsts, next);
  }

  lemma JoinedInOrder(waiters: map<Key, seq<nat>>, key: Key, firsts: set<nat>, next: nat)
    requires AllInOrder(waiters, firsts, next)
    ensures var q := if key in waiters then waiters[key] else [];
      AllInOrder(waiters[key := q + [next]], firsts + {next}, next + 1)
  {
    var q := if key in waiters then waiters[key] else [];
    forall k | k in waiters ensures InOrder(waiters[k], firsts + {next}, next + 1) {
      assert InOrder(waiters[k], firsts, next);
    }
    assert InOrder(q + [next], firsts + {next}, next + 1);
  }

  lemma AgainInOrder(waiters: map<Key, seq<nat>>, key: Key, firsts: set<nat>, next: nat)
    requires AllInOrder(waiters, firsts, next)
    ensures AllInOrder(waiters[key := [next] + (if key in waiters then waiters[key] else [])], firsts, next + 1)
  {
    var q := if key in waiters then waiters[key] else [];
    forall k | k in waiters ensures InOrder(waiters[k], firsts, next + 1) {
      assert InOrder(waiters[k], firsts, next);
    }
    assert next !in firsts;
    assert InOrder([next] + q, firsts, next + 1);
  }

  lemma DequeueInOrder(p: Pool, key: Key, fut: nat, firsts: set<nat>, next: nat)
    requires AllInOrder(p.waiters, firsts, next)
    ensures AllInOrder(Dequeue(p, key, fut).waiters, firsts, next)
  {
    if key in p.waiters {
      WithoutInOrder(p.waiters[key], fut, firsts, next);
    }
  }

  lemma GetLeavesWaiters(p: Pool, key: Key, now: real, connected: set<nat>)
    ensures Get(p, key, now, connected).pool.waiters == p.waiters
  {
    hide FirstReusable;
  }

  lemma ConnectInOrder(w: World, step: Step, firsts: set<nat>)
    requires Enabled(w, step) && step.Connect? && AllInOrder(w.pool.waiters, firsts, w.nextFut)
    ensures var w' := Apply(w, step);
      AllInOrder(w'.pool.waiters, if Joins(w, step) then firsts + {w.nextFut} else firsts, w'.nextFut)
  {
    hide Get, Available, AllInOrder;
    GetLeavesWaiters(w.pool, step.key, step.now, step.connected);
    JoinedInOrder(w.pool.waiters, step.key, firsts, w.nextFut);
  }

  lemma ResumeInOrder(w: World, step: Step, firsts: set<nat>)
    requires Enabled(w, step) && step.Resume? && AllInOrder(w.pool.waiters, firsts, w.nextFut)
    ensures var w' := Apply(w, step); AllInOrder(w'.pool.waiters, firsts, w'.nextFut)
  {
    hide Get, Available, AllInOrder, Dequeue;
    var key, fut := w.tasks[step.task].key, w.tasks[step.task].fut;
    var p := Dequeue(w.pool, key, fut);
    DequeueInOrder(w.pool, key, fut, firsts, w.nextFut);
    GetLeavesWaiters(p, key, step.now, step.connected);
    AgainInOrder(p.waiters, key, firsts, w.nextFut);
  }

  lemma StepInOrder(w: World, step: Step, firsts: set<nat>)
    requires Enabled(w, step) && AllInOrder(w.pool.waiters, firsts, w.nextFut)
    ensures var w' := Apply(w, step);
      AllInOrder(w'.pool.waiters, if Joins(w, step) then firsts + {w.nextFut} else firsts, w'.nextFut)
  {
    hide Get, Available, ReleaseAcquired, Begin, Wait, Reuse, InOrder;
    match step {
      case Connect(_, _, _, _) => ConnectInOrder(w, step, firsts);
      case Resume(_, _, _) => ResumeInOrder(w, step, firsts);
      case Created(_, _) =>
      case CreateFails(task, order) =>
        ReleaseAcquiredInOrder(w.pool, w.tasks[task].key, Placeholder(task), order, firsts, w.nextFut);
      case EndLease(conn, _, _, order) =>
        ReleaseAcquiredInOrder(w.pool, w.leases[conn].key, Proto(w.leases[conn].proto), order, firsts, w.nextFut);
      case CleanUp(_, _) =>
      case CloseAll =>
    }
  }

  lemma {:induction false} RunInOrder(w: World, steps: seq<Step>, firsts: set<nat>)
    requires Legal(w, steps) && AllInOrder(w.pool.waiters, firsts, w.nextFut)
    ensures AllInOrder(Run(w, steps).pool.waiters, FirstTimers(w, steps, firsts), Run(w, steps).nextFut)
    decreases |steps|
  {
    hide Apply, Enabled, AllInOrder, Joins;
    if steps != [] {
      StepInOrder(w, steps[0], firsts);
      RunInOrder(Apply(w, steps[0]), steps[1..], if Joins(w, steps[0]) then firsts + {w.nextFut} else firsts);
    }
  }

  /** Nobody is overtaken: when a task that waits for the first time is woken, all others still waiting for its key came
      later, and none of them has waited before. */
  lemma NobodyIsOvertaken(limit: nat, limitPerHost: nat, keepalive: real, steps: seq<Step>, step: Step, key: Key,
    f: nat)
    requires Legal(NewWorld(limit, limitPerHost, keepalive), steps)
    requires var w := Run(NewWorld(limit, limitPerHost, keepalive), steps);
      Enabled(w, step) && Pending(w.pool, key, f) && f in Apply(w, step).pool.woken
    requires f in FirstTimers(NewWorld(limit, limitPerHost, keepalive), steps, {})
    ensures var w0 := NewWorld(limit, limitPerHost, keepalive);
      forall g :: g != f && Pending(Run(w0, steps).pool, key, g) ==> g in FirstTimers(w0, steps, {}) && f < g
  {
    hide Apply, Enabled, Legal;
    var w0 := NewWorld(limit, limitPerHost, keepalive);
    RunInOrder(w0, steps, {});
    WokenIsFront(Run(w0, steps), step, key, f);
  }

  ghost predicate OneKey(waiters: map<Key, seq<nat>>, f: nat) {
    forall k, l :: k in waiters && l in waiters && f in waiters[k] && f in waiters[l] ==> k == l
  }

  lemma WokenIsFront(w: World, step: Step, key: Key, f: nat)
    requires Enabled(w, step) && Pending(w.pool, key, f) && f in Apply(w, step).pool.woken && OneKey(w.pool.waiters, f)
    ensures FirstPending(w.pool.waiters[key], w.pool.woken) < |w.pool.waiters[key]|
    ensures w.pool.waiters[key][FirstPending(w.pool.waiters[key], w.pool.woken)] == f
  {
    hide Get, Available, ReleaseWaiter, Begin, Reuse, Survivors;
    match step {
      case Connect(_, _, _, _) => TakesNoWakeup(w, step);
      case Resume(_, _, _) => TakesNoWakeup(w, step);
      case Created(_, _) =>
      case CreateFails(task, order) =>
        WokenByRelease(Forget(w.pool, w.tasks[task].key, Placeholder(task)), order, key, f);
      case EndLease(conn, _, _, order) =>
        WokenByRelease(Forget(w.pool, w.leases[conn].key, Proto(w.leases[conn].proto)), order, key, f);
      case CleanUp(_, _) =>
      case CloseAll =>
    }
  }

  lemma GetWakesNobody(p: Pool, key: Key, now: real, connected: set<nat>)
    ensures Get(p, key, now, connected).pool.woken == p.woken
  {
    hide FirstReusable;
  }

  lemma TakesNoWakeup(w: World, step: Step)
    requires Enabled(w, step) && (step.Connect? || step.Resume?)
    ensures Apply(w, step).pool.woken == w.pool.woken
  {
    hide Get, Available;
    match step {
      case Connect(_, key, now, connected) => GetWakesNobody(w.pool, key, now, connected);
      case Resume(task, now, connected) =>
        GetWakesNobody(Dequeue(w.pool, w.tasks[task].key, w.tasks[task].fut), w.tasks[task].key, now, connected);
    }
  }

  lemma WokenByRelease(p: Pool, order: seq<Key>, key: Key, f: nat)
    requires Pending(p, key, f) && f in ReleaseWaiter(p, order).woken && OneKey(p.waiters, f)
    ensures FirstPending(p.waiters[key], p.woken) < |p.waiters[key]|
    ensures p.waiters[key][FirstPending(p.waiters[key], p.woken)] == f
  {
    ReleaseWaiterOver(p, order);
  }
}
