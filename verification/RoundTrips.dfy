/** The round-trip workers over the transfer table. A step is what one worker does between two suspensions. */
module RoundTrips {
  import opened Buffers
  import opened Bytes
  import opened Dicts
  import opened Transfers

  /** The number of workers, `roundtrip_timeout`, `min_on_road` and `server_time_max_deviation` as configured, and the
      protocol version. */
  datatype Settings =
    Settings(workers: nat, roundtripTimeout: int, minOnRoad: nat, maxDeviation: real, version: nat)

  /** Where a worker is. After an exception its request is over, but is counted until the sleep is. A head that cannot
      be packed raises outside the guarded part: the worker ends and its request is counted for ever. */
  datatype Worker =
    | Idle
    | Collecting
    | OnRoad(no: nat, body: Body)
    | Failing(no: nat)
    | Working(no: nat)
    | Pausing
    | Dead(no: nat, body: Body)

  /** The shared fields, the workers, the body of every number ever used, and every request sent; `deviation` is
      `server_time_deviation`, the shortest round trip so far that brought the server's time. */
  datatype Trips = Trips(settings: Settings, table: Table, lastNo: nat, onRoad: int, deviation: real,
                         workers: seq<Worker>, bodies: map<nat, Body>, requests: seq<(nat, Body)>)

  /** What an HTTP exchange came back with: its status, the announced length (0 for none), the decrypted content, and
      how long the round trip took. */
  datatype Answer = Answer(status: nat, announced: int, content: bytes, took: real)

  /** The reply came whole. */
  predicate CameWhole(a: Answer) {
    a.status == 200 && |a.content| >= 6 && (a.announced == 0 || a.announced == |a.content|)
  }

  /** A whole, well-formed data reply with no digest. With more than 32 bytes after the sections, the program takes the
      first 32 of them for a digest and calls `tobytes` on them, which `bytes` does not have: it always raises. */
  predicate Accepted(a: Answer, version: nat) {
    CameWhole(a) && WellFormed(a.content, version) && |a.content| - HEAD_LEN - LengthSum(a.content, 6) <= 32
  }

  /** The server is down, or reports that the quota or the session is gone: the session stops or is reset. */
  predicate EndsSession(a: Answer, version: nat) {
    || a.status == 521
    || (CameWhole(a) && a.content[0] == 'P' as byte && a.content[1] as nat == version && a.content[2] == 3
        && (a.content[3] == 1 || a.content[3] == 3))
  }

  /** `backlog`: more than a full block waits in the pool. */
  datatype Step =
    | Start(w: nat, now: real)
    | Collected(w: nat, body: Body, now: real, backlog: bool)
    | Raise(w: nat)
    | Wake(w: nat)
    | Answered(w: nat, answer: Answer)
    | WorkFails(w: nat)
    | Finish(w: nat)
    | CheckLate(late: Deadline)
    | Report(rcvd: bytes, sent: bytes, serverTime: real, time: bytes -> real)

  /** What `struct.pack` accepts for the number, the timeout and the three lengths of the request head. */
  predicate FitsHeader(no: nat, body: Body, serverTimeout: int) {
    && no < U32 && 0 <= serverTimeout < 256
    && |body.data| < U32 && |body.ack| < U16 && |body.downloadTimeout| < U16
  }

  /** How long a new request lets the server wait: it answers at once when there is a backlog, when few workers are
      free, or while the server's time is not known well. */
  function AskedTimeout(s: Trips, backlog: bool): int {
    if backlog || s.settings.workers - s.onRoad < s.settings.minOnRoad || s.deviation > s.settings.maxDeviation then 0
    else s.settings.roundtripTimeout
  }

  ghost predicate LockFree(ws: seq<Worker>) {
    forall i :: 0 <= i < |ws| ==> ws[i] != Collecting
  }

  ghost predicate Enabled(s: Trips, step: Step) {
    match step
    case Start(w, _) => w < |s.workers| && s.workers[w] == Idle && LockFree(s.workers)
    case Collected(w, _, _, _) => w < |s.workers| && s.workers[w] == Collecting
    case Raise(w) => w < |s.workers| && s.workers[w].OnRoad?
    case Wake(w) => w < |s.workers| && s.workers[w].Failing?
    case Answered(w, answer) => w < |s.workers| && s.workers[w].OnRoad? && !EndsSession(answer, s.settings.version)
    case WorkFails(w) => w < |s.workers| && s.workers[w].Working?
    case Finish(w) => w < |s.workers| && (s.workers[w].Working? || s.workers[w].Pausing?)
    case CheckLate(_) => true
    case Report(_, _, _, _) => true
  }

  /** `roundtrip_task` from the found entry to the suspension on the request. */
  function Depart(s: Trips, w: nat, no: nat, body: Body, serverTimeout: int): Trips
    requires w < |s.workers|
  {
    var fits := FitsHeader(no, body, serverTimeout);
    s.(table := Departed(s.table, no, serverTimeout), onRoad := s.onRoad + 1,
       workers := s.workers[w := if fits then OnRoad(no, body) else Dead(no, body)],
       requests := if fits then s.requests + [(no, body)] else s.requests)
  }

  /** A retry always asks for an answer at once. */
  ghost function Apply(s: Trips, step: Step): Trips
    requires s.table.Listing() && Enabled(s, step)
  {
    match step
    case Start(w, now) =>
      FirstTimedOutIsFirst(s.table.keys, s.table.at);
      (match FirstTimedOut(s.table.keys, s.table.at)
       case None => s.(workers := s.workers[w := Collecting])
       case Some(no) => Depart(s.(table := Retried(s.table, no, now)), w, no, s.table.at[no].body, 0))
    case Collected(w, body, now, backlog) =>
      var no := s.lastNo + 1;
      var s' := s.(table := Opened(s.table, no, body, now, s.settings.roundtripTimeout), lastNo := no,
                   bodies := s.bodies[no := body]);
      Depart(s', w, no, body, AskedTimeout(s, backlog))
    case Raise(w) =>
      s.(table := TimedOut(s.table, s.workers[w].no), workers := s.workers[w := Failing(s.workers[w].no)])
    case Wake(w) => s.(onRoad := s.onRoad - 1, workers := s.workers[w := Idle])
    case Answered(w, answer) =>
      var no := s.workers[w].no;
      if Accepted(answer, s.settings.version) then
        s.(table := Completed(s.table, no), onRoad := s.onRoad - 1, workers := s.workers[w := Working(no)],
           deviation := if answer.took < s.deviation then answer.took else s.deviation)
      else
        s.(table := TimedOut(s.table, no), onRoad := s.onRoad - 1,
           workers := s.workers[w := if answer.status != 200 then Pausing else Idle])
    case WorkFails(w) =>
      s.(table := TimedOut(s.table, s.workers[w].no), workers := s.workers[w := Idle])
    case Finish(w) => s.(workers := s.workers[w := Idle])
    case CheckLate(late) => s.(table := MarkLate(s.table, s.table.keys, late))
    case Report(rcvd, sent, serverTime, time) => s.(table := ReportOf(s.table, rcvd, sent, serverTime, time))
  }

  predicate Holds(w: Worker, no: nat) {
    (w.OnRoad? || w.Dead?) && w.no == no
  }

  predicate CountsOnRoad(w: Worker) {
    w.OnRoad? || w.Failing? || w.Dead?
  }

  function OnRoadCount(ws: seq<Worker>): nat {
    if ws == [] then 0 else (if CountsOnRoad(ws[0]) then 1 else 0) + OnRoadCount(ws[1..])
  }

  lemma {:induction false} CountUpdate(ws: seq<Worker>, i: nat, w: Worker)
    requires i < |ws|
    ensures OnRoadCount(ws[i := w])
         == OnRoadCount(ws) - (if CountsOnRoad(ws[i]) then 1 else 0) + (if CountsOnRoad(w) then 1 else 0)
  {
    if i > 0 {
      CountUpdate(ws[1..], i - 1, w);
      assert ws[i := w][1..] == ws[1..][i - 1 := w];
    } else {
      assert ws[0 := w][1..] == ws[1..];
    }
  }

  /** Entries are numbered from 1 to the last number and carry the body of their number. */
  ghost predicate TableOk(t: Table, lastNo: nat, bodies: map<nat, Body>) {
    && t.Valid()
    && (forall no :: no in bodies ==> 1 <= no <= lastNo)
    && forall no :: no in t.at ==> no in bodies && t.at[no].body == bodies[no]
  }

  /** An entry is marked timed out or held by a worker. */
  ghost predicate NoOrphan(t: Table, ws: seq<Worker>) {
    forall no :: no in t.at && t.at[no].stat != Timeout ==> exists w :: 0 <= w < |ws| && Holds(ws[w], no)
  }

  /** Workers and requests carry the body of their number. */
  ghost predicate BodiesOk(ws: seq<Worker>, requests: seq<(nat, Body)>, bodies: map<nat, Body>) {
    && (forall w :: 0 <= w < |ws| && (ws[w].OnRoad? || ws[w].Dead?) ==>
          ws[w].no in bodies && ws[w].body == bodies[ws[w].no])
    && (forall i :: 0 <= i < |requests| ==> requests[i].0 in bodies && requests[i].1 == bodies[requests[i].0])
  }

  ghost predicate OneCollects(ws: seq<Worker>) {
    forall i, j :: 0 <= i < j < |ws| ==> !(ws[i] == Collecting && ws[j] == Collecting)
  }

  ghost predicate Inv(s: Trips) {
    && TableOk(s.table, s.lastNo, s.bodies)
    && NoOrphan(s.table, s.workers)
    && s.onRoad == OnRoadCount(s.workers)
    && BodiesOk(s.workers, s.requests, s.bodies)
    && OneCollects(s.workers)
  }

  lemma MarksKeep(s: Trips, t: Table)
    requires Inv(s) && OnlyMarks(s.table, t)
    ensures Inv(s.(table := t))
  {
    assert t.Valid();
  }

  lemma MoveNoOrphan(t: Table, ws: seq<Worker>, w: nat, pc: Worker)
    requires w < |ws| && NoOrphan(t, ws)
    requires forall no :: Holds(ws[w], no) && no in t.at ==> t.at[no].stat == Timeout
    ensures NoOrphan(t, ws[w := pc])
  {
    var moved := ws[w := pc];
    forall no | no in t.at && t.at[no].stat != Timeout ensures exists v :: 0 <= v < |moved| && Holds(moved[v], no) {
      var v :| 0 <= v < |ws| && Holds(ws[v], no);
      assert v != w && Holds(moved[v], no);
    }
  }

  /** A worker moves to a place that holds no entry; what it held so far is timed out or gone. */
  lemma MoveKeeps(s: Trips, w: nat, pc: Worker)
    requires Inv(s) && w < |s.workers| && !pc.OnRoad? && !pc.Dead?
    requires forall no :: Holds(s.workers[w], no) && no in s.table.at ==> s.table.at[no].stat == Timeout
    requires pc == Collecting ==> LockFree(s.workers)
    ensures Inv(s.(workers := s.workers[w := pc],
      onRoad := s.onRoad - (if CountsOnRoad(s.workers[w]) then 1 else 0) + (if CountsOnRoad(pc) then 1 else 0)))
  {
    hide NoOrphan;
    CountUpdate(s.workers, w, pc);
    MoveNoOrphan(s.table, s.workers, w, pc);
  }

  lemma SetKeepsTable(t: Table, lastNo: nat, bodies: map<nat, Body>, no: nat, info: Info)
    requires TableOk(t, lastNo, bodies) && no in t.at && info.body == t.at[no].body
    ensures TableOk(t.Set(no, info), lastNo, bodies)
  {
    SetValid(t, no, info);
  }

  lemma DepartNoOrphan(t: Table, t0: Table, ws: seq<Worker>, w: nat, no: nat, pc: Worker)
    requires w < |ws| && (ws[w] == Idle || ws[w] == Collecting) && Holds(pc, no) && NoOrphan(t0, ws)
    requires forall k :: k in t.at && k != no ==> k in t0.at && t.at[k].stat == t0.at[k].stat
    ensures NoOrphan(t, ws[w := pc])
  {
    var moved := ws[w := pc];
    forall k | k in t.at && t.at[k].stat != Timeout
      ensures exists v :: 0 <= v < |moved| && Holds(moved[v], k)
    {
      if k == no {
        assert Holds(moved[w], no);
      } else {
        var v :| 0 <= v < |ws| && Holds(ws[v], k);
        assert Holds(moved[v], k);
      }
    }
  }

  /** An idle or collecting worker departs with a number of the table. */
  lemma DepartKeeps(s: Trips, t: Table, lastNo: nat, bodies: map<nat, Body>, w: nat, no: nat, serverTimeout: int)
    requires Inv(s) && w < |s.workers| && (s.workers[w] == Idle || s.workers[w] == Collecting)
    requires TableOk(t, lastNo, bodies) && no in bodies && no in t.at
    requires forall k :: k in s.bodies ==> k in bodies && bodies[k] == s.bodies[k]
    requires forall k :: k in t.at && k != no ==> k in s.table.at && t.at[k].stat == s.table.at[k].stat
    ensures Inv(Depart(s.(table := t, lastNo := lastNo, bodies := bodies), w, no, bodies[no], serverTimeout))
  {
    hide FitsHeader, OnRoadCount, NoOrphan, TableOk;
    var s' := Depart(s.(table := t, lastNo := lastNo, bodies := bodies), w, no, bodies[no], serverTimeout);
    var ws := s'.workers;
    CountUpdate(s.workers, w, ws[w]);
    assert CountsOnRoad(ws[w]) && !CountsOnRoad(s.workers[w]);
    DepartNoOrphan(s'.table, s.table, s.workers, w, no, ws[w]);
    SetKeepsTable(t, lastNo, bodies, no, t.at[no].(serverTimeout := serverTimeout));
  }

  lemma StartKeeps(s: Trips, w: nat, now: real)
    requires Inv(s) && Enabled(s, Start(w, now))
    ensures Inv(Apply(s, Start(w, now)))
  {
    hide NoOrphan, BodiesOk, Distinct, OnRoadCount, FitsHeader, TableOk;
    TableListed(s);
    FirstTimedOutIsFirst(s.table.keys, s.table.at);
    match FirstTimedOut(s.table.keys, s.table.at)
    case None =>
      MoveKeeps(s, w, Collecting);
    case Some(no) =>
      SetKeepsTable(s.table, s.lastNo, s.bodies, no, Retried(s.table, no, now).at[no]);
      DepartKeeps(s, Retried(s.table, no, now), s.lastNo, s.bodies, w, no, 0);
  }

  lemma TableListed(s: Trips)
    requires Inv(s)
    ensures s.table.Listing() && Numbered(s.table, s.lastNo)
    ensures forall no :: no in s.table.at ==> no in s.bodies && s.table.at[no].body == s.bodies[no]
    ensures forall no :: no in s.bodies ==> 1 <= no <= s.lastNo
  {
  }

  lemma CollectedKeeps(s: Trips, w: nat, body: Body, now: real, backlog: bool)
    requires Inv(s) && Enabled(s, Collected(w, body, now, backlog))
    ensures Inv(Apply(s, Collected(w, body, now, backlog)))
  {
    hide NoOrphan, BodiesOk, Distinct, OnRoadCount, FitsHeader, Opened, Accepted, EndsSession, Completed, MarkLate,
      ReportOf;
    TableListed(s);
    var no := s.lastNo + 1;
    var t := Opened(s.table, no, body, now, s.settings.roundtripTimeout);
    OpenedIsNew(s.table, s.lastNo, body, now, s.settings.roundtripTimeout);
    assert TableOk(t, no, s.bodies[no := body]);
    DepartKeeps(s, t, no, s.bodies[no := body], w, no, AskedTimeout(s, backlog));
  }

  lemma TimeOutKeeps(s: Trips, no: nat)
    requires Inv(s)
    ensures Inv(s.(table := TimedOut(s.table, no)))
  {
    hide Distinct, NoOrphan;
    MarksKeep(s, TimedOut(s.table, no));
  }

  lemma AnsweredKeeps(s: Trips, w: nat, answer: Answer)
    requires Inv(s) && Enabled(s, Answered(w, answer))
    ensures Inv(Apply(s, Answered(w, answer)))
  {
    hide BodiesOk, Distinct, OnRoadCount, Accepted, EndsSession, Completed;
    TableListed(s);
    var no := s.workers[w].no;
    if Accepted(answer, s.settings.version) {
      CompletedRemovesOnly(s.table, s.lastNo, no);
      var s' := s.(table := Completed(s.table, no),
                   deviation := if answer.took < s.deviation then answer.took else s.deviation);
      assert Inv(s');
      MoveKeeps(s', w, Working(no));
    } else {
      TimeOutKeeps(s, no);
      MoveKeeps(s.(table := TimedOut(s.table, no)), w, if answer.status != 200 then Pausing else Idle);
    }
  }

  lemma ApplyKeeps(s: Trips, step: Step)
    requires Inv(s) && Enabled(s, step)
    ensures s.table.Listing() && Inv(Apply(s, step))
  {
    hide Inv, LockFree, Accepted, EndsSession, ReportOf;
    TableListed(s);
    match step
    case Start(w, now) => StartKeeps(s, w, now);
    case Collected(w, body, now, backlog) => CollectedKeeps(s, w, body, now, backlog);
    case Raise(w) =>
      TimeOutKeeps(s, s.workers[w].no);
      MoveKeeps(s.(table := TimedOut(s.table, s.workers[w].no)), w, Failing(s.workers[w].no));
    case Wake(w) => MoveKeeps(s, w, Idle);
    case Answered(w, answer) => AnsweredKeeps(s, w, answer);
    case WorkFails(w) =>
      TimeOutKeeps(s, s.workers[w].no);
      MoveKeeps(s.(table := TimedOut(s.table, s.workers[w].no)), w, Idle);
    case Finish(w) => MoveKeeps(s, w, Idle);
    case CheckLate(late) =>
      MarkLateOnlyMarks(s.table, s.table.keys, late);
      MarksKeep(s, MarkLate(s.table, s.table.keys, late));
    case Report(rcvd, sent, serverTime, time) =>
      ReportOnlyMarks(s.table, rcvd, sent, serverTime, time);
      MarksKeep(s, ReportOf(s.table, rcvd, sent, serverTime, time));
  }

  /** `server_time_deviation` before any reply. */
  const NO_DEVIATION: real := 9999.0

  function NewSession(settings: Settings): Trips {
    Trips(settings, Dict([], map[]), 0, 0, NO_DEVIATION, seq(settings.workers, i => Idle), map[], [])
  }

  lemma {:induction false} NobodyOnRoad(ws: seq<Worker>)
    requires forall i :: 0 <= i < |ws| ==> ws[i] == Idle
    ensures OnRoadCount(ws) == 0
  {
    if ws != [] {
      NobodyOnRoad(ws[1..]);
    }
  }

  ghost predicate Legal(settings: Settings, steps: seq<Step>)
    decreases |steps|, 0
  {
    steps == [] ||
    (Legal(settings, Before(steps)) && Enabled(Run(settings, Before(steps)), steps[|steps| - 1]))
  }

  function Before(steps: seq<Step>): (r: seq<Step>)
    requires steps != []
    ensures |r| == |steps| - 1
  {
    steps[..|steps| - 1]
  }

  /** The state after a run of a session with these settings. */
  ghost function Run(settings: Settings, steps: seq<Step>): (s: Trips)
    requires Legal(settings, steps)
    ensures Inv(s) && s.settings == settings && |s.workers| == settings.workers
    decreases |steps|, 1
  {
    if steps == [] then
      NobodyOnRoad(NewSession(settings).workers);
      NewSession(settings)
    else
      var s := Run(settings, Before(steps));
      ApplyKeeps(s, steps[|steps| - 1]);
      Apply(s, steps[|steps| - 1])
  }

  lemma RunSnoc(settings: Settings, steps: seq<Step>, step: Step)
    requires Legal(settings, steps) && Enabled(Run(settings, steps), step)
    ensures Legal(settings, steps + [step])
    ensures Run(settings, steps).table.Listing()
    ensures Run(settings, steps + [step]) == Apply(Run(settings, steps), step)
  {
    hide Inv, Apply, Enabled;
    assert Before(steps + [step]) == steps;
    ApplyKeeps(Run(settings, steps), step);
  }

  ghost predicate NobodyDead(s: Trips) {
    forall w :: 0 <= w < |s.workers| ==> !s.workers[w].Dead?
  }

  /** The guard: whenever a number is collected, it, its bytes and the timeout asked for fit the request head. */
  ghost predicate AllFit(settings: Settings, steps: seq<Step>)
    requires Legal(settings, steps)
    decreases |steps|
  {
    steps == [] ||
    (AllFit(settings, Before(steps)) && StepFits(Run(settings, Before(steps)), steps[|steps| - 1]))
  }

  predicate StepFits(s: Trips, step: Step) {
    step.Collected? ==> FitsHeader(s.lastNo + 1, step.body, AskedTimeout(s, step.backlog))
  }

  ghost predicate BodiesFit(s: Trips) {
    forall no :: no in s.bodies ==> FitsHeader(no, s.bodies[no], 0)
  }

  lemma FitsAtOnce(no: nat, body: Body, serverTimeout: int)
    requires FitsHeader(no, body, serverTimeout)
    ensures FitsHeader(no, body, 0)
  {
  }

  /** A step whose number fits kills nobody; one whose number does not kills its worker; a dead worker stays dead. */
  lemma StepSurvives(s: Trips, step: Step)
    requires Inv(s) && Enabled(s, step)
    ensures s.table.Listing()
    ensures BodiesFit(s) && NobodyDead(s) && StepFits(s, step)
      ==> BodiesFit(Apply(s, step)) && NobodyDead(Apply(s, step))
    ensures !StepFits(s, step) ==> !NobodyDead(Apply(s, step))
    ensures !NobodyDead(s) ==> !NobodyDead(Apply(s, step))
  {
    hide FitsHeader, Accepted, EndsSession, NoOrphan, OnRoadCount, Opened, Completed, ReportOf, MarkLate, BodiesOk;
    TableListed(s);
    var s' := Apply(s, step);
    if !NobodyDead(s) {
      var w :| 0 <= w < |s.workers| && s.workers[w].Dead?;
      assert s'.workers[w] == s.workers[w];
    }
    match step {
      case Start(w, now) => FirstTimedOutIsFirst(s.table.keys, s.table.at);
      case Collected(w, body, now, backlog) =>
        if FitsHeader(s.lastNo + 1, body, AskedTimeout(s, backlog)) {
          FitsAtOnce(s.lastNo + 1, body, AskedTimeout(s, backlog));
        } else {
          assert s'.workers[w].Dead?;
        }
      case _ =>
    }
  }

  lemma {:induction false} SurvivesWhileFit(settings: Settings, steps: seq<Step>)
    requires Legal(settings, steps)
    ensures if AllFit(settings, steps) then BodiesFit(Run(settings, steps)) && NobodyDead(Run(settings, steps))
            else !NobodyDead(Run(settings, steps))
    decreases |steps|
  {
    hide Apply, Enabled, Inv, BodiesFit, NobodyDead, StepFits;
    if steps == [] {
      NewSessionFits(settings);
    } else {
      SurvivesWhileFit(settings, Before(steps));
      StepSurvives(Run(settings, Before(steps)), steps[|steps| - 1]);
    }
  }

  lemma NewSessionFits(settings: Settings)
    ensures BodiesFit(NewSession(settings)) && NobodyDead(NewSession(settings))
  {
  }

  /** In every run no worker is lost if and only if every number, when it was collected, fitted the request head. */
  lemma WorkersSurviveIffAllFit(settings: Settings, steps: seq<Step>)
    requires Legal(settings, steps)
    ensures NobodyDead(Run(settings, steps)) <==> AllFit(settings, steps)
  {
    SurvivesWhileFit(settings, steps);
  }

  /** Every entry is marked timed out or a worker has its request on the road. */
  ghost predicate NoneOrphaned(s: Trips) {
    forall no :: no in s.table.at && s.table.at[no].stat != Timeout ==>
      exists w :: 0 <= w < |s.workers| && s.workers[w] == OnRoad(no, s.table.at[no].body)
  }

  lemma NobodyDeadNoneOrphaned(s: Trips)
    requires Inv(s) && NobodyDead(s)
    ensures NoneOrphaned(s)
  {
    forall no | no in s.table.at && s.table.at[no].stat != Timeout
      ensures exists w :: 0 <= w < |s.workers| && s.workers[w] == OnRoad(no, s.table.at[no].body)
    {
      var w :| 0 <= w < |s.workers| && Holds(s.workers[w], no);
      assert s.workers[w] == OnRoad(no, s.table.at[no].body);
    }
  }

  /** A number that does not fit leaves its entry with nobody. */
  lemma MisfitOrphans(s: Trips, step: Step)
    requires Inv(s) && Enabled(s, step) && !StepFits(s, step)
    ensures s.table.Listing() && !NoneOrphaned(Apply(s, step))
  {
    hide FitsHeader, Opened;
    TableListed(s);
    var no, s' := s.lastNo + 1, Apply(s, step);
    OpenedIsNew(s.table, s.lastNo, step.body, step.now, s.settings.roundtripTimeout);
    assert no in s'.table.at && s'.table.at[no].stat != Timeout;
    assert forall w :: 0 <= w < |s.workers| && s.workers[w].OnRoad? ==> s.workers[w].no <= s.lastNo;
    assert forall w :: 0 <= w < |s'.workers| ==> s'.workers[w] != OnRoad(no, s'.table.at[no].body);
  }

  ghost predicate NeverOrphaned(settings: Settings, steps: seq<Step>)
    requires Legal(settings, steps)
    decreases |steps|
  {
    NoneOrphaned(Run(settings, steps)) && (steps == [] || NeverOrphaned(settings, Before(steps)))
  }

  /** No orphaned round trip: throughout a run every entry is marked timed out or on the road with a worker, if and only
      if every number fitted when it was collected. */
  lemma {:induction false} NoOrphanIffAllFit(settings: Settings, steps: seq<Step>)
    requires Legal(settings, steps)
    ensures NeverOrphaned(settings, steps) <==> AllFit(settings, steps)
    decreases |steps|
  {
    hide Apply, Enabled, Inv, NoneOrphaned, NobodyDead, StepFits;
    SurvivesWhileFit(settings, steps);
    if AllFit(settings, steps) {
      NobodyDeadNoneOrphaned(Run(settings, steps));
    }
    if steps != [] {
      NoOrphanIffAllFit(settings, Before(steps));
      var s, step := Run(settings, Before(steps)), steps[|steps| - 1];
      if !StepFits(s, step) {
        MisfitOrphans(s, step);
      }
    }
  }

  /** The requests that are really in flight. */
  function InFlight(ws: seq<Worker>): nat {
    if ws == [] then 0 else (if ws[0].OnRoad? then 1 else 0) + InFlight(ws[1..])
  }

  /** The workers that sleep after an exception. */
  function Sleeping(ws: seq<Worker>): nat {
    if ws == [] then 0 else (if ws[0].Failing? then 1 else 0) + Sleeping(ws[1..])
  }

  function Lost(ws: seq<Worker>): nat {
    if ws == [] then 0 else (if ws[0].Dead? then 1 else 0) + Lost(ws[1..])
  }

  lemma {:induction false} CountsAddUp(ws: seq<Worker>)
    ensures OnRoadCount(ws) == InFlight(ws) + Sleeping(ws) + Lost(ws) <= |ws|
    ensures Sleeping(ws) + Lost(ws) == 0 <==> forall w :: 0 <= w < |ws| ==> !ws[w].Failing? && !ws[w].Dead?
  {
    if ws != [] {
      CountsAddUp(ws[1..]);
      assert forall w :: 0 < w < |ws| ==> ws[w] == ws[1..][w - 1];
      assert (forall w :: 0 <= w < |ws[1..]| ==> !ws[1..][w].Failing? && !ws[1..][w].Dead?) ==>
        forall w :: 0 < w < |ws| ==> !ws[w].Failing? && !ws[w].Dead?;
      assert (forall w :: 0 <= w < |ws| ==> !ws[w].Failing? && !ws[w].Dead?) ==>
        forall w :: 0 <= w < |ws[1..]| ==> ws[1..][w] == ws[w + 1] && !ws[1..][w].Failing? && !ws[1..][w].Dead?;
    }
  }

  /** In every run `on_road_num` counts the requests in flight, the workers asleep after an exception and the lost
      ones, never more than there are workers; so it is the number of requests in flight if and only if no worker
      sleeps after an exception or is lost. */
  lemma OnRoadIsInFlightIffNoneAsleep(settings: Settings, steps: seq<Step>)
    requires Legal(settings, steps)
    ensures var s := Run(settings, steps);
      && s.onRoad == InFlight(s.workers) + Sleeping(s.workers) + Lost(s.workers) <= settings.workers
      && (s.onRoad == InFlight(s.workers) <==>
            forall w :: 0 <= w < |s.workers| ==> !s.workers[w].Failing? && !s.workers[w].Dead?)
  {
    CountsAddUp(Run(settings, steps).workers);
  }

  /** The exception is real: a request that raised is still counted while its worker sleeps, and again, next to it, once
      another worker retries the number. */
  lemma SleepingIsCounted(settings: Settings, body: Body, now: real)
    requires settings.workers == 2 && FitsHeader(1, body, 0)
    ensures var steps := [Start(0, now), Collected(0, body, now, true), Raise(0)];
      && Legal(settings, steps)
      && Run(settings, steps).onRoad == 1 && InFlight(Run(settings, steps).workers) == 0
      && Legal(settings, steps + [Start(1, now)])
      && var s := Run(settings, steps + [Start(1, now)]);
         s.onRoad == 2 && InFlight(s.workers) == 1 && s.requests == [(1, body), (1, body)]
  {
    hide Legal, Run, Inv, Apply, Enabled, InFlight, FitsHeader;
    var s1, s2, s3, s4 := Start(0, now), Collected(0, body, now, true), Raise(0), Start(1, now);
    var r1, r2, r3, r4 := SleepingStates(settings, body, now);
    NoStepsYet(settings);
    assert [] + [s1] == [s1] && [s1] + [s2] == [s1, s2] && [s1, s2] + [s3] == [s1, s2, s3];
    RunSnoc(settings, [], s1);
    RunSnoc(settings, [s1], s2);
    RunSnoc(settings, [s1, s2], s3);
    RunSnoc(settings, [s1, s2, s3], s4);
  }

  lemma NoStepsYet(settings: Settings)
    ensures Legal(settings, []) && Run(settings, []) == NewSession(settings)
  {
  }

  /** The states of the run above. */
  lemma SleepingStates(settings: Settings, body: Body, now: real) returns (r1: Trips, r2: Trips, r3: Trips, r4: Trips)
    requires settings.workers == 2 && FitsHeader(1, body, 0)
    ensures var r0 := NewSession(settings);
      r0.table.Listing() && Enabled(r0, Start(0, now)) && r1 == Apply(r0, Start(0, now))
    ensures var step := Collected(0, body, now, true);
      r1.table.Listing() && Enabled(r1, step) && r2 == Apply(r1, step)
    ensures r2.table.Listing() && Enabled(r2, Raise(0)) && r3 == Apply(r2, Raise(0))
    ensures r3.table.Listing() && Enabled(r3, Start(1, now)) && r4 == Apply(r3, Start(1, now))
    ensures r3.onRoad == 1 && InFlight(r3.workers) == 0
    ensures r4.onRoad == 2 && InFlight(r4.workers) == 1 && r4.requests == [(1, body), (1, body)]
  {
    hide FitsHeader, InFlight, Accepted, EndsSession, Completed, MarkLate, ReportOf;
    var r0 := NewSession(settings);
    assert r0.workers == [Idle, Idle];
    r1 := Apply(r0, Start(0, now));
    assert r1.workers == [Collecting, Idle];
    r2 := Apply(r1, Collected(0, body, now, true));
    assert r2.workers == [OnRoad(1, body), Idle] && r2.table.keys == [1] && r2.table.at.Keys == {1};
    r3, r4 := RaisedThenRetried(r2, body, now);
  }

  lemma RaisedThenRetried(r2: Trips, body: Body, now: real) returns (r3: Trips, r4: Trips)
    requires r2.workers == [OnRoad(1, body), Idle] && r2.onRoad == 1 && r2.requests == [(1, body)]
    requires r2.table.keys == [1] && r2.table.at.Keys == {1} && r2.table.at[1].body == body && FitsHeader(1, body, 0)
    ensures r2.table.Listing() && Enabled(r2, Raise(0)) && r3 == Apply(r2, Raise(0))
    ensures r3.table.Listing() && Enabled(r3, Start(1, now)) && r4 == Apply(r3, Start(1, now))
    ensures r3.onRoad == 1 && InFlight(r3.workers) == 0
    ensures r4.onRoad == 2 && InFlight(r4.workers) == 1 && r4.requests == [(1, body), (1, body)]
  {
    hide FitsHeader, InFlight, Accepted, EndsSession, Opened, Completed, MarkLate, ReportOf;
    r3 := Apply(r2, Raise(0));
    assert r3.workers == [Failing(1), Idle] && r3.table.keys == [1] && r3.table.at.Keys == {1};
    assert r3.table.at[1].stat == Timeout && r3.table.at[1].body == body;
    r4 := Apply(r3, Start(1, now));
    assert r4.workers == [Failing(1), OnRoad(1, body)];
    TwoWorkers(Failing(1), Idle);
    TwoWorkers(Failing(1), OnRoad(1, body));
  }

  lemma TwoWorkers(a: Worker, b: Worker)
    ensures InFlight([a, b]) == (if a.OnRoad? then 1 else 0) + (if b.OnRoad? then 1 else 0)
  {
    assert [a, b][1..] == [b] && [b][1..] == [];
    assert InFlight([]) == 0;
    assert InFlight([b]) == if b.OnRoad? then 1 else 0;
  }

  /** Every request ever sent for a number carried the same bytes, in every run. */
  lemma RetriesCarryTheSameBytes(settings: Settings, steps: seq<Step>, i: nat, j: nat)
    requires Legal(settings, steps)
    requires i < |Run(settings, steps).requests| && j < |Run(settings, steps).requests|
    requires Run(settings, steps).requests[i].0 == Run(settings, steps).requests[j].0
    ensures Run(settings, steps).requests[i].1 == Run(settings, steps).requests[j].1
  {
  }

  /** A reply that completes its round trip, byte by byte: status 200, the announced length if any was announced, and a
      data reply of this version of any six sections with at most 32 bytes behind them. */
  ghost predicate Completes(a: Answer, version: nat) {
    && a.status == 200 && (a.announced == 0 || a.announced == |a.content|)
    && exists head, parts, trailer :: IsReply(a.content, version, head, parts, trailer) && |trailer| <= 32
  }

  lemma AcceptedCompletes(a: Answer, version: nat)
    ensures Accepted(a, version) <==> Completes(a, version)
  {
    hide IsReply, LengthSum, WellFormed;
    if Accepted(a, version) {
      var head, parts, trailer := WellFormedIsBuilt(a.content, version);
    }
    if head, parts, trailer :| IsReply(a.content, version, head, parts, trailer) && |trailer| <= 32 {
      BuiltIsWellFormed(a.content, version, head, parts, trailer);
      HasHead(a.content, version);
    }
  }

  lemma HasHead(content: bytes, version: nat)
    requires WellFormed(content, version)
    ensures |content| >= HEAD_LEN
  {
  }

  /** An entry leaves the table if and only if a worker that has its request out receives a reply that came whole, is
      built of a right head and six sections, and has at most 32 bytes after them. */
  lemma EntryLeavesIffReplyWellFormed(settings: Settings, steps: seq<Step>, step: Step, no: nat)
    requires Legal(settings, steps) && Enabled(Run(settings, steps), step)
    requires no in Run(settings, steps).table.at
    ensures Legal(settings, steps + [step])
    ensures no !in Run(settings, steps + [step]).table.at <==>
      && step.Answered? && Completes(step.answer, settings.version)
      && Run(settings, steps).workers[step.w] == OnRoad(no, Run(settings, steps).bodies[no])
  {
    hide Inv, Legal, Enabled, Apply, Accepted, Completes;
    RunSnoc(settings, steps, step);
    StepRemoves(Run(settings, steps), step, no);
    if step.Answered? {
      AcceptedCompletes(step.answer, settings.version);
    }
  }

  lemma StepRemoves(s: Trips, step: Step, no: nat)
    requires Inv(s) && Enabled(s, step) && no in s.table.at
    ensures s.table.Listing() && no in s.bodies
    ensures no !in Apply(s, step).table.at <==>
      step.Answered? && Accepted(step.answer, s.settings.version) && s.workers[step.w] == OnRoad(no, s.bodies[no])
  {
    hide NoOrphan, OnRoadCount, Distinct, Accepted, EndsSession, FitsHeader, Opened, Completed, MarkLate, ReportOf;
    TableListed(s);
    match step {
      case Start(_, _) => FirstTimedOutIsFirst(s.table.keys, s.table.at);
      case Collected(_, body, now, _) => OpenedIsNew(s.table, s.lastNo, body, now, s.settings.roundtripTimeout);
      case Answered(w, answer) => CompletedRemovesOnly(s.table, s.lastNo, s.workers[w].no);
      case CheckLate(late) => MarkLateOnlyMarks(s.table, s.table.keys, late);
      case Report(rcvd, sent, serverTime, time) => ReportOnlyMarks(s.table, rcvd, sent, serverTime, time);
      case _ =>
    }
  }

  /** The step brings an accepted reply. */
  predicate Brings(step: Step, version: nat) {
    step.Answered? && Accepted(step.answer, version)
  }

  /** ... after a round trip that took so long. */
  predicate AnsweredIn(step: Step, took: real) {
    step.Answered? && step.answer.took == took
  }

  lemma StepDeviation(s: Trips, step: Step)
    requires s.table.Listing() && Enabled(s, step)
    ensures Apply(s, step).deviation ==
      if Brings(step, s.settings.version) && step.answer.took < s.deviation then step.answer.took else s.deviation
    ensures Brings(step, s.settings.version) ==> AnsweredIn(step, step.answer.took)
  {
    hide FitsHeader, Accepted, EndsSession, Opened, Completed, MarkLate, ReportOf;
  }

  /** `server_time_deviation` is the shortest round trip that brought an accepted reply, in every run. */
  lemma {:induction false} DeviationIsShortest(settings: Settings, steps: seq<Step>)
    requires Legal(settings, steps)
    ensures var d := Run(settings, steps).deviation;
      && d <= NO_DEVIATION
      && (forall j, took :: 0 <= j < |steps| && Brings(steps[j], settings.version) && AnsweredIn(steps[j], took) ==>
            d <= took)
      && (d == NO_DEVIATION
          || exists j :: 0 <= j < |steps| && Brings(steps[j], settings.version) && AnsweredIn(steps[j], d))
    decreases |steps|
  {
    hide Apply, Enabled, Inv, Brings;
    if steps != [] {
      var before := Before(steps);
      DeviationIsShortest(settings, before);
      assert forall j :: 0 <= j < |before| ==> before[j] == steps[j];
      ListingOf(Run(settings, before));
      StepDeviation(Run(settings, before), steps[|steps| - 1]);
      if Run(settings, before).deviation != NO_DEVIATION {
        var j :| 0 <= j < |before| && Brings(before[j], settings.version)
          && AnsweredIn(before[j], Run(settings, before).deviation);
        assert Brings(steps[j], settings.version) && AnsweredIn(steps[j], Run(settings, before).deviation);
      }
    }
  }

  lemma ListingOf(s: Trips)
    requires Inv(s)
    ensures s.table.Listing()
  {
  }

  /** After a reply its worker can start again at once if and only if the reply came with status 200 but is not
      accepted, and nobody holds the lock; after another status it sleeps first, and an accepted reply it works on. */
  lemma StartsAtOnceIff(s: Trips, w: nat, answer: Answer, now: real)
    requires s.table.Listing() && Enabled(s, Answered(w, answer))
    ensures Enabled(Apply(s, Answered(w, answer)), Start(w, now)) <==>
      answer.status == 200 && !Accepted(answer, s.settings.version) && LockFree(s.workers)
    ensures !Enabled(Apply(s, Answered(w, answer)), Start(w, now)) && LockFree(s.workers) ==>
      Enabled(Apply(s, Answered(w, answer)), Finish(w))
  {
    hide EndsSession, WellFormed, LengthSum;
    var s' := Apply(s, Answered(w, answer));
    assert forall i :: 0 <= i < |s.workers| ==> (s'.workers[i] == Collecting <==> s.workers[i] == Collecting);
  }
}
