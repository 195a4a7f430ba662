/** What becomes of a number that does not fit the request head, and of replies that carry a digest: concrete runs that
    begin as every session does, and what holds in all runs. */
module LostWorkers {
  import opened Buffers
  import opened Bytes
  import opened Dicts
  import Receiver
  import opened RoundTrips
  import opened Transfers
  import opened Window

  /** The first round trip of a session; the server's time is not known yet, so it asks for an answer at once. */
  function FirstTrip(first: Body, answer: Answer, now: real): seq<Step> {
    [Start(0, now), Collected(0, first, now, false), Answered(0, answer), Finish(0)]
  }

  /** The session after it. */
  function Rested(settings: Settings, first: Body, took: real): Trips {
    Trips(settings, Dict([], map[]), 1, 0, if took < NO_DEVIATION then took else NO_DEVIATION,
          seq(settings.workers, i => Idle), map[1 := first], [(1, first)])
  }

  /** The session while its first request is out. */
  lemma FirstRequest(settings: Settings, first: Body, now: real)
    requires settings.workers >= 1 && settings.maxDeviation < NO_DEVIATION && FitsHeader(1, first, 0)
    ensures var steps := [Start(0, now), Collected(0, first, now, false)];
      && Legal(settings, steps)
      && var s := Run(settings, steps);
         && s.table == Departed(Opened(Dict([], map[]), 1, first, now, settings.roundtripTimeout), 1, 0)
         && s.table.keys == [1] && s.table.at.Keys == {1} && s.table.at[1].stat == Request
         && s.lastNo == 1 && s.onRoad == 1 && s.deviation == NO_DEVIATION
         && s.workers == seq(settings.workers, i => Idle)[0 := OnRoad(1, first)]
         && s.bodies == map[1 := first] && s.requests == [(1, first)]
  {
    hide FitsHeader, Inv;
    var s1, s2 := Start(0, now), Collected(0, first, now, false);
    RunSnoc(settings, [], s1);
    assert [] + [s1] == [s1] && [s1] + [s2] == [s1, s2];
    var r := Run(settings, [s1]);
    assert r.workers == seq(settings.workers, i => Idle)[0 := Collecting];
    RunSnoc(settings, [s1], s2);
  }

  lemma AcceptedGoesOn(answer: Answer, version: nat)
    requires Accepted(answer, version)
    ensures !EndsSession(answer, version)
  {
  }

  lemma AfterFirstTrip(settings: Settings, first: Body, answer: Answer, now: real)
    requires settings.workers >= 1 && settings.maxDeviation < NO_DEVIATION && FitsHeader(1, first, 0)
    requires Accepted(answer, settings.version)
    ensures Legal(settings, FirstTrip(first, answer, now))
    ensures Run(settings, FirstTrip(first, answer, now)) == Rested(settings, first, answer.took)
  {
    hide FitsHeader, Inv, Accepted, EndsSession, Legal, Run, Opened;
    FirstRequest(settings, first, now);
    AcceptedGoesOn(answer, settings.version);
    var s1, s2, s3, s4 := Start(0, now), Collected(0, first, now, false), Answered(0, answer), Finish(0);
    RunSnoc(settings, [s1, s2], s3);
    assert [s1, s2] + [s3] == [s1, s2, s3] && [s1, s2, s3] + [s4] == FirstTrip(first, answer, now);
    var r := Run(settings, [s1, s2, s3]);
    assert r.workers == seq(settings.workers, i => Idle)[0 := Working(1)];
    RunSnoc(settings, [s1, s2, s3], s4);
    assert Without([1], 1) == [];
    assert Run(settings, FirstTrip(first, answer, now)).table == Dict([], map[]);
    assert seq(settings.workers, i => Idle)[0 := Idle] == seq(settings.workers, i => Idle);
  }

  /** The second number is collected with bytes or a timeout that do not fit. */
  function MisfitSteps(first: Body, answer: Answer, body: Body, now: real, later: real, backlog: bool): seq<Step> {
    FirstTrip(first, answer, now) + [Start(0, later)] + [Collected(0, body, later, backlog)]
  }

  lemma SecondIsLost(settings: Settings, first: Body, answer: Answer, body: Body, now: real, later: real, backlog: bool)
    requires settings.workers >= 1 && settings.maxDeviation < NO_DEVIATION && FitsHeader(1, first, 0)
    requires Accepted(answer, settings.version)
    requires !FitsHeader(2, body, AskedTimeout(Rested(settings, first, answer.took), backlog))
    ensures var steps := MisfitSteps(first, answer, body, now, later, backlog);
      && Legal(settings, steps)
      && var s := Run(settings, steps);
         LostSoFar(s, settings, first, body, 1, later, AskedTimeout(Rested(settings, first, answer.took), backlog))
  {
    hide FitsHeader, Inv, Accepted, EndsSession, Legal, Run;
    AfterFirstTrip(settings, first, answer, now);
    var trip, s1, s2 := FirstTrip(first, answer, now), Start(0, later), Collected(0, body, later, backlog);
    RunSnoc(settings, trip, s1);
    var r := Run(settings, trip + [s1]);
    assert r.workers == seq(settings.workers, i => Idle)[0 := Collecting];
    RunSnoc(settings, trip + [s1], s2);
    var s := Run(settings, MisfitSteps(first, answer, body, now, later, backlog));
    assert s.workers == seq(settings.workers, i => Idle)[0 := Dead(2, body)];
  }

  /** The second number has taken `n` workers with it; nothing but the first request was ever sent. */
  ghost predicate LostSoFar(s: Trips, settings: Settings, first: Body, body: Body, n: nat, now: real, asked: int) {
    && s.settings == settings && s.lastNo == 2 && s.onRoad == n && s.requests == [(1, first)]
    && s.table.keys == [2] && s.table.at.Keys == {2}
    && s.table.at[2].body == body && s.table.at[2].stat != Timeout
    && s.table.at[2].startTime == now && s.table.at[2].serverTimeout == asked
    && 2 in s.bodies && s.bodies[2] == body
    && |s.workers| == settings.workers
    && forall w :: 0 <= w < |s.workers| ==> s.workers[w] == if w < n then Dead(2, body) else Idle
  }

  /** A `roundtrip_timeout` that one byte cannot hold loses a worker as soon as the server's time is known and nothing
      is pressing. */
  lemma TimeoutLosesWorker(settings: Settings, first: Body, answer: Answer, body: Body, now: real, later: real)
    requires settings.workers >= 1 && settings.workers >= settings.minOnRoad && settings.maxDeviation < NO_DEVIATION
    requires FitsHeader(1, first, 0) && Accepted(answer, settings.version) && answer.took <= settings.maxDeviation
    requires settings.roundtripTimeout >= 256
    ensures var steps := MisfitSteps(first, answer, body, now, later, false);
      && Legal(settings, steps)
      && Run(settings, steps).workers[0] == Dead(2, body)
      && Run(settings, steps).onRoad == 1 && Run(settings, steps).requests == [(1, first)]
  {
    SecondIsLost(settings, first, answer, body, now, later, false);
  }

  /** An ack fits its length field only up to 16382 blocks held out of order. */
  lemma AckFitsHeaderIff(no: nat, body: Body, r: Receiver.Recv)
    requires r.next >= 1 && body.ack == AckSection(r)
    requires FitsHeader(no, body.(ack := []), 0)
    ensures FitsHeader(no, body, 0) <==> |r.blocks.keys| <= 16382
  {
    AckLength(r);
  }

  /** The checker marks the lost number, and the next worker retries it. */
  function RetrySteps(settings: Settings, w: nat, at: real, limit: real): seq<Step> {
    [CheckLate(TooOld(at, limit))] + [Start(w, at)]
  }

  lemma RetryIsLost(settings: Settings, steps: seq<Step>, first: Body, body: Body, w: nat, now: real, asked: int,
    at: real, limit: real)
    requires Legal(settings, steps) && LostSoFar(Run(settings, steps), settings, first, body, w, now, asked)
    requires w < settings.workers && !FitsHeader(2, body, 0) && now + asked as real < at - limit
    ensures Legal(settings, steps + RetrySteps(settings, w, at, limit))
    ensures LostSoFar(Run(settings, steps + RetrySteps(settings, w, at, limit)), settings, first, body, w + 1, at, 0)
  {
    hide FitsHeader, Inv, Legal, Run;
    var s1, s2 := CheckLate(TooOld(at, limit)), Start(w, at);
    RunSnoc(settings, steps, s1);
    var r := Run(settings, steps + [s1]);
    assert r.table == TimedOut(Run(settings, steps).table, 2) by { MarksTheOne(Run(settings, steps).table, at, limit); }
    RunSnoc(settings, steps + [s1], s2);
    assert steps + [s1] + [s2] == steps + RetrySteps(settings, w, at, limit);
  }

  lemma MarksTheOne(t: Table, at: real, limit: real)
    requires t.keys == [2] && t.at.Keys == {2} && t.at[2].stat != Timeout
    requires t.at[2].startTime + t.at[2].serverTimeout as real < at - limit
    ensures MarkLate(t, t.keys, TooOld(at, limit)) == TimedOut(t, 2)
  {
    assert t.keys[1..] == [];
  }

  /** When worker `w` tries: `limit` and a second after the one before. */
  function TimeOf(later: real, limit: real, w: nat): real {
    if w == 0 then later else TimeOf(later, limit, w - 1) + limit + 1.0
  }

  /** Every worker in turn. */
  function LosingSteps(settings: Settings, first: Body, answer: Answer, body: Body, now: real, later: real, limit: real,
    n: nat): seq<Step>
  {
    if n <= 1 then MisfitSteps(first, answer, body, now, later, true)
    else
      LosingSteps(settings, first, answer, body, now, later, limit, n - 1)
      + RetrySteps(settings, n - 1, TimeOf(later, limit, n - 1), limit)
  }

  lemma {:induction false} LosesOneByOne(settings: Settings, first: Body, answer: Answer, body: Body, now: real,
    later: real, limit: real, n: nat)
    requires 1 <= n <= settings.workers && settings.maxDeviation < NO_DEVIATION && FitsHeader(1, first, 0)
    requires Accepted(answer, settings.version) && !FitsHeader(2, body, 0)
    ensures var steps := LosingSteps(settings, first, answer, body, now, later, limit, n);
      && Legal(settings, steps)
      && LostSoFar(Run(settings, steps), settings, first, body, n, TimeOf(later, limit, n - 1), 0)
  {
    hide FitsHeader, Accepted, Legal, Run, LostSoFar;
    if n == 1 {
      SecondIsLost(settings, first, answer, body, now, later, true);
    } else {
      LosesOneByOne(settings, first, answer, body, now, later, limit, n - 1);
      RetryIsLost(settings, LosingSteps(settings, first, answer, body, now, later, limit, n - 1), first, body, n - 1,
        TimeOf(later, limit, n - 2), 0, TimeOf(later, limit, n - 1), limit);
    }
  }

  /** Bytes that do not fit lose every worker there is: the first in sending them, each other one in retrying them. */
  lemma MisfitLosesEveryWorker(settings: Settings, first: Body, answer: Answer, body: Body, now: real, later: real,
    limit: real)
    requires settings.workers >= 1 && settings.maxDeviation < NO_DEVIATION && FitsHeader(1, first, 0)
    requires Accepted(answer, settings.version) && !FitsHeader(2, body, 0)
    ensures var steps := LosingSteps(settings, first, answer, body, now, later, limit, settings.workers);
      && Legal(settings, steps)
      && (forall w :: 0 <= w < settings.workers ==> Run(settings, steps).workers[w] == Dead(2, body))
      && Run(settings, steps).onRoad == settings.workers && Run(settings, steps).requests == [(1, first)]
  {
    LosesOneByOne(settings, first, answer, body, now, later, limit, settings.workers);
  }

  /** The fate of bytes that do not fit, and of those that do. */
  ghost predicate FateOk(s: Trips) {
    && (forall w :: 0 <= w < |s.workers| && s.workers[w].OnRoad? ==> FitsHeader(s.workers[w].no, s.workers[w].body, 0))
    && (forall i :: 0 <= i < |s.requests| ==> FitsHeader(s.requests[i].0, s.requests[i].1, 0))
    && (forall no :: no in s.bodies && !FitsHeader(no, s.bodies[no], 0) ==> no in s.table.at)
    && LostTwice(s.workers)
  }

  /** Two workers are lost to the same number only if its bytes do not fit. */
  ghost predicate LostTwice(ws: seq<Worker>) {
    forall v, w :: 0 <= v < w < |ws| && ws[v].Dead? && ws[w].Dead? && ws[v].no == ws[w].no ==>
      !FitsHeader(ws[w].no, ws[w].body, 0)
  }

  lemma DepartFate(s: Trips, t: Table, lastNo: nat, bodies: map<nat, Body>, w: nat, no: nat, body: Body, asked: int)
    requires w < |s.workers| && !s.workers[w].Dead? && !s.workers[w].OnRoad? && FateOk(s)
    requires forall k :: k in bodies && !FitsHeader(k, bodies[k], 0) ==> k in t.at
    requires asked == 0 || forall v :: 0 <= v < |s.workers| && s.workers[v].Dead? ==> s.workers[v].no != no
    requires forall v :: 0 <= v < |s.workers| && s.workers[v].Dead? && s.workers[v].no == no ==>
      s.workers[v].body == body
    ensures FateOk(Depart(s.(table := t, lastNo := lastNo, bodies := bodies), w, no, body, asked))
  {
    var s' := Depart(s.(table := t, lastNo := lastNo, bodies := bodies), w, no, body, asked);
    if FitsHeader(no, body, asked) {
      FitsAtOnce(no, body, asked);
    }
    assert LostTwice(s'.workers) by { DepartLost(s.workers, w, no, body, asked); }
  }

  lemma DepartLost(ws: seq<Worker>, w: nat, no: nat, body: Body, asked: int)
    requires w < |ws| && !ws[w].Dead? && LostTwice(ws)
    requires asked == 0 || forall v :: 0 <= v < |ws| && ws[v].Dead? ==> ws[v].no != no
    requires forall v :: 0 <= v < |ws| && ws[v].Dead? && ws[v].no == no ==> ws[v].body == body
    ensures LostTwice(ws[w := if FitsHeader(no, body, asked) then OnRoad(no, body) else Dead(no, body)])
  {
    hide FitsHeader;
  }

  lemma StepFate(s: Trips, step: Step)
    requires Inv(s) && Enabled(s, step) && FateOk(s)
    ensures s.table.Listing() && FateOk(Apply(s, step))
  {
    hide FitsHeader, Accepted, EndsSession, NoOrphan, OnRoadCount, Opened, Completed, MarkLate, ReportOf, Departed,
      Distinct, FateOk;
    TableListed(s);
    match step {
      case Start(w, now) => StartFate(s, w, now);
      case Collected(w, body, now, backlog) => CollectedFate(s, w, body, now, backlog);
      case Raise(w) => MoveFate(s, Apply(s, step), w, Failing(s.workers[w].no));
      case Wake(w) => MoveFate(s, Apply(s, step), w, Idle);
      case Answered(w, answer) =>
        FateParts(s);
        CompletedRemovesOnly(s.table, s.lastNo, s.workers[w].no);
        MoveFate(s, Apply(s, step), w, Apply(s, step).workers[w]);
      case WorkFails(w) => MoveFate(s, Apply(s, step), w, Idle);
      case Finish(w) => MoveFate(s, Apply(s, step), w, Idle);
      case CheckLate(late) =>
        MarkLateOnlyMarks(s.table, s.table.keys, late);
        SameFate(s, Apply(s, step));
      case Report(rcvd, sent, serverTime, time) =>
        ReportOnlyMarks(s.table, rcvd, sent, serverTime, time);
        SameFate(s, Apply(s, step));
    }
  }

  lemma StartFate(s: Trips, w: nat, now: real)
    requires Inv(s) && Enabled(s, Start(w, now)) && FateOk(s)
    ensures s.table.Listing() && FateOk(Apply(s, Start(w, now)))
  {
    hide FitsHeader, NoOrphan, OnRoadCount, Distinct, FateOk;
    TableListed(s);
    FirstTimedOutIsFirst(s.table.keys, s.table.at);
    match FirstTimedOut(s.table.keys, s.table.at) {
      case None => MoveFate(s, Apply(s, Start(w, now)), w, Collecting);
      case Some(no) =>
        FateParts(s);
        DepartFate(s, Retried(s.table, no, now), s.lastNo, s.bodies, w, no, s.bodies[no], 0);
    }
  }

  lemma CollectedFate(s: Trips, w: nat, body: Body, now: real, backlog: bool)
    requires Inv(s) && Enabled(s, Collected(w, body, now, backlog)) && FateOk(s)
    ensures s.table.Listing() && FateOk(Apply(s, Collected(w, body, now, backlog)))
  {
    hide FitsHeader, NoOrphan, OnRoadCount, Distinct, FateOk, Opened;
    TableListed(s);
    FateParts(s);
    var no := s.lastNo + 1;
    OpenedIsNew(s.table, s.lastNo, body, now, s.settings.roundtripTimeout);
    var t := Opened(s.table, no, body, now, s.settings.roundtripTimeout);
    DepartFate(s, t, no, s.bodies[no := body], w, no, body, AskedTimeout(s, backlog));
  }

  lemma FateParts(s: Trips)
    requires FateOk(s)
    ensures forall w :: 0 <= w < |s.workers| && s.workers[w].OnRoad? ==>
      FitsHeader(s.workers[w].no, s.workers[w].body, 0)
    ensures forall no :: no in s.bodies && !FitsHeader(no, s.bodies[no], 0) ==> no in s.table.at
  {
  }

  /** A worker that moves to a place without a request, with no number leaving that does not fit. */
  lemma MoveFate(s: Trips, s': Trips, w: nat, pc: Worker)
    requires FateOk(s) && w < |s.workers| && s'.workers == s.workers[w := pc] && !pc.OnRoad? && !pc.Dead?
    requires s'.requests == s.requests && s'.bodies == s.bodies
    requires forall no :: no in s.bodies && no in s.table.at && !FitsHeader(no, s.bodies[no], 0) ==> no in s'.table.at
    ensures FateOk(s')
  {
    hide FitsHeader;
  }

  lemma SameFate(s: Trips, s': Trips)
    requires FateOk(s) && s'.workers == s.workers && s'.requests == s.requests && s'.bodies == s.bodies
    requires s'.table.at.Keys == s.table.at.Keys
    ensures FateOk(s')
  {
    hide FitsHeader;
  }

  lemma {:induction false} RunFate(settings: Settings, steps: seq<Step>)
    requires Legal(settings, steps)
    ensures FateOk(Run(settings, steps))
    decreases |steps|
  {
    hide Apply, Enabled, Inv, FitsHeader;
    if steps != [] {
      RunFate(settings, Before(steps));
      StepFate(Run(settings, Before(steps)), steps[|steps| - 1]);
    }
  }

  /** In every run a number whose bytes do not fit is never sent and stays in the table for good; and no number whose
      bytes do fit loses more than one worker, because a retry always asks for an answer at once. */
  lemma MisfitNeverLeaves(settings: Settings, steps: seq<Step>, no: nat)
    requires Legal(settings, steps) && no in Run(settings, steps).bodies
    ensures var s := Run(settings, steps);
      if FitsHeader(no, s.bodies[no], 0) then
        forall v, w :: 0 <= v < w < |s.workers| ==>
          !(s.workers[v] == Dead(no, s.bodies[no]) && s.workers[w] == Dead(no, s.bodies[no]))
      else
        no in s.table.at && forall i :: 0 <= i < |s.requests| ==> s.requests[i].0 != no
  {
    hide FitsHeader;
    RunFate(settings, steps);
  }

  /** While all bytes fit, timeouts alone lose no more workers than leave `min_on_road` of them, less one. */
  ghost predicate LostFew(s: Trips) {
    BodiesFit(s) && Lost(s.workers) > 0 ==> Lost(s.workers) + s.settings.minOnRoad <= s.settings.workers + 1
  }

  lemma {:induction false} LostUpdate(ws: seq<Worker>, i: nat, w: Worker)
    requires i < |ws|
    ensures Lost(ws[i := w]) == Lost(ws) - (if ws[i].Dead? then 1 else 0) + (if w.Dead? then 1 else 0)
  {
    if i > 0 {
      LostUpdate(ws[1..], i - 1, w);
      assert ws[i := w][1..] == ws[1..][i - 1 := w];
    } else {
      assert ws[0 := w][1..] == ws[1..];
    }
  }

  lemma StepLosesFew(s: Trips, step: Step)
    requires Inv(s) && Enabled(s, step) && LostFew(s) && |s.workers| == s.settings.workers
    ensures s.table.Listing() && LostFew(Apply(s, step))
  {
    hide FitsHeader, Accepted, EndsSession, NoOrphan, OnRoadCount, Opened, Completed, MarkLate, ReportOf, Departed,
      Distinct, Lost;
    TableListed(s);
    var s' := Apply(s, step);
    FewerBefore(s, step);
    match step {
      case Start(w, now) =>
        FirstTimedOutIsFirst(s.table.keys, s.table.at);
        LostUpdate(s.workers, w, s'.workers[w]);
      case Collected(w, body, now, backlog) =>
        LostUpdate(s.workers, w, s'.workers[w]);
        CountsAddUp(s.workers);
        OnRoadIs(s);
        assert s'.bodies[s.lastNo + 1] == body && s.lastNo + 1 in s'.bodies;
      case Raise(w) => LostUpdate(s.workers, w, s'.workers[w]);
      case Wake(w) => LostUpdate(s.workers, w, s'.workers[w]);
      case Answered(w, answer) => LostUpdate(s.workers, w, s'.workers[w]);
      case WorkFails(w) => LostUpdate(s.workers, w, s'.workers[w]);
      case Finish(w) => LostUpdate(s.workers, w, s'.workers[w]);
      case CheckLate(_) =>
      case Report(_, _, _, _) =>
    }
  }

  lemma OnRoadIs(s: Trips)
    requires Inv(s)
    ensures s.onRoad == OnRoadCount(s.workers)
  {
  }

  /** Bodies only come in. */
  lemma FewerBefore(s: Trips, step: Step)
    requires Inv(s) && Enabled(s, step) && s.table.Listing()
    ensures BodiesFit(Apply(s, step)) ==> BodiesFit(s)
  {
    hide FitsHeader, Accepted, EndsSession, NoOrphan, OnRoadCount, Opened, Completed, MarkLate, ReportOf, Departed,
      Distinct;
    var s' := Apply(s, step);
    assert forall no :: no in s.bodies ==> no in s'.bodies && s'.bodies[no] == s.bodies[no];
  }

  lemma {:induction false} RunLosesFew(settings: Settings, steps: seq<Step>)
    requires Legal(settings, steps)
    ensures LostFew(Run(settings, steps))
    decreases |steps|
  {
    hide Apply, Enabled, Inv, BodiesFit, Lost;
    if steps == [] {
      NobodyLost(NewSession(settings).workers);
    } else {
      RunLosesFew(settings, Before(steps));
      StepLosesFew(Run(settings, Before(steps)), steps[|steps| - 1]);
    }
  }

  lemma NobodyLost(ws: seq<Worker>)
    requires forall w :: 0 <= w < |ws| ==> ws[w] == Idle
    ensures Lost(ws) == 0
  {
    CountsAddUp(ws);
  }

  /** In every run in which all bytes fit, whatever timeout is configured, the workers lost leave all but one of
      `min_on_road`: a lost worker counts as on the road, so the others soon stop asking for the timeout. */
  lemma TimeoutSparesWorkers(settings: Settings, steps: seq<Step>)
    requires Legal(settings, steps) && 1 <= settings.minOnRoad <= settings.workers
    requires forall no :: no in Run(settings, steps).bodies ==> FitsHeader(no, Run(settings, steps).bodies[no], 0)
    ensures settings.workers - Lost(Run(settings, steps).workers) >= settings.minOnRoad - 1
  {
    hide FitsHeader, Inv, Lost;
    RunLosesFew(settings, steps);
  }

  /** A server that puts a digest behind its sections is never heard: of the replies built from any six sections, one
      completes its round trip if and only if at most 32 bytes follow; with more, right digest or not, the number is
      marked for retry. */
  lemma ReplyCompletesIffNoDigest(settings: Settings, body: Body, now: real, head: bytes, parts: seq<bytes>,
    trailer: bytes, took: real)
    requires settings.workers >= 1 && settings.maxDeviation < NO_DEVIATION && FitsHeader(1, body, 0)
    requires IsReply(BuildReply(head, parts, trailer), settings.version, head, parts, trailer)
    ensures var content := BuildReply(head, parts, trailer);
      var sent := [Start(0, now), Collected(0, body, now, false)];
      var steps := sent + [Answered(0, Answer(200, |content|, content, took))];
      && Legal(settings, sent) && 1 in Run(settings, sent).table.at && Legal(settings, steps)
      && (1 !in Run(settings, steps).table.at <==> |trailer| <= 32)
      && (|trailer| > 32 ==> 1 in Run(settings, steps).table.at && Run(settings, steps).table.at[1].stat == Timeout)
  {
    hide FitsHeader, Inv, Legal, Run, WellFormed, LengthSum, Opened;
    var content := BuildReply(head, parts, trailer);
    FirstRequest(settings, body, now);
    BuiltIsWellFormed(content, settings.version, head, parts, trailer);
    WholeReply(content, settings.version, took);
    var answer := Answer(200, |content|, content, took);
    RunSnoc(settings, [Start(0, now), Collected(0, body, now, false)], Answered(0, answer));
  }

  lemma WholeReply(content: bytes, version: nat, took: real)
    requires WellFormed(content, version)
    ensures CameWhole(Answer(200, |content|, content, took))
    ensures !EndsSession(Answer(200, |content|, content, took), version)
  {
  }
}
