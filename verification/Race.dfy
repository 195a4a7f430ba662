/** The staggered race between connection attempts and the sockets the attempts open. */
module Race {
  import opened Wrappers

  /** An attempt is a task that has not begun, is under way, has failed, or has returned its socket. */
  datatype Phase = Ready | Running | Failed | Won

  datatype Sock = NoSock | Open | Shut

  /** `recorded` is whether the attempt's exception is in the exceptions list. */
  datatype Attempt = Attempt(phase: Phase, sock: Sock, recorded: bool)

  /** The `start_next` future the race holds: none, one not set, one that is set. */
  datatype Future = NoFuture | Unset | Set

  /** Where the race is: at its outer loop head, waiting for a future, in its `finally` with the result it will
      return, returned, and with the runner-up sockets closed by the caller. */
  datatype Pc = Starting | Waiting | Ending(winner: Option<nat>) | Over(winner: Option<nat>)
    | Closed(winner: Option<nat>)

  /** `tasks` are the attempts not yet noticed as done (in `finally`: not yet awaited). `startNext` is the future of
      the last attempt started, if the race still holds it; `fired` are the attempts whose timer has fired;
      `openSockets` the attempts with a socket in the shared set; `cancelled` whether the caller cancelled the race. */
  datatype Race = Race(n: nat, timed: bool, pc: Pc, attempts: seq<Attempt>, tasks: set<nat>,
                       startNext: Future, fired: set<nat>, openSockets: set<nat>, cancelled: bool)

  datatype Event =
    | Start
    | Exhaust
    | NoticeNext
    | NoticeTask(i: nat)
    | Cancel
    | EndTask(i: nat)
    | Return
    | CloseRunnersUp
    | Timer
    | Begin(i: nat, hasSock: bool)
    | Fail(i: nat)
    | Succeed(i: nat)

  predicate Done(a: Attempt) {
    a.phase == Failed || a.phase == Won
  }

  predicate Enabled(r: Race, e: Event) {
    match e
    case Start => r.pc == Starting && (|r.attempts| < r.n || r.tasks != {})
    case Exhaust => (r.pc == Starting || r.pc == Waiting) && |r.attempts| == r.n && r.tasks == {}
      && r.startNext == NoFuture
    case NoticeNext => r.pc == Waiting && r.startNext == Set
    case NoticeTask(i) => r.pc == Waiting && i in r.tasks && i < |r.attempts| && Done(r.attempts[i])
    case Cancel => r.pc == Waiting
    case EndTask(i) => r.pc.Ending? && i in r.tasks && i < |r.attempts|
    case Return => r.pc.Ending? && r.tasks == {}
    case CloseRunnersUp => r.pc.Over?
    case Timer => r.timed && r.startNext == Unset && r.attempts != []
    case Begin(i, _) => i < |r.attempts| && r.attempts[i].phase == Ready
    case Fail(i) => i < |r.attempts| && r.attempts[i].phase == Running
    case Succeed(i) => i < |r.attempts| && r.attempts[i].phase == Running && r.attempts[i].sock == Open
  }

  /** A failing attempt closes its socket, records its exception and sets its own future. */
  function FailAttempt(r: Race, i: nat): Race
    requires i < |r.attempts|
  {
    var a := r.attempts[i];
    r.(attempts := r.attempts[i := Attempt(Failed, if a.sock == Open then Shut else a.sock, true)],
       openSockets := r.openSockets - {i},
       startNext := if i == |r.attempts| - 1 && r.startNext == Unset then Set else r.startNext)
  }

  function Apply(r: Race, e: Event): Race
    requires Enabled(r, e)
  {
    match e
    case Start =>
      if |r.attempts| < r.n then
        r.(pc := Waiting, attempts := r.attempts + [Attempt(Ready, NoSock, false)], tasks := r.tasks + {|r.attempts|},
           startNext := Unset)
      else r.(pc := Waiting)
    case Exhaust => r.(pc := Ending(None))
    case NoticeNext => r.(pc := Starting, startNext := NoFuture)
    case NoticeTask(i) =>
      if r.attempts[i].phase == Won then r.(tasks := r.tasks - {i}, pc := Ending(Some(i)))
      else r.(tasks := r.tasks - {i})
    case Cancel => r.(pc := Ending(None), cancelled := true)
    case EndTask(i) =>
      var r' := r.(tasks := r.tasks - {i});
      if Done(r.attempts[i]) then r'
      else if r.attempts[i].phase == Running then FailAttempt(r', i)
      else r'.(attempts := r.attempts[i := Attempt(Failed, NoSock, false)])
    case Return => r.(pc := Over(r.pc.winner))
    case CloseRunnersUp =>
      r.(pc := Closed(r.pc.winner),
         attempts := seq(|r.attempts|, i requires 0 <= i < |r.attempts| =>
           if i in r.openSockets && r.pc.winner != Some(i) then r.attempts[i].(sock := Shut) else r.attempts[i]))
    case Timer => r.(startNext := Set, fired := r.fired + {|r.attempts| - 1})
    case Begin(i, hasSock) =>
      r.(attempts := r.attempts[i := Attempt(Running, if hasSock then Open else NoSock, false)],
         openSockets := if hasSock then r.openSockets + {i} else r.openSockets)
    case Fail(i) => FailAttempt(r, i)
    case Succeed(i) => r.(attempts := r.attempts[i := r.attempts[i].(phase := Won)])
  }

  function NewRace(n: nat, timed: bool): Race {
    Race(n, timed, Starting, [], {}, NoFuture, {}, {}, false)
  }

  /** The attempt after `i` may start: `i` failed or its timer fired. */
  predicate LetsNextStart(r: Race, i: nat)
    requires i < |r.attempts|
  {
    r.attempts[i].phase == Failed || i in r.fired
  }

  ghost predicate Inv(r: Race) {
    && |r.attempts| <= r.n
    && (forall i :: i in r.tasks ==> i < |r.attempts|)
    && StartedInTurn(r) && FutureOk(r) && OutcomeOk(r) && SocketsOk(r) && RecordsOk(r)
  }

  /** Only failures are recorded; until the end every failure is; and a cancelled race is ending or over. */
  ghost predicate RecordsOk(r: Race) {
    && (forall i :: 0 <= i < |r.attempts| && r.attempts[i].recorded ==> r.attempts[i].phase == Failed)
    && (r.pc == Starting || r.pc == Waiting ==>
          !r.cancelled && forall i :: 0 <= i < |r.attempts| && r.attempts[i].phase == Failed ==> r.attempts[i].recorded)
  }

  ghost predicate StartedInTurn(r: Race) {
    && (forall i :: 0 <= i < |r.attempts| - 1 ==> r.attempts[i].phase == Failed || i in r.fired)
    && (!r.timed ==> r.fired == {})
  }

  /** The held future is the last attempt's, set as soon as that attempt fails or its timer fires. */
  ghost predicate FutureOk(r: Race) {
    && (r.attempts == [] ==> r.startNext == NoFuture)
    && (r.attempts != [] && r.startNext != Unset ==> LetsNextStart(r, |r.attempts| - 1))
    && (r.attempts != [] && r.startNext == Unset && (r.pc == Starting || r.pc == Waiting)
        ==> r.attempts[|r.attempts| - 1].phase != Failed)
    && (r.pc == Starting ==> r.startNext == NoFuture)
    && (r.pc == Waiting && r.startNext == NoFuture ==> |r.attempts| == r.n)
  }

  /** What is no longer among the tasks is done; until the end no winner was passed over; and the result is right. */
  ghost predicate OutcomeOk(r: Race) {
    && (forall i :: 0 <= i < |r.attempts| && i !in r.tasks ==> Done(r.attempts[i]))
    && match r.pc
       case Starting => NoneWonOutside(r)
       case Waiting => NoneWonOutside(r)
       case Ending(w) => ResultOk(r, w)
       case Over(w) => ResultOk(r, w) && r.tasks == {}
       case Closed(w) => ResultOk(r, w) && r.tasks == {}
  }

  ghost predicate NoneWonOutside(r: Race) {
    forall i :: 0 <= i < |r.attempts| && i !in r.tasks ==> r.attempts[i].phase == Failed
  }

  predicate AllRecorded(r: Race) {
    forall i :: 0 <= i < |r.attempts| ==> r.attempts[i].phase == Failed && r.attempts[i].recorded
  }

  /** A winner succeeded, in a race not cancelled; no winner means that the race was cancelled, or that every attempt
      was started, failed, and has its exception recorded. */
  ghost predicate ResultOk(r: Race, w: Option<nat>) {
    match w
    case Some(i) => !r.cancelled && i < |r.attempts| && r.attempts[i].phase == Won
    case None => r.cancelled || (|r.attempts| == r.n && AllRecorded(r))
  }

  /** A socket is open exactly while its attempt runs with it or has won; the shared set lists the open ones. */
  ghost predicate SocketsOk(r: Race) {
    && (forall i :: i in r.openSockets ==> i < |r.attempts|)
    && forall i :: 0 <= i < |r.attempts| ==>
      var a := r.attempts[i];
      && (a.phase == Ready ==> a.sock == NoSock)
      && (a.phase == Failed ==> a.sock != Open)
      && (a.phase == Won && (!r.pc.Closed? || r.pc.winner == Some(i)) ==> a.sock == Open)
      && (!r.pc.Closed? ==> (a.sock == Open <==> i in r.openSockets))
      && (r.pc.Closed? ==> (a.sock == Open <==> r.pc.winner == Some(i)))
  }

  lemma NewRaceInv(n: nat, timed: bool)
    ensures Inv(NewRace(n, timed))
  {
  }

  /** One attempt moves on, in a race that has not returned. */
  lemma AttemptKeeps(r: Race, i: nat, a: Attempt, open: set<nat>, next: Future)
    requires Inv(r) && i < |r.attempts| && !r.pc.Over? && !r.pc.Closed?
    requires r.attempts[i].phase == Ready || r.attempts[i].phase == Running
    requires i in r.tasks || (r.pc.Ending? && Done(a))
    requires a.phase == Ready ==> a.sock == NoSock
    requires a.phase == Failed ==> a.sock != Open
    requires a.phase == Won ==> a.sock == Open
    requires a.recorded ==> a.phase == Failed
    requires a.phase == Failed && (r.pc == Starting || r.pc == Waiting) ==> a.recorded
    requires open == if a.sock == Open then r.openSockets + {i} else r.openSockets - {i}
    requires next == r.startNext || (next == Set && r.startNext == Unset && i == |r.attempts| - 1 && a.phase == Failed)
    requires a.phase == Failed && i == |r.attempts| - 1 && (r.pc == Starting || r.pc == Waiting) ==> next != Unset
    ensures Inv(r.(attempts := r.attempts[i := a], openSockets := open, startNext := next))
  {
    var r' := r.(attempts := r.attempts[i := a], openSockets := open, startNext := next);
    forall j | 0 <= j < |r'.attempts| - 1 ensures r'.attempts[j].phase == Failed || j in r'.fired {
      assert r.attempts[j].phase == Failed || j in r.fired;
    }
    assert OutcomeOk(r');
    assert SocketsOk(r');
  }

  /** An attempt that is not done is among the tasks, and the race has not returned. */
  lemma UndoneIsTask(r: Race, i: nat)
    requires Inv(r) && i < |r.attempts| && !Done(r.attempts[i])
    ensures i in r.tasks && !r.pc.Over? && !r.pc.Closed? && !r.attempts[i].recorded
  {
  }

  lemma FailKeeps(r: Race, i: nat)
    requires Inv(r) && i < |r.attempts| && r.attempts[i].phase == Running
    ensures Inv(FailAttempt(r, i))
  {
    hide Inv;
    UndoneIsTask(r, i);
    var r' := FailAttempt(r, i);
    AttemptKeeps(r, i, r'.attempts[i], r'.openSockets, r'.startNext);
  }

  lemma EndTaskKeeps(r: Race, i: nat)
    requires Inv(r) && Enabled(r, EndTask(i))
    ensures Inv(Apply(r, EndTask(i)))
  {
    var a := r.attempts[i];
    if a.phase == Running {
      FailKeeps(r, i);
      DropTask(FailAttempt(r, i), i);
      assert FailAttempt(r.(tasks := r.tasks - {i}), i) == FailAttempt(r, i).(tasks := r.tasks - {i});
    } else if a.phase == Ready {
      var failed := Attempt(Failed, NoSock, false);
      AttemptKeeps(r, i, failed, r.openSockets - {i}, r.startNext);
      assert r.openSockets - {i} == r.openSockets;
      DropTask(r.(attempts := r.attempts[i := failed]), i);
    } else {
      DropTask(r, i);
    }
  }

  lemma DropTask(r: Race, i: nat)
    requires Inv(r) && r.pc.Ending? && i < |r.attempts| && Done(r.attempts[i])
    ensures Inv(r.(tasks := r.tasks - {i}))
  {
    hide SocketsOk;
    assert SocketsOk(r.(tasks := r.tasks - {i})) by { SocketsIgnoreTasks(r, i); }
  }

  lemma SocketsIgnoreTasks(r: Race, i: nat)
    requires SocketsOk(r)
    ensures SocketsOk(r.(tasks := r.tasks - {i}))
  {
  }

  lemma StartKeeps(r: Race)
    requires Inv(r) && Enabled(r, Start)
    ensures Inv(Apply(r, Start))
  {
    var r' := Apply(r, Start);
    if |r.attempts| < r.n {
      forall j | 0 <= j < |r'.attempts| - 1 ensures r'.attempts[j].phase == Failed || j in r'.fired {
        assert r'.attempts[j] == r.attempts[j];
      }
      assert OutcomeOk(r');
      assert SocketsOk(r') by {
        assert |r.attempts| !in r.openSockets;
      }
    }
  }

  lemma NoticeTaskKeeps(r: Race, i: nat)
    requires Inv(r) && Enabled(r, NoticeTask(i))
    ensures Inv(Apply(r, NoticeTask(i)))
  {
    var r' := Apply(r, NoticeTask(i));
    assert SocketsOk(r');
    assert OutcomeOk(r');
  }

  lemma NoticeNextKeeps(r: Race)
    requires Inv(r) && Enabled(r, NoticeNext)
    ensures Inv(Apply(r, NoticeNext))
  {
    var r' := Apply(r, NoticeNext);
    assert StartedInTurn(r') && OutcomeOk(r') && SocketsOk(r');
  }

  lemma FinishKeeps(r: Race, e: Event)
    requires Inv(r) && Enabled(r, e) && (e.Exhaust? || e.Cancel? || e.Return?)
    ensures Inv(Apply(r, e))
  {
    var r' := Apply(r, e);
    assert StartedInTurn(r') && FutureOk(r') && OutcomeOk(r') && SocketsOk(r');
  }

  lemma CloseKeeps(r: Race)
    requires Inv(r) && Enabled(r, CloseRunnersUp)
    ensures Inv(Apply(r, CloseRunnersUp))
  {
    hide SocketsOk;
    var r' := Apply(r, CloseRunnersUp);
    assert forall i :: 0 <= i < |r.attempts| ==> r'.attempts[i].phase == r.attempts[i].phase;
    assert StartedInTurn(r') && FutureOk(r') && OutcomeOk(r');
    CloseKeepsSockets(r);
  }

  lemma CloseKeepsSockets(r: Race)
    requires Inv(r) && Enabled(r, CloseRunnersUp)
    ensures SocketsOk(Apply(r, CloseRunnersUp))
  {
    assert forall i :: 0 <= i < |r.attempts| ==> Done(r.attempts[i]);
  }

  lemma TimerKeeps(r: Race)
    requires Inv(r) && Enabled(r, Timer)
    ensures Inv(Apply(r, Timer))
  {
    var r' := Apply(r, Timer);
    assert StartedInTurn(r') && FutureOk(r') && OutcomeOk(r') && SocketsOk(r');
  }

  lemma ApplyKeeps(r: Race, e: Event)
    requires Inv(r) && Enabled(r, e)
    ensures Inv(Apply(r, e))
  {
    hide Inv;
    match e
    case Start => StartKeeps(r);
    case Exhaust => FinishKeeps(r, e);
    case NoticeNext => NoticeNextKeeps(r);
    case NoticeTask(i) => NoticeTaskKeeps(r, i);
    case Cancel => FinishKeeps(r, e);
    case EndTask(i) => EndTaskKeeps(r, i);
    case Return => FinishKeeps(r, e);
    case CloseRunnersUp => CloseKeeps(r);
    case Timer => TimerKeeps(r);
    case Fail(i) => FailKeeps(r, i);
    case Begin(i, hasSock) =>
      UndoneIsTask(r, i);
      NotYetOpen(r, i);
      var r' := Apply(r, e);
      AttemptKeeps(r, i, r'.attempts[i], r'.openSockets, r.startNext);
    case Succeed(i) =>
      UndoneIsTask(r, i);
      NotYetOpen(r, i);
      var r' := Apply(r, e);
      AttemptKeeps(r, i, r'.attempts[i], r.openSockets, r.startNext);
  }

  lemma NotYetOpen(r: Race, i: nat)
    requires Inv(r) && i < |r.attempts| && !r.pc.Closed?
    ensures r.attempts[i].phase == Ready ==> r.openSockets - {i} == r.openSockets
    ensures r.attempts[i].sock == Open ==> r.openSockets + {i} == r.openSockets
  {
  }

  ghost predicate Legal(r: Race, es: seq<Event>)
    decreases |es|
  {
    es == [] || (Enabled(r, es[0]) && Legal(Apply(r, es[0]), es[1..]))
  }

  function Run(r: Race, es: seq<Event>): Race
    requires Legal(r, es)
    decreases |es|
  {
    if es == [] then r else Run(Apply(r, es[0]), es[1..])
  }

  lemma {:induction false} RunKeeps(r: Race, es: seq<Event>)
    requires Inv(r) && Legal(r, es)
    ensures Inv(Run(r, es)) && Run(r, es).n == r.n && Run(r, es).timed == r.timed
    decreases |es|
  {
    if es != [] {
      StepKeepsSetting(r, es[0]);
      hide Inv, Apply, Enabled;
      ApplyKeeps(r, es[0]);
      RunKeeps(Apply(r, es[0]), es[1..]);
    }
  }

  lemma StepKeepsSetting(r: Race, e: Event)
    requires Enabled(r, e)
    ensures Apply(r, e).n == r.n && Apply(r, e).timed == r.timed
  {
  }

  /** In every run an attempt starts only after the one before it failed or its timer fired; without a delay, only
      after it failed. */
  lemma AttemptsStartInTurn(n: nat, timed: bool, es: seq<Event>, i: nat)
    requires Legal(NewRace(n, timed), es) && i + 1 < |Run(NewRace(n, timed), es).attempts|
    ensures LetsNextStart(Run(NewRace(n, timed), es), i)
    ensures !timed ==> Run(NewRace(n, timed), es).attempts[i].phase == Failed
  {
    NewRaceInv(n, timed);
    RunKeeps(NewRace(n, timed), es);
  }

  /** A race that is over leaves no attempt unfinished. Not cancelled, it reports a winner only if that attempt
      succeeded, and none only when all attempts were started and failed, with all their exceptions in the list. */
  lemma RaceOutcome(n: nat, timed: bool, es: seq<Event>)
    requires Legal(NewRace(n, timed), es) && Run(NewRace(n, timed), es).pc.Over?
    ensures var r := Run(NewRace(n, timed), es);
      && (forall i :: 0 <= i < |r.attempts| ==> Done(r.attempts[i]))
      && match r.pc.winner
         case Some(i) => !r.cancelled && i < |r.attempts| && r.attempts[i].phase == Won && r.attempts[i].sock == Open
         case None => r.cancelled || (|r.attempts| == n && AllRecorded(r))
  {
    NewRaceInv(n, timed);
    RunKeeps(NewRace(n, timed), es);
  }

  /** When `start_connection` is over, every socket that any attempt created is closed, except the winner's, which is
      open. */
  lemma OnlyTheWinnersSocketIsOpen(n: nat, timed: bool, es: seq<Event>, i: nat)
    requires Legal(NewRace(n, timed), es) && Run(NewRace(n, timed), es).pc.Closed?
    requires i < |Run(NewRace(n, timed), es).attempts|
    ensures var r := Run(NewRace(n, timed), es);
      r.attempts[i].sock == Open <==> r.pc.winner == Some(i)
  {
    NewRaceInv(n, timed);
    RunKeeps(NewRace(n, timed), es);
  }

  /** A race that its caller cancelled while it waited leaves every socket that any attempt created closed, even one
      that had just won. */
  lemma CancelledClosesAll(n: nat, timed: bool, es: seq<Event>, i: nat)
    requires Legal(NewRace(n, timed), es) && Run(NewRace(n, timed), es).pc.Closed?
      && Run(NewRace(n, timed), es).cancelled
    requires i < |Run(NewRace(n, timed), es).attempts|
    ensures Run(NewRace(n, timed), es).attempts[i].sock != Open
  {
    NewRaceInv(n, timed);
    RunKeeps(NewRace(n, timed), es);
  }

  function PhaseWeight(a: Attempt): nat {
    match a.phase case Ready => 2 case Running => 1 case Failed => 0 case Won => 0
  }

  function Weights(attempts: seq<Attempt>): nat {
    if attempts == [] then 0 else PhaseWeight(attempts[0]) + Weights(attempts[1..])
  }

  function PcWeight(pc: Pc): nat {
    match pc case Starting => 4 case Waiting => 3 case Ending(_) => 2 case Over(_) => 1 case Closed(_) => 0
  }

  /** What is left of the race. */
  function Left(r: Race): nat
    requires |r.attempts| <= r.n
  {
    7 * (r.n - |r.attempts|) + Weights(r.attempts) + |r.tasks| + PcWeight(r.pc)
    + (match r.startNext case NoFuture => 0 case Set => 2 case Unset => 4)
  }

  lemma {:induction false} WeightsUpdate(attempts: seq<Attempt>, i: nat, a: Attempt)
    requires i < |attempts|
    ensures Weights(attempts[i := a]) == Weights(attempts) - PhaseWeight(attempts[i]) + PhaseWeight(a)
  {
    if i > 0 {
      WeightsUpdate(attempts[1..], i - 1, a);
      assert attempts[i := a][1..] == attempts[1..][i - 1 := a];
    } else {
      assert attempts[0 := a][1..] == attempts[1..];
    }
  }

  lemma {:induction false} WeightsSnoc(attempts: seq<Attempt>, a: Attempt)
    ensures Weights(attempts + [a]) == Weights(attempts) + PhaseWeight(a)
  {
    if attempts == [] {
      assert [] + [a] == [a];
    } else {
      WeightsSnoc(attempts[1..], a);
      assert (attempts + [a])[1..] == attempts[1..] + [a];
    }
  }

  lemma {:induction false} WeightsSame(a: seq<Attempt>, b: seq<Attempt>)
    requires |a| == |b| && forall i :: 0 <= i < |a| ==> a[i].phase == b[i].phase
    ensures Weights(a) == Weights(b)
  {
    if a != [] {
      WeightsSame(a[1..], b[1..]);
    }
  }

  /** Every event leaves less of the race, so every run is finite. */
  lemma EveryEventCounts(r: Race, e: Event)
    requires Inv(r) && Enabled(r, e)
    ensures |Apply(r, e).attempts| <= Apply(r, e).n && Left(Apply(r, e)) < Left(r)
  {
    hide Inv, Weights, Apply, Enabled, Left;
    Bounded(r);
    match e {
      case EndTask(i) => EndTaskCounts(r, i);
      case Begin(i, _) => AttemptCounts(r, e, i);
      case Fail(i) => AttemptCounts(r, e, i);
      case Succeed(i) => AttemptCounts(r, e, i);
      case Exhaust => LoopCounts(r, e);
      case Cancel => LoopCounts(r, e);
      case NoticeNext => LoopCounts(r, e);
      case NoticeTask(_) => LoopCounts(r, e);
      case Return => LoopCounts(r, e);
      case Timer => LoopCounts(r, e);
      case Start => StartCounts(r);
      case CloseRunnersUp => CloseCounts(r);
    }
  }

  lemma LoopCounts(r: Race, e: Event)
    requires |r.attempts| <= r.n && Enabled(r, e)
    requires e.Exhaust? || e.Cancel? || e.NoticeNext? || e.NoticeTask? || e.Return? || e.Timer?
    ensures |Apply(r, e).attempts| <= Apply(r, e).n && Left(Apply(r, e)) < Left(r)
  {
    hide Weights;
  }

  lemma StartCounts(r: Race)
    requires |r.attempts| <= r.n && Enabled(r, Start)
    ensures |Apply(r, Start).attempts| <= Apply(r, Start).n && Left(Apply(r, Start)) < Left(r)
  {
    hide Weights;
    WeightsSnoc(r.attempts, Attempt(Ready, NoSock, false));
  }

  lemma CloseCounts(r: Race)
    requires |r.attempts| <= r.n && Enabled(r, CloseRunnersUp)
    ensures |Apply(r, CloseRunnersUp).attempts| <= Apply(r, CloseRunnersUp).n
    ensures Left(Apply(r, CloseRunnersUp)) < Left(r)
  {
    hide Weights;
    WeightsSame(r.attempts, Apply(r, CloseRunnersUp).attempts);
  }

  lemma AttemptCounts(r: Race, e: Event, i: nat)
    requires |r.attempts| <= r.n && Enabled(r, e) && (e.Begin? || e.Fail? || e.Succeed?) && e.i == i
    ensures |Apply(r, e).attempts| <= Apply(r, e).n && Left(Apply(r, e)) < Left(r)
  {
    hide Weights;
    var r' := Apply(r, e);
    WeightsUpdate(r.attempts, i, r'.attempts[i]);
    assert r'.attempts == r.attempts[i := r'.attempts[i]];
  }

  lemma EndTaskCounts(r: Race, i: nat)
    requires |r.attempts| <= r.n && Enabled(r, EndTask(i))
    ensures |Apply(r, EndTask(i)).attempts| <= Apply(r, EndTask(i)).n && Left(Apply(r, EndTask(i))) < Left(r)
  {
    hide Weights;
    var r' := Apply(r, EndTask(i));
    WeightsUpdate(r.attempts, i, r'.attempts[i]);
    assert r'.attempts == r.attempts[i := r'.attempts[i]];
    assert |r'.tasks| == |r.tasks| - 1;
  }

  lemma Bounded(r: Race)
    requires Inv(r)
    ensures |r.attempts| <= r.n
  {
  }

  lemma {:induction false} RunsAreBounded(r: Race, es: seq<Event>)
    requires Inv(r) && Legal(r, es) && |r.attempts| <= r.n
    ensures |es| <= Left(r)
    decreases |es|
  {
    hide Inv, Apply, Enabled, Left;
    if es != [] {
      ApplyKeeps(r, es[0]);
      EveryEventCounts(r, es[0]);
      RunsAreBounded(Apply(r, es[0]), es[1..]);
    }
  }

  /** Every run ends: it has at most `7 n + 4` events, whatever the attempts do. */
  lemma EveryRunEnds(n: nat, timed: bool, es: seq<Event>)
    requires Legal(NewRace(n, timed), es)
    ensures |es| <= 7 * n + 4
  {
    NewRaceInv(n, timed);
    RunsAreBounded(NewRace(n, timed), es);
  }

  /** The race never hangs on its own: whenever no attempt is under way or still to begin, the race itself can take a
      step, until everything is over. */
  lemma NoHang(n: nat, timed: bool, es: seq<Event>) returns (e: Event)
    requires Legal(NewRace(n, timed), es)
    requires var r := Run(NewRace(n, timed), es);
      !r.pc.Closed? && forall i :: 0 <= i < |r.attempts| ==> Done(r.attempts[i])
    ensures Enabled(Run(NewRace(n, timed), es), e)
    ensures !e.Timer? && !e.Begin? && !e.Fail? && !e.Succeed? && !e.Cancel?
  {
    NewRaceInv(n, timed);
    RunKeeps(NewRace(n, timed), es);
    var r := Run(NewRace(n, timed), es);
    match r.pc
    case Starting => e := if |r.attempts| < r.n || r.tasks != {} then Start else Exhaust;
    case Waiting =>
      if r.tasks != {} {
        var i :| i in r.tasks;
        e := NoticeTask(i);
      } else if r.startNext == NoFuture {
        e := Exhaust;
      } else {
        assert r.attempts[|r.attempts| - 1].phase == Failed;
        e := NoticeNext;
      }
    case Ending(_) =>
      if r.tasks != {} {
        var i :| i in r.tasks;
        e := EndTask(i);
      } else {
        e := Return;
      }
    case Over(_) => e := CloseRunnersUp;
    case Closed(_) =>
  }

  /** What the exceptions list gets: a local address that cannot be bound, no local address of the family, or the
      creation, the connect or the close that raised. */
  datatype Trouble = NoBind(local: nat) | NoLocal | NoCreate | NoConnect | NoClose

  datatype Local = Local(family: nat, binds: bool)

  /** How the connect ends; an interruption is any exception but RuntimeError and OSError, a cancellation for one. */
  datatype Reach = Reaches | Refuses | Interrupted

  /** An address, and what happens there: whether a socket can be made, and whether closing it raises nothing. */
  datatype Target = Target(family: nat, creates: bool, reach: Reach, closes: bool)

  /** All sockets made, the shared set of open ones, and the exceptions of every attempt. */
  datatype Sockets = Sockets(made: seq<Sock>, shared: set<nat>, troubles: seq<seq<Trouble>>)

  /** How an attempt ends: with its socket, with a RuntimeError or OSError, or with another exception. */
  datatype Ended = Connected | Refused | Broken

  ghost predicate CanBind(locals: Option<seq<Local>>, family: nat) {
    locals.Some? ==>
      exists i :: 0 <= i < |locals.value| && locals.value[i].family == family && locals.value[i].binds
  }

  /** The addresses of the family in front of the first that can be bound. */
  function BindTroubles(locals: seq<Local>, family: nat, i: nat): seq<Trouble>
    requires i <= |locals|
    decreases |locals| - i
  {
    if i == |locals| then []
    else if locals[i].family != family then BindTroubles(locals, family, i + 1)
    else if locals[i].binds then []
    else [NoBind(i)] + BindTroubles(locals, family, i + 1)
  }

  /** An attempt connects if everything goes well; an interruption stays one only if the socket then closes. */
  ghost predicate EndsAs(t: Target, locals: Option<seq<Local>>, r: Ended) {
    var begins := t.creates && CanBind(locals, t.family);
    && (r == Connected <==> begins && t.reach == Reaches)
    && (r == Broken <==> begins && t.reach == Interrupted && t.closes)
  }

  /** The bind loop: `mine` gets the addresses that could not be bound. */
  method BindFirst(locals: seq<Local>, family: nat) returns (mine: seq<Trouble>, bound: bool)
    ensures mine == BindTroubles(locals, family, 0)
    ensures bound <==> CanBind(Some(locals), family)
  {
    mine := [];
    for i := 0 to |locals|
      invariant mine + BindTroubles(locals, family, i) == BindTroubles(locals, family, 0)
      invariant forall j :: 0 <= j < i ==> locals[j].family != family || !locals[j].binds
    {
      if locals[i].family != family {
        continue;
      }
      if locals[i].binds {
        assert mine + [] == mine;
        return mine, true;
      }
      mine := mine + [NoBind(i)];
    }
    assert mine + [] == mine;
    return mine, false;
  }

  /** `_connect_sock`. Whatever happens, a socket that was made is open afterwards if and only if the attempt connected,
      the shared set gains that socket then and is otherwise as before, and every trouble of the attempt is listed. */
  method ConnectSock(s: Sockets, t: Target, locals: Option<seq<Local>>, sharing: bool)
    returns (after: Sockets, r: Ended)
    requires forall i :: i in s.shared ==> i < |s.made|
    ensures EndsAs(t, locals, r)
    ensures after.made == s.made + (if t.creates then [if r == Connected then Open else Shut] else [])
    ensures after.shared == if sharing && r == Connected then s.shared + {|s.made|} else s.shared
    ensures |after.troubles| == |s.troubles| + 1 && after.troubles[..|s.troubles|] == s.troubles
    ensures var mine := after.troubles[|s.troubles|];
      && (NoCreate in mine <==> !t.creates)
      && (NoLocal in mine <==> t.creates && !CanBind(locals, t.family) && BindTroubles(locals.value, t.family, 0) == [])
      && (NoConnect in mine <==> t.creates && CanBind(locals, t.family) && t.reach == Refuses)
      && (NoClose in mine <==> t.creates && r != Connected && !t.closes)
      && forall i :: NoBind(i) in mine <==>
                       t.creates && locals.Some? && NoBind(i) in BindTroubles(locals.value, t.family, 0)
  {
    var made, shared := s.made, s.shared;
    if !t.creates {
      return Sockets(made, shared, s.troubles + [[NoCreate]]), Refused;
    }
    var sock := |made|;
    made := made + [Open];
    if sharing {
      shared := shared + {sock};
    }
    var mine, bound := [], true;
    if locals.Some? {
      mine, bound := BindFirst(locals.value, t.family);
      OnlyBinds(locals.value, t.family, 0);
    }
    if bound && t.reach == Reaches {
      return Sockets(made, shared, s.troubles + [mine]), Connected;
    }
    if !bound && mine == [] {
      mine := mine + [NoLocal];
    } else if bound && t.reach == Refuses {
      mine := mine + [NoConnect];
    }
    if sharing {
      shared := shared - {sock};
    }
    made := made[sock := Shut];
    if !t.closes {
      mine := mine + [NoClose];
    }
    r := if bound && t.reach == Interrupted && t.closes then Broken else Refused;
    return Sockets(made, shared, s.troubles + [mine]), r;
  }

  lemma {:induction false} OnlyBinds(locals: seq<Local>, family: nat, i: nat)
    requires i <= |locals|
    ensures forall x :: x in BindTroubles(locals, family, i) ==> x.NoBind?
    decreases |locals| - i
  {
    if i < |locals| {
      OnlyBinds(locals, family, i + 1);
    }
  }

  /** The loop of `start_connection` without a delay: it goes on past the attempts that fail, up to the first that
      connects or breaks; of the sockets made only the one that connected, the last, is open. */
  method ConnectInTurn(targets: seq<Target>, locals: Option<seq<Local>>) returns (s: Sockets, r: Ended)
    ensures |s.troubles| <= |targets| && s.shared == {}
    ensures r == Refused ==> |s.troubles| == |targets|
    ensures r != Refused ==> |s.troubles| > 0 && EndsAs(targets[|s.troubles| - 1], locals, r)
    ensures forall i :: 0 <= i < (if r == Refused then |targets| else |s.troubles| - 1) ==>
                          EndsAs(targets[i], locals, Refused)
    ensures forall i :: 0 <= i < |s.made| ==> (s.made[i] == Open <==> r == Connected && i == |s.made| - 1)
    ensures r == Connected ==> s.made != []
  {
    s := Sockets([], {}, []);
    for i := 0 to |targets|
      invariant |s.troubles| == i && s.shared == {}
      invariant forall j :: 0 <= j < i ==> EndsAs(targets[j], locals, Refused)
      invariant forall j :: 0 <= j < |s.made| ==> s.made[j] != Open
    {
      s, r := ConnectSock(s, targets[i], locals, false);
      if r != Refused {
        return;
      }
    }
    return s, Refused;
  }
}
