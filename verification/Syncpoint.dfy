/** The sync-point runtime (internal/syncpoint/runtime.go): one worker state machine behind a
    lock.  Every critical section is one atomic step, a function on states that the class
    method of the same name computes in place.  Wake-ups of blocked calls are steps of their
    own, so a run is any interleaving of steps. */
module Syncpoint {
  import opened Options
  import opened Scenarios

  datatype WorkerState = Running | Arrived | Released | DBBlocked | Done | Failed

  datatype ArriveStatus = StatusArrived | StatusDone | StatusFailed | StatusTimeout

  datatype Error = ContextDone | ErrClosed | ErrUnknownWorker | ErrInvalidTransition | ErrPointMismatch

  datatype Result<+T> = Ok(value: T) | Err(error: Error)

  /** How a blocked Arrive call returned. */
  datatype ArriveOutcome = Nil | FailedClosed | FailedContext | WokeWithoutRelease

  /** One Arrive call.  readyCloses counts how often its channel has been closed; releasedBy
      holds the arguments of the Release call that resolved it. */
  datatype Arrival = Arrival(
    worker: string, point: string,
    released: bool, closed: bool, readyCloses: nat,
    releasedBy: Option<(string, string)>,
    outcome: Option<ArriveOutcome>)

  /** arrival is the index of the current Arrive call, standing for the source's pointer. */
  datatype WorkerRecord = WorkerRecord(
    state: WorkerState, point: string,
    arrival: Option<nat>, waitActive: bool, waitPoint: string)

  datatype State = State(closed: bool, workers: map<string, WorkerRecord>, arrivals: seq<Arrival>)

  const INITIAL := State(false, map[], [])

  // ----- Atomic steps -----

  function Register(s: State, id: string): (State, Option<Error>) {
    if Blank(id) then (s, Some(ErrInvalidTransition))
    else if s.closed then (s, Some(ErrClosed))
    else if id in s.workers then (s, Some(ErrInvalidTransition))
    else (s.(workers := s.workers[id := WorkerRecord(Running, "", None, false, "")]), None)
  }

  function ArrivalError(worker: WorkerRecord, point: string): Option<Error> {
    if worker.waitActive && worker.waitPoint != point then Some(ErrPointMismatch)
    else
      match worker.state
      case Running => None
      case DBBlocked => if worker.point != point then Some(ErrPointMismatch) else None
      case Released => if worker.point == point then Some(ErrInvalidTransition) else None
      case Arrived => if worker.point != point then Some(ErrPointMismatch) else Some(ErrInvalidTransition)
      case Done => Some(ErrInvalidTransition)
      case Failed => Some(ErrInvalidTransition)
  }

  /** The first half of Arrive: record the arrival and block on it, or fail. */
  function ArriveStart(s: State, contextDone: bool, id: string, point: string): (State, Result<nat>) {
    if contextDone then (s, Err(ContextDone))
    else if Blank(id) || Blank(point) then (s, Err(ErrInvalidTransition))
    else if s.closed then (s, Err(ErrClosed))
    else if id !in s.workers then (s, Err(ErrUnknownWorker))
    else
      var failure := ArrivalError(s.workers[id], point);
      if failure.Some? then (s, Err(failure.value))
      else
        var a := |s.arrivals|;
        (s.(arrivals := s.arrivals + [Arrival(id, point, false, false, 0, None, None)],
            workers := s.workers[id := s.workers[id].(state := Arrived, point := point, arrival := Some(a))]),
         Ok(a))
  }

  /** A blocked Arrive call can wake: its channel is closed or its context is done. */
  predicate CanWake(s: State, contextDone: bool, a: nat) {
    a < |s.arrivals| && s.arrivals[a].outcome == None && (s.arrivals[a].readyCloses > 0 || contextDone)
  }

  /** The second half of Arrive. */
  function ArriveWake(s: State, contextDone: bool, a: nat): (State, ArriveOutcome)
    requires CanWake(s, contextDone, a) && s.arrivals[a].worker in s.workers
  {
    var current := s.arrivals[a];
    var worker := s.workers[current.worker];
    if current.released then
      (Return(s, a, Nil, if worker.arrival == Some(a) then worker.(arrival := None) else worker), Nil)
    else if current.closed || s.closed then
      (Return(s, a, FailedClosed, worker), FailedClosed)
    else if contextDone then
      (Return(s, a, FailedContext,
              if worker.arrival == Some(a) && worker.state == Arrived
              then worker.(arrival := None, state := Running, point := "") else worker), FailedContext)
    else (Return(s, a, WokeWithoutRelease, worker), WokeWithoutRelease)
  }

  function Return(s: State, a: nat, outcome: ArriveOutcome, worker: WorkerRecord): State
    requires a < |s.arrivals|
  {
    s.(arrivals := s.arrivals[a := s.arrivals[a].(outcome := Some(outcome))],
       workers := s.workers[s.arrivals[a].worker := worker])
  }

  /** The answer to a wait, if there is one already. */
  function WaitStatus(s: State, id: string, point: string): Option<Result<ArriveStatus>>
    requires id in s.workers
  {
    var worker := s.workers[id];
    if s.closed then Some(Err(ErrClosed))
    else
      match worker.state
      case Running => None
      case Arrived => Some(if worker.point != point then Err(ErrPointMismatch) else Ok(StatusArrived))
      case Released => if worker.point == point then Some(Err(ErrInvalidTransition)) else None
      case DBBlocked => if worker.point != point then Some(Err(ErrPointMismatch)) else None
      case Done => Some(Ok(StatusDone))
      case Failed => Some(Ok(StatusFailed))
  }

  /** The start of WaitArrive: an answer, or a registered wait. */
  function WaitStart(s: State, contextDone: bool, id: string, point: string, timeout: int)
    : (State, Option<Result<ArriveStatus>>)
  {
    if contextDone then (s, Some(Err(ContextDone)))
    else if Blank(id) || Blank(point) || timeout <= 0 then (s, Some(Err(ErrInvalidTransition)))
    else if s.closed then (s, Some(Err(ErrClosed)))
    else if id !in s.workers then (s, Some(Err(ErrUnknownWorker)))
    else if s.workers[id].waitActive then (s, Some(Err(ErrInvalidTransition)))
    else
      var status := WaitStatus(s, id, point);
      if status.Some? then (s, status)
      else (s.(workers := s.workers[id := s.workers[id].(waitActive := true, waitPoint := point)]), None)
  }

  datatype Wake = WakeChanged | WakeTimeout | WakeContext

  /** One wake-up of a registered wait.  A timeout marks the worker as blocked in the database. */
  function WaitWake(s: State, contextDone: bool, id: string, point: string, wake: Wake)
    : (State, Option<Result<ArriveStatus>>)
    requires id in s.workers
  {
    var status := WaitStatus(s, id, point);
    if status.Some? then (ClearWait(s, id, s.workers[id]), status)
    else if contextDone then (ClearWait(s, id, s.workers[id]), Some(Err(ContextDone)))
    else if wake != WakeTimeout then (s, None)
    else (ClearWait(s, id, s.workers[id].(state := DBBlocked, point := point)), Some(Ok(StatusTimeout)))
  }

  function ClearWait(s: State, id: string, worker: WorkerRecord): State {
    s.(workers := s.workers[id := worker.(waitActive := false, waitPoint := "")])
  }

  function Release(s: State, contextDone: bool, id: string, point: string): (State, Option<Error>) {
    if contextDone then (s, Some(ContextDone))
    else if Blank(id) || Blank(point) then (s, Some(ErrInvalidTransition))
    else if s.closed then (s, Some(ErrClosed))
    else if id !in s.workers then (s, Some(ErrUnknownWorker))
    else
      var worker := s.workers[id];
      if worker.state != Arrived || worker.arrival == None || worker.arrival.value >= |s.arrivals|
      then (s, Some(ErrInvalidTransition))
      else if worker.point != point then (s, Some(ErrPointMismatch))
      else
        var a := worker.arrival.value;
        (s.(workers := s.workers[id := worker.(state := Released)],
            arrivals := s.arrivals[a := s.arrivals[a].(released := true, readyCloses := s.arrivals[a].readyCloses + 1,
                                                       releasedBy := Some((id, point)))]),
         None)
  }

  function Finish(s: State, id: string, failed: bool): (State, Option<Error>) {
    if Blank(id) then (s, Some(ErrInvalidTransition))
    else if id !in s.workers then (s, Some(ErrUnknownWorker))
    else
      var worker := s.workers[id];
      if worker.state !in {Running, Released, DBBlocked} then (s, Some(ErrInvalidTransition))
      else (s.(workers := s.workers[id := worker.(state := if failed then Failed else Done, arrival := None)]), None)
  }

  /** Close resolves the arrival of every worker that is still blocked in Arrive. */
  function Close(s: State): State {
    if s.closed then s else CloseExcept(s, {})
  }

  /** Close with some workers still to visit. */
  function CloseExcept(s: State, todo: set<string>): State {
    State(true,
          map id | id in s.workers :: if id in todo then s.workers[id] else Unblock(s.workers[id]),
          seq(|s.arrivals|, a requires 0 <= a < |s.arrivals| =>
            if ClosedByClose(s, a) && s.arrivals[a].worker !in todo then Shut(s.arrivals[a]) else s.arrivals[a]))
  }

  function Shut(arrival: Arrival): Arrival {
    arrival.(closed := true, readyCloses := arrival.readyCloses + 1)
  }

  function Unblock(worker: WorkerRecord): WorkerRecord {
    if worker.state == Arrived && worker.arrival.Some? then worker.(arrival := None, state := Running, point := "")
    else worker
  }

  predicate ClosedByClose(s: State, a: nat)
    requires a < |s.arrivals|
  {
    var id := s.arrivals[a].worker;
    id in s.workers && s.workers[id].state == Arrived && s.workers[id].arrival == Some(a)
  }

  // ----- Runs -----

  /** One step of any participant.  Context flags say whether the caller's context was done. */
  datatype Action =
    | DoRegister(id: string)
    | DoArriveStart(contextDone: bool, id: string, point: string)
    | DoArriveWake(contextDone: bool, arrival: nat)
    | DoWaitStart(contextDone: bool, id: string, point: string, timeout: int)
    | DoWaitWake(contextDone: bool, id: string, point: string, wake: Wake)
    | DoRelease(contextDone: bool, id: string, point: string)
    | DoFinish(id: string, failed: bool)
    | DoClose

  /** Steps that are not enabled leave the state alone. */
  function Apply(s: State, action: Action): State {
    match action
    case DoRegister(id) => Register(s, id).0
    case DoArriveStart(contextDone, id, point) => ArriveStart(s, contextDone, id, point).0
    case DoArriveWake(contextDone, a) =>
      if CanWake(s, contextDone, a) && s.arrivals[a].worker in s.workers then ArriveWake(s, contextDone, a).0 else s
    case DoWaitStart(contextDone, id, point, timeout) => WaitStart(s, contextDone, id, point, timeout).0
    case DoWaitWake(contextDone, id, point, wake) =>
      if id in s.workers && s.workers[id].waitActive && s.workers[id].waitPoint == point
      then WaitWake(s, contextDone, id, point, wake).0 else s
    case DoRelease(contextDone, id, point) => Release(s, contextDone, id, point).0
    case DoFinish(id, failed) => Finish(s, id, failed).0
    case DoClose => Close(s)
  }

  function Run(actions: seq<Action>): State {
    if actions == [] then INITIAL else Apply(Run(actions[..|actions| - 1]), actions[|actions| - 1])
  }

  // ----- The invariant -----

  predicate Unresolved(arrival: Arrival) {
    !arrival.released && !arrival.closed && arrival.outcome == None
  }

  /** Worker id is blocked in Arrive call a and nothing has resolved that call. */
  ghost predicate Outstanding(s: State, id: string, a: nat) {
    a < |s.arrivals| && s.arrivals[a].worker == id && Unresolved(s.arrivals[a])
  }

  /** Facts about one Arrive call. */
  ghost predicate ArrivalInv(s: State, a: nat)
    requires a < |s.arrivals|
  {
    var arrival := s.arrivals[a];
    && arrival.worker in s.workers
    && arrival.readyCloses == (if arrival.released || arrival.closed then 1 else 0)
    && (arrival.released ==> !arrival.closed) && (arrival.closed ==> s.closed)
    && arrival.releasedBy == (if arrival.released then Some((arrival.worker, arrival.point)) else None)
    && (arrival.outcome.Some? ==> (arrival.outcome.value == Nil <==> arrival.released))
    && arrival.outcome != Some(WokeWithoutRelease)
    && (Unresolved(arrival) ==>
          var worker := s.workers[arrival.worker];
          !s.closed && worker.state == Arrived && worker.arrival == Some(a) && worker.point == arrival.point)
  }

  /** Facts about one worker. */
  ghost predicate WorkerInv(s: State, id: string)
    requires id in s.workers
  {
    var worker := s.workers[id];
    && (worker.state == Arrived ==> worker.arrival.Some? && Outstanding(s, id, worker.arrival.value))
    && (worker.arrival.Some? ==>
          && worker.arrival.value < |s.arrivals|
          && s.arrivals[worker.arrival.value].worker == id
          && (worker.state == Arrived || s.arrivals[worker.arrival.value].released))
  }

  ghost predicate Inv(s: State) {
    && (forall a :: 0 <= a < |s.arrivals| ==> ArrivalInv(s, a))
    && (forall id :: id in s.workers ==> WorkerInv(s, id))
  }

  lemma ApplyKeepsInv(s: State, action: Action)
    requires Inv(s)
    ensures Inv(Apply(s, action))
  {
    match action
    case DoRegister(id) => RegisterKeepsInv(s, id);
    case DoArriveStart(contextDone, id, point) => ArriveStartKeepsInv(s, contextDone, id, point);
    case DoArriveWake(contextDone, a) =>
      if CanWake(s, contextDone, a) && s.arrivals[a].worker in s.workers {
        ArriveWakeKeepsInv(s, contextDone, a);
      }
    case DoWaitStart(contextDone, id, point, timeout) => WaitStartKeepsInv(s, contextDone, id, point, timeout);
    case DoWaitWake(contextDone, id, point, wake) =>
      if id in s.workers { WaitWakeKeepsInv(s, contextDone, id, point, wake); }
    case DoRelease(contextDone, id, point) => ReleaseKeepsInv(s, contextDone, id, point);
    case DoFinish(id, failed) => FinishKeepsInv(s, id, failed);
    case DoClose => CloseKeepsInv(s);
  }

  /** A step that touches one worker and at most one arrival only has those to answer for. */
  lemma LocalStepKeepsInv(s: State, s': State, id: string, a: nat)
    requires Inv(s)
    requires s'.closed == s.closed && s'.workers.Keys == s.workers.Keys + {id}
    requires |s'.arrivals| == |s.arrivals| || (|s'.arrivals| == |s.arrivals| + 1 && a == |s.arrivals|)
    requires forall other :: other in s.workers && other != id ==> s'.workers[other] == s.workers[other]
    requires forall b :: 0 <= b < |s.arrivals| && b != a ==> s'.arrivals[b] == s.arrivals[b]
    requires a < |s'.arrivals| ==> s'.arrivals[a].worker == id && ArrivalInv(s', a)
    requires WorkerInv(s', id)
    requires forall b :: 0 <= b < |s.arrivals| && b != a ==> !Outstanding(s, id, b)
    requires a < |s.arrivals| ==> s.arrivals[a].worker == id
    ensures Inv(s')
  {
    forall b | 0 <= b < |s'.arrivals| ensures ArrivalInv(s', b) {
      if b != a {
        assert ArrivalInv(s, b);
        assert !Outstanding(s, id, b);
      }
    }
    forall other | other in s'.workers ensures WorkerInv(s', other) {
      if other != id { assert WorkerInv(s, other); }
    }
  }

  lemma RegisterKeepsInv(s: State, id: string)
    requires Inv(s)
    ensures Inv(Register(s, id).0)
  {
    if Register(s, id).1 == None {
      forall a | 0 <= a < |s.arrivals| ensures !Outstanding(s, id, a) { assert ArrivalInv(s, a); }
      LocalStepKeepsInv(s, Register(s, id).0, id, |s.arrivals|);
    }
  }

  /** A worker that is not Arrived has no unresolved call. */
  lemma NotArrived(s: State, id: string)
    requires Inv(s) && id in s.workers
    ensures forall a: nat :: Outstanding(s, id, a) ==>
              s.workers[id].state == Arrived && s.workers[id].arrival == Some(a)
  {
    forall a: nat | Outstanding(s, id, a) ensures s.workers[id].state == Arrived && s.workers[id].arrival == Some(a) {
      assert ArrivalInv(s, a);
    }
  }

  lemma ArriveStartKeepsInv(s: State, contextDone: bool, id: string, point: string)
    requires Inv(s)
    ensures Inv(ArriveStart(s, contextDone, id, point).0)
  {
    var (s', r) := ArriveStart(s, contextDone, id, point);
    if r.Ok? {
      NotArrived(s, id);
      LocalStepKeepsInv(s, s', id, r.value);
    }
  }

  lemma ArriveWakeKeepsInv(s: State, contextDone: bool, a: nat)
    requires Inv(s) && CanWake(s, contextDone, a) && s.arrivals[a].worker in s.workers
    ensures Inv(ArriveWake(s, contextDone, a).0)
    ensures ArriveWake(s, contextDone, a).1 != WokeWithoutRelease
  {
    assert ArrivalInv(s, a);
    var id := s.arrivals[a].worker;
    assert WorkerInv(s, id);
    var s' := ArriveWake(s, contextDone, a).0;
    NotArrived(s, id);
    forall b | 0 <= b < |s.arrivals| && b != a ensures ArrivalInv(s', b) {
      assert ArrivalInv(s, b);
    }
    forall other | other in s'.workers ensures WorkerInv(s', other) {
      assert WorkerInv(s, other);
    }
  }

  lemma WaitStartKeepsInv(s: State, contextDone: bool, id: string, point: string, timeout: int)
    requires Inv(s)
    ensures Inv(WaitStart(s, contextDone, id, point, timeout).0)
  {
    var (s', r) := WaitStart(s, contextDone, id, point, timeout);
    if r == None { SameLifecycle(s, s', id); }
  }

  /** Only wait bookkeeping of one worker differs, or a worker outside Arrive became blocked. */
  lemma SameLifecycle(s: State, s': State, id: string)
    requires Inv(s) && id in s.workers
    requires s'.closed == s.closed && s'.arrivals == s.arrivals && s'.workers.Keys == s.workers.Keys
    requires forall other :: other in s.workers && other != id ==> s'.workers[other] == s.workers[other]
    requires s'.workers[id].arrival == s.workers[id].arrival
    requires (s'.workers[id].state == s.workers[id].state && s'.workers[id].point == s.workers[id].point)
          || (s'.workers[id].state != Arrived && s.workers[id].state != Arrived)
    ensures Inv(s')
  {
    forall a | 0 <= a < |s.arrivals| ensures ArrivalInv(s', a) { assert ArrivalInv(s, a); }
    forall other | other in s'.workers ensures WorkerInv(s', other) { assert WorkerInv(s, other); }
  }

  lemma WaitWakeKeepsInv(s: State, contextDone: bool, id: string, point: string, wake: Wake)
    requires Inv(s) && id in s.workers
    ensures Inv(WaitWake(s, contextDone, id, point, wake).0)
  {
    SameLifecycle(s, WaitWake(s, contextDone, id, point, wake).0, id);
  }

  lemma ReleaseKeepsInv(s: State, contextDone: bool, id: string, point: string)
    requires Inv(s)
    ensures Inv(Release(s, contextDone, id, point).0)
    ensures contextDone || s.closed ==> Release(s, contextDone, id, point).1.Some?
  {
    var (s', r) := Release(s, contextDone, id, point);
    if r == None {
      var a := s.workers[id].arrival.value;
      assert WorkerInv(s, id) && ArrivalInv(s, a);
      NotArrived(s, id);
      LocalStepKeepsInv(s, s', id, a);
    }
  }

  lemma FinishKeepsInv(s: State, id: string, failed: bool)
    requires Inv(s)
    ensures Inv(Finish(s, id, failed).0)
  {
    var (s', r) := Finish(s, id, failed);
    if r == None {
      NotArrived(s, id);
      forall a | 0 <= a < |s.arrivals| ensures ArrivalInv(s', a) {
        assert ArrivalInv(s, a);
        assert !Outstanding(s, id, a);
      }
      forall other | other in s'.workers ensures WorkerInv(s', other) { assert WorkerInv(s, other); }
    }
  }

  lemma CloseKeepsInv(s: State)
    requires Inv(s)
    ensures Inv(Close(s))
  {
    var s' := Close(s);
    if !s.closed {
      forall a | 0 <= a < |s'.arrivals| ensures ArrivalInv(s', a) {
        assert ArrivalInv(s, a);
        assert WorkerInv(s, s.arrivals[a].worker);
      }
      forall id | id in s'.workers ensures WorkerInv(s', id) {
        assert WorkerInv(s, id);
        if s.workers[id].arrival.Some? { assert ArrivalInv(s, s.workers[id].arrival.value); }
      }
    }
  }

  // ----- Every run -----

  lemma {:induction false} EveryRunKeepsInv(actions: seq<Action>)
    ensures Inv(Run(actions))
  {
    if actions != [] {
      EveryRunKeepsInv(actions[..|actions| - 1]);
      ApplyKeepsInv(Run(actions[..|actions| - 1]), actions[|actions| - 1]);
    }
  }

  /** In every run a worker is Arrived exactly when it has an unresolved Arrive call, and it
      never has two. */
  lemma ArrivedMeansOneOutstanding(actions: seq<Action>, id: string)
    requires id in Run(actions).workers
    ensures Run(actions).workers[id].state == Arrived <==> exists a :: Outstanding(Run(actions), id, a)
    ensures forall a, b :: Outstanding(Run(actions), id, a) && Outstanding(Run(actions), id, b) ==> a == b
  {
    var s := Run(actions);
    EveryRunKeepsInv(actions);
    NotArrived(s, id);
    assert WorkerInv(s, id);
  }

  /** In every run, for every Arrive call: the channel is closed at most once; if the call has
      returned, it returned nil exactly when a Release with its own worker and point resolved
      it; and it never woke without a release. */
  lemma ArriveReturnsNilIffReleased(actions: seq<Action>, a: nat)
    requires a < |Run(actions).arrivals|
    ensures var arrival := Run(actions).arrivals[a];
            && arrival.readyCloses <= 1
            && (arrival.outcome.Some? ==>
                  (arrival.outcome.value == Nil <==> arrival.releasedBy == Some((arrival.worker, arrival.point))))
            && (arrival.releasedBy.Some? ==> arrival.releasedBy.value == (arrival.worker, arrival.point))
            && arrival.outcome != Some(WokeWithoutRelease)
  {
    EveryRunKeepsInv(actions);
    assert ArrivalInv(Run(actions), a);
  }

  /** A released call that has not returned can wake, whatever its context, and returns nil. */
  lemma ReleaseWakesExactlyThatCall(s: State, id: string, point: string, contextDone: bool)
    requires Inv(s) && Release(s, false, id, point).1 == None
    ensures var s' := Release(s, false, id, point).0; var a := s.workers[id].arrival.value;
            && Outstanding(s, id, a) && s.arrivals[a].point == point
            && CanWake(s', contextDone, a) && s'.arrivals[a].worker in s'.workers
            && ArriveWake(s', contextDone, a).1 == Nil
            && (forall b :: 0 <= b < |s.arrivals| && b != a ==> s'.arrivals[b] == s.arrivals[b])
  {
    assert WorkerInv(s, id);
    assert ArrivalInv(s, s.workers[id].arrival.value);
  }
}
