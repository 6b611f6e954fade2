/** Everything that may happen to the runtime while the coordinator is between two of its own
    steps: workers arrive, wake and are finished by their collectors, and the run's context may
    be cancelled.  An Arrive call's context is cancelled only together with the coordinator's. */
module Environment {
  import opened Options
  import opened Scenarios
  import opened Syncpoint

  datatype World = World(state: State, cancelled: bool)

  datatype EnvAction =
    | WorkerArrives(contextDone: bool, id: string, point: string)
    | WorkerWakes(arrival: nat)
    | CollectorFinishes(id: string, failed: bool)
    | Cancel

  function EnvApply(w: World, action: EnvAction): World {
    match action
    case WorkerArrives(contextDone, id, point) =>
      if contextDone && !w.cancelled then w else w.(state := ArriveStart(w.state, contextDone, id, point).0)
    case WorkerWakes(a) =>
      if CanWake(w.state, w.cancelled, a) && w.state.arrivals[a].worker in w.state.workers
      then w.(state := ArriveWake(w.state, w.cancelled, a).0) else w
    case CollectorFinishes(id, failed) => w.(state := Finish(w.state, id, failed).0)
    case Cancel => w.(cancelled := true)
  }

  function EnvRun(w: World, actions: seq<EnvAction>): World {
    if actions == [] then w else EnvApply(EnvRun(w, actions[..|actions| - 1]), actions[|actions| - 1])
  }

  /** Some finite sequence of environment steps leads from w to w'. */
  ghost predicate Evolves(w: World, w': World) {
    exists actions :: w' == EnvRun(w, actions)
  }

  predicate SameState(a: State, b: State) {
    a == b
  }

  /** The runtime's invariant, over all states that are the same, so that proofs which only pass it
      on do not unfold it. */
  ghost predicate Sound(s: State) {
    forall t :: SameState(t, s) ==> Inv(t)
  }

  lemma SoundMeans(s: State)
    ensures Sound(s) <==> Inv(s)
  {
    assert SameState(s, s);
  }

  // ----- What the environment cannot undo -----

  /** The worker is held at point: waiting before it or arrived at it, or it has ended. */
  ghost predicate Held(w: World, id: string, point: string) {
    && id in w.state.workers
    && (w.cancelled
        || w.state.workers[id].state in {Done, Failed}
        || (w.state.workers[id].state in {DBBlocked, Arrived} && w.state.workers[id].point == point))
  }

  /** The worker has arrived at point and stays there until it is released. */
  ghost predicate ArrivedAt(w: World, id: string, point: string) {
    && id in w.state.workers
    && (w.cancelled || (w.state.workers[id].state == Arrived && w.state.workers[id].point == point))
  }

  ghost predicate Idle(w: World, id: string) {
    id in w.state.workers && !w.state.workers[id].waitActive
  }

  /** Facts about one worker that survive. */
  ghost predicate KeepsWorker(w: World, w': World, id: string) {
    && (id in w.state.workers <==> id in w'.state.workers)
    && (id in w.state.workers ==>
          && w'.state.workers[id].waitActive == w.state.workers[id].waitActive
          && w'.state.workers[id].waitPoint == w.state.workers[id].waitPoint)
    && (forall point :: Held(w, id, point) ==> Held(w', id, point))
    && (forall point :: ArrivedAt(w, id, point) ==> ArrivedAt(w', id, point))
  }

  /** Facts about the whole world that survive. */
  ghost predicate KeepsWorld(w: World, w': World) {
    && Sound(w'.state)
    && w'.state.closed == w.state.closed
    && (w.cancelled ==> w'.cancelled)
  }

  ghost predicate Keeps(w: World, w': World) {
    KeepsWorld(w, w') && forall id :: KeepsWorker(w, w', id)
  }

  /** As Keeps, except for one worker that the coordinator itself is waiting for or releasing. */
  ghost predicate KeepsOthers(w: World, w': World, id: string) {
    KeepsWorld(w, w') && forall other :: other != id ==> KeepsWorker(w, w', other)
  }

  lemma EnvApplyKeeps(w: World, action: EnvAction)
    requires Sound(w.state)
    ensures Keeps(w, EnvApply(w, action))
  {
    match action
    case WorkerArrives(contextDone, id, point) =>
      if !contextDone || w.cancelled { ArrivesKeeps(w, contextDone, id, point); }
    case WorkerWakes(a) =>
      if CanWake(w.state, w.cancelled, a) && w.state.arrivals[a].worker in w.state.workers { WakesKeeps(w, a); }
    case CollectorFinishes(id, failed) => FinishesKeeps(w, id, failed);
    case Cancel =>
  }

  lemma ArrivesKeeps(w: World, contextDone: bool, id: string, point: string)
    requires Sound(w.state)
    ensures Keeps(w, w.(state := ArriveStart(w.state, contextDone, id, point).0))
  {
    SoundMeans(w.state);
    ArriveStartKeepsInv(w.state, contextDone, id, point);
    SoundMeans(ArriveStart(w.state, contextDone, id, point).0);
  }

  lemma WakesKeeps(w: World, a: nat)
    requires Sound(w.state) && CanWake(w.state, w.cancelled, a) && w.state.arrivals[a].worker in w.state.workers
    ensures Keeps(w, w.(state := ArriveWake(w.state, w.cancelled, a).0))
  {
    SoundMeans(w.state);
    SoundMeans(ArriveWake(w.state, w.cancelled, a).0);
    var id := w.state.arrivals[a].worker;
    var w' := w.(state := ArriveWake(w.state, w.cancelled, a).0);
    ArriveWakeKeepsInv(w.state, w.cancelled, a);
    assert ArrivalInv(w.state, a) && WorkerInv(w.state, id);
    assert w'.state.workers[id] == w.state.workers[id].(arrival := w'.state.workers[id].arrival) || w.cancelled;
    forall other ensures KeepsWorker(w, w', other) {
      if other != id { SameWorkerKeeps(w, w', other); }
    }
  }

  /** A worker whose entry is untouched keeps everything. */
  lemma SameWorkerKeeps(w: World, w': World, id: string)
    requires w'.cancelled == w.cancelled && (id in w.state.workers <==> id in w'.state.workers)
    requires id in w.state.workers ==> w'.state.workers[id] == w.state.workers[id]
    ensures KeepsWorker(w, w', id)
  {}

  lemma FinishesKeeps(w: World, id: string, failed: bool)
    requires Sound(w.state)
    ensures Keeps(w, w.(state := Finish(w.state, id, failed).0))
  {
    SoundMeans(w.state);
    FinishKeepsInv(w.state, id, failed);
    SoundMeans(Finish(w.state, id, failed).0);
  }

  lemma {:induction false} EnvRunKeeps(w: World, actions: seq<EnvAction>)
    requires Sound(w.state)
    ensures Keeps(w, EnvRun(w, actions))
  {
    if actions != [] {
      var mid := EnvRun(w, actions[..|actions| - 1]);
      EnvRunKeeps(w, actions[..|actions| - 1]);
      EnvApplyKeeps(mid, actions[|actions| - 1]);
      KeepsTransitive(w, mid, EnvRun(w, actions));
    }
  }

  lemma KeepsTransitive(a: World, b: World, c: World)
    requires Keeps(a, b) && Keeps(b, c)
    ensures Keeps(a, c)
  {
    forall id ensures KeepsWorker(a, c, id) {
      assert KeepsWorker(a, b, id) && KeepsWorker(b, c, id);
    }
  }

  /** Whatever the environment does, held workers stay held and arrived workers stay arrived. */
  lemma EvolvesKeeps(w: World, w': World)
    requires Sound(w.state) && Evolves(w, w')
    ensures Keeps(w, w')
  {
    var actions :| w' == EnvRun(w, actions);
    EnvRunKeeps(w, actions);
  }

  // ----- What a wait can answer -----

  /** A wait step answers Arrived only at the requested point, leaves the worker held there when
      it times out, and while the worker is held elsewhere answers neither unless cancelled. */
  lemma WaitAnswer(w: World, id: string, point: string, wake: Wake, contextDone: bool)
    requires Sound(w.state) && id in w.state.workers
    requires contextDone ==> w.cancelled
    ensures var (s', r) := WaitWake(w.state, contextDone, id, point, wake);
            var w' := w.(state := s');
            && KeepsOthers(w, w', id)
            && (r == Some(Ok(StatusArrived)) ==> ArrivedAt(w', id, point))
            && (r == Some(Ok(StatusTimeout)) ==> Held(w', id, point))
            && (r.Some? ==> Idle(w', id))
            && (r == None ==> w' == w)
            && (r == Some(Ok(StatusArrived)) || r == Some(Ok(StatusTimeout)) ==>
                  forall other :: Held(w, id, other) && other != point ==> w.cancelled)
  {
    SoundMeans(w.state);
    WaitWakeKeepsInv(w.state, contextDone, id, point, wake);
    SoundMeans(WaitWake(w.state, contextDone, id, point, wake).0);
  }

  /** Releasing succeeds for a worker that has arrived, and fails once the context is done. */
  lemma ReleaseAnswer(w: World, id: string, point: string, contextDone: bool)
    requires Sound(w.state) && !w.state.closed && !Blank(id) && !Blank(point)
    requires contextDone ==> w.cancelled
    ensures var (s', error) := Release(w.state, contextDone, id, point);
            && KeepsOthers(w, w.(state := s'), id)
            && (error == None ==> !contextDone)
            && (ArrivedAt(w, id, point) && !w.cancelled ==> error == None)
            && (id in w.state.workers ==>
                  id in s'.workers && s'.workers[id].waitActive == w.state.workers[id].waitActive)
  {
    SoundMeans(w.state);
    ReleaseKeepsInv(w.state, contextDone, id, point);
    SoundMeans(Release(w.state, contextDone, id, point).0);
    if id in w.state.workers { assert WorkerInv(w.state, id); }
  }

  /** The start of a wait answers like a wake-up, except that it never times out. */
  lemma StartAnswer(w: World, id: string, point: string, timeout: int, contextDone: bool)
    requires Sound(w.state) && Idle(w, id)
    requires contextDone ==> w.cancelled
    ensures var (s', r) := WaitStart(w.state, contextDone, id, point, timeout);
            var w' := w.(state := s');
            && KeepsOthers(w, w', id)
            && id in s'.workers
            && (forall other :: Held(w, id, other) ==> Held(w', id, other))
            && (r == Some(Ok(StatusArrived)) ==> ArrivedAt(w', id, point))
            && r != Some(Ok(StatusTimeout))
            && (r.Some? ==> Idle(w', id))
            && (r == Some(Ok(StatusArrived)) ==> forall other :: Held(w, id, other) && other != point ==> w.cancelled)
  {
    SoundMeans(w.state);
    WaitStartKeepsInv(w.state, contextDone, id, point, timeout);
    SoundMeans(WaitStart(w.state, contextDone, id, point, timeout).0);
  }

  /** Why a wait for a registered worker may answer with an error. */
  predicate WaitMayFail(w: World, id: string, point: string, timeout: int, error: Error) {
    match error
    case ContextDone => w.cancelled
    case ErrClosed => w.state.closed
    case ErrUnknownWorker => false
    case ErrPointMismatch =>
      id in w.state.workers && w.state.workers[id].state in {Arrived, DBBlocked} && w.state.workers[id].point != point
    case ErrInvalidTransition =>
      || Blank(id) || Blank(point) || timeout <= 0
      || (id in w.state.workers && w.state.workers[id].state == Released && w.state.workers[id].point == point)
  }

  /** Why a release may be refused. */
  predicate ReleaseMayFail(w: World, id: string, point: string, error: Error) {
    match error
    case ContextDone => w.cancelled
    case ErrClosed => w.state.closed
    case ErrUnknownWorker => id !in w.state.workers
    case ErrPointMismatch => id in w.state.workers && w.state.workers[id].point != point
    case ErrInvalidTransition =>
      Blank(id) || Blank(point) || (id in w.state.workers && w.state.workers[id].state != Arrived)
  }

  lemma WaitFailure(w: World, id: string, point: string, timeout: int, wake: Wake, contextDone: bool)
    requires id in w.state.workers && (contextDone ==> w.cancelled)
    ensures var (s', r) := WaitWake(w.state, contextDone, id, point, wake);
            r.Some? && r.value.Err? ==> WaitMayFail(w.(state := s'), id, point, timeout, r.value.error)
    ensures var (s', r) := WaitStart(w.state, contextDone, id, point, timeout);
            r.Some? && r.value.Err? && !w.state.workers[id].waitActive ==>
              WaitMayFail(w.(state := s'), id, point, timeout, r.value.error)
  {
  }

  lemma ReleaseFailure(w: World, id: string, point: string, contextDone: bool)
    requires Sound(w.state) && (contextDone ==> w.cancelled)
    ensures var (s', error) := Release(w.state, contextDone, id, point);
            error.Some? ==> ReleaseMayFail(w.(state := s'), id, point, error.value)
  {
    SoundMeans(w.state);
    if id in w.state.workers { assert WorkerInv(w.state, id); }
  }

  lemma KeepsOthersTransitive(a: World, b: World, c: World, id: string)
    requires KeepsOthers(a, b, id) && KeepsOthers(b, c, id)
    ensures KeepsOthers(a, c, id)
  {
    forall other | other != id ensures KeepsWorker(a, c, other) {
      assert KeepsWorker(a, b, other) && KeepsWorker(b, c, other);
    }
  }
}
