/** What has happened to each worker, told by the answers of the calls alone, and what the
    runtime must therefore answer next (internal/syncpoint/runtime.go). */
module Stories {
  import opened Options
  import opened Scenarios
  import opened Syncpoint

  /** Free: registered, or back from a call that failed.  Gated: its Arrive call blocks at a
      point.  Passed: last released from a point.  Stuck: a wait for it timed out at a point. */
  datatype Life =
    | Free
    | Gated(call: nat, point: string)
    | Passed(point: string)
    | Stuck(point: string)
    | Over(failed: bool)

  datatype Story = Story(life: Life, awaited: Option<string>)

  datatype Chronicle = Chronicle(closed: bool, stories: map<string, Story>)

  function WithLife(k: Chronicle, id: string, life: Life): Chronicle {
    if id in k.stories then k.(stories := k.stories[id := k.stories[id].(life := life)]) else k
  }

  function WithWait(k: Chronicle, id: string, awaited: Option<string>): Chronicle {
    if id in k.stories then k.(stories := k.stories[id := k.stories[id].(awaited := awaited)]) else k
  }

  /** An ungated story. */
  function Ungated(story: Story): Story {
    if story.life.Gated? then story.(life := Free) else story
  }

  /** What one call and its answer add. */
  function Told(k: Chronicle, s: State, action: Action): Chronicle {
    match action
    case DoRegister(id) =>
      if Register(s, id).1 == None then k.(stories := k.stories[id := Story(Free, None)]) else k
    case DoArriveStart(contextDone, id, point) =>
      var answer := ArriveStart(s, contextDone, id, point).1;
      if answer.Ok? then WithLife(k, id, Gated(answer.value, point)) else k
    case DoArriveWake(contextDone, a) =>
      if CanWake(s, contextDone, a) && s.arrivals[a].worker in s.workers
         && ArriveWake(s, contextDone, a).1 == FailedContext
         && s.arrivals[a].worker in k.stories && k.stories[s.arrivals[a].worker].life.Gated?
      then WithLife(k, s.arrivals[a].worker, Free) else k
    case DoWaitStart(contextDone, id, point, timeout) =>
      if WaitStart(s, contextDone, id, point, timeout).1 == None then WithWait(k, id, Some(point)) else k
    case DoWaitWake(contextDone, id, point, wake) =>
      if id in s.workers && id in k.stories && k.stories[id].awaited == Some(point)
         && WaitWake(s, contextDone, id, point, wake).1.Some?
      then
        var over := WithWait(k, id, None);
        if WaitWake(s, contextDone, id, point, wake).1 == Some(Ok(StatusTimeout))
        then WithLife(over, id, Stuck(point)) else over
      else k
    case DoRelease(contextDone, id, point) =>
      if Release(s, contextDone, id, point).1 == None then WithLife(k, id, Passed(point)) else k
    case DoFinish(id, failed) =>
      if Finish(s, id, failed).1 == None then WithLife(k, id, Over(failed)) else k
    case DoClose =>
      if k.closed then k else Chronicle(true, map id | id in k.stories :: Ungated(k.stories[id]))
  }

  function Tell(actions: seq<Action>): Chronicle {
    if actions == [] then Chronicle(false, map[])
    else
      var before := actions[..|actions| - 1];
      Told(Tell(before), Run(before), actions[|actions| - 1])
  }

  // ----- The runtime remembers just that -----

  predicate Matches(worker: WorkerRecord, story: Story) {
    && worker.waitActive == story.awaited.Some?
    && (story.awaited.Some? ==> worker.waitPoint == story.awaited.value)
    && match story.life
       case Free => worker.state == Running
       case Gated(a, point) => worker.state == Arrived && worker.point == point && worker.arrival == Some(a)
       case Passed(point) => worker.state == Released && worker.point == point
       case Stuck(point) => worker.state == DBBlocked && worker.point == point
       case Over(failed) => worker.state == if failed then Failed else Done
  }

  ghost predicate Remembers(s: State, k: Chronicle) {
    && s.closed == k.closed && s.workers.Keys == k.stories.Keys
    && forall id :: id in s.workers ==> Matches(s.workers[id], k.stories[id])
  }

  lemma WakeIsRemembered(s: State, k: Chronicle, contextDone: bool, a: nat)
    requires Inv(s) && Remembers(s, k)
    ensures Remembers(Apply(s, DoArriveWake(contextDone, a)), Told(k, s, DoArriveWake(contextDone, a)))
  {
    if CanWake(s, contextDone, a) && s.arrivals[a].worker in s.workers {
      var id := s.arrivals[a].worker;
      assert ArrivalInv(s, a) && WorkerInv(s, id) && Matches(s.workers[id], k.stories[id]);
    }
  }

  lemma CloseIsRemembered(s: State, k: Chronicle)
    requires Inv(s) && Remembers(s, k)
    ensures Remembers(Apply(s, DoClose), Told(k, s, DoClose))
  {
    var s', k' := Apply(s, DoClose), Told(k, s, DoClose);
    forall id | id in s'.workers ensures Matches(s'.workers[id], k'.stories[id]) {
      assert WorkerInv(s, id) && Matches(s.workers[id], k.stories[id]);
    }
  }

  /** A step that changes one worker's record only needs that record looked at. */
  lemma OneIsRemembered(s: State, k: Chronicle, s': State, k': Chronicle, id: string)
    requires Remembers(s, k) && s'.closed == s.closed && k'.closed == k.closed
    requires || (s' == s && k' == k)
             || (id in s'.workers && s'.workers == s.workers[id := s'.workers[id]]
                 && id in k'.stories && k'.stories == k.stories[id := k'.stories[id]]
                 && Matches(s'.workers[id], k'.stories[id]))
    ensures Remembers(s', k')
  {
  }

  lemma RegisterIsRemembered(s: State, k: Chronicle, id: string)
    requires Inv(s) && Remembers(s, k)
    ensures Remembers(Apply(s, DoRegister(id)), Told(k, s, DoRegister(id)))
  {
    OneIsRemembered(s, k, Apply(s, DoRegister(id)), Told(k, s, DoRegister(id)), id);
  }

  lemma ArrivalIsRemembered(s: State, k: Chronicle, contextDone: bool, id: string, point: string)
    requires Inv(s) && Remembers(s, k)
    ensures var action := DoArriveStart(contextDone, id, point); Remembers(Apply(s, action), Told(k, s, action))
  {
    assert id in s.workers ==> Matches(s.workers[id], k.stories[id]);
    var action := DoArriveStart(contextDone, id, point);
    OneIsRemembered(s, k, Apply(s, action), Told(k, s, action), id);
  }

  lemma WaitIsRemembered(s: State, k: Chronicle, contextDone: bool, id: string, point: string, timeout: int)
    requires Inv(s) && Remembers(s, k)
    ensures var action := DoWaitStart(contextDone, id, point, timeout); Remembers(Apply(s, action), Told(k, s, action))
  {
    assert id in s.workers ==> Matches(s.workers[id], k.stories[id]);
    var action := DoWaitStart(contextDone, id, point, timeout);
    OneIsRemembered(s, k, Apply(s, action), Told(k, s, action), id);
  }

  lemma WaitWakeIsRemembered(s: State, k: Chronicle, contextDone: bool, id: string, point: string, wake: Wake)
    requires Inv(s) && Remembers(s, k)
    ensures Remembers(Apply(s, DoWaitWake(contextDone, id, point, wake)),
                      Told(k, s, DoWaitWake(contextDone, id, point, wake)))
  {
    if id in s.workers && s.workers[id].waitActive && s.workers[id].waitPoint == point {
      WokenMatches(s, k, contextDone, id, point, wake);
      var s', k' := WaitWake(s, contextDone, id, point, wake).0, Told(k, s, DoWaitWake(contextDone, id, point, wake));
      OneIsRemembered(s, k, s', k', id);
    } else {
      assert id in s.workers ==> Matches(s.workers[id], k.stories[id]);
    }
  }

  lemma WokenMatches(s: State, k: Chronicle, contextDone: bool, id: string, point: string, wake: Wake)
    requires Remembers(s, k) && id in s.workers && s.workers[id].waitActive && s.workers[id].waitPoint == point
    ensures var s' := WaitWake(s, contextDone, id, point, wake).0;
            var k' := Told(k, s, DoWaitWake(contextDone, id, point, wake));
            && s'.closed == s.closed && k'.closed == k.closed
            && id in s'.workers && s'.workers == s.workers[id := s'.workers[id]]
            && id in k'.stories && k'.stories == k.stories[id := k'.stories[id]]
            && Matches(s'.workers[id], k'.stories[id])
  {
    assert Matches(s.workers[id], k.stories[id]);
  }

  lemma ReleaseIsRemembered(s: State, k: Chronicle, contextDone: bool, id: string, point: string)
    requires Inv(s) && Remembers(s, k)
    ensures var action := DoRelease(contextDone, id, point); Remembers(Apply(s, action), Told(k, s, action))
  {
    assert id in s.workers ==> Matches(s.workers[id], k.stories[id]);
    var action := DoRelease(contextDone, id, point);
    OneIsRemembered(s, k, Apply(s, action), Told(k, s, action), id);
  }

  lemma FinishIsRemembered(s: State, k: Chronicle, id: string, failed: bool)
    requires Inv(s) && Remembers(s, k)
    ensures Remembers(Apply(s, DoFinish(id, failed)), Told(k, s, DoFinish(id, failed)))
  {
    assert id in s.workers ==> Matches(s.workers[id], k.stories[id]);
    OneIsRemembered(s, k, Apply(s, DoFinish(id, failed)), Told(k, s, DoFinish(id, failed)), id);
  }

  lemma StepIsRemembered(s: State, k: Chronicle, action: Action)
    requires Inv(s) && Remembers(s, k)
    ensures Remembers(Apply(s, action), Told(k, s, action))
  {
    match action
    case DoRegister(id) => RegisterIsRemembered(s, k, id);
    case DoArriveStart(contextDone, id, point) => ArrivalIsRemembered(s, k, contextDone, id, point);
    case DoArriveWake(contextDone, a) => WakeIsRemembered(s, k, contextDone, a);
    case DoWaitStart(contextDone, id, point, timeout) => WaitIsRemembered(s, k, contextDone, id, point, timeout);
    case DoWaitWake(contextDone, id, point, wake) => WaitWakeIsRemembered(s, k, contextDone, id, point, wake);
    case DoRelease(contextDone, id, point) => ReleaseIsRemembered(s, k, contextDone, id, point);
    case DoFinish(id, failed) => FinishIsRemembered(s, k, id, failed);
    case DoClose => CloseIsRemembered(s, k);
  }

  /** In every run the runtime remembers what its answers told. */
  lemma {:induction false} RunIsRemembered(actions: seq<Action>)
    ensures Remembers(Run(actions), Tell(actions))
  {
    if actions != [] {
      var before := actions[..|actions| - 1];
      RunIsRemembered(before);
      EveryRunKeepsInv(before);
      StepIsRemembered(Run(before), Tell(before), actions[|actions| - 1]);
    }
  }

  // ----- What every call must answer -----

  /** The runtime is open, the call well formed, and the worker registered. */
  predicate Heard(actions: seq<Action>, id: string, point: string) {
    !Tell(actions).closed && id in Tell(actions).stories && !Blank(id) && !Blank(point)
  }

  /** Why an arrival may be refused: the worker has ended, is awaited elsewhere, was stuck
      elsewhere, is gated already, or repeats the point it was last released from. */
  predicate MayNotArrive(story: Story, point: string) {
    || story.life.Over?
    || (story.awaited.Some? && story.awaited.value != point)
    || (story.life.Stuck? && story.life.point != point)
    || story.life.Gated?
    || (story.life.Passed? && story.life.point == point)
  }

  /** An arrival is refused exactly for one of those reasons, and then changes nothing. */
  lemma ArrivalIsAdmitted(actions: seq<Action>, id: string, point: string)
    requires Heard(actions, id, point)
    ensures var story, (s', answer) := Tell(actions).stories[id], ArriveStart(Run(actions), false, id, point);
            && (answer.Err? <==> MayNotArrive(story, point))
            && (answer.Err? ==> s' == Run(actions))
            && (answer == Err(ErrPointMismatch) <==>
                  || (story.awaited.Some? && story.awaited.value != point)
                  || ((story.life.Stuck? || story.life.Gated?) && story.life.point != point))
            && (answer.Err? ==> answer.error == ErrPointMismatch || answer.error == ErrInvalidTransition)
            && (answer.Ok? ==> answer.value == |Run(actions).arrivals|
                               && Run(actions + [DoArriveStart(false, id, point)]) == s')
  {
    RunIsRemembered(actions);
    assert Matches(Run(actions).workers[id], Tell(actions).stories[id]);
    assert (actions + [DoArriveStart(false, id, point)])[..|actions|] == actions;
  }

  /** What a call answers before its worker is looked at: its context, its names, the runtime, and
      whether the worker is known, in this order. */
  predicate Screened(k: Chronicle, contextDone: bool, misused: bool, id: string, error: Option<Error>) {
    && (contextDone ==> error == Some(ContextDone))
    && (!contextDone && misused ==> error == Some(ErrInvalidTransition))
    && (!contextDone && !misused ==>
          && (error == Some(ErrClosed) <==> k.closed)
          && (error == Some(ErrUnknownWorker) <==> !k.closed && id !in k.stories)
          && error != Some(ContextDone))
  }

  lemma ArrivalIsScreened(actions: seq<Action>, contextDone: bool, id: string, point: string)
    ensures var arrival := ArriveStart(Run(actions), contextDone, id, point).1;
            Screened(Tell(actions), contextDone, Blank(id) || Blank(point), id,
                     if arrival.Err? then Some(arrival.error) else None)
  {
    RunIsRemembered(actions);
  }

  lemma WaitIsScreened(actions: seq<Action>, contextDone: bool, id: string, point: string, timeout: int)
    ensures var wait := WaitStart(Run(actions), contextDone, id, point, timeout).1;
            Screened(Tell(actions), contextDone, Blank(id) || Blank(point) || timeout <= 0, id,
                     if wait.Some? && wait.value.Err? then Some(wait.value.error) else None)
  {
    RunIsRemembered(actions);
  }

  lemma ReleaseIsScreened(actions: seq<Action>, contextDone: bool, id: string, point: string)
    ensures Screened(Tell(actions), contextDone, Blank(id) || Blank(point), id,
                     Release(Run(actions), contextDone, id, point).1)
  {
    RunIsRemembered(actions);
  }

  lemma OneMore(actions: seq<Action>, action: Action)
    ensures Run(actions + [action]) == Apply(Run(actions), action)
    ensures Tell(actions + [action]) == Told(Tell(actions), Run(actions), action)
  {
    assert (actions + [action])[..|actions|] == actions;
  }

  /** A worker that was released may go on to any other point that it is not awaited away from. */
  lemma NextPointIsOpen(actions: seq<Action>, id: string, p: string, q: string)
    requires Release(Run(actions), false, id, p).1 == None && p != q && !Blank(q)
    requires Run(actions).workers[id].waitActive ==> Run(actions).workers[id].waitPoint == q
    ensures ArriveStart(Run(actions + [DoRelease(false, id, p)]), false, id, q).1.Ok?
    ensures ArriveStart(Run(actions + [DoRelease(false, id, p)]), false, id, p).1.Err?
  {
    RunIsRemembered(actions);
    assert Matches(Run(actions).workers[id], Tell(actions).stories[id]);
    OneMore(actions, DoRelease(false, id, p));
    ArrivalIsAdmitted(actions + [DoRelease(false, id, p)], id, q);
    ArrivalIsAdmitted(actions + [DoRelease(false, id, p)], id, p);
  }

  /** A worker that did not come in time may still come, to the point it was waited for at, and
      to no other. */
  lemma LatePointIsOpen(actions: seq<Action>, id: string, p: string, q: string)
    requires Heard(actions, id, p) && !Blank(q) && p != q
    requires Tell(actions).stories[id].awaited == Some(p) && id in Run(actions).workers
    requires WaitWake(Run(actions), false, id, p, WakeTimeout).1 == Some(Ok(StatusTimeout))
    ensures var more := actions + [DoWaitWake(false, id, p, WakeTimeout)];
            && ArriveStart(Run(more), false, id, p).1.Ok?
            && ArriveStart(Run(more), false, id, q).1 == Err(ErrPointMismatch)
  {
    var step := DoWaitWake(false, id, p, WakeTimeout);
    RunIsRemembered(actions);
    OneMore(actions, step);
    assert Heard(actions + [step], id, p) && Heard(actions + [step], id, q);
    ArrivalIsAdmitted(actions + [step], id, p);
    ArrivalIsAdmitted(actions + [step], id, q);
  }

  /** The answer that a wait has already, told by the worker's story. */
  ghost predicate WaitAnswered(closed: bool, life: Life, point: string, answer: Option<Result<ArriveStatus>>) {
    if closed then answer == Some(Err(ErrClosed))
    else
      match life
      case Free => answer == None
      case Gated(_, at) => answer == Some(if at == point then Ok(StatusArrived) else Err(ErrPointMismatch))
      case Passed(at) => answer == if at == point then Some(Err(ErrInvalidTransition)) else None
      case Stuck(at) => answer == if at == point then None else Some(Err(ErrPointMismatch))
      case Over(failed) => answer == Some(Ok(if failed then StatusFailed else StatusDone))
  }

  /** A wait is refused while another one is on; it answers at once when the story holds the
      answer, and is registered otherwise. */
  lemma WaitIsAnswered(actions: seq<Action>, id: string, point: string, timeout: int)
    requires Heard(actions, id, point)
    ensures var story, (s', answer) := Tell(actions).stories[id], WaitStart(Run(actions), false, id, point, timeout);
            && (timeout <= 0 || story.awaited.Some? ==> answer == Some(Err(ErrInvalidTransition)))
            && (timeout > 0 && story.awaited == None ==> WaitAnswered(false, story.life, point, answer))
            && (answer.Some? ==> s' == Run(actions))
            && (answer == None ==>
                  Tell(actions + [DoWaitStart(false, id, point, timeout)]).stories[id]
                  == story.(awaited := Some(point)))
  {
    RunIsRemembered(actions);
    assert Matches(Run(actions).workers[id], Tell(actions).stories[id]);
    OneMore(actions, DoWaitStart(false, id, point, timeout));
  }

  /** A wait that wakes up answers from the story, then from its context, then from its timer, and
      else sleeps on.  Whatever it answers, it is over. */
  lemma WakeIsAnswered(actions: seq<Action>, contextDone: bool, id: string, point: string, wake: Wake)
    requires id in Tell(actions).stories && Tell(actions).stories[id].awaited == Some(point)
    ensures id in Run(actions).workers
    ensures var k, answer := Tell(actions), WaitWake(Run(actions), contextDone, id, point, wake).1;
            var story := k.stories[id];
            var after := Tell(actions + [DoWaitWake(contextDone, id, point, wake)]).stories[id];
            && (WaitAnswered(k.closed, story.life, point, answer)
                || (WaitAnswered(k.closed, story.life, point, None)
                    && answer == if contextDone then Some(Err(ContextDone))
                                 else if wake == WakeTimeout then Some(Ok(StatusTimeout)) else None))
            && (WaitAnswered(k.closed, story.life, point, None) && (contextDone || wake == WakeTimeout) ==>
                  answer.Some?)
            && (answer.Some? <==> after.awaited == None)
            && after.life == if answer == Some(Ok(StatusTimeout)) then Stuck(point) else story.life
  {
    RunIsRemembered(actions);
    assert Matches(Run(actions).workers[id], Tell(actions).stories[id]);
    OneMore(actions, DoWaitWake(contextDone, id, point, wake));
  }

  /** A release succeeds exactly for a worker that is gated at that point. */
  lemma ReleaseIsAnswered(actions: seq<Action>, id: string, point: string)
    requires Heard(actions, id, point)
    ensures var life, (s', error) := Tell(actions).stories[id].life, Release(Run(actions), false, id, point);
            && (error == None <==> life.Gated? && life.point == point)
            && (error == Some(ErrPointMismatch) <==> life.Gated? && life.point != point)
            && (error == Some(ErrInvalidTransition) <==> !life.Gated?)
            && (error.Some? ==> s' == Run(actions))
            && (error == None ==> life.call < |s'.arrivals| && s'.arrivals[life.call].releasedBy == Some((id, point)))
  {
    RunIsRemembered(actions);
    EveryRunKeepsInv(actions);
    assert Matches(Run(actions).workers[id], Tell(actions).stories[id]) && WorkerInv(Run(actions), id);
  }

  /** A worker can be finished exactly while it is neither gated nor over, also after the
      runtime was closed. */
  lemma FinishIsAnswered(actions: seq<Action>, id: string, failed: bool)
    requires id in Tell(actions).stories && !Blank(id)
    ensures var life, (s', error) := Tell(actions).stories[id].life, Finish(Run(actions), id, failed);
            && (error == None <==> !life.Gated? && !life.Over?)
            && (error.Some? ==> error.value == ErrInvalidTransition && s' == Run(actions))
            && (error == None ==> Tell(actions + [DoFinish(id, failed)]).stories[id].life == Over(failed))
  {
    RunIsRemembered(actions);
    assert Matches(Run(actions).workers[id], Tell(actions).stories[id]);
    OneMore(actions, DoFinish(id, failed));
  }

  /** Nobody else can be finished, and that changes nothing. */
  lemma OnlyWorkersFinish(actions: seq<Action>, id: string, failed: bool)
    requires Blank(id) || id !in Tell(actions).stories
    ensures Finish(Run(actions), id, failed)
         == (Run(actions), Some(if Blank(id) then ErrInvalidTransition else ErrUnknownWorker))
  {
    RunIsRemembered(actions);
  }

  /** Registering succeeds exactly once for each worker, while the runtime is open. */
  lemma RegisterIsAnswered(actions: seq<Action>, id: string)
    ensures var k, error := Tell(actions), Register(Run(actions), id).1;
            && (error == None <==> !Blank(id) && !k.closed && id !in k.stories)
            && (error == Some(ErrClosed) <==> !Blank(id) && k.closed)
            && (error == Some(ErrInvalidTransition) <==> Blank(id) || (!k.closed && id in k.stories))
            && (error.Some? ==> Register(Run(actions), id).0 == Run(actions))
            && (error == None ==> Tell(actions + [DoRegister(id)]).stories == k.stories[id := Story(Free, None)])
  {
    RunIsRemembered(actions);
    OneMore(actions, DoRegister(id));
  }

  /** A blocked Arrive call returns nil exactly if it was released, and otherwise fails with the
      runtime closed or with its context done; only then is its worker free again. */
  lemma ReturnIsAnswered(actions: seq<Action>, contextDone: bool, a: nat)
    requires CanWake(Run(actions), contextDone, a)
    ensures Run(actions).arrivals[a].worker in Run(actions).workers
    ensures var s, outcome := Run(actions), ArriveWake(Run(actions), contextDone, a).1;
            && (outcome == Nil <==> s.arrivals[a].releasedBy.Some?)
            && (outcome == FailedClosed <==> s.arrivals[a].releasedBy == None && Tell(actions).closed)
            && (outcome == FailedContext <==> s.arrivals[a].releasedBy == None && !Tell(actions).closed)
            && (outcome == FailedContext ==> contextDone)
  {
    RunIsRemembered(actions);
    EveryRunKeepsInv(actions);
    ReturnFrom(Run(actions), contextDone, a);
  }

  lemma ReturnFrom(s: State, contextDone: bool, a: nat)
    requires Inv(s) && CanWake(s, contextDone, a)
    ensures s.arrivals[a].worker in s.workers
    ensures var outcome := ArriveWake(s, contextDone, a).1;
            && (outcome == Nil <==> s.arrivals[a].releasedBy.Some?)
            && (outcome == FailedClosed <==> s.arrivals[a].releasedBy == None && s.closed)
            && (outcome == FailedContext <==> s.arrivals[a].releasedBy == None && !s.closed)
            && (outcome == FailedContext ==> contextDone)
  {
    assert ArrivalInv(s, a);
  }

  /** Closing frees every gated worker and leaves all other stories alone. */
  lemma CloseIsToldOnce(actions: seq<Action>, id: string)
    requires id in Tell(actions).stories
    ensures var after := Tell(actions + [DoClose]);
            && after.closed && id in after.stories
            && (!Tell(actions).closed && Tell(actions).stories[id].life.Gated? ==> after.stories[id].life == Free)
            && (!Tell(actions).stories[id].life.Gated? ==> after.stories[id] == Tell(actions).stories[id])
            && after.stories[id].awaited == Tell(actions).stories[id].awaited
  {
    OneMore(actions, DoClose);
  }
}
