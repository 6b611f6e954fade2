/** One schedule execution (internal/orchestrator/run.go): the coordinator bootstraps every
    worker, traverses the saved steps, and drains the pending ones, while the environment
    interferes with the runtime between any two of its steps.  Every outcome the source leaves
    to time, to the workers or to the observer is an arbitrary choice. */
module Coordinator {
  import opened Options
  import opened Scenarios
  import opened Syncpoint
  import opened Runtimes
  import opened Environment
  import opened Traces
  import opened ExecutionProgress
  import opened Logbooks
  import S = Syncpoint

  datatype Failure =
    | RegisterFailed(error: S.Error)
    | InvokeFailed
    | WaitFailed(error: S.Error)
    | ReleaseFailed(error: S.Error)
    | CollectFailed
    | ObserverFailed
    | NoProgress(pending: nat)

  /** What reading a collector's channel gives.  A published value without an error always
      carries the worker's own result (internal/orchestrator/outcome.go). */
  datatype Delivery =
    | Published(hasResult: bool, failed: bool, erred: bool)
    | ClosedEmpty
    | ContextFirst

  type Receipt = d: Delivery | d.Published? ==> d.hasResult || d.erred witness ClosedEmpty

  ghost predicate NamedStep(sc: Scenario, step: Step) {
    Known(sc, step.worker) && !Blank(step.worker) && !Blank(step.point)
  }

  ghost predicate HasStep(steps: seq<Step>, id: string) {
    exists i :: 0 <= i < |steps| && steps[i].worker == id
  }

  /** What execution relies on: saved steps are distinct and well named, and every worker has one. */
  ghost predicate GoodSteps(sc: Scenario, steps: seq<Step>) {
    && DistinctSteps(steps)
    && (forall i :: 0 <= i < |steps| ==> NamedStep(sc, steps[i]))
    && (forall w :: 0 <= w < |sc.workers| ==> HasStep(steps, sc.workers[w].id) && !Blank(sc.workers[w].id))
    && Distinct(WorkerIds(sc.workers))
  }

  lemma ScheduleIsGood(sc: Scenario, steps: seq<Step>)
    requires ValidScenario(sc) && Interleaving(sc, steps)
    ensures GoodSteps(sc, steps)
  {
    InterleavingIsDistinct(sc, steps);
    forall i | 0 <= i < |steps| ensures NamedStep(sc, steps[i]) {
      var step := steps[i];
      assert Known(sc, step.worker);
      ProjectMember(steps, step.worker, step.point);
      assert step.point in sc.points;
    }
    forall w | 0 <= w < |sc.workers| ensures HasStep(steps, sc.workers[w].id) {
      var id := sc.workers[w].id;
      assert WorkerIds(sc.workers)[w] == id && Known(sc, id);
      ProjectMember(steps, id, sc.points[0]);
      assert Step(id, sc.points[0]) in steps;
    }
  }

  datatype Execution = Execution(invoked: bool, collected: bool, terminal: bool, failed: bool)

  /** A worker's entry says what the trace has recorded of it. */
  ghost predicate AgreesOn(execution: Execution, acc: Account, id: string) {
    && (execution.terminal <==> id in acc.ended)
    && (execution.collected <==> execution.terminal)
    && (execution.failed <==> id in acc.failed)
    && (execution.failed ==> execution.terminal)
  }

  ghost predicate Agrees(executions: map<string, Execution>, acc: Account) {
    forall id :: id in executions ==> AgreesOn(executions[id], acc, id)
  }

  /** The account after a worker's end. */
  function EndAs(acc: Account, id: string, failed: bool): Account {
    acc.(ended := acc.ended + {id}, failed := if failed then acc.failed + {id} else acc.failed)
  }

  lemma AgreesAfterEnd(executions: map<string, Execution>, acc: Account, id: string, failed: bool, e: Event)
    requires Agrees(executions, acc) && id in executions && !executions[id].collected
    requires Ends(e) == Some(id) && (failed <==> e.WorkerFailed?)
    ensures Agrees(executions[id := Execution(executions[id].invoked, true, true, failed)], Record(acc, e))
  {
    var after := executions[id := Execution(executions[id].invoked, true, true, failed)];
    assert AgreesOn(executions[id], acc, id);
    forall other | other in after ensures AgreesOn(after[other], Record(acc, e), other) {
      if other != id { assert AgreesOn(executions[other], acc, other); }
    }
  }

  /** The fault behind a failure. */
  predicate Causes(fault: Fault, failure: Failure) {
    match failure
    case RegisterFailed(error) => fault == BadRegister(error)
    case InvokeFailed => fault == BadInvoke
    case WaitFailed(error) => fault == BadWait(error)
    case ReleaseFailed(error) => fault == BadRelease(error)
    case CollectFailed => fault == NoResult || fault == BadResult || fault == BadObserver
    case ObserverFailed => fault == BadObserver
    case NoProgress(_) => false
  }

  /** What the trace begins with. */
  function Registrations(workers: seq<Worker>): Trace {
    if workers == [] then []
    else Registrations(workers[..|workers| - 1]) + [WorkerRegistered(workers[|workers| - 1].id)]
  }

  datatype Terminal = Terminal(worker: string, failed: bool)

  class RunCoordinator {
    const sc: Scenario
    const steps: seq<Step>
    const runtime: Runtime
    const blockTimeout: int
    const stepTimeout: int

    var cancelled: bool
    var trace: Trace
    var observerFailed: bool
    var executions: map<string, Execution>
    var firstSteps: map<string, nat>
    var preObserved: set<nat>
    var pending: set<nat>
    var timeouts: nat
    var pendingResolved: nat
    var terminals: seq<Terminal>

    ghost var acc: Account
    ghost var log: Log
    ghost var waits: nat
    ghost var mood: Mood

    constructor (sc: Scenario, steps: seq<Step>, runtime: Runtime, blockTimeout: int, stepTimeout: int)
      requires ValidScenario(sc) && Interleaving(sc, steps) && runtime.Value() == INITIAL
      ensures this.sc == sc && this.steps == steps && this.runtime == runtime
      ensures Core() && executions == map[] && firstSteps == map[] && trace == []
      ensures preObserved == {} && pending == {} && timeouts == 0 && pendingResolved == 0 && log == [] && waits == 0
    {
      this.sc, this.steps, this.runtime := sc, steps, runtime;
      this.blockTimeout, this.stepTimeout := blockTimeout, stepTimeout;
      cancelled, trace, observerFailed, executions, firstSteps := false, [], false, map[], map[];
      preObserved, pending, timeouts, pendingResolved, terminals := {}, {}, 0, 0, [];
      acc, log, waits, mood := Tally([]), [], 0, Calm;
      new;
      ScheduleIsGood(sc, steps);
      OrderMeans(Ours(), log, Page(), trace, acc);
      SoundMeans(runtime.Value());
    }

    // ----- Invariants -----

    ghost function Now(): World
      reads `cancelled, runtime
    {
      World(runtime.Value(), cancelled)
    }

    ghost function Snapshot(): Progress
      reads `acc, `pending, `preObserved, `pendingResolved
    {
      Progress(acc.arrived, acc.released, acc.skipped, acc.ended, acc.timedOut, pending, preObserved, pendingResolved)
    }

    /** Holds at every moment, also after a failure. */
    ghost predicate Core()
      reads this, runtime
    {
      && GoodSteps(sc, steps)
      && Sound(runtime.Value()) && !runtime.closed
      && Tracked()
    }

    ghost predicate Tracked()
      reads `trace, `acc, `log, `waits, `mood
    {
      InOrder(Ours(), log, Page(), trace, acc)
    }

    ghost function Ours(): Rules {
      Rules(sc, steps, blockTimeout, stepTimeout)
    }

    ghost function Page(): Book
      reads `waits, `mood
    {
      Book(waits, mood)
    }

    /** A failure has its cause outside, entered last. */
    ghost predicate Blamed(failure: Option<Failure>)
      reads `mood
    {
      failure.Some? ==> mood.Broken? && Causes(mood.fault, failure.value)
    }

    /** Only a lack of progress has no cause outside: then every step still pending has timed
        out once more, one after the other, and nothing else has happened since. */
    ghost predicate Accounted(failure: Option<Failure>)
      reads `mood, `trace, `pending
    {
      if failure.Some? && failure.value.NoProgress? then
        && mood == Calm && failure.value.pending == |pending| > 0
        && |Overdue(pending, |steps|)| == |pending| && EndsWith(trace, Overdue(pending, |steps|))
      else Blamed(failure)
    }

    /** The tables agree with the trace, as long as nothing has failed. */
    ghost predicate Tables()
      reads `executions, `acc, `timeouts, `preObserved, `trace, `waits, `mood
    {
      && (forall id :: Known(sc, id) ==> id in executions)
      && (forall w :: 0 <= w < waits && w < |sc.workers| ==> HasBeenInvoked(sc.workers[w].id))
      && (mood.Called? ==> HasBeenInvoked(mood.worker))
      && Registrations(sc.workers) <= trace
      && Agrees(executions, acc)
      && timeouts == acc.timeouts
      && preObserved <= acc.arrived
    }

    ghost predicate HasBeenInvoked(id: string)
      reads `executions
    {
      id in executions && executions[id].invoked
    }

    /** Nothing has failed. */
    ghost predicate Stable()
      reads this, runtime
    {
      Core() && Tables() && AllIdle(sc, Now())
    }

    /** And no answer waits to be acted on. */
    ghost predicate Live()
      reads this, runtime
    {
      Stable() && mood == Calm
    }

    /** And every worker has been invoked and waited for. */
    ghost predicate Begun()
      reads `waits
    {
      waits >= |sc.workers|
    }

    // ----- Steps of the environment and of the recorder -----

    method Interfere()
      requires Sound(runtime.Value())
      modifies this`cancelled, runtime
      ensures Evolves(old(Now()), Now()) && Keeps(old(Now()), Now())
    {
      ghost var start := Now();
      ghost var actions: seq<EnvAction> := [];
      var moves: nat := *;
      while moves > 0
        invariant Now() == EnvRun(start, actions) && Sound(runtime.Value())
      {
        var action: EnvAction := *;
        EnvApplyKeeps(Now(), action);
        match action {
          case WorkerArrives(contextDone, id, point) =>
            if !contextDone || cancelled { var _ := runtime.ArriveStart(contextDone, id, point); }
          case WorkerWakes(a) =>
            if a < |runtime.arrivals| && runtime.arrivals[a].outcome == None
               && (runtime.arrivals[a].readyCloses > 0 || cancelled) && runtime.arrivals[a].worker in runtime.workers {
              var _ := runtime.ArriveWake(cancelled, a);
            }
          case CollectorFinishes(id, failed) => var _ := runtime.Finish(id, failed);
          case Cancel => cancelled := true;
        }
        assert (actions + [action])[..|actions|] == actions;
        actions := actions + [action];
        moves := moves - 1;
      }
      EvolvesKeeps(start, Now());
    }

    /** Enters a fault from outside. */
    ghost method Blame(fault: Fault)
      requires Tracked() && !mood.Broken?
      modifies `log, `mood
      ensures Tracked() && mood == Broken(fault)
    {
      OrderGoesOn(Ours(), log, Page(), trace, acc, Faulted(fault));
      log, mood := log + [Faulted(fault)], Broken(fault);
    }

    /** Appends an event unless the observer has failed before; reports whether it failed by now. */
    method Emit(e: Event) returns (failure: Option<Failure>)
      requires Tracked() && Allowed(steps, acc, e) && MayRecord(Ours(), Page(), e)
      modifies `trace, `observerFailed, `log, `mood, `acc
      ensures Tracked()
      ensures failure.Some? ==> failure.value == ObserverFailed && mood == Broken(BadObserver)
      ensures failure == None ==>
        && trace == old(trace) + [e] && acc == Record(old(acc), e)
        && mood == Turn(old(Page()), Recorded(e)).mood
    {
      if observerFailed {
        Blame(BadObserver);
        return Some(ObserverFailed);
      }
      OrderGoesOn(Ours(), log, Page(), trace, acc, Recorded(e));
      trace := trace + [e];
      acc := Record(acc, e);
      log, mood := log + [Recorded(e)], Turn(Page(), Recorded(e)).mood;
      var fails: bool := *;
      if fails {
        observerFailed := true;
        Blame(BadObserver);
        return Some(ObserverFailed);
      }
      return None;
    }

    // ----- Calls into the runtime -----

    /** Waits for one worker at one point.  Between the context check, the start of the wait and
        each wake-up the environment may move; a timer or context wake-up ends the wait. */
    method WaitArrive(id: string, point: string, timeout: int) returns (r: S.Result<ArriveStatus>)
      requires Sound(runtime.Value()) && Idle(Now(), id)
      modifies this`cancelled, runtime
      ensures KeepsOthers(old(Now()), Now(), id) && Idle(Now(), id)
      ensures r.Err? ==> WaitMayFail(Now(), id, point, timeout, r.error)
      ensures r == Ok(StatusArrived) ==> ArrivedAt(Now(), id, point)
      ensures r == Ok(StatusTimeout) ==> Held(Now(), id, point)
      ensures r == Ok(StatusArrived) || r == Ok(StatusTimeout) ==>
              forall other :: Held(old(Now()), id, other) && other != point ==> cancelled
    {
      ghost var start := Now();
      var contextDone := cancelled;
      Interfere();
      ghost var entered := Now();
      KeepsAll(start, entered, id);
      StartAnswer(entered, id, point, timeout, contextDone);
      WaitFailure(entered, id, point, timeout, WakeChanged, contextDone);
      var answer := runtime.WaitStart(contextDone, id, point, timeout);
      KeepsOthersTransitive(start, entered, Now(), id);
      if answer.Some? { return answer.value; }
      var changes: nat := *;
      while true
        invariant KeepsOthers(start, Now(), id) && id in runtime.workers
        invariant forall other :: Held(start, id, other) ==> Held(Now(), id, other)
        decreases changes
      {
        ghost var before := Now();
        Interfere();
        ghost var woken := Now();
        KeepsAll(before, woken, id);
        KeepsOthersTransitive(start, before, woken, id);
        var wake: Wake := *;
        if (wake == WakeContext && !cancelled) || (wake == WakeChanged && changes == 0) { wake := WakeTimeout; }
        WaitAnswer(woken, id, point, wake, cancelled);
        WaitFailure(woken, id, point, timeout, wake, cancelled);
        answer := runtime.WaitWake(cancelled, id, point, wake);
        KeepsOthersTransitive(start, woken, Now(), id);
        if answer.Some? { return answer.value; }
        changes := changes - 1;
      }
    }

    /** What an answer of a wait says about the step's worker. */
    twostate predicate Answers(index: nat, timeout: int, r: S.Result<ArriveStatus>)
      reads `cancelled, runtime
      requires index < |steps|
    {
      var step := steps[index];
      && KeepsOthers(old(Now()), Now(), step.worker) && Idle(Now(), step.worker)
      && (r.Err? ==> WaitMayFail(Now(), step.worker, step.point, timeout, r.error))
      && (r == Ok(StatusArrived) ==> ArrivedAt(Now(), step.worker, step.point))
      && (r == Ok(StatusTimeout) ==> Held(Now(), step.worker, step.point))
      && (r == Ok(StatusArrived) || r == Ok(StatusTimeout) ==>
            forall other :: Held(old(Now()), step.worker, other) && other != step.point ==> cancelled)
    }

    /** Waits for a saved step, and enters the answer. */
    method WaitAndEnter(index: nat, timeout: int) returns (r: S.Result<ArriveStatus>)
      requires Core() && index < |steps| && Idle(Now(), steps[index].worker)
      requires MayWait(Ours(), Page(), index, timeout)
      modifies this`cancelled, runtime, this`log, this`waits, this`mood
      ensures Core() && waits == old(waits) + 1 && mood == Turn(old(Page()), Waited(index, timeout, r)).mood
      ensures Answers(index, timeout, r)
    {
      r := WaitArrive(steps[index].worker, steps[index].point, timeout);
      OrderGoesOn(Ours(), log, Page(), trace, acc, Waited(index, timeout, r));
      mood := Turn(Page(), Waited(index, timeout, r)).mood;
      log, waits := log + [Waited(index, timeout, r)], waits + 1;
    }

    /** The same while nothing has failed. */
    method WaitStep(index: nat, timeout: int) returns (r: S.Result<ArriveStatus>)
      requires Stable() && index < |steps| && MayWait(Ours(), Page(), index, timeout)
      modifies this`cancelled, runtime, this`log, this`waits, this`mood
      ensures Stable() && waits == old(waits) + 1 && mood == Turn(old(Page()), Waited(index, timeout, r)).mood
      ensures waits <= |sc.workers| ==> HasBeenInvoked(steps[index].worker)
      ensures Answers(index, timeout, r)
    {
      assert NamedStep(sc, steps[index]);
      ghost var w := Now();
      r := WaitAndEnter(index, timeout);
      AllIdleKeepsOthers(sc, w, Now(), steps[index].worker);
    }

    /** Releases one worker at one point.  A failure of an arrived worker means cancellation. */
    method ReleaseWorker(id: string, point: string) returns (error: Option<S.Error>)
      requires Sound(runtime.Value()) && !runtime.closed && Idle(Now(), id) && !Blank(id) && !Blank(point)
      modifies this`cancelled, runtime
      ensures KeepsOthers(old(Now()), Now(), id) && Idle(Now(), id)
      ensures error == None ==> !old(cancelled)
      ensures error.Some? && ArrivedAt(old(Now()), id, point) ==> cancelled
      ensures error.Some? ==> ReleaseMayFail(Now(), id, point, error.value)
    {
      ghost var start := Now();
      var contextDone := cancelled;
      Interfere();
      ghost var entered := Now();
      KeepsAll(start, entered, id);
      ReleaseAnswer(entered, id, point, contextDone);
      ReleaseFailure(entered, id, point, contextDone);
      SoundMeans(entered.state);
      error := runtime.Release(contextDone, id, point);
      KeepsOthersTransitive(start, entered, Now(), id);
    }

    /** Releases one saved step's worker and records it. */
    method ReleaseIndex(index: nat) returns (failure: Option<Failure>)
      requires Core() && index < |steps| && Idle(Now(), steps[index].worker)
      requires index in acc.arrived && index !in acc.released && index !in acc.skipped
      requires steps[index].worker !in acc.ended && (cancelled || Cleared(steps, acc.released, index))
      requires mood == Calm && Begun()
      modifies this`cancelled, runtime, this`trace, this`observerFailed, this`log, this`mood, this`acc
      ensures Core() && Blamed(failure)
      ensures KeepsOthers(old(Now()), Now(), steps[index].worker) && Idle(Now(), steps[index].worker)
      ensures failure == None ==>
              && !old(cancelled) && acc == Record(old(acc), PointReleased(index))
              && trace == old(trace) + [PointReleased(index)] && mood == Calm
      ensures ReleaseRefused(failure) && ArrivedAt(old(Now()), steps[index].worker, steps[index].point) ==> cancelled
    {
      assert NamedStep(sc, steps[index]);
      var error := ReleaseWorker(steps[index].worker, steps[index].point);
      if error.Some? {
        Blame(BadRelease(error.value));
        return Some(ReleaseFailed(error.value));
      }
      failure := Emit(PointReleased(index));
    }

    // ----- Collecting worker results -----

    /** Takes a published result into the tables and records the worker's end. */
    method AcceptCollected(id: string, delivery: Receipt, step: int) returns (failure: Option<Failure>)
      requires Tracked() && Tables() && id in executions && !executions[id].collected
      requires delivery.Published? && MayEnd(Ours(), Page(), id, step)
      modifies `executions, `trace, `observerFailed, `log, `mood, `acc
      ensures Tracked() && Blamed(failure)
      ensures failure.Some? ==> failure.value == CollectFailed
      ensures failure == None ==>
              && Tables() && mood == Calm
              && acc == EndAs(old(acc), id, delivery.failed)
              && executions
                 == old(executions)[id := Execution(old(executions)[id].invoked, true, true, delivery.failed)]
              && trace == old(trace) + [if delivery.failed then WorkerFailed(id, step) else WorkerDone(id, step)]
    {
      var e := if delivery.failed then WorkerFailed(id, step) else WorkerDone(id, step);
      AgreesAfterEnd(executions, acc, id, delivery.failed, e);
      assert AgreesOn(executions[id], acc, id);
      executions := executions[id := Execution(executions[id].invoked, true, delivery.hasResult, delivery.failed)];
      if delivery.hasResult {
        failure := Emit(e);
        if failure.Some? { return Some(CollectFailed); }
      }
      if delivery.erred {
        Blame(BadResult);
        return Some(CollectFailed);
      }
      return None;
    }

    /** Takes what the worker's channel gave. */
    method Receive(id: string, delivery: Receipt, step: int) returns (failure: Option<Failure>)
      requires Stable() && Known(sc, id) && !executions[id].collected && MayEnd(Ours(), Page(), id, step)
      modifies this`executions, this`trace, this`observerFailed, this`log, this`mood, this`acc
      ensures Core() && Blamed(failure)
      ensures failure.Some? ==> failure.value == CollectFailed
      ensures failure == None ==> Live() && acc == EndAs(old(acc), id, executions[id].failed)
    {
      assert AgreesOn(executions[id], acc, id);
      if !delivery.Published? {
        Blame(NoResult);
        return Some(CollectFailed);
      }
      failure := AcceptCollected(id, delivery, step);
      if failure == None { assert AgreesOn(executions[id], acc, id); }
    }

    /** Blocks for the result of a worker that has not been collected yet. */
    method CollectNew(id: string, step: int) returns (failure: Option<Failure>)
      requires Stable() && Known(sc, id) && !executions[id].collected && HasBeenInvoked(id)
      requires MayEnd(Ours(), Page(), id, step)
      modifies this`cancelled, runtime, this`executions, this`trace, this`observerFailed, this`log, this`mood, this`acc
      ensures Core() && Blamed(failure)
      ensures failure.Some? ==> failure.value == CollectFailed
      ensures failure == None ==>
              && Live() && Keeps(old(Now()), Now())
              && acc == EndAs(old(acc), id, executions[id].failed)
    {
      ghost var start := Now();
      Interfere();
      AllIdleKeeps(sc, start, Now());
      var delivery: Receipt := *;
      if delivery.ContextFirst? {
        EnvApplyKeeps(Now(), Cancel);
        KeepsTransitive(start, Now(), EnvApply(Now(), Cancel));
        AllIdleKeeps(sc, Now(), EnvApply(Now(), Cancel));
        cancelled := true;
      }
      failure := Receive(id, delivery, step);
    }

    /** Blocks for a worker's result unless it has been collected already.  The worker has always
        been invoked by then. */
    method Collect(id: string, step: int) returns (failure: Option<Failure>)
      requires Stable() && Known(sc, id) && HasBeenInvoked(id) && MayEnd(Ours(), Page(), id, step)
      requires mood == Calm || !executions[id].collected
      modifies this`cancelled, runtime, this`executions, this`trace, this`observerFailed, this`log, this`mood, this`acc
      ensures Core() && Blamed(failure)
      ensures failure.Some? ==> failure.value == CollectFailed
      ensures failure == None ==>
              && Live() && Keeps(old(Now()), Now())
              && acc == EndAs(old(acc), id, executions[id].failed)
    {
      assert AgreesOn(executions[id], acc, id);
      if executions[id].collected { return None; }
      failure := CollectNew(id, step);
    }

    /** Takes a worker's result if it is there already. */
    method PollCollector(id: string, step: int) returns (failure: Option<Failure>)
      requires Stable() && Known(sc, id) && MayEnd(Ours(), Page(), id, step)
      modifies this`executions, this`trace, this`observerFailed, this`log, this`mood, this`acc
      ensures Core() && Blamed(failure)
      ensures failure.Some? ==> failure.value == CollectFailed
      ensures failure == None ==>
              && Stable()
              && ((acc == old(acc) && trace == old(trace) && mood == old(mood))
                  || (acc == old(acc).(ended := old(acc).ended + {id}, failed := acc.failed) && mood == Calm))
    {
      if executions[id].collected || !executions[id].invoked { return None; }
      var delivery: Receipt := *;
      if delivery.ContextFirst? { return None; }
      failure := Receive(id, delivery, step);
    }

    /** After a wait has timed out: either the worker's result is there by now, or the timeout is
        recorded. */
    method AfterTimeout(index: nat) returns (failure: Option<Failure>, terminal: bool)
      requires Stable() && index < |steps| && steps[index].worker !in acc.ended && index !in acc.arrived
      requires mood == Heard(index, StatusTimeout)
      modifies `executions, `trace, `observerFailed, `log, `mood, `acc, `timeouts
      ensures Core() && Blamed(failure) && !ReleaseRefused(failure)
      ensures failure == None ==> Live()
      ensures failure == None && terminal ==>
              acc == old(acc).(ended := old(acc).ended + {steps[index].worker}, failed := acc.failed)
      ensures failure == None && !terminal ==>
              acc == Record(old(acc), PointTimeout(index)) && trace == old(trace) + [PointTimeout(index)]
    {
      assert NamedStep(sc, steps[index]);
      failure := PollCollector(steps[index].worker, index);
      terminal := false;
      if failure.Some? { return; }
      terminal := executions[steps[index].worker].terminal;
      if !terminal {
        failure := EmitTimeout(index);
      }
    }

    method EmitTimeout(index: nat) returns (failure: Option<Failure>)
      requires Stable() && index < |steps| && steps[index].worker !in acc.ended && index !in acc.arrived
      requires mood == Heard(index, StatusTimeout)
      modifies `trace, `observerFailed, `log, `mood, `acc, `timeouts
      ensures Core() && Blamed(failure) && !ReleaseRefused(failure)
      ensures failure == None ==>
        Live() && acc == Record(old(acc), PointTimeout(index)) && trace == old(trace) + [PointTimeout(index)]
    {
      timeouts := timeouts + 1;
      failure := Emit(PointTimeout(index));
    }

    // ----- Bootstrap and traversal -----

    /** The first saved step of a worker, as the table has it; a missing key reads as zero. */
    method IndexFirstSteps()
      requires GoodSteps(sc, steps) && firstSteps == map[]
      modifies `firstSteps
      ensures FirstsKnown()
    {
      for index := 0 to |steps|
        invariant forall id :: id in firstSteps <==> exists j :: 0 <= j < index && steps[j].worker == id
        invariant forall id :: id in firstSteps ==> firstSteps[id] < index && IsFirst(firstSteps[id], id)
      {
        if steps[index].worker !in firstSteps {
          firstSteps := firstSteps[steps[index].worker := index];
        }
      }
      forall w | 0 <= w < |sc.workers| ensures IsFirst(Lookup(firstSteps, sc.workers[w].id), sc.workers[w].id) {
        assert HasStep(steps, sc.workers[w].id);
      }
    }

    /** The table names the first step of every worker. */
    ghost predicate FirstsKnown()
      reads `firstSteps
    {
      forall w :: 0 <= w < |sc.workers| ==> IsFirst(Lookup(firstSteps, sc.workers[w].id), sc.workers[w].id)
    }

    ghost predicate IsFirst(index: nat, id: string) {
      index < |steps| && steps[index].worker == id && First(steps, index)
    }

    /** Records what the bootstrap wait for a worker's first step answered. */
    method ObserveBootstrap(index: nat, status: ArriveStatus) returns (failure: Option<Failure>)
      requires Stable() && index < |steps| && steps[index].worker !in acc.ended && index !in acc.arrived
      requires mood == Heard(index, status) && HasBeenInvoked(steps[index].worker)
      requires status == StatusArrived ==> ArrivedAt(Now(), steps[index].worker, steps[index].point)
      modifies this`cancelled, runtime, this`executions, this`trace, this`observerFailed, this`log,
               this`mood, this`acc, this`timeouts, this`pending, this`preObserved
      ensures Core() && Blamed(failure) && !ReleaseRefused(failure)
      ensures failure == None ==>
              Live() && BootstrapMove(steps, old(Snapshot()), Snapshot(), old(Now()), Now(), index)
    {
      if status == StatusArrived {
        failure := PreObserve(index);
      } else if status == StatusTimeout {
        failure := PendUnlessEnded(index);
      } else {
        assert NamedStep(sc, steps[index]);
        failure := Collect(steps[index].worker, index);
      }
    }

    /** Remembers that a worker already waits at its first step. */
    method PreObserve(index: nat) returns (failure: Option<Failure>)
      requires Stable() && index < |steps| && steps[index].worker !in acc.ended && index !in acc.arrived
      requires mood == Heard(index, StatusArrived)
      modifies `trace, `observerFailed, `log, `mood, `acc, `preObserved
      ensures Core() && Blamed(failure) && !ReleaseRefused(failure)
      ensures failure == None ==>
              Live() && Snapshot() == old(Snapshot()).(preObserved := old(preObserved) + {index},
                                                       arrived := old(acc).arrived + {index})
    {
      failure := EmitArrived(index);
      if failure == None { preObserved := preObserved + {index}; }
    }

    /** A timed-out step becomes pending unless its worker has ended by now. */
    method PendUnlessEnded(index: nat) returns (failure: Option<Failure>)
      requires Stable() && index < |steps| && steps[index].worker !in acc.ended && index !in acc.arrived
      requires mood == Heard(index, StatusTimeout)
      modifies `executions, `trace, `observerFailed, `log, `mood, `acc, `timeouts, `pending
      ensures Core() && Blamed(failure) && !ReleaseRefused(failure)
      ensures failure == None ==>
              && Live()
              && (Snapshot() == old(Snapshot()).(pending := old(pending) + {index},
                                                 timedOut := old(acc).timedOut + {index})
                  || Snapshot() == old(Snapshot()).(ended := old(acc).ended + {steps[index].worker}))
    {
      var terminal;
      failure, terminal := AfterTimeout(index);
      if failure == None && !terminal { pending := pending + {index}; }
    }

    /** Waits for a worker's first step and records the answer. */
    method Bootstrap(index: nat) returns (failure: Option<Failure>)
      requires Stable() && index < |steps| && Traversing(steps, Snapshot(), Now(), 0) && Fresh(steps, Snapshot(), index)
      requires !Begun() && MayWait(Ours(), Page(), index, blockTimeout)
      modifies this`cancelled, runtime, this`executions, this`trace, this`observerFailed, this`log, this`waits,
               this`mood, this`acc, this`timeouts, this`pending, this`preObserved
      ensures Core() && Blamed(failure) && !ReleaseRefused(failure)
      ensures failure == None ==>
              && Live() && waits == old(waits) + 1
              && Traversing(steps, Snapshot(), Now(), 0) && Touched(steps, old(Snapshot()), Snapshot(), index)
    {
      var step := steps[index];
      ghost var p, w := Snapshot(), Now();
      var answer := WaitStep(index, blockTimeout);
      ghost var w1 := Now();
      FreshIsUnseen(steps, p, w, index);
      OthersMove(steps, p, w, w1, 0, step.worker);
      if answer.Err? { return Some(WaitFailed(answer.error)); }
      failure := ObserveBootstrap(index, answer.value);
      if failure == None {
        BootstrapGoesOn(steps, p, Snapshot(), w1, Now(), index);
      }
    }

    method EmitSkipped(index: nat) returns (failure: Option<Failure>)
      requires Live() && index < |steps| && index !in acc.released && index !in acc.skipped
      requires steps[index].worker in acc.ended && Begun()
      modifies `trace, `observerFailed, `log, `mood, `acc
      ensures Core() && Blamed(failure) && !ReleaseRefused(failure)
      ensures failure == None ==> Live() && Snapshot() == old(Snapshot()).(skipped := old(acc).skipped + {index})
    {
      failure := Emit(StepSkipped(index));
    }

    method EmitArrived(index: nat) returns (failure: Option<Failure>)
      requires Stable() && index < |steps| && steps[index].worker !in acc.ended && index !in acc.arrived
      requires mood == Heard(index, StatusArrived)
      modifies `trace, `observerFailed, `log, `mood, `acc
      ensures Core() && Blamed(failure) && !ReleaseRefused(failure)
      ensures failure == None ==>
        Live() && acc == old(acc).(arrived := old(acc).arrived + {index})
    {
      failure := Emit(PointArrived(index));
    }

    /** Records what the wait for a saved step of a live worker answered. */
    method ObserveStep(index: nat, status: ArriveStatus) returns (failure: Option<Failure>)
      requires Stable() && Begun() && index < |steps| && index !in acc.released && index !in acc.skipped
      requires steps[index].worker !in acc.ended && Cleared(steps, acc.released, index)
      requires mood == Heard(index, status) && index !in acc.arrived
      requires status == StatusArrived ==> ArrivedAt(Now(), steps[index].worker, steps[index].point)
      modifies this`cancelled, runtime, this`executions, this`trace, this`observerFailed, this`log, this`mood, this`acc,
               this`timeouts, this`pending
      ensures Core() && Blamed(failure) && (ReleaseRefused(failure) ==> cancelled)
      ensures failure == None ==>
              Live() && StepMove(steps, old(Snapshot()), Snapshot(), old(Now()), Now(), index)
    {
      assert NamedStep(sc, steps[index]);
      if status == StatusArrived {
        failure := ReleaseArrived(index);
      } else {
        if status == StatusTimeout {
          failure := PendUnlessEnded(index);
        } else {
          failure := Collect(steps[index].worker, index);
        }
        if failure == None && executions[steps[index].worker].terminal {
          failure := EmitSkipped(index);
        }
      }
    }

    method ReleaseArrived(index: nat) returns (failure: Option<Failure>)
      requires Stable() && Begun() && index < |steps| && index !in acc.released && index !in acc.skipped
      requires mood == Heard(index, StatusArrived) && index !in acc.arrived
      requires steps[index].worker !in acc.ended && (cancelled || Cleared(steps, acc.released, index))
      requires ArrivedAt(Now(), steps[index].worker, steps[index].point)
      modifies this`cancelled, runtime, this`trace, this`observerFailed, this`log, this`mood, this`acc
      ensures Core() && Blamed(failure) && (ReleaseRefused(failure) ==> cancelled)
      ensures failure == None ==>
              && Live() && !old(cancelled)
              && Snapshot() == old(Snapshot()).(released := old(acc).released + {index},
                                                arrived := old(acc).arrived + {index})
              && KeepsOthers(old(Now()), Now(), steps[index].worker)
    {
      failure := EmitArrived(index);
      if failure.Some? { return; }
      failure := ReleaseLive(index);
    }

    method ReleaseLive(index: nat) returns (failure: Option<Failure>)
      requires Live() && Begun() && index < |steps|
      requires index !in acc.released && index !in acc.skipped && index in acc.arrived
      requires steps[index].worker !in acc.ended && (cancelled || Cleared(steps, acc.released, index))
      requires ArrivedAt(Now(), steps[index].worker, steps[index].point)
      modifies this`cancelled, runtime, this`trace, this`observerFailed, this`log, this`mood, this`acc
      ensures Core() && Blamed(failure) && (ReleaseRefused(failure) ==> cancelled)
      ensures failure == None ==>
              && Live() && !old(cancelled)
              && Snapshot() == old(Snapshot()).(released := old(acc).released + {index})
              && KeepsOthers(old(Now()), Now(), steps[index].worker)
    {
      assert NamedStep(sc, steps[index]);
      ghost var w := Now();
      failure := ReleaseIndex(index);
      AllIdleKeepsOthers(sc, w, Now(), steps[index].worker);
    }

    /** Meets one saved step in order: skip it, defer it, or wait for it and release it. */
    method Traverse(index: nat) returns (failure: Option<Failure>)
      requires Live() && Begun() && index < |steps| && Traversing(steps, Snapshot(), Now(), index)
      modifies this, runtime
      ensures Core() && Blamed(failure) && (ReleaseRefused(failure) ==> cancelled)
      ensures failure == None ==> Live() && Begun() && Traversing(steps, Snapshot(), Now(), index + 1)
    {
      assert NamedStep(sc, steps[index]);
      if executions[steps[index].worker].terminal {
        failure := SkipEnded(index);
      } else if index in pending || exists i :: i in pending && i < index && steps[i].worker == steps[index].worker {
        Defer(index);
        failure := None;
      } else if index in preObserved {
        failure := ReleasePreObserved(index);
      } else {
        failure := WaitForStep(index);
      }
    }

    method SkipEnded(index: nat) returns (failure: Option<Failure>)
      requires Live() && index < |steps| && Traversing(steps, Snapshot(), Now(), index)
      requires steps[index].worker in acc.ended && Begun()
      modifies `trace, `observerFailed, `log, `mood, `acc
      ensures Core() && Blamed(failure) && !ReleaseRefused(failure)
      ensures failure == None ==> Live() && Traversing(steps, Snapshot(), Now(), index + 1)
    {
      ghost var p := Snapshot();
      StepAhead(steps, p, Now(), index);
      SkipMoves(steps, p, Now(), index);
      failure := EmitSkipped(index);
    }

    method Defer(index: nat)
      requires Live() && index < |steps| && Traversing(steps, Snapshot(), Now(), index)
      requires steps[index].worker !in acc.ended
      requires index in pending || PendingPredecessor(steps, Snapshot(), index)
      modifies `pending
      ensures Live() && Traversing(steps, Snapshot(), Now(), index + 1)
    {
      DeferralMoves(steps, Snapshot(), Now(), index);
      pending := pending + {index};
    }

    /** The worker's first step, already seen by the bootstrap wait. */
    method ReleasePreObserved(index: nat) returns (failure: Option<Failure>)
      requires Live() && index < |steps| && Traversing(steps, Snapshot(), Now(), index)
      requires Unencumbered(steps, Snapshot(), index) && index in preObserved && Begun()
      modifies this`cancelled, runtime, this`trace, this`observerFailed, this`log, this`mood, this`acc, this`preObserved
      ensures Core() && Blamed(failure) && (ReleaseRefused(failure) ==> cancelled)
      ensures failure == None ==> Live() && Traversing(steps, Snapshot(), Now(), index + 1)
    {
      ghost var p, w := Snapshot(), Now();
      StepAhead(steps, p, w, index);
      Releasable(steps, p, w, index);
      preObserved := preObserved - {index};
      failure := ReleaseLive(index);
      if failure == None {
        PreObservedGoesOn(steps, p, w, Now(), index);
      }
    }

    /** A step that has to be waited for. */
    method WaitForStep(index: nat) returns (failure: Option<Failure>)
      requires Live() && index < |steps| && Traversing(steps, Snapshot(), Now(), index)
      requires Unencumbered(steps, Snapshot(), index) && index !in preObserved && Begun()
      modifies this`cancelled, runtime, this`executions, this`trace, this`observerFailed, this`log, this`waits,
               this`mood, this`acc, this`timeouts, this`pending
      ensures Core() && Blamed(failure) && (ReleaseRefused(failure) ==> cancelled)
      ensures failure == None ==> Live() && Begun() && Traversing(steps, Snapshot(), Now(), index + 1)
    {
      var step := steps[index];
      ghost var p, w := Snapshot(), Now();
      StepAhead(steps, p, w, index);
      Releasable(steps, p, w, index);
      var answer := WaitStep(index, stepTimeout);
      ghost var w1 := Now();
      OthersMove(steps, p, w, w1, index, step.worker);
      if answer.Err? { return Some(WaitFailed(answer.error)); }
      failure := ObserveStep(index, answer.value);
      if failure == None {
        StepGoesOn(steps, p, Snapshot(), w1, Now(), index);
      }
    }

    // ----- Draining -----

    /** Rechecks one pending step; reports whether it was settled. */
    method DrainStep(index: nat) returns (failure: Option<Failure>, progressed: bool)
      requires Live() && Begun() && Draining(steps, Snapshot(), Now(), index) && index < |steps| && index in pending
      modifies this, runtime
      ensures Core() && Blamed(failure) && (ReleaseRefused(failure) ==> cancelled)
      ensures failure == None ==>
              && Live() && Begun() && Draining(steps, Snapshot(), Now(), index + 1)
              && pending == (if progressed then old(pending) - {index} else old(pending))
              && (!progressed ==> trace == old(trace) + [PointTimeout(index)])
    {
      var step := steps[index];
      assert NamedStep(sc, step);
      StepPending(steps, Snapshot(), Now(), index, index);
      progressed := false;
      if executions[step.worker].terminal {
        failure := SkipPending(index);
        progressed := true;
        return;
      }
      ghost var w := Now();
      var answer := WaitStep(index, stepTimeout);
      if answer.Err? { return Some(WaitFailed(answer.error)), false; }
      match answer.value {
        case StatusArrived =>
          failure := DrainArrived(index, w);
          progressed := true;
        case StatusTimeout =>
          failure, progressed := DrainTimeout(index, w);
        case _ =>
          failure := DrainEnded(index, w);
          progressed := true;
      }
    }

    method SkipPending(index: nat) returns (failure: Option<Failure>)
      requires Live() && Draining(steps, Snapshot(), Now(), index) && index < |steps| && index in pending
      requires steps[index].worker in acc.ended && Begun()
      modifies `trace, `observerFailed, `log, `mood, `acc, `pending
      ensures Core() && Blamed(failure) && !ReleaseRefused(failure)
      ensures failure == None ==>
              Live() && Draining(steps, Snapshot(), Now(), index + 1) && pending == old(pending) - {index}
    {
      ghost var p := Snapshot();
      StepPending(steps, p, Now(), index, index);
      SkipGoesOn(steps, p, Now(), index);
      failure := EmitSkipped(index);
      if failure == None {
        pending := pending - {index};
        assert Snapshot() == p.(skipped := p.skipped + {index}, pending := p.pending - {index});
      }
    }

    /** What a wait during draining started from. */
    ghost predicate Drained(index: nat, w: World)
      reads this, runtime
    {
      && Stable() && Begun() && Draining(steps, Snapshot(), w, index) && index < |steps| && index in pending
      && steps[index].worker !in acc.ended
      && KeepsOthers(w, Now(), steps[index].worker) && steps[index].worker in w.state.workers
    }

    method DrainArrived(index: nat, ghost w: World) returns (failure: Option<Failure>)
      requires Drained(index, w) && (cancelled || NotHeldElsewhere(steps, w, index))
      requires ArrivedAt(Now(), steps[index].worker, steps[index].point) && mood == Heard(index, StatusArrived)
      modifies this`cancelled, runtime, this`trace, this`observerFailed, this`log, this`mood, this`acc, this`pending,
               this`pendingResolved
      ensures Core() && Blamed(failure) && (ReleaseRefused(failure) ==> cancelled)
      ensures failure == None ==>
              Live() && Draining(steps, Snapshot(), Now(), index + 1) && pending == old(pending) - {index}
    {
      ghost var p, w1 := Snapshot(), Now();
      StepPending(steps, p, w, index, index);
      if !cancelled { ArrivalIsCleared(steps, p, w, index); }
      failure := ReleasePending(index);
      if failure == None {
        ArrivalGoesOn(steps, p, w, w1, Now(), index);
      }
    }

    /** Releases a pending step and counts it. */
    method ReleasePending(index: nat) returns (failure: Option<Failure>)
      requires Stable() && Begun() && index < |steps| && index !in acc.released && index !in acc.skipped
      requires mood == Heard(index, StatusArrived) && index !in acc.arrived
      requires steps[index].worker !in acc.ended && (cancelled || Cleared(steps, acc.released, index))
      requires ArrivedAt(Now(), steps[index].worker, steps[index].point)
      modifies this`cancelled, runtime, this`trace, this`observerFailed, this`log, this`mood, this`acc,
               this`pending, this`pendingResolved
      ensures Core() && Blamed(failure) && (ReleaseRefused(failure) ==> cancelled)
      ensures failure == None ==>
              && Live() && !old(cancelled)
              && Snapshot() == Settled(old(Snapshot()), index)
              && KeepsOthers(old(Now()), Now(), steps[index].worker)
    {
      failure := ReleaseArrived(index);
      if failure == None {
        pending := pending - {index};
        pendingResolved := pendingResolved + 1;
      }
    }

    method DrainTimeout(index: nat, ghost w: World) returns (failure: Option<Failure>, progressed: bool)
      requires Drained(index, w) && (cancelled || NotHeldElsewhere(steps, w, index))
      requires Held(Now(), steps[index].worker, steps[index].point) && mood == Heard(index, StatusTimeout)
      modifies `executions, `trace, `observerFailed, `log, `mood, `acc, `timeouts, `pending
      ensures Core() && Blamed(failure) && !ReleaseRefused(failure)
      ensures failure == None ==>
              && Live() && Draining(steps, Snapshot(), Now(), index + 1)
              && pending == (if progressed then old(pending) - {index} else old(pending))
              && (!progressed ==> trace == old(trace) + [PointTimeout(index)])
    {
      ghost var p := Snapshot();
      StepPending(steps, p, w, index, index);
      TimeoutGoesOn(steps, p, w, Now(), index);
      failure, progressed := AfterTimeout(index);
      if failure.Some? { return; }
      if progressed {
        assert Snapshot() == p.(ended := p.ended + {steps[index].worker});
        failure := SkipPending(index);
      } else {
        assert Snapshot() == p.(timedOut := p.timedOut + {index});
      }
    }

    method DrainEnded(index: nat, ghost w: World) returns (failure: Option<Failure>)
      requires Drained(index, w) && mood.Heard? && mood.at == index && mood.status in {StatusDone, StatusFailed}
      modifies this`cancelled, runtime, this`executions, this`trace, this`observerFailed, this`log, this`mood, this`acc,
               this`pending
      ensures Core() && Blamed(failure) && !ReleaseRefused(failure)
      ensures failure == None ==>
              Live() && Draining(steps, Snapshot(), Now(), index + 1) && pending == old(pending) - {index}
    {
      ghost var p, w1 := Snapshot(), Now();
      assert NamedStep(sc, steps[index]);
      failure := Collect(steps[index].worker, index);
      if failure.Some? { return; }
      EndGoesOn(steps, p, w, w1, Now(), index);
      assert Snapshot() == p.(ended := p.ended + {steps[index].worker});
      failure := SkipPending(index);
    }

    /** One pass over the pending steps in index order.  A pass without progress leaves them all, and
        has heard of nothing but a timeout of each. */
    method DrainPending() returns (failure: Option<Failure>, progressed: bool)
      requires Live() && Begun() && Draining(steps, Snapshot(), Now(), 0)
      modifies this, runtime
      ensures Core() && Blamed(failure) && (ReleaseRefused(failure) ==> cancelled)
      ensures failure == None ==>
              && Live() && Begun() && Draining(steps, Snapshot(), Now(), 0)
              && (if progressed then pending < old(pending)
                  else pending == old(pending) && trace == old(trace) + Overdue(pending, |steps|))
    {
      progressed := false;
      for index := 0 to |steps|
        invariant Live() && Begun() && Draining(steps, Snapshot(), Now(), index)
        invariant if progressed then pending < old(pending)
                  else pending == old(pending) && trace == old(trace) + Overdue(pending, index)
      {
        if index !in pending {
          PassGoesOn(steps, Snapshot(), Now(), index);
          continue;
        }
        var settled;
        failure, settled := DrainStep(index);
        if failure.Some? { return; }
        progressed := progressed || settled;
      }
      PassBeginsAgain(steps, Snapshot(), Now());
      failure := None;
    }

    // ----- The whole execution -----

    method RegisterWorkers() returns (failure: Option<Failure>)
      requires Core() && executions == map[] && acc == Tally([]) && timeouts == 0 && preObserved == {}
      requires trace == [] && waits == 0 && mood == Calm
      modifies this`cancelled, runtime, this`trace, this`observerFailed, this`log, this`mood, this`acc, this`executions
      ensures Core() && Blamed(failure) && !ReleaseRefused(failure)
      ensures failure == None ==> Live() && acc == Tally([]) && waits == 0
    {
      for k := 0 to |sc.workers|
        invariant Core() && RegisteredUpTo(k)
      {
        failure := RegisterWorker(sc.workers[k].id);
        if failure.Some? { return; }
        assert sc.workers[..k + 1][..k] == sc.workers[..k];
      }
      AllRegistered();
      failure := None;
    }

    lemma AllRegistered()
      requires Core() && RegisteredUpTo(|sc.workers|) && timeouts == 0 && preObserved == {} && waits == 0
      ensures Live()
    {
      assert sc.workers[..|sc.workers|] == sc.workers;
      forall id | id in executions ensures AgreesOn(executions[id], acc, id) {}
      forall id | Known(sc, id) ensures Registered(id) {
        var j :| 0 <= j < |sc.workers| && WorkerIds(sc.workers)[j] == id;
        assert sc.workers[j].id == id;
      }
    }

    /** The first k workers are registered, and nothing else has happened. */
    ghost predicate RegisteredUpTo(k: nat)
      reads `cancelled, `executions, `acc, `mood, `trace, runtime
    {
      && k <= |sc.workers| && acc == Tally([]) && mood == Calm && trace == Registrations(sc.workers[..k])
      && (forall j :: 0 <= j < k ==> Registered(sc.workers[j].id))
      && (forall id :: id in executions ==> executions[id] == Execution(false, false, false, false))
    }

    ghost predicate Registered(id: string)
      reads `cancelled, `executions, runtime
    {
      id in executions && Idle(Now(), id)
    }

    method RegisterWorker(id: string) returns (failure: Option<Failure>)
      requires Core() && waits == 0 && mood == Calm
      modifies this`cancelled, runtime, this`trace, this`observerFailed, this`log, this`mood, this`acc, this`executions
      ensures Core() && Blamed(failure) && !ReleaseRefused(failure)
      ensures failure == None ==>
              && mood == Calm && trace == old(trace) + [WorkerRegistered(id)]
              && acc == old(acc) && executions == old(executions)[id := Execution(false, false, false, false)]
              && Registered(id) && forall other :: old(Registered(other)) ==> Registered(other)
    {
      ghost var before := Now();
      Interfere();
      ghost var w := Now();
      SoundMeans(w.state);
      RegisterKeepsInv(w.state, id);
      var error := runtime.Register(id);
      SoundMeans(runtime.Value());
      if error.Some? {
        Blame(BadRegister(error.value));
        return Some(RegisterFailed(error.value));
      }
      forall other | Idle(before, other) ensures Idle(Now(), other) {
        assert KeepsWorker(before, w, other);
      }
      executions := executions[id := Execution(false, false, false, false)];
      failure := Emit(WorkerRegistered(id));
    }

    /** Starts one worker's command; its collector runs from here on. */
    method Invoke(id: string) returns (failure: Option<Failure>)
      requires Live() && Known(sc, id) && id !in acc.ended
      requires waits < |sc.workers| && id == sc.workers[waits].id
      modifies `executions, `trace, `observerFailed, `log, `mood, `acc
      ensures Core() && Blamed(failure) && !ReleaseRefused(failure)
      ensures failure == None ==> Stable() && mood == Called(id) && acc == old(acc)
    {
      var refused: bool := *;
      if refused {
        Blame(BadInvoke);
        return Some(InvokeFailed);
      }
      executions := executions[id := executions[id].(invoked := true)];
      failure := Emit(WorkerInvoked(id));
    }

    method Start() returns (failure: Option<Failure>)
      requires Live() && acc == Tally([]) && firstSteps == map[]
      requires preObserved == {} && pending == {} && pendingResolved == 0 && waits == 0
      modifies this, runtime
      ensures Core() && Blamed(failure) && !ReleaseRefused(failure)
      ensures failure == None ==> Live() && Begun() && Traversing(steps, Snapshot(), Now(), 0)
    {
      IndexFirstSteps();
      NothingStarted(steps, Snapshot(), Now());
      failure := StartAll();
    }

    /** Starts the workers one by one and waits for each at its first step. */
    method StartAll() returns (failure: Option<Failure>)
      requires Live() && Traversing(steps, Snapshot(), Now(), 0)
      requires Started(sc, steps, Snapshot(), 0) && FirstsKnown() && waits == 0
      modifies this`cancelled, runtime, this`executions, this`trace, this`observerFailed, this`log, this`waits,
               this`mood, this`acc, this`timeouts, this`pending, this`preObserved
      ensures Core() && Blamed(failure) && !ReleaseRefused(failure)
      ensures failure == None ==> Live() && Begun() && Traversing(steps, Snapshot(), Now(), 0)
    {
      for k := 0 to |sc.workers|
        invariant Live() && Traversing(steps, Snapshot(), Now(), 0) && FirstsKnown()
        invariant Started(sc, steps, Snapshot(), k) && waits == k
      {
        failure := StartWorker(k);
        if failure.Some? { return; }
      }
      failure := None;
    }

    method StartWorker(k: nat) returns (failure: Option<Failure>)
      requires Live() && Traversing(steps, Snapshot(), Now(), 0)
      requires k < |sc.workers| && Started(sc, steps, Snapshot(), k) && FirstsKnown() && waits == k
      modifies this`cancelled, runtime, this`executions, this`trace, this`observerFailed, this`log, this`waits,
               this`mood, this`acc, this`timeouts, this`pending, this`preObserved
      ensures Core() && Blamed(failure) && !ReleaseRefused(failure)
      ensures failure == None ==>
              && Live() && waits == k + 1
              && Traversing(steps, Snapshot(), Now(), 0) && Started(sc, steps, Snapshot(), k + 1)
    {
      var id := sc.workers[k].id;
      ghost var p, index := Snapshot(), Lookup(firstSteps, id);
      assert IsFirst(index, id);
      StartsNext(sc, steps, p, k, index);
      failure := Invoke(id);
      if failure.Some? { return; }
      failure := Bootstrap(Lookup(firstSteps, id));
      if failure == None { StartedNext(sc, steps, p, Snapshot(), k, index); }
    }

    method TraverseAll() returns (failure: Option<Failure>)
      requires Live() && Begun() && Traversing(steps, Snapshot(), Now(), 0)
      modifies this, runtime
      ensures Core() && Blamed(failure) && (ReleaseRefused(failure) ==> cancelled)
      ensures failure == None ==> Live() && Begun() && Draining(steps, Snapshot(), Now(), 0)
    {
      for index := 0 to |steps|
        invariant Live() && Begun() && Traversing(steps, Snapshot(), Now(), index)
      {
        failure := Traverse(index);
        if failure.Some? { return; }
      }
      DrainBegins(steps, Snapshot(), Now());
      failure := None;
    }

    /** Passes over the pending steps until none is left or a pass makes no progress. */
    method DrainAll() returns (failure: Option<Failure>)
      requires Live() && Begun() && Draining(steps, Snapshot(), Now(), 0)
      modifies this, runtime
      ensures Core() && Accounted(failure) && (ReleaseRefused(failure) ==> cancelled)
      ensures failure == None ==> Live() && Begun() && AllSettled() && pending == {} && Counted()
    {
      while pending != {}
        invariant Live() && Begun() && Draining(steps, Snapshot(), Now(), 0)
        decreases pending
      {
        ghost var before := trace;
        var progressed;
        failure, progressed := DrainPending();
        if failure.Some? { return; }
        if !progressed {
          DrainedMeans(steps, Snapshot(), Now(), 0);
          OverdueCount(pending, |steps|);
          assert trace[|before|..] == Overdue(pending, |steps|);
          return Some(NoProgress(|pending|));
        }
      }
      DrainedMeans(steps, Snapshot(), Now(), 0);
      failure := None;
    }

    /** The steps that came late and were released are counted. */
    ghost predicate Counted()
      reads `acc, `pendingResolved
    {
      pendingResolved == |Resolved(steps, acc.timedOut, acc.released)|
    }

    ghost predicate AllSettled()
      reads `acc
    {
      forall at :: 0 <= at < |steps| ==> at in acc.released || at in acc.skipped
    }

    /** Collects every worker, in scenario order. */
    method CollectAll() returns (failure: Option<Failure>)
      requires Live() && Begun() && AllSettled() && Counted()
      modifies this`cancelled, runtime, this`executions, this`trace, this`observerFailed, this`log, this`mood,
               this`acc, this`terminals
      ensures Core() && Blamed(failure) && !ReleaseRefused(failure)
      ensures failure == None ==>
              Live() && AllSettled() && Counted() && Reports(sc, terminals, acc, |sc.workers|)
    {
      terminals := [];
      for k := 0 to |sc.workers|
        invariant Live() && AllSettled() && Counted() && Reports(sc, terminals, acc, k)
      {
        ghost var before, reported := acc, terminals;
        failure := CollectOne(k);
        if failure.Some? { return; }
        ReportsNext(sc, reported, before, k, executions[sc.workers[k].id].failed);
      }
      failure := None;
    }

    method CollectOne(k: nat) returns (failure: Option<Failure>)
      requires Live() && Begun() && k < |sc.workers| && |terminals| == k
      modifies this`cancelled, runtime, this`executions, this`trace, this`observerFailed, this`log, this`mood,
               this`acc, this`terminals
      ensures Core() && Blamed(failure) && !ReleaseRefused(failure)
      ensures failure == None ==>
              && Live() && |terminals| == k + 1
              && acc == EndAs(old(acc), sc.workers[k].id, executions[sc.workers[k].id].failed)
              && (executions[sc.workers[k].id].failed <==> sc.workers[k].id in acc.failed)
              && terminals == old(terminals) + [Terminal(sc.workers[k].id, executions[sc.workers[k].id].failed)]
    {
      var id := sc.workers[k].id;
      assert WorkerIds(sc.workers)[k] == id && HasBeenInvoked(id);
      failure := None;
      if !executions[id].collected {
        failure := Collect(id, -1);
        if failure.Some? { return; }
      }
      assert AgreesOn(executions[id], acc, id);
      terminals := terminals + [Terminal(id, executions[id].failed)];
    }

    /** Everything up to the last settled step. */
    method SettleAll() returns (failure: Option<Failure>)
      requires Core() && executions == map[] && firstSteps == map[] && trace == []
      requires timeouts == 0 && preObserved == {} && pending == {} && pendingResolved == 0
      requires log == [] && waits == 0
      modifies this, runtime
      ensures Core() && Accounted(failure) && (ReleaseRefused(failure) ==> cancelled)
      ensures failure == None ==> Live() && Begun() && AllSettled() && pending == {} && Counted()
    {
      OrderMeans(Ours(), log, Page(), trace, acc);
      failure := RegisterWorkers();
      if failure.Some? { return; }
      failure := Start();
      if failure.Some? { return; }
      failure := TraverseAll();
      if failure.Some? { return; }
      failure := DrainAll();
    }

    method Finish() returns (failure: Option<Failure>)
      requires Live() && Begun() && AllSettled() && Counted()
      modifies this`cancelled, runtime, this`executions, this`trace, this`observerFailed, this`log, this`mood,
               this`acc, this`terminals
      ensures Core() && Blamed(failure) && !ReleaseRefused(failure)
      ensures failure == None ==>
              && mood == Calm && Registrations(sc.workers) <= trace
              && AllSettled() && Counted() && trace != [] && trace[|trace| - 1] == ScheduleComplete
              && timeouts == acc.timeouts && Reports(sc, terminals, acc, |sc.workers|)
    {
      failure := CollectAll();
      if failure.Some? { return; }
      failure := Emit(ScheduleComplete);
    }

    /** The whole execution.  Every trace it leaves is safe, even when it fails; when it
        succeeds the trace is also complete, nothing is left pending, and the counters say how
        many waits timed out and how many late steps were released all the same.  A release is
        refused only in a cancelled run.  The logbook of waits and events is kept; the run fails
        exactly on a fault from outside, or when a pass over the pending steps heard of nothing but
        a timeout of each. */
    method Execute() returns (failure: Option<Failure>)
      requires Core() && executions == map[] && firstSteps == map[] && trace == []
      requires timeouts == 0 && preObserved == {} && pending == {} && pendingResolved == 0
      requires log == [] && waits == 0
      modifies this, runtime
      ensures Safe(steps, trace)
      ensures Kept(Ours(), log) && Events(log) == trace && BookOf(log).mood == mood
      ensures Accounted(failure) && (ReleaseRefused(failure) ==> cancelled)
      ensures failure == None ==>
              && mood == Calm && Registrations(sc.workers) <= trace
              && Complete(sc, steps, trace) && pending == {}
              && timeouts == Tally(trace).timeouts
              && pendingResolved == |Resolved(steps, Tally(trace).timedOut, Tally(trace).released)|
              && |terminals| == |sc.workers|
              && forall w :: 0 <= w < |sc.workers| ==>
                   terminals[w] == Terminal(sc.workers[w].id, sc.workers[w].id in Tally(trace).failed)
    {
      failure := SettleAll();
      OrderMeans(Ours(), log, Page(), trace, acc);
      if failure.Some? { return; }
      failure := Finish();
      OrderMeans(Ours(), log, Page(), trace, acc);
      if failure == None {
        forall w | 0 <= w < |sc.workers|
          ensures sc.workers[w].id in acc.ended
          ensures terminals[w] == Terminal(sc.workers[w].id, sc.workers[w].id in acc.failed)
        {
          assert Report(sc, terminals, acc, w);
        }
      }
    }
  }

  /** The timeouts of the pending ones among the first n steps, in order. */
  function Overdue(pending: set<nat>, n: nat): Trace {
    if n == 0 then []
    else Overdue(pending, n - 1) + if n - 1 in pending then [PointTimeout(n - 1)] else []
  }

  lemma {:induction false} OverdueCount(pending: set<nat>, n: nat)
    requires forall i :: i in pending ==> i < n
    ensures |Overdue(pending, n)| == |pending|
  {
    if n == 0 {
      assert pending == {};
    } else {
      var rest := pending - {n - 1};
      OverdueCount(rest, n - 1);
      OverdueAgrees(pending, rest, n - 1);
    }
  }

  lemma {:induction false} OverdueAgrees(a: set<nat>, b: set<nat>, n: nat)
    requires forall i :: 0 <= i < n ==> (i in a <==> i in b)
    ensures Overdue(a, n) == Overdue(b, n)
  {
    if n > 0 {
      OverdueAgrees(a, b, n - 1);
    }
  }

  predicate EndsWith(trace: Trace, tail: Trace) {
    |tail| <= |trace| && trace[|trace| - |tail|..] == tail
  }

  /** The w-th reported terminal names the w-th worker, which has ended as reported. */
  ghost predicate Report(sc: Scenario, terminals: seq<Terminal>, acc: Account, w: nat) {
    && w < |sc.workers| && w < |terminals|
    && sc.workers[w].id in acc.ended
    && terminals[w] == Terminal(sc.workers[w].id, sc.workers[w].id in acc.failed)
  }

  ghost predicate Reports(sc: Scenario, terminals: seq<Terminal>, acc: Account, k: nat) {
    |terminals| == k && forall w :: 0 <= w < k ==> Report(sc, terminals, acc, w)
  }

  lemma ReportsNext(sc: Scenario, terminals: seq<Terminal>, acc: Account, k: nat, failed: bool)
    requires Distinct(WorkerIds(sc.workers)) && k < |sc.workers| && Reports(sc, terminals, acc, k)
    requires failed <==> sc.workers[k].id in EndAs(acc, sc.workers[k].id, failed).failed
    ensures Reports(sc, terminals + [Terminal(sc.workers[k].id, failed)], EndAs(acc, sc.workers[k].id, failed), k + 1)
  {
    var after, more := EndAs(acc, sc.workers[k].id, failed), terminals + [Terminal(sc.workers[k].id, failed)];
    forall w | 0 <= w < k + 1 ensures Report(sc, more, after, w) {
      if w < k {
        assert Report(sc, terminals, acc, w);
        assert WorkerIds(sc.workers)[w] != WorkerIds(sc.workers)[k];
      }
    }
  }

  /** Only the bootstrapped worker's entries are new. */
  ghost predicate Touched(steps: seq<Step>, p: Progress, p': Progress, index: nat)
    requires index < |steps|
  {
    && p'.pending + p'.preObserved <= p.pending + p.preObserved + {index}
    && p'.ended <= p.ended + {steps[index].worker}
  }

  /** Only the first k workers have been met. */
  ghost predicate Started(sc: Scenario, steps: seq<Step>, p: Progress, k: nat) {
    && k <= |sc.workers|
    && (forall i :: i in p.pending || i in p.preObserved ==>
          i < |steps| && steps[i].worker in WorkerIds(sc.workers)[..k])
    && (forall id :: id in p.ended ==> id in WorkerIds(sc.workers)[..k])
  }

  lemma StartsNext(sc: Scenario, steps: seq<Step>, p: Progress, k: nat, index: nat)
    requires GoodSteps(sc, steps) && k < |sc.workers| && Started(sc, steps, p, k)
    requires index < |steps| && steps[index].worker == sc.workers[k].id && First(steps, index)
    ensures Known(sc, sc.workers[k].id) && Fresh(steps, p, index)
  {
    assert WorkerIds(sc.workers)[k] == sc.workers[k].id;
    assert sc.workers[k].id !in WorkerIds(sc.workers)[..k];
  }

  lemma StartedNext(sc: Scenario, steps: seq<Step>, p: Progress, p': Progress, k: nat, index: nat)
    requires k < |sc.workers| && Started(sc, steps, p, k)
    requires index < |steps| && steps[index].worker == sc.workers[k].id && Touched(steps, p, p', index)
    ensures Started(sc, steps, p', k + 1)
  {
    assert WorkerIds(sc.workers)[..k + 1] == WorkerIds(sc.workers)[..k] + [sc.workers[k].id];
  }

  predicate ReleaseRefused(failure: Option<Failure>) {
    failure.Some? && failure.value.ReleaseFailed?
  }

  lemma KeepsAll(w: World, w': World, id: string)
    requires Keeps(w, w')
    ensures KeepsOthers(w, w', id) && KeepsWorker(w, w', id)
  {}

  ghost predicate AllIdle(sc: Scenario, w: World) {
    forall id :: Known(sc, id) ==> Idle(w, id)
  }

  lemma AllIdleKeeps(sc: Scenario, w: World, w': World)
    requires AllIdle(sc, w) && Keeps(w, w')
    ensures AllIdle(sc, w')
  {
    forall id | Known(sc, id) ensures Idle(w', id) { assert KeepsWorker(w, w', id) && Idle(w, id); }
  }

  lemma AllIdleKeepsOthers(sc: Scenario, w: World, w': World, id: string)
    requires AllIdle(sc, w) && KeepsOthers(w, w', id) && Idle(w', id)
    ensures AllIdle(sc, w')
  {
    forall other | Known(sc, other) ensures Idle(w', other) {
      if other != id { assert KeepsWorker(w, w', other) && Idle(w, other); }
    }
  }
}
