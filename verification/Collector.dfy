/** The collector of one worker invocation (internal/orchestrator/outcome.go): it turns a result
    stream into one published value, stays alive to see the stream close, and gives up soon after
    its context is cancelled. */
module Collectors {
  import opened Options
  import opened Scenarios
  import opened Syncpoint
  import opened Runtimes
  import S = Syncpoint

  datatype WorkerResult = WorkerResult(worker: string, failed: bool)
  datatype Unstarted = Unstarted(worker: string, erred: bool)

  /** One event of the stream; a well-formed one carries exactly one of the two. */
  datatype InvocationOutcome = InvocationOutcome(result: Option<WorkerResult>, unstarted: Option<Unstarted>)

  datatype Problem =
    | Unfinished | SessionFault | NoResult | NotOneKind | WrongWorker | FinishFailed(error: S.Error)
    | InvalidUnstarted | NeverStarted | NotClosed | TooMany

  /** The published value; errors are joined in the order they were found. */
  datatype Collected = Collected(result: Option<WorkerResult>, unstarted: Option<Unstarted>, errors: seq<Problem>)

  /** What one receive gives: a value, the end of the stream, or the end of the context. */
  datatype Received = Got(outcome: InvocationOutcome) | StreamClosed | ContextEnded

  function Event(stream: nat -> Option<InvocationOutcome>, k: nat): Received {
    if stream(k).Some? then Got(stream(k).value) else StreamClosed
  }

  /** The stream and the collector's context.  stream(n) is the n-th event ever readable, None
      once the stream is closed; it may be endless.  The context is cancelled at an arbitrary
      moment, at the latest after patience more reads. */
  class Source {
    const stream: nat -> Option<InvocationOutcome>
    var read: nat
    var cancelled: bool
    var patience: nat
    ghost var log: seq<Received>
    ghost var lateReads: nat

    constructor (stream: nat -> Option<InvocationOutcome>, patience: nat)
      ensures read == 0 && !cancelled && log == [] && lateReads == 0 && this.stream == stream
    {
      this.stream, this.patience := stream, patience;
      read, cancelled, log, lateReads := 0, false, [], 0;
    }

    /** Time passes: the context may be cancelled, and must be once patience has run out. */
    method Pass()
      modifies this`cancelled
      ensures old(cancelled) ==> cancelled
      ensures patience == 0 ==> cancelled
    {
      var cancel: bool := *;
      cancelled := cancelled || cancel || patience == 0;
    }

    /** The log holds the first events of the stream, up to where it is read. */
    ghost predicate Honest()
      reads this
    {
      read == |log| && forall k :: 0 <= k < |log| ==> log[k] == Event(stream, k)
    }

    /** Reads the next event.  The read counts as late when the context was already cancelled. */
    method Take(late: bool) returns (r: Received)
      requires late || patience > 0
      modifies this`read, this`patience, this`log, this`lateReads
      ensures r == Event(stream, old(read))
      ensures read == old(read) + 1 && log == old(log) + [r]
      ensures lateReads == old(lateReads) + (if late then 1 else 0)
      ensures patience == if late then old(patience) else old(patience) - 1
    {
      var next := stream(read);
      read := read + 1;
      lateReads := lateReads + if late then 1 else 0;
      if !late { patience := patience - 1; }
      r := if next.Some? then Got(next.value) else StreamClosed;
      log := log + [r];
    }

    /** Prefers a cancelled context, but spends the budget on events that are ready by then.
        Between the two selects the context may be cancelled, and then the second select may
        still choose the stream, unbudgeted. */
    method Receive(budget: nat) returns (r: Received, budget': nat)
      modifies this
      ensures budget' <= budget && (old(cancelled) ==> cancelled)
      ensures r == ContextEnded ==> log == old(log) && read == old(read) && lateReads == old(lateReads) && cancelled
      ensures r != ContextEnded ==>
              && r == Event(stream, old(read))
              && read == old(read) + 1 && log == old(log) + [r]
      ensures old(cancelled) ==> lateReads + budget' <= old(lateReads) + budget
      ensures !old(cancelled) ==> lateReads <= old(lateReads) + 1 && (!cancelled ==> lateReads == old(lateReads))
      ensures !old(cancelled) && budget' < budget ==> lateReads + budget' <= old(lateReads) + budget
      ensures !cancelled ==> budget' == budget
      ensures r != ContextEnded ==>
              if old(cancelled) then budget' < budget && patience == old(patience)
              else patience < old(patience) || (cancelled && patience == old(patience))
    {
      Pass();
      if cancelled {
        r, budget' := Late(budget);
        return;
      }
      Pass();
      var late, chooseContext: bool := cancelled, *;
      if late && chooseContext {
        r, budget' := Late(budget);
        return;
      }
      if !late {
        // Blocks until one of the two is ready.
        var cancelWhileBlocked: bool := *;
        if cancelWhileBlocked {
          cancelled := true;
          if chooseContext {
            r, budget' := Late(budget);
            return;
          }
        }
      }
      budget' := budget;
      r := Take(late);
    }

    /** After cancellation: one more event if the budget allows and one is ready. */
    method Late(budget: nat) returns (r: Received, budget': nat)
      requires cancelled
      modifies this`read, this`patience, this`log, this`lateReads
      ensures budget' == if budget > 0 then budget - 1 else 0
      ensures r == ContextEnded ==> log == old(log) && read == old(read) && lateReads == old(lateReads)
      ensures r != ContextEnded ==>
              && budget > 0
              && r == Event(stream, old(read))
              && read == old(read) + 1 && log == old(log) + [r] && lateReads == old(lateReads) + 1
      ensures patience == old(patience)
    {
      budget' := budget;
      if budget > 0 {
        budget' := budget - 1;
        var ready: bool := *;
        if ready {
          r := Take(true);
          return;
        }
      }
      r := ContextEnded;
    }
  }

  /** The published channel and the run's own context. */
  class Publication {
    var published: seq<Collected>
    var closed: bool
    var runCancelled: bool

    constructor ()
      ensures published == [] && !closed && !runCancelled
    {
      published, closed, runCancelled := [], false, false;
    }
  }

  /** The stream began with the worker's own result. */
  ghost predicate Own(log: seq<Received>, id: string) {
    && log != [] && log[0].Got?
    && log[0].outcome.unstarted == None
    && log[0].outcome.result.Some? && log[0].outcome.result.value.worker == id
  }

  /** The one stream that needs no complaint: the worker's own result, and then the end. */
  ghost predicate Clean(log: seq<Received>, id: string) {
    Own(log, id) && |log| == 2 && log[1] == StreamClosed
  }

  /** The stream began with an admission that the worker never started. */
  ghost predicate Unbegun(log: seq<Received>, id: string) {
    && log != [] && log[0].Got?
    && log[0].outcome.result == None && log[0].outcome.unstarted.Some?
    && log[0].outcome.unstarted.value.worker == id && log[0].outcome.unstarted.value.erred
  }

  /** What finishing the worker as its own result says does to the runtime, and the refusal. */
  ghost function Finishing(s: S.State, log: seq<Received>, id: string): (S.State, Option<S.Error>)
    requires Own(log, id)
  {
    S.Finish(s, id, log[0].outcome.result.value.failed)
  }

  /** What is wrong with a first outcome. */
  ghost function FirstErrors(s: S.State, outcome: InvocationOutcome, id: string): seq<Problem> {
    match (outcome.result, outcome.unstarted)
    case (None, None) => [NotOneKind]
    case (Some(_), Some(_)) => [NotOneKind]
    case (Some(result), None) =>
      if result.worker != id then [WrongWorker]
      else
        var refusal := S.Finish(s, id, result.failed).1;
        if refusal.Some? then [FinishFailed(refusal.value)] else []
    case (None, Some(unstarted)) =>
      if unstarted.worker == id && unstarted.erred then [NeverStarted] else [InvalidUnstarted]
  }

  /** What is wrong with the stream behind its first outcome. */
  ghost function LaterErrors(log: seq<Received>): seq<Problem>
    requires log != []
  {
    (if |log| > 1 && log[1].Got? then [TooMany] else [])
    + (if log[|log| - 1] == StreamClosed then [] else [NotClosed])
  }

  /** The stream was read until it closed. */
  ghost predicate Drained(log: seq<Received>) {
    log != [] && log[|log| - 1] == StreamClosed
  }

  /** What the runtime's other users make of it. */
  function After(s: S.State, actions: seq<S.Action>): S.State {
    if actions == [] then s else S.Apply(After(s, actions[..|actions| - 1]), actions[|actions| - 1])
  }

  lemma {:induction false} AfterKeepsInv(s: S.State, actions: seq<S.Action>)
    requires S.Inv(s)
    ensures S.Inv(After(s, actions))
  {
    if actions != [] {
      AfterKeepsInv(s, actions[..|actions| - 1]);
      S.ApplyKeepsInv(After(s, actions[..|actions| - 1]), actions[|actions| - 1]);
    }
  }

  /** The runtime's other users make these moves. */
  method Others(runtime: Runtime, actions: seq<S.Action>)
    requires S.Inv(runtime.Value())
    modifies runtime
    ensures runtime.Value() == After(old(runtime.Value()), actions)
  {
    ghost var s := runtime.Value();
    for k := 0 to |actions|
      invariant runtime.Value() == After(s, actions[..k])
    {
      assert actions[..k + 1][..k] == actions[..k];
      AfterKeepsInv(s, actions[..k]);
      Other(runtime, actions[k]);
    }
    assert actions[..|actions|] == actions;
  }

  method Other(runtime: Runtime, action: S.Action)
    requires S.Inv(runtime.Value())
    modifies runtime
    ensures runtime.Value() == S.Apply(old(runtime.Value()), action)
  {
    match action {
      case DoRegister(id) => var _ := runtime.Register(id);
      case DoArriveStart(contextDone, id, point) => var _ := runtime.ArriveStart(contextDone, id, point);
      case DoArriveWake(contextDone, a) =>
        if a < |runtime.arrivals| && runtime.arrivals[a].outcome == None
           && (runtime.arrivals[a].readyCloses > 0 || contextDone) && runtime.arrivals[a].worker in runtime.workers {
          var _ := runtime.ArriveWake(contextDone, a);
        }
      case DoWaitStart(contextDone, id, point, timeout) => var _ := runtime.WaitStart(contextDone, id, point, timeout);
      case DoWaitWake(contextDone, id, point, wake) =>
        if id in runtime.workers && runtime.workers[id].waitActive && runtime.workers[id].waitPoint == point {
          var _ := runtime.WaitWake(contextDone, id, point, wake);
        }
      case DoRelease(contextDone, id, point) => var _ := runtime.Release(contextDone, id, point);
      case DoFinish(id, failed) => var _ := runtime.Finish(id, failed);
      case DoClose => runtime.Close();
    }
  }

  /** What the first outcome contributes.  Only the worker's own result reaches the runtime, and
      then the runtime's answer is the only possible complaint. */
  method Interpret(id: string, outcome: InvocationOutcome, runtime: Runtime) returns (value: Collected)
    modifies runtime
    ensures runtime.Value() == Settled(old(runtime.Value()), [Got(outcome)], id)
    ensures value.result == if Own([Got(outcome)], id) then outcome.result else None
    ensures value.errors == FirstErrors(old(runtime.Value()), outcome, id)
    ensures value.unstarted == if Unbegun([Got(outcome)], id) then outcome.unstarted else None
  {
    value := Collected(None, None, []);
    if (outcome.result == None) == (outcome.unstarted == None) {
      value := value.(errors := [NotOneKind]);
    } else if outcome.result.Some? {
      if outcome.result.value.worker != id {
        value := value.(errors := [WrongWorker]);
      } else {
        value := value.(result := outcome.result);
        var error := runtime.Finish(id, outcome.result.value.failed);
        if error.Some? { value := value.(errors := [FinishFailed(error.value)]); }
      }
    } else if outcome.unstarted.value.worker != id || !outcome.unstarted.value.erred {
      value := value.(errors := [InvalidUnstarted]);
    } else {
      value := value.(unstarted := outcome.unstarted, errors := [NeverStarted]);
    }
  }

  /** The runtime once the collector has read the stream: the worker is finished exactly if its
      own result came first. */
  ghost function Settled(s: S.State, log: seq<Received>, id: string): S.State {
    if Own(log, id) then Finishing(s, log, id).0 else s
  }

  /** What a collector makes of the stream, s being the runtime when the first outcome is there. */
  ghost predicate Gathered(s: S.State, log: seq<Received>, id: string, value: Collected) {
    && (value.errors == [] <==> Clean(log, id) && Finishing(s, log, id).1 == None)
    && value.result == (if Own(log, id) then log[0].outcome.result else None)
    && value.unstarted == (if Unbegun(log, id) then log[0].outcome.unstarted else None)
    && if log == [] then value.errors == [Unfinished]
       else if log[0] == StreamClosed then value.errors == [SessionFault] || value.errors == [NoResult]
       else log[0].Got? && value.errors == FirstErrors(s, log[0].outcome, id) + LaterErrors(log)
  }

  /** Publishes exactly one value and closes the channel, whatever the stream does; starts at
      most two reads after cancellation; reads on until the stream closes or its own context is
      cancelled; and reports no error exactly when the stream was clean
      and the runtime let the worker be finished.  Errors, and nothing else, cancel the run.  The
      runtime's other users move before the first outcome is there, and after it. */
  method CollectInvocation(id: string, source: Source, runtime: Runtime, publication: Publication,
                           before: seq<S.Action>, after: seq<S.Action>)
    requires source.log == [] && source.lateReads == 0 && source.read == 0 && !source.cancelled
    requires publication.published == [] && !publication.closed && !publication.runCancelled
    requires S.Inv(runtime.Value())
    modifies source, runtime, publication
    ensures |publication.published| == 1 && publication.closed
    ensures source.lateReads <= 2 && source.Honest() && (source.cancelled || Drained(source.log))
    ensures var s := After(old(runtime.Value()), before);
            && Gathered(s, source.log, id, publication.published[0])
            && runtime.Value() == After(Settled(s, source.log, id), after)
    ensures publication.runCancelled <==> publication.published[0].errors != []
  {
    var value := Gather(id, source, runtime, publication, before, after);
    publication.published := publication.published + [value];
    if value.errors != [] { publication.runCancelled := true; }
    publication.closed := true;
  }

  method Gather(id: string, source: Source, runtime: Runtime, publication: Publication,
                before: seq<S.Action>, after: seq<S.Action>)
    returns (value: Collected)
    requires source.log == [] && source.lateReads == 0 && source.read == 0 && !source.cancelled
    requires S.Inv(runtime.Value()) && !publication.runCancelled
    modifies source, runtime, publication`runCancelled
    ensures source.lateReads <= 2 && (publication.runCancelled ==> value.errors != [])
    ensures source.Honest() && (source.cancelled || Drained(source.log))
    ensures var s := After(old(runtime.Value()), before);
            && Gathered(s, source.log, id, value)
            && runtime.Value() == After(Settled(s, source.log, id), after)
  {
    Others(runtime, before);
    ghost var s := runtime.Value();
    AfterKeepsInv(old(runtime.Value()), before);
    var received, budget := source.Receive(2);
    if !received.Got? {
      if received == ContextEnded {
        value := Collected(None, None, [Unfinished]);
      } else {
        var fault: bool := *;
        value := Collected(None, None, [if fault then SessionFault else NoResult]);
      }
      Others(runtime, after);
      return;
    }
    ghost var first := received.outcome;
    value := Interpret(id, received.outcome, runtime);
    S.FinishKeepsInv(s, id, first.result.Some? && first.result.value.failed);
    if value.errors != [] { publication.runCancelled := true; }
    Others(runtime, after);
    // Once the outcome is known only the closure-or-multiplicity probe remains.
    value := Probe(id, source, publication, value, if budget > 1 then 1 else budget);
  }

  /** Reads on until the stream closes or the context ends, and complains about more outcomes. */
  method Probe(id: string, source: Source, publication: Publication, interpreted: Collected, limit: nat)
    returns (value: Collected)
    requires source.Honest() && |source.log| == 1 && source.log[0].Got? && limit <= 1 && source.lateReads + limit <= 2
    requires !source.cancelled ==> source.lateReads == 0 && limit == 1
    requires publication.runCancelled ==> interpreted.errors != []
    modifies source, publication`runCancelled
    ensures source.lateReads <= 2 && (publication.runCancelled ==> value.errors != [])
    ensures source.Honest() && (source.cancelled || Drained(source.log))
    ensures |source.log| >= 1 && source.log[0] == old(source.log[0])
    ensures value == interpreted.(errors := interpreted.errors + LaterErrors(source.log))
    ensures LaterErrors(source.log) == [] <==> |source.log| == 2 && source.log[1] == StreamClosed
  {
    value := interpreted;
    var budget, received := limit, ContextEnded;
    var multiple := false;
    while true
      invariant |source.log| >= 1 && source.log[0] == old(source.log[0])
      invariant source.Honest() && forall k :: 0 <= k < |source.log| ==> source.log[k].Got?
      invariant multiple <==> |source.log| > 1
      invariant budget <= 1 && source.lateReads + budget <= 2
      invariant !source.cancelled ==> source.lateReads == 0 && budget == 1
      invariant value == interpreted.(errors := interpreted.errors + if multiple then [TooMany] else [])
      invariant publication.runCancelled ==> value.errors != []
      decreases !source.cancelled, source.patience, budget
    {
      received, budget := source.Receive(budget);
      if received == ContextEnded {
        value := value.(errors := value.errors + [NotClosed]);
        break;
      }
      if received == StreamClosed {
        break;
      }
      if !multiple {
        multiple := true;
        value := value.(errors := value.errors + [TooMany]);
        publication.runCancelled := true;
      }
    }
  }
}
