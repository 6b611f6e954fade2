/** The bookkeeping of one schedule execution as a value, and the invariants of its phases:
    first a traversal of the saved steps in order, then passes over the pending ones. */
module ExecutionProgress {
  import opened Scenarios
  import opened Environment
  import opened Traces

  /** arrived and timedOut: steps with such an event; released and skipped: settled steps; ended:
      workers with a terminal event; pending, preObserved and resolved: the coordinator's own tables. */
  datatype Progress = Progress(
    arrived: set<nat>, released: set<nat>, skipped: set<nat>, ended: set<string>, timedOut: set<nat>,
    pending: set<nat>, preObserved: set<nat>, resolved: nat)

  ghost predicate First(steps: seq<Step>, i: nat)
    requires i < |steps|
  {
    forall j :: 0 <= j < i ==> steps[j].worker != steps[i].worker
  }

  ghost predicate DistinctSteps(steps: seq<Step>) {
    forall i, j :: 0 <= i < j < |steps| ==> steps[i] != steps[j]
  }

  /** Every known worker's saved steps are its points in order, so no step repeats. */
  lemma InterleavingIsDistinct(sc: Scenario, steps: seq<Step>)
    requires ValidScenario(sc) && Interleaving(sc, steps)
    ensures DistinctSteps(steps)
  {
    forall i, j | 0 <= i < j < |steps| ensures steps[i] != steps[j] {
      StepIsNew(sc, steps, i, j);
    }
  }

  lemma StepIsNew(sc: Scenario, steps: seq<Step>, i: nat, j: nat)
    requires ValidScenario(sc) && Interleaving(sc, steps) && i < j < |steps|
    ensures steps[i] != steps[j]
  {
    var before := steps[..j];
    InterleavingIsPartial(sc, steps);
    PrefixIsPartial(sc, steps, j);
    PrefixIsPartial(sc, steps, j + 1);
    TakeOne(steps, j);
    NextStep(sc, before, steps[j]);
    assert before[i] == steps[i];
  }

  lemma InterleavingIsPartial(sc: Scenario, steps: seq<Step>)
    requires Interleaving(sc, steps)
    ensures PartialInterleaving(sc, steps)
  {
  }

  lemma TakeOne<T>(s: seq<T>, k: nat)
    requires k < |s|
    ensures s[..k + 1] == s[..k] + [s[k]]
  {
  }

  /** What holds of the settled steps in both phases. */
  ghost predicate SettledInv(steps: seq<Step>, p: Progress) {
    && (forall i :: i in p.pending ==> i < |steps| && i !in p.released && i !in p.skipped)
    && (forall i :: i in p.released || i in p.skipped ==> i < |steps|)
    && (forall i :: i in p.skipped ==> steps[i].worker in p.ended)
    && (forall i, j :: 0 <= i < j < |steps| && steps[i].worker == steps[j].worker && j in p.released ==>
          i in p.released)
  }

  ghost predicate AllLate(steps: seq<Step>, timedOut: set<nat>, pending: set<nat>) {
    forall i :: i in pending ==> Late(steps, timedOut, i)
  }

  /** While steps are traversed, those that time out stay pending, and nothing pending is released. */
  ghost predicate Deferring(steps: seq<Step>, timedOut: set<nat>, pending: set<nat>, resolved: nat) {
    resolved == 0 && timedOut <= pending && AllLate(steps, timedOut, pending)
  }

  /** While pending steps are drained, those released are counted. */
  ghost predicate Resolving(steps: seq<Step>, timedOut: set<nat>, pending: set<nat>,
                            released: set<nat>, resolved: nat) {
    AllLate(steps, timedOut, pending) && resolved == |Resolved(steps, timedOut, released)|
  }

  lemma DeferOne(steps: seq<Step>, timedOut: set<nat>, pending: set<nat>, resolved: nat, t: nat)
    requires Deferring(steps, timedOut, pending, resolved) && t < |steps|
    ensures Deferring(steps, timedOut + {t}, pending + {t}, resolved)
  {
    forall i | i in pending + {t} ensures Late(steps, timedOut + {t}, i) {
      if i in pending {
        var j :| j in timedOut && j <= i < |steps| && steps[j].worker == steps[i].worker;
        assert j in timedOut + {t};
      } else {
        assert t in timedOut + {t};
      }
    }
  }

  lemma DeferBehind(steps: seq<Step>, timedOut: set<nat>, pending: set<nat>, resolved: nat, i: nat, t: nat)
    requires Deferring(steps, timedOut, pending, resolved)
    requires i in pending && i <= t < |steps| && steps[i].worker == steps[t].worker
    ensures Deferring(steps, timedOut, pending + {t}, resolved)
  {
    var j :| j in timedOut && j <= i < |steps| && steps[j].worker == steps[i].worker;
    assert Late(steps, timedOut, t);
  }

  /** Releasing a pending step counts. */
  lemma ResolveOne(steps: seq<Step>, timedOut: set<nat>, pending: set<nat>, released: set<nat>, resolved: nat, at: nat)
    requires Resolving(steps, timedOut, pending, released, resolved) && at in pending && at !in released
    ensures Resolving(steps, timedOut, pending - {at}, released + {at}, resolved + 1)
  {
    assert Resolved(steps, timedOut, released + {at}) == Resolved(steps, timedOut, released) + {at};
  }

  /** A pending step that times out again makes no released step late. */
  lemma TimeoutAgain(steps: seq<Step>, p: Progress, at: nat)
    requires SettledInv(steps, p) && at in p.pending
    requires Resolving(steps, p.timedOut, p.pending, p.released, p.resolved)
    ensures Resolving(steps, p.timedOut + {at}, p.pending, p.released, p.resolved)
  {
    var more := p.timedOut + {at};
    forall i: nat | i < |steps| && Late(steps, p.timedOut, i) ensures Late(steps, more, i) {
      var j :| j in p.timedOut && j <= i < |steps| && steps[j].worker == steps[i].worker;
      assert j in more;
    }
    forall i | i in p.released && Late(steps, more, i) ensures Late(steps, p.timedOut, i) {
      var j :| j in more && j <= i < |steps| && steps[j].worker == steps[i].worker;
      assert j != at;
    }
    assert Resolved(steps, more, p.released) == Resolved(steps, p.timedOut, p.released);
  }

  /** Traversal, before step t: everything earlier is settled or pending; a worker with a pending
      step has not ended and has all its later traversed steps pending too; a pre-observed step is
      its worker's first, still to come, and its worker is waiting there. */
  ghost predicate Traverses(steps: seq<Step>, p: Progress, w: World, t: nat) {
    Crossing(steps, p, w, t) && p.arrived == p.released + p.preObserved
  }

  ghost predicate Crossing(steps: seq<Step>, p: Progress, w: World, t: nat) {
    Ordered(steps, p, w, t) && Deferring(steps, p.timedOut, p.pending, p.resolved)
  }

  ghost predicate Ordered(steps: seq<Step>, p: Progress, w: World, t: nat) {
    && t <= |steps|
    && SettledInv(steps, p)
    && (forall i :: i in p.released || i in p.skipped ==> i < t)
    && (forall i :: 0 <= i < t ==> i in p.released || i in p.skipped || i in p.pending)
    && (forall i :: i in p.pending ==> steps[i].worker !in p.ended)
    && (forall i :: i in p.pending && i >= t ==> First(steps, i))
    && (forall i, j :: i in p.pending && i < j < t && steps[i].worker == steps[j].worker ==> j in p.pending)
    && (forall i :: i in p.preObserved ==>
          && t <= i < |steps| && i !in p.pending && steps[i].worker !in p.ended && First(steps, i)
          && ArrivedAt(w, steps[i].worker, steps[i].point))
  }

  /** A drain pass, before step at: every step is settled or pending, and a pending step already
      passed belongs to a worker that has ended or is held at that step. */
  ghost predicate Drains(steps: seq<Step>, p: Progress, w: World, at: nat) {
    && at <= |steps|
    && SettledInv(steps, p)
    && (forall i :: 0 <= i < |steps| ==> i in p.released || i in p.skipped || i in p.pending)
    && (forall i :: i in p.pending && i < at ==>
          steps[i].worker in p.ended || Held(w, steps[i].worker, steps[i].point))
    && Resolving(steps, p.timedOut, p.pending, p.released, p.resolved)
    && p.arrived == p.released
  }

  predicate Same(p: Progress, q: Progress) {
    p == q
  }

  /** The two phases once more, over all progress that is the same, so that proofs which only pass
      a phase on do not unfold it. */
  ghost predicate Traversing(steps: seq<Step>, p: Progress, w: World, t: nat) {
    forall q :: Same(q, p) ==> Traverses(steps, q, w, t)
  }

  ghost predicate Draining(steps: seq<Step>, p: Progress, w: World, at: nat) {
    forall q :: Same(q, p) ==> Drains(steps, q, w, at)
  }

  lemma TraversingMeans(steps: seq<Step>, p: Progress, w: World, t: nat)
    ensures Traversing(steps, p, w, t) <==> Traverses(steps, p, w, t)
  {
    assert Same(p, p);
  }

  lemma DrainingMeans(steps: seq<Step>, p: Progress, w: World, at: nat)
    ensures Draining(steps, p, w, at) <==> Drains(steps, p, w, at)
  {
    assert Same(p, p);
  }

  // ----- The world moving underneath -----

  lemma TraversingKeeps(steps: seq<Step>, p: Progress, w: World, w': World, t: nat)
    requires Traverses(steps, p, w, t) && Keeps(w, w')
    ensures Traverses(steps, p, w', t)
  {
    forall i | i in p.preObserved ensures ArrivedAt(w', steps[i].worker, steps[i].point) {
      assert KeepsWorker(w, w', steps[i].worker);
    }
  }

  lemma TraversingKeepsOthers(steps: seq<Step>, p: Progress, w: World, w': World, t: nat, id: string)
    requires Traverses(steps, p, w, t) && KeepsOthers(w, w', id)
    requires forall i :: i in p.preObserved ==> steps[i].worker != id
    ensures Traverses(steps, p, w', t)
  {
    CrossingKeepsOthers(steps, p, w, w', t, id);
  }

  lemma CrossingKeepsOthers(steps: seq<Step>, p: Progress, w: World, w': World, t: nat, id: string)
    requires Crossing(steps, p, w, t) && KeepsOthers(w, w', id)
    requires forall i :: i in p.preObserved ==> steps[i].worker != id
    ensures Crossing(steps, p, w', t)
  {
    forall i | i in p.preObserved ensures ArrivedAt(w', steps[i].worker, steps[i].point) {
      assert KeepsWorker(w, w', steps[i].worker);
    }
  }

  lemma DrainingKeeps(steps: seq<Step>, p: Progress, w: World, w': World, at: nat)
    requires Drains(steps, p, w, at) && Keeps(w, w')
    ensures Drains(steps, p, w', at)
  {
    forall i | i in p.pending && i < at && steps[i].worker !in p.ended
      ensures Held(w', steps[i].worker, steps[i].point)
    {
      assert KeepsWorker(w, w', steps[i].worker);
    }
  }

  lemma DrainingKeepsOthers(steps: seq<Step>, p: Progress, w: World, w': World, at: nat, id: string)
    requires Drains(steps, p, w, at) && KeepsOthers(w, w', id)
    requires forall i :: i in p.pending && i < at && steps[i].worker == id ==>
               id in p.ended || Held(w', id, steps[i].point)
    ensures Drains(steps, p, w', at)
  {
    forall i | i in p.pending && i < at && steps[i].worker !in p.ended
      ensures Held(w', steps[i].worker, steps[i].point)
    {
      if steps[i].worker != id { assert KeepsWorker(w, w', steps[i].worker); }
    }
  }

  // ----- Traversal steps -----

  ghost predicate PendingPredecessor(steps: seq<Step>, p: Progress, t: nat)
    requires t < |steps|
  {
    exists i :: i in p.pending && i < t && steps[i].worker == steps[t].worker
  }

  /** A worker with a pending step ahead of or at t cannot be met at t as a plain wait. */
  ghost predicate Unencumbered(steps: seq<Step>, p: Progress, t: nat)
    requires t < |steps|
  {
    t !in p.pending && !PendingPredecessor(steps, p, t) && steps[t].worker !in p.ended
  }

  lemma TraverseSkip(steps: seq<Step>, p: Progress, w: World, t: nat)
    requires Traverses(steps, p, w, t) && t < |steps| && steps[t].worker in p.ended
    ensures Traverses(steps, p.(skipped := p.skipped + {t}), w, t + 1)
  {}

  lemma TraversePending(steps: seq<Step>, p: Progress, w: World, t: nat)
    requires Traverses(steps, p, w, t) && t < |steps| && steps[t].worker !in p.ended
    requires t in p.pending || PendingPredecessor(steps, p, t)
    ensures Traverses(steps, p.(pending := p.pending + {t}), w, t + 1)
  {
    OrderedPending(steps, p, w, t);
    var i :| i in p.pending && i <= t && steps[i].worker == steps[t].worker;
    DeferBehind(steps, p.timedOut, p.pending, p.resolved, i, t);
  }

  lemma OrderedPending(steps: seq<Step>, p: Progress, w: World, t: nat)
    requires Ordered(steps, p, w, t) && t < |steps| && steps[t].worker !in p.ended
    requires t in p.pending || PendingPredecessor(steps, p, t)
    ensures Ordered(steps, p.(pending := p.pending + {t}), w, t + 1)
  {}

  lemma TraverseTimeout(steps: seq<Step>, p: Progress, w: World, t: nat)
    requires Traverses(steps, p, w, t) && t < |steps| && t !in p.preObserved && Unencumbered(steps, p, t)
    ensures Traverses(steps, p.(pending := p.pending + {t}, timedOut := p.timedOut + {t}), w, t + 1)
  {
    DeferOne(steps, p.timedOut, p.pending, p.resolved, t);
  }

  /** Before an unencumbered step of a live worker, all its earlier steps have been released. */
  lemma TraverseCanRelease(steps: seq<Step>, p: Progress, w: World, t: nat)
    requires Crossing(steps, p, w, t) && t < |steps| && Unencumbered(steps, p, t)
    ensures t !in p.released && t !in p.skipped
    ensures forall j :: 0 <= j < t && steps[j].worker == steps[t].worker ==> j in p.released
    ensures forall i :: i in p.preObserved && i != t ==> steps[i].worker != steps[t].worker
    ensures forall i :: i in p.pending ==> steps[i].worker != steps[t].worker
  {}

  lemma CrossRelease(steps: seq<Step>, p: Progress, w: World, t: nat)
    requires Crossing(steps, p, w, t) && t < |steps| && t !in p.preObserved && Unencumbered(steps, p, t)
    ensures Crossing(steps, p.(released := p.released + {t}), w, t + 1)
  {
    TraverseCanRelease(steps, p, w, t);
  }

  lemma TraverseEnd(steps: seq<Step>, p: Progress, w: World, t: nat)
    requires Traverses(steps, p, w, t) && t < |steps| && t !in p.preObserved && Unencumbered(steps, p, t)
    ensures Traverses(steps, p.(ended := p.ended + {steps[t].worker}), w, t)
  {
    TraverseCanRelease(steps, p, w, t);
  }

  lemma ForgetPreObserved(steps: seq<Step>, p: Progress, w: World, t: nat)
    requires Crossing(steps, p, w, t)
    ensures Crossing(steps, p.(preObserved := p.preObserved - {t}), w, t)
  {}

  /** After the last step nothing is pre-observed, and draining can start. */
  lemma TraversalDone(steps: seq<Step>, p: Progress, w: World)
    requires Traverses(steps, p, w, |steps|)
    ensures Drains(steps, p, w, 0)
  {
    NothingLate(steps, p, w);
  }

  /** During the traversal nothing late was released. */
  lemma NothingLate(steps: seq<Step>, p: Progress, w: World)
    requires Ordered(steps, p, w, |steps|) && p.timedOut <= p.pending
    ensures Resolved(steps, p.timedOut, p.released) == {}
  {
    forall i, j | j in p.timedOut && j <= i < |steps| && steps[j].worker == steps[i].worker
      ensures i !in p.released
    {
    }
  }

  // ----- Bootstrap steps: only first steps of workers not met before -----

  ghost predicate Fresh(steps: seq<Step>, p: Progress, i: nat)
    requires i < |steps|
  {
    && First(steps, i)
    && steps[i].worker !in p.ended
    && (forall j :: j in p.pending || j in p.preObserved ==> j < |steps| && steps[j].worker != steps[i].worker)
  }

  lemma BootstrapArrived(steps: seq<Step>, p: Progress, w: World, i: nat)
    requires Traverses(steps, p, w, 0) && i < |steps| && Fresh(steps, p, i)
    requires ArrivedAt(w, steps[i].worker, steps[i].point)
    ensures Traverses(steps, p.(preObserved := p.preObserved + {i}, arrived := p.arrived + {i}), w, 0)
  {}

  lemma BootstrapPending(steps: seq<Step>, p: Progress, w: World, i: nat)
    requires Traverses(steps, p, w, 0) && i < |steps| && Fresh(steps, p, i)
    ensures Traverses(steps, p.(pending := p.pending + {i}, timedOut := p.timedOut + {i}), w, 0)
  {
    DeferOne(steps, p.timedOut, p.pending, p.resolved, i);
  }

  lemma BootstrapEnd(steps: seq<Step>, p: Progress, w: World, i: nat)
    requires Traverses(steps, p, w, 0) && i < |steps| && Fresh(steps, p, i)
    ensures Traverses(steps, p.(ended := p.ended + {steps[i].worker}), w, 0)
  {}

  // ----- Drain steps -----

  lemma DrainSkip(steps: seq<Step>, p: Progress, w: World, at: nat)
    requires Drains(steps, p, w, at) && at in p.pending && steps[at].worker in p.ended
    ensures Drains(steps, p.(skipped := p.skipped + {at}, pending := p.pending - {at}), w, at + 1)
  {
    SkipKeepsSettled(steps, p, at);
  }

  lemma SkipKeepsSettled(steps: seq<Step>, p: Progress, at: nat)
    requires SettledInv(steps, p) && at in p.pending && steps[at].worker in p.ended
    ensures SettledInv(steps, p.(skipped := p.skipped + {at}, pending := p.pending - {at}))
  {}

  lemma DrainPass(steps: seq<Step>, p: Progress, w: World, at: nat)
    requires Drains(steps, p, w, at) && at < |steps|
    requires at !in p.pending || steps[at].worker in p.ended || Held(w, steps[at].worker, steps[at].point)
    ensures Drains(steps, p, w, at + 1)
  {}

  lemma DrainTimedOut(steps: seq<Step>, p: Progress, w: World, at: nat)
    requires Drains(steps, p, w, at) && at in p.pending
    requires steps[at].worker in p.ended || Held(w, steps[at].worker, steps[at].point)
    ensures Drains(steps, p.(timedOut := p.timedOut + {at}), w, at + 1)
  {
    TimeoutAgain(steps, p, at);
  }

  lemma DrainRestart(steps: seq<Step>, p: Progress, w: World)
    requires Drains(steps, p, w, |steps|)
    ensures Drains(steps, p, w, 0)
  {}

  lemma DrainEnd(steps: seq<Step>, p: Progress, w: World, at: nat, id: string)
    requires Drains(steps, p, w, at)
    ensures Drains(steps, p.(ended := p.ended + {id}), w, at)
  {}

  /** A pending step has arrived, and was released and counted. */
  function Settled(p: Progress, at: nat): Progress {
    p.(arrived := p.arrived + {at}, released := p.released + {at}, pending := p.pending - {at},
       resolved := p.resolved + 1)
  }

  lemma DrainRelease(steps: seq<Step>, p: Progress, w: World, at: nat)
    requires Drains(steps, p, w, at) && at in p.pending
    requires forall j :: 0 <= j < at && steps[j].worker == steps[at].worker ==> j in p.released
    ensures Drains(steps, Settled(p, at), w, at + 1)
  {
    ResolveOne(steps, p.timedOut, p.pending, p.released, p.resolved, at);
  }

  // ----- Moves, as relations between two moments -----

  /** What bootstrapping one worker may change. */
  ghost predicate BootstrapMove(steps: seq<Step>, p: Progress, p': Progress, w: World, w': World, i: nat)
    requires i < |steps|
  {
    || (p' == p.(preObserved := p.preObserved + {i}, arrived := p.arrived + {i})
        && w' == w && ArrivedAt(w, steps[i].worker, steps[i].point))
    || (p' == p.(pending := p.pending + {i}, timedOut := p.timedOut + {i}) && w' == w)
    || (p' == p.(ended := p.ended + {steps[i].worker}) && (w' == w || Keeps(w, w')))
  }

  lemma BootstrapMoves(steps: seq<Step>, p: Progress, p': Progress, w: World, w': World, i: nat)
    requires Traverses(steps, p, w, 0) && i < |steps| && Fresh(steps, p, i)
    requires BootstrapMove(steps, p, p', w, w', i)
    ensures Traverses(steps, p', w', 0)
  {
    if p' == p.(ended := p.ended + {steps[i].worker}) && (w' == w || Keeps(w, w')) {
      BootstrapEnd(steps, p, w, i);
      if w' != w { TraversingKeeps(steps, p', w, w', 0); }
    } else if p' == p.(pending := p.pending + {i}, timedOut := p.timedOut + {i}) {
      BootstrapPending(steps, p, w, i);
    } else {
      BootstrapArrived(steps, p, w, i);
    }
  }

  /** What meeting a live worker at its step may change: the step is released, becomes pending,
      or is skipped because the worker has just ended. */
  ghost predicate StepMove(steps: seq<Step>, p: Progress, p': Progress, w: World, w': World, t: nat)
    requires t < |steps|
  {
    var id := steps[t].worker;
    || (p' == p.(released := p.released + {t}, arrived := p.arrived + {t}) && KeepsOthers(w, w', id))
    || (p' == p.(pending := p.pending + {t}, timedOut := p.timedOut + {t}) && w' == w)
    || (p' == p.(ended := p.ended + {id}, skipped := p.skipped + {t}) && (w' == w || Keeps(w, w')))
  }

  lemma ReleaseMoves(steps: seq<Step>, p: Progress, w: World, w': World, t: nat)
    requires Crossing(steps, p, w, t) && t < |steps| && t !in p.preObserved && Unencumbered(steps, p, t)
    requires KeepsOthers(w, w', steps[t].worker)
    ensures Crossing(steps, p.(released := p.released + {t}), w', t + 1)
  {
    TraverseCanRelease(steps, p, w, t);
    CrossRelease(steps, p, w, t);
    CrossingKeepsOthers(steps, p.(released := p.released + {t}), w, w', t + 1, steps[t].worker);
  }

  lemma PreObservedMoves(steps: seq<Step>, p: Progress, w: World, w': World, t: nat)
    requires Traverses(steps, p, w, t) && t < |steps| && Unencumbered(steps, p, t) && t in p.preObserved
    requires KeepsOthers(w, w', steps[t].worker)
    ensures Traverses(steps, p.(preObserved := p.preObserved - {t}, released := p.released + {t}), w', t + 1)
  {
    ForgetPreObserved(steps, p, w, t);
    ReleaseMoves(steps, p.(preObserved := p.preObserved - {t}), w, w', t);
  }

  /** Crossing does not look at the arrivals. */
  lemma CrossingIgnoresArrivals(steps: seq<Step>, p: Progress, arrived: set<nat>, w: World, t: nat)
    requires Crossing(steps, p, w, t)
    ensures Crossing(steps, p.(arrived := arrived), w, t)
  {}

  lemma StepMoves(steps: seq<Step>, p: Progress, p': Progress, w: World, w': World, t: nat)
    requires Traverses(steps, p, w, t) && t < |steps| && t !in p.preObserved && Unencumbered(steps, p, t)
    requires StepMove(steps, p, p', w, w', t)
    ensures Traverses(steps, p', w', t + 1)
  {
    var id := steps[t].worker;
    if p' == p.(released := p.released + {t}, arrived := p.arrived + {t}) && KeepsOthers(w, w', id) {
      ReleaseMoves(steps, p, w, w', t);
      CrossingIgnoresArrivals(steps, p.(released := p.released + {t}), p.arrived + {t}, w', t + 1);
    } else if p' == p.(pending := p.pending + {t}, timedOut := p.timedOut + {t}) && w' == w {
      TraverseTimeout(steps, p, w, t);
    } else {
      TraverseEnd(steps, p, w, t);
      var q := p.(ended := p.ended + {id});
      TraverseSkip(steps, q, w, t);
      if w' != w { TraversingKeeps(steps, p', w, w', t + 1); }
    }
  }

  // ----- Moves of a drain pass -----

  /** Nothing of this worker is held at another point. */
  ghost predicate NotHeldElsewhere(steps: seq<Step>, w: World, at: nat)
    requires at < |steps|
  {
    forall point :: Held(w, steps[at].worker, point) ==> point == steps[at].point
  }

  /** If nothing of an arrived worker was held at an earlier point, its earlier steps were all released. */
  lemma ArrivedIsCleared(steps: seq<Step>, p: Progress, w: World, at: nat)
    requires DistinctSteps(steps) && Drains(steps, p, w, at) && at < |steps| && steps[at].worker !in p.ended
    requires NotHeldElsewhere(steps, w, at)
    ensures forall i :: i in p.pending && i < at ==> steps[i].worker != steps[at].worker
    ensures Cleared(steps, p.released, at)
  {
    forall i | i in p.pending && i < at ensures steps[i].worker != steps[at].worker {
      assert steps[i] != steps[at];
    }
  }

  lemma ArrivedMoves(steps: seq<Step>, p: Progress, w: World, w': World, w'': World, at: nat)
    requires DistinctSteps(steps) && Drains(steps, p, w, at) && at in p.pending && steps[at].worker !in p.ended
    requires NotHeldElsewhere(steps, w, at)
    requires KeepsOthers(w, w', steps[at].worker) && KeepsOthers(w', w'', steps[at].worker)
    ensures Drains(steps, Settled(p, at), w'', at + 1)
  {
    ArrivedIsCleared(steps, p, w, at);
    KeepsOthersTransitive(w, w', w'', steps[at].worker);
    DrainingKeepsOthers(steps, p, w, w'', at, steps[at].worker);
    DrainRelease(steps, p, w'', at);
  }

  /** While a worker is held where the wait was, or the run is cancelled, its pending steps stay held. */
  lemma HeldOn(steps: seq<Step>, p: Progress, w: World, w': World, at: nat)
    requires DistinctSteps(steps) && Drains(steps, p, w, at) && at < |steps| && steps[at].worker !in p.ended
    requires KeepsOthers(w, w', steps[at].worker) && steps[at].worker in w'.state.workers
    requires w'.cancelled || NotHeldElsewhere(steps, w, at)
    ensures Drains(steps, p, w', at)
  {
    if !w'.cancelled { ArrivedIsCleared(steps, p, w, at); }
    DrainingKeepsOthers(steps, p, w, w', at, steps[at].worker);
  }

  /** A worker that ends during the wait carries its pending steps with it. */
  lemma EndedMoves(steps: seq<Step>, p: Progress, w: World, w': World, w'': World, at: nat)
    requires Drains(steps, p, w, at) && at < |steps|
    requires KeepsOthers(w, w', steps[at].worker) && (w'' == w' || Keeps(w', w''))
    ensures Drains(steps, p.(ended := p.ended + {steps[at].worker}), w'', at)
  {
    var q := p.(ended := p.ended + {steps[at].worker});
    DrainEnd(steps, p, w, at, steps[at].worker);
    DrainingKeepsOthers(steps, q, w, w', at, steps[at].worker);
    if w'' != w' { DrainingKeeps(steps, q, w', w'', at); }
  }

  // ----- The phases, passed on -----

  /** What is known of the step ahead. */
  lemma StepAhead(steps: seq<Step>, p: Progress, w: World, t: nat)
    requires Traversing(steps, p, w, t) && t < |steps|
    ensures t !in p.released && t !in p.skipped && (t in p.arrived <==> t in p.preObserved)
    ensures t in p.preObserved ==> ArrivedAt(w, steps[t].worker, steps[t].point)
  {
    TraversingMeans(steps, p, w, t);
  }

  lemma FreshIsUnseen(steps: seq<Step>, p: Progress, w: World, i: nat)
    requires Traversing(steps, p, w, 0) && i < |steps| && Fresh(steps, p, i)
    ensures i !in p.arrived && i !in p.released && i !in p.skipped
  {
    TraversingMeans(steps, p, w, 0);
  }

  /** What is known of a pending step. */
  lemma StepPending(steps: seq<Step>, p: Progress, w: World, at: nat, i: nat)
    requires Draining(steps, p, w, at) && i in p.pending
    ensures i < |steps| && i !in p.released && i !in p.skipped && i !in p.arrived
  {
    DrainingMeans(steps, p, w, at);
  }

  /** After a drain nothing is left but settled steps, and those that came late are counted. */
  lemma DrainedMeans(steps: seq<Step>, p: Progress, w: World, at: nat)
    requires Draining(steps, p, w, at)
    ensures forall i :: i in p.pending ==> i < |steps|
    ensures forall i :: 0 <= i < |steps| ==> i in p.released || i in p.skipped || i in p.pending
    ensures p.resolved == |Resolved(steps, p.timedOut, p.released)|
  {
    DrainingMeans(steps, p, w, at);
  }

  lemma NothingStarted(steps: seq<Step>, p: Progress, w: World)
    requires p.arrived == p.released == p.skipped == p.timedOut == p.pending == p.preObserved == {}
    requires p.ended == {} && p.resolved == 0
    ensures Traversing(steps, p, w, 0)
  {
    TraversingMeans(steps, p, w, 0);
  }

  lemma OthersMove(steps: seq<Step>, p: Progress, w: World, w': World, t: nat, id: string)
    requires Traversing(steps, p, w, t) && KeepsOthers(w, w', id)
    requires forall i :: i in p.preObserved && i < |steps| ==> steps[i].worker != id
    ensures Traversing(steps, p, w', t)
  {
    TraversingMeans(steps, p, w, t);
    TraversingKeepsOthers(steps, p, w, w', t, id);
    TraversingMeans(steps, p, w', t);
  }

  lemma SkipMoves(steps: seq<Step>, p: Progress, w: World, t: nat)
    requires Traversing(steps, p, w, t) && t < |steps| && steps[t].worker in p.ended
    ensures Traversing(steps, p.(skipped := p.skipped + {t}), w, t + 1)
  {
    TraversingMeans(steps, p, w, t);
    TraverseSkip(steps, p, w, t);
    TraversingMeans(steps, p.(skipped := p.skipped + {t}), w, t + 1);
  }

  lemma DeferralMoves(steps: seq<Step>, p: Progress, w: World, t: nat)
    requires Traversing(steps, p, w, t) && t < |steps| && steps[t].worker !in p.ended
    requires t in p.pending || PendingPredecessor(steps, p, t)
    ensures Traversing(steps, p.(pending := p.pending + {t}), w, t + 1)
  {
    TraversingMeans(steps, p, w, t);
    TraversePending(steps, p, w, t);
    TraversingMeans(steps, p.(pending := p.pending + {t}), w, t + 1);
  }

  lemma Releasable(steps: seq<Step>, p: Progress, w: World, t: nat)
    requires Traversing(steps, p, w, t) && t < |steps| && Unencumbered(steps, p, t)
    ensures t !in p.released && t !in p.skipped && Cleared(steps, p.released, t)
    ensures forall i :: i in p.preObserved && i < |steps| && i != t ==> steps[i].worker != steps[t].worker
  {
    TraversingMeans(steps, p, w, t);
    TraverseCanRelease(steps, p, w, t);
  }

  lemma BootstrapGoesOn(steps: seq<Step>, p: Progress, p': Progress, w: World, w': World, i: nat)
    requires Traversing(steps, p, w, 0) && i < |steps| && Fresh(steps, p, i)
    requires BootstrapMove(steps, p, p', w, w', i)
    ensures Traversing(steps, p', w', 0)
  {
    TraversingMeans(steps, p, w, 0);
    BootstrapMoves(steps, p, p', w, w', i);
    TraversingMeans(steps, p', w', 0);
  }

  lemma PreObservedGoesOn(steps: seq<Step>, p: Progress, w: World, w': World, t: nat)
    requires Traversing(steps, p, w, t) && t < |steps| && Unencumbered(steps, p, t) && t in p.preObserved
    requires KeepsOthers(w, w', steps[t].worker)
    ensures Traversing(steps, p.(preObserved := p.preObserved - {t}, released := p.released + {t}), w', t + 1)
  {
    TraversingMeans(steps, p, w, t);
    PreObservedMoves(steps, p, w, w', t);
    TraversingMeans(steps, p.(preObserved := p.preObserved - {t}, released := p.released + {t}), w', t + 1);
  }

  lemma StepGoesOn(steps: seq<Step>, p: Progress, p': Progress, w: World, w': World, t: nat)
    requires Traversing(steps, p, w, t) && t < |steps| && t !in p.preObserved && Unencumbered(steps, p, t)
    requires StepMove(steps, p, p', w, w', t)
    ensures Traversing(steps, p', w', t + 1)
  {
    TraversingMeans(steps, p, w, t);
    StepMoves(steps, p, p', w, w', t);
    TraversingMeans(steps, p', w', t + 1);
  }

  lemma DrainBegins(steps: seq<Step>, p: Progress, w: World)
    requires Traversing(steps, p, w, |steps|)
    ensures Draining(steps, p, w, 0)
  {
    TraversingMeans(steps, p, w, |steps|);
    TraversalDone(steps, p, w);
    DrainingMeans(steps, p, w, 0);
  }

  lemma SkipGoesOn(steps: seq<Step>, p: Progress, w: World, at: nat)
    requires Draining(steps, p, w, at) && at < |steps| && at in p.pending && steps[at].worker in p.ended
    ensures Draining(steps, p.(skipped := p.skipped + {at}, pending := p.pending - {at}), w, at + 1)
  {
    DrainingMeans(steps, p, w, at);
    DrainSkip(steps, p, w, at);
    DrainingMeans(steps, p.(skipped := p.skipped + {at}, pending := p.pending - {at}), w, at + 1);
  }

  lemma PassGoesOn(steps: seq<Step>, p: Progress, w: World, at: nat)
    requires Draining(steps, p, w, at) && at < |steps| && at !in p.pending
    ensures Draining(steps, p, w, at + 1)
  {
    DrainingMeans(steps, p, w, at);
    DrainPass(steps, p, w, at);
    DrainingMeans(steps, p, w, at + 1);
  }

  lemma PassBeginsAgain(steps: seq<Step>, p: Progress, w: World)
    requires Draining(steps, p, w, |steps|)
    ensures Draining(steps, p, w, 0)
  {
    DrainingMeans(steps, p, w, |steps|);
    DrainRestart(steps, p, w);
    DrainingMeans(steps, p, w, 0);
  }

  lemma ArrivalGoesOn(steps: seq<Step>, p: Progress, w: World, w': World, w'': World, at: nat)
    requires DistinctSteps(steps) && at < |steps| && at in p.pending && steps[at].worker !in p.ended
    requires Draining(steps, p, w, at) && NotHeldElsewhere(steps, w, at)
    requires KeepsOthers(w, w', steps[at].worker) && KeepsOthers(w', w'', steps[at].worker)
    ensures Draining(steps, Settled(p, at), w'', at + 1)
  {
    DrainingMeans(steps, p, w, at);
    ArrivedMoves(steps, p, w, w', w'', at);
    DrainingMeans(steps, Settled(p, at), w'', at + 1);
  }

  lemma ArrivalIsCleared(steps: seq<Step>, p: Progress, w: World, at: nat)
    requires DistinctSteps(steps) && Draining(steps, p, w, at) && at < |steps| && steps[at].worker !in p.ended
    requires NotHeldElsewhere(steps, w, at)
    ensures Cleared(steps, p.released, at)
  {
    DrainingMeans(steps, p, w, at);
    ArrivedIsCleared(steps, p, w, at);
  }

  /** A wait that timed out once more leaves the step held; if its worker has ended since, the step
      can be skipped. */
  lemma TimeoutGoesOn(steps: seq<Step>, p: Progress, w: World, w': World, at: nat)
    requires DistinctSteps(steps) && Draining(steps, p, w, at) && at < |steps| && at in p.pending
    requires steps[at].worker !in p.ended && Held(w', steps[at].worker, steps[at].point)
    requires KeepsOthers(w, w', steps[at].worker) && (w'.cancelled || NotHeldElsewhere(steps, w, at))
    ensures Draining(steps, p.(timedOut := p.timedOut + {at}), w', at + 1)
    ensures Draining(steps, p.(ended := p.ended + {steps[at].worker}), w', at)
  {
    DrainingMeans(steps, p, w, at);
    HeldOn(steps, p, w, w', at);
    DrainTimedOut(steps, p, w', at);
    DrainEnd(steps, p, w', at, steps[at].worker);
    DrainingMeans(steps, p.(timedOut := p.timedOut + {at}), w', at + 1);
    DrainingMeans(steps, p.(ended := p.ended + {steps[at].worker}), w', at);
  }

  lemma EndGoesOn(steps: seq<Step>, p: Progress, w: World, w': World, w'': World, at: nat)
    requires Draining(steps, p, w, at) && at < |steps|
    requires KeepsOthers(w, w', steps[at].worker) && (w'' == w' || Keeps(w', w''))
    ensures Draining(steps, p.(ended := p.ended + {steps[at].worker}), w'', at)
  {
    DrainingMeans(steps, p, w, at);
    EndedMoves(steps, p, w, w', w'', at);
    DrainingMeans(steps, p.(ended := p.ended + {steps[at].worker}), w'', at);
  }
}
