/** The event trace of one schedule execution and what every trace must satisfy
    (internal/orchestrator/run.go, internal/orchestrator/trace.go). */
module Traces {
  import opened Options
  import opened Scenarios

  /** step is the saved step index, or -1 where the source records none. */
  datatype Event =
    | WorkerRegistered(worker: string)
    | WorkerInvoked(worker: string)
    | PointArrived(at: nat)
    | PointTimeout(at: nat)
    | PointReleased(at: nat)
    | StepSkipped(at: nat)
    | WorkerDone(worker: string, step: int)
    | WorkerFailed(worker: string, step: int)
    | ScheduleComplete

  type Trace = seq<Event>

  /** The saved step an event settles. */
  function Settles(e: Event): Option<nat> {
    match e
    case PointReleased(at) => Some(at)
    case StepSkipped(at) => Some(at)
    case _ => None
  }

  /** The worker an event ends. */
  function Ends(e: Event): Option<string> {
    match e
    case WorkerDone(id, _) => Some(id)
    case WorkerFailed(id, _) => Some(id)
    case _ => None
  }

  /** What a trace has recorded so far. */
  datatype Account = Account(
    arrived: set<nat>, released: set<nat>, skipped: set<nat>,
    ended: set<string>, failed: set<string>, timedOut: set<nat>, timeouts: nat)

  function Record(acc: Account, e: Event): Account {
    match e
    case PointArrived(at) => acc.(arrived := acc.arrived + {at})
    case PointTimeout(at) => acc.(timedOut := acc.timedOut + {at}, timeouts := acc.timeouts + 1)
    case PointReleased(at) => acc.(released := acc.released + {at})
    case StepSkipped(at) => acc.(skipped := acc.skipped + {at})
    case WorkerDone(id, _) => acc.(ended := acc.ended + {id})
    case WorkerFailed(id, _) => acc.(ended := acc.ended + {id}, failed := acc.failed + {id})
    case _ => acc
  }

  function Tally(trace: Trace): Account {
    if trace == [] then Account({}, {}, {}, {}, {}, {}, 0)
    else Record(Tally(trace[..|trace| - 1]), trace[|trace| - 1])
  }

  /** The wait for the step, or for an earlier one of its worker, has timed out. */
  ghost predicate Late(steps: seq<Step>, timedOut: set<nat>, at: nat) {
    exists j :: j in timedOut && j <= at < |steps| && steps[j].worker == steps[at].worker
  }

  /** The steps that were released although they came late. */
  ghost function Resolved(steps: seq<Step>, timedOut: set<nat>, released: set<nat>): set<nat> {
    set at | at in released && Late(steps, timedOut, at)
  }

  /** Every earlier step of the same worker has been released. */
  ghost predicate Cleared(steps: seq<Step>, released: set<nat>, at: nat)
    requires at < |steps|
  {
    forall j :: 0 <= j < at && steps[j].worker == steps[at].worker ==> j in released
  }

  /** What may be recorded next. */
  ghost predicate Allowed(steps: seq<Step>, acc: Account, e: Event) {
    match e
    case PointArrived(at) => at < |steps| && at !in acc.arrived && steps[at].worker !in acc.ended
    case PointTimeout(at) => at < |steps| && at !in acc.arrived && steps[at].worker !in acc.ended
    case PointReleased(at) =>
      && at < |steps| && at in acc.arrived && at !in acc.released && at !in acc.skipped
      && steps[at].worker !in acc.ended && Cleared(steps, acc.released, at)
    case StepSkipped(at) =>
      at < |steps| && at !in acc.released && at !in acc.skipped && steps[at].worker in acc.ended
    case WorkerDone(id, _) => id !in acc.ended
    case WorkerFailed(id, _) => id !in acc.ended
    case _ => true
  }

  /** A trace is safe when each event was allowed at its moment: a step's arrival is recorded at
      most once, its timeouts before that, and both before its worker ended; it is settled at most
      once; it is released only after its own arrival was recorded, after all earlier steps of its
      worker were released, and before its worker ended; it is skipped only after its worker
      ended; and a worker ends at most once. */
  ghost predicate Safe(steps: seq<Step>, trace: Trace) {
    trace == []
    || (var before := trace[..|trace| - 1];
        Safe(steps, before) && Allowed(steps, Tally(before), trace[|trace| - 1]))
  }

  lemma Extend(steps: seq<Step>, trace: Trace, e: Event)
    ensures Tally(trace + [e]) == Record(Tally(trace), e)
    ensures Safe(steps, trace) && Allowed(steps, Tally(trace), e) ==> Safe(steps, trace + [e])
  {
    assert (trace + [e])[..|trace|] == trace;
  }

  // ----- Consequences -----

  /** The account holds exactly what some event of the trace recorded. */
  lemma {:induction false} TallyMeans(trace: Trace)
    ensures forall at :: at in Tally(trace).arrived <==> PointArrived(at) in trace
    ensures forall at :: at in Tally(trace).released <==> PointReleased(at) in trace
    ensures forall at :: at in Tally(trace).skipped <==> StepSkipped(at) in trace
    ensures forall id :: id in Tally(trace).ended <==> exists k :: 0 <= k < |trace| && Ends(trace[k]) == Some(id)
  {
    if trace != [] {
      var before, e := trace[..|trace| - 1], trace[|trace| - 1];
      assert trace == before + [e];
      TallyMeans(before);
      forall id ensures id in Tally(trace).ended <==> exists k :: 0 <= k < |trace| && Ends(trace[k]) == Some(id) {
        if id in Tally(before).ended {
          var k :| 0 <= k < |before| && Ends(before[k]) == Some(id);
          assert trace[k] == before[k];
        }
        assert Ends(e) == Some(id) ==> Ends(trace[|before|]) == Some(id);
        if k :| 0 <= k < |trace| && Ends(trace[k]) == Some(id) {
          if k < |before| { assert before[k] == trace[k]; }
        }
      }
    }
  }

  lemma {:induction false} SafeAt(steps: seq<Step>, trace: Trace, k: nat)
    requires Safe(steps, trace) && k < |trace|
    ensures Safe(steps, trace[..k]) && Allowed(steps, Tally(trace[..k]), trace[k])
    decreases |trace|
  {
    if k < |trace| - 1 {
      SafeAt(steps, trace[..|trace| - 1], k);
      assert trace[..|trace| - 1][..k] == trace[..k];
    }
  }

  /** In a safe trace the event that settles a step is the only one that does. */
  lemma SettledOnce(steps: seq<Step>, trace: Trace, k: nat, m: nat)
    requires Safe(steps, trace) && k < |trace| && m < |trace|
    requires Settles(trace[k]).Some? && Settles(trace[k]) == Settles(trace[m])
    ensures k == m
  {
    if k < m { EarlierSettled(steps, trace, k, m); }
    if m < k { EarlierSettled(steps, trace, m, k); }
  }

  lemma EarlierSettled(steps: seq<Step>, trace: Trace, k: nat, m: nat)
    requires Safe(steps, trace) && k < m < |trace| && Settles(trace[k]).Some?
    ensures Settles(trace[k]) != Settles(trace[m])
  {
    SafeAt(steps, trace, m);
    TallyMeans(trace[..m]);
    assert trace[..m][k] == trace[k];
  }

  /** In a safe trace the arrival at a step is recorded once, and no timeout of it afterwards. */
  lemma ArrivedOnce(steps: seq<Step>, trace: Trace, k: nat, m: nat)
    requires Safe(steps, trace) && k < m < |trace| && trace[k].PointArrived?
    ensures trace[m] != trace[k] && trace[m] != PointTimeout(trace[k].at)
  {
    SafeAt(steps, trace, m);
    TallyMeans(trace[..m]);
    assert trace[..m][k] == trace[k];
  }

  /** In a safe trace a worker ends at most once, and nothing of it is released afterwards. */
  lemma EndIsFinal(steps: seq<Step>, trace: Trace, k: nat, m: nat)
    requires Safe(steps, trace) && k < m < |trace| && Ends(trace[k]).Some?
    ensures Ends(trace[m]) != Ends(trace[k])
    ensures trace[m].PointReleased? ==>
            trace[m].at < |steps| && steps[trace[m].at].worker != Ends(trace[k]).value
  {
    SafeAt(steps, trace, m);
    TallyMeans(trace[..m]);
    assert trace[..m][k] == trace[k];
  }

  /** The points at which a worker was released, in trace order. */
  function ReleasedPoints(steps: seq<Step>, trace: Trace, id: string): seq<string> {
    if trace == [] then []
    else
      var rest, e := trace[..|trace| - 1], trace[|trace| - 1];
      ReleasedPoints(steps, rest, id)
        + if e.PointReleased? && e.at < |steps| && steps[e.at].worker == id then [steps[e.at].point] else []
  }

  /** How many of the first n steps belong to a worker. */
  function Rank(steps: seq<Step>, n: nat, id: string): nat
    requires n <= |steps|
  {
    |Project(steps[..n], id)|
  }

  lemma RankStep(steps: seq<Step>, n: nat, id: string)
    requires n < |steps|
    ensures Project(steps[..n + 1], id)
         == Project(steps[..n], id) + if steps[n].worker == id then [steps[n].point] else []
  {
    assert steps[..n + 1] == steps[..n] + [steps[n]];
    ProjectExtend(steps[..n], steps[n], id);
  }

  lemma ProjectGrows(steps: seq<Step>, m: nat, n: nat, id: string)
    requires m <= n <= |steps|
    ensures Project(steps[..m], id) <= Project(steps[..n], id)
  {
    assert steps[..n][..m] == steps[..m];
    ProjectPrefix(steps[..n], m, id);
  }

  /** The released steps of a worker are exactly those of rank below the number released. */
  ghost predicate ReleasedByRank(steps: seq<Step>, released: set<nat>, points: seq<string>, id: string) {
    && points <= Project(steps, id)
    && (forall at :: 0 <= at < |steps| && steps[at].worker == id ==>
          (at in released <==> Rank(steps, at, id) < |points|))
  }

  /** In a safe trace the points released for a worker are, in order, a prefix of its points. */
  lemma {:induction false} ReleasedPointsArePrefix(steps: seq<Step>, trace: Trace, id: string)
    requires Safe(steps, trace)
    ensures ReleasedByRank(steps, Tally(trace).released, ReleasedPoints(steps, trace, id), id)
  {
    if trace != [] {
      var rest, e := trace[..|trace| - 1], trace[|trace| - 1];
      ReleasedPointsArePrefix(steps, rest, id);
      if e.PointReleased? && steps[e.at].worker == id {
        ReleaseExtends(steps, Tally(rest).released, ReleasedPoints(steps, rest, id), e.at, id);
      }
    }
  }

  lemma ReleaseExtends(steps: seq<Step>, released: set<nat>, points: seq<string>, at: nat, id: string)
    requires ReleasedByRank(steps, released, points, id)
    requires at < |steps| && steps[at].worker == id && at !in released && Cleared(steps, released, at)
    ensures ReleasedByRank(steps, released + {at}, points + [steps[at].point], id)
  {
    ReleaseAtRank(steps, released, points, id, at);
    RankStep(steps, at, id);
    ProjectGrows(steps, at, |steps|, id);
    ProjectGrows(steps, at + 1, |steps|, id);
    assert steps[..|steps|] == steps;
    assert points == Project(steps[..at], id);
    forall other | 0 <= other < |steps| && steps[other].worker == id
      ensures other in released + {at} <==> Rank(steps, other, id) < |points| + 1
    {
      RankOrder(steps, other, at, id);
      RankOrder(steps, at, other, id);
    }
  }

  /** Two steps of one worker have different ranks, in step order. */
  lemma RankOrder(steps: seq<Step>, a: nat, b: nat, id: string)
    requires a < |steps| && b < |steps| && steps[a].worker == id && steps[b].worker == id
    ensures Rank(steps, a, id) < Rank(steps, b, id) <==> a < b
  {
    if a < b {
      RankStep(steps, a, id);
      ProjectGrows(steps, a + 1, b, id);
    } else {
      ProjectGrows(steps, b, a, id);
    }
  }

  /** A step released now has as its rank the number of releases so far. */
  lemma ReleaseAtRank(steps: seq<Step>, released: set<nat>, points: seq<string>, id: string, at: nat)
    requires ReleasedByRank(steps, released, points, id)
    requires at < |steps| && steps[at].worker == id && at !in released && Cleared(steps, released, at)
    ensures Rank(steps, at, id) == |points|
  {
    if Rank(steps, at, id) > 0 {
      var j := LastOf(steps, at, id);
      assert j in released;
    }
  }

  lemma {:induction false} LastOf(steps: seq<Step>, n: nat, id: string) returns (j: nat)
    requires n <= |steps| && Rank(steps, n, id) > 0
    ensures j < n && steps[j].worker == id && Rank(steps, j, id) + 1 == Rank(steps, n, id)
  {
    RankStep(steps, n - 1, id);
    if steps[n - 1].worker == id {
      j := n - 1;
    } else {
      j := LastOf(steps, n - 1, id);
    }
  }

  // ----- Complete traces -----

  /** A complete trace settles every saved step, ends every worker, and closes with its completion event. */
  ghost predicate Complete(sc: Scenario, steps: seq<Step>, trace: Trace) {
    && (forall at :: 0 <= at < |steps| ==> at in Tally(trace).released || at in Tally(trace).skipped)
    && (forall w :: 0 <= w < |sc.workers| ==> sc.workers[w].id in Tally(trace).ended)
    && trace != [] && trace[|trace| - 1] == ScheduleComplete
  }

  /** In a safe and complete trace every saved step has exactly one release-or-skip event. */
  lemma EveryStepSettledExactlyOnce(sc: Scenario, steps: seq<Step>, trace: Trace, at: nat)
    requires Safe(steps, trace) && Complete(sc, steps, trace) && at < |steps|
    ensures exists k :: 0 <= k < |trace| && Settles(trace[k]) == Some(at)
                     && forall m :: 0 <= m < |trace| && Settles(trace[m]) == Some(at) ==> m == k
  {
    TallyMeans(trace);
    var e := if at in Tally(trace).released then PointReleased(at) else StepSkipped(at);
    assert e in trace;
    var k :| 0 <= k < |trace| && trace[k] == e;
    forall m | 0 <= m < |trace| && Settles(trace[m]) == Some(at) ensures m == k {
      SettledOnce(steps, trace, k, m);
    }
    assert Settles(trace[k]) == Some(at);
  }

  /** In a safe and complete trace every worker has exactly one terminal event. */
  lemma EveryWorkerEndsExactlyOnce(sc: Scenario, steps: seq<Step>, trace: Trace, w: nat)
    requires Safe(steps, trace) && Complete(sc, steps, trace) && w < |sc.workers|
    ensures exists k :: 0 <= k < |trace| && Ends(trace[k]) == Some(sc.workers[w].id)
                     && forall m :: 0 <= m < |trace| && Ends(trace[m]) == Some(sc.workers[w].id) ==> m == k
  {
    TallyMeans(trace);
    var id := sc.workers[w].id;
    var k :| 0 <= k < |trace| && Ends(trace[k]) == Some(id);
    forall m | 0 <= m < |trace| && Ends(trace[m]) == Some(id) ensures m == k {
      if k < m { EndIsFinal(steps, trace, k, m); }
      if m < k { EndIsFinal(steps, trace, m, k); }
    }
  }

  /** Of every worker the released points are a prefix of the scenario's points, in order, and
      all of them unless the worker's end made the run skip some. */
  lemma ReleasesFollowTheScenario(sc: Scenario, steps: seq<Step>, trace: Trace, id: string)
    requires Interleaving(sc, steps) && Known(sc, id) && Safe(steps, trace)
    ensures ReleasedPoints(steps, trace, id) <= sc.points
    ensures Complete(sc, steps, trace)
            && (forall at :: 0 <= at < |steps| && steps[at].worker == id ==> at !in Tally(trace).skipped)
            ==> ReleasedPoints(steps, trace, id) == sc.points
  {
    ReleasedPointsArePrefix(steps, trace, id);
    var points := ReleasedPoints(steps, trace, id);
    if Complete(sc, steps, trace) && |points| < |sc.points|
       && (forall at :: 0 <= at < |steps| && steps[at].worker == id ==> at !in Tally(trace).skipped) {
      assert steps[..|steps|] == steps;
      var last := LastOf(steps, |steps|, id);
    }
  }
}
