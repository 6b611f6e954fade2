/** Replayable worker scenarios (internal/scenario/scenario.go) and the membership
    test for their saved schedules (internal/scenario/schedule.go). */
module Scenarios {
  import opened Options

  datatype Worker = Worker(id: string, command: string)

  /** points is the required order for every worker. */
  datatype Scenario = Scenario(name: string, workers: seq<Worker>, points: seq<string>)

  datatype Step = Step(worker: string, point: string)

  datatype Schedule = Schedule(id: string, steps: seq<Step>)

  /** The hexadecimal digest prefix of a step list's compact JSON.  Uninterpreted. */
  type Digest = seq<Step> -> string

  function ContentID(digest: Digest, steps: seq<Step>): string {
    "sch_" + digest(steps)
  }

  // ----- Blank text -----

  /** Unicode White_Space, the set that strings.TrimSpace removes. */
  predicate IsSpace(c: char) {
    || '\t' <= c <= '\r' || c == ' ' || c == '\U{0085}' || c == '\U{00A0}' || c == '\U{1680}'
    || '\U{2000}' <= c <= '\U{200A}' || c == '\U{2028}' || c == '\U{2029}' || c == '\U{202F}'
    || c == '\U{205F}' || c == '\U{3000}'
  }

  predicate Blank(s: string) {
    forall i :: 0 <= i < |s| ==> IsSpace(s[i])
  }

  // ----- Valid scenarios -----

  ghost predicate Distinct<T>(s: seq<T>) {
    forall i, j :: 0 <= i < j < |s| ==> s[i] != s[j]
  }

  function WorkerIds(workers: seq<Worker>): (ids: seq<string>)
    ensures |ids| == |workers|
    ensures forall i :: 0 <= i < |ids| ==> ids[i] == workers[i].id
  {
    seq(|workers|, i requires 0 <= i < |workers| => workers[i].id)
  }

  ghost predicate ValidScenario(sc: Scenario) {
    && !Blank(sc.name)
    && sc.workers != [] && sc.points != []
    && (forall i :: 0 <= i < |sc.workers| ==> !Blank(sc.workers[i].id) && !Blank(sc.workers[i].command))
    && Distinct(WorkerIds(sc.workers))
    && (forall i :: 0 <= i < |sc.points| ==> !Blank(sc.points[i]))
    && Distinct(sc.points)
  }

  /** id names one of the scenario's workers. */
  ghost predicate Known(sc: Scenario, id: string) {
    id in WorkerIds(sc.workers)
  }

  /** The lookup tables validation leaves behind. */
  datatype Index = Index(workers: set<string>, points: map<string, nat>)

  ghost predicate Indexes(index: Index, sc: Scenario) {
    && (forall id :: id in index.workers <==> Known(sc, id))
    && (forall p :: p in index.points <==> p in sc.points)
    && (forall p :: p in index.points ==> index.points[p] < |sc.points| && sc.points[index.points[p]] == p)
  }

  method ValidateScenario(sc: Scenario) returns (r: Option<Index>)
    ensures r.Some? <==> ValidScenario(sc)
    ensures r.Some? ==> Indexes(r.value, sc)
  {
    if Blank(sc.name) || |sc.workers| == 0 || |sc.points| == 0 {
      return None;
    }
    var workers := IndexWorkers(sc.workers);
    if workers == None {
      return None;
    }
    var points := IndexPoints(sc.points);
    if points == None {
      return None;
    }
    return Some(Index(workers.value, points.value));
  }

  method IndexWorkers(workers: seq<Worker>) returns (r: Option<set<string>>)
    ensures r.Some? <==>
            && (forall i :: 0 <= i < |workers| ==> !Blank(workers[i].id) && !Blank(workers[i].command))
            && Distinct(WorkerIds(workers))
    ensures r.Some? ==> forall id :: id in r.value <==> id in WorkerIds(workers)
  {
    ghost var ids := WorkerIds(workers);
    var seen: set<string> := {};
    for i := 0 to |workers|
      invariant forall j :: 0 <= j < i ==> !Blank(workers[j].id) && !Blank(workers[j].command)
      invariant Distinct(ids[..i])
      invariant forall id :: id in seen <==> id in ids[..i]
    {
      if Blank(workers[i].id) || Blank(workers[i].command) {
        return None;
      }
      assert ids[..i + 1] == ids[..i] + [workers[i].id];
      if workers[i].id in seen {
        return None;
      }
      seen := seen + {workers[i].id};
    }
    assert ids[..|workers|] == ids;
    return Some(seen);
  }

  method IndexPoints(points: seq<string>) returns (r: Option<map<string, nat>>)
    ensures r.Some? <==> (forall i :: 0 <= i < |points| ==> !Blank(points[i])) && Distinct(points)
    ensures r.Some? ==>
            && (forall p :: p in r.value <==> p in points)
            && (forall p :: p in r.value ==> r.value[p] < |points| && points[r.value[p]] == p)
  {
    var index: map<string, nat> := map[];
    for i := 0 to |points|
      invariant forall j :: 0 <= j < i ==> !Blank(points[j])
      invariant Distinct(points[..i])
      invariant forall p :: p in index <==> p in points[..i]
      invariant forall p :: p in index ==> index[p] < i && points[index[p]] == p
    {
      assert points[..i + 1] == points[..i] + [points[i]];
      if Blank(points[i]) || points[i] in index {
        return None;
      }
      index := index[points[i] := i];
    }
    assert points[..|points|] == points;
    return Some(index);
  }

  // ----- What a schedule must be -----

  /** The points worker id visits, in saved order. */
  function Project(steps: seq<Step>, id: string): seq<string> {
    if steps == [] then []
    else
      var last := steps[|steps| - 1];
      Project(steps[..|steps| - 1], id) + if last.worker == id then [last.point] else []
  }

  /** Every worker visits every sync-point exactly once, in the scenario's order,
      and nobody else takes a step. */
  ghost predicate Interleaving(sc: Scenario, steps: seq<Step>) {
    && (forall k :: 0 <= k < |steps| ==> Known(sc, steps[k].worker))
    && (forall id :: Known(sc, id) ==> Project(steps, id) == sc.points)
  }

  /** The partial form: every worker has visited a prefix of the sync-points. */
  ghost predicate PartialInterleaving(sc: Scenario, steps: seq<Step>) {
    && (forall k :: 0 <= k < |steps| ==> Known(sc, steps[k].worker))
    && (forall id :: Known(sc, id) ==> Project(steps, id) <= sc.points)
  }

  /** How many of the steps the listed workers take together. */
  function StepTotal(steps: seq<Step>, ids: seq<string>): nat {
    if ids == [] then 0 else |Project(steps, ids[0])| + StepTotal(steps, ids[1..])
  }

  /** Each step of a known worker belongs to exactly one of the distinct worker IDs. */
  lemma {:induction false} StepTotalIsLength(steps: seq<Step>, ids: seq<string>)
    requires Distinct(ids)
    requires forall k :: 0 <= k < |steps| ==> steps[k].worker in ids
    ensures StepTotal(steps, ids) == |steps|
  {
    if steps == [] {
      StepTotalEmpty(ids);
    } else {
      StepTotalIsLength(steps[..|steps| - 1], ids);
      StepTotalExtend(steps[..|steps| - 1], steps[|steps| - 1], ids);
      assert steps == steps[..|steps| - 1] + [steps[|steps| - 1]];
    }
  }

  lemma {:induction false} StepTotalEmpty(ids: seq<string>)
    ensures StepTotal([], ids) == 0
  {
    if ids != [] { StepTotalEmpty(ids[1..]); }
  }

  lemma ProjectExtend(steps: seq<Step>, step: Step, id: string)
    ensures Project(steps + [step], id) == Project(steps, id) + if step.worker == id then [step.point] else []
  {
    assert (steps + [step])[..|steps|] == steps;
  }

  lemma {:induction false} StepTotalExtend(steps: seq<Step>, step: Step, ids: seq<string>)
    requires Distinct(ids)
    ensures StepTotal(steps + [step], ids) == StepTotal(steps, ids) + if step.worker in ids then 1 else 0
  {
    if ids != [] {
      StepTotalExtend(steps, step, ids[1..]);
      ProjectExtend(steps, step, ids[0]);
      assert forall i :: 0 < i < |ids| ==> ids[i] != ids[0];
      assert step.worker in ids <==> step.worker == ids[0] || step.worker in ids[1..];
    }
  }

  lemma PrefixLength<T>(a: seq<T>, b: seq<T>)
    requires a <= b
    ensures |a| <= |b| && (|a| == |b| <==> a == b)
  {}

  lemma PrefixSnoc<T>(a: seq<T>, b: seq<T>, x: T)
    requires a <= b
    ensures a + [x] <= b <==> |a| < |b| && b[|a|] == x
  {
    if |a| < |b| && b[|a|] == x {
      assert b[..|a| + 1] == a + [x];
    }
  }

  lemma Times(n: nat, p: nat)
    ensures (n + 1) * p == n * p + p
  {}

  lemma {:induction false} StepTotalBound(points: seq<string>, steps: seq<Step>, ids: seq<string>)
    requires forall i :: 0 <= i < |ids| ==> Project(steps, ids[i]) <= points
    ensures StepTotal(steps, ids) <= |ids| * |points|
    ensures StepTotal(steps, ids) == |ids| * |points|
       <==> forall i :: 0 <= i < |ids| ==> Project(steps, ids[i]) == points
  {
    if ids != [] {
      var rest := ids[1..];
      forall i | 0 <= i < |rest| ensures Project(steps, rest[i]) <= points {
        assert rest[i] == ids[i + 1];
      }
      StepTotalBound(points, steps, rest);
      Times(|rest|, |points|);
      PrefixLength(Project(steps, ids[0]), points);
      if forall i :: 0 <= i < |rest| ==> Project(steps, rest[i]) == points {
        forall i | 0 < i < |ids| ensures Project(steps, ids[i]) == points {
          assert ids[i] == rest[i - 1];
        }
      } else {
        var i :| 0 <= i < |rest| && Project(steps, rest[i]) != points;
        assert ids[i + 1] == rest[i];
      }
    }
  }

  /** A partial interleaving never exceeds workers x points steps, and reaches that
      many exactly when it is complete. */
  lemma CompleteByLength(sc: Scenario, steps: seq<Step>)
    requires ValidScenario(sc) && PartialInterleaving(sc, steps)
    ensures |steps| <= |sc.workers| * |sc.points|
    ensures |steps| == |sc.workers| * |sc.points| <==> Interleaving(sc, steps)
  {
    var ids := WorkerIds(sc.workers);
    assert forall i :: 0 <= i < |ids| ==> ids[i] in ids;
    StepTotalIsLength(steps, ids);
    StepTotalBound(sc.points, steps, ids);
  }

  lemma {:induction false} ProjectPrefix(steps: seq<Step>, k: nat, id: string)
    requires k <= |steps|
    ensures Project(steps[..k], id) <= Project(steps, id)
  {
    if k == |steps| {
      assert steps[..k] == steps;
    } else {
      var front := steps[..|steps| - 1];
      ProjectPrefix(front, k, id);
      assert front[..k] == steps[..k];
    }
  }

  /** Interleavings stay partial when cut short. */
  lemma PrefixIsPartial(sc: Scenario, steps: seq<Step>, k: nat)
    requires k <= |steps| && PartialInterleaving(sc, steps)
    ensures PartialInterleaving(sc, steps[..k])
  {
    forall id | Known(sc, id) ensures Project(steps[..k], id) <= sc.points {
      ProjectPrefix(steps, k, id);
    }
  }

  // ----- Validate -----

  /** What is wrong with one step, given the steps before it. */
  datatype StepFault =
    | BlankWorker
    | UnknownWorker
    | BlankPoint
    | UnknownPoint
    | DuplicatePair(first: nat)
    | OutOfOrder(expected: string)

  datatype ScheduleError =
    | InvalidScenario
    | BlankID
    | IDMismatch
    | BadStep(at: nat, fault: StepFault)
    | MissingPair(worker: string, point: string)
    | WrongLength

  /** The meaning of each step fault. */
  ghost predicate ExplainsStep(fault: StepFault, sc: Scenario, before: seq<Step>, step: Step) {
    match fault
    case BlankWorker => Blank(step.worker)
    case UnknownWorker => !Known(sc, step.worker)
    case BlankPoint => Blank(step.point)
    case UnknownPoint => step.point !in sc.points
    case DuplicatePair(first) => first < |before| && before[first] == step
    case OutOfOrder(expected) =>
      Project(before, step.worker) + [expected] <= sc.points && expected != step.point
  }

  /** The meaning of each rejection.  Nothing explains a rejection by length alone. */
  ghost predicate Explains(error: ScheduleError, sc: Scenario, schedule: Schedule, digest: Digest) {
    var steps := schedule.steps;
    match error
    case InvalidScenario => !ValidScenario(sc)
    case BlankID => Blank(schedule.id)
    case IDMismatch => schedule.id != ContentID(digest, steps)
    case BadStep(at, fault) =>
      && at < |steps|
      && PartialInterleaving(sc, steps[..at]) && !PartialInterleaving(sc, steps[..at + 1])
      && ExplainsStep(fault, sc, steps[..at], steps[at])
    case MissingPair(worker, point) =>
      Known(sc, worker) && point in sc.points && Step(worker, point) !in steps
    case WrongLength => false
  }

  /** seen holds the steps, each with a position where it stands. */
  ghost predicate Remembers(steps: seq<Step>, seen: map<Step, nat>) {
    && (forall s :: s in seen <==> s in steps)
    && (forall s :: s in seen ==> seen[s] < |steps| && steps[seen[s]] == s)
  }

  /** What validation has learned about a prefix of the steps. */
  ghost predicate Scanned(sc: Scenario, steps: seq<Step>, seen: map<Step, nat>, next: map<string, nat>) {
    && PartialInterleaving(sc, steps)
    && Remembers(steps, seen)
    && (forall id :: Known(sc, id) ==> Lookup(next, id) == |Project(steps, id)|)
  }

  /** Reading a Go map: a missing key reads as zero. */
  function Lookup(m: map<string, nat>, key: string): nat {
    if key in m then m[key] else 0
  }

  lemma {:induction false} ProjectMember(steps: seq<Step>, id: string, point: string)
    ensures point in Project(steps, id) <==> Step(id, point) in steps
  {
    if steps != [] {
      ProjectMember(steps[..|steps| - 1], id, point);
      assert steps == steps[..|steps| - 1] + [steps[|steps| - 1]];
    }
  }

  /** A content-addressed interleaving of a valid scenario. */
  ghost predicate Accepted(sc: Scenario, schedule: Schedule, digest: Digest) {
    && ValidScenario(sc)
    && schedule.id == ContentID(digest, schedule.steps)
    && Interleaving(sc, schedule.steps)
  }

  /** Accepts exactly the content-addressed interleavings of a valid scenario.  Each
      rejection is explained, and the closing length-only rejection never happens. */
  method Validate(sc: Scenario, schedule: Schedule, digest: Digest) returns (error: Option<ScheduleError>)
    ensures error == None <==> Accepted(sc, schedule, digest)
    ensures error.Some? ==> Explains(error.value, sc, schedule, digest)
  {
    var valid := ValidateScenario(sc);
    if valid == None { return Some(InvalidScenario); }
    var index := valid.value;
    assert ContentID(digest, schedule.steps)[0] == 's';
    if Blank(schedule.id) { return Some(BlankID); }
    if schedule.id != ContentID(digest, schedule.steps) { return Some(IDMismatch); }

    var steps := schedule.steps;
    var expectedSteps := |sc.workers| * |sc.points|;
    var seen: map<Step, nat> := map[];
    var next: map<string, nat> := map[];
    for at := 0 to |steps|
      invariant Scanned(sc, steps[..at], seen, next)
    {
      assert steps[..at + 1] == steps[..at] + [steps[at]];
      var fault := CheckStep(sc, index, seen, next, steps[..at], steps[at]);
      if fault.Some? {
        BadStepEndsInterleaving(sc, steps, at);
        return Some(BadStep(at, fault.value));
      }
      ScanStep(sc, steps, at, seen, next);
      next := next[steps[at].worker := Lookup(next, steps[at].worker) + 1];
      seen := seen[steps[at] := at];
    }
    assert steps[..|steps|] == steps;
    CompleteByLength(sc, steps);
    if |steps| != expectedSteps {
      var missing := FirstMissing(sc, seen, steps);
      return Some(if missing.Some? then MissingPair(missing.value.worker, missing.value.point) else WrongLength);
    }
    return None;
  }

  /** The checks on one step, in order.  The expected point is looked up only when it exists. */
  method CheckStep(sc: Scenario, index: Index, seen: map<Step, nat>, next: map<string, nat>,
                   ghost before: seq<Step>, step: Step)
    returns (fault: Option<StepFault>)
    requires ValidScenario(sc) && Indexes(index, sc) && Scanned(sc, before, seen, next)
    ensures fault == None <==> PartialInterleaving(sc, before + [step])
    ensures fault.Some? ==> ExplainsStep(fault.value, sc, before, step)
  {
    NextStep(sc, before, step);
    if Blank(step.worker) {
      NonBlankIds(sc);
      return Some(BlankWorker);
    }
    if step.worker !in index.workers { return Some(UnknownWorker); }
    if Blank(step.point) { return Some(BlankPoint); }
    if step.point !in index.points { return Some(UnknownPoint); }
    if step in seen { return Some(DuplicatePair(seen[step])); }
    var position := Lookup(next, step.worker);
    if index.points[step.point] != position {
      PrefixSnoc(Project(before, step.worker), sc.points, sc.points[position]);
      return Some(OutOfOrder(sc.points[position]));
    }
    return None;
  }

  lemma BadStepEndsInterleaving(sc: Scenario, steps: seq<Step>, at: nat)
    requires at < |steps| && !PartialInterleaving(sc, steps[..at + 1])
    ensures !Interleaving(sc, steps)
  {
    if Interleaving(sc, steps) {
      PrefixIsPartial(sc, steps, at + 1);
    }
  }

  lemma NonBlankIds(sc: Scenario)
    requires ValidScenario(sc)
    ensures forall id :: Known(sc, id) ==> !Blank(id)
  {}

  lemma ScanStep(sc: Scenario, steps: seq<Step>, at: nat, seen: map<Step, nat>, next: map<string, nat>)
    requires at < |steps| && Scanned(sc, steps[..at], seen, next)
    requires PartialInterleaving(sc, steps[..at + 1])
    ensures Scanned(sc, steps[..at + 1], seen[steps[at] := at],
                    next[steps[at].worker := Lookup(next, steps[at].worker) + 1])
  {
    var before, step := steps[..at], steps[at];
    assert steps[..at + 1] == before + [step];
    CountStep(sc, before, step, next);
    RememberStep(before, step, seen);
  }

  lemma RememberStep(before: seq<Step>, step: Step, seen: map<Step, nat>)
    requires Remembers(before, seen)
    ensures Remembers(before + [step], seen[step := |before|])
  {
    assert forall s :: s in before + [step] <==> s in before || s == step;
  }

  lemma CountStep(sc: Scenario, before: seq<Step>, step: Step, next: map<string, nat>)
    requires forall id :: Known(sc, id) ==> Lookup(next, id) == |Project(before, id)|
    ensures var next' := next[step.worker := Lookup(next, step.worker) + 1];
            forall id :: Known(sc, id) ==> Lookup(next', id) == |Project(before + [step], id)|
  {
    var next' := next[step.worker := Lookup(next, step.worker) + 1];
    forall id | Known(sc, id) ensures Lookup(next', id) == |Project(before + [step], id)| {
      ProjectExtend(before, step, id);
    }
  }

  /** When one more step keeps a partial interleaving: it must be the next point of a known worker.
      A step that is neither unknown nor repeated always leaves its worker a point to come. */
  lemma NextStep(sc: Scenario, before: seq<Step>, step: Step)
    requires ValidScenario(sc) && PartialInterleaving(sc, before)
    ensures PartialInterleaving(sc, before + [step]) <==>
            && Known(sc, step.worker)
            && |Project(before, step.worker)| < |sc.points|
            && sc.points[|Project(before, step.worker)|] == step.point
    ensures step in before ==> !PartialInterleaving(sc, before + [step])
    ensures Known(sc, step.worker) && step !in before && step.point in sc.points
            ==> |Project(before, step.worker)| < |sc.points|
  {
    var after := before + [step];
    var visited := Project(before, step.worker);
    ProjectExtend(before, step, step.worker);
    ProjectMember(before, step.worker, step.point);
    assert after[|before|] == step;
    if Known(sc, step.worker) {
      assert visited <= sc.points;
      if step.point in visited {
        var i :| 0 <= i < |visited| && visited[i] == step.point;
        assert sc.points[i] == step.point;
      }
      PrefixSnoc(visited, sc.points, step.point);
      if visited + [step.point] <= sc.points {
        KnownStep(sc, before, step);
      }
    }
  }

  lemma KnownStep(sc: Scenario, before: seq<Step>, step: Step)
    requires PartialInterleaving(sc, before) && Known(sc, step.worker)
    requires Project(before, step.worker) + [step.point] <= sc.points
    ensures PartialInterleaving(sc, before + [step])
  {
    forall id | Known(sc, id) ensures Project(before + [step], id) <= sc.points {
      ProjectExtend(before, step, id);
    }
  }

  ghost predicate VisitsAll(sc: Scenario, steps: seq<Step>, id: string) {
    Project(steps, id) == sc.points
  }

  /** The first worker-point pair, in declaration order, that no step names. */
  method FirstMissing(sc: Scenario, seen: map<Step, nat>, ghost steps: seq<Step>) returns (missing: Option<Step>)
    requires ValidScenario(sc) && PartialInterleaving(sc, steps)
    requires forall s :: s in seen <==> s in steps
    requires |steps| != |sc.workers| * |sc.points|
    ensures missing.Some? && missing.value !in steps
    ensures Known(sc, missing.value.worker) && missing.value.point in sc.points
  {
    ghost var ids := WorkerIds(sc.workers);
    for w := 0 to |sc.workers|
      invariant forall v :: 0 <= v < w ==> VisitsAll(sc, steps, ids[v])
    {
      var id := sc.workers[w].id;
      assert ids[w] == id;
      var p := FirstUnseen(id, sc.points, seen);
      if p < |sc.points| {
        return Some(Step(id, sc.points[p]));
      }
      AllPointsSeen(sc, steps, id);
    }
    NothingMissing(sc, steps);
    return None;
  }

  /** The first point that worker id is not seen at. */
  method FirstUnseen(id: string, points: seq<string>, seen: map<Step, nat>) returns (p: nat)
    ensures p <= |points|
    ensures p < |points| ==> Step(id, points[p]) !in seen
    ensures forall q :: 0 <= q < p ==> Step(id, points[q]) in seen
  {
    p := 0;
    while p < |points|
      invariant p <= |points|
      invariant forall q :: 0 <= q < p ==> Step(id, points[q]) in seen
    {
      if Step(id, points[p]) !in seen {
        return;
      }
      p := p + 1;
    }
  }

  lemma NothingMissing(sc: Scenario, steps: seq<Step>)
    requires ValidScenario(sc) && PartialInterleaving(sc, steps)
    requires forall v :: 0 <= v < |sc.workers| ==> VisitsAll(sc, steps, WorkerIds(sc.workers)[v])
    ensures |steps| == |sc.workers| * |sc.points|
  {
    forall id | Known(sc, id) ensures Project(steps, id) == sc.points {
      var v :| 0 <= v < |sc.workers| && WorkerIds(sc.workers)[v] == id;
      assert VisitsAll(sc, steps, WorkerIds(sc.workers)[v]);
    }
    CompleteByLength(sc, steps);
  }

  lemma AllPointsSeen(sc: Scenario, steps: seq<Step>, id: string)
    requires ValidScenario(sc) && Project(steps, id) <= sc.points
    requires forall q :: 0 <= q < |sc.points| ==> Step(id, sc.points[q]) in steps
    ensures VisitsAll(sc, steps, id)
  {
    var last := |sc.points| - 1;
    ProjectMember(steps, id, sc.points[last]);
    var visited := Project(steps, id);
    var i :| 0 <= i < |visited| && visited[i] == sc.points[last];
    assert sc.points[i] == sc.points[last];
  }
}
