/** Repeated runs of one schedule (internal/orchestrator/replay.go) over the boundary of
    a single run (internal/orchestrator/run.go). */
module Replays {
  import opened Options
  import opened Evaluations
  import opened Scenarios
  import Traces
  import Runtimes
  import Coordinator
  import C = Collections

  datatype WorkerTerminal = WorkerTerminal(worker: string, failed: bool, failureClass: string)

  type Terminals = seq<WorkerTerminal>

  /** How a run is hashed: evaluation fingerprint, terminals and trace together. */
  datatype RunCodec = RunCodec(evidence: Codec, run: (string, Terminals, Traces.Trace) -> string)

  /** Hash collisions aside, fingerprints identify what they cover and are not empty. */
  ghost predicate Hashes(codec: RunCodec) {
    && Faithful(codec.evidence)
    && (forall f, t, e :: codec.run(f, t, e) != "")
    && (forall f, t, e, f', t', e' ::
          codec.run(f, t, e) == codec.run(f', t', e') ==> f == f' && t == t' && e == e')
  }

  datatype RunResult = RunResult(
    evaluation: Evaluation, terminals: Terminals, trace: Traces.Trace, fingerprint: string)

  datatype RunFault = FixtureFault | ControlFault(failure: Coordinator.Failure) | OtherFault

  /** What happens to a run outside the coordinator: what stops it before, whether something
      stops it after, what the oracles find, and the failure classes that workers give. */
  datatype World = World(before: Option<RunFault>, after: bool, found: Evaluation, classes: map<string, string>)

  datatype RunOutcome = Completed(run: RunResult) | Failed(fault: RunFault)

  /** One call of Run: what was asked for and what came back. */
  datatype Attempt = Attempt(schedule: Schedule, outcome: RunOutcome)

  /** A completed run carries a valid evaluation and its own fingerprint. */
  ghost predicate Sound(codec: RunCodec, run: RunResult) {
    && run.evaluation.fingerprint != ""
    && ValidEvaluation(codec.evidence, run.evaluation)
    && run.fingerprint == codec.run(run.evaluation.fingerprint, run.terminals, run.trace)
  }

  function ViolationCount(results: seq<OracleResult>): nat {
    if results == [] then 0
    else ViolationCount(results[..|results| - 1]) + |results[|results| - 1].violations|
  }

  predicate Violates(run: RunResult) {
    ViolationCount(run.evaluation.results) > 0
  }

  method EvaluationViolationCount(evaluation: Evaluation) returns (violations: nat)
    ensures violations == ViolationCount(evaluation.results)
  {
    violations := 0;
    for i := 0 to |evaluation.results|
      invariant violations == ViolationCount(evaluation.results[..i])
    {
      assert evaluation.results[..i + 1][..i] == evaluation.results[..i];
      violations := violations + |evaluation.results[i].violations|;
    }
    assert evaluation.results[..|evaluation.results|] == evaluation.results;
  }

  lemma {:induction false} SomeViolation(results: seq<OracleResult>)
    ensures ViolationCount(results) > 0 <==>
            exists i :: 0 <= i < |results| && |results[i].violations| > 0
  {
    if results != [] {
      var front := results[..|results| - 1];
      SomeViolation(front);
      if i :| 0 <= i < |results| && |results[i].violations| > 0 {
        assert i < |front| ==> front[i] == results[i];
      }
    }
  }

  lemma HashIdentifiesRun(codec: RunCodec, a: RunResult, b: RunResult)
    requires Hashes(codec)
    requires codec.run(a.evaluation.fingerprint, a.terminals, a.trace)
          == codec.run(b.evaluation.fingerprint, b.terminals, b.trace)
    ensures a.evaluation.fingerprint == b.evaluation.fingerprint
    ensures a.terminals == b.terminals && a.trace == b.trace
  {
  }

  /** Runs with equal fingerprints agree on whether an invariant was violated. */
  lemma EqualRunsViolateAlike(codec: RunCodec, a: RunResult, b: RunResult)
    requires Hashes(codec) && Sound(codec, a) && Sound(codec, b)
    requires a.fingerprint == b.fingerprint
    ensures Violates(a) <==> Violates(b)
    ensures SameEvidence(codec.evidence, a.evaluation.results, b.evaluation.results)
    ensures a.terminals == b.terminals && a.trace == b.trace
  {
    HashIdentifiesRun(codec, a, b);
    FingerprintsIdentifyEvidence(codec.evidence, a.evaluation.results, b.evaluation.results);
    if Violates(a) {
      EvidenceCarriesViolations(codec.evidence, a.evaluation.results, b.evaluation.results);
    }
    if Violates(b) {
      EvidenceCarriesViolations(codec.evidence, b.evaluation.results, a.evaluation.results);
    }
  }

  lemma EvidenceCarriesViolations(codec: Codec, a: seq<OracleResult>, b: seq<OracleResult>)
    requires SameEvidence(codec, a, b) && ViolationCount(a) > 0
    ensures ViolationCount(b) > 0
  {
    SomeViolation(a);
    SomeViolation(b);
    var i :| 0 <= i < |a| && |a[i].violations| > 0;
    var m := MeanResults(codec, a)[i];
    assert m in multiset(MeanResults(codec, b));
    var j :| 0 <= j < |b| && MeanResults(codec, b)[j] == m;
    assert |MeanViolations(codec, b[j].violations)| == |m.violations| == |MeanViolations(codec, a[i].violations)|;
  }

  // ----- Counting fingerprints -----

  function FingerprintsOf(runs: seq<RunResult>): (r: seq<string>)
    ensures |r| == |runs|
    ensures forall i :: 0 <= i < |r| ==> r[i] == runs[i].fingerprint
  {
    seq(|runs|, i requires 0 <= i < |runs| => runs[i].fingerprint)
  }

  /** counts says how often each fingerprint occurs. */
  ghost predicate Counts(counts: map<string, nat>, all: seq<string>) {
    && (forall f :: f in counts <==> f in all)
    && (forall f :: f in counts ==> counts[f] == multiset(all)[f])
  }

  ghost function Total(counts: map<string, nat>): nat {
    if counts == map[] then 0
    else var f :| f in counts; counts[f] + Total(counts - {f})
  }

  lemma {:induction false} TotalWithout(counts: map<string, nat>, f: string)
    requires f in counts
    ensures Total(counts) == counts[f] + Total(counts - {f})
    decreases |counts|
  {
    var g :| g in counts && Total(counts) == counts[g] + Total(counts - {g});
    if g != f {
      assert |counts - {g}| < |counts|;
      TotalWithout(counts - {g}, f);
      TotalWithout(counts - {f}, g);
      assert counts - {g} - {f} == counts - {f} - {g};
    }
  }

  lemma TotalAfterCounting(counts: map<string, nat>, f: string)
    ensures Total(Count(counts, f)) == Total(counts) + 1
  {
    var more := Count(counts, f);
    TotalWithout(more, f);
    if f in counts {
      TotalWithout(counts, f);
    } else {
      assert counts - {f} == counts;
    }
    assert more - {f} == counts - {f};
  }

  function Count(counts: map<string, nat>, f: string): map<string, nat> {
    counts[f := (if f in counts then counts[f] else 0) + 1]
  }

  /** The 1-based positions of runs that differ from the first. */
  function Mismatches(all: seq<string>): seq<nat> {
    if all == [] then []
    else Mismatches(all[..|all| - 1]) + if all[|all| - 1] != all[0] then [|all|] else []
  }

  lemma {:induction false} MismatchesFound(all: seq<string>, n: nat)
    ensures n in Mismatches(all) <==> 1 <= n <= |all| && all[n - 1] != all[0]
  {
    if all != [] {
      MismatchesFound(all[..|all| - 1], n);
    }
  }

  /** More than one fingerprint occurs exactly when some run differs from the first. */
  lemma ManyFingerprints(counts: map<string, nat>, all: seq<string>)
    requires Counts(counts, all) && all != []
    ensures |counts| > 1 <==> Mismatches(all) != []
    ensures |counts| == 1 <==> forall i :: 0 <= i < |all| ==> all[i] == all[0]
  {
    assert all[0] in counts;
    if Mismatches(all) != [] {
      var n := Mismatches(all)[0];
      MismatchesFound(all, n);
      TwoFingerprints(counts, all[0], all[n - 1]);
    } else {
      forall i | 0 <= i < |all| ensures all[i] == all[0] {
        MismatchesFound(all, i + 1);
      }
      assert counts.Keys == {all[0]};
    }
  }

  lemma TwoFingerprints(counts: map<string, nat>, a: string, b: string)
    requires a in counts && b in counts && a != b
    ensures |counts| > 1
  {
    C.SubsetSize({a, b}, counts.Keys);
  }

  lemma CountRun(counts: map<string, nat>, runs: seq<RunResult>, run: RunResult)
    requires Counts(counts, FingerprintsOf(runs))
    ensures Counts(Count(counts, run.fingerprint), FingerprintsOf(runs + [run]))
    ensures Total(Count(counts, run.fingerprint)) == Total(counts) + 1
    ensures Mismatches(FingerprintsOf(runs + [run])) == Mismatches(FingerprintsOf(runs))
         + if run.fingerprint != (runs + [run])[0].fingerprint then [|runs| + 1] else []
  {
    var all, more := FingerprintsOf(runs), FingerprintsOf(runs + [run]);
    TotalAfterCounting(counts, run.fingerprint);
    assert more == all + [run.fingerprint];
    assert more[..|more| - 1] == all;
    forall f | f in Count(counts, run.fingerprint)
      ensures Count(counts, run.fingerprint)[f] == multiset(more)[f]
    {
      assert f !in counts ==> multiset(all)[f] == 0;
    }
  }

  // ----- Running and replaying -----

  datatype ReplayFault =
    | NoFault
    | BadRepeat
    | RunFailed(at: nat, fault: RunFault)
    | BadEvaluation
    | EmptyFingerprint
    | StaleFingerprint

  datatype ReplayResult = ReplayResult(
    scheduleId: string, repeat: int, fingerprints: map<string, nat>,
    mismatchRuns: seq<nat>, flaky: bool, runs: seq<RunResult>)

  method NormalizedFingerprint(codec: RunCodec, run: RunResult) returns (r: Option<string>)
    ensures r.Some? <==> run.evaluation.fingerprint != "" && ValidEvaluation(codec.evidence, run.evaluation)
    ensures r.Some? ==> r.value == codec.run(run.evaluation.fingerprint, run.terminals, run.trace)
  {
    var evaluation := ValidateEvaluation(codec.evidence, run.evaluation);
    match evaluation
    case Err(_) => r := None;
    case Ok(valid) => r := Some(codec.run(valid.fingerprint, run.terminals, run.trace));
  }

  ghost predicate AllSound(codec: RunCodec, runs: seq<RunResult>) {
    forall i :: 0 <= i < |runs| ==> Sound(codec, runs[i])
  }

  /** Completed runs of one schedule. */
  function Ran(schedule: Schedule, runs: seq<RunResult>): (r: seq<Attempt>)
    ensures |r| == |runs|
    ensures forall i :: 0 <= i < |r| ==> r[i] == Attempt(schedule, Completed(runs[i]))
  {
    seq(|runs|, i requires 0 <= i < |runs| => Attempt(schedule, Completed(runs[i])))
  }

  /** One run counted. */
  function Recorded(result: ReplayResult, run: RunResult): ReplayResult {
    var runs := result.runs + [run];
    result.(runs := runs, fingerprints := Count(result.fingerprints, run.fingerprint),
            mismatchRuns := if run.fingerprint == runs[0].fingerprint then result.mismatchRuns
                            else result.mismatchRuns + [|runs|])
  }

  /** All runs counted, one after the other. */
  function Tallied(id: string, repeat: int, runs: seq<RunResult>): (r: ReplayResult)
    ensures r.runs == runs && !r.flaky
  {
    if runs == [] then ReplayResult(id, repeat, map[], [], false, [])
    else Recorded(Tallied(id, repeat, runs[..|runs| - 1]), runs[|runs| - 1])
  }

  lemma Associate<T>(a: seq<T>, b: seq<T>, c: seq<T>)
    ensures a + b + c == a + (b + c)
  {
  }

  lemma SplitLast<T>(s: seq<T>)
    requires s != []
    ensures s[..|s| - 1] + [s[|s| - 1]] == s
  {
  }

  /** result counts these runs. */
  ghost predicate Counted(result: ReplayResult, runs: seq<RunResult>) {
    && Counts(result.fingerprints, FingerprintsOf(runs))
    && Total(result.fingerprints) == |runs|
    && result.mismatchRuns == Mismatches(FingerprintsOf(runs))
  }

  lemma CountOneMore(result: ReplayResult, run: RunResult)
    requires Counted(result, result.runs)
    ensures Counted(Recorded(result, run), result.runs + [run])
  {
    CountRun(result.fingerprints, result.runs, run);
  }

  /** A tally counts its runs. */
  lemma {:induction false} TallyCounts(id: string, repeat: int, runs: seq<RunResult>)
    ensures Counted(Tallied(id, repeat, runs), runs)
  {
    if runs != [] {
      var n := |runs| - 1;
      TallyCounts(id, repeat, runs[..n]);
      CountOneMore(Tallied(id, repeat, runs[..n]), runs[n]);
      SplitLast(runs);
    }
  }

  lemma SnocRun(codec: RunCodec, schedule: Schedule, runs: seq<RunResult>, run: RunResult)
    requires AllSound(codec, runs) && Sound(codec, run)
    ensures AllSound(codec, runs + [run])
    ensures Ran(schedule, runs + [run]) == Ran(schedule, runs) + [Attempt(schedule, Completed(run))]
  {
  }

  lemma SnocTally(id: string, repeat: int, runs: seq<RunResult>, run: RunResult)
    ensures Tallied(id, repeat, runs + [run]) == Recorded(Tallied(id, repeat, runs), run)
  {
    assert (runs + [run])[..|runs|] == runs;
  }

  /** What a replay reports, given the attempts it made. */
  ghost predicate ReplayReport(codec: RunCodec, schedule: Schedule, repeat: int, ran: seq<Attempt>,
                               result: ReplayResult, fault: ReplayFault) {
    && AllSound(codec, result.runs)
    && match fault
       case NoFault =>
         && |result.runs| == repeat >= 1
         && ran == Ran(schedule, result.runs)
         && Counted(result, result.runs)
         && (result.flaky <==> result.mismatchRuns != [])
       case BadRepeat => repeat < 1 && ran == [] && !result.flaky
       case RunFailed(at, failure) =>
         && 1 <= at <= repeat && |result.runs| == at - 1 && !result.flaky
         && ran == Ran(schedule, result.runs) + [Attempt(schedule, Failed(failure))]
       case _ =>
         && !Hashes(codec) && !result.flaky
         && |ran| == |result.runs| + 1 <= repeat && ran[..|result.runs|] == Ran(schedule, result.runs)
         && ran[|result.runs|].schedule == schedule && ran[|result.runs|].outcome.Completed?
  }

  /** Why run number at stopped a replay. */
  ghost predicate FaultOf(codec: RunCodec, schedule: Schedule, at: nat, attempt: Attempt, fault: ReplayFault) {
    match fault
    case NoFault => false
    case BadRepeat => false
    case RunFailed(n, failure) => n == at && attempt == Attempt(schedule, Failed(failure))
    case _ => !Hashes(codec) && attempt.schedule == schedule && attempt.outcome.Completed?
  }

  lemma ReportFault(codec: RunCodec, schedule: Schedule, repeat: int, result: ReplayResult,
                    last: seq<Attempt>, fault: ReplayFault)
    requires AllSound(codec, result.runs) && |result.runs| < repeat && !result.flaky
    requires |last| == 1 && FaultOf(codec, schedule, |result.runs| + 1, last[0], fault)
    ensures ReplayReport(codec, schedule, repeat, Ran(schedule, result.runs) + last, result, fault)
  {
    assert last == [last[0]];
  }

  lemma ReportSuccess(codec: RunCodec, schedule: Schedule, repeat: int, result: ReplayResult, last: seq<Attempt>)
    requires AllSound(codec, result.runs) && |result.runs| == repeat >= 1 && last == []
    requires Counted(result, result.runs) && (result.flaky <==> |result.fingerprints| > 1)
    ensures ReplayReport(codec, schedule, repeat, Ran(schedule, result.runs) + last, result, NoFault)
  {
    assert Ran(schedule, result.runs) + last == Ran(schedule, result.runs);
    ManyFingerprints(result.fingerprints, FingerprintsOf(result.runs));
  }

  // ----- What the coordinator guarantees of a run -----

  /** The terminals name the workers in scenario order, each failed as its trace says. */
  ghost predicate Reports(sc: Scenario, trace: Traces.Trace, terminals: Terminals) {
    && |terminals| == |sc.workers|
    && forall w :: 0 <= w < |terminals| ==>
         && terminals[w].worker == sc.workers[w].id
         && (terminals[w].failed <==> sc.workers[w].id in Traces.Tally(trace).failed)
  }

  /** A completed run followed an accepted schedule, and its trace is safe and complete. */
  ghost predicate Controlled(sc: Scenario, digest: Digest, a: Attempt) {
    a.outcome.Completed? ==>
      && Accepted(sc, a.schedule, digest)
      && Traces.Safe(a.schedule.steps, a.outcome.run.trace)
      && Traces.Complete(sc, a.schedule.steps, a.outcome.run.trace)
      && Reports(sc, a.outcome.run.trace, a.outcome.run.terminals)
  }

  ghost predicate AllControlled(sc: Scenario, digest: Digest, attempts: seq<Attempt>) {
    forall i :: 0 <= i < |attempts| ==> Controlled(sc, digest, attempts[i])
  }

  /** after is before and some controlled attempts more. */
  ghost predicate Grows(sc: Scenario, digest: Digest, before: seq<Attempt>, after: seq<Attempt>) {
    before <= after && AllControlled(sc, digest, after[|before|..])
  }

  lemma GrowsOn(sc: Scenario, digest: Digest, a: seq<Attempt>, b: seq<Attempt>, c: seq<Attempt>)
    requires Grows(sc, digest, a, b) && Grows(sc, digest, b, c)
    ensures Grows(sc, digest, a, c)
  {
    forall i | 0 <= i < |c| - |a| ensures Controlled(sc, digest, c[|a|..][i]) {
      assert c[|a|..][i] == if i < |b| - |a| then b[|a|..][i] else c[|b|..][i - (|b| - |a|)];
    }
  }

  lemma GrownBy(sc: Scenario, digest: Digest, before: seq<Attempt>, ran: seq<Attempt>)
    ensures Grows(sc, digest, before, before + ran) <==> AllControlled(sc, digest, ran)
  {
    assert (before + ran)[|before|..] == ran;
  }

  /** Exactly one event of the trace settles the saved step. */
  ghost predicate SettledOnce(trace: Traces.Trace, at: nat) {
    exists k :: 0 <= k < |trace| && Traces.Settles(trace[k]) == Some(at)
                && forall m :: 0 <= m < |trace| && Traces.Settles(trace[m]) == Some(at) ==> m == k
  }

  /** Exactly one event of the trace ends the worker. */
  ghost predicate EndedOnce(trace: Traces.Trace, id: string) {
    exists k :: 0 <= k < |trace| && Traces.Ends(trace[k]) == Some(id)
                && forall m :: 0 <= m < |trace| && Traces.Ends(trace[m]) == Some(id) ==> m == k
  }

  /** In a controlled run every saved step was released or skipped exactly once, every worker
      ended exactly once, and each worker was released along a prefix of the scenario's points. */
  lemma ControlledRunsAreOrderly(sc: Scenario, digest: Digest, a: Attempt, at: nat, w: nat)
    requires Controlled(sc, digest, a) && a.outcome.Completed?
    requires at < |a.schedule.steps| && w < |sc.workers|
    ensures SettledOnce(a.outcome.run.trace, at) && EndedOnce(a.outcome.run.trace, sc.workers[w].id)
    ensures Traces.ReleasedPoints(a.schedule.steps, a.outcome.run.trace, sc.workers[w].id) <= sc.points
  {
    Traces.EveryStepSettledExactlyOnce(sc, a.schedule.steps, a.outcome.run.trace, at);
    Traces.EveryWorkerEndsExactlyOnce(sc, a.schedule.steps, a.outcome.run.trace, w);
    assert Known(sc, sc.workers[w].id) by { assert WorkerIds(sc.workers)[w] == sc.workers[w].id; }
    Traces.ReleasesFollowTheScenario(sc, a.schedule.steps, a.outcome.run.trace, sc.workers[w].id);
  }

  /** The coordinator's terminals, with the failure classes that workers gave. */
  function Named(terminals: seq<Coordinator.Terminal>, classes: map<string, string>): (r: Terminals)
    ensures |r| == |terminals|
    ensures forall w :: 0 <= w < |r| ==> r[w].worker == terminals[w].worker && r[w].failed == terminals[w].failed
    ensures forall w :: 0 <= w < |r| ==> r[w].failureClass == ClassOf(classes, r[w].worker)
  {
    seq(|terminals|, w requires 0 <= w < |terminals| =>
      WorkerTerminal(terminals[w].worker, terminals[w].failed, ClassOf(classes, terminals[w].worker)))
  }

  /** What a run comes to: it fails for the first reason there is, and otherwise carries what
      the oracles found and the failure classes of the workers. */
  ghost predicate Plays(codec: RunCodec, digest: Digest, sc: Scenario, schedule: Schedule, w: World,
                        outcome: RunOutcome) {
    if !Accepted(sc, schedule, digest) then outcome == Failed(OtherFault)
    else if w.before.Some? then outcome == Failed(w.before.value)
    else if outcome.Failed? && outcome.fault.ControlFault? then true
    else if w.after || w.found.fingerprint == "" || !ValidEvaluation(codec.evidence, w.found) then
      outcome == Failed(OtherFault)
    else
      && outcome.Completed? && outcome.run.evaluation == w.found
      && forall k :: 0 <= k < |outcome.run.terminals| ==>
           outcome.run.terminals[k].failureClass == ClassOf(w.classes, outcome.run.terminals[k].worker)
  }

  function ClassOf(classes: map<string, string>, id: string): string {
    if id in classes then classes[id] else ""
  }

  class Orchestrator {
    const codec: RunCodec
    const digest: Digest
    const world: nat -> World
    var log: seq<Attempt>

    constructor (codec: RunCodec, digest: Digest, world: nat -> World)
      ensures this.codec == codec && this.digest == digest && this.world == world && log == []
    {
      this.codec, this.digest, this.world, log := codec, digest, world, [];
    }

    /** One run.  The worker system, the database and the oracles may do anything; a run
        completes only after the coordinator has executed the schedule, with its trace and
        a valid evaluation, hashed together, and fails only for a reason. */
    method Run(sc: Scenario, schedule: Schedule) returns (outcome: RunOutcome)
      modifies this`log
      ensures log == old(log) + [Attempt(schedule, outcome)]
      ensures outcome.Completed? ==> Sound(codec, outcome.run) && Accepted(sc, schedule, digest)
      ensures Controlled(sc, digest, Attempt(schedule, outcome)) && Grows(sc, digest, old(log), log)
      ensures Plays(codec, digest, sc, schedule, world(|old(log)|), outcome)
    {
      outcome := Failed(OtherFault);
      var invalid := Validate(sc, schedule, digest);
      if invalid == None {
        outcome := Execute(sc, schedule, world(|log|));
      }
      GrownBy(sc, digest, log, [Attempt(schedule, outcome)]);
      log := log + [Attempt(schedule, outcome)];
    }

    /** Executes a valid schedule over a new runtime, and judges what it left. */
    method Execute(sc: Scenario, schedule: Schedule, w: World) returns (outcome: RunOutcome)
      requires Accepted(sc, schedule, digest)
      ensures outcome.Completed? ==> Sound(codec, outcome.run)
      ensures Controlled(sc, digest, Attempt(schedule, outcome))
      ensures Plays(codec, digest, sc, schedule, w, outcome)
    {
      if w.before.Some? {
        return Failed(w.before.value);
      }
      var failure, trace, terminals := Control(sc, schedule);
      if failure.Some? {
        return Failed(ControlFault(failure.value));
      }
      if w.after {
        return Failed(OtherFault);
      }
      outcome := Evaluate(w.found, trace, Named(terminals, w.classes));
    }

    /** Has a coordinator execute the schedule over a new runtime. */
    method Control(sc: Scenario, schedule: Schedule)
      returns (failure: Option<Coordinator.Failure>, trace: Traces.Trace, terminals: seq<Coordinator.Terminal>)
      requires Accepted(sc, schedule, digest)
      ensures failure == None ==>
        && Traces.Safe(schedule.steps, trace) && Traces.Complete(sc, schedule.steps, trace)
        && |terminals| == |sc.workers|
        && forall w :: 0 <= w < |terminals| ==>
             terminals[w] == Coordinator.Terminal(sc.workers[w].id, sc.workers[w].id in Traces.Tally(trace).failed)
    {
      var runtime := new Runtimes.Runtime();
      var blockTimeout, stepTimeout: int := *, *;
      var coordinator := new Coordinator.RunCoordinator(sc, schedule.steps, runtime, blockTimeout, stepTimeout);
      failure := coordinator.Execute();
      trace, terminals := coordinator.trace, coordinator.terminals;
    }

    /** Checks what the oracles found, and hashes the run if it is valid. */
    method Evaluate(found: Evaluation, trace: Traces.Trace, terminals: Terminals) returns (outcome: RunOutcome)
      ensures outcome.Completed? ==>
        && Sound(codec, outcome.run) && outcome.run.evaluation == found
        && outcome.run.trace == trace && outcome.run.terminals == terminals
      ensures outcome.Completed? <==> found.fingerprint != "" && ValidEvaluation(codec.evidence, found)
      ensures outcome.Failed? ==> outcome.fault == OtherFault
    {
      var validated := ValidateEvaluation(codec.evidence, found);
      if validated.Err? {
        return Failed(OtherFault);
      }
      var run := RunResult(validated.value, terminals, trace, "");
      var fingerprint := NormalizedFingerprint(codec, run);
      match fingerprint
      case None => outcome := Failed(OtherFault);
      case Some(text) => outcome := Completed(run.(fingerprint := text));
    }

    /** Recomputes a run's fingerprint. */
    method Recheck(run: RunResult) returns (fault: ReplayFault)
      ensures fault == NoFault <==> Sound(codec, run) && run.fingerprint != ""
      ensures fault == BadEvaluation || fault == EmptyFingerprint || fault == StaleFingerprint || fault == NoFault
    {
      var fingerprint := NormalizedFingerprint(codec, run);
      if fingerprint == None {
        return BadEvaluation;
      }
      if run.fingerprint == "" {
        return EmptyFingerprint;
      }
      if run.fingerprint != fingerprint.value {
        return StaleFingerprint;
      }
      fault := NoFault;
    }

    method Record(was: ReplayResult, index: nat, baseline: string, run: RunResult) returns (result: ReplayResult)
      requires |was.runs| == index
      requires index > 0 ==> baseline == was.runs[0].fingerprint
      ensures result == Recorded(was, run)
    {
      assert (was.runs + [run])[0] == if index == 0 then run else was.runs[0];
      result := was.(runs := was.runs + [run], fingerprints := Count(was.fingerprints, run.fingerprint));
      if index > 0 && run.fingerprint != baseline {
        result := result.(mismatchRuns := result.mismatchRuns + [index + 1]);
      }
    }

    /** One run of the schedule, with its fingerprint recomputed. */
    method RunOnce(sc: Scenario, schedule: Schedule, at: nat)
      returns (outcome: RunOutcome, fault: ReplayFault)
      requires at >= 1
      modifies this`log
      ensures log == old(log) + [Attempt(schedule, outcome)] && Grows(sc, digest, old(log), log)
      ensures fault == NoFault ==> outcome.Completed? && Sound(codec, outcome.run) && Accepted(sc, schedule, digest)
      ensures fault != NoFault ==> FaultOf(codec, schedule, at, Attempt(schedule, outcome), fault)
    {
      outcome := Run(sc, schedule);
      if outcome.Failed? {
        fault := RunFailed(at, outcome.fault);
      } else {
        fault := Recheck(outcome.run);
      }
    }

    /** The tally so far, and the fingerprint that the next run is compared with. */
    ghost predicate Tallying(schedule: Schedule, repeat: int, result: ReplayResult, baseline: string) {
      && result == Tallied(schedule.id, repeat, result.runs) && AllSound(codec, result.runs)
      && (result.runs != [] ==> baseline == result.runs[0].fingerprint)
    }

    /** Runs the schedule once more and counts the run. */
    method ReplayNext(sc: Scenario, schedule: Schedule, repeat: int, was: ReplayResult, index: nat, baseline: string)
      returns (result: ReplayResult, fault: ReplayFault, baseline': string, ghost attempt: Attempt)
      requires Tallying(schedule, repeat, was, baseline) && |was.runs| == index
      modifies this`log
      ensures log == old(log) + [attempt] && Grows(sc, digest, old(log), log)
      ensures fault == NoFault ==>
        && Tallying(schedule, repeat, result, baseline') && |result.runs| == index + 1
        && Ran(schedule, result.runs) == Ran(schedule, was.runs) + [attempt] && Accepted(sc, schedule, digest)
      ensures fault != NoFault ==> result == was && FaultOf(codec, schedule, index + 1, attempt, fault)
    {
      var outcome;
      outcome, fault := RunOnce(sc, schedule, index + 1);
      attempt := Attempt(schedule, outcome);
      result, baseline' := was, baseline;
      if fault == NoFault {
        SnocRun(codec, schedule, was.runs, outcome.run);
        SnocTally(schedule.id, repeat, was.runs, outcome.run);
        result := Record(was, index, baseline, outcome.run);
        if index == 0 {
          baseline' := outcome.run.fingerprint;
        }
      }
    }

    /** Runs the schedule until a run fails or enough are counted. */
    method ReplayAll(sc: Scenario, schedule: Schedule, repeat: nat)
      returns (result: ReplayResult, fault: ReplayFault, ghost last: seq<Attempt>)
      modifies this`log
      ensures log == old(log) + (Ran(schedule, result.runs) + last) && Grows(sc, digest, old(log), log)
      ensures result == Tallied(schedule.id, repeat, result.runs) && AllSound(codec, result.runs)
      ensures fault == NoFault ==> |result.runs| == repeat && last == []
      ensures fault == NoFault && repeat > 0 ==> Accepted(sc, schedule, digest)
      ensures fault != NoFault ==>
        |result.runs| < repeat && |last| == 1 && FaultOf(codec, schedule, |result.runs| + 1, last[0], fault)
    {
      result := ReplayResult(schedule.id, repeat, map[], [], false, []);
      last := [];
      fault := NoFault;
      var baseline := "";
      for index := 0 to repeat
        invariant Tallying(schedule, repeat, result, baseline) && |result.runs| == index
        invariant fault == NoFault && last == []
        invariant log == old(log) + Ran(schedule, result.runs) && Grows(sc, digest, old(log), log)
        invariant index > 0 ==> Accepted(sc, schedule, digest)
      {
        ghost var before, attempt, done := log, *, Ran(schedule, result.runs);
        result, fault, baseline, attempt := ReplayNext(sc, schedule, repeat, result, index, baseline);
        GrowsOn(sc, digest, old(log), before, log);
        Associate(old(log), done, [attempt]);
        if fault != NoFault {
          last := [attempt];
          return;
        }
      }
      assert Ran(schedule, result.runs) + last == Ran(schedule, result.runs);
    }

    /** Replays count every fingerprint; a replay that ends without a fault ran the
        schedule exactly repeat times, and is flaky exactly when some run differs from
        the first. */
    method Replay(sc: Scenario, schedule: Schedule, repeat: int)
      returns (result: ReplayResult, fault: ReplayFault, ghost ran: seq<Attempt>)
      modifies this`log
      ensures log == old(log) + ran && Grows(sc, digest, old(log), log)
      ensures fault == NoFault ==> Accepted(sc, schedule, digest)
      ensures ReplayReport(codec, schedule, repeat, ran, result, fault)
    {
      if repeat < 1 {
        result := ReplayResult(schedule.id, repeat, map[], [], false, []);
        return result, BadRepeat, [];
      }
      ghost var last;
      result, fault, last := ReplayAll(sc, schedule, repeat);
      ran := Ran(schedule, result.runs) + last;
      if fault == NoFault {
        TallyCounts(schedule.id, repeat, result.runs);
        result := result.(flaky := |result.fingerprints| > 1);
        ReportSuccess(codec, schedule, repeat, result, last);
      } else {
        ReportFault(codec, schedule, repeat, result, last, fault);
      }
    }
  }
}
