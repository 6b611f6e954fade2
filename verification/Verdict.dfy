/** From runs to a process exit code (cmd/weavegate/execute.go, cmd/weavegate/verdict.go,
    cmd/weavegate/run.go, internal/ci/exitcode.go). */
module Verdicts {
  import opened Options
  import opened Scenarios
  import opened Replays
  import opened Exploration
  import opened Strategy
  import Enumerators

  datatype Mode = ExploreMode | ReplayMode

  datatype VerdictInput =
    VerdictInput(mode: Mode, exhausted: bool, discovery: string, replay: Option<ReplayResult>)

  datatype Verdict = Verdict(flaky: bool, violationRuns: nat)

  /** The only fingerprint, or "" when there is none or more than one. */
  function UniqueFingerprint(counts: map<string, nat>): (f: string)
    ensures |counts| == 1 ==> counts.Keys == {f}
    ensures |counts| != 1 ==> f == ""
  {
    if |counts| != 1 then ""
    else
      SomeKey(counts);
      var g :| g in counts && counts.Keys == {g}; g
  }

  lemma SomeKey(counts: map<string, nat>)
    requires |counts| == 1
    ensures exists g :: g in counts && counts.Keys == {g}
  {
    assert counts.Keys != {};
    var g :| g in counts.Keys;
    assert |counts.Keys - {g}| == 0;
    assert counts.Keys == counts.Keys - {g} + {g};
  }

  function ViolationRuns(runs: seq<RunResult>): nat {
    if runs == [] then 0
    else ViolationRuns(runs[..|runs| - 1]) + if Violates(runs[|runs| - 1]) then 1 else 0
  }

  lemma {:induction false} ViolationRunsBounds(runs: seq<RunResult>)
    ensures ViolationRuns(runs) <= |runs|
    ensures ViolationRuns(runs) == 0 <==> forall i :: 0 <= i < |runs| ==> !Violates(runs[i])
    ensures ViolationRuns(runs) == |runs| <==> forall i :: 0 <= i < |runs| ==> Violates(runs[i])
  {
    if runs != [] {
      var n := |runs| - 1;
      ViolationRunsBounds(runs[..n]);
      assert forall i :: 0 <= i < n ==> runs[..n][i] == runs[i];
    }
  }

  ghost predicate Decides(input: VerdictInput, v: Verdict) {
    if input.mode == ExploreMode && input.exhausted then v == Verdict(false, 0)
    else
      && input.replay.Some?
      && v.violationRuns == ViolationRuns(input.replay.value.runs)
      && (v.flaky <==>
            || input.replay.value.flaky
            || (input.mode == ExploreMode
                && UniqueFingerprint(input.replay.value.fingerprints) != input.discovery))
  }

  method ComputeVerdict(input: VerdictInput) returns (v: Verdict)
    requires input.replay == None ==> input.mode == ExploreMode && input.exhausted
    ensures Decides(input, v)
  {
    if input.mode == ExploreMode && input.exhausted {
      return Verdict(false, 0);
    }
    var replay := input.replay.value;
    var flaky := replay.flaky;
    if input.mode == ExploreMode {
      if UniqueFingerprint(replay.fingerprints) != input.discovery {
        flaky := true;
      }
    }
    var violationRuns := 0;
    for i := 0 to |replay.runs|
      invariant violationRuns == ViolationRuns(replay.runs[..i])
    {
      assert replay.runs[..i + 1][..i] == replay.runs[..i];
      var violations := EvaluationViolationCount(replay.runs[i].evaluation);
      if violations > 0 {
        violationRuns := violationRuns + 1;
      }
    }
    assert replay.runs[..|replay.runs|] == replay.runs;
    v := Verdict(flaky, violationRuns);
  }

  // ----- What a verdict means -----

  /** In a replay that is not flaky all runs have the fingerprint of the first. */
  lemma SteadyReplay(codec: RunCodec, schedule: Schedule, repeat: int, ran: seq<Attempt>, replay: ReplayResult)
    requires ReplayReport(codec, schedule, repeat, ran, replay, NoFault) && !replay.flaky
    ensures |replay.fingerprints| == 1
    ensures forall i :: 0 <= i < repeat ==> replay.runs[i].fingerprint == replay.runs[0].fingerprint
    ensures UniqueFingerprint(replay.fingerprints) == replay.runs[0].fingerprint
  {
    var all := FingerprintsOf(replay.runs);
    ManyFingerprints(replay.fingerprints, all);
    assert all[0] in replay.fingerprints;
    assert |replay.fingerprints| >= 1;
    forall i | 0 <= i < repeat ensures replay.runs[i].fingerprint == replay.runs[0].fingerprint {
      assert all[i] == all[0];
    }
  }

  /** A replay that is not flaky violates always or never. */
  lemma SteadyReplayIsUnanimous(codec: RunCodec, schedule: Schedule, repeat: int, ran: seq<Attempt>,
                                replay: ReplayResult, run: RunResult)
    requires Hashes(codec) && ReplayReport(codec, schedule, repeat, ran, replay, NoFault) && !replay.flaky
    requires Sound(codec, run) && run.fingerprint == replay.runs[0].fingerprint
    ensures ViolationRuns(replay.runs) == if Violates(run) then repeat else 0
  {
    SteadyReplay(codec, schedule, repeat, ran, replay);
    forall i | 0 <= i < repeat ensures Violates(replay.runs[i]) <==> Violates(run) {
      assert ran[i] == Attempt(schedule, Completed(replay.runs[i])) && Sound(codec, replay.runs[i]);
      EqualRunsViolateAlike(codec, replay.runs[i], run);
    }
    ViolationRunsBounds(replay.runs);
  }

  /** A discovered violation is reproduced by every replay, or the verdict is flaky. */
  lemma DiscoveryIsReproducedOrFlaky(codec: RunCodec, schedule: Schedule, repeat: int, ran: seq<Attempt>,
                                     replay: ReplayResult, discovery: RunResult, v: Verdict)
    requires Hashes(codec) && ReplayReport(codec, schedule, repeat, ran, replay, NoFault)
    requires Sound(codec, discovery) && Violates(discovery)
    requires Decides(VerdictInput(ExploreMode, false, discovery.fingerprint, Some(replay)), v)
    ensures v.flaky || v.violationRuns == repeat >= 1
  {
    if !v.flaky {
      SteadyReplay(codec, schedule, repeat, ran, replay);
      SteadyReplayIsUnanimous(codec, schedule, repeat, ran, replay, discovery);
    }
  }

  /** Without a discovery to confirm, a verdict that is not flaky is unanimous. */
  lemma ReplayVerdict(codec: RunCodec, schedule: Schedule, repeat: int, ran: seq<Attempt>,
                      replay: ReplayResult, v: Verdict)
    requires Hashes(codec) && ReplayReport(codec, schedule, repeat, ran, replay, NoFault)
    requires Decides(VerdictInput(ReplayMode, false, "", Some(replay)), v)
    ensures v.flaky || v.violationRuns == 0 || v.violationRuns == repeat
  {
    if !v.flaky {
      assert ran[0] == Attempt(schedule, Completed(replay.runs[0])) && Sound(codec, replay.runs[0]);
      SteadyReplayIsUnanimous(codec, schedule, repeat, ran, replay, replay.runs[0]);
    }
  }

  // ----- Executing a plan -----

  datatype ErrorClass = InterruptedError | FixtureError | InputError | OutputError

  datatype Outcome = Outcome(
    mode: Mode, exhausted: bool, schedulesExplored: nat, passesExecuted: int,
    violating: Option<Schedule>, discovery: Option<RunResult>, replay: Option<ReplayResult>, verdict: Verdict)

  datatype Execution = Done(outcome: Outcome) | Broken(error: ErrorClass)

  function Classify(fault: RunFault): ErrorClass {
    match fault
    case FixtureFault => FixtureError
    case ControlFault(_) => InputError
    case OtherFault => InputError
  }

  /** An execution breaks off for the fixture exactly if that is what failed its last run. */
  ghost predicate Blamed(ran: seq<Attempt>, error: ErrorClass) {
    error == if ran != [] && ran[|ran| - 1].outcome == Failed(FixtureFault) then FixtureError else InputError
  }

  lemma BlamedBehind(before: seq<Attempt>, ran: seq<Attempt>, error: ErrorClass)
    requires Blamed(ran, error) && (before != [] ==> before[|before| - 1].outcome.Completed?)
    ensures Blamed(before + ran, error)
  {
    if ran != [] {
      assert (before + ran)[|before + ran| - 1] == ran[|ran| - 1];
    } else {
      assert before + ran == before;
    }
  }

  function ClassifyReplay(fault: ReplayFault): ErrorClass {
    if fault.RunFailed? then Classify(fault.fault) else InputError
  }

  function ClassifyExplore(fault: ExploreFault): ErrorClass {
    if fault.CandidateFailed? then Classify(fault.fault) else InputError
  }

  /** ran is passes complete sweeps, one after the other. */
  ghost predicate SweptTimes(codec: RunCodec, schedules: seq<Schedule>, ran: seq<Attempt>, passes: nat)
    decreases passes
  {
    if passes == 0 then ran == []
    else
      && |ran| >= |schedules|
      && SweptTimes(codec, schedules, ran[..|ran| - |schedules|], passes - 1)
      && Swept(codec, schedules, ran[|ran| - |schedules|..])
  }

  ghost predicate AllClean(codec: RunCodec, ran: seq<Attempt>) {
    forall i :: 0 <= i < |ran| ==> Clean(codec, ran[i])
  }

  lemma SweepsSplit(codec: RunCodec, schedules: seq<Schedule>, ran: seq<Attempt>, passes: nat)
    requires passes > 0 && SweptTimes(codec, schedules, ran, passes)
    ensures |ran| >= |schedules|
    ensures SweptTimes(codec, schedules, ran[..|ran| - |schedules|], passes - 1)
    ensures Swept(codec, schedules, ran[|ran| - |schedules|..])
  {
  }

  lemma CleanTogether(codec: RunCodec, ran: seq<Attempt>, n: nat)
    requires n <= |ran| && AllClean(codec, ran[..n]) && AllClean(codec, ran[n..])
    ensures AllClean(codec, ran)
  {
    forall i | 0 <= i < |ran| ensures Clean(codec, ran[i]) {
      assert ran[i] == if i < n then ran[..n][i] else ran[n..][i - n];
    }
  }

  lemma {:induction false} SweepsAreClean(codec: RunCodec, schedules: seq<Schedule>, ran: seq<Attempt>, passes: nat)
    requires SweptTimes(codec, schedules, ran, passes)
    ensures AllClean(codec, ran)
    ensures |ran| == passes * |schedules|
    decreases passes
  {
    if passes > 0 {
      var n := |ran| - |schedules|;
      SweepsSplit(codec, schedules, ran, passes);
      SweepsAreClean(codec, schedules, ran[..n], passes - 1);
      CleanTogether(codec, ran, n);
    }
  }

  /** The runs of one pass, counted from zero. */
  function PassOf(ran: seq<Attempt>, size: nat, pass: nat): seq<Attempt>
    requires (pass + 1) * size <= |ran|
  {
    assert (pass + 1) * size == pass * size + size;
    ran[pass * size..(pass + 1) * size]
  }

  /** Every pass over a scenario's schedules has cleared all of them. */
  ghost predicate AllExonerated(sc: Scenario, digest: Digest, codec: RunCodec, size: nat, ran: seq<Attempt>,
                                passes: int) {
    forall pass: nat :: pass < passes ==> ExoneratedIn(sc, digest, codec, size, ran, pass)
  }

  ghost predicate ExoneratedIn(sc: Scenario, digest: Digest, codec: RunCodec, size: nat, ran: seq<Attempt>,
                               pass: nat) {
    (pass + 1) * size <= |ran| && Exonerated(sc, digest, codec, PassOf(ran, size, pass))
  }

  lemma {:induction false} SweepsExonerate(sc: Scenario, digest: Digest, codec: RunCodec, ran: seq<Attempt>,
                                           passes: nat)
    requires ValidScenario(sc) && SweptTimes(codec, AllSchedules(sc, digest), ran, passes)
    ensures AllExonerated(sc, digest, codec, |AllSchedules(sc, digest)|, ran, passes)
    decreases passes
  {
    if passes > 0 {
      var all := AllSchedules(sc, digest);
      SweepsAreClean(codec, all, ran, passes);
      SweepsSplit(codec, all, ran, passes);
      SweepsExonerate(sc, digest, codec, ran[..|ran| - |all|], passes - 1);
      SweepExonerates(sc, digest, codec, ran[|ran| - |all|..]);
      OneMorePass(sc, digest, codec, |all|, ran, passes);
    }
  }

  lemma OneMorePass(sc: Scenario, digest: Digest, codec: RunCodec, size: nat, ran: seq<Attempt>, passes: nat)
    requires passes > 0 && |ran| == passes * size && |ran| >= size
    requires AllExonerated(sc, digest, codec, size, ran[..|ran| - size], passes - 1)
    requires Exonerated(sc, digest, codec, ran[|ran| - size..])
    ensures AllExonerated(sc, digest, codec, size, ran, passes)
  {
    assert |ran| - size == (passes - 1) * size;
    forall pass: nat | pass < passes ensures ExoneratedIn(sc, digest, codec, size, ran, pass) {
      PassOfFront(ran, size, passes, pass);
      assert pass + 1 < passes ==> ExoneratedIn(sc, digest, codec, size, ran[..|ran| - size], pass);
    }
  }

  /** The last pass is what stands behind the others; the others are as before. */
  lemma PassOfFront(ran: seq<Attempt>, size: nat, passes: nat, pass: nat)
    requires pass < passes && |ran| >= size && |ran| - size == (passes - 1) * size
    ensures (pass + 1) * size <= |ran|
    ensures pass + 1 < passes ==>
              (pass + 1) * size <= |ran| - size && PassOf(ran, size, pass) == PassOf(ran[..|ran| - size], size, pass)
    ensures pass + 1 == passes ==> PassOf(ran, size, pass) == ran[|ran| - size..]
  {
    var rest := passes - 1 - pass;
    assert (passes - 1) * size == pass * size + rest * size;
    assert (pass + 1) * size == pass * size + size;
    if rest > 0 {
      assert rest * size == (rest - 1) * size + size;
    }
  }

  lemma SweepAgain(codec: RunCodec, schedules: seq<Schedule>, ran: seq<Attempt>, more: seq<Attempt>, passes: nat)
    requires SweptTimes(codec, schedules, ran, passes) && Swept(codec, schedules, more)
    ensures SweptTimes(codec, schedules, ran + more, passes + 1)
  {
    assert (ran + more)[..|ran|] == ran && (ran + more)[|ran|..] == more;
  }

  /** The attempts behind an outcome: clean sweeps, the pass that found something, and
      the replays. */
  datatype Trail = Trail(sweeps: nat, swept: seq<Attempt>, found: seq<Attempt>, replayed: seq<Attempt>) {
    function All(): seq<Attempt> { swept + found + replayed }
  }

  /** A discovery was replayed and judged. */
  ghost predicate Confirmed(codec: RunCodec, finding: Finding, pass: int, repeat: int,
                            replayed: seq<Attempt>, outcome: Outcome) {
    && outcome.mode == ExploreMode && !outcome.exhausted && outcome.passesExecuted == pass
    && outcome.discovery == Some(finding.run) && outcome.violating == Some(finding.schedule)
    && outcome.replay.Some?
    && ReplayReport(codec, finding.schedule, repeat, replayed, outcome.replay.value, NoFault)
    && Decides(VerdictInput(ExploreMode, false, finding.run.fingerprint, outcome.replay), outcome.verdict)
  }

  /** What an explore outcome stands on. */
  ghost predicate Explored(codec: RunCodec, schedules: seq<Schedule>, passes: int, repeat: int,
                           trail: Trail, outcome: Outcome) {
    && outcome.mode == ExploreMode
    && SweptTimes(codec, schedules, trail.swept, trail.sweeps)
    && if outcome.exhausted then
         && trail.sweeps == (if passes < 0 then 0 else passes)
         && trail.found == [] && trail.replayed == []
         && outcome.passesExecuted == passes && outcome.verdict == Verdict(false, 0)
         && outcome.violating == None && outcome.discovery == None && outcome.replay == None
       else
         && outcome.passesExecuted == trail.sweeps + 1 <= passes
         && Found(codec, schedules, outcome.passesExecuted, repeat, trail.found, trail.replayed, outcome)
  }

  /** One pass discovered a violation and replayed it. */
  ghost predicate Found(codec: RunCodec, schedules: seq<Schedule>, pass: int, repeat: int,
                        found: seq<Attempt>, replayed: seq<Attempt>, outcome: Outcome) {
    && outcome.discovery.Some? && outcome.violating.Some?
    && var finding := Finding(outcome.violating.value, outcome.discovery.value);
       && Discovered(codec, schedules, found, finding)
       && Confirmed(codec, finding, pass, repeat, replayed, outcome)
  }

  /** Replays a discovery and decides. */
  method Confirm(o: Orchestrator, sc: Scenario, finding: Finding, pass: int, repeat: int, explored: nat)
    returns (e: Execution, ghost replayed: seq<Attempt>)
    modifies o`log
    ensures o.log == old(o.log) + replayed && Grows(sc, o.digest, old(o.log), o.log)
    ensures e.Done? ==>
              Confirmed(o.codec, finding, pass, repeat, replayed, e.outcome) && e.outcome.schedulesExplored == explored
    ensures e.Broken? ==> Blamed(replayed, e.error)
  {
    var replay, fault;
    replay, fault, replayed := o.Replay(sc, finding.schedule, repeat);
    if fault != NoFault {
      return Broken(ClassifyReplay(fault)), replayed;
    }
    var verdict := ComputeVerdict(VerdictInput(ExploreMode, false, finding.run.fingerprint, Some(replay)));
    e := Done(Outcome(ExploreMode, false, explored, pass, Some(finding.schedule),
                      Some(finding.run), Some(replay), verdict));
  }

  /** One exploration pass, and the confirmation of what it finds. */
  method ExplorePass(o: Orchestrator, sc: Scenario, plan: SchedulePlan, pass: int, repeat: int, explored: nat)
    returns (r: Option<Execution>, evaluated: nat, ghost found: seq<Attempt>, ghost replayed: seq<Attempt>)
    modifies o`log
    ensures o.log == old(o.log) + (found + replayed) && Grows(sc, o.digest, old(o.log), o.log)
    ensures r == None ==> Swept(o.codec, plan.schedules, found) && replayed == [] && evaluated == |plan.schedules|
    ensures r.Some? && r.value.Done? ==>
              && Found(o.codec, plan.schedules, pass, repeat, found, replayed, r.value.outcome)
              && r.value.outcome.schedulesExplored == explored + |found|
    ensures r.Some? && r.value.Broken? ==> Blamed(found + replayed, r.value.error)
  {
    var result, fault;
    result, fault, found := ExplorePlan(o, false, sc, plan);
    evaluated := result.evaluated;
    replayed := [];
    assert found + replayed == found;
    if fault != Finished {
      return Some(Broken(ClassifyExplore(fault))), evaluated, found, [];
    }
    if result.exhausted {
      return None, evaluated, found, [];
    }
    var e;
    ghost var before := o.log;
    e, replayed := Confirm(o, sc, result.violating.value, pass, repeat, explored + evaluated);
    Associate(old(o.log), found, replayed);
    GrowsOn(sc, o.digest, old(o.log), before, o.log);
    if e.Broken? {
      BlamedBehind(found, replayed, e.error);
    }
    r := Some(e);
  }

  /** Explores pass by pass until one does not end in a clean sweep. */
  method ExplorePasses(o: Orchestrator, sc: Scenario, plan: SchedulePlan, passes: int, repeat: int)
    returns (r: Option<Execution>, schedulesExplored: nat, ghost trail: Trail)
    modifies o`log
    ensures o.log == old(o.log) + trail.All() && Grows(sc, o.digest, old(o.log), o.log)
    ensures SweptTimes(o.codec, plan.schedules, trail.swept, trail.sweeps)
    ensures r == None ==>
              && trail.sweeps == (if passes < 0 then 0 else passes) && schedulesExplored == |trail.swept|
              && trail.found == [] && trail.replayed == []
    ensures r.Some? && r.value.Done? ==>
              && trail.sweeps < passes
              && Found(o.codec, plan.schedules, trail.sweeps + 1, repeat, trail.found, trail.replayed, r.value.outcome)
              && r.value.outcome.schedulesExplored == |trail.swept| + |trail.found|
    ensures r.Some? && r.value.Broken? ==> Blamed(trail.All(), r.value.error)
  {
    schedulesExplored := 0;
    trail := Trail(0, [], [], []);
    var pass := 1;
    while pass <= passes
      invariant 1 <= pass && pass <= 1 + (if passes < 0 then 0 else passes) && trail.sweeps == pass - 1
      invariant o.log == old(o.log) + trail.swept && trail.found == [] && trail.replayed == []
      invariant Grows(sc, o.digest, old(o.log), o.log)
      invariant SweptTimes(o.codec, plan.schedules, trail.swept, trail.sweeps)
      invariant schedulesExplored == |trail.swept|
    {
      var evaluated;
      ghost var before, found, replayed := o.log, *, *;
      r, evaluated, found, replayed := ExplorePass(o, sc, plan, pass, repeat, schedulesExplored);
      GrowsOn(sc, o.digest, old(o.log), before, o.log);
      ghost var tried := Trail(trail.sweeps, trail.swept, found, replayed);
      TrailFollows(old(o.log), tried);
      if r.Some? {
        if r.value.Broken? {
          SweepsAreClean(o.codec, plan.schedules, trail.swept, trail.sweeps);
          BlamedBehind(trail.swept, found + replayed, r.value.error);
          Associate(trail.swept, found, replayed);
        }
        trail := tried;
        return;
      }
      SweepAgain(o.codec, plan.schedules, trail.swept, found, trail.sweeps);
      schedulesExplored := schedulesExplored + evaluated;
      trail := Trail(trail.sweeps + 1, trail.swept + found, [], []);
      pass := pass + 1;
    }
    r := None;
    assert trail.All() == trail.swept;
  }

  /** Sweeps until a pass finds a violation, and confirms it by replay. */
  method ExecuteExplore(o: Orchestrator, sc: Scenario, plan: SchedulePlan, passes: int, repeat: int)
    returns (e: Execution, ghost trail: Trail)
    modifies o`log
    ensures o.log == old(o.log) + trail.All() && Grows(sc, o.digest, old(o.log), o.log)
    ensures e.Done? ==> Explored(o.codec, plan.schedules, passes, repeat, trail, e.outcome)
    ensures e.Done? ==> e.outcome.schedulesExplored == |trail.swept| + |trail.found|
    ensures e.Broken? ==> Blamed(trail.All(), e.error)
  {
    var r, schedulesExplored;
    r, schedulesExplored, trail := ExplorePasses(o, sc, plan, passes, repeat);
    if r.Some? {
      e := r.value;
      if e.Done? {
        Conclude(o.codec, plan.schedules, passes, repeat, trail, e.outcome);
      }
    } else {
      var verdict := ComputeVerdict(VerdictInput(ExploreMode, true, "", None));
      e := Done(Outcome(ExploreMode, true, schedulesExplored, passes, None, None, None, verdict));
    }
  }

  lemma TrailFollows(before: seq<Attempt>, trail: Trail)
    ensures before + trail.swept + (trail.found + trail.replayed) == before + trail.All()
    ensures trail.replayed == [] ==> trail.All() == trail.swept + trail.found
  {
  }

  lemma Conclude(codec: RunCodec, schedules: seq<Schedule>, passes: int, repeat: int, trail: Trail, outcome: Outcome)
    requires trail.sweeps < passes && SweptTimes(codec, schedules, trail.swept, trail.sweeps)
    requires Found(codec, schedules, trail.sweeps + 1, repeat, trail.found, trail.replayed, outcome)
    ensures Explored(codec, schedules, passes, repeat, trail, outcome) && !outcome.exhausted
  {
  }

  ghost predicate ReplayedOutcome(codec: RunCodec, schedule: Schedule, repeat: int, ran: seq<Attempt>,
                                  outcome: Outcome) {
    && outcome.mode == ReplayMode && outcome.replay.Some?
    && outcome.violating == Some(schedule) && outcome.discovery == None
    && outcome.schedulesExplored == 0 && outcome.passesExecuted == 0
    && ReplayReport(codec, schedule, repeat, ran, outcome.replay.value, NoFault)
    && Decides(VerdictInput(ReplayMode, false, "", outcome.replay), outcome.verdict)
  }

  method ExecuteReplay(o: Orchestrator, sc: Scenario, schedule: Schedule, repeat: int)
    returns (e: Execution, ghost ran: seq<Attempt>)
    modifies o`log
    ensures o.log == old(o.log) + ran && Grows(sc, o.digest, old(o.log), o.log)
    ensures e.Done? ==> ReplayedOutcome(o.codec, schedule, repeat, ran, e.outcome)
    ensures e.Broken? ==> Blamed(ran, e.error)
  {
    var replay, fault;
    replay, fault, ran := o.Replay(sc, schedule, repeat);
    if fault != NoFault {
      return Broken(ClassifyReplay(fault)), ran;
    }
    var verdict := ComputeVerdict(VerdictInput(ReplayMode, false, "", Some(replay)));
    e := Done(Outcome(ReplayMode, false, 0, 0, Some(schedule), None, Some(replay), verdict));
  }

  // ----- Exit codes -----

  const EXIT_OK := 0
  const EXIT_VIOLATION := 2
  const EXIT_FLAKY := 3
  const EXIT_FIXTURE := 4
  const EXIT_INPUT := 5
  const EXIT_INTERRUPTED := 130

  /** Errors outrank flakiness, flakiness outranks violations, and a failed cleanup
      only spoils a pass. */
  function ExitCode(error: Option<ErrorClass>, verdict: Verdict, cleanupFailed: bool): (code: int)
    ensures code == 0 <==> error == None && !verdict.flaky && verdict.violationRuns == 0 && !cleanupFailed
    ensures code == 2 <==> error == None && !verdict.flaky && verdict.violationRuns > 0
    ensures code == 3 <==> error == None && verdict.flaky
    ensures code == 4 <==>
              error == Some(FixtureError) || (error == None && verdict == Verdict(false, 0) && cleanupFailed)
    ensures code == 5 <==> error == Some(InputError) || error == Some(OutputError)
    ensures code == 130 <==> error == Some(InterruptedError)
  {
    match error
    case Some(InterruptedError) => EXIT_INTERRUPTED
    case Some(FixtureError) => EXIT_FIXTURE
    case Some(_) => EXIT_INPUT
    case None =>
      if verdict.flaky then EXIT_FLAKY
      else if verdict.violationRuns > 0 then EXIT_VIOLATION
      else if cleanupFailed then EXIT_FIXTURE
      else EXIT_OK
  }

  datatype RunPlan =
    | PlanExplore(plan: SchedulePlan, passes: int, repeat: int)
    | PlanReplay(schedule: Schedule, repeat: int)

  /** What a passing exit code stands on: everything that was run was clean; the
      exploration was complete in every pass, or all replays agreed. */
  ghost predicate Passed(codec: RunCodec, plan: RunPlan, ran: seq<Attempt>) {
    && AllClean(codec, ran)
    && match plan
       case PlanExplore(candidates, passes, _) =>
         SweptTimes(codec, candidates.schedules, ran, if passes < 0 then 0 else passes)
       case PlanReplay(schedule, repeat) => |ran| == repeat >= 1 && AllAlike(schedule, ran)
  }

  ghost predicate AllAlike(schedule: Schedule, ran: seq<Attempt>) {
    forall i :: 0 <= i < |ran| ==>
      && ran[i].schedule == schedule && ran[i].outcome.Completed? && ran[0].outcome.Completed?
      && ran[i].outcome.run.fingerprint == ran[0].outcome.run.fingerprint
  }

  /** The runs that a verdict compares: all replays, and before them the discovery if there was one. */
  function Compared(plan: RunPlan): int {
    plan.repeat + if plan.PlanExplore? then 1 else 0
  }

  /** What a violation exit code stands on: the last runs all completed, with one fingerprint,
      and all violated. */
  ghost predicate Condemned(plan: RunPlan, ran: seq<Attempt>) {
    1 <= plan.repeat && Compared(plan) <= |ran| && Reproduced(ran[|ran| - Compared(plan)..])
  }

  /** What a flaky exit code stands on: the last runs all completed one schedule, with more than
      one fingerprint. */
  ghost predicate Wavered(plan: RunPlan, ran: seq<Attempt>) {
    1 <= plan.repeat && Compared(plan) <= |ran| && Diverging(ran[|ran| - Compared(plan)..])
  }

  ghost predicate Diverging(runs: seq<Attempt>) {
    && runs != []
    && (forall i :: 0 <= i < |runs| ==> runs[i].schedule == runs[0].schedule && runs[i].outcome.Completed?)
    && exists i :: 0 <= i < |runs| && runs[i].outcome.run.fingerprint != runs[0].outcome.run.fingerprint
  }

  /** All of these runs completed alike, and violated. */
  ghost predicate Reproduced(replayed: seq<Attempt>) {
    && replayed != [] && AllAlike(replayed[0].schedule, replayed)
    && forall i :: 0 <= i < |replayed| ==> Violates(replayed[i].outcome.run)
  }

  lemma SteadyReplayIsAlike(codec: RunCodec, schedule: Schedule, repeat: int, ran: seq<Attempt>, replay: ReplayResult)
    requires ReplayReport(codec, schedule, repeat, ran, replay, NoFault) && !replay.flaky
    ensures AllAlike(schedule, ran)
    ensures ViolationRuns(replay.runs) == 0 ==> AllClean(codec, ran)
    ensures ViolationRuns(replay.runs) == repeat ==> forall i :: 0 <= i < |ran| ==> Violates(ran[i].outcome.run)
  {
    SteadyReplay(codec, schedule, repeat, ran, replay);
    ViolationRunsBounds(replay.runs);
    forall i | 0 <= i < |ran|
      ensures ran[i] == Attempt(schedule, Completed(replay.runs[i])) && Sound(codec, replay.runs[i])
      ensures replay.runs[i].fingerprint == replay.runs[0].fingerprint
    {
    }
  }

  lemma ExploreExit(codec: RunCodec, plan: RunPlan, trail: Trail, outcome: Outcome)
    requires plan.PlanExplore? && Hashes(codec)
    requires Explored(codec, plan.plan.schedules, plan.passes, plan.repeat, trail, outcome)
    requires !outcome.verdict.flaky
    ensures outcome.verdict.violationRuns == 0 ==> Passed(codec, plan, trail.All())
    ensures outcome.verdict.violationRuns > 0 ==> Condemned(plan, trail.All())
  {
    if outcome.exhausted {
      assert trail.All() == trail.swept;
      SweepsAreClean(codec, plan.plan.schedules, trail.swept, trail.sweeps);
    } else {
      FoundReproduced(codec, plan, trail, outcome);
    }
  }

  /** The discovery and its replays are the last runs. */
  lemma TrailEnds(plan: RunPlan, trail: Trail, finding: Finding)
    requires plan.PlanExplore? && trail.found != [] && |trail.replayed| == plan.repeat >= 1
    requires trail.found[|trail.found| - 1] == Attempt(finding.schedule, Completed(finding.run))
    ensures Compared(plan) <= |trail.All()|
    ensures trail.All()[|trail.All()| - Compared(plan)..]
         == [Attempt(finding.schedule, Completed(finding.run))] + trail.replayed
  {
  }

  lemma FoundEnds(codec: RunCodec, plan: RunPlan, trail: Trail, outcome: Outcome) returns (finding: Finding)
    requires plan.PlanExplore?
    requires Found(codec, plan.plan.schedules, outcome.passesExecuted, plan.repeat,
                   trail.found, trail.replayed, outcome)
    ensures Sound(codec, finding.run) && Violates(finding.run)
    ensures ReplayReport(codec, finding.schedule, plan.repeat, trail.replayed, outcome.replay.value, NoFault)
    ensures Decides(VerdictInput(ExploreMode, false, finding.run.fingerprint, outcome.replay), outcome.verdict)
    ensures trail.found != [] && |trail.replayed| == plan.repeat >= 1
    ensures trail.found[|trail.found| - 1] == Attempt(finding.schedule, Completed(finding.run))
  {
    finding := Finding(outcome.violating.value, outcome.discovery.value);
    DiscoveryEnds(codec, plan.plan.schedules, trail.found, finding);
    ReplayLength(codec, finding.schedule, plan.repeat, trail.replayed, outcome.replay.value);
  }

  lemma DiscoveryEnds(codec: RunCodec, schedules: seq<Schedule>, found: seq<Attempt>, finding: Finding)
    requires Discovered(codec, schedules, found, finding)
    ensures found != [] && found[|found| - 1] == Attempt(finding.schedule, Completed(finding.run))
    ensures Sound(codec, finding.run) && Violates(finding.run)
  {
  }

  lemma ReplayLength(codec: RunCodec, schedule: Schedule, repeat: int, ran: seq<Attempt>, replay: ReplayResult)
    requires ReplayReport(codec, schedule, repeat, ran, replay, NoFault)
    ensures |ran| == repeat >= 1
  {
  }

  lemma FoundReproduced(codec: RunCodec, plan: RunPlan, trail: Trail, outcome: Outcome)
    requires plan.PlanExplore? && Hashes(codec) && !outcome.verdict.flaky
    requires Found(codec, plan.plan.schedules, outcome.passesExecuted, plan.repeat,
                   trail.found, trail.replayed, outcome)
    ensures outcome.verdict.violationRuns > 0 && Condemned(plan, trail.All())
  {
    var finding := FoundEnds(codec, plan, trail, outcome);
    TrailEnds(plan, trail, finding);
    SteadyRepeats(codec, plan.repeat, trail.replayed, outcome.replay.value, finding, outcome.verdict);
    FoundAlike(finding, trail.replayed);
  }

  lemma SteadyRepeats(codec: RunCodec, repeat: int, replayed: seq<Attempt>, replay: ReplayResult, finding: Finding,
                      v: Verdict)
    requires Hashes(codec) && Sound(codec, finding.run) && Violates(finding.run) && !v.flaky
    requires ReplayReport(codec, finding.schedule, repeat, replayed, replay, NoFault)
    requires Decides(VerdictInput(ExploreMode, false, finding.run.fingerprint, Some(replay)), v)
    ensures v.violationRuns > 0 && replayed != [] && AllAlike(finding.schedule, replayed)
    ensures replayed[0].outcome.run.fingerprint == finding.run.fingerprint
    ensures forall i :: 0 <= i < |replayed| ==> Violates(replayed[i].outcome.run)
  {
    DiscoveryIsReproducedOrFlaky(codec, finding.schedule, repeat, replayed, replay, finding.run, v);
    SteadyReplay(codec, finding.schedule, repeat, replayed, replay);
    SteadyReplayIsAlike(codec, finding.schedule, repeat, replayed, replay);
    assert replayed[0] == Attempt(finding.schedule, Completed(replay.runs[0]));
  }

  lemma FoundAlike(finding: Finding, replayed: seq<Attempt>)
    requires replayed != [] && AllAlike(finding.schedule, replayed) && Violates(finding.run)
    requires replayed[0].outcome.run.fingerprint == finding.run.fingerprint
    requires forall i :: 0 <= i < |replayed| ==> Violates(replayed[i].outcome.run)
    ensures Reproduced([Attempt(finding.schedule, Completed(finding.run))] + replayed)
  {
  }

  lemma ReplayDiverges(codec: RunCodec, schedule: Schedule, repeat: int, ran: seq<Attempt>, replay: ReplayResult)
    requires ReplayReport(codec, schedule, repeat, ran, replay, NoFault) && replay.flaky
    ensures Diverging(ran) && ran[0].schedule == schedule
  {
    var all := FingerprintsOf(replay.runs);
    ManyFingerprints(replay.fingerprints, all);
    var i :| 0 <= i < |all| && all[i] != all[0];
    RanDiverges(schedule, replay.runs, i);
  }

  lemma RanDiverges(schedule: Schedule, runs: seq<RunResult>, i: nat)
    requires i < |runs| && runs[i].fingerprint != runs[0].fingerprint
    ensures Diverging(Ran(schedule, runs))
  {
    var ran := Ran(schedule, runs);
    assert ran[i].outcome.run.fingerprint != ran[0].outcome.run.fingerprint;
  }

  /** A flaky verdict compared runs of one schedule that differ. */
  lemma FlakyExploration(codec: RunCodec, plan: RunPlan, trail: Trail, outcome: Outcome)
    requires plan.PlanExplore? && outcome.verdict.flaky
    requires Explored(codec, plan.plan.schedules, plan.passes, plan.repeat, trail, outcome)
    ensures Wavered(plan, trail.All())
  {
    var finding := FoundEnds(codec, plan, trail, outcome);
    TrailEnds(plan, trail, finding);
    var replay := outcome.replay.value;
    if replay.flaky {
      ReplayDiverges(codec, finding.schedule, plan.repeat, trail.replayed, replay);
      FoundDiverges([Attempt(finding.schedule, Completed(finding.run))] + trail.replayed, trail.replayed);
    } else {
      SteadyDiffers(codec, plan.repeat, trail.replayed, replay, finding);
    }
  }

  lemma SteadyDiffers(codec: RunCodec, repeat: int, replayed: seq<Attempt>, replay: ReplayResult, finding: Finding)
    requires ReplayReport(codec, finding.schedule, repeat, replayed, replay, NoFault) && !replay.flaky
    requires UniqueFingerprint(replay.fingerprints) != finding.run.fingerprint
    ensures Diverging([Attempt(finding.schedule, Completed(finding.run))] + replayed)
  {
    SteadyReplay(codec, finding.schedule, repeat, replayed, replay);
    FirstDiffers(finding, replay.runs);
  }

  lemma FirstDiffers(finding: Finding, runs: seq<RunResult>)
    requires runs != [] && runs[0].fingerprint != finding.run.fingerprint
    ensures Diverging([Attempt(finding.schedule, Completed(finding.run))] + Ran(finding.schedule, runs))
  {
    RanDiverges(finding.schedule, [finding.run] + runs, 1);
    assert Ran(finding.schedule, [finding.run] + runs)
        == [Attempt(finding.schedule, Completed(finding.run))] + Ran(finding.schedule, runs);
  }

  lemma FoundDiverges(runs: seq<Attempt>, replayed: seq<Attempt>)
    requires runs != [] && runs[1..] == replayed && Diverging(replayed)
    requires runs[0].schedule == replayed[0].schedule && runs[0].outcome.Completed?
    ensures Diverging(runs)
  {
    var i :| 0 <= i < |replayed| && replayed[i].outcome.run.fingerprint != replayed[0].outcome.run.fingerprint;
    assert runs[i + 1] == replayed[i] && runs[1] == replayed[0];
  }

  lemma ReplayExit(codec: RunCodec, plan: RunPlan, ran: seq<Attempt>, outcome: Outcome)
    requires plan.PlanReplay? && Hashes(codec)
    requires ReplayedOutcome(codec, plan.schedule, plan.repeat, ran, outcome)
    requires !outcome.verdict.flaky
    ensures outcome.verdict.violationRuns == 0 ==> Passed(codec, plan, ran)
    ensures outcome.verdict.violationRuns > 0 ==> Condemned(plan, ran)
  {
    ReplayVerdict(codec, plan.schedule, plan.repeat, ran, outcome.replay.value, outcome.verdict);
    SteadyReplayIsAlike(codec, plan.schedule, plan.repeat, ran, outcome.replay.value);
    if outcome.verdict.violationRuns > 0 {
      AlikeIsReproduced(plan, ran);
    }
  }

  lemma FlakyReplay(codec: RunCodec, plan: RunPlan, ran: seq<Attempt>, outcome: Outcome)
    requires plan.PlanReplay? && outcome.verdict.flaky
    requires ReplayedOutcome(codec, plan.schedule, plan.repeat, ran, outcome)
    ensures Wavered(plan, ran)
  {
    ReplayDiverges(codec, plan.schedule, plan.repeat, ran, outcome.replay.value);
    assert ran[|ran| - plan.repeat..] == ran;
  }

  lemma AlikeIsReproduced(plan: RunPlan, ran: seq<Attempt>)
    requires plan.PlanReplay? && |ran| == plan.repeat >= 1 && AllAlike(plan.schedule, ran)
    requires forall i :: 0 <= i < |ran| ==> Violates(ran[i].outcome.run)
    ensures Condemned(plan, ran)
  {
    assert ran[|ran| - plan.repeat..] == ran;
  }

  /** What a verdict stands on. */
  ghost predicate Judged(codec: RunCodec, plan: RunPlan, execution: Execution, ran: seq<Attempt>) {
    match execution
    case Broken(error) => Blamed(ran, error)
    case Done(outcome) =>
      if outcome.verdict.flaky then Wavered(plan, ran)
      else
        Hashes(codec) ==> if outcome.verdict.violationRuns == 0 then Passed(codec, plan, ran) else Condemned(plan, ran)
  }

  /** Explores or replays, as planned. */
  method ExecutePlan(o: Orchestrator, sc: Scenario, plan: RunPlan)
    returns (execution: Execution, ghost ran: seq<Attempt>)
    modifies o`log
    ensures o.log == old(o.log) + ran && Grows(sc, o.digest, old(o.log), o.log)
    ensures Judged(o.codec, plan, execution, ran)
  {
    match plan {
      case PlanExplore(candidates, passes, repeat) =>
        ghost var trail;
        execution, trail := ExecuteExplore(o, sc, candidates, passes, repeat);
        ran := trail.All();
        if execution.Done? {
          if execution.outcome.verdict.flaky {
            FlakyExploration(o.codec, plan, trail, execution.outcome);
          } else if Hashes(o.codec) {
            ExploreExit(o.codec, plan, trail, execution.outcome);
          }
        }
      case PlanReplay(schedule, repeat) =>
        execution, ran := ExecuteReplay(o, sc, schedule, repeat);
        if execution.Done? {
          if execution.outcome.verdict.flaky {
            FlakyReplay(o.codec, plan, ran, execution.outcome);
          } else if Hashes(o.codec) {
            ReplayExit(o.codec, plan, ran, execution.outcome);
          }
        }
    }
  }

  /** What befalls a run of the tool outside the execution: preparation fails, the user interrupts,
      cleanup fails, and the report cannot be published. */
  datatype Around =
    Around(unprepared: Option<ErrorClass>, interrupted: bool, uncleaned: bool, unpublished: Option<ErrorClass>)

  /** What an exit code says, whatever the fixture, the worker system and the oracles did. */
  ghost predicate Says(codec: RunCodec, plan: RunPlan, around: Around, ran: seq<Attempt>, exit: int) {
    if around.unprepared.Some? then ran == [] && Names(around.unprepared.value, exit)
    else
      match exit
      case 0 => around.unpublished == None && !around.uncleaned && (Hashes(codec) ==> Passed(codec, plan, ran))
      case 2 => around.unpublished == None && (Hashes(codec) ==> Condemned(plan, ran))
      case 3 => around.unpublished == None && Wavered(plan, ran)
      case 4 =>
        || (!around.interrupted && Blamed(ran, FixtureError)) || around.unpublished == Some(FixtureError)
        || (around.unpublished == None && around.uncleaned && (Hashes(codec) ==> Passed(codec, plan, ran)))
      case 5 =>
        || (!around.interrupted && Blamed(ran, InputError))
        || around.unpublished == Some(InputError) || around.unpublished == Some(OutputError)
      case 130 => around.interrupted || around.unpublished == Some(InterruptedError)
      case _ => false
  }

  predicate Names(error: ErrorClass, exit: int) {
    match error
    case InterruptedError => exit == 130
    case FixtureError => exit == 4
    case InputError => exit == 5
    case OutputError => exit == 5
  }

  /** Runs the plan.  Every run that completed was controlled: its trace is safe and complete. */
  method RunScenario(o: Orchestrator, sc: Scenario, plan: RunPlan, around: Around)
    returns (exit: int, ghost ran: seq<Attempt>)
    modifies o`log
    ensures o.log == old(o.log) + ran && AllControlled(sc, o.digest, ran)
    ensures Says(o.codec, plan, around, ran, exit)
  {
    ran := [];
    if around.unprepared.Some? {
      return ExitCode(around.unprepared, Verdict(false, 0), around.uncleaned), ran;
    }
    var execution;
    execution, ran := ExecutePlan(o, sc, plan);
    GrownBy(sc, o.digest, old(o.log), ran);
    if execution.Broken? {
      var error := if around.interrupted then InterruptedError else execution.error;
      exit := ExitCode(Some(error), Verdict(false, 0), around.uncleaned);
    } else if around.unpublished.Some? {
      exit := ExitCode(around.unpublished, Verdict(false, 0), around.uncleaned);
    } else {
      exit := ExitCode(None, execution.outcome.verdict, around.uncleaned);
    }
  }

  /** Runs a scenario over all of its schedules.  When it passes, every pass has run every
      schedule that validation accepts, once, and found it clean. */
  method RunExhaustive(o: Orchestrator, sc: Scenario, passes: int, repeat: int, around: Around)
    returns (exit: int, ghost ran: seq<Attempt>)
    modifies o`log
    ensures o.log == old(o.log) + ran && AllControlled(sc, o.digest, ran)
    ensures !Plannable(sc, 0, o.digest) ==> ran == [] && exit == 5
    ensures Hashes(o.codec) && exit == 0 ==>
      ValidScenario(sc) && AllExonerated(sc, o.digest, o.codec, |AllSchedules(sc, o.digest)|, ran, passes)
    ensures Hashes(o.codec) && exit == 2 ==>
      1 <= repeat < |ran| && Reproduced(ran[|ran| - (repeat + 1)..])
    ensures exit == 3 ==> 1 <= repeat < |ran| && Diverging(ran[|ran| - (repeat + 1)..])
  {
    var planned := Enumerators.ExhaustivePlan(sc, 0, o.digest);
    if !planned.Planned? {
      return ExitCode(Some(InputError), Verdict(false, 0), false), [];
    }
    var plan := PlanExplore(SchedulePlan(Some(planned.plan.total), planned.plan.schedules), passes, repeat);
    exit, ran := RunScenario(o, sc, plan, around);
    if Hashes(o.codec) && exit == 0 {
      SweepsExonerate(sc, o.digest, o.codec, ran, if passes < 0 then 0 else passes);
    }
  }
}
