/** Ordered exploration of candidate schedules (internal/orchestrator/explore.go). */
module Exploration {
  import opened Options
  import opened Evaluations
  import opened Scenarios
  import opened Replays
  import Strategy
  import opened Interleavings
  import Enumerators

  datatype CandidateSummary = CandidateSummary(index: nat, scheduleId: string, violations: nat, fingerprint: string)

  /** The declared total is absent when a strategy cannot count in advance. */
  datatype SchedulePlan = SchedulePlan(total: Option<int>, schedules: seq<Schedule>)

  datatype Finding = Finding(schedule: Schedule, run: RunResult)

  datatype ExploreResult = ExploreResult(
    candidates: Option<int>, evaluated: nat, violatingIndex: nat, violating: Option<Finding>,
    summaries: seq<CandidateSummary>, exhausted: bool)

  datatype ExploreFault =
    | Finished
    | NoPlan
    | Cancelled
    | NegativeTotal
    | BeyondTotal
    | CandidateFailed(index: nat, fault: RunFault)
    | NoOracleResults(index: nat)
    | NoCandidates
    | CountMismatch

  ghost predicate Clean(codec: RunCodec, a: Attempt) {
    a.outcome.Completed? && Sound(codec, a.outcome.run) && !Violates(a.outcome.run)
  }

  /** attempts ran exactly these schedules, in order, and found nothing. */
  ghost predicate Swept(codec: RunCodec, schedules: seq<Schedule>, attempts: seq<Attempt>) {
    && |attempts| == |schedules|
    && forall i :: 0 <= i < |attempts| ==> attempts[i].schedule == schedules[i] && Clean(codec, attempts[i])
  }

  /** The last of these attempts is the first to violate an invariant. */
  ghost predicate Discovered(codec: RunCodec, schedules: seq<Schedule>, attempts: seq<Attempt>, finding: Finding) {
    && 0 < |attempts| <= |schedules|
    && var n := |attempts| - 1;
       && Swept(codec, schedules[..n], attempts[..n])
       && attempts[n] == Attempt(schedules[n], Completed(finding.run))
       && finding.schedule == schedules[n]
       && Sound(codec, finding.run) && Violates(finding.run)
  }

  function Summary(index: nat, schedule: Schedule, run: RunResult): CandidateSummary {
    CandidateSummary(index, schedule.id, ViolationCount(run.evaluation.results), run.fingerprint)
  }

  /** One summary per completed attempt, in order. */
  ghost predicate Summarized(attempts: seq<Attempt>, summaries: seq<CandidateSummary>) {
    && |summaries| == |attempts|
    && forall i :: 0 <= i < |attempts| ==>
         && attempts[i].outcome.Completed?
         && summaries[i] == Summary(i + 1, attempts[i].schedule, attempts[i].outcome.run)
  }

  lemma SweepOne(codec: RunCodec, schedules: seq<Schedule>, attempts: seq<Attempt>, a: Attempt)
    requires |attempts| < |schedules| && Swept(codec, schedules[..|attempts|], attempts)
    requires a.schedule == schedules[|attempts|] && Clean(codec, a)
    ensures Swept(codec, schedules[..|attempts| + 1], attempts + [a])
  {
  }

  predicate Negative(plan: SchedulePlan) {
    plan.total.Some? && plan.total.value < 0
  }

  /** A report that names no violation: it summarizes the candidates that completed. */
  ghost predicate Unfound(completed: seq<Attempt>, result: ExploreResult) {
    && Summarized(completed, result.summaries)
    && result.violatingIndex == 0 && result.violating == None
  }

  /** What one call of ExplorePlan reports, given the attempts it made. */
  ghost predicate Reported(codec: RunCodec, plan: SchedulePlan, cancelled: bool, ran: seq<Attempt>,
                           result: ExploreResult, fault: ExploreFault) {
    var schedules, n := plan.schedules, |ran|;
    && result.evaluated == n <= |schedules|
    && (fault == Cancelled <==> cancelled) && (fault == NegativeTotal <==> !cancelled && Negative(plan))
    && result.candidates == (if cancelled || Negative(plan) then None else plan.total)
    && (result.exhausted ==> fault == Finished)
    && match fault
       case Finished =>
         if result.exhausted then
           && n > 0 && Swept(codec, schedules, ran) && (plan.total.Some? ==> plan.total.value == n)
           && Unfound(ran, result)
         else
           && result.violating.Some? && result.violatingIndex == n && Summarized(ran, result.summaries)
           && Discovered(codec, schedules, ran, result.violating.value)
       case CandidateFailed(index, failure) =>
         && index == n > 0 && Swept(codec, schedules[..n - 1], ran[..n - 1]) && Unfound(ran[..n - 1], result)
         && ran[n - 1] == Attempt(schedules[n - 1], Failed(failure))
       case BeyondTotal =>
         && plan.total.Some? && plan.total.value == n < |schedules|
         && Swept(codec, schedules[..n], ran) && Unfound(ran, result)
       case CountMismatch =>
         && plan.total.Some? && plan.total.value > |schedules| > 0
         && Swept(codec, schedules, ran) && Unfound(ran, result)
       case NegativeTotal => n == 0 && Unfound(ran, result)
       case NoCandidates => schedules == [] && Unfound(ran, result)
       case Cancelled => n == 0 && Unfound(ran, result)
       case NoOracleResults(_) => false
       case NoPlan => false
  }

  /** What the traversal knows before each candidate. */
  ghost predicate Traversing(codec: RunCodec, plan: SchedulePlan, ran: seq<Attempt>, result: ExploreResult) {
    && result.evaluated == |ran| <= |plan.schedules|
    && result.candidates == plan.total && !Negative(plan) && (plan.total.Some? ==> |ran| <= plan.total.value)
    && Swept(codec, plan.schedules[..|ran|], ran)
    && Unfound(ran, result) && !result.exhausted
  }

  lemma TraverseOne(codec: RunCodec, plan: SchedulePlan, ran: seq<Attempt>, a: Attempt,
                    was: ExploreResult, result: ExploreResult)
    requires Traversing(codec, plan, ran, was) && |ran| < |plan.schedules|
    requires plan.total.Some? ==> |ran| < plan.total.value
    requires a.schedule == plan.schedules[|ran|] && Clean(codec, a)
    requires result == was.(evaluated := |ran| + 1,
                            summaries := was.summaries + [Summary(|ran| + 1, a.schedule, a.outcome.run)])
    ensures Traversing(codec, plan, ran + [a], result)
  {
    SweepOne(codec, plan.schedules, ran, a);
  }

  lemma Discover(codec: RunCodec, plan: SchedulePlan, ran: seq<Attempt>, a: Attempt,
                 was: ExploreResult, result: ExploreResult)
    requires Traversing(codec, plan, ran, was) && |ran| < |plan.schedules|
    requires a.schedule == plan.schedules[|ran|] && a.outcome.Completed?
    requires Sound(codec, a.outcome.run) && Violates(a.outcome.run)
    requires result == was.(evaluated := |ran| + 1, violatingIndex := |ran| + 1,
                            violating := Some(Finding(a.schedule, a.outcome.run)),
                            summaries := was.summaries + [Summary(|ran| + 1, a.schedule, a.outcome.run)])
    ensures Reported(codec, plan, false, ran + [a], result, Finished)
  {
    assert (ran + [a])[..|ran|] == ran;
  }

  lemma Fail(codec: RunCodec, plan: SchedulePlan, ran: seq<Attempt>, a: Attempt, was: ExploreResult)
    requires Traversing(codec, plan, ran, was) && |ran| < |plan.schedules|
    requires a.schedule == plan.schedules[|ran|] && a.outcome.Failed?
    ensures Reported(codec, plan, false, ran + [a], was.(evaluated := |ran| + 1),
                     CandidateFailed(|ran| + 1, a.outcome.fault))
  {
    assert (ran + [a])[..|ran|] == ran;
  }

  datatype Next = Continue | Stop(fault: ExploreFault)

  /** Judges a completed candidate by its violations. */
  method Judge(ghost codec: RunCodec, plan: SchedulePlan, was: ExploreResult, schedule: Schedule, run: RunResult,
               ghost ran: seq<Attempt>)
    returns (result: ExploreResult, next: Next)
    requires Traversing(codec, plan, ran, was) && |ran| < |plan.schedules|
    requires plan.total.Some? ==> |ran| < plan.total.value
    requires schedule == plan.schedules[|ran|] && Sound(codec, run)
    ensures var all := ran + [Attempt(schedule, Completed(run))];
            match next
            case Continue => Traversing(codec, plan, all, result)
            case Stop(fault) => Reported(codec, plan, false, all, result, fault) && !result.exhausted
  {
    ghost var attempt := Attempt(schedule, Completed(run));
    var index: nat := was.evaluated + 1;
    result := was.(evaluated := index);
    if |run.evaluation.results| == 0 {
      next := Stop(NoOracleResults(index));
      return;
    }
    var violations := EvaluationViolationCount(run.evaluation);
    result := result.(summaries := result.summaries
                        + [CandidateSummary(index, schedule.id, violations, run.fingerprint)]);
    if violations == 0 {
      TraverseOne(codec, plan, ran, attempt, was, result);
      next := Continue;
    } else {
      result := result.(violatingIndex := index, violating := Some(Finding(schedule, run)));
      Discover(codec, plan, ran, attempt, was, result);
      next := Stop(Finished);
    }
  }

  method Candidate(o: Orchestrator, sc: Scenario, plan: SchedulePlan, was: ExploreResult, ghost ran: seq<Attempt>)
    returns (result: ExploreResult, next: Next, ghost attempt: Attempt)
    requires Traversing(o.codec, plan, ran, was) && was.evaluated < |plan.schedules|
    requires was.candidates.Some? ==> was.evaluated < was.candidates.value
    modifies o`log
    ensures o.log == old(o.log) + [attempt] && Grows(sc, o.digest, old(o.log), o.log)
    ensures next == Continue ==> Traversing(o.codec, plan, ran + [attempt], result)
    ensures next.Stop? ==> Reported(o.codec, plan, false, ran + [attempt], result, next.fault) && !result.exhausted
  {
    var schedule := plan.schedules[was.evaluated];
    var outcome := o.Run(sc, schedule);
    attempt := Attempt(schedule, outcome);
    if outcome.Failed? {
      Fail(o.codec, plan, ran, attempt, was);
      result := was.(evaluated := was.evaluated + 1);
      next := Stop(CandidateFailed(result.evaluated, outcome.fault));
    } else {
      result, next := Judge(o.codec, plan, was, schedule, outcome.run, ran);
    }
  }

  /** Runs candidates in order and stops at the first violation. */
  method ExplorePlan(o: Orchestrator, cancelled: bool, sc: Scenario, plan: SchedulePlan)
    returns (result: ExploreResult, fault: ExploreFault, ghost ran: seq<Attempt>)
    modifies o`log
    ensures o.log == old(o.log) + ran && Grows(sc, o.digest, old(o.log), o.log)
    ensures Reported(o.codec, plan, cancelled, ran, result, fault)
  {
    ran := [];
    result := ExploreResult(None, 0, 0, None, [], false);
    if cancelled {
      fault := Cancelled;
      return;
    }
    if Negative(plan) {
      fault := NegativeTotal;
      return;
    }
    result := result.(candidates := plan.total);
    while result.evaluated < |plan.schedules|
      invariant Traversing(o.codec, plan, ran, result)
      invariant o.log == old(o.log) + ran && Grows(sc, o.digest, old(o.log), o.log)
      decreases |plan.schedules| - result.evaluated
    {
      if result.candidates.Some? && result.evaluated + 1 > result.candidates.value {
        fault := BeyondTotal;
        return;
      }
      var next;
      ghost var before, attempt := o.log, *;
      result, next, attempt := Candidate(o, sc, plan, result, ran);
      GrowsOn(sc, o.digest, old(o.log), before, o.log);
      ran := ran + [attempt];
      if next.Stop? {
        fault := next.fault;
        return;
      }
    }
    assert plan.schedules[..|plan.schedules|] == plan.schedules;
    if result.evaluated == 0 {
      fault := NoCandidates;
      return;
    }
    if result.candidates.Some? && result.evaluated != result.candidates.value {
      fault := CountMismatch;
      return;
    }
    result := result.(exhausted := true);
    fault := Finished;
  }

  /** Every schedule that validation accepts was run, once, and found clean. */
  ghost predicate Exonerated(sc: Scenario, digest: Digest, codec: RunCodec, ran: seq<Attempt>) {
    && (forall i :: 0 <= i < |ran| ==> Accepted(sc, ran[i].schedule, digest) && Clean(codec, ran[i]))
    && (forall i, j :: 0 <= i < j < |ran| ==> ran[i].schedule != ran[j].schedule)
    && forall schedule :: Accepted(sc, schedule, digest) ==> WasRun(ran, schedule)
  }

  ghost predicate WasRun(ran: seq<Attempt>, schedule: Schedule) {
    exists i :: 0 <= i < |ran| && ran[i].schedule == schedule
  }

  lemma SweepExonerates(sc: Scenario, digest: Digest, codec: RunCodec, ran: seq<Attempt>)
    requires ValidScenario(sc) && Swept(codec, Strategy.AllSchedules(sc, digest), ran)
    ensures Exonerated(sc, digest, codec, ran)
  {
    var all := Strategy.AllSchedules(sc, digest);
    ListedSchedules(sc, digest);
    forall schedule | Accepted(sc, schedule, digest) ensures WasRun(ran, schedule) {
      Strategy.EnumerationIsExact(sc, digest, schedule);
      var i :| 0 <= i < |all| && all[i] == schedule;
      assert ran[i].schedule == schedule;
    }
  }

  lemma ListedSchedules(sc: Scenario, digest: Digest)
    requires ValidScenario(sc)
    ensures var all := Strategy.AllSchedules(sc, digest);
            && (forall i :: 0 <= i < |all| ==> Accepted(sc, all[i], digest))
            && forall i, j :: 0 <= i < j < |all| ==> all[i] != all[j]
  {
    var all := Strategy.AllSchedules(sc, digest);
    forall i | 0 <= i < |all| ensures Accepted(sc, all[i], digest) {
      assert all[i] in all;
      Strategy.EnumerationIsExact(sc, digest, all[i]);
    }
    forall i, j | 0 <= i < j < |all| ensures all[i] != all[j] {
      Strategy.EnumerationIsSorted(sc, digest, i, j);
    }
  }

  /** The scenario is valid and its schedules do not exceed the limit, which zero leaves to the default. */
  ghost predicate Plannable(sc: Scenario, maxCandidates: int, digest: Digest) {
    && maxCandidates >= 0 && ValidScenario(sc)
    && |Strategy.AllSchedules(sc, digest)| <= if maxCandidates == 0 then 5000 else maxCandidates
  }

  /** Exploration with the exhaustive strategy.  Its plan never disagrees with its
      declared count; exhaustion clears every accepted schedule, and a discovery is
      the first violating schedule in enumeration order. */
  method Explore(o: Orchestrator, cancelled: bool, sc: Scenario, maxCandidates: int)
    returns (result: ExploreResult, fault: ExploreFault, ghost ran: seq<Attempt>)
    modifies o`log
    ensures o.log == old(o.log) + ran && Grows(sc, o.digest, old(o.log), o.log)
    ensures fault == Finished || fault == NoPlan || fault == Cancelled || fault.CandidateFailed?
    ensures fault == Cancelled <==> cancelled
    ensures fault == NoPlan <==> !cancelled && !Plannable(sc, maxCandidates, o.digest)
    ensures fault.CandidateFailed? ==> ran != [] && ran[|ran| - 1].outcome == Failed(fault.fault)
    ensures fault == Finished && result.exhausted ==> Exonerated(sc, o.digest, o.codec, ran)
    ensures fault == Finished && !result.exhausted ==>
              && result.violating.Some? && result.violatingIndex == |ran|
              && Discovered(o.codec, Strategy.AllSchedules(sc, o.digest), ran, result.violating.value)
  {
    ran := [];
    result := ExploreResult(None, 0, 0, None, [], false);
    if cancelled {
      fault := Cancelled;
      return;
    }
    var planned := Enumerators.ExhaustivePlan(sc, maxCandidates, o.digest);
    if !planned.Planned? {
      fault := NoPlan;
      return;
    }
    var plan := SchedulePlan(Some(planned.plan.total), planned.plan.schedules);
    result, fault, ran := ExplorePlan(o, cancelled, sc, plan);
    ListingIsNotEmpty(sc, o.digest);
    if fault == Finished && result.exhausted {
      SweepExonerates(sc, o.digest, o.codec, ran);
    }
  }

  lemma ListingIsNotEmpty(sc: Scenario, digest: Digest)
    requires ValidScenario(sc)
    ensures Strategy.AllSchedules(sc, digest) != []
  {
    Strategy.MultinomialLaw(sc, digest);
    assert Product(0, Strategy.Power(Factorial(|sc.points|), |sc.workers|)) == 0;
  }
}
