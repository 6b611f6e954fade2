/** The two enumerators as the programs run them: the Go backtracking walk that yields
    schedules to a consumer (internal/scenario/strategy.go), and the Python recursion that
    collects them in a list (experiments/control-comparison/runner/support.py). */
module Enumerators {
  import opened Interleavings
  import opened Scenarios
  import opened Strategy

  // ----- Yielding to a consumer that may stop -----

  /** What a consumer wants after having received some schedules: more, or no more. */
  type Consumer = seq<Schedule> -> bool

  /** Hand schedules over one at a time until the consumer wants no more. */
  function Deliver(more: Consumer, received: seq<Schedule>, pending: seq<Schedule>): (r: (seq<Schedule>, bool))
    decreases |pending|
  {
    if pending == [] then (received, true)
    else
      var now := received + [pending[0]];
      if more(now) then Deliver(more, now, pending[1..]) else (now, false)
  }

  lemma {:induction false} DeliverSplit(more: Consumer, received: seq<Schedule>, a: seq<Schedule>, b: seq<Schedule>)
    ensures Deliver(more, received, a + b)
         == var (now, wanted) := Deliver(more, received, a);
            if wanted then Deliver(more, now, b) else (now, false)
    decreases |a|
  {
    if a == [] {
      assert a + b == b;
    } else {
      assert (a + b)[0] == a[0] && (a + b)[1..] == a[1..] + b;
      DeliverSplit(more, received + [a[0]], a[1..], b);
    }
  }

  lemma DeliverOne(more: Consumer, received: seq<Schedule>, schedule: Schedule)
    ensures Deliver(more, received, [schedule]) == (received + [schedule], more(received + [schedule]))
  {
    assert [schedule][1..] == [];
  }

  /** A consumer receives the pending schedules in order up to and including the first one
      after which it wants no more; if it never stops, it receives them all. */
  lemma {:induction false} DeliverIsPrefix(more: Consumer, received: seq<Schedule>, pending: seq<Schedule>)
    ensures var (got, wanted) := Deliver(more, received, pending);
            && received <= got <= received + pending
            && (wanted ==> got == received + pending)
            && (!wanted ==> |received| < |got| && !more(got))
            && (forall k :: |received| < k < |got| ==> more(got[..k]))
            && (wanted && pending != [] ==> more(got))
    decreases |pending|
  {
    if pending != [] {
      var now := received + [pending[0]];
      assert received + pending == now + pending[1..];
      if more(now) {
        DeliverIsPrefix(more, now, pending[1..]);
        var (got, wanted) := Deliver(more, now, pending[1..]);
        assert got[..|now|] == now;
        if pending[1..] == [] { assert got == now; }
      }
    } else {
      assert received + pending == received;
    }
  }

  // ----- The Go walk -----

  class Enumerator {
    const sc: Scenario
    const digest: Digest
    const more: Consumer
    var next: seq<nat>
    var steps: seq<Step>
    var yielded: seq<Schedule>

    constructor (sc: Scenario, digest: Digest, more: Consumer)
      ensures this.sc == sc && this.digest == digest && this.more == more
      ensures next == Repeat(0, |sc.workers|) && steps == [] && yielded == []
    {
      this.sc, this.digest, this.more := sc, digest, more;
      next, steps, yielded := Repeat(0, |sc.workers|), [], [];
    }

    ghost predicate Valid()
      reads this
    {
      Position(sc, next) && |steps| == Sum(next)
    }

    /** Yields every completion of the steps taken so far, in order, until the consumer stops;
        when it does not stop, the walk leaves the position as it found it. */
    method Walk() returns (wanted: bool)
      requires Valid()
      modifies this
      ensures (yielded, wanted) == Deliver(more, old(yielded), AllCompletions(sc, digest, old(steps), old(next)))
      ensures wanted ==> next == old(next) && steps == old(steps)
      decreases Sum(Remaining(sc, next)), 2
    {
      RemainingTotal(sc, next);
      if |steps| == |sc.workers| * |sc.points| {
        LastWord(sc, digest, steps, next);
        DeliverOne(more, yielded, MakeSchedule(digest, steps));
        yielded := yielded + [MakeSchedule(digest, steps)];
        return more(yielded);
      }
      ghost var steps0, next0 := steps, next;
      ghost var outcome := Deliver(more, yielded, AllCompletions(sc, digest, steps0, next0));
      FromFirst(sc, digest, steps0, next0);
      for worker := 0 to |sc.workers|
        invariant next == next0 && steps == steps0
        invariant outcome == Deliver(more, yielded, From(sc, digest, steps0, next0, worker))
      {
        wanted := Visit(worker);
        if !wanted { return; }
      }
      FromLast(sc, digest, steps0, next0);
      return true;
    }

    /** Yields what one worker completes by moving next, if it still can. */
    method Visit(worker: nat) returns (wanted: bool)
      requires Valid() && worker < |next|
      modifies this
      ensures wanted ==> next == old(next) && steps == old(steps)
      ensures Deliver(more, old(yielded), From(sc, digest, old(steps), old(next), worker))
           == if wanted then Deliver(more, yielded, From(sc, digest, old(steps), old(next), worker + 1))
              else (yielded, false)
      decreases Sum(Remaining(sc, next)), 1
    {
      DeliverTurn(sc, digest, more, yielded, steps, next, worker);
      if next[worker] == |sc.points| {
        return true;
      }
      wanted := Turn(worker);
    }

    /** Lets one worker take its next step, walks on from there, and takes the step back. */
    method Turn(worker: nat) returns (wanted: bool)
      requires Valid() && worker < |next| && next[worker] < |sc.points|
      modifies this
      ensures Position(sc, old(next)[worker := old(next)[worker] + 1])
      ensures (yielded, wanted)
           == Deliver(more, old(yielded), AllCompletions(sc, digest, Taken(sc, old(steps), old(next), worker),
                                                         old(next)[worker := old(next)[worker] + 1]))
      ensures wanted ==> next == old(next) && steps == old(steps)
      decreases Sum(Remaining(sc, next)), 0
    {
      Advance(sc, next, worker);
      steps := steps + [Step(sc.workers[worker].id, sc.points[next[worker]])];
      next := next[worker := next[worker] + 1];
      wanted := Walk();
      if wanted {
        next := next[worker := next[worker] - 1];
        steps := steps[..|steps| - 1];
        assert next == old(next) && steps == old(steps);
      }
    }
  }

  // ----- What is still to come inside one walk -----

  /** The completions whose next step is taken by worker first or a later one. */
  function From(sc: Scenario, digest: Digest, steps: seq<Step>, next: seq<nat>, first: nat): seq<Schedule>
    requires Position(sc, next) && first <= |next|
  {
    FromSpell(Remaining(sc, next), first);
    Completions(sc, digest, steps, next, WordsFrom(Remaining(sc, next), first))
  }

  lemma FromSpell(remaining: seq<nat>, first: nat)
    requires first <= |remaining|
    ensures forall i :: 0 <= i < |WordsFrom(remaining, first)| ==> Spells(WordsFrom(remaining, first)[i], remaining)
  {
    forall i | 0 <= i < |WordsFrom(remaining, first)| ensures Spells(WordsFrom(remaining, first)[i], remaining) {
      assert WordsFrom(remaining, first)[i] in WordsFrom(remaining, first);
      WordsFromAreSpellings(WordsFrom(remaining, first)[i], remaining, first);
    }
  }

  lemma FromFirst(sc: Scenario, digest: Digest, steps: seq<Step>, next: seq<nat>)
    requires Position(sc, next) && Sum(Remaining(sc, next)) > 0
    ensures From(sc, digest, steps, next, 0) == AllCompletions(sc, digest, steps, next)
  {}

  lemma FromLast(sc: Scenario, digest: Digest, steps: seq<Step>, next: seq<nat>)
    requires Position(sc, next)
    ensures From(sc, digest, steps, next, |next|) == []
  {}

  function Taken(sc: Scenario, steps: seq<Step>, next: seq<nat>, worker: nat): seq<Step>
    requires Position(sc, next) && worker < |next| && next[worker] < |sc.points|
  {
    steps + [Step(sc.workers[worker].id, sc.points[next[worker]])]
  }

  lemma Advance(sc: Scenario, next: seq<nat>, worker: nat)
    requires Position(sc, next) && worker < |next| && next[worker] < |sc.points|
    ensures Position(sc, next[worker := next[worker] + 1])
    ensures Sum(Remaining(sc, next[worker := next[worker] + 1])) < Sum(Remaining(sc, next))
    ensures Sum(next[worker := next[worker] + 1]) == Sum(next) + 1
  {
    AdvanceRemaining(sc, next, worker);
    SumUpdate(Remaining(sc, next), worker, Remaining(sc, next)[worker] - 1);
    SumUpdate(next, worker, next[worker] + 1);
  }

  /** One worker's turn: what it completes by moving next, then the later workers. */
  lemma FromStep(sc: Scenario, digest: Digest, steps: seq<Step>, next: seq<nat>, worker: nat)
    requires Position(sc, next) && worker < |next|
    ensures next[worker] == |sc.points| ==>
            From(sc, digest, steps, next, worker) == From(sc, digest, steps, next, worker + 1)
    ensures next[worker] < |sc.points| ==>
            (var turn := AllCompletions(sc, digest, Taken(sc, steps, next, worker), next[worker := next[worker] + 1]);
             From(sc, digest, steps, next, worker) == turn + From(sc, digest, steps, next, worker + 1))
  {
    var remaining := Remaining(sc, next);
    FromSpell(remaining, worker);
    FromSpell(remaining, worker + 1);
    var branch := Branch(remaining, worker);
    assert WordsFrom(remaining, worker) == branch + WordsFrom(remaining, worker + 1);
    if next[worker] < |sc.points| {
      BranchCompletes(sc, digest, steps, next, worker);
      CompletionsAppend(sc, digest, steps, next, branch, WordsFrom(remaining, worker + 1));
    }
  }

  lemma CompletionsAppend(sc: Scenario, digest: Digest, steps: seq<Step>, next: seq<nat>, a: seq<Word>, b: seq<Word>)
    requires Position(sc, next)
    requires forall i :: 0 <= i < |a| ==> Spells(a[i], Remaining(sc, next))
    requires forall i :: 0 <= i < |b| ==> Spells(b[i], Remaining(sc, next))
    ensures forall i :: 0 <= i < |a + b| ==> Spells((a + b)[i], Remaining(sc, next))
    ensures Completions(sc, digest, steps, next, a + b)
         == Completions(sc, digest, steps, next, a) + Completions(sc, digest, steps, next, b)
  {
  }

  /** Delivering from one worker on is delivering its turn, then the later workers. */
  lemma DeliverTurn(sc: Scenario, digest: Digest, more: Consumer, received: seq<Schedule>,
                    steps: seq<Step>, next: seq<nat>, worker: nat)
    requires Position(sc, next) && worker < |next|
    ensures var all := Deliver(more, received, From(sc, digest, steps, next, worker));
            var rest := From(sc, digest, steps, next, worker + 1);
            if next[worker] == |sc.points| then all == Deliver(more, received, rest)
            else
              && Position(sc, next[worker := next[worker] + 1])
              && var (now, wanted) := Deliver(more, received, AllCompletions(sc, digest, Taken(sc, steps, next, worker),
                                                                             next[worker := next[worker] + 1]));
                 all == if wanted then Deliver(more, now, rest) else (now, false)
  {
    FromStep(sc, digest, steps, next, worker);
    if next[worker] < |sc.points| {
      AdvanceRemaining(sc, next, worker);
      var turn := AllCompletions(sc, digest, Taken(sc, steps, next, worker), next[worker := next[worker] + 1]);
      DeliverSplit(more, received, turn, From(sc, digest, steps, next, worker + 1));
    }
  }

  /** The words that begin with worker complete what is left after its next step. */
  lemma BranchCompletes(sc: Scenario, digest: Digest, steps: seq<Step>, next: seq<nat>, worker: nat)
    requires Position(sc, next) && worker < |next| && next[worker] < |sc.points|
    ensures forall i :: 0 <= i < |Branch(Remaining(sc, next), worker)| ==>
              Spells(Branch(Remaining(sc, next), worker)[i], Remaining(sc, next))
    ensures Position(sc, next[worker := next[worker] + 1])
    ensures Completions(sc, digest, steps, next, Branch(Remaining(sc, next), worker))
         == AllCompletions(sc, digest, Taken(sc, steps, next, worker), next[worker := next[worker] + 1])
  {
    var remaining, next' := Remaining(sc, next), next[worker := next[worker] + 1];
    var branch := Branch(remaining, worker);
    AdvanceRemaining(sc, next, worker);
    var rest := Words(Remaining(sc, next'));
    WordsSpell(Remaining(sc, next'));
    assert branch == Prepend(worker, rest);
    forall i | 0 <= i < |branch|
      ensures Spells(branch[i], remaining)
      ensures steps + Spell(sc, next, branch[i]) == Taken(sc, steps, next, worker) + Spell(sc, next', rest[i])
    {
      assert branch[i] in branch;
      BranchIsSpellings(branch[i], remaining, worker);
      SpellStep(sc, next, worker, rest[i]);
    }
  }

  lemma {:induction false} RemainingTotal(sc: Scenario, next: seq<nat>)
    requires Position(sc, next)
    ensures Sum(Remaining(sc, next)) + Sum(next) == |sc.workers| * |sc.points|
  {
    RemainingSum(sc, next, |next|);
    assert next[..|next|] == next && Remaining(sc, next)[..|next|] == Remaining(sc, next);
  }

  lemma {:induction false} RemainingSum(sc: Scenario, next: seq<nat>, k: nat)
    requires Position(sc, next) && k <= |next|
    ensures Sum(Remaining(sc, next)[..k]) + Sum(next[..k]) == k * |sc.points|
  {
    if k > 0 {
      RemainingSum(sc, next, k - 1);
      var remaining := Remaining(sc, next);
      assert remaining[..k] == remaining[..k - 1] + [remaining[k - 1]];
      assert next[..k] == next[..k - 1] + [next[k - 1]];
      SumSnoc(remaining[..k - 1], remaining[k - 1]);
      SumSnoc(next[..k - 1], next[k - 1]);
      Times(k - 1, |sc.points|);
    }
  }

  lemma LastWord(sc: Scenario, digest: Digest, steps: seq<Step>, next: seq<nat>)
    requires Position(sc, next) && Sum(Remaining(sc, next)) == 0
    ensures AllCompletions(sc, digest, steps, next) == [MakeSchedule(digest, steps)]
  {
    WordsSpell(Remaining(sc, next));
    assert Words(Remaining(sc, next))[0] == [];
    assert steps + [] == steps;
  }

  /** Running the sequence hands the consumer AllSchedules until it stops. */
  method ExhaustiveSequence(sc: Scenario, digest: Digest, more: Consumer) returns (yielded: seq<Schedule>)
    ensures yielded == Deliver(more, [], AllSchedules(sc, digest)).0
  {
    var walk := new Enumerator(sc, digest, more);
    SumZero(walk.next);
    var _ := walk.Walk();
    yielded := walk.yielded;
  }

  // ----- The plan -----

  datatype Plan = Plan(total: nat, schedules: seq<Schedule>)

  datatype PlanResult = Planned(plan: Plan) | NegativeLimit | CountFailed(error: CountResult)

  const DEFAULT_MAX_CANDIDATES: int := 5000

  /** A plan declares the exact length of the sequence it carries, and is refused exactly
      when that length exceeds the limit. */
  method ExhaustivePlan(sc: Scenario, maxCandidates: int, digest: Digest) returns (r: PlanResult)
    ensures r == NegativeLimit <==> maxCandidates < 0
    ensures maxCandidates >= 0 ==>
            var limit := if maxCandidates == 0 then DEFAULT_MAX_CANDIDATES else maxCandidates;
            r.Planned? <==> ValidScenario(sc) && |AllSchedules(sc, digest)| <= limit
    ensures r.Planned? ==> r.plan.schedules == AllSchedules(sc, digest) && r.plan.total == |AllSchedules(sc, digest)|
  {
    if maxCandidates < 0 { return NegativeLimit; }
    var limit := if maxCandidates == 0 then DEFAULT_MAX_CANDIDATES else maxCandidates;
    var count := CandidateCount(sc, limit, digest);
    if !count.Count? { return CountFailed(count); }
    return Planned(Plan(count.count, AllSchedules(sc, digest)));
  }

  // ----- The independent enumerator -----

  function WorkerName(i: nat): string {
    if i == 0 then "w1" else "w2"
  }

  /** The two workers of the control comparison. */
  function PairScenario(points: seq<string>): (sc: Scenario)
    ensures |sc.workers| == 2 && sc.points == points
    ensures forall i :: 0 <= i < 2 ==> sc.workers[i].id == WorkerName(i)
  {
    Scenario("control", [Worker(WorkerName(0), "run"), Worker(WorkerName(1), "run")], points)
  }

  class CandidateList {
    const points: seq<string>
    const digest: Digest
    var result: seq<Schedule>

    constructor (points: seq<string>, digest: Digest)
      ensures this.points == points && this.digest == digest && result == []
    {
      this.points, this.digest, result := points, digest, [];
    }

    method Walk(nexts: seq<nat>, steps: seq<Step>)
      requires Position(PairScenario(points), nexts)
      modifies this`result
      ensures result == old(result) + AllCompletions(PairScenario(points), digest, steps, nexts)
      decreases Sum(Remaining(PairScenario(points), nexts)), 2
    {
      ghost var sc := PairScenario(points);
      SumZero(Remaining(sc, nexts));
      if nexts == [|points|, |points|] {
        LastWord(sc, digest, steps, nexts);
        result := result + [MakeSchedule(digest, steps)];
        return;
      }
      FromFirst(sc, digest, steps, nexts);
      ghost var final := result + AllCompletions(sc, digest, steps, nexts);
      for i := 0 to 2
        invariant result + From(sc, digest, steps, nexts, i) == final
      {
        Turn(nexts, steps, i);
      }
      FromLast(sc, digest, steps, nexts);
    }

    /** What worker i completes by moving next, if it still can. */
    method Turn(nexts: seq<nat>, steps: seq<Step>, i: nat)
      requires Position(PairScenario(points), nexts) && i < |nexts|
      modifies this`result
      ensures result + From(PairScenario(points), digest, steps, nexts, i + 1)
           == old(result) + From(PairScenario(points), digest, steps, nexts, i)
      decreases Sum(Remaining(PairScenario(points), nexts)), 1
    {
      FromStep(PairScenario(points), digest, steps, nexts, i);
      if nexts[i] < |points| {
        Follow(nexts, steps, i);
      }
    }

    /** Walks on after worker i's next step, on copies of the position. */
    method Follow(nexts: seq<nat>, steps: seq<Step>, i: nat)
      requires Position(PairScenario(points), nexts) && i < |nexts| && nexts[i] < |points|
      modifies this`result
      ensures Position(PairScenario(points), nexts[i := nexts[i] + 1])
      ensures result == old(result)
              + AllCompletions(PairScenario(points), digest, Taken(PairScenario(points), steps, nexts, i),
                               nexts[i := nexts[i] + 1])
      decreases Sum(Remaining(PairScenario(points), nexts)), 0
    {
      Advance(PairScenario(points), nexts, i);
      var following := nexts[i := nexts[i] + 1];
      Walk(following, steps + [Step(WorkerName(i), points[nexts[i]])]);
    }
  }

  /** For two workers the independent enumerator lists the same schedules in the same order. */
  method Candidates(points: seq<string>, digest: Digest) returns (result: seq<Schedule>)
    ensures result == AllSchedules(PairScenario(points), digest)
  {
    var list := new CandidateList(points, digest);
    assert Repeat(0, |PairScenario(points).workers|) == [0, 0];
    list.Walk([0, 0], []);
    result := list.result;
  }
}
