/** Exhaustive schedule enumeration and counting (internal/scenario/strategy.go), and
    the independent enumerator of the control comparison
    (experiments/control-comparison/runner/support.py). */
module Strategy {
  import opened Options
  import opened Interleavings
  import opened Scenarios

  // ----- Words and steps -----

  function Repeat(n: nat, count: nat): (r: seq<nat>)
    ensures |r| == count
    ensures forall i :: 0 <= i < count ==> r[i] == n
  {
    seq(count, _ => n)
  }

  /** How many points each worker still has to visit. */
  function Remaining(sc: Scenario, next: seq<nat>): (r: seq<nat>)
    requires forall w :: 0 <= w < |next| ==> next[w] <= |sc.points|
    ensures |r| == |next|
    ensures forall w :: 0 <= w < |r| ==> r[w] == |sc.points| - next[w]
  {
    seq(|next|, w requires 0 <= w < |next| => |sc.points| - next[w])
  }

  ghost predicate Position(sc: Scenario, next: seq<nat>) {
    && |next| == |sc.workers|
    && (forall w :: 0 <= w < |next| ==> next[w] <= |sc.points|)
  }

  /** The steps that a word of worker indices takes from a position. */
  function Spell(sc: Scenario, next: seq<nat>, word: Word): (steps: seq<Step>)
    requires Position(sc, next) && Spells(word, Remaining(sc, next))
    ensures |steps| == |word|
    decreases |word|
  {
    if word == [] then []
    else
      var w := word[0];
      SpellsStep(word, Remaining(sc, next));
      AdvanceRemaining(sc, next, w);
      [Step(sc.workers[w].id, sc.points[next[w]])] + Spell(sc, next[w := next[w] + 1], word[1..])
  }

  lemma AdvanceRemaining(sc: Scenario, next: seq<nat>, w: nat)
    requires Position(sc, next) && w < |next| && next[w] < |sc.points|
    ensures Position(sc, next[w := next[w] + 1])
    ensures Remaining(sc, next[w := next[w] + 1]) == Remaining(sc, next)[w := Remaining(sc, next)[w] - 1]
  {}

  /** Spelling a word takes its first worker's next step and spells the rest. */
  lemma SpellStep(sc: Scenario, next: seq<nat>, w: nat, rest: Word)
    requires Position(sc, next) && Spells([w] + rest, Remaining(sc, next))
    ensures w < |next| && next[w] < |sc.points|
    ensures Position(sc, next[w := next[w] + 1]) && Spells(rest, Remaining(sc, next[w := next[w] + 1]))
    ensures Spell(sc, next, [w] + rest)
         == [Step(sc.workers[w].id, sc.points[next[w]])] + Spell(sc, next[w := next[w] + 1], rest)
  {
    var word := [w] + rest;
    assert word[0] == w && word[1..] == rest;
    SpellsStep(word, Remaining(sc, next));
    AdvanceRemaining(sc, next, w);
  }

  /** The worker index of every step. */
  function IndexWord(sc: Scenario, steps: seq<Step>): (word: Word)
    ensures |word| == |steps|
    ensures forall k :: 0 <= k < |word| ==> word[k] == IndexOf(sc.workers, steps[k].worker)
  {
    seq(|steps|, k requires 0 <= k < |steps| => IndexOf(sc.workers, steps[k].worker))
  }

  function IndexOf(workers: seq<Worker>, id: string): (i: nat)
    ensures i <= |workers|
    ensures i < |workers| ==> workers[i].id == id
    ensures forall j :: 0 <= j < i ==> workers[j].id != id
  {
    if workers == [] || workers[0].id == id then 0 else 1 + IndexOf(workers[1..], id)
  }

  lemma IndexOfWorker(sc: Scenario, w: nat)
    requires Distinct(WorkerIds(sc.workers)) && w < |sc.workers|
    ensures IndexOf(sc.workers, sc.workers[w].id) == w
    ensures Known(sc, sc.workers[w].id)
  {
    var ids, i := WorkerIds(sc.workers), IndexOf(sc.workers, sc.workers[w].id);
    assert ids[w] == sc.workers[w].id;
    assert i <= w;
    assert ids[i] == ids[w];
  }

  lemma IndexOfKnown(sc: Scenario, id: string)
    requires Known(sc, id)
    ensures IndexOf(sc.workers, id) < |sc.workers|
  {
    var w :| 0 <= w < |sc.workers| && WorkerIds(sc.workers)[w] == id;
  }

  lemma {:induction false} ProjectFront(step: Step, rest: seq<Step>, id: string)
    ensures Project([step] + rest, id) == (if step.worker == id then [step.point] else []) + Project(rest, id)
  {
    if rest == [] {
      assert [step] + rest == [] + [step];
      ProjectExtend([], step, id);
    } else {
      var last := |rest| - 1;
      ProjectFront(step, rest[..last], id);
      assert [step] + rest == ([step] + rest[..last]) + [rest[last]];
      ProjectExtend([step] + rest[..last], rest[last], id);
    }
  }

  /** A position and the steps from it: each worker visits exactly the points it has left. */
  ghost predicate Finishes(sc: Scenario, next: seq<nat>, steps: seq<Step>)
    requires Position(sc, next)
  {
    && (forall k :: 0 <= k < |steps| ==> Known(sc, steps[k].worker))
    && (forall w :: 0 <= w < |next| ==> VisitsRest(sc, next, steps, w))
  }

  ghost predicate VisitsRest(sc: Scenario, next: seq<nat>, steps: seq<Step>, w: nat)
    requires Position(sc, next) && w < |next|
  {
    Project(steps, sc.workers[w].id) == sc.points[next[w]..]
  }

  lemma IndexWordFront(sc: Scenario, step: Step, rest: seq<Step>)
    ensures IndexWord(sc, [step] + rest) == [IndexOf(sc.workers, step.worker)] + IndexWord(sc, rest)
  {}

  lemma {:induction false} SpellFinishes(sc: Scenario, next: seq<nat>, word: Word)
    requires Distinct(WorkerIds(sc.workers))
    requires Position(sc, next) && Spells(word, Remaining(sc, next))
    ensures Finishes(sc, next, Spell(sc, next, word))
    decreases |word|
  {
    if word == [] {
      forall w | 0 <= w < |next| ensures VisitsRest(sc, next, [], w) {
        assert Occurrences(word, w) == Remaining(sc, next)[w];
      }
    } else {
      var a, rest := word[0], word[1..];
      assert word == [a] + rest;
      SpellStep(sc, next, a, rest);
      var steps := Spell(sc, next, word);
      SpellFinishes(sc, next[a := next[a] + 1], rest);
      assert steps[1..] == Spell(sc, next[a := next[a] + 1], rest);
      FinishStep(sc, next, a, steps);
    }
  }

  lemma {:induction false} SpelledWord(sc: Scenario, next: seq<nat>, word: Word)
    requires Distinct(WorkerIds(sc.workers))
    requires Position(sc, next) && Spells(word, Remaining(sc, next))
    ensures IndexWord(sc, Spell(sc, next, word)) == word
    decreases |word|
  {
    if word != [] {
      var a, rest := word[0], word[1..];
      assert word == [a] + rest;
      SpellStep(sc, next, a, rest);
      var next' := next[a := next[a] + 1];
      SpelledWord(sc, next', rest);
      IndexOfWorker(sc, a);
      IndexWordFront(sc, Step(sc.workers[a].id, sc.points[next[a]]), Spell(sc, next', rest));
    }
  }

  /** Finishing from a position, one step at a time. */
  lemma FinishStep(sc: Scenario, next: seq<nat>, a: nat, steps: seq<Step>)
    requires Distinct(WorkerIds(sc.workers)) && Position(sc, next)
    requires steps != [] && a < |next| && steps[0].worker == sc.workers[a].id
    ensures Finishes(sc, next, steps) <==>
            && next[a] < |sc.points| && steps[0].point == sc.points[next[a]]
            && Finishes(sc, next[a := next[a] + (if next[a] < |sc.points| then 1 else 0)], steps[1..])
  {
    var rest := steps[1..];
    IndexOfWorker(sc, a);
    KnownSteps(sc, steps);
    if next[a] < |sc.points| {
      var next' := next[a := next[a] + 1];
      OwnVisit(sc, next, a, steps);
      forall w | 0 <= w < |next| && w != a
        ensures VisitsRest(sc, next, steps, w) <==> VisitsRest(sc, next', rest, w)
      {
        OtherVisit(sc, next, a, w, steps);
      }
    } else {
      assert steps == [steps[0]] + rest;
      ProjectFront(steps[0], rest, sc.workers[a].id);
      assert !VisitsRest(sc, next, steps, a);
    }
  }

  lemma KnownSteps(sc: Scenario, steps: seq<Step>)
    requires steps != [] && Known(sc, steps[0].worker)
    ensures (forall k :: 0 <= k < |steps| ==> Known(sc, steps[k].worker))
       <==> (forall k :: 0 <= k < |steps[1..]| ==> Known(sc, steps[1..][k].worker))
  {
    assert forall k :: 0 < k < |steps| ==> steps[k] == steps[1..][k - 1];
  }

  lemma OwnVisit(sc: Scenario, next: seq<nat>, a: nat, steps: seq<Step>)
    requires Position(sc, next) && steps != []
    requires a < |next| && next[a] < |sc.points| && steps[0].worker == sc.workers[a].id
    ensures VisitsRest(sc, next, steps, a) <==>
            steps[0].point == sc.points[next[a]] && VisitsRest(sc, next[a := next[a] + 1], steps[1..], a)
  {
    var rest := steps[1..];
    assert steps == [steps[0]] + rest;
    ProjectFront(steps[0], rest, sc.workers[a].id);
    assert sc.points[next[a]..] == [sc.points[next[a]]] + sc.points[next[a] + 1..];
    PeelEqual(steps[0].point, Project(rest, sc.workers[a].id), sc.points[next[a] + 1..]);
  }

  lemma OtherVisit(sc: Scenario, next: seq<nat>, a: nat, w: nat, steps: seq<Step>)
    requires Distinct(WorkerIds(sc.workers)) && Position(sc, next) && steps != []
    requires a < |next| && next[a] < |sc.points| && steps[0].worker == sc.workers[a].id
    requires w < |next| && w != a
    ensures VisitsRest(sc, next, steps, w) <==> VisitsRest(sc, next[a := next[a] + 1], steps[1..], w)
  {
    assert steps == [steps[0]] + steps[1..];
    ProjectFront(steps[0], steps[1..], sc.workers[w].id);
    assert WorkerIds(sc.workers)[a] != WorkerIds(sc.workers)[w];
  }

  lemma PeelEqual<T(!new)>(x: T, a: seq<T>, b: seq<T>)
    ensures forall y :: [x] + a == [y] + b <==> x == y && a == b
  {
    forall y | [x] + a == [y] + b ensures x == y && a == b {
      assert ([x] + a)[0] == ([y] + b)[0];
      assert a == ([x] + a)[1..] == ([y] + b)[1..] == b;
    }
  }

  lemma {:induction false} OccurrencesAreVisits(sc: Scenario, steps: seq<Step>, w: nat)
    requires Distinct(WorkerIds(sc.workers)) && w < |sc.workers|
    requires forall k :: 0 <= k < |steps| ==> Known(sc, steps[k].worker)
    ensures Occurrences(IndexWord(sc, steps), w) == |Project(steps, sc.workers[w].id)|
  {
    if steps != [] {
      var rest := steps[1..];
      assert forall k :: 0 <= k < |rest| ==> rest[k] == steps[k + 1];
      OccurrencesAreVisits(sc, rest, w);
      assert steps == [steps[0]] + rest;
      IndexWordFront(sc, steps[0], rest);
      ProjectFront(steps[0], rest, sc.workers[w].id);
      SameIndexSameWorker(sc, steps[0].worker, w);
      OccurrencesFront(IndexOf(sc.workers, steps[0].worker), IndexWord(sc, rest), w);
    }
  }

  lemma SameIndexSameWorker(sc: Scenario, id: string, w: nat)
    requires Distinct(WorkerIds(sc.workers)) && w < |sc.workers| && Known(sc, id)
    ensures IndexOf(sc.workers, id) == w <==> id == sc.workers[w].id
  {
    IndexOfKnown(sc, id);
    IndexOfWorker(sc, w);
  }

  lemma OccurrencesFront(a: nat, rest: Word, w: nat)
    ensures Occurrences([a] + rest, w) == (if a == w then 1 else 0) + Occurrences(rest, w)
  {
    assert ([a] + rest)[1..] == rest;
  }

  lemma FinishesSpells(sc: Scenario, next: seq<nat>, steps: seq<Step>)
    requires Distinct(WorkerIds(sc.workers)) && Position(sc, next) && Finishes(sc, next, steps)
    ensures Spells(IndexWord(sc, steps), Remaining(sc, next))
  {
    var word := IndexWord(sc, steps);
    forall k | 0 <= k < |word| ensures word[k] < |next| {
      IndexOfKnown(sc, steps[k].worker);
    }
    forall w | 0 <= w < |next| ensures Occurrences(word, w) == Remaining(sc, next)[w] {
      OccurrencesAreVisits(sc, steps, w);
      assert VisitsRest(sc, next, steps, w);
    }
  }

  /** Every way to finish from a position is spelled by its own word of worker indices. */
  lemma {:induction false} FinishesIsSpelled(sc: Scenario, next: seq<nat>, steps: seq<Step>)
    requires Distinct(WorkerIds(sc.workers)) && Position(sc, next) && Finishes(sc, next, steps)
    ensures Spells(IndexWord(sc, steps), Remaining(sc, next))
    ensures Spell(sc, next, IndexWord(sc, steps)) == steps
    decreases |steps|
  {
    FinishesSpells(sc, next, steps);
    if steps != [] {
      var a := IndexOf(sc.workers, steps[0].worker);
      IndexOfKnown(sc, steps[0].worker);
      FinishStep(sc, next, a, steps);
      var rest := steps[1..];
      FinishesIsSpelled(sc, next[a := next[a] + 1], rest);
      assert steps == [steps[0]] + rest;
      IndexWordFront(sc, steps[0], rest);
      SpellStep(sc, next, a, IndexWord(sc, rest));
    }
  }

  // ----- The enumeration -----

  function MakeSchedule(digest: Digest, steps: seq<Step>): Schedule {
    Schedule(ContentID(digest, steps), steps)
  }

  /** The schedules that complete some steps already taken, one for each word. */
  function Completions(sc: Scenario, digest: Digest, steps: seq<Step>, next: seq<nat>, words: seq<Word>)
    : (r: seq<Schedule>)
    requires Position(sc, next)
    requires forall i :: 0 <= i < |words| ==> Spells(words[i], Remaining(sc, next))
    ensures |r| == |words|
    ensures forall i :: 0 <= i < |r| ==> r[i] == MakeSchedule(digest, steps + Spell(sc, next, words[i]))
  {
    seq(|words|, i requires 0 <= i < |words| => MakeSchedule(digest, steps + Spell(sc, next, words[i])))
  }

  lemma WordsSpell(remaining: seq<nat>)
    ensures forall i :: 0 <= i < |Words(remaining)| ==> Spells(Words(remaining)[i], remaining)
  {
    forall i | 0 <= i < |Words(remaining)| ensures Spells(Words(remaining)[i], remaining) {
      assert Words(remaining)[i] in Words(remaining);
      WordsAreSpellings(Words(remaining)[i], remaining);
    }
  }

  /** Every schedule that completes some steps already taken. */
  function AllCompletions(sc: Scenario, digest: Digest, steps: seq<Step>, next: seq<nat>): seq<Schedule>
    requires Position(sc, next)
  {
    WordsSpell(Remaining(sc, next));
    Completions(sc, digest, steps, next, Words(Remaining(sc, next)))
  }

  /** Every schedule of a scenario, in lexicographic worker-index order. */
  function AllSchedules(sc: Scenario, digest: Digest): seq<Schedule> {
    AllCompletions(sc, digest, [], Repeat(0, |sc.workers|))
  }

  lemma InterleavingFinishes(sc: Scenario, steps: seq<Step>)
    ensures Interleaving(sc, steps) <==> Finishes(sc, Repeat(0, |sc.workers|), steps)
  {
    assert sc.points[0..] == sc.points;
    forall w | 0 <= w < |sc.workers| ensures Known(sc, sc.workers[w].id) {
      assert WorkerIds(sc.workers)[w] == sc.workers[w].id;
    }
    if Finishes(sc, Repeat(0, |sc.workers|), steps) {
      forall id | Known(sc, id) ensures Project(steps, id) == sc.points {
        var w :| 0 <= w < |sc.workers| && WorkerIds(sc.workers)[w] == id;
        assert VisitsRest(sc, Repeat(0, |sc.workers|), steps, w);
      }
    }
  }

  /** The enumeration lists exactly the schedules that validation accepts. */
  lemma EnumerationIsExact(sc: Scenario, digest: Digest, schedule: Schedule)
    requires ValidScenario(sc)
    ensures schedule in AllSchedules(sc, digest) <==> Accepted(sc, schedule, digest)
  {
    if schedule in AllSchedules(sc, digest) {
      ListedIsAccepted(sc, digest, schedule);
    }
    if Accepted(sc, schedule, digest) {
      AcceptedIsListed(sc, digest, schedule);
    }
  }

  lemma ListedIsAccepted(sc: Scenario, digest: Digest, schedule: Schedule)
    requires ValidScenario(sc) && schedule in AllSchedules(sc, digest)
    ensures Accepted(sc, schedule, digest)
  {
    var next := Repeat(0, |sc.workers|);
    var words := Words(Remaining(sc, next));
    WordsSpell(Remaining(sc, next));
    var i :| 0 <= i < |AllSchedules(sc, digest)| && AllSchedules(sc, digest)[i] == schedule;
    SpellFinishes(sc, next, words[i]);
    assert schedule.steps == Spell(sc, next, words[i]);
    InterleavingFinishes(sc, schedule.steps);
  }

  lemma AcceptedIsListed(sc: Scenario, digest: Digest, schedule: Schedule)
    requires Accepted(sc, schedule, digest)
    ensures schedule in AllSchedules(sc, digest)
  {
    var next := Repeat(0, |sc.workers|);
    var word := IndexWord(sc, schedule.steps);
    InterleavingFinishes(sc, schedule.steps);
    FinishesIsSpelled(sc, next, schedule.steps);
    WordsAreSpellings(word, Remaining(sc, next));
    WordsSpell(Remaining(sc, next));
    var i :| 0 <= i < |Words(Remaining(sc, next))| && Words(Remaining(sc, next))[i] == word;
    assert [] + Spell(sc, next, word) == schedule.steps;
    assert AllSchedules(sc, digest)[i] == schedule;
  }

  /** The enumeration is strictly increasing in worker-index order, so it lists nothing twice. */
  lemma EnumerationIsSorted(sc: Scenario, digest: Digest, i: nat, j: nat)
    requires ValidScenario(sc) && i < j < |AllSchedules(sc, digest)|
    ensures LexLess(IndexWord(sc, AllSchedules(sc, digest)[i].steps), IndexWord(sc, AllSchedules(sc, digest)[j].steps))
    ensures AllSchedules(sc, digest)[i] != AllSchedules(sc, digest)[j]
  {
    ScheduleWord(sc, digest, i);
    ScheduleWord(sc, digest, j);
    WordsAreSorted(Remaining(sc, Repeat(0, |sc.workers|)));
    LexLessIrreflexive(IndexWord(sc, AllSchedules(sc, digest)[i].steps));
  }

  lemma ScheduleWord(sc: Scenario, digest: Digest, i: nat)
    requires ValidScenario(sc) && i < |AllSchedules(sc, digest)|
    ensures IndexWord(sc, AllSchedules(sc, digest)[i].steps) == Words(Remaining(sc, Repeat(0, |sc.workers|)))[i]
  {
    var next := Repeat(0, |sc.workers|);
    var words := Words(Remaining(sc, next));
    WordsSpell(Remaining(sc, next));
    SpelledWord(sc, next, words[i]);
    assert [] + Spell(sc, next, words[i]) == Spell(sc, next, words[i]);
  }

  // ----- Counting without enumerating -----

  function Power(base: nat, exponent: nat): (p: nat)
    ensures base > 0 ==> p > 0
  {
    if exponent == 0 then 1 else Product(base, Power(base, exponent - 1))
  }

  /** The letter counts after some whole workers and part of the next one. */
  function Partial(points: nat, workers: nat, part: nat): (r: seq<nat>)
    ensures |r| == workers + 1
  {
    Repeat(points, workers) + [part]
  }

  /** How many interleavings there are of that many points. */
  function PartialCount(points: nat, workers: nat, part: nat): nat {
    |Words(Partial(points, workers, part))|
  }

  lemma {:induction false} SumSnoc(s: seq<nat>, x: nat)
    ensures Sum(s + [x]) == Sum(s) + x
  {
    if s == [] {
      assert [x][1..] == [];
    } else {
      assert (s + [x])[1..] == s[1..] + [x];
      SumSnoc(s[1..], x);
    }
  }

  lemma {:induction false} FactorialProductSnoc(s: seq<nat>, x: nat)
    ensures FactorialProduct(s + [x]) == Product(FactorialProduct(s), Factorial(x))
  {
    if s == [] {
      assert [x][1..] == [];
    } else {
      assert (s + [x])[1..] == s[1..] + [x];
      FactorialProductSnoc(s[1..], x);
      Associate(Factorial(s[0]), FactorialProduct(s[1..]), Factorial(x));
    }
  }

  lemma {:induction false} RepeatTotals(points: nat, workers: nat)
    ensures Sum(Repeat(points, workers)) == workers * points
    ensures FactorialProduct(Repeat(points, workers)) == Power(Factorial(points), workers)
  {
    if workers > 0 {
      RepeatTotals(points, workers - 1);
      assert Repeat(points, workers)[1..] == Repeat(points, workers - 1);
      Times(workers - 1, points);
    }
  }

  /** The partial count is (workers * points + part)! / (points!^workers * part!). */
  lemma PartialCountLaw(points: nat, workers: nat, part: nat)
    ensures Product(PartialCount(points, workers, part), Product(Power(Factorial(points), workers), Factorial(part)))
         == Factorial(workers * points + part)
  {
    WordCount(Partial(points, workers, part));
    RepeatTotals(points, workers);
    SumSnoc(Repeat(points, workers), part);
    FactorialProductSnoc(Repeat(points, workers), part);
  }

  lemma StrictProduct(a: nat, b: nat, c: nat)
    requires c > 0 && a < b
    ensures Product(a, c) < Product(b, c)
  {
    Positive(b - a, c);
    assert b * c == a * c + (b - a) * c;
  }

  lemma Cancel(a: nat, b: nat, c: nat)
    requires c > 0 && Product(a, c) == Product(b, c)
    ensures a == b
  {
    if a < b {
      StrictProduct(a, b, c);
    } else if b < a {
      StrictProduct(b, a, c);
    }
  }

  /** One multiply-then-divide step of the counter is exact. */
  lemma CountStepIsExact(points: nat, workers: nat, part: nat)
    requires part > 0
    ensures Product(PartialCount(points, workers, part - 1), workers * points + part)
         == Product(PartialCount(points, workers, part), part)
  {
    var before, after := PartialCount(points, workers, part - 1), PartialCount(points, workers, part);
    PartialCountLaw(points, workers, part - 1);
    PartialCountLaw(points, workers, part);
    Rearrange(before, after, workers * points + part, part, Power(Factorial(points), workers), Factorial(part - 1));
  }

  lemma Rearrange(before: nat, after: nat, total: nat, part: nat, base: nat, factorial: nat)
    requires base > 0 && factorial > 0
    requires Product(total, Product(before, Product(base, factorial)))
          == Product(after, Product(base, Product(part, factorial)))
    ensures Product(before, total) == Product(after, part)
  {
    var unit := Product(base, factorial);
    calc {
      Product(Product(before, total), unit);
      { Associate(before, total, unit); Swap(before, total, unit); }
      Product(total, Product(before, unit));
      Product(after, Product(base, Product(part, factorial)));
      { Swap(base, part, factorial); Associate(after, part, unit); }
      Product(Product(after, part), unit);
    }
    Cancel(Product(before, total), Product(after, part), unit);
  }

  /** Partial counts never decrease, so exceeding the limit early is exceeding it in the end. */
  lemma {:induction false} CountGrows(points: nat, workers: nat, part: nat, final: nat)
    requires workers <= final && part <= points
    ensures PartialCount(points, workers, part) <= PartialCount(points, final, points)
    decreases final - workers, points - part
  {
    if part < points {
      CountStepIsExact(points, workers, part + 1);
      var before, after := PartialCount(points, workers, part), PartialCount(points, workers, part + 1);
      Ratio(before, after, workers * points + part + 1, part + 1);
      CountGrows(points, workers, part + 1, final);
    } else if workers < final {
      CountCarries(points, workers + 1);
      CountGrows(points, workers + 1, 0, final);
    }
  }

  lemma Ratio(before: nat, after: nat, total: nat, part: nat)
    requires 0 < part <= total && Product(before, total) == Product(after, part)
    ensures before <= after
  {
    assert before * part <= before * total;
    if after < before {
      StrictProduct(after, before, part);
    }
  }

  /** Starting the next worker changes nothing. */
  lemma CountCarries(points: nat, workers: nat)
    requires workers > 0
    ensures PartialCount(points, workers, 0) == PartialCount(points, workers - 1, points)
    ensures Partial(points, workers - 1, points) == Repeat(points, workers)
  {
    PartialCountLaw(points, workers, 0);
    PartialCountLaw(points, workers - 1, points);
    Times(workers - 1, points);
    CarryUnit(PartialCount(points, workers, 0), Factorial(points), Power(Factorial(points), workers - 1));
    Cancel(PartialCount(points, workers, 0), PartialCount(points, workers - 1, points),
           Product(Power(Factorial(points), workers - 1), Factorial(points)));
    assert Partial(points, workers - 1, points) == Repeat(points, workers);
  }

  lemma CarryUnit(count: nat, base: nat, power: nat)
    ensures Product(count, Product(Product(base, power), Factorial(0))) == Product(count, Product(power, base))
  {
    assert Factorial(0) == 1;
    assert Product(Product(base, power), 1) == Product(base, power) == Product(power, base);
  }

  lemma FirstCount(points: nat)
    ensures PartialCount(points, 0, points) == 1
  {
    PartialCountLaw(points, 0, points);
    Cancel(PartialCount(points, 0, points), 1, Factorial(points));
  }

  lemma AllSchedulesCount(sc: Scenario, digest: Digest)
    requires ValidScenario(sc)
    ensures |AllSchedules(sc, digest)| == PartialCount(|sc.points|, |sc.workers| - 1, |sc.points|)
  {
    CountCarries(|sc.points|, |sc.workers|);
    assert Remaining(sc, Repeat(0, |sc.workers|)) == Repeat(|sc.points|, |sc.workers|);
  }

  /** The number of schedules is (W*P)! / (P!)^W. */
  lemma MultinomialLaw(sc: Scenario, digest: Digest)
    requires ValidScenario(sc)
    ensures Product(|AllSchedules(sc, digest)|, Power(Factorial(|sc.points|), |sc.workers|))
         == Factorial(|sc.workers| * |sc.points|)
  {
    WordCount(Repeat(|sc.points|, |sc.workers|));
    RepeatTotals(|sc.points|, |sc.workers|);
    assert Remaining(sc, Repeat(0, |sc.workers|)) == Repeat(|sc.points|, |sc.workers|);
  }

  datatype CountResult = Count(count: nat) | BadScenario | BadLimit | MoreThanLimit

  /** Counts schedules by one multiplication and one exact division per point; stops as soon
      as a partial count exceeds the limit, which happens exactly when the total does. */
  method CandidateCount(sc: Scenario, max: int, ghost digest: Digest) returns (r: CountResult)
    ensures r == BadScenario <==> !ValidScenario(sc)
    ensures r == BadLimit <==> ValidScenario(sc) && max <= 0
    ensures r == MoreThanLimit <==> ValidScenario(sc) && 0 < max < |AllSchedules(sc, digest)|
    ensures r.Count? ==> r.count == |AllSchedules(sc, digest)| <= max
  {
    var valid := ValidateScenario(sc);
    if valid == None { return BadScenario; }
    if max <= 0 { return BadLimit; }
    var points := |sc.points|;
    var count := 1;
    FirstCount(points);
    AllSchedulesCount(sc, digest);
    for worker := 1 to |sc.workers|
      invariant count == PartialCount(points, worker - 1, points) <= max
    {
      CountCarries(points, worker);
      for point := 1 to points + 1
        invariant count == PartialCount(points, worker, point - 1) <= max
      {
        CountStepIsExact(points, worker, point);
        CountGrows(points, worker, point, |sc.workers| - 1);
        count := count * (worker * points + point);
        Exact(count, PartialCount(points, worker, point), point);
        count := count / point;
        if count > max { return MoreThanLimit; }
      }
    }
    return Count(count);
  }

  lemma Exact(dividend: nat, quotient: nat, divisor: nat)
    requires divisor > 0 && dividend == Product(quotient, divisor)
    ensures dividend % divisor == 0 && dividend / divisor == quotient
  {
    var q := dividend / divisor;
    assert dividend == q * divisor + dividend % divisor;
    assert (q + 1) * divisor == q * divisor + divisor;
    if q < quotient {
      if q + 1 < quotient { StrictProduct(q + 1, quotient, divisor); }
    } else if quotient < q {
      StrictProduct(quotient, q, divisor);
    }
  }
}
