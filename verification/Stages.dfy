/** Nested timing spans and the time they cover
    (experiments/control-comparison/runner/analyze.py).  Arithmetic is exact. */
module Stages {
  import C = Collections

  datatype Span = Span(id: int, parent: int, name: string, start: int, duration: int)

  datatype Interval = Interval(start: int, end: int)

  datatype Fault =
    | BadSeconds
    | NoRoot
    | BadValue
    | BadRoot
    | TooLong
    | BadHierarchy
    | BadInterval
    | OutsideParent
    | NegativeRemainder

  datatype Result =
    | Missing
    | Covered(union: nat, remainder: real, durations: map<string, seq<real>>)
    | Rejected(fault: Fault)

  const NANOS := 1000000000.0

  predicate IsCommand(s: Span) {
    s.name == "command"
  }

  function Commands(spans: seq<Span>): seq<Span> {
    if spans == [] then []
    else Commands(spans[..|spans| - 1]) + if IsCommand(spans[|spans| - 1]) then [spans[|spans| - 1]] else []
  }

  /** Spans that only group others do not cover time themselves. */
  predicate Groups(s: Span) {
    s.name == "command" || s.name == "execution" || s.name == "schedule_run" || s.name == "replay"
    || s.name == "explore_pass"
  }

  function End(s: Span): int {
    s.start + s.duration
  }

  function Intervals(spans: seq<Span>): seq<Interval> {
    if spans == [] then []
    else
      var last := spans[|spans| - 1];
      Intervals(spans[..|spans| - 1]) + if Groups(last) then [] else [Interval(last.start, End(last))]
  }

  // ----- Accepted span trees -----

  predicate Plain(s: Span) {
    s.id >= 0 && s.parent >= 0 && s.start >= 0 && s.duration >= 0
  }

  predicate Within(s: Span, outer: Span) {
    outer.start <= s.start && End(s) <= End(outer)
  }

  /** Span i is numbered in order, lies in the root's time, and lies in its parent. */
  predicate Nested(spans: seq<Span>, root: Span, i: nat)
    requires i < |spans|
  {
    var s := spans[i];
    && s.id == i + 1 && 0 <= s.parent < s.id && (i > 0 ==> s.parent > 0)
    && Within(s, root)
    && (s.parent > 0 ==> s.parent <= |spans| && Within(s, spans[s.parent - 1]))
  }

  ghost predicate ValidTree(spans: seq<Span>, seconds: real) {
    && seconds >= 0.0
    && |Commands(spans)| == 1
    && var root := Commands(spans)[0];
       && (forall i :: 0 <= i < |spans| ==> Plain(spans[i]))
       && root.id == 1 && root.parent == 0
       && root.duration as real / NANOS <= seconds
       && forall i :: 0 <= i < |spans| ==> Nested(spans, root, i)
  }

  // ----- Durations by name -----

  function Seconds(nanos: int): real {
    nanos as real / NANOS
  }

  /** The durations of the spans of this name, in order. */
  function DurationsOf(spans: seq<Span>, name: string): seq<real> {
    if spans == [] then []
    else
      var last := spans[|spans| - 1];
      DurationsOf(spans[..|spans| - 1], name) + if last.name == name then [Seconds(last.duration)] else []
  }

  predicate ListsName(spans: seq<Span>, durations: map<string, seq<real>>, name: string) {
    if name in durations then durations[name] == DurationsOf(spans, name) != [] else DurationsOf(spans, name) == []
  }

  /** durations lists the durations of every name that occurs. */
  ghost predicate Lists(spans: seq<Span>, durations: map<string, seq<real>>) {
    forall name :: ListsName(spans, durations, name)
  }

  /** The durations once one more span is listed. */
  function Listed(durations: map<string, seq<real>>, s: Span): map<string, seq<real>> {
    durations[s.name := (if s.name in durations then durations[s.name] else []) + [Seconds(s.duration)]]
  }

  lemma ListOne(spans: seq<Span>, durations: map<string, seq<real>>, s: Span)
    requires Lists(spans, durations)
    ensures Lists(spans + [s], Listed(durations, s))
  {
    assert (spans + [s])[..|spans|] == spans;
    forall name ensures ListsName(spans + [s], Listed(durations, s), name) {
      assert ListsName(spans, durations, name);
    }
  }

  // ----- The nanoseconds that are covered -----

  predicate Covers(i: Interval, x: int) {
    i.start <= x < i.end
  }

  ghost predicate SomeCovers(intervals: seq<Interval>, x: int) {
    exists i :: 0 <= i < |intervals| && Covers(intervals[i], x)
  }

  /** The covered nanoseconds from low up to high. */
  ghost function CoveredSet(intervals: seq<Interval>, low: int, high: int): set<int> {
    set x: int | low <= x < high && SomeCovers(intervals, x)
  }

  predicate Between(x: int, low: int, high: int) {
    low <= x < high
  }

  ghost function Range(low: int, high: int): set<int> {
    set x: int | low <= x < high && Between(x, low, high)
  }

  lemma {:induction false} RangeSize(low: int, high: int)
    requires low <= high
    ensures |Range(low, high)| == high - low
    decreases high - low
  {
    if low == high {
      assert Range(low, high) == {};
    } else {
      RangeSize(low, high - 1);
      assert Range(low, high) == Range(low, high - 1) + {high - 1};
    }
  }

  predicate AtMost(a: Interval, b: Interval) {
    a.start < b.start || (a.start == b.start && a.end <= b.end)
  }

  ghost predicate Ordered(s: seq<Interval>) {
    forall i, j :: 0 <= i < j < |s| ==> AtMost(s[i], s[j])
  }

  lemma SortedIsSound(s: seq<Interval>)
    ensures Ordered(C.Sort(AtMost, s))
    ensures forall y :: y in C.Sort(AtMost, s) <==> y in s
  {
    C.SortOrders(AtMost, s);
    assert C.Ordered(AtMost, C.Sort(AtMost, s));
    forall y ensures y in C.Sort(AtMost, s) <==> y in s {
      assert y in multiset(C.Sort(AtMost, s)) <==> y in multiset(s);
    }
  }

  ghost predicate Inside(intervals: seq<Interval>, low: int, high: int) {
    forall i :: 0 <= i < |intervals| ==> low <= intervals[i].start <= intervals[i].end <= high
  }

  /** The union so far and how far it reaches. */
  ghost predicate Unites(done: seq<Interval>, low: int, union: int, previous: int) {
    && low <= previous
    && union == |CoveredSet(done, low, previous)|
    && (forall i :: 0 <= i < |done| ==> done[i].end <= previous)
    && (previous == low || exists i :: 0 <= i < |done| && done[i].end == previous)
  }

  /** Counting one more interval in order of starts. */
  lemma UniteOne(done: seq<Interval>, low: int, union: int, previous: int, next: Interval)
    requires Unites(done, low, union, previous)
    requires low <= next.start <= next.end
    requires forall i :: 0 <= i < |done| ==> done[i].start <= next.start
    ensures var from := if next.start > previous then next.start else previous;
            var gain := if next.end > from then next.end - from else 0;
            Unites(done + [next], low, union + gain, if next.end > previous then next.end else previous)
  {
    var from := if next.start > previous then next.start else previous;
    var reach := if next.end > previous then next.end else previous;
    var all := done + [next];
    var before, added := CoveredSet(done, low, previous), Range(from, next.end);
    if next.end > from {
      RangeSize(from, next.end);
    } else {
      assert added == {};
    }
    forall x ensures x in CoveredSet(all, low, reach) <==> x in before || x in added {
      OneMoreCovers(done, low, previous, next, x);
    }
    assert CoveredSet(all, low, reach) == before + added;
    assert before !! added;
    assert all[|done|] == next;
    if previous != low {
      var i :| 0 <= i < |done| && done[i].end == previous;
      assert all[i] == done[i];
    }
  }

  lemma UniteNext(sorted: seq<Interval>, k: nat, low: int, union: int, previous: int)
    requires k < |sorted| && Ordered(sorted) && Unites(sorted[..k], low, union, previous)
    requires low <= sorted[k].start <= sorted[k].end
    ensures var next := sorted[k];
            var from := if next.start > previous then next.start else previous;
            var gain := if next.end > from then next.end - from else 0;
            Unites(sorted[..k + 1], low, union + gain, if next.end > previous then next.end else previous)
  {
    assert forall i :: 0 <= i < k ==> AtMost(sorted[i], sorted[k]);
    UniteOne(sorted[..k], low, union, previous, sorted[k]);
    assert sorted[..k + 1] == sorted[..k] + [sorted[k]];
  }

  lemma OneMoreCovers(done: seq<Interval>, low: int, previous: int, next: Interval, x: int)
    requires low <= previous && low <= next.start <= next.end
    requires forall i :: 0 <= i < |done| ==> done[i].end <= previous
    requires previous == low || exists i :: 0 <= i < |done| && done[i].end == previous
    requires forall i :: 0 <= i < |done| ==> done[i].start <= next.start
    ensures var from := if next.start > previous then next.start else previous;
            var reach := if next.end > previous then next.end else previous;
            (low <= x < reach && SomeCovers(done + [next], x))
            <==> (low <= x < previous && SomeCovers(done, x)) || from <= x < next.end
  {
    var all := done + [next];
    assert all[|done|] == next;
    if SomeCovers(done, x) {
      var i :| 0 <= i < |done| && Covers(done[i], x);
      assert Covers(all[i], x);
    }
    if SomeCovers(all, x) {
      var i :| 0 <= i < |all| && Covers(all[i], x);
      if i < |done| {
        assert Covers(done[i], x);
      } else if previous != low && x < previous {
        var j :| 0 <= j < |done| && done[j].end == previous;
        assert Covers(done[j], x);
      }
    }
    if Covers(next, x) {
      assert Covers(all[|done|], x);
    }
  }

  lemma SameCover(a: seq<Interval>, b: seq<Interval>, low: int, high: int)
    requires forall y :: y in a <==> y in b
    ensures CoveredSet(a, low, high) == CoveredSet(b, low, high)
  {
    forall x ensures SomeCovers(a, x) <==> SomeCovers(b, x) {
      if SomeCovers(a, x) {
        var i :| 0 <= i < |a| && Covers(a[i], x);
        assert a[i] in b;
      }
      if SomeCovers(b, x) {
        var i :| 0 <= i < |b| && Covers(b[i], x);
        assert b[i] in a;
      }
    }
  }

  lemma CoveredUpTo(intervals: seq<Interval>, low: int, previous: int, high: int)
    requires previous <= high && forall i :: 0 <= i < |intervals| ==> intervals[i].end <= previous
    ensures CoveredSet(intervals, low, previous) == CoveredSet(intervals, low, high)
  {
  }

  lemma CoverFits(intervals: seq<Interval>, low: int, high: int)
    requires low <= high
    ensures |CoveredSet(intervals, low, high)| <= high - low
  {
    RangeSize(low, high);
    C.SubsetSize(CoveredSet(intervals, low, high), Range(low, high));
  }

  /** The union length of intervals is the number of nanoseconds that any of them covers. */
  method UnionLength(intervals: seq<Interval>, low: int, high: int) returns (union: nat)
    requires low <= high && Inside(intervals, low, high)
    ensures union == |CoveredSet(intervals, low, high)| <= high - low
  {
    var sorted := C.Sort(AtMost, intervals);
    SortedIsSound(intervals);
    union := 0;
    var previous := low;
    assert CoveredSet([], low, low) == {};
    for k := 0 to |sorted|
      invariant Unites(sorted[..k], low, union, previous) && previous <= high
    {
      assert sorted[k] in intervals;
      UniteNext(sorted, k, low, union, previous);
      var a, b := sorted[k].start, sorted[k].end;
      var from := if a > previous then a else previous;
      union := union + if b > from then b - from else 0;
      previous := if b > previous then b else previous;
    }
    assert sorted[..|sorted|] == sorted;
    CoveredUpTo(sorted, low, previous, high);
    SameCover(sorted, intervals, low, high);
    CoverFits(intervals, low, high);
  }

  lemma {:induction false} IntervalsInside(spans: seq<Span>, root: Span)
    requires forall i :: 0 <= i < |spans| ==> Plain(spans[i]) && Within(spans[i], root)
    ensures Inside(Intervals(spans), root.start, End(root))
  {
    if spans != [] {
      IntervalsInside(spans[..|spans| - 1], root);
    }
  }

  lemma {:induction false} CommandsAreSpans(spans: seq<Span>)
    ensures forall i :: 0 <= i < |Commands(spans)| ==> Commands(spans)[i] in spans
  {
    if spans != [] {
      CommandsAreSpans(spans[..|spans| - 1]);
      assert spans == spans[..|spans| - 1] + [spans[|spans| - 1]];
    }
  }

  /** Checks one span against the tree. */
  method CheckSpan(spans: seq<Span>, root: Span, i: nat) returns (fault: Fault, ok: bool)
    requires i < |spans| && Plain(spans[i])
    ensures ok == Nested(spans, root, i)
    ensures fault != NegativeRemainder
  {
    var s := spans[i];
    if s.id != i + 1 || !(0 <= s.parent < s.id) {
      return BadHierarchy, false;
    }
    if i > 0 && s.parent == 0 {
      return BadHierarchy, false;
    }
    if !Within(s, root) {
      return BadInterval, false;
    }
    if s.parent > 0 {
      var parent := spans[s.parent - 1];
      if !Within(s, parent) {
        return OutsideParent, false;
      }
    }
    return BadHierarchy, true;
  }

  /** Checks every span and lists its duration. */
  method CheckSpans(spans: seq<Span>, root: Span) returns (fault: Fault, ok: bool, durations: map<string, seq<real>>)
    requires forall i :: 0 <= i < |spans| ==> Plain(spans[i])
    ensures ok <==> forall i :: 0 <= i < |spans| ==> Nested(spans, root, i)
    ensures ok ==> Lists(spans, durations)
    ensures fault != NegativeRemainder
  {
    fault, ok, durations := BadHierarchy, true, map[];
    assert forall name :: ListsName(spans[..0], durations, name);
    for i := 0 to |spans|
      invariant forall j :: 0 <= j < i ==> Nested(spans, root, j)
      invariant Lists(spans[..i], durations)
      invariant ok && fault != NegativeRemainder
    {
      fault, ok := CheckSpan(spans, root, i);
      if !ok {
        return;
      }
      ListOne(spans[..i], durations, spans[i]);
      assert spans[..i + 1] == spans[..i] + [spans[i]];
      durations := Listed(durations, spans[i]);
    }
    assert spans[..|spans|] == spans;
  }

  /** Accepts exactly the valid span trees.  The union is the number of nanoseconds that
      some covering span covers, the remainder is never negative, and every span's duration
      is listed once under its name. */
  method Reduce(spans: seq<Span>, seconds: real, allowMissing: bool) returns (r: Result)
    ensures r.Covered? <==> ValidTree(spans, seconds)
    ensures r == Missing <==> seconds >= 0.0 && allowMissing && spans == []
    ensures r.Covered? ==>
      var root := Commands(spans)[0];
      && r.union == |CoveredSet(Intervals(spans), root.start, End(root))| <= root.duration
      && r.remainder == seconds - r.union as real / NANOS >= 0.0
      && Lists(spans, r.durations)
    ensures r != Rejected(NegativeRemainder)
  {
    if seconds < 0.0 {
      return Rejected(BadSeconds);
    }
    if allowMissing && |spans| == 0 {
      return Missing;
    }
    var roots := Commands(spans);
    if |roots| != 1 {
      return Rejected(NoRoot);
    }
    var root := roots[0];
    for i := 0 to |spans|
      invariant forall j :: 0 <= j < i ==> Plain(spans[j])
    {
      if !Plain(spans[i]) {
        return Rejected(BadValue);
      }
    }
    if root.id != 1 || root.parent != 0 {
      return Rejected(BadRoot);
    }
    if root.duration as real / NANOS > seconds {
      return Rejected(TooLong);
    }
    var fault, ok, durations := CheckSpans(spans, root);
    if !ok {
      return Rejected(fault);
    }
    CommandsAreSpans(spans);
    assert root in spans;
    assert Plain(root);
    forall i | 0 <= i < |spans| ensures Within(spans[i], root) {
      assert Nested(spans, root, i);
    }
    IntervalsInside(spans, root);
    var union := UnionLength(Intervals(spans), root.start, End(root));
    var remainder := seconds - union as real / NANOS;
    if remainder < 0.0 {
      return Rejected(NegativeRemainder);
    }
    r := Covered(union, remainder, durations);
  }
}
