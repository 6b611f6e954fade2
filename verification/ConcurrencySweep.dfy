/** Peak runner concurrency by an event sweep
    (experiments/gate-performance/harness/ci.py). */
module ConcurrencySweep {
  import C = Collections

  /** A job's time on its runner, closed at the start and open at the end. */
  datatype Interval = Interval(start: real, end: real)

  /** delta is 1 for a start and -1 for an end. */
  datatype Event = Event(time: real, delta: int)

  predicate Covers(i: Interval, t: real) {
    i.start <= t < i.end
  }

  /** How many intervals contain instant t. */
  function Cover(intervals: seq<Interval>, t: real): nat {
    if intervals == [] then 0
    else Cover(intervals[..|intervals| - 1], t) + if Covers(intervals[|intervals| - 1], t) then 1 else 0
  }

  function Events(intervals: seq<Interval>): seq<Event> {
    if intervals == [] then []
    else
      var last := intervals[|intervals| - 1];
      Events(intervals[..|intervals| - 1])
      + if last.end > last.start then [Event(last.start, 1), Event(last.end, -1)] else []
  }

  // ----- Sorting -----

  predicate AtMost(a: Event, b: Event) {
    a.time < b.time || (a.time == b.time && a.delta <= b.delta)
  }

  lemma AtMostOrders()
    ensures C.Orders(AtMost)
  {
  }

  ghost predicate Ordered(s: seq<Event>) {
    forall i, j :: 0 <= i < j < |s| ==> AtMost(s[i], s[j])
  }

  // ----- Sums of events -----

  function Sum(s: seq<Event>): int {
    if s == [] then 0 else Sum(s[..|s| - 1]) + s[|s| - 1].delta
  }

  /** The events that e has behind it or at its side. */
  function Level(s: seq<Event>, e: Event): int {
    if s == [] then 0
    else Level(s[..|s| - 1], e) + if AtMost(s[|s| - 1], e) then s[|s| - 1].delta else 0
  }

  lemma {:induction false} LevelAppend(a: seq<Event>, b: seq<Event>, e: Event)
    ensures Level(a + b, e) == Level(a, e) + Level(b, e)
  {
    if b == [] {
      assert a + b == a;
    } else {
      LevelAppend(a, b[..|b| - 1], e);
      assert (a + b)[..|a + b| - 1] == a + b[..|b| - 1];
    }
  }

  lemma {:induction false} LevelPermutes(a: seq<Event>, b: seq<Event>, e: Event)
    requires multiset(a) == multiset(b)
    ensures Level(a, e) == Level(b, e)
  {
    assert |a| == |multiset(a)| == |multiset(b)| == |b|;
    if a != [] {
      var x := a[|a| - 1];
      assert x in multiset(b);
      var j :| 0 <= j < |b| && b[j] == x;
      assert a == a[..|a| - 1] + [x];
      assert b == b[..j] + ([x] + b[j + 1..]);
      assert multiset(a[..|a| - 1]) == multiset(a) - multiset{x};
      assert multiset(b[..j] + b[j + 1..]) == multiset(b) - multiset{x};
      LevelPermutes(a[..|a| - 1], b[..j] + b[j + 1..], e);
      LevelAppend(b[..j], b[j + 1..], e);
      LevelAppend(b[..j], [x] + b[j + 1..], e);
      LevelAppend([x], b[j + 1..], e);
      assert Level([x], e) == if AtMost(x, e) then x.delta else 0;
    }
  }

  /** Everything up to the events of instant t: what covers t. */
  lemma {:induction false} LevelIsCover(intervals: seq<Interval>, t: real)
    ensures Level(Events(intervals), Event(t, 1)) == Cover(intervals, t)
  {
    if intervals != [] {
      var front, last := intervals[..|intervals| - 1], intervals[|intervals| - 1];
      LevelIsCover(front, t);
      if last.end > last.start {
        LevelPair(Events(front), last, Event(t, 1));
      } else {
        assert Events(front) + [] == Events(front);
      }
    }
  }

  lemma LevelPair(s: seq<Event>, i: Interval, e: Event)
    ensures Level(s + [Event(i.start, 1), Event(i.end, -1)], e)
         == Level(s, e) + (if AtMost(Event(i.start, 1), e) then 1 else 0)
                        - (if AtMost(Event(i.end, -1), e) then 1 else 0)
  {
    var a, b := Event(i.start, 1), Event(i.end, -1);
    assert s + [a, b] == s + [a] + [b];
    assert (s + [a, b])[..|s| + 1] == s + [a];
    assert (s + [a])[..|s|] == s;
  }

  /** Just after the ends at instant t there are the intervals around t. */
  lemma {:induction false} LevelAfterEnds(intervals: seq<Interval>, t: real)
    ensures Level(Events(intervals), Event(t, -1)) >= 0
  {
    if intervals != [] {
      var front, last := intervals[..|intervals| - 1], intervals[|intervals| - 1];
      LevelAfterEnds(front, t);
      if last.end > last.start {
        LevelPair(Events(front), last, Event(t, -1));
      } else {
        assert Events(front) + [] == Events(front);
      }
    }
  }

  ghost predicate Deltas(s: seq<Event>) {
    forall i :: 0 <= i < |s| ==> s[i].delta == 1 || s[i].delta == -1
  }

  lemma {:induction false} EventsHaveDeltas(intervals: seq<Interval>)
    ensures Deltas(Events(intervals))
  {
    if intervals != [] {
      EventsHaveDeltas(intervals[..|intervals| - 1]);
    }
  }

  lemma {:induction false} LevelOfEarlier(s: seq<Event>, e: Event)
    requires forall i :: 0 <= i < |s| ==> AtMost(s[i], e)
    ensures Level(s, e) == Sum(s)
  {
    if s != [] {
      LevelOfEarlier(s[..|s| - 1], e);
    }
  }

  /** Events not before e that still count for it have its own delta. */
  lemma {:induction false} LevelOfLater(s: seq<Event>, e: Event)
    requires forall i :: 0 <= i < |s| ==> AtMost(e, s[i])
    ensures e.delta >= 0 ==> Level(s, e) >= 0
    ensures e.delta <= 0 ==> Level(s, e) <= 0
  {
    if s != [] {
      LevelOfLater(s[..|s| - 1], e);
    }
  }

  /** The sum of a prefix against the level of its last event. */
  lemma PrefixLevel(s: seq<Event>, k: nat)
    requires Ordered(s) && 0 < k <= |s|
    ensures s[k - 1].delta >= 0 ==> Sum(s[..k]) <= Level(s, s[k - 1])
    ensures s[k - 1].delta <= 0 ==> Sum(s[..k]) >= Level(s, s[k - 1])
  {
    var e := s[k - 1];
    assert s == s[..k] + s[k..];
    LevelAppend(s[..k], s[k..], e);
    forall i | 0 <= i < k ensures AtMost(s[i], e) {
      assert i < k - 1 ==> AtMost(s[i], s[k - 1]);
    }
    LevelOfEarlier(s[..k], e);
    LevelOfLater(s[k..], e);
  }

  // ----- The sweep -----

  /** The highest prefix sum, at least zero. */
  function Peak(s: seq<Event>): nat {
    if s == [] then 0
    else
      var before := Peak(s[..|s| - 1]);
      if Sum(s) > before then Sum(s) else before
  }

  lemma {:induction false} PeakBounds(s: seq<Event>, k: nat)
    requires k <= |s|
    ensures Sum(s[..k]) <= Peak(s)
  {
    if k == |s| {
      assert s[..k] == s;
    } else {
      PeakBounds(s[..|s| - 1], k);
      assert s[..|s| - 1][..k] == s[..k];
    }
  }

  /** The events in the order of the sweep. */
  function Sweep(intervals: seq<Interval>): seq<Event> {
    C.Sort(AtMost, Events(intervals))
  }

  lemma SweepIsSound(intervals: seq<Interval>)
    ensures Ordered(Sweep(intervals)) && Deltas(Sweep(intervals))
    ensures multiset(Sweep(intervals)) == multiset(Events(intervals))
  {
    var events, s := Events(intervals), Sweep(intervals);
    AtMostOrders();
    C.SortOrders(AtMost, events);
    assert C.Ordered(AtMost, s);
    EventsHaveDeltas(intervals);
    forall i | 0 <= i < |s| ensures s[i].delta == 1 || s[i].delta == -1 {
      assert s[i] in multiset(events);
      assert s[i] in events;
    }
  }

  lemma LevelSplits(s: seq<Event>, k: nat, e: Event)
    requires k <= |s|
    ensures Level(s, e) == Level(s[..k], e) + Level(s[k..], e)
  {
    assert s == s[..k] + s[k..];
    LevelAppend(s[..k], s[k..], e);
  }

  lemma {:induction false} LevelBelowSum(s: seq<Event>, e: Event)
    requires Deltas(s) && forall i :: 0 <= i < |s| ==> AtMost(s[i], e) || s[i].delta == 1
    ensures Level(s, e) <= Sum(s)
  {
    if s != [] {
      LevelBelowSum(s[..|s| - 1], e);
    }
  }

  lemma {:induction false} LevelOfNothing(s: seq<Event>, e: Event)
    requires forall i :: 0 <= i < |s| ==> !AtMost(s[i], e)
    ensures Level(s, e) == 0
  {
    if s != [] {
      LevelOfNothing(s[..|s| - 1], e);
    }
  }

  /** A prefix that ends in a start sums to at least what the ends before it left. */
  lemma StartsKeepSumsUp(s: seq<Event>, k: nat)
    requires Ordered(s) && Deltas(s) && 0 < k <= |s| && s[k - 1].delta == 1
    ensures Sum(s[..k]) >= Level(s, Event(s[k - 1].time, -1))
  {
    var start, e := s[k - 1], Event(s[k - 1].time, -1);
    LevelSplits(s, k, e);
    forall i | 0 <= i < k ensures AtMost(s[..k][i], e) || s[..k][i].delta == 1 {
      assert i < k - 1 ==> AtMost(s[i], s[k - 1]);
    }
    LevelBelowSum(s[..k], e);
    forall i | 0 <= i < |s| - k ensures !AtMost(s[k..][i], e) {
      assert AtMost(s[k - 1], s[k + i]);
    }
    LevelOfNothing(s[k..], e);
  }

  /** The count never falls below zero, and a start never counts more than what covers
      its instant. */
  lemma SumsAreCovered(intervals: seq<Interval>, k: nat)
    requires 0 < k <= |Sweep(intervals)|
    ensures var s := Sweep(intervals);
            && Sum(s[..k]) >= 0
            && (s[k - 1].delta == 1 ==> Sum(s[..k]) <= Cover(intervals, s[k - 1].time))
  {
    var events, s := Events(intervals), Sweep(intervals);
    var t := s[k - 1].time;
    SweepIsSound(intervals);
    PrefixLevel(s, k);
    LevelPermutes(s, events, s[k - 1]);
    LevelPermutes(s, events, Event(t, -1));
    LevelAfterEnds(intervals, t);
    if s[k - 1].delta == 1 {
      LevelIsCover(intervals, t);
      StartsKeepSumsUp(s, k);
    }
  }

  /** How many events of an ordered list are at most e. */
  function Reach(s: seq<Event>, e: Event): (k: nat)
    ensures k <= |s|
    ensures forall i :: 0 <= i < k ==> AtMost(s[i], e)
    ensures k < |s| ==> !AtMost(s[k], e)
  {
    if s == [] || !AtMost(s[0], e) then 0 else 1 + Reach(s[1..], e)
  }

  lemma LevelIsASum(s: seq<Event>, e: Event)
    requires Ordered(s)
    ensures Sum(s[..Reach(s, e)]) == Level(s, e)
  {
    var k := Reach(s, e);
    LevelSplits(s, k, e);
    LevelOfEarlier(s[..k], e);
    forall i | 0 <= i < |s| - k ensures !AtMost(s[k..][i], e) {
      assert i > 0 ==> AtMost(s[k], s[k + i]);
    }
    LevelOfNothing(s[k..], e);
  }

  /** Some prefix sums to what covers instant t. */
  lemma CoverIsASum(intervals: seq<Interval>, t: real)
    ensures Sum(Sweep(intervals)[..Reach(Sweep(intervals), Event(t, 1))]) == Cover(intervals, t)
  {
    SweepIsSound(intervals);
    LevelPermutes(Sweep(intervals), Events(intervals), Event(t, 1));
    LevelIsCover(intervals, t);
    LevelIsASum(Sweep(intervals), Event(t, 1));
  }

  ghost predicate IsPeak(intervals: seq<Interval>, peak: nat) {
    && (forall t :: Cover(intervals, t) <= peak)
    && exists t :: Cover(intervals, t) == peak
  }

  lemma {:induction false} PeakIsCovered(intervals: seq<Interval>, k: nat) returns (t: real)
    requires k <= |Sweep(intervals)|
    ensures Peak(Sweep(intervals)[..k]) <= Cover(intervals, t)
  {
    var s := Sweep(intervals);
    if k == 0 {
      t := 0.0;
    } else {
      t := PeakIsCovered(intervals, k - 1);
      var front := s[..k - 1];
      assert s[..k][..k - 1] == front;
      if Sum(s[..k]) > Peak(front) {
        PeakBounds(front, k - 1);
        assert front[..k - 1] == front;
        SumsAreCovered(intervals, k);
        SweepIsSound(intervals);
        t := s[k - 1].time;
      }
    }
  }

  lemma SweepFindsThePeak(intervals: seq<Interval>)
    ensures IsPeak(intervals, Peak(Sweep(intervals)))
  {
    var s := Sweep(intervals);
    forall t ensures Cover(intervals, t) <= Peak(s) {
      CoverIsASum(intervals, t);
      PeakBounds(s, Reach(s, Event(t, 1)));
    }
    var t := PeakIsCovered(intervals, |s|);
    assert s[..|s|] == s;
    assert Cover(intervals, t) == Peak(s);
  }

  lemma {:induction false} EventsBalance(intervals: seq<Interval>)
    ensures Sum(Events(intervals)) == 0
  {
    if intervals != [] {
      var front, last := intervals[..|intervals| - 1], intervals[|intervals| - 1];
      EventsBalance(front);
      if last.end > last.start {
        var a, b := Event(last.start, 1), Event(last.end, -1);
        assert (Events(front) + [a, b])[..|Events(front)| + 1] == Events(front) + [a];
        assert (Events(front) + [a])[..|Events(front)|] == Events(front);
      } else {
        assert Events(front) + [] == Events(front);
      }
    }
  }

  /** The peak is the largest number of intervals that share an instant; the running
      count never falls below zero. */
  method PeakConcurrency(intervals: seq<Interval>) returns (peak: nat)
    ensures IsPeak(intervals, peak)
  {
    ghost var all := Events(intervals);
    var events: seq<Event> := [];
    for i := 0 to |intervals|
      invariant events == Events(intervals[..i])
    {
      assert intervals[..i + 1][..i] == intervals[..i];
      var j := intervals[i];
      if j.end > j.start {
        events := events + [Event(j.start, 1), Event(j.end, -1)];
      }
      assert events == Events(intervals[..i + 1]);
    }
    assert intervals[..|intervals|] == intervals;
    var sorted := C.Sort(AtMost, events);
    var active: int := 0;
    peak := 0;
    for k := 0 to |sorted|
      invariant active == Sum(sorted[..k]) >= 0
      invariant peak == Peak(sorted[..k])
    {
      SumsAreCovered(intervals, k + 1);
      assert sorted[..k + 1][..k] == sorted[..k];
      active := active + sorted[k].delta;
      if active > peak {
        peak := active;
      }
    }
    assert sorted[..|sorted|] == sorted;
    SweepFindsThePeak(intervals);
    SweepEndsAtZero(intervals);
    assert active == 0;
  }

  /** When the sweep is over nothing is active. */
  lemma SweepEndsAtZero(intervals: seq<Interval>)
    ensures Sum(Sweep(intervals)) == 0
  {
    SweepIsSound(intervals);
    EventsBalance(intervals);
    SumPermutes(Sweep(intervals), Events(intervals));
  }

  lemma SumPermutes(a: seq<Event>, b: seq<Event>)
    requires multiset(a) == multiset(b)
    ensures Sum(a) == Sum(b)
  {
    var late := Latest(a + b);
    forall i | 0 <= i < |a| ensures AtMost(a[i], late) {
      assert (a + b)[i] == a[i];
    }
    forall i | 0 <= i < |b| ensures AtMost(b[i], late) {
      assert (a + b)[|a| + i] == b[i];
    }
    LevelOfEarlier(a, late);
    LevelOfEarlier(b, late);
    LevelPermutes(a, b, late);
  }

  /** An event that no event of s comes after. */
  function Latest(s: seq<Event>): (e: Event)
    ensures forall i :: 0 <= i < |s| ==> AtMost(s[i], e)
  {
    if s == [] then Event(0.0, 0)
    else
      var e := Latest(s[..|s| - 1]);
      if AtMost(s[|s| - 1], e) then e else s[|s| - 1]
  }
}
