/** Stable sorting by insertion, and sizes of sets. */
module Collections {

  /** atMost is a total preorder. */
  ghost predicate Orders<T(!new)>(atMost: (T, T) -> bool) {
    && (forall a, b :: atMost(a, b) || atMost(b, a))
    && (forall a, b, c :: atMost(a, b) && atMost(b, c) ==> atMost(a, c))
  }

  ghost predicate Ordered<T>(atMost: (T, T) -> bool, s: seq<T>) {
    forall i, j :: 0 <= i < j < |s| ==> atMost(s[i], s[j])
  }

  /** Puts x behind every element that is at most x. */
  function Insert<T>(atMost: (T, T) -> bool, s: seq<T>, x: T): (r: seq<T>)
    ensures |r| == |s| + 1
  {
    if s == [] || atMost(s[|s| - 1], x) then s + [x]
    else Insert(atMost, s[..|s| - 1], x) + [s[|s| - 1]]
  }

  /** What a stable sort makes of s. */
  function Sort<T>(atMost: (T, T) -> bool, s: seq<T>): (r: seq<T>)
    ensures |r| == |s|
  {
    if s == [] then [] else Insert(atMost, Sort(atMost, s[..|s| - 1]), s[|s| - 1])
  }

  lemma {:induction false} InsertPermutes<T>(atMost: (T, T) -> bool, s: seq<T>, x: T)
    ensures multiset(Insert(atMost, s, x)) == multiset(s) + multiset{x}
  {
    if s != [] && !atMost(s[|s| - 1], x) {
      InsertPermutes(atMost, s[..|s| - 1], x);
      assert s == s[..|s| - 1] + [s[|s| - 1]];
    }
  }

  lemma {:induction false} InsertKeepsOrder<T(!new)>(atMost: (T, T) -> bool, s: seq<T>, x: T)
    requires Orders(atMost) && Ordered(atMost, s)
    ensures Ordered(atMost, Insert(atMost, s, x))
  {
    if s == [] {
    } else if atMost(s[|s| - 1], x) {
      forall i | 0 <= i < |s| ensures atMost(s[i], x) {
        assert atMost(s[i], s[|s| - 1]);
      }
    } else {
      var front, last := s[..|s| - 1], s[|s| - 1];
      InsertKeepsOrder(atMost, front, x);
      InsertPermutes(atMost, front, x);
      var r := Insert(atMost, front, x);
      forall i | 0 <= i < |r| ensures atMost(r[i], last) {
        assert r[i] in multiset(r);
        if r[i] != x {
          assert r[i] in front;
        }
      }
    }
  }

  /** Sorting orders its input and permutes it. */
  lemma {:induction false} SortOrders<T(!new)>(atMost: (T, T) -> bool, s: seq<T>)
    requires Orders(atMost)
    ensures Ordered(atMost, Sort(atMost, s)) && multiset(Sort(atMost, s)) == multiset(s)
  {
    if s != [] {
      var front := s[..|s| - 1];
      SortOrders(atMost, front);
      InsertKeepsOrder(atMost, Sort(atMost, front), s[|s| - 1]);
      InsertPermutes(atMost, Sort(atMost, front), s[|s| - 1]);
      assert s == front + [s[|s| - 1]];
    }
  }

  lemma {:induction false} SubsetSize<T>(a: set<T>, b: set<T>)
    requires a <= b
    ensures |a| <= |b|
  {
    if a != {} {
      var x :| x in a;
      SubsetSize(a - {x}, b - {x});
    }
  }
}
