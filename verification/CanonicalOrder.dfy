/** Stable sorting by string keys, and why the order of equal keys cannot matter
    (sort.SliceStable as used by internal/oracle/evaluation.go). */
module CanonicalOrder {
  import C = Collections

  /** Bytewise string order; on UTF-8 text it is code point order. */
  predicate Less(a: string, b: string) {
    b != "" && (a == "" || a[0] < b[0] || (a[0] == b[0] && Less(a[1..], b[1..])))
  }

  lemma {:induction false} LessIsTotal(a: string, b: string)
    ensures Less(a, b) || Less(b, a) || a == b
    ensures !(Less(a, b) && Less(b, a))
    ensures !Less(a, a)
  {
    if a != "" {
      LessIsTotal(a[1..], a[1..]);
      if b != "" {
        LessIsTotal(a[1..], b[1..]);
        assert a == [a[0]] + a[1..] && b == [b[0]] + b[1..];
      }
    }
  }

  lemma {:induction false} LessIsTransitive(a: string, b: string, c: string)
    requires !Less(b, a) && !Less(c, b)
    ensures !Less(c, a)
  {
    if a != "" && b != "" && c != "" && a[0] == b[0] == c[0] {
      LessIsTransitive(a[1..], b[1..], c[1..]);
    }
  }

  /** Sort keys compare their major part first. */
  datatype Key = Key(major: string, minor: string)

  predicate Before(a: Key, b: Key) {
    Less(a.major, b.major) || (a.major == b.major && Less(a.minor, b.minor))
  }

  lemma BeforeIsTotal(a: Key, b: Key)
    ensures Before(a, b) || Before(b, a) || a == b
    ensures !(Before(a, b) && Before(b, a))
    ensures !Before(a, a)
  {
    LessIsTotal(a.major, b.major);
    LessIsTotal(a.minor, b.minor);
    LessIsTotal(a.major, a.major);
    LessIsTotal(a.minor, a.minor);
  }

  lemma BeforeIsTransitive(a: Key, b: Key, c: Key)
    requires !Before(b, a) && !Before(c, b)
    ensures !Before(c, a)
  {
    LessIsTotal(a.major, b.major);
    LessIsTotal(b.major, c.major);
    LessIsTotal(a.major, c.major);
    LessIsTransitive(a.major, b.major, c.major);
    if a.major == b.major == c.major {
      LessIsTransitive(a.minor, b.minor, c.minor);
    }
  }

  /** A value with the key it is sorted by. */
  datatype Keyed<T> = Keyed(value: T, key: Key)

  function Values<T>(s: seq<Keyed<T>>): (r: seq<T>)
    ensures |r| == |s|
    ensures forall i :: 0 <= i < |s| ==> r[i] == s[i].value
  {
    seq(|s|, i requires 0 <= i < |s| => s[i].value)
  }

  predicate NotAfter<T>(a: Keyed<T>, b: Keyed<T>) {
    !Before(b.key, a.key)
  }

  lemma NotAfterOrders<T(!new)>()
    ensures C.Orders<Keyed<T>>(NotAfter)
  {
    forall a: Keyed<T>, b: Keyed<T> ensures NotAfter(a, b) || NotAfter(b, a) {
      BeforeIsTotal(a.key, b.key);
    }
    forall a: Keyed<T>, b: Keyed<T>, c: Keyed<T> | NotAfter(a, b) && NotAfter(b, c) ensures NotAfter(a, c) {
      BeforeIsTransitive(a.key, b.key, c.key);
    }
  }

  ghost predicate Ordered<T>(s: seq<Keyed<T>>) {
    forall i, j :: 0 <= i < j < |s| ==> NotAfter(s[i], s[j])
  }

  /** Puts x behind every element whose key is not larger. */
  function Insert<T>(s: seq<Keyed<T>>, x: Keyed<T>): seq<Keyed<T>> {
    C.Insert(NotAfter, s, x)
  }

  /** What a stable sort makes of s. */
  function Sort<T>(s: seq<Keyed<T>>): (r: seq<Keyed<T>>)
    ensures |r| == |s|
  {
    C.Sort(NotAfter, s)
  }

  lemma SortOrders<T(!new)>(s: seq<Keyed<T>>)
    ensures Ordered(Sort(s))
    ensures multiset(Sort(s)) == multiset(s)
  {
    NotAfterOrders<T>();
    C.SortOrders(NotAfter, s);
    assert C.Ordered(NotAfter, Sort(s));
  }

  /** The elements with key k, in order. */
  function Tied<T>(s: seq<Keyed<T>>, k: Key): seq<Keyed<T>> {
    if s == [] then []
    else Tied(s[..|s| - 1], k) + if s[|s| - 1].key == k then [s[|s| - 1]] else []
  }

  lemma {:induction false} InsertIsStable<T>(s: seq<Keyed<T>>, x: Keyed<T>, k: Key)
    ensures Tied(Insert(s, x), k) == Tied(s, k) + if x.key == k then [x] else []
  {
    var r := Insert(s, x);
    if s == [] || !Before(x.key, s[|s| - 1].key) {
      assert r[..|r| - 1] == s;
    } else {
      InsertIsStable(s[..|s| - 1], x, k);
      assert r[..|r| - 1] == Insert(s[..|s| - 1], x);
      BeforeIsTotal(x.key, s[|s| - 1].key);
    }
  }

  /** Sorting keeps the relative order of elements with equal keys. */
  lemma {:induction false} SortIsStable<T>(s: seq<Keyed<T>>, k: Key)
    ensures Tied(Sort(s), k) == Tied(s, k)
  {
    if s == [] {
    } else {
      SortIsStable(s[..|s| - 1], k);
      InsertIsStable(Sort(s[..|s| - 1]), s[|s| - 1], k);
    }
  }

  /** Equal keys identify equal elements. */
  ghost predicate KeysIdentify<T>(s: seq<Keyed<T>>) {
    forall i, j :: 0 <= i < |s| && 0 <= j < |s| && s[i].key == s[j].key ==> s[i] == s[j]
  }

  function Without<T>(s: seq<T>, i: nat): (r: seq<T>)
    requires i < |s|
    ensures |r| == |s| - 1
  {
    s[..i] + s[i + 1..]
  }

  lemma WithoutOne<T>(s: seq<T>, i: nat)
    requires i < |s|
    ensures multiset(s) == multiset(Without(s, i)) + multiset{s[i]}
  {
    assert s == s[..i] + [s[i]] + s[i + 1..];
  }

  lemma SameSize<T>(a: seq<T>, b: seq<T>)
    requires multiset(a) == multiset(b)
    ensures |a| == |b|
  {
    assert |a| == |multiset(a)| && |b| == |multiset(b)|;
  }

  /** Two orderings of the same elements end alike. */
  lemma LastAgrees<T>(a: seq<Keyed<T>>, b: seq<Keyed<T>>)
    requires Ordered(a) && Ordered(b) && multiset(a) == multiset(b)
    requires a != [] && b != []
    ensures a[|a| - 1].key == b[|b| - 1].key
    ensures KeysIdentify(a) ==> a[|a| - 1] == b[|b| - 1]
  {
    var x, y := a[|a| - 1], b[|b| - 1];
    assert x in multiset(b) && y in multiset(a);
    var i :| 0 <= i < |b| && b[i] == x;
    var j :| 0 <= j < |a| && a[j] == y;
    BeforeIsTotal(x.key, y.key);
  }

  lemma FrontsPermute<T>(a: seq<T>, b: seq<T>)
    requires |a| == |b| > 0 && a[|a| - 1] == b[|b| - 1]
    requires multiset(a) == multiset(b)
    ensures multiset(a[..|a| - 1]) == multiset(b[..|b| - 1])
  {
    var n := |a| - 1;
    WithoutOne(a, n);
    WithoutOne(b, n);
    assert Without(a, n) == a[..n] && Without(b, n) == b[..n];
    assert multiset(a[..n]) == multiset(a) - multiset{a[n]};
  }

  /** When keys identify elements, a list has one ordering only. */
  lemma {:induction false} OrderIsUnique<T>(a: seq<Keyed<T>>, b: seq<Keyed<T>>)
    requires Ordered(a) && Ordered(b) && multiset(a) == multiset(b)
    requires KeysIdentify(a)
    ensures a == b
  {
    SameSize(a, b);
    if a != [] {
      var n := |a| - 1;
      LastAgrees(a, b);
      FrontsPermute(a, b);
      OrderIsUnique(a[..n], b[..n]);
      assert a == a[..n] + [a[n]] && b == b[..n] + [b[n]];
    }
  }

  /** Equal elements of xs and us pair with equal elements of ys and ws. */
  ghost predicate Paired<A, B>(xs: seq<A>, ys: seq<B>, us: seq<A>, ws: seq<B>) {
    && |xs| == |ys| && |us| == |ws|
    && forall i, j :: 0 <= i < |xs| && 0 <= j < |us| && xs[i] == us[j] ==> ys[i] == ws[j]
  }

  lemma PairedWithout<A, B>(xs: seq<A>, ys: seq<B>, us: seq<A>, ws: seq<B>, i: nat, j: nat)
    requires Paired(xs, ys, us, ws) && i < |xs| && j < |us|
    ensures Paired(Without(xs, i), Without(ys, i), Without(us, j), Without(ws, j))
  {
    forall k, l | 0 <= k < |xs| - 1 && 0 <= l < |us| - 1 && Without(xs, i)[k] == Without(us, j)[l]
      ensures Without(ys, i)[k] == Without(ws, j)[l]
    {
      assert xs[if k < i then k else k + 1] == us[if l < j then l else l + 1];
    }
  }

  /** Reordering one list reorders the list it is paired with. */
  lemma {:induction false} Transfer<A, B>(xs: seq<A>, ys: seq<B>, us: seq<A>, ws: seq<B>)
    requires Paired(xs, ys, us, ws)
    requires multiset(xs) == multiset(us)
    ensures multiset(ys) == multiset(ws)
    decreases |xs|
  {
    SameSize(xs, us);
    if xs != [] {
      assert xs[0] in multiset(us);
      var j :| 0 <= j < |us| && us[j] == xs[0];
      PairedWithout(xs, ys, us, ws, 0, j);
      WithoutOne(xs, 0);
      WithoutOne(ys, 0);
      WithoutOne(us, j);
      WithoutOne(ws, j);
      assert multiset(Without(xs, 0)) == multiset(xs) - multiset{xs[0]};
      assert multiset(Without(us, j)) == multiset(us) - multiset{xs[0]};
      Transfer(Without(xs, 0), Without(ys, 0), Without(us, j), Without(ws, j));
    }
  }

  function Lift<A, B>(f: A -> B, s: seq<Keyed<A>>): (r: seq<Keyed<B>>)
    ensures |r| == |s|
    ensures forall i :: 0 <= i < |s| ==> r[i] == Keyed(f(s[i].value), s[i].key)
  {
    seq(|s|, i requires 0 <= i < |s| => Keyed(f(s[i].value), s[i].key))
  }

  lemma {:induction false} InsertSeesOnlyKeys<A, B>(f: A -> B, s: seq<Keyed<A>>, x: Keyed<A>)
    ensures Lift(f, Insert(s, x)) == Insert(Lift(f, s), Keyed(f(x.value), x.key))
  {
    if s == [] || !Before(x.key, s[|s| - 1].key) {
    } else {
      InsertSeesOnlyKeys(f, s[..|s| - 1], x);
      assert Lift(f, s)[..|s| - 1] == Lift(f, s[..|s| - 1]);
    }
  }

  /** Encoding before sorting and after sorting give the same list. */
  lemma {:induction false} SortSeesOnlyKeys<A, B>(f: A -> B, s: seq<Keyed<A>>)
    ensures Lift(f, Sort(s)) == Sort(Lift(f, s))
  {
    if s == [] {
    } else {
      SortSeesOnlyKeys(f, s[..|s| - 1]);
      InsertSeesOnlyKeys(f, Sort(s[..|s| - 1]), s[|s| - 1]);
      assert Lift(f, s)[..|s| - 1] == Lift(f, s[..|s| - 1]);
    }
  }

  /** Sorts in place by insertion. */
  method SortStable<T>(a: array<Keyed<T>>)
    modifies a
    ensures a[..] == Sort(old(a[..]))
  {
    ghost var was := a[..];
    for i := 0 to a.Length
      invariant a[..i] == Sort(was[..i])
      invariant a[i..] == was[i..]
    {
      assert was[..i + 1][..i] == was[..i] && was[..i + 1][i] == was[i] == a[i];
      Sink(a, i);
    }
    assert a[..] == a[..a.Length] && was == was[..a.Length];
  }

  lemma InsertBefore<T>(s: seq<Keyed<T>>, x: Keyed<T>, j: nat)
    requires j < |s| && Before(x.key, s[j].key)
    ensures Insert(s[..j + 1], x) == Insert(s[..j], x) + [s[j]]
  {
    assert s[..j + 1][..j] == s[..j];
  }

  lemma InsertBehind<T>(s: seq<Keyed<T>>, x: Keyed<T>)
    requires s == [] || !Before(x.key, s[|s| - 1].key)
    ensures Insert(s, x) == s + [x]
  {
  }

  /** Moves a[i] down past every larger key in front of it. */
  method Sink<T>(a: array<Keyed<T>>, i: nat)
    requires i < a.Length
    modifies a
    ensures a[..i + 1] == Insert(old(a[..i]), old(a[i]))
    ensures a[i + 1..] == old(a[i + 1..])
  {
    var x, j := a[i], i;
    ghost var front, back := a[..i], a[i + 1..];
    while 0 < j && Before(x.key, a[j - 1].key)
      invariant 0 <= j <= i
      invariant a[..j] == front[..j]
      invariant Insert(front, x) == Insert(front[..j], x) + a[j + 1..i + 1]
      invariant a[i + 1..] == back
    {
      assert front[..j][..j - 1] == front[..j - 1];
      a[j] := a[j - 1];
      j := j - 1;
      assert a[j + 1..i + 1] == [front[j]] + a[j + 2..i + 1];
      InsertBefore(front, x, j);
    }
    a[j] := x;
    InsertBehind(front[..j], x);
    assert a[..i + 1] == a[..j] + [x] + a[j + 1..i + 1];
  }
}
