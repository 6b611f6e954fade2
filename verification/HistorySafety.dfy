/** What every accepted wire history satisfies
    (scripts/check-external-sut-vectors.py, function history). */
module HistorySafety {
  import opened Options
  import opened Histories

  /** What a step means for lifecycles.  Arrivals, releases and terminals are exchanged. */
  datatype Act =
    | Called(invocation: string, worker: string, command: string)
    | Waits(identity: Identity)
    | Exhausts(invocation: string)
    | Returns(identity: Identity, result: string)
    | Accepts(invocation: string)
    | Arrives(identity: Identity)
    | Releases(identity: Identity)
    | Ends(invocation: string, worker: string, retires: bool)
    | Nothing

  function ActOf(step: WireStep): Act {
    match step
    case Local(peer, event, _) =>
      (match event
       case InvokeCall(invocation, worker, command) =>
         if peer == Go then Called(invocation, worker, command) else Nothing
       case WorkerArrives(identity) => if peer == Java then Waits(identity) else Nothing
       case ExhaustArrivals(_, invocation) => Exhausts(invocation)
       case RuntimeArriveReturns(identity, result) => if peer == Go then Returns(identity, result) else Nothing
       case _ => Nothing)
    case Receive(_, frame, effects, delivery) =>
      if delivery == Input then Nothing
      else
        match frame.body
        case Accept(invocation, _) => Accepts(invocation)
        case Arrive(identity) => Arrives(identity)
        case Release(identity) => Releases(identity)
        case Terminal(invocation, worker, _, _, _) => Ends(invocation, worker, "close_result_channel" in effects)
        case _ => Nothing
  }

  function Acts(steps: seq<WireStep>): (r: seq<Act>)
    ensures |r| == |steps|
    ensures forall i :: 0 <= i < |r| ==> r[i] == ActOf(steps[i])
  {
    seq(|steps|, i requires 0 <= i < |steps| => ActOf(steps[i]))
  }

  function Last(c: Core, invocation: string): int {
    if invocation in c.lastArrival then c.lastArrival[invocation] else 0
  }

  predicate Bound(c: Core, invocation: string, worker: string) {
    invocation in c.invocations && c.invocations[invocation].0 == worker
  }

  /** When an act is allowed and what it leaves behind. */
  predicate Moves(c: Core, a: Act, d: Core) {
    match a
    case Called(invocation, worker, command) =>
      && invocation !in c.invocations && worker !in c.active
      && d == c.(invocations := c.invocations[invocation := (worker, command)],
                 active := c.active[worker := invocation])
    case Waits(identity) =>
      && identity.invocation !in c.outstanding && identity.invocation !in c.pending
      && identity.arrival.n == Last(c, identity.invocation) + 1
      && d == c.(pending := c.pending[identity.invocation := identity])
    case Exhausts(invocation) => d == c.(lastArrival := c.lastArrival[invocation := SEQUENCE_LIMIT])
    case Returns(identity, result) =>
      && Get(c.outstanding, identity.invocation) == Some(identity)
      && Get(c.bridges, identity.invocation) == Some(identity)
      && d == c.(bridges := c.bridges - {identity.invocation},
                 returned := c.returned[identity.invocation := (identity, result)])
    case Accepts(invocation) =>
      && invocation in c.invocations && invocation !in c.accepted
      && d == c.(accepted := c.accepted + {invocation})
    case Arrives(identity) =>
      && identity.invocation in c.accepted && identity.invocation !in c.outstanding
      && 1 <= identity.arrival.n <= SEQUENCE_LIMIT
      && Get(c.pending, identity.invocation) == Some(identity)
      && d == c.(outstanding := c.outstanding[identity.invocation := identity],
                 bridges := c.bridges[identity.invocation := identity],
                 lastArrival := c.lastArrival[identity.invocation := identity.arrival.n],
                 pending := c.pending - {identity.invocation})
    case Releases(identity) =>
      && Get(c.outstanding, identity.invocation) == Some(identity)
      && Get(c.returned, identity.invocation) == Some((identity, "nil"))
      && d == c.(outstanding := c.outstanding - {identity.invocation})
    case Ends(invocation, worker, retires) =>
      && Bound(c, invocation, worker)
      && invocation in c.accepted && invocation !in c.terminals
      && invocation !in c.bridges && invocation !in c.pending
      && invocation in d.terminals
      && d == c.(outstanding := c.outstanding - {invocation},
                 terminals := c.terminals[invocation := d.terminals[invocation]],
                 active := if retires then c.active - {worker} else c.active,
                 completed := if retires then c.completed + {invocation} else c.completed)
    case Nothing => d == c
  }

  // ----- The checker makes only these moves -----

  lemma LocalMoves(s: State, peer: Peer, event: LocalEvent, effects: seq<string>)
    ensures var r := CheckLocal(s, peer, event, effects);
            r.Some? ==> Moves(s.core, ActOf(Local(peer, event, effects)), r.value.core)
  {
  }

  lemma ExchangeMoves(c: Case, s: State, peer: Peer, f: Frame, effects: seq<string>)
    requires Shaped(f)
    ensures var r := CheckExchange(c, s, f, effects);
            r.Some? ==> Moves(s.core, ActOf(Receive(peer, f, effects, Exchange)), r.value.core)
  {
  }

  lemma NumberedMoves(c: Case, s: State, peer: Peer, f: Frame, effects: seq<string>, delivery: Delivery)
    requires Shaped(f)
    ensures var r := CheckNumbered(c, s, f, effects, delivery);
            r.Some? ==> Moves(s.core, ActOf(Receive(peer, f, effects, delivery)), r.value.core)
  {
    var s1 := s.(side := s.side.(fatalSeen := s.side.fatalSeen || f.body.Fatal?,
                                 start := if f.body.Start? then Some(f.body) else s.side.start));
    ExchangeMoves(c, s1, peer, f, effects);
  }

  lemma ReceiveMoves(c: Case, s: State, peer: Peer, f: Frame, effects: seq<string>, delivery: Delivery)
    ensures var r := CheckReceive(c, s, peer, f, effects, delivery);
            r.Some? ==> Moves(s.core, ActOf(Receive(peer, f, effects, delivery)), r.value.core)
  {
    var s1 := if s.side.binding == None then s.(side := s.side.(binding := Some((f.run, f.session)))) else s;
    if Shaped(f) {
      NumberedMoves(c, Record(s1, peer, f), peer, f, effects, delivery);
    }
  }

  lemma CheckMoves(c: Case, s: State, step: WireStep)
    ensures Check(c, s, step).Some? ==> Moves(s.core, ActOf(step), Check(c, s, step).value.core)
  {
    match step
    case Local(peer, event, effects) => LocalMoves(s, peer, event, effects);
    case Receive(peer, frame, effects, delivery) => ReceiveMoves(c, s, peer, frame, effects, delivery);
  }

  // ----- Looking back over a history -----

  predicate IsArrive(a: Act, invocation: string) {
    a.Arrives? && a.identity.invocation == invocation
  }

  /** Releases and terminals both resolve an arrival. */
  predicate IsEnd(a: Act, invocation: string) {
    (a.Releases? && a.identity.invocation == invocation) || (a.Ends? && a.invocation == invocation)
  }

  predicate IsReturn(a: Act, invocation: string) {
    a.Returns? && a.identity.invocation == invocation
  }

  /** The latest arrival of an invocation, or -1. */
  function LastArrive(acts: seq<Act>, invocation: string): (r: int)
    ensures -1 <= r < |acts|
    ensures r >= 0 ==> IsArrive(acts[r], invocation)
  {
    if acts == [] then -1
    else if IsArrive(acts[|acts| - 1], invocation) then |acts| - 1
    else LastArrive(acts[..|acts| - 1], invocation)
  }

  /** The latest act that resolved an arrival of an invocation, or -1. */
  function LastEnd(acts: seq<Act>, invocation: string): (r: int)
    ensures -1 <= r < |acts|
    ensures forall i :: r < i < |acts| ==> !IsEnd(acts[i], invocation)
  {
    if acts == [] then -1
    else if IsEnd(acts[|acts| - 1], invocation) then |acts| - 1
    else LastEnd(acts[..|acts| - 1], invocation)
  }

  /** The latest runtime return of an invocation, or -1. */
  function LastReturn(acts: seq<Act>, invocation: string): (r: int)
    ensures -1 <= r < |acts|
    ensures r >= 0 ==> IsReturn(acts[r], invocation)
  {
    if acts == [] then -1
    else if IsReturn(acts[|acts| - 1], invocation) then |acts| - 1
    else LastReturn(acts[..|acts| - 1], invocation)
  }

  lemma Snoc(acts: seq<Act>, a: Act)
    ensures (acts + [a])[..|acts|] == acts && (acts + [a])[|acts|] == a
    ensures forall i :: 0 <= i < |acts| ==> (acts + [a])[i] == acts[i]
  {
  }

  lemma LastSnoc(acts: seq<Act>, a: Act, invocation: string)
    ensures LastArrive(acts + [a], invocation)
         == if IsArrive(a, invocation) then |acts| else LastArrive(acts, invocation)
    ensures LastEnd(acts + [a], invocation) == if IsEnd(a, invocation) then |acts| else LastEnd(acts, invocation)
    ensures LastReturn(acts + [a], invocation)
         == if IsReturn(a, invocation) then |acts| else LastReturn(acts, invocation)
  {
    Snoc(acts, a);
  }

  // ----- Outstanding arrivals -----

  /** The outstanding arrival is the latest one and nothing has resolved it. */
  ghost predicate Outstanding(c: Core, acts: seq<Act>, v: string)
    requires v in c.outstanding
  {
    var i := LastArrive(acts, v);
    i >= 0 && acts[i] == Arrives(c.outstanding[v]) && LastEnd(acts, v) < i
  }

  ghost predicate OutstandingInv(c: Core, acts: seq<Act>) {
    forall v :: v in c.outstanding ==> Outstanding(c, acts, v)
  }

  lemma OutstandingStep(c: Core, acts: seq<Act>, a: Act, d: Core)
    requires OutstandingInv(c, acts) && Moves(c, a, d)
    ensures OutstandingInv(d, acts + [a])
  {
    forall v | v in d.outstanding ensures Outstanding(d, acts + [a], v) {
      LastSnoc(acts, a, v);
      Snoc(acts, a);
      if v in c.outstanding {
        assert Outstanding(c, acts, v);
      }
    }
  }

  // ----- Arrival numbers -----

  ghost predicate Numbered(c: Core, identity: Identity) {
    && identity.arrival.n <= SEQUENCE_LIMIT
    && identity.arrival.n <= Last(c, identity.invocation)
    && (identity.invocation in c.pending ==> identity.arrival.n < c.pending[identity.invocation].arrival.n)
  }

  /** Later arrivals of an invocation have larger numbers. */
  ghost predicate Increasing(acts: seq<Act>) {
    forall p, q :: 0 <= p < q < |acts| && acts[p].Arrives? && acts[q].Arrives?
      && acts[p].identity.invocation == acts[q].identity.invocation
      ==> acts[p].identity.arrival.n < acts[q].identity.arrival.n
  }

  ghost predicate NumberInv(c: Core, acts: seq<Act>) {
    && (forall p :: 0 <= p < |acts| && acts[p].Arrives? ==> Numbered(c, acts[p].identity))
    && Increasing(acts)
  }

  lemma NumberStep(c: Core, acts: seq<Act>, a: Act, d: Core)
    requires NumberInv(c, acts) && Moves(c, a, d)
    ensures NumberInv(d, acts + [a])
  {
    Snoc(acts, a);
    var all := acts + [a];
    forall p | 0 <= p < |all| && all[p].Arrives? ensures Numbered(d, all[p].identity) {
      if p < |acts| {
        assert Numbered(c, acts[p].identity);
      }
    }
    forall p, q | 0 <= p < q < |all| && all[p].Arrives? && all[q].Arrives?
                  && all[p].identity.invocation == all[q].identity.invocation
      ensures all[p].identity.arrival.n < all[q].identity.arrival.n
    {
      assert Numbered(c, acts[p].identity);
    }
  }

  lemma SameArrival(acts: seq<Act>, p: nat, q: nat)
    requires Increasing(acts) && p < |acts| && q < |acts|
    requires acts[p].Arrives? && acts[p] == acts[q]
    ensures p == q
  {
  }

  // ----- Runtime returns -----

  /** The last return of an invocation answers an arrival before it. */
  ghost predicate Returned(c: Core, acts: seq<Act>, v: string)
    requires v in c.returned
  {
    var j := LastReturn(acts, v);
    && j >= 0 && acts[j] == Returns(c.returned[v].0, c.returned[v].1)
    && var i := LastArrive(acts[..j], v);
       i >= 0 && acts[i] == Arrives(c.returned[v].0)
  }

  ghost predicate ReturnInv(c: Core, acts: seq<Act>) {
    forall v :: v in c.returned ==> Returned(c, acts, v)
  }

  lemma ReturnedStays(c: Core, acts: seq<Act>, a: Act, d: Core, v: string)
    requires v in c.returned && Returned(c, acts, v) && !IsReturn(a, v)
    requires v in d.returned && d.returned[v] == c.returned[v]
    ensures Returned(d, acts + [a], v)
  {
    LastSnoc(acts, a, v);
    Snoc(acts, a);
    assert (acts + [a])[..LastReturn(acts, v)] == acts[..LastReturn(acts, v)];
  }

  lemma ReturnedNow(c: Core, acts: seq<Act>, a: Act, d: Core, v: string)
    requires IsReturn(a, v) && Moves(c, a, d) && v in c.outstanding && Outstanding(c, acts, v)
    ensures v in d.returned && Returned(d, acts + [a], v)
  {
    LastSnoc(acts, a, v);
    Snoc(acts, a);
  }

  lemma ReturnStep(c: Core, acts: seq<Act>, a: Act, d: Core)
    requires ReturnInv(c, acts) && OutstandingInv(c, acts) && Moves(c, a, d)
    ensures ReturnInv(d, acts + [a])
  {
    forall v | v in d.returned ensures Returned(d, acts + [a], v) {
      if IsReturn(a, v) {
        assert Outstanding(c, acts, v);
        ReturnedNow(c, acts, a, d, v);
      } else {
        assert Returned(c, acts, v);
        ReturnedStays(c, acts, a, d, v);
      }
    }
  }

  // ----- Bridges -----

  /** The arrival at p was answered by a runtime return later on. */
  ghost predicate Answered(acts: seq<Act>, p: nat)
    requires p < |acts| && acts[p].Arrives?
  {
    exists j :: p < j < |acts| && AnswerAt(acts, p, j)
  }

  predicate AnswerAt(acts: seq<Act>, p: nat, j: nat)
    requires p < |acts| && acts[p].Arrives? && j < |acts|
  {
    acts[j].Returns? && acts[j].identity == acts[p].identity
  }

  /** A live bridge belongs to the outstanding arrival, which has not been answered. */
  predicate Open(c: Core, v: string)
    requires v in c.bridges
  {
    && Get(c.outstanding, v) == Some(c.bridges[v])
    && (v in c.returned ==> c.returned[v].0 != c.bridges[v])
  }

  ghost predicate BridgeInv(c: Core, acts: seq<Act>) {
    && (forall v :: v in c.bridges ==> Open(c, v))
    && (forall p :: 0 <= p < |acts| && acts[p].Arrives? ==> Bridged(c, acts, p))
  }

  /** An arrival keeps its bridge until it is answered. */
  ghost predicate Bridged(c: Core, acts: seq<Act>, p: nat)
    requires p < |acts| && acts[p].Arrives?
  {
    Answered(acts, p) || Get(c.bridges, acts[p].identity.invocation) == Some(acts[p].identity)
  }

  lemma AnsweredStays(acts: seq<Act>, a: Act, p: nat)
    requires p < |acts| && acts[p].Arrives? && Answered(acts, p)
    ensures (acts + [a])[p] == acts[p] && Answered(acts + [a], p)
  {
    var j :| p < j < |acts| && AnswerAt(acts, p, j);
    assert AnswerAt(acts + [a], p, j);
  }

  lemma BridgeStep(c: Core, acts: seq<Act>, a: Act, d: Core)
    requires BridgeInv(c, acts) && NumberInv(c, acts) && ReturnInv(c, acts) && Moves(c, a, d)
    ensures BridgeInv(d, acts + [a])
  {
    Snoc(acts, a);
    var all := acts + [a];
    forall v | v in d.bridges ensures Open(d, v) {
      BridgeHolds(c, acts, a, d, v);
    }
    forall p | 0 <= p < |all| && all[p].Arrives? ensures Bridged(d, all, p) {
      if p < |acts| {
        assert Bridged(c, acts, p);
        if Answered(acts, p) {
          AnsweredStays(acts, a, p);
        } else if a.Returns? && a.identity == acts[p].identity {
          assert AnswerAt(all, p, |acts|);
        } else {
          assert Get(c.outstanding, acts[p].identity.invocation) == Some(acts[p].identity);
        }
      }
    }
  }

  lemma BridgeHolds(c: Core, acts: seq<Act>, a: Act, d: Core, v: string)
    requires BridgeInv(c, acts) && NumberInv(c, acts) && ReturnInv(c, acts) && Moves(c, a, d)
    requires v in d.bridges
    ensures Open(d, v)
  {
    if IsArrive(a, v) {
      if v in c.returned {
        assert Returned(c, acts, v);
        assert Numbered(c, c.returned[v].0);
      }
    } else {
      assert v in c.bridges && Open(c, v);
    }
  }

  // ----- Acceptance, terminals, retirement -----

  ghost predicate WasAccepted(acts: seq<Act>, v: string) {
    exists p :: 0 <= p < |acts| && acts[p] == Accepts(v)
  }

  /** The call at p was ended by a terminal that closed its result channel. */
  ghost predicate Retired(acts: seq<Act>, p: nat)
    requires p < |acts| && acts[p].Called?
  {
    exists m :: p < m < |acts| && RetiresAt(acts[p], acts[m])
  }

  predicate RetiresAt(call: Act, end: Act)
    requires call.Called?
  {
    end.Ends? && end.invocation == call.invocation && end.worker == call.worker && end.retires
  }

  ghost predicate AcceptInv(c: Core, acts: seq<Act>) {
    forall v :: v in c.accepted ==> WasAccepted(acts, v)
  }

  ghost predicate TerminalInv(c: Core, acts: seq<Act>) {
    && (forall p :: 0 <= p < |acts| && acts[p].Ends? ==> acts[p].invocation in c.terminals)
    && (forall v :: v in c.completed ==> v in c.terminals && v in c.invocations)
  }

  /** A worker stays reserved for each of its calls until that call is retired. */
  ghost predicate ActiveInv(c: Core, acts: seq<Act>) {
    && (forall v :: v in c.invocations ==> v in c.completed || Get(c.active, c.invocations[v].0) == Some(v))
    && (forall p :: 0 <= p < |acts| && acts[p].Called? ==> Reserved(c, acts, p))
  }

  ghost predicate Reserved(c: Core, acts: seq<Act>, p: nat)
    requires p < |acts| && acts[p].Called?
  {
    && Bound(c, acts[p].invocation, acts[p].worker)
    && (acts[p].invocation in c.completed ==> Retired(acts, p))
  }

  lemma AcceptStep(c: Core, acts: seq<Act>, a: Act, d: Core)
    requires AcceptInv(c, acts) && Moves(c, a, d)
    ensures AcceptInv(d, acts + [a])
  {
    Snoc(acts, a);
    var all := acts + [a];
    forall v | v in d.accepted ensures WasAccepted(all, v) {
      if v in c.accepted {
        assert WasAccepted(acts, v);
        var p :| 0 <= p < |acts| && acts[p] == Accepts(v);
        assert all[p] == Accepts(v);
      } else {
        assert all[|acts|] == Accepts(v);
      }
    }
  }

  lemma TerminalStep(c: Core, acts: seq<Act>, a: Act, d: Core)
    requires TerminalInv(c, acts) && Moves(c, a, d)
    ensures TerminalInv(d, acts + [a])
  {
    Snoc(acts, a);
  }

  lemma RetiredStays(acts: seq<Act>, a: Act, p: nat)
    requires p < |acts| && acts[p].Called? && Retired(acts, p)
    ensures (acts + [a])[p] == acts[p] && Retired(acts + [a], p)
  {
    var m :| p < m < |acts| && RetiresAt(acts[p], acts[m]);
    assert (acts + [a])[m] == acts[m];
  }

  lemma ActiveStep(c: Core, acts: seq<Act>, a: Act, d: Core)
    requires ActiveInv(c, acts) && TerminalInv(c, acts) && Moves(c, a, d)
    ensures ActiveInv(d, acts + [a])
  {
    Snoc(acts, a);
    var all := acts + [a];
    forall v | v in d.invocations ensures v in d.completed || Get(d.active, d.invocations[v].0) == Some(v) {
      ActiveHolds(c, acts, a, d, v);
    }
    forall p | 0 <= p < |all| && all[p].Called? ensures Reserved(d, all, p) {
      if p < |acts| {
        assert Reserved(c, acts, p);
        if acts[p].invocation in c.completed {
          RetiredStays(acts, a, p);
        } else if acts[p].invocation in d.completed {
          assert RetiresAt(all[p], all[|acts|]);
        }
      }
    }
  }

  lemma ActiveHolds(c: Core, acts: seq<Act>, a: Act, d: Core, v: string)
    requires ActiveInv(c, acts) && TerminalInv(c, acts) && Moves(c, a, d) && v in d.invocations
    ensures v in d.completed || Get(d.active, d.invocations[v].0) == Some(v)
  {
  }

  // ----- Every accepted history -----

  ghost predicate Inv(c: Core, acts: seq<Act>) {
    && OutstandingInv(c, acts) && NumberInv(c, acts) && ReturnInv(c, acts) && BridgeInv(c, acts)
    && AcceptInv(c, acts) && TerminalInv(c, acts) && ActiveInv(c, acts)
  }

  lemma InvStep(c: Core, acts: seq<Act>, a: Act, d: Core)
    requires Inv(c, acts) && Moves(c, a, d)
    ensures Inv(d, acts + [a])
  {
    OutstandingStep(c, acts, a, d);
    NumberStep(c, acts, a, d);
    ReturnStep(c, acts, a, d);
    BridgeStep(c, acts, a, d);
    AcceptStep(c, acts, a, d);
    TerminalStep(c, acts, a, d);
    ActiveStep(c, acts, a, d);
  }

  lemma {:induction false} RunKeepsInv(c: Case, steps: seq<WireStep>)
    requires Run(c, steps).Some?
    ensures Inv(Run(c, steps).value.core, Acts(steps))
  {
    if steps == [] {
    } else {
      var front, last := steps[..|steps| - 1], steps[|steps| - 1];
      RunKeepsInv(c, front);
      CheckMoves(c, Run(c, front).value, last);
      assert Acts(steps) == Acts(front) + [ActOf(last)];
      InvStep(Run(c, front).value.core, Acts(front), ActOf(last), Run(c, steps).value.core);
    }
  }

  /** What the checker knew before step k of an accepted history, and that it allowed the step. */
  lemma Before(c: Case, steps: seq<WireStep>, k: nat) returns (before: Core, after: Core)
    requires Run(c, steps).Some? && k < |steps|
    ensures Inv(before, Acts(steps)[..k]) && Moves(before, Acts(steps)[k], after)
    ensures Inv(after, Acts(steps)[..k + 1])
  {
    if Run(c, steps[..k]) == None {
      RunStaysNone(c, steps, k);
    }
    if Run(c, steps[..k + 1]) == None {
      RunStaysNone(c, steps, k + 1);
    }
    assert steps[..k + 1][..k] == steps[..k];
    before, after := Run(c, steps[..k]).value.core, Run(c, steps[..k + 1]).value.core;
    RunKeepsInv(c, steps[..k]);
    RunKeepsInv(c, steps[..k + 1]);
    CheckMoves(c, Run(c, steps[..k]).value, steps[k]);
    assert Acts(steps[..k]) == Acts(steps)[..k] && Acts(steps[..k + 1]) == Acts(steps)[..k + 1];
  }

  /** An exchanged release repeats the latest arrival of its invocation, which nothing has
      resolved before, after the runtime returned nil for that very arrival. */
  lemma ReleaseIsEarned(c: Case, steps: seq<WireStep>, k: nat)
    requires Run(c, steps).Some? && k < |steps| && Acts(steps)[k].Releases?
    ensures var acts := Acts(steps);
            var identity := acts[k].identity;
            var i, j := LastArrive(acts[..k], identity.invocation), LastReturn(acts[..k], identity.invocation);
            && 0 <= i < j < k
            && acts[i] == Arrives(identity) && acts[j] == Returns(identity, "nil")
            && forall m :: i < m < k ==> !IsEnd(acts[m], identity.invocation)
  {
    var before, after := Before(c, steps, k);
    var acts := Acts(steps)[..k];
    var identity := Acts(steps)[k].identity;
    var v := identity.invocation;
    assert Outstanding(before, acts, v) && Returned(before, acts, v);
    var i, j := LastArrive(acts, v), LastReturn(acts, v);
    var answered := LastArrive(acts[..j], v);
    assert acts[answered] == acts[i];
    SameArrival(acts, answered, i);
    forall m | i < m < k ensures !IsEnd(Acts(steps)[m], v) {
      assert acts[m] == Acts(steps)[m];
    }
  }

  /** An invocation has at most one exchanged terminal; it was accepted before, and the
      runtime had returned for each of its arrivals. */
  lemma TerminalIsFinal(c: Case, steps: seq<WireStep>, k: nat)
    requires Run(c, steps).Some? && k < |steps| && Acts(steps)[k].Ends?
    ensures var acts := Acts(steps);
            var v := acts[k].invocation;
            && (forall m :: 0 <= m < |acts| && acts[m].Ends? && acts[m].invocation == v ==> m == k)
            && WasAccepted(acts[..k], v)
            && forall p :: 0 <= p < k && IsArrive(acts[p], v) ==> Answered(acts[..k], p)
  {
    var acts := Acts(steps);
    var v := acts[k].invocation;
    var before, after := Before(c, steps, k);
    forall m | 0 <= m < |acts| && acts[m].Ends? && acts[m].invocation == v ensures m == k {
      if m < k {
        LaterTerminal(c, steps, m, k);
      } else if k < m {
        LaterTerminal(c, steps, k, m);
      }
    }
    forall p | 0 <= p < k && IsArrive(acts[p], v) ensures Answered(acts[..k], p) {
      assert acts[..k][p] == acts[p];
      assert Bridged(before, acts[..k], p);
    }
  }

  /** No second terminal of an invocation is accepted. */
  lemma LaterTerminal(c: Case, steps: seq<WireStep>, k: nat, m: nat)
    requires Run(c, steps).Some? && k < m < |steps|
    requires Acts(steps)[k].Ends? && Acts(steps)[m].Ends?
    ensures Acts(steps)[k].invocation != Acts(steps)[m].invocation
  {
    var before, after := Before(c, steps, m);
    assert Acts(steps)[..m][k] == Acts(steps)[k];
  }

  /** A worker is called again only after its previous call was retired by a terminal. */
  lemma OneUnretiredCall(c: Case, steps: seq<WireStep>, p: nat, k: nat)
    requires Run(c, steps).Some? && p < k < |steps|
    requires Acts(steps)[p].Called? && Acts(steps)[k].Called? && Acts(steps)[p].worker == Acts(steps)[k].worker
    ensures Retired(Acts(steps)[..k], p) && Acts(steps)[p].invocation != Acts(steps)[k].invocation
  {
    var before, after := Before(c, steps, k);
    assert Acts(steps)[..k][p] == Acts(steps)[p];
    assert Reserved(before, Acts(steps)[..k], p);
  }

  // ----- Frame numbers -----

  /** The recorded numbers are 1, 2, 3, and so on, each with its own frame. */
  ghost predicate Gapless(frames: map<nat, Frame>) {
    && (forall n :: n in frames <==> 1 <= n <= |frames|)
    && (forall n :: n in frames ==> frames[n].number == n)
  }

  /** The step appends its frame to the peer's record. */
  predicate Appends(frames: map<nat, Frame>, f: Frame, after: map<nat, Frame>) {
    f.number == |frames| + 1 && f.number !in frames && after == frames[f.number := f]
  }

  predicate Keeps(s: State, t: State, peer: Peer) {
    Seen(t, peer) == Seen(s, peer)
  }

  lemma ExchangeKeepsFrames(c: Case, s: State, f: Frame, effects: seq<string>, peer: Peer)
    ensures var r := CheckExchange(c, s, f, effects); r.Some? ==> Keeps(s, r.value, peer)
  {
  }

  lemma NumberedKeepsFrames(c: Case, s: State, f: Frame, effects: seq<string>, delivery: Delivery, peer: Peer)
    ensures var r := CheckNumbered(c, s, f, effects, delivery); r.Some? ==> Keeps(s, r.value, peer)
  {
    var s1 := s.(side := s.side.(fatalSeen := s.side.fatalSeen || f.body.Fatal?,
                                 start := if f.body.Start? then Some(f.body) else s.side.start));
    ExchangeKeepsFrames(c, s1, f, effects, peer);
  }

  lemma LocalKeepsFrames(s: State, from: Peer, event: LocalEvent, effects: seq<string>, peer: Peer)
    ensures var r := CheckLocal(s, from, event, effects); r.Some? ==> Keeps(s, r.value, peer)
  {
  }

  lemma RecordAppends(s: State, f: Frame, to: Peer, peer: Peer)
    ensures Seen(Record(s, to, f), peer) == if to == peer then Seen(s, peer)[f.number := f] else Seen(s, peer)
  {
  }

  lemma ReceiveRecords(c: Case, s: State, to: Peer, f: Frame, effects: seq<string>, delivery: Delivery, peer: Peer)
    ensures var r := CheckReceive(c, s, to, f, effects, delivery);
            r.Some? ==>
              && (Keeps(s, r.value, peer) || (to == peer && Appends(Seen(s, peer), f, Seen(r.value, peer))))
              && (delivery == Exchange && to == peer ==> Appends(Seen(s, peer), f, Seen(r.value, peer)))
  {
    var s1 := if s.side.binding == None then s.(side := s.side.(binding := Some((f.run, f.session)))) else s;
    assert Seen(s1, peer) == Seen(s, peer);
    RecordAppends(s1, f, to, peer);
    NumberedKeepsFrames(c, Record(s1, to, f), f, effects, delivery, peer);
  }

  /** A step records at most its own frame, with the next number; an exchanged frame
      always. */
  lemma CheckRecords(c: Case, s: State, step: WireStep, peer: Peer)
    ensures var r := Check(c, s, step);
            r.Some? ==>
              && (Keeps(s, r.value, peer)
                  || (step.Receive? && step.peer == peer && Appends(Seen(s, peer), step.frame, Seen(r.value, peer))))
              && (step.Receive? && step.delivery == Exchange && step.peer == peer ==>
                    Appends(Seen(s, peer), step.frame, Seen(r.value, peer)))
  {
    match step
    case Local(from, event, effects) => LocalKeepsFrames(s, from, event, effects, peer);
    case Receive(to, f, effects, delivery) => ReceiveRecords(c, s, to, f, effects, delivery, peer);
  }

  lemma AppendIsGapless(frames: map<nat, Frame>, f: Frame, after: map<nat, Frame>)
    requires Gapless(frames) && Appends(frames, f, after)
    ensures Gapless(after)
  {
    assert after.Keys == frames.Keys + {f.number};
    assert |after| == |frames| + 1;
  }

  lemma {:induction false} FramesAreGapless(c: Case, steps: seq<WireStep>, peer: Peer)
    requires Run(c, steps).Some?
    ensures Gapless(Seen(Run(c, steps).value, peer))
  {
    if steps != [] {
      var front := steps[..|steps| - 1];
      FramesAreGapless(c, front, peer);
      var last := steps[|steps| - 1];
      var s, t := Run(c, front).value, Run(c, steps).value;
      CheckRecords(c, s, last, peer);
      if !Keeps(s, t, peer) {
        AppendIsGapless(Seen(s, peer), last.frame, Seen(t, peer));
      }
    }
  }

  /** Every exchanged frame carries the next number of its receiver and is recorded. */
  lemma ExchangedFramesCount(c: Case, steps: seq<WireStep>, k: nat)
    requires Run(c, steps).Some? && k < |steps| && steps[k].Receive? && steps[k].delivery == Exchange
    ensures Run(c, steps[..k]).Some? && Run(c, steps[..k + 1]).Some?
    ensures var peer := steps[k].peer;
            Appends(Seen(Run(c, steps[..k]).value, peer), steps[k].frame, Seen(Run(c, steps[..k + 1]).value, peer))
  {
    if Run(c, steps[..k]) == None {
      RunStaysNone(c, steps, k);
    }
    if Run(c, steps[..k + 1]) == None {
      RunStaysNone(c, steps, k + 1);
    }
    assert steps[..k + 1][..k] == steps[..k];
    CheckRecords(c, Run(c, steps[..k]).value, steps[k], steps[k].peer);
  }
}