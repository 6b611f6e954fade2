/** The checker of constructed wire histories (scripts/check-external-sut-vectors.py). */
module Histories {
  import opened Options

  datatype Peer = Go | Java

  /** An exchanged frame travels between the peers; an injected one comes from the test. */
  datatype Delivery = Input | Exchange

  /** How an arrival number is written: plainly, or in some other form with that value. */
  datatype Arrival = Decimal(n: int) | Odd(text: string, n: int)

  datatype Identity = Identity(invocation: string, worker: string, point: string, arrival: Arrival)

  datatype SqlError = SqlError(kind: string, message: string, mysqlCode: int, sqlState: string)

  datatype Offer = Offer(commands: seq<string>, points: seq<string>, capacity: nat)

  datatype Body =
    | Start(offer: Offer, settings: string)
    | Ready(offer: Offer)
    | Invoke(invocation: string, worker: string, command: string)
    | Accept(invocation: string, worker: string)
    | Arrive(identity: Identity)
    | Release(identity: Identity)
    | Terminal(invocation: string, worker: string, transaction: string, connection: string, error: Option<SqlError>)
    | Cancel(invocation: string, worker: string, reason: string)
    | StopNow(budget: int)
    | Stopped
    | Fatal(kind: string)

  datatype Frame = Frame(version: nat, run: string, session: string, number: nat, body: Body)

  datatype Facts = Facts(proxyExited: bool, transaction: string, lease: string)

  datatype LocalEvent =
    | StopCall(budget: int)
    | InvokeCall(invocation: string, worker: string, command: string)
    | InvokeRejected(worker: string, command: string, reason: string)
    | WorkerArrives(identity: Identity)
    | ExhaustOutbound(limit: int)
    | ExhaustArrivals(limit: int, invocation: string)
    | CommandException(invocation: string, message: string, vendorCode: int, sqlState: string)
    | CancelContext(invocation: string)
    | RuntimeArriveReturns(identity: Identity, result: string)
    | Completion(named: Option<string>, facts: Facts)
    | OtherEvent

  datatype WireStep =
    | Local(peer: Peer, event: LocalEvent, effects: seq<string>)
    | Receive(peer: Peer, frame: Frame, effects: seq<string>, delivery: Delivery)

  const SEQUENCE_LIMIT: nat := 100000

  /** The part of the state that invocation lifecycles depend on. */
  datatype Core = Core(
    invocations: map<string, (string, string)>, active: map<string, string>,
    outstanding: map<string, Identity>, pending: map<string, Identity>, lastArrival: map<string, int>,
    accepted: set<string>, bridges: map<string, Identity>, returned: map<string, (Identity, string)>,
    terminals: map<string, Body>, completed: set<string>)

  /** Everything else the checker remembers. */
  datatype Side = Side(
    goFrames: map<nat, Frame>, javaFrames: map<nat, Frame>, first: Option<string>,
    sources: map<string, SqlError>, reasons: map<string, string>, canceled: set<string>, exhausted: set<string>,
    cleanup: map<string, Facts>, fatalSeen: bool, binding: Option<(string, string)>, start: Option<Body>,
    stopSeen: bool)

  datatype State = State(core: Core, side: Side)

  function Initial(): State {
    State(Core(map[], map[], map[], map[], map[], {}, map[], map[], map[], {}),
          Side(map[], map[], None, map[], map[], {}, {}, map[], false, None, None, false))
  }

  /** The frames a peer has accepted, by number. */
  function Seen(s: State, peer: Peer): map<nat, Frame> {
    if peer == Go then s.side.goFrames else s.side.javaFrames
  }

  function Record(s: State, peer: Peer, f: Frame): State {
    if peer == Go then s.(side := s.side.(goFrames := s.side.goFrames[f.number := f]))
    else s.(side := s.side.(javaFrames := s.side.javaFrames[f.number := f]))
  }

  /** premise decides whether an injected frame may be used at this point of the case. */
  datatype Case = Case(id: string, targets: seq<Peer>, isolated: bool,
                       premise: (State, Frame, seq<string>) -> bool)

  function Get<K, V>(m: map<K, V>, k: K): Option<V> {
    if k in m then Some(m[k]) else None
  }

  // ----- Local events -----

  function LastNumber(s: State, invocation: string): int {
    if invocation in s.core.lastArrival then s.core.lastArrival[invocation] else 0
  }

  predicate BoundTo(s: State, invocation: string, worker: string) {
    invocation in s.core.invocations && s.core.invocations[invocation].0 == worker
  }

  predicate StopEffects(effects: seq<string>) {
    if "set_single_deadline" in effects then effects[0] == "set_single_deadline"
    else "reuse_deadline" in effects || "no_new_deadline" in effects
  }

  predicate RejectionPremise(s: State, worker: string, command: string, reason: string) {
    if reason == "unknown_command" then command != "assign"
    else
      && s.side.start.Some? && s.side.start.value.Start? && command in s.side.start.value.offer.commands
      && worker !in s.core.active && |s.core.active| >= s.side.start.value.offer.capacity
  }

  /** What a local event does, if it is allowed. */
  function CheckLocal(s: State, peer: Peer, event: LocalEvent, effects: seq<string>): Option<State> {
    match event
    case StopCall(budget) =>
      if 1 <= budget <= 2147483647 && StopEffects(effects) then Some(s) else None
    case InvokeCall(invocation, worker, command) =>
      if peer != Go then Some(s)
      else if invocation in s.core.invocations || worker in s.core.active then None
      else Some(s.(core := s.core.(invocations := s.core.invocations[invocation := (worker, command)],
                                   active := s.core.active[worker := invocation]),
                   side := s.side.(first := if s.side.first == None then Some(invocation) else s.side.first)))
    case InvokeRejected(worker, command, reason) =>
      if peer != Go then Some(s)
      else if (reason == "unknown_command" || reason == "capacity")
           && "admission_rejected" in effects && "no_wire_output" in effects
           && RejectionPremise(s, worker, command, reason) then Some(s)
      else None
    case WorkerArrives(identity) =>
      if peer != Java then Some(s)
      else
        var invocation := identity.invocation;
        if BoundTo(s, invocation, identity.worker)
           && invocation !in s.core.outstanding && invocation !in s.core.pending
           && identity.arrival.n == LastNumber(s, invocation) + 1
        then Some(s.(core := s.core.(pending := s.core.pending[invocation := identity])))
        else None
    case ExhaustOutbound(limit) =>
      if limit == SEQUENCE_LIMIT && "outbound_sequence_at_limit" in effects then Some(s) else None
    case ExhaustArrivals(limit, invocation) =>
      if limit == SEQUENCE_LIMIT && invocation in s.core.invocations && "arrival_sequence_at_limit" in effects
      then Some(s.(core := s.core.(lastArrival := s.core.lastArrival[invocation := SEQUENCE_LIMIT]),
                   side := s.side.(exhausted := s.side.exhausted + {invocation})))
      else None
    case CommandException(invocation, message, vendorCode, sqlState) =>
      if peer != Java then Some(s)
      else
        var error := SqlError("", message, vendorCode, sqlState);
        Some(s.(side := s.side.(sources := s.side.sources[invocation := error])))
    case CancelContext(invocation) =>
      if peer != Go then Some(s)
      else if invocation in s.core.invocations
      then Some(s.(side := s.side.(canceled := s.side.canceled + {invocation})))
      else None
    case RuntimeArriveReturns(identity, result) =>
      if peer != Go then Some(s)
      else
        var invocation := identity.invocation;
        if Get(s.core.outstanding, invocation) == Some(identity) && Get(s.core.bridges, invocation) == Some(identity)
        then Some(s.(core := s.core.(bridges := s.core.bridges - {invocation},
                                     returned := s.core.returned[invocation := (identity, result)])))
        else None
    case Completion(given, facts) =>
      if peer != Java then Some(s)
      else
        var invocation := if given.Some? then given else s.side.first;
        if invocation.Some? && invocation.value in s.core.accepted
        then Some(s.(side := s.side.(cleanup := s.side.cleanup[invocation.value := facts])))
        else None
    case OtherEvent => Some(s)
  }

  // ----- Frames -----

  predicate ToJava(body: Body) {
    body.Start? || body.Invoke? || body.Release? || body.Cancel? || body.StopNow?
  }

  /** The numeric bounds of a well-formed frame. */
  predicate Shaped(f: Frame) {
    && f.version >= 1 && 1 <= f.number <= SEQUENCE_LIMIT
    && (f.body.Arrive? || f.body.Release? ==>
          f.body.identity.arrival.Decimal? && 1 <= f.body.identity.arrival.n <= SEQUENCE_LIMIT)
  }

  /** Cases that inject a frame in the wrong direction or a second time on purpose. */
  predicate Misdirected(c: Case, peer: Peer, body: Body) {
    || (c.id == "java_wrong_direction" && peer == Java && body.Ready?)
    || ((c.id == "go_wrong_direction" || c.id == "go_semantic_duplicate_invoke") && peer == Go && body.Invoke?)
    || (c.id == "go_semantic_duplicate_start" && peer == Go && body.Start?)
  }

  /** An exchanged frame of a lifecycle message, after all checks on its envelope. */
  function CheckExchange(c: Case, s: State, f: Frame, effects: seq<string>): Option<State> {
    match f.body
    case Invoke(invocation, worker, command) =>
      if Get(s.core.invocations, invocation) == Some((worker, command)) then Some(s) else None
    case Accept(invocation, worker) =>
      if BoundTo(s, invocation, worker) && invocation !in s.core.accepted
      then Some(s.(core := s.core.(accepted := s.core.accepted + {invocation})))
      else None
    case Arrive(identity) =>
      var invocation := identity.invocation;
      if BoundTo(s, invocation, identity.worker)
         && Get(s.core.pending, invocation) == Some(identity) && invocation !in s.core.outstanding
         && invocation in s.core.accepted
      then Some(s.(core := s.core.(outstanding := s.core.outstanding[invocation := identity],
                                   bridges := s.core.bridges[invocation := identity],
                                   lastArrival := s.core.lastArrival[invocation := identity.arrival.n],
                                   pending := s.core.pending - {invocation})))
      else None
    case Release(identity) =>
      var invocation := identity.invocation;
      if Get(s.core.outstanding, invocation) == Some(identity)
         && Get(s.core.returned, invocation) == Some((identity, "nil"))
      then Some(s.(core := s.core.(outstanding := s.core.outstanding - {invocation})))
      else None
    case Cancel(invocation, worker, reason) =>
      if BoundTo(s, invocation, worker)
         && ("request_jdbc_cancel" in effects && Java in c.targets && "cancel_latched" in effects ==>
               WatchdogFirst(effects))
      then Some(s.(side := s.side.(reasons := if invocation in s.side.reasons then s.side.reasons
                                              else s.side.reasons[invocation := reason],
                                   canceled := s.side.canceled + {invocation})))
      else None
    case Terminal(_, _, _, _, _) => CheckTerminal(c, s, f.body, effects)
    case StopNow(_) => Some(s.(side := s.side.(stopSeen := true)))
    case _ => Some(s)
  }

  function Position(effects: seq<string>, tag: string): nat {
    if effects == [] || effects[0] == tag then 0 else 1 + Position(effects[1..], tag)
  }

  predicate WatchdogFirst(effects: seq<string>) {
    "arm_cleanup_watchdog" in effects
    && Position(effects, "arm_cleanup_watchdog") < Position(effects, "request_jdbc_cancel")
  }

  /** The error a terminal reports has its own source. */
  predicate ErrorHasSource(c: Case, s: State, body: Body)
    requires body.Terminal?
  {
    if body.error == None || Java !in c.targets then true
    else
      var e, invocation := body.error.value, body.invocation;
      if e.kind == "cancelled" then
        invocation in s.side.reasons && e.message == "cancelled by " + s.side.reasons[invocation]
      else Get(s.side.sources, invocation) == Some(SqlError("", e.message, e.mysqlCode, e.sqlState))
  }

  predicate TerminalAllowed(c: Case, s: State, body: Body, effects: seq<string>)
    requires body.Terminal?
  {
    var invocation := body.invocation;
    && BoundTo(s, invocation, body.worker)
    && invocation in s.core.accepted && invocation !in s.core.terminals
    && invocation !in s.core.bridges && invocation !in s.core.pending
    && (invocation !in s.core.outstanding || invocation in s.side.reasons)
    && invocation in s.side.cleanup
    && s.side.cleanup[invocation].transaction == body.transaction && s.side.cleanup[invocation].lease == body.connection
    && (body.transaction == "not_started" || s.side.cleanup[invocation].proxyExited)
    && ErrorHasSource(c, s, body)
    && (body.transaction == "not_started" ==> "no_worker_result" in effects)
  }

  /** A terminal retires its invocation once its result channel is closed. */
  function AfterTerminal(s: State, body: Body, retires: bool): State
    requires body.Terminal?
  {
    s.(core := s.core.(outstanding := s.core.outstanding - {body.invocation},
                       terminals := s.core.terminals[body.invocation := body],
                       active := if retires then s.core.active - {body.worker} else s.core.active,
                       completed := if retires then s.core.completed + {body.invocation} else s.core.completed))
  }

  function CheckTerminal(c: Case, s: State, body: Body, effects: seq<string>): Option<State>
    requires body.Terminal?
  {
    if TerminalAllowed(c, s, body, effects)
    then Some(AfterTerminal(s, body, "close_result_channel" in effects))
    else None
  }

  /** A retired invocation may see its terminal again only in the cases about that. */
  predicate RetiredTerminal(c: Case, s: State, body: Body, effects: seq<string>)
    requires body.Terminal?
  {
    && (c.id == "retired_terminal_identical" || c.id == "retired_terminal_conflict")
    && (Get(s.core.terminals, body.invocation) == Some(body)) == (c.id == "retired_terminal_identical")
    && (if c.id == "retired_terminal_identical" then
          && "consume_retired_invocation" in effects && "no_worker_result" in effects
          && "no_new_worker_effect" in effects && "no_fatal" in effects && "no_reply" in effects
        else "fatal_protocol" in effects && "no_worker_result" in effects && "abort_run" in effects)
  }

  /** A frame with a fresh number, in order. */
  function CheckNumbered(c: Case, s: State, f: Frame, effects: seq<string>, delivery: Delivery): Option<State> {
    var body := f.body;
    if s.side.fatalSeen && !body.Fatal? && !(body.StopNow? && "no_stopped_required" in effects) then None
    else
      var s1 := s.(side := s.side.(fatalSeen := s.side.fatalSeen || body.Fatal?,
                                   start := if body.Start? then Some(body) else s.side.start));
      if body.Ready? && s1.side.start.Some? && s1.side.start.value.Start? && body.offer != s1.side.start.value.offer
         && !(c.targets == [Go] && delivery == Input && "startup_error" in effects) then None
      else if delivery == Input then
        if body.Terminal? && body.invocation in s.core.completed then
          if RetiredTerminal(c, s, body, effects) then Some(s1) else None
        else if c.premise(s1, f, effects) then Some(s1) else None
      else CheckExchange(c, s1, f, effects)
  }

  /** A frame that is well formed and sent the right way, in the version of the protocol. */
  function CheckSession(c: Case, s: State, peer: Peer, f: Frame, effects: seq<string>, delivery: Delivery)
    : Option<State>
  {
    var s1 := if s.side.binding == None then s.(side := s.side.(binding := Some((f.run, f.session)))) else s;
    if s1.side.binding != Some((f.run, f.session)) then
      if delivery == Input && "drop_foreign_session" in effects then Some(s1) else None
    else
      var seen := Seen(s, peer);
      if f.number in seen || f.number != |seen| + 1 then
        if delivery == Exchange then None
        else if Get(seen, f.number) == Some(f) then
          if "ignore_duplicate" in effects && "no_reply" in effects then Some(s1) else None
        else if "fatal_protocol" in effects then Some(s1) else None
      else CheckNumbered(c, Record(s1, peer, f), f, effects, delivery)
  }

  function CheckReceive(c: Case, s: State, peer: Peer, f: Frame, effects: seq<string>, delivery: Delivery)
    : Option<State>
  {
    if !Shaped(f) || (delivery == Input && peer !in c.targets) then None
    else if Misdirected(c, peer, f.body) && delivery == Input then
      if "fatal_protocol" !in effects then None
      else if f.body.Ready? || c.id == "go_wrong_direction" || c.premise(s, f, effects) then Some(s)
      else None
    else if !f.body.Fatal? && (peer == Java) != ToJava(f.body) then None
    else if f.version != 1 then
      if delivery == Input && "fatal_version" in effects then Some(s) else None
    else CheckSession(c, s, peer, f, effects, delivery)
  }

  function Check(c: Case, s: State, step: WireStep): Option<State> {
    if step.effects == [] then None
    else
      match step
      case Local(peer, event, effects) => CheckLocal(s, peer, event, effects)
      case Receive(peer, frame, effects, delivery) => CheckReceive(c, s, peer, frame, effects, delivery)
  }

  predicate Scoped(c: Case) {
    c.isolated && (c.targets == [Go] || c.targets == [Java] || c.targets == [Go, Java] || c.targets == [Java, Go])
  }

  /** The state after all steps, if every one of them is allowed. */
  function Run(c: Case, steps: seq<WireStep>): Option<State> {
    if steps == [] then Some(Initial())
    else
      var before := Run(c, steps[..|steps| - 1]);
      if before == None then None else Check(c, before.value, steps[|steps| - 1])
  }

  ghost predicate Valid(c: Case, steps: seq<WireStep>) {
    Scoped(c) && Run(c, steps).Some?
  }

  /** Accepts exactly the valid histories. */
  method History(c: Case, steps: seq<WireStep>) returns (ok: bool)
    ensures ok <==> Valid(c, steps)
  {
    if !Scoped(c) {
      return false;
    }
    var s := Initial();
    for i := 0 to |steps|
      invariant Run(c, steps[..i]) == Some(s)
    {
      var next := Check(c, s, steps[i]);
      assert steps[..i + 1][..i] == steps[..i];
      if next == None {
        RunStaysNone(c, steps, i + 1);
        return false;
      }
      s := next.value;
    }
    assert steps[..|steps|] == steps;
    ok := true;
  }

  lemma {:induction false} RunStaysNone(c: Case, steps: seq<WireStep>, k: nat)
    requires k <= |steps| && Run(c, steps[..k]) == None
    ensures Run(c, steps) == None
    decreases |steps|
  {
    if k == |steps| {
      assert steps[..k] == steps;
    } else {
      assert steps[..|steps| - 1][..k] == steps[..k];
      RunStaysNone(c, steps[..|steps| - 1], k);
    }
  }
}
