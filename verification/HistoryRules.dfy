/** Which steps the checker of wire histories takes, told by the steps before them
    (scripts/check-external-sut-vectors.py, function history). */
module HistoryRules {
  import opened Options
  import opened Histories
  import opened HistorySafety

  // ----- What the steps told about an invocation -----

  datatype Tale = Tale(
    called: Option<(string, string)>, accepted: bool, waiting: Option<Identity>, standing: Option<Identity>,
    bridge: Option<Identity>, returned: Option<(Identity, string)>, number: int, ended: Option<Body>,
    retired: bool, raised: Option<SqlError>, reason: Option<string>, facts: Option<Facts>)

  const UNHEARD := Tale(None, false, None, None, None, None, 0, None, false, None, None, None)

  /** A completion that names no invocation is about the first one called. */
  predicate Concludes(step: WireStep, v: string, first: Option<string>) {
    && step.Local? && step.peer == Java && step.event.Completion?
    && (step.event.named == Some(v) || (step.event.named == None && first == Some(v)))
  }

  predicate Raises(step: WireStep, v: string) {
    step.Local? && step.peer == Java && step.event.CommandException? && step.event.invocation == v
  }

  predicate Cancels(step: WireStep, v: string) {
    step.Receive? && step.delivery == Exchange && step.frame.body.Cancel? && step.frame.body.invocation == v
  }

  predicate Calls(step: WireStep) {
    step.Local? && step.peer == Go && step.event.InvokeCall?
  }

  function HearLocal(peer: Peer, event: LocalEvent, v: string, first: Option<string>, t: Tale): Tale {
    match event
    case InvokeCall(invocation, worker, command) =>
      if peer == Go && invocation == v then t.(called := Some((worker, command))) else t
    case WorkerArrives(identity) =>
      if peer == Java && identity.invocation == v then t.(waiting := Some(identity)) else t
    case ExhaustArrivals(_, invocation) => if invocation == v then t.(number := 100000) else t
    case CommandException(invocation, message, code, state) =>
      if peer == Java && invocation == v then t.(raised := Some(SqlError("", message, code, state))) else t
    case RuntimeArriveReturns(identity, result) =>
      if peer == Go && identity.invocation == v then t.(bridge := None, returned := Some((identity, result))) else t
    case Completion(named, facts) =>
      if peer == Java && (named == Some(v) || (named == None && first == Some(v))) then t.(facts := Some(facts)) else t
    case _ => t
  }

  function HearBody(body: Body, effects: seq<string>, v: string, t: Tale): Tale {
    match body
    case Accept(invocation, _) => if invocation == v then t.(accepted := true) else t
    case Arrive(identity) =>
      if identity.invocation == v
      then t.(standing := Some(identity), bridge := Some(identity), number := identity.arrival.n, waiting := None)
      else t
    case Release(identity) => if identity.invocation == v then t.(standing := None) else t
    case Cancel(invocation, _, reason) =>
      if invocation == v && t.reason == None then t.(reason := Some(reason)) else t
    case Terminal(invocation, _, _, _, _) =>
      if invocation == v
      then t.(standing := None, ended := Some(body), retired := t.retired || "close_result_channel" in effects)
      else t
    case _ => t
  }

  function Hear(step: WireStep, v: string, first: Option<string>, t: Tale): Tale {
    match step
    case Local(peer, event, _) => HearLocal(peer, event, v, first, t)
    case Receive(_, frame, effects, delivery) =>
      if delivery == Exchange then HearBody(frame.body, effects, v, t) else t
  }

  /** The first invocation called. */
  function First(past: seq<WireStep>): Option<string> {
    if past == [] then None
    else
      var earlier, last := First(past[..|past| - 1]), past[|past| - 1];
      if earlier == None && Calls(last) then Some(last.event.invocation) else earlier
  }

  function Heard(past: seq<WireStep>, v: string): Tale {
    if past == [] then UNHEARD
    else Hear(past[|past| - 1], v, First(past[..|past| - 1]), Heard(past[..|past| - 1], v))
  }

  // ----- What they told once and for all -----

  datatype Flag = StopAsked | Withdrawn(invocation: string) | SpentArrivals(invocation: string)

  predicate Sets(step: WireStep, flag: Flag) {
    match flag
    case StopAsked => step.Receive? && step.delivery == Exchange && step.frame.body.StopNow?
    case Withdrawn(v) =>
      Cancels(step, v) || (step.Local? && step.peer == Go && step.event == CancelContext(v))
    case SpentArrivals(v) => step.Local? && step.event.ExhaustArrivals? && step.event.invocation == v
  }

  function Flagged(past: seq<WireStep>, flag: Flag): bool {
    exists i :: 0 <= i < |past| && Sets(past[i], flag)
  }

  // ----- What they told about workers -----

  predicate Retires(step: WireStep) {
    step.Receive? && step.delivery == Exchange && step.frame.body.Terminal? && "close_result_channel" in step.effects
  }

  /** The call that reserves a worker: its latest one, unless a terminal has retired it. */
  function Reserved(past: seq<WireStep>, worker: string): Option<string> {
    if past == [] then None
    else
      var last := past[|past| - 1];
      if Calls(last) && last.event.worker == worker then Some(last.event.invocation)
      else if Retires(last) && last.frame.body.worker == worker then None
      else Reserved(past[..|past| - 1], worker)
  }

  /** Calls made less calls retired. */
  function Busy(past: seq<WireStep>): int {
    if past == [] then 0
    else
      var last := past[|past| - 1];
      Busy(past[..|past| - 1]) + (if Calls(last) then 1 else 0) - (if Retires(last) then 1 else 0)
  }

  // ----- What they told about the session -----

  /** The session, whether it had a fatal frame, its start, and the frames each peer has taken. */
  datatype Talk = Talk(session: Option<(string, string)>, fatal: bool, start: Option<Body>,
                       goFrames: seq<Frame>, javaFrames: seq<Frame>)
  {
    function Frames(peer: Peer): seq<Frame> {
      if peer == Go then goFrames else javaFrames
    }
  }

  /** An injected frame that a case sends the wrong way or a second time. */
  predicate Astray(c: Case, step: WireStep) {
    step.Receive? && step.delivery == Input &&
    match c.id
    case "java_wrong_direction" => step.peer == Java && step.frame.body.Ready?
    case "go_wrong_direction" => step.peer == Go && step.frame.body.Invoke?
    case "go_semantic_duplicate_invoke" => step.peer == Go && step.frame.body.Invoke?
    case "go_semantic_duplicate_start" => step.peer == Go && step.frame.body.Start?
    case _ => false
  }

  function Opened(t: Talk, f: Frame): Talk {
    t.(session := if t.session == None then Some((f.run, f.session)) else t.session)
  }

  /** A peer takes the frames of the session that carry its next number. */
  predicate Takes(c: Case, t: Talk, step: WireStep) {
    && step.Receive? && !Astray(c, step) && step.frame.version == 1
    && Opened(t, step.frame).session == Some((step.frame.run, step.frame.session))
    && step.frame.number == |t.Frames(step.peer)| + 1
  }

  function Converse(c: Case, step: WireStep, t: Talk): Talk {
    if !step.Receive? || Astray(c, step) || step.frame.version != 1 then t
    else
      var f, open := step.frame, Opened(t, step.frame);
      if !Takes(c, t, step) then open
      else open.(fatal := t.fatal || f.body.Fatal?, start := if f.body.Start? then Some(f.body) else t.start,
                 goFrames := t.goFrames + (if step.peer == Go then [f] else []),
                 javaFrames := t.javaFrames + (if step.peer == Java then [f] else []))
  }

  function Conversed(c: Case, past: seq<WireStep>): Talk {
    if past == [] then Talk(None, false, None, [], [])
    else Converse(c, past[|past| - 1], Conversed(c, past[..|past| - 1]))
  }

  // ----- The rule -----

  predicate CalledBy(t: Tale, worker: string) {
    t.called.Some? && t.called.value.0 == worker
  }

  predicate LocalRule(c: Case, past: seq<WireStep>, peer: Peer, event: LocalEvent, effects: seq<string>)
    requires effects != []
  {
    match event
    case StopCall(budget) =>
      && 1 <= budget <= 2147483647
      && (effects[0] == "set_single_deadline"
          || ("set_single_deadline" !in effects && ("reuse_deadline" in effects || "no_new_deadline" in effects)))
    case InvokeCall(invocation, worker, _) =>
      peer == Java || (Heard(past, invocation).called == None && Reserved(past, worker) == None)
    case InvokeRejected(worker, command, reason) =>
      peer == Java ||
      (&& "admission_rejected" in effects && "no_wire_output" in effects
       && ((reason == "unknown_command" && command != "assign")
           || (reason == "capacity" && OverCapacity(c, past, worker, command))))
    case WorkerArrives(identity) =>
      peer == Go ||
      (var t := Heard(past, identity.invocation);
       && CalledBy(t, identity.worker) && t.standing == None && t.waiting == None
       && identity.arrival.n == t.number + 1)
    case ExhaustOutbound(limit) => limit == 100000 && "outbound_sequence_at_limit" in effects
    case ExhaustArrivals(limit, invocation) =>
      limit == 100000 && Heard(past, invocation).called != None && "arrival_sequence_at_limit" in effects
    case CommandException(_, _, _, _) => true
    case CancelContext(invocation) => peer == Java || Heard(past, invocation).called != None
    case RuntimeArriveReturns(identity, _) =>
      peer == Java || (var t := Heard(past, identity.invocation);
                       t.standing == Some(identity) && t.bridge == Some(identity))
    case Completion(named, _) =>
      peer == Go || (if named.Some? then Heard(past, named.value).accepted
                     else First(past).Some? && Heard(past, First(past).value).accepted)
    case OtherEvent => true
  }

  predicate OverCapacity(c: Case, past: seq<WireStep>, worker: string, command: string) {
    var start := Conversed(c, past).start;
    && start.Some? && start.value.Start? && command in start.value.offer.commands
    && Reserved(past, worker) == None && Busy(past) >= start.value.offer.capacity
  }

  predicate WellFormed(f: Frame) {
    && 1 <= f.version && 1 <= f.number <= 100000
    && (f.body.Arrive? || f.body.Release? ==>
          && f.body.identity.arrival.Decimal?
          && 1 <= f.body.identity.arrival.n && f.body.identity.arrival.n <= 100000)
  }

  predicate RightWay(peer: Peer, body: Body) {
    match body
    case Start(_, _) => peer == Java
    case Invoke(_, _, _) => peer == Java
    case Release(_) => peer == Java
    case Cancel(_, _, _) => peer == Java
    case StopNow(_) => peer == Java
    case Ready(_) => peer == Go
    case Accept(_, _) => peer == Go
    case Arrive(_) => peer == Go
    case Terminal(_, _, _, _, _) => peer == Go
    case Stopped => peer == Go
    case Fatal(_) => true
  }

  predicate Comes(effects: seq<string>, early: string, late: string) {
    exists i :: 0 <= i < |effects| && effects[i] == early && forall j :: 0 <= j <= i ==> effects[j] != late
  }

  predicate TerminalRule(c: Case, t: Tale, body: Body, effects: seq<string>)
    requires body.Terminal?
  {
    && CalledBy(t, body.worker) && t.accepted && t.ended == None && t.bridge == None && t.waiting == None
    && (t.standing == None || t.reason != None)
    && t.facts.Some? && t.facts.value.transaction == body.transaction && t.facts.value.lease == body.connection
    && (if body.transaction == "not_started" then "no_worker_result" in effects else t.facts.value.proxyExited)
    && (body.error.Some? && Java in c.targets ==> HasCause(t, body.error.value))
  }

  /** A cancellation names the first reason given, any other error is the latest exception. */
  predicate HasCause(t: Tale, e: SqlError) {
    if e.kind == "cancelled" then t.reason.Some? && e.message == "cancelled by " + t.reason.value
    else t.raised == Some(SqlError("", e.message, e.mysqlCode, e.sqlState))
  }

  predicate ExchangeRule(c: Case, past: seq<WireStep>, body: Body, effects: seq<string>) {
    match body
    case Invoke(invocation, worker, command) => Heard(past, invocation).called == Some((worker, command))
    case Accept(invocation, worker) =>
      CalledBy(Heard(past, invocation), worker) && !Heard(past, invocation).accepted
    case Arrive(identity) =>
      var t := Heard(past, identity.invocation);
      CalledBy(t, identity.worker) && t.waiting == Some(identity) && t.standing == None && t.accepted
    case Release(identity) =>
      var t := Heard(past, identity.invocation);
      t.standing == Some(identity) && t.returned == Some((identity, "nil"))
    case Cancel(invocation, worker, _) =>
      && CalledBy(Heard(past, invocation), worker)
      && ("request_jdbc_cancel" in effects && "cancel_latched" in effects && Java in c.targets ==>
            Comes(effects, "arm_cleanup_watchdog", "request_jdbc_cancel"))
    case Terminal(invocation, _, _, _, _) => TerminalRule(c, Heard(past, invocation), body, effects)
    case _ => true
  }

  /** What an injected terminal of a retired invocation must be, case by case. */
  predicate RetiredRule(c: Case, t: Tale, body: Body, effects: seq<string>) {
    match c.id
    case "retired_terminal_identical" =>
      && t.ended == Some(body)
      && "consume_retired_invocation" in effects && "no_worker_result" in effects
      && "no_new_worker_effect" in effects && "no_fatal" in effects && "no_reply" in effects
    case "retired_terminal_conflict" =>
      && t.ended != Some(body)
      && "fatal_protocol" in effects && "no_worker_result" in effects && "abort_run" in effects
    case _ => false
  }

  /** A frame that its peer takes. */
  predicate TakenRule(c: Case, past: seq<WireStep>, f: Frame, effects: seq<string>, delivery: Delivery, given: bool) {
    var t := Conversed(c, past);
    && (t.fatal ==> f.body.Fatal? || (f.body.StopNow? && "no_stopped_required" in effects))
    && (f.body.Ready? && t.start.Some? && t.start.value.Start? && t.start.value.offer != f.body.offer ==>
          c.targets == [Go] && delivery == Input && "startup_error" in effects)
    && match delivery
       case Exchange => ExchangeRule(c, past, f.body, effects)
       case Input =>
         if f.body.Terminal? && Heard(past, f.body.invocation).retired
         then RetiredRule(c, Heard(past, f.body.invocation), f.body, effects) else given
  }

  /** What a frame of the right version must be, when taken says whether its peer may take it. */
  predicate SessionRule(t: Talk, step: WireStep, taken: bool)
    requires step.Receive? && step.frame.number >= 1
  {
    var f, effects, frames := step.frame, step.effects, t.Frames(step.peer);
    if Opened(t, f).session != Some((f.run, f.session)) then
      step.delivery == Input && "drop_foreign_session" in effects
    else if f.number == |frames| + 1 then taken
    else
      step.delivery == Input &&
      if f.number <= |frames| && frames[f.number - 1] == f
      then "ignore_duplicate" in effects && "no_reply" in effects
      else "fatal_protocol" in effects
  }

  predicate Envelope(c: Case, t: Talk, step: WireStep, given: bool, taken: bool)
    requires step.Receive?
  {
    var f, effects := step.frame, step.effects;
    && WellFormed(f) && (step.delivery == Input ==> step.peer in c.targets)
    && if Astray(c, step) then
         "fatal_protocol" in effects && (c.id == "java_wrong_direction" || c.id == "go_wrong_direction" || given)
       else
         && RightWay(step.peer, f.body)
         && if f.version == 1 then SessionRule(t, step, taken)
            else step.delivery == Input && "fatal_version" in effects
  }

  /** given says whether the case declares the premise of an injected frame. */
  predicate Rule(c: Case, past: seq<WireStep>, step: WireStep, given: bool) {
    step.effects != [] &&
    match step
    case Local(peer, event, effects) => LocalRule(c, past, peer, event, effects)
    case Receive(_, frame, effects, delivery) =>
      Envelope(c, Conversed(c, past), step, given, TakenRule(c, past, frame, effects, delivery, given))
  }

  // ----- What the checker remembers is what the steps told -----

  function TaleOf(s: State, v: string): Tale {
    Tale(Get(s.core.invocations, v), v in s.core.accepted, Get(s.core.pending, v), Get(s.core.outstanding, v),
         Get(s.core.bridges, v), Get(s.core.returned, v), LastNumber(s, v), Get(s.core.terminals, v),
         v in s.core.completed, Get(s.side.sources, v), Get(s.side.reasons, v), Get(s.side.cleanup, v))
  }

  ghost predicate FramesAgree(recorded: map<nat, Frame>, taken: seq<Frame>) {
    && |recorded| == |taken|
    && (forall n :: n in recorded <==> 1 <= n <= |taken|)
    && (forall n :: n in recorded ==> recorded[n] == taken[n - 1])
  }

  ghost predicate TalkAgrees(s: State, t: Talk) {
    && s.side.binding == t.session && s.side.fatalSeen == t.fatal && s.side.start == t.start
    && FramesAgree(Seen(s, Go), t.goFrames) && FramesAgree(Seen(s, Java), t.javaFrames)
  }

  ghost predicate TalesAgree(s: State, past: seq<WireStep>) {
    && s.side.first == First(past)
    && forall v :: TaleOf(s, v) == Heard(past, v)
  }

  ghost predicate WorkersAgree(s: State, past: seq<WireStep>) {
    && |s.core.active| == Busy(past)
    && forall w :: Get(s.core.active, w) == Reserved(past, w)
  }

  predicate TellsCore(event: LocalEvent) {
    event.InvokeCall? || event.WorkerArrives? || event.ExhaustArrivals? || event.RuntimeArriveReturns?
  }

  lemma CoreHears(s: State, peer: Peer, event: LocalEvent, effects: seq<string>, v: string)
    requires TellsCore(event)
    ensures var r := CheckLocal(s, peer, event, effects);
            r.Some? ==> TaleOf(r.value, v) == HearLocal(peer, event, v, s.side.first, TaleOf(s, v))
  {
    match event
    case InvokeCall(_, _, _) =>
    case WorkerArrives(_) =>
    case ExhaustArrivals(_, _) =>
    case RuntimeArriveReturns(_, _) =>
  }

  lemma SideHears(s: State, peer: Peer, event: LocalEvent, effects: seq<string>, v: string)
    requires !TellsCore(event)
    ensures var r := CheckLocal(s, peer, event, effects);
            r.Some? ==> TaleOf(r.value, v) == HearLocal(peer, event, v, s.side.first, TaleOf(s, v))
  {
    match event
    case StopCall(_) =>
    case InvokeRejected(_, _, _) =>
    case ExhaustOutbound(_) =>
    case CommandException(_, _, _, _) =>
    case CancelContext(_) =>
    case Completion(_, _) =>
    case OtherEvent =>
  }

  lemma ExchangeHears(c: Case, s: State, f: Frame, effects: seq<string>, v: string)
    ensures var r := CheckExchange(c, s, f, effects);
            r.Some? ==> TaleOf(r.value, v) == HearBody(f.body, effects, v, TaleOf(s, v))
  {
    match f.body
    case Accept(_, _) =>
    case Arrive(_) =>
    case Release(_) =>
    case Cancel(_, _, _) =>
    case Terminal(_, _, _, _, _) =>
    case _ =>
  }

  lemma NumberedHears(c: Case, s: State, f: Frame, effects: seq<string>, delivery: Delivery, v: string)
    ensures var r := CheckNumbered(c, s, f, effects, delivery);
            var t := TaleOf(s, v);
            r.Some? ==> TaleOf(r.value, v) == if delivery == Exchange then HearBody(f.body, effects, v, t) else t
  {
    ExchangeHears(c, Noted(s, f), f, effects, v);
  }

  /** The state once a frame is taken, before its body is looked at. */
  function Noted(s: State, f: Frame): State {
    s.(side := s.side.(fatalSeen := s.side.fatalSeen || f.body.Fatal?,
                       start := if f.body.Start? then Some(f.body) else s.side.start))
  }

  function Joined(s: State, f: Frame): State {
    if s.side.binding == None then s.(side := s.side.(binding := Some((f.run, f.session)))) else s
  }

  /** A frame leaves the state alone, or is taken as its body says. */
  lemma ReceiveOutcome(c: Case, s: State, step: WireStep, t: Talk)
    requires step.Receive? && TalkAgrees(s, t)
    ensures var f, effects, delivery := step.frame, step.effects, step.delivery;
            var r := CheckReceive(c, s, step.peer, f, effects, delivery);
            r.Some? ==>
              && (delivery == Exchange ==> Takes(c, t, step))
              && r == if Astray(c, step) || f.version != 1 then Some(s)
                      else if !Takes(c, t, step) then Some(Joined(s, f))
                      else CheckNumbered(c, Record(Joined(s, f), step.peer, f), f, effects, delivery)
  {
    assert FramesAgree(Seen(s, step.peer), t.Frames(step.peer));
    assert step.frame.number in Seen(s, step.peer) <==> 1 <= step.frame.number <= |t.Frames(step.peer)|;
    assert Seen(Joined(s, step.frame), step.peer) == Seen(s, step.peer);
  }

  lemma SameTale(s: State, s': State, v: string)
    requires s'.core == s.core
    requires s'.side.sources == s.side.sources && s'.side.reasons == s.side.reasons && s'.side.cleanup == s.side.cleanup
    ensures TaleOf(s', v) == TaleOf(s, v)
  {
  }

  lemma ReceiveHears(c: Case, s: State, step: WireStep, t: Talk, v: string)
    requires TalkAgrees(s, t) && step.Receive?
    ensures var r := CheckReceive(c, s, step.peer, step.frame, step.effects, step.delivery);
            r.Some? ==> TaleOf(r.value, v) == Hear(step, v, s.side.first, TaleOf(s, v))
  {
    ReceiveOutcome(c, s, step, t);
    var f := step.frame;
    var noted := Record(Joined(s, f), step.peer, f);
    SameTale(s, Joined(s, f), v);
    SameTale(s, noted, v);
    if Takes(c, t, step) {
      NumberedHears(c, noted, f, step.effects, step.delivery, v);
    } else {
      assert step.delivery == Exchange ==>
               CheckReceive(c, s, step.peer, step.frame, step.effects, step.delivery) == None;
    }
  }

  lemma CheckHears(c: Case, s: State, step: WireStep, t: Talk, v: string)
    requires TalkAgrees(s, t) && Check(c, s, step).Some?
    ensures TaleOf(Check(c, s, step).value, v) == Hear(step, v, s.side.first, TaleOf(s, v))
  {
    match step
    case Local(peer, event, effects) =>
      if TellsCore(event) {
        CoreHears(s, peer, event, effects, v);
      } else {
        SideHears(s, peer, event, effects, v);
      }
    case Receive(_, _, _, _) => ReceiveHears(c, s, step, t, v);
  }

  // ----- Workers -----

  lemma RetiredWasActive(before: Core, acts: seq<Act>, a: Act, after: Core)
    requires ActiveInv(before, acts) && TerminalInv(before, acts) && Moves(before, a, after)
    requires a.Ends? && a.retires
    ensures a.worker in before.active
  {
    assert a.invocation !in before.completed;
    assert Get(before.active, before.invocations[a.invocation].0) == Some(a.invocation);
  }

  lemma WorkersMove(before: Core, a: Act, after: Core)
    requires Moves(before, a, after) && (a.Ends? && a.retires ==> a.worker in before.active)
    ensures after.active == if a.Called? then before.active[a.worker := a.invocation]
                            else if a.Ends? && a.retires then before.active - {a.worker}
                            else before.active
    ensures |after.active|
         == |before.active| + (if a.Called? then 1 else 0) - (if a.Ends? && a.retires then 1 else 0)
  {
    if a.Called? {
      AddOne(before.active, a.worker, a.invocation);
    } else if a.Ends? && a.retires {
      DropOne(before.active, a.worker);
    }
  }

  lemma AddOne(m: map<string, string>, k: string, x: string)
    requires k !in m
    ensures |m[k := x]| == |m| + 1
  {
    assert m[k := x].Keys == m.Keys + {k};
  }

  lemma DropOne(m: map<string, string>, k: string)
    requires k in m
    ensures |m - {k}| == |m| - 1
  {
    assert (m - {k}).Keys == m.Keys - {k};
  }

  lemma StepWorks(s: State, past: seq<WireStep>, step: WireStep, after: State)
    requires WorkersAgree(s, past) && Moves(s.core, ActOf(step), after.core)
    requires Inv(s.core, Acts(past))
    ensures WorkersAgree(after, past + [step])
  {
    var a := ActOf(step);
    if a.Ends? && a.retires {
      RetiredWasActive(s.core, Acts(past), a, after.core);
    }
    WorkersMove(s.core, a, after.core);
    StepActs(step);
    var all := past + [step];
    assert all[..|all| - 1] == past;
    forall w ensures Get(after.core.active, w) == Reserved(all, w) {
      assert Get(s.core.active, w) == Reserved(past, w);
    }
  }

  lemma StepActs(step: WireStep)
    ensures Calls(step) <==> ActOf(step).Called?
    ensures Calls(step) ==> ActOf(step).worker == step.event.worker && ActOf(step).invocation == step.event.invocation
    ensures Retires(step) <==> ActOf(step).Ends? && ActOf(step).retires
    ensures Retires(step) ==> ActOf(step).worker == step.frame.body.worker
  {
  }

  // ----- The session -----

  function FlagOf(s: State, flag: Flag): bool {
    match flag
    case StopAsked => s.side.stopSeen
    case Withdrawn(v) => v in s.side.canceled
    case SpentArrivals(v) => v in s.side.exhausted
  }

  ghost predicate FlagsAgree(s: State, past: seq<WireStep>) {
    forall flag :: FlagOf(s, flag) == Flagged(past, flag)
  }

  lemma LocalFlags(s: State, peer: Peer, event: LocalEvent, effects: seq<string>, flag: Flag)
    ensures var r := CheckLocal(s, peer, event, effects);
            r.Some? ==> FlagOf(r.value, flag) == (FlagOf(s, flag) || Sets(Local(peer, event, effects), flag))
  {
  }

  lemma ExchangeFlags(c: Case, s: State, step: WireStep, flag: Flag)
    requires step.Receive? && step.delivery == Exchange
    ensures var r := CheckExchange(c, s, step.frame, step.effects);
            r.Some? ==> FlagOf(r.value, flag) == (FlagOf(s, flag) || Sets(step, flag))
  {
  }

  lemma NumberedFlags(c: Case, s: State, step: WireStep, flag: Flag)
    requires step.Receive?
    ensures var r := CheckNumbered(c, s, step.frame, step.effects, step.delivery);
            r.Some? ==> FlagOf(r.value, flag) == (FlagOf(s, flag) || Sets(step, flag))
  {
    if step.delivery == Exchange {
      ExchangeFlags(c, Noted(s, step.frame), step, flag);
    }
  }

  lemma ReceiveFlags(c: Case, s: State, step: WireStep, t: Talk, flag: Flag)
    requires TalkAgrees(s, t) && step.Receive?
    ensures var r := CheckReceive(c, s, step.peer, step.frame, step.effects, step.delivery);
            r.Some? ==> FlagOf(r.value, flag) == (FlagOf(s, flag) || Sets(step, flag))
  {
    ReceiveOutcome(c, s, step, t);
    NumberedFlags(c, Record(Joined(s, step.frame), step.peer, step.frame), step, flag);
  }

  lemma CheckFlags(c: Case, s: State, step: WireStep, t: Talk, flag: Flag)
    requires TalkAgrees(s, t) && Check(c, s, step).Some?
    ensures FlagOf(Check(c, s, step).value, flag) == (FlagOf(s, flag) || Sets(step, flag))
  {
    match step
    case Local(peer, event, effects) => LocalFlags(s, peer, event, effects, flag);
    case Receive(_, _, _, _) => ReceiveFlags(c, s, step, t, flag);
  }

  lemma FlaggedOn(past: seq<WireStep>, step: WireStep, flag: Flag)
    ensures Flagged(past + [step], flag) <==> Flagged(past, flag) || Sets(step, flag)
  {
    var all := past + [step];
    assert all[|past|] == step && forall i :: 0 <= i < |past| ==> all[i] == past[i];
    if Flagged(past, flag) {
      var i :| 0 <= i < |past| && Sets(past[i], flag);
      assert Sets(all[i], flag);
    }
    if Sets(step, flag) {
      assert Sets(all[|past|], flag);
    }
  }

  lemma StepFlags(c: Case, s: State, past: seq<WireStep>, step: WireStep)
    requires FlagsAgree(s, past) && TalkAgrees(s, Conversed(c, past)) && Check(c, s, step).Some?
    ensures FlagsAgree(Check(c, s, step).value, past + [step])
  {
    forall flag ensures FlagOf(Check(c, s, step).value, flag) == Flagged(past + [step], flag) {
      CheckFlags(c, s, step, Conversed(c, past), flag);
      FlaggedOn(past, step, flag);
      assert FlagOf(s, flag) == Flagged(past, flag);
    }
  }

  lemma LocalTalks(s: State, peer: Peer, event: LocalEvent, effects: seq<string>, t: Talk)
    requires TalkAgrees(s, t) && CheckLocal(s, peer, event, effects).Some?
    ensures var r := CheckLocal(s, peer, event, effects).value;
            && TalkAgrees(r, t)
            && r.side.first == if s.side.first == None && peer == Go && event.InvokeCall?
                               then Some(event.invocation) else s.side.first
  {
    LocalKeepsFrames(s, peer, event, effects, Go);
    LocalKeepsFrames(s, peer, event, effects, Java);
  }

  lemma NumberedTalks(c: Case, s: State, f: Frame, effects: seq<string>, delivery: Delivery, t: Talk)
    requires TalkAgrees(Noted(s, f), t) && CheckNumbered(c, s, f, effects, delivery).Some?
    ensures var r := CheckNumbered(c, s, f, effects, delivery).value;
            TalkAgrees(r, t) && r.side.first == s.side.first
  {
    NumberedKeepsFrames(c, s, f, effects, delivery, Go);
    NumberedKeepsFrames(c, s, f, effects, delivery, Java);
    ExchangeTalks(c, Noted(s, f), f, effects);
  }

  lemma ExchangeTalks(c: Case, s: State, f: Frame, effects: seq<string>)
    ensures var r := CheckExchange(c, s, f, effects);
            r.Some? ==>
              && r.value.side.binding == s.side.binding && r.value.side.fatalSeen == s.side.fatalSeen
              && r.value.side.start == s.side.start && r.value.side.first == s.side.first
  {
  }

  lemma FramesGrow(recorded: map<nat, Frame>, taken: seq<Frame>, f: Frame)
    requires FramesAgree(recorded, taken) && f.number == |taken| + 1
    ensures FramesAgree(recorded[f.number := f], taken + [f])
  {
    assert recorded[f.number := f].Keys == recorded.Keys + {f.number};
  }

  lemma RecordTalks(s: State, step: WireStep, t: Talk, t': Talk)
    requires step.Receive? && TalkAgrees(s, t) && step.frame.number == |t.Frames(step.peer)| + 1
    requires t'.session == t.session && t'.fatal == (t.fatal || step.frame.body.Fatal?)
    requires t'.start == if step.frame.body.Start? then Some(step.frame.body) else t.start
    requires t'.goFrames == t.goFrames + (if step.peer == Go then [step.frame] else [])
    requires t'.javaFrames == t.javaFrames + (if step.peer == Java then [step.frame] else [])
    ensures TalkAgrees(Noted(Record(s, step.peer, step.frame), step.frame), t')
  {
    FramesGrow(Seen(s, step.peer), t.Frames(step.peer), step.frame);
    assert t.goFrames + [] == t.goFrames && t.javaFrames + [] == t.javaFrames;
  }

  lemma CheckTalks(c: Case, s: State, step: WireStep, t: Talk)
    requires TalkAgrees(s, t) && Check(c, s, step).Some?
    ensures var r := Check(c, s, step).value;
            && TalkAgrees(r, Converse(c, step, t))
            && r.side.first == if s.side.first == None && Calls(step)
                               then Some(step.event.invocation) else s.side.first
  {
    match step
    case Local(peer, event, effects) => LocalTalks(s, peer, event, effects, t);
    case Receive(peer, f, effects, delivery) =>
      ReceiveOutcome(c, s, step, t);
      assert TalkAgrees(Joined(s, f), Opened(t, f));
      if Takes(c, t, step) {
        RecordTalks(Joined(s, f), step, Opened(t, f), Converse(c, step, t));
        NumberedTalks(c, Record(Joined(s, f), peer, f), f, effects, delivery, Converse(c, step, t));
      }
  }

  // ----- Runs -----

  ghost predicate Agrees(c: Case, s: State, past: seq<WireStep>) {
    TalesAgree(s, past) && WorkersAgree(s, past) && FlagsAgree(s, past) && TalkAgrees(s, Conversed(c, past))
  }

  lemma StepTells(c: Case, s: State, past: seq<WireStep>, step: WireStep)
    requires TalesAgree(s, past) && TalkAgrees(s, Conversed(c, past)) && Check(c, s, step).Some?
    ensures var r := Check(c, s, step).value;
            TalesAgree(r, past + [step]) && TalkAgrees(r, Conversed(c, past + [step]))
  {
    var all, r := past + [step], Check(c, s, step).value;
    assert all[..|all| - 1] == past && all[|all| - 1] == step;
    CheckTalks(c, s, step, Conversed(c, past));
    forall v ensures TaleOf(r, v) == Heard(all, v) {
      CheckHears(c, s, step, Conversed(c, past), v);
    }
  }

  /** What the checker remembers of an accepted history is what its steps told. */
  lemma {:induction false} RunAgrees(c: Case, past: seq<WireStep>)
    requires Run(c, past).Some?
    ensures Agrees(c, Run(c, past).value, past)
  {
    if past != [] {
      var front, last := past[..|past| - 1], past[|past| - 1];
      assert past == front + [last];
      RunAgrees(c, front);
      RunKeepsInv(c, front);
      CheckMoves(c, Run(c, front).value, last);
      StepTells(c, Run(c, front).value, front, last);
      StepFlags(c, Run(c, front).value, front, last);
      StepWorks(Run(c, front).value, front, last, Run(c, past).value);
    }
  }

  // ----- The checker follows the rule -----

  lemma CoreRuled(c: Case, s: State, past: seq<WireStep>, peer: Peer, event: LocalEvent, effects: seq<string>)
    requires Agrees(c, s, past) && effects != [] && TellsCore(event)
    ensures CheckLocal(s, peer, event, effects).Some? <==> LocalRule(c, past, peer, event, effects)
  {
    match event
    case InvokeCall(invocation, worker, _) =>
      assert TaleOf(s, invocation) == Heard(past, invocation) && Get(s.core.active, worker) == Reserved(past, worker);
    case WorkerArrives(identity) =>
      assert TaleOf(s, identity.invocation) == Heard(past, identity.invocation);
    case ExhaustArrivals(_, invocation) =>
      assert TaleOf(s, invocation) == Heard(past, invocation);
    case RuntimeArriveReturns(identity, _) =>
      assert TaleOf(s, identity.invocation) == Heard(past, identity.invocation);
  }

  lemma LocalRuled(c: Case, s: State, past: seq<WireStep>, peer: Peer, event: LocalEvent, effects: seq<string>)
    requires Agrees(c, s, past) && effects != []
    ensures CheckLocal(s, peer, event, effects).Some? <==> LocalRule(c, past, peer, event, effects)
  {
    match event
    case StopCall(_) =>
    case InvokeRejected(worker, _, _) =>
      assert Get(s.core.active, worker) == Reserved(past, worker);
    case ExhaustOutbound(_) =>
    case CommandException(_, _, _, _) =>
    case CancelContext(invocation) =>
      assert TaleOf(s, invocation) == Heard(past, invocation);
    case Completion(named, _) =>
      if named.Some? {
        assert TaleOf(s, named.value) == Heard(past, named.value);
      } else if s.side.first.Some? {
        assert TaleOf(s, s.side.first.value) == Heard(past, s.side.first.value);
      }
    case OtherEvent =>
    case _ => CoreRuled(c, s, past, peer, event, effects);
  }

  lemma {:induction false} PositionComes(effects: seq<string>, early: string, late: string)
    requires early != late
    ensures early in effects && Position(effects, early) < Position(effects, late) <==> Comes(effects, early, late)
  {
    if effects != [] {
      var rest := effects[1..];
      PositionComes(rest, early, late);
      if effects[0] == early {
        assert effects[0] != late;
        assert Comes(effects, early, late);
      } else {
        ComesLater(effects, early, late);
      }
    }
  }

  lemma ComesLater(effects: seq<string>, early: string, late: string)
    requires effects != [] && effects[0] != early
    ensures Comes(effects, early, late) <==> effects[0] != late && Comes(effects[1..], early, late)
  {
    var rest := effects[1..];
    if Comes(effects, early, late) {
      var i :| 0 <= i < |effects| && effects[i] == early && forall j :: 0 <= j <= i ==> effects[j] != late;
      assert rest[i - 1] == early && forall j :: 0 <= j <= i - 1 ==> rest[j] != late;
    }
    if effects[0] != late && Comes(rest, early, late) {
      var i :| 0 <= i < |rest| && rest[i] == early && forall j :: 0 <= j <= i ==> rest[j] != late;
      assert effects[i + 1] == early;
      forall j | 0 <= j <= i + 1 ensures effects[j] != late {
        assert j > 0 ==> effects[j] == rest[j - 1];
      }
    }
  }

  lemma TerminalRuled(c: Case, s: State, body: Body, effects: seq<string>)
    requires body.Terminal?
    ensures CheckTerminal(c, s, body, effects).Some? <==> TerminalRule(c, TaleOf(s, body.invocation), body, effects)
  {
  }

  lemma ExchangeRuled(c: Case, s: State, past: seq<WireStep>, f: Frame, effects: seq<string>)
    requires TalesAgree(s, past)
    ensures CheckExchange(c, s, f, effects).Some? <==> ExchangeRule(c, past, f.body, effects)
  {
    match f.body
    case Invoke(invocation, _, _) => assert TaleOf(s, invocation) == Heard(past, invocation);
    case Accept(invocation, _) => assert TaleOf(s, invocation) == Heard(past, invocation);
    case Arrive(identity) => assert TaleOf(s, identity.invocation) == Heard(past, identity.invocation);
    case Release(identity) => assert TaleOf(s, identity.invocation) == Heard(past, identity.invocation);
    case Cancel(invocation, _, _) =>
      assert TaleOf(s, invocation) == Heard(past, invocation);
      PositionComes(effects, "arm_cleanup_watchdog", "request_jdbc_cancel");
    case Terminal(invocation, _, _, _, _) =>
      assert TaleOf(s, invocation) == Heard(past, invocation);
      TerminalRuled(c, s, f.body, effects);
    case _ =>
  }

  lemma RetiredRuled(c: Case, s: State, body: Body, effects: seq<string>)
    requires body.Terminal?
    ensures RetiredTerminal(c, s, body, effects) <==> RetiredRule(c, TaleOf(s, body.invocation), body, effects)
  {
  }

  lemma TakenRuled(c: Case, s: State, past: seq<WireStep>, f: Frame, effects: seq<string>, delivery: Delivery)
    requires TalesAgree(s, past)
    requires s.side.fatalSeen == Conversed(c, past).fatal && s.side.start == Conversed(c, past).start
    ensures CheckNumbered(c, s, f, effects, delivery).Some?
       <==> TakenRule(c, past, f, effects, delivery, c.premise(Noted(s, f), f, effects))
  {
    forall v ensures TaleOf(Noted(s, f), v) == Heard(past, v) {
      assert TaleOf(Noted(s, f), v) == TaleOf(s, v);
    }
    ExchangeRuled(c, Noted(s, f), past, f, effects);
    if f.body.Terminal? {
      RetiredRuled(c, Noted(s, f), f.body, effects);
      assert TaleOf(Noted(s, f), f.body.invocation) == Heard(past, f.body.invocation);
    }
  }

  /** Whether the case declares the premise of a frame, which is asked once the frame is noted. */
  predicate Given(c: Case, s: State, step: WireStep) {
    step.Receive? &&
    if Astray(c, step) then c.premise(s, step.frame, step.effects)
    else c.premise(Noted(Record(Joined(s, step.frame), step.peer, step.frame), step.frame), step.frame, step.effects)
  }

  lemma AstrayRuled(c: Case, step: WireStep)
    requires step.Receive?
    ensures step.delivery == Input && Misdirected(c, step.peer, step.frame.body) <==> Astray(c, step)
    ensures Astray(c, step) ==> (step.frame.body.Ready? <==> c.id == "java_wrong_direction")
  {
  }

  lemma ShapeRuled(f: Frame, peer: Peer)
    ensures Shaped(f) <==> WellFormed(f)
    ensures f.body.Fatal? || (peer == Java) == ToJava(f.body) <==> RightWay(peer, f.body)
  {
  }

  /** Whether the frame may be taken, if its envelope lets its peer take it. */
  predicate TakenBy(c: Case, s: State, step: WireStep)
    requires step.Receive?
  {
    var noted := Record(Joined(s, step.frame), step.peer, step.frame);
    CheckNumbered(c, noted, step.frame, step.effects, step.delivery).Some?
  }

  lemma SessionRuled(c: Case, s: State, t: Talk, step: WireStep)
    requires TalkAgrees(s, t) && step.Receive? && step.frame.number >= 1
    ensures CheckSession(c, s, step.peer, step.frame, step.effects, step.delivery).Some?
       <==> SessionRule(t, step, TakenBy(c, s, step))
  {
    var seen, n := Seen(s, step.peer), step.frame.number;
    assert FramesAgree(seen, t.Frames(step.peer));
    assert n in seen <==> n <= |t.Frames(step.peer)|;
    if Opened(t, step.frame).session != Some((step.frame.run, step.frame.session)) {
    } else if n in seen {
      assert Get(seen, n) == Some(t.Frames(step.peer)[n - 1]);
    } else if n != |seen| + 1 {
      assert Get(seen, n) == None;
    }
  }

  lemma EnvelopeRuled(c: Case, s: State, t: Talk, step: WireStep)
    requires TalkAgrees(s, t) && step.Receive?
    ensures CheckReceive(c, s, step.peer, step.frame, step.effects, step.delivery).Some?
       <==> Envelope(c, t, step, Given(c, s, step), TakenBy(c, s, step))
  {
    var f := step.frame;
    ShapeRuled(f, step.peer);
    AstrayRuled(c, step);
    if WellFormed(f) && (step.delivery == Input ==> step.peer in c.targets) {
      if !Astray(c, step) && RightWay(step.peer, f.body) && f.version == 1 {
        SessionRuled(c, s, t, step);
      }
    }
  }

  lemma FrameRuled(c: Case, s: State, past: seq<WireStep>, step: WireStep)
    requires Agrees(c, s, past) && step.Receive?
    ensures var f, given := step.frame, Given(c, s, step);
            CheckReceive(c, s, step.peer, f, step.effects, step.delivery).Some?
            <==> Envelope(c, Conversed(c, past), step, given,
                          TakenRule(c, past, f, step.effects, step.delivery, given))
  {
    var f := step.frame;
    var noted := Record(Joined(s, f), step.peer, f);
    forall v ensures TaleOf(noted, v) == Heard(past, v) {
      assert TaleOf(noted, v) == TaleOf(Joined(s, f), v) == TaleOf(s, v);
    }
    TakenRuled(c, noted, past, f, step.effects, step.delivery);
    EnvelopeRuled(c, s, Conversed(c, past), step);
  }

  /** After an accepted history exactly those steps are accepted that the rule allows. */
  lemma StepsAreRuled(c: Case, past: seq<WireStep>, step: WireStep)
    requires Run(c, past).Some?
    ensures Run(c, past + [step]).Some? <==> Rule(c, past, step, Given(c, Run(c, past).value, step))
  {
    var s, all := Run(c, past).value, past + [step];
    assert all[..|all| - 1] == past && all[|all| - 1] == step;
    RunAgrees(c, past);
    if step.effects != [] {
      match step
      case Local(peer, event, effects) => LocalRuled(c, s, past, peer, event, effects);
      case Receive(_, _, _, _) => FrameRuled(c, s, past, step);
    }
  }

  /** Step k follows the rule, after steps that are a history themselves. */
  ghost predicate Obeys(c: Case, steps: seq<WireStep>, k: nat)
    requires k < |steps|
  {
    var before := Run(c, steps[..k]);
    before.Some? && Rule(c, steps[..k], steps[k], Given(c, before.value, steps[k]))
  }

  /** A history is valid exactly when it names its peers once each, on their own, and every one
      of its steps follows the rule. */
  lemma HistoriesAreRuled(c: Case, steps: seq<WireStep>)
    ensures Valid(c, steps) <==>
            && c.isolated && c.targets != []
            && (forall i, j :: 0 <= i < j < |c.targets| ==> c.targets[i] != c.targets[j])
            && forall k :: 0 <= k < |steps| ==> Obeys(c, steps, k)
  {
    ScopesAreDistinct(c);
    if Run(c, steps).Some? {
      forall k | 0 <= k < |steps| ensures Obeys(c, steps, k) {
        ValidObeys(c, steps, k);
      }
    }
    if forall k :: 0 <= k < |steps| ==> Obeys(c, steps, k) {
      ObeyingRuns(c, steps);
    }
  }

  lemma ScopesAreDistinct(c: Case)
    ensures Scoped(c) <==> c.isolated && c.targets != [] &&
                           forall i, j :: 0 <= i < j < |c.targets| ==> c.targets[i] != c.targets[j]
  {
    var ts := c.targets;
    if |ts| > 2 {
      assert ts[0] == ts[1] || ts[1] == ts[2] || ts[0] == ts[2];
    } else if |ts| == 2 {
      assert ts == [ts[0], ts[1]];
    } else if |ts| == 1 {
      assert ts == [ts[0]] && (ts[0].Go? || ts[0].Java?);
    }
  }

  lemma ValidObeys(c: Case, steps: seq<WireStep>, k: nat)
    requires Run(c, steps).Some? && k < |steps|
    ensures Obeys(c, steps, k)
  {
    if Run(c, steps[..k]) == None {
      RunStaysNone(c, steps, k);
    }
    if Run(c, steps[..k + 1]) == None {
      RunStaysNone(c, steps, k + 1);
    }
    assert steps[..k + 1] == steps[..k] + [steps[k]];
    StepsAreRuled(c, steps[..k], steps[k]);
  }

  lemma ObeyingRuns(c: Case, steps: seq<WireStep>)
    requires forall k :: 0 <= k < |steps| ==> Obeys(c, steps, k)
    ensures Run(c, steps).Some?
  {
    if steps != [] {
      var k := |steps| - 1;
      assert Obeys(c, steps, k);
      assert steps == steps[..k] + [steps[k]];
      StepsAreRuled(c, steps[..k], steps[k]);
    }
  }

  // ----- What terminals and calls repeat -----

  /** The latest Java completion for an invocation. */
  predicate LastCompletion(past: seq<WireStep>, i: nat, v: string) {
    && i < |past| && Concludes(past[i], v, First(past[..i]))
    && forall j :: i < j < |past| ==> !Concludes(past[j], v, First(past[..j]))
  }

  predicate LastException(past: seq<WireStep>, i: nat, v: string) {
    i < |past| && Raises(past[i], v) && forall j :: i < j < |past| ==> !Raises(past[j], v)
  }

  predicate FirstCancel(past: seq<WireStep>, i: nat, v: string) {
    i < |past| && Cancels(past[i], v) && forall j :: 0 <= j < i ==> !Cancels(past[j], v)
  }

  lemma FactsHeard(past: seq<WireStep>, v: string)
    requires Heard(past, v).facts.Some?
    ensures var n := |past| - 1;
            && n >= 0
            && Heard(past, v).facts == if Concludes(past[n], v, First(past[..n])) then Some(past[n].event.facts)
                                       else Heard(past[..n], v).facts
  {
  }

  lemma {:induction false} FactsSource(past: seq<WireStep>, v: string) returns (i: nat)
    requires Heard(past, v).facts.Some?
    ensures LastCompletion(past, i, v) && past[i].event.facts == Heard(past, v).facts.value
  {
    var n := |past| - 1;
    FactsHeard(past, v);
    if Concludes(past[n], v, First(past[..n])) {
      i := n;
    } else {
      i := FactsSource(past[..n], v);
      CompletionStays(past, i, v);
    }
  }

  lemma CompletionStays(past: seq<WireStep>, i: nat, v: string)
    requires past != [] && LastCompletion(past[..|past| - 1], i, v)
    requires !Concludes(past[|past| - 1], v, First(past[..|past| - 1]))
    ensures LastCompletion(past, i, v)
  {
    var front := past[..|past| - 1];
    assert front[..i] == past[..i];
    forall j | i < j < |past| ensures !Concludes(past[j], v, First(past[..j])) {
      if j < |front| {
        assert front[..j] == past[..j] && front[j] == past[j];
        assert !Concludes(front[j], v, First(front[..j]));
      }
    }
  }

  lemma {:induction false} ExceptionSource(past: seq<WireStep>, v: string) returns (i: nat)
    requires Heard(past, v).raised.Some?
    ensures LastException(past, i, v)
    ensures var e := past[i].event;
            Heard(past, v).raised.value == SqlError("", e.message, e.vendorCode, e.sqlState)
  {
    var n := |past| - 1;
    if Raises(past[n], v) {
      i := n;
    } else {
      i := ExceptionSource(past[..n], v);
    }
  }

  lemma {:induction false} ReasonSource(past: seq<WireStep>, v: string) returns (i: nat)
    requires Heard(past, v).reason.Some?
    ensures FirstCancel(past, i, v) && past[i].frame.body.reason == Heard(past, v).reason.value
  {
    var n := |past| - 1;
    if Heard(past[..n], v).reason.Some? {
      i := ReasonSource(past[..n], v);
      assert past[..n][i] == past[i] && forall j :: 0 <= j < i ==> past[..n][j] == past[j];
    } else {
      i := n;
      forall j | 0 <= j < n ensures !Cancels(past[j], v) {
        NoReason(past[..n], j, v);
      }
    }
  }

  lemma {:induction false} NoReason(past: seq<WireStep>, j: nat, v: string)
    requires Heard(past, v).reason == None && j < |past|
    ensures !Cancels(past[j], v)
  {
    if j < |past| - 1 {
      NoReason(past[..|past| - 1], j, v);
    }
  }

  lemma {:induction false} CallSource(past: seq<WireStep>, v: string) returns (i: nat)
    requires Heard(past, v).called.Some?
    ensures i < |past| && Calls(past[i]) && past[i].event.invocation == v
    ensures Heard(past, v).called.value == (past[i].event.worker, past[i].event.command)
  {
    var n := |past| - 1;
    if Calls(past[n]) && past[n].event.invocation == v {
      i := n;
    } else {
      i := CallSource(past[..n], v);
    }
  }

  ghost predicate RepeatsFacts(past: seq<WireStep>, i: nat, body: Body)
    requires body.Terminal?
  {
    && LastCompletion(past, i, body.invocation)
    && past[i].event.facts.transaction == body.transaction && past[i].event.facts.lease == body.connection
    && (body.transaction != "not_started" ==> past[i].event.facts.proxyExited)
  }

  ghost predicate RepeatsException(past: seq<WireStep>, i: nat, v: string, e: SqlError) {
    && LastException(past, i, v)
    && past[i].event.message == e.message && past[i].event.vendorCode == e.mysqlCode
    && past[i].event.sqlState == e.sqlState
  }

  ghost predicate RepeatsReason(past: seq<WireStep>, i: nat, v: string, e: SqlError) {
    FirstCancel(past, i, v) && e.message == "cancelled by " + past[i].frame.body.reason
  }

  lemma ExchangeObeys(c: Case, steps: seq<WireStep>, k: nat)
    requires Run(c, steps).Some? && k < |steps| && steps[k].Receive? && steps[k].delivery == Exchange
    ensures ExchangeRule(c, steps[..k], steps[k].frame.body, steps[k].effects)
    ensures Takes(c, Conversed(c, steps[..k]), steps[k])
  {
    ValidObeys(c, steps, k);
  }

  /** An exchanged terminal repeats the transaction and the lease of the latest completion that Java
      reported for its invocation, whose proxy had exited unless the transaction never began.  An error
      it tells a Java target of is the first cancellation's or the latest exception. */
  lemma TerminalsRepeatFacts(c: Case, steps: seq<WireStep>, k: nat)
    requires Run(c, steps).Some? && k < |steps| && steps[k].Receive? && steps[k].delivery == Exchange
    requires steps[k].frame.body.Terminal?
    ensures var past, body := steps[..k], steps[k].frame.body;
            && (exists i :: RepeatsFacts(past, i, body))
            && (body.error.Some? && Java in c.targets ==>
                  if body.error.value.kind == "cancelled"
                  then exists i :: RepeatsReason(past, i, body.invocation, body.error.value)
                  else exists i :: RepeatsException(past, i, body.invocation, body.error.value))
  {
    ExchangeObeys(c, steps, k);
    var past, body := steps[..k], steps[k].frame.body;
    var i := FactsSource(past, body.invocation);
    assert RepeatsFacts(past, i, body);
    if body.error.Some? && Java in c.targets {
      if body.error.value.kind == "cancelled" {
        var j := ReasonSource(past, body.invocation);
        assert RepeatsReason(past, j, body.invocation, body.error.value);
      } else {
        var j := ExceptionSource(past, body.invocation);
        assert RepeatsException(past, j, body.invocation, body.error.value);
      }
    }
  }

  predicate CallOf(step: WireStep, body: Body)
    requires body.Invoke?
  {
    step.Local? && step.peer == Go && step.event == InvokeCall(body.invocation, body.worker, body.command)
  }

  /** An exchanged invocation repeats a call that Go made before. */
  lemma InvokesRepeatCalls(c: Case, steps: seq<WireStep>, k: nat)
    requires Run(c, steps).Some? && k < |steps| && steps[k].Receive? && steps[k].delivery == Exchange
    requires steps[k].frame.body.Invoke?
    ensures exists i :: 0 <= i < k && CallOf(steps[i], steps[k].frame.body)
  {
    ExchangeObeys(c, steps, k);
    var i := CallSource(steps[..k], steps[k].frame.body.invocation);
    assert CallOf(steps[i], steps[k].frame.body);
  }

  /** A peer takes step k, which every exchanged frame of a history is. */
  ghost predicate Taken(c: Case, steps: seq<WireStep>, k: nat)
    requires k < |steps|
  {
    Takes(c, Conversed(c, steps[..k]), steps[k])
  }

  lemma {:induction false} FatalStays(c: Case, past: seq<WireStep>, i: nat)
    requires i < |past| && Taken(c, past, i) && past[i].frame.body.Fatal?
    ensures Conversed(c, past).fatal
  {
    var n := |past| - 1;
    if i < n {
      assert past[..n][..i] == past[..i];
      FatalStays(c, past[..n], i);
    }
  }

  /** Once a fatal frame is taken, only fatal frames are, and stops that ask for no answer. */
  lemma NothingFollowsFatal(c: Case, steps: seq<WireStep>, i: nat, k: nat)
    requires Run(c, steps).Some? && i < k < |steps|
    requires Taken(c, steps, i) && steps[i].frame.body.Fatal? && Taken(c, steps, k)
    ensures steps[k].frame.body.Fatal?
         || (steps[k].frame.body.StopNow? && "no_stopped_required" in steps[k].effects)
  {
    assert steps[..k][..i] == steps[..i];
    FatalStays(c, steps[..k], i);
    ValidObeys(c, steps, k);
  }
}
