/** What the coordinator does between its waits (internal/orchestrator/run.go): every answer of a
    wait is acted on at once, every recorded arrival or timeout has just been heard, and a fault
    from outside ends the run. */
module Logbooks {
  import opened Options
  import opened Scenarios
  import opened Syncpoint
  import opened Traces

  /** What went wrong outside the coordinator. */
  datatype Fault =
    | BadRegister(error: Error)
    | BadInvoke
    | BadWait(error: Error)
    | BadRelease(error: Error)
    | NoResult
    | BadResult
    | BadObserver

  datatype Entry =
    | Waited(at: nat, timeout: int, answer: Result<ArriveStatus>)
    | Recorded(event: Event)
    | Faulted(fault: Fault)

  type Log = seq<Entry>

  /** Called: a worker was invoked, and its bootstrap wait is due.  Heard: a wait has answered,
      and nothing was made of it yet.  Broken: something went wrong. */
  datatype Mood = Calm | Called(worker: string) | Heard(at: nat, status: ArriveStatus) | Broken(fault: Fault)

  datatype Book = Book(waits: nat, mood: Mood)

  datatype Rules = Rules(sc: Scenario, steps: seq<Step>, blockTimeout: int, stepTimeout: int)

  function Turn(book: Book, e: Entry): Book {
    match e
    case Waited(at, _, Ok(status)) => Book(book.waits + 1, Heard(at, status))
    case Waited(_, _, Err(error)) => Book(book.waits + 1, Broken(BadWait(error)))
    case Recorded(WorkerInvoked(id)) => Book(book.waits, Called(id))
    case Recorded(_) => Book(book.waits, Calm)
    case Faulted(fault) => Book(book.waits, Broken(fault))
  }

  function BookOf(log: Log): Book {
    if log == [] then Book(0, Calm) else Turn(BookOf(log[..|log| - 1]), log[|log| - 1])
  }

  /** The step is the first one of its worker. */
  ghost predicate Opens(steps: seq<Step>, at: nat) {
    at < |steps| && forall j :: 0 <= j < at ==> steps[j].worker != steps[at].worker
  }

  /** A wait may begin: the bootstrap waits come first, each for the first step of the worker just
      invoked and with the block timeout; every other wait has the step timeout. */
  ghost predicate MayWait(rules: Rules, book: Book, at: nat, timeout: int) {
    && at < |rules.steps|
    && if book.waits < |rules.sc.workers| then
         && book.mood == Called(rules.sc.workers[book.waits].id)
         && rules.steps[at].worker == rules.sc.workers[book.waits].id && Opens(rules.steps, at)
         && timeout == rules.blockTimeout
       else book.mood == Calm && timeout == rules.stepTimeout
  }

  /** A worker's end may be recorded: just heard of while waiting for its step, or at the very end. */
  ghost predicate MayEnd(rules: Rules, book: Book, id: string, step: int) {
    || (book.mood == Calm && step == -1 && book.waits >= |rules.sc.workers|)
    || (book.mood.Heard? && book.mood.status != StatusArrived && step == book.mood.at < |rules.steps|
        && rules.steps[book.mood.at].worker == id)
  }

  ghost predicate MayRecord(rules: Rules, book: Book, e: Event) {
    match e
    case WorkerRegistered(_) => book == Book(0, Calm)
    case WorkerInvoked(id) =>
      book.mood == Calm && book.waits < |rules.sc.workers| && id == rules.sc.workers[book.waits].id
    case PointArrived(at) => book.mood == Heard(at, StatusArrived)
    case PointTimeout(at) => book.mood == Heard(at, StatusTimeout)
    case PointReleased(_) => book.mood == Calm && book.waits >= |rules.sc.workers|
    case StepSkipped(_) => book.mood == Calm && book.waits >= |rules.sc.workers|
    case WorkerDone(id, step) => MayEnd(rules, book, id, step)
    case WorkerFailed(id, step) => MayEnd(rules, book, id, step)
    case ScheduleComplete => book.mood == Calm && book.waits >= |rules.sc.workers|
  }

  ghost predicate Proper(rules: Rules, book: Book, e: Entry) {
    match e
    case Waited(at, timeout, _) => MayWait(rules, book, at, timeout)
    case Recorded(event) => MayRecord(rules, book, event)
    case Faulted(_) => !book.mood.Broken?
  }

  /** Every entry was proper at its moment. */
  ghost predicate Kept(rules: Rules, log: Log) {
    log == []
    || (Kept(rules, log[..|log| - 1]) && Proper(rules, BookOf(log[..|log| - 1]), log[|log| - 1]))
  }

  /** The events that were recorded. */
  function Events(log: Log): Trace {
    if log == [] then []
    else
      var before := Events(log[..|log| - 1]);
      if log[|log| - 1].Recorded? then before + [log[|log| - 1].event] else before
  }

  lemma Enter(rules: Rules, log: Log, e: Entry)
    ensures BookOf(log + [e]) == Turn(BookOf(log), e)
    ensures Kept(rules, log) && Proper(rules, BookOf(log), e) ==> Kept(rules, log + [e])
    ensures Events(log + [e]) == if e.Recorded? then Events(log) + [e.event] else Events(log)
  {
    assert (log + [e])[..|log|] == log;
  }

  predicate Same(a: Log, b: Log) {
    a == b
  }

  /** The logbook is kept and holds the trace, which is safe; book and acc are their sums.  Stated
      over all logs that are the same, so that a proof about one step does not unfold them. */
  ghost predicate InOrder(rules: Rules, log: Log, book: Book, trace: Trace, acc: Account) {
    forall l :: Same(l, log) ==>
      && Kept(rules, l) && BookOf(l) == book && Events(l) == trace
      && Safe(rules.steps, trace) && acc == Tally(trace)
  }

  lemma OrderMeans(rules: Rules, log: Log, book: Book, trace: Trace, acc: Account)
    ensures InOrder(rules, log, book, trace, acc) <==>
            && Kept(rules, log) && BookOf(log) == book && Events(log) == trace
            && Safe(rules.steps, trace) && acc == Tally(trace)
  {
    assert Same(log, log);
  }

  /** One more entry. */
  lemma OrderGoesOn(rules: Rules, log: Log, book: Book, trace: Trace, acc: Account, e: Entry)
    requires InOrder(rules, log, book, trace, acc) && Proper(rules, book, e)
    requires e.Recorded? ==> Allowed(rules.steps, acc, e.event)
    ensures var trace' := if e.Recorded? then trace + [e.event] else trace;
            var acc' := if e.Recorded? then Record(acc, e.event) else acc;
            InOrder(rules, log + [e], Turn(book, e), trace', acc')
  {
    OrderMeans(rules, log, book, trace, acc);
    Enter(rules, log, e);
    if e.Recorded? {
      Extend(rules.steps, trace, e.event);
      OrderMeans(rules, log + [e], Turn(book, e), trace + [e.event], Record(acc, e.event));
    } else {
      OrderMeans(rules, log + [e], Turn(book, e), trace, acc);
    }
  }

  // ----- Consequences -----

  lemma {:induction false} KeptAt(rules: Rules, log: Log, k: nat)
    requires Kept(rules, log) && k < |log|
    ensures Kept(rules, log[..k]) && Proper(rules, BookOf(log[..k]), log[k])
    decreases |log|
  {
    if k < |log| - 1 {
      KeptAt(rules, log[..|log| - 1], k);
      assert log[..|log| - 1][..k] == log[..k];
    }
  }

  lemma NextBook(log: Log, k: nat)
    requires k < |log|
    ensures BookOf(log[..k + 1]) == Turn(BookOf(log[..k]), log[k])
  {
    assert log[..k + 1] == log[..k] + [log[k]];
    Enter(Rules(Scenario("", [], []), [], 0, 0), log[..k], log[k]);
  }

  /** What must be made of a wait's answer. */
  predicate Heeds(steps: seq<Step>, at: nat, status: ArriveStatus, e: Entry) {
    || e.Faulted?
    || (e.Recorded?
        && (e.event == PointArrived(at) <==> status == StatusArrived)
        && (status == StatusTimeout ==> e.event == PointTimeout(at) || EndsAt(steps, at, e.event))
        && (status == StatusDone || status == StatusFailed ==> EndsAt(steps, at, e.event)))
  }

  predicate EndsAt(steps: seq<Step>, at: nat, e: Event) {
    at < |steps| && (e == WorkerDone(steps[at].worker, at) || e == WorkerFailed(steps[at].worker, at))
  }

  /** Every answer of a wait is acted on by the very next entry. */
  lemma AnswersAreHeeded(rules: Rules, log: Log, k: nat)
    requires Kept(rules, log) && k + 1 < |log| && log[k].Waited? && log[k].answer.Ok?
    ensures Heeds(rules.steps, log[k].at, log[k].answer.value, log[k + 1])
  {
    KeptAt(rules, log, k + 1);
    NextBook(log, k);
  }

  /** Every recorded arrival and timeout was answered just before. */
  lemma ObservationsWereHeard(rules: Rules, log: Log, k: nat)
    requires Kept(rules, log) && k < |log| && log[k].Recorded?
    requires log[k].event.PointArrived? || log[k].event.PointTimeout?
    ensures 0 < k && log[k - 1].Waited? && log[k - 1].at == log[k].event.at
    ensures log[k - 1].answer == Ok(if log[k].event.PointArrived? then StatusArrived else StatusTimeout)
  {
    KeptAt(rules, log, k);
    if k > 0 {
      NextBook(log, k - 1);
    }
  }

  /** Nothing follows a fault or a refused wait. */
  lemma FaultsEndTheLog(rules: Rules, log: Log, k: nat)
    requires Kept(rules, log) && k < |log| && (log[k].Faulted? || (log[k].Waited? && log[k].answer.Err?))
    ensures k == |log| - 1
  {
    if k + 1 < |log| {
      KeptAt(rules, log, k + 1);
      NextBook(log, k);
      assert false;
    }
  }

  /** Every invocation is followed by the bootstrap wait for that worker's first step. */
  lemma InvocationsAreAwaited(rules: Rules, log: Log, k: nat)
    requires Kept(rules, log) && k + 1 < |log| && log[k].Recorded? && log[k].event.WorkerInvoked?
    ensures var e := log[k + 1];
            e.Faulted?
            || (e.Waited? && e.timeout == rules.blockTimeout && Opens(rules.steps, e.at)
                && rules.steps[e.at].worker == log[k].event.worker)
  {
    KeptAt(rules, log, k);
    KeptAt(rules, log, k + 1);
    NextBook(log, k);
  }
}
