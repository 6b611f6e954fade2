/** The fixture's lifecycle and its quarantine (internal/fixture/mysql.go). */
module Fixtures {
  import opened Options

  /** db is the current handle; valid holds the handles whose connection descriptor has
      not been invalidated; issued counts the handles given out so far. */
  datatype State = State(
    container: bool, admin: bool, db: Option<nat>, provisioned: bool,
    quarantined: bool, teardownSucceeded: bool, valid: set<nat>, issued: nat)

  const INITIAL := State(false, false, None, false, false, false, {}, 0)

  /** How starting the database container went. */
  datatype Startup = Running | Broken | BrokenContainer

  /** A call and what its surroundings do: which of its steps succeed. */
  datatype Call =
    | Provision(prepared: bool, credentials: bool, startup: Startup, setUp: bool, cleaned: bool)
    | Ready(handle: Option<nat>)
    | Reset(alive: bool, closed: bool, recreated: bool, applied: bool)
    | Quarantine(cause: bool)
    | Teardown(alive: bool, poolsClosed: bool, terminated: bool)

  /** Whether the call returned without error. */
  datatype Outcome = Outcome(state: State, ok: bool)

  function Invalidated(s: State): State {
    if s.db.Some? then s.(valid := s.valid - {s.db.value}) else s
  }

  predicate Usable(s: State) {
    !s.quarantined && s.provisioned && s.db.Some? && s.db.value in s.valid
  }

  predicate MayProvision(s: State) {
    !s.provisioned && !s.container && (s.quarantined ==> s.teardownSucceeded)
  }

  predicate Idle(s: State) {
    !s.provisioned && !s.container && !s.admin && s.db == None
  }

  function Apply(s: State, call: Call): Outcome {
    match call
    case Provision(prepared, credentials, startup, setUp, cleaned) =>
      if !MayProvision(s) || !prepared || !credentials || startup == Broken then Outcome(s, false)
      else if startup == BrokenContainer || !setUp then
        Outcome(if cleaned then s else s.(container := true), false)
      else
        var handle := s.issued + 1;
        Outcome(State(true, true, Some(handle), true, false, false, s.valid + {handle}, handle), true)
    case Ready(handle) =>
      Outcome(s, !s.quarantined && s.provisioned && handle.Some? && handle == s.db && handle.value in s.valid)
    case Reset(alive, closed, recreated, applied) =>
      if !Usable(s) || !alive then Outcome(s, false)
      else if !closed || !recreated || !applied then Outcome(Invalidated(s), false)
      else Outcome(s, true)
    case Quarantine(cause) =>
      if cause then Outcome(Invalidated(s.(quarantined := true, teardownSucceeded := false)), true)
      else Outcome(s, true)
    case Teardown(alive, poolsClosed, terminated) =>
      if !alive then Outcome(s, false)
      else if Idle(s) then Outcome(s.(teardownSucceeded := true), true)
      else if !terminated then Outcome(Invalidated(s), false)
      else
        var torn := Invalidated(s).(container := false, admin := false, db := None, provisioned := false);
        if poolsClosed then Outcome(torn.(teardownSucceeded := true), true) else Outcome(torn, false)
  }

  function Run(s: State, calls: seq<Call>): State {
    if calls == [] then s else Apply(Run(s, calls[..|calls| - 1]), calls[|calls| - 1]).state
  }

  // ----- What an observer of the calls knows -----

  /** Held: quarantined.  Cleared: torn down without error since.  Free: provisioned
      since, or never quarantined. */
  datatype Stage = Free | Held | Cleared

  /** handles counts the handles seen; retired those that a teardown has reached.  The database is
      up from a provisioning until its container is terminated; a container is leftover when a
      failed provisioning could not remove it; the newest handle is sound until a reset fails on
      it, a quarantine, or a teardown. */
  datatype Watch = Watch(stage: Stage, handles: nat, retired: nat, up: bool, leftover: bool, sound: bool)

  const UNWATCHED := Watch(Free, 0, 0, false, false, false)

  /** A provisioning got as far as a container that it must remove again. */
  predicate Stranded(w: Watch, call: Call)
    requires call.Provision?
  {
    && !w.up && !w.leftover && w.stage != Held && call.prepared && call.credentials
    && (call.startup == BrokenContainer || (call.startup == Running && !call.setUp)) && !call.cleaned
  }

  function Observe(w: Watch, call: Call, ok: bool): Watch {
    match call
    case Provision(_, _, _, _, _) =>
      if ok then w.(stage := Free, handles := w.handles + 1, up := true, leftover := false, sound := true)
      else w.(leftover := w.leftover || Stranded(w, call))
    case Quarantine(cause) => if cause then w.(stage := Held, sound := false) else w
    case Reset(alive, _, _, _) => w.(sound := w.sound && (ok || !alive || w.stage != Free))
    case Teardown(alive, _, terminated) =>
      if !alive then w
      else w.(retired := w.handles, stage := if ok && w.stage == Held then Cleared else w.stage,
              up := w.up && !terminated, leftover := w.leftover && !terminated, sound := false)
    case Ready(_) => w
  }

  function Watching(calls: seq<Call>): Watch {
    if calls == [] then UNWATCHED
    else
      var front := calls[..|calls| - 1];
      Observe(Watching(front), calls[|calls| - 1], Apply(Run(INITIAL, front), calls[|calls| - 1]).ok)
  }

  /** The fixture's state says what the observer knows. */
  predicate Agrees(s: State, w: Watch) {
    && s.quarantined == (w.stage != Free)
    && (w.stage == Held ==> !s.teardownSucceeded)
    && (w.stage == Cleared ==> s.teardownSucceeded && !s.provisioned)
    && s.issued == w.handles
    && (s.db.Some? ==> s.db.value == s.issued)
    && (s.valid <= if s.db.Some? then {s.db.value} else {})
    && (forall h :: h in s.valid ==> h > w.retired)
    && w.retired <= w.handles
    && (s.provisioned <==> w.up) && (s.admin <==> w.up) && (s.db.Some? <==> w.up)
    && (s.container <==> w.up || w.leftover) && !(w.up && w.leftover)
    && (w.sound <==> s.db.Some? && s.db.value in s.valid)
  }

  lemma StepAgrees(s: State, w: Watch, call: Call)
    requires Agrees(s, w)
    ensures Agrees(Apply(s, call).state, Observe(w, call, Apply(s, call).ok))
  {
  }

  lemma {:induction false} RunAgrees(calls: seq<Call>)
    ensures Agrees(Run(INITIAL, calls), Watching(calls))
  {
    if calls != [] {
      var front := calls[..|calls| - 1];
      RunAgrees(front);
      StepAgrees(Run(INITIAL, front), Watching(front), calls[|calls| - 1]);
    }
  }

  /** Call number k returned without error. */
  ghost predicate Succeeds(calls: seq<Call>, k: nat)
    requires k < |calls|
  {
    Apply(Run(INITIAL, calls[..k]), calls[k]).ok
  }

  /** A teardown and then a provisioning succeeded after call number i. */
  ghost predicate Lifted(calls: seq<Call>, i: nat) {
    exists t, p :: i < t < p < |calls| && TornDownAt(calls, t) && ProvisionedAt(calls, p)
  }

  ghost predicate TornDown(calls: seq<Call>, i: nat) {
    exists t :: i < t < |calls| && TornDownAt(calls, t)
  }

  ghost predicate TornDownAt(calls: seq<Call>, t: nat)
    requires t < |calls|
  {
    calls[t].Teardown? && Succeeds(calls, t)
  }

  ghost predicate ProvisionedAt(calls: seq<Call>, p: nat)
    requires p < |calls|
  {
    calls[p].Provision? && Succeeds(calls, p)
  }

  /** Which calls succeed, told by the calls before them and their answers. */
  lemma CallsThatSucceed(calls: seq<Call>, k: nat)
    requires k < |calls|
    ensures var w := Watching(calls[..k]);
            Succeeds(calls, k) <==>
            match calls[k]
            case Provision(prepared, credentials, startup, setUp, _) =>
              && !w.up && !w.leftover && w.stage != Held
              && prepared && credentials && startup == Running && setUp
            case Ready(handle) => w.up && w.sound && w.stage == Free && handle == Some(w.handles)
            case Reset(alive, closed, recreated, applied) =>
              w.up && w.sound && w.stage == Free && alive && closed && recreated && applied
            case Quarantine(_) => true
            case Teardown(alive, poolsClosed, terminated) =>
              alive && ((!w.up && !w.leftover) || (poolsClosed && terminated))
  {
    RunAgrees(calls[..k]);
  }

  lemma EarlierCalls(calls: seq<Call>, n: nat, k: nat)
    requires k < n <= |calls|
    ensures calls[..n][k] == calls[k] && calls[..n][..k] == calls[..k]
  {
  }

  lemma LiftedStays(calls: seq<Call>, n: nat, i: nat)
    requires n <= |calls|
    ensures TornDown(calls[..n], i) ==> TornDown(calls, i)
    ensures Lifted(calls[..n], i) ==> Lifted(calls, i)
  {
    if TornDown(calls[..n], i) {
      var t :| i < t < n && TornDownAt(calls[..n], t);
      EarlierCalls(calls, n, t);
      assert TornDownAt(calls, t);
    }
    if Lifted(calls[..n], i) {
      var t, p :| i < t < p < n && TornDownAt(calls[..n], t) && ProvisionedAt(calls[..n], p);
      EarlierCalls(calls, n, t);
      EarlierCalls(calls, n, p);
      assert TornDownAt(calls, t) && ProvisionedAt(calls, p);
    }
  }

  /** After a quarantine the observer sees Cleared only behind a clean teardown, and
      Free only behind a later provisioning as well. */
  lemma {:induction false} QuarantineIsLifted(calls: seq<Call>, i: nat)
    requires i < |calls| && calls[i] == Quarantine(true)
    ensures Watching(calls).stage == Cleared ==> TornDown(calls, i)
    ensures Watching(calls).stage == Free ==> Lifted(calls, i)
  {
    var n := |calls| - 1;
    if i < n {
      EarlierCalls(calls, n, i);
      QuarantineIsLifted(calls[..n], i);
      LiftedStays(calls, n, i);
      LastLifts(calls, i);
    }
  }

  lemma LastLifts(calls: seq<Call>, i: nat)
    requires i < |calls| - 1
    requires var before := Watching(calls[..|calls| - 1]).stage;
             && (before == Cleared ==> TornDown(calls, i)) && (before == Free ==> Lifted(calls, i))
    ensures Watching(calls).stage == Cleared ==> TornDown(calls, i)
    ensures Watching(calls).stage == Free ==> Lifted(calls, i)
  {
    var n := |calls| - 1;
    var s, w, call := Run(INITIAL, calls[..n]), Watching(calls[..n]), calls[|calls| - 1];
    RunAgrees(calls[..n]);
    StageMoves(s, w, call);
    if Watching(calls).stage == Cleared && w.stage != Cleared {
      assert TornDownAt(calls, n);
    } else if Watching(calls).stage == Free && w.stage != Free {
      assert ProvisionedAt(calls, n);
      LiftedNow(calls, i);
    }
  }

  lemma StageMoves(s: State, w: Watch, call: Call)
    requires Agrees(s, w)
    ensures var after := Observe(w, call, Apply(s, call).ok).stage;
            && (after == Cleared && w.stage != Cleared ==> call.Teardown? && Apply(s, call).ok)
            && (after == Free && w.stage != Free ==>
                  call.Provision? && Apply(s, call).ok && w.stage == Cleared)
  {
  }

  lemma LiftedNow(calls: seq<Call>, i: nat)
    requires i < |calls| - 1 && TornDown(calls, i) && ProvisionedAt(calls, |calls| - 1)
    ensures Lifted(calls, i)
  {
    var t :| i < t < |calls| && TornDownAt(calls, t);
    assert t != |calls| - 1;
  }

  /** After a quarantine neither Ready nor Reset succeeds before a teardown without error
      and a later successful provisioning. */
  lemma QuarantineHolds(calls: seq<Call>, i: nat, k: nat)
    requires i < k < |calls| && calls[i] == Quarantine(true)
    requires (calls[k].Ready? || calls[k].Reset?) && Succeeds(calls, k)
    ensures Lifted(calls[..k], i)
  {
    RunAgrees(calls[..k]);
    EarlierCalls(calls, k, i);
    QuarantineIsLifted(calls[..k], i);
  }

  /** Only the newest handle ever passes Ready, and none that a teardown has reached. */
  lemma OnlyTheNewestHandle(calls: seq<Call>, k: nat)
    requires k < |calls| && calls[k].Ready? && Succeeds(calls, k)
    ensures var w := Watching(calls[..k]); calls[k].handle == Some(w.handles) && w.handles > w.retired
  {
    RunAgrees(calls[..k]);
  }

  lemma InvalidStays(s: State, call: Call, handle: nat)
    requires handle !in s.valid && handle <= s.issued
    ensures var after := Apply(s, call).state; handle !in after.valid && handle <= after.issued
  {
  }

  /** A handle that fails a reset, a quarantine or a teardown stays invalid for good. */
  lemma {:induction false} InvalidStaysInvalid(calls: seq<Call>, n: nat, handle: nat)
    requires n <= |calls| && handle <= Run(INITIAL, calls[..n]).issued
    requires handle !in Run(INITIAL, calls[..n]).valid
    ensures handle !in Run(INITIAL, calls).valid && handle <= Run(INITIAL, calls).issued
    decreases |calls|
  {
    if n == |calls| {
      assert calls[..n] == calls;
    } else {
      var front := calls[..|calls| - 1];
      assert front[..n] == calls[..n];
      InvalidStaysInvalid(front, n, handle);
      InvalidStays(Run(INITIAL, front), calls[|calls| - 1], handle);
    }
  }

  // ----- The fixture itself -----

  class MySqlFixture {
    var container: bool
    var admin: bool
    var db: Option<nat>
    var provisioned: bool
    var quarantined: bool
    var teardownSucceeded: bool
    /** The handles' connection descriptors that are still valid. */
    var valid: set<nat>
    var issued: nat

    constructor ()
      ensures Snapshot() == INITIAL
    {
      container, admin, db, provisioned := false, false, None, false;
      quarantined, teardownSucceeded, valid, issued := false, false, {}, 0;
    }

    function Snapshot(): State
      reads this
    {
      State(container, admin, db, provisioned, quarantined, teardownSucceeded, valid, issued)
    }

    /** Invalidates the current handle's descriptor, if there is one. */
    method Invalidate()
      modifies `valid
      ensures Snapshot() == Invalidated(old(Snapshot()))
    {
      if db.Some? {
        valid := valid - {db.value};
      }
    }

    method Provision(prepared: bool, credentials: bool, startup: Startup, setUp: bool, cleaned: bool)
      returns (handle: Option<nat>)
      modifies this
      ensures Outcome(Snapshot(), handle.Some?)
           == Apply(old(Snapshot()), Call.Provision(prepared, credentials, startup, setUp, cleaned))
      ensures handle.Some? ==> handle == db
    {
      if provisioned || container || (quarantined && !teardownSucceeded) {
        return None;
      }
      if !prepared || !credentials || startup == Broken {
        return None;
      }
      if startup == BrokenContainer || !setUp {
        if !cleaned {
          container := true;
        }
        return None;
      }
      issued := issued + 1;
      valid := valid + {issued};
      container, admin, db, provisioned := true, true, Some(issued), true;
      quarantined, teardownSucceeded := false, false;
      return db;
    }

    method Ready(handle: Option<nat>) returns (ok: bool)
      ensures ok == Apply(Snapshot(), Call.Ready(handle)).ok
    {
      if quarantined {
        return false;
      }
      if !provisioned {
        return false;
      }
      ok := handle.Some? && handle == db && handle.value in valid;
    }

    method Reset(alive: bool, closed: bool, recreated: bool, applied: bool) returns (ok: bool)
      modifies `valid
      ensures Outcome(Snapshot(), ok) == Apply(old(Snapshot()), Call.Reset(alive, closed, recreated, applied))
    {
      if quarantined || !provisioned {
        return false;
      }
      if db == None || db.value !in valid {
        return false;
      }
      if !alive {
        return false;
      }
      if !closed {
        Invalidate();
        return false;
      }
      if !recreated || !applied {
        Invalidate();
        return false;
      }
      ok := true;
    }

    method Quarantine(cause: bool)
      modifies this
      ensures Snapshot() == Apply(old(Snapshot()), Call.Quarantine(cause)).state
    {
      if !cause {
        return;
      }
      quarantined := true;
      teardownSucceeded := false;
      Invalidate();
    }

    method Teardown(alive: bool, poolsClosed: bool, terminated: bool) returns (ok: bool)
      modifies this
      ensures Outcome(Snapshot(), ok) == Apply(old(Snapshot()), Call.Teardown(alive, poolsClosed, terminated))
    {
      if !alive {
        return false;
      }
      if !provisioned && !container && !admin && db == None {
        teardownSucceeded := true;
        return true;
      }
      Invalidate();
      if !terminated {
        return false;
      }
      container, admin, db, provisioned := false, false, None, false;
      if poolsClosed {
        teardownSucceeded := true;
      }
      ok := poolsClosed;
    }
  }
}
