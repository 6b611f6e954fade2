/** The runtime object: the fields of internal/syncpoint/runtime.go, updated in place, each
    critical section computing the atomic step of the same name. */
module Runtimes {
  import opened Options
  import opened Scenarios
  import opened Syncpoint
  import S = Syncpoint

  class Runtime {
    var closed: bool
    var workers: map<string, WorkerRecord>
    var arrivals: seq<Arrival>

    constructor ()
      ensures Value() == INITIAL
    {
      closed, workers, arrivals := false, map[], [];
    }

    ghost function Value(): State
      reads this
    {
      State(closed, workers, arrivals)
    }

    method Register(id: string) returns (error: Option<Error>)
      modifies this
      ensures (Value(), error) == S.Register(old(Value()), id)
    {
      if Blank(id) { return Some(ErrInvalidTransition); }
      if closed { return Some(ErrClosed); }
      if id in workers { return Some(ErrInvalidTransition); }
      workers := workers[id := WorkerRecord(Running, "", None, false, "")];
      return None;
    }

    method ArriveStart(contextDone: bool, id: string, point: string) returns (r: Result<nat>)
      modifies this
      ensures (Value(), r) == S.ArriveStart(old(Value()), contextDone, id, point)
    {
      if contextDone { return Err(ContextDone); }
      if Blank(id) || Blank(point) { return Err(ErrInvalidTransition); }
      if closed { return Err(ErrClosed); }
      if id !in workers { return Err(ErrUnknownWorker); }
      var failure := ArrivalError(workers[id], point);
      if failure.Some? { return Err(failure.value); }
      var a := |arrivals|;
      arrivals := arrivals + [Arrival(id, point, false, false, 0, None, None)];
      workers := workers[id := workers[id].(state := Arrived, point := point, arrival := Some(a))];
      return Ok(a);
    }

    method ArriveWake(contextDone: bool, a: nat) returns (outcome: ArriveOutcome)
      requires CanWake(Value(), contextDone, a) && arrivals[a].worker in workers
      modifies this
      ensures (Value(), outcome) == S.ArriveWake(old(Value()), contextDone, a)
    {
      var id := arrivals[a].worker;
      var worker := workers[id];
      if arrivals[a].released {
        if worker.arrival == Some(a) { worker := worker.(arrival := None); }
        outcome := Nil;
      } else if arrivals[a].closed || closed {
        outcome := FailedClosed;
      } else if contextDone {
        if worker.arrival == Some(a) && worker.state == Arrived {
          worker := worker.(arrival := None, state := Running, point := "");
        }
        outcome := FailedContext;
      } else {
        outcome := WokeWithoutRelease;
      }
      workers := workers[id := worker];
      arrivals := arrivals[a := arrivals[a].(outcome := Some(outcome))];
    }

    method WaitStart(contextDone: bool, id: string, point: string, timeout: int)
      returns (r: Option<Result<ArriveStatus>>)
      modifies this
      ensures (Value(), r) == S.WaitStart(old(Value()), contextDone, id, point, timeout)
    {
      if contextDone { return Some(Err(ContextDone)); }
      if Blank(id) || Blank(point) || timeout <= 0 { return Some(Err(ErrInvalidTransition)); }
      if closed { return Some(Err(ErrClosed)); }
      if id !in workers { return Some(Err(ErrUnknownWorker)); }
      if workers[id].waitActive { return Some(Err(ErrInvalidTransition)); }
      r := WaitStatus(State(closed, workers, arrivals), id, point);
      if r.Some? { return; }
      workers := workers[id := workers[id].(waitActive := true, waitPoint := point)];
    }

    method WaitWake(contextDone: bool, id: string, point: string, wake: Wake) returns (r: Option<Result<ArriveStatus>>)
      requires id in workers
      modifies this
      ensures (Value(), r) == S.WaitWake(old(Value()), contextDone, id, point, wake)
    {
      var worker := workers[id];
      r := WaitStatus(State(closed, workers, arrivals), id, point);
      if r == None {
        if contextDone {
          r := Some(Err(ContextDone));
        } else if wake == WakeTimeout {
          worker := worker.(state := DBBlocked, point := point);
          r := Some(Ok(StatusTimeout));
        }
      }
      if r.Some? {
        workers := workers[id := worker.(waitActive := false, waitPoint := "")];
      }
    }

    method Release(contextDone: bool, id: string, point: string) returns (error: Option<Error>)
      requires Inv(Value())
      modifies this
      ensures (Value(), error) == S.Release(old(Value()), contextDone, id, point)
    {
      if contextDone { return Some(ContextDone); }
      if Blank(id) || Blank(point) { return Some(ErrInvalidTransition); }
      if closed { return Some(ErrClosed); }
      if id !in workers { return Some(ErrUnknownWorker); }
      if workers[id].state != Arrived || workers[id].arrival == None { return Some(ErrInvalidTransition); }
      var a := workers[id].arrival.value;
      assert WorkerInv(Value(), id);
      if workers[id].point != point { return Some(ErrPointMismatch); }
      workers := workers[id := workers[id].(state := Released)];
      arrivals := arrivals[a := arrivals[a].(released := true, readyCloses := arrivals[a].readyCloses + 1,
                                             releasedBy := Some((id, point)))];
      return None;
    }

    method Finish(id: string, failed: bool) returns (error: Option<Error>)
      modifies this
      ensures (Value(), error) == S.Finish(old(Value()), id, failed)
    {
      if Blank(id) { return Some(ErrInvalidTransition); }
      if id !in workers { return Some(ErrUnknownWorker); }
      if workers[id].state !in {Running, Released, DBBlocked} { return Some(ErrInvalidTransition); }
      workers := workers[id := workers[id].(state := if failed then Failed else Done, arrival := None)];
      return None;
    }

    /** Visits the workers one by one; closing is safe because no two share an Arrive call. */
    method Close()
      requires Inv(Value())
      modifies this
      ensures Value() == S.Close(old(Value()))
    {
      if closed { return; }
      ghost var s := Value();
      closed := true;
      var todo := workers.Keys;
      CloseNothing(s);
      while todo != {}
        invariant todo <= s.workers.Keys && Value() == CloseExcept(s, todo)
        decreases |todo|
      {
        var id :| id in todo;
        CloseOne(s, todo, id);
        todo := todo - {id};
        if workers[id].state == Arrived && workers[id].arrival.Some? {
          var a := workers[id].arrival.value;
          arrivals := arrivals[a := arrivals[a].(closed := true, readyCloses := arrivals[a].readyCloses + 1)];
          workers := workers[id := workers[id].(arrival := None, state := Running, point := "")];
        }
      }
    }
  }

  lemma CloseNothing(s: State)
    requires Inv(s)
    ensures CloseExcept(s, s.workers.Keys) == s.(closed := true)
  {
    assert forall a :: 0 <= a < |s.arrivals| ==> ArrivalInv(s, a);
  }

  /** Visiting one more worker shuts at most its own Arrive call. */
  lemma CloseOne(s: State, todo: set<string>, id: string)
    requires Inv(s) && id in todo && todo <= s.workers.Keys
    ensures var before, after := CloseExcept(s, todo), CloseExcept(s, todo - {id});
            && before.workers[id] == s.workers[id]
            && (if s.workers[id].state == Arrived && s.workers[id].arrival.Some? then
                  var a := s.workers[id].arrival.value;
                  && a < |before.arrivals|
                  && after.arrivals == before.arrivals[a := Shut(before.arrivals[a])]
                  && after.workers == before.workers[id := Unblock(s.workers[id])]
                else after == before)
  {
    var before, after := CloseExcept(s, todo), CloseExcept(s, todo - {id});
    assert WorkerInv(s, id);
    if s.workers[id].state == Arrived && s.workers[id].arrival.Some? {
      var a := s.workers[id].arrival.value;
      forall b | 0 <= b < |s.arrivals| ensures after.arrivals[b] == before.arrivals[a := Shut(before.arrivals[a])][b] {
        assert ArrivalInv(s, b);
      }
      assert after.arrivals == before.arrivals[a := Shut(before.arrivals[a])];
      assert after.workers == before.workers[id := Unblock(s.workers[id])];
    } else {
      forall b | 0 <= b < |s.arrivals| ensures after.arrivals[b] == before.arrivals[b] {
        assert ArrivalInv(s, b);
      }
      assert after.arrivals == before.arrivals;
      assert after.workers == before.workers;
    }
  }
}
