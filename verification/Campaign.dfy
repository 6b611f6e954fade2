/** Crash-safe collection of one-attempt slots: durable checkpoints and seals
    (experiments/control-comparison/runner/tool.py and support.py). */
module Campaigns {
  import opened Options
  import opened Scenarios

  datatype Phase = Feasibility | Measurement

  datatype Slot = Slot(id: string, unsupported: bool)

  /** Reasons carry some text. */
  type Reason = s: string | s != "" witness "x"

  datatype Stop = Stop(reason: Reason, slot: string)

  /** The record kept in slot.json. */
  datatype SlotState = SlotState(
    slot: string, unsupported: bool, erred: bool, cleanupProven: bool, stop: Option<Stop>)

  /** A slot's files: its record, what commands wrote, and whether the measured
      command left its receipt. */
  datatype Contents = Contents(state: Option<SlotState>, output: string, ran: bool)

  /** A slot directory and the inventory it was sealed with. */
  datatype SlotDir = SlotDir(contents: Contents, seal: Option<Contents>)

  /** A public registration names the digests of the frozen manifest and order. */
  datatype Registration = Registration(manifest: string, order: string, identity: string)

  /** The digests of the frozen files as they are on disk. */
  datatype Frozen = Frozen(manifest: string, order: string)

  predicate Binds(registration: Registration, frozen: Frozen) {
    registration.manifest == frozen.manifest && registration.order == frozen.order
  }

  datatype Progress = Progress(
    slots: map<string, Contents>, active: Option<string>, stopped: Option<Stop>,
    registration: Option<Registration>, complete: bool)

  /** Everything that survives a crash.  A checksum is the content it covers. */
  datatype Store = Store(
    checkpoint: Progress, progressSeal: Progress, slots: map<string, SlotDir>,
    registration: Option<Registration>, stopMarker: Option<Stop>, frozen: Frozen)

  function Ids(order: seq<Slot>): (ids: seq<string>)
    ensures |ids| == |order|
    ensures forall i :: 0 <= i < |ids| ==> ids[i] == order[i].id
  {
    seq(|order|, i requires 0 <= i < |order| => order[i].id)
  }

  // ----- What a resume accepts -----

  /** The retained record of one slot is complete and consistent. */
  predicate Fits(slot: Slot, contents: Contents, last: bool) {
    && contents.state.Some?
    && var state := contents.state.value;
       && state.slot == slot.id
       && state.unsupported == slot.unsupported
       && (if slot.unsupported then !contents.ran else state.cleanupProven || state.stop.Some?)
       && (state.stop.Some? ==> state.stop.value.slot == slot.id && last)
  }

  /** id belongs to one of the first n slots. */
  ghost predicate Among(order: seq<Slot>, n: nat, id: string) {
    n <= |order| && id in Ids(order)[..n]
  }

  /** The directories are those of the first slots, all sealed. */
  ghost predicate Sealed(order: seq<Slot>, slots: map<string, SlotDir>) {
    && |slots| <= |order|
    && (forall id :: id in slots <==> Among(order, |slots|, id))
    && (forall id :: id in slots ==> slots[id].seal == Some(slots[id].contents))
  }

  ghost predicate Fit(order: seq<Slot>, slots: map<string, SlotDir>)
    requires |slots| <= |order|
  {
    forall i :: 0 <= i < |slots| ==> FitsAt(order, slots, i)
  }

  ghost predicate FitsAt(order: seq<Slot>, slots: map<string, SlotDir>, i: nat)
    requires i < |slots| <= |order|
  {
    order[i].id in slots && Fits(order[i], slots[order[i].id].contents, i == |slots| - 1)
  }

  /** The stop recorded in the last slot, if any. */
  function LastStop(order: seq<Slot>, slots: map<string, SlotDir>): Option<Stop> {
    var n := |slots|;
    if 0 < n <= |order| && order[n - 1].id in slots && slots[order[n - 1].id].contents.state.Some?
    then slots[order[n - 1].id].contents.state.value.stop else None
  }

  /** What a checkpoint says of the slots it consumed. */
  function Seals(slots: map<string, SlotDir>): map<string, Contents> {
    map id | id in slots && slots[id].seal.Some? :: slots[id].seal.value
  }

  ghost predicate Retained(phase: Phase, order: seq<Slot>, store: Store) {
    var n, p := |store.slots|, store.checkpoint;
    && Sealed(order, store.slots)
    && store.progressSeal == p
    && (p.registration.Some? ==>
          store.registration == p.registration && Binds(p.registration.value, store.frozen))
    && (phase == Measurement && (n > 0 || p.active.Some?) ==> p.registration.Some?)
    && p.slots == Seals(store.slots)
    && p.active == None
    && Fit(order, store.slots)
    && p.stopped == LastStop(order, store.slots)
    && p.complete == (n == |order| && p.stopped == None)
    && (store.stopMarker.Some? ==> store.stopMarker == p.stopped)
  }

  ghost predicate Resumable(phase: Phase, order: seq<Slot>, store: Store) {
    Retained(phase, order, store) && store.checkpoint.stopped == None
  }

  /** The progress directory alone rules out every resume. */
  predicate Barred(store: Store) {
    || store.progressSeal != store.checkpoint
    || store.checkpoint.active.Some?
    || store.checkpoint.stopped.Some?
  }

  // ----- What a campaign has done -----

  /** Slots in the order they were activated, checkpointed, and measured; the stops recorded; and
      what the outside has said: the slots of which some step failed, those whose cleanup was
      proven last, and how often an interrupt, a failed check or an unproven cleanup called for
      a stop before the slot was closed, or after that. */
  datatype History = History(
    activated: seq<string>, finished: seq<string>, started: seq<string>, stops: nat,
    failed: set<string>, proven: set<string>, alarms: nat, late: nat)

  const NOTHING := History([], [], [], 0, {}, {}, 0, 0)

  /** Something has called for a stop. */
  predicate Called(h: History) {
    h.alarms > 0 || h.late > 0
  }

  function Calls(h: History): nat {
    h.alarms + h.late
  }

  /** Nothing but calls for a stop is new. */
  predicate OnlyCalls(was: History, now: History) {
    now == was.(alarms := now.alarms, late := now.late) && now.alarms >= was.alarms && now.late >= was.late
  }

  ghost predicate Unseen(id: string, h: History) {
    id !in h.started && id !in h.failed && id !in h.proven
  }

  /** What a measurement has come to. */
  datatype Work = Work(cleanupProven: bool, touched: bool, erred: bool, reason: Option<Reason>)

  /** It tells of a failure exactly if there was one, and of a proof only if there was one. */
  ghost predicate Told(slot: Slot, contents: Contents, work: Work, phase: Phase, h: History) {
    && (work.erred <==> slot.id in h.failed)
    && (contents.ran <==> slot.id in h.started)
    && (slot.unsupported ==> !contents.ran && !work.touched)
    && (!slot.unsupported ==> contents.ran || work.erred)
    && (!slot.unsupported && work.reason == None ==> work.touched)
    && (work.touched && work.cleanupProven && phase == Feasibility ==> slot.id in h.proven)
  }

  /** The retained record of a slot is true: it tells of a failure exactly if there was one; the
      measured command of a supported slot was started unless a step failed; its receipt is there
      exactly if it was started; and its cleanup was proven. */
  ghost predicate Truthful(slot: Slot, contents: Contents, h: History) {
    && contents.state.Some?
    && (contents.state.value.erred <==> slot.id in h.failed)
    && (contents.ran <==> slot.id in h.started)
    && (!slot.unsupported ==> slot.id in h.proven && (slot.id in h.started || slot.id in h.failed))
    && (slot.unsupported ==> slot.id !in h.started)
  }

  /** The first n slots are consumed, and their records are true. */
  ghost predicate AllTruthful(order: seq<Slot>, slots: map<string, Contents>, h: History, n: nat) {
    n <= |order| && forall j :: 0 <= j < n ==> order[j].id in slots && Truthful(order[j], slots[order[j].id], h)
  }

  /** Only slot id has come to anything since. */
  ghost predicate OnlyAbout(was: History, now: History, id: string) {
    && now.activated == was.activated && now.finished == was.finished && now.stops == was.stops
    && (now.started == was.started || now.started == was.started + [id])
    && now.failed - {id} == was.failed - {id} && now.proven - {id} == was.proven - {id}
    && now.alarms >= was.alarms
  }

  lemma OthersStayTruthful(order: seq<Slot>, slots: map<string, Contents>, was: History, now: History, n: nat)
    requires Distinct(Ids(order)) && n < |order| && AllTruthful(order, slots, was, n)
    requires OnlyAbout(was, now, order[n].id)
    ensures AllTruthful(order, slots, now, n)
  {
    forall j | 0 <= j < n ensures Truthful(order[j], slots[order[j].id], now) {
      assert Ids(order)[j] != Ids(order)[n];
      assert order[j].id in was.failed <==> order[j].id in was.failed - {order[n].id};
      assert order[j].id in now.failed <==> order[j].id in now.failed - {order[n].id};
      assert order[j].id in was.proven <==> order[j].id in was.proven - {order[n].id};
      assert order[j].id in now.proven <==> order[j].id in now.proven - {order[n].id};
    }
  }

  lemma OneMoreIsTruthful(order: seq<Slot>, slots: map<string, Contents>, h: History, k: nat, contents: Contents)
    requires Distinct(Ids(order)) && k < |order| && AllTruthful(order, slots, h, k)
    requires Truthful(order[k], contents, h)
    ensures AllTruthful(order, slots[order[k].id := contents], h, k + 1)
  {
    forall j | 0 <= j < k ensures order[j].id != order[k].id {
      assert Ids(order)[j] != Ids(order)[k];
    }
  }

  ghost predicate Inv(phase: Phase, order: seq<Slot>, store: Store, h: History) {
    forall g :: SameHistory(g, h) ==> Holds(phase, order, store, g)
  }

  predicate SameHistory(g: History, h: History) {
    g == h
  }

  lemma InvMeans(phase: Phase, order: seq<Slot>, store: Store, h: History)
    ensures Inv(phase, order, store, h) <==> Holds(phase, order, store, h)
  {
    assert SameHistory(h, h);
  }

  /** What always holds.  The invariant states it over all that is the same as h, so that proofs
      which only pass it on do not unfold it. */
  ghost predicate Holds(phase: Phase, order: seq<Slot>, store: Store, h: History) {
    && h.finished <= h.activated <= Ids(order)
    && |h.activated| <= |h.finished| + 1
    && Distinct(h.started) && (forall s :: s in h.started ==> s in h.activated)
    && (!Barred(store) ==> h.activated == h.finished && h.stops == 0 && h.alarms == 0)
    && (!Barred(store) ==> AllTruthful(order, store.checkpoint.slots, h, |h.finished|))
    && (h.stops > 0 ==> Called(h))
    && (forall s :: s in h.failed || s in h.proven ==> s in h.activated)
    && (!Barred(store) ==> forall id :: id in store.checkpoint.slots <==> id in h.finished)
    && (phase == Measurement && h.started != [] ==> store.checkpoint.registration.Some?)
  }

  lemma PrefixIncluded(ids: seq<string>, a: nat, b: nat)
    requires Distinct(ids) && a <= |ids| && b <= |ids|
    requires forall id :: id in ids[..a] ==> id in ids[..b]
    ensures a <= b
  {
    if a > 0 {
      assert ids[..a][a - 1] in ids[..a];
      var j :| 0 <= j < b && ids[..b][j] == ids[a - 1];
      assert j == a - 1;
    }
  }

  lemma PrefixByMembers(ids: seq<string>, a: nat, b: nat)
    requires Distinct(ids) && a <= |ids| && b <= |ids|
    requires forall id :: id in ids[..a] <==> id in ids[..b]
    ensures a == b
  {
    PrefixIncluded(ids, a, b);
    PrefixIncluded(ids, b, a);
  }

  /** A campaign that can be resumed has finished every slot it ever activated, in
      order, and recorded no stop. */
  lemma ResumableMeansFinished(phase: Phase, order: seq<Slot>, store: Store, h: History)
    requires Distinct(Ids(order)) && Inv(phase, order, store, h) && Resumable(phase, order, store)
    ensures h.activated == h.finished == Ids(order)[..|store.slots|] && h.stops == 0 && h.alarms == 0
    ensures forall s :: s in h.started ==> s in store.slots
    ensures AllTruthful(order, store.checkpoint.slots, h, |store.slots|)
  {
    InvMeans(phase, order, store, h);
    var ids := Ids(order);
    assert h.finished == ids[..|h.finished|];
    assert forall id :: id in Seals(store.slots) <==> id in store.slots;
    assert forall id :: id in store.slots <==> Among(order, |store.slots|, id);
    PrefixByMembers(ids, |h.finished|, |store.slots|);
  }

  /** Losing slot directories between sessions breaks nothing. */
  lemma LossKeepsInv(phase: Phase, order: seq<Slot>, store: Store, h: History, left: map<string, SlotDir>)
    requires Inv(phase, order, store, h)
    ensures Inv(phase, order, store.(slots := left), h)
  {
    InvMeans(phase, order, store, h);
    InvMeans(phase, order, store.(slots := left), h);
  }

  /** What the outside says about the open slot keeps the invariant. */
  lemma NewsKeepsInv(phase: Phase, order: seq<Slot>, store: Store, h: History, h': History, k: nat)
    requires Inv(phase, order, store, h) && Barred(store) && Open(order, h, k)
    requires h' == h.(failed := h'.failed, proven := h'.proven, alarms := h'.alarms) && h'.alarms >= h.alarms
    requires h'.failed <= h.failed + {order[k].id} && h'.proven <= h.proven + {order[k].id}
    ensures Inv(phase, order, store, h') && Open(order, h', k)
  {
    InvMeans(phase, order, store, h);
    InvMeans(phase, order, store, h');
    TakeId(Ids(order), k);
  }

  lemma LateNewsKeepsInv(phase: Phase, order: seq<Slot>, store: Store, h: History)
    requires Inv(phase, order, store, h)
    ensures Inv(phase, order, store, h.(late := h.late + 1))
    ensures Barred(store) ==> Inv(phase, order, store, h.(alarms := h.alarms + 1))
  {
    InvMeans(phase, order, store, h);
    InvMeans(phase, order, store, h.(late := h.late + 1));
    InvMeans(phase, order, store, h.(alarms := h.alarms + 1));
  }

  lemma StartKeepsInv(phase: Phase, order: seq<Slot>, store: Store, h: History, k: nat)
    requires Inv(phase, order, store, h) && Barred(store) && Open(order, h, k) && order[k].id !in h.started
    requires phase == Measurement ==> store.checkpoint.registration.Some?
    ensures Inv(phase, order, store, h.(started := h.started + [order[k].id]))
  {
    InvMeans(phase, order, store, h);
    InvMeans(phase, order, store, h.(started := h.started + [order[k].id]));
    TakeId(Ids(order), k);
  }

  /** Retaining a registration keeps the invariant at every step. */
  lemma RegistrationKeepsInv(phase: Phase, order: seq<Slot>, store: Store, h: History, r: Registration)
    requires Inv(phase, order, store, h) && !Barred(store)
    ensures Inv(phase, order, store.(registration := Some(r)), h)
    ensures var p := store.checkpoint.(registration := Some(r));
            Inv(phase, order, store.(checkpoint := p), h) && Inv(phase, order, Saved(store, p), h)
  {
    var p := store.checkpoint.(registration := Some(r));
    InvMeans(phase, order, store, h);
    InvMeans(phase, order, store.(registration := Some(r)), h);
    InvMeans(phase, order, store.(checkpoint := p), h);
    InvMeans(phase, order, Saved(store, p), h);
  }

  // ----- Checkpoints -----

  function NextProgress(order: seq<Slot>, was: Progress, consumed: map<string, Contents>,
                        active: Option<string>, stopped: Option<Stop>): Progress {
    Progress(consumed, active, stopped, was.registration,
             |consumed| == |order| && active == None && stopped == None)
  }

  function Saved(store: Store, p: Progress): Store {
    store.(checkpoint := p, progressSeal := p)
  }

  function SetDir(store: Store, id: string, dir: SlotDir): Store {
    store.(slots := store.slots[id := dir])
  }

  /** Slot number k is active: it alone is activated and not finished. */
  ghost predicate Open(order: seq<Slot>, h: History, k: nat) {
    k < |order| && h.activated == Ids(order)[..k + 1]
  }

  /** A memory of the consumed slots, before or after the open one joins them. */
  ghost predicate Remembered(order: seq<Slot>, consumed: map<string, Contents>, k: nat)
    requires k < |order|
  {
    || (forall id :: id in consumed <==> id in Ids(order)[..k])
    || (forall id :: id in consumed <==> id in Ids(order)[..k + 1])
  }

  lemma TakeId(ids: seq<string>, k: nat)
    requires k < |ids|
    ensures ids[..k + 1] == ids[..k] + [ids[k]]
    ensures forall id :: id in ids[..k + 1] <==> id in ids[..k] || id == ids[k]
  {
  }

  /** The history once a checkpoint that lists the open slot is saved. */
  function AfterSave(h: History, stopped: Option<Stop>): History {
    if stopped.Some? then h.(stops := h.stops + 1) else h.(finished := h.activated)
  }

  lemma SaveKeepsInv(phase: Phase, order: seq<Slot>, store: Store, h: History, k: nat,
                     consumed: map<string, Contents>, stopped: Option<Stop>)
    requires Inv(phase, order, store, h) && Open(order, h, k)
    requires forall id :: id in consumed <==> id in Ids(order)[..k + 1]
    requires if stopped.Some? then Called(h)
             else h.stops == 0 && h.alarms == 0 && AllTruthful(order, consumed, h, k + 1)
    ensures Inv(phase, order, Saved(store, NextProgress(order, store.checkpoint, consumed, None, stopped)),
                AfterSave(h, stopped))
  {
    var store' := Saved(store, NextProgress(order, store.checkpoint, consumed, None, stopped));
    InvMeans(phase, order, store, h);
    InvMeans(phase, order, store', AfterSave(h, stopped));
  }

  /** An unsealed checkpoint bars every resume. */
  lemma UnsealedKeepsInv(phase: Phase, order: seq<Slot>, store: Store, h: History, p: Progress)
    requires Inv(phase, order, store, h) && p.registration == store.checkpoint.registration
    requires store.progressSeal != p
    ensures Inv(phase, order, store.(checkpoint := p), h) && Barred(store.(checkpoint := p))
  {
    InvMeans(phase, order, store, h);
    InvMeans(phase, order, store.(checkpoint := p), h);
  }

  lemma ActivateKeepsInv(phase: Phase, order: seq<Slot>, store: Store, h: History, k: nat, p: Progress)
    requires Inv(phase, order, store, h) && !Barred(store)
    requires k < |order| && h.finished == Ids(order)[..k]
    requires p.active == Some(Ids(order)[k]) && p.registration == store.checkpoint.registration
    ensures var h' := h.(activated := h.activated + [Ids(order)[k]]);
            && Open(order, h', k)
            && Inv(phase, order, store.(checkpoint := p), h') && Barred(store.(checkpoint := p))
            && Inv(phase, order, Saved(store, p), h') && Barred(Saved(store, p))
  {
    var h' := h.(activated := h.activated + [Ids(order)[k]]);
    InvMeans(phase, order, store, h);
    InvMeans(phase, order, store.(checkpoint := p), h');
    InvMeans(phase, order, Saved(store, p), h');
    TakeId(Ids(order), k);
  }

  /** A slot that was resumable before its activation and is checkpointed without a
      stop leaves the campaign resumable. */
  lemma CompletionIsResumable(phase: Phase, order: seq<Slot>, base: Store, k: nat, contents: Contents)
    requires Distinct(Ids(order)) && Resumable(phase, order, base) && k == |base.slots| < |order|
    requires phase == Measurement ==> base.checkpoint.registration.Some?
    requires Fits(order[k], contents, true) && contents.state.value.stop == None
    ensures var id, dir := order[k].id, SlotDir(contents, Some(contents));
            var p := NextProgress(order, base.checkpoint, base.checkpoint.slots[id := contents], None, None);
            && Resumable(phase, order, Saved(SetDir(base, id, dir), p))
            && |SetDir(base, id, dir).slots| == k + 1
  {
    var slots := Grown(order, base.slots, k, contents);
    SealedGrows(order, base.slots, k, contents);
    FitGrows(order, base.slots, k, contents);
    SealsGrow(base.slots, order[k].id, contents);
    SealsGrow(slots, order[k].id, contents);
    assert LastStop(order, slots) == None;
  }

  /** The slot directories once slot k is sealed too. */
  function Grown(order: seq<Slot>, slots: map<string, SlotDir>, k: nat, contents: Contents): map<string, SlotDir>
    requires k < |order|
  {
    slots[order[k].id := SlotDir(contents, Some(contents))]
  }

  lemma NotYet(order: seq<Slot>, k: nat)
    requires Distinct(Ids(order)) && k < |order|
    ensures !Among(order, k, order[k].id)
    ensures forall id :: Among(order, k + 1, id) <==> Among(order, k, id) || id == order[k].id
  {
    var ids := Ids(order);
    TakeId(ids, k);
    forall j | 0 <= j < k ensures ids[..k][j] != ids[k] {
    }
  }

  lemma SealedGrows(order: seq<Slot>, slots: map<string, SlotDir>, k: nat, contents: Contents)
    requires Distinct(Ids(order)) && Sealed(order, slots) && k == |slots| < |order|
    ensures order[k].id !in slots
    ensures Sealed(order, Grown(order, slots, k, contents)) && |Grown(order, slots, k, contents)| == k + 1
  {
    NotYet(order, k);
    GrownSize(order, slots, k, contents);
  }

  lemma GrownSize(order: seq<Slot>, slots: map<string, SlotDir>, k: nat, contents: Contents)
    requires k < |order| && order[k].id !in slots
    ensures Grown(order, slots, k, contents).Keys == slots.Keys + {order[k].id}
    ensures |Grown(order, slots, k, contents)| == |slots| + 1
  {
    assert Grown(order, slots, k, contents).Keys == slots.Keys + {order[k].id};
  }

  lemma FitGrows(order: seq<Slot>, slots: map<string, SlotDir>, k: nat, contents: Contents)
    requires Distinct(Ids(order)) && Sealed(order, slots) && Fit(order, slots) && k == |slots| < |order|
    requires LastStop(order, slots) == None && Fits(order[k], contents, true)
    ensures |Grown(order, slots, k, contents)| == k + 1 && Fit(order, Grown(order, slots, k, contents))
  {
    SealedGrows(order, slots, k, contents);
    forall i | 0 <= i < k + 1 ensures FitsAt(order, Grown(order, slots, k, contents), i) {
      if i < k {
        assert FitsAt(order, slots, i);
        assert order[i].id in slots;
        FitsStill(order, slots, k, contents, i);
      }
    }
  }

  lemma FitsStill(order: seq<Slot>, slots: map<string, SlotDir>, k: nat, contents: Contents, i: nat)
    requires i < k == |slots| < |order| && FitsAt(order, slots, i)
    requires order[i].id != order[k].id && |Grown(order, slots, k, contents)| == k + 1
    requires i == k - 1 ==> LastStop(order, slots) == None
    ensures FitsAt(order, Grown(order, slots, k, contents), i)
  {
  }

  lemma SealsGrow(slots: map<string, SlotDir>, id: string, contents: Contents)
    requires forall i :: i in slots ==> slots[i].seal.Some?
    ensures Seals(slots[id := SlotDir(contents, Some(contents))]) == Seals(slots)[id := contents]
    ensures Seals(slots).Keys == slots.Keys
  {
  }

  // ----- Collecting -----

  datatype Outcome = Died | Stopped | Continued

  /** How a session ended. */
  datatype End = Refused | Dead | Halted | Done

  predicate LimitAllowed(phase: Phase, maxSlots: Option<nat>) {
    maxSlots.Some? ==> phase == Feasibility && maxSlots.value > 0
  }

  /** A measurement needs a registration that names the frozen files and is the one retained. */
  predicate Registrable(phase: Phase, store: Store, registration: Option<Registration>) {
    phase == Measurement ==>
      && registration.Some? && Binds(registration.value, store.frozen)
      && (store.registration.Some? ==> store.registration == registration)
  }

  /** How many slots a session that is neither stopped nor dies leaves consumed. */
  function Goal(all: nat, were: nat, maxSlots: Option<nat>): nat {
    if maxSlots.Some? && were + maxSlots.value < all then were + maxSlots.value else all
  }

  class Campaign {
    const phase: Phase
    const order: seq<Slot>
    var store: Store
    /** The consumed slots as the running session remembers them. */
    var consumed: map<string, Contents>
    ghost var h: History
    /** How often a session died. */
    ghost var deaths: nat

    constructor (phase: Phase, order: seq<Slot>, frozen: Frozen)
      requires Distinct(Ids(order))
      ensures this.phase == phase && this.order == order && Valid()
      ensures h == NOTHING && Resumable(phase, order, store) && store.frozen == frozen
    {
      var p := Progress(map[], None, None, None, |order| == 0);
      this.phase, this.order := phase, order;
      store, consumed := Store(p, p, map[], None, None, frozen), map[];
      h, deaths := NOTHING, 0;
      new;
      InvMeans(phase, order, store, h);
    }

    ghost predicate Valid()
      reads `store, `h
    {
      Distinct(Ids(order)) && Inv(phase, order, store, h)
    }

    /** One atomic replacement on disk.  The collector may die right after it. */
    method Write(next: Store) returns (alive: bool)
      modifies `store, `deaths
      ensures store == next && deaths == old(deaths) + if alive then 0 else 1
    {
      store := next;
      alive := *;
      deaths := deaths + if alive then 0 else 1;
    }

    /** A check or an operation of which the collector may die, without touching the disk. */
    method Try() returns (alive: bool)
      modifies `deaths
      ensures deaths == old(deaths) + if alive then 0 else 1
    {
      alive := *;
      deaths := deaths + if alive then 0 else 1;
    }

    /** Replaces the checkpoint, then its seal; refuses a checkpoint that does not verify. */
    method SaveProgress(active: Option<string>, stopped: Option<Stop>) returns (alive: bool)
      modifies `store, `deaths
      ensures var p := NextProgress(order, old(store).checkpoint, consumed, active, stopped);
              if alive then store == Saved(old(store), p)
              else store == old(store) || store == old(store).(checkpoint := p) || store == Saved(old(store), p)
      ensures alive <==> deaths == old(deaths) && old(store).progressSeal == old(store).checkpoint
      ensures deaths >= old(deaths)
    {
      if store.progressSeal != store.checkpoint {
        return false;
      }
      var p := NextProgress(order, store.checkpoint, consumed, active, stopped);
      alive := Write(store.(checkpoint := p));
      if !alive { return; }
      alive := Write(store.(progressSeal := store.checkpoint));
    }

    /** Checks everything a session needs to continue where the last one ended. */
    method RetainedProgress() returns (ok: bool)
      ensures ok == Retained(phase, order, store)
    {
      var p, n := store.checkpoint, |store.slots|;
      var prefix := OrderedPrefix();
      if !prefix || store.progressSeal != p {
        return false;
      }
      if p.registration.Some?
         && (store.registration != p.registration || !Binds(p.registration.value, store.frozen)) {
        return false;
      }
      if phase == Measurement && (n > 0 || p.active.Some?) && p.registration == None {
        return false;
      }
      if p.slots != Seals(store.slots) || p.active.Some? {
        return false;
      }
      for i := 0 to n
        invariant forall j :: 0 <= j < i ==> FitsAt(order, store.slots, j)
      {
        assert Among(order, n, Ids(order)[..n][i]);
        if !Fits(order[i], store.slots[order[i].id].contents, i == n - 1) {
          assert !FitsAt(order, store.slots, i);
          return false;
        }
      }
      ok := && p.stopped == LastStop(order, store.slots)
            && p.complete == (n == |order| && p.stopped == None)
            && (store.stopMarker.Some? ==> store.stopMarker == p.stopped);
    }

    /** Consumed slots are an ordered prefix, and every one verifies. */
    method OrderedPrefix() returns (ok: bool)
      ensures ok == Sealed(order, store.slots)
    {
      var n, ids := |store.slots|, Ids(order);
      if n > |order| {
        return false;
      }
      var first := set i | 0 <= i < n :: ids[i];
      assert forall id :: id in first <==> Among(order, n, id);
      if store.slots.Keys != first {
        return false;
      }
      ok := forall id :: id in store.slots ==> store.slots[id].seal == Some(store.slots[id].contents);
    }

    /** Requires a registration before anything is measured, and retains it. */
    method Register(registration: Option<Registration>) returns (alive: bool)
      requires Valid() && Resumable(phase, order, store)
      modifies `store, `deaths
      ensures Valid() && store.slots == old(store).slots && deaths >= old(deaths)
      ensures store.checkpoint.slots == old(store).checkpoint.slots
      ensures alive ==> Resumable(phase, order, store)
      ensures alive && phase == Measurement ==>
        store.checkpoint.registration.Some? && Binds(store.checkpoint.registration.value, store.frozen)
      ensures !alive ==> Barred(store) || Resumable(phase, order, store)
      ensures alive <==> deaths == old(deaths) && Registrable(phase, old(store), registration)
      ensures Registrable(phase, store, registration) <==> Registrable(phase, old(store), registration)
    {
      if phase == Feasibility {
        return true;
      }
      var kept := store.checkpoint.registration;
      if registration == None || (kept == None && store.checkpoint.slots != map[]) {
        return false;
      }
      if !Binds(registration.value, store.frozen) {
        return false;
      }
      RegistrationKeepsInv(phase, order, store, h, registration.value);
      alive := Try();
      if !alive { return; }
      if store.registration.Some? {
        if store.registration != registration { return false; }
      } else {
        alive := Write(store.(registration := registration));
        if !alive { return; }
        RegistrationKeepsInv(phase, order, store, h, registration.value);
      }
      if kept == None {
        alive := Write(store.(checkpoint := store.checkpoint.(registration := registration)));
        if !alive { return; }
        alive := Write(store.(progressSeal := store.checkpoint));
      }
    }

    // ----- One slot -----

    /** Makes slot k the active one, durably. */
    method Activate(k: nat) returns (alive: bool)
      requires Valid() && !Barred(store) && k < |order| && h.finished == Ids(order)[..k]
      modifies `store, `h, `deaths
      ensures Valid() && deaths >= old(deaths) && (!alive ==> deaths > old(deaths))
      ensures alive ==>
        && Open(order, h, k) && h == old(h).(activated := h.activated)
        && store == Saved(old(store), NextProgress(order, old(store).checkpoint, consumed, Some(order[k].id), None))
      ensures !alive ==> (store == old(store) && h == old(h)) || Barred(store)
    {
      ghost var p := NextProgress(order, store.checkpoint, consumed, Some(order[k].id), None);
      ActivateKeepsInv(phase, order, store, h, k, p);
      ghost var before := store;
      alive := SaveProgress(Some(order[k].id), None);
      if store != before {
        h := h.(activated := h.activated + [order[k].id]);
      }
    }

    /** A slot's directory may become anything. */
    lemma SlotMayChange(id: string, dir: SlotDir)
      requires Valid()
      ensures Inv(phase, order, SetDir(store, id, dir), h)
      ensures forall other :: SetDir(SetDir(store, id, other), id, dir) == SetDir(store, id, dir)
    {
      LossKeepsInv(phase, order, store, h, store.slots[id := dir]);
      forall other ensures SetDir(SetDir(store, id, other), id, dir) == SetDir(store, id, dir) {
        SetTwice(store, id, other, dir);
      }
    }

    /** Publishes the slot's directory under a new name and writes its first record. */
    method OpenSlot(k: nat, state: SlotState) returns (alive: bool)
      requires Valid() && k < |order| && order[k].id !in store.slots
      modifies `store, `deaths
      ensures Valid() && store == old(store).(slots := store.slots)
      ensures deaths >= old(deaths) && (!alive ==> deaths > old(deaths))
      ensures alive ==>
        store == SetDir(old(store), order[k].id, SlotDir(Contents(Some(state), "", false), None))
    {
      var id := order[k].id;
      alive := Try();
      if !alive { return; }
      SlotMayChange(id, SlotDir(Contents(None, "", false), None));
      SlotMayChange(id, SlotDir(Contents(Some(state), "", false), None));
      alive := Write(SetDir(store, id, SlotDir(Contents(None, "", false), None)));
      if !alive { return; }
      alive := Write(SetDir(store, id, SlotDir(Contents(Some(state), "", false), None)));
    }

    /** Slot k is the last one activated, and its directory is there. */
    ghost predicate Near(k: nat)
      reads `store, `h
    {
      Valid() && Open(order, h, k) && order[k].id in store.slots
    }

    /** And it is not closed yet. */
    ghost predicate At(k: nat)
      reads `store, `h
    {
      Near(k) && Barred(store)
    }

    /** A command of the slot, which may leave anything in the slot's directory. */
    method Command(k: nat) returns (ok: bool)
      requires At(k)
      modifies `store
      ensures At(k) && OnlyOutput(old(store), store, order[k].id)
    {
      var id, output: string := order[k].id, *;
      var dir := store.slots[id];
      SlotMayChange(id, dir.(contents := dir.contents.(output := output)));
      store := SetDir(store, id, dir.(contents := dir.contents.(output := output)));
      ok := *;
    }

    /** The outside says whether a step succeeded. */
    method Succeeds(k: nat) returns (ok: bool)
      requires At(k)
      modifies `h
      ensures At(k) && h == old(h).(failed := if ok then old(h).failed else old(h).failed + {order[k].id})
    {
      ok := *;
      NewsKeepsInv(phase, order, store, h, h.(failed := h.failed + {order[k].id}), k);
      if !ok { h := h.(failed := h.failed + {order[k].id}); }
    }

    /** The outside says whether the cleanup is proven; final if nothing is cleaned up later. */
    method Prove(k: nat, ghost last: bool) returns (ok: bool)
      requires At(k)
      modifies `h
      ensures At(k)
      ensures h == old(h).(proven := if ok && last then old(h).proven + {order[k].id}
                                     else old(h).proven - {order[k].id})
    {
      ok := *;
      NewsKeepsInv(phase, order, store, h, h.(proven := h.proven + {order[k].id}), k);
      NewsKeepsInv(phase, order, store, h, h.(proven := h.proven - {order[k].id}), k);
      h := h.(proven := if ok && last then h.proven + {order[k].id} else h.proven - {order[k].id});
    }

    /** Something calls for a stop.  Once a slot is closed that can be lost with the collector. */
    ghost method Alarm()
      requires Valid()
      modifies `h
      ensures Valid()
      ensures h == if Barred(store) then old(h).(alarms := old(h).alarms + 1) else old(h).(late := old(h).late + 1)
    {
      LateNewsKeepsInv(phase, order, store, h);
      h := if Barred(store) then h.(alarms := h.alarms + 1) else h.(late := h.late + 1);
    }

    /** One guarded step: a command and whether it succeeded. */
    method GuardedStep(k: nat) returns (ok: bool)
      requires At(k)
      modifies `store, `h
      ensures At(k) && OnlyOutput(old(store), store, order[k].id)
      ensures h == old(h).(failed := if ok then old(h).failed else old(h).failed + {order[k].id})
    {
      var _ := Command(k);
      ok := Succeeds(k);
    }

    /** Starts the measured command of the open slot. */
    method Start(k: nat)
      requires At(k) && order[k].id !in h.started
      requires phase == Measurement ==> store.checkpoint.registration.Some?
      modifies `store, `h
      ensures At(k) && h == old(h).(started := old(h).started + [order[k].id])
      ensures var dir := old(store).slots[order[k].id];
              store == SetDir(old(store), order[k].id, dir.(contents := dir.contents.(ran := true)))
    {
      var id := order[k].id;
      StartKeepsInv(phase, order, store, h, k);
      h := h.(started := h.started + [id]);
      var dir := store.slots[id];
      SlotMayChange(id, dir.(contents := dir.contents.(ran := true)));
      store := SetDir(store, id, dir.(contents := dir.contents.(ran := true)));
    }

    /** Why a failed step broke off: an ordinary error or an interrupt. */
    method BreakOff(k: nat) returns (reason: Option<Reason>)
      requires At(k)
      modifies `h
      ensures At(k) && h == old(h).(alarms := old(h).alarms + if reason.Some? then 1 else 0)
    {
      var interrupted: bool := *;
      reason := None;
      if interrupted {
        Alarm();
        reason := Some("collector interrupted");
      }
    }

    /** The guarded part of an attempt: preparation, the measured command, observation.  Any step
        may fail, and an interrupt may arrive anywhere.  A supported slot's measured command is
        started unless a step failed before. */
    method Measure(k: nat) returns (work: Work)
      requires At(k) && Unseen(order[k].id, h) && !store.slots[order[k].id].contents.ran
      requires phase == Measurement ==> store.checkpoint.registration.Some?
      modifies `store, `h
      ensures At(k) && OnlyAbout(old(h), h, order[k].id) && Worked(old(store), store, order[k])
      ensures Told(order[k], store.slots[order[k].id].contents, work, phase, h)
      ensures work.reason.Some? <==> h.alarms > old(h).alarms
    {
      work := Work(true, false, false, None);
      var interrupted: bool := *;
      if interrupted {
        NewsKeepsInv(phase, order, store, h, h.(failed := h.failed + {order[k].id}), k);
        h := h.(failed := h.failed + {order[k].id});
        Alarm();
        return Work(true, false, true, Some("collector interrupted"));
      }
      if order[k].unsupported {
        return;
      }
      work := Work(false, true, false, None);
      var prepared := GuardedStep(k);
      if !prepared {
        var reason := BreakOff(k);
        return Work(false, true, true, reason);
      }
      Start(k);
      work := Observe(k);
    }

    /** The rest of a measurement, once its command was started. */
    method Observe(k: nat) returns (work: Work)
      requires At(k) && store.slots[order[k].id].contents.ran && !order[k].unsupported
      requires order[k].id in h.started && order[k].id !in h.failed && order[k].id !in h.proven
      modifies `store, `h
      ensures At(k) && OnlyAbout(old(h), h, order[k].id) && h.started == old(h).started
      ensures OnlyOutput(old(store), store, order[k].id)
      ensures Told(order[k], store.slots[order[k].id].contents, work, phase, h)
      ensures work.reason.Some? <==> h.alarms > old(h).alarms
    {
      var finished := GuardedStep(k);
      if !finished {
        var reason := BreakOff(k);
        return Work(false, true, true, reason);
      }
      // Evidence that does not arrive is an error, but no failure of the attempt.
      var received := Succeeds(k);
      var cleanupProven := false;
      if received {
        cleanupProven := Prove(k, phase == Feasibility);
      }
      var observed := GuardedStep(k);
      if !observed {
        var reason := BreakOff(k);
        return Work(cleanupProven, true, true, reason);
      }
      work := Work(cleanupProven, true, !received, None);
    }

    /** One more check, which may call for a stop. */
    method Check(k: nat, was: Option<Reason>, complaint: Reason) returns (reason: Option<Reason>)
      requires Near(k)
      modifies `h
      ensures Near(k) && OnlyCalls(old(h), h) && (reason.Some? <==> was.Some? || Calls(h) > Calls(old(h)))
    {
      var passed: bool := *;
      reason := was;
      if !passed {
        Alarm();
        reason := Some(complaint);
      }
    }

    /** What the final checks make of the stop reason: unproven cleanup stops, and so
        does every failed containment or integrity check. */
    method FinalReason(k: nat, cleanupProven: bool, was: Option<Reason>) returns (reason: Option<Reason>)
      requires Near(k)
      modifies `h
      ensures Near(k) && OnlyCalls(old(h), h)
      ensures reason.Some? <==> was.Some? || Calls(h) > Calls(old(h))
      ensures !cleanupProven ==> reason.Some?
    {
      reason := was;
      if !cleanupProven && reason == None {
        Alarm();
        reason := Some("allocation cleanup unproven");
      }
      reason := Check(k, reason, "process containment unproven");
      reason := Check(k, reason, "integrity check failed");
    }

    /** Records the slot, seals it, and checkpoints it as consumed. */
    method CloseSlot(k: nat, state: SlotState, was: Option<Reason>) returns (stopped: Option<Stop>, alive: bool)
      requires Near(k) && Remembered(order, consumed, k)
      requires if was.Some? then Called(h) else Barred(store) && Closable(k, state)
      modifies `store, `h, `consumed, `deaths
      ensures Near(k) && Remembered(order, consumed, k)
      ensures deaths >= old(deaths) && (stopped.Some? ==> Called(h))
      ensures !alive && old(store).progressSeal == old(store).checkpoint ==> deaths > old(deaths)
      ensures alive ==> store.progressSeal == store.checkpoint
      ensures alive && stopped.Some? ==> Barred(store)
      ensures alive && stopped == None ==>
        && was == None && state.cleanupProven && Closed(order, old(store), store, k, state, old(consumed))
        && consumed == store.checkpoint.slots
    {
      stopped := None;
      alive := Try();
      if !alive { return; }
      var reason := FinalReason(k, state.cleanupProven, was);
      stopped := if reason.Some? then Some(Stop(reason.value, order[k].id)) else None;
      alive := CloseWith(k, state, stopped);
    }

    /** The same once it is known whether to stop. */
    method CloseWith(k: nat, state: SlotState, stopped: Option<Stop>) returns (alive: bool)
      requires Near(k) && Remembered(order, consumed, k)
      requires if stopped.Some? then Called(h) else Barred(store) && Closable(k, state) && state.cleanupProven
      modifies `store, `h, `consumed, `deaths
      ensures Near(k) && Remembered(order, consumed, k)
      ensures deaths >= old(deaths) && (Called(old(h)) ==> Called(h))
      ensures !alive && old(store).progressSeal == old(store).checkpoint ==> deaths > old(deaths)
      ensures alive ==> store.progressSeal == store.checkpoint
      ensures alive && stopped.Some? ==> Barred(store)
      ensures alive && stopped == None ==>
        Closed(order, old(store), store, k, state, old(consumed)) && consumed == store.checkpoint.slots
    {
      alive := SealSlot(k, state.(stop := stopped));
      if !alive { return; }
      TakeId(Ids(order), k);
      ghost var contents := store.slots[order[k].id].contents;
      if stopped == None {
        OneMoreIsTruthful(order, consumed, h, k, contents);
      }
      consumed := consumed[order[k].id := store.slots[order[k].id].contents];
      alive := Conclude(k, stopped);
    }

    /** Without a call for a stop, slot k may be closed: its record is true but for its seal. */
    ghost predicate Closable(k: nat, state: SlotState)
      reads `store, `h, `consumed
      requires k < |order| && order[k].id in store.slots
    {
      && h.alarms == 0 && h.stops == 0 && store.progressSeal == store.checkpoint
      && AllTruthful(order, consumed, h, k)
      && (state.cleanupProven ==>
            Truthful(order[k], store.slots[order[k].id].contents.(state := Some(state)), h))
    }

    /** Writes the slot's final record and then its seal. */
    method SealSlot(k: nat, state: SlotState) returns (alive: bool)
      requires Near(k)
      modifies `store, `deaths
      ensures Near(k) && store == old(store).(slots := store.slots)
      ensures deaths >= old(deaths) && (!alive ==> deaths > old(deaths))
      ensures alive ==>
        var contents := old(store).slots[order[k].id].contents.(state := Some(state));
        store == SetDir(old(store), order[k].id, SlotDir(contents, Some(contents)))
    {
      var id, dir := order[k].id, store.slots[order[k].id];
      var contents := dir.contents.(state := Some(state));
      SlotMayChange(id, dir.(contents := contents));
      SlotMayChange(id, SlotDir(contents, Some(contents)));
      alive := Write(SetDir(store, id, dir.(contents := contents)));
      if !alive { return; }
      alive := Try();
      if !alive { return; }
      alive := Write(SetDir(store, id, SlotDir(contents, Some(contents))));
    }

    /** Checkpoints the consumed slots, and marks a stop. */
    method Conclude(k: nat, stopped: Option<Stop>) returns (alive: bool)
      requires Near(k) && forall id :: id in consumed <==> id in Ids(order)[..k + 1]
      requires if stopped.Some? then Called(h)
               else h.stops == 0 && h.alarms == 0 && AllTruthful(order, consumed, h, k + 1)
      modifies `store, `h, `deaths
      ensures Near(k) && store.slots == old(store).slots
      ensures h.alarms == old(h).alarms && h.late == old(h).late && deaths >= old(deaths)
      ensures alive ==> store.progressSeal == store.checkpoint
      ensures !alive && old(store).progressSeal == old(store).checkpoint ==> deaths > old(deaths)
      ensures alive && stopped.Some? ==> Barred(store)
      ensures alive && stopped == None ==>
        store == Saved(old(store), NextProgress(order, old(store).checkpoint, consumed, None, None))
    {
      alive := Try();
      if !alive { return; }
      ghost var before, p := store, NextProgress(order, store.checkpoint, consumed, None, stopped);
      SaveKeepsInv(phase, order, before, h, k, consumed, stopped);
      if before.progressSeal != p {
        UnsealedKeepsInv(phase, order, before, h, p);
      }
      alive := SaveProgress(None, stopped);
      if store == Saved(before, p) {
        h := AfterSave(h, stopped);
      }
      if alive && stopped.Some? {
        alive := Write(store.(stopMarker := stopped));
      }
    }

    /** Runs the cleanup hook of a measurement, whatever came before. */
    method CleanUp(k: nat, work: Work) returns (cleanupProven: bool)
      requires At(k) && Told(order[k], store.slots[order[k].id].contents, work, phase, h)
      modifies `store, `h
      ensures At(k) && OnlyAbout(old(h), h, order[k].id)
      ensures h.started == old(h).started && h.alarms == old(h).alarms && h.late == old(h).late
      ensures OnlyOutput(old(store), store, order[k].id)
      ensures cleanupProven && work.reason == None ==>
        var state := FirstState(order[k]).(erred := work.erred, cleanupProven := true);
        Truthful(order[k], store.slots[order[k].id].contents.(state := Some(state)), h)
    {
      cleanupProven := work.cleanupProven;
      if phase == Measurement && work.touched {
        var _ := Command(k);
        cleanupProven := Prove(k, true);
      }
    }

    /** Cleans up after an attempt and closes the slot; an interrupt that arrived
        meanwhile closes it once more, with a stop. */
    method FinishSlot(k: nat, work: Work) returns (stopped: Option<Stop>, alive: bool, ghost clean: Store)
      requires At(k) && Remembered(order, consumed, k) && store.progressSeal == store.checkpoint && h.stops == 0
      requires AllTruthful(order, consumed, h, k)
      requires Told(order[k], store.slots[order[k].id].contents, work, phase, h)
      requires if work.reason.Some? then h.alarms > 0 else h.alarms == 0
      modifies this
      ensures Valid() && deaths >= old(deaths) && (!alive ==> deaths > old(deaths))
      ensures order[k].id in clean.slots && OnlyOutput(old(store), clean, order[k].id)
      ensures stopped.Some? ==> Called(h)
      ensures alive && stopped.Some? ==> Barred(store)
      ensures alive && stopped == None ==>
        && Closed(order, clean, store, k, FirstState(order[k]).(erred := work.erred), old(consumed))
        && consumed == store.checkpoint.slots
    {
      ghost var before := h;
      var cleanupProven := CleanUp(k, work);
      OthersStayTruthful(order, consumed, before, h, k);
      clean := store;
      var state := FirstState(order[k]).(cleanupProven := cleanupProven, erred := work.erred);
      stopped, alive := CloseSlot(k, state, work.reason);
      var interrupted: bool := *;
      if interrupted {
        Alarm();
        stopped, alive := CloseSlot(k, state, Some("collector interrupted"));
      }
    }

    /** Slot k was never touched before, and all before it are told truly. */
    ghost predicate Untouched(k: nat)
      reads `h, `consumed
      requires k < |order|
    {
      && Unseen(order[k].id, h) && h.stops == 0 && h.alarms == 0
      && Remembered(order, consumed, k) && AllTruthful(order, consumed, h, k)
    }

    /** Activates slot k, the next one of a resumable campaign. */
    method ActivateNext(k: nat) returns (alive: bool)
      requires Valid() && !Barred(store) && k < |order| && h.finished == Ids(order)[..k]
      requires Untouched(k) && consumed == store.checkpoint.slots
      modifies `store, `h, `deaths
      ensures Valid() && deaths >= old(deaths) && (!alive ==> deaths > old(deaths))
      ensures alive ==> Open(order, h, k) && Barred(store) && Untouched(k) && store == Active(order, old(store), k)
    {
      ghost var before := h;
      alive := Activate(k);
      if alive {
        OthersStayTruthful(order, consumed, before.(activated := h.activated), h, k);
      }
    }

    /** Activates slot k and opens its directory. */
    method Begin(k: nat) returns (alive: bool)
      requires Valid() && Resumable(phase, order, store)
      requires k == |store.slots| < |order| && consumed == store.checkpoint.slots
      modifies `store, `h, `deaths
      ensures Valid() && deaths >= old(deaths) && (!alive ==> deaths > old(deaths))
      ensures alive ==> At(k) && Untouched(k) && store == Begun(order, old(store), k)
    {
      NextIsUnseen(phase, order, store, h, k);
      alive := ActivateNext(k);
      if alive {
        alive := OpenSlot(k, FirstState(order[k]));
      }
    }

    /** One attempt at slot k.  It ends dead with the slot open, stopped for good, or
        with a campaign that can be resumed behind the slot. */
    method Attempt(k: nat) returns (outcome: Outcome)
      requires Valid() && Resumable(phase, order, store)
      requires k == |store.slots| < |order| && consumed == store.checkpoint.slots
      requires phase == Measurement ==> store.checkpoint.registration.Some?
      modifies this
      ensures Valid() && deaths >= old(deaths)
      ensures outcome == Died ==> deaths > old(deaths)
      ensures outcome == Stopped ==> Barred(store) && Called(h)
      ensures outcome == Continued ==>
        && Resumable(phase, order, store) && |store.slots| == k + 1 && consumed == store.checkpoint.slots
        && (phase == Measurement ==> store.checkpoint.registration.Some?)
    {
      ghost var base := store;
      var alive := Begin(k);
      if !alive {
        return Died;
      }
      ghost var before := h;
      var work := Measure(k);
      OthersStayTruthful(order, consumed, before, h, k);
      alive := Try();
      if !alive {
        return Died;
      }
      ghost var worked := store;
      var stopped;
      ghost var clean;
      stopped, alive, clean := FinishSlot(k, work);
      if !alive {
        return Died;
      }
      if stopped.Some? {
        return Stopped;
      }
      AttemptCompletes(phase, order, base, worked, clean, store, k, work.erred);
      outcome := Continued;
    }

    /** One collector session: resumes only an accepted campaign without a stop, skips
        slots that have a directory, and attempts the others in order, as many as allowed. */
    method Collect(registration: Option<Registration>, maxSlots: Option<nat>) returns (end: End)
      requires Valid()
      modifies this
      ensures Valid() && deaths >= old(deaths)
      ensures !old(Resumable(phase, order, store)) ==> store == old(store) && h == old(h)
      ensures end == Refused ==>
        && h == old(h)
        && (!old(Resumable(phase, order, store)) || !LimitAllowed(phase, maxSlots)
            || !Registrable(phase, old(store), registration))
      ensures end == Dead ==> deaths > old(deaths)
      ensures end == Halted ==> Barred(store) && Called(h)
      ensures end == Done ==>
        && old(Resumable(phase, order, store)) && Resumable(phase, order, store)
        && |store.slots| == Goal(|order|, |old(store).slots|, maxSlots)
    {
      var accepted := RetainedProgress();
      if !accepted || store.checkpoint.stopped.Some? {
        return Refused;
      }
      if maxSlots.Some? && (phase == Measurement || maxSlots.value == 0) {
        return Refused;
      }
      var alive := Register(registration);
      if !alive {
        return if Registrable(phase, store, registration) then Dead else Refused;
      }
      end := CollectAll(maxSlots);
    }

    /** Attempts the slots that are left. */
    method CollectAll(maxSlots: Option<nat>) returns (end: End)
      requires Valid() && Resumable(phase, order, store) && LimitAllowed(phase, maxSlots)
      requires phase == Measurement ==> store.checkpoint.registration.Some?
      modifies this
      ensures Valid() && deaths >= old(deaths) && end != Refused
      ensures end == Dead ==> deaths > old(deaths)
      ensures end == Halted ==> Barred(store) && Called(h)
      ensures end == Done ==>
        Resumable(phase, order, store) && |store.slots| == Goal(|order|, |old(store).slots|, maxSlots)
    {
      consumed := store.checkpoint.slots;
      var done := 0;
      for k := 0 to |order|
        invariant Valid() && Resumable(phase, order, store) && consumed == store.checkpoint.slots
        invariant k <= |store.slots| && |store.slots| == |old(store).slots| + done && deaths >= old(deaths)
        invariant maxSlots.Some? ==> done <= maxSlots.value
        invariant phase == Measurement ==> store.checkpoint.registration.Some?
      {
        NextSlot(k);
        if order[k].id in store.slots {
          continue;
        }
        if maxSlots.Some? && done >= maxSlots.value {
          break;
        }
        var outcome := Attempt(k);
        if outcome != Continued {
          return if outcome == Died then Dead else Halted;
        }
        done := done + 1;
      }
      end := Done;
    }

    /** The slot at hand has a directory unless it is the first without one. */
    lemma NextSlot(k: nat)
      requires Valid() && Resumable(phase, order, store) && k <= |store.slots| && k < |order|
      ensures order[k].id in store.slots <==> k < |store.slots|
    {
      if k < |store.slots| {
        assert Ids(order)[..|store.slots|][k] == order[k].id;
        assert Among(order, |store.slots|, order[k].id);
      } else {
        NotYet(order, k);
      }
    }

    /** Any number of collector sessions, each with a registration and a slot limit of its
        own.  Between two of them slot directories may be lost.  Whatever happens, no slot's
        measured command is started twice; and as long as the campaign can be resumed,
        exactly the slots ever activated are consumed, in order, none of them half done, their
        records are true, and nothing has called for a stop. */
    method Sessions(count: nat)
      requires Valid()
      modifies this
      ensures Valid()
      ensures Distinct(h.started) && (h.stops > 0 ==> Called(h))
      ensures Resumable(phase, order, store) ==> Complete(order, store, h)
      ensures old(Barred(store)) ==> h == old(h) && !Resumable(phase, order, store)
    {
      for i := 0 to count
        invariant Valid()
        invariant old(Barred(store)) ==> Barred(store) && h == old(h)
      {
        var lost: set<string> := *;
        LossKeepsInv(phase, order, store, h, store.slots - lost);
        store := store.(slots := store.slots - lost);
        var registration: Option<Registration>, maxSlots: Option<nat> := *, *;
        var _ := Collect(registration, maxSlots);
      }
      HistoryIsTold(phase, order, store, h);
    }
  }

  /** Whatever is touched in a campaign that can be resumed, it can no longer be: the checkpoint or
      its seal; a slot's files, their seal, or its whole directory; a further directory; the
      retained registration, or the frozen files it names; or a stop marker. */
  lemma TamperingIsNoticed(phase: Phase, order: seq<Slot>, store: Store, id: string, dir: SlotDir, p: Progress,
                           registration: Option<Registration>, frozen: Frozen, stop: Stop)
    requires Distinct(Ids(order)) && Resumable(phase, order, store)
    ensures p != store.checkpoint ==> !Resumable(phase, order, store.(checkpoint := p))
    ensures p != store.checkpoint ==> !Resumable(phase, order, store.(progressSeal := p))
    ensures id in store.slots && dir != store.slots[id] ==> !Resumable(phase, order, SetDir(store, id, dir))
    ensures id in store.slots ==> !Resumable(phase, order, store.(slots := store.slots - {id}))
    ensures id !in store.slots ==> !Resumable(phase, order, SetDir(store, id, dir))
    ensures store.checkpoint.registration.Some? && registration != store.registration ==>
              !Resumable(phase, order, store.(registration := registration))
    ensures store.checkpoint.registration.Some? && frozen != store.frozen ==>
              !Resumable(phase, order, store.(frozen := frozen))
    ensures !Resumable(phase, order, store.(stopMarker := Some(stop)))
  {
    assert id in store.slots ==> id in Seals(store.slots) && id !in Seals(store.slots - {id});
    assert id !in store.slots ==> id !in Seals(store.slots);
    assert dir.seal.Some? ==> Seals(SetDir(store, id, dir).slots)[id] == dir.seal.value;
  }

  /** What a slot's record and the checkpoint must say for the campaign to be resumable. */
  lemma RecordsAreChecked(phase: Phase, order: seq<Slot>, store: Store, i: nat)
    requires Distinct(Ids(order)) && Resumable(phase, order, store) && i < |store.slots|
    ensures i < |order| && order[i].id in store.slots && store.slots[order[i].id].contents.state.Some?
    ensures var slot, contents := order[i], store.slots[order[i].id].contents;
            var state := contents.state.value;
            && state.slot == slot.id && state.unsupported == slot.unsupported && state.stop == None
            && (slot.unsupported ==> !contents.ran) && (!slot.unsupported ==> state.cleanupProven)
    ensures store.checkpoint.active == None
    ensures store.checkpoint.complete <==> |store.slots| == |order|
    ensures phase == Measurement ==> store.checkpoint.registration.Some?
  {
    assert FitsAt(order, store.slots, i);
  }

  /** The next slot of a resumable campaign was never activated. */
  lemma NextIsUnseen(phase: Phase, order: seq<Slot>, store: Store, h: History, k: nat)
    requires Distinct(Ids(order)) && Inv(phase, order, store, h) && Resumable(phase, order, store)
    requires k == |store.slots| < |order|
    ensures !Barred(store) && h.finished == Ids(order)[..k] && h.stops == 0
    ensures h.alarms == 0 && order[k].id !in h.activated && Unseen(order[k].id, h)
    ensures Remembered(order, store.checkpoint.slots, k) && AllTruthful(order, store.checkpoint.slots, h, k)
  {
    InvMeans(phase, order, store, h);
    ResumableMeansFinished(phase, order, store, h);
    NotYet(order, k);
    TakeId(Ids(order), k);
  }

  /** What a campaign's history says, whenever a session is over. */
  lemma HistoryIsTold(phase: Phase, order: seq<Slot>, store: Store, h: History)
    requires Distinct(Ids(order)) && Inv(phase, order, store, h)
    ensures Distinct(h.started) && (h.stops > 0 ==> Called(h))
    ensures Resumable(phase, order, store) ==> Complete(order, store, h)
  {
    InvMeans(phase, order, store, h);
    if Resumable(phase, order, store) {
      ResumableMeansFinished(phase, order, store, h);
      forall id ensures id in store.slots <==> id in h.activated {
        assert id in store.slots <==> Among(order, |store.slots|, id);
      }
      forall k | 0 <= k < |store.slots|
        ensures order[k].id in store.slots && Truthful(order[k], store.slots[order[k].id].contents, h)
      {
        assert Among(order, |store.slots|, Ids(order)[..|store.slots|][k]);
      }
    }
  }

  /** Exactly the slots ever activated are there, in order; nothing called for a stop, and every
      record is true. */
  ghost predicate Complete(order: seq<Slot>, store: Store, h: History) {
    && |store.slots| <= |order| && h.activated == Ids(order)[..|store.slots|] && h.stops == 0 && h.alarms == 0
    && (forall id :: id in store.slots <==> id in h.activated)
    && (forall id :: id in h.started ==> id in store.slots)
    && (forall k :: 0 <= k < |store.slots| ==>
          order[k].id in store.slots && Truthful(order[k], store.slots[order[k].id].contents, h))
  }

  /** A slot's first record. */
  function FirstState(slot: Slot): SlotState {
    SlotState(slot.id, slot.unsupported, false, true, None)
  }

  /** The store once slot k is active. */
  function Active(order: seq<Slot>, base: Store, k: nat): Store
    requires k < |order|
  {
    Saved(base, NextProgress(order, base.checkpoint, base.checkpoint.slots, Some(order[k].id), None))
  }

  /** The store once its directory is open too. */
  function Begun(order: seq<Slot>, base: Store, k: nat): Store
    requires k < |order|
  {
    SetDir(Active(order, base, k), order[k].id, SlotDir(Contents(Some(FirstState(order[k])), "", false), None))
  }

  /** The stores an attempt passes through on its way to a resumable one. */
  lemma AttemptCompletes(phase: Phase, order: seq<Slot>, base: Store, worked: Store, clean: Store, closed: Store,
                         k: nat, erred: bool)
    requires Distinct(Ids(order)) && Resumable(phase, order, base) && k == |base.slots| < |order|
    requires phase == Measurement ==> base.checkpoint.registration.Some?
    requires Worked(Begun(order, base, k), worked, order[k]) && OnlyOutput(worked, clean, order[k].id)
    requires Closed(order, clean, closed, k, FirstState(order[k]).(erred := erred), base.checkpoint.slots)
    ensures Resumable(phase, order, closed) && |closed.slots| == k + 1
    ensures closed.checkpoint.registration == base.checkpoint.registration
  {
    var id, begun := order[k].id, Begun(order, base, k);
    var contents := clean.slots[id].contents.(state := Some(FirstState(order[k]).(erred := erred)));
    var dir := SlotDir(contents, Some(contents));
    SetTwice(Saved(base, begun.checkpoint), id, begun.slots[id], worked.slots[id]);
    SetTwice(Saved(base, begun.checkpoint), id, worked.slots[id], clean.slots[id]);
    SetTwice(Saved(base, begun.checkpoint), id, clean.slots[id], dir);
    assert clean.slots[id].contents.ran ==> !order[k].unsupported;
    CompletionIsResumable(phase, order, base, k, contents);
  }

  lemma SetTwice(store: Store, id: string, a: SlotDir, b: SlotDir)
    ensures SetDir(SetDir(store, id, a), id, b) == SetDir(store, id, b)
  {
    assert store.slots[id := a][id := b] == store.slots[id := b];
  }

  /** Slot k was sealed without a stop and checkpointed as consumed. */
  ghost predicate Closed(order: seq<Slot>, was: Store, now: Store, k: nat, state: SlotState,
                         consumed: map<string, Contents>)
    requires k < |order| && order[k].id in was.slots
  {
    var contents := was.slots[order[k].id].contents.(state := Some(state.(stop := None)));
    now == Saved(SetDir(was, order[k].id, SlotDir(contents, Some(contents))),
                 NextProgress(order, was.checkpoint, consumed[order[k].id := contents], None, None))
  }

  ghost predicate OnlyOutput(was: Store, now: Store, id: string)
    requires id in was.slots
  {
    && id in now.slots
    && now == SetDir(was, id, was.slots[id].(contents := now.slots[id].contents))
    && now.slots[id].contents == was.slots[id].contents.(output := now.slots[id].contents.output)
  }

  /** Work on a slot writes only inside its directory, leaves its record alone, and
      runs the measured command of supported slots only. */
  ghost predicate Worked(was: Store, now: Store, slot: Slot)
    requires slot.id in was.slots
  {
    && slot.id in now.slots
    && now == SetDir(was, slot.id, was.slots[slot.id].(contents := now.slots[slot.id].contents))
    && now.slots[slot.id].contents.state == was.slots[slot.id].contents.state
    && (slot.unsupported ==> now.slots[slot.id].contents.ran == was.slots[slot.id].contents.ran)
  }
}
