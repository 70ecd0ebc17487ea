/**
  Admission control: slots counted globally, per model and per version.

  `State` is everything `ConcurrencyManager` remembers, together with the tickets of the slot
  handles it has given out (a handle carries its own released flag). Every public operation is an
  `Event`; one operation is atomic because the manager holds its mutex throughout.
*/
module Admission {
  import opened Prelude
  import opened Models

  type SlotId = nat

  datatype RejectionReason = GlobalLimit | ModelLimit | VersionLimit | Backpressure | Shutdown

  datatype ModelState = ModelState(
    maxConcurrent: int,
    versionLimits: map<Version, int>,
    activeCount: int,
    activeByVersion: map<Version, int>,
    activeSlots: set<SlotId>,
    totalAcquired: int,
    totalRejected: int,
    totalReleased: int)
  {
    function VersionActive(v: Version): int {
      if v in activeByVersion then activeByVersion[v] else 0
    }

    function VersionLimitOf(v: Version): int {
      if v in versionLimits then versionLimits[v] else maxConcurrent
    }

    function Refusal(v: Version): Option<RejectionReason> {
      if activeCount >= maxConcurrent then Some(ModelLimit)
      else if VersionActive(v) >= VersionLimitOf(v) then Some(VersionLimit)
      else None
    }

    function Acquire(v: Version, id: SlotId): ModelState {
      this.(activeCount := activeCount + 1,
            activeByVersion := activeByVersion[v := VersionActive(v) + 1],
            activeSlots := activeSlots + {id},
            totalAcquired := totalAcquired + 1)
    }

    function Release(v: Version, id: SlotId): ModelState {
      if id !in activeSlots then this
      else this.(
        activeSlots := activeSlots - {id},
        activeCount := Max(0, activeCount - 1),
        activeByVersion := if v in activeByVersion then activeByVersion[v := Max(0, activeByVersion[v] - 1)]
                           else activeByVersion,
        totalReleased := totalReleased + 1)
    }

    function Reject(): ModelState {
      this.(totalRejected := totalRejected + 1)
    }
  }

  function NewModel(limit: int): ModelState {
    ModelState(limit, map[], 0, map[], {}, 0, 0, 0)
  }

  /** What a slot handle knows: whom it is for, and whether it has been released. */
  datatype Ticket = Ticket(model: ModelId, version: Version, released: bool)

  datatype State = State(
    globalLimit: int,
    defaultLimit: int,
    models: map<ModelId, ModelState>,
    globalActive: int,
    shutdown: bool,
    acquired: int,
    rejected: int,
    released: int,
    tickets: map<SlotId, Ticket>)

  datatype Event =
    | Register(model: ModelId, limit: Option<int>)
    | RegisterVersionLimit(model: ModelId, version: Version, max: int)
    | Unregister(model: ModelId)
    | TryAcquire(model: ModelId, version: Version, id: SlotId)
    | Release(id: SlotId)
    | ShutDown

  function Init(globalLimit: int, defaultLimit: int): State {
    State(globalLimit, defaultLimit, map[], 0, false, 0, 0, 0, map[])
  }

  // ---------- the operations ----------

  /** `active / limit >= 0.9` without the division. */
  predicate HardBackpressure(limit: int, active: int) {
    if limit == 0 then true
    else if limit > 0 then 10 * active >= 9 * limit
    else 10 * active <= 9 * limit
  }

  function Known(s: State, m: ModelId): State {
    if m in s.models then s else s.(models := s.models[m := NewModel(s.defaultLimit)])
  }

  /** Why `_try_acquire_locked` turns a request away, in the order of its tests. */
  function Refusal(s: State, m: ModelId, v: Version): Option<RejectionReason> {
    if s.shutdown then Some(Shutdown)
    else if HardBackpressure(s.globalLimit, s.globalActive) then Some(Backpressure)
    else if s.globalActive >= s.globalLimit then Some(GlobalLimit)
    else (if m in s.models then s.models[m] else NewModel(s.defaultLimit)).Refusal(v)
  }

  function TryAcquired(s: State, m: ModelId, v: Version, id: SlotId): State {
    if s.shutdown then s
    else
      var k := Known(s, m);
      if Refusal(s, m, v).Some? then
        k.(models := k.models[m := k.models[m].Reject()], rejected := k.rejected + 1)
      else
        k.(models := k.models[m := k.models[m].Acquire(v, id)],
           globalActive := k.globalActive + 1,
           acquired := k.acquired + 1,
           tickets := k.tickets[id := Ticket(m, v, false)])
  }

  /** `_release_slot`. */
  function SlotReleased(s: State, m: ModelId, v: Version, id: SlotId): State {
    if m !in s.models then
      s.(globalActive := Max(0, s.globalActive - 1), released := s.released + 1)
    else if id in s.models[m].activeSlots then
      s.(models := s.models[m := s.models[m].Release(v, id)],
         globalActive := Max(0, s.globalActive - 1),
         released := s.released + 1)
    else s
  }

  function Apply(s: State, e: Event): State
    requires Allowed(s, e)
  {
    match e
    case Register(m, limit) =>
      if m !in s.models then
        s.(models := s.models[m := NewModel(if limit.Some? then limit.value else s.defaultLimit)])
      else if limit.Some? then
        s.(models := s.models[m := s.models[m].(maxConcurrent := limit.value)])
      else s
    case RegisterVersionLimit(m, v, max) =>
      var k := Known(s, m);
      k.(models := k.models[m := k.models[m].(versionLimits := k.models[m].versionLimits[v := max])])
    case Unregister(m) =>
      if m !in s.models then s
      else s.(globalActive := Max(0, s.globalActive - s.models[m].activeCount), models := s.models - {m})
    case TryAcquire(m, v, id) => TryAcquired(s, m, v, id)
    case Release(id) =>
      var ticket := s.tickets[id];
      if ticket.released then s
      else SlotReleased(s, ticket.model, ticket.version, id).(
             tickets := s.tickets[id := ticket.(released := true)])
    case ShutDown => s.(shutdown := true)
  }

  /** Slot ids are fresh when given out, and only handles that hold one are released. */
  predicate Allowed(s: State, e: Event) {
    match e
    case TryAcquire(_, _, id) => id !in s.tickets
    case Release(id) => id in s.tickets
    case _ => true
  }

  predicate Runs(s: State, events: seq<Event>)
    decreases |events|
  {
    events == [] || (Allowed(s, events[0]) && Runs(Apply(s, events[0]), events[1..]))
  }

  function After(s: State, events: seq<Event>): State
    requires Runs(s, events)
    decreases |events|
  {
    if events == [] then s else After(Apply(s, events[0]), events[1..])
  }

  // ---------- what is counted ----------

  ghost function OfVersion(tickets: map<SlotId, Ticket>, ids: set<SlotId>, v: Version): set<SlotId> {
    set id | id in ids && id in tickets && tickets[id].version == v
  }

  ghost predicate VersionCounts(tickets: map<SlotId, Ticket>, ms: ModelState, v: Version) {
    ms.VersionActive(v) == |OfVersion(tickets, ms.activeSlots, v)|
  }

  ghost predicate Listed(tickets: map<SlotId, Ticket>, m: ModelId, ids: set<SlotId>) {
    forall id :: id in ids ==> id in tickets && !tickets[id].released && tickets[id].model == m
  }

  /** A model's own counters agree with the slots it lists, all of them given out and not yet back. */
  ghost predicate ModelCounts(tickets: map<SlotId, Ticket>, m: ModelId, ms: ModelState) {
    && Listed(tickets, m, ms.activeSlots)
    && ms.activeCount == |ms.activeSlots| == ms.totalAcquired - ms.totalReleased
    && forall v :: VersionCounts(tickets, ms, v)
  }

  ghost predicate ModelsCount(s: State) {
    forall m :: m in s.models ==> ModelCounts(s.tickets, m, s.models[m])
  }

  function ActiveCounts(s: State): map<ModelId, int> {
    map m | m in s.models :: s.models[m].activeCount
  }

  /** The global counter is the sum of the model counters. */
  ghost predicate Conserved(s: State) {
    s.globalActive == Sum(ActiveCounts(s))
  }

  /** The slots given out and not yet released. */
  function Outstanding(s: State): set<SlotId> {
    set id | id in s.tickets && !s.tickets[id].released
  }

  /** Every outstanding slot is listed by its model, and the global counters count exactly them. */
  ghost predicate Exact(s: State) {
    && (forall id :: id in Outstanding(s) ==>
          s.tickets[id].model in s.models && id in s.models[s.tickets[id].model].activeSlots)
    && s.globalActive == |Outstanding(s)| == s.acquired - s.released
  }

  // ---------- the steps that lose count ----------

  /** The release of a slot whose model is not registered at that moment. */
  predicate StrayRelease(s: State, e: Event)
    requires Allowed(s, e)
  {
    e.Release? && !s.tickets[e.id].released && s.tickets[e.id].model !in s.models
  }

  /** Unregistering a model that has active slots. */
  predicate BusyUnregister(s: State, e: Event) {
    e.Unregister? && e.model in s.models && s.models[e.model].activeCount > 0
  }

  // ---------- model counters ----------

  lemma AcquireCountsVersion(tickets: map<SlotId, Ticket>, ms: ModelState, m: ModelId, v: Version, id: SlotId,
                             w: Version)
    requires VersionCounts(tickets, ms, w) && id !in tickets
    requires ms.activeSlots <= tickets.Keys
    ensures VersionCounts(tickets[id := Ticket(m, v, false)], ms.Acquire(v, id), w)
  {
    var before := OfVersion(tickets, ms.activeSlots, w);
    var after := OfVersion(tickets[id := Ticket(m, v, false)], ms.activeSlots + {id}, w);
    if w == v {
      assert after == before + {id};
    } else {
      assert after == before;
    }
  }

  lemma AcquireCounts(tickets: map<SlotId, Ticket>, m: ModelId, ms: ModelState, v: Version, id: SlotId)
    requires ModelCounts(tickets, m, ms) && id !in tickets
    ensures ModelCounts(tickets[id := Ticket(m, v, false)], m, ms.Acquire(v, id))
  {
    var tickets' := tickets[id := Ticket(m, v, false)];
    forall w ensures VersionCounts(tickets', ms.Acquire(v, id), w) {
      assert VersionCounts(tickets, ms, w);
      AcquireCountsVersion(tickets, ms, m, v, id, w);
    }
  }

  lemma ReleaseCounts(tickets: map<SlotId, Ticket>, m: ModelId, ms: ModelState, id: SlotId)
    requires ModelCounts(tickets, m, ms) && id in ms.activeSlots
    ensures ModelCounts(tickets[id := tickets[id].(released := true)], m, ms.Release(tickets[id].version, id))
    ensures ms.activeCount >= 1
    ensures tickets[id].version in ms.activeByVersion && ms.activeByVersion[tickets[id].version] >= 1
  {
    var v := tickets[id].version;
    var tickets' := tickets[id := tickets[id].(released := true)];
    assert ms.activeSlots == (ms.activeSlots - {id}) + {id};
    assert id in OfVersion(tickets, ms.activeSlots, v);
    assert VersionCounts(tickets, ms, v);
    forall w ensures VersionCounts(tickets', ms.Release(v, id), w) {
      assert VersionCounts(tickets, ms, w);
      var before := OfVersion(tickets, ms.activeSlots, w);
      var after := OfVersion(tickets', ms.activeSlots - {id}, w);
      if w == v {
        assert before == after + {id};
      } else {
        assert after == before;
      }
    }
  }

  lemma OtherTicket(tickets: map<SlotId, Ticket>, m: ModelId, ms: ModelState, id: SlotId, ticket: Ticket)
    requires ModelCounts(tickets, m, ms) && id !in ms.activeSlots
    ensures ModelCounts(tickets[id := ticket], m, ms)
  {
    var tickets' := tickets[id := ticket];
    forall v ensures VersionCounts(tickets', ms, v) {
      assert VersionCounts(tickets, ms, v);
      assert OfVersion(tickets', ms.activeSlots, v) == OfVersion(tickets, ms.activeSlots, v);
    }
  }

  lemma FreshModelCounts(tickets: map<SlotId, Ticket>, m: ModelId, limit: int)
    ensures ModelCounts(tickets, m, NewModel(limit))
  {
  }

  /** Limits are not counted: a model state that differs only in them counts as before. */
  lemma SameCounts(tickets: map<SlotId, Ticket>, m: ModelId, ms: ModelState, ms': ModelState)
    requires ModelCounts(tickets, m, ms)
    requires ms' == ms.(maxConcurrent := ms'.maxConcurrent, versionLimits := ms'.versionLimits,
                        totalRejected := ms'.totalRejected)
    ensures ModelCounts(tickets, m, ms')
  {
    forall v ensures VersionCounts(tickets, ms', v) {
      assert VersionCounts(tickets, ms, v);
    }
  }

  /** The state a model had before the step, or the one it is created with. */
  function Before(s: State, s': State, m: ModelId): ModelState
    requires m in s'.models
  {
    if m in s.models then s.models[m] else NewModel(s'.models[m].maxConcurrent)
  }

  lemma ModelCountsAcquire(s: State, e: Event, m: ModelId)
    requires Allowed(s, e) && e.TryAcquire? && m in Apply(s, e).models
    requires ModelCounts(s.tickets, m, Before(s, Apply(s, e), m))
    ensures ModelCounts(Apply(s, e).tickets, m, Apply(s, e).models[m])
  {
    var s' := Apply(s, e);
    var ms := Before(s, s', m);
    if s.shutdown || Refusal(s, e.model, e.version).Some? {
      SameCounts(s.tickets, m, ms, s'.models[m]);
    } else if m == e.model {
      AcquireCounts(s.tickets, m, ms, e.version, e.id);
    } else {
      OtherTicket(s.tickets, m, ms, e.id, Ticket(e.model, e.version, false));
    }
  }

  lemma ModelCountsStep(s: State, e: Event, m: ModelId)
    requires Allowed(s, e) && m in Apply(s, e).models
    requires ModelCounts(s.tickets, m, Before(s, Apply(s, e), m))
    ensures ModelCounts(Apply(s, e).tickets, m, Apply(s, e).models[m])
  {
    var s' := Apply(s, e);
    var ms := Before(s, s', m);
    match e
    case TryAcquire(_, _, _) => ModelCountsAcquire(s, e, m);
    case Release(id) =>
      if !s.tickets[id].released {
        if id in ms.activeSlots {
          ReleaseCounts(s.tickets, m, ms, id);
        } else {
          OtherTicket(s.tickets, m, ms, id, s.tickets[id].(released := true));
        }
      }
    case _ => SameCounts(s.tickets, m, ms, s'.models[m]);
  }

  /** Per model and per version the counts stay right in every step whatsoever. */
  lemma ModelsCountStep(s: State, e: Event)
    requires ModelsCount(s) && Allowed(s, e)
    ensures ModelsCount(Apply(s, e))
  {
    var s' := Apply(s, e);
    forall m | m in s'.models ensures ModelCounts(s'.tickets, m, s'.models[m]) {
      FreshModelCounts(s.tickets, m, s'.models[m].maxConcurrent);
      ModelCountsStep(s, e, m);
    }
  }

  // ---------- the global counter ----------

  lemma CountsNonNegative(s: State)
    requires ModelsCount(s)
    ensures Sum(ActiveCounts(s)) >= 0
    ensures forall m :: m in s.models ==> 0 <= s.models[m].activeCount <= Sum(ActiveCounts(s))
  {
    forall m | m in ActiveCounts(s) ensures ActiveCounts(s)[m] >= 0 {
      assert ModelCounts(s.tickets, m, s.models[m]);
    }
    SumNonNegative(ActiveCounts(s));
    forall m | m in s.models ensures 0 <= s.models[m].activeCount <= Sum(ActiveCounts(s)) {
      assert m in ActiveCounts(s);
    }
  }

  /** Writing one model's state moves the sum by the change of its counter. */
  lemma SumOfWrite(s: State, s': State, m: ModelId, ms: ModelState)
    requires s'.models == s.models[m := ms]
    ensures Sum(ActiveCounts(s')) ==
            Sum(ActiveCounts(s)) + ms.activeCount - (if m in s.models then s.models[m].activeCount else 0)
  {
    SumUpdate(ActiveCounts(s), m, ms.activeCount);
    assert ActiveCounts(s') == ActiveCounts(s)[m := ms.activeCount];
  }

  /** Every event but a release and an unregistration writes the state of at most one model. */
  lemma WritesOneModel(s: State, e: Event)
    requires Allowed(s, e) && (e.Register? || e.RegisterVersionLimit? || e.TryAcquire?)
    ensures var s' := Apply(s, e);
      || s' == s
      || (e.model in s'.models && s'.models == s.models[e.model := s'.models[e.model]])
  {
  }

  /** Such an event moves the sum and the global counter alike. */
  lemma WrittenCounts(s: State, e: Event)
    requires ModelsCount(s) && Allowed(s, e)
    requires e.Register? || e.RegisterVersionLimit? || e.TryAcquire?
    ensures Sum(ActiveCounts(Apply(s, e))) - Sum(ActiveCounts(s)) == Apply(s, e).globalActive - s.globalActive
  {
    var s' := Apply(s, e);
    WritesOneModel(s, e);
    if s' != s {
      SumOfWrite(s, s', e.model, s'.models[e.model]);
      var before := if e.model in s.models then s.models[e.model].activeCount else 0;
      assert s'.models[e.model].activeCount - before == s'.globalActive - s.globalActive;
    }
  }

  predicate Admitted(s: State, e: Event) {
    e.TryAcquire? && !s.shutdown && Refusal(s, e.model, e.version) == None
  }

  /** The step takes a listed slot back from its model. */
  predicate TakesBack(s: State, e: Event)
    requires Allowed(s, e)
  {
    && e.Release? && !s.tickets[e.id].released
    && s.tickets[e.id].model in s.models
    && e.id in s.models[s.tickets[e.id].model].activeSlots
  }

  /** What the step takes from the global counter. */
  function Subtracted(s: State, e: Event): int
    requires Allowed(s, e)
  {
    match e
    case Unregister(m) => if m in s.models then s.models[m].activeCount else 0
    case Release(_) => if StrayRelease(s, e) || TakesBack(s, e) then 1 else 0
    case _ => 0
  }

  lemma GlobalStep(s: State, e: Event)
    requires Allowed(s, e) && s.globalActive >= 0
    ensures Apply(s, e).globalActive ==
      Max(0, s.globalActive - Subtracted(s, e)) + (if Admitted(s, e) then 1 else 0)
  {
  }

  lemma SumRelease(s: State, e: Event)
    requires ModelsCount(s) && Allowed(s, e) && e.Release?
    ensures Sum(ActiveCounts(Apply(s, e))) == Sum(ActiveCounts(s)) - (if TakesBack(s, e) then 1 else 0)
  {
    var s', t := Apply(s, e), s.tickets[e.id];
    if TakesBack(s, e) {
      ReleaseCounts(s.tickets, t.model, s.models[t.model], e.id);
      SumOfWrite(s, s', t.model, s'.models[t.model]);
    } else {
      assert ActiveCounts(s') == ActiveCounts(s);
    }
  }

  lemma SumUnregister(s: State, e: Event)
    requires ModelsCount(s) && e.Unregister?
    ensures Sum(ActiveCounts(Apply(s, e))) == Sum(ActiveCounts(s)) - Subtracted(s, e)
    ensures Subtracted(s, e) >= 0
  {
    if e.model in s.models {
      CountsNonNegative(s);
      SumRemove(ActiveCounts(s), e.model);
      assert ActiveCounts(Apply(s, e)) == ActiveCounts(s) - {e.model};
    }
  }

  /** The sum of the model counters moves with the global counter, but for a stray release. */
  lemma SumStep(s: State, e: Event)
    requires ModelsCount(s) && Allowed(s, e)
    ensures Subtracted(s, e) >= 0
    ensures Sum(ActiveCounts(Apply(s, e))) == Sum(ActiveCounts(s))
      + (if Admitted(s, e) then 1 else 0)
      - (if StrayRelease(s, e) then 0 else Subtracted(s, e))
  {
    match e
    case Release(_) => SumRelease(s, e);
    case Unregister(_) => SumUnregister(s, e);
    case ShutDown => assert ActiveCounts(Apply(s, e)) == ActiveCounts(s);
    case _ => WrittenCounts(s, e);
  }

  /** Conservation: the global counter stays the sum of the model counters in every step, except that
      a stray release, subtracted a second time, breaks it whenever the counter is not yet 0. */
  lemma ConservedStep(s: State, e: Event)
    requires ModelsCount(s) && Conserved(s) && Allowed(s, e)
    ensures Conserved(Apply(s, e)) <==> !(StrayRelease(s, e) && s.globalActive > 0)
  {
    CountsNonNegative(s);
    SumStep(s, e);
    SumNotNegative(s, e);
    GlobalStep(s, e);
  }

  lemma SumNotNegative(s: State, e: Event)
    requires ModelsCount(s) && Allowed(s, e)
    ensures Sum(ActiveCounts(Apply(s, e))) >= 0
  {
    ModelsCountStep(s, e);
    CountsNonNegative(Apply(s, e));
  }

  /** A subtraction that `max(0, x - 1)` guards in the model's own counters would go below zero. */
  predicate ModelClamps(s: State, e: Event)
    requires Allowed(s, e)
  {
    TakesBack(s, e) &&
    var t := s.tickets[e.id];
    var ms := s.models[t.model];
    ms.activeCount - 1 < 0 || (t.version in ms.activeByVersion && ms.activeByVersion[t.version] - 1 < 0)
  }

  /** One of the two guarded subtractions from the global counter would go below zero. */
  predicate GlobalClamps(s: State, e: Event)
    requires Allowed(s, e)
  {
    s.globalActive - Subtracted(s, e) < 0
  }

  /** The clamps of the model counters never fire, in any state a run may reach. */
  lemma ModelClampsNeverFire(s: State, e: Event)
    requires ModelsCount(s) && Allowed(s, e)
    ensures !ModelClamps(s, e)
  {
    if TakesBack(s, e) {
      ReleaseCounts(s.tickets, s.tickets[e.id].model, s.models[s.tickets[e.id].model], e.id);
    }
  }

  /** While the global counter is conserved its clamps fire on a stray release at 0 and on nothing else. */
  lemma ConservedClamps(s: State, e: Event)
    requires ModelsCount(s) && Conserved(s) && Allowed(s, e)
    ensures GlobalClamps(s, e) <==> StrayRelease(s, e) && s.globalActive == 0
  {
    CountsNonNegative(s);
    if TakesBack(s, e) {
      ReleaseCounts(s.tickets, s.tickets[e.id].model, s.models[s.tickets[e.id].model], e.id);
    }
  }

  /** The global counter never counts too much, only too little. */
  lemma NeverAboveStep(s: State, e: Event)
    requires ModelsCount(s) && 0 <= s.globalActive <= Sum(ActiveCounts(s)) && Allowed(s, e)
    ensures Apply(s, e).globalActive <= Sum(ActiveCounts(Apply(s, e)))
  {
    SumStep(s, e);
    SumNotNegative(s, e);
    GlobalStep(s, e);
  }

  lemma ExactUnregister(s: State, e: Event)
    requires ModelsCount(s) && Conserved(s) && Exact(s) && e.Unregister?
    ensures Exact(Apply(s, e)) <==> !BusyUnregister(s, e)
  {
  }

  lemma AcquireKeepsListed(s: State, e: Event, m: ModelId)
    requires Allowed(s, e) && e.TryAcquire? && m in s.models
    ensures m in Apply(s, e).models && s.models[m].activeSlots <= Apply(s, e).models[m].activeSlots
  {
  }

  lemma AcquireTickets(s: State, e: Event)
    requires Allowed(s, e) && e.TryAcquire?
    ensures var s' := Apply(s, e);
      if Admitted(s, e) then
        && Outstanding(s') == Outstanding(s) + {e.id}
        && s'.tickets == s.tickets[e.id := Ticket(e.model, e.version, false)]
        && e.model in s'.models && e.id in s'.models[e.model].activeSlots
        && s'.globalActive == s.globalActive + 1 && s'.acquired == s.acquired + 1 && s'.released == s.released
      else
        && s'.tickets == s.tickets && Outstanding(s') == Outstanding(s)
        && s'.globalActive == s.globalActive && s'.acquired == s.acquired && s'.released == s.released
  {
  }

  lemma ExactTryAcquire(s: State, e: Event)
    requires Exact(s) && Allowed(s, e) && e.TryAcquire?
    ensures Exact(Apply(s, e))
  {
    var s' := Apply(s, e);
    AcquireTickets(s, e);
    forall id | id in Outstanding(s')
      ensures s'.tickets[id].model in s'.models && id in s'.models[s'.tickets[id].model].activeSlots
    {
      if id in Outstanding(s) {
        AcquireKeepsListed(s, e, s.tickets[id].model);
      }
    }
  }

  lemma ExactRelease(s: State, e: Event)
    requires ModelsCount(s) && Conserved(s) && Exact(s) && Allowed(s, e) && e.Release?
    ensures Exact(Apply(s, e))
  {
    var s', ticket := Apply(s, e), s.tickets[e.id];
    if !ticket.released {
      assert e.id in Outstanding(s);
      assert Outstanding(s') == Outstanding(s) - {e.id};
      ReleaseCounts(s.tickets, ticket.model, s.models[ticket.model], e.id);
      CountsNonNegative(s);
    }
  }

  lemma ExactElse(s: State, e: Event)
    requires Exact(s) && (e.Register? || e.RegisterVersionLimit? || e.ShutDown?)
    ensures Exact(Apply(s, e))
  {
    var s' := Apply(s, e);
    assert s'.tickets == s.tickets && Outstanding(s') == Outstanding(s);
    forall id | id in Outstanding(s)
      ensures s.tickets[id].model in s'.models && id in s'.models[s.tickets[id].model].activeSlots
    {
      assert id in s.models[s.tickets[id].model].activeSlots;
    }
  }

  /** The outstanding slots are exactly what the counters count, until a busy model is unregistered. */
  lemma ExactStep(s: State, e: Event)
    requires ModelsCount(s) && Conserved(s) && Exact(s) && Allowed(s, e)
    ensures Exact(Apply(s, e)) <==> !BusyUnregister(s, e)
  {
    match e
    case Unregister(_) => ExactUnregister(s, e);
    case TryAcquire(_, _, _) => ExactTryAcquire(s, e);
    case Release(_) => ExactRelease(s, e);
    case _ => ExactElse(s, e);
  }

  // ---------- whole runs ----------

  ghost predicate Never(s: State, events: seq<Event>, bad: (State, Event) -> bool)
    requires Runs(s, events)
    decreases |events|
  {
    events == [] || (!bad(s, events[0]) && Never(Apply(s, events[0]), events[1..], bad))
  }

  ghost function Stray(): (State, Event) -> bool {
    (s, e) => Allowed(s, e) && StrayRelease(s, e)
  }

  ghost function Busy(): (State, Event) -> bool {
    (s, e) => BusyUnregister(s, e)
  }

  lemma {:induction false} ConservedRun(s: State, events: seq<Event>)
    requires ModelsCount(s) && Conserved(s) && Runs(s, events)
    ensures Never(s, events, Stray()) ==> Conserved(After(s, events))
    ensures Never(s, events, Busy()) && Exact(s) ==> Conserved(After(s, events)) && Exact(After(s, events))
    decreases |events|
  {
    if events == [] {
    } else {
      var e, s' := events[0], Apply(s, events[0]);
      ModelsCountStep(s, e);
      ConservedStep(s, e);
      if Exact(s) {
        ExactStep(s, e);
        ExactHasNoStray(s, e);
      }
      if Conserved(s') {
        ConservedRun(s', events[1..]);
      }
    }
  }

  lemma ExactHasNoStray(s: State, e: Event)
    requires Exact(s) && Allowed(s, e)
    ensures !StrayRelease(s, e)
  {
  }

  lemma {:induction false} ModelsCountRun(s: State, events: seq<Event>)
    requires ModelsCount(s) && 0 <= s.globalActive <= Sum(ActiveCounts(s)) && Runs(s, events)
    ensures ModelsCount(After(s, events))
    ensures 0 <= After(s, events).globalActive <= Sum(ActiveCounts(After(s, events)))
    decreases |events|
  {
    if events == [] {
    } else {
      ModelsCountStep(s, events[0]);
      NeverAboveStep(s, events[0]);
      NeverNegative(s, events[0]);
      ModelsCountRun(Apply(s, events[0]), events[1..]);
    }
  }

  lemma NeverNegative(s: State, e: Event)
    requires s.globalActive >= 0 && Allowed(s, e)
    ensures Apply(s, e).globalActive >= 0
  {
  }

  /** From a new manager: model and version counts are right after every run, and the global counter is
      at most their sum; it is their sum after every run without a stray release; and after every run that
      unregisters only idle models it is also the number of outstanding slots, and acquired minus released. */
  lemma SlotsAreConserved(globalLimit: int, defaultLimit: int, events: seq<Event>)
    requires Runs(Init(globalLimit, defaultLimit), events)
    ensures var s0, s := Init(globalLimit, defaultLimit), After(Init(globalLimit, defaultLimit), events);
      && ModelsCount(s) && 0 <= s.globalActive <= Sum(ActiveCounts(s))
      && (Never(s0, events, Stray()) ==> s.globalActive == Sum(ActiveCounts(s)))
      && (Never(s0, events, Busy()) ==>
            s.globalActive == Sum(ActiveCounts(s)) == |Outstanding(s)| == s.acquired - s.released)
  {
    var s0 := Init(globalLimit, defaultLimit);
    assert ActiveCounts(s0) == map[];
    assert Outstanding(s0) == {};
    ModelsCountRun(s0, events);
    ConservedRun(s0, events);
  }

  /** The clamps after any run. Those of the models never fire. Those of the global counter fire exactly
      when a slot comes back, to its model or to none, while the counter is 0, or a model goes that has
      more active slots than the counter; and as long as no release was stray, only on a stray release. */
  lemma ClampsExactly(globalLimit: int, defaultLimit: int, events: seq<Event>, e: Event)
    requires Runs(Init(globalLimit, defaultLimit), events)
    requires Allowed(After(Init(globalLimit, defaultLimit), events), e)
    ensures var s0, s := Init(globalLimit, defaultLimit), After(Init(globalLimit, defaultLimit), events);
      && !ModelClamps(s, e)
      && (GlobalClamps(s, e) <==>
            match e
            case Release(_) => (StrayRelease(s, e) || TakesBack(s, e)) && s.globalActive == 0
            case Unregister(m) => m in s.models && s.globalActive < s.models[m].activeCount
            case _ => false)
      && (Never(s0, events, Stray()) ==> (GlobalClamps(s, e) <==> StrayRelease(s, e) && s.globalActive == 0))
  {
    var s0, s := Init(globalLimit, defaultLimit), After(Init(globalLimit, defaultLimit), events);
    SlotsAreConserved(globalLimit, defaultLimit, events);
    ModelClampsNeverFire(s, e);
    if Never(s0, events, Stray()) {
      ConservedClamps(s, e);
    }
  }

  /** Two models with one slot each. */
  function TwoBusy(a: ModelId, b: ModelId, v: Version): State {
    State(10, 1, map[a := NewModel(1).Acquire(v, 0), b := NewModel(1).Acquire(v, 1)], 2, false, 2, 0, 0,
          map[0 := Ticket(a, v, false), 1 := Ticket(b, v, false)])
  }

  /** The first model gone while busy, and its slot released afterwards. */
  function OneForgotten(a: ModelId, b: ModelId, v: Version): State {
    State(10, 1, map[b := NewModel(1).Acquire(v, 1)], 0, false, 2, 0, 1,
          map[0 := Ticket(a, v, true), 1 := Ticket(b, v, false)])
  }

  lemma ForgetOne(a: ModelId, b: ModelId, v: Version)
    requires a != b
    ensures var events := [Unregister(a), Event.Release(0)];
      Runs(TwoBusy(a, b, v), events) && After(TwoBusy(a, b, v), events) == OneForgotten(a, b, v)
  {
    var e1, e2 := [Unregister(a), Event.Release(0)], [Event.Release(0)];
    var s := TwoBusy(a, b, v).(globalActive := 1, models := map[b := NewModel(1).Acquire(v, 1)]);
    RunsOne(s, e2, OneForgotten(a, b, v));
    assert e1[1..] == e2;
    RunsOne(TwoBusy(a, b, v), e1, s);
  }

  lemma BusyTwo(a: ModelId, b: ModelId, v: Version, rest: seq<Event>)
    requires a != b && Runs(TwoBusy(a, b, v), rest)
    ensures var events := [TryAcquire(a, v, 0), TryAcquire(b, v, 1)] + rest;
      Runs(Init(10, 1), events) && After(Init(10, 1), events) == After(TwoBusy(a, b, v), rest)
  {
    var e1, e2 := [TryAcquire(a, v, 0), TryAcquire(b, v, 1)] + rest, [TryAcquire(b, v, 1)] + rest;
    var s := State(10, 1, map[a := NewModel(1).Acquire(v, 0)], 1, false, 1, 0, 0, map[0 := Ticket(a, v, false)]);
    assert e2[1..] == rest && e1[1..] == e2;
    RunsOne(s, e2, TwoBusy(a, b, v));
    RunsOne(Init(10, 1), e1, s);
  }

  /** The run that loses count: one slot is still out, and the manager counts none. */
  lemma StrayReleaseLosesASlot(a: ModelId, b: ModelId, v: Version)
    requires a != b
    ensures exists events ::
      && Runs(Init(10, 1), events)
      && var s := After(Init(10, 1), events);
        && s.globalActive == 0
        && |Outstanding(s)| == 1
        && b in s.models && s.models[b].activeCount == 1
        && !Conserved(s)
  {
    var rest := [Unregister(a), Event.Release(0)];
    ForgetOne(a, b, v);
    BusyTwo(a, b, v, rest);
    OneLeft(OneForgotten(a, b, v), b, NewModel(1).Acquire(v, 1));
    var events := [TryAcquire(a, v, 0), TryAcquire(b, v, 1)] + rest;
    assert Runs(Init(10, 1), events) && After(Init(10, 1), events) == OneForgotten(a, b, v);
  }

  /** After such a run the clamp fires for a slot whose model was registered all the time. */
  lemma ClampWithoutStray(a: ModelId, b: ModelId, v: Version)
    requires a != b
    ensures exists events, id ::
      && Runs(Init(10, 1), events)
      && var s, e := After(Init(10, 1), events), Event.Release(id);
        Allowed(s, e) && GlobalClamps(s, e) && !StrayRelease(s, e)
  {
    var rest := [Unregister(a), Event.Release(0)];
    ForgetOne(a, b, v);
    BusyTwo(a, b, v, rest);
    var events := [TryAcquire(a, v, 0), TryAcquire(b, v, 1)] + rest;
    var s, e := OneForgotten(a, b, v), Event.Release(1);
    assert Allowed(s, e) && TakesBack(s, e);
    assert Runs(Init(10, 1), events) && After(Init(10, 1), events) == s;
  }

  lemma OneLeft(s: State, b: ModelId, mb: ModelState)
    requires s.models == map[b := mb] && mb.activeCount == 1 && s.globalActive == 0
    requires s.tickets.Keys == {0, 1} && s.tickets[0].released && !s.tickets[1].released
    ensures |Outstanding(s)| == 1 && !Conserved(s)
  {
    assert Outstanding(s) == {1};
    assert ActiveCounts(s) == map[b := 1];
    SumRemove(ActiveCounts(s), b);
    assert ActiveCounts(s) - {b} == map[];
  }

  lemma RunsOne(s: State, events: seq<Event>, s': State)
    requires events != [] && Allowed(s, events[0]) && Apply(s, events[0]) == s'
    requires Runs(s', events[1..])
    ensures Runs(s, events) && After(s, events) == After(s', events[1..])
  {
  }

  // ---------- the admission bound ----------

  /** The ceiling of nine tenths of the limit. */
  function Ceiling(limit: int): int {
    (9 * limit + 9) / 10
  }

  lemma BoundStep(s: State, e: Event)
    requires Allowed(s, e) && s.globalLimit >= 1 && 0 <= s.globalActive <= Ceiling(s.globalLimit)
    requires ModelsCount(s)
    ensures 0 <= Apply(s, e).globalActive <= Ceiling(s.globalLimit)
  {
    if e.Unregister? && e.model in s.models {
      assert ModelCounts(s.tickets, e.model, s.models[e.model]);
    }
  }

  lemma {:induction false} BoundRun(s: State, events: seq<Event>)
    requires Runs(s, events) && s.globalLimit >= 1 && 0 <= s.globalActive <= Ceiling(s.globalLimit)
    requires ModelsCount(s)
    ensures After(s, events).globalLimit == s.globalLimit
    ensures 0 <= After(s, events).globalActive <= Ceiling(s.globalLimit)
    decreases |events|
  {
    if events == [] {
    } else {
      BoundStep(s, events[0]);
      ModelsCountStep(s, events[0]);
      BoundRun(Apply(s, events[0]), events[1..]);
    }
  }

  /** With a positive limit the counter never exceeds nine tenths of it, rounded up, in any run; nor
      do the slots really outstanding, unless a busy model was unregistered. No request is ever
      refused for the global limit, because hard backpressure is checked first. */
  lemma AdmissionBound(globalLimit: int, defaultLimit: int, events: seq<Event>, m: ModelId, v: Version)
    requires globalLimit >= 1 && Runs(Init(globalLimit, defaultLimit), events)
    ensures var s0, s := Init(globalLimit, defaultLimit), After(Init(globalLimit, defaultLimit), events);
      && 0 <= s.globalActive <= Ceiling(globalLimit) <= globalLimit
      && (Never(s0, events, Busy()) ==> |Outstanding(s)| <= Ceiling(globalLimit))
      && Refusal(s, m, v) != Some(GlobalLimit)
  {
    BoundRun(Init(globalLimit, defaultLimit), events);
    SlotsAreConserved(globalLimit, defaultLimit, events);
  }

  /** Only a negative limit, which the constructor accepts, brings the global refusal to light. */
  lemma GlobalLimitReachedOnlyIfNegative(globalLimit: int, defaultLimit: int, m: ModelId, v: Version)
    ensures Refusal(Init(globalLimit, defaultLimit), m, v) == Some(GlobalLimit) <==> globalLimit < 0
  {
  }

  function Acquires(n: nat, m: ModelId, v: Version): seq<Event> {
    if n == 0 then [] else Acquires(n - 1, m, v) + [TryAcquire(m, v, n - 1)]
  }

  lemma {:induction false} RunsSnoc(s: State, events: seq<Event>, e: Event)
    requires Runs(s, events) && Allowed(After(s, events), e)
    ensures Runs(s, events + [e]) && After(s, events + [e]) == Apply(After(s, events), e)
    decreases |events|
  {
    if events == [] {
      assert [e][1..] == [] && events + [e] == [e];
    } else {
      RunsSnoc(Apply(s, events[0]), events[1..], e);
      assert (events + [e])[1..] == events[1..] + [e];
    }
  }

  lemma {:induction false} AcquiresReach(globalLimit: int, defaultLimit: int, n: nat, m: ModelId, v: Version)
    requires globalLimit >= 1 && n <= Ceiling(globalLimit) <= defaultLimit
    ensures var s0 := Init(globalLimit, defaultLimit);
      && Runs(s0, Acquires(n, m, v))
      && var s := After(s0, Acquires(n, m, v));
        && s.globalActive == n && s.globalLimit == globalLimit && s.defaultLimit == defaultLimit && !s.shutdown
        && (forall id :: id in s.tickets ==> id < n)
        && (n > 0 ==> m in s.models)
        && (m in s.models ==>
              s.models[m].activeCount == s.models[m].VersionActive(v) == n &&
              s.models[m].maxConcurrent == defaultLimit && s.models[m].versionLimits == map[])
  {
    if n == 0 {
    } else {
      AcquiresReach(globalLimit, defaultLimit, n - 1, m, v);
      RunsSnoc(Init(globalLimit, defaultLimit), Acquires(n - 1, m, v), TryAcquire(m, v, n - 1));
    }
  }

  /** The bound is attained when the model and version limits permit. */
  lemma BoundIsAttained(globalLimit: int, defaultLimit: int, m: ModelId, v: Version)
    requires globalLimit >= 1 && defaultLimit >= Ceiling(globalLimit)
    ensures exists events ::
      && Runs(Init(globalLimit, defaultLimit), events)
      && After(Init(globalLimit, defaultLimit), events).globalActive == Ceiling(globalLimit)
  {
    AcquiresReach(globalLimit, defaultLimit, Ceiling(globalLimit), m, v);
    assert Runs(Init(globalLimit, defaultLimit), Acquires(Ceiling(globalLimit), m, v));
  }

  // ---------- which limits apply ----------

  lemma {:induction false} RunsInit(s: State, events: seq<Event>)
    requires events != [] && Runs(s, events)
    ensures var init, e := events[..|events| - 1], events[|events| - 1];
      Runs(s, init) && Allowed(After(s, init), e) && After(s, events) == Apply(After(s, init), e)
    decreases |events|
  {
    var init := events[..|events| - 1];
    if |events| == 1 {
      assert init == [] && events[1..] == [];
    } else {
      RunsInit(Apply(s, events[0]), events[1..]);
      assert init[1..] == events[1..][..|events| - 2];
    }
  }

  /** The limit a model has been given: the last one since it was last unregistered, else the default. */
  function LimitGiven(events: seq<Event>, m: ModelId, defaultLimit: int): int {
    if events == [] then defaultLimit
    else match events[|events| - 1]
      case Register(n, Some(limit)) =>
        if n == m then limit else LimitGiven(events[..|events| - 1], m, defaultLimit)
      case Unregister(n) =>
        if n == m then defaultLimit else LimitGiven(events[..|events| - 1], m, defaultLimit)
      case _ => LimitGiven(events[..|events| - 1], m, defaultLimit)
  }

  /** The limit one of its versions has been given since then, if any. */
  function VersionLimitGiven(events: seq<Event>, m: ModelId, v: Version): Option<int> {
    if events == [] then None
    else match events[|events| - 1]
      case RegisterVersionLimit(n, w, limit) =>
        if n == m && w == v then Some(limit) else VersionLimitGiven(events[..|events| - 1], m, v)
      case Unregister(n) =>
        if n == m then None else VersionLimitGiven(events[..|events| - 1], m, v)
      case _ => VersionLimitGiven(events[..|events| - 1], m, v)
  }

  predicate ShutDownIn(events: seq<Event>) {
    exists i :: 0 <= i < |events| && events[i] == ShutDown
  }

  /** The requests made before the shutdown. */
  function Requests(events: seq<Event>): nat {
    if events == [] then 0
    else
      var init := events[..|events| - 1];
      Requests(init) + if events[|events| - 1].TryAcquire? && !ShutDownIn(init) then 1 else 0
  }

  /** The limits that the state holds for a model are those given. */
  predicate HoldsLimits(s: State, m: ModelId, v: Version, limit: int, versionLimit: Option<int>) {
    if m in s.models then
      && s.models[m].maxConcurrent == limit
      && versionLimit == if v in s.models[m].versionLimits then Some(s.models[m].versionLimits[v]) else None
    else limit == s.defaultLimit && versionLimit == None
  }

  lemma HoldsLimitsStep(s: State, e: Event, m: ModelId, v: Version, limit: int, versionLimit: Option<int>)
    requires Allowed(s, e) && HoldsLimits(s, m, v, limit, versionLimit)
    ensures HoldsLimits(Apply(s, e), m, v,
      match e
        case Register(n, Some(l)) => (if n == m then l else limit)
        case Unregister(n) => (if n == m then s.defaultLimit else limit)
        case _ => limit,
      match e
        case RegisterVersionLimit(n, w, l) => (if n == m && w == v then Some(l) else versionLimit)
        case Unregister(n) => (if n == m then None else versionLimit)
        case _ => versionLimit)
  {
  }

  lemma CountsRequestsStep(s: State, e: Event)
    requires Allowed(s, e) && s.acquired == |s.tickets|
    ensures var s' := Apply(s, e);
      && s'.globalLimit == s.globalLimit && s'.defaultLimit == s.defaultLimit
      && s'.shutdown == (s.shutdown || e == ShutDown)
      && s'.acquired == |s'.tickets|
      && s'.acquired + s'.rejected == s.acquired + s.rejected + if e.TryAcquire? && !s.shutdown then 1 else 0
  {
    if e.Release? {
      assert s.tickets[e.id := s.tickets[e.id].(released := true)].Keys == s.tickets.Keys;
    }
  }

  /** Every request before the shutdown is counted once, as acquired or as rejected, and every acquired one
      has its own slot; the limits given at the start stay. */
  lemma {:induction false} RequestsAreCounted(globalLimit: int, defaultLimit: int, events: seq<Event>)
    requires Runs(Init(globalLimit, defaultLimit), events)
    ensures var s := After(Init(globalLimit, defaultLimit), events);
      && s.globalLimit == globalLimit && s.defaultLimit == defaultLimit
      && s.shutdown == ShutDownIn(events)
      && s.acquired == |s.tickets| && s.acquired + s.rejected == Requests(events)
    decreases |events|
  {
    if events == [] {
    } else {
      var s0, init, e := Init(globalLimit, defaultLimit), events[..|events| - 1], events[|events| - 1];
      RunsInit(s0, events);
      RequestsAreCounted(globalLimit, defaultLimit, init);
      CountsRequestsStep(After(s0, init), e);
      assert events == init + [e];
      assert ShutDownIn(events) <==> ShutDownIn(init) || e == ShutDown;
    }
  }

  lemma {:induction false} LimitsRun(globalLimit: int, defaultLimit: int, events: seq<Event>, m: ModelId, v: Version)
    requires Runs(Init(globalLimit, defaultLimit), events)
    ensures HoldsLimits(After(Init(globalLimit, defaultLimit), events), m, v,
                        LimitGiven(events, m, defaultLimit), VersionLimitGiven(events, m, v))
    decreases |events|
  {
    if events == [] {
    } else {
      var s0, init, e := Init(globalLimit, defaultLimit), events[..|events| - 1], events[|events| - 1];
      RunsInit(s0, events);
      RequestsAreCounted(globalLimit, defaultLimit, init);
      LimitsRun(globalLimit, defaultLimit, init, m, v);
      HoldsLimitsStep(After(s0, init), e, m, v, LimitGiven(init, m, defaultLimit), VersionLimitGiven(init, m, v));
    }
  }

  function SlotsOf(s: State, m: ModelId): set<SlotId> {
    if m in s.models then s.models[m].activeSlots else {}
  }

  /** The answer to a request after any run, from what was registered and how many slots the model and the
      version have: shut down; under backpressure; at the model's limit; at the version's, which is the
      model's unless it was given its own; or admitted. A negative global limit refuses everything else. */
  lemma RefusalExactly(globalLimit: int, defaultLimit: int, events: seq<Event>, m: ModelId, v: Version)
    requires Runs(Init(globalLimit, defaultLimit), events)
    ensures var s := After(Init(globalLimit, defaultLimit), events);
      var limit, own := LimitGiven(events, m, defaultLimit), VersionLimitGiven(events, m, v);
      var versionLimit := if own.Some? then own.value else limit;
      Refusal(s, m, v) ==
        if ShutDownIn(events) then Some(Shutdown)
        else if globalLimit == 0 || (globalLimit > 0 && 10 * s.globalActive >= 9 * globalLimit) then Some(Backpressure)
        else if globalLimit < 0 then Some(GlobalLimit)
        else if |SlotsOf(s, m)| >= limit then Some(ModelLimit)
        else if |OfVersion(s.tickets, SlotsOf(s, m), v)| >= versionLimit then Some(VersionLimit)
        else None
  {
    var s := After(Init(globalLimit, defaultLimit), events);
    LimitsRun(globalLimit, defaultLimit, events, m, v);
    RequestsAreCounted(globalLimit, defaultLimit, events);
    SlotsAreConserved(globalLimit, defaultLimit, events);
    if m in s.models {
      assert ModelCounts(s.tickets, m, s.models[m]);
      assert VersionCounts(s.tickets, s.models[m], v);
    } else {
      assert OfVersion(s.tickets, {}, v) == {};
    }
    if globalLimit >= 1 {
      AdmissionBound(globalLimit, defaultLimit, events, m, v);
    }
  }

  // ---------- isolation and the model limit ----------

  /** The limit of model m never exceeds k in the run. */
  ghost predicate LimitAtMost(s: State, events: seq<Event>, m: ModelId, k: int)
    requires Runs(s, events)
    decreases |events|
  {
    && (m in s.models ==> s.models[m].maxConcurrent <= k)
    && (events == [] || LimitAtMost(Apply(s, events[0]), events[1..], m, k))
  }

  /** The same for one of its versions. */
  ghost predicate VersionLimitAtMost(s: State, events: seq<Event>, m: ModelId, v: Version, k: int)
    requires Runs(s, events)
    decreases |events|
  {
    && (m in s.models ==>
          (if v in s.models[m].versionLimits then s.models[m].versionLimits[v] else s.models[m].maxConcurrent) <= k)
    && (events == [] || VersionLimitAtMost(Apply(s, events[0]), events[1..], m, v, k))
  }

  ghost predicate VersionWithin(ms: ModelState, ms': ModelState, v: Version) {
    ms'.VersionActive(v) <= ms.VersionActive(v) || ms'.VersionActive(v) <= ms'.VersionLimitOf(v)
  }

  /** A count grows only up to the limit that the model or the version has after the step. */
  lemma StepWithinLimits(s: State, e: Event, m: ModelId)
    requires ModelsCount(s) && Allowed(s, e) && m in Apply(s, e).models
    ensures var ms, ms' := Before(s, Apply(s, e), m), Apply(s, e).models[m];
      && (ms'.activeCount <= ms.activeCount || ms'.activeCount <= ms'.maxConcurrent)
      && forall v :: VersionWithin(ms, ms', v)
  {
    match e
    case TryAcquire(_, _, _) => AcquireWithinLimits(s, e, m);
    case Release(_) => ModelClampsNeverFire(s, e);
    case _ =>
  }

  lemma AcquireWithinLimits(s: State, e: Event, m: ModelId)
    requires Allowed(s, e) && e.TryAcquire? && m in Apply(s, e).models
    ensures var ms, ms' := Before(s, Apply(s, e), m), Apply(s, e).models[m];
      && (ms'.activeCount <= ms.activeCount || ms'.activeCount <= ms'.maxConcurrent)
      && forall v :: VersionWithin(ms, ms', v)
  {
  }

  /** A model never has more active slots than the largest limit it had in the run, whatever the limits
      and the traffic of the others. */
  lemma {:induction false} ModelLimitEnforced(s: State, events: seq<Event>, m: ModelId, k: nat)
    requires Runs(s, events) && LimitAtMost(s, events, m, k)
    requires ModelsCount(s) && (m in s.models ==> s.models[m].activeCount <= k)
    ensures m in After(s, events).models ==> After(s, events).models[m].activeCount <= k
    decreases |events|
  {
    if events == [] {
    } else {
      var s' := Apply(s, events[0]);
      ModelsCountStep(s, events[0]);
      if m in s'.models {
        StepWithinLimits(s, events[0], m);
      }
      ModelLimitEnforced(s', events[1..], m, k);
    }
  }

  /** Nor does a version exceed the largest limit it had, its own or the model's. */
  lemma {:induction false} VersionLimitEnforced(s: State, events: seq<Event>, m: ModelId, v: Version, k: nat)
    requires Runs(s, events) && VersionLimitAtMost(s, events, m, v, k)
    requires ModelsCount(s) && (m in s.models ==> s.models[m].VersionActive(v) <= k)
    ensures m in After(s, events).models ==> After(s, events).models[m].VersionActive(v) <= k
    decreases |events|
  {
    if events == [] {
    } else {
      var s' := Apply(s, events[0]);
      ModelsCountStep(s, events[0]);
      if m in s'.models {
        StepWithinLimits(s, events[0], m);
        assert VersionWithin(Before(s, s', m), s'.models[m], v);
      }
      VersionLimitEnforced(s', events[1..], m, v, k);
    }
  }

  // ---------- the objects ----------

  class ModelConcurrencyState {
    var maxConcurrent: int
    var versionLimits: map<Version, int>
    var activeCount: int
    var activeByVersion: map<Version, int>
    var activeSlots: set<SlotId>
    var totalAcquired: int
    var totalRejected: int
    var totalReleased: int

    ghost function View(): ModelState
      reads this
    {
      ModelState(maxConcurrent, versionLimits, activeCount, activeByVersion, activeSlots,
                 totalAcquired, totalRejected, totalReleased)
    }

    constructor (limit: int)
      ensures View() == NewModel(limit)
    {
      maxConcurrent := limit;
      versionLimits, activeByVersion := map[], map[];
      activeCount, activeSlots := 0, {};
      totalAcquired, totalRejected, totalReleased := 0, 0, 0;
    }

    method CanAcquire(version: Version) returns (reason: Option<RejectionReason>)
      ensures reason == View().Refusal(version)
      ensures reason == Some(ModelLimit) <==> activeCount >= maxConcurrent
      ensures reason == None <==>
        && activeCount < maxConcurrent
        && (if version in activeByVersion then activeByVersion[version] else 0)
           < (if version in versionLimits then versionLimits[version] else maxConcurrent)
    {
      if activeCount >= maxConcurrent {
        return Some(ModelLimit);
      }
      var versionLimit := if version in versionLimits then versionLimits[version] else maxConcurrent;
      var versionActive := if version in activeByVersion then activeByVersion[version] else 0;
      if versionActive >= versionLimit {
        return Some(VersionLimit);
      }
      return None;
    }

    method Acquire(version: Version, id: SlotId)
      modifies this
      ensures View() == old(View()).Acquire(version, id)
    {
      activeCount := activeCount + 1;
      var n := if version in activeByVersion then activeByVersion[version] else 0;
      activeByVersion := activeByVersion[version := n + 1];
      activeSlots := activeSlots + {id};
      totalAcquired := totalAcquired + 1;
    }

    method Release(version: Version, id: SlotId) returns (released: bool)
      modifies this
      ensures released <==> id in old(activeSlots)
      ensures View() == old(View()).Release(version, id)
    {
      if id !in activeSlots {
        return false;
      }
      activeSlots := activeSlots - {id};
      activeCount := Max(0, activeCount - 1);
      if version in activeByVersion {
        activeByVersion := activeByVersion[version := Max(0, activeByVersion[version] - 1)];
      }
      totalReleased := totalReleased + 1;
      return true;
    }

    method RecordRejection()
      modifies this
      ensures View() == old(View()).Reject()
      ensures totalRejected == old(totalRejected) + 1
    {
      totalRejected := totalRejected + 1;
    }
  }

  class ConcurrencyManager {
    var globalLimit: int
    var defaultLimit: int
    var models: map<ModelId, ModelConcurrencyState>
    var globalActive: int
    var shutdown: bool
    var totalAcquired: int
    var totalRejected: int
    var totalReleased: int
    ghost var tickets: map<SlotId, Ticket>
    ghost var states: set<ModelConcurrencyState>

    /** No two models share their counters. */
    ghost predicate Valid()
      reads this
    {
      && (forall m :: m in models ==> models[m] in states)
      && forall a, b :: a in models && b in models && a != b ==> models[a] != models[b]
    }

    ghost function Models(): map<ModelId, ModelState>
      requires Valid()
      reads this, states
    {
      map m | m in models :: models[m].View()
    }

    ghost function View(): State
      requires Valid()
      reads this, states
    {
      State(globalLimit, defaultLimit, Models(), globalActive, shutdown,
            totalAcquired, totalRejected, totalReleased, tickets)
    }

    constructor (globalLimit: int, defaultLimit: int)
      ensures Valid() && states == {}
      ensures View() == Init(globalLimit, defaultLimit)
    {
      this.globalLimit, this.defaultLimit := globalLimit, defaultLimit;
      models, globalActive, shutdown := map[], 0, false;
      totalAcquired, totalRejected, totalReleased := 0, 0, 0;
      tickets, states := map[], {};
    }

    method AddModel(model: ModelId, limit: int)
      requires Valid() && model !in models
      modifies this
      ensures Valid() && fresh(states - old(states)) && old(states) <= states && model in models
      ensures View() == old(View()).(models := old(Models())[model := NewModel(limit)])
    {
      var state := new ModelConcurrencyState(limit);
      models := models[model := state];
      states := states + {state};
      assert Models() == old(Models())[model := NewModel(limit)];
    }

    method RegisterModel(model: ModelId, limit: Option<int>)
      requires Valid()
      modifies this, states
      ensures Valid() && fresh(states - old(states))
      ensures View() == Apply(old(View()), Event.Register(model, limit))
      ensures model in View().models && View().models[model].maxConcurrent ==
        if limit.Some? then limit.value
        else if model in old(Models()) then old(Models())[model].maxConcurrent
        else defaultLimit
    {
      if model !in models {
        AddModel(model, if limit.Some? then limit.value else defaultLimit);
      } else if limit.Some? {
        models[model].maxConcurrent := limit.value;
        assert Models() == old(Models())[model := old(Models())[model].(maxConcurrent := limit.value)];
      }
    }

    method EnsureKnown(model: ModelId)
      requires Valid()
      modifies this
      ensures Valid() && fresh(states - old(states)) && old(states) <= states && model in models
      ensures View() == Known(old(View()), model)
    {
      if model !in models {
        AddModel(model, defaultLimit);
      }
    }

    method RegisterVersionLimit(model: ModelId, version: Version, max: int)
      requires Valid()
      modifies this, states
      ensures Valid() && fresh(states - old(states))
      ensures View() == Apply(old(View()), Event.RegisterVersionLimit(model, version, max))
    {
      EnsureKnown(model);
      ghost var known := Models();
      var state := models[model];
      state.versionLimits := state.versionLimits[version := max];
      assert Models() == known[model := state.View()];
    }

    method UnregisterModel(model: ModelId)
      requires Valid()
      modifies this
      ensures Valid() && states == old(states)
      ensures View() == Apply(old(View()), Event.Unregister(model))
    {
      if model in models {
        globalActive := Max(0, globalActive - models[model].activeCount);
        models := models - {model};
        assert Models() == old(Models()) - {model};
      }
    }

    method IsHardBackpressure() returns (hard: bool)
      ensures hard <==> HardBackpressure(globalLimit, globalActive)
    {
      if globalLimit == 0 {
        return true;
      }
      HardThreshold(globalLimit, globalActive);
      return (globalActive as real) / (globalLimit as real) >= 0.9;
    }

    /** `_try_acquire_locked`; `id` is the fresh slot id it would draw. */
    method TryAcquire(model: ModelId, version: Version, id: SlotId) returns (reason: Option<RejectionReason>)
      requires Valid() && id !in tickets
      modifies this, states
      ensures Valid() && fresh(states - old(states))
      ensures reason == Refusal(old(View()), model, version)
      ensures View() == Apply(old(View()), Event.TryAcquire(model, version, id))
    {
      if shutdown {
        return Some(Shutdown);
      }
      EnsureKnown(model);
      reason := Decide(model, version);
      if reason.Some? {
        Reject(model);
      } else {
        Admit(model, version, id);
      }
    }

    /** The tests of `_try_acquire_locked` on a known model. */
    method Decide(model: ModelId, version: Version) returns (reason: Option<RejectionReason>)
      requires Valid() && model in models && !shutdown
      ensures reason == Refusal(View(), model, version)
    {
      var hard := IsHardBackpressure();
      if hard {
        return Some(Backpressure);
      }
      if globalActive >= globalLimit {
        return Some(GlobalLimit);
      }
      reason := models[model].CanAcquire(version);
    }

    method Reject(model: ModelId)
      requires Valid() && model in models
      modifies this, states
      ensures Valid() && states == old(states)
      ensures View() == old(View()).(models := old(Models())[model := old(Models())[model].Reject()],
                                     rejected := old(totalRejected) + 1)
    {
      models[model].RecordRejection();
      totalRejected := totalRejected + 1;
      assert Models() == old(Models())[model := old(Models())[model].Reject()];
    }

    method Admit(model: ModelId, version: Version, id: SlotId)
      requires Valid() && model in models
      modifies this, states
      ensures Valid() && states == old(states)
      ensures View() == old(View()).(models := old(Models())[model := old(Models())[model].Acquire(version, id)],
                                     globalActive := old(globalActive) + 1,
                                     acquired := old(totalAcquired) + 1,
                                     tickets := old(tickets)[id := Ticket(model, version, false)])
    {
      models[model].Acquire(version, id);
      globalActive := globalActive + 1;
      totalAcquired := totalAcquired + 1;
      tickets := tickets[id := Ticket(model, version, false)];
      assert Models() == old(Models())[model := old(Models())[model].Acquire(version, id)];
    }

    method ReleaseSlot(model: ModelId, version: Version, id: SlotId)
      requires Valid()
      modifies this, states
      ensures Valid() && states == old(states) && tickets == old(tickets)
      ensures View() == SlotReleased(old(View()), model, version, id)
    {
      if model !in models {
        globalActive := Max(0, globalActive - 1);
        totalReleased := totalReleased + 1;
        return;
      }
      var released := ReleaseIn(model, version, id);
      if released {
        globalActive := Max(0, globalActive - 1);
        totalReleased := totalReleased + 1;
      }
    }

    method ReleaseIn(model: ModelId, version: Version, id: SlotId) returns (released: bool)
      requires Valid() && model in models
      modifies states
      ensures Valid() && released == (id in old(Models())[model].activeSlots)
      ensures Models() == old(Models())[model := old(Models())[model].Release(version, id)]
      ensures !released ==> Models() == old(Models())
    {
      released := models[model].Release(version, id);
      assert Models() == old(Models())[model := old(Models())[model].Release(version, id)];
    }

    method BeginShutdown()
      requires Valid()
      modifies this
      ensures Valid() && states == old(states)
      ensures View() == Apply(old(View()), Event.ShutDown)
    {
      shutdown := true;
    }
  }

  /** Nine tenths, with and without the division. */
  lemma HardThreshold(limit: int, active: int)
    requires limit != 0
    ensures (active as real) / (limit as real) >= 0.9 <==> HardBackpressure(limit, active)
  {
    var q, l := (active as real) / (limit as real), limit as real;
    assert q * l == active as real;
    assert (q - 0.9) * l == active as real - 0.9 * l;
    if q >= 0.9 {
      SignOfProduct(q - 0.9, l);
    } else {
      SignOfProduct(0.9 - q, l);
      assert (0.9 - q) * l == -((q - 0.9) * l);
    }
  }

  lemma SignOfProduct(x: real, y: real)
    requires x >= 0.0 && y != 0.0
    ensures y > 0.0 ==> x * y >= 0.0 && (x > 0.0 ==> x * y > 0.0)
    ensures y < 0.0 ==> x * y <= 0.0 && (x > 0.0 ==> x * y < 0.0)
  {
  }

  /** The handle of an acquired slot. */
  class ConcurrencySlot {
    const manager: ConcurrencyManager
    const modelId: ModelId
    const version: Version
    const slotId: SlotId
    var released: bool

    /** The manager's ledger of tickets speaks of this handle. */
    ghost predicate Issued()
      reads this, manager
    {
      slotId in manager.tickets && manager.tickets[slotId] == Ticket(modelId, version, released)
    }

    constructor (manager: ConcurrencyManager, modelId: ModelId, version: Version, slotId: SlotId)
      requires slotId in manager.tickets && manager.tickets[slotId] == Ticket(modelId, version, false)
      ensures Issued() && !released && this.manager == manager && this.slotId == slotId
    {
      this.manager, this.modelId, this.version, this.slotId := manager, modelId, version, slotId;
      released := false;
    }

    method Release()
      requires Issued() && manager.Valid()
      modifies this, manager, manager.states
      ensures Issued() && released && manager.Valid() && manager.states == old(manager.states)
      ensures manager.View() == Apply(old(manager.View()), Event.Release(slotId))
    {
      if released {
        return;
      }
      manager.ReleaseSlot(modelId, version, slotId);
      released := true;
      manager.tickets := manager.tickets[slotId := Ticket(modelId, version, true)];
    }
  }
}
