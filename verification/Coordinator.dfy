/**
  The coordinator: activation and deactivation of a model version move the sandbox map, the registry
  and the coordinator's own set of active versions together, under one lock.
*/
module Coordinator {
  import opened Prelude
  import opened Models

  datatype State = State(
    registry: map<QualifiedId, LoadState>,
    sandboxes: set<QualifiedId>,
    active: set<QualifiedId>)

  datatype ResultCode =
    | Success
    | VersionNotFound
    | InvalidStateTransition
    | SandboxCreationFailed
    | AlreadyActive
    | AlreadyInactive
    | LockTimeout
    | Raised    // the exception of `update_state` leaves the call

  /** How the lock and the two resources answer: the lock may time out, `create_sandbox` may raise, and
      `update_state` may report failure or raise, because the registry has a lock of its own. */
  datatype Outcome = LockTimesOut | CreationFails | UpdateFails | UpdateRaises | BothSucceed

  datatype Event =
    | Activate(id: QualifiedId, outcome: Outcome)
    | Deactivate(id: QualifiedId, to: LoadState, outcome: Outcome)
    | Shutdown
    // somebody else writes a registry entry, or removes it
    | Registry(id: QualifiedId, entry: Option<LoadState>)

  function Write(registry: map<QualifiedId, LoadState>, id: QualifiedId, to: LoadState): map<QualifiedId, LoadState> {
    if id in registry then registry[id := to] else registry
  }

  function Activation(s: State, id: QualifiedId, outcome: Outcome): (ResultCode, State) {
    if outcome == LockTimesOut then (LockTimeout, s)
    else if id in s.active && id in s.sandboxes then (AlreadyActive, s)
    else if id !in s.registry then (VersionNotFound, s)
    else match outcome
      case CreationFails => (SandboxCreationFailed, s)
      case UpdateFails => (InvalidStateTransition, s.(sandboxes := s.sandboxes - {id}))
      case UpdateRaises => (Raised, s.(sandboxes := s.sandboxes - {id}))
      case _ => (Success, State(s.registry[id := Ready], s.sandboxes + {id}, s.active + {id}))
  }

  /** A deactivation goes on when the update reports failure, but not when it raises. */
  function Deactivation(s: State, id: QualifiedId, to: LoadState, outcome: Outcome): (ResultCode, State) {
    if outcome == LockTimesOut then (LockTimeout, s)
    else if id !in s.active && id !in s.sandboxes then (AlreadyInactive, s)
    else if outcome == UpdateRaises then (Raised, s.(sandboxes := s.sandboxes - {id}))
    else (Success, State(if outcome == UpdateFails then s.registry else Write(s.registry, id, to),
                         s.sandboxes - {id}, s.active - {id}))
  }

  function WriteAll(registry: map<QualifiedId, LoadState>, ids: set<QualifiedId>, to: LoadState)
    : map<QualifiedId, LoadState>
  {
    map id | id in registry :: if id in ids then to else registry[id]
  }

  function Apply(s: State, e: Event): State {
    match e
    case Activate(id, outcome) => Activation(s, id, outcome).1
    case Deactivate(id, to, outcome) => Deactivation(s, id, to, outcome).1
    case Shutdown => State(WriteAll(s.registry, s.active, Unloaded), s.sandboxes - s.active, {})
    case Registry(id, entry) =>
      s.(registry := if entry.Some? then s.registry[id := entry.value] else s.registry - {id})
  }

  function After(s: State, events: seq<Event>): State
    decreases |events|
  {
    if events == [] then s else After(Apply(s, events[0]), events[1..])
  }

  // ---------- the invariant ----------

  function ReadyVersions(registry: map<QualifiedId, LoadState>): set<QualifiedId> {
    set id | id in registry && registry[id] == Ready
  }

  /** The active versions, the versions with a sandbox and the ready versions are the same. */
  predicate Consistent(s: State) {
    s.active == s.sandboxes == ReadyVersions(s.registry)
  }

  /** The event changes which versions are ready behind the coordinator's back: somebody else makes a
      version ready or not ready, or the deactivation of an active version leaves it ready or breaks off. */
  predicate Disturbs(s: State, e: Event) {
    match e
    case Registry(id, entry) => (id in ReadyVersions(s.registry)) != (entry == Some(Ready))
    case Deactivate(id, to, outcome) =>
      id in s.active && (outcome == UpdateRaises || outcome == UpdateFails || (to == Ready && outcome != LockTimesOut))
    case _ => false
  }

  /** Every operation of the coordinator keeps the three sets equal, and only a disturbance, each
      disturbance, makes them differ. */
  lemma ConsistentStep(s: State, e: Event)
    requires Consistent(s)
    ensures Consistent(Apply(s, e)) <==> !Disturbs(s, e)
  {
  }

  ghost predicate NeverDisturbed(s: State, events: seq<Event>)
    decreases |events|
  {
    events == [] || (!Disturbs(s, events[0]) && NeverDisturbed(Apply(s, events[0]), events[1..]))
  }

  lemma {:induction false} ConsistentRun(s: State, events: seq<Event>)
    requires Consistent(s) && NeverDisturbed(s, events)
    ensures Consistent(After(s, events))
    decreases |events|
  {
    if events == [] {
    } else {
      ConsistentStep(s, events[0]);
      ConsistentRun(Apply(s, events[0]), events[1..]);
    }
  }

  /** An activation is all or nothing: it ends with both resources in place, or it changes nothing,
      except that a failed state update over an orphaned sandbox removes that sandbox. */
  lemma ActivationIsAtomic(s: State, id: QualifiedId, outcome: Outcome)
    ensures var (code, s') := Activation(s, id, outcome);
      if code == Success then
        && id in s'.active && id in s'.sandboxes && id in s'.registry && s'.registry[id] == Ready
        && s'.active - {id} == s.active - {id} && s'.sandboxes - {id} == s.sandboxes - {id}
        && s'.registry - {id} == s.registry - {id}
      else
        s' == s <==> !((code == InvalidStateTransition || code == Raised) && id in s.sandboxes)
    ensures Consistent(s) && Activation(s, id, outcome).0 != Success ==> Activation(s, id, outcome).1 == s
  {
  }

  /** The answer to an activation, code by code. */
  predicate ActivationAnswer(s: State, id: QualifiedId, outcome: Outcome, code: ResultCode) {
    var tried := outcome != LockTimesOut && !(id in s.active && id in s.sandboxes) && id in s.registry;
    && (code == LockTimeout <==> outcome == LockTimesOut)
    && (code == AlreadyActive <==> outcome != LockTimesOut && id in s.active && id in s.sandboxes)
    && (code == SandboxCreationFailed <==> tried && outcome == CreationFails)
    && (code == InvalidStateTransition <==> tried && outcome == UpdateFails)
    && (code == Raised <==> tried && outcome == UpdateRaises)
    && (code == Success <==> tried && outcome == BothSucceed)
    && (code == VersionNotFound <==>
          outcome != LockTimesOut && !(id in s.active && id in s.sandboxes) && id !in s.registry)
    && code != AlreadyInactive
  }

  /** The answer to a deactivation, and what it leaves: an orphaned sandbox is taken along, an active version
      without one too. */
  predicate DeactivationAnswer(s: State, id: QualifiedId, to: LoadState, outcome: Outcome, code: ResultCode,
                               s': State) {
    var tried := outcome != LockTimesOut && (id in s.active || id in s.sandboxes);
    && (code == LockTimeout <==> outcome == LockTimesOut)
    && (code == AlreadyInactive <==> outcome != LockTimesOut && id !in s.active && id !in s.sandboxes)
    && (code == Raised <==> tried && outcome == UpdateRaises)
    && (code == Success <==> tried && outcome != UpdateRaises)
    && (!tried ==> s' == s)
    && (tried ==> id !in s'.sandboxes && s'.sandboxes + {id} == s.sandboxes + {id})
    && (code == Success ==>
          && s'.active == s.active - {id}
          && s'.registry == if id in s.registry && outcome != UpdateFails then s.registry[id := to] else s.registry)
    && (code == Raised ==> s'.active == s.active && s'.registry == s.registry)
  }

  /** Activating and then deactivating undoes the activation, the load state apart. */
  lemma DeactivateUndoesActivate(s: State, id: QualifiedId, to: LoadState)
    requires id !in s.active && id !in s.sandboxes && id in s.registry
    ensures var s1 := Apply(s, Activate(id, BothSucceed));
      Apply(s1, Deactivate(id, to, BothSucceed)) == s.(registry := s.registry[id := to])
  {
  }

  // ---------- verify and repair ----------

  /** `verify_invariants` finds nothing: the three checks it makes. */
  predicate Verified(s: State) {
    && s.active <= s.sandboxes
    && s.sandboxes <= s.active
    && s.active <= ReadyVersions(s.registry)
  }

  /** It never looks at ready versions that are not active, so it vouches for consistency exactly when
      there are none. */
  lemma VerifiedMissesInactiveReady(s: State)
    ensures Consistent(s) <==> Verified(s) && ReadyVersions(s.registry) <= s.active
  {
  }

  function Repaired(s: State): State {
    var kept := s.active * s.sandboxes;
    State(WriteAll(s.registry, s.active - s.sandboxes, Failed), kept, kept)
  }

  /** From any state a repair makes the active set and the sandboxes equal, touches no version that had
      both, and is done once: it satisfies the verification exactly when those versions were ready. */
  lemma RepairRestores(s: State)
    ensures var r := Repaired(s);
      && r.active == r.sandboxes == s.active * s.sandboxes
      && Repaired(r) == r
      && (Verified(r) <==> s.active * s.sandboxes <= ReadyVersions(s.registry))
      && r.registry.Keys == s.registry.Keys
      && (forall id :: id in s.registry ==>
            r.registry[id] == if id in s.active && id !in s.sandboxes then Failed else s.registry[id])
      && (Consistent(s) ==> r == s)
  {
  }

  // ---------- the object ----------

  class ModelCoordinator {
    var registry: map<QualifiedId, LoadState>
    var sandboxes: set<QualifiedId>
    var active: set<QualifiedId>

    function View(): State
      reads this
    {
      State(registry, sandboxes, active)
    }

    constructor (registry: map<QualifiedId, LoadState>)
      ensures View() == State(registry, {}, {})
    {
      this.registry, sandboxes, active := registry, {}, {};
    }

    method UpdateState(id: QualifiedId, to: LoadState) returns (updated: bool)
      modifies this`registry
      ensures updated == (id in old(registry)) && registry == Write(old(registry), id, to)
    {
      updated := id in registry;
      if updated {
        registry := registry[id := to];
      }
    }

    method RemoveSandbox(id: QualifiedId) returns (removed: bool)
      modifies this`sandboxes
      ensures removed == (id in old(sandboxes)) && sandboxes == old(sandboxes) - {id}
    {
      removed := id in sandboxes;
      sandboxes := sandboxes - {id};
    }

    method ActivateModel(id: QualifiedId, outcome: Outcome) returns (code: ResultCode)
      modifies this
      ensures (code, View()) == Activation(old(View()), id, outcome)
      ensures ActivationAnswer(old(View()), id, outcome, code)
    {
      if outcome == LockTimesOut {
        return LockTimeout;
      }
      if id in active {
        if id in sandboxes {
          return AlreadyActive;
        }
      }
      if id !in registry {
        return VersionNotFound;
      }
      if outcome == CreationFails {
        return SandboxCreationFailed;
      }
      sandboxes := sandboxes + {id};
      if outcome == UpdateFails || outcome == UpdateRaises {
        var _ := RemoveSandbox(id);
        assert sandboxes == old(sandboxes) - {id};
        return if outcome == UpdateFails then InvalidStateTransition else Raised;
      }
      var _ := UpdateState(id, Ready);
      active := active + {id};
      return Success;
    }

    method DeactivateModel(id: QualifiedId, to: LoadState, outcome: Outcome) returns (code: ResultCode)
      modifies this
      ensures (code, View()) == Deactivation(old(View()), id, to, outcome)
      ensures DeactivationAnswer(old(View()), id, to, outcome, code, View())
    {
      if outcome == LockTimesOut {
        return LockTimeout;
      }
      if id !in active {
        if id !in sandboxes {
          return AlreadyInactive;
        }
      }
      var _ := RemoveSandbox(id);
      if outcome == UpdateRaises {
        return Raised;
      }
      if outcome != UpdateFails {
        var _ := UpdateState(id, to);
      }
      active := active - {id};
      return Success;
    }

    /** `get_ready_sandbox`: in a consistent state it finds exactly the active versions, and the removal it
        makes when the sandbox is missing never happens. */
    method GetReadySandbox(id: QualifiedId) returns (found: bool)
      modifies this`active
      ensures found <==> id in old(active) && id in ReadyVersions(registry) && id in sandboxes
      ensures active == if id in ReadyVersions(registry) && id !in sandboxes then old(active) - {id} else old(active)
      ensures old(Consistent(View())) ==> active == old(active) && (found <==> id in active)
    {
      if id !in active {
        return false;
      }
      if id !in registry || registry[id] != Ready {
        return false;
      }
      found := id in sandboxes;
      if !found {
        active := active - {id};
      }
    }

    method ShutdownAll()
      modifies this
      ensures View() == Apply(old(View()), Event.Shutdown)
      ensures active == {} && sandboxes == old(sandboxes) - old(active) && registry.Keys == old(registry).Keys
      ensures forall id :: id in registry ==> registry[id] == if id in old(active) then Unloaded else old(registry)[id]
    {
      var todo := active;
      while todo != {}
        invariant todo <= active == old(active)
        invariant sandboxes == old(sandboxes) - (active - todo)
        invariant registry == WriteAll(old(registry), active - todo, Unloaded)
        decreases |todo|
      {
        var id :| id in todo;
        var _ := RemoveSandbox(id);
        var _ := UpdateState(id, Unloaded);
        todo := todo - {id};
      }
      active := {};
    }

    method VerifyInvariants() returns (valid: bool)
      ensures valid == Verified(View())
    {
      valid := VerifyActive();
      var noOrphans := VerifySandboxes();
      valid := valid && noOrphans;
    }

    /** The loop over the active versions: state and sandbox. */
    method VerifyActive() returns (valid: bool)
      ensures valid == (active <= ReadyVersions(registry) && active <= sandboxes)
    {
      valid := true;
      var todo := active;
      while todo != {}
        invariant todo <= active
        invariant valid <==> forall id :: id in active - todo ==> id in ReadyVersions(registry) && id in sandboxes
        decreases |todo|
      {
        var id :| id in todo;
        if id !in registry {
          valid := false;
        } else if registry[id] != Ready {
          valid := false;
        }
        if id !in sandboxes {
          valid := false;
        }
        todo := todo - {id};
      }
    }

    /** The loop over the sandboxes: no orphans. */
    method VerifySandboxes() returns (valid: bool)
      ensures valid == (sandboxes <= active)
    {
      valid := true;
      var todo := sandboxes;
      while todo != {}
        invariant todo <= sandboxes
        invariant valid <==> forall id :: id in sandboxes - todo ==> id in active
        decreases |todo|
      {
        var id :| id in todo;
        if id !in active {
          valid := false;
        }
        todo := todo - {id};
      }
    }

    method RepairInvariants()
      modifies this
      ensures View() == Repaired(old(View()))
    {
      DropMissing();
      DropOrphans();
    }

    /** Active versions without a sandbox become inactive and failed. */
    method DropMissing()
      modifies this
      ensures active == old(active) * old(sandboxes) && sandboxes == old(sandboxes)
      ensures registry == WriteAll(old(registry), old(active) - sandboxes, Failed)
    {
      var todo := active;
      while todo != {}
        invariant todo <= active && sandboxes == old(sandboxes)
        invariant active == old(active) - ((old(active) - todo) - sandboxes)
        invariant registry == WriteAll(old(registry), (old(active) - todo) - sandboxes, Failed)
        decreases |todo|
      {
        var id :| id in todo;
        if id !in sandboxes {
          active := active - {id};
          var _ := UpdateState(id, Failed);
        }
        todo := todo - {id};
      }
    }

    /** Sandboxes of inactive versions are removed. */
    method DropOrphans()
      modifies this`sandboxes
      ensures sandboxes == old(sandboxes) * active
    {
      var todo := sandboxes;
      while todo != {}
        invariant todo <= sandboxes
        invariant sandboxes == old(sandboxes) - ((old(sandboxes) - todo) - active)
        decreases |todo|
      {
        var id :| id in todo;
        if id !in active {
          var _ := RemoveSandbox(id);
        }
        todo := todo - {id};
      }
    }
  }
}
