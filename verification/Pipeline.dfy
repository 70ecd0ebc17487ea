/**
  One inference request through the pipeline: its exits, its counters, and the admission slot it holds
  for the time of the execution.

  What validators, resolver, sandbox and response builders do is input: each stage accepts, refuses or
  raises. The admission manager is the one of `Admission`, its operations called for real.
*/
module Pipeline {
  import opened Prelude
  import opened Models
  import Admission
  import VersionResolver

  datatype Answer = Accepts | Refuses | Raises

  datatype Target = Target(version: Version, state: LoadState, health: HealthStatus)

  datatype Resolution = Found(target: Target) | NotFound | ResolverRaises

  datatype Execution = Succeeded | Failed | Threw

  datatype Request = Request(
    model: ModelId,
    frame: Answer,              // validate_frame_reference
    resolution: Resolution,     // _resolve_model_version
    contract: Answer,           // _validate_against_contract
    slotId: Admission.SlotId,   // the id a new slot would draw
    hasSandbox: bool,
    execution: Execution,       // sandbox.execute
    replyRaises: bool)          // building the response raises

  /** Where a request leaves the pipeline. */
  datatype Exit =
    | BadFrame
    | Unresolved
    | UnusableModel
    | BadContract
    | Rejected
    | NoSandbox
    | ExecutionFailed
    | ExecutionSucceeded
    | UnexpectedError

  // ---------- the checks ----------

  /** `_check_model_state` finds nothing wrong. */
  predicate Usable(t: Target, allowDegraded: bool) {
    && t.state == Ready
    && t.health != Unhealthy
    && (t.health == Degraded ==> allowDegraded)
  }

  /** The eligibility with which the pipeline asks the resolver. */
  function Eligibility(allowDegraded: bool, includePrerelease: bool): VersionResolver.EligibilityConfig {
    VersionResolver.EligibilityConfig(Ready, if allowDegraded then {Healthy, Degraded} else {Healthy},
                                      includePrerelease, None, None)
  }

  predicate Acceptable(t: Target, c: VersionResolver.EligibilityConfig) {
    t.state == c.requiredState && t.health in c.acceptableHealth
  }

  /** The second check accepts more than the resolver, by one status: unknown health. */
  lemma UsableIsEligibleOrUnknown(t: Target, allowDegraded: bool, includePrerelease: bool)
    ensures Usable(t, allowDegraded) <==>
            Acceptable(t, Eligibility(allowDegraded, includePrerelease)) || (t.state == Ready && t.health == Unknown)
  {
  }

  /** `resolve` on a model's versions: by name if there is one, else automatically. */
  function Resolve(versions: seq<VersionResolver.Descriptor>, requested: Option<string>,
                   c: VersionResolver.EligibilityConfig): Option<VersionResolver.Descriptor> {
    if requested.Some? && requested.value != "" then
      match VersionResolver.ResolveExplicit(versions, requested.value, c)
      case Resolved(d) => Some(d)
      case _ => None
    else VersionResolver.Pick(versions, VersionResolver.EligibleKey(c))
  }

  /** The target is the descriptor that the resolver returned, its state and health not changed since. */
  ghost predicate FromResolver(r: Request, versions: seq<VersionResolver.Descriptor>, requested: Option<string>,
                               c: VersionResolver.EligibilityConfig) {
    match r.resolution
    case Found(t) =>
      var d := Resolve(versions, requested, c);
      d.Some? && t.state == d.value.state && t.health == d.value.health
    case _ => true
  }

  lemma ResolvedIsAcceptable(versions: seq<VersionResolver.Descriptor>, requested: Option<string>,
                             c: VersionResolver.EligibilityConfig)
    requires Resolve(versions, requested, c).Some?
    ensures var d := Resolve(versions, requested, c).value;
      d in versions && d.state == c.requiredState && d.health in c.acceptableHealth
  {
    if requested.Some? && requested.value != "" {
      VersionResolver.LookupMember(versions, requested.value);
    } else {
      VersionResolver.EligibleKeysWellFormed(versions, c);
      VersionResolver.PickIsTop(versions, VersionResolver.EligibleKey(c));
    }
  }

  /** Behind the real resolver the sandbox runs only for one of the model's versions that is ready and
      healthy, or degraded where that is allowed. */
  lemma RunsOnlyAcceptable(r: Request, versions: seq<VersionResolver.Descriptor>, requested: Option<string>,
                           allowDegraded: bool, includePrerelease: bool, manager: Option<Admission.State>)
    requires FromResolver(r, versions, requested, Eligibility(allowDegraded, includePrerelease))
    requires Reaches(r, allowDegraded, manager)
    ensures var d := Resolve(versions, requested, Eligibility(allowDegraded, includePrerelease));
      && d.Some? && d.value in versions && d.value.state == Ready
      && (d.value.health == Healthy || (d.value.health == Degraded && allowDegraded))
    ensures Acceptable(r.resolution.target, Eligibility(allowDegraded, includePrerelease))
  {
    ResolvedIsAcceptable(versions, requested, Eligibility(allowDegraded, includePrerelease));
  }

  function AfterAdmission(r: Request): Exit {
    if !r.hasSandbox then NoSandbox
    else match r.execution
      case Succeeded => ExecutionSucceeded
      case Failed => ExecutionFailed
      case Threw => UnexpectedError
  }

  /** The exit, in the order of the stages; no manager means no admission control. */
  function ExitOf(r: Request, allowDegraded: bool, manager: Option<Admission.State>): Exit {
    if r.frame == Refuses then BadFrame
    else if r.frame == Raises then UnexpectedError
    else match r.resolution
      case NotFound => Unresolved
      case ResolverRaises => UnexpectedError
      case Found(t) =>
        if !Usable(t, allowDegraded) then UnusableModel
        else if r.contract == Refuses then BadContract
        else if r.contract == Raises then UnexpectedError
        else if manager.Some? && Admission.Refusal(manager.value, r.model, t.version).Some? then Rejected
        else AfterAdmission(r)
  }

  /** The sandbox runs: every check passed, admission did, and there is a sandbox. */
  predicate Reaches(r: Request, allowDegraded: bool, manager: Option<Admission.State>) {
    && r.frame == Accepts && r.resolution.Found? && Usable(r.resolution.target, allowDegraded)
    && r.contract == Accepts
    && (manager.Some? ==> Admission.Refusal(manager.value, r.model, r.resolution.target.version) == None)
    && r.hasSandbox
  }

  /** The admission manager, if there is one, refuses the resolved version. */
  predicate Refused(r: Request, manager: Option<Admission.State>) {
    manager.Some? && r.resolution.Found? && Admission.Refusal(manager.value, r.model, r.resolution.target.version).Some?
  }

  /** How a request that was let through ends. */
  predicate Ends(r: Request, exit: Exit, ran: bool) {
    && (ran <==> r.hasSandbox)
    && (exit == NoSandbox <==> !r.hasSandbox)
    && (exit == ExecutionSucceeded <==> r.hasSandbox && r.execution == Succeeded)
    && (exit == ExecutionFailed <==> r.hasSandbox && r.execution == Execution.Failed)
    && (exit == UnexpectedError <==> r.hasSandbox && r.execution == Threw)
  }

  /** The answer, exit by exit, from what the stages said: each exit belongs to the first stage that stops the
      request, and the last two to the execution. */
  predicate Answers(r: Request, allowDegraded: bool, refused: bool, exit: Exit, ran: bool) {
    var found := r.frame == Accepts && r.resolution.Found?;
    var usable := found
      && r.resolution.target.state == Ready
      && (r.resolution.target.health == Healthy || r.resolution.target.health == Unknown
          || (r.resolution.target.health == Degraded && allowDegraded));
    var admitted := usable && r.contract == Accepts && !refused;
    && (exit == BadFrame <==> r.frame == Refuses)
    && (exit == Unresolved <==> r.frame == Accepts && r.resolution == NotFound)
    && (exit == UnusableModel <==> found && !usable)
    && (exit == BadContract <==> usable && r.contract == Refuses)
    && (exit == Rejected <==> usable && r.contract == Accepts && refused)
    && (exit == NoSandbox <==> admitted && !r.hasSandbox)
    && (ran <==> admitted && r.hasSandbox)
    && (exit == ExecutionSucceeded <==> ran && r.execution == Succeeded)
    && (exit == ExecutionFailed <==> ran && r.execution == Execution.Failed)
    && (exit == UnexpectedError <==>
          || r.frame == Raises
          || (r.frame == Accepts && r.resolution == ResolverRaises)
          || (usable && r.contract == Raises)
          || (ran && r.execution == Threw))
  }

  lemma ExitAnswers(r: Request, allowDegraded: bool, manager: Option<Admission.State>)
    ensures Answers(r, allowDegraded, Refused(r, manager),
                    ExitOf(r, allowDegraded, manager), Reaches(r, allowDegraded, manager))
  {
  }

  /** The reply to a counted request raises, and the catch-all counts the request again. */
  predicate CountedTwice(r: Request, exit: Exit) {
    r.replyRaises && exit != UnexpectedError
  }

  // ---------- slots ----------

  predicate Has(s: Admission.State, m: ModelId) {
    m in s.models
  }

  /** The same slots are active: globally, per model and per version. */
  ghost predicate SameActivity(s: Admission.State, s': Admission.State) {
    && s'.globalActive == s.globalActive
    && Admission.Outstanding(s') == Admission.Outstanding(s)
    && forall m :: ModelActivity(s, s', m)
  }

  ghost predicate ModelActivity(s: Admission.State, s': Admission.State, m: ModelId) {
    && (Has(s, m) ==> Has(s', m))
    && (Has(s', m) ==>
          var before := if Has(s, m) then s.models[m] else Admission.NewModel(0);
          && s'.models[m].activeCount == before.activeCount
          && s'.models[m].activeSlots == before.activeSlots
          && forall v :: s'.models[m].VersionActive(v) == before.VersionActive(v))
  }

  /** The same with or without a manager. */
  ghost predicate KeepsActivity(before: Option<Admission.State>, after: Option<Admission.State>) {
    match (before, after)
    case (Some(s), Some(s')) => SameActivity(s, s')
    case (None, None) => true
    case _ => false
  }

  /** What every run of a manager keeps. */
  ghost predicate Sound(s: Admission.State) {
    Admission.ModelsCount(s) && s.globalActive >= 0
  }

  lemma SameAsItself(s: Admission.State)
    ensures SameActivity(s, s)
  {
  }

  lemma SlotIsFresh(s: Admission.State, m: ModelId, id: Admission.SlotId)
    requires Sound(s) && id !in s.tickets && Has(s, m)
    ensures id !in s.models[m].activeSlots && s.models[m].activeCount >= 0
    ensures forall v :: s.models[m].VersionActive(v) >= 0
  {
    assert Admission.ModelCounts(s.tickets, m, s.models[m]);
    forall v ensures s.models[m].VersionActive(v) >= 0 {
      assert Admission.VersionCounts(s.tickets, s.models[m], v);
    }
  }

  lemma RejectionKeepsActivity(s: Admission.State, m: ModelId, v: Version, id: Admission.SlotId)
    requires id !in s.tickets && Admission.Refusal(s, m, v).Some?
    ensures SameActivity(s, Admission.Apply(s, Admission.TryAcquire(m, v, id)))
  {
  }

  /** The state of one model after a slot was taken and given back. */
  lemma ModelRoundTrip(ms: Admission.ModelState, v: Version, id: Admission.SlotId)
    requires id !in ms.activeSlots && ms.activeCount >= 0 && ms.VersionActive(v) >= 0
    ensures var r := ms.Acquire(v, id).Release(v, id);
      && r.activeCount == ms.activeCount
      && r.activeSlots == ms.activeSlots
      && forall w :: r.VersionActive(w) == ms.VersionActive(w)
  {
  }

  lemma AcquiredTicket(s: Admission.State, m: ModelId, v: Version, id: Admission.SlotId)
    requires id !in s.tickets && Admission.Refusal(s, m, v) == None
    ensures var s1 := Admission.Apply(s, Admission.TryAcquire(m, v, id));
      id in s1.tickets && s1.tickets[id] == Admission.Ticket(m, v, false)
  {
  }

  /** The manager after a slot was taken and given back. */
  function RoundTrip(s: Admission.State, m: ModelId, v: Version, id: Admission.SlotId): Admission.State
    requires id !in s.tickets && Admission.Refusal(s, m, v) == None
  {
    Admission.Apply(Admission.Apply(s, Admission.TryAcquire(m, v, id)), Admission.Release(id))
  }

  lemma RoundTripState(s: Admission.State, m: ModelId, v: Version, id: Admission.SlotId)
    requires s.globalActive >= 0 && id !in s.tickets && Admission.Refusal(s, m, v) == None
    ensures var ms := if Has(s, m) then s.models[m] else Admission.NewModel(s.defaultLimit);
      var r := RoundTrip(s, m, v, id);
      && r.models == s.models[m := ms.Acquire(v, id).Release(v, id)]
      && r.globalActive == s.globalActive
      && r.tickets == s.tickets[id := Admission.Ticket(m, v, true)]
  {
  }

  /** A slot taken and released leaves every active count as it was. */
  lemma SlotRoundTrip(s: Admission.State, m: ModelId, v: Version, id: Admission.SlotId)
    requires Sound(s) && id !in s.tickets && Admission.Refusal(s, m, v) == None
    ensures SameActivity(s, RoundTrip(s, m, v, id)) && Sound(RoundTrip(s, m, v, id))
  {
    var s2 := RoundTrip(s, m, v, id);
    RoundTripState(s, m, v, id);
    Admission.ModelsCountStep(s, Admission.TryAcquire(m, v, id));
    Admission.ModelsCountStep(Admission.Apply(s, Admission.TryAcquire(m, v, id)), Admission.Release(id));
    if Has(s, m) {
      SlotIsFresh(s, m, id);
    }
    ModelRoundTrip(if Has(s, m) then s.models[m] else Admission.NewModel(s.defaultLimit), v, id);
    SameButOne(s, s2, m, id);
  }

  /** Only m was written, with the same activity, and only the released ticket of id was added. */
  lemma SameButOne(s: Admission.State, s': Admission.State, m: ModelId, id: Admission.SlotId)
    requires id !in s.tickets && id in s'.tickets && s'.tickets[id].released
    requires s'.tickets == s.tickets[id := s'.tickets[id]] && s'.globalActive == s.globalActive
    requires m in s'.models && s'.models == s.models[m := s'.models[m]] && ModelActivity(s, s', m)
    ensures SameActivity(s, s')
  {
    assert Admission.Outstanding(s') == Admission.Outstanding(s);
    forall k ensures ModelActivity(s, s', k) {
    }
  }

  /** The checks alone, then admission and execution, make up the exit. */
  function Checked(r: Request, allowDegraded: bool): Exit {
    ExitOf(r.(hasSandbox := true, execution := Succeeded), allowDegraded, None)
  }

  lemma ExitComposes(r: Request, allowDegraded: bool, manager: Option<Admission.State>)
    ensures Checked(r, allowDegraded) != ExecutionSucceeded ==>
      ExitOf(r, allowDegraded, manager) == Checked(r, allowDegraded) && !Reaches(r, allowDegraded, manager)
    ensures Checked(r, allowDegraded) == ExecutionSucceeded ==>
      && r.resolution.Found?
      && var refused := manager.Some? && Admission.Refusal(manager.value, r.model, r.resolution.target.version).Some?;
         && ExitOf(r, allowDegraded, manager) == (if refused then Rejected else AfterAdmission(r))
         && (Reaches(r, allowDegraded, manager) <==> !refused && r.hasSandbox)
  {
  }

  // ---------- the object ----------

  class InferencePipeline {
    const allowDegraded: bool
    const manager: Admission.ConcurrencyManager?
    var requests: int
    var successes: int
    var errors: int
    var rejected: int

    /** Every request was answered once, and every rejection is an error. */
    predicate Balanced()
      reads this
    {
      requests == successes + errors && rejected <= errors
    }

    ghost predicate ManagerReady()
      reads manager
      reads if manager == null then {} else manager.states
    {
      manager != null ==> manager.Valid() && Sound(manager.View())
    }

    ghost function ManagerView(): Option<Admission.State>
      requires ManagerReady()
      reads manager
      reads if manager == null then {} else manager.states
    {
      if manager == null then None else Some(manager.View())
    }

    constructor (allowDegraded: bool, manager: Admission.ConcurrencyManager?)
      ensures Balanced() && this.allowDegraded == allowDegraded && this.manager == manager
      ensures requests == 0 && successes == 0 && errors == 0 && rejected == 0
    {
      this.allowDegraded, this.manager := allowDegraded, manager;
      requests, successes, errors, rejected := 0, 0, 0, 0;
    }

    /** `infer`. On every exit the manager's active counts are what they were; the request is counted
        once as a success or an error, unless building the reply raises; a rejection is an error too;
        and the sandbox runs only for a ready version whose health the pipeline accepts. */
    method Infer(r: Request) returns (exit: Exit, ran: bool)
      requires ManagerReady()
      requires manager != null ==> r.slotId !in manager.tickets
      modifies this, manager
      modifies if manager == null then {} else manager.states
      ensures ManagerReady()
      ensures KeepsActivity(old(ManagerView()), ManagerView())
      ensures exit == ExitOf(r, allowDegraded, old(ManagerView()))
      ensures ran <==> Reaches(r, allowDegraded, old(ManagerView()))
      ensures Answers(r, allowDegraded, Refused(r, old(ManagerView())), exit, ran)
      ensures requests == old(requests) + 1
      ensures successes == old(successes) + (if exit == ExecutionSucceeded then 1 else 0)
      ensures errors == old(errors) + (if exit == ExecutionSucceeded then 0 else 1)
                                    + (if CountedTwice(r, exit) then 1 else 0)
      ensures rejected == old(rejected) + (if exit == Rejected then 1 else 0)
      ensures old(Balanced()) ==> (Balanced() <==> !CountedTwice(r, exit))
    {
      ExitAnswers(r, allowDegraded, ManagerView());
      requests := requests + 1;
      exit, ran := Serve(r);
      CountExit(r, exit);
    }

    /** Steps 1 to 7. */
    method Serve(r: Request) returns (exit: Exit, ran: bool)
      requires ManagerReady()
      requires manager != null ==> r.slotId !in manager.tickets
      modifies manager
      modifies if manager == null then {} else manager.states
      ensures ManagerReady()
      ensures KeepsActivity(old(ManagerView()), ManagerView())
      ensures exit == ExitOf(r, allowDegraded, old(ManagerView()))
      ensures ran <==> Reaches(r, allowDegraded, old(ManagerView()))
    {
      ExitComposes(r, allowDegraded, ManagerView());
      exit := Check(r);
      ran := false;
      if exit != ExecutionSucceeded {
        if manager != null {
          SameAsItself(manager.View());
        }
      } else if manager == null {
        exit, ran := RunSandbox(r);
      } else {
        exit, ran := Admit(r);
      }
    }

    /** Steps 5 to 7 with admission control, for a request that passed the checks. */
    method Admit(r: Request) returns (exit: Exit, ran: bool)
      requires manager != null && manager.Valid() && Sound(manager.View())
      requires r.resolution.Found? && r.slotId !in manager.tickets
      modifies manager, manager.states
      ensures manager.Valid() && Sound(manager.View()) && SameActivity(old(manager.View()), manager.View())
      ensures var refusal := Admission.Refusal(old(manager.View()), r.model, r.resolution.target.version);
        exit == (if refusal.Some? then Rejected else AfterAdmission(r)) && (ran <==> refusal == None && r.hasSandbox)
    {
      var version := r.resolution.target.version;
      ghost var before := manager.View();
      Admission.ModelsCountStep(before, Admission.TryAcquire(r.model, version, r.slotId));
      var reason := manager.TryAcquire(r.model, version, r.slotId);
      if reason.Some? {
        RejectionKeepsActivity(before, r.model, version, r.slotId);
        return Rejected, false;
      }
      exit, ran := RunWithSlot(r, version, before);
    }

    /** Steps 1 to 4: success here means that no check stopped the request. */
    method Check(r: Request) returns (exit: Exit)
      ensures exit == Checked(r, allowDegraded)
    {
      if r.frame != Accepts {
        return if r.frame == Refuses then BadFrame else UnexpectedError;
      }
      if !r.resolution.Found? {
        return if r.resolution.NotFound? then Unresolved else UnexpectedError;
      }
      var t := r.resolution.target;
      if t.state != Ready || t.health == Unhealthy || (t.health == Degraded && !allowDegraded) {
        return UnusableModel;
      }
      if r.contract != Accepts {
        return if r.contract == Refuses then BadContract else UnexpectedError;
      }
      return ExecutionSucceeded;
    }

    /** Steps 6 and 7. */
    method RunSandbox(r: Request) returns (exit: Exit, ran: bool)
      ensures exit == AfterAdmission(r) && Ends(r, exit, ran)
    {
      ran := r.hasSandbox;
      if !ran {
        return NoSandbox, false;
      }
      match r.execution
      case Succeeded => exit := ExecutionSucceeded;
      case Failed => exit := ExecutionFailed;
      case Threw => exit := UnexpectedError;
    }

    /** Steps 6 and 7 while a slot is held; the `finally` gives it back on every path. */
    method RunWithSlot(r: Request, version: Version, ghost before: Admission.State) returns (exit: Exit, ran: bool)
      requires manager != null && manager.Valid() && Sound(before)
      requires r.slotId !in before.tickets && Admission.Refusal(before, r.model, version) == None
      requires manager.View() == Admission.Apply(before, Admission.TryAcquire(r.model, version, r.slotId))
      modifies manager, manager.states
      ensures manager.Valid() && manager.states == old(manager.states)
      ensures Sound(manager.View()) && SameActivity(before, manager.View())
      ensures exit == AfterAdmission(r) && Ends(r, exit, ran)
    {
      AcquiredTicket(before, r.model, version, r.slotId);
      var slot := new Admission.ConcurrencySlot(manager, r.model, version, r.slotId);
      exit, ran := RunSandbox(r);
      slot.Release();
      SlotRoundTrip(before, r.model, version, r.slotId);
    }

    /** The counters of the exit, and of the catch-all when the reply raises. */
    method CountExit(r: Request, exit: Exit)
      modifies this`successes, this`errors, this`rejected
      ensures old(ManagerReady()) ==> ManagerReady() && ManagerView() == old(ManagerView())
      ensures successes == old(successes) + (if exit == ExecutionSucceeded then 1 else 0)
      ensures errors == old(errors) + (if exit == ExecutionSucceeded then 0 else 1)
                                    + (if CountedTwice(r, exit) then 1 else 0)
      ensures rejected == old(rejected) + (if exit == Rejected then 1 else 0)
    {
      if exit == Rejected {
        rejected := rejected + 1;
      }
      if exit == ExecutionSucceeded {
        successes := successes + 1;
      } else {
        errors := errors + 1;
      }
      if exit != UnexpectedError && r.replyRaises {
        errors := errors + 1;
      }
    }
  }
}
