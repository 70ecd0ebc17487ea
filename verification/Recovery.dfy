/**
  Failure isolation: one circuit breaker per model version, and the recovery manager that keeps the
  registry's load states in step with it.

  Every operation reads the monotonic clock once; `now` is that reading. Persistence is off.
*/
module Recovery {
  import opened Prelude
  import opened Models

  datatype CircuitState = Closed | Open | HalfOpen

  datatype FailureType = ExecutionError | Timeout | HealthDegradation | UnhealthyTransition

  datatype DisablementReason =
    | RepeatedFailures
    | SustainedUnhealthy
    | CooldownExhausted

  datatype Policy = Policy(
    failureThreshold: int,
    unhealthyThreshold: int,
    timeoutThreshold: int,
    window: real,
    cooldown: real,
    minInterval: real,
    maxAttempts: int,
    halfOpenSuccesses: int)

  datatype Failure = Failure(kind: FailureType, time: real)

  datatype Circuit = Circuit(
    state: CircuitState,
    failures: seq<Failure>,
    unhealthy: int,
    timeouts: int,
    attempts: int,
    lastAttempt: Option<real>,
    disabledAt: Option<real>,
    reason: Option<DisablementReason>,
    halfOpenStarted: Option<real>,
    successes: int)

  const NEW_CIRCUIT := Circuit(Closed, [], 0, 0, 0, None, None, None, None, 0)

  // ---------- one circuit ----------

  function After(fs: seq<Failure>, cutoff: real): seq<Failure> {
    if fs == [] then []
    else (if fs[0].time > cutoff then [fs[0]] else []) + After(fs[1..], cutoff)
  }

  /** `CircuitBreakerState.record_failure`: append, prune, count. */
  function Recorded(c: Circuit, f: Failure, p: Policy): Circuit {
    c.(failures := After(c.failures + [f], f.time - p.window),
       timeouts := if f.kind == Timeout then c.timeouts + 1 else 0,
       unhealthy := if f.kind == UnhealthyTransition then c.unhealthy + 1 else c.unhealthy)
  }

  /** `_check_disable_criteria`, in the order of its tests. */
  function Criteria(c: Circuit, p: Policy): Option<DisablementReason> {
    if |c.failures| >= p.failureThreshold then Some(RepeatedFailures)
    else if c.unhealthy >= p.unhealthyThreshold then Some(SustainedUnhealthy)
    else if c.timeouts >= p.timeoutThreshold then Some(RepeatedFailures)
    else if c.attempts >= p.maxAttempts then Some(CooldownExhausted)
    else None
  }

  function Faulted(c: Circuit, f: Failure, p: Policy): Circuit {
    if c.state == Open then c
    else
      var r := Recorded(c, f, p);
      match Criteria(r, p)
      case None => r
      case Some(reason) => r.(state := Open, disabledAt := Some(f.time), reason := Some(reason))
  }

  function ClosedAgain(c: Circuit): Circuit {
    c.(state := Closed, failures := [], unhealthy := 0, timeouts := 0,
       halfOpenStarted := None, successes := 0, disabledAt := None, reason := None)
  }

  function Succeeded(c: Circuit, p: Policy): Circuit {
    var r := c.(timeouts := 0, successes := if c.state == HalfOpen then c.successes + 1 else c.successes);
    if r.state == HalfOpen && r.successes >= p.halfOpenSuccesses then ClosedAgain(r) else r
  }

  predicate CanAttempt(c: Circuit, now: real, p: Policy) {
    && c.state == Open
    && c.attempts < p.maxAttempts
    && (c.lastAttempt.Some? ==> now - c.lastAttempt.value >= p.minInterval)
    && (c.disabledAt.Some? ==> now - c.disabledAt.value >= p.cooldown)
  }

  function Prepared(c: Circuit, now: real): Circuit {
    c.(state := HalfOpen, halfOpenStarted := Some(now), successes := 0,
       attempts := c.attempts + 1, lastAttempt := Some(now))
  }

  function Aborted(c: Circuit): Circuit {
    if c.state == HalfOpen then c.(state := Open, halfOpenStarted := None, successes := 0) else c
  }

  function ForceClosed(c: Circuit): Circuit {
    ClosedAgain(c).(attempts := 0)
  }

  // ---------- the trace of a circuit since it was last closed ----------

  datatype Outcome = Fault(failure: Failure) | Success

  datatype CircuitEvent =
    | Fail(failure: Failure)
    | Succeed
    | Prepare(now: real)
    | Abort
    | ForceClose
    | Forget

  function Next(c: Circuit, e: CircuitEvent, p: Policy): Circuit {
    match e
    case Fail(f) => Faulted(c, f, p)
    case Succeed => Succeeded(c, p)
    case Prepare(now) => if c.state == Open then Prepared(c, now) else c
    case Abort => Aborted(c)
    case ForceClose => ForceClosed(c)
    case Forget => NEW_CIRCUIT
  }

  /** What was recorded since the circuit was last closed or created; an open circuit records no failure. */
  function Traced(trace: seq<Outcome>, c: Circuit, e: CircuitEvent, p: Policy): seq<Outcome> {
    match e
    case Fail(f) => if c.state == Open then trace else trace + [Fault(f)]
    case Succeed => if c.state == HalfOpen && Next(c, e, p).state == Closed then [] else trace + [Success]
    case ForceClose => []
    case Forget => []
    case _ => trace
  }

  function Faults(trace: seq<Outcome>): seq<Failure> {
    if trace == [] then []
    else Faults(trace[..|trace| - 1]) + (match trace[|trace| - 1] case Fault(f) => [f] case Success => [])
  }

  /** The length of the run of timeouts the trace ends in. */
  function TrailingTimeouts(trace: seq<Outcome>): nat {
    if trace == [] then 0
    else match trace[|trace| - 1]
      case Fault(Failure(Timeout, _)) => TrailingTimeouts(trace[..|trace| - 1]) + 1
      case _ => 0
  }

  function UnhealthyCount(fs: seq<Failure>): nat {
    if fs == [] then 0
    else UnhealthyCount(fs[..|fs| - 1]) + (if fs[|fs| - 1].kind == UnhealthyTransition then 1 else 0)
  }

  /** The failures of the trace that lie in the window ending at its latest failure. */
  function InWindow(fs: seq<Failure>, window: real): seq<Failure> {
    if fs == [] then [] else After(fs, fs[|fs| - 1].time - window)
  }

  lemma {:induction false} AfterExactly(fs: seq<Failure>, cutoff: real, f: Failure)
    ensures multiset(After(fs, cutoff))[f] == if f.time > cutoff then multiset(fs)[f] else 0
  {
    if fs == [] {
    } else {
      AfterExactly(fs[1..], cutoff, f);
      assert fs == [fs[0]] + fs[1..];
      assert multiset(fs) == multiset{fs[0]} + multiset(fs[1..]);
    }
  }

  /** Each failure of the trace is in the window as often as it occurs, exactly if it is later than the latest
      less the length of the window. */
  lemma InWindowExactly(fs: seq<Failure>, window: real, f: Failure)
    requires fs != []
    ensures multiset(InWindow(fs, window))[f] ==
      if f.time > fs[|fs| - 1].time - window then multiset(fs)[f] else 0
  {
    AfterExactly(fs, fs[|fs| - 1].time - window, f);
  }

  /** The fields kept step by step are the values the whole trace defines. */
  predicate Tracks(c: Circuit, trace: seq<Outcome>, p: Policy) {
    && c.failures == InWindow(Faults(trace), p.window)
    && c.timeouts == TrailingTimeouts(trace)
    && c.unhealthy == UnhealthyCount(Faults(trace))
  }

  /** The clock does not go back: the event is no earlier than the latest recorded failure. */
  predicate ClockForward(trace: seq<Outcome>, e: CircuitEvent) {
    e.Fail? && Faults(trace) != [] ==> Faults(trace)[|Faults(trace)| - 1].time <= e.failure.time
  }

  lemma {:induction false} AfterAppend(a: seq<Failure>, b: seq<Failure>, cutoff: real)
    ensures After(a + b, cutoff) == After(a, cutoff) + After(b, cutoff)
  {
    if a == [] {
      assert a + b == b;
    } else {
      assert (a + b)[1..] == a[1..] + b;
      AfterAppend(a[1..], b, cutoff);
    }
  }

  /** Pruning at an earlier cutoff first changes nothing. */
  lemma {:induction false} AfterAfter(fs: seq<Failure>, early: real, late: real)
    requires early <= late
    ensures After(After(fs, early), late) == After(fs, late)
  {
    if fs == [] {
    } else {
      AfterAfter(fs[1..], early, late);
      AfterAppend(if fs[0].time > early then [fs[0]] else [], After(fs[1..], early), late);
    }
  }

  lemma TraceSnoc(trace: seq<Outcome>, o: Outcome)
    ensures Faults(trace + [o]) == (if o.Fault? then Faults(trace) + [o.failure] else Faults(trace))
    ensures TrailingTimeouts(trace + [o]) ==
            if o.Fault? && o.failure.kind == Timeout then TrailingTimeouts(trace) + 1 else 0
    ensures o.Fault? ==>
      UnhealthyCount(Faults(trace + [o])) ==
      UnhealthyCount(Faults(trace)) + if o.failure.kind == UnhealthyTransition then 1 else 0
  {
  }

  /** Pruning the window at a later cutoff is pruning the whole list there. */
  lemma PruneWindow(fs: seq<Failure>, window: real, cutoff: real)
    requires fs != [] ==> fs[|fs| - 1].time - window <= cutoff
    ensures After(InWindow(fs, window), cutoff) == After(fs, cutoff)
  {
    if fs != [] {
      AfterAfter(fs, fs[|fs| - 1].time - window, cutoff);
    }
  }

  /** Appending a failure and pruning what is kept gives the window of the whole trace. */
  lemma WindowSnoc(fs: seq<Failure>, f: Failure, window: real)
    requires fs != [] ==> fs[|fs| - 1].time <= f.time
    ensures After(InWindow(fs, window) + [f], f.time - window) == InWindow(fs + [f], window)
  {
    var cutoff, kept := f.time - window, InWindow(fs, window);
    AfterAppend(kept, [f], cutoff);
    PruneWindow(fs, window, cutoff);
    AfterAppend(fs, [f], cutoff);
    WindowOfSnoc(fs, f, window);
  }

  lemma WindowOfSnoc(fs: seq<Failure>, f: Failure, window: real)
    ensures InWindow(fs + [f], window) == After(fs + [f], f.time - window)
  {
    assert (fs + [f])[|fs|] == f;
  }

  lemma TracksFault(c: Circuit, trace: seq<Outcome>, f: Failure, p: Policy)
    requires Tracks(c, trace, p) && ClockForward(trace, Fail(f))
    ensures Tracks(Recorded(c, f, p), trace + [Fault(f)], p)
  {
    TraceSnoc(trace, Fault(f));
    WindowSnoc(Faults(trace), f, p.window);
  }

  /** Opening or closing on an event keeps the counted fields, or clears them. */
  lemma CountedFields(c: Circuit, e: CircuitEvent, p: Policy)
    ensures var n := Next(c, e, p);
      match e
      case Fail(f) =>
        c.state != Open ==>
          var r := Recorded(c, f, p);
          n.failures == r.failures && n.timeouts == r.timeouts && n.unhealthy == r.unhealthy
      case Succeed =>
        if c.state == HalfOpen && n.state == Closed then n.failures == [] && n.timeouts == 0 && n.unhealthy == 0
        else n.failures == c.failures && n.timeouts == 0 && n.unhealthy == c.unhealthy
      case ForceClose => n.failures == [] && n.timeouts == 0 && n.unhealthy == 0
      case Forget => n.failures == [] && n.timeouts == 0 && n.unhealthy == 0
      case _ => n.failures == c.failures && n.timeouts == c.timeouts && n.unhealthy == c.unhealthy
  {
  }

  lemma TracksStep(c: Circuit, trace: seq<Outcome>, e: CircuitEvent, p: Policy)
    requires Tracks(c, trace, p) && ClockForward(trace, e)
    ensures Tracks(Next(c, e, p), Traced(trace, c, e, p), p)
  {
    CountedFields(c, e, p);
    match e
    case Fail(f) =>
      if c.state != Open {
        TracksFault(c, trace, f, p);
      }
    case Succeed => TraceSnoc(trace, Success);
    case _ =>
  }

  /** The circuit opens on a failure exactly when the trace, that failure included, meets a criterion:
      enough failures in the window, enough unhealthy transitions, a long enough run of timeouts, or no
      recovery attempts left. It remembers the time of that failure and the first criterion met. */
  lemma OpensExactlyOnTheTrace(c: Circuit, trace: seq<Outcome>, f: Failure, p: Policy)
    requires Tracks(c, trace, p) && ClockForward(trace, Fail(f)) && c.state != Open
    ensures var t, c' := trace + [Fault(f)], Next(c, Fail(f), p);
      var many := |InWindow(Faults(t), p.window)| >= p.failureThreshold;
      var unhealthy := UnhealthyCount(Faults(t)) >= p.unhealthyThreshold;
      var timeouts := TrailingTimeouts(t) >= p.timeoutThreshold;
      && (c'.state == Open <==> many || unhealthy || timeouts || c.attempts >= p.maxAttempts)
      && (c'.state == Open ==>
            && c'.disabledAt == Some(f.time)
            && c'.reason == Some(if many then RepeatedFailures
                                 else if unhealthy then SustainedUnhealthy
                                 else if timeouts then RepeatedFailures
                                 else CooldownExhausted))
      && (c'.state != Open ==>
            && c'.state == c.state && c'.disabledAt == c.disabledAt
            && c'.reason == c.reason && c'.successes == c.successes)
  {
    TracksFault(c, trace, f, p);
    OpensOnCriteria(c, f, p);
  }

  lemma OpensOnCriteria(c: Circuit, f: Failure, p: Policy)
    requires c.state != Open
    ensures var r, c' := Recorded(c, f, p), Next(c, Fail(f), p);
      var many, unhealthy := |r.failures| >= p.failureThreshold, r.unhealthy >= p.unhealthyThreshold;
      && (c'.state == Open <==> many || unhealthy || r.timeouts >= p.timeoutThreshold || r.attempts >= p.maxAttempts)
      && (c'.state == Open ==>
            && c'.disabledAt == Some(f.time)
            && c'.reason == Some(if many then RepeatedFailures
                                 else if unhealthy then SustainedUnhealthy
                                 else if r.timeouts >= p.timeoutThreshold then RepeatedFailures
                                 else CooldownExhausted))
      && (c'.state != Open ==>
            && c'.state == c.state && c'.disabledAt == c.disabledAt
            && c'.reason == c.reason && c'.successes == c.successes)
  {
  }

  predicate BelowThresholds(c: Circuit, p: Policy) {
    c.state == Closed ==>
      && |c.failures| < p.failureThreshold
      && c.unhealthy < p.unhealthyThreshold
      && c.timeouts < p.timeoutThreshold
  }

  ghost predicate ClockForwardRun(c: Circuit, trace: seq<Outcome>, events: seq<CircuitEvent>, p: Policy)
    decreases |events|
  {
    events == [] ||
    (ClockForward(trace, events[0]) &&
     ClockForwardRun(Next(c, events[0], p), Traced(trace, c, events[0], p), events[1..], p))
  }

  function CircuitAfter(c: Circuit, events: seq<CircuitEvent>, p: Policy): Circuit
    decreases |events|
  {
    if events == [] then c else CircuitAfter(Next(c, events[0], p), events[1..], p)
  }

  function TraceAfter(c: Circuit, trace: seq<Outcome>, events: seq<CircuitEvent>, p: Policy): seq<Outcome>
    decreases |events|
  {
    if events == [] then trace
    else TraceAfter(Next(c, events[0], p), Traced(trace, c, events[0], p), events[1..], p)
  }

  lemma {:induction false} TracksRun(c: Circuit, trace: seq<Outcome>, events: seq<CircuitEvent>, p: Policy)
    requires Tracks(c, trace, p) && ClockForwardRun(c, trace, events, p)
    ensures Tracks(CircuitAfter(c, events, p), TraceAfter(c, trace, events, p), p)
    decreases |events|
  {
    if events == [] {
    } else {
      TracksStep(c, trace, events[0], p);
      TracksRun(Next(c, events[0], p), Traced(trace, c, events[0], p), events[1..], p);
    }
  }

  predicate PositiveThresholds(p: Policy) {
    p.failureThreshold >= 1 && p.unhealthyThreshold >= 1 && p.timeoutThreshold >= 1
  }

  lemma {:induction false} BelowRun(c: Circuit, events: seq<CircuitEvent>, p: Policy)
    requires BelowThresholds(c, p) && PositiveThresholds(p)
    ensures BelowThresholds(CircuitAfter(c, events, p), p)
    decreases |events|
  {
    if events == [] {
    } else {
      BelowRun(Next(c, events[0], p), events[1..], p);
    }
  }

  // ---------- the half-open phase ----------

  function Successes(events: seq<CircuitEvent>): nat
    decreases |events|
  {
    if events == [] then 0 else (if events[0].Succeed? then 1 else 0) + Successes(events[1..])
  }

  /** Nobody aborts the recovery, closes the circuit by force or removes it. */
  predicate LeftAlone(events: seq<CircuitEvent>) {
    forall i :: 0 <= i < |events| ==> !events[i].Abort? && !events[i].ForceClose? && !events[i].Forget?
  }

  /** No failure opens the circuit on the way. */
  ghost predicate NeverOpen(c: Circuit, events: seq<CircuitEvent>, p: Policy)
    decreases |events|
  {
    c.state != Open && (events == [] || NeverOpen(Next(c, events[0], p), events[1..], p))
  }

  lemma {:induction false} ClosedStays(c: Circuit, events: seq<CircuitEvent>, p: Policy)
    requires c.state == Closed && NeverOpen(c, events, p) && LeftAlone(events)
    ensures CircuitAfter(c, events, p).state == Closed
    decreases |events|
  {
    if events == [] {
    } else {
      assert !events[0].Abort? && !events[0].ForceClose? && !events[0].Forget?;
      ClosedStays(Next(c, events[0], p), events[1..], p);
    }
  }

  lemma HalfOpenStep(c: Circuit, e: CircuitEvent, p: Policy)
    requires c.state == HalfOpen && !e.Abort? && !e.ForceClose? && !e.Forget? && Next(c, e, p).state != Open
    ensures var n, c' := c.successes + (if e.Succeed? then 1 else 0), Next(c, e, p);
      if e.Succeed? && n >= p.halfOpenSuccesses then c'.state == Closed && c'.failures == []
      else c'.state == HalfOpen && c'.successes == n
  {
  }

  lemma {:induction false} HalfOpenRun(c: Circuit, events: seq<CircuitEvent>, p: Policy)
    requires c.state == HalfOpen && 0 <= c.successes < Max(1, p.halfOpenSuccesses)
    requires NeverOpen(c, events, p) && LeftAlone(events)
    ensures var n, c' := c.successes + Successes(events), CircuitAfter(c, events, p);
      if n >= Max(1, p.halfOpenSuccesses) then c'.state == Closed
      else c'.state == HalfOpen && c'.successes == n
    decreases |events|
  {
    if events == [] {
    } else {
      var e, rest := events[0], events[1..];
      assert !e.Abort? && !e.ForceClose? && !e.Forget?;
      HalfOpenStep(c, e, p);
      if Next(c, e, p).state == Closed {
        ClosedStays(Next(c, e, p), rest, p);
      } else {
        HalfOpenRun(Next(c, e, p), rest, p);
      }
    }
  }

  /** From its preparation on, as long as no failure reopens the circuit and nobody interferes, a recovery
      counts its successes, and it closes the circuit exactly when there are enough of them; a policy that
      asks for none is satisfied by the first. */
  lemma HalfOpenClosesExactly(c: Circuit, now: real, events: seq<CircuitEvent>, p: Policy)
    requires c.state == Open && LeftAlone(events)
    requires NeverOpen(Next(c, Prepare(now), p), events, p)
    ensures var c', n := CircuitAfter(c, [Prepare(now)] + events, p), Successes(events);
      && (c'.state == Closed <==> n >= Max(1, p.halfOpenSuccesses))
      && (c'.state != Closed ==> c'.state == HalfOpen && c'.successes == n)
      && c'.attempts == c.attempts + 1 && c'.lastAttempt == Some(now)
  {
    assert ([Prepare(now)] + events)[1..] == events;
    HalfOpenRun(Next(c, Prepare(now), p), events, p);
    AttemptsKept(Next(c, Prepare(now), p), events, p);
  }

  lemma {:induction false} AttemptsKept(c: Circuit, events: seq<CircuitEvent>, p: Policy)
    requires NeverOpen(c, events, p) && LeftAlone(events)
    ensures var c' := CircuitAfter(c, events, p); c'.attempts == c.attempts && c'.lastAttempt == c.lastAttempt
    decreases |events|
  {
    if events == [] {
    } else {
      assert !events[0].Abort? && !events[0].ForceClose? && !events[0].Forget?;
      AttemptsKept(Next(c, events[0], p), events[1..], p);
    }
  }

  // ---------- breaker and registry ----------

  datatype Stack = Stack(circuits: map<QualifiedId, Circuit>, registry: map<QualifiedId, LoadState>)

  datatype Event =
    | RecordFailure(id: QualifiedId, kind: FailureType, now: real)
    | RecordSuccess(id: QualifiedId, now: real)
    | Disable(id: QualifiedId, now: real)
    | Enable(id: QualifiedId, force: bool, now: real, written: bool)  // whether `update_state` finds the version
    | LoadFailed(id: QualifiedId, now: real)
    | ForceCloseCircuit(id: QualifiedId, now: real)
    | RemoveState(id: QualifiedId, now: real)
    // the rest of the runtime writing the registry
    | SetState(id: QualifiedId, to: LoadState, now: real)
    | RegisterVersion(id: QualifiedId, to: LoadState, now: real)
    | UnregisterVersion(id: QualifiedId, now: real)

  function CircuitOf(s: Stack, id: QualifiedId): Circuit {
    if id in s.circuits then s.circuits[id] else NEW_CIRCUIT
  }

  predicate IsOpen(s: Stack, id: QualifiedId) {
    id in s.circuits && s.circuits[id].state == Open
  }

  /** `disable_model`: every path of it leaves a registered version disabled. */
  function Disabling(s: Stack, id: QualifiedId): Stack {
    if id in s.registry then s.(registry := s.registry[id := Disabled]) else s
  }

  /** `record_failure` with the callback wired to `disable_model`. */
  function FailureRecorded(s: Stack, id: QualifiedId, f: Failure, p: Policy): Stack {
    var c := CircuitOf(s, id);
    var c' := Faulted(c, f, p);
    var s' := s.(circuits := s.circuits[id := c']);
    if c.state != Open && c'.state == Open then Disabling(s', id) else s'
  }

  /** The guards of `enable_model`. */
  predicate EnableAllowed(s: Stack, id: QualifiedId, force: bool, now: real, p: Policy) {
    && id in s.registry && s.registry[id] == Disabled
    && (force || (id in s.circuits && CanAttempt(s.circuits[id], now, p)))
  }

  /** What the guards let through does to the circuit: a recovery, aborted again if the registry no longer
      has the version, or a forced closing, which the abort does not undo. */
  function Reopened(s: Stack, id: QualifiedId, force: bool, now: real, written: bool): map<QualifiedId, Circuit> {
    if id !in s.circuits then s.circuits
    else if force then s.circuits[id := ForceClosed(s.circuits[id])]
    else if written then s.circuits[id := Prepared(s.circuits[id], now)]
    else s.circuits[id := Aborted(Prepared(s.circuits[id], now))]
  }

  lemma AbortedReopening(s: Stack, id: QualifiedId, force: bool, now: real)
    ensures var r := Reopened(s, id, force, now, true);
      Reopened(s, id, force, now, false) == if id in r then r[id := Aborted(r[id])] else r
  {
  }

  function Enabled(s: Stack, id: QualifiedId, force: bool, now: real, written: bool, p: Policy): Stack {
    if !EnableAllowed(s, id, force, now, p) then s
    else Stack(Reopened(s, id, force, now, written), if written then s.registry[id := Discovered] else s.registry)
  }

  function Apply(s: Stack, e: Event, p: Policy): Stack {
    match e
    case RecordFailure(id, kind, now) => FailureRecorded(s, id, Failure(kind, now), p)
    case RecordSuccess(id, _) => s.(circuits := s.circuits[id := Succeeded(CircuitOf(s, id), p)])
    case Disable(id, _) => Disabling(s, id)
    case Enable(id, force, now, written) => Enabled(s, id, force, now, written, p)
    case LoadFailed(id, _) =>
      Disabling(if id in s.circuits then s.(circuits := s.circuits[id := Aborted(s.circuits[id])]) else s, id)
    case ForceCloseCircuit(id, _) =>
      if id in s.circuits then s.(circuits := s.circuits[id := ForceClosed(s.circuits[id])]) else s
    case RemoveState(id, _) => s.(circuits := s.circuits - {id})
    case SetState(id, to, _) => if id in s.registry then s.(registry := s.registry[id := to]) else s
    case RegisterVersion(id, to, _) => s.(registry := s.registry[id := to])
    case UnregisterVersion(id, _) => s.(registry := s.registry - {id})
  }

  function StackAfter(s: Stack, events: seq<Event>, p: Policy): Stack
    decreases |events|
  {
    if events == [] then s else StackAfter(Apply(s, events[0], p), events[1..], p)
  }

  // ---------- agreement ----------

  /** A registered version whose circuit is open is disabled. */
  ghost predicate Agree(s: Stack) {
    forall id :: IsOpen(s, id) && id in s.registry ==> s.registry[id] == Disabled
  }

  /** Somebody else gives a version with an open circuit a state other than disabled. */
  predicate Overwrites(s: Stack, e: Event) {
    && (e.RegisterVersion? || (e.SetState? && e.id in s.registry))
    && e.to != Disabled
    && IsOpen(s, e.id)
  }

  /** The recovery operations keep breaker and registry in agreement; only a write to the registry from
      outside, over a version whose circuit is open, breaks it, and it always does. */
  lemma AgreeStep(s: Stack, e: Event, p: Policy)
    requires Agree(s)
    ensures Agree(Apply(s, e, p)) <==> !Overwrites(s, e)
  {
    var s' := Apply(s, e, p);
    if Overwrites(s, e) {
      assert IsOpen(s', e.id) && e.id in s'.registry;
    } else {
      forall id | IsOpen(s', id) && id in s'.registry ensures s'.registry[id] == Disabled {
        if id != e.id {
          assert IsOpen(s, id);
        } else if id in s.circuits {
          assert s.circuits[id].state == Open ==> IsOpen(s, id);
        }
      }
    }
  }

  /** How the rest of the runtime treats the registry: only the recovery manager moves a version out of
      the disabled state, and a version is registered once, with no open circuit left from an earlier one. */
  predicate Disciplined(s: Stack, e: Event) {
    match e
    case SetState(id, to, _) => id in s.registry ==> s.registry[id] != Disabled
    case RegisterVersion(id, _, _) => id !in s.registry && !IsOpen(s, id)
    case _ => true
  }

  ghost predicate DisciplinedRun(s: Stack, events: seq<Event>, p: Policy)
    decreases |events|
  {
    events == [] || (Disciplined(s, events[0]) && DisciplinedRun(Apply(s, events[0], p), events[1..], p))
  }

  /** Under this discipline breaker and registry agree in every run. */
  lemma {:induction false} AgreeRun(s: Stack, events: seq<Event>, p: Policy)
    requires Agree(s) && DisciplinedRun(s, events, p)
    ensures Agree(StackAfter(s, events, p))
    decreases |events|
  {
    if events == [] {
    } else {
      AgreeStep(s, events[0], p);
      AgreeRun(Apply(s, events[0], p), events[1..], p);
    }
  }

  /** `enable_model`: a success moves circuit and registry together. A refusal leaves both as they were
      exactly when a guard refused, or the closing was forced and had nothing to close: when the registry
      loses the version after the guards, an attempt stays counted or the circuit stays closed. */
  lemma EnableIsAtomic(s: Stack, id: QualifiedId, force: bool, now: real, written: bool, p: Policy)
    ensures var s' := Apply(s, Enable(id, force, now, written), p);
      && s'.circuits - {id} == s.circuits - {id}
      && if EnableAllowed(s, id, force, now, p) && written then
           && s'.registry == s.registry[id := Discovered]
           && (!force ==> id in s'.circuits && s'.circuits[id].state == HalfOpen)
           && (force ==> !IsOpen(s', id) && CircuitOf(s', id).attempts == 0)
         else
           && s'.registry == s.registry
           && (s' == s <==>
                 || !EnableAllowed(s, id, force, now, p)
                 || (force && CircuitOf(s, id) == ForceClosed(CircuitOf(s, id))))
           && (s' != s && !force ==>
                 && CircuitOf(s', id) == CircuitOf(s, id).(attempts := CircuitOf(s, id).attempts + 1,
                       lastAttempt := Some(now), halfOpenStarted := None, successes := 0))
           && (s' != s && force ==> CircuitOf(s', id).state == Closed)
  {
    if id in s.circuits && ForceClosed(s.circuits[id]) == s.circuits[id] {
      assert s.circuits[id := ForceClosed(s.circuits[id])] == s.circuits;
    }
    var s' := Apply(s, Enable(id, force, now, written), p);
    if id in s.circuits {
      assert s'.circuits == s.circuits[id := s'.circuits[id]];
    }
  }

  /** `can_recover`, whose answer is advisory. */
  predicate Recoverable(s: Stack, id: QualifiedId, now: real, p: Policy) {
    && id in s.registry && s.registry[id] == Disabled
    && (id !in s.circuits || CanAttempt(s.circuits[id], now, p))
  }

  /** The advice is right unless the version has no circuit: then it says yes and `enable_model`,
      unless forced, refuses, whatever the time. */
  lemma CanRecoverIsOptimistic(s: Stack, id: QualifiedId, now: real, p: Policy)
    ensures (Recoverable(s, id, now, p) <==> EnableAllowed(s, id, false, now, p)) <==>
      !(id in s.registry && s.registry[id] == Disabled && id !in s.circuits)
  {
  }

  /** A version disabled by hand can be enabled without force at some later time exactly when its circuit
      happens to be open with attempts left; otherwise time never lets an unforced request through. */
  lemma ManualDisableNeedsForce(s: Stack, id: QualifiedId, now: real, p: Policy)
    requires id in s.registry
    ensures var s' := Apply(s, Disable(id, now), p);
      && (forall later :: EnableAllowed(s', id, true, later, p))
      && ((exists later :: EnableAllowed(s', id, false, later, p)) <==>
            IsOpen(s, id) && s.circuits[id].attempts < p.maxAttempts)
  {
    var s' := Apply(s, Disable(id, now), p);
    if IsOpen(s, id) && s.circuits[id].attempts < p.maxAttempts {
      var c := s.circuits[id];
      var interval := if c.lastAttempt.Some? then c.lastAttempt.value + p.minInterval else now;
      var cooldown := if c.disabledAt.Some? then c.disabledAt.value + p.cooldown else now;
      assert EnableAllowed(s', id, false, if interval < cooldown then cooldown else interval, p);
    }
  }

  /** A recovery whose load fails serves no second cooldown: the circuit is open again as of the old
      time, and the next unforced request is let through as soon as the minimum interval has passed. */
  lemma FailedLoadServesNoCooldown(s: Stack, id: QualifiedId, now: real, failed: real, later: real, p: Policy)
    requires EnableAllowed(s, id, false, now, p) && now <= later
    ensures var s1 := Apply(s, Enable(id, false, now, true), p);
      var s2 := Apply(s1, LoadFailed(id, failed), p);
      && IsOpen(s2, id) && s2.registry[id] == Disabled
      && s2.circuits[id].disabledAt == s.circuits[id].disabledAt
      && (EnableAllowed(s2, id, false, later, p) <==>
            s.circuits[id].attempts + 1 < p.maxAttempts && later - now >= p.minInterval)
  {
  }

  // ---------- the circuits of a running stack ----------

  /** What an event of the stack is to the circuit of one version. */
  function Projected(s: Stack, e: Event, id: QualifiedId, p: Policy): seq<CircuitEvent> {
    if e.id != id then []
    else match e
      case RecordFailure(_, kind, now) => [Fail(Failure(kind, now))]
      case RecordSuccess(_, _) => [Succeed]
      case Enable(_, force, now, written) =>
        if !EnableAllowed(s, id, force, now, p) then []
        else if force then [ForceClose]
        else if written then [Prepare(now)]
        else [Prepare(now), Abort]
      case LoadFailed(_, _) => [Abort]
      case ForceCloseCircuit(_, _) => [ForceClose]
      case RemoveState(_, _) => [Forget]
      case _ => []
  }

  lemma CircuitAfterTwo(c: Circuit, e: CircuitEvent, f: CircuitEvent, p: Policy)
    ensures CircuitAfter(c, [], p) == c
    ensures CircuitAfter(c, [e], p) == Next(c, e, p)
    ensures CircuitAfter(c, [e, f], p) == Next(Next(c, e, p), f, p)
  {
    assert [e][1..] == [] && [e, f][1..] == [f] && [f][1..] == [];
    assert CircuitAfter(Next(c, e, p), [f], p) == Next(Next(c, e, p), f, p);
  }

  /** Each circuit of the stack sees its own events and nothing else. */
  lemma Projection(s: Stack, e: Event, id: QualifiedId, p: Policy)
    ensures CircuitOf(Apply(s, e, p), id) == CircuitAfter(CircuitOf(s, id), Projected(s, e, id, p), p)
  {
    var c, events := CircuitOf(s, id), Projected(s, e, id, p);
    if |events| == 1 {
      CircuitAfterTwo(c, events[0], Abort, p);
      assert events == [events[0]];
    } else if |events| == 2 {
      CircuitAfterTwo(c, events[0], events[1], p);
      assert events == [events[0], events[1]];
    }
  }

  /** The trace of the circuit of one version along a run of the stack. */
  function StackTrace(trace: seq<Outcome>, s: Stack, events: seq<Event>, id: QualifiedId, p: Policy): seq<Outcome>
    decreases |events|
  {
    if events == [] then trace
    else StackTrace(TraceAfter(CircuitOf(s, id), trace, Projected(s, events[0], id, p), p),
                    Apply(s, events[0], p), events[1..], id, p)
  }

  /** The clock of the run does not go back. */
  predicate Clocked(events: seq<Event>, from: real)
    decreases |events|
  {
    events == [] || (from <= events[0].now && Clocked(events[1..], events[0].now))
  }

  /** Nothing in the trace is later than t. */
  predicate Until(trace: seq<Outcome>, t: real) {
    Faults(trace) != [] ==> Faults(trace)[|Faults(trace)| - 1].time <= t
  }

  lemma TracedUntil(c: Circuit, trace: seq<Outcome>, e: CircuitEvent, t: real, p: Policy)
    requires Until(trace, t) && (e.Fail? ==> e.failure.time == t)
    ensures ClockForward(trace, e) && Until(Traced(trace, c, e, p), t)
  {
    match e
    case Fail(f) => TraceSnoc(trace, Fault(f));
    case Succeed => TraceSnoc(trace, Success);
    case _ =>
  }

  lemma OneEvent(c: Circuit, trace: seq<Outcome>, e: CircuitEvent, p: Policy)
    ensures ClockForwardRun(c, trace, [e], p) <==> ClockForward(trace, e)
    ensures TraceAfter(c, trace, [e], p) == Traced(trace, c, e, p)
  {
    assert [e][1..] == [];
  }

  lemma AbortedPreparation(c: Circuit, trace: seq<Outcome>, now: real, p: Policy)
    ensures ClockForwardRun(c, trace, [Prepare(now), Abort], p)
    ensures TraceAfter(c, trace, [Prepare(now), Abort], p) == trace
  {
    assert [Prepare(now), Abort][1..] == [Abort];
    OneEvent(Next(c, Prepare(now), p), trace, Abort, p);
  }

  lemma ProjectedClock(s: Stack, trace: seq<Outcome>, e: Event, id: QualifiedId, p: Policy)
    requires Until(trace, e.now)
    ensures var c, events := CircuitOf(s, id), Projected(s, e, id, p);
      ClockForwardRun(c, trace, events, p) && Until(TraceAfter(c, trace, events, p), e.now)
  {
    var c, events := CircuitOf(s, id), Projected(s, e, id, p);
    if |events| == 1 {
      OneEvent(c, trace, events[0], p);
      TracedUntil(c, trace, events[0], e.now, p);
      assert events == [events[0]];
    } else if |events| == 2 {
      AbortedPreparation(c, trace, e.now, p);
      assert events == [Prepare(e.now), Abort];
    }
  }

  lemma {:induction false} StackTracks(trace: seq<Outcome>, s: Stack, events: seq<Event>, id: QualifiedId, p: Policy,
                                       from: real)
    requires Tracks(CircuitOf(s, id), trace, p) && Until(trace, from) && Clocked(events, from)
    ensures Tracks(CircuitOf(StackAfter(s, events, p), id), StackTrace(trace, s, events, id, p), p)
    decreases |events|
  {
    if events == [] {
    } else {
      var e, c := events[0], CircuitOf(s, id);
      var projected := Projected(s, e, id, p);
      ProjectedClock(s, trace, e, id, p);
      TracksRun(c, trace, projected, p);
      Projection(s, e, id, p);
      StackTracks(TraceAfter(c, trace, projected, p), Apply(s, e, p), events[1..], id, p, e.now);
    }
  }

  lemma {:induction false} StackBelow(s: Stack, events: seq<Event>, id: QualifiedId, p: Policy)
    requires BelowThresholds(CircuitOf(s, id), p) && PositiveThresholds(p)
    ensures BelowThresholds(CircuitOf(StackAfter(s, events, p), id), p)
    decreases |events|
  {
    if events == [] {
    } else {
      BelowRun(CircuitOf(s, id), Projected(s, events[0], id, p), p);
      Projection(s, events[0], id, p);
      StackBelow(Apply(s, events[0], p), events[1..], id, p);
    }
  }

  /** Over every run of the wired stack with a clock that does not go back, for every policy: the pruned
      list is the window of the whole trace, the timeout counter its trailing run, the unhealthy counter
      its number of such transitions. And a closed circuit is strictly below all three thresholds, from
      the start exactly if they are positive and then for ever. */
  lemma SlidingWindowIsExact(s: Stack, events: seq<Event>, id: QualifiedId, p: Policy, from: real)
    requires id !in s.circuits && Clocked(events, from)
    ensures var c, trace := CircuitOf(StackAfter(s, events, p), id), StackTrace([], s, events, id, p);
      && c.failures == InWindow(Faults(trace), p.window)
      && c.timeouts == TrailingTimeouts(trace)
      && c.unhealthy == UnhealthyCount(Faults(trace))
      && (PositiveThresholds(p) ==> BelowThresholds(c, p))
    ensures BelowThresholds(CircuitOf(s, id), p) <==> PositiveThresholds(p)
  {
    StackTracks([], s, events, id, p, from);
    if PositiveThresholds(p) {
      StackBelow(s, events, id, p);
    }
  }

  // ---------- bounded recovery ----------

  /** The event resets the attempt counter of the version. */
  predicate Resets(e: Event, id: QualifiedId) {
    e.id == id && (e.ForceCloseCircuit? || e.RemoveState? || (e.Enable? && e.force))
  }

  predicate Recovers(s: Stack, e: Event, id: QualifiedId, p: Policy) {
    e.id == id && e.Enable? && !e.force && EnableAllowed(s, id, false, e.now, p)
  }

  /** A recovery: when it happened, and when a failure had last opened the circuit. */
  datatype Attempt = Attempt(time: real, openedAt: Option<real>)

  /** The time a failure last opened the circuit, the event included. */
  function Opened(last: Option<real>, s: Stack, e: Event, id: QualifiedId, p: Policy): Option<real> {
    if e.id == id && e.RecordFailure? && !IsOpen(s, id) && IsOpen(Apply(s, e, p), id) then Some(e.now) else last
  }

  /** The recovery, if the event is one. */
  function Here(last: Option<real>, s: Stack, e: Event, id: QualifiedId, p: Policy): seq<Attempt> {
    if Recovers(s, e, id, p) then [Attempt(e.now, last)] else []
  }

  /** The recoveries of one version in a run, after those already in the log. */
  function Attempts(log: seq<Attempt>, last: Option<real>, s: Stack, events: seq<Event>, id: QualifiedId, p: Policy)
    : seq<Attempt>
    decreases |events|
  {
    if events == [] then log
    else Attempts(log + Here(last, s, events[0], id, p), Opened(last, s, events[0], id, p),
                  Apply(s, events[0], p), events[1..], id, p)
  }

  /** Every attempt waited for the cooldown, and for the minimum interval after the one before it. */
  predicate Spaced(log: seq<Attempt>, p: Policy) {
    && (forall i :: 0 <= i < |log| ==>
          log[i].openedAt.Some? && log[i].time - log[i].openedAt.value >= p.cooldown)
    && (forall i {:trigger log[i]} :: 0 < i < |log| ==> log[i].time - log[i - 1].time >= p.minInterval)
  }

  /** The counter and the time stamps of a circuit are those of the log of its recoveries and openings. */
  predicate Logged(c: Circuit, last: Option<real>, log: seq<Attempt>, p: Policy) {
    && c.attempts == |log| <= Max(0, p.maxAttempts)
    && c.lastAttempt == (if log == [] then None else Some(log[|log| - 1].time))
    && OpenSince(c, last)
    && Spaced(log, p)
  }

  lemma LoggedRecovery(c: Circuit, last: Option<real>, log: seq<Attempt>, now: real, p: Policy)
    requires Logged(c, last, log, p) && CanAttempt(c, now, p)
    ensures Logged(Prepared(c, now), last, log + [Attempt(now, last)], p)
  {
  }

  /** The circuit was opened at that time, unless it is closed and remembers no opening; and while it is half
      open it remembers when the recovery began. */
  predicate OpenSince(c: Circuit, last: Option<real>) {
    && (c.state == Closed ==> c.disabledAt == None && c.reason == None && c.halfOpenStarted == None)
    && (c.state != Closed ==> last.Some? && c.disabledAt == last && c.reason.Some?)
    && (c.state == HalfOpen ==> c.halfOpenStarted.Some? && c.halfOpenStarted == c.lastAttempt)
  }

  lemma FaultStamps(c: Circuit, f: Failure, last: Option<real>, p: Policy)
    requires OpenSince(c, last)
    ensures var c' := Faulted(c, f, p);
      && c'.attempts == c.attempts && c'.lastAttempt == c.lastAttempt
      && OpenSince(c', if c.state != Open && c'.state == Open then Some(f.time) else last)
  {
  }

  /** What an event that is neither a reset nor a recovery does to counter and time stamps. */
  lemma QuietStep(s: Stack, e: Event, id: QualifiedId, last: Option<real>, p: Policy)
    requires !Resets(e, id) && !Recovers(s, e, id, p) && OpenSince(CircuitOf(s, id), last)
    ensures var c, c' := CircuitOf(s, id), CircuitOf(Apply(s, e, p), id);
      && c'.attempts == c.attempts && c'.lastAttempt == c.lastAttempt && OpenSince(c', Opened(last, s, e, id, p))
  {
    if e.RecordFailure? && e.id == id {
      FaultStamps(CircuitOf(s, id), Failure(e.kind, e.now), last, p);
    }
  }

  lemma LoggedStep(s: Stack, e: Event, id: QualifiedId, last: Option<real>, log: seq<Attempt>, p: Policy)
    requires Logged(CircuitOf(s, id), last, log, p) && !Resets(e, id)
    ensures Logged(CircuitOf(Apply(s, e, p), id), Opened(last, s, e, id, p), log + Here(last, s, e, id, p), p)
  {
    var c' := CircuitOf(Apply(s, e, p), id);
    if Recovers(s, e, id, p) {
      LoggedRecovery(s.circuits[id], last, log, e.now, p);
      assert c' == Prepared(s.circuits[id], e.now) || c' == Aborted(Prepared(s.circuits[id], e.now));
    } else {
      QuietStep(s, e, id, last, p);
      assert log + Here(last, s, e, id, p) == log;
    }
  }

  lemma {:induction false} LoggedRun(s: Stack, events: seq<Event>, id: QualifiedId, last: Option<real>,
                                     log: seq<Attempt>, p: Policy) returns (last': Option<real>)
    requires Logged(CircuitOf(s, id), last, log, p)
    requires forall i :: 0 <= i < |events| ==> !Resets(events[i], id)
    ensures Logged(CircuitOf(StackAfter(s, events, p), id), last', Attempts(log, last, s, events, id, p), p)
    decreases |events|
  {
    if events == [] {
      last' := last;
    } else {
      LoggedStep(s, events[0], id, last, log, p);
      last' := LoggedRun(Apply(s, events[0], p), events[1..], id, Opened(last, s, events[0], id, p),
                         log + Here(last, s, events[0], id, p), p);
    }
  }

  /** Without a forced close or a removal, an open circuit is let into half-open at most
      `max_recovery_attempts` times in the whole run, never sooner than the cooldown after a failure last
      opened it, and never twice within the minimum interval; the counter is the number of times. An
      aborted recovery does not count as an opening. */
  lemma BoundedRecovery(s: Stack, events: seq<Event>, id: QualifiedId, p: Policy)
    requires id !in s.circuits
    requires forall i :: 0 <= i < |events| ==> !Resets(events[i], id)
    ensures var log := Attempts([], None, s, events, id, p);
      && |log| == CircuitOf(StackAfter(s, events, p), id).attempts <= Max(0, p.maxAttempts)
      && Spaced(log, p)
      && exists last :: OpenSince(CircuitOf(StackAfter(s, events, p), id), last)
  {
    var _ := LoggedRun(s, events, id, None, [], p);
  }

  /** Open with the attempts used up is final: only a forced close or a removal ends it, and while
      the rest of the runtime keeps its discipline the version stays disabled as long as it is registered. */
  lemma {:induction false} ExhaustedIsAbsorbing(s: Stack, events: seq<Event>, id: QualifiedId, p: Policy)
    requires IsOpen(s, id) && s.circuits[id].attempts >= p.maxAttempts
    requires forall i :: 0 <= i < |events| ==> !Resets(events[i], id)
    ensures var s' := StackAfter(s, events, p);
      && IsOpen(s', id) && s'.circuits[id].attempts == s.circuits[id].attempts
      && (forall log, last :: Attempts(log, last, s, events, id, p) == log)
      && (Agree(s) && DisciplinedRun(s, events, p) && id in s'.registry ==> s'.registry[id] == Disabled)
    decreases |events|
  {
    if events == [] {
    } else {
      ExhaustedIsAbsorbing(Apply(s, events[0], p), events[1..], id, p);
      forall log: seq<Attempt>, last: Option<real> ensures Attempts(log, last, s, events, id, p) == log {
        assert log + [] == log;
      }
      if Agree(s) {
        AgreeStep(s, events[0], p);
      }
    }
  }

  // ---------- the objects ----------

  class CircuitBreakerState {
    var state: CircuitState
    var failures: seq<Failure>
    var unhealthyTransitions: int
    var consecutiveTimeouts: int
    var recoveryAttempts: int
    var lastRecoveryAttempt: Option<real>
    var disabledAt: Option<real>
    var disabledReason: Option<DisablementReason>
    var halfOpenStarted: Option<real>
    var halfOpenSuccesses: int

    ghost function View(): Circuit
      reads this
    {
      Circuit(state, failures, unhealthyTransitions, consecutiveTimeouts, recoveryAttempts,
              lastRecoveryAttempt, disabledAt, disabledReason, halfOpenStarted, halfOpenSuccesses)
    }

    constructor ()
      ensures View() == NEW_CIRCUIT
    {
      state, failures := Closed, [];
      unhealthyTransitions, consecutiveTimeouts, recoveryAttempts, halfOpenSuccesses := 0, 0, 0, 0;
      lastRecoveryAttempt, disabledAt, disabledReason, halfOpenStarted := None, None, None, None;
    }

    method RecordFailure(f: Failure, p: Policy)
      modifies this
      ensures View() == Recorded(old(View()), f, p)
    {
      failures := failures + [f];
      PruneOldFailures(f.time - p.window);
      if f.kind == Timeout {
        consecutiveTimeouts := consecutiveTimeouts + 1;
      } else {
        consecutiveTimeouts := 0;
      }
      if f.kind == UnhealthyTransition {
        unhealthyTransitions := unhealthyTransitions + 1;
      }
    }

    method PruneOldFailures(cutoff: real)
      modifies this`failures
      ensures failures == After(old(failures), cutoff)
    {
      var kept, i := [], 0;
      while i < |failures|
        invariant 0 <= i <= |failures|
        invariant kept + After(failures[i..], cutoff) == After(failures, cutoff)
      {
        assert failures[i..][1..] == failures[i + 1..];
        if failures[i].time > cutoff {
          kept := kept + [failures[i]];
        }
        i := i + 1;
      }
      failures := kept;
    }

    method RecordSuccess()
      modifies this
      ensures View() == old(View()).(timeouts := 0,
                successes := old(halfOpenSuccesses) + (if old(state) == HalfOpen then 1 else 0))
    {
      consecutiveTimeouts := 0;
      if state == HalfOpen {
        halfOpenSuccesses := halfOpenSuccesses + 1;
      }
    }

    method ResetForRecovery(now: real)
      modifies this
      ensures View() == Prepared(old(View()), now)
    {
      state := HalfOpen;
      halfOpenStarted := Some(now);
      halfOpenSuccesses := 0;
      recoveryAttempts := recoveryAttempts + 1;
      lastRecoveryAttempt := Some(now);
    }

    method CloseCircuit()
      modifies this
      ensures View() == ClosedAgain(old(View()))
    {
      state, failures := Closed, [];
      unhealthyTransitions, consecutiveTimeouts, halfOpenSuccesses := 0, 0, 0;
      halfOpenStarted, disabledAt, disabledReason := None, None, None;
    }

    method OpenCircuit(reason: DisablementReason, now: real)
      modifies this
      ensures View() == old(View()).(state := Open, disabledAt := Some(now), reason := Some(reason))
    {
      state, disabledAt, disabledReason := Open, Some(now), Some(reason);
    }
  }

  /** The breaker and the recovery manager wired together over one registry. */
  class RecoveryStack {
    const policy: Policy
    var states: map<QualifiedId, CircuitBreakerState>
    var registry: map<QualifiedId, LoadState>
    ghost var circuits: set<CircuitBreakerState>

    /** No two versions share a circuit. */
    ghost predicate Valid()
      reads this
    {
      && (forall id :: id in states ==> states[id] in circuits)
      && forall a, b :: a in states && b in states && a != b ==> states[a] != states[b]
    }

    ghost function Circuits(): map<QualifiedId, Circuit>
      requires Valid()
      reads this, circuits
    {
      map id | id in states :: states[id].View()
    }

    ghost function View(): Stack
      requires Valid()
      reads this, circuits
    {
      Stack(Circuits(), registry)
    }

    constructor (policy: Policy, registry: map<QualifiedId, LoadState>)
      ensures Valid() && circuits == {} && this.policy == policy
      ensures View() == Stack(map[], registry)
    {
      this.policy, this.registry := policy, registry;
      states, circuits := map[], {};
    }

    method GetOrCreateState(id: QualifiedId) returns (state: CircuitBreakerState)
      requires Valid()
      modifies this`states, this`circuits
      ensures Valid() && fresh(circuits - old(circuits)) && old(circuits) <= circuits
      ensures id in states && state == states[id]
      ensures state.View() == CircuitOf(old(View()), id)
      ensures Circuits() == old(Circuits())[id := CircuitOf(old(View()), id)]
    {
      if id !in states {
        state := new CircuitBreakerState();
        states := states[id := state];
        circuits := circuits + {state};
      } else {
        state := states[id];
      }
      assert Circuits() == old(Circuits())[id := CircuitOf(old(View()), id)];
    }

    method RecordFailure(id: QualifiedId, kind: FailureType, now: real) returns (shouldDisable: bool)
      requires Valid()
      modifies this, circuits
      ensures Valid() && fresh(circuits - old(circuits))
      ensures View() == Apply(old(View()), Event.RecordFailure(id, kind, now), policy)
      ensures shouldDisable <==> !IsOpen(old(View()), id) && IsOpen(View(), id)
    {
      ghost var s, c, f := View(), CircuitOf(View(), id), Failure(kind, now);
      var state := GetOrCreateState(id);
      if state.state == Open {
        assert Faulted(c, f, policy) == c;
        return false;
      }
      ghost var before := Circuits();
      shouldDisable := Record(id, state, Failure(kind, now));
      assert before[id := Faulted(c, f, policy)] == s.circuits[id := Faulted(c, f, policy)];
      assert View() == s.(circuits := s.circuits[id := Faulted(c, f, policy)]);
      if shouldDisable {
        var _ := DisableModel(id);
      }
    }

    /** The part of `record_failure` done under the breaker's mutex. */
    method Record(id: QualifiedId, state: CircuitBreakerState, f: Failure) returns (shouldDisable: bool)
      requires Valid() && id in states && states[id] == state && state.state != Open
      modifies state
      ensures Circuits() == old(Circuits())[id := Faulted(old(state.View()), f, policy)]
      ensures shouldDisable <==> Faulted(old(state.View()), f, policy).state == Open
    {
      state.RecordFailure(f, policy);
      var reason := CheckDisableCriteria(state);
      shouldDisable := reason.Some?;
      if shouldDisable {
        state.OpenCircuit(reason.value, f.time);
      }
      assert Circuits() == old(Circuits())[id := Faulted(old(state.View()), f, policy)];
    }

    method CheckDisableCriteria(state: CircuitBreakerState) returns (reason: Option<DisablementReason>)
      ensures reason == Criteria(state.View(), policy)
      ensures reason == None <==>
        && |state.failures| < policy.failureThreshold && state.unhealthyTransitions < policy.unhealthyThreshold
        && state.consecutiveTimeouts < policy.timeoutThreshold && state.recoveryAttempts < policy.maxAttempts
      ensures reason == Some(SustainedUnhealthy) <==>
        |state.failures| < policy.failureThreshold && state.unhealthyTransitions >= policy.unhealthyThreshold
      ensures reason == Some(CooldownExhausted) ==>
        |state.failures| < policy.failureThreshold && state.consecutiveTimeouts < policy.timeoutThreshold
    {
      if |state.failures| >= policy.failureThreshold {
        return Some(RepeatedFailures);
      }
      if state.unhealthyTransitions >= policy.unhealthyThreshold {
        return Some(SustainedUnhealthy);
      }
      if state.consecutiveTimeouts >= policy.timeoutThreshold {
        return Some(RepeatedFailures);
      }
      if state.recoveryAttempts >= policy.maxAttempts {
        return Some(CooldownExhausted);
      }
      return None;
    }

    method RecordSuccess(id: QualifiedId, now: real) returns (shouldClose: bool)
      requires Valid()
      modifies this, circuits
      ensures Valid() && fresh(circuits - old(circuits))
      ensures View() == Apply(old(View()), Event.RecordSuccess(id, now), policy)
      ensures shouldClose <==>
        && CircuitOf(old(View()), id).state == HalfOpen
        && CircuitOf(old(View()), id).successes + 1 >= policy.halfOpenSuccesses
      ensures CircuitOf(old(View()), id).state == HalfOpen ==>
        CircuitOf(View(), id).state == if shouldClose then Closed else HalfOpen
    {
      ghost var c := CircuitOf(View(), id);
      var state := GetOrCreateState(id);
      ghost var before := Circuits();
      shouldClose := Confirm(id, state);
      assert before[id := Succeeded(c, policy)] == old(Circuits())[id := Succeeded(c, policy)];
    }

    /** The part of `record_success` after the circuit is found. */
    method Confirm(id: QualifiedId, state: CircuitBreakerState) returns (shouldClose: bool)
      requires Valid() && id in states && states[id] == state
      modifies state
      ensures Circuits() == old(Circuits())[id := Succeeded(old(state.View()), policy)]
      ensures shouldClose <==>
        old(state.state) == HalfOpen && old(state.halfOpenSuccesses) + 1 >= policy.halfOpenSuccesses
    {
      state.RecordSuccess();
      shouldClose := state.state == HalfOpen && state.halfOpenSuccesses >= policy.halfOpenSuccesses;
      if shouldClose {
        state.CloseCircuit();
      }
      assert state.View() == Succeeded(old(state.View()), policy);
      assert Circuits() == old(Circuits())[id := Succeeded(old(state.View()), policy)];
    }

    method DisableModel(id: QualifiedId) returns (success: bool)
      requires Valid()
      modifies this`registry
      ensures Valid() && circuits == old(circuits) && success == (id in old(registry))
      ensures View() == Disabling(old(View()), id)
    {
      if id !in registry {
        return false;
      }
      if registry[id] == Disabled {
        assert registry == registry[id := Disabled];
        return true;
      }
      registry := registry[id := Disabled];
      return true;
    }

    method CanAttemptRecovery(id: QualifiedId, now: real) returns (can: bool)
      requires Valid()
      ensures can <==> id in states && CanAttempt(states[id].View(), now, policy)
      ensures can <==> id in states && var c := states[id];
        && c.state == Open && c.recoveryAttempts < policy.maxAttempts
        && (c.lastRecoveryAttempt == None || now >= c.lastRecoveryAttempt.value + policy.minInterval)
        && (c.disabledAt == None || now >= c.disabledAt.value + policy.cooldown)
    {
      if id !in states || states[id].state != Open {
        return false;
      }
      var state := states[id];
      if state.recoveryAttempts >= policy.maxAttempts {
        return false;
      }
      if state.lastRecoveryAttempt.Some? && now - state.lastRecoveryAttempt.value < policy.minInterval {
        return false;
      }
      if state.disabledAt.Some? && now - state.disabledAt.value < policy.cooldown {
        return false;
      }
      return true;
    }

    /** `can_recover`. */
    method CanRecover(id: QualifiedId, now: real) returns (can: bool)
      requires Valid()
      ensures can <==> Recoverable(View(), id, now, policy)
      ensures can && id !in states ==> id in registry && registry[id] == Disabled
    {
      if id !in registry || registry[id] != Disabled {
        return false;
      }
      can := CanAttemptRecovery(id, now);
      if !can && id !in states {
        return true;
      }
    }

    /** `written` is what `update_state` answers: the registry may have lost the version meanwhile. */
    method EnableModel(id: QualifiedId, force: bool, now: real, written: bool) returns (success: bool)
      requires Valid()
      modifies this`registry, circuits
      ensures Valid() && circuits == old(circuits)
      ensures success == (EnableAllowed(old(View()), id, force, now, policy) && written)
      ensures success ==> id in old(registry) && old(registry)[id] == Disabled
      ensures success ==> registry == old(registry)[id := Discovered]
      ensures force && written && id in old(registry) && old(registry)[id] == Disabled ==> success
      ensures View() == Apply(old(View()), Event.Enable(id, force, now, written), policy)
    {
      if id !in registry || registry[id] != Disabled {
        return false;
      }
      var prepared := PrepareCircuit(id, force, now);
      if !prepared {
        return false;
      }
      if !written {
        AbortRecovery(id);
        AbortedReopening(old(View()), id, force, now);
        return false;
      }
      registry := registry[id := Discovered];
      return true;
    }

    /** The circuit's part: a forced closing, or a recovery if the guards allow it. */
    method PrepareCircuit(id: QualifiedId, force: bool, now: real) returns (prepared: bool)
      requires Valid()
      modifies circuits
      ensures Valid() && prepared == (force || (id in states && CanAttempt(old(Circuits())[id], now, policy)))
      ensures Circuits() == if prepared then Reopened(old(View()), id, force, now, true) else old(Circuits())
    {
      if force {
        var _ := ForceClose(id);
        return true;
      }
      prepared := PrepareRecovery(id, now);
    }

    /** The unforced branch: the guards of `can_attempt_recovery`, then `prepare_recovery`. */
    method PrepareRecovery(id: QualifiedId, now: real) returns (prepared: bool)
      requires Valid()
      modifies circuits
      ensures Valid() && prepared == (id in states && CanAttempt(old(Circuits())[id], now, policy))
      ensures Circuits() == if prepared then old(Circuits())[id := Prepared(old(Circuits())[id], now)]
                            else old(Circuits())
    {
      prepared := CanAttemptRecovery(id, now);
      if prepared {
        states[id].ResetForRecovery(now);
        assert Circuits() == old(Circuits())[id := Prepared(old(Circuits())[id], now)];
      }
    }

    method ForceClose(id: QualifiedId) returns (closed: bool)
      requires Valid()
      modifies circuits
      ensures Valid() && closed == (id in states)
      ensures Circuits() == if id in states then old(Circuits())[id := ForceClosed(old(Circuits())[id])]
                            else old(Circuits())
    {
      if id !in states {
        return false;
      }
      states[id].CloseCircuit();
      states[id].recoveryAttempts := 0;
      assert Circuits() == old(Circuits())[id := ForceClosed(old(Circuits())[id])];
      return true;
    }

    method NotifyLoadFailure(id: QualifiedId, now: real)
      requires Valid()
      modifies this`registry, circuits
      ensures Valid() && circuits == old(circuits)
      ensures View() == Apply(old(View()), Event.LoadFailed(id, now), policy)
    {
      AbortRecovery(id);
      var _ := DisableModel(id);
    }

    method AbortRecovery(id: QualifiedId)
      requires Valid()
      modifies circuits
      ensures Valid()
      ensures Circuits() == if id in states then old(Circuits())[id := Aborted(old(Circuits())[id])]
                            else old(Circuits())
    {
      if id !in states {
        return;
      }
      var state := states[id];
      if state.state == HalfOpen {
        state.state, state.halfOpenStarted, state.halfOpenSuccesses := Open, None, 0;
      }
      assert Circuits() == old(Circuits())[id := Aborted(old(Circuits())[id])];
    }

    method RemoveState(id: QualifiedId, now: real) returns (removed: bool)
      requires Valid()
      modifies this`states
      ensures Valid() && circuits == old(circuits) && removed == (id in old(states))
      ensures View() == Apply(old(View()), Event.RemoveState(id, now), policy)
    {
      removed := id in states;
      states := states - {id};
      assert Circuits() == old(Circuits()) - {id};
    }
  }
}
