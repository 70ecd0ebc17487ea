/**
  A sandbox's health: two run-length counters, a transition rule with hysteresis, and one callback for
  each change.
*/
module Health {
  import opened Prelude
  import opened Models

  datatype Thresholds = Thresholds(degraded: int, unhealthy: int, recovery: int)

  datatype Outcome = Succeeds | Fails

  datatype Change = Change(from: HealthStatus, to: HealthStatus)

  datatype State = State(health: HealthStatus, failures: int, successes: int, callbacks: seq<Change>)

  const INIT := State(Healthy, 0, 0, [])

  /** Python's `//` by two, which rounds down. */
  function Half(n: int): int {
    n / 2
  }

  /** `HealthManager.determine_health`. */
  function Determine(t: Thresholds, current: HealthStatus, failures: int, successes: int): HealthStatus {
    if failures >= t.unhealthy then Unhealthy
    else if failures >= t.degraded then Degraded
    else if current == Unhealthy && successes >= t.recovery then Healthy
    else if current == Unhealthy && successes >= Half(t.recovery) then Degraded
    else if current == Degraded && successes >= t.recovery then Healthy
    else current
  }

  /** `_record_success` and `_record_failure`. */
  function Next(t: Thresholds, s: State, o: Outcome): State {
    var failures := if o == Fails then s.failures + 1 else 0;
    var successes := if o == Succeeds then s.successes + 1 else 0;
    var health := Determine(t, s.health, failures, successes);
    State(health, failures, successes,
          if health != s.health then s.callbacks + [Change(s.health, health)] else s.callbacks)
  }

  function After(t: Thresholds, history: seq<Outcome>): State {
    if history == [] then INIT
    else Next(t, After(t, history[..|history| - 1]), history[|history| - 1])
  }

  // ---------- the history decides ----------

  /** The length of the run of o that the history ends in. */
  function Trailing(history: seq<Outcome>, o: Outcome): nat {
    if history == [] || history[|history| - 1] != o then 0
    else Trailing(history[..|history| - 1], o) + 1
  }

  predicate Positive(t: Thresholds) {
    t.degraded >= 1 && t.unhealthy >= 1 && t.recovery >= 1
  }

  lemma {:induction false} CountersAreTrailingRuns(t: Thresholds, history: seq<Outcome>)
    ensures After(t, history).failures == Trailing(history, Fails)
    ensures After(t, history).successes == Trailing(history, Succeeds)
  {
    if history == [] {
    } else {
      CountersAreTrailingRuns(t, history[..|history| - 1]);
    }
  }

  /** At some moment of the history the run of failures was long enough to lose health. */
  predicate FailedAt(t: Thresholds, history: seq<Outcome>, k: nat)
    requires k <= |history|
  {
    Trailing(history[..k], Fails) >= t.degraded || Trailing(history[..k], Fails) >= t.unhealthy
  }

  predicate RecoveredAt(t: Thresholds, history: seq<Outcome>, k: nat)
    requires k <= |history|
  {
    Trailing(history[..k], Succeeds) >= t.recovery
  }

  /** After every moment of failure there was a moment of recovery. */
  ghost predicate RecoveredSince(t: Thresholds, history: seq<Outcome>) {
    forall k: nat :: k <= |history| && FailedAt(t, history, k) ==>
      exists m: nat :: k < m <= |history| && RecoveredAt(t, history, m)
  }

  lemma PrefixMoments(t: Thresholds, history: seq<Outcome>, o: Outcome, k: nat)
    requires k <= |history|
    ensures FailedAt(t, history + [o], k) == FailedAt(t, history, k)
    ensures RecoveredAt(t, history + [o], k) == RecoveredAt(t, history, k)
  {
    assert (history + [o])[..k] == history[..k];
  }

  lemma RecoveredSinceSnoc(t: Thresholds, history: seq<Outcome>, o: Outcome)
    requires Positive(t)
    ensures var h := history + [o];
      RecoveredSince(t, h) <==>
        Trailing(h, Succeeds) >= t.recovery ||
        (RecoveredSince(t, history) && !FailedAt(t, h, |h|))
  {
    var h := history + [o];
    assert h[..|h|] == h;
    assert h[..|history|] == history;
    if Trailing(h, Succeeds) >= t.recovery {
      assert RecoveredAt(t, h, |h|);
    } else if RecoveredSince(t, h) {
      forall k: nat | k <= |history| && FailedAt(t, history, k)
        ensures exists m: nat :: k < m <= |history| && RecoveredAt(t, history, m)
      {
        PrefixMoments(t, history, o, k);
        var m: nat :| k < m <= |h| && RecoveredAt(t, h, m);
        PrefixMoments(t, history, o, m);
      }
    } else if RecoveredSince(t, history) && !FailedAt(t, h, |h|) {
      forall k: nat | k <= |h| && FailedAt(t, h, k)
        ensures exists m: nat :: k < m <= |h| && RecoveredAt(t, h, m)
      {
        PrefixMoments(t, history, o, k);
        var m: nat :| k < m <= |history| && RecoveredAt(t, history, m);
        PrefixMoments(t, history, o, m);
      }
    }
  }

  /** Healthy, as a fact about the whole history: every run of failures that reached a threshold was
      followed by a run of successes that reached the recovery threshold. */
  lemma {:induction false} HealthyMeansRecovered(t: Thresholds, history: seq<Outcome>)
    requires Positive(t)
    ensures After(t, history).health == Healthy <==> RecoveredSince(t, history)
    ensures After(t, history).health != Unknown
  {
    if history == [] {
      assert history[..0] == [];
    } else {
      var before, o := history[..|history| - 1], history[|history| - 1];
      assert history == before + [o] && history[..|history|] == history;
      HealthyMeansRecovered(t, before);
      RecoveredSinceSnoc(t, before, o);
      CountersAreTrailingRuns(t, history);
      CountersAreTrailingRuns(t, before);
    }
  }

  /** At that moment of the history the run of failures was long enough for the unhealthy state. */
  predicate CollapsedAt(t: Thresholds, history: seq<Outcome>, k: nat)
    requires k <= |history|
  {
    Trailing(history[..k], Fails) >= t.unhealthy
  }

  /** Half the recovery threshold of straight successes, one at least, or a run of failures that is only long
      enough for the degraded state. */
  predicate RelievedAt(t: Thresholds, history: seq<Outcome>, k: nat)
    requires k <= |history|
  {
    || Trailing(history[..k], Succeeds) >= Max(1, Half(t.recovery))
    || t.degraded <= Trailing(history[..k], Fails) < t.unhealthy
  }

  /** The last moment of collapse was followed by no relief. */
  ghost predicate CollapsedSince(t: Thresholds, history: seq<Outcome>) {
    exists k: nat :: k <= |history| && CollapsedAt(t, history, k) &&
      forall m: nat :: k < m <= |history| ==> !RelievedAt(t, history, m)
  }

  lemma CollapseMoments(t: Thresholds, history: seq<Outcome>, o: Outcome, k: nat)
    requires k <= |history|
    ensures CollapsedAt(t, history + [o], k) == CollapsedAt(t, history, k)
    ensures RelievedAt(t, history + [o], k) == RelievedAt(t, history, k)
  {
    assert (history + [o])[..k] == history[..k];
  }

  lemma CollapsedSinceSnoc(t: Thresholds, history: seq<Outcome>, o: Outcome)
    ensures var h := history + [o];
      CollapsedSince(t, h) <==>
        CollapsedAt(t, h, |h|) || (CollapsedSince(t, history) && !RelievedAt(t, h, |h|))
  {
    var h := history + [o];
    if CollapsedSince(t, h) {
      var k: nat :| k <= |h| && CollapsedAt(t, h, k) && forall m: nat :: k < m <= |h| ==> !RelievedAt(t, h, m);
      if k < |h| {
        CollapseMoments(t, history, o, k);
        forall m: nat | k < m <= |history| ensures !RelievedAt(t, history, m) {
          CollapseMoments(t, history, o, m);
          assert !RelievedAt(t, h, m);
        }
      }
    }
    if CollapsedSince(t, history) && !RelievedAt(t, h, |h|) {
      var k: nat :| k <= |history| && CollapsedAt(t, history, k) &&
        forall m: nat :: k < m <= |history| ==> !RelievedAt(t, history, m);
      CollapseMoments(t, history, o, k);
      forall m: nat | k < m <= |h| ensures !RelievedAt(t, h, m) {
        if m < |h| {
          CollapseMoments(t, history, o, m);
        }
      }
    }
  }

  lemma NextUnhealthy(t: Thresholds, s: State, o: Outcome)
    requires Positive(t) && s.failures >= 0 && s.successes >= 0
    requires s.health == Unhealthy && t.recovery == 1 ==> s.failures >= t.unhealthy
    ensures var s' := Next(t, s, o);
      s'.health == Unhealthy <==>
        || s'.failures >= t.unhealthy
        || (&& s.health == Unhealthy && s'.successes < Max(1, Half(t.recovery))
            && !(t.degraded <= s'.failures < t.unhealthy))
  {
  }

  /** Unhealthy, as a fact about the whole history: some run of failures reached the unhealthy threshold, and
      since then no run of successes reached half the recovery threshold and no run of failures was only long
      enough for the degraded state. With the condition for healthy this decides all three states. */
  lemma {:induction false} UnhealthyMeansCollapsed(t: Thresholds, history: seq<Outcome>)
    requires Positive(t)
    ensures After(t, history).health == Unhealthy <==> CollapsedSince(t, history)
  {
    CountersAreTrailingRuns(t, history);
    if history == [] {
      assert history[..0] == [];
    } else {
      var before, o := history[..|history| - 1], history[|history| - 1];
      assert history == before + [o] && history[..|history|] == history;
      UnhealthyMeansCollapsed(t, before);
      CollapsedSinceSnoc(t, before, o);
      NeverNegative(t, before);
      if t.recovery < 4 && After(t, before).health == Unhealthy {
        UnhealthyIsFailing(t, before);
      }
      NextUnhealthy(t, After(t, before), o);
    }
  }

  /** A healthy sandbox has fewer trailing failures than either threshold. */
  lemma HealthyIsBelow(t: Thresholds, history: seq<Outcome>)
    requires Positive(t) && After(t, history).health == Healthy
    ensures Trailing(history, Fails) < t.degraded && Trailing(history, Fails) < t.unhealthy
  {
    HealthyMeansRecovered(t, history);
    CountersAreTrailingRuns(t, history);
    if history != [] {
      var before := history[..|history| - 1];
      HealthyMeansRecovered(t, before);
    }
  }

  /** The history with the same outcome n times more. */
  function More(history: seq<Outcome>, o: Outcome, n: nat): seq<Outcome> {
    if n == 0 then history else More(history, o, n - 1) + [o]
  }

  lemma AfterSnoc(t: Thresholds, history: seq<Outcome>, o: Outcome)
    ensures After(t, history + [o]) == Next(t, After(t, history), o)
  {
    assert (history + [o])[..|history|] == history;
  }

  /** Induction over n further outcomes, whatever the state before each of them. */
  lemma {:induction false} MoreKeeps(after: seq<Outcome> -> State, inv: (State, nat) -> bool,
                                     history: seq<Outcome>, o: Outcome, n: nat)
    requires inv(after(history), 0)
    requires forall h, k: nat :: k < n && inv(after(h), k) ==> inv(after(h + [o]), k + 1)
    ensures inv(after(More(history, o, n)), n)
  {
    if n == 0 {
    } else {
      MoreKeeps(after, inv, history, o, n - 1);
    }
  }

  /** A history that began with k failures and is still healthy. */
  predicate Holding(s: State, k: nat) {
    s.health == Healthy && s.failures == k
  }

  lemma HoldingRun(t: Thresholds, n: nat)
    requires n < t.unhealthy <= t.degraded
    ensures Holding(After(t, More([], Fails, n)), n)
  {
    forall h, k: nat | k < n && Holding(After(t, h), k) ensures Holding(After(t, h + [Fails]), k + 1) {
      AfterSnoc(t, h, Fails);
    }
    MoreKeeps((h: seq<Outcome>) => After(t, h), Holding, [], Fails, n);
  }

  ghost predicate DropsAtOnce(t: Thresholds, history: seq<Outcome>, o: Outcome) {
    After(t, history).health == Healthy && After(t, history + [o]).health == Unhealthy
  }

  lemma DropNeedsLowThreshold(t: Thresholds, history: seq<Outcome>, o: Outcome)
    requires Positive(t) && DropsAtOnce(t, history, o)
    ensures t.unhealthy <= t.degraded
  {
    AfterSnoc(t, history, o);
    HealthyIsBelow(t, history);
    CountersAreTrailingRuns(t, history);
  }

  lemma LowThresholdDrops(t: Thresholds)
    requires Positive(t) && t.unhealthy <= t.degraded
    ensures DropsAtOnce(t, More([], Fails, t.unhealthy - 1), Fails)
  {
    HoldingRun(t, t.unhealthy - 1);
    AfterSnoc(t, More([], Fails, t.unhealthy - 1), Fails);
  }

  /** No single step goes from healthy to unhealthy exactly when the degraded threshold is the smaller. */
  lemma DegradesFirst(t: Thresholds)
    requires Positive(t)
    ensures (forall history, o :: !DropsAtOnce(t, history, o)) <==> t.degraded < t.unhealthy
  {
    forall history, o | DropsAtOnce(t, history, o) ensures t.unhealthy <= t.degraded {
      DropNeedsLowThreshold(t, history, o);
    }
    if t.unhealthy <= t.degraded {
      LowThresholdDrops(t);
    }
  }

  lemma {:induction false} SuccessesRun(t: Thresholds, history: seq<Outcome>, n: nat)
    ensures Trailing(More(history, Succeeds, n), Succeeds) >= n
  {
    if n == 0 {
    } else {
      var before := More(history, Succeeds, n - 1);
      SuccessesRun(t, history, n - 1);
      assert (before + [Succeeds])[..|before|] == before;
    }
  }

  /** From any history, that many straight successes are enough. */
  lemma StraightSuccessesRecover(t: Thresholds, history: seq<Outcome>)
    requires Positive(t)
    ensures After(t, More(history, Succeeds, t.recovery)).health == Healthy
  {
    SuccessesRun(t, history, t.recovery);
    HealthyMeansRecovered(t, More(history, Succeeds, t.recovery));
    RecoveredSinceSnoc(t, More(history, Succeeds, t.recovery - 1), Succeeds);
  }

  /** One more failure takes the sandbox from unhealthy to degraded. */
  ghost predicate LiftsUnhealthy(t: Thresholds, history: seq<Outcome>) {
    After(t, history).health == Unhealthy && After(t, history + [Fails]).health == Degraded
  }

  /** Unhealthy, after a broken run and k failures since. */
  predicate Broken(s: State, k: nat) {
    s.health == Unhealthy && s.failures == k && (s.successes == 0 || (k == 0 && s.successes == 1))
  }

  /** A success breaks the run of failures; fewer failures than the degraded threshold then change nothing. */
  lemma BrokenRun(t: Thresholds, history: seq<Outcome>, n: nat)
    requires n < t.degraded < t.unhealthy && t.recovery >= 2
    requires Broken(After(t, history), 0)
    ensures Broken(After(t, More(history, Fails, n)), n)
  {
    forall h, k: nat | k < n && Broken(After(t, h), k) ensures Broken(After(t, h + [Fails]), k + 1) {
      AfterSnoc(t, h, Fails);
    }
    MoreKeeps((h: seq<Outcome>) => After(t, h), Broken, history, Fails, n);
  }

  /** And the failure that reaches the degraded threshold lifts the sandbox. */
  lemma BrokenRunLifts(t: Thresholds, history: seq<Outcome>)
    requires t.degraded < t.unhealthy && t.degraded >= 1 && Broken(After(t, history), t.degraded - 1)
    ensures LiftsUnhealthy(t, history)
  {
    AfterSnoc(t, history, Fails);
  }

  /** The state after a failure in a run that began with k of them. */
  predicate Failing(t: Thresholds, s: State, k: nat) {
    s.failures == k && s.successes == 0 && (k >= t.unhealthy ==> s.health == Unhealthy)
  }

  lemma FailingRun(t: Thresholds, n: nat)
    requires Positive(t)
    ensures Failing(t, After(t, More([], Fails, n)), n)
  {
    var inv := (s: State, k: nat) => Failing(t, s, k);
    forall h, k: nat | k < n && inv(After(t, h), k) ensures inv(After(t, h + [Fails]), k + 1) {
      AfterSnoc(t, h, Fails);
    }
    MoreKeeps((h: seq<Outcome>) => After(t, h), inv, [], Fails, n);
  }

  /** With a small recovery threshold the first success already ends unhealthiness. */
  lemma {:induction false} UnhealthyIsFailing(t: Thresholds, history: seq<Outcome>)
    requires Positive(t) && t.recovery < 4 && After(t, history).health == Unhealthy
    ensures After(t, history).failures >= t.unhealthy
  {
    if history == [] {
    } else {
      var before := history[..|history| - 1];
      if After(t, before).health == Unhealthy {
        UnhealthyIsFailing(t, before);
      }
      NeverNegative(t, before);
    }
  }

  lemma {:induction false} NeverNegative(t: Thresholds, history: seq<Outcome>)
    ensures After(t, history).failures >= 0 && After(t, history).successes >= 0
  {
    if history == [] {
    } else {
      NeverNegative(t, history[..|history| - 1]);
    }
  }

  /** The documented transitions leave out one that the rule has: a failure that lifts an unhealthy sandbox
      to degraded. It happens in some history exactly when the degraded threshold is the smaller and one
      success is less than half the recovery threshold. */
  lemma FailureLiftsExactly(t: Thresholds)
    requires Positive(t)
    ensures (exists history :: LiftsUnhealthy(t, history)) <==> t.degraded < t.unhealthy && t.recovery >= 4
  {
    forall history | LiftsUnhealthy(t, history) ensures t.degraded < t.unhealthy && t.recovery >= 4 {
      LiftNeeds(t, history);
    }
    if t.degraded < t.unhealthy && t.recovery >= 4 {
      LiftingHistory(t);
    }
  }

  lemma LiftingHistory(t: Thresholds)
    requires 1 <= t.degraded < t.unhealthy && t.recovery >= 4
    ensures LiftsUnhealthy(t, More(More([], Fails, t.unhealthy) + [Succeeds], Fails, t.degraded - 1))
  {
    var failing := More([], Fails, t.unhealthy);
    FailingRun(t, t.unhealthy);
    AfterSnoc(t, failing, Succeeds);
    BrokenRun(t, failing + [Succeeds], t.degraded - 1);
    BrokenRunLifts(t, More(failing + [Succeeds], Fails, t.degraded - 1));
  }

  lemma LiftNeeds(t: Thresholds, history: seq<Outcome>)
    requires Positive(t) && LiftsUnhealthy(t, history)
    ensures t.degraded < t.unhealthy && t.recovery >= 4
  {
    AfterSnoc(t, history, Fails);
    NeverNegative(t, history);
    if t.recovery < 4 {
      UnhealthyIsFailing(t, history);
    }
  }

  // ---------- callbacks ----------

  /** The callbacks lead from the initial health to the present one, and each of them is a change. */
  ghost predicate Chain(callbacks: seq<Change>, last: HealthStatus) {
    && (callbacks == [] ==> last == Healthy)
    && (callbacks != [] ==> callbacks[0].from == Healthy && callbacks[|callbacks| - 1].to == last)
    && (forall i :: 0 <= i < |callbacks| ==> callbacks[i].from != callbacks[i].to)
    && (forall i :: 0 < i < |callbacks| ==> callbacks[i - 1].to == callbacks[i].from)
  }

  /** The number of outcomes after which the health was another than before. */
  function Changes(t: Thresholds, history: seq<Outcome>): nat {
    if history == [] then 0
    else
      var before := history[..|history| - 1];
      Changes(t, before) + if After(t, before).health != After(t, history).health then 1 else 0
  }

  /** One callback for each change, in order, and none else. */
  lemma {:induction false} OneCallbackPerChange(t: Thresholds, history: seq<Outcome>)
    ensures |After(t, history).callbacks| == Changes(t, history)
    ensures Chain(After(t, history).callbacks, After(t, history).health)
  {
    if history == [] {
    } else {
      var before := history[..|history| - 1];
      OneCallbackPerChange(t, before);
      var s, s' := After(t, before), After(t, history);
      if s'.health != s.health {
        assert s'.callbacks == s.callbacks + [Change(s.health, s'.health)];
      }
    }
  }

  // ---------- the objects ----------

  class ExecutionMetrics {
    var totalExecutions: int
    var successfulExecutions: int
    var failedExecutions: int
    var timeoutCount: int
    var exceptionCount: int
    var consecutiveFailures: int
    var consecutiveSuccesses: int

    /** The totals add up. */
    predicate Valid()
      reads this
    {
      && totalExecutions == successfulExecutions + failedExecutions
      && failedExecutions == timeoutCount + exceptionCount
    }

    constructor ()
      ensures Valid() && totalExecutions == 0 && consecutiveFailures == 0 && consecutiveSuccesses == 0
    {
      totalExecutions, successfulExecutions, failedExecutions, timeoutCount, exceptionCount := 0, 0, 0, 0, 0;
      consecutiveFailures, consecutiveSuccesses := 0, 0;
    }

    method RecordSuccess()
      requires Valid()
      modifies this
      ensures Valid() && totalExecutions == old(totalExecutions) + 1
      ensures successfulExecutions == old(successfulExecutions) + 1 && timeoutCount == old(timeoutCount)
      ensures consecutiveSuccesses == old(consecutiveSuccesses) + 1 && consecutiveFailures == 0
    {
      totalExecutions := totalExecutions + 1;
      successfulExecutions := successfulExecutions + 1;
      consecutiveSuccesses := consecutiveSuccesses + 1;
      consecutiveFailures := 0;
    }

    method RecordFailure(isTimeout: bool)
      requires Valid()
      modifies this
      ensures Valid() && totalExecutions == old(totalExecutions) + 1
      ensures successfulExecutions == old(successfulExecutions)
      ensures timeoutCount == old(timeoutCount) + if isTimeout then 1 else 0
      ensures consecutiveFailures == old(consecutiveFailures) + 1 && consecutiveSuccesses == 0
    {
      totalExecutions := totalExecutions + 1;
      failedExecutions := failedExecutions + 1;
      consecutiveFailures := consecutiveFailures + 1;
      consecutiveSuccesses := 0;
      if isTimeout {
        timeoutCount := timeoutCount + 1;
      } else {
        exceptionCount := exceptionCount + 1;
      }
    }
  }

  datatype StageOutcome = Done | TimedOut | Raised

  /** The stages of one execution, in order; absent stages are None. The output check follows inference. */
  datatype Stages = Stages(preprocess: Option<StageOutcome>, inference: StageOutcome, validOutput: bool,
                           postprocess: Option<StageOutcome>)

  /** The first stage that does not finish times out. */
  predicate EndsInTimeout(s: Stages) {
    || s.preprocess == Some(TimedOut)
    || ((s.preprocess == None || s.preprocess == Some(Done)) && s.inference == TimedOut)
    || ((s.preprocess == None || s.preprocess == Some(Done)) && s.inference == Done && s.validOutput
        && s.postprocess == Some(TimedOut))
  }

  class ExecutionSandbox {
    const thresholds: Thresholds
    const metrics: ExecutionMetrics
    var health: HealthStatus
    ghost var callbacks: seq<Change>
    ghost var history: seq<Outcome>

    ghost function View(): State
      reads this, metrics
    {
      State(health, metrics.consecutiveFailures, metrics.consecutiveSuccesses, callbacks)
    }

    /** The sandbox is where its history has brought it. */
    ghost predicate Valid()
      reads this, metrics
    {
      metrics.Valid() && View() == After(thresholds, history) && metrics.totalExecutions == |history|
    }

    constructor (thresholds: Thresholds)
      ensures Valid() && this.thresholds == thresholds && history == [] && fresh(metrics)
    {
      this.thresholds := thresholds;
      metrics := new ExecutionMetrics();
      health, callbacks, history := Healthy, [], [];
    }

    method DetermineHealth() returns (r: HealthStatus)
      ensures r == Determine(thresholds, health, metrics.consecutiveFailures, metrics.consecutiveSuccesses)
    {
      if metrics.consecutiveFailures >= thresholds.unhealthy {
        return Unhealthy;
      }
      if metrics.consecutiveFailures >= thresholds.degraded {
        return Degraded;
      }
      if health == Unhealthy {
        if metrics.consecutiveSuccesses >= thresholds.recovery {
          return Healthy;
        } else if metrics.consecutiveSuccesses >= thresholds.recovery / 2 {
          return Degraded;
        }
      }
      if health == Degraded {
        if metrics.consecutiveSuccesses >= thresholds.recovery {
          return Healthy;
        }
      }
      return health;
    }

    /** `_record_success` or `_record_failure`, the callback included. */
    method Record(o: Outcome, isTimeout: bool)
      requires Valid()
      modifies this, metrics
      ensures Valid() && history == old(history) + [o]
      ensures metrics.timeoutCount == old(metrics.timeoutCount) + if o == Fails && isTimeout then 1 else 0
    {
      if o == Succeeds {
        metrics.RecordSuccess();
      } else {
        metrics.RecordFailure(isTimeout);
      }
      var newHealth := DetermineHealth();
      if newHealth != health {
        callbacks := callbacks + [Change(health, newHealth)];
      }
      health := newHealth;
      assert (history + [o])[..|history|] == history;
      history := history + [o];
    }

    /** `execute`: exactly one outcome is recorded, whichever stage ends the execution, and a timeout of
        any stage is counted as one. */
    method Execute(s: Stages) returns (success: bool)
      requires Valid()
      modifies this, metrics
      ensures Valid()
      ensures success <==>
        && (s.preprocess == None || s.preprocess == Some(Done)) && s.inference == Done && s.validOutput
        && (s.postprocess == None || s.postprocess == Some(Done))
      ensures history == old(history) + [if success then Succeeds else Fails]
      ensures metrics.timeoutCount == old(metrics.timeoutCount) + if EndsInTimeout(s) then 1 else 0
    {
      if s.preprocess.Some? {
        if s.preprocess.value != Done {
          Record(Fails, s.preprocess.value == TimedOut);
          return false;
        }
      }
      if s.inference != Done {
        Record(Fails, s.inference == TimedOut);
        return false;
      }
      if !s.validOutput {
        Record(Fails, false);
        return false;
      }
      if s.postprocess.Some? {
        if s.postprocess.value != Done {
          Record(Fails, s.postprocess.value == TimedOut);
          return false;
        }
      }
      Record(Succeeds, false);
      return true;
    }
  }
}
