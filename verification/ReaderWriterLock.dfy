/**
  The writer-preferring lock `_RWLock` as a state machine over any number of threads.

  Each Python method holds one mutex except while it sleeps on a condition, so its body falls into
  atomic sections: from the call to the first sleep or to the return, and from a wake-up to the next
  sleep or to the return. A section is one `Step`. `Condition.notify` moves one sleeper of the
  condition, any of them, to the notified threads, and does nothing when nobody sleeps.
*/
module ReaderWriterLock {
  import opened Prelude

  type Thread = nat

  /** The three counters of the lock, and where every thread is; a thread in no set is outside. */
  datatype Lock = Lock(
    readers: int,
    writersWaiting: int,
    writerActive: bool,
    readersOk: set<Thread>,      // asleep on the condition _readers_ok
    readNotified: set<Thread>,   // woken from it, about to test again
    reading: set<Thread>,
    writersOk: set<Thread>,      // asleep on the condition _writers_ok
    writeNotified: set<Thread>,  // woken from it, about to test again
    writing: set<Thread>)

  datatype Step =
    | AcquireRead(t: Thread)
    | WakeReader(t: Thread)
    | ReleaseRead(t: Thread, woken: Option<Thread>)
    | AcquireWrite(t: Thread)
    | WakeWriter(t: Thread)
    | ReleaseWrite(t: Thread, woken: Option<Thread>)

  const INIT := Lock(0, 0, false, {}, {}, {}, {}, {}, {})

  function Busy(s: Lock): set<Thread> {
    s.readersOk + s.readNotified + s.reading + s.writersOk + s.writeNotified + s.writing
  }

  // ---------- the atomic sections ----------

  /** The test of `_acquire_read`: sleep, or count the reader in. */
  function TryRead(s: Lock, t: Thread): Lock {
    if s.writerActive || s.writersWaiting > 0
    then s.(readersOk := s.readersOk + {t})
    else s.(readers := s.readers + 1, reading := s.reading + {t})
  }

  /** The test of `_acquire_write`: sleep, or take the lock and stop waiting. */
  function TryWrite(s: Lock, t: Thread): Lock {
    if s.readers > 0 || s.writerActive
    then s.(writersOk := s.writersOk + {t})
    else s.(writerActive := true, writersWaiting := s.writersWaiting - 1, writing := s.writing + {t})
  }

  /** `woken` is what `notify` on the writers' condition may have picked. */
  predicate MayNotify(s: Lock, woken: Option<Thread>) {
    match woken
    case None => s.writersOk == {}
    case Some(w) => w in s.writersOk
  }

  function NotifyWriter(s: Lock, woken: Option<Thread>): Lock {
    match woken
    case None => s
    case Some(w) => s.(writersOk := s.writersOk - {w}, writeNotified := s.writeNotified + {w})
  }

  function LeaveRead(s: Lock, t: Thread): Lock {
    s.(readers := s.readers - 1, reading := s.reading - {t})
  }

  function LeaveWrite(s: Lock, t: Thread): Lock {
    s.(writerActive := false, writing := s.writing - {t})
  }

  predicate Enabled(s: Lock, step: Step) {
    match step
    case AcquireRead(t) => t !in Busy(s)
    case WakeReader(t) => t in s.readNotified
    case ReleaseRead(t, w) => t in s.reading && (if s.readers - 1 == 0 then MayNotify(s, w) else w == None)
    case AcquireWrite(t) => t !in Busy(s)
    case WakeWriter(t) => t in s.writeNotified
    case ReleaseWrite(t, w) => t in s.writing && (if s.writersWaiting > 0 then MayNotify(s, w) else w == None)
  }

  function Apply(s: Lock, step: Step): Lock {
    match step
    case AcquireRead(t) => TryRead(s, t)
    case WakeReader(t) => TryRead(s.(readNotified := s.readNotified - {t}), t)
    case ReleaseRead(t, w) => NotifyWriter(LeaveRead(s, t), w)
    case AcquireWrite(t) => TryWrite(s.(writersWaiting := s.writersWaiting + 1), t)
    case WakeWriter(t) => TryWrite(s.(writeNotified := s.writeNotified - {t}), t)
    case ReleaseWrite(t, w) =>
      if s.writersWaiting > 0
      then NotifyWriter(LeaveWrite(s, t), w)
      else LeaveWrite(s, t).(readNotified := s.readNotified + s.readersOk, readersOk := {})
  }

  // ---------- runs ----------

  predicate Runs(s: Lock, steps: seq<Step>)
    decreases |steps|
  {
    steps == [] || (Enabled(s, steps[0]) && Runs(Apply(s, steps[0]), steps[1..]))
  }

  function After(s: Lock, steps: seq<Step>): Lock
    decreases |steps|
  {
    if steps == [] then s else After(Apply(s, steps[0]), steps[1..])
  }

  // ---------- the invariant ----------

  predicate Apart(s: Lock) {
    && s.readersOk !! s.readNotified !! s.reading !! s.writersOk !! s.writeNotified !! s.writing
  }

  predicate Counted(s: Lock) {
    && s.readers == |s.reading|
    && s.writersWaiting == |s.writersOk| + |s.writeNotified|
    && |s.writing| == (if s.writerActive then 1 else 0)
  }

  predicate Exclusive(s: Lock) {
    s.writerActive ==> s.reading == {}
  }

  /** Whoever sleeps has a reason to, and somebody who will end it. */
  predicate Awaited(s: Lock) {
    && (s.readersOk != {} ==> s.writerActive || s.writersWaiting > 0)
    && (s.writersOk != {} ==> s.readers > 0 || s.writerActive || s.writeNotified != {})
  }

  predicate Inv(s: Lock) {
    Apart(s) && Counted(s) && Exclusive(s) && Awaited(s)
  }

  lemma SetAdd<T>(a: set<T>, t: T)
    requires t !in a
    ensures |a + {t}| == |a| + 1
  {
  }

  lemma SetRemove<T>(a: set<T>, t: T)
    requires t in a
    ensures |a - {t}| == |a| - 1
  {
  }

  lemma InvRead(s: Lock, t: Thread)
    requires Inv(s) && t !in Busy(s)
    ensures Inv(TryRead(s, t))
  {
    SetAdd(s.reading, t);
  }

  /** A writer that has counted itself as waiting but is not yet asleep: it is about to test. */
  predicate InvButWriter(s: Lock, t: Thread) {
    && t !in Busy(s) && Apart(s) && Exclusive(s)
    && s.readers == |s.reading|
    && s.writersWaiting == |s.writersOk| + |s.writeNotified| + 1
    && |s.writing| == (if s.writerActive then 1 else 0)
  }

  lemma InvWrite(s: Lock, t: Thread)
    requires InvButWriter(s, t)
    ensures Inv(TryWrite(s, t))
  {
    if s.readers > 0 || s.writerActive {
      SetAdd(s.writersOk, t);
    } else {
      SetAdd(s.writing, t);
      assert s.reading == {};
    }
  }

  lemma InvNotify(s: Lock, w: Option<Thread>)
    requires Apart(s) && Counted(s) && Exclusive(s) && MayNotify(s, w)
    requires s.readersOk != {} ==> s.writerActive || s.writersWaiting > 0
    ensures Inv(NotifyWriter(s, w))
  {
    if w.Some? {
      SetRemove(s.writersOk, w.value);
      SetAdd(s.writeNotified, w.value);
    }
  }

  lemma InvReleaseWrite(s: Lock, t: Thread, w: Option<Thread>)
    requires Inv(s) && Enabled(s, ReleaseWrite(t, w))
    ensures Inv(Apply(s, ReleaseWrite(t, w)))
  {
    SetRemove(s.writing, t);
    if s.writersWaiting > 0 {
      InvNotify(LeaveWrite(s, t), w);
    } else {
      assert s.writersOk == {} && s.writeNotified == {};
    }
  }

  lemma InvReleaseRead(s: Lock, t: Thread, w: Option<Thread>)
    requires Inv(s) && Enabled(s, ReleaseRead(t, w))
    ensures Inv(Apply(s, ReleaseRead(t, w)))
  {
    SetRemove(s.reading, t);
    if s.readers == 1 {
      InvNotify(LeaveRead(s, t), w);
    }
  }

  lemma InvStep(s: Lock, step: Step)
    requires Inv(s) && Enabled(s, step)
    ensures Inv(Apply(s, step))
  {
    match step
    case AcquireRead(t) => InvRead(s, t);
    case WakeReader(t) => InvRead(s.(readNotified := s.readNotified - {t}), t);
    case ReleaseRead(t, w) => InvReleaseRead(s, t, w);
    case AcquireWrite(t) => InvWrite(s.(writersWaiting := s.writersWaiting + 1), t);
    case WakeWriter(t) =>
      SetRemove(s.writeNotified, t);
      InvWrite(s.(writeNotified := s.writeNotified - {t}), t);
    case ReleaseWrite(t, w) => InvReleaseWrite(s, t, w);
  }

  lemma {:induction false} InvRun(s: Lock, steps: seq<Step>)
    requires Inv(s) && Runs(s, steps)
    ensures Inv(After(s, steps))
    decreases |steps|
  {
    if steps == [] {
    } else {
      InvStep(s, steps[0]);
      InvRun(Apply(s, steps[0]), steps[1..]);
    }
  }

  // ---------- safety ----------

  /** In every interleaving a writer is alone with the lock and the counters tell the truth. */
  lemma MutualExclusion(steps: seq<Step>)
    requires Runs(INIT, steps)
    ensures var s := After(INIT, steps);
      && (s.writing != {} ==> s.reading == {} && |s.writing| == 1)
      && (s.writerActive <==> s.writing != {})
      && s.readers == |s.reading|
      && s.writersWaiting == |s.writersOk + s.writeNotified|
  {
    InvRun(INIT, steps);
    var s := After(INIT, steps);
    if s.writing == {} {
      assert |s.writing| == 0;
    }
  }

  /** No lost wake-up: while a thread sleeps, somebody holds the lock or some woken writer, given
      the mutex next, enters at once. */
  lemma NoLostWakeup(steps: seq<Step>)
    requires Runs(INIT, steps)
    requires After(INIT, steps).readersOk != {} || After(INIT, steps).writersOk != {}
    ensures var s := After(INIT, steps);
      || s.reading != {}
      || s.writing != {}
      || (s.writeNotified != {} && forall t :: t in s.writeNotified ==> Apply(s, WakeWriter(t)).writing == {t})
  {
    InvRun(INIT, steps);
    var s := After(INIT, steps);
    if s.reading == {} && s.writing == {} {
      assert |s.reading| == 0 && |s.writing| == 0;
      assert !s.writerActive && s.readers == 0;
      if s.writersOk == {} {
        assert s.writersWaiting > 0;
        assert s.writeNotified != {};
      }
    }
  }

  // ---------- draining: deadlock freedom and termination ----------

  /** The steps of threads already in the protocol, arrivals excluded. */
  predicate Drains(step: Step) {
    !step.AcquireRead? && !step.AcquireWrite?
  }

  ghost predicate DrainRun(s: Lock, steps: seq<Step>) {
    Runs(s, steps) && forall i :: 0 <= i < |steps| ==> Drains(steps[i])
  }

  lemma SomebodyMayBeNotified(s: Lock)
    ensures exists w :: MayNotify(s, w)
  {
    if s.writersOk == {} {
      assert MayNotify(s, None);
    } else {
      var t :| t in s.writersOk;
      assert MayNotify(s, Some(t));
    }
  }

  /** Deadlock freedom: while anybody is in the protocol, some thread of it can take a step. */
  lemma NoDeadlock(s: Lock)
    requires Inv(s) && Busy(s) != {}
    ensures exists step :: Drains(step) && Enabled(s, step)
  {
    SomebodyMayBeNotified(s);
    var sleeper :| MayNotify(s, sleeper);
    if s.reading != {} {
      var t :| t in s.reading;
      var w := if s.readers - 1 == 0 then sleeper else None;
      assert Drains(ReleaseRead(t, w)) && Enabled(s, ReleaseRead(t, w));
    } else if s.writing != {} {
      var t :| t in s.writing;
      var w := if s.writersWaiting > 0 then sleeper else None;
      assert Drains(ReleaseWrite(t, w)) && Enabled(s, ReleaseWrite(t, w));
    } else if s.readNotified != {} {
      var t :| t in s.readNotified;
      assert Drains(WakeReader(t)) && Enabled(s, WakeReader(t));
    } else {
      assert !s.writerActive && s.readers == 0;
      var t :| t in s.writeNotified;
      assert Drains(WakeWriter(t)) && Enabled(s, WakeWriter(t));
    }
  }

  /** What a thread still has to do: two moves from waiting, one from holding. */
  function Work(s: Lock): nat {
    2 * (|s.readersOk| + |s.readNotified| + |s.writersOk| + |s.writeNotified|) + |s.reading| + |s.writing|
  }

  function Notified(s: Lock): nat {
    |s.readNotified| + |s.writeNotified|
  }

  /** Work first; between two moves of work every wake-up uses up one notification. */
  function Measure(s: Lock, n: nat): nat {
    Work(s) * (n + 1) + Notified(s)
  }

  function Population(s: Lock): nat {
    |s.readersOk| + |s.readNotified| + |s.reading| + |s.writersOk| + |s.writeNotified| + |s.writing|
  }

  lemma DrainStep(s: Lock, step: Step)
    requires Inv(s) && Enabled(s, step) && Drains(step)
    ensures var s' := Apply(s, step);
      && Population(s') <= Population(s)
      && (Work(s') < Work(s) || (Work(s') == Work(s) && Notified(s') < Notified(s)))
  {
    match step
    case WakeReader(t) =>
      SetRemove(s.readNotified, t);
      SetAdd(s.readersOk, t);
      SetAdd(s.reading, t);
    case ReleaseRead(t, w) =>
      SetRemove(s.reading, t);
      NotifyMoves(LeaveRead(s, t), w);
    case WakeWriter(t) =>
      SetRemove(s.writeNotified, t);
      SetAdd(s.writersOk, t);
      SetAdd(s.writing, t);
    case ReleaseWrite(t, w) =>
      SetRemove(s.writing, t);
      if s.writersWaiting > 0 {
        NotifyMoves(LeaveWrite(s, t), w);
      } else {
        assert |s.readNotified + s.readersOk| == |s.readNotified| + |s.readersOk|;
      }
  }

  lemma NotifyMoves(s: Lock, w: Option<Thread>)
    requires Apart(s) && (w.Some? ==> w.value in s.writersOk)
    ensures Work(NotifyWriter(s, w)) == Work(s) && Population(NotifyWriter(s, w)) == Population(s)
  {
  }

  lemma MeasureDrops(work: nat, work': nat, notified: nat, notified': nat, n: nat)
    requires notified' <= n
    requires work' < work || (work' == work && notified' < notified)
    ensures work' * (n + 1) + notified' < work * (n + 1) + notified
  {
    if work' < work {
      assert (work - work' - 1) * (n + 1) >= 0;
      assert work * (n + 1) == work' * (n + 1) + (work - work' - 1) * (n + 1) + (n + 1);
    }
  }

  /** A run without arrivals is no longer than the measure of the state it starts in. */
  lemma {:induction false} DrainBounded(s: Lock, steps: seq<Step>, n: nat)
    requires Inv(s) && DrainRun(s, steps) && Population(s) <= n
    ensures |steps| + Measure(After(s, steps), n) <= Measure(s, n)
    decreases |steps|
  {
    if steps == [] {
    } else {
      var s' := Apply(s, steps[0]);
      InvStep(s, steps[0]);
      DrainStep(s, steps[0]);
      MeasureDrops(Work(s), Work(s'), Notified(s), Notified(s'), n);
      DrainBounded(s', steps[1..], n);
    }
  }

  /** Once arrivals stop and holders keep releasing, every order of wake-ups and releases ends, within
      a bound fixed by the population, and it can only end with every thread out of the protocol. */
  lemma EveryDrainEmptiesTheLock(prefix: seq<Step>, steps: seq<Step>)
    requires Runs(INIT, prefix) && DrainRun(After(INIT, prefix), steps)
    ensures var s := After(INIT, prefix); |steps| <= Measure(s, Population(s))
    ensures var e := After(After(INIT, prefix), steps);
      (forall step :: Drains(step) ==> !Enabled(e, step)) ==> Busy(e) == {} && e == INIT
  {
    InvRun(INIT, prefix);
    var s := After(INIT, prefix);
    DrainBounded(s, steps, Population(s));
    InvRun(s, steps);
    var e := After(s, steps);
    if Busy(e) != {} {
      NoDeadlock(e);
    } else {
      assert e.readersOk == {} && e.readNotified == {} && e.reading == {};
      assert e.writersOk == {} && e.writeNotified == {} && e.writing == {};
    }
  }

  // ---------- writer preference ----------

  predicate WriterWaits(s: Lock) {
    s.writersWaiting > 0
  }

  /** Some writer waits in every state of the run, its last one included. */
  ghost predicate WriterWaitsThroughout(s: Lock, steps: seq<Step>)
    decreases |steps|
  {
    WriterWaits(s) && (steps == [] || WriterWaitsThroughout(Apply(s, steps[0]), steps[1..]))
  }

  function ReadReleases(steps: seq<Step>): nat
    decreases |steps|
  {
    if steps == [] then 0 else (if steps[0].ReleaseRead? then 1 else 0) + ReadReleases(steps[1..])
  }

  /** While a writer waits no reader enters: only the readers already ahead of it hold the lock, and
      each release takes exactly one of them away. */
  lemma {:induction false} ReadersAheadOnlyLeave(s: Lock, steps: seq<Step>)
    requires Inv(s) && Runs(s, steps) && WriterWaitsThroughout(s, steps)
    ensures After(s, steps).reading <= s.reading
    ensures |After(s, steps).reading| == |s.reading| - ReadReleases(steps)
    decreases |steps|
  {
    if steps == [] {
    } else {
      var s' := Apply(s, steps[0]);
      InvStep(s, steps[0]);
      ReadersAheadOnlyLeave(s', steps[1..]);
      if steps[0].ReleaseRead? {
        SetRemove(s.reading, steps[0].t);
      }
    }
  }

  /** The steps that are not arrivals of readers. */
  function OtherSteps(steps: seq<Step>): nat
    decreases |steps|
  {
    if steps == [] then 0 else (if steps[0].AcquireRead? then 0 else 1) + OtherSteps(steps[1..])
  }

  ghost predicate NoWriterArrives(steps: seq<Step>) {
    forall i :: 0 <= i < |steps| ==> !steps[i].AcquireWrite?
  }

  /** What can still happen before a waiting writer enters; sleeping readers do not count. */
  function Patience(s: Lock): nat {
    2 * (|s.writersOk| + |s.writeNotified| + |s.writing| + |s.reading|) + |s.writeNotified| + |s.readNotified|
  }

  lemma PatienceNotify(s: Lock, w: Option<Thread>)
    requires Apart(s) && MayNotify(s, w)
    ensures Patience(NotifyWriter(s, w)) <= Patience(s) + 1
  {
    if w.Some? {
      SetRemove(s.writersOk, w.value);
      SetAdd(s.writeNotified, w.value);
    }
  }

  lemma PatienceStep(s: Lock, step: Step)
    requires Inv(s) && Enabled(s, step) && WriterWaits(s) && !step.AcquireWrite?
    ensures step.AcquireRead? ==> Patience(Apply(s, step)) == Patience(s)
    ensures !step.AcquireRead? ==> Patience(Apply(s, step)) < Patience(s)
  {
    match step
    case AcquireRead(t) =>
    case WakeReader(t) => SetRemove(s.readNotified, t);
    case ReleaseRead(t, w) =>
      SetRemove(s.reading, t);
      if s.readers == 1 {
        PatienceNotify(LeaveRead(s, t), w);
      }
    case WakeWriter(t) =>
      SetRemove(s.writeNotified, t);
      SetAdd(s.writersOk, t);
      SetAdd(s.writing, t);
    case ReleaseWrite(t, w) =>
      SetRemove(s.writing, t);
      PatienceNotify(LeaveWrite(s, t), w);
  }

  lemma {:induction false} PatienceRun(s: Lock, steps: seq<Step>)
    requires Inv(s) && Runs(s, steps) && WriterWaitsThroughout(s, steps) && NoWriterArrives(steps)
    ensures OtherSteps(steps) + Patience(After(s, steps)) <= Patience(s)
    decreases |steps|
  {
    if steps == [] {
    } else {
      InvStep(s, steps[0]);
      assert !steps[0].AcquireWrite?;
      PatienceStep(s, steps[0]);
      PatienceRun(Apply(s, steps[0]), steps[1..]);
    }
  }

  /** A stream of readers cannot hold a waiting writer up: however many arrive, and in whatever order the
      others move, the steps before some writer enters are bounded, arrivals apart, by the state in which
      the waiting began; and in every state on the way some step other than an arrival can be taken. */
  lemma ReadersCannotStarveWriters(prefix: seq<Step>, steps: seq<Step>)
    requires Runs(INIT, prefix) && Runs(After(INIT, prefix), steps)
    requires WriterWaitsThroughout(After(INIT, prefix), steps) && NoWriterArrives(steps)
    ensures OtherSteps(steps) <= Patience(After(INIT, prefix))
    ensures exists step :: Drains(step) && Enabled(After(After(INIT, prefix), steps), step)
  {
    var s := After(INIT, prefix);
    InvRun(INIT, prefix);
    PatienceRun(s, steps);
    InvRun(s, steps);
    WaitsAtTheEnd(s, steps);
    NoDeadlock(After(s, steps));
  }

  lemma {:induction false} WaitsAtTheEnd(s: Lock, steps: seq<Step>)
    requires Inv(s) && Runs(s, steps) && WriterWaitsThroughout(s, steps)
    ensures Busy(After(s, steps)) != {}
    decreases |steps|
  {
    if steps == [] {
      assert s.writersOk + s.writeNotified != {};
    } else {
      InvStep(s, steps[0]);
      WaitsAtTheEnd(Apply(s, steps[0]), steps[1..]);
    }
  }

  // ---------- what the preference does not give ----------

  function Acquisitions(s: Lock, steps: seq<Step>): nat
    decreases |steps|
  {
    if steps == [] then 0
    else
      var s' := Apply(s, steps[0]);
      (if s.writing == {} && s'.writing != {} then 1 else 0) + Acquisitions(s', steps[1..])
  }

  /** Thread 2 writes while writer 1 and reader 3 sleep. */
  const BARGED := Lock(0, 1, true, {3}, {}, {}, {1}, {}, {2})

  const BARGE_CYCLE := [ReleaseWrite(2, Some(1)), AcquireWrite(2), WakeWriter(1)]

  function Barging(n: nat): seq<Step> {
    if n == 0 then [] else BARGE_CYCLE + Barging(n - 1)
  }

  /** Writer w is out of the lock and waiting, and reader r asleep, in every state of the run. */
  ghost predicate LeftWaiting(s: Lock, steps: seq<Step>, w: Thread, r: Thread)
    decreases |steps|
  {
    && w in s.writersOk + s.writeNotified
    && r in s.readersOk
    && (steps == [] || LeftWaiting(Apply(s, steps[0]), steps[1..], w, r))
  }

  lemma BargeOnce(rest: seq<Step>)
    requires Runs(BARGED, rest) && LeftWaiting(BARGED, rest, 1, 3)
    ensures Runs(BARGED, BARGE_CYCLE + rest) && LeftWaiting(BARGED, BARGE_CYCLE + rest, 1, 3)
    ensures After(BARGED, BARGE_CYCLE + rest) == After(BARGED, rest)
    ensures Acquisitions(BARGED, BARGE_CYCLE + rest) == 1 + Acquisitions(BARGED, rest)
  {
    var s1 := Lock(0, 1, false, {3}, {}, {}, {}, {1}, {});
    var s2 := Lock(0, 1, true, {3}, {}, {}, {}, {1}, {2});
    var wake, enter := [WakeWriter(1)] + rest, [AcquireWrite(2), WakeWriter(1)] + rest;
    assert wake[1..] == rest && Apply(s2, wake[0]) == BARGED;
    assert Runs(s2, wake) && LeftWaiting(s2, wake, 1, 3) && After(s2, wake) == After(BARGED, rest);
    assert enter[1..] == wake && Apply(s1, enter[0]) == s2;
    assert Runs(s1, enter) && LeftWaiting(s1, enter, 1, 3) && After(s1, enter) == After(BARGED, rest);
    assert Acquisitions(s2, wake) == Acquisitions(BARGED, rest);
    assert Acquisitions(s1, enter) == 1 + Acquisitions(s2, wake);
    var all := BARGE_CYCLE + rest;
    assert all[1..] == enter && all[0] == ReleaseWrite(2, Some(1)) && Apply(BARGED, all[0]) == s1;
  }

  lemma {:induction false} BargingRuns(n: nat)
    ensures Runs(BARGED, Barging(n)) && After(BARGED, Barging(n)) == BARGED
    ensures LeftWaiting(BARGED, Barging(n), 1, 3)
    ensures Acquisitions(BARGED, Barging(n)) == n
  {
    if n == 0 {
    } else {
      BargingRuns(n - 1);
      BargeOnce(Barging(n - 1));
    }
  }

  /** The lock is not fair among writers, nor to readers: for every n there is a run in which one
      thread takes the write lock n more times while another writer and a reader wait throughout,
      although the writer is notified each time. */
  lemma WritersCanOvertakeForever(n: nat)
    ensures exists prefix, steps ::
      && Runs(INIT, prefix) && Runs(After(INIT, prefix), steps)
      && Acquisitions(After(INIT, prefix), steps) == n
      && LeftWaiting(After(INIT, prefix), steps, 1, 3)
  {
    var prefix := [AcquireWrite(2), AcquireWrite(1), AcquireRead(3)];
    var s1 := Lock(0, 0, true, {}, {}, {}, {}, {}, {2});
    var s2 := Lock(0, 1, true, {}, {}, {}, {1}, {}, {2});
    assert Apply(INIT, prefix[0]) == s1 && Apply(s1, prefix[1]) == s2 && Apply(s2, prefix[2]) == BARGED;
    assert prefix[1..][0] == prefix[1] && prefix[1..][1..] == [prefix[2]] && [prefix[2]][1..] == [];
    assert Runs(INIT, prefix) && After(INIT, prefix) == BARGED;
    BargingRuns(n);
    assert Runs(After(INIT, prefix), Barging(n));
  }

  // ---------- the object ----------

  /** The lock object. Its methods are the atomic sections; the ghost fields say where the threads
      are that no condition queue holds. */
  class RWLock {
    var readers: int
    var writersWaiting: int
    var writerActive: bool
    var readersOk: set<Thread>
    var writersOk: set<Thread>
    ghost var readNotified: set<Thread>
    ghost var reading: set<Thread>
    ghost var writeNotified: set<Thread>
    ghost var writing: set<Thread>

    ghost function State(): Lock
      reads this
    {
      Lock(readers, writersWaiting, writerActive,
           readersOk, readNotified, reading, writersOk, writeNotified, writing)
    }

    constructor ()
      ensures State() == INIT
    {
      readers, writersWaiting, writerActive := 0, 0, false;
      readersOk, writersOk := {}, {};
      readNotified, reading, writeNotified, writing := {}, {}, {}, {};
    }

    /** `_acquire_read` up to its first sleep or its return. */
    method AcquireRead(t: Thread) returns (entered: bool)
      requires Enabled(State(), Step.AcquireRead(t))
      modifies this
      ensures State() == Apply(old(State()), Step.AcquireRead(t))
      ensures entered <==> t in reading
      ensures entered <==> !old(writerActive) && old(writersWaiting) <= 0
    {
      entered := TestRead(t);
    }

    /** `_acquire_read` from a wake-up to its next sleep or its return. */
    method WakeReader(t: Thread) returns (entered: bool)
      requires Inv(State()) && Enabled(State(), Step.WakeReader(t))
      modifies this
      ensures State() == Apply(old(State()), Step.WakeReader(t))
      ensures entered <==> t in reading
    {
      readNotified := readNotified - {t};
      entered := TestRead(t);
    }

    /** One evaluation of the loop test of `_acquire_read`, and what follows it. */
    method TestRead(t: Thread) returns (entered: bool)
      requires t !in reading
      modifies this
      ensures State() == TryRead(old(State()), t)
      ensures entered <==> t in reading
    {
      if writerActive || writersWaiting > 0 {
        readersOk := readersOk + {t};
        entered := false;
      } else {
        readers := readers + 1;
        reading := reading + {t};
        entered := true;
      }
    }

    method ReleaseRead(t: Thread) returns (woken: Option<Thread>)
      requires t in reading
      modifies this
      ensures Enabled(old(State()), Step.ReleaseRead(t, woken))
      ensures State() == Apply(old(State()), Step.ReleaseRead(t, woken))
      ensures woken.Some? <==> old(readers) == 1 && old(writersOk) != {}
      ensures readersOk == old(readersOk)
    {
      readers := readers - 1;
      reading := reading - {t};
      woken := None;
      if readers == 0 {
        woken := Notify();
      }
    }

    method AcquireWrite(t: Thread) returns (entered: bool)
      requires Enabled(State(), Step.AcquireWrite(t))
      modifies this
      ensures State() == Apply(old(State()), Step.AcquireWrite(t))
      ensures entered <==> t in writing
      ensures entered <==> !old(writerActive) && old(readers) <= 0
    {
      writersWaiting := writersWaiting + 1;
      entered := TestWrite(t);
    }

    method WakeWriter(t: Thread) returns (entered: bool)
      requires Inv(State()) && Enabled(State(), Step.WakeWriter(t))
      modifies this
      ensures State() == Apply(old(State()), Step.WakeWriter(t))
      ensures entered <==> t in writing
    {
      writeNotified := writeNotified - {t};
      entered := TestWrite(t);
    }

    method TestWrite(t: Thread) returns (entered: bool)
      requires t !in writing
      modifies this
      ensures State() == TryWrite(old(State()), t)
      ensures entered <==> t in writing
    {
      if readers > 0 || writerActive {
        writersOk := writersOk + {t};
        entered := false;
      } else {
        writerActive := true;
        writersWaiting := writersWaiting - 1;
        writing := writing + {t};
        entered := true;
      }
    }

    method ReleaseWrite(t: Thread) returns (woken: Option<Thread>)
      requires t in writing
      modifies this
      ensures Enabled(old(State()), Step.ReleaseWrite(t, woken))
      ensures State() == Apply(old(State()), Step.ReleaseWrite(t, woken))
      ensures woken.Some? <==> old(writersWaiting) > 0 && old(writersOk) != {}
      ensures readersOk == if old(writersWaiting) > 0 then old(readersOk) else {}
    {
      writerActive := false;
      writing := writing - {t};
      woken := None;
      if writersWaiting > 0 {
        woken := Notify();
      } else {
        readNotified := readNotified + readersOk;
        readersOk := {};
      }
    }

    /** `_writers_ok.notify()`. */
    method Notify() returns (woken: Option<Thread>)
      modifies this
      ensures MayNotify(old(State()), woken)
      ensures State() == NotifyWriter(old(State()), woken)
    {
      woken := None;
      if writersOk != {} {
        var w :| w in writersOk;
        writersOk := writersOk - {w};
        writeNotified := writeNotified + {w};
        woken := Some(w);
      }
    }
  }
}
