/** The lockout of aidl/fingerprint: LockoutTracker counts failed attempts, Session reports the lockout and
    starts a detached thread that clears a timed one. Every session call and every expiry is one step, with
    one reading of the clock, in milliseconds. */
module Lockout {

  const TIMED_THRESHOLD := 5
  const TIMED_DURATION := 30 * 1000
  const PERMANENT_THRESHOLD := 20

  datatype Mode = NoLockout | Timed | Permanent

  datatype Tracker = Tracker(failed: nat, timedStart: int, mode: Mode)

  // threads: when each outstanding expiry thread is due.
  datatype State = State(tracker: Tracker, started: bool, aborted: bool, threads: seq<int>, now: int)

  datatype Step = Failed | Succeeded | ResetLockout | PointerDown | Expire(thread: nat) | Tick(now: int)

  // ----- The tracker -----

  function Reset(t: Tracker, clearAttemptCounter: bool): Tracker {
    Tracker(if clearAttemptCounter then 0 else t.failed, 0, NoLockout)
  }

  function AddFailedAttempt(t: Tracker, now: int): Tracker {
    var failed := t.failed + 1;
    if failed >= PERMANENT_THRESHOLD then Tracker(failed, t.timedStart, Permanent)
    else if failed >= TIMED_THRESHOLD then Tracker(failed, now, Timed)
    else t.(failed := failed)
  }

  function Refresh(t: Tracker, now: int): Tracker {
    if t.mode == Timed && now - t.timedStart >= TIMED_DURATION then t.(mode := NoLockout, timedStart := 0) else t
  }

  function TimeLeft(t: Tracker, now: int): int {
    if t.timedStart > 0 then TIMED_DURATION - (now - t.timedStart) else 0
  }

  // ----- The session -----

  // checkSensorLockout
  function Check(s: State): State {
    var t := Refresh(s.tracker, s.now);
    match t.mode
    case Permanent => s.(tracker := t, aborted := true)
    case Timed =>
      if s.started then s.(tracker := t)
      else s.(tracker := t, started := true, aborted := false, threads := s.threads + [s.now + TimeLeft(t, s.now)])
    case NoLockout => s.(tracker := t)
  }

  predicate Enabled(s: State, step: Step) {
    match step
    case Expire(i) => i < |s.threads| && s.threads[i] <= s.now
    case Tick(now) => s.now <= now
    case _ => true
  }

  function Next(s: State, step: Step): State
    requires Enabled(s, step)
  {
    match step
    case Failed => Check(s.(tracker := AddFailedAttempt(s.tracker, s.now)))
    case Succeeded => s.(tracker := Reset(s.tracker, true))
    case ResetLockout => s.(tracker := Reset(s.tracker, true), aborted := true)
    case PointerDown => Check(s)
    case Expire(i) =>
      State(if s.aborted then s.tracker else Reset(s.tracker, false), false, false,
            s.threads[..i] + s.threads[i + 1..], s.now)
    case Tick(now) => s.(now := now)
  }

  // The clock counts from boot and has started.
  predicate IsStart(s: State) {
    s.tracker.failed == 0 && s.tracker.mode == NoLockout && !s.started && s.threads == [] && s.now > 0
  }

  ghost predicate IsRun(start: State, steps: seq<Step>)
    decreases |steps|
  {
    IsStart(start) &&
    (steps == [] ||
     (IsRun(start, steps[..|steps| - 1]) && Enabled(After(start, steps[..|steps| - 1]), steps[|steps| - 1])))
  }

  function After(start: State, steps: seq<Step>): State
    decreases |steps|
  {
    if steps == [] then start
    else
      var s := After(start, steps[..|steps| - 1]);
      if Enabled(s, steps[|steps| - 1]) then Next(s, steps[|steps| - 1]) else s
  }

  // ----- Invariants -----

  predicate Inv(s: State) {
    && (s.tracker.mode == Permanent <==> s.tracker.failed >= PERMANENT_THRESHOLD)
    && (s.tracker.mode == Timed ==> s.tracker.failed >= TIMED_THRESHOLD && 0 < s.tracker.timedStart <= s.now)
    && |s.threads| == (if s.started then 1 else 0)
    && (s.tracker.mode == Permanent && s.started ==> s.aborted)
    && (s.tracker.mode == Timed && s.started ==> s.threads[0] <= s.tracker.timedStart + TIMED_DURATION)
    && (s.started ==> s.threads[0] <= s.now + TIMED_DURATION)
    && s.now > 0
  }

  lemma StepKeeps(s: State, step: Step)
    requires Inv(s) && Enabled(s, step)
    ensures Inv(Next(s, step))
  {
  }

  lemma {:induction false} RunKeeps(start: State, steps: seq<Step>)
    requires IsRun(start, steps)
    ensures Inv(After(start, steps))
    decreases |steps|
  {
    if steps != [] {
      RunKeeps(start, steps[..|steps| - 1]);
      StepKeeps(After(start, steps[..|steps| - 1]), steps[|steps| - 1]);
    }
  }

  // ----- What a history says -----

  // Failed attempts since the last success or reset.
  function FailuresSince(steps: seq<Step>): nat {
    if steps == [] then 0
    else match steps[|steps| - 1]
      case Failed => FailuresSince(steps[..|steps| - 1]) + 1
      case Succeeded => 0
      case ResetLockout => 0
      case _ => FailuresSince(steps[..|steps| - 1])
  }

  lemma {:induction false} CountIsHistory(start: State, steps: seq<Step>)
    requires IsRun(start, steps)
    ensures After(start, steps).tracker.failed == FailuresSince(steps)
    decreases |steps|
  {
    if steps != [] {
      CountIsHistory(start, steps[..|steps| - 1]);
    }
  }

  // Over every run: the lockout is permanent iff twenty attempts have failed since the last success or reset, and
  // at most one expiry thread is outstanding.
  lemma PermanentExactly(start: State, steps: seq<Step>)
    requires IsRun(start, steps)
    ensures var s := After(start, steps);
      && (s.tracker.mode == Permanent <==> FailuresSince(steps) >= PERMANENT_THRESHOLD)
      && |s.threads| <= 1 && (s.started <==> |s.threads| == 1)
  {
    RunKeeps(start, steps);
    CountIsHistory(start, steps);
  }

  // Over every run: only a success or a reset ends a permanent lockout; no expiry does.
  lemma PermanentEndsOnlyByReset(start: State, steps: seq<Step>, step: Step)
    requires IsRun(start, steps) && After(start, steps).tracker.mode == Permanent && Enabled(After(start, steps), step)
    ensures Next(After(start, steps), step).tracker.mode != Permanent <==> step.Succeeded? || step.ResetLockout?
  {
    RunKeeps(start, steps);
  }

  // Over every run: what a failed attempt leads to is told by how many have failed since the last success or reset,
  // this one included: nothing up to four, a timed lockout from five, a permanent one from twenty.
  lemma LockedExactly(start: State, steps: seq<Step>)
    requires IsRun(start, steps)
    ensures var n := FailuresSince(steps) + 1; var r := Next(After(start, steps), Failed);
      && (r.tracker.mode == NoLockout <==> n < 5)
      && (r.tracker.mode == Timed <==> 5 <= n < 20)
      && (r.tracker.mode == Permanent <==> 20 <= n)
      && (r.tracker.mode == Timed ==> r.started)
  {
    RunKeeps(start, steps);
    CountIsHistory(start, steps);
  }

  // When the last attempt failed.
  function LastFailureAt(start: State, steps: seq<Step>): int
    decreases |steps|
  {
    if steps == [] then 0
    else if steps[|steps| - 1].Failed? then After(start, steps[..|steps| - 1]).now
    else LastFailureAt(start, steps[..|steps| - 1])
  }

  lemma {:induction false} TimedSinceLastFailure(start: State, steps: seq<Step>)
    requires IsRun(start, steps)
    ensures Inv(After(start, steps))
    ensures var t := After(start, steps).tracker; t.mode == Timed ==> t.timedStart == LastFailureAt(start, steps)
    decreases |steps|
  {
    if steps != [] {
      var n := |steps| - 1;
      TimedSinceLastFailure(start, steps[..n]);
      StepKeeps(After(start, steps[..n]), steps[n]);
    }
  }

  // Over every run: a check ends a timed lockout iff thirty seconds have passed since the last failed attempt, and
  // leaves any other mode alone.
  lemma LapsesExactly(start: State, steps: seq<Step>)
    requires IsRun(start, steps)
    ensures var s := After(start, steps); var r := Next(s, PointerDown);
      r.tracker.mode == if s.tracker.mode == Timed && s.now - LastFailureAt(start, steps) >= 30_000 then NoLockout
                        else s.tracker.mode
  {
    TimedSinceLastFailure(start, steps);
  }

  // ----- How long a timed lockout lasts -----

  // An attempt has failed since the expiry thread was started, later than the failure it was started for.
  ghost predicate FailedLater(start: State, steps: seq<Step>)
    decreases |steps|
  {
    steps != [] &&
    var n := |steps| - 1;
    var before, after := After(start, steps[..n]), After(start, steps);
    && before.started && after.started && |before.threads| == 1
    && (FailedLater(start, steps[..n]) || (steps[n].Failed? && before.now > before.threads[0] - TIMED_DURATION))
  }

  // Over every run: the thread that is to clear a timed lockout is due its full length after the last failure
  // exactly when no later attempt has failed since the thread was started.
  lemma {:induction false} ExpiryOnTimeExactly(start: State, steps: seq<Step>)
    requires IsRun(start, steps)
    ensures var s := After(start, steps);
      && Inv(s)
      && (FailedLater(start, steps) ==> s.started && s.now > s.threads[0] - TIMED_DURATION)
      && (s.started && s.tracker.mode == Timed ==>
            (s.threads[0] == s.tracker.timedStart + TIMED_DURATION <==> !FailedLater(start, steps)))
    decreases |steps|
  {
    if steps != [] {
      var n := |steps| - 1;
      ExpiryOnTimeExactly(start, steps[..n]);
      StepKeeps(After(start, steps[..n]), steps[n]);
    }
  }

  // The expiry thread, waking up at time t, ends the lockout.
  predicate ClearsAt(s: State, t: int) {
    var due := s.(now := t);
    s.now <= t && Enabled(due, Expire(0)) && Next(due, Expire(0)).tracker.mode == NoLockout
  }

  // It may do so before the lockout has lasted its full length since the last failure.
  ghost predicate ClearedEarly(s: State) {
    exists t :: ClearsAt(s, t) && t < s.tracker.timedStart + TIMED_DURATION
  }

  // Over every run: the thread can clear a timed lockout early exactly when that has not lapsed, a later attempt has
  // failed since the thread was started, and the thread is not aborted.
  lemma ClearedEarlyExactly(start: State, steps: seq<Step>)
    requires IsRun(start, steps)
    requires After(start, steps).tracker.mode == Timed && After(start, steps).started
    ensures var s := After(start, steps);
      ClearedEarly(s) <==> s.now < s.tracker.timedStart + TIMED_DURATION && FailedLater(start, steps) && !s.aborted
  {
    ExpiryOnTimeExactly(start, steps);
    var s := After(start, steps);
    if s.now < s.tracker.timedStart + TIMED_DURATION && FailedLater(start, steps) && !s.aborted {
      assert ClearsAt(s, if s.now < s.threads[0] then s.threads[0] else s.now);
    }
  }

  // A reset, or a check that finds the lockout permanent, has come since the expiry thread was started.
  ghost predicate AbortedSince(start: State, steps: seq<Step>)
    decreases |steps|
  {
    steps != [] &&
    var n := |steps| - 1;
    var before, after := After(start, steps[..n]), After(start, steps);
    && before.started && after.started
    && (|| AbortedSince(start, steps[..n])
        || steps[n].ResetLockout?
        || ((steps[n].Failed? || steps[n].PointerDown?) && after.tracker.mode == Permanent))
  }

  lemma {:induction false} AbortedExactly(start: State, steps: seq<Step>)
    requires IsRun(start, steps)
    ensures Inv(After(start, steps))
    ensures After(start, steps).started ==> (After(start, steps).aborted <==> AbortedSince(start, steps))
    decreases |steps|
  {
    if steps != [] {
      var n := |steps| - 1;
      AbortedExactly(start, steps[..n]);
      StepKeeps(After(start, steps[..n]), steps[n]);
    }
  }

  // Over every run: the thread marked as started for a timed lockout will ever clear it exactly when neither a reset
  // nor a permanent lockout has come since it was started; otherwise only the lapse of time, seen by the next check,
  // does.
  lemma ThreadClearsExactly(start: State, steps: seq<Step>)
    requires IsRun(start, steps)
    requires After(start, steps).tracker.mode == Timed && After(start, steps).started
    ensures (exists t :: ClearsAt(After(start, steps), t)) <==> !AbortedSince(start, steps)
  {
    AbortedExactly(start, steps);
    var s := After(start, steps);
    if !s.aborted {
      assert ClearsAt(s, if s.now < s.threads[0] then s.threads[0] else s.now);
    }
  }

  // ----- Two such runs -----

  lemma OneMore(start: State, steps: seq<Step>, step: Step)
    requires IsRun(start, steps) && Enabled(After(start, steps), step)
    ensures IsRun(start, steps + [step]) && After(start, steps + [step]) == Next(After(start, steps), step)
  {
    assert (steps + [step])[..|steps|] == steps;
  }

  function Failures(n: nat): (r: seq<Step>)
    ensures |r| == n
  {
    if n == 0 then [] else Failures(n - 1) + [Failed]
  }

  lemma {:induction false} FewFailures(start: State, steps: seq<Step>, n: nat)
    requires IsRun(start, steps) && n < TIMED_THRESHOLD
    requires After(start, steps).tracker.failed == 0 && After(start, steps).tracker.mode == NoLockout
    ensures var s := After(start, steps);
      IsRun(start, steps + Failures(n)) && After(start, steps + Failures(n)) == s.(tracker := s.tracker.(failed := n))
  {
    if n == 0 {
      assert steps + Failures(0) == steps;
    } else {
      FewFailures(start, steps, n - 1);
      FailsQuietly(start, steps + Failures(n - 1));
      assert steps + Failures(n) == steps + Failures(n - 1) + [Failed];
    }
  }

  lemma FailsQuietly(start: State, steps: seq<Step>)
    requires IsRun(start, steps)
    requires After(start, steps).tracker.mode == NoLockout && After(start, steps).tracker.failed + 1 < TIMED_THRESHOLD
    ensures var s := After(start, steps);
      && IsRun(start, steps + [Failed])
      && After(start, steps + [Failed]) == s.(tracker := s.tracker.(failed := s.tracker.failed + 1))
  {
    OneMore(start, steps, Failed);
  }

  // Five failures in a row lock; the thread is started unless one is marked as started.
  lemma FiveFailures(start: State, steps: seq<Step>)
    requires IsRun(start, steps)
    requires After(start, steps).tracker.failed == 0 && After(start, steps).tracker.mode == NoLockout
    ensures var s := After(start, steps); var t := Tracker(TIMED_THRESHOLD, s.now, Timed);
      && IsRun(start, steps + Failures(TIMED_THRESHOLD))
      && After(start, steps + Failures(TIMED_THRESHOLD)) ==
         if s.started then s.(tracker := t)
         else s.(tracker := t, started := true, aborted := false, threads := s.threads + [s.now + TIMED_DURATION])
  {
    RunKeeps(start, steps);
    FewFailures(start, steps, TIMED_THRESHOLD - 1);
    OneMore(start, steps + Failures(TIMED_THRESHOLD - 1), Failed);
    assert steps + Failures(TIMED_THRESHOLD) == steps + Failures(TIMED_THRESHOLD - 1) + [Failed];
  }

  // A failure during a timed lockout starts it anew but not the thread, which then clears it early: here ten
  // seconds after the sixth failure.
  lemma SixthFailureClearedEarly(start: State)
    requires IsStart(start)
    ensures var steps := Failures(5) + [Tick(start.now + 20_000), Failed, Tick(start.now + 30_000)];
      && IsRun(start, steps + [Expire(0)])
      && After(start, steps).tracker == Tracker(6, start.now + 20_000, Timed)
      && After(start, steps + [Expire(0)]).tracker.mode == NoLockout
  {
    var tick, due := Tick(start.now + 20_000), Tick(start.now + 30_000);
    FiveFailures(start, []);
    assert [] + Failures(5) == Failures(5);
    OneMore(start, Failures(5), tick);
    OneMore(start, Failures(5) + [tick], Failed);
    OneMore(start, Failures(5) + [tick] + [Failed], due);
    var steps := Failures(5) + [tick, Failed, due];
    assert steps == Failures(5) + [tick] + [Failed] + [due];
    OneMore(start, steps, Expire(0));
  }

  // A reset aborts the thread but leaves it marked as started, so a lockout that follows gets no thread of its own:
  // the aborted one wakes up on time and clears nothing.
  lemma AbortedThreadClearsNothing(start: State)
    requires IsStart(start)
    ensures var steps := Failures(5) + [ResetLockout] + Failures(5) + [Tick(start.now + 30_000)];
      && IsRun(start, steps + [Expire(0)])
      && After(start, steps).started && !FailedLater(start, steps)
      && After(start, steps + [Expire(0)]).tracker == Tracker(5, start.now, Timed)
  {
    FiveFailures(start, []);
    assert [] + Failures(5) == Failures(5);
    OneMore(start, Failures(5), ResetLockout);
    var reset := Failures(5) + [ResetLockout];
    FiveFailures(start, reset);
    var due := Tick(start.now + 30_000);
    OneMore(start, reset + Failures(5), due);
    var steps := reset + Failures(5) + [due];
    ExpiryOnTimeExactly(start, steps);
    OneMore(start, steps, Expire(0));
  }

  // ----- In place -----

  class LockoutTracker {
    var failedCount: nat
    var lockoutTimedStart: int
    var currentMode: Mode

    function View(): Tracker
      reads this
    {
      Tracker(failedCount, lockoutTimedStart, currentMode)
    }

    constructor ()
      ensures View() == Tracker(0, 0, NoLockout)
    {
      failedCount, lockoutTimedStart, currentMode := 0, 0, NoLockout;
    }

    method ResetTracker(clearAttemptCounter: bool)
      modifies this
      ensures View() == Reset(old(View()), clearAttemptCounter)
    {
      if clearAttemptCounter {
        failedCount := 0;
      }
      lockoutTimedStart := 0;
      currentMode := NoLockout;
    }

    method AddFailed(now: int)
      modifies this
      ensures View() == AddFailedAttempt(old(View()), now)
    {
      failedCount := failedCount + 1;
      if failedCount >= PERMANENT_THRESHOLD {
        currentMode := Permanent;
      } else if failedCount >= TIMED_THRESHOLD {
        currentMode := Timed;
        lockoutTimedStart := now;
      }
    }

    method GetMode(now: int) returns (mode: Mode)
      modifies this
      ensures View() == Refresh(old(View()), now) && mode == currentMode
    {
      if currentMode == Timed && now - lockoutTimedStart >= TIMED_DURATION {
        currentMode := NoLockout;
        lockoutTimedStart := 0;
      }
      return currentMode;
    }

    method GetLockoutTimeLeft(now: int) returns (left: int)
      ensures left == TimeLeft(View(), now)
      ensures lockoutTimedStart > 0 ==> left == 30_000 - (now - lockoutTimedStart)
      ensures View() == Refresh(View(), now) && currentMode == Timed && 0 < lockoutTimedStart <= now ==>
        0 < left <= TIMED_DURATION
    {
      left := 0;
      if lockoutTimedStart > 0 {
        var elapsed := now - lockoutTimedStart;
        left := TIMED_DURATION - elapsed;
      }
    }
  }

  /** The fields of Session that lockout uses; threads are the detached expiry threads. */
  class Session {
    const tracker: LockoutTracker
    var isLockoutTimerStarted: bool
    var isLockoutTimerAborted: bool
    var threads: seq<int>
    var clock: int

    ghost function View(): State
      reads this, tracker
    {
      State(tracker.View(), isLockoutTimerStarted, isLockoutTimerAborted, threads, clock)
    }

    constructor (clock: int)
      requires clock > 0
      ensures IsStart(View())
    {
      tracker := new LockoutTracker();
      isLockoutTimerStarted, isLockoutTimerAborted, threads := false, false, [];
      this.clock := clock;
    }

    method StartLockoutTimer(timeout: int)
      modifies this
      ensures tracker.View() == old(tracker.View()) && clock == old(clock)
      ensures isLockoutTimerStarted && !isLockoutTimerAborted && threads == old(threads) + [clock + timeout]
    {
      isLockoutTimerAborted := false;
      threads := threads + [clock + timeout];
      isLockoutTimerStarted := true;
    }

    method CheckSensorLockout() returns (locked: bool)
      modifies this, tracker
      ensures View() == Check(old(View())) && locked == (tracker.currentMode != NoLockout)
    {
      var mode := tracker.GetMode(clock);
      if mode == Permanent {
        isLockoutTimerAborted := true;
        return true;
      } else if mode == Timed {
        var left := tracker.GetLockoutTimeLeft(clock);
        if !isLockoutTimerStarted {
          StartLockoutTimer(left);
        }
        return true;
      }
      return false;
    }

    // notify, FINGERPRINT_AUTHENTICATED; fid is 0 for an unknown finger.
    method NotifyAuthenticated(fid: int)
      modifies this, tracker
      ensures View() == Next(old(View()), if fid != 0 then Succeeded else Failed)
    {
      if fid != 0 {
        tracker.ResetTracker(true);
      } else {
        tracker.AddFailed(clock);
        var locked := CheckSensorLockout();
      }
    }

    method ResetSessionLockout()
      modifies this, tracker
      ensures View() == Next(old(View()), Step.ResetLockout)
    {
      tracker.ResetTracker(true);
      isLockoutTimerAborted := true;
    }

    // A detached thread wakes up.
    method LockoutTimerExpired(i: nat)
      requires Enabled(View(), Expire(i))
      modifies this, tracker
      ensures View() == Next(old(View()), Expire(i))
    {
      threads := threads[..i] + threads[i + 1..];
      if !isLockoutTimerAborted {
        tracker.ResetTracker(false);
      }
      isLockoutTimerStarted := false;
      isLockoutTimerAborted := false;
    }
  }
}
