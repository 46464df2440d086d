/** The counted wake lock of ril/libril/ril.cpp, for RIL version 13 and up. Every grab starts a timer and
    cancels the one before by a flag; an uncancelled timer drops the lock when it fires. The locked regions
    are one step each, and a timer's callback is three: the flag is read, then the callback runs, then the
    record of the last timer is cleared. Grabs and releases may come between them. */
module WakeLock {
  import opened Options

  // A queued callback; userParam is its cancellation flag.
  class UserCallbackInfo {
    var userParam: bool

    constructor ()
      ensures !userParam
    {
      userParam := false;
    }
  }

  // Called: the flag has been read as `cancelled`, the callback has not run. Returned: it has.
  datatype Firing = Idle | Called(timer: UserCallbackInfo, cancelled: bool) | Returned(timer: UserCallbackInfo)

  datatype State = State(
    held: bool,
    count: nat,
    last: Option<UserCallbackInfo>,
    known: set<UserCallbackInfo>,
    queued: set<UserCallbackInfo>,
    cancelled: set<UserCallbackInfo>,
    firing: Firing)

  // GrabWithoutMemory: the timer could not be allocated.
  datatype Step =
    | Grab(timer: UserCallbackInfo) | GrabWithoutMemory | Release
    | Begin(timer: UserCallbackInfo) | Callback | Finish

  predicate Enabled(s: State, step: Step) {
    match step
    case Grab(t) => t !in s.known
    case GrabWithoutMemory => true
    case Release => true
    case Begin(t) => t in s.queued && s.firing.Idle?
    case Callback => s.firing.Called?
    case Finish => s.firing.Returned?
  }

  function CancelLast(s: State): set<UserCallbackInfo> {
    if s.last.Some? then s.cancelled + {s.last.value} else s.cancelled
  }

  function Next(s: State, step: Step): State
    requires Enabled(s, step)
  {
    match step
    case Grab(t) =>
      State(true, s.count + 1, Some(t), s.known + {t}, s.queued + {t}, CancelLast(s), s.firing)
    case GrabWithoutMemory => s.(held := false)
    case Release =>
      if s.count > 1 then s.(count := s.count - 1) else s.(count := 0, held := false, cancelled := CancelLast(s))
    case Begin(t) => s.(queued := s.queued - {t}, firing := Called(t, t in s.cancelled))
    case Callback =>
      var r := s.(firing := Returned(s.firing.timer));
      if s.firing.cancelled then r else r.(count := 0, held := false)
    case Finish => s.(last := if s.last == Some(s.firing.timer) then None else s.last, firing := Idle)
  }

  function Start(): State { State(false, 0, None, {}, {}, {}, Idle) }

  ghost predicate IsRun(steps: seq<Step>)
    decreases |steps|
  {
    steps == [] || (IsRun(steps[..|steps| - 1]) && Enabled(After(steps[..|steps| - 1]), steps[|steps| - 1]))
  }

  function After(steps: seq<Step>): State
    decreases |steps|
  {
    if steps == [] then Start()
    else
      var s := After(steps[..|steps| - 1]);
      var step := steps[|steps| - 1];
      if Enabled(s, step) then Next(s, step) else s
  }

  // t will still drop the lock: it is queued, or its callback is about to run, and it has not been cancelled.
  predicate Live(s: State, t: UserCallbackInfo) {
    t !in s.cancelled && (t in s.queued || s.firing == Called(t, false))
  }

  // No timer but the last one recorded is live; the bookkeeping points at timers that exist.
  predicate OnlyLastLives(s: State) {
    && (forall t :: t in s.queued && t !in s.cancelled ==> s.last == Some(t))
    && s.queued <= s.known && s.cancelled <= s.known
    && (s.last.Some? ==> s.last.value in s.known && (s.last.value in s.queued || FiringTimer(s) == s.last))
    && (FiringTimer(s).Some? ==> FiringTimer(s).value in s.known && FiringTimer(s).value !in s.queued)
    && (s.firing.Called? && s.firing.cancelled ==> s.firing.timer in s.cancelled)
    && (s.firing.Called? && s.firing.timer !in s.cancelled ==> s.last == Some(s.firing.timer))
  }

  function FiringTimer(s: State): Option<UserCallbackInfo> {
    if s.firing.Idle? then None else Some(s.firing.timer)
  }

  // The lock is held iff the count is positive, and while it is held the last timer recorded will drop it.
  predicate Sound(s: State) {
    && (s.held <==> s.count > 0)
    && (s.held ==> s.last.Some? && Live(s, s.last.value))
  }

  lemma TimersKeep(s: State, step: Step)
    requires OnlyLastLives(s) && Enabled(s, step)
    ensures OnlyLastLives(Next(s, step))
  {
  }

  // A grab that finds no memory drops the lock, and that is sound exactly when nobody held it.
  lemma StepKeepsExactly(s: State, step: Step)
    requires OnlyLastLives(s) && Sound(s) && Enabled(s, step)
    ensures Sound(Next(s, step)) <==> (step.GrabWithoutMemory? ==> s.count == 0)
  {
  }

  // Such a run: the lock is dropped under a grab that has neither been released nor timed out.
  lemma GrabWithoutMemoryDrops(t: UserCallbackInfo)
    ensures var run := [Grab(t), GrabWithoutMemory];
      IsRun(run) && After(run).count == 1 && !After(run).held && !Sound(After(run))
  {
    var one, two := [Grab(t)], [Grab(t), GrabWithoutMemory];
    assert one[..0] == [] && two[..1] == one;
    assert After(one) == Next(Start(), Grab(t)) && IsRun(one);
    assert After(two) == Next(After(one), GrabWithoutMemory);
  }

  // Memory never runs out while the lock is held.
  ghost predicate MemoryLasts(steps: seq<Step>) {
    forall i :: 0 <= i < |steps| && steps[i].GrabWithoutMemory? ==> After(steps[..i]).count == 0
  }

  lemma {:induction false} RunKeeps(steps: seq<Step>)
    requires IsRun(steps) && MemoryLasts(steps)
    ensures OnlyLastLives(After(steps)) && Sound(After(steps))
    decreases |steps|
  {
    if steps != [] {
      var n := |steps| - 1;
      forall i | 0 <= i < n && steps[..n][i].GrabWithoutMemory?
        ensures After(steps[..n][..i]).count == 0
      {
        assert steps[..n][..i] == steps[..i];
      }
      RunKeeps(steps[..n]);
      TimersKeep(After(steps[..n]), steps[n]);
      StepKeepsExactly(After(steps[..n]), steps[n]);
    }
  }

  // The timer of the most recent grab.
  function Newest(steps: seq<Step>): Option<UserCallbackInfo> {
    if steps == [] then None
    else if steps[|steps| - 1].Grab? then Some(steps[|steps| - 1].timer)
    else Newest(steps[..|steps| - 1])
  }

  lemma {:induction false} LastIsNewest(steps: seq<Step>)
    requires IsRun(steps)
    ensures After(steps).last.Some? ==> After(steps).last == Newest(steps)
    decreases |steps|
  {
    if steps != [] {
      LastIsNewest(steps[..|steps| - 1]);
    }
  }

  // Over every run: while the lock is held, the one live timer is that of the most recent grab.
  lemma HeldUntilNewestTimer(steps: seq<Step>, t: UserCallbackInfo)
    requires IsRun(steps) && MemoryLasts(steps)
    ensures var s := After(steps);
      && (s.held <==> s.count > 0)
      && (s.held ==> (Live(s, t) <==> Newest(steps) == Some(t)))
  {
    RunKeeps(steps);
    LastIsNewest(steps);
  }

  // Over every run: once the timer of the most recent grab has run its callback the lock is free.
  lemma NewestTimerDrops(steps: seq<Step>)
    requires IsRun(steps) && MemoryLasts(steps)
    requires After(steps).firing.Called? && Newest(steps) == Some(After(steps).firing.timer)
    ensures !Next(After(steps), Callback).held
  {
    RunKeeps(steps);
    LastIsNewest(steps);
  }

  // ----- What one release gives back -----

  // Grabs not yet released or timed out: a grab adds one, a release takes one off, an uncancelled timer all.
  function Owed(steps: seq<Step>): nat
    decreases |steps|
  {
    if steps == [] then 0
    else
      var n := |steps| - 1;
      var before := Owed(steps[..n]);
      match steps[n]
      case Grab(_) => before + 1
      case Release => if before > 0 then before - 1 else 0
      case Callback => if Uncancelled(After(steps[..n])) then 0 else before
      case _ => before
  }

  // The callback about to run belongs to a timer whose flag was read as not cancelled.
  predicate Uncancelled(s: State) { s.firing.Called? && !s.firing.cancelled }

  // Over every run: the count is the number of grabs owed.
  lemma {:induction false} CountIsOwed(steps: seq<Step>)
    requires IsRun(steps)
    ensures After(steps).count == Owed(steps)
    decreases |steps|
  {
    if steps != [] {
      CountIsOwed(steps[..|steps| - 1]);
    }
  }

  // Over every run: a release frees the lock and calls off every timer iff at most one grab is owed; otherwise the
  // lock, and every timer that would drop it, stays as it was.
  lemma ReleaseGivesBackOne(steps: seq<Step>, t: UserCallbackInfo)
    requires IsRun(steps) && MemoryLasts(steps)
    ensures var s := After(steps); var r := Next(s, Release);
      && (r.held <==> Owed(steps) > 1)
      && (Live(r, t) <==> Live(s, t) && Owed(steps) > 1)
  {
    RunKeeps(steps);
    CountIsOwed(steps);
  }

  // With two grabs, one release leaves the lock held, and the newer grab's timer set to drop it.
  lemma OneReleaseOfTwo(a: UserCallbackInfo, b: UserCallbackInfo)
    requires a != b
    ensures var run := [Grab(a), Grab(b), Release];
      IsRun(run) && After(run).held && After(run).count == 1 && Live(After(run), b)
  {
    var one, two, three := [Grab(a)], [Grab(a), Grab(b)], [Grab(a), Grab(b), Release];
    assert one[..0] == [] && two[..1] == one && three[..2] == two;
    assert After(one) == Next(Start(), Grab(a)) && IsRun(one);
    assert After(two) == Next(After(one), Grab(b)) && IsRun(two);
    assert After(three) == Next(After(two), Release);
  }

  // ----- Which grab a firing timer cuts short -----

  // A grab has come since the firing timer's flag was read.
  ghost predicate GrabbedSinceBegin(steps: seq<Step>) {
    steps != [] && !steps[|steps| - 1].Begin?
    && (steps[|steps| - 1].Grab? || GrabbedSinceBegin(steps[..|steps| - 1]))
  }

  // Over every run: an uncancelled callback drops the lock of its own grab, or, exactly when another grab has come
  // since its flag was read, that of the newer grab.
  lemma {:induction false} DropsItsOwnGrab(steps: seq<Step>)
    requires IsRun(steps)
    ensures OnlyLastLives(After(steps))
    ensures var s := After(steps);
      s.firing.Called? && !s.firing.cancelled ==> (s.last == Some(s.firing.timer) <==> !GrabbedSinceBegin(steps))
    decreases |steps|
  {
    if steps != [] {
      var n := |steps| - 1;
      DropsItsOwnGrab(steps[..n]);
      TimersKeep(After(steps[..n]), steps[n]);
    }
  }

  // Such a run: the newer grab's lock is dropped although its timer is still queued.
  lemma NewerGrabCutShort(a: UserCallbackInfo, b: UserCallbackInfo)
    requires a != b
    ensures var steps := [Grab(a), Begin(a), Grab(b)];
      IsRun(steps) && After(steps).held && Live(After(steps), b) && After(steps).firing == Called(a, false)
    ensures var steps := [Grab(a), Begin(a), Grab(b), Callback];
      IsRun(steps) && !After(steps).held && After(steps).last == Some(b) && b in After(steps).queued
  {
    var one, two := [Grab(a)], [Grab(a), Begin(a)];
    var three, four := [Grab(a), Begin(a), Grab(b)], [Grab(a), Begin(a), Grab(b), Callback];
    assert one[..0] == [] && two[..1] == one && three[..2] == two && four[..3] == three;
    assert After(one) == Next(Start(), Grab(a)) && IsRun(one);
    assert After(two) == Next(After(one), Begin(a)) && IsRun(two);
    assert After(three) == Next(After(two), Grab(b)) && IsRun(three);
  }

  // ----- The lock in place -----

  /** s_wakelock_count, s_last_wake_timeout_info and the kernel's lock; the timers and the callback under way are
      those of the event loop. */
  class WakeLockState {
    var held: bool
    var count: nat
    var last: UserCallbackInfo?
    ghost var known: set<UserCallbackInfo>
    ghost var queued: set<UserCallbackInfo>
    ghost var cancelled: set<UserCallbackInfo>
    ghost var firing: Firing

    // Flags on the heap say which timers are cancelled.
    ghost predicate Valid()
      reads this, known
    {
      && (forall t :: t in known ==> (t.userParam <==> t in cancelled))
      && OnlyLastLives(View())
    }

    ghost function View(): State
      reads this
    {
      State(held, count, if last == null then None else Some(last as UserCallbackInfo),
            known, queued, cancelled, firing)
    }

    constructor ()
      ensures Valid() && View() == Start()
    {
      held, count, last := false, 0, null;
      known, queued, cancelled, firing := {}, {}, {}, Idle;
    }

    // grabPartialWakeLock; memory says whether the timer could be allocated.
    method GrabPartialWakeLock(memory: bool)
      requires Valid()
      modifies this, known
      ensures Valid()
      ensures memory ==> exists t :: t in known - old(known) && View() == Next(old(View()), Grab(t))
      ensures !memory ==> View() == Next(old(View()), GrabWithoutMemory)
    {
      held := true;
      if !memory {
        held := false;
      } else {
        var info := new UserCallbackInfo();
        TimersKeep(View(), Grab(info));
        known, queued := known + {info}, queued + {info};
        count := count + 1;
        if last != null {
          last.userParam := true;
          cancelled := cancelled + {last};
        }
        last := info;
        assert info in known - old(known);
      }
    }

    method ReleaseWakeLock()
      requires Valid()
      modifies this, known
      ensures Valid() && View() == Next(old(View()), Release)
    {
      TimersKeep(View(), Release);
      if count > 1 {
        count := count - 1;
      } else {
        count := 0;
        held := false;
        if last != null {
          last.userParam := true;
          cancelled := cancelled + {last};
        }
      }
    }

    // userTimerCallback up to the read of the flag.
    method UserTimerBegin(info: UserCallbackInfo) returns (param: bool)
      requires Valid() && Enabled(View(), Begin(info))
      modifies this
      ensures Valid() && View() == Next(old(View()), Begin(info)) && param == firing.cancelled
    {
      TimersKeep(View(), Begin(info));
      param := info.userParam;
      queued, firing := queued - {info}, Called(info, param);
    }

    // wakeTimeoutCallback
    method WakeTimeoutCallback(param: bool)
      requires Valid() && firing.Called? && param == firing.cancelled
      modifies this
      ensures Valid() && View() == Next(old(View()), Callback)
    {
      TimersKeep(View(), Callback);
      if !param {
        count := 0;
        held := false;
      }
      firing := Returned(firing.timer);
    }

    // The rest of userTimerCallback.
    method UserTimerFinish(info: UserCallbackInfo)
      requires Valid() && firing == Returned(info)
      modifies this
      ensures Valid() && View() == Next(old(View()), Finish)
    {
      TimersKeep(View(), Finish);
      if last != null && last == info {
        last := null;
      }
      firing := Idle;
    }
  }
}
