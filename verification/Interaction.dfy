/** The interaction boost of aidl/power-libperfmgr/InteractionHandler.cpp: callers acquire the boost, a worker
    thread waits for the display to go idle and releases it, and an eventfd is the token by which a caller
    makes the worker give up its wait. Every locked region is one step; Exit is not part of the model. */
module Interaction {

  const TWO_TO_THE_32 := 0x1_0000_0000

  predicate IsInt32(x: int) { -0x8000_0000 <= x < 0x8000_0000 }

  // ----- Durations -----

  // The properties read at start: limits and offset of a boost in milliseconds, and whether to wait for the display.
  datatype Config = Config(min: nat, max: nat, offset: nat, idleSupport: bool)

  const DEFAULTS := Config(1400, 5650, 650, true)

  predicate FitsInt32(c: Config) { IsInt32(c.min) && IsInt32(c.max) && IsInt32(c.offset) }

  function Clamp(c: Config, x: int): int {
    if x > c.max then c.max else if x > c.min then x else c.min
  }

  // The sum is unsigned, is stored in an int, and is compared as unsigned again.
  function FinalDuration(c: Config, duration: int): (r: nat)
    ensures c.min <= c.max ==> c.min <= r <= c.max
  {
    Clamp(c, (duration + c.offset) % TWO_TO_THE_32)
  }

  // The boost lasts as asked, within its limits, exactly for durations of at least minus the offset: below that
  // the unsigned comparison takes it for a huge one and grants the maximum, not the minimum.
  lemma FinalDurationExactly(c: Config, duration: int)
    requires IsInt32(duration) && FitsInt32(c)
    ensures FinalDuration(c, duration) == Clamp(c, duration + c.offset) <==> duration + c.offset >= 0 || c.min == c.max
    ensures duration + c.offset < 0 ==> FinalDuration(c, duration) == c.max
    ensures c.min <= duration + c.offset <= c.max ==> FinalDuration(c, duration) == duration + c.offset
    ensures 0 <= duration + c.offset <= c.min <= c.max ==> FinalDuration(c, duration) == c.min
    ensures c.max < duration + c.offset ==> FinalDuration(c, duration) == c.max
  {
    var x := duration + c.offset;
    if x < 0 {
      assert x % TWO_TO_THE_32 == x + TWO_TO_THE_32;
    } else {
      assert x % TWO_TO_THE_32 == x;
    }
  }

  // With the default properties a duration of -651 ms is granted 5650 ms.
  lemma NegativeDurationGetsMaximum()
    ensures FinalDuration(DEFAULTS, -651) == 5650 && Clamp(DEFAULTS, -651 + DEFAULTS.offset) == 1400
  {
    FinalDurationExactly(DEFAULTS, -651);
  }

  // ----- Elapsed time -----

  datatype Timespec = Timespec(sec: int, nsec: int) {
    predicate Normal() { 0 <= nsec < 1_000_000_000 }
    function Nanos(): int { sec * 1_000_000_000 + nsec }
  }

  // C division: toward zero.
  function Quotient(a: int, b: int): int
    requires b > 0
  {
    if a >= 0 then a / b else -((-a) / b)
  }

  function TimespecDiffMs(start: Timespec, end: Timespec): int {
    (end.sec - start.sec) * 1000 + Quotient(end.nsec - start.nsec, 1_000_000)
  }

  // The difference is never negative and off by less than a millisecond; it rounds up when the nanoseconds wrapped.
  lemma ElapsedWithinAMillisecond(start: Timespec, end: Timespec)
    requires start.Normal() && end.Normal() && start.Nanos() <= end.Nanos()
    ensures var ms, ns := TimespecDiffMs(start, end), end.Nanos() - start.Nanos();
      && ms >= 0
      && if end.nsec >= start.nsec then ms * 1_000_000 <= ns < (ms + 1) * 1_000_000
         else (ms - 1) * 1_000_000 < ns <= ms * 1_000_000
  {
  }

  // ----- The protocol -----

  datatype Mode = Uninitialized | Idle | Interacting | Waiting

  // Between: the worker holds no wait. InWait: it is inside WaitForIdle or about to enter Release.
  datatype Worker = Between | InWait

  // hints logs PerfLock as true and PerfRel as false; accepted says that an Acquire was accepted since the wait began.
  datatype State = State(
    config: Config, mode: Mode, duration: int, last: int, tokens: nat,
    worker: Worker, hints: seq<bool>, accepted: bool, now: int)

  datatype Step = Init | Tick(now: int) | Acquire(duration: int) | BeginWait | Release

  predicate Enabled(s: State, step: Step) {
    match step
    case Init => s.mode == Uninitialized
    case Tick(now) => s.now <= now
    case Acquire(_) => true
    case BeginWait => s.worker == Between && s.mode != Idle && s.mode != Uninitialized
    case Release => s.worker == InWait
  }

  // The boost is asked for directly, without the worker.
  predicate Direct(s: State) { !s.config.idleSupport || s.mode == Uninitialized }

  // A boost under way that lasts at least as long as the one asked for.
  predicate Covers(s: State, final: int) {
    s.mode != Idle && final <= s.duration && s.now - s.last <= s.duration - final
  }

  function Next(s: State, step: Step): State
    requires Enabled(s, step)
  {
    match step
    case Init => s.(mode := Idle)
    case Tick(now) => s.(now := now)
    case Acquire(duration) =>
      var final := FinalDuration(s.config, duration);
      if Direct(s) || Covers(s, final) then s
      else State(
        s.config, Interacting, final, s.now,
        if s.mode == Waiting then s.tokens + 1 else s.tokens,
        s.worker,
        if s.mode == Idle then s.hints + [true] else s.hints,
        true, s.now)
    case BeginWait => s.(mode := Waiting, worker := InWait, accepted := false)
    case Release =>
      if s.mode == Waiting then s.(mode := Idle, worker := Between, hints := s.hints + [false])
      else s.(worker := Between, tokens := 0)
  }

  ghost predicate IsRun(start: State, steps: seq<Step>)
    decreases |steps|
  {
    start == State(start.config, Uninitialized, 0, 0, 0, Between, [], false, start.now) &&
    (steps == [] ||
     (IsRun(start, steps[..|steps| - 1]) && Enabled(After(start, steps[..|steps| - 1]), steps[|steps| - 1])))
  }

  function After(start: State, steps: seq<Step>): State
    decreases |steps|
  {
    if steps == [] then start
    else
      var s := After(start, steps[..|steps| - 1]);
      if Enabled(s, steps[|steps| - 1]) then Next(s, steps[|steps| - 1]) else s
  }

  predicate Boosted(s: State) { s.mode == Interacting || s.mode == Waiting }

  // PerfLock and PerfRel take turns, PerfLock first.
  predicate Alternate(hints: seq<bool>) {
    forall i :: 0 <= i < |hints| ==> hints[i] == (i % 2 == 0)
  }

  predicate Inv(s: State) {
    && Alternate(s.hints) && (Boosted(s) <==> |s.hints| % 2 == 1)
    && (s.worker == Between ==> s.tokens == 0 && s.mode != Waiting)
    && (s.worker == InWait ==> Boosted(s))
    && (s.worker == InWait ==> s.tokens == (if s.accepted then 1 else 0) && (s.mode == Waiting <==> !s.accepted))
    && (Boosted(s) ==> s.last <= s.now)
  }

  lemma StepKeeps(s: State, step: Step)
    requires Inv(s) && Enabled(s, step)
    ensures Inv(Next(s, step))
  {
  }

  lemma {:induction false} RunKeeps(start: State, steps: seq<Step>)
    requires IsRun(start, steps)
    ensures Inv(After(start, steps))
    decreases |steps|
  {
    if steps != [] {
      RunKeeps(start, steps[..|steps| - 1]);
      StepKeeps(After(start, steps[..|steps| - 1]), steps[|steps| - 1]);
    }
  }

  // Over every run: the hint is held iff the mode is Interacting or Waiting, and the calls on it alternate.
  lemma {:induction false} HintFollowsMode(start: State, steps: seq<Step>)
    requires IsRun(start, steps)
    ensures var s := After(start, steps);
      && Alternate(s.hints)
      && (Boosted(s) <==> s.hints != [] && s.hints[|s.hints| - 1])
  {
    RunKeeps(start, steps);
  }

  // Over every run: a wait begins with no token pending, and holds one exactly when an Acquire was accepted since.
  lemma WaitsBeginDrained(start: State, steps: seq<Step>)
    requires IsRun(start, steps)
    ensures var s := After(start, steps);
      && (Enabled(s, BeginWait) ==> Next(s, BeginWait).tokens == 0)
      && (s.worker == InWait ==> s.tokens == if s.accepted then 1 else 0)
  {
    RunKeeps(start, steps);
  }

  // Over every run: the worker's release ends the boost iff no Acquire was accepted since its wait began.
  lemma ReleaseEndsBoostExactly(start: State, steps: seq<Step>)
    requires IsRun(start, steps) && Enabled(After(start, steps), Release)
    ensures var s := After(start, steps); var r := Next(s, Release);
      && (r.hints != s.hints <==> !s.accepted)
      && (r.mode == Idle <==> !s.accepted)
      && r.tokens == 0
  {
    RunKeeps(start, steps);
  }

  // Over every run: the handler is ready once it has been initialized, and its properties never change.
  lemma {:induction false} ReadyExactly(start: State, steps: seq<Step>)
    requires IsRun(start, steps)
    ensures After(start, steps).mode != Uninitialized <==> Init in steps
    ensures After(start, steps).config == start.config
    decreases |steps|
  {
    if steps != [] {
      var n := |steps| - 1;
      ReadyExactly(start, steps[..n]);
      assert steps == steps[..n] + [steps[n]];
    }
  }

  // Over every run: after an Acquire there is a boost iff there was one or the handler has been initialized and waits
  // for the display; that Acquire starts the hint iff there was none.
  lemma AcquireBoostsExactly(start: State, steps: seq<Step>, duration: int)
    requires IsRun(start, steps)
    ensures var s := After(start, steps); var r := Next(s, Acquire(duration));
      && (Boosted(r) <==> Boosted(s) || (start.config.idleSupport && Init in steps))
      && r.hints == s.hints + if Boosted(r) && !Boosted(s) then [true] else []
  {
    RunKeeps(start, steps);
    ReadyExactly(start, steps);
  }

  // ----- How long the boost was asked for -----

  function Max(a: int, b: int): int { if a > b then a else b }

  // The latest end asked for by any Acquire since the boost began, covered ones included.
  function Wanted(start: State, steps: seq<Step>): int
    decreases |steps|
  {
    if steps == [] then 0
    else
      var n := |steps| - 1;
      var s, before := After(start, steps[..n]), Wanted(start, steps[..n]);
      if !steps[n].Acquire? || !s.config.idleSupport || s.mode == Uninitialized then before
      else
        var end := s.now + FinalDuration(s.config, steps[n].duration);
        if s.mode == Idle then end else Max(before, end)
  }

  // Over every run: the end recorded for the boost is exactly when the most demanding Acquire since it began wants it.
  lemma {:induction false} RecordedEndIsLatestAsked(start: State, steps: seq<Step>)
    requires IsRun(start, steps)
    ensures var s := After(start, steps); Boosted(s) ==> s.last + s.duration == Wanted(start, steps)
    decreases |steps|
  {
    if steps != [] {
      RecordedEndIsLatestAsked(start, steps[..|steps| - 1]);
      RunKeeps(start, steps[..|steps| - 1]);
    }
  }

  // ----- The handler -----

  /** The fields of InteractionHandler. clock is CLOCK_MONOTONIC in milliseconds, tokens the value of the eventfd,
      direct the durations of the boosts asked for without the worker. */
  class InteractionHandler {
    const config: Config
    var mode: Mode
    var durationMs: int
    var lastMs: int
    var tokens: nat
    var hints: seq<bool>
    var direct: seq<int>
    var clock: int
    ghost var worker: Worker
    ghost var accepted: bool

    ghost function View(): State
      reads this
    {
      State(config, mode, durationMs, lastMs, tokens, worker, hints, accepted, clock)
    }

    constructor (config: Config, clock: int)
      ensures View() == State(config, Uninitialized, 0, 0, 0, Between, [], false, clock) && direct == []
    {
      this.config := config;
      mode, durationMs, lastMs, tokens, hints, direct := Uninitialized, 0, 0, 0, [], [];
      this.clock := clock;
      worker, accepted := Between, false;
    }

    // Init; ready says that the idle node and the eventfd could be opened.
    method Init(ready: bool) returns (ok: bool)
      modifies this
      ensures View() == if ready && old(mode) == Uninitialized then Next(old(View()), Step.Init) else old(View())
      ensures ok == (mode != Uninitialized) && direct == old(direct)
    {
      if mode != Uninitialized {
        return true;
      }
      if !ready {
        return false;
      }
      mode := Idle;
      return true;
    }

    method AbortWaitLocked()
      modifies this`tokens
      ensures tokens == old(tokens) + 1
    {
      tokens := tokens + 1;
    }

    method Acquire(duration: int)
      requires IsInt32(duration) && FitsInt32(config)
      modifies this
      ensures View() == Next(old(View()), Step.Acquire(duration))
      ensures direct == if !config.idleSupport || old(mode) == Uninitialized
        then old(direct) + [FinalDuration(config, duration)] else old(direct)
    {
      var input := (duration + config.offset) % TWO_TO_THE_32;
      var final;
      if input > config.max {
        final := config.max;
      } else if input > config.min {
        final := input;
      } else {
        final := config.min;
      }
      if !config.idleSupport || mode == Uninitialized {
        direct := direct + [final];
        return;
      }
      if mode != Idle && final <= durationMs {
        var elapsed := clock - lastMs;
        if elapsed <= durationMs - final {
          return;
        }
      }
      lastMs := clock;
      durationMs := final;
      if mode == Waiting {
        AbortWaitLocked();
      } else if mode == Idle {
        hints := hints + [true];
      }
      mode := Interacting;
      accepted := true;
    }

    // The locked region of Routine, past its condition.
    method BeginWait()
      requires Enabled(View(), Step.BeginWait)
      modifies this
      ensures View() == Next(old(View()), Step.BeginWait)
    {
      mode := Waiting;
      worker, accepted := InWait, false;
    }

    method Release()
      requires Enabled(View(), Step.Release)
      modifies this
      ensures View() == Next(old(View()), Step.Release)
    {
      if mode == Waiting {
        hints := hints + [false];
        mode := Idle;
      } else {
        tokens := 0;
      }
      worker := Between;
    }
  }
}
