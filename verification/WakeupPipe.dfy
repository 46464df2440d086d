/** The self-pipe of ril/libril/ril.cpp and the loop of ril_event.cpp, step by step and interleaved with any
    number of threads that add timers and watches. An adder first links its timer or watch under the list
    mutex and only then writes a byte to the pipe; the event loop thread adds without writing. */
module WakeupPipe {
  import opened Options

  // Where the loop is. rfds is its copy of the watched descriptors, `until` the deadline its timeout stands for
  // (none: sleep for ever), and drain says that select reported the pipe readable.
  datatype Loop =
    | Top
    | Copied(rfds: set<nat>)
    | Armed(rfds: set<nat>, until: Option<int>)
    | Blocked(rfds: set<nat>, until: Option<int>)
    | Woken(drain: bool)
    | Firing(drain: bool)

  // pipe: bytes in the pipe. adding: adders that have linked their timer or watch and not yet written.
  datatype State = State(loop: Loop, timers: multiset<int>, watched: set<nat>, pipe: nat, adding: nat, now: int)

  datatype Step =
    | LinkTimer(deadline: int)
    | LinkWatch(fd: nat)
    | Write
    | Unwatch(fd: nat)
    | Tick(now: int)
    | CopyFds
    | CalcTimeout
    | Select
    | Return(otherReady: bool)
    | Interrupted
    | Expire
    | CallbackTimer(deadline: int)
    | CallbackWatch(fd: nat)
    | ReadPipe(count: nat)
    | PipeEmpty
    | RoundDone

  // Select may return: its time is up, the pipe is readable, or some other descriptor is.
  predicate MayReturn(s: State, otherReady: bool) {
    s.loop.Blocked? && (s.pipe > 0 || otherReady || (s.loop.until.Some? && s.loop.until.value <= s.now))
  }

  predicate Enabled(s: State, step: Step) {
    match step
    case LinkTimer(_) => true
    case LinkWatch(_) => true
    case Write => s.adding > 0
    case Unwatch(_) => true
    case Tick(now) => s.now <= now
    case CopyFds => s.loop.Top?
    case CalcTimeout => s.loop.Copied?
    case Select => s.loop.Armed?
    case Return(otherReady) => MayReturn(s, otherReady)
    case Interrupted => s.loop.Blocked?
    case Expire => s.loop.Woken?
    case CallbackTimer(_) => s.loop.Firing?
    case CallbackWatch(_) => s.loop.Firing?
    case ReadPipe(count) => s.loop.Firing? && s.loop.drain && 0 < count <= 16 && count <= s.pipe
    case PipeEmpty => s.loop.Firing? && s.loop.drain && s.pipe == 0
    case RoundDone => s.loop.Firing? && !s.loop.drain
  }

  // d is the earliest deadline queued.
  predicate Earliest(timers: multiset<int>, d: int) {
    d in timers && forall e :: e in timers ==> d <= e
  }

  lemma {:induction false} EarliestExists(timers: multiset<int>)
    requires timers != multiset{}
    ensures exists d :: Earliest(timers, d)
    decreases |timers|
  {
    assert (forall d :: timers[d] == 0) ==> timers == multiset{};
    var d :| d in timers;
    if e :| e in timers && e < d {
      var rest := timers - multiset{d};
      assert e in rest;
      EarliestExists(rest);
      var m :| Earliest(rest, m);
      assert forall x :: x in timers ==> x in rest || x == d;
      assert Earliest(timers, m);
    } else {
      assert Earliest(timers, d);
    }
  }

  // The relation of one step: only CalcTimeout needs to look for the earliest deadline.
  ghost predicate Next(s: State, step: Step, r: State) {
    && Enabled(s, step)
    && match step
       case LinkTimer(d) => r == s.(timers := s.timers + multiset{d}, adding := s.adding + 1)
       case LinkWatch(fd) => r == s.(watched := s.watched + {fd}, adding := s.adding + 1)
       case Write => r == s.(adding := s.adding - 1, pipe := s.pipe + 1)
       case Unwatch(fd) => r == s.(watched := s.watched - {fd})
       case Tick(now) => r == s.(now := now)
       case CopyFds => r == s.(loop := Copied(s.watched))
       case CalcTimeout =>
         if s.timers == multiset{} then r == s.(loop := Armed(s.loop.rfds, None))
         else exists d :: Earliest(s.timers, d) && r == s.(loop := Armed(s.loop.rfds, Some(d)))
       case Select => r == s.(loop := Blocked(s.loop.rfds, s.loop.until))
       case Return(_) => r == s.(loop := Woken(s.pipe > 0))
       case Interrupted => r == s.(loop := Top)
       case Expire =>
         && r == s.(loop := Firing(s.loop.drain), timers := r.timers)
         && forall d :: r.timers[d] == if d < s.now then 0 else s.timers[d]
       case CallbackTimer(d) => r == s.(timers := s.timers + multiset{d})
       case CallbackWatch(fd) => r == s.(watched := s.watched + {fd})
       case ReadPipe(count) => r == s.(pipe := s.pipe - count)
       case PipeEmpty => r == s.(loop := Firing(false))
       case RoundDone => r == s.(loop := Top)
  }

  // The loop's timeout reaches no further than any queued deadline, and its descriptors miss none watched.
  predicate Covered(s: State) {
    match s.loop
    case Copied(rfds) => s.watched <= rfds
    case Armed(rfds, until) => s.watched <= rfds && NotLate(s.timers, until)
    case Blocked(rfds, until) => s.watched <= rfds && NotLate(s.timers, until)
    case _ => true
  }

  predicate NotLate(timers: multiset<int>, until: Option<int>) {
    forall d :: d in timers ==> until.Some? && until.value <= d
  }

  predicate Inv(s: State) {
    Covered(s) || s.pipe > 0 || s.adding > 0
  }

  lemma StepKeeps(s: State, step: Step, r: State)
    requires Inv(s) && Next(s, step, r)
    ensures Inv(r)
  {
  }

  // A run: the states it goes through and the steps between them.
  ghost predicate IsRun(states: seq<State>, steps: seq<Step>) {
    && |states| == |steps| + 1
    && states[0].loop.Top?
    && forall i :: 0 <= i < |steps| ==> Next(states[i], steps[i], states[i + 1])
  }

  lemma {:induction false} RunKeeps(states: seq<State>, steps: seq<Step>, i: nat)
    requires IsRun(states, steps) && i < |states|
    ensures Inv(states[i])
  {
    if i > 0 {
      RunKeeps(states, steps, i - 1);
      StepKeeps(states[i - 1], steps[i - 1], states[i]);
    }
  }

  // Over every run: if the loop sleeps past a queued deadline, or without a watched descriptor, then the pipe is
  // readable or some adder has yet to write to it.
  lemma NoLostWakeup(states: seq<State>, steps: seq<Step>, i: nat)
    requires IsRun(states, steps) && i < |states| && states[i].loop.Blocked?
    requires (exists d :: d in states[i].timers && (states[i].loop.until.None? || d < states[i].loop.until.value))
      || (exists fd :: fd in states[i].watched && fd !in states[i].loop.rfds)
    ensures states[i].pipe > 0 || states[i].adding > 0
  {
    RunKeeps(states, steps, i);
  }

  // Over every run: when a queued deadline has been reached while the loop sleeps, select may return at once, or
  // may do so as soon as an adder that is already under way writes its byte.
  lemma OverdueTimerWakes(states: seq<State>, steps: seq<Step>, i: nat, d: int)
    requires IsRun(states, steps) && i < |states|
    requires states[i].loop.Blocked? && d in states[i].timers && d <= states[i].now
    ensures MayReturn(states[i], false) || Enabled(states[i], Write)
    ensures forall r :: Next(states[i], Write, r) ==> MayReturn(r, false)
  {
    RunKeeps(states, steps, i);
  }

  // Between two returns of select the pipe is only ever filled.
  lemma {:induction false} PipeGrowsWhileAsleep(states: seq<State>, steps: seq<Step>, i: nat, j: nat)
    requires IsRun(states, steps) && i <= j < |states|
    requires forall k :: i <= k <= j ==> !states[k].loop.Firing?
    ensures states[i].pipe <= states[j].pipe
    decreases j - i
  {
    if i < j {
      PipeGrowsWhileAsleep(states, steps, i, j - 1);
      assert Next(states[j - 1], steps[j - 1], states[j]);
    }
  }

  // The loop can always go on from a copy of the descriptors to select.
  lemma LoopReachesSelect(s: State)
    requires s.loop.Copied?
    ensures exists m, r ::
      Next(s, CalcTimeout, m) && Next(m, Select, r) && r.loop.Blocked? && NotLate(s.timers, r.loop.until)
  {
    var until := None;
    if s.timers != multiset{} {
      EarliestExists(s.timers);
      var d :| Earliest(s.timers, d);
      until := Some(d);
    }
    var m, r := s.(loop := Armed(s.loop.rfds, until)), s.(loop := Blocked(s.loop.rfds, until));
    assert Next(s, CalcTimeout, m) && Next(m, Select, r);
  }

  // ----- Nothing linked is lost, and the pipe is emptied -----

  predicate Links(step: Step, d: int) { step == LinkTimer(d) || step == CallbackTimer(d) }

  // Over every run: a timer that was linked is queued until a round at a later time than its deadline takes it.
  lemma {:induction false} LinkedStays(states: seq<State>, steps: seq<Step>, i: nat, j: nat, d: int)
    requires IsRun(states, steps) && i < j < |states| && Links(steps[i], d)
    requires forall k :: i < k < j && steps[k].Expire? ==> states[k].now <= d
    ensures d in states[j].timers
    decreases j - i
  {
    assert Next(states[j - 1], steps[j - 1], states[j]);
    if i < j - 1 {
      LinkedStays(states, steps, i, j - 1, d);
    }
  }

  // Over every run: a round takes exactly the timers whose deadline has passed.
  lemma RoundTakesThePassed(states: seq<State>, steps: seq<Step>, i: nat, d: int)
    requires IsRun(states, steps) && i < |steps| && steps[i].Expire?
    ensures states[i + 1].timers[d] == if d < states[i].now then 0 else states[i].timers[d]
  {
    assert Next(states[i], steps[i], states[i + 1]);
  }

  // Over every run: a descriptor that was linked is watched until it is taken off.
  lemma {:induction false} WatchStays(states: seq<State>, steps: seq<Step>, i: nat, j: nat, fd: nat)
    requires IsRun(states, steps) && i < j < |states| && (steps[i] == LinkWatch(fd) || steps[i] == CallbackWatch(fd))
    requires forall k :: i < k < j ==> steps[k] != Unwatch(fd)
    ensures fd in states[j].watched
    decreases j - i
  {
    assert Next(states[j - 1], steps[j - 1], states[j]);
    if i < j - 1 {
      WatchStays(states, steps, i, j - 1, fd);
    }
  }

  // The round that began when select returned at i is still going on at j.
  predicate InRound(states: seq<State>, i: nat, j: nat)
    requires i < j < |states|
  {
    forall k :: i < k <= j ==> states[k].loop.Woken? || states[k].loop.Firing?
  }

  // Over every run: a round that select began with the pipe readable empties it before it is done.
  lemma {:induction false} RoundEmptiesPipe(states: seq<State>, steps: seq<Step>, i: nat, j: nat)
    requires IsRun(states, steps) && i < j < |states| && steps[i].Return? && states[i].pipe > 0 && InRound(states, i, j)
    ensures (states[j].loop.Woken? || states[j].loop.Firing?) && !states[j].loop.drain ==>
      exists k :: i < k <= j && states[k].pipe == 0
    decreases j - i
  {
    assert Next(states[j - 1], steps[j - 1], states[j]);
    if i < j - 1 {
      RoundEmptiesPipe(states, steps, i, j - 1);
      if steps[j - 1].PipeEmpty? {
        assert states[j].pipe == 0;
      }
    }
  }
}
