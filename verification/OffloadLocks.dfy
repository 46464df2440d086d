/** The two locks behind Offload, out->lock of the stream and the device lock, and the condition out->cond that
    standby and flush wait on. A standby takes the stream lock, then the device lock, and gives back only the stream
    lock while it waits for the worker; a flush waits with neither; a write that starts the stream, a pause and a
    resume take the stream lock and then the device lock (audio/audio_hw.c, audio/compress_offload.c). Here every
    lock operation is a step of its own, and a signal wakes one waiter. */
module OffloadLocks {
  import opened Options

  // Call: a write, pause or resume that needs the device lock.
  datatype Kind = Call | Flush | Standby

  // Asleep: in pthread_cond_wait. Woken: signalled, wants the stream lock back.
  datatype Thread =
    | Away
    | AtOut(kind: Kind)
    | HasOut(kind: Kind)
    | HasBoth(kind: Kind)
    | Asleep(kind: Kind)
    | Woken(kind: Kind)

  // Using: offload_thread_blocked is set and the compress call runs without a lock; WantsBack: it has returned.
  datatype Worker = Resting | Using | WantsBack

  datatype State = State(threads: seq<Thread>, worker: Worker)

  // done: the call finds that it needs no more than the stream lock, and returns. wakes: whom a signal wakes.
  datatype Step =
    | Begin(i: nat, kind: Kind)
    | TakeOut(i: nat, done: bool)
    | TakeDev(i: nat)
    | Go(i: nat)
    | Back(i: nat)
    | WorkerTake
    | WorkerDone
    | WorkerBack(wakes: Option<nat>)
    | WorkerSignals(wakes: Option<nat>)  // a command on a missing handle, or EXIT

  predicate HoldsOut(t: Thread) { t.HasOut? || t.HasBoth? }

  predicate StandbyWaits(t: Thread) { t == Asleep(Standby) || t == Woken(Standby) }

  predicate HoldsDev(t: Thread) { t.HasBoth? || StandbyWaits(t) }

  predicate At(s: State, i: nat) { i < |s.threads| }

  predicate OutFree(s: State) { forall i: nat :: i < |s.threads| ==> !HoldsOut(s.threads[i]) }

  predicate DevFree(s: State) { forall i: nat :: i < |s.threads| ==> !HoldsDev(s.threads[i]) }

  predicate SomeStandbyWaits(s: State) { exists i: nat :: i < |s.threads| && StandbyWaits(s.threads[i]) }

  predicate SomeAsleep(s: State) { exists i: nat :: i < |s.threads| && s.threads[i].Asleep? }

  predicate Blocked(s: State) { s.worker != Resting }

  // A signal wakes a waiter if there is one.
  predicate MayWake(s: State, wakes: Option<nat>) {
    if wakes.Some? then At(s, wakes.value) && s.threads[wakes.value].Asleep? else !SomeAsleep(s)
  }

  predicate Enabled(s: State, a: Step) {
    match a
    case Begin(i, _) => At(s, i) && s.threads[i] == Away
    case TakeOut(i, done) =>
      // a second standby finds the stream in standby
      At(s, i) && s.threads[i].AtOut? && OutFree(s) && (s.threads[i].kind == Standby && SomeStandbyWaits(s) ==> done)
    case TakeDev(i) => At(s, i) && s.threads[i].HasOut? && s.threads[i].kind != Flush && DevFree(s)
    case Go(i) => At(s, i) && (s.threads[i] == HasOut(Flush) || s.threads[i].HasBoth?)
    case Back(i) => At(s, i) && s.threads[i].Woken? && OutFree(s)
    case WorkerTake => s.worker == Resting && OutFree(s)
    case WorkerDone => s.worker == Using
    case WorkerBack(wakes) => s.worker == WantsBack && OutFree(s) && MayWake(s, wakes)
    case WorkerSignals(wakes) => s.worker == Resting && OutFree(s) && MayWake(s, wakes)
  }

  function Put(s: State, i: nat, t: Thread): State
    requires At(s, i)
  {
    s.(threads := s.threads[i := t])
  }

  function Wake(s: State, wakes: Option<nat>): State
    requires MayWake(s, wakes)
  {
    if wakes.Some? then Put(s, wakes.value, Woken(s.threads[wakes.value].kind)) else s
  }

  function Next(s: State, a: Step): State
    requires Enabled(s, a)
  {
    match a
    case Begin(i, kind) => Put(s, i, AtOut(kind))
    case TakeOut(i, done) => Put(s, i, if done then Away else HasOut(s.threads[i].kind))
    case TakeDev(i) => Put(s, i, HasBoth(s.threads[i].kind))
    case Go(i) =>
      var kind := s.threads[i].kind;
      Put(s, i, if kind != Call && Blocked(s) then Asleep(kind) else Away)
    case Back(i) => Put(s, i, if s.threads[i].kind == Standby then HasBoth(Standby) else HasOut(s.threads[i].kind))
    case WorkerTake => s.(worker := Using)
    case WorkerDone => s.(worker := WantsBack)
    case WorkerBack(wakes) => Wake(s, wakes).(worker := Resting)
    case WorkerSignals(wakes) => Wake(s, wakes)
  }

  predicate IsRun(s: State, run: seq<Step>)
    decreases |run|
  {
    run == [] || (Enabled(s, run[0]) && IsRun(Next(s, run[0]), run[1..]))
  }

  function After(s: State, run: seq<Step>): State
    requires IsRun(s, run)
    decreases |run|
  {
    if run == [] then s else After(Next(s, run[0]), run[1..])
  }

  function Initial(n: nat): State { State(seq(n, _ => Away), Resting) }

  // ----- Mutual exclusion -----

  predicate KnownKinds(t: Thread) {
    && (t.HasBoth? ==> t.kind != Flush)
    && (t.Asleep? || t.Woken? ==> t.kind != Call)
  }

  // Each lock has one holder; while a standby waits no other is on its way to the device lock.
  predicate Exclusive(s: State) {
    && (forall i: nat :: i < |s.threads| ==> KnownKinds(s.threads[i]))
    && (forall i: nat, j: nat :: i < j < |s.threads| ==> !(HoldsOut(s.threads[i]) && HoldsOut(s.threads[j])))
    && (forall i: nat, j: nat :: i < j < |s.threads| ==> !(HoldsDev(s.threads[i]) && HoldsDev(s.threads[j])))
    && (SomeStandbyWaits(s) ==> forall i: nat :: i < |s.threads| ==> s.threads[i] != HasOut(Standby))
  }

  // One thread moves: it may come to hold a lock that is free, and to wait only from holding both.
  lemma PutKeepsExclusive(s: State, i: nat, t: Thread)
    requires Exclusive(s) && At(s, i) && KnownKinds(t)
    requires HoldsOut(t) ==> HoldsOut(s.threads[i]) || OutFree(s)
    requires HoldsDev(t) ==> HoldsDev(s.threads[i]) || DevFree(s)
    requires t == HasOut(Standby) ==> !SomeStandbyWaits(s)
    requires StandbyWaits(t) ==> StandbyWaits(s.threads[i]) || s.threads[i].HasBoth?
    ensures Exclusive(Put(s, i, t))
  {
    var r := Put(s, i, t);
    if SomeStandbyWaits(r) {
      var k: nat :| k < |r.threads| && StandbyWaits(r.threads[k]);
      assert k != i ==> StandbyWaits(s.threads[k]);
    }
  }

  lemma StepKeepsExclusive(s: State, a: Step)
    requires Exclusive(s) && Enabled(s, a)
    ensures Exclusive(Next(s, a)) && |Next(s, a).threads| == |s.threads|
  {
    match a {
      case Begin(i, kind) => PutKeepsExclusive(s, i, AtOut(kind));
      case TakeOut(i, done) => PutKeepsExclusive(s, i, if done then Away else HasOut(s.threads[i].kind));
      case TakeDev(i) => PutKeepsExclusive(s, i, HasBoth(s.threads[i].kind));
      case Go(i) =>
        PutKeepsExclusive(s, i, Away);
        if s.threads[i].kind != Call {
          PutKeepsExclusive(s, i, Asleep(s.threads[i].kind));
        }
      case Back(i) =>
        PutKeepsExclusive(s, i, if s.threads[i].kind == Standby then HasBoth(Standby) else HasOut(s.threads[i].kind));
      case WorkerBack(wakes) => WakeKeepsExclusive(s, wakes);
      case WorkerSignals(wakes) => WakeKeepsExclusive(s, wakes);
      case _ =>
    }
  }

  lemma WakeKeepsExclusive(s: State, wakes: Option<nat>)
    requires Exclusive(s) && MayWake(s, wakes)
    ensures Exclusive(Wake(s, wakes))
  {
    if wakes.Some? {
      PutKeepsExclusive(s, wakes.value, Woken(s.threads[wakes.value].kind));
    }
  }

  lemma {:induction false} RunKeepsExclusive(s: State, run: seq<Step>)
    requires Exclusive(s) && IsRun(s, run)
    ensures Exclusive(After(s, run))
    decreases |run|
  {
    if run != [] {
      StepKeepsExclusive(s, run[0]);
      RunKeepsExclusive(Next(s, run[0]), run[1..]);
    }
  }

  // ----- Deadlock -----

  // A standby waits with the device lock while a call has the stream lock and wants the device lock.
  predicate Embraces(s: State, i: nat, j: nat) {
    At(s, i) && At(s, j) && StandbyWaits(s.threads[i]) && s.threads[j] == HasOut(Call)
  }

  ghost predicate Embraced(s: State) { exists i: nat, j: nat :: Embraces(s, i, j) }

  // Everything begun sleeps and the worker has nothing to finish.
  predicate Dormant(s: State) {
    && s.worker == Resting && SomeAsleep(s)
    && forall i: nat :: i < |s.threads| ==> s.threads[i] == Away || s.threads[i].Asleep?
  }

  // Starting something new, a command for the worker included; every other step carries on something begun.
  predicate Starts(a: Step) { a.Begin? || a.WorkerTake? || a.WorkerSignals? }

  predicate Busy(s: State) {
    s.worker != Resting || exists i: nat :: i < |s.threads| && s.threads[i] != Away
  }

  // Something has begun and nothing begun can carry on.
  ghost predicate Deadlocked(s: State) {
    Busy(s) && forall a :: Enabled(s, a) ==> Starts(a)
  }

  // A thread that holds the stream lock can carry on unless it is in the embrace.
  lemma HolderCarriesOn(s: State, i: nat) returns (a: Step)
    requires Exclusive(s) && At(s, i) && HoldsOut(s.threads[i]) && !Embraced(s)
    ensures Enabled(s, a) && !Starts(a)
  {
    var t := s.threads[i];
    if t == HasOut(Flush) || t.HasBoth? {
      a := Go(i);
    } else {
      forall k: nat | k < |s.threads|
        ensures !HoldsDev(s.threads[k])
      {
        assert t.kind == Call && StandbyWaits(s.threads[k]) ==> Embraces(s, k, i);
      }
      a := TakeDev(i);
    }
  }

  // With the stream lock free everything begun but asleep can carry on.
  lemma FreeCarriesOn(s: State) returns (a: Step)
    requires Exclusive(s) && Busy(s) && OutFree(s) && !Dormant(s)
    ensures Enabled(s, a) && !Starts(a)
  {
    if s.worker == Using {
      a := WorkerDone;
    } else if s.worker == WantsBack {
      if i: nat :| i < |s.threads| && s.threads[i].Asleep? {
        a := WorkerBack(Some(i));
      } else {
        a := WorkerBack(None);
      }
    } else {
      var i: nat :| i < |s.threads| && s.threads[i] != Away && !s.threads[i].Asleep?;
      if s.threads[i].AtOut? {
        a := TakeOut(i, true);
      } else {
        a := Back(i);
      }
    }
  }

  lemma CarriesOn(s: State) returns (a: Step)
    requires Exclusive(s) && Busy(s) && !Dormant(s) && !(Embraced(s) && s.worker != Using)
    ensures Enabled(s, a) && !Starts(a)
  {
    if s.worker == Using {
      a := WorkerDone;
    } else if i: nat :| i < |s.threads| && HoldsOut(s.threads[i]) {
      a := HolderCarriesOn(s, i);
    } else {
      a := FreeCarriesOn(s);
    }
  }

  // In the embrace nothing but the compress call can carry on.
  lemma EmbraceStops(s: State, i: nat, j: nat, a: Step)
    requires Exclusive(s) && Embraces(s, i, j) && Enabled(s, a)
    ensures Starts(a) || a == WorkerDone
    ensures Embraces(Next(s, a), i, j)
  {
    assert HoldsOut(s.threads[j]) && HoldsDev(s.threads[i]);
  }

  // And whatever is started or returns, it lasts.
  lemma {:induction false} EmbraceLastsForever(s: State, i: nat, j: nat, run: seq<Step>)
    requires Exclusive(s) && Embraces(s, i, j) && IsRun(s, run)
    ensures Embraces(After(s, run), i, j)
    decreases |run|
  {
    if run != [] {
      EmbraceStops(s, i, j, run[0]);
      StepKeepsExclusive(s, run[0]);
      EmbraceLastsForever(Next(s, run[0]), i, j, run[1..]);
    }
  }

  lemma DormantStops(s: State, a: Step)
    requires Dormant(s) && Enabled(s, a)
    ensures Starts(a)
  {
  }

  // Over every run: the threads are deadlocked iff the embrace holds and the compress call has returned, or all that
  // has begun sleeps although the worker has nothing to finish.
  lemma DeadlockExactly(n: nat, run: seq<Step>)
    requires IsRun(Initial(n), run)
    ensures var s := After(Initial(n), run); Deadlocked(s) <==> (Embraced(s) && s.worker != Using) || Dormant(s)
  {
    RunKeepsExclusive(Initial(n), run);
    var s := After(Initial(n), run);
    if Embraced(s) && s.worker != Using {
      var i: nat, j: nat :| Embraces(s, i, j);
      forall a | Enabled(s, a)
        ensures Starts(a)
      {
        EmbraceStops(s, i, j, a);
      }
    } else if Dormant(s) {
      forall a | Enabled(s, a)
        ensures Starts(a)
      {
        DormantStops(s, a);
      }
    } else if Busy(s) {
      var a := CarriesOn(s);
    }
  }

  // Over every run: a step leads into the embrace iff a call that needs the device lock gets the stream lock while a
  // standby waits. Keeping such calls out until the standby returns is what the HAL would have to do.
  lemma EmbraceBeginsExactly(n: nat, run: seq<Step>, a: Step)
    requires IsRun(Initial(n), run) && Enabled(After(Initial(n), run), a) && !Embraced(After(Initial(n), run))
    ensures var s := After(Initial(n), run);
      Embraced(Next(s, a)) <==> SomeStandbyWaits(s) && a.TakeOut? && !a.done && s.threads[a.i].kind == Call
  {
    RunKeepsExclusive(Initial(n), run);
    EmbraceBegins(After(Initial(n), run), a);
  }

  lemma EmbraceBegins(s: State, a: Step)
    requires Exclusive(s) && Enabled(s, a) && !Embraced(s)
    ensures Embraced(Next(s, a)) <==> SomeStandbyWaits(s) && a.TakeOut? && !a.done && s.threads[a.i].kind == Call
  {
    if Embraced(Next(s, a)) {
      var i: nat, j: nat :| Embraces(Next(s, a), i, j);
      EmbraceCameBy(s, a, i, j);
    }
    if SomeStandbyWaits(s) && a.TakeOut? && !a.done && s.threads[a.i].kind == Call {
      var i: nat :| i < |s.threads| && StandbyWaits(s.threads[i]);
      assert Embraces(Next(s, a), i, a.i);
    }
  }

  lemma EmbraceCameBy(s: State, a: Step, i: nat, j: nat)
    requires Exclusive(s) && Enabled(s, a) && !Embraces(s, i, j) && Embraces(Next(s, a), i, j)
    ensures SomeStandbyWaits(s) && a == TakeOut(j, false) && s.threads[j].kind == Call
  {
    if a.Go? && a.i == i {
      assert HoldsOut(s.threads[i]) && HoldsOut(s.threads[j]);
      assert false;
    }
    assert StandbyWaits(s.threads[i]);
  }

  // ----- Stranded waiters -----

  // A thread sleeps on although nothing it waits for is left.
  predicate Stranded(s: State, i: nat) {
    At(s, i) && s.threads[i].Asleep? && !Blocked(s)
  }

  ghost predicate SomeStranded(s: State) { exists i: nat :: Stranded(s, i) }

  predicate TwoAsleep(s: State) {
    exists i: nat, j: nat :: i < j < |s.threads| && s.threads[i].Asleep? && s.threads[j].Asleep?
  }

  // A step strands a waiter iff the worker finishes while two or more sleep: its signal wakes one of them.
  lemma StrandedExactly(s: State, a: Step)
    requires Enabled(s, a) && !SomeStranded(s)
    ensures SomeStranded(Next(s, a)) <==> a.WorkerBack? && TwoAsleep(s)
  {
    var t := Next(s, a);
    if a.WorkerBack? && TwoAsleep(s) {
      var i: nat, j: nat :| i < j < |s.threads| && s.threads[i].Asleep? && s.threads[j].Asleep?;
      assert Stranded(t, if a.wakes == Some(i) then j else i);
    }
    if SomeStranded(t) {
      var i: nat :| Stranded(t, i);
      assert !Stranded(s, i);
      StrandedCameBy(s, a, i);
    }
  }

  lemma StrandedCameBy(s: State, a: Step, i: nat)
    requires Enabled(s, a) && !Stranded(s, i) && Stranded(Next(s, a), i)
    ensures a.WorkerBack? && TwoAsleep(s)
  {
    assert a.WorkerBack? && s.threads[i].Asleep? && a.wakes.Some?;
    var k := a.wakes.value;
    assert k != i && s.threads[k].Asleep?;
    assert k < i || i < k;
  }

  // A command that does not come to the worker.
  predicate NoCommand(run: seq<Step>) {
    forall k :: 0 <= k < |run| ==> !run[k].WorkerTake? && !run[k].WorkerSignals?
  }

  // It sleeps until the worker is given another command; a standby keeps the device lock all the while.
  lemma {:induction false} StrandedStays(s: State, i: nat, run: seq<Step>)
    requires Stranded(s, i) && IsRun(s, run) && NoCommand(run)
    ensures Stranded(After(s, run), i) && After(s, run).threads[i] == s.threads[i]
    ensures s.threads[i].kind == Standby ==> !DevFree(After(s, run))
    decreases |run|
  {
    if run != [] {
      var t := Next(s, run[0]);
      assert Stranded(t, i) && t.threads[i] == s.threads[i];
      StrandedStays(t, i, run[1..]);
    }
    assert s.threads[i].kind == Standby ==> HoldsDev(s.threads[i]);
  }

  // A stranded waiter is what Dormant leaves: a quiet state with a sleeper is a deadlock.
  lemma DormantIsStranded(s: State)
    requires Dormant(s)
    ensures SomeStranded(s)
  {
    var i: nat :| i < |s.threads| && s.threads[i].Asleep?;
    assert Stranded(s, i);
  }

  // ----- What is begun comes to an end -----

  // Steps a thread has yet to take until it is away or asleep, and the worker until it rests.
  function ThreadWork(t: Thread): nat {
    match t
    case Away => 0
    case Asleep(_) => 0
    case HasBoth(_) => 1
    case HasOut(_) => 2
    case AtOut(_) => 3
    case Woken(_) => 3
  }

  function Work(threads: seq<Thread>): nat {
    if threads == [] then 0 else ThreadWork(threads[0]) + Work(threads[1..])
  }

  function WorkerWork(w: Worker): nat {
    match w case Resting => 0 case WantsBack => 1 case Using => 2
  }

  lemma {:induction false} WorkUpdate(threads: seq<Thread>, i: nat, t: Thread)
    requires i < |threads|
    ensures Work(threads[i := t]) + ThreadWork(threads[i]) == Work(threads) + ThreadWork(t)
  {
    if i == 0 {
      assert threads[i := t][1..] == threads[1..];
    } else {
      WorkUpdate(threads[1..], i - 1, t);
      assert threads[i := t][1..] == threads[1..][i - 1 := t];
    }
  }

  // Every step that carries on something begun brings it nearer its end: first the worker, then the threads.
  lemma CarryingOnEnds(s: State, a: Step)
    requires Enabled(s, a) && !Starts(a)
    ensures var r := Next(s, a);
      || WorkerWork(r.worker) < WorkerWork(s.worker)
      || (r.worker == s.worker && Work(r.threads) < Work(s.threads))
  {
    match a {
      case TakeOut(i, done) => WorkUpdate(s.threads, i, if done then Away else HasOut(s.threads[i].kind));
      case TakeDev(i) => WorkUpdate(s.threads, i, HasBoth(s.threads[i].kind));
      case Go(i) => WorkUpdate(s.threads, i, Next(s, a).threads[i]);
      case Back(i) => WorkUpdate(s.threads, i, Next(s, a).threads[i]);
      case _ =>
    }
  }

  // ----- Runs into both -----

  ghost predicate Reachable(n: nat, s: State) {
    exists run :: IsRun(Initial(n), run) && After(Initial(n), run) == s
  }

  lemma {:induction false} Extend(s: State, run: seq<Step>, a: Step)
    requires IsRun(s, run) && Enabled(After(s, run), a)
    ensures IsRun(s, run + [a]) && After(s, run + [a]) == Next(After(s, run), a)
    decreases |run|
  {
    if run == [] {
      assert (run + [a])[1..] == [];
    } else {
      Extend(Next(s, run[0]), run[1..], a);
      assert (run + [a])[1..] == run[1..] + [a];
    }
  }

  lemma Moves(n: nat, s: State, a: Step)
    requires Reachable(n, s) && Enabled(s, a)
    ensures Reachable(n, Next(s, a))
  {
    var run :| IsRun(Initial(n), run) && After(Initial(n), run) == s;
    Extend(Initial(n), run, a);
  }

  function Pair(a: Thread, b: Thread, worker: Worker): State { State([a, b], worker) }

  lemma PairIs(a: Thread, b: Thread, worker: Worker)
    ensures var s := Pair(a, b, worker);
      && s.threads[0] == a && s.threads[1] == b
      && (OutFree(s) <==> !HoldsOut(a) && !HoldsOut(b))
      && (DevFree(s) <==> !HoldsDev(a) && !HoldsDev(b))
      && (SomeStandbyWaits(s) <==> StandbyWaits(a) || StandbyWaits(b))
      && (SomeAsleep(s) <==> a.Asleep? || b.Asleep?)
  {
    var s := Pair(a, b, worker);
    assert s.threads[0] == a && s.threads[1] == b;
  }

  lemma WorkerStarts()
    ensures Reachable(2, Pair(Away, Away, Using))
  {
    assert Initial(2) == Pair(Away, Away, Resting);
    assert IsRun(Initial(2), []) && After(Initial(2), []) == Initial(2);
    Moves(2, Pair(Away, Away, Resting), WorkerTake);
  }

  // The second thread goes to standby while the worker is at it and the first has neither lock.
  lemma StandbyComes(first: Thread)
    requires first == Away || first == Asleep(Flush)
    requires Reachable(2, Pair(first, Away, Using))
    ensures Reachable(2, Pair(first, Asleep(Standby), Using))
  {
    StandbyTakesOut(first);
    StandbyTakesDev(first);
    PairIs(first, HasBoth(Standby), Using);
    Moves(2, Pair(first, HasBoth(Standby), Using), Go(1));
    assert Next(Pair(first, HasBoth(Standby), Using), Go(1)) == Pair(first, Asleep(Standby), Using);
  }

  lemma StandbyTakesOut(first: Thread)
    requires first == Away || first == Asleep(Flush)
    requires Reachable(2, Pair(first, Away, Using))
    ensures Reachable(2, Pair(first, HasOut(Standby), Using))
  {
    PairIs(first, Away, Using);
    Moves(2, Pair(first, Away, Using), Begin(1, Standby));
    assert Next(Pair(first, Away, Using), Begin(1, Standby)) == Pair(first, AtOut(Standby), Using);
    PairIs(first, AtOut(Standby), Using);
    Moves(2, Pair(first, AtOut(Standby), Using), TakeOut(1, false));
    assert Next(Pair(first, AtOut(Standby), Using), TakeOut(1, false)) == Pair(first, HasOut(Standby), Using);
  }

  lemma StandbyTakesDev(first: Thread)
    requires first == Away || first == Asleep(Flush)
    requires Reachable(2, Pair(first, HasOut(Standby), Using))
    ensures Reachable(2, Pair(first, HasBoth(Standby), Using))
  {
    PairIs(first, HasOut(Standby), Using);
    Moves(2, Pair(first, HasOut(Standby), Using), TakeDev(1));
    assert Next(Pair(first, HasOut(Standby), Using), TakeDev(1)) == Pair(first, HasBoth(Standby), Using);
  }

  // A standby waits for the worker, and a call comes in.
  lemma EmbraceIsReached()
    ensures var s := Pair(HasOut(Call), Asleep(Standby), WantsBack); Reachable(2, s) && Embraced(s) && Deadlocked(s)
  {
    WorkerStarts();
    StandbyComes(Away);
    Moves(2, Pair(Away, Asleep(Standby), Using), Begin(0, Call));
    Moves(2, Pair(AtOut(Call), Asleep(Standby), Using), TakeOut(0, false));
    Moves(2, Pair(HasOut(Call), Asleep(Standby), Using), WorkerDone);
    var s := Pair(HasOut(Call), Asleep(Standby), WantsBack);
    assert Embraces(s, 1, 0);
    var run :| IsRun(Initial(2), run) && After(Initial(2), run) == s;
    DeadlockExactly(2, run);
  }

  lemma FlushComes()
    ensures Reachable(2, Pair(Asleep(Flush), Away, Using))
  {
    WorkerStarts();
    Moves(2, Pair(Away, Away, Using), Begin(0, Flush));
    Moves(2, Pair(AtOut(Flush), Away, Using), TakeOut(0, false));
    Moves(2, Pair(HasOut(Flush), Away, Using), Go(0));
  }

  // A flush and then a standby wait for the worker, whose signal wakes the flush.
  lemma StrandedIsReached()
    ensures var s := Pair(Away, Asleep(Standby), Resting); Reachable(2, s) && Stranded(s, 1) && Deadlocked(s)
  {
    FlushComes();
    StandbyComes(Asleep(Flush));
    FlushIsWoken();
    FlushLeaves();
    var s := Pair(Away, Asleep(Standby), Resting);
    PairIs(Away, Asleep(Standby), Resting);
    assert Dormant(s);
    var run :| IsRun(Initial(2), run) && After(Initial(2), run) == s;
    DeadlockExactly(2, run);
  }

  lemma FlushIsWoken()
    requires Reachable(2, Pair(Asleep(Flush), Asleep(Standby), Using))
    ensures Reachable(2, Pair(Woken(Flush), Asleep(Standby), Resting))
  {
    Moves(2, Pair(Asleep(Flush), Asleep(Standby), Using), WorkerDone);
    var s := Pair(Asleep(Flush), Asleep(Standby), WantsBack);
    PairIs(Asleep(Flush), Asleep(Standby), WantsBack);
    Moves(2, s, WorkerBack(Some(0)));
    assert Next(s, WorkerBack(Some(0))) == Pair(Woken(Flush), Asleep(Standby), Resting);
  }

  lemma FlushLeaves()
    requires Reachable(2, Pair(Woken(Flush), Asleep(Standby), Resting))
    ensures Reachable(2, Pair(Away, Asleep(Standby), Resting))
  {
    Moves(2, Pair(Woken(Flush), Asleep(Standby), Resting), Back(0));
    Moves(2, Pair(HasOut(Flush), Asleep(Standby), Resting), Go(0));
  }
}
