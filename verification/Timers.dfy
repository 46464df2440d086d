/** The timer queue of ril/libril/ril_event.cpp as a value, over every run of timers being added and
    rounds of the event loop moving the expired ones out. */
module Timers {
  import opened Options

  // struct timeval with 0 <= usec < 1000000
  datatype Timeval = Timeval(sec: int, usec: int) {
    predicate Normal() { 0 <= usec < 1000000 }
    function Micros(): int { sec * 1000000 + usec }
  }

  // timercmp(a, b, <)
  predicate Before(a: Timeval, b: Timeval) {
    if a.sec == b.sec then a.usec < b.usec else a.sec < b.sec
  }

  // timeradd
  function Add(a: Timeval, b: Timeval): Timeval {
    var usec := a.usec + b.usec;
    if usec >= 1000000 then Timeval(a.sec + b.sec + 1, usec - 1000000) else Timeval(a.sec + b.sec, usec)
  }

  // timersub
  function Sub(a: Timeval, b: Timeval): Timeval {
    var usec := a.usec - b.usec;
    if usec < 0 then Timeval(a.sec - b.sec - 1, usec + 1000000) else Timeval(a.sec - b.sec, usec)
  }

  // The macros compute on microseconds.
  lemma MacrosAreMicros(a: Timeval, b: Timeval)
    requires a.Normal() && b.Normal()
    ensures Before(a, b) <==> a.Micros() < b.Micros()
    ensures Add(a, b).Normal() && Add(a, b).Micros() == a.Micros() + b.Micros()
    ensures Sub(a, b).Normal() && Sub(a, b).Micros() == a.Micros() - b.Micros()
  {
  }

  class Event {
    var next: Event?
    var prev: Event?
    var fd: int
    var timeout: Timeval

    constructor ()
      ensures next == null && prev == null
    {
      next, prev, fd, timeout := null, null, -1, Timeval(0, 0);
    }
  }

  // ----- Timers as values -----

  datatype Timer = Timer(who: Event, deadline: Timeval)

  // How many leading timers lie before t: where a new deadline goes, and how far expiry reaches.
  function Leading(ts: seq<Timer>, t: Timeval): (k: nat)
    ensures k <= |ts|
    ensures forall i :: 0 <= i < k ==> Before(ts[i].deadline, t)
    ensures k < |ts| ==> !Before(ts[k].deadline, t)
  {
    if ts == [] || !Before(ts[0].deadline, t) then 0 else 1 + Leading(ts[1..], t)
  }

  function Insert(ts: seq<Timer>, t: Timer): (r: seq<Timer>)
    ensures var k := Leading(ts, t.deadline);
      |r| == |ts| + 1 && forall i :: 0 <= i < |r| ==> r[i] == if i < k then ts[i] else if i == k then t else ts[i - 1]
  {
    var k := Leading(ts, t.deadline);
    ts[..k] + [t] + ts[k..]
  }

  predicate Sorted(ts: seq<Timer>) {
    forall i, j :: 0 <= i < j < |ts| ==> !Before(ts[j].deadline, ts[i].deadline)
  }

  lemma InsertKeepsSorted(ts: seq<Timer>, t: Timer)
    requires Sorted(ts)
    ensures Sorted(Insert(ts, t))
  {
  }

  // In a sorted list the leading expired timers are all the expired timers.
  lemma LeadingAreAll(ts: seq<Timer>, now: Timeval, i: nat)
    requires Sorted(ts) && i < |ts|
    ensures Before(ts[i].deadline, now) <==> i < Leading(ts, now)
  {
  }

  // ----- Runs of the loop -----

  datatype Firing = Firing(timer: Timer, at: Timeval)

  datatype Clockwork = Clockwork(timers: seq<Timer>, fired: seq<Firing>)

  // A timer is added, or one round of the loop reads the clock, moves what has expired and fires it.
  datatype Act = Started(timer: Timer) | Round(now: Timeval)

  function Fire(ts: seq<Timer>, now: Timeval): (r: seq<Firing>)
    ensures |r| == |ts| && forall i :: 0 <= i < |r| ==> r[i] == Firing(ts[i], now)
  {
    seq(|ts|, i requires 0 <= i < |ts| => Firing(ts[i], now))
  }

  function Step(s: Clockwork, a: Act): Clockwork {
    match a
    case Started(t) => s.(timers := Insert(s.timers, t))
    case Round(now) =>
      var k := Leading(s.timers, now);
      Clockwork(s.timers[k..], s.fired + Fire(s.timers[..k], now))
  }

  // One timer of a round moved; a round is nothing more than such moves.
  function MoveOne(s: Clockwork, now: Timeval): Clockwork
    requires s.timers != []
  {
    Clockwork(s.timers[1..], s.fired + [Firing(s.timers[0], now)])
  }

  lemma RoundUnfolds(s: Clockwork, now: Timeval)
    ensures Step(s, Round(now)) ==
      if s.timers != [] && Before(s.timers[0].deadline, now) then Step(MoveOne(s, now), Round(now)) else s
  {
  }

  lemma NoneExpired(s: Clockwork, now: Timeval)
    requires s.timers != [] ==> !Before(s.timers[0].deadline, now)
    ensures Step(s, Round(now)) == s
  {
    RoundUnfolds(s, now);
  }

  function Run(acts: seq<Act>): Clockwork {
    if acts == [] then Clockwork([], []) else Step(Run(acts[..|acts| - 1]), acts[|acts| - 1])
  }

  function StartedIn(acts: seq<Act>): seq<Timer> {
    if acts == [] then []
    else StartedIn(acts[..|acts| - 1]) + match acts[|acts| - 1] case Started(t) => [t] case Round(_) => []
  }

  function TimersOf(fired: seq<Firing>): (r: seq<Timer>)
    ensures |r| == |fired| && forall i :: 0 <= i < |r| ==> r[i] == fired[i].timer
  {
    seq(|fired|, i requires 0 <= i < |fired| => fired[i].timer)
  }

  lemma InsertKeepsAll(ts: seq<Timer>, t: Timer)
    ensures multiset(Insert(ts, t)) == multiset(ts) + multiset{t}
  {
    var k := Leading(ts, t.deadline);
    assert ts == ts[..k] + ts[k..];
  }

  lemma RoundKeepsAll(s: Clockwork, now: Timeval)
    ensures var r := Step(s, Round(now));
      multiset(r.timers) + multiset(TimersOf(r.fired)) == multiset(s.timers) + multiset(TimersOf(s.fired))
  {
    var k := Leading(s.timers, now);
    assert s.timers == s.timers[..k] + s.timers[k..];
    assert TimersOf(s.fired + Fire(s.timers[..k], now)) == TimersOf(s.fired) + s.timers[..k];
  }

  // Over every run the queue is sorted by deadline.
  lemma {:induction false} QueueIsSorted(acts: seq<Act>)
    ensures Sorted(Run(acts).timers)
    decreases |acts|
  {
    if acts != [] {
      var n := |acts| - 1;
      var s := Run(acts[..n]);
      QueueIsSorted(acts[..n]);
      if acts[n].Started? {
        InsertKeepsSorted(s.timers, acts[n].timer);
      }
    }
  }

  // Over every run the started timers are exactly the queued and the fired ones, each as often as it was started.
  lemma {:induction false} TimersFireOnce(acts: seq<Act>)
    ensures var s := Run(acts); multiset(StartedIn(acts)) == multiset(s.timers) + multiset(TimersOf(s.fired))
    decreases |acts|
  {
    if acts != [] {
      var n := |acts| - 1;
      var s := Run(acts[..n]);
      TimersFireOnce(acts[..n]);
      match acts[n] {
        case Started(t) => InsertKeepsAll(s.timers, t);
        case Round(now) => RoundKeepsAll(s, now);
      }
    }
  }

  // Over every run nothing fires at or before its deadline.
  lemma {:induction false} NeverEarly(acts: seq<Act>, i: nat)
    requires i < |Run(acts).fired|
    ensures var f := Run(acts).fired[i]; Before(f.timer.deadline, f.at)
    decreases |acts|
  {
    var n := |acts| - 1;
    if i < |Run(acts[..n]).fired| {
      NeverEarly(acts[..n], i);
    }
  }

  // A round at `now` fires timer number i if its deadline has passed and keeps it otherwise, both in order, and
  // leaves no deadline that has passed.
  predicate SplitsAt(s: Clockwork, now: Timeval, i: nat)
    requires i < |s.timers|
  {
    var r := Step(s, Round(now));
    var k := |r.fired| - |s.fired|;
    && (i < k <==> Before(s.timers[i].deadline, now))
    && 0 <= k <= |s.timers| && |r.timers| == |s.timers| - k
    && (if i < k then r.fired[|s.fired| + i] == Firing(s.timers[i], now) else r.timers[i - k] == s.timers[i])
    && forall j :: 0 <= j < |r.timers| ==> !Before(r.timers[j].deadline, now)
  }

  lemma SortedSplits(s: Clockwork, now: Timeval, i: nat)
    requires Sorted(s.timers) && i < |s.timers|
    ensures SplitsAt(s, now, i)
  {
    var k := Leading(s.timers, now);
    LeadingAreAll(s.timers, now, i);
    forall j | 0 <= j < |s.timers| - k
      ensures !Before(s.timers[k..][j].deadline, now)
    {
      LeadingAreAll(s.timers, now, k + j);
    }
  }

  // Over every run: a round fires exactly the timers whose deadline has passed, in deadline order.
  lemma RoundFiresExactlyTheExpired(acts: seq<Act>, now: Timeval, i: nat)
    requires i < |Run(acts).timers|
    ensures SplitsAt(Run(acts), now, i)
  {
    QueueIsSorted(acts);
    SortedSplits(Run(acts), now, i);
  }

  // ----- How long to sleep -----

  function NextTimeout(ts: seq<Timer>, now: Timeval): Option<Timeval> {
    if ts == [] then None
    else Some(if Before(now, ts[0].deadline) then Sub(ts[0].deadline, now) else Timeval(0, 0))
  }

  // Sleeping ends when the first deadline is reached, so not after deadline number i; it is zero if that has passed.
  predicate SleepsToFirst(ts: seq<Timer>, now: Timeval, i: nat)
    requires i < |ts|
  {
    var sleep := NextTimeout(ts, now);
    && sleep.Some? && sleep.value.Normal()
    && (Before(now, ts[0].deadline) ==> Add(now, sleep.value) == ts[0].deadline)
    && if Before(now, ts[i].deadline) then !Before(ts[i].deadline, Add(now, sleep.value))
       else sleep.value == Timeval(0, 0)
  }

  // Over every run the sleep ends at the earliest deadline queued.
  lemma SleepEndsAtTheEarliestDeadline(acts: seq<Act>, now: Timeval, i: nat)
    requires var ts := Run(acts).timers; i < |ts| && now.Normal() && ts[0].deadline.Normal()
    ensures SleepsToFirst(Run(acts).timers, now, i)
  {
    QueueIsSorted(acts);
    SortedSleep(Run(acts).timers, now, i);
  }

  lemma SortedSleep(ts: seq<Timer>, now: Timeval, i: nat)
    requires Sorted(ts) && i < |ts| && now.Normal() && ts[0].deadline.Normal()
    ensures SleepsToFirst(ts, now, i)
  {
  }
}
