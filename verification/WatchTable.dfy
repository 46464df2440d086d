/** The table of watched descriptors of ril/libril/ril_event.cpp, with the fd_set and the bound `nfds`
    that are kept beside it so that select can be called without a scan. */
module WatchTable {
  import opened Options

  const MAX_FD_EVENTS := 8

  datatype Watch = Watch(fd: nat, persist: bool)

  type Slots = seq<Option<Watch>>

  // The slots, the descriptors handed to select, and the bound handed to select.
  datatype Table = Table(slots: Slots, readFds: set<nat>, nfds: int)

  predicate Holds(slots: Slots, i: int, fd: nat) {
    0 <= i < |slots| && slots[i].Some? && slots[i].value.fd == fd
  }

  ghost predicate Watched(slots: Slots, fd: nat) {
    exists i :: Holds(slots, i, fd)
  }

  ghost predicate DistinctFds(slots: Slots) {
    forall i, j, fd :: Holds(slots, i, fd) && Holds(slots, j, fd) ==> i == j
  }

  // readFds is exactly the watched descriptors.
  ghost predicate SetAgrees(t: Table) {
    forall fd :: fd in t.readFds <==> Watched(t.slots, fd)
  }

  // nfds is one more than the largest watched descriptor; with nothing watched it is 0 or 1.
  predicate BoundAgrees(t: Table) {
    && (forall fd :: fd in t.readFds ==> fd < t.nfds)
    && (if t.readFds == {} then 0 <= t.nfds <= 1 else t.nfds > 0 && t.nfds - 1 in t.readFds)
  }

  ghost predicate Agrees(t: Table) {
    |t.slots| == MAX_FD_EVENTS && SetAgrees(t) && BoundAgrees(t)
  }

  // The first free slot, or the number of slots.
  function FirstFree(slots: Slots): (i: nat)
    ensures i <= |slots| && (forall j :: 0 <= j < i ==> slots[j].Some?) && (i < |slots| ==> slots[i].None?)
  {
    if slots == [] || slots[0].None? then 0 else 1 + FirstFree(slots[1..])
  }

  // The largest watched descriptor in the first k slots, not below 0.
  function Largest(slots: Slots, k: nat): (n: nat)
    requires k <= |slots|
    ensures forall i :: 0 <= i < k && slots[i].Some? ==> slots[i].value.fd <= n
    ensures n == 0 || exists i :: 0 <= i < k && Holds(slots, i, n)
  {
    if k == 0 then 0 else
    var n := Largest(slots, k - 1);
    if slots[k - 1].Some? && slots[k - 1].value.fd > n then
      assert Holds(slots, k - 1, slots[k - 1].value.fd);
      slots[k - 1].value.fd
    else n
  }

  // ril_event_add: nothing happens when the table is full.
  function Add(t: Table, w: Watch): Table {
    var i := FirstFree(t.slots);
    if i == |t.slots| then t
    else Table(t.slots[i := Some(w)], t.readFds + {w.fd}, if w.fd >= t.nfds then w.fd + 1 else t.nfds)
  }

  // removeWatch: nfds is recomputed only if the descriptor removed could have been the largest.
  function Remove(t: Table, i: nat): Table
    requires i < |t.slots| && t.slots[i].Some?
  {
    var fd := t.slots[i].value.fd;
    var slots := t.slots[i := None];
    Table(slots, t.readFds - {fd}, if fd + 1 == t.nfds then Largest(slots, |slots|) + 1 else t.nfds)
  }

  lemma AddedSet(t: Table, w: Watch)
    requires SetAgrees(t)
    ensures SetAgrees(Add(t, w))
  {
    var i := FirstFree(t.slots);
    if i < |t.slots| {
      var r := Add(t, w);
      assert Holds(r.slots, i, w.fd);
      forall fd
        ensures fd in r.readFds <==> Watched(r.slots, fd)
      {
        if Watched(t.slots, fd) {
          var j :| Holds(t.slots, j, fd);
          assert Holds(r.slots, j, fd);
        }
        if Watched(r.slots, fd) && fd != w.fd {
          var j :| Holds(r.slots, j, fd);
          assert Holds(t.slots, j, fd);
        }
      }
    }
  }

  lemma AddKeeps(t: Table, w: Watch)
    requires Agrees(t)
    ensures Agrees(Add(t, w))
    ensures DistinctFds(t.slots) && !Watched(t.slots, w.fd) ==> DistinctFds(Add(t, w).slots)
  {
    AddedSet(t, w);
    var r := Add(t, w);
    if DistinctFds(t.slots) && !Watched(t.slots, w.fd) {
      forall i, j, fd | Holds(r.slots, i, fd) && Holds(r.slots, j, fd)
        ensures i == j
      {
        assert fd == w.fd || (Holds(t.slots, i, fd) && Holds(t.slots, j, fd));
        assert Holds(t.slots, i, fd) || i == FirstFree(t.slots);
        assert Holds(t.slots, j, fd) || j == FirstFree(t.slots);
      }
    }
  }

  // Clearing the bit of a removed watch is right exactly when no other slot watches the same descriptor.
  lemma RemovedSet(t: Table, i: nat)
    requires SetAgrees(t) && i < |t.slots| && t.slots[i].Some?
    ensures SetAgrees(Remove(t, i)) <==> forall j :: Holds(t.slots, j, t.slots[i].value.fd) ==> j == i
  {
    var r, fd0 := Remove(t, i), t.slots[i].value.fd;
    if j :| Holds(t.slots, j, fd0) && j != i {
      assert Holds(r.slots, j, fd0);
      assert Watched(r.slots, fd0);
    } else {
      forall fd
        ensures fd in r.readFds <==> Watched(r.slots, fd)
      {
        if fd in r.readFds {
          var j :| Holds(t.slots, j, fd);
          assert Holds(r.slots, j, fd);
        }
        if Watched(r.slots, fd) {
          var j :| Holds(r.slots, j, fd);
          assert Holds(t.slots, j, fd);
        }
      }
    }
  }

  // A descriptor watched twice is not waited for any more once one of the watches is gone.
  lemma DuplicateWatchLost(w: Watch)
    ensures var t := Add(Add(Empty(), w), w);
      SetAgrees(t) && t.slots[0] == t.slots[1] == Some(w) && !SetAgrees(Remove(t, 0))
  {
    assert forall i, fd :: !Holds(Empty().slots, i, fd);
    var t := Add(Add(Empty(), w), w);
    AddedSet(Empty(), w);
    AddedSet(Add(Empty(), w), w);
    assert FirstFree(Empty().slots) == 0;
    assert FirstFree(Add(Empty(), w).slots) == 1;
    assert Holds(t.slots, 1, w.fd);
    RemovedSet(t, 0);
  }

  lemma RemovedBound(t: Table, i: nat)
    requires Agrees(t) && i < |t.slots| && t.slots[i].Some? && SetAgrees(Remove(t, i))
    ensures BoundAgrees(Remove(t, i))
  {
    var r, fd0 := Remove(t, i), t.slots[i].value.fd;
    var n := Largest(r.slots, |r.slots|);
    assert Holds(t.slots, i, fd0);
    assert fd0 in t.readFds;
    forall fd | fd in r.readFds
      ensures fd < r.nfds
    {
      var j :| Holds(r.slots, j, fd);
    }
    if fd0 + 1 == t.nfds {
      if r.readFds == {} {
        assert n != 0 ==> Watched(r.slots, n);
      } else {
        var fd :| fd in r.readFds;
        var j :| Holds(r.slots, j, fd);
        assert n == 0 ==> fd == 0;
        assert n != 0 ==> Watched(r.slots, n);
      }
    } else {
      assert t.nfds - 1 in r.readFds;
    }
  }

  lemma RemoveKeeps(t: Table, i: nat)
    requires Agrees(t) && DistinctFds(t.slots) && i < |t.slots| && t.slots[i].Some?
    ensures Agrees(Remove(t, i)) && DistinctFds(Remove(t, i).slots)
  {
    var r := Remove(t, i);
    assert Holds(t.slots, i, t.slots[i].value.fd);
    RemovedSet(t, i);
    RemovedBound(t, i);
    forall j, k, fd | Holds(r.slots, j, fd) && Holds(r.slots, k, fd)
      ensures j == k
    {
      assert Holds(t.slots, j, fd) && Holds(t.slots, k, fd);
    }
  }

  // ----- Read-ready descriptors -----

  predicate Ready(slots: Slots, ready: set<nat>, i: nat)
    requires i < |slots|
  {
    slots[i].Some? && slots[i].value.fd in ready
  }

  // How many of the slots from i up to j are ready.
  function ReadyCount(slots: Slots, ready: set<nat>, i: nat, j: nat): nat
    requires i <= j <= |slots|
    decreases j - i
  {
    if i == j then 0 else (if Ready(slots, ready, i) then 1 else 0) + ReadyCount(slots, ready, i + 1, j)
  }

  // Slots i and up: the first n ready watches fire, and those that are not persistent are removed.
  function FireFrom(t: Table, ready: set<nat>, i: nat, n: nat): (r: Table)
    requires i <= |t.slots|
    ensures |r.slots| == |t.slots|
    decreases |t.slots| - i
  {
    if i == |t.slots| || n == 0 then t
    else if !Ready(t.slots, ready, i) then FireFrom(t, ready, i + 1, n)
    else FireFrom(if t.slots[i].value.persist then t else Remove(t, i), ready, i + 1, n - 1)
  }

  lemma {:induction false} FireKeeps(t: Table, ready: set<nat>, i: nat, n: nat)
    requires Agrees(t) && DistinctFds(t.slots) && i <= |t.slots|
    ensures var r := FireFrom(t, ready, i, n); Agrees(r) && DistinctFds(r.slots)
    decreases |t.slots| - i
  {
    if i < |t.slots| && n > 0 {
      if !Ready(t.slots, ready, i) {
        FireKeeps(t, ready, i + 1, n);
      } else if t.slots[i].value.persist {
        FireKeeps(t, ready, i + 1, n - 1);
      } else {
        RemoveKeeps(t, i);
        FireKeeps(Remove(t, i), ready, i + 1, n - 1);
      }
    }
  }

  lemma {:induction false} CountElsewhere(slots: Slots, other: Slots, ready: set<nat>, i: nat, j: nat)
    requires i <= j <= |slots| == |other| && forall k :: i <= k < j ==> slots[k] == other[k]
    ensures ReadyCount(slots, ready, i, j) == ReadyCount(other, ready, i, j)
    decreases j - i
  {
    if i < j {
      CountElsewhere(slots, other, ready, i + 1, j);
    }
  }

  // Slot j fires iff it is ready and fewer than n ready slots come before it.
  predicate Fires(slots: Slots, ready: set<nat>, i: nat, n: nat, j: nat)
    requires i <= j < |slots|
  {
    Ready(slots, ready, j) && ReadyCount(slots, ready, i, j) < n
  }

  // What a fire leaves in each slot, whether or not descriptors are distinct.
  lemma {:induction false} FireLeaves(t: Table, ready: set<nat>, i: nat, n: nat, j: nat)
    requires i <= |t.slots| && j < |t.slots|
    ensures FireFrom(t, ready, i, n).slots[j] ==
      if j >= i && Fires(t.slots, ready, i, n, j) && !t.slots[j].value.persist then None else t.slots[j]
    decreases |t.slots| - i
  {
    if i < |t.slots| && n > 0 {
      if !Ready(t.slots, ready, i) {
        FireLeaves(t, ready, i + 1, n, j);
      } else if t.slots[i].value.persist {
        FireLeaves(t, ready, i + 1, n - 1, j);
      } else {
        FireLeaves(Remove(t, i), ready, i + 1, n - 1, j);
        if j > i {
          CountElsewhere(t.slots, Remove(t, i).slots, ready, i + 1, j);
        }
      }
    }
  }

  // With distinct descriptors there are no more ready slots than ready descriptors.
  lemma {:induction false} CountBound(slots: Slots, ready: set<nat>, i: nat, j: nat)
    requires DistinctFds(slots) && i <= j <= |slots|
    ensures ReadyCount(slots, ready, i, j) <= |ready|
    decreases j - i
  {
    if i < j {
      if Ready(slots, ready, i) {
        var fd := slots[i].value.fd;
        assert Holds(slots, i, fd);
        CountWithout(slots, ready, fd, i + 1, j);
        CountBound(slots, ready - {fd}, i + 1, j);
      } else {
        CountBound(slots, ready, i + 1, j);
      }
    }
  }

  lemma {:induction false} CountWithout(slots: Slots, ready: set<nat>, fd: nat, i: nat, j: nat)
    requires i <= j <= |slots| && forall k :: i <= k < j ==> !Holds(slots, k, fd)
    ensures ReadyCount(slots, ready, i, j) == ReadyCount(slots, ready - {fd}, i, j)
    decreases j - i
  {
    if i < j {
      assert !Holds(slots, i, fd);
      CountWithout(slots, ready, fd, i + 1, j);
    }
  }

  // So the countdown of the loop, which starts at the number of ready descriptors, never leaves a ready slot out.
  lemma AllReadyFire(slots: Slots, ready: set<nat>, j: nat)
    requires DistinctFds(slots) && j < |slots|
    ensures Fires(slots, ready, 0, |ready|, j) <==> Ready(slots, ready, j)
  {
    CountBound(slots, ready, 0, j + 1);
    CountSplits(slots, ready, 0, j);
  }

  lemma {:induction false} CountSplits(slots: Slots, ready: set<nat>, i: nat, j: nat)
    requires i <= j < |slots|
    ensures ReadyCount(slots, ready, i, j + 1) ==
      ReadyCount(slots, ready, i, j) + if Ready(slots, ready, j) then 1 else 0
    decreases j - i
  {
    if i < j {
      CountSplits(slots, ready, i + 1, j);
    }
  }

  // With a descriptor watched twice it can: of two slots ready for it, only the first fires.
  lemma SecondWatchLeftOut(fd: nat, persist: bool)
    ensures var slots := [Some(Watch(fd, persist)), Some(Watch(fd, persist))];
      Ready(slots, {fd}, 1) && Fires(slots, {fd}, 0, |{fd}|, 0) && !Fires(slots, {fd}, 0, |{fd}|, 1)
  {
  }

  // ----- Runs -----

  datatype Op = AddOp(watch: Watch) | DelOp(slot: nat) | FireOp(ready: set<nat>)

  // An event is added for a descriptor nobody watches; an event that is not in the table is not deleted.
  ghost predicate Allowed(t: Table, op: Op) {
    match op
    case AddOp(w) => !Watched(t.slots, w.fd)
    case DelOp(i) => i < |t.slots| && t.slots[i].Some?
    case FireOp(_) => true
  }

  function Step(t: Table, op: Op): Table {
    match op
    case AddOp(w) => Add(t, w)
    case DelOp(i) => if i < |t.slots| && t.slots[i].Some? then Remove(t, i) else t
    case FireOp(ready) => FireFrom(t, ready, 0, |ready|)
  }

  function Empty(): Table { Table(seq(MAX_FD_EVENTS, _ => None), {}, 0) }

  function Run(ops: seq<Op>): Table {
    if ops == [] then Empty() else Step(Run(ops[..|ops| - 1]), ops[|ops| - 1])
  }

  ghost predicate RunAllowed(ops: seq<Op>) {
    ops == [] || (RunAllowed(ops[..|ops| - 1]) && Allowed(Run(ops[..|ops| - 1]), ops[|ops| - 1]))
  }

  // After every run readFds and nfds agree with the table.
  lemma {:induction false} CacheAgrees(ops: seq<Op>)
    requires RunAllowed(ops)
    ensures Agrees(Run(ops)) && DistinctFds(Run(ops).slots)
    decreases |ops|
  {
    if ops == [] {
      assert forall i, fd :: !Holds(Empty().slots, i, fd);
    } else {
      var n := |ops| - 1;
      CacheAgrees(ops[..n]);
      var t := Run(ops[..n]);
      match ops[n] {
        case AddOp(w) => AddKeeps(t, w);
        case DelOp(i) => RemoveKeeps(t, i);
        case FireOp(ready) => FireKeeps(t, ready, 0, |ready|);
      }
    }
  }

  // ----- The table in place -----

  class WatchEvent {
    const fd: nat
    const persist: bool
    var index: int

    // ril_event_set
    constructor (fd: nat, persist: bool)
      ensures this.fd == fd && this.persist == persist && index == -1
    {
      this.fd, this.persist, index := fd, persist, -1;
    }
  }

  function SlotOf(ev: WatchEvent?): Option<Watch> {
    if ev == null then None else Some(Watch(ev.fd, ev.persist))
  }

  function SlotsOf(events: seq<WatchEvent?>): (r: Slots)
    ensures |r| == |events| && forall i :: 0 <= i < |r| ==> r[i] == SlotOf(events[i])
  {
    seq(|events|, i requires 0 <= i < |events| => SlotOf(events[i]))
  }

  // The first n watched events from slot i on whose descriptor is ready, in slot order.
  function ReadyFrom(events: seq<WatchEvent?>, ready: set<nat>, i: nat, n: nat): seq<WatchEvent>
    requires i <= |events|
    decreases |events| - i
  {
    if i == |events| || n == 0 then []
    else
      var ev := events[i];
      if ev != null && ev.fd in ready then [ev] + ReadyFrom(events, ready, i + 1, n - 1)
      else ReadyFrom(events, ready, i + 1, n)
  }

  // A slot that fires is queued, after exactly the ready slots before it; nothing else is.
  lemma {:induction false} QueuedExactly(events: seq<WatchEvent?>, ready: set<nat>, i: nat, n: nat)
    requires i <= |events|
    ensures var q, count := ReadyFrom(events, ready, i, n), ReadyCount(SlotsOf(events), ready, i, |events|);
      |q| == (if count < n then count else n)
    ensures forall j :: i <= j < |events| && Fires(SlotsOf(events), ready, i, n, j) ==>
      var q, c := ReadyFrom(events, ready, i, n), ReadyCount(SlotsOf(events), ready, i, j); c < |q| && q[c] == events[j]
    decreases |events| - i
  {
    var slots := SlotsOf(events);
    if i < |events| && n > 0 {
      QueuedExactly(events, ready, i + 1, if Ready(slots, ready, i) then n - 1 else n);
      forall j | i < j < |events| && Fires(slots, ready, i, n, j)
        ensures Fires(slots, ready, i + 1, if Ready(slots, ready, i) then n - 1 else n, j)
      {
      }
    }
  }

  /** watch_table, readFds and nfds. */
  class EventTable {
    const watchTable: array<WatchEvent?>
    var readFds: set<nat>
    var nfds: int

    ghost function View(): Table
      reads this, watchTable
    {
      Table(SlotsOf(watchTable[..]), readFds, nfds)
    }

    // Every watched event knows its slot.
    ghost predicate Valid()
      reads this, watchTable, watchTable[..]
    {
      && watchTable.Length == MAX_FD_EVENTS
      && forall i :: 0 <= i < watchTable.Length && watchTable[i] != null ==> watchTable[i].index == i
    }

    constructor ()
      ensures Valid() && View() == Empty()
    {
      watchTable := new WatchEvent?[MAX_FD_EVENTS](_ => null);
      readFds, nfds := {}, 0;
    }

    // ril_event_add
    method RilEventAdd(ev: WatchEvent)
      requires Valid() && ev !in watchTable[..]
      modifies this, watchTable, ev
      ensures Valid() && View() == Add(old(View()), Watch(ev.fd, ev.persist))
      ensures ev in watchTable[..] <==> null in old(watchTable[..])
    {
      ghost var t := View();
      for i := 0 to MAX_FD_EVENTS
        invariant Valid() && View() == t && ev !in watchTable[..]
        invariant forall j :: 0 <= j < i ==> watchTable[j] != null
        invariant watchTable[..] == old(watchTable[..])
      {
        if watchTable[i] == null {
          assert t.slots[i].None? && forall j :: 0 <= j < i ==> t.slots[j].Some?;
          assert i == FirstFree(t.slots);
          assert old(watchTable[..])[i] == null;
          watchTable[i] := ev;
          ev.index := i;
          readFds := readFds + {ev.fd};
          if ev.fd >= nfds {
            nfds := ev.fd + 1;
          }
          assert watchTable[..][i] == ev;
          return;
        }
      }
      assert forall j :: 0 <= j < |t.slots| ==> t.slots[j].Some?;
    }

    // removeWatch
    method RemoveWatch(ev: WatchEvent, index: nat)
      requires Valid() && index < watchTable.Length && watchTable[index] == ev
      modifies this, watchTable, ev
      ensures Valid() && View() == Remove(old(View()), index)
      ensures watchTable[..] == old(watchTable[..])[index := null] && ev.index == -1
    {
      watchTable[index] := null;
      ev.index := -1;
      readFds := readFds - {ev.fd};
      if ev.fd + 1 == nfds {
        var n := 0;
        for i := 0 to MAX_FD_EVENTS
          invariant n == Largest(SlotsOf(watchTable[..]), i)
        {
          var rev := watchTable[i];
          if rev != null && rev.fd > n {
            n := rev.fd;
          }
        }
        nfds := n + 1;
      }
      assert SlotsOf(watchTable[..]) == old(View()).slots[index := None];
    }

    // ril_event_del
    method RilEventDel(ev: WatchEvent)
      requires Valid() && (0 <= ev.index < watchTable.Length ==> watchTable[ev.index] == ev)
      modifies this, watchTable, ev
      ensures Valid()
      ensures View() == if ev in old(watchTable[..]) then Remove(old(View()), old(ev.index)) else old(View())
    {
      if ev.index < 0 || ev.index >= MAX_FD_EVENTS {
        return;
      }
      assert ev in watchTable[..];
      RemoveWatch(ev, ev.index);
    }

    // processReadReadies: select reported n descriptors, rfds; `pending` is what gets queued for firing.
    method ProcessReadReadies(rfds: set<nat>, n: nat) returns (pending: seq<WatchEvent>)
      requires Valid()
      modifies this, watchTable, watchTable[..]
      ensures Valid() && View() == FireFrom(old(View()), rfds, 0, n)
      ensures pending == ReadyFrom(old(watchTable[..]), rfds, 0, n)
    {
      ghost var t, events := View(), watchTable[..];
      pending := [];
      var left, i: nat := n, 0;
      while i < MAX_FD_EVENTS && left > 0
        invariant i <= MAX_FD_EVENTS && Valid()
        invariant FireFrom(View(), rfds, i, left) == FireFrom(t, rfds, 0, n)
        invariant forall j :: i <= j < MAX_FD_EVENTS ==> watchTable[j] == events[j]
        invariant pending + ReadyFrom(events, rfds, i, left) == ReadyFrom(events, rfds, 0, n)
      {
        var rev := watchTable[i];
        if rev != null && rev.fd in rfds {
          pending := pending + [rev];
          if !rev.persist {
            RemoveWatch(rev, i);
          }
          left := left - 1;
        }
        i := i + 1;
      }
    }
  }
}
