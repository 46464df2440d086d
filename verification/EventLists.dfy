/** The event lists of ril/libril/ril_event.cpp: circular doubly linked lists with a sentinel,
    spliced in place. timer_list is kept sorted by deadline; pending_list holds what fires next. */
module EventLists {
  import opened Options
  import opened Timers

  function NodeAfter(h: Event, nodes: seq<Event>, i: int): Event {
    if -1 <= i < |nodes| - 1 then nodes[i + 1] else h
  }

  function NodeBefore(h: Event, nodes: seq<Event>, i: int): Event {
    if 0 < i <= |nodes| then nodes[i - 1] else h
  }

  // The sentinel is an object of repr and no node; the nodes are objects of repr.
  ghost predicate Within(h: Event, nodes: seq<Event>, repr: set<Event>) {
    h in repr && forall i :: 0 <= i < |nodes| ==> nodes[i] in repr && nodes[i] != h
  }

  ghost predicate Distinct(nodes: seq<Event>) {
    forall i, j :: 0 <= i < j < |nodes| ==> nodes[i] != nodes[j]
  }

  ghost predicate Nexts(h: Event, nodes: seq<Event>, repr: set<Event>)
    requires Within(h, nodes, repr)
    reads repr`next
  {
    && h.next == NodeAfter(h, nodes, -1)
    && forall i {:trigger NodeAfter(h, nodes, i)} :: 0 <= i < |nodes| ==> nodes[i].next == NodeAfter(h, nodes, i)
  }

  ghost predicate Prevs(h: Event, nodes: seq<Event>, repr: set<Event>)
    requires Within(h, nodes, repr)
    reads repr`prev
  {
    && h.prev == NodeBefore(h, nodes, |nodes|)
    && forall i {:trigger NodeBefore(h, nodes, i)} :: 0 <= i < |nodes| ==> nodes[i].prev == NodeBefore(h, nodes, i)
  }

  // h is the sentinel of a circular doubly linked list of exactly these nodes, in order.
  ghost predicate Ring(h: Event, nodes: seq<Event>, repr: set<Event>)
    reads repr`next, repr`prev
  {
    Within(h, nodes, repr) && Nexts(h, nodes, repr) && Prevs(h, nodes, repr)
  }

  // No node comes twice: following the links from both places would reach the sentinel at different times.
  lemma {:induction false} RingDistinct(h: Event, nodes: seq<Event>, repr: set<Event>)
    requires Ring(h, nodes, repr)
    ensures Distinct(nodes)
  {
    forall i, j | 0 <= i < j < |nodes|
      ensures nodes[i] != nodes[j]
    {
      NodesDiffer(h, nodes, repr, i, j);
    }
  }

  lemma {:induction false} NodesDiffer(h: Event, nodes: seq<Event>, repr: set<Event>, i: nat, j: nat)
    requires Ring(h, nodes, repr) && i < j < |nodes|
    ensures nodes[i] != nodes[j]
    decreases |nodes| - j
  {
    assert nodes[i].next == NodeAfter(h, nodes, i) && nodes[j].next == NodeAfter(h, nodes, j);
    if j + 1 < |nodes| {
      NodesDiffer(h, nodes, repr, i + 1, j + 1);
    }
  }

  // nodes with ev at position k, and nodes without position k.
  function With(nodes: seq<Event>, k: nat, ev: Event): (r: seq<Event>)
    requires k <= |nodes|
    ensures |r| == |nodes| + 1
    ensures forall i :: 0 <= i < |r| ==> r[i] == if i < k then nodes[i] else if i == k then ev else nodes[i - 1]
  {
    nodes[..k] + [ev] + nodes[k..]
  }

  function Without(nodes: seq<Event>, k: nat): (r: seq<Event>)
    requires k < |nodes|
    ensures |r| == |nodes| - 1
    ensures forall i :: 0 <= i < |r| ==> r[i] == if i < k then nodes[i] else nodes[i + 1]
  {
    nodes[..k] + nodes[k + 1..]
  }

  // init_list
  method InitList(h: Event)
    modifies h
    ensures Ring(h, [], {h})
  {
    h.next := h;
    h.prev := h;
    h.fd := -1;
    h.timeout := Timeval(0, 0);
  }

  // The four stores of addToList.
  method SpliceBefore(ev: Event, list: Event)
    requires ev != list && list.prev != null && list.prev != ev
    modifies ev`next, ev`prev, list.prev`next, list`prev
    ensures ev.next == list && ev.prev == old(list.prev) && list.prev == ev && old(list.prev).next == ev
  {
    ev.next := list;
    ev.prev := list.prev;
    ev.prev.next := ev;
    list.prev := ev;
  }

  // Link ev in front of `list`, which is node number k or, for k at the end, the sentinel.
  method AddToList(
      ev: Event, list: Event, ghost h: Event, ghost nodes: seq<Event>, ghost repr: set<Event>, ghost k: nat)
    requires Ring(h, nodes, repr) && ev !in repr
    requires k <= |nodes| && list == NodeAfter(h, nodes, k - 1)
    modifies ev`next, ev`prev, repr`next, repr`prev
    ensures Ring(h, With(nodes, k, ev), repr + {ev})
  {
    RingDistinct(h, nodes, repr);
    assert list.prev == NodeBefore(h, nodes, k);
    SpliceBefore(ev, list);
    AddedNexts(ev, h, nodes, repr, k);
    AddedPrevs(ev, h, nodes, repr, k);
  }

  // Forward links around a new node: every other node still points to its old successor.
  lemma AddedNexts(ev: Event, h: Event, nodes: seq<Event>, repr: set<Event>, k: nat)
    requires Within(h, nodes, repr) && ev !in repr && k <= |nodes|
    requires forall i {:trigger NodeAfter(h, nodes, i)} :: 0 <= i < |nodes| && i != k - 1 ==>
      nodes[i].next == NodeAfter(h, nodes, i)
    requires k > 0 ==> h.next == NodeAfter(h, nodes, -1)
    requires ev.next == NodeAfter(h, nodes, k - 1) && NodeBefore(h, nodes, k).next == ev
    ensures var r := With(nodes, k, ev); Within(h, r, repr + {ev}) && Nexts(h, r, repr + {ev})
  {
    var r := With(nodes, k, ev);
    forall i | 0 <= i < |r|
      ensures r[i].next == NodeAfter(h, r, i)
    {
      var before := NodeAfter(h, nodes, if i < k then i else i - 1);
    }
  }

  lemma AddedPrevs(ev: Event, h: Event, nodes: seq<Event>, repr: set<Event>, k: nat)
    requires Within(h, nodes, repr) && ev !in repr && k <= |nodes|
    requires forall i {:trigger NodeBefore(h, nodes, i)} :: 0 <= i < |nodes| && i != k ==>
      nodes[i].prev == NodeBefore(h, nodes, i)
    requires k < |nodes| ==> h.prev == NodeBefore(h, nodes, |nodes|)
    requires ev.prev == NodeBefore(h, nodes, k) && NodeAfter(h, nodes, k - 1).prev == ev
    ensures var r := With(nodes, k, ev); Within(h, r, repr + {ev}) && Prevs(h, r, repr + {ev})
  {
    var r := With(nodes, k, ev);
    forall i | 0 <= i < |r|
      ensures r[i].prev == NodeBefore(h, r, i)
    {
      var before := NodeBefore(h, nodes, if i < k then i else i - 1);
    }
  }

  // The four stores of removeFromList.
  method Unsplice(ev: Event)
    requires ev.next != null && ev.prev != null && ev.next != ev && ev.prev != ev
    modifies ev`next, ev`prev, ev.next`prev, ev.prev`next
    ensures ev.next == ev.prev == null
    ensures old(ev.next).prev == old(ev.prev) && old(ev.prev).next == old(ev.next)
  {
    ev.next.prev := ev.prev;
    ev.prev.next := ev.next;
    ev.next := null;
    ev.prev := null;
  }

  // Unlink node number k.
  method RemoveFromList(ev: Event, ghost h: Event, ghost nodes: seq<Event>, ghost repr: set<Event>, ghost k: nat)
    requires Ring(h, nodes, repr) && k < |nodes| && nodes[k] == ev
    modifies repr`next, repr`prev
    ensures Ring(h, Without(nodes, k), repr - {ev})
    ensures ev.next == ev.prev == null
  {
    RingDistinct(h, nodes, repr);
    assert ev.next == NodeAfter(h, nodes, k) && ev.prev == NodeBefore(h, nodes, k);
    Unsplice(ev);
    RemovedNexts(h, nodes, repr, k);
    RemovedPrevs(h, nodes, repr, k);
  }

  lemma RemovedNexts(h: Event, nodes: seq<Event>, repr: set<Event>, k: nat)
    requires Within(h, nodes, repr) && Distinct(nodes) && k < |nodes|
    requires forall i {:trigger NodeAfter(h, nodes, i)} :: 0 <= i < |nodes| && i != k && i != k - 1 ==>
      nodes[i].next == NodeAfter(h, nodes, i)
    requires k > 0 ==> h.next == NodeAfter(h, nodes, -1)
    requires NodeBefore(h, nodes, k).next == NodeAfter(h, nodes, k)
    ensures var r := Without(nodes, k); Within(h, r, repr - {nodes[k]}) && Nexts(h, r, repr - {nodes[k]})
  {
    var r := Without(nodes, k);
    forall i | 0 <= i < |r|
      ensures r[i].next == NodeAfter(h, r, i)
    {
      var before := NodeAfter(h, nodes, if i < k then i else i + 1);
    }
  }

  lemma RemovedPrevs(h: Event, nodes: seq<Event>, repr: set<Event>, k: nat)
    requires Within(h, nodes, repr) && Distinct(nodes) && k < |nodes|
    requires forall i {:trigger NodeBefore(h, nodes, i)} :: 0 <= i < |nodes| && i != k && i != k + 1 ==>
      nodes[i].prev == NodeBefore(h, nodes, i)
    requires k < |nodes| - 1 ==> h.prev == NodeBefore(h, nodes, |nodes|)
    requires NodeAfter(h, nodes, k).prev == NodeBefore(h, nodes, k)
    ensures var r := Without(nodes, k); Within(h, r, repr - {nodes[k]}) && Prevs(h, r, repr - {nodes[k]})
  {
    var r := Without(nodes, k);
    forall i | 0 <= i < |r|
      ensures r[i].prev == NodeBefore(h, r, i)
    {
      var before := NodeBefore(h, nodes, if i < k then i else i + 1);
    }
  }

  // q holds the linked timers as values.
  ghost predicate Queued(q: seq<Timer>, nodes: seq<Event>, repr: set<Event>)
    reads repr`timeout
  {
    && |q| == |nodes|
    && forall i {:trigger q[i]} :: 0 <= i < |q| ==> nodes[i] in repr && q[i] == Timer(nodes[i], nodes[i].timeout)
  }

  lemma QueuedWith(q: seq<Timer>, nodes: seq<Event>, repr: set<Event>, ev: Event, k: nat)
    requires Queued(q, nodes, repr) && k == Leading(q, ev.timeout)
    ensures Queued(Insert(q, Timer(ev, ev.timeout)), With(nodes, k, ev), repr + {ev})
  {
    var r, after := Insert(q, Timer(ev, ev.timeout)), With(nodes, k, ev);
    forall i | 0 <= i < |r|
      ensures after[i] in repr + {ev} && r[i] == Timer(after[i], after[i].timeout)
    {
      if i != k {
        assert r[i] == q[if i < k then i else i - 1];
      }
    }
  }

  lemma QueuedRest(q: seq<Timer>, nodes: seq<Event>, repr: set<Event>)
    requires Queued(q, nodes, repr) && nodes != []
    requires forall i :: 0 < i < |nodes| ==> nodes[i] != nodes[0]
    ensures Queued(q[1..], Without(nodes, 0), repr - {nodes[0]})
  {
    var r, after := q[1..], Without(nodes, 0);
    forall i | 0 <= i < |r|
      ensures after[i] in repr - {nodes[0]} && r[i] == Timer(after[i], after[i].timeout)
    {
      assert q[i + 1].who == nodes[i + 1];
    }
  }

  lemma FirstDeadline(q: seq<Timer>, nodes: seq<Event>, repr: set<Event>)
    requires Queued(q, nodes, repr) && nodes != []
    ensures q != [] && q[0].deadline == nodes[0].timeout
  {
    assert q[0].who == nodes[0];
  }

  lemma Rejoin(to: seq<Event>, from: seq<Event>)
    requires from != []
    ensures (to + [from[0]]) + from[1..] == to + from
  {
  }

  lemma FirstAndLast(from: seq<Event>, to: seq<Event>, ev: Event)
    requires from != []
    ensures Without(from, 0) == from[1..] && With(to, |to|, ev) == to + [ev]
  {
  }

  // The search loop of ril_timer_add: stop at the sentinel or at the first deadline not before this one.
  method FindPlace(deadline: Timeval, h: Event, ghost nodes: seq<Event>, ghost repr: set<Event>, ghost q: seq<Timer>)
    returns (list: Event, ghost k: nat)
    requires Ring(h, nodes, repr) && Queued(q, nodes, repr)
    ensures k == Leading(q, deadline) <= |nodes|
    ensures list == NodeAfter(h, nodes, Leading(q, deadline) - 1)
  {
    list, k := h.next, 0;
    while Before(list.timeout, deadline) && list != h
      invariant k <= |nodes| && list == NodeAfter(h, nodes, k - 1)
      invariant forall i :: 0 <= i < k ==> Before(q[i].deadline, deadline)
      decreases |nodes| - k
    {
      assert nodes[k].next == NodeAfter(h, nodes, k);
      list := list.next;
      k := k + 1;
    }
    assert k < |q| ==> !Before(q[k].deadline, deadline);
  }

  /** timer_list and pending_list: timers and pending are the nodes in list order, and clockwork holds the
      queued timers and the firings as values, so that each method is one step of it. */
  class EventLoop {
    const timerList: Event
    const pendingList: Event
    ghost var timers: seq<Event>
    ghost var pending: seq<Event>
    ghost var clockwork: Clockwork
    ghost var timerRepr: set<Event>
    ghost var pendingRepr: set<Event>

    ghost predicate Linked()
      reads this, timerRepr`next, timerRepr`prev, pendingRepr`next, pendingRepr`prev
    {
      timerRepr !! pendingRepr && Ring(timerList, timers, timerRepr) && Ring(pendingList, pending, pendingRepr)
    }

    ghost predicate Valid()
      reads this, timerRepr`next, timerRepr`prev, pendingRepr`next, pendingRepr`prev, timerRepr`timeout
    {
      Linked() && Queued(clockwork.timers, timers, timerRepr)
    }

    // ril_event_init
    constructor ()
      ensures Valid() && clockwork == Run([]) && pending == []
    {
      var t := new Event();
      var p := new Event();
      InitList(t);
      InitList(p);
      timerList, pendingList, timers, pending, clockwork := t, p, [], [], Clockwork([], []);
      timerRepr, pendingRepr := {t}, {p};
    }

    method LinkTimer(ev: Event, list: Event, ghost k: nat)
      requires Linked() && ev !in timerRepr && ev !in pendingRepr
      requires k <= |timers| && list == NodeAfter(timerList, timers, k - 1)
      modifies this`timers, this`timerRepr, ev`next, ev`prev, timerRepr`next, timerRepr`prev
      ensures Linked() && timers == With(old(timers), k, ev) && timerRepr == old(timerRepr) + {ev}
    {
      AddToList(ev, list, timerList, timers, timerRepr, k);
      timers, timerRepr := With(timers, k, ev), timerRepr + {ev};
    }

    method InsertTimer(ev: Event)
      requires Valid() && ev !in timerRepr && ev !in pendingRepr
      modifies this`timers, this`clockwork, this`timerRepr, ev`next, ev`prev, timerRepr`next, timerRepr`prev
      ensures Valid() && timerRepr == old(timerRepr) + {ev}
      ensures clockwork == Step(old(clockwork), Started(Timer(ev, ev.timeout)))
    {
      var list, k := FindPlace(ev.timeout, timerList, timers, timerRepr, clockwork.timers);
      ghost var queue := Insert(clockwork.timers, Timer(ev, ev.timeout));
      QueuedWith(clockwork.timers, timers, timerRepr, ev, k);
      LinkTimer(ev, list, k);
      clockwork := clockwork.(timers := queue);
    }

    // ril_timer_add
    method RilTimerAdd(ev: Event, relative: Timeval, now: Timeval)
      requires Valid() && ev !in timerRepr && ev !in pendingRepr
      modifies this`timers, this`clockwork, this`timerRepr, ev, timerRepr`next, timerRepr`prev
      ensures Valid() && timerRepr == old(timerRepr) + {ev}
      ensures clockwork == Step(old(clockwork), Started(Timer(ev, Add(now, relative))))
    {
      ev.fd := -1;
      ev.timeout := Add(now, relative);
      InsertTimer(ev);
    }

    // One pass of the loop of processTimeouts: unlink the first timer and link it at the end of pending_list.
    method MoveFirst(ev: Event)
      requires Linked() && timers != [] && ev == timers[0]
      modifies this`timers, this`pending, this`timerRepr, this`pendingRepr
      modifies timerRepr`next, timerRepr`prev, pendingRepr`next, pendingRepr`prev
      ensures Linked()
      ensures timers == Without(old(timers), 0) && timerRepr == old(timerRepr) - {ev}
      ensures pending == With(old(pending), |old(pending)|, ev) && pendingRepr == old(pendingRepr) + {ev}
      ensures timerRepr + pendingRepr == old(timerRepr + pendingRepr)
    {
      RemoveFromList(ev, timerList, timers, timerRepr, 0);
      timers, timerRepr := Without(timers, 0), timerRepr - {ev};
      AddToList(ev, pendingList, pendingList, pending, pendingRepr, |pending|);
      pending, pendingRepr := With(pending, |pending|, ev), pendingRepr + {ev};
    }

    method ExpireFirst(ev: Event, now: Timeval)
      requires Valid() && timers != [] && ev == timers[0]
      modifies this`timers, this`pending, this`clockwork, this`timerRepr, this`pendingRepr
      modifies timerRepr`next, timerRepr`prev, pendingRepr`next, pendingRepr`prev
      ensures Valid() && timerRepr + pendingRepr == old(timerRepr + pendingRepr)
      ensures clockwork == MoveOne(old(clockwork), now)
      ensures timers == old(timers[1..]) && pending == old(pending) + [ev]
    {
      ghost var moved := MoveOne(clockwork, now);
      FirstAndLast(timers, pending, ev);
      RingDistinct(timerList, timers, timerRepr);
      QueuedRest(clockwork.timers, timers, timerRepr);
      MoveFirst(ev);
      clockwork := moved;
    }

    // One pass of the loop, with the successor saved first.
    method ExpireNext(tev: Event, now: Timeval) returns (next: Event)
      requires Valid() && timers != [] && tev == timers[0] && Before(tev.timeout, now)
      modifies this`timers, this`pending, this`clockwork, this`timerRepr, this`pendingRepr
      modifies timerRepr`next, timerRepr`prev, pendingRepr`next, pendingRepr`prev
      ensures Valid() && timerRepr + pendingRepr == old(timerRepr + pendingRepr)
      ensures next == NodeAfter(timerList, timers, -1) && |timers| < |old(timers)|
      ensures Step(clockwork, Round(now)) == Step(old(clockwork), Round(now))
      ensures pending + timers == old(pending + timers)
    {
      ghost var round := Step(clockwork, Round(now));
      FirstDeadline(clockwork.timers, timers, timerRepr);
      assert Step(MoveOne(clockwork, now), Round(now)) == round by {
        RoundUnfolds(clockwork, now);
      }
      Rejoin(pending, timers);
      next := SuccessorOf(tev);
      ExpireFirst(tev, now);
    }

    method SuccessorOf(tev: Event) returns (next: Event)
      requires Valid() && timers != [] && tev == timers[0]
      ensures next == NodeAfter(timerList, timers, 0)
    {
      assert tev.next == NodeAfter(timerList, timers, 0);
      next := tev.next;
    }

    // processTimeouts
    method ProcessTimeouts(now: Timeval)
      requires Valid()
      modifies this`timers, this`pending, this`clockwork, this`timerRepr, this`pendingRepr
      modifies timerRepr`next, timerRepr`prev, pendingRepr`next, pendingRepr`prev
      ensures Valid() && timerRepr + pendingRepr == old(timerRepr + pendingRepr)
      ensures clockwork == Step(old(clockwork), Round(now))
      ensures pending + timers == old(pending + timers)
    {
      ghost var all, round, repr := pending + timers, Step(clockwork, Round(now)), timerRepr + pendingRepr;
      var tev := timerList.next;
      while tev != timerList && Before(tev.timeout, now)
        invariant Valid() && timerRepr + pendingRepr == repr
        invariant tev == NodeAfter(timerList, timers, -1)
        invariant Step(clockwork, Round(now)) == round
        invariant pending + timers == all
        decreases |timers|
      {
        tev := ExpireNext(tev, now);
      }
      NoneExpired(clockwork, now);
    }

    method TakePending(ev: Event)
      requires Valid() && pending != [] && ev == pending[0]
      modifies this`pending, this`pendingRepr, pendingRepr`next, pendingRepr`prev
      ensures Valid() && pending == Without(old(pending), 0) && pendingRepr == old(pendingRepr) - {ev}
    {
      RemoveFromList(ev, pendingList, pending, pendingRepr, 0);
      pending, pendingRepr := Without(pending, 0), pendingRepr - {ev};
    }

    // firePending: `calls` lists the events whose callback is run, in order.
    method FirePending() returns (calls: seq<Event>)
      requires Valid()
      modifies this`pending, this`pendingRepr, pendingRepr`next, pendingRepr`prev
      ensures Valid() && pending == [] && pendingRepr <= old(pendingRepr)
      ensures calls == old(pending)
    {
      calls := [];
      var ev := pendingList.next;
      while ev != pendingList
        invariant Valid() && pendingRepr <= old(pendingRepr)
        invariant ev == NodeAfter(pendingList, pending, -1)
        invariant calls + pending == old(pending)
        decreases |pending|
      {
        var next := ev.next;
        assert next == NodeAfter(pendingList, pending, 0);
        TakePending(ev);
        calls := calls + [ev];
        ev := next;
      }
    }

    // calcNextTimeout: no timeout without timers, else the time until the first deadline.
    method CalcNextTimeout(now: Timeval) returns (timeout: Option<Timeval>)
      requires Valid()
      ensures timeout == NextTimeout(clockwork.timers, now) && (timeout.None? <==> timers == [])
    {
      var tev := timerList.next;
      if tev == timerList {
        return None;
      }
      assert tev == timers[0] && clockwork.timers[0].deadline == tev.timeout;
      if Before(now, tev.timeout) {
        return Some(Sub(tev.timeout, now));
      }
      return Some(Timeval(0, 0));
    }
  }
}
