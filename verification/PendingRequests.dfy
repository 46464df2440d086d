/** The lists of outstanding requests of ril/libril/ril.cpp, one per SIM slot: requests are linked in front,
    acknowledged in place, and unlinked when they complete. Each locked region is one step. */
module PendingRequests {

  // A request is its own token. local and cancelled are whatever the rest of the daemon set them to.
  class RequestInfo {
    const token: int
    const socket: int
    const local: bool
    const cancelled: bool
    var wasAckSent: bool
    var next: RequestInfo?

    constructor (token: int, socket: int, local: bool, cancelled: bool)
      ensures !wasAckSent && next == null
      ensures this.token == token && this.socket == socket && this.local == local && this.cancelled == cancelled
    {
      this.token, this.socket, this.local, this.cancelled := token, socket, local, cancelled;
      wasAckSent, next := false, null;
    }
  }

  const SLOTS := 4

  // SIM_COUNT and the version in the vendor library's callbacks.
  datatype Config = Config(simCount: nat, version: int)

  // The list a socket id selects: ids that name no slot of this build fall back to the first list.
  function Hook(c: Config, socket: int): (h: nat)
    ensures h < SLOTS
  {
    if socket == 1 && c.simCount >= 2 then 1
    else if socket == 2 && c.simCount >= 3 then 2
    else if socket == 3 && c.simCount >= 4 then 3
    else 0
  }

  // The answer sent up for a request; ackExpected is RESPONSE_SOLICITED_ACK_EXP.
  datatype Response = Response(request: RequestInfo, ackExpected: bool)

  // grabs counts the calls of grabPartialWakeLock.
  datatype State = State(
    lists: seq<seq<RequestInfo>>,
    acked: set<RequestInfo>,
    acknowledged: seq<RequestInfo>,
    responses: seq<Response>,
    grabs: nat)

  datatype Step = AddRequest(request: RequestInfo) | Ack(request: RequestInfo) | Complete(request: RequestInfo)

  predicate Shaped(s: State) { |s.lists| == SLOTS }

  // list without r.
  function Dropped(list: seq<RequestInfo>, r: RequestInfo): seq<RequestInfo> {
    if list == [] then [] else if list[0] == r then list[1..] else [list[0]] + Dropped(list[1..], r)
  }

  function Answer(c: Config, s: State, r: RequestInfo): seq<Response> {
    if r.local || r.cancelled then [] else [Response(r, c.version >= 13 && r in s.acked)]
  }

  function Next(c: Config, s: State, step: Step): (t: State)
    requires Shaped(s)
    ensures Shaped(t)
  {
    var r := step.request;
    var h := Hook(c, r.socket);
    match step
    case AddRequest(_) => s.(lists := s.lists[h := [r] + s.lists[h]])
    case Ack(_) =>
      if r in s.lists[h] then
        s.(acked := s.acked + {r}, acknowledged := s.acknowledged + if r.cancelled then [] else [r])
      else s
    case Complete(_) =>
      if r in s.lists[h] then
        var a := Answer(c, s, r);
        s.(lists := s.lists[h := Dropped(s.lists[h], r)],
           responses := s.responses + a,
           grabs := s.grabs + if a != [] && a[0].ackExpected then 1 else 0)
      else s
  }

  function Start(): State { State([[], [], [], []], {}, [], [], 0) }

  function After(c: Config, steps: seq<Step>): (s: State)
    ensures Shaped(s)
  {
    if steps == [] then Start() else Next(c, After(c, steps[..|steps| - 1]), steps[|steps| - 1])
  }

  // ----- What a history says -----

  predicate AddedIn(steps: seq<Step>, r: RequestInfo) {
    exists i :: 0 <= i < |steps| && steps[i] == AddRequest(r)
  }

  // Every request is added once, being newly allocated.
  predicate Fresh(steps: seq<Step>) {
    forall i, j :: 0 <= i < j < |steps| && steps[j].AddRequest? ==> steps[i] != steps[j]
  }

  // r was added and has not completed since.
  predicate Outstanding(steps: seq<Step>, r: RequestInfo) {
    exists i :: 0 <= i < |steps| && steps[i] == AddRequest(r) && forall j :: i < j < |steps| ==> steps[j] != Complete(r)
  }

  // r was acknowledged while it was outstanding.
  predicate AckedIn(steps: seq<Step>, r: RequestInfo) {
    exists i :: 0 <= i < |steps| && steps[i] == Ack(r) && Outstanding(steps[..i], r)
  }

  // When r was added, or -1.
  function BornAt(steps: seq<Step>, r: RequestInfo): (i: int)
    ensures -1 <= i < |steps|
  {
    if steps == [] then -1
    else if steps[|steps| - 1] == AddRequest(r) then |steps| - 1
    else BornAt(steps[..|steps| - 1], r)
  }

  // ----- Lists -----

  predicate Distinct(list: seq<RequestInfo>) {
    forall i, j :: 0 <= i < j < |list| ==> list[i] != list[j]
  }

  lemma {:induction false} DroppedHas(list: seq<RequestInfo>, r: RequestInfo, x: RequestInfo)
    requires Distinct(list)
    ensures x in Dropped(list, r) <==> x in list && x != r
  {
    if list != [] {
      assert list == [list[0]] + list[1..];
      if list[0] != r {
        DroppedHas(list[1..], r, x);
      }
    }
  }

  // Newest first: the birth dates descend.
  predicate Descending(list: seq<RequestInfo>, steps: seq<Step>) {
    forall i, j :: 0 <= i < j < |list| ==> BornAt(steps, list[i]) > BornAt(steps, list[j])
  }

  lemma {:induction false} DroppedWithin(list: seq<RequestInfo>, r: RequestInfo)
    ensures forall x :: x in Dropped(list, r) ==> x in list
  {
    if list != [] && list[0] != r {
      DroppedWithin(list[1..], r);
    }
  }

  lemma {:induction false} DroppedDescends(list: seq<RequestInfo>, r: RequestInfo, steps: seq<Step>)
    requires Descending(list, steps)
    ensures Descending(Dropped(list, r), steps)
    ensures forall x :: x in Dropped(list, r) ==> x in list
  {
    DroppedWithin(list, r);
    if list != [] {
      assert forall i :: 0 <= i < |list| - 1 ==> list[1..][i] == list[i + 1];
      if list[0] != r {
        DroppedDescends(list[1..], r, steps);
        var d := Dropped(list[1..], r);
        forall j | 0 <= j < |d|
          ensures BornAt(steps, list[0]) > BornAt(steps, d[j])
        {
          assert d[j] in list[1..];
        }
      }
    }
  }

  // ----- Every list is exactly what is outstanding, newest first -----

  // What a step does to list h: nothing if the request belongs to another slot.
  function NextList(c: Config, list: seq<RequestInfo>, step: Step, h: nat): seq<RequestInfo> {
    var r := step.request;
    if Hook(c, r.socket) != h then list
    else match step
      case AddRequest(_) => [r] + list
      case Ack(_) => list
      case Complete(_) => if r in list then Dropped(list, r) else list
  }

  lemma SlotsAreSeparate(c: Config, s: State, step: Step, h: nat)
    requires Shaped(s) && h < SLOTS
    ensures Next(c, s, step).lists[h] == NextList(c, s.lists[h], step, h)
  {
  }

  // Everything in the list belongs to slot h, was added, and is older the further down.
  predicate InOrder(c: Config, list: seq<RequestInfo>, steps: seq<Step>, h: nat) {
    && (forall i :: 0 <= i < |list| ==> Hook(c, list[i].socket) == h && BornAt(steps, list[i]) >= 0)
    && Descending(list, steps)
  }

  lemma {:induction false} BornIffAdded(steps: seq<Step>, r: RequestInfo)
    ensures BornAt(steps, r) >= 0 <==> AddedIn(steps, r)
    decreases |steps|
  {
    if steps != [] {
      var n := |steps| - 1;
      BornIffAdded(steps[..n], r);
      if AddedIn(steps, r) && steps[n] != AddRequest(r) {
        var i :| 0 <= i < |steps| && steps[i] == AddRequest(r);
        assert steps[..n][i] == AddRequest(r);
      }
      if AddedIn(steps[..n], r) {
        var i :| 0 <= i < n && steps[..n][i] == AddRequest(r);
        assert steps[i] == AddRequest(r);
      }
    }
  }

  lemma NotAddedAgain(steps: seq<Step>, x: RequestInfo)
    requires Fresh(steps) && steps != [] && BornAt(steps[..|steps| - 1], x) >= 0
    ensures steps[|steps| - 1] != AddRequest(x)
  {
    var before := steps[..|steps| - 1];
    BornIffAdded(before, x);
    var i :| 0 <= i < |before| && before[i] == AddRequest(x);
    assert steps[i] == AddRequest(x);
  }

  lemma OrderSurvives(c: Config, list: seq<RequestInfo>, steps: seq<Step>, h: nat)
    requires Fresh(steps) && steps != [] && InOrder(c, list, steps[..|steps| - 1], h)
    ensures InOrder(c, list, steps, h) && forall i :: 0 <= i < |list| ==> BornAt(steps, list[i]) < |steps| - 1
  {
    forall i | 0 <= i < |list|
      ensures BornAt(steps, list[i]) == BornAt(steps[..|steps| - 1], list[i])
    {
      NotAddedAgain(steps, list[i]);
    }
  }

  lemma DropKeepsOrder(c: Config, list: seq<RequestInfo>, steps: seq<Step>, h: nat, r: RequestInfo)
    requires InOrder(c, list, steps, h)
    ensures InOrder(c, Dropped(list, r), steps, h)
  {
    DroppedDescends(list, r, steps);
    var d := Dropped(list, r);
    forall i | 0 <= i < |d|
      ensures Hook(c, d[i].socket) == h && BornAt(steps, d[i]) >= 0
    {
      assert d[i] in list;
    }
  }

  lemma OrderNext(c: Config, list: seq<RequestInfo>, steps: seq<Step>, h: nat)
    requires Fresh(steps) && steps != [] && InOrder(c, list, steps[..|steps| - 1], h)
    ensures InOrder(c, NextList(c, list, steps[|steps| - 1], h), steps, h)
  {
    OrderSurvives(c, list, steps, h);
    DropKeepsOrder(c, list, steps, h, steps[|steps| - 1].request);
  }

  lemma {:induction false} ListsInOrder(c: Config, steps: seq<Step>, h: nat)
    requires Fresh(steps) && h < SLOTS
    ensures InOrder(c, After(c, steps).lists[h], steps, h)
    decreases |steps|
  {
    if steps != [] {
      var n := |steps| - 1;
      FreshBefore(steps);
      ListsInOrder(c, steps[..n], h);
      var s := After(c, steps[..n]);
      SlotsAreSeparate(c, s, steps[n], h);
      OrderNext(c, s.lists[h], steps, h);
    }
  }

  lemma FreshBefore(steps: seq<Step>)
    requires Fresh(steps) && steps != []
    ensures Fresh(steps[..|steps| - 1])
  {
  }

  lemma OutstandingNext(steps: seq<Step>, r: RequestInfo)
    requires steps != []
    ensures var n := |steps| - 1;
      Outstanding(steps, r) <==> steps[n] == AddRequest(r) || (Outstanding(steps[..n], r) && steps[n] != Complete(r))
  {
  }

  // Over every run: a request is in the list of its slot iff it was added and has not completed.
  lemma {:induction false} ListedIffOutstanding(c: Config, steps: seq<Step>, r: RequestInfo)
    requires Fresh(steps)
    ensures r in After(c, steps).lists[Hook(c, r.socket)] <==> Outstanding(steps, r)
    decreases |steps|
  {
    if steps != [] {
      var n, h := |steps| - 1, Hook(c, r.socket);
      var before := steps[..n];
      FreshBefore(steps);
      ListedIffOutstanding(c, before, r);
      OutstandingNext(steps, r);
      var s := After(c, before);
      SlotsAreSeparate(c, s, steps[n], h);
      ListsInOrder(c, before, h);
      DroppedHas(s.lists[h], steps[n].request, r);
    }
  }

  lemma AckedNext(steps: seq<Step>, r: RequestInfo)
    requires steps != []
    ensures var n := |steps| - 1;
      AckedIn(steps, r) <==> AckedIn(steps[..n], r) || (steps[n] == Ack(r) && Outstanding(steps[..n], r))
  {
    var n := |steps| - 1;
    var before := steps[..n];
    if AckedIn(steps, r) {
      var i :| 0 <= i < |steps| && steps[i] == Ack(r) && Outstanding(steps[..i], r);
      if i < n {
        assert before[i] == Ack(r) && before[..i] == steps[..i];
      }
    }
    if AckedIn(before, r) {
      var i :| 0 <= i < n && before[i] == Ack(r) && Outstanding(before[..i], r);
      assert steps[i] == Ack(r) && before[..i] == steps[..i];
    }
  }

  // Over every run: wasAckSent is set iff an ack arrived while the request was outstanding.
  lemma {:induction false} AckedExactly(c: Config, steps: seq<Step>, r: RequestInfo)
    requires Fresh(steps)
    ensures r in After(c, steps).acked <==> AckedIn(steps, r)
    decreases |steps|
  {
    if steps != [] {
      var n := |steps| - 1;
      FreshBefore(steps);
      AckedExactly(c, steps[..n], r);
      AckedNext(steps, r);
      ListedIffOutstanding(c, steps[..n], r);
    }
  }

  // r was added and has completed since.
  predicate CompletedIn(steps: seq<Step>, r: RequestInfo) {
    AddedIn(steps, r) && !Outstanding(steps, r)
  }

  lemma CompletedNext(steps: seq<Step>, r: RequestInfo)
    requires Fresh(steps) && steps != []
    ensures var n := |steps| - 1;
      CompletedIn(steps, r) <==> CompletedIn(steps[..n], r) || (steps[n] == Complete(r) && Outstanding(steps[..n], r))
  {
  }

  // The answers sent for r.
  function AnswersFor(responses: seq<Response>, r: RequestInfo): seq<bool> {
    if responses == [] then []
    else
      var n := |responses| - 1;
      AnswersFor(responses[..n], r) + if responses[n].request == r then [responses[n].ackExpected] else []
  }

  lemma AnswersAppend(responses: seq<Response>, a: Response, r: RequestInfo)
    ensures AnswersFor(responses + [a], r) == AnswersFor(responses, r) + if a.request == r then [a.ackExpected] else []
  {
  }

  // Over every run: a request that completed is answered exactly once, unless it was local or cancelled, and the
  // answer expects an ack iff the request was acked and the version is at least 13; no other request is answered.
  lemma {:induction false} AnsweredExactlyOnce(c: Config, steps: seq<Step>, r: RequestInfo)
    requires Fresh(steps)
    ensures AnswersFor(After(c, steps).responses, r) ==
      if CompletedIn(steps, r) && !r.local && !r.cancelled then [c.version >= 13 && AckedIn(steps, r)] else []
    decreases |steps|
  {
    if steps != [] {
      var n := |steps| - 1;
      var before, s := steps[..n], After(c, steps[..n]);
      FreshBefore(steps);
      AnsweredExactlyOnce(c, before, r);
      CompletedNext(steps, r);
      AckedNext(steps, r);
      ListedIffOutstanding(c, before, r);
      AckedExactly(c, before, r);
      if steps[n].Complete? {
        var x := steps[n].request;
        var a := Answer(c, s, x);
        if a != [] {
          AnswersAppend(s.responses, a[0], r);
        } else {
          assert s.responses + a == s.responses;
        }
      }
    }
  }

  function Expecting(responses: seq<Response>): nat {
    if responses == [] then 0
    else Expecting(responses[..|responses| - 1]) + if responses[|responses| - 1].ackExpected then 1 else 0
  }

  lemma ExpectingAppend(responses: seq<Response>, a: seq<Response>)
    requires |a| <= 1
    ensures Expecting(responses + a) == Expecting(responses) + if a != [] && a[0].ackExpected then 1 else 0
  {
    if a == [] {
      assert responses + a == responses;
    } else {
      assert (responses + a)[..|responses|] == responses;
    }
  }

  // Over every run: the wake lock is grabbed once for each answer that expects an ack.
  lemma {:induction false} GrabPerExpectedAck(c: Config, steps: seq<Step>)
    ensures After(c, steps).grabs == Expecting(After(c, steps).responses)
    decreases |steps|
  {
    if steps != [] {
      var n := |steps| - 1;
      var s := After(c, steps[..n]);
      GrabPerExpectedAck(c, steps[..n]);
      ExpectingAppend(s.responses, Answer(c, s, steps[n].request));
    }
  }

  // How often r was acknowledged while it was outstanding.
  function AcksOf(steps: seq<Step>, r: RequestInfo): nat
    decreases |steps|
  {
    if steps == [] then 0
    else
      var n := |steps| - 1;
      AcksOf(steps[..n], r) + if steps[n] == Ack(r) && Outstanding(steps[..n], r) then 1 else 0
  }

  // Over every run: each ack of an outstanding request is passed on, unless it is cancelled, and no other is.
  lemma {:induction false} AcknowledgedExactly(c: Config, steps: seq<Step>, r: RequestInfo)
    requires Fresh(steps)
    ensures multiset(After(c, steps).acknowledged)[r] == if r.cancelled then 0 else AcksOf(steps, r)
    decreases |steps|
  {
    if steps != [] {
      var n := |steps| - 1;
      FreshBefore(steps);
      AcknowledgedExactly(c, steps[..n], r);
      ListedIffOutstanding(c, steps[..n], r);
    }
  }

  // Socket ids that name a SIM of this build have a list of their own; all others share that of the first.
  lemma SlotsOfTheirOwn(c: Config, a: int, b: int)
    ensures (0 <= a < c.simCount && a < SLOTS) && (0 <= b < c.simCount && b < SLOTS) ==>
      (Hook(c, a) == Hook(c, b) <==> a == b)
    ensures !(0 <= a < c.simCount && a < SLOTS) ==> Hook(c, a) == Hook(c, 0)
  {
  }

  // ----- The lists in place -----

  function Head(nodes: seq<RequestInfo>): RequestInfo? {
    if nodes == [] then null else nodes[0]
  }

  function Successor(nodes: seq<RequestInfo>, i: int): RequestInfo? {
    if 0 <= i < |nodes| - 1 then nodes[i + 1] else null
  }

  ghost predicate Chain(head: RequestInfo?, nodes: seq<RequestInfo>, repr: set<RequestInfo>)
    reads repr`next
  {
    && Distinct(nodes)
    && (forall i :: 0 <= i < |nodes| ==> nodes[i] in repr)
    && head == Head(nodes)
    && forall i {:trigger Successor(nodes, i)} :: 0 <= i < |nodes| ==> nodes[i].next == Successor(nodes, i)
  }

  lemma ChainPush(head: RequestInfo?, nodes: seq<RequestInfo>, repr: set<RequestInfo>, r: RequestInfo)
    requires Chain(head, nodes, repr) && r !in repr && r.next == head
    ensures Chain(r, [r] + nodes, repr + {r})
  {
    var pushed := [r] + nodes;
    forall i | 0 <= i < |pushed|
      ensures pushed[i].next == Successor(pushed, i)
    {
      if i > 0 {
        assert nodes[i - 1].next == Successor(nodes, i - 1);
      }
    }
  }

  lemma ChainMore(head: RequestInfo?, nodes: seq<RequestInfo>, repr: set<RequestInfo>, r: RequestInfo)
    requires Chain(head, nodes, repr)
    ensures Chain(head, nodes, repr + {r})
  {
  }

  // The chain once the link to node k leads past it.
  lemma ChainCut(head: RequestInfo?, nodes: seq<RequestInfo>, repr: set<RequestInfo>, k: nat)
    requires Distinct(nodes) && k < |nodes| && forall i :: 0 <= i < |nodes| ==> nodes[i] in repr
    requires forall i {:trigger Successor(nodes, i)} :: 0 <= i < |nodes| && i != k - 1 ==>
      nodes[i].next == Successor(nodes, i)
    requires if k == 0 then head == Successor(nodes, 0)
      else head == Head(nodes) && nodes[k - 1].next == Successor(nodes, k)
    ensures Chain(head, nodes[..k] + nodes[k + 1..], repr)
  {
    var cut := nodes[..k] + nodes[k + 1..];
    forall i | 0 <= i < |cut|
      ensures cut[i].next == Successor(cut, i)
    {
      var before := Successor(nodes, if i < k then i else i + 1);
    }
  }

  lemma {:induction false} DroppedAt(list: seq<RequestInfo>, r: RequestInfo, k: nat)
    requires k < |list| && list[k] == r && forall i :: 0 <= i < k ==> list[i] != r
    ensures Dropped(list, r) == list[..k] + list[k + 1..]
  {
    if k > 0 {
      DroppedAt(list[1..], r, k - 1);
      assert list[..k] == [list[0]] + list[1..][..k - 1];
    }
  }

  lemma DroppedHooks(c: Config, nodes: seq<RequestInfo>, r: RequestInfo, h: nat)
    requires forall i :: 0 <= i < |nodes| ==> Hook(c, nodes[i].socket) == h
    ensures forall i :: 0 <= i < |Dropped(nodes, r)| ==> Hook(c, Dropped(nodes, r)[i].socket) == h
  {
    DroppedWithin(nodes, r);
    forall i | 0 <= i < |Dropped(nodes, r)|
      ensures Hook(c, Dropped(nodes, r)[i].socket) == h
    {
      assert Dropped(nodes, r)[i] in nodes;
    }
  }

  // Walk the list with the node before the current one, as the pointer to the link does.
  method Find(head: RequestInfo?, r: RequestInfo, ghost nodes: seq<RequestInfo>, ghost repr: set<RequestInfo>)
    returns (found: bool, prev: RequestInfo?, ghost k: nat)
    requires Chain(head, nodes, repr)
    ensures found <==> r in nodes
    ensures found ==> k < |nodes| && nodes[k] == r && prev == if k == 0 then null else nodes[k - 1]
  {
    var cur := head;
    found, prev, k := false, null, 0;
    while cur != null
      invariant k <= |nodes| && cur == (if k < |nodes| then nodes[k] else null)
      invariant prev == if k == 0 then null else nodes[k - 1]
      invariant r !in nodes[..k]
      decreases |nodes| - k
    {
      if cur == r {
        return true, prev, k;
      }
      assert cur.next == Successor(nodes, k);
      assert nodes[..k + 1] == nodes[..k] + [nodes[k]];
      prev, cur, k := cur, cur.next, k + 1;
    }
    assert nodes[..k] == nodes;
  }

  /** The four heads, and what the daemon sends out. */
  class Pending {
    const config: Config
    const heads: array<RequestInfo?>
    var acknowledged: seq<RequestInfo>
    var responses: seq<Response>
    var grabs: nat
    ghost var lists: seq<seq<RequestInfo>>
    ghost var acked: set<RequestInfo>
    ghost var repr: set<RequestInfo>

    ghost predicate Valid()
      reads this, heads, repr
    {
      && heads.Length == SLOTS == |lists|
      && (forall h :: 0 <= h < SLOTS ==> Chain(heads[h], lists[h], repr))
      && (forall h, i :: 0 <= h < SLOTS && 0 <= i < |lists[h]| ==> Hook(config, lists[h][i].socket) == h)
      && (forall r :: r in repr ==> (r.wasAckSent <==> r in acked))
      && acked <= repr
    }

    ghost function View(): State
      reads this
    {
      State(lists, acked, acknowledged, responses, grabs)
    }

    constructor (config: Config)
      ensures Valid() && View() == Start() && this.config == config
    {
      this.config := config;
      heads := new RequestInfo?[SLOTS](_ => null);
      acknowledged, responses, grabs := [], [], 0;
      lists, acked, repr := [[], [], [], []], {}, {};
    }

    // addRequestToList; calloc leaves local and cancelled clear.
    method AddRequestToList(serial: int, slotId: int) returns (r: RequestInfo)
      requires Valid()
      modifies this, heads
      ensures Valid() && fresh(r) && r.token == serial && r.socket == slotId
      ensures View() == Next(config, old(View()), AddRequest(r))
    {
      r := new RequestInfo(serial, slotId, false, false);
      var h := Hook(config, slotId);
      r.next := heads[h];
      forall g | 0 <= g < SLOTS
        ensures Chain(heads[g], lists[g], repr + {r})
      {
        ChainMore(heads[g], lists[g], repr, r);
      }
      ChainPush(heads[h], lists[h], repr, r);
      heads[h] := r;
      repr := repr + {r};
      lists := lists[h := [r] + lists[h]];
    }

    // *ppCur = (*ppCur)->p_next
    method Redirect(h: nat, prev: RequestInfo?, r: RequestInfo, ghost k: nat)
      requires Valid() && h < SLOTS && k < |lists[h]| && lists[h][k] == r
      requires prev == if k == 0 then null else lists[h][k - 1]
      modifies heads, repr`next
      ensures Chain(heads[h], lists[h][..k] + lists[h][k + 1..], repr)
      ensures forall g :: 0 <= g < SLOTS && g != h ==> Chain(heads[g], lists[g], repr)
    {
      assert r.next == Successor(lists[h], k);
      if prev == null {
        heads[h] := r.next;
      } else {
        prev.next := r.next;
      }
      ChainCut(heads[h], lists[h], repr, k);
    }

    method Unlink(h: nat, prev: RequestInfo?, r: RequestInfo, ghost k: nat)
      requires Valid() && h < SLOTS && k < |lists[h]| && lists[h][k] == r
      requires prev == if k == 0 then null else lists[h][k - 1]
      modifies this`lists, heads, repr`next
      ensures Valid() && lists == old(lists)[h := Dropped(old(lists)[h], r)]
    {
      ghost var nodes := lists[h];
      DroppedAt(nodes, r, k);
      DroppedHooks(config, nodes, r, h);
      Redirect(h, prev, r, k);
      lists := lists[h := Dropped(nodes, r)];
    }

    // checkAndDequeueRequestInfoIfAck
    method CheckAndDequeue(r: RequestInfo?, isAck: bool) returns (ret: bool)
      requires Valid()
      modifies this`lists, this`acked, heads, repr
      ensures Valid()
      ensures ret <==> r != null && r in old(lists)[Hook(config, r.socket)]
      ensures lists == if ret && !isAck then
        var h := Hook(config, r.socket); old(lists)[h := Dropped(old(lists)[h], r)] else old(lists)
      ensures acked == if ret && isAck then old(acked) + {r} else old(acked)
    {
      if r == null {
        return false;
      }
      var h := Hook(config, r.socket);
      var found, prev, k := Find(heads[h], r, lists[h], repr);
      if found {
        if isAck {
          r.wasAckSent := true;
          acked := acked + {r};
        } else {
          Unlink(h, prev, r, k);
        }
      }
      return found;
    }

    // RIL_onRequestAck
    method OnRequestAck(r: RequestInfo?)
      requires Valid()
      modifies this, heads, repr
      ensures Valid()
      ensures View() == if r == null then old(View()) else Next(config, old(View()), Ack(r))
    {
      var ok := CheckAndDequeue(r, true);
      if !ok {
        return;
      }
      if !r.cancelled {
        acknowledged := acknowledged + [r];
      }
    }

    // RIL_onRequestComplete
    method OnRequestComplete(r: RequestInfo?)
      requires Valid()
      modifies this, heads, repr
      ensures Valid()
      ensures View() == if r == null then old(View()) else Next(config, old(View()), Complete(r))
    {
      var ok := CheckAndDequeue(r, false);
      if !ok || r.local {
        return;
      }
      if !r.cancelled {
        var ackExpected := false;
        if config.version >= 13 && r.wasAckSent {
          ackExpected := true;
          grabs := grabs + 1;
        }
        responses := responses + [Response(r, ackExpected)];
      }
    }
  }
}
