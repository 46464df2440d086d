/** The audio HAL's routing engine on values: which usecase holds which sound
    device, how often each device is held, and which mixer routes are applied
    (audio/audio_hw.c). The step functions here are the specification of the
    imperative AudioDevice class; the lemmas prove what every run of HAL calls keeps.

    One mixer card; routes are tracked per sound device. The device picked by
    get_output_snd_device / get_input_snd_device is an input of a step.
  */
module Routing {

  const NONE := 0
  const SPEAKER := 2
  const HEADPHONES := 3
  const SPEAKER_AND_HEADPHONES := 4
  const IN_BEGIN := 16
  const SND_DEVICE_MAX := 36

  const AUDIO_USECASE_MAX := 6
  const USECASE_VOICE_CALL := 5

  type Device = d: int | 0 <= d < SND_DEVICE_MAX

  datatype Kind = Playback | Capture | VoiceCall

  // The two device fields of a usecase: rx is the output side, tx the input side.
  datatype Side = Rx | Tx

  datatype Usecase = Usecase(id: int, kind: Kind, outDev: Device, inDev: Device) {
    function At(side: Side): Device {
      if side == Rx then outDev else inDev
    }
    function With(side: Side, d: Device): Usecase {
      if side == Rx then this.(outDev := d) else this.(inDev := d)
    }
  }

  datatype Board = Board(refCnt: seq<int>, list: seq<Usecase>, inCall: bool, applied: set<Device>)

  // What the branch-only device lookups return for one call.
  datatype Choice = Choice(outDev: Device, inDev: Device, cascade: bool, cascadeIn: Device)

  predicate Real(d: int) { d != NONE && d != SPEAKER_AND_HEADPHONES }

  predicate OnSide(side: Side, d: Device) {
    d == NONE || (if side == Rx then d < IN_BEGIN else IN_BEGIN <= d)
  }

  predicate Sane(c: Choice) {
    OnSide(Rx, c.outDev) && OnSide(Tx, c.inDev) && OnSide(Tx, c.cascadeIn)
  }

  function Expand(d: Device): set<Device> {
    if d == SPEAKER_AND_HEADPHONES then {SPEAKER, HEADPHONES} else {d}
  }

  // ----- Lookups -----

  function Find(list: seq<Usecase>, id: int): (k: nat)
    ensures k <= |list|
    ensures k < |list| ==> list[k].id == id
    ensures forall j :: 0 <= j < k ==> list[j].id != id
  {
    if list == [] || list[0].id == id then 0 else 1 + Find(list[1..], id)
  }

  function FirstOf(list: seq<Usecase>, kinds: set<Kind>): (k: nat)
    ensures k <= |list|
    ensures k < |list| ==> list[k].kind in kinds
    ensures forall j :: 0 <= j < k ==> list[j].kind !in kinds
  {
    if list == [] || list[0].kind in kinds then 0 else 1 + FirstOf(list[1..], kinds)
  }

  // ----- Steps -----

  predicate Shaped(s: Board) { |s.refCnt| == SND_DEVICE_MAX }

  function EnableOne(s: Board, d: Device): (r: Board)
    requires Shaped(s)
    ensures Shaped(r) && r == s.(refCnt := r.refCnt, applied := r.applied)
  {
    var n := s.refCnt[d] + 1;
    s.(refCnt := s.refCnt[d := n], applied := if n > 1 then s.applied else s.applied + {d})
  }

  function Enable(s: Board, d: Device): (r: Board)
    requires Shaped(s)
    ensures Shaped(r) && r == s.(refCnt := r.refCnt, applied := r.applied)
  {
    if d == SPEAKER_AND_HEADPHONES then EnableOne(EnableOne(s, SPEAKER), HEADPHONES)
    else EnableOne(s, d)
  }

  // The route re-applied after an input route was reset: the first playback usecase's.
  function RxCycle(s: Board, d: Device): set<Device> {
    var p := FirstOf(s.list, {Playback});
    if d > IN_BEGIN && p < |s.list| then {s.list[p].outDev} else {}
  }

  function DisableOne(s: Board, d: Device): (r: Board)
    requires Shaped(s)
    ensures Shaped(r) && r == s.(refCnt := r.refCnt, applied := r.applied)
  {
    if s.refCnt[d] <= 0 then s
    else
      var n := s.refCnt[d] - 1;
      s.(refCnt := s.refCnt[d := n],
         applied := if n == 0 then s.applied - {d} + RxCycle(s, d) else s.applied)
  }

  function Disable(s: Board, d: Device): (r: Board)
    requires Shaped(s)
    ensures Shaped(r) && r == s.(refCnt := r.refCnt, applied := r.applied)
  {
    if d == SPEAKER_AND_HEADPHONES then DisableOne(DisableOne(s, SPEAKER), HEADPHONES)
    else DisableOne(s, d)
  }

  function MovedKind(side: Side): Kind {
    if side == Rx then Playback else Capture
  }

  predicate MustMove(list: seq<Usecase>, i: nat, side: Side, dev: Device, k: nat)
    requires k < |list|
  {
    list[k].kind == MovedKind(side) && k != i && list[k].At(side) != dev
  }

  function Move(s: Board, side: Side, dev: Device, k: nat): (r: Board)
    requires Shaped(s) && k < |s.list|
    ensures Shaped(r) && r.list == s.list[k := s.list[k].With(side, dev)] && r.inCall == s.inCall
  {
    var t := Enable(Disable(s, s.list[k].At(side)), dev);
    t.(list := t.list[k := t.list[k].With(side, dev)])
  }

  // check_and_route_usecases from list position k on; i is the usecase being selected.
  function RouteFrom(s: Board, i: nat, side: Side, dev: Device, k: nat): (r: Board)
    requires Shaped(s) && k <= |s.list|
    ensures Shaped(r) && |r.list| == |s.list| && r.inCall == s.inCall
    decreases |s.list| - k
  {
    if k == |s.list| then s
    else RouteFrom(if MustMove(s.list, i, side, dev, k) then Move(s, side, dev, k) else s, i, side, dev, k + 1)
  }

  function DropAt(s: Board, i: nat, side: Side): (r: Board)
    requires Shaped(s) && i < |s.list|
    ensures Shaped(r) && r == s.(refCnt := r.refCnt, applied := r.applied)
  {
    if s.list[i].At(side) != NONE then Disable(s, s.list[i].At(side)) else s
  }

  function TakeAt(s: Board, i: nat, side: Side, dev: Device): (r: Board)
    requires Shaped(s)
    ensures Shaped(r) && |r.list| == |s.list| && r.inCall == s.inCall
  {
    if dev != NONE then Enable(RouteFrom(s, i, side, dev, 0), dev) else s
  }

  // select_devices once the two target devices are known.
  function Switch(s: Board, i: nat, outDev: Device, inDev: Device): (r: Board)
    requires Shaped(s) && i < |s.list|
    ensures Shaped(r) && |r.list| == |s.list| && r.inCall == s.inCall
  {
    if outDev == s.list[i].outDev && inDev == s.list[i].inDev then s
    else
      var dropped := DropAt(DropAt(s, i, Rx), i, Tx);
      var taken := TakeAt(TakeAt(dropped, i, Rx, outDev), i, Tx, inDev);
      taken.(list := taken.list[i := taken.list[i].(inDev := inDev, outDev := outDev)])
  }

  // The devices of the active voice call, which other usecases follow.
  function CallDevice(s: Board, side: Side): Device {
    var v := Find(s.list, USECASE_VOICE_CALL);
    if s.inCall && v < |s.list| then s.list[v].At(side) else NONE
  }

  function SelectCapture(s: Board, i: nat, inDev: Device): (r: Board)
    requires Shaped(s) && i < |s.list|
    ensures Shaped(r) && |r.list| == |s.list| && r.inCall == s.inCall
  {
    Switch(s, i, NONE, if CallDevice(s, Tx) == NONE then inDev else CallDevice(s, Tx))
  }

  // The one-level recursion of select_devices: a playback usecase first re-selects the active capture.
  function Cascade(s: Board, c: Choice): (r: Board)
    requires Shaped(s)
    ensures Shaped(r) && |r.list| == |s.list| && r.inCall == s.inCall
  {
    var a := FirstOf(s.list, {Capture, VoiceCall});
    if c.cascade && a < |s.list| && s.list[a].kind == Capture then SelectCapture(s, a, c.cascadeIn) else s
  }

  function SelectAt(s: Board, i: nat, c: Choice): (r: Board)
    requires Shaped(s) && i < |s.list|
    ensures Shaped(r) && |r.list| == |s.list| && r.inCall == s.inCall
  {
    match s.list[i].kind
    case VoiceCall => Switch(s, i, c.outDev, c.inDev)
    case Playback =>
      if CallDevice(s, Rx) != NONE then Switch(s, i, CallDevice(s, Rx), NONE)
      else Switch(Cascade(s, c), i, c.outDev, NONE)
    case Capture => SelectCapture(s, i, c.inDev)
  }

  function Select(s: Board, id: int, c: Choice): (r: Board)
    requires Shaped(s)
    ensures Shaped(r)
  {
    var i := Find(s.list, id);
    if i < |s.list| then SelectAt(s, i, c) else s
  }

  function Start(s: Board, id: int, kind: Kind, c: Choice): (r: Board)
    requires Shaped(s)
    ensures Shaped(r)
  {
    Select(s.(list := s.list + [Usecase(id, kind, NONE, NONE)], inCall := s.inCall || kind == VoiceCall), id, c)
  }

  function Without<T>(list: seq<T>, i: nat): seq<T>
    requires i < |list|
  {
    list[..i] + list[i + 1..]
  }

  // disable_output_path_l, stop_input_stream and stop_voice_call: release what the usecase holds, unlink it.
  function Stop(s: Board, id: int): (r: Board)
    requires Shaped(s)
    ensures Shaped(r)
  {
    var i := Find(s.list, id);
    var t := if id == USECASE_VOICE_CALL then s.(inCall := false) else s;
    if i == |s.list| then t
    else
      var u := match s.list[i].kind
        case Playback => Disable(t, t.list[i].outDev)
        case Capture => Disable(t, t.list[i].inDev)
        case VoiceCall => Disable(Disable(t, t.list[i].outDev), t.list[i].inDev);
      u.(list := Without(u.list, i))
  }

  // out_set_offload_parameters: leave the combo device for headphones alone.
  function LeaveCombo(s: Board, id: int): (r: Board)
    requires Shaped(s)
    ensures Shaped(r)
  {
    var i := Find(s.list, id);
    if i < |s.list| && s.list[i].outDev == SPEAKER_AND_HEADPHONES then
      Disable(s.(list := s.list[i := s.list[i].(outDev := HEADPHONES)]), SPEAKER)
    else s
  }

  // ----- Conservation of references -----

  function Share(u: Usecase, d: Device): nat {
    (if d in Expand(u.outDev) then 1 else 0) + (if d in Expand(u.inDev) then 1 else 0)
  }

  function Holders(list: seq<Usecase>, d: Device): nat {
    if list == [] then 0 else Holders(list[..|list| - 1], d) + Share(list[|list| - 1], d)
  }

  // Every count is the number of device fields that expand to the device.
  ghost predicate Counted(refCnt: seq<int>, list: seq<Usecase>) {
    && |refCnt| == SND_DEVICE_MAX
    && refCnt[NONE] == 0
    && refCnt[SPEAKER_AND_HEADPHONES] == 0
    && forall d: Device | Real(d) :: refCnt[d] == Holders(list, d)
  }

  // The same with one usecase in the middle of a move: it currently holds what `held` says.
  ghost predicate CountedBut(s: Board, i: nat, held: Usecase)
    requires i < |s.list|
  {
    Counted(s.refCnt, s.list[i := held])
  }

  // A real device's route is applied exactly while something holds the device.
  ghost predicate Routed(s: Board)
    requires Shaped(s)
  {
    forall d: Device | Real(d) :: d in s.applied <==> s.refCnt[d] > 0
  }

  predicate WellTyped(u: Usecase) {
    && 0 <= u.id < AUDIO_USECASE_MAX
    && (u.kind == VoiceCall <==> u.id == USECASE_VOICE_CALL)
    && OnSide(Rx, u.outDev)
    && OnSide(Tx, u.inDev)
    && (u.kind == Playback ==> u.inDev == NONE)
    && (u.kind == Capture ==> u.outDev == NONE)
  }

  predicate UniqueIds(list: seq<Usecase>) {
    forall j, k :: 0 <= j < k < |list| ==> list[j].id != list[k].id
  }

  ghost predicate Typed(list: seq<Usecase>) {
    (forall u :: u in list ==> WellTyped(u)) && UniqueIds(list)
  }

  ghost predicate Inv(s: Board) {
    Shaped(s) && Counted(s.refCnt, s.list) && Routed(s) && Typed(s.list)
  }

  // On the backend of a side are the usecases of its kind that hold a device.
  predicate OnBackend(u: Usecase, side: Side) { u.kind == MovedKind(side) && u.At(side) != NONE }

  predicate AllOn(list: seq<Usecase>, side: Side, d: Device) {
    forall u :: u in list && OnBackend(u, side) ==> u.At(side) == d
  }

  // All playback usecases that are on a device share one output device, all capture usecases one input device.
  predicate Agreed(list: seq<Usecase>, side: Side) {
    forall j, k | 0 <= j < |list| && 0 <= k < |list| && OnBackend(list[j], side) && OnBackend(list[k], side) ::
      list[j].At(side) == list[k].At(side)
  }

  lemma {:induction false} HoldersUpdate(list: seq<Usecase>, i: nat, u: Usecase, d: Device)
    requires i < |list|
    ensures Holders(list[i := u], d) == Holders(list, d) - Share(list[i], d) + Share(u, d)
  {
    var n := |list| - 1;
    if i == n {
      assert list[i := u][..n] == list[..n];
    } else {
      HoldersUpdate(list[..n], i, u, d);
      assert list[i := u][..n] == list[..n][i := u];
    }
  }

  lemma {:induction false} HoldersRemove(list: seq<Usecase>, i: nat, d: Device)
    requires i < |list|
    ensures Holders(Without(list, i), d) == Holders(list, d) - Share(list[i], d)
  {
    var n := |list| - 1;
    if i == n {
      assert Without(list, i) == list[..n];
    } else {
      HoldersRemove(list[..n], i, d);
      var w := Without(list, i);
      assert w[..|w| - 1] == Without(list[..n], i);
      assert w[|w| - 1] == list[n];
    }
  }

  lemma HoldersAtLeast(list: seq<Usecase>, i: nat, d: Device)
    requires i < |list|
    ensures Share(list[i], d) <= Holders(list, d)
  {
  }

  // Giving up one device field moves the counts from `list` to the list without it.
  lemma DropCounts(s: Board, list: seq<Usecase>, i: nat, side: Side)
    requires Shaped(s) && Counted(s.refCnt, list) && i < |list|
    requires OnSide(Rx, list[i].outDev) && OnSide(Tx, list[i].inDev)
    ensures Counted(Disable(s, list[i].At(side)).refCnt, list[i := list[i].With(side, NONE)])
  {
    var u := list[i].With(side, NONE);
    forall d: Device | Real(d)
      ensures Disable(s, list[i].At(side)).refCnt[d] == Holders(list[i := u], d)
    {
      HoldersUpdate(list, i, u, d);
      HoldersAtLeast(list, i, d);
      HoldersAtLeast(list, i, SPEAKER);
      HoldersAtLeast(list, i, HEADPHONES);
    }
  }

  lemma TakeCounts(s: Board, list: seq<Usecase>, i: nat, side: Side, dev: Device)
    requires Shaped(s) && Counted(s.refCnt, list) && i < |list|
    requires dev != NONE && OnSide(side, dev) && list[i].At(side) == NONE
    ensures Counted(Enable(s, dev).refCnt, list[i := list[i].With(side, dev)])
  {
    forall d: Device | Real(d)
      ensures Enable(s, dev).refCnt[d] == Holders(list[i := list[i].With(side, dev)], d)
    {
      HoldersUpdate(list, i, list[i].With(side, dev), d);
    }
  }

  // ----- Routes follow the counts -----

  // The first playback usecase's device is held, so re-applying its route changes nothing.
  ghost predicate RxLive(s: Board)
    requires Shaped(s)
  {
    var p := FirstOf(s.list, {Playback});
    p < |s.list| && Real(s.list[p].outDev) ==> s.list[p].outDev < IN_BEGIN && s.refCnt[s.list[p].outDev] > 0
  }

  lemma RxLiveBut(s: Board, i: nat, held: Usecase)
    requires Shaped(s) && Typed(s.list) && i < |s.list| && CountedBut(s, i, held)
    requires s.list[i].kind == Playback ==> held.outDev == s.list[i].outDev
    ensures RxLive(s)
  {
    var p := FirstOf(s.list, {Playback});
    if p < |s.list| && Real(s.list[p].outDev) {
      assert WellTyped(s.list[p]);
      HoldersAtLeast(s.list[i := held], p, s.list[p].outDev);
    }
  }

  lemma DisableRoutes(s: Board, d: Device)
    requires Shaped(s) && Routed(s) && RxLive(s)
    ensures Routed(Disable(s, d))
  {
  }

  lemma DisableRxRoutes(s: Board, d: Device)
    requires Shaped(s) && Routed(s) && OnSide(Rx, d)
    ensures Routed(Disable(s, d))
  {
  }

  lemma EnableRoutes(s: Board, list: seq<Usecase>, d: Device)
    requires Shaped(s) && Routed(s) && Counted(s.refCnt, list)
    ensures Routed(Enable(s, d))
  {
  }

  // ----- What a move keeps -----

  // `r` has the usecases of `list`; only fields on `side` may differ, and not that of usecase i.
  predicate SameBut(r: seq<Usecase>, list: seq<Usecase>, i: nat, side: Side) {
    && |r| == |list|
    && (forall j | 0 <= j < |list| ::
          && r[j].id == list[j].id && r[j].kind == list[j].kind && r[j] == list[j].With(side, r[j].At(side))
          && (list[j].kind != MovedKind(side) ==> r[j] == list[j]))
    && (i < |list| ==> r[i] == list[i])
  }

  lemma SameButTransitive(a: seq<Usecase>, b: seq<Usecase>, c: seq<Usecase>, i: nat, side: Side)
    requires SameBut(a, b, i, side) && SameBut(b, c, i, side)
    ensures SameBut(a, c, i, side)
  {
  }

  // The list half of a move: usecase k goes to dev, and it was the only one that had to among the first k + 1.
  lemma MovedList(list: seq<Usecase>, i: nat, side: Side, dev: Device, k: nat)
    requires Typed(list) && k < |list| && OnSide(side, dev) && MustMove(list, i, side, dev, k)
    ensures var r := list[k := list[k].With(side, dev)];
      && Typed(r) && SameBut(r, list, i, side)
      && forall j | 0 <= j <= k && (j < k ==> !MustMove(list, i, side, dev, j)) :: !MustMove(r, i, side, dev, j)
  {
    assert WellTyped(list[k]);
    TypedUpdate(list, k, list[k].With(side, dev));
  }

  lemma MoveKeeps(s: Board, i: nat, held: Usecase, side: Side, dev: Device, k: nat)
    requires Shaped(s) && Routed(s) && Typed(s.list) && i < |s.list| && CountedBut(s, i, held)
    requires dev != NONE && OnSide(side, dev) && (side == Tx ==> s.list[i].kind != Playback)
    requires k < |s.list| && MustMove(s.list, i, side, dev, k)
    ensures var r := Move(s, side, dev, k);
      && Routed(r) && Typed(r.list) && CountedBut(r, i, held) && SameBut(r.list, s.list, i, side)
      && forall j | 0 <= j <= k && (j < k ==> !MustMove(s.list, i, side, dev, j)) :: !MustMove(r.list, i, side, dev, j)
  {
    MovedList(s.list, i, side, dev, k);
    var u := s.list[k];
    assert WellTyped(u);
    var list := s.list[i := held];
    var t := Disable(s, u.At(side));
    DropCounts(s, list, k, side);
    if side == Tx {
      RxLiveBut(s, i, held);
      DisableRoutes(s, u.At(side));
    } else {
      DisableRxRoutes(s, u.At(side));
    }
    var list' := list[k := u.With(side, NONE)];
    TakeCounts(t, list', k, side, dev);
    EnableRoutes(t, list', dev);
    var r := Move(s, side, dev, k);
    assert r.list[i := held] == list'[k := list'[k].With(side, dev)];
  }

  lemma {:induction false} RoutedList(s: Board, i: nat, side: Side, dev: Device, k: nat)
    requires Shaped(s) && Typed(s.list) && OnSide(side, dev) && k <= |s.list|
    requires forall j | 0 <= j < k :: !MustMove(s.list, i, side, dev, j)
    ensures var r := RouteFrom(s, i, side, dev, k).list;
      && Typed(r) && SameBut(r, s.list, i, side)
      && forall j | 0 <= j < |r| :: !MustMove(r, i, side, dev, j)
    decreases |s.list| - k
  {
    if k < |s.list| {
      if MustMove(s.list, i, side, dev, k) {
        MovedList(s.list, i, side, dev, k);
        var t := Move(s, side, dev, k);
        RoutedList(t, i, side, dev, k + 1);
        SameButTransitive(RouteFrom(t, i, side, dev, k + 1).list, t.list, s.list, i, side);
      } else {
        RoutedList(s, i, side, dev, k + 1);
      }
    }
  }

  lemma {:induction false} RoutedCounts(s: Board, i: nat, held: Usecase, side: Side, dev: Device, k: nat)
    requires Shaped(s) && Routed(s) && Typed(s.list) && i < |s.list| && CountedBut(s, i, held)
    requires dev != NONE && OnSide(side, dev) && (side == Tx ==> s.list[i].kind != Playback) && k <= |s.list|
    ensures var r := RouteFrom(s, i, side, dev, k); Routed(r) && CountedBut(r, i, held)
    decreases |s.list| - k
  {
    if k < |s.list| {
      if MustMove(s.list, i, side, dev, k) {
        MoveKeeps(s, i, held, side, dev, k);
        RoutedCounts(Move(s, side, dev, k), i, held, side, dev, k + 1);
      } else {
        RoutedCounts(s, i, held, side, dev, k + 1);
      }
    }
  }

  lemma RouteKeeps(s: Board, i: nat, held: Usecase, side: Side, dev: Device, k: nat)
    requires Shaped(s) && Routed(s) && Typed(s.list) && i < |s.list| && CountedBut(s, i, held)
    requires dev != NONE && OnSide(side, dev) && (side == Tx ==> s.list[i].kind != Playback)
    requires k <= |s.list|
    requires forall j | 0 <= j < k :: !MustMove(s.list, i, side, dev, j)
    ensures var r := RouteFrom(s, i, side, dev, k);
      && Routed(r) && Typed(r.list) && CountedBut(r, i, held) && SameBut(r.list, s.list, i, side)
      && forall j | 0 <= j < |r.list| :: !MustMove(r.list, i, side, dev, j)
  {
    RoutedCounts(s, i, held, side, dev, k);
    RoutedList(s, i, side, dev, k);
  }

  lemma DropKeeps(s: Board, i: nat, held: Usecase, side: Side)
    requires Shaped(s) && Routed(s) && Typed(s.list) && i < |s.list| && CountedBut(s, i, held)
    requires held.At(side) == s.list[i].At(side) && OnSide(Rx, held.outDev) && OnSide(Tx, held.inDev)
    requires s.list[i].kind == Playback ==> side == Rx
    ensures var r := DropAt(s, i, side); Routed(r) && CountedBut(r, i, held.With(side, NONE))
    ensures var r := Disable(s, s.list[i].At(side)); Routed(r) && CountedBut(r, i, held.With(side, NONE))
  {
    assert WellTyped(s.list[i]);
    var list := s.list[i := held];
    DropCounts(s, list, i, side);
    assert list[i := held.With(side, NONE)] == s.list[i := held.With(side, NONE)];
    assert held.At(side) == NONE ==> held == held.With(side, NONE);
    if side == Tx { RxLiveBut(s, i, held); }
  }

  lemma TakeKeeps(s: Board, i: nat, held: Usecase, side: Side, dev: Device)
    requires Shaped(s) && Routed(s) && Typed(s.list) && i < |s.list| && CountedBut(s, i, held)
    requires OnSide(side, dev) && (side == Tx && dev != NONE ==> s.list[i].kind != Playback)
    requires held.At(side) == NONE
    ensures var r := TakeAt(s, i, side, dev);
      && Routed(r) && Typed(r.list) && CountedBut(r, i, held.With(side, dev)) && SameBut(r.list, s.list, i, side)
      && (dev != NONE ==> forall j | 0 <= j < |r.list| :: !MustMove(r.list, i, side, dev, j))
      && (dev == NONE ==> r == s)
  {
    if dev == NONE {
      assert held == held.With(side, NONE);
    } else {
      RouteKeeps(s, i, held, side, dev, 0);
      var t := RouteFrom(s, i, side, dev, 0);
      var list := t.list[i := held];
      TakeCounts(t, list, i, side, dev);
      EnableRoutes(t, list, dev);
      assert t.list[i := held.With(side, dev)] == list[i := held.With(side, dev)];
    }
  }

  lemma DropBothKeeps(s: Board, i: nat)
    requires Inv(s) && i < |s.list|
    ensures var r := DropAt(DropAt(s, i, Rx), i, Tx);
      Routed(r) && r.list == s.list && CountedBut(r, i, s.list[i].(outDev := NONE, inDev := NONE))
  {
    var u := s.list[i];
    assert WellTyped(u);
    assert s.list[i := u] == s.list;
    DropKeeps(s, i, u, Rx);
    var held := u.With(Rx, NONE);
    if u.kind == Playback {
      assert held == u.(outDev := NONE, inDev := NONE);
    } else {
      DropKeeps(DropAt(s, i, Rx), i, held, Tx);
      assert held.With(Tx, NONE) == u.(outDev := NONE, inDev := NONE);
    }
  }

  lemma TakeBothKeeps(s: Board, i: nat, u: Usecase)
    requires Shaped(s) && Routed(s) && Typed(s.list) && i < |s.list|
    requires WellTyped(u) && u.kind == s.list[i].kind
    requires CountedBut(s, i, u.(outDev := NONE, inDev := NONE))
    ensures var t := TakeAt(s, i, Rx, u.outDev); var r := TakeAt(t, i, Tx, u.inDev);
      && Routed(r) && Typed(r.list) && CountedBut(r, i, u)
      && SameBut(t.list, s.list, i, Rx) && SameBut(r.list, t.list, i, Tx)
      && (u.outDev != NONE ==> forall j | 0 <= j < |t.list| :: !MustMove(t.list, i, Rx, u.outDev, j))
      && (u.outDev == NONE ==> t == s)
      && (u.inDev != NONE ==> forall j | 0 <= j < |r.list| :: !MustMove(r.list, i, Tx, u.inDev, j))
      && (u.inDev == NONE ==> r == t)
  {
    var held := u.(outDev := NONE, inDev := NONE);
    TakeKeeps(s, i, held, Rx, u.outDev);
    TakeKeeps(TakeAt(s, i, Rx, u.outDev), i, held.With(Rx, u.outDev), Tx, u.inDev);
    assert held.With(Rx, u.outDev).With(Tx, u.inDev) == u;
  }

  // What becomes of another usecase when one is switched to `last`: playback follows a new output device, capture
  // a new input device, and nothing else moves.
  function Followed(u: Usecase, last: Usecase): Usecase {
    u.(outDev := if u.kind == Playback && last.outDev != NONE then last.outDev else u.outDev,
       inDev := if u.kind == Capture && last.inDev != NONE then last.inDev else u.inDev)
  }

  predicate Switched(r: seq<Usecase>, list: seq<Usecase>, i: nat, last: Usecase)
    requires i < |list|
  {
    |r| == |list| && r[i] == last && forall j | 0 <= j < |r| && j != i :: r[j] == Followed(list[j], last)
  }

  lemma SwitchedList(list: seq<Usecase>, t: seq<Usecase>, taken: seq<Usecase>, i: nat, last: Usecase)
    requires i < |list| && SameBut(t, list, i, Rx) && SameBut(taken, t, i, Tx)
    requires last.outDev != NONE ==> forall j | 0 <= j < |t| :: !MustMove(t, i, Rx, last.outDev, j)
    requires last.outDev == NONE ==> t == list
    requires last.inDev != NONE ==> forall j | 0 <= j < |taken| :: !MustMove(taken, i, Tx, last.inDev, j)
    requires last.inDev == NONE ==> taken == t
    ensures Switched(taken[i := last], list, i, last)
  {
    forall j | 0 <= j < |list| && j != i
      ensures taken[j] == Followed(list[j], last)
    {
      assert last.outDev != NONE ==> !MustMove(t, i, Rx, last.outDev, j);
      assert last.inDev != NONE ==> !MustMove(taken, i, Tx, last.inDev, j);
    }
  }

  // The heart of the engine: one device switch conserves references and routes, and moves exactly what follows it.
  lemma SwitchKeeps(s: Board, i: nat, outDev: Device, inDev: Device)
    requires Inv(s) && i < |s.list|
    requires WellTyped(s.list[i].(outDev := outDev, inDev := inDev))
    ensures var r := Switch(s, i, outDev, inDev); var last := s.list[i].(outDev := outDev, inDev := inDev);
      Inv(r) && (if last == s.list[i] then r == s else Switched(r.list, s.list, i, last))
  {
    var last := s.list[i].(outDev := outDev, inDev := inDev);
    if last != s.list[i] {
      DropBothKeeps(s, i);
      var dropped := DropAt(DropAt(s, i, Rx), i, Tx);
      TakeBothKeeps(dropped, i, last);
      var t := TakeAt(dropped, i, Rx, outDev);
      var taken := TakeAt(t, i, Tx, inDev);
      SwitchedList(s.list, t.list, taken.list, i, last);
      assert Switch(s, i, outDev, inDev) == taken.(list := taken.list[i := last]);
      TypedUpdate(taken.list, i, last);
    }
  }

  lemma TypedUpdate(list: seq<Usecase>, i: nat, last: Usecase)
    requires Typed(list) && i < |list| && WellTyped(last) && last.id == list[i].id
    ensures Typed(list[i := last])
  {
  }
}
