/** Whole runs of HAL calls over the routing engine: references and routes are conserved by
    every call, and every call but out_set_offload_parameters keeps the shared backend in agreement. */
module RoutingRuns {
  import opened Routing

  datatype Call =
    | StartUsecase(id: int, kind: Kind, choice: Choice)
    | StopUsecase(id: int)
    | Reselect(id: int, choice: Choice)
    | RestartCall(choice: Choice)
    | SetOffloadParameters(id: int, choice: Choice)

  // What the HAL relies on: device lookups stay on their side, and a usecase is started only while stopped.
  predicate Allowed(s: Board, c: Call) {
    match c
    case StartUsecase(id, kind, choice) =>
      && Sane(choice) && 0 <= id < AUDIO_USECASE_MAX
      && (kind == VoiceCall <==> id == USECASE_VOICE_CALL)
      && Find(s.list, id) == |s.list|
    case StopUsecase(_) => true
    case Reselect(_, choice) => Sane(choice)
    case RestartCall(choice) => Sane(choice)
    case SetOffloadParameters(_, choice) => Sane(choice)
  }

  function Step(s: Board, c: Call): (r: Board)
    requires Shaped(s)
    ensures Shaped(r)
  {
    match c
    case StartUsecase(id, kind, choice) => Start(s, id, kind, choice)
    case StopUsecase(id) => Stop(s, id)
    case Reselect(id, choice) => Select(s, id, choice)
    case RestartCall(choice) => Start(Stop(s, USECASE_VOICE_CALL), USECASE_VOICE_CALL, VoiceCall, choice)
    case SetOffloadParameters(id, choice) => Select(LeaveCombo(s, id), id, choice)
  }

  function Run(s: Board, calls: seq<Call>): (r: Board)
    requires Shaped(s)
    ensures Shaped(r)
    decreases |calls|
  {
    if calls == [] then s else Run(Step(s, calls[0]), calls[1..])
  }

  predicate RunAllowed(s: Board, calls: seq<Call>)
    requires Shaped(s)
    decreases |calls|
  {
    calls == [] || (Allowed(s, calls[0]) && RunAllowed(Step(s, calls[0]), calls[1..]))
  }

  function Initial(): Board {
    Board(seq(SND_DEVICE_MAX, _ => 0), [], false, {})
  }

  // ----- Backend agreement, with and without a voice call -----

  // The usecases on a side's backend agree on one device, which during a call is the call's.
  predicate Backend(s: Board, side: Side) {
    && Agreed(s.list, side)
    && forall v :: v in s.list && v.kind == VoiceCall && s.inCall && v.At(side) != NONE ==>
         AllOn(s.list, side, v.At(side))
  }

  // Whatever side agrees in s still does in r.
  predicate KeepsBackends(s: Board, r: Board) {
    forall side: Side :: Backend(s, side) ==> Backend(r, side)
  }

  lemma CallDeviceIs(s: Board, side: Side)
    requires Typed(s.list)
    ensures CallDevice(s, side) != NONE ==>
              s.inCall && exists v :: v in s.list && v.kind == VoiceCall && v.At(side) == CallDevice(s, side)
    ensures forall v :: s.inCall && v in s.list && v.kind == VoiceCall ==> v.At(side) == CallDevice(s, side)
  {
    var k := Find(s.list, USECASE_VOICE_CALL);
    if k < |s.list| {
      assert s.list[k] in s.list && WellTyped(s.list[k]);
    }
  }

  lemma SwitchBackend(s: Board, i: nat, outDev: Device, inDev: Device, side: Side)
    requires Inv(s) && i < |s.list| && WellTyped(s.list[i].(outDev := outDev, inDev := inDev)) && Backend(s, side)
    requires s.list[i].kind == MovedKind(side) && CallDevice(s, side) != NONE ==>
      (if side == Rx then outDev else inDev) == CallDevice(s, side)
    ensures Backend(Switch(s, i, outDev, inDev), side)
  {
    SwitchKeeps(s, i, outDev, inDev);
    CallDeviceIs(s, side);
    var r := Switch(s, i, outDev, inDev);
    if r != s {
      SwitchedBackend(s.list, r.list, i, s.list[i].(outDev := outDev, inDev := inDev), s.inCall, side);
    }
  }

  lemma SwitchedBackend(list: seq<Usecase>, r: seq<Usecase>, i: nat, last: Usecase, inCall: bool, side: Side)
    requires Typed(list) && Typed(r) && i < |list| && Switched(r, list, i, last)
    requires last.kind == list[i].kind && last.id == list[i].id
    requires Backend(Board([], list, inCall, {}), side)
    requires inCall && last.kind == MovedKind(side) ==>
      forall v :: v in list && v.kind == VoiceCall && v.At(side) != NONE ==> last.At(side) == v.At(side)
    ensures Backend(Board([], r, inCall, {}), side)
  {
    if last.At(side) == NONE {
      assert forall j | 0 <= j < |r| && OnBackend(r[j], side) :: OnBackend(list[j], side) && list[j] in list;
    }
    forall v | v in r && v.kind == VoiceCall && inCall && v.At(side) != NONE
      ensures AllOn(r, side, v.At(side))
    {
      var j :| 0 <= j < |r| && r[j] == v;
      if j != i {
        assert v == list[j] && v in list && WellTyped(last) && WellTyped(v);
      }
    }
  }

  // ----- select_devices -----

  // A switch that follows the call keeps what agrees.
  lemma SwitchAllKeeps(s: Board, i: nat, outDev: Device, inDev: Device)
    requires Inv(s) && i < |s.list| && WellTyped(s.list[i].(outDev := outDev, inDev := inDev))
    requires s.list[i].kind == Playback && CallDevice(s, Rx) != NONE ==> outDev == CallDevice(s, Rx)
    requires s.list[i].kind == Capture && CallDevice(s, Tx) != NONE ==> inDev == CallDevice(s, Tx)
    ensures Inv(Switch(s, i, outDev, inDev)) && KeepsBackends(s, Switch(s, i, outDev, inDev))
  {
    SwitchKeeps(s, i, outDev, inDev);
    forall side: Side | Backend(s, side)
      ensures Backend(Switch(s, i, outDev, inDev), side)
    {
      SwitchBackend(s, i, outDev, inDev, side);
    }
  }

  // The device a capture usecase is selected for.
  function CaptureTarget(s: Board, inDev: Device): Device {
    if CallDevice(s, Tx) == NONE then inDev else CallDevice(s, Tx)
  }

  lemma SelectCaptureList(s: Board, i: nat, inDev: Device)
    requires Inv(s) && i < |s.list| && s.list[i].kind == Capture && OnSide(Tx, inDev)
    ensures WellTyped(s.list[i].(outDev := NONE, inDev := CaptureTarget(s, inDev)))
    ensures var r := SelectCapture(s, i, inDev);
      && CallDevice(r, Rx) == CallDevice(s, Rx)
      && (forall j | 0 <= j < |s.list| ::
            r.list[j].kind == s.list[j].kind && r.list[j].id == s.list[j].id && r.list[j].outDev == s.list[j].outDev)
  {
    CallDeviceIs(s, Tx);
    assert s.list[i] in s.list;
    SwitchKeeps(s, i, NONE, CaptureTarget(s, inDev));
    var r := SelectCapture(s, i, inDev);
    SameOutputs(s.list, r.list, i, s.list[i].(outDev := NONE, inDev := CaptureTarget(s, inDev)));
    SameCallOutput(s, r);
  }

  lemma SameOutputs(list: seq<Usecase>, r: seq<Usecase>, i: nat, last: Usecase)
    requires i < |list| && WellTyped(list[i]) && list[i].kind == Capture
    requires last == list[i].(inDev := last.inDev) && (r == list || Switched(r, list, i, last))
    ensures |r| == |list| && forall j | 0 <= j < |list| ::
      r[j].kind == list[j].kind && r[j].id == list[j].id && r[j].outDev == list[j].outDev
  {
  }

  lemma SameCallOutput(s: Board, r: Board)
    requires r.inCall == s.inCall && |r.list| == |s.list|
    requires forall j | 0 <= j < |s.list| :: r.list[j].id == s.list[j].id && r.list[j].outDev == s.list[j].outDev
    ensures CallDevice(r, Rx) == CallDevice(s, Rx)
  {
    SameFind(r.list, s.list, USECASE_VOICE_CALL);
  }

  lemma SelectCaptureKeeps(s: Board, i: nat, inDev: Device)
    requires Inv(s) && i < |s.list| && s.list[i].kind == Capture && OnSide(Tx, inDev)
    ensures var r := SelectCapture(s, i, inDev);
      && Inv(r) && KeepsBackends(s, r) && CallDevice(r, Rx) == CallDevice(s, Rx)
      && (forall j | 0 <= j < |s.list| ::
            r.list[j].kind == s.list[j].kind && r.list[j].id == s.list[j].id && r.list[j].outDev == s.list[j].outDev)
  {
    SelectCaptureList(s, i, inDev);
    SwitchAllKeeps(s, i, NONE, CaptureTarget(s, inDev));
  }

  lemma CascadeKeeps(s: Board, c: Choice)
    requires Inv(s) && Sane(c)
    ensures var r := Cascade(s, c);
      && Inv(r) && KeepsBackends(s, r) && CallDevice(r, Rx) == CallDevice(s, Rx)
      && (forall j | 0 <= j < |s.list| ::
            r.list[j].kind == s.list[j].kind && r.list[j].id == s.list[j].id && r.list[j].outDev == s.list[j].outDev)
  {
    var a := FirstOf(s.list, {Capture, VoiceCall});
    if a < |s.list| && s.list[a].kind == Capture {
      SelectCaptureKeeps(s, a, c.cascadeIn);
    }
  }

  lemma SelectKeeps(s: Board, id: int, c: Choice)
    requires Inv(s) && Sane(c)
    ensures Inv(Select(s, id, c)) && KeepsBackends(s, Select(s, id, c))
  {
    var i := Find(s.list, id);
    if i < |s.list| {
      assert s.list[i] in s.list;
      match s.list[i].kind {
        case VoiceCall => SwitchAllKeeps(s, i, c.outDev, c.inDev);
        case Capture => SelectCaptureKeeps(s, i, c.inDev);
        case Playback =>
          CallDeviceIs(s, Rx);
          if CallDevice(s, Rx) != NONE {
            SwitchAllKeeps(s, i, CallDevice(s, Rx), NONE);
          } else {
            CascadeKeeps(s, c);
            var t := Cascade(s, c);
            assert t.list[i] in t.list;
            SwitchAllKeeps(t, i, c.outDev, NONE);
          }
      }
    }
  }

  // ----- start and stop -----

  lemma SameFind(list: seq<Usecase>, other: seq<Usecase>, id: int)
    requires |list| == |other| && forall j | 0 <= j < |list| :: list[j].id == other[j].id
    ensures Find(list, id) == Find(other, id)
  {
  }

  // A new usecase starts out holding nothing.
  lemma LinkKeeps(s: Board, id: int, kind: Kind)
    requires Inv(s) && Find(s.list, id) == |s.list| && 0 <= id < AUDIO_USECASE_MAX
    requires kind == VoiceCall <==> id == USECASE_VOICE_CALL
    ensures Inv(s.(list := s.list + [Usecase(id, kind, NONE, NONE)]))
  {
  }

  lemma StartKeeps(s: Board, id: int, kind: Kind, c: Choice)
    requires Inv(s) && Allowed(s, StartUsecase(id, kind, c))
    ensures Inv(Start(s, id, kind, c)) && KeepsBackends(s, Start(s, id, kind, c))
  {
    var u := Usecase(id, kind, NONE, NONE);
    LinkKeeps(s, id, kind);
    var t := s.(list := s.list + [u], inCall := s.inCall || kind == VoiceCall);
    SelectKeeps(t, id, c);
    AppendBackend(s, u);
    assert forall side: Side :: Backend(s, side) ==> Backend(t, side);
  }

  lemma AppendBackend(s: Board, u: Usecase)
    requires Inv(s) && u.outDev == u.inDev == NONE && Find(s.list, u.id) == |s.list|
    requires u.kind == VoiceCall <==> u.id == USECASE_VOICE_CALL
    ensures KeepsBackends(s, s.(list := s.list + [u], inCall := s.inCall || u.kind == VoiceCall))
  {
  }

  lemma WithoutTyped(list: seq<Usecase>, i: nat)
    requires Typed(list) && i < |list|
    ensures Typed(Without(list, i))
  {
  }

  lemma WithoutBackend(s: Board, i: nat, inCall: bool)
    requires i < |s.list| && (inCall ==> s.inCall)
    ensures KeepsBackends(s, s.(list := Without(s.list, i), inCall := inCall))
  {
  }

  // A usecase that holds nothing any more can be unlinked.
  lemma UnlinkCounts(s: Board, i: nat, held: Usecase)
    requires Shaped(s) && i < |s.list| && CountedBut(s, i, held) && held.outDev == held.inDev == NONE
    ensures Counted(s.refCnt, Without(s.list, i))
  {
    forall d: Device | Real(d)
      ensures s.refCnt[d] == Holders(Without(s.list, i), d)
    {
      HoldersUpdate(s.list, i, held, d);
      HoldersRemove(s.list, i, d);
    }
  }

  lemma StopKeeps(s: Board, id: int)
    requires Inv(s)
    ensures Inv(Stop(s, id)) && KeepsBackends(s, Stop(s, id))
  {
    var i := Find(s.list, id);
    if i < |s.list| {
      var u := s.list[i];
      assert u in s.list;
      assert s.list[i := u] == s.list;
      var t := if id == USECASE_VOICE_CALL then s.(inCall := false) else s;
      WithoutTyped(s.list, i);
      WithoutBackend(s, i, t.inCall);
      var held := u;
      var f := t;
      if u.kind != Capture {
        DropKeeps(f, i, held, Rx);
        f, held := Disable(f, u.outDev), held.With(Rx, NONE);
      }
      if u.kind != Playback {
        DropKeeps(f, i, held, Tx);
        f, held := Disable(f, u.inDev), held.With(Tx, NONE);
      }
      UnlinkCounts(f, i, held);
    }
  }

  // ----- out_set_offload_parameters -----

  lemma LeaveComboKeeps(s: Board, id: int)
    requires Inv(s)
    ensures Inv(LeaveCombo(s, id))
    ensures Backend(s, Tx) ==> Backend(LeaveCombo(s, id), Tx)
  {
    LeaveComboInputs(s, id);
    LeaveComboCounts(s, id);
  }

  lemma LeaveComboCounts(s: Board, id: int)
    requires Inv(s)
    ensures Inv(LeaveCombo(s, id))
  {
    var i := Find(s.list, id);
    if i < |s.list| && s.list[i].outDev == SPEAKER_AND_HEADPHONES {
      var u := s.list[i];
      assert u in s.list;
      var t := s.(list := s.list[i := u.(outDev := HEADPHONES)]);
      TypedUpdate(s.list, i, u.(outDev := HEADPHONES));
      forall d: Device | Real(d)
        ensures Disable(t, SPEAKER).refCnt[d] == Holders(t.list, d)
      {
        HoldersUpdate(s.list, i, u.(outDev := HEADPHONES), d);
        HoldersAtLeast(s.list, i, SPEAKER);
      }
      DisableRxRoutes(t, SPEAKER);
    }
  }

  lemma LeaveComboInputs(s: Board, id: int)
    requires Shaped(s)
    ensures Backend(s, Tx) ==> Backend(LeaveCombo(s, id), Tx)
  {
    var r := LeaveCombo(s, id);
    assert forall j | 0 <= j < |r.list| ::
      r.list[j].inDev == s.list[j].inDev && r.list[j].kind == s.list[j].kind && s.list[j] in s.list;
  }

  predicate AnotherOnBackend(list: seq<Usecase>, i: nat) {
    exists j :: 0 <= j < |list| && j != i && OnBackend(list[j], Rx)
  }

  // The device select_devices picks for a playback usecase.
  function PlaybackTarget(s: Board, c: Choice): Device {
    if CallDevice(s, Rx) != NONE then CallDevice(s, Rx) else c.outDev
  }

  // A playback usecase on the combo device, as out_set_offload_parameters looks for.
  predicate OnCombo(s: Board, id: int) {
    var i := Find(s.list, id);
    i < |s.list| && s.list[i].kind == Playback && s.list[i].outDev == SPEAKER_AND_HEADPHONES
  }

  lemma LeaveComboIs(s: Board, id: int)
    requires Inv(s) && OnCombo(s, id)
    ensures var i, t := Find(s.list, id), LeaveCombo(s, id);
      && t.list == s.list[i := s.list[i].(outDev := HEADPHONES)]
      && Find(t.list, id) == i
      && CallDevice(t, Rx) == CallDevice(s, Rx)
  {
    var i := Find(s.list, id);
    var t := LeaveCombo(s, id);
    assert t.list == s.list[i := s.list[i].(outDev := HEADPHONES)];
    SameFind(t.list, s.list, id);
    SameFind(t.list, s.list, USECASE_VOICE_CALL);
    assert s.list[i] in s.list;
  }

  // The board on which out_set_offload_parameters finally switches devices.
  function BeforeSwitch(s: Board, id: int, c: Choice): Board
    requires Shaped(s)
  {
    var t := LeaveCombo(s, id);
    if CallDevice(t, Rx) != NONE then t else Cascade(t, c)
  }

  // out_set_offload_parameters, exactly: it splits the backend iff the lookup picks the headphones
  // it has already switched to while another playback usecase is still on the combo device.
  lemma OffloadParametersSplit(s: Board, id: int, c: Choice)
    requires Inv(s) && Agreed(s.list, Rx) && Sane(c) && OnCombo(s, id)
    ensures Agreed(Step(s, SetOffloadParameters(id, c)).list, Rx)
       <==> PlaybackTarget(s, c) != HEADPHONES || !AnotherOnBackend(s.list, Find(s.list, id))
  {
    var i, dev := Find(s.list, id), PlaybackTarget(s, c);
    var f := BeforeSwitch(s, id, c);
    LeaveComboKeeps(s, id);
    LeaveComboIs(s, id);
    CascadeKeeps(LeaveCombo(s, id), c);
    OffloadSwitches(s, f, i, dev, c);
    OffloadStepIs(s, id, c);
  }

  lemma OffloadStepIs(s: Board, id: int, c: Choice)
    requires Inv(s) && OnCombo(s, id)
    ensures var i, f := Find(s.list, id), BeforeSwitch(s, id, c);
      i < |f.list| && Step(s, SetOffloadParameters(id, c)) == Switch(f, i, PlaybackTarget(s, c), NONE)
  {
    LeaveComboIs(s, id);
  }

  lemma OffloadSwitches(s: Board, f: Board, i: nat, dev: Device, c: Choice)
    requires Inv(s) && Inv(f) && Agreed(s.list, Rx) && Sane(c) && dev == PlaybackTarget(s, c)
    requires i < |s.list| == |f.list| && s.list[i].kind == Playback && s.list[i].outDev == SPEAKER_AND_HEADPHONES
    requires f.list[i].kind == Playback && f.list[i].outDev == HEADPHONES && CallDevice(f, Rx) == CallDevice(s, Rx)
    requires forall j | 0 <= j < |s.list| && j != i ::
      f.list[j].kind == s.list[j].kind && f.list[j].outDev == s.list[j].outDev
    ensures Agreed(Switch(f, i, dev, NONE).list, Rx) <==> dev != HEADPHONES || !AnotherOnBackend(s.list, i)
  {
    CallDeviceIs(s, Rx);
    CallDeviceIs(f, Rx);
    assert f.list[i] in f.list;
    SwitchKeeps(f, i, dev, NONE);
    OffloadSplitLists(s.list, f.list, Switch(f, i, dev, NONE).list, i, dev);
  }

  lemma OffloadSplitLists(list: seq<Usecase>, f: seq<Usecase>, r: seq<Usecase>, i: nat, dev: Device)
    requires i < |list| == |f| && Agreed(list, Rx)
    requires list[i].kind == Playback && list[i].outDev == SPEAKER_AND_HEADPHONES
    requires f[i].kind == Playback && f[i].outDev == HEADPHONES && f[i].inDev == NONE
    requires forall j | 0 <= j < |list| && j != i :: f[j].kind == list[j].kind && f[j].outDev == list[j].outDev
    requires if dev == HEADPHONES then r == f else Switched(r, f, i, f[i].(outDev := dev))
    ensures Agreed(r, Rx) <==> dev != HEADPHONES || !AnotherOnBackend(list, i)
  {
  }

  // ----- Theorems over runs -----

  // Input devices agree through every call; output devices through every one but the offload parameters.
  lemma StepKeeps(s: Board, c: Call)
    requires Inv(s) && Allowed(s, c)
    ensures Inv(Step(s, c))
    ensures Backend(s, Tx) ==> Backend(Step(s, c), Tx)
    ensures Backend(s, Rx) && !c.SetOffloadParameters? ==> Backend(Step(s, c), Rx)
  {
    match c
    case StartUsecase(id, kind, choice) => StartKeeps(s, id, kind, choice);
    case StopUsecase(id) => StopKeeps(s, id);
    case Reselect(id, choice) => SelectKeeps(s, id, choice);
    case RestartCall(choice) =>
      StopKeeps(s, USECASE_VOICE_CALL);
      StopFrees(s, USECASE_VOICE_CALL);
      StartKeeps(Stop(s, USECASE_VOICE_CALL), USECASE_VOICE_CALL, VoiceCall, choice);
    case SetOffloadParameters(id, choice) =>
      LeaveComboKeeps(s, id);
      SelectKeeps(LeaveCombo(s, id), id, choice);
  }

  // Stopping a usecase makes its id free to start again.
  lemma StopFrees(s: Board, id: int)
    requires Inv(s)
    ensures var r := Stop(s, id); Find(r.list, id) == |r.list|
  {
    var i := Find(s.list, id);
    if i < |s.list| {
      var w := Without(s.list, i);
      assert forall k | 0 <= k < |w| :: w[k] == s.list[if k < i then k else k + 1];
    }
  }

  lemma {:induction false} RunKeeps(s: Board, calls: seq<Call>)
    requires Inv(s) && RunAllowed(s, calls)
    ensures Inv(Run(s, calls))
    ensures Backend(s, Tx) ==> Backend(Run(s, calls), Tx)
    ensures Backend(s, Rx) && (forall c :: c in calls ==> !c.SetOffloadParameters?) ==> Backend(Run(s, calls), Rx)
    decreases |calls|
  {
    if calls != [] {
      StepKeeps(s, calls[0]);
      RunKeeps(Step(s, calls[0]), calls[1..]);
    }
  }

  // Reference conservation and route application, in every state a run of HAL calls reaches.
  lemma CountsAndRoutes(calls: seq<Call>, d: Device)
    requires RunAllowed(Initial(), calls) && Real(d)
    ensures var r := Run(Initial(), calls);
      && r.refCnt[d] == Holders(r.list, d)
      && (d in r.applied <==> exists u :: u in r.list && (d in Expand(u.outDev) || d in Expand(u.inDev)))
  {
    RunKeeps(Initial(), calls);
    HeldIff(Run(Initial(), calls).list, d);
  }

  lemma {:induction false} HeldIff(list: seq<Usecase>, d: Device)
    ensures Holders(list, d) > 0 <==> exists u :: u in list && (d in Expand(u.outDev) || d in Expand(u.inDev))
  {
    if list != [] {
      var n := |list| - 1;
      HeldIff(list[..n], d);
      assert list == list[..n] + [list[n]];
    }
  }

  // Playback usecases agree on one backend in every state reached without out_set_offload_parameters,
  // and during a call they are on the call's output device.
  lemma BackendAgreement(calls: seq<Call>)
    requires RunAllowed(Initial(), calls)
    requires forall c :: c in calls ==> !c.SetOffloadParameters?
    ensures var r := Run(Initial(), calls);
      Agreed(r.list, Rx) && (CallDevice(r, Rx) != NONE ==> AllOn(r.list, Rx, CallDevice(r, Rx)))
  {
    RunKeeps(Initial(), calls);
    CallDeviceIs(Run(Initial(), calls), Rx);
  }

  // Capture usecases agree on one input device in every state any run reaches, during a call on the call's.
  lemma CaptureAgreement(calls: seq<Call>)
    requires RunAllowed(Initial(), calls)
    ensures var r := Run(Initial(), calls);
      Agreed(r.list, Tx) && (CallDevice(r, Tx) != NONE ==> AllOn(r.list, Tx, CallDevice(r, Tx)))
  {
    RunKeeps(Initial(), calls);
    CallDeviceIs(Run(Initial(), calls), Tx);
  }

  // A playback usecase that starts takes the call's device, or the one looked up, and all other playback follows;
  // nothing else moves unless the active capture is selected again first.
  lemma StartedList(s: Board, id: int, c: Choice)
    requires Inv(s) && Allowed(s, StartUsecase(id, Playback, c))
    ensures var r := Step(s, StartUsecase(id, Playback, c));
      var last := Usecase(id, Playback, PlaybackTarget(s, c), NONE);
      && r.inCall == s.inCall && |r.list| == |s.list| + 1 && r.list[|s.list|] == last
      && (forall j | 0 <= j < |s.list| :: r.list[j].outDev == Followed(s.list[j], last).outDev)
      && (!c.cascade || CallDevice(s, Rx) != NONE ==>
            forall j | 0 <= j < |s.list| :: r.list[j] == Followed(s.list[j], last))
  {
    var u := Usecase(id, Playback, NONE, NONE);
    var t := s.(list := s.list + [u]);
    LinkKeeps(s, id, Playback);
    assert t.list[|s.list|] == u && forall j | 0 <= j < |s.list| :: t.list[j] == s.list[j];
    assert Find(t.list, id) == |s.list|;
    assert t.inCall == (s.inCall || false);
    LinkedCallDevice(s, u);
    CallDeviceIs(t, Rx);
    StartedSwitch(t, |s.list|, c);
  }

  lemma LinkedCallDevice(s: Board, u: Usecase)
    requires u.id != USECASE_VOICE_CALL
    ensures CallDevice(s.(list := s.list + [u]), Rx) == CallDevice(s, Rx)
  {
    var list := s.list + [u];
    var v := Find(s.list, USECASE_VOICE_CALL);
    assert forall j | 0 <= j < |s.list| :: list[j] == s.list[j];
    assert Find(list, USECASE_VOICE_CALL) == if v < |s.list| then v else |list|;
  }

  lemma StartedSwitch(t: Board, i: nat, c: Choice)
    requires Inv(t) && Sane(c) && i < |t.list| && t.list[i].kind == Playback && t.list[i].outDev == NONE
    ensures var r := SelectAt(t, i, c); var last := t.list[i].(outDev := PlaybackTarget(t, c));
      && r.inCall == t.inCall && |r.list| == |t.list| && r.list[i] == last
      && (forall j | 0 <= j < |t.list| && j != i :: r.list[j].outDev == Followed(t.list[j], last).outDev)
      && (!c.cascade || CallDevice(t, Rx) != NONE ==>
            forall j | 0 <= j < |t.list| && j != i :: r.list[j] == Followed(t.list[j], last))
  {
    assert t.list[i] in t.list;
    CallDeviceIs(t, Rx);
    var dev := PlaybackTarget(t, c);
    if CallDevice(t, Rx) != NONE {
      SwitchKeeps(t, i, dev, NONE);
    } else {
      CascadeKeeps(t, c);
      var f := Cascade(t, c);
      assert f.list[i] in f.list;
      SwitchKeeps(f, i, dev, NONE);
    }
  }

  lemma RunSplits(s: Board, c: Call, rest: seq<Call>)
    requires Shaped(s)
    ensures RunAllowed(s, [c] + rest) <==> Allowed(s, c) && RunAllowed(Step(s, c), rest)
    ensures Run(s, [c] + rest) == Run(Step(s, c), rest)
  {
    assert ([c] + rest)[1..] == rest;
  }

  const COMBO := Choice(SPEAKER_AND_HEADPHONES, NONE, false, NONE)

  function ComboBoard(): Board {
    Step(Step(Initial(), StartUsecase(0, Playback, COMBO)), StartUsecase(2, Playback, COMBO))
  }

  lemma ComboBoardIs()
    ensures Inv(ComboBoard())
    ensures RunAllowed(Initial(), [StartUsecase(0, Playback, COMBO), StartUsecase(2, Playback, COMBO)])
    ensures var s := ComboBoard(); var u := Usecase(0, Playback, SPEAKER_AND_HEADPHONES, NONE);
      !s.inCall && s.list == [u, u.(id := 2)]
  {
    var first, second := StartUsecase(0, Playback, COMBO), StartUsecase(2, Playback, COMBO);
    RunKeeps(Initial(), []);
    StepKeeps(Initial(), first);
    StartedList(Initial(), 0, COMBO);
    var s := Step(Initial(), first);
    StepKeeps(s, second);
    StartedList(s, 2, COMBO);
    RunSplits(s, second, []);
    RunSplits(Initial(), first, [second]);
  }

  // A run that splits the backend: two playback usecases on the combo device, then the offload parameters of one of
  // them, with a lookup that picks headphones.
  lemma SplitRun()
    ensures var calls := [StartUsecase(0, Playback, COMBO), StartUsecase(2, Playback, COMBO),
                          SetOffloadParameters(2, Choice(HEADPHONES, NONE, false, NONE))];
      RunAllowed(Initial(), calls) && !Agreed(Run(Initial(), calls).list, Rx)
  {
    var first, second := StartUsecase(0, Playback, COMBO), StartUsecase(2, Playback, COMBO);
    var c := Choice(HEADPHONES, NONE, false, NONE);
    var third := SetOffloadParameters(2, c);
    ComboBoardIs();
    assert OnBackend(ComboBoard().list[0], Rx);
    OffloadParametersSplit(ComboBoard(), 2, c);
    RunSplits(ComboBoard(), third, []);
    RunSplits(Step(Initial(), first), second, [third]);
    RunSplits(Initial(), first, [second, third]);
    RunSplits(Initial(), first, [second]);
    RunSplits(Step(Initial(), first), second, []);
  }

  // With the usecase list empty no count is left over and no real route stays applied.
  lemma QuietWhenEmpty(calls: seq<Call>, d: Device)
    requires RunAllowed(Initial(), calls) && Run(Initial(), calls).list == []
    ensures Run(Initial(), calls).refCnt[d] == 0
    ensures Real(d) ==> d !in Run(Initial(), calls).applied
  {
    RunKeeps(Initial(), calls);
  }
}
