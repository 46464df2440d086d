/** Which devices a usecase ends up on: the call's while a call has one on that side, otherwise those looked up. Every
    board a run of HAL calls reaches keeps Inv, so this holds of each call in each run. */
module RoutingDevices {
  import opened Routing
  import opened RoutingRuns

  // What `got` has to be: the device of the active call on that side if it has one, else the one looked up.
  ghost predicate Given(s: Board, side: Side, lookedUp: Device, got: Device) {
    && (forall v :: v in s.list && v.kind == VoiceCall && s.inCall && v.At(side) != NONE ==> got == v.At(side))
    && ((forall v :: v in s.list && v.kind == VoiceCall && s.inCall ==> v.At(side) == NONE) ==> got == lookedUp)
  }

  // The devices of usecase u after a selection: a call takes both as looked up, playback an output only, capture an
  // input only.
  ghost predicate Selected(s: Board, c: Choice, u: Usecase) {
    match u.kind
    case VoiceCall => u.outDev == c.outDev && u.inDev == c.inDev
    case Playback => Given(s, Rx, c.outDev, u.outDev) && u.inDev == NONE
    case Capture => Given(s, Tx, c.inDev, u.inDev) && u.outDev == NONE
  }

  lemma TargetIsGiven(s: Board, side: Side, lookedUp: Device)
    requires Typed(s.list)
    ensures Given(s, side, lookedUp, if CallDevice(s, side) != NONE then CallDevice(s, side) else lookedUp)
  {
    CallDeviceIs(s, side);
    var k := Find(s.list, USECASE_VOICE_CALL);
    if s.inCall && k < |s.list| {
      assert s.list[k] in s.list && WellTyped(s.list[k]);
    }
  }

  // select_devices: the usecase selected is on the devices it should have.
  lemma SelectedDevices(s: Board, i: nat, c: Choice)
    requires Inv(s) && Sane(c) && i < |s.list|
    ensures var r := Select(s, s.list[i].id, c);
      && r.inCall == s.inCall && |r.list| == |s.list|
      && r.list[i].id == s.list[i].id && r.list[i].kind == s.list[i].kind && Selected(s, c, r.list[i])
  {
    var u := s.list[i];
    assert u in s.list;
    assert Find(s.list, u.id) == i;
    TargetIsGiven(s, Rx, c.outDev);
    TargetIsGiven(s, Tx, c.inDev);
    match u.kind {
      case VoiceCall => SwitchKeeps(s, i, c.outDev, c.inDev);
      case Capture =>
        SelectCaptureList(s, i, c.inDev);
        SwitchKeeps(s, i, NONE, CaptureTarget(s, c.inDev));
      case Playback => PlaybackDevices(s, i, c);
    }
  }

  lemma PlaybackDevices(s: Board, i: nat, c: Choice)
    requires Inv(s) && Sane(c) && i < |s.list| && s.list[i].kind == Playback
    ensures var r := SelectAt(s, i, c);
      && r.inCall == s.inCall && |r.list| == |s.list|
      && r.list[i] == s.list[i].(outDev := PlaybackTarget(s, c), inDev := NONE)
  {
    assert s.list[i] in s.list;
    CallDeviceIs(s, Rx);
    if CallDevice(s, Rx) != NONE {
      SwitchKeeps(s, i, CallDevice(s, Rx), NONE);
    } else {
      CascadeKeeps(s, c);
      var f := Cascade(s, c);
      assert f.list[i] in f.list;
      SwitchKeeps(f, i, c.outDev, NONE);
    }
  }

  // Selecting a call or a capture usecase: with its devices unchanged nothing happens; otherwise playback goes to a new
  // output device, capture to a new input device, and nothing else moves.
  lemma OthersFollow(s: Board, i: nat, c: Choice)
    requires Inv(s) && Sane(c) && i < |s.list| && s.list[i].kind != Playback
    ensures var r := Select(s, s.list[i].id, c);
      && |r.list| == |s.list|
      && (r.list[i] == s.list[i] ==> r == s)
      && (r.list[i] != s.list[i] ==>
           forall j | 0 <= j < |s.list| && j != i :: r.list[j] == Followed(s.list[j], r.list[i]))
  {
    assert s.list[i] in s.list;
    assert Find(s.list, s.list[i].id) == i;
    if s.list[i].kind == VoiceCall {
      SwitchKeeps(s, i, c.outDev, c.inDev);
    } else {
      SelectCaptureList(s, i, c.inDev);
      SwitchKeeps(s, i, NONE, CaptureTarget(s, c.inDev));
    }
  }

  // The active capture: the first usecase that is not playback, if that is one.
  predicate ActiveCapture(s: Board, a: nat) {
    a < |s.list| && s.list[a].kind == Capture && forall j | 0 <= j < a :: s.list[j].kind == Playback
  }

  // Selecting a playback usecase outside a call with voice communication active selects the active capture as well,
  // for the device looked up for that; without, no input device changes.
  lemma PlaybackSelectsCapture(s: Board, i: nat, c: Choice)
    requires Inv(s) && Sane(c) && i < |s.list| && s.list[i].kind == Playback
    requires forall v :: v in s.list && v.kind == VoiceCall && s.inCall ==> v.outDev == NONE
    ensures var r := Select(s, s.list[i].id, c);
      && |r.list| == |s.list|
      && (c.cascade ==> forall a: nat :: ActiveCapture(s, a) ==> Given(s, Tx, c.cascadeIn, r.list[a].inDev))
      && (!c.cascade ==> forall j | 0 <= j < |s.list| :: r.list[j].inDev == s.list[j].inDev)
  {
    assert s.list[i] in s.list && WellTyped(s.list[i]);
    assert Find(s.list, s.list[i].id) == i;
    CallDeviceIs(s, Rx);
    TargetIsGiven(s, Tx, c.cascadeIn);
    CascadeKeeps(s, c);
    PlaybackKeepsInputs(Cascade(s, c), i, c.outDev);
    forall a: nat | c.cascade && ActiveCapture(s, a)
      ensures Cascade(s, c).list[a].inDev == CaptureTarget(s, c.cascadeIn)
    {
      CascadeDevices(s, a, c);
    }
  }

  lemma PlaybackKeepsInputs(f: Board, i: nat, outDev: Device)
    requires Inv(f) && i < |f.list| && f.list[i].kind == Playback && OnSide(Rx, outDev)
    ensures var r := Switch(f, i, outDev, NONE);
      |r.list| == |f.list| && forall j | 0 <= j < |f.list| :: r.list[j].inDev == f.list[j].inDev
  {
    assert f.list[i] in f.list;
    SwitchKeeps(f, i, outDev, NONE);
  }

  lemma CascadeDevices(s: Board, a: nat, c: Choice)
    requires Inv(s) && Sane(c) && c.cascade && ActiveCapture(s, a)
    ensures Cascade(s, c).list[a].inDev == CaptureTarget(s, c.cascadeIn)
  {
    assert FirstOf(s.list, {Capture, VoiceCall}) == a;
    SelectCaptureList(s, a, c.cascadeIn);
    SwitchKeeps(s, a, NONE, CaptureTarget(s, c.cascadeIn));
  }

  // Starting a usecase links it last, on the devices it should have, and starting a call sets in_call.
  lemma StartedDevices(s: Board, id: int, kind: Kind, c: Choice)
    requires Inv(s) && Allowed(s, StartUsecase(id, kind, c))
    ensures var r := Step(s, StartUsecase(id, kind, c));
      && |r.list| == |s.list| + 1 && (r.inCall <==> s.inCall || kind == VoiceCall)
      && r.list[|s.list|].id == id && r.list[|s.list|].kind == kind && Selected(s, c, r.list[|s.list|])
  {
    var u := Usecase(id, kind, NONE, NONE);
    var t := s.(list := s.list + [u], inCall := s.inCall || kind == VoiceCall);
    LinkKeeps(s, id, kind);
    SelectedDevices(t, |s.list|, c);
    assert t.list[|s.list|] == u;
    var got := Select(t, id, c).list[|s.list|];
    assert forall v :: v in s.list ==> v in t.list;
    assert forall v :: v in t.list ==> v in s.list || v == u;
    assert Selected(t, c, got);
  }

  // Stopping takes out the usecase of that id and no other, in order, and stopping a call clears in_call.
  lemma StoppedList(s: Board, id: int)
    requires Inv(s)
    ensures var r := Step(s, StopUsecase(id));
      && (r.inCall <==> s.inCall && id != USECASE_VOICE_CALL)
      && ((forall u :: u in s.list ==> u.id != id) ==> r.list == s.list)
      && (forall n: nat | n < |s.list| && s.list[n].id == id ::
            && |r.list| == |s.list| - 1
            && forall j | 0 <= j < |r.list| :: r.list[j] == s.list[if j < n then j else j + 1])
  {
    var n := Find(s.list, id);
    if n < |s.list| {
      assert s.list[n] in s.list;
      WithoutIs(s.list, n);
    }
  }

  lemma WithoutIs(list: seq<Usecase>, n: nat)
    requires n < |list|
    ensures |Without(list, n)| == |list| - 1
    ensures forall j | 0 <= j < |list| - 1 :: Without(list, n)[j] == list[if j < n then j else j + 1]
  {
  }

  // Restarting the call leaves it last, active, on the devices looked up.
  lemma RestartedCall(s: Board, c: Choice)
    requires Inv(s) && Sane(c)
    ensures var r := Step(s, RestartCall(c));
      r.inCall && r.list != [] && r.list[|r.list| - 1] == Usecase(USECASE_VOICE_CALL, VoiceCall, c.outDev, c.inDev)
  {
    StopKeeps(s, USECASE_VOICE_CALL);
    StopFrees(s, USECASE_VOICE_CALL);
    StartedDevices(Stop(s, USECASE_VOICE_CALL), USECASE_VOICE_CALL, VoiceCall, c);
  }
}
