/** The routing half of struct audio_device, updated in place as audio/audio_hw.c does it.
    Every method is proved to compute the step function of the same name in module Routing,
    so the theorems over runs apply to it. */
module AudioDevices {
  import opened Routing
  import Runs = RoutingRuns

  const OK := 0
  const EINVAL := -22

  class AudioDevice {
    const sndDevRefCnt: array<int>
    var usecaseList: seq<Usecase>
    var inCall: bool
    var applied: set<Device>

    ghost predicate Valid()
      reads this, sndDevRefCnt
    {
      sndDevRefCnt.Length == SND_DEVICE_MAX && Typed(usecaseList)
    }

    ghost function View(): Board
      reads this, sndDevRefCnt
    {
      Board(sndDevRefCnt[..], usecaseList, inCall, applied)
    }

    constructor ()
      ensures Valid() && fresh(sndDevRefCnt)
      ensures View() == Board(seq(SND_DEVICE_MAX, _ => 0), [], false, {})
    {
      sndDevRefCnt := new int[SND_DEVICE_MAX](_ => 0);
      usecaseList, inCall, applied := [], false, {};
      new;
      assert sndDevRefCnt[..] == seq(SND_DEVICE_MAX, _ => 0);
    }

    method GetUsecaseFromId(id: int) returns (k: nat)
      ensures k == Find(usecaseList, id)
    {
      k := 0;
      while k < |usecaseList| && usecaseList[k].id != id
        invariant k <= |usecaseList|
        invariant forall j :: 0 <= j < k ==> usecaseList[j].id != id
      {
        k := k + 1;
      }
    }

    method GetUsecaseFromType(kinds: set<Kind>) returns (k: nat)
      ensures k == FirstOf(usecaseList, kinds)
    {
      k := 0;
      while k < |usecaseList| && usecaseList[k].kind !in kinds
        invariant k <= |usecaseList|
        invariant forall j :: 0 <= j < k ==> usecaseList[j].kind !in kinds
      {
        k := k + 1;
      }
    }

    method EnableSndDevice(d: Device)
      requires sndDevRefCnt.Length == SND_DEVICE_MAX
      modifies this`applied, sndDevRefCnt
      ensures View() == Enable(old(View()), d)
      decreases if d == SPEAKER_AND_HEADPHONES then 1 else 0
    {
      if d == SPEAKER_AND_HEADPHONES {
        EnableSndDevice(SPEAKER);
        EnableSndDevice(HEADPHONES);
        return;
      }
      sndDevRefCnt[d] := sndDevRefCnt[d] + 1;
      if sndDevRefCnt[d] > 1 {
        return;
      }
      applied := applied + {d};
    }

    method DisableSndDevice(d: Device) returns (status: int)
      requires sndDevRefCnt.Length == SND_DEVICE_MAX
      modifies this`applied, sndDevRefCnt
      ensures View() == Disable(old(View()), d)
      ensures status == EINVAL <==> d != SPEAKER_AND_HEADPHONES && old(sndDevRefCnt[d]) <= 0
      ensures status == OK || View() == old(View())
      decreases if d == SPEAKER_AND_HEADPHONES then 1 else 0
    {
      var out := GetUsecaseFromType({Playback});
      if d == SPEAKER_AND_HEADPHONES {
        var _ := DisableSndDevice(SPEAKER);
        var _ := DisableSndDevice(HEADPHONES);
        return OK;
      }
      if sndDevRefCnt[d] <= 0 {
        return EINVAL;
      }
      sndDevRefCnt[d] := sndDevRefCnt[d] - 1;
      if sndDevRefCnt[d] == 0 {
        applied := applied - {d};
        if d > IN_BEGIN && out < |usecaseList| {
          applied := applied + {usecaseList[out].outDev};
        }
      }
      return OK;
    }

    // Mark, by usecase id, every usecase that has to leave its device.
    method MarkUsecases(i: nat, side: Side, dev: Device) returns (switchDevice: array<bool>, needSwitch: bool)
      requires Valid()
      ensures fresh(switchDevice) && Marks(switchDevice, usecaseList, i, side, dev, |usecaseList|)
      ensures needSwitch <==> exists j :: 0 <= j < |usecaseList| && MustMove(usecaseList, i, side, dev, j)
    {
      switchDevice := new bool[AUDIO_USECASE_MAX](_ => false);
      needSwitch := false;
      forall j | 0 <= j < |usecaseList|
        ensures 0 <= usecaseList[j].id < AUDIO_USECASE_MAX
      {
        assert WellTyped(usecaseList[j]);
      }
      var k := 0;
      while k < |usecaseList|
        invariant 0 <= k <= |usecaseList|
        invariant Marks(switchDevice, usecaseList, i, side, dev, k)
        invariant needSwitch <==> exists j :: 0 <= j < k && MustMove(usecaseList, i, side, dev, j)
        modifies switchDevice
      {
        var u := usecaseList[k];
        if u.kind == MovedKind(side) && k != i && u.At(side) != dev {
          switchDevice[u.id] := true;
          needSwitch := true;
        }
        k := k + 1;
      }
    }

    method MoveUsecase(k: nat, side: Side, dev: Device)
      requires sndDevRefCnt.Length == SND_DEVICE_MAX && k < |usecaseList|
      modifies this`usecaseList, this`applied, sndDevRefCnt
      ensures View() == Move(old(View()), side, dev, k)
    {
      var _ := DisableSndDevice(usecaseList[k].At(side));
      EnableSndDevice(dev);
      usecaseList := usecaseList[k := usecaseList[k].With(side, dev)];
    }

    // First mark what has to move, then move it. i is the usecase being selected.
    method CheckAndRouteUsecases(i: nat, side: Side, dev: Device)
      requires Valid() && i < |usecaseList|
      modifies this`usecaseList, this`applied, sndDevRefCnt
      ensures View() == RouteFrom(old(View()), i, side, dev, 0)
    {
      var switchDevice, needSwitch := MarkUsecases(i, side, dev);
      if !needSwitch {
        NothingToRoute(View(), i, side, dev, 0);
        return;
      }
      ghost var s := View();
      var k := 0;
      while k < |usecaseList|
        invariant 0 <= k <= |usecaseList| == |s.list|
        invariant forall j | k <= j < |s.list| :: usecaseList[j] == s.list[j]
        invariant Marks(switchDevice, s.list, i, side, dev, |s.list|)
        invariant RouteFrom(View(), i, side, dev, k) == RouteFrom(s, i, side, dev, 0)
      {
        assert MustMove(usecaseList, i, side, dev, k) == MustMove(s.list, i, side, dev, k);
        if switchDevice[usecaseList[k].id] {
          MoveUsecase(k, side, dev);
        }
        k := k + 1;
      }
    }

    // Disable current sound devices.
    method DropDevices(i: nat)
      requires Valid() && i < |usecaseList|
      modifies this`applied, sndDevRefCnt
      ensures View() == DropAt(DropAt(old(View()), i, Rx), i, Tx)
    {
      if usecaseList[i].outDev != NONE {
        var _ := DisableSndDevice(usecaseList[i].outDev);
      }
      if usecaseList[i].inDev != NONE {
        var _ := DisableSndDevice(usecaseList[i].inDev);
      }
    }

    // Enable a new sound device, moving everything that shares its backend first.
    method TakeDevice(i: nat, side: Side, dev: Device)
      requires Valid() && i < |usecaseList| && OnSide(side, dev)
      modifies this`usecaseList, this`applied, sndDevRefCnt
      ensures View() == TakeAt(old(View()), i, side, dev)
    {
      if dev != NONE {
        CheckAndRouteUsecases(i, side, dev);
        EnableSndDevice(dev);
      }
    }

    // select_devices from the comparison with the current devices on.
    method SwitchDevices(i: nat, outDev: Device, inDev: Device)
      requires Valid() && Inv(View()) && i < |usecaseList|
      requires WellTyped(usecaseList[i].(outDev := outDev, inDev := inDev))
      modifies this`usecaseList, this`applied, sndDevRefCnt
      ensures Valid() && Inv(View())
      ensures View() == Switch(old(View()), i, outDev, inDev)
    {
      ghost var s := View();
      SwitchKeeps(s, i, outDev, inDev);
      var u := usecaseList[i];
      if outDev == u.outDev && inDev == u.inDev {
        return;
      }
      DropDevices(i);
      RxHalfTyped(s, i, u.(outDev := outDev, inDev := inDev));
      TakeDevice(i, Rx, outDev);
      TakeDevice(i, Tx, inDev);
      usecaseList := usecaseList[i := usecaseList[i].(inDev := inDev, outDev := outDev)];
    }

    method SelectDevices(id: int, c: Choice) returns (status: int)
      requires Valid() && Inv(View()) && Sane(c)
      modifies this`usecaseList, this`applied, sndDevRefCnt
      ensures Valid() && Inv(View())
      ensures View() == Select(old(View()), id, c)
      ensures status == EINVAL <==> forall u :: u in old(usecaseList) ==> u.id != id
    {
      var active := GetUsecaseFromType({Capture, VoiceCall});
      var i := GetUsecaseFromId(id);
      if i == |usecaseList| {
        return EINVAL;
      }
      var u := usecaseList[i];
      assert u in usecaseList;
      var outDev, inDev := NONE, NONE;
      if u.kind != VoiceCall && inCall {
        var v := GetUsecaseFromId(USECASE_VOICE_CALL);
        if v < |usecaseList| {
          assert WellTyped(usecaseList[v]);
          inDev, outDev := usecaseList[v].inDev, usecaseList[v].outDev;
        }
      }
      match u.kind {
        case VoiceCall =>
          outDev, inDev := c.outDev, c.inDev;
        case Playback =>
          inDev := NONE;
          if outDev == NONE {
            outDev := c.outDev;
            if c.cascade && active < |usecaseList| && usecaseList[active].kind == Capture {
              SelectActiveCapture(active, c.cascadeIn);
            }
          }
        case Capture =>
          outDev := NONE;
          if inDev == NONE {
            inDev := c.inDev;
          }
      }
      assert usecaseList[i] in usecaseList;
      SwitchDevices(i, outDev, inDev);
      return OK;
    }

    // The nested select_devices call for the active capture usecase.
    method SelectActiveCapture(i: nat, cascadeIn: Device)
      requires Valid() && Inv(View()) && i < |usecaseList| && usecaseList[i].kind == Capture && OnSide(Tx, cascadeIn)
      modifies this`usecaseList, this`applied, sndDevRefCnt
      ensures Valid() && Inv(View())
      ensures View() == SelectCapture(old(View()), i, cascadeIn)
      ensures forall j | 0 <= j < |usecaseList| ::
        usecaseList[j].kind == old(usecaseList)[j].kind && usecaseList[j].outDev == old(usecaseList)[j].outDev
    {
      assert usecaseList[i] in usecaseList;
      var inDev := NONE;
      if inCall {
        var v := GetUsecaseFromId(USECASE_VOICE_CALL);
        if v < |usecaseList| {
          assert WellTyped(usecaseList[v]);
          inDev := usecaseList[v].inDev;
        }
      }
      if inDev == NONE {
        inDev := cascadeIn;
      }
      SwitchKeeps(View(), i, NONE, inDev);
      SwitchDevices(i, NONE, inDev);
    }

    // enable_output_path_l, start_input_stream and start_voice_call: link a usecase, pick its devices.
    method StartUsecase(id: int, kind: Kind, c: Choice)
      requires Valid() && Inv(View()) && Runs.Allowed(View(), Runs.StartUsecase(id, kind, c))
      modifies this, sndDevRefCnt
      ensures Valid() && Inv(View())
      ensures View() == Start(old(View()), id, kind, c)
    {
      if kind == VoiceCall {
        inCall := true;
      }
      Runs.LinkKeeps(View(), id, kind);
      usecaseList := usecaseList + [Usecase(id, kind, NONE, NONE)];
      var _ := SelectDevices(id, c);
    }

    // What the three stop functions release: the output device, the input device, or both.
    method ReleaseDevices(u: Usecase)
      requires sndDevRefCnt.Length == SND_DEVICE_MAX
      modifies this`applied, sndDevRefCnt
      ensures View() == match u.kind
        case Playback => Disable(old(View()), u.outDev)
        case Capture => Disable(old(View()), u.inDev)
        case VoiceCall => Disable(Disable(old(View()), u.outDev), u.inDev)
    {
      if u.kind != Capture {
        var _ := DisableSndDevice(u.outDev);
      }
      if u.kind != Playback {
        var _ := DisableSndDevice(u.inDev);
      }
    }

    // disable_output_path_l, stop_input_stream and stop_voice_call.
    method StopUsecase(id: int) returns (status: int)
      requires Valid() && Inv(View())
      modifies this, sndDevRefCnt
      ensures Valid() && Inv(View())
      ensures View() == Stop(old(View()), id)
      ensures status == EINVAL <==> forall u :: u in old(usecaseList) ==> u.id != id
    {
      assert Inv(Stop(View(), id)) by {
        Runs.StopKeeps(View(), id);
      }
      if id == USECASE_VOICE_CALL {
        inCall := false;
      }
      var i := GetUsecaseFromId(id);
      if i == |usecaseList| {
        return EINVAL;
      }
      var u := usecaseList[i];
      assert u in usecaseList;
      ReleaseDevices(u);
      usecaseList := usecaseList[..i] + usecaseList[i + 1..];
      return OK;
    }

    // The combo device is left for the headphones alone before the offload usecase is re-selected.
    method OutSetOffloadParameters(id: int) returns (status: int)
      requires Valid() && Inv(View())
      modifies this, sndDevRefCnt
      ensures Valid() && Inv(View())
      ensures View() == LeaveCombo(old(View()), id)
      ensures status == -1 <==> forall u :: u in old(usecaseList) ==> u.id != id
    {
      Runs.LeaveComboKeeps(View(), id);
      var i := GetUsecaseFromId(id);
      status := if i == |usecaseList| then -1 else OK;
      if i < |usecaseList| && usecaseList[i].outDev == SPEAKER_AND_HEADPHONES {
        usecaseList := usecaseList[i := usecaseList[i].(outDev := HEADPHONES)];
        var _ := DisableSndDevice(SPEAKER);
      }
    }
  }

  // switch_device holds exactly the verdicts for the first n usecases.
  ghost predicate Marks(switchDevice: array<bool>, list: seq<Usecase>, i: nat, side: Side, dev: Device, n: nat)
    reads switchDevice
  {
    && switchDevice.Length == AUDIO_USECASE_MAX
    && forall j | 0 <= j < |list| :: 0 <= list[j].id < AUDIO_USECASE_MAX
         && (switchDevice[list[j].id] <==> j < n && MustMove(list, i, side, dev, j))
  }

  lemma NothingToRoute(s: Board, i: nat, side: Side, dev: Device, k: nat)
    requires Shaped(s) && k <= |s.list|
    requires forall j | 0 <= j < |s.list| :: !MustMove(s.list, i, side, dev, j)
    ensures RouteFrom(s, i, side, dev, k) == s
    decreases |s.list| - k
  {
  }

  // The list stays well typed between the output and the input half of a switch.
  lemma RxHalfTyped(s: Board, i: nat, u: Usecase)
    requires Inv(s) && i < |s.list| && WellTyped(u) && u == s.list[i].(outDev := u.outDev, inDev := u.inDev)
    ensures Typed(TakeAt(DropAt(DropAt(s, i, Rx), i, Tx), i, Rx, u.outDev).list)
  {
    DropBothKeeps(s, i);
    TakeKeeps(DropAt(DropAt(s, i, Rx), i, Tx), i, u.(outDev := NONE, inDev := NONE), Rx, u.outDev);
  }
}
