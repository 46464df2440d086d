/** The echo-reference hand-off of audio/audio_hw.c: the capture side creates and gives up the
    reference, playback streams pick it up and must be the ones to release it once they hold it.
    Ownership passes through two generation counters. Each region under the device mutex is one
    step; an output's unlocked look at the generation and its writes are steps of their own.

    Outputs are the PCM outputs; number 0 is the primary one. One capture stream. */
module EchoReference {

  type Ref = nat

  datatype Option = Null | Some(ref: Ref)

  // Where a stream's out_write is: not running, saw another generation, or writing.
  datatype Pc = Idle | Stale | Writing

  datatype Out = Out(standby: bool, echo: Option, gen: int, pc: Pc)

  // lowLatency: the primary output runs USECASE_AUDIO_PLAYBACK. created counts the references made
  // so far, released lists the release calls in order, touched the references outputs wrote to while released.
  datatype State = State(lowLatency: bool, outs: seq<Out>, inEcho: Option, echo: Option, gen: int,
                         created: nat, released: seq<Ref>, touched: set<Ref>)

  function Initial(lowLatency: bool, n: nat): State {
    State(lowLatency, seq(n, _ => Out(true, Null, 0, Idle)), Null, Null, 0, 0, [], {})
  }

  predicate PrimaryFeeds(s: State) { |s.outs| > 0 && s.lowLatency }

  // put_echo_reference
  function Put(s: State, r: Option): State {
    if s.echo == Null || r != s.echo then s
    else
      var t := s.(echo := Null, gen := s.gen + 1);
      if PrimaryFeeds(s) && s.outs[0].gen == s.gen && !s.outs[0].standby then t
      else t.(released := t.released + [r.ref])
  }

  // get_echo_reference; ok is create_echo_reference's success.
  function Get(s: State, ok: bool): State {
    var t := Put(s, s.echo);
    if PrimaryFeeds(t) && !t.outs[0].standby && ok then
      t.(echo := Some(t.created), created := t.created + 1, gen := t.gen + 1)
    else t
  }

  function Touch(s: State, r: Option): State {
    if r.Some? && r.ref in s.released then s.(touched := s.touched + {r.ref}) else s
  }

  datatype Step =
    | InStart(ok: bool)   // start_input_stream with echo cancellation on
    | InStandby           // do_in_standby_l
    | OutStart(k: nat)    // start_output_stream
    | OutStandby(k: nat)  // do_out_standby_l
    | WriteCheck(k: nat)  // out_write compares generations without the device mutex
    | Pickup(k: nat)      // out_write under the device mutex
    | Write(k: nat)       // out_write feeds the reference, without the device mutex
    | WriteEnd(k: nat)

  predicate Enabled(s: State, a: Step) {
    match a
    case InStart(_) => true
    case InStandby => true
    case OutStart(k) => k < |s.outs| && s.outs[k].pc == Idle && s.outs[k].standby
    case OutStandby(k) => k < |s.outs| && s.outs[k].pc == Idle && !s.outs[k].standby
    case WriteCheck(k) => k < |s.outs| && s.outs[k].pc == Idle && !s.outs[k].standby
    case Pickup(k) => k < |s.outs| && s.outs[k].pc == Stale
    case Write(k) => k < |s.outs| && s.outs[k].pc == Writing
    case WriteEnd(k) => k < |s.outs| && s.outs[k].pc == Writing
  }

  function ReleaseHeld(s: State, r: Option): State {
    if r.Some? then s.(released := s.released + [r.ref]) else s
  }

  function Next(s: State, a: Step): State
    requires Enabled(s, a)
  {
    match a
    case InStart(ok) => if s.inEcho == Null then var t := Get(s, ok); t.(inEcho := t.echo) else s
    case InStandby => if s.inEcho == Null then s else Put(s, s.inEcho).(inEcho := Null)
    case OutStart(k) => s.(outs := s.outs[k := Out(false, s.echo, s.gen, Idle)])
    case OutStandby(k) =>
      var o := s.outs[k];
      if o.echo == Null then s.(outs := s.outs[k := o.(standby := true)])
      else
        var t := Touch(s, o.echo);
        if o.gen != s.gen then
          ReleaseHeld(t, o.echo).(outs := s.outs[k := Out(true, Null, s.gen, Idle)])
        else t.(outs := s.outs[k := o.(standby := true, echo := Null)])
    case WriteCheck(k) => s.(outs := s.outs[k := s.outs[k].(pc := if s.outs[k].gen != s.gen then Stale else Writing)])
    case Pickup(k) => ReleaseHeld(s, s.outs[k].echo).(outs := s.outs[k := Out(false, s.echo, s.gen, Writing)])
    case Write(k) => Touch(s, s.outs[k].echo)
    case WriteEnd(k) => s.(outs := s.outs[k := s.outs[k].(pc := Idle)])
  }

  predicate IsRun(s: State, run: seq<Step>)
    decreases |run|
  {
    run == [] || (Enabled(s, run[0]) && IsRun(Next(s, run[0]), run[1..]))
  }

  function After(s: State, run: seq<Step>): State
    requires IsRun(s, run)
    decreases |run|
  {
    if run == [] then s else After(Next(s, run[0]), run[1..])
  }

  // ----- What ownership means -----

  predicate Held(s: State, r: Ref) {
    s.echo == Some(r) || exists k :: 0 <= k < |s.outs| && s.outs[k].echo == Some(r)
  }

  predicate NoRepeat(released: seq<Ref>) {
    forall i, j :: 0 <= i < j < |released| ==> released[i] != released[j]
  }

  // Nothing is released twice, used by an output after release, read by the capture side after
  // release, or lost: what is not released is still held.
  predicate Owned(s: State) {
    && NoRepeat(s.released)
    && s.touched == {}
    && (s.inEcho.Some? ==> s.inEcho.ref !in s.released)
    && forall r: nat :: r < s.created && r !in s.released ==> Held(s, r)
  }

  ghost predicate AlwaysOwned(lowLatency: bool, n: nat) {
    forall run :: IsRun(Initial(lowLatency, n), run) ==> Owned(After(Initial(lowLatency, n), run))
  }

  // ----- One output -----

  ghost predicate Fed(s: State)
    requires |s.outs| == 1
  {
    var o := s.outs[0];
    && s.lowLatency
    && s.inEcho == s.echo
    && o.gen <= s.gen
    && (o.standby ==> o.echo == Null && o.pc == Idle)
    && (o.pc == Stale ==> o.gen != s.gen)
    // the key fact: a running output at the device's generation holds the device's reference
    && (!o.standby && o.gen == s.gen ==> o.echo == s.echo)
    && (o.gen != s.gen && o.echo.Some? ==> o.echo != s.echo)
    && (s.echo.Some? ==> s.echo.ref < s.created && s.echo.ref !in s.released)
    && (o.echo.Some? ==> o.echo.ref < s.created && o.echo.ref !in s.released)
    && (forall r :: r in s.released ==> r < s.created)
    && (forall r: nat :: r < s.created && r !in s.released ==> s.echo == Some(r) || o.echo == Some(r))
    && NoRepeat(s.released)
    && s.touched == {}
  }

  // Without a low-latency primary output no reference is ever made.
  ghost predicate Unfed(s: State) {
    && !PrimaryFeeds(s)
    && s.inEcho == s.echo == Null && s.created == 0 && s.released == [] && s.touched == {}
    && forall k :: 0 <= k < |s.outs| ==> s.outs[k].echo == Null
  }

  ghost predicate Inv(s: State) {
    if PrimaryFeeds(s) then |s.outs| == 1 && Fed(s) else Unfed(s)
  }

  lemma PutKeepsFed(s: State)
    requires |s.outs| == 1 && Fed(s)
    ensures Fed(Put(s, s.echo).(inEcho := Null))
  {
  }

  lemma StepKeeps(s: State, a: Step)
    requires Inv(s) && Enabled(s, a)
    ensures Inv(Next(s, a))
  {
    if PrimaryFeeds(s) {
      if a.InStart? || a.InStandby? { PutKeepsFed(s); }
    }
  }

  lemma {:induction false} RunKeeps(s: State, run: seq<Step>)
    requires Inv(s) && IsRun(s, run)
    ensures Inv(After(s, run))
    decreases |run|
  {
    if run != [] {
      StepKeeps(s, run[0]);
      RunKeeps(Next(s, run[0]), run[1..]);
    }
  }

  lemma InvMeansOwned(s: State)
    requires Inv(s)
    ensures Owned(s)
  {
    if PrimaryFeeds(s) {
      forall r: nat | r < s.created && r !in s.released
        ensures Held(s, r)
      {
        assert s.echo == Some(r) || s.outs[0].echo == Some(r);
      }
    }
  }

  // ----- A second output -----

  // Two outputs pick up the same reference ...
  function ShareIt(): seq<Step> { [OutStart(0), InStart(true), WriteCheck(0), Pickup(0), OutStart(1)] }

  // ... and after the capture side has given it up, each of them releases it.
  function DropIt(): seq<Step> { [InStandby, OutStandby(1), WriteEnd(0), OutStandby(0)] }

  predicate Shared(s: State) {
    && |s.outs| >= 2 && s.lowLatency && s.released == []
    && s.echo == s.inEcho == Some(0)
    && s.outs[0] == Out(false, Some(0), s.gen, Writing) && s.outs[1] == Out(false, Some(0), s.gen, Idle)
  }

  lemma First(s: State, run: seq<Step>, a: Step, rest: seq<Step>)
    requires run == [a] + rest && Enabled(s, a) && IsRun(Next(s, a), rest)
    ensures IsRun(s, run) && After(s, run) == After(Next(s, a), rest)
  {
    assert run[1..] == rest;
  }

  lemma SharingRun(s: State)
    requires |s.outs| >= 2 && s == Initial(true, |s.outs|)
    ensures IsRun(s, ShareIt()) && Shared(After(s, ShareIt()))
  {
    var s1 := Next(s, OutStart(0));
    var s2 := Next(s1, InStart(true));
    var s3 := Next(s2, WriteCheck(0));
    var s4 := Next(s3, Pickup(0));
    assert Shared(Next(s4, OutStart(1)));
    First(s4, [OutStart(1)], OutStart(1), []);
    First(s3, [Pickup(0), OutStart(1)], Pickup(0), [OutStart(1)]);
    First(s2, [WriteCheck(0), Pickup(0), OutStart(1)], WriteCheck(0), [Pickup(0), OutStart(1)]);
    First(s1, ShareIt()[1..], InStart(true), [WriteCheck(0), Pickup(0), OutStart(1)]);
    First(s, ShareIt(), OutStart(0), ShareIt()[1..]);
  }

  lemma DroppingRun(s: State)
    requires Shared(s)
    ensures IsRun(s, DropIt()) && After(s, DropIt()).released == [0, 0]
  {
    var s1 := Next(s, InStandby);
    var s2 := Next(s1, OutStandby(1));
    var s3 := Next(s2, WriteEnd(0));
    First(s3, [OutStandby(0)], OutStandby(0), []);
    First(s2, [WriteEnd(0), OutStandby(0)], WriteEnd(0), [OutStandby(0)]);
    First(s1, DropIt()[1..], OutStandby(1), [WriteEnd(0), OutStandby(0)]);
    First(s, DropIt(), InStandby, DropIt()[1..]);
  }

  lemma {:induction false} RunsCompose(s: State, run: seq<Step>, more: seq<Step>)
    requires IsRun(s, run) && IsRun(After(s, run), more)
    ensures IsRun(s, run + more) && After(s, run + more) == After(After(s, run), more)
    decreases |run|
  {
    if run == [] {
      assert run + more == more;
    } else {
      RunsCompose(Next(s, run[0]), run[1..], more);
      First(s, run + more, run[0], run[1..] + more);
    }
  }

  lemma SecondOutputReleasesTwice(n: nat)
    requires n >= 2
    ensures var run := ShareIt() + DropIt();
      IsRun(Initial(true, n), run) && After(Initial(true, n), run).released == [0, 0]
  {
    SharingRun(Initial(true, n));
    DroppingRun(After(Initial(true, n), ShareIt()));
    RunsCompose(Initial(true, n), ShareIt(), DropIt());
  }

  // Ownership holds over every interleaving exactly when the low-latency primary output is the only PCM output.
  lemma OwnershipExactly(lowLatency: bool, n: nat)
    ensures AlwaysOwned(lowLatency, n) <==> !lowLatency || n <= 1
  {
    var s := Initial(lowLatency, n);
    if !lowLatency || n <= 1 {
      forall run | IsRun(s, run)
        ensures Owned(After(s, run))
      {
        RunKeeps(s, run);
        InvMeansOwned(After(s, run));
      }
    } else {
      SecondOutputReleasesTwice(n);
      var released := After(s, ShareIt() + DropIt()).released;
      assert released[0] == released[1];
    }
  }

  // With the primary output alone, a running stream at the device's generation holds the device's reference.
  lemma RunningOutputHoldsTheReference(run: seq<Step>)
    requires IsRun(Initial(true, 1), run)
    ensures var s := After(Initial(true, 1), run);
      |s.outs| == 1 && (!s.outs[0].standby && s.outs[0].gen == s.gen ==> s.outs[0].echo == s.echo)
  {
    RunKeeps(Initial(true, 1), run);
    OutsLength(Initial(true, 1), run);
  }

  lemma {:induction false} OutsLength(s: State, run: seq<Step>)
    requires IsRun(s, run)
    ensures |After(s, run).outs| == |s.outs| && After(s, run).lowLatency == s.lowLatency
    decreases |run|
  {
    if run != [] { OutsLength(Next(s, run[0]), run[1..]); }
  }

  // Starting capture without a reference makes one iff the low-latency primary output runs and the making succeeds, and
  // capture and device then share it; a reference the device had is given up first.
  lemma CaptureGetsReference(s: State, ok: bool)
    requires s.inEcho == Null
    ensures var t := Next(s, InStart(ok)); var makes := |s.outs| > 0 && s.lowLatency && !s.outs[0].standby && ok;
      && t.inEcho == t.echo == (if makes then Some(s.created) else Null)
      && t.created == s.created + (if makes then 1 else 0)
      && (t.gen == s.gen <==> s.echo == Null && !makes)
  {
  }

  // With the primary output alone: ending capture gives the reference up, and releases it at once iff the output is in
  // standby or has not picked it up.
  lemma CaptureGivesUp(run: seq<Step>)
    requires IsRun(Initial(true, 1), run) && After(Initial(true, 1), run).inEcho.Some?
    ensures var s := After(Initial(true, 1), run); var t := Next(s, InStandby);
      && |s.outs| == 1 && t.inEcho == t.echo == Null && t.gen != s.gen
      && t.released == s.released +
           if s.outs[0].standby || s.outs[0].echo != s.inEcho then [s.inEcho.ref] else []
  {
    RunKeeps(Initial(true, 1), run);
    OutsLength(Initial(true, 1), run);
  }

  // A write looks for another reference iff the generations differ; it then lets go of the one it has and takes the
  // device's.
  lemma WritePicksUp(s: State, k: nat)
    requires Enabled(s, WriteCheck(k))
    ensures var t := Next(s, WriteCheck(k));
      && (Enabled(t, Pickup(k)) <==> s.outs[k].gen != s.gen)
      && (Enabled(t, Pickup(k)) ==>
            var u := Next(t, Pickup(k));
            && u.outs[k].echo == s.echo && u.outs[k].gen == s.gen
            && u.released == s.released + if s.outs[k].echo.Some? then [s.outs[k].echo.ref] else [])
  {
  }

  // An output that starts takes the device's reference; one that goes to standby has none.
  lemma OutputStartsAndStops(s: State, k: nat)
    ensures Enabled(s, OutStart(k)) ==>
      var o := Next(s, OutStart(k)).outs[k]; !o.standby && o.echo == s.echo && o.gen == s.gen
    ensures Enabled(s, OutStandby(k)) ==>
      var t := Next(s, OutStandby(k));
      && t.outs[k].standby && t.outs[k].echo == Null
      && t.released == s.released +
           if s.outs[k].echo.Some? && s.outs[k].gen != s.gen then [s.outs[k].echo.ref] else []
  {
  }

  // ----- In place -----

  /** The fields the streams and the device share, changed as the C functions change them; the
      histories are ghost. Each method is one locked region. */
  class EchoDevice {
    const lowLatency: bool
    var outs: seq<Out>
    var inEcho: Option
    var echo: Option
    var gen: int
    var created: nat
    ghost var released: seq<Ref>
    ghost var touched: set<Ref>

    ghost function View(): State
      reads this
    {
      State(lowLatency, outs, inEcho, echo, gen, created, released, touched)
    }

    constructor (lowLatency: bool, n: nat)
      ensures View() == Initial(lowLatency, n)
    {
      this.lowLatency := lowLatency;
      outs := seq(n, _ => Out(true, Null, 0, Idle));
      inEcho, echo, gen, created, released, touched := Null, Null, 0, 0, [], {};
    }

    method ReleaseEchoReference(r: Ref)
      modifies this`released
      ensures released == old(released) + [r]
    {
      released := released + [r];
    }

    ghost method WriteReference(r: Option)
      modifies this`touched
      ensures View() == Touch(old(View()), r)
    {
      if r.Some? && r.ref in released {
        touched := touched + {r.ref};
      }
    }

    method PutEchoReference(r: Option)
      modifies this`echo, this`gen, this`released
      ensures View() == Put(old(View()), r)
    {
      var prevGen := gen;
      if echo != Null && r == echo {
        echo := Null;
        gen := gen + 1;
        if |outs| > 0 && lowLatency {
          if outs[0].gen != prevGen || outs[0].standby {
            ReleaseEchoReference(r.ref);
          }
        } else {
          ReleaseEchoReference(r.ref);
        }
      }
    }

    method GetEchoReference(ok: bool) returns (r: Option)
      modifies this`echo, this`gen, this`created, this`released
      ensures View() == Get(old(View()), ok) && r == echo
    {
      PutEchoReference(echo);
      if |outs| > 0 && lowLatency && !outs[0].standby {
        if ok {
          echo := Some(created);
          created := created + 1;
          gen := gen + 1;
        }
      }
      return echo;
    }

    method StartInputStream(ok: bool)
      modifies this
      ensures View() == Next(old(View()), InStart(ok))
    {
      if inEcho == Null {
        inEcho := GetEchoReference(ok);
      }
    }

    method DoInStandby()
      modifies this
      ensures View() == Next(old(View()), InStandby)
    {
      if inEcho != Null {
        PutEchoReference(inEcho);
        inEcho := Null;
      }
    }

    method StartOutputStream(k: nat)
      requires Enabled(View(), OutStart(k))
      modifies this`outs
      ensures View() == Next(old(View()), OutStart(k))
    {
      outs := outs[k := outs[k].(echo := Null, gen := gen)];
      if echo != Null {
        outs := outs[k := outs[k].(echo := echo)];
      }
      outs := outs[k := outs[k].(standby := false)];
    }

    method DoOutStandby(k: nat)
      requires Enabled(View(), OutStandby(k))
      modifies this`outs, this`released, this`touched
      ensures View() == Next(old(View()), OutStandby(k))
    {
      outs := outs[k := outs[k].(standby := true)];
      if outs[k].echo != Null {
        WriteReference(outs[k].echo);
        if outs[k].gen != gen {
          ReleaseEchoReference(outs[k].echo.ref);
          outs := outs[k := outs[k].(gen := gen)];
        }
        outs := outs[k := outs[k].(echo := Null)];
      }
    }

    method PickUp(k: nat)
      requires Enabled(View(), Pickup(k)) && !outs[k].standby
      modifies this`outs, this`released
      ensures View() == Next(old(View()), Pickup(k))
    {
      if outs[k].echo != Null {
        ReleaseEchoReference(outs[k].echo.ref);
      }
      outs := outs[k := outs[k].(gen := gen)];
      outs := outs[k := outs[k].(echo := echo, pc := Writing)];
    }
  }
}
