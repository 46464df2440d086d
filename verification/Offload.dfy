/** Compress-offload playback (audio/compress_offload.c and the offload branches of
    audio/audio_hw.c): API threads and a worker share one stream under out->lock. The worker
    drops the lock while it uses the compress handle; standby and flush give the lock up in
    pthread_cond_wait until it is done. Every stretch of code under out->lock is one step.

    A standby that waits keeps the device mutex, so steps that need that mutex are disabled meanwhile;
    OffloadLocks takes such calls apart lock by lock. */
module Offload {

  type Handle = nat

  datatype Option = Null | Open(handle: Handle)

  datatype Cmd = Exit | Drain | PartialDrain | WaitForBuffer

  datatype Playing = IDLE | PLAYING | PAUSED | PAUSED_FLUSHED

  datatype Worker = Asleep | Using(cmd: Cmd, handle: Handle) | Exited

  /** entries counts the stream's usecase entries; faults counts paths enabled twice or disabled while
      missing. openings, closed, sent and taken are histories. */
  datatype State = State(
    fx: bool,                // the effects library is present
    compr: Option, blocked: bool, cmds: seq<Cmd>, playing: Playing, standby: bool,
    standbyWaits: bool, flushWaits: nat, worker: Worker,
    entries: int, faults: nat,
    openings: nat, closed: set<Handle>, sent: seq<Cmd>, taken: seq<Cmd>)

  function Initial(fx: bool): State {
    State(fx, Null, false, [], IDLE, true, false, 0, Asleep, 0, 0, 0, {}, [], [])
  }

  datatype Step =
    | Write(ready: bool, short: bool)  // out_write: ready is is_compress_ready, short an incomplete write
    | DrainCall(cmd: Cmd)              // out_drain_offload
    | Pause | Resume | Flush | FlushEnd
    | Standby | StandbyEnd
    | Destroy                          // destroy_offload_callback_thread
    | Take | Finish                    // the worker

  // ----- Steps -----

  function Send(s: State, c: Cmd): State { s.(cmds := s.cmds + [c], sent := s.sent + [c]) }

  // enable_output_path_l and disable_output_path_l
  function EnablePath(s: State): State {
    s.(entries := s.entries + 1, faults := if s.entries > 0 then s.faults + 1 else s.faults)
  }

  function DisablePath(s: State): State {
    if s.entries == 0 then s.(faults := s.faults + 1) else s.(entries := s.entries - 1)
  }

  // stop_output_stream
  function StopOutput(s: State): State {
    if !s.fx then DisablePath(s)
    else
      var t := if s.playing == PAUSED || s.playing == PAUSED_FLUSHED then s else DisablePath(s);
      t.(playing := IDLE)
  }

  // start_output_stream for the offload usecase; the stream leaves standby when the device is ready.
  function StartOutput(s: State, ready: bool): State {
    var t := EnablePath(s);
    var h := t.openings;
    if ready then t.(compr := Open(h), openings := h + 1, standby := false)
    else StopOutput(t.(compr := Null, openings := h + 1, closed := t.closed + {h}))
  }

  // out_write_offload
  function WriteOffload(s: State, short: bool): State {
    var t := if s.playing == PAUSED_FLUSHED then EnablePath(s) else s;
    var u := if short then Send(t, WaitForBuffer) else t;
    u.(playing := PLAYING)
  }

  // do_out_standby_l once the worker is out of the way.
  function CloseAndStop(s: State): State {
    var t := if s.compr.Open? then s.(compr := Null, closed := s.closed + {s.compr.handle}) else s;
    StopOutput(t).(standby := true, standbyWaits := false)
  }

  predicate MustWait(s: State) { s.compr.Open? && s.blocked }

  predicate Enabled(s: State, a: Step) {
    match a
    case Write(_, _) => !s.standbyWaits
    case DrainCall(cmd) => cmd == Drain || cmd == PartialDrain
    case Pause => s.playing == PLAYING ==> !s.standbyWaits
    case Resume => s.playing == PAUSED ==> !s.standbyWaits
    case Flush => true
    case FlushEnd => s.flushWaits > 0 && !s.blocked
    case Standby => !s.standbyWaits
    case StandbyEnd => s.standbyWaits && !s.blocked
    case Destroy => true
    case Take => s.worker == Asleep && s.cmds != []
    case Finish => s.worker.Using?
  }

  function Next(s: State, a: Step): State
    requires Enabled(s, a)
  {
    match a
    case Write(ready, short) =>
      var t := if s.standby then StartOutput(s, ready) else s;
      if t.standby then t else WriteOffload(t, short)
    case DrainCall(cmd) => Send(s, cmd)
    case Pause => if s.compr.Open? && s.playing == PLAYING then DisablePath(s.(playing := PAUSED)) else s
    case Resume => if s.compr.Open? && s.playing == PAUSED then EnablePath(s).(playing := PLAYING) else s
    case Flush =>
      if s.playing != PAUSED then s
      else if MustWait(s) then s.(flushWaits := s.flushWaits + 1)
      else s.(playing := PAUSED_FLUSHED)
    case FlushEnd => s.(flushWaits := s.flushWaits - 1, playing := PAUSED_FLUSHED)
    case Standby =>
      if s.standby then s
      else if MustWait(s) then s.(standby := true, standbyWaits := true)
      else CloseAndStop(s)
    case StandbyEnd => CloseAndStop(s)
    case Destroy => Send(s, Exit)
    case Take =>
      var t := s.(cmds := s.cmds[1..], taken := s.taken + [s.cmds[0]]);
      if s.cmds[0] == Exit then t.(worker := Exited, cmds := [])
      else if s.compr == Null then t
      else t.(worker := Using(s.cmds[0], s.compr.handle), blocked := true)
    case Finish => s.(worker := Asleep, blocked := false)
  }

  predicate IsRun(s: State, run: seq<Step>)
    decreases |run|
  {
    run == [] || (Enabled(s, run[0]) && IsRun(Next(s, run[0]), run[1..]))
  }

  function After(s: State, run: seq<Step>): State
    requires IsRun(s, run)
    decreases |run|
  {
    if run == [] then s else After(Next(s, run[0]), run[1..])
  }

  // ----- Handle safety -----

  predicate HandleInv(s: State) {
    && (s.blocked <==> s.worker.Using?)
    && (s.worker.Using? ==> s.compr == Open(s.worker.handle) && s.worker.cmd != Exit)
    && (s.compr.Open? ==> s.compr.handle < s.openings && s.compr.handle !in s.closed)
    && (forall h :: h in s.closed ==> h < s.openings)
    && (s.standbyWaits ==> s.standby)
    && (s.standby && !s.standbyWaits ==> s.compr == Null)
    && (!s.standby || s.standbyWaits ==> s.compr.Open?)
  }

  lemma WriteKeepsHandle(s: State, ready: bool, short: bool)
    requires HandleInv(s) && Enabled(s, Write(ready, short))
    ensures HandleInv(Next(s, Write(ready, short)))
  {
  }

  lemma CloseKeepsHandle(s: State)
    requires HandleInv(s) && !s.blocked
    ensures HandleInv(CloseAndStop(s))
  {
  }

  lemma StepKeepsHandle(s: State, a: Step)
    requires HandleInv(s) && Enabled(s, a)
    ensures HandleInv(Next(s, a))
  {
    match a {
      case Write(ready, short) => WriteKeepsHandle(s, ready, short);
      case Standby =>
        if !s.blocked {
          CloseKeepsHandle(s);
        }
      case StandbyEnd => CloseKeepsHandle(s);
      case _ =>
    }
  }

  lemma {:induction false} RunKeepsHandle(s: State, run: seq<Step>)
    requires HandleInv(s) && IsRun(s, run)
    ensures HandleInv(After(s, run))
    decreases |run|
  {
    if run != [] {
      StepKeepsHandle(s, run[0]);
      RunKeepsHandle(Next(s, run[0]), run[1..]);
    }
  }

  // In every reachable state the worker only uses the stream's own open handle, and whatever step comes
  // next, the handle it uses is neither closed nor replaced; a handle is opened only where none is open,
  // and a write outside standby finds one.
  lemma HandleSafety(fx: bool, run: seq<Step>, a: Step)
    requires IsRun(Initial(fx), run) && Enabled(After(Initial(fx), run), a)
    ensures var s := After(Initial(fx), run); var t := Next(s, a);
      && (s.worker.Using? ==> s.compr == t.compr == Open(s.worker.handle)
                              && s.worker.handle !in s.closed && s.worker.handle !in t.closed)
      && (t.openings > s.openings ==> s.compr == Null)
      && (!s.standby ==> s.compr.Open?)
  {
    RunKeepsHandle(Initial(fx), run);
    var s := After(Initial(fx), run);
    StepKeepsHandle(s, a);
  }

  // ----- Command order -----

  predicate Ordered(exited: bool, cmds: seq<Cmd>, sent: seq<Cmd>, taken: seq<Cmd>) {
    if exited then
      taken <= sent && taken != [] && taken[|taken| - 1] == Exit && Exit !in taken[..|taken| - 1]
    else taken + cmds == sent && Exit !in taken
  }

  predicate OrderInv(s: State) { Ordered(s.worker == Exited, s.cmds, s.sent, s.taken) }

  lemma SendingKeepsOrder(exited: bool, cmds: seq<Cmd>, sent: seq<Cmd>, taken: seq<Cmd>, more: seq<Cmd>)
    requires Ordered(exited, cmds, sent, taken)
    ensures Ordered(exited, cmds + more, sent + more, taken)
  {
  }

  // What the calls do to the stream leaves the queue, its histories and the worker alone.
  predicate SameQueue(s: State, t: State) {
    t.cmds == s.cmds && t.sent == s.sent && t.taken == s.taken && t.worker == s.worker
  }

  lemma PathLeavesQueue(s: State, ready: bool)
    ensures SameQueue(s, StopOutput(s)) && SameQueue(s, StartOutput(s, ready)) && SameQueue(s, CloseAndStop(s))
  {
  }

  // Every step but the worker's leaves the history of taken commands alone and queues what it sends.
  lemma OthersOnlySend(s: State, a: Step) returns (more: seq<Cmd>)
    requires Enabled(s, a) && !a.Take?
    ensures var t := Next(s, a);
      && t.taken == s.taken && (t.worker == Exited <==> s.worker == Exited)
      && t.cmds == s.cmds + more && t.sent == s.sent + more
  {
    more := [];
    match a {
      case Write(ready, short) => more := WriteOnlySends(s, ready, short);
      case DrainCall(cmd) => more := [cmd];
      case Destroy => more := [Exit];
      case _ => PathLeavesQueue(s, false);
    }
  }

  lemma WriteOnlySends(s: State, ready: bool, short: bool) returns (more: seq<Cmd>)
    requires Enabled(s, Write(ready, short))
    ensures var t := Next(s, Write(ready, short));
      t.taken == s.taken && t.worker == s.worker && t.cmds == s.cmds + more && t.sent == s.sent + more
  {
    PathLeavesQueue(s, ready);
    var t := if s.standby then StartOutput(s, ready) else s;
    more := if short && !t.standby then [WaitForBuffer] else [];
  }

  lemma StepKeepsOrder(s: State, a: Step)
    requires OrderInv(s) && Enabled(s, a)
    ensures OrderInv(Next(s, a))
  {
    if a.Take? {
      TakeKeepsOrder(s);
    } else {
      var more := OthersOnlySend(s, a);
      SendingKeepsOrder(s.worker == Exited, s.cmds, s.sent, s.taken, more);
    }
  }

  lemma TakeKeepsOrder(s: State)
    requires OrderInv(s) && Enabled(s, Take)
    ensures OrderInv(Next(s, Take))
  {
    TakingKeepsOrder(s.cmds, s.sent, s.taken);
  }

  lemma TakingKeepsOrder(cmds: seq<Cmd>, sent: seq<Cmd>, taken: seq<Cmd>)
    requires Ordered(false, cmds, sent, taken) && cmds != []
    ensures Ordered(cmds[0] == Exit, if cmds[0] == Exit then [] else cmds[1..], sent, taken + [cmds[0]])
  {
    assert taken + cmds == taken + [cmds[0]] + cmds[1..];
    assert (taken + [cmds[0]])[..|taken|] == taken;
  }

  lemma {:induction false} RunKeepsOrder(s: State, run: seq<Step>)
    requires OrderInv(s) && IsRun(s, run)
    ensures OrderInv(After(s, run))
    decreases |run|
  {
    if run != [] {
      StepKeepsOrder(s, run[0]);
      RunKeepsOrder(Next(s, run[0]), run[1..]);
    }
  }

  // Commands are taken in the order they were sent, none skipped, and nothing after the first EXIT is.
  lemma CommandsInOrder(fx: bool, run: seq<Step>)
    requires IsRun(Initial(fx), run)
    ensures var s := After(Initial(fx), run);
      && s.taken <= s.sent
      && (forall i :: 0 <= i < |s.taken| && s.taken[i] == Exit ==> i == |s.taken| - 1)
      && (s.worker == Exited <==> Exit in s.taken)
      && (s.worker != Exited ==> s.sent == s.taken + s.cmds)
  {
    RunKeepsOrder(Initial(fx), run);
    var s := After(Initial(fx), run);
    if s.worker == Exited {
      assert s.taken[|s.taken| - 1] in s.taken;
      assert forall i :: 0 <= i < |s.taken| - 1 ==> s.taken[i] in s.taken[..|s.taken| - 1];
    } else {
      assert forall i :: 0 <= i < |s.taken| ==> s.taken[i] in s.taken;
    }
  }

  // ----- What is sent, opened and played -----

  // Standby as the calls alone tell: left by a write that finds the device ready, entered by a standby.
  function StandbyOf(standby: bool, a: Step): bool {
    match a
    case Write(ready, _) => standby && !ready
    case Standby => true
    case _ => standby
  }

  // The commands the calls alone ask for: an incomplete write on a started stream waits for room, a drain drains, and
  // destroying the thread ends it.
  function SendsOf(standby: bool, a: Step): seq<Cmd> {
    match a
    case Write(ready, short) => if short && (ready || !standby) then [WaitForBuffer] else []
    case DrainCall(cmd) => [cmd]
    case Destroy => [Exit]
    case _ => []
  }

  function SentFrom(standby: bool, run: seq<Step>): seq<Cmd>
    decreases |run|
  {
    if run == [] then [] else SendsOf(standby, run[0]) + SentFrom(StandbyOf(standby, run[0]), run[1..])
  }

  lemma StepSends(s: State, a: Step)
    requires HandleInv(s) && Enabled(s, a)
    ensures Next(s, a).sent == s.sent + SendsOf(s.standby, a)
    ensures Next(s, a).standby == StandbyOf(s.standby, a)
  {
    PathLeavesQueue(s, a.Write? && a.ready);
  }

  // Over every interleaving: exactly these commands are sent, in this order.
  lemma {:induction false} SentExactly(s: State, run: seq<Step>)
    requires HandleInv(s) && IsRun(s, run)
    ensures After(s, run).sent == s.sent + SentFrom(s.standby, run)
    decreases |run|
  {
    if run != [] {
      StepKeepsHandle(s, run[0]);
      StepSends(s, run[0]);
      SentRest(s, Next(s, run[0]), run);
    }
  }

  lemma {:induction false} SentRest(s: State, t: State, run: seq<Step>)
    requires run != [] && Enabled(s, run[0]) && t == Next(s, run[0]) && HandleInv(t) && IsRun(t, run[1..])
    requires t.sent == s.sent + SendsOf(s.standby, run[0]) && t.standby == StandbyOf(s.standby, run[0])
    ensures After(t, run[1..]).sent == s.sent + SentFrom(s.standby, run)
    decreases |run|, 0
  {
    SentExactly(t, run[1..]);
  }

  // Every handle ever opened is the open one or closed.
  predicate Accounted(s: State) {
    forall h: nat :: h < s.openings ==> h in s.closed || s.compr == Open(h)
  }

  lemma StepKeepsAccount(s: State, a: Step)
    requires HandleInv(s) && Accounted(s) && Enabled(s, a)
    ensures Accounted(Next(s, a))
  {
  }

  // Over every interleaving: no handle is leaked.
  lemma {:induction false} NoHandleLeaks(s: State, run: seq<Step>)
    requires HandleInv(s) && Accounted(s) && IsRun(s, run)
    ensures Accounted(After(s, run))
    decreases |run|
  {
    if run != [] {
      StepKeepsHandle(s, run[0]);
      StepKeepsAccount(s, run[0]);
      NoHandleLeaks(Next(s, run[0]), run[1..]);
    }
  }

  // The state diagram of offload_state: what each call makes of it, on a live stream and on one in standby.
  function PlayingAfter(s: State, a: Step): Playing {
    match a
    case Write(ready, _) => if ready || !s.standby then PLAYING else if s.fx then IDLE else s.playing
    case Pause => if Live(s) && s.playing == PLAYING then PAUSED else s.playing
    case Resume => if Live(s) && s.playing == PAUSED then PLAYING else s.playing
    case Flush => if s.playing == PAUSED && !(Live(s) && s.blocked) then PAUSED_FLUSHED else s.playing
    case FlushEnd => PAUSED_FLUSHED
    case Standby => if s.fx && !s.standby && !s.blocked then IDLE else s.playing
    case StandbyEnd => if s.fx then IDLE else s.playing
    case _ => s.playing
  }

  lemma StateDiagram(s: State, a: Step)
    requires HandleInv(s) && Enabled(s, a)
    ensures Next(s, a).playing == PlayingAfter(s, a)
  {
  }

  // Standby and flush wait exactly while the worker is at a live stream's handle.
  lemma WaitsExactly(s: State, a: Step)
    requires HandleInv(s) && Enabled(s, a)
    ensures var t := Next(s, a);
      t.standbyWaits <==> (s.standbyWaits && a != StandbyEnd) || (a == Standby && !s.standby && s.blocked)
    ensures Next(s, a).flushWaits == match a
      case Flush => s.flushWaits + if s.playing == PAUSED && Live(s) && s.blocked then 1 else 0
      case FlushEnd => s.flushWaits - 1
      case _ => s.flushWaits
  {
  }

  // The worker takes the first command. EXIT ends it and empties the queue; any other it runs on the stream's handle,
  // if the stream is live.
  lemma WorkerTakes(s: State)
    requires HandleInv(s) && Enabled(s, Take)
    ensures var t := Next(s, Take);
      && t.taken == s.taken + [s.cmds[0]]
      && (s.cmds[0] == Exit ==> t.worker == Exited && t.cmds == [])
      && (s.cmds[0] != Exit ==> t.cmds == s.cmds[1..])
      && (s.cmds[0] != Exit ==> t.worker == if Live(s) then Using(s.cmds[0], s.compr.handle) else Asleep)
  {
  }

  // ----- State and path agreement -----

  // A stream is live until its standby is complete.
  predicate Live(s: State) { !s.standby || s.standbyWaits }

  predicate Agrees(s: State) {
    s.entries == if Live(s) && (s.playing == IDLE || s.playing == PLAYING) then 1 else 0
  }

  // Without the effects library nothing puts the state back to IDLE when the output stops.
  predicate PathInv(s: State) {
    && HandleInv(s)
    && Agrees(s) && s.faults == 0
    && (s.standby && !s.standbyWaits ==> s.playing == IDLE || (!s.fx && s.playing == PLAYING))
    && (!s.fx && s.standbyWaits ==> s.playing == IDLE || s.playing == PLAYING)
    && (s.flushWaits > 0 ==> (s.playing == PAUSED || s.playing == PAUSED_FLUSHED) && !s.standby)
  }

  // What a caller must not do: write while paused, run write, resume or standby into the window in which flush has
  // given up the lock, or flush into that of standby; and, without the effects library, go to standby while paused.
  predicate Tame(s: State, a: Step) {
    match a
    case Write(_, _) => s.standby || (s.playing != PAUSED && s.flushWaits == 0)
    case Resume => !(s.flushWaits > 0 && s.playing == PAUSED)
    case Standby => s.flushWaits == 0 && (s.fx || s.standby || s.playing == IDLE || s.playing == PLAYING)
    case Flush => !(s.standbyWaits && s.playing == PAUSED && MustWait(s))
    case _ => true
  }

  // Tame steps keep the invariant behind the agreement, and no others do.
  lemma TameKeepsInvariant(s: State, a: Step)
    requires PathInv(s) && Enabled(s, a)
    ensures PathInv(Next(s, a)) <==> Tame(s, a)
  {
    StepKeepsHandle(s, a);
  }

  predicate TameRun(s: State, run: seq<Step>)
    requires IsRun(s, run)
    decreases |run|
  {
    run == [] || (Tame(s, run[0]) && TameRun(Next(s, run[0]), run[1..]))
  }

  lemma {:induction false} RunKeepsPath(s: State, run: seq<Step>)
    requires PathInv(s) && IsRun(s, run) && TameRun(s, run)
    ensures PathInv(After(s, run))
    decreases |run|
  {
    if run != [] {
      TameKeepsInvariant(s, run[0]);
      RunKeepsPath(Next(s, run[0]), run[1..]);
    }
  }

  // No run of tame calls enables the path twice or disables a missing one.
  lemma PathAgreement(fx: bool, run: seq<Step>)
    requires IsRun(Initial(fx), run) && TameRun(Initial(fx), run)
    ensures var s := After(Initial(fx), run); Agrees(s) && s.faults == 0
  {
    RunKeepsPath(Initial(fx), run);
  }

  // However tame calls go on from s, the path is never enabled twice or disabled while missing.
  ghost predicate Faultless(s: State) {
    forall run :: IsRun(s, run) && TameRun(s, run) ==> After(s, run).faults == s.faults
  }

  // A fault that tame calls run into.
  ghost predicate Faulty(s: State, run: seq<Step>) {
    IsRun(s, run) && TameRun(s, run) && After(s, run).faults > s.faults
  }

  lemma FaultyNext(s: State, a: Step, run: seq<Step>)
    requires Enabled(s, a) && Tame(s, a) && Next(s, a).faults == s.faults && Faulty(Next(s, a), run)
    ensures Faulty(s, [a] + run)
  {
    assert ([a] + run)[1..] == run;
  }

  lemma FaultyNow(s: State, a: Step)
    requires Enabled(s, a) && Tame(s, a) && Next(s, a).faults > s.faults
    ensures Faulty(s, [a])
  {
    assert [a][1..] == [];
    assert After(Next(s, a), []) == Next(s, a);
  }

  // Flushes that waited complete one by one; a write that follows enables the path, and a second time when it is
  // there already or has to be made anew.
  lemma {:induction false} FlushedThenWrite(s: State) returns (run: seq<Step>)
    requires s.flushWaits > 0 && !s.blocked && !s.standbyWaits && (s.entries > 0 || (s.entries == 0 && s.standby))
    ensures Faulty(s, run)
    decreases s.flushWaits
  {
    var t := Next(s, FlushEnd);
    if t.flushWaits > 0 {
      run := FlushedThenWrite(t);
    } else {
      FaultyNow(t, Write(true, false));
      run := [Write(true, false)];
    }
    FaultyNext(s, FlushEnd, run);
    run := [FlushEnd] + run;
  }

  // The same once the worker has given the handle up.
  lemma FinishedThenWrite(s: State) returns (run: seq<Step>)
    requires HandleInv(s) && s.flushWaits > 0 && !s.standbyWaits && (s.entries > 0 || (s.entries == 0 && s.standby))
    ensures Faulty(s, run)
  {
    if s.blocked {
      run := FlushedThenWrite(Next(s, Finish));
      FaultyNext(s, Finish, run);
      run := [Finish] + run;
    } else {
      run := FlushedThenWrite(s);
    }
  }

  // And once a standby that waited for the worker has completed.
  lemma StandbyThenWrite(s: State) returns (run: seq<Step>)
    requires s.fx && HandleInv(s) && s.flushWaits > 0 && s.standbyWaits && s.entries == 0
    requires s.playing == PAUSED || s.playing == PAUSED_FLUSHED
    ensures Faulty(s, run)
  {
    var t := if s.blocked then Next(s, Finish) else s;
    run := FlushedThenWrite(Next(t, StandbyEnd));
    FaultyNext(t, StandbyEnd, run);
    run := [StandbyEnd] + run;
    if s.blocked {
      FaultyNext(s, Finish, run);
      run := [Finish] + run;
    }
  }

  // Without the effects library, a standby that waits while paused disables a missing path when it completes.
  lemma StandbyEndFaults(s: State) returns (run: seq<Step>)
    requires !s.fx && HandleInv(s) && s.standbyWaits && s.entries == 0
    ensures Faulty(s, run)
  {
    var t := if s.blocked then Next(s, Finish) else s;
    FaultyNow(t, StandbyEnd);
    run := [StandbyEnd];
    if s.blocked {
      FaultyNext(s, Finish, run);
      run := [Finish] + run;
    }
  }

  // A step that is not tame is a fault, or some tame calls after it run into one.
  lemma NotTameFaults(s: State, a: Step) returns (run: seq<Step>)
    requires PathInv(s) && Enabled(s, a) && !Tame(s, a)
    ensures Next(s, a).faults > 0 || Faulty(Next(s, a), run)
    ensures s.fx ==> Next(s, a).faults == 0
  {
    run := [];
    var t := Next(s, a);
    StepKeepsHandle(s, a);
    match a {
      case Write(_, _) =>
        if s.playing == PAUSED {
          FaultyNow(t, Pause);
          run := [Pause];
        } else {
          run := FinishedThenWrite(t);
        }
      case Resume => run := FinishedThenWrite(t);
      case Standby =>
        if !s.fx && t.standbyWaits {
          run := StandbyEndFaults(t);
        } else if t.standbyWaits {
          run := StandbyThenWrite(t);
        } else if s.fx {
          run := FinishedThenWrite(t);
        }
      case Flush => run := StandbyThenWrite(t);
    }
  }

  // From a state in agreement, with the effects library or without, a step is tame iff neither it nor any tame calls
  // after it enable the path twice or disable it while missing.
  lemma TameExactly(s: State, a: Step)
    requires PathInv(s) && Enabled(s, a)
    ensures Tame(s, a) <==> Next(s, a).faults == 0 && Faultless(Next(s, a))
  {
    TameKeepsInvariant(s, a);
    if Tame(s, a) {
      forall run | IsRun(Next(s, a), run) && TameRun(Next(s, a), run)
        ensures After(Next(s, a), run).faults == 0
      {
        RunKeepsPath(Next(s, a), run);
      }
    } else {
      var run := NotTameFaults(s, a);
    }
  }

  // Each restriction is needed: a resume while flush waits, a write while paused, and a standby while
  // paused without the effects library each lead to a path enabled twice or disabled while missing.
  lemma ResumeIntoFlush(s: State)
    requires PathInv(s) && s.playing == PAUSED && s.flushWaits == 1 && s.worker.Using?
    ensures Enabled(s, Resume)
    ensures var s1 := Next(s, Resume); Enabled(s1, Finish)
    ensures var s2 := Next(Next(s, Resume), Finish); Enabled(s2, FlushEnd)
    ensures var s3 := Next(Next(Next(s, Resume), Finish), FlushEnd);
      !Agrees(s3) && Enabled(s3, Write(true, false)) && Next(s3, Write(true, false)).faults == 1
  {
  }

  // The window in which flush waits is reached by tame calls.
  lemma FlushWindowIsReachable()
    ensures exists s :: TameReaches(s) && PathInv(s) && s.playing == PAUSED && s.flushWaits == 1 && s.worker.Using?
  {
    var s := DrainingIsReachable();
    var paused := TameStep(s, Pause);
    var flushed := TameStep(paused, Flush);
  }

  lemma DrainingIsReachable() returns (s: State)
    ensures TameReaches(s) && PathInv(s) && s.playing == PLAYING && !s.standby && s.flushWaits == 0 && s.worker.Using?
  {
    var started := TameStep(Initial(true), Write(true, false));
    var asked := TameStep(started, DrainCall(Drain));
    s := TameStep(asked, Take);
  }

  ghost predicate TameReaches(s: State) {
    exists run :: IsRun(Initial(true), run) && TameRun(Initial(true), run) && After(Initial(true), run) == s
  }

  lemma TameStep(s: State, a: Step) returns (t: State)
    requires (s == Initial(true) || TameReaches(s)) && PathInv(s) && Enabled(s, a) && Tame(s, a)
    ensures t == Next(s, a) && TameReaches(t) && PathInv(t)
  {
    t := Next(s, a);
    TameKeepsInvariant(s, a);
    var run: seq<Step> := [];
    if s != Initial(true) {
      run :| IsRun(Initial(true), run) && TameRun(Initial(true), run) && After(Initial(true), run) == s;
    }
    Extend(Initial(true), run, a);
  }

  lemma {:induction false} Extend(s: State, run: seq<Step>, a: Step)
    requires IsRun(s, run) && TameRun(s, run) && Enabled(After(s, run), a) && Tame(After(s, run), a)
    ensures IsRun(s, run + [a]) && TameRun(s, run + [a]) && After(s, run + [a]) == Next(After(s, run), a)
    decreases |run|
  {
    if run == [] {
      assert (run + [a])[1..] == [];
    } else {
      Extend(Next(s, run[0]), run[1..], a);
      assert (run + [a])[1..] == run[1..] + [a];
    }
  }

  lemma WriteWhilePaused(s: State)
    requires PathInv(s) && !s.standby && s.playing == PAUSED
    ensures Enabled(s, Write(true, false))
    ensures var t := Next(s, Write(true, false)); Enabled(t, Pause) && Next(t, Pause).faults == 1
  {
  }

  lemma StandbyWhilePausedWithoutEffects(s: State)
    requires !s.fx && HandleInv(s) && !s.standby && s.entries == 0
    ensures Enabled(s, Standby) && Next(s, Standby).faults == s.faults + if s.blocked then 0 else 1
    ensures s.blocked ==> Next(Next(Next(s, Standby), Finish), StandbyEnd).faults == s.faults + 1
  {
  }

  lemma RunFirst(s: State, a: Step, rest: seq<Step>)
    requires Enabled(s, a)
    ensures IsRun(s, [a] + rest) <==> IsRun(Next(s, a), rest)
    ensures IsRun(Next(s, a), rest) ==> After(s, [a] + rest) == After(Next(s, a), rest)
  {
    assert ([a] + rest)[1..] == rest;
  }

  // Runs from the start that come to such a state and on to the fault.
  lemma WriteWhilePausedRun()
    ensures var write := Write(true, false); var run := [write, Pause, write, Pause];
      IsRun(Initial(true), run) && After(Initial(true), run).faults == 1
  {
    var write := Write(true, false);
    var s1 := Next(Initial(true), write);
    var s2 := Next(s1, Pause);
    var s3 := Next(s2, write);
    RunFirst(s3, Pause, []);
    RunFirst(s2, write, [Pause]);
    RunFirst(s1, Pause, [write, Pause]);
    RunFirst(Initial(true), write, [Pause, write, Pause]);
  }

  lemma StandbyWhilePausedRun()
    ensures var run := [Write(true, false), Pause, Standby];
      IsRun(Initial(false), run) && After(Initial(false), run).faults == 1
  {
    var s1 := Next(Initial(false), Write(true, false));
    var s2 := Next(s1, Pause);
    RunFirst(s2, Standby, []);
    RunFirst(s1, Pause, [Standby]);
    RunFirst(Initial(false), Write(true, false), [Pause, Standby]);
  }

  // ----- In place -----

  /** The offload fields of struct stream_out. Each method is the code one thread runs between taking
      and giving up out->lock; the histories are ghost. */
  class StreamOut {
    const fx: bool
    var compr: Option
    var blocked: bool
    var cmds: seq<Cmd>
    var playing: Playing
    var standby: bool
    var standbyWaits: bool
    var flushWaits: nat
    var worker: Worker
    var entries: int
    ghost var faults: nat
    var openings: nat
    ghost var closed: set<Handle>
    ghost var sent: seq<Cmd>
    ghost var taken: seq<Cmd>

    ghost function View(): State
      reads this
    {
      State(fx, compr, blocked, cmds, playing, standby, standbyWaits, flushWaits, worker,
            entries, faults, openings, closed, sent, taken)
    }

    constructor (fx: bool)
      ensures View() == Initial(fx)
    {
      this.fx := fx;
      compr, blocked, cmds, playing, standby := Null, false, [], IDLE, true;
      standbyWaits, flushWaits, worker := false, 0, Asleep;
      entries, faults, openings, closed, sent, taken := 0, 0, 0, {}, [], [];
    }

    method SendOffloadCmd(c: Cmd)
      modifies this`cmds, this`sent
      ensures View() == Send(old(View()), c)
    {
      cmds := cmds + [c];
      sent := sent + [c];
    }

    method EnableOutputPath()
      modifies this`entries, this`faults
      ensures View() == EnablePath(old(View()))
    {
      if entries > 0 { faults := faults + 1; }
      entries := entries + 1;
    }

    method DisableOutputPath()
      modifies this`entries, this`faults
      ensures View() == DisablePath(old(View()))
    {
      if entries == 0 {
        faults := faults + 1;
        return;
      }
      entries := entries - 1;
    }

    method StopOutputStream()
      modifies this`entries, this`faults, this`playing
      ensures View() == StopOutput(old(View()))
    {
      var disable := true;
      if fx {
        if playing == PAUSED || playing == PAUSED_FLUSHED { disable := false; }
        playing := IDLE;
      }
      if disable { DisableOutputPath(); }
    }

    method CompressClose(h: Handle)
      modifies this`closed
      ensures closed == old(closed) + {h}
    {
      closed := closed + {h};
    }

    method StartOutputStream(ready: bool)
      requires standby
      modifies this
      ensures View() == StartOutput(old(View()), ready)
    {
      EnableOutputPath();
      compr := Open(openings);
      openings := openings + 1;
      if !ready {
        CompressClose(compr.handle);
        compr := Null;
        StopOutputStream();
        return;
      }
      standby := false;
    }

    method OutWrite(ready: bool, short: bool)
      requires Enabled(View(), Write(ready, short))
      modifies this
      ensures View() == Next(old(View()), Write(ready, short))
    {
      if standby {
        StartOutputStream(ready);
        if standby {
          return;
        }
      }
      if playing == PAUSED_FLUSHED { EnableOutputPath(); }
      if short { SendOffloadCmd(WaitForBuffer); }
      if playing != PLAYING { playing := PLAYING; }
    }

    method OutPause()
      requires Enabled(View(), Pause)
      modifies this
      ensures View() == Next(old(View()), Pause)
    {
      if compr != Null && playing == PLAYING {
        playing := PAUSED;
        DisableOutputPath();
      }
    }

    method OutResume()
      requires Enabled(View(), Resume)
      modifies this
      ensures View() == Next(old(View()), Resume)
    {
      if compr != Null && playing == PAUSED {
        EnableOutputPath();
        playing := PLAYING;
      }
    }

    // Up to the end of the call, or to the point where the lock is given up.
    method OutFlush() returns (waits: bool)
      modifies this
      ensures View() == Next(old(View()), Flush)
      ensures waits <==> old(playing) == PAUSED && MustWait(old(View()))
    {
      waits := false;
      if playing == PAUSED {
        if compr != Null && blocked {
          waits := true;
          flushWaits := flushWaits + 1;
        } else {
          playing := PAUSED_FLUSHED;
        }
      }
    }

    method OutFlushEnd()
      requires Enabled(View(), FlushEnd)
      modifies this
      ensures View() == Next(old(View()), FlushEnd)
    {
      flushWaits := flushWaits - 1;
      playing := PAUSED_FLUSHED;
    }

    method OutStandby() returns (waits: bool)
      requires Enabled(View(), Standby)
      modifies this
      ensures View() == Next(old(View()), Standby)
      ensures waits <==> !old(standby) && MustWait(old(View()))
    {
      waits := false;
      if !standby {
        standby := true;
        if compr != Null && blocked {
          waits := true;
          standbyWaits := true;
        } else {
          FinishStandby();
        }
      }
    }

    method FinishStandby()
      modifies this
      ensures View() == CloseAndStop(old(View())).(standby := old(standby))
    {
      if compr != Null {
        CompressClose(compr.handle);
        compr := Null;
      }
      StopOutputStream();
      standbyWaits := false;
    }

    method OutStandbyEnd()
      requires Enabled(View(), StandbyEnd) && standby
      modifies this
      ensures View() == Next(old(View()), StandbyEnd)
    {
      FinishStandby();
    }

    // The worker takes one command; after EXIT it throws the rest of the queue away.
    method WorkerTake()
      requires Enabled(View(), Take)
      modifies this
      ensures View() == Next(old(View()), Take)
    {
      var cmd := cmds[0];
      cmds := cmds[1..];
      taken := taken + [cmd];
      if cmd == Exit {
        while cmds != []
          invariant View() == old(View()).(cmds := cmds, taken := old(taken) + [Exit])
          decreases |cmds|
        {
          cmds := cmds[1..];
        }
        worker := Exited;
        return;
      }
      if compr == Null {
        return;
      }
      blocked := true;
      worker := Using(cmd, compr.handle);
    }

    method WorkerFinish()
      requires Enabled(View(), Finish)
      modifies this
      ensures View() == Next(old(View()), Finish)
    {
      blocked := false;
      worker := Asleep;
    }
  }
}
