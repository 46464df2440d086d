/** The capture path of audio/audio_hw.c without resampler and pre-processors: whole periods come
    from the driver, callers take any number of frames at a time, and extra hardware channels are
    cut off. Buffers are counted in frames; a frame is its samples, one per channel. */
module Capture {

  const EINVAL := -22
  const ENODEV := -19

  datatype Frame = Frame(samples: seq<int>)

  // One pcm_read: a period of frames, or an error status.
  datatype PcmResult = Period(frames: seq<Frame>) | Failed(status: int)

  // What pcm_read returns, call by call; past the end the device is gone.
  type Driver = seq<PcmResult>

  function At(driver: Driver, i: nat): PcmResult {
    if i < |driver| then driver[i] else Failed(ENODEV)
  }

  // Every read gives a full period or a negative status.
  ghost predicate Sound(driver: Driver, period: nat) {
    period > 0 && forall i :: 0 <= i < |driver| ==> Full(driver[i], period)
  }

  predicate Full(r: PcmResult, period: nat) {
    match r
    case Period(frames) => |frames| == period
    case Failed(status) => status < 0
  }

  // ----- Specification: one stream cut into slices -----

  // What the driver delivered but no caller has taken yet, and how often the driver was read.
  datatype Source = Source(pending: seq<Frame>, done: nat)

  // What one read call returns and leaves behind.
  datatype Slice = Slice(status: int, frames: seq<Frame>, source: Source)

  // None of the reads number i up to j failed.
  predicate AllPeriods(driver: Driver, i: nat, j: nat) {
    forall k :: i <= k < j ==> At(driver, k).Period?
  }

  function Periods(driver: Driver, i: nat, j: nat): seq<Frame>
    requires i <= j && AllPeriods(driver, i, j)
    decreases j
  {
    if i == j then [] else Periods(driver, i, j - 1) + At(driver, j - 1).frames
  }

  // A successful read has the size asked for, and nothing is lost or repeated: what was pending plus
  // what the driver delivered is what the caller got plus what is pending now. A failed one reports
  // the driver's own status, and only when the frames before it did not suffice. Never is a whole period or more
  // held back.
  predicate Cuts(driver: Driver, period: nat, src: Source, need: nat, r: Slice) {
    && src.done <= r.source.done
    && (|src.pending| < period ==> |r.source.pending| < period)
    && (r.status == 0 ==>
          && |r.frames| == need
          && AllPeriods(driver, src.done, r.source.done)
          && src.pending + Periods(driver, src.done, r.source.done) == r.frames + r.source.pending)
    && (r.status != 0 ==> r.source.pending == [] && src.done < r.source.done
                          && At(driver, r.source.done - 1) == Failed(r.status)
                          && AllPeriods(driver, src.done, r.source.done - 1)
                          && |src.pending| + |Periods(driver, src.done, r.source.done - 1)| < need)
  }

  // There is only one way to cut: the relation determines the outcome of every read.
  lemma CutsOnce(driver: Driver, period: nat, src: Source, need: nat, r: Slice, q: Slice)
    requires Sound(driver, period) && |src.pending| < period
    requires Cuts(driver, period, src, need, r) && Cuts(driver, period, src, need, q)
    ensures r.status == q.status && r.source == q.source && (r.status == 0 ==> r.frames == q.frames)
  {
    CutsNoFurther(driver, period, src, need, r, q);
    CutsNoFurther(driver, period, src, need, q, r);
    if r.status == 0 && q.status == 0 {
      assert r.frames == (r.frames + r.source.pending)[..need] == q.frames;
      assert r.source.pending == (r.frames + r.source.pending)[need..] == q.source.pending;
    }
  }

  // Nothing is read ahead.
  lemma CutsNoFurther(driver: Driver, period: nat, src: Source, need: nat, r: Slice, q: Slice)
    requires Sound(driver, period) && |src.pending| < period
    requires Cuts(driver, period, src, need, r) && Cuts(driver, period, src, need, q)
    ensures q.source.done <= r.source.done
  {
    var a, b, c := src.done, r.source.done, q.source.done;
    if b < c && r.status == 0 {
      PeriodsSplit(driver, a, b, c - 1);
    }
  }

  // ----- Any sequence of successful reads -----

  // rs are the results of successful reads of the given sizes, one after the other.
  predicate Chain(driver: Driver, period: nat, src: Source, needs: seq<nat>, rs: seq<Slice>) {
    && |needs| == |rs|
    && (rs == [] ||
        var n := |rs| - 1;
        && Chain(driver, period, src, needs[..n], rs[..n])
        && rs[n].status == 0
        && Cuts(driver, period, Last(src, rs[..n]), needs[n], rs[n]))
  }

  function Sum(needs: seq<nat>): nat {
    if needs == [] then 0 else Sum(needs[..|needs| - 1]) + needs[|needs| - 1]
  }

  function Joined(rs: seq<Slice>): seq<Frame> {
    if rs == [] then [] else Joined(rs[..|rs| - 1]) + rs[|rs| - 1].frames
  }

  function Last(src: Source, rs: seq<Slice>): Source {
    if rs == [] then src else rs[|rs| - 1].source
  }

  lemma {:induction false} PeriodsSplit(driver: Driver, i: nat, j: nat, k: nat)
    requires i <= j <= k && AllPeriods(driver, i, k)
    ensures Periods(driver, i, k) == Periods(driver, i, j) + Periods(driver, j, k)
    decreases k
  {
    if j < k {
      PeriodsSplit(driver, i, j, k - 1);
      assert Periods(driver, i, j) + (Periods(driver, j, k - 1) + At(driver, k - 1).frames)
          == Periods(driver, i, j) + Periods(driver, j, k - 1) + At(driver, k - 1).frames;
    } else {
      assert Periods(driver, i, j) + [] == Periods(driver, i, j);
    }
  }

  // Two reads in a row are one read of both sizes.
  lemma CutsCompose(driver: Driver, period: nat, src: Source, m: nat, r: Slice, n: nat, q: Slice)
    requires r.status == 0 && q.status == 0
    requires Cuts(driver, period, src, m, r) && Cuts(driver, period, r.source, n, q)
    ensures Cuts(driver, period, src, m + n, Slice(0, r.frames + q.frames, q.source))
  {
    var a, b, c := src.done, r.source.done, q.source.done;
    assert AllPeriods(driver, a, c) by {
      forall k | a <= k < c ensures At(driver, k).Period? { assert k < b || b <= k; }
    }
    PeriodsSplit(driver, a, b, c);
    calc {
      src.pending + Periods(driver, a, c);
      src.pending + Periods(driver, a, b) + Periods(driver, b, c);
      r.frames + r.source.pending + Periods(driver, b, c);
      r.frames + (r.source.pending + Periods(driver, b, c));
      r.frames + q.frames + q.source.pending;
    }
  }

  lemma CutsThenFails(driver: Driver, period: nat, src: Source, m: nat, r: Slice, n: nat, q: Slice)
    requires r.status == 0 && q.status != 0
    requires Cuts(driver, period, src, m, r) && Cuts(driver, period, r.source, n, q)
    ensures Cuts(driver, period, src, m + n, q)
  {
    var a, b, c := src.done, r.source.done, q.source.done - 1;
    assert AllPeriods(driver, a, c) by {
      forall k | a <= k < c ensures At(driver, k).Period? { assert k < b || b <= k; }
    }
    PeriodsSplit(driver, a, b, c);
    assert |src.pending + Periods(driver, a, b)| == |r.frames + r.source.pending|;
  }

  lemma {:induction false} ChainCuts(driver: Driver, period: nat, src: Source, needs: seq<nat>, rs: seq<Slice>)
    requires Chain(driver, period, src, needs, rs)
    ensures Cuts(driver, period, src, Sum(needs), Slice(0, Joined(rs), Last(src, rs)))
    decreases |rs|
  {
    if rs == [] {
      assert src.pending + [] == [] + src.pending;
    } else {
      var n := |rs| - 1;
      ChainCuts(driver, period, src, needs[..n], rs[..n]);
      CutsCompose(driver, period, src, Sum(needs[..n]), Slice(0, Joined(rs[..n]), Last(src, rs[..n])), needs[n], rs[n]);
    }
  }

  // ----- Channel stripping -----

  // Main channels come first in a frame.
  function MainOf(f: Frame, main: nat): Frame {
    if main < |f.samples| then Frame(f.samples[..main]) else f
  }

  function Strip(frames: seq<Frame>, main: nat): (r: seq<Frame>)
    ensures |r| == |frames| && forall i :: 0 <= i < |r| ==> r[i] == MainOf(frames[i], main)
  {
    seq(|frames|, i requires 0 <= i < |frames| => MainOf(frames[i], main))
  }

  // What is kept of frame f: as many samples as there are main channels, and sample by sample the leading ones.
  predicate LeadingKept(out: seq<Frame>, frames: seq<Frame>, main: nat) {
    |out| == |frames| &&
    forall f :: 0 <= f < |frames| && main <= |frames[f].samples| ==>
      |out[f].samples| == main && forall ch :: 0 <= ch < main ==> out[f].samples[ch] == frames[f].samples[ch]
  }

  lemma StripKeepsLeading(frames: seq<Frame>, main: nat)
    ensures LeadingKept(Strip(frames, main), frames, main)
  {
  }

  function JoinedStripped(rs: seq<Slice>, main: nat): seq<Frame> {
    if rs == [] then [] else JoinedStripped(rs[..|rs| - 1], main) + Strip(rs[|rs| - 1].frames, main)
  }

  lemma {:induction false} StripJoined(rs: seq<Slice>, main: nat)
    ensures JoinedStripped(rs, main) == Strip(Joined(rs), main)
    decreases |rs|
  {
    if rs != [] {
      StripJoined(rs[..|rs| - 1], main);
    }
  }

  // The promise of the capture path: whatever sizes the reads have, the f-th frame ever returned is the
  // f-th frame the driver ever delivered, cut to the main channels, and less than a period is held back.
  lemma EveryFrameOnce(driver: Driver, period: nat, main: nat, needs: seq<nat>, rs: seq<Slice>)
    requires period > 0 && Chain(driver, period, Source([], 0), needs, rs)
    ensures var out := JoinedStripped(rs, main); var done := Last(Source([], 0), rs).done;
      && AllPeriods(driver, 0, done)
      && |out| == Sum(needs) <= |Periods(driver, 0, done)| < Sum(needs) + period
      && (forall f :: 0 <= f < Sum(needs) ==> out[f] == MainOf(Periods(driver, 0, done)[f], main))
      && LeadingKept(out, Periods(driver, 0, done)[..Sum(needs)], main)
  {
    ChainCuts(driver, period, Source([], 0), needs, rs);
    StripJoined(rs, main);
    var delivered := Periods(driver, 0, Last(Source([], 0), rs).done);
    assert delivered == [] + delivered;
    StripKeepsLeading(delivered[..Sum(needs)], main);
    assert JoinedStripped(rs, main) == Strip(delivered[..Sum(needs)], main);
  }

  // ----- In place -----

  // A resampler_buffer: nothing, or the frames its pointer and count denote.
  datatype Chunk = NoChunk | Chunk(frames: seq<Frame>)

  datatype Shape = Shape(period: nat, channels: nat, main: nat)

  /** The capture half of struct stream_in. pcm_read fills read_buf as a whole. */
  class StreamIn {
    const shape: Shape
    const driver: Driver
    const open: bool          // the pcm device list is not empty
    var done: nat
    var readBuf: seq<Frame>
    var readBufFrames: nat
    var readStatus: int

    ghost predicate Valid()
      reads this
    {
      && Sound(driver, shape.period)
      && readBufFrames <= shape.period
      && (readBufFrames > 0 ==> |readBuf| == shape.period && (open ==> readStatus == 0))
    }

    // The part of the last period that has not been handed out, and the reads so far.
    ghost function View(): (s: Source)
      reads this
      requires Valid()
      ensures |s.pending| == readBufFrames && s.done == done
    {
      Source(if readBufFrames == 0 then [] else readBuf[shape.period - readBufFrames..], done)
    }

    constructor (shape: Shape, driver: Driver, open: bool)
      requires Sound(driver, shape.period)
      ensures Valid() && View() == Source([], 0)
      ensures this.shape == shape && this.driver == driver && this.open == open
    {
      this.shape, this.driver, this.open := shape, driver, open;
      done, readBuf, readBufFrames, readStatus := 0, [], 0, 0;
    }

    method GetNextBuffer(want: nat) returns (c: Chunk)
      requires Valid()
      modifies this
      ensures Valid()
      ensures c.NoChunk? <==> !open || (old(readBufFrames) == 0 && At(driver, old(done)).Failed?)
      ensures !open ==> View() == old(View()) && readStatus == ENODEV
      ensures open && c.NoChunk? ==> View() == Source([], old(done) + 1) && At(driver, old(done)) == Failed(readStatus)
      ensures c.Chunk? && old(readBufFrames) > 0 ==> View() == old(View())
      ensures c.Chunk? && old(readBufFrames) == 0 ==> View() == Source(At(driver, old(done)).frames, old(done) + 1)
      ensures c.Chunk? ==> readStatus == 0 && readBufFrames > 0
      ensures c.Chunk? ==> c.frames == View().pending[..if want > readBufFrames then readBufFrames else want]
    {
      if !open {
        readStatus := ENODEV;
        return NoChunk;
      }
      if readBufFrames == 0 {
        var r := At(driver, done);
        done := done + 1;
        if r.Failed? {
          readStatus := r.status;
          return NoChunk;
        }
        readStatus := 0;
        readBuf := r.frames;
        readBufFrames := shape.period;
      }
      var start := shape.period - readBufFrames;
      return Chunk(readBuf[start..start + if want > readBufFrames then readBufFrames else want]);
    }

    method ReleaseBuffer(count: nat)
      requires Valid() && count <= readBufFrames
      modifies this`readBufFrames
      ensures Valid() && View() == Source(old(View()).pending[count..], done)
    {
      readBufFrames := readBufFrames - count;
    }

    // One round of the copy loop: at least one frame is cut off, or the driver's error ends the read.
    method TakeChunk(need: nat) returns (c: Chunk)
      requires Valid() && open && need > 0
      modifies this
      ensures Valid()
      ensures c.NoChunk? ==> Cuts(driver, shape.period, old(View()), need, Slice(readStatus, [], View()))
      ensures c.NoChunk? ==> readStatus < 0
      ensures c.Chunk? ==> readStatus == 0 && 0 < |c.frames| <= need
      ensures c.Chunk? ==> Cuts(driver, shape.period, old(View()), |c.frames|, Slice(0, c.frames, View()))
    {
      c := GetNextBuffer(need);
      if c.Chunk? {
        ghost var src := View();
        ReleaseBuffer(|c.frames|);
        assert src.pending == c.frames + View().pending;
        CutsFirst(driver, shape.period, old(View()), src, c.frames, View());
      }
    }

    // The same after n frames have been cut from the source: together one cut.
    method TakeMore(ghost from: Source, ghost got: seq<Frame>, ghost n: nat, need: nat) returns (c: Chunk)
      requires Valid() && open && need > 0 && Cuts(driver, shape.period, from, n, Slice(0, got, View()))
      modifies this
      ensures Valid()
      ensures c.NoChunk? ==> readStatus < 0 && Cuts(driver, shape.period, from, n + need, Slice(readStatus, [], View()))
      ensures c.Chunk? ==> 0 < |c.frames| <= need
      ensures c.Chunk? ==> Cuts(driver, shape.period, from, n + |c.frames|, Slice(0, got + c.frames, View()))
    {
      ghost var src := View();
      c := TakeChunk(need);
      if c.NoChunk? {
        CutsThenFails(driver, shape.period, from, n, Slice(0, got, src), need, Slice(readStatus, [], View()));
      } else {
        CutsCompose(driver, shape.period, from, n, Slice(0, got, src), |c.frames|, Slice(0, c.frames, View()));
      }
    }

    method ReadFrames(buffer: array<Frame>, frames: nat) returns (n: int)
      requires Valid() && buffer.Length >= frames
      modifies this, buffer
      ensures Valid()
      ensures !open ==> n == EINVAL && View() == old(View())
      ensures open ==> n == frames || n < 0
      ensures open && n == frames ==>
        Cuts(driver, shape.period, old(View()), frames, Slice(0, buffer[..frames], View()))
      ensures open && n < 0 ==> Cuts(driver, shape.period, old(View()), frames, Slice(n, [], View()))
    {
      if !open {
        return EINVAL;
      }
      n := 0;
      ghost var from, got := View(), [];
      assert View().pending + [] == [] + View().pending;
      while n < frames
        invariant Valid() && 0 <= n <= frames
        invariant buffer[..n] == got
        invariant Cuts(driver, shape.period, from, n, Slice(0, got, View()))
      {
        var c := TakeMore(from, got, n, frames - n);
        if c.NoChunk? {
          return readStatus;
        }
        CopyFrames(c.frames, buffer, n);
        n, got := n + |c.frames|, got + c.frames;
      }
    }

    // read_and_process_frames with no effects attached.
    method ReadAndProcessFrames(buffer: array<Frame>, frames: nat) returns (n: int, ghost raw: seq<Frame>)
      requires Valid() && buffer.Length >= frames
      modifies this, buffer
      ensures Valid()
      ensures !open ==> n == EINVAL && View() == old(View()) && buffer[..] == old(buffer[..])
      ensures open ==> n == frames || n < 0
      ensures open && n == frames ==> Cuts(driver, shape.period, old(View()), frames, Slice(0, raw, View()))
      ensures open && n == frames ==>
        buffer[..frames] == if shape.main == shape.channels then raw else Strip(raw, shape.main)
      ensures open && n == frames && shape.main != shape.channels ==> LeadingKept(buffer[..frames], raw, shape.main)
      ensures open && n < 0 ==> Cuts(driver, shape.period, old(View()), frames, Slice(n, [], View()))
    {
      raw := [];
      if !open {
        return EINVAL, [];
      }
      if shape.main == shape.channels {
        n := ReadFrames(buffer, frames);
        raw := buffer[..frames];
        return;
      }
      var procBufOut := new Frame[frames](_ => Frame([]));
      n := ReadFrames(procBufOut, frames);
      raw := procBufOut[..frames];
      if n > 0 {
        StripChannels(procBufOut, buffer, shape.main, n);
      }
    }
  }

  // The first cut after an optional refill.
  lemma CutsFirst(driver: Driver, period: nat, src: Source, refilled: Source, frames: seq<Frame>, left: Source)
    requires period > 0 && frames != [] && refilled.pending == frames + left.pending && left.done == refilled.done
    requires |refilled.pending| <= period
    requires refilled == src || (src.pending == [] && At(driver, src.done).Period?
                                 && refilled == Source(At(driver, src.done).frames, src.done + 1))
    ensures Cuts(driver, period, src, |frames|, Slice(0, frames, left))
  {
  }

  // Without additional channels stripping would change nothing.
  lemma NothingToStrip(frames: seq<Frame>, main: nat)
    requires forall i :: 0 <= i < |frames| ==> |frames[i].samples| == main
    ensures Strip(frames, main) == frames
  {
  }

  // memcpy into a buffer at an offset.
  method CopyFrames(src: seq<Frame>, dst: array<Frame>, at: nat)
    requires at + |src| <= dst.Length
    modifies dst
    ensures dst[..at + |src|] == old(dst[..at]) + src
  {
    forall k | at <= k < at + |src| {
      dst[k] := src[k - at];
    }
  }

  // Copy the leading main channels of every frame.
  method StripChannels(src: array<Frame>, dst: array<Frame>, main: nat, frames: nat)
    requires src != dst && frames <= src.Length && frames <= dst.Length
    modifies dst
    ensures dst[..frames] == Strip(src[..frames], main)
    ensures LeadingKept(dst[..frames], src[..frames], main)
  {
    var i := 0;
    while i < frames
      invariant i <= frames
      invariant forall j :: 0 <= j < i ==> dst[j] == MainOf(src[j], main)
    {
      dst[i] := MainOf(src[i], main);
      i := i + 1;
    }
    StripKeepsLeading(src[..frames], main);
  }
}
