/** The throttling severity of aidl/thermal/thermal-helper.cpp: thresholds with hysteresis, applied to one sensor
    reading after another. Temperatures are real numbers; a threshold that is not a number is absent. */
module Thermal {
  import opened Options

  // NONE to SHUTDOWN.
  const SEVERITIES := 7

  type Severity = x: nat | x < SEVERITIES

  // Thresholds and hysteresis per severity; the entries for NONE are not used.
  datatype Levels = Levels(thresholds: seq<Option<real>>, hysteresis: seq<real>)

  predicate Shaped(l: Levels) {
    |l.thresholds| == |l.hysteresis| == SEVERITIES
  }

  // Severity i is reached at v; severity i is not yet left at v.
  predicate Reached(l: Levels, i: nat, v: real)
    requires Shaped(l)
  {
    0 < i < SEVERITIES && l.thresholds[i].Some? && l.thresholds[i].value <= v
  }

  predicate Kept(l: Levels, i: nat, v: real)
    requires Shaped(l)
  {
    0 < i < SEVERITIES && l.thresholds[i].Some? && l.thresholds[i].value - l.hysteresis[i] < v
  }

  // The highest severity up to i that is reached, and that is kept.
  function Raw(l: Levels, v: real, i: Severity): (s: Severity)
    requires Shaped(l)
    ensures s <= i && (s > 0 ==> Reached(l, s, v)) && forall j :: s < j <= i ==> !Reached(l, j, v)
  {
    if i == 0 || Reached(l, i, v) then i else Raw(l, v, i - 1)
  }

  function Held(l: Levels, v: real, i: Severity): (s: Severity)
    requires Shaped(l)
    ensures s <= i && (s > 0 ==> Kept(l, s, v)) && forall j :: s < j <= i ==> !Kept(l, j, v)
  {
    if i == 0 || Kept(l, i, v) then i else Held(l, v, i - 1)
  }

  const SHUTDOWN: Severity := 6

  // The severity that follows prev on a reading of v.
  function Next(l: Levels, prev: Severity, v: real): Severity
    requires Shaped(l)
  {
    var raw := Raw(l, v, SHUTDOWN);
    if raw < prev then Held(l, v, SHUTDOWN) else raw
  }

  // ----- Accepted configurations -----

  // Nothing but gaps between i and j.
  predicate Adjacent(l: Levels, i: nat, j: nat)
    requires Shaped(l)
  {
    && i < j < SEVERITIES && l.thresholds[i].Some? && l.thresholds[j].Some?
    && forall k :: i < k < j ==> l.thresholds[k].None?
  }

  // Thresholds increase, and none lies above the next one less its hysteresis.
  ghost predicate Accepted(l: Levels) {
    && Shaped(l)
    && (forall i, j :: 0 <= i < j < SEVERITIES && l.thresholds[i].Some? && l.thresholds[j].Some? ==>
          l.thresholds[i].value <= l.thresholds[j].value)
    && (forall i: nat, j: nat :: Adjacent(l, i, j) ==> l.thresholds[i].value <= l.thresholds[j].value - l.hysteresis[j])
  }

  // Hence any two levels are apart by the hysteresis of the higher.
  lemma {:induction false} LevelsApart(l: Levels, i: nat, j: nat, k: nat)
    requires Accepted(l) && i < j < SEVERITIES && l.thresholds[i].Some? && l.thresholds[j].Some?
    requires i <= k < j && forall m :: k < m < j ==> l.thresholds[m].None?
    ensures l.thresholds[i].value <= l.thresholds[j].value - l.hysteresis[j]
    decreases k
  {
    if l.thresholds[k].Some? {
      assert Adjacent(l, k, j);
    } else {
      LevelsApart(l, i, j, k - 1);
    }
  }

  // ----- One reading -----

  // A severity other than NONE always has a threshold.
  predicate Grounded(l: Levels, s: Severity)
    requires Shaped(l)
  {
    s > 0 ==> l.thresholds[s].Some?
  }

  // For any configuration: a severity is left downward only at or below its threshold less its hysteresis.
  lemma DropsOnlyBelowHysteresis(l: Levels, prev: Severity, v: real)
    requires Shaped(l) && Grounded(l, prev) && Next(l, prev, v) < prev
    ensures v <= l.thresholds[prev].value - l.hysteresis[prev] && v < l.thresholds[prev].value
  {
    assert !Reached(l, prev, v);
    assert !Kept(l, prev, v);
  }

  // Above a kept severity nothing is kept that is not reached.
  lemma HeldAtMostPrev(l: Levels, prev: Severity, v: real)
    requires Accepted(l) && Grounded(l, prev) && Raw(l, v, SHUTDOWN) < prev
    ensures Held(l, v, SHUTDOWN) <= prev
  {
    var h := Held(l, v, SHUTDOWN);
    if h > prev {
      LevelsApart(l, prev, h, h - 1);
      assert Reached(l, prev, v);
      assert false;
    }
  }

  // For an accepted configuration: a reading never takes the severity above both the old and the raw one.
  lemma NeverOvershoots(l: Levels, prev: Severity, v: real)
    requires Accepted(l) && Grounded(l, prev)
    ensures Next(l, prev, v) <= prev || Next(l, prev, v) == Raw(l, v, SHUTDOWN)
  {
    if Raw(l, v, SHUTDOWN) < prev {
      HeldAtMostPrev(l, prev, v);
    }
  }

  // For an accepted configuration: a severity stays exactly when no higher one is reached and its own is reached
  // or kept.
  lemma StaysExactly(l: Levels, prev: Severity, v: real)
    requires Accepted(l) && Grounded(l, prev) && prev > 0
    ensures Next(l, prev, v) == prev <==>
      (forall i :: prev < i < SEVERITIES ==> !Reached(l, i, v)) && (Reached(l, prev, v) || Kept(l, prev, v))
  {
    if Raw(l, v, SHUTDOWN) < prev {
      HeldAtMostPrev(l, prev, v);
    }
  }

  // It falls exactly when neither.
  lemma FallsExactly(l: Levels, prev: Severity, v: real)
    requires Accepted(l) && Grounded(l, prev) && prev > 0
    ensures Next(l, prev, v) < prev <==>
      (forall i :: prev <= i < SEVERITIES ==> !Reached(l, i, v)) && !Kept(l, prev, v)
  {
    if Raw(l, v, SHUTDOWN) < prev {
      HeldAtMostPrev(l, prev, v);
    }
  }

  // For any configuration: a reading that reaches the old severity or a higher one gives the highest reached; any other
  // gives the highest kept.
  lemma FollowsExactly(l: Levels, prev: Severity, v: real)
    requires Shaped(l)
    ensures var n := Next(l, prev, v);
      if prev == 0 || exists i :: prev <= i < SEVERITIES && Reached(l, i, v)
      then (n > 0 ==> Reached(l, n, v)) && forall j :: n < j < SEVERITIES ==> !Reached(l, j, v)
      else (n > 0 ==> Kept(l, n, v)) && forall j :: n < j < SEVERITIES ==> !Kept(l, j, v)
  {
    var raw := Raw(l, v, SHUTDOWN);
    assert raw > 0 ==> Reached(l, raw, v);
  }

  // For any configuration: a reading ends below the raw severity exactly when it falls to there and nothing from the
  // raw severity up is kept.
  lemma BelowRawExactly(l: Levels, prev: Severity, v: real)
    requires Shaped(l)
    ensures var raw := Raw(l, v, SHUTDOWN);
      Next(l, prev, v) < raw <==> 0 < raw < prev && forall j :: raw <= j < SEVERITIES ==> !Kept(l, j, v)
  {
  }

  // In an accepted configuration without negative hysteresis that is a reading that hits a threshold without
  // hysteresis: the comparison for keeping a severity is strict.
  lemma BelowRawOnThreshold(l: Levels, prev: Severity, v: real)
    requires Accepted(l) && Grounded(l, prev) && forall i :: 0 <= i < SEVERITIES ==> l.hysteresis[i] >= 0.0
    ensures var raw := Raw(l, v, SHUTDOWN);
      Next(l, prev, v) < raw <==> 0 < raw < prev && l.hysteresis[raw] == 0.0 && l.thresholds[raw].value == v
  {
    var raw, held := Raw(l, v, SHUTDOWN), Held(l, v, SHUTDOWN);
    if raw > 0 && held < raw {
      assert !Kept(l, raw, v);
    }
    if 0 < raw < held && l.thresholds[raw].value == v {
      LevelsApart(l, raw, held, held - 1);
    }
  }

  // Hysteresis may be negative in an accepted configuration, and then other readings do it too.
  lemma NegativeHysteresisFallsFurther()
    ensures var l := Levels(
      [None, Some(10.0), Some(20.0), None, None, None, None], [0.0, -5.0, 0.0, 0.0, 0.0, 0.0, 0.0]);
      Accepted(l) && Raw(l, 12.0, SHUTDOWN) == 1 && Next(l, 2, 12.0) == 0
  {
    var l := Levels([None, Some(10.0), Some(20.0), None, None, None, None], [0.0, -5.0, 0.0, 0.0, 0.0, 0.0, 0.0]);
    assert !Reached(l, 2, 12.0) && Reached(l, 1, 12.0);
    assert forall j | 1 <= j < SEVERITIES :: !Kept(l, j, 12.0);
    BelowRawExactly(l, 2, 12.0);
  }

  // ----- Runs of readings -----

  function After(l: Levels, values: seq<real>): Severity
    requires Shaped(l)
  {
    if values == [] then 0 else Next(l, After(l, values[..|values| - 1]), values[|values| - 1])
  }

  lemma AfterIsGrounded(l: Levels, values: seq<real>)
    requires Shaped(l)
    ensures Grounded(l, After(l, values))
  {
  }

  predicate InBand(l: Levels, s: Severity, v: real)
    requires Shaped(l)
  {
    Kept(l, s, v) && forall i :: s < i < SEVERITIES ==> !Reached(l, i, v)
  }

  lemma AfterOneMore(l: Levels, values: seq<real>, v: real)
    requires Shaped(l)
    ensures After(l, values + [v]) == Next(l, After(l, values), v)
  {
  }

  lemma {:induction false} Unmoved(l: Levels, values: seq<real>, more: seq<real>)
    requires Shaped(l)
    requires forall n :: 0 <= n < |more| ==> Next(l, After(l, values), more[n]) == After(l, values)
    ensures After(l, values + more) == After(l, values)
    decreases |more|
  {
    if more == [] {
      assert values + more == values;
    } else {
      var n := |more| - 1;
      Unmoved(l, values, more[..n]);
      assert values + more == (values + more[..n]) + [more[n]];
      AfterOneMore(l, values + more[..n], more[n]);
    }
  }

  // Over every run of readings: while they stay inside the band of the severity reached, it does not change.
  lemma SteadyInBand(l: Levels, values: seq<real>, more: seq<real>)
    requires Accepted(l) && After(l, values) > 0
    requires forall n :: 0 <= n < |more| ==> InBand(l, After(l, values), more[n])
    ensures After(l, values + more) == After(l, values)
  {
    AfterIsGrounded(l, values);
    forall n | 0 <= n < |more|
      ensures Next(l, After(l, values), more[n]) == After(l, values)
    {
      assert InBand(l, After(l, values), more[n]);
      StaysExactly(l, After(l, values), more[n]);
    }
    Unmoved(l, values, more);
  }

  // Over every run of readings: a fall from k happens only on a reading at or below k's threshold less hysteresis.
  lemma FallsOnlyBelowHysteresis(l: Levels, values: seq<real>, v: real)
    requires Shaped(l) && After(l, values + [v]) < After(l, values)
    ensures var k := After(l, values); l.thresholds[k].Some? && v <= l.thresholds[k].value - l.hysteresis[k]
  {
    AfterOneMore(l, values, v);
    AfterIsGrounded(l, values);
    DropsOnlyBelowHysteresis(l, After(l, values), v);
  }

  // ----- The cold side -----

  // Cold thresholds are hot ones upside down.
  function Mirror(l: Levels): (m: Levels)
    ensures |m.thresholds| == |l.thresholds| && m.hysteresis == l.hysteresis
  {
    Levels(seq(|l.thresholds|, i requires 0 <= i < |l.thresholds| => Negated(l.thresholds[i])), l.hysteresis)
  }

  function Negated(t: Option<real>): Option<real> {
    if t.Some? then Some(-t.value) else None
  }

  function AfterCold(l: Levels, values: seq<real>): Severity
    requires Shaped(l)
  {
    if values == [] then 0 else Next(Mirror(l), AfterCold(l, values[..|values| - 1]), -values[|values| - 1])
  }

  lemma AfterColdOneMore(l: Levels, values: seq<real>, v: real)
    requires Shaped(l)
    ensures AfterCold(l, values + [v]) == Next(Mirror(l), AfterCold(l, values), -v)
  {
  }

  function Negatives(values: seq<real>): (r: seq<real>)
    ensures |r| == |values| && forall i :: 0 <= i < |r| ==> r[i] == -values[i]
  {
    seq(|values|, i requires 0 <= i < |values| => -values[i])
  }

  // A run of readings on the cold side is the run of their negatives on the mirrored levels.
  lemma {:induction false} ColdRunMirrors(l: Levels, values: seq<real>)
    requires Shaped(l)
    ensures AfterCold(l, values) == After(Mirror(l), Negatives(values))
    decreases |values|
  {
    if values != [] {
      var n := |values| - 1;
      ColdRunMirrors(l, values[..n]);
      assert Negatives(values)[..n] == Negatives(values[..n]);
    }
  }

  // In temperatures: cold severity i is reached at or below its threshold, and kept below threshold plus hysteresis.
  lemma ColdMeans(l: Levels, i: nat, v: real)
    requires Shaped(l) && 0 < i < SEVERITIES
    ensures Reached(Mirror(l), i, -v) <==> l.thresholds[i].Some? && v <= l.thresholds[i].value
    ensures Kept(Mirror(l), i, -v) <==> l.thresholds[i].Some? && v < l.thresholds[i].value + l.hysteresis[i]
  {
    assert Mirror(l).thresholds[i] == Negated(l.thresholds[i]);
  }

  // Over every run of readings: a cold severity k is left downward only at or above threshold[k] + hysteresis[k].
  lemma ColdFallsOnlyAboveHysteresis(l: Levels, values: seq<real>, v: real)
    requires Shaped(l) && AfterCold(l, values + [v]) < AfterCold(l, values)
    ensures var k := AfterCold(l, values); l.thresholds[k].Some? && v >= l.thresholds[k].value + l.hysteresis[k]
  {
    AfterColdOneMore(l, values, v);
    ColdRunMirrors(l, values);
    AfterIsGrounded(Mirror(l), Negatives(values));
    ColdDrops(l, AfterCold(l, values), v);
  }

  lemma ColdDrops(l: Levels, prev: Severity, v: real)
    requires Shaped(l) && Grounded(Mirror(l), prev) && Next(Mirror(l), prev, -v) < prev
    ensures l.thresholds[prev].Some? && v >= l.thresholds[prev].value + l.hysteresis[prev]
  {
    DropsOnlyBelowHysteresis(Mirror(l), prev, -v);
    assert Mirror(l).thresholds[prev] == Negated(l.thresholds[prev]);
  }

  // What is accepted of cold levels: thresholds decrease, and none lies below the next one plus its hysteresis.
  ghost predicate AcceptedCold(l: Levels) {
    && Shaped(l)
    && (forall i, j :: 0 <= i < j < SEVERITIES && l.thresholds[i].Some? && l.thresholds[j].Some? ==>
          l.thresholds[i].value >= l.thresholds[j].value)
    && (forall i: nat, j: nat :: Adjacent(l, i, j) ==> l.thresholds[i].value >= l.thresholds[j].value + l.hysteresis[j])
  }

  // So all that holds of accepted hot levels holds of accepted cold ones.
  lemma ColdMirrorsHot(l: Levels)
    ensures AcceptedCold(l) <==> Accepted(Mirror(l))
  {
    var m := Mirror(l);
    if Shaped(l) {
      forall i: nat, j: nat
        ensures Adjacent(l, i, j) <==> Adjacent(m, i, j)
      {
        assert i < j < SEVERITIES ==> forall k :: i < k < j ==> (l.thresholds[k].None? <==> m.thresholds[k].None?);
      }
      if Accepted(m) {
        forall i, j | 0 <= i < j < SEVERITIES && l.thresholds[i].Some? && l.thresholds[j].Some?
          ensures l.thresholds[i].value >= l.thresholds[j].value
        {
          assert m.thresholds[i].value <= m.thresholds[j].value;
        }
        forall i: nat, j: nat | Adjacent(l, i, j)
          ensures l.thresholds[i].value >= l.thresholds[j].value + l.hysteresis[j]
        {
          assert Adjacent(m, i, j);
        }
      }
    }
  }

  // ----- Checking a configuration -----

  // ParseSensorInfo: thresholds are read from NONE up, each no less than the one before.
  method ThresholdsIncrease(l: Levels, floor: real) returns (ok: bool)
    requires Shaped(l)
    ensures ok <==>
      (forall j :: 0 <= j < SEVERITIES && l.thresholds[j].Some? ==> floor <= l.thresholds[j].value) &&
      (forall i, j :: 0 <= i < j < SEVERITIES && l.thresholds[i].Some? && l.thresholds[j].Some? ==>
         l.thresholds[i].value <= l.thresholds[j].value)
  {
    var min := floor;
    for j := 0 to SEVERITIES
      invariant floor <= min
      invariant min == floor || exists i :: 0 <= i < j && l.thresholds[i] == Some(min)
      invariant forall i :: 0 <= i < j && l.thresholds[i].Some? ==> floor <= l.thresholds[i].value <= min
      invariant forall i, k :: 0 <= i < k < j && l.thresholds[i].Some? && l.thresholds[k].Some? ==>
        l.thresholds[i].value <= l.thresholds[k].value
    {
      if l.thresholds[j].Some? {
        if l.thresholds[j].value < min {
          return false;
        }
        min := l.thresholds[j].value;
      }
    }
    return true;
  }

  // ParseSensorInfo: only the next threshold present above j is looked at.
  method NoOverlap(l: Levels) returns (ok: bool)
    requires Shaped(l)
    ensures ok <==> forall i: nat, j: nat :: Adjacent(l, i, j) ==>
      l.thresholds[i].value <= l.thresholds[j].value - l.hysteresis[j]
  {
    for j := 0 to SEVERITIES - 1
      invariant forall i: nat, k: nat :: i < j && Adjacent(l, i, k) ==>
        l.thresholds[i].value <= l.thresholds[k].value - l.hysteresis[k]
    {
      if l.thresholds[j].Some? {
        var k := j + 1;
        while k < SEVERITIES && l.thresholds[k].None?
          invariant k <= SEVERITIES && forall m :: j < m < k ==> l.thresholds[m].None?
        {
          k := k + 1;
        }
        if k < SEVERITIES {
          assert Adjacent(l, j, k);
          if l.thresholds[j].value > l.thresholds[k].value - l.hysteresis[k] {
            return false;
          }
        }
      }
    }
    return true;
  }

  // ----- The loop -----

  // getSeverityFromThresholds
  method GetSeverityFromThresholds(hot: Levels, cold: Levels, prevHot: Severity, prevCold: Severity, value: real)
    returns (retHot: Severity, retCold: Severity)
    requires Shaped(hot) && Shaped(cold)
    ensures retHot == Next(hot, prevHot, value)
    ensures retCold == Next(Mirror(cold), prevCold, -value)
  {
    var heldHot: Severity, heldCold: Severity := 0, 0;
    retHot, retCold := 0, 0;
    ghost var mirror := Mirror(cold);
    for i := SEVERITIES downto 1
      invariant retHot == 0 || i <= retHot
      invariant heldHot == 0 || i <= heldHot
      invariant retCold == 0 || i <= retCold
      invariant heldCold == 0 || i <= heldCold
      invariant retHot == 0 ==> Raw(hot, value, i - 1) == Raw(hot, value, SHUTDOWN)
      invariant retHot > 0 ==> retHot == Raw(hot, value, SHUTDOWN)
      invariant heldHot == 0 ==> Held(hot, value, i - 1) == Held(hot, value, SHUTDOWN)
      invariant heldHot > 0 ==> heldHot == Held(hot, value, SHUTDOWN)
      invariant retCold == 0 ==> Raw(mirror, -value, i - 1) == Raw(mirror, -value, SHUTDOWN)
      invariant retCold > 0 ==> retCold == Raw(mirror, -value, SHUTDOWN)
      invariant heldCold == 0 ==> Held(mirror, -value, i - 1) == Held(mirror, -value, SHUTDOWN)
      invariant heldCold > 0 ==> heldCold == Held(mirror, -value, SHUTDOWN)
    {
      var h, c := hot.thresholds[i], cold.thresholds[i];
      assert mirror.thresholds[i] == Negated(c);
      if h.Some? && h.value <= value && retHot == 0 {
        retHot := i;
      }
      if h.Some? && h.value - hot.hysteresis[i] < value && heldHot == 0 {
        heldHot := i;
      }
      if c.Some? && c.value >= value && retCold == 0 {
        retCold := i;
      }
      if c.Some? && c.value + cold.hysteresis[i] > value && heldCold == 0 {
        heldCold := i;
      }
    }
    if retHot < prevHot {
      retHot := heldHot;
    }
    if retCold < prevCold {
      retCold := heldCold;
    }
  }

  // ----- A watched sensor -----

  function Higher(a: Severity, b: Severity): Severity { if a > b then a else b }

  /** The stored status of one sensor; emulSeverity overrides what is reported, when set. */
  class Sensor {
    const hot: Levels
    const cold: Levels
    const watched: bool
    var prevHot: Severity
    var prevCold: Severity
    var severity: Severity
    var emulSeverity: Option<Severity>
    ghost var values: seq<real>

    // The stored severities are those of the readings the watcher has taken, in order.
    ghost predicate Valid()
      reads this
    {
      && Shaped(hot) && Shaped(cold)
      && prevHot == After(hot, values)
      && prevCold == AfterCold(cold, values)
    }

    constructor (hot: Levels, cold: Levels, watched: bool)
      requires Shaped(hot) && Shaped(cold)
      ensures Valid() && values == [] && severity == 0
    {
      this.hot, this.cold, this.watched := hot, cold, watched;
      prevHot, prevCold, severity, emulSeverity, values := 0, 0, 0, None, [];
    }

    // readTemperature, also called by binder threads: it changes nothing.
    method ReadTemperature(value: real) returns (status: (Severity, Severity), reported: Severity)
      requires Valid()
      ensures status == if watched then (Next(hot, prevHot, value), Next(Mirror(cold), prevCold, -value)) else (0, 0)
      ensures emulSeverity.Some? ==> reported == emulSeverity.value
      ensures emulSeverity.None? ==> reported in {status.0, status.1} && reported >= status.0 && reported >= status.1
    {
      status := (0, 0);
      if watched {
        var h, c := GetSeverityFromThresholds(hot, cold, prevHot, prevCold, value);
        status := (h, c);
      }
      reported := if emulSeverity.Some? then emulSeverity.value else Higher(status.0, status.1);
    }

    // The update in thermalWatcherCallbackFunc; notify says that the change is to be reported.
    method WatcherUpdate(value: real) returns (notify: bool)
      requires Valid() && watched
      modifies this
      ensures Valid() && values == old(values) + [value] && emulSeverity == old(emulSeverity)
      ensures emulSeverity.Some? ==> severity == emulSeverity.value
      ensures emulSeverity.None? ==> severity in {prevHot, prevCold} && severity >= prevHot && severity >= prevCold
      ensures notify <==> severity != old(severity)
    {
      var status, reported := ReadTemperature(value);
      AfterOneMore(hot, values, value);
      AfterColdOneMore(cold, values, value);
      if status.0 != prevHot {
        prevHot := status.0;
      }
      if status.1 != prevCold {
        prevCold := status.1;
      }
      notify := reported != severity;
      if notify {
        severity := reported;
      }
      values := values + [value];
    }
  }
}
