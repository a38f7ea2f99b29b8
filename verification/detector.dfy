/**
 * The signal detector of `Conversor.ProcessSignals` as a value-level
 * specification: the detector state, one step per rendered frame, and the fold
 * of those steps over the frames of a clip's detection window. The class in
 * `conversor.dfy` holds this state in fields and is proved to follow `Step`.
 */
module Detector {
  import opened Colors
  import opened Descriptor
  import opened Signals

  /** The debounce after an onset (`0.3f` in `ProcessSignals`). */
  const Debounce: real := 0.3

  /** A rendered frame: the colour `Texture2D.GetPixel` returns at each pixel. */
  type Frame = (int, int) -> Color

  /** One observation of the player: `VideoPlayer.time` and the frame shown then. */
  datatype Tick = Tick(time: real, frame: Frame)

  /** What `ProcessSignals` looks for: the sample points, the target colour and the compare region. */
  datatype Probe = Probe(points: seq<Point>, target: Color, area: Rect)

  /** The fields `_signaled`, `_signalTime`, `_comparer`, `_collected`. */
  datatype DetectorState = DetectorState(
    signaled: bool,
    signalTime: real,
    comparer: seq<Color>,
    collected: seq<Signal>)

  datatype StepResult = StepResult(state: DetectorState, appended: bool)

  function ReadPixel(frame: Frame, p: Point): Color
  {
    frame(p.x, p.y)
  }

  /** The number of pixels `GetPixels(x, y, width, height)` returns. */
  function AreaSize(area: Rect): nat
  {
    if area.width > 0 && area.height > 0 then area.width * area.height else 0
  }

  /** `Texture2D.GetPixels(x, y, width, height)`: the block row by row, each row left to right. */
  function ReadRegion(frame: Frame, area: Rect): (pixels: seq<Color>)
    ensures |pixels| == AreaSize(area)
  {
    seq(AreaSize(area), k requires 0 <= k < AreaSize(area) =>
      frame(area.x + k % area.width, area.y + k / area.width))
  }

  /** Some sample point shows the target colour (the `foreach` over the points). */
  predicate SomePointMatches(probe: Probe, frame: Frame)
  {
    exists j :: 0 <= j < |probe.points| && IsApproximated(ReadPixel(frame, probe.points[j]), probe.target)
  }

  /** Some pixel of the region has left the snapshot's tolerance (the loop over `a`). */
  predicate Diverges(region: seq<Color>, comparer: seq<Color>)
    requires |region| <= |comparer|
  {
    exists i :: 0 <= i < |region| && !IsApproximated(region[i], comparer[i])
  }

  /** The state right after `ProcessClear`; `_comparer` is not reset by the C# code. */
  function Cleared(s: DetectorState): (c: DetectorState)
    ensures !c.signaled && c.signalTime == 0.0 && c.collected == [] && c.comparer == s.comparer
  {
    s.(signaled := false, signalTime := 0.0, collected := [])
  }

  /** One call of `ProcessSignals` at player time `time` showing `frame`. */
  function Step(s: DetectorState, probe: Probe, time: real, frame: Frame): (r: StepResult)
    requires s.signaled ==> AreaSize(probe.area) <= |s.comparer|
    ensures r.state.signaled ==> AreaSize(probe.area) <= |r.state.comparer|
    ensures |s.collected| <= |r.state.collected| <= |s.collected| + 1
    ensures r.state.collected[..|s.collected|] == s.collected
    ensures r.appended <==> |r.state.collected| == |s.collected| + 1
    ensures r.appended ==>
      s.signaled && !r.state.signaled && s.signalTime < time &&
      r.state.collected[|s.collected|] == Signal(s.signalTime, time) &&
      r.state.signalTime == s.signalTime && r.state.comparer == s.comparer
    ensures !s.signaled && r.state.signaled ==>
      s.signalTime + Debounce < time && r.state.signalTime == time
    ensures s.signaled && !r.appended ==> r.state == s
    ensures r.appended <==>
      s.signaled && s.signalTime < time && Diverges(ReadRegion(frame, probe.area), s.comparer)
    ensures !s.signaled ==>
      (r.state.signaled <==> s.signalTime + Debounce < time && SomePointMatches(probe, frame))
    ensures !s.signaled && r.state.signaled ==>
      r.state.comparer == ReadRegion(frame, probe.area) && r.state.collected == s.collected
    ensures !s.signaled && !r.state.signaled ==> r.state == s
  {
    if s.signaled then
      if s.signalTime >= time then StepResult(s, false)
      else if Diverges(ReadRegion(frame, probe.area), s.comparer) then
        StepResult(s.(signaled := false, collected := s.collected + [Signal(s.signalTime, time)]), true)
      else StepResult(s, false)
    else
      if time <= s.signalTime + Debounce then StepResult(s, false)
      else if SomePointMatches(probe, frame) then
        StepResult(s.(signaled := true, signalTime := time, comparer := ReadRegion(frame, probe.area)), false)
      else StepResult(s, false)
  }

  /** The detection loop: one step per tick while the player time is before `end`. */
  function Detect(s: DetectorState, probe: Probe, ticks: seq<Tick>, end: real): (r: DetectorState)
    requires s.signaled ==> AreaSize(probe.area) <= |s.comparer|
    ensures r.signaled ==> AreaSize(probe.area) <= |r.comparer|
    decreases |ticks|
  {
    if |ticks| == 0 || ticks[0].time >= end then s
    else Detect(Step(s, probe, ticks[0].time, ticks[0].frame).state, probe, ticks[1..], end)
  }

  /** Player time never goes backwards. */
  ghost predicate Monotone(ticks: seq<Tick>)
  {
    forall i, j :: 0 <= i < j < |ticks| ==> ticks[i].time <= ticks[j].time
  }

  /** Every interval is non-empty; any two onsets are more than the debounce apart,
      and an interval ends no later than the next one starts. */
  ghost predicate Chronological(c: seq<Signal>)
  {
    && (forall i :: 0 <= i < |c| ==> c[i].start < c[i].end)
    && (forall i, j :: 0 <= i < j < |c| ==> c[i].start + Debounce < c[j].start && c[i].end <= c[j].start)
  }

  /** What holds of the detector after any run from `ProcessClear` up to player time `now`. */
  ghost predicate Timeline(s: DetectorState, now: real)
  {
    && Chronological(s.collected)
    && 0.0 <= s.signalTime
    && (forall i :: 0 <= i < |s.collected| ==>
          Debounce < s.collected[i].start && s.collected[i].start <= s.signalTime && s.collected[i].end <= now)
    && (s.signaled ==>
          Debounce < s.signalTime <= now &&
          forall i :: 0 <= i < |s.collected| ==>
            s.collected[i].start + Debounce < s.signalTime && s.collected[i].end <= s.signalTime)
  }

  lemma ClearedTimeline(s: DetectorState, now: real)
    ensures Timeline(Cleared(s), now)
  {
  }

  lemma TimelineLater(s: DetectorState, now: real, later: real)
    requires Timeline(s, now) && now <= later
    ensures Timeline(s, later)
  {
  }

  /** One step at a time no earlier than `now` keeps the timeline. */
  lemma StepKeepsTimeline(s: DetectorState, probe: Probe, time: real, frame: Frame, now: real)
    requires s.signaled ==> AreaSize(probe.area) <= |s.comparer|
    requires Timeline(s, now) && now <= time
    ensures Timeline(Step(s, probe, time, frame).state, time)
  {
    var r := Step(s, probe, time, frame);
    if r.appended {
      var c := s.collected;
      var c' := r.state.collected;
      assert c' == c + [Signal(s.signalTime, time)];
      forall i, j | 0 <= i < j < |c'|
        ensures c'[i].start + Debounce < c'[j].start && c'[i].end <= c'[j].start
      {
        if j == |c| {
          assert c'[i] == c[i];
        } else {
          assert c'[i] == c[i] && c'[j] == c[j];
        }
      }
    }
  }

  /** The last time a run observed, or `now` if it observed none. */
  function LastTime(now: real, ticks: seq<Tick>): real
  {
    if |ticks| == 0 then now else ticks[|ticks| - 1].time
  }

  /** Over monotone player time, every run keeps the timeline. */
  lemma {:induction false} DetectKeepsTimeline(s: DetectorState, probe: Probe, ticks: seq<Tick>, end: real, now: real)
    requires s.signaled ==> AreaSize(probe.area) <= |s.comparer|
    requires Monotone(ticks) && (|ticks| > 0 ==> now <= ticks[0].time)
    requires Timeline(s, now)
    ensures Timeline(Detect(s, probe, ticks, end), LastTime(now, ticks))
    decreases |ticks|
  {
    if |ticks| == 0 {
    } else if ticks[0].time >= end {
      TimelineLater(s, now, LastTime(now, ticks));
    } else {
      var t := ticks[0];
      StepKeepsTimeline(s, probe, t.time, t.frame, now);
      var rest := ticks[1..];
      assert Monotone(rest);
      DetectKeepsTimeline(Step(s, probe, t.time, t.frame).state, probe, rest, end, t.time);
      assert LastTime(t.time, rest) == LastTime(now, ticks);
    }
  }

  /** A run only appends: earlier entries are kept, at most one new entry per observed frame. */
  lemma {:induction false} DetectKeepsHistory(s: DetectorState, probe: Probe, ticks: seq<Tick>, end: real)
    requires s.signaled ==> AreaSize(probe.area) <= |s.comparer|
    ensures var r := Detect(s, probe, ticks, end);
      |s.collected| <= |r.collected| <= |s.collected| + |ticks| && r.collected[..|s.collected|] == s.collected
    decreases |ticks|
  {
    if |ticks| > 0 && ticks[0].time < end {
      var s' := Step(s, probe, ticks[0].time, ticks[0].frame).state;
      DetectKeepsHistory(s', probe, ticks[1..], end);
      var r := Detect(s', probe, ticks[1..], end);
      assert r.collected[..|s.collected|] == r.collected[..|s'.collected|][..|s.collected|];
    }
  }

  /** Two states that differ only in a snapshot nobody will read. */
  ghost predicate SameButStaleBaseline(a: DetectorState, b: DetectorState)
  {
    && a.signaled == b.signaled
    && a.signalTime == b.signalTime
    && a.collected == b.collected
    && (a.signaled ==> a.comparer == b.comparer)
  }

  lemma StepIgnoresStaleBaseline(a: DetectorState, b: DetectorState, probe: Probe, time: real, frame: Frame)
    requires a.signaled ==> AreaSize(probe.area) <= |a.comparer|
    requires b.signaled ==> AreaSize(probe.area) <= |b.comparer|
    requires SameButStaleBaseline(a, b)
    ensures SameButStaleBaseline(Step(a, probe, time, frame).state, Step(b, probe, time, frame).state)
    ensures Step(a, probe, time, frame).appended == Step(b, probe, time, frame).appended
  {
  }

  /** `ProcessClear` leaves `_comparer` from the previous clip in place, and that
      stale snapshot never influences what the next clip collects. */
  lemma {:induction false} DetectIgnoresStaleBaseline(a: DetectorState, b: DetectorState, probe: Probe, ticks: seq<Tick>, end: real)
    requires a.signaled ==> AreaSize(probe.area) <= |a.comparer|
    requires b.signaled ==> AreaSize(probe.area) <= |b.comparer|
    requires SameButStaleBaseline(a, b)
    ensures SameButStaleBaseline(Detect(a, probe, ticks, end), Detect(b, probe, ticks, end))
    decreases |ticks|
  {
    if |ticks| > 0 && ticks[0].time < end {
      var t := ticks[0];
      StepIgnoresStaleBaseline(a, b, probe, t.time, t.frame);
      DetectIgnoresStaleBaseline(Step(a, probe, t.time, t.frame).state, Step(b, probe, t.time, t.frame).state, probe, ticks[1..], end);
    }
  }

  /** A clip seen from a cleared detector: the target shows at 0.2 s and again
      at 0.5 s, and the region changes at 0.7 s. The first sighting falls inside
      the debounce measured from time 0 and is ignored; the second is the onset,
      so one latency from 0.5 to 0.7 is recorded. */
  lemma OneLatency(s: DetectorState, probe: Probe, shown: Frame, changed: Frame)
    requires !s.signaled && s.signalTime == 0.0
    requires SomePointMatches(probe, shown)
    requires Diverges(ReadRegion(changed, probe.area), ReadRegion(shown, probe.area))
    ensures Detect(s, probe, [Tick(0.2, shown), Tick(0.5, shown), Tick(0.7, changed)], 1.0).collected
      == s.collected + [Signal(0.5, 0.7)]
  {
    var ticks := [Tick(0.2, shown), Tick(0.5, shown), Tick(0.7, changed)];
    var s1 := Step(s, probe, 0.2, shown).state;
    assert s1 == s;
    var s2 := Step(s1, probe, 0.5, shown).state;
    assert s2 == s.(signaled := true, signalTime := 0.5, comparer := ReadRegion(shown, probe.area));
    var s3 := Step(s2, probe, 0.7, changed).state;
    assert s3.collected == s.collected + [Signal(0.5, 0.7)];
    var rest2, rest3 := [Tick(0.5, shown), Tick(0.7, changed)], [Tick(0.7, changed)];
    assert ticks[1..] == rest2 && rest2[1..] == rest3 && rest3[1..] == [];
    assert Detect(s3, probe, [], 1.0) == s3;
    assert Detect(s2, probe, rest3, 1.0) == s3;
    assert Detect(s1, probe, rest2, 1.0) == s3;
  }
}
