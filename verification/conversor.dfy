/**
 * The `Conversor` behaviour: the per-clip pipeline and the batch loop of its
 * `Start` coroutine, and the detector fields that `ProcessClear` and
 * `ProcessSignals` update in place.
 *
 * The Unity collaborators are inputs: a clip is its file name plus the
 * sequence of (player time, rendered frame) observations the coroutine sees,
 * one per loop iteration; the CSV files are returned as `Written` outcomes.
 */
module CaptureToSignals {
  import opened Wrappers
  import opened Text
  import opened Colors
  import opened Descriptor
  import opened Signals
  import opened Detector

  /** An entry of `Directory.GetFiles(VideoPath)`, named relative to the directory,
      with what the player shows while it plays. */
  datatype VideoFile = VideoFile(name: string, ticks: seq<Tick>)

  /** What happens to one clip: a CSV written to `path`, no signals found (nothing
      written), or an exception from the file-name parser. */
  datatype FileOutcome =
    | Written(path: string, content: string)
    | NoEntries(name: string)
    | Faulted(error: ParseError)

  /** The fields' values before the first clip (C# defaults; a null `_comparer` is `[]`). */
  const Fresh: DetectorState := DetectorState(false, 0.0, [], [])

  /** `file.EndsWith(".mov")`. */
  predicate IsMovie(name: string)
  {
    |name| >= 4 && name[|name| - 4..] == ".mov"
  }

  /** `Path.GetFileNameWithoutExtension` of a `.mov` entry. */
  function Stem(name: string): string
    requires IsMovie(name)
  {
    name[..|name| - 4]
  }

  /** The entries the batch loop does not skip, in directory order. */
  function Movies(files: seq<VideoFile>): (movies: seq<VideoFile>)
    ensures |movies| <= |files|
    ensures forall i :: 0 <= i < |movies| ==> IsMovie(movies[i].name)
  {
    if |files| == 0 then []
    else
      var last := files[|files| - 1];
      Movies(files[..|files| - 1]) + (if IsMovie(last.name) then [last] else [])
  }

  /** Filtering a prefix of the directory gives a prefix of the filtered directory. */
  lemma {:induction false} MoviesOfPrefix(files: seq<VideoFile>, n: nat)
    requires n <= |files|
    ensures Movies(files[..n]) <= Movies(files)
    decreases |files| - n
  {
    if n < |files| {
      MoviesOfPrefix(files, n + 1);
      assert files[..n + 1][..n] == files[..n];
    } else {
      assert files[..n] == files;
    }
  }

  /** One more directory entry: a `.mov` entry is the next movie, any other is skipped. */
  lemma MoviesStep(files: seq<VideoFile>, n: nat)
    requires n < |files|
    ensures Movies(files[..n + 1]) == Movies(files[..n]) + (if IsMovie(files[n].name) then [files[n]] else [])
    ensures IsMovie(files[n].name) ==>
      |Movies(files[..n])| < |Movies(files)| && Movies(files)[|Movies(files[..n])|] == files[n]
  {
    assert files[..n + 1][..n] == files[..n];
    MoviesOfPrefix(files, n + 1);
  }

  /** Where the priming loop `while (Player.time < start)` stops: the first
      observation at or after `start`, or the end of the clip. */
  function PrimingEnd(ticks: seq<Tick>, start: real): (k: nat)
    ensures k <= |ticks|
    ensures forall i :: 0 <= i < k ==> ticks[i].time < start
    ensures k < |ticks| ==> ticks[k].time >= start
    decreases |ticks|
  {
    if |ticks| == 0 || ticks[0].time >= start then 0
    else 1 + PrimingEnd(ticks[1..], start)
  }

  function ProbeOf(d: TestDescriptor): Probe
  {
    Probe(d.points, ToColor(d.target), d.area)
  }

  /** The signals collected for a clip with descriptor `d`: a cleared detector
      run over the frames from the end of priming, while the time is before `d.end`. */
  function ClipSignals(d: TestDescriptor, ticks: seq<Tick>): seq<Signal>
  {
    var k := PrimingEnd(ticks, d.start as real);
    Detect(Cleared(Fresh), ProbeOf(d), ticks[k..], d.end as real).collected
  }

  /** What a clip with a well-formed name produces. */
  function Measured(videoPath: string, d: TestDescriptor, ticks: seq<Tick>, format: real -> string): FileOutcome
  {
    var signals := ClipSignals(d, ticks);
    if |signals| > 0 then Written(videoPath + d.name + ".csv", CsvDocument(signals, format))
    else NoEntries(d.name)
  }

  /** The whole per-clip pipeline of the batch loop body. */
  function FileResult(videoPath: string, file: VideoFile, format: real -> string): FileOutcome
    requires IsMovie(file.name)
  {
    match Parse(Stem(file.name))
    case Fail(e) => Faulted(e)
    case Ok(d) => Measured(videoPath, d, file.ticks, format)
  }

  /** What each movie would yield if the batch reached it. */
  function Reports(videoPath: string, movies: seq<VideoFile>, format: real -> string): (reports: seq<FileOutcome>)
    requires forall i :: 0 <= i < |movies| ==> IsMovie(movies[i].name)
    ensures |reports| == |movies|
    decreases |movies|
  {
    if |movies| == 0 then []
    else [FileResult(videoPath, movies[0], format)] + Reports(videoPath, movies[1..], format)
  }

  /** The `k`-th report is the outcome of the `k`-th movie on its own. */
  lemma {:induction false} ReportsAt(videoPath: string, movies: seq<VideoFile>, format: real -> string, k: nat, file: VideoFile)
    requires forall i :: 0 <= i < |movies| ==> IsMovie(movies[i].name)
    requires k < |movies| && movies[k] == file
    ensures Reports(videoPath, movies, format)[k] == FileResult(videoPath, file, format)
    decreases k
  {
    if k > 0 {
      ReportsAt(videoPath, movies[1..], format, k - 1, file);
    }
  }

  /** The batch coroutine's stopping rule over the outcomes it would produce:
      it goes on until an outcome is a parse failure, or after the first
      outcome in debug mode. */
  function Halting(reports: seq<FileOutcome>, debugMode: bool): (outcomes: seq<FileOutcome>)
    decreases |reports|
  {
    if |reports| == 0 then []
    else if reports[0].Faulted? || debugMode then [reports[0]]
    else [reports[0]] + Halting(reports[1..], debugMode)
  }

  /** The batch handles a prefix of the movies, each outcome as for a lone
      file; only its last outcome can be a parse failure; debug mode handles
      at most one movie; and it stops short only after a parse failure or in
      debug mode. */
  lemma {:induction false} HaltingPrefix(reports: seq<FileOutcome>, debugMode: bool)
    ensures var outcomes := Halting(reports, debugMode);
      && outcomes <= reports
      && (forall i :: 0 <= i < |outcomes| - 1 ==> !outcomes[i].Faulted?)
      && (debugMode ==> |outcomes| <= 1)
      && (|outcomes| < |reports| ==> |outcomes| > 0 && (outcomes[|outcomes| - 1].Faulted? || debugMode))
    decreases |reports|
  {
    if |reports| > 0 && !(reports[0].Faulted? || debugMode) {
      HaltingPrefix(reports[1..], debugMode);
      var rest := Halting(reports[1..], debugMode);
      assert Halting(reports, debugMode) == [reports[0]] + rest;
      assert reports == [reports[0]] + reports[1..];
    }
  }

  /** One step of the stopping rule, taken at position `k` after the
      outcomes `done` of the earlier reports: the batch either stops with
      the `k`-th outcome or goes on to the next one. */
  lemma HaltingAt(done: seq<FileOutcome>, reports: seq<FileOutcome>, k: nat, debugMode: bool)
    requires k < |reports|
    requires done + Halting(reports[k..], debugMode) == Halting(reports, debugMode)
    ensures reports[k].Faulted? || debugMode ==> done + [reports[k]] == Halting(reports, debugMode)
    ensures !(reports[k].Faulted? || debugMode) ==>
      (done + [reports[k]]) + Halting(reports[k + 1..], debugMode) == Halting(reports, debugMode)
  {
    assert reports[k..][1..] == reports[k + 1..];
    var rest := Halting(reports[k + 1..], debugMode);
    assert (done + [reports[k]]) + rest == done + ([reports[k]] + rest);
  }

  /** Nothing is lost when the batch runs to the end: every movie in the
      directory is handled, and none of them failed to parse. */
  lemma HaltingComplete(reports: seq<FileOutcome>, debugMode: bool)
    requires |Halting(reports, debugMode)| == |reports|
    ensures Halting(reports, debugMode) == reports
    ensures forall i :: 0 <= i < |reports| - 1 ==> !reports[i].Faulted?
  {
    HaltingPrefix(reports, debugMode);
  }

  /** The batch's outcomes, read against the directory: they follow the
      `.mov` entries in order, each one what that entry yields on its own. */
  lemma BatchFollowsMovies(videoPath: string, debugMode: bool, files: seq<VideoFile>, format: real -> string)
    ensures var movies := Movies(files);
      var outcomes := Halting(Reports(videoPath, movies, format), debugMode);
      && |outcomes| <= |movies|
      && forall i :: 0 <= i < |outcomes| ==> outcomes[i] == FileResult(videoPath, movies[i], format)
  {
    var movies := Movies(files);
    var reports := Reports(videoPath, movies, format);
    HaltingPrefix(reports, debugMode);
    forall i | 0 <= i < |Halting(reports, debugMode)|
      ensures Halting(reports, debugMode)[i] == FileResult(videoPath, movies[i], format)
    {
      ReportsAt(videoPath, movies, format, i, movies[i]);
    }
  }

  /** The priming loop's exit condition pins down where it stopped. */
  lemma PrimingEndIsFirst(ticks: seq<Tick>, start: real, k: nat)
    requires k <= |ticks|
    requires forall j :: 0 <= j < k ==> ticks[j].time < start
    requires k < |ticks| ==> ticks[k].time >= start
    ensures k == PrimingEnd(ticks, start)
  {
  }

  /** All detection stays in the window [lo, hi). */
  ghost predicate WithinWindow(s: DetectorState, lo: real, hi: real)
  {
    && (forall i :: 0 <= i < |s.collected| ==> lo <= s.collected[i].start && s.collected[i].end < hi)
    && (s.signaled ==> lo <= s.signalTime < hi)
  }

  lemma {:induction false} DetectWithinWindow(s: DetectorState, probe: Probe, ticks: seq<Tick>, lo: real, hi: real)
    requires s.signaled ==> AreaSize(probe.area) <= |s.comparer|
    requires forall i :: 0 <= i < |ticks| ==> lo <= ticks[i].time
    requires WithinWindow(s, lo, hi)
    ensures WithinWindow(Detect(s, probe, ticks, hi), lo, hi)
    decreases |ticks|
  {
    if |ticks| > 0 && ticks[0].time < hi {
      var t := ticks[0];
      var r := Step(s, probe, t.time, t.frame);
      assert WithinWindow(r.state, lo, hi) by {
        if r.appended {
          assert r.state.collected == s.collected + [Signal(s.signalTime, t.time)];
        }
      }
      DetectWithinWindow(r.state, probe, ticks[1..], lo, hi);
    }
  }

  /** Over monotone player time, the latencies recorded for a clip are positive,
      more than the debounce apart, non-overlapping and in order, start after
      the debounce has passed since time zero, and lie inside the clip's window. */
  lemma ClipSignalsTimeline(d: TestDescriptor, ticks: seq<Tick>)
    requires Monotone(ticks)
    ensures var signals := ClipSignals(d, ticks);
      && Chronological(signals)
      && forall i :: 0 <= i < |signals| ==>
           Debounce < signals[i].start && d.start as real <= signals[i].start && signals[i].end < d.end as real
  {
    var k := PrimingEnd(ticks, d.start as real);
    var rest := ticks[k..];
    assert Monotone(rest);
    ClearedTimeline(Fresh, if |rest| > 0 then rest[0].time else 0.0);
    DetectKeepsTimeline(Cleared(Fresh), ProbeOf(d), rest, d.end as real, if |rest| > 0 then rest[0].time else 0.0);
    forall i | 0 <= i < |rest| ensures d.start as real <= rest[i].time {
      assert rest[i] == ticks[k + i];
    }
    DetectWithinWindow(Cleared(Fresh), ProbeOf(d), rest, d.start as real, d.end as real);
  }

  class Conversor {
    /** `VideoPath` and `DebugMode`, set in the Unity inspector. */
    const videoPath: string
    const debugMode: bool

    var signaled: bool
    var signalTime: real
    var comparer: seq<Color>
    var collected: seq<Signal>

    constructor (videoPath: string, debugMode: bool)
      ensures this.videoPath == videoPath && this.debugMode == debugMode
      ensures State() == Fresh
    {
      this.videoPath := videoPath;
      this.debugMode := debugMode;
      signaled, signalTime, comparer, collected := false, 0.0, [], [];
    }

    function State(): DetectorState
      reads this
    {
      DetectorState(signaled, signalTime, comparer, collected)
    }

    /** Empties the collected list, drops any pending onset and resets the
        debounce reference to time 0; the old snapshot stays. */
    method ProcessClear()
      modifies this
      ensures State() == Cleared(old(State()))
      ensures collected == [] && !signaled && signalTime == 0.0
    {
      collected := [];
      signaled := false;
      signalTime := 0.0;
    }

    /** One detector step for the frame shown at player time `time`; true exactly
        when a signal was appended. */
    method ProcessSignals(points: seq<Point>, signal: Color, area: Rect, time: real, frame: Frame)
      returns (appended: bool)
      requires signaled ==> AreaSize(area) <= |comparer|
      modifies this
      ensures StepResult(State(), appended) == Step(old(State()), Probe(points, signal, area), time, frame)
    {
      ghost var before := State();
      if signaled {
        // Cannot process if the time is the same.
        if signalTime >= time {
          return false;
        }
        var a := ReadRegion(frame, area);
        var i := 0;
        while i < |a|
          invariant 0 <= i <= |a|
          invariant State() == before
          invariant forall j :: 0 <= j < i ==> IsApproximated(a[j], comparer[j])
        {
          if !IsApproximated(a[i], comparer[i]) {
            collected := collected + [Signal(signalTime, time)];
            signaled := false;
            return true;
          }
          i := i + 1;
        }
        return false;
      } else {
        if time <= signalTime + Debounce {
          return false;
        }
        ghost var onset := before.(signaled := true, signalTime := time, comparer := ReadRegion(frame, area));
        var k := 0;
        while k < |points|
          invariant 0 <= k <= |points|
          invariant (exists j :: 0 <= j < k && IsApproximated(ReadPixel(frame, points[j]), signal)) ==> State() == onset
          invariant !(exists j :: 0 <= j < k && IsApproximated(ReadPixel(frame, points[j]), signal)) ==> State() == before
        {
          var reading := ReadPixel(frame, points[k]);
          if IsApproximated(reading, signal) {
            signaled := IsApproximated(reading, signal);
            signalTime := time;
            comparer := ReadRegion(frame, area);
          }
          k := k + 1;
        }
        return false;
      }
    }

    /** The body of the batch loop for one `.mov` entry: parse its name, then measure. */
    method ProcessFile(file: VideoFile, format: real -> string) returns (outcome: FileOutcome)
      requires IsMovie(file.name)
      modifies this
      ensures outcome == FileResult(videoPath, file, format)
    {
      var parsed := Parse(Stem(file.name));
      if parsed.Fail? {
        return Faulted(parsed.error);
      }
      outcome := Measure(parsed.value, file.ticks, format);
    }

    /** The rest of the loop body: prime until the window start, clear, detect
        until the window end, then write the CSV if anything was collected. */
    method Measure(d: TestDescriptor, ticks: seq<Tick>, format: real -> string) returns (outcome: FileOutcome)
      modifies this
      ensures outcome == Measured(videoPath, d, ticks, format)
      ensures collected == ClipSignals(d, ticks)
    {
      var signal := ToColor(d.target);
      var start, end := d.start as real, d.end as real;

      var k := 0;
      while k < |ticks| && ticks[k].time < start
        invariant 0 <= k <= |ticks|
        invariant forall j :: 0 <= j < k ==> ticks[j].time < start
      {
        k := k + 1;
      }
      PrimingEndIsFirst(ticks, start, k);

      ProcessClear();
      ghost var probe := Probe(d.points, signal, d.area);
      ghost var cleared := State();
      var i := k;
      while i < |ticks| && ticks[i].time < end
        invariant k <= i <= |ticks|
        invariant signaled ==> AreaSize(d.area) <= |comparer|
        invariant Detect(State(), probe, ticks[i..], end) == Detect(cleared, probe, ticks[k..], end)
      {
        var appended := ProcessSignals(d.points, signal, d.area, ticks[i].time, ticks[i].frame);
        assert ticks[i..][1..] == ticks[i + 1..];
        i := i + 1;
      }
      assert Detect(State(), probe, ticks[i..], end) == State();
      DetectIgnoresStaleBaseline(cleared, Cleared(Fresh), probe, ticks[k..], end);
      assert collected == ClipSignals(d, ticks);

      if |collected| > 0 {
        var content := BuildCsv(collected, format);
        outcome := Written(videoPath + d.name + ".csv", content);
      } else {
        outcome := NoEntries(d.name);
      }
    }

    /** The batch coroutine: every `.mov` entry in directory order; a parse
        exception ends the batch, and in debug mode the first clip does too. */
    method Start(files: seq<VideoFile>, format: real -> string) returns (outcomes: seq<FileOutcome>)
      modifies this
      ensures outcomes == Halting(Reports(videoPath, Movies(files), format), debugMode)
    {
      outcomes := [];
      ghost var reports := Reports(videoPath, Movies(files), format);
      ghost var k := 0;
      var stopped := false;
      var n := 0;
      assert files[..0] == [] && reports[0..] == reports;
      while n < |files| && !stopped
        invariant 0 <= n <= |files|
        invariant k == |Movies(files[..n])| <= |reports|
        invariant !stopped ==> outcomes + Halting(reports[k..], debugMode) == Halting(reports, debugMode)
        invariant stopped ==> outcomes == Halting(reports, debugMode)
      {
        var file := files[n];
        MoviesStep(files, n);
        if IsMovie(file.name) {
          var outcome := ProcessFile(file, format);
          ReportsAt(videoPath, Movies(files), format, k, file);
          HaltingAt(outcomes, reports, k, debugMode);
          outcomes := outcomes + [outcome];
          k := k + 1;
          if outcome.Faulted? || debugMode {
            stopped := true;
          }
        }
        n := n + 1;
      }
      if !stopped {
        assert files[..n] == files;
        assert outcomes + [] == outcomes;
      }
    }
  }
}
