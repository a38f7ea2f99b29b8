# CaptureToSignals converter, modelled in Dafny

`CaptureToSignals` measures display latency from screen recordings. Each recording
is a `.mov` file whose name encodes a test descriptor:

- a test name;
- one or two sample points;
- a target colour;
- a compare rectangle;
- a start/end window in seconds.

The Unity behaviour `Conversor` plays every recording in a directory. It watches the
sample points until one shows the target colour. That moment is an *onset*, and the
behaviour then snapshots the compare rectangle. Once any pixel of the rectangle
leaves the snapshot's tolerance, it records a *signal*: the onset time and the
change time. The signals of one recording are written as a CSV file next to the
recordings.

The model covers the whole of `Conversor.cs` apart from its Unity plumbing:

- `wrappers.dfy`: `Option` and `Result`.
- `text.dfy`: `String.Split(char)` and joining with a separator. Also `int.Parse`
  and `byte.Parse` with the default integer style, and the `ToString` of an
  integer, with the round trip between the two.
- `colors.dfy`: `Color`, `Color32`, the implicit byte-to-channel conversion
  (byte / 255), the tolerance `PixelError` and `IsApproximated`.
- `descriptor.dfy`: the file-name parser of the batch loop. It returns a `Result`
  whose failure says which token and which `x`-part made the C# code throw. It
  also has the inverse `Format`, which writes a descriptor as a file name, and the
  round-trip lemma between the two.
- `signals.dfy`: the `Signal` record, `ToCSVEntry`, and the loop that joins the
  entries into the file content.
- `detector.dfy`: the detector as a value-level specification:
  - `DetectorState` holds the four fields;
  - `Step` is one call of `ProcessSignals`;
  - `Detect` is the detection loop over the frames of a clip.

  The lemmas give debounce, ordering and append-only invariants.
- `conversor.dfy`: the class `Conversor`. It holds the fields and runs
  `ProcessClear`, `ProcessSignals` (with its loops over the region and the
  points), the per-file pipeline and the batch loop of the `Start` coroutine.
  Each method is proved against the specification functions.

Times and colour channels are exact `real`s. The debounce is `0.3` and the
tolerance is `0.02`.

Unity's collaborators become inputs:

- A recording is a `VideoFile`: its name relative to `VideoPath`, plus the sequence
  of `Tick`s the coroutine observes. A tick is the player time and the rendered
  frame, one per loop iteration.
- A frame is a total function from pixel coordinates to `Color`.
- A region read is the row-major block of `width * height` pixels.
- `double.ToString()` is the parameter `format`.
- Writing a CSV becomes the `Written(path, content)` outcome.

Where the code and the intended behaviour differ, the model follows the code:

- `ProcessClear` resets `_signalTime` to 0, not to minus infinity. So no onset can
  happen at a player time of 0.3 s or earlier (`Detector.OneLatency` shows a
  sighting at 0.2 s being ignored).
- A malformed file name raises an exception inside the coroutine that nothing
  catches. The batch ends with that file and the later files are not processed.
  In the model this is the `Faulted` outcome, and `Halting` stops there.

## Model

| member | source | states |
|---|---|---|
| Colors.ToColor | CaptureToSignals/Assets/Scripts/Conversor.cs:75 | the `Color32` target becomes a `Color` whose channels lie in [0, 1] and are the bytes divided by 255, alpha included |
| Colors.ApproximatedReflexive | CaptureToSignals/Assets/Scripts/Conversor.cs:194-200 | every colour is approximated by itself |
| Colors.ApproximatedSymmetric | CaptureToSignals/Assets/Scripts/Conversor.cs:194-200 | the tolerance test does not depend on argument order |
| Colors.ApproximatedIgnoresAlpha | CaptureToSignals/Assets/Scripts/Conversor.cs:194-200 | changing either colour's alpha never changes the outcome |
| Colors.ApproximatedIsStrict | CaptureToSignals/Assets/Scripts/Conversor.cs:194-200 | a channel difference of exactly `PixelError` fails the test |
| Colors.ApproximatedNotTransitive | CaptureToSignals/Assets/Scripts/Conversor.cs:194-200 | closeness does not chain: two neighbours 0.015 apart on a channel both pass, while the ends, 0.03 apart, fail |
| Colors.ByteChannelClose | CaptureToSignals/Assets/Scripts/Conversor.cs:194-200 | on one channel, two byte values pass the 0.02 tolerance exactly when they are at most 5 steps apart |
| Colors.ByteColoursWithinFiveSteps | CaptureToSignals/Assets/Scripts/Conversor.cs:194-200 | two byte colours match exactly when no colour byte differs by more than 5; alpha plays no part |
| Text.Split | CaptureToSignals/Assets/Scripts/Conversor.cs:52 | splitting always yields at least one part |
| Text.SplitAtSeparator | CaptureToSignals/Assets/Scripts/Conversor.cs:52 | splitting `a + sep + b` gives the parts of `a` followed by the parts of `b` |
| Text.SplitJoin | CaptureToSignals/Assets/Scripts/Conversor.cs:52-80 | parts that contain no separator are recovered exactly by splitting their join |
| Text.ParseInt | CaptureToSignals/Assets/Scripts/Conversor.cs:62-82 | a successful `int.Parse` yields a 32-bit value |
| Text.ParseByte | CaptureToSignals/Assets/Scripts/Conversor.cs:75 | a successful `byte.Parse` yields a value in 0..255 |
| Text.ParseFormatInt | CaptureToSignals/Assets/Scripts/Conversor.cs:62-82 | `int.Parse` reads back the decimal numeral of every 32-bit integer |
| Text.ParseFormatByte | CaptureToSignals/Assets/Scripts/Conversor.cs:75 | `byte.Parse` reads back the numeral of every byte value |
| Descriptor.ParsePoints | CaptureToSignals/Assets/Scripts/Conversor.cs:55-72 | success with more than two parts means at least four parts and two points; otherwise exactly two parts and one point |
| Descriptor.ParseColor | CaptureToSignals/Assets/Scripts/Conversor.cs:74-75 | success needs at least three parts, and the colour's alpha byte is 1 |
| Descriptor.ParseTokens | CaptureToSignals/Assets/Scripts/Conversor.cs:52-82 | success needs five tokens; the name is token 0, the alpha is 1, and the point count follows the parts of token 1 |
| Descriptor.ParsePointsReads | CaptureToSignals/Assets/Scripts/Conversor.cs:55-72 | token 1 parses exactly when it has two numerals, or more than two parts of which the first four are numerals; it then reads as one or two points of those numerals |
| Descriptor.ParseColorReads | CaptureToSignals/Assets/Scripts/Conversor.cs:74-75 | token 2 parses exactly when its first three parts are byte numerals; it then reads as those bytes with alpha 1 |
| Descriptor.ParseAreaReads | CaptureToSignals/Assets/Scripts/Conversor.cs:77-78 | token 3 parses exactly when it has at least four parts and the first four are numerals; it then reads as the region of those numerals |
| Descriptor.ParseWindowReads | CaptureToSignals/Assets/Scripts/Conversor.cs:80-82 | token 4 parses exactly when it has at least two parts and the first two are numerals; it then reads as the window of those numerals |
| Descriptor.ParseReads | CaptureToSignals/Assets/Scripts/Conversor.cs:52-82 | a stem parses exactly when it is readable: five `_`-tokens, each with enough `x`-parts, every part read a numeral in range; a missing token, a short token or a bad numeral fails. A readable stem parses to its reading, field by field |
| Descriptor.Parse | CaptureToSignals/Assets/Scripts/Conversor.cs:52-82 | a file stem with fewer than five `_`-tokens fails; a success has the first token as name and one or two points according to token 1 |
| Descriptor.ExtraTokensIgnored | CaptureToSignals/Assets/Scripts/Conversor.cs:52-82 | appending further `_`-tokens to a stem of five or more tokens does not change the parse |
| Descriptor.ParseFormat | CaptureToSignals/Assets/Scripts/Conversor.cs:52-82 | parsing the file name written for a well-formed descriptor gives that descriptor back |
| Descriptor.BallExample | CaptureToSignals/Assets/Scripts/Conversor.cs:52-82 | `ball_10x20_255x0x0_5x5x50x50_0x10` parses to one point (10, 20), colour (255, 0, 0, 1), region (5, 5, 50, 50) and window 0..10 |
| Signals.Entries | CaptureToSignals/Assets/Scripts/Conversor.cs:111-115 | one CSV entry per collected signal |
| Signals.BuildCsv | CaptureToSignals/Assets/Scripts/Conversor.cs:109-116 | the content-building loop yields the entries joined by newlines |
| Signals.CsvLines | CaptureToSignals/Assets/Scripts/Conversor.cs:109-116 | for a newline-free number format, the file splits into exactly one line per signal, in order, and does not end with a newline |
| Signals.CsvFields | CaptureToSignals/Assets/Scripts/Conversor.cs:13-16 | for a comma-free number format, each entry splits into start, end and end minus start |
| Detector.ReadRegion | CaptureToSignals/Assets/Scripts/Conversor.cs:162 | the region read has `width * height` pixels, and none when either size is not positive |
| Detector.Cleared | CaptureToSignals/Assets/Scripts/Conversor.cs:137-142 | after clearing, nothing is collected, no onset is pending, the debounce reference is 0, and the snapshot is kept |
| Detector.Step | CaptureToSignals/Assets/Scripts/Conversor.cs:153-192 | one call appends at most one signal and never alters earlier ones. It appends exactly when signaled, time has advanced and some region pixel diverges; the new signal runs from the onset to now, with start before end. It signals an onset exactly when idle, more than 0.3 s past the last onset and some point matches; the onset takes the time and the region snapshot and keeps the list. Closing a signal keeps the onset time and the snapshot. In every other case the state is unchanged |
| Detector.Detect | CaptureToSignals/Assets/Scripts/Conversor.cs:103-107 | the detection loop keeps a pending onset's snapshot large enough for the region |
| Detector.StepKeepsTimeline | CaptureToSignals/Assets/Scripts/Conversor.cs:153-192 | a step at a time no earlier than the last keeps the collected list chronological and debounced |
| Detector.DetectKeepsTimeline | CaptureToSignals/Assets/Scripts/Conversor.cs:177 | over non-decreasing player time, every onset comes more than 0.3 s after time 0 and after the previous onset; each signal's start is before its end; signals do not overlap |
| Detector.DetectKeepsHistory | CaptureToSignals/Assets/Scripts/Conversor.cs:103-107 | the detection loop only appends, at most one entry per observed frame |
| Detector.StepIgnoresStaleBaseline | CaptureToSignals/Assets/Scripts/Conversor.cs:157-189 | a snapshot that is not pending never influences a step |
| Detector.DetectIgnoresStaleBaseline | CaptureToSignals/Assets/Scripts/Conversor.cs:137-142 | the snapshot `ProcessClear` leaves behind from the previous clip never influences what the next clip collects |
| Detector.OneLatency | CaptureToSignals/Assets/Scripts/Conversor.cs:153-192 | from a cleared detector, a sighting at 0.2 s is ignored, a sighting at 0.5 s is the onset, and a region change at 0.7 s records the signal (0.5, 0.7) |
| CaptureToSignals.Movies | CaptureToSignals/Assets/Scripts/Conversor.cs:42-44 | only entries ending in `.mov` are processed, and no more entries than the directory has |
| CaptureToSignals.MoviesOfPrefix | CaptureToSignals/Assets/Scripts/Conversor.cs:42-44 | the movies among the first n entries are a prefix of all movies, in directory order |
| CaptureToSignals.MoviesStep | CaptureToSignals/Assets/Scripts/Conversor.cs:42-44 | one more directory entry adds itself to the movies when it ends in `.mov` and is skipped otherwise; an added entry is the next movie of the whole directory |
| CaptureToSignals.PrimingEnd | CaptureToSignals/Assets/Scripts/Conversor.cs:96-100 | priming ends at the first observation at or after `start`, with every earlier one before `start` |
| CaptureToSignals.Reports | CaptureToSignals/Assets/Scripts/Conversor.cs:42-127 | one outcome per movie |
| CaptureToSignals.ReportsAt | CaptureToSignals/Assets/Scripts/Conversor.cs:42-127 | the k-th outcome is what the k-th movie yields on its own |
| CaptureToSignals.HaltingPrefix | CaptureToSignals/Assets/Scripts/Conversor.cs:42-127 | the batch's outcomes are a prefix of the per-movie outcomes, and only the last can be a parse failure. Debug mode handles at most one movie. The batch stops early only after a parse failure or in debug mode |
| CaptureToSignals.HaltingComplete | CaptureToSignals/Assets/Scripts/Conversor.cs:42-127 | a batch that handles every movie met no parse failure before its last movie |
| CaptureToSignals.BatchFollowsMovies | CaptureToSignals/Assets/Scripts/Conversor.cs:42-127 | the batch's k-th outcome is the k-th `.mov` entry processed on its own |
| CaptureToSignals.DetectWithinWindow | CaptureToSignals/Assets/Scripts/Conversor.cs:96-107 | when every observation is at or after `lo`, every signal lies in [lo, end) |
| CaptureToSignals.ClipSignalsTimeline | CaptureToSignals/Assets/Scripts/Conversor.cs:96-107 | for non-decreasing player time, a clip's signals are chronological and debounced, start after 0.3 s and after the window start, and end before the window end |
| CaptureToSignals.Conversor.constructor | CaptureToSignals/Assets/Scripts/Conversor.cs:29-36 | the fields start at their C# defaults: idle, time 0, no snapshot, nothing collected |
| CaptureToSignals.Conversor.ProcessClear | CaptureToSignals/Assets/Scripts/Conversor.cs:137-142 | the collected list becomes empty, `_signaled` false and `_signalTime` 0, and the snapshot is unchanged |
| CaptureToSignals.Conversor.ProcessSignals | CaptureToSignals/Assets/Scripts/Conversor.cs:153-192 | the in-place update of the fields and the returned flag are exactly one `Detector.Step` |
| CaptureToSignals.Conversor.ProcessFile | CaptureToSignals/Assets/Scripts/Conversor.cs:52-82 | a file with a bad name ends in the parser's failure; otherwise the clip is measured |
| CaptureToSignals.Conversor.Measure | CaptureToSignals/Assets/Scripts/Conversor.cs:96-122 | prime, clear, then detect until the window end. If anything was collected, the CSV of the collected signals goes to `VideoPath + name + ".csv"`; otherwise nothing is written. The collected list is the clip's detected signals |
| CaptureToSignals.Conversor.Start | CaptureToSignals/Assets/Scripts/Conversor.cs:42-128 | the outcomes are the per-movie outcomes in directory order, cut by the stopping rule `Halting` |

## Left out

- Player preparation, seeking and playback, and the unbounded `isPrepared` busy-waits (Conversor.cs:47-49, 84-94, 123). They are a foreign collaborator; a clip is the sequence of observations the coroutine makes, which is finite, so the model never waits forever where the code could.
- `RenderTexture`/`Texture2D` readback (`UpdateTexture`, `ReadPixels`, `GetPixel(s)`, `Release`, `OnDestroy`): a frame is a total function, so the exceptions `GetPixels` raises for a block outside the texture are not modelled; a non-positive width or height reads as an empty region.
- The `float` casts of the parsed integers into `Vector2`/`Rect` and back with `(int)`: integers are kept exactly, which differs only for magnitudes above 2^24.
- `Directory.GetFiles`, `File.WriteAllText`, `Debug.Log`, the UI updates (`Signal.color`, `PlayerTargetPresenter`, `Comparer`), `Application.targetFrameRate` and `Application.Quit`/the editor stop: I/O and UI. Directory entries are names relative to `VideoPath`, so the directory part that `GetFileNameWithoutExtension` strips is not modelled.
- `double.ToString()` in `ToCSVEntry`: culture- and float-dependent, so it is the parameter `format`; only the comma and newline structure is proved. In a culture whose decimal separator is `,` the C# writes commas inside the numbers, so a line has more than three fields and cannot be read back; `Signals.CsvFields` assumes a comma-free format for this reason.
- Floating-point arithmetic: times and channels are exact rationals. The constant `0.3f` widened to double is 0.300000011920928955078125, slightly above 0.3, and `0.02f` is 0.0199999995529651641845703125, slightly below 0.02; both are modelled as the exact decimals. So a channel difference in [0.0199999995529651641845703125, 0.02) counts as approximated in the model (`Colors.IsApproximated`) but not in the C#, and a sighting more than 0.3 s but at most 0.300000011920928955078125 s after the last onset starts a signal in the model but not in the C#.
- The waits for the player to reach the window (Conversor.cs:96-100 and 103-107): when the player time never reaches the start or the end, the C# loops forever, writes no CSV and never reaches the later files. A clip here is a finite list of observations, so the model ends such a clip with `NoEntries` or `Written` and goes on with the batch.
- `yield return null`: one detector step per loop iteration.
- `int.Parse` culture details beyond the invariant culture: other sign symbols, trailing NUL characters.
- `Ball.cs` and `PongController.cs`: the test scene's physics and input handling are not part of this model.
- CaptureToSignals.Conversor.ProcessSignals: requires that a pending snapshot has at least as many pixels as the region, because the C# code throws `IndexOutOfRangeException` otherwise; within one clip the region never changes, so the batch always meets this.
