# NKAIVault clip synthesis — a Dafny model

NKAIVault turns a text prompt into a five-second animated clip in the
browser. A canvas is redrawn on every animation frame for `DURATION_MS`
(5000 ms). A `MediaRecorder` encodes the canvas stream into WebM chunks.
When the recorder stops, the chunks are assembled into one clip, published
as an object URL, and recorded in a bounded gallery in local storage.

This project models the client component
`frontend/src/components/NKAIVaultApp.jsx` as pure Dafny functions over
immutable data:

- `JsString`: the JavaScript string operations the component relies on.
  These are `split(' ')`, `trim()` and the decimal rendering of
  `Date.now()`. `Join`, which puts one space between pieces, is not called
  by the component: it is the reference inverse of `split(' ')`, used to
  state that the split loses nothing and that the drawn lines rejoin to
  the prompt.
- `WordWrap`: `wrapText`, the greedy word wrap. Font measurement is a
  function parameter, and the `fillText` calls are an output sequence. An
  independent predicate, `IsGreedyWrap`, describes what a greedy layout
  is. The model is proved to produce one, and that predicate is proved to
  admit only that one layout.
- `Settings`: the `ASPECTS` table, and the FPS input clamp over JavaScript
  numbers (NaN, finite values, infinities).
- `Clock`: the `step` callback. It is a transition over the frame counter,
  driven by a sequence of animation-frame timestamps.
- `Recorder`: the container choice, the start of a run (which empties the
  chunk buffer), the `ondataavailable` filter, and clip assembly. The start
  is modelled as written, including the uncaught probe exception listed
  under "## Findings", and in a guarded form that the rest of the model
  uses.
- `Finalizer`: `recorder.onstop`. It publishes the URL, resets the
  in-progress flag, and saves a gallery entry.
- `Gallery`: the gallery entry and the newest-first, 50-entry log update.
- `Download`: the `downloadCurrent` guards and the file name.
- `Frame`: the text part of `drawFrame`, which covers font sizes, the
  prompt layout and the watermark for signed-out users.
- `Account` and `Wrappers`: the user value and `Option`.

Widths, positions and timestamps are exact `real`s. Strings are `seq<char>`.
The browser collaborators are parameters of the functions that use them:
`measureText`, `isTypeSupported`, whether `captureStream` or
`isTypeSupported` throws, whether `new MediaRecorder` succeeds,
`createObjectURL`, `readAsDataURL`, `Date.now()` and `toISOString()`.
Local storage is abstracted to the decoded gallery list: `None` means the
key is missing.

Two behaviours of the code are worth stating plainly:

- `Math.max(12, Math.min(60, Number(v) || 30))` at line 195 keeps
  fractional rates such as 24.5; nothing rounds the rate to an integer.
- `setVideoUrl(url)` at line 138 never revokes the previous object URL.
  Only the Clear button at line 214 does.

## Model

| member | source | states |
|---|---|---|
| JsString.Split | frontend/src/components/NKAIVaultApp.jsx:81 | `text.split(' ')` always yields at least one piece, and no piece contains a space |
| JsString.JoinSplit | frontend/src/components/NKAIVaultApp.jsx:81 | joining the pieces of `split(' ')` with single spaces gives back the text |
| JsString.SplitJoin | frontend/src/components/NKAIVaultApp.jsx:81 | splitting space-free pieces joined by single spaces gives back exactly those pieces, so the split loses nothing |
| JsString.TrimSpec | frontend/src/components/NKAIVaultApp.jsx:87 | `line.trim()` cuts only whitespace, from the two ends, and what remains neither starts nor ends with whitespace |
| JsString.TrimStartSpec | frontend/src/components/NKAIVaultApp.jsx:87 | the leading half of `trim()` cuts exactly a whitespace prefix |
| JsString.TrimEndSpec | frontend/src/components/NKAIVaultApp.jsx:87 | the trailing half of `trim()` cuts exactly a whitespace suffix |
| JsString.DecimalString | frontend/src/components/NKAIVaultApp.jsx:162 | `${Date.now()}` renders as decimal digits with no leading zero |
| JsString.DecimalRoundTrip | frontend/src/components/NKAIVaultApp.jsx:162 | reading the rendered digits back yields the timestamp |
| WordWrap.WrapText | frontend/src/components/NKAIVaultApp.jsx:80-95 | the loop's `fillText` calls are the layout of the greedy lines of `text.split(' ')`, and there is at least one |
| WordWrap.WrapIsGreedy | frontend/src/components/NKAIVaultApp.jsx:84-93 | the lines hold every word once, in order, with no empty line; each word after a line's first passed the width check; each break happened because the next word failed it |
| WordWrap.GreedyWrapUnique | frontend/src/components/NKAIVaultApp.jsx:85-92 | any layout meeting that description is the one `wrapText` draws, so a break falls before word n exactly when n > 0 and `measure(line + words[n] + " ") > maxWidth` |
| WordWrap.WrapWidthBound | frontend/src/components/NKAIVaultApp.jsx:85-91 | a line of two or more words fits within `maxWidth` with its trailing space; only a single word can overflow, and `measure` need not be monotone |
| WordWrap.WrapNonEmpty | frontend/src/components/NKAIVaultApp.jsx:94 | at least one line is drawn, even for empty text |
| WordWrap.LayoutAt | frontend/src/components/NKAIVaultApp.jsx:83-94 | the k-th `fillText` draws the trimmed k-th line at `y + k * lineHeight` |
| WordWrap.DrawnLinesRejoin | frontend/src/components/NKAIVaultApp.jsx:81-94 | for a prompt of words separated by single spaces, the drawn lines joined with single spaces give back the prompt |
| WordWrap.JoinEachFlatten | frontend/src/components/NKAIVaultApp.jsx:81-94 | joining each line and then joining the lines equals joining all words |
| Settings.AspectMatchesKey | frontend/src/components/NKAIVaultApp.jsx:16-20 | exactly the keys "16:9", "9:16" and "1:1" are in the table; each size has the proportions its key names, with a 1080-pixel short side |
| Settings.PortraitIsLandscapeTurned | frontend/src/components/NKAIVaultApp.jsx:17-18 | the portrait size is the landscape size with width and height swapped |
| Settings.ClampFps | frontend/src/components/NKAIVaultApp.jsx:195 | the rate is always in [12, 60]; in-range values are kept; NaN and 0 become 30; values below 12 become 12, above 60 become 60; infinities go to the nearer bound |
| Settings.ClampFpsIdempotent | frontend/src/components/NKAIVaultApp.jsx:195 | clamping a clamped rate changes nothing |
| Clock.Step | frontend/src/components/NKAIVaultApp.jsx:124-131 | one frame is drawn with the current counter, and the counter goes up by one; t ≤ 1, and t ≥ 0 when elapsed ≥ 0; another frame is requested iff elapsed < 5000, otherwise the stop is scheduled after 60 ms at t = 1 |
| Clock.RunFromLength | frontend/src/components/NKAIVaultApp.jsx:124-132 | a run draws one frame per callback, up to and including the first callback at which the duration has run out |
| Clock.RunFromFrames | frontend/src/components/NKAIVaultApp.jsx:125-128 | frame k of a run is the one `step` draws for the k-th timestamp with counter k |
| Clock.RunFromSchedule | frontend/src/components/NKAIVaultApp.jsx:129-130 | every step but the last requests another frame; the last schedules the stop exactly when the duration ran out, so the stop is scheduled at most once and nothing follows it |
| Clock.RunFramesInRange | frontend/src/components/NKAIVaultApp.jsx:122-130 | for callbacks not before `start`, frames are numbered 0, 1, 2, … with t in [0, 1], and a run that stops ends on t = 1 |
| Recorder.ChooseMime | frontend/src/components/NKAIVaultApp.jsx:108-110 | VP9 WebM exactly when the host supports it, else plain WebM |
| Recorder.StartRun | frontend/src/components/NKAIVaultApp.jsx:98-120 | no canvas or an unknown aspect changes nothing; otherwise the flag is raised and the chunk buffer emptied; a throw from `captureStream` or `isTypeSupported` escapes with the flag left raised and no notice; a recorder constructor failure yields the notice with the flag back to idle; else recording starts at the table size with the chosen container |
| Recorder.ProbeFailureLeavesFlagRaised | frontend/src/components/NKAIVaultApp.jsx:104-118 | on a host whose probe throws, an idle component that starts a run is left generating, with neither a recording nor the notice |
| Recorder.GuardedStartRunNeverStrands | frontend/src/components/NKAIVaultApp.jsx:104-118 | with the probes inside the `try`, the flag stays raised only for a recording run, a host that cannot record gets the notice with the flag idle and the buffer empty, and the start agrees with the code whenever the probes do not throw |
| Recorder.CollectIsNonEmptyData | frontend/src/components/NKAIVaultApp.jsx:105-119 | the buffer of a run is the in-order subsequence of arrived chunks with non-zero size |
| Recorder.ReceiveAllFrom | frontend/src/components/NKAIVaultApp.jsx:119 | chunks arriving on a buffer are appended after what it holds, filtered and in order |
| Recorder.NoCarryOver | frontend/src/components/NKAIVaultApp.jsx:105-119 | once a run starts recording, its buffer depends only on that run's chunks, whatever earlier runs left behind |
| Recorder.AssembleLayout | frontend/src/components/NKAIVaultApp.jsx:136 | the assembled clip's length is the sum of chunk sizes, and each chunk sits right after the ones before it |
| Recorder.CollectedBytes | frontend/src/components/NKAIVaultApp.jsx:119-136 | dropping empty chunks loses no byte: the clip is every arrived byte, in arrival order |
| Finalizer.OnStop | frontend/src/components/NKAIVaultApp.jsx:135-154 | the clip is the assembled buffer under the run's container type; its URL replaces the published one; the flag returns to idle; the newest gallery entry names the prompt, holds the clip's data URL and is signed iff a user is present |
| Finalizer.RunPublishesOneClip | frontend/src/components/NKAIVaultApp.jsx:97-154 | a complete run publishes exactly one clip, holding this run's arrived bytes and nothing earlier; the gallery gains it at the front, followed by at most 49 earlier entries |
| Gallery.EntryName | frontend/src/components/NKAIVaultApp.jsx:145 | the name is the prompt's first 40 characters, or "clip" for an empty prompt; it is never empty and never longer than 40 |
| Gallery.NewEntry | frontend/src/components/NKAIVaultApp.jsx:145 | `signed` is true exactly when a user is present; the other fields are the given time, data URL, date and aspect |
| Gallery.AddEntry | frontend/src/components/NKAIVaultApp.jsx:145-146 | the new entry is at index 0, followed by the previous entries in their order; the length is min(old length + 1, 50) |
| Gallery.Save | frontend/src/components/NKAIVaultApp.jsx:144-146 | a missing log reads as empty; the saved log starts with the new entry, followed by the first 49 stored ones |
| Gallery.AddAllNewestFirst | frontend/src/components/NKAIVaultApp.jsx:144-146 | after any series of saves, the log is the 50 newest of all entries, newest first, so the oldest are evicted first |
| Gallery.AddAllBounded | frontend/src/components/NKAIVaultApp.jsx:146 | after any series of saves, the log has min(saved + earlier, 50) entries |
| Download.DownloadCurrent | frontend/src/components/NKAIVaultApp.jsx:157-164 | "no clip" is checked before "not signed in"; a download starts iff there is a clip and a user, and it saves exactly the published clip as `NKAIVault_<time>.webm` |
| Download.NoticesDistinct | frontend/src/components/NKAIVaultApp.jsx:158-159 | the two refusals are different notices |
| Download.FileNameEncodesTime | frontend/src/components/NKAIVaultApp.jsx:162 | the file name is the fixed prefix, the decimal time and `.webm`, and the time can be read back from it |
| Frame.DrawFrameText | frontend/src/components/NKAIVaultApp.jsx:58-77 | the watermark is drawn iff no user is signed in; the prompt block is the greedy wrap at `0.78 W` starting at `0.56 H`, with at least one line; title and prompt fonts are capped at 64 and 28 px |
| Frame.TableSizesUseCappedFonts | frontend/src/components/NKAIVaultApp.jsx:62-65 | for every table size the title is 64 px, the prompt 28 px, and prompt lines are 40 px apart |

## Left out

- `backend/index.js`, the transcode service, is not part of this model. It
  is an Express and multer route that runs `ffmpeg` through `execFile`.
  What it adds is library and process plumbing: unlink the upload, then
  answer with the URL or a 500.
- `drawFrame` painting is left out: the gradient, the floating lights, the
  title's vertical bob and the watermark's pixels. It is floating-point
  trigonometry and Canvas 2D calls. Only the text layout and the watermark
  branch are modelled.
- `canvas.captureStream`, `MediaRecorder`, `Blob`, `URL.createObjectURL`,
  `FileReader` and `localStorage` are browser I/O. Their results are
  parameters, and storage is the decoded gallery list.
- JSON encoding and decoding of the gallery is left out. So are the errors
  `JSON.parse` or `setItem` can raise inside the asynchronous
  `reader.onload`.
- Timing is left out. `requestAnimationFrame` timestamps are inputs. The
  60 ms `setTimeout` is modelled as a scheduled action, not as elapsed
  time.
- The interleaving of chunk arrival with animation frames is left out: the
  buffer is modelled from the sequence of data events alone.
- React state, JSX layout, the sign-in stub, and the Clear and Reset
  buttons are UI and are left out. The Generate button's disabling during
  a run is not modelled either, so nothing covers concurrent runs.
- `Number(e.target.value)` is not modelled. The clamp takes the JavaScript
  number it produces: NaN, finite or infinite. Negative zero counts as
  zero, as it is falsy too.
- Floating-point rounding is left out. Widths, positions and timestamps are
  exact reals rather than IEEE doubles.
- Gallery.EntryName: counts Unicode scalar values, while `slice(0, 40)`
  counts UTF-16 code units. The two agree on text without characters
  outside the Basic Multilingual Plane.
- JsString.DecimalString: does not model the exponent notation JavaScript
  uses from 10^21 upward. Millisecond timestamps are far below that.
- Clock.Step: bounds `t` below only when elapsed ≥ 0. An animation-frame
  timestamp can precede the `start` captured before the first request, and
  then `t` is negative, exactly as in the source.
- Recorder.StartRun: a key the aspect selector does not offer is modelled
  as leaving the session untouched. In the code a missing key throws on
  `spec.w` before the flag is raised. An `Object.prototype` name such as
  `"constructor"` does not throw there: the canvas gets width and height
  0 and the run starts, but the first `step` calls `drawFrame` with `W`
  undefined, `createLinearGradient` at line 35 throws, no further frame
  or stop is scheduled, and `isGenerating` stays `true`. The selector
  never produces either kind of key.
- `downloadCurrent`'s anchor element and `click()` are left out. The `Save`
  outcome stands for them.

## Findings

| source | as written | input that shows it | evidently intended | confidence | as-written member | corrected member |
|---|---|---|---|---|---|---|
| frontend/src/components/NKAIVaultApp.jsx:104-118 | `captureStream(fps)` and `MediaRecorder.isTypeSupported(...)` run after `setIsGenerating(true)` and outside the `try`, so their exceptions escape `generateClip` | a browser with no `MediaRecorder` global: line 108 throws a ReferenceError, no notice is shown, and `isGenerating` stays `true` for good | the "MediaRecorder not supported" notice with the flag reset, as the `catch` does for the constructor | medium, not executed | Recorder.ProbeFailureLeavesFlagRaised | Recorder.GuardedStartRunNeverStrands |
