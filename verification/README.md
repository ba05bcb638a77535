# Live German Traffic Sign Detection — a Dafny model of the control logic

The detector application runs a YOLO model with ByteTrack tracking over a
camera, video file or image folder, draws a heads-up display (HUD) on each
annotated frame, optionally shows it, and optionally saves the result as a
video or as image files. This project models the application's own logic
around those external calls:

- `parse_classes`, the `--classes` filter parser, and the `AppConfig` record
  (module `Config`, with Python's `split`, `strip`, `isdigit`, `int` and `str`
  in module `Text`);
- `draw_hud` without the pixels: the list of text lines and the integer
  geometry of the panel and the text baselines (module `Hud`; `sorted` over
  the class ids in module `Sorted`);
- `_pick_device`, `_active_counts`, the quit-key test and the output names of
  the image modes (module `App`; `os.path.basename`, `dirname` and `join` in
  module `Paths`);
- the stream loop of `_run_stream` with the lazily opened video writer, and
  the two image loops (module `Pipelines`);
- the `run` dispatch over the mode (module `Dispatch`).

The external calls are parameters. The model (`YOLO.track`/`predict`) is a
finite sequence of `Frame` records: each holds the annotated image's size,
its boxes' class ids and optional track ids, its source path if it has one,
and the key code `waitKey` returns after the frame is shown. Whether CUDA is
available is a boolean. `cv2.getTextSize` is a measuring function passed to
`DrawHud`. The formatted FPS text is a string. The OpenCV window, writer and
image-file calls are not performed. A pipeline instead returns the log of
`Effect`s it would perform, in order, and the properties are stated over
those logs.

## Model

| member | source | states |
|---|---|---|
| Config.NewAppConfig | traffic_signs/config.py:8-45 | the constructor stores every argument unchanged in the field of the same name |
| Config.DefaultConfig | traffic_signs/config.py:10-27 | with no arguments the mode is "live", nothing is shown or saved, the device is "auto", the source is camera "0", and there is no class filter |
| Config.ParseClasses | traffic_signs/config.py:48-56 | `None` for an absent or empty argument; otherwise the all-digit entries in order, or `None` exactly when no entry is all digits; a returned list is non-empty, non-negative, and no longer than the number of comma-separated pieces |
| Config.DigitEntries | traffic_signs/config.py:51-55 | the loop keeps at most one id per piece, and every kept id is non-negative |
| Config.DigitEntriesEmpty | traffic_signs/config.py:51-56 | nothing is kept exactly when no piece is all digits after trimming |
| Config.DigitEntriesMembers | traffic_signs/config.py:52-55 | an id is in the result exactly when some piece, once trimmed, is all digits and denotes it |
| Config.DigitEntriesAppend | traffic_signs/config.py:52-55 | the per-piece loop distributes over concatenation of the pieces, so input order is kept |
| Config.ParseFormatted | traffic_signs/config.py:48-56 | round trip: parsing `",".join(str(i) for i in ids)` of a non-empty id list gives back the same list, with order and duplicates kept |
| Config.ParseExample | traffic_signs/config.py:48-56 | `" 2 , x, 7"` parses to `[2, 7]` |
| Config.ParseSigned | traffic_signs/config.py:54 | `"-1,+3"` parses to `None`, because signed entries fail the digit test |
| Text.Strip | traffic_signs/config.py:53 | `strip()` returns the slice of the input between its leading and trailing whitespace, and that slice neither starts nor ends with whitespace |
| Text.StripSurrounded | traffic_signs/config.py:53 | stripping whitespace from around a core that neither starts nor ends with whitespace gives back that core |
| Text.Split | traffic_signs/config.py:52 | `split(",")` yields at least one piece, and no piece contains a comma |
| Text.SplitCount | traffic_signs/config.py:52 | `split(",")` yields one more piece than there are commas |
| Text.JoinSplit | traffic_signs/config.py:52 | joining the pieces of `split` with the separator gives back the input |
| Text.SplitJoin | traffic_signs/config.py:52 | splitting a join of separator-free pieces gives back the pieces |
| Text.IntToString | traffic_signs/hud.py:13-14 | `str(i)` of any integer: the decimal digits of `i`, preceded by `-` exactly when `i` is negative, with no leading zero unless `i` is 0, reading back as `|i|` |
| Text.NatToString | traffic_signs/hud.py:13-14 | `str(n)` of a natural number is all digits, has no leading zero unless it is "0", and reads back as `n` |
| Text.NatToStringOfValue | traffic_signs/config.py:55 | a canonical digit string is the `str` of its `int` value |
| Text.ZeroPad | traffic_signs/app.py:116 | `{i:05d}` is all digits, has length `max(5, digits of i)`, and reads back as `i` |
| Sorted.SortedKeys | traffic_signs/hud.py:12 | `sorted` of the ids lists each id once, in strictly ascending order |
| Sorted.SortedKeysUnique | traffic_signs/hud.py:12 | any strictly ascending listing of the same ids equals `sorted(...)`, so the order does not depend on how the counts were built |
| Hud.HudLines | traffic_signs/hud.py:9-14 | the first line is the FPS line; with no counts it is the only line; otherwise line 1 is "Active tracks:", followed by one line per class in ascending id order, `2 + len(counts)` lines in all |
| Hud.HudClassOrder | traffic_signs/hud.py:12-14 | for any two class lines, the earlier one belongs to the smaller id and shows that id's label and count |
| Hud.HudLinesByAscendingIds | traffic_signs/hud.py:10-14 | the HUD lines equal the FPS line, the header and the class lines of any strictly ascending listing of the active ids |
| Hud.ClassLines | traffic_signs/hud.py:12-14 | one line `"  <label>: <count>"` per id, in the given order |
| Hud.LabelFallback | traffic_signs/hud.py:13 | without a name for the class (or without a name table) the label is the decimal id, which reads back as the id |
| Hud.HudExample | traffic_signs/hud.py:9-14 | counts `{3: 2, 1: 1}` with names stop/yield give the lines FPS, "Active tracks:", "  stop: 1", "  yield: 2" |
| Hud.PanelWidth | traffic_signs/hud.py:17 | the panel width is at most 360 and at most `tw + 16`, and equals one of them |
| Hud.Baselines | traffic_signs/hud.py:21-24 | baseline `k` is the first baseline plus `k` steps |
| Hud.LayoutHud | traffic_signs/hud.py:17-24 | the panel starts at (8, 8), is exactly `min(360, tw + 16)` wide (so at most 360), the text starts at x = 14, and the panel is `len(lines) * (th + 6) + 8` high; line `k` sits at `8 + th + 4 + k * (th + 6)` |
| Hud.BaselinesInsidePanel | traffic_signs/hud.py:18-24 | every baseline lies strictly between the panel's top and bottom edges, and consecutive baselines are `th + 6` apart |
| Hud.DrawHud | traffic_signs/hud.py:6-24 | the HUD draws its lines at x = 14 and sizes the panel and baselines from the extent measured for the lines joined by single spaces |
| App.PickDevice | traffic_signs/app.py:31-34 | "auto" becomes "0" when CUDA is available and "cpu" otherwise; any other device string is kept |
| App.PickDeviceIdempotent | traffic_signs/app.py:31-34 | a picked device is never "auto", so picking again changes nothing |
| App.StreamSource | traffic_signs/app.py:39 | the source "0" opens camera 0; any other source is passed on as given |
| App.Tally | traffic_signs/app.py:64-68 | the counted classes are exactly the classes of the boxes, each mapped to its number of boxes, and the counts sum to the number of boxes |
| App.ActiveCounts | traffic_signs/app.py:63-69 | empty when the result has no boxes or no track ids; otherwise each class maps to its (positive) number of boxes, and the counts sum to the number of boxes |
| App.QuitKeyMask | traffic_signs/app.py:93 | no key (-1) never quits, the code of 'q' quits, and key bits above the low byte are ignored |
| App.SyntheticNameInjective | traffic_signs/app.py:116 | two indices get the same synthetic name `frame_{i:05d}.jpg` exactly when they are equal |
| App.OutputName | traffic_signs/app.py:116 | the output name has no `/`; it is the basename of the result's path, or the synthetic name when there is no path |
| Paths.Basename | traffic_signs/app.py:116 | `basename` is the longest suffix of the path that contains no `/` |
| Paths.Dirname | traffic_signs/app.py:58 | `dirname` is the part of the path before the basename with its trailing slashes removed, unless that part is all slashes, in which case it is kept whole; it is empty exactly when the path contains no `/` |
| Paths.DirnameAllSlashes | traffic_signs/app.py:58 | `dirname("///x")` is `"///"`: a head of slashes only is kept whole |
| Paths.JoinKeepsName | traffic_signs/app.py:117 | joining any folder with a `/`-free name gives a path whose basename is that name |
| Pipelines.WriterOpenEffects | traffic_signs/app.py:58-60 | the corrected opening step (see "## Findings"): the output's directory is created first exactly when the path has one, then exactly one writer `OpenWriter(out, fps, w, h)` sized to the frame is opened, and nothing is written, released or closed |
| Pipelines.InitWriter | traffic_signs/app.py:54-60 | with saving off, or with a writer already open, nothing happens; otherwise one writer is opened, sized to the frame |
| Pipelines.InitWriterOnce | traffic_signs/app.py:55-56 | once a writer exists, initialising again is a no-op, whatever the next frame |
| Pipelines.InitWriterAsWrittenFails | traffic_signs/app.py:58 | the code as written fails exactly when saving is on, no writer is open yet and the output path has no `/`; otherwise it agrees with `InitWriter` |
| Pipelines.BareOutputNameFails | traffic_signs/app.py:58 | with `--save --out clip.mp4`, initialising the writer fails on the first frame |
| Pipelines.StopAt | traffic_signs/app.py:76-94 | the loop, started at frame `i`, consumes at least that frame if there is one, never runs past the end, and runs to the end when display is off |
| Pipelines.Consumed | traffic_signs/app.py:76-94 | the loop processes at most all frames, all of them when display is off, and at least the first frame if there is one |
| Pipelines.StopAtFirstQuit | traffic_signs/app.py:91-94 | from any starting frame, the loop passes every frame before its stop without 'q', and stops early only right after a 'q' |
| Pipelines.ConsumedStopsAtFirstQuit | traffic_signs/app.py:91-94 | with display on, no processed frame before the last one had 'q', and if frames remain the last processed frame had 'q' |
| Pipelines.FoldChunks | traffic_signs/app.py:76-94 | the loop appends the effects of exactly the processed frames and keeps the writer it opened for the first frame |
| Pipelines.StreamLog | traffic_signs/app.py:71-98 | the stream run opens the tracked stream, performs the per-frame effects, releases the writer when one was opened, and closes the windows |
| Pipelines.StreamWriterLifecycle | traffic_signs/app.py:54-60 | a run opens one writer when saving is on and there is a frame, none otherwise; it is sized to the first frame; it is released exactly when it was opened; the windows are closed last |
| Pipelines.ChunksOpenCount | traffic_signs/app.py:86-87 | from any starting frame, the loop opens the writer once when saving is on and no writer is open yet, and never otherwise |
| Pipelines.ChunksOpenWriter | traffic_signs/app.py:54-60 | the only writer the loop opens is sized to the frame at which it started |
| Pipelines.ChunksNoTeardown | traffic_signs/app.py:95-98 | the loop itself neither releases the writer nor closes the windows |
| Pipelines.ChunksOpens | traffic_signs/app.py:86-87 | the loop opens the writer once, for the first frame, and never releases it inside the loop |
| Pipelines.ChunksWrites | traffic_signs/app.py:84-94 | a frame is written exactly when saving is on and the loop reached it, with that frame's own class counts |
| Pipelines.ChunksShows | traffic_signs/app.py:91-92 | a frame is shown exactly when display is on and the loop reached it |
| Pipelines.FramedEffects | traffic_signs/app.py:95-98 | the teardown adds no writer, releases the writer only when one was opened, and closes the windows last |
| Pipelines.StreamWritesProcessedFrames | traffic_signs/app.py:84-94 | with saving on, every processed frame is written, including the one on which 'q' is pressed, with its own class counts; no other frame is written |
| Pipelines.StreamShowsProcessedFrames | traffic_signs/app.py:91-92 | with display on, exactly the processed frames are shown, under the stream window's title; with display off, nothing is shown |
| Pipelines.ImageChunksSaves | traffic_signs/app.py:113-122 | result `j` is saved exactly when the loop reached it, under its name inside the output folder |
| Pipelines.ImagePipelineShape | traffic_signs/app.py:101-151 | an image run creates the output folder and opens the results first, never opens a video writer, and closes the windows last |
| Pipelines.RunImagesSaves | traffic_signs/app.py:113-122 | an image run saves exactly the results its loop reaches, each under its output name inside the output folder |
| Pipelines.ImagePipelineSaves | traffic_signs/app.py:113-118 | every result the loop reaches is saved, including the one on which 'q' is pressed, under a path whose basename is the result's output name |
| Text.Lower | traffic_signs/app.py:155 | `lower()` keeps the length and maps each ASCII capital to its small letter (code plus 32), leaving every other character unchanged |
| Dispatch.EffectiveMode | traffic_signs/app.py:155 | a missing or empty mode is "live"; any other mode is compared with its ASCII letters lower-cased |
| Dispatch.SelectPipeline | traffic_signs/app.py:155-164 | "live" and "video" select the stream pipeline; "image" selects tracking or detection by the flag; every other mode is an error naming the mode as given |
| Dispatch.SelectCaseInsensitive | traffic_signs/app.py:155 | modes that differ only in letter case select the same pipeline |
| Dispatch.DefaultModeIsLive | traffic_signs/app.py:155-157 | a missing mode and an empty mode both select the stream pipeline |
| Dispatch.UpperLiveIsStream | traffic_signs/app.py:155-158 | the mode "LIVE" selects the stream pipeline |
| Dispatch.UpperImageIsImage | traffic_signs/app.py:155-162 | the mode "Image" selects the image pipeline chosen by the tracking flag |
| Dispatch.LiveAndVideoAgree | traffic_signs/app.py:157-158 | "live" and "video" both select the stream pipeline |
| Dispatch.UnknownModeRejected | traffic_signs/app.py:163-164 | the mode "webcam" is rejected with "Unknown mode: webcam" |
| Dispatch.Run | traffic_signs/app.py:154-164 | an unknown mode is an error before anything is opened; every run closes the windows last, and only a saving stream run opens a video writer |
| Dispatch.RunModes | traffic_signs/app.py:154-164 | live and video input run the stream pipeline, which opens the tracked stream first; image input runs the image pipeline chosen by the flag, which creates the folder and then opens tracking or detection |

## Left out

- The YOLO model, ByteTrack tracking and `result.plot()` are not modelled. A result is a `Frame` record, and its annotated image is reduced to its size.
- OpenCV drawing, `imshow`, `waitKey`, `VideoWriter` and `imwrite` are not performed. They appear as entries of the effect log, and the key code is a field of the frame.
- `cv2.getTextSize` is the `measure` parameter of `DrawHud`. The drawing of the rectangle and of the text is not modelled.
- The FPS exponential moving average, `time.time()` and the `:.1f` formatting are not modelled, because they are wall-clock and floating-point logic. The formatted FPS text is a parameter.
- `torch.cuda.is_available()` is a boolean parameter.
- Text.IsDigitChar: accepts the ASCII digits only. Python's `isdigit` also accepts other Unicode digits, for which `int()` may raise.
- Text.Lower: lower-cases the ASCII letters only. Python's `lower` also maps other Unicode letters.
- App.ActiveCounts: the class tensor's `astype(int)` conversion is not modelled; the class ids arrive as integers.
- The keyword arguments handed to the model unchanged are kept in `AppConfig` but not put into the `Call` records: weights, imgsz, conf, iou, tracker, max_det and vid_stride.
- The result streams are finite sequences. An endless camera stream is covered only up to any finite prefix.
- Exceptions from the model, OpenCV or the file system inside a loop are not modelled. In particular there is no `try`/`finally` around the stream loop, so such an exception would skip the writer release.
- Pipelines.RunStream, Dispatch.Run: the stream run uses the corrected `InitWriter` from "## Findings", not `InitWriterAsWritten`. The two agree except when saving is on, no writer is open and the output path has no `/` (`Pipelines.InitWriterAsWrittenFails`). For that input the code as written raises on the first frame, before any write, release or `destroyAllWindows`, whereas the modelled run completes.
- Pipelines.RunStream: assumes one run per `DetectorApp`, as `run.py` does. `self.writer` is set to `None` only in the constructor and is not reset after `release()`, so a second `run()` on the same instance would skip `_init_writer` and write to the released writer. The model starts every stream run with no writer.
- The writer is sized from the first frame only. The model, like the code, does not react to later frames of another size.
- `os.makedirs(outdir)` in the image modes is an effect only; its failure for an empty output folder is not modelled.
- The command-line entry point (`run.py`, argparse wiring) and the package `__init__` re-exports are not part of this model.

## Findings

| source | as written | input that shows it | evidently intended | confidence | as-written member | corrected member |
|---|---|---|---|---|---|---|
| traffic_signs/app.py:58 | `_init_writer` always calls `os.makedirs(os.path.dirname(out), exist_ok=True)`; for an output path without a directory `dirname` is `""`, and `os.makedirs("")` raises `FileNotFoundError` | `--save --out clip.mp4`: the first frame ends the run with an error and no video is written | create the directory only when the path has one, then open the writer | high for the raise, by the documented behaviour of `os.makedirs`; not executed | Pipelines.InitWriterAsWritten (failure shown by Pipelines.InitWriterAsWrittenFails and Pipelines.BareOutputNameFails) | Pipelines.InitWriter (properties proved by Pipelines.InitWriterOnce and Pipelines.StreamWriterLifecycle) |
