/**
 * The three processing loops, as logs of the effects they perform. The
 * detection/tracking stream is a finite sequence of frames; OpenCV's window,
 * writer and image-file calls are recorded as effects instead of performed.
 */
module Pipelines {
  import opened Base
  import opened Paths
  import opened Config
  import opened App

  /** The call that opens the result stream. */
  datatype Call =
    | Track(source: Source, device: string, classes: Option<seq<int>>)
    | Predict(source: Source, device: string)

  /** The HUD-annotated image of frame `index`, drawn with `counts`. */
  datatype Canvas = Canvas(index: nat, counts: map<int, int>)

  datatype Effect =
    | Open(call: Call)
    | MakeDirs(dir: string)
    | OpenWriter(path: string, fps: real, width: nat, height: nat)
    | WriteFrame(canvas: Canvas)
    | ShowFrame(title: string, index: nat)
    | SaveImage(path: string, index: nat)
    | ReleaseWriter
    | DestroyWindows

  const StreamTitle: string := "German Traffic Sign Detector (YOLO + ByteTrack)"
  const DetectTitle: string := "Detections"
  const TrackTitle: string := "Tracked Sequence"

  /** An open video writer and the frame size it was opened with. */
  datatype Writer = Writer(width: nat, height: nat)

  /** How many `OpenWriter` effects a log holds. */
  function CountOpens(log: seq<Effect>): nat
  {
    if log == [] then 0 else (if log[0].OpenWriter? then 1 else 0) + CountOpens(log[1..])
  }

  lemma {:induction false} CountOpensAppend(a: seq<Effect>, b: seq<Effect>)
    ensures CountOpens(a + b) == CountOpens(a) + CountOpens(b)
  {
    if a == [] {
      assert a + b == b;
    } else {
      assert (a + b)[1..] == a[1..] + b;
      CountOpensAppend(a[1..], b);
    }
  }

  // ---------------------------------------------------------------- writer

  /** Opening the writer for the first frame: its directory is created first when the path has one. */
  function WriterOpenEffects(cfg: AppConfig, f: Frame): (log: seq<Effect>)
    ensures CountOpens(log) == 1
    ensures forall e :: e in log && e.OpenWriter? ==> e == OpenWriter(cfg.out, cfg.fps, f.width, f.height)
    ensures ReleaseWriter !in log && DestroyWindows !in log
    ensures forall c :: WriteFrame(c) !in log
    ensures log[|log| - 1] == OpenWriter(cfg.out, cfg.fps, f.width, f.height)
    ensures forall d :: MakeDirs(d) in log <==> d == Dirname(cfg.out) && d != ""
    ensures Dirname(cfg.out) != "" ==> log[0] == MakeDirs(Dirname(cfg.out))
  {
    var dir := Dirname(cfg.out);
    var log := (if dir == "" then [] else [MakeDirs(dir)]) + [OpenWriter(cfg.out, cfg.fps, f.width, f.height)];
    var open := [OpenWriter(cfg.out, cfg.fps, f.width, f.height)];
    assert CountOpens(open) == 1 by {
      assert open[1..] == [];
    }
    assert CountOpens(log) == 1 by {
      if dir != "" {
        assert log[1..] == open;
      } else {
        assert log == open;
      }
    }
    log
  }

  /**
   * `_init_writer`, as the model uses it: with saving on and no writer yet,
   * open one sized to `f`; otherwise do nothing.
   */
  function InitWriter(cfg: AppConfig, writer: Option<Writer>, f: Frame): (r: (Option<Writer>, seq<Effect>))
    ensures !cfg.save || writer.Some? ==> r == (writer, [])
    ensures cfg.save && writer.None? ==> r.0 == Some(Writer(f.width, f.height)) && CountOpens(r.1) == 1
  {
    if !cfg.save || writer.Some? then (writer, [])
    else (Some(Writer(f.width, f.height)), WriterOpenEffects(cfg, f))
  }

  /** Once a writer exists, initialising again is a no-op, whatever frame comes next. */
  lemma InitWriterOnce(cfg: AppConfig, writer: Option<Writer>, f: Frame, g: Frame)
    ensures var first := InitWriter(cfg, writer, f);
      InitWriter(cfg, first.0, g) == (first.0, [])
  {
  }

  /**
   * `_init_writer` exactly as written: it calls `os.makedirs(os.path.dirname(out))`
   * unconditionally, and `os.makedirs("")` raises `FileNotFoundError`.
   */
  function InitWriterAsWritten(cfg: AppConfig, writer: Option<Writer>, f: Frame): Result<(Option<Writer>, seq<Effect>)>
  {
    if !cfg.save || writer.Some? then Ok((writer, []))
    else
      var dir := Dirname(cfg.out);
      if dir == "" then Err("FileNotFoundError: [Errno 2] No such file or directory: ''")
      else Ok((Some(Writer(f.width, f.height)), [MakeDirs(dir), OpenWriter(cfg.out, cfg.fps, f.width, f.height)]))
  }

  /**
   * The code as written fails on the first frame exactly when saving is on and
   * the output path has no directory part; otherwise it agrees with `InitWriter`.
   */
  lemma InitWriterAsWrittenFails(cfg: AppConfig, writer: Option<Writer>, f: Frame)
    ensures InitWriterAsWritten(cfg, writer, f).Err? <==> cfg.save && writer.None? && '/' !in cfg.out
    ensures InitWriterAsWritten(cfg, writer, f).Ok? ==> InitWriterAsWritten(cfg, writer, f).value == InitWriter(cfg, writer, f)
  {
    var dir := Dirname(cfg.out);
    if cfg.save && writer.None? && dir != "" {
      var open := OpenWriter(cfg.out, cfg.fps, f.width, f.height);
      assert WriterOpenEffects(cfg, f) == [MakeDirs(dir)] + [open];
      assert [MakeDirs(dir)] + [open] == [MakeDirs(dir), open];
    }
  }

  /** Concretely: `--save --out clip.mp4` stops the stream on its first frame. */
  lemma BareOutputNameFails()
    ensures InitWriterAsWritten(NewAppConfig(save := true, out := "clip.mp4"), None, Frame(640, 480, None, None, -1)).Err?
  {
    var cfg := NewAppConfig(save := true, out := "clip.mp4");
    ClipHasNoSlash();
    InitWriterAsWrittenFails(cfg, None, Frame(640, 480, None, None, -1));
  }

  lemma ClipHasNoSlash()
    ensures '/' !in "clip.mp4"
  {
    var s := "clip.mp4";
    assert forall k :: 0 <= k < |s| ==> s[k] != '/';
  }

  // ---------------------------------------------------------------- stream loop

  /** The loop state of `_run_stream`: the writer, the next frame index, whether 'q' ended the loop, the effects so far. */
  datatype StreamState = StreamState(writer: Option<Writer>, next: nat, stopped: bool, log: seq<Effect>)

  /**
   * One iteration: open the writer if needed, write the annotated frame while a
   * writer exists, then show it and read the key when display is on.
   */
  function Step(cfg: AppConfig, s: StreamState, f: Frame): StreamState
  {
    if s.stopped then s
    else
      var init := InitWriter(cfg, s.writer, f);
      var canvas := Canvas(s.next, ActiveCounts(f.boxes));
      var written := if init.0.Some? then [WriteFrame(canvas)] else [];
      var shown := if cfg.show then [ShowFrame(StreamTitle, s.next)] else [];
      StreamState(init.0, s.next + 1, cfg.show && QuitPressed(f.key), s.log + init.1 + written + shown)
  }

  /** The `for result in stream` loop: a fold of `Step`; a stopped state absorbs the rest. */
  function Fold(cfg: AppConfig, s: StreamState, frames: seq<Frame>): StreamState
    decreases |frames|
  {
    if frames == [] then s else Fold(cfg, Step(cfg, s, frames[0]), frames[1..])
  }

  /** `_run_stream`: open the tracked stream, run the loop, release the writer if one was opened, close the windows. */
  function RunStream(cfg: AppConfig, cudaAvailable: bool, frames: seq<Frame>): seq<Effect>
  {
    var start := StreamState(None, 0, false, [Open(Track(StreamSource(cfg.source), PickDevice(cfg.device, cudaAvailable), cfg.classes))]);
    var s := Fold(cfg, start, frames);
    s.log + (if s.writer.Some? then [ReleaseWriter] else []) + [DestroyWindows]
  }

  /**
   * Where a loop that checks for 'q' after each shown frame stops when it
   * starts at frame `i`: at the end of the frames without display, otherwise
   * just after the first frame from `i` on whose key is 'q'.
   */
  function StopAt(show: bool, frames: seq<Frame>, i: nat): (n: nat)
    requires i <= |frames|
    ensures i <= n <= |frames|
    ensures i < |frames| ==> i < n
    ensures !show ==> n == |frames|
    decreases |frames| - i
  {
    if i == |frames| then i
    else if show && QuitPressed(frames[i].key) then i + 1
    else StopAt(show, frames, i + 1)
  }

  /** How many frames the loop processes: all of them without display, otherwise up to and including the first 'q'. */
  function Consumed(show: bool, frames: seq<Frame>): (n: nat)
    ensures n <= |frames|
    ensures !show ==> n == |frames|
    ensures frames != [] ==> n >= 1
  {
    StopAt(show, frames, 0)
  }

  /** From `i` on, the loop passes every frame before its stop without 'q', and stops early only on a 'q'. */
  lemma {:induction false} StopAtFirstQuit(show: bool, frames: seq<Frame>, i: nat, j: nat)
    requires i <= |frames|
    ensures show && i <= j && j + 1 < StopAt(show, frames, i) ==> !QuitPressed(frames[j].key)
    ensures StopAt(show, frames, i) < |frames| ==> show && QuitPressed(frames[StopAt(show, frames, i) - 1].key)
    decreases |frames| - i
  {
    if i < |frames| && !(show && QuitPressed(frames[i].key)) {
      StopAtFirstQuit(show, frames, i + 1, j);
    }
  }

  /**
   * With display on, the loop stops right after the first frame whose key is
   * 'q': no earlier frame had it, and if frames remain, the last one consumed did.
   */
  lemma ConsumedStopsAtFirstQuit(show: bool, frames: seq<Frame>, j: nat)
    ensures show && j + 1 < Consumed(show, frames) ==> !QuitPressed(frames[j].key)
    ensures Consumed(show, frames) < |frames| ==> show && QuitPressed(frames[Consumed(show, frames) - 1].key)
  {
    StopAtFirstQuit(show, frames, 0, j);
  }

  /** The effects of processing frame `k` of the stream; `first` says no writer is open yet. */
  function StreamChunk(cfg: AppConfig, k: nat, f: Frame, first: bool): seq<Effect>
  {
    (if first && cfg.save then WriterOpenEffects(cfg, f) else [])
    + (if cfg.save then [WriteFrame(Canvas(k, ActiveCounts(f.boxes)))] else [])
    + (if cfg.show then [ShowFrame(StreamTitle, k)] else [])
  }

  /** The effects of the frames the loop processes from frame `i` on, frame by frame. */
  function StreamChunks(cfg: AppConfig, frames: seq<Frame>, i: nat, first: bool): seq<Effect>
    requires i <= |frames|
    decreases |frames| - i
  {
    if i == |frames| then []
    else
      StreamChunk(cfg, i, frames[i], first)
      + (if cfg.show && QuitPressed(frames[i].key) then []
         else StreamChunks(cfg, frames, i + 1, first && !cfg.save))
  }

  lemma {:induction false} FoldStopped(cfg: AppConfig, s: StreamState, frames: seq<Frame>)
    requires s.stopped
    ensures Fold(cfg, s, frames) == s
    decreases |frames|
  {
    if frames != [] {
      FoldStopped(cfg, s, frames[1..]);
    }
  }

  /** One step from a running state appends the chunk of that frame. */
  lemma StepChunk(cfg: AppConfig, s: StreamState, f: Frame)
    requires !s.stopped
    requires s.writer.Some? ==> cfg.save
    ensures var t := Step(cfg, s, f);
      && t.log == s.log + StreamChunk(cfg, s.next, f, s.writer.None?)
      && t.next == s.next + 1
      && t.stopped == (cfg.show && QuitPressed(f.key))
      && t.writer == (if s.writer.Some? || !cfg.save then s.writer else Some(Writer(f.width, f.height)))
  {
    var init := InitWriter(cfg, s.writer, f);
    var canvas := Canvas(s.next, ActiveCounts(f.boxes));
    var written := if init.0.Some? then [WriteFrame(canvas)] else [];
    var shown := if cfg.show then [ShowFrame(StreamTitle, s.next)] else [];
    assert init.1 == (if s.writer.None? && cfg.save then WriterOpenEffects(cfg, f) else []);
    assert written == (if cfg.save then [WriteFrame(canvas)] else []);
    assert s.log + init.1 + written + shown == s.log + (init.1 + written + shown);
  }

  /** The loop over the frames from `i` on runs its first step on frame `i`, then goes on from `i + 1`. */
  lemma FoldFrom(cfg: AppConfig, s: StreamState, frames: seq<Frame>, i: nat)
    requires i < |frames|
    ensures Fold(cfg, s, frames[i..]) == Fold(cfg, Step(cfg, s, frames[i]), frames[i + 1..])
  {
    assert frames[i..][0] == frames[i];
    assert frames[i..][1..] == frames[i + 1..];
  }

  /**
   * The loop, run over the frames from `i` on from a state that has not
   * stopped and is numbered `i`, appends the per-frame effects of exactly the
   * frames it consumes, and keeps the writer it opened for the first of them.
   */
  lemma {:induction false} FoldChunks(cfg: AppConfig, s: StreamState, frames: seq<Frame>, i: nat)
    requires i <= |frames| && s.next == i
    requires !s.stopped
    requires s.writer.Some? ==> cfg.save
    ensures Fold(cfg, s, frames[i..]).log == s.log + StreamChunks(cfg, frames, i, s.writer.None?)
    ensures Fold(cfg, s, frames[i..]).next == StopAt(cfg.show, frames, i)
    ensures Fold(cfg, s, frames[i..]).writer ==
      if s.writer.Some? || i == |frames| || !cfg.save then s.writer
      else Some(Writer(frames[i].width, frames[i].height))
    decreases |frames| - i
  {
    if i == |frames| {
      assert frames[i..] == [];
      assert s.log + [] == s.log;
    } else {
      var f := frames[i];
      var s1 := Step(cfg, s, f);
      var chunk := StreamChunk(cfg, i, f, s.writer.None?);
      StepChunk(cfg, s, f);
      FoldFrom(cfg, s, frames, i);
      if cfg.show && QuitPressed(f.key) {
        FoldStopped(cfg, s1, frames[i + 1..]);
        assert StreamChunks(cfg, frames, i, s.writer.None?) == chunk + [];
      } else {
        FoldChunks(cfg, s1, frames, i + 1);
        var rest := StreamChunks(cfg, frames, i + 1, s.writer.None? && !cfg.save);
        assert StreamChunks(cfg, frames, i, s.writer.None?) == chunk + rest;
        Associative(s.log, chunk, rest);
      }
    }
  }

  /** A frame's chunk opens the writer only for the first frame with saving on, and never releases it. */
  lemma ChunkOpens(cfg: AppConfig, k: nat, f: Frame, first: bool)
    ensures CountOpens(StreamChunk(cfg, k, f, first)) == (if first && cfg.save then 1 else 0)
    ensures forall e :: e in StreamChunk(cfg, k, f, first) && e.OpenWriter? ==>
      first && cfg.save && e == OpenWriter(cfg.out, cfg.fps, f.width, f.height)
    ensures ReleaseWriter !in StreamChunk(cfg, k, f, first) && DestroyWindows !in StreamChunk(cfg, k, f, first)
  {
    var opening := if first && cfg.save then WriterOpenEffects(cfg, f) else [];
    var written := if cfg.save then [WriteFrame(Canvas(k, ActiveCounts(f.boxes)))] else [];
    var shown := if cfg.show then [ShowFrame(StreamTitle, k)] else [];
    Associative(opening, written, shown);
    FrameOutput(written, shown);
    CountOpensAppend(opening, written + shown);
  }

  /** Writing and showing a frame opens nothing and tears nothing down. */
  lemma FrameOutput(written: seq<Effect>, shown: seq<Effect>)
    requires |written| <= 1 && forall e :: e in written ==> e.WriteFrame?
    requires |shown| <= 1 && forall e :: e in shown ==> e.ShowFrame?
    ensures CountOpens(written + shown) == 0
    ensures forall e :: e in written + shown ==> !e.OpenWriter? && e != ReleaseWriter && e != DestroyWindows
  {
    var out := written + shown;
    assert |out| <= 2;
    if |out| > 0 {
      assert out[0] in out;
      if |out| > 1 {
        assert out[1] in out;
        assert out[1..][1..] == [];
      } else {
        assert out[1..] == [];
      }
    }
  }

  /** The chunks of the frames after frame `i`. */
  function LaterChunks(cfg: AppConfig, frames: seq<Frame>, i: nat, first: bool): seq<Effect>
    requires i < |frames|
  {
    if cfg.show && QuitPressed(frames[i].key) then [] else StreamChunks(cfg, frames, i + 1, first && !cfg.save)
  }

  /** Frame `i`'s chunk comes first, then those of the frames the loop goes on to. */
  lemma ChunksCons(cfg: AppConfig, frames: seq<Frame>, i: nat, first: bool)
    requires i < |frames|
    ensures StreamChunks(cfg, frames, i, first) == StreamChunk(cfg, i, frames[i], first) + LaterChunks(cfg, frames, i, first)
    ensures StopAt(cfg.show, frames, i) ==
      if cfg.show && QuitPressed(frames[i].key) then i + 1 else StopAt(cfg.show, frames, i + 1)
  {
  }

  /** Over the whole loop the writer is opened once, for the first frame when saving is on. */
  lemma {:induction false} ChunksOpenCount(cfg: AppConfig, frames: seq<Frame>, i: nat, first: bool)
    requires i <= |frames|
    ensures CountOpens(StreamChunks(cfg, frames, i, first)) == (if first && cfg.save && i < |frames| then 1 else 0)
    decreases |frames| - i
  {
    if i < |frames| {
      var chunk := StreamChunk(cfg, i, frames[i], first);
      var rest := LaterChunks(cfg, frames, i, first);
      ChunksCons(cfg, frames, i, first);
      ChunkOpens(cfg, i, frames[i], first);
      if !(cfg.show && QuitPressed(frames[i].key)) {
        ChunksOpenCount(cfg, frames, i + 1, first && !cfg.save);
      }
      CountOpensAppend(chunk, rest);
    }
  }

  /** The only writer the loop opens is sized to the frame at which it started. */
  lemma {:induction false} ChunksOpenWriter(cfg: AppConfig, frames: seq<Frame>, i: nat, first: bool)
    requires i <= |frames|
    ensures forall e :: e in StreamChunks(cfg, frames, i, first) && e.OpenWriter? ==>
      first && cfg.save && e == OpenWriter(cfg.out, cfg.fps, frames[i].width, frames[i].height)
    decreases |frames| - i
  {
    if i < |frames| {
      ChunksCons(cfg, frames, i, first);
      ChunkOpens(cfg, i, frames[i], first);
      if !(cfg.show && QuitPressed(frames[i].key)) {
        ChunksOpenWriter(cfg, frames, i + 1, first && !cfg.save);
      }
    }
  }

  /** The loop neither releases the writer nor closes the windows. */
  lemma {:induction false} ChunksNoTeardown(cfg: AppConfig, frames: seq<Frame>, i: nat, first: bool)
    requires i <= |frames|
    ensures ReleaseWriter !in StreamChunks(cfg, frames, i, first)
    ensures DestroyWindows !in StreamChunks(cfg, frames, i, first)
    decreases |frames| - i
  {
    if i < |frames| {
      ChunksCons(cfg, frames, i, first);
      ChunkOpens(cfg, i, frames[i], first);
      if !(cfg.show && QuitPressed(frames[i].key)) {
        ChunksNoTeardown(cfg, frames, i + 1, first && !cfg.save);
      }
    }
  }

  /** Over the whole loop the writer is opened once, for the first frame, and never released inside the loop. */
  lemma ChunksOpens(cfg: AppConfig, frames: seq<Frame>, i: nat, first: bool)
    requires i <= |frames|
    ensures CountOpens(StreamChunks(cfg, frames, i, first)) == (if first && cfg.save && i < |frames| then 1 else 0)
    ensures forall e :: e in StreamChunks(cfg, frames, i, first) && e.OpenWriter? ==>
      first && cfg.save && e == OpenWriter(cfg.out, cfg.fps, frames[i].width, frames[i].height)
    ensures ReleaseWriter !in StreamChunks(cfg, frames, i, first)
    ensures DestroyWindows !in StreamChunks(cfg, frames, i, first)
  {
    ChunksOpenCount(cfg, frames, i, first);
    ChunksOpenWriter(cfg, frames, i, first);
    ChunksNoTeardown(cfg, frames, i, first);
  }

  /** A frame's chunk writes that frame, with its counts, when saving is on, and shows it when display is on. */
  lemma ChunkFrames(cfg: AppConfig, k: nat, f: Frame, first: bool, c: Canvas, t: string, j: nat)
    ensures WriteFrame(c) in StreamChunk(cfg, k, f, first) <==> cfg.save && c == Canvas(k, ActiveCounts(f.boxes))
    ensures ShowFrame(t, j) in StreamChunk(cfg, k, f, first) <==> cfg.show && t == StreamTitle && j == k
  {
    if first && cfg.save {
      assert WriteFrame(c) !in WriterOpenEffects(cfg, f);
    }
  }

  /**
   * Frame `c.index` is written exactly when saving is on and the loop, started
   * at frame `i`, reached it, with that frame's own class counts.
   */
  lemma {:induction false} ChunksWrites(cfg: AppConfig, frames: seq<Frame>, i: nat, first: bool, c: Canvas)
    requires i <= |frames|
    ensures WriteFrame(c) in StreamChunks(cfg, frames, i, first) <==>
      cfg.save && i <= c.index < StopAt(cfg.show, frames, i)
      && c.counts == ActiveCounts(frames[c.index].boxes)
    decreases |frames| - i
  {
    if i < |frames| {
      ChunksCons(cfg, frames, i, first);
      ChunkFrames(cfg, i, frames[i], first, c, "", 0);
      if !(cfg.show && QuitPressed(frames[i].key)) {
        ChunksWrites(cfg, frames, i + 1, first && !cfg.save, c);
      }
    }
  }

  /** Frame `j` is shown exactly when display is on and the loop, started at frame `i`, reached it. */
  lemma {:induction false} ChunksShows(cfg: AppConfig, frames: seq<Frame>, i: nat, first: bool, t: string, j: nat)
    requires i <= |frames|
    ensures ShowFrame(t, j) in StreamChunks(cfg, frames, i, first) <==>
      cfg.show && t == StreamTitle && i <= j < StopAt(cfg.show, frames, i)
    decreases |frames| - i
  {
    if i < |frames| {
      ChunksCons(cfg, frames, i, first);
      ChunkFrames(cfg, i, frames[i], first, Canvas(0, map[]), t, j);
      if !(cfg.show && QuitPressed(frames[i].key)) {
        ChunksShows(cfg, frames, i + 1, first && !cfg.save, t, j);
      }
    }
  }

  /** A log framed by opening a stream, an optional release and closing the windows. */
  function Framed(call: Call, body: seq<Effect>, release: bool): seq<Effect>
  {
    [Open(call)] + body + (if release then [ReleaseWriter] else []) + [DestroyWindows]
  }

  /** The frame around a body adds no writer, releases only when asked, and ends with closing the windows. */
  lemma FramedEffects(call: Call, body: seq<Effect>, release: bool)
    ensures CountOpens(Framed(call, body, release)) == CountOpens(body)
    ensures forall e :: e in Framed(call, body, release) && e.OpenWriter? ==> e in body
    ensures ReleaseWriter in Framed(call, body, release) <==> release || ReleaseWriter in body
    ensures Framed(call, body, release)[|Framed(call, body, release)| - 1] == DestroyWindows
  {
    var tail := if release then [ReleaseWriter] else [];
    assert CountOpens([Open(call)]) == 0;
    assert CountOpens(tail) == 0 by {
      if release {
        assert tail[1..] == [];
      }
    }
    assert CountOpens([DestroyWindows]) == 0;
    CountOpensAppend([Open(call)], body);
    CountOpensAppend([Open(call)] + body, tail);
    CountOpensAppend([Open(call)] + body + tail, [DestroyWindows]);
  }

  /**
   * The stream pipeline's whole log: open the tracked stream, the effects of
   * the processed frames, release the writer when saving opened one, close
   * the windows.
   */
  lemma StreamLog(cfg: AppConfig, cudaAvailable: bool, frames: seq<Frame>)
    ensures RunStream(cfg, cudaAvailable, frames) ==
      Framed(Track(StreamSource(cfg.source), PickDevice(cfg.device, cudaAvailable), cfg.classes),
             StreamChunks(cfg, frames, 0, true), cfg.save && frames != [])
  {
    var open := Open(Track(StreamSource(cfg.source), PickDevice(cfg.device, cudaAvailable), cfg.classes));
    assert frames[0..] == frames;
    FoldChunks(cfg, StreamState(None, 0, false, [open]), frames, 0);
  }

  /**
   * The writer lifecycle: at most one writer is opened, none when saving is
   * off, sized to the first frame; it is released at teardown exactly when it
   * was opened; the windows are closed last, unconditionally.
   */
  lemma StreamWriterLifecycle(cfg: AppConfig, cudaAvailable: bool, frames: seq<Frame>)
    ensures CountOpens(RunStream(cfg, cudaAvailable, frames)) == (if cfg.save && frames != [] then 1 else 0)
    ensures forall e :: e in RunStream(cfg, cudaAvailable, frames) && e.OpenWriter? ==>
      e == OpenWriter(cfg.out, cfg.fps, frames[0].width, frames[0].height)
    ensures ReleaseWriter in RunStream(cfg, cudaAvailable, frames) <==> CountOpens(RunStream(cfg, cudaAvailable, frames)) == 1
    ensures RunStream(cfg, cudaAvailable, frames)[|RunStream(cfg, cudaAvailable, frames)| - 1] == DestroyWindows
  {
    var call := Track(StreamSource(cfg.source), PickDevice(cfg.device, cudaAvailable), cfg.classes);
    var chunks := StreamChunks(cfg, frames, 0, true);
    StreamLog(cfg, cudaAvailable, frames);
    ChunksOpens(cfg, frames, 0, true);
    FramedEffects(call, chunks, cfg.save && frames != []);
  }

  /**
   * Every frame the stream loop processes is written while saving is on,
   * including the one on which 'q' is pressed, annotated with its own class
   * counts; no other frame is written.
   */
  lemma StreamWritesProcessedFrames(cfg: AppConfig, cudaAvailable: bool, frames: seq<Frame>, c: Canvas)
    ensures WriteFrame(c) in RunStream(cfg, cudaAvailable, frames) <==>
      cfg.save && c.index < Consumed(cfg.show, frames) && c.counts == ActiveCounts(frames[c.index].boxes)
  {
    StreamLog(cfg, cudaAvailable, frames);
    ChunksWrites(cfg, frames, 0, true, c);
  }

  /** With display on, exactly the processed frames are shown; with it off, nothing is. */
  lemma StreamShowsProcessedFrames(cfg: AppConfig, cudaAvailable: bool, frames: seq<Frame>, t: string, j: nat)
    ensures ShowFrame(t, j) in RunStream(cfg, cudaAvailable, frames) <==>
      cfg.show && t == StreamTitle && j < Consumed(cfg.show, frames)
  {
    StreamLog(cfg, cudaAvailable, frames);
    ChunksShows(cfg, frames, 0, true, t, j);
  }

  // ---------------------------------------------------------------- image loops

  /**
   * The effects of the results an image loop processes from result `i` on;
   * `names[i]` is the file name result `i` is saved under.
   */
  function ImageChunks(cfg: AppConfig, title: string, frames: seq<Frame>, names: seq<string>, i: nat): seq<Effect>
    requires |names| == |frames| && i <= |frames|
    decreases |frames| - i
  {
    if i == |frames| then []
    else
      [SaveImage(PathJoin(cfg.outdir, names[i]), i)]
      + (if cfg.show then [ShowFrame(title, i)] else [])
      + (if cfg.show && QuitPressed(frames[i].key) then []
         else ImageChunks(cfg, title, frames, names, i + 1))
  }

  /** The output name of every result, by its position in the results. */
  function OutputNames(frames: seq<Frame>): (names: seq<string>)
    ensures |names| == |frames|
    ensures forall i :: 0 <= i < |frames| ==> names[i] == OutputName(i, frames[i].path)
  {
    seq(|frames|, i requires 0 <= i < |frames| => OutputName(i, frames[i].path))
  }

  /** The call that opens an image pipeline's results: tracking (with the class filter) or plain prediction. */
  function ImageCall(cfg: AppConfig, cudaAvailable: bool, track: bool): Call
  {
    var device := PickDevice(cfg.device, cudaAvailable);
    if track then Track(Location(cfg.source), device, cfg.classes) else Predict(Location(cfg.source), device)
  }

  /** `_run_images_track` (`track`) or `_run_images_detect`: create the output folder, open the results, save each, close the windows. */
  function RunImages(cfg: AppConfig, cudaAvailable: bool, track: bool, frames: seq<Frame>): seq<Effect>
  {
    [MakeDirs(cfg.outdir), Open(ImageCall(cfg, cudaAvailable, track))]
    + ImageChunks(cfg, if track then TrackTitle else DetectTitle, frames, OutputNames(frames), 0)
    + [DestroyWindows]
  }

  /** An image loop only saves and shows. */
  lemma {:induction false} ImageChunksKinds(cfg: AppConfig, title: string, frames: seq<Frame>, names: seq<string>, i: nat)
    requires |names| == |frames| && i <= |frames|
    ensures forall e :: e in ImageChunks(cfg, title, frames, names, i) ==> e.SaveImage? || e.ShowFrame?
    decreases |frames| - i
  {
    if i < |frames| && !(cfg.show && QuitPressed(frames[i].key)) {
      ImageChunksKinds(cfg, title, frames, names, i + 1);
    }
  }

  /** Result `j` is saved exactly when the loop, started at result `i`, reached it, under its name inside the output folder. */
  lemma {:induction false} ImageChunksSaves(cfg: AppConfig, title: string, frames: seq<Frame>, names: seq<string>, i: nat, p: string, j: nat)
    requires |names| == |frames| && i <= |frames|
    ensures SaveImage(p, j) in ImageChunks(cfg, title, frames, names, i) <==>
      i <= j < StopAt(cfg.show, frames, i) && p == PathJoin(cfg.outdir, names[j])
    decreases |frames| - i
  {
    if i < |frames| {
      var quit := cfg.show && QuitPressed(frames[i].key);
      var saved := SaveImage(PathJoin(cfg.outdir, names[i]), i);
      var shown := if cfg.show then [ShowFrame(title, i)] else [];
      var rest := if quit then [] else ImageChunks(cfg, title, frames, names, i + 1);
      assert ImageChunks(cfg, title, frames, names, i) == [saved] + shown + rest;
      if !quit {
        ImageChunksSaves(cfg, title, frames, names, i + 1, p, j);
      }
    }
  }

  lemma {:induction false} NoOpensInImages(log: seq<Effect>)
    requires forall e :: e in log ==> e.SaveImage? || e.ShowFrame?
    ensures CountOpens(log) == 0
  {
    if log != [] {
      assert log[0] in log;
      NoOpensInImages(log[1..]);
    }
  }

  /** No effect in a two-element prefix of `MakeDirs` and `Open` opens a writer. */
  lemma ImageHeadOpens(dir: string, call: Call)
    ensures CountOpens([MakeDirs(dir), Open(call)]) == 0
  {
    var head := [MakeDirs(dir), Open(call)];
    var tail := [Open(call)];
    assert tail[1..] == [];
    assert CountOpens(tail) == 0;
    assert head[1..] == tail;
    assert CountOpens(head) == CountOpens(tail);
  }

  /**
   * The image pipelines create the output folder and open the results first,
   * never open a video writer, and close the windows last.
   */
  lemma ImagePipelineShape(cfg: AppConfig, cudaAvailable: bool, track: bool, frames: seq<Frame>)
    ensures RunImages(cfg, cudaAvailable, track, frames)[0] == MakeDirs(cfg.outdir)
    ensures RunImages(cfg, cudaAvailable, track, frames)[1] == Open(ImageCall(cfg, cudaAvailable, track))
    ensures var log := RunImages(cfg, cudaAvailable, track, frames); log[|log| - 1] == DestroyWindows
    ensures CountOpens(RunImages(cfg, cudaAvailable, track, frames)) == 0
  {
    var title := if track then TrackTitle else DetectTitle;
    var head := [MakeDirs(cfg.outdir), Open(ImageCall(cfg, cudaAvailable, track))];
    var names := OutputNames(frames);
    var chunks := ImageChunks(cfg, title, frames, names, 0);
    ImageChunksKinds(cfg, title, frames, names, 0);
    NoOpensInImages(chunks);
    ImageHeadOpens(cfg.outdir, ImageCall(cfg, cudaAvailable, track));
    assert CountOpens([DestroyWindows]) == 0;
    CountOpensAppend(head, chunks);
    CountOpensAppend(head + chunks, [DestroyWindows]);
  }

  /** The image run saves what its loop saves: the other effects are not saves. */
  lemma RunImagesSaves(cfg: AppConfig, cudaAvailable: bool, track: bool, frames: seq<Frame>, p: string, j: nat)
    ensures SaveImage(p, j) in RunImages(cfg, cudaAvailable, track, frames) <==>
      j < Consumed(cfg.show, frames) && p == PathJoin(cfg.outdir, OutputNames(frames)[j])
  {
    var title := if track then TrackTitle else DetectTitle;
    var head := [MakeDirs(cfg.outdir), Open(ImageCall(cfg, cudaAvailable, track))];
    var names := OutputNames(frames);
    var chunks := ImageChunks(cfg, title, frames, names, 0);
    ImageChunksSaves(cfg, title, frames, names, 0, p, j);
    assert RunImages(cfg, cudaAvailable, track, frames) == head + chunks + [DestroyWindows];
    assert SaveImage(p, j) !in head;
  }

  /**
   * Every result the loop reaches is saved, including the one on which 'q' is
   * pressed, under a path whose basename is the result's output name.
   */
  lemma ImagePipelineSaves(cfg: AppConfig, cudaAvailable: bool, track: bool, frames: seq<Frame>, p: string, j: nat)
    ensures SaveImage(p, j) in RunImages(cfg, cudaAvailable, track, frames) <==>
      j < Consumed(cfg.show, frames) && p == PathJoin(cfg.outdir, OutputName(j, frames[j].path))
    ensures SaveImage(p, j) in RunImages(cfg, cudaAvailable, track, frames) ==>
      Basename(p) == OutputName(j, frames[j].path)
  {
    RunImagesSaves(cfg, cudaAvailable, track, frames, p, j);
    if j < |frames| {
      var name := OutputNames(frames)[j];
      assert name == OutputName(j, frames[j].path);
      JoinKeepsName(cfg.outdir, name);
    }
  }
}
