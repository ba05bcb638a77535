/**
 * `DetectorApp.run`: choose a pipeline from the configured mode and run it.
 * Live and video input share the stream pipeline; image input runs plain
 * detection, or tracking across the sequence when `image_seq_track` is set.
 */
module Dispatch {
  import opened Base
  import opened Text
  import opened Config
  import opened App
  import opened Pipelines

  datatype Pipeline = StreamPipeline | ImageDetectPipeline | ImageTrackPipeline

  /** `"live".lower()` is `"live"`. */
  lemma LowerLive()
    ensures Lower("live") == "live"
  {
    var l := Lower("live");
    assert l[0] == 'l' && l[1] == 'i' && l[2] == 'v' && l[3] == 'e';
  }

  /**
   * `(mode or "live").lower()`: a missing or empty mode means live; any other
   * mode is compared case-insensitively.
   */
  function EffectiveMode(mode: Option<string>): (m: string)
    ensures mode.None? || mode.value == "" ==> m == "live"
    ensures mode.Some? ==> |m| == |mode.value| || mode.value == ""
    ensures mode.Some? && mode.value != "" ==> forall i :: 0 <= i < |m| ==> m[i] == LowerChar(mode.value[i])
  {
    LowerLive();
    Lower(if mode.Some? && mode.value != "" then mode.value else "live")
  }

  /**
   * The dispatch table: "live" and "video" select the stream pipeline, "image"
   * one of the image pipelines by the tracking flag, and any other mode is an
   * error naming the mode as given.
   */
  function SelectPipeline(mode: Option<string>, imageSeqTrack: bool): (r: Result<Pipeline>)
    ensures r == Ok(StreamPipeline) <==> EffectiveMode(mode) == "live" || EffectiveMode(mode) == "video"
    ensures r == Ok(ImageTrackPipeline) <==> EffectiveMode(mode) == "image" && imageSeqTrack
    ensures r == Ok(ImageDetectPipeline) <==> EffectiveMode(mode) == "image" && !imageSeqTrack
    ensures r.Err? ==> mode.Some? && r.message == "Unknown mode: " + mode.value
  {
    var m := EffectiveMode(mode);
    if m == "live" || m == "video" then Ok(StreamPipeline)
    else if m == "image" then (if imageSeqTrack then Ok(ImageTrackPipeline) else Ok(ImageDetectPipeline))
    else Err("Unknown mode: " + (if mode.Some? then mode.value else "None"))
  }

  /** Modes that differ only in the case of ASCII letters select the same pipeline. */
  lemma SelectCaseInsensitive(a: string, b: string, imageSeqTrack: bool)
    requires |a| == |b| && forall i :: 0 <= i < |a| ==> LowerChar(a[i]) == LowerChar(b[i])
    ensures SelectPipeline(Some(a), imageSeqTrack).Ok? <==> SelectPipeline(Some(b), imageSeqTrack).Ok?
    ensures SelectPipeline(Some(a), imageSeqTrack).Ok? ==>
      SelectPipeline(Some(a), imageSeqTrack) == SelectPipeline(Some(b), imageSeqTrack)
  {
    if a != [] {
      assert EffectiveMode(Some(a)) == EffectiveMode(Some(b));
    }
  }

  /** Without a mode, and with an empty one, the stream pipeline runs. */
  lemma DefaultModeIsLive(imageSeqTrack: bool)
    ensures SelectPipeline(None, imageSeqTrack) == Ok(StreamPipeline)
    ensures SelectPipeline(Some(""), imageSeqTrack) == Ok(StreamPipeline)
  {
  }

  lemma UpperLiveIsStream(imageSeqTrack: bool)
    ensures SelectPipeline(Some("LIVE"), imageSeqTrack) == Ok(StreamPipeline)
  {
    LowerLive();
    SelectCaseInsensitive("LIVE", "live", imageSeqTrack);
  }

  lemma UpperImageIsImage(imageSeqTrack: bool)
    ensures SelectPipeline(Some("Image"), imageSeqTrack) ==
      if imageSeqTrack then Ok(ImageTrackPipeline) else Ok(ImageDetectPipeline)
  {
    var m := EffectiveMode(Some("Image"));
    assert m[0] == 'i' && m[1] == 'm' && m[2] == 'a' && m[3] == 'g' && m[4] == 'e';
    assert m == "image";
  }

  /** `--mode webcam` is rejected, naming the mode. */
  lemma UnknownModeRejected(imageSeqTrack: bool)
    ensures SelectPipeline(Some("webcam"), imageSeqTrack) == Err("Unknown mode: webcam")
  {
    var m := EffectiveMode(Some("webcam"));
    assert m[0] == 'w';
    assert m != "live" && m != "video" && m != "image";
  }

  /**
   * `run`: the effects of the selected pipeline, or the `ValueError` of an
   * unknown mode, raised before anything is opened.
   */
  function Run(cfg: AppConfig, cudaAvailable: bool, frames: seq<Frame>): (r: Result<seq<Effect>>)
    ensures r.Err? <==> SelectPipeline(cfg.mode, cfg.imageSeqTrack).Err?
    ensures r.Err? ==> cfg.mode.Some? && r.message == "Unknown mode: " + cfg.mode.value
    ensures r.Ok? ==> |r.value| >= 2 && r.value[|r.value| - 1] == DestroyWindows
    ensures r.Ok? ==>
      var streamSaves := SelectPipeline(cfg.mode, cfg.imageSeqTrack) == Ok(StreamPipeline) && cfg.save && frames != [];
      CountOpens(r.value) == if streamSaves then 1 else 0
  {
    match SelectPipeline(cfg.mode, cfg.imageSeqTrack)
    case Err(message) => Err(message)
    case Ok(StreamPipeline) =>
      StreamWriterLifecycle(cfg, cudaAvailable, frames);
      StreamLog(cfg, cudaAvailable, frames);
      Ok(RunStream(cfg, cudaAvailable, frames))
    case Ok(ImageDetectPipeline) =>
      ImagePipelineShape(cfg, cudaAvailable, false, frames);
      Ok(RunImages(cfg, cudaAvailable, false, frames))
    case Ok(ImageTrackPipeline) =>
      ImagePipelineShape(cfg, cudaAvailable, true, frames);
      Ok(RunImages(cfg, cudaAvailable, true, frames))
  }

  /**
   * What each mode runs: live and video input run the stream pipeline, which
   * opens the tracked stream first; image input runs an image pipeline, which
   * creates the output folder and then opens tracking or plain detection over
   * the images by the tracking flag.
   */
  lemma RunModes(cfg: AppConfig, cudaAvailable: bool, frames: seq<Frame>)
    ensures var m := EffectiveMode(cfg.mode);
      (m == "live" || m == "video") ==>
        && Run(cfg, cudaAvailable, frames) == Ok(RunStream(cfg, cudaAvailable, frames))
        && Run(cfg, cudaAvailable, frames).value[0] ==
           Open(Track(StreamSource(cfg.source), PickDevice(cfg.device, cudaAvailable), cfg.classes))
    ensures var m := EffectiveMode(cfg.mode);
      m == "image" ==>
        && Run(cfg, cudaAvailable, frames) == Ok(RunImages(cfg, cudaAvailable, cfg.imageSeqTrack, frames))
        && Run(cfg, cudaAvailable, frames).value[0] == MakeDirs(cfg.outdir)
        && Run(cfg, cudaAvailable, frames).value[1] ==
           Open(if cfg.imageSeqTrack then Track(Location(cfg.source), PickDevice(cfg.device, cudaAvailable), cfg.classes)
                else Predict(Location(cfg.source), PickDevice(cfg.device, cudaAvailable)))
  {
    var m := EffectiveMode(cfg.mode);
    if m == "live" || m == "video" {
      StreamLog(cfg, cudaAvailable, frames);
    } else if m == "image" {
      ImagePipelineShape(cfg, cudaAvailable, cfg.imageSeqTrack, frames);
    }
  }

  /** "live" and "video" select the same pipeline. */
  lemma LiveAndVideoAgree(imageSeqTrack: bool)
    ensures SelectPipeline(Some("live"), imageSeqTrack) == Ok(StreamPipeline)
    ensures SelectPipeline(Some("video"), imageSeqTrack) == Ok(StreamPipeline)
  {
    LowerLive();
    var v := EffectiveMode(Some("video"));
    assert v[0] == 'v' && v[1] == 'i' && v[2] == 'd' && v[3] == 'e' && v[4] == 'o';
    assert v == "video";
  }
}
