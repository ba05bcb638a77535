/** The run configuration record and the `--classes` filter parser. */
module Config {
  import opened Base
  import opened Text

  /**
   * Every run parameter, as the constructor receives it. Python floats are
   * modelled as `real`; `mode` may be `None`, which the dispatcher treats as "live".
   */
  datatype AppConfig = AppConfig(
    weights: string,
    source: string,
    imgsz: int,
    conf: real,
    iou: real,
    tracker: string,
    device: string,
    show: bool,
    save: bool,
    out: string,
    fps: real,
    vidStride: int,
    maxDet: int,
    classes: Option<seq<int>>,
    mode: Option<string>,
    outdir: string,
    imageSeqTrack: bool)

  /** The constructor with its keyword defaults: every argument is stored as given. */
  function NewAppConfig(
    weights: string := "best.pt",
    source: string := "0",
    imgsz: int := 640,
    conf: real := 0.35,
    iou: real := 0.50,
    tracker: string := "bytetrack.yaml",
    device: string := "auto",
    show: bool := false,
    save: bool := false,
    out: string := "outputs/traffic_sign_tracking.mp4",
    fps: real := 30.0,
    vidStride: int := 1,
    maxDet: int := 300,
    classes: Option<seq<int>> := None,
    mode: Option<string> := Some("live"),
    outdir: string := "outputs/images",
    imageSeqTrack: bool := false): (c: AppConfig)
    ensures c.weights == weights && c.source == source && c.imgsz == imgsz
    ensures c.conf == conf && c.iou == iou && c.tracker == tracker && c.device == device
    ensures c.show == show && c.save == save && c.out == out && c.fps == fps
    ensures c.vidStride == vidStride && c.maxDet == maxDet && c.classes == classes
    ensures c.mode == mode && c.outdir == outdir && c.imageSeqTrack == imageSeqTrack
  {
    AppConfig(weights, source, imgsz, conf, iou, tracker, device, show, save, out,
              fps, vidStride, maxDet, classes, mode, outdir, imageSeqTrack)
  }

  /** A configuration built with no arguments runs live, shows and saves nothing, and picks the device itself. */
  lemma DefaultConfig()
    ensures var c := NewAppConfig();
      && c.mode == Some("live") && !c.show && !c.save && c.device == "auto"
      && c.source == "0" && c.classes == None && !c.imageSeqTrack
  {
  }

  // ---------------------------------------------------------------- parse_classes

  /** An entry the parser keeps: all digits once surrounding whitespace is trimmed. */
  predicate IsId(piece: string) {
    IsDigits(Strip(piece))
  }

  /** `int(piece.strip())` for a kept entry. */
  function IdOf(piece: string): (id: int)
    requires IsId(piece)
    ensures id >= 0
  {
    DecimalValue(Strip(piece))
  }

  /** What one entry contributes to the result. */
  function Entry(piece: string): seq<int>
  {
    if IsId(piece) then [IdOf(piece)] else []
  }

  /** The ids the loop over the entries appends, in entry order. */
  function DigitEntries(pieces: seq<string>): (ids: seq<int>)
    ensures |ids| <= |pieces|
    ensures forall k :: 0 <= k < |ids| ==> ids[k] >= 0
  {
    if pieces == [] then [] else Entry(pieces[0]) + DigitEntries(pieces[1..])
  }

  /** Nothing is kept exactly when no entry is all digits. */
  lemma {:induction false} DigitEntriesEmpty(pieces: seq<string>)
    ensures DigitEntries(pieces) == [] <==> forall p :: p in pieces ==> !IsId(p)
  {
    if pieces != [] {
      DigitEntriesEmpty(pieces[1..]);
      assert forall p :: p in pieces <==> p == pieces[0] || p in pieces[1..];
    }
  }

  /** An id is in the result exactly when some entry is a kept entry denoting it. */
  lemma {:induction false} DigitEntriesMembers(pieces: seq<string>, x: int)
    ensures x in DigitEntries(pieces) <==> exists p :: p in pieces && IsId(p) && x == IdOf(p)
  {
    if pieces != [] {
      DigitEntriesMembers(pieces[1..], x);
      assert forall p :: p in pieces <==> p == pieces[0] || p in pieces[1..];
    }
  }

  /** The parser is a filter-map over the entries: it distributes over concatenation. */
  lemma {:induction false} DigitEntriesAppend(a: seq<string>, b: seq<string>)
    ensures DigitEntries(a + b) == DigitEntries(a) + DigitEntries(b)
  {
    if a == [] {
      assert a + b == b;
    } else {
      assert (a + b)[0] == a[0];
      assert (a + b)[1..] == a[1..] + b;
      var x, y, z := Entry(a[0]), DigitEntries(a[1..]), DigitEntries(b);
      DigitEntriesCons(a + b);
      DigitEntriesCons(a);
      DigitEntriesAppend(a[1..], b);
      Associative(x, y, z);
    }
  }

  /**
   * `parse_classes(arg)`: `None` for a missing or empty argument; otherwise the
   * ids of the all-digit entries, or `None` if there are none.
   */
  function ParseClasses(arg: Option<string>): (r: Option<seq<int>>)
    ensures arg.None? || arg == Some("") ==> r.None?
    ensures r.Some? ==> |r.value| > 0
    ensures r.Some? ==> forall k :: 0 <= k < |r.value| ==> r.value[k] >= 0
    ensures r.Some? ==> |r.value| <= multiset(arg.value)[','] + 1
    ensures arg.Some? ==>
      (r.None? <==> forall p :: p in Split(arg.value, ',') ==> !IsId(p))
    ensures r.Some? ==> r.value == DigitEntries(Split(arg.value, ','))
  {
    if arg.None? || arg.value == "" then None
    else
      var pieces := Split(arg.value, ',');
      var ids := DigitEntries(pieces);
      DigitEntriesEmpty(pieces);
      SplitCount(arg.value, ',');
      if ids == [] then None else Some(ids)
  }

  /** `str(id)` for each id. */
  function Render(ids: seq<int>): (texts: seq<string>)
    requires forall k :: 0 <= k < |ids| ==> ids[k] >= 0
    ensures |texts| == |ids|
    ensures forall k :: 0 <= k < |ids| ==> texts[k] == NatToString(ids[k])
  {
    seq(|ids|, k requires 0 <= k < |ids| => NatToString(ids[k]))
  }

  /** `",".join(str(i) for i in ids)`: the text a user types to select `ids`. */
  function FormatClasses(ids: seq<int>): string
    requires forall k :: 0 <= k < |ids| ==> ids[k] >= 0
  {
    JoinWith(Render(ids), ',')
  }

  /** The decimal form of an id is a kept entry that denotes that id. */
  lemma EntryOfDecimal(n: nat)
    ensures IsId(NatToString(n)) && IdOf(NatToString(n)) == n
    ensures Entry(NatToString(n)) == [n]
  {
    var s := NatToString(n);
    StripUnchanged(s);
  }

  /** The loop handles the first entry, then the rest. */
  lemma DigitEntriesCons(pieces: seq<string>)
    requires pieces != []
    ensures DigitEntries(pieces) == Entry(pieces[0]) + DigitEntries(pieces[1..])
  {
  }

  lemma RenderTail(ids: seq<int>)
    requires ids != []
    requires forall k :: 0 <= k < |ids| ==> ids[k] >= 0
    ensures Render(ids)[0] == NatToString(ids[0])
    ensures Render(ids)[1..] == Render(ids[1..])
  {
  }

  /** Reading back the decimal forms of ids gives the ids. */
  lemma {:induction false} DigitEntriesOfRendered(ids: seq<int>)
    requires forall k :: 0 <= k < |ids| ==> ids[k] >= 0
    ensures DigitEntries(Render(ids)) == ids
  {
    if ids != [] {
      var texts := Render(ids);
      RenderTail(ids);
      DigitEntriesCons(texts);
      DigitEntriesOfRendered(ids[1..]);
      EntryOfDecimal(ids[0]);
      assert ids == [ids[0]] + ids[1..];
    }
  }

  /**
   * Round trip: parsing the comma-joined decimal forms of a non-empty list of
   * ids gives back that list, in order and with duplicates.
   */
  lemma ParseFormatted(ids: seq<int>)
    requires |ids| > 0
    requires forall k :: 0 <= k < |ids| ==> ids[k] >= 0
    ensures ParseClasses(Some(FormatClasses(ids))) == Some(ids)
  {
    var texts := Render(ids);
    assert forall k :: 0 <= k < |texts| ==> ',' !in texts[k] by {
      forall k | 0 <= k < |texts|
        ensures ',' !in texts[k]
      {
        assert IsDigits(texts[k]);
      }
    }
    SplitJoin(texts, ',');
    DigitEntriesOfRendered(ids);
    assert |FormatClasses(ids)| >= |texts[0]| > 0;
  }

  lemma JoinExample()
    ensures JoinWith([" 2 ", " x", " 7"], ',') == " 2 , x, 7"
  {
    assert JoinWith([" x", " 7"], ',') == " x, 7";
  }

  lemma SplitExample()
    ensures Split(" 2 , x, 7", ',') == [" 2 ", " x", " 7"]
  {
    JoinExample();
    SplitJoin([" 2 ", " x", " 7"], ',');
  }

  lemma EntryTwo()
    ensures Entry(" 2 ") == [2]
  {
    StripSurrounded(" ", "2", " ");
    assert " " + "2" + " " == " 2 ";
  }

  lemma EntryX()
    ensures Entry(" x") == []
  {
    StripSurrounded(" ", "x", "");
    assert " " + "x" + "" == " x";
  }

  lemma EntrySeven()
    ensures Entry(" 7") == [7]
  {
    StripSurrounded(" ", "7", "");
    assert " " + "7" + "" == " 7";
  }

  lemma EntrySigned()
    ensures Entry("-1") == [] && Entry("+3") == []
  {
    StripUnchanged("-1");
    StripUnchanged("+3");
  }

  lemma EntriesExample()
    ensures DigitEntries([" 2 ", " x", " 7"]) == [2, 7]
  {
    var pieces := [" 2 ", " x", " 7"];
    EntryTwo();
    EntryX();
    EntrySeven();
    DigitEntriesCons(pieces);
    DigitEntriesCons(pieces[1..]);
    DigitEntriesCons(pieces[2..]);
    assert pieces[1..][1..] == pieces[2..];
    assert pieces[2..][1..] == [];
  }

  /** Example: blanks are trimmed and the non-numeric entry is dropped. */
  lemma ParseExample()
    ensures ParseClasses(Some(" 2 , x, 7")) == Some([2, 7])
  {
    SplitExample();
    EntriesExample();
  }

  lemma SplitSigned()
    ensures Split("-1,+3", ',') == ["-1", "+3"]
  {
    assert JoinWith(["-1", "+3"], ',') == "-1,+3";
    SplitJoin(["-1", "+3"], ',');
  }

  /** Signed entries fail the digit test, so they are dropped. */
  lemma ParseSigned()
    ensures ParseClasses(Some("-1,+3")) == None
  {
    SplitSigned();
    EntrySigned();
    DigitEntriesAppend(["-1"], ["+3"]);
  }
}
