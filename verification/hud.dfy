/**
 * The heads-up display: the list of text lines and the integer geometry of
 * the panel behind them. Pixels are not modelled; the text extent comes from
 * a measuring function supplied by the caller (OpenCV's `getTextSize`).
 */
module Hud {
  import opened Base
  import opened Text
  import opened Sorted

  /** Margin of the panel from the image corner and inside the panel. */
  const Pad: int := 8
  /** The panel never gets wider than this. */
  const MaxPanelWidth: int := 360
  /** Vertical space added to the text height for each line. */
  const LineGap: int := 6

  const Header: string := "Active tracks:"

  /** The first line; the smoothed rate arrives already formatted with one decimal. */
  function FpsLine(fpsText: string): string {
    "FPS: " + fpsText
  }

  /**
   * The label of a class: its name when the name table has one, otherwise the
   * decimal id. `names == None` stands for a name table without a `get` method.
   */
  function Label(cid: int, names: Option<map<int, string>>): string {
    if names.Some? && cid in names.value then names.value[cid] else IntToString(cid)
  }

  /** `"  <label>: <count>"`. */
  function ClassLine(cid: int, count: int, names: Option<map<int, string>>): string {
    "  " + Label(cid, names) + ": " + IntToString(count)
  }

  /** One class line per id, in the order of `ids`. */
  function ClassLines(ids: seq<int>, counts: map<int, int>, names: Option<map<int, string>>): (lines: seq<string>)
    requires forall k :: 0 <= k < |ids| ==> ids[k] in counts
    ensures |lines| == |ids|
    ensures forall k :: 0 <= k < |ids| ==> lines[k] == ClassLine(ids[k], counts[ids[k]], names)
  {
    seq(|ids|, k requires 0 <= k < |ids| => ClassLine(ids[k], counts[ids[k]], names))
  }

  /**
   * The lines of the HUD: the FPS line; then, when any class is active, the
   * header and one line per class id in ascending id order.
   */
  function HudLines(fpsText: string, counts: map<int, int>, names: Option<map<int, string>>): (lines: seq<string>)
    ensures |lines| >= 1 && lines[0] == FpsLine(fpsText)
    ensures |counts| == 0 ==> |lines| == 1
    ensures |counts| > 0 ==> |lines| == 2 + |counts| && lines[1] == Header
    ensures |counts| > 0 ==> lines[2..] == ClassLines(SortedKeys(counts.Keys), counts, names)
  {
    if |counts| == 0 then [FpsLine(fpsText)]
    else
      SortedKeysMembers(counts.Keys);
      var classes := ClassLines(SortedKeys(counts.Keys), counts, names);
      var lines := [FpsLine(fpsText), Header] + classes;
      assert lines[2..] == classes;
      lines
  }

  /**
   * The class lines are listed by ascending id and cover every active class
   * exactly once: line `2 + k` belongs to the `k`-th smallest id.
   */
  lemma HudClassOrder(fpsText: string, counts: map<int, int>, names: Option<map<int, string>>, i: int, j: int)
    requires |counts| > 0
    requires 2 <= i < j < 2 + |counts|
    ensures var ids := SortedKeys(counts.Keys);
      && ids[i - 2] < ids[j - 2]
      && HudLines(fpsText, counts, names)[i] == ClassLine(ids[i - 2], counts[ids[i - 2]], names)
      && HudLines(fpsText, counts, names)[j] == ClassLine(ids[j - 2], counts[ids[j - 2]], names)
  {
    var lines := HudLines(fpsText, counts, names);
    assert lines[i] == lines[2..][i - 2] && lines[j] == lines[2..][j - 2];
  }

  /**
   * Listing the classes in any strictly ascending enumeration of the active ids
   * gives the HUD's class lines: the order depends on the ids alone.
   */
  lemma HudLinesByAscendingIds(fpsText: string, counts: map<int, int>, names: Option<map<int, string>>, ids: seq<int>)
    requires |counts| > 0
    requires StrictlyIncreasing(ids)
    requires forall x :: x in ids <==> x in counts
    ensures forall k :: 0 <= k < |ids| ==> ids[k] in counts
    ensures HudLines(fpsText, counts, names) == [FpsLine(fpsText), Header] + ClassLines(ids, counts, names)
  {
    SortedKeysUnique(counts.Keys, ids);
  }

  /** A class with no name is shown by its decimal id, which reads back as that id. */
  lemma LabelFallback(cid: int, names: Option<map<int, string>>)
    requires cid >= 0
    requires names.None? || cid !in names.value
    ensures IsDigits(Label(cid, names)) && DecimalValue(Label(cid, names)) == cid
  {
  }

  lemma SmallNumbers()
    ensures IntToString(1) == "1" && IntToString(2) == "2"
  {
  }

  lemma ExampleClassLines()
    ensures ClassLines([1, 3], map[3 := 2, 1 := 1], Some(map[1 := "stop", 3 := "yield"]))
      == ["  stop: 1", "  yield: 2"]
  {
    var names := Some(map[1 := "stop", 3 := "yield"]);
    SmallNumbers();
    assert ClassLine(1, 1, names) == "  stop: 1";
    assert ClassLine(3, 2, names) == "  yield: 2";
  }

  /** Example: classes 3 and 1 are listed as class 1 first, then class 3. */
  lemma HudExample(fpsText: string)
    ensures HudLines(fpsText, map[3 := 2, 1 := 1], Some(map[1 := "stop", 3 := "yield"]))
      == [FpsLine(fpsText), Header, "  stop: 1", "  yield: 2"]
  {
    var counts := map[3 := 2, 1 := 1];
    assert forall x :: x in [1, 3] <==> x in counts;
    HudLinesByAscendingIds(fpsText, counts, Some(map[1 := "stop", 3 := "yield"]), [1, 3]);
    ExampleClassLines();
  }

  // ---------------------------------------------------------------- geometry

  /** An axis-aligned rectangle given by two corners. */
  datatype Rect = Rect(left: int, top: int, right: int, bottom: int)

  /** Where everything goes: the panel, the text column and one baseline per line. */
  datatype Layout = Layout(lines: seq<string>, panel: Rect, textLeft: int, baselines: seq<int>)

  /** `min(360, tw + 2 * pad)`. */
  function PanelWidth(tw: int): (w: int)
    ensures w <= MaxPanelWidth && w <= tw + 2 * Pad
    ensures w == MaxPanelWidth || w == tw + 2 * Pad
  {
    if tw + 2 * Pad < MaxPanelWidth then tw + 2 * Pad else MaxPanelWidth
  }

  /** `n` baselines starting at `y`, each `step` below the previous one. */
  function Baselines(n: nat, y: int, step: int): (ys: seq<int>)
    ensures |ys| == n
    ensures forall k :: 0 <= k < n ==> ys[k] == y + k * step
  {
    if n == 0 then []
    else
      var rest := Baselines(n - 1, y + step, step);
      assert forall k :: 0 <= k < n - 1 ==> rest[k] == y + (k + 1) * step;
      [y] + rest
  }

  /** The layout of `lines` for a text extent of `tw` by `th` pixels. */
  function LayoutHud(lines: seq<string>, tw: nat, th: nat): (l: Layout)
    ensures l.lines == lines
    ensures l.panel.left == Pad && l.panel.top == Pad
    ensures l.panel.right - l.panel.left <= MaxPanelWidth
    ensures l.panel.right == Pad + PanelWidth(tw)
    ensures l.textLeft == Pad + 6
    ensures l.panel.bottom - l.panel.top == |lines| * (th + LineGap) + Pad
    ensures |l.baselines| == |lines|
    ensures forall k :: 0 <= k < |lines| ==> l.baselines[k] == Pad + th + 4 + k * (th + LineGap)
  {
    var boxW := PanelWidth(tw);
    var boxH := |lines| * (th + LineGap) + Pad;
    Layout(lines, Rect(Pad, Pad, Pad + boxW, Pad + boxH), Pad + 6, Baselines(|lines|, Pad + th + 4, th + LineGap))
  }

  /** Row `k + 1` of `n` rows of height `step` still ends inside the `n` rows. */
  lemma RowFits(n: int, k: int, step: int)
    requires 0 <= k < n && step >= 0
    ensures 0 <= k * step && (k + 1) * step == k * step + step && (k + 1) * step <= n * step
  {
    assert n * step - (k + 1) * step == (n - (k + 1)) * step;
  }

  /** Below the panel's top edge, each baseline is `th + 6` lower than the one before and above the bottom edge. */
  lemma BaselinesInsidePanel(lines: seq<string>, tw: nat, th: nat, k: int)
    requires 0 <= k < |lines|
    ensures var l := LayoutHud(lines, tw, th);
      && l.panel.top < l.baselines[k] < l.panel.bottom
      && (k + 1 < |lines| ==> l.baselines[k + 1] == l.baselines[k] + th + LineGap)
  {
    RowFits(|lines|, k, th + LineGap);
  }

  /**
   * `draw_hud` without the pixels: the lines, then the layout for the extent
   * `measure` reports for the lines joined by single spaces.
   */
  function DrawHud(fpsText: string, counts: map<int, int>, names: Option<map<int, string>>,
                   measure: string -> (nat, nat)): (l: Layout)
    ensures l.lines == HudLines(fpsText, counts, names)
    ensures |l.baselines| == |l.lines|
    ensures l.textLeft == Pad + 6
    ensures var extent := measure(JoinWith(l.lines, ' '));
      && l.panel == Rect(Pad, Pad, Pad + PanelWidth(extent.0), Pad + |l.lines| * (extent.1 + LineGap) + Pad)
      && forall k :: 0 <= k < |l.lines| ==> l.baselines[k] == Pad + extent.1 + 4 + k * (extent.1 + LineGap)
  {
    var lines := HudLines(fpsText, counts, names);
    var extent := measure(JoinWith(lines, ' '));
    LayoutHud(lines, extent.0, extent.1)
  }
}
