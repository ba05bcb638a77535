/**
 * The pure decisions of the detector application: which device to run on,
 * how many boxes of each class are active, when the quit key was pressed, and
 * what the image pipelines call their output files.
 */
module App {
  import opened Base
  import opened Text
  import opened Paths
  import opened Sorted

  /** The boxes of one result: their class ids, and track ids when the tracker assigned any. */
  datatype Boxes = Boxes(cls: seq<int>, ids: Option<seq<int>>)

  /**
   * One result pulled from the detection/tracking stream: the size of its
   * annotated image, its boxes (if any), the path of its source image (if it
   * has one) and the key code `waitKey` returns after the image is shown.
   */
  datatype Frame = Frame(width: nat, height: nat, boxes: Option<Boxes>, path: Option<string>, key: int)

  /** What the stream is opened on: a camera index or a file/URL descriptor. */
  datatype Source = Camera(index: int) | Location(descriptor: string)

  // ---------------------------------------------------------------- device

  /** `_pick_device`: "auto" resolves to the first accelerator or the CPU; anything else is kept. */
  function PickDevice(arg: string, cudaAvailable: bool): (device: string)
    ensures arg != "auto" ==> device == arg
    ensures arg == "auto" && cudaAvailable ==> device == "0"
    ensures arg == "auto" && !cudaAvailable ==> device == "cpu"
  {
    if arg == "auto" then (if cudaAvailable then "0" else "cpu") else arg
  }

  /** A resolved device is never "auto", so resolving it again changes nothing. */
  lemma PickDeviceIdempotent(arg: string, cudaAvailable: bool)
    ensures PickDevice(arg, cudaAvailable) != "auto"
    ensures PickDevice(PickDevice(arg, cudaAvailable), cudaAvailable) == PickDevice(arg, cudaAvailable)
  {
  }

  /** The stream pipeline opens camera 0 for the source "0" and the descriptor itself otherwise. */
  function StreamSource(source: string): (s: Source)
    ensures s.Camera? <==> source == "0"
    ensures s.Camera? ==> s.index == 0
    ensures s.Location? ==> s.descriptor == source
  {
    if source == "0" then Camera(0) else Location(source)
  }

  // ---------------------------------------------------------------- counting

  /** The sum of `m`'s values over `keys`, smallest key first. */
  function SumOver(m: map<int, int>, keys: set<int>): int
    requires keys <= m.Keys
    decreases |keys|
  {
    if keys == {} then 0
    else
      var k := SetMin(keys);
      m[k] + SumOver(m, keys - {k})
  }

  /** The sum of all values of `m`. */
  function Total(m: map<int, int>): int {
    SumOver(m, m.Keys)
  }

  /** Any key can be taken out of the sum first. */
  lemma {:induction false} SumOverRemove(m: map<int, int>, keys: set<int>, k: int)
    requires keys <= m.Keys && k in keys
    ensures SumOver(m, keys) == m[k] + SumOver(m, keys - {k})
    decreases |keys|
  {
    var k0 := SetMin(keys);
    if k0 != k {
      SumOverRemove(m, keys - {k0}, k);
      assert keys - {k0} - {k} == keys - {k} - {k0};
      var k1 := SetMin(keys - {k});
      assert k0 in keys - {k};
      assert k1 in keys;
      assert k0 <= k1 && k1 <= k0;
    }
  }

  /** The sum only looks at the values of the keys summed over. */
  lemma {:induction false} SumOverAgree(m1: map<int, int>, m2: map<int, int>, keys: set<int>)
    requires keys <= m1.Keys && keys <= m2.Keys
    requires forall k :: k in keys ==> m1[k] == m2[k]
    ensures SumOver(m1, keys) == SumOver(m2, keys)
    decreases |keys|
  {
    if keys != {} {
      SumOverAgree(m1, m2, keys - {SetMin(keys)});
    }
  }

  /** Setting one entry changes the total by the difference. */
  lemma TotalUpdate(m: map<int, int>, c: int, v: int)
    ensures Total(m[c := v]) == Total(m) - (if c in m then m[c] else 0) + v
  {
    var m' := m[c := v];
    SumOverRemove(m', m'.Keys, c);
    assert m'.Keys - {c} == m.Keys - {c};
    SumOverAgree(m', m, m.Keys - {c});
    if c in m {
      SumOverRemove(m, m.Keys, c);
    } else {
      assert m.Keys - {c} == m.Keys;
    }
  }

  /** `counts[c] += 1` for every class id, in order, into a fresh `defaultdict(int)`. */
  function Tally(cls: seq<int>): (counts: map<int, int>)
    ensures forall c :: c in counts <==> c in cls
    ensures forall c :: c in counts ==> counts[c] == multiset(cls)[c]
    ensures Total(counts) == |cls|
  {
    if cls == [] then map[]
    else
      var prefix := cls[..|cls| - 1];
      var c := cls[|cls| - 1];
      assert cls == prefix + [c];
      var prev := Tally(prefix);
      TotalUpdate(prev, c, (if c in prev then prev[c] else 0) + 1);
      prev[c := (if c in prev then prev[c] else 0) + 1]
  }

  /**
   * `_active_counts`: nothing unless the result has boxes carrying track ids;
   * then the number of boxes of each class.
   */
  function ActiveCounts(boxes: Option<Boxes>): (counts: map<int, int>)
    ensures boxes.None? || boxes.value.ids.None? ==> counts == map[]
    ensures boxes.Some? && boxes.value.ids.Some? ==>
      && (forall c :: c in counts <==> c in boxes.value.cls)
      && (forall c :: c in counts ==> counts[c] == multiset(boxes.value.cls)[c] >= 1)
      && Total(counts) == |boxes.value.cls|
  {
    if boxes.None? || boxes.value.ids.None? then map[] else Tally(boxes.value.cls)
  }

  // ---------------------------------------------------------------- quit key

  /** `waitKey(1) & 0xFF == ord("q")`: only the low byte of the key code is compared. */
  predicate QuitPressed(key: int) {
    key % 256 == 'q' as int
  }

  /** No key (`-1`) never quits; bits above the low byte are ignored. */
  lemma QuitKeyMask(key: int, high: int)
    ensures !QuitPressed(-1) && QuitPressed('q' as int)
    ensures QuitPressed(key + 256 * high) == QuitPressed(key)
  {
  }

  // ---------------------------------------------------------------- output names

  /** `f"frame_{i:05d}.jpg"`. */
  function SyntheticName(i: nat): (name: string)
    ensures '/' !in name
  {
    var digits := ZeroPad(i, 5);
    assert forall c :: c in digits ==> IsDigitChar(c);
    "frame_" + digits + ".jpg"
  }

  /** Two frames get the same synthetic name only if they have the same index. */
  lemma SyntheticNameInjective(i: nat, j: nat)
    ensures SyntheticName(i) == SyntheticName(j) <==> i == j
  {
    var a := SyntheticName(i);
    var b := SyntheticName(j);
    assert a[6..|a| - 4] == ZeroPad(i, 5);
    assert b[6..|b| - 4] == ZeroPad(j, 5);
  }

  /**
   * The file name an image pipeline saves result `i` under: the basename of the
   * result's path, or the synthetic name when the result has no path.
   */
  function OutputName(i: nat, path: Option<string>): (name: string)
    ensures '/' !in name
    ensures path.Some? ==> name == Basename(path.value)
    ensures path.None? ==> name == SyntheticName(i)
  {
    var p := if path.Some? then path.value else SyntheticName(i);
    var name := Basename(p);
    assert path.None? ==> forall k :: 0 <= k < |p| ==> p[k] != '/';
    assert path.None? ==> |name| == |p|;
    assert path.None? ==> name == p;
    name
  }
}
