/**
 * The annotation set (the ImageJ `Overlay` owned by the profile session): an ordered
 * list of named ROIs, each a name, a vertex sequence and a stroke colour, and the
 * queries the session makes of it.
 */
module Annotations {

  datatype Vertex = Vertex(x: int, y: int)

  /** A ROI's vertices; a selection acquired from ImageJ always has at least one. */
  type Geometry = g: seq<Vertex> | |g| > 0 witness [Vertex(0, 0)]

  /** The stroke colours of `OptionsDTP`. */
  datatype Color = Blue | Green | Magenta | Yellow | Red

  datatype Roi = Roi(name: string, geometry: Geometry, color: Color)

  /**
   * What the session reads of an `ImagePlus`: its ID, title, size, calibration unit and
   * the pixel width already formatted by `IJ.d2s` in the unit the document uses
   * (nanometres when the calibration unit is "micron").
   */
  datatype Image = Image(id: int, title: string, width: nat, height: nat, unit: string,
                         pixelWidthText: string)

  const PATH: string := "path"
  const POINTS: string := "points"
  const POLARITY: string := "positive polarity"
  const HOLE: string := "hole"
  /** The name the random-point command stores and the writer looks for (sic). */
  const RANDOM: string := "randon points"
  /** The name "Delete random points" looks up; no component ever carries it. */
  const RANDOM_LOOKUP: string := "random points"

  const PATH_COLOR: Color := Blue
  const POINT_COLOR: Color := Green
  const POLARITY_COLOR: Color := Magenta
  const RANDOM_COLOR: Color := Yellow
  const HOLE_COLOR: Color := Red
  const TEXT_COLOR: Color := Blue

  predicate KnownName(name: string) {
    name == PATH || name == POINTS || name == POLARITY || name == HOLE || name == RANDOM
  }

  /** No name occurs twice, except "hole". */
  predicate UniqueNames(ov: seq<Roi>) {
    forall i, j :: 0 <= i < j < |ov| && ov[i].name == ov[j].name ==> ov[i].name == HOLE
  }

  /** A polarity marker is a single point. */
  predicate SinglePolarity(ov: seq<Roi>) {
    forall i :: 0 <= i < |ov| && ov[i].name == POLARITY ==> |ov[i].geometry| == 1
  }

  /** The invariant every reachable overlay satisfies. */
  predicate WellFormed(ov: seq<Roi>) {
    && UniqueNames(ov)
    && SinglePolarity(ov)
    && forall i :: 0 <= i < |ov| ==> KnownName(ov[i].name)
  }

  /** `Overlay.getIndex(name)`: the position of the first ROI with that name, or -1. */
  function IndexOf(ov: seq<Roi>, name: string): (r: int)
    ensures -1 <= r < |ov|
    ensures r == -1 <==> forall i :: 0 <= i < |ov| ==> ov[i].name != name
    ensures r >= 0 ==> ov[r].name == name && forall i :: 0 <= i < r ==> ov[i].name != name
  {
    if |ov| == 0 then -1
    else if ov[0].name == name then 0
    else
      var k := IndexOf(ov[1..], name);
      if k == -1 then -1 else k + 1
  }

  /** `getNum`: the number of ROIs with the name. */
  function Count(ov: seq<Roi>, name: string): (r: nat)
    ensures r <= |ov|
    ensures r == 0 <==> IndexOf(ov, name) == -1
  {
    if |ov| == 0 then 0
    else (if ov[0].name == name then 1 else 0) + Count(ov[1..], name)
  }

  /** `getNumPoints`: the vertex count of the first ROI with the name, 0 if there is none. */
  function NumPoints(ov: seq<Roi>, name: string): (r: nat)
    ensures r == 0 <==> IndexOf(ov, name) == -1
    ensures r > 0 ==> exists i :: 0 <= i < |ov| && ov[i].name == name && |ov[i].geometry| == r
  {
    var k := IndexOf(ov, name);
    if k == -1 then 0 else |ov[k].geometry|
  }

  /** `Overlay.remove(index)`. */
  function RemoveAt(ov: seq<Roi>, k: nat): (r: seq<Roi>)
    requires k < |ov|
    ensures |r| == |ov| - 1
    ensures forall i :: 0 <= i < k ==> r[i] == ov[i]
    ensures forall i :: k <= i < |r| ==> r[i] == ov[i + 1]
    ensures multiset(r) + multiset{ov[k]} == multiset(ov)
  {
    assert ov == ov[..k] + [ov[k]] + ov[k + 1..];
    ov[..k] + ov[k + 1..]
  }

  /** The position of the first ROI equal to `roi`. */
  function IndexOfRoi(ov: seq<Roi>, roi: Roi): (r: nat)
    requires roi in ov
    ensures r < |ov| && ov[r] == roi
    ensures forall i :: 0 <= i < r ==> ov[i] != roi
  {
    if ov[0] == roi then 0 else 1 + IndexOfRoi(ov[1..], roi)
  }

  /** `Overlay.remove(roi)`: drops the first ROI equal to `roi`, if any. */
  function RemoveRoi(ov: seq<Roi>, roi: Roi): (r: seq<Roi>)
    ensures roi !in ov ==> r == ov
    ensures roi in ov ==> |r| == |ov| - 1 && multiset(r) == multiset(ov) - multiset{roi}
    ensures roi in ov ==> exists k :: 0 <= k < |ov| && ov[k] == roi && roi !in ov[..k] && r == ov[..k] + ov[k + 1..]
  {
    if roi in ov then
      var k := IndexOfRoi(ov, roi);
      assert roi !in ov[..k];
      assert RemoveAt(ov, k) == ov[..k] + ov[k + 1..];
      RemoveAt(ov, k)
    else ov
  }

  /** Regrouping a concatenation, stated once so that proofs can cite it. */
  lemma Associative<T>(a: seq<T>, b: seq<T>, c: seq<T>)
    ensures (a + b) + c == a + (b + c)
  {
  }

  /** Under the invariant, a name other than "hole" names at most one ROI. */
  lemma {:induction false} CountAtMostOne(ov: seq<Roi>, name: string)
    requires UniqueNames(ov) && name != HOLE
    ensures Count(ov, name) <= 1
  {
    if |ov| > 0 {
      var tail := ov[1..];
      assert UniqueNames(tail) by {
        forall i, j | 0 <= i < j < |tail| && tail[i].name == tail[j].name
          ensures tail[i].name == HOLE
        {
          assert ov[i + 1] == tail[i] && ov[j + 1] == tail[j];
        }
      }
      CountAtMostOne(tail, name);
      if ov[0].name == name {
        forall i | 0 <= i < |tail| ensures tail[i].name != name {
          assert ov[i + 1] == tail[i];
        }
      }
    }
  }

  /**
   * Under the invariant, `IndexOf` of a name other than "hole" is the position of the
   * only ROI with that name, so a first-match and a last-match lookup agree.
   */
  lemma IndexOfIsOnlyMatch(ov: seq<Roi>, name: string, k: nat)
    requires UniqueNames(ov) && name != HOLE
    requires k < |ov| && ov[k].name == name
    ensures IndexOf(ov, name) == k
    ensures forall i :: 0 <= i < |ov| && i != k ==> ov[i].name != name
  {
  }

  lemma {:induction false} CountAppend(ov: seq<Roi>, e: Roi, name: string)
    ensures Count(ov + [e], name) == Count(ov, name) + (if e.name == name then 1 else 0)
  {
    if |ov| > 0 {
      assert (ov + [e])[1..] == ov[1..] + [e];
      CountAppend(ov[1..], e, name);
    }
  }

  /** Appending under the define commands' guard keeps the invariant. */
  lemma AppendKeepsWellFormed(ov: seq<Roi>, e: Roi)
    requires WellFormed(ov) && KnownName(e.name)
    requires e.name == HOLE || IndexOf(ov, e.name) == -1
    requires e.name == POLARITY ==> |e.geometry| == 1
    ensures WellFormed(ov + [e])
  {
  }

  lemma RemoveKeepsWellFormed(ov: seq<Roi>, k: nat)
    requires WellFormed(ov) && k < |ov|
    ensures WellFormed(RemoveAt(ov, k))
  {
    var r := RemoveAt(ov, k);
    forall i, j | 0 <= i < j < |r| && r[i].name == r[j].name ensures r[i].name == HOLE {
      var i', j' := if i < k then i else i + 1, if j < k then j else j + 1;
      assert r[i] == ov[i'] && r[j] == ov[j'];
    }
  }
}
