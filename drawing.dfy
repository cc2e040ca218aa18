/**
 * The small geometry the session computes when it saves and when it places random
 * points: the label anchor (`findxy`), the clamped label position (`writeIDtext`), the
 * cross marks drawn for sampled points (`drawComponents`) and the random sample points.
 * The pixels themselves are drawn by ImageJ; the model produces the list of drawing
 * operations it would perform.
 */
module Drawing {
  import opened Annotations

  datatype Segment = Segment(x1: int, y1: int, x2: int, y2: int)

  datatype DrawOp =
    /** `ImageProcessor.drawLine` in the given colour. */
    | Line(segment: Segment, color: Color)
    /** `Roi.drawPixels`: the ROI drawn in its own stroke colour. */
    | Outline(roi: Roi)
    /** The text label with the profile ID, drawn at (x, y) with a font of the given size. */
    | Label(text: string, x: int, y: int, size: int, color: Color)

  // ---------------------------------------------------------------- label anchor

  /**
   * The anchor `findxy` returns for the vertices `g` of an image of the given size: the
   * scan starts from (width, height) and takes a vertex only when its y is strictly
   * below the lowest y seen so far.
   */
  function Anchor(g: seq<Vertex>, width: int, height: int): (r: Vertex)
    ensures r == Vertex(width, height) || (r in g && r.y < height)
  {
    if |g| == 0 then Vertex(width, height)
    else
      var best := Anchor(g[..|g| - 1], width, height);
      if g[|g| - 1].y < best.y then g[|g| - 1] else best
  }

  /** Vertex `k` is the first of the vertices with the smallest y. */
  predicate FirstLowest(g: seq<Vertex>, k: nat)
    requires k < |g|
  {
    && (forall j :: 0 <= j < |g| ==> g[k].y <= g[j].y)
    && (forall j :: 0 <= j < k ==> g[j].y > g[k].y)
  }

  /**
   * The anchor is (width, height) when no vertex lies above the bottom edge, and
   * otherwise the first vertex with the smallest y: a later vertex with the same y does
   * not replace it, whatever its x.
   */
  lemma {:induction false} AnchorIsFirstLowest(g: seq<Vertex>, width: int, height: int)
    returns (k: int)
    ensures -1 <= k < |g|
    ensures k == -1 ==> (forall j :: 0 <= j < |g| ==> g[j].y >= height) && Anchor(g, width, height) == Vertex(width, height)
    ensures k >= 0 ==> g[k].y < height && FirstLowest(g, k) && Anchor(g, width, height) == g[k]
  {
    if |g| == 0 {
      return -1;
    }
    var m := |g| - 1;
    var pre := g[..m];
    var kp := AnchorIsFirstLowest(pre, width, height);
    var best := Anchor(pre, width, height);
    assert Anchor(g, width, height) == if g[m].y < best.y then g[m] else best;
    if g[m].y < best.y {
      k := m;
      forall j | 0 <= j < m ensures g[j].y > g[m].y {
        assert pre[j] == g[j];
      }
    } else if kp == -1 {
      k := -1;
      forall j | 0 <= j < m ensures g[j].y >= height {
        assert pre[j] == g[j];
      }
    } else {
      k := kp;
      forall j | 0 <= j < m ensures g[k].y <= g[j].y {
        assert pre[j] == g[j];
      }
      forall j | 0 <= j < k ensures g[j].y > g[k].y {
        assert pre[j] == g[j];
      }
    }
  }

  /** `findxy`, with its loop over the vertices. */
  method FindXY(g: seq<Vertex>, width: int, height: int) returns (p: Vertex)
    ensures p == Anchor(g, width, height)
  {
    var miny := height;
    var x := width;
    var i := 0;
    while i < |g|
      invariant 0 <= i <= |g|
      invariant Vertex(x, miny) == Anchor(g[..i], width, height)
    {
      assert g[..i + 1][..i] == g[..i];
      if g[i].y < miny {
        miny := g[i].y;
        x := g[i].x;
        // the tie-break on x at this point of the source can never fire
        assert !(g[i].y == miny && g[i].x < x);
      }
      i := i + 1;
    }
    assert g[..i] == g;
    p := Vertex(x, miny);
  }

  // ---------------------------------------------------------------- label position

  /** A label coordinate that would be negative is moved to 3. */
  function Clamp(v: int): (r: int)
    ensures r >= 0
    ensures v >= 0 ==> r == v
    ensures v < 0 ==> r == 3
  {
    if v < 0 then 3 else v
  }

  /**
   * `writeIDtext`: the label with text `id`, font size height / 42, placed so that its
   * bounding box (of the given width and height, from the font metrics) ends at the
   * anchor of the path, each coordinate clamped.
   */
  function LabelAt(id: string, path: seq<Vertex>, img: Image, boundsWidth: int, boundsHeight: int): (op: DrawOp)
    ensures op.Label? && op.text == id && op.color == TEXT_COLOR
    ensures op.size == img.height / 42
    ensures op.x >= 0 && op.y >= 0
    ensures Anchor(path, img.width, img.height).x >= boundsWidth ==>
              op.x + boundsWidth == Anchor(path, img.width, img.height).x
    ensures Anchor(path, img.width, img.height).y >= boundsHeight ==>
              op.y + boundsHeight == Anchor(path, img.width, img.height).y
    ensures Anchor(path, img.width, img.height).x < boundsWidth ==> op.x == 3
    ensures Anchor(path, img.width, img.height).y < boundsHeight ==> op.y == 3
  {
    var p := Anchor(path, img.width, img.height);
    Label(id, Clamp(p.x - boundsWidth), Clamp(p.y - boundsHeight), img.height / 42, TEXT_COLOR)
  }

  // ---------------------------------------------------------------- components

  /** The two strokes of the cross marking one sampled point. */
  function Cross(v: Vertex): seq<Segment> {
    [Segment(v.x - 3, v.y, v.x + 3, v.y), Segment(v.x, v.y - 3, v.x, v.y + 3)]
  }

  /** The crosses of all sampled points, in vertex order. */
  function CrossMarks(g: seq<Vertex>): (r: seq<Segment>)
    ensures |r| == 2 * |g|
    ensures forall i :: 0 <= i < |g| ==>
              && r[2 * i] == Segment(g[i].x - 3, g[i].y, g[i].x + 3, g[i].y)
              && r[2 * i + 1] == Segment(g[i].x, g[i].y - 3, g[i].x, g[i].y + 3)
  {
    if |g| == 0 then []
    else
      var rest := CrossMarks(g[1..]);
      assert forall i :: 1 <= i < |g| ==> g[1..][i - 1] == g[i];
      Cross(g[0]) + rest
  }

  function Lines(segs: seq<Segment>, c: Color): (r: seq<DrawOp>)
    ensures |r| == |segs|
    ensures forall i :: 0 <= i < |segs| ==> r[i] == Line(segs[i], c)
  {
    seq(|segs|, i requires 0 <= i < |segs| => Line(segs[i], c))
  }

  /** What `drawComponents` draws for one ROI. */
  function RoiOps(roi: Roi): seq<DrawOp> {
    if roi.name == POINTS then Lines(CrossMarks(roi.geometry), roi.color) else [Outline(roi)]
  }

  /**
   * `drawComponents`: every ROI in overlay order; the sampled points as crosses in their
   * stroke colour, every other ROI as its own outline.
   */
  function ComponentOps(ov: seq<Roi>): (r: seq<DrawOp>)
    ensures forall i :: 0 <= i < |ov| && ov[i].name != POINTS ==> Outline(ov[i]) in r
    ensures forall i, s :: 0 <= i < |ov| && ov[i].name == POINTS && s in CrossMarks(ov[i].geometry) ==>
              Line(s, ov[i].color) in r
    ensures forall op :: op in r && op.Outline? ==> op.roi in ov && op.roi.name != POINTS
  {
    if |ov| == 0 then []
    else
      var rest := ComponentOps(ov[1..]);
      assert forall i :: 1 <= i < |ov| ==> ov[1..][i - 1] == ov[i];
      assert forall s :: s in CrossMarks(ov[0].geometry) ==>
        Line(s, ov[0].color) in Lines(CrossMarks(ov[0].geometry), ov[0].color);
      RoiOps(ov[0]) + rest
  }

  /** A stroke of `drawComponents` belongs to a cross of a "points" ROI, in its colour; no label is drawn. */
  lemma {:induction false} ComponentOpsOnly(ov: seq<Roi>)
    ensures forall op :: op in ComponentOps(ov) && op.Line? ==>
              exists i :: 0 <= i < |ov| && ov[i].name == POINTS && op.color == ov[i].color
                          && op.segment in CrossMarks(ov[i].geometry)
    ensures forall op :: op in ComponentOps(ov) ==> !op.Label?
  {
    if |ov| > 0 {
      var tail := ov[1..];
      ComponentOpsOnly(tail);
      assert ComponentOps(ov) == RoiOps(ov[0]) + ComponentOps(tail);
      forall op | op in ComponentOps(ov)
        ensures op.Line? ==> exists i :: 0 <= i < |ov| && ov[i].name == POINTS && op.color == ov[i].color
                                        && op.segment in CrossMarks(ov[i].geometry)
        ensures !op.Label?
      {
        if op in RoiOps(ov[0]) {
          if ov[0].name == POINTS {
            var segs := CrossMarks(ov[0].geometry);
            var j :| 0 <= j < |segs| && Lines(segs, ov[0].color)[j] == op;
            assert op.segment == segs[j];
          }
        } else {
          assert op in ComponentOps(tail);
          if op.Line? {
            var i :| 0 <= i < |tail| && tail[i].name == POINTS && op.color == tail[i].color
                     && op.segment in CrossMarks(tail[i].geometry);
            assert ov[i + 1] == tail[i];
          }
        }
      }
    }
  }

  /** The components are drawn in overlay order: drawing two overlays is drawing one, then the other. */
  lemma {:induction false} ComponentOpsAppend(a: seq<Roi>, b: seq<Roi>)
    ensures ComponentOps(a + b) == ComponentOps(a) + ComponentOps(b)
  {
    if |a| > 0 {
      assert (a + b)[1..] == a[1..] + b;
      ComponentOpsAppend(a[1..], b);
      Associative(RoiOps(a[0]), ComponentOps(a[1..]), ComponentOps(b));
    } else {
      assert a + b == b;
    }
  }

  /** Everything `save` draws on the image: first the ID label, then the components. */
  function SaveDrawing(id: string, ov: seq<Roi>, img: Image, boundsWidth: int, boundsHeight: int): (r: seq<DrawOp>)
    requires IndexOf(ov, PATH) != -1
    ensures |r| > 0 && r[0] == LabelAt(id, ov[IndexOf(ov, PATH)].geometry, img, boundsWidth, boundsHeight)
    ensures r[1..] == ComponentOps(ov)
  {
    [LabelAt(id, ov[IndexOf(ov, PATH)].geometry, img, boundsWidth, boundsHeight)] + ComponentOps(ov)
  }

  // ---------------------------------------------------------------- random points

  /**
   * The random sample points. `rnd(k)` stands for the k-th value drawn from the
   * session's `Random`; `nextInt(bound)` yields it as `rnd(k) % bound`. Point i uses
   * draw 2i for x and draw 2i + 1 for y, as the source alternates them.
   */
  function RandomPoints(rnd: nat -> int, count: nat, width: int, height: int): (r: seq<Vertex>)
    requires width >= 2 && height >= 2
    ensures |r| == count
    ensures forall i :: 0 <= i < count ==> 1 <= r[i].x <= width - 1 && 1 <= r[i].y <= height - 1
  {
    seq(count, i requires 0 <= i => Vertex(rnd(2 * i) % (width - 1) + 1, rnd(2 * i + 1) % (height - 1) + 1))
  }

  /** The random-point loop of "Place random points". */
  method PlaceRandom(rnd: nat -> int, count: nat, width: int, height: int) returns (pts: seq<Vertex>)
    requires width >= 2 && height >= 2
    ensures pts == RandomPoints(rnd, count, width, height)
  {
    pts := [];
    var i := 0;
    while i < count
      invariant 0 <= i <= count
      invariant |pts| == i
      invariant forall j :: 0 <= j < i ==>
                  pts[j] == Vertex(rnd(2 * j) % (width - 1) + 1, rnd(2 * j + 1) % (height - 1) + 1)
    {
      var x := rnd(2 * i) % (width - 1) + 1;
      var y := rnd(2 * i + 1) % (height - 1) + 1;
      pts := pts + [Vertex(x, y)];
      i := i + 1;
    }
  }
}
