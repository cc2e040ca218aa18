/**
 * The `.dtp` profile document that `save` writes, line by line, and a reader for the
 * same format. The reader is the writer's partner: every profile the writer renders is
 * read back unchanged, so the line layout (section order, optional sections, one block
 * per hole) determines the profile exactly.
 */
module DtpDocument {
  import opened Optional
  import opened Decimal
  import opened Annotations

  // `VersionDTP`
  const TITLE: string := "DistToPath"
  const VERSION: string := "1.0.0"
  const YEAR: string := "2014"
  const MONTH: string := "November"
  const DAY: string := "11"

  /** The version line: title, version and date of `VersionDTP`. */
  const HEADER: string := "# " + TITLE + " version " + VERSION + " (" + MONTH + " " + DAY + ", " + YEAR + ")"

  /** What one document records. `comment == ""` means that no COMMENT line is written. */
  datatype Profile = Profile(
    image: string,
    id: string,
    comment: string,
    pixelWidth: string,
    unit: string,
    polarity: Option<Vertex>,
    path: seq<Vertex>,
    holes: seq<seq<Vertex>>,
    points: Option<seq<Vertex>>,
    random: Option<seq<Vertex>>)

  // ---------------------------------------------------------------- from the overlay

  /** A calibration in microns is written in nanometres. */
  function OutputUnit(unit: string): (r: string)
    ensures unit == "micron" ==> r == "nm"
    ensures unit != "micron" ==> r == unit
  {
    if unit == "micron" then "nm" else unit
  }

  /** The vertices of the holes, in overlay order. */
  function HoleGeometries(ov: seq<Roi>): (r: seq<seq<Vertex>>)
    ensures |r| == Count(ov, HOLE)
  {
    if |ov| == 0 then []
    else (if ov[0].name == HOLE then [ov[0].geometry] else []) + HoleGeometries(ov[1..])
  }

  lemma {:induction false} HoleGeometriesAppend(ov: seq<Roi>, e: Roi)
    ensures HoleGeometries(ov + [e]) == HoleGeometries(ov) + (if e.name == HOLE then [e.geometry] else [])
  {
    if |ov| > 0 {
      assert (ov + [e])[1..] == ov[1..] + [e];
      HoleGeometriesAppend(ov[1..], e);
      Associative(if ov[0].name == HOLE then [ov[0].geometry] else [], HoleGeometries(ov[1..]),
                  if e.name == HOLE then [e.geometry] else []);
    }
  }

  function Component(ov: seq<Roi>, name: string): Option<seq<Vertex>> {
    var k := IndexOf(ov, name);
    if k == -1 then None else Some(ov[k].geometry)
  }

  /** The profile `save` writes for the session's image, ID, comment and overlay. */
  function Describe(img: Image, id: string, comment: string, ov: seq<Roi>): (pr: Profile)
    requires IndexOf(ov, PATH) != -1
    ensures pr.path == ov[IndexOf(ov, PATH)].geometry
    ensures pr.polarity.Some? <==> IndexOf(ov, POLARITY) != -1
    ensures pr.points.Some? <==> IndexOf(ov, POINTS) != -1
    ensures pr.random.Some? <==> IndexOf(ov, RANDOM) != -1
    ensures |pr.holes| == Count(ov, HOLE)
    ensures pr.polarity.Some? ==> pr.polarity.value == ov[IndexOf(ov, POLARITY)].geometry[0]
    ensures pr.points.Some? ==> pr.points.value == ov[IndexOf(ov, POINTS)].geometry
    ensures pr.random.Some? ==> pr.random.value == ov[IndexOf(ov, RANDOM)].geometry
    ensures pr.image == img.title && pr.id == id && pr.comment == comment
    ensures pr.pixelWidth == img.pixelWidthText && pr.unit == OutputUnit(img.unit)
  {
    var pol := IndexOf(ov, POLARITY);
    Profile(img.title, id, comment, img.pixelWidthText, OutputUnit(img.unit),
            if pol == -1 then None else Some(ov[pol].geometry[0]),
            ov[IndexOf(ov, PATH)].geometry,
            HoleGeometries(ov),
            Component(ov, POINTS),
            Component(ov, RANDOM))
  }

  // ---------------------------------------------------------------- writer

  /** A coordinate pair as `IJ.d2s(x, 0) + ", " + IJ.d2s(y, 0)`. */
  function VertexText(v: Vertex): string {
    IntText(v.x) + ", " + IntText(v.y)
  }

  function VertexLines(g: seq<Vertex>): (r: seq<string>)
    ensures |r| == |g|
    ensures forall i :: 0 <= i < |g| ==> r[i] == "  " + VertexText(g[i])
  {
    if |g| == 0 then []
    else
      assert forall i :: 1 <= i < |g| ==> g[1..][i - 1] == g[i];
      ["  " + VertexText(g[0])] + VertexLines(g[1..])
  }

  /** A tag line, one indented line per vertex, then END. */
  function Block(tag: string, g: seq<Vertex>): seq<string> {
    [tag] + (VertexLines(g) + ["END"])
  }

  function HoleBlocks(hs: seq<seq<Vertex>>): seq<string> {
    if |hs| == 0 then [] else Block("HOLE", hs[0]) + HoleBlocks(hs[1..])
  }

  lemma {:induction false} HoleBlocksAppend(hs: seq<seq<Vertex>>, more: seq<seq<Vertex>>)
    ensures HoleBlocks(hs + more) == HoleBlocks(hs) + HoleBlocks(more)
  {
    if |hs| > 0 {
      assert (hs + more)[1..] == hs[1..] + more;
      HoleBlocksAppend(hs[1..], more);
      calc {
        HoleBlocks(hs + more);
        Block("HOLE", hs[0]) + HoleBlocks(hs[1..] + more);
        Block("HOLE", hs[0]) + (HoleBlocks(hs[1..]) + HoleBlocks(more));
        (Block("HOLE", hs[0]) + HoleBlocks(hs[1..])) + HoleBlocks(more);
      }
    } else {
      assert hs + more == more;
    }
  }

  function CommentLines(comment: string): (r: seq<string>)
    ensures comment == "" <==> r == []
    ensures comment != "" ==> r == ["COMMENT " + comment]
  {
    if comment != "" then ["COMMENT " + comment] else []
  }

  function PixelWidthLine(pixelWidth: string, unit: string): string {
    "PIXELWIDTH " + pixelWidth + " " + unit
  }

  function PoslocLines(polarity: Option<Vertex>): (r: seq<string>)
    ensures polarity.None? <==> r == []
    ensures polarity.Some? ==> r == ["POSLOC " + VertexText(polarity.value)]
  {
    if polarity.Some? then ["POSLOC " + VertexText(polarity.value)] else []
  }

  function OptionalBlock(tag: string, g: Option<seq<Vertex>>): (r: seq<string>)
    ensures g.None? <==> r == []
    ensures g.Some? ==> |r| == |g.value| + 2 && r[0] == tag && r[|r| - 1] == "END"
  {
    if g.Some? then Block(tag, g.value) else []
  }

  /** The version line, IMAGE and PROFILE_ID, then the sections up to PATH, then `rest`. */
  function Head(pr: Profile, rest: seq<string>): seq<string> {
    [HEADER] + (["IMAGE " + pr.image] + (["PROFILE_ID " + pr.id] + Sections(pr, rest)))
  }

  /** COMMENT, PIXELWIDTH, POSLOC and the PATH block, followed by `rest`. */
  function Sections(pr: Profile, rest: seq<string>): seq<string> {
    CommentLines(pr.comment) + ([PixelWidthLine(pr.pixelWidth, pr.unit)] +
      (PoslocLines(pr.polarity) + (Block("PATH", pr.path) + rest)))
  }

  /** The lines after the holes: POINTS, then RANDOM_POINTS. */
  function Tail(pr: Profile): (r: seq<string>)
    ensures r == [] <==> pr.points.None? && pr.random.None?
    ensures pr.points.Some? ==> r[0] == "POINTS"
    ensures pr.points.None? && pr.random.Some? ==> r[0] == "RANDOM_POINTS"
  {
    OptionalBlock("POINTS", pr.points) + OptionalBlock("RANDOM_POINTS", pr.random)
  }

  /** One more ROI adds its HOLE block when it is a hole, and nothing otherwise. */
  lemma HoleBlocksStep(ov: seq<Roi>, k: nat)
    requires k < |ov|
    ensures HoleBlocks(HoleGeometries(ov[..k + 1])) ==
            HoleBlocks(HoleGeometries(ov[..k])) + (if ov[k].name == HOLE then Block("HOLE", ov[k].geometry) else [])
  {
    assert ov[..k + 1] == ov[..k] + [ov[k]];
    HoleGeometriesAppend(ov[..k], ov[k]);
    if ov[k].name == HOLE {
      var g := ov[k].geometry;
      HoleBlocksAppend(HoleGeometries(ov[..k]), [g]);
      assert [g][1..] == [];
      assert HoleBlocks([g]) == Block("HOLE", g);
    } else {
      assert HoleGeometries(ov[..k + 1]) == HoleGeometries(ov[..k]);
    }
  }

  function Render(pr: Profile): seq<string> {
    Head(pr, HoleBlocks(pr.holes) + Tail(pr))
  }

  /** The sections in order: the optional COMMENT, PIXELWIDTH, the optional POSLOC, the PATH block, then `rest`. */
  lemma SectionsLayout(pr: Profile, rest: seq<string>)
    ensures var r := Sections(pr, rest);
      var c := |CommentLines(pr.comment)|;
      var e := 1 + c + |PoslocLines(pr.polarity)|;
      |r| == e + |pr.path| + 2 + |rest| &&
      r[..c] == CommentLines(pr.comment) && r[c] == PixelWidthLine(pr.pixelWidth, pr.unit) &&
      r[c + 1..e] == PoslocLines(pr.polarity) &&
      r[e..e + |pr.path| + 2] == Block("PATH", pr.path) && r[e + |pr.path| + 2..] == rest
  {
    Parts(CommentLines(pr.comment), PixelWidthLine(pr.pixelWidth, pr.unit), PoslocLines(pr.polarity),
          Block("PATH", pr.path), rest);
  }

  /** Where each part of `a + ([x] + (b + (c + d)))` lies. */
  lemma Parts<T>(a: seq<T>, x: T, b: seq<T>, c: seq<T>, d: seq<T>)
    ensures var r := a + ([x] + (b + (c + d)));
      var e := |a| + 1 + |b|;
      |r| == e + |c| + |d| &&
      r[..|a|] == a && r[|a|] == x && r[|a| + 1..e] == b && r[e..e + |c|] == c && r[e + |c|..] == d
  {
    var r := a + ([x] + (b + (c + d)));
    var e := |a| + 1 + |b|;
    assert r == (a + [x] + b) + c + d;
    assert r[e..e + |c|] == c;
    assert r[e + |c|..] == d;
  }

  /** The lines of a profile, in order: the version line, IMAGE, PROFILE_ID, then the sections with the holes and the tail after the PATH block. */
  lemma RenderLayout(pr: Profile)
    ensures var r := Render(pr);
      |r| >= 3 && r[0] == HEADER && r[1] == "IMAGE " + pr.image && r[2] == "PROFILE_ID " + pr.id &&
      r[3..] == Sections(pr, HoleBlocks(pr.holes) + Tail(pr))
  {
    HeadLayout(pr, HoleBlocks(pr.holes) + Tail(pr));
  }

  lemma HeadLayout(pr: Profile, rest: seq<string>)
    ensures var r := Head(pr, rest);
      |r| >= 3 && r[0] == HEADER && r[1] == "IMAGE " + pr.image && r[2] == "PROFILE_ID " + pr.id &&
      r[3..] == Sections(pr, rest)
  {
    var r3 := Sections(pr, rest);
    Split([HEADER, "IMAGE " + pr.image, "PROFILE_ID " + pr.id], r3);
    assert Head(pr, rest) == [HEADER, "IMAGE " + pr.image, "PROFILE_ID " + pr.id] + r3;
  }

  /** The two halves of a concatenation. */
  lemma Split<T>(a: seq<T>, b: seq<T>)
    ensures (a + b)[..|a|] == a && (a + b)[|a|..] == b
  {
  }

  /** Vertex lines start with a space, so none of them is a tag or END. */
  lemma Indented(g: seq<Vertex>)
    ensures "HOLE" !in VertexLines(g) && "END" !in VertexLines(g)
  {
    var vl := VertexLines(g);
    forall i | 0 <= i < |vl|
      ensures vl[i] != "HOLE" && vl[i] != "END"
    {
      assert vl[i][0] == ' ';
    }
  }

  lemma HoleBlockCount(g: seq<Vertex>)
    ensures multiset(Block("HOLE", g))["HOLE"] == 1 && multiset(Block("HOLE", g))["END"] == 1
  {
    var vl := VertexLines(g);
    Indented(g);
    assert multiset(vl)["HOLE"] == 0 && multiset(vl)["END"] == 0;
    assert multiset(Block("HOLE", g)) == multiset{"HOLE"} + multiset(vl) + multiset{"END"};
  }

  /** Each hole gives exactly one HOLE line and one END line. */
  lemma {:induction false} HoleBlocksCount(hs: seq<seq<Vertex>>)
    ensures multiset(HoleBlocks(hs))["HOLE"] == |hs|
    ensures multiset(HoleBlocks(hs))["END"] == |hs|
  {
    if |hs| > 0 {
      HoleBlocksCount(hs[1..]);
      var b := Block("HOLE", hs[0]);
      HoleBlockCount(hs[0]);
      assert multiset(HoleBlocks(hs)) == multiset(b) + multiset(HoleBlocks(hs[1..]));
    }
  }

  /** The document `save` writes. */
  function Document(img: Image, id: string, comment: string, ov: seq<Roi>): seq<string>
    requires IndexOf(ov, PATH) != -1
  {
    Render(Describe(img, id, comment, ov))
  }

  // ---------------------------------------------------------------- reader

  /** The rest of `line` after `prefix`, if it starts with it. */
  function After(prefix: string, line: string): (r: Option<string>)
    ensures r.Some? ==> line == prefix + r.value
  {
    if |prefix| <= |line| && line[..|prefix|] == prefix then Some(line[|prefix|..]) else None
  }

  lemma AfterPrefix(prefix: string, t: string)
    ensures After(prefix, prefix + t) == Some(t)
  {
    assert (prefix + t)[..|prefix|] == prefix;
    assert (prefix + t)[|prefix|..] == t;
  }

  /** The position of the first `c` in `s`, or |s|. */
  function Find(s: string, c: char): (k: nat)
    ensures k <= |s|
    ensures forall i :: 0 <= i < k ==> s[i] != c
    ensures k < |s| ==> s[k] == c
  {
    if |s| == 0 then 0 else if s[0] == c then 0 else 1 + Find(s[1..], c)
  }

  lemma {:induction false} FindAfter(a: string, b: string, c: char)
    requires c !in a && |b| > 0 && b[0] == c
    ensures Find(a + b, c) == |a|
  {
    if |a| > 0 {
      assert (a + b)[1..] == a[1..] + b;
      FindAfter(a[1..], b, c);
    }
  }

  /** Reads "x, y". */
  function ReadVertex(s: string): Option<Vertex> {
    var k := Find(s, ',');
    if k + 2 <= |s| && s[k..k + 2] == ", " then
      var x :- ParseInteger(s[..k]);
      var y :- ParseInteger(s[k + 2..]);
      Some(Vertex(x, y))
    else None
  }

  lemma ReadVertexText(v: Vertex)
    ensures ReadVertex(VertexText(v)) == Some(v)
  {
    var a, b := IntText(v.x), IntText(v.y);
    var s := a + ", " + b;
    assert s == a + (", " + b);
    FindAfter(a, ", " + b, ',');
    assert s[..|a|] == a && s[|a|..|a| + 2] == ", " && s[|a| + 2..] == b;
    IntTextRoundTrip(v.x);
    IntTextRoundTrip(v.y);
  }

  /** Vertex lines up to and including END; returns the vertices and the lines after END. */
  function ReadVertices(ls: seq<string>): (r: Option<(seq<Vertex>, seq<string>)>)
    ensures r.Some? ==> |r.value.1| < |ls|
  {
    if |ls| == 0 then None
    else if ls[0] == "END" then Some(([], ls[1..]))
    else
      var text :- After("  ", ls[0]);
      var v :- ReadVertex(text);
      var rest :- ReadVertices(ls[1..]);
      Some(([v] + rest.0, rest.1))
  }

  lemma {:induction false} ReadVertexLines(g: seq<Vertex>, rest: seq<string>)
    ensures ReadVertices(VertexLines(g) + (["END"] + rest)) == Some((g, rest))
  {
    var ls := VertexLines(g) + (["END"] + rest);
    if |g| > 0 {
      var line := "  " + VertexText(g[0]);
      assert ls == [line] + (VertexLines(g[1..]) + (["END"] + rest));
      assert ls[0] == line && line[0] == ' ';
      assert ls[1..] == VertexLines(g[1..]) + (["END"] + rest);
      AfterPrefix("  ", VertexText(g[0]));
      ReadVertexText(g[0]);
      ReadVertexLines(g[1..], rest);
      assert [g[0]] + g[1..] == g;
    } else {
      assert ls == ["END"] + rest;
    }
  }

  /** A block that must start with `tag`. */
  function ReadBlock(tag: string, ls: seq<string>): (r: Option<(seq<Vertex>, seq<string>)>)
    ensures r.Some? ==> |r.value.1| < |ls|
  {
    if |ls| > 0 && ls[0] == tag then ReadVertices(ls[1..]) else None
  }

  lemma ReadBlockOf(tag: string, g: seq<Vertex>, rest: seq<string>)
    ensures ReadBlock(tag, Block(tag, g) + rest) == Some((g, rest))
  {
    var ls := Block(tag, g) + rest;
    assert ls[1..] == VertexLines(g) + (["END"] + rest);
    ReadVertexLines(g, rest);
  }

  /** Zero or more HOLE blocks. */
  function ReadHoles(ls: seq<string>): Option<(seq<seq<Vertex>>, seq<string>)>
    decreases |ls|
  {
    if |ls| > 0 && ls[0] == "HOLE" then
      var first :- ReadBlock("HOLE", ls);
      var more :- ReadHoles(first.1);
      Some(([first.0] + more.0, more.1))
    else Some(([], ls))
  }

  lemma {:induction false} ReadHoleBlocks(hs: seq<seq<Vertex>>, rest: seq<string>)
    requires |rest| == 0 || rest[0] != "HOLE"
    ensures ReadHoles(HoleBlocks(hs) + rest) == Some((hs, rest))
  {
    if |hs| > 0 {
      var more := HoleBlocks(hs[1..]) + rest;
      HoleBlocksCons(hs, rest);
      ReadBlockOf("HOLE", hs[0], more);
      ReadHoleBlocks(hs[1..], rest);
      ReadHolesStep(Block("HOLE", hs[0]) + more, hs[0], more, hs[1..], rest);
      assert [hs[0]] + hs[1..] == hs;
    } else {
      assert HoleBlocks(hs) + rest == rest;
    }
  }

  lemma HoleBlocksCons(hs: seq<seq<Vertex>>, rest: seq<string>)
    requires |hs| > 0
    ensures HoleBlocks(hs) + rest == Block("HOLE", hs[0]) + (HoleBlocks(hs[1..]) + rest)
    ensures (Block("HOLE", hs[0]) + (HoleBlocks(hs[1..]) + rest))[0] == "HOLE"
  {
    var first, others := Block("HOLE", hs[0]), HoleBlocks(hs[1..]);
    assert HoleBlocks(hs) == first + others;
    Associative(first, others, rest);
    assert first[0] == "HOLE";
  }

  /** One HOLE block followed by the rest of the holes. */
  lemma ReadHolesStep(ls: seq<string>, g: seq<Vertex>, more: seq<string>, hs: seq<seq<Vertex>>, rest: seq<string>)
    requires |ls| > 0 && ls[0] == "HOLE"
    requires ReadBlock("HOLE", ls) == Some((g, more))
    requires ReadHoles(more) == Some((hs, rest))
    ensures ReadHoles(ls) == Some(([g] + hs, rest))
  {
  }

  /** A block that is present exactly when the next line is `tag`. */
  function ReadOptionalBlock(tag: string, ls: seq<string>): Option<(Option<seq<Vertex>>, seq<string>)> {
    if |ls| > 0 && ls[0] == tag then
      var b :- ReadBlock(tag, ls);
      Some((Some(b.0), b.1))
    else Some((None, ls))
  }

  lemma ReadOptionalBlockOf(tag: string, g: Option<seq<Vertex>>, rest: seq<string>)
    requires |rest| == 0 || rest[0] != tag
    ensures ReadOptionalBlock(tag, OptionalBlock(tag, g) + rest) == Some((g, rest))
  {
    if g.Some? {
      ReadBlockOf(tag, g.value, rest);
    } else {
      assert OptionalBlock(tag, g) + rest == rest;
    }
  }

  /** The POINTS and RANDOM_POINTS sections, which must end the document. */
  function ReadTail(ls: seq<string>): Option<(Option<seq<Vertex>>, Option<seq<Vertex>>)> {
    var pts :- ReadOptionalBlock("POINTS", ls);
    var rnd :- ReadOptionalBlock("RANDOM_POINTS", pts.1);
    if rnd.1 == [] then Some((pts.0, rnd.0)) else None
  }

  lemma ReadTailOf(pr: Profile)
    ensures ReadTail(Tail(pr)) == Some((pr.points, pr.random))
  {
    var second := OptionalBlock("RANDOM_POINTS", pr.random);
    assert |second| == 0 || second[0] == "RANDOM_POINTS";
    ReadOptionalBlockOf("POINTS", pr.points, second);
    ReadOptionalBlockOf("RANDOM_POINTS", pr.random, []);
    assert second + [] == second;
  }

  /** The holes, then the tail. */
  function ReadBody(ls: seq<string>): Option<(seq<seq<Vertex>>, Option<seq<Vertex>>, Option<seq<Vertex>>)> {
    var holes :- ReadHoles(ls);
    var tail :- ReadTail(holes.1);
    Some((holes.0, tail.0, tail.1))
  }

  lemma ReadBodyOf(pr: Profile)
    ensures ReadBody(HoleBlocks(pr.holes) + Tail(pr)) == Some((pr.holes, pr.points, pr.random))
  {
    var t := Tail(pr);
    assert |t| == 0 || t[0] == "POINTS" || t[0] == "RANDOM_POINTS";
    ReadHoleBlocks(pr.holes, t);
    ReadTailOf(pr);
  }

  /** An optional COMMENT line. */
  function ReadComment(ls: seq<string>): (string, seq<string>) {
    if |ls| > 0 && After("COMMENT ", ls[0]).Some? then (After("COMMENT ", ls[0]).value, ls[1..])
    else ("", ls)
  }

  /** "PIXELWIDTH <width> <unit>", the width being everything up to the first space. */
  function ReadPixelWidth(ls: seq<string>): Option<(string, string, seq<string>)> {
    if |ls| == 0 then None
    else
      var text :- After("PIXELWIDTH ", ls[0]);
      var k := Find(text, ' ');
      if k < |text| then Some((text[..k], text[k + 1..], ls[1..])) else None
  }

  lemma ReadPixelWidthOf(pixelWidth: string, unit: string, rest: seq<string>)
    requires ' ' !in pixelWidth
    ensures ReadPixelWidth([PixelWidthLine(pixelWidth, unit)] + rest) == Some((pixelWidth, unit, rest))
  {
    var line := PixelWidthLine(pixelWidth, unit);
    assert line == "PIXELWIDTH " + (pixelWidth + " " + unit);
    AfterPrefix("PIXELWIDTH ", pixelWidth + " " + unit);
    var text := pixelWidth + " " + unit;
    assert text == pixelWidth + (" " + unit);
    FindAfter(pixelWidth, " " + unit, ' ');
    assert text[..|pixelWidth|] == pixelWidth && text[|pixelWidth| + 1..] == unit;
    assert ([line] + rest)[1..] == rest;
  }

  /** An optional "POSLOC x, y" line. */
  function ReadPosloc(ls: seq<string>): Option<(Option<Vertex>, seq<string>)> {
    if |ls| > 0 && After("POSLOC ", ls[0]).Some? then
      var v :- ReadVertex(After("POSLOC ", ls[0]).value);
      Some((Some(v), ls[1..]))
    else Some((None, ls))
  }

  /** A line that must start with `prefix`; returns the rest of it. */
  function ReadTagged(prefix: string, ls: seq<string>): Option<(string, seq<string>)> {
    if |ls| == 0 then None
    else
      var t :- After(prefix, ls[0]);
      Some((t, ls[1..]))
  }

  /** The sections from POSLOC on: the polarity, the path, the holes and the tail. */
  function ReadComponents(ls: seq<string>)
    : Option<(Option<Vertex>, seq<Vertex>, seq<seq<Vertex>>, Option<seq<Vertex>>, Option<seq<Vertex>>)>
  {
    var pos :- ReadPosloc(ls);
    var path :- ReadBlock("PATH", pos.1);
    var body :- ReadBody(path.1);
    Some((pos.0, path.0, body.0, body.1, body.2))
  }

  /** The sections from COMMENT on, for a document with the given image and ID. */
  function ReadSections(image: string, id: string, ls: seq<string>): Option<Profile> {
    var comment := ReadComment(ls);
    var scale :- ReadPixelWidth(comment.1);
    var c :- ReadComponents(scale.2);
    Some(Profile(image, id, comment.0, scale.0, scale.1, c.0, c.1, c.2, c.3, c.4))
  }

  /** Reads a whole document. */
  function Read(ls: seq<string>): Option<Profile> {
    if |ls| == 0 || ls[0] != HEADER then None
    else
      var image :- ReadTagged("IMAGE ", ls[1..]);
      var id :- ReadTagged("PROFILE_ID ", image.1);
      ReadSections(image.0, id.0, id.1)
  }

  /** The pixel width never contains a space (it is a formatted number). */
  predicate Readable(pr: Profile) {
    ' ' !in pr.pixelWidth
  }

  lemma ReadTaggedOf(prefix: string, t: string, rest: seq<string>)
    ensures ReadTagged(prefix, [prefix + t] + rest) == Some((t, rest))
  {
    AfterPrefix(prefix, t);
    assert ([prefix + t] + rest)[1..] == rest;
  }

  lemma ReadCommentOf(comment: string, rest: seq<string>)
    requires |rest| > 0 && |rest[0]| > 0 && rest[0][0] == 'P'
    ensures ReadComment(CommentLines(comment) + rest) == (comment, rest)
  {
    if comment != "" {
      AfterPrefix("COMMENT ", comment);
      assert (CommentLines(comment) + rest)[1..] == rest;
    } else {
      assert CommentLines(comment) + rest == rest;
      assert After("COMMENT ", rest[0]).None? by {
        if |rest[0]| >= 8 {
          assert rest[0][..8][0] != "COMMENT "[0];
        }
      }
    }
  }

  lemma ReadPoslocOf(polarity: Option<Vertex>, rest: seq<string>)
    requires |rest| > 0 && rest[0] == "PATH"
    ensures ReadPosloc(PoslocLines(polarity) + rest) == Some((polarity, rest))
  {
    if polarity.Some? {
      AfterPrefix("POSLOC ", VertexText(polarity.value));
      ReadVertexText(polarity.value);
      assert (PoslocLines(polarity) + rest)[1..] == rest;
    } else {
      assert PoslocLines(polarity) + rest == rest;
      assert After("POSLOC ", "PATH").None?;
    }
  }

  lemma ReadComponentsOf(pr: Profile)
    ensures ReadComponents(PoslocLines(pr.polarity) + (Block("PATH", pr.path) + (HoleBlocks(pr.holes) + Tail(pr))))
         == Some((pr.polarity, pr.path, pr.holes, pr.points, pr.random))
  {
    var body := HoleBlocks(pr.holes) + Tail(pr);
    var afterPos := Block("PATH", pr.path) + body;
    assert afterPos[0] == "PATH";
    ReadPoslocOf(pr.polarity, afterPos);
    ReadBlockOf("PATH", pr.path, body);
    ReadBodyOf(pr);
  }

  lemma ReadSectionsOf(pr: Profile)
    requires Readable(pr)
    ensures ReadSections(pr.image, pr.id, Sections(pr, HoleBlocks(pr.holes) + Tail(pr))) == Some(pr)
  {
    var afterScale := PoslocLines(pr.polarity) + (Block("PATH", pr.path) + (HoleBlocks(pr.holes) + Tail(pr)));
    var afterComment := [PixelWidthLine(pr.pixelWidth, pr.unit)] + afterScale;
    ReadComponentsOf(pr);
    ReadPixelWidthOf(pr.pixelWidth, pr.unit, afterScale);
    assert afterComment[0][0] == 'P';
    ReadCommentOf(pr.comment, afterComment);
  }

  /** Reading a rendered profile gives the profile back. */
  lemma RoundTrip(pr: Profile)
    requires Readable(pr)
    ensures Read(Render(pr)) == Some(pr)
  {
    var afterId := Sections(pr, HoleBlocks(pr.holes) + Tail(pr));
    var afterImage := ["PROFILE_ID " + pr.id] + afterId;
    var afterHeader := ["IMAGE " + pr.image] + afterImage;
    assert Render(pr)[1..] == afterHeader;
    ReadTaggedOf("IMAGE ", pr.image, afterImage);
    ReadTaggedOf("PROFILE_ID ", pr.id, afterId);
    ReadSectionsOf(pr);
  }

  /** The document splits into the head, the HOLE blocks of the overlay's holes and the tail. */
  lemma DocumentParts(img: Image, id: string, comment: string, ov: seq<Roi>)
    requires IndexOf(ov, PATH) != -1
    ensures Document(img, id, comment, ov) ==
            Head(Describe(img, id, comment, ov), HoleBlocks(HoleGeometries(ov)) + Tail(Describe(img, id, comment, ov)))
  {
  }

  /** The document `save` writes reads back as the session's profile. */
  lemma DocumentReadsBack(img: Image, id: string, comment: string, ov: seq<Roi>)
    requires IndexOf(ov, PATH) != -1 && ' ' !in img.pixelWidthText
    ensures Read(Document(img, id, comment, ov)) == Some(Describe(img, id, comment, ov))
  {
    RoundTrip(Describe(img, id, comment, ov));
  }
}
