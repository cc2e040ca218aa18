/**
 * The command branches of `DistToPath_.actionPerformed` that drive the profile session:
 * each user command is a method on the session, with the current image, the current
 * selection and the replies to the dialogs it opens as parameters.
 */
module Commands {
  import opened Optional
  import opened Decimal
  import opened Annotations
  import opened Drawing
  import opened Profile

  /** The ROI types the selection getters test for. */
  datatype RoiKind = Polyline | Polygon | Point | OtherKind

  /** The image's current selection: its ROI type and the ROI itself. */
  datatype Selection = Selection(kind: RoiKind, roi: Roi)

  /** The reply to a yes/no/cancel dialog. */
  datatype Decision = Yes | No | Cancel

  /**
   * The replies to the dialogs of one save: the warning confirmations, the profile-ID
   * prompt, whether a file was chosen and could be opened, and the bounds of the ID label
   * as the font metrics give them.
   */
  datatype SaveReplies = SaveReplies(answers: seq<bool>, idReply: Reply, fileChosen: bool, writable: bool,
                                     labelWidth: int, labelHeight: int)

  /**
   * `getPolylineRoi`, `getPolygonRoi` and `getPointRoi`: the vertices of the selection
   * when it has the required type, otherwise nothing (and an error message).
   */
  function Acquire(selection: Option<Selection>, kind: RoiKind): (r: Option<Geometry>)
    ensures r.Some? <==> selection.Some? && selection.value.kind == kind
    ensures r.Some? ==> r.value == selection.value.roi.geometry
  {
    match selection
    case None => None
    case Some(s) => if s.kind == kind then Some(s.roi.geometry) else None
  }

  /** The selection type each define command asks for. */
  function KindFor(name: string): RoiKind {
    if name == PATH then Polyline else if name == HOLE then Polygon else Point
  }

  /** The stroke colour each define command gives its component. */
  function ColorFor(name: string): Color {
    if name == PATH then PATH_COLOR
    else if name == POINTS then POINT_COLOR
    else if name == POLARITY then POLARITY_COLOR
    else HOLE_COLOR
  }

  /**
   * Whether a define command adds its component: the image check passes, the name is
   * not yet taken (holes may repeat), a selection of the right type exists and, for the
   * polarity, it is a single point.
   */
  predicate Defines(s: Session, img: Image, name: string, selection: Option<Selection>) {
    && SameImage(s.dirty, s.imgID, img.id)
    && (name == HOLE || IndexOf(s.overlay, name) == -1)
    && Acquire(selection, KindFor(name)).Some?
    && (name == POLARITY ==> |Acquire(selection, KindFor(name)).value| <= 1)
  }

  /** The session after a define command. */
  function AfterDefine(s: Session, img: Image, name: string, selection: Option<Selection>): (t: Session)
    ensures t.imgID == Rebind(s.dirty, s.imgID, img.id)
    ensures Defines(s, img, name, selection) ==>
              t == s.(imgID := t.imgID, overlay := s.overlay + [Roi(name, Acquire(selection, KindFor(name)).value, ColorFor(name))], dirty := true)
    ensures !Defines(s, img, name, selection) ==> t == s.(imgID := t.imgID)
  {
    var bound := s.(imgID := Rebind(s.dirty, s.imgID, img.id));
    if Defines(s, img, name, selection) then
      bound.(overlay := s.overlay + [Roi(name, Acquire(selection, KindFor(name)).value, ColorFor(name))], dirty := true)
    else bound
  }

  /** A define command keeps the overlay invariant. */
  lemma DefineKeepsWellFormed(s: Session, img: Image, name: string, selection: Option<Selection>)
    requires WellFormed(s.overlay)
    requires name == PATH || name == POINTS || name == POLARITY || name == HOLE
    ensures WellFormed(AfterDefine(s, img, name, selection).overlay)
  {
    if Defines(s, img, name, selection) {
      AppendKeepsWellFormed(s.overlay, Roi(name, Acquire(selection, KindFor(name)).value, ColorFor(name)));
    }
  }

  /** A polarity selection of more than one point is refused: the overlay and `dirty` stay as they are. */
  lemma PolarityNeedsOnePoint(s: Session, img: Image, selection: Option<Selection>)
    requires selection.Some? && selection.value.kind == Point && |selection.value.roi.geometry| > 1
    ensures AfterDefine(s, img, POLARITY, selection).overlay == s.overlay
    ensures AfterDefine(s, img, POLARITY, selection).dirty == s.dirty
  {
  }

  /** A component that is already defined is not defined again: the overlay stays as it is. */
  lemma DefinedOnce(s: Session, img: Image, name: string, selection: Option<Selection>)
    requires name != HOLE && IndexOf(s.overlay, name) != -1
    ensures AfterDefine(s, img, name, selection).overlay == s.overlay
  {
  }

  /** The define-command table: each name's selection type and stroke colour. */
  lemma DefineTable()
    ensures KindFor(PATH) == Polyline && ColorFor(PATH) == Blue
    ensures KindFor(POINTS) == Point && ColorFor(POINTS) == Green
    ensures KindFor(POLARITY) == Point && ColorFor(POLARITY) == Magenta
    ensures KindFor(HOLE) == Polygon && ColorFor(HOLE) == Red
  {
  }

  /**
   * The guards of a define command spelled out: the image check, a free name, a selection of
   * the type the table gives and, for the polarity, exactly one point.
   */
  lemma DefineGuards(s: Session, img: Image, name: string, selection: Option<Selection>)
    ensures Defines(s, img, name, selection) <==>
              && SameImage(s.dirty, s.imgID, img.id)
              && (name == HOLE || IndexOf(s.overlay, name) == -1)
              && selection.Some? && selection.value.kind == KindFor(name)
              && (name == POLARITY ==> |selection.value.roi.geometry| == 1)
  {
  }

  // ---------------------------------------------------------------- define, as written

  /** The overlay with the ROIs at the positions `aliases` renamed and recoloured. */
  function Renamed(ov: seq<Roi>, aliases: set<nat>, name: string, c: Color): (r: seq<Roi>)
    ensures |r| == |ov|
    ensures forall i :: 0 <= i < |ov| ==> r[i] == if i in aliases then ov[i].(name := name, color := c) else ov[i]
  {
    seq(|ov|, i requires 0 <= i < |ov| => if i in aliases then ov[i].(name := name, color := c) else ov[i])
  }

  /**
   * A define command as the source writes it. The source names and colours the selection
   * object itself and adds that object, so every overlay ROI that is the same object as the
   * selection (the positions `aliases`) is renamed along with it.
   */
  function DefineAsWritten(s: Session, img: Image, name: string, selection: Option<Selection>, aliases: set<nat>): (t: Session)
    ensures t.imgID == Rebind(s.dirty, s.imgID, img.id)
    ensures Defines(s, img, name, selection) ==>
              && |t.overlay| == |s.overlay| + 1
              && t.overlay[|s.overlay|] == Roi(name, Acquire(selection, KindFor(name)).value, ColorFor(name))
              && (forall i :: 0 <= i < |s.overlay| ==>
                    t.overlay[i] == if i in aliases then s.overlay[i].(name := name, color := ColorFor(name)) else s.overlay[i])
              && t == s.(imgID := t.imgID, overlay := t.overlay, dirty := true)
    ensures !Defines(s, img, name, selection) ==> t == s.(imgID := t.imgID)
  {
    var bound := s.(imgID := Rebind(s.dirty, s.imgID, img.id));
    if Defines(s, img, name, selection) then
      var roi := Roi(name, Acquire(selection, KindFor(name)).value, ColorFor(name));
      bound.(overlay := Renamed(s.overlay, aliases, name, ColorFor(name)) + [roi], dirty := true)
    else bound
  }

  /** When the selection is not already in the overlay, the source's define is the model's. */
  lemma AsWrittenAgreesWhenFresh(s: Session, img: Image, name: string, selection: Option<Selection>, aliases: set<nat>)
    requires forall i :: 0 <= i < |s.overlay| ==> i !in aliases
    ensures DefineAsWritten(s, img, name, selection, aliases) == AfterDefine(s, img, name, selection)
  {
    var t, u := DefineAsWritten(s, img, name, selection, aliases), AfterDefine(s, img, name, selection);
    if Defines(s, img, name, selection) {
      assert t.overlay == u.overlay;
    }
  }

  /**
   * "Points" and then "Positive polarity" on the same one-point selection: as written, the
   * second command renames the "points" ROI in place and adds it again, leaving two polarity
   * markers and no points, so a later save finds no points to write.
   */
  lemma PointsThenPolarityAliases(v: Vertex, img: Image)
    ensures var s0 := Session(false, [], 0, 1, 200, 0, "", "", "");
      var sel := Some(Selection(Point, Roi("", [v], Yellow)));
      var s1 := DefineAsWritten(s0, img, POINTS, sel, {});
      var s2 := DefineAsWritten(s1, img, POLARITY, Some(Selection(Point, s1.overlay[0])), {0});
      && s1.overlay == [Roi(POINTS, [v], Green)]
      && s2.overlay == [Roi(POLARITY, [v], Magenta), Roi(POLARITY, [v], Magenta)]
      && !UniqueNames(s2.overlay)
      && IndexOf(s2.overlay, POINTS) == -1 && NumPoints(s2.overlay, POINTS) == 0
  {
    var s0 := Session(false, [], 0, 1, 200, 0, "", "", "");
    var sel := Some(Selection(Point, Roi("", [v], Yellow)));
    assert Defines(s0, img, POINTS, sel);
    var s1 := DefineAsWritten(s0, img, POINTS, sel, {});
    assert s1.overlay == [Roi(POINTS, [v], Green)];
    var sel1 := Some(Selection(Point, s1.overlay[0]));
    assert IndexOf(s1.overlay, POLARITY) == -1;
    assert Defines(s1, img, POLARITY, sel1);
    var s2 := DefineAsWritten(s1, img, POLARITY, sel1, {0});
    assert s2.overlay == [Roi(POLARITY, [v], Magenta), Roi(POLARITY, [v], Magenta)];
    assert s2.overlay[0].name == s2.overlay[1].name != HOLE;
  }

  /** The same two commands in the model: both components are kept, each under its own name. */
  lemma PointsThenPolarityKept(v: Vertex, img: Image)
    ensures var s0 := Session(false, [], 0, 1, 200, 0, "", "", "");
      var sel := Some(Selection(Point, Roi("", [v], Yellow)));
      var s1 := AfterDefine(s0, img, POINTS, sel);
      var s2 := AfterDefine(s1, img, POLARITY, Some(Selection(Point, s1.overlay[0])));
      && s2.overlay == [Roi(POINTS, [v], Green), Roi(POLARITY, [v], Magenta)]
      && WellFormed(s2.overlay)
      && NumPoints(s2.overlay, POINTS) == 1
  {
    var s0 := Session(false, [], 0, 1, 200, 0, "", "", "");
    var sel := Some(Selection(Point, Roi("", [v], Yellow)));
    assert Defines(s0, img, POINTS, sel);
    var s1 := AfterDefine(s0, img, POINTS, sel);
    var sel1 := Some(Selection(Point, s1.overlay[0]));
    assert IndexOf(s1.overlay, POLARITY) == -1;
    assert Defines(s1, img, POLARITY, sel1);
    DefineKeepsWellFormed(s0, img, POINTS, sel);
    DefineKeepsWellFormed(s1, img, POLARITY, sel1);
  }

  // ---------------------------------------------------------------- save and clear

  /**
   * The outcome of a save on a dirty session, followed by a clear when the save
   * succeeds. `accepted` is whether the data check let the save go ahead.
   */
  predicate SavedOrKept(before: Session, after: Session, img: Image, r: SaveReplies, accepted: bool,
                        saved: bool, lines: seq<string>, drawing: seq<DrawOp>)
  {
    && (saved <==> accepted && r.fileChosen && r.writable)
    && (!accepted ==> after == before && lines == [] && drawing == [])
    && (accepted && !saved ==>
          SaveStep(before, after, img, r.idReply, r.fileChosen, r.writable, r.labelWidth, r.labelHeight, false, lines, drawing))
    && (saved ==>
          && after == Cleared(before.(n := |before.overlay|, ntot := Inc32(before.ntot), prevImg := img.title))
          && SaveOutput(img, NextId(before, r.idReply), before.comment, before.overlay, r.labelWidth, r.labelHeight, lines, drawing))
  }

  /** "Save profile": nothing to save on a clean session; a successful save clears it. */
  method SaveProfile(p: ProfileData, img: Image, r: SaveReplies) returns (saved: bool, lines: seq<string>, drawing: seq<DrawOp>)
    requires p.Valid()
    modifies p
    ensures p.Valid()
    ensures !old(p.dirty) ==> !saved && lines == [] && drawing == [] && p.State() == old(p.State())
    ensures old(p.dirty) ==>
              SavedOrKept(old(p.State()), p.State(), img, r, old(p.SaveVerdict(img, r.answers)) == Accepted, saved, lines, drawing)
  {
    saved, lines, drawing := false, [], [];
    if !p.dirty {
      // "Nothing to save."
      return;
    }
    saved, lines, drawing := p.Save(img, r.answers, r.idReply, r.fileChosen, r.writable, r.labelWidth, r.labelHeight);
    if saved {
      p.Clear();
    }
  }

  /**
   * "Clear profile": a dirty session asks whether to save first. Yes saves, and the
   * session stays dirty when the save does not happen; No discards; Cancel keeps
   * everything. A clean session is then cleared.
   */
  method ClearProfile(p: ProfileData, img: Image, d: Decision, r: SaveReplies)
    returns (saved: bool, lines: seq<string>, drawing: seq<DrawOp>)
    requires p.Valid()
    modifies p
    ensures p.Valid()
    ensures !old(p.dirty) || d == No ==> !saved && lines == [] && drawing == [] && p.State() == Cleared(old(p.State()))
    ensures old(p.dirty) && d == Cancel ==> !saved && lines == [] && drawing == [] && p.State() == old(p.State())
    ensures old(p.dirty) && d == Yes ==>
              SavedOrKept(old(p.State()), p.State(), img, r, old(p.SaveVerdict(img, r.answers)) == Accepted, saved, lines, drawing)
  {
    saved, lines, drawing := false, [], [];
    if p.dirty {
      if d == Yes {
        saved, lines, drawing := SaveOnYes(p, img, r);
      } else if d != Cancel {
        p.dirty := false;
      }
    }
    if !p.dirty {
      p.Clear();
    }
  }

  /** The Yes answer of "Clear profile": save, and the session stays dirty unless it was saved. */
  method SaveOnYes(p: ProfileData, img: Image, r: SaveReplies) returns (saved: bool, lines: seq<string>, drawing: seq<DrawOp>)
    requires p.Valid() && p.dirty
    modifies p
    ensures p.Valid()
    ensures !saved ==>
              SavedOrKept(old(p.State()), p.State(), img, r, old(p.SaveVerdict(img, r.answers)) == Accepted, false, lines, drawing)
    ensures saved ==>
              && old(p.SaveVerdict(img, r.answers)) == Accepted && r.fileChosen && r.writable
              && p.State() == old(p.State()).(dirty := false, n := |old(p.overlay)|, ntot := Inc32(old(p.ntot)),
                                               prevImg := img.title, id := NextId(old(p.State()), r.idReply))
              && SaveOutput(img, NextId(old(p.State()), r.idReply), old(p.comment), old(p.overlay), r.labelWidth, r.labelHeight, lines, drawing)
  {
    ghost var before, accepted := p.State(), p.SaveVerdict(img, r.answers) == Accepted;
    saved, lines, drawing := p.Save(img, r.answers, r.idReply, r.fileChosen, r.writable, r.labelWidth, r.labelHeight);
    ghost var mid := p.State();
    p.dirty := !saved;
    YesOutcome(before, mid, p.State(), img, r, accepted, saved, lines, drawing);
  }

  /** The outcome of a save on a dirty session after which `dirty` is set to "not saved". */
  lemma YesOutcome(before: Session, mid: Session, after: Session, img: Image, r: SaveReplies, accepted: bool,
                   saved: bool, lines: seq<string>, drawing: seq<DrawOp>)
    requires before.dirty && after == mid.(dirty := !saved)
    requires !accepted ==> !saved && lines == [] && drawing == [] && mid == before
    requires accepted ==> SaveStep(before, mid, img, r.idReply, r.fileChosen, r.writable, r.labelWidth, r.labelHeight, saved, lines, drawing)
    ensures !saved ==> SavedOrKept(before, after, img, r, accepted, false, lines, drawing)
    ensures saved ==>
              && accepted && r.fileChosen && r.writable
              && after == before.(dirty := false, n := |before.overlay|, ntot := Inc32(before.ntot),
                                  prevImg := img.title, id := NextId(before, r.idReply))
              && SaveOutput(img, NextId(before, r.idReply), before.comment, before.overlay, r.labelWidth, r.labelHeight, lines, drawing)
  {
    if accepted {
      SaveStepEffect(before, mid, img, r.idReply, r.fileChosen, r.writable, r.labelWidth, r.labelHeight, saved, lines, drawing);
      if !saved {
        assert after == mid;
      }
    }
  }

  // ---------------------------------------------------------------- define

  /**
   * "Path", "Points", "Positive polarity" and "Hole": after the image check, append the
   * selection under the component's name and colour.
   */
  method Define(p: ProfileData, img: Image, name: string, selection: Option<Selection>)
    requires p.Valid()
    requires name == PATH || name == POINTS || name == POLARITY || name == HOLE
    modifies p
    ensures p.Valid()
    ensures p.State() == AfterDefine(old(p.State()), img, name, selection)
  {
    DefineKeepsWellFormed(p.State(), img, name, selection);
    var same := p.IsSameImage(img);
    if !same {
      return;
    }
    if name == PATH || name == POINTS {
      var defined := p.IsDefined(name);
      if defined {
        return;
      }
    } else if name == POLARITY {
      if IndexOf(p.overlay, POLARITY) != -1 {
        return;
      }
    }
    var g := Acquire(selection, KindFor(name));
    if g.Some? {
      if name == POLARITY && |g.value| > 1 {
        // "Could not define polarity: More than one point selected."
        return;
      }
      p.overlay := p.overlay + [Roi(name, g.value, ColorFor(name))];
      p.dirty := true;
    }
  }

  // ---------------------------------------------------------------- random points

  /**
   * "Place random points": after the image check, and when none are placed yet, add
   * `randompn` random points under the name "randon points". `dirty` is left alone. An
   * image narrower or lower than 2 pixels makes `nextInt` throw, so nothing is added.
   */
  method PlaceRandomPoints(p: ProfileData, img: Image, rnd: nat -> int)
    requires p.Valid()
    modifies p
    ensures p.Valid()
    ensures var bound := old(p.State()).(imgID := Rebind(old(p.dirty), old(p.imgID), img.id));
            if SameImage(old(p.dirty), old(p.imgID), img.id) && IndexOf(old(p.overlay), RANDOM) == -1
               && img.width >= 2 && img.height >= 2
            then p.State() == bound.(overlay := old(p.overlay) +
                   [Roi(RANDOM, RandomPoints(rnd, old(p.randompn), img.width, img.height), RANDOM_COLOR)])
            else p.State() == bound
  {
    var same := p.IsSameImage(img);
    if !same || IndexOf(p.overlay, RANDOM) != -1 {
      return;
    }
    if img.width < 2 || img.height < 2 {
      return;
    }
    var pts := PlaceRandom(rnd, p.randompn, img.width, img.height);
    AppendKeepsWellFormed(p.overlay, Roi(RANDOM, pts, RANDOM_COLOR));
    p.overlay := p.overlay + [Roi(RANDOM, pts, RANDOM_COLOR)];
  }

  // ---------------------------------------------------------------- delete

  /** "Delete path", "Delete points", "Delete polarity" and "Delete random points". */
  method DeleteNamed(p: ProfileData, img: Image, name: string, confirm: bool) returns (found: bool)
    requires p.Valid()
    modifies p
    ensures p.Valid()
    ensures found <==> SameImage(old(p.dirty), old(p.imgID), img.id) && IndexOf(old(p.overlay), name) != -1
    ensures p.State() == old(p.State()).(imgID := Rebind(old(p.dirty), old(p.imgID), img.id),
              overlay := if found && confirm then RemoveAt(old(p.overlay), IndexOf(old(p.overlay), name)) else old(p.overlay))
  {
    var same := p.IsSameImage(img);
    if !same {
      return false;
    }
    found := p.DeleteNamedComponent(name, confirm);
  }

  /** "Delete random points" looks for "random points", a name no component ever has. */
  lemma DeleteRandomPointsNeverMatches(ov: seq<Roi>)
    requires WellFormed(ov)
    ensures IndexOf(ov, RANDOM_LOOKUP) == -1
  {
  }

  /** "Delete selected component": only when there is a selection; no image check. */
  method DeleteSelected(p: ProfileData, selection: Option<Selection>, confirm: bool) returns (deselect: bool)
    requires p.Valid()
    modifies p
    ensures p.Valid()
    ensures deselect <==> selection.Some? && selection.value.roi in old(p.overlay) && confirm
    ensures p.State() == old(p.State()).(overlay :=
              if deselect then RemoveRoi(old(p.overlay), selection.value.roi) else old(p.overlay))
  {
    deselect := false;
    if selection.Some? {
      deselect := p.DeleteSelectedComponent(selection.value.roi, confirm);
    }
  }

  // ---------------------------------------------------------------- settings

  /**
   * "Set profile n": the prompt's text, defaulting to the current profile number, is
   * parsed by `Integer.parseInt`; text it refuses throws, and the number stays.
   */
  method SetProfileN(p: ProfileData, reply: Reply)
    modifies p
    ensures var parsed := ParseInt(ReplyText(reply, IntText(old(p.ntot))));
            p.State() == old(p.State()).(ntot := if parsed.Some? then parsed.value else old(p.ntot))
  {
    var s := ReplyText(reply, IntText(p.ntot));
    var v := ParseInt(s);
    if v.Some? {
      p.ntot := v.value;
    }
  }

  /** Accepting the default of "Set profile n" keeps a 32-bit profile number. */
  lemma SetProfileNDefault(ntot: int)
    requires INT_MIN <= ntot <= INT_MAX
    ensures ParseInt(ReplyText(KeepDefault, IntText(ntot))) == Some(ntot)
  {
    ParseIntOfIntText(ntot);
  }

  /** "Add comment": a non-empty reply becomes the comment and makes the session dirty. */
  method AddComment(p: ProfileData, reply: Reply)
    modifies p
    ensures var text := ReplyText(reply, old(p.comment));
            p.State() == if text != "" then old(p.State()).(comment := text, dirty := true) else old(p.State())
  {
    var s := ReplyText(reply, p.comment);
    if s != "" {
      p.comment := s;
      p.dirty := true;
    }
  }

  const DEFAULT_RANDOM_N: int := 40

  /** The random-point count "Options..." stores for the number entered. */
  function RandomCount(value: int): (r: int)
    ensures r > 0
    ensures value > 0 ==> r == value
    ensures value <= 0 ==> r == DEFAULT_RANDOM_N
  {
    if value <= 0 then DEFAULT_RANDOM_N else value
  }

  /** "Options...": `None` is a cancelled dialog; a count that is not positive reverts to 40. */
  method Options(p: ProfileData, value: Option<int>)
    requires p.Valid()
    modifies p
    ensures p.Valid()
    ensures p.State() == if value.None? then old(p.State()) else old(p.State()).(randompn := RandomCount(value.value))
  {
    if value.None? {
      return;
    }
    p.randompn := value.value;
    if p.randompn <= 0 {
      // "Random point n must be larger than 0. Reverting to default value (40)."
      p.randompn := 40;
    }
  }
}

/**
 * `actionPerformed`: one command from the plugin's panel, given in the context of the
 * image and selection that are current when it is chosen, and a run of such commands.
 */
module Plugin {
  import opened Optional
  import opened Annotations
  import opened Drawing
  import opened DtpDocument
  import opened Profile
  import opened Commands

  /** The panel's buttons, each with the replies to the dialogs it opens. */
  datatype Command =
    | SaveProfileCmd(replies: SaveReplies)
    | ClearProfileCmd(decision: Decision, replies: SaveReplies)
    | PathCmd
    | PointsCmd
    | PositivePolarityCmd
    | HoleCmd
    | PlaceRandomPointsCmd(rnd: nat -> int)
    | DeletePathCmd(confirm: bool)
    | DeletePointsCmd(confirm: bool)
    | DeletePolarityCmd(confirm: bool)
    | DeleteRandomPointsCmd(confirm: bool)
    | DeleteSelectedComponentCmd(confirm: bool)
    | SetProfileNCmd(reply: Reply)
    | AddCommentCmd(reply: Reply)
    | OptionsCmd(value: Option<int>)
    | AboutCmd

  /** A command with the image and selection current when it is chosen. */
  datatype Event = Event(img: Image, selection: Option<Selection>, cmd: Command)

  /** A profile file written by a save, and what was drawn on the image. */
  datatype Written = Written(lines: seq<string>, drawing: seq<DrawOp>)

  predicate Saves(cmd: Command) {
    cmd.SaveProfileCmd? || cmd.ClearProfileCmd?
  }

  /** The two save commands: what they write reads back as the profile of the session before the save. */
  method PerformSave(p: ProfileData, e: Event) returns (out: Option<Written>)
    requires p.Valid() && Saves(e.cmd)
    modifies p
    ensures p.Valid()
    ensures out.Some? ==> IndexOf(old(p.overlay), PATH) != -1
    ensures out.Some? && ' ' !in e.img.pixelWidthText ==>
              Read(out.value.lines) == Some(Describe(e.img, NextId(old(p.State()), e.cmd.replies.idReply), old(p.comment), old(p.overlay)))
  {
    var before := p.State();
    var saved, lines, drawing;
    if e.cmd.SaveProfileCmd? {
      saved, lines, drawing := SaveProfile(p, e.img, e.cmd.replies);
    } else {
      saved, lines, drawing := ClearProfile(p, e.img, e.cmd.decision, e.cmd.replies);
    }
    out := None;
    if saved {
      var id := NextId(before, e.cmd.replies.idReply);
      if ' ' !in e.img.pixelWidthText {
        DocumentReadsBack(e.img, id, before.comment, before.overlay);
      }
      out := Some(Written(lines, drawing));
    }
  }

  /** One command of `actionPerformed`. */
  method Perform(p: ProfileData, e: Event) returns (out: Option<Written>)
    requires p.Valid()
    modifies p
    ensures p.Valid()
    ensures out.Some? ==> Saves(e.cmd) && IndexOf(old(p.overlay), PATH) != -1
    ensures out.Some? && ' ' !in e.img.pixelWidthText ==>
              Read(out.value.lines) == Some(Describe(e.img, NextId(old(p.State()), e.cmd.replies.idReply), old(p.comment), old(p.overlay)))
  {
    out := None;
    match e.cmd
    case SaveProfileCmd(_) =>
      out := PerformSave(p, e);
    case ClearProfileCmd(_, _) =>
      out := PerformSave(p, e);
    case PathCmd =>
      Define(p, e.img, PATH, e.selection);
    case PointsCmd =>
      Define(p, e.img, POINTS, e.selection);
    case PositivePolarityCmd =>
      Define(p, e.img, POLARITY, e.selection);
    case HoleCmd =>
      Define(p, e.img, HOLE, e.selection);
    case PlaceRandomPointsCmd(rnd) =>
      PlaceRandomPoints(p, e.img, rnd);
    case DeletePathCmd(confirm) =>
      var _ := DeleteNamed(p, e.img, PATH, confirm);
    case DeletePointsCmd(confirm) =>
      var _ := DeleteNamed(p, e.img, POINTS, confirm);
    case DeletePolarityCmd(confirm) =>
      var _ := DeleteNamed(p, e.img, POLARITY, confirm);
    case DeleteRandomPointsCmd(confirm) =>
      var _ := DeleteNamed(p, e.img, RANDOM_LOOKUP, confirm);
    case DeleteSelectedComponentCmd(confirm) =>
      var _ := DeleteSelected(p, e.selection, confirm);
    case SetProfileNCmd(reply) =>
      SetProfileN(p, reply);
    case AddCommentCmd(reply) =>
      AddComment(p, reply);
    case OptionsCmd(value) =>
      Options(p, value);
    case AboutCmd =>
  }

  /**
   * A run of commands on one session: the overlay invariant holds after every command, and
   * every file a save writes reads back as the description of a well-formed overlay with a
   * path. `sessions[k]` is the session just before the k-th file was written and `ids[k]`
   * the ID it was saved under.
   */
  method Run(p: ProfileData, events: seq<Event>) returns (files: seq<(Image, seq<string>)>, ghost sessions: seq<Session>, ghost ids: seq<string>)
    requires p.Valid()
    modifies p
    ensures p.Valid()
    ensures UniqueNames(p.overlay) && SinglePolarity(p.overlay)
    ensures |files| <= |events| && |sessions| == |files| && |ids| == |files|
    ensures forall k :: 0 <= k < |files| ==> WellFormed(sessions[k].overlay) && IndexOf(sessions[k].overlay, PATH) != -1
    ensures forall k :: 0 <= k < |files| && ' ' !in files[k].0.pixelWidthText ==>
              Read(files[k].1) == Some(Describe(files[k].0, ids[k], sessions[k].comment, sessions[k].overlay))
  {
    files, sessions, ids := [], [], [];
    var i := 0;
    while i < |events|
      invariant 0 <= i <= |events|
      invariant p.Valid()
      invariant |files| <= i && |sessions| == |files| && |ids| == |files|
      invariant forall k :: 0 <= k < |files| ==> WellFormed(sessions[k].overlay) && IndexOf(sessions[k].overlay, PATH) != -1
      invariant forall k :: 0 <= k < |files| && ' ' !in files[k].0.pixelWidthText ==>
                  Read(files[k].1) == Some(Describe(files[k].0, ids[k], sessions[k].comment, sessions[k].overlay))
    {
      ghost var before := p.State();
      var out := Perform(p, events[i]);
      if out.Some? {
        files := files + [(events[i].img, out.value.lines)];
        sessions := sessions + [before];
        ids := ids + [NextId(before, events[i].cmd.replies.idReply)];
      }
      i := i + 1;
    }
  }
}
