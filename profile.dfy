/**
 * The profile session `ProfileDataDTP`: the overlay, the counters, the bound image and
 * the save/validate/clear lifecycle. Dialog replies are inputs: `answers[i]` is the
 * reply to the i-th warning dialog (a missing reply counts as "not yes"), `Reply` what
 * the profile-ID prompt returns, `fileChosen` whether a file was picked and `writable`
 * whether it could be opened for writing.
 */
module Profile {
  import opened Decimal
  import opened Annotations
  import opened Drawing
  import opened DtpDocument

  // ---------------------------------------------------------------- the save-time check

  const SCALE_NOT_SET: string := "It appears the scale has not been set."
  const PATH_NOT_DEFINED: string := "Path not defined."
  const NO_POINTS: string := "No point coordinates defined."
  const NO_POLARITY: string := "Positive polarity not defined."

  /** The outcome of `CheckProfileData`: go ahead, a hard error, or a declined warning. */
  datatype Verdict = Accepted | Rejected(message: string) | Declined(warning: string)

  /** The calibration unit of an image whose scale was never set. */
  predicate Uncalibrated(unit: string) {
    unit == " " || unit == "inch"
  }

  function HardErrors(unit: string, pathPoints: nat): seq<string> {
    (if Uncalibrated(unit) then [SCALE_NOT_SET] else []) + (if pathPoints == 0 then [PATH_NOT_DEFINED] else [])
  }

  /** The confirmable warnings, in the order their dialogs appear. */
  function Warnings(pointsPoints: nat, hasPolarity: bool): seq<string> {
    (if pointsPoints == 0 then [NO_POINTS] else []) + (if !hasPolarity then [NO_POLARITY] else [])
  }

  predicate Confirmed(answers: seq<bool>, i: nat) {
    i < |answers| && answers[i]
  }

  /** The verdict of the warning dialogs from the i-th on. */
  function ConfirmFrom(warnings: seq<string>, answers: seq<bool>, i: nat): Verdict
    requires i <= |warnings|
    decreases |warnings| - i
  {
    if i == |warnings| then Accepted
    else if !Confirmed(answers, i) then Declined(warnings[i])
    else ConfirmFrom(warnings, answers, i + 1)
  }

  lemma {:induction false} ConfirmFromAccepts(warnings: seq<string>, answers: seq<bool>, i: nat)
    requires i <= |warnings|
    ensures ConfirmFrom(warnings, answers, i) == Accepted <==>
            forall j :: i <= j < |warnings| ==> Confirmed(answers, j)
    decreases |warnings| - i
  {
    if i < |warnings| && Confirmed(answers, i) {
      ConfirmFromAccepts(warnings, answers, i + 1);
    }
  }

  /** What `CheckProfileData` decides: first the hard errors, then the warnings in order. */
  function Validate(unit: string, pathPoints: nat, pointsPoints: nat, hasPolarity: bool, answers: seq<bool>): (v: Verdict)
    ensures v.Rejected? <==> Uncalibrated(unit) || pathPoints == 0
    ensures v.Rejected? ==> v.message == if Uncalibrated(unit) then SCALE_NOT_SET else PATH_NOT_DEFINED
    ensures v.Declined? ==> v.warning in Warnings(pointsPoints, hasPolarity)
  {
    var errors := HardErrors(unit, pathPoints);
    if |errors| > 0 then Rejected(errors[0])
    else
      var warnings := Warnings(pointsPoints, hasPolarity);
      ConfirmFromDeclines(warnings, answers, 0);
      ConfirmFrom(warnings, answers, 0)
  }

  lemma {:induction false} ConfirmFromDeclines(warnings: seq<string>, answers: seq<bool>, i: nat)
    requires i <= |warnings|
    ensures !ConfirmFrom(warnings, answers, i).Rejected?
    ensures ConfirmFrom(warnings, answers, i).Declined? ==> ConfirmFrom(warnings, answers, i).warning in warnings[i..]
    decreases |warnings| - i
  {
    if i < |warnings| && Confirmed(answers, i) {
      ConfirmFromDeclines(warnings, answers, i + 1);
    }
  }

  /**
   * Saving goes ahead exactly when there is no hard error and every warning dialog that
   * is shown is answered yes.
   */
  lemma ValidateAccepts(unit: string, pathPoints: nat, pointsPoints: nat, hasPolarity: bool, answers: seq<bool>)
    ensures Validate(unit, pathPoints, pointsPoints, hasPolarity, answers) == Accepted <==>
            && !Uncalibrated(unit) && pathPoints > 0
            && forall i :: 0 <= i < |Warnings(pointsPoints, hasPolarity)| ==> Confirmed(answers, i)
  {
    ConfirmFromAccepts(Warnings(pointsPoints, hasPolarity), answers, 0);
  }

  /** With both warnings pending, the "no points" dialog comes before the "no polarity" one. */
  lemma WarningOrder(unit: string, pathPoints: nat, answers: seq<bool>)
    requires !Uncalibrated(unit) && pathPoints > 0
    ensures Validate(unit, pathPoints, 0, false, answers) ==
            if !Confirmed(answers, 0) then Declined(NO_POINTS)
            else if !Confirmed(answers, 1) then Declined(NO_POLARITY)
            else Accepted
  {
    var w := Warnings(0, false);
    assert w == [NO_POINTS, NO_POLARITY];
    assert ConfirmFrom(w, answers, 2) == Accepted;
  }

  // ---------------------------------------------------------------- image binding

  /** `isSameImage` accepts a clean or unbound session, or the image it is bound to. */
  predicate SameImage(dirty: bool, imgID: int, current: int) {
    !dirty || imgID == 0 || imgID == current
  }

  /** The bound image after `isSameImage`: a clean or unbound session binds to the current one. */
  function Rebind(dirty: bool, imgID: int, current: int): int {
    if !dirty || imgID == 0 then current else imgID
  }

  /**
   * The check and the binding agree: the image is accepted exactly when the session ends up
   * bound to it, a rejected session keeps its binding, and checking again changes nothing.
   */
  lemma BindingAgrees(dirty: bool, imgID: int, current: int)
    ensures SameImage(dirty, imgID, current) <==> Rebind(dirty, imgID, current) == current
    ensures !SameImage(dirty, imgID, current) ==> Rebind(dirty, imgID, current) == imgID
    ensures Rebind(dirty, Rebind(dirty, imgID, current), current) == Rebind(dirty, imgID, current)
  {
  }

  // ---------------------------------------------------------------- the session

  /** The reply to an `IJ.getString` prompt: its default accepted, a typed text, or dismissed. */
  datatype Reply = KeepDefault | Typed(text: string) | Dismissed

  /** The text `IJ.getString` returns: "" when the prompt is dismissed. */
  function ReplyText(reply: Reply, default: string): string {
    match reply
    case KeepDefault => default
    case Typed(text) => text
    case Dismissed => ""
  }

  /** The document and the drawing a successful save produces. */
  predicate SaveOutput(img: Image, id: string, comment: string, ov: seq<Roi>, labelWidth: int, labelHeight: int,
                       lines: seq<string>, drawing: seq<DrawOp>)
  {
    && IndexOf(ov, PATH) != -1
    && lines == Document(img, id, comment, ov)
    && drawing == SaveDrawing(id, ov, img, labelWidth, labelHeight)
  }

  /** All fields of a session, as one value. */
  datatype Session = Session(
    dirty: bool,
    overlay: seq<Roi>,
    n: int,
    ntot: int,
    randompn: int,
    imgID: int,
    id: string,
    comment: string,
    prevImg: string)

  /**
   * The lines `save` writes around the HOLE blocks `holes`, and what it then draws: the
   * ID label and the components.
   */
  method Emit(img: Image, id: string, comment: string, ov: seq<Roi>, holes: seq<string>, labelWidth: int, labelHeight: int)
    returns (lines: seq<string>, drawing: seq<DrawOp>)
    requires IndexOf(ov, PATH) != -1 && holes == HoleBlocks(HoleGeometries(ov))
    ensures SaveOutput(img, id, comment, ov, labelWidth, labelHeight, lines, drawing)
  {
    var pr := Describe(img, id, comment, ov);
    DocumentParts(img, id, comment, ov);
    lines := Head(pr, holes + Tail(pr));
    drawing := SaveDrawing(id, ov, img, labelWidth, labelHeight);
  }

  /** `n` after the title check of `save`: reset to 0 for a new image title. */
  function SessionStart(s: Session, img: Image): int {
    if img.title != s.prevImg then 0 else s.n
  }

  /** `ID` after the profile-ID prompt, whose default is the profile number; an empty reply keeps the ID. */
  function NextId(s: Session, reply: Reply): string {
    var text := ReplyText(reply, IntText(s.ntot));
    if text != "" then text else s.id
  }

  /**
   * The ID after the prompt: accepting the default gives the profile number, dismissing the
   * prompt or typing nothing keeps the old ID, so a non-empty ID is never blanked.
   */
  lemma NextIdCases(s: Session, reply: Reply)
    ensures reply == KeepDefault ==> NextId(s, reply) == IntText(s.ntot)
    ensures reply == Dismissed || reply == Typed("") ==> NextId(s, reply) == s.id
    ensures reply.Typed? && reply.text != "" ==> NextId(s, reply) == reply.text
    ensures s.id != "" ==> NextId(s, reply) != ""
  {
  }

  /**
   * What `save` does once `CheckProfileData` has passed, from session `before` to session
   * `after`: the file dialog decides whether anything is written, and the per-image count,
   * the ID, the image title and the profile number move as described.
   */
  predicate SaveStep(before: Session, after: Session, img: Image, reply: Reply, fileChosen: bool, writable: bool,
                     labelWidth: int, labelHeight: int, saved: bool, lines: seq<string>, drawing: seq<DrawOp>)
  {
    var start, nextId := SessionStart(before, img), NextId(before, reply);
    && (saved <==> fileChosen && writable)
    && (!saved ==> lines == [] && drawing == [])
    && (!fileChosen ==> after == before.(n := start, prevImg := img.title, id := nextId))
    && (fileChosen && !writable ==> after == before.(n := start + 1, prevImg := img.title, id := nextId))
    && (saved ==> after == before.(n := |before.overlay|, ntot := Inc32(before.ntot), prevImg := img.title, id := nextId))
    && (saved ==> SaveOutput(img, after.id, after.comment, after.overlay, labelWidth, labelHeight, lines, drawing))
  }

  /**
   * A save step is determined by its inputs; the image title is recorded, the profile number
   * advances exactly when a file is written, the components, comment, binding and random count
   * are kept, and the ID is the one the prompt gave.
   */
  lemma SaveStepEffect(before: Session, after: Session, img: Image, reply: Reply, fileChosen: bool, writable: bool,
                       labelWidth: int, labelHeight: int, saved: bool, lines: seq<string>, drawing: seq<DrawOp>)
    requires SaveStep(before, after, img, reply, fileChosen, writable, labelWidth, labelHeight, saved, lines, drawing)
    ensures after.prevImg == img.title && after.id == NextId(before, reply)
    ensures after.ntot == if saved then Inc32(before.ntot) else before.ntot
    ensures after.n == if saved then |before.overlay| else SessionStart(before, img) + (if fileChosen then 1 else 0)
    ensures after.dirty == before.dirty && after.overlay == before.overlay && after.comment == before.comment
    ensures after.imgID == before.imgID && after.randompn == before.randompn
    ensures SessionStart(after, img) == after.n
  {
  }

  /**
   * A save that writes a file when ntot is the largest `int` (which "Set profile n" can set)
   * wraps ntot to the smallest, so the next prompt offers a negative profile number.
   */
  lemma SaveAtMaxWraps(before: Session, after: Session, img: Image, reply: Reply, fileChosen: bool, writable: bool,
                       labelWidth: int, labelHeight: int, saved: bool, lines: seq<string>, drawing: seq<DrawOp>)
    requires SaveStep(before, after, img, reply, fileChosen, writable, labelWidth, labelHeight, saved, lines, drawing)
    requires before.ntot == INT_MAX && saved
    ensures after.ntot == INT_MIN
    ensures NextId(after, KeepDefault)[0] == '-'
  {
    IncrementWraps();
  }

  /** A save step that writes a file: the file dialog and the writer both succeeded. */
  lemma WrittenStep(before: Session, after: Session, img: Image, reply: Reply, labelWidth: int, labelHeight: int,
                    lines: seq<string>, drawing: seq<DrawOp>)
    requires after == before.(n := |before.overlay|, ntot := Inc32(before.ntot), prevImg := img.title, id := NextId(before, reply))
    requires SaveOutput(img, after.id, after.comment, after.overlay, labelWidth, labelHeight, lines, drawing)
    ensures SaveStep(before, after, img, reply, true, true, labelWidth, labelHeight, true, lines, drawing)
  {
  }

  /** Two save steps from the same session with the same replies end in the same state and output. */
  lemma SaveStepDeterministic(before: Session, img: Image, reply: Reply, fileChosen: bool, writable: bool,
                              labelWidth: int, labelHeight: int,
                              a1: Session, saved1: bool, lines1: seq<string>, drawing1: seq<DrawOp>,
                              a2: Session, saved2: bool, lines2: seq<string>, drawing2: seq<DrawOp>)
    requires SaveStep(before, a1, img, reply, fileChosen, writable, labelWidth, labelHeight, saved1, lines1, drawing1)
    requires SaveStep(before, a2, img, reply, fileChosen, writable, labelWidth, labelHeight, saved2, lines2, drawing2)
    ensures a1 == a2 && saved1 == saved2 && lines1 == lines2 && drawing1 == drawing2
  {
  }

  /** The session after `clear`: clean, no components, no comment, no ID. */
  function Cleared(s: Session): Session {
    s.(dirty := false, overlay := [], comment := "", id := "")
  }

  class ProfileData {
    var dirty: bool
    var overlay: seq<Roi>
    /** Profiles saved for the current image title (and, after a save, the overlay size). */
    var n: int
    /** The running profile number. */
    var ntot: int
    /** How many random points "Place random points" generates. */
    var randompn: int
    /** The ID of the image the components belong to; 0 when unbound. */
    var imgID: int
    var id: string
    var comment: string
    var prevImg: string

    function State(): Session
      reads this
    {
      Session(dirty, overlay, n, ntot, randompn, imgID, id, comment, prevImg)
    }

    ghost predicate Valid()
      reads this
    {
      WellFormed(overlay) && randompn > 0 && INT_MIN <= ntot <= INT_MAX
    }

    constructor ()
      ensures Valid()
      ensures State() == Session(false, [], 0, 1, 200, 0, "", "", "")
    {
      n := 0;
      ntot := 1;
      prevImg := "";
      imgID := 0;
      dirty := false;
      overlay := [];
      randompn := 200;
      comment := "";
      id := "";
    }

    /** `getNum`. */
    method GetNum(name: string) returns (r: nat)
      ensures r == Count(overlay, name)
    {
      r := 0;
      var i := 0;
      while i < |overlay|
        invariant 0 <= i <= |overlay|
        invariant r + Count(overlay[i..], name) == Count(overlay, name)
      {
        assert overlay[i..][1..] == overlay[i + 1..];
        if overlay[i].name == name {
          r := r + 1;
        }
        i := i + 1;
      }
    }

    /** `getNumPoints`. */
    method GetNumPoints(name: string) returns (r: nat)
      ensures r == NumPoints(overlay, name)
      ensures r == 0 <==> forall i :: 0 <= i < |overlay| ==> overlay[i].name != name
    {
      var k := IndexOf(overlay, name);
      if k == -1 {
        r := 0;
      } else {
        r := |overlay[k].geometry|;
      }
    }

    /** `isDefined`: the duplicate guard of the Path and Points commands. */
    method IsDefined(name: string) returns (defined: bool)
      ensures defined <==> exists i :: 0 <= i < |overlay| && overlay[i].name == name
    {
      defined := IndexOf(overlay, name) != -1;
    }

    /** `isSameImage`. */
    method IsSameImage(img: Image) returns (same: bool)
      modifies this
      ensures same == SameImage(old(dirty), old(imgID), img.id)
      ensures State() == old(State()).(imgID := Rebind(old(dirty), old(imgID), img.id))
    {
      if !dirty || imgID == 0 {
        imgID := img.id;
        same := true;
      } else if imgID == img.id {
        same := true;
      } else {
        same := false;
      }
    }

    /** `deleteSelectedComponent`; `deselect` says the selection is removed from the image too. */
    method DeleteSelectedComponent(selection: Roi, confirm: bool) returns (deselect: bool)
      requires Valid()
      modifies this
      ensures Valid()
      ensures deselect <==> selection in old(overlay) && confirm
      ensures State() == old(State()).(overlay := if deselect then RemoveRoi(old(overlay), selection) else old(overlay))
    {
      deselect := false;
      if selection in overlay {
        if confirm {
          RemoveKeepsWellFormed(overlay, IndexOfRoi(overlay, selection));
          overlay := RemoveRoi(overlay, selection);
          deselect := true;
        }
      }
    }

    /** `deleteNamedComponent`; `found` is false when "No <name> defined." is reported. */
    method DeleteNamedComponent(name: string, confirm: bool) returns (found: bool)
      requires Valid()
      modifies this
      ensures Valid()
      ensures found <==> IndexOf(old(overlay), name) != -1
      ensures State() == old(State()).(overlay :=
                if found && confirm then RemoveAt(old(overlay), IndexOf(old(overlay), name)) else old(overlay))
    {
      var k := IndexOf(overlay, name);
      found := k != -1;
      if found && confirm {
        RemoveKeepsWellFormed(overlay, k);
        overlay := RemoveAt(overlay, k);
      }
    }

    /** The verdict `CheckProfileData` reaches for this overlay, image and set of replies. */
    function SaveVerdict(img: Image, answers: seq<bool>): Verdict
      reads this
    {
      Validate(img.unit, NumPoints(overlay, PATH), NumPoints(overlay, POINTS), IndexOf(overlay, POLARITY) != -1, answers)
    }

    /** `CheckProfileData`, with its loop over the warning dialogs. */
    method CheckProfileData(img: Image, answers: seq<bool>) returns (v: Verdict)
      ensures v == SaveVerdict(img, answers)
    {
      var errors: seq<string> := [];
      var warnings: seq<string> := [];
      if img.unit == " " || img.unit == "inch" {
        errors := errors + [SCALE_NOT_SET];
      }
      if NumPoints(overlay, PATH) == 0 {
        errors := errors + [PATH_NOT_DEFINED];
      }
      if NumPoints(overlay, POINTS) == 0 {
        warnings := warnings + [NO_POINTS];
      }
      if IndexOf(overlay, POLARITY) == -1 {
        warnings := warnings + [NO_POLARITY];
      }
      assert errors == HardErrors(img.unit, NumPoints(overlay, PATH));
      assert warnings == Warnings(NumPoints(overlay, POINTS), IndexOf(overlay, POLARITY) != -1);
      if |errors| > 0 {
        return Rejected(errors[0]);
      }
      var i := 0;
      while i < |warnings|
        invariant 0 <= i <= |warnings|
        invariant ConfirmFrom(warnings, answers, i) == ConfirmFrom(warnings, answers, 0)
      {
        if !Confirmed(answers, i) {
          return Declined(warnings[i]);
        }
        i := i + 1;
      }
      return Accepted;
    }

    /**
     * `save`: check, bump the per-image counter, ask for the ID and the file, write the
     * document, draw the label and the components, bump the profile number. Returns the
     * document lines and the drawing operations of a successful save.
     */
    method Save(img: Image, answers: seq<bool>, reply: Reply, fileChosen: bool, writable: bool,
                labelWidth: int, labelHeight: int)
      returns (saved: bool, lines: seq<string>, drawing: seq<DrawOp>)
      requires Valid()
      modifies this
      ensures Valid()
      ensures old(SaveVerdict(img, answers)) != Accepted ==> !saved && lines == [] && drawing == [] && State() == old(State())
      ensures old(SaveVerdict(img, answers)) == Accepted ==>
                SaveStep(old(State()), State(), img, reply, fileChosen, writable, labelWidth, labelHeight, saved, lines, drawing)
    {
      var verdict := CheckProfileData(img, answers);
      if verdict != Accepted {
        return false, [], [];
      }
      assert NumPoints(overlay, PATH) != 0;
      saved, lines, drawing := SaveChecked(img, reply, fileChosen, writable, labelWidth, labelHeight);
    }

    /** `save` after the check. */
    method SaveChecked(img: Image, reply: Reply, fileChosen: bool, writable: bool, labelWidth: int, labelHeight: int)
      returns (saved: bool, lines: seq<string>, drawing: seq<DrawOp>)
      requires IndexOf(overlay, PATH) != -1
      modifies this
      ensures SaveStep(old(State()), State(), img, reply, fileChosen, writable, labelWidth, labelHeight, saved, lines, drawing)
    {
      ghost var before := State();
      ghost var start, nextId := SessionStart(before, img), NextId(before, reply);
      BeginProfile(img, reply);
      if !fileChosen {
        n := n - 1;
        assert State() == before.(n := start, prevImg := img.title, id := nextId);
        return false, [], [];
      }
      if !writable {
        assert State() == before.(n := start + 1, prevImg := img.title, id := nextId);
        return false, [], [];
      }
      lines, drawing := WriteProfile(img, labelWidth, labelHeight);
      saved := true;
      WrittenStep(before, State(), img, reply, labelWidth, labelHeight, lines, drawing);
    }

    /**
     * The writing part of `save`, once the checks and the dialogs are passed: the
     * document, the label and components drawn on the image, and the next profile number.
     */
    method WriteProfile(img: Image, labelWidth: int, labelHeight: int) returns (lines: seq<string>, drawing: seq<DrawOp>)
      requires IndexOf(overlay, PATH) != -1
      modifies this
      ensures dirty == old(dirty) && overlay == old(overlay) && n == |overlay| && ntot == Inc32(old(ntot))
      ensures randompn == old(randompn) && imgID == old(imgID) && id == old(id) && comment == old(comment) && prevImg == old(prevImg)
      ensures SaveOutput(img, id, comment, overlay, labelWidth, labelHeight, lines, drawing)
    {
      var holes := HoleLines();
      // the document and the drawing depend only on the ID, the comment and the overlay
      lines, drawing := Emit(img, id, comment, overlay, holes, labelWidth, labelHeight);
      ntot := Inc32(ntot);
    }

    /** The title check of `save`, the per-image count and the profile-ID prompt. */
    method BeginProfile(img: Image, reply: Reply)
      modifies this
      ensures State() == old(State()).(n := SessionStart(old(State()), img) + 1, prevImg := img.title, id := NextId(old(State()), reply))
    {
      if img.title != prevImg {
        n := 0;
        prevImg := img.title;
      }
      n := n + 1;
      var s := ReplyText(reply, IntText(ntot));
      if s != "" {
        id := s;
      }
    }

    /**
     * The hole loop of `save`: one HOLE block per hole, in overlay order. It counts with
     * the field `n`, which it leaves at the overlay size.
     */
    method HoleLines() returns (lines: seq<string>)
      modifies this
      ensures dirty == old(dirty) && overlay == old(overlay) && n == |overlay| && ntot == old(ntot)
      ensures randompn == old(randompn) && imgID == old(imgID) && id == old(id) && comment == old(comment) && prevImg == old(prevImg)
      ensures lines == HoleBlocks(HoleGeometries(overlay))
    {
      lines := [];
      n := 0;
      while n < |overlay|
        invariant 0 <= n <= |overlay|
        invariant dirty == old(dirty) && overlay == old(overlay) && ntot == old(ntot)
        invariant randompn == old(randompn) && imgID == old(imgID) && id == old(id) && comment == old(comment) && prevImg == old(prevImg)
        invariant lines == HoleBlocks(HoleGeometries(overlay[..n]))
      {
        HoleBlocksStep(overlay, n);
        if overlay[n].name == HOLE {
          lines := lines + Block("HOLE", overlay[n].geometry);
        }
        n := n + 1;
      }
      assert overlay[..n] == overlay;
    }

    /** `clear`. */
    method Clear()
      requires Valid()
      modifies this
      ensures Valid()
      ensures State() == Cleared(old(State()))
    {
      dirty := false;
      overlay := [];
      comment := "";
      id := "";
    }
  }
}
