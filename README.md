# DistToPath profile session

DistToPath is an ImageJ plugin for recording "profiles" on a micrograph. A profile is a
segmented-line path, an optional set of sampled points, an optional positive-polarity
marker, any number of hole polygons and an optional set of random points. Each is kept
as a named ROI in the session's overlay. Once a profile is complete it is saved as a
line-oriented `.dtp` text document, and when the save succeeds the components and
the profile ID label are drawn onto the image.

This project models the session object `ProfileDataDTP` and the command branches of
`DistToPath_.actionPerformed` that drive it. Its modules:

- `Decimal`: integer text as `IJ.d2s(x, 0)` writes it, and `Integer.parseInt` on ASCII
  digits.
- `Annotations`: the overlay, with the lookups it supports (`getIndex`, `getNum`,
  `getNumPoints`, `remove`). Also its invariant: no name except "hole" occurs twice,
  and a polarity marker is one point.
- `Drawing`: the label anchor `findxy`, the clamped label position of `writeIDtext`,
  the cross marks and outlines of `drawComponents`, and the random sample points.
- `DtpDocument`: the document `save` writes, plus a reader for the same format. The
  reader is the writer's partner: every rendered profile whose pixel-width text has no
  space reads back unchanged.
- `Profile`:
  - the class `ProfileData`, with the session's fields, `isSameImage`, `isDefined`,
    `getNum`, `getNumPoints`, the two delete methods, `CheckProfileData`, `save` and
    `clear`;
  - the specification functions these methods are proved against.
- `Commands`: one method per button ("Save profile", "Clear profile", the four define
  commands, "Place random points", the deletes, "Set profile n", "Add comment",
  "Options...").
- `Plugin`: the dispatch of one command, and a run of commands that keeps the overlay
  invariant and writes only documents that read back. This holds for the define commands
  as corrected under "## Findings": each define adds its own copy of the selection.

Inputs the plugin gets from the user or the system are parameters:

- the replies to yes/no and yes/no/cancel dialogs;
- the text typed into prompts (`Reply`);
- whether a file was chosen and whether it could be opened for writing;
- the current image and its selection;
- the label's bounding box as the font metrics report it;
- the stream of values `java.util.Random` draws.

## Model

| member | source | states |
|---|---|---|
| Decimal.IntText | src/main/java/DistToPath_.java:587 | the text of an integer with 0 decimals is non-empty, all digits except a leading '-', and starts with '-' exactly when the integer is negative |
| Decimal.NatTextValue | src/main/java/DistToPath_.java:629-631 | the digits written for a natural number denote that number |
| Decimal.IntTextRoundTrip | src/main/java/DistToPath_.java:629-631 | parsing the text written for any integer gives the integer back |
| Decimal.ParseInt | src/main/java/DistToPath_.java:383 | `Integer.parseInt` accepts only text that starts with a digit or a sign, and only values in the 32-bit range |
| Decimal.ParseIntMeaning | src/main/java/DistToPath_.java:383 | `Integer.parseInt` gives v exactly when v is in the 32-bit range and is the value of the text, or of the digits after a leading '+'; every other text is rejected |
| Decimal.ParseIntExamples | src/main/java/DistToPath_.java:383 | "+7" and "007" read as 7 and "-0" as 0; "", "+", "7a" and "+-7" are rejected |
| Decimal.ParseIntRejectsOutOfRange | src/main/java/DistToPath_.java:383 | the text of any integer outside the 32-bit range, such as 2147483648, is rejected |
| Decimal.ParseIntOfIntText | src/main/java/DistToPath_.java:381-384 | every 32-bit integer's text parses back to that integer |
| Annotations.IndexOf | src/main/java/DistToPath_.java:498-499 | `getIndex` is -1 exactly when no ROI has the name; otherwise it is the first ROI with the name |
| Annotations.Count | src/main/java/DistToPath_.java:466-475 | the count of ROIs with a name is at most the overlay size, and 0 exactly when the name is absent |
| Annotations.NumPoints | src/main/java/DistToPath_.java:477-483 | `getNumPoints` is 0 exactly when the name is absent; otherwise it is the vertex count of a ROI with that name |
| Annotations.RemoveAt | src/main/java/DistToPath_.java:505 | removing index k keeps the ROIs before k, shifts the ones after it down by one, and removes exactly that one element from the multiset |
| Annotations.IndexOfRoi | src/main/java/DistToPath_.java:486 | the position of the first ROI equal to a member of the overlay |
| Annotations.RemoveRoi | src/main/java/DistToPath_.java:491-493 | removing a member drops exactly its first occurrence and keeps the rest in order; removing a non-member changes nothing |
| Annotations.CountAtMostOne | src/main/java/DistToPath_.java:283-322 | under the overlay invariant, any name other than "hole" is held by at most one ROI |
| Annotations.IndexOfIsOnlyMatch | src/main/java/DistToPath_.java:477-481 | under the invariant, the ROI `getIndex` finds is the only one with that name, so a first-match and a last-match lookup agree |
| Annotations.CountAppend | src/main/java/DistToPath_.java:288-291 | appending a ROI raises the count of its own name by one and leaves every other count alone |
| Annotations.AppendKeepsWellFormed | src/main/java/DistToPath_.java:283-351 | appending a new name, a hole, or a single-point polarity keeps the overlay invariant |
| Annotations.RemoveKeepsWellFormed | src/main/java/DistToPath_.java:485-508 | removing any ROI keeps the overlay invariant |
| Drawing.Anchor | src/main/java/DistToPath_.java:697-712 | the anchor is (width, height) or a vertex that lies above the bottom edge |
| Drawing.AnchorIsFirstLowest | src/main/java/DistToPath_.java:697-712 | the anchor is the first vertex with the strictly smallest y below the height, and later vertices with the same y do not replace it; with no such vertex it is (width, height) |
| Drawing.FindXY | src/main/java/DistToPath_.java:697-712 | the loop returns the anchor; the tie-break at line 706 never fires |
| Drawing.Clamp | src/main/java/DistToPath_.java:733-734 | a negative label coordinate becomes 3; any other coordinate is kept |
| Drawing.LabelAt | src/main/java/DistToPath_.java:715-737 | the label carries the profile ID in the text colour and has font size height / 42; its coordinates are never negative; when not clamped its box ends at the anchor, and a coordinate the box would push below 0 becomes 3 |
| Drawing.CrossMarks | src/main/java/DistToPath_.java:684-689 | each sampled point gives two strokes, ±3 pixels on x and on y, in vertex order |
| Drawing.Lines | src/main/java/DistToPath_.java:681-689 | every stroke is drawn in the ROI's stroke colour |
| Drawing.ComponentOps | src/main/java/DistToPath_.java:676-694 | every ROI other than "points" is outlined, every stroke of every "points" cross is drawn, and only overlay ROIs are outlined |
| Drawing.ComponentOpsOnly | src/main/java/DistToPath_.java:676-694 | the cross strokes drawn are those of "points" ROIs, each in that ROI's colour, and no label is drawn with the components |
| Drawing.ComponentOpsAppend | src/main/java/DistToPath_.java:680-693 | the components are drawn one overlay ROI at a time, in overlay order |
| Drawing.SaveDrawing | src/main/java/DistToPath_.java:662-663 | a save first draws the ID label at the path's anchor, then the components |
| Drawing.RandomPoints | src/main/java/DistToPath_.java:339-345 | there are exactly `randompn` points, each in [1, width-1] × [1, height-1] |
| Drawing.PlaceRandom | src/main/java/DistToPath_.java:339-345 | the loop yields the random points, with x from draw 2i and y from draw 2i+1 |
| DtpDocument.OutputUnit | src/main/java/DistToPath_.java:615-621 | "micron" is written as "nm"; every other unit is written unchanged |
| DtpDocument.HoleGeometries | src/main/java/DistToPath_.java:633-641 | one hole per ROI named "hole" |
| DtpDocument.HoleGeometriesAppend | src/main/java/DistToPath_.java:633-641 | the holes keep overlay order |
| DtpDocument.Describe | src/main/java/DistToPath_.java:603-657 | what a document records: the image title, ID, comment, pixel-width text and output unit; the path of the "path" ROI; the polarity marker's first vertex, and the points and random-point geometries of their ROIs, each exactly when that ROI exists; one hole per "hole" ROI |
| DtpDocument.VertexLines | src/main/java/DistToPath_.java:629-631 | one line per vertex, the i-th being two spaces and the i-th vertex's "x, y" |
| DtpDocument.CommentLines | src/main/java/DistToPath_.java:612-614 | a COMMENT line exactly when the comment is non-empty |
| DtpDocument.PoslocLines | src/main/java/DistToPath_.java:623-626 | a POSLOC line with the marker's point exactly when a polarity exists |
| DtpDocument.OptionalBlock | src/main/java/DistToPath_.java:642-657 | a block exactly when the component exists: its tag, one line per vertex, then END |
| DtpDocument.Tail | src/main/java/DistToPath_.java:642-657 | after the holes come POINTS and then RANDOM_POINTS, each only when present, and nothing when both are absent |
| DtpDocument.HoleBlocksCount | src/main/java/DistToPath_.java:633-641 | the hole loop writes exactly one HOLE line and one END line per hole |
| DtpDocument.HeadLayout | src/main/java/DistToPath_.java:603-611 | a document opens with the version line "# DistToPath version 1.0.0 (November 11, 2014)" formatted from `VersionDTP` (lines 27-36), then IMAGE with the title and PROFILE_ID with the ID |
| DtpDocument.SectionsLayout | src/main/java/DistToPath_.java:612-632 | then the optional COMMENT, the PIXELWIDTH line, the optional POSLOC and the PATH block, each at its position |
| DtpDocument.RenderLayout | src/main/java/DistToPath_.java:603-657 | the rendered profile is the head lines, then the sections, with the HOLE blocks and the tail after the PATH block |
| DtpDocument.HoleBlocksAppend | src/main/java/DistToPath_.java:633-641 | the HOLE blocks of two hole lists are the blocks of each, in order |
| DtpDocument.HoleBlocksStep | src/main/java/DistToPath_.java:633-641 | one step of the hole loop adds a HOLE block exactly when the ROI at the loop index is a hole |
| DtpDocument.ReadVertexLines | src/main/java/DistToPath_.java:629-632 | the vertex lines of a block, up to END, read back as the vertices |
| DtpDocument.ReadBlockOf | src/main/java/DistToPath_.java:627-632 | a tagged block reads back as its vertices |
| DtpDocument.ReadHoleBlocks | src/main/java/DistToPath_.java:633-641 | the HOLE blocks read back as the holes, in order |
| DtpDocument.ReadOptionalBlockOf | src/main/java/DistToPath_.java:642-657 | an optional POINTS or RANDOM_POINTS block reads back as present exactly when it was written |
| DtpDocument.ReadPixelWidthOf | src/main/java/DistToPath_.java:622 | the PIXELWIDTH line reads back as its value and unit |
| DtpDocument.ReadCommentOf | src/main/java/DistToPath_.java:612-614 | a COMMENT line is present exactly when the comment is non-empty, and reads back as the comment |
| DtpDocument.ReadPoslocOf | src/main/java/DistToPath_.java:623-626 | a POSLOC line is present exactly when a polarity is defined, and reads back as its point |
| DtpDocument.RoundTrip | src/main/java/DistToPath_.java:603-657 | the layout determines the profile: any profile whose pixel width has no space reads back unchanged from the lines written for it |
| DtpDocument.DocumentParts | src/main/java/DistToPath_.java:609-641 | the document is the head lines, then the HOLE blocks, then the optional POINTS and RANDOM_POINTS blocks |
| DtpDocument.DocumentReadsBack | src/main/java/DistToPath_.java:603-657 | the document written for an overlay with a path reads back as the profile described from that overlay |
| Profile.Validate | src/main/java/DistToPath_.java:530-563 | the check rejects exactly when the unit is " " or "inch" or the path has no points, whatever the confirmations; the first hard error is the message shown; a declined warning is one of the pending warnings |
| Profile.ConfirmFromAccepts | src/main/java/DistToPath_.java:553-562 | the warning dialogs let the save go ahead exactly when every one of them is answered yes |
| Profile.ConfirmFromDeclines | src/main/java/DistToPath_.java:553-562 | the warning dialogs never give a hard error; a decline names one of the remaining warnings |
| Profile.ValidateAccepts | src/main/java/DistToPath_.java:530-563 | the check accepts exactly when there is no hard error and every pending warning is confirmed |
| Profile.WarningOrder | src/main/java/DistToPath_.java:543-548 | the "no points" warning is asked before the "no polarity" one |
| Profile.BindingAgrees | src/main/java/DistToPath_.java:510-520 | `isSameImage` accepts exactly when the session ends up bound to the current image; a rejection keeps the old binding; a second check changes nothing |
| Profile.NextIdCases | src/main/java/DistToPath_.java:587-590 | the ID prompt's default is the profile number; a dismissed or empty reply keeps the old ID, which is never blanked |
| Profile.SaveStepEffect | src/main/java/DistToPath_.java:581-664 | after a checked save the title is recorded, ntot is incremented as a Java `int` (wrapping from 2147483647 to -2147483648) exactly when a file is written, n is the overlay size after a write and the restarted count plus one per chosen file otherwise, and the components, comment and binding are kept |
| Profile.SaveAtMaxWraps | src/main/java/DistToPath_.java:664 | a save that writes with ntot at 2147483647 leaves ntot at -2147483648, so the next ID prompt's default is negative |
| Decimal.Inc32 | src/main/java/DistToPath_.java:664 | `ntot++` stays in the 32-bit range, adds one below the top, and always agrees with adding one modulo 2^32 |
| Profile.SaveStepDeterministic | src/main/java/DistToPath_.java:581-664 | the replies determine the session after a save and what it writes |
| Profile.Emit | src/main/java/DistToPath_.java:603-663 | the written lines and the drawing are the document and the drawing of the session's overlay |
| Profile.ProfileData.constructor | src/main/java/DistToPath_.java:452-462 | a new session is clean and empty, with ntot 1, randompn 200 and no bound image |
| Profile.ProfileData.GetNum | src/main/java/DistToPath_.java:466-475 | the loop counts the ROIs with the name |
| Profile.ProfileData.GetNumPoints | src/main/java/DistToPath_.java:477-483 | the vertex count of the first ROI with the name, 0 exactly when there is none |
| Profile.ProfileData.IsDefined | src/main/java/DistToPath_.java:522-528 | true exactly when some ROI has the name |
| Profile.ProfileData.IsSameImage | src/main/java/DistToPath_.java:510-520 | true and rebinding to the current image when the session is clean or unbound; otherwise true exactly when the bound ID equals the current image's ID; nothing else changes |
| Profile.ProfileData.DeleteSelectedComponent | src/main/java/DistToPath_.java:485-496 | the selection is removed, and deselected, exactly when it is in the overlay and the user confirms; nothing else changes |
| Profile.ProfileData.DeleteNamedComponent | src/main/java/DistToPath_.java:498-508 | found exactly when the name is present; the first ROI with it is removed only on confirmation; nothing else changes |
| Profile.ProfileData.CheckProfileData | src/main/java/DistToPath_.java:530-563 | the loop over the warnings computes the verdict of `Validate` on the session's overlay |
| Profile.ProfileData.Save | src/main/java/DistToPath_.java:566-673 | a failed check changes nothing and writes nothing; otherwise the counter and ID bookkeeping, the write and the drawing are as `SaveStep` states |
| Profile.ProfileData.SaveChecked | src/main/java/DistToPath_.java:581-664 | counters: n restarts at 0 for a new image title and is raised by one; a cancelled file dialog takes it back down; an unwritable file keeps it; a successful write leaves n at the overlay size (the hole loop's counter) and increments ntot as a Java `int`; an empty ID reply keeps the old ID |
| Profile.ProfileData.BeginProfile | src/main/java/DistToPath_.java:582-590 | the per-image profile number and the ID prompt |
| Profile.ProfileData.WriteProfile | src/main/java/DistToPath_.java:603-664 | the document and the drawing are those of the session's overlay, ID and comment; ntot is incremented as a Java `int` and only n and ntot change |
| Profile.ProfileData.HoleLines | src/main/java/DistToPath_.java:633-641 | the hole loop over field n emits one HOLE block per hole in overlay order and leaves n at the overlay size |
| Profile.ProfileData.Clear | src/main/java/DistToPath_.java:742-747 | the session becomes clean, with an empty overlay, comment and ID; ntot, n, imgID, prevImg and randompn are kept |
| Commands.Acquire | src/main/java/DistToPath_.java:167-195 | a selection is taken exactly when it exists and has the required ROI type, and then its vertices are the geometry |
| Commands.DefineTable | src/main/java/DistToPath_.java:283-333 | Path asks for a segmented line drawn blue, Points and Positive polarity for points drawn green and magenta, Hole for a polygon drawn red |
| Commands.DefineGuards | src/main/java/DistToPath_.java:283-333 | a define adds its component exactly when the image check passes, the name is free or "hole", the selection has the table's type and a polarity selection is one point |
| Commands.AfterDefine | src/main/java/DistToPath_.java:283-333 | a define command always applies the image binding, and appends the selection under the component's name and colour, marking the session dirty, exactly when the guards pass |
| Commands.DefineKeepsWellFormed | src/main/java/DistToPath_.java:283-333 | a define command keeps the overlay invariant |
| Commands.PolarityNeedsOnePoint | src/main/java/DistToPath_.java:312-316 | a polarity selection of more than one point leaves the overlay and dirty unchanged |
| Commands.DefinedOnce | src/main/java/DistToPath_.java:283-322 | a path, points or polarity that is already defined is not added again |
| Commands.DefineAsWritten | src/main/java/DistToPath_.java:283-333 | as written: the selection object is renamed and recoloured, so every overlay entry that is that object changes too, and it is added once more |
| Commands.AsWrittenAgreesWhenFresh | src/main/java/DistToPath_.java:283-333 | when the selection is not already in the overlay, the code as written and the corrected define agree |
| Commands.PointsThenPolarityAliases | src/main/java/DistToPath_.java:300-319 | as written, Points then Positive polarity on one point leaves two polarity entries and no points |
| Commands.PointsThenPolarityKept | src/main/java/DistToPath_.java:300-319 | corrected, the same commands keep a points entry and a polarity entry, and the overlay stays well formed |
| Commands.SaveProfile | src/main/java/DistToPath_.java:252-264 | a clean session has nothing to save; a dirty one is saved, and cleared exactly when the save succeeds |
| Commands.ClearProfile | src/main/java/DistToPath_.java:265-282 | a clean session, or No, clears; Cancel changes nothing; Yes saves, clears only when saved and otherwise stays dirty |
| Commands.SaveOnYes | src/main/java/DistToPath_.java:272-273 | after Yes the session is dirty exactly when the save did not happen |
| Commands.Define | src/main/java/DistToPath_.java:283-333 | "Path", "Points", "Positive polarity" and "Hole" give the session `AfterDefine` and keep the overlay invariant |
| Commands.PlaceRandomPoints | src/main/java/DistToPath_.java:334-351 | after the image check, and only while no random points exist, `randompn` random points are appended under "randon points"; dirty is left alone |
| Commands.DeleteNamed | src/main/java/DistToPath_.java:352-375 | after the image check, a named component is removed on confirmation |
| Commands.DeleteRandomPointsNeverMatches | src/main/java/DistToPath_.java:370-375 | "Delete random points" looks up a name that no reachable overlay holds |
| Commands.DeleteSelected | src/main/java/DistToPath_.java:376-380 | with a selection that is an overlay member and a confirmation, that ROI is removed; no image check |
| Commands.SetProfileN | src/main/java/DistToPath_.java:381-384 | ntot becomes the parsed reply; text that does not parse keeps ntot |
| Commands.SetProfileNDefault | src/main/java/DistToPath_.java:381-384 | accepting the prompt's default keeps a 32-bit ntot |
| Commands.AddComment | src/main/java/DistToPath_.java:385-391 | a non-empty reply becomes the comment and marks the session dirty; an empty one changes nothing |
| Commands.RandomCount | src/main/java/DistToPath_.java:400-404 | the stored random count is positive, and reverts to 40 for an entry that is not |
| Commands.Options | src/main/java/DistToPath_.java:392-405 | a cancelled dialog changes nothing; otherwise randompn becomes the entered count, reverting to 40 for values that are not positive |
| Plugin.PerformSave | src/main/java/DistToPath_.java:252-282 | a document written by either save command reads back as the profile of the session before the save |
| Plugin.Perform | src/main/java/DistToPath_.java:236-405 | one command keeps the session invariant; only the save commands write, and what they write reads back |
| Plugin.Run | src/main/java/DistToPath_.java:236-405 | over any sequence of commands with the corrected define, no name except "hole" occurs twice and polarity stays one point; every document written reads back as the description of the well-formed overlay, comment and ID it was saved from |

## Left out

- The GUI, the info panel and window events: only AWT layout and listeners.
- The conversion of the image to RGB and `setOverlay`: display only.
- Pixel drawing is left out: `drawLine`, `drawPixels` and the text label are modelled as a list of drawing operations. The label's box is an input, because font metrics belong to the host library.
- File and TIFF I/O are left out: the file dialogs and the writer are booleans that say whether a file was chosen and could be opened. The "Save analyzed image" dialog after a save has no effect on the session and is not modelled. The document is a sequence of lines, so a comment or ID that contains a line break is one element here but several physical lines in the file.
- The default file name offered by the save dialog (title, "." and n) is not modelled; n itself is.
- The pixel-aspect warning: a message with no effect on the session.
- Floating-point pixel width and `IJ.d2s` with two decimals are left out: the PIXELWIDTH value is an opaque text, already scaled to nanometres for microns.
- `java.util.Random` is left out: its draws are a supplied function, and `nextInt(bound)` is that value modulo the bound. An image narrower or lower than 2 pixels makes `nextInt` throw, and the model then adds nothing.
- Options: `(int)` applied to the dialog's double is not modelled; the entry is an integer, or none for a cancelled dialog.
- `Integer.parseInt` failures are modelled as None: ntot is kept and the command has no other effect.
- The About dialog, and the debug `main`: no effect on the session.
- `isImage` is left out: line 248 dereferences the current image before any command runs, so every command sees an image.
- Overlay membership and `remove(roi)` (lines 486 and 492) use the host library's ROI equality, which is not part of this model. The model uses equality of name, vertices and colour. Where the host's equality is coarser (for example, on type and bounds), the source finds and deletes a freshly drawn selection that matches a component in that way, while the model reports that the selection is not a component.
- Profile.ProfileData.HoleLines: the HOLE blocks are computed before the head lines, not while they are written. The order of the output lines is the same.
- Annotations.IndexOf: `Overlay.getIndex` is taken as a first-match lookup. `Annotations.IndexOfIsOnlyMatch` shows the scan direction cannot matter for the names the session looks up.
- Decimal.ParseInt: reads only ASCII digits. `Integer.parseInt` also accepts the other Unicode decimal digits (through `Character.digit`), which the model rejects.
- Commands.SetProfileN: inherits the ASCII-only reading of `Decimal.ParseInt`, so a reply in other Unicode digits keeps ntot here but sets it in the source.
- Commands.Define: models the corrected define, which adds a copy of the selection. As written the selection object itself is renamed and added, so a selection that is already an overlay entry is renamed in place (see "## Findings" and `Commands.DefineAsWritten`).
- Commands.AfterDefine: the corrected define; the aliasing of an already-added selection is modelled only by `Commands.DefineAsWritten`.
- Commands.DefineKeepsWellFormed: holds for the corrected define. As written, Points and Positive polarity on the same point selection break the invariant (`Commands.PointsThenPolarityAliases`).
- Plugin.Perform: dispatches to the corrected define, so its invariant does not cover the aliasing of "## Findings".
- Plugin.Run: the same; over the code as written, a run can end with two "positive polarity" entries and no "points".
- Adding the same hole polygon twice puts one object in the overlay twice as written; the model holds two equal values, which is indistinguishable in every lookup the session makes.
- n and the image ID are unbounded integers: n would need 2^31 saves of one image title to wrap, and image IDs come from the host. ntot is a 32-bit `int`: "Set profile n" accepts 2147483647, and the next save wraps it to -2147483648 (`Profile.SaveAtMaxWraps`).

Quirks of the code that the model keeps as written:

- `findxy`'s tie-break on x can never fire, so the first lowest vertex is kept, not the leftmost.
- "Place random points" does not mark the session dirty.
- The deletes (lines 485-508) never mark the session dirty either, not even when the last component is removed.
- "Delete random points" looks up "random points", while the ROI is stored as "randon points", so it never finds it.

## Findings

| source | as written | input that shows it | evidently intended | confidence | as-written member | corrected member |
|---|---|---|---|---|---|---|
| src/main/java/DistToPath_.java:300-319 | the define commands rename and add the selection object itself, and never deselect it | a one-point selection; "Points", then "Positive polarity" with the selection unchanged | each define adds its own component, keeping "points" and adding "positive polarity" | medium; not executed; it rests on `getRoi` returning the object just added to the overlay | Commands.DefineAsWritten, Commands.PointsThenPolarityAliases | Commands.AfterDefine, Commands.PointsThenPolarityKept |
