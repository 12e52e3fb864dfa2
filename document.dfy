/**
 * The layout document the image provider holds, as a value, and what each handler does to
 * it. A handler that changes the drawing truncates the redo tail of the history and appends
 * one snapshot; undo and redo move the history index and restore a snapshot.
 */
module Layout {
  import opened Wrappers
  import opened Geometry
  import opened PanelPlanner

  /**
   * One history entry. Snapshots taken by a stage click or a drag carry no panel total;
   * restoring one of those sets the total to 0.
   */
  datatype Snapshot = Snapshot(
    polygons: seq<seq<real>>,
    rectangles: seq<Rect>,
    points: seq<real>,
    sideLengths: seq<seq<Option<real>>>,
    rotationAngles: seq<real>,
    totalPanelsAdded: Option<int>)

  /** The provider's state: the open outline, the finished polygons, the panels and the history. */
  datatype Doc = Doc(
    points: seq<real>,
    polygons: seq<seq<real>>,
    sideLengths: seq<seq<Option<real>>>,
    rectangles: seq<Rect>,
    rotationAngles: seq<real>,
    selectedRectIndex: Option<int>,
    rectanglePlacementMode: bool,
    newRectanglePosition: Option<Point>,
    history: seq<Snapshot>,
    historyIndex: int,
    totalPanelsAdded: int,
    panelLength: real,
    panelWidth: real)

  function Initial(): Doc
  {
    Doc([], [], [], [], [], None, false, None, [], -1, 0, 0.0, 0.0)
  }

  /** What every handler keeps: the index points into the history, and is -1 only when it is empty. */
  predicate Valid(d: Doc)
  {
    && -1 <= d.historyIndex < |d.history|
    && (d.historyIndex == -1 ==> d.history == [])
  }

  lemma InitialIsValid()
    ensures Valid(Initial())
  {
  }

  function Snap(d: Doc, total: Option<int>): Snapshot
  {
    Snapshot(d.polygons, d.rectangles, d.points, d.sideLengths, d.rotationAngles, total)
  }

  /** `history.slice(0, historyIndex + 1)` followed by the new snapshot; the index moves onto it. */
  function Push(d: Doc, s: Snapshot): (r: Doc)
    requires -1 <= d.historyIndex < |d.history|
    ensures Valid(r) && r.historyIndex == d.historyIndex + 1 == |r.history| - 1
    ensures r.history[..d.historyIndex + 1] == d.history[..d.historyIndex + 1]
    ensures r.history[r.historyIndex] == s
    ensures r.(history := d.history, historyIndex := d.historyIndex) == d
  {
    var h := d.history[..d.historyIndex + 1] + [s];
    d.(history := h, historyIndex := |h| - 1)
  }

  /** The history discipline: r's history is d's up to d's index, then r's own snapshot. */
  predicate Pushed(d: Doc, r: Doc, total: Option<int>)
    requires -1 <= d.historyIndex < |d.history|
  {
    && r.history == d.history[..d.historyIndex + 1] + [Snap(r, total)]
    && r.historyIndex == |r.history| - 1
    && r.historyIndex == d.historyIndex + 1
  }

  /** Restores the five drawing fields and the total (0 when the snapshot lacks it). */
  function Restore(d: Doc, s: Snapshot): (r: Doc)
    ensures Shows(r, s)
    ensures r.history == d.history && r.historyIndex == d.historyIndex
    ensures r.selectedRectIndex == d.selectedRectIndex
    ensures r.rectanglePlacementMode == d.rectanglePlacementMode
    ensures r.newRectanglePosition == d.newRectanglePosition
    ensures r.panelLength == d.panelLength && r.panelWidth == d.panelWidth
  {
    d.(polygons := s.polygons, rectangles := s.rectangles, points := s.points,
       sideLengths := s.sideLengths, rotationAngles := s.rotationAngles,
       totalPanelsAdded := s.totalPanelsAdded.GetOr(0))
  }

  /** The document shows exactly what snapshot s recorded. */
  predicate Shows(d: Doc, s: Snapshot)
  {
    && d.polygons == s.polygons && d.rectangles == s.rectangles && d.points == s.points
    && d.sideLengths == s.sideLengths && d.rotationAngles == s.rotationAngles
    && d.totalPanelsAdded == s.totalPanelsAdded.GetOr(0)
  }

  // ---------------------------------------------------------------------------
  // Stage click

  /** The closed bounding-box test on the click position. */
  predicate InBox(pt: Point, box: Box)
  {
    pt.x >= box.x && pt.x <= box.x + box.width && pt.y >= box.y && pt.y <= box.y + box.height
  }

  /** The click lands in a finished polygon (ray casting) or in a panel (closed box test). */
  predicate Occupied(d: Doc, pt: Point)
  {
    || (exists k :: 0 <= k < |d.polygons| && Inside(pt, d.polygons[k]))
    || (exists k :: 0 <= k < |d.rectangles| && IsPointInsideRectangle(pt, d.rectangles[k]))
  }

  function StageClick(d: Doc, pt: Point, box: Box): (r: Doc)
    requires Valid(d)
    ensures Valid(r)
    ensures !InBox(pt, box) ==> r == d.(selectedRectIndex := None)
    ensures InBox(pt, box) && d.rectanglePlacementMode ==> r == d.(newRectanglePosition := Some(pt))
    ensures InBox(pt, box) && !d.rectanglePlacementMode && Occupied(d, pt) ==> r == d
    ensures InBox(pt, box) && !d.rectanglePlacementMode && !Occupied(d, pt) ==>
      && r.points == d.points + [pt.x, pt.y]
      && Pushed(d, r, None)
      && r == d.(points := r.points, history := r.history, historyIndex := r.historyIndex)
  {
    if !InBox(pt, box) then d.(selectedRectIndex := None)
    else if d.rectanglePlacementMode then d.(newRectanglePosition := Some(pt))
    else if Occupied(d, pt) then d
    else
      var d1 := d.(points := d.points + [pt.x, pt.y]);
      var r := Push(d1, Snap(d1, None));
      r
  }

  // ---------------------------------------------------------------------------
  // Undo and redo

  /** `points.slice(0, -1)`: drops the last number, not the last vertex. */
  function DropLast(p: seq<real>): (r: seq<real>)
    ensures p == [] ==> r == []
    ensures p != [] ==> r + [p[|p| - 1]] == p
  {
    if p == [] then [] else p[..|p| - 1]
  }

  function Undo(d: Doc): (r: Doc)
    requires Valid(d)
    ensures Valid(r)
    ensures d.historyIndex > 0 ==>
      Shows(r, d.history[d.historyIndex - 1]) && r.historyIndex == d.historyIndex - 1
      && r.history == d.history
      && r.selectedRectIndex == d.selectedRectIndex
      && r.rectanglePlacementMode == d.rectanglePlacementMode
      && r.newRectanglePosition == d.newRectanglePosition
      && r.panelLength == d.panelLength && r.panelWidth == d.panelWidth
    ensures d.historyIndex <= 0 ==> r == d.(points := DropLast(d.points))
  {
    if d.historyIndex > 0 then
      Restore(d, d.history[d.historyIndex - 1]).(historyIndex := d.historyIndex - 1)
    else d.(points := DropLast(d.points))
  }

  /**
   * Undo keeps the selection while the restored snapshot may hold fewer panels, so the
   * selected index can point past the end of the panel list.
   */
  lemma UndoKeepsStaleSelection()
    ensures var panel := Rect(0.0, 0.0, 1.0, 1.0, 0.0);
      var d := Initial().(rectangles := [panel], selectedRectIndex := Some(0), totalPanelsAdded := 1,
                          history := [Snap(Initial(), None), Snap(Initial().(rectangles := [panel]), Some(1))],
                          historyIndex := 1);
      && Valid(d) && d.selectedRectIndex.value < |d.rectangles|
      && Undo(d).selectedRectIndex == Some(0) && Undo(d).rectangles == []
  {
  }

  function Redo(d: Doc): (r: Doc)
    requires Valid(d)
    ensures Valid(r)
    ensures d.historyIndex < |d.history| - 1 ==>
      Shows(r, d.history[d.historyIndex + 1]) && r.historyIndex == d.historyIndex + 1
      && r.history == d.history
      && r.selectedRectIndex == d.selectedRectIndex
      && r.rectanglePlacementMode == d.rectanglePlacementMode
      && r.newRectanglePosition == d.newRectanglePosition
      && r.panelLength == d.panelLength && r.panelWidth == d.panelWidth
    ensures d.historyIndex == |d.history| - 1 ==> r == d
  {
    if d.historyIndex < |d.history| - 1 then
      Restore(d, d.history[d.historyIndex + 1]).(historyIndex := d.historyIndex + 1)
    else d
  }

  /** Right after any snapshot push the index is at the tip, so redo changes nothing. */
  lemma RedoAfterPush(d: Doc, r: Doc, total: Option<int>)
    requires Valid(d) && Valid(r) && Pushed(d, r, total)
    ensures 0 <= r.historyIndex == |r.history| - 1
    ensures Redo(r) == r
  {
  }

  /**
   * Undo followed by redo restores the snapshot at the current index; so it returns to the
   * document exactly when the document shows that snapshot.
   */
  lemma UndoThenRedo(d: Doc)
    requires Valid(d) && d.historyIndex > 0
    ensures Redo(Undo(d)) == Restore(d, d.history[d.historyIndex])
    ensures Redo(Undo(d)) == d <==> Shows(d, d.history[d.historyIndex])
  {
    var u := Undo(d);
    assert u.historyIndex == d.historyIndex - 1 < |u.history| - 1;
  }

  /**
   * A push records the document it produces, except for the total of a stage click or a
   * drag, which records none: after such a push undo-then-redo resets a non-zero total to 0.
   */
  lemma PushedShows(d: Doc, r: Doc, total: Option<int>)
    requires Valid(d) && Valid(r) && Pushed(d, r, total)
    ensures Shows(r, r.history[r.historyIndex]) <==> r.totalPanelsAdded == total.GetOr(0)
  {
  }

  /**
   * At index 0 undo is the soft undo: the first snapshot is never restored away, the history
   * stays, and only the last number of the open outline goes.
   */
  lemma FirstUndoIsSoft(d: Doc)
    requires Valid(d) && d.historyIndex == 0
    ensures Undo(d).history == d.history && Undo(d).historyIndex == 0
    ensures |d.points| > 0 ==> |Undo(d).points| == |d.points| - 1
    ensures Undo(d).polygons == d.polygons && Undo(d).rectangles == d.rectangles
  {
  }

  /** k undos in a row. */
  function UndoTimes(d: Doc, k: nat): (r: Doc)
    requires Valid(d)
    ensures Valid(r) && r.history == d.history
    decreases k
  {
    if k == 0 then d else UndoTimes(Undo(d), k - 1)
  }

  /** k redos in a row. */
  function RedoTimes(d: Doc, k: nat): (r: Doc)
    requires Valid(d)
    ensures Valid(r) && r.history == d.history
    decreases k
  {
    if k == 0 then d else RedoTimes(Redo(d), k - 1)
  }

  /** k undos step k snapshots back (while the index stays at 0 or above). */
  lemma {:induction false} UndoTimesIndex(d: Doc, k: nat)
    requires Valid(d) && k <= d.historyIndex
    ensures UndoTimes(d, k).historyIndex == d.historyIndex - k
    ensures k > 0 ==> Shows(UndoTimes(d, k), d.history[d.historyIndex - k])
    decreases k
  {
    if k > 0 {
      UndoTimesIndex(Undo(d), k - 1);
    }
  }

  /** Then k redos come back to the index, showing the snapshot there. */
  lemma {:induction false} RedoTimesIndex(d: Doc, k: nat)
    requires Valid(d) && d.historyIndex + k <= |d.history| - 1
    ensures RedoTimes(d, k).historyIndex == d.historyIndex + k
    ensures k > 0 ==> Shows(RedoTimes(d, k), d.history[d.historyIndex + k])
    decreases k
  {
    if k > 0 {
      RedoTimesIndex(Redo(d), k - 1);
    }
  }

  /** k undos then k redos restore every drawing field from the snapshot at the index. */
  lemma UndoRedoRoundTrip(d: Doc, k: nat)
    requires Valid(d) && 0 < k <= d.historyIndex
    ensures RedoTimes(UndoTimes(d, k), k).historyIndex == d.historyIndex
    ensures Shows(RedoTimes(UndoTimes(d, k), k), d.history[d.historyIndex])
  {
    UndoTimesIndex(d, k);
    RedoTimesIndex(UndoTimes(d, k), k);
  }

  // ---------------------------------------------------------------------------
  // Finish a polygon or re-tile the last one (addPanelAndFinishPolygon)

  /** The guard: at least 3 numbers in the outline (not 3 vertices), or some finished polygon. */
  predicate CanFinish(d: Doc)
  {
    |d.points| >= 3 || |d.polygons| > 0
  }

  /** The polygon the planner tiles: the open outline, or else the last finished polygon. */
  function Target(d: Doc): (q: seq<real>)
    requires CanFinish(d)
  {
    if |d.points| >= 3 then d.points else d.polygons[|d.polygons| - 1]
  }

  /** The panel's pixel sizes leave non-zero gapped cells to divide by. */
  predicate Usable(panel: Panel)
  {
    Tileable(ToPixels(panel.length), ToPixels(panel.width))
  }

  /** The side lengths finishing records: the outline's on a new polygon, none on a re-tile. */
  function OutlineSides(d: Doc, sqrt: real -> real): seq<Option<real>>
  {
    if |d.points| >= 3 then SideLengths(d.points, sqrt) else []
  }

  /**
   * The document finishing produces before its snapshot is pushed, from the side lengths
   * recorded and the planner's result.
   */
  function Finished(d: Doc, length: real, width: real, sides: seq<Option<real>>, plan: Plan): Doc
  {
    var opening := |d.points| >= 3;
    d.(panelLength := length, panelWidth := width,
       points := if opening then [] else d.points,
       polygons := if opening then d.polygons + [d.points] else d.polygons,
       sideLengths := d.sideLengths + [sides],
       rectangles := plan.rectangles,
       totalPanelsAdded := plan.added)
  }

  function Finish(d: Doc, panel: Option<Panel>, sqrt: real -> real, atan2: (real, real) -> real)
    : (r: Doc)
    requires Valid(d)
    requires panel.Some? ==> Usable(panel.value)
    ensures Valid(r)
    ensures panel.None? ==> r == d
    ensures panel.Some? ==>
      r.panelLength == ToPixels(panel.value.length) && r.panelWidth == ToPixels(panel.value.width)
    ensures panel.Some? && !CanFinish(d) ==>
      r == d.(panelLength := r.panelLength, panelWidth := r.panelWidth)
  {
    if panel.None? then d
    else
      var length, width := ToPixels(panel.value.length), ToPixels(panel.value.width);
      if !CanFinish(d) then d.(panelLength := length, panelWidth := width)
      else
        var plan := Tiling(d.rectangles, Target(d), length, width, atan2);
        var d1 := Finished(d, length, width, OutlineSides(d, sqrt), plan);
        Push(d1, Snap(d1, Some(plan.added)))
  }

  /** On the guarded path finishing pushes one snapshot of the finished document. */
  lemma FinishPushes(d: Doc, panel: Panel, sqrt: real -> real, atan2: (real, real) -> real)
    requires Valid(d) && Usable(panel) && CanFinish(d)
    ensures var length, width := ToPixels(panel.length), ToPixels(panel.width);
      var plan := Tiling(d.rectangles, Target(d), length, width, atan2);
      var d1 := Finished(d, length, width, OutlineSides(d, sqrt), plan);
      Finish(d, Some(panel), sqrt, atan2) == Push(d1, Snap(d1, Some(plan.added)))
  {
  }

  /**
   * What finishing (or re-tiling) does on the guarded path: the old panels fully inside the
   * target polygon are dropped and the others kept in order; every new panel is inside the
   * target and panel-sized; the total is set to the number of new panels, which is at most
   * the grid's loop bound; one side-length entry is appended ([] on re-tile); one snapshot
   * carrying that total is pushed.
   */
  lemma FinishTiles(d: Doc, panel: Panel, sqrt: real -> real, atan2: (real, real) -> real)
    requires Valid(d) && Usable(panel) && CanFinish(d)
    ensures var r := Finish(d, Some(panel), sqrt, atan2);
      var kept := KeepOutside(d.rectangles, Target(d));
      && 0 <= r.totalPanelsAdded && |r.rectangles| == |kept| + r.totalPanelsAdded
      && r.rectangles[..|kept|] == kept
      && (forall k :: |kept| <= k < |r.rectangles| ==>
            && RectInside(r.rectangles[k], Target(d))
            && r.rectangles[k].width == r.panelLength && r.rectangles[k].height == r.panelWidth)
      && (|Target(d)| % 2 == 0 && |Target(d)| >= 2 ==>
            r.totalPanelsAdded <= Max0(MakeGrid(Target(d), r.panelLength, r.panelWidth).numPanels))
      && r.sideLengths
         == d.sideLengths + [if |d.points| >= 3 then SideLengths(d.points, sqrt) else []]
      && (|d.points| >= 3 ==> r.polygons == d.polygons + [d.points] && r.points == [])
      && (|d.points| < 3 ==> r.polygons == d.polygons && r.points == d.points)
      && r.rotationAngles == d.rotationAngles
      && r.selectedRectIndex == d.selectedRectIndex
      && Pushed(d, r, Some(r.totalPanelsAdded))
  {
  }

  /**
   * Finishing a new polygon and then re-tiling it with the same panel gives back the same
   * panels: the planner's first panels are all inside the polygon, so the filter drops them
   * and the walk places the same ones again; the outline and polygons stay put.
   */
  lemma RetileIsStable(d: Doc, panel: Panel, sqrt: real -> real, atan2: (real, real) -> real)
    requires Valid(d) && Usable(panel) && |d.points| >= 3
    ensures var once := Finish(d, Some(panel), sqrt, atan2);
      var twice := Finish(once, Some(panel), sqrt, atan2);
      && twice.rectangles == once.rectangles
      && twice.totalPanelsAdded == once.totalPanelsAdded
      && twice.polygons == once.polygons && twice.points == once.points
      && twice.sideLengths == once.sideLengths + [[]]
  {
    var once := Finish(d, Some(panel), sqrt, atan2);
    var length, width := ToPixels(panel.length), ToPixels(panel.width);
    assert Target(once) == d.points;
    PanelPlanner.RetileIsStable(d.rectangles, d.points, length, width, atan2);
  }

  // ---------------------------------------------------------------------------
  // Manual placement, selection, removal, drag and transform

  function AddRectangle(d: Doc): (r: Doc)
    ensures r.rectanglePlacementMode
    ensures r.(rectanglePlacementMode := d.rectanglePlacementMode) == d
  {
    d.(rectanglePlacementMode := true)
  }

  /** The selection part of a click on a panel. */
  function RectClick(d: Doc, index: int): (r: Doc)
    ensures r.selectedRectIndex == Some(index)
    ensures r.(selectedRectIndex := d.selectedRectIndex) == d
  {
    d.(selectedRectIndex := Some(index))
  }

  /** Places a panel centred on the pending position, unrotated, and counts it. */
  function Confirm(d: Doc, panel: Panel): (r: Doc)
    requires Valid(d)
    ensures Valid(r)
    ensures d.newRectanglePosition.None? ==> r == d
    ensures d.newRectanglePosition.Some? ==>
      var pos, length, width := d.newRectanglePosition.value, ToPixels(panel.length), ToPixels(panel.width);
      && |r.rectangles| == |d.rectangles| + 1
      && r.rectangles[..|d.rectangles|] == d.rectangles
      && (var added := r.rectangles[|d.rectangles|];
          && added.x + added.width / 2.0 == pos.x && added.y + added.height / 2.0 == pos.y
          && added.width == length && added.height == width && added.rotation == 0.0)
      && r.totalPanelsAdded == d.totalPanelsAdded + 1
      && !r.rectanglePlacementMode && r.newRectanglePosition == None
      && r.points == d.points && r.polygons == d.polygons && r.sideLengths == d.sideLengths
      && r.rotationAngles == d.rotationAngles && r.selectedRectIndex == d.selectedRectIndex
      && r.panelLength == d.panelLength && r.panelWidth == d.panelWidth
      && Pushed(d, r, Some(d.totalPanelsAdded + 1))
  {
    if d.newRectanglePosition.None? then d
    else
      var pos := d.newRectanglePosition.value;
      var length, width := ToPixels(panel.length), ToPixels(panel.width);
      var rect := Rect(pos.x - length / 2.0, pos.y - width / 2.0, length, width, 0.0);
      var d1 := d.(rectangles := d.rectangles + [rect], rectanglePlacementMode := false,
                   newRectanglePosition := None, totalPanelsAdded := d.totalPanelsAdded + 1);
      var r := Push(d1, Snap(d1, Some(d.totalPanelsAdded + 1)));
      r
  }

  /** `filter((_, index) => index !== i)`: every element but the one at i, in order. */
  function RemoveAt<T>(s: seq<T>, i: int): (r: seq<T>)
    ensures 0 <= i < |s| ==> |r| == |s| - 1 && r[..i] == s[..i] && r[i..] == s[i + 1..]
    ensures !(0 <= i < |s|) ==> r == s
    decreases |s|
  {
    if s == [] then []
    else (if i == 0 then [] else [s[0]]) + RemoveAt(s[1..], i - 1)
  }

  /** Deletes the selected panel and its angle, uncounts it (no clamp at 0), clears the selection. */
  function Remove(d: Doc): (r: Doc)
    requires Valid(d)
    ensures Valid(r)
    ensures d.selectedRectIndex.None? ==> r == d
    ensures d.selectedRectIndex.Some? ==>
      var i := d.selectedRectIndex.value;
      && r.rectangles == RemoveAt(d.rectangles, i)
      && r.rotationAngles == RemoveAt(d.rotationAngles, i)
      && r.totalPanelsAdded == d.totalPanelsAdded - 1
      && r.selectedRectIndex == None
      && r.points == d.points && r.polygons == d.polygons && r.sideLengths == d.sideLengths
      && r.rectanglePlacementMode == d.rectanglePlacementMode
      && r.newRectanglePosition == d.newRectanglePosition
      && r.panelLength == d.panelLength && r.panelWidth == d.panelWidth
      && Pushed(d, r, Some(d.totalPanelsAdded - 1))
  {
    if d.selectedRectIndex.None? then d
    else
      var i := d.selectedRectIndex.value;
      var d1 := d.(rectangles := RemoveAt(d.rectangles, i),
                   rotationAngles := RemoveAt(d.rotationAngles, i),
                   selectedRectIndex := None, totalPanelsAdded := d.totalPanelsAdded - 1);
      var r := Push(d1, Snap(d1, Some(d.totalPanelsAdded - 1)));
      r
  }

  /** With a selection, removal pushes one snapshot of the document without the selected panel. */
  lemma RemovePushes(d: Doc)
    requires Valid(d) && d.selectedRectIndex.Some?
    ensures var i := d.selectedRectIndex.value;
      var d1 := d.(rectangles := RemoveAt(d.rectangles, i),
                   rotationAngles := RemoveAt(d.rotationAngles, i),
                   selectedRectIndex := None, totalPanelsAdded := d.totalPanelsAdded - 1);
      Remove(d) == Push(d1, Snap(d1, Some(d.totalPanelsAdded - 1)))
  {
  }

  /** Moves panel i to (x, y); the snapshot carries no total. */
  function DragEnd(d: Doc, index: int, x: real, y: real): (r: Doc)
    requires Valid(d) && 0 <= index < |d.rectangles|
    ensures Valid(r)
    ensures |r.rectangles| == |d.rectangles|
    ensures r.rectangles[index] == d.rectangles[index].(x := x, y := y)
    ensures forall k :: 0 <= k < |d.rectangles| && k != index ==> r.rectangles[k] == d.rectangles[k]
    ensures r == d.(rectangles := r.rectangles, history := r.history, historyIndex := r.historyIndex)
    ensures Pushed(d, r, None)
  {
    var d1 := d.(rectangles := d.rectangles[index := d.rectangles[index].(x := x, y := y)]);
    var r := Push(d1, Snap(d1, None));
    r
  }

  /** Moves and turns panel i; a missing (or zero) rotation becomes 0. */
  function Transform(d: Doc, index: int, x: real, y: real, rotation: Option<real>): (r: Doc)
    requires Valid(d) && 0 <= index < |d.rectangles|
    ensures Valid(r)
    ensures |r.rectangles| == |d.rectangles|
    ensures r.rectangles[index] == d.rectangles[index].(x := x, y := y, rotation := rotation.GetOr(0.0))
    ensures forall k :: 0 <= k < |d.rectangles| && k != index ==> r.rectangles[k] == d.rectangles[k]
    ensures r == d.(rectangles := r.rectangles, history := r.history, historyIndex := r.historyIndex)
    ensures Pushed(d, r, Some(d.totalPanelsAdded))
  {
    var moved := d.rectangles[index].(x := x, y := y, rotation := rotation.GetOr(0.0));
    var d1 := d.(rectangles := d.rectangles[index := moved]);
    var r := Push(d1, Snap(d1, Some(d.totalPanelsAdded)));
    r
  }

  // ---------------------------------------------------------------------------
  // Refresh

  /** Clears everything except the placement mode, which it leaves as it was. */
  function Refresh(d: Doc): (r: Doc)
    ensures Valid(r)
    ensures r.points == [] && r.polygons == [] && r.sideLengths == [] && r.rectangles == []
    ensures r.rotationAngles == [] && r.history == [] && r.historyIndex == -1
    ensures r.totalPanelsAdded == 0 && r.selectedRectIndex == None && r.newRectanglePosition == None
    ensures r == Initial().(rectanglePlacementMode := d.rectanglePlacementMode)
  {
    d.(points := [], polygons := [], sideLengths := [], rectangles := [], selectedRectIndex := None,
       rotationAngles := [], history := [], historyIndex := -1, newRectanglePosition := None,
       totalPanelsAdded := 0, panelLength := 0.0, panelWidth := 0.0)
  }

  /** After a refresh both undo and redo leave the document empty. */
  lemma RefreshThenUndoRedo(d: Doc)
    ensures Undo(Refresh(d)) == Refresh(d)
    ensures Redo(Refresh(d)) == Refresh(d)
  {
  }
}
