/**
 * The image provider as an object: its state fields and the handlers that update them.
 * Each handler reads the fields as they were on entry and writes the new ones; its contract
 * ties the new document to the matching function of the old one in module Layout, where the
 * properties of the handlers are proved. The click position, the image box, the dragged attributes
 * and the selected panel arrive as parameters; Math.sqrt and Math.atan2 as `sqrt` and `atan2`.
 */
module Provider {
  import opened Wrappers
  import opened Geometry
  import opened PanelPlanner
  import opened Layout

  /** `polygons.some(polygon => isPointInsidePolygon(pt, polygon))`. */
  method SomePolygonContains(polygons: seq<seq<real>>, pt: Point) returns (found: bool)
    ensures found <==> exists k :: 0 <= k < |polygons| && Inside(pt, polygons[k])
  {
    var k := 0;
    while k < |polygons|
      invariant 0 <= k <= |polygons|
      invariant forall t :: 0 <= t < k ==> !Inside(pt, polygons[t])
    {
      var inside := IsPointInsidePolygon(pt, polygons[k]);
      if inside {
        return true;
      }
      k := k + 1;
    }
    return false;
  }

  /** `rectangles.some(rect => isPointInsideRectangle(pt, rect))`. */
  method SomeRectangleContains(rectangles: seq<Rect>, pt: Point) returns (found: bool)
    ensures found <==> exists k :: 0 <= k < |rectangles| && IsPointInsideRectangle(pt, rectangles[k])
  {
    var k := 0;
    while k < |rectangles|
      invariant 0 <= k <= |rectangles|
      invariant forall t :: 0 <= t < k ==> !IsPointInsideRectangle(pt, rectangles[t])
    {
      if IsPointInsideRectangle(pt, rectangles[k]) {
        return true;
      }
      k := k + 1;
    }
    return false;
  }

  class ImageProvider {
    var points: seq<real>
    var polygons: seq<seq<real>>
    var sideLengths: seq<seq<Option<real>>>
    var rectangles: seq<Rect>
    var rotationAngles: seq<real>
    var selectedRectIndex: Option<int>
    var rectanglePlacementMode: bool
    var newRectanglePosition: Option<Point>
    var history: seq<Snapshot>
    var historyIndex: int
    var totalPanelsAdded: int
    var panelLength: real
    var panelWidth: real

    /** The document the fields hold. */
    function Model(): Doc
      reads this
    {
      Doc(points, polygons, sideLengths, rectangles, rotationAngles, selectedRectIndex,
          rectanglePlacementMode, newRectanglePosition, history, historyIndex,
          totalPanelsAdded, panelLength, panelWidth)
    }

    constructor ()
      ensures Model() == Initial()
      ensures Layout.Valid(Model())
    {
      points, polygons, sideLengths, rectangles, rotationAngles := [], [], [], [], [];
      selectedRectIndex, rectanglePlacementMode, newRectanglePosition := None, false, None;
      history, historyIndex := [], -1;
      totalPanelsAdded, panelLength, panelWidth := 0, 0.0, 0.0;
    }

    /** Truncates the redo tail and appends a snapshot of the current fields. */
    method Record(total: Option<int>)
      requires -1 <= historyIndex < |history|
      modifies this
      ensures Model() == Push(old(Model()), Snap(old(Model()), total))
    {
      var entry := Snapshot(polygons, rectangles, points, sideLengths, rotationAngles, total);
      history := history[..historyIndex + 1] + [entry];
      historyIndex := |history| - 1;
    }

    method HandleStageClick(click: Point, box: Box)
      requires Layout.Valid(Model())
      modifies this
      ensures Model() == StageClick(old(Model()), click, box)
    {
      if InBox(click, box) {
        if rectanglePlacementMode {
          newRectanglePosition := Some(click);
        } else {
          var inPolygon := SomePolygonContains(polygons, click);
          var inRectangle := SomeRectangleContains(rectangles, click);
          if !(inPolygon || inRectangle) {
            points := points + [click.x, click.y];
            Record(None);
          }
        }
      } else {
        selectedRectIndex := None;
      }
    }

    method HandleUndo()
      requires Layout.Valid(Model())
      modifies this
      ensures Model() == Undo(old(Model()))
    {
      if historyIndex > 0 {
        var previous := history[historyIndex - 1];
        polygons := previous.polygons;
        rectangles := previous.rectangles;
        points := previous.points;
        sideLengths := previous.sideLengths;
        rotationAngles := previous.rotationAngles;
        totalPanelsAdded := previous.totalPanelsAdded.GetOr(0);
        historyIndex := historyIndex - 1;
      } else {
        points := DropLast(points);
      }
    }

    method HandleRedo()
      requires Layout.Valid(Model())
      modifies this
      ensures Model() == Redo(old(Model()))
    {
      if historyIndex < |history| - 1 {
        var next := history[historyIndex + 1];
        polygons := next.polygons;
        rectangles := next.rectangles;
        points := next.points;
        sideLengths := next.sideLengths;
        rotationAngles := next.rotationAngles;
        totalPanelsAdded := next.totalPanelsAdded.GetOr(0);
        historyIndex := historyIndex + 1;
      }
    }

    /** Finishes the open outline as a polygon (or re-tiles the last one) and plans its panels. */
    method AddPanelAndFinishPolygon(selectedPanel: Option<Panel>, sqrt: real -> real,
                                    atan2: (real, real) -> real)
      requires Layout.Valid(Model())
      requires selectedPanel.Some? ==> Usable(selectedPanel.value)
      modifies this
      ensures Model() == Finish(old(Model()), selectedPanel, sqrt, atan2)
    {
      if selectedPanel.None? {
        return;
      }
      var length := ToPixels(selectedPanel.value.length);
      var width := ToPixels(selectedPanel.value.width);
      if |points| >= 3 || |polygons| > 0 {
        ghost var d := Model();
        var opening := |points| >= 3;
        var sides: seq<Option<real>> := [];
        if opening {
          sides := GetSideLengths(points, sqrt);
        }
        var target := if opening then points else polygons[|polygons| - 1];
        assert target == Target(d) && sides == OutlineSides(d, sqrt);
        var newRectangles, numPanelsAdded := PlanPanels(rectangles, target, length, width, atan2);
        var plan := Plan(newRectangles, numPanelsAdded);
        ghost var d1 := Finished(d, length, width, sides, plan);
        Commit(length, width, sides, plan);
        assert Model() == Push(d1, Snap(d1, Some(plan.added)));
        FinishPushes(d, selectedPanel.value, sqrt, atan2);
      } else {
        panelLength, panelWidth := length, width;
      }
    }

    /** The state updates of the guarded path, then the snapshot of the result. */
    method Commit(length: real, width: real, sides: seq<Option<real>>, plan: Plan)
      requires -1 <= historyIndex < |history|
      modifies this
      ensures var done := Finished(old(Model()), length, width, sides, plan);
        Model() == Push(done, Snap(done, Some(plan.added)))
    {
      if |points| >= 3 {
        polygons := polygons + [points];
        points := [];
      }
      sideLengths := sideLengths + [sides];
      rectangles, totalPanelsAdded := plan.rectangles, plan.added;
      panelLength, panelWidth := length, width;
      assert Model() == Finished(old(Model()), length, width, sides, plan);
      Record(Some(plan.added));
    }

    method HandleConfirmRectanglePlacement(selectedPanel: Panel)
      requires Layout.Valid(Model())
      modifies this
      ensures Model() == Confirm(old(Model()), selectedPanel)
    {
      var length := ToPixels(selectedPanel.length);
      var width := ToPixels(selectedPanel.width);
      if newRectanglePosition.Some? {
        var pos := newRectanglePosition.value;
        var newRect := Rect(pos.x - length / 2.0, pos.y - width / 2.0, length, width, 0.0);
        rectangles := rectangles + [newRect];
        rectanglePlacementMode := false;
        newRectanglePosition := None;
        totalPanelsAdded := totalPanelsAdded + 1;
        Record(Some(totalPanelsAdded));
      }
    }

    method HandleAddRectangle()
      modifies this
      ensures Model() == AddRectangle(old(Model()))
    {
      rectanglePlacementMode := true;
    }

    method HandleRectClick(index: int)
      modifies this
      ensures Model() == RectClick(old(Model()), index)
    {
      selectedRectIndex := Some(index);
    }

    method HandleRemoveRectangle()
      requires Layout.Valid(Model())
      modifies this
      ensures Model() == Remove(old(Model()))
    {
      if selectedRectIndex.Some? {
        ghost var d := Model();
        var i := selectedRectIndex.value;
        rectangles := RemoveAt(rectangles, i);
        rotationAngles := RemoveAt(rotationAngles, i);
        selectedRectIndex := None;
        totalPanelsAdded := totalPanelsAdded - 1;
        ghost var d1 := d.(rectangles := RemoveAt(d.rectangles, i),
                           rotationAngles := RemoveAt(d.rotationAngles, i),
                           selectedRectIndex := None, totalPanelsAdded := d.totalPanelsAdded - 1);
        assert Model() == d1;
        Record(Some(totalPanelsAdded));
        RemovePushes(d);
      }
    }

    method HandleRectDragEnd(index: int, x: real, y: real)
      requires Layout.Valid(Model()) && 0 <= index < |rectangles|
      modifies this
      ensures Model() == DragEnd(old(Model()), index, x, y)
    {
      rectangles := rectangles[index := rectangles[index].(x := x, y := y)];
      Record(None);
    }

    method HandleTransform(index: int, x: real, y: real, rotation: Option<real>)
      requires Layout.Valid(Model()) && 0 <= index < |rectangles|
      modifies this
      ensures Model() == Transform(old(Model()), index, x, y, rotation)
    {
      rectangles := rectangles[index := rectangles[index].(x := x, y := y, rotation := rotation.GetOr(0.0))];
      Record(Some(totalPanelsAdded));
    }

    method HandleRefresh()
      modifies this
      ensures Model() == Refresh(old(Model()))
    {
      points, polygons, sideLengths, rectangles := [], [], [], [];
      selectedRectIndex := None;
      rotationAngles := [];
      history, historyIndex := [], -1;
      newRectanglePosition := None;
      totalPanelsAdded := 0;
      panelLength, panelWidth := 0.0, 0.0;
    }
  }
}
