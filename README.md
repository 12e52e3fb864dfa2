# Rooftop panel layout: the image provider

This project models the core of a rooftop solar-panel layout tool: the image provider
(`src/app/context/sidebarContext/ImageProvider.tsx`). The user traces a roof outline
over an aerial image as a flat coordinate list `[x0, y0, x1, y1, ...]`. Finishing the
outline turns it into a polygon and tiles it with panel rectangles on a grid centred
on the polygon's vertex mean. Panels can also be placed by hand, selected, moved,
turned and removed. Every change to the drawing pushes one snapshot onto a linear
history that undo and redo walk.

The project has five modules.

- `Wrappers` holds `Option`.
- `Geometry` holds the helpers that work on flat lists:
  - ray-casting point-in-polygon;
  - the unrotated four-corner rectangle test;
  - the closed point-in-rectangle test;
  - the shoelace area;
  - the vertex-mean centroid;
  - side lengths.

  Each helper the source writes as a loop is a method with that loop. Each method is
  proved equal to a recursive specification function, and the lemmas are stated about
  those functions.
- `PanelPlanner` is the planner inside `addPanelAndFinishPolygon`:
  - inches to pixels (× 0.0254 × 10);
  - grid sizing from the area;
  - the filter that drops old panels lying inside the polygon;
  - the cell loop that wraps rows, tests each cell's centre and then the four corners
    of its panel, and pushes the accepted panels.

  `Walk` is the specification of the loop. `FillGrid` is the loop itself.
- `Layout` holds the document as a value (`Doc`, `Snapshot`) and one function per
  handler. The properties of the handlers are proved here: the history discipline,
  undo/redo round trips, what finishing guarantees about the panels, and the "nothing
  else changes" clauses.
- `Provider` holds the class `ImageProvider`, whose fields are the provider's state
  variables. Each handler is a method that changes those fields. Its contract ties the
  new state `Model()` to the `Layout` function applied to the old state.

Behaviour of the code worth noting:

- `numPanels = cols * rows` is not clamped at 0. Two negative counts give a positive
  loop bound.
- Undo at history index 0 is the soft undo. It never restores away the first snapshot,
  so N undos after N pushes do not return to the empty document.
- Refresh leaves the placement mode as it was.
- The finish guard counts numbers, not vertices (`points.length >= 3`).
- The planner sets the panel total rather than adding to it.
- Snapshots from a stage click or a drag carry no total. Restoring one sets the
  total to 0.

JavaScript reads past the end of a flat list yield `undefined` and then NaN. Odd lists
are reachable, because a soft undo drops one number. The model writes these cases out:

- In ray casting, an edge with a missing coordinate never crosses the ray.
- The shoelace sum of an odd list of 7 or more numbers is `None`, standing for NaN.
- The last side length of an odd list is `None`.
- The planner places no cell for an empty or odd list.

## Model

| member | source | states |
|---|---|---|
| Geometry.IsPointInsidePolygon | src/app/context/sidebarContext/ImageProvider.tsx:372-389 | the toggling loop returns true exactly when an odd number of edges cross the ray to the right of the point; an edge counts only when its ends lie on different sides of the point's y, so its division is by a non-zero difference |
| Geometry.OutsideVerticalRange | src/app/context/sidebarContext/ImageProvider.tsx:383-386 | a point at or above every vertex (or below every vertex) of an even polygon is outside it |
| Geometry.NoCrossingsOutsideRange | src/app/context/sidebarContext/ImageProvider.tsx:377-386 | under that hypothesis none of the edges the loop visits crosses the ray |
| Geometry.IsRectangleInsidePolygon | src/app/context/sidebarContext/ImageProvider.tsx:391-417 | true exactly when the corners (x,y), (x+w,y), (x+w,y+h), (x,y+h) all pass the ray-casting test; the rotation plays no part |
| Geometry.CornerListIsRect | src/app/context/sidebarContext/ImageProvider.tsx:395-404 | the four vertices of the corner list are exactly the four corners the rectangle test checks |
| Geometry.IsPointInsideRectangle | src/app/context/sidebarContext/ImageProvider.tsx:430-440 | a point passes the closed box test only when the box has non-negative width and height and the point lies within both closed intervals |
| Geometry.RectangleHoldsItsBorder | src/app/context/sidebarContext/ImageProvider.tsx:430-440 | the test is closed: every border point of a rectangle with non-negative size is inside |
| Geometry.NegativeRectangleIsEmpty | src/app/context/sidebarContext/ImageProvider.tsx:430-440 | a rectangle with negative width or height contains no point |
| Geometry.ShoelaceFormula | src/app/context/sidebarContext/ImageProvider.tsx:419-428 | the loop computes `Area`: 0 below 6 numbers, otherwise half the absolute summed cross terms; never negative on an even list |
| Geometry.SumIsPartialCross | src/app/context/sidebarContext/ImageProvider.tsx:423-426 | on an even list the loop's k-th partial sum is the cyclic cross-product sum over the first k edges, with `(i + 2) % n` wrapping to the first vertex |
| Geometry.AreaCases | src/app/context/sidebarContext/ImageProvider.tsx:419-428 | 0 below 6 numbers; an even list gives half the absolute cyclic cross sum, never negative; an odd list of 7 or more numbers gives NaN |
| Geometry.OddAreaIsNaN | src/app/context/sidebarContext/ImageProvider.tsx:423-426 | the last round over an odd list reads past the end, so the area is NaN |
| Geometry.CyclicCrossReverse | src/app/context/sidebarContext/ImageProvider.tsx:423-426 | reversing the vertex order negates the cyclic cross sum |
| Geometry.ReverseVerticesIsReverse | src/app/context/sidebarContext/ImageProvider.tsx:423-426 | the flat list with its vertex pairs in the opposite order has the reversed vertex sequence |
| Geometry.AreaOfReverse | src/app/context/sidebarContext/ImageProvider.tsx:419-428 | reversing the winding of an even polygon leaves its area unchanged |
| Geometry.SquareArea | src/app/context/sidebarContext/ImageProvider.tsx:419-428 | the 100 × 100 square has area 10000 |
| Geometry.SquareExamples | src/app/context/sidebarContext/ImageProvider.tsx:372-417 | on the 100 × 100 square, (50,50) is inside and (150,50) is not; a 20 × 20 panel at (10,10) is inside and one at (90,90) is not |
| Geometry.SquareRow | src/app/context/sidebarContext/ImageProvider.tsx:372-389 | strictly between the square's top and bottom rows, a point is inside exactly when 0 <= x < 100 (the left edge counts, the right edge does not) |
| Geometry.CalculateCentroid | src/app/context/sidebarContext/ImageProvider.tsx:237-253 | the loop returns the vertex mean: each coordinate times the vertex count is the sum of that coordinate over the vertices |
| Geometry.CentroidWithinBounds | src/app/context/sidebarContext/ImageProvider.tsx:237-253 | the vertex mean lies in every axis-aligned box that holds all the vertices |
| Geometry.GetSideLengths | src/app/context/sidebarContext/ImageProvider.tsx:359-370 | the loop pushes, round by round, the entries of `SideLengths`: entry k is sqrt of the squared distance from index 2k to index (2k + 2) mod n, NaN when a read falls past the list; `Steps(p)` entries in all |
| Geometry.SideLengthsPerVertex | src/app/context/sidebarContext/ImageProvider.tsx:359-370 | an even list gets exactly one entry per vertex; entry k is sqrt of the squared length of the edge from vertex k to the next, and the last entry is the last-to-first edge; on an odd list the last entry is NaN |
| PanelPlanner.ToPixels | src/app/context/sidebarContext/ImageProvider.tsx:262-263 | inches times 0.0254 metres per inch times 10 pixels per metre is inches times 0.254; a non-negative size stays non-negative (the same conversion is at lines 481-482) |
| PanelPlanner.MakeGrid | src/app/context/sidebarContext/ImageProvider.tsx:275-293 | the gapped cell sizes are the panel sizes plus 10; the grid is centred on the vertex mean, `cols` cells wide and half of `rows` cells above it |
| PanelPlanner.Walk | src/app/context/sidebarContext/ImageProvider.tsx:300-331 | n rounds of the loop push at most n panels |
| PanelPlanner.WalkFrom | src/app/context/sidebarContext/ImageProvider.tsx:300-331 | every panel the walk pushes is the cell test's verdict on some cell |
| PanelPlanner.CandidateFits | src/app/context/sidebarContext/ImageProvider.tsx:309-325 | an accepted cell's panel is inside the polygon, panel-sized, has its centre inside and faces the centroid (`atan2`) |
| PanelPlanner.WalkFits | src/app/context/sidebarContext/ImageProvider.tsx:300-331 | every panel the loop places is inside the polygon, panel-sized, has its centre inside and faces the centroid |
| PanelPlanner.TesterPlacesAtCell | src/app/context/sidebarContext/ImageProvider.tsx:317-323 | a placed panel's corner is the cell's position |
| PanelPlanner.WalkStaysInRows | src/app/context/sidebarContext/ImageProvider.tsx:300-307 | with positive cell sizes, any test that places at the cell keeps every panel at or right of the left edge and below the top; a panel is either in the first column or ends within the right edge |
| PanelPlanner.WalkStaysInGrid | src/app/context/sidebarContext/ImageProvider.tsx:300-307 | the same for the planner's own cell test |
| PanelPlanner.KeepOutside | src/app/context/sidebarContext/ImageProvider.tsx:295-297 | the filter keeps at most the old panels it is given (membership is in `KeepOutsideFilters`) |
| PanelPlanner.KeepOutsideFilters | src/app/context/sidebarContext/ImageProvider.tsx:295-297 | the filter keeps exactly the old panels that are not fully inside the polygon |
| PanelPlanner.KeepOutsideAppend | src/app/context/sidebarContext/ImageProvider.tsx:295-297 | filtering a concatenation is concatenating the filtered parts |
| PanelPlanner.KeepOutsideKeepsAll | src/app/context/sidebarContext/ImageProvider.tsx:295-297 | a list with no panel inside the polygon passes unchanged |
| PanelPlanner.KeepOutsideDropsAll | src/app/context/sidebarContext/ImageProvider.tsx:295-297 | a list of panels all inside the polygon is dropped entirely |
| PanelPlanner.KeepOutsideIdempotent | src/app/context/sidebarContext/ImageProvider.tsx:295-297 | filtering twice is filtering once |
| PanelPlanner.Cells | src/app/context/sidebarContext/ImageProvider.tsx:299-331 | every new panel is inside the polygon and panel-sized; at most `max(0, numPanels)` of them on an even list; none on an empty or odd list |
| PanelPlanner.Tiling | src/app/context/sidebarContext/ImageProvider.tsx:271-331 | the new list is the kept old panels, in order, followed by exactly `added` new panels, each inside and panel-sized; `added` is at most `max(0, numPanels)` |
| PanelPlanner.RetileIsStable | src/app/context/sidebarContext/ImageProvider.tsx:271-331 | tiling the planner's own result again with the same polygon and panel gives back the same plan |
| PanelPlanner.PlanPanels | src/app/context/sidebarContext/ImageProvider.tsx:262-331 | the planner method (area, grid sizes, centroid, filter, loop) returns the rectangles and count of `Tiling` |
| PanelPlanner.TestCell | src/app/context/sidebarContext/ImageProvider.tsx:301-325 | one round up to the push: it wraps to a new row past the right edge, then answers the cell test (centre, then the four corners) for the cell reached |
| PanelPlanner.FillGrid | src/app/context/sidebarContext/ImageProvider.tsx:299-331 | the cell loop appends to the filtered list exactly the panels of `Walk` from the grid's top-left cell for `max(0, numPanels)` rounds, and counts them |
| Layout.InitialIsValid | src/app/context/sidebarContext/ImageProvider.tsx:140-141 | the initial document (empty history, index -1) satisfies the history invariant |
| Layout.InBox | src/app/context/sidebarContext/ImageProvider.tsx:159-164 | the closed image-box test on the click position |
| Layout.Occupied | src/app/context/sidebarContext/ImageProvider.tsx:169-173 | the click is in some finished polygon or in some panel |
| Layout.Push | src/app/context/sidebarContext/ImageProvider.tsx:182-195 | the history keeps its entries up to the index, gains exactly the new snapshot after them, and the index moves onto it; every other field is unchanged |
| Layout.StageClick | src/app/context/sidebarContext/ImageProvider.tsx:153-202 | outside the closed image box it only clears the selection; in placement mode it only sets the pending position; on a finished polygon or a panel it changes nothing; otherwise it appends (x, y) and pushes one snapshot without a total |
| Layout.DropLast | src/app/context/sidebarContext/ImageProvider.tsx:217 | `slice(0, -1)` drops the last number and keeps the rest; the empty list stays empty |
| Layout.Restore | src/app/context/sidebarContext/ImageProvider.tsx:207-212 | the document shows the snapshot (total 0 when it has none); the history, the index, the selection, the modes and the panel sizes are unchanged |
| Layout.Undo | src/app/context/sidebarContext/ImageProvider.tsx:204-220 | above index 0 it restores the previous snapshot (total 0 when it has none) and steps back; otherwise it only drops the last number of the outline |
| Layout.UndoKeepsStaleSelection | src/app/context/sidebarContext/ImageProvider.tsx:204-214 | undo restores the panels of the previous snapshot but leaves the selected index as it was, so from a valid document with panel 0 selected it can reach one whose selection points past an empty panel list |
| Layout.Redo | src/app/context/sidebarContext/ImageProvider.tsx:222-235 | below the last index it restores the next snapshot and steps forward; at the tip it changes nothing |
| Layout.RedoAfterPush | src/app/context/sidebarContext/ImageProvider.tsx:335-352 | after any snapshot push the index is the last one and at least 0, so redo changes nothing |
| Layout.UndoThenRedo | src/app/context/sidebarContext/ImageProvider.tsx:204-235 | undo then redo restores the snapshot at the index; it returns to the document exactly when the document shows that snapshot |
| Layout.PushedShows | src/app/context/sidebarContext/ImageProvider.tsx:449-458 | a pushed snapshot records its document, except that a push without a total records total 0 |
| Layout.FirstUndoIsSoft | src/app/context/sidebarContext/ImageProvider.tsx:204-220 | at index 0 undo keeps the history, the index, the polygons and the panels, and removes one number from a non-empty outline |
| Layout.UndoTimesIndex | src/app/context/sidebarContext/ImageProvider.tsx:204-220 | k undos step k snapshots back and show the snapshot there |
| Layout.RedoTimesIndex | src/app/context/sidebarContext/ImageProvider.tsx:222-235 | k redos step k snapshots forward and show the snapshot there |
| Layout.UndoRedoRoundTrip | src/app/context/sidebarContext/ImageProvider.tsx:204-235 | k undos then k redos come back to the index and show the snapshot there |
| Layout.Finish | src/app/context/sidebarContext/ImageProvider.tsx:255-357 | without a panel nothing changes; with one the panel's pixel sizes are recorded; when the guard fails nothing else changes |
| Layout.FinishPushes | src/app/context/sidebarContext/ImageProvider.tsx:335-354 | on the guarded path finishing pushes one snapshot of the finished document, carrying the planner's count |
| Layout.FinishTiles | src/app/context/sidebarContext/ImageProvider.tsx:255-357 | the kept old panels come first, in order; the total is set to the number of new panels, each inside the target and panel-sized, at most `max(0, numPanels)`; one side-length entry is appended (`[]` on re-tile); a new outline becomes a polygon and is cleared; one snapshot is pushed |
| Layout.RetileIsStable | src/app/context/sidebarContext/ImageProvider.tsx:267-331 | finishing a new outline and then re-tiling with the same panel keeps the same panels, total, polygons and outline, and appends an empty side-length entry |
| Layout.AddRectangle | src/app/context/sidebarContext/ImageProvider.tsx:471-473 | turns placement mode on and changes nothing else |
| Layout.RectClick | src/app/context/sidebarContext/ImageProvider.tsx:464-465 | selects the index and changes nothing else |
| Layout.Confirm | src/app/context/sidebarContext/ImageProvider.tsx:475-512 | without a pending position nothing changes; otherwise one unrotated panel-sized rectangle centred on it is appended, the total goes up by 1, placement mode and the position are cleared, and one snapshot is pushed |
| Layout.RemoveAt | src/app/context/sidebarContext/ImageProvider.tsx:516-521 | deletes exactly the element at the index and keeps the others in order; an index out of range deletes nothing |
| Layout.Remove | src/app/context/sidebarContext/ImageProvider.tsx:514-540 | without a selection nothing changes; otherwise the selected panel and its angle go, the total drops by 1 with no clamp, the selection is cleared, and one snapshot is pushed |
| Layout.RemovePushes | src/app/context/sidebarContext/ImageProvider.tsx:522-538 | with a selection, removal pushes one snapshot of the document without the selected panel and its angle, carrying the decremented total |
| Layout.DragEnd | src/app/context/sidebarContext/ImageProvider.tsx:442-462 | only the dragged panel's x and y change; the snapshot carries no total |
| Layout.Transform | src/app/context/sidebarContext/ImageProvider.tsx:542-566 | for an index that is a current panel, only that panel's x, y and rotation change (a missing rotation becomes 0); the snapshot carries the total (an index past the end is left out, see "Left out") |
| Layout.Refresh | src/app/context/sidebarContext/ImageProvider.tsx:583-596 | back to the initial document, except for the placement mode |
| Layout.RefreshThenUndoRedo | src/app/context/sidebarContext/ImageProvider.tsx:583-596 | after a refresh undo and redo both leave the document as it is |
| Provider.SomePolygonContains | src/app/context/sidebarContext/ImageProvider.tsx:169-172 | true exactly when some finished polygon contains the point |
| Provider.SomeRectangleContains | src/app/context/sidebarContext/ImageProvider.tsx:173 | true exactly when some panel contains the point (closed test) |
| Provider.ImageProvider.constructor | src/app/context/sidebarContext/ImageProvider.tsx:114-144 | the fields start as the initial document, which satisfies the history invariant |
| Provider.ImageProvider.Record | src/app/context/sidebarContext/ImageProvider.tsx:182-195 | truncates the redo tail, appends a snapshot of the current fields and moves the index onto it |
| Provider.ImageProvider.HandleStageClick | src/app/context/sidebarContext/ImageProvider.tsx:153-202 | the new state is `StageClick` of the old one |
| Provider.ImageProvider.HandleUndo | src/app/context/sidebarContext/ImageProvider.tsx:204-220 | the new state is `Undo` of the old one |
| Provider.ImageProvider.HandleRedo | src/app/context/sidebarContext/ImageProvider.tsx:222-235 | the new state is `Redo` of the old one |
| Provider.ImageProvider.AddPanelAndFinishPolygon | src/app/context/sidebarContext/ImageProvider.tsx:255-357 | the new state is `Finish` of the old one |
| Provider.ImageProvider.Commit | src/app/context/sidebarContext/ImageProvider.tsx:335-354 | writes the finished polygons, outline, side lengths, panels and total, and pushes their snapshot |
| Provider.ImageProvider.HandleConfirmRectanglePlacement | src/app/context/sidebarContext/ImageProvider.tsx:475-512 | the new state is `Confirm` of the old one |
| Provider.ImageProvider.HandleAddRectangle | src/app/context/sidebarContext/ImageProvider.tsx:471-473 | the new state is `AddRectangle` of the old one |
| Provider.ImageProvider.HandleRectClick | src/app/context/sidebarContext/ImageProvider.tsx:464-465 | the new state is `RectClick` of the old one |
| Provider.ImageProvider.HandleRemoveRectangle | src/app/context/sidebarContext/ImageProvider.tsx:514-540 | the new state is `Remove` of the old one |
| Provider.ImageProvider.HandleRectDragEnd | src/app/context/sidebarContext/ImageProvider.tsx:442-462 | the new state is `DragEnd` of the old one |
| Provider.ImageProvider.HandleTransform | src/app/context/sidebarContext/ImageProvider.tsx:542-566 | for an index that is a current panel, the new state is `Transform` of the old one |
| Provider.ImageProvider.HandleRefresh | src/app/context/sidebarContext/ImageProvider.tsx:583-596 | the new state is `Refresh` of the old one |

## Left out

- The React and Konva plumbing is not modelled: the context and its hook, the refs, reading the click position and the image box from the stage, the transformer's `nodes` call in the rect-click handler, and the keyboard listener that maps Ctrl+Z and Ctrl+Y to undo and redo. The click position, the image box and the dragged or transformed attributes are parameters instead.
- `transformerAttrs` is dropped. It is only copied into snapshots and restored from them.
- Hooks that are not handlers are not modelled: image storage, the stage dimensions, the `imageShown` flag, and the `TotalPanelsAdded` setter wrapper.
- `Math.sqrt` and `Math.atan2` are function parameters (`sqrt`, `atan2`), so nothing is assumed about their values.
- Coordinates are exact reals. Floating-point rounding, infinities, and NaN produced by arithmetic (rather than by reading past a list) are not modelled.
- React's batching of state setters is not modelled. Each handler runs to completion on the state it read on entry.
- PanelPlanner.PlanPanels, PanelPlanner.Cells and PanelPlanner.MakeGrid: for an empty or odd flat list the model places no new panel without running the loop (`PlanPanels` returns the filtered panels at planner.dfy:375-377, `Cells` is `[]`), and `MakeGrid` requires an even list of 2 or more numbers. For such a list the source's loop accepts no cell, because a NaN centroid coordinate makes every centre test false and a NaN area makes the loop bound NaN. That argument is in the comment on `Cells`, not proved over NaN arithmetic.
- PanelPlanner.MakeGrid, PanelPlanner.Cells, PanelPlanner.Tiling, Layout.Finish and Provider.ImageProvider.AddPanelAndFinishPolygon require the gapped pixel sizes (panel size plus 10) to be non-zero (`Tileable`). The source divides by them, and a zero gives an infinite or NaN loop bound that reals cannot express.
- Geometry.CalculateCentroid and Geometry.Centroid require an even, non-empty list. The source does call `calculateCentroid` on an odd outline (a soft undo can leave one number, and two more clicks pass the `points.length >= 3` guard); there the y mean reads `undefined` and is NaN. The model's `PlanPanels` never calls it on such lists: it returns before the centroid at planner.dfy:375-377.
- Layout.Transform and Provider.ImageProvider.HandleTransform require the index to be a current panel (`0 <= index < |rectangles|`). The source has no such guard, and its caller in `CustomImage.jsx` passes `selectedRectIndex` after checking only that it is not null. Nothing clears the selection when the panel list shrinks: undo and redo restore a snapshot's panels and keep the selection (`Layout.UndoKeepsStaleSelection` shows such a state), and a re-tile can drop panels from the list. A transform in that state makes the source write `{...undefined, x, y, rotation}` at `updatedRectangles[index]`: the array grows, any indices in between become holes, and the new entry has no width or height; that array is then stored and snapshotted. Panels here are complete `Rect` values in a sequence, so the model does not express holes or partial panels and does not model this path.
- The other files of the repository are not part of this model: the sidebar UI and its metrics, the address form, the image component, the server actions and routes, and configuration.
