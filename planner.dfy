/**
 * The panel planner of addPanelAndFinishPolygon: it sizes a grid of gapped cells from the
 * target polygon's area, drops the old panels that lie fully inside that polygon, and walks
 * the grid row by row from the top-left cell, keeping a cell when its centre and its four
 * corners pass the ray-casting test. `atan2` stands for Math.atan2.
 */
module PanelPlanner {
  import opened Wrappers
  import opened Geometry

  /** A catalogue panel, sized in inches. */
  datatype Panel = Panel(length: real, width: real)

  const MetersPerInch: real := 0.0254
  const PixelsPerMeter: real := 10.0
  /** Added to each panel side to space the cells. */
  const Gap: real := 10.0
  /** How many gapped cell sides the area formula subtracts (`5 * panelWidthWithGap`). */
  const Margin: real := 5.0

  /** Inches to on-screen pixels. */
  function ToPixels(inches: real): (px: real)
    ensures px == inches * 0.254
    ensures inches >= 0.0 ==> px >= 0.0
  {
    inches * MetersPerInch * PixelsPerMeter
  }

  /** The sizes the grid divides by are non-zero (otherwise the loop bound is NaN or infinite). */
  predicate Tileable(length: real, width: real)
  {
    length + Gap != 0.0 && width + Gap != 0.0
  }

  function Max0(n: int): nat
  {
    if n < 0 then 0 else n
  }

  /**
   * The grid laid over a polygon: the panel's pixel sizes, the gapped cell sizes, the
   * centroid the grid is centred on, the column and row counts from the area formula, the
   * loop bound `numPanels` and the left, right and top edges of the grid.
   */
  datatype Grid = Grid(
    poly: seq<real>, length: real, width: real, cellLength: real, cellWidth: real,
    centre: Point, cols: int, rows: int, numPanels: int, left: real, right: real, top: real)

  function MakeGrid(poly: seq<real>, length: real, width: real): (g: Grid)
    requires |poly| % 2 == 0 && |poly| >= 2 && Tileable(length, width)
    ensures g.poly == poly && g.length == length && g.width == width
    ensures g.cellLength == length + Gap && g.cellWidth == width + Gap
    ensures g.centre == Centroid(poly)
    ensures g.left + g.right == 2.0 * g.centre.x
    ensures g.right - g.left == g.cols as real * g.cellLength
    ensures g.centre.y - g.top == (g.rows as real * g.cellWidth) / 2.0
  {
    AreaCases(poly);
    var area := Area(poly).value;
    var cellLength, cellWidth := length + Gap, width + Gap;
    var c := Centroid(poly);
    var cols := ((area - Margin * cellWidth) / cellLength).Floor;
    var rows := ((area - Margin * cellLength) / cellWidth).Floor;
    Grid(poly, length, width, cellLength, cellWidth, c, cols, rows,
         // not clamped: two negative counts give a positive bound
         cols * rows,
         c.x - (cols as real * cellLength) / 2.0,
         c.x + (cols as real * cellLength) / 2.0,
         c.y - (rows as real * cellWidth) / 2.0)
  }

  /** The cell the loop tests next from cursor c: past the right edge it wraps to a new row. */
  function Advance(g: Grid, c: Point): Point
  {
    if c.x + g.cellLength > g.right then Point(g.left, c.y + g.cellWidth) else c
  }

  function CellCentre(g: Grid, c: Point): Point
  {
    Point(c.x + g.cellLength / 2.0, c.y + g.cellWidth / 2.0)
  }

  /** The panel placed at cell c, turned towards the centroid. */
  function Candidate(g: Grid, c: Point, atan2: (real, real) -> real): Rect
  {
    Rect(c.x, c.y, g.length, g.width, atan2(g.centre.y - c.y, g.centre.x - c.x))
  }

  /** A cell is kept when its centre and then its panel's four corners are inside the polygon. */
  predicate Accepts(g: Grid, c: Point, atan2: (real, real) -> real)
  {
    Inside(CellCentre(g, c), g.poly) && RectInside(Candidate(g, c, atan2), g.poly)
  }

  /** What a placed panel satisfies: inside, panel-sized, centre inside, facing the centroid. */
  predicate Fits(g: Grid, r: Rect, atan2: (real, real) -> real)
  {
    && RectInside(r, g.poly)
    && r.width == g.length && r.height == g.width
    && Inside(CellCentre(g, Point(r.x, r.y)), g.poly)
    && r.rotation == atan2(g.centre.y - r.y, g.centre.x - r.x)
  }

  /** The loop's verdict on cell c: its panel when accepted, nothing otherwise. */
  function Place(g: Grid, c: Point, atan2: (real, real) -> real): Option<Rect>
  {
    if Accepts(g, c, atan2) then Some(Candidate(g, c, atan2)) else None
  }

  /** What one round pushes onto the rectangle list. */
  function Pushes(o: Option<Rect>): seq<Rect>
  {
    if o.Some? then [o.value] else []
  }

  /** The loop's cell test as a function of the cell. */
  function Tester(g: Grid, atan2: (real, real) -> real): Point -> Option<Rect>
  {
    c => Place(g, c, atan2)
  }

  /**
   * The panels the last n rounds of the loop push, starting from cursor c, when `verdict` is
   * the cell test (the planner's is `Tester(g, atan2)`).
   */
  function Walk(g: Grid, c: Point, n: nat, verdict: Point -> Option<Rect>): (placed: seq<Rect>)
    ensures |placed| <= n
    decreases n
  {
    if n == 0 then []
    else
      var cell := Advance(g, c);
      Pushes(verdict(cell)) + Walk(g, Point(cell.x + g.cellLength, cell.y), n - 1, verdict)
  }

  /** Every panel the walk pushes is the verdict on some cell. */
  lemma {:induction false} WalkFrom(g: Grid, c: Point, n: nat, verdict: Point -> Option<Rect>)
    ensures forall r :: r in Walk(g, c, n, verdict) ==> exists cell :: verdict(cell) == Some(r)
    decreases n
  {
    if n > 0 {
      var cell := Advance(g, c);
      var head, rest := Pushes(verdict(cell)), Walk(g, Point(cell.x + g.cellLength, cell.y), n - 1, verdict);
      WalkFrom(g, Point(cell.x + g.cellLength, cell.y), n - 1, verdict);
      assert Walk(g, c, n, verdict) == head + rest;
    }
  }

  /** Every panel the planner's walk places fits its cell: inside, panel-sized, facing the centroid. */
  lemma WalkFits(g: Grid, c: Point, n: nat, atan2: (real, real) -> real)
    ensures forall r :: r in Walk(g, c, n, Tester(g, atan2)) ==> Fits(g, r, atan2)
  {
    WalkFrom(g, c, n, Tester(g, atan2));
    forall r | r in Walk(g, c, n, Tester(g, atan2))
      ensures Fits(g, r, atan2)
    {
      var cell :| Tester(g, atan2)(cell) == Some(r);
      assert Place(g, cell, atan2) == Some(r);
      CandidateFits(g, cell, atan2);
    }
  }

  /** An accepted cell's panel fits it. */
  lemma CandidateFits(g: Grid, c: Point, atan2: (real, real) -> real)
    requires Accepts(g, c, atan2)
    ensures Fits(g, Candidate(g, c, atan2), atan2)
  {
    var r := Candidate(g, c, atan2);
    assert Point(r.x, r.y) == c;
  }

  /** One round of the loop: the cursor advances, the cell's panel (if accepted) is pushed. */
  lemma WalkStep(g: Grid, before: Point, next: Point, placed: seq<Rect>, step: seq<Rect>, n: nat,
                 m: nat, verdict: Point -> Option<Rect>, cells: seq<Rect>)
    requires n == m + 1
    requires var cell := Advance(g, before);
      next == Point(cell.x + g.cellLength, cell.y) && step == Pushes(verdict(cell))
    requires placed + Walk(g, before, n, verdict) == cells
    ensures (placed + step) + Walk(g, next, m, verdict) == cells
  {
    var rest := Walk(g, next, m, verdict);
    assert Walk(g, before, n, verdict) == step + rest;
    assert (placed + step) + rest == placed + (step + rest);
  }

  /** A cell test that, when it places a panel, places it with its corner at the cell. */
  ghost predicate PlacesAtCell(verdict: Point -> Option<Rect>)
  {
    forall c :: verdict(c).Some? ==> verdict(c).value.x == c.x && verdict(c).value.y == c.y
  }

  lemma TesterPlacesAtCell(g: Grid, atan2: (real, real) -> real)
    ensures PlacesAtCell(Tester(g, atan2))
  {
    forall c | Tester(g, atan2)(c).Some?
      ensures Tester(g, atan2)(c).value.x == c.x && Tester(g, atan2)(c).value.y == c.y
    {
      assert Tester(g, atan2)(c) == Place(g, c, atan2);
    }
  }

  /** With positive cell sizes a walk whose test places at the cell stays in the grid's rows. */
  lemma {:induction false} WalkStaysInRows(g: Grid, c: Point, n: nat, verdict: Point -> Option<Rect>)
    requires g.cellLength > 0.0 && g.cellWidth > 0.0
    requires c.x >= g.left && c.y >= g.top
    requires PlacesAtCell(verdict)
    ensures forall r :: r in Walk(g, c, n, verdict) ==>
      && r.y >= g.top && r.x >= g.left
      && (r.x == g.left || r.x + g.cellLength <= g.right)
    decreases n
  {
    if n > 0 {
      var cell := Advance(g, c);
      WalkStaysInRows(g, Point(cell.x + g.cellLength, cell.y), n - 1, verdict);
      assert Walk(g, c, n, verdict)
        == Pushes(verdict(cell)) + Walk(g, Point(cell.x + g.cellLength, cell.y), n - 1, verdict);
    }
  }

  /** With positive cell sizes every placed panel starts in its row's span and below the top. */
  lemma WalkStaysInGrid(g: Grid, c: Point, n: nat, atan2: (real, real) -> real)
    requires g.cellLength > 0.0 && g.cellWidth > 0.0
    requires c.x >= g.left && c.y >= g.top
    ensures forall r :: r in Walk(g, c, n, Tester(g, atan2)) ==>
      && r.y >= g.top && r.x >= g.left
      && (r.x == g.left || r.x + g.cellLength <= g.right)
  {
    TesterPlacesAtCell(g, atan2);
    WalkStaysInRows(g, c, n, Tester(g, atan2));
  }

  /** The filter that drops the old panels lying fully inside the target polygon. */
  function KeepOutside(rects: seq<Rect>, poly: seq<real>): (kept: seq<Rect>)
    ensures |kept| <= |rects|
  {
    if rects == [] then []
    else
      (if RectInside(rects[0], poly) then [] else [rects[0]]) + KeepOutside(rects[1..], poly)
  }

  /** The filter keeps exactly the old panels that are not fully inside the polygon. */
  lemma {:induction false} KeepOutsideFilters(rects: seq<Rect>, poly: seq<real>)
    ensures forall r :: r in KeepOutside(rects, poly) ==> r in rects && !RectInside(r, poly)
    ensures forall r :: r in rects && !RectInside(r, poly) ==> r in KeepOutside(rects, poly)
  {
    if rects != [] {
      KeepOutsideFilters(rects[1..], poly);
      assert rects == [rects[0]] + rects[1..];
    }
  }

  lemma {:induction false} KeepOutsideAppend(a: seq<Rect>, b: seq<Rect>, poly: seq<real>)
    ensures KeepOutside(a + b, poly) == KeepOutside(a, poly) + KeepOutside(b, poly)
  {
    if a != [] {
      var head := if RectInside(a[0], poly) then [] else [a[0]];
      assert (a + b)[0] == a[0] && (a + b)[1..] == a[1..] + b;
      KeepOutsideAppend(a[1..], b, poly);
      assert KeepOutside(a + b, poly) == head + KeepOutside(a[1..] + b, poly);
      assert KeepOutside(a, poly) == head + KeepOutside(a[1..], poly);
      assert head + (KeepOutside(a[1..], poly) + KeepOutside(b, poly))
        == (head + KeepOutside(a[1..], poly)) + KeepOutside(b, poly);
    } else {
      assert a + b == b;
    }
  }

  /** A list with no panel inside the polygon passes the filter unchanged. */
  lemma {:induction false} KeepOutsideKeepsAll(rects: seq<Rect>, poly: seq<real>)
    requires forall r :: r in rects ==> !RectInside(r, poly)
    ensures KeepOutside(rects, poly) == rects
  {
    if rects != [] {
      KeepOutsideKeepsAll(rects[1..], poly);
    }
  }

  /** A list of panels all inside the polygon is dropped entirely. */
  lemma {:induction false} KeepOutsideDropsAll(rects: seq<Rect>, poly: seq<real>)
    requires forall r :: r in rects ==> RectInside(r, poly)
    ensures KeepOutside(rects, poly) == []
  {
    if rects != [] {
      KeepOutsideDropsAll(rects[1..], poly);
    }
  }

  /** Filtering twice is filtering once. */
  lemma KeepOutsideIdempotent(rects: seq<Rect>, poly: seq<real>)
    ensures KeepOutside(KeepOutside(rects, poly), poly) == KeepOutside(rects, poly)
  {
    KeepOutsideFilters(rects, poly);
    KeepOutsideKeepsAll(KeepOutside(rects, poly), poly);
  }

  /** The planner's result: the new rectangle list and numPanelsAdded. */
  datatype Plan = Plan(rectangles: seq<Rect>, added: nat)

  /**
   * The panels the loop pushes onto the filtered list. An empty or odd flat list yields none:
   * the centroid of an empty list is 0/0 and that of an odd list below 7 numbers has an
   * undefined y, so no cell centre passes the test (NaN compares false); from 7 numbers on the
   * area, hence the loop bound, is NaN, so the loop does not run.
   */
  function Cells(poly: seq<real>, length: real, width: real, atan2: (real, real) -> real)
    : (cells: seq<Rect>)
    requires Tileable(length, width)
    ensures |poly| % 2 == 0 && |poly| >= 2 ==>
      |cells| <= Max0(MakeGrid(poly, length, width).numPanels)
    ensures |poly| % 2 == 1 || |poly| == 0 ==> cells == []
    ensures forall k :: 0 <= k < |cells| ==>
      RectInside(cells[k], poly) && cells[k].width == length && cells[k].height == width
  {
    if |poly| % 2 == 1 || |poly| == 0 then []
    else
      var g := MakeGrid(poly, length, width);
      WalkFits(g, Point(g.left, g.top), Max0(g.numPanels), atan2);
      var cells := Walk(g, Point(g.left, g.top), Max0(g.numPanels), Tester(g, atan2));
      assert forall k :: 0 <= k < |cells| ==> cells[k] in cells;
      cells
  }

  /** The whole planner: the old panels outside the polygon, then the new ones. */
  function Tiling(existing: seq<Rect>, poly: seq<real>, length: real, width: real,
                  atan2: (real, real) -> real): (plan: Plan)
    requires Tileable(length, width)
    ensures var kept := KeepOutside(existing, poly);
      && |plan.rectangles| == |kept| + plan.added
      && plan.rectangles[..|kept|] == kept
      && forall k :: |kept| <= k < |plan.rectangles| ==>
           RectInside(plan.rectangles[k], poly)
           && plan.rectangles[k].width == length && plan.rectangles[k].height == width
    ensures |poly| % 2 == 0 && |poly| >= 2 ==>
      plan.added <= Max0(MakeGrid(poly, length, width).numPanels)
    ensures |poly| % 2 == 1 || |poly| == 0 ==> plan.added == 0
  {
    var kept := KeepOutside(existing, poly);
    var cells := Cells(poly, length, width, atan2);
    assert (kept + cells)[..|kept|] == kept;
    assert forall k :: |kept| <= k < |kept + cells| ==> (kept + cells)[k] == cells[k - |kept|];
    Plan(kept + cells, |cells|)
  }

  /** Tiling the same polygon again with the same panel replaces the panels by the same ones. */
  lemma RetileIsStable(existing: seq<Rect>, poly: seq<real>, length: real, width: real,
                       atan2: (real, real) -> real)
    requires Tileable(length, width)
    ensures var plan := Tiling(existing, poly, length, width, atan2);
      Tiling(plan.rectangles, poly, length, width, atan2) == plan
  {
    var kept := KeepOutside(existing, poly);
    var cells := Cells(poly, length, width, atan2);
    KeepOutsideAppend(kept, cells, poly);
    KeepOutsideIdempotent(existing, poly);
    forall r | r in cells
      ensures RectInside(r, poly)
    {
      var k :| 0 <= k < |cells| && cells[k] == r;
    }
    KeepOutsideDropsAll(cells, poly);
    assert KeepOutside(kept + cells, poly) == kept;
  }

  /**
   * The planner: the area, the grid sizes, the centroid, the filter, then the cell loop.
   * An empty or odd flat list skips the loop, which for such a list accepts no cell.
   */
  method PlanPanels(existing: seq<Rect>, poly: seq<real>, length: real, width: real,
                    atan2: (real, real) -> real) returns (rects: seq<Rect>, count: nat)
    requires Tileable(length, width)
    ensures Plan(rects, count) == Tiling(existing, poly, length, width, atan2)
  {
    var area := ShoelaceFormula(poly);
    var kept := KeepOutside(existing, poly);
    if |poly| % 2 == 1 || |poly| == 0 {
      return kept, 0;
    }
    var cellWidth := width + Gap;
    var cellLength := length + Gap;
    var cols := ((area.value - Margin * cellWidth) / cellLength).Floor;
    var rows := ((area.value - Margin * cellLength) / cellWidth).Floor;
    var numPanels := cols * rows;
    var centroid := CalculateCentroid(poly);
    var g := Grid(poly, length, width, cellLength, cellWidth, centroid, cols, rows, numPanels,
                  centroid.x - (cols as real * cellLength) / 2.0,
                  centroid.x + (cols as real * cellLength) / 2.0,
                  centroid.y - (rows as real * cellWidth) / 2.0);
    assert g == MakeGrid(poly, length, width);
    rects, count := FillGrid(g, kept, atan2, Tester(g, atan2));
  }

  /**
   * The cell loop's test, given as `verdict` to the loop so that its proof needs no geometry:
   * it is the planner's test on every cell.
   */
  ghost predicate IsCellTest(g: Grid, atan2: (real, real) -> real, verdict: Point -> Option<Rect>)
  {
    forall c {:trigger Place(g, c, atan2)} :: verdict(c) == Place(g, c, atan2)
  }

  /**
   * One round of the cell loop up to the push: past the right edge the cursor wraps to the next
   * row; then the cell's centre is checked, and then the four corners of its panel.
   */
  method TestCell(g: Grid, x: real, y: real, atan2: (real, real) -> real,
                  ghost verdict: Point -> Option<Rect>)
    returns (cellX: real, cellY: real, r: Option<Rect>)
    requires IsCellTest(g, atan2, verdict)
    ensures Point(cellX, cellY) == Advance(g, Point(x, y))
    ensures r == verdict(Point(cellX, cellY))
  {
    cellX, cellY := x, y;
    if cellX + g.cellLength > g.right {
      cellX := g.left;
      cellY := cellY + g.cellWidth;
    }
    var centre := Point(cellX + g.cellLength / 2.0, cellY + g.cellWidth / 2.0);
    assert centre == CellCentre(g, Point(cellX, cellY));
    var centreInside := IsPointInsidePolygon(centre, g.poly);
    if !centreInside {
      r := None;
    } else {
      var angle := atan2(g.centre.y - cellY, g.centre.x - cellX);
      var rect := Rect(cellX, cellY, g.length, g.width, angle);
      assert rect == Candidate(g, Point(cellX, cellY), atan2);
      var rectInside := IsRectangleInsidePolygon(rect, g.poly);
      r := if rectInside then Some(rect) else None;
    }
    assert r == Place(g, Point(cellX, cellY), atan2);
  }

  /** The cell loop: steps the cursor, wraps rows, tests each cell and counts the pushes. */
  method FillGrid(g: Grid, kept: seq<Rect>, atan2: (real, real) -> real,
                  ghost verdict: Point -> Option<Rect>)
    returns (rects: seq<Rect>, count: nat)
    requires IsCellTest(g, atan2, verdict)
    ensures rects == kept + Walk(g, Point(g.left, g.top), Max0(g.numPanels), verdict)
    ensures count == |Walk(g, Point(g.left, g.top), Max0(g.numPanels), verdict)|
  {
    ghost var cells := Walk(g, Point(g.left, g.top), Max0(g.numPanels), verdict);
    ghost var placed: seq<Rect> := [];
    var x, y := g.left, g.top;
    rects := kept;
    count := 0;
    var i := 0;
    while i < g.numPanels
      invariant 0 <= i <= Max0(g.numPanels)
      invariant rects == kept + placed && count == |placed|
      invariant placed + Walk(g, Point(x, y), Max0(g.numPanels) - i, verdict) == cells
    {
      ghost var before, n, previous := Point(x, y), Max0(g.numPanels) - i, placed;
      var cellX, cellY, accepted := TestCell(g, x, y, atan2, verdict);
      ghost var step := Pushes(accepted);
      if accepted.Some? {
        rects := rects + [accepted.value];
        count := count + 1;
      }
      assert rects == kept + (placed + step);
      placed := placed + step;
      x, y := cellX + g.cellLength, cellY;
      i := i + 1;
      WalkStep(g, before, Point(x, y), previous, step, n, Max0(g.numPanels) - i, verdict, cells);
    }
  }
}
