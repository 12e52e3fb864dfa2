/**
 * The geometry helpers of the image provider. Polygons are flat coordinate lists
 * [x0, y0, x1, y1, ...] with an implicit closing edge from the last vertex to the first.
 * Each helper that the source writes as a `for` loop is a method with that loop, proved
 * equal to a recursive specification function; the lemmas are about those functions.
 */
module Geometry {
  import opened Wrappers

  datatype Point = Point(x: real, y: real)

  /** A panel: (x, y) is the unrotated top-left corner; rotation is carried but never checked. */
  datatype Rect = Rect(x: real, y: real, width: real, height: real, rotation: real)

  /** The on-screen bounding box of the background image. */
  datatype Box = Box(x: real, y: real, width: real, height: real)

  /** Whether reading element k of a flat list yields a number; past either end it yields `undefined`. */
  predicate Defined(p: seq<real>, k: int)
  {
    0 <= k < |p|
  }

  /** How many times a loop `for (i = 0; i < |p|; i += 2)` runs. */
  function Steps(p: seq<real>): nat
  {
    (|p| + 1) / 2
  }

  /** Vertex k of an even flat list. */
  function Vertex(p: seq<real>, k: int): Point
    requires 0 <= k < |p| / 2
  {
    Point(p[2 * k], p[2 * k + 1])
  }

  function Vertices(p: seq<real>): (vs: seq<Point>)
    requires |p| % 2 == 0
    ensures |vs| == |p| / 2
    ensures forall k :: 0 <= k < |vs| ==> vs[k] == Vertex(p, k)
  {
    seq(|p| / 2, k requires 0 <= k < |p| / 2 => Vertex(p, k))
  }

  // ---------------------------------------------------------------------------
  // Ray casting (isPointInsidePolygon)

  /** The index the ray-casting loop pairs with i: j starts at |p| - 2 and then trails i by 2. */
  function Trailing(p: seq<real>, i: int): int
  {
    if i == 0 then |p| - 2 else i - 2
  }

  /**
   * Whether the edge from index j to index i crosses the horizontal ray to the right of pt.
   * The division happens only when exactly one end lies below pt.y, so yj - yi is never 0.
   * An edge with a coordinate read past the list never crosses: every comparison with
   * `undefined` or with NaN is false.
   */
  predicate EdgeCrosses(pt: Point, p: seq<real>, i: int, j: int)
  {
    && Defined(p, i) && Defined(p, i + 1) && Defined(p, j) && Defined(p, j + 1)
    && var xi, yi, xj, yj := p[i], p[i + 1], p[j], p[j + 1];
       (yi > pt.y) != (yj > pt.y) && pt.x < (xj - xi) * (pt.y - yi) / (yj - yi) + xi
  }

  /** The number of crossing edges among the first k that the loop visits. */
  function CrossingsBelow(pt: Point, p: seq<real>, k: nat): nat
  {
    if k == 0 then 0
    else
      CrossingsBelow(pt, p, k - 1)
      + (if EdgeCrosses(pt, p, 2 * (k - 1), Trailing(p, 2 * (k - 1))) then 1 else 0)
  }

  /** Ray-casting parity: pt is inside p when an odd number of edges cross its ray. */
  predicate Inside(pt: Point, p: seq<real>)
  {
    CrossingsBelow(pt, p, Steps(p)) % 2 == 1
  }

  /** The source's loop, toggling `inside` at each crossing edge. */
  method IsPointInsidePolygon(pt: Point, p: seq<real>) returns (inside: bool)
    ensures inside <==> Inside(pt, p)
  {
    inside := false;
    var i, j := 0, |p| - 2;
    ghost var k: nat := 0;
    while i < |p|
      invariant i == 2 * k && k <= Steps(p)
      invariant j == Trailing(p, i)
      invariant inside <==> CrossingsBelow(pt, p, k) % 2 == 1
    {
      var intersect := EdgeCrosses(pt, p, i, j);
      CrossingParity(pt, p, k);
      if intersect {
        inside := !inside;
      }
      j, i, k := i, i + 2, k + 1;
    }
    assert k == Steps(p);
  }

  /** Each crossing edge flips the parity of the count. */
  lemma CrossingParity(pt: Point, p: seq<real>, k: nat)
    ensures CrossingsBelow(pt, p, k + 1) % 2 == 1
      <==> (CrossingsBelow(pt, p, k) % 2 == 1) != EdgeCrosses(pt, p, 2 * k, Trailing(p, 2 * k))
  {
  }

  /** A point on or beyond the vertical extent of an even polygon crosses no edge, so it is outside. */
  lemma OutsideVerticalRange(pt: Point, p: seq<real>)
    requires |p| % 2 == 0
    requires (forall t :: 0 <= t < |p| / 2 ==> Vertex(p, t).y <= pt.y)
          || (forall t :: 0 <= t < |p| / 2 ==> Vertex(p, t).y > pt.y)
    ensures !Inside(pt, p)
  {
    NoCrossingsOutsideRange(pt, p, |p| / 2);
    assert Steps(p) == |p| / 2;
  }

  /** Under that hypothesis none of the first k edges the loop visits crosses the ray. */
  lemma {:induction false} NoCrossingsOutsideRange(pt: Point, p: seq<real>, k: nat)
    requires |p| % 2 == 0 && k <= |p| / 2
    requires (forall t :: 0 <= t < |p| / 2 ==> Vertex(p, t).y <= pt.y)
          || (forall t :: 0 <= t < |p| / 2 ==> Vertex(p, t).y > pt.y)
    ensures CrossingsBelow(pt, p, k) == 0
  {
    if k > 0 {
      NoCrossingsOutsideRange(pt, p, k - 1);
      EndsOnOneSide(pt, p, k - 1);
      SameSideNoCrossing(pt, p, 2 * (k - 1), Trailing(p, 2 * (k - 1)));
    }
  }

  /** Under the same hypothesis, both ends of the edge the loop visits at step k lie on one side. */
  lemma EndsOnOneSide(pt: Point, p: seq<real>, k: nat)
    requires |p| % 2 == 0 && k < |p| / 2
    requires (forall t :: 0 <= t < |p| / 2 ==> Vertex(p, t).y <= pt.y)
          || (forall t :: 0 <= t < |p| / 2 ==> Vertex(p, t).y > pt.y)
    ensures var i := 2 * k; var j := Trailing(p, i);
      0 <= i + 1 < |p| && 0 <= j + 1 < |p| && (p[i + 1] > pt.y) == (p[j + 1] > pt.y)
  {
    var a, b := Vertex(p, k), Vertex(p, if k == 0 then |p| / 2 - 1 else k - 1);
    assert p[2 * k + 1] == a.y && p[Trailing(p, 2 * k) + 1] == b.y;
  }

  /** An edge whose two ends lie on the same side of the ray does not cross it. */
  lemma SameSideNoCrossing(pt: Point, p: seq<real>, i: int, j: int)
    requires 0 <= i + 1 < |p| && 0 <= j + 1 < |p|
    requires (p[i + 1] > pt.y) == (p[j + 1] > pt.y)
    ensures !EdgeCrosses(pt, p, i, j)
  {
  }

  // ---------------------------------------------------------------------------
  // Rectangles (isRectangleInsidePolygon, isPointInsideRectangle)

  /** The four unrotated corners, in the order the source lists them. */
  function Corners(r: Rect): seq<real>
  {
    [r.x, r.y, r.x + r.width, r.y, r.x + r.width, r.y + r.height, r.x, r.y + r.height]
  }

  /** A rectangle is inside when its four unrotated corners are; rotation plays no part. */
  predicate RectInside(r: Rect, p: seq<real>)
  {
    && Inside(Point(r.x, r.y), p)
    && Inside(Point(r.x + r.width, r.y), p)
    && Inside(Point(r.x + r.width, r.y + r.height), p)
    && Inside(Point(r.x, r.y + r.height), p)
  }

  /** The source's loop over the corner list, returning false at the first corner outside. */
  method IsRectangleInsidePolygon(r: Rect, p: seq<real>) returns (inside: bool)
    ensures inside <==> forall k :: 0 <= k < 4 ==> Inside(Vertex(Corners(r), k), p)
    ensures inside <==> RectInside(r, p)
  {
    var rectPoints := Corners(r);
    var i := 0;
    ghost var k: nat := 0;
    while i < |rectPoints|
      invariant i == 2 * k && k <= 4
      invariant forall t :: 0 <= t < k ==> Inside(Vertex(rectPoints, t), p)
    {
      var ok := IsPointInsidePolygon(Point(rectPoints[i], rectPoints[i + 1]), p);
      assert Vertex(rectPoints, k) == Point(rectPoints[i], rectPoints[i + 1]);
      if !ok {
        CornerListIsRect(r, p);
        return false;
      }
      i, k := i + 2, k + 1;
    }
    CornerListIsRect(r, p);
    return true;
  }

  /** The corner list holds the four corners that `RectInside` tests. */
  lemma CornerListIsRect(r: Rect, p: seq<real>)
    ensures (forall k :: 0 <= k < 4 ==> Inside(Vertex(Corners(r), k), p)) <==> RectInside(r, p)
  {
    CornerVertices(r);
  }

  lemma CornerVertices(r: Rect)
    ensures |Corners(r)| == 8
    ensures Vertex(Corners(r), 0) == Point(r.x, r.y)
    ensures Vertex(Corners(r), 1) == Point(r.x + r.width, r.y)
    ensures Vertex(Corners(r), 2) == Point(r.x + r.width, r.y + r.height)
    ensures Vertex(Corners(r), 3) == Point(r.x, r.y + r.height)
  {
  }

  /** Closed-interval box test: points on the border count as inside. */
  predicate IsPointInsideRectangle(pt: Point, r: Rect)
    ensures IsPointInsideRectangle(pt, r) ==>
      && r.width >= 0.0 && r.height >= 0.0
      && r.x <= pt.x <= r.x + r.width && r.y <= pt.y <= r.y + r.height
  {
    pt.x >= r.x && pt.x <= r.x + r.width && pt.y >= r.y && pt.y <= r.y + r.height
  }

  /** Every point of the border of a rectangle with non-negative size is inside it. */
  lemma RectangleHoldsItsBorder(r: Rect, s: real, t: real)
    requires r.width >= 0.0 && r.height >= 0.0
    requires 0.0 <= s <= r.width && 0.0 <= t <= r.height
    ensures IsPointInsideRectangle(Point(r.x + s, r.y), r)
    ensures IsPointInsideRectangle(Point(r.x + s, r.y + r.height), r)
    ensures IsPointInsideRectangle(Point(r.x, r.y + t), r)
    ensures IsPointInsideRectangle(Point(r.x + r.width, r.y + t), r)
  {
  }

  /** A rectangle of negative width or height contains no point at all. */
  lemma NegativeRectangleIsEmpty(pt: Point, r: Rect)
    requires r.width < 0.0 || r.height < 0.0
    ensures !IsPointInsideRectangle(pt, r)
  {
  }

  // ---------------------------------------------------------------------------
  // Shoelace area (shoelaceFormula)

  function Cross(a: Point, b: Point): real
  {
    a.x * b.y - b.x * a.y
  }

  function Abs(x: real): real
  {
    if x < 0.0 then -x else x
  }

  /** Summand i of the shoelace loop with j = (i + 2) mod |p|; None when it reads past the list (NaN). */
  function Term(p: seq<real>, i: int): Option<real>
    requires |p| > 0
  {
    var j := (i + 2) % |p|;
    if Defined(p, i) && Defined(p, j + 1) && Defined(p, j) && Defined(p, i + 1)
    then Some(p[i] * p[j + 1] - p[j] * p[i + 1])
    else None
  }

  /** Addition of numbers that may be NaN: NaN absorbs. */
  function Plus(a: Option<real>, b: Option<real>): Option<real>
  {
    if a.Some? && b.Some? then Some(a.value + b.value) else None
  }

  /** The accumulator after the first k rounds of the shoelace loop. */
  function SumBelow(p: seq<real>, k: nat): Option<real>
    requires |p| > 0
  {
    if k == 0 then Some(0.0) else Plus(SumBelow(p, k - 1), Term(p, 2 * (k - 1)))
  }

  /** The source's result: 0 below 3 vertices, else |sum| / 2; None is the NaN of an odd list. */
  function Area(p: seq<real>): Option<real>
  {
    if |p| < 6 then Some(0.0)
    else
      match SumBelow(p, Steps(p))
      case Some(s) => Some(Abs(s) / 2.0)
      case None => None
  }

  /** The index after k on a cycle of n vertices. */
  function Next(k: int, n: int): int
  {
    if k + 1 < n then k + 1 else 0
  }

  /** Σ_{t<k} Cross(v_t, v_{t+1 mod n}): the cyclic cross-product sum over the first k edges. */
  function PartialCross(vs: seq<Point>, k: nat): real
    requires k <= |vs|
  {
    if k == 0 then 0.0 else PartialCross(vs, k - 1) + Cross(vs[k - 1], vs[Next(k - 1, |vs|)])
  }

  function CyclicCross(vs: seq<Point>): real
  {
    PartialCross(vs, |vs|)
  }

  lemma ModSmall(a: int, n: int)
    requires 0 <= a < n
    ensures a % n == a
  {
  }

  lemma ModWrap(n: int)
    requires n >= 2
    ensures n % n == 0 && (n + 1) % n == 1
  {
  }

  /** (i + 2) mod |p|, for an even index i of an even list, is the index of the next vertex. */
  lemma WrapIndex(p: seq<real>, k: nat)
    requires |p| % 2 == 0 && k < |p| / 2
    ensures (2 * k + 2) % |p| == 2 * Next(k, |p| / 2)
    ensures (2 * k + 3) % |p| == 2 * Next(k, |p| / 2) + 1
  {
    var n, m := |p|, |p| / 2;
    assert n == 2 * m;
    if k + 1 < m {
      ModSmall(2 * k + 2, n);
      ModSmall(2 * k + 3, n);
    } else {
      assert 2 * k + 2 == n;
      ModWrap(n);
    }
  }

  /** On an even list, term 2k of the loop is the cross product of vertex k and its successor. */
  lemma TermIsCross(p: seq<real>, k: nat)
    requires |p| % 2 == 0 && k < |p| / 2
    ensures Term(p, 2 * k).Some?
    ensures Term(p, 2 * k).value == Cross(Vertex(p, k), Vertex(p, Next(k, |p| / 2)))
  {
    WrapIndex(p, k);
    var i, j := 2 * k, 2 * Next(k, |p| / 2);
    assert |p| == 2 * (|p| / 2);
    assert (i + 2) % |p| == j;
  }

  lemma {:induction false} SumIsPartialCross(p: seq<real>, k: nat)
    requires |p| % 2 == 0 && 0 < |p| && k <= |p| / 2
    ensures SumBelow(p, k).Some?
    ensures SumBelow(p, k).value == PartialCross(Vertices(p), k)
  {
    if k > 0 {
      SumIsPartialCross(p, k - 1);
      TermIsCross(p, k - 1);
      var vs := Vertices(p);
      assert vs[k - 1] == Vertex(p, k - 1);
      assert vs[Next(k - 1, |vs|)] == Vertex(p, Next(k - 1, |p| / 2));
      var prev, t := SumBelow(p, k - 1).value, Term(p, 2 * (k - 1)).value;
      assert SumBelow(p, k).value == prev + t;
    }
  }

  /** Over an odd list of 7 or more numbers the last round reads past the end: the area is NaN. */
  lemma OddAreaIsNaN(p: seq<real>)
    requires |p| % 2 == 1 && |p| >= 6
    ensures Area(p) == None
  {
    assert 2 * (Steps(p) - 1) == |p| - 1;
    assert !Defined(p, |p|);
    assert Term(p, |p| - 1) == None;
  }

  /**
   * Fewer than 6 numbers give 0; an even list gives |Σ Cross(v_k, v_k+1)| / 2, never negative;
   * an odd list of 7 or more numbers gives NaN.
   */
  lemma AreaCases(p: seq<real>)
    ensures |p| < 6 ==> Area(p) == Some(0.0)
    ensures |p| >= 6 && |p| % 2 == 0 ==>
      Area(p).Some? && Area(p).value == Abs(CyclicCross(Vertices(p))) / 2.0
    ensures |p| % 2 == 0 ==> Area(p).Some? && Area(p).value >= 0.0
    ensures |p| >= 6 && |p| % 2 == 1 ==> Area(p) == None
  {
    if |p| >= 6 {
      if |p| % 2 == 0 {
        SumIsPartialCross(p, |p| / 2);
        assert Steps(p) == |p| / 2;
      } else {
        OddAreaIsNaN(p);
      }
    }
  }

  /** The loop of shoelaceFormula. */
  method ShoelaceFormula(p: seq<real>) returns (area: Option<real>)
    ensures area == Area(p)
    ensures |p| % 2 == 0 ==> area.Some? && area.value >= 0.0
  {
    var n := |p|;
    if n < 6 {
      return Some(0.0);
    }
    var sum: Option<real> := Some(0.0);
    var i := 0;
    ghost var k: nat := 0;
    while i < n
      invariant i == 2 * k && k <= Steps(p)
      invariant sum == SumBelow(p, k)
    {
      sum := Plus(sum, Term(p, i));
      i, k := i + 2, k + 1;
    }
    assert sum == SumBelow(p, Steps(p));
    area := if sum.Some? then Some(Abs(sum.value) / 2.0) else None;
    AreaCases(p);
  }

  // Reversing the vertex order negates the cyclic sum, so the area is unchanged.

  function Reverse<T>(s: seq<T>): (r: seq<T>)
    ensures |r| == |s|
    ensures forall k :: 0 <= k < |s| ==> r[k] == s[|s| - 1 - k]
  {
    if s == [] then [] else Reverse(s[1..]) + [s[0]]
  }

  /** The flat list with its vertices in the opposite order. */
  function ReverseVertices(p: seq<real>): (r: seq<real>)
    requires |p| % 2 == 0
    ensures |r| == |p|
  {
    seq(|p|, i requires 0 <= i < |p| => p[2 * (|p| / 2 - 1 - i / 2) + i % 2])
  }

  /** The open chain Σ_{t<n-1} Cross(v_t, v_{t+1}). */
  function Chain(vs: seq<Point>): real
  {
    if |vs| < 2 then 0.0 else Cross(vs[0], vs[1]) + Chain(vs[1..])
  }

  lemma {:induction false} ChainSnoc(xs: seq<Point>, a: Point)
    requires |xs| >= 1
    ensures Chain(xs + [a]) == Chain(xs) + Cross(xs[|xs| - 1], a)
  {
    if |xs| >= 2 {
      assert (xs + [a])[1..] == xs[1..] + [a];
      ChainSnoc(xs[1..], a);
    } else {
      assert (xs + [a])[1..] == [a];
    }
  }

  lemma {:induction false} ChainReverse(vs: seq<Point>)
    ensures Chain(Reverse(vs)) == -Chain(vs)
  {
    if |vs| >= 2 {
      var rest := Reverse(vs[1..]);
      assert Reverse(vs) == rest + [vs[0]];
      ChainReverse(vs[1..]);
      ChainSnoc(rest, vs[0]);
      assert rest[|rest| - 1] == vs[1];
    } else if |vs| == 1 {
      assert Reverse(vs) == [vs[0]];
    }
  }

  lemma {:induction false} PartialCrossIsChain(vs: seq<Point>, k: nat)
    requires k < |vs|
    ensures PartialCross(vs, k) == Chain(vs[..k + 1])
  {
    if k > 0 {
      PartialCrossIsChain(vs, k - 1);
      assert vs[..k + 1] == vs[..k] + [vs[k]];
      ChainSnoc(vs[..k], vs[k]);
    }
  }

  lemma CyclicIsChainPlusClosing(vs: seq<Point>)
    requires |vs| >= 1
    ensures CyclicCross(vs) == Chain(vs) + Cross(vs[|vs| - 1], vs[0])
  {
    PartialCrossIsChain(vs, |vs| - 1);
    assert vs[..|vs|] == vs;
  }

  lemma CyclicCrossReverse(vs: seq<Point>)
    ensures CyclicCross(Reverse(vs)) == -CyclicCross(vs)
  {
    if |vs| >= 1 {
      CyclicIsChainPlusClosing(vs);
      CyclicIsChainPlusClosing(Reverse(vs));
      ChainReverse(vs);
    }
  }

  /** Vertex k of the reversed list is vertex m - 1 - k of the original. */
  lemma ReverseVertex(p: seq<real>, k: nat)
    requires |p| % 2 == 0 && k < |p| / 2
    ensures Vertex(ReverseVertices(p), k) == Vertex(p, |p| / 2 - 1 - k)
  {
    var r, m := ReverseVertices(p), |p| / 2;
    assert (2 * k) / 2 == k && (2 * k) % 2 == 0;
    assert (2 * k + 1) / 2 == k && (2 * k + 1) % 2 == 1;
    assert r[2 * k] == p[2 * (m - 1 - k)];
    assert r[2 * k + 1] == p[2 * (m - 1 - k) + 1];
  }

  lemma ReverseVerticesIsReverse(p: seq<real>)
    requires |p| % 2 == 0
    ensures Vertices(ReverseVertices(p)) == Reverse(Vertices(p))
  {
    var vs, ws := Vertices(ReverseVertices(p)), Reverse(Vertices(p));
    forall k | 0 <= k < |p| / 2
      ensures vs[k] == ws[k]
    {
      ReverseVertex(p, k);
    }
  }

  /** Reversing the winding direction of an even flat polygon leaves its shoelace area unchanged. */
  lemma AreaOfReverse(p: seq<real>)
    requires |p| % 2 == 0
    ensures Area(ReverseVertices(p)) == Area(p)
  {
    var r := ReverseVertices(p);
    AreaCases(p);
    AreaCases(r);
    if |p| >= 6 {
      ReverseVerticesIsReverse(p);
      CyclicCrossReverse(Vertices(p));
      assert Abs(CyclicCross(Vertices(r))) == Abs(CyclicCross(Vertices(p)));
    }
  }

  // ---------------------------------------------------------------------------
  // Centroid (calculateCentroid): the plain mean of the vertices

  function SumX(p: seq<real>, k: nat): real
    requires |p| % 2 == 0 && k <= |p| / 2
  {
    if k == 0 then 0.0 else SumX(p, k - 1) + Vertex(p, k - 1).x
  }

  function SumY(p: seq<real>, k: nat): real
    requires |p| % 2 == 0 && k <= |p| / 2
  {
    if k == 0 then 0.0 else SumY(p, k - 1) + Vertex(p, k - 1).y
  }

  /** The mean of the vertices (not the area-weighted centroid). */
  function Centroid(p: seq<real>): Point
    requires |p| % 2 == 0 && |p| >= 2
  {
    var m := (|p| / 2) as real;
    Point(SumX(p, |p| / 2) / m, SumY(p, |p| / 2) / m)
  }

  method CalculateCentroid(p: seq<real>) returns (c: Point)
    requires |p| % 2 == 0 && |p| >= 2
    ensures c == Centroid(p)
    ensures c.x * ((|p| / 2) as real) == SumX(p, |p| / 2)
    ensures c.y * ((|p| / 2) as real) == SumY(p, |p| / 2)
  {
    var xSum, ySum := 0.0, 0.0;
    var n := |p|;
    var i := 0;
    ghost var k: nat := 0;
    while i < n
      invariant i == 2 * k && k <= n / 2
      invariant xSum == SumX(p, k) && ySum == SumY(p, k)
    {
      xSum := xSum + p[i];
      ySum := ySum + p[i + 1];
      i, k := i + 2, k + 1;
    }
    c := Point(xSum / (n as real / 2.0), ySum / (n as real / 2.0));
    assert n as real / 2.0 == (n / 2) as real;
  }

  /** k copies of a, added up. */
  function Times(k: nat, a: real): real
  {
    if k == 0 then 0.0 else Times(k - 1, a) + a
  }

  lemma {:induction false} TimesIsProduct(k: nat, a: real)
    ensures Times(k, a) == (k as real) * a
  {
    if k > 0 {
      TimesIsProduct(k - 1, a);
      assert (k as real) * a == ((k - 1) as real) * a + a;
    }
  }

  lemma {:induction false} SumsWithin(p: seq<real>, k: nat, lo: Point, hi: Point)
    requires |p| % 2 == 0 && k <= |p| / 2
    requires forall t :: 0 <= t < |p| / 2 ==>
      lo.x <= Vertex(p, t).x <= hi.x && lo.y <= Vertex(p, t).y <= hi.y
    ensures Times(k, lo.x) <= SumX(p, k) <= Times(k, hi.x)
    ensures Times(k, lo.y) <= SumY(p, k) <= Times(k, hi.y)
  {
    if k > 0 {
      SumsWithin(p, k - 1, lo, hi);
      assert lo.x <= Vertex(p, k - 1).x <= hi.x && lo.y <= Vertex(p, k - 1).y <= hi.y;
    }
  }

  /** The centroid lies in every axis-aligned box that holds all the vertices. */
  lemma CentroidWithinBounds(p: seq<real>, lo: Point, hi: Point)
    requires |p| % 2 == 0 && |p| >= 2
    requires forall t :: 0 <= t < |p| / 2 ==>
      lo.x <= Vertex(p, t).x <= hi.x && lo.y <= Vertex(p, t).y <= hi.y
    ensures lo.x <= Centroid(p).x <= hi.x && lo.y <= Centroid(p).y <= hi.y
  {
    var n := |p| / 2;
    SumsWithin(p, n, lo, hi);
    MeanWithin(SumX(p, n), n, lo.x, hi.x);
    MeanWithin(SumY(p, n), n, lo.y, hi.y);
  }

  /** A sum of n values within [lo, hi] has its mean within [lo, hi]. */
  lemma MeanWithin(s: real, n: nat, lo: real, hi: real)
    requires n > 0 && Times(n, lo) <= s <= Times(n, hi)
    ensures lo <= s / (n as real) <= hi
  {
    TimesIsProduct(n, lo);
    TimesIsProduct(n, hi);
    DivideWithin(s, n as real, lo, hi);
  }

  lemma DivideWithin(s: real, m: real, lo: real, hi: real)
    requires m > 0.0 && m * lo <= s <= m * hi
    ensures lo <= s / m <= hi
  {
    assert s / m - lo == (s - m * lo) / m;
    assert hi - s / m == (m * hi - s) / m;
  }

  // ---------------------------------------------------------------------------
  // Side lengths (getSideLengths); `sqrt` stands for Math.sqrt

  /** Entry for index i: the edge to index i + 2 (mod |p|); None (NaN) when a read falls past the list. */
  function SideLength(p: seq<real>, i: int, sqrt: real -> real): Option<real>
    requires |p| > 0
  {
    var j, l := (i + 2) % |p|, (i + 3) % |p|;
    if Defined(p, i) && Defined(p, i + 1) && Defined(p, j) && Defined(p, l)
    then Some(sqrt(Sq(p[j] - p[i]) + Sq(p[l] - p[i + 1])))
    else None
  }

  function SideLengths(p: seq<real>, sqrt: real -> real): seq<Option<real>>
  {
    seq(Steps(p), k requires 0 <= k < Steps(p) => SideLength(p, 2 * k, sqrt))
  }

  function Sq(d: real): real
  {
    d * d
  }

  /** The squared distance, as `Math.pow(x2 - x1, 2) + Math.pow(y2 - y1, 2)`. */
  function Dist2(a: Point, b: Point): real
  {
    Sq(b.x - a.x) + Sq(b.y - a.y)
  }

  /** The loop of getSideLengths: one push per round. */
  method GetSideLengths(p: seq<real>, sqrt: real -> real) returns (lens: seq<Option<real>>)
    ensures lens == SideLengths(p, sqrt)
    ensures |lens| == Steps(p)
  {
    lens := [];
    var i := 0;
    ghost var k: nat := 0;
    while i < |p|
      invariant i == 2 * k && k <= Steps(p)
      invariant lens == SideLengths(p, sqrt)[..k]
    {
      lens := lens + [SideLength(p, i, sqrt)];
      i, k := i + 2, k + 1;
    }
    assert lens == SideLengths(p, sqrt)[..Steps(p)];
  }

  lemma SideLengthAt(p: seq<real>, k: nat, sqrt: real -> real)
    requires |p| % 2 == 0 && k < |p| / 2
    ensures SideLength(p, 2 * k, sqrt).Some?
    ensures SideLength(p, 2 * k, sqrt).value == sqrt(Dist2(Vertex(p, k), Vertex(p, Next(k, |p| / 2))))
  {
    WrapIndex(p, k);
    assert |p| == 2 * (|p| / 2);
    var i, j := 2 * k, 2 * Next(k, |p| / 2);
    var a, b := Vertex(p, k), Vertex(p, Next(k, |p| / 2));
    assert (i + 2) % |p| == j && (i + 3) % |p| == j + 1;
    assert a.x == p[i] && a.y == p[i + 1] && b.x == p[j] && b.y == p[j + 1];
  }

  /**
   * One entry per vertex; on an even list entry k is the length of the edge from vertex k to
   * vertex k + 1, wrapping, so the last entry is the last-to-first edge. On an odd list (which
   * a soft undo can leave behind) the last entry reads past the end and is NaN.
   */
  lemma SideLengthsPerVertex(p: seq<real>, sqrt: real -> real)
    ensures |SideLengths(p, sqrt)| == Steps(p)
    ensures |p| % 2 == 0 ==> |SideLengths(p, sqrt)| == |p| / 2
    ensures |p| % 2 == 0 ==> forall k :: 0 <= k < |p| / 2 ==>
      && SideLengths(p, sqrt)[k].Some?
      && SideLengths(p, sqrt)[k].value == sqrt(Dist2(Vertex(p, k), Vertex(p, Next(k, |p| / 2))))
    ensures |p| % 2 == 0 && |p| > 0 ==>
      SideLengths(p, sqrt)[|p| / 2 - 1].value == sqrt(Dist2(Vertex(p, |p| / 2 - 1), Vertex(p, 0)))
    ensures |p| % 2 == 1 ==> SideLengths(p, sqrt)[Steps(p) - 1] == None
  {
    if |p| % 2 == 0 {
      forall k | 0 <= k < |p| / 2
        ensures SideLengths(p, sqrt)[k].Some?
        ensures SideLengths(p, sqrt)[k].value == sqrt(Dist2(Vertex(p, k), Vertex(p, Next(k, |p| / 2))))
      {
        SideLengthAt(p, k, sqrt);
      }
    } else {
      assert 2 * (Steps(p) - 1) + 1 == |p|;
      assert !Defined(p, |p|);
    }
  }

  // ---------------------------------------------------------------------------
  // Worked examples

  const Square: seq<real> := [0.0, 0.0, 100.0, 0.0, 100.0, 100.0, 0.0, 100.0]

  /** Within the square's vertical extent (boundary rows excluded) the test is 0 <= x < 100. */
  lemma SquareRow(pt: Point)
    requires 0.0 < pt.y < 100.0
    ensures Inside(pt, Square) <==> 0.0 <= pt.x < 100.0
  {
    var q := Square;
    assert Steps(q) == 4;
    assert Trailing(q, 0) == 6 && Trailing(q, 2) == 0 && Trailing(q, 4) == 2 && Trailing(q, 6) == 4;
    assert EdgeCrosses(pt, q, 0, 6) <==> pt.x < 0.0;
    assert !EdgeCrosses(pt, q, 2, 0);
    assert EdgeCrosses(pt, q, 4, 2) <==> pt.x < 100.0;
    assert !EdgeCrosses(pt, q, 6, 4);
    assert CrossingsBelow(pt, q, 1) == (if pt.x < 0.0 then 1 else 0);
    assert CrossingsBelow(pt, q, 2) == CrossingsBelow(pt, q, 1);
    assert CrossingsBelow(pt, q, 3) == CrossingsBelow(pt, q, 2) + (if pt.x < 100.0 then 1 else 0);
    assert CrossingsBelow(pt, q, 4) == CrossingsBelow(pt, q, 3);
  }

  lemma SquareExamples()
    ensures Inside(Point(50.0, 50.0), Square)
    ensures !Inside(Point(150.0, 50.0), Square)
    ensures RectInside(Rect(10.0, 10.0, 20.0, 20.0, 0.0), Square)
    ensures !RectInside(Rect(90.0, 90.0, 20.0, 20.0, 0.0), Square)
  {
    SquareRow(Point(50.0, 50.0));
    SquareRow(Point(150.0, 50.0));
    SquareRow(Point(10.0, 10.0));
    SquareRow(Point(30.0, 10.0));
    SquareRow(Point(30.0, 30.0));
    SquareRow(Point(10.0, 30.0));
    SquareRow(Point(110.0, 90.0));
  }

  /** The cyclic cross sum of a quadrilateral, edge by edge. */
  lemma QuadCross(a: Point, b: Point, c: Point, d: Point)
    ensures CyclicCross([a, b, c, d]) == Cross(a, b) + Cross(b, c) + Cross(c, d) + Cross(d, a)
  {
    var vs := [a, b, c, d];
    assert PartialCross(vs, 1) == Cross(a, b);
    assert PartialCross(vs, 2) == PartialCross(vs, 1) + Cross(b, c);
    assert PartialCross(vs, 3) == PartialCross(vs, 2) + Cross(c, d);
  }

  /** The 100 x 100 square has area 10000. */
  lemma SquareArea()
    ensures Area(Square) == Some(10000.0)
  {
    var a, b, c, d := Point(0.0, 0.0), Point(100.0, 0.0), Point(100.0, 100.0), Point(0.0, 100.0);
    SquareVertices();
    QuadCross(a, b, c, d);
    assert Cross(a, b) + Cross(b, c) + Cross(c, d) + Cross(d, a) == 20000.0;
    AreaCases(Square);
  }

  lemma SquareVertices()
    ensures Vertices(Square) == [Point(0.0, 0.0), Point(100.0, 0.0), Point(100.0, 100.0), Point(0.0, 100.0)]
  {
  }
}
