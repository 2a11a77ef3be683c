/** BoundaryComp: how far each turbine is inside the farm's boundary.

    A boundary is either a convex polygon, given by its vertices and the unit
    normal of each face, or a circle. For the polygon the output holds one
    signed distance per turbine and face, positive on the inner side; for the
    circle, one value `r^2 - |p - c|^2` per turbine, positive inside. */
module Boundary {
  import opened Linear
  import opened Layouts
  import opened Outcomes

  datatype Point = Point(x: real, y: real)

  /** `np.vdot` of two 2-vectors. */
  function Dot(a: Point, b: Point): real
  {
    a.x * b.x + a.y * b.y
  }

  function Scale(a: real, b: Point): Point
  {
    Point(a * b.x, a * b.y)
  }

  /** Turbine `i` of the layout as a point. */
  function Location(p: Layout, i: nat): Point
    requires p.Valid() && i < p.Count()
  {
    Point(p.x[i], p.y[i])
  }

  // ---------------------------------------------------------------------
  // Choosing the boundary

  /** The boundary the component is built for. */
  datatype Kind = PolygonKind | CircleKind

  const VerticesError: string := "nVertices in BoundaryComp must be greater than 0"

  /** The kind the constructor picks as written: more than one vertex is a
      polygon, one is a circle. For fewer it builds the error without raising
      it and picks no kind (`None`); its next test of the kind then reads a
      local variable that was never bound, so the `ValueError` it meant to
      report is never seen. */
  function KindAsWritten(nVertices: int): (kind: Option<Kind>)
    ensures kind == Some(PolygonKind) <==> nVertices > 1
    ensures kind == Some(CircleKind) <==> nVertices == 1
    ensures kind == None <==> nVertices <= 0
  {
    if nVertices > 1 then Some(PolygonKind)
    else if nVertices == 1 then Some(CircleKind)
    else None
  }

  /** The constructor with its error raised: `ValueError` exactly when there
      is no vertex, and otherwise the kind as written. */
  function KindOf(nVertices: int): (r: Result<Kind>)
    ensures r.ValueError? <==> nVertices <= 0
    ensures r.Ok? ==> Some(r.value) == KindAsWritten(nVertices)
  {
    match KindAsWritten(nVertices)
    case Some(kind) => Ok(kind)
    case None => ValueError(VerticesError)
  }

  /** With no vertex the constructor as written picks no kind and reports
      no `ValueError`, where the error it builds says it should. */
  lemma UnraisedVerticesError()
    ensures KindAsWritten(0) == None
    ensures KindOf(0) == ValueError(VerticesError)
  {
  }

  // ---------------------------------------------------------------------
  // Polygon

  /** `calculate_distance` for one point and one face: the projection of the
      vector from the point to the face's first vertex onto the face normal,
      dotted with the normal again. */
  function FaceDistance(point: Point, vertex: Point, normal: Point): real
  {
    var pa := Point(vertex.x - point.x, vertex.y - point.y);
    Dot(Scale(Dot(pa, normal), normal), normal)
  }

  /** The face distance is the projection times the squared length of the
      normal. */
  lemma FaceDistanceValue(point: Point, vertex: Point, normal: Point)
    ensures FaceDistance(point, vertex, normal)
         == Dot(Point(vertex.x - point.x, vertex.y - point.y), normal) * Dot(normal, normal)
  {
  }

  /** With a unit normal the face distance is the signed distance from the
      point to the face's line, and in general its sign tells the side of the
      line the point is on (for a normal of positive length): not negative
      exactly when the point is on the side the normal points away from. */
  lemma FaceDistanceSign(point: Point, vertex: Point, normal: Point)
    ensures var pa := Point(vertex.x - point.x, vertex.y - point.y);
      && (Dot(normal, normal) == 1.0 ==> FaceDistance(point, vertex, normal) == Dot(pa, normal))
      && (Dot(normal, normal) > 0.0 ==> (FaceDistance(point, vertex, normal) >= 0.0 <==> Dot(pa, normal) >= 0.0))
  {
    var pa := Point(vertex.x - point.x, vertex.y - point.y);
    FaceDistanceValue(point, vertex, normal);
    if Dot(normal, normal) > 0.0 {
      SignOfProduct(Dot(pa, normal), Dot(normal, normal));
    }
  }

  lemma SignOfProduct(a: real, b: real)
    requires b > 0.0
    ensures a * b >= 0.0 <==> a >= 0.0
  {
    if a < 0.0 {
      assert a * b == -((-a) * b);
    }
  }

  /** A polygon boundary: face `j` starts at `vertices[j]` and has outward
      normal `normals[j]`. */
  predicate ValidPolygon(vertices: seq<Point>, normals: seq<Point>)
  {
    |normals| == |vertices|
  }

  /** `face_distance[i, j]` for turbine `i` and face `j`. */
  function FaceDistanceRow(point: Point, vertices: seq<Point>, normals: seq<Point>): (row: Vector)
    requires ValidPolygon(vertices, normals)
    ensures |row| == |vertices|
  {
    seq(|vertices|, j requires 0 <= j < |vertices| => FaceDistance(point, vertices[j], normals[j]))
  }

  /** `calculate_distance` without the inside flags. */
  function FaceDistances(p: Layout, vertices: seq<Point>, normals: seq<Point>): (m: Matrix)
    requires p.Valid() && ValidPolygon(vertices, normals)
    ensures IsMatrix(m, p.Count(), |vertices|)
  {
    seq(p.Count(), i requires 0 <= i < p.Count() => FaceDistanceRow(Location(p, i), vertices, normals))
  }

  /** `1.0` when no face distance of the row is negative, else `0.0`. */
  function InsideFlag(row: Vector): (flag: real)
    ensures flag == 1.0 || flag == 0.0
  {
    if forall j :: 0 <= j < |row| ==> row[j] >= 0.0 then 1.0 else 0.0
  }

  /** A turbine is flagged inside exactly when it lies on the inner side of
      every face (every normal having positive length). */
  lemma InsideFlagMeansInnerSide(point: Point, vertices: seq<Point>, normals: seq<Point>)
    requires ValidPolygon(vertices, normals)
    requires forall j :: 0 <= j < |normals| ==> Dot(normals[j], normals[j]) > 0.0
    ensures InsideFlag(FaceDistanceRow(point, vertices, normals)) == 1.0
        <==> forall j :: 0 <= j < |vertices| ==>
               Dot(Point(vertices[j].x - point.x, vertices[j].y - point.y), normals[j]) >= 0.0
  {
    var row := FaceDistanceRow(point, vertices, normals);
    forall j | 0 <= j < |vertices|
      ensures row[j] >= 0.0 <==> Dot(Point(vertices[j].x - point.x, vertices[j].y - point.y), normals[j]) >= 0.0
    {
      FaceDistanceSign(point, vertices[j], normals[j]);
    }
  }

  /** The two results of `calculate_distance`: the face distances, and with
      `return_bool` also the inside flag of every point. */
  datatype DistanceResult = Distances(faceDistance: Matrix) | DistancesAndInside(faceDistance: Matrix, inside: Vector)

  /** `calculate_distance(points, vertices, unit_normals, return_bool)`, loop
      by loop. */
  method CalculateDistance(p: Layout, vertices: seq<Point>, normals: seq<Point>, returnBool: bool)
    returns (r: DistanceResult)
    requires p.Valid() && ValidPolygon(vertices, normals)
    ensures r.faceDistance == FaceDistances(p, vertices, normals)
    ensures r.DistancesAndInside? <==> returnBool
    ensures returnBool ==> |r.inside| == p.Count()
    ensures returnBool ==> forall i :: 0 <= i < p.Count() ==>
      (r.inside[i] == 1.0 <==> forall j :: 0 <= j < |vertices| ==> r.faceDistance[i][j] >= 0.0)
  {
    var n, nV := p.Count(), |vertices|;
    var faceDistance: Matrix := [];
    var inside: Vector := [];
    for i := 0 to n
      invariant |faceDistance| == i && |inside| == i
      invariant forall i' :: 0 <= i' < i ==> faceDistance[i'] == FaceDistanceRow(Location(p, i'), vertices, normals)
      invariant forall i' :: 0 <= i' < i ==> inside[i'] == InsideFlag(faceDistance[i'])
    {
      var row: Vector := [];
      for j := 0 to nV
        invariant |row| == j
        invariant forall j' :: 0 <= j' < j ==> row[j'] == FaceDistance(Location(p, i), vertices[j'], normals[j'])
      {
        var pa := Point(vertices[j].x - p.x[i], vertices[j].y - p.y[i]);
        var dVec := Scale(Dot(pa, normals[j]), normals[j]);
        row := row + [Dot(dVec, normals[j])];
      }
      var flag := 0.0;
      if forall j :: 0 <= j < nV ==> row[j] >= 0.0 {
        flag := 1.0;
      }
      faceDistance := faceDistance + [row];
      inside := inside + [flag];
    }
    if returnBool {
      r := DistancesAndInside(faceDistance, inside);
    } else {
      r := Distances(faceDistance);
    }
  }

  /** The derivative of a face distance with respect to one coordinate of the
      point, as `linearize` writes it: `dpa` is `(-1, 0)` for x and `(0, -1)`
      for y. */
  function FaceSlope(normal: Point, dpa: Point): real
  {
    Dot(Scale(Dot(dpa, normal), normal), normal)
  }

  /** Row `i * nVertices + j` of the polygon Jacobian belongs to turbine `i`
      and face `j`. */
  function FaceRow(n: nat, nVertices: nat, i: nat, j: nat): (r: nat)
    requires i < n && j < nVertices
    ensures r < n * nVertices
    ensures r / nVertices == i && r % nVertices == j
  {
    FaceRowBounds(n, nVertices, i, j);
    i * nVertices + j
  }

  /** Row `r` of the polygon Jacobian for one coordinate: the face's slope in
      the column of the turbine the row belongs to. */
  function PolygonRow(n: nat, normals: seq<Point>, r: nat, dpa: Point): (row: Vector)
    requires |normals| > 0
    ensures |row| == n
  {
    var i, j := r / |normals|, r % |normals|;
    seq(n, c => if c == i then FaceSlope(normals[j], dpa) else 0.0)
  }

  lemma FaceRowBounds(n: nat, nVertices: nat, i: nat, j: nat)
    requires i < n && j < nVertices
    ensures i * nVertices + j < n * nVertices
    ensures (i * nVertices + j) / nVertices == i && (i * nVertices + j) % nVertices == j
  {
    MultiplyMonotone(i + 1, n, nVertices);
    DivModUnique(i * nVertices + j, nVertices, i, j);
  }

  lemma MultiplyMonotone(a: nat, b: nat, c: nat)
    requires a <= b
    ensures a * c <= b * c
  {
  }

  lemma DivModUnique(r: nat, d: nat, q: nat, m: nat)
    requires m < d && r == q * d + m
    ensures r / d == q && r % d == m
  {
    var q', m' := r / d, r % d;
    assert q' * d + m' == q * d + m;
    if q' < q {
      MultiplyMonotone(q' + 1, q, d);
      assert false;
    } else if q' > q {
      MultiplyMonotone(q + 1, q', d);
      assert false;
    }
  }

  datatype Jacobian = Jacobian(dDistancedX: Matrix, dDistancedY: Matrix)

  /** One row per turbine and face and one column per turbine; the row of
      turbine `i` and face `j` holds the face's slope in column `i` alone. */
  ghost predicate IsPolygonJacobian(p: Layout, normals: seq<Point>, J: Jacobian)
    requires p.Valid()
  {
    var n, nV := p.Count(), |normals|;
    && IsMatrix(J.dDistancedX, n * nV, n)
    && IsMatrix(J.dDistancedY, n * nV, n)
    && forall i, j, c :: 0 <= i < n && 0 <= j < nV && 0 <= c < n ==>
      && J.dDistancedX[FaceRow(n, nV, i, j)][c] == (if c == i then FaceSlope(normals[j], Point(-1.0, 0.0)) else 0.0)
      && J.dDistancedY[FaceRow(n, nV, i, j)][c] == (if c == i then FaceSlope(normals[j], Point(0.0, -1.0)) else 0.0)
  }

  /** `BoundaryComp.linearize` for a polygon. */
  function PolygonJacobian(p: Layout, normals: seq<Point>): (J: Jacobian)
    requires p.Valid() && |normals| > 0
    ensures IsPolygonJacobian(p, normals, J)
  {
    var n, nV := p.Count(), |normals|;
    var J := Jacobian(
      seq(n * nV, r requires 0 <= r < n * nV => PolygonRow(n, normals, r, Point(-1.0, 0.0))),
      seq(n * nV, r requires 0 <= r < n * nV => PolygonRow(n, normals, r, Point(0.0, -1.0))));
    assert forall i, j, c :: 0 <= i < n && 0 <= j < nV && 0 <= c < n ==>
      && J.dDistancedX[FaceRow(n, nV, i, j)][c] == (if c == i then FaceSlope(normals[j], Point(-1.0, 0.0)) else 0.0)
      && J.dDistancedY[FaceRow(n, nV, i, j)][c] == (if c == i then FaceSlope(normals[j], Point(0.0, -1.0)) else 0.0) by {
      forall i, j, c | 0 <= i < n && 0 <= j < nV && 0 <= c < n
        ensures J.dDistancedX[FaceRow(n, nV, i, j)][c] == (if c == i then FaceSlope(normals[j], Point(-1.0, 0.0)) else 0.0)
        ensures J.dDistancedY[FaceRow(n, nV, i, j)][c] == (if c == i then FaceSlope(normals[j], Point(0.0, -1.0)) else 0.0)
      {
        FaceRowBounds(n, nV, i, j);
      }
    }
    J
  }

  /** Moving the point by `(hx, hy)` moves a face distance by exactly the
      slopes times the step: the face distance is linear in the point. */
  lemma FaceDistanceShift(point: Point, vertex: Point, normal: Point, hx: real, hy: real)
    ensures FaceDistance(Point(point.x + hx, point.y + hy), vertex, normal)
      == FaceDistance(point, vertex, normal)
         + Directional(FaceSlope(normal, Point(-1.0, 0.0)), FaceSlope(normal, Point(0.0, -1.0)), hx, hy)
  {
    var shifted := Point(point.x + hx, point.y + hy);
    var pa, pa' := Point(vertex.x - point.x, vertex.y - point.y), Point(vertex.x - shifted.x, vertex.y - shifted.y);
    FaceDistanceValue(point, vertex, normal);
    FaceDistanceValue(shifted, vertex, normal);
    DotShift(point, vertex, normal, hx, hy);
    FaceSlopeValue(normal);
    LinearShift(FaceDistance(point, vertex, normal), FaceDistance(shifted, vertex, normal),
                Dot(pa, normal), Dot(pa', normal), Dot(normal, normal), normal.x, normal.y, hx, hy,
                FaceSlope(normal, Point(-1.0, 0.0)), FaceSlope(normal, Point(0.0, -1.0)));
  }

  /** Moving the point by `(hx, hy)` moves the vector to the vertex by
      `(-hx, -hy)`. */
  lemma DotShift(point: Point, vertex: Point, normal: Point, hx: real, hy: real)
    ensures var shifted := Point(point.x + hx, point.y + hy);
      Dot(Point(vertex.x - shifted.x, vertex.y - shifted.y), normal)
        == Dot(Point(vertex.x - point.x, vertex.y - point.y), normal) - hx * normal.x - hy * normal.y
  {
  }

  lemma FaceSlopeValue(normal: Point)
    ensures FaceSlope(normal, Point(-1.0, 0.0)) == -normal.x * Dot(normal, normal)
    ensures FaceSlope(normal, Point(0.0, -1.0)) == -normal.y * Dot(normal, normal)
  {
  }

  lemma LinearShift(d: real, d': real, a: real, a': real, nn: real, nx: real, ny: real, hx: real, hy: real, sx: real, sy: real)
    requires d == a * nn && d' == a' * nn && a' == a - hx * nx - hy * ny
    requires sx == -nx * nn && sy == -ny * nn
    ensures d' == d + Directional(sx, sy, hx, hy)
  {
  }

  /** Any Jacobian of the polygon shape is the derivative of the face
      distances: moving turbine `k` by `(hx, hy)` changes the distance of
      turbine `i` to face `j` by exactly the first-order term of row
      `i * nVertices + j`. */
  lemma PolygonRowsAreDerivative(p: Layout, vertices: seq<Point>, normals: seq<Point>, J: Jacobian, k: nat, hx: real, hy: real)
    requires p.Valid() && ValidPolygon(vertices, normals) && k < p.Count()
    requires IsPolygonJacobian(p, normals, J)
    ensures forall i, j :: 0 <= i < p.Count() && 0 <= j < |vertices| ==>
      FaceDistances(p.Shift(k, hx, hy), vertices, normals)[i][j]
        == FaceDistances(p, vertices, normals)[i][j]
           + Directional(J.dDistancedX[FaceRow(p.Count(), |vertices|, i, j)][k], J.dDistancedY[FaceRow(p.Count(), |vertices|, i, j)][k], hx, hy)
  {
    var n, nV := p.Count(), |vertices|;
    forall i, j | 0 <= i < n && 0 <= j < nV
      ensures FaceDistances(p.Shift(k, hx, hy), vertices, normals)[i][j]
        == FaceDistances(p, vertices, normals)[i][j]
           + Directional(J.dDistancedX[FaceRow(n, nV, i, j)][k], J.dDistancedY[FaceRow(n, nV, i, j)][k], hx, hy)
    {
      var point := Location(p, i);
      if i == k {
        assert Location(p.Shift(k, hx, hy), i) == Point(point.x + hx, point.y + hy);
        FaceDistanceShift(point, vertices[j], normals[j], hx, hy);
      } else {
        assert Location(p.Shift(k, hx, hy), i) == point;
      }
    }
  }

  // ---------------------------------------------------------------------
  // Circle

  /** `r^2 - ((x - xc)^2 + (y - yc)^2)` for every turbine: positive strictly
      inside the circle, zero on the rim, negative outside. */
  function CircleDistances(p: Layout, center: Point, radius: real): (d: Vector)
    requires p.Valid()
    ensures |d| == p.Count()
    ensures forall i :: 0 <= i < p.Count() ==>
      (d[i] > 0.0 <==> Square(p.x[i] - center.x) + Square(p.y[i] - center.y) < Square(radius))
    ensures forall i :: 0 <= i < p.Count() ==>
      (d[i] == 0.0 <==> Square(p.x[i] - center.x) + Square(p.y[i] - center.y) == Square(radius))
    ensures forall i :: 0 <= i < p.Count() ==>
      (d[i] < 0.0 <==> Square(p.x[i] - center.x) + Square(p.y[i] - center.y) > Square(radius))
  {
    seq(p.Count(), i requires 0 <= i < p.Count() =>
      Square(radius) - (Square(p.x[i] - center.x) + Square(p.y[i] - center.y)))
  }

  /** `BoundaryComp.linearize` for a circle: `eye(n) * (-2 (x - xc))` and the
      same in `y`. */
  function CircleJacobian(p: Layout, center: Point): (J: Jacobian)
    requires p.Valid()
    ensures IsMatrix(J.dDistancedX, p.Count(), p.Count()) && IsMatrix(J.dDistancedY, p.Count(), p.Count())
  {
    Jacobian(
      Diagonal(seq(p.Count(), i requires 0 <= i < p.Count() => -2.0 * (p.x[i] - center.x))),
      Diagonal(seq(p.Count(), i requires 0 <= i < p.Count() => -2.0 * (p.y[i] - center.y))))
  }

  /** The circle's value for one point moves by the slopes times the step,
      less the squared step. */
  lemma CircleShift(x: real, y: real, center: Point, radius: real, hx: real, hy: real)
    ensures Square(radius) - (Square(x + hx - center.x) + Square(y + hy - center.y))
      == Square(radius) - (Square(x - center.x) + Square(y - center.y))
         + Directional(-2.0 * (x - center.x), -2.0 * (y - center.y), hx, hy) - (hx * hx + hy * hy)
  {
  }

  /** `CircleJacobian` is the derivative of `CircleDistances`: moving turbine
      `k` by `(hx, hy)` changes every turbine's value by the first-order term
      of column `k`, less `hx^2 + hy^2` for turbine `k` itself. */
  lemma CircleJacobianIsDerivative(p: Layout, center: Point, radius: real, k: nat, hx: real, hy: real)
    requires p.Valid() && k < p.Count()
    ensures var J := CircleJacobian(p, center);
      forall i :: 0 <= i < p.Count() ==>
        CircleDistances(p.Shift(k, hx, hy), center, radius)[i]
          == CircleDistances(p, center, radius)[i]
             + Directional(J.dDistancedX[i][k], J.dDistancedY[i][k], hx, hy)
             - (if i == k then hx * hx + hy * hy else 0.0)
  {
    var J := CircleJacobian(p, center);
    forall i | 0 <= i < p.Count()
      ensures CircleDistances(p.Shift(k, hx, hy), center, radius)[i]
          == CircleDistances(p, center, radius)[i]
             + Directional(J.dDistancedX[i][k], J.dDistancedY[i][k], hx, hy)
             - (if i == k then hx * hx + hy * hy else 0.0)
    {
      if i == k {
        CircleShift(p.x[i], p.y[i], center, radius, hx, hy);
      }
    }
  }

  /** A circle of radius 10 about the origin: 100 at the centre, 0 on the
      rim, -300 at distance 20. */
  lemma CircleExample()
    ensures CircleDistances(Layout([0.0, 6.0, 20.0], [0.0, 8.0, 0.0]), Point(0.0, 0.0), 10.0) == [100.0, 0.0, -300.0]
  {
  }

  // ---------------------------------------------------------------------
  // The component

  /** The boundary of a built component. */
  datatype Shape = Polygon(vertices: seq<Point>, normals: seq<Point>) | Circle(center: Point, radius: real)
  {
    predicate Valid()
    {
      match this
      case Polygon(vertices, normals) => ValidPolygon(vertices, normals) && |vertices| > 1
      case Circle(_, _) => true
    }

    function Kind(): Kind
    {
      if Polygon? then PolygonKind else CircleKind
    }

    /** The number of vertices the component is built with. */
    function VertexCount(): nat
    {
      if Polygon? then |vertices| else 1
    }
  }

  /** Every valid shape is the one the constructor builds for its number of
      vertices. */
  lemma ShapeMatchesKind(shape: Shape)
    requires shape.Valid()
    ensures KindOf(shape.VertexCount()) == Ok(shape.Kind())
  {
  }

  /** `boundaryDistances`: a matrix for a polygon, a vector for a circle. */
  datatype Output = FaceOutput(faceDistance: Matrix) | CircleOutput(distance: Vector)

  /** `BoundaryComp.solve_nonlinear`. */
  function Solve(shape: Shape, p: Layout): (o: Output)
    requires shape.Valid() && p.Valid()
    ensures shape.Polygon? <==> o.FaceOutput?
    ensures o.FaceOutput? ==> IsMatrix(o.faceDistance, p.Count(), |shape.vertices|)
    ensures o.CircleOutput? ==> |o.distance| == p.Count()
  {
    match shape
    case Polygon(vertices, normals) => FaceOutput(FaceDistances(p, vertices, normals))
    case Circle(center, radius) => CircleOutput(CircleDistances(p, center, radius))
  }

  /** `BoundaryComp.linearize`. */
  function Linearize(shape: Shape, p: Layout): (J: Jacobian)
    requires shape.Valid() && p.Valid()
    ensures shape.Polygon? ==> IsPolygonJacobian(p, shape.normals, J)
    ensures shape.Circle? ==> J == CircleJacobian(p, shape.center)
  {
    match shape
    case Polygon(_, normals) => PolygonJacobian(p, normals)
    case Circle(center, _) => CircleJacobian(p, center)
  }

  /** The component's Jacobian is the derivative of its output, for either
      shape. */
  lemma LinearizeIsDerivative(shape: Shape, p: Layout, k: nat, hx: real, hy: real)
    requires shape.Valid() && p.Valid() && k < p.Count()
    ensures var J, o, o' := Linearize(shape, p), Solve(shape, p), Solve(shape, p.Shift(k, hx, hy));
      && (shape.Polygon? ==>
            forall i, j :: 0 <= i < p.Count() && 0 <= j < |shape.vertices| ==>
              o'.faceDistance[i][j]
                == o.faceDistance[i][j]
                   + Directional(J.dDistancedX[FaceRow(p.Count(), |shape.vertices|, i, j)][k],
                                 J.dDistancedY[FaceRow(p.Count(), |shape.vertices|, i, j)][k], hx, hy))
      && (shape.Circle? ==>
            forall i :: 0 <= i < p.Count() ==>
              o'.distance[i]
                == o.distance[i] + Directional(J.dDistancedX[i][k], J.dDistancedY[i][k], hx, hy)
                   - (if i == k then hx * hx + hy * hy else 0.0))
  {
    match shape
    case Polygon(vertices, normals) =>
      PolygonRowsAreDerivative(p, vertices, normals, Linearize(shape, p), k, hx, hy);
    case Circle(center, radius) =>
      CircleJacobianIsDerivative(p, center, radius, k, hx, hy);
  }

  /** The unit square with its outward normals, and turbines at its centre and
      at x = 2: the centre is half a unit inside every face, the other point
      is one unit outside the right face. */
  lemma SquareExample()
    ensures var vertices := [Point(0.0, 0.0), Point(1.0, 0.0), Point(1.0, 1.0), Point(0.0, 1.0)];
      var normals := [Point(0.0, -1.0), Point(1.0, 0.0), Point(0.0, 1.0), Point(-1.0, 0.0)];
      var d := FaceDistances(Layout([0.5, 2.0], [0.5, 0.5]), vertices, normals);
      && d[0] == [0.5, 0.5, 0.5, 0.5]
      && d[1] == [0.5, -1.0, 0.5, 2.0]
      && InsideFlag(d[0]) == 1.0 && InsideFlag(d[1]) == 0.0
  {
    var vertices := [Point(0.0, 0.0), Point(1.0, 0.0), Point(1.0, 1.0), Point(0.0, 1.0)];
    var normals := [Point(0.0, -1.0), Point(1.0, 0.0), Point(0.0, 1.0), Point(-1.0, 0.0)];
    var d := FaceDistances(Layout([0.5, 2.0], [0.5, 0.5]), vertices, normals);
    assert d[1][1] == -1.0;
  }
}
