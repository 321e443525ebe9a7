/** The flat meshes of decals: the subdivided grid an image is stretched over, and an imported outline fitted into
    its rectangle. */
module DecalGeometry {
  import opened Rows
  import opened Space

  datatype Uv = Uv(u: real, v: real)

  /** Four vertex indices in the order they are walked around. */
  datatype Face = Face(p: int, q: int, r: int, s: int)

  datatype Grid = Grid(vertices: seq<Vec3>, faces: seq<Face>, uvs: seq<Uv>)

  // ----- the grid

  function Cuts(subdivisions: int): nat {
    var capped := if subdivisions < 128 then subdivisions else 128;
    if capped > 4 then capped else 4
  }

  /** The position of grid point (row, col) in the vertex list. */
  function PointIndex(cuts: nat, row: nat, col: nat): int {
    RowStart(cuts + 1, row) + col
  }

  function Share(k: nat, cuts: nat): real
    requires cuts > 0
  {
    k as real / cuts as real
  }

  /** A coordinate from a share of the length, measured from its middle. */
  function Along(share: real, length: real): real {
    (share - 0.5) * length
  }

  function PointAt(cuts: nat, width: real, height: real, row: nat, col: nat): Vec3
    requires cuts > 0
  {
    Vec3(Along(Share(col, cuts), width), Along(Share(row, cuts), height), 0.0)
  }

  function FaceAt(cuts: nat, row: nat, col: nat): Face {
    Face(PointIndex(cuts, row, col), PointIndex(cuts, row, col + 1), PointIndex(cuts, row + 1, col + 1),
      PointIndex(cuts, row + 1, col))
  }

  function RowOfPoints(cuts: nat, width: real, height: real, row: nat, n: nat): (r: seq<Vec3>)
    requires cuts > 0
    ensures |r| == n
  {
    if n == 0 then [] else RowOfPoints(cuts, width, height, row, n - 1) + [PointAt(cuts, width, height, row, n - 1)]
  }

  function Points(cuts: nat, width: real, height: real, rows: nat): seq<Vec3>
    requires cuts > 0
  {
    if rows == 0 then []
    else Points(cuts, width, height, rows - 1) + RowOfPoints(cuts, width, height, rows - 1, cuts + 1)
  }

  function RowOfUvs(cuts: nat, row: nat, n: nat): (r: seq<Uv>)
    requires cuts > 0
    ensures |r| == n
  {
    if n == 0 then [] else RowOfUvs(cuts, row, n - 1) + [Uv(Share(n - 1, cuts), Share(row, cuts))]
  }

  function Uvs(cuts: nat, rows: nat): seq<Uv>
    requires cuts > 0
  {
    if rows == 0 then [] else Uvs(cuts, rows - 1) + RowOfUvs(cuts, rows - 1, cuts + 1)
  }

  function RowOfFaces(cuts: nat, row: nat, n: nat): (r: seq<Face>)
    ensures |r| == n
  {
    if n == 0 then [] else RowOfFaces(cuts, row, n - 1) + [FaceAt(cuts, row, n - 1)]
  }

  function Faces(cuts: nat, rows: nat): seq<Face> {
    if rows == 0 then [] else Faces(cuts, rows - 1) + RowOfFaces(cuts, rows - 1, cuts)
  }

  /** The mesh as specified: every grid point once, row by row, and every cell as one face. */
  function GridOf(subdivisions: int, width: real, height: real): Grid {
    var cuts := Cuts(subdivisions);
    Grid(Points(cuts, width, height, cuts + 1), Faces(cuts, cuts), Uvs(cuts, cuts + 1))
  }

  method CreateGrid(subdivisions: int, width: real, height: real) returns (grid: Grid)
    ensures grid == GridOf(subdivisions, width, height)
  {
    var cuts := Cuts(subdivisions);
    var vertices: seq<Vec3>, uvs: seq<Uv> := [], [];
    for row := 0 to cuts + 1
      invariant vertices == Points(cuts, width, height, row) && uvs == Uvs(cuts, row)
    {
      vertices, uvs := AddRow(cuts, width, height, row, vertices, uvs);
    }
    var faces := ListFaces(cuts);
    grid := Grid(vertices, faces, uvs);
  }

  method AddRow(cuts: nat, width: real, height: real, row: nat, earlier: seq<Vec3>, earlierUvs: seq<Uv>)
    returns (vertices: seq<Vec3>, uvs: seq<Uv>)
    requires cuts > 0
    ensures vertices == earlier + RowOfPoints(cuts, width, height, row, cuts + 1)
    ensures uvs == earlierUvs + RowOfUvs(cuts, row, cuts + 1)
  {
    vertices, uvs := earlier, earlierUvs;
    var v := Share(row, cuts);
    var y := Along(v, height);
    for col := 0 to cuts + 1
      invariant vertices == earlier + RowOfPoints(cuts, width, height, row, col)
      invariant uvs == earlierUvs + RowOfUvs(cuts, row, col)
    {
      hide Share, Along;
      var u := Share(col, cuts);
      var x := Along(u, width);
      vertices := vertices + [Vec3(x, y, 0.0)];
      uvs := uvs + [Uv(u, v)];
    }
  }

  method ListFaces(cuts: nat) returns (faces: seq<Face>)
    ensures faces == Faces(cuts, cuts)
  {
    faces := [];
    var rowWidth := cuts + 1;
    for row := 0 to cuts
      invariant faces == Faces(cuts, row)
    {
      ghost var earlier := faces;
      for col := 0 to cuts
        invariant faces == earlier + RowOfFaces(cuts, row, col)
      {
        var a := row * rowWidth + col;
        var b := a + 1;
        var c := a + rowWidth;
        var d := c + 1;
        CellCorners(cuts, row, col);
        assert a == PointIndex(cuts, row, col);
        faces := faces + [Face(a, b, d, c)];
      }
    }
  }

  lemma CellCorners(cuts: nat, row: nat, col: nat)
    ensures PointIndex(cuts, row, col + 1) == PointIndex(cuts, row, col) + 1
    ensures PointIndex(cuts, row + 1, col) == PointIndex(cuts, row, col) + cuts + 1
    ensures PointIndex(cuts, row + 1, col + 1) == PointIndex(cuts, row, col) + cuts + 2
  {
    NextRow(cuts + 1, row);
    hide RowStart;
  }

  // ----- the index arithmetic is right

  lemma {:induction false} RowOfPointsAt(cuts: nat, width: real, height: real, row: nat, n: nat, col: nat)
    requires cuts > 0 && col < n
    ensures RowOfPoints(cuts, width, height, row, n)[col] == PointAt(cuts, width, height, row, col)
  {
    hide PointAt;
    if col < n - 1 {
      RowOfPointsAt(cuts, width, height, row, n - 1, col);
    }
  }

  lemma {:induction false} PointsCount(cuts: nat, width: real, height: real, rows: nat)
    requires cuts > 0
    ensures |Points(cuts, width, height, rows)| == RowStart(cuts + 1, rows)
  {
    assert RowStart(cuts + 1, 0) == 0;
    if rows > 0 {
      NextRow(cuts + 1, rows - 1);
      hide RowStart;
      PointsCount(cuts, width, height, rows - 1);
    }
  }

  /** The list really holds grid point (row, col) at its computed index. */
  lemma {:induction false} PointIsAtIndex(cuts: nat, width: real, height: real, rows: nat, row: nat, col: nat)
    requires cuts > 0 && row < rows && col <= cuts
    ensures 0 <= PointIndex(cuts, row, col) < |Points(cuts, width, height, rows)|
    ensures Points(cuts, width, height, rows)[PointIndex(cuts, row, col)] == PointAt(cuts, width, height, row, col)
    decreases rows
  {
    PointsCount(cuts, width, height, rows);
    PointsCount(cuts, width, height, rows - 1);
    NextRow(cuts + 1, rows - 1);
    RowStartGrows(cuts + 1, 0, row);
    if row < rows - 1 {
      PointIsAtIndex(cuts, width, height, rows - 1, row, col);
    } else {
      RowOfPointsAt(cuts, width, height, row, cuts + 1, col);
    }
    hide RowStart, PointAt, RowOfPoints;
  }

  lemma {:induction false} RowOfUvsFollows(cuts: nat, width: real, height: real, row: nat, n: nat, col: nat)
    requires cuts > 0 && col < n
    ensures MapsTo(RowOfUvs(cuts, row, n)[col], RowOfPoints(cuts, width, height, row, n)[col], width, height)
  {
    hide Share, Along;
    if col < n - 1 {
      RowOfUvsFollows(cuts, width, height, row, n - 1, col);
    }
  }

  predicate MapsTo(uv: Uv, p: Vec3, width: real, height: real) {
    p == Vec3(Along(uv.u, width), Along(uv.v, height), 0.0)
  }

  /** Texture and position agree: the uv at every index is the share of the rectangle at which that vertex lies. */
  lemma {:induction false} UvsFollowPoints(cuts: nat, width: real, height: real, rows: nat, k: nat)
    requires cuts > 0 && k < |Points(cuts, width, height, rows)|
    ensures |Uvs(cuts, rows)| == |Points(cuts, width, height, rows)|
    ensures MapsTo(Uvs(cuts, rows)[k], Points(cuts, width, height, rows)[k], width, height)
    decreases rows
  {
    hide MapsTo;
    SameLength(cuts, width, height, rows - 1);
    var earlier := |Points(cuts, width, height, rows - 1)|;
    if k < earlier {
      UvsFollowPoints(cuts, width, height, rows - 1, k);
    } else {
      RowOfUvsFollows(cuts, width, height, rows - 1, cuts + 1, k - earlier);
    }
  }

  lemma {:induction false} SameLength(cuts: nat, width: real, height: real, rows: nat)
    requires cuts > 0
    ensures |Uvs(cuts, rows)| == |Points(cuts, width, height, rows)|
  {
    if rows > 0 {
      SameLength(cuts, width, height, rows - 1);
    }
  }

  /** Distinct grid points have distinct indices. */
  lemma PointIndicesDiffer(cuts: nat, row: nat, col: nat, row': nat, col': nat)
    requires col <= cuts && col' <= cuts && PointIndex(cuts, row, col) == PointIndex(cuts, row', col')
    ensures row == row' && col == col'
  {
    if row < row' {
      RowStartGrows(cuts + 1, row + 1, row');
      NextRow(cuts + 1, row);
    } else if row' < row {
      RowStartGrows(cuts + 1, row' + 1, row);
      NextRow(cuts + 1, row');
    }
    hide RowStart;
  }

  /** Twice the signed area of a quadrilateral. */
  function TwiceArea(p: Vec3, q: Vec3, r: Vec3, s: Vec3): real {
    (p.x * q.y - q.x * p.y) + (q.x * r.y - r.x * q.y) + (r.x * s.y - s.x * r.y) + (s.x * p.y - p.x * s.y)
  }

  lemma BoxArea(x0: real, x1: real, y0: real, y1: real)
    ensures TwiceArea(Vec3(x0, y0, 0.0), Vec3(x1, y0, 0.0), Vec3(x1, y1, 0.0), Vec3(x0, y1, 0.0)) ==
            2.0 * ((x1 - x0) * (y1 - y0))
  {
    var a, b, c, d := x0 * y0, x0 * y1, x1 * y0, x1 * y1;
    assert x1 * (y1 - y0) == d - c && x0 * (y1 - y0) == b - a;
    assert (x1 - x0) * (y1 - y0) == x1 * (y1 - y0) - x0 * (y1 - y0);
  }

  lemma NextShare(k: nat, cuts: nat)
    requires cuts > 0
    ensures Share(k + 1, cuts) == Share(k, cuts) + 1.0 / cuts as real
  {
  }

  lemma StepLength(a: real, d: real, length: real)
    ensures (a + d - 0.5) * length == (a - 0.5) * length + d * length
  {
  }

  /** Twice the share of one cell in the area of the rectangle. */
  function CellArea(cuts: nat, width: real, height: real): real
    requires cuts > 0
  {
    2.0 * ((1.0 / cuts as real * width) * (1.0 / cuts as real * height))
  }

  predicate InList(f: Face, ps: seq<Vec3>) {
    0 <= f.p < |ps| && 0 <= f.q < |ps| && 0 <= f.r < |ps| && 0 <= f.s < |ps|
  }

  function FaceArea(f: Face, ps: seq<Vec3>): real
    requires InList(f, ps)
  {
    TwiceArea(ps[f.p], ps[f.q], ps[f.r], ps[f.s])
  }

  ghost predicate IsCell(f: Face, ps: seq<Vec3>, area: real) {
    InList(f, ps) && f.p < f.q < f.s < f.r && FaceArea(f, ps) == area
  }

  lemma CellHasItsShare(cuts: nat, width: real, height: real, row: nat, col: nat)
    requires cuts > 0
    ensures TwiceArea(PointAt(cuts, width, height, row, col), PointAt(cuts, width, height, row, col + 1),
                      PointAt(cuts, width, height, row + 1, col + 1), PointAt(cuts, width, height, row + 1, col)) ==
            CellArea(cuts, width, height)
  {
    var d := 1.0 / cuts as real;
    var u, v := Share(col, cuts), Share(row, cuts);
    NextShare(col, cuts);
    NextShare(row, cuts);
    hide Share;
    StepLength(u, d, width);
    StepLength(v, d, height);
    BoxArea((u - 0.5) * width, (Share(col + 1, cuts) - 0.5) * width, (v - 0.5) * height,
      (Share(row + 1, cuts) - 0.5) * height);
    hide TwiceArea;
  }

  /** The signed area of a cell says that it is walked counter-clockwise when width and height are positive. */
  lemma CellAreaSign(cuts: nat, width: real, height: real)
    requires cuts > 0
    ensures CellArea(cuts, width, height) > 0.0 <==> width * height > 0.0
  {
    var d := 1.0 / cuts as real;
    assert d > 0.0;
    var share := 2.0 * (d * d);
    assert d * d > 0.0;
    assert CellArea(cuts, width, height) == share * (width * height) by {
      assert (d * width) * (d * height) == (d * d) * (width * height);
    }
    hide CellArea;
    SameSign(share, width * height);
  }

  lemma SameSign(a: real, b: real)
    requires a > 0.0
    ensures a * b > 0.0 <==> b > 0.0
  {
  }

  /** Every face is one cell of the grid: four different existing vertices, walked counter-clockwise if and only if
      width times height is positive, enclosing exactly a cuts-by-cuts share of the rectangle. */
  lemma FaceIsCell(cuts: nat, width: real, height: real, row: nat, col: nat)
    requires cuts > 0 && row < cuts && col < cuts
    ensures IsCell(FaceAt(cuts, row, col), Points(cuts, width, height, cuts + 1), CellArea(cuts, width, height))
    ensures FaceArea(FaceAt(cuts, row, col), Points(cuts, width, height, cuts + 1)) > 0.0 <==> width * height > 0.0
  {
    hide PointIndex, Points, PointAt, TwiceArea, CellArea, Share;
    CellAreaSign(cuts, width, height);
    CellCorners(cuts, row, col);
    PointIsAtIndex(cuts, width, height, cuts + 1, row, col);
    PointIsAtIndex(cuts, width, height, cuts + 1, row, col + 1);
    PointIsAtIndex(cuts, width, height, cuts + 1, row + 1, col + 1);
    PointIsAtIndex(cuts, width, height, cuts + 1, row + 1, col);
    CellHasItsShare(cuts, width, height, row, col);
  }

  /** The directed edges of a face. */
  function Edges(f: Face): seq<(int, int)> { [(f.p, f.q), (f.q, f.r), (f.r, f.s), (f.s, f.p)] }

  /** Neighbouring cells walk their common edge in opposite directions, so the mesh is consistently oriented. */
  lemma NeighboursShareAnEdge(cuts: nat, row: nat, col: nat)
    ensures var here, right, above := FaceAt(cuts, row, col), FaceAt(cuts, row, col + 1), FaceAt(cuts, row + 1, col);
            && (here.q, here.r) == (right.p, right.s) && (here.s, here.r) == (above.p, above.q)
            && (here.q, here.r) in Edges(here) && (here.r, here.q) in Edges(right)
            && (here.r, here.s) in Edges(here) && (here.s, here.r) in Edges(above)
  {
    hide PointIndex;
    var here, right, above := FaceAt(cuts, row, col), FaceAt(cuts, row, col + 1), FaceAt(cuts, row + 1, col);
    assert Edges(here)[1] == (here.q, here.r) && Edges(here)[2] == (here.r, here.s);
    assert Edges(right)[3] == (right.s, right.p) && Edges(above)[0] == (above.p, above.q);
  }

  /** No two different cells walk the same directed edge. */
  lemma EdgesAreWalkedOnce(cuts: nat, row: nat, col: nat, row': nat, col': nat, i: nat)
    requires row < cuts && col < cuts && row' < cuts && col' < cuts && i < 4
    requires Edges(FaceAt(cuts, row, col))[i] in Edges(FaceAt(cuts, row', col'))
    ensures row == row' && col == col'
  {
    CellCorners(cuts, row, col);
    CellCorners(cuts, row', col');
    var j :| 0 <= j < 4 && Edges(FaceAt(cuts, row', col'))[j] == Edges(FaceAt(cuts, row, col))[i];
    hide PointIndex;
    assert i == j;
    PointIndicesDiffer(cuts, row, col, row', col');
  }

  function TotalTwiceArea(faces: seq<Face>, ps: seq<Vec3>): real
    requires forall i :: 0 <= i < |faces| ==> InList(faces[i], ps)
  {
    if faces == [] then 0.0
    else
      TotalTwiceArea(faces[..|faces| - 1], ps) + FaceArea(faces[|faces| - 1], ps)
  }

  lemma {:induction false} EqualFacesAddUp(faces: seq<Face>, ps: seq<Vec3>, each: real)
    requires forall i :: 0 <= i < |faces| ==> InList(faces[i], ps)
    requires forall i :: 0 <= i < |faces| ==> FaceArea(faces[i], ps) == each
    ensures TotalTwiceArea(faces, ps) == |faces| as real * each
  {
    hide FaceArea, InList;
    if faces != [] {
      EqualFacesAddUp(faces[..|faces| - 1], ps, each);
      OneMore(|faces| - 1, each);
    }
  }

  lemma OneMore(n: int, each: real)
    ensures (n + 1) as real * each == n as real * each + each
  {
  }

  lemma {:induction false} FacesAreCells(cuts: nat, width: real, height: real, rows: nat, i: nat)
    requires cuts > 0 && rows <= cuts && i < |Faces(cuts, rows)|
    ensures IsCell(Faces(cuts, rows)[i], Points(cuts, width, height, cuts + 1), CellArea(cuts, width, height))
    decreases rows
  {
    hide IsCell, Points, CellArea, FaceAt;
    if i < |Faces(cuts, rows - 1)| {
      FacesAreCells(cuts, width, height, rows - 1, i);
    } else {
      var col := i - |Faces(cuts, rows - 1)|;
      RowOfFacesAt(cuts, rows - 1, cuts, col);
      FaceIsCell(cuts, width, height, rows - 1, col);
    }
  }

  lemma {:induction false} RowOfFacesAt(cuts: nat, row: nat, n: nat, col: nat)
    requires col < n
    ensures RowOfFaces(cuts, row, n)[col] == FaceAt(cuts, row, col)
  {
    hide FaceAt;
    if col < n - 1 {
      RowOfFacesAt(cuts, row, n - 1, col);
    }
  }

  lemma {:induction false} FacesCount(cuts: nat, rows: nat)
    ensures |Faces(cuts, rows)| == RowStart(cuts, rows)
  {
    if rows > 0 {
      NextRow(cuts, rows - 1);
      FacesCount(cuts, rows - 1);
    }
    hide RowOfFaces;
  }

  lemma CellsFill(cuts: nat, width: real, height: real)
    requires cuts > 0
    ensures RowStart(cuts, cuts) as real * CellArea(cuts, width, height) == 2.0 * (width * height)
  {
    var n, d := cuts as real, 1.0 / cuts as real;
    assert n * d == 1.0;
    assert RowStart(cuts, cuts) as real == n * n by { Squared(cuts); }
    hide *;
    assert n * (d * width) == (n * d) * width && n * (d * height) == (n * d) * height;
    assert (n * n) * (2.0 * ((d * width) * (d * height))) == 2.0 * ((n * (d * width)) * (n * (d * height)));
  }

  lemma Squared(cuts: nat)
    ensures RowStart(cuts, cuts) as real == cuts as real * cuts as real
  {
  }

  lemma CellFacts(f: Face, ps: seq<Vec3>, area: real)
    requires IsCell(f, ps, area)
    ensures InList(f, ps) && FaceArea(f, ps) == area
  {
  }

  lemma AllCells(cuts: nat, width: real, height: real)
    requires cuts > 0
    ensures var faces, ps := Faces(cuts, cuts), Points(cuts, width, height, cuts + 1);
            forall i :: 0 <= i < |faces| ==>
              && IsCell(faces[i], ps, CellArea(cuts, width, height))
              && InList(faces[i], ps) && FaceArea(faces[i], ps) == CellArea(cuts, width, height)
  {
    hide *;
    var faces, ps := Faces(cuts, cuts), Points(cuts, width, height, cuts + 1);
    forall i | 0 <= i < |faces|
      ensures && IsCell(faces[i], ps, CellArea(cuts, width, height))
              && InList(faces[i], ps) && FaceArea(faces[i], ps) == CellArea(cuts, width, height)
    {
      FacesAreCells(cuts, width, height, cuts, i);
      CellFacts(faces[i], ps, CellArea(cuts, width, height));
    }
  }

  /** The grid covers its rectangle: every listed face is a proper cell, and together they have its whole area. */
  lemma GridCoversTheRectangle(cuts: nat, width: real, height: real)
    requires cuts > 0
    ensures var faces, ps := Faces(cuts, cuts), Points(cuts, width, height, cuts + 1);
            && (forall i :: 0 <= i < |faces| ==>
                  IsCell(faces[i], ps, CellArea(cuts, width, height)) && InList(faces[i], ps))
            && TotalTwiceArea(faces, ps) == 2.0 * (width * height)
  {
    hide *;
    AllCells(cuts, width, height);
    FacesCount(cuts, cuts);
    CellsFill(cuts, width, height);
    EqualFacesAddUp(Faces(cuts, cuts), Points(cuts, width, height, cuts + 1), CellArea(cuts, width, height));
  }

  /** The number of cells along a side: what was asked for, but at least 4 and at most 128. */
  lemma CutsAre(subdivisions: int)
    ensures 4 <= Cuts(subdivisions) <= 128
    ensures 4 <= subdivisions <= 128 ==> Cuts(subdivisions) == subdivisions
    ensures subdivisions < 4 ==> Cuts(subdivisions) == 4
    ensures subdivisions > 128 ==> Cuts(subdivisions) == 128
  {
  }

  lemma ShareTimes(k: nat, cuts: nat)
    requires cuts > 0
    ensures Share(k, cuts) * cuts as real == k as real
    ensures Share(0, cuts) == 0.0 && Share(cuts, cuts) == 1.0
  {
  }

  /** The rectangle is centred: its grid runs from minus to plus half the width and half the height, in equal steps. */
  lemma GridIsCentred(cuts: nat, width: real, height: real, row: nat, col: nat)
    requires cuts > 0
    ensures PointAt(cuts, width, height, 0, 0) == Vec3(-width / 2.0, -height / 2.0, 0.0)
    ensures PointAt(cuts, width, height, cuts, cuts) == Vec3(width / 2.0, height / 2.0, 0.0)
    ensures var here, next := PointAt(cuts, width, height, row, col), PointAt(cuts, width, height, row + 1, col + 1);
            && next.x - here.x == 1.0 / cuts as real * width && next.y - here.y == 1.0 / cuts as real * height
            && PointAt(cuts, width, height, row, col + 1) == Vec3(next.x, here.y, 0.0)
            && PointAt(cuts, width, height, row + 1, col) == Vec3(here.x, next.y, 0.0)
  {
    ShareTimes(0, cuts);
    NextShare(row, cuts);
    NextShare(col, cuts);
    hide Share;
    StepLength(Share(col, cuts), 1.0 / cuts as real, width);
    StepLength(Share(row, cuts), 1.0 / cuts as real, height);
    Halves(width);
    Halves(height);
  }

  lemma Halves(length: real)
    ensures Along(0.0, length) == -length / 2.0 && Along(1.0, length) == length / 2.0
  {
  }

  // ----- fitting an outline

  const MIN_EXTENT := 0.0001

  function Extent(s: seq<real>): real
    requires s != []
  {
    if Max(s) - Min(s) < MIN_EXTENT then MIN_EXTENT else Max(s) - Min(s)
  }

  /** The length a coordinate list spans, but at least a ten-thousandth. */
  lemma ExtentIs(s: seq<real>)
    requires s != []
    ensures Extent(s) >= 0.0001
    ensures Extent(s) == Max(s) - Min(s) || (Extent(s) == 0.0001 && Max(s) - Min(s) < 0.0001)
  {
  }

  function Middle(s: seq<real>): real
    requires s != []
  {
    (Min(s) + Max(s)) / 2.0
  }

  function FitScale(xs: seq<real>, ys: seq<real>, width: real, height: real): real
    requires xs != [] && ys != []
  {
    var horizontal, vertical := width / Extent(xs), height / Extent(ys);
    if horizontal < vertical then horizontal else vertical
  }

  function Placed(v: Vec3, centerX: real, centerY: real, scale: real): Vec3 {
    Vec3((v.x - centerX) * scale, (v.y - centerY) * scale, 0.0)
  }

  function Fitted(vs: seq<Vec3>, width: real, height: real): (r: seq<Vec3>)
    ensures |r| == |vs|
  {
    if vs == [] then []
    else
      var xs, ys := Xs(vs), Ys(vs);
      seq(|vs|, i requires 0 <= i < |vs| => Placed(vs[i], Middle(xs), Middle(ys), FitScale(xs, ys, width, height)))
  }

  /** Moves and scales the vertices where they are. */
  method NormalizeSvgMesh(vertices: array<Vec3>, width: real, height: real)
    modifies vertices
    ensures vertices[..] == Fitted(old(vertices[..]), width, height)
  {
    hide FitScale, Middle, Placed, Xs, Ys;
    if vertices.Length == 0 {
      return;
    }
    ghost var before := vertices[..];
    var xs, ys := Xs(vertices[..]), Ys(vertices[..]);
    SameCount(before);
    var centerX, centerY := Middle(xs), Middle(ys);
    var scale := FitScale(xs, ys, width, height);
    for i := 0 to vertices.Length
      invariant forall k :: 0 <= k < i ==> vertices[k] == Placed(before[k], centerX, centerY, scale)
      invariant forall k :: i <= k < vertices.Length ==> vertices[k] == before[k]
    {
      vertices[i] := Placed(vertices[i], centerX, centerY, scale);
    }
  }

  lemma SameCount(vs: seq<Vec3>)
    ensures |Xs(vs)| == |vs| && |Ys(vs)| == |vs|
  {
  }

  lemma TimesGrows(a: real, b: real, k: real)
    requires a <= b && k >= 0.0
    ensures a * k <= b * k
  {
  }

  lemma Quotient(length: real, extent: real)
    requires extent > 0.0 && length >= 0.0
    ensures length / extent >= 0.0 && extent * (length / extent) == length
  {
  }

  lemma ScaleFits(extent: real, length: real, scale: real)
    requires extent > 0.0 && length >= 0.0 && scale <= length / extent
    ensures extent * scale <= length
  {
    Quotient(length, extent);
    TimesGrows(scale, length / extent, extent);
  }

  lemma HalfTimes(extent: real, scale: real)
    ensures extent / 2.0 * scale == extent * scale / 2.0 && (-(extent / 2.0)) * scale == -(extent * scale / 2.0)
  {
  }

  lemma AroundMiddle(lo: real, hi: real, v: real, extent: real)
    requires lo <= v <= hi && extent >= hi - lo
    ensures -(extent / 2.0) <= v - (lo + hi) / 2.0 <= extent / 2.0
  {
  }

  lemma ExtentFacts(s: seq<real>)
    requires s != []
    ensures Extent(s) > 0.0 && Extent(s) >= Max(s) - Min(s) && Middle(s) == (Min(s) + Max(s)) / 2.0
  {
    hide Min, Max;
  }

  lemma InMiddle(s: seq<real>, i: nat)
    requires i < |s|
    ensures Extent(s) > 0.0 && -(Extent(s) / 2.0) <= s[i] - Middle(s) <= Extent(s) / 2.0
  {
    hide *;
    MinMaxBound(s, i);
    ExtentFacts(s);
    AroundMiddle(Min(s), Max(s), s[i], Extent(s));
  }

  lemma OffsetFits(extent: real, offset: real, length: real, scale: real)
    requires scale >= 0.0 && -(extent / 2.0) <= offset <= extent / 2.0 && extent * scale <= length
    ensures -length / 2.0 <= offset * scale <= length / 2.0
  {
    TimesGrows(offset, extent / 2.0, scale);
    TimesGrows(-(extent / 2.0), offset, scale);
    HalfTimes(extent, scale);
  }

  /** One coordinate of a fitted outline stays within half the length on either side of the middle. */
  lemma FitsLength(s: seq<real>, i: nat, length: real, scale: real)
    requires i < |s| && length >= 0.0
    requires Extent(s) > 0.0 ==> 0.0 <= scale <= length / Extent(s)
    ensures -length / 2.0 <= (s[i] - Middle(s)) * scale <= length / 2.0
  {
    hide *;
    InMiddle(s, i);
    ScaleFits(Extent(s), length, scale);
    OffsetFits(Extent(s), s[i] - Middle(s), length, scale);
  }

  lemma ScaleInRange(xs: seq<real>, ys: seq<real>, width: real, height: real)
    requires xs != [] && ys != [] && width >= 0.0 && height >= 0.0
    ensures Extent(xs) > 0.0 && Extent(ys) > 0.0
    ensures var scale := FitScale(xs, ys, width, height);
            && 0.0 <= scale <= width / Extent(xs) && scale <= height / Extent(ys)
            && (scale == width / Extent(xs) || scale == height / Extent(ys))
  {
    hide Min, Max, Middle;
    InMiddle(xs, 0);
    InMiddle(ys, 0);
    hide Extent;
    Quotient(width, Extent(xs));
    Quotient(height, Extent(ys));
  }

  lemma FittedAt(vs: seq<Vec3>, width: real, height: real, i: nat)
    requires i < |vs|
    ensures |Xs(vs)| == |vs| && |Ys(vs)| == |vs| && Xs(vs)[i] == vs[i].x && Ys(vs)[i] == vs[i].y
    ensures Fitted(vs, width, height)[i] ==
            Placed(vs[i], Middle(Xs(vs)), Middle(Ys(vs)), FitScale(Xs(vs), Ys(vs), width, height))
  {
    hide Middle, FitScale, Placed;
  }

  /** A fitted outline lies inside its rectangle, flat and centred, and keeps its proportions: both directions are
      multiplied by the same factor, which is not negative. */
  lemma OutlineFits(vs: seq<Vec3>, width: real, height: real, i: nat)
    requires i < |vs| && width >= 0.0 && height >= 0.0
    ensures var r, xs, ys := Fitted(vs, width, height)[i], Xs(vs), Ys(vs);
            var scale := FitScale(xs, ys, width, height);
            && -width / 2.0 <= r.x <= width / 2.0 && -height / 2.0 <= r.y <= height / 2.0
            && r == Vec3((vs[i].x - Middle(xs)) * scale, (vs[i].y - Middle(ys)) * scale, 0.0)
            && scale >= 0.0
  {
    hide *;
    FittedAt(vs, width, height, i);
    var xs, ys := Xs(vs), Ys(vs);
    ScaleInRange(xs, ys, width, height);
    var scale := FitScale(xs, ys, width, height);
    FitsLength(xs, i, width, scale);
    FitsLength(ys, i, height, scale);
    PlacedParts(vs[i], Middle(xs), Middle(ys), scale);
  }

  lemma PlacedParts(v: Vec3, centerX: real, centerY: real, scale: real)
    ensures var r := Placed(v, centerX, centerY, scale);
            r.x == (v.x - centerX) * scale && r.y == (v.y - centerY) * scale && r.z == 0.0
  {
  }

  /** A coordinate list whose extent is not floored reaches both ends of the length it is scaled to. */
  lemma ReachesBothEnds(s: seq<real>, length: real, scale: real) returns (lo: nat, hi: nat)
    requires s != [] && Max(s) - Min(s) >= MIN_EXTENT && length >= 0.0
    requires scale == length / Extent(s)
    ensures lo < |s| && (s[lo] - Middle(s)) * scale == -length / 2.0
    ensures hi < |s| && (s[hi] - Middle(s)) * scale == length / 2.0 && s[hi] - Middle(s) > 0.0
  {
    lo, hi := MinMaxAttained(s);
    var half := Extent(s) / 2.0;
    assert s[hi] - Middle(s) == half && s[lo] - Middle(s) == -half;
    hide *;
    Quotient(length, Extent(s));
    HalfTimes(Extent(s), scale);
  }

  /** Unless it is thinner than the floor, a fitted outline touches two opposite sides of its rectangle. */
  lemma OutlineTouchesItsRectangle(vs: seq<Vec3>, width: real, height: real) returns (i: nat, j: nat)
    requires vs != [] && width >= 0.0 && height >= 0.0
    requires Max(Xs(vs)) - Min(Xs(vs)) >= MIN_EXTENT && Max(Ys(vs)) - Min(Ys(vs)) >= MIN_EXTENT
    ensures i < |vs| && j < |vs|
    ensures var r := Fitted(vs, width, height);
            || (r[i].x == -width / 2.0 && r[j].x == width / 2.0 && vs[j].x - Middle(Xs(vs)) > 0.0)
            || (r[i].y == -height / 2.0 && r[j].y == height / 2.0 && vs[j].y - Middle(Ys(vs)) > 0.0)
  {
    hide *;
    var xs, ys := Xs(vs), Ys(vs);
    ScaleInRange(xs, ys, width, height);
    var scale := FitScale(xs, ys, width, height);
    if scale == width / Extent(xs) {
      i, j := ReachesBothEnds(xs, width, scale);
    } else {
      i, j := ReachesBothEnds(ys, height, scale);
    }
    FittedAt(vs, width, height, i);
    FittedAt(vs, width, height, j);
    PlacedParts(vs[i], Middle(xs), Middle(ys), scale);
    PlacedParts(vs[j], Middle(xs), Middle(ys), scale);
  }

  lemma TimesMore(a: real, scale: real, bigger: real)
    requires a > 0.0 && bigger > scale
    ensures a * bigger > a * scale
  {
  }

  /** It could not be larger: every larger factor moves some vertex of it out of the rectangle. */
  lemma NoLargerScaleFits(vs: seq<Vec3>, width: real, height: real, bigger: real) returns (k: nat)
    requires vs != [] && width >= 0.0 && height >= 0.0
    requires Max(Xs(vs)) - Min(Xs(vs)) >= MIN_EXTENT && Max(Ys(vs)) - Min(Ys(vs)) >= MIN_EXTENT
    requires bigger > FitScale(Xs(vs), Ys(vs), width, height)
    ensures k < |vs|
    ensures var p := Placed(vs[k], Middle(Xs(vs)), Middle(Ys(vs)), bigger); p.x > width / 2.0 || p.y > height / 2.0
  {
    hide *;
    var i, j := OutlineTouchesItsRectangle(vs, width, height);
    k := j;
    var xs, ys := Xs(vs), Ys(vs);
    var scale := FitScale(xs, ys, width, height);
    FittedAt(vs, width, height, k);
    PlacedParts(vs[k], Middle(xs), Middle(ys), scale);
    PlacedParts(vs[k], Middle(xs), Middle(ys), bigger);
    if vs[k].x - Middle(xs) > 0.0 {
      TimesMore(vs[k].x - Middle(xs), scale, bigger);
    }
    if vs[k].y - Middle(ys) > 0.0 {
      TimesMore(vs[k].y - Middle(ys), scale, bigger);
    }
  }
}
