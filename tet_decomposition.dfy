/** Decomposition of a polyhedral mesh into tetrahedra, each made of two
    consecutive points of a cell face, the face centre and the cell centre,
    and the point-location query over that decomposition.

    The mesh is topology only: a cell is the list of its face labels, a face the
    list of its point labels. Coordinates, centres and the geometric
    point-in-tetrahedron test stay abstract: a tetrahedron is named by its four
    vertices, and containment is a predicate the caller supplies. */
module TetDecomposition {

  /** `polyMesh` reduced to `cells()` and `faces()`. */
  datatype Mesh = Mesh(cells: seq<seq<nat>>, faces: seq<seq<nat>>)

  /** Every face a cell names exists. */
  predicate ValidMesh(mesh: Mesh)
  {
    forall c, i :: 0 <= c < |mesh.cells| && 0 <= i < |mesh.cells[c]| ==>
      mesh.cells[c][i] < |mesh.faces|
  }

  /** A vertex of a tetrahedron: a mesh point, a face centre or a cell centre. */
  datatype Vertex = MeshPoint(point: nat) | FaceCentre(face: nat) | CellCentre(cell: nat)

  datatype Tetrahedron = Tetrahedron(a: Vertex, b: Vertex, c: Vertex, d: Vertex)

  /** What identifies a tetrahedron: the cell, the index of the face within the
      cell's face list, and the index within that face of its first point. */
  datatype Key = Key(cell: nat, cellFace: nat, facePoint: nat)

  predicate ValidKey(mesh: Mesh, k: Key)
    requires ValidMesh(mesh)
  {
    k.cell < |mesh.cells| && k.cellFace < |mesh.cells[k.cell]| &&
    k.facePoint < |mesh.faces[mesh.cells[k.cell][k.cellFace]]|
  }

  /** The mesh face a key stands on. */
  function FaceOf(mesh: Mesh, k: Key): nat
    requires ValidMesh(mesh) && ValidKey(mesh, k)
  {
    mesh.cells[k.cell][k.cellFace]
  }

  /** The face point index after i, wrapping round at the end (`face::fcIndex`). */
  function NextIndex(i: nat, n: nat): (j: nat)
    requires i < n
    ensures j < n
    ensures j == 0 <==> i == n - 1
    ensures j != 0 ==> j == i + 1
  {
    if i + 1 == n then 0 else i + 1
  }

  /** The two face points of a tetrahedron: the key's point and the next one. */
  function PointsOf(mesh: Mesh, k: Key): (pq: (nat, nat))
    requires ValidMesh(mesh) && ValidKey(mesh, k)
    ensures pq.0 == mesh.faces[FaceOf(mesh, k)][k.facePoint]
    ensures pq.1 == mesh.faces[FaceOf(mesh, k)][NextIndex(k.facePoint, |mesh.faces[FaceOf(mesh, k)]|)]
  {
    var f := mesh.faces[FaceOf(mesh, k)];
    (f[k.facePoint], f[NextIndex(k.facePoint, |f|)])
  }

  /** The point pairs of one face walk its perimeter: the second point of the
      tetrahedron at face point i is the first point of the one at the next
      face point, and on a face of at least two distinct points the two points
      of a pair differ. */
  lemma {:induction false} PerimeterWalk(mesh: Mesh, k: Key)
    requires ValidMesh(mesh) && ValidKey(mesh, k)
    ensures var n := |mesh.faces[FaceOf(mesh, k)]|;
            var k' := k.(facePoint := NextIndex(k.facePoint, n));
            ValidKey(mesh, k') && PointsOf(mesh, k).1 == PointsOf(mesh, k').0
    ensures var f := mesh.faces[FaceOf(mesh, k)];
            |f| >= 2 && (forall i, j :: 0 <= i < j < |f| ==> f[i] != f[j]) ==>
              PointsOf(mesh, k).0 != PointsOf(mesh, k).1
  {
    var f := mesh.faces[FaceOf(mesh, k)];
    var j := NextIndex(k.facePoint, |f|);
    if |f| >= 2 && (forall i, j :: 0 <= i < j < |f| ==> f[i] != f[j]) {
      assert j != k.facePoint;
      if j < k.facePoint {
        assert f[j] != f[k.facePoint];
      } else {
        assert f[k.facePoint] != f[j];
      }
    }
  }

  /** `tetFromFacePointsCell(pMesh, cellI, cellFaceI, facePointI)`. */
  function TetFromFacePointsCell(mesh: Mesh, cellI: nat, cellFaceI: nat, facePointI: nat): (t: Tetrahedron)
    requires ValidMesh(mesh) && ValidKey(mesh, Key(cellI, cellFaceI, facePointI))
    ensures t.a == FaceCentre(mesh.cells[cellI][cellFaceI]) && t.d == CellCentre(cellI)
    ensures t.b == MeshPoint(mesh.faces[mesh.cells[cellI][cellFaceI]][facePointI])
    ensures t.c == MeshPoint(mesh.faces[mesh.cells[cellI][cellFaceI]][
                     NextIndex(facePointI, |mesh.faces[mesh.cells[cellI][cellFaceI]]|)])
  {
    var k := Key(cellI, cellFaceI, facePointI);
    var (p, q) := PointsOf(mesh, k);
    Tetrahedron(FaceCentre(FaceOf(mesh, k)), MeshPoint(p), MeshPoint(q), CellCentre(cellI))
  }

  function TetOf(mesh: Mesh, k: Key): Tetrahedron
    requires ValidMesh(mesh) && ValidKey(mesh, k)
  {
    TetFromFacePointsCell(mesh, k.cell, k.cellFace, k.facePoint)
  }

  // ---------------------------------------------------------------------------
  // The order of the decomposition: by cell, then face, then point

  /** Keys of the first n points of face fi of cell c. */
  function FaceKeys(c: nat, fi: nat, n: nat): (r: seq<Key>)
    ensures |r| == n
    ensures forall p :: 0 <= p < n ==> r[p] == Key(c, fi, p)
  {
    if n == 0 then [] else FaceKeys(c, fi, n - 1) + [Key(c, fi, n - 1)]
  }

  /** Keys of the first nf faces of cell c. */
  function CellKeys(mesh: Mesh, c: nat, nf: nat): (r: seq<Key>)
    requires ValidMesh(mesh) && c < |mesh.cells| && nf <= |mesh.cells[c]|
    ensures forall i :: 0 <= i < |r| ==> r[i].cell == c && r[i].cellFace < nf && ValidKey(mesh, r[i])
  {
    if nf == 0 then []
    else CellKeys(mesh, c, nf - 1) + FaceKeys(c, nf - 1, |mesh.faces[mesh.cells[c][nf - 1]]|)
  }

  /** Keys of the first nc cells. */
  function MeshKeys(mesh: Mesh, nc: nat): (r: seq<Key>)
    requires ValidMesh(mesh) && nc <= |mesh.cells|
    ensures forall i :: 0 <= i < |r| ==> r[i].cell < nc && ValidKey(mesh, r[i])
  {
    if nc == 0 then [] else MeshKeys(mesh, nc - 1) + CellKeys(mesh, nc - 1, |mesh.cells[nc - 1]|)
  }

  /** The keys of every tetrahedron, in decomposition order. */
  function AllKeys(mesh: Mesh): seq<Key>
    requires ValidMesh(mesh)
  {
    MeshKeys(mesh, |mesh.cells|)
  }

  /** Lexicographic order on (cell, cell face, face point). */
  predicate KeyBefore(a: Key, b: Key)
  {
    a.cell < b.cell ||
    (a.cell == b.cell && (a.cellFace < b.cellFace ||
                          (a.cellFace == b.cellFace && a.facePoint < b.facePoint)))
  }

  predicate StrictlySorted(ks: seq<Key>)
  {
    forall i, j :: 0 <= i < j < |ks| ==> KeyBefore(ks[i], ks[j])
  }

  lemma SortedAppend(a: seq<Key>, b: seq<Key>)
    requires StrictlySorted(a) && StrictlySorted(b)
    requires forall i, j :: 0 <= i < |a| && 0 <= j < |b| ==> KeyBefore(a[i], b[j])
    ensures StrictlySorted(a + b)
  {
    forall i, j | 0 <= i < j < |a + b| ensures KeyBefore((a + b)[i], (a + b)[j]) {
      if j < |a| {
      } else if i < |a| {
        assert (a + b)[j] == b[j - |a|];
      } else {
        assert (a + b)[i] == b[i - |a|] && (a + b)[j] == b[j - |a|];
      }
    }
  }

  lemma {:induction false} CellKeysSorted(mesh: Mesh, c: nat, nf: nat)
    requires ValidMesh(mesh) && c < |mesh.cells| && nf <= |mesh.cells[c]|
    ensures StrictlySorted(CellKeys(mesh, c, nf))
  {
    if nf > 0 {
      CellKeysSorted(mesh, c, nf - 1);
      SortedAppend(CellKeys(mesh, c, nf - 1),
                   FaceKeys(c, nf - 1, |mesh.faces[mesh.cells[c][nf - 1]]|));
    }
  }

  lemma {:induction false} MeshKeysSorted(mesh: Mesh, nc: nat)
    requires ValidMesh(mesh) && nc <= |mesh.cells|
    ensures StrictlySorted(MeshKeys(mesh, nc))
  {
    if nc > 0 {
      var a, b := MeshKeys(mesh, nc - 1), CellKeys(mesh, nc - 1, |mesh.cells[nc - 1]|);
      MeshKeysSorted(mesh, nc - 1);
      CellKeysSorted(mesh, nc - 1, |mesh.cells[nc - 1]|);
      forall i, j | 0 <= i < |a| && 0 <= j < |b| ensures KeyBefore(a[i], b[j]) {
        assert a[i].cell < nc - 1 == b[j].cell;
      }
      SortedAppend(a, b);
    }
  }

  lemma {:induction false} CellKeysComplete(mesh: Mesh, c: nat, nf: nat, k: Key)
    requires ValidMesh(mesh) && c < |mesh.cells| && nf <= |mesh.cells[c]|
    requires ValidKey(mesh, k) && k.cell == c && k.cellFace < nf
    ensures k in CellKeys(mesh, c, nf)
  {
    if k.cellFace < nf - 1 {
      CellKeysComplete(mesh, c, nf - 1, k);
    } else {
      var fk := FaceKeys(c, nf - 1, |mesh.faces[mesh.cells[c][nf - 1]]|);
      assert fk[k.facePoint] == k;
    }
  }

  lemma {:induction false} MeshKeysComplete(mesh: Mesh, nc: nat, k: Key)
    requires ValidMesh(mesh) && nc <= |mesh.cells|
    requires ValidKey(mesh, k) && k.cell < nc
    ensures k in MeshKeys(mesh, nc)
  {
    if k.cell < nc - 1 {
      MeshKeysComplete(mesh, nc - 1, k);
    } else {
      CellKeysComplete(mesh, nc - 1, |mesh.cells[nc - 1]|, k);
    }
  }

  /** The decomposition lists every (cell, cell face, face point) of the mesh
      exactly once, ordered first by cell, then by face, then by point. */
  lemma DecompositionOrder(mesh: Mesh)
    requires ValidMesh(mesh)
    ensures forall k :: k in AllKeys(mesh) <==> ValidKey(mesh, k)
    ensures StrictlySorted(AllKeys(mesh))
  {
    MeshKeysSorted(mesh, |mesh.cells|);
    forall k | ValidKey(mesh, k) ensures k in AllKeys(mesh) {
      MeshKeysComplete(mesh, |mesh.cells|, k);
    }
  }

  // ---------------------------------------------------------------------------
  // The tetrahedra of one cell

  /** Index of the first tetrahedron of cell c: the number of tetrahedra of
      the cells before it. */
  function Start(mesh: Mesh, c: nat): nat
    requires ValidMesh(mesh) && c <= |mesh.cells|
  {
    if c == 0 then 0 else Start(mesh, c - 1) + |CellKeys(mesh, c - 1, |mesh.cells[c - 1]|)|
  }

  lemma {:induction false} StartIsLength(mesh: Mesh, c: nat)
    requires ValidMesh(mesh) && c <= |mesh.cells|
    ensures Start(mesh, c) == |MeshKeys(mesh, c)|
  {
    if c > 0 {
      StartIsLength(mesh, c - 1);
    }
  }

  lemma {:induction false} StartMonotone(mesh: Mesh, c: nat, d: nat)
    requires ValidMesh(mesh) && c <= d <= |mesh.cells|
    ensures Start(mesh, c) <= Start(mesh, d)
  {
    if c < d {
      StartMonotone(mesh, c, d - 1);
    }
  }

  /** `cellTets_[c]`: the indices of cell c's tetrahedra, ascending. */
  function CellRange(mesh: Mesh, c: nat): (r: seq<nat>)
    requires ValidMesh(mesh) && c < |mesh.cells|
    ensures |r| == Start(mesh, c + 1) - Start(mesh, c)
    ensures forall i :: 0 <= i < |r| ==> r[i] == Start(mesh, c) + i
  {
    seq(Start(mesh, c + 1) - Start(mesh, c), i => Start(mesh, c) + i)
  }

  /** MeshKeys(n) is MeshKeys(n - 1) followed by cell n - 1's keys. */
  lemma MeshKeysSplit(mesh: Mesh, n: nat, t: nat)
    requires ValidMesh(mesh) && 0 < n <= |mesh.cells| && t < |MeshKeys(mesh, n)|
    ensures t < Start(mesh, n) && Start(mesh, n - 1) == |MeshKeys(mesh, n - 1)|
    ensures t < Start(mesh, n - 1) ==>
              MeshKeys(mesh, n)[t] == MeshKeys(mesh, n - 1)[t] && MeshKeys(mesh, n)[t].cell < n - 1
    ensures t >= Start(mesh, n - 1) ==> MeshKeys(mesh, n)[t].cell == n - 1
  {
    StartIsLength(mesh, n);
    StartIsLength(mesh, n - 1);
    var prev := MeshKeys(mesh, n - 1);
    var last := CellKeys(mesh, n - 1, |mesh.cells[n - 1]|);
    assert MeshKeys(mesh, n) == prev + last;
    if t >= |prev| {
      assert MeshKeys(mesh, n)[t] == last[t - |prev|];
    }
  }

  lemma {:induction false} CellOfIndex(mesh: Mesh, n: nat, c: nat, t: nat)
    requires ValidMesh(mesh) && c < n <= |mesh.cells| && t < |MeshKeys(mesh, n)|
    ensures MeshKeys(mesh, n)[t].cell == c <==> Start(mesh, c) <= t < Start(mesh, c + 1)
  {
    MeshKeysSplit(mesh, n, t);
    if t < Start(mesh, n - 1) && c < n - 1 {
      CellOfIndex(mesh, n - 1, c, t);
    } else if c < n - 1 {
      StartMonotone(mesh, c + 1, n - 1);
    }
  }

  /** The runs `cellTets_` lists are exactly the cells' tetrahedra: index t is
      in cell c's run if and only if tetrahedron t belongs to cell c, so the
      runs cover every tetrahedron exactly once. */
  lemma CellRuns(mesh: Mesh, c: nat, t: nat)
    requires ValidMesh(mesh) && c < |mesh.cells| && t < |AllKeys(mesh)|
    ensures t in CellRange(mesh, c) <==> AllKeys(mesh)[t].cell == c
  {
    StartIsLength(mesh, |mesh.cells|);
    CellOfIndex(mesh, |mesh.cells|, c, t);
    if Start(mesh, c) <= t < Start(mesh, c + 1) {
      assert CellRange(mesh, c)[t - Start(mesh, c)] == t;
    }
  }

  lemma CellRunsAll(mesh: Mesh)
    requires ValidMesh(mesh)
    ensures forall c, t :: 0 <= c < |mesh.cells| && 0 <= t < |AllKeys(mesh)| ==>
              (t in CellRange(mesh, c) <==> AllKeys(mesh)[t].cell == c)
  {
    forall c, t | 0 <= c < |mesh.cells| && 0 <= t < |AllKeys(mesh)|
      ensures t in CellRange(mesh, c) <==> AllKeys(mesh)[t].cell == c
    {
      CellRuns(mesh, c, t);
    }
  }

  /** Every index in a cell's run is a tetrahedron index. */
  lemma CellRangeBounded(mesh: Mesh, c: nat)
    requires ValidMesh(mesh) && c < |mesh.cells|
    ensures forall i :: 0 <= i < |CellRange(mesh, c)| ==> CellRange(mesh, c)[i] < |AllKeys(mesh)|
  {
    StartMonotone(mesh, c + 1, |mesh.cells|);
    StartIsLength(mesh, |mesh.cells|);
  }

  // ---------------------------------------------------------------------------
  // Point location

  /** The position in `idx` of the first listed tetrahedron containing pt, or -1. */
  function FirstContaining<P>(tets: seq<Tetrahedron>, idx: seq<nat>, pt: P,
                              inside: (Tetrahedron, P) -> bool): (r: int)
    requires forall i :: 0 <= i < |idx| ==> idx[i] < |tets|
    ensures -1 <= r < |idx|
    ensures r == -1 <==> forall i :: 0 <= i < |idx| ==> !inside(tets[idx[i]], pt)
    ensures r != -1 ==> inside(tets[idx[r]], pt)
    ensures forall j :: 0 <= j < r ==> !inside(tets[idx[j]], pt)
  {
    if idx == [] then -1
    else if inside(tets[idx[0]], pt) then 0
    else
      var r := FirstContaining(tets, idx[1..], pt, inside);
      assert forall i :: 1 <= i < |idx| ==> idx[i] == idx[1..][i - 1];
      if r == -1 then -1 else r + 1
  }

  /** 0, 1, ..., n - 1 */
  function Indices(n: nat): (r: seq<nat>)
    ensures |r| == n && forall i :: 0 <= i < n ==> r[i] == i
  {
    seq(n, i => i)
  }

  /** What `find(pt, cellHint)` returns: with a hint, the first tetrahedron of
      the hinted cell containing pt; failing that (or without a hint, -1), the
      first tetrahedron of the whole decomposition containing pt; -1 if none. */
  function Locate<P>(tets: seq<Tetrahedron>, cellTets: seq<seq<nat>>, pt: P, cellHint: int,
                     inside: (Tetrahedron, P) -> bool): (r: int)
    requires -1 <= cellHint < |cellTets|
    requires forall c, i :: 0 <= c < |cellTets| && 0 <= i < |cellTets[c]| ==> cellTets[c][i] < |tets|
    ensures r == -1 <==> forall t :: 0 <= t < |tets| ==> !inside(tets[t], pt)
    ensures r != -1 ==> 0 <= r < |tets| && inside(tets[r], pt)
    ensures r != -1 && (cellHint == -1 || forall i :: 0 <= i < |cellTets[cellHint]| ==>
                                                !inside(tets[cellTets[cellHint][i]], pt)) ==>
              forall t :: 0 <= t < r ==> !inside(tets[t], pt)
  {
    var hinted := if cellHint >= 0 then FirstContaining(tets, cellTets[cellHint], pt, inside) else -1;
    if hinted != -1 then cellTets[cellHint][hinted]
    else
      var all := Indices(|tets|);
      var p := FirstContaining(tets, all, pt, inside);
      assert p == -1 ==> forall t :: 0 <= t < |tets| ==> !inside(tets[t], pt) by {
        if p == -1 {
          forall t | 0 <= t < |tets| ensures !inside(tets[t], pt) { assert all[t] == t; }
        }
      }
      assert forall t :: 0 <= t < p ==> !inside(tets[t], pt) by {
        forall t | 0 <= t < p ensures !inside(tets[t], pt) { assert all[t] == t; }
      }
      assert p != -1 ==> all[p] == p;
      p
  }

  /** A hint decides only which containing tetrahedron is reported: when
      exactly one tetrahedron contains the point, every hint finds it. */
  lemma HintOnlyOrders<P>(tets: seq<Tetrahedron>, cellTets: seq<seq<nat>>, pt: P,
                          inside: (Tetrahedron, P) -> bool, t0: nat, h1: int, h2: int)
    requires -1 <= h1 < |cellTets| && -1 <= h2 < |cellTets|
    requires forall c, i :: 0 <= c < |cellTets| && 0 <= i < |cellTets[c]| ==> cellTets[c][i] < |tets|
    requires t0 < |tets| && inside(tets[t0], pt)
    requires forall t :: 0 <= t < |tets| && inside(tets[t], pt) ==> t == t0
    ensures Locate(tets, cellTets, pt, h1, inside) == t0
    ensures Locate(tets, cellTets, pt, h1, inside) == Locate(tets, cellTets, pt, h2, inside)
  {
  }

  /** A hinted cell that holds a tetrahedron containing the point is where the
      answer comes from. */
  lemma HintedCellFirst<P>(tets: seq<Tetrahedron>, cellTets: seq<seq<nat>>, pt: P,
                           inside: (Tetrahedron, P) -> bool, h: nat, i: nat)
    requires h < |cellTets|
    requires forall c, j :: 0 <= c < |cellTets| && 0 <= j < |cellTets[c]| ==> cellTets[c][j] < |tets|
    requires i < |cellTets[h]| && inside(tets[cellTets[h][i]], pt)
    ensures Locate(tets, cellTets, pt, h, inside) in cellTets[h]
  {
  }

  // ---------------------------------------------------------------------------
  // The decomposition object

  class TetFacePointCellDecomposition {
    const mesh: Mesh
    /** `tets_` */
    const tets: seq<Tetrahedron>
    /** `cellTets_` */
    const cellTets: seq<seq<nat>>
    /** `tetFace_` */
    const tetFace: seq<nat>
    /** `tetPoints_` */
    const tetPoints: seq<(nat, nat)>

    /** The lists are parallel, one entry per key in decomposition order, and
        `cellTets` holds each cell's run of indices. */
    ghost predicate Valid()
    {
      ValidMesh(mesh) &&
      |tets| == |AllKeys(mesh)| && |tetFace| == |tets| && |tetPoints| == |tets| &&
      |cellTets| == |mesh.cells| &&
      (forall t :: 0 <= t < |tets| ==>
         tets[t] == TetOf(mesh, AllKeys(mesh)[t]) &&
         tetFace[t] == FaceOf(mesh, AllKeys(mesh)[t]) &&
         tetPoints[t] == PointsOf(mesh, AllKeys(mesh)[t])) &&
      (forall c :: 0 <= c < |cellTets| ==> cellTets[c] == CellRange(mesh, c)) &&
      (forall c, i :: 0 <= c < |cellTets| && 0 <= i < |cellTets[c]| ==> cellTets[c][i] < |tets|)
    }

    /** tets holds, entry by entry, the tetrahedra of the listed keys. */
    static ghost predicate Built(mesh: Mesh, keys: seq<Key>, tets: seq<Tetrahedron>)
      requires ValidMesh(mesh)
    {
      |tets| == |keys| &&
      forall t :: 0 <= t < |keys| ==> ValidKey(mesh, keys[t]) && tets[t] == TetOf(mesh, keys[t])
    }

    static lemma BuiltAppend(mesh: Mesh, keys: seq<Key>, tets: seq<Tetrahedron>, k: Key, tet: Tetrahedron)
      requires ValidMesh(mesh) && ValidKey(mesh, k) && Built(mesh, keys, tets)
      requires tet == TetFromFacePointsCell(mesh, k.cell, k.cellFace, k.facePoint)
      ensures Built(mesh, keys + [k], tets + [tet])
    {
    }

    /** `decompose(pMesh)` over the faces of one cell. */
    static method DecomposeCell(mesh: Mesh, c: nat, ghost keys: seq<Key>, tets: seq<Tetrahedron>)
      returns (tets': seq<Tetrahedron>)
      requires ValidMesh(mesh) && c < |mesh.cells|
      requires Built(mesh, keys, tets)
      ensures Built(mesh, keys + CellKeys(mesh, c, |mesh.cells[c]|), tets')
    {
      tets' := tets;
      ghost var ks := keys;
      var cellFaces := mesh.cells[c];
      var fi := 0;
      while fi < |cellFaces|
        invariant fi <= |cellFaces|
        invariant ks == keys + CellKeys(mesh, c, fi)
        invariant Built(mesh, ks, tets')
      {
        var f := mesh.faces[cellFaces[fi]];
        var k := 0;
        while k < |f|
          invariant k <= |f|
          invariant ks == keys + CellKeys(mesh, c, fi) + FaceKeys(c, fi, k)
          invariant Built(mesh, ks, tets')
        {
          var tet := TetFromFacePointsCell(mesh, c, fi, k);
          BuiltAppend(mesh, ks, tets', Key(c, fi, k), tet);
          tets' := tets' + [tet];
          assert FaceKeys(c, fi, k + 1) == FaceKeys(c, fi, k) + [Key(c, fi, k)];
          ks := ks + [Key(c, fi, k)];
          k := k + 1;
        }
        assert CellKeys(mesh, c, fi + 1) == CellKeys(mesh, c, fi) + FaceKeys(c, fi, |f|);
        fi := fi + 1;
      }
    }

    /** `decompose(pMesh)`: every cell, every face of it, every point of that
        face, one tetrahedron each, in that nesting order. */
    static method Decompose(mesh: Mesh) returns (tets: seq<Tetrahedron>)
      requires ValidMesh(mesh)
      ensures |tets| == |AllKeys(mesh)|
      ensures forall t :: 0 <= t < |tets| ==> tets[t] == TetOf(mesh, AllKeys(mesh)[t])
    {
      tets := [];
      var c := 0;
      while c < |mesh.cells|
        invariant c <= |mesh.cells|
        invariant Built(mesh, MeshKeys(mesh, c), tets)
      {
        tets := DecomposeCell(mesh, c, MeshKeys(mesh, c), tets);
        assert MeshKeys(mesh, c + 1) == MeshKeys(mesh, c) + CellKeys(mesh, c, |mesh.cells[c]|);
        c := c + 1;
      }
    }

    /** tetFace and tetPoints hold, entry by entry, the face and point pair of
        the listed keys. */
    static ghost predicate Indexed(mesh: Mesh, keys: seq<Key>, tetFace: seq<nat>, tetPoints: seq<(nat, nat)>)
      requires ValidMesh(mesh)
    {
      |tetFace| == |keys| && |tetPoints| == |keys| &&
      forall t :: 0 <= t < |keys| ==> (ValidKey(mesh, keys[t]) &&
        tetFace[t] == FaceOf(mesh, keys[t]) && tetPoints[t] == PointsOf(mesh, keys[t]))
    }

    /** The indexing pass over the faces of one cell. */
    static method IndexCell(mesh: Mesh, c: nat, ghost keys: seq<Key>, tetFace: seq<nat>,
                            tetPoints: seq<(nat, nat)>)
      returns (tetFace': seq<nat>, tetPoints': seq<(nat, nat)>)
      requires ValidMesh(mesh) && c < |mesh.cells|
      requires Indexed(mesh, keys, tetFace, tetPoints)
      ensures Indexed(mesh, keys + CellKeys(mesh, c, |mesh.cells[c]|), tetFace', tetPoints')
    {
      tetFace', tetPoints' := tetFace, tetPoints;
      ghost var ks := keys;
      var cellFaces := mesh.cells[c];
      var fi := 0;
      while fi < |cellFaces|
        invariant fi <= |cellFaces|
        invariant ks == keys + CellKeys(mesh, c, fi)
        invariant Indexed(mesh, ks, tetFace', tetPoints')
      {
        var faceI := cellFaces[fi];
        var f := mesh.faces[faceI];
        var k := 0;
        while k < |f|
          invariant k <= |f|
          invariant ks == keys + CellKeys(mesh, c, fi) + FaceKeys(c, fi, k)
          invariant Indexed(mesh, ks, tetFace', tetPoints')
        {
          tetFace' := tetFace' + [faceI];
          tetPoints' := tetPoints' + [(f[k], f[NextIndex(k, |f|)])];
          ks := ks + [Key(c, fi, k)];
          k := k + 1;
        }
        fi := fi + 1;
      }
    }

    /** The constructor's indexing pass: per tetrahedron its face and point
        pair, per cell the run of its tetrahedron indices. */
    static method BuildIndex(mesh: Mesh) returns (cellTets: seq<seq<nat>>, tetFace: seq<nat>,
                                                  tetPoints: seq<(nat, nat)>)
      requires ValidMesh(mesh)
      ensures |tetFace| == |AllKeys(mesh)| && |tetPoints| == |AllKeys(mesh)|
      ensures forall t :: 0 <= t < |tetFace| ==>
                tetFace[t] == FaceOf(mesh, AllKeys(mesh)[t]) &&
                tetPoints[t] == PointsOf(mesh, AllKeys(mesh)[t])
      ensures |cellTets| == |mesh.cells|
      ensures forall c :: 0 <= c < |cellTets| ==> cellTets[c] == CellRange(mesh, c)
    {
      cellTets, tetFace, tetPoints := [], [], [];
      var c := 0;
      while c < |mesh.cells|
        invariant c <= |mesh.cells|
        invariant Indexed(mesh, MeshKeys(mesh, c), tetFace, tetPoints)
        invariant |cellTets| == c
        invariant forall d :: 0 <= d < c ==> cellTets[d] == CellRange(mesh, d)
      {
        var start := |tetFace|;
        tetFace, tetPoints := IndexCell(mesh, c, MeshKeys(mesh, c), tetFace, tetPoints);
        assert MeshKeys(mesh, c + 1) == MeshKeys(mesh, c) + CellKeys(mesh, c, |mesh.cells[c]|);
        StartIsLength(mesh, c);
        StartIsLength(mesh, c + 1);
        cellTets := cellTets + [seq(|tetFace| - start, i => start + i)];
        assert cellTets[c] == CellRange(mesh, c);
        c := c + 1;
      }
    }

    /** `tetFacePointCellDecomposition(pMesh)` */
    constructor (m: Mesh)
      requires ValidMesh(m)
      ensures mesh == m && Valid()
    {
      var ts := Decompose(m);
      var ct, tf, tp := BuildIndex(m);
      mesh, tets, cellTets, tetFace, tetPoints := m, ts, ct, tf, tp;
      forall c | 0 <= c < |ct| ensures forall i :: 0 <= i < |ct[c]| ==> ct[c][i] < |ts| {
        CellRangeBounded(m, c);
      }
    }

    /** `tetrahedra()`: tetrahedron t stands on its face's centre and the
        centre of the cell it belongs to, with two points of that face. */
    function Tetrahedra(): (r: seq<Tetrahedron>)
      requires Valid()
      ensures |r| == |AllKeys(mesh)|
      ensures forall t :: 0 <= t < |r| ==>
                r[t].a == FaceCentre(tetFace[t]) && r[t].d == CellCentre(AllKeys(mesh)[t].cell) &&
                r[t].b == MeshPoint(tetPoints[t].0) && r[t].c == MeshPoint(tetPoints[t].1)
    {
      tets
    }

    /** `cellTetrahedra()`: cell c's list holds exactly the indices of the
        tetrahedra of cell c, ascending and without gaps. */
    function CellTetrahedra(): (r: seq<seq<nat>>)
      requires Valid()
      ensures |r| == |mesh.cells|
      ensures forall c, t :: 0 <= c < |r| && 0 <= t < |tets| ==>
                (t in r[c] <==> AllKeys(mesh)[t].cell == c)
      ensures forall c, i :: 0 <= c < |r| && 0 < i < |r[c]| ==> r[c][i] == r[c][i - 1] + 1
      ensures forall c, i :: 0 <= c < |r| && 0 <= i < |r[c]| ==> r[c][i] < |tets|
    {
      CellRunsAll(mesh);
      cellTets
    }

    /** `tetrahedronFace()`: the face each tetrahedron stands on, one of the
        faces of its cell. */
    function TetrahedronFace(): (r: seq<nat>)
      requires Valid()
      ensures |r| == |tets|
      ensures forall t :: 0 <= t < |r| ==>
                r[t] < |mesh.faces| && r[t] in mesh.cells[AllKeys(mesh)[t].cell] &&
                tets[t].a == FaceCentre(r[t])
    {
      tetFace
    }

    /** `tetrahedronPoints()`: the two face points of each tetrahedron, both on
        its face, the first one at the face point index of its key. */
    function TetrahedronPoints(): (r: seq<(nat, nat)>)
      requires Valid()
      ensures |r| == |tets|
      ensures forall t :: 0 <= t < |r| ==>
                r[t].0 == mesh.faces[tetFace[t]][AllKeys(mesh)[t].facePoint] &&
                r[t].1 == mesh.faces[tetFace[t]][NextIndex(AllKeys(mesh)[t].facePoint,
                                                           |mesh.faces[tetFace[t]]|)] &&
                r[t].1 in mesh.faces[tetFace[t]] &&
                tets[t].b == MeshPoint(r[t].0) && tets[t].c == MeshPoint(r[t].1)
    {
      tetPoints
    }

    /** `find(pt, cellHint)`: the tetrahedra of the hinted cell first, then all
        tetrahedra in order; -1 when none contains the point. */
    method Find<P>(pt: P, cellHint: int, inside: (Tetrahedron, P) -> bool) returns (r: int)
      requires Valid()
      requires -1 <= cellHint < |cellTets|
      ensures r == Locate(tets, cellTets, pt, cellHint, inside)
      ensures r == -1 <==> forall t :: 0 <= t < |tets| ==> !inside(tets[t], pt)
      ensures r != -1 ==> 0 <= r < |tets| && inside(tets[r], pt)
    {
      if cellHint >= 0 {
        var idx := cellTets[cellHint];
        var i := 0;
        while i < |idx|
          invariant i <= |idx|
          invariant forall j :: 0 <= j < i ==> !inside(tets[idx[j]], pt)
        {
          if inside(tets[idx[i]], pt) {
            assert FirstContaining(tets, idx, pt, inside) == i;
            return idx[i];
          }
          i := i + 1;
        }
      }
      var t := 0;
      while t < |tets|
        invariant t <= |tets|
        invariant forall u :: 0 <= u < t ==> !inside(tets[u], pt)
      {
        if inside(tets[t], pt) {
          return t;
        }
        t := t + 1;
      }
      r := -1;
    }
  }
}
