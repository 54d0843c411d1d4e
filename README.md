# pdfFoam particle I/O, tetrahedral decomposition and inlet/outlet caches in Dafny

This project models three parts of the pdfFoam Monte Carlo particle solver and
proves properties of them:

- **Particle I/O** (`particle_io.dfy`, module `ParticleIO`). A particle's own
  state is `m, Updf, UParticle, UFap, z, rho, dt, shift, ghost`. The model
  covers four operations:
  - the ASCII `operator<<`, over a token output stream;
  - the ASCII branch of the stream constructor, over a token input stream;
  - `readFields`, which loads six per-field arrays into the cloud;
  - `writeFields`, which exports those six fields as arrays.

  Reading back what the writer wrote gives the particle's fields and leaves
  the rest of the stream unread. The field arrays are proved to round-trip
  through export and import.
- **Tetrahedral decomposition** (`tet_decomposition.dfy`, module
  `TetDecomposition`). The mesh is cut into tetrahedra. Each tetrahedron has
  two consecutive points of one face, that face's centre and the cell's
  centre. The model covers:
  - the build loops for `tets_`, `tetFace_`, `tetPoints_` and `cellTets_`;
  - the order of the tetrahedra (cell, then face, then point);
  - the contiguous per-cell runs of indices;
  - the four accessors;
  - `find(pt, cellHint)`.
- **Inlet/outlet boundary** (`inlet_outlet.dfy`, module
  `InletOutletBoundary`). The model covers:
  - the per-face data `probVec_`, `fwdTrans_` and `revTrans_`;
  - the three lazily created fields `U_`, `R_` and `inRnd_`, with their
    getters `getU`, `getR` and `getInRnd`;
  - `randomVelocity`, with the random draws passed in as functions, and
    `randomPoint` as a one-face signature only.

`geometry.dfy` (module `Geometry`) holds the shared value types: vector,
symmetric tensor and tensor. It also holds tensor-vector application and the
tensor product.

Modelling choices:
- Numbers are exact reals. A stream is a sequence of tokens: white space, the
  list delimiters `(` and `)`, a floating-point number, or an integer label.
- The geometric point-in-tetrahedron test is a predicate that the caller of
  `Find` supplies.
- The values that creating `U_` and `R_` yields are given to the boundary's
  constructor.

## Model

| member | source | states |
|---|---|---|
| `ParticleIO.WriteParticle` | mcParticle/mcParticle/mcParticleIO.C:154-167 | the stream gains the base particle's text, then each of the nine own fields, each preceded by one space |
| `ParticleIO.OStream.Write` | mcParticle/mcParticle/mcParticleIO.C:159-167 | a write appends its tokens to the stream and changes nothing else |
| `ParticleIO.WrittenInOrder` | mcParticle/mcParticle/mcParticleIO.C:156-167 | the numbers written are m, the three Updf components, UParticle, UFap, z, rho, dt, shift, ghost, in that order, and the text starts with a space |
| `ParticleIO.SkipSpaces` | mcParticle/mcParticle/mcParticleIO.C:44-52 | white space is skipped before a token is read: the result does not start with a space, and (with `SkipMeaning`) it is the input with exactly its leading spaces removed |
| `ParticleIO.SkipMeaning` | mcParticle/mcParticle/mcParticleIO.C:44-52 | the skipped stream is a suffix of the input and every token dropped before it is a space |
| `ParticleIO.ScalarIn` | mcParticle/mcParticle/mcParticleIO.C:44 | reading a scalar consumes at least one token; it fails only when the next non-space token is neither a float nor a label |
| `ParticleIO.LabelIn` | mcParticle/mcParticle/mcParticleIO.C:52 | reading a label consumes at least one token; it fails only when the next non-space token is not an integer |
| `ParticleIO.VectorIn` | mcParticle/mcParticle/mcParticleIO.C:45-47 | a vector read `( x y z )` consumes at least one token |
| `ParticleIO.DecodeOwn` | mcParticle/mcParticle/mcParticleIO.C:44-52 | reading the nine fields in order consumes input whenever it succeeds |
| `ParticleIO.RoundTrip` | mcParticle/mcParticle/mcParticleIO.C:42-53 | reading back what `operator<<` wrote gives exactly the nine fields, and leaves whatever follows unread |
| `ParticleIO.IStream.SkipSpace` | mcParticle/mcParticle/mcParticleIO.C:44-52 | the stream loses exactly its leading white space |
| `ParticleIO.IStream.ReadScalar` | mcParticle/mcParticle/mcParticleIO.C:44 | succeeds exactly when the scalar read succeeds; on success it returns that value and leaves the stream at its remainder |
| `ParticleIO.IStream.ReadLabel` | mcParticle/mcParticle/mcParticleIO.C:52 | as ReadScalar, for the integer `ghost` field |
| `ParticleIO.IStream.ReadVector` | mcParticle/mcParticle/mcParticleIO.C:45-47 | as ReadScalar, for a delimited three-component vector |
| `ParticleIO.Construct` | mcParticle/mcParticle/mcParticleIO.C:31-69 | with readFields false, nothing is read and the stream is untouched; otherwise the nine fields are read in order, and a failed read is a fatal stream error |
| `ParticleIO.CheckFields` | mcParticle/mcParticle/mcParticleIO.C:80-96 | the check passes if and only if all six arrays have the cloud's size; otherwise the first mismatch in the order m, Updf, UParticle, UFap, z, rho is reported with its size and the expected size |
| `ParticleIO.Imported` | mcParticle/mcParticle/mcParticleIO.C:98-112 | particle i takes entry i of each of the six arrays; shift becomes zero, ghost becomes 0 and dt is kept |
| `ParticleIO.Exported` | mcParticle/mcParticle/mcParticleIO.C:120-141 | each of the six arrays has the cloud's size, and entry i is particle i's field |
| `ParticleIO.ReadFields` | mcParticle/mcParticle/mcParticleIO.C:72-113 | an empty cloud returns at once, unchanged; otherwise the size check's verdict is returned; a failed check changes nothing; a passed check leaves the cloud equal to Imported |
| `ParticleIO.WriteFields` | mcParticle/mcParticle/mcParticleIO.C:116-149 | the arrays returned are Exported of the cloud, so they have its size and are in its iteration order |
| `ParticleIO.ExportedByEntries` | mcParticle/mcParticle/mcParticleIO.C:129-141 | six arrays of the cloud's size whose entry i is particle i's field are exactly the exported arrays |
| `ParticleIO.ExportIgnoresTransient` | mcParticle/mcParticle/mcParticleIO.C:129-141 | two clouds that differ only in dt, shift and ghost export the same arrays |
| `ParticleIO.ImportAfterExport` | mcParticle/mcParticle/mcParticleIO.C:98-112 | arrays exported from one cloud fit any cloud of the same size and give particle i the six fields of the exporter's particle i |
| `ParticleIO.ExportImportIdentity` | mcParticle/mcParticle/mcParticleIO.C:98-141 | a cloud whose shift is zero and ghost is 0 is restored exactly by reading back its own exported arrays |
| `ParticleIO.ImportIdempotent` | mcParticle/mcParticle/mcParticleIO.C:98-112 | reading the same arrays twice gives the same cloud as reading them once |
| `Geometry.ApplyCompose` | mcParticle/mcBoundary/mcInletOutletBoundary/mcInletOutletBoundary.H:74-78 | applying one tensor and then another is the same as applying their product |
| `TetDecomposition.NextIndex` | mcParticle/tetFacePointCellDecomposition/tetFacePointCellDecomposition.H:87-94 | the second point of a tetrahedron is the next point of the face, wrapping to 0 only after the last point |
| `TetDecomposition.PointsOf` | mcParticle/tetFacePointCellDecomposition/tetFacePointCellDecomposition.H:81-82 | a tetrahedron's point pair is the face point its key names and the face point after it, wrapping round at the end of the face |
| `TetDecomposition.PerimeterWalk` | mcParticle/tetFacePointCellDecomposition/tetFacePointCellDecomposition.H:81-94 | the second point of one tetrahedron is the first point of the next tetrahedron on the same face, so a face's pairs walk its perimeter; on a face of distinct points with at least two points, the two points of a pair differ |
| `TetDecomposition.TetFromFacePointsCell` | mcParticle/tetFacePointCellDecomposition/tetFacePointCellDecomposition.H:87-94 | a tetrahedron is made of its face's centre, the named face point, the face point after it (wrapping round) and the centre of the owning cell |
| `TetDecomposition.FaceKeys` | mcParticle/tetFacePointCellDecomposition/tetFacePointCellDecomposition.H:96-99 | the keys of one face list its points in ascending order |
| `TetDecomposition.CellKeys` | mcParticle/tetFacePointCellDecomposition/tetFacePointCellDecomposition.H:96-99 | every key of a cell's first nf faces is a valid key of that cell with face index below nf |
| `TetDecomposition.MeshKeys` | mcParticle/tetFacePointCellDecomposition/tetFacePointCellDecomposition.H:96-99 | every key of the first nc cells is a valid key with cell below nc |
| `TetDecomposition.SortedAppend` | mcParticle/tetFacePointCellDecomposition/tetFacePointCellDecomposition.H:96-99 | two sorted runs, the first entirely before the second, make a sorted run |
| `TetDecomposition.CellKeysSorted` | mcParticle/tetFacePointCellDecomposition/tetFacePointCellDecomposition.H:96-99 | a cell's tetrahedra are ordered by face, then by point |
| `TetDecomposition.MeshKeysSorted` | mcParticle/tetFacePointCellDecomposition/tetFacePointCellDecomposition.H:96-99 | the tetrahedra are ordered by cell, then face, then point, with no repeats |
| `TetDecomposition.CellKeysComplete` | mcParticle/tetFacePointCellDecomposition/tetFacePointCellDecomposition.H:96-99 | every (face, point) of a cell's first nf faces has a tetrahedron |
| `TetDecomposition.MeshKeysComplete` | mcParticle/tetFacePointCellDecomposition/tetFacePointCellDecomposition.H:96-99 | every (cell, face, point) of the first nc cells has a tetrahedron |
| `TetDecomposition.DecompositionOrder` | mcParticle/tetFacePointCellDecomposition/tetFacePointCellDecomposition.H:96-99 | the decomposition lists exactly the valid (cell, face, point) triples, each once, strictly ordered by cell, then face, then point |
| `TetDecomposition.StartIsLength` | mcParticle/tetFacePointCellDecomposition/tetFacePointCellDecomposition.H:75-76 | the first index of cell c equals the number of tetrahedra of the cells before c |
| `TetDecomposition.StartMonotone` | mcParticle/tetFacePointCellDecomposition/tetFacePointCellDecomposition.H:75-76 | the first index of a later cell's run is never smaller |
| `TetDecomposition.CellRange` | mcParticle/tetFacePointCellDecomposition/tetFacePointCellDecomposition.H:75-76 | a cell's run holds consecutive indices from the cell's first tetrahedron up to the next cell's first |
| `TetDecomposition.MeshKeysSplit` | mcParticle/tetFacePointCellDecomposition/tetFacePointCellDecomposition.H:96-99 | adding a cell keeps the earlier tetrahedra in place and appends only tetrahedra of the new cell |
| `TetDecomposition.CellOfIndex` | mcParticle/tetFacePointCellDecomposition/tetFacePointCellDecomposition.H:75-76 | tetrahedron t belongs to cell c if and only if t lies between c's first index and the next cell's |
| `TetDecomposition.CellRuns` | mcParticle/tetFacePointCellDecomposition/tetFacePointCellDecomposition.H:75-76 | index t is in cell c's run if and only if tetrahedron t belongs to cell c, so the runs cover every tetrahedron exactly once |
| `TetDecomposition.CellRunsAll` | mcParticle/tetFacePointCellDecomposition/tetFacePointCellDecomposition.H:128-129 | CellRuns, for every cell and tetrahedron at once |
| `TetDecomposition.CellRangeBounded` | mcParticle/tetFacePointCellDecomposition/tetFacePointCellDecomposition.H:75-76 | every index in a cell's run names a tetrahedron |
| `TetDecomposition.FirstContaining` | mcParticle/tetFacePointCellDecomposition/tetFacePointCellDecomposition.H:137-143 | the result is -1 if and only if no listed tetrahedron contains the point; otherwise it is the first listed tetrahedron that contains it |
| `TetDecomposition.Locate` | mcParticle/tetFacePointCellDecomposition/tetFacePointCellDecomposition.H:137-143 | the result is -1 if and only if no tetrahedron contains the point; otherwise it is a containing tetrahedron; with no hint, or a hinted cell containing none, it is the first containing tetrahedron |
| `TetDecomposition.HintOnlyOrders` | mcParticle/tetFacePointCellDecomposition/tetFacePointCellDecomposition.H:141-142 | when exactly one tetrahedron contains the point, every hint finds it |
| `TetDecomposition.HintedCellFirst` | mcParticle/tetFacePointCellDecomposition/tetFacePointCellDecomposition.H:141-142 | when the hinted cell has a tetrahedron containing the point, the answer is one of that cell's tetrahedra |
| `TetDecomposition.TetFacePointCellDecomposition.Decompose` | mcParticle/tetFacePointCellDecomposition/tetFacePointCellDecomposition.H:96-99 | the loops build one tetrahedron per key, in decomposition order |
| `TetDecomposition.TetFacePointCellDecomposition.DecomposeCell` | mcParticle/tetFacePointCellDecomposition/tetFacePointCellDecomposition.H:96-99 | one cell's pass appends that cell's tetrahedra, face by face and point by point |
| `TetDecomposition.TetFacePointCellDecomposition.IndexCell` | mcParticle/tetFacePointCellDecomposition/tetFacePointCellDecomposition.H:78-82 | one cell's pass appends that cell's tetrahedra's faces and point pairs, in order |
| `TetDecomposition.TetFacePointCellDecomposition.BuildIndex` | mcParticle/tetFacePointCellDecomposition/tetFacePointCellDecomposition.H:75-82 | tetFace and tetPoints run parallel to the tetrahedra, and cellTets holds each cell's run |
| `TetDecomposition.TetFacePointCellDecomposition.constructor` | mcParticle/tetFacePointCellDecomposition/tetFacePointCellDecomposition.H:119-120 | a new decomposition satisfies its invariant: parallel lists, one entry per key, the cell runs, indices in range |
| `TetDecomposition.TetFacePointCellDecomposition.Tetrahedra` | mcParticle/tetFacePointCellDecomposition/tetFacePointCellDecomposition.H:125-126 | tetrahedron t has its stored face's centre, its cell's centre and its two stored points as vertices |
| `TetDecomposition.TetFacePointCellDecomposition.CellTetrahedra` | mcParticle/tetFacePointCellDecomposition/tetFacePointCellDecomposition.H:128-129 | cell c's list holds exactly the tetrahedra of cell c, as consecutive in-range indices |
| `TetDecomposition.TetFacePointCellDecomposition.TetrahedronFace` | mcParticle/tetFacePointCellDecomposition/tetFacePointCellDecomposition.H:131-132 | each tetrahedron stands on a mesh face of its own cell, and that face's centre is its first vertex |
| `TetDecomposition.TetFacePointCellDecomposition.TetrahedronPoints` | mcParticle/tetFacePointCellDecomposition/tetFacePointCellDecomposition.H:134-135 | each point pair is the key's face point and the next point of the tetrahedron's face, and gives its two mesh-point vertices |
| `TetDecomposition.TetFacePointCellDecomposition.Find` | mcParticle/tetFacePointCellDecomposition/tetFacePointCellDecomposition.H:137-143 | the loops return Locate: -1 if and only if no tetrahedron contains the point, otherwise a containing one, with the hinted cell searched first |
| `InletOutletBoundary.Obtain` | mcParticle/mcBoundary/mcInletOutletBoundary/mcInletOutletBoundary.H:99-108 | a getter yields the held value if there is one, creates it otherwise, and the cache then holds what was returned |
| `InletOutletBoundary.ObtainStable` | mcParticle/mcBoundary/mcInletOutletBoundary/mcInletOutletBoundary.H:99-108 | once created, a field is returned unchanged by every later getter call |
| `InletOutletBoundary.McInletOutletBoundary.constructor` | mcParticle/mcBoundary/mcInletOutletBoundary/mcInletOutletBoundary.H:128-134 | the per-face lists have one entry per face and none of the lazy fields exists yet |
| `InletOutletBoundary.McInletOutletBoundary.GetU` | mcParticle/mcBoundary/mcInletOutletBoundary/mcInletOutletBoundary.H:99-101 | returns U_, creating it at most once; R_ and inRnd_ are untouched |
| `InletOutletBoundary.McInletOutletBoundary.GetR` | mcParticle/mcBoundary/mcInletOutletBoundary/mcInletOutletBoundary.H:103-105 | returns R_, creating it at most once; U_ and inRnd_ are untouched |
| `InletOutletBoundary.McInletOutletBoundary.GetInRnd` | mcParticle/mcBoundary/mcInletOutletBoundary/mcInletOutletBoundary.H:107-108 | returns the generators, creating them at most once from U_ and R_, which then exist too |
| `InletOutletBoundary.McInletOutletBoundary.RandomVelocity` | mcParticle/mcBoundary/mcInletOutletBoundary/mcInletOutletBoundary.H:113-114 | the velocity is drawn in the face's normal system from that face's generator, U and R, then rotated to the global system; rotating it back gives the draw |
| `InletOutletBoundary.McInletOutletBoundary.FaceRotationRoundTrip` | mcParticle/mcBoundary/mcInletOutletBoundary/mcInletOutletBoundary.H:74-78 | a face-normal vector taken to the global system and back is unchanged |
| `InletOutletBoundary.McInletOutletBoundary.GlobalRotationRoundTrip` | mcParticle/mcBoundary/mcInletOutletBoundary/mcInletOutletBoundary.H:74-78 | a global vector taken to the face-normal system and back is unchanged |

## Left out

- Binary stream format. The binary branches of the constructor and of `operator<<` copy raw memory. What they mean depends on the in-memory layout of the particle.
- The base `Particle<mcParticle>` part. Its stream text is a parameter of `WriteParticle`. The reader starts where the base constructor stopped. The base `readFields` and `writeFields` are not modelled.
- `ParticleIO.CheckFields`: it does not model missing files. A `MUST_READ` field file that does not exist is plumbing inside `IOField`. The model stops at the size check of `checkFieldIOobject`. A failed check aborts the program in the source; here it is an outcome that leaves the cloud unchanged.
- Writing the six `IOField` arrays to disk. `WriteFields` returns the arrays instead.
- ASCII number precision. Tokens carry exact reals, so the round trip does not see any precision lost when numbers are printed as decimal text.
- The exact layout of vector text and white-space handling. The model uses OpenFOAM's `( x y z )` form and skips spaces before every token.
- `TetDecomposition.TetFacePointCellDecomposition.Find`: the hint does not come with the neighbour search. `find` searches the hinted cell's tetrahedra first, then all of them in order. tetFacePointCellDecomposition.C is not part of this model, so no neighbour search of the hinted cell is modelled.
- `TetDecomposition.TetFacePointCellDecomposition.Find`: it does not accept a hint outside -1..nCells-1.
- Geometry of the mesh. Coordinates, face and cell centres, tetrahedron orientation and the point-in-tetrahedron test are not modelled. A tetrahedron is named by its vertices, and containment is a caller-supplied predicate.
- What `U_`, `R_` and `inRnd_` hold: the rotation of the patch fields into face-normal systems and the isotropic part of the stress. These are given to the constructor as the values that creation yields.
- `mcInletRandom` (PDF, CDF and its parameters). This is floating-point numerics with `exp` and `erf`.
- Random sampling inside `randomPoint` and `randomVelocity`. These draws are supplied as functions.
- `InletOutletBoundary.McInletOutletBoundary.RandomPoint`: kept only as the signature of a one-face draw. mcInletOutletBoundary.C is not part of this model, so how a point is sampled from a face's triangles, and any property of that point, is not modelled.
- `InletOutletBoundary.McInletOutletBoundary.GetInRnd`: its body is not shown. That it builds the generators from `U_` and `R_`, read through their getters, is inferred from the comments on `inRnd_` and `getInRnd` (mcInletOutletBoundary.H:88-90 and 107-108). The same inference gives the invariant that the generators exist only once `U_` and `R_` do.
- `InletOutletBoundary.McInletOutletBoundary.GetInRnd`: the source returns a non-const reference to the `inRnd_` list, so a caller could change the cached generators through it. The model returns a copy of the list, so that aliasing is not modelled.
- Invalidating or rebuilding `U_`, `R_` and `inRnd_` is not modelled. No code that clears these caches is shown. The model therefore states that each is created at most once over the whole life of the boundary object.
- `InletOutletBoundary.McInletOutletBoundary.RandomVelocity`: the body is not shown. The composition (draw in the face-normal system, then rotate with `revTrans_`) is inferred from the comments on `U_`, `R_` and `revTrans_`.
- The computation of `probVec_`, `fwdTrans_` and `revTrans_` from the patch geometry. They are constructor parameters, and `fwdTrans_` and `revTrans_` are required to be mutually inverse.
- `correct(afterMove)`, the particle-release logic. Its body is not shown and it is stochastic.
- The `FULLDEBUG` statistics file.
- The mixing models, the thermo wrapper and the solver's convergence check. These lie outside the modelled core.
