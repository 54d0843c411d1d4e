/** The inlet/outlet boundary of the particle cloud: per-face data fixed at
    construction (triangle weights, the rotations into and out of the
    face-normal system) and three per-face fields that are created lazily, the
    first time their getter asks for them.

    What the fields hold is left abstract: the values creation yields are
    given when the boundary is built, the velocity generator is named by the
    data it is built from, and the random draws are functions the caller
    supplies. */
module InletOutletBoundary {
  import opened Geometry

  /** A lazily created field: not created yet, or created with its value. */
  datatype Cache<T> = Uninitialised | Ready(value: T)

  /** A getter on a cache: the held value when there is one; otherwise `make`,
      which the cache holds from then on. Returns the new cache and the value. */
  function Obtain<T>(c: Cache<T>, make: T): (r: (Cache<T>, T))
    ensures r.0 == Ready(r.1)
    ensures c.Ready? ==> r.0 == c
    ensures c.Uninitialised? ==> r.1 == make
  {
    match c
    case Ready(v) => (c, v)
    case Uninitialised => (Ready(make), make)
  }

  /** Once created, a cache answers every later getter call with the same
      value and stays as it is. */
  lemma ObtainStable<T>(c: Cache<T>, make: T, other: T)
    ensures Obtain(Obtain(c, make).0, other) == Obtain(c, make)
  {
  }

  /** The wall-normal velocity generator of one face (`mcInletRandom`), named
      by the face-normal mean velocity and stress it is built from. */
  datatype InletRandom = InletRandom(u: Vector, r: SymmTensor)

  /** One generator per face, face i's built from entry i of U and R. */
  function Generators(u: seq<Vector>, r: seq<SymmTensor>): (g: seq<InletRandom>)
    requires |u| == |r|
    ensures |g| == |u|
    ensures forall i :: 0 <= i < |g| ==> g[i].u == u[i] && g[i].r == r[i]
  {
    seq(|u|, i requires 0 <= i < |u| => InletRandom(u[i], r[i]))
  }

  /** fwd and rev undo each other, in either order. */
  predicate Inverse(fwd: Tensor, rev: Tensor)
  {
    Compose(rev, fwd) == I && Compose(fwd, rev) == I
  }

  class McInletOutletBoundary {
    /** Number of faces of the patch. */
    const nFaces: nat
    /** `probVec_`: per face, the weights of its surface triangles. */
    const probVec: seq<seq<real>>
    /** `fwdTrans_`: per face, global to face-normal system. */
    const fwdTrans: seq<Tensor>
    /** `revTrans_`: per face, face-normal to global system. */
    const revTrans: seq<Tensor>
    /** What creating `U_` yields: per face, the mean velocity in the face-normal system. */
    const uFaces: seq<Vector>
    /** What creating `R_` yields: per face, the stress in the face-normal system. */
    const rFaces: seq<SymmTensor>

    /** `U_`, `R_` and `inRnd_`, reached only through GetU, GetR and GetInRnd. */
    var u: Cache<seq<Vector>>
    var r: Cache<seq<SymmTensor>>
    var inRnd: Cache<seq<InletRandom>>

    /** How many times each field has been created. */
    ghost var uBuilt: nat
    ghost var rBuilt: nat
    ghost var inRndBuilt: nat

    /** Every per-face list has one entry per face, each rotation pair is
        inverse, a created field holds what creation yields, the generators
        exist only once U and R do, and nothing is created more than once. */
    ghost predicate Valid()
      reads this
    {
      |probVec| == nFaces && |fwdTrans| == nFaces && |revTrans| == nFaces &&
      |uFaces| == nFaces && |rFaces| == nFaces &&
      (forall f :: 0 <= f < nFaces ==> Inverse(fwdTrans[f], revTrans[f])) &&
      (u.Ready? ==> u.value == uFaces) &&
      (r.Ready? ==> r.value == rFaces) &&
      (inRnd.Ready? ==> inRnd.value == Generators(uFaces, rFaces) && u.Ready? && r.Ready?) &&
      uBuilt <= 1 && rBuilt <= 1 && inRndBuilt <= 1 &&
      (u.Uninitialised? ==> uBuilt == 0) &&
      (r.Uninitialised? ==> rBuilt == 0) &&
      (inRnd.Uninitialised? ==> inRndBuilt == 0)
    }

    /** `mcInletOutletBoundary(cloud, patchID, dict)`: the per-face data is
        set up, the three lazy fields are not. */
    constructor (probVec: seq<seq<real>>, fwdTrans: seq<Tensor>, revTrans: seq<Tensor>,
                 uFaces: seq<Vector>, rFaces: seq<SymmTensor>)
      requires |fwdTrans| == |probVec| && |revTrans| == |probVec|
      requires |uFaces| == |probVec| && |rFaces| == |probVec|
      requires forall f :: 0 <= f < |probVec| ==> Inverse(fwdTrans[f], revTrans[f])
      ensures Valid()
      ensures nFaces == |probVec| && this.probVec == probVec
      ensures this.fwdTrans == fwdTrans && this.revTrans == revTrans
      ensures this.uFaces == uFaces && this.rFaces == rFaces
      ensures u.Uninitialised? && r.Uninitialised? && inRnd.Uninitialised?
    {
      nFaces := |probVec|;
      this.probVec, this.fwdTrans, this.revTrans := probVec, fwdTrans, revTrans;
      this.uFaces, this.rFaces := uFaces, rFaces;
      u, r, inRnd := Uninitialised, Uninitialised, Uninitialised;
      uBuilt, rBuilt, inRndBuilt := 0, 0, 0;
    }

    /** `getU()`: U_, created if necessary; R_ and inRnd_ are untouched. */
    method GetU() returns (res: seq<Vector>)
      requires Valid()
      modifies this
      ensures Valid()
      ensures res == uFaces && |res| == nFaces
      ensures (u, res) == Obtain(old(u), uFaces)
      ensures r == old(r) && inRnd == old(inRnd)
      ensures old(u).Ready? ==> uBuilt == old(uBuilt)
      ensures old(u).Uninitialised? ==> uBuilt == old(uBuilt) + 1 == 1
      ensures rBuilt == old(rBuilt) && inRndBuilt == old(inRndBuilt)
    {
      if u.Uninitialised? {
        u := Ready(uFaces);
        uBuilt := uBuilt + 1;
      }
      res := u.value;
    }

    /** `getR()`: R_, created if necessary; U_ and inRnd_ are untouched. */
    method GetR() returns (res: seq<SymmTensor>)
      requires Valid()
      modifies this
      ensures Valid()
      ensures res == rFaces && |res| == nFaces
      ensures (r, res) == Obtain(old(r), rFaces)
      ensures u == old(u) && inRnd == old(inRnd)
      ensures old(r).Ready? ==> rBuilt == old(rBuilt)
      ensures old(r).Uninitialised? ==> rBuilt == old(rBuilt) + 1 == 1
      ensures uBuilt == old(uBuilt) && inRndBuilt == old(inRndBuilt)
    {
      if r.Uninitialised? {
        r := Ready(rFaces);
        rBuilt := rBuilt + 1;
      }
      res := r.value;
    }

    /** `getInRnd()`: the generators, created if necessary from U and R, which
        are themselves read through their getters. */
    method GetInRnd() returns (res: seq<InletRandom>)
      requires Valid()
      modifies this
      ensures Valid()
      ensures res == Generators(uFaces, rFaces) && |res| == nFaces
      ensures (inRnd, res) == Obtain(old(inRnd), Generators(uFaces, rFaces))
      ensures u.Ready? && r.Ready?
      ensures old(inRnd).Ready? ==> u == old(u) && r == old(r) && inRndBuilt == old(inRndBuilt)
      ensures old(inRnd).Uninitialised? ==> inRndBuilt == old(inRndBuilt) + 1 == 1
    {
      if inRnd.Uninitialised? {
        var us := GetU();
        var rs := GetR();
        inRnd := Ready(Generators(us, rs));
        inRndBuilt := inRndBuilt + 1;
      }
      res := inRnd.value;
    }

    /** `randomPoint(faceI)`: a point on face faceI, drawn by `pick` from that
        face's triangle weights alone. */
    method RandomPoint(faceI: nat, pick: (nat, seq<real>) -> Vector) returns (p: Vector)
      requires Valid() && faceI < nFaces
      ensures p == pick(faceI, probVec[faceI])
    {
      p := pick(faceI, probVec[faceI]);
    }

    /** `randomVelocity(faceI)`: a velocity drawn in face faceI's normal system
        from that face's generator, mean velocity and stress, then rotated
        into the global system; the lazy fields it needs are created. */
    method RandomVelocity(faceI: nat, draw: (InletRandom, Vector, SymmTensor) -> Vector)
      returns (v: Vector)
      requires Valid() && faceI < nFaces
      modifies this
      ensures Valid()
      ensures u.Ready? && r.Ready? && inRnd.Ready?
      ensures v == Apply(revTrans[faceI], draw(Generators(uFaces, rFaces)[faceI],
                                               uFaces[faceI], rFaces[faceI]))
      ensures Apply(fwdTrans[faceI], v) == draw(Generators(uFaces, rFaces)[faceI],
                                                uFaces[faceI], rFaces[faceI])
    {
      var gens := GetInRnd();
      var us := GetU();
      var rs := GetR();
      var local := draw(gens[faceI], us[faceI], rs[faceI]);
      v := Apply(revTrans[faceI], local);
      FaceRotationRoundTrip(faceI, local);
    }

    /** A face-normal vector taken to the global system and back is unchanged. */
    lemma FaceRotationRoundTrip(f: nat, w: Vector)
      requires Valid() && f < nFaces
      ensures Apply(fwdTrans[f], Apply(revTrans[f], w)) == w
    {
      ApplyCompose(fwdTrans[f], revTrans[f], w);
      ApplyIdentity(w);
    }

    /** A global vector taken to face f's normal system and back is unchanged. */
    lemma GlobalRotationRoundTrip(f: nat, v: Vector)
      requires Valid() && f < nFaces
      ensures Apply(revTrans[f], Apply(fwdTrans[f], v)) == v
    {
      ApplyCompose(revTrans[f], fwdTrans[f], v);
      ApplyIdentity(v);
    }
  }
}
