/** Value types shared by the particle, decomposition and boundary models.
    Components are exact reals, and the arithmetic on them (tensor-vector
    application, the tensor product) is exact real arithmetic, never
    floating point. */
module Geometry {

  /** A 3-vector (OpenFOAM `vector`). */
  datatype Vector = Vector(x: real, y: real, z: real)

  /** `vector::zero` */
  const Zero: Vector := Vector(0.0, 0.0, 0.0)

  /** A symmetric 3x3 tensor (OpenFOAM `symmTensor`), six independent components. */
  datatype SymmTensor = SymmTensor(xx: real, xy: real, xz: real, yy: real, yz: real, zz: real)

  /** A full 3x3 tensor (OpenFOAM `tensor`), row by row. */
  datatype Tensor = Tensor(xx: real, xy: real, xz: real,
                           yx: real, yy: real, yz: real,
                           zx: real, zy: real, zz: real)

  /** The identity tensor (`tensor::I`). */
  const I: Tensor := Tensor(1.0, 0.0, 0.0, 0.0, 1.0, 0.0, 0.0, 0.0, 1.0)

  /** Tensor applied to a vector (`t & v`). */
  function Apply(t: Tensor, v: Vector): Vector
  {
    Vector(t.xx * v.x + t.xy * v.y + t.xz * v.z,
           t.yx * v.x + t.yy * v.y + t.yz * v.z,
           t.zx * v.x + t.zy * v.y + t.zz * v.z)
  }

  /** Tensor product (`a & b`). */
  function Compose(a: Tensor, b: Tensor): Tensor
  {
    Tensor(a.xx * b.xx + a.xy * b.yx + a.xz * b.zx,
           a.xx * b.xy + a.xy * b.yy + a.xz * b.zy,
           a.xx * b.xz + a.xy * b.yz + a.xz * b.zz,
           a.yx * b.xx + a.yy * b.yx + a.yz * b.zx,
           a.yx * b.xy + a.yy * b.yy + a.yz * b.zy,
           a.yx * b.xz + a.yy * b.yz + a.yz * b.zz,
           a.zx * b.xx + a.zy * b.yx + a.zz * b.zx,
           a.zx * b.xy + a.zy * b.yy + a.zz * b.zy,
           a.zx * b.xz + a.zy * b.yz + a.zz * b.zz)
  }

  /** Applying b and then a is applying their product. */
  lemma ApplyCompose(a: Tensor, b: Tensor, v: Vector)
    ensures Apply(a, Apply(b, v)) == Apply(Compose(a, b), v)
  {
    var w := Apply(b, v);
    var c := Compose(a, b);
    assert w == Vector(b.xx * v.x + b.xy * v.y + b.xz * v.z,
                       b.yx * v.x + b.yy * v.y + b.yz * v.z,
                       b.zx * v.x + b.zy * v.y + b.zz * v.z);
    Row(a.xx, a.xy, a.xz, b.xx, b.xy, b.xz, b.yx, b.yy, b.yz, b.zx, b.zy, b.zz, v.x, v.y, v.z);
    Row(a.yx, a.yy, a.yz, b.xx, b.xy, b.xz, b.yx, b.yy, b.yz, b.zx, b.zy, b.zz, v.x, v.y, v.z);
    Row(a.zx, a.zy, a.zz, b.xx, b.xy, b.xz, b.yx, b.yy, b.yz, b.zx, b.zy, b.zz, v.x, v.y, v.z);
    assert Apply(a, w).x == Apply(c, v).x;
    assert Apply(a, w).y == Apply(c, v).y;
    assert Apply(a, w).z == Apply(c, v).z;
  }

  /** One row of ApplyCompose: a row of a times (b times v) is (that row of a
      times b) times v. */
  lemma Row(a1: real, a2: real, a3: real,
            b11: real, b12: real, b13: real, b21: real, b22: real, b23: real,
            b31: real, b32: real, b33: real, x: real, y: real, z: real)
    ensures a1 * (b11 * x + b12 * y + b13 * z) + a2 * (b21 * x + b22 * y + b23 * z) +
            a3 * (b31 * x + b32 * y + b33 * z)
         == (a1 * b11 + a2 * b21 + a3 * b31) * x + (a1 * b12 + a2 * b22 + a3 * b32) * y +
            (a1 * b13 + a2 * b23 + a3 * b33) * z
  {
    Distrib(a1, b11 * x, b12 * y, b13 * z);
    Distrib(a2, b21 * x, b22 * y, b23 * z);
    Distrib(a3, b31 * x, b32 * y, b33 * z);
    Distrib(x, a1 * b11, a2 * b21, a3 * b31);
    Distrib(y, a1 * b12, a2 * b22, a3 * b32);
    Distrib(z, a1 * b13, a2 * b23, a3 * b33);
  }

  lemma Distrib(k: real, p: real, q: real, s: real)
    ensures k * (p + q + s) == k * p + k * q + k * s
    ensures (p + q + s) * k == p * k + q * k + s * k
  {
  }

  lemma ApplyIdentity(v: Vector)
    ensures Apply(I, v) == v
  {
  }
}
