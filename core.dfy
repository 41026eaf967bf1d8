/**
 * The homogeneous transform builder of gzpy's core: a 4 x 4 matrix whose
 * upper 3 x 3 block is an Euler-angle rotation with only the y angle set and
 * whose last column is a translation. cos and sin of the angle are given as
 * reals `c` and `s`.
 */
module Core {
  import opened Geometry

  /** A 3 x 3 matrix, row by row. */
  datatype Mat3 = Mat3(r0: Vec3, r1: Vec3, r2: Vec3) {
    function Row(i: Axis): Vec3 {
      if i == 0 then r0 else if i == 1 then r1 else r2
    }
    function At(i: Axis, j: Axis): real {
      Row(i).At(j)
    }
  }

  function Identity3(): Mat3 {
    Mat3(Vec3(1.0, 0.0, 0.0), Vec3(0.0, 1.0, 0.0), Vec3(0.0, 0.0, 1.0))
  }

  function Dot(u: Vec3, v: Vec3): real {
    u.x * v.x + u.y * v.y + u.z * v.z
  }

  function Column(m: Mat3, j: Axis): Vec3 {
    Vec3(m.r0.At(j), m.r1.At(j), m.r2.At(j))
  }

  function Transpose(m: Mat3): Mat3 {
    Mat3(Column(m, 0), Column(m, 1), Column(m, 2))
  }

  function MulVec(m: Mat3, v: Vec3): Vec3 {
    Vec3(Dot(m.r0, v), Dot(m.r1, v), Dot(m.r2, v))
  }

  function Mul(m: Mat3, n: Mat3): Mat3 {
    Mat3(
      Vec3(Dot(m.r0, Column(n, 0)), Dot(m.r0, Column(n, 1)), Dot(m.r0, Column(n, 2))),
      Vec3(Dot(m.r1, Column(n, 0)), Dot(m.r1, Column(n, 1)), Dot(m.r1, Column(n, 2))),
      Vec3(Dot(m.r2, Column(n, 0)), Dot(m.r2, Column(n, 1)), Dot(m.r2, Column(n, 2))))
  }

  function Det(m: Mat3): real {
    m.r0.x * (m.r1.y * m.r2.z - m.r1.z * m.r2.y)
    - m.r0.y * (m.r1.x * m.r2.z - m.r1.z * m.r2.x)
    + m.r0.z * (m.r1.x * m.r2.y - m.r1.y * m.r2.x)
  }

  function NormSquared(v: Vec3): real {
    Dot(v, v)
  }

  /** The Euler product of the builder, written from the cosines and sines of rx, ry, rz. */
  function EulerBlock(cx: real, sx: real, cy: real, sy: real, cz: real, sz: real): Mat3 {
    Mat3(
      Vec3(cy * cz, -cy * sz, sy),
      Vec3(sx * sy * cz + cx * sz, -sx * sy * sz + cx * cz, -sx * cy),
      Vec3(-cx * sy * cz + sx * sz, cx * sy * sz + sx * cz, cx * cy))
  }

  /** Elementary rotations about the x, y and z axes, from cosine and sine. */
  function RotX(c: real, s: real): Mat3 {
    Mat3(Vec3(1.0, 0.0, 0.0), Vec3(0.0, c, -s), Vec3(0.0, s, c))
  }

  function RotY(c: real, s: real): Mat3 {
    Mat3(Vec3(c, 0.0, s), Vec3(0.0, 1.0, 0.0), Vec3(-s, 0.0, c))
  }

  function RotZ(c: real, s: real): Mat3 {
    Mat3(Vec3(c, -s, 0.0), Vec3(s, c, 0.0), Vec3(0.0, 0.0, 1.0))
  }

  /** The Euler matrix applied to a point, entry by entry. */
  lemma EulerBlockApplied(cx: real, sx: real, cy: real, sy: real, cz: real, sz: real, p: Vec3)
    ensures MulVec(EulerBlock(cx, sx, cy, sy, cz, sz), p)
         == Vec3((cy * cz) * p.x + (-cy * sz) * p.y + sy * p.z,
                 (sx * sy * cz + cx * sz) * p.x + (-sx * sy * sz + cx * cz) * p.y + (-sx * cy) * p.z,
                 (-cx * sy * cz + sx * sz) * p.x + (cx * sy * sz + sx * cz) * p.y + (cx * cy) * p.z)
  {
  }

  /** Rotating a point about z, then about y, then about x, entry by entry. */
  lemma RotationsApplied(cx: real, sx: real, cy: real, sy: real, cz: real, sz: real, p: Vec3)
    ensures MulVec(RotX(cx, sx), MulVec(RotY(cy, sy), MulVec(RotZ(cz, sz), p)))
         == Vec3(cy * (cz * p.x - sz * p.y) + sy * p.z,
                 cx * (sz * p.x + cz * p.y) - sx * (-sy * (cz * p.x - sz * p.y) + cy * p.z),
                 sx * (sz * p.x + cz * p.y) + cx * (-sy * (cz * p.x - sz * p.y) + cy * p.z))
  {
  }

  /** The two entry-by-entry forms are the same polynomials. */
  lemma EulerPolynomials(cx: real, sx: real, cy: real, sy: real, cz: real, sz: real, x: real, y: real, z: real)
    ensures (cy * cz) * x + (-cy * sz) * y + sy * z == cy * (cz * x - sz * y) + sy * z
    ensures (sx * sy * cz + cx * sz) * x + (-sx * sy * sz + cx * cz) * y + (-sx * cy) * z
         == cx * (sz * x + cz * y) - sx * (-sy * (cz * x - sz * y) + cy * z)
    ensures (-cx * sy * cz + sx * sz) * x + (cx * sy * sz + sx * cz) * y + (cx * cy) * z
         == sx * (sz * x + cz * y) + cx * (-sy * (cz * x - sz * y) + cy * z)
  {
  }

  /**
   * The written-out Euler matrix is the product `Rx(rx) Ry(ry) Rz(rz)` (the x-y-z
   * convention): applying it rotates a point about z, then about y, then about x.
   */
  lemma EulerBlockIsXYZProduct(cx: real, sx: real, cy: real, sy: real, cz: real, sz: real, p: Vec3)
    ensures MulVec(EulerBlock(cx, sx, cy, sy, cz, sz), p)
         == MulVec(RotX(cx, sx), MulVec(RotY(cy, sy), MulVec(RotZ(cz, sz), p)))
  {
    EulerBlockApplied(cx, sx, cy, sy, cz, sz, p);
    RotationsApplied(cx, sx, cy, sy, cz, sz, p);
    EulerPolynomials(cx, sx, cy, sy, cz, sz, p.x, p.y, p.z);
  }

  /**
   * The rotation block of the builder: the Euler product with rx = rz = 0
   * (cos 0 = 1, sin 0 = 0) and ry the given angle. It is a rotation about the y axis.
   */
  function RotationBlock(c: real, s: real): (r: Mat3)
    ensures r == Mat3(Vec3(c, 0.0, s), Vec3(0.0, 1.0, 0.0), Vec3(-s, 0.0, c))
  {
    EulerBlock(1.0, 0.0, c, s, 1.0, 0.0)
  }

  /** Given cos^2 + sin^2 = 1, the block is a proper rotation: orthogonal with determinant 1. */
  lemma RotationBlockIsRotation(c: real, s: real)
    requires c * c + s * s == 1.0
    ensures Mul(Transpose(RotationBlock(c, s)), RotationBlock(c, s)) == Identity3()
    ensures Mul(RotationBlock(c, s), Transpose(RotationBlock(c, s))) == Identity3()
    ensures Det(RotationBlock(c, s)) == 1.0
  {
  }

  /** A rotation keeps lengths: |R p|^2 = |p|^2. */
  lemma RotationPreservesLength(c: real, s: real, p: Vec3)
    requires c * c + s * s == 1.0
    ensures NormSquared(MulVec(RotationBlock(c, s), p)) == NormSquared(p)
  {
    var q := MulVec(RotationBlock(c, s), p);
    calc {
      NormSquared(q);
      (c * p.x + s * p.z) * (c * p.x + s * p.z) + p.y * p.y + (-s * p.x + c * p.z) * (-s * p.x + c * p.z);
      (c * c + s * s) * (p.x * p.x) + p.y * p.y + (c * c + s * s) * (p.z * p.z);
      NormSquared(p);
    }
  }

  /** A row-vector point mapped by a rotation block and then shifted by a translation. */
  function Apply(r: Mat3, t: Vec3, p: Vec3): Vec3 {
    Add(MulVec(r, p), t)
  }

  /** The middle row of the block is [0, 1, 0]: the transform moves y by the translation only. */
  lemma TransformKeepsY(c: real, s: real, t: Vec3, p: Vec3)
    ensures Apply(RotationBlock(c, s), t, p).y == p.y + t.y
  {
  }

  /** At angle 0 the block is the identity and the transform is a pure translation. */
  lemma ZeroAngleIsTranslation(t: Vec3, p: Vec3)
    ensures RotationBlock(1.0, 0.0) == Identity3()
    ensures Apply(RotationBlock(1.0, 0.0), t, p) == Add(p, t)
  {
  }

  /** `np.eye(4)`. */
  method Eye4() returns (m: array2<real>)
    ensures fresh(m) && m.Length0 == 4 && m.Length1 == 4
    ensures forall i, j :: 0 <= i < 4 && 0 <= j < 4 ==> m[i, j] == if i == j then 1.0 else 0.0
  {
    m := new real[4, 4];
    forall i, j | 0 <= i < 4 && 0 <= j < 4 {
      m[i, j] := if i == j then 1.0 else 0.0;
    }
  }

  /** States that `m` is the 4 x 4 homogeneous matrix [R | t ; 0 0 0 1]. */
  ghost predicate IsHomogeneous(m: array2<real>, r: Mat3, t: Vec3)
    reads m
  {
    m.Length0 == 4 && m.Length1 == 4 &&
    (forall i: Axis, j: Axis :: m[i, j] == r.At(i, j)) &&
    (forall i: Axis :: m[i, 3] == t.At(i)) &&
    m[3, 0] == 0.0 && m[3, 1] == 0.0 && m[3, 2] == 0.0 && m[3, 3] == 1.0
  }

  /**
   * The transform builder: start from the identity, overwrite the upper 3 x 3
   * block with the rotation and rows 0-2 of the last column with the translation.
   */
  method RotationMatrix(translation: Vec3, c: real, s: real) returns (m: array2<real>)
    requires c * c + s * s == 1.0
    ensures fresh(m)
    ensures m.Length0 == 4 && m.Length1 == 4
    ensures forall i: Axis, j: Axis :: m[i, j] == RotationBlock(c, s).At(i, j)
    ensures forall i: Axis :: m[i, 3] == translation.At(i)
    ensures m[3, 0] == 0.0 && m[3, 1] == 0.0 && m[3, 2] == 0.0 && m[3, 3] == 1.0
  {
    var r := RotationBlock(c, s);
    m := Eye4();
    forall i, j | 0 <= i < 3 && 0 <= j < 3 {
      m[i, j] := r.At(i, j);
    }
    forall i | 0 <= i < 3 {
      m[i, 3] := translation.At(i);
    }
  }

  /** One point through a 4 x 4 matrix in homogeneous coordinates, keeping the first three. */
  function ApplyMatrix(m: array2<real>, p: Vec3): Vec3
    reads m
    requires m.Length0 == 4 && m.Length1 == 4
  {
    Vec3(
      m[0, 0] * p.x + m[0, 1] * p.y + m[0, 2] * p.z + m[0, 3],
      m[1, 0] * p.x + m[1, 1] * p.y + m[1, 2] * p.z + m[1, 3],
      m[2, 0] * p.x + m[2, 1] * p.y + m[2, 2] * p.z + m[2, 3])
  }

  /** Every point of a cloud through a 4 x 4 matrix. */
  function TransformPoints(m: array2<real>, points: seq<Vec3>): (r: seq<Vec3>)
    reads m
    requires m.Length0 == 4 && m.Length1 == 4
    ensures |r| == |points|
    ensures forall i :: 0 <= i < |points| ==> r[i] == ApplyMatrix(m, points[i])
  {
    if points == [] then [] else [ApplyMatrix(m, points[0])] + TransformPoints(m, points[1..])
  }

  /** Every point of a cloud through the rotation block and translation, as values. */
  function ApplyAll(r: Mat3, t: Vec3, points: seq<Vec3>): (q: seq<Vec3>)
    ensures |q| == |points|
  {
    if points == [] then [] else [Apply(r, t, points[0])] + ApplyAll(r, t, points[1..])
  }

  /** The `i`-th point of the moved cloud is the `i`-th point of the cloud, moved. */
  lemma {:induction false} ApplyAllAt(r: Mat3, t: Vec3, points: seq<Vec3>, i: nat)
    requires i < |points|
    ensures ApplyAll(r, t, points)[i] == Apply(r, t, points[i])
  {
    if i > 0 {
      ApplyAllAt(r, t, points[1..], i - 1);
    }
  }

  /** One point: for a homogeneous matrix [R | t] the product is R p + t. */
  lemma HomogeneousPoint(m: array2<real>, r: Mat3, t: Vec3, p: Vec3)
    requires IsHomogeneous(m, r, t)
    ensures ApplyMatrix(m, p) == Apply(r, t, p)
  {
    assert m[0, 0] == r.r0.x && m[0, 1] == r.r0.y && m[0, 2] == r.r0.z by {
      assert r.At(0, 0) == r.r0.x && r.At(0, 1) == r.r0.y && r.At(0, 2) == r.r0.z;
    }
    assert m[1, 0] == r.r1.x && m[1, 1] == r.r1.y && m[1, 2] == r.r1.z by {
      assert r.At(1, 0) == r.r1.x && r.At(1, 1) == r.r1.y && r.At(1, 2) == r.r1.z;
    }
    assert m[2, 0] == r.r2.x && m[2, 1] == r.r2.y && m[2, 2] == r.r2.z by {
      assert r.At(2, 0) == r.r2.x && r.At(2, 1) == r.r2.y && r.At(2, 2) == r.r2.z;
    }
    assert m[0, 3] == t.x && m[1, 3] == t.y && m[2, 3] == t.z by {
      assert t.At(0) == t.x && t.At(1) == t.y && t.At(2) == t.z;
    }
  }

  /** For a homogeneous matrix [R | t], transforming a cloud rotates, then translates each point. */
  lemma HomogeneousIsRotateThenTranslate(m: array2<real>, r: Mat3, t: Vec3, points: seq<Vec3>)
    requires IsHomogeneous(m, r, t)
    ensures TransformPoints(m, points) == ApplyAll(r, t, points)
  {
    forall i | 0 <= i < |points|
      ensures ApplyMatrix(m, points[i]) == Apply(r, t, points[i])
    {
      HomogeneousPoint(m, r, t, points[i]);
      ApplyAllAt(r, t, points, i);
    }
  }
}
