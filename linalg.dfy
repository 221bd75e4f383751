/**
 * The slice of glm's 2D/3D linear algebra the visualiser's state uses: a `vec2`, a `vec3`
 * and a column-major `mat3x3`, where `m[i]` is column i and `m[i][j]` its component j.
 * Arithmetic is over exact reals; glm's float32 storage is not modelled.
 */
module LinAlg {

  datatype Vec2 = Vec2(x: real, y: real)
  datatype Vec3 = Vec3(x: real, y: real, z: real)

  /** A 3x3 matrix stored as its three columns, `c0 == m[0]`, `c1 == m[1]`, `c2 == m[2]`. */
  datatype Mat3 = Mat3(c0: Vec3, c1: Vec3, c2: Vec3)

  /** Component i of a vec2, as `v[i]`. */
  function Comp2(v: Vec2, i: nat): real
    requires i < 2
  {
    if i == 0 then v.x else v.y
  }

  /** `v` with component i replaced by `a` (the in-place `v[i] = a`). */
  function WithComp2(v: Vec2, i: nat, a: real): (r: Vec2)
    requires i < 2
    ensures Comp2(r, i) == a
    ensures Comp2(r, 1 - i) == Comp2(v, 1 - i)
  {
    if i == 0 then v.(x := a) else v.(y := a)
  }

  /** Component j of a vec3, as `v[j]`. */
  function Comp3(v: Vec3, j: nat): real
    requires j < 3
  {
    if j == 0 then v.x else if j == 1 then v.y else v.z
  }

  function WithComp3(v: Vec3, j: nat, a: real): (r: Vec3)
    requires j < 3
    ensures forall k | 0 <= k < 3 :: Comp3(r, k) == if k == j then a else Comp3(v, k)
  {
    if j == 0 then v.(x := a) else if j == 1 then v.(y := a) else v.(z := a)
  }

  /** Column i, as `m[i]`. */
  function Column(m: Mat3, i: nat): Vec3
    requires i < 3
  {
    if i == 0 then m.c0 else if i == 1 then m.c1 else m.c2
  }

  /** Entry `m[i][j]`: component j of column i. */
  function Entry(m: Mat3, i: nat, j: nat): real
    requires i < 3 && j < 3
  {
    Comp3(Column(m, i), j)
  }

  /** `m` with column i replaced (the in-place `m[i] = c`): only that column changes. */
  function WithColumn(m: Mat3, i: nat, c: Vec3): (r: Mat3)
    requires i < 3
    ensures forall k | 0 <= k < 3 :: Column(r, k) == if k == i then c else Column(m, k)
  {
    if i == 0 then m.(c0 := c) else if i == 1 then m.(c1 := c) else m.(c2 := c)
  }

  /** `m` with entry (i, j) replaced (the in-place `m[i][j] = a`): every other entry is kept. */
  function WithEntry(m: Mat3, i: nat, j: nat, a: real): (r: Mat3)
    requires i < 3 && j < 3
    ensures forall k, l | 0 <= k < 3 && 0 <= l < 3 ::
      Entry(r, k, l) == if k == i && l == j then a else Entry(m, k, l)
    ensures forall k | 0 <= k < 3 && k != i :: Column(r, k) == Column(m, k)
  {
    WithColumn(m, i, WithComp3(Column(m, i), j, a))
  }

  /** `glm.mat3x3()`: the identity. */
  function Identity(): (m: Mat3)
    ensures forall i, j | 0 <= i < 3 && 0 <= j < 3 :: Entry(m, i, j) == if i == j then 1.0 else 0.0
  {
    Mat3(Vec3(1.0, 0.0, 0.0), Vec3(0.0, 1.0, 0.0), Vec3(0.0, 0.0, 1.0))
  }

  /** `glm.scale(vec2(s, s))` for a mat3: scales x and y by s, keeps the homogeneous coordinate. */
  function Scaling(s: real): (m: Mat3)
    ensures forall i, j | 0 <= i < 3 && 0 <= j < 3 ::
      Entry(m, i, j) == if i != j then 0.0 else if i < 2 then s else 1.0
  {
    Mat3(Vec3(s, 0.0, 0.0), Vec3(0.0, s, 0.0), Vec3(0.0, 0.0, 1.0))
  }

  /** `a * v` for a vec3: the combination of a's columns weighted by v's components. */
  function Apply3(a: Mat3, v: Vec3): Vec3 {
    Vec3(a.c0.x * v.x + a.c1.x * v.y + a.c2.x * v.z,
         a.c0.y * v.x + a.c1.y * v.y + a.c2.y * v.z,
         a.c0.z * v.x + a.c1.z * v.y + a.c2.z * v.z)
  }

  /** The matrix product `a * b`, column by column. */
  function Mul(a: Mat3, b: Mat3): (r: Mat3)
    ensures IsLinearMap(a) && IsLinearMap(b) ==> IsLinearMap(r)
    ensures a == Identity() ==> r == b
  {
    Mat3(Apply3(a, b.c0), Apply3(a, b.c1), Apply3(a, b.c2))
  }

  /**
   * `m * p` for a mat3 and a vec2: p is taken as the homogeneous point (p.x, p.y, 1)
   * and the first two components of the product are returned.
   */
  function Transform(m: Mat3, p: Vec2): (r: Vec2)
    ensures IsLinearMap(m) && p == Vec2(0.0, 0.0) ==> r == p
    ensures m == Identity() ==> r == p
  {
    Vec2(m.c0.x * p.x + m.c1.x * p.y + m.c2.x,
         m.c0.y * p.x + m.c1.y * p.y + m.c2.y)
  }

  /**
   * The shape every matrix of the visualiser keeps: zero z components in the two basis
   * columns and the third column (the translation) still (0, 0, 1), so that the matrix
   * is a 2x2 linear map.
   */
  predicate IsLinearMap(m: Mat3) {
    m.c0.z == 0.0 && m.c1.z == 0.0 && m.c2 == Vec3(0.0, 0.0, 1.0)
  }

  /** The identity is a linear map and leaves every point where it is. */
  lemma IdentityIsNeutral(p: Vec2)
    ensures IsLinearMap(Identity())
    ensures Transform(Identity(), p) == p
  {
  }

  /**
   * One component of `(a * b) * p` equals a applied to b's image of p: m0, m1 are the
   * entries of `a * b` and q0, q1 the image of p, each given by its defining equation.
   */
  lemma RegroupComponent(a0: real, a1: real, b00: real, b01: real, b10: real, b11: real,
                         x: real, y: real, m0: real, m1: real, q0: real, q1: real)
    requires m0 == a0 * b00 + a1 * b01 && m1 == a0 * b10 + a1 * b11
    requires q0 == b00 * x + b10 * y && q1 == b01 * x + b11 * y
    ensures m0 * x + m1 * y == a0 * q0 + a1 * q1
  {
  }

  /** The entries of `a * b` that `mat3 * vec2` reads, when b is a linear map. */
  lemma ProductEntries(a: Mat3, b: Mat3)
    requires IsLinearMap(b)
    ensures Mul(a, b).c0.x == a.c0.x * b.c0.x + a.c1.x * b.c0.y
    ensures Mul(a, b).c0.y == a.c0.y * b.c0.x + a.c1.y * b.c0.y
    ensures Mul(a, b).c1.x == a.c0.x * b.c1.x + a.c1.x * b.c1.y
    ensures Mul(a, b).c1.y == a.c0.y * b.c1.x + a.c1.y * b.c1.y
    ensures Mul(a, b).c2.x == a.c2.x && Mul(a, b).c2.y == a.c2.y
  {
  }

  /** Composing matrices composes the transforms, as long as the inner one is a linear map. */
  lemma {:induction false} TransformOfProduct(a: Mat3, b: Mat3, p: Vec2)
    requires IsLinearMap(b)
    ensures Transform(Mul(a, b), p) == Transform(a, Transform(b, p))
  {
    var m, q := Mul(a, b), Transform(b, p);
    ProductEntries(a, b);
    RegroupComponent(a.c0.x, a.c1.x, b.c0.x, b.c0.y, b.c1.x, b.c1.y, p.x, p.y, m.c0.x, m.c1.x, q.x, q.y);
    RegroupComponent(a.c0.y, a.c1.y, b.c0.x, b.c0.y, b.c1.x, b.c1.y, p.x, p.y, m.c0.y, m.c1.y, q.x, q.y);
  }

  /** Left-multiplying by a scaling keeps a matrix a linear map. */
  lemma ScalingKeepsLinearMap(s: real, m: Mat3)
    requires IsLinearMap(m)
    ensures IsLinearMap(Mul(Scaling(s), m))
  {
  }

  /** After `matrix := scale(s, s) * matrix`, every point lands s times as far from the origin. */
  lemma ScaledTransform(s: real, m: Mat3, p: Vec2)
    ensures Transform(Mul(Scaling(s), m), p) == Vec2(s * Transform(m, p).x, s * Transform(m, p).y)
  {
  }

  /** Scaling a column by b and then by a is scaling it by a * b. */
  lemma ScalingsComposeOnColumn(a: real, b: real, c: Vec3)
    ensures Apply3(Scaling(a), Apply3(Scaling(b), c)) == Apply3(Scaling(a * b), c)
  {
    assert a * (b * c.x) == (a * b) * c.x && a * (b * c.y) == (a * b) * c.y;
  }

  /** Two scale drags in a row amount to one drag by the product of the factors. */
  lemma {:induction false} ScalingsCompose(a: real, b: real, m: Mat3)
    ensures Mul(Scaling(a), Mul(Scaling(b), m)) == Mul(Scaling(a * b), m)
  {
    ScalingsComposeOnColumn(a, b, m.c0);
    ScalingsComposeOnColumn(a, b, m.c1);
    ScalingsComposeOnColumn(a, b, m.c2);
  }
}
