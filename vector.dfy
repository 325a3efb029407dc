/**
  Three-component vectors over the reals: the `vec3` values of gl-matrix and the
  plain `[x, y, z]` arrays the simulator uses for positions and velocities.
 */
module Vector {

  datatype Vec3 = Vec3(x: real, y: real, z: real) {

    /** Component `i` (the JavaScript `v[i]`). */
    function At(i: nat): real
      requires i < 3
    {
      if i == 0 then x else if i == 1 then y else z
    }

    /** This vector with component `i` replaced by `c` (the JavaScript `v[i] = c`). */
    function With(i: nat, c: real): (r: Vec3)
      requires i < 3
      ensures r.At(i) == c
      ensures forall k: nat :: k < 3 && k != i ==> r.At(k) == At(k)
    {
      if i == 0 then Vec3(c, y, z) else if i == 1 then Vec3(x, c, z) else Vec3(x, y, c)
    }
  }

  const Zero: Vec3 := Vec3(0.0, 0.0, 0.0)

  function Add(a: Vec3, b: Vec3): Vec3 {
    Vec3(a.x + b.x, a.y + b.y, a.z + b.z)
  }

  function Sub(a: Vec3, b: Vec3): Vec3 {
    Vec3(a.x - b.x, a.y - b.y, a.z - b.z)
  }

  function Scale(a: Vec3, k: real): Vec3 {
    Vec3(a.x * k, a.y * k, a.z * k)
  }

  /** Component-wise division, as in `dx / dist` (collision.js:70). */
  function Div(a: Vec3, k: real): Vec3
    requires k != 0.0
  {
    Vec3(a.x / k, a.y / k, a.z / k)
  }

  function Dot(a: Vec3, b: Vec3): real {
    a.x * b.x + a.y * b.y + a.z * b.z
  }

  /** `r * r`; squares are kept behind this name so that facts about them stay linear. */
  function Sq(r: real): real {
    r * r
  }

  /** Squared Euclidean length, `dx * dx + dy * dy + dz * dz`. */
  function Norm2(a: Vec3): real {
    Sq(a.x) + Sq(a.y) + Sq(a.z)
  }

  function Abs(r: real): real {
    if r < 0.0 then -r else r
  }

  /** `sqrt` behaves as `Math.sqrt` on every non-negative argument. */
  ghost predicate IsSqrt(sqrt: real -> real) {
    forall v :: 0.0 <= v ==> 0.0 <= sqrt(v) && Sq(sqrt(v)) == v
  }

  function Mul(a: real, b: real): real {
    a * b
  }

  lemma ProductPositive(a: real, b: real)
    requires 0.0 < a && 0.0 < b
    ensures 0.0 < Mul(a, b)
  {
  }

  /** A square is non-negative, and positive unless its root is zero. */
  lemma Square(r: real)
    ensures 0.0 <= Sq(r)
    ensures r != 0.0 ==> 0.0 < Sq(r)
  {
    if r > 0.0 {
      ProductPositive(r, r);
      assert Sq(r) == Mul(r, r);
    } else if r < 0.0 {
      ProductPositive(-r, -r);
      assert Sq(r) == Mul(-r, -r);
    }
  }

  /** A squared length is never negative, and positive for every non-zero vector. */
  lemma Norm2Positive(a: Vec3)
    ensures 0.0 <= Norm2(a)
    ensures a != Zero <==> 0.0 < Norm2(a)
  {
    Square(a.x);
    Square(a.y);
    Square(a.z);
    if a == Zero {
      assert Sq(0.0) == 0.0;
    }
  }

  /** `Dot(a, a)` is the squared length. */
  lemma DotSelf(a: Vec3)
    ensures Dot(a, a) == Norm2(a)
  {
  }

  /** Scaling a vector scales its squared length by the square of the factor. */
  lemma Norm2Scale(a: Vec3, k: real)
    ensures Norm2(Scale(a, k)) == Sq(k) * Norm2(a)
  {
  }

  lemma DivMul(u: real, k: real)
    requires k != 0.0
    ensures (u / k) * k == u
  {
  }

  /** Dividing by `k` and scaling back by `k` is the identity. */
  lemma DivScale(a: Vec3, k: real)
    requires k != 0.0
    ensures Scale(Div(a, k), k) == a
  {
    DivMul(a.x, k);
    DivMul(a.y, k);
    DivMul(a.z, k);
  }

  /** `d / |d|` has unit length: the normalisation of collision.js:70 and app.js:689. */
  lemma UnitLength(d: Vec3, len: real)
    requires len != 0.0 && Sq(len) == Norm2(d)
    ensures Norm2(Div(d, len)) == 1.0
  {
    var n := Div(d, len);
    DivScale(d, len);
    Norm2Scale(n, len);
    Square(len);
    assert Sq(len) * Norm2(n) == Sq(len) * 1.0;
  }

  /** Two points coincide exactly when their difference is the zero vector. */
  lemma SubZero(a: Vec3, b: Vec3)
    ensures Sub(b, a) == Zero <==> a == b
  {
  }

  /** Sum of a sequence of vectors (total momentum, centre of mass times n). */
  function Sum(vs: seq<Vec3>): Vec3 {
    if vs == [] then Zero else Add(vs[0], Sum(vs[1..]))
  }

  /** Replacing one element changes the sum by the difference. */
  lemma {:induction false} SumUpdate(vs: seq<Vec3>, k: nat, v: Vec3)
    requires k < |vs|
    ensures Sum(vs[k := v]) == Add(Sub(Sum(vs), vs[k]), v)
  {
    if k > 0 {
      SumUpdate(vs[1..], k - 1, v);
      assert vs[k := v][1..] == vs[1..][k - 1 := v];
    } else {
      assert vs[k := v][1..] == vs[1..];
    }
  }
}
