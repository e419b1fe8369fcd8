/** Vectors and matrices over the reals, as values: the mathematics that the
    in-place array algorithms of the Matrix module are proved against.

    A matrix is the sequence of its rows. `Dot(r, x, n)` is the sum of the first
    `n` products, so that a proof by induction adds one product at a time. */
module LinAlg {

  type Vec = seq<real>
  type Mat = seq<seq<real>>

  predicate IsMat(a: Mat, p: nat, q: nat) {
    |a| == p && forall i :: 0 <= i < p ==> |a[i]| == q
  }

  predicate Square(a: Mat) {
    IsMat(a, |a|, |a|)
  }

  function Zero(n: nat): Vec {
    seq(n, i => 0.0)
  }

  /** The j-th unit vector. */
  function Unit(n: nat, j: int): Vec {
    seq(n, i => if i == j then 1.0 else 0.0)
  }

  /** x + t * y */
  function Axpy(x: Vec, t: real, y: Vec): (z: Vec)
    requires |x| == |y|
    ensures |z| == |x|
  {
    seq(|x|, i requires 0 <= i < |x| => x[i] + t * y[i])
  }

  lemma AxpyAt(x: Vec, t: real, y: Vec, i: nat, xi: real, yi: real)
    requires |x| == |y| && i < |x| && xi == x[i] && yi == y[i]
    ensures Axpy(x, t, y)[i] == xi + t * yi
  {
  }

  /** Adding, subtracting and adding again moves y to x and -x to y. */
  lemma ThreeAdditions(x: Vec, y: Vec)
    requires |x| == |y|
    ensures var z := Axpy(x, 1.0, y);
            Axpy(y, -1.0, z) == Neg(x) && Axpy(z, 1.0, Neg(x)) == y
  {
    var z := Axpy(x, 1.0, y);
    forall i | 0 <= i < |x|
      ensures Axpy(y, -1.0, z)[i] == Neg(x)[i] && Axpy(z, 1.0, Neg(x))[i] == y[i]
    {
      AxpyAt(x, 1.0, y, i, x[i], y[i]);
      AxpyAt(y, -1.0, z, i, y[i], z[i]);
      AxpyAt(z, 1.0, Neg(x), i, z[i], -x[i]);
    }
    assert Axpy(y, -1.0, z) == Neg(x);
  }

  function Scale(t: real, y: Vec): (z: Vec)
    ensures |z| == |y|
  {
    seq(|y|, i requires 0 <= i < |y| => t * y[i])
  }

  function Neg(x: Vec): (z: Vec)
    ensures |z| == |x| && forall i :: 0 <= i < |x| ==> z[i] == -x[i]
  {
    seq(|x|, i requires 0 <= i < |x| => -x[i])
  }

  function Dot(r: Vec, x: Vec, n: nat): real
    requires n <= |r| && n <= |x|
  {
    if n == 0 then 0.0 else Dot(r, x, n - 1) + r[n - 1] * x[n - 1]
  }

  /** The matrix-vector product. */
  function Apply(a: Mat, x: Vec): (y: Vec)
    requires IsMat(a, |a|, |x|)
    ensures |y| == |a| && forall i :: 0 <= i < |a| ==> y[i] == Dot(a[i], x, |x|)
  {
    seq(|a|, i requires 0 <= i < |a| => Dot(a[i], x, |x|))
  }

  function Col(a: Mat, q: nat, j: nat): (c: Vec)
    requires IsMat(a, |a|, q) && j < q
    ensures |c| == |a| && forall i :: 0 <= i < |a| ==> c[i] == a[i][j]
  {
    seq(|a|, i requires 0 <= i < |a| => a[i][j])
  }

  function Transpose(a: Mat, q: nat): (t: Mat)
    requires IsMat(a, |a|, q)
    ensures IsMat(t, q, |a|)
    ensures forall i, j :: 0 <= i < |a| && 0 <= j < q ==> t[j][i] == a[i][j]
  {
    seq(q, j requires 0 <= j < q => Col(a, q, j))
  }

  /** The matrix product: entry (i, j) is row i of `a` times column j of `b`. */
  function Mul(a: Mat, b: Mat, q: nat): (c: Mat)
    requires IsMat(a, |a|, |b|) && IsMat(b, |b|, q)
    ensures IsMat(c, |a|, q)
    ensures forall i, j :: 0 <= i < |a| && 0 <= j < q ==> c[i][j] == Dot(a[i], Col(b, q, j), |b|)
  {
    seq(|a|, i requires 0 <= i < |a| =>
      seq(q, j requires 0 <= j < q => Dot(a[i], Col(b, q, j), |b|)))
  }

  function Identity(n: nat): (c: Mat)
    ensures IsMat(c, n, n)
    ensures forall i, j :: 0 <= i < n && 0 <= j < n ==> c[i][j] == if i == j then 1.0 else 0.0
  {
    seq(n, i => Unit(n, i))
  }

  // ---------------------------------------------------------------- dot products

  lemma {:induction false} DotEqual(r: Vec, x: Vec, r': Vec, x': Vec, n: nat)
    requires n <= |r| && n <= |x| && n <= |r'| && n <= |x'|
    requires forall i :: 0 <= i < n ==> r[i] == r'[i] && x[i] == x'[i]
    ensures Dot(r, x, n) == Dot(r', x', n)
  {
    if n > 0 {
      DotEqual(r, x, r', x', n - 1);
    }
  }

  lemma DotSnoc(r: Vec, x: Vec, s: real, t: real)
    requires |r| == |x|
    ensures Dot(r + [s], x + [t], |x| + 1) == Dot(r, x, |x|) + s * t
  {
    DotEqual(r + [s], x + [t], r, x, |x|);
  }

  lemma {:induction false} DotCommutes(r: Vec, x: Vec, n: nat)
    requires n <= |r| && n <= |x|
    ensures Dot(r, x, n) == Dot(x, r, n)
  {
    if n > 0 {
      DotCommutes(r, x, n - 1);
    }
  }

  lemma {:induction false} DotAxpy(r: Vec, x: Vec, t: real, y: Vec, n: nat, d: real)
    requires n <= |r| && n <= |x| == |y|
    requires d == Dot(r, y, n)
    ensures Dot(r, Axpy(x, t, y), n) == Dot(r, x, n) + t * d
  {
    if n > 0 {
      var d' := Dot(r, y, n - 1);
      DotAxpy(r, x, t, y, n - 1, d');
      Distribute(r[n - 1], x[n - 1], t, y[n - 1], d');
    }
  }

  lemma Distribute(r: real, x: real, t: real, y: real, d: real)
    ensures r * (x + t * y) + t * d == r * x + t * (d + r * y)
  {
  }

  lemma {:induction false} DotScale(r: Vec, t: real, y: Vec, n: nat, d: real)
    requires n <= |r| && n <= |y|
    requires d == Dot(r, y, n)
    ensures Dot(r, Scale(t, y), n) == t * d
  {
    if n > 0 {
      var d' := Dot(r, y, n - 1);
      DotScale(r, t, y, n - 1, d');
      Distribute(r[n - 1], 0.0, t, y[n - 1], d');
    }
  }

  lemma {:induction false} DotZero(r: Vec, x: Vec, n: nat)
    requires n <= |r| && n <= |x|
    requires forall i :: 0 <= i < n ==> x[i] == 0.0
    ensures Dot(r, x, n) == 0.0
  {
    if n > 0 {
      DotZero(r, x, n - 1);
    }
  }

  /** Changing one component of each factor changes one product. */
  lemma {:induction false} DotUpdate(r: Vec, x: Vec, k: nat, s: real, y: real, n: nat, rk: real, xk: real)
    requires n <= |r| && n <= |x| && k < n
    requires rk == r[k] && xk == x[k]
    ensures Dot(r[k := s], x[k := y], n) == Dot(r, x, n) - rk * xk + s * y
  {
    if k == n - 1 {
      DotEqual(r[k := s], x[k := y], r, x, n - 1);
    } else {
      DotUpdate(r, x, k, s, y, n - 1, rk, xk);
    }
  }

  lemma DotUnit(r: Vec, j: nat, n: nat)
    requires n <= |r| && j < n
    ensures Dot(r, Unit(n, j), n) == r[j]
  {
    var z := Zero(n);
    DotZero(r, z, n);
    DotUpdate(r, z, j, r[j], 1.0, n, r[j], 0.0);
    assert r[j := r[j]] == r && z[j := 1.0] == Unit(n, j);
  }

  /** Products are returned under a name, which keeps the sums that use them linear. */
  lemma ProductPositive(x: real, y: real) returns (c: real)
    requires x > 0.0 && y > 0.0
    ensures c == x * y && c > 0.0
  {
    c := x * y;
  }

  lemma SquarePositive(s: real) returns (c: real)
    ensures c == s * s && c >= 0.0
    ensures c == 0.0 ==> s == 0.0
  {
    if s > 0.0 {
      c := ProductPositive(s, s);
    } else if s < 0.0 {
      c := ProductPositive(-s, -s);
    } else {
      c := 0.0;
    }
  }

  lemma {:induction false} DotSquare(x: Vec, n: nat)
    requires n <= |x|
    ensures Dot(x, x, n) >= 0.0
    ensures Dot(x, x, n) == 0.0 ==> forall i :: 0 <= i < n ==> x[i] == 0.0
  {
    if n > 0 {
      DotSquare(x, n - 1);
      var c := SquarePositive(x[n - 1]);
      assert Dot(x, x, n) == Dot(x, x, n - 1) + c;
    }
  }

  // ------------------------------------------------------------ products and duals

  /** Dropping the last row of `a` takes one multiple of it out of a^T w. */
  lemma TransposeApplyStep(a: Mat, last: Vec, q: nat, w: Vec, t: real)
    requires |last| == q && IsMat(a, |w|, q)
    ensures IsMat(a + [last], |w| + 1, q)
    ensures Apply(Transpose(a + [last], q), w + [t]) == Axpy(Apply(Transpose(a, q), w), t, last)
  {
    var p := |w|;
    var at, at' := Transpose(a + [last], q), Transpose(a, q);
    var y, y' := Apply(at, w + [t]), Apply(at', w);
    forall j | 0 <= j < q
      ensures y[j] == Axpy(y', t, last)[j]
    {
      DotEqual(at[j], w + [t], at'[j], w, p);
      assert at[j][p] == last[j];
    }
  }

  /** <a x, w> == <x, a^T w>, the two orders of summation. */
  lemma {:induction false} Adjoint(a: Mat, x: Vec, w: Vec)
    requires IsMat(a, |w|, |x|)
    ensures Dot(Apply(a, x), w, |w|) == Dot(x, Apply(Transpose(a, |x|), w), |x|)
  {
    var p, q := |w|, |x|;
    if p == 0 {
      DotZero(x, Apply(Transpose(a, q), w), q);
    } else {
      var a', last, w', t := a[..p - 1], a[p - 1], w[..p - 1], w[p - 1];
      assert a == a' + [last] && w == w' + [t];
      Adjoint(a', x, w');
      AdjointStep(a', last, x, w', t);
    }
  }

  lemma AdjointStep(a: Mat, last: Vec, x: Vec, w: Vec, t: real)
    requires IsMat(a, |w|, |x|) && |last| == |x|
    requires Dot(Apply(a, x), w, |w|) == Dot(x, Apply(Transpose(a, |x|), w), |x|)
    ensures IsMat(a + [last], |w| + 1, |x|)
    ensures Dot(Apply(a + [last], x), w + [t], |w| + 1)
         == Dot(x, Apply(Transpose(a + [last], |x|), w + [t]), |x|)
  {
    var p, q := |w|, |x|;
    var y, d := Apply(Transpose(a, q), w), Dot(last, x, q);
    assert Apply(a + [last], x) == Apply(a, x) + [d];
    DotSnoc(Apply(a, x), w, d, t);
    TransposeApplyStep(a, last, q, w, t);
    DotCommutes(x, last, q);
    DotAxpy(x, y, t, last, q, d);
  }

  /** Row i of a product is b^T applied to row i of a, so (a b) x == a (b x). */
  lemma ApplyMul(a: Mat, b: Mat, x: Vec)
    requires IsMat(a, |a|, |b|) && IsMat(b, |b|, |x|)
    ensures Apply(Mul(a, b, |x|), x) == Apply(a, Apply(b, x))
  {
    var q := |x|;
    forall i | 0 <= i < |a|
      ensures Apply(Mul(a, b, q), x)[i] == Apply(a, Apply(b, x))[i]
    {
      var row := Mul(a, b, q)[i];
      var t := Apply(Transpose(b, q), a[i]);
      forall j | 0 <= j < q
        ensures row[j] == t[j]
      {
        DotCommutes(a[i], Col(b, q, j), |b|);
        DotEqual(Col(b, q, j), a[i], Transpose(b, q)[j], a[i], |b|);
      }
      assert row == t;
      Adjoint(b, x, a[i]);
      DotCommutes(x, t, q);
      DotCommutes(a[i], Apply(b, x), |b|);
    }
  }

  lemma TransposeInvolutive(a: Mat, q: nat)
    requires IsMat(a, |a|, q)
    ensures Transpose(Transpose(a, q), |a|) == a
  {
    var t := Transpose(Transpose(a, q), |a|);
    forall i | 0 <= i < |a|
      ensures t[i] == a[i]
    {
    }
  }

  lemma ApplyAxpy(a: Mat, x: Vec, t: real, y: Vec)
    requires |x| == |y| && IsMat(a, |a|, |x|)
    ensures Apply(a, Axpy(x, t, y)) == Axpy(Apply(a, x), t, Apply(a, y))
  {
    forall i | 0 <= i < |a|
      ensures Apply(a, Axpy(x, t, y))[i] == Axpy(Apply(a, x), t, Apply(a, y))[i]
    {
      DotAxpy(a[i], x, t, y, |x|, Dot(a[i], y, |x|));
    }
  }

  // ------------------------------------------------------------------- inverses

  /** `a` and `b` are inverse maps: a u == v exactly when b v == u. */
  ghost predicate InverseMaps(a: Mat, b: Mat) {
    Square(a) && Square(b) && |a| == |b|
    && forall u: Vec, v: Vec :: |u| == |a| && |v| == |a| ==> (Apply(a, u) == v <==> Apply(b, v) == u)
  }

  predicate TwoSidedInverse(a: Mat, b: Mat) {
    Square(a) && Square(b) && |a| == |b|
    && Mul(a, b, |a|) == Identity(|a|) && Mul(b, a, |a|) == Identity(|a|)
  }

  ghost predicate Singular(a: Mat)
    requires Square(a)
  {
    exists v: Vec :: |v| == |a| && v != Zero(|a|) && Apply(a, v) == Zero(|a|)
  }

  /** Applying to the unit vectors reads off the columns. */
  lemma MulIsIdentity(a: Mat, b: Mat)
    requires InverseMaps(a, b)
    ensures Mul(b, a, |a|) == Identity(|a|)
  {
    var n := |a|;
    forall i, j | 0 <= i < n && 0 <= j < n
      ensures Mul(b, a, n)[i][j] == Identity(n)[i][j]
    {
      var e := Unit(n, j);
      var v := Apply(a, e);
      assert Apply(b, v) == e;
      forall r | 0 <= r < n
        ensures v[r] == Col(a, n, j)[r]
      {
        DotUnit(a[r], j, n);
      }
      assert v == Col(a, n, j);
    }
    assert forall i :: 0 <= i < n ==> Mul(b, a, n)[i] == Identity(n)[i];
  }

  lemma InverseMapsAreInverse(a: Mat, b: Mat)
    requires InverseMaps(a, b)
    ensures TwoSidedInverse(a, b)
    ensures !Singular(b)
  {
    MulIsIdentity(a, b);
    assert InverseMaps(b, a);
    MulIsIdentity(b, a);
    var n := |a|;
    var z := Zero(n);
    forall v: Vec | |v| == n && Apply(b, v) == z
      ensures v == z
    {
      assert Apply(a, z) == v;
      forall i | 0 <= i < n
        ensures v[i] == 0.0
      {
        DotZero(a[i], z, n);
      }
    }
  }
}
