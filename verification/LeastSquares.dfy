/** The overdetermined system m x = b: its normal equations, why their solution is the
    unique minimiser of the squared error, and the solver of the original, which reaches
    it through the pseudo-inverse. */
module LeastSquares {
  import opened Basics
  import opened LinAlg
  import opened Determinant
  import opened Matrix

  function Gram(m: Mat, q: nat): (g: Mat)
    requires IsMat(m, |m|, q)
    ensures IsMat(g, q, q)
  {
    Mul(Transpose(m, q), m, q)
  }

  predicate SolvesNormalEquations(m: Mat, x: Vec, b: Vec) {
    IsMat(m, |b|, |x|) && Apply(Gram(m, |x|), x) == Apply(Transpose(m, |x|), b)
  }

  function Residual(m: Mat, x: Vec, b: Vec): (r: Vec)
    requires IsMat(m, |b|, |x|)
    ensures |r| == |b|
  {
    Axpy(Apply(m, x), -1.0, b)
  }

  /** |m x - b|^2 */
  function SquaredError(m: Mat, x: Vec, b: Vec): real
    requires IsMat(m, |b|, |x|)
  {
    var r := Residual(m, x, b);
    Dot(r, r, |b|)
  }

  lemma DotSumSquare(r: Vec, s: Vec, rr: real, rs: real, ss: real)
    requires |r| == |s| && rr == Dot(r, r, |r|) && rs == Dot(r, s, |r|) && ss == Dot(s, s, |r|)
    ensures var t := Axpy(r, 1.0, s); Dot(t, t, |r|) == rr + 2.0 * rs + ss
  {
    hide Dot, Axpy;
    var n, t := |r|, Axpy(r, 1.0, s);
    DotAxpy(r, r, 1.0, s, n, rs);
    DotCommutes(s, r, n);
    DotAxpy(s, r, 1.0, s, n, ss);
    DotCommutes(t, r, n);
    DotCommutes(t, s, n);
    var ts := Dot(t, s, n);
    DotAxpy(t, r, 1.0, s, n, ts);
  }

  /** The residual of the solution is orthogonal to every m d. */
  lemma ResidualOrthogonal(m: Mat, a: Vec, b: Vec, d: Vec)
    requires SolvesNormalEquations(m, a, b) && |d| == |a|
    ensures Dot(Residual(m, a, b), Apply(m, d), |b|) == 0.0
  {
    hide Dot, Mul, Transpose, Axpy, Apply;
    var q := |a|;
    var mt, w, r := Transpose(m, q), Apply(m, a), Residual(m, a, b);
    ApplyMul(mt, m, a);
    ApplyAxpy(mt, w, -1.0, b);
    var y := Apply(mt, b);
    assert Apply(mt, r) == Axpy(y, -1.0, y);
    SelfDifference(y);
    Adjoint(m, d, r);
    DotZero(d, Zero(q), q);
    DotCommutes(r, Apply(m, d), |b|);
  }

  lemma SelfDifference(y: Vec)
    ensures Axpy(y, -1.0, y) == Zero(|y|)
  {
  }

  lemma ResidualMoves(m: Mat, a: Vec, x: Vec, b: Vec)
    requires IsMat(m, |b|, |x|) && |a| == |x|
    ensures Residual(m, x, b) == Axpy(Residual(m, a, b), 1.0, Apply(m, Axpy(x, -1.0, a)))
  {
    hide Dot;
    var d := Axpy(x, -1.0, a);
    ApplyAxpy(m, x, -1.0, a);
    var l, r := Residual(m, x, b), Axpy(Residual(m, a, b), 1.0, Apply(m, d));
    forall i | 0 <= i < |b|
      ensures l[i] == r[i]
    {
      var xi, ai := Apply(m, x)[i], Apply(m, a)[i];
      AxpyAt(Apply(m, x), -1.0, b, i, xi, b[i]);
      AxpyAt(Apply(m, a), -1.0, b, i, ai, b[i]);
      AxpyAt(Apply(m, x), -1.0, Apply(m, a), i, xi, ai);
      AxpyAt(Residual(m, a, b), 1.0, Apply(m, d), i, Residual(m, a, b)[i], Apply(m, d)[i]);
    }
  }

  /** No vector does better than a solution of the normal equations; when m^T m is not
      singular, none does as well. */
  lemma NormalSolutionMinimises(m: Mat, a: Vec, b: Vec, x: Vec)
    requires SolvesNormalEquations(m, a, b) && |x| == |a|
    ensures SquaredError(m, a, b) <= SquaredError(m, x, b)
    ensures SquaredError(m, a, b) == SquaredError(m, x, b) && !Singular(Gram(m, |a|)) ==> x == a
  {
    hide Dot, Mul, Transpose, Axpy, Apply, Residual, Singular;
    var d := Axpy(x, -1.0, a);
    var r, s, p := Residual(m, a, b), Apply(m, d), |b|;
    ResidualOrthogonal(m, a, b, d);
    ResidualMoves(m, a, x, b);
    DotSumSquare(r, s, Dot(r, r, p), 0.0, Dot(s, s, p));
    DotSquare(s, p);
    if Dot(s, s, p) == 0.0 && !Singular(Gram(m, |a|)) {
      assert s == Zero(p);
      KernelTrivial(m, d, p);
      NoDifference(x, a);
    }
  }

  lemma KernelTrivial(m: Mat, d: Vec, p: nat)
    requires IsMat(m, p, |d|) && !Singular(Gram(m, |d|)) && Apply(m, d) == Zero(p)
    ensures d == Zero(|d|)
  {
    hide Dot, Mul, Transpose;
    var q := |d|;
    var mt := Transpose(m, q);
    ApplyMul(mt, m, d);
    forall j | 0 <= j < q
      ensures Apply(mt, Zero(p))[j] == 0.0
    {
      DotZero(mt[j], Zero(p), p);
    }
    assert Apply(Gram(m, q), d) == Zero(q);
  }

  lemma NoDifference(x: Vec, a: Vec)
    requires |x| == |a| && Axpy(x, -1.0, a) == Zero(|x|)
    ensures x == a
  {
    forall i | 0 <= i < |x|
      ensures x[i] == a[i]
    {
      AxpyAt(x, -1.0, a, i, x[i], a[i]);
    }
  }

  /** An exact solution of m x = b is the only solution of the normal equations. */
  lemma ExactSolutionIsFound(m: Mat, a: Vec, b: Vec, x: Vec)
    requires SolvesNormalEquations(m, a, b) && |x| == |a| && !Singular(Gram(m, |a|))
    requires Apply(m, x) == b
    ensures a == x
  {
    hide Dot, Mul, Transpose, Apply, Singular;
    NormalSolutionMinimises(m, a, b, x);
    SelfDifference(b);
    assert Residual(m, x, b) == Zero(|b|);
    DotZero(Residual(m, x, b), Residual(m, x, b), |b|);
    DotSquare(Residual(m, a, b), |b|);
  }

  lemma ApplyIdentity(w: Vec)
    ensures Apply(Identity(|w|), w) == w
  {
    var n := |w|;
    forall i | 0 <= i < n
      ensures Apply(Identity(n), w)[i] == w[i]
    {
      DotCommutes(Unit(n, i), w, n);
      DotUnit(w, i, n);
      assert Identity(n)[i] == Unit(n, i);
    }
  }

  /** The pseudo-inverse (m^T m)^-1 m^T takes b to a solution of the normal equations. */
  lemma PseudoInverseSolves(m: Mat, q: nat, inv: Mat, b: Vec)
    requires IsMat(m, |b|, q) && IsMat(inv, q, q) && TwoSidedInverse(inv, Gram(m, q))
    ensures SolvesNormalEquations(m, Apply(Mul(inv, Transpose(m, q), |b|), b), b)
  {
    hide Dot, Mul, Transpose, Apply;
    var mt, g := Transpose(m, q), Gram(m, q);
    var w := Apply(mt, b);
    ApplyMul(inv, mt, b);
    ApplyMul(g, inv, w);
    ApplyIdentity(w);
  }

  lemma ColOfProduct(a: Mat, b: Mat, q: nat, j: nat)
    requires IsMat(a, |a|, |b|) && IsMat(b, |b|, q) && j < q
    ensures Col(Mul(a, b, q), q, j) == Apply(a, Col(b, q, j))
  {
  }

  predicate Solvable(m: Dmat, a: Dmat, b: Dmat) {
    m.ub1 - m.lb1 >= m.ub2 - m.lb2
    && m.ub1 - m.lb1 == b.ub1 - b.lb1 && m.ub2 - m.lb2 == a.ub1 - a.lb1 && b.ub2 - b.lb2 == a.ub2 - a.lb2
  }

  /** Solves m a = b in the least-squares sense, column by column. `oom` reports that an
      allocation failed, which `memory` excludes; without it the result is 0 exactly for
      well-shaped arguments with a large enough determinant. */
  method SolveSystem(m: Dmat, a: Dmat, b: Dmat, memory: bool) returns (code: int, oom: bool)
    requires m.Valid() && a.Valid() && b.Valid()
    modifies a.el
    ensures (code == 0 || code == -1) && (memory ==> !oom)
    ensures !oom ==>
      (code == 0 <==> Solvable(m, a, b) && Abs(Det(Gram(old(View(m.el)), m.el.Length1))) >= 0.001)
    ensures code == 0 ==>
      !oom && a.el.Length0 == m.el.Length1 && b.el.Length0 == m.el.Length0 && a.el.Length1 == b.el.Length1
    ensures code == 0 ==> !Singular(Gram(old(View(m.el)), m.el.Length1))
    ensures code == 0 ==> forall j {:trigger Col(View(a.el), a.el.Length1, j)} :: 0 <= j < a.el.Length1 ==>
              SolvesNormalEquations(old(View(m.el)), Col(View(a.el), a.el.Length1, j),
                Col(old(View(b.el)), a.el.Length1, j))
    ensures code != 0 ==> View(a.el) == old(View(a.el))
  {
    hide Det, Mul, Transpose, Dot, Col, Singular, TwoSidedInverse, SolvesNormalEquations;
    ghost var mv, bv, q, p := View(m.el), View(b.el), m.el.Length1, m.el.Length0;
    if m.ub1 - m.lb1 < m.ub2 - m.lb2 {
      return -1, false;
    }
    var mt := NewDmat(m.lb2, m.ub2, m.lb1, m.ub1, memory);
    if mt.None? {
      return -1, true;
    }
    var error := TransposeTo(m, mt.value, memory);
    if error != 0 {
      return -1, true;
    }
    var mtm := NewDmat(m.lb2, m.ub2, m.lb2, m.ub2, memory);
    if mtm.None? {
      return -1, true;
    }
    error := MatMul(mt.value, m, mtm.value, memory);
    if error != 0 {
      return -1, true;
    }
    assert View(mtm.value.el) == Gram(mv, q);
    var det, errno := MatInvert(mtm.value, memory);
    if Abs(det) < MIN_DETERMINANT {
      return -1, errno != 0;
    }
    if errno != 0 {
      return -1, true;
    }
    var mdag := NewDmat(m.lb2, m.ub2, m.lb1, m.ub1, memory);
    if mdag.None? {
      return -1, true;
    }
    ghost var inv := View(mtm.value.el);
    error := MatMul(mtm.value, mt.value, mdag.value, memory);
    if error != 0 {
      return -1, true;
    }
    ghost var pinv := View(mdag.value.el);
    assert pinv == Mul(inv, Transpose(mv, q), p);
    assert View(b.el) == bv;
    error := MatMul(mdag.value, b, a, memory);
    if error != 0 {
      return -1, Commensurate(mdag.value, b, a);
    }
    forall j | 0 <= j < a.el.Length1
      ensures SolvesNormalEquations(mv, Col(View(a.el), a.el.Length1, j), Col(bv, a.el.Length1, j))
    {
      ColOfProduct(pinv, bv, a.el.Length1, j);
      PseudoInverseSolves(mv, q, inv, Col(bv, a.el.Length1, j));
    }
    return 0, false;
  }
}
