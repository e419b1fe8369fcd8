/** The algebra behind in-place Gauss-Jordan inversion.

    While pivots 0..k-1 have been processed, the array no longer holds B (the input
    with its rows and columns interchanged) but a tableau in which the first k
    unknowns and the first k right-hand sides have changed places. `Relates` says so:
    for all v and u, the tableau maps the exchanged inputs to the exchanged outputs
    exactly when B v == u. Every step of the reduction preserves it. */
module Exchange {
  import opened LinAlg

  // ------------------------------------------------- interchanges that carry a sign

  /** x_k becomes x_i and x_i becomes -x_k. */
  function Interchange(x: Vec, k: nat, i: nat): (y: Vec)
    requires k < |x| && i < |x|
    ensures |y| == |x|
  {
    if i == k then x else x[k := x[i]][i := -x[k]]
  }

  /** Undoes Interchange. */
  function Restore(x: Vec, k: nat, i: nat): (y: Vec)
    requires k < |x| && i < |x|
    ensures |y| == |x| && Interchange(y, k, i) == x
  {
    if i == k then x else x[k := -x[i]][i := x[k]]
  }

  function RowInterchange(a: Mat, k: nat, i: nat): (b: Mat)
    requires Square(a) && k < |a| && i < |a|
    ensures Square(b) && |b| == |a|
  {
    if i == k then a else a[k := a[i]][i := Neg(a[k])]
  }

  function RowRestore(a: Mat, k: nat, i: nat): (b: Mat)
    requires Square(a) && k < |a| && i < |a|
    ensures Square(b) && |b| == |a|
  {
    if i == k then a else a[k := Neg(a[i])][i := a[k]]
  }

  function ColInterchange(a: Mat, k: nat, j: nat): (b: Mat)
    requires Square(a) && k < |a| && j < |a|
    ensures Square(b) && |b| == |a|
    ensures forall r :: 0 <= r < |a| ==> b[r] == Interchange(a[r], k, j)
  {
    seq(|a|, r requires 0 <= r < |a| => Interchange(a[r], k, j))
  }

  function ColRestore(a: Mat, k: nat, j: nat): (b: Mat)
    requires Square(a) && k < |a| && j < |a|
    ensures Square(b) && |b| == |a|
    ensures forall r :: 0 <= r < |a| ==> b[r] == Restore(a[r], k, j)
  {
    seq(|a|, r requires 0 <= r < |a| => Restore(a[r], k, j))
  }

  lemma InterchangeInjective(x: Vec, y: Vec, k: nat, i: nat)
    requires |x| == |y| && k < |x| && i < |x|
    requires Interchange(x, k, i) == Interchange(y, k, i)
    ensures x == y
  {
    var x', y' := Interchange(x, k, i), Interchange(y, k, i);
    assert x'[i] == y'[i] && x'[k] == y'[k];
    forall r | 0 <= r < |x|
      ensures x[r] == y[r]
    {
      assert x'[r] == y'[r];
    }
  }

  lemma RestoreInterchange(x: Vec, k: nat, i: nat)
    requires k < |x| && i < |x|
    ensures Restore(Interchange(x, k, i), k, i) == x
  {
    InterchangeInjective(Restore(Interchange(x, k, i), k, i), x, k, i);
  }

  /** Interchanging both factors leaves the products, in another order. */
  lemma DotInterchange(r: Vec, x: Vec, k: nat, i: nat)
    requires |r| == |x| && k < |x| && i < |x|
    ensures Dot(Interchange(r, k, i), Interchange(x, k, i), |x|) == Dot(r, x, |x|)
  {
    if i != k {
      DotTwoUpdates(r, x, k, i, r[k], x[k], r[i], x[i], |x|);
    }
  }

  lemma DotTwoUpdates(r: Vec, x: Vec, k: nat, i: nat, rk: real, xk: real, ri: real, xi: real, n: nat)
    requires |r| == |x| == n && k < n && i < n && i != k
    requires rk == r[k] && xk == x[k] && ri == r[i] && xi == x[i]
    ensures Dot(r[k := ri][i := -rk], x[k := xi][i := -xk], n) == Dot(r, x, n)
  {
    hide Dot;
    DotUpdate(r, x, k, ri, xi, n, rk, xk);
    DotUpdate(r[k := ri], x[k := xi], i, -rk, -xk, n, ri, xi);
  }

  lemma {:induction false} DotNeg(r: Vec, x: Vec, n: nat)
    requires n <= |r| && n <= |x|
    ensures Dot(Neg(r), x, n) == -Dot(r, x, n)
  {
    if n > 0 {
      DotNeg(r, x, n - 1);
    }
  }

  lemma ApplyRowInterchange(a: Mat, k: nat, i: nat, x: Vec)
    requires Square(a) && |x| == |a| && k < |a| && i < |a|
    ensures Apply(RowInterchange(a, k, i), x) == Interchange(Apply(a, x), k, i)
  {
    hide Dot;
    DotNeg(a[k], x, |x|);
  }

  lemma ApplyColInterchange(a: Mat, k: nat, j: nat, x: Vec)
    requires Square(a) && |x| == |a| && k < |a| && j < |a|
    ensures Apply(ColInterchange(a, k, j), Interchange(x, k, j)) == Apply(a, x)
  {
    hide Dot;
    forall r | 0 <= r < |a|
      ensures Apply(ColInterchange(a, k, j), Interchange(x, k, j))[r] == Apply(a, x)[r]
    {
      DotInterchange(a[r], x, k, j);
    }
  }

  lemma ApplyRowRestore(a: Mat, k: nat, i: nat, x: Vec)
    requires Square(a) && |x| == |a| && k < |a| && i < |a|
    ensures Apply(RowRestore(a, k, i), x) == Restore(Apply(a, x), k, i)
  {
    hide Dot;
    DotNeg(a[i], x, |x|);
  }

  lemma ApplyColRestore(a: Mat, k: nat, j: nat, x: Vec)
    requires Square(a) && |x| == |a| && k < |a| && j < |a|
    ensures Apply(ColRestore(a, k, j), x) == Apply(a, Interchange(x, k, j))
  {
    hide Dot;
    forall r | 0 <= r < |a|
      ensures Apply(ColRestore(a, k, j), x)[r] == Apply(a, Interchange(x, k, j))[r]
    {
      DotInterchange(Restore(a[r], k, j), x, k, j);
    }
  }

  // ------------------------------------------------------------ the exchange relation

  function Inputs(k: nat, v: Vec, u: Vec): (x: Vec)
    requires k <= |v| == |u|
    ensures |x| == |v| && forall j :: 0 <= j < |v| ==> x[j] == if j < k then -u[j] else v[j]
  {
    seq(|v|, j requires 0 <= j < |v| => if j < k then -u[j] else v[j])
  }

  function Outputs(k: nat, v: Vec, u: Vec): (y: Vec)
    requires k <= |v| == |u|
    ensures |y| == |v| && forall i :: 0 <= i < |v| ==> y[i] == if i < k then -v[i] else u[i]
  {
    Inputs(k, u, v)
  }

  predicate Exchanged(a: Mat, k: nat, v: Vec, u: Vec)
    requires Square(a) && k <= |a| == |v| == |u|
  {
    Apply(a, Inputs(k, v, u)) == Outputs(k, v, u)
  }

  ghost predicate Relates(a: Mat, k: nat, b: Mat) {
    Square(a) && Square(b) && |a| == |b| && k <= |a|
    && forall v: Vec, u: Vec {:trigger Exchanged(a, k, v, u)} ::
         |v| == |a| && |u| == |a| ==> (Exchanged(a, k, v, u) <==> Apply(b, v) == u)
  }

  /** One pivot step on row and column k: what the reduction leaves in the array. */
  function Pivot(a: Mat, k: nat): (b: Mat)
    requires Square(a) && k < |a| && a[k][k] != 0.0
    ensures Square(b) && |b| == |a|
    ensures forall i, j :: 0 <= i < |a| && 0 <= j < |a| ==> b[i][j] == PivotEntry(a, k, i, j)
  {
    seq(|a|, i requires 0 <= i < |a| =>
      seq(|a|, j requires 0 <= j < |a| => PivotEntry(a, k, i, j)))
  }

  function PivotEntry(a: Mat, k: nat, i: nat, j: nat): real
    requires Square(a) && k < |a| && i < |a| && j < |a| && a[k][k] != 0.0
  {
    if i == k && j == k then 1.0 / a[k][k]
    else if i == k then a[k][j] / a[k][k]
    else if j == k then a[i][k] / -a[k][k]
    else a[i][j] + a[i][k] / -a[k][k] * a[k][j]
  }

  lemma Unpivoted(a: Mat)
    requires Square(a)
    ensures Relates(a, 0, a)
  {
    forall v: Vec, u: Vec | |v| == |a| && |u| == |a|
      ensures Exchanged(a, 0, v, u) <==> Apply(a, v) == u
    {
      assert Inputs(0, v, u) == v && Outputs(0, v, u) == u;
    }
  }

  lemma RowInterchangeKeeps(a: Mat, k: nat, b: Mat, i: nat)
    requires Relates(a, k, b) && k <= i < |a|
    ensures Relates(RowInterchange(a, k, i), k, RowInterchange(b, k, i))
  {
    hide Dot;
    var a', b' := RowInterchange(a, k, i), RowInterchange(b, k, i);
    forall v: Vec, u: Vec | |v| == |a| && |u| == |a|
      ensures Exchanged(a', k, v, u) <==> Apply(b', v) == u
    {
      var w := Restore(u, k, i);
      var x := Inputs(k, v, w);
      assert Inputs(k, v, u) == x;
      assert Outputs(k, v, u) == Interchange(Outputs(k, v, w), k, i);
      ApplyRowInterchange(a, k, i, x);
      ApplyRowInterchange(b, k, i, v);
      if Exchanged(a', k, v, u) {
        InterchangeInjective(Apply(a, x), Outputs(k, v, w), k, i);
      }
      if Apply(b', v) == u {
        InterchangeInjective(Apply(b, v), w, k, i);
      }
      assert Exchanged(a, k, v, w) <==> Apply(b, v) == w;
    }
  }

  lemma ColInterchangeKeeps(a: Mat, k: nat, b: Mat, j: nat)
    requires Relates(a, k, b) && k <= j < |a|
    ensures Relates(ColInterchange(a, k, j), k, ColInterchange(b, k, j))
  {
    hide Dot;
    var a', b' := ColInterchange(a, k, j), ColInterchange(b, k, j);
    forall v: Vec, u: Vec | |v| == |a| && |u| == |a|
      ensures Exchanged(a', k, v, u) <==> Apply(b', v) == u
    {
      var w := Restore(v, k, j);
      var x := Inputs(k, w, u);
      assert Inputs(k, v, u) == Interchange(x, k, j);
      assert Outputs(k, v, u) == Outputs(k, w, u);
      ApplyColInterchange(a, k, j, x);
      ApplyColInterchange(b, k, j, w);
      assert Exchanged(a, k, w, u) <==> Apply(b, w) == u;
    }
  }

  lemma PivotRowShape(a: Mat, k: nat)
    requires Square(a) && k < |a| && a[k][k] != 0.0
    ensures Scale(1.0 / a[k][k], a[k])[k] == 1.0
    ensures Pivot(a, k)[k] == Scale(1.0 / a[k][k], a[k])[k := 1.0 / a[k][k]]
  {
    var p := a[k][k];
    Reciprocal(p, p);
    var s := Scale(1.0 / p, a[k])[k := 1.0 / p];
    forall j | 0 <= j < |a|
      ensures Pivot(a, k)[k][j] == s[j]
    {
      Reciprocal(a[k][j], p);
    }
  }

  lemma PivotOtherRowShape(a: Mat, k: nat, i: nat, c: real)
    requires Square(a) && k < |a| && i < |a| && i != k && a[k][k] != 0.0 && c == a[i][k] / -a[k][k]
    ensures Axpy(a[i], c, a[k])[k] == 0.0
    ensures Pivot(a, k)[i] == Axpy(a[i], c, a[k])[k := c]
  {
    MultiplierClears(a[i][k], a[k][k], c);
    var s := Axpy(a[i], c, a[k])[k := c];
    forall j | 0 <= j < |a|
      ensures Pivot(a, k)[i][j] == s[j]
    {
    }
  }

  lemma Reciprocal(x: real, p: real)
    requires p != 0.0
    ensures x / p == 1.0 / p * x
  {
  }

  lemma MultiplierClears(x: real, p: real, c: real)
    requires p != 0.0 && c == x / -p
    ensures x + c * p == 0.0
  {
  }

  /** Row k of the pivoted tableau, on inputs that differ in component k. */
  lemma PivotRow(r: Vec, k: nat, p: real, x: Vec, xk: real, y: real, d: real)
    requires |r| == |x| && k < |x| && p != 0.0 && x[k] == xk
    requires d == Dot(r, x, |x|) && Scale(1.0 / p, r)[k] == 1.0
    ensures Dot(Scale(1.0 / p, r)[k := 1.0 / p], x[k := y], |x|) == (d - p * xk + y) / p
  {
    hide Dot, Scale;
    var n, c := |x|, 1.0 / p;
    var s := Scale(c, r);
    DotCommutes(r, x, n);
    DotScale(x, c, r, n, d);
    DotCommutes(s, x, n);
    DotUpdate(s, x, k, c, y, n, 1.0, xk);
    PivotRowScalars(d, p, c, xk, y);
  }

  lemma PivotRowScalars(d: real, p: real, c: real, x: real, y: real)
    requires p != 0.0 && c == 1.0 / p
    ensures c * d - 1.0 * x + c * y == (d - p * x + y) / p
  {
  }

  /** Another row: multiple c of row k is added, and c takes the place of entry k. */
  lemma PivotOtherRow(r: Vec, row: Vec, k: nat, c: real, x: Vec, xk: real, y: real, d: real, e: real)
    requires |r| == |row| == |x| && k < |x| && x[k] == xk
    requires d == Dot(row, x, |x|) && e == Dot(r, x, |x|) && Axpy(r, c, row)[k] == 0.0
    ensures Dot(Axpy(r, c, row)[k := c], x[k := y], |x|) == e + c * (d + y)
  {
    hide Dot, Axpy;
    var n := |x|;
    var s := Axpy(r, c, row);
    DotCommutes(row, x, n);
    DotCommutes(r, x, n);
    DotAxpy(x, r, c, row, n, d);
    DotCommutes(s, x, n);
    DotUpdate(s, x, k, c, y, n, 0.0, xk);
    PivotOtherScalars(e, c, d, y, xk);
  }

  lemma PivotOtherScalars(e: real, c: real, d: real, y: real, x: real)
    ensures e + c * d - 0.0 * x + c * y == e + c * (d + y)
  {
  }

  /** What the pivoted tableau makes of the inputs, given what the old one made. */
  lemma PivotApplied(a: Mat, k: nat, x: Vec, y: real)
    requires Square(a) && k < |a| == |x| && a[k][k] != 0.0
    ensures var b, d := Apply(Pivot(a, k), x[k := y]), Apply(a, x);
            && b[k] == (d[k] - a[k][k] * x[k] + y) / a[k][k]
            && forall i :: 0 <= i < |a| && i != k ==> b[i] == d[i] + a[i][k] / -a[k][k] * (d[k] + y)
  {
    hide Dot, Pivot, PivotEntry, Axpy, Scale;
    var n, p := |a|, a[k][k];
    PivotRowShape(a, k);
    PivotRow(a[k], k, p, x, x[k], y, Dot(a[k], x, n));
    forall i | 0 <= i < n && i != k
      ensures Apply(Pivot(a, k), x[k := y])[i] == Apply(a, x)[i] + a[i][k] / -p * (Apply(a, x)[k] + y)
    {
      PivotOtherRowShape(a, k, i, a[i][k] / -p);
      PivotOtherRow(a[i], a[k], k, a[i][k] / -p, x, x[k], y, Dot(a[k], x, n), Dot(a[i], x, n));
    }
  }

  lemma PivotKeeps(a: Mat, k: nat, b: Mat)
    requires Relates(a, k, b) && k < |a| && a[k][k] != 0.0
    ensures Relates(Pivot(a, k), k + 1, b)
  {
    hide Dot, Exchanged;
    forall v: Vec, u: Vec | |v| == |a| && |u| == |a|
      ensures Exchanged(Pivot(a, k), k + 1, v, u) <==> Apply(b, v) == u
    {
      PivotExchanges(a, k, v, u);
      assert Exchanged(a, k, v, u) <==> Apply(b, v) == u;
    }
  }

  lemma PivotExchanges(a: Mat, k: nat, v: Vec, u: Vec)
    requires Square(a) && k < |a| == |v| == |u| && a[k][k] != 0.0
    ensures Exchanged(Pivot(a, k), k + 1, v, u) <==> Exchanged(a, k, v, u)
  {
    hide Dot;
    var p, x := a[k][k], Inputs(k, v, u);
    var d, b := Apply(a, x), Apply(Pivot(a, k), x[k := -u[k]]);
    assert Inputs(k + 1, v, u) == x[k := -u[k]];
    PivotApplied(a, k, x, -u[k]);
    PivotRowSolves(d[k], p, v[k], u[k]);
    var y, y' := Outputs(k, v, u), Outputs(k + 1, v, u);
    forall i | 0 <= i < |a| && i != k
      ensures y'[i] == y[i] && (d[k] == u[k] ==> b[i] == d[i])
    {
      MultiplierTimesZero(a[i][k] / -p, d[k], u[k]);
      assert b[i] == d[i] + a[i][k] / -p * (d[k] + -u[k]);
    }
    if b == y' {
      assert b[k] == y'[k];
      assert forall i :: 0 <= i < |a| ==> b[i] == y'[i];
      assert forall i :: 0 <= i < |a| ==> d[i] == y[i];
      assert d == y;
    }
    if d == y {
      assert d[k] == y[k];
      assert forall i :: 0 <= i < |a| ==> d[i] == y[i];
      assert forall i :: 0 <= i < |a| ==> b[i] == y'[i];
      assert b == y';
    }
  }

  lemma PivotRowSolves(d: real, p: real, v: real, u: real)
    requires p != 0.0
    ensures (d - p * v + -u) / p == -v <==> d == u
  {
    assert (d - p * v + -u) / p == (d - u) / p - v;
    if d != u {
      assert (d - u) / p * p != 0.0;
    }
  }

  lemma MultiplierTimesZero(c: real, d: real, u: real)
    ensures d == u ==> c * (d + -u) == 0.0
  {
  }

  /** After the last pivot the tableau is the inverse of B. */
  lemma FullyPivoted(a: Mat, b: Mat)
    requires Relates(a, |a|, b)
    ensures InverseMaps(a, b)
  {
    hide Dot;
    var n := |a|;
    forall u: Vec, v: Vec | |u| == n && |v| == n
      ensures Apply(a, u) == v <==> Apply(b, v) == u
    {
      assert Exchanged(a, n, v, u) <==> Apply(b, v) == u;
      assert Inputs(n, v, u) == Neg(u) && Outputs(n, v, u) == Neg(v);
      forall i | 0 <= i < n
        ensures Apply(a, Neg(u))[i] == -Apply(a, u)[i]
      {
        DotCommutes(a[i], Neg(u), n);
        DotNeg(u, a[i], n);
        DotCommutes(a[i], u, n);
      }
      if Apply(a, Neg(u)) == Neg(v) {
        assert forall i :: 0 <= i < n ==> Apply(a, Neg(u))[i] == Neg(v)[i];
        assert Apply(a, u) == v;
      }
      if Apply(a, u) == v {
        assert Apply(a, Neg(u)) == Neg(v);
      }
    }
  }

  /** Undoing one pair of interchanges: rows of B are columns of its inverse. */
  lemma RestoreKeeps(a: Mat, b: Mat, k: nat, i: nat, j: nat)
    requires Square(b) && k < |b| && i < |b| && j < |b|
    requires InverseMaps(a, ColInterchange(RowInterchange(b, k, i), k, j))
    ensures InverseMaps(RowRestore(ColRestore(a, k, i), k, j), b)
  {
    hide Dot;
    var r := RowInterchange(b, k, i);
    var c := ColInterchange(r, k, j);
    var a' := ColRestore(a, k, i);
    forall u: Vec, v: Vec | |u| == |b| && |v| == |b|
      ensures Apply(RowRestore(a', k, j), u) == v <==> Apply(b, v) == u
    {
      var u', v' := Interchange(u, k, i), Interchange(v, k, j);
      ApplyRowRestore(a', k, j, u);
      ApplyColRestore(a, k, i, u);
      RestoreInterchange(v, k, j);
      ApplyColInterchange(r, k, j, v);
      ApplyRowInterchange(b, k, i, v);
      RestoreInterchange(u, k, i);
      RestoreInterchange(Apply(b, v), k, i);
      assert Apply(a, u') == v' <==> Apply(c, v') == u';
    }
  }

  // ----------------------------------------------------------------- singular input

  /** A zero remaining submatrix yields a non-zero v with B v == 0. */
  lemma ZeroPivotSingular(a: Mat, k: nat, b: Mat)
    requires Relates(a, k, b) && k < |a|
    requires forall i, j :: k <= i < |a| && k <= j < |a| ==> a[i][j] == 0.0
    ensures Singular(b)
  {
    hide Dot;
    var n := |a|;
    var e := Unit(n, k);
    var z := Zero(n);
    var v := seq(n, i requires 0 <= i < n => if i < k then -a[i][k] else e[i]);
    assert Inputs(k, v, z) == e;
    forall i | 0 <= i < n
      ensures Apply(a, e)[i] == Outputs(k, v, z)[i]
    {
      DotUnit(a[i], k, n);
    }
    assert Exchanged(a, k, v, z);
    assert v[k] == 1.0;
  }

  /** An interchange of rows and columns neither makes nor removes singularity. */
  lemma SingularInterchange(b: Mat, k: nat, i: nat, j: nat)
    requires Square(b) && k < |b| && i < |b| && j < |b|
    ensures Singular(ColInterchange(RowInterchange(b, k, i), k, j)) <==> Singular(b)
  {
    hide Dot;
    var n := |b|;
    var r := RowInterchange(b, k, i);
    var c := ColInterchange(r, k, j);
    var z := Zero(n);
    assert Interchange(z, k, i) == z && Interchange(z, k, j) == z;
    if Singular(c) {
      var v: Vec :| |v| == n && v != z && Apply(c, v) == z;
      var w := Restore(v, k, j);
      ApplyColInterchange(r, k, j, w);
      ApplyRowInterchange(b, k, i, w);
      InterchangeInjective(Apply(b, w), z, k, i);
    }
    if Singular(b) {
      var v: Vec :| |v| == n && v != z && Apply(b, v) == z;
      ApplyColInterchange(r, k, j, v);
      ApplyRowInterchange(b, k, i, v);
      if Interchange(v, k, j) == z {
        InterchangeInjective(v, z, k, j);
      }
    }
  }
}
