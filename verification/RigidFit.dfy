/** When the fitted map is a rigid motion. The fit is a general affine map; for targets that
    are an affine image of the sources it is a rotation with a translation exactly when the
    targets keep the distances and the orientation of the sources. */
module RigidFit {
  import opened Basics
  import opened LinAlg
  import opened Determinant
  import opened Matrix
  import opened LeastSquares
  import opened CoordinateTransforms

  /** a1 * b1 + a2 * b2, a function of its own so that equal arguments give equal results. */
  function Dot2(a1: real, a2: real, b1: real, b2: real): real {
    a1 * b1 + a2 * b2
  }

  function Cross(a1: real, a2: real, b1: real, b2: real): real {
    a1 * b2 - a2 * b1
  }

  function SquaredDistance(xs: seq<real>, ys: seq<real>, i: nat, j: nat): real
    requires i < |xs| == |ys| && j < |xs|
  {
    Dot2(xs[j] - xs[i], ys[j] - ys[i], xs[j] - xs[i], ys[j] - ys[i])
  }

  /** Twice the signed area of the triangle i, j, k. */
  function Turn(xs: seq<real>, ys: seq<real>, i: nat, j: nat, k: nat): real
    requires i < |xs| == |ys| && j < |xs| && k < |xs|
  {
    Cross(xs[j] - xs[i], ys[j] - ys[i], xs[k] - xs[i], ys[k] - ys[i])
  }

  predicate KeepsDistances(xs: seq<real>, ys: seq<real>, xd: seq<real>, yd: seq<real>) {
    |xs| == |ys| == |xd| == |yd|
    && forall i, j :: 0 <= i < |xs| && 0 <= j < |xs| ==> SquaredDistance(xd, yd, i, j) == SquaredDistance(xs, ys, i, j)
  }

  predicate KeepsTurns(xs: seq<real>, ys: seq<real>, xd: seq<real>, yd: seq<real>) {
    |xs| == |ys| == |xd| == |yd|
    && forall i, j, k :: 0 <= i < |xs| && 0 <= j < |xs| && 0 <= k < |xs| ==>
      Turn(xd, yd, i, j, k) == Turn(xs, ys, i, j, k)
  }

  /** The rows (a, b) and (d, e) of the linear part are orthonormal. */
  predicate Orthonormal(a: real, b: real, d: real, e: real) {
    Dot2(a, b, a, b) == 1.0 && Dot2(d, e, d, e) == 1.0 && Dot2(a, b, d, e) == 0.0
  }

  predicate Rotation(a: real, b: real, d: real, e: real) {
    Orthonormal(a, b, d, e) && Cross(a, b, d, e) == 1.0
  }

  // ------------------------------------------------------------- two by two systems

  /** A vector orthogonal to two independent ones is zero. */
  lemma OrthogonalToBoth(u1: real, u2: real, v1: real, v2: real, r: real, s: real)
    requires Cross(u1, u2, v1, v2) != 0.0 && Dot2(u1, u2, r, s) == 0.0 && Dot2(v1, v2, r, s) == 0.0
    ensures r == 0.0 && s == 0.0
  {
    var c := Cross(u1, u2, v1, v2);
    Eliminate2(u1, u2, v1, v2, r, s);
    ZeroFactor(c, r);
    ZeroFactor(c, s);
  }

  lemma Eliminate2(u1: real, u2: real, v1: real, v2: real, r: real, s: real)
    ensures Cross(u1, u2, v1, v2) * r == v2 * Dot2(u1, u2, r, s) - u2 * Dot2(v1, v2, r, s)
    ensures Cross(u1, u2, v1, v2) * s == u1 * Dot2(v1, v2, r, s) - v1 * Dot2(u1, u2, r, s)
  {
  }

  lemma ZeroFactor(c: real, x: real)
    requires c != 0.0 && c * x == 0.0
    ensures x == 0.0
  {
  }

  /** The defect of the map's quadratic form: p = a^2 + d^2 - 1, q = a b + d e, t = b^2 + e^2 - 1. */
  function Form(p: real, q: real, t: real, u1: real, u2: real, v1: real, v2: real): real {
    Dot2(u1, u2, Dot2(p, q, v1, v2), Dot2(q, t, v1, v2))
  }

  lemma FormOfDifference(p: real, q: real, t: real, u1: real, u2: real, v1: real, v2: real)
    ensures Form(p, q, t, u1 - v1, u2 - v2, u1 - v1, u2 - v2)
         == Form(p, q, t, u1, u2, u1, u2) + Form(p, q, t, v1, v2, v1, v2) - 2.0 * Form(p, q, t, u1, u2, v1, v2)
    ensures Form(p, q, t, u1, u2, v1, v2) == Form(p, q, t, v1, v2, u1, u2)
  {
  }

  /** A form that vanishes on two independent vectors and their difference is zero. */
  lemma FormVanishes(p: real, q: real, t: real, u1: real, u2: real, v1: real, v2: real)
    requires Cross(u1, u2, v1, v2) != 0.0
    requires Form(p, q, t, u1, u2, u1, u2) == 0.0 && Form(p, q, t, v1, v2, v1, v2) == 0.0
    requires Form(p, q, t, u1 - v1, u2 - v2, u1 - v1, u2 - v2) == 0.0
    ensures p == 0.0 && q == 0.0 && t == 0.0
  {
    hide Dot2, Cross;
    FormOfDifference(p, q, t, u1, u2, v1, v2);
    var ru, su := Dot2(p, q, u1, u2), Dot2(q, t, u1, u2);
    var rv, sv := Dot2(p, q, v1, v2), Dot2(q, t, v1, v2);
    OrthogonalToBoth(u1, u2, v1, v2, ru, su);
    OrthogonalToBoth(u1, u2, v1, v2, rv, sv);
    Dot2Commutes(p, q, u1, u2);
    Dot2Commutes(p, q, v1, v2);
    Dot2Commutes(q, t, u1, u2);
    Dot2Commutes(q, t, v1, v2);
    OrthogonalToBoth(u1, u2, v1, v2, p, q);
    OrthogonalToBoth(u1, u2, v1, v2, q, t);
  }

  lemma Dot2Commutes(a: real, b: real, c: real, d: real)
    ensures Dot2(a, b, c, d) == Dot2(c, d, a, b)
  {
  }

  /** The squared length of the image of (u1, u2) in terms of the form. */
  lemma ImageLength(a: real, b: real, d: real, e: real, u1: real, u2: real)
    ensures var x, y := Dot2(a, b, u1, u2), Dot2(d, e, u1, u2);
      Dot2(x, y, x, y)
      == Dot2(u1, u2, u1, u2) + Form(Dot2(a, d, a, d) - 1.0, Dot2(a, d, b, e), Dot2(b, e, b, e) - 1.0, u1, u2, u1, u2)
  {
    var s, m, w := u1 * u1, u1 * u2, u2 * u2;
    var p, q, t := Dot2(a, d, a, d) - 1.0, Dot2(a, d, b, e), Dot2(b, e, b, e) - 1.0;
    var x, y := Dot2(a, b, u1, u2), Dot2(d, e, u1, u2);
    ImageSquared(a, b, u1, u2, x, s, m, w);
    ImageSquared(d, e, u1, u2, y, s, m, w);
    FormExpanded(p, q, t, u1, u2, s, m, w);
    Collect(a * a, d * d, s);
    Collect(b * b, e * e, w);
    Distribute2(a * b, d * e, m);
    LengthIs(x, y, x * x, y * y);
    LengthIs(u1, u2, s, w);
    assert p == a * a + d * d - 1.0 && q == a * b + d * e && t == b * b + e * e - 1.0;
    hide Form, Dot2;
    assert x * x + y * y == s + w + (p * s + 2.0 * (q * m) + t * w);
  }

  lemma LengthIs(x: real, y: real, xx: real, yy: real)
    requires xx == x * x && yy == y * y
    ensures Dot2(x, y, x, y) == xx + yy
  {
  }

  lemma ImageSquared(a: real, b: real, u: real, v: real, x: real, uu: real, uv: real, vv: real)
    requires x == Dot2(a, b, u, v) && uu == u * u && uv == u * v && vv == v * v
    ensures x * x == (a * a) * uu + 2.0 * ((a * b) * uv) + (b * b) * vv
  {
    Squares(a, u, b, v);
    SumSquared(a * u, b * v);
  }

  lemma SumSquared(x: real, y: real)
    ensures (x + y) * (x + y) == x * x + 2.0 * (x * y) + y * y
  {
  }

  lemma Collect(x: real, y: real, s: real)
    ensures (x + y - 1.0) * s == x * s + y * s - s
  {
  }

  lemma Distribute2(x: real, y: real, s: real)
    ensures (x + y) * s == x * s + y * s
  {
  }

  lemma Squares(a: real, u: real, b: real, v: real)
    ensures (a * u) * (a * u) == (a * a) * (u * u) && (b * v) * (b * v) == (b * b) * (v * v)
    ensures (a * u) * (b * v) == (a * b) * (u * v)
  {
  }

  lemma FormExpanded(p: real, q: real, t: real, u: real, v: real, uu: real, uv: real, vv: real)
    requires uu == u * u && uv == u * v && vv == v * v
    ensures Form(p, q, t, u, v, u, v) == p * uu + 2.0 * (q * uv) + t * vv
  {
    TwoTerms(u, p, u, q, v);
    TwoTerms(v, q, u, t, v);
    assert v * u == u * v;
  }

  lemma TwoTerms(w: real, p: real, u: real, q: real, v: real)
    ensures w * (p * u + q * v) == p * (w * u) + q * (w * v)
  {
    var x, y := p * u, q * v;
    assert w * (x + y) == w * x + w * y;
    assert w * (p * u) == p * (w * u) && w * (q * v) == q * (w * v);
  }

  lemma ImageTurn(a: real, b: real, d: real, e: real, u1: real, u2: real, v1: real, v2: real)
    ensures Cross(Dot2(a, b, u1, u2), Dot2(d, e, u1, u2), Dot2(a, b, v1, v2), Dot2(d, e, v1, v2))
         == Cross(a, b, d, e) * Cross(u1, u2, v1, v2)
  {
    var x1, x2, y1, y2 := a * u1, b * u2, d * u1, e * u2;
    var p1, p2, q1, q2 := a * v1, b * v2, d * v1, e * v2;
    assert x1 * q1 == (a * d) * (u1 * v1) && y1 * p1 == (a * d) * (u1 * v1);
    assert x2 * q2 == (b * e) * (u2 * v2) && y2 * p2 == (b * e) * (u2 * v2);
    assert x1 * q2 == (a * e) * (u1 * v2) && y2 * p1 == (a * e) * (u2 * v1);
    assert x2 * q1 == (b * d) * (u2 * v1) && y1 * p2 == (b * d) * (u1 * v2);
    var s, t, f, g := u1 * v2, u2 * v1, a * e, b * d;
    ProductOfSums(x1, x2, q1, q2);
    ProductOfSums(y1, y2, p1, p2);
    ProductOfSums(f, -g, s, -t);
    SignsOut(f, g, s, t);
  }

  lemma ProductOfSums(x: real, y: real, u: real, v: real)
    ensures (x + y) * (u + v) == x * u + x * v + y * u + y * v
  {
  }

  lemma SignsOut(f: real, g: real, s: real, t: real)
    ensures f * -t == -(f * t) && -g * s == -(g * s) && -g * -t == g * t
  {
  }

  /** For a square matrix, columns are orthonormal exactly when rows are. */
  lemma RowsAndColumns(a: real, b: real, d: real, e: real)
    ensures Orthonormal(a, b, d, e) <==> Orthonormal(a, d, b, e)
  {
    if Orthonormal(a, d, b, e) {
      RowsFromColumns(a, b, d, e);
    }
    if Orthonormal(a, b, d, e) {
      RowsFromColumns(a, d, b, e);
    }
  }

  /** The columns (a, d) and (b, e) are orthonormal, so the second is the first turned by a
      right angle one way or the other. */
  lemma OrthonormalTurn(a: real, d: real, b: real, e: real)
    requires a * a + d * d == 1.0 && a * b + d * e == 0.0 && b * b + e * e == 1.0
    ensures (e == a && b == -d) || (e == -a && b == d)
  {
    var k := a * e - d * b;
    TimesK(a, d, b, e, k);
    assert k * k == 1.0 by { KSquared(a, d, b, e, k); }
    UnitRoot(k);
  }

  lemma TimesK(a: real, d: real, b: real, e: real, k: real)
    requires a * a + d * d == 1.0 && a * b + d * e == 0.0 && k == a * e - d * b
    ensures e == a * k && b == -(d * k)
  {
    assert a * k == (a * a) * e - d * (a * b);
    assert d * (a * b) == -(d * (d * e));
    assert d * (d * e) == (d * d) * e;
    assert (a * a) * e + (d * d) * e == (a * a + d * d) * e;
    assert d * k == a * (d * e) - (d * d) * b;
    assert a * (d * e) == -(a * (a * b));
    assert a * (a * b) == (a * a) * b;
    assert (a * a) * b + (d * d) * b == (a * a + d * d) * b;
  }

  lemma KSquared(a: real, d: real, b: real, e: real, k: real)
    requires a * a + d * d == 1.0 && b * b + e * e == 1.0 && e == a * k && b == -(d * k)
    ensures k * k == 1.0
  {
    assert e * e == (a * a) * (k * k) && b * b == (d * d) * (k * k);
    assert (a * a) * (k * k) + (d * d) * (k * k) == (a * a + d * d) * (k * k);
  }

  lemma UnitRoot(k: real)
    requires k * k == 1.0
    ensures k == 1.0 || k == -1.0
  {
    assert (k - 1.0) * (k + 1.0) == 0.0;
    if k != 1.0 {
      ZeroFactor(k - 1.0, k + 1.0);
    }
  }

  lemma RowsFromColumns(a: real, b: real, d: real, e: real)
    requires a * a + d * d == 1.0 && a * b + d * e == 0.0 && b * b + e * e == 1.0
    ensures a * a + b * b == 1.0 && d * d + e * e == 1.0 && a * d + b * e == 0.0
  {
    OrthonormalTurn(a, d, b, e);
  }

  // --------------------------------------------------------- points not on one line

  lemma VanishesNowhere(xs: seq<real>, ys: seq<real>, n: Vec)
    requires |xs| == |ys| && |n| == 3 && Determined(xs, ys)
    requires forall i :: 0 <= i < |xs| ==> Image(n, xs[i], ys[i]) == 0.0
    ensures n == [0.0, 0.0, 0.0]
  {
    hide Singular, Gram, Apply, Image;
    var m := Design(xs, ys);
    forall i | 0 <= i < |xs|
      ensures Apply(m, n)[i] == 0.0
    {
      DesignApply(xs, ys, n, i);
    }
    assert Apply(m, n) == Zero(|xs|);
    KernelTrivial(m, n, |xs|);
  }

  lemma LineThrough(xs: seq<real>, ys: seq<real>, j: nat, k: nat, n: Vec)
    requires j < |xs| == |ys| && k < |xs|
    requires n == [-(ys[j] - ys[0]), xs[j] - xs[0], (ys[j] - ys[0]) * xs[0] - (xs[j] - xs[0]) * ys[0]]
    ensures Turn(xs, ys, 0, j, k) == Image(n, xs[k], ys[k])
  {
    var dx, dy, x, y := xs[j] - xs[0], ys[j] - ys[0], xs[k], ys[k];
    ImageIs(n, x, y, n[0], n[1], n[2]);
    assert dx * (y - ys[0]) == dx * y - dx * ys[0];
    assert dy * (x - xs[0]) == dy * x - dy * xs[0];
  }

  /** Points that determine the fit do not all lie on a line. */
  lemma Triangle(xs: seq<real>, ys: seq<real>) returns (j: nat, k: nat)
    requires |xs| == |ys| && Determined(xs, ys)
    ensures j < |xs| && k < |xs| && Turn(xs, ys, 0, j, k) != 0.0
  {
    hide Determined, Image, Turn;
    if |xs| == 0 {
      k := NotAllOn(xs, ys, [1.0, 0.0, 0.0]);
      assert false;
    } else if i :| 0 <= i < |xs| && (xs[i] != xs[0] || ys[i] != ys[0]) {
      j := i;
      var n := [-(ys[j] - ys[0]), xs[j] - xs[0], (ys[j] - ys[0]) * xs[0] - (xs[j] - xs[0]) * ys[0]];
      forall m | 0 <= m < |xs|
        ensures Turn(xs, ys, 0, j, m) == Image(n, xs[m], ys[m])
      {
        LineThrough(xs, ys, j, m, n);
      }
      k := NotAllOn(xs, ys, n);
    } else {
      j, k := 0, 0;
      var n := [1.0, 0.0, -xs[0]];
      forall m | 0 <= m < |xs|
        ensures Image(n, xs[m], ys[m]) == 0.0
      {
        ImageIs(n, xs[m], ys[m], 1.0, 0.0, -xs[0]);
      }
      k := NotAllOn(xs, ys, n);
      assert false;
    }
  }

  /** Some point is off the line n. */
  lemma NotAllOn(xs: seq<real>, ys: seq<real>, n: Vec) returns (k: nat)
    requires |xs| == |ys| && |n| == 3 && (n[0] != 0.0 || n[1] != 0.0) && Determined(xs, ys)
    ensures k < |xs| && Image(n, xs[k], ys[k]) != 0.0
  {
    hide Determined, Image;
    if i :| 0 <= i < |xs| && Image(n, xs[i], ys[i]) != 0.0 {
      k := i;
    } else {
      VanishesNowhere(xs, ys, n);
      assert false;
    }
  }

  // ------------------------------------------------------------- the rigid fits

  lemma Differences(p: Vec, xs: seq<real>, ys: seq<real>, d: seq<real>, i: nat, j: nat)
    requires IsImage(p, xs, ys, d) && i < |xs| && j < |xs|
    ensures d[j] - d[i] == Dot2(p[0], p[1], xs[j] - xs[i], ys[j] - ys[i])
  {
    var a, b, c := p[0], p[1], p[2];
    assert a * (xs[j] - xs[i]) == a * xs[j] - a * xs[i];
    assert b * (ys[j] - ys[i]) == b * ys[j] - b * ys[i];
  }

  lemma DistanceChange(px: Vec, py: Vec, xs: seq<real>, ys: seq<real>, xd: seq<real>, yd: seq<real>, i: nat, j: nat)
    requires IsImage(px, xs, ys, xd) && IsImage(py, xs, ys, yd) && i < |xs| && j < |xs|
    ensures var a, b, d, e := px[0], px[1], py[0], py[1];
      SquaredDistance(xd, yd, i, j) == SquaredDistance(xs, ys, i, j)
        + Form(Dot2(a, d, a, d) - 1.0, Dot2(a, d, b, e), Dot2(b, e, b, e) - 1.0,
               xs[j] - xs[i], ys[j] - ys[i], xs[j] - xs[i], ys[j] - ys[i])
  {
    hide Form, Dot2;
    Differences(px, xs, ys, xd, i, j);
    Differences(py, xs, ys, yd, i, j);
    ImageLength(px[0], px[1], py[0], py[1], xs[j] - xs[i], ys[j] - ys[i]);
  }

  /** A product, kept from the solver where only its factors matter. */
  function Scaled(c: real, w: real): real {
    c * w
  }

  lemma TurnChange(px: Vec, py: Vec, xs: seq<real>, ys: seq<real>, xd: seq<real>, yd: seq<real>, i: nat, j: nat, k: nat)
    requires IsImage(px, xs, ys, xd) && IsImage(py, xs, ys, yd) && i < |xs| && j < |xs| && k < |xs|
    ensures Turn(xd, yd, i, j, k) == Scaled(Cross(px[0], px[1], py[0], py[1]), Turn(xs, ys, i, j, k))
  {
    hide Dot2, Cross;
    Differences(px, xs, ys, xd, i, j);
    Differences(py, xs, ys, yd, i, j);
    Differences(px, xs, ys, xd, i, k);
    Differences(py, xs, ys, yd, i, k);
    ImageTurn(px[0], px[1], py[0], py[1], xs[j] - xs[i], ys[j] - ys[i], xs[k] - xs[i], ys[k] - ys[i]);
  }

  lemma FormOfZero(u: real, v: real)
    ensures Form(0.0, 0.0, 0.0, u, v, u, v) == 0.0
  {
  }

  lemma DistancesIff(px: Vec, py: Vec, xs: seq<real>, ys: seq<real>, xd: seq<real>, yd: seq<real>)
    requires IsImage(px, xs, ys, xd) && IsImage(py, xs, ys, yd) && Determined(xs, ys)
    ensures KeepsDistances(xs, ys, xd, yd) <==> Orthonormal(px[0], px[1], py[0], py[1])
  {
    hide Form, SquaredDistance, Determined, Cross, Image, Dot2;
    var a, b, d, e := px[0], px[1], py[0], py[1];
    var p, q, t := Dot2(a, d, a, d) - 1.0, Dot2(a, d, b, e), Dot2(b, e, b, e) - 1.0;
    RowsAndColumns(a, b, d, e);
    if KeepsDistances(xs, ys, xd, yd) {
      var j, k := Triangle(xs, ys);
      DistanceChange(px, py, xs, ys, xd, yd, 0, j);
      DistanceChange(px, py, xs, ys, xd, yd, 0, k);
      DistanceChange(px, py, xs, ys, xd, yd, k, j);
      var u1, u2, v1, v2 := xs[j] - xs[0], ys[j] - ys[0], xs[k] - xs[0], ys[k] - ys[0];
      assert xs[j] - xs[k] == u1 - v1 && ys[j] - ys[k] == u2 - v2;
      FormVanishes(p, q, t, u1, u2, v1, v2);
    }
    if Orthonormal(a, b, d, e) {
      forall i, j | 0 <= i < |xs| && 0 <= j < |xs|
        ensures SquaredDistance(xd, yd, i, j) == SquaredDistance(xs, ys, i, j)
      {
        DistanceChange(px, py, xs, ys, xd, yd, i, j);
        FormOfZero(xs[j] - xs[i], ys[j] - ys[i]);
      }
    }
  }

  lemma TurnsIff(px: Vec, py: Vec, xs: seq<real>, ys: seq<real>, xd: seq<real>, yd: seq<real>)
    requires IsImage(px, xs, ys, xd) && IsImage(py, xs, ys, yd) && Determined(xs, ys)
    ensures KeepsTurns(xs, ys, xd, yd) <==> Cross(px[0], px[1], py[0], py[1]) == 1.0
  {
    hide Turn, Determined, Cross, Image, Scaled;
    var c := Cross(px[0], px[1], py[0], py[1]);
    if KeepsTurns(xs, ys, xd, yd) {
      var j, k := Triangle(xs, ys);
      TurnChange(px, py, xs, ys, xd, yd, 0, j, k);
      var w := Turn(xs, ys, 0, j, k);
      OneFactor(c, w);
    }
    if c == 1.0 {
      forall i, j, k | 0 <= i < |xs| && 0 <= j < |xs| && 0 <= k < |xs|
        ensures Turn(xd, yd, i, j, k) == Turn(xs, ys, i, j, k)
      {
        TurnChange(px, py, xs, ys, xd, yd, i, j, k);
        ScaledByOne(Turn(xs, ys, i, j, k));
      }
    }
  }

  lemma ScaledByOne(w: real)
    ensures Scaled(1.0, w) == w
  {
  }

  lemma OneFactor(c: real, w: real)
    requires w != 0.0 && w == Scaled(c, w)
    ensures c == 1.0
  {
    assert (c - 1.0) * w == 0.0;
    ZeroFactor(w, c - 1.0);
  }

  /** For targets that are an affine image of the sources, the fitted linear part has
      orthonormal rows exactly when the targets keep every distance, and is a rotation
      exactly when they also keep every orientation. */
  lemma RigidIff(para: seq<real>, xs: seq<real>, ys: seq<real>, xd: seq<real>, yd: seq<real>, px: Vec, py: Vec)
    requires Fits(para, xs, ys, xd, yd) && Determined(xs, ys)
    requires IsImage(px, xs, ys, xd) && IsImage(py, xs, ys, yd)
    ensures Orthonormal(para[0], para[1], para[3], para[4]) <==> KeepsDistances(xs, ys, xd, yd)
    ensures Rotation(para[0], para[1], para[3], para[4])
       <==> KeepsDistances(xs, ys, xd, yd) && KeepsTurns(xs, ys, xd, yd)
  {
    hide Determined, Image, IsImage, KeepsDistances, KeepsTurns, Orthonormal, Cross;
    ExactFit(para, xs, ys, xd, yd, px, py);
    ImageShape(px, xs, ys, xd);
    ImageShape(py, xs, ys, yd);
    assert para[0] == para[..3][0] && para[1] == para[..3][1] && para[3] == para[3..6][0] && para[4] == para[3..6][1];
    DistancesIff(px, py, xs, ys, xd, yd);
    TurnsIff(px, py, xs, ys, xd, yd);
  }

  lemma ImageShape(p: Vec, xs: seq<real>, ys: seq<real>, d: seq<real>)
    requires IsImage(p, xs, ys, d)
    ensures |p| == 3
  {
  }

  // --------------------------------------------------------- a fit that is not rigid

  const XS: seq<real> := [0.0, 1.0, 0.0]
  const YS: seq<real> := [0.0, 0.0, 1.0]
  const WIDE: seq<real> := [0.0, 2.0, 0.0]
  const GRAM: Mat := [[1.0, 0.0, 1.0], [0.0, 1.0, 1.0], [1.0, 1.0, 3.0]]

  lemma Dot3(r: Vec, x: Vec)
    requires |r| == |x| == 3
    ensures Dot(r, x, 3) == r[0] * x[0] + r[1] * x[1] + r[2] * x[2]
  {
    DotNext(r, x, 0, r[0], x[0]);
    DotNext(r, x, 1, r[1], x[1]);
    DotNext(r, x, 2, r[2], x[2]);
  }

  lemma GramOfExample()
    ensures Gram(Design(XS, YS), 3) == GRAM
  {
    hide Dot;
    var m := Design(XS, YS);
    var t := Transpose(m, 3);
    assert t[0] == XS && t[1] == YS && t[2] == [1.0, 1.0, 1.0];
    forall i, j | 0 <= i < 3 && 0 <= j < 3
      ensures Gram(m, 3)[i][j] == GRAM[i][j]
    {
      assert Col(m, 3, j) == t[j];
      Dot3(t[i], t[j]);
    }
    assert forall i :: 0 <= i < 3 ==> Gram(m, 3)[i] == GRAM[i];
  }

  lemma Det1(x: real)
    ensures Det([[x]]) == x
  {
    var s := [[x]];
    assert Minor(s, 0) == [];
    assert Term(s, 0) == Signed(0, x, Det(Minor(s, 0)));
    assert Expand(s, 1) == Expand(s, 0) + Term(s, 0);
  }

  lemma Det2(a: real, b: real, c: real, d: real)
    ensures Det([[a, b], [c, d]]) == a * d - b * c
  {
    var s := [[a, b], [c, d]];
    assert DropAt(s[1], 0) == [d] && DropAt(s[1], 1) == [c];
    assert Minor(s, 0) == [[d]] && Minor(s, 1) == [[c]];
    Det1(d);
    Det1(c);
    hide Minor;
    assert Term(s, 0) == Signed(0, a, d) && Term(s, 1) == Signed(1, b, c);
    hide Term;
    assert Expand(s, 2) == Expand(s, 1) + Term(s, 1) && Expand(s, 1) == Expand(s, 0) + Term(s, 0);
  }

  lemma DetOfExample()
    ensures Det(GRAM) == 1.0
  {
    var s := GRAM;
    assert DropAt(s[1], 0) == [1.0, 1.0] && DropAt(s[2], 0) == [1.0, 3.0];
    assert DropAt(s[1], 1) == [0.0, 1.0] && DropAt(s[2], 1) == [1.0, 3.0];
    assert DropAt(s[1], 2) == [0.0, 1.0] && DropAt(s[2], 2) == [1.0, 1.0];
    assert Minor(s, 0) == [[1.0, 1.0], [1.0, 3.0]];
    assert Minor(s, 1) == [[0.0, 1.0], [1.0, 3.0]];
    assert Minor(s, 2) == [[0.0, 1.0], [1.0, 1.0]];
    Det2(1.0, 1.0, 1.0, 3.0);
    Det2(0.0, 1.0, 1.0, 3.0);
    Det2(0.0, 1.0, 1.0, 1.0);
    hide Minor;
    assert Term(s, 0) == Signed(0, 1.0, 2.0) && Term(s, 1) == Signed(1, 0.0, -1.0)
      && Term(s, 2) == Signed(2, 1.0, -1.0);
    hide Term;
    assert Expand(s, 3) == Expand(s, 2) + Term(s, 2) && Expand(s, 2) == Expand(s, 1) + Term(s, 1);
    assert Expand(s, 1) == Expand(s, 0) + Term(s, 0);
  }

  /** Three points, one of them moved twice as far away: the determinant is large enough for
      the fit to succeed, and whatever is fitted has rows that are not orthonormal. */
  lemma StretchIsFitted(para: seq<real>)
    requires Fits(para, XS, YS, WIDE, YS)
    ensures Det(Gram(Design(XS, YS), 3)) == 1.0 && 1.0 >= MIN_DETERMINANT && Determined(XS, YS)
    ensures para[0] == 2.0 && !Orthonormal(para[0], para[1], para[3], para[4])
  {
    hide Det, Gram, SolvesNormalEquations, Singular;
    GramOfExample();
    DetOfExample();
    DetZeroIffSingular(GRAM);
    var px, py := [2.0, 0.0, 0.0], [0.0, 1.0, 0.0];
    assert IsImage(px, XS, YS, WIDE) && IsImage(py, XS, YS, YS);
    ExactFit(para, XS, YS, WIDE, YS, px, py);
    assert para[0] == para[..3][0] && para[1] == para[..3][1];
  }

  lemma StretchHasFit()
    ensures Fits([2.0, 0.0, 0.0, 0.0, 1.0, 0.0, 0.0, 0.0, 1.0], XS, YS, WIDE, YS)
  {
    hide Gram;
    var para, px, py := [2.0, 0.0, 0.0, 0.0, 1.0, 0.0, 0.0, 0.0, 1.0], [2.0, 0.0, 0.0], [0.0, 1.0, 0.0];
    assert para[..3] == px && para[3..6] == py && para[6..] == [0.0, 0.0, 1.0];
    ExactlySolved(px, XS, YS, WIDE);
    ExactlySolved(py, XS, YS, YS);
  }

  lemma ExactlySolved(p: Vec, xs: seq<real>, ys: seq<real>, d: seq<real>)
    requires IsImage(p, xs, ys, d)
    ensures SolvesNormalEquations(Design(xs, ys), p, d)
  {
    hide Apply, Image, Mul, Transpose;
    var m := Design(xs, ys);
    forall i | 0 <= i < |xs|
      ensures Apply(m, p)[i] == d[i]
    {
      DesignApply(xs, ys, p, i);
    }
    assert Apply(m, p) == d;
    ApplyMul(Transpose(m, 3), m, p);
  }
}
