/** The affine map from image to robot coordinates, fitted to pairs of points by least
    squares, and the object that keeps the points and applies the fitted map. */
module CoordinateTransforms {
  import opened Basics
  import opened LinAlg
  import opened Determinant
  import opened Matrix
  import opened LeastSquares

  /** The rows (x, y, 1) of the fitted system. */
  function Design(xs: seq<real>, ys: seq<real>): (m: Mat)
    requires |xs| == |ys|
    ensures IsMat(m, |xs|, 3)
    ensures forall i :: 0 <= i < |xs| ==> m[i] == [xs[i], ys[i], 1.0]
  {
    seq(|xs|, i requires 0 <= i < |xs| => [xs[i], ys[i], 1.0])
  }

  /** One coordinate of the affine map with parameters p. */
  function Image(p: seq<real>, x: real, y: real): real
    requires |p| == 3
  {
    p[0] * x + p[1] * y + p[2]
  }

  lemma ImageIs(p: seq<real>, x: real, y: real, a: real, b: real, c: real)
    requires p == [a, b, c]
    ensures Image(p, x, y) == a * x + b * y + c
  {
  }

  /** Mapping a point in place is right exactly when the first coordinate does not move or
      does not matter to the second. */
  lemma InPlaceRightIff(p: seq<real>, q: seq<real>, x: real, y: real)
    requires |p| == 3 && |q| == 3
    ensures Image(q, Image(p, x, y), y) == Image(q, x, y) <==> q[0] == 0.0 || Image(p, x, y) == x
  {
    hide Image;
    ImageIs(q, x, y, q[0], q[1], q[2]);
    var d := Image(p, x, y) - x;
    ImageIs(q, x + d, y, q[0], q[1], q[2]);
    ProductZero(q[0], d);
    assert q[0] * (x + d) == q[0] * x + q[0] * d;
  }

  /** Which arrays of a call are the same: source x or y as destination x or y, and the two
      destinations. */
  datatype Sharing = Sharing(xx: bool, xy: bool, yx: bool, yy: bool, dd: bool)

  ghost function SharingOf(srcX: array<real>, srcY: array<real>, dstX: array<real>, dstY: array<real>): Sharing {
    Sharing(dstX == srcX, dstX == srcY, dstY == srcX, dstY == srcY, dstX == dstY)
  }

  /** One index of the four arrays. */
  datatype Point = Point(srcX: real, srcY: real, dstX: real, dstY: real)

  /** After the copying loop: the second copy reads what the first may have written. */
  function Copied(sh: Sharing, x: real, y: real): Point {
    var y' := if sh.xy then x else y;
    Point(if sh.yx then y' else x, y', if sh.dd then y' else x, y')
  }

  /** After the mapping loop: the second coordinate reads what the first may have written. */
  function Mapped(sh: Sharing, p: seq<real>, q: seq<real>, x: real, y: real): (real, real)
    requires |p| == 3 && |q| == 3
  {
    var u := Image(p, x, y);
    var v := Image(q, if sh.xx then u else x, if sh.xy then u else y);
    (if sh.dd then v else u, v)
  }

  /** Both coordinates of one point come out as the affine map has them. */
  predicate Right(sh: Sharing, p: seq<real>, q: seq<real>, x: real, y: real)
    requires |p| == 3 && |q| == 3
  {
    var c := Copied(sh, x, y);
    Mapped(sh, p, q, c.srcX, c.srcY) == (Image(p, x, y), Image(q, x, y))
  }

  ghost predicate AlwaysRight(sh: Sharing, p: seq<real>, q: seq<real>)
    requires |p| == 3 && |q| == 3
  {
    forall x, y :: Right(sh, p, q, x, y)
  }

  /** What some four arrays can share when the two sources are different. */
  predicate TwoSources(sh: Sharing) {
    && !(sh.xx && sh.xy) && !(sh.yx && sh.yy)
    && (if sh.dd then sh.xx == sh.yx && sh.xy == sh.yy else !(sh.xx && sh.yx) && !(sh.xy && sh.yy))
  }

  /** The condition on the map under which a call with these shared arrays is right: a
      coordinate lost by the copying must not matter, the second coordinate must not need the
      old first one, and a destination for both must get the same value twice. */
  predicate RightCondition(sh: Sharing, p: seq<real>, q: seq<real>)
    requires |p| == 3 && |q| == 3
  {
    && (sh.xy ==> p[1] == 0.0 && q[1] == 0.0)
    && (sh.yx && !sh.xy ==> p[0] == 0.0 && q[0] == 0.0)
    && (sh.dd ==> p == q)
    && (sh.xx ==> q[0] == 0.0 || p == [1.0, 0.0, 0.0])
  }

  /** Whatever arrays are shared, the points of a call all come out right, for every point
      there is, exactly under the condition. */
  lemma RightIff(sh: Sharing, p: seq<real>, q: seq<real>)
    requires |p| == 3 && |q| == 3 && TwoSources(sh)
    ensures AlwaysRight(sh, p, q) <==> RightCondition(sh, p, q)
  {
    if AlwaysRight(sh, p, q) {
      RightNeeds(sh, p, q);
    }
    if RightCondition(sh, p, q) {
      forall x, y ensures Right(sh, p, q, x, y) {
        RightPoint(sh, p, q, x, y);
      }
    }
  }

  /** In place the call is right for all points exactly when the second coordinate does not
      use the first, or the first does not change. */
  lemma InPlaceAlwaysRightIff(p: seq<real>, q: seq<real>)
    requires |p| == 3 && |q| == 3
    ensures AlwaysRight(Sharing(true, false, false, true, false), p, q)
       <==> q[0] == 0.0 || p == [1.0, 0.0, 0.0]
  {
    RightIff(Sharing(true, false, false, true, false), p, q);
  }

  /** What a shared call computes from a point: a destination that is the other source has
      already lost a coordinate when the map is applied. */
  lemma SharedPoint(sh: Sharing, p: seq<real>, q: seq<real>, x: real, y: real)
    requires |p| == 3 && |q| == 3 && TwoSources(sh)
    ensures var c := Copied(sh, x, y);
      && c.srcX == (if sh.yx && !sh.xy then y else x) && c.srcY == (if sh.xy then x else y)
      && var u := Image(p, c.srcX, c.srcY);
         var v := if sh.xy then Image(q, x, u) else Image(q, if sh.xx then u else c.srcX, y);
         Mapped(sh, p, q, c.srcX, c.srcY) == (if sh.dd then v else u, v)
  {
    hide Image;
  }

  lemma UnitPoints(p: seq<real>)
    requires |p| == 3
    ensures Image(p, 0.0, 0.0) == p[2] && Image(p, 1.0, 0.0) == p[0] + p[2] && Image(p, 0.0, 1.0) == p[1] + p[2]
  {
  }

  lemma Unused(p: seq<real>, x: real, y: real, z: real)
    requires |p| == 3
    ensures p[0] == 0.0 ==> Image(p, x, y) == Image(p, z, y)
    ensures p[1] == 0.0 ==> Image(p, x, y) == Image(p, x, z)
  {
  }

  lemma RightPoint(sh: Sharing, p: seq<real>, q: seq<real>, x: real, y: real)
    requires |p| == 3 && |q| == 3 && TwoSources(sh) && RightCondition(sh, p, q)
    ensures Right(sh, p, q, x, y)
  {
    hide Image, Copied, Mapped;
    SharedPoint(sh, p, q, x, y);
    var c := Copied(sh, x, y);
    var u := Image(p, c.srcX, c.srcY);
    if sh.xy {
      Unused(p, x, c.srcY, y);
      Unused(q, x, u, y);
    } else if sh.yx {
      Unused(p, c.srcX, y, x);
      Unused(q, c.srcX, y, x);
      Unused(q, u, y, x);
    } else {
      InPlaceRightIff(p, q, x, y);
      ImageIs(p, x, y, p[0], p[1], p[2]);
    }
  }

  lemma RightNeeds(sh: Sharing, p: seq<real>, q: seq<real>)
    requires |p| == 3 && |q| == 3 && TwoSources(sh) && AlwaysRight(sh, p, q)
    ensures RightCondition(sh, p, q)
  {
    hide Image, Copied, Mapped;
    UnitPoints(p);
    UnitPoints(q);
    assert Right(sh, p, q, 0.0, 0.0) && Right(sh, p, q, 1.0, 0.0) && Right(sh, p, q, 0.0, 1.0);
    SharedPoint(sh, p, q, 0.0, 0.0);
    SharedPoint(sh, p, q, 1.0, 0.0);
    SharedPoint(sh, p, q, 0.0, 1.0);
    InPlaceRightIff(p, q, 0.0, 0.0);
    InPlaceRightIff(p, q, 1.0, 0.0);
    InPlaceRightIff(p, q, 0.0, 1.0);
    assert sh.dd ==> p == [p[0], p[1], p[2]] == [q[0], q[1], q[2]] == q;
  }

  /** The map (x, y) to (x + 1, x + y) in place: the origin goes to (1, 1), not (1, 0). */
  lemma InPlaceExample()
    ensures var p, q := [1.0, 0.0, 1.0], [1.0, 1.0, 0.0];
      Image(p, 0.0, 0.0) == 1.0 && Image(q, 0.0, 0.0) == 0.0 && Image(q, Image(p, 0.0, 0.0), 0.0) == 1.0
  {
  }

  lemma ProductZero(a: real, d: real)
    ensures a * d == 0.0 <==> a == 0.0 || d == 0.0
  {
    if a != 0.0 && d != 0.0 {
      FactorZero(a, d);
    }
  }

  lemma DesignApply(xs: seq<real>, ys: seq<real>, p: Vec, i: nat)
    requires |xs| == |ys| && |p| == 3 && i < |xs|
    ensures Apply(Design(xs, ys), p)[i] == Image(p, xs[i], ys[i])
  {
    var r, x, y, a, b, c := [xs[i], ys[i], 1.0], xs[i], ys[i], p[0], p[1], p[2];
    DotNext(r, p, 0, x, a);
    DotNext(r, p, 1, y, b);
    DotNext(r, p, 2, 1.0, c);
  }

  /** The fit of both coordinates: the normal equations, and a system that determines them. */
  predicate Fits(para: seq<real>, xs: seq<real>, ys: seq<real>, xd: seq<real>, yd: seq<real>) {
    |para| == 9 && |xs| == |ys| == |xd| == |yd|
    && SolvesNormalEquations(Design(xs, ys), para[..3], xd)
    && SolvesNormalEquations(Design(xs, ys), para[3..6], yd)
    && para[6..] == [0.0, 0.0, 1.0]
  }

  ghost predicate Determined(xs: seq<real>, ys: seq<real>)
    requires |xs| == |ys|
  {
    !Singular(Gram(Design(xs, ys), 3))
  }

  predicate IsImage(p: seq<real>, xs: seq<real>, ys: seq<real>, d: seq<real>) {
    |p| == 3 && |xs| == |ys| == |d| && forall i :: 0 <= i < |d| ==> d[i] == Image(p, xs[i], ys[i])
  }

  /** When the targets are an affine image of the sources, the fit is that affine map. */
  lemma ExactFit(para: seq<real>, xs: seq<real>, ys: seq<real>, xd: seq<real>, yd: seq<real>, px: Vec, py: Vec)
    requires Fits(para, xs, ys, xd, yd) && Determined(xs, ys)
    requires IsImage(px, xs, ys, xd) && IsImage(py, xs, ys, yd)
    ensures para[..3] == px && para[3..6] == py
  {
    hide Singular, Gram, SolvesNormalEquations, Apply, Image;
    var m := Design(xs, ys);
    forall i | 0 <= i < |xs|
      ensures Apply(m, px)[i] == xd[i] && Apply(m, py)[i] == yd[i]
    {
      DesignApply(xs, ys, px, i);
      DesignApply(xs, ys, py, i);
    }
    assert Apply(m, px) == xd && Apply(m, py) == yd;
    ExactSolutionIsFound(m, para[..3], xd, px);
    ExactSolutionIsFound(m, para[3..6], yd, py);
  }

  /** The distance of one mapped point from its target; sqrt is the library's. */
  function Miss(sqrt: real -> real, para: seq<real>, x: real, y: real, xt: real, yt: real): real
    requires |para| == 9
  {
    Length(sqrt, Image(para[..3], x, y) - xt, Image(para[3..6], x, y) - yt)
  }

  function Length(sqrt: real -> real, x: real, y: real): real {
    sqrt(x * x + y * y)
  }

  function TotalError(sqrt: real -> real, para: seq<real>, xs: seq<real>, ys: seq<real>, xd: seq<real>,
                      yd: seq<real>, n: nat): real
    requires |para| == 9 && n <= |xs| == |ys| == |xd| == |yd|
  {
    if n == 0 then 0.0
    else TotalError(sqrt, para, xs, ys, xd, yd, n - 1) + Miss(sqrt, para, xs[n - 1], ys[n - 1], xd[n - 1], yd[n - 1])
  }

  ghost predicate IsSqrt(sqrt: real -> real) {
    forall t: real :: t >= 0.0 ==> sqrt(t) >= 0.0 && sqrt(t) * sqrt(t) == t
  }

  lemma MissSign(sqrt: real -> real, para: seq<real>, x: real, y: real, xt: real, yt: real)
    requires IsSqrt(sqrt) && |para| == 9
    ensures Miss(sqrt, para, x, y, xt, yt) >= 0.0
    ensures Miss(sqrt, para, x, y, xt, yt) == 0.0 <==> Image(para[..3], x, y) == xt && Image(para[3..6], x, y) == yt
  {
    hide Image, Length;
    var ex, ey := Image(para[..3], x, y) - xt, Image(para[3..6], x, y) - yt;
    LengthSign(sqrt, ex, ey);
  }

  lemma LengthSign(sqrt: real -> real, x: real, y: real)
    requires IsSqrt(sqrt)
    ensures Length(sqrt, x, y) >= 0.0
    ensures Length(sqrt, x, y) == 0.0 <==> x == 0.0 && y == 0.0
  {
    var c := SquarePositive(x);
    var d := SquarePositive(y);
    var t := x * x + y * y;
    assert t == c + d >= 0.0;
    var s := SquarePositive(sqrt(t));
    assert s == t;
  }

  /** The total error is never negative, and zero exactly when every point is hit. */
  lemma {:induction false} TotalErrorSign(sqrt: real -> real, para: seq<real>, xs: seq<real>, ys: seq<real>,
                                          xd: seq<real>, yd: seq<real>, n: nat)
    requires IsSqrt(sqrt) && |para| == 9 && n <= |xs| == |ys| == |xd| == |yd|
    ensures TotalError(sqrt, para, xs, ys, xd, yd, n) >= 0.0
    ensures TotalError(sqrt, para, xs, ys, xd, yd, n) == 0.0 <==>
              forall i :: 0 <= i < n ==>
                xd[i] == Image(para[..3], xs[i], ys[i]) && yd[i] == Image(para[3..6], xs[i], ys[i])
  {
    hide Miss, Image, IsSqrt;
    if n > 0 {
      TotalErrorSign(sqrt, para, xs, ys, xd, yd, n - 1);
      MissSign(sqrt, para, xs[n - 1], ys[n - 1], xd[n - 1], yd[n - 1]);
    }
  }

  /** The mean error of a fit is zero exactly when the targets are an affine image. */
  lemma ZeroErrorIffAffine(sqrt: real -> real, para: seq<real>, xs: seq<real>, ys: seq<real>, xd: seq<real>,
                           yd: seq<real>)
    requires IsSqrt(sqrt) && Fits(para, xs, ys, xd, yd) && Determined(xs, ys)
    ensures TotalError(sqrt, para, xs, ys, xd, yd, |xs|) == 0.0
       <==> exists px, py :: IsImage(px, xs, ys, xd) && IsImage(py, xs, ys, yd)
  {
    hide Determined, Image, TotalError, SolvesNormalEquations, IsSqrt;
    TotalErrorSign(sqrt, para, xs, ys, xd, yd, |xs|);
    if px, py :| IsImage(px, xs, ys, xd) && IsImage(py, xs, ys, yd) {
      ExactFit(para, xs, ys, xd, yd, px, py);
    }
    if TotalError(sqrt, para, xs, ys, xd, yd, |xs|) == 0.0 {
      assert IsImage(para[..3], xs, ys, xd) && IsImage(para[3..6], xs, ys, yd);
    }
  }

  function Sum(ds: seq<real>): real {
    if ds == [] then 0.0 else Sum(ds[..|ds| - 1]) + ds[|ds| - 1]
  }

  /** d is how far the mapped point (x, y) is from (u, v). */
  predicate IsDistance(d: real, para: seq<real>, x: real, y: real, u: real, v: real)
    requires |para| == 9
  {
    var ex, ey := para[0] * x + para[1] * y + para[2] - u, para[3] * x + para[4] * y + para[5] - v;
    d >= 0.0 && d * d == ex * ex + ey * ey
  }

  predicate AreDistances(ds: seq<real>, para: seq<real>, xs: seq<real>, ys: seq<real>, xd: seq<real>, yd: seq<real>) {
    |para| == 9 && |ds| <= |xs| == |ys| == |xd| == |yd|
    && forall i :: 0 <= i < |ds| ==> IsDistance(ds[i], para, xs[i], ys[i], xd[i], yd[i])
  }

  /** The mean of the distances between the mapped points and their targets. */
  ghost predicate IsMeanDistance(mean: real, para: seq<real>, xs: seq<real>, ys: seq<real>, xd: seq<real>,
                                 yd: seq<real>) {
    exists ds :: AreDistances(ds, para, xs, ys, xd, yd) && |ds| == |xs| && Sum(ds) == Times(mean, |xs|)
  }

  function Times(mean: real, n: nat): real {
    mean * n as real
  }

  lemma MissIsDistance(sqrt: real -> real, para: seq<real>, x: real, y: real, u: real, v: real)
    requires IsSqrt(sqrt) && |para| == 9
    ensures IsDistance(Miss(sqrt, para, x, y, u, v), para, x, y, u, v)
  {
    var ex, ey := Image(para[..3], x, y) - u, Image(para[3..6], x, y) - v;
    ImageIs(para[..3], x, y, para[0], para[1], para[2]);
    ImageIs(para[3..6], x, y, para[3], para[4], para[5]);
    LengthIs(sqrt, ex, ey);
  }

  lemma LengthIs(sqrt: real -> real, x: real, y: real)
    requires IsSqrt(sqrt)
    ensures Length(sqrt, x, y) >= 0.0 && Length(sqrt, x, y) * Length(sqrt, x, y) == x * x + y * y
  {
    var c := SquarePositive(x);
    var d := SquarePositive(y);
  }

  lemma {:induction false} TotalOfDistances(sqrt: real -> real, para: seq<real>, xs: seq<real>, ys: seq<real>,
                                            xd: seq<real>, yd: seq<real>, n: nat) returns (ds: seq<real>)
    requires IsSqrt(sqrt) && |para| == 9 && n <= |xs| == |ys| == |xd| == |yd|
    ensures AreDistances(ds, para, xs, ys, xd, yd) && |ds| == n
    ensures Sum(ds) == TotalError(sqrt, para, xs, ys, xd, yd, n)
  {
    hide Miss, IsDistance, IsSqrt;
    ds := [];
    if n > 0 {
      var front := TotalOfDistances(sqrt, para, xs, ys, xd, yd, n - 1);
      MissIsDistance(sqrt, para, xs[n - 1], ys[n - 1], xd[n - 1], yd[n - 1]);
      ds := front + [Miss(sqrt, para, xs[n - 1], ys[n - 1], xd[n - 1], yd[n - 1])];
      assert ds[..n - 1] == front;
    }
  }

  /** What a failure may have done: the first row may already be the new one. */
  predicate Untouched(was: seq<real>, para: seq<real>, xs: seq<real>, ys: seq<real>, xd: seq<real>) {
    |was| == |para| == 9 && |xs| == |ys| && para[3..] == was[3..]
    && (para[..3] == was[..3] || SolvesNormalEquations(Design(xs, ys), para[..3], xd))
  }

  /** Fits the parameters to the points. When it fails, the first row may have been written
      before an allocation for the second failed; without that, nothing has changed. */
  method SolveTransMatrix(xs: seq<real>, ys: seq<real>, xd: seq<real>, yd: seq<real>, count: int, para: array<real>,
                          sqrt: real -> real, memory: bool)
    returns (ok: bool, meanErr: real, oom: bool)
    requires count == |xs| == |ys| == |xd| == |yd| && para.Length == 9
    modifies para
    ensures ok ==> count > 0 && Fits(para[..], xs, ys, xd, yd) && Determined(xs, ys)
    ensures ok ==> meanErr == TotalError(sqrt, para[..], xs, ys, xd, yd, count) / count as real
    ensures ok && IsSqrt(sqrt) ==> IsMeanDistance(meanErr, para[..], xs, ys, xd, yd)
    ensures memory ==> !oom
    ensures !oom ==> (ok <==> count >= 3 && Abs(Det(Gram(Design(xs, ys), 3))) >= 0.001)
    ensures !ok && !oom ==> para[..] == old(para[..])
    ensures !ok ==> Untouched(old(para[..]), para[..], xs, ys, xd)
  {
    hide Det, Gram, Singular, SolvesNormalEquations, Fits, TotalError, IsSqrt, IsMeanDistance, Times;
    ok, meanErr, oom := false, 0.0, false;
    if count <= 0 {
      return;
    }
    var rm := NewDmat(0, count - 1, 0, 2, memory);
    var ra := NewDmat(0, 2, 0, 0, memory);
    var rb := NewDmat(0, count - 1, 0, 0, memory);
    if rm.None? || ra.None? || rb.None? {
      oom := true;
      return;
    }
    var m, a, b := rm.value, ra.value, rb.value;
    FillDesign(m, xs, ys);
    ghost var design := Design(xs, ys);
    var code, px, py;
    code, oom, px := SolveFor(m, a, b, xd, design, memory);
    if code != 0 {
      return;
    }
    SetRow(para, 0, px);
    assert para[0..3] == para[..3];
    code, oom, py := SolveFor(m, a, b, yd, design, memory);
    if code != 0 {
      return;
    }
    SetRow(para, 3, py);
    SetRow(para, 6, [0.0, 0.0, 1.0]);
    assert para[..6][..3] == para[..3] && para[..6][3..6] == para[3..6] && para[6..9] == para[6..];
    FitsBothRows(para[..], px, py, xs, ys, xd, yd);
    meanErr := MeanError(xs, ys, xd, yd, count, para, sqrt);
    ok := true;
    MeanTimesCount(TotalError(sqrt, para[..], xs, ys, xd, yd, count), count);
    MeanIsMean(sqrt, para[..], xs, ys, xd, yd, meanErr);
  }

  lemma MeanIsMean(sqrt: real -> real, para: seq<real>, xs: seq<real>, ys: seq<real>, xd: seq<real>, yd: seq<real>,
                   mean: real)
    requires |para| == 9 && |xs| == |ys| == |xd| == |yd|
    requires Times(mean, |xs|) == TotalError(sqrt, para, xs, ys, xd, yd, |xs|)
    ensures IsSqrt(sqrt) ==> IsMeanDistance(mean, para, xs, ys, xd, yd)
  {
    hide IsSqrt, TotalError, AreDistances, Sum, Times;
    if IsSqrt(sqrt) {
      var ds := TotalOfDistances(sqrt, para, xs, ys, xd, yd, |xs|);
    }
  }

  lemma MeanTimesCount(total: real, n: nat)
    requires n > 0
    ensures Times(total / n as real, n) == total
  {
  }

  lemma FitsBothRows(para: seq<real>, px: Vec, py: Vec, xs: seq<real>, ys: seq<real>, xd: seq<real>, yd: seq<real>)
    requires |xs| == |ys| == |xd| == |yd| && |px| == |py| == 3 && |para| == 9
    requires para[..3] == px && para[3..6] == py && para[6..] == [0.0, 0.0, 1.0]
    requires SolvesNormalEquations(Design(xs, ys), px, xd) && SolvesNormalEquations(Design(xs, ys), py, yd)
    ensures Fits(para, xs, ys, xd, yd)
  {
  }

  method SetRow(para: array<real>, at: nat, row: seq<real>)
    requires at + 3 <= para.Length && |row| == 3
    modifies para
    ensures para[..at] == old(para[..at]) && para[at..at + 3] == row && para[at + 3..] == old(para[at + 3..])
  {
    para[at], para[at + 1], para[at + 2] := row[0], row[1], row[2];
  }

  /** One right-hand side: fills b with the target coordinate and solves. */
  method SolveFor(m: Dmat, a: Dmat, b: Dmat, d: seq<real>, ghost design: Mat, memory: bool)
    returns (code: int, oom: bool, x: seq<real>)
    requires m.Valid() && a.Valid() && b.Valid() && a.el != b.el && m.el != b.el && m.el != a.el
    requires m == Dmat(0, |d| - 1, 0, 2, m.el) && a == Dmat(0, 2, 0, 0, a.el) && b == Dmat(0, |d| - 1, 0, 0, b.el)
    requires View(m.el) == design
    modifies a.el, b.el
    ensures View(m.el) == design
    ensures code == 0 ==> SolvesNormalEquations(design, x, d) && !Singular(Gram(design, 3))
    ensures !oom ==> (code == 0 <==> |d| >= 3 && Abs(Det(Gram(design, 3))) >= 0.001)
    ensures |x| == 3 && (code == 0 ==> !oom) && (memory ==> !oom)
  {
    hide Det, Gram, Singular, SolvesNormalEquations;
    FillColumn(b, d);
    ColumnIs(b.el, d);
    code, oom := SolveSystem(m, a, b, memory);
    x := [a.el[0, 0], a.el[1, 0], a.el[2, 0]];
    ColumnIs(a.el, x);
  }

  method MeanError(xs: seq<real>, ys: seq<real>, xd: seq<real>, yd: seq<real>, count: int, para: array<real>,
                   sqrt: real -> real) returns (meanErr: real)
    requires 0 < count == |xs| == |ys| == |xd| == |yd| && para.Length == 9
    ensures meanErr == TotalError(sqrt, para[..], xs, ys, xd, yd, count) / count as real
  {
    hide Miss;
    var totalErr := 0.0;
    for i := 0 to count
      invariant totalErr == TotalError(sqrt, para[..], xs, ys, xd, yd, i)
    {
      var err := ErrorAt(sqrt, para, xs[i], ys[i], xd[i], yd[i]);
      totalErr := totalErr + err;
    }
    meanErr := totalErr / count as real;
  }

  method ErrorAt(sqrt: real -> real, para: array<real>, xs: real, ys: real, xd: real, yd: real) returns (err: real)
    requires para.Length == 9
    ensures err == Miss(sqrt, para[..], xs, ys, xd, yd)
  {
    var x := para[0] * xs + para[1] * ys + para[2];
    var y := para[3] * xs + para[4] * ys + para[5];
    ghost var p, q := para[..][..3], para[..][3..6];
    assert p == [para[0], para[1], para[2]] && q == [para[3], para[4], para[5]];
    assert Image(p, xs, ys) == x && Image(q, xs, ys) == y;
    err := Length(sqrt, x - xd, y - yd);
  }

  method FillDesign(m: Dmat, xs: seq<real>, ys: seq<real>)
    requires m.Valid() && |xs| == |ys| && m == Dmat(0, |xs| - 1, 0, 2, m.el)
    modifies m.el
    ensures View(m.el) == Design(xs, ys)
  {
    for i := 0 to |xs|
      invariant forall r :: 0 <= r < i ==> m.el[r, 0] == xs[r] && m.el[r, 1] == ys[r] && m.el[r, 2] == 1.0
    {
      m.el[i, 0] := xs[i];
      m.el[i, 1] := ys[i];
      m.el[i, 2] := 1.0;
    }
    ViewIs(m.el, Design(xs, ys));
  }

  method FillColumn(b: Dmat, d: seq<real>)
    requires b.Valid() && b == Dmat(0, |d| - 1, 0, 0, b.el)
    modifies b.el
    ensures forall i :: 0 <= i < |d| ==> b.el[i, 0] == d[i]
  {
    for i := 0 to |d|
      invariant forall r :: 0 <= r < i ==> b.el[r, 0] == d[r]
    {
      b.el[i, 0] := d[i];
    }
  }

  lemma ColumnIs(el: array2<real>, d: seq<real>)
    requires el.Length0 == |d| && el.Length1 == 1 && forall i :: 0 <= i < |d| ==> el[i, 0] == d[i]
    ensures Col(View(el), 1, 0) == d
  {
  }

  class CoordinateTransform {
    var imgX: seq<real>
    var imgY: seq<real>
    var robotX: seq<real>
    var robotY: seq<real>
    var bTransform: bool
    const transMatrix: array<real>

    ghost predicate Valid()
      reads this
    {
      transMatrix.Length == 9 && |imgX| == |imgY| == |robotX| == |robotY|
    }

    constructor ()
      ensures Valid() && !bTransform && fresh(transMatrix) && imgX == []
      ensures forall i :: 0 <= i < 9 ==> transMatrix[i] == 0.0
    {
      imgX, imgY, robotX, robotY := [], [], [], [];
      bTransform := false;
      transMatrix := new real[9](_ => 0.0);
    }

    method SetData(ix: seq<real>, iy: seq<real>, rx: seq<real>, ry: seq<real>)
      requires Valid() && |ix| == |iy| == |rx| == |ry|
      modifies this
      ensures Valid() && !bTransform && imgX == ix && imgY == iy && robotX == rx && robotY == ry
    {
      imgX, imgY, robotX, robotY := ix, iy, rx, ry;
      bTransform := false;
    }

    /** On success the stored map is the least-squares fit, and if the robot points are
        an affine image of the image points it is that affine map. */
    method Generate(sqrt: real -> real, memory: bool) returns (ok: bool, oom: bool)
      requires Valid() && IsSqrt(sqrt)
      modifies this`bTransform, transMatrix
      ensures Valid() && bTransform == (ok || old(bTransform))
      ensures memory ==> !oom
      ensures !oom ==> (ok <==> |imgX| >= 3 && Abs(Det(Gram(Design(imgX, imgY), 3))) >= 0.001)
      ensures ok ==> |imgX| >= 3 && Fits(transMatrix[..], imgX, imgY, robotX, robotY) && Determined(imgX, imgY)
      ensures ok ==> forall px, py | IsImage(px, imgX, imgY, robotX) && IsImage(py, imgX, imgY, robotY) ::
                transMatrix[..][..3] == px && transMatrix[..][3..6] == py
      ensures !ok && !oom ==> transMatrix[..] == old(transMatrix[..])
      ensures !ok ==> Untouched(old(transMatrix[..]), transMatrix[..], imgX, imgY, robotX)
    {
      hide Fits, Determined, IsImage, TotalError, Det, SolvesNormalEquations;
      var count := |imgX|;
      if count < 3 {
        return false, false;
      }
      var meanErr;
      ok, meanErr, oom := SolveTransMatrix(imgX, imgY, robotX, robotY, count, transMatrix, sqrt, memory);
      if !ok {
        return;
      }
      FitsLength(transMatrix[..], imgX, imgY, robotX, robotY);
      TotalErrorSign(sqrt, transMatrix[..], imgX, imgY, robotX, robotY, count);
      assert meanErr >= 0.0;
      if meanErr < 0.0 {
        ok := false;
        return;
      }
      forall px, py | IsImage(px, imgX, imgY, robotX) && IsImage(py, imgX, imgY, robotY)
        ensures transMatrix[..][..3] == px && transMatrix[..][3..6] == py
      {
        ExactFit(transMatrix[..], imgX, imgY, robotX, robotY, px, py);
      }
      bTransform := true;
    }

    /** Copies the points, then overwrites the copies with their images. The points stay
        copied when there is no map yet or there are more than 100 of them. */
    method Transform(pointNum: nat, srcX: array<real>, srcY: array<real>, dstX: array<real>, dstY: array<real>)
        returns (ok: bool)
      requires Valid() && transMatrix != dstX && transMatrix != dstY
      requires pointNum <= srcX.Length && pointNum <= srcY.Length && pointNum <= dstX.Length && pointNum <= dstY.Length
      modifies dstX, dstY
      ensures ok <==> bTransform && pointNum <= 100
      ensures var sh, p, q := SharingOf(srcX, srcY, dstX, dstY), transMatrix[..][..3], transMatrix[..][3..6];
        forall i :: 0 <= i < pointNum ==>
          var c := Copied(sh, old(srcX[i]), old(srcY[i]));
          (dstX[i], dstY[i]) == if ok then Mapped(sh, p, q, c.srcX, c.srcY) else (c.dstX, c.dstY)
      ensures !ok && dstX != dstY && dstX != srcY ==>
        forall i :: 0 <= i < pointNum ==> dstX[i] == old(srcX[i]) && dstY[i] == old(srcY[i])
      ensures var sh, p, q := SharingOf(srcX, srcY, dstX, dstY), transMatrix[..][..3], transMatrix[..][3..6];
        ok && srcX != srcY && RightCondition(sh, p, q) ==>
          forall i :: 0 <= i < pointNum ==>
            dstX[i] == Image(p, old(srcX[i]), old(srcY[i])) && dstY[i] == Image(q, old(srcX[i]), old(srcY[i]))
    {
      hide Image;
      ghost var sh := SharingOf(srcX, srcY, dstX, dstY);
      for i := 0 to pointNum
        invariant forall r :: i <= r < pointNum ==> srcX[r] == old(srcX[r]) && srcY[r] == old(srcY[r])
        invariant forall r :: 0 <= r < i ==>
          Point(srcX[r], srcY[r], dstX[r], dstY[r]) == Copied(sh, old(srcX[r]), old(srcY[r]))
      {
        dstX[i] := srcX[i];
        dstY[i] := srcY[i];
      }
      if !bTransform {
        return false;
      }
      if pointNum > 100 {
        return false;
      }
      MapPoints(pointNum, srcX, srcY, dstX, dstY);
      ghost var p, q := transMatrix[..][..3], transMatrix[..][3..6];
      if srcX != srcY && RightCondition(sh, p, q) {
        RightIff(sh, p, q);
        assert forall i :: 0 <= i < pointNum ==> Right(sh, p, q, old(srcX[i]), old(srcY[i]));
      }
      return true;
    }

    method MapPoints(pointNum: nat, srcX: array<real>, srcY: array<real>, dstX: array<real>, dstY: array<real>)
      requires Valid() && transMatrix != dstX && transMatrix != dstY
      requires pointNum <= srcX.Length && pointNum <= srcY.Length && pointNum <= dstX.Length && pointNum <= dstY.Length
      modifies dstX, dstY
      ensures var sh, p, q := SharingOf(srcX, srcY, dstX, dstY), transMatrix[..][..3], transMatrix[..][3..6];
        forall i :: 0 <= i < pointNum ==> (dstX[i], dstY[i]) == Mapped(sh, p, q, old(srcX[i]), old(srcY[i]))
    {
      ghost var sh, p, q := SharingOf(srcX, srcY, dstX, dstY), transMatrix[..][..3], transMatrix[..][3..6];
      assert p == [transMatrix[0], transMatrix[1], transMatrix[2]];
      assert q == [transMatrix[3], transMatrix[4], transMatrix[5]];
      hide Image;
      for i := 0 to pointNum
        invariant forall r :: i <= r < pointNum ==> srcX[r] == old(srcX[r]) && srcY[r] == old(srcY[r])
        invariant forall r :: 0 <= r < i ==> (dstX[r], dstY[r]) == Mapped(sh, p, q, old(srcX[r]), old(srcY[r]))
      {
        dstX[i] := Image([transMatrix[0], transMatrix[1], transMatrix[2]], srcX[i], srcY[i]);
        dstY[i] := Image([transMatrix[3], transMatrix[4], transMatrix[5]], srcX[i], srcY[i]);
      }
    }

    method Reset()
      requires Valid()
      modifies this, transMatrix
      ensures Valid() && !bTransform && imgX == [] && forall i :: 0 <= i < 9 ==> transMatrix[i] == 0.0
    {
      imgX, imgY, robotX, robotY := [], [], [], [];
      for i := 0 to 9
        invariant Valid() && imgX == [] && forall r :: 0 <= r < i ==> transMatrix[r] == 0.0
      {
        transMatrix[i] := 0.0;
      }
      bTransform := false;
    }
  }

  lemma FitsLength(para: seq<real>, xs: seq<real>, ys: seq<real>, xd: seq<real>, yd: seq<real>)
    requires Fits(para, xs, ys, xd, yd)
    ensures |para| == 9 && |xs| == |ys| == |xd| == |yd|
  {
  }
}
