/** Dynamic matrices with arbitrary index origins, and the operations that work on
    their storage in place: product, copy, transpose, inversion with full pivoting,
    and the least-squares solver built from them. Entries are exact reals. */
module Matrix {
  import opened Basics
  import opened LinAlg
  import opened Exchange
  import opened Determinant

  const EDOM := 33
  const ENOMEM := 12
  const PERMBUFSIZE := 100
  const MIN_DETERMINANT := 0.001

  /** Index bounds of the rows and columns, and the storage they address: entry (i, j)
      lives at el[i - lb1, j - lb2]. Two matrices share storage when `el` is the same. */
  datatype Dmat = Dmat(lb1: int, ub1: int, lb2: int, ub2: int, el: array2<real>) {
    ghost predicate Valid() {
      lb1 <= ub1 && lb2 <= ub2 && el.Length0 == ub1 - lb1 + 1 && el.Length1 == ub2 - lb2 + 1
    }

    predicate SquareWithOneOrigin() {
      lb1 == lb2 && ub1 == ub2
    }
  }

  /** The matrix held in a storage block. */
  ghost function View(el: array2<real>): (m: Mat)
    reads el
    ensures IsMat(m, el.Length0, el.Length1)
    ensures forall i, j :: 0 <= i < el.Length0 && 0 <= j < el.Length1 ==> m[i][j] == el[i, j]
  {
    seq(el.Length0, i requires 0 <= i < el.Length0 reads el =>
      seq(el.Length1, j requires 0 <= j < el.Length1 reads el => el[i, j]))
  }

  lemma ViewIs(el: array2<real>, m: Mat)
    requires IsMat(m, el.Length0, el.Length1)
    requires forall i, j :: 0 <= i < el.Length0 && 0 <= j < el.Length1 ==> el[i, j] == m[i][j]
    ensures View(el) == m
  {
    assert forall i :: 0 <= i < |m| ==> View(el)[i] == m[i];
  }

  lemma DotNext(r: Vec, x: Vec, k: nat, s: real, t: real)
    requires k < |r| && k < |x| && s == r[k] && t == x[k]
    ensures Dot(r, x, k + 1) == Dot(r, x, k) + s * t
  {
  }

  /** Bounds without rows or columns are refused, and allocation may fail; `memory` says that
      it does not. */
  method NewDmat(rs: int, re: int, cs: int, ce: int, memory: bool) returns (r: Option<Dmat>)
    ensures memory ==> (r.Some? <==> rs <= re && cs <= ce)
    ensures r.Some? ==> re - rs + 1 > 0 && ce - cs + 1 > 0
    ensures r.Some? ==> r.value.Valid() && fresh(r.value.el) && r.value == Dmat(rs, re, cs, ce, r.value.el)
    ensures r.Some? ==> forall i, j :: 0 <= i <= re - rs && 0 <= j <= ce - cs ==> r.value.el[i, j] == 0.0
  {
    var rows, cols := re - rs + 1, ce - cs + 1;
    if rows <= 0 || cols <= 0 {
      return None;
    }
    if !memory {
      if * {
        return None;
      }
    }
    var el := new real[rows, cols]((i, j) => 0.0);
    r := Some(Dmat(rs, re, cs, ce, el));
  }

  // ----------------------------------------------------------------------- product

  predicate Commensurate(a: Dmat, b: Dmat, c: Dmat) {
    a.ub2 - a.lb2 == b.ub1 - b.lb1 && a.ub1 - a.lb1 == c.ub1 - c.lb1 && b.ub2 - b.lb2 == c.ub2 - c.lb2
  }

  /** c = a * b. Workspace is allocated only when c shares storage with a or b. */
  method MatMul(a: Dmat, b: Dmat, c: Dmat, memory: bool) returns (code: int)
    requires a.Valid() && b.Valid() && c.Valid()
    modifies c.el
    ensures code == 0 || code == -1
    ensures !Commensurate(a, b, c) ==> code == -1
    ensures Commensurate(a, b, c) && (memory || (a.el != c.el && b.el != c.el)) ==> code == 0
    ensures code == 0 ==> Commensurate(a, b, c)
    ensures code == 0 ==> View(c.el) == Mul(old(View(a.el)), old(View(b.el)), b.el.Length1)
    ensures code != 0 ==> View(c.el) == old(View(c.el))
  {
    if a.ub2 - a.lb2 != b.ub1 - b.lb1 || a.ub1 - a.lb1 != c.ub1 - c.lb1 || b.ub2 - b.lb2 != c.ub2 - c.lb2 {
      return -1;
    }
    var d := c;
    var memAlloced := false;
    if !(a.el != c.el && b.el != c.el) {
      var w := NewDmat(c.lb1, c.ub1, c.lb2, c.ub2, memory);
      if w.None? {
        return -1;
      }
      d := w.value;
      memAlloced := true;
    }

    MatMulInto(a, b, d);
    if memAlloced {
      MoveInto(d, c);
    }
    return 0;
  }

  /** Copies the workspace into the result; both have the same bounds. */
  method MoveInto(d: Dmat, c: Dmat)
    requires d.Valid() && c.Valid() && d.el != c.el && d == c.(el := d.el)
    modifies c.el
    ensures View(c.el) == View(d.el)
  {
    ghost var p := View(d.el);
    for i := c.lb1 to c.ub1 + 1
      invariant View(d.el) == p
      invariant forall r, s :: 0 <= r < i - c.lb1 && 0 <= s < c.el.Length1 ==> c.el[r, s] == p[r][s]
    {
      ghost var x := i - c.lb1;
      for j := c.lb2 to c.ub2 + 1
        invariant View(d.el) == p
        invariant forall r, s :: 0 <= r < x && 0 <= s < c.el.Length1 ==> c.el[r, s] == p[r][s]
        invariant forall s :: 0 <= s < j - c.lb2 ==> c.el[x, s] == p[x][s]
      {
        c.el[i - c.lb1, j - c.lb2] := d.el[i - d.lb1, j - d.lb2];
      }
    }
    ViewIs(c.el, p);
  }

  /** The product loop, writing to storage that neither factor uses. */
  method MatMulInto(a: Dmat, b: Dmat, d: Dmat)
    requires a.Valid() && b.Valid() && d.Valid() && Commensurate(a, b, d)
    requires a.el != d.el && b.el != d.el
    modifies d.el
    ensures View(d.el) == Mul(View(a.el), View(b.el), b.el.Length1)
  {
    hide Mul, Dot, Col;
    ghost var am, bm, q := View(a.el), View(b.el), b.el.Length1;
    ghost var p := Mul(am, bm, q);
    var broff := b.lb1 - a.lb2;
    var croff := d.lb1 - a.lb1;
    var ccoff := d.lb2 - b.lb2;
    for i := a.lb1 to a.ub1 + 1
      invariant View(a.el) == am && View(b.el) == bm
      invariant forall r, s :: 0 <= r < i - a.lb1 && 0 <= s < q ==> d.el[r, s] == p[r][s]
    {
      ghost var x := i - a.lb1;
      for j := b.lb2 to b.ub2 + 1
        invariant View(a.el) == am && View(b.el) == bm
        invariant forall r, s :: 0 <= r < x && 0 <= s < q ==> d.el[r, s] == p[r][s]
        invariant forall s :: 0 <= s < j - b.lb2 ==> d.el[x, s] == p[x][s]
      {
        var t := InnerProduct(a, b, i, j, broff);
        ghost var y := j - b.lb2;
        assert t == p[x][y];
        d.el[i + croff - d.lb1, j + ccoff - d.lb2] := t;
        assert d.el[x, y] == p[x][y];
      }
    }
    ViewIs(d.el, p);
  }

  method InnerProduct(a: Dmat, b: Dmat, i: int, j: int, broff: int) returns (t: real)
    requires a.Valid() && b.Valid() && a.ub2 - a.lb2 == b.ub1 - b.lb1 && broff == b.lb1 - a.lb2
    requires a.lb1 <= i <= a.ub1 && b.lb2 <= j <= b.ub2
    ensures t == Dot(View(a.el)[i - a.lb1], Col(View(b.el), b.el.Length1, j - b.lb2), b.el.Length0)
  {
    ghost var row, col := View(a.el)[i - a.lb1], Col(View(b.el), b.el.Length1, j - b.lb2);
    t := 0.0;
    for k := a.lb2 to a.ub2 + 1
      invariant t == Dot(row, col, k - a.lb2)
    {
      var x, y := a.el[i - a.lb1, k - a.lb2], b.el[k + broff - b.lb1, j - b.lb2];
      DotNext(row, col, k - a.lb2, x, y);
      t := t + x * y;
    }
  }

  // -------------------------------------------------------------- copy and transpose

  /** Copies between matrices of one shape, whatever their index origins. */
  method MatCopy(a: Dmat, rslt: Dmat) returns (code: int)
    requires a.Valid() && rslt.Valid()
    modifies rslt.el
    ensures code == if a.ub1 - a.lb1 == rslt.ub1 - rslt.lb1 && a.ub2 - a.lb2 == rslt.ub2 - rslt.lb2 then 0 else -1
    ensures View(rslt.el) == if code == 0 then old(View(a.el)) else old(View(rslt.el))
  {
    var rowSize, colSize := a.ub1 - a.lb1, a.ub2 - a.lb2;
    if rowSize != rslt.ub1 - rslt.lb1 || colSize != rslt.ub2 - rslt.lb2 {
      return -1;
    }
    ghost var m := View(a.el);
    for i := 0 to rowSize + 1
      invariant View(a.el) == m
      invariant forall r, s :: 0 <= r < i && 0 <= s <= colSize ==> rslt.el[r, s] == m[r][s]
    {
      for j := 0 to colSize + 1
        invariant View(a.el) == m
        invariant forall r, s :: 0 <= r < i && 0 <= s <= colSize ==> rslt.el[r, s] == m[r][s]
        invariant forall s :: 0 <= s < j ==> rslt.el[i, s] == m[i][s]
      {
        assert a.el[i, j] == m[i][j];
        rslt.el[i, j] := a.el[i, j];
        assert a.el == rslt.el ==> View(a.el) == m by {
          if a.el == rslt.el {
            ViewIs(a.el, m);
          }
        }
      }
    }
    ViewIs(rslt.el, m);
    return 0;
  }

  /** Separate storage, the same square matrix, or shared storage under other origins. */
  method TransposeTo(a: Dmat, aTrans: Dmat, memory: bool) returns (code: int)
    requires a.Valid() && aTrans.Valid()
    modifies aTrans.el
    ensures a.ub1 - a.lb1 != aTrans.ub2 - aTrans.lb2 || a.ub2 - a.lb2 != aTrans.ub1 - aTrans.lb1 ==> code == -1
    ensures a.ub1 - a.lb1 == aTrans.ub2 - aTrans.lb2 && a.ub2 - a.lb2 == aTrans.ub1 - aTrans.lb1 ==>
              code == 0 || (code == -2 && !memory && a.el == aTrans.el && !(a.lb1 == aTrans.lb1 && a.lb2 == aTrans.lb2))
    ensures View(aTrans.el) == if code == 0 then Transpose(old(View(a.el)), a.el.Length1) else old(View(aTrans.el))
  {
    var rowSize, colSize := a.ub1 - a.lb1, a.ub2 - a.lb2;
    if rowSize < 0 || rowSize != aTrans.ub2 - aTrans.lb2 || colSize < 0 || colSize != aTrans.ub1 - aTrans.lb1 {
      return -1;
    }
    if a.el == aTrans.el && a.lb1 == aTrans.lb1 && a.lb2 == aTrans.lb2 {
      TransposeInPlace(a.el);
    } else if a.el == aTrans.el {
      var tmp := NewDmat(aTrans.lb1, aTrans.ub1, aTrans.lb2, aTrans.ub2, memory);
      if tmp.None? {
        return -2;
      }
      TransposeInto(a.el, tmp.value.el);
      var _ := MatCopy(tmp.value, aTrans);
    } else {
      TransposeInto(a.el, aTrans.el);
    }
    return 0;
  }

  /** Swaps every entry above the diagonal with its mirror image. */
  method TransposeInPlace(el: array2<real>)
    requires el.Length0 == el.Length1
    modifies el
    ensures View(el) == Transpose(old(View(el)), el.Length1)
  {
    ghost var m := View(el);
    var n := el.Length0;
    for i := 0 to n
      invariant forall r, s :: 0 <= r < n && 0 <= s < n ==>
                  el[r, s] == if r < i || s < i then m[s][r] else m[r][s]
    {
      for j := i + 1 to n
        invariant forall r, s :: 0 <= r < n && 0 <= s < n ==>
                    el[r, s] == if r < i || s < i || (r == i && s < j) || (s == i && r < j) then m[s][r] else m[r][s]
      {
        var temp := el[i, j];
        el[i, j] := el[j, i];
        el[j, i] := temp;
      }
    }
    ViewIs(el, Transpose(m, n));
  }

  method TransposeInto(src: array2<real>, dst: array2<real>)
    requires src != dst && src.Length0 == dst.Length1 && src.Length1 == dst.Length0
    modifies dst
    ensures View(dst) == Transpose(View(src), src.Length1)
  {
    ghost var m := View(src);
    for i := 0 to src.Length0
      invariant View(src) == m
      invariant forall r, s :: 0 <= r < i && 0 <= s < src.Length1 ==> dst[s, r] == m[r][s]
    {
      for j := 0 to src.Length1
        invariant View(src) == m
        invariant forall r, s :: 0 <= r < i && 0 <= s < src.Length1 ==> dst[s, r] == m[r][s]
        invariant forall s :: 0 <= s < j ==> dst[s, i] == m[i][s]
      {
        dst[j, i] := src[i, j];
      }
    }
    ViewIs(dst, Transpose(m, src.Length1));
  }

  // ----------------------------------------------------------------------- inversion
  // Positions 0 .. n-1 stand for the indices lb1 .. ub1, the common origin taken away.

  function Abs(x: real): real {
    if x < 0.0 then -x else x
  }

  /** The first entry of largest magnitude among rows and columns k .. n-1, and where it is. */
  method FindPivot(el: array2<real>, k: nat) returns (biga: real, l: nat, m: nat)
    requires el.Length0 == el.Length1 && k < el.Length0
    ensures k <= l < el.Length0 && k <= m < el.Length0 && biga == el[l, m]
    ensures forall i, j :: k <= i < el.Length0 && k <= j < el.Length0 ==> Abs(el[i, j]) <= Abs(biga)
    ensures forall i, j :: k <= i <= l && k <= j < el.Length0 && (i < l || j < m) ==> Abs(el[i, j]) < Abs(biga)
  {
    var n := el.Length0;
    l, m := k, k;
    biga := el[k, k];
    for i := k to n
      invariant k <= l < n && k <= m < n && biga == el[l, m] && (l < i || (l == k && m == k))
      invariant forall r, s :: k <= r < i && k <= s < n ==> Abs(el[r, s]) <= Abs(biga)
      invariant forall r, s :: k <= r <= l && k <= s < n && (r < l || s < m) ==> Abs(el[r, s]) < Abs(biga)
    {
      for j := k to n
        invariant k <= l < n && k <= m < n && biga == el[l, m]
        invariant l < i || (l == i && m < j) || (l == k && m == k)
        invariant forall r, s :: k <= r < i && k <= s < n ==> Abs(el[r, s]) <= Abs(biga)
        invariant forall r, s :: k <= r <= l && k <= s < n && (r < l || s < m) ==> Abs(el[r, s]) < Abs(biga)
        invariant forall s :: k <= s < j ==> Abs(el[i, s]) <= Abs(biga)
      {
        if Abs(el[i, j]) > Abs(biga) {
          biga := el[i, j];
          l, m := i, j;
        }
      }
    }
  }

  method InterchangeRows(el: array2<real>, k: nat, i: nat)
    requires el.Length0 == el.Length1 && k <= i < el.Length0
    modifies el
    ensures View(el) == RowInterchange(old(View(el)), k, i)
  {
    ghost var a := View(el);
    if i > k {
      for j := 0 to el.Length1
        invariant forall r, s :: 0 <= r < el.Length0 && 0 <= s < el.Length1 ==>
                    el[r, s] == if s >= j then a[r][s] else if r == k then a[i][s] else if r == i then -a[k][s]
                      else a[r][s]
      {
        var hold := -el[k, j];
        el[k, j] := el[i, j];
        el[i, j] := hold;
      }
    }
    ViewIs(el, RowInterchange(a, k, i));
  }

  method InterchangeColumns(el: array2<real>, k: nat, j: nat)
    requires el.Length0 == el.Length1 && k <= j < el.Length0
    modifies el
    ensures View(el) == ColInterchange(old(View(el)), k, j)
  {
    ghost var a := View(el);
    if j > k {
      for i := 0 to el.Length0
        invariant forall r, s :: 0 <= r < el.Length0 && 0 <= s < el.Length1 ==>
                    el[r, s] == if r >= i then a[r][s] else if s == k then a[r][j] else if s == j then -a[r][k]
                      else a[r][s]
      {
        var hold := -el[i, k];
        el[i, k] := el[i, j];
        el[i, j] := hold;
      }
    }
    ViewIs(el, ColInterchange(a, k, j));
  }

  lemma PivotEntryIs(a: Mat, k: nat, i: nat, j: nat, x: real, h: real, y: real)
    requires Square(a) && k < |a| && i < |a| && j < |a| && i != k && j != k && a[k][k] != 0.0
    requires x == a[i][j] && h == a[i][k] / -a[k][k] && y == a[k][j]
    ensures PivotEntry(a, k, i, j) == x + h * y
  {
  }

  /** Divides column k by minus the pivot, reduces the rest, divides row k by the pivot. */
  method Reduce(el: array2<real>, k: nat, biga: real)
    requires el.Length0 == el.Length1 && k < el.Length0 && biga == el[k, k] && biga != 0.0
    modifies el
    ensures View(el) == Pivot(old(View(el)), k)
  {
    hide PivotEntry;
    ghost var a := View(el);
    var n := el.Length0;
    for i := 0 to n
      invariant forall r, s :: 0 <= r < n && 0 <= s < n ==>
                  el[r, s] == if s == k && r != k && r < i then a[r][k] / -biga else a[r][s]
    {
      if i != k {
        el[i, k] := el[i, k] / -biga;
      }
    }
    for i := 0 to n
      invariant forall r, s :: 0 <= r < n && 0 <= s < n ==>
                  el[r, s] == if r == k then a[r][s] else if s == k then a[r][k] / -biga
                              else if r < i then PivotEntry(a, k, r, s) else a[r][s]
    {
      if i != k {
        ReduceRow(el, k, biga, i, a);
      }
    }
    for j := 0 to n
      invariant forall r, s :: 0 <= r < n && 0 <= s < n ==>
                  el[r, s] == if r != k then (if s == k then a[r][k] / -biga else PivotEntry(a, k, r, s))
                              else if s != k && s < j then a[k][s] / biga else a[k][s]
    {
      if j != k {
        el[k, j] := el[k, j] / biga;
      }
    }
    el[k, k] := 1.0 / biga;
    forall r, s | 0 <= r < n && 0 <= s < n
      ensures el[r, s] == PivotEntry(a, k, r, s)
    {
      PivotEdges(a, k, r, s);
    }
    ViewIs(el, Pivot(a, k));
  }

  lemma PivotEdges(a: Mat, k: nat, r: nat, s: nat)
    requires Square(a) && k < |a| && r < |a| && s < |a| && a[k][k] != 0.0
    ensures r == k && s == k ==> PivotEntry(a, k, r, s) == 1.0 / a[k][k]
    ensures r == k && s != k ==> PivotEntry(a, k, r, s) == a[k][s] / a[k][k]
    ensures r != k && s == k ==> PivotEntry(a, k, r, s) == a[r][k] / -a[k][k]
  {
  }

  method ReduceRow(el: array2<real>, k: nat, biga: real, i: nat, ghost a: Mat)
    requires el.Length0 == el.Length1 && k < el.Length0 && i < el.Length0 && i != k
    requires Square(a) && |a| == el.Length0 && a[k][k] == biga != 0.0
    requires forall s :: 0 <= s < el.Length0 ==> el[k, s] == a[k][s]
    requires forall s :: 0 <= s < el.Length0 ==> el[i, s] == if s == k then a[i][k] / -biga else a[i][s]
    modifies el
    ensures forall r, s :: 0 <= r < el.Length0 && 0 <= s < el.Length0 ==>
              el[r, s] == if r == i && s != k then PivotEntry(a, k, i, s) else old(el[r, s])
  {
    hide PivotEntry;
    var n := el.Length0;
    var hold := el[i, k];
    for j := 0 to n
      invariant forall r, s :: 0 <= r < n && 0 <= s < n ==>
                  el[r, s] == if r == i && s != k && s < j then PivotEntry(a, k, i, s) else old(el[r, s])
    {
      if j != k {
        PivotEntryIs(a, k, i, j, el[i, j], hold, el[k, j]);
        el[i, j] := el[i, j] + hold * el[k, j];
      }
    }
  }

  method RestoreColumns(el: array2<real>, k: nat, i: nat)
    requires el.Length0 == el.Length1 && k <= i < el.Length0
    modifies el
    ensures View(el) == ColRestore(old(View(el)), k, i)
  {
    ghost var a := View(el);
    if i > k {
      for j := 0 to el.Length0
        invariant forall r, s :: 0 <= r < el.Length0 && 0 <= s < el.Length1 ==>
                    el[r, s] == if r >= j then a[r][s] else if s == k then -a[r][i] else if s == i then a[r][k]
                      else a[r][s]
      {
        var hold := el[j, k];
        el[j, k] := -el[j, i];
        el[j, i] := hold;
      }
    }
    ViewIs(el, ColRestore(a, k, i));
  }

  method RestoreRows(el: array2<real>, k: nat, j: nat)
    requires el.Length0 == el.Length1 && k <= j < el.Length0
    modifies el
    ensures View(el) == RowRestore(old(View(el)), k, j)
  {
    ghost var a := View(el);
    if j > k {
      for i := 0 to el.Length1
        invariant forall r, s :: 0 <= r < el.Length0 && 0 <= s < el.Length1 ==>
                    el[r, s] == if s >= i then a[r][s] else if r == k then -a[j][s] else if r == j then a[k][s]
                      else a[r][s]
      {
        var hold := el[k, i];
        el[k, i] := -el[j, i];
        el[j, i] := hold;
      }
    }
    ViewIs(el, RowRestore(a, k, j));
  }

  /** Pivot search, interchanges and reduction of one step. A zero pivot stops it
      after the (then empty) interchanges. */
  method PivotStep(el: array2<real>, k: nat) returns (biga: real, i: nat, j: nat)
    requires el.Length0 == el.Length1 && k < el.Length0
    modifies el
    ensures k <= i < el.Length0 && k <= j < el.Length0 && biga == old(el[i, j])
    ensures biga == 0.0 ==> ZeroBlock(old(View(el)), k)
    ensures biga != 0.0 ==> View(el) == Step(old(View(el)), k, i, j)
  {
    hide Pivot;
    ghost var a := View(el);
    biga, i, j := FindPivot(el, k);
    ghost var r := RowInterchange(a, k, i);
    assert ColInterchange(r, k, j)[k][k] == biga by {
      assert r[k] == a[i];
    }
    InterchangeRows(el, k, i);
    InterchangeColumns(el, k, j);
    if biga != 0.0 {
      Reduce(el, k, biga);
    } else {
      forall x, y | k <= x < |a| && k <= y < |a|
        ensures a[x][y] == 0.0
      {
        assert Abs(a[x][y]) <= Abs(0.0);
      }
    }
  }

  /** trail[k] is the input with the interchanges of the first k steps made. */
  ghost predicate Trail(trail: seq<Mat>, l: seq<int>, m: seq<int>, n: nat) {
    |l| == |m| == n && 0 < |trail| <= n + 1
    && forall k :: 0 <= k < |trail| - 1 ==> TrailStep(trail[k], trail[k + 1], k, l[k], m[k], n)
  }

  ghost predicate TrailStep(b: Mat, b': Mat, k: nat, i: int, j: int, n: nat) {
    Square(b) && |b| == n && k <= i < n && k <= j < n
    && b' == ColInterchange(RowInterchange(b, k, i), k, j)
  }

  lemma NoInterchange(b: Mat, b': Mat, k: nat, n: nat)
    requires k + 1 == n && TrailStep(b, b', k, k, k, n)
    ensures b' == b
  {
    assert forall r :: 0 <= r < n ==> b'[r] == b[r];
  }

  /** The pivots found so far times the determinant of what is left. */
  lemma DetStep(det: real, biga: real, d: real, d': real, whole: real)
    requires det * d == whole && d == biga * d'
    ensures det * biga * d' == whole
    ensures det != 0.0 && biga != 0.0 ==> det * biga != 0.0
  {
    if det != 0.0 {
      FactorZero(det, biga);
    }
  }

  lemma TrailExtends(trail: seq<Mat>, l: seq<int>, m: seq<int>, l': seq<int>, m': seq<int>, n: nat, b': Mat)
    requires Trail(trail, l, m, n) && |trail| <= n
    requires var k := |trail| - 1;
             |l'| == |m'| == n && l'[..k] == l[..k] && m'[..k] == m[..k] && TrailStep(trail[k], b', k, l'[k], m'[k], n)
    ensures Trail(trail + [b'], l', m', n)
  {
    var t, k' := trail + [b'], |trail| - 1;
    forall k | 0 <= k < |t| - 1
      ensures TrailStep(t[k], t[k + 1], k, l'[k], m'[k], n)
    {
      if k < k' {
        assert l'[..k'][k] == l[..k'][k] && m'[..k'][k] == m[..k'][k];
      }
    }
  }

  /** The pivot loop: row and column positions of the pivots go to l and m. */
  method Eliminate(el: array2<real>, l: array<int>, m: array<int>) returns (det: real, ghost trail: seq<Mat>)
    requires el.Length0 == el.Length1 == l.Length == m.Length && l != m
    modifies el, l, m
    ensures det == Det(old(View(el)))
    ensures det != 0.0 ==> Trail(trail, l[..], m[..], l.Length) && |trail| == l.Length + 1 && trail[0] == old(View(el))
    ensures det != 0.0 ==> Relates(View(el), l.Length, trail[l.Length])
  {
    hide Det, Block, RowInterchange, ColInterchange, Relates, Step, Trail;
    ghost var am := View(el);
    var n := l.Length;
    det := 1.0;
    trail := [am];
    Unpivoted(am);
    WholeBlock(am);
    TrailStart(am, l[..], m[..]);
    for k := 0 to n
      invariant Trail(trail, l[..], m[..], n) && |trail| == k + 1 && trail[0] == am
      invariant Relates(View(el), k, trail[k])
      invariant det != 0.0 && det * Det(Block(View(el), k)) == Det(am)
    {
      ghost var v, l0, m0 := View(el), l[..], m[..];
      RelatesSquare(v, k, trail[k]);
      var biga, i, j := PivotStep(el, k);
      l[k], m[k] := i, j;
      if biga == 0.0 {
        ZeroBlockDet(v, k);
        det := 0.0;
        return;
      }
      StepKeeps(v, k, trail[k], i, j);
      DetStep(det, biga, Det(Block(v, k)), Det(Block(View(el), k + 1)), Det(am));
      det := det * biga;
      ghost var b' := ColInterchange(RowInterchange(trail[k], k, i), k, j);
      TrailExtends(trail, l0, m0, l[..], m[..], n, b');
      trail := trail + [b'];
    }
    EmptyBlock(View(el));
  }

  lemma TrailStart(a: Mat, l: seq<int>, m: seq<int>)
    requires |l| == |m|
    ensures Trail([a], l, m, |l|)
  {
  }

  /** The final loop: the interchanges undone, last one first. */
  method UndoInterchanges(el: array2<real>, l: array<int>, m: array<int>, ghost trail: seq<Mat>)
    requires el.Length0 == el.Length1 == l.Length == m.Length > 0
    requires Trail(trail, l[..], m[..], l.Length) && |trail| == l.Length + 1
    requires InverseMaps(View(el), trail[l.Length])
    modifies el
    ensures InverseMaps(View(el), trail[0])
  {
    hide InverseMaps, RowInterchange, ColInterchange, RowRestore, ColRestore;
    var n := l.Length;
    assert TrailStep(trail[n - 1], trail[n], n - 1, l[n - 1], m[n - 1], n);
    NoInterchange(trail[n - 1], trail[n], n - 1, n);
    for k := n - 1 downto 0
      invariant InverseMaps(View(el), trail[k])
    {
      assert TrailStep(trail[k], trail[k + 1], k, l[k], m[k], n);
      RestoreKeeps(View(el), trail[k], k, l[k], m[k]);
      RestoreColumns(el, k, l[k]);
      RestoreRows(el, k, m[k]);
    }
  }

  /** In-place inversion by Gauss-Jordan with full pivoting. Returns the determinant, and
      in errno what the original leaves there: 0 when it does not touch it. */
  method MatInvert(a: Dmat, memory: bool) returns (det: real, errno: int)
    requires a.Valid()
    modifies a.el
    ensures errno == EDOM <==> !a.SquareWithOneOrigin()
    ensures errno == 0 || ((errno == EDOM || errno == ENOMEM) && det == 0.0 && View(a.el) == old(View(a.el)))
    ensures errno == ENOMEM ==> a.el.Length0 > PERMBUFSIZE && !memory
    ensures errno == 0 ==> det == Det(old(View(a.el)))
    ensures errno == 0 ==> (det == 0.0 <==> Singular(old(View(a.el))))
    ensures errno == 0 && det != 0.0 ==> TwoSidedInverse(View(a.el), old(View(a.el)))
  {
    hide Det, Relates, Singular, TwoSidedInverse, InverseMaps, Trail;
    if a.lb1 != a.lb2 || a.ub1 != a.ub2 {
      return 0.0, EDOM;
    }
    var n := a.ub1 - a.lb1 + 1;
    if n > PERMBUFSIZE && !memory {
      if * {
        return 0.0, ENOMEM;
      }
    }
    errno := 0;
    ghost var am := View(a.el);
    DetZeroIffSingular(am);
    var l, m := new int[n], new int[n];
    ghost var trail;
    det, trail := Eliminate(a.el, l, m);
    if det == 0.0 {
      return;
    }
    FullyPivoted(View(a.el), trail[n]);
    UndoInterchanges(a.el, l, m, trail);
    InverseMapsAreInverse(View(a.el), am);
  }

  lemma WholeBlock(a: Mat)
    requires Square(a)
    ensures Block(a, 0) == a
  {
    assert forall i :: 0 <= i < |a| ==> Block(a, 0)[i] == a[i];
  }

  lemma EmptyBlock(a: Mat)
    requires Square(a)
    ensures Det(Block(a, |a|)) == 1.0
  {
    assert Block(a, |a|) == [];
  }
}
