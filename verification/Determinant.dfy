/** The determinant, defined by expansion along the first row, and the operations
    that keep it: those the inversion performs on the part of the array it has not
    reduced yet. Columns come first, because expanding along a row makes the
    determinant linear and alternating in the columns by plain induction; the rows
    follow by clearing the first row with column operations. */
module Determinant {
  import opened LinAlg
  import opened Exchange

  function DropAt(r: Vec, j: nat): (d: Vec)
    requires j < |r|
    ensures |d| == |r| - 1
    ensures forall i :: 0 <= i < |d| ==> d[i] == if i < j then r[i] else r[i + 1]
  {
    r[..j] + r[j + 1..]
  }

  /** The matrix without its first row and without column j. */
  function Minor(s: Mat, j: nat): (m: Mat)
    requires Square(s) && j < |s|
    ensures Square(m) && |m| == |s| - 1
    ensures forall i :: 0 <= i < |m| ==> m[i] == DropAt(s[i + 1], j)
  {
    seq(|s| - 1, i requires 0 <= i < |s| - 1 => DropAt(s[i + 1], j))
  }

  function Det(s: Mat): real
    requires Square(s)
    decreases |s|, |s| + 2
  {
    if |s| == 0 then 1.0 else Expand(s, |s|)
  }

  /** The first c terms of the expansion. */
  function Expand(s: Mat, c: nat): real
    requires Square(s) && c <= |s|
    decreases |s|, c + 1
  {
    if c == 0 then 0.0 else Expand(s, c - 1) + Term(s, c - 1)
  }

  function Term(s: Mat, j: nat): real
    requires Square(s) && j < |s|
    decreases |s|, 0
  {
    Signed(j, s[0][j], Det(Minor(s, j)))
  }

  /** The product with the sign of column j. Signed and Combine are functions of their
      own so that equal arguments give equal results without reasoning about products. */
  function Signed(j: nat, x: real, d: real): real {
    if j % 2 == 0 then x * d else -(x * d)
  }

  function Combine(x: real, t: real, y: real): real {
    x + t * y
  }

  lemma SignedCombine(j: nat, x: real, t: real, d1: real, d2: real)
    ensures Signed(j, x, Combine(d1, t, d2)) == Combine(Signed(j, x, d1), t, Signed(j, x, d2))
  {
    var q, p := t * d2, x * d2;
    assert x * (d1 + q) == x * d1 + x * q;
    assert x * (t * d2) == t * p;
    assert t * -p == -(t * p);
  }

  lemma SignedCommutes(j: nat, x: real, d: real)
    ensures Signed(j, x, d) == Signed(j, d, x)
  {
  }

  // ------------------------------------------------------------- sums of the terms

  lemma {:induction false} ExpandCombine(s: Mat, s1: Mat, s2: Mat, t: real, c: nat)
    requires Square(s) && Square(s1) && Square(s2) && c <= |s| == |s1| == |s2|
    requires forall j :: 0 <= j < c ==> Term(s, j) == Combine(Term(s1, j), t, Term(s2, j))
    ensures Expand(s, c) == Combine(Expand(s1, c), t, Expand(s2, c))
  {
    if c > 0 {
      ExpandCombine(s, s1, s2, t, c - 1);
      CombineSums(Expand(s1, c - 1), Expand(s2, c - 1), Term(s1, c - 1), Term(s2, c - 1), t);
    }
    hide Term, Combine;
    if c == 0 {
      assert Combine(0.0, t, 0.0) == 0.0 by {
        CombineSums(0.0, 0.0, 0.0, 0.0, t);
      }
    }
  }

  lemma CombineSums(x: real, y: real, x': real, y': real, t: real)
    ensures Combine(x + x', t, y + y') == Combine(x, t, y) + Combine(x', t, y')
  {
  }

  lemma {:induction false} ExpandZero(s: Mat, c: nat)
    requires Square(s) && c <= |s|
    requires forall j :: 0 <= j < c ==> Term(s, j) == 0.0
    ensures Expand(s, c) == 0.0
  {
    hide Term;
    if c > 0 {
      ExpandZero(s, c - 1);
    }
  }

  /** Only two neighbouring terms are not zero, and they cancel. */
  lemma {:induction false} ExpandPair(s: Mat, c: nat, m: nat)
    requires Square(s) && c + 1 < m <= |s|
    requires forall j :: 0 <= j < m && j != c && j != c + 1 ==> Term(s, j) == 0.0
    requires Term(s, c) + Term(s, c + 1) == 0.0
    ensures Expand(s, m) == 0.0
  {
    hide Term;
    if m == c + 2 {
      ExpandZero(s, c);
    } else {
      ExpandPair(s, c, m - 1);
    }
  }

  lemma {:induction false} ExpandFirst(s: Mat, m: nat)
    requires Square(s) && 0 < m <= |s|
    requires forall j :: 1 <= j < m ==> Term(s, j) == 0.0
    ensures Expand(s, m) == Term(s, 0)
  {
    hide Term;
    if m > 1 {
      ExpandFirst(s, m - 1);
    }
  }

  lemma TermCombine(s: Mat, s1: Mat, s2: Mat, t: real, j: nat, x: real, d1: real, d2: real)
    requires Square(s) && Square(s1) && Square(s2) && j < |s| == |s1| == |s2|
    requires s[0][j] == x && s1[0][j] == x && s2[0][j] == x
    requires d1 == Det(Minor(s1, j)) && d2 == Det(Minor(s2, j)) && Det(Minor(s, j)) == Combine(d1, t, d2)
    ensures Term(s, j) == Combine(Term(s1, j), t, Term(s2, j))
  {
    hide Det, Minor, Combine, Signed;
    SignedCombine(j, x, t, d1, d2);
  }

  lemma TermEntryCombine(s: Mat, s1: Mat, s2: Mat, t: real, j: nat, x1: real, x2: real, d: real)
    requires Square(s) && Square(s1) && Square(s2) && j < |s| == |s1| == |s2|
    requires s[0][j] == Combine(x1, t, x2) && s1[0][j] == x1 && s2[0][j] == x2
    requires d == Det(Minor(s, j)) && d == Det(Minor(s1, j)) && d == Det(Minor(s2, j))
    ensures Term(s, j) == Combine(Term(s1, j), t, Term(s2, j))
  {
    hide Det, Minor, Combine, Signed;
    SignedCombine(j, d, t, x1, x2);
    SignedCommutes(j, Combine(x1, t, x2), d);
    SignedCommutes(j, x1, d);
    SignedCommutes(j, x2, d);
  }

  // --------------------------------------------------------------------- columns

  function SetCol(s: Mat, c: nat, z: Vec): (m: Mat)
    requires Square(s) && c < |s| == |z|
    ensures Square(m) && |m| == |s|
    ensures forall i :: 0 <= i < |s| ==> m[i] == s[i][c := z[i]]
  {
    seq(|s|, i requires 0 <= i < |s| => s[i][c := z[i]])
  }

  function ColOf(s: Mat, c: nat): Vec
    requires Square(s) && c < |s|
  {
    Col(s, |s|, c)
  }

  lemma MinorSetCol(s: Mat, c: nat, z: Vec, j: nat)
    requires Square(s) && c < |s| == |z| && j < |s|
    ensures j == c ==> Minor(SetCol(s, c, z), j) == Minor(s, j)
    ensures j != c ==> Minor(SetCol(s, c, z), j) == SetCol(Minor(s, j), if j < c then c - 1 else c, z[1..])
  {
    var m := Minor(SetCol(s, c, z), j);
    if j == c {
      assert forall i :: 0 <= i < |m| ==> m[i] == Minor(s, j)[i];
    } else {
      var m' := SetCol(Minor(s, j), if j < c then c - 1 else c, z[1..]);
      assert forall i :: 0 <= i < |m| ==> m[i] == m'[i];
    }
  }

  lemma TailAxpy(x: Vec, t: real, y: Vec)
    requires |x| == |y| > 0
    ensures Axpy(x, t, y)[1..] == Axpy(x[1..], t, y[1..])
  {
    hide Axpy;
    forall i | 0 <= i < |x| - 1
      ensures Axpy(x, t, y)[1..][i] == Axpy(x[1..], t, y[1..])[i]
    {
      AxpyAt(x, t, y, i + 1, x[i + 1], y[i + 1]);
      AxpyAt(x[1..], t, y[1..], i, x[i + 1], y[i + 1]);
    }
  }

  /** The determinant is linear in each column. */
  lemma {:induction false} DetColLinear(s: Mat, c: nat, x: Vec, t: real, y: Vec)
    requires Square(s) && c < |s| == |x| == |y|
    ensures Det(SetCol(s, c, Axpy(x, t, y))) == Combine(Det(SetCol(s, c, x)), t, Det(SetCol(s, c, y)))
    decreases |s|
  {
    hide Term, SetCol, Axpy, Combine;
    var z := Axpy(x, t, y);
    var sz, sx, sy := SetCol(s, c, z), SetCol(s, c, x), SetCol(s, c, y);
    forall j | 0 <= j < |s|
      ensures Term(sz, j) == Combine(Term(sx, j), t, Term(sy, j))
    {
      DetColLinearTerm(s, c, x, t, y, j);
    }
    ExpandCombine(sz, sx, sy, t, |s|);
  }

  lemma {:induction false} DetColLinearTerm(s: Mat, c: nat, x: Vec, t: real, y: Vec, j: nat)
    requires Square(s) && c < |s| == |x| == |y| && j < |s|
    ensures Term(SetCol(s, c, Axpy(x, t, y)), j) == Combine(Term(SetCol(s, c, x), j), t, Term(SetCol(s, c, y), j))
    decreases |s|, 0
  {
    hide Term, Det, Axpy, SetCol, Minor;
    var z := Axpy(x, t, y);
    var sz, sx, sy := SetCol(s, c, z), SetCol(s, c, x), SetCol(s, c, y);
    MinorSetCol(s, c, z, j);
    MinorSetCol(s, c, x, j);
    MinorSetCol(s, c, y, j);
    if j == c {
      AxpyAt(x, t, y, 0, x[0], y[0]);
      TermEntryCombine(sz, sx, sy, t, j, x[0], y[0], Det(Minor(s, j)));
    } else {
      var c' := if j < c then c - 1 else c;
      TailAxpy(x, t, y);
      DetColLinear(Minor(s, j), c', x[1..], t, y[1..]);
      TermCombine(sz, sx, sy, t, j, s[0][j], Det(Minor(sx, j)), Det(Minor(sy, j)));
    }
  }

  predicate EqualCols(s: Mat, c: nat, d: nat)
    requires Square(s) && c < |s| && d < |s|
  {
    forall i :: 0 <= i < |s| ==> s[i][c] == s[i][d]
  }

  lemma {:induction false} DetAdjacentEqual(s: Mat, c: nat)
    requires Square(s) && c + 1 < |s| && EqualCols(s, c, c + 1)
    ensures Det(s) == 0.0
    decreases |s|
  {
    forall j | 0 <= j < |s| && j != c && j != c + 1
      ensures Term(s, j) == 0.0
    {
      DetAdjacentEqual(Minor(s, j), if j < c then c - 1 else c);
    }
    MinorsAgree(s, c);
    var x, d := s[0][c], Det(Minor(s, c));
    assert Term(s, c) == Signed(c, x, d) && Term(s, c + 1) == Signed(c + 1, x, d);
    ExpandPair(s, c, |s|);
  }

  lemma MinorsAgree(s: Mat, c: nat)
    requires Square(s) && c + 1 < |s| && EqualCols(s, c, c + 1)
    ensures Minor(s, c) == Minor(s, c + 1)
  {
    forall i | 0 <= i < |s| - 1
      ensures Minor(s, c)[i] == Minor(s, c + 1)[i]
    {
      assert s[i + 1][c] == s[i + 1][c + 1];
    }
  }

  function TwoCols(s: Mat, c: nat, x: Vec, y: Vec): (m: Mat)
    requires Square(s) && c + 1 < |s| == |x| == |y|
    ensures Square(m) && |m| == |s|
  {
    SetCol(SetCol(s, c, x), c + 1, y)
  }

  lemma DetTwoColsLinear(s: Mat, c: nat, x: Vec, y: Vec, z: Vec)
    requires Square(s) && c + 1 < |s| == |x| == |y| == |z|
    ensures Det(TwoCols(s, c, Axpy(x, 1.0, y), z)) == Det(TwoCols(s, c, x, z)) + Det(TwoCols(s, c, y, z))
    ensures Det(TwoCols(s, c, z, Axpy(x, 1.0, y))) == Det(TwoCols(s, c, z, x)) + Det(TwoCols(s, c, z, y))
  {
    hide Det, Axpy;
    DetColLinear(SetCol(s, c + 1, z), c, x, 1.0, y);
    SetColsCommute(s, c, Axpy(x, 1.0, y), z);
    SetColsCommute(s, c, x, z);
    SetColsCommute(s, c, y, z);
    DetColLinear(SetCol(s, c, z), c + 1, x, 1.0, y);
  }

  lemma SetColsCommute(s: Mat, c: nat, x: Vec, y: Vec)
    requires Square(s) && c + 1 < |s| == |x| == |y|
    ensures TwoCols(s, c, x, y) == SetCol(SetCol(s, c + 1, y), c, x)
  {
    var m, m' := TwoCols(s, c, x, y), SetCol(SetCol(s, c + 1, y), c, x);
    assert forall i :: 0 <= i < |s| ==> m[i] == m'[i];
  }

  lemma DetAdjacentSwap(s: Mat, c: nat, x: Vec, y: Vec)
    requires Square(s) && c + 1 < |s| == |x| == |y|
    ensures Det(TwoCols(s, c, x, y)) == -Det(TwoCols(s, c, y, x))
  {
    hide Det, Axpy;
    var z := Axpy(x, 1.0, y);
    DetAdjacentEqual(TwoCols(s, c, z, z), c);
    DetAdjacentEqual(TwoCols(s, c, x, x), c);
    DetAdjacentEqual(TwoCols(s, c, y, y), c);
    DetTwoColsLinear(s, c, x, y, z);
    DetTwoColsLinear(s, c, x, y, x);
    DetTwoColsLinear(s, c, x, y, y);
  }

  lemma {:induction false} DetEqualCols(s: Mat, c: nat, d: nat)
    requires Square(s) && c < d < |s| && EqualCols(s, c, d)
    ensures Det(s) == 0.0
    decreases d
  {
    hide Det;
    if d == c + 1 {
      DetAdjacentEqual(s, c);
    } else {
      var x, y := ColOf(s, d - 1), ColOf(s, d);
      var s' := TwoCols(s, d - 1, y, x);
      assert TwoCols(s, d - 1, x, y) == s by {
        assert forall i :: 0 <= i < |s| ==> TwoCols(s, d - 1, x, y)[i] == s[i];
      }
      DetAdjacentSwap(s, d - 1, x, y);
      DetEqualCols(s', c, d - 1);
    }
  }

  /** Adding a multiple of column d to column c. */
  function ColAdd(s: Mat, c: nat, t: real, d: nat): (m: Mat)
    requires Square(s) && c < |s| && d < |s|
    ensures Square(m) && |m| == |s|
  {
    SetCol(s, c, Axpy(ColOf(s, c), t, ColOf(s, d)))
  }

  lemma ColAddAt(s: Mat, c: nat, t: real, d: nat, i: nat)
    requires Square(s) && c < |s| && d < |s| && i < |s|
    ensures ColAdd(s, c, t, d)[i] == s[i][c := s[i][c] + t * s[i][d]]
  {
    hide Axpy;
    var z := Axpy(ColOf(s, c), t, ColOf(s, d));
    AxpyAt(ColOf(s, c), t, ColOf(s, d), i, s[i][c], s[i][d]);
    assert z[i] == s[i][c] + t * s[i][d];
    assert ColAdd(s, c, t, d)[i] == s[i][c := z[i]];
  }

  lemma DetColAdd(s: Mat, c: nat, t: real, d: nat)
    requires Square(s) && c < |s| && d < |s| && c != d
    ensures Det(ColAdd(s, c, t, d)) == Det(s)
  {
    hide Det, Axpy;
    var x, y := ColOf(s, c), ColOf(s, d);
    DetColLinear(s, c, x, t, y);
    assert SetCol(s, c, x) == s by {
      assert forall i :: 0 <= i < |s| ==> SetCol(s, c, x)[i] == s[i];
    }
    var s' := SetCol(s, c, y);
    assert EqualCols(s', c, d) && EqualCols(s', d, c);
    DetEqualCols(s', if c < d then c else d, if c < d then d else c);
  }

  lemma ThreeColAdditions(s: Mat, k: nat, j: nat, i: nat)
    requires Square(s) && k < |s| && j < |s| && i < |s| && k != j
    ensures ColAdd(ColAdd(ColAdd(s, k, 1.0, j), j, -1.0, k), k, 1.0, j)[i] == Interchange(s[i], k, j)
  {
    hide ColAdd;
    var s1 := ColAdd(s, k, 1.0, j);
    var s2 := ColAdd(s1, j, -1.0, k);
    var x, y := s[i][k], s[i][j];
    ColAddAt(s, k, 1.0, j, i);
    assert s1[i] == s[i][k := x + y];
    ColAddAt(s1, j, -1.0, k, i);
    assert s2[i] == s[i][k := x + y][j := -x];
    ColAddAt(s2, k, 1.0, j, i);
    assert s[i][k := x + y][j := -x][k := y] == s[i][k := y][j := -x];
  }

  /** An interchange with a sign is three additions. */
  lemma DetColInterchange(s: Mat, k: nat, j: nat)
    requires Square(s) && k < |s| && j < |s|
    ensures Det(ColInterchange(s, k, j)) == Det(s)
  {
    hide Det, ColAdd;
    if j == k {
      assert ColInterchange(s, k, j) == s;
    } else {
      var s1 := ColAdd(s, k, 1.0, j);
      var s2 := ColAdd(s1, j, -1.0, k);
      var s3 := ColAdd(s2, k, 1.0, j);
      DetColAdd(s, k, 1.0, j);
      DetColAdd(s1, j, -1.0, k);
      DetColAdd(s2, k, 1.0, j);
      forall i | 0 <= i < |s|
        ensures s3[i] == Interchange(s[i], k, j)
      {
        hide Interchange;
        ThreeColAdditions(s, k, j, i);
      }
      assert s3 == ColInterchange(s, k, j);
    }
  }

  // ----------------------------------------------- clearing the first row by columns

  /** Columns 1..m-1 with the multiple of column 0 taken out that clears row 0. */
  function Clear(s: Mat, m: nat): (b: Mat)
    requires Square(s) && 0 < m <= |s| && s[0][0] != 0.0
    ensures Square(b) && |b| == |s|
  {
    if m == 1 then s else ColAdd(Clear(s, m - 1), m - 1, -(s[0][m - 1] / s[0][0]), 0)
  }

  lemma {:induction false} ClearAt(s: Mat, m: nat, i: nat, j: nat)
    requires Square(s) && 0 < m <= |s| && s[0][0] != 0.0 && i < |s| && j < |s|
    ensures Clear(s, m)[i][j] == if 0 < j < m then s[i][j] + -(s[0][j] / s[0][0]) * s[i][0] else s[i][j]
  {
    hide ColAdd;
    if m > 1 {
      ClearAt(s, m - 1, i, j);
      ClearAt(s, m - 1, i, 0);
      ColAddAt(Clear(s, m - 1), m - 1, -(s[0][m - 1] / s[0][0]), 0, i);
    }
  }

  lemma {:induction false} DetClear(s: Mat, m: nat)
    requires Square(s) && 0 < m <= |s| && s[0][0] != 0.0
    ensures Det(Clear(s, m)) == Det(s)
  {
    hide Det, ColAdd;
    if m > 1 {
      DetClear(s, m - 1);
      DetColAdd(Clear(s, m - 1), m - 1, -(s[0][m - 1] / s[0][0]), 0);
    }
  }

  /** What one pivot step leaves of the rest of the matrix. */
  function Schur(s: Mat): (m: Mat)
    requires Square(s) && |s| > 0 && s[0][0] != 0.0
    ensures Square(m) && |m| == |s| - 1
  {
    Minor(Clear(s, |s|), 0)
  }

  lemma SchurAt(s: Mat, i: nat, j: nat)
    requires Square(s) && s != [] && s[0][0] != 0.0 && i < |s| - 1 && j < |s| - 1
    ensures Schur(s)[i][j] == s[i + 1][j + 1] + -(s[0][j + 1] / s[0][0]) * s[i + 1][0]
  {
    hide Clear;
    ClearAt(s, |s|, i + 1, j + 1);
  }

  lemma CancelsItself(x: real, p: real)
    requires p != 0.0
    ensures x + -(x / p) * p == 0.0
  {
  }

  lemma ClearedRowZero(s: Mat, j: nat)
    requires Square(s) && 0 < j < |s| && s[0][0] != 0.0
    ensures Clear(s, |s|)[0][j] == 0.0
  {
    hide Clear;
    ClearAt(s, |s|, 0, j);
    CancelsItself(s[0][j], s[0][0]);
  }

  /** One pivot takes one factor out of the determinant. */
  lemma DetPivot(s: Mat)
    requires Square(s) && s != [] && s[0][0] != 0.0
    ensures Det(s) == s[0][0] * Det(Schur(s))
  {
    hide Det, Clear, Term;
    var c := Clear(s, |s|);
    DetClear(s, |s|);
    ClearAt(s, |s|, 0, 0);
    DetFirstTermOnly(c, s[0][0], Det(Schur(s))) by {
      forall j | 1 <= j < |s|
        ensures c[0][j] == 0.0
      {
        ClearedRowZero(s, j);
      }
    }
  }

  lemma DetFirstTermOnly(c: Mat, p: real, d: real)
    requires Square(c) && c != [] && c[0][0] == p && Det(Minor(c, 0)) == d
    requires forall j :: 1 <= j < |c| ==> c[0][j] == 0.0
    ensures Det(c) == p * d
  {
    forall j | 1 <= j < |c|
      ensures Term(c, j) == 0.0
    {
      assert Term(c, j) == Signed(j, 0.0, Det(Minor(c, j)));
    }
    assert Term(c, 0) == Signed(0, p, d);
    hide Term;
    ExpandFirst(c, |c|);
  }

  // ------------------------------------------------------------------------- rows

  lemma MinorSetRow(s: Mat, r: nat, z: Vec, j: nat)
    requires Square(s) && r < |s| == |z| && j < |s|
    ensures Square(s[r := z])
    ensures r == 0 ==> Minor(s[r := z], j) == Minor(s, j)
    ensures r > 0 ==> Minor(s[r := z], j) == Minor(s, j)[r - 1 := DropAt(z, j)]
  {
  }

  lemma DropAxpy(x: Vec, t: real, y: Vec, j: nat)
    requires |x| == |y| && j < |x|
    ensures DropAt(Axpy(x, t, y), j) == Axpy(DropAt(x, j), t, DropAt(y, j))
  {
    hide Axpy;
    var x', y' := DropAt(x, j), DropAt(y, j);
    forall i | 0 <= i < |x| - 1
      ensures DropAt(Axpy(x, t, y), j)[i] == Axpy(x', t, y')[i]
    {
      AxpyAt(x, t, y, if i < j then i else i + 1, x'[i], y'[i]);
      AxpyAt(x', t, y', i, x'[i], y'[i]);
    }
  }

  /** The determinant is linear in each row. */
  lemma {:induction false} DetRowLinear(s: Mat, r: nat, x: Vec, t: real, y: Vec)
    requires Square(s) && r < |s| == |x| == |y|
    ensures Det(s[r := Axpy(x, t, y)]) == Combine(Det(s[r := x]), t, Det(s[r := y]))
    decreases |s|
  {
    hide Term, Axpy, Combine;
    var z := Axpy(x, t, y);
    var sz, sx, sy := s[r := z], s[r := x], s[r := y];
    forall j | 0 <= j < |s|
      ensures Term(sz, j) == Combine(Term(sx, j), t, Term(sy, j))
    {
      DetRowLinearTerm(s, r, x, t, y, j);
    }
    ExpandCombine(sz, sx, sy, t, |s|);
  }

  lemma {:induction false} DetRowLinearTerm(s: Mat, r: nat, x: Vec, t: real, y: Vec, j: nat)
    requires Square(s) && r < |s| == |x| == |y| && j < |s|
    ensures Term(s[r := Axpy(x, t, y)], j) == Combine(Term(s[r := x], j), t, Term(s[r := y], j))
    decreases |s|, 0
  {
    hide Term, Det, Axpy, Minor;
    var z := Axpy(x, t, y);
    var sz, sx, sy := s[r := z], s[r := x], s[r := y];
    MinorSetRow(s, r, z, j);
    MinorSetRow(s, r, x, j);
    MinorSetRow(s, r, y, j);
    if r == 0 {
      AxpyAt(x, t, y, j, x[j], y[j]);
      TermEntryCombine(sz, sx, sy, t, j, x[j], y[j], Det(Minor(s, j)));
    } else {
      DropAxpy(x, t, y, j);
      DetRowLinear(Minor(s, j), r - 1, DropAt(x, j), t, DropAt(y, j));
      TermCombine(sz, sx, sy, t, j, s[0][j], Det(Minor(sx, j)), Det(Minor(sy, j)));
    }
  }

  lemma DetZeroRow(s: Mat, r: nat)
    requires Square(s) && r < |s| && s[r] == Zero(|s|)
    ensures Det(s) == 0.0
  {
    hide Det;
    var z := Zero(|s|);
    assert Axpy(z, 1.0, z) == z && s[r := z] == s;
    DetRowLinear(s, r, z, 1.0, z);
  }

  /** Two equal rows, one of them the first: clear the first, and the other is left zero. */
  lemma DetEqualRowsPivot(s: Mat, r: nat)
    requires Square(s) && 0 < r < |s| && s[0] == s[r] && s[0][0] != 0.0
    ensures Det(s) == 0.0
  {
    hide Det, Schur;
    var m := Schur(s);
    DetPivot(s);
    var row := m[r - 1];
    forall j | 0 <= j < |m|
      ensures row[j] == 0.0
    {
      SchurAt(s, r - 1, j);
      CancelsItself(s[0][j + 1], s[0][0]);
    }
    assert row == Zero(|m|);
    DetZeroRow(m, r - 1);
  }

  lemma DetEqualRows(s: Mat, r: nat)
    requires Square(s) && 0 < r < |s| && s[0] == s[r]
    ensures Det(s) == 0.0
  {
    hide Det;
    if j :| 0 <= j < |s| && s[0][j] != 0.0 {
      DetColInterchange(s, 0, j);
      DetEqualRowsPivot(ColInterchange(s, 0, j), r);
    } else {
      assert s[0] == Zero(|s|);
      DetZeroRow(s, 0);
    }
  }

  lemma DetRowAdd(s: Mat, r: nat, t: real, q: nat)
    requires Square(s) && r < |s| && q < |s| && r != q && (r == 0 || q == 0)
    ensures Det(s[r := Axpy(s[r], t, s[q])]) == Det(s)
  {
    hide Det, Axpy;
    DetRowLinear(s, r, s[r], t, s[q]);
    assert s[r := s[r]] == s;
    DetEqualRows(s[r := s[q]], if r == 0 then q else r);
  }

  lemma DetRowInterchange(s: Mat, i: nat)
    requires Square(s) && i < |s|
    ensures Det(RowInterchange(s, 0, i)) == Det(s)
  {
    hide Det, Axpy, Neg;
    if i > 0 {
      var x, y := s[0], s[i];
      var z := Axpy(x, 1.0, y);
      var s1 := s[0 := z];
      var s2 := s1[i := Neg(x)];
      ThreeAdditions(x, y);
      DetRowAdd(s, 0, 1.0, i);
      assert s1[0] == z && s1[i] == y;
      DetRowAdd(s1, i, -1.0, 0);
      assert s2[0] == z && s2[i] == Neg(x);
      DetRowAdd(s2, 0, 1.0, i);
      assert s2[0 := y] == RowInterchange(s, 0, i);
    }
  }

  // ------------------------------------------------- the part not yet reduced

  /** Rows and columns from k on. */
  function Block(a: Mat, k: nat): (b: Mat)
    requires Square(a) && k <= |a|
    ensures Square(b) && |b| == |a| - k
    ensures forall i, j :: 0 <= i < |b| && 0 <= j < |b| ==> b[i][j] == a[i + k][j + k]
  {
    seq(|a| - k, i requires 0 <= i < |a| - k => a[i + k][k..])
  }

  lemma BlockRowInterchange(a: Mat, k: nat, i: nat)
    requires Square(a) && k <= i < |a|
    ensures Block(RowInterchange(a, k, i), k) == RowInterchange(Block(a, k), 0, i - k)
  {
    var l, r := Block(RowInterchange(a, k, i), k), RowInterchange(Block(a, k), 0, i - k);
    forall x | 0 <= x < |a| - k
      ensures l[x] == r[x]
    {
    }
  }

  lemma BlockColInterchange(a: Mat, k: nat, j: nat)
    requires Square(a) && k <= j < |a|
    ensures Block(ColInterchange(a, k, j), k) == ColInterchange(Block(a, k), 0, j - k)
  {
    hide ColInterchange;
    var l, r := Block(ColInterchange(a, k, j), k), ColInterchange(Block(a, k), 0, j - k);
    forall x | 0 <= x < |a| - k
      ensures l[x] == r[x]
    {
      assert Block(a, k)[x] == a[x + k][k..];
    }
  }

  lemma BlockInterchange(a: Mat, k: nat, i: nat, j: nat)
    requires Square(a) && k <= i < |a| && k <= j < |a|
    ensures Det(Block(ColInterchange(RowInterchange(a, k, i), k, j), k)) == Det(Block(a, k))
  {
    hide Det, Block, RowInterchange, ColInterchange;
    BlockRowInterchange(a, k, i);
    DetRowInterchange(Block(a, k), i - k);
    BlockColInterchange(RowInterchange(a, k, i), k, j);
    DetColInterchange(RowInterchange(Block(a, k), 0, i - k), 0, j - k);
  }

  lemma BlockPivot(a: Mat, k: nat)
    requires Square(a) && k < |a| && a[k][k] != 0.0
    ensures Det(Block(a, k)) == a[k][k] * Det(Block(Pivot(a, k), k + 1))
  {
    hide Det, Schur, Pivot;
    var b, c := Block(a, k), Block(Pivot(a, k), k + 1);
    assert b[0][0] == a[k][k];
    forall i, j | 0 <= i < |c| && 0 <= j < |c|
      ensures c[i][j] == Schur(b)[i][j]
    {
      BlockPivotAt(a, k, i, j);
    }
    assert forall i :: 0 <= i < |c| ==> c[i] == Schur(b)[i];
    assert c == Schur(b);
    DetPivot(b);
  }

  lemma BlockPivotAt(a: Mat, k: nat, i: nat, j: nat)
    requires Square(a) && k < |a| && a[k][k] != 0.0 && i < |a| - k - 1 && j < |a| - k - 1
    ensures Block(a, k)[0][0] == a[k][k]
    ensures Pivot(a, k)[i + k + 1][j + k + 1] == Schur(Block(a, k))[i][j]
  {
    hide Schur, Pivot, Block;
    var b := Block(a, k);
    var x, r, c, p := a[i + k + 1][j + k + 1], a[i + k + 1][k], a[k][j + k + 1], a[k][k];
    assert b[i + 1][j + 1] == x && b[i + 1][0] == r && b[0][j + 1] == c && b[0][0] == p;
    SchurAt(b, i, j);
    SameReduction(x, r, c, p);
  }

  lemma SameReduction(x: real, r: real, c: real, p: real)
    requires p != 0.0
    ensures x + r / -p * c == x + -(c / p) * r
  {
  }

  // ------------------------------------------------------ singular means zero

  predicate ZeroBlock(a: Mat, k: nat)
    requires Square(a) && k <= |a|
  {
    forall i, j :: k <= i < |a| && k <= j < |a| ==> a[i][j] == 0.0
  }

  lemma ZeroBlockDet(a: Mat, k: nat)
    requires Square(a) && k < |a| && ZeroBlock(a, k)
    ensures Det(Block(a, k)) == 0.0
  {
    hide Det;
    assert Block(a, k)[0] == Zero(|a| - k);
    DetZeroRow(Block(a, k), 0);
  }

  /** One step of the reduction with the pivot found at (i, j). */
  function Step(a: Mat, k: nat, i: nat, j: nat): (b: Mat)
    requires Square(a) && k <= i < |a| && k <= j < |a| && a[i][j] != 0.0
    ensures Square(b) && |b| == |a|
  {
    Pivot(ColInterchange(RowInterchange(a, k, i), k, j), k)
  }

  lemma StepKeeps(a: Mat, k: nat, b: Mat, i: nat, j: nat)
    requires Relates(a, k, b) && k <= i < |a| && k <= j < |a| && a[i][j] != 0.0
    ensures Relates(Step(a, k, i, j), k + 1, ColInterchange(RowInterchange(b, k, i), k, j))
    ensures Det(Block(a, k)) == a[i][j] * Det(Block(Step(a, k, i, j), k + 1))
  {
    hide Det, Block, Relates, Pivot;
    RelatesSquare(a, k, b);
    var r := RowInterchange(a, k, i);
    RowInterchangeKeeps(a, k, b, i);
    ColInterchangeKeeps(r, k, RowInterchange(b, k, i), j);
    PivotKeeps(ColInterchange(r, k, j), k, ColInterchange(RowInterchange(b, k, i), k, j));
    BlockInterchange(a, k, i, j);
    BlockPivot(ColInterchange(r, k, j), k);
  }

  lemma RelatesSquare(a: Mat, k: nat, b: Mat)
    requires Relates(a, k, b)
    ensures Square(a) && Square(b) && |a| == |b| && k <= |a|
  {
  }

  lemma CompletedNotSingular(a: Mat, b: Mat)
    requires Relates(a, |a|, b)
    ensures Det(Block(a, |a|)) == 1.0 && !Singular(b)
  {
    hide Dot;
    FullyPivoted(a, b);
    InverseMapsAreInverse(a, b);
    assert Block(a, |a|) == [];
  }

  lemma {:induction false} BlockDetSingular(a: Mat, k: nat, b: Mat)
    requires Relates(a, k, b)
    ensures Det(Block(a, k)) == 0.0 <==> Singular(b)
    decreases |a| - k
  {
    hide Det, Block, Relates, Step, Singular;
    RelatesSquare(a, k, b);
    if k == |a| {
      CompletedNotSingular(a, b);
    } else if ZeroBlock(a, k) {
      ZeroPivotSingular(a, k, b);
      ZeroBlockDet(a, k);
    } else {
      var i, j :| k <= i < |a| && k <= j < |a| && a[i][j] != 0.0;
      StepKeeps(a, k, b, i, j);
      BlockDetSingular(Step(a, k, i, j), k + 1, ColInterchange(RowInterchange(b, k, i), k, j));
      SingularInterchange(b, k, i, j);
      FactorZero(a[i][j], Det(Block(Step(a, k, i, j), k + 1)));
    }
  }

  lemma FactorZero(p: real, d: real)
    requires p != 0.0
    ensures p * d == 0.0 <==> d == 0.0
  {
    if d != 0.0 {
      assert p * d / p == d;
    }
  }

  /** A matrix maps some non-zero vector to zero exactly when its determinant is zero. */
  lemma DetZeroIffSingular(a: Mat)
    requires Square(a)
    ensures Det(a) == 0.0 <==> Singular(a)
  {
    Unpivoted(a);
    assert Block(a, 0) == a by {
      assert forall i :: 0 <= i < |a| ==> Block(a, 0)[i] == a[i];
    }
    BlockDetSingular(a, 0, a);
  }
}
