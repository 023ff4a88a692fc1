/** Gauss-Jordan inversion with pivoting, in place, as in _mat_inverse_add of
    engines/profiles.py, over exact reals. */
module GaussJordan {
  import opened Linear

  const EPSILON: real := 0.000000000001

  // ----- one column of the elimination, as a change of the working matrix -----

  /** The working matrix: d rows of the matrix followed by a row of the identity. */
  ghost predicate Working(m: Matrix, d: nat) {
    |m| == d && forall r :: 0 <= r < d ==> |m[r]| == 2 * d
  }

  /** First row in col..hi whose entry in the pivot column is largest. */
  function PivotIn(m: Matrix, col: nat, hi: nat): (p: nat)
    requires col < hi <= |m| && forall r :: 0 <= r < |m| ==> col < |m[r]|
    ensures col <= p < hi
    ensures forall r :: col <= r < hi ==> Abs(m[r][col]) <= Abs(m[p][col])
    ensures forall r :: col <= r < p ==> Abs(m[r][col]) < Abs(m[p][col])
  {
    if hi == col + 1 then col
    else
      var b := PivotIn(m, col, hi - 1);
      if Abs(m[hi - 1][col]) > Abs(m[b][col]) then hi - 1 else b
  }

  /** No usable pivot: every entry left in the column is tiny. */
  predicate Degenerate(m: Matrix, col: nat)
    requires col < |m| && forall r :: 0 <= r < |m| ==> col < |m[r]|
  {
    Abs(m[PivotIn(m, col, |m|)][col]) < EPSILON
  }

  /** The pivot row brought up, or lam added to the diagonal. */
  function Prepared(m: Matrix, col: nat, lam: real): Matrix
    requires col < |m| && forall r :: 0 <= r < |m| ==> col < |m[r]|
  {
    var p := PivotIn(m, col, |m|);
    if Degenerate(m, col) then m[col := m[col][col := m[col][col] + lam]] else m[col := m[p]][p := m[col]]
  }

  function Divisor(x: real): (div: real)
    ensures div != 0.0
  {
    if x == 0.0 then 1.0 else x
  }

  function Normalised(m: Matrix, col: nat): Matrix
    requires col < |m| && forall r :: 0 <= r < |m| ==> col < |m[r]|
  {
    m[col := Scaled(m[col], Divisor(m[col][col]))]
  }

  /** Row r once the pivot row has been subtracted from it. */
  function ClearedRow(m: Matrix, col: nat, r: nat): Row
    requires col < |m| && r < |m| && col < |m[r]| == |m[col]|
  {
    if r != col && m[r][col] != 0.0 then Reduced(m[r], m[r][col], m[col]) else m[r]
  }

  function Cleared(m: Matrix, d: nat, col: nat): (c: Matrix)
    requires col < d && Working(m, d)
    ensures Working(c, d) && forall r :: 0 <= r < d ==> c[r] == ClearedRow(m, col, r)
  {
    seq(d, r requires 0 <= r < d => ClearedRow(m, col, r))
  }

  function Eliminated(m: Matrix, d: nat, col: nat, lam: real): (e: Matrix)
    requires col < d && Working(m, d)
    ensures Working(e, d)
  {
    Cleared(Normalised(Prepared(m, col, lam), col), d, col)
  }

  function Augmented(a: Matrix): (m: Matrix)
    requires Square(a)
    ensures Working(m, |a|) && forall r :: 0 <= r < |a| ==> m[r] == a[r] + Unit(|a|, r)
  {
    seq(|a|, r requires 0 <= r < |a| => a[r] + Unit(|a|, r))
  }

  /** The working matrix after the first col columns. */
  function After(a: Matrix, lam: real, col: nat): (m: Matrix)
    requires Square(a) && col <= |a|
    ensures Working(m, |a|)
  {
    if col == 0 then Augmented(a) else Eliminated(After(a, lam, col - 1), |a|, col - 1, lam)
  }

  /** The right half of a row. */
  function Right(row: Row, d: nat): (r: Row)
    requires |row| == 2 * d
    ensures |r| == d && forall j :: 0 <= j < d ==> r[j] == row[d + j]
  {
    row[d..]
  }

  function RightHalf(m: Matrix, d: nat): (x: Matrix)
    requires Working(m, d)
    ensures |x| == d && forall i :: 0 <= i < d ==> x[i] == Right(m[i], d)
  {
    seq(d, i requires 0 <= i < d => Right(m[i], d))
  }

  function Inverted(a: Matrix, lam: real): (inv: Matrix)
    requires Square(a)
    ensures Square(inv) && |inv| == |a|
  {
    RightHalf(After(a, lam, |a|), |a|)
  }

  // ----- the algorithm -----

  method MatInverse(a: Matrix, lam: real) returns (inv: Matrix)
    requires Square(a)
    ensures inv == Inverted(a, lam)
  {
    var d := |a|;
    var start := Augmented(a);
    hide After, Eliminated, Augmented, Working;
    var m := NewRows(start);
    NextColumn(a, lam, 0, 0);
    for col := 0 to d
      invariant m[..] == After(a, lam, col)
    {
      NextColumn(a, lam, col, col + 1);
      EliminateColumn(m, col, lam);
    }
    inv := RightHalf(m[..], d);
  }

  method NewRows(rows: Matrix) returns (m: array<Row>)
    ensures fresh(m) && m[..] == rows
  {
    m := new Row[|rows|](i requires 0 <= i < |rows| => rows[i]);
  }

  lemma NextColumn(a: Matrix, lam: real, col: nat, next: nat)
    requires Square(a) && col <= next <= |a| && next <= col + 1
    ensures After(a, lam, 0) == Augmented(a)
    ensures col < next ==> After(a, lam, next) == Eliminated(After(a, lam, col), |a|, col, lam)
  {
    hide Eliminated;
  }

  /** One turn of the outer loop. */
  method EliminateColumn(m: array<Row>, col: nat, lam: real)
    requires col < m.Length && Working(m[..], m.Length)
    modifies m
    ensures m[..] == Eliminated(old(m[..]), m.Length, col, lam)
  {
    var d := m.Length;
    ghost var before := m[..];
    var pivot := PivotIn(m[..], col, d);
    if Abs(m[pivot][col]) < EPSILON {
      m[col] := m[col][col := m[col][col] + lam];
      pivot := col;
    }
    m[col], m[pivot] := m[pivot], m[col];
    assert m[..] == Prepared(before, col, lam);
    ghost var prepared := m[..];
    var div := Divisor(m[col][col]);
    m[col] := Scaled(m[col], div);
    assert m[..] == Normalised(prepared, col);
    ClearColumn(m, col);
  }

  /** The inner loop. */
  method ClearColumn(m: array<Row>, col: nat)
    requires col < m.Length && Working(m[..], m.Length)
    modifies m
    ensures m[..] == Cleared(old(m[..]), m.Length, col)
  {
    ghost var before := m[..];
    for r := 0 to m.Length
      invariant forall i :: 0 <= i < r ==> m[i] == ClearedRow(before, col, i)
      invariant forall i :: r <= i < m.Length ==> m[i] == before[i]
      invariant m[col] == before[col]
    {
      if r != col && m[r][col] != 0.0 {
        var factor := m[r][col];
        m[r] := Reduced(m[r], factor, m[col]);
      }
    }
  }

  // ----- what every row keeps -----

  /** The left half of a row is its right half times the original matrix. */
  ghost predicate Consistent(row: Row, a: Matrix)
    requires Square(a)
  {
    |row| == 2 * |a| && forall k :: 0 <= k < |a| ==> row[k] == Dot(Right(row, |a|), Column(a, k), |a|)
  }

  lemma AugmentedConsistent(a: Matrix, r: nat)
    requires Square(a) && r < |a|
    ensures Consistent(Augmented(a)[r], a)
  {
    var d, row := |a|, Augmented(a)[r];
    forall k | 0 <= k < d
      ensures row[k] == Dot(Right(row, d), Column(a, k), d)
    {
      DotUnit(Column(a, k), d, r, d);
      DotSame(Right(row, d), Column(a, k), Unit(d, r), Column(a, k), d);
    }
  }

  lemma ScaledConsistent(row: Row, div: real, a: Matrix)
    requires Square(a) && Consistent(row, a) && div != 0.0
    ensures Consistent(Scaled(row, div), a)
  {
    hide Times, Over, Dot;
    var d, t := |a|, Scaled(row, div);
    forall k | 0 <= k < d
      ensures t[k] == Dot(Right(t, d), Column(a, k), d)
    {
      DotScaled(Right(row, d), div, Column(a, k), d);
      DotSame(Right(t, d), Column(a, k), Scaled(Right(row, d), div), Column(a, k), d);
    }
  }

  lemma ReducedConsistent(row: Row, factor: real, w: Row, a: Matrix)
    requires Square(a) && Consistent(row, a) && Consistent(w, a)
    ensures Consistent(Reduced(row, factor, w), a)
  {
    hide Times, Over, Dot;
    var d, t := |a|, Reduced(row, factor, w);
    forall k | 0 <= k < d
      ensures t[k] == Dot(Right(t, d), Column(a, k), d)
    {
      DotReduced(Right(row, d), factor, Right(w, d), Column(a, k), d);
      DotSame(Right(t, d), Column(a, k), Reduced(Right(row, d), factor, Right(w, d)), Column(a, k), d);
    }
  }

  ghost predicate AllConsistent(m: Matrix, a: Matrix)
    requires Square(a)
  {
    Working(m, |a|) && forall r :: 0 <= r < |a| ==> Consistent(m[r], a)
  }

  lemma EliminatedConsistent(m: Matrix, a: Matrix, col: nat, lam: real)
    requires Square(a) && col < |a| && AllConsistent(m, a) && !Degenerate(m, col)
    ensures AllConsistent(Eliminated(m, |a|, col, lam), a)
  {
    hide Consistent;
    var p := Prepared(m, col, lam);
    var n := Normalised(p, col);
    ScaledConsistent(p[col], Divisor(p[col][col]), a);
    forall r | 0 <= r < |a|
      ensures Consistent(ClearedRow(n, col, r), a)
    {
      ReducedConsistent(n[r], n[r][col], n[col], a);
    }
  }

  // ----- finished columns -----

  /** Columns before col are unit vectors. */
  ghost predicate Done(m: Matrix, d: nat, col: nat) {
    col <= d && Working(m, d) && forall r, c :: 0 <= r < d && 0 <= c < col ==> m[r][c] == if r == c then 1.0 else 0.0
  }

  lemma PreparedDone(m: Matrix, d: nat, col: nat, lam: real)
    requires col < d && Done(m, d, col) && (!Degenerate(m, col) || Abs(lam) >= EPSILON)
    ensures var p := Prepared(m, col, lam); Done(p, d, col) && p[col][col] != 0.0
  {
  }

  lemma NormalisedDone(m: Matrix, d: nat, col: nat)
    requires col < d && Done(m, d, col) && m[col][col] != 0.0
    ensures var n := Normalised(m, col); Done(n, d, col) && n[col][col] == 1.0
  {
    hide Over;
    OverLaws(0.0, 0.0, m[col][col]);
    OverLaws(m[col][col], 0.0, m[col][col]);
  }

  lemma ClearedDone(m: Matrix, d: nat, col: nat)
    requires col < d && Done(m, d, col) && m[col][col] == 1.0
    ensures Done(Cleared(m, d, col), d, col + 1)
  {
    hide Times;
    forall r, c | 0 <= r < d && 0 <= c < col + 1
      ensures ClearedRow(m, col, r)[c] == if r == c then 1.0 else 0.0
    {
      TimesLaws(m[r][col], 0.0, 0.0);
      TimesLaws(m[r][col], 1.0, 0.0);
    }
  }

  lemma EliminatedDone(m: Matrix, d: nat, col: nat, lam: real)
    requires col < d && Done(m, d, col) && (!Degenerate(m, col) || Abs(lam) >= EPSILON)
    ensures Done(Eliminated(m, d, col, lam), d, col + 1)
  {
    hide Degenerate;
    var p := Prepared(m, col, lam);
    PreparedDone(m, d, col, lam);
    NormalisedDone(p, d, col);
    ClearedDone(Normalised(p, col), d, col);
  }

  // ----- correctness -----

  /** In the first col columns the pivot never drops under the threshold. */
  ghost predicate RegularTo(a: Matrix, lam: real, col: nat)
    requires Square(a) && col <= |a|
  {
    forall c :: 0 <= c < col ==> !Degenerate(After(a, lam, c), c)
  }

  /** Every column keeps the rows consistent and finishes itself. */
  lemma {:induction false} AfterInvariant(a: Matrix, lam: real, col: nat)
    requires Square(a) && col <= |a| && RegularTo(a, lam, col)
    ensures AllConsistent(After(a, lam, col), a) && Done(After(a, lam, col), |a|, col)
    decreases col
  {
    hide Degenerate, Eliminated, Consistent;
    if col == 0 {
      forall r | 0 <= r < |a|
        ensures Consistent(Augmented(a)[r], a)
      {
        AugmentedConsistent(a, r);
      }
    } else {
      var c := col - 1;
      AfterInvariant(a, lam, c);
      EliminatedConsistent(After(a, lam, c), a, c, lam);
      EliminatedDone(After(a, lam, c), |a|, c, lam);
    }
  }

  /** Gauss-Jordan is correct: if the pivot never drops under the threshold, the
      returned matrix times the original one is the identity. */
  lemma InverseIsLeftInverse(a: Matrix, lam: real)
    requires Square(a) && RegularTo(a, lam, |a|)
    ensures LeftInverse(Inverted(a, lam), a)
  {
    hide Eliminated, Degenerate, Dot;
    AfterInvariant(a, lam, |a|);
    var m := After(a, lam, |a|);
    forall i, k | 0 <= i < |a| && 0 <= k < |a|
      ensures Dot(Inverted(a, lam)[i], Column(a, k), |a|) == if i == k then 1.0 else 0.0
    {
      assert Consistent(m[i], a);
    }
  }

  // ----- and only then -----

  /** Where row r of the matrix goes when the pivot row is brought up. */
  function Swapped(m: Matrix, col: nat, r: nat): (s: nat)
    requires col < |m| && forall r :: 0 <= r < |m| ==> col < |m[r]|
    ensures r < |m| ==> s < |m|
    ensures r >= col ==> s >= col
    ensures r < col ==> s == r
  {
    var p := PivotIn(m, col, |m|);
    if r == col then p else if r == p then col else r
  }

  lemma SwappedRow(m: Matrix, col: nat, lam: real, r: nat)
    requires col < |m| && r < |m| && (forall r :: 0 <= r < |m| ==> col < |m[r]|) && !Degenerate(m, col)
    ensures Prepared(m, col, lam)[Swapped(m, col, r)] == m[r]
  {
  }

  /** How far entry k of a row is from consistency. */
  ghost function Defect(row: Row, a: Matrix, k: nat): real
    requires Square(a) && |row| == 2 * |a| && k < |a|
  {
    row[k] - Dot(Right(row, |a|), Column(a, k), |a|)
  }

  /** Some row is inconsistent in column k. */
  ghost predicate Spoiled(m: Matrix, a: Matrix, k: nat)
    requires Square(a) && Working(m, |a|) && k < |a|
  {
    exists r :: 0 <= r < |a| && Defect(m[r], a, k) != 0.0
  }

  lemma ScaledDefect(row: Row, div: real, a: Matrix, k: nat)
    requires Square(a) && |row| == 2 * |a| && k < |a| && div != 0.0
    ensures Defect(row, a, k) != 0.0 ==> Defect(Scaled(row, div), a, k) != 0.0
  {
    hide Times, Over, Dot;
    var d, t, c := |a|, Scaled(row, div), Column(a, k);
    DotScaled(Right(row, d), div, c, d);
    DotSame(Right(t, d), c, Scaled(Right(row, d), div), c, d);
    var x, y := row[k], Dot(Right(row, d), c, d);
    OverLaws(x - y, y, div);
    assert x - y + y == x;
  }

  lemma ReducedDefect(row: Row, factor: real, w: Row, a: Matrix, k: nat)
    requires Square(a) && |row| == |w| == 2 * |a| && k < |a| && Defect(w, a, k) == 0.0
    ensures Defect(Reduced(row, factor, w), a, k) == Defect(row, a, k)
  {
    hide Times, Over, Dot;
    var d, t, c := |a|, Reduced(row, factor, w), Column(a, k);
    DotReduced(Right(row, d), factor, Right(w, d), c, d);
    DotSame(Right(t, d), c, Reduced(Right(row, d), factor, Right(w, d)), c, d);
  }

  /** Adding lam to entry col of a row spoils column col and no other. */
  lemma RaisedDefect(row: Row, a: Matrix, col: nat, lam: real, k: nat)
    requires Square(a) && |row| == 2 * |a| && k < |a| && col < |a|
    ensures Defect(row[col := row[col] + lam], a, k) == Defect(row, a, k) + if k == col then lam else 0.0
  {
    hide Dot;
    var t := row[col := row[col] + lam];
    DotSame(Right(t, |a|), Column(a, k), Right(row, |a|), Column(a, k), |a|);
  }

  /** Normalising and clearing keep a spoiled column spoiled. */
  lemma StaysSpoiled(m: Matrix, a: Matrix, col: nat, k: nat)
    requires Square(a) && Working(m, |a|) && col < |a| && k < |a| && Spoiled(m, a, k)
    ensures Spoiled(Cleared(Normalised(m, col), |a|, col), a, k)
  {
    hide Defect;
    var n, d := Normalised(m, col), |a|;
    ScaledDefect(m[col], Divisor(m[col][col]), a, k);
    var r :| 0 <= r < d && Defect(m[r], a, k) != 0.0;
    assert Defect(n[r], a, k) != 0.0;
    var e := Cleared(n, d, col);
    if Defect(n[col], a, k) != 0.0 {
      assert Defect(e[col], a, k) != 0.0;
    } else {
      ReducedDefect(n[r], n[r][col], n[col], a, k);
      assert Defect(e[r], a, k) != 0.0;
    }
  }

  lemma PreparedSpoiled(m: Matrix, a: Matrix, col: nat, lam: real, k: nat)
    requires Square(a) && Working(m, |a|) && k < col < |a| && Spoiled(m, a, k)
    ensures Spoiled(Prepared(m, col, lam), a, k)
  {
    hide Defect;
    var r :| 0 <= r < |a| && Defect(m[r], a, k) != 0.0;
    RaisedDefect(m[col], a, col, lam, k);
    var p := Prepared(m, col, lam);
    if Degenerate(m, col) {
      assert Defect(p[r], a, k) != 0.0;
    } else {
      SwappedRow(m, col, lam, r);
      assert Defect(p[Swapped(m, col, r)], a, k) != 0.0;
    }
  }

  /** A column without a usable pivot is spoiled by its own elimination. */
  lemma DegenerateSpoils(m: Matrix, a: Matrix, col: nat, lam: real)
    requires Square(a) && col < |a| && AllConsistent(m, a) && Degenerate(m, col) && lam != 0.0
    ensures Spoiled(Eliminated(m, |a|, col, lam), a, col)
  {
    hide Degenerate;
    RaisedDefect(m[col], a, col, lam, col);
    assert Consistent(m[col], a) && Defect(m[col], a, col) == 0.0;
    var p := Prepared(m, col, lam);
    assert Defect(p[col], a, col) != 0.0;
    StaysSpoiled(p, a, col, col);
  }

  lemma {:induction false} LaterStaysSpoiled(a: Matrix, lam: real, k: nat, start: nat, col: nat)
    requires Square(a) && k < start <= col <= |a| && Spoiled(After(a, lam, start), a, k)
    ensures Spoiled(After(a, lam, col), a, k)
    decreases col
  {
    hide Spoiled, Degenerate, After, Prepared, Normalised, Cleared;
    if start < col {
      var c := col - 1;
      LaterStaysSpoiled(a, lam, k, start, c);
      NextColumn(a, lam, c, col);
      EliminatedSpoiled(After(a, lam, c), a, c, lam, k);
    }
  }

  lemma EliminatedSpoiled(m: Matrix, a: Matrix, col: nat, lam: real, k: nat)
    requires Square(a) && Working(m, |a|) && k < col < |a| && Spoiled(m, a, k)
    ensures Spoiled(Eliminated(m, |a|, col, lam), a, k)
  {
    hide Spoiled, Degenerate;
    PreparedSpoiled(m, a, col, lam, k);
    StaysSpoiled(Prepared(m, col, lam), a, col, k);
  }

  /** With a lam above the threshold every column is finished, pivot or not. */
  lemma {:induction false} AlwaysDone(a: Matrix, lam: real, col: nat)
    requires Square(a) && col <= |a| && Abs(lam) >= EPSILON
    ensures Done(After(a, lam, col), |a|, col)
    decreases col
  {
    hide Eliminated, Degenerate;
    if col > 0 {
      AlwaysDone(a, lam, col - 1);
      EliminatedDone(After(a, lam, col - 1), |a|, col - 1, lam);
    }
  }

  lemma {:induction false} FirstDegenerate(a: Matrix, lam: real, col: nat) returns (c: nat)
    requires Square(a) && col <= |a| && !RegularTo(a, lam, col)
    ensures c < col && RegularTo(a, lam, c) && Degenerate(After(a, lam, c), c)
    decreases col
  {
    hide After;
    c := col - 1;
    if !RegularTo(a, lam, c) {
      c := FirstDegenerate(a, lam, c);
    }
  }

  /** For the source's lam, and any other above the threshold, the returned matrix
      inverts the original one exactly when no column lacked a usable pivot. */
  lemma InverseIff(a: Matrix, lam: real)
    requires Square(a) && Abs(lam) >= EPSILON
    ensures LeftInverse(Inverted(a, lam), a) <==> RegularTo(a, lam, |a|)
  {
    hide Eliminated, Degenerate, Dot;
    if RegularTo(a, lam, |a|) {
      InverseIsLeftInverse(a, lam);
    } else {
      var c := FirstDegenerate(a, lam, |a|);
      AfterInvariant(a, lam, c);
      DegenerateSpoils(After(a, lam, c), a, c, lam);
      NextColumn(a, lam, c, c + 1);
      LaterStaysSpoiled(a, lam, c, c + 1, |a|);
      AlwaysDone(a, lam, |a|);
      var m := After(a, lam, |a|);
      var r :| 0 <= r < |a| && Defect(m[r], a, c) != 0.0;
      assert Dot(Inverted(a, lam)[r], Column(a, c), |a|) != if r == c then 1.0 else 0.0;
    }
  }

  // ----- matrices on which the threshold is never met -----

  /** a times v. */
  function Image(a: Matrix, v: Row): (w: Row)
    requires Square(a) && |v| == |a|
    ensures |w| == |a| && forall i :: 0 <= i < |a| ==> w[i] == Dot(a[i], v, |a|)
  {
    seq(|a|, i requires 0 <= i < |a| => Dot(a[i], v, |a|))
  }

  /** v . a v >= v . v for all v: a is the identity plus a positive part. */
  ghost predicate Dominates(a: Matrix)
    requires Square(a)
  {
    forall v: Row {:trigger Image(a, v)} :: |v| == |a| ==> Dot(v, Image(a, v), |a|) >= Dot(v, v, |a|)
  }

  ghost predicate Kills(m: Matrix, d: nat, v: Row, col: nat)
    requires Working(m, d) && |v| == d && col <= d
  {
    forall r :: 0 <= r < col ==> Dot(m[r], v, d) == 0.0
  }

  /** Elimination changes no row as seen by a vector that kills the pivot row. */
  lemma RowUnchanged(m: Matrix, d: nat, col: nat, lam: real, v: Row, r: nat)
    requires col < d && Working(m, d) && |v| == d && r < d
    requires Dot(Eliminated(m, d, col, lam)[col], v, d) == 0.0
    ensures Dot(Eliminated(m, d, col, lam)[r], v, d) == Dot(Prepared(m, col, lam)[r], v, d)
  {
    hide Dot, Times, Over, Degenerate;
    var p := Prepared(m, col, lam);
    var n, div := Normalised(p, col), Divisor(p[col][col]);
    DotScaled(p[col], div, v, d);
    OverLaws(Dot(p[col], v, d), 0.0, div);
    assert Dot(n[col], v, d) == 0.0;
    if r != col && n[r][col] != 0.0 {
      DotReduced(n[r], n[r][col], n[col], v, d);
      TimesLaws(n[r][col], 0.0, 0.0);
    }
  }

  /** To a vector that kills the finished rows, each row of the original matrix
      looks like zero or like one of the unfinished rows. */
  lemma {:induction false} KernelView(a: Matrix, lam: real, col: nat, v: Row, i: nat) returns (r: nat)
    requires Square(a) && col <= |a| && RegularTo(a, lam, col) && |v| == |a| && i < |a|
    requires Kills(After(a, lam, col), |a|, v, col)
    ensures Dot(a[i], v, |a|) == 0.0 || (col <= r < |a| && Dot(a[i], v, |a|) == Dot(After(a, lam, col)[r], v, |a|))
    decreases col
  {
    hide Eliminated, Degenerate, Dot;
    var d := |a|;
    if col == 0 {
      r := i;
      DotSame(a[i], v, Augmented(a)[i], v, d);
    } else {
      var c := col - 1;
      var m, e := After(a, lam, c), After(a, lam, col);
      forall s | 0 <= s < d
        ensures Dot(e[Swapped(m, c, s)], v, d) == Dot(m[s], v, d)
      {
        RowUnchanged(m, d, c, lam, v, Swapped(m, c, s));
        SwappedRow(m, c, lam, s);
      }
      assert Kills(m, d, v, c);
      var q := KernelView(a, lam, c, v, i);
      r := Swapped(m, c, q);
    }
  }

  /** Combination of the columns that the finished rows cannot see. */
  function KernelVector(m: Matrix, d: nat, col: nat): (v: Row)
    requires col < d && Working(m, d)
    ensures |v| == d && forall j :: 0 <= j < d ==> v[j] == if j < col then -m[j][col] else if j == col then 1.0 else 0.0
  {
    seq(d, j requires 0 <= j < d => if j < col then -m[j][col] else if j == col then 1.0 else 0.0)
  }

  lemma {:induction false} KernelDot(m: Matrix, d: nat, col: nat, r: nat, n: nat)
    requires col < d && Done(m, d, col) && r < d && n <= d
    ensures Dot(m[r], KernelVector(m, d, col), n)
         == (if r < col && r < n then -m[r][col] else 0.0) + (if col < n then m[r][col] else 0.0)
    decreases n
  {
    hide Times;
    if n > 0 {
      KernelDot(m, d, col, r, n - 1);
      var x := KernelVector(m, d, col)[n - 1];
      TimesLaws(m[r][n - 1], x, 0.0);
      TimesLaws(x, m[r][n - 1], 0.0);
    }
  }

  lemma AbsProduct(x: real, w: real)
    ensures Times(x, w) <= Times(Abs(x), Abs(w))
    ensures Times(Abs(x), Abs(x)) == Times(x, x)
  {
  }

  lemma TimesMonotone(y: real, u: real, e: real)
    requires y >= 0.0 && u <= e
    ensures Times(y, u) <= Times(y, e)
  {
    assert (e - u) * y >= 0.0;
  }

  lemma BelowSquare(y: real)
    ensures y <= Times(y, y) + 1.0
  {
    SquareNonNegative(y - 1.0);
    SquareNonNegative(y);
    assert (y - 1.0) * (y - 1.0) == y * y - 2.0 * y + 1.0;
  }

  lemma TinyProduct(x: real, w: real)
    requires Abs(w) < EPSILON
    ensures Times(x, w) <= EPSILON * (Times(x, x) + 1.0)
  {
    var y, z := Abs(x), Times(x, x);
    AbsProduct(x, w);
    TimesMonotone(y, Abs(w), EPSILON);
    BelowSquare(y);
    assert Times(y, EPSILON) == y * EPSILON;
    assert y * EPSILON <= EPSILON * (z + 1.0);
  }

  lemma {:induction false} TinyDot(v: Row, w: Row, n: nat)
    requires n <= |v| == |w| && forall k :: 0 <= k < n ==> Abs(w[k]) < EPSILON
    ensures Dot(v, w, n) <= EPSILON * (Dot(v, v, n) + n as real)
    decreases n
  {
    hide Times, Abs;
    if n > 0 {
      TinyDot(v, w, n - 1);
      TinyProduct(v[n - 1], w[n - 1]);
    }
  }

  /** On a dominating matrix a column without a pivot would give a vector whose
      image is far too small. */
  lemma PivotExists(a: Matrix, lam: real, col: nat)
    requires Square(a) && Dominates(a) && |a| <= 999_999_999_998 && col < |a| && RegularTo(a, lam, col)
    ensures !Degenerate(After(a, lam, col), col)
  {
    hide Eliminated, Dot, Consistent;
    var d, m := |a|, After(a, lam, col);
    if Degenerate(m, col) {
      AfterInvariant(a, lam, col);
      var v := KernelVector(m, d, col);
      forall r | 0 <= r < d
        ensures Dot(m[r], v, d) == if r < col then 0.0 else m[r][col]
      {
        KernelDot(m, d, col, r, d);
      }
      forall i | 0 <= i < d
        ensures Abs(Image(a, v)[i]) < EPSILON
      {
        var r := KernelView(a, lam, col, v, i);
      }
      assert Times(v[col], v[col]) == 1.0;
      NormNonNegative(v, d);
      TinyDot(v, Image(a, v), d);
      assert false;
    }
  }

  /** No dominating matrix ever takes the branch that adds lam. */
  lemma {:induction false} DominatingIsRegular(a: Matrix, lam: real, col: nat)
    requires Square(a) && Dominates(a) && |a| <= 999_999_999_998 && col <= |a|
    ensures RegularTo(a, lam, col)
    decreases col
  {
    hide Degenerate, Dominates, After;
    if col > 0 {
      DominatingIsRegular(a, lam, col - 1);
      PivotExists(a, lam, col - 1);
    }
  }
}
