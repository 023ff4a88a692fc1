/** Vectors and matrices over the reals: dot products and their linearity. */
module Linear {

  type Row = seq<real>
  type Matrix = seq<Row>

  function Abs(x: real): real {
    if x < 0.0 then -x else x
  }

  /** Products and quotients are named so that they are reasoned about through the
      lemmas below only. */
  function Times(x: real, y: real): real {
    x * y
  }

  function Over(x: real, y: real): real
    requires y != 0.0
  {
    x / y
  }

  lemma TimesLaws(x: real, y: real, z: real)
    ensures Times(x, y) == Times(y, x)
    ensures Times(x + y, z) == Times(x, z) + Times(y, z)
    ensures Times(x - y, z) == Times(x, z) - Times(y, z)
    ensures Times(Times(x, y), z) == Times(x, Times(y, z))
    ensures Times(0.0, x) == 0.0 && Times(1.0, x) == x
  {
  }

  lemma OverLaws(x: real, y: real, z: real)
    requires z != 0.0
    ensures Times(Over(x, z), y) == Over(Times(x, y), z)
    ensures Over(x + y, z) == Over(x, z) + Over(y, z)
    ensures Over(0.0, z) == 0.0 && Over(z, z) == 1.0
    ensures Over(x, z) == 0.0 ==> x == 0.0
  {
    assert x == (x / z) * z;
    assert x / z + y / z == (x + y) / z;
  }

  lemma SquareNonNegative(x: real)
    ensures Times(x, x) >= 0.0
  {
  }

  // ----- dot products -----

  /** Sum of the products of the first n entries. */
  function Dot(u: Row, v: Row, n: nat): real
    requires n <= |u| && n <= |v|
    decreases n
  {
    if n == 0 then 0.0 else Dot(u, v, n - 1) + Times(u[n - 1], v[n - 1])
  }

  function Scaled(u: Row, div: real): (r: Row)
    requires div != 0.0
    ensures |r| == |u| && forall k :: 0 <= k < |u| ==> r[k] == Over(u[k], div)
  {
    seq(|u|, k requires 0 <= k < |u| => Over(u[k], div))
  }

  /** u minus factor times w. */
  function Reduced(u: Row, factor: real, w: Row): (r: Row)
    requires |u| == |w|
    ensures |r| == |u| && forall k :: 0 <= k < |u| ==> r[k] == u[k] - Times(factor, w[k])
  {
    seq(|u|, k requires 0 <= k < |u| => u[k] - Times(factor, w[k]))
  }

  lemma {:induction false} DotScaled(u: Row, div: real, v: Row, n: nat)
    requires div != 0.0 && n <= |u| && n <= |v|
    ensures Dot(Scaled(u, div), v, n) == Over(Dot(u, v, n), div)
    decreases n
  {
    hide Times, Over;
    OverLaws(0.0, 0.0, div);
    if n > 0 {
      DotScaled(u, div, v, n - 1);
      OverLaws(u[n - 1], v[n - 1], div);
      OverLaws(Dot(u, v, n - 1), Times(u[n - 1], v[n - 1]), div);
    }
  }

  lemma {:induction false} DotReduced(u: Row, factor: real, w: Row, v: Row, n: nat)
    requires |u| == |w| && n <= |u| && n <= |v|
    ensures Dot(Reduced(u, factor, w), v, n) == Dot(u, v, n) - Times(factor, Dot(w, v, n))
    decreases n
  {
    hide Times;
    TimesLaws(0.0, factor, factor);
    TimesLaws(factor, 0.0, factor);
    if n > 0 {
      DotReduced(u, factor, w, v, n - 1);
      var x, y, z := u[n - 1], w[n - 1], v[n - 1];
      TimesLaws(x, Times(factor, y), z);
      TimesLaws(factor, y, z);
      var p, q := Dot(w, v, n - 1), Times(y, z);
      TimesLaws(p, q, factor);
      TimesLaws(p + q, factor, factor);
      TimesLaws(p, factor, factor);
      TimesLaws(q, factor, factor);
    }
  }

  lemma {:induction false} DotSame(u: Row, v: Row, u': Row, v': Row, n: nat)
    requires n <= |u| && n <= |v| && n <= |u'| && n <= |v'|
    requires forall k :: 0 <= k < n ==> u[k] == u'[k] && v[k] == v'[k]
    ensures Dot(u, v, n) == Dot(u', v', n)
    decreases n
  {
    if n > 0 {
      DotSame(u, v, u', v', n - 1);
    }
  }

  lemma {:induction false} DotCommutes(u: Row, v: Row, n: nat)
    requires n <= |u| && n <= |v|
    ensures Dot(u, v, n) == Dot(v, u, n)
    decreases n
  {
    hide Times;
    if n > 0 {
      DotCommutes(u, v, n - 1);
      TimesLaws(u[n - 1], v[n - 1], 0.0);
    }
  }

  /** Sums of squares. */
  lemma {:induction false} NormNonNegative(v: Row, n: nat)
    requires n <= |v|
    ensures Dot(v, v, n) >= 0.0
    ensures forall k :: 0 <= k < n ==> Times(v[k], v[k]) <= Dot(v, v, n)
    decreases n
  {
    hide Times;
    if n > 0 {
      NormNonNegative(v, n - 1);
      SquareNonNegative(v[n - 1]);
    }
  }

  // ----- unit vectors and matrices -----

  function Unit(d: nat, i: nat): (e: Row)
    ensures |e| == d && forall k :: 0 <= k < d ==> e[k] == if k == i then 1.0 else 0.0
  {
    seq(d, k requires 0 <= k < d => if k == i then 1.0 else 0.0)
  }

  lemma {:induction false} DotUnit(u: Row, d: nat, i: nat, n: nat)
    requires n <= d <= |u| && i < d
    ensures Dot(Unit(d, i), u, n) == if i < n then u[i] else 0.0
    decreases n
  {
    hide Times;
    if n > 0 {
      DotUnit(u, d, i, n - 1);
      TimesLaws(u[n - 1], 0.0, 0.0);
    }
  }

  ghost predicate Square(a: Matrix) {
    forall i :: 0 <= i < |a| ==> |a[i]| == |a|
  }

  function Column(a: Matrix, k: nat): (c: Row)
    requires forall i :: 0 <= i < |a| ==> k < |a[i]|
    ensures |c| == |a| && forall j :: 0 <= j < |a| ==> c[j] == a[j][k]
  {
    seq(|a|, j requires 0 <= j < |a| => a[j][k])
  }

  /** x times a is the identity. */
  ghost predicate LeftInverse(x: Matrix, a: Matrix)
    requires Square(a) && Square(x) && |x| == |a|
  {
    forall i, k :: 0 <= i < |a| && 0 <= k < |a| ==> Dot(x[i], Column(a, k), |a|) == if i == k then 1.0 else 0.0
  }
}
