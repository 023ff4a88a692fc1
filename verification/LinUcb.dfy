/** The bandit of engines/profiles.py (LinUCB): what updates do to an arm, and what
    the inversion of its matrix then yields. */
module LinUcb {
  import opened Linear
  import opened GaussJordan

  const CONTEXT_DIM := 4
  const LAM: real := 0.000001

  /** The context as update and choose take it: cut or filled up to four entries. */
  function Context(context: Row): (x: Row)
    ensures |x| == CONTEXT_DIM
  {
    var c := if context == [] then [1.0, 0.0, 0.0, 0.0] else context;
    if |c| >= CONTEXT_DIM then c[..CONTEXT_DIM] else c + seq(CONTEXT_DIM - |c|, _ => 0.0)
  }

  function Clipped(reward: real): (r: real)
    ensures 0.0 <= r <= 1.0
  {
    if reward < 0.0 then 0.0 else if reward > 1.0 then 1.0 else reward
  }

  /** a plus the outer product of x with itself. */
  function Updated(a: Matrix, x: Row): (r: Matrix)
    requires Square(a) && |x| == |a|
    ensures Square(r) && |r| == |a| && forall i :: 0 <= i < |a| ==> r[i] == UpdatedRow(a[i], x[i], x)
  {
    seq(|a|, i requires 0 <= i < |a| => UpdatedRow(a[i], x[i], x))
  }

  function UpdatedRow(row: Row, factor: real, x: Row): (r: Row)
    requires |row| == |x|
    ensures |r| == |x| && forall j :: 0 <= j < |x| ==> r[j] == row[j] + Times(factor, x[j])
  {
    seq(|x|, j requires 0 <= j < |x| => row[j] + Times(factor, x[j]))
  }

  function Identity(d: nat): (a: Matrix)
    ensures Square(a) && |a| == d && forall i :: 0 <= i < d ==> a[i] == Unit(d, i)
  {
    seq(d, i requires 0 <= i < d => Unit(d, i))
  }

  /** One call of update: a context and the reward it brought. */
  datatype Lesson = Lesson(context: Row, reward: real)

  /** What an arm holds. */
  datatype Knowledge = Knowledge(a: Matrix, b: Row, pulls: nat, rewards: real)

  ghost predicate Sized(k: Knowledge) {
    |k.a| == CONTEXT_DIM && Square(k.a) && |k.b| == CONTEXT_DIM
  }

  function Taught(k: Knowledge, lesson: Lesson): (t: Knowledge)
    requires Sized(k)
    ensures Sized(t)
  {
    var x, reward := Context(lesson.context), Clipped(lesson.reward);
    Knowledge(Updated(k.a, x), UpdatedRow(k.b, reward, x), k.pulls + 1, k.rewards + reward)
  }

  const UNTAUGHT := Knowledge(Identity(CONTEXT_DIM), [0.0, 0.0, 0.0, 0.0], 0, 0.0)

  // ----- the arm object -----

  class Arm {
    var a: Matrix
    var b: Row
    var pulls: nat
    var rewards: real

    constructor ()
      ensures Current() == UNTAUGHT
    {
      a, b, pulls, rewards := Identity(CONTEXT_DIM), [0.0, 0.0, 0.0, 0.0], 0, 0.0;
    }

    function Current(): Knowledge
      reads this
    {
      Knowledge(a, b, pulls, rewards)
    }

    ghost predicate Valid()
      reads this
    {
      Sized(Current())
    }

    /** LinUCB.update for this arm. */
    method Update(context: Row, reward: real)
      requires Valid()
      modifies this
      ensures Valid() && Current() == Taught(old(Current()), Lesson(context, reward))
    {
      var x := Context(context);
      for i := 0 to CONTEXT_DIM
        invariant Valid() && pulls == old(pulls) && rewards == old(rewards)
        invariant forall k :: 0 <= k < CONTEXT_DIM ==> a[k] == if k < i then UpdatedRow(old(a)[k], x[k], x) else old(a)[k]
        invariant forall k :: 0 <= k < CONTEXT_DIM ==>
          b[k] == if k < i then old(b)[k] + Times(Clipped(reward), x[k]) else old(b)[k]
      {
        UpdateRow(i, x);
        b := b[i := b[i] + Times(Clipped(reward), x[i])];
      }
      pulls := pulls + 1;
      rewards := rewards + Clipped(reward);
    }

    /** The inner loop over row i. */
    method UpdateRow(i: nat, x: Row)
      requires Valid() && i < CONTEXT_DIM && |x| == CONTEXT_DIM
      modifies this`a
      ensures Valid() && a == old(a)[i := UpdatedRow(old(a)[i], x[i], x)]
    {
      for j := 0 to CONTEXT_DIM
        invariant Valid()
        invariant forall k :: 0 <= k < CONTEXT_DIM && k != i ==> a[k] == old(a)[k]
        invariant forall k :: 0 <= k < CONTEXT_DIM ==> a[i][k] == old(a)[i][k] + if k < j then Times(x[i], x[k]) else 0.0
      {
        a := a[i := a[i][j := a[i][j] + Times(x[i], x[j])]];
      }
      assert a[i] == UpdatedRow(old(a)[i], x[i], x);
    }
  }

  /** The matrix of an arm after updates with the given contexts. */
  function Learned(contexts: seq<Row>): (a: Matrix)
    ensures Square(a) && |a| == CONTEXT_DIM
  {
    if contexts == [] then Identity(CONTEXT_DIM)
    else Updated(Learned(contexts[..|contexts| - 1]), Context(contexts[|contexts| - 1]))
  }

  // ----- every arm stays symmetric and dominating -----

  ghost predicate Symmetric(a: Matrix)
    requires Square(a)
  {
    forall i, j :: 0 <= i < |a| && 0 <= j < |a| ==> a[i][j] == a[j][i]
  }

  lemma UpdatedSymmetric(a: Matrix, x: Row)
    requires Square(a) && |x| == |a| && Symmetric(a)
    ensures Symmetric(Updated(a, x))
  {
    hide Times;
    var r := Updated(a, x);
    forall i, j | 0 <= i < |a| && 0 <= j < |a|
      ensures r[i][j] == r[j][i]
    {
      TimesLaws(x[i], x[j], 0.0);
    }
  }

  lemma IdentityDominates(d: nat)
    ensures Dominates(Identity(d))
  {
    hide Dot;
    var a := Identity(d);
    forall v: Row | |v| == d
      ensures Dot(v, Image(a, v), d) >= Dot(v, v, d)
    {
      forall i | 0 <= i < d
        ensures Image(a, v)[i] == v[i]
      {
        DotUnit(v, d, i, d);
      }
      DotSame(v, Image(a, v), v, v, d);
    }
  }

  lemma UpdatedImage(a: Matrix, r: Matrix, x: Row, v: Row, d: nat, s: real)
    requires Square(a) && |x| == |a| == |v| == d && r == Updated(a, x) && s == Dot(x, v, d)
    ensures Image(r, v) == UpdatedRow(Image(a, v), s, x)
  {
    hide Dot, Times;
    var right := UpdatedRow(Image(a, v), s, x);
    forall i | 0 <= i < d
      ensures Image(r, v)[i] == right[i]
    {
      UpdatedRowDot(a[i], x[i], x, v, d);
      Negated(s, x[i]);
    }
  }

  /** The outer product adds a square to v . a v. */
  lemma UpdatedQuadratic(a: Matrix, r: Matrix, x: Row, v: Row, d: nat, s: real)
    requires Square(a) && |x| == |a| == |v| == d && r == Updated(a, x) && s == Dot(x, v, d)
    ensures Dot(v, Image(r, v), d) == Dot(v, Image(a, v), d) + Times(s, s)
  {
    hide Dot, Times, UpdatedRow;
    var w := Image(a, v);
    UpdatedImage(a, r, x, v, d, s);
    DotCommutes(v, UpdatedRow(w, s, x), d);
    UpdatedRowDot(w, s, x, v, d);
    DotCommutes(w, v, d);
  }

  lemma Negated(s: real, t: real)
    ensures Times(-s, t) == -Times(s, t) && Times(s, t) == Times(t, s)
  {
  }

  lemma UpdatedRowDot(row: Row, factor: real, x: Row, v: Row, d: nat)
    requires |row| == |x| == |v| == d
    ensures Dot(UpdatedRow(row, factor, x), v, d) == Dot(row, v, d) + Times(factor, Dot(x, v, d))
  {
    hide Dot, Times;
    var t := Reduced(row, -factor, x);
    forall k | 0 <= k < d
      ensures UpdatedRow(row, factor, x)[k] == t[k]
    {
      Negated(factor, x[k]);
    }
    DotSame(UpdatedRow(row, factor, x), v, t, v, d);
    DotReduced(row, -factor, x, v, d);
    Negated(factor, Dot(x, v, d));
  }

  lemma UpdatedDominatesAt(a: Matrix, r: Matrix, x: Row, v: Row, d: nat)
    requires Square(a) && |x| == |a| == |v| == d && Dominates(a) && r == Updated(a, x)
    ensures Dot(v, Image(r, v), d) >= Dot(v, v, d)
  {
    hide Dot, Times, Updated;
    var s := Dot(x, v, d);
    UpdatedQuadratic(a, r, x, v, d, s);
    SquareNonNegative(s);
    assert Dot(v, Image(a, v), d) >= Dot(v, v, d);
  }

  lemma UpdatedDominates(a: Matrix, r: Matrix, x: Row, d: nat)
    requires Square(a) && |x| == |a| == d && Dominates(a) && r == Updated(a, x)
    ensures Dominates(r)
  {
    hide Dot, Times, Updated;
    if !Dominates(r) {
      var v: Row :| |v| == |r| && Dot(v, Image(r, v), |r|) < Dot(v, v, |r|);
      UpdatedDominatesAt(a, r, x, v, d);
    }
  }

  lemma {:induction false} LearnedInvariant(contexts: seq<Row>)
    ensures Symmetric(Learned(contexts)) && Dominates(Learned(contexts))
  {
    hide Dominates;
    if contexts == [] {
      IdentityDominates(CONTEXT_DIM);
    } else {
      var n := |contexts| - 1;
      LearnedInvariant(contexts[..n]);
      UpdatedSymmetric(Learned(contexts[..n]), Context(contexts[n]));
      UpdatedDominates(Learned(contexts[..n]), Learned(contexts), Context(contexts[n]), CONTEXT_DIM);
    }
  }

  // ----- the inverse of a symmetric matrix works from both sides -----

  /** Sum of the first n rows, weighted by u. */
  function Mix(u: Row, a: Matrix, n: nat): (r: Row)
    requires Square(a) && |u| == |a| && n <= |a|
    ensures |r| == |a|
    decreases n
  {
    if n == 0 then seq(|a|, _ => 0.0) else UpdatedRow(Mix(u, a, n - 1), u[n - 1], a[n - 1])
  }

  lemma {:induction false} DotMix(u: Row, a: Matrix, w: Row, n: nat)
    requires Square(a) && |u| == |a| == |w| && n <= |a|
    ensures Dot(Mix(u, a, n), w, |a|) == Dot(u, Image(a, w), n)
    decreases n
  {
    hide Times;
    if n == 0 {
      DotZero(Mix(u, a, 0), w, |a|);
    } else {
      DotMix(u, a, w, n - 1);
      UpdatedRowDot(Mix(u, a, n - 1), u[n - 1], a[n - 1], w, |a|);
    }
  }

  lemma {:induction false} DotZero(z: Row, w: Row, n: nat)
    requires n <= |z| && n <= |w| && forall k :: 0 <= k < n ==> z[k] == 0.0
    ensures Dot(z, w, n) == 0.0
    decreases n
  {
    hide Times;
    if n > 0 {
      DotZero(z, w, n - 1);
      TimesLaws(0.0, w[n - 1], 0.0);
      TimesLaws(w[n - 1], 0.0, 0.0);
    }
  }

  lemma {:induction false} MixEntry(u: Row, a: Matrix, n: nat, k: nat)
    requires Square(a) && |u| == |a| && n <= |a| && k < |a|
    ensures Mix(u, a, n)[k] == Dot(u, Column(a, k), n)
    decreases n
  {
    hide Times;
    if n > 0 {
      MixEntry(u, a, n - 1, k);
    }
  }

  /** A symmetric matrix may change sides in a dot product. */
  lemma SymmetricMoves(u: Row, a: Matrix, w: Row)
    requires Square(a) && Symmetric(a) && |u| == |a| == |w|
    ensures Dot(u, Image(a, w), |a|) == Dot(Image(a, u), w, |a|)
  {
    hide Dot;
    var d := |a|;
    DotMix(u, a, w, d);
    forall k | 0 <= k < d
      ensures Mix(u, a, d)[k] == Image(a, u)[k]
    {
      MixEntry(u, a, d, k);
      DotSame(u, Column(a, k), u, a[k], d);
      DotCommutes(u, a[k], d);
    }
    DotSame(Mix(u, a, d), w, Image(a, u), w, d);
  }

  /** The rows of a left inverse of a symmetric matrix are dual to its rows. */
  lemma DualRows(x: Matrix, a: Matrix, i: nat, k: nat)
    requires Square(a) && Square(x) && |x| == |a| && Symmetric(a) && LeftInverse(x, a) && i < |a| && k < |a|
    ensures Dot(a[i], x[k], |a|) == if i == k then 1.0 else 0.0
    ensures Dot(x[k], a[i], |a|) == if i == k then 1.0 else 0.0
  {
    hide Dot;
    DotSame(x[k], Column(a, i), x[k], a[i], |a|);
    DotCommutes(x[k], a[i], |a|);
  }

  lemma InverseSymmetric(x: Matrix, a: Matrix)
    requires Square(a) && Square(x) && |x| == |a| && Symmetric(a) && LeftInverse(x, a)
    ensures Symmetric(x)
  {
    hide Dot, LeftInverse;
    var d := |a|;
    forall i, k | 0 <= i < d && 0 <= k < d
      ensures x[i][k] == x[k][i]
    {
      ImageOfDual(x, a, i);
      ImageOfDual(x, a, k);
      SymmetricMoves(x[i], a, x[k]);
      DotUnit(x[i], d, k, d);
      DotCommutes(x[i], Unit(d, k), d);
      DotUnit(x[k], d, i, d);
    }
  }

  lemma ImageOfDual(x: Matrix, a: Matrix, k: nat)
    requires Square(a) && Square(x) && |x| == |a| && Symmetric(a) && LeftInverse(x, a) && k < |a|
    ensures Image(a, x[k]) == Unit(|a|, k) && Image(x, a[k]) == Unit(|a|, k)
  {
    hide Dot, LeftInverse;
    forall i | 0 <= i < |a|
      ensures Image(a, x[k])[i] == Unit(|a|, k)[i] && Image(x, a[k])[i] == Unit(|a|, k)[i]
    {
      DualRows(x, a, i, k);
      DualRows(x, a, k, i);
    }
  }

  /** A left inverse of a symmetric matrix is a right inverse. */
  lemma InverseOnTheRight(x: Matrix, a: Matrix, b: Row)
    requires Square(a) && Square(x) && |x| == |a| == |b| && Symmetric(a) && LeftInverse(x, a)
    ensures Image(a, Image(x, b)) == b
  {
    hide Dot, LeftInverse;
    InverseSymmetric(x, a);
    var d := |a|;
    forall i | 0 <= i < d
      ensures Image(a, Image(x, b))[i] == b[i]
    {
      SymmetricMoves(a[i], x, b);
      ImageOfDual(x, a, i);
      DotUnit(b, d, i, d);
    }
  }

  // ----- what choose computes -----

  /** theta, the estimated weights of an arm. */
  function Theta(a: Matrix, b: Row): (theta: Row)
    requires Square(a) && |b| == |a|
    ensures |theta| == |a|
  {
    Image(Inverted(a, LAM), b)
  }

  /** The quadratic form whose root is the exploration bonus. */
  function Variance(a: Matrix, x: Row): real
    requires Square(a) && |x| == |a|
  {
    Dot(x, Image(Inverted(a, LAM), x), |a|)
  }

  /** For every arm that updates can produce, inversion never needs its lam
      fallback, the returned matrix is a two-sided inverse, theta solves the
      normal equations exactly, and the variance is never negative. */
  lemma LearnedArmIsSolved(contexts: seq<Row>, b: Row, x: Row)
    requires |b| == CONTEXT_DIM && |x| == CONTEXT_DIM
    ensures var a := Learned(contexts);
            && RegularTo(a, LAM, CONTEXT_DIM)
            && LeftInverse(Inverted(a, LAM), a)
            && Image(a, Theta(a, b)) == b
            && Variance(a, x) >= 0.0
  {
    hide Dot, LeftInverse, RegularTo, Inverted, Learned;
    var a := Learned(contexts);
    LearnedInvariant(contexts);
    DominatingIsRegular(a, LAM, CONTEXT_DIM);
    InverseIsLeftInverse(a, LAM);
    var inv := Inverted(a, LAM);
    InverseOnTheRight(inv, a, b);
    InverseOnTheRight(inv, a, x);
    var y := Image(inv, x);
    DotCommutes(x, y, CONTEXT_DIM);
    NormNonNegative(y, CONTEXT_DIM);
  }

  // ----- what a history teaches -----

  function Trained(history: seq<Lesson>): (k: Knowledge)
    ensures Sized(k)
  {
    if history == [] then UNTAUGHT
    else Taught(Trained(history[..|history| - 1]), history[|history| - 1])
  }

  function Contexts(history: seq<Lesson>): (contexts: seq<Row>)
    ensures |contexts| == |history| && forall n :: 0 <= n < |history| ==> contexts[n] == history[n].context
  {
    seq(|history|, n requires 0 <= n < |history| => history[n].context)
  }

  lemma {:induction false} TrainedIsLearned(history: seq<Lesson>)
    ensures Trained(history).a == Learned(Contexts(history))
  {
    if history != [] {
      var n := |history| - 1;
      TrainedIsLearned(history[..n]);
      assert Contexts(history)[..n] == Contexts(history[..n]);
    }
  }

  /** Contexts of four entries and rewards between 0 and 1. */
  ghost predicate InRange(history: seq<Lesson>) {
    forall n :: 0 <= n < |history| ==> |history[n].context| == 4 && 0.0 <= history[n].reward <= 1.0
  }

  /** Entry i of the identity plus the sum of all x times x transposed, applied
      to theta. */
  function Explained(history: seq<Lesson>, theta: Row, i: nat): real
    requires InRange(history) && |theta| == 4 && i < 4
  {
    if history == [] then theta[i]
    else
      var n := |history| - 1;
      var x := history[n].context;
      Explained(history[..n], theta, i)
        + x[i] * Predicted(x, theta)
  }

  /** The reward that weights theta predict for a context. */
  function Predicted(x: Row, theta: Row): real
    requires |x| == |theta| == 4
  {
    x[0] * theta[0] + x[1] * theta[1] + x[2] * theta[2] + x[3] * theta[3]
  }

  /** Entry i of the sum of all rewards times their contexts. */
  function Observed(history: seq<Lesson>, i: nat): real
    requires InRange(history) && i < 4
  {
    if history == [] then 0.0
    else
      var n := |history| - 1;
      Observed(history[..n], i) + history[n].reward * history[n].context[i]
  }

  function TotalReward(history: seq<Lesson>): real {
    if history == [] then 0.0 else TotalReward(history[..|history| - 1]) + history[|history| - 1].reward
  }

  lemma DotOfFour(u: Row, v: Row)
    requires |u| == |v| == 4
    ensures Dot(u, v, 4) == Predicted(u, v)
  {
    assert Dot(u, v, 1) == Times(u[0], v[0]);
    assert Dot(u, v, 2) == Dot(u, v, 1) + Times(u[1], v[1]);
    assert Dot(u, v, 3) == Dot(u, v, 2) + Times(u[2], v[2]);
  }

  lemma TimesIs(x: real, y: real)
    ensures Times(x, y) == x * y && x * y == y * x
  {
  }

  lemma WholeContext(x: Row)
    requires |x| == 4
    ensures Context(x) == x
  {
  }

  lemma {:induction false} ExplainedByMatrix(history: seq<Lesson>, theta: Row, i: nat)
    requires InRange(history) && |theta| == 4 && i < 4
    ensures Image(Trained(history).a, theta)[i] == Explained(history, theta, i)
  {
    hide Times, Dot, Explained;
    if history == [] {
      NothingExplained(theta, i);
      DotUnit(theta, 4, i, 4);
    } else {
      var n := |history| - 1;
      var before, x := Trained(history[..n]).a, history[n].context;
      var s := Dot(x, theta, 4);
      ExplainedByMatrix(history[..n], theta, i);
      WholeContext(x);
      UpdatedImage(before, Trained(history).a, x, theta, 4, s);
      ExplainedStep(history, theta, i, s);
    }
  }

  lemma NothingExplained(theta: Row, i: nat)
    requires |theta| == 4 && i < 4
    ensures Explained([], theta, i) == theta[i]
  {
  }

  lemma ExplainedStep(history: seq<Lesson>, theta: Row, i: nat, s: real)
    requires InRange(history) && history != [] && |theta| == 4 && i < 4
    requires s == Dot(history[|history| - 1].context, theta, 4)
    ensures Explained(history, theta, i)
         == Explained(history[..|history| - 1], theta, i) + Times(s, history[|history| - 1].context[i])
  {
    hide Predicted, Times, Dot;
    var x := history[|history| - 1].context;
    DotOfFour(x, theta);
    TimesIs(s, x[i]);
  }

  lemma {:induction false} ObservedInVector(history: seq<Lesson>, i: nat)
    requires InRange(history) && i < 4
    ensures Trained(history).b[i] == Observed(history, i)
    ensures Trained(history).pulls == |history| && Trained(history).rewards == TotalReward(history)
  {
    hide Times;
    if history != [] {
      var n := |history| - 1;
      ObservedInVector(history[..n], i);
      WholeContext(history[n].context);
      TimesIs(history[n].reward, history[n].context[i]);
    }
  }

  /** What an arm has learned from a history: its weights solve the regularised
      normal equations of exactly these contexts and rewards, and it has counted
      the lessons and summed the rewards. */
  lemma HistoryIsSolved(history: seq<Lesson>, i: nat)
    requires InRange(history) && i < 4
    ensures var k := Trained(history);
            && Explained(history, Theta(k.a, k.b), i) == Observed(history, i)
            && k.pulls == |history| && k.rewards == TotalReward(history)
  {
    hide Dot, LeftInverse, RegularTo, Inverted, Trained, Theta;
    var k := Trained(history);
    TrainedIsLearned(history);
    LearnedArmIsSolved(Contexts(history), k.b, k.b);
    ExplainedByMatrix(history, Theta(k.a, k.b), i);
    ObservedInVector(history, i);
  }

  /** Rewards and contexts out of range teach what the nearest ones in range do: a
      negative reward is 0, one above 1 is 1, no context is [1, 0, 0, 0], a short
      one is filled with zeros, a long one is cut. */
  lemma OutOfRange(k: Knowledge, context: Row, reward: real)
    requires Sized(k)
    ensures reward < 0.0 ==> Taught(k, Lesson(context, reward)) == Taught(k, Lesson(context, 0.0))
    ensures reward > 1.0 ==> Taught(k, Lesson(context, reward)) == Taught(k, Lesson(context, 1.0))
    ensures Taught(k, Lesson([], reward)) == Taught(k, Lesson([1.0, 0.0, 0.0, 0.0], reward))
    ensures 0 < |context| < 4 ==> Taught(k, Lesson(context, reward)) == Taught(k, Lesson(context + [0.0], reward))
    ensures |context| > 4 ==> Taught(k, Lesson(context, reward)) == Taught(k, Lesson(context[..4], reward))
  {
    hide Updated, UpdatedRow;
    if 0 < |context| < 4 {
      assert Context(context) == Context(context + [0.0]);
    }
    if |context| > 4 {
      assert context[..4][..4] == context[..4];
    }
    assert Context([]) == Context([1.0, 0.0, 0.0, 0.0]);
  }

  // ----- choosing an arm -----

  /** The score of an arm: its prediction and alpha times the root of its variance. */
  function Score(k: Knowledge, x: Row, alpha: real, root: real -> real): real
    requires Sized(k) && |x| == CONTEXT_DIM
  {
    var variance := Variance(k.a, x);
    Dot(Theta(k.a, k.b), x, CONTEXT_DIM) + Times(alpha, root(if variance > 0.0 then variance else 0.0))
  }

  const WORST: real := -1000000000000000000.0

  /** The first of the best scores, if one is above the floor of the search. */
  ghost predicate FirstBest(scores: seq<real>, n: nat, best: nat, score: real)
    requires 0 < n <= |scores| && best < n
  {
    && (forall i :: 0 <= i < n ==> scores[i] <= score)
    && (score == -1000000000000000000.0 ==> best == 0)
    && (score != -1000000000000000000.0 ==>
          score == scores[best] > -1000000000000000000.0 && forall i :: 0 <= i < best ==> scores[i] < score)
  }

  class LinUCB {
    const alpha: real
    var arms: map<string, Arm>

    constructor (alpha: real)
      ensures arms == map[] && this.alpha == alpha
    {
      this.alpha, arms := alpha, map[];
    }

    ghost predicate Valid()
      reads this, arms.Values
    {
      forall name :: name in arms ==> arms[name].Valid()
    }

    /** What is known of an arm; one never seen is untaught. */
    ghost function Known(name: string): Knowledge
      reads this, arms.Values
    {
      if name in arms then arms[name].Current() else UNTAUGHT
    }

    ghost function Scores(names: seq<string>, x: Row, root: real -> real): (scores: seq<real>)
      requires Valid() && |x| == CONTEXT_DIM
      reads this, arms.Values
      ensures |scores| == |names|
      ensures forall i :: 0 <= i < |names| ==> scores[i] == Score(Known(names[i]), x, alpha, root)
    {
      seq(|names|, i requires 0 <= i < |names| && Sized(Known(names[i])) reads this, arms.Values =>
        Score(Known(names[i]), x, alpha, root))
    }

    /** arms.setdefault(name, ...). */
    method ArmOf(name: string) returns (k: Knowledge)
      requires Valid()
      modifies this`arms
      ensures Valid() && k == old(Known(name)) && Sized(k)
      ensures forall other :: other in old(arms) ==> other in arms && arms[other] == old(arms)[other]
      ensures forall other :: other in arms && other !in old(arms) ==> other == name && arms[other].Current() == UNTAUGHT
    {
      if name !in arms {
        var arm := new Arm();
        arms := arms[name := arm];
      }
      k := arms[name].Current();
    }

    /** choose: nothing is learned or forgotten, and the first best arm is named.
        root stands for the square root. */
    method Choose(names: seq<string>, context: Row, root: real -> real) returns (best: string, score: real)
      requires Valid()
      modifies this`arms
      ensures Valid() && forall name :: name in old(arms) ==> name in arms && arms[name] == old(arms)[name]
      ensures forall name :: name in arms && name !in old(arms) ==> arms[name].Current() == UNTAUGHT
      ensures names == [] ==> best == "" && score == 0.0
      ensures names != [] ==> exists k ::
        0 <= k < |names| && best == names[k] && FirstBest(old(Scores(names, Context(context), root)), |names|, k, score)
    {
      hide Score, FirstBest, Sized;
      if names == [] {
        return "", 0.0;
      }
      var x := Context(context);
      best, score := names[0], WORST;
      ghost var k := 0;
      ghost var scores := Scores(names, x, root);
      for n := 0 to |names|
        invariant Valid() && forall name :: name in old(arms) ==> name in arms && arms[name] == old(arms)[name]
        invariant forall name :: name in arms && name !in old(arms) ==> arms[name].Current() == UNTAUGHT
        invariant forall i :: 0 <= i < |names| ==> Known(names[i]) == old(Known(names[i]))
        invariant k < |names| && best == names[k] && score >= WORST
        invariant if n == 0 then score == WORST && k == 0 else k < n && FirstBest(scores, n, k, score)
      {
        var arm := ArmOf(names[n]);
        var s := Score(arm, x, alpha, root);
        BestStep(scores, n, k, score, s);
        if s > score {
          best, score, k := names[n], s, n;
        }
      }
    }
  }

  lemma BestStep(scores: seq<real>, n: nat, best: nat, score: real, s: real)
    requires n < |scores| && s == scores[n] && score >= WORST
    requires if n == 0 then score == WORST && best == 0 else best < n && FirstBest(scores, n, best, score)
    ensures if s > score then FirstBest(scores, n + 1, n, s) else FirstBest(scores, n + 1, best, score)
  {
  }

  /** The score of an arm with a history: the reward its weights predict plus alpha
      times the root of a variance that is never negative; and it is the variance
      of the inverse, because that variance solves the matrix for the context. */
  lemma ScoreIsPrediction(history: seq<Lesson>, x: Row, alpha: real, root: real -> real)
    requires |x| == 4
    ensures var k := Trained(history);
            && Variance(k.a, x) >= 0.0
            && Score(k, x, alpha, root) == Predicted(Theta(k.a, k.b), x) + Times(alpha, root(Variance(k.a, x)))
            && exists y: Row :: |y| == 4 && Image(k.a, y) == x && Variance(k.a, x) == Predicted(x, y)
  {
    hide Dot, LeftInverse, RegularTo, Inverted, Trained, Predicted, Times;
    var k := Trained(history);
    TrainedIsLearned(history);
    LearnedArmIsSolved(Contexts(history), k.b, x);
    LearnedArmIsSolved(Contexts(history), x, x);
    DotOfFour(Theta(k.a, k.b), x);
    DotOfFour(x, Theta(k.a, x));
    assert Image(k.a, Theta(k.a, x)) == x;
  }
}
