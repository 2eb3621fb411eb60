/**
 * The state every optimizer shares (src/optimizers/AbstractOptimizer.cpp).
 *
 * The solution vector x holds one weight per weak learner pushed so far, followed
 * by the dual variables: one per example (psi) for ERLPBoost, or a single beta for
 * the binary variant.  `push_back` takes one corrective step towards the new
 * learner's prediction and re-lays x out with one more weight.  The distribution
 * the optimizer shares with its booster is a parameter of `push_back` here.
 */
module Optimizers {
  import opened Results
  import opened Seqs
  import opened Vectors
  import opened LinAlg
  import opened WeakLearners

  datatype Optimizer = Optimizer(
    dim: nat, transposed: bool, eta: real, nu: real, epsilon: real, binary: bool,
    numWl: nat, x: Dense, columns: seq<Dense>,
    gap: real, minPrimal: real, dualObj: real)

  /** How many dual variables follow the weights. */
  function Tail(o: Optimizer): nat
  {
    if o.binary then 1 else o.dim
  }

  /** x has a weight per pushed learner and then the dual variables; one column per learner. */
  predicate Layout(o: Optimizer)
  {
    |o.x| == o.numWl + Tail(o) && |o.columns| == o.numWl
  }

  /** The weights of the pushed learners: the first numWl entries of x. */
  function Weights(o: Optimizer): (w: Dense)
    requires Layout(o)
    ensures |w| == o.numWl
  {
    o.x[..o.numWl]
  }

  /** `duality_gap_met`: the gap is below half of epsilon. */
  predicate DualityGapMet(o: Optimizer)
  {
    o.gap < 0.5 * o.epsilon
  }

  /**
   * The constructor: no learners, x all zeros with room for the dual variables,
   * and gap, smallest primal value and dual objective at DBL_MAX.
   */
  function NewOptimizer(dim: nat, transposed: bool, eta: real, nu: real, epsilon: real, binary: bool): (o: Optimizer)
    ensures Layout(o) && o.numWl == 0 && o.columns == []
    ensures |o.x| == (if binary then 1 else dim) && forall i :: 0 <= i < |o.x| ==> o.x[i] == 0.0
    ensures o.gap == DblMax && o.minPrimal == DblMax && o.dualObj == DblMax
    ensures o.dim == dim && o.transposed == transposed && o.binary == binary
    ensures o.eta == eta && o.nu == nu && o.epsilon == epsilon
    ensures DualityGapMet(o) <==> epsilon > 2.0 * DblMax
  {
    Optimizer(dim, transposed, eta, nu, epsilon, binary, 0,
              Zeros(if binary then 1 else dim), [], DblMax, DblMax, DblMax)
  }

  /** `std::max(0.0, std::min(1.0, t))`. */
  function Clamp01(t: real): (r: real)
    ensures 0.0 <= r <= 1.0
  {
    if t >= 1.0 then 1.0 else if t > 0.0 then t else 0.0
  }

  function Distance(a: real, b: real): real
  {
    if a >= b then a - b else b - a
  }

  /** The clamp is the point of [0, 1] nearest to its argument. */
  lemma ClampIsNearest(t: real, y: real)
    requires 0.0 <= y <= 1.0
    ensures Distance(Clamp01(t), t) <= Distance(y, t)
    ensures Clamp01(t) == t <==> 0.0 <= t <= 1.0
  {
  }

  /** eta·maxx·maxx, zero exactly when eta or maxx is. */
  function Denominator(eta: real, maxx: real): (d: real)
    ensures d == 0.0 <==> eta == 0.0 || maxx == 0.0
  {
    ProductZero(maxx, maxx);
    ProductZero(eta, maxx * maxx);
    eta * maxx * maxx
  }

  lemma ProductZero(a: real, b: real)
    ensures a * b == 0.0 <==> a == 0.0 || b == 0.0
  {
  }

  /**
   * The step length `max(0, min(1, dx/(eta·maxx·maxx)))`.  With a zero denominator
   * the IEEE quotient is an infinity whose sign is that of dx times that of the
   * zero (the sign of eta, positive for eta = 0), or a NaN when dx is zero too;
   * `std::min(1.0, NaN)` is 1.0, so a NaN gives 1.
   */
  function Alpha(dx: real, eta: real, maxx: real): (r: real)
    ensures 0.0 <= r <= 1.0
    ensures Denominator(eta, maxx) != 0.0 ==> r == Clamp01(dx / Denominator(eta, maxx))
    ensures Denominator(eta, maxx) == 0.0 ==> (r == 1.0 <==> dx == 0.0 || (dx > 0.0 <==> eta >= 0.0))
    ensures Denominator(eta, maxx) == 0.0 ==> (r == 0.0 <==> dx != 0.0 && (dx > 0.0 <==> eta < 0.0))
  {
    var den := Denominator(eta, maxx);
    if den != 0.0 then Clamp01(dx / den)
    else if dx == 0.0 || (dx > 0.0) == (eta >= 0.0) then 1.0
    else 0.0
  }

  /** The dense columns as operands of the templated products. */
  function DenseRows(cols: seq<Dense>): (r: seq<Vec>)
    ensures |r| == |cols| && forall k :: 0 <= k < |cols| ==> r[k] == Dn(cols[k])
  {
    seq(|cols|, k requires 0 <= k < |cols| => Dn(cols[k]))
  }

  /** Every column has n entries. */
  predicate ColumnsOfDim(cols: seq<Dense>, n: nat)
  {
    forall k :: 0 <= k < |cols| ==> |cols[k]| == n
  }

  lemma DenseRowsOfDim(cols: seq<Dense>, n: nat)
    requires ColumnsOfDim(cols, n)
    ensures RowsOfDim(DenseRows(cols), n)
  {
  }

  /**
   * What `push_back(u)` asserts before its corrective step: u stores only indices
   * below its dim, and once a learner is in, the product of the columns with the
   * weights has u's dim and the distribution has as many entries.  The transposed
   * product (`transpose_dot`) needs every column of u's dim; the plain one (`dot`)
   * needs every column to have one entry per weight and as many weights as u has
   * entries.
   */
  predicate PushFits(o: Optimizer, u: Sparse, dist: Dense)
  {
    && Layout(o) && InRange(u)
    && (o.numWl > 0 ==>
          && |dist| == u.dim
          && (if o.transposed then ColumnsOfDim(o.columns, u.dim)
              else ColumnsOfDim(o.columns, o.numWl) && o.numWl == u.dim))
  }

  /** `UW`: the current combination of the columns, transposed or not. */
  function Combination(o: Optimizer, u: Sparse, dist: Dense): (uw: Dense)
    requires PushFits(o, u, dist) && o.numWl > 0
    ensures |uw| == u.dim
  {
    if o.transposed then
      DenseRowsOfDim(o.columns, u.dim);
      TransposeDot(DenseRows(o.columns), Weights(o), u.dim)
    else
      DenseRowsOfDim(o.columns, o.numWl);
      RowDots(DenseRows(o.columns), Weights(o))
  }

  /**
   * The step length of `push_back`: 1 for the first learner; afterwards Alpha of
   * dx = dist·(u − UW) and maxx = max(u − UW).
   */
  function StepLength(o: Optimizer, u: Sparse, dist: Dense): (a: real)
    requires PushFits(o, u, dist)
    ensures 0.0 <= a <= 1.0
    ensures o.numWl == 0 ==> a == 1.0
  {
    if o.numWl == 0 then 1.0
    else
      var diff := AxpyDS(-1.0, Combination(o, u, dist), u);
      Alpha(DotDD(dist, diff), o.eta, Max(diff))
  }

  /** `u_dense`: the entries of u written over zeros, a later duplicate overwriting. */
  function DenseColumn(u: Sparse): (c: Dense)
    requires InRange(u)
    ensures |c| == u.dim
  {
    AssignEntries(Zeros(u.dim), u.entries)
  }

  /** The new x: the old weights scaled by 1−a, the new weight a, the dual variables shifted by one. */
  function Relayout(x: Dense, n: nat, a: real): (r: Dense)
    requires n <= |x|
    ensures |r| == |x| + 1
    ensures r[..n] == ScaleAll(x[..n], 1.0 - a) && r[n] == a && r[n + 1..] == x[n..]
  {
    ScaleAll(x[..n], 1.0 - a) + [a] + x[n..]
  }

  /** `push_back(u)`: one more learner, its dense column, the re-laid-out x, and the bounds reset. */
  function PushBack(o: Optimizer, u: Sparse, dist: Dense): (r: Optimizer)
    requires PushFits(o, u, dist)
    ensures Layout(r) && r.numWl == o.numWl + 1
    ensures r.columns == o.columns + [DenseColumn(u)]
    ensures r.gap == DblMax && r.minPrimal == DblMax && r.dualObj == DblMax
    ensures r.(x := o.x, numWl := o.numWl, columns := o.columns, gap := o.gap, minPrimal := o.minPrimal, dualObj := o.dualObj) == o
  {
    var a := StepLength(o, u, dist);
    o.(numWl := o.numWl + 1,
       x := Relayout(o.x, o.numWl, a),
       columns := o.columns + [DenseColumn(u)],
       gap := DblMax, minPrimal := DblMax, dualObj := DblMax)
  }

  /**
   * y is x re-laid out around a new weight a at position n: weight i < n scaled by
   * 1−a, then a, then every later entry of x one place on.
   */
  predicate Relaid(y: Dense, x: Dense, n: nat, a: real)
  {
    && |y| == |x| + 1 && n < |y| && y[n] == a
    && (forall i :: 0 <= i < n && i < |x| ==> y[i] == (1.0 - a) * x[i])
    && (forall i :: n < i < |y| ==> y[i] == x[i - 1])
  }

  /** Where each entry of the new x comes from; the new weight is 1 for the first learner. */
  lemma PushBackLayout(o: Optimizer, u: Sparse, dist: Dense)
    requires PushFits(o, u, dist)
    ensures Relaid(PushBack(o, u, dist).x, o.x, o.numWl, StepLength(o, u, dist))
    ensures o.numWl == 0 ==> PushBack(o, u, dist).x[0] == 1.0
  {
    var a := StepLength(o, u, dist);
    assert PushBack(o, u, dist).x == Relayout(o.x, o.numWl, a);
    RelayoutIsRelaid(o.x, o.numWl, a);
  }

  lemma RelayoutIsRelaid(x: Dense, n: nat, a: real)
    requires n <= |x|
    ensures Relaid(Relayout(x, n, a), x, n, a)
  {
    var x' := Relayout(x, n, a);
    forall i | 0 <= i < n
      ensures x'[i] == (1.0 - a) * x[i]
    {
      assert x'[i] == x'[..n][i];
      assert x'[..n][i] == (1.0 - a) * x[..n][i];
    }
    forall i | n < i < |x'|
      ensures x'[i] == x[i - 1]
    {
      assert x'[i] == x'[n + 1..][i - n - 1];
      assert x[n..][i - n - 1] == x[i - 1];
    }
  }

  /** After a push the gap test fails, unless epsilon exceeds twice DBL_MAX. */
  lemma PushBackResetsGap(o: Optimizer, u: Sparse, dist: Dense)
    requires PushFits(o, u, dist)
    ensures DualityGapMet(PushBack(o, u, dist)) <==> o.epsilon > 2.0 * DblMax
  {
  }

  /** Weights on the probability simplex. */
  predicate Simplex(w: Dense)
  {
    Sum(w) == 1.0 && forall i :: 0 <= i < |w| ==> 0.0 <= w[i] <= 1.0
  }

  /**
   * The weights stay a convex combination: if they summed to one (or there were
   * none) and lay in [0, 1], the new weights do too.
   */
  lemma PushBackKeepsSimplex(o: Optimizer, u: Sparse, dist: Dense)
    requires PushFits(o, u, dist)
    requires o.numWl == 0 || Simplex(Weights(o))
    ensures Simplex(Weights(PushBack(o, u, dist)))
  {
    RelayoutKeepsSimplex(o.x, o.numWl, StepLength(o, u, dist));
  }

  /** Scaling simplex weights by 1−a and appending a keeps them on the simplex. */
  lemma RelayoutKeepsSimplex(x: Dense, n: nat, a: real)
    requires n <= |x| && 0.0 <= a <= 1.0
    requires n == 0 ==> a == 1.0
    requires n == 0 || Simplex(x[..n])
    ensures Simplex(Relayout(x, n, a)[..n + 1])
  {
    var w := x[..n];
    var scaled := ScaleAll(w, 1.0 - a);
    var x' := Relayout(x, n, a);
    assert x'[..n + 1] == scaled + [a] by {
      assert x'[..n] == scaled;
    }
    SumAppend(scaled, [a]);
    SumSingleton(a);
    SumScaleAll(w, 1.0 - a);
    if n > 0 {
      ScaledWeightsBounded(w, a, scaled);
    } else {
      assert scaled == [];
    }
    assert Simplex(scaled + [a]) by {
      forall i | 0 <= i < n + 1
        ensures 0.0 <= (scaled + [a])[i] <= 1.0
      {
        if i < n {
          assert (scaled + [a])[i] == scaled[i];
        }
      }
    }
  }

  lemma ScaledWeightsBounded(w: Dense, a: real, scaled: Dense)
    requires 0.0 <= a <= 1.0 && forall i :: 0 <= i < |w| ==> 0.0 <= w[i] <= 1.0
    requires scaled == ScaleAll(w, 1.0 - a)
    ensures forall i :: 0 <= i < |w| ==> 0.0 <= scaled[i] <= 1.0
  {
    forall i | 0 <= i < |w|
      ensures 0.0 <= scaled[i] <= 1.0
    {
      ScaledWeightBounds(a, w[i]);
    }
  }

  lemma ScaledWeightBounds(a: real, w: real)
    requires 0.0 <= a <= 1.0 && 0.0 <= w <= 1.0
    ensures 0.0 <= (1.0 - a) * w <= 1.0
  {
    assert (1.0 - a) * w <= 1.0 * w;
  }

  /** The dual variables move one place on, unchanged. */
  lemma PushBackShiftsDuals(o: Optimizer, u: Sparse, dist: Dense)
    requires PushFits(o, u, dist)
    ensures PushBack(o, u, dist).x[o.numWl + 1..] == o.x[o.numWl..]
  {
    var n := o.numWl;
    var a := StepLength(o, u, dist);
    var s := ScaleAll(o.x[..n], 1.0 - a);
    assert |s + [a]| == n + 1;
    assert (s + [a] + o.x[n..])[n + 1..] == o.x[n..];
  }

  /** For strictly increasing indices, the new column is the vector u stands for. */
  lemma PushBackColumn(o: Optimizer, u: Sparse, dist: Dense)
    requires PushFits(o, u, dist) && Increasing(u.entries)
    ensures PushBack(o, u, dist).columns[o.numWl] == ToDense(u)
  {
    var c := DenseColumn(u);
    forall j | 0 <= j < u.dim
      ensures c[j] == ToDense(u)[j]
    {
      AssignEntriesOnZeros(u.dim, u.entries, j);
    }
  }

  // ---------------------------------------------------------------- the corrective step

  /** The combination Σ_k w[k]·column k, of dimension d. */
  function Mix(cols: seq<Dense>, w: Dense, d: nat): (m: Dense)
    requires |cols| == |w| && ColumnsOfDim(cols, d)
    ensures |m| == d
  {
    DenseRowsOfDim(cols, d);
    TransposeDot(DenseRows(cols), w, d)
  }

  lemma ScaledAxpyTerm(c: real, w: real, x: real, t: real)
    ensures Times(c * w, x) + c * t == c * (Times(w, x) + t)
  {
    assert Times(c * w, x) == c * Times(w, x);
  }

  /** Scaling every weight scales the combination. */
  lemma {:induction false} MixScale(cols: seq<Dense>, w: Dense, d: nat, c: real)
    requires |cols| == |w| && ColumnsOfDim(cols, d)
    ensures Mix(cols, ScaleAll(w, c), d) == ScaleAll(Mix(cols, w, d), c)
    decreases |cols|
  {
    DenseRowsOfDim(cols, d);
    if |cols| > 0 {
      var n := |cols| - 1;
      var sw := ScaleAll(w, c);
      forall i | 0 <= i < n
        ensures sw[..n][i] == ScaleAll(w[..n], c)[i]
      {
      }
      assert sw[..n] == ScaleAll(w[..n], c);
      assert DenseRows(cols)[..n] == DenseRows(cols[..n]);
      MixScale(cols[..n], w[..n], d, c);
      var lhs := Mix(cols, sw, d);
      var rhs := ScaleAll(Mix(cols, w, d), c);
      forall j | 0 <= j < d
        ensures lhs[j] == rhs[j]
      {
        ScaledAxpyTerm(c, w[n], cols[n][j], Mix(cols[..n], w[..n], d)[j]);
      }
    }
  }

  /** One more column with weight a adds a times it. */
  lemma MixAppend(cols: seq<Dense>, w: Dense, d: nat, col: Dense, a: real)
    requires |cols| == |w| && ColumnsOfDim(cols, d) && |col| == d
    ensures ColumnsOfDim(cols + [col], d)
    ensures Mix(cols + [col], w + [a], d) == AxpyRow(a, Dn(col), Mix(cols, w, d))
  {
    var c2 := cols + [col];
    assert c2[..|cols|] == cols;
    assert (w + [a])[..|cols|] == w;
    assert DenseRows(c2)[..|cols|] == DenseRows(cols);
  }

  /**
   * In the transposed layout the new weights mix the columns into
   * (1−alpha)·UW + alpha·u_dense: the convex-combination step towards the new
   * learner's prediction.
   */
  lemma PushBackMixes(o: Optimizer, u: Sparse, dist: Dense)
    requires PushFits(o, u, dist) && o.transposed && ColumnsOfDim(o.columns, u.dim)
    ensures var r := PushBack(o, u, dist); var a := StepLength(o, u, dist);
      && ColumnsOfDim(r.columns, u.dim)
      && Mix(r.columns, Weights(r), u.dim)
         == Axpy(a, DenseColumn(u), ScaleAll(Mix(o.columns, Weights(o), u.dim), 1.0 - a))
  {
    var a := StepLength(o, u, dist);
    var r := PushBack(o, u, dist);
    assert r.x == Relayout(o.x, o.numWl, a);
    RelayoutMixes(o.columns, o.x, o.numWl, a, DenseColumn(u), u.dim);
  }

  lemma RelayoutMixes(cols: seq<Dense>, x: Dense, n: nat, a: real, col: Dense, d: nat)
    requires |cols| == n <= |x| && ColumnsOfDim(cols, d) && |col| == d
    ensures ColumnsOfDim(cols + [col], d)
    ensures Mix(cols + [col], Relayout(x, n, a)[..n + 1], d)
         == Axpy(a, col, ScaleAll(Mix(cols, x[..n], d), 1.0 - a))
  {
    var sw := ScaleAll(x[..n], 1.0 - a);
    assert Relayout(x, n, a)[..n + 1] == sw + [a];
    MixAppend(cols, sw, d, col, a);
    MixScale(cols, x[..n], d, 1.0 - a);
  }

  /** The combination after the push is what the next push subtracts from its u. */
  lemma CombinationIsMix(o: Optimizer, u: Sparse, dist: Dense)
    requires PushFits(o, u, dist) && o.numWl > 0 && o.transposed
    ensures Combination(o, u, dist) == Mix(o.columns, Weights(o), u.dim)
  {
  }

  // ---------------------------------------------------------------- log(1 + x)

  /**
   * `log_one_plus_x`: arguments at or below -1 are rejected with invalid_argument;
   * otherwise the value is log(1 + x), supplied here as `value` because the
   * logarithm and its rational approximation are not modelled.
   */
  function LogOnePlusX(x: real, value: real): (r: Result<real>)
    ensures r.Err? <==> x <= -1.0
    ensures r.Err? ==> r.error.InvalidArgument?
    ensures r.Ok? ==> r.value == value
  {
    if x <= -1.0 then Err(InvalidArgument("must be greater than -1.0")) else Ok(value)
  }
}
