/**
 * LPBoost (src/boosters/LpBoost.cpp): the totally corrective booster that keeps a
 * linear program over xi and the distribution d, adds one edge constraint per
 * learner, and reads the distribution from the primal solution and the ensemble's
 * weights from the dual one.
 *
 * Column 0 of the program is xi, columns 1..n are d.  A bound of `COIN_DBL_MAX`
 * (or its negation) is what the LP library reads as "no bound"; it is `None` here.
 * The solver (`primal()`, then `primalColumnSolution` and `dualRowSolution`) is a
 * parameter: a function from the program to its two solution arrays.
 */
module LpBoosting {
  import opened Results
  import opened Seqs
  import opened Vectors
  import opened WeakLearners
  import opened Ensembles
  import opened Boosting

  /** A row: its stored coefficients (column index, value) and its two bounds. */
  datatype Row = Row(terms: seq<Entry>, lo: Option<real>, hi: Option<real>)

  /** The program: objective coefficients (one per column), column bounds, rows. */
  datatype Lp = Lp(objective: seq<real>, colLo: seq<Option<real>>, colHi: seq<Option<real>>, rows: seq<Row>)

  /** `primalColumnSolution()` and `dualRowSolution()`. */
  datatype LpSolution = LpSolution(primal: seq<real>, duals: seq<real>)

  datatype LpBoost = LpBoost(dist: Dense, model: Ensemble, gap: Gap, nu: real, lp: Lp)

  // ---------------------------------------------------------------- rows and their values

  /** Every coefficient of the row addresses one of n columns. */
  predicate RowFits(r: Row, n: nat)
  {
    forall k :: 0 <= k < |r.terms| ==> r.terms[k].index < n
  }

  /** The row's left-hand side at the point p. */
  function RowValue(r: Row, p: seq<real>): real
    requires RowFits(r, |p|)
  {
    EntriesDot(r.terms, p)
  }

  /** A value within an optional lower and an optional upper bound. */
  predicate Within(lo: Option<real>, v: real, hi: Option<real>)
  {
    (lo.None? || lo.value <= v) && (hi.None? || v <= hi.value)
  }

  /** p meets every column bound and every row of the program. */
  predicate Feasible(lp: Lp, p: seq<real>)
  {
    && |p| == |lp.objective| == |lp.colLo| == |lp.colHi|
    && (forall j :: 0 <= j < |p| ==> Within(lp.colLo[j], p[j], lp.colHi[j]))
    && (forall i :: 0 <= i < |lp.rows| ==> RowFits(lp.rows[i], |p|))
    && (forall i :: 0 <= i < |lp.rows| ==> Within(lp.rows[i].lo, RowValue(lp.rows[i], p), lp.rows[i].hi))
  }

  /** Coefficient 1 on columns from, from+1, …, from+m-1. */
  function Ones(from: nat, m: nat): (es: seq<Entry>)
    ensures |es| == m
    ensures forall k :: 0 <= k < m ==> es[k] == Entry(from + k, 1.0)
  {
    seq(m, k requires 0 <= k < m => Entry(from + k, 1.0))
  }

  /** The stored entries moved one column to the right, past xi. */
  function ShiftRight(es: seq<Entry>): (r: seq<Entry>)
    ensures |r| == |es|
    ensures forall k :: 0 <= k < |es| ==> r[k] == Entry(es[k].index + 1, es[k].value)
  {
    seq(|es|, k requires 0 <= k < |es| => Entry(es[k].index + 1, es[k].value))
  }

  /** The constructor's row: 0·xi + d_1 + … + d_n, fixed at 1. */
  function SumRow(n: nat): Row
  {
    Row([Entry(0, 0.0)] + Ones(1, n), Some(1.0), Some(1.0))
  }

  /** `update_weights`' row for the prediction u: -xi + Σ_k u_k·d_k, at most 0. */
  function EdgeRow(u: Sparse): Row
  {
    Row([Entry(0, -1.0)] + ShiftRight(u.entries), None, Some(0.0))
  }

  lemma {:induction false} OnesDot(from: nat, m: nat, p: seq<real>)
    requires from + m <= |p|
    ensures forall k :: 0 <= k < m ==> Ones(from, m)[k].index < |p|
    ensures EntriesDot(Ones(from, m), p) == Sum(p[from..from + m])
    decreases m
  {
    if m > 0 {
      assert Ones(from, m)[1..] == Ones(from + 1, m - 1);
      OnesDot(from + 1, m - 1, p);
      SumFront(p[from..from + m]);
      assert p[from..from + m][1..] == p[from + 1..from + 1 + (m - 1)];
    }
  }

  lemma {:induction false} ShiftRightDot(es: seq<Entry>, p: seq<real>)
    requires |p| > 0
    requires forall k :: 0 <= k < |es| ==> es[k].index < |p| - 1
    ensures forall k :: 0 <= k < |es| ==> ShiftRight(es)[k].index < |p|
    ensures EntriesDot(ShiftRight(es), p) == EntriesDot(es, p[1..])
    decreases |es|
  {
    if |es| > 0 {
      assert ShiftRight(es)[1..] == ShiftRight(es[1..]);
      ShiftRightDot(es[1..], p);
    }
  }

  /** The sum row's value at p is the total of the distribution part of p. */
  lemma SumRowValue(n: nat, p: seq<real>)
    requires |p| == n + 1
    ensures RowFits(SumRow(n), |p|)
    ensures RowValue(SumRow(n), p) == Sum(p[1..])
  {
    var ts := SumRow(n).terms;
    OnesDot(1, n, p);
    assert ts[1..] == Ones(1, n);
    assert p[1..1 + n] == p[1..];
  }

  /** The sum row holds at p exactly when the distribution part of p sums to one. */
  lemma SumRowHolds(n: nat, p: seq<real>)
    requires |p| == n + 1
    ensures RowFits(SumRow(n), |p|)
    ensures Within(SumRow(n).lo, RowValue(SumRow(n), p), SumRow(n).hi) <==> Sum(p[1..]) == 1.0
  {
    SumRowValue(n, p);
  }

  /** The edge row's value at p is the edge of u under the distribution part of p, minus xi. */
  lemma EdgeRowValue(u: Sparse, p: seq<real>)
    requires InRange(u) && |p| == u.dim + 1
    ensures RowFits(EdgeRow(u), |p|)
    ensures RowValue(EdgeRow(u), p) == DotSD(u, p[1..]) - p[0]
  {
    var ts := EdgeRow(u).terms;
    ShiftRightDot(u.entries, p);
    assert ts[1..] == ShiftRight(u.entries);
  }

  /** The edge row holds at p exactly when u's edge under the distribution part is at most xi. */
  lemma EdgeRowHolds(u: Sparse, p: seq<real>)
    requires InRange(u) && |p| == u.dim + 1
    ensures RowFits(EdgeRow(u), |p|)
    ensures Within(EdgeRow(u).lo, RowValue(EdgeRow(u), p), EdgeRow(u).hi) <==> DotSD(u, p[1..]) <= p[0]
  {
    EdgeRowValue(u, p);
  }

  // ---------------------------------------------------------------- the constructor

  /**
   * The constructor's program for n examples: minimise xi; xi unbounded, each d_i in
   * [0, 1/nu]; the one row making d sum to one.
   */
  function NewLp(n: nat, nu: real): Lp
    requires nu != 0.0
  {
    Lp([1.0] + Zeros(n), [None] + seq(n, _ => Some(0.0)), [None] + seq(n, _ => Some(1.0 / nu)), [SumRow(n)])
  }

  /** The constructor: the uniform distribution, an empty ensemble, the bounds at -1 and 1. */
  function NewLpBoost(n: nat, epsilon: real, nu: real): (b: LpBoost)
    requires nu != 0.0
    ensures b.dist == UniformDistribution(n) && b.model.members == []
    ensures b.gap == NewGap(epsilon) && b.nu == nu
    ensures |b.lp.objective| == n + 1 && b.lp.objective[0] == 1.0
    ensures forall j :: 1 <= j <= n ==> b.lp.objective[j] == 0.0
    ensures b.lp.rows == [SumRow(n)]
  {
    LpBoost(UniformDistribution(n), Ensemble([]), NewGap(epsilon), nu, NewLp(n, nu))
  }

  lemma InverseOrder(a: real, b: real)
    requires 0.0 < a <= b
    ensures 0.0 < 1.0 / b <= 1.0 / a
  {
    assert (1.0 / b) * b == 1.0;
    assert (1.0 / a) * a == 1.0;
    assert (1.0 / b) * a <= (1.0 / b) * b;
  }

  /**
   * The program the constructor sets up has a solution point before any learner
   * arrives: xi at the starting lower bound and d uniform, whenever the uniform
   * weight 1/n does not exceed the cap 1/nu.
   */
  lemma NewLpFeasible(n: nat, epsilon: real, nu: real)
    requires 0.0 < nu <= n as real
    ensures Feasible(NewLpBoost(n, epsilon, nu).lp, [NewLpBoost(n, epsilon, nu).gap.lower] + NewLpBoost(n, epsilon, nu).dist)
  {
    var b := NewLpBoost(n, epsilon, nu);
    var p := [b.gap.lower] + b.dist;
    UniformIsDistribution(n);
    InverseOrder(nu, n as real);
    assert p[1..] == b.dist;
    SumRowHolds(n, p);
    forall j | 0 <= j < |p|
      ensures Within(b.lp.colLo[j], p[j], b.lp.colHi[j])
    {
      if j > 0 {
        assert p[j] == b.dist[j - 1];
      }
    }
  }

  // ---------------------------------------------------------------- the booster's steps

  /** `update_linear_ensemble`: the learner joins (or merges) with weight 1, so the total grows by 1. */
  function UpdateEnsemble(b: LpBoost, l: Learner): (r: LpBoost)
    ensures Sum(Ensembles.Weights(r.model)) == Sum(Ensembles.Weights(b.model)) + 1.0
    ensures |r.model.members| == |b.model.members| + (if Find(b.model.members, l).Some? then 0 else 1)
    ensures Find(b.model.members, l).None? ==> r.model.members == b.model.members + [Weighted(l, 1.0)]
    ensures r.(model := b.model) == b
  {
    AddTotal(b.model, Weighted(l, 1.0));
    b.(model := Add(b.model, Weighted(l, 1.0)).0)
  }

  /** `update_stopping_criterion`: the smallest edge seen takes the learner's edge when it is smaller. */
  function UpdateStopping(b: LpBoost, l: Learner): (r: LpBoost)
    ensures r.gap.upper == (if l.edge < b.gap.upper then l.edge else b.gap.upper)
    ensures r.(gap := b.gap) == b && r.gap.lower == b.gap.lower && r.gap.epsilon == b.gap.epsilon
  {
    b.(gap := Lower(b.gap, l.edge))
  }

  /** `stopping_criterion`. */
  predicate Stop(b: LpBoost)
  {
    Converged(b.gap)
  }

  /** The program with the learner's row added. */
  function WithRow(lp: Lp, u: Sparse): Lp
  {
    lp.(rows := lp.rows + [EdgeRow(u)])
  }

  /**
   * What `update_weights` relies on: the program has one column for xi and one per
   * example, at least as many rows as members, and the solver returns one primal
   * value per column and one dual value per row.
   */
  predicate Solvable(b: LpBoost, sol: LpSolution)
  {
    && |b.lp.objective| == |b.dist| + 1 == |b.lp.colLo| == |b.lp.colHi|
    && |b.model.members| <= |b.lp.rows|
    && |sol.primal| == |b.lp.objective|
    && |sol.duals| == |b.lp.rows| + 1
  }

  /**
   * `update_weights`: add the learner's edge row and solve; the distribution is the
   * primal solution past xi, member i's weight is minus the dual value of row i+1,
   * and xi's solution becomes both the new lower bound on column 0 and the gap's
   * lower bound.  The rows already there, the objective and the upper column bounds
   * do not change.
   */
  function UpdateWeights(b: LpBoost, l: Learner, solve: Lp -> LpSolution): (r: LpBoost)
    requires Solvable(b, solve(WithRow(b.lp, l.prediction)))
    ensures var sol := solve(WithRow(b.lp, l.prediction));
      && r.dist == sol.primal[1..]
      && |Ensembles.Weights(r.model)| == |b.model.members|
      && (forall i :: 0 <= i < |b.model.members| ==> Ensembles.Weights(r.model)[i] == -sol.duals[i + 1])
      && Learners(r.model) == Learners(b.model)
      && r.gap == b.gap.(lower := sol.primal[0])
      && r.lp.rows == b.lp.rows + [EdgeRow(l.prediction)]
      && r.lp.colLo == b.lp.colLo[0 := Some(sol.primal[0])]
      && r.lp.colHi == b.lp.colHi && r.lp.objective == b.lp.objective
      && r.nu == b.nu
  {
    var lp1 := WithRow(b.lp, l.prediction);
    var sol := solve(lp1);
    var wtvec := seq(|b.model.members|, i requires 0 <= i < |b.model.members| => -sol.duals[i + 1]);
    WeightsRoundTrip(b.model, wtvec);
    b.(dist := sol.primal[1..],
       model := SetWeights(b.model, wtvec),
       gap := b.gap.(lower := sol.primal[0]),
       lp := lp1.(colLo := lp1.colLo[0 := Some(sol.primal[0])]))
  }

  // ---------------------------------------------------------------- what the program guarantees

  /**
   * A point of the program over n examples whose first row is the sum row and whose
   * distribution columns lie in [0, 1/nu] is a distribution capped at 1/nu.
   */
  lemma FeasibleIsCapped(lp: Lp, p: seq<real>, n: nat, nu: real)
    requires nu != 0.0 && Feasible(lp, p) && |p| == n + 1
    requires |lp.rows| > 0 && lp.rows[0] == SumRow(n)
    requires forall j :: 1 <= j <= n ==> lp.colLo[j] == Some(0.0) && lp.colHi[j] == Some(1.0 / nu)
    ensures Sum(p[1..]) == 1.0
    ensures forall i :: 0 <= i < n ==> 0.0 <= p[1..][i] <= 1.0 / nu
  {
    SumRowHolds(n, p);
    forall i | 0 <= i < n
      ensures 0.0 <= p[1..][i] <= 1.0 / nu
    {
      assert Within(lp.colLo[i + 1], p[i + 1], lp.colHi[i + 1]);
    }
  }

  /** At a point of the program, every learner with a row has edge at most xi. */
  lemma FeasibleEdgeBelowXi(lp: Lp, p: seq<real>, u: Sparse)
    requires Feasible(lp, p) && EdgeRow(u) in lp.rows
    requires InRange(u) && |p| == u.dim + 1
    ensures DotSD(u, p[1..]) <= p[0]
  {
    var i :| 0 <= i < |lp.rows| && lp.rows[i] == EdgeRow(u);
    EdgeRowHolds(u, p);
  }

  /** The booster's own point: xi at the gap's lower bound, then the distribution. */
  function Point(b: LpBoost): seq<real>
  {
    [b.gap.lower] + b.dist
  }

  /**
   * When the solver returns a point of the program with the new row, the booster's
   * own point after `update_weights` solves the program it keeps: raising xi's lower
   * bound to the solution's xi cuts nothing off that point.
   */
  lemma UpdateWeightsStaysFeasible(b: LpBoost, l: Learner, solve: Lp -> LpSolution)
    requires Solvable(b, solve(WithRow(b.lp, l.prediction)))
    requires Feasible(WithRow(b.lp, l.prediction), solve(WithRow(b.lp, l.prediction)).primal)
    ensures Feasible(UpdateWeights(b, l, solve).lp, Point(UpdateWeights(b, l, solve)))
  {
    var sol := solve(WithRow(b.lp, l.prediction));
    var r := UpdateWeights(b, l, solve);
    assert Point(r) == sol.primal;
  }

  /**
   * LPBoost stops before a learner it has already seen can come back: when the
   * booster's point solves its program, the learner's row is already in it, the
   * learner's edge is measured under the current distribution and epsilon is not
   * negative, the stopping test holds after `update_stopping_criterion`.
   */
  lemma SeenLearnerStops(b: LpBoost, l: Learner)
    requires Feasible(b.lp, Point(b)) && EdgeRow(l.prediction) in b.lp.rows
    requires InRange(l.prediction) && l.prediction.dim == |b.dist|
    requires l.edge == DotSD(l.prediction, b.dist)
    requires b.gap.epsilon >= 0.0
    ensures Stop(UpdateStopping(b, l))
  {
    FeasibleEdgeBelowXi(b.lp, Point(b), l.prediction);
    assert Point(b)[1..] == b.dist;
  }

  /**
   * Rows and members in step: one edge row per member after the sum row, in the
   * members' order.  Member i's weight is then read from its own row's dual value.
   */
  predicate Aligned(b: LpBoost)
  {
    && |b.lp.rows| == |b.model.members| + 1
    && forall i :: 0 <= i < |b.model.members| ==> b.lp.rows[i + 1] == EdgeRow(b.model.members[i].learner.prediction)
  }

  /** The constructor starts in step. */
  lemma NewLpBoostAligned(n: nat, epsilon: real, nu: real)
    requires nu != 0.0
    ensures Aligned(NewLpBoost(n, epsilon, nu))
  {
  }

  /**
   * A new learner keeps rows and members in step: `update_linear_ensemble` appends
   * it and `update_weights` appends its row, so every member's weight is minus the
   * dual value of the row built from that member's prediction.
   */
  lemma NewLearnerKeepsAligned(b: LpBoost, l: Learner, solve: Lp -> LpSolution)
    requires Aligned(b) && Find(b.model.members, l).None?
    requires Solvable(UpdateEnsemble(b, l), solve(WithRow(b.lp, l.prediction)))
    ensures Aligned(UpdateWeights(UpdateEnsemble(b, l), l, solve))
    ensures var r := UpdateWeights(UpdateEnsemble(b, l), l, solve);
      forall i :: 0 <= i < |r.model.members| ==>
        r.lp.rows[i + 1] == EdgeRow(r.model.members[i].learner.prediction)
        && r.model.members[i].weight == -solve(WithRow(b.lp, l.prediction)).duals[i + 1]
  {
    var b1 := UpdateEnsemble(b, l);
    var r := UpdateWeights(b1, l, solve);
    assert b1.lp == b.lp;
    forall i | 0 <= i < |r.model.members|
      ensures r.lp.rows[i + 1] == EdgeRow(r.model.members[i].learner.prediction)
      ensures r.model.members[i].weight == -solve(WithRow(b.lp, l.prediction)).duals[i + 1]
    {
      assert Learners(r.model)[i] == Learners(b1.model)[i];
      assert Ensembles.Weights(r.model)[i] == r.model.members[i].weight;
    }
  }

  /**
   * The members merge only after the stop: when predictions follow the learners'
   * equality (an equal learner predicts the same), rows and members are in step, the
   * booster's point solves its program and edges are measured exactly, a learner
   * that `update_linear_ensemble` would merge already makes the stopping test hold.
   * So in the loop the rows never run ahead of the members.
   */
  lemma MergeOnlyAfterStop(b: LpBoost, l: Learner)
    requires Aligned(b) && Feasible(b.lp, Point(b))
    requires forall i :: 0 <= i < |b.model.members| && Equal(b.model.members[i].learner, l) ==>
      b.model.members[i].learner.prediction == l.prediction
    requires InRange(l.prediction) && l.prediction.dim == |b.dist|
    requires l.edge == DotSD(l.prediction, b.dist) && b.gap.epsilon >= 0.0
    requires Find(b.model.members, l).Some?
    ensures Stop(UpdateStopping(b, l))
  {
    var k := Find(b.model.members, l).value;
    MemberHasRow(b, k);
    SeenLearnerStops(b, l);
  }

  /** With rows and members in step, member k's prediction has its row. */
  lemma MemberHasRow(b: LpBoost, k: nat)
    requires Aligned(b) && k < |b.model.members|
    ensures EdgeRow(b.model.members[k].learner.prediction) in b.lp.rows
  {
    assert b.lp.rows[k + 1] == EdgeRow(b.model.members[k].learner.prediction);
  }
}
