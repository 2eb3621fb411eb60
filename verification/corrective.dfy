/**
 * CorrectiveBoost (src/boosters/CorrectiveBoost.cpp): the booster that takes one
 * corrective step per iteration.  The ensemble's weights shrink by 1 − alpha and
 * the new learner joins with alpha; UW, the weighted sum of the members'
 * predictions, moves the same way towards the new prediction.
 *
 * The relative entropy the stopping bound adds is supplied already divided by eta,
 * and the distribution update is modelled up to its exponents: the exponentials,
 * the projection onto the capped simplex and its logarithms are not modelled.
 */
module Corrective {
  import opened Results
  import opened Seqs
  import opened Vectors
  import opened LinAlg
  import opened WeakLearners
  import opened Ensembles
  import opened Boosting
  import Optimizers

  datatype Corrective = Corrective(
    dist: Dense, model: Ensemble, gap: Gap, nu: real, eta: real, linesearch: bool, uw: Dense)

  /** The constructors: uniform distribution, empty ensemble, bounds -1 and 1, and an empty UW. */
  function NewCorrective(n: nat, epsilon: real, nu: real, eta: real, linesearch: bool): (c: Corrective)
    ensures c.dist == UniformDistribution(n) && c.model.members == [] && c.uw == []
    ensures c.gap == NewGap(epsilon) && c.nu == nu && c.eta == eta && c.linesearch == linesearch
  {
    Corrective(UniformDistribution(n), Ensemble([]), NewGap(epsilon), nu, eta, linesearch, [])
  }

  /** `update_stopping_criterion`: std::min of the edge plus the entropy term and the smallest value seen. */
  function UpdateStopping(c: Corrective, l: Learner, entropyTerm: real): (r: Corrective)
    ensures r.gap == Lower(c.gap, l.edge + entropyTerm)
    ensures r.(gap := c.gap) == c
  {
    c.(gap := Lower(c.gap, l.edge + entropyTerm))
  }

  /** `stopping_criterion`. */
  predicate Stop(c: Corrective)
  {
    Converged(c.gap)
  }

  // ---------------------------------------------------------------- the corrective step

  /** The prediction has one value per example, and UW is empty or of the same size. */
  predicate StepFits(c: Corrective, u: Sparse)
  {
    InRange(u) && |c.dist| == u.dim && (|c.uw| == 0 || |c.uw| == u.dim)
  }

  /** `x`: the prediction written densely, less UW once UW has entries. */
  function Direction(c: Corrective, u: Sparse): (x: Dense)
    requires StepFits(c, u)
    ensures |x| == u.dim
    ensures forall i :: 0 <= i < u.dim ==>
      x[i] == Optimizers.DenseColumn(u)[i] - (if |c.uw| > 0 then c.uw[i] else 0.0)
  {
    var ut := Optimizers.DenseColumn(u);
    if |c.uw| > 0 then seq(u.dim, i requires 0 <= i < u.dim => ut[i] - c.uw[i]) else ut
  }

  /**
   * alpha = max(0, min(1, dx/eta/denom)) with dx = dist·x and denom = max(x)².
   * Over the reals, dividing by eta and then by denom is dividing by eta·max(x)²,
   * and with a zero eta or maximum the IEEE outcomes agree as well, so the step is
   * the optimizer's `Alpha`.  The line search flag is ignored, as in the source.
   */
  function StepLength(c: Corrective, u: Sparse): (a: real)
    requires StepFits(c, u)
    ensures 0.0 <= a <= 1.0
  {
    var x := Direction(c, u);
    Optimizers.Alpha(DotDD(c.dist, x), c.eta, Max(x))
  }

  /** UW after the step: alpha times the new prediction ut, plus (1 − alpha)·UW once UW has entries. */
  function NextUw(uw: Dense, ut: Dense, a: real): (w: Dense)
    requires |uw| == 0 || |uw| == |ut|
    ensures |w| == |ut|
  {
    if |uw| == 0 then ScaleAll(ut, a) else Axpy(a, ut, ScaleAll(uw, Keep(a)))
  }

  /** The factor the old weights keep: 1 − a. */
  function Keep(a: real): real
  {
    1.0 - a
  }

  /** The ensemble after `scale_weights(1 − a)` and `add` of the learner with weight a. */
  function Shifted(e: Ensemble, l: Learner, a: real): Ensemble
  {
    Add(ScaleWeights(e, Keep(a)), Weighted(l, a)).0
  }

  /** A total that became (1 − a)·before + a. */
  predicate ShrunkTotal(after: real, before: real, a: real)
  {
    after == Keep(a) * before + a
  }

  /** The total weight of the shifted ensemble is (1 − a)·total + a. */
  lemma ShiftedTotal(e: Ensemble, l: Learner, a: real)
    ensures ShrunkTotal(Sum(Ensembles.Weights(Shifted(e, l, a))), Sum(Ensembles.Weights(e)), a)
  {
    ScaledTotal(e, Keep(a));
    AddAfterScaling(e, ScaleWeights(e, Keep(a)), Weighted(l, a), a);
  }

  lemma ScaledTotal(e: Ensemble, s: real)
    ensures Sum(Ensembles.Weights(ScaleWeights(e, s))) == s * Sum(Ensembles.Weights(e))
  {
    ScaleWeightsEffect(e, s);
  }

  /** Adding a member of weight a to an ensemble whose total is (1 − a)·t gives (1 − a)·t + a. */
  lemma AddAfterScaling(e: Ensemble, sm: Ensemble, w: Weighted, a: real)
    requires w.weight == a && Sum(Ensembles.Weights(sm)) == Keep(a) * Sum(Ensembles.Weights(e))
    ensures ShrunkTotal(Sum(Ensembles.Weights(Add(sm, w).0)), Sum(Ensembles.Weights(e)), a)
  {
    AddTotal(sm, w);
  }

  /** Merging into the equal member k: the same learners, weight k raised by a after the scaling. */
  lemma MergedOutcome(e: Ensemble, l: Learner, a: real, k: nat)
    requires Find(ScaleWeights(e, Keep(a)).members, l) == Some(k)
    ensures k < |e.members| && Equal(e.members[k].learner, l)
    ensures Learners(Shifted(e, l, a)) == Learners(e)
    ensures Ensembles.Weights(Shifted(e, l, a))
         == ScaleAll(Ensembles.Weights(e), Keep(a))[k := ScaleAll(Ensembles.Weights(e), Keep(a))[k] + a]
  {
    MergedAt(e, l, a, k);
    BumpedScaled(e, a, k, Shifted(e, l, a));
  }

  /** The first equal member is k, and the learner merges into it. */
  lemma MergedAt(e: Ensemble, l: Learner, a: real, k: nat)
    requires Find(ScaleWeights(e, Keep(a)).members, l) == Some(k)
    ensures k < |e.members| && Equal(e.members[k].learner, l)
    ensures Shifted(e, l, a) == AddWeightAt(ScaleWeights(e, Keep(a)), a, k)
  {
    assert ScaleWeights(e, Keep(a)).members[k].learner == e.members[k].learner;
  }

  /** The scaled ensemble with weight k raised by a. */
  lemma BumpedScaled(e: Ensemble, a: real, k: nat, r: Ensemble)
    requires k < |e.members| && r == AddWeightAt(ScaleWeights(e, Keep(a)), a, k)
    ensures Learners(r) == Learners(e)
    ensures Ensembles.Weights(r) == ScaleAll(Ensembles.Weights(e), Keep(a))[k := ScaleAll(Ensembles.Weights(e), Keep(a))[k] + a]
  {
    var sm := ScaleWeights(e, Keep(a));
    ScaledParts(e, Keep(a));
    Bumped(r, sm, ScaleAll(Ensembles.Weights(e), Keep(a)), Learners(e), k, a);
  }

  /** `scale_weights` keeps the learners and scales each weight. */
  lemma ScaledParts(e: Ensemble, s: real)
    ensures Learners(ScaleWeights(e, s)) == Learners(e)
    ensures Ensembles.Weights(ScaleWeights(e, s)) == ScaleAll(Ensembles.Weights(e), s)
  {
    ScaleWeightsEffect(e, s);
  }

  /** An ensemble that is sm with weight k raised by a: the weights ws so raised, the same learners. */
  lemma Bumped(r: Ensemble, sm: Ensemble, ws: seq<real>, ls: seq<Learner>, k: nat, a: real)
    requires k < |sm.members| && r == AddWeightAt(sm, a, k)
    requires Ensembles.Weights(sm) == ws && Learners(sm) == ls
    ensures Ensembles.Weights(r) == ws[k := ws[k] + a] && Learners(r) == ls
  {
    WeightAtEffect(sm, a, k);
  }

  /** No equal member: the learner is appended with weight a after the scaling. */
  lemma AppendedOutcome(e: Ensemble, l: Learner, a: real)
    requires Find(ScaleWeights(e, Keep(a)).members, l).None?
    ensures Learners(Shifted(e, l, a)) == Learners(e) + [l]
    ensures Ensembles.Weights(Shifted(e, l, a)) == ScaleAll(Ensembles.Weights(e), Keep(a)) + [a]
  {
    var sm := ScaleWeights(e, Keep(a));
    ScaledParts(e, Keep(a));
    var r := Shifted(e, l, a);
    assert r.members == sm.members + [Weighted(l, a)];
    assert Learners(r) == Learners(sm) + [l];
    assert Ensembles.Weights(r) == Ensembles.Weights(sm) + [a];
  }

  /** The step with a given alpha: scale every weight by 1 − a, add the learner with weight a, move UW. */
  function Step(c: Corrective, l: Learner, a: real): (r: Corrective)
    requires StepFits(c, l.prediction)
    ensures ShrunkTotal(Sum(Ensembles.Weights(r.model)), Sum(Ensembles.Weights(c.model)), a)
    ensures r.uw == NextUw(c.uw, Optimizers.DenseColumn(l.prediction), a)
    ensures r.(model := c.model, uw := c.uw) == c
  {
    ShiftedTotal(c.model, l, a);
    c.(model := Shifted(c.model, l, a), uw := NextUw(c.uw, Optimizers.DenseColumn(l.prediction), a))
  }

  /**
   * `update_linear_ensemble`: every weight is scaled by 1 − alpha, the learner is
   * added with weight alpha (merging with an equal member), and UW moves to
   * (1 − alpha)·UW + alpha·prediction.  The total weight becomes
   * (1 − alpha)·total + alpha; nothing but the ensemble and UW changes.
   */
  function UpdateEnsemble(c: Corrective, l: Learner): (r: Corrective)
    requires StepFits(c, l.prediction)
    ensures var a := StepLength(c, l.prediction);
      && ShrunkTotal(Sum(Ensembles.Weights(r.model)), Sum(Ensembles.Weights(c.model)), a)
      && r.uw == NextUw(c.uw, Optimizers.DenseColumn(l.prediction), a)
    ensures r.(model := c.model, uw := c.uw) == c
  {
    Step(c, l, StepLength(c, l.prediction))
  }

  // ---------------------------------------------------------------- UW is the mixture

  /** Every learner's prediction has d in-range entries. */
  predicate Predicts(ls: seq<Learner>, d: nat)
  {
    forall k :: 0 <= k < |ls| ==> ls[k].prediction.dim == d && InRange(ls[k].prediction)
  }

  /** The learners' predictions, written densely. */
  function Columns(ls: seq<Learner>, d: nat): (cols: seq<Dense>)
    requires Predicts(ls, d)
    ensures |cols| == |ls| && Optimizers.ColumnsOfDim(cols, d)
    ensures forall k :: 0 <= k < |ls| ==> cols[k] == Optimizers.DenseColumn(ls[k].prediction)
  {
    seq(|ls|, k requires 0 <= k < |ls| => Optimizers.DenseColumn(ls[k].prediction))
  }

  lemma ColumnsAppend(ls: seq<Learner>, l: Learner, d: nat)
    requires Predicts(ls, d) && l.prediction.dim == d && InRange(l.prediction)
    ensures Predicts(ls + [l], d)
    ensures Columns(ls + [l], d) == Columns(ls, d) + [Optimizers.DenseColumn(l.prediction)]
  {
    assert forall k :: 0 <= k < |ls| ==> (ls + [l])[k] == ls[k];
  }

  /**
   * UW is the ensemble's weighted sum of its members' predictions (still empty
   * before the first learner).
   */
  predicate Mixture(c: Corrective, d: nat)
  {
    && Predicts(Learners(c.model), d)
    && (if |c.model.members| == 0 then c.uw == []
        else c.uw == Optimizers.Mix(Columns(Learners(c.model), d), Ensembles.Weights(c.model), d))
  }

  /**
   * Members equal to the learner predict what it predicts: `operator==` compares the
   * learners' parameters, and the oracle computes a prediction from them on the
   * same training data.
   */
  predicate Consistent(ms: seq<Weighted>, l: Learner)
  {
    forall k :: 0 <= k < |ms| && Equal(ms[k].learner, l) ==> ms[k].learner.prediction == l.prediction
  }

  /** Adding a to weight k of the mixture adds a times column k. */
  lemma {:induction false} MixBump(cols: seq<Dense>, w: Dense, d: nat, k: nat, a: real)
    requires |cols| == |w| && Optimizers.ColumnsOfDim(cols, d) && k < |w|
    ensures Optimizers.Mix(cols, w[k := w[k] + a], d) == Axpy(a, cols[k], Optimizers.Mix(cols, w, d))
    decreases |cols|
  {
    var n := |cols| - 1;
    var w' := w[k := w[k] + a];
    Optimizers.DenseRowsOfDim(cols, d);
    assert Optimizers.DenseRows(cols)[..n] == Optimizers.DenseRows(cols[..n]);
    var lhs := Optimizers.Mix(cols, w', d);
    var rhs := Axpy(a, cols[k], Optimizers.Mix(cols, w, d));
    var prev := Optimizers.Mix(cols[..n], w[..n], d);
    if k == n {
      assert w'[..n] == w[..n];
      forall j | 0 <= j < d
        ensures lhs[j] == rhs[j]
      {
        Distrib(cols[n][j], w[n], a);
      }
    } else {
      assert w'[..n] == w[..n][k := w[k] + a];
      MixBump(cols[..n], w[..n], d, k, a);
      forall j | 0 <= j < d
        ensures lhs[j] == rhs[j]
      {
      }
    }
  }

  /** A new member: the mixture gains alpha times its column on top of the scaled mixture. */
  lemma AppendMixes(cols: seq<Dense>, w: Dense, d: nat, col: Dense, a: real)
    requires |cols| == |w| && Optimizers.ColumnsOfDim(cols, d) && |col| == d
    ensures Optimizers.ColumnsOfDim(cols + [col], d)
    ensures Optimizers.Mix(cols + [col], ScaleAll(w, Keep(a)) + [a], d)
         == Axpy(a, col, ScaleAll(Optimizers.Mix(cols, w, d), Keep(a)))
  {
    Optimizers.MixAppend(cols, ScaleAll(w, Keep(a)), d, col, a);
    Optimizers.MixScale(cols, w, d, Keep(a));
  }

  /** A merged member: the mixture gains alpha times the merged member's column. */
  lemma MergeMixes(cols: seq<Dense>, w: Dense, d: nat, k: nat, a: real)
    requires |cols| == |w| && Optimizers.ColumnsOfDim(cols, d) && k < |w|
    ensures Optimizers.Mix(cols, ScaleAll(w, Keep(a))[k := ScaleAll(w, Keep(a))[k] + a], d)
         == Axpy(a, cols[k], ScaleAll(Optimizers.Mix(cols, w, d), Keep(a)))
  {
    MixBump(cols, ScaleAll(w, Keep(a)), d, k, a);
    Optimizers.MixScale(cols, w, d, Keep(a));
  }

  /** The first learner: the mixture of the one column with weight alpha is alpha times it. */
  lemma FirstMixes(col: Dense, d: nat, a: real)
    requires |col| == d
    ensures Optimizers.ColumnsOfDim([col], d)
    ensures Optimizers.Mix([col], [a], d) == ScaleAll(col, a)
  {
    Optimizers.MixAppend([], [], d, col, a);
    assert [] + [col] == [col] && [] + [a] == [a];
  }

  /**
   * UW stays the weighted sum of the members' predictions through every corrective
   * step: the scaling of the weights and the merge-or-append of `add` move the
   * mixture exactly as the UW update does.
   */
  lemma UpdateEnsembleMixes(c: Corrective, l: Learner)
    requires StepFits(c, l.prediction) && Mixture(c, l.prediction.dim)
    requires Consistent(c.model.members, l)
    ensures Mixture(UpdateEnsemble(c, l), l.prediction.dim)
  {
    var a := StepLength(c, l.prediction);
    if Find(ScaleWeights(c.model, Keep(a)).members, l).Some? {
      var k := Find(ScaleWeights(c.model, Keep(a)).members, l).value;
      MergedOutcome(c.model, l, a, k);
      StepMergeMixes(c, l, a, k);
    } else {
      StepAppendMixes(c, l, a);
    }
  }

  lemma StepMergeMixes(c: Corrective, l: Learner, a: real, k: nat)
    requires StepFits(c, l.prediction)
    requires k < |c.model.members| && c.model.members[k].learner.prediction == l.prediction
    requires Predicts(Learners(c.model), l.prediction.dim)
    requires c.uw == Optimizers.Mix(Columns(Learners(c.model), l.prediction.dim), Ensembles.Weights(c.model), l.prediction.dim)
    requires Find(ScaleWeights(c.model, Keep(a)).members, l) == Some(k)
    ensures Mixture(Step(c, l, a), l.prediction.dim)
  {
    MergedStepUw(c, l, a, k);
    MixtureOfMerge(c, l, a, k);
  }

  /** UW after the step moves as the mixture does when weight k is raised. */
  lemma MergedStepUw(c: Corrective, l: Learner, a: real, k: nat)
    requires StepFits(c, l.prediction)
    requires k < |c.model.members| && c.model.members[k].learner.prediction == l.prediction
    requires Predicts(Learners(c.model), l.prediction.dim)
    requires c.uw == Optimizers.Mix(Columns(Learners(c.model), l.prediction.dim), Ensembles.Weights(c.model), l.prediction.dim)
    ensures NextUw(c.uw, Optimizers.DenseColumn(l.prediction), a)
          == Optimizers.Mix(Columns(Learners(c.model), l.prediction.dim),
               ScaleAll(Ensembles.Weights(c.model), Keep(a))[k := ScaleAll(Ensembles.Weights(c.model), Keep(a))[k] + a],
               l.prediction.dim)
  {
    assert Columns(Learners(c.model), l.prediction.dim)[k] == Optimizers.DenseColumn(l.prediction);
    MergedUw(c.uw, Columns(Learners(c.model), l.prediction.dim), Ensembles.Weights(c.model), l.prediction.dim, k, a,
      Optimizers.DenseColumn(l.prediction));
  }

  /** Once UW has moved as the mixture with weight k raised does, the merged step keeps the mixture. */
  lemma MixtureOfMerge(c: Corrective, l: Learner, a: real, k: nat)
    requires StepFits(c, l.prediction) && Predicts(Learners(c.model), l.prediction.dim)
    requires Find(ScaleWeights(c.model, Keep(a)).members, l) == Some(k)
    requires NextUw(c.uw, Optimizers.DenseColumn(l.prediction), a)
          == Optimizers.Mix(Columns(Learners(c.model), l.prediction.dim),
               ScaleAll(Ensembles.Weights(c.model), Keep(a))[k := ScaleAll(Ensembles.Weights(c.model), Keep(a))[k] + a],
               l.prediction.dim)
    ensures Mixture(Step(c, l, a), l.prediction.dim)
  {
    MergedOutcome(c.model, l, a, k);
  }

  /** The UW update after a merge into member k is the mixture with weight k raised. */
  lemma MergedUw(uw: Dense, cols: seq<Dense>, w: Dense, d: nat, k: nat, a: real, col: Dense)
    requires |cols| == |w| && Optimizers.ColumnsOfDim(cols, d) && k < |w| && cols[k] == col
    requires uw == Optimizers.Mix(cols, w, d)
    ensures NextUw(uw, col, a) == Optimizers.Mix(cols, ScaleAll(w, Keep(a))[k := ScaleAll(w, Keep(a))[k] + a], d)
  {
    MergeMixes(cols, w, d, k, a);
    if d == 0 {
      assert NextUw(uw, cols[k], a) == [];
    }
  }

  lemma StepAppendMixes(c: Corrective, l: Learner, a: real)
    requires StepFits(c, l.prediction) && Mixture(c, l.prediction.dim)
    requires Find(ScaleWeights(c.model, Keep(a)).members, l).None?
    ensures Mixture(Step(c, l, a), l.prediction.dim)
  {
    var d := l.prediction.dim;
    var ut := Optimizers.DenseColumn(l.prediction);
    AppendedOutcome(c.model, l, a);
    var ls := Learners(c.model);
    ColumnsAppend(ls, l, d);
    var cols := Columns(ls, d);
    var r := Step(c, l, a);
    assert Learners(r.model) == ls + [l];
    if |c.model.members| == 0 {
      assert cols == [] && ScaleAll(Ensembles.Weights(c.model), Keep(a)) == [];
      assert ls + [l] == [l];
      FirstMixes(ut, d, a);
    } else {
      AppendMixes(cols, Ensembles.Weights(c.model), d, ut, a);
      if d > 0 {
        assert r.uw == Axpy(a, ut, ScaleAll(c.uw, Keep(a)));
      }
    }
  }

  // ---------------------------------------------------------------- the weights stay sub-stochastic

  /** Non-negative weights summing to at most one. */
  predicate SubStochastic(w: seq<real>)
  {
    Sum(w) <= 1.0 && forall i :: 0 <= i < |w| ==> 0.0 <= w[i]
  }

  lemma ShrinkTowardsOne(t: real, s: real, a: real)
    requires ShrunkTotal(t, s, a) && s <= 1.0 && 0.0 <= a <= 1.0
    ensures t <= 1.0
  {
    assert Keep(a) * s <= Keep(a) * 1.0;
  }

  lemma ScaledNonNegative(w: seq<real>, s: real)
    requires s >= 0.0 && forall i :: 0 <= i < |w| ==> 0.0 <= w[i]
    ensures forall i :: 0 <= i < |w| ==> 0.0 <= ScaleAll(w, s)[i]
  {
    forall i | 0 <= i < |w|
      ensures 0.0 <= ScaleAll(w, s)[i]
    {
      assert ScaleAll(w, s)[i] == s * w[i];
    }
  }

  /**
   * The weights stay non-negative with a total of at most one: starting from the
   * empty ensemble, the first step leaves total alpha and every later step
   * (1 − alpha)·total + alpha.
   */
  lemma UpdateEnsembleSubStochastic(c: Corrective, l: Learner)
    requires StepFits(c, l.prediction) && SubStochastic(Ensembles.Weights(c.model))
    ensures SubStochastic(Ensembles.Weights(UpdateEnsemble(c, l).model))
  {
    ShiftedSubStochastic(c.model, l, StepLength(c, l.prediction));
  }

  lemma ShiftedSubStochastic(e: Ensemble, l: Learner, a: real)
    requires SubStochastic(Ensembles.Weights(e)) && 0.0 <= a <= 1.0
    ensures SubStochastic(Ensembles.Weights(Shifted(e, l, a)))
  {
    ShiftedTotal(e, l, a);
    ShrinkTowardsOne(Sum(Ensembles.Weights(Shifted(e, l, a))), Sum(Ensembles.Weights(e)), a);
    ShiftedNonNegative(e, l, a);
  }

  lemma ShiftedNonNegative(e: Ensemble, l: Learner, a: real)
    requires 0.0 <= a <= 1.0 && forall i :: 0 <= i < |e.members| ==> 0.0 <= Ensembles.Weights(e)[i]
    ensures forall i :: 0 <= i < |Shifted(e, l, a).members| ==> 0.0 <= Ensembles.Weights(Shifted(e, l, a))[i]
  {
    var w := Ensembles.Weights(e);
    ScaledNonNegative(w, Keep(a));
    var f := Find(ScaleWeights(e, Keep(a)).members, l);
    if f.Some? {
      MergedOutcome(e, l, a, f.value);
    } else {
      AppendedOutcome(e, l, a);
      var ws := Ensembles.Weights(Shifted(e, l, a));
      assert forall i :: 0 <= i < |w| ==> ws[i] == ScaleAll(w, Keep(a))[i];
    }
  }

  // ---------------------------------------------------------------- the distribution's exponents

  /**
   * The first loop of the distribution update: the exponents -eta·UW[i] and their
   * running maximum, started at 0; the second loop exponentiates them shifted down
   * by that maximum.  The shifted exponents are never positive, so no exponential
   * exceeds 1, and one of them is 0 unless the maximum stayed at 0.
   */
  function Exponents(uw: Dense, eta: real, n: nat): (r: (Dense, real))
    requires |uw| >= n
    ensures |r.0| == n && r.1 >= 0.0
    ensures forall i :: 0 <= i < n ==> r.0[i] <= 0.0 && r.0[i] + r.1 == -eta * uw[i]
    ensures r.1 == 0.0 || exists i :: 0 <= i < n && r.0[i] == 0.0
  {
    var e := seq(n, i requires 0 <= i < n => -eta * uw[i]);
    var m := ScanMax(e, 0.0);
    (seq(n, i requires 0 <= i < n => e[i] - m), m)
  }
}
