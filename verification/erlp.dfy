/**
 * ERLPBoost (src/boosters/ErlpBoost.cpp): the totally corrective booster that hands
 * every new learner's prediction to an optimizer and reads the ensemble's weights
 * and the distribution back from it.
 *
 * The optimizer's `solve` is a parameter: a function from the optimizer to its
 * return code, its state after solving, and the distribution it writes through the
 * `shared_ptr` it shares with the booster.  The relative entropies the stopping bound
 * adds are supplied already divided by eta, since logarithms are not modelled.
 */
module Erlp {
  import opened Results
  import opened Seqs
  import opened Vectors
  import opened WeakLearners
  import opened Ensembles
  import opened Boosting
  import Optimizers

  datatype Erlp = Erlp(
    dist: Dense, model: Ensemble, gap: Gap, nu: real, eta: real, binary: bool,
    wasIn: bool, solver: Optimizers.Optimizer)

  /** relative_entropy(d)/eta and binary_relative_entropy(d, nu)/eta. */
  datatype Entropies = Entropies(plain: real, binary: real)

  /** What `solve` returns, the state it leaves the optimizer in, and the distribution it writes. */
  datatype Solved = Solved(info: int, solver: Optimizers.Optimizer, dist: Dense)

  /**
   * The constructors: the uniform distribution, an empty ensemble, the bounds at -1
   * and 1, no learner seen, and the given optimizer (eta either given or
   * `DefaultEta`).
   */
  function NewErlp(n: nat, epsilon: real, nu: real, eta: real, binary: bool, solver: Optimizers.Optimizer): (b: Erlp)
    ensures b.dist == UniformDistribution(n) && b.model.members == []
    ensures b.gap == NewGap(epsilon) && !b.wasIn && b.solver == solver
    ensures b.nu == nu && b.eta == eta && b.binary == binary
  {
    Erlp(UniformDistribution(n), Ensemble([]), NewGap(epsilon), nu, eta, binary, false, solver)
  }

  /**
   * `update_stopping_criterion`: gamma is the learner's edge plus the relative
   * entropy term of the variant in use; the smallest value seen takes it when it is
   * smaller.
   */
  function UpdateStopping(b: Erlp, l: Learner, ent: Entropies): (r: Erlp)
    ensures r.gap == Lower(b.gap, l.edge + (if b.binary then ent.binary else ent.plain))
    ensures r.(gap := b.gap) == b
  {
    b.(gap := Lower(b.gap, l.edge + (if b.binary then ent.binary else ent.plain)))
  }

  /** `stopping_criterion`. */
  predicate Stop(b: Erlp)
  {
    Converged(b.gap)
  }

  /**
   * `update_linear_ensemble`: the learner joins with weight 0 and the booster
   * remembers whether it merged with an equal member.  The ensemble's total weight
   * does not change.
   */
  function UpdateEnsemble(b: Erlp, l: Learner): (r: Erlp)
    ensures r.wasIn <==> exists k :: 0 <= k < |b.model.members| && Equal(b.model.members[k].learner, l)
    ensures |r.model.members| == |b.model.members| + (if r.wasIn then 0 else 1)
    ensures Sum(Ensembles.Weights(r.model)) == Sum(Ensembles.Weights(b.model))
    ensures r.(model := b.model, wasIn := b.wasIn) == b
  {
    var (m, was) := Add(b.model, Weighted(l, 0.0));
    AddTotal(b.model, Weighted(l, 0.0));
    b.(model := m, wasIn := was)
  }

  /**
   * A weight-0 member changes no prediction: with members of the learner's kind,
   * the ensemble predicts every example as before.
   */
  lemma UpdateEnsembleKeepsPrediction(b: Erlp, l: Learner, x: Dense)
    requires Fits(b.model, |x|) && l.wt.dim == |x| && InRange(l.wt)
    requires OneKind(b.model.members, l.Linear?)
    ensures Ensembles.PredictDense(UpdateEnsemble(b, l).model, x) == Ensembles.PredictDense(b.model, x)
  {
    AddPredict(b.model, Weighted(l, 0.0), x);
  }

  /** The ensemble and the optimizer agree: one optimizer weight per member. */
  predicate Synced(b: Erlp)
  {
    Optimizers.Layout(b.solver) && |b.model.members| == b.solver.numWl
  }

  /** Between `update_linear_ensemble` and the distribution update: a new member
      still waits for its optimizer column. */
  predicate Added(b: Erlp)
  {
    Optimizers.Layout(b.solver) && |b.model.members| == b.solver.numWl + (if b.wasIn then 0 else 1)
  }

  /** The learner's prediction fits the optimizer when it has to be pushed. */
  predicate PushOk(b: Erlp, l: Learner)
  {
    b.wasIn || Optimizers.PushFits(b.solver, l.prediction, b.dist)
  }

  /** The optimizer before `solve`: the prediction is pushed only for a new member. */
  function Pushed(b: Erlp, l: Learner): (o: Optimizers.Optimizer)
    requires PushOk(b, l)
    ensures b.wasIn ==> o == b.solver
    ensures !b.wasIn ==> o == Optimizers.PushBack(b.solver, l.prediction, b.dist)
  {
    if b.wasIn then b.solver else Optimizers.PushBack(b.solver, l.prediction, b.dist)
  }

  /** The optimizer solved from o keeps its layout and its number of learners. */
  predicate SolvesInPlace(o: Optimizers.Optimizer, out: Solved)
  {
    Optimizers.Layout(out.solver) && out.solver.numWl == o.numWl
  }

  /**
   * `update_examples_distribution`: push a new learner, solve, and fail with a
   * runtime error on a nonzero return code; otherwise the members take the
   * optimizer's weights (the first entries of its x), the distribution is the one
   * the optimizer wrote, and the lower bound is minus the dual objective.  The
   * ensemble and the optimizer are in step again afterwards.
   */
  function UpdateDistribution(b: Erlp, l: Learner, solve: Optimizers.Optimizer -> Solved): (r: Result<Erlp>)
    requires Added(b) && PushOk(b, l)
    requires SolvesInPlace(Pushed(b, l), solve(Pushed(b, l)))
    ensures r.Err? <==> solve(Pushed(b, l)).info != 0
    ensures r.Err? ==> r.error.RuntimeError?
    ensures r.Ok? ==> Synced(r.value)
    ensures r.Ok? ==> Ensembles.Weights(r.value.model) == Optimizers.Weights(solve(Pushed(b, l)).solver)
    ensures r.Ok? ==> Learners(r.value.model) == Learners(b.model)
    ensures r.Ok? ==> r.value.gap.lower == -solve(Pushed(b, l)).solver.dualObj
    ensures r.Ok? ==> r.value.gap.upper == b.gap.upper && r.value.gap.epsilon == b.gap.epsilon
    ensures r.Ok? ==> r.value.dist == solve(Pushed(b, l)).dist && r.value.solver == solve(Pushed(b, l)).solver
  {
    var out := solve(Pushed(b, l));
    if out.info != 0 then Err(RuntimeError("Something went wrong inside the solver... sorry."))
    else
      var x := out.solver.x;
      WeightsRoundTrip(b.model, x);
      assert x[..|b.model.members|] == Optimizers.Weights(out.solver);
      Ok(b.(model := SetWeights(b.model, x), solver := out.solver, dist := out.dist,
            gap := b.gap.(lower := -out.solver.dualObj)))
  }

  /**
   * The learner reaches the optimizer exactly when it became a new member: from an
   * ensemble in step with the optimizer, `update_linear_ensemble` leaves one member
   * waiting precisely when the learner was new, and the push then brings the two
   * back into step.
   */
  lemma UpdateEnsembleThenPush(b: Erlp, l: Learner)
    requires Synced(b) && PushOk(UpdateEnsemble(b, l), l)
    ensures Added(UpdateEnsemble(b, l))
    ensures Pushed(UpdateEnsemble(b, l), l).numWl == |UpdateEnsemble(b, l).model.members|
    ensures Optimizers.Layout(Pushed(UpdateEnsemble(b, l), l))
  {
  }

  /**
   * One iteration past the stopping test, from an ensemble in step with the
   * optimizer, ends with the two in step again (or with the solver's error), the
   * optimizer holding one column per member.
   */
  lemma IterationStaysSynced(b: Erlp, l: Learner, solve: Optimizers.Optimizer -> Solved)
    requires Synced(b) && PushOk(UpdateEnsemble(b, l), l)
    requires SolvesInPlace(Pushed(UpdateEnsemble(b, l), l), solve(Pushed(UpdateEnsemble(b, l), l)))
    ensures UpdateDistribution(UpdateEnsemble(b, l), l, solve).Ok? ==>
      Synced(UpdateDistribution(UpdateEnsemble(b, l), l, solve).value)
    ensures UpdateDistribution(UpdateEnsemble(b, l), l, solve).Ok? ==>
      |UpdateDistribution(UpdateEnsemble(b, l), l, solve).value.model.members|
        == |b.model.members| + (if UpdateEnsemble(b, l).wasIn then 0 else 1)
  {
    UpdateEnsembleThenPush(b, l);
  }
}
