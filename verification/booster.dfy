/**
 * What every booster shares (src/boosters/AbstractBooster.cpp): the uniform
 * starting distribution, the boosting loop, and the duality-gap bookkeeping that
 * ERLPBoost, CorrectiveBoost and LPBoost keep alike.
 *
 * The loop calls four hooks a concrete booster supplies; they are parameters here,
 * together with the oracle, which maps the booster's state (its distribution) to
 * the weak learner of maximum edge.  The log stream and the timer are not part of
 * the loop's model.
 */
module Boosting {
  import opened Results
  import opened Seqs
  import opened Vectors
  import opened WeakLearners

  // ---------------------------------------------------------------- the uniform start

  /** Both constructors start from 1/n on each of the n examples. */
  function UniformDistribution(n: nat): (d: Dense)
    ensures |d| == n
    ensures forall i :: 0 <= i < n ==> d[i] == 1.0 / (n as real)
  {
    seq(n, i requires 0 <= i < n => 1.0 / (n as real))
  }

  lemma {:induction false} SumConstant(s: Dense, c: real)
    requires forall i :: 0 <= i < |s| ==> s[i] == c
    ensures Sum(s) == (|s| as real) * c
    decreases |s|
  {
    if |s| > 0 {
      SumConstant(s[..|s| - 1], c);
    }
  }

  /** The uniform start is a probability distribution: non-negative and summing to one. */
  lemma UniformIsDistribution(n: nat)
    requires n > 0
    ensures Sum(UniformDistribution(n)) == 1.0
    ensures forall i :: 0 <= i < n ==> 0.0 < UniformDistribution(n)[i] <= 1.0
  {
    SumConstant(UniformDistribution(n), 1.0 / (n as real));
    InverseCancels(n as real, 1.0);
  }

  // ---------------------------------------------------------------- the loop

  /**
   * The parts of a booster the loop calls, in the order it calls them:
   * `find_maximum_edge_weak_learner` on the current distribution,
   * `update_stopping_criterion`, `stopping_criterion`, `update_linear_ensemble` and
   * the distribution update, which may throw.
   */
  datatype Hooks<!S> = Hooks(
    oracle: S -> Learner,
    updateStopping: (S, Learner) -> S,
    stop: S -> bool,
    updateEnsemble: (S, Learner) -> S,
    updateDistribution: (S, Learner) -> Result<S>)

  /** Where a run ends: the last state and the iteration counter i. */
  datatype Finish<S> = Finish(state: S, iterations: nat)

  /**
   * The loop from iteration i: run out of iterations, or find a learner, lower the
   * stopping bound, and either stop there (before the learner enters the ensemble)
   * or add it, update the distribution and go on.  A throwing update ends the run.
   */
  function Run<S>(h: Hooks<S>, s: S, i: nat, maxIter: int): Result<Finish<S>>
    decreases maxIter - i
  {
    if i >= maxIter then Ok(Finish(s, i))
    else
      var l := h.oracle(s);
      var s1 := h.updateStopping(s, l);
      if h.stop(s1) then Ok(Finish(s1, i))
      else match h.updateDistribution(h.updateEnsemble(s1, l), l)
        case Err(e) => Err(e)
        case Ok(s2) => Run(h, s2, i + 1, maxIter)
  }

  /**
   * A run started at i ends at an iteration between i and the larger of i and
   * maxIter; short of maxIter it ends only on a state that satisfies the stopping
   * criterion.
   */
  lemma {:induction false} RunEnds<S>(h: Hooks<S>, s: S, i: nat, maxIter: int)
    requires Run(h, s, i, maxIter).Ok?
    ensures var f := Run(h, s, i, maxIter).value;
      && i <= f.iterations
      && (f.iterations <= maxIter || f.iterations == i)
      && (f.iterations < maxIter ==> h.stop(f.state))
    decreases maxIter - i
  {
    if i < maxIter {
      var l := h.oracle(s);
      var s1 := h.updateStopping(s, l);
      if !h.stop(s1) {
        var s2 := h.updateDistribution(h.updateEnsemble(s1, l), l).value;
        RunEnds(h, s2, i + 1, maxIter);
      }
    }
  }

  /** What `boost` hands back: the last state, `num_iter`, the number of model
      snapshots logged (its return value), and whether "Max iterations exceeded!" was
      printed. */
  datatype Report<S> = Report(state: S, numIter: nat, numModels: nat, exceeded: bool)

  function AbsInt(x: int): nat
  {
    if x < 0 then -x else x
  }

  /** ⌈n / f⌉. */
  function CeilDiv(n: nat, f: nat): nat
    requires f > 0
  {
    (n + f - 1) / f
  }

  lemma DivUnique(a: int, f: int, q: int, r: int)
    requires f > 0 && a == q * f + r && 0 <= r < f
    ensures a / f == q && a % f == r
  {
    var q0, r0 := a / f, a % f;
    assert (q - q0) * f == r0 - r;
    if q > q0 {
      AtLeastOnce(q - q0, f);
    } else if q < q0 {
      assert (q0 - q) * f == r - r0;
      AtLeastOnce(q0 - q, f);
    }
  }

  lemma AtLeastOnce(k: int, f: int)
    requires k >= 1 && f > 0
    ensures k * f >= f
  {
    assert k * f == (k - 1) * f + f;
  }

  /** One more completed iteration adds one to i / f exactly when f divides i + 1. */
  lemma DivStep(i: nat, f: nat)
    requires f > 0
    ensures (i + 1) / f == i / f + (if (i + 1) % f == 0 then 1 else 0)
  {
    var q, r := i / f, i % f;
    if r + 1 < f {
      DivUnique(i + 1, f, q, r + 1);
    } else {
      DivUnique(i + 1, f, q + 1, 0);
    }
  }

  /** The snapshots logged inside the loop plus the final one make ⌈n / f⌉. */
  lemma CeilOfFloor(n: nat, f: nat)
    requires f > 0
    ensures n / f + (if n % f != 0 then 1 else 0) == CeilDiv(n, f)
  {
    var q, r := n / f, n % f;
    if r == 0 {
      DivUnique(n + f - 1, f, q, f - 1);
    } else {
      DivUnique(n + f - 1, f, q + 1, r - 1);
    }
  }

  /** C++'s `%` of a non-negative value by a negative divisor, like Dafny's, is the
      remainder modulo its magnitude. */
  lemma ModOfMagnitude(a: nat, b: int)
    requires b != 0
    ensures a % b == a % AbsInt(b)
  {
    if b < 0 {
      var f := AbsInt(b);
      var q, r := a / f, a % f;
      assert a == (-q) * b + r;
    }
  }

  /**
   * `boost`: the loop of `Run` from iteration 0, counting a snapshot whenever
   * display_frequency divides the number of completed iterations and one more at
   * the end when it does not divide num_iter, which is where the loop stopped.  A
   * throwing distribution update propagates.  display_frequency is used as a
   * divisor, so it must not be zero.
   */
  method Boost<S>(h: Hooks<S>, s0: S, maxIter: int, freq: int) returns (r: Result<Report<S>>)
    requires freq != 0
    ensures r.Err? <==> Run(h, s0, 0, maxIter).Err?
    ensures r.Err? ==> r.error == Run(h, s0, 0, maxIter).error
    ensures r.Ok? ==> r.value.state == Run(h, s0, 0, maxIter).value.state
    ensures r.Ok? ==> r.value.numIter == Run(h, s0, 0, maxIter).value.iterations
    ensures r.Ok? ==> (r.value.exceeded <==> r.value.numIter == maxIter)
    ensures r.Ok? ==> r.value.numModels == CeilDiv(r.value.numIter, AbsInt(freq))
  {
    var f := AbsInt(freq);
    var s := s0;
    var i: nat := 0;
    var numModels: nat := 0;
    var done := false;
    while i < maxIter && !done
      invariant Run(h, s0, 0, maxIter) == (if done then Ok(Finish(s, i)) else Run(h, s, i, maxIter))
      invariant numModels == i / f
      decreases maxIter - i, if done then 0 else 1
    {
      var l := h.oracle(s);
      var s1 := h.updateStopping(s, l);
      if h.stop(s1) {
        s := s1;
        done := true;
      } else {
        var next := h.updateDistribution(h.updateEnsemble(s1, l), l);
        if next.Err? {
          return Err(next.error);
        }
        s := next.value;
        ModOfMagnitude(i + 1, freq);
        DivStep(i, f);
        if (i + 1) % freq == 0 {
          numModels := numModels + 1;
        }
        i := i + 1;
      }
    }
    ModOfMagnitude(i, freq);
    CeilOfFloor(i, f);
    if i % freq != 0 {
      numModels := numModels + 1;
    }
    r := Ok(Report(s, i, numModels, i == maxIter));
  }

  // ---------------------------------------------------------------- the duality gap

  /**
   * `minPt1dt1`, the lower bound (the dual objective or the LP value), `minPqdq1`,
   * the smallest objective value seen, and the epsilon of the stopping test.
   */
  datatype Gap = Gap(lower: real, upper: real, epsilon: real)

  /** The constructors start the bounds at -1 and 1. */
  function NewGap(epsilon: real): (g: Gap)
    ensures g.lower == -1.0 && g.upper == 1.0 && g.epsilon == epsilon
  {
    Gap(-1.0, 1.0, epsilon)
  }

  /**
   * `update_stopping_criterion`: the smallest objective value seen so far takes
   * gamma when gamma is smaller, and nothing else changes.
   */
  function Lower(g: Gap, gamma: real): (r: Gap)
    ensures r.upper <= g.upper && r.upper <= gamma
    ensures r.upper == g.upper || r.upper == gamma
    ensures r.lower == g.lower && r.epsilon == g.epsilon
  {
    if gamma < g.upper then g.(upper := gamma) else g
  }

  /** `stopping_criterion`: the gap has closed to within epsilon / 2. */
  predicate Converged(g: Gap)
  {
    g.upper <= g.lower + g.epsilon / 2.0
  }

  /** With the starting bounds the test holds at once exactly when epsilon is at least 4. */
  lemma NewGapConverged(epsilon: real)
    ensures Converged(NewGap(epsilon)) <==> epsilon >= 4.0
  {
  }

  /** Lowering never undoes convergence, and lowering twice by the same value is lowering once. */
  lemma LowerMonotone(g: Gap, gamma: real)
    ensures Converged(g) ==> Converged(Lower(g, gamma))
    ensures Lower(Lower(g, gamma), gamma) == Lower(g, gamma)
  {
  }

  /** The bound after a run of values, lowered one value at a time. */
  function LowerAll(g: Gap, gammas: seq<real>): Gap
    decreases |gammas|
  {
    if |gammas| == 0 then g else Lower(LowerAll(g, gammas[..|gammas| - 1]), gammas[|gammas| - 1])
  }

  /**
   * After any run of values the upper bound is their minimum together with the
   * start: at most each of them, and equal to the start or to one of them.
   */
  lemma {:induction false} LowerAllIsMinimum(g: Gap, gammas: seq<real>)
    ensures LowerAll(g, gammas).upper <= g.upper
    ensures forall i :: 0 <= i < |gammas| ==> LowerAll(g, gammas).upper <= gammas[i]
    ensures LowerAll(g, gammas).upper == g.upper
      || exists i :: 0 <= i < |gammas| && LowerAll(g, gammas).upper == gammas[i]
    ensures LowerAll(g, gammas).lower == g.lower && LowerAll(g, gammas).epsilon == g.epsilon
    decreases |gammas|
  {
    if |gammas| > 0 {
      var n := |gammas| - 1;
      var p := gammas[..n];
      LowerAllIsMinimum(g, p);
      var m := LowerAll(g, p);
      var r := LowerAll(g, gammas);
      assert r == Lower(m, gammas[n]);
      forall i | 0 <= i < |gammas|
        ensures r.upper <= gammas[i]
      {
        if i < n {
          assert p[i] == gammas[i];
        }
      }
      if r.upper != g.upper {
        if r.upper == m.upper {
          var i :| 0 <= i < n && m.upper == p[i];
          assert gammas[i] == p[i];
        } else {
          assert r.upper == gammas[n];
        }
      }
    }
  }

  /**
   * `eta` when the constructor computes it: 2·log(n/nu)/epsilon, plus 2/epsilon for
   * the binary variant.  The logarithm is `logRatio` here, since logarithms are not
   * modelled.
   */
  function DefaultEta(binary: bool, logRatio: real, epsilon: real): (eta: real)
    requires epsilon != 0.0
    ensures eta * epsilon == 2.0 * (if binary then 1.0 + logRatio else logRatio)
  {
    if binary then 2.0 * (1.0 + logRatio) / epsilon else 2.0 * logRatio / epsilon
  }
}
