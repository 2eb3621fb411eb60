/**
 * The discrete rules of the projected-gradient optimizer
 * (src/optimizers/ProjectedGradientOptimizer.cpp): the clamped point and residual
 * `phi` of the Dai–Fletcher projection, the bounds that `project_erlp` and
 * `project_binary` hand to it, the non-monotone reference value kept in a ring of
 * the last M objective values, and the step-length and backtracking safeguards of
 * `solve`.  Objective values, gradients and inner products are inputs.
 */
module ProjectedGradient {
  import opened Results
  import opened Seqs
  import opened Vectors
  import opened LinAlg
  import opened Optimizers

  /** `Optimizer::infinity`, the bound standing for "unbounded". */
  const Infinity: real := 1000000000000000000000000000000.0
  const AlphaMin: real := 1.0 / 1000000000000000000000000000000.0
  const AlphaMax: real := 10.0
  const Sigma1: real := 0.1
  const Sigma2: real := 0.9
  /** How many objective values the non-monotone reference remembers. */
  const M: nat := 10

  // ---------------------------------------------------------------- phi

  /** The value v moved into [lo, hi]: replaced by hi if above it, else by lo if below it. */
  function BoxClamp(v: real, lo: real, hi: real): real
  {
    if v > hi then hi else if v < lo then lo else v
  }

  /** Within a non-empty box the clamp is the nearest point of the box. */
  lemma BoxClampIsNearest(v: real, lo: real, hi: real, y: real)
    requires lo <= hi && lo <= y <= hi
    ensures lo <= BoxClamp(v, lo, hi) <= hi
    ensures Distance(BoxClamp(v, lo, hi), v) <= Distance(y, v)
    ensures BoxClamp(v, lo, hi) == v <==> lo <= v <= hi
  {
  }

  /** Within a non-empty box the clamp is monotone. */
  lemma BoxClampMonotone(v: real, w: real, lo: real, hi: real)
    requires lo <= hi && v <= w
    ensures BoxClamp(v, lo, hi) <= BoxClamp(w, lo, hi)
  {
  }

  /** The operands of `phi`: coefficients a, right-hand side b, centre z, bounds l and u. */
  datatype Bounds = Bounds(a: Dense, b: real, z: Dense, l: Dense, u: Dense)

  predicate Shaped(bd: Bounds)
  {
    |bd.a| == |bd.z| == |bd.l| == |bd.u|
  }

  /** Every coordinate's box is non-empty. */
  predicate Boxed(bd: Bounds)
  {
    Shaped(bd) && forall i :: 0 <= i < |bd.l| ==> bd.l[i] <= bd.u[i]
  }

  /** The point `phi` writes into x: z + lambda·a clamped coordinatewise. */
  function PhiPoint(bd: Bounds, lambda: real): (x: Dense)
    requires Shaped(bd)
    ensures |x| == |bd.z|
    ensures forall i :: 0 <= i < |x| ==> x[i] == BoxClamp(bd.z[i] + Times(lambda, bd.a[i]), bd.l[i], bd.u[i])
  {
    seq(|bd.z|, i requires 0 <= i < |bd.z| => BoxClamp(bd.z[i] + Times(lambda, bd.a[i]), bd.l[i], bd.u[i]))
  }

  /** The residual `phi` returns: a·x − b at the clamped point. */
  function Phi(bd: Bounds, lambda: real): real
    requires Shaped(bd)
  {
    DotDD(PhiPoint(bd, lambda), bd.a) - bd.b
  }

  /** The clamped point lies in the box and is, coordinate by coordinate, the point of the box nearest z + lambda·a. */
  lemma PhiPointInBox(bd: Bounds, lambda: real, i: nat, y: real)
    requires Boxed(bd) && i < |bd.z| && bd.l[i] <= y <= bd.u[i]
    ensures bd.l[i] <= PhiPoint(bd, lambda)[i] <= bd.u[i]
    ensures Distance(PhiPoint(bd, lambda)[i], bd.z[i] + Times(lambda, bd.a[i])) <= Distance(y, bd.z[i] + Times(lambda, bd.a[i]))
  {
    BoxClampIsNearest(bd.z[i] + Times(lambda, bd.a[i]), bd.l[i], bd.u[i], y);
  }

  /** One coordinate's term a·clamp(z + lambda·a) does not decrease as lambda grows. */
  lemma TermMonotone(a: real, z: real, lo: real, hi: real, lambda: real, mu: real)
    requires lo <= hi && lambda <= mu
    ensures Times(a, BoxClamp(z + Times(lambda, a), lo, hi)) <= Times(a, BoxClamp(z + Times(mu, a), lo, hi))
  {
    var p := BoxClamp(z + Times(lambda, a), lo, hi);
    var q := BoxClamp(z + Times(mu, a), lo, hi);
    if a > 0.0 {
      ScaleMonotone(a, lambda, mu);
      BoxClampMonotone(z + Times(lambda, a), z + Times(mu, a), lo, hi);
      ScaleMonotone(a, p, q);
    } else if a < 0.0 {
      ScaleMonotone(-a, lambda, mu);
      BoxClampMonotone(z + Times(mu, a), z + Times(lambda, a), lo, hi);
      ScaleMonotone(-a, q, p);
    }
  }

  /** Multiplying by a non-negative c keeps order; by a negative one reverses it. */
  lemma ScaleMonotone(c: real, x: real, y: real)
    requires c >= 0.0 && x <= y
    ensures Times(x, c) <= Times(y, c) && Times(c, x) <= Times(c, y)
    ensures Times(x, -c) >= Times(y, -c) && Times(-c, x) >= Times(-c, y)
  {
    assert (y - x) * c >= 0.0;
  }

  lemma {:induction false} DotDDMonotone(x: Dense, y: Dense, a: Dense)
    requires |x| == |y| == |a|
    requires forall i :: 0 <= i < |a| ==> Times(a[i], x[i]) <= Times(a[i], y[i])
    ensures DotDD(x, a) <= DotDD(y, a)
    decreases |a|
  {
    if |a| > 0 {
      var n := |a| - 1;
      DotDDMonotone(x[..n], y[..n], a[..n]);
    }
  }

  /**
   * The residual is non-decreasing in lambda when every box is non-empty, which is
   * what lets the bracketing phase of `project` search for its root.
   */
  lemma PhiMonotone(bd: Bounds, lambda: real, mu: real)
    requires Boxed(bd) && lambda <= mu
    ensures Phi(bd, lambda) <= Phi(bd, mu)
  {
    var x := PhiPoint(bd, lambda);
    var y := PhiPoint(bd, mu);
    forall i | 0 <= i < |bd.a|
      ensures Times(bd.a[i], x[i]) <= Times(bd.a[i], y[i])
    {
      TermMonotone(bd.a[i], bd.z[i], bd.l[i], bd.u[i], lambda, mu);
    }
    DotDDMonotone(x, y, bd.a);
  }

  // ---------------------------------------------------------------- projection bounds

  /** n ones followed by zeros, d entries in all. */
  function Indicator(n: nat, d: nat): (a: Dense)
    requires n <= d
    ensures |a| == d && forall i :: 0 <= i < d ==> a[i] == if i < n then 1.0 else 0.0
  {
    seq(d, i => if i < n then 1.0 else 0.0)
  }

  /**
   * `project_erlp(x)`: the weights (the first numWl coordinates) must lie in [0, 1]
   * and sum to one; the psi coordinates lie in [0, infinity] and do not enter the sum.
   */
  function ErlpBounds(x: Dense, numWl: nat): (bd: Bounds)
    requires numWl <= |x|
    ensures Boxed(bd)
  {
    Bounds(Indicator(numWl, |x|), 1.0, x, Zeros(|x|),
           seq(|x|, i => if i < numWl then 1.0 else Infinity))
  }

  /**
   * `project_binary(x)`: every coordinate but beta (at numWl) has coefficient 1 and
   * box [0, 1]; beta has coefficient 0 and box [-infinity, infinity].
   */
  function BinaryBounds(x: Dense, numWl: nat): (bd: Bounds)
    requires numWl < |x|
    ensures Boxed(bd)
  {
    Bounds(seq(|x|, i => if i == numWl then 0.0 else 1.0), 1.0, x,
           seq(|x|, i => if i == numWl then -Infinity else 0.0),
           seq(|x|, i => if i == numWl then Infinity else 1.0))
  }

  /** y satisfies a·y = b and l ≤ y ≤ u: the set `project` projects onto. */
  predicate Feasible(bd: Bounds, y: Dense)
  {
    && Shaped(bd) && |y| == |bd.a|
    && DotDD(y, bd.a) == bd.b
    && forall i :: 0 <= i < |y| ==> bd.l[i] <= y[i] <= bd.u[i]
  }

  lemma {:induction false} DotIndicator(y: Dense, n: nat)
    requires n <= |y|
    ensures DotDD(y, Indicator(n, |y|)) == Sum(y[..n])
    decreases |y|
  {
    if |y| > 0 {
      var d := |y| - 1;
      assert Indicator(n, |y|)[..d] == Indicator(if n <= d then n else d, d);
      if n <= d {
        DotIndicator(y[..d], n);
        assert y[..d][..n] == y[..n];
      } else {
        DotIndicator(y[..d], d);
        assert y[..d][..d] == y[..d];
        assert y[..n][..d] == y[..d];
      }
    }
  }

  /**
   * The ERLPBoost feasible set is exactly: weights on the simplex, and every psi in
   * [0, infinity].
   */
  lemma ErlpFeasibleIff(x: Dense, numWl: nat, y: Dense)
    requires numWl <= |x| && |y| == |x|
    ensures Feasible(ErlpBounds(x, numWl), y)
        <==> Simplex(y[..numWl]) && forall i :: numWl <= i < |y| ==> 0.0 <= y[i] <= Infinity
  {
    DotIndicator(y, numWl);
    var bd := ErlpBounds(x, numWl);
    if Simplex(y[..numWl]) && forall i :: numWl <= i < |y| ==> 0.0 <= y[i] <= Infinity {
      forall i | 0 <= i < |y|
        ensures bd.l[i] <= y[i] <= bd.u[i]
      {
        if i < numWl {
          assert y[..numWl][i] == y[i];
        }
      }
    }
    if Feasible(bd, y) {
      forall i | 0 <= i < numWl
        ensures 0.0 <= y[..numWl][i] <= 1.0
      {
        assert bd.l[i] <= y[i] <= bd.u[i];
      }
    }
  }

  /** Σ y over every coordinate but the last. */
  lemma {:induction false} DotAllButLast(y: Dense, a: Dense)
    requires |y| == |a| > 0
    requires forall i :: 0 <= i < |a| ==> a[i] == if i == |a| - 1 then 0.0 else 1.0
    ensures DotDD(y, a) == Sum(y[..|y| - 1])
  {
    var n := |y| - 1;
    DotIndicator(y[..n], n);
    assert a[..n] == Indicator(n, n);
    assert y[..n][..n] == y[..n];
  }

  /**
   * In the binary layout (the weights, then beta last) the feasible set is exactly:
   * weights on the simplex, and beta anywhere in [-infinity, infinity].
   */
  lemma BinaryFeasibleIff(x: Dense, numWl: nat, y: Dense)
    requires |x| == numWl + 1 && |y| == |x|
    ensures Feasible(BinaryBounds(x, numWl), y)
        <==> Simplex(y[..numWl]) && -Infinity <= y[numWl] <= Infinity
  {
    var bd := BinaryBounds(x, numWl);
    DotAllButLast(y, bd.a);
    if Simplex(y[..numWl]) && -Infinity <= y[numWl] <= Infinity {
      forall i | 0 <= i < |y|
        ensures bd.l[i] <= y[i] <= bd.u[i]
      {
        if i < numWl {
          assert y[..numWl][i] == y[i];
        }
      }
    }
    if Feasible(bd, y) {
      forall i | 0 <= i < numWl
        ensures 0.0 <= y[..numWl][i] <= 1.0
      {
        assert bd.l[i] <= y[i] <= bd.u[i];
      }
    }
  }

  /** `size_t(-1)` on a 64-bit target. */
  const SizeMax: nat := 0xffff_ffff_ffff_ffff

  /**
   * What `project` returns once its bracketing phase ends with step d_lambda after
   * innerIter iterations: `size_t(-1)` when the bracket has grown past infinity
   * (the problem is infeasible), and otherwise the iteration count.
   */
  function ProjectStatus(dLambda: real, innerIter: nat): (r: nat)
    requires innerIter < SizeMax
    ensures r == SizeMax <==> Abs(dLambda) > Infinity
    ensures r != SizeMax ==> r == innerIter
  {
    if Abs(dLambda) > Infinity then SizeMax else innerIter
  }

  // ---------------------------------------------------------------- the non-monotone reference

  /**
   * The ring of objective values after the initial value fs[0] and the successes of
   * iterations 1 .. |fs|−1: slot 0 starts with fs[0], the other slots with
   * -DBL_MAX, and iteration i overwrites slot i mod M.
   */
  function Ring(fs: seq<real>): (fk: seq<real>)
    requires |fs| > 0
    ensures |fk| == M
    decreases |fs|
  {
    if |fs| == 1 then seq(M, j => if j == 0 then fs[0] else -DblMax)
    else
      var n := |fs| - 1;
      Ring(fs[..n])[n % M := fs[n]]
  }

  /** `obj_max`: the scan of the ring from slot 0 that keeps strictly larger values. */
  function ObjMax(fk: seq<real>): (m: real)
    requires |fk| == M
  {
    ScanMax(fk[1..], fk[0])
  }

  /** The last M objective values (all of them while there are fewer). */
  function Window(fs: seq<real>): (w: seq<real>)
    requires |fs| > 0
    ensures 0 < |w| <= M
  {
    if |fs| <= M then fs else fs[|fs| - M..]
  }

  /** Where each value sits: the value of iteration t in the window is in slot t mod M; unused slots hold -DBL_MAX. */
  lemma {:induction false} RingSlots(fs: seq<real>)
    requires |fs| > 0
    ensures forall t :: |fs| - M <= t < |fs| && 0 <= t ==> Ring(fs)[t % M] == fs[t]
    ensures forall j :: |fs| <= j < M ==> Ring(fs)[j] == -DblMax
    decreases |fs|
  {
    if |fs| > 1 {
      var n := |fs| - 1;
      RingSlots(fs[..n]);
      forall t | |fs| - M <= t < |fs| && 0 <= t
        ensures Ring(fs)[t % M] == fs[t]
      {
        if t < n {
          SlotsDiffer(t, n);
          assert Ring(fs[..n])[t % M] == fs[..n][t];
        }
      }
    }
  }

  lemma SlotsDiffer(t: nat, n: nat)
    requires t < n < t + M
    ensures t % M != n % M
  {
  }

  /** The slot the failure branch reads, (i−1) mod M, holds the objective of the current iterate. */
  lemma CurrentObjectiveSlot(fs: seq<real>)
    requires |fs| > 0
    ensures Ring(fs)[(|fs| - 1) % M] == fs[|fs| - 1]
  {
    RingSlots(fs);
  }

  /** Slot j holds the value of the latest iteration t of the window with t mod M == j. */
  lemma LatestInSlot(start: nat, j: nat)
    requires j < M
    ensures (start + (j - start) % M) % M == j
    ensures start <= start + (j - start) % M < start + M
  {
  }

  /** Every stored value is one of the window's values, or -DBL_MAX. */
  lemma RingValues(fs: seq<real>, j: nat)
    requires |fs| > 0 && j < M
    ensures Ring(fs)[j] == -DblMax || exists k :: 0 <= k < |Window(fs)| && Window(fs)[k] == Ring(fs)[j]
  {
    RingSlots(fs);
    var w := Window(fs);
    var start := |fs| - |w|;
    if j < |fs| {
      LatestInSlot(start, j);
      var t := start + (j - start) % M;
      assert t < |fs|;
      assert Ring(fs)[j] == fs[t];
      WindowAt(fs, t - start);
    }
  }

  /** Window position k is iteration |fs| − |Window(fs)| + k. */
  lemma WindowAt(fs: seq<real>, k: nat)
    requires |fs| > 0 && k < |Window(fs)|
    ensures Window(fs)[k] == fs[|fs| - |Window(fs)| + k]
  {
  }

  /** `obj_max` is at least every slot and equals one of them. */
  lemma ObjMaxOfRing(fk: seq<real>)
    requires |fk| == M
    ensures forall j :: 0 <= j < M ==> fk[j] <= ObjMax(fk)
    ensures exists j :: 0 <= j < M && fk[j] == ObjMax(fk)
  {
    var om := ObjMax(fk);
    forall j | 0 <= j < M
      ensures fk[j] <= om
    {
      if j > 0 {
        assert fk[1..][j - 1] == fk[j];
      }
    }
    if om != fk[0] {
      var k :| 0 <= k < |fk[1..]| && fk[1..][k] == om;
      assert fk[k + 1] == om;
    }
  }

  /** With finite objective values every slot holds at least -DBL_MAX. */
  lemma RingAboveFloor(fs: seq<real>, j: nat)
    requires |fs| > 0 && j < M && forall k :: 0 <= k < |fs| ==> -DblMax <= fs[k]
    ensures -DblMax <= Ring(fs)[j]
  {
    RingValues(fs, j);
    if Ring(fs)[j] != -DblMax {
      var k :| 0 <= k < |Window(fs)| && Window(fs)[k] == Ring(fs)[j];
      WindowAt(fs, k);
    }
  }

  /**
   * With finite objective values, `obj_max` is the largest of the last M objective
   * values: the reference value of the non-monotone line search.
   */
  lemma ObjMaxIsWindowMax(fs: seq<real>)
    requires |fs| > 0 && forall k :: 0 <= k < |fs| ==> -DblMax <= fs[k]
    ensures ObjMax(Ring(fs)) == Max(Window(fs))
  {
    var fk := Ring(fs);
    var w := Window(fs);
    var om := ObjMax(fk);
    var wm := Max(w);
    ObjMaxOfRing(fk);
    var j0 :| 0 <= j0 < M && fk[j0] == om;
    RingValues(fs, j0);
    assert om <= wm;
    if wm != -DblMax {
      var k :| 0 <= k < |w| && w[k] == wm;
      WindowAt(fs, k);
      RingSlots(fs);
      var t := |fs| - |w| + k;
      assert fk[t % M] == fs[t];
    } else {
      RingAboveFloor(fs, 0);
    }
  }

  // ---------------------------------------------------------------- step lengths

  /** `std::min` and `std::max` as the standard library defines them. */
  function StdMin(a: real, b: real): real { if b < a then b else a }
  function StdMax(a: real, b: real): real { if a < b then b else a }

  /**
   * The Barzilai–Borwein step after a success: alpha_max when s·y ≤ 0, otherwise
   * s·s / s·y kept within [alpha_min, alpha_max].
   */
  function StepSize(sksk: real, skyk: real): (alpha: real)
    ensures AlphaMin <= alpha <= AlphaMax
    ensures skyk <= 0.0 ==> alpha == AlphaMax
    ensures skyk > 0.0 ==> alpha == BoxClamp(sksk / skyk, AlphaMin, AlphaMax)
  {
    if skyk <= 0.0 then AlphaMax
    else StdMin(AlphaMax, StdMax(AlphaMin, sksk / skyk))
  }

  /** A double quotient: a finite value, an infinity, or a NaN. */
  datatype Quotient = Finite(v: real) | PlusInf | MinusInf | NaN

  /**
   * The trial step after a failed test, the minimiser of the quadratic through the
   * last two objective values: −λ²·dtg / (2(objplus − obj − λ·dtg)).  A zero
   * denominator is a positive zero (a difference of equal doubles is +0), so the
   * quotient is +∞ or −∞ with the numerator's sign, or a NaN for 0/0.
   */
  function TrialStep(lambda: real, dtg: real, objplus: real, obj: real): (q: Quotient)
    ensures q.Finite? <==> objplus - obj - lambda * dtg != 0.0
    ensures q.Finite? ==> q.v * (2.0 * (objplus - obj - lambda * dtg)) == -(lambda * lambda) * dtg
    ensures q.NaN? <==> !q.Finite? && lambda * lambda * dtg == 0.0
  {
    var num := -(lambda * lambda) * dtg;
    var den := 2.0 * (objplus - obj - lambda * dtg);
    if den != 0.0 then Finite(num / den)
    else if num > 0.0 then PlusInf
    else if num < 0.0 then MinusInf
    else NaN
  }

  /**
   * `λ := max(sigma1·λ, min(sigma2·λ, λ_new))`.  An infinite λ_new falls on the
   * bound on its side; `std::min(sigma2·λ, NaN)` is sigma2·λ.
   */
  function Backtrack(lambda: real, trial: Quotient): (r: real)
    requires lambda > 0.0
    ensures Sigma1 * lambda <= r <= Sigma2 * lambda
    ensures trial.Finite? && Sigma1 * lambda <= trial.v <= Sigma2 * lambda ==> r == trial.v
    ensures trial.PlusInf? || trial.NaN? ==> r == Sigma2 * lambda
    ensures trial.MinusInf? ==> r == Sigma1 * lambda
  {
    var lo := Sigma1 * lambda;
    var hi := Sigma2 * lambda;
    match trial
    case Finite(v) => StdMax(lo, StdMin(hi, v))
    case PlusInf => StdMax(lo, hi)
    case NaN => StdMax(lo, hi)
    case MinusInf => lo
  }

  /** λ after a run of failed tests whose trial steps were `trials`, starting from λ. */
  function Backtracks(lambda: real, trials: seq<Quotient>): (r: real)
    requires lambda > 0.0
    ensures r > 0.0
    decreases |trials|
  {
    if |trials| == 0 then lambda
    else Backtracks(Backtrack(lambda, trials[0]), trials[1..])
  }

  function Pow(c: real, k: nat): real
  {
    if k == 0 then 1.0 else c * Pow(c, k - 1)
  }

  /**
   * After k failed tests from λ the trial step lies between sigma1^k·λ and
   * sigma2^k·λ: the backtracking shrinks the step geometrically, by at least 10% and
   * at most 90% each time.
   */
  lemma {:induction false} BacktracksShrink(lambda: real, trials: seq<Quotient>)
    requires lambda > 0.0
    ensures Times(Pow(Sigma1, |trials|), lambda) <= Backtracks(lambda, trials) <= Times(Pow(Sigma2, |trials|), lambda)
    decreases |trials|
  {
    if |trials| > 0 {
      var next := Backtrack(lambda, trials[0]);
      BacktracksShrink(next, trials[1..]);
      var k := |trials| - 1;
      PowNonNegative(Sigma1, k);
      PowNonNegative(Sigma2, k);
      ShrinkStep(Pow(Sigma1, k), Pow(Sigma2, k), lambda, next, Backtracks(next, trials[1..]));
    }
  }

  /** One more failed test multiplies both bounds by the factors of its safeguard. */
  lemma ShrinkStep(p1: real, p2: real, lambda: real, next: real, r: real)
    requires p1 >= 0.0 && p2 >= 0.0
    requires Sigma1 * lambda <= next <= Sigma2 * lambda
    requires Times(p1, next) <= r <= Times(p2, next)
    ensures Times(Sigma1 * p1, lambda) <= r <= Times(Sigma2 * p2, lambda)
  {
    assert p1 * next >= p1 * (Sigma1 * lambda);
    assert p2 * next <= p2 * (Sigma2 * lambda);
  }

  lemma PowNonNegative(c: real, k: nat)
    requires c >= 0.0
    ensures Pow(c, k) >= 0.0
  {
  }
}
