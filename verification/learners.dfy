/**
 * The weak learners (src/weak_learners): the linear learner that predicts with
 * <wt, x>, the decision stump that thresholds one hypothesis, and the weighted pair
 * the ensemble stores.
 *
 * Both kinds carry the edge and the prediction vector they were built with.  In the
 * source the stump derives from the linear learner, so a linear learner's `equal`
 * accepts a stump; `Equal` below keeps that.
 *
 * A data matrix is stored the way the transposed reader builds it: one sparse row
 * per hypothesis, each of dimension the number of examples.
 */
module WeakLearners {
  import opened Seqs
  import opened Vectors
  import opened LinAlg
  import opened SparseText

  datatype Learner =
    | Linear(wt: Sparse, edge: real, prediction: Sparse)
    | Stump(wt: Sparse, edge: real, prediction: Sparse, thresh: real, direction: bool, index: nat)

  /** What the default constructors build: no weights, edge 0, no prediction, and for
      the stump threshold 0, direction `true` and index 0. */
  const DefaultLinear: Learner := Linear(Sparse(0, []), 0.0, Sparse(0, []))
  const DefaultStump: Learner := Stump(Sparse(0, []), 0.0, Sparse(0, []), 0.0, true, 0)

  /** `get_type`. */
  function TypeName(l: Learner): (s: string)
    ensures l.Linear? <==> s == "RAWDATA"
    ensures l.Stump? <==> s == "DSTUMP"
  {
    if l.Linear? then "RAWDATA" else "DSTUMP"
  }

  // ---------------------------------------------------------------- the threshold rule

  /** A learner whose prediction vector has one value per example reports its own
      edge when that edge equals the prediction's correlation with dist. */
  predicate ReportsItsEdge(l: Learner, dist: Dense)
  {
    l.prediction.dim == |dist| && InRange(l.prediction) && DotDD(ToDense(l.prediction), dist) == l.edge
  }

  /** The stump's +1 side: at or above the threshold when `direction` holds, at or
      below it otherwise. */
  predicate OnPlusSide(v: real, thresh: real, direction: bool)
  {
    (direction && v >= thresh) || (!direction && v <= thresh)
  }

  function Sign(v: real, thresh: real, direction: bool): (r: real)
    ensures r == 1.0 || r == -1.0
    ensures r == 1.0 <==> OnPlusSide(v, thresh, direction)
  {
    if direction then (if v >= thresh then 1.0 else -1.0)
    else (if v <= thresh then 1.0 else -1.0)
  }

  function SignAll(a: Dense, thresh: real, direction: bool): (r: Dense)
    ensures |r| == |a|
    ensures forall i :: 0 <= i < |a| ==> r[i] == Sign(a[i], thresh, direction)
  {
    seq(|a|, i requires 0 <= i < |a| => Sign(a[i], thresh, direction))
  }

  // ---------------------------------------------------------------- one example

  /** `predict(const DenseVector& x)`: <wt, x>, thresholded for a stump. */
  function PredictDense(l: Learner, x: Dense): (r: real)
    requires l.wt.dim == |x| && InRange(l.wt)
    ensures l.Linear? ==> r == DotDD(ToDense(l.wt), x)
    ensures l.Stump? ==> r == Sign(DotDD(ToDense(l.wt), x), l.thresh, l.direction)
  {
    DotSDIsDenseDot(l.wt, x);
    var v := DotSD(l.wt, x);
    if l.Linear? then v else Sign(v, l.thresh, l.direction)
  }

  /** `predict(const SparseVector& x)`, with the sparse dot product's merge loop
      read as intended (Vectors.DotSS). */
  function PredictSparse(l: Learner, x: Sparse): real
    requires l.wt.dim == x.dim
  {
    var v := DotSS(l.wt, x);
    if l.Linear? then v else Sign(v, l.thresh, l.direction)
  }

  /** For ordered, in-range operands both single-example overloads give the same answer. */
  lemma PredictSparseIsDense(l: Learner, x: Sparse)
    requires l.wt.dim == x.dim && InRange(l.wt) && InRange(x)
    requires Increasing(l.wt.entries) && Increasing(x.entries)
    ensures PredictSparse(l, x) == PredictDense(l, ToDense(x))
  {
    DotSSIsDenseDot(l.wt, x);
  }

  // ---------------------------------------------------------------- a data matrix

  /**
   * `result.val[index[i]] = val[i]` for every stored entry in order, on top of base:
   * a later entry with the same index overwrites an earlier one.
   */
  function AssignEntries(base: Dense, es: seq<Entry>): (r: Dense)
    requires forall k :: 0 <= k < |es| ==> es[k].index < |base|
    ensures |r| == |base|
    decreases |es|
  {
    if |es| == 0 then base else AssignEntries(base[es[0].index := es[0].value], es[1..])
  }

  /** With strictly increasing indices every coordinate is written at most once, so
      the buffer holds the vector the entries stand for, and base elsewhere. */
  lemma {:induction false} AssignEntriesValues(base: Dense, es: seq<Entry>, j: nat)
    requires forall k :: 0 <= k < |es| ==> es[k].index < |base|
    requires Increasing(es) && j < |base|
    ensures AssignEntries(base, es)[j] == if j in IndexSet(es) then ValueAt(es, j) else base[j]
    decreases |es|
  {
    if |es| > 0 {
      var b := base[es[0].index := es[0].value];
      AssignEntriesValues(b, es[1..], j);
      IndexSetTail(es);
      if |es| > 1 {
        AboveOfIncreasing(es);
        ValueAtAbsentSet(es[1..], es[0].index);
      }
      if j == es[0].index {
        ValueAtAbsent(es[1..], j);
      }
    }
  }

  /** On a zero buffer the assignments leave exactly the vector the entries stand for. */
  lemma AssignEntriesOnZeros(n: nat, es: seq<Entry>, j: nat)
    requires forall k :: 0 <= k < |es| ==> es[k].index < n
    requires Increasing(es) && j < n
    ensures AssignEntries(Zeros(n), es)[j] == ValueAt(es, j)
  {
    AssignEntriesValues(Zeros(n), es, j);
    if j !in IndexSet(es) {
      ValueAtAbsent(es, j);
    }
  }

  /**
   * The inputs `predict(const std::vector<SparseVector>& Data)` can run on.  The
   * linear learner allocates Data[0].dim entries and, unless wt has exactly one
   * entry, calls `transpose_dot(Data, wt, tmp)`, which asserts one row per
   * coordinate of wt.  The stump reads row `index`.
   */
  predicate MatrixFits(l: Learner, data: seq<Sparse>)
  {
    match l
    case Linear(wt, _, _) =>
      // The source only needs wt's stored indices below |data|; equality is what
      // every caller provides, since the oracles build wt over exactly the rows.
      |data| > 0 && |data| == wt.dim && InRange(wt) && RowsWithin(data, data[0].dim)
    case Stump(_, _, _, _, _, index) =>
      index < |data| && InRange(data[index])
  }

  /**
   * `predict(Data)`.  Linear, one stored weight (k, w): the zero vector of dimension
   * Data[0].dim with w·Data[k][i] written at each stored i.  Linear otherwise: the
   * values of the sparse `transpose_dot`, copied position by position.  Stump: row
   * `index` written into a zero vector of its dimension, then every coordinate
   * thresholded.
   */
  function PredictMatrix(l: Learner, data: seq<Sparse>): (r: Dense)
    requires MatrixFits(l, data)
    ensures l.Linear? ==> |r| == data[0].dim
    ensures l.Stump? ==> |r| == data[l.index].dim
    ensures l.Stump? ==> forall i :: 0 <= i < |r| ==> r[i] == 1.0 || r[i] == -1.0
  {
    match l
    case Linear(wt, _, _) =>
      if Nnz(wt) == 1 then
        var row := data[wt.entries[0].index].entries;
        var scaled := ScaleEntries(row, wt.entries[0].value);
        assert forall k :: 0 <= k < |scaled| ==> scaled[k].index < data[0].dim;
        AssignEntries(Zeros(data[0].dim), scaled)
      else TransposeBuffer(data, wt)
    case Stump(_, _, _, thresh, direction, index) =>
      var row := data[index];
      SignAll(AssignEntries(Zeros(row.dim), row.entries), thresh, direction)
  }

  /** Every row stores its indices in increasing order, as the readers build them. */
  predicate RowsIncreasing(data: seq<Sparse>)
  {
    forall k :: 0 <= k < |data| ==> Increasing(data[k].entries)
  }

  /** Both branches of the linear `predict(Data)` give, at example j, Σ_k wt_k·Data[k][j]:
      the one-weight shortcut agrees with the transpose product. */
  lemma LinearPredictMatrix(l: Learner, data: seq<Sparse>, j: nat)
    requires l.Linear? && MatrixFits(l, data) && RowsIncreasing(data) && j < data[0].dim
    ensures PredictMatrix(l, data)[j] == EntriesDot(l.wt.entries, SparseColumn(data, j))
  {
    if Nnz(l.wt) == 1 {
      var e := l.wt.entries[0];
      var row := data[e.index].entries;
      var scaled := ScaleEntries(row, e.value);
      assert Increasing(scaled);
      AssignEntriesOnZeros(data[0].dim, scaled, j);
      ValueAtScaleEntries(row, e.value, j);
      assert l.wt.entries[1..] == [];
      assert SparseColumn(data, j)[e.index] == ValueAt(row, j);
    }
  }

  /** Example j of the linear `predict(Data)` is the single-example prediction on
      column j, the vector of every hypothesis's value on example j. */
  lemma LinearPredictMatrixIsColumnwise(l: Learner, data: seq<Sparse>, j: nat)
    requires l.Linear? && MatrixFits(l, data) && RowsIncreasing(data) && j < data[0].dim
    ensures PredictMatrix(l, data)[j] == PredictDense(l, SparseColumn(data, j))
  {
    LinearPredictMatrix(l, data, j);
  }

  /** The stump's `predict(Data)` thresholds the value of row `index` at every example,
      absent entries counting as 0. */
  lemma StumpPredictMatrix(l: Learner, data: seq<Sparse>, i: nat)
    requires l.Stump? && MatrixFits(l, data) && Increasing(data[l.index].entries)
    requires i < data[l.index].dim
    ensures PredictMatrix(l, data)[i] == Sign(ValueAt(data[l.index].entries, i), l.thresh, l.direction)
  {
    AssignEntriesOnZeros(data[l.index].dim, data[l.index].entries, i);
  }

  /** With the weight vector the stump oracle builds (a single 1 at `index`), example i
      of `predict(Data)` is the single-example prediction on column i. */
  lemma StumpPredictMatrixIsColumnwise(l: Learner, data: seq<Sparse>, i: nat)
    requires l.Stump? && MatrixFits(l, data) && Increasing(data[l.index].entries)
    requires l.wt == Sparse(|data|, [Entry(l.index, 1.0)])
    requires i < data[l.index].dim
    ensures PredictMatrix(l, data)[i] == PredictDense(l, SparseColumn(data, i))
  {
    StumpPredictMatrix(l, data, i);
    var col := SparseColumn(data, i);
    assert l.wt.entries[1..] == [];
    assert DotSD(l.wt, col) == Times(col[l.index], 1.0) + EntriesDot([], col);
    assert col[l.index] == ValueAt(data[l.index].entries, i);
  }

  // ---------------------------------------------------------------- equality

  /**
   * `a.equal(&b)`, which `operator==` calls.  The linear learner's `dynamic_cast`
   * to `LinearWeakLearner` succeeds for a stump too, so it compares only wt; the
   * stump's cast succeeds only for a stump and compares threshold, direction, index
   * and wt.  Edges and predictions are never compared.
   */
  predicate Equal(a: Learner, b: Learner)
  {
    match a
    case Linear(wt, _, _) => SparseEq(wt, b.wt)
    case Stump(wt, _, _, thresh, direction, index) =>
      b.Stump? && thresh == b.thresh && direction == b.direction && index == b.index && SparseEq(wt, b.wt)
  }

  /** `Equal` is a congruence for the fields it compares: between learners of the same
      kind it is symmetric and it is reflexive. */
  lemma EqualSameKind(a: Learner, b: Learner)
    requires a.Linear? == b.Linear?
    ensures Equal(a, b) <==> Equal(b, a)
    ensures Equal(a, b) <==> a.wt == b.wt && (a.Stump? ==> a.thresh == b.thresh && a.direction == b.direction && a.index == b.index)
    ensures Equal(a, a)
  {
    SparseEqIsEquality(a.wt, b.wt);
    SparseEqIsEquality(b.wt, a.wt);
    SparseEqIsEquality(a.wt, a.wt);
  }

  /** Across kinds `Equal` is not symmetric: a linear learner equals any stump with
      the same wt, while no stump equals a linear learner. */
  lemma EqualAcrossKinds(a: Learner, b: Learner)
    requires a.Linear? && b.Stump?
    ensures Equal(a, b) <==> a.wt == b.wt
    ensures !Equal(b, a)
  {
    SparseEqIsEquality(a.wt, b.wt);
  }

  /** Equal learners of the same kind predict alike, whatever their edges and
      predictions. */
  lemma EqualPredictAlike(a: Learner, b: Learner, x: Dense)
    requires a.Linear? == b.Linear? && Equal(a, b)
    requires a.wt.dim == |x| && InRange(a.wt)
    ensures b.wt.dim == |x| && InRange(b.wt)
    ensures PredictDense(a, x) == PredictDense(b, x)
  {
    EqualSameKind(a, b);
  }

  // ---------------------------------------------------------------- copying a stump

  /** The stump's copy constructor as written: it copies wt, edge, prediction,
      threshold and direction, but not `index`, which keeps whatever the new object's
      storage held (`garbage`). */
  function CopyStumpAsWritten(s: Learner, garbage: nat): (r: Learner)
    requires s.Stump?
    ensures r.Stump? && r.wt == s.wt && r.thresh == s.thresh && r.direction == s.direction
    ensures Equal(r, s) <==> garbage == s.index
  {
    SparseEqIsEquality(s.wt, s.wt);
    Stump(s.wt, s.edge, s.prediction, s.thresh, s.direction, garbage)
  }

  /** The copy constructor with `index` copied too. */
  function CopyStump(s: Learner): (r: Learner)
    requires s.Stump?
  {
    Stump(s.wt, s.edge, s.prediction, s.thresh, s.direction, s.index)
  }

  /** A stump at index 0 and threshold 1 over the rows (5, 0) and (0, 0): the original
      predicts (+1, -1), an as-written copy whose index came out as 1 predicts (-1, -1). */
  lemma CopyStumpAsWrittenPredictsOtherwise()
    ensures var s := Stump(Sparse(2, [Entry(0, 1.0)]), 0.0, Sparse(0, []), 1.0, true, 0);
      var data := [Sparse(2, [Entry(0, 5.0)]), Sparse(2, [])];
      PredictMatrix(s, data) == [1.0, -1.0] && PredictMatrix(CopyStumpAsWritten(s, 1), data) == [-1.0, -1.0]
  {
    var s := Stump(Sparse(2, [Entry(0, 1.0)]), 0.0, Sparse(0, []), 1.0, true, 0);
    var data := [Sparse(2, [Entry(0, 5.0)]), Sparse(2, [])];
    assert AssignEntries(Zeros(2), data[0].entries) == [5.0, 0.0];
    assert AssignEntries(Zeros(2), data[1].entries) == [0.0, 0.0];
  }

  /** The corrected copy is `equal` to the original in both directions and predicts
      exactly as it does on every data matrix and every example. */
  lemma CopyStumpIsFaithful(s: Learner, data: seq<Sparse>, x: Dense)
    requires s.Stump?
    ensures Equal(CopyStump(s), s) && Equal(s, CopyStump(s))
    ensures MatrixFits(s, data) ==> MatrixFits(CopyStump(s), data) && PredictMatrix(CopyStump(s), data) == PredictMatrix(s, data)
    ensures s.wt.dim == |x| && InRange(s.wt) ==> PredictDense(CopyStump(s), x) == PredictDense(s, x)
  {
    SparseEqIsEquality(s.wt, s.wt);
  }

  // ---------------------------------------------------------------- the weighted pair

  /** `WeightedWeakLearner`: a learner and its weight in the ensemble. */
  datatype Weighted = Weighted(learner: Learner, weight: real)

  /** `scale_weight`. */
  function ScaleWeight(w: Weighted, s: real): Weighted
  {
    w.(weight := w.weight * s)
  }

  /** `add_weight`. */
  function AddWeight(w: Weighted, a: real): Weighted
  {
    w.(weight := w.weight + a)
  }

  /** `set_weight`. */
  function SetWeight(w: Weighted, x: real): Weighted
  {
    w.(weight := x)
  }

  /** `weighted_predict(x)`: the weight times the learner's prediction. */
  function WeightedPredictDense(w: Weighted, x: Dense): real
    requires w.learner.wt.dim == |x| && InRange(w.learner.wt)
  {
    w.weight * PredictDense(w.learner, x)
  }

  function WeightedPredictSparse(w: Weighted, x: Sparse): real
    requires w.learner.wt.dim == x.dim
  {
    w.weight * PredictSparse(w.learner, x)
  }

  /** `weighted_predict(data)`: `predict(data)` scaled by the weight. */
  function WeightedPredictMatrix(w: Weighted, data: seq<Sparse>): (r: Dense)
    requires MatrixFits(w.learner, data)
    ensures |r| == |PredictMatrix(w.learner, data)|
    ensures forall i :: 0 <= i < |r| ==> r[i] == w.weight * PredictMatrix(w.learner, data)[i]
  {
    ScaleAll(PredictMatrix(w.learner, data), w.weight)
  }

  /** `operator==` on weighted learners: the learners' `equal`; weights are ignored. */
  predicate WeightedEq(a: Weighted, b: Weighted)
  {
    Equal(a.learner, b.learner)
  }

  /** The weighted form of `LinearPredictMatrixIsColumnwise`. */
  lemma WeightedLinearColumnwise(w: Weighted, data: seq<Sparse>, j: nat)
    requires w.learner.Linear? && MatrixFits(w.learner, data) && RowsIncreasing(data) && j < data[0].dim
    requires |PredictMatrix(w.learner, data)| == data[0].dim
    ensures w.learner.wt.dim == |SparseColumn(data, j)|
    ensures WeightedPredictMatrix(w, data)[j] == WeightedPredictDense(w, SparseColumn(data, j))
  {
    var col := SparseColumn(data, j);
    LinearPredictMatrixIsColumnwise(w.learner, data, j);
    calc {
      WeightedPredictMatrix(w, data)[j];
      w.weight * PredictMatrix(w.learner, data)[j];
      { assert PredictMatrix(w.learner, data)[j] == PredictDense(w.learner, col); }
      w.weight * PredictDense(w.learner, col);
      WeightedPredictDense(w, col);
    }
  }

  /** Equal learners of one kind under the same weight give the same weighted
      prediction. */
  lemma EqualWeightedPredictAlike(v: Weighted, w: Weighted, x: Dense)
    requires v.learner.Linear? == w.learner.Linear? && Equal(v.learner, w.learner)
    requires v.weight == w.weight
    requires v.learner.wt.dim == |x| && InRange(v.learner.wt)
    ensures w.learner.wt.dim == |x| && InRange(w.learner.wt)
    ensures WeightedPredictDense(v, x) == WeightedPredictDense(w, x)
  {
    EqualPredictAlike(v.learner, w.learner, x);
  }

  /** The weight operations move the weighted prediction as their names say and leave
      equality alone: `get_weight` after `set_weight(x)` is x, scaling by s scales the
      prediction by s, adding a adds a times the learner's prediction. */
  lemma WeightOperations(w: Weighted, v: Weighted, x: real, s: real, a: real, e: Dense)
    requires w.learner.wt.dim == |e| && InRange(w.learner.wt)
    ensures SetWeight(w, x).weight == x
    ensures WeightedPredictDense(SetWeight(w, x), e) == x * PredictDense(w.learner, e)
    ensures WeightedPredictDense(ScaleWeight(w, s), e) == s * WeightedPredictDense(w, e)
    ensures WeightedPredictDense(AddWeight(w, a), e) == WeightedPredictDense(w, e) + a * PredictDense(w.learner, e)
    ensures WeightedEq(SetWeight(w, x), v) == WeightedEq(w, v) && WeightedEq(v, SetWeight(w, x)) == WeightedEq(v, w)
    ensures WeightedEq(ScaleWeight(w, s), v) == WeightedEq(w, v) && WeightedEq(AddWeight(w, a), v) == WeightedEq(w, v)
  {
  }
}
