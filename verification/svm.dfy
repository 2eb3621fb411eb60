/**
 * The linear-kernel oracle (src/oracles/Svm.cpp).  Every example m is a hypothesis:
 * it predicts ⟨x_i, x_m⟩ on example i.  A call computes every hypothesis' edge
 * Σ_i dist_i·label_i·⟨x_i, x_m⟩, that is XᵀX applied to the margins, picks the
 * largest (or, when reflexive, possibly the negation of the smallest) with the same
 * selection as the raw-data oracle, and returns the picked example as the weight
 * vector of a linear learner whose prediction is its kernel column times the labels.
 *
 * Transposed, row f of the data holds feature f on every example and example i is
 * column i; otherwise row i is example i.
 */
module SvmOracle {
  import opened Seqs
  import opened Vectors
  import opened LinAlg
  import opened WeakLearners
  import opened Oracles

  /** The oracle's state: the rows as stored, the labels, the layout and the
      `reflexive` flag. */
  datatype Svm = Svm(data: seq<Sparse>, labels: seq<int>, transposed: bool, reflexive: bool)

  /** The number of features: one per row when transposed, the rows' dimension otherwise. */
  function NumFeatures(o: Svm): nat
    requires |o.data| > 0
  {
    if o.transposed then |o.data| else o.data[0].dim
  }

  /**
   * What the products of a call need of the data: at least one row and one example,
   * rows with in-range increasing indices (as the readers build them), and,
   * transposed, rows of one coordinate per example; otherwise one row per example,
   * all of one dimension.
   */
  predicate Shaped(o: Svm)
  {
    && |o.data| > 0
    && |o.labels| > 0
    && (forall k :: 0 <= k < |o.data| ==> InRange(o.data[k]) && Increasing(o.data[k].entries))
    && (if o.transposed then RowsOfSparseDim(o.data, |o.labels|)
        else |o.data| == |o.labels| && RowsOfSparseDim(o.data, o.data[0].dim))
  }

  /** Rows of one dimension keep their stored indices below it. */
  lemma ShapedRowsWithin(o: Svm)
    requires Shaped(o)
    ensures RowsWithin(o.data, o.data[0].dim)
  {
    forall k, e | 0 <= k < |o.data| && 0 <= e < |o.data[k].entries|
      ensures o.data[k].entries[e].index < o.data[0].dim
    {
      assert InRange(o.data[k]);
    }
  }

  /** Example i's feature vector, in either layout. */
  function Example(o: Svm, i: nat): (x: Dense)
    requires Shaped(o) && i < |o.labels|
    ensures |x| == NumFeatures(o)
  {
    if o.transposed then SparseColumn(o.data, i) else ToDense(o.data[i])
  }

  /** Hypothesis m's values on all examples: the linear kernel ⟨x_i, x_m⟩. */
  function Kernel(o: Svm, m: nat): (h: Dense)
    requires Shaped(o) && m < |o.labels|
    ensures |h| == |o.labels|
    ensures forall i :: 0 <= i < |h| ==> h[i] == DotDD(Example(o, i), Example(o, m))
  {
    seq(|o.labels|, i requires 0 <= i < |o.labels| => DotDD(Example(o, i), Example(o, m)))
  }

  /** The edges of lines 43-52: transposed, `transpose_dot(data, dot(data, dist_labels))`;
      otherwise `dot(data, transpose_dot(data, dist_labels))`. */
  function Edges(o: Svm, dist: Dense): (edges: Dense)
    requires Shaped(o) && |dist| == |o.labels|
    ensures |edges| == |o.labels|
  {
    var dl := Margins(dist, o.labels);
    var rows := SparseRows(o.data);
    if o.transposed then TransposeDot(rows, MatVecDense(rows, Dn(dl)), |o.labels|)
    else MatVecDense(rows, Dn(TransposeDot(rows, dl, o.data[0].dim)))
  }

  /** Transposed, the inner product `dot(data, dist_labels)` is every row's dot product
      with the margins. */
  lemma InnerIsRowDots(o: Svm, dl: Dense)
    requires Shaped(o) && o.transposed && |dl| == |o.labels|
    ensures MatVecDense(SparseRows(o.data), Dn(dl)) == RowDots(SparseRows(o.data), dl)
  {
    forall f | 0 <= f < |o.data|
      ensures MatVecDense(SparseRows(o.data), Dn(dl))[f] == RowDots(SparseRows(o.data), dl)[f]
    {
      DotSDIsDenseDot(o.data[f], dl);
    }
  }

  /** Transposed, column i of the rows is example i. */
  lemma ColumnIsExample(o: Svm, i: nat)
    requires Shaped(o) && o.transposed && i < |o.labels|
    ensures Column(SparseRows(o.data), |o.labels|, i) == Example(o, i)
  {
  }

  /** Transposed, the transpose product of the rows with example m is kernel column m. */
  lemma TransposedKernel(o: Svm, m: nat)
    requires Shaped(o) && o.transposed && m < |o.labels|
    ensures TransposeDot(SparseRows(o.data), Example(o, m), |o.labels|) == Kernel(o, m)
  {
    var rows := SparseRows(o.data);
    forall i | 0 <= i < |o.labels|
      ensures TransposeDot(rows, Example(o, m), |o.labels|)[i] == Kernel(o, m)[i]
    {
      TransposeDotColumns(rows, Example(o, m), |o.labels|, i);
      ColumnIsExample(o, i);
    }
  }

  /** Otherwise, the rows' dot products with example m are kernel column m. */
  lemma RowDotsKernel(o: Svm, m: nat)
    requires Shaped(o) && !o.transposed && m < |o.labels|
    ensures RowDots(SparseRows(o.data), Example(o, m)) == Kernel(o, m)
  {
  }

  /** In both layouts edge m is the correlation of kernel column m with the margins,
      Σ_i dist_i·label_i·⟨x_i, x_m⟩. */
  lemma EdgesAreKernelCorrelations(o: Svm, dist: Dense, m: nat)
    requires Shaped(o) && |dist| == |o.labels| && m < |o.labels|
    ensures Edges(o, dist)[m] == DotDD(Kernel(o, m), Margins(dist, o.labels))
  {
    var dl := Margins(dist, o.labels);
    var rows := SparseRows(o.data);
    var x := Example(o, m);
    if o.transposed {
      var n := |o.labels|;
      var inner := MatVecDense(rows, Dn(dl));
      calc {
        Edges(o, dist)[m];
        TransposeDot(rows, inner, n)[m];
      == { TransposeDotColumns(rows, inner, n, m); }
        DotDD(Column(rows, n, m), inner);
      == { ColumnIsExample(o, m); InnerIsRowDots(o, dl); }
        DotDD(x, RowDots(rows, dl));
      == { TransposeDotAdjoint(rows, x, n, dl); }
        DotDD(TransposeDot(rows, x, n), dl);
      == { TransposedKernel(o, m); }
        DotDD(Kernel(o, m), dl);
      }
    } else {
      var d := o.data[0].dim;
      var inner := TransposeDot(rows, dl, d);
      calc {
        Edges(o, dist)[m];
        Dot(Sp(o.data[m]), Dn(inner));
      == { DotSDIsDenseDot(o.data[m], inner); }
        DotDD(x, inner);
      == { DotDDSymmetric(x, inner); }
        DotDD(inner, x);
      == { TransposeDotAdjoint(rows, dl, d, x); }
        DotDD(dl, RowDots(rows, x));
      == { RowDotsKernel(o, m); DotDDSymmetric(dl, Kernel(o, m)); }
        DotDD(Kernel(o, m), dl);
      }
    }
  }

  /** The weight vector of lines 77-89 and 105-116: transposed, `dot(data, tmp)` with
      tmp the unit vector of the pick; otherwise the picked row, scaled by -1 when
      negated. */
  function Weight(o: Svm, p: Pick): (w: Sparse)
    requires Shaped(o) && p.index < |o.labels|
    ensures w.dim == NumFeatures(o) && InRange(w) && Increasing(w.entries)
  {
    if o.transposed then MatVecSparse(SparseRows(o.data), Sp(UnitWeight(|o.labels|, p)))
    else if p.negated then
      ScaleSparseIsDenseScale(o.data[p.index], -1.0);
      ScaleSparse(o.data[p.index], -1.0)
    else o.data[p.index]
  }

  /** The weight vector stands for the picked example, counted with the pick's ±1. */
  lemma WeightIsExample(o: Svm, p: Pick)
    requires Shaped(o) && p.index < |o.labels|
    ensures ToDense(Weight(o, p)) == FlipAll(Example(o, p.index), !p.negated)
  {
    var w := Weight(o, p);
    var x := Example(o, p.index);
    if o.transposed {
      var rows := SparseRows(o.data);
      var unit := Sp(UnitWeight(|o.labels|, p));
      MatVecSparseIsDense(rows, unit);
      forall f | 0 <= f < |o.data|
        ensures ToDense(w)[f] == FlipAll(x, !p.negated)[f]
      {
        DotWithUnit(o.data[f], p);
      }
    } else if p.negated {
      ScaleSparseIsDenseScale(o.data[p.index], -1.0);
      assert FlipAll(x, false) == ScaleAll(x, -1.0);
    } else {
      assert FlipAll(x, true) == x;
    }
  }

  /** The prediction before labelling, with the evidently intended `transpose_dot`:
      transposed, `transpose_dot(data, wt)`; otherwise `dot(data, wt)`. */
  function RawPrediction(o: Svm, p: Pick): (r: Sparse)
    requires Shaped(o) && p.index < |o.labels|
    ensures r.dim == |o.labels| && InRange(r) && Increasing(r.entries)
    ensures forall k :: 0 <= k < Nnz(r) ==> r.entries[k].index == k
  {
    if o.transposed then
      ShapedRowsWithin(o);
      TransposeDotSparse(o.data, Weight(o, p))
    else MatVecSparse(SparseRows(o.data), Sp(Weight(o, p)))
  }

  /** The prediction before labelling as written: transposed, the sparse `transpose_dot`
      leaves every stored index 0. */
  function RawPredictionAsWritten(o: Svm, p: Pick): (r: Sparse)
    requires Shaped(o) && p.index < |o.labels|
    ensures r.dim == |o.labels| && IndexesExamples(r.entries, |o.labels|)
  {
    if o.transposed then
      ShapedRowsWithin(o);
      TransposeDotSparseAsWritten(o.data, Weight(o, p))
    else MatVecSparse(SparseRows(o.data), Sp(Weight(o, p)))
  }

  /** Before labelling, the prediction at example i is ⟨x_i, x_m⟩ for the picked m,
      counted with the pick's ±1. */
  lemma RawPredictionAt(o: Svm, p: Pick, i: nat)
    requires Shaped(o) && p.index < |o.labels| && i < |o.labels|
    ensures ValueAt(RawPrediction(o, p).entries, i) == Flip(Kernel(o, p.index)[i], !p.negated)
  {
    var w := Weight(o, p);
    var x := Example(o, p.index);
    var rows := SparseRows(o.data);
    var r := RawPrediction(o, p);
    if o.transposed {
      var n := |o.labels|;
      calc {
        ValueAt(r.entries, i);
        ToDense(r)[i];
      == { TransposeDotSparseIsDense(o.data, w); }
        TransposeDot(rows, ToDense(w), n)[i];
      == { TransposeDotColumns(rows, ToDense(w), n, i); }
        DotDD(Column(rows, n, i), ToDense(w));
      == { ColumnIsExample(o, i); WeightIsExample(o, p); }
        DotDD(Example(o, i), FlipAll(x, !p.negated));
      == { DotDDFlipAll(x, Example(o, i), !p.negated); }
        Flip(DotDD(Example(o, i), x), !p.negated);
      }
    } else {
      calc {
        ValueAt(r.entries, i);
      == { ValueAtStored(r.entries, i); }
        DotSS(o.data[i], w);
      == { DotSSIsDenseDot(o.data[i], w); }
        DotDD(Example(o, i), ToDense(w));
      == { WeightIsExample(o, p); }
        DotDD(Example(o, i), FlipAll(x, !p.negated));
      == { DotDDFlipAll(x, Example(o, i), !p.negated); }
        Flip(DotDD(Example(o, i), x), !p.negated);
      }
    }
  }

  /** The returned prediction with the evidently intended `transpose_dot`: every value
      multiplied by the label of the example it is stored for (lines 91-93, 118-120). */
  function Prediction(o: Svm, p: Pick): (r: Sparse)
    requires Shaped(o) && p.index < |o.labels|
    ensures r.dim == |o.labels| && Nnz(r) == |o.labels| && InRange(r)
  {
    LabelSparse(RawPrediction(o, p), o.labels)
  }

  /** The returned prediction as written. */
  function PredictionAsWritten(o: Svm, p: Pick): (r: Sparse)
    requires Shaped(o) && p.index < |o.labels|
    ensures r.dim == |o.labels| && InRange(r)
  {
    LabelSparse(RawPredictionAsWritten(o, p), o.labels)
  }

  /** After labelling, the prediction at example i is label i times ⟨x_i, x_m⟩,
      counted with the pick's ±1. */
  lemma PredictionAt(o: Svm, p: Pick, i: nat)
    requires Shaped(o) && p.index < |o.labels| && i < |o.labels|
    ensures ToDense(Prediction(o, p))[i] == Labelled(Kernel(o, p.index), o.labels, !p.negated)[i]
  {
    var raw := RawPrediction(o, p);
    var y := o.labels[i] as real;
    calc {
      ToDense(Prediction(o, p))[i];
      ValueAt(LabelEntries(raw.entries, o.labels), i);
    == { ValueAtLabelEntries(raw.entries, o.labels, i); }
      Times(y, ValueAt(raw.entries, i));
    == { RawPredictionAt(o, p, i); }
      Times(y, Flip(Kernel(o, p.index)[i], !p.negated));
    }
  }

  /** The labelled prediction of a pick stands for its labelled kernel column. */
  lemma PredictionOfPick(o: Svm, p: Pick)
    requires Shaped(o) && p.index < |o.labels|
    ensures ToDense(Prediction(o, p)) == Labelled(Kernel(o, p.index), o.labels, !p.negated)
  {
    forall i | 0 <= i < |o.labels|
      ensures ToDense(Prediction(o, p))[i] == Labelled(Kernel(o, p.index), o.labels, !p.negated)[i]
    {
      PredictionAt(o, p, i);
    }
  }

  /** `find_maximum_edge_weak_learner` with the evidently intended `transpose_dot`:
      select, then build the linear learner. */
  function FindMaximumEdge(o: Svm, dist: Dense): (l: Learner)
    requires Shaped(o) && |dist| == |o.labels| && Finite(Edges(o, dist))
    ensures l.Linear? && l.wt.dim == NumFeatures(o) && InRange(l.wt)
    ensures l.prediction.dim == |o.labels| && Nnz(l.prediction) == |o.labels| && InRange(l.prediction)
  {
    var p := Select(Edges(o, dist), o.reflexive);
    SelectIsBest(Edges(o, dist), o.reflexive);
    Linear(Weight(o, p), p.edge, Prediction(o, p))
  }

  /** The same learner as written, with the index-losing sparse `transpose_dot`. */
  function FindMaximumEdgeAsWritten(o: Svm, dist: Dense): (l: Learner)
    requires Shaped(o) && |dist| == |o.labels| && Finite(Edges(o, dist))
    ensures l.Linear? && l.wt.dim == NumFeatures(o) && InRange(l.wt)
    ensures l.prediction.dim == |o.labels| && InRange(l.prediction)
    ensures !o.transposed ==> l == FindMaximumEdge(o, dist)
  {
    var p := Select(Edges(o, dist), o.reflexive);
    SelectIsBest(Edges(o, dist), o.reflexive);
    Linear(Weight(o, p), p.edge, PredictionAsWritten(o, p))
  }

  /** The selected pick names an example and reports its own edge, counted with its ±1. */
  lemma SelectedEdge(o: Svm, dist: Dense)
    requires Shaped(o) && |dist| == |o.labels| && Finite(Edges(o, dist))
    ensures var p := Select(Edges(o, dist), o.reflexive);
      p.index < |o.labels| && p.edge == Flip(Edges(o, dist)[p.index], !p.negated)
  {
    SelectIsBest(Edges(o, dist), o.reflexive);
  }

  /** The learner returned is built from the selected pick. */
  lemma LearnerOfPick(o: Svm, dist: Dense)
    requires Shaped(o) && |dist| == |o.labels| && Finite(Edges(o, dist))
    ensures var p := Select(Edges(o, dist), o.reflexive);
      && p.index < |o.labels|
      && FindMaximumEdge(o, dist) == Linear(Weight(o, p), p.edge, Prediction(o, p))
  {
    SelectIsBest(Edges(o, dist), o.reflexive);
  }

  /** The edge of a labelled kernel column under dist is that example's edge, counted
      with the same ±1. */
  lemma LabelledKernelEdge(o: Svm, dist: Dense, m: nat, plus: bool)
    requires Shaped(o) && |dist| == |o.labels| && m < |o.labels|
    ensures DotDD(Labelled(Kernel(o, m), o.labels, plus), dist) == Flip(Edges(o, dist)[m], plus)
  {
    var h := Kernel(o, m);
    calc {
      DotDD(Labelled(h, o.labels, plus), dist);
    == { LabelledEdge(h, dist, o.labels, plus); }
      Flip(DotDD(h, Margins(dist, o.labels)), plus);
    == { EdgesAreKernelCorrelations(o, dist, m); }
      Flip(Edges(o, dist)[m], plus);
    }
  }

  /** The edge of a pick's prediction under dist is the picked example's edge, counted
      with the pick's ±1. */
  lemma PredictionEdge(o: Svm, dist: Dense, p: Pick)
    requires Shaped(o) && |dist| == |o.labels| && p.index < |o.labels|
    ensures DotDD(ToDense(Prediction(o, p)), dist) == Flip(Edges(o, dist)[p.index], !p.negated)
  {
    PredictionOfPick(o, p);
    LabelledKernelEdge(o, dist, p.index, !p.negated);
  }

  /** The returned learner's weight vector is the picked example counted with the
      pick's ±1. */
  lemma WeightIsPickedExample(o: Svm, dist: Dense)
    requires Shaped(o) && |dist| == |o.labels| && Finite(Edges(o, dist))
    ensures var p := Select(Edges(o, dist), o.reflexive);
      p.index < |o.labels| && ToDense(FindMaximumEdge(o, dist).wt) == FlipAll(Example(o, p.index), !p.negated)
  {
    SelectedEdge(o, dist);
    LearnerOfPick(o, dist);
    LearnerOfPickFacts(o, dist, Select(Edges(o, dist), o.reflexive), FindMaximumEdge(o, dist));
  }

  /** The returned learner's prediction stands for the picked example's kernel column
      counted with the pick's ±1 and multiplied by the labels. */
  lemma PredictionIsLabelledKernel(o: Svm, dist: Dense)
    requires Shaped(o) && |dist| == |o.labels| && Finite(Edges(o, dist))
    ensures var p := Select(Edges(o, dist), o.reflexive);
      p.index < |o.labels|
      && ToDense(FindMaximumEdge(o, dist).prediction) == Labelled(Kernel(o, p.index), o.labels, !p.negated)
  {
    SelectedEdge(o, dist);
    LearnerOfPick(o, dist);
    LearnerOfPickFacts(o, dist, Select(Edges(o, dist), o.reflexive), FindMaximumEdge(o, dist));
  }

  /** The returned learner's edge under dist is the edge it reports. */
  lemma ReportedEdgeIsEdge(o: Svm, dist: Dense)
    requires Shaped(o) && |dist| == |o.labels| && Finite(Edges(o, dist))
    ensures ReportsItsEdge(FindMaximumEdge(o, dist), dist)
  {
    SelectedEdge(o, dist);
    LearnerOfPick(o, dist);
    LearnerOfPickFacts(o, dist, Select(Edges(o, dist), o.reflexive), FindMaximumEdge(o, dist));
  }

  /** The learner built from a pick that reports its own edge has the weight vector,
      prediction and edge the oracle promises. */
  lemma LearnerOfPickFacts(o: Svm, dist: Dense, p: Pick, l: Learner)
    requires Shaped(o) && |dist| == |o.labels| && p.index < |o.labels|
    requires p.edge == Flip(Edges(o, dist)[p.index], !p.negated)
    requires l == Linear(Weight(o, p), p.edge, Prediction(o, p))
    ensures ToDense(l.wt) == FlipAll(Example(o, p.index), !p.negated)
    ensures ToDense(l.prediction) == Labelled(Kernel(o, p.index), o.labels, !p.negated)
    ensures ReportsItsEdge(l, dist)
  {
    WeightIsExample(o, p);
    PredictionOfPick(o, p);
    PredictionEdge(o, dist, p);
  }

  /**
   * The returned learner is the best example: its edge is at least every example's
   * kernel correlation with the margins and, when reflexive, at least every negated
   * one too.
   */
  lemma MaximumEdgeIsBest(o: Svm, dist: Dense, m: nat)
    requires Shaped(o) && |dist| == |o.labels| && m < |o.labels|
    requires Finite(Edges(o, dist))
    ensures var l := FindMaximumEdge(o, dist);
      var e := DotDD(Kernel(o, m), Margins(dist, o.labels));
      && e <= l.edge
      && (o.reflexive ==> -e <= l.edge)
  {
    SelectIsBest(Edges(o, dist), o.reflexive);
    EdgesAreKernelCorrelations(o, dist, m);
  }

  // ---------------------------------------------------------------- the transposed prediction

  /** One feature that is 1 on two examples labelled +1 and -1, stored transposed. */
  const TwoExamples: Svm := Svm([Sparse(2, [Entry(0, 1.0), Entry(1, 1.0)])], [1, -1], true, false)

  /** The plain pick of example 0. */
  const FirstExample: Pick := Pick(0, false, 0.0)

  /** For TwoExamples the weight vector of example 0 is the single feature value 1. */
  lemma TwoExamplesWeight()
    ensures Shaped(TwoExamples) && Weight(TwoExamples, FirstExample).entries == [Entry(0, 1.0)]
  {
    var o := TwoExamples;
    var p := FirstExample;
    assert Shaped(o);
    var w := Weight(o, p);
    WeightIsExample(o, p);
    assert SparseColumn(o.data, 0) == [1.0];
    assert ToDense(w) == [1.0];
    ValueAtStored(w.entries, 0);
  }

  /** For TwoExamples the kernel column of example 0 is (1, 1). */
  lemma TwoExamplesBuffer()
    ensures Shaped(TwoExamples) && RowsWithin(TwoExamples.data, 2)
    ensures TransposeBuffer(TwoExamples.data, Weight(TwoExamples, FirstExample)) == [1.0, 1.0]
  {
    var o := TwoExamples;
    TwoExamplesWeight();
    ShapedRowsWithin(o);
    var w := Weight(o, FirstExample);
    assert SparseColumn(o.data, 0) == [1.0];
    assert SparseColumn(o.data, 1) == [1.0];
    assert EntriesDot(w.entries, [1.0]) == Times(1.0, 1.0) + EntriesDot([], [1.0]);
  }

  /** As written, both kernel values are stored under index 0 and multiplied by label 0. */
  lemma TwoExamplesAsWritten()
    ensures Shaped(TwoExamples)
    ensures PredictionAsWritten(TwoExamples, FirstExample).entries == [Entry(0, 1.0), Entry(0, 1.0)]
  {
    TwoExamplesBuffer();
    var bad := RawPredictionAsWritten(TwoExamples, FirstExample);
    assert bad.entries == [Entry(0, 1.0), Entry(0, 1.0)];
  }

  /** Corrected, kernel value i is stored under index i and multiplied by label i. */
  lemma TwoExamplesCorrected()
    ensures Shaped(TwoExamples)
    ensures Prediction(TwoExamples, FirstExample).entries == [Entry(0, 1.0), Entry(1, -1.0)]
  {
    TwoExamplesBuffer();
    var good := RawPrediction(TwoExamples, FirstExample);
    assert good.entries == [Entry(0, 1.0), Entry(1, 1.0)];
  }

  /**
   * Transposed, one feature that is 1 on two examples labelled +1 and -1, and the pick
   * of example 0: the kernel column is (1, 1), so the labelled prediction should stand
   * for (1, -1), and the corrected prediction does.  As written both values are stored
   * under index 0 and multiplied by label 0, so the prediction stands for (2, 0).
   */
  lemma TransposedPredictionLosesIndices()
    ensures Shaped(TwoExamples)
    ensures ToDense(PredictionAsWritten(TwoExamples, FirstExample)) == [2.0, 0.0]
    ensures ToDense(Prediction(TwoExamples, FirstExample)) == [1.0, -1.0]
  {
    TwoExamplesAsWritten();
    TwoExamplesCorrected();
    var bad := PredictionAsWritten(TwoExamples, FirstExample);
    var good := Prediction(TwoExamples, FirstExample);
    assert ValueAt(bad.entries, 0) == 2.0;
    assert ValueAt(bad.entries, 1) == 0.0;
    assert ValueAt(good.entries, 0) == 1.0;
    assert ValueAt(good.entries, 1) == -1.0;
  }
}
