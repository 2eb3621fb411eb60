/**
 * The raw-data oracle (src/oracles/RawDataOracle.cpp).  Every feature is a
 * hypothesis: hypothesis j predicts x_ij on example i.  A call computes every
 * hypothesis' edge Σ_i dist_i·label_i·x_ij, picks the largest (or, when reflexive,
 * possibly the negation of the smallest), and returns that hypothesis as a linear
 * learner whose prediction is its column multiplied by the labels.
 *
 * The data comes in one of two layouts.  Transposed, row j holds hypothesis j's
 * values on the examples; otherwise row i holds example i's features.
 */
module RawDataOracle {
  import opened Seqs
  import opened Vectors
  import opened LinAlg
  import opened WeakLearners
  import opened Oracles

  /** The oracle's state: the rows as stored, the labels, the layout and the
      `reflexive` flag. */
  datatype RawData = RawData(data: seq<Sparse>, labels: seq<int>, transposed: bool, reflexive: bool)

  /** The number of hypotheses: one per row when transposed, one per feature otherwise. */
  function NumHypotheses(o: RawData): nat
    requires |o.data| > 0
  {
    if o.transposed then |o.data| else o.data[0].dim
  }

  /**
   * What the products of a call need of the data: at least one row and one
   * hypothesis, rows with in-range increasing indices (as the readers build them),
   * and, transposed, rows of one coordinate per example; otherwise one row per
   * example, all of one dimension.
   */
  predicate Shaped(o: RawData)
  {
    && |o.data| > 0
    && (forall k :: 0 <= k < |o.data| ==> InRange(o.data[k]) && Increasing(o.data[k].entries))
    && (if o.transposed then RowsOfSparseDim(o.data, |o.labels|)
        else |o.data| == |o.labels| && RowsOfSparseDim(o.data, o.data[0].dim))
    && NumHypotheses(o) > 0
  }

  /** x_ij: what hypothesis j predicts on example i, in either layout. */
  function Value(o: RawData, i: nat, j: nat): real
    requires Shaped(o) && i < |o.labels| && j < NumHypotheses(o)
  {
    if o.transposed then ValueAt(o.data[j].entries, i) else ValueAt(o.data[i].entries, j)
  }

  /** Hypothesis j's values on all examples. */
  function Hypothesis(o: RawData, j: nat): (h: Dense)
    requires Shaped(o) && j < NumHypotheses(o)
    ensures |h| == |o.labels|
    ensures forall i :: 0 <= i < |h| ==> h[i] == Value(o, i, j)
  {
    seq(|o.labels|, i requires 0 <= i < |o.labels| => Value(o, i, j))
  }

  /** The edges of lines 37-46: `dot(data, dist_labels)` when transposed, otherwise
      `transpose_dot(data, dist_labels)`. */
  function Edges(o: RawData, dist: Dense): (edges: Dense)
    requires Shaped(o) && |dist| == |o.labels|
    ensures |edges| == NumHypotheses(o)
  {
    var dl := Margins(dist, o.labels);
    if o.transposed then MatVecDense(SparseRows(o.data), Dn(dl))
    else TransposeDot(SparseRows(o.data), dl, o.data[0].dim)
  }

  /** In both layouts edge j is hypothesis j's correlation with the margins,
      Σ_i dist_i·label_i·x_ij. */
  lemma EdgesAreCorrelations(o: RawData, dist: Dense, j: nat)
    requires Shaped(o) && |dist| == |o.labels| && j < NumHypotheses(o)
    ensures Edges(o, dist)[j] == DotDD(Hypothesis(o, j), Margins(dist, o.labels))
  {
    var dl := Margins(dist, o.labels);
    var rows := SparseRows(o.data);
    if o.transposed {
      assert ToDense(o.data[j]) == Hypothesis(o, j);
      DotSDIsDenseDot(o.data[j], dl);
    } else {
      var d := o.data[0].dim;
      TransposeDotColumns(rows, dl, d, j);
      assert Column(rows, d, j) == Hypothesis(o, j);
    }
  }

  /** The prediction before labelling: hypothesis p's row, scaled by -1 when negated,
      when transposed; otherwise `dot(data, wt)`, one entry per example. */
  function RawPrediction(o: RawData, p: Pick): (r: Sparse)
    requires Shaped(o) && p.index < NumHypotheses(o)
    ensures InRange(r) && r.dim == |o.labels|
  {
    if o.transposed then
      var row := o.data[p.index];
      if p.negated then
        ScaleSparseIsDenseScale(row, -1.0);
        ScaleSparse(row, -1.0)
      else row
    else MatVecSparse(SparseRows(o.data), Sp(UnitWeight(NumHypotheses(o), p)))
  }

  /** `find_maximum_edge_weak_learner`: select, then build the linear learner. */
  function FindMaximumEdge(o: RawData, dist: Dense): (l: Learner)
    requires Shaped(o) && |dist| == |o.labels|
    requires |Edges(o, dist)| > 0 && Finite(Edges(o, dist))
    ensures l.Linear? && l.wt.dim == NumHypotheses(o) && Nnz(l.wt) == 1
    ensures l.prediction.dim == |o.labels| && InRange(l.prediction)
  {
    var edges := Edges(o, dist);
    var p := Select(edges, o.reflexive);
    SelectIsBest(edges, o.reflexive);
    Linear(UnitWeight(|edges|, p), p.edge, LabelSparse(RawPrediction(o, p), o.labels))
  }

  /** Before labelling, the prediction at example i is hypothesis p's value there,
      counted with the pick's ±1. */
  lemma RawPredictionAt(o: RawData, p: Pick, i: nat)
    requires Shaped(o) && p.index < NumHypotheses(o) && i < |o.labels|
    ensures ValueAt(RawPrediction(o, p).entries, i) == Flip(Value(o, i, p.index), !p.negated)
  {
    if o.transposed {
      if p.negated {
        ValueAtScaleEntries(o.data[p.index].entries, -1.0, i);
      }
    } else {
      var rows := SparseRows(o.data);
      var r := MatVecSparse(rows, Sp(UnitWeight(NumHypotheses(o), p)));
      ValueAtStored(r.entries, i);
      DotWithUnit(o.data[i], p);
    }
  }

  /** After labelling, the prediction at example i is label i times hypothesis p's
      value there, counted with the pick's ±1. */
  lemma PredictionAt(o: RawData, p: Pick, i: nat)
    requires Shaped(o) && p.index < NumHypotheses(o) && i < |o.labels|
    ensures ToDense(LabelSparse(RawPrediction(o, p), o.labels))[i]
            == Labelled(Hypothesis(o, p.index), o.labels, !p.negated)[i]
  {
    var raw := RawPrediction(o, p);
    var y := o.labels[i] as real;
    var fx := Flip(Value(o, i, p.index), !p.negated);
    calc {
      ToDense(LabelSparse(raw, o.labels))[i];
      ValueAt(LabelEntries(raw.entries, o.labels), i);
    == { ValueAtLabelEntries(raw.entries, o.labels, i); }
      Times(y, ValueAt(raw.entries, i));
    == { RawPredictionAt(o, p, i); }
      Times(y, fx);
    }
  }

  /** The labelled prediction of a pick stands for its labelled hypothesis. */
  lemma PredictionOfPick(o: RawData, p: Pick)
    requires Shaped(o) && p.index < NumHypotheses(o)
    ensures ToDense(LabelSparse(RawPrediction(o, p), o.labels))
            == Labelled(Hypothesis(o, p.index), o.labels, !p.negated)
  {
    forall i | 0 <= i < |o.labels|
      ensures ToDense(LabelSparse(RawPrediction(o, p), o.labels))[i]
              == Labelled(Hypothesis(o, p.index), o.labels, !p.negated)[i]
    {
      PredictionAt(o, p, i);
    }
  }

  /**
   * The returned prediction stands for the picked hypothesis' values, counted with
   * the pick's ±1 and multiplied by the labels, in both layouts; and its edge under
   * dist is the edge the learner reports.
   */
  lemma PredictionIsLabelledHypothesis(o: RawData, dist: Dense)
    requires Shaped(o) && |dist| == |o.labels|
    requires |Edges(o, dist)| > 0 && Finite(Edges(o, dist))
    ensures var p := Select(Edges(o, dist), o.reflexive);
      var l := FindMaximumEdge(o, dist);
      && p.index < NumHypotheses(o)
      && ToDense(l.prediction) == Labelled(Hypothesis(o, p.index), o.labels, !p.negated)
      && DotDD(ToDense(l.prediction), dist) == l.edge
  {
    var edges := Edges(o, dist);
    var p := Select(edges, o.reflexive);
    SelectIsBest(edges, o.reflexive);
    var h := Hypothesis(o, p.index);
    PredictionOfPick(o, p);
    LabelledEdge(h, dist, o.labels, !p.negated);
    EdgesAreCorrelations(o, dist, p.index);
  }

  /**
   * The returned learner is the best hypothesis: its weight vector is the unit
   * vector of the pick, its edge is at least every hypothesis' edge and, when
   * reflexive, every negated hypothesis' edge too.
   */
  lemma MaximumEdgeIsBest(o: RawData, dist: Dense, j: nat)
    requires Shaped(o) && |dist| == |o.labels| && j < NumHypotheses(o)
    requires Finite(Edges(o, dist))
    ensures var l := FindMaximumEdge(o, dist);
      var e := DotDD(Hypothesis(o, j), Margins(dist, o.labels));
      && e <= l.edge
      && (o.reflexive ==> -e <= l.edge)
  {
    SelectIsBest(Edges(o, dist), o.reflexive);
    EdgesAreCorrelations(o, dist, j);
  }
}
