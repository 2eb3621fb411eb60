/**
 * What the oracles of src/oracles have in common: the margins dist_i·label_i that
 * every edge is built from, the ±1 a chosen hypothesis is counted with, the
 * multiplication of a prediction by the labels, and the max/min selection with its
 * reflexive branch that RawDataOracle and Svm share.
 */
module Oracles {
  import opened Seqs
  import opened Results
  import opened Vectors
  import opened LinAlg

  /** dist_i·label_i for every example: what example i adds to the edge of a
      hypothesis that predicts +1 on it. */
  function Margins(dist: Dense, labels: seq<int>): (dl: seq<real>)
    requires |dist| == |labels|
    ensures |dl| == |labels|
    ensures forall i :: 0 <= i < |dl| ==> dl[i] == dist[i] * labels[i] as real
  {
    seq(|labels|, i requires 0 <= i < |labels| => dist[i] * labels[i] as real)
  }

  /** c counted with a ±1: c on the +1 side, -c on the -1 side. */
  function Flip(c: real, plus: bool): real
  {
    if plus then c else -c
  }

  /** Every entry counted with the same ±1. */
  function FlipAll(s: seq<real>, plus: bool): (r: seq<real>)
    ensures |r| == |s|
    ensures forall i :: 0 <= i < |s| ==> r[i] == Flip(s[i], plus)
  {
    seq(|s|, i requires 0 <= i < |s| => Flip(s[i], plus))
  }

  lemma SumFlipAll(s: seq<real>, plus: bool)
    ensures Sum(FlipAll(s, plus)) == Flip(Sum(s), plus)
  {
    if plus {
      assert FlipAll(s, plus) == s;
    } else {
      assert FlipAll(s, plus) == ScaleAll(s, -1.0);
      SumScaleAll(s, -1.0);
    }
  }

  /** Counting one operand with a ±1 counts the dot product with it. */
  lemma {:induction false} DotDDFlipAll(a: Dense, b: Dense, plus: bool)
    requires |a| == |b|
    ensures DotDD(FlipAll(a, plus), b) == Flip(DotDD(a, b), plus)
    ensures DotDD(b, FlipAll(a, plus)) == Flip(DotDD(b, a), plus)
    decreases |a|
  {
    if |a| > 0 {
      var n := |a| - 1;
      assert FlipAll(a, plus)[..n] == FlipAll(a[..n], plus);
      DotDDFlipAll(a[..n], b[..n], plus);
    }
  }

  /** wt of the raw-data oracle and the `tmp` of the transposed Svm: one entry, -1 at a
      negated pick or +1, in a vector with one coordinate per hypothesis. */
  function UnitWeight(n: nat, p: Pick): (w: Sparse)
    ensures w.dim == n && Nnz(w) == 1
  {
    Sparse(n, [Entry(p.index, Flip(1.0, !p.negated))])
  }

  /** Against the unit weight vector of a pick, a row's dot product is its coordinate
      at the pick, counted with the pick's ±1. */
  lemma DotWithUnit(a: Sparse, p: Pick)
    requires InRange(a) && Increasing(a.entries) && p.index < a.dim
    ensures DotSS(a, UnitWeight(a.dim, p)) == Flip(ValueAt(a.entries, p.index), !p.negated)
  {
    var w := UnitWeight(a.dim, p);
    DotSSIsDenseDot(a, w);
    DotDDSymmetric(ToDense(a), ToDense(w));
    DotSDIsDenseDot(w, ToDense(a));
    assert w.entries[1..] == [];
    assert EntriesDot(w.entries, ToDense(a)) == Times(ToDense(a)[p.index], Flip(1.0, !p.negated));
  }

  // ---------------------------------------------------------------- labelling a prediction

  /** Every stored index names an example. */
  predicate IndexesExamples(es: seq<Entry>, n: nat)
  {
    forall k :: 0 <= k < |es| ==> es[k].index < n
  }

  /** `prediction.val[i] *= labels[prediction.index[i]]`: each stored value times the
      label of the example it is stored for. */
  function LabelEntries(es: seq<Entry>, labels: seq<int>): (r: seq<Entry>)
    requires IndexesExamples(es, |labels|)
    ensures |r| == |es|
    ensures forall k :: 0 <= k < |es| ==> r[k].index == es[k].index
  {
    seq(|es|, k requires 0 <= k < |es| => Entry(es[k].index, es[k].value * labels[es[k].index] as real))
  }

  /** Labelling multiplies what is stored at example j by label j. */
  lemma ValueAtLabelEntries(es: seq<Entry>, labels: seq<int>, j: nat)
    requires IndexesExamples(es, |labels|) && j < |labels|
    ensures ValueAt(LabelEntries(es, labels), j) == Times(labels[j] as real, ValueAt(es, j))
  {
    var y := labels[j] as real;
    calc {
      ValueAt(LabelEntries(es, labels), j);
    == { ValueAtIsSum(LabelEntries(es, labels), j); }
      Sum(Picks(LabelEntries(es, labels), j));
    == { PicksLabel(es, labels, j); }
      Sum(ScaleAll(Picks(es, j), y));
    == { SumScaleAll(Picks(es, j), y); }
      y * Sum(Picks(es, j));
    == { ValueAtIsSum(es, j); }
      y * ValueAt(es, j);
    ==
      Times(y, ValueAt(es, j));
    }
  }

  /** At example j, labelling scales every pick by label j. */
  lemma PicksLabel(es: seq<Entry>, labels: seq<int>, j: nat)
    requires IndexesExamples(es, |labels|) && j < |labels|
    ensures Picks(LabelEntries(es, labels), j) == ScaleAll(Picks(es, j), labels[j] as real)
  {
    var y := labels[j] as real;
    forall k | 0 <= k < |es|
      ensures Picks(LabelEntries(es, labels), j)[k] == ScaleAll(Picks(es, j), y)[k]
    {
      if es[k].index != j {
        assert y * 0.0 == 0.0;
      }
    }
  }

  /** The labelled sparse prediction: dimension and indices kept. */
  function LabelSparse(v: Sparse, labels: seq<int>): (r: Sparse)
    requires IndexesExamples(v.entries, |labels|)
    ensures r.dim == v.dim && Nnz(r) == Nnz(v)
  {
    Sparse(v.dim, LabelEntries(v.entries, labels))
  }

  /** A hypothesis' values on the examples, counted with a ±1 and multiplied by the
      labels: the dense prediction an oracle promises. */
  function Labelled(h: Dense, labels: seq<int>, plus: bool): (r: Dense)
    requires |h| == |labels|
    ensures |r| == |h|
    ensures forall i :: 0 <= i < |h| ==> r[i] == Times(labels[i] as real, Flip(h[i], plus))
  {
    seq(|h|, i requires 0 <= i < |h| => Times(labels[i] as real, Flip(h[i], plus)))
  }

  /** One example's term: its weight times its labelled prediction is its margin times
      the hypothesis' value, counted with the same ±1. */
  lemma LabelledTermStep(d: real, y: int, x: real, plus: bool)
    ensures Times(d, Times(y as real, Flip(x, plus))) == Flip(Times(d * y as real, x), plus)
  {
  }

  /**
   * The edge of a labelled prediction, Σ_i dist_i·prediction_i, is the hypothesis'
   * correlation with the margins, Σ_i dist_i·label_i·h_i, counted with the same ±1.
   */
  lemma {:induction false} LabelledEdge(h: Dense, dist: Dense, labels: seq<int>, plus: bool)
    requires |h| == |dist| == |labels|
    ensures DotDD(Labelled(h, labels, plus), dist) == Flip(DotDD(h, Margins(dist, labels)), plus)
    decreases |h|
  {
    if |h| > 0 {
      var n := |h| - 1;
      var m := Margins(dist, labels);
      calc {
        DotDD(Labelled(h, labels, plus), dist);
      == { assert Labelled(h, labels, plus)[..n] == Labelled(h[..n], labels[..n], plus); }
        DotDD(Labelled(h[..n], labels[..n], plus), dist[..n]) + Times(dist[n], Times(labels[n] as real, Flip(h[n], plus)));
      == { LabelledEdge(h[..n], dist[..n], labels[..n], plus); }
        Flip(DotDD(h[..n], Margins(dist[..n], labels[..n])), plus) + Times(dist[n], Times(labels[n] as real, Flip(h[n], plus)));
      == { LabelledTermStep(dist[n], labels[n], h[n], plus); }
        Flip(DotDD(h[..n], Margins(dist[..n], labels[..n])), plus) + Flip(Times(m[n], h[n]), plus);
      == { MarginsPrefix(dist, labels, n); }
        Flip(DotDD(h, m), plus);
      }
    }
  }

  /** The margins of a prefix are the prefix of the margins. */
  lemma MarginsPrefix(dist: Dense, labels: seq<int>, n: nat)
    requires |dist| == |labels| && n <= |labels|
    ensures Margins(dist, labels)[..n] == Margins(dist[..n], labels[..n])
  {
    forall i | 0 <= i < n
      ensures Margins(dist, labels)[..n][i] == Margins(dist[..n], labels[..n])[i]
    {
    }
  }

  // ---------------------------------------------------------------- max/min selection

  /** The hypothesis an oracle returns: its position, whether it is the negated one
      of the reflexive branch, and its edge. */
  datatype Pick = Pick(index: nat, negated: bool, edge: real)

  /**
   * The selection loop and the branch after it: the first strict maximum and the
   * first strict minimum, starting from -DBL_MAX and DBL_MAX at position 0; the
   * minimum's hypothesis negated is taken iff reflexive, min < 0 and -min > max.
   */
  function Select(edges: Dense, reflexive: bool): (p: Pick)
    ensures p.negated ==> reflexive
    ensures p.edge == if p.negated then -Min(edges) else Max(edges)
  {
    var maxIndex := ArgMax(edges).GetOr(0);
    var minIndex := ArgMin(edges).GetOr(0);
    var maxEdge := Max(edges);
    var minEdge := Min(edges);
    if reflexive && minEdge < 0.0 && -minEdge > maxEdge then Pick(minIndex, true, -minEdge)
    else Pick(maxIndex, false, maxEdge)
  }

  /** Every edge is a finite double. */
  predicate Finite(edges: Dense)
  {
    forall j :: 0 <= j < |edges| ==> -DblMax <= edges[j] <= DblMax
  }

  /**
   * For finite edges of at least one hypothesis, the pick is a hypothesis whose
   * reported edge is its own (negated in the reflexive branch), no hypothesis beats
   * it, no negated one does either when reflexive is set, and the negated branch is
   * taken exactly when reflexive is set and some negated hypothesis beats every
   * plain one.  Ties go to the first position.
   */
  lemma SelectIsBest(edges: Dense, reflexive: bool)
    requires |edges| > 0 && Finite(edges)
    ensures var p := Select(edges, reflexive);
      && p.index < |edges|
      && p.edge == Flip(edges[p.index], !p.negated)
      && (forall j :: 0 <= j < |edges| ==> edges[j] <= p.edge)
      && (reflexive ==> forall j :: 0 <= j < |edges| ==> -edges[j] <= p.edge)
      && (p.negated <==> reflexive && exists j :: 0 <= j < |edges| && NegatedBeatsAll(edges, j))
      && (forall j :: 0 <= j < p.index ==> Flip(edges[j], !p.negated) < p.edge)
  {
    var p := Select(edges, reflexive);
    MaxAttained(edges);
    MinAttained(edges);
    if p.negated {
      assert NegatedBeatsAll(edges, p.index);
    } else if reflexive {
      forall j | 0 <= j < |edges|
        ensures !NegatedBeatsAll(edges, j)
      {
        assert Min(edges) <= edges[j];
        assert !(edges[ArgMax(edges).GetOr(0)] < -edges[j]);
      }
    }
  }

  /** Hypothesis j negated beats every hypothesis as it is. */
  predicate NegatedBeatsAll(edges: Dense, j: nat)
    requires j < |edges|
  {
    forall k :: 0 <= k < |edges| ==> edges[k] < -edges[j]
  }

  /** For finite edges of at least one hypothesis the maximum is attained at the
      position `argmax` reports (position 0 when it reports none). */
  lemma MaxAttained(edges: Dense)
    requires |edges| > 0 && Finite(edges)
    ensures ArgMax(edges).GetOr(0) < |edges| && edges[ArgMax(edges).GetOr(0)] == Max(edges)
    ensures forall j :: 0 <= j < ArgMax(edges).GetOr(0) ==> edges[j] < Max(edges)
  {
    ArgMaxAgreesWithMax(edges);
  }

  /** The same for the minimum and `argmin`. */
  lemma MinAttained(edges: Dense)
    requires |edges| > 0 && Finite(edges)
    ensures ArgMin(edges).GetOr(0) < |edges| && edges[ArgMin(edges).GetOr(0)] == Min(edges)
    ensures forall j :: 0 <= j < ArgMin(edges).GetOr(0) ==> Min(edges) < edges[j]
  {
    ArgMinAgreesWithMin(edges);
  }
}
