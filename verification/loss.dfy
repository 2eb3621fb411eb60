/**
 * The binary 0/1 loss evaluator (src/EvaluateLoss.cpp).
 *
 * A prediction of exactly zero is a tie; it is broken towards +1 when tie breaking
 * is on (the default) and towards -1 otherwise.  An example counts as an error when
 * its label times the tie-broken prediction is negative, so a label of 0 never does.
 */
module Loss {
  import opened Results
  import opened Vectors

  datatype Evaluator = Evaluator(tieBreaking: bool)

  /** The default constructor breaks ties in favour of +1. */
  function DefaultEvaluator(): (e: Evaluator)
    ensures e.tieBreaking
  {
    Evaluator(true)
  }

  /** The prediction with a tie replaced by ±1. */
  function BreakTie(e: Evaluator, prediction: real): (p: real)
    ensures p != 0.0
    ensures prediction != 0.0 ==> p == prediction
    ensures prediction == 0.0 ==> (p == 1.0 <==> e.tieBreaking) && (p == -1.0 <==> !e.tieBreaking)
  {
    if prediction == 0.0 then (if e.tieBreaking then 1.0 else -1.0) else prediction
  }

  /** The loss of one example: 1 when label·prediction is negative after the tie is broken. */
  function BinaryLoss(e: Evaluator, prediction: real, y: int): (r: int)
    ensures r == 0 || r == 1
  {
    if (y as real) * BreakTie(e, prediction) < 0.0 then 1 else 0
  }

  /** The sign a prediction votes for, ties included. */
  predicate VotesPlus(e: Evaluator, prediction: real)
  {
    prediction > 0.0 || (prediction == 0.0 && e.tieBreaking)
  }

  /**
   * An example is an error exactly when its label is nonzero and its sign differs
   * from the sign the prediction votes for; in particular a label of 0 never counts.
   */
  lemma BinaryLossIsSignDisagreement(e: Evaluator, prediction: real, y: int)
    ensures BinaryLoss(e, prediction, y) == 1
      <==> (y > 0 && !VotesPlus(e, prediction)) || (y < 0 && VotesPlus(e, prediction))
  {
    var p := BreakTie(e, prediction);
    if y > 0 {
      assert (y as real) * p < 0.0 <==> p < 0.0;
    } else if y < 0 {
      assert (y as real) * p < 0.0 <==> p > 0.0;
    }
  }

  /** The number of errors among the first |predictions| examples. */
  function Errors(e: Evaluator, predictions: Dense, labels: seq<int>): nat
    requires |predictions| <= |labels|
  {
    if |predictions| == 0 then 0 else
      var n := |predictions| - 1;
      Errors(e, predictions[..n], labels) + BinaryLoss(e, predictions[n], labels[n])
  }

  /** Errors counted over a prefix never exceed the prefix length. */
  lemma {:induction false} ErrorsBounded(e: Evaluator, predictions: Dense, labels: seq<int>)
    requires |predictions| <= |labels|
    ensures Errors(e, predictions, labels) <= |predictions|
  {
    if |predictions| > 0 {
      ErrorsBounded(e, predictions[..|predictions| - 1], labels);
    }
  }

  /** The number of examples whose label is nonzero, among the first n. */
  function Labelled(labels: seq<int>, n: nat): nat
    requires n <= |labels|
  {
    if n == 0 then 0 else Labelled(labels, n - 1) + (if labels[n - 1] != 0 then 1 else 0)
  }

  /** Only examples with a nonzero label can count as errors. */
  lemma {:induction false} ErrorsWithinLabelled(e: Evaluator, predictions: Dense, labels: seq<int>)
    requires |predictions| <= |labels|
    ensures Errors(e, predictions, labels) <= Labelled(labels, |predictions|)
  {
    if |predictions| > 0 {
      var n := |predictions| - 1;
      ErrorsWithinLabelled(e, predictions[..n], labels);
      BinaryLossIsSignDisagreement(e, predictions[n], labels[n]);
    }
  }

  /**
   * The batch loss: the error count and the error rate.  The rate is
   * total / dim; with no predictions that is 0/0, a NaN, which `None` stands for.
   */
  method BinaryLossAll(e: Evaluator, predictions: Dense, labels: seq<int>)
    returns (total: int, percent: Option<real>)
    requires |predictions| <= |labels|
    ensures total == Errors(e, predictions, labels)
    ensures 0 <= total <= |predictions|
    ensures percent.None? <==> |predictions| == 0
    ensures percent.Some? ==> percent.value * (|predictions| as real) == total as real
  {
    total := 0;
    var i := 0;
    while i < |predictions|
      invariant 0 <= i <= |predictions|
      invariant total == Errors(e, predictions[..i], labels)
    {
      assert predictions[..i + 1][..i] == predictions[..i];
      total := total + BinaryLoss(e, predictions[i], labels[i]);
      i := i + 1;
    }
    assert predictions[..i] == predictions;
    ErrorsBounded(e, predictions, labels);
    if |predictions| == 0 {
      percent := None;
    } else {
      percent := Some((total as real) / (|predictions| as real));
    }
  }
}
