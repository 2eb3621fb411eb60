/**
 * The ensemble of src/Ensemble.cpp: weighted weak learners in insertion order,
 * add-or-merge, the weight accessors, prediction, and the model text the writer
 * prints and the reader parses.
 */
module Ensembles {
  import opened Results
  import opened Seqs
  import opened Text
  import opened Vectors
  import opened LinAlg
  import opened Streams
  import opened SparseText
  import opened WeakLearners
  import opened LearnerText

  /** `Ensemble`: the weighted learners in insertion order. */
  datatype Ensemble = Ensemble(members: seq<Weighted>)

  // ---------------------------------------------------------------- add

  /** `std::find` with the weighted learners' `operator==`: the first member whose
      learner is `equal` to l (the member's learner is the one asked). */
  function Find(ms: seq<Weighted>, l: Learner): (r: Option<nat>)
    ensures r.Some? ==> r.value < |ms| && Equal(ms[r.value].learner, l)
    ensures r.Some? ==> forall k :: 0 <= k < r.value ==> !Equal(ms[k].learner, l)
    ensures r.None? <==> forall k :: 0 <= k < |ms| ==> !Equal(ms[k].learner, l)
    decreases |ms|
  {
    if |ms| == 0 then None
    else if Equal(ms[0].learner, l) then Some(0)
    else
      var r := Find(ms[1..], l);
      if r.None? then None else Some(r.value + 1)
  }

  /**
   * `add`: when a member's learner equals the new one, that member's weight grows by
   * the new weight and the answer is true; otherwise the new member is appended and
   * the answer is false.  Exactly one of the two happens, to the first equal member.
   */
  function Add(e: Ensemble, w: Weighted): (r: (Ensemble, bool))
    ensures r.1 <==> exists k :: 0 <= k < |e.members| && Equal(e.members[k].learner, w.learner)
    ensures !r.1 ==> r.0.members == e.members + [w]
    ensures r.1 ==> exists k :: 0 <= k < |e.members| && Equal(e.members[k].learner, w.learner)
                      && (forall j :: 0 <= j < k ==> !Equal(e.members[j].learner, w.learner))
                      && r.0.members == e.members[k := AddWeight(e.members[k], w.weight)]
    ensures |r.0.members| == |e.members| + (if r.1 then 0 else 1)
  {
    match Find(e.members, w.learner)
    case None => (Ensemble(e.members + [w]), false)
    case Some(k) => (Ensemble(e.members[k := AddWeight(e.members[k], w.weight)]), true)
  }

  /** Adding the same learner twice: the second add merges, and the size stays. */
  lemma AddTwiceMerges(e: Ensemble, w: Weighted, v: Weighted)
    requires v.learner == w.learner
    ensures Add(Add(e, w).0, v).1
    ensures |Add(Add(e, w).0, v).0.members| == |Add(e, w).0.members|
  {
    var r := Add(e, w);
    EqualSameKind(w.learner, w.learner);
    if r.1 {
      var k :| 0 <= k < |e.members| && Equal(e.members[k].learner, w.learner)
               && r.0.members == e.members[k := AddWeight(e.members[k], w.weight)];
      assert r.0.members[k].learner == e.members[k].learner;
    } else {
      assert r.0.members[|e.members|] == w;
    }
  }

  // ---------------------------------------------------------------- weights

  /** `get_weights`: one weight per member, in insertion order. */
  function Weights(e: Ensemble): (r: seq<real>)
    ensures |r| == |e.members|
    ensures forall i :: 0 <= i < |r| ==> r[i] == e.members[i].weight
  {
    seq(|e.members|, i requires 0 <= i < |e.members| => e.members[i].weight)
  }

  /** The learners, which no weight operation touches. */
  function Learners(e: Ensemble): (r: seq<Learner>)
    ensures |r| == |e.members|
    ensures forall i :: 0 <= i < |r| ==> r[i] == e.members[i].learner
  {
    seq(|e.members|, i requires 0 <= i < |e.members| => e.members[i].learner)
  }

  /** `set_weights`: member i takes wts[i]; entries of wts past the size are unused. */
  function SetWeights(e: Ensemble, wts: seq<real>): (r: Ensemble)
    requires |wts| >= |e.members|
  {
    Ensemble(seq(|e.members|, i requires 0 <= i < |e.members| => SetWeight(e.members[i], wts[i])))
  }

  /** `scale_weights`. */
  function ScaleWeights(e: Ensemble, s: real): (r: Ensemble)
  {
    Ensemble(seq(|e.members|, i requires 0 <= i < |e.members| => ScaleWeight(e.members[i], s)))
  }

  /** `set_weight(wt, idx)`. */
  function SetWeightAt(e: Ensemble, x: real, idx: nat): (r: Ensemble)
    requires idx < |e.members|
  {
    Ensemble(e.members[idx := SetWeight(e.members[idx], x)])
  }

  /** `add_weight(wt, idx)`. */
  function AddWeightAt(e: Ensemble, x: real, idx: nat): (r: Ensemble)
    requires idx < |e.members|
  {
    Ensemble(e.members[idx := AddWeight(e.members[idx], x)])
  }

  /** `set_weights` and `get_weights` are inverse: setting the weights read changes
      nothing, and reading after setting gives the first `size()` values set.  No
      weight operation changes the learners. */
  lemma WeightsRoundTrip(e: Ensemble, wts: seq<real>)
    requires |wts| >= |e.members|
    ensures SetWeights(e, Weights(e)) == e
    ensures Weights(SetWeights(e, wts)) == wts[..|e.members|]
    ensures Learners(SetWeights(e, wts)) == Learners(e)
  {
    assert SetWeights(e, Weights(e)).members == e.members;
  }

  /** `scale_weights` scales every weight and their total; the learners stay. */
  lemma ScaleWeightsEffect(e: Ensemble, s: real)
    ensures Weights(ScaleWeights(e, s)) == ScaleAll(Weights(e), s)
    ensures Sum(Weights(ScaleWeights(e, s))) == s * Sum(Weights(e))
    ensures Learners(ScaleWeights(e, s)) == Learners(e)
  {
    forall i | 0 <= i < |e.members|
      ensures Weights(ScaleWeights(e, s))[i] == ScaleAll(Weights(e), s)[i]
    {
      Commute(e.members[i].weight, s);
    }
    SumScaleAll(Weights(e), s);
  }

  /** `set_weight` and `add_weight` change the weight at idx only: the weights read
      afterwards differ from before at idx alone, and `add_weight` raises the total by
      exactly the amount added. */
  lemma WeightAtEffect(e: Ensemble, x: real, idx: nat)
    requires idx < |e.members|
    ensures Weights(SetWeightAt(e, x, idx)) == Weights(e)[idx := x]
    ensures Weights(AddWeightAt(e, x, idx)) == Weights(e)[idx := Weights(e)[idx] + x]
    ensures Sum(Weights(AddWeightAt(e, x, idx))) == Sum(Weights(e)) + x
    ensures Learners(SetWeightAt(e, x, idx)) == Learners(e) == Learners(AddWeightAt(e, x, idx))
  {
    SumUpdate(Weights(e), idx, x);
  }

  /** Either way `add` goes, the weights' total grows by the new weight. */
  lemma AddTotal(e: Ensemble, w: Weighted)
    ensures Sum(Weights(Add(e, w).0)) == Sum(Weights(e)) + w.weight
  {
    var r := Add(e, w);
    if r.1 {
      var k :| 0 <= k < |e.members| && r.0.members == e.members[k := AddWeight(e.members[k], w.weight)];
      assert r.0 == AddWeightAt(e, w.weight, k);
      WeightAtEffect(e, w.weight, k);
    } else {
      forall i | 0 <= i < |r.0.members|
        ensures Weights(r.0)[i] == (Weights(e) + [w.weight])[i]
      {
        assert r.0.members[i] == (e.members + [w])[i];
      }
      SumPointwise(Weights(r.0), Weights(e) + [w.weight]);
      SumAppend(Weights(e), [w.weight]);
      SumSingleton(w.weight);
    }
  }

  // ---------------------------------------------------------------- one example

  /** Every member predicts on examples of dimension n. */
  predicate Fits(e: Ensemble, n: nat)
  {
    forall k :: 0 <= k < |e.members| ==> e.members[k].learner.wt.dim == n && InRange(e.members[k].learner.wt)
  }

  /** The members' weighted predictions on x. */
  function Terms(e: Ensemble, x: Dense): (r: seq<real>)
    requires Fits(e, |x|)
    ensures |r| == |e.members|
    ensures forall k :: 0 <= k < |r| ==> r[k] == WeightedPredictDense(e.members[k], x)
  {
    seq(|e.members|, k requires 0 <= k < |e.members| => WeightedPredictDense(e.members[k], x))
  }

  /** `predict(const DenseVector& x)`: the weighted predictions added up in order. */
  function PredictDense(e: Ensemble, x: Dense): real
    requires Fits(e, |x|)
  {
    Sum(Terms(e, x))
  }

  /** The members' weighted predictions on a sparse x. */
  function SparseTerms(e: Ensemble, x: Sparse): (r: seq<real>)
    requires forall k :: 0 <= k < |e.members| ==> e.members[k].learner.wt.dim == x.dim
    ensures |r| == |e.members|
    ensures forall k :: 0 <= k < |r| ==> r[k] == WeightedPredictSparse(e.members[k], x)
  {
    seq(|e.members|, k requires 0 <= k < |e.members| => WeightedPredictSparse(e.members[k], x))
  }

  /** `predict(const SparseVector& x)`. */
  function PredictSparse(e: Ensemble, x: Sparse): real
    requires forall k :: 0 <= k < |e.members| ==> e.members[k].learner.wt.dim == x.dim
  {
    Sum(SparseTerms(e, x))
  }

  /** On ordered, in-range vectors the two single-example overloads agree. */
  lemma PredictSparseIsDense(e: Ensemble, x: Sparse)
    requires Fits(e, x.dim) && InRange(x) && Increasing(x.entries)
    requires forall k :: 0 <= k < |e.members| ==> Increasing(e.members[k].learner.wt.entries)
    ensures PredictSparse(e, x) == PredictDense(e, ToDense(x))
  {
    forall k | 0 <= k < |e.members|
      ensures SparseTerms(e, x)[k] == Terms(e, ToDense(x))[k]
    {
      WeakLearners.PredictSparseIsDense(e.members[k].learner, x);
    }
    SumPointwise(SparseTerms(e, x), Terms(e, ToDense(x)));
  }

  /** `add_weight(a, idx)` moves the prediction by member idx's learner weighted by a. */
  lemma AddWeightAtPredict(e: Ensemble, a: real, idx: nat, x: Dense)
    requires idx < |e.members| && Fits(e, |x|)
    ensures Fits(AddWeightAt(e, a, idx), |x|)
    ensures PredictDense(AddWeightAt(e, a, idx), x)
            == PredictDense(e, x) + WeightedPredictDense(Weighted(e.members[idx].learner, a), x)
  {
    var e' := AddWeightAt(e, a, idx);
    assert Fits(e', |x|) by {
      forall k | 0 <= k < |e'.members|
        ensures e'.members[k].learner == e.members[k].learner
      {
      }
    }
    var t := Terms(e, x);
    var q := WeightedPredictDense(Weighted(e.members[idx].learner, a), x);
    forall k | 0 <= k < |e.members|
      ensures Terms(e', x)[k] == if k == idx then t[k] + q else t[k]
    {
      if k == idx {
        assert e'.members[k] == AddWeight(e.members[k], a);
        WeightOperations(e.members[k], e.members[k], 0.0, 1.0, a, x);
      } else {
        assert e'.members[k] == e.members[k];
      }
    }
    PredictShift(e, e', x, idx, q);
  }

  /** A prediction whose terms differ from e's at idx alone, by d, is e's plus d. */
  lemma PredictShift(e: Ensemble, e': Ensemble, x: Dense, idx: nat, d: real)
    requires Fits(e, |x|) && Fits(e', |x|) && idx < |e.members| == |e'.members|
    requires forall k :: 0 <= k < |e.members| ==>
               Terms(e', x)[k] == if k == idx then Terms(e, x)[k] + d else Terms(e, x)[k]
    ensures PredictDense(e', x) == PredictDense(e, x) + d
  {
    SumShiftedTerm(Terms(e', x), Terms(e, x), idx, d);
  }

  /** A prediction whose terms are e's followed by q is e's plus q. */
  lemma PredictAppend(e: Ensemble, e': Ensemble, x: Dense, q: real)
    requires Fits(e, |x|) && Fits(e', |x|) && |e'.members| == |e.members| + 1
    requires forall k :: 0 <= k < |e'.members| ==> Terms(e', x)[k] == (Terms(e, x) + [q])[k]
    ensures PredictDense(e', x) == PredictDense(e, x) + q
  {
    SumPointwise(Terms(e', x), Terms(e, x) + [q]);
    SumAppend(Terms(e, x), [q]);
    SumSingleton(q);
  }

  lemma Commute(x: real, y: real)
    ensures x * y == y * x
  {
  }

  /** All members are of one kind. */
  predicate OneKind(ms: seq<Weighted>, linear: bool)
  {
    forall k :: 0 <= k < |ms| ==> ms[k].learner.Linear? == linear
  }

  /** With members of one kind, `add` moves the prediction by the new member's weighted
      prediction whether it merges or appends: equal learners of one kind predict
      alike. */
  lemma AddPredict(e: Ensemble, w: Weighted, x: Dense)
    requires Fits(e, |x|) && w.learner.wt.dim == |x| && InRange(w.learner.wt)
    requires OneKind(e.members, w.learner.Linear?)
    ensures Fits(Add(e, w).0, |x|)
    ensures PredictDense(Add(e, w).0, x) == PredictDense(e, x) + WeightedPredictDense(w, x)
  {
    var f := Find(e.members, w.learner);
    if f.Some? {
      assert Add(e, w).0 == AddWeightAt(e, w.weight, f.value);
      MergePredict(e, w, x, f.value);
    } else {
      assert Add(e, w).0 == Ensemble(e.members + [w]);
      AppendPredict(e, w, x);
    }
  }

  /** Merging w into an equal member k of its kind adds w's weighted prediction. */
  lemma MergePredict(e: Ensemble, w: Weighted, x: Dense, k: nat)
    requires Fits(e, |x|) && k < |e.members| && Equal(e.members[k].learner, w.learner)
    requires e.members[k].learner.Linear? == w.learner.Linear?
    ensures Fits(AddWeightAt(e, w.weight, k), |x|)
    ensures PredictDense(AddWeightAt(e, w.weight, k), x) == PredictDense(e, x) + WeightedPredictDense(w, x)
  {
    AddWeightAtPredict(e, w.weight, k, x);
    EqualWeightedPredictAlike(Weighted(e.members[k].learner, w.weight), w, x);
  }

  /** Appending w adds w's weighted prediction. */
  lemma AppendPredict(e: Ensemble, w: Weighted, x: Dense)
    requires Fits(e, |x|) && w.learner.wt.dim == |x| && InRange(w.learner.wt)
    ensures Fits(Ensemble(e.members + [w]), |x|)
    ensures PredictDense(Ensemble(e.members + [w]), x) == PredictDense(e, x) + WeightedPredictDense(w, x)
  {
    var e' := Ensemble(e.members + [w]);
    assert Fits(e', |x|) by {
      forall j | 0 <= j < |e'.members|
        ensures e'.members[j] == (e.members + [w])[j]
      {
      }
    }
    var t := Terms(e, x);
    var q := WeightedPredictDense(w, x);
    forall j | 0 <= j < |e'.members|
      ensures Terms(e', x)[j] == (t + [q])[j]
    {
      assert e'.members[j] == (e.members + [w])[j];
    }
    PredictAppend(e, e', x, q);
  }

  // ---------------------------------------------------------------- a data matrix

  /** What `predict(data)` needs: data[0] exists (the result's dimension), every
      member can predict on data, and every prediction has that dimension (the dense
      `axpy` asserts it). */
  predicate MatrixFitsAll(ms: seq<Weighted>, data: seq<Sparse>)
  {
    && |data| > 0
    && forall k :: 0 <= k < |ms| ==>
         MatrixFits(ms[k].learner, data) && |WeakLearners.PredictMatrix(ms[k].learner, data)| == data[0].dim
  }

  /** `predict(data)` after the loop has seen the members ms: a zero vector of
      dimension data[0].dim plus each weighted prediction, in order. */
  function PredictMatrixOf(ms: seq<Weighted>, data: seq<Sparse>): (r: Dense)
    requires MatrixFitsAll(ms, data)
    ensures |r| == data[0].dim
    decreases |ms|
  {
    if |ms| == 0 then Zeros(data[0].dim)
    else
      var last := ms[|ms| - 1];
      var sofar := PredictMatrixOf(ms[..|ms| - 1], data);
      Axpy(1.0, sofar, WeightedPredictMatrix(last, data))
  }

  /** `predict(const std::vector<SparseVector>& data)`. */
  function PredictMatrix(e: Ensemble, data: seq<Sparse>): (r: Dense)
    requires MatrixFitsAll(e.members, data)
    ensures |r| == data[0].dim
  {
    PredictMatrixOf(e.members, data)
  }

  /** The members' weighted predictions at example i. */
  function ColumnTerms(ms: seq<Weighted>, data: seq<Sparse>, i: nat): (r: seq<real>)
    requires MatrixFitsAll(ms, data) && i < data[0].dim
    ensures |r| == |ms|
    ensures forall k :: 0 <= k < |ms| ==> r[k] == WeightedPredictMatrix(ms[k], data)[i]
  {
    seq(|ms|, k requires 0 <= k < |ms| => WeightedPredictMatrix(ms[k], data)[i])
  }

  /** Dropping the last member drops the last column term. */
  lemma ColumnTermsPrefix(ms: seq<Weighted>, data: seq<Sparse>, i: nat)
    requires MatrixFitsAll(ms, data) && i < data[0].dim && |ms| > 0
    ensures MatrixFitsAll(ms[..|ms| - 1], data)
    ensures ColumnTerms(ms, data, i)[..|ms| - 1] == ColumnTerms(ms[..|ms| - 1], data, i)
  {
    var n := |ms| - 1;
    var front := ms[..n];
    assert MatrixFitsAll(front, data) by {
      forall k | 0 <= k < n
        ensures MatrixFits(front[k].learner, data)
        ensures |WeakLearners.PredictMatrix(front[k].learner, data)| == data[0].dim
      {
        assert front[k] == ms[k];
      }
    }
    var c := ColumnTerms(ms, data, i);
    var d := ColumnTerms(front, data, i);
    forall k | 0 <= k < n
      ensures c[k] == d[k]
    {
      assert front[k] == ms[k];
    }
  }

  /** One more member adds its weighted prediction at i to the prediction so far. */
  lemma PredictMatrixStep(ms: seq<Weighted>, data: seq<Sparse>, i: nat)
    requires MatrixFitsAll(ms, data) && i < data[0].dim && |ms| > 0
    requires MatrixFitsAll(ms[..|ms| - 1], data)
    requires ColumnTerms(ms, data, i)[..|ms| - 1] == ColumnTerms(ms[..|ms| - 1], data, i)
    ensures PredictMatrixOf(ms, data)[i]
            == PredictMatrixOf(ms[..|ms| - 1], data)[i] + ColumnTerms(ms, data, i)[|ms| - 1]
    ensures Sum(ColumnTerms(ms, data, i)) == Sum(ColumnTerms(ms[..|ms| - 1], data, i)) + ColumnTerms(ms, data, i)[|ms| - 1]
  {
  }

  /** Example i of `predict(data)` is the sum of the members' weighted predictions at i. */
  lemma {:induction false} PredictMatrixIsSum(ms: seq<Weighted>, data: seq<Sparse>, i: nat)
    requires MatrixFitsAll(ms, data) && i < data[0].dim
    ensures PredictMatrixOf(ms, data)[i] == Sum(ColumnTerms(ms, data, i))
    decreases |ms|
  {
    if |ms| == 0 {
      assert PredictMatrixOf(ms, data) == Zeros(data[0].dim);
    } else {
      ColumnTermsPrefix(ms, data, i);
      PredictMatrixIsSum(ms[..|ms| - 1], data, i);
      PredictMatrixStep(ms, data, i);
    }
  }

  /** For linear members on rows in increasing index order, example j of
      `predict(data)` is the single-example `predict` on column j, the vector of every
      hypothesis's value at example j. */
  lemma LinearPredictMatrixIsColumnwise(e: Ensemble, data: seq<Sparse>, j: nat)
    requires MatrixFitsAll(e.members, data) && OneKind(e.members, true)
    requires RowsIncreasing(data) && j < data[0].dim
    ensures Fits(e, |data|)
    ensures PredictMatrix(e, data)[j] == PredictDense(e, SparseColumn(data, j))
  {
    var col := SparseColumn(data, j);
    forall k | 0 <= k < |e.members|
      ensures ColumnTerms(e.members, data, j)[k] == Terms(e, col)[k]
    {
      WeightedLinearColumnwise(e.members[k], data, j);
    }
    PredictMatrixIsSum(e.members, data, j);
    SumPointwise(ColumnTerms(e.members, data, j), Terms(e, col));
  }

  // ---------------------------------------------------------------- the model text

  /** `TYPEWL`'s value: the first member's type, or `NONE` for an empty ensemble. */
  function TypeOf(e: Ensemble): (s: string)
    ensures |e.members| == 0 <==> s == "NONE"
  {
    if |e.members| > 0 then TypeName(e.members[0].learner) else "NONE"
  }

  /** `MODEL BEGIN`, `TYPEWL <type>`, `NUMWL <size>`, one line each. */
  function Header(typ: string, n: nat): seq<Item>
  {
    Chars("MODEL BEGIN") + (Chars("\n")
      + (Chars("TYPEWL ") + (Chars(typ) + (Chars("\n")
      + (Chars("NUMWL ") + (Chars(ShowNat(n)) + Chars("\n")))))))
  }

  /** The members' texts in order. */
  function Entries(ms: seq<Weighted>, shown: real -> real): seq<Item>
    decreases |ms|
  {
    if |ms| == 0 then [] else DumpWeighted(ms[0], shown) + Entries(ms[1..], shown)
  }

  const Footer: seq<Item> := Chars("MODEL END") + Chars("\n")

  /** `operator<<` of an ensemble. */
  function ShowEnsemble(e: Ensemble, shown: real -> real): seq<Item>
  {
    Header(TypeOf(e), |e.members|) + (Entries(e.members, shown) + Footer)
  }

  /** `chomp_input_until(MODEL)` and `BEGIN`, then the type and the count. */
  function ReadHeader(st: Stream): (r: Result<(seq<Item>, int, Stream)>)
    ensures r.Ok? ==> IntMin <= r.value.1 <= IntMax
    ensures r.Err? ==> r.error.Thrown? || r.error == Terminate || r.error == Diverges
  {
    var s1 :- ChompUntil(st, "MODEL");
    var s2 :- ExpectKeyword(s1, "BEGIN");
    ReadTypeAndCount(s2)
  }

  /** `TYPEWL` and its word, then the count. */
  function ReadTypeAndCount(st: Stream): (r: Result<(seq<Item>, int, Stream)>)
    ensures r.Ok? ==> IntMin <= r.value.1 <= IntMax
    ensures r.Err? ==> r.error.Thrown? || r.error == Terminate
  {
    var s3 :- ExpectKeyword(st, "TYPEWL");
    var t :- ExpectWord(s3);
    var n :- ReadCount(t.1);
    Ok((t.0, n.0, n.1))
  }

  /** `NUMWL` and its int. */
  function ReadCount(st: Stream): (r: Result<(int, Stream)>)
    ensures r.Ok? ==> IntMin <= r.value.0 <= IntMax
    ensures r.Err? ==> r.error.Thrown? || r.error == Terminate
  {
    var s4 :- ExpectKeyword(st, "NUMWL");
    ExpectInt(s4)
  }

  /** The empty learner the reader loads each member into. */
  function Fresh(typ: seq<Item>): Option<Weighted>
  {
    if typ == Chars("DSTUMP") then Some(Weighted(DefaultStump, 0.0))
    else if typ == Chars("RAWDATA") then Some(Weighted(DefaultLinear, 0.0))
    else None
  }

  /** The reader's loop over `num_wls` members.  The type is checked on every turn, so
      an unknown type passes when the count is not positive, and otherwise fails on the
      first turn, before anything is read. */
  function ReadMembers(st: Stream, typ: seq<Item>, count: int, acc: seq<Weighted>): (r: Result<(seq<Weighted>, Stream)>)
    ensures r.Ok? ==> acc <= r.value.0 && |r.value.0| == |acc| + (if count > 0 then count else 0)
    ensures r.Ok? && count > 0 ==> Fresh(typ).Some?
    ensures r.Err? ==> Fatal(r.error) || r.error == Thrown("Unknown weak learner type.")
  {
    if count <= 0 then Ok((acc, st))
    else
      match Fresh(typ)
      case None => Err(Thrown("Unknown weak learner type."))
      case Some(target) => ReadEach(Reader(target), st, count, acc)
  }

  /** One member's `operator>>` into a fresh learner of the target's kind. */
  function Reader(target: Weighted): (read: Stream -> Result<(Weighted, Stream)>)
    ensures forall s :: read(s).Err? ==> Fatal(read(s).error)
  {
    s => ReadWeighted(target, s)
  }

  /** The turns of the reader's loop once the type is known: `count` members read by
      `read`, one after another, after the members read so far. */
  function ReadEach(read: Stream -> Result<(Weighted, Stream)>, st: Stream, count: int, acc: seq<Weighted>): (r: Result<(seq<Weighted>, Stream)>)
    requires forall s :: read(s).Err? ==> Fatal(read(s).error)
    ensures r.Ok? ==> acc <= r.value.0 && |r.value.0| == |acc| + (if count > 0 then count else 0)
    ensures r.Err? ==> Fatal(r.error)
    decreases count
  {
    if count <= 0 then Ok((acc, st))
    else
      var w :- read(st);
      ReadEach(read, w.1, count - 1, acc + [w.0])
  }

  /** `MODEL END`. */
  function ReadFooter(st: Stream): Result<Stream>
  {
    var s :- ExpectKeyword(st, "MODEL");
    ExpectKeyword(s, "END")
  }

  /** `operator>>` of an ensemble.  Every message thrown on the way is caught and ends
      the program; the old members are discarded. */
  function ReadEnsemble(st: Stream): (r: Result<(Ensemble, Stream)>)
    ensures r.Err? ==> r.error == ExitFailure || r.error == Terminate || r.error == Diverges
  {
    ExitOnThrow(
      var h :- ReadHeader(st);
      var ms :- ReadMembers(h.2, h.0, h.1, []);
      var s :- ReadFooter(ms.1);
      Ok((Ensemble(ms.0), s)))
  }

  // ---------------------------------------------------------------- reading back what was written

  lemma Literals()
    ensures "MODEL BEGIN" == "MODEL" + " " + "BEGIN" && "MODEL END" == "MODEL" + " " + "END"
    ensures "TYPEWL " == "TYPEWL" + " " && "NUMWL " == "NUMWL" + " "
    ensures IsWord("MODEL") && IsWord("BEGIN") && IsWord("TYPEWL") && IsWord("NUMWL") && IsWord("END")
    ensures IsWord("DSTUMP") && IsWord("RAWDATA") && IsWord("NONE")
    ensures Chars("DSTUMP") != Chars("RAWDATA")
  {
    CharsInjective("DSTUMP", "RAWDATA");
  }

  /** `pad kw` as one piece of text. */
  lemma PadWord(pad: string, kw: string)
    ensures Chars(pad + kw) == Chars(pad) + Chars(kw)
  {
    CharsAppend(pad, kw);
  }

  /** The header's text regrouped word by word, as the reader meets it. */
  lemma HeaderText(typ: string, n: nat, rest: seq<Item>)
    ensures var t4 := Chars("\n") + rest;
            var t3 := Chars(" ") + Chars(ShowNat(n)) + t4;
            var t2 := Chars("\n") + Chars("NUMWL") + t3;
            var t1 := Chars(" ") + Chars(typ) + t2;
            var t0 := Chars("\n") + Chars("TYPEWL") + t1;
            Header(typ, n) + rest == Chars("MODEL") + (Chars(" ") + Chars("BEGIN") + t0)
  {
    Literals();
    CharsAppend("MODEL" + " ", "BEGIN");
    CharsAppend("MODEL", " ");
    CharsAppend("TYPEWL", " ");
    CharsAppend("NUMWL", " ");
    var a, sp, b, nl := Chars("MODEL"), Chars(" "), Chars("BEGIN"), Chars("\n");
    var t, y, u, d := Chars("TYPEWL"), Chars(typ), Chars("NUMWL"), Chars(ShowNat(n));
    var p4 := (u + sp) + (d + nl);
    var p2 := y + (nl + p4);
    var p0 := nl + ((t + sp) + p2);
    var t4 := nl + rest;
    var t3 := sp + d + t4;
    var t2 := nl + u + t3;
    var t1 := sp + y + t2;
    var t0 := nl + t + t1;
    calc {
      p4 + rest;
      { Assoc(u + sp, d + nl, rest); Assoc(d, nl, rest); }
      (u + sp) + (d + t4);
      { Assoc(u, sp, d + t4); Assoc(sp, d, t4); }
      u + t3;
    }
    calc {
      p2 + rest;
      { Assoc(y, nl + p4, rest); Assoc(nl, p4, rest); }
      y + (nl + (u + t3));
      { Assoc(nl, u, t3); }
      y + t2;
    }
    calc {
      p0 + rest;
      { Assoc(nl, (t + sp) + p2, rest); Assoc(t + sp, p2, rest); }
      nl + ((t + sp) + (y + t2));
      { Assoc(t, sp, y + t2); Assoc(sp, y, t2); }
      nl + (t + t1);
      { Assoc(nl, t, t1); }
      t0;
    }
    calc {
      Header(typ, n) + rest;
      (a + sp + b) + p0 + rest;
      { Assoc(a + sp + b, p0, rest); }
      (a + sp + b) + t0;
      { Assoc(a, sp, b); Assoc(a, sp + b, t0); }
      a + (sp + b + t0);
    }
  }

  lemma ReadCountFront(n: nat, rest: seq<Item>)
    requires n <= IntMax
    ensures ReadCount(Open(Chars("\n") + Chars("NUMWL") + (Chars(" ") + Chars(ShowNat(n)) + (Chars("\n") + rest))))
            == Ok((n as int, Open(Chars("\n") + rest)))
  {
    Literals();
    var t4 := Chars("\n") + rest;
    var t3 := Chars(" ") + Chars(ShowNat(n)) + t4;
    assert ExpectKeyword(Open(Chars("\n") + Chars("NUMWL") + t3), "NUMWL") == Ok(Open(t3)) by {
      ExpectKeywordFront("\n", "NUMWL", t3);
    }
    assert ReadInt(Open(t3)) == Read(Some(n as int), Open(t4)) by {
      ReadIntegerFront(" ", n, t4);
    }
    ReadCountStages(Open(Chars("\n") + Chars("NUMWL") + t3), Open(t3), (n as int, Open(t4)));
  }

  /** `NUMWL` then an integer, when both reads succeed. */
  lemma ReadCountStages(st: Stream, s4: Stream, r: (int, Stream))
    requires ExpectKeyword(st, "NUMWL") == Ok(s4)
    requires ReadInt(s4) == Read(Some(r.0), r.1) && !r.1.fail && !s4.fail && !s4.eof
    ensures ReadCount(st) == Ok(r)
  {
  }

  lemma ReadTypeAndCountFront(typ: string, n: nat, rest: seq<Item>)
    requires IsWord(typ) && n <= IntMax
    ensures var t2 := Chars("\n") + Chars("NUMWL") + (Chars(" ") + Chars(ShowNat(n)) + (Chars("\n") + rest));
            ReadTypeAndCount(Open(Chars("\n") + Chars("TYPEWL") + (Chars(" ") + Chars(typ) + t2)))
            == Ok((Chars(typ), n as int, Open(Chars("\n") + rest)))
  {
    Literals();
    var t2 := Chars("\n") + Chars("NUMWL") + (Chars(" ") + Chars(ShowNat(n)) + (Chars("\n") + rest));
    var t1 := Chars(" ") + Chars(typ) + t2;
    ExpectKeywordFront("\n", "TYPEWL", t1);
    ReadWordFront(" ", Chars(typ), t2);
    ReadCountFront(n, rest);
  }

  /** A written header is read back: the type word, the count, and the stream at the
      newline ending the `NUMWL` line. */
  lemma ReadHeaderFront(typ: string, n: nat, rest: seq<Item>)
    requires IsWord(typ) && n <= IntMax
    ensures ReadHeader(Open(Header(typ, n) + rest)) == Ok((Chars(typ), n as int, Open(Chars("\n") + rest)))
  {
    var t0 := HeaderAfterBegin(typ, n, rest);
    var u0 := Chars(" ") + Chars("BEGIN") + t0;
    HeaderChomp(typ, n, rest);
    Literals();
    ExpectKeywordFront(" ", "BEGIN", t0);
    ReadTypeAndCountFront(typ, n, rest);
    ReadHeaderStages(Open(Header(typ, n) + rest), Open(u0), Open(t0));
  }

  /** What follows `MODEL BEGIN` in a written header. */
  function HeaderAfterBegin(typ: string, n: nat, rest: seq<Item>): seq<Item>
  {
    Chars("\n") + Chars("TYPEWL") + (Chars(" ") + Chars(typ) + (Chars("\n") + Chars("NUMWL") + (Chars(" ") + Chars(ShowNat(n)) + (Chars("\n") + rest))))
  }

  /** Skipping to `MODEL` leaves ` BEGIN` and the rest of the header. */
  lemma HeaderChomp(typ: string, n: nat, rest: seq<Item>)
    requires IsWord(typ) && n <= IntMax
    ensures ChompUntil(Open(Header(typ, n) + rest), "MODEL")
            == Ok(Open(Chars(" ") + Chars("BEGIN") + HeaderAfterBegin(typ, n, rest)))
  {
    Literals();
    var u0 := Chars(" ") + Chars("BEGIN") + HeaderAfterBegin(typ, n, rest);
    HeaderText(typ, n, rest);
    assert Chars(JoinWords([] + ["MODEL"])) == Chars("MODEL");
    ChompSkipsTo([], "MODEL", u0);
  }

  /** The three reads of the header, one after the other. */
  lemma ReadHeaderStages(st: Stream, s1: Stream, s2: Stream)
    requires ChompUntil(st, "MODEL") == Ok(s1)
    requires ExpectKeyword(s1, "BEGIN") == Ok(s2)
    ensures ReadHeader(st) == ReadTypeAndCount(s2)
  {
  }

  /** `MODEL END` is read back, leaving its newline. */
  lemma ReadFooterFront(tail: seq<Item>)
    ensures ReadFooter(Open(Chars("\n") + (Footer + tail))) == Ok(Open(Chars("\n") + tail))
  {
    Literals();
    var t1 := Chars("\n") + tail;
    var t0 := Chars(" ") + Chars("END") + t1;
    CharsAppend("MODEL" + " ", "END");
    CharsAppend("MODEL", " ");
    calc {
      Chars("\n") + (Footer + tail);
      Chars("\n") + (Chars("MODEL") + Chars(" ") + Chars("END") + Chars("\n") + tail);
      { Assoc(Chars("MODEL") + Chars(" ") + Chars("END"), Chars("\n"), tail);
        Assoc(Chars("MODEL") + Chars(" "), Chars("END"), t1);
        Assoc(Chars("MODEL"), Chars(" "), Chars("END") + t1);
        Assoc(Chars(" "), Chars("END"), t1); }
      Chars("\n") + (Chars("MODEL") + t0);
      { Assoc(Chars("\n"), Chars("MODEL"), t0); }
      Chars("\n") + Chars("MODEL") + t0;
    }
    ExpectKeywordFront("\n", "MODEL", t0);
    ExpectKeywordFront(" ", "END", t1);
  }

  /** The default learner of l's kind, which the reader loads l's text into. */
  function DefaultOf(l: Learner): Learner
  {
    if l.Linear? then DefaultLinear else DefaultStump
  }

  /** What reading the text of ms gives: each learner as `Reloaded` into the default
      of its kind, each weight as printed. */
  function Reloads(ms: seq<Weighted>, shown: real -> real): (r: seq<Weighted>)
    ensures |r| == |ms|
  {
    seq(|ms|, k requires 0 <= k < |ms| =>
      Weighted(Reloaded(ms[k].learner, DefaultOf(ms[k].learner), shown), shown(ms[k].weight)))
  }

  /** The word `TYPEWL` carries for a kind. */
  function KindWord(linear: bool): string
  {
    if linear then "RAWDATA" else "DSTUMP"
  }

  /** Members of one kind, each of which the text can carry. */
  predicate Writable(ms: seq<Weighted>, linear: bool)
  {
    forall k :: 0 <= k < |ms| ==> ms[k].learner.Linear? == linear && Dumpable(ms[k].learner)
  }

  /** The default the reader loads into for the announced kind. */
  lemma FreshOfKind(linear: bool)
    ensures Fresh(Chars(KindWord(linear))) == Some(Target(linear))
  {
    Literals();
  }

  /** One member's text, after the newline ending the previous line, is read back. */
  lemma ReadOneMember(m: Weighted, target: Weighted, shown: real -> real, more: seq<Item>)
    requires m.learner.Linear? == target.learner.Linear? && Dumpable(m.learner)
    ensures ReadWeighted(target, Open(Chars("\n") + (DumpWeighted(m, shown) + more)))
            == Ok((Weighted(Reloaded(m.learner, target.learner, shown), shown(m.weight)), Open(Chars("\n") + more)))
  {
    DumpWeightedStart(m, shown, more);
    ReadWeightedAfterBlanks(target, "\n", DumpWeighted(m, shown) + more);
    ReadDumpWeighted(m, target, shown, more);
  }

  lemma EntriesCons(ms: seq<Weighted>, shown: real -> real, rest: seq<Item>)
    requires |ms| > 0
    ensures Entries(ms, shown) + rest == DumpWeighted(ms[0], shown) + (Entries(ms[1..], shown) + rest)
  {
    Assoc(DumpWeighted(ms[0], shown), Entries(ms[1..], shown), rest);
  }

  /** The text from member k on is member k's text, then the text from member k + 1 on. */
  lemma EntriesFrom(ms: seq<Weighted>, shown: real -> real, rest: seq<Item>, k: nat)
    requires k < |ms|
    ensures Entries(ms[k..], shown) + rest == DumpWeighted(ms[k], shown) + (Entries(ms[k + 1..], shown) + rest)
  {
    EntriesCons(ms[k..], shown, rest);
    assert ms[k..][1..] == ms[k + 1..];
  }

  /** The streams the reader's loop meets: stream k is at the newline in front of
      member k's text, and the last one at the newline after every member. */
  function Suffixes(ms: seq<Weighted>, shown: real -> real, rest: seq<Item>): (r: seq<Stream>)
    ensures |r| == |ms| + 1
    ensures forall k :: 0 <= k <= |ms| ==> r[k] == Open(Chars("\n") + (Entries(ms[k..], shown) + rest))
  {
    seq(|ms| + 1, k requires 0 <= k <= |ms| => Open(Chars("\n") + (Entries(ms[k..], shown) + rest)))
  }

  /** The reader's loop, when each member read ends where the next begins. */
  lemma {:induction false} ReadEachChain(read: Stream -> Result<(Weighted, Stream)>, sts: seq<Stream>, ws: seq<Weighted>, acc: seq<Weighted>)
    requires forall s :: read(s).Err? ==> Fatal(read(s).error)
    requires |sts| == |ws| + 1
    requires forall k :: 0 <= k < |ws| ==> read(sts[k]) == Ok((ws[k], sts[k + 1]))
    ensures ReadEach(read, sts[0], |ws|, acc) == Ok((acc + ws, sts[|ws|]))
    decreases |ws|
  {
    if |ws| == 0 {
      assert acc + ws == acc;
    } else {
      assert read(sts[0]) == Ok((ws[0], sts[1]));
      ReadEachChain(read, sts[1..], ws[1..], acc + [ws[0]]);
      AppendHeadTail(acc, ws);
    }
  }

  /** The reader's loop, when the read after the chain fails. */
  lemma {:induction false} ReadEachChainFails(read: Stream -> Result<(Weighted, Stream)>, sts: seq<Stream>, ws: seq<Weighted>, count: int, acc: seq<Weighted>)
    requires forall s :: read(s).Err? ==> Fatal(read(s).error)
    requires |ws| < |sts| && |ws| < count
    requires forall k :: 0 <= k < |ws| ==> read(sts[k]) == Ok((ws[k], sts[k + 1]))
    requires read(sts[|ws|]).Err?
    ensures ReadEach(read, sts[0], count, acc) == Err(read(sts[|ws|]).error)
    decreases |ws|
  {
    if |ws| > 0 {
      assert read(sts[0]) == Ok((ws[0], sts[1]));
      ReadEachChainFails(read, sts[1..], ws[1..], count - 1, acc + [ws[0]]);
    }
  }

  /** The learner a member of the announced kind is read into. */
  function Target(linear: bool): (w: Weighted)
    ensures w.learner.Linear? == linear
  {
    Weighted(if linear then DefaultLinear else DefaultStump, 0.0)
  }

  /** The first j members, all of the announced kind, are read one after another, each
      read ending where the next member's text begins. */
  lemma MembersChain(ms: seq<Weighted>, linear: bool, shown: real -> real, rest: seq<Item>, j: nat)
    requires j <= |ms| && Writable(ms[..j], linear)
    ensures forall k :: 0 <= k < j ==>
      Reader(Target(linear))(Suffixes(ms, shown, rest)[k]) == Ok((Reloads(ms[..j], shown)[k], Suffixes(ms, shown, rest)[k + 1]))
  {
    var sts := Suffixes(ms, shown, rest);
    forall k | 0 <= k < j
      ensures Reader(Target(linear))(sts[k]) == Ok((Reloads(ms[..j], shown)[k], sts[k + 1]))
    {
      assert ms[..j][k] == ms[k];
      EntriesFrom(ms, shown, rest, k);
      ReadOneMember(ms[k], Target(linear), shown, Entries(ms[k + 1..], shown) + rest);
    }
  }

  /** The texts of members of the announced kind are read back one after another. */
  lemma ReadMembersFront(ms: seq<Weighted>, linear: bool, acc: seq<Weighted>, shown: real -> real, rest: seq<Item>)
    requires Writable(ms, linear)
    ensures ReadMembers(Open(Chars("\n") + (Entries(ms, shown) + rest)), Chars(KindWord(linear)), |ms|, acc)
            == Ok((acc + Reloads(ms, shown), Open(Chars("\n") + rest)))
  {
    var sts := Suffixes(ms, shown, rest);
    SuffixEnds(ms, shown, rest);
    MembersReadInTurn(ms, linear, acc, shown, rest);
    FreshOfKind(linear);
    if |ms| == 0 {
      assert acc + Reloads(ms, shown) == acc;
    }
  }

  /** The first and last of the suffixes the members are read from. */
  lemma SuffixEnds(ms: seq<Weighted>, shown: real -> real, rest: seq<Item>)
    ensures Suffixes(ms, shown, rest)[0] == Open(Chars("\n") + (Entries(ms, shown) + rest))
    ensures Suffixes(ms, shown, rest)[|ms|] == Open(Chars("\n") + rest)
  {
    assert ms[0..] == ms;
    assert Entries(ms[|ms|..], shown) == [];
    assert [] + rest == rest;
  }

  /** The reader's loop over members of the announced kind reads each one in turn. */
  lemma MembersReadInTurn(ms: seq<Weighted>, linear: bool, acc: seq<Weighted>, shown: real -> real, rest: seq<Item>)
    requires Writable(ms, linear)
    ensures ReadEach(Reader(Target(linear)), Suffixes(ms, shown, rest)[0], |ms|, acc)
            == Ok((acc + Reloads(ms, shown), Suffixes(ms, shown, rest)[|ms|]))
  {
    assert ms[..|ms|] == ms;
    MembersChain(ms, linear, shown, rest, |ms|);
    ReadEachChain(Reader(Target(linear)), Suffixes(ms, shown, rest), Reloads(ms, shown), acc);
  }

  /** A member of the other kind than the first ends the program: its text is read as
      the announced kind and fails the first label check. */
  lemma ReadMembersOtherKind(ms: seq<Weighted>, linear: bool, acc: seq<Weighted>, shown: real -> real, rest: seq<Item>, j: nat)
    requires j < |ms| && Writable(ms[..j], linear)
    requires ms[j].learner.Linear? != linear && Dumpable(ms[j].learner)
    ensures ReadMembers(Open(Chars("\n") + (Entries(ms, shown) + rest)), Chars(KindWord(linear)), |ms|, acc)
            == Err(ExitFailure)
  {
    var sts := Suffixes(ms, shown, rest);
    MembersChain(ms, linear, shown, rest, j);
    assert Reader(Target(linear))(sts[j]) == Err(ExitFailure) by {
      EntriesFrom(ms, shown, rest, j);
      ReadOtherKindExits(ms[j], Target(linear), shown, Entries(ms[j + 1..], shown) + rest);
    }
    ReadEachChainFails(Reader(Target(linear)), sts, Reloads(ms[..j], shown), |ms|, acc);
    assert sts[0] == Open(Chars("\n") + (Entries(ms, shown) + rest)) by {
      assert ms[0..] == ms;
    }
    FreshOfKind(linear);
  }

  /**
   * Reading what the writer printed, for an ensemble whose members are of one kind
   * and can be carried by the text, gives back its members in order: learners as
   * `Reloaded` (wt's dimension and indices, direction and index exact, every real as
   * printed) and weights as printed.  The final newline is left unread.
   */
  lemma ReadShowEnsemble(e: Ensemble, shown: real -> real, tail: seq<Item>)
    requires |e.members| > 0 ==> Writable(e.members, e.members[0].learner.Linear?)
    requires |e.members| <= IntMax
    ensures ReadEnsemble(Open(ShowEnsemble(e, shown) + tail))
            == Ok((Ensemble(Reloads(e.members, shown)), Open(Chars("\n") + tail)))
  {
    var n := |e.members|;
    var typ := TypeOf(e);
    var body := Entries(e.members, shown) + (Footer + tail);
    var after := Open(Chars("\n") + (Footer + tail));
    assert ShowEnsemble(e, shown) + tail == Header(typ, n) + body by {
      Assoc(Header(typ, n), Entries(e.members, shown) + Footer, tail);
      Assoc(Entries(e.members, shown), Footer, tail);
    }
    assert ReadHeader(Open(Header(typ, n) + body)) == Ok((Chars(typ), n, Open(Chars("\n") + body))) by {
      Literals();
      ReadHeaderFront(typ, n, body);
    }
    ReadAllMembers(e, shown, tail);
    ReadFooterFront(tail);
    ReadEnsembleStages(Open(Header(typ, n) + body), (Chars(typ), n, Open(Chars("\n") + body)),
                       (Reloads(e.members, shown), after), Open(Chars("\n") + tail));
  }

  /** The members' texts of a writable ensemble, after its header, are read back. */
  lemma ReadAllMembers(e: Ensemble, shown: real -> real, tail: seq<Item>)
    requires |e.members| > 0 ==> Writable(e.members, e.members[0].learner.Linear?)
    ensures ReadMembers(Open(Chars("\n") + (Entries(e.members, shown) + (Footer + tail))), Chars(TypeOf(e)), |e.members|, [])
            == Ok((Reloads(e.members, shown), Open(Chars("\n") + (Footer + tail))))
  {
    if |e.members| == 0 {
      assert Entries(e.members, shown) + (Footer + tail) == Footer + tail;
      assert Reloads(e.members, shown) == [];
    } else {
      var linear := e.members[0].learner.Linear?;
      assert TypeOf(e) == KindWord(linear);
      ReadMembersFront(e.members, linear, [], shown, Footer + tail);
      assert [] + Reloads(e.members, shown) == Reloads(e.members, shown);
    }
  }

  /** The reader's three stages put together, when all three succeed. */
  lemma ReadEnsembleStages(st: Stream, h: (seq<Item>, int, Stream), ms: (seq<Weighted>, Stream), s: Stream)
    requires ReadHeader(st) == Ok(h)
    requires ReadMembers(h.2, h.0, h.1, []) == Ok(ms)
    requires ReadFooter(ms.1) == Ok(s)
    ensures ReadEnsemble(st) == Ok((Ensemble(ms.0), s))
  {
  }

  /** The reader's members stage ending the program ends the reader. */
  lemma ReadEnsembleMembersExit(st: Stream, h: (seq<Item>, int, Stream))
    requires ReadHeader(st) == Ok(h)
    requires ReadMembers(h.2, h.0, h.1, []) == Err(ExitFailure)
    ensures ReadEnsemble(st) == Err(ExitFailure)
  {
  }

  /** An ensemble whose members are not all of the first member's kind cannot be read
      back: the program exits at the first member of the other kind. */
  lemma ReadShowMixedExits(e: Ensemble, shown: real -> real, tail: seq<Item>, j: nat)
    requires 0 < j < |e.members| <= IntMax
    requires Writable(e.members[..j], e.members[0].learner.Linear?)
    requires e.members[j].learner.Linear? != e.members[0].learner.Linear? && Dumpable(e.members[j].learner)
    ensures ReadEnsemble(Open(ShowEnsemble(e, shown) + tail)) == Err(ExitFailure)
  {
    var n := |e.members|;
    var typ := TypeOf(e);
    var linear := e.members[0].learner.Linear?;
    var body := Entries(e.members, shown) + (Footer + tail);
    assert ShowEnsemble(e, shown) + tail == Header(typ, n) + body by {
      Assoc(Header(typ, n), Entries(e.members, shown) + Footer, tail);
      Assoc(Entries(e.members, shown), Footer, tail);
    }
    assert typ == KindWord(linear);
    assert ReadHeader(Open(Header(typ, n) + body)) == Ok((Chars(typ), n, Open(Chars("\n") + body))) by {
      Literals();
      ReadHeaderFront(typ, n, body);
    }
    ReadMembersOtherKind(e.members, linear, [], shown, Footer + tail, j);
    ReadEnsembleMembersExit(Open(Header(typ, n) + body), (Chars(typ), n, Open(Chars("\n") + body)));
  }

  /** A type other than `DSTUMP` and `RAWDATA` with a positive count throws "Unknown
      weak learner type.", and the program exits. */
  lemma UnknownTypeExits(typ: string, n: nat, rest: seq<Item>)
    requires IsWord(typ) && typ != "DSTUMP" && typ != "RAWDATA"
    requires 0 < n <= IntMax
    ensures ReadEnsemble(Open(Header(typ, n) + rest)) == Err(ExitFailure)
  {
    ReadHeaderFront(typ, n, rest);
    CharsInjective(typ, "DSTUMP");
    CharsInjective(typ, "RAWDATA");
  }
}
