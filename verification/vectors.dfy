/**
 * `SparseVector`, `DenseVector` and the index-level operations on them
 * (src/math/vector_operations.cpp).
 *
 * A sparse vector is its overall dimension and its stored entries in storage
 * order; the stored `index`/`val` arrays of the source are the two projections
 * of `entries`, so they always have the same length `nnz`.  A dense vector is a
 * sequence of reals whose length is its `dim`.  Values are exact reals.
 *
 * The value a sparse vector stands for at coordinate j is the sum of the values
 * stored with index j (`ValueAt`); the scatter loops of the source (`axpy`,
 * `transpose_dot`) add stored values into a dense buffer, which is exactly that.
 */
module Vectors {
  import opened Seqs
  import opened Results

  /** One stored coordinate: `index[k]` and `val[k]`. */
  datatype Entry = Entry(index: nat, value: real)

  datatype Sparse = Sparse(dim: nat, entries: seq<Entry>)

  type Dense = seq<real>

  /** The largest finite double, (2^53 - 1)·2^971: `std::numeric_limits<double>::max()`. */
  const DblMax: real := 179769313486231570814527423731704356798070567525844996598917476803157260780028538760589558632766878171540458953514382464234321326889464182768467546703537516986049910576551282076245490090389328944075868508455133942304583236903222948165808559332123348274797826204144723168738177180919299881250404026184124858368.0

  function Nnz(v: Sparse): nat
  {
    |v.entries|
  }

  /** Every stored index addresses a coordinate of the vector. */
  predicate InRange(v: Sparse)
  {
    forall k :: 0 <= k < |v.entries| ==> v.entries[k].index < v.dim
  }

  /** Stored indices strictly increase: the layout the merge loops assume. */
  predicate Increasing(es: seq<Entry>)
  {
    forall k, l :: 0 <= k < l < |es| ==> es[k].index < es[l].index
  }

  /** Every stored index is above j. */
  predicate AllAbove(es: seq<Entry>, j: nat)
  {
    forall k :: 0 <= k < |es| ==> j < es[k].index
  }

  /** The set of stored indices. */
  function IndexSet(es: seq<Entry>): set<nat>
  {
    set k | 0 <= k < |es| :: es[k].index
  }

  /** The value the entries stand for at coordinate j: the sum of the values stored with index j. */
  function ValueAt(es: seq<Entry>, j: nat): real
  {
    if |es| == 0 then 0.0
    else (if es[0].index == j then es[0].value else 0.0) + ValueAt(es[1..], j)
  }

  lemma {:induction false} ValueAtAbsent(es: seq<Entry>, j: nat)
    requires j !in IndexSet(es)
    ensures ValueAt(es, j) == 0.0
    decreases |es|
  {
    if |es| > 0 {
      assert es[0].index in IndexSet(es);
      assert IndexSet(es[1..]) <= IndexSet(es) by {
        forall x | x in IndexSet(es[1..]) ensures x in IndexSet(es) {
          var k :| 0 <= k < |es[1..]| && es[1..][k].index == x;
          assert es[k + 1].index == x;
        }
      }
      ValueAtAbsent(es[1..], j);
    }
  }

  lemma ValueAtAbove(es: seq<Entry>, j: nat)
    requires AllAbove(es, j)
    ensures ValueAt(es, j) == 0.0
  {
    ValueAtAbsent(es, j);
  }

  lemma {:induction false} ValueAtAppend(es: seq<Entry>, e: Entry, j: nat)
    ensures ValueAt(es + [e], j) == ValueAt(es, j) + (if e.index == j then e.value else 0.0)
    decreases |es|
  {
    if |es| == 0 {
      assert ([] + [e])[1..] == [];
    } else {
      assert (es + [e])[1..] == es[1..] + [e];
      ValueAtAppend(es[1..], e, j);
    }
  }

  /** The value at the index of the first entry of an increasing list is that entry's value. */
  lemma ValueAtHead(es: seq<Entry>)
    requires |es| > 0 && Increasing(es)
    ensures ValueAt(es, es[0].index) == es[0].value
  {
    ValueAtAbove(es[1..], es[0].index);
  }

  /** Adds x at coordinate i of a dense vector. */
  function AddAt(d: Dense, i: nat, x: real): (r: Dense)
    requires i < |d|
    ensures |r| == |d| && r[i] == d[i] + x
    ensures forall j :: 0 <= j < |d| && j != i ==> r[j] == d[j]
  {
    d[i := d[i] + x]
  }

  /**
   * base plus the stored entries, added one by one in storage order: the loop
   * `res.val[y.index[i]] += y.val[i]` of the mixed `axpy` and of `transpose_dot`.
   */
  function ScatterAdd(base: Dense, es: seq<Entry>): (r: Dense)
    requires forall k :: 0 <= k < |es| ==> es[k].index < |base|
    ensures |r| == |base|
    ensures forall j :: 0 <= j < |base| ==> r[j] == base[j] + ValueAt(es, j)
    decreases |es|
  {
    if |es| == 0 then base
    else ScatterAdd(AddAt(base, es[0].index, es[0].value), es[1..])
  }

  /** The dense vector a sparse one stands for. */
  function ToDense(v: Sparse): (d: Dense)
    requires InRange(v)
    ensures |d| == v.dim
    ensures forall j :: 0 <= j < v.dim ==> d[j] == ValueAt(v.entries, j)
  {
    ScatterAdd(Zeros(v.dim), v.entries)
  }

  /**
   * Real multiplication behind a function symbol: equal factors then give equal
   * products by congruence alone, which keeps nonlinear arithmetic out of the proofs.
   */
  function Times(x: real, y: real): real { x * y }

  // ---------------------------------------------------------------- dot products

  /** Σ_i b[i]·a[i], accumulated in index order: `dot(DenseVector, DenseVector)`. */
  function DotDD(a: Dense, b: Dense): real
    requires |a| == |b|
    decreases |a|
  {
    if |a| == 0 then 0.0
    else DotDD(a[..|a| - 1], b[..|b| - 1]) + Times(b[|b| - 1], a[|a| - 1])
  }

  lemma {:induction false} DotDDAddAt(d: Dense, b: Dense, i: nat, x: real)
    requires |d| == |b| && i < |d|
    ensures DotDD(AddAt(d, i, x), b) == DotDD(d, b) + Times(b[i], x)
    decreases |d|
  {
    var n := |d| - 1;
    var d' := AddAt(d, i, x);
    if i == n {
      assert d'[..n] == d[..n];
      assert Times(b[n], d'[n]) == Times(b[n], d[n]) + Times(b[n], x);
    } else {
      assert d'[..n] == AddAt(d[..n], i, x);
      DotDDAddAt(d[..n], b[..n], i, x);
    }
  }

  lemma {:induction false} DotDDZeros(b: Dense)
    ensures DotDD(Zeros(|b|), b) == 0.0
    decreases |b|
  {
    if |b| > 0 {
      assert Zeros(|b|)[..|b| - 1] == Zeros(|b| - 1);
      DotDDZeros(b[..|b| - 1]);
    }
  }

  /** Σ_k b[index[k]]·val[k] over stored entries. */
  function EntriesDot(es: seq<Entry>, b: Dense): real
    requires forall k :: 0 <= k < |es| ==> es[k].index < |b|
    decreases |es|
  {
    if |es| == 0 then 0.0 else Times(b[es[0].index], es[0].value) + EntriesDot(es[1..], b)
  }

  /**
   * `dot(SparseVector a, DenseVector b)` (and `dot(DenseVector, SparseVector)`, which swaps
   * its arguments).  The source asserts a.dim == b.dim; a stored index at or past b.dim
   * would be read out of range, so the model asks for in-range indices.
   */
  function DotSD(a: Sparse, b: Dense): real
    requires a.dim == |b| && InRange(a)
  {
    EntriesDot(a.entries, b)
  }

  lemma {:induction false} ScatterAddDot(base: Dense, es: seq<Entry>, b: Dense)
    requires |base| == |b|
    requires forall k :: 0 <= k < |es| ==> es[k].index < |base|
    ensures DotDD(ScatterAdd(base, es), b) == DotDD(base, b) + EntriesDot(es, b)
    decreases |es|
  {
    if |es| > 0 {
      var base' := AddAt(base, es[0].index, es[0].value);
      ScatterAddDot(base', es[1..], b);
      DotDDAddAt(base, b, es[0].index, es[0].value);
    }
  }

  /** The sparse dot product is the dense dot product of the vector the entries stand for. */
  lemma DotSDIsDenseDot(a: Sparse, b: Dense)
    requires a.dim == |b| && InRange(a)
    ensures DotSD(a, b) == DotDD(ToDense(a), b)
  {
    ScatterAddDot(Zeros(a.dim), a.entries, b);
    DotDDZeros(b);
  }

  /** The product of two stored values. */
  function Product(x: Entry, y: Entry): real { Times(x.value, y.value) }

  /**
   * The sorted-index intersection of `dot(SparseVector, SparseVector)` with every index
   * read guarded (the loop the source evidently intends): the smaller head is skipped,
   * equal heads contribute their product.
   */
  function MergeDot(a: seq<Entry>, b: seq<Entry>): real
    decreases |a| + |b|
  {
    if |a| == 0 || |b| == 0 then 0.0
    else if a[0].index < b[0].index then MergeDot(a[1..], b)
    else if a[0].index > b[0].index then MergeDot(a, b[1..])
    else Product(a[0], b[0]) + MergeDot(a[1..], b[1..])
  }

  /** `dot(SparseVector, SparseVector)` with the merge loop corrected; the source asserts equal dims. */
  function DotSS(a: Sparse, b: Sparse): real
    requires a.dim == b.dim
  {
    MergeDot(a.entries, b.entries)
  }

  /** Σ_k val_a[k]·(value of b at index_a[k]): the reference definition of the sparse dot. */
  function LookupDot(a: seq<Entry>, b: seq<Entry>): real
    decreases |a|
  {
    if |a| == 0 then 0.0 else ValueAt(b, a[0].index) * a[0].value + LookupDot(a[1..], b)
  }

  lemma {:induction false} LookupDotEmpty(a: seq<Entry>)
    ensures LookupDot(a, []) == 0.0
    decreases |a|
  {
    if |a| > 0 {
      LookupDotEmpty(a[1..]);
    }
  }

  /** Dropping b's head changes nothing when no entry of a has its index. */
  lemma {:induction false} LookupDropHead(a: seq<Entry>, b: seq<Entry>)
    requires |b| > 0
    requires forall k :: 0 <= k < |a| ==> a[k].index != b[0].index
    ensures LookupDot(a, b) == LookupDot(a, b[1..])
    decreases |a|
  {
    if |a| > 0 {
      LookupDropHead(a[1..], b);
    }
  }

  /** For increasing index lists the merge equals the reference definition. */
  lemma {:induction false} MergeDotIsLookup(a: seq<Entry>, b: seq<Entry>)
    requires Increasing(a) && Increasing(b)
    ensures MergeDot(a, b) == LookupDot(a, b)
    decreases |a| + |b|
  {
    if |a| == 0 {
    } else if |b| == 0 {
      LookupDotEmpty(a);
    } else if a[0].index < b[0].index {
      MergeDotIsLookup(a[1..], b);
      ValueAtAbove(b, a[0].index);
    } else if a[0].index > b[0].index {
      MergeDotIsLookup(a, b[1..]);
      LookupDropHead(a, b);
    } else {
      MergeDotIsLookup(a[1..], b[1..]);
      ValueAtHead(b);
      LookupDropHead(a[1..], b);
    }
  }

  lemma {:induction false} EntriesDotIsLookup(a: seq<Entry>, b: Sparse)
    requires InRange(b)
    requires forall k :: 0 <= k < |a| ==> a[k].index < b.dim
    ensures EntriesDot(a, ToDense(b)) == LookupDot(a, b.entries)
    decreases |a|
  {
    if |a| > 0 {
      EntriesDotIsLookup(a[1..], b);
    }
  }

  /** For increasing, in-range index lists the corrected sparse dot is the dense dot product. */
  lemma DotSSIsDenseDot(a: Sparse, b: Sparse)
    requires a.dim == b.dim && InRange(a) && InRange(b)
    requires Increasing(a.entries) && Increasing(b.entries)
    ensures DotSS(a, b) == DotDD(ToDense(a), ToDense(b))
  {
    MergeDotIsLookup(a.entries, b.entries);
    EntriesDotIsLookup(a.entries, b);
    DotSDIsDenseDot(a, ToDense(b));
  }

  // ---------------------------------------------------------------- Hadamard product

  /**
   * The sorted-index intersection of `hadamard` with every index read guarded:
   * the common indices in merge order, each with the product of the two values.
   */
  function MergeProduct(a: seq<Entry>, b: seq<Entry>): (r: seq<Entry>)
    ensures |r| <= |a| && |r| <= |b|
    decreases |a| + |b|
  {
    if |a| == 0 || |b| == 0 then []
    else if a[0].index < b[0].index then MergeProduct(a[1..], b)
    else if a[0].index > b[0].index then MergeProduct(a, b[1..])
    else [Entry(a[0].index, Product(a[0], b[0]))] + MergeProduct(a[1..], b[1..])
  }

  lemma IndexSetTail(es: seq<Entry>)
    requires |es| > 0
    ensures IndexSet(es) == {es[0].index} + IndexSet(es[1..])
  {
    forall x | x in IndexSet(es) ensures x in {es[0].index} + IndexSet(es[1..]) {
      var k :| 0 <= k < |es| && es[k].index == x;
      if k > 0 { assert es[1..][k - 1].index == x; }
    }
    forall x | x in IndexSet(es[1..]) ensures x in IndexSet(es) {
      var k :| 0 <= k < |es[1..]| && es[1..][k].index == x;
      assert es[k + 1].index == x;
    }
    assert es[0].index in IndexSet(es);
  }

  lemma IndexSetCons(e: Entry, es: seq<Entry>)
    ensures IndexSet([e] + es) == {e.index} + IndexSet(es)
  {
    IndexSetTail([e] + es);
    assert ([e] + es)[1..] == es;
  }

  /** `hadamard` with the merge loop corrected; the result keeps a.dim. */
  function Hadamard(a: Sparse, b: Sparse): (r: Sparse)
    requires a.dim == b.dim
    ensures r.dim == a.dim
  {
    Sparse(a.dim, MergeProduct(a.entries, b.entries))
  }

  lemma AboveOfIncreasing(es: seq<Entry>)
    requires |es| > 0 && Increasing(es)
    ensures AllAbove(es[1..], es[0].index)
  {
  }

  lemma AllAboveFromSet(es: seq<Entry>, j: nat)
    requires forall x :: x in IndexSet(es) ==> j < x
    ensures AllAbove(es, j)
  {
    forall k | 0 <= k < |es| ensures j < es[k].index {
      assert es[k].index in IndexSet(es);
    }
  }

  lemma BelowAll(es: seq<Entry>, j: nat)
    requires |es| > 0 && Increasing(es) && j < es[0].index
    ensures AllAbove(es, j) && j !in IndexSet(es)
  {
    ValueAtAbsentSet(es, j);
  }

  /** For increasing inputs the product stores exactly the common indices, in increasing order. */
  lemma {:induction false} MergeProductIndices(a: seq<Entry>, b: seq<Entry>)
    requires Increasing(a) && Increasing(b)
    ensures Increasing(MergeProduct(a, b))
    ensures IndexSet(MergeProduct(a, b)) == IndexSet(a) * IndexSet(b)
    decreases |a| + |b|
  {
    if |a| == 0 || |b| == 0 {
    } else if a[0].index < b[0].index {
      MergeProductIndices(a[1..], b);
      IndexSetTail(a);
      BelowAll(b, a[0].index);
    } else if a[0].index > b[0].index {
      MergeProductIndices(a, b[1..]);
      IndexSetTail(b);
      BelowAll(a, b[0].index);
    } else {
      var i0 := a[0].index;
      var r' := MergeProduct(a[1..], b[1..]);
      MergeProductIndices(a[1..], b[1..]);
      IndexSetTail(a);
      IndexSetTail(b);
      IndexSetCons(Entry(i0, Product(a[0], b[0])), r');
      AboveOfIncreasing(a);
      ValueAtAbsentSet(a[1..], i0);
      AllAboveFromSet(r', i0) by {
        forall x | x in IndexSet(r') ensures i0 < x {
          var k :| 0 <= k < |a[1..]| && a[1..][k].index == x;
        }
      }
    }
  }

  /** For increasing inputs the product stands for the elementwise product of the two vectors. */
  lemma {:induction false} MergeProductValues(a: seq<Entry>, b: seq<Entry>, j: nat)
    requires Increasing(a) && Increasing(b)
    ensures ValueAt(MergeProduct(a, b), j) == Times(ValueAt(a, j), ValueAt(b, j))
    decreases |a| + |b|
  {
    if |a| == 0 || |b| == 0 {
    } else if a[0].index < b[0].index {
      MergeProductValues(a[1..], b, j);
      SkipHeadValue(a, b, j);
    } else if a[0].index > b[0].index {
      MergeProductValues(a, b[1..], j);
      SkipHeadValue(b, a, j);
      assert Times(ValueAt(a, j), ValueAt(b, j)) == Times(ValueAt(b, j), ValueAt(a, j));
      assert Times(ValueAt(a, j), ValueAt(b[1..], j)) == Times(ValueAt(b[1..], j), ValueAt(a, j));
    } else {
      MergeProductValues(a[1..], b[1..], j);
      EqualHeadsValue(a, b, j);
    }
  }

  /** Skipping the smaller head x[0] does not change the product of values at j. */
  lemma SkipHeadValue(x: seq<Entry>, y: seq<Entry>, j: nat)
    requires |x| > 0 && |y| > 0 && Increasing(y) && x[0].index < y[0].index
    ensures Times(ValueAt(x, j), ValueAt(y, j)) == Times(ValueAt(x[1..], j), ValueAt(y, j))
  {
    if j == x[0].index {
      BelowAll(y, j);
      ValueAtAbove(y, j);
    } else {
      assert ValueAt(x, j) == ValueAt(x[1..], j);
    }
  }

  lemma EqualHeadsValue(a: seq<Entry>, b: seq<Entry>, j: nat)
    requires |a| > 0 && |b| > 0 && Increasing(a) && Increasing(b) && a[0].index == b[0].index
    requires ValueAt(MergeProduct(a[1..], b[1..]), j) == Times(ValueAt(a[1..], j), ValueAt(b[1..], j))
    ensures ValueAt(MergeProduct(a, b), j) == Times(ValueAt(a, j), ValueAt(b, j))
  {
    if j == a[0].index {
      EqualHeadsAtHead(a, b);
    } else {
      EqualHeadsElsewhere(a, b, j);
    }
  }

  lemma EqualHeadsAtHead(a: seq<Entry>, b: seq<Entry>)
    requires |a| > 0 && |b| > 0 && Increasing(a) && Increasing(b) && a[0].index == b[0].index
    ensures ValueAt(MergeProduct(a, b), a[0].index) == Times(ValueAt(a, a[0].index), ValueAt(b, a[0].index))
  {
    var i0 := a[0].index;
    var r' := MergeProduct(a[1..], b[1..]);
    assert MergeProduct(a, b) == [Entry(i0, Product(a[0], b[0]))] + r';
    MergeProductIndices(a[1..], b[1..]);
    AboveOfIncreasing(a);
    ValueAtAbsentSet(a[1..], i0);
    ValueAtAbsent(r', i0);
    ValueAtHead(a);
    ValueAtHead(b);
  }

  lemma EqualHeadsElsewhere(a: seq<Entry>, b: seq<Entry>, j: nat)
    requires |a| > 0 && |b| > 0 && a[0].index == b[0].index && j != a[0].index
    requires ValueAt(MergeProduct(a[1..], b[1..]), j) == Times(ValueAt(a[1..], j), ValueAt(b[1..], j))
    ensures ValueAt(MergeProduct(a, b), j) == Times(ValueAt(a, j), ValueAt(b, j))
  {
    var r := MergeProduct(a, b);
    assert r == [Entry(a[0].index, Product(a[0], b[0]))] + MergeProduct(a[1..], b[1..]);
    assert r[1..] == MergeProduct(a[1..], b[1..]);
    ValueAtSkip(r, j);
    ValueAtSkip(a, j);
    ValueAtSkip(b, j);
  }

  /** An entry at another index does not contribute to coordinate j. */
  lemma ValueAtSkip(es: seq<Entry>, j: nat)
    requires |es| > 0 && es[0].index != j
    ensures ValueAt(es, j) == ValueAt(es[1..], j)
  {
  }

  lemma ValueAtAbsentSet(es: seq<Entry>, j: nat)
    requires AllAbove(es, j)
    ensures j !in IndexSet(es)
  {
    assert forall k :: 0 <= k < |es| ==> es[k].index != j;
  }

  // ---------------------------------------------------------------- the merge loops as written

  /**
   * The two skipping `if`s at the top of one iteration of the merge loops of `dot` and
   * `hadamard`, exactly as written: after `i++` the next comparison reads `a.index[i]`
   * even when i has reached a.nnz, and likewise for j.  `None` marks such a read past
   * the end of an array; otherwise the positions the third `if` compares.
   */
  function SkipStep(a: seq<Entry>, b: seq<Entry>, i: nat, j: nat): (r: Option<Cursor>)
    requires i < |a| && j < |b|
    ensures r.Some? ==> i <= r.value.i < |a| && j <= r.value.j < |b|
    ensures r.Some? && r.value == Cursor(i, j) ==> a[i].index == b[j].index
    ensures r.None? <==>
      (a[i].index < b[j].index && i + 1 == |a|)
      || (j + 1 == |b| && (if a[i].index < b[j].index then a[i + 1].index > b[j].index else a[i].index > b[j].index))
  {
    var i1 := if a[i].index < b[j].index then i + 1 else i;
    if i1 == |a| then None
    else
      var j1 := if a[i1].index > b[j].index then j + 1 else j;
      if j1 == |b| then None else Some(Cursor(i1, j1))
  }


  /** The loop positions i and j of a merge. */
  datatype Cursor = Cursor(i: nat, j: nat)

  /**
   * The loop of `dot(SparseVector, SparseVector)` exactly as written, with `None` for a
   * run that reads an index past the end of its array; otherwise the accumulated value.
   */
  function DotAsWritten(a: seq<Entry>, b: seq<Entry>, i: nat, j: nat, acc: real): Option<real>
    requires i <= |a| && j <= |b|
    decreases |a| - i + |b| - j
  {
    if !(i < |a| && j < |b|) then Some(acc)
    else
      var c := SkipStep(a, b, i, j);
      if c.None? then None
      else if a[c.value.i].index == b[c.value.j].index then
        DotAsWritten(a, b, c.value.i + 1, c.value.j + 1, acc + Product(a[c.value.i], b[c.value.j]))
      else DotAsWritten(a, b, c.value.i, c.value.j, acc)
  }

  /** A vector whose last stored index lies below one of the other's: the as-written loop reads past the end. */
  lemma DotAsWrittenReadsPastEnd()
    ensures DotAsWritten([Entry(1, 1.0)], [Entry(2, 1.0)], 0, 0, 0.0) == None
  {
  }

  /** When the as-written loop stays in range it computes the corrected merge. */
  lemma {:induction false} DotAsWrittenAgrees(a: seq<Entry>, b: seq<Entry>, i: nat, j: nat, acc: real)
    requires i <= |a| && j <= |b|
    requires DotAsWritten(a, b, i, j, acc).Some?
    ensures DotAsWritten(a, b, i, j, acc) == Some(acc + MergeDot(a[i..], b[j..]))
    decreases |a| - i + |b| - j, 1
  {
    if i < |a| && j < |b| {
      DotAsWrittenStepSome(a, b, i, j, acc);
      var c := SkipStep(a, b, i, j).value;
      if a[c.i].index == b[c.j].index {
        AgreeOnEqualHeads(a, b, i, j, acc, c.i, c.j);
      } else {
        AgreeOnSkip(a, b, i, j, acc, c.i, c.j);
      }
    } else {
      AgreeAtEnd(a, b, i, j, acc);
    }
  }

  lemma AgreeAtEnd(a: seq<Entry>, b: seq<Entry>, i: nat, j: nat, acc: real)
    requires i <= |a| && j <= |b| && !(i < |a| && j < |b|)
    ensures DotAsWritten(a, b, i, j, acc) == Some(acc + MergeDot(a[i..], b[j..]))
  {
    assert a[i..] == [] || b[j..] == [];
  }

  /** An iteration of the as-written loop that multiplies two entries. */
  lemma {:induction false} AgreeOnEqualHeads(a: seq<Entry>, b: seq<Entry>, i: nat, j: nat, acc: real, i1: nat, j1: nat)
    requires i < |a| && j < |b|
    requires SkipStep(a, b, i, j) == Some(Cursor(i1, j1)) && a[i1].index == b[j1].index
    requires DotAsWritten(a, b, i, j, acc).Some?
    ensures DotAsWritten(a, b, i, j, acc) == Some(acc + MergeDot(a[i..], b[j..]))
    decreases |a| - i + |b| - j, 0
  {
    var acc1 := acc + Product(a[i1], b[j1]);
    DotAsWrittenUnfold(a, b, i, j, acc, i1, j1);
    assert DotAsWritten(a, b, i, j, acc) == DotAsWritten(a, b, i1 + 1, j1 + 1, acc1);
    DotAsWrittenAgrees(a, b, i1 + 1, j1 + 1, acc1);
    MergeSkip(a, b, i, j, i1, j1);
    MergeEqualHeads(a, b, i1, j1);
    var rest := MergeDot(a[i1 + 1..], b[j1 + 1..]);
    assert acc + MergeDot(a[i..], b[j..]) == acc1 + rest;
  }

  /** An iteration of the as-written loop that only skips. */
  lemma {:induction false} AgreeOnSkip(a: seq<Entry>, b: seq<Entry>, i: nat, j: nat, acc: real, i1: nat, j1: nat)
    requires i < |a| && j < |b|
    requires SkipStep(a, b, i, j) == Some(Cursor(i1, j1)) && a[i1].index != b[j1].index
    requires DotAsWritten(a, b, i, j, acc).Some?
    ensures DotAsWritten(a, b, i, j, acc) == Some(acc + MergeDot(a[i..], b[j..]))
    decreases |a| - i + |b| - j, 0
  {
    DotAsWrittenUnfold(a, b, i, j, acc, i1, j1);
    DotAsWrittenAgrees(a, b, i1, j1, acc);
    MergeSkip(a, b, i, j, i1, j1);
  }

  /** A run of the as-written loop that stays in range passes its skipping steps. */
  lemma DotAsWrittenStepSome(a: seq<Entry>, b: seq<Entry>, i: nat, j: nat, acc: real)
    requires i < |a| && j < |b| && DotAsWritten(a, b, i, j, acc).Some?
    ensures SkipStep(a, b, i, j).Some?
  {
  }

  lemma DotAsWrittenUnfold(a: seq<Entry>, b: seq<Entry>, i: nat, j: nat, acc: real, i1: nat, j1: nat)
    requires i < |a| && j < |b|
    requires SkipStep(a, b, i, j) == Some(Cursor(i1, j1))
    ensures a[i1].index == b[j1].index ==>
      DotAsWritten(a, b, i, j, acc) == DotAsWritten(a, b, i1 + 1, j1 + 1, acc + Product(a[i1], b[j1]))
    ensures a[i1].index != b[j1].index ==> DotAsWritten(a, b, i, j, acc) == DotAsWritten(a, b, i1, j1, acc)
  {
  }

  /** The skipping steps of one as-written iteration are steps of the corrected merge. */
  lemma MergeSkip(a: seq<Entry>, b: seq<Entry>, i: nat, j: nat, i1: nat, j1: nat)
    requires i < |a| && j < |b|
    requires SkipStep(a, b, i, j) == Some(Cursor(i1, j1))
    ensures MergeDot(a[i..], b[j..]) == MergeDot(a[i1..], b[j1..])
  {
    if a[i].index < b[j].index {
      assert a[i..][1..] == a[i + 1..];
      assert MergeDot(a[i..], b[j..]) == MergeDot(a[i1..], b[j..]);
    }
    if a[i1].index > b[j].index {
      assert b[j..][1..] == b[j + 1..];
      assert MergeDot(a[i1..], b[j..]) == MergeDot(a[i1..], b[j1..]);
    }
  }

  lemma MergeEqualHeads(a: seq<Entry>, b: seq<Entry>, i: nat, j: nat)
    requires i < |a| && j < |b| && a[i].index == b[j].index
    ensures MergeDot(a[i..], b[j..]) == Product(a[i], b[j]) + MergeDot(a[i + 1..], b[j + 1..])
  {
    assert a[i..][1..] == a[i + 1..];
    assert b[j..][1..] == b[j + 1..];
  }

  /** The loop of `hadamard` as written, with the same reads past the end marked by `None`. */
  function HadamardAsWritten(a: seq<Entry>, b: seq<Entry>, i: nat, j: nat, acc: seq<Entry>): Option<seq<Entry>>
    requires i <= |a| && j <= |b|
    decreases |a| - i + |b| - j
  {
    if !(i < |a| && j < |b|) then Some(acc)
    else
      var c := SkipStep(a, b, i, j);
      if c.None? then None
      else if a[c.value.i].index == b[c.value.j].index then
        HadamardAsWritten(a, b, c.value.i + 1, c.value.j + 1,
                          acc + [Entry(a[c.value.i].index, Product(a[c.value.i], b[c.value.j]))])
      else HadamardAsWritten(a, b, c.value.i, c.value.j, acc)
  }

  lemma HadamardAsWrittenReadsPastEnd()
    ensures HadamardAsWritten([Entry(3, 1.0)], [Entry(0, 1.0)], 0, 0, []) == None
  {
  }

  /** The skipping steps of one as-written iteration are steps of the corrected product merge. */
  lemma MergeProductSkip(a: seq<Entry>, b: seq<Entry>, i: nat, j: nat, i1: nat, j1: nat)
    requires i < |a| && j < |b|
    requires SkipStep(a, b, i, j) == Some(Cursor(i1, j1))
    ensures MergeProduct(a[i..], b[j..]) == MergeProduct(a[i1..], b[j1..])
  {
    if a[i].index < b[j].index {
      assert a[i..][1..] == a[i + 1..];
      assert MergeProduct(a[i..], b[j..]) == MergeProduct(a[i1..], b[j..]);
    }
    if a[i1].index > b[j].index {
      assert b[j..][1..] == b[j + 1..];
      assert MergeProduct(a[i1..], b[j..]) == MergeProduct(a[i1..], b[j1..]);
    }
  }

  lemma MergeProductEqualHeads(a: seq<Entry>, b: seq<Entry>, i: nat, j: nat)
    requires i < |a| && j < |b| && a[i].index == b[j].index
    ensures MergeProduct(a[i..], b[j..])
      == [Entry(a[i].index, Product(a[i], b[j]))] + MergeProduct(a[i + 1..], b[j + 1..])
  {
    assert a[i..][1..] == a[i + 1..];
    assert b[j..][1..] == b[j + 1..];
  }

  lemma HadamardAsWrittenUnfold(a: seq<Entry>, b: seq<Entry>, i: nat, j: nat, acc: seq<Entry>, i1: nat, j1: nat)
    requires i < |a| && j < |b|
    requires SkipStep(a, b, i, j) == Some(Cursor(i1, j1))
    ensures a[i1].index == b[j1].index ==>
      HadamardAsWritten(a, b, i, j, acc)
      == HadamardAsWritten(a, b, i1 + 1, j1 + 1, acc + [Entry(a[i1].index, Product(a[i1], b[j1]))])
    ensures a[i1].index != b[j1].index ==> HadamardAsWritten(a, b, i, j, acc) == HadamardAsWritten(a, b, i1, j1, acc)
  {
  }

  /** When the as-written loop stays in range it collects the corrected product. */
  lemma {:induction false} HadamardAsWrittenAgrees(a: seq<Entry>, b: seq<Entry>, i: nat, j: nat, acc: seq<Entry>)
    requires i <= |a| && j <= |b|
    requires HadamardAsWritten(a, b, i, j, acc).Some?
    ensures HadamardAsWritten(a, b, i, j, acc) == Some(acc + MergeProduct(a[i..], b[j..]))
    decreases |a| - i + |b| - j, 1
  {
    if i < |a| && j < |b| {
      HadamardAsWrittenStepSome(a, b, i, j, acc);
      var c := SkipStep(a, b, i, j).value;
      if a[c.i].index == b[c.j].index {
        HadamardOnEqualHeads(a, b, i, j, acc, c.i, c.j);
      } else {
        HadamardOnSkip(a, b, i, j, acc, c.i, c.j);
      }
    } else {
      HadamardAtEnd(a, b, i, j, acc);
    }
  }

  lemma HadamardAtEnd(a: seq<Entry>, b: seq<Entry>, i: nat, j: nat, acc: seq<Entry>)
    requires i <= |a| && j <= |b| && !(i < |a| && j < |b|)
    ensures HadamardAsWritten(a, b, i, j, acc) == Some(acc + MergeProduct(a[i..], b[j..]))
  {
    assert a[i..] == [] || b[j..] == [];
    assert acc + [] == acc;
  }

  /** An iteration of the as-written loop that stores a product. */
  lemma {:induction false} HadamardOnEqualHeads(a: seq<Entry>, b: seq<Entry>, i: nat, j: nat, acc: seq<Entry>, i1: nat, j1: nat)
    requires i < |a| && j < |b|
    requires SkipStep(a, b, i, j) == Some(Cursor(i1, j1)) && a[i1].index == b[j1].index
    requires HadamardAsWritten(a, b, i, j, acc).Some?
    ensures HadamardAsWritten(a, b, i, j, acc) == Some(acc + MergeProduct(a[i..], b[j..]))
    decreases |a| - i + |b| - j, 0
  {
    var e := Entry(a[i1].index, Product(a[i1], b[j1]));
    HadamardAsWrittenUnfold(a, b, i, j, acc, i1, j1);
    HadamardAsWrittenAgrees(a, b, i1 + 1, j1 + 1, acc + [e]);
    MergeProductSkip(a, b, i, j, i1, j1);
    MergeProductEqualHeads(a, b, i1, j1);
    Assoc(acc, [e], MergeProduct(a[i1 + 1..], b[j1 + 1..]));
  }

  /** An iteration of the as-written loop that only skips. */
  lemma {:induction false} HadamardOnSkip(a: seq<Entry>, b: seq<Entry>, i: nat, j: nat, acc: seq<Entry>, i1: nat, j1: nat)
    requires i < |a| && j < |b|
    requires SkipStep(a, b, i, j) == Some(Cursor(i1, j1)) && a[i1].index != b[j1].index
    requires HadamardAsWritten(a, b, i, j, acc).Some?
    ensures HadamardAsWritten(a, b, i, j, acc) == Some(acc + MergeProduct(a[i..], b[j..]))
    decreases |a| - i + |b| - j, 0
  {
    HadamardAsWrittenUnfold(a, b, i, j, acc, i1, j1);
    HadamardAsWrittenAgrees(a, b, i1, j1, acc);
    MergeProductSkip(a, b, i, j, i1, j1);
  }

  /** A run of the as-written loop that stays in range passes its skipping steps. */
  lemma HadamardAsWrittenStepSome(a: seq<Entry>, b: seq<Entry>, i: nat, j: nat, acc: seq<Entry>)
    requires i < |a| && j < |b| && HadamardAsWritten(a, b, i, j, acc).Some?
    ensures SkipStep(a, b, i, j).Some?
  {
  }

  /**
   * For increasing, in-range operands the corrected product is increasing and in range,
   * stores exactly the common indices, and stands for the coordinatewise product.
   */
  lemma HadamardIsPointwise(a: Sparse, b: Sparse, j: nat)
    requires a.dim == b.dim && InRange(a) && InRange(b)
    requires Increasing(a.entries) && Increasing(b.entries)
    requires j < a.dim
    ensures Increasing(Hadamard(a, b).entries) && InRange(Hadamard(a, b))
    ensures IndexSet(Hadamard(a, b).entries) == IndexSet(a.entries) * IndexSet(b.entries)
    ensures ToDense(Hadamard(a, b))[j] == Times(ToDense(a)[j], ToDense(b)[j])
  {
    MergeProductIndices(a.entries, b.entries);
    MergeProductValues(a.entries, b.entries, j);
    var r := Hadamard(a, b).entries;
    forall k | 0 <= k < |r|
      ensures r[k].index < a.dim
    {
      assert r[k].index in IndexSet(r);
      var m :| 0 <= m < |a.entries| && a.entries[m].index == r[k].index;
    }
  }
}
