/**
 * The decision-stump oracle (src/oracles/DecisionStump.cpp).  The constructor
 * argsorts every hypothesis row once; each call then scans each sorted row for the
 * threshold of largest edge in the `>=` direction (and, when `less_than` is set, in
 * the `<=` direction), keeps the first hypothesis with a strictly larger edge, and
 * returns that stump with its ±1 prediction multiplied by the labels.
 *
 * A row stores only its nonzero values; argsort stands for all its implicit zeros
 * by one sentinel position `size_t(-1)`, and the scans give that slot the value 0
 * and the summed weight of every unstored example.
 */
module StumpOracle {
  import opened Results
  import opened Seqs
  import opened Vectors
  import opened LinAlg
  import opened WeakLearners
  import opened Oracles

  // ---------------------------------------------------------------- argsort

  /** `size_t(-1)`: the position argsort gives the implicit zeros. */
  const Sentinel: nat := 0xFFFF_FFFF_FFFF_FFFF

  /** The `std::pair<double, size_t>` argsort sorts: a value and its position. */
  datatype Pair = Pair(value: real, pos: nat)

  /** The order of `std::pair`: value first, then position. */
  predicate Before(p: Pair, q: Pair)
  {
    p.value < q.value || (p.value == q.value && p.pos < q.pos)
  }

  /** The value at a position of the row: the stored value, or 0 for the sentinel. */
  function SlotValue(v: Sparse, pos: nat): real
  {
    if pos < Nnz(v) then v.entries[pos].value else 0.0
  }

  function KeyOf(v: Sparse, pos: nat): Pair
  {
    Pair(SlotValue(v, pos), pos)
  }

  /** No position comes after a later one in pair order. */
  predicate SortedBy(v: Sparse, xs: seq<nat>)
  {
    forall i, j :: 0 <= i < j < |xs| ==> !Before(KeyOf(v, xs[j]), KeyOf(v, xs[i]))
  }

  /** The positions argsort starts from: 0 .. nnz-1, then the sentinel iff nnz != dim. */
  function Positions(v: Sparse): (r: seq<nat>)
    ensures |r| == Nnz(v) + (if Nnz(v) != v.dim then 1 else 0)
  {
    seq(Nnz(v), k => k) + (if Nnz(v) != v.dim then [Sentinel] else [])
  }

  /** Inserts p in front of the first position it does not come after. */
  function Insert(v: Sparse, p: nat, s: seq<nat>): (r: seq<nat>)
    ensures multiset(r) == multiset(s) + multiset{p}
    ensures |r| == |s| + 1
  {
    if |s| == 0 then [p]
    else if Before(KeyOf(v, s[0]), KeyOf(v, p)) then
      assert s == [s[0]] + s[1..];
      [s[0]] + Insert(v, p, s[1..])
    else [p] + s
  }

  function SortPositions(v: Sparse, xs: seq<nat>): (r: seq<nat>)
    ensures multiset(r) == multiset(xs)
    ensures |r| == |xs|
  {
    if |xs| == 0 then []
    else
      assert xs == [xs[0]] + xs[1..];
      Insert(v, xs[0], SortPositions(v, xs[1..]))
  }

  /** `argsort`: the positions of the row's pairs, in pair order. */
  function ArgSort(v: Sparse): (r: seq<nat>)
    ensures |r| == Nnz(v) + (if Nnz(v) != v.dim then 1 else 0)
    ensures multiset(r) == multiset(seq(Nnz(v), k => k)) + (if Nnz(v) != v.dim then multiset{Sentinel} else multiset{})
  {
    SortPositions(v, Positions(v))
  }

  lemma {:induction false} InsertSorted(v: Sparse, p: nat, s: seq<nat>)
    requires SortedBy(v, s)
    ensures SortedBy(v, Insert(v, p, s))
    decreases |s|
  {
    if |s| > 0 && Before(KeyOf(v, s[0]), KeyOf(v, p)) {
      var t := Insert(v, p, s[1..]);
      InsertSorted(v, p, s[1..]);
      forall j | 0 <= j < |t|
        ensures !Before(KeyOf(v, t[j]), KeyOf(v, s[0]))
      {
        assert t[j] in multiset(t);
        if t[j] != p {
          assert t[j] in multiset(s[1..]);
          var m :| 0 <= m < |s[1..]| && s[1..][m] == t[j];
          assert s[m + 1] == t[j];
        }
      }
    }
  }

  lemma {:induction false} SortPositionsSorted(v: Sparse, xs: seq<nat>)
    ensures SortedBy(v, SortPositions(v, xs))
    decreases |xs|
  {
    if |xs| > 0 {
      SortPositionsSorted(v, xs[1..]);
      InsertSorted(v, xs[0], SortPositions(v, xs[1..]));
    }
  }

  /** The argsort order is (value, position) order; in particular the sentinel,
      the largest position, comes after every explicitly stored zero. */
  lemma ArgSortOrder(v: Sparse)
    requires Nnz(v) < Sentinel
    ensures SortedBy(v, ArgSort(v))
    ensures forall i, j ::
              (0 <= i < |ArgSort(v)| && 0 <= j < |ArgSort(v)| && ArgSort(v)[j] == Sentinel
               && ArgSort(v)[i] < Nnz(v) && v.entries[ArgSort(v)[i]].value == 0.0) ==> i < j
  {
    var r := ArgSort(v);
    SortPositionsSorted(v, Positions(v));
    forall i, j | 0 <= i < |r| && 0 <= j < |r| && r[j] == Sentinel && r[i] < Nnz(v) && v.entries[r[i]].value == 0.0
      ensures i < j
    {
      assert Before(KeyOf(v, r[i]), KeyOf(v, r[j]));
    }
  }

  // ---------------------------------------------------------------- what each position weighs

  /** The margins of the examples the row stores, in storage order. */
  function StoredMargins(v: Sparse, dl: seq<real>): (r: seq<real>)
    requires InRange(v) && v.dim == |dl|
    ensures |r| == Nnz(v)
    ensures forall k :: 0 <= k < Nnz(v) ==> r[k] == dl[v.entries[k].index]
  {
    seq(Nnz(v), k requires 0 <= k < Nnz(v) => dl[v.entries[k].index])
  }

  /** `dist_diff`: init_edge minus the margins of the examples the row stores. */
  function DistDiff(v: Sparse, dl: seq<real>, init: real): real
    requires InRange(v) && v.dim == |dl|
  {
    init - Sum(StoredMargins(v, dl))
  }

  /** The values the scans read along an argsort result: 0 for the sentinel. */
  function SlotValues(v: Sparse, idx: seq<nat>): (vs: seq<real>)
    ensures |vs| == |idx|
    ensures forall i :: 0 <= i < |idx| ==> vs[i] == SlotValue(v, idx[i])
  {
    seq(|idx|, i requires 0 <= i < |idx| => SlotValue(v, idx[i]))
  }

  /** The weight of one position: the margin of the stored example, or for the
      sentinel `dist_diff`. */
  function Weight(v: Sparse, dl: seq<real>, diff: real, pos: nat): real
    requires InRange(v) && v.dim == |dl|
  {
    if pos < Nnz(v) then dl[v.entries[pos].index] else diff
  }

  /** The weights the scans add along an argsort result, reading the stored index
      only for a stored position. */
  function Weights(v: Sparse, dl: seq<real>, diff: real, idx: seq<nat>): (cs: seq<real>)
    requires InRange(v) && v.dim == |dl|
    ensures |cs| == |idx|
    ensures forall i :: 0 <= i < |idx| ==> cs[i] == Weight(v, dl, diff, idx[i])
  {
    seq(|idx|, i requires 0 <= i < |idx| => Weight(v, dl, diff, idx[i]))
  }

  /**
   * The weights as the loop reads them: `data[index].index[indices.val[i]]` is read
   * before the sentinel test, so the sentinel position reads past the stored
   * indices (`None`).
   */
  function WeightsAsWritten(v: Sparse, dl: seq<real>, diff: real, idx: seq<nat>): (r: Option<seq<real>>)
    requires InRange(v) && v.dim == |dl|
    decreases |idx|
  {
    if |idx| == 0 then Some([])
    else if idx[0] >= Nnz(v) then None
    else
      var rest :- WeightsAsWritten(v, dl, diff, idx[1..]);
      Some([dl[v.entries[idx[0]].index]] + rest)
  }

  /** The loop as written stays in bounds exactly when no sentinel is read, and then
      reads the intended weights. */
  lemma {:induction false} WeightsAsWrittenAgrees(v: Sparse, dl: seq<real>, diff: real, idx: seq<nat>)
    requires InRange(v) && v.dim == |dl|
    ensures WeightsAsWritten(v, dl, diff, idx).Some? <==> forall i :: 0 <= i < |idx| ==> idx[i] < Nnz(v)
    ensures WeightsAsWritten(v, dl, diff, idx).Some? ==> WeightsAsWritten(v, dl, diff, idx).value == Weights(v, dl, diff, idx)
    decreases |idx|
  {
    if |idx| > 0 {
      WeightsAsWrittenAgrees(v, dl, diff, idx[1..]);
      if idx[0] < Nnz(v) && WeightsAsWritten(v, dl, diff, idx[1..]).Some? {
        assert Weights(v, dl, diff, idx) == [Weight(v, dl, diff, idx[0])] + Weights(v, dl, diff, idx[1..]);
      }
      if forall i :: 0 <= i < |idx[1..]| ==> idx[1..][i] < Nnz(v) {
        assert forall i :: 1 <= i < |idx| ==> idx[i] == idx[1..][i - 1];
      }
    }
  }

  /** Every row with an implicit zero makes the loop as written read past its stored
      indices: argsort put the sentinel in its result. */
  lemma ArgSortedWeightsAsWrittenFail(v: Sparse, dl: seq<real>, diff: real)
    requires InRange(v) && v.dim == |dl| && Nnz(v) != v.dim && Nnz(v) < Sentinel
    ensures WeightsAsWritten(v, dl, diff, ArgSort(v)) == None
  {
    var r := ArgSort(v);
    assert Sentinel in multiset(r);
    var i :| 0 <= i < |r| && r[i] == Sentinel;
    WeightsAsWrittenAgrees(v, dl, diff, r);
  }

  /** The smallest such row: two examples, one stored value. */
  lemma WeightsAsWrittenReadsPastEnd()
    ensures WeightsAsWritten(Sparse(2, [Entry(0, 1.0)]), [0.5, 0.5], 0.5, ArgSort(Sparse(2, [Entry(0, 1.0)]))) == None
  {
    ArgSortedWeightsAsWrittenFail(Sparse(2, [Entry(0, 1.0)]), [0.5, 0.5], 0.5);
  }

  // ---------------------------------------------------------------- one directional scan

  /** The scan's variables: `edge`, `edgeChunk`, `max_so_far`, `tmp_threshold`, `prev`. */
  datatype ScanState = ScanState(edge: real, chunk: real, best: real, thresh: real, prev: real)

  /** One iteration: on a new value the pending chunk flips sign (the examples read so
      far move to the -1 side), a strictly larger edge is recorded with that value as
      threshold, and the position's weight joins the chunk. */
  function ScanStep(s: ScanState, v: real, c: real): ScanState
  {
    var edge := if v != s.prev then s.edge - 2.0 * s.chunk else s.edge;
    var chunk := if v != s.prev then 0.0 else s.chunk;
    if edge > s.best then ScanState(edge, chunk + c, edge, v, v)
    else ScanState(edge, chunk + c, s.best, s.thresh, v)
  }

  function ScanFrom(vs: seq<real>, cs: seq<real>, i: nat, s: ScanState): ScanState
    requires |vs| == |cs| && i <= |vs|
    decreases |vs| - i
  {
    if i == |vs| then s else ScanFrom(vs, cs, i + 1, ScanStep(s, vs[i], cs[i]))
  }

  /** The result of a scan: `best_threshold` and `best_edge`. */
  datatype Cut = Cut(thresh: real, edge: real)

  /** `find_best_threshold_greater_or_equal` on the values and weights along the sorted
      positions; the `<=` scan is the same loop run over them backwards. */
  function Scan(vs: seq<real>, cs: seq<real>, init: real): (r: Cut)
    requires |vs| == |cs| && |vs| > 0
  {
    var s := ScanFrom(vs, cs, 0, ScanState(init, 0.0, init, vs[0], vs[0]));
    Cut(s.thresh, s.best)
  }

  /** Position i starts a new value. */
  predicate Boundary(vs: seq<real>, i: int)
  {
    0 < i < |vs| && vs[i] != vs[i - 1]
  }

  /** The edge with the first i positions on the -1 side. */
  function EdgeBefore(cs: seq<real>, init: real, i: nat): real
    requires i <= |cs|
  {
    init - 2.0 * Sum(cs[..i])
  }

  /**
   * What a scan finds: the largest of init and the edges at the value boundaries,
   * with the value at the first boundary reaching it as threshold, or the first value
   * when no boundary beats init.
   */
  predicate Maximal(vs: seq<real>, cs: seq<real>, init: real, r: Cut)
    requires |vs| == |cs| && |vs| > 0
  {
    && init <= r.edge
    && (forall j :: 0 < j < |vs| && Boundary(vs, j) ==> EdgeBefore(cs, init, j) <= r.edge)
    && ((r.edge == init && r.thresh == vs[0])
        || exists a :: 0 < a < |vs| && Boundary(vs, a) && init < r.edge && r.edge == EdgeBefore(cs, init, a) && r.thresh == vs[a]
                       && forall j :: 0 < j < a && Boundary(vs, j) ==> EdgeBefore(cs, init, j) < r.edge)
  }

  /** The loop invariant after i positions, with g the start of the current run of
      equal values and a the first boundary holding the best edge (-1 for none). */
  predicate ScanInvariant(vs: seq<real>, cs: seq<real>, init: real, i: nat, g: nat, a: int, s: ScanState)
    requires |vs| == |cs| && 0 < |vs| && i <= |vs|
  {
    && g <= i && (g == 0 || Boundary(vs, g))
    && s.prev == (if i == 0 then vs[0] else vs[i - 1])
    && s.edge == EdgeBefore(cs, init, g)
    && s.chunk == Sum(cs[g..i])
    && s.edge <= s.best && init <= s.best
    && (forall j :: 0 < j < i && Boundary(vs, j) ==> EdgeBefore(cs, init, j) <= s.best)
    && ((a == -1 && s.best == init && s.thresh == vs[0])
        || (0 < a < i && Boundary(vs, a) && init < s.best && s.best == EdgeBefore(cs, init, a) && s.thresh == vs[a]
            && forall j :: 0 < j < a && Boundary(vs, j) ==> EdgeBefore(cs, init, j) < s.best))
  }

  lemma ChunkGrows(cs: seq<real>, g: nat, i: nat)
    requires g <= i < |cs|
    ensures Sum(cs[g..i + 1]) == Sum(cs[g..i]) + cs[i]
  {
    assert cs[g..i + 1][..i - g] == cs[g..i];
  }

  lemma ChunkCloses(cs: seq<real>, g: nat, i: nat)
    requires g <= i <= |cs|
    ensures Sum(cs[..i]) == Sum(cs[..g]) + Sum(cs[g..i])
  {
    assert cs[..i] == cs[..g] + cs[g..i];
    SumAppend(cs[..g], cs[g..i]);
  }

  /** A step at a boundary closes the run: the run restarts at i, and i becomes the
      best boundary when it strictly improves the best edge. */
  lemma BoundaryStep(vs: seq<real>, cs: seq<real>, init: real, i: nat, g: nat, a: int, s: ScanState)
    requires |vs| == |cs| && 0 < |vs| && i < |vs| && Boundary(vs, i)
    requires ScanInvariant(vs, cs, init, i, g, a, s)
    ensures ScanInvariant(vs, cs, init, i + 1, i, if ScanStep(s, vs[i], cs[i]).best != s.best then i else a,
                          ScanStep(s, vs[i], cs[i]))
  {
    ChunkCloses(cs, g, i);
    ChunkGrows(cs, i, i);
  }

  /** A step inside a run of equal values only grows the chunk. */
  lemma RunStep(vs: seq<real>, cs: seq<real>, init: real, i: nat, g: nat, a: int, s: ScanState)
    requires |vs| == |cs| && 0 < |vs| && i < |vs| && !Boundary(vs, i)
    requires ScanInvariant(vs, cs, init, i, g, a, s)
    ensures ScanInvariant(vs, cs, init, i + 1, g, a, ScanStep(s, vs[i], cs[i]))
  {
    ChunkGrows(cs, g, i);
  }

  /** At the end of the loop the invariant is what the scan promises. */
  lemma InvariantAtEnd(vs: seq<real>, cs: seq<real>, init: real, g: nat, a: int, s: ScanState)
    requires |vs| == |cs| && 0 < |vs|
    requires ScanInvariant(vs, cs, init, |vs|, g, a, s)
    ensures Maximal(vs, cs, init, Cut(s.thresh, s.best))
  {
    if a != -1 {
      assert Boundary(vs, a);
    }
  }

  lemma {:induction false} ScanFromMaximal(vs: seq<real>, cs: seq<real>, init: real, i: nat, g: nat, a: int, s: ScanState)
    requires |vs| == |cs| && 0 < |vs| && i <= |vs|
    requires ScanInvariant(vs, cs, init, i, g, a, s)
    ensures Maximal(vs, cs, init, Cut(ScanFrom(vs, cs, i, s).thresh, ScanFrom(vs, cs, i, s).best))
    decreases |vs| - i
  {
    if i < |vs| {
      var s' := ScanStep(s, vs[i], cs[i]);
      if Boundary(vs, i) {
        BoundaryStep(vs, cs, init, i, g, a, s);
        ScanFromMaximal(vs, cs, init, i + 1, i, if s'.best != s.best then i else a, s');
      } else {
        RunStep(vs, cs, init, i, g, a, s);
        ScanFromMaximal(vs, cs, init, i + 1, g, a, s');
      }
    } else {
      InvariantAtEnd(vs, cs, init, g, a, s);
    }
  }

  /** Each directional scan returns the largest edge over init and the value
      boundaries, first boundary first; in particular never less than init_edge. */
  lemma ScanIsMaximal(vs: seq<real>, cs: seq<real>, init: real)
    requires |vs| == |cs| && |vs| > 0
    ensures Maximal(vs, cs, init, Scan(vs, cs, init))
  {
    assert cs[0..0] == [];
    ScanFromMaximal(vs, cs, init, 0, 0, -1, ScanState(init, 0.0, init, vs[0], vs[0]));
  }

  // ---------------------------------------------------------------- the edge of a stump

  /** Flipping by the side is multiplying by the stump's ±1. */
  lemma FlipIsSign(c: real, v: real, t: real, d: bool)
    ensures Flip(c, OnPlusSide(v, t, d)) == c * Sign(v, t, d)
  {
  }

  /** The terms c_i·(±1) of the stump with threshold t and direction d. */
  function Signed(vs: seq<real>, cs: seq<real>, t: real, d: bool): (r: seq<real>)
    requires |vs| == |cs|
    ensures |r| == |vs|
    ensures forall i :: 0 <= i < |vs| ==> r[i] == Flip(cs[i], OnPlusSide(vs[i], t, d))
  {
    seq(|vs|, i requires 0 <= i < |vs| => Flip(cs[i], OnPlusSide(vs[i], t, d)))
  }

  /** The edge of that stump: every weight counted with the stump's ±1 on its value. */
  function StumpEdge(vs: seq<real>, cs: seq<real>, t: real, d: bool): real
    requires |vs| == |cs|
  {
    Sum(Signed(vs, cs, t, d))
  }

  /** The order a scan in direction d meets the values: ascending for `>=`,
      descending for `<=`. */
  predicate InScanOrder(vs: seq<real>, d: bool)
  {
    forall i, j :: 0 <= i < j < |vs| ==> if d then vs[i] <= vs[j] else vs[j] <= vs[i]
  }

  /** A stump that puts exactly the first i positions on its -1 side. */
  lemma {:induction false} SplitEdge(vs: seq<real>, cs: seq<real>, t: real, d: bool, i: nat)
    requires |vs| == |cs| && i <= |vs|
    requires forall j :: 0 <= j < i ==> !OnPlusSide(vs[j], t, d)
    requires forall j :: i <= j < |vs| ==> OnPlusSide(vs[j], t, d)
    ensures StumpEdge(vs, cs, t, d) == Sum(cs) - 2.0 * Sum(cs[..i])
    decreases |vs|
  {
    if |vs| > 0 {
      var n := |vs| - 1;
      assert Signed(vs, cs, t, d)[..n] == Signed(vs[..n], cs[..n], t, d);
      if i == |vs| {
        SplitEdge(vs[..n], cs[..n], t, d, n);
        assert cs[..n][..n] == cs[..n];
        assert cs[..|cs|] == cs;
      } else {
        SplitEdge(vs[..n], cs[..n], t, d, i);
        assert cs[..n][..i] == cs[..i];
      }
    }
  }

  /** In scan order, a position before a boundary is on the -1 side of the stump
      thresholded at the boundary's value. */
  lemma BeforeBoundary(vs: seq<real>, d: bool, i: nat, j: nat)
    requires Boundary(vs, i) && InScanOrder(vs, d) && j < i
    ensures !OnPlusSide(vs[j], vs[i], d)
  {
    assert if d then vs[i - 1] <= vs[i] else vs[i] <= vs[i - 1];
    if j < i - 1 {
      assert if d then vs[j] <= vs[i - 1] else vs[i - 1] <= vs[j];
    }
  }

  /** In scan order, a position from i on is on the +1 side of the stump thresholded
      at vs[i]. */
  lemma FromThreshold(vs: seq<real>, d: bool, i: nat, j: nat)
    requires InScanOrder(vs, d) && i <= j < |vs|
    ensures OnPlusSide(vs[j], vs[i], d)
  {
    if i < j {
      assert if d then vs[i] <= vs[j] else vs[j] <= vs[i];
    }
  }

  /** At a value boundary the scan's edge is the edge of the stump thresholded at
      that value: exactly the earlier positions fall on its -1 side. */
  lemma BoundaryEdge(vs: seq<real>, cs: seq<real>, d: bool, i: nat)
    requires |vs| == |cs| && Boundary(vs, i) && InScanOrder(vs, d)
    ensures EdgeBefore(cs, Sum(cs), i) == StumpEdge(vs, cs, vs[i], d)
  {
    forall j | 0 <= j < i
      ensures !OnPlusSide(vs[j], vs[i], d)
    {
      BeforeBoundary(vs, d, i, j);
    }
    forall j | i <= j < |vs|
      ensures OnPlusSide(vs[j], vs[i], d)
    {
      FromThreshold(vs, d, i, j);
    }
    SplitEdge(vs, cs, vs[i], d, i);
  }

  /** The first position a stump puts on its +1 side, |vs| when there is none. */
  function FirstPlus(vs: seq<real>, t: real, d: bool): (i: nat)
    ensures i <= |vs|
    ensures forall j :: 0 <= j < i ==> !OnPlusSide(vs[j], t, d)
    ensures i < |vs| ==> OnPlusSide(vs[i], t, d)
    decreases |vs|
  {
    if |vs| == 0 || OnPlusSide(vs[0], t, d) then 0
    else 1 + FirstPlus(vs[1..], t, d)
  }

  /** The scan's recorded edge is the edge of the stump at the recorded threshold. */
  lemma ScanEdgeIsStumpEdge(vs: seq<real>, cs: seq<real>, d: bool)
    requires |vs| == |cs| && |vs| > 0 && InScanOrder(vs, d)
    ensures Scan(vs, cs, Sum(cs)).edge == StumpEdge(vs, cs, Scan(vs, cs, Sum(cs)).thresh, d)
  {
    var r := Scan(vs, cs, Sum(cs));
    ScanIsMaximal(vs, cs, Sum(cs));
    if r.edge == Sum(cs) && r.thresh == vs[0] {
      forall j | 0 <= j < |vs|
        ensures OnPlusSide(vs[j], vs[0], d)
      {
        FromThreshold(vs, d, 0, j);
      }
      SplitEdge(vs, cs, vs[0], d, 0);
    } else {
      var a :| 0 < a < |vs| && Boundary(vs, a) && r.edge == EdgeBefore(cs, Sum(cs), a) && r.thresh == vs[a];
      BoundaryEdge(vs, cs, d, a);
    }
  }

  /** In scan order, once a position is on a stump's +1 side, so is every later one. */
  lemma PlusSideUpward(vs: seq<real>, d: bool, t: real, i: nat, j: nat)
    requires InScanOrder(vs, d) && i <= j < |vs| && OnPlusSide(vs[i], t, d)
    ensures OnPlusSide(vs[j], t, d)
  {
    if i < j {
      assert if d then vs[i] <= vs[j] else vs[j] <= vs[i];
    }
  }

  /** A stump with some position on its +1 side has the edge the scan records at the
      first such position, so it does no better than the scan. */
  lemma ScanBeatsStump(vs: seq<real>, cs: seq<real>, d: bool, t: real)
    requires |vs| == |cs| && |vs| > 0 && InScanOrder(vs, d)
    requires exists j :: 0 <= j < |vs| && OnPlusSide(vs[j], t, d)
    ensures StumpEdge(vs, cs, t, d) <= Scan(vs, cs, Sum(cs)).edge
  {
    ScanIsMaximal(vs, cs, Sum(cs));
    var i := FirstPlus(vs, t, d);
    forall j | i <= j < |vs|
      ensures OnPlusSide(vs[j], t, d)
    {
      PlusSideUpward(vs, d, t, i, j);
    }
    SplitEdge(vs, cs, t, d, i);
    if i > 0 {
      assert Boundary(vs, i);
    } else {
      assert cs[..0] == [];
    }
  }

  /**
   * Scanning in direction d from init_edge = Σ weights, the recorded edge is the
   * edge of the stump at the recorded threshold, and no stump with some position on
   * its +1 side does better.
   */
  lemma ScanIsBestStump(vs: seq<real>, cs: seq<real>, d: bool, t: real)
    requires |vs| == |cs| && |vs| > 0 && InScanOrder(vs, d)
    ensures Scan(vs, cs, Sum(cs)).edge == StumpEdge(vs, cs, Scan(vs, cs, Sum(cs)).thresh, d)
    ensures (exists j :: 0 <= j < |vs| && OnPlusSide(vs[j], t, d)) ==> StumpEdge(vs, cs, t, d) <= Scan(vs, cs, Sum(cs)).edge
  {
    ScanEdgeIsStumpEdge(vs, cs, d);
    if exists j :: 0 <= j < |vs| && OnPlusSide(vs[j], t, d) {
      ScanBeatsStump(vs, cs, d, t);
    }
  }

  /** Read backwards, the values and weights give the same stump edges. */
  lemma ReverseEdge(vs: seq<real>, cs: seq<real>, t: real, d: bool)
    requires |vs| == |cs|
    ensures StumpEdge(Reverse(vs), Reverse(cs), t, d) == StumpEdge(vs, cs, t, d)
  {
    assert Signed(Reverse(vs), Reverse(cs), t, d) == Reverse(Signed(vs, cs, t, d));
    SumReverse(Signed(vs, cs, t, d));
  }

  /** The sorted values are ascending, and read backwards descending. */
  lemma SlotValuesInOrder(v: Sparse)
    ensures InScanOrder(SlotValues(v, ArgSort(v)), true)
    ensures InScanOrder(Reverse(SlotValues(v, ArgSort(v))), false)
  {
    SortPositionsSorted(v, Positions(v));
  }

  /** The weights along an argsort result add up to init_edge: the sentinel carries
      the margin the stored examples leave over, and without it every example is
      stored. */
  lemma WeightsSum(v: Sparse, dl: seq<real>)
    requires InRange(v) && Increasing(v.entries) && v.dim == |dl| && Nnz(v) < Sentinel
    ensures Sum(Weights(v, dl, DistDiff(v, dl, Sum(dl)), ArgSort(v))) == Sum(dl)
  {
    var diff := DistDiff(v, dl, Sum(dl));
    var ps := Positions(v);
    PermutedSum(ArgSort(v), ps, Weights(v, dl, diff, ArgSort(v)), Weights(v, dl, diff, ps));
    WeightsOfPositions(v, dl, diff);
    if Nnz(v) == v.dim {
      AllStored(v, dl);
    }
  }

  lemma WeightsOfPositions(v: Sparse, dl: seq<real>, diff: real)
    requires InRange(v) && v.dim == |dl| && Nnz(v) < Sentinel
    ensures Sum(Weights(v, dl, diff, Positions(v))) == Sum(StoredMargins(v, dl)) + (if Nnz(v) != v.dim then diff else 0.0)
  {
    var ps := Positions(v);
    var stored := StoredMargins(v, dl);
    if Nnz(v) != v.dim {
      assert Weights(v, dl, diff, ps) == stored + [diff];
      SumAppend(stored, [diff]);
      SumSingleton(diff);
    } else {
      assert Weights(v, dl, diff, ps) == stored;
    }
  }

  /** A row that stores every example, in increasing order, stores example k at
      position k. */
  lemma AllStored(v: Sparse, dl: seq<real>)
    requires InRange(v) && Increasing(v.entries) && v.dim == |dl| && Nnz(v) == v.dim
    ensures StoredMargins(v, dl) == dl
  {
    forall k | 0 <= k < Nnz(v)
      ensures StoredMargins(v, dl)[k] == dl[k]
    {
      IncreasingBelowIsIdentity(v.entries, k);
    }
  }

  // ---------------------------------------------------------------- from positions to examples

  /** The edge of the stump (t, d) on row v over the examples themselves: example r
      counted with the stump's ±1 on the value v stands for at r. */
  function RowEdge(v: Sparse, dl: seq<real>, t: real, d: bool): real
    requires InRange(v) && v.dim == |dl|
  {
    StumpEdge(ToDense(v), dl, t, d)
  }

  /** The terms of the stored examples: margin times the stump's ±1 on the stored value. */
  function StoredSigned(v: Sparse, dl: seq<real>, t: real, d: bool): (r: seq<real>)
    requires InRange(v) && v.dim == |dl|
    ensures |r| == Nnz(v)
    ensures forall k :: 0 <= k < Nnz(v) ==> r[k] == Flip(dl[v.entries[k].index], OnPlusSide(v.entries[k].value, t, d))
  {
    seq(Nnz(v), k requires 0 <= k < Nnz(v) => Flip(dl[v.entries[k].index], OnPlusSide(v.entries[k].value, t, d)))
  }

  /** Rearranging the positions does not change a stump's edge. */
  lemma SlotEdgePermuted(v: Sparse, dl: seq<real>, diff: real, t: real, d: bool)
    requires InRange(v) && v.dim == |dl|
    ensures StumpEdge(SlotValues(v, ArgSort(v)), Weights(v, dl, diff, ArgSort(v)), t, d)
            == StumpEdge(SlotValues(v, Positions(v)), Weights(v, dl, diff, Positions(v)), t, d)
  {
    var xs, ys := ArgSort(v), Positions(v);
    PermutedSum(xs, ys, Signed(SlotValues(v, xs), Weights(v, dl, diff, xs), t, d),
                Signed(SlotValues(v, ys), Weights(v, dl, diff, ys), t, d));
  }

  /** Position k < nnz is k itself, and the sentinel closes the list when some example
      is not stored. */
  lemma PositionsAt(v: Sparse)
    ensures forall k :: 0 <= k < Nnz(v) ==> Positions(v)[k] == k
    ensures Nnz(v) != v.dim ==> Positions(v)[Nnz(v)] == Sentinel
  {
  }

  /** In position order, the stored positions contribute exactly the stored terms. */
  lemma StoredPositionTerms(v: Sparse, dl: seq<real>, diff: real, t: real, d: bool)
    requires InRange(v) && v.dim == |dl|
    ensures Signed(SlotValues(v, Positions(v)), Weights(v, dl, diff, Positions(v)), t, d)[..Nnz(v)]
            == StoredSigned(v, dl, t, d)
  {
    var ps := Positions(v);
    var terms := Signed(SlotValues(v, ps), Weights(v, dl, diff, ps), t, d);
    PositionsAt(v);
    forall k | 0 <= k < Nnz(v)
      ensures terms[k] == StoredSigned(v, dl, t, d)[k]
    {
      assert ps[k] == k;
    }
  }

  /** In position order the edge is the stored terms plus the sentinel's weight at value 0. */
  lemma SlotEdgeOfPositions(v: Sparse, dl: seq<real>, diff: real, t: real, d: bool)
    requires InRange(v) && v.dim == |dl| && Nnz(v) < Sentinel
    ensures StumpEdge(SlotValues(v, Positions(v)), Weights(v, dl, diff, Positions(v)), t, d)
            == Sum(StoredSigned(v, dl, t, d)) + (if Nnz(v) != v.dim then Flip(diff, OnPlusSide(0.0, t, d)) else 0.0)
  {
    var ps := Positions(v);
    var terms := Signed(SlotValues(v, ps), Weights(v, dl, diff, ps), t, d);
    var stored := StoredSigned(v, dl, t, d);
    StoredPositionTerms(v, dl, diff, t, d);
    if Nnz(v) != v.dim {
      var last := Flip(diff, OnPlusSide(0.0, t, d));
      PositionsAt(v);
      assert terms[Nnz(v)] == last;
      assert terms == stored + [last];
      SumAppend(stored, [last]);
      SumSingleton(last);
    } else {
      assert terms == terms[..Nnz(v)];
    }
  }

  /** What each stored example adds on top of the implicit-zero side. */
  function Corrections(v: Sparse, dl: seq<real>, t: real, d: bool): (r: seq<Entry>)
    requires InRange(v) && v.dim == |dl|
    ensures |r| == Nnz(v)
    ensures forall k :: 0 <= k < Nnz(v) ==>
      r[k] == Entry(v.entries[k].index, Flip(dl[v.entries[k].index], OnPlusSide(v.entries[k].value, t, d)) - Flip(dl[v.entries[k].index], OnPlusSide(0.0, t, d)))
  {
    seq(Nnz(v), k requires 0 <= k < Nnz(v) =>
      Entry(v.entries[k].index, Flip(dl[v.entries[k].index], OnPlusSide(v.entries[k].value, t, d)) - Flip(dl[v.entries[k].index], OnPlusSide(0.0, t, d))))
  }

  /** The corrections sit at the stored indices, in the same increasing order. */
  lemma CorrectionsShape(v: Sparse, dl: seq<real>, t: real, d: bool)
    requires InRange(v) && Increasing(v.entries) && v.dim == |dl|
    ensures Increasing(Corrections(v, dl, t, d))
    ensures IndexSet(Corrections(v, dl, t, d)) == IndexSet(v.entries)
  {
  }

  /** A stored example's term is the implicit-zero side's term plus its correction. */
  lemma RowTermStored(v: Sparse, dl: seq<real>, t: real, d: bool, k: nat)
    requires InRange(v) && Increasing(v.entries) && v.dim == |dl| && k < Nnz(v)
    ensures Signed(ToDense(v), dl, t, d)[v.entries[k].index]
            == FlipAll(dl, OnPlusSide(0.0, t, d))[v.entries[k].index] + ValueAt(Corrections(v, dl, t, d), v.entries[k].index)
  {
    CorrectionsShape(v, dl, t, d);
    ValueAtStored(Corrections(v, dl, t, d), k);
    ValueAtStored(v.entries, k);
  }

  /** An example with nothing stored only gets the implicit-zero side's term. */
  lemma RowTermAbsent(v: Sparse, dl: seq<real>, t: real, d: bool, r: nat)
    requires InRange(v) && Increasing(v.entries) && v.dim == |dl| && r < |dl|
    requires r !in IndexSet(v.entries)
    ensures Signed(ToDense(v), dl, t, d)[r] == FlipAll(dl, OnPlusSide(0.0, t, d))[r] + ValueAt(Corrections(v, dl, t, d), r)
  {
    CorrectionsShape(v, dl, t, d);
    ValueAtAbsent(v.entries, r);
    ValueAtAbsent(Corrections(v, dl, t, d), r);
  }

  /** Term by term, the stump's terms over the examples are the implicit-zero terms with
      the corrections scattered on top. */
  lemma RowTermsScattered(v: Sparse, dl: seq<real>, t: real, d: bool)
    requires InRange(v) && Increasing(v.entries) && v.dim == |dl|
    ensures Signed(ToDense(v), dl, t, d) == ScatterAdd(FlipAll(dl, OnPlusSide(0.0, t, d)), Corrections(v, dl, t, d))
  {
    var u := Signed(ToDense(v), dl, t, d);
    var w := ScatterAdd(FlipAll(dl, OnPlusSide(0.0, t, d)), Corrections(v, dl, t, d));
    forall r | 0 <= r < |dl|
      ensures u[r] == w[r]
    {
      if r in IndexSet(v.entries) {
        var k :| 0 <= k < Nnz(v) && v.entries[k].index == r;
        RowTermStored(v, dl, t, d, k);
      } else {
        RowTermAbsent(v, dl, t, d, r);
      }
    }
  }

  /** Over the examples, the edge is the implicit-zero side's count of all margins plus
      the stored corrections. */
  lemma RowEdgeByCorrections(v: Sparse, dl: seq<real>, t: real, d: bool)
    requires InRange(v) && Increasing(v.entries) && v.dim == |dl|
    ensures RowEdge(v, dl, t, d) == Flip(Sum(dl), OnPlusSide(0.0, t, d)) + Sum(Values(Corrections(v, dl, t, d)))
  {
    var base := FlipAll(dl, OnPlusSide(0.0, t, d));
    var z := Corrections(v, dl, t, d);
    RowTermsScattered(v, dl, t, d);
    ScatterAddSum(base, z);
    SumFlipAll(dl, OnPlusSide(0.0, t, d));
  }

  /** The corrections add up to the stored terms less the implicit-zero side's count of
      the stored margins. */
  lemma CorrectionsSum(v: Sparse, dl: seq<real>, t: real, d: bool)
    requires InRange(v) && v.dim == |dl|
    ensures Sum(Values(Corrections(v, dl, t, d))) == Sum(StoredSigned(v, dl, t, d)) - Flip(Sum(StoredMargins(v, dl)), OnPlusSide(0.0, t, d))
  {
    var c := Values(Corrections(v, dl, t, d));
    var m := FlipAll(StoredMargins(v, dl), OnPlusSide(0.0, t, d));
    assert forall k :: 0 <= k < Nnz(v) ==> StoredSigned(v, dl, t, d)[k] == c[k] + m[k];
    SumAdd(c, m, StoredSigned(v, dl, t, d));
    SumFlipAll(StoredMargins(v, dl), OnPlusSide(0.0, t, d));
  }

  /** The scans' edge of any stump along the argsort result is its edge over the
      examples: the sentinel's weight stands for exactly the unstored examples. */
  lemma SlotEdgeIsRowEdge(v: Sparse, dl: seq<real>, t: real, d: bool)
    requires InRange(v) && Increasing(v.entries) && v.dim == |dl| && Nnz(v) < Sentinel
    ensures StumpEdge(SlotValues(v, ArgSort(v)), Weights(v, dl, DistDiff(v, dl, Sum(dl)), ArgSort(v)), t, d)
            == RowEdge(v, dl, t, d)
  {
    var diff := DistDiff(v, dl, Sum(dl));
    SlotEdgePermuted(v, dl, diff, t, d);
    SlotEdgeOfPositions(v, dl, diff, t, d);
    RowEdgeByCorrections(v, dl, t, d);
    CorrectionsSum(v, dl, t, d);
    if Nnz(v) == v.dim {
      AllStored(v, dl);
    }
  }

  // ---------------------------------------------------------------- the best threshold of one row

  /** `find_best_threshold`'s outputs: the threshold, its edge, and `ge`. */
  datatype Choice = Choice(thresh: real, edge: real, ge: bool)

  /** One directional scan over the row v with its argsort idx: `>=` walks the sorted
      values forwards, `<=` walks them backwards. */
  function DirectionScan(v: Sparse, idx: seq<nat>, dl: seq<real>, init: real, ge: bool): Cut
    requires InRange(v) && v.dim == |dl| && |idx| > 0
  {
    var vs := SlotValues(v, idx);
    var cs := Weights(v, dl, DistDiff(v, dl, init), idx);
    if ge then Scan(vs, cs, init) else Scan(Reverse(vs), Reverse(cs), init)
  }

  /**
   * `find_best_threshold` for the row v with its argsort idx: the `>=` scan always,
   * the `<=` scan only with `less_than`, and the `<=` result only when its edge is
   * strictly larger.
   */
  function FindBestThreshold(v: Sparse, idx: seq<nat>, dl: seq<real>, init: real, lessThan: bool): (r: Choice)
    requires InRange(v) && v.dim == |dl| && |idx| > 0
  {
    var ge := DirectionScan(v, idx, dl, init, true);
    if lessThan then
      var le := DirectionScan(v, idx, dl, init, false);
      if le.edge > ge.edge then Choice(le.thresh, le.edge, false) else Choice(ge.thresh, ge.edge, true)
    else Choice(ge.thresh, ge.edge, true)
  }

  /** A row as the oracle needs it: indices in range and increasing, dimension the
      number of examples, fewer stored entries than the sentinel value. */
  predicate RowFits(v: Sparse, n: nat)
  {
    InRange(v) && Increasing(v.entries) && v.dim == n && Nnz(v) < Sentinel
  }

  /** Every example's value on the row appears among the scanned values: a stored one
      at its own position, an implicit zero at the sentinel. */
  lemma ExampleHasSlot(v: Sparse, r: nat)
    requires InRange(v) && Increasing(v.entries) && r < v.dim && Nnz(v) < Sentinel
    ensures exists j :: 0 <= j < |ArgSort(v)| && SlotValue(v, ArgSort(v)[j]) == ToDense(v)[r]
  {
    var a := ArgSort(v);
    if r in IndexSet(v.entries) {
      var k :| 0 <= k < Nnz(v) && v.entries[k].index == r;
      ValueAtStored(v.entries, k);
      assert seq(Nnz(v), k => k)[k] == k;
      assert k in multiset(a);
      var j :| 0 <= j < |a| && a[j] == k;
      assert SlotValue(v, a[j]) == ToDense(v)[r];
    } else {
      ValueAtAbsent(v.entries, r);
      assert Nnz(v) != v.dim by {
        if Nnz(v) == v.dim {
          AllIndicesStored(v, r);
        }
      }
      assert Sentinel in multiset(a);
      var j :| 0 <= j < |a| && a[j] == Sentinel;
      assert SlotValue(v, a[j]) == ToDense(v)[r];
    }
  }

  /** A row storing as many increasing entries as it has examples stores every example. */
  lemma AllIndicesStored(v: Sparse, r: nat)
    requires InRange(v) && Increasing(v.entries) && Nnz(v) == v.dim && r < v.dim
    ensures r in IndexSet(v.entries)
  {
    IncreasingBelowIsIdentity(v.entries, r);
  }

  /** Each directional scan over the argsort result reports an edge of at least
      init_edge that is the edge over the examples of the stump it reports. */
  lemma DirectionScanEdge(v: Sparse, dl: seq<real>, ge: bool)
    requires RowFits(v, |dl|) && v.dim > 0
    ensures Sum(dl) <= DirectionScan(v, ArgSort(v), dl, Sum(dl), ge).edge
    ensures DirectionScan(v, ArgSort(v), dl, Sum(dl), ge).edge
            == RowEdge(v, dl, DirectionScan(v, ArgSort(v), dl, Sum(dl), ge).thresh, ge)
  {
    var a := ArgSort(v);
    var vs := SlotValues(v, a);
    var cs := Weights(v, dl, DistDiff(v, dl, Sum(dl)), a);
    WeightsSum(v, dl);
    SlotValuesInOrder(v);
    SlotEdgeIsRowEdge(v, dl, DirectionScan(v, a, dl, Sum(dl), ge).thresh, ge);
    if ge {
      ScanIsMaximal(vs, cs, Sum(dl));
      ScanEdgeIsStumpEdge(vs, cs, true);
    } else {
      SumReverse(cs);
      ScanIsMaximal(Reverse(vs), Reverse(cs), Sum(dl));
      ScanEdgeIsStumpEdge(Reverse(vs), Reverse(cs), false);
      ReverseEdge(vs, cs, DirectionScan(v, a, dl, Sum(dl), ge).thresh, false);
    }
  }

  /** The backwards scan does no better than a `<=` stump with some value on its +1
      side only if that stump's edge is at most the scan's. */
  lemma ReverseScanBest(vs: seq<real>, cs: seq<real>, t: real, j: nat)
    requires |vs| == |cs| && j < |vs| && InScanOrder(Reverse(vs), false) && OnPlusSide(vs[j], t, false)
    ensures StumpEdge(vs, cs, t, false) <= Scan(Reverse(vs), Reverse(cs), Sum(cs)).edge
  {
    SumReverse(cs);
    assert OnPlusSide(Reverse(vs)[|vs| - 1 - j], t, false);
    ScanBeatsStump(Reverse(vs), Reverse(cs), false, t);
    ReverseEdge(vs, cs, t, false);
  }

  /** Along the argsort result, a stump in direction ge with some scanned value on its
      +1 side does no better than the scan in that direction. */
  lemma SlotScanBest(v: Sparse, dl: seq<real>, ge: bool, t: real, j: nat)
    requires RowFits(v, |dl|) && j < |ArgSort(v)| && OnPlusSide(SlotValue(v, ArgSort(v)[j]), t, ge)
    ensures StumpEdge(SlotValues(v, ArgSort(v)), Weights(v, dl, DistDiff(v, dl, Sum(dl)), ArgSort(v)), t, ge)
            <= DirectionScan(v, ArgSort(v), dl, Sum(dl), ge).edge
  {
    var a := ArgSort(v);
    var vs := SlotValues(v, a);
    var cs := Weights(v, dl, DistDiff(v, dl, Sum(dl)), a);
    WeightsSum(v, dl);
    SlotValuesInOrder(v);
    assert OnPlusSide(vs[j], t, ge);
    if ge {
      ScanBeatsStump(vs, cs, true, t);
    } else {
      ReverseScanBest(vs, cs, t, j);
    }
  }

  /** No stump in direction ge that puts some example on its +1 side has a larger edge
      over the examples than the scan in that direction. */
  lemma DirectionScanBest(v: Sparse, dl: seq<real>, ge: bool, t: real, r: nat)
    requires RowFits(v, |dl|) && r < |dl| && OnPlusSide(ToDense(v)[r], t, ge)
    ensures RowEdge(v, dl, t, ge) <= DirectionScan(v, ArgSort(v), dl, Sum(dl), ge).edge
  {
    ExampleHasSlot(v, r);
    var j :| 0 <= j < |ArgSort(v)| && SlotValue(v, ArgSort(v)[j]) == ToDense(v)[r];
    SlotScanBest(v, dl, ge, t, j);
    SlotEdgeIsRowEdge(v, dl, t, ge);
  }

  /**
   * `find_best_threshold` on a row with its argsort and init_edge = Σ margins: the
   * reported edge is at least init_edge, is the edge over the examples of the reported
   * stump, comes from the `<=` direction only under `less_than`, and is at least each
   * scanned direction's edge.
   */
  lemma BestThresholdEdge(v: Sparse, dl: seq<real>, lessThan: bool)
    requires RowFits(v, |dl|) && v.dim > 0
    ensures Sum(dl) <= FindBestThreshold(v, ArgSort(v), dl, Sum(dl), lessThan).edge
    ensures FindBestThreshold(v, ArgSort(v), dl, Sum(dl), lessThan).edge
            == RowEdge(v, dl, FindBestThreshold(v, ArgSort(v), dl, Sum(dl), lessThan).thresh,
                       FindBestThreshold(v, ArgSort(v), dl, Sum(dl), lessThan).ge)
    ensures !FindBestThreshold(v, ArgSort(v), dl, Sum(dl), lessThan).ge ==> lessThan
  {
    DirectionScanEdge(v, dl, true);
    if lessThan {
      DirectionScanEdge(v, dl, false);
    }
  }

  /** The reported edge beats every stump the scans cover: direction `>=`, or `<=`
      under `less_than`, with some example on the +1 side. */
  lemma BestThresholdIsBest(v: Sparse, dl: seq<real>, lessThan: bool, t: real, d: bool, r: nat)
    requires RowFits(v, |dl|) && r < |dl| && (d || lessThan) && OnPlusSide(ToDense(v)[r], t, d)
    ensures RowEdge(v, dl, t, d) <= FindBestThreshold(v, ArgSort(v), dl, Sum(dl), lessThan).edge
  {
    DirectionScanBest(v, dl, d, t, r);
  }

  // ---------------------------------------------------------------- the oracle

  /** The stump oracle: the hypothesis rows, the labels, `less_than`, and the argsort of
      every row, computed once when the oracle is built. */
  datatype Oracle = Oracle(data: seq<Sparse>, labels: seq<int>, lessThan: bool, sorted: seq<seq<nat>>)

  /** Every row fits the examples. */
  predicate DataFits(data: seq<Sparse>, n: nat)
  {
    forall k :: 0 <= k < |data| ==> RowFits(data[k], n)
  }

  /** An oracle as its constructor leaves it: rows that fit, each with its argsort. */
  predicate Ready(o: Oracle)
  {
    && DataFits(o.data, |o.labels|)
    && |o.sorted| == |o.data|
    && forall k :: 0 <= k < |o.data| ==> o.sorted[k] == ArgSort(o.data[k])
  }

  /** The constructor: argsort every row once. */
  function NewOracle(data: seq<Sparse>, labels: seq<int>, lessThan: bool): (o: Oracle)
    ensures o.data == data && o.labels == labels && o.lessThan == lessThan
    ensures |o.sorted| == |data|
    ensures DataFits(data, |labels|) ==> Ready(o)
  {
    Oracle(data, labels, lessThan, seq(|data|, k requires 0 <= k < |data| => ArgSort(data[k])))
  }

  /** The argsort the constructor stores for a row is sorted by (value, position), is a
      permutation of the stored positions plus the sentinel exactly when some example is
      not stored, and puts the sentinel after every explicit zero. */
  lemma NewOracleSorted(data: seq<Sparse>, labels: seq<int>, lessThan: bool, k: nat)
    requires DataFits(data, |labels|) && k < |data|
    ensures SortedBy(data[k], NewOracle(data, labels, lessThan).sorted[k])
    ensures multiset(NewOracle(data, labels, lessThan).sorted[k])
            == multiset(seq(Nnz(data[k]), j => j)) + (if Nnz(data[k]) != |labels| then multiset{Sentinel} else multiset{})
    ensures forall i, j ::
              (0 <= i < |ArgSort(data[k])| && 0 <= j < |ArgSort(data[k])| && ArgSort(data[k])[j] == Sentinel
               && ArgSort(data[k])[i] < Nnz(data[k]) && data[k].entries[ArgSort(data[k])[i]].value == 0.0) ==> i < j
  {
    ArgSortOrder(data[k]);
  }

  /** `find_best_threshold` on row k under dist, from init_edge = Σ dist·label. */
  function RowChoice(o: Oracle, dist: Dense, k: nat): Choice
    requires Ready(o) && |dist| == |o.labels| && |o.labels| > 0 && k < |o.data|
  {
    var dl := Margins(dist, o.labels);
    FindBestThreshold(o.data[k], o.sorted[k], dl, Sum(dl), o.lessThan)
  }

  /** The best edge of every row. */
  function Edges(o: Oracle, dist: Dense): (es: seq<real>)
    requires Ready(o) && |dist| == |o.labels| && |o.labels| > 0
    ensures |es| == |o.data|
  {
    seq(|o.data|, k requires 0 <= k < |o.data| => RowChoice(o, dist, k).edge)
  }

  /** The terms prediction_i·dist_i of the edge the oracle recomputes. */
  function PredictionTerms(pred: seq<Entry>, dist: Dense): (r: seq<real>)
    requires |pred| == |dist|
    ensures |r| == |pred|
    ensures forall i :: 0 <= i < |pred| ==> r[i] == pred[i].value * dist[i]
  {
    seq(|pred|, i requires 0 <= i < |pred| => pred[i].value * dist[i])
  }

  /** The row's values (absent ones 0, later entries overwriting earlier ones),
      thresholded to ±1 and multiplied by the labels, example i stored at index i. */
  function LabelledPrediction(row: Sparse, labels: seq<int>, thresh: real, ge: bool): (pred: seq<Entry>)
    requires InRange(row) && row.dim == |labels|
    ensures |pred| == row.dim
  {
    var values := AssignEntries(Zeros(row.dim), row.entries);
    seq(row.dim, i requires 0 <= i < row.dim => Entry(i, Sign(values[i], thresh, ge) * labels[i] as real))
  }

  /**
   * The stump the oracle returns for row k, threshold and direction: the labelled
   * prediction, its edge Σ prediction_i·dist_i recomputed "just for checking", and the
   * weight vector with a single 1 at k.
   */
  function StumpFor(o: Oracle, dist: Dense, k: nat, thresh: real, ge: bool): (l: Learner)
    requires Ready(o) && |dist| == |o.labels| && k < |o.data|
  {
    var pred := LabelledPrediction(o.data[k], o.labels, thresh, ge);
    Stump(Sparse(|o.data|, [Entry(k, 1.0)]), Sum(PredictionTerms(pred, dist)), Sparse(o.data[k].dim, pred), thresh, ge, k)
  }

  /**
   * `find_maximum_edge_weak_learner` as written: the first row whose edge beats every
   * earlier one and -1.  When no row beats -1, `ge` is never assigned and is read
   * uninitialised; that outcome is `None`.
   */
  function FindMaximumEdgeAsWritten(o: Oracle, dist: Dense): (r: Option<Learner>)
    requires Ready(o) && |dist| == |o.labels| && |o.labels| > 0 && |o.data| > 0
  {
    match ScanArgMax(Edges(o, dist), -1.0)
    case None => None
    case Some(k) =>
      var c := RowChoice(o, dist, k);
      Some(StumpFor(o, dist, k, c.thresh, c.ge))
  }

  /** `find_maximum_edge_weak_learner` with `ge` starting as `true`, beside the
      threshold 1.0 and row 0 the source starts from. */
  function FindMaximumEdge(o: Oracle, dist: Dense): (l: Learner)
    requires Ready(o) && |dist| == |o.labels| && |o.labels| > 0 && |o.data| > 0
  {
    match ScanArgMax(Edges(o, dist), -1.0)
    case None => StumpFor(o, dist, 0, 1.0, true)
    case Some(k) =>
      var c := RowChoice(o, dist, k);
      StumpFor(o, dist, k, c.thresh, c.ge)
  }

  /** Some row's edge beats the -1 the selection starts from. */
  predicate SomeRowBeats(o: Oracle, dist: Dense)
    requires Ready(o) && |dist| == |o.labels| && |o.labels| > 0
  {
    exists k :: 0 <= k < |o.data| && -1.0 < Edges(o, dist)[k]
  }

  /** The as-written oracle returns a learner exactly when some row beats -1, and then
      the corrected one. */
  lemma AsWrittenAgrees(o: Oracle, dist: Dense)
    requires Ready(o) && |dist| == |o.labels| && |o.labels| > 0 && |o.data| > 0
    ensures FindMaximumEdgeAsWritten(o, dist).Some? <==> SomeRowBeats(o, dist)
    ensures SomeRowBeats(o, dist) ==> FindMaximumEdgeAsWritten(o, dist) == Some(FindMaximumEdge(o, dist))
  {
    var es := Edges(o, dist);
    if SomeRowBeats(o, dist) {
      var k :| 0 <= k < |o.data| && -1.0 < es[k];
      assert ScanArgMax(es, -1.0).Some?;
    }
  }

  /** One example, one row with the value 5 there, the label -1 and all the weight on it:
      the only row's edge is -1, so `ge` is read without having been assigned. */
  lemma GeReadUninitialised()
    ensures FindMaximumEdgeAsWritten(
              NewOracle([Sparse(1, [Entry(0, 5.0)])], [-1], false), [1.0]) == None
  {
    var v := Sparse(1, [Entry(0, 5.0)]);
    var o := NewOracle([v], [-1], false);
    assert Positions(v) == [0];
    assert ArgSort(v) == [0];
    assert DataFits(o.data, |o.labels|);
    var dl := Margins([1.0], [-1]);
    assert dl == [-1.0];
    assert StoredMargins(v, dl) == [-1.0];
    assert Weights(v, dl, DistDiff(v, dl, Sum(dl)), [0]) == [-1.0];
    assert SlotValues(v, [0]) == [5.0];
    assert Scan([5.0], [-1.0], -1.0).edge == -1.0;
    assert Edges(o, [1.0]) == [-1.0];
  }

  /** Labelled ±1 times the weight is the margin flipped by the side. */
  lemma LabelledTerm(sign: real, y: int, w: real, plus: bool)
    requires sign == (if plus then 1.0 else -1.0)
    ensures sign * y as real * w == Flip(w * y as real, plus)
  {
  }

  /** Example i's term of the recomputed edge is the stump's term over the examples. */
  lemma PredictionTermAt(row: Sparse, labels: seq<int>, dist: Dense, thresh: real, ge: bool, i: nat)
    requires InRange(row) && Increasing(row.entries) && row.dim == |labels| && |dist| == |labels| && i < |labels|
    ensures PredictionTerms(LabelledPrediction(row, labels, thresh, ge), dist)[i]
            == Signed(ToDense(row), Margins(dist, labels), thresh, ge)[i]
  {
    var x := AssignEntries(Zeros(row.dim), row.entries)[i];
    AssignEntriesOnZeros(row.dim, row.entries, i);
    LabelledTerm(Sign(x, thresh, ge), labels[i], dist[i], OnPlusSide(x, thresh, ge));
  }

  /** The edge recomputed from the labelled prediction is the stump's edge over the
      examples under the margins dist·label. */
  lemma PredictionEdgeIsRowEdge(row: Sparse, labels: seq<int>, dist: Dense, thresh: real, ge: bool)
    requires InRange(row) && Increasing(row.entries) && row.dim == |labels| && |dist| == |labels|
    ensures Sum(PredictionTerms(LabelledPrediction(row, labels, thresh, ge), dist))
            == RowEdge(row, Margins(dist, labels), thresh, ge)
  {
    var terms := PredictionTerms(LabelledPrediction(row, labels, thresh, ge), dist);
    forall i | 0 <= i < |labels|
      ensures terms[i] == Signed(ToDense(row), Margins(dist, labels), thresh, ge)[i]
    {
      PredictionTermAt(row, labels, dist, thresh, ge, i);
    }
    assert terms == Signed(ToDense(row), Margins(dist, labels), thresh, ge);
  }

  /** The edge the oracle recomputes for row k's stump is that stump's edge over the
      examples under the margins dist·label. */
  lemma StumpForEdge(o: Oracle, dist: Dense, k: nat, thresh: real, ge: bool)
    requires Ready(o) && |dist| == |o.labels| && k < |o.data|
    ensures StumpFor(o, dist, k, thresh, ge).edge == RowEdge(o.data[k], Margins(dist, o.labels), thresh, ge)
  {
    PredictionEdgeIsRowEdge(o.data[k], o.labels, dist, thresh, ge);
  }

  /** The returned prediction is the stump's `predict(Data)` times the labels, stored
      densely with index i at position i, and its weight vector is the single entry
      (k, 1). */
  lemma StumpForPrediction(o: Oracle, dist: Dense, k: nat, thresh: real, ge: bool, i: nat)
    requires Ready(o) && |dist| == |o.labels| && k < |o.data| && i < |o.labels|
    ensures StumpFor(o, dist, k, thresh, ge).wt == Sparse(|o.data|, [Entry(k, 1.0)])
    ensures StumpFor(o, dist, k, thresh, ge).prediction.dim == |o.labels|
    ensures StumpFor(o, dist, k, thresh, ge).prediction.entries[i]
            == Entry(i, PredictMatrix(StumpFor(o, dist, k, thresh, ge), o.data)[i] * o.labels[i] as real)
  {
  }

  /** Row k's choice is `find_best_threshold` on the row's own argsort from
      init_edge = Σ margins, so it is the best edge of the stumps the scans cover. */
  lemma RowChoiceEdge(o: Oracle, dist: Dense, k: nat)
    requires Ready(o) && |dist| == |o.labels| && |o.labels| > 0 && k < |o.data|
    ensures Sum(Margins(dist, o.labels)) <= RowChoice(o, dist, k).edge
    ensures RowChoice(o, dist, k).edge
            == RowEdge(o.data[k], Margins(dist, o.labels), RowChoice(o, dist, k).thresh, RowChoice(o, dist, k).ge)
  {
    BestThresholdEdge(o.data[k], Margins(dist, o.labels), o.lessThan);
  }

  /** The corrected oracle's learner when some row beats -1: the stump of the row the
      selection picks, at that row's choice. */
  lemma MaximumEdgeSelected(o: Oracle, dist: Dense)
    requires Ready(o) && |dist| == |o.labels| && |o.labels| > 0 && |o.data| > 0
    requires SomeRowBeats(o, dist)
    ensures ScanArgMax(Edges(o, dist), -1.0).Some?
    ensures FindMaximumEdge(o, dist)
            == StumpFor(o, dist, ScanArgMax(Edges(o, dist), -1.0).value,
                        RowChoice(o, dist, ScanArgMax(Edges(o, dist), -1.0).value).thresh,
                        RowChoice(o, dist, ScanArgMax(Edges(o, dist), -1.0).value).ge)
  {
    var j :| 0 <= j < |o.data| && -1.0 < Edges(o, dist)[j];
  }

  /**
   * When some row beats -1, the corrected oracle returns the stump of the first row with
   * the largest best edge, at that row's best threshold and direction, and its
   * recomputed edge is that best edge.
   */
  lemma MaximumEdgeChoice(o: Oracle, dist: Dense)
    requires Ready(o) && |dist| == |o.labels| && |o.labels| > 0 && |o.data| > 0
    requires SomeRowBeats(o, dist)
    ensures FindMaximumEdge(o, dist).Stump?
    ensures FindMaximumEdge(o, dist).index < |o.data|
    ensures FindMaximumEdge(o, dist).edge == Edges(o, dist)[FindMaximumEdge(o, dist).index]
    ensures forall k :: 0 <= k < |o.data| ==> Edges(o, dist)[k] <= FindMaximumEdge(o, dist).edge
    ensures forall k :: 0 <= k < FindMaximumEdge(o, dist).index ==> Edges(o, dist)[k] < FindMaximumEdge(o, dist).edge
    ensures FindMaximumEdge(o, dist).thresh == RowChoice(o, dist, FindMaximumEdge(o, dist).index).thresh
    ensures FindMaximumEdge(o, dist).direction == RowChoice(o, dist, FindMaximumEdge(o, dist).index).ge
  {
    MaximumEdgeSelected(o, dist);
    ChoiceAt(o, dist, ScanArgMax(Edges(o, dist), -1.0).value);
  }

  /** The stump built for row k's best threshold reports row k's edge. */
  lemma ChoiceAt(o: Oracle, dist: Dense, k: nat)
    requires Ready(o) && |dist| == |o.labels| && |o.labels| > 0 && k < |o.data|
    ensures var c := RowChoice(o, dist, k);
      var l := StumpFor(o, dist, k, c.thresh, c.ge);
      l.Stump? && l.index == k && l.edge == Edges(o, dist)[k] && l.thresh == c.thresh && l.direction == c.ge
  {
    var c := RowChoice(o, dist, k);
    RowChoiceEdge(o, dist, k);
    StumpForEdge(o, dist, k, c.thresh, c.ge);
  }

  /**
   * When some row beats -1, no stump the scans cover does better than the returned
   * one: any row, direction `>=` (or `<=` under `less_than`), any threshold that puts
   * some example on its +1 side.
   */
  lemma MaximumEdgeIsBest(o: Oracle, dist: Dense, j: nat, t: real, d: bool, r: nat)
    requires Ready(o) && |dist| == |o.labels| && |o.labels| > 0 && |o.data| > 0
    requires SomeRowBeats(o, dist)
    requires j < |o.data| && r < |o.labels| && (d || o.lessThan) && OnPlusSide(ToDense(o.data[j])[r], t, d)
    ensures RowEdge(o.data[j], Margins(dist, o.labels), t, d) <= FindMaximumEdge(o, dist).edge
  {
    var best := FindMaximumEdge(o, dist).edge;
    assert Edges(o, dist)[j] <= best by {
      MaximumEdgeChoice(o, dist);
    }
    assert RowEdge(o.data[j], Margins(dist, o.labels), t, d) <= RowChoice(o, dist, j).edge by {
      BestThresholdIsBest(o.data[j], Margins(dist, o.labels), o.lessThan, t, d, r);
    }
  }
}
