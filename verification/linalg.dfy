/**
 * The whole-vector and matrix-level operations of src/math/vector_operations.cpp:
 * the templated matrix-vector products, `transpose_dot`, the mixed `axpy`, `scale`,
 * `sum`, `normalize` and the extreme-value scans.  A matrix is a sequence of rows,
 * each sparse or dense, as the `std::vector<T>` templates allow.
 */
module LinAlg {
  import opened Seqs
  import opened Results
  import opened Vectors

  /** An operand of the templated products: a `SparseVector` or a `DenseVector`. */
  datatype Vec = Sp(s: Sparse) | Dn(d: Dense)

  function Dim(v: Vec): nat
  {
    match v
    case Sp(s) => s.dim
    case Dn(d) => |d|
  }

  /** A sparse operand stores only in-range indices. */
  predicate Valid(v: Vec)
  {
    v.Sp? ==> InRange(v.s)
  }

  /** A sparse operand stores strictly increasing indices. */
  predicate Sorted(v: Vec)
  {
    v.Sp? ==> Increasing(v.s.entries)
  }

  /** The dense vector an operand stands for. */
  function DenseOf(v: Vec): (d: Dense)
    requires Valid(v)
    ensures |d| == Dim(v)
  {
    match v
    case Sp(s) => ToDense(s)
    case Dn(d) => d
  }

  /** Coordinate j of an operand. */
  function Coord(v: Vec, j: nat): real
    requires Valid(v) && j < Dim(v)
  {
    match v
    case Sp(s) => ValueAt(s.entries, j)
    case Dn(d) => d[j]
  }

  /** The `dot` overload the templates pick for the two operand kinds. */
  function Dot(x: Vec, y: Vec): real
    requires Valid(x) && Valid(y) && Dim(x) == Dim(y)
  {
    if x.Sp? && y.Sp? then DotSS(x.s, y.s)
    else if x.Sp? then DotSD(x.s, y.d)
    else if y.Sp? then DotSD(y.s, x.d)
    else DotDD(x.d, y.d)
  }

  lemma {:induction false} DotDDSymmetric(a: Dense, b: Dense)
    requires |a| == |b|
    ensures DotDD(a, b) == DotDD(b, a)
    decreases |a|
  {
    if |a| > 0 {
      DotDDSymmetric(a[..|a| - 1], b[..|b| - 1]);
    }
  }

  /** Every overload computes the dense dot product of what its operands stand for. */
  lemma DotIsDenseDot(x: Vec, y: Vec)
    requires Valid(x) && Valid(y) && Dim(x) == Dim(y) && Sorted(x) && Sorted(y)
    ensures Dot(x, y) == DotDD(DenseOf(x), DenseOf(y))
  {
    if x.Sp? && y.Sp? {
      DotSSIsDenseDot(x.s, y.s);
    } else if x.Sp? {
      DotSDIsDenseDot(x.s, y.d);
    } else if y.Sp? {
      DotSDIsDenseDot(y.s, x.d);
      DotDDSymmetric(x.d, ToDense(y.s));
    }
  }

  // ---------------------------------------------------------------- matrix times vector

  /** Every row is a valid operand of the vector's dimension. */
  predicate Conformable(mat: seq<Vec>, vec: Vec)
  {
    forall k :: 0 <= k < |mat| ==> Valid(mat[k]) && Dim(mat[k]) == Dim(vec)
  }

  /**
   * `dot(mat, vec, DenseVector& res)`: one entry per row.  The source asserts a
   * non-empty matrix and, through the row products, rows of the vector's dimension.
   */
  function MatVecDense(mat: seq<Vec>, vec: Vec): (r: Dense)
    requires |mat| > 0 && Valid(vec) && Conformable(mat, vec)
    ensures |r| == |mat|
    ensures forall i :: 0 <= i < |mat| ==> r[i] == Dot(mat[i], vec)
  {
    seq(|mat|, i requires 0 <= i < |mat| => Dot(mat[i], vec))
  }

  /**
   * `dot(mat, vec, SparseVector& res)`: nnz = dim = number of rows and the row
   * number as each stored index.
   */
  function MatVecSparse(mat: seq<Vec>, vec: Vec): (r: Sparse)
    requires |mat| > 0 && Valid(vec) && Conformable(mat, vec)
    ensures r.dim == |mat| && Nnz(r) == |mat| && InRange(r) && Increasing(r.entries)
    ensures forall i :: 0 <= i < |mat| ==> r.entries[i] == Entry(i, Dot(mat[i], vec))
  {
    Sparse(|mat|, seq(|mat|, i requires 0 <= i < |mat| => Entry(i, Dot(mat[i], vec))))
  }

  /** In an increasing entry list, the value at a stored index is the value stored there. */
  lemma {:induction false} ValueAtStored(es: seq<Entry>, k: nat)
    requires Increasing(es) && k < |es|
    ensures ValueAt(es, es[k].index) == es[k].value
    decreases k
  {
    if k == 0 {
      ValueAtHead(es);
    } else {
      assert es[1..][k - 1] == es[k];
      ValueAtStored(es[1..], k - 1);
    }
  }

  /** The sparse result stands for the dense one. */
  lemma MatVecSparseIsDense(mat: seq<Vec>, vec: Vec)
    requires |mat| > 0 && Valid(vec) && Conformable(mat, vec)
    ensures ToDense(MatVecSparse(mat, vec)) == MatVecDense(mat, vec)
  {
    var r := MatVecSparse(mat, vec);
    forall j | 0 <= j < |mat|
      ensures ToDense(r)[j] == MatVecDense(mat, vec)[j]
    {
      ValueAtStored(r.entries, j);
    }
  }

  /** Row i of the product is the dense dot product of row i with the vector. */
  lemma MatVecIsDenseProduct(mat: seq<Vec>, vec: Vec, i: nat)
    requires |mat| > 0 && Valid(vec) && Conformable(mat, vec) && i < |mat|
    requires Sorted(vec) && Sorted(mat[i])
    ensures MatVecDense(mat, vec)[i] == DotDD(DenseOf(mat[i]), DenseOf(vec))
  {
    DotIsDenseDot(mat[i], vec);
  }

  // ---------------------------------------------------------------- transpose products

  /** Every row is a valid operand of dimension d. */
  predicate RowsOfDim(mat: seq<Vec>, d: nat)
  {
    forall k :: 0 <= k < |mat| ==> Valid(mat[k]) && Dim(mat[k]) == d
  }

  /** Column j of the matrix: coordinate j of every row. */
  function Column(mat: seq<Vec>, d: nat, j: nat): (c: Dense)
    requires RowsOfDim(mat, d) && j < d
    ensures |c| == |mat|
    ensures forall k :: 0 <= k < |mat| ==> c[k] == Coord(mat[k], j)
  {
    seq(|mat|, k requires 0 <= k < |mat| => Coord(mat[k], j))
  }

  /** y += a·x for one row: the dense `axpy`, or the sparse-into-dense scatter. */
  function AxpyRow(a: real, x: Vec, y: Dense): (r: Dense)
    requires Valid(x) && Dim(x) == |y|
    ensures |r| == |y|
    ensures forall j :: 0 <= j < |y| ==> r[j] == Times(a, Coord(x, j)) + y[j]
  {
    match x
    case Dn(d) => Axpy(a, d, y)
    case Sp(s) => AxpySD(a, s, y)
  }

  /**
   * `transpose_dot(mat, vec, DenseVector& res)`: res starts as d zeros and the loop
   * adds vec[k]·mat[k] for k in order, so the last row is added last.
   */
  function TransposeDot(mat: seq<Vec>, vec: Dense, d: nat): (r: Dense)
    requires |mat| == |vec| && RowsOfDim(mat, d)
    ensures |r| == d
    decreases |mat|
  {
    if |mat| == 0 then Zeros(d)
    else
      var n := |mat| - 1;
      AxpyRow(vec[n], mat[n], TransposeDot(mat[..n], vec[..n], d))
  }

  /** Coordinate j of the transpose product is column j dotted with the vector. */
  lemma {:induction false} TransposeDotColumns(mat: seq<Vec>, vec: Dense, d: nat, j: nat)
    requires |mat| == |vec| && RowsOfDim(mat, d) && j < d
    ensures TransposeDot(mat, vec, d)[j] == DotDD(Column(mat, d, j), vec)
    decreases |mat|
  {
    if |mat| > 0 {
      var n := |mat| - 1;
      TransposeDotColumns(mat[..n], vec[..n], d, j);
      ColumnStep(mat, vec, d, j);
    }
  }

  /** One more row adds vec[n]·(its coordinate j) on both sides. */
  lemma ColumnStep(mat: seq<Vec>, vec: Dense, d: nat, j: nat)
    requires |mat| == |vec| && RowsOfDim(mat, d) && j < d && |mat| > 0
    ensures var n := |mat| - 1;
      TransposeDot(mat, vec, d)[j] - TransposeDot(mat[..n], vec[..n], d)[j]
      == DotDD(Column(mat, d, j), vec) - DotDD(Column(mat[..n], d, j), vec[..n])
  {
    var n := |mat| - 1;
    var c := Column(mat, d, j);
    assert c[..n] == Column(mat[..n], d, j);
  }

  /** Every row's dense dot product with w. */
  function RowDots(mat: seq<Vec>, w: Dense): (r: Dense)
    requires RowsOfDim(mat, |w|)
    ensures |r| == |mat|
    ensures forall k :: 0 <= k < |mat| ==> r[k] == DotDD(DenseOf(mat[k]), w)
  {
    seq(|mat|, k requires 0 <= k < |mat| => DotDD(DenseOf(mat[k]), w))
  }

  /** A coordinate of an operand is the entry of the dense vector it stands for. */
  lemma CoordIsDense(x: Vec, j: nat)
    requires Valid(x) && j < Dim(x)
    ensures DenseOf(x)[j] == Coord(x, j)
  {
  }

  lemma TimesCommutes(x: real, y: real)
    ensures Times(x, y) == Times(y, x)
  {
  }

  /** One more term of an axpy, regrouped. */
  lemma AxpyTerm(a: real, x: real, dy: real, c: real, y: real, w: real)
    ensures Times(a, x) + dy + Times(w, Times(a, c) + y) == Times(a, x + Times(w, c)) + (dy + Times(w, y))
  {
  }

  /** Dotting r = a·c + y with w gives a·(c·w) + y·w. */
  lemma {:induction false} DotDDAxpy(a: real, c: Dense, y: Dense, r: Dense, w: Dense)
    requires |c| == |y| == |r| == |w|
    requires forall j :: 0 <= j < |r| ==> r[j] == Times(a, c[j]) + y[j]
    ensures DotDD(r, w) == Times(a, DotDD(c, w)) + DotDD(y, w)
    decreases |r|
  {
    if |r| > 0 {
      var n := |r| - 1;
      DotDDAxpy(a, c[..n], y[..n], r[..n], w[..n]);
      AxpyTerm(a, DotDD(c[..n], w[..n]), DotDD(y[..n], w[..n]), c[n], y[n], w[n]);
    }
  }

  /** Adding one row's axpy to the buffer adds vec[n]·(row · w) to its dot product with w. */
  lemma AxpyRowDot(a: real, x: Vec, y: Dense, w: Dense)
    requires Valid(x) && Dim(x) == |y| == |w|
    ensures DotDD(AxpyRow(a, x, y), w) == Times(a, DotDD(DenseOf(x), w)) + DotDD(y, w)
  {
    forall j | 0 <= j < |y|
      ensures AxpyRow(a, x, y)[j] == Times(a, DenseOf(x)[j]) + y[j]
    {
      CoordIsDense(x, j);
    }
    DotDDAxpy(a, DenseOf(x), y, AxpyRow(a, x, y), w);
  }

  /** The rows' dot products with w, one row fewer. */
  lemma RowDotsPrefix(mat: seq<Vec>, w: Dense, n: nat)
    requires RowsOfDim(mat, |w|) && n <= |mat|
    ensures RowDots(mat, w)[..n] == RowDots(mat[..n], w)
  {
  }

  /**
   * `transpose_dot` is the adjoint of the row products: (Σ_k v_k·row_k)·w equals
   * Σ_k v_k·(row_k·w).
   */
  lemma {:induction false} TransposeDotAdjoint(mat: seq<Vec>, v: Dense, d: nat, w: Dense)
    requires |mat| == |v| && RowsOfDim(mat, d) && |w| == d
    ensures DotDD(TransposeDot(mat, v, d), w) == DotDD(v, RowDots(mat, w))
    decreases |mat|
  {
    if |mat| == 0 {
      DotDDZeros(w);
    } else {
      var n := |mat| - 1;
      var rest := TransposeDot(mat[..n], v[..n], d);
      calc {
        DotDD(TransposeDot(mat, v, d), w);
        DotDD(AxpyRow(v[n], mat[n], rest), w);
      == { AxpyRowDot(v[n], mat[n], rest, w); }
        Times(v[n], DotDD(DenseOf(mat[n]), w)) + DotDD(rest, w);
      == { TransposeDotAdjoint(mat[..n], v[..n], d, w); }
        Times(v[n], DotDD(DenseOf(mat[n]), w)) + DotDD(v[..n], RowDots(mat[..n], w));
      == { RowDotsPrefix(mat, w, n); }
        Times(v[n], RowDots(mat, w)[n]) + DotDD(v[..n], RowDots(mat, w)[..n]);
      == { TimesCommutes(v[n], RowDots(mat, w)[n]); }
        DotDD(v, RowDots(mat, w));
      }
    }
  }

  // ---------------------------------------------------------------- axpy, scale

  /** The stored values multiplied by s, indices kept. */
  function ScaleEntries(es: seq<Entry>, s: real): (r: seq<Entry>)
    ensures |r| == |es|
    ensures forall k :: 0 <= k < |es| ==> r[k] == Entry(es[k].index, s * es[k].value)
  {
    seq(|es|, k requires 0 <= k < |es| => Entry(es[k].index, s * es[k].value))
  }

  /** The stored values at index j, in order, with 0 for every other entry. */
  function Picks(es: seq<Entry>, j: nat): (r: seq<real>)
    ensures |r| == |es|
    ensures forall k :: 0 <= k < |es| ==> r[k] == if es[k].index == j then es[k].value else 0.0
  {
    seq(|es|, k requires 0 <= k < |es| => if es[k].index == j then es[k].value else 0.0)
  }

  /** The value at j is the sum of what is stored there. */
  lemma {:induction false} ValueAtIsSum(es: seq<Entry>, j: nat)
    ensures ValueAt(es, j) == Sum(Picks(es, j))
    decreases |es|
  {
    if |es| > 0 {
      ValueAtIsSum(es[1..], j);
      forall k | 0 <= k < |es| - 1
        ensures Picks(es, j)[1..][k] == Picks(es[1..], j)[k]
      {
      }
      assert Picks(es, j)[1..] == Picks(es[1..], j);
      SumFront(Picks(es, j));
    }
  }

  lemma ValueAtScaleEntries(es: seq<Entry>, s: real, j: nat)
    ensures ValueAt(ScaleEntries(es, s), j) == s * ValueAt(es, j)
  {
    calc {
      ValueAt(ScaleEntries(es, s), j);
    == { ValueAtIsSum(ScaleEntries(es, s), j); }
      Sum(Picks(ScaleEntries(es, s), j));
    == { PicksScale(es, s, j); }
      Sum(ScaleAll(Picks(es, j), s));
    == { SumScaleAll(Picks(es, j), s); }
      s * Sum(Picks(es, j));
    == { ValueAtIsSum(es, j); }
      s * ValueAt(es, j);
    }
  }

  /** Scaling the entries scales what is stored at each index. */
  lemma PicksScale(es: seq<Entry>, s: real, j: nat)
    ensures Picks(ScaleEntries(es, s), j) == ScaleAll(Picks(es, j), s)
  {
    forall k | 0 <= k < |es|
      ensures Picks(ScaleEntries(es, s), j)[k] == ScaleAll(Picks(es, j), s)[k]
    {
      if es[k].index != j {
        assert s * 0.0 == 0.0;
      }
    }
  }

  /** `scale(SparseVector&, s)`: every stored value times s. */
  function ScaleSparse(v: Sparse, s: real): (r: Sparse)
    ensures r.dim == v.dim && Nnz(r) == Nnz(v)
    ensures forall k :: 0 <= k < Nnz(v) ==> r.entries[k].index == v.entries[k].index
  {
    Sparse(v.dim, ScaleEntries(v.entries, s))
  }

  /** Scaling the stored values scales the vector they stand for. */
  lemma ScaleSparseIsDenseScale(v: Sparse, s: real)
    requires InRange(v)
    ensures InRange(ScaleSparse(v, s))
    ensures ToDense(ScaleSparse(v, s)) == ScaleAll(ToDense(v), s)
  {
    forall j | 0 <= j < v.dim
      ensures ToDense(ScaleSparse(v, s))[j] == ScaleAll(ToDense(v), s)[j]
    {
      ValueAtScaleEntries(v.entries, s, j);
    }
  }

  /**
   * `axpy(a, SparseVector x, DenseVector y, res)`: res is y, then `a·x.val[i]` is
   * added at `x.index[i]` for each stored entry in order.
   */
  function AxpySD(a: real, x: Sparse, y: Dense): (r: Dense)
    requires x.dim == |y| && InRange(x)
    ensures |r| == |y|
    ensures forall j :: 0 <= j < |y| ==> r[j] == a * ValueAt(x.entries, j) + y[j]
  {
    forall j | 0 <= j < |y|
      ensures ValueAt(ScaleEntries(x.entries, a), j) == a * ValueAt(x.entries, j)
    {
      ValueAtScaleEntries(x.entries, a, j);
    }
    ScatterAdd(y, ScaleEntries(x.entries, a))
  }

  /**
   * `axpy(a, DenseVector x, SparseVector y, res)`: res is a·x, then `y.val[i]` is
   * added at `y.index[i]` for each stored entry in order.
   */
  function AxpyDS(a: real, x: Dense, y: Sparse): (r: Dense)
    requires |x| == y.dim && InRange(y)
    ensures |r| == |x|
    ensures forall j :: 0 <= j < |x| ==> r[j] == a * x[j] + ValueAt(y.entries, j)
  {
    ScatterAdd(ScaleAll(x, a), y.entries)
  }

  /** Both mixed forms are the dense `axpy` of what their operands stand for. */
  lemma MixedAxpyIsDense(a: real, x: Sparse, y: Dense, u: Dense, v: Sparse)
    requires x.dim == |y| && InRange(x)
    requires |u| == v.dim && InRange(v)
    ensures AxpySD(a, x, y) == Axpy(a, ToDense(x), y)
    ensures AxpyDS(a, u, v) == Axpy(a, u, ToDense(v))
  {
    forall j | 0 <= j < |y|
      ensures AxpySD(a, x, y)[j] == Axpy(a, ToDense(x), y)[j]
    {
      assert ToDense(x)[j] == ValueAt(x.entries, j);
    }
    forall j | 0 <= j < |u|
      ensures AxpyDS(a, u, v)[j] == Axpy(a, u, ToDense(v))[j]
    {
      assert ToDense(v)[j] == ValueAt(v.entries, j);
    }
  }

  // ---------------------------------------------------------------- sparse transpose product

  /** Every stored index of every row is below d. */
  predicate RowsWithin(mat: seq<Sparse>, d: nat)
  {
    forall k :: 0 <= k < |mat| ==> forall e :: 0 <= e < |mat[k].entries| ==> mat[k].entries[e].index < d
  }

  /** Every stored index of the vector names a row. */
  predicate IndexesRows(es: seq<Entry>, rows: nat)
  {
    forall k :: 0 <= k < |es| ==> es[k].index < rows
  }

  /**
   * The value buffer of `transpose_dot(mat, SparseVector vec, SparseVector& res)`: for
   * each stored entry of vec in order, row `vec.index[i]` scaled by `vec.val[i]` is
   * scattered into the buffer.
   */
  function ScatterRows(acc: Dense, mat: seq<Sparse>, es: seq<Entry>): (r: Dense)
    requires RowsWithin(mat, |acc|) && IndexesRows(es, |mat|)
    ensures |r| == |acc|
    decreases |es|
  {
    if |es| == 0 then acc
    else
      var row := mat[es[0].index].entries;
      assert forall e :: 0 <= e < |row| ==> ScaleEntries(row, es[0].value)[e].index < |acc|;
      ScatterRows(ScatterAdd(acc, ScaleEntries(row, es[0].value)), mat, es[1..])
  }

  /** Coordinate j of every row. */
  function SparseColumn(mat: seq<Sparse>, j: nat): (c: Dense)
    ensures |c| == |mat|
    ensures forall k :: 0 <= k < |mat| ==> c[k] == ValueAt(mat[k].entries, j)
  {
    seq(|mat|, k requires 0 <= k < |mat| => ValueAt(mat[k].entries, j))
  }

  /** The buffer gains, at j, the stored entries of vec dotted with column j. */
  lemma {:induction false} ScatterRowsValues(acc: Dense, mat: seq<Sparse>, es: seq<Entry>, j: nat)
    requires RowsWithin(mat, |acc|) && IndexesRows(es, |mat|) && j < |acc|
    ensures ScatterRows(acc, mat, es)[j] == acc[j] + EntriesDot(es, SparseColumn(mat, j))
    decreases |es|
  {
    if |es| > 0 {
      var row := mat[es[0].index].entries;
      var scaled := ScaleEntries(row, es[0].value);
      assert forall e :: 0 <= e < |row| ==> scaled[e].index < |acc|;
      ScatterRowsValues(ScatterAdd(acc, scaled), mat, es[1..], j);
      ScatterOneRow(acc, row, es[0].value, j);
      assert SparseColumn(mat, j)[es[0].index] == ValueAt(row, j);
    }
  }

  /** Scattering one row scaled by s adds s times the row's coordinate j at j. */
  lemma ScatterOneRow(acc: Dense, row: seq<Entry>, s: real, j: nat)
    requires forall e :: 0 <= e < |row| ==> ScaleEntries(row, s)[e].index < |acc|
    requires j < |acc|
    ensures ScatterAdd(acc, ScaleEntries(row, s))[j] == acc[j] + Times(ValueAt(row, j), s)
  {
    ValueAtScaleEntries(row, s, j);
  }

  /** The buffer: n zeros with n = mat[0].dim, then every stored entry of vec scattered. */
  function TransposeBuffer(mat: seq<Sparse>, vec: Sparse): (r: Dense)
    requires |mat| > 0 && |mat| == vec.dim && InRange(vec) && RowsWithin(mat, mat[0].dim)
    ensures |r| == mat[0].dim
    ensures forall j :: 0 <= j < |r| ==> r[j] == EntriesDot(vec.entries, SparseColumn(mat, j))
  {
    forall j | 0 <= j < mat[0].dim
      ensures ScatterRows(Zeros(mat[0].dim), mat, vec.entries)[j]
        == EntriesDot(vec.entries, SparseColumn(mat, j))
    {
      ScatterRowsValues(Zeros(mat[0].dim), mat, vec.entries, j);
    }
    ScatterRows(Zeros(mat[0].dim), mat, vec.entries)
  }

  /**
   * The sparse `transpose_dot` as written: `res.resize(n, n)` zeroes both arrays and the
   * loop fills only `res.val`, so every stored index stays 0.
   */
  function TransposeDotSparseAsWritten(mat: seq<Sparse>, vec: Sparse): (r: Sparse)
    requires |mat| > 0 && |mat| == vec.dim && InRange(vec) && RowsWithin(mat, mat[0].dim)
    ensures r.dim == mat[0].dim && Nnz(r) == mat[0].dim
    ensures forall k :: 0 <= k < Nnz(r) ==> r.entries[k].index == 0
  {
    var buf := TransposeBuffer(mat, vec);
    Sparse(|buf|, seq(|buf|, k requires 0 <= k < |buf| => Entry(0, buf[k])))
  }

  /** The sparse `transpose_dot` with the evidently intended index k at position k. */
  function TransposeDotSparse(mat: seq<Sparse>, vec: Sparse): (r: Sparse)
    requires |mat| > 0 && |mat| == vec.dim && InRange(vec) && RowsWithin(mat, mat[0].dim)
    ensures r.dim == mat[0].dim && Nnz(r) == mat[0].dim && InRange(r) && Increasing(r.entries)
    ensures forall k :: 0 <= k < Nnz(r) ==> r.entries[k].index == k
  {
    var buf := TransposeBuffer(mat, vec);
    Sparse(|buf|, seq(|buf|, k requires 0 <= k < |buf| => Entry(k, buf[k])))
  }

  /** The rows of a sparse matrix as operands. */
  function SparseRows(mat: seq<Sparse>): (r: seq<Vec>)
    ensures |r| == |mat|
    ensures forall k :: 0 <= k < |mat| ==> r[k] == Sp(mat[k])
  {
    seq(|mat|, k requires 0 <= k < |mat| => Sp(mat[k]))
  }

  /** Every row has dimension d and in-range indices. */
  predicate RowsOfSparseDim(mat: seq<Sparse>, d: nat)
  {
    forall k :: 0 <= k < |mat| ==> mat[k].dim == d && InRange(mat[k])
  }

  /** The corrected sparse transpose product stands for the dense transpose product. */
  lemma TransposeDotSparseIsDense(mat: seq<Sparse>, vec: Sparse)
    requires |mat| > 0 && |mat| == vec.dim && InRange(vec) && RowsOfSparseDim(mat, mat[0].dim)
    ensures RowsWithin(mat, mat[0].dim) && RowsOfDim(SparseRows(mat), mat[0].dim)
    ensures ToDense(TransposeDotSparse(mat, vec)) == TransposeDot(SparseRows(mat), ToDense(vec), mat[0].dim)
  {
    var d := mat[0].dim;
    var rows := SparseRows(mat);
    assert RowsWithin(mat, d) by {
      forall k, e | 0 <= k < |mat| && 0 <= e < |mat[k].entries|
        ensures mat[k].entries[e].index < d
      {
        assert InRange(mat[k]);
      }
    }
    var r := TransposeDotSparse(mat, vec);
    forall j | 0 <= j < d
      ensures ToDense(r)[j] == TransposeDot(rows, ToDense(vec), d)[j]
    {
      ValueAtStored(r.entries, j);
      var col := SparseColumn(mat, j);
      assert Column(rows, d, j) == col;
      DotSDIsDenseDot(vec, col);
      TransposeDotColumns(rows, ToDense(vec), d, j);
      DotDDSymmetric(col, ToDense(vec));
    }
  }

  /**
   * One row (0, 1) and the vector (1): the product is (0, 1), but the as-written result
   * stores its value under index 0 and so stands for (1, 0).
   */
  lemma TransposeDotSparseAsWrittenMisplaces()
    ensures var mat := [Sparse(2, [Entry(1, 1.0)])];
      var vec := Sparse(1, [Entry(0, 1.0)]);
      ToDense(TransposeDotSparseAsWritten(mat, vec)) == [1.0, 0.0]
      && ToDense(TransposeDotSparse(mat, vec)) == [0.0, 1.0]
  {
    var mat := [Sparse(2, [Entry(1, 1.0)])];
    var vec := Sparse(1, [Entry(0, 1.0)]);
    var buf := TransposeBuffer(mat, vec);
    assert SparseColumn(mat, 0) == [0.0];
    assert SparseColumn(mat, 1) == [1.0];
    assert buf == [0.0, 1.0];
  }

  // ---------------------------------------------------------------- sums and normalisation

  /** The stored values in storage order. */
  function Values(es: seq<Entry>): (r: seq<real>)
    ensures |r| == |es|
    ensures forall k :: 0 <= k < |es| ==> r[k] == es[k].value
  {
    seq(|es|, k requires 0 <= k < |es| => es[k].value)
  }

  /** Σ of the stored values: what `sum(SparseVector)` is evidently meant to return. */
  function SumSparse(v: Sparse): real
  {
    Sum(Values(v.entries))
  }

  lemma {:induction false} ScatterAddSum(base: Dense, es: seq<Entry>)
    requires forall k :: 0 <= k < |es| ==> es[k].index < |base|
    ensures Sum(ScatterAdd(base, es)) == Sum(base) + Sum(Values(es))
    decreases |es|
  {
    if |es| > 0 {
      var base' := AddAt(base, es[0].index, es[0].value);
      ScatterAddSum(base', es[1..]);
      SumUpdate(base, es[0].index, es[0].value);
      assert base' == base[es[0].index := base[es[0].index] + es[0].value];
      assert Values(es)[1..] == Values(es[1..]);
      SumFront(Values(es));
    }
  }

  /** The corrected sparse sum is the sum of the dense vector the entries stand for. */
  lemma SumSparseIsDenseSum(v: Sparse)
    requires InRange(v)
    ensures SumSparse(v) == Sum(ToDense(v))
  {
    ScatterAddSum(Zeros(v.dim), v.entries);
    SumZeros(v.dim);
  }

  /**
   * `sum(SparseVector)` as written: step i adds `val[index[i]]`, which reads past the
   * value array (`None`) once a stored index reaches nnz.
   */
  function SumSparseAsWritten(es: seq<Entry>, i: nat, acc: real): (r: Option<real>)
    requires i <= |es|
    decreases |es| - i
  {
    if i == |es| then Some(acc)
    else if es[i].index >= |es| then None
    else SumSparseAsWritten(es, i + 1, acc + es[es[i].index].value)
  }

  /** The as-written sum stays in bounds exactly when every stored index is below nnz. */
  lemma {:induction false} SumSparseAsWrittenDefined(es: seq<Entry>, i: nat, acc: real)
    requires i <= |es|
    ensures SumSparseAsWritten(es, i, acc).Some? <==> forall k :: i <= k < |es| ==> es[k].index < |es|
    decreases |es| - i
  {
    if i < |es| {
      SumSparseAsWrittenDefined(es, i + 1, acc + if es[i].index < |es| then es[es[i].index].value else 0.0);
    }
  }

  /** Strictly increasing natural indices below |es| can only be 0, 1, 2, ... */
  lemma {:induction false} IncreasingBelowIsIdentity(es: seq<Entry>, k: nat)
    requires Increasing(es) && forall m :: 0 <= m < |es| ==> es[m].index < |es|
    requires k < |es|
    ensures es[k].index == k
  {
    IndexAtLeast(es, k);
    IndexAtMost(es, k);
  }

  lemma {:induction false} IndexAtLeast(es: seq<Entry>, k: nat)
    requires Increasing(es) && k < |es|
    ensures k <= es[k].index
    decreases k
  {
    if k > 0 {
      IndexAtLeast(es, k - 1);
    }
  }

  lemma {:induction false} IndexAtMost(es: seq<Entry>, k: nat)
    requires Increasing(es) && k < |es|
    ensures es[k].index + (|es| - 1 - k) <= es[|es| - 1].index
    decreases |es| - k
  {
    if k < |es| - 1 {
      IndexAtMost(es, k + 1);
    }
  }

  /** When every stored index k sits at position k, the as-written sum reads the values in order. */
  lemma {:induction false} SumSparseAsWrittenPositions(es: seq<Entry>, i: nat, acc: real)
    requires i <= |es|
    requires forall k :: 0 <= k < |es| ==> es[k].index == k
    ensures SumSparseAsWritten(es, i, acc) == Some(acc + Sum(Values(es)[i..]))
    decreases |es| - i
  {
    if i < |es| {
      SumSparseAsWrittenPositions(es, i + 1, acc + es[i].value);
      SumFront(Values(es)[i..]);
      assert Values(es)[i..][1..] == Values(es)[i + 1..];
    } else {
      assert Values(es)[i..] == [];
    }
  }

  /**
   * For increasing indices the as-written sum either reads past the end or is the
   * corrected sum: it reads `val[index[i]]` and in bounds that is `val[i]`.
   */
  lemma SumSparseAsWrittenAgrees(v: Sparse)
    requires Increasing(v.entries)
    requires SumSparseAsWritten(v.entries, 0, 0.0).Some?
    ensures SumSparseAsWritten(v.entries, 0, 0.0) == Some(SumSparse(v))
  {
    SumSparseAsWrittenDefined(v.entries, 0, 0.0);
    forall k | 0 <= k < |v.entries|
      ensures v.entries[k].index == k
    {
      IncreasingBelowIsIdentity(v.entries, k);
    }
    SumSparseAsWrittenPositions(v.entries, 0, 0.0);
    assert Values(v.entries)[0..] == Values(v.entries);
  }

  /** A single entry stored at index 3 of a 5-vector: the as-written sum reads `val[3]` of a one-element array. */
  lemma SumSparseAsWrittenReadsPastEnd()
    ensures SumSparseAsWritten([Entry(3, 2.0)], 0, 0.0) == None
    ensures SumSparse(Sparse(5, [Entry(3, 2.0)])) == 2.0
  {
    assert Values([Entry(3, 2.0)]) == [2.0];
    SumSingleton(2.0);
  }

  /**
   * `normalize(DenseVector&)`: every entry divided by the total.  A zero total divides
   * by zero in the source; the model asks for a nonzero one.
   */
  function NormalizeDense(a: Dense): (r: Dense)
    requires Sum(a) != 0.0
    ensures |r| == |a|
    ensures forall i :: 0 <= i < |a| ==> r[i] * Sum(a) == a[i]
    ensures Sum(r) == 1.0
  {
    var r := seq(|a|, i requires 0 <= i < |a| => a[i] / Sum(a));
    DividedIsScaled(a, r, Sum(a));
    SumScaledByInverse(a);
    r
  }

  /** Dividing every term by t is scaling by 1/t, and multiplying back by t undoes it. */
  lemma DividedIsScaled(a: seq<real>, r: seq<real>, t: real)
    requires t != 0.0 && |r| == |a|
    requires forall i :: 0 <= i < |a| ==> r[i] == a[i] / t
    ensures r == ScaleAll(a, 1.0 / t)
    ensures forall i :: 0 <= i < |a| ==> r[i] * t == a[i]
  {
    forall i | 0 <= i < |a|
      ensures r[i] == ScaleAll(a, 1.0 / t)[i] && r[i] * t == a[i]
    {
      InverseCancels(t, a[i]);
    }
  }

  /** Scaling by the inverse of the total makes the total 1. */
  lemma SumScaledByInverse(s: seq<real>)
    requires Sum(s) != 0.0
    ensures Sum(ScaleAll(s, 1.0 / Sum(s))) == 1.0
  {
    SumScaleAll(s, 1.0 / Sum(s));
    InverseCancels(Sum(s), 1.0);
  }

  /** The values of scaled entries are the scaled values, and scaling by 1/t is undone by t. */
  lemma ValuesScaledByInverse(es: seq<Entry>, t: real)
    requires t != 0.0
    ensures Values(ScaleEntries(es, 1.0 / t)) == ScaleAll(Values(es), 1.0 / t)
    ensures forall k :: 0 <= k < |es| ==> ScaleEntries(es, 1.0 / t)[k].value * t == es[k].value
  {
    forall k | 0 <= k < |es|
      ensures Values(ScaleEntries(es, 1.0 / t))[k] == ScaleAll(Values(es), 1.0 / t)[k]
      ensures ScaleEntries(es, 1.0 / t)[k].value * t == es[k].value
    {
      InverseCancels(t, es[k].value);
    }
  }

  /** `normalize(SparseVector&)`: every stored value divided by the total of the stored values. */
  function NormalizeSparse(v: Sparse): (r: Sparse)
    requires SumSparse(v) != 0.0
    ensures r.dim == v.dim && Nnz(r) == Nnz(v)
    ensures forall k :: 0 <= k < Nnz(v) ==> r.entries[k].index == v.entries[k].index
    ensures forall k :: 0 <= k < Nnz(v) ==> r.entries[k].value * SumSparse(v) == v.entries[k].value
    ensures SumSparse(r) == 1.0
  {
    NormalizedEntries(v);
    Sparse(v.dim, ScaleEntries(v.entries, 1.0 / SumSparse(v)))
  }

  /** The entries scaled by the inverse total: each times the total is the original,
      and together they sum to 1. */
  lemma NormalizedEntries(v: Sparse)
    requires SumSparse(v) != 0.0
    ensures var r := Sparse(v.dim, ScaleEntries(v.entries, 1.0 / SumSparse(v)));
      && (forall k :: 0 <= k < Nnz(v) ==> r.entries[k].value * SumSparse(v) == v.entries[k].value)
      && SumSparse(r) == 1.0
  {
    ValuesScaledByInverse(v.entries, SumSparse(v));
    SumScaledByInverse(Values(v.entries));
  }

  // ---------------------------------------------------------------- extreme values

  /**
   * The running maximum of a scan that starts from init and replaces the current
   * value only by a strictly greater key.
   */
  function ScanMax(keys: seq<real>, init: real): (m: real)
    ensures init <= m
    ensures forall i :: 0 <= i < |keys| ==> keys[i] <= m
    ensures m == init || exists i :: 0 <= i < |keys| && keys[i] == m
    decreases |keys|
  {
    if |keys| == 0 then init
    else
      var n := |keys| - 1;
      var m := ScanMax(keys[..n], init);
      if keys[n] > m then keys[n] else m
  }

  /**
   * The position the same scan records, `None` for the untouched `size_t(-1)`: the
   * first position of the maximum, provided it beats init.
   */
  function ScanArgMax(keys: seq<real>, init: real): (r: Option<nat>)
    ensures r.None? <==> forall i :: 0 <= i < |keys| ==> keys[i] <= init
    ensures r.Some? ==> r.value < |keys| && init < keys[r.value] && keys[r.value] == ScanMax(keys, init)
    ensures r.Some? ==> forall i :: 0 <= i < r.value ==> keys[i] < keys[r.value]
    decreases |keys|
  {
    if |keys| == 0 then None
    else
      var n := |keys| - 1;
      if keys[n] > ScanMax(keys[..n], init) then Some(n)
      else ScanArgMax(keys[..n], init)
  }

  function Abs(x: real): real
  {
    if x < 0.0 then -x else x
  }

  function AbsAll(a: Dense): (r: Dense)
    ensures |r| == |a|
    ensures forall i :: 0 <= i < |a| ==> r[i] == Abs(a[i])
  {
    seq(|a|, i requires 0 <= i < |a| => Abs(a[i]))
  }

  /** `a[i] < min` is `-a[i] > -min`: the minimum scan is the maximum scan of the negated values. */
  function NegateAll(a: Dense): (r: Dense)
    ensures |r| == |a|
    ensures forall i :: 0 <= i < |a| ==> r[i] == -a[i]
  {
    seq(|a|, i requires 0 <= i < |a| => -a[i])
  }

  /** `argmax`: the first index of the largest entry; `None` when no entry exceeds -DBL_MAX, in particular when empty. */
  function ArgMax(a: Dense): (r: Option<nat>)
    ensures r.None? <==> forall i :: 0 <= i < |a| ==> a[i] <= -DblMax
    ensures r.Some? ==> r.value < |a| && forall i :: 0 <= i < |a| ==> a[i] <= a[r.value]
    ensures r.Some? ==> forall i :: 0 <= i < r.value ==> a[i] < a[r.value]
  {
    ScanArgMax(a, -DblMax)
  }

  /** `argmin`: the first index of the smallest entry; `None` when no entry is below DBL_MAX, in particular when empty. */
  function ArgMin(a: Dense): (r: Option<nat>)
    ensures r.None? <==> forall i :: 0 <= i < |a| ==> DblMax <= a[i]
    ensures r.Some? ==> r.value < |a| && forall i :: 0 <= i < |a| ==> a[r.value] <= a[i]
    ensures r.Some? ==> forall i :: 0 <= i < r.value ==> a[r.value] < a[i]
  {
    var r := ScanArgMax(NegateAll(a), -DblMax);
    assert r.Some? ==> forall i :: 0 <= i < |a| ==> NegateAll(a)[i] <= NegateAll(a)[r.value];
    r
  }

  /** `abs_argmax`: the first index of the entry of largest magnitude; `None` only when empty. */
  function AbsArgMax(a: Dense): (r: Option<nat>)
    ensures r.None? <==> |a| == 0
    ensures r.Some? ==> r.value < |a| && forall i :: 0 <= i < |a| ==> Abs(a[i]) <= Abs(a[r.value])
    ensures r.Some? ==> forall i :: 0 <= i < r.value ==> Abs(a[i]) < Abs(a[r.value])
  {
    var r := ScanArgMax(AbsAll(a), -DblMax);
    assert r.Some? ==> forall i :: 0 <= i < |a| ==> AbsAll(a)[i] <= AbsAll(a)[r.value];
    assert |a| > 0 ==> AbsAll(a)[0] > -DblMax;
    r
  }

  /** `max`: the largest entry, or -DBL_MAX when it is larger (in particular when empty). */
  function Max(a: Dense): (m: real)
    ensures -DblMax <= m && forall i :: 0 <= i < |a| ==> a[i] <= m
    ensures m == -DblMax || exists i :: 0 <= i < |a| && a[i] == m
  {
    ScanMax(a, -DblMax)
  }

  /** `min`: the smallest entry, or DBL_MAX when it is smaller (in particular when empty). */
  function Min(a: Dense): (m: real)
    ensures m <= DblMax && forall i :: 0 <= i < |a| ==> m <= a[i]
    ensures m == DblMax || exists i :: 0 <= i < |a| && a[i] == m
  {
    var m := ScanMax(NegateAll(a), -DblMax);
    assert forall i :: 0 <= i < |a| ==> NegateAll(a)[i] <= m;
    -m
  }

  /** `abs_max`: the largest magnitude, 0 when empty. */
  function AbsMax(a: Dense): (m: real)
    ensures 0.0 <= m && forall i :: 0 <= i < |a| ==> Abs(a[i]) <= m
    ensures m == 0.0 || exists i :: 0 <= i < |a| && Abs(a[i]) == m
  {
    var m := ScanMax(AbsAll(a), 0.0);
    assert forall i :: 0 <= i < |a| ==> AbsAll(a)[i] <= m;
    m
  }

  /** The index `argmax` reports holds the value `max` reports, and it reports none exactly when `max` stays at -DBL_MAX. */
  lemma ArgMaxAgreesWithMax(a: Dense)
    ensures ArgMax(a).Some? ==> a[ArgMax(a).value] == Max(a)
    ensures ArgMax(a).None? <==> Max(a) == -DblMax
  {
  }

  /** The index `argmin` reports holds the value `min` reports, and it reports none exactly when `min` stays at DBL_MAX. */
  lemma ArgMinAgreesWithMin(a: Dense)
    ensures ArgMin(a).Some? ==> a[ArgMin(a).value] == Min(a)
    ensures ArgMin(a).None? <==> Min(a) == DblMax
  {
  }

  /** The index `abs_argmax` reports holds the magnitude `abs_max` reports. */
  lemma AbsArgMaxAgreesWithAbsMax(a: Dense)
    ensures AbsArgMax(a).Some? ==> Abs(a[AbsArgMax(a).value]) == AbsMax(a)
  {
  }
}
