/**
 * The LIBSVM-format readers (src/LibSvmReader.cpp): `readlibSVM` builds one sparse
 * vector per example, `readlibSVM_transpose` one per feature in three passes over
 * the file, and `readlibSVM_transpose_fast` the same per-feature vectors in one
 * pass through a table of buckets.
 *
 * A file is given as its lines, each either blank or an example: the label as
 * `operator>>` reads it (`None` when that fails, which also stops every later
 * read from the line) and the remaining words, each as `sscanf("%lu:%lf")` parses
 * it.  `None` for the whole file means it could not be opened.  The readers for
 * which the source does not check `sscanf`'s result take `stale`: the entry the
 * uninitialised `index` and `val` then hold.
 */
module LibSvm {
  import opened Results
  import opened Text
  import opened Vectors

  /** One word after the label: `index:value`, or a word `sscanf` cannot read both from. */
  datatype Token = Pair(index: nat, value: real) | Unparsed

  datatype Line = Blank | Point(labelRead: Option<real>, tokens: seq<Token>)

  const CannotOpen: string := "Cannot open data file : "
  const ParseFailure: string := "Failed to parse a token in the input file."

  // ---------------------------------------------------------------- lines

  /** The lines read: every line up to the first blank one (`is_blank` ends the loop). */
  function Taken(lines: seq<Line>): seq<Line>
    decreases |lines|
  {
    if |lines| == 0 || lines[0].Blank? then [] else [lines[0]] + Taken(lines[1..])
  }

  /** The lines read are the examples before the first blank line, or all lines when none is blank. */
  lemma {:induction false} TakenIsPrefix(lines: seq<Line>)
    ensures |Taken(lines)| <= |lines| && Taken(lines) == lines[..|Taken(lines)|]
    ensures forall p :: 0 <= p < |Taken(lines)| ==> Taken(lines)[p].Point?
    ensures |Taken(lines)| < |lines| ==> lines[|Taken(lines)|].Blank?
    decreases |lines|
  {
    if |lines| > 0 && lines[0].Point? {
      TakenIsPrefix(lines[1..]);
    }
  }

  /** The words read after the label: none once the label could not be read. */
  function TokensOf(l: Line): seq<Token>
  {
    if l.Point? && l.labelRead.Some? then l.tokens else []
  }

  /** `static_cast<int>` of the label read, which stays 0 when reading fails. */
  function LabelOf(l: Line): int
  {
    if l.Point? && l.labelRead.Some? then Truncate(l.labelRead.value) else 0
  }

  function AsEntry(t: Token, stale: Entry): Entry
  {
    if t.Pair? then Entry(t.index, t.value) else stale
  }

  /** One example's stored entries, in the order of its words. */
  function RowOf(l: Line, stale: Entry): (es: seq<Entry>)
    ensures |es| == |TokensOf(l)|
    ensures forall k :: 0 <= k < |es| ==> es[k] == AsEntry(TokensOf(l)[k], stale)
  {
    seq(|TokensOf(l)|, k requires 0 <= k < |TokensOf(l)| => AsEntry(TokensOf(l)[k], stale))
  }

  function RowsOf(ps: seq<Line>, stale: Entry): (rows: seq<seq<Entry>>)
    ensures |rows| == |ps|
    ensures forall p :: 0 <= p < |ps| ==> rows[p] == RowOf(ps[p], stale)
  {
    seq(|ps|, p requires 0 <= p < |ps| => RowOf(ps[p], stale))
  }

  function LabelsOf(ps: seq<Line>): (labels: seq<int>)
    ensures |labels| == |ps|
    ensures forall p :: 0 <= p < |ps| ==> labels[p] == LabelOf(ps[p])
  {
    seq(|ps|, p requires 0 <= p < |ps| => LabelOf(ps[p]))
  }

  /** Every word of every line read parses. */
  predicate AllParse(ps: seq<Line>)
  {
    forall p, k :: 0 <= p < |ps| && 0 <= k < |TokensOf(ps[p])| ==> TokensOf(ps[p])[k].Pair?
  }

  // ---------------------------------------------------------------- the largest index

  function MaxOf(es: seq<Entry>): nat
    decreases |es|
  {
    if |es| == 0 then 0
    else
      var m := MaxOf(es[..|es| - 1]);
      var last := es[|es| - 1].index;
      if last > m then last else m
  }

  /**
   * `max_index` after the reading loop: the largest index stored in any row (0 when
   * there is none); one more than it is the number of features.
   */
  function MaxIndex(rows: seq<seq<Entry>>): nat
    decreases |rows|
  {
    if |rows| == 0 then 0
    else
      var m := MaxIndex(rows[..|rows| - 1]);
      var last := MaxOf(rows[|rows| - 1]);
      if last > m then last else m
  }

  lemma {:induction false} MaxOfIsMax(es: seq<Entry>)
    ensures forall k :: 0 <= k < |es| ==> es[k].index <= MaxOf(es)
    ensures MaxOf(es) == 0 || exists k :: 0 <= k < |es| && es[k].index == MaxOf(es)
    decreases |es|
  {
    if |es| > 0 {
      MaxOfIsMax(es[..|es| - 1]);
      assert forall k :: 0 <= k < |es| - 1 ==> es[..|es| - 1][k] == es[k];
    }
  }

  /** `max_index` bounds every stored index and is one of them, unless it is 0. */
  lemma {:induction false} MaxIndexIsMax(rows: seq<seq<Entry>>)
    ensures forall p, k :: 0 <= p < |rows| && 0 <= k < |rows[p]| ==> rows[p][k].index <= MaxIndex(rows)
    ensures MaxIndex(rows) == 0 || exists p, k :: 0 <= p < |rows| && 0 <= k < |rows[p]| && rows[p][k].index == MaxIndex(rows)
    decreases |rows|
  {
    if |rows| > 0 {
      MaxIndexIsMax(rows[..|rows| - 1]);
      MaxOfIsMax(rows[|rows| - 1]);
      assert forall p :: 0 <= p < |rows| - 1 ==> rows[..|rows| - 1][p] == rows[p];
    }
  }

  // ---------------------------------------------------------------- one vector per example

  /**
   * `readlibSVM`: one sparse vector per line read, holding the line's entries in
   * order, every one of dimension `max_index + 1`, and the truncated labels.  A file
   * that cannot be opened is an invalid argument.
   */
  function ReadRows(file: Option<seq<Line>>, filename: string, stale: Entry): (r: Result<(seq<Sparse>, seq<int>)>)
    ensures r.Err? <==> file.None?
    ensures r.Err? ==> r.error == InvalidArgument(CannotOpen + filename + "\n")
    ensures r.Ok? ==> var (data, labels) := r.value;
      && |data| == |labels| == |Taken(file.value)|
      && labels == LabelsOf(Taken(file.value))
      && forall p :: 0 <= p < |data| ==>
           data[p].entries == RowOf(Taken(file.value)[p], stale)
           && data[p].dim == MaxIndex(RowsOf(Taken(file.value), stale)) + 1
  {
    if file.None? then Err(InvalidArgument(CannotOpen + filename + "\n"))
    else
      var ps := Taken(file.value);
      var rows := RowsOf(ps, stale);
      var width := MaxIndex(rows) + 1;
      Ok((seq(|rows|, p requires 0 <= p < |rows| => Sparse(width, rows[p])), LabelsOf(ps)))
  }

  /** Every example read has the same dimension, every stored index lies below it,
      and the largest stored index is the last coordinate (or there is none). */
  lemma ReadRowsInRange(file: Option<seq<Line>>, filename: string, stale: Entry)
    requires file.Some?
    ensures var data := ReadRows(file, filename, stale).value.0;
      && (forall p :: 0 <= p < |data| ==> InRange(data[p]))
      && (forall p, q :: 0 <= p < |data| && 0 <= q < |data| ==> data[p].dim == data[q].dim)
      && (forall p :: 0 <= p < |data| ==>
            data[p].dim == 1 || exists q, k :: 0 <= q < |data| && 0 <= k < |data[q].entries| && data[q].entries[k].index == data[p].dim - 1)
  {
    var data := ReadRows(file, filename, stale).value.0;
    var rows := RowsOf(Taken(file.value), stale);
    MaxIndexIsMax(rows);
    forall p | 0 <= p < |data|
      ensures InRange(data[p])
    {
      assert data[p].entries == rows[p];
    }
  }

  // ---------------------------------------------------------------- one vector per feature

  /** Row p's entries with index j, as entries of the feature vector: (p, value), in order. */
  function Picked(es: seq<Entry>, j: nat, p: nat): (r: seq<Entry>)
    ensures forall k :: 0 <= k < |r| ==> r[k].index == p
    ensures |r| <= |es|
    decreases |es|
  {
    if |es| == 0 then []
    else Picked(es[..|es| - 1], j, p) + (if es[|es| - 1].index == j then [Entry(p, es[|es| - 1].value)] else [])
  }

  /** Feature j's stored entries: every row's entries with index j, row by row. */
  function ColumnOf(rows: seq<seq<Entry>>, j: nat): (r: seq<Entry>)
    ensures forall k :: 0 <= k < |r| ==> r[k].index < |rows|
    decreases |rows|
  {
    if |rows| == 0 then []
    else ColumnOf(rows[..|rows| - 1], j) + Picked(rows[|rows| - 1], j, |rows| - 1)
  }

  /** `width` feature vectors over n examples. */
  function Columns(rows: seq<seq<Entry>>, width: nat, n: nat): (cols: seq<Sparse>)
    ensures |cols| == width
    ensures forall j :: 0 <= j < width ==> cols[j] == Sparse(n, ColumnOf(rows, j))
  {
    seq(width, j requires 0 <= j < width => Sparse(n, ColumnOf(rows, j)))
  }

  /**
   * `readlibSVM_transpose`: a file that cannot be opened is an invalid argument, a
   * word `sscanf` cannot read an index and a value from is a runtime error;
   * otherwise one sparse vector per feature 0..`max_index`, over the examples read,
   * and the truncated labels.
   */
  function ReadTransposed(file: Option<seq<Line>>, filename: string): (r: Result<(seq<Sparse>, seq<int>)>)
    ensures r.Err? <==> file.None? || !AllParse(Taken(file.value))
    ensures file.None? ==> r.Err? && r.error == InvalidArgument(CannotOpen + filename + "\n")
    ensures file.Some? && r.Err? ==> r.error == RuntimeError(ParseFailure)
    ensures r.Ok? ==> var (data, labels) := r.value;
      && labels == LabelsOf(Taken(file.value))
      && data == Columns(RowsOf(Taken(file.value), Entry(0, 0.0)), MaxIndex(RowsOf(Taken(file.value), Entry(0, 0.0))) + 1, |Taken(file.value)|)
  {
    if file.None? then Err(InvalidArgument(CannotOpen + filename + "\n"))
    else
      var ps := Taken(file.value);
      if !AllParse(ps) then Err(RuntimeError(ParseFailure))
      else
        var rows := RowsOf(ps, Entry(0, 0.0));
        Ok((Columns(rows, MaxIndex(rows) + 1, |ps|), LabelsOf(ps)))
  }

  lemma {:induction false} ValueAtConcat(a: seq<Entry>, b: seq<Entry>, j: nat)
    ensures ValueAt(a + b, j) == ValueAt(a, j) + ValueAt(b, j)
    decreases |a|
  {
    if |a| == 0 {
      assert a + b == b;
    } else {
      assert (a + b)[1..] == a[1..] + b;
      ValueAtConcat(a[1..], b, j);
    }
  }

  lemma {:induction false} ValueAtBelow(es: seq<Entry>, p: nat)
    requires forall k :: 0 <= k < |es| ==> es[k].index < p
    ensures ValueAt(es, p) == 0.0
    decreases |es|
  {
    if |es| > 0 {
      ValueAtBelow(es[1..], p);
    }
  }

  lemma {:induction false} ValueAtLast(es: seq<Entry>, j: nat)
    requires |es| > 0
    ensures ValueAt(es, j) == ValueAt(es[..|es| - 1], j) + (if es[|es| - 1].index == j then es[|es| - 1].value else 0.0)
  {
    assert es == es[..|es| - 1] + [es[|es| - 1]];
    ValueAtAppend(es[..|es| - 1], es[|es| - 1], j);
  }

  /** The picked entries stand, at row p, for row p's value at j. */
  lemma {:induction false} PickedValue(es: seq<Entry>, j: nat, p: nat)
    ensures ValueAt(Picked(es, j, p), p) == ValueAt(es, j)
    decreases |es|
  {
    if |es| > 0 {
      var init := es[..|es| - 1];
      var e := es[|es| - 1];
      PickedValue(init, j, p);
      ValueAtLast(es, j);
      ValueAtConcat(Picked(init, j, p), if e.index == j then [Entry(p, e.value)] else [], p);
      if e.index == j {
        ValueAtAppend([], Entry(p, e.value), p);
        assert [] + [Entry(p, e.value)] == [Entry(p, e.value)];
      }
    }
  }

  /** Feature j's vector holds, at example p, example p's value at feature j. */
  lemma {:induction false} ColumnValue(rows: seq<seq<Entry>>, j: nat, p: nat)
    requires p < |rows|
    ensures ValueAt(ColumnOf(rows, j), p) == ValueAt(rows[p], j)
    decreases |rows|
  {
    var n := |rows| - 1;
    var init := rows[..n];
    ValueAtConcat(ColumnOf(init, j), Picked(rows[n], j, n), p);
    PickedValue(rows[n], j, n);
    if p < n {
      assert init[p] == rows[p];
      ColumnValue(init, j, p);
      NotIndexed(Picked(rows[n], j, n), p);
    } else {
      ValueAtBelow(ColumnOf(init, j), p);
    }
  }

  lemma {:induction false} NotIndexed(es: seq<Entry>, p: nat)
    requires forall k :: 0 <= k < |es| ==> es[k].index != p
    ensures ValueAt(es, p) == 0.0
    decreases |es|
  {
    if |es| > 0 {
      NotIndexed(es[1..], p);
    }
  }

  /** When every word parses, the uninitialised entry never reaches a row. */
  lemma StaleUnused(ps: seq<Line>, stale: Entry, stale': Entry)
    requires AllParse(ps)
    ensures RowsOf(ps, stale) == RowsOf(ps, stale')
  {
    var rows := RowsOf(ps, stale);
    var rows' := RowsOf(ps, stale');
    forall p | 0 <= p < |ps|
      ensures rows[p] == rows'[p]
    {
      forall k | 0 <= k < |rows[p]|
        ensures rows[p][k] == rows'[p][k]
      {
        assert TokensOf(ps[p])[k].Pair?;
      }
    }
  }

  /**
   * The two readers agree: when every word parses, the per-feature vectors of
   * `readlibSVM_transpose` are the transpose of the per-example vectors of
   * `readlibSVM` — feature j's vector at example p is example p's value at feature
   * j — with the same number of features and the same labels.
   */
  lemma TransposedIsTranspose(file: Option<seq<Line>>, filename: string, stale: Entry)
    requires ReadTransposed(file, filename).Ok?
    ensures ReadRows(file, filename, stale).Ok?
    ensures var (cols, labels) := ReadTransposed(file, filename).value;
      var (data, labels') := ReadRows(file, filename, stale).value;
      && labels == labels' && |data| == |labels| && (forall p :: 0 <= p < |data| ==> data[p].dim == |cols|)
      && forall j, p :: 0 <= j < |cols| && 0 <= p < |data| ==>
           cols[j].dim == |data| && ValueAt(cols[j].entries, p) == ValueAt(data[p].entries, j)
  {
    var ps := Taken(file.value);
    var rows := RowsOf(ps, Entry(0, 0.0));
    StaleUnused(ps, stale, Entry(0, 0.0));
    var (cols, labels) := ReadTransposed(file, filename).value;
    var (data, labels') := ReadRows(file, filename, stale).value;
    forall j, p | 0 <= j < |cols| && 0 <= p < |data|
      ensures ValueAt(cols[j].entries, p) == ValueAt(data[p].entries, j)
    {
      ColumnValue(rows, j, p);
    }
  }

  // ---------------------------------------------------------------- the order within a feature vector

  /** Stored indices never decrease. */
  predicate Ordered(es: seq<Entry>)
  {
    forall k, l :: 0 <= k < l < |es| ==> es[k].index <= es[l].index
  }

  /** No example stores a feature twice: no line repeats an index, as in "1 3:1 3:2". */
  predicate NoRepeats(rows: seq<seq<Entry>>)
  {
    forall p, k, l :: 0 <= p < |rows| && 0 <= k < l < |rows[p]| ==> rows[p][k].index != rows[p][l].index
  }

  lemma {:induction false} PickedNone(es: seq<Entry>, j: nat, p: nat)
    requires forall k :: 0 <= k < |es| ==> es[k].index != j
    ensures Picked(es, j, p) == []
    decreases |es|
  {
    if |es| > 0 {
      PickedNone(es[..|es| - 1], j, p);
    }
  }

  /** A row that stores feature j at position k contributes an entry to feature j. */
  lemma {:induction false} PickedSome(es: seq<Entry>, k: nat, j: nat, p: nat)
    requires k < |es| && es[k].index == j
    ensures |Picked(es, j, p)| >= 1
    decreases |es|
  {
    if k < |es| - 1 {
      PickedSome(es[..|es| - 1], k, j, p);
    }
  }

  /** A row without repeated indices contributes at most one entry to each feature. */
  lemma {:induction false} PickedAtMostOne(es: seq<Entry>, j: nat, p: nat)
    requires forall k, l :: 0 <= k < l < |es| ==> es[k].index != es[l].index
    ensures |Picked(es, j, p)| <= 1
    decreases |es|
  {
    if |es| > 0 {
      var n := |es| - 1;
      if es[n].index == j {
        PickedNone(es[..n], j, p);
      } else {
        PickedAtMostOne(es[..n], j, p);
      }
    }
  }

  /**
   * Feature j's entries come in line order: their example indices never decrease
   * and stay below the number of lines, and they strictly increase when no line
   * repeats an index.
   */
  lemma {:induction false} ColumnOrdered(rows: seq<seq<Entry>>, j: nat)
    ensures Ordered(ColumnOf(rows, j))
    ensures NoRepeats(rows) ==> Increasing(ColumnOf(rows, j))
    decreases |rows|
  {
    if |rows| > 0 {
      var n := |rows| - 1;
      var init := rows[..n];
      var c := ColumnOf(init, j);
      var q := Picked(rows[n], j, n);
      ColumnOrdered(init, j);
      assert ColumnOf(rows, j) == c + q;
      if NoRepeats(rows) {
        assert NoRepeats(init) by {
          forall p | 0 <= p < n
            ensures init[p] == rows[p]
          {
          }
        }
        PickedAtMostOne(rows[n], j, n);
      }
    }
  }

  /** The entries of a prefix of the rows start feature j's entries. */
  lemma {:induction false} ColumnPrefix(rows: seq<seq<Entry>>, q: nat, j: nat)
    requires q <= |rows|
    ensures ColumnOf(rows[..q], j) <= ColumnOf(rows, j)
    decreases |rows| - q
  {
    if q < |rows| {
      ColumnPrefix(rows, q + 1, j);
      ColumnStep(rows, q, j);
    } else {
      assert rows[..q] == rows;
    }
  }

  /** A line that repeats feature j puts two entries with its own line number into feature j. */
  lemma RepeatBreaksIncrease(rows: seq<seq<Entry>>, p: nat, k: nat, l: nat)
    requires p < |rows| && k < l < |rows[p]| && rows[p][k].index == rows[p][l].index
    ensures !Increasing(ColumnOf(rows, rows[p][k].index))
  {
    var j := rows[p][k].index;
    var es := rows[p];
    PickedSome(es[..l], k, j, p);
    PickedStep(es, l, j, p);
    PickedPrefixLength(es, l + 1, j, p);
    var c := ColumnOf(rows[..p], j);
    var pk := Picked(es, j, p);
    ColumnStep(rows, p, j);
    ColumnPrefix(rows, p + 1, j);
    var all := ColumnOf(rows, j);
    assert all[|c|] == pk[0] && all[|c| + 1] == pk[1];
  }

  /** Every feature's entries strictly increase exactly when no line repeats an index. */
  lemma ColumnsIncreasingIff(rows: seq<seq<Entry>>)
    ensures (forall j :: Increasing(ColumnOf(rows, j))) <==> NoRepeats(rows)
  {
    if NoRepeats(rows) {
      forall j
        ensures Increasing(ColumnOf(rows, j))
      {
        ColumnOrdered(rows, j);
      }
    } else {
      var p, k, l :| 0 <= p < |rows| && 0 <= k < l < |rows[p]| && rows[p][k].index == rows[p][l].index;
      RepeatBreaksIncrease(rows, p, k, l);
    }
  }

  /**
   * `readlibSVM_transpose` lists each feature's examples in line order: every
   * feature vector's indices never decrease and address an example, and they
   * strictly increase, as the merge loops require, exactly when no line read
   * repeats a feature index.
   */
  lemma ReadTransposedOrdered(file: Option<seq<Line>>, filename: string)
    requires ReadTransposed(file, filename).Ok?
    ensures var cols := ReadTransposed(file, filename).value.0;
      forall j :: 0 <= j < |cols| ==> Ordered(cols[j].entries) && InRange(cols[j])
    ensures var cols := ReadTransposed(file, filename).value.0;
      (forall j :: 0 <= j < |cols| ==> Increasing(cols[j].entries))
        <==> NoRepeats(RowsOf(Taken(file.value), Entry(0, 0.0)))
  {
    var rows := RowsOf(Taken(file.value), Entry(0, 0.0));
    var cols := ReadTransposed(file, filename).value.0;
    forall j | 0 <= j < |cols|
      ensures Ordered(cols[j].entries) && InRange(cols[j])
      ensures NoRepeats(rows) ==> Increasing(cols[j].entries)
    {
      ColumnOrdered(rows, j);
    }
    if !NoRepeats(rows) {
      var p, k, l :| 0 <= p < |rows| && 0 <= k < l < |rows[p]| && rows[p][k].index == rows[p][l].index;
      RepeatBreaksIncrease(rows, p, k, l);
      MaxIndexIsMax(rows);
      assert rows[p][k].index < |cols|;
    }
  }

  // ---------------------------------------------------------------- the second and third passes

  lemma ColumnStep(rows: seq<seq<Entry>>, p: nat, j: nat)
    requires p < |rows|
    ensures ColumnOf(rows[..p + 1], j) == ColumnOf(rows[..p], j) + Picked(rows[p], j, p)
  {
    assert rows[..p + 1][..p] == rows[..p];
  }

  lemma PickedStep(es: seq<Entry>, k: nat, j: nat, p: nat)
    requires k < |es|
    ensures Picked(es[..k + 1], j, p) == Picked(es[..k], j, p) + (if es[k].index == j then [Entry(p, es[k].value)] else [])
  {
    assert es[..k + 1][..k] == es[..k];
  }

  lemma {:induction false} PickedPrefixLength(es: seq<Entry>, k: nat, j: nat, p: nat)
    requires k <= |es|
    ensures |Picked(es[..k], j, p)| <= |Picked(es, j, p)|
    decreases |es| - k
  {
    if k < |es| {
      PickedPrefixLength(es, k + 1, j, p);
      PickedStep(es, k, j, p);
    } else {
      assert es[..k] == es;
    }
  }

  lemma {:induction false} ColumnPrefixLength(rows: seq<seq<Entry>>, q: nat, j: nat)
    requires q <= |rows|
    ensures |ColumnOf(rows[..q], j)| <= |ColumnOf(rows, j)|
    decreases |rows| - q
  {
    if q < |rows| {
      ColumnPrefixLength(rows, q + 1, j);
      ColumnStep(rows, q, j);
    } else {
      assert rows[..q] == rows;
    }
  }

  /** Feature j's entries so far: all of the first p rows, and the first k entries of row p. */
  function SoFar(rows: seq<seq<Entry>>, p: nat, k: nat, j: nat): seq<Entry>
    requires p < |rows| && k <= |rows[p]|
  {
    ColumnOf(rows[..p], j) + Picked(rows[p][..k], j, p)
  }

  /** What is left of feature j's entries never falls below zero: the entries so far are at most all of them. */
  lemma SoFarFits(rows: seq<seq<Entry>>, p: nat, k: nat, j: nat)
    requires p < |rows| && k <= |rows[p]|
    ensures |SoFar(rows, p, k, j)| <= |ColumnOf(rows, j)|
  {
    PickedPrefixLength(rows[p], k, j, p);
    ColumnStep(rows, p, j);
    ColumnPrefixLength(rows, p + 1, j);
  }

  /** Moving on to the next row. */
  lemma SoFarNextRow(rows: seq<seq<Entry>>, p: nat, j: nat)
    requires p < |rows|
    ensures ColumnOf(rows[..p + 1], j) == SoFar(rows, p, |rows[p]|, j)
  {
    ColumnStep(rows, p, j);
    assert rows[p][..|rows[p]|] == rows[p];
  }

  /** Every word's index is below the width the first pass found. */
  predicate IndicesBelow(rows: seq<seq<Entry>>, width: nat)
  {
    forall p, k :: 0 <= p < |rows| && 0 <= k < |rows[p]| ==> rows[p][k].index < width
  }

  /**
   * The second pass of `readlibSVM_transpose`: `index_counter[j]` counts the words
   * with index j, which is the number of entries feature j's vector will store.
   */
  method CountPerFeature(rows: seq<seq<Entry>>, width: nat) returns (counts: seq<nat>)
    requires IndicesBelow(rows, width)
    ensures |counts| == width
    ensures forall j :: 0 <= j < width ==> counts[j] == |ColumnOf(rows, j)|
  {
    counts := seq(width, _ => 0);
    var p := 0;
    while p < |rows|
      invariant p <= |rows| && |counts| == width
      invariant forall j :: 0 <= j < width ==> counts[j] == |ColumnOf(rows[..p], j)|
    {
      var k := 0;
      while k < |rows[p]|
        invariant k <= |rows[p]| && |counts| == width
        invariant forall j :: 0 <= j < width ==> counts[j] == |SoFar(rows, p, k, j)|
      {
        var idx := rows[p][k].index;
        forall j | 0 <= j < width
          ensures |SoFar(rows, p, k + 1, j)| == |SoFar(rows, p, k, j)| + (if j == idx then 1 else 0)
        {
          PickedStep(rows[p], k, j, p);
        }
        counts := counts[idx := counts[idx] + 1];
        k := k + 1;
      }
      forall j | 0 <= j < width
        ensures counts[j] == |ColumnOf(rows[..p + 1], j)|
      {
        SoFarNextRow(rows, p, j);
      }
      p := p + 1;
    }
    assert rows[..p] == rows;
  }

  /** One feature's vector during the third pass, before word k of line p: it has its
      full size, and its first f slots hold the feature's entries so far. */
  predicate SlotsAt(rows: seq<seq<Entry>>, p: nat, k: nat, j: nat, col: seq<Entry>, f: nat)
    requires p < |rows| && k <= |rows[p]|
  {
    |col| == |ColumnOf(rows, j)| && f == |SoFar(rows, p, k, j)| <= |col| && col[..f] == SoFar(rows, p, k, j)
  }

  /** Every feature's vector, before word k of line p. */
  predicate Filling(rows: seq<seq<Entry>>, width: nat, cols: seq<seq<Entry>>, filled: seq<nat>, p: nat, k: nat)
    requires p < |rows| && k <= |rows[p]|
  {
    && |cols| == width && |filled| == width
    && forall j :: 0 <= j < width ==> SlotsAt(rows, p, k, j, cols[j], filled[j])
  }

  /** Between lines: the first p lines are in place. */
  predicate FilledTo(rows: seq<seq<Entry>>, width: nat, cols: seq<seq<Entry>>, filled: seq<nat>, p: nat)
    requires p <= |rows|
  {
    && |cols| == width && |filled| == width
    && forall j :: 0 <= j < width ==>
         && |cols[j]| == |ColumnOf(rows, j)|
         && filled[j] == |ColumnOf(rows[..p], j)| <= |cols[j]|
         && cols[j][..filled[j]] == ColumnOf(rows[..p], j)
  }

  lemma LineStarts(rows: seq<seq<Entry>>, width: nat, cols: seq<seq<Entry>>, filled: seq<nat>, p: nat)
    requires p < |rows| && FilledTo(rows, width, cols, filled, p)
    ensures Filling(rows, width, cols, filled, p, 0)
  {
    forall j | 0 <= j < width
      ensures SoFar(rows, p, 0, j) == ColumnOf(rows[..p], j)
    {
      assert rows[p][..0] == [];
    }
  }

  lemma LineEnds(rows: seq<seq<Entry>>, width: nat, cols: seq<seq<Entry>>, filled: seq<nat>, p: nat)
    requires p < |rows| && Filling(rows, width, cols, filled, p, |rows[p]|)
    ensures FilledTo(rows, width, cols, filled, p + 1)
  {
    forall j | 0 <= j < width
      ensures ColumnOf(rows[..p + 1], j) == SoFar(rows, p, |rows[p]|, j)
    {
      SoFarNextRow(rows, p, j);
    }
  }

  /** Word k of line p goes into the next free slot of its own feature ... */
  lemma SlotWritten(rows: seq<seq<Entry>>, p: nat, k: nat, col: seq<Entry>, f: nat)
    requires p < |rows| && k < |rows[p]|
    requires SlotsAt(rows, p, k, rows[p][k].index, col, f)
    ensures f < |col|
    ensures SlotsAt(rows, p, k + 1, rows[p][k].index, col[f := Entry(p, rows[p][k].value)], f + 1)
  {
    var idx := rows[p][k].index;
    var e := Entry(p, rows[p][k].value);
    PickedStep(rows[p], k, idx, p);
    SoFarFits(rows, p, k + 1, idx);
    assert col[f := e][..f + 1] == col[..f] + [e];
  }

  /** ... and leaves every other feature's vector as it was. */
  lemma SlotsUntouched(rows: seq<seq<Entry>>, p: nat, k: nat, j: nat, col: seq<Entry>, f: nat)
    requires p < |rows| && k < |rows[p]| && j != rows[p][k].index
    requires SlotsAt(rows, p, k, j, col, f)
    ensures SlotsAt(rows, p, k + 1, j, col, f)
  {
    PickedStep(rows[p], k, j, p);
  }

  /** Writing word k of line p into the next free slot of its feature. */
  lemma FillWord(rows: seq<seq<Entry>>, width: nat, cols: seq<seq<Entry>>, filled: seq<nat>, p: nat, k: nat)
    requires p < |rows| && k < |rows[p]| && rows[p][k].index < width
    requires Filling(rows, width, cols, filled, p, k)
    ensures filled[rows[p][k].index] < |cols[rows[p][k].index]|
    ensures var idx := rows[p][k].index;
      Filling(rows, width, cols[idx := cols[idx][filled[idx] := Entry(p, rows[p][k].value)]],
              filled[idx := filled[idx] + 1], p, k + 1)
  {
    var idx := rows[p][k].index;
    SlotWritten(rows, p, k, cols[idx], filled[idx]);
    var cols' := cols[idx := cols[idx][filled[idx] := Entry(p, rows[p][k].value)]];
    var filled' := filled[idx := filled[idx] + 1];
    forall j | 0 <= j < width
      ensures SlotsAt(rows, p, k + 1, j, cols'[j], filled'[j])
    {
      if j != idx {
        SlotsUntouched(rows, p, k, j, cols[j], filled[j]);
      }
    }
  }

  /** Freshly allocated vectors with every counter at 0: nothing is in place yet. */
  lemma FilledFromStart(rows: seq<seq<Entry>>, width: nat, cols: seq<seq<Entry>>, filled: seq<nat>)
    requires |cols| == width && |filled| == width
    requires forall j :: 0 <= j < width ==> |cols[j]| == |ColumnOf(rows, j)| && filled[j] == 0
    ensures FilledTo(rows, width, cols, filled, 0)
  {
    assert rows[..0] == [];
  }

  /** After the last line the vectors are exactly full. */
  lemma FilledAll(rows: seq<seq<Entry>>, width: nat, cols: seq<seq<Entry>>, filled: seq<nat>)
    requires FilledTo(rows, width, cols, filled, |rows|)
    ensures forall j :: 0 <= j < width ==> cols[j] == ColumnOf(rows, j)
  {
    assert rows[..|rows|] == rows;
    forall j | 0 <= j < width
      ensures cols[j] == ColumnOf(rows, j)
    {
      assert cols[j][..filled[j]] == cols[j];
    }
  }

  /** The words of line p go, one after the other, into the next free slot of their feature. */
  method FillLine(rows: seq<seq<Entry>>, width: nat, cols0: seq<seq<Entry>>, filled0: seq<nat>, p: nat)
    returns (cols: seq<seq<Entry>>, filled: seq<nat>)
    requires IndicesBelow(rows, width)
    requires p < |rows| && FilledTo(rows, width, cols0, filled0, p)
    ensures FilledTo(rows, width, cols, filled, p + 1)
  {
    cols, filled := cols0, filled0;
    LineStarts(rows, width, cols, filled, p);
    var k := 0;
    while k < |rows[p]|
      invariant k <= |rows[p]| && Filling(rows, width, cols, filled, p, k)
    {
      var idx := rows[p][k].index;
      assert idx < width;
      FillWord(rows, width, cols, filled, p, k);
      cols := cols[idx := cols[idx][filled[idx] := Entry(p, rows[p][k].value)]];
      filled := filled[idx := filled[idx] + 1];
      k := k + 1;
    }
    LineEnds(rows, width, cols, filled, p);
  }

  /**
   * The third pass of `readlibSVM_transpose`: every feature vector is allocated with
   * its count of entries, the counters restart at 0, and each word `j:v` of line p
   * writes (p, v) into the next free slot of feature j.  The slots fill up exactly,
   * with feature j's entries in line order.
   */
  method FillColumns(rows: seq<seq<Entry>>, width: nat) returns (cols: seq<seq<Entry>>)
    requires IndicesBelow(rows, width)
    ensures |cols| == width
    ensures forall j :: 0 <= j < width ==> cols[j] == ColumnOf(rows, j)
  {
    var counts := CountPerFeature(rows, width);
    cols := seq(width, j requires 0 <= j < width => seq(counts[j], _ => Entry(0, 0.0)));
    var filled: seq<nat> := seq(width, _ => 0);
    FilledFromStart(rows, width, cols, filled);
    var p := 0;
    while p < |rows|
      invariant p <= |rows| && FilledTo(rows, width, cols, filled, p)
    {
      cols, filled := FillLine(rows, width, cols, filled, p);
      p := p + 1;
    }
    FilledAll(rows, width, cols, filled);
  }
  // ---------------------------------------------------------------- the single-pass reader

  /** A stored word as `readlibSVM_transpose_fast` keeps it: the feature (`col`) and, for
      that feature's vector, the example's number with the value (`row`, `pt`). */
  datatype Triple = Triple(col: nat, at: Entry)

  /** The triples of example p's words, in order. */
  function RowTriples(es: seq<Entry>, p: nat): (ts: seq<Triple>)
    ensures |ts| == |es|
    decreases |es|
  {
    if |es| == 0 then []
    else RowTriples(es[..|es| - 1], p) + [Triple(es[|es| - 1].index, Entry(p, es[|es| - 1].value))]
  }

  /** The triples of every example's words, example by example. */
  function Triples(rows: seq<seq<Entry>>): seq<Triple>
    decreases |rows|
  {
    if |rows| == 0 then []
    else Triples(rows[..|rows| - 1]) + RowTriples(rows[|rows| - 1], |rows| - 1)
  }

  /** `tmpmat[j]`: the triples for feature j, in the order they were stored. */
  function Bucket(ts: seq<Triple>, j: nat): seq<Entry>
    decreases |ts|
  {
    if |ts| == 0 then []
    else Bucket(ts[..|ts| - 1], j) + (if ts[|ts| - 1].col == j then [ts[|ts| - 1].at] else [])
  }

  lemma {:induction false} BucketConcat(a: seq<Triple>, b: seq<Triple>, j: nat)
    ensures Bucket(a + b, j) == Bucket(a, j) + Bucket(b, j)
    decreases |b|
  {
    if |b| == 0 {
      assert a + b == a;
    } else {
      var n := |b| - 1;
      assert (a + b)[..|a + b| - 1] == a + b[..n];
      BucketConcat(a, b[..n], j);
    }
  }

  /** An example's triples for feature j are the entries the three-pass reader picks. */
  lemma {:induction false} BucketOfRow(es: seq<Entry>, p: nat, j: nat)
    ensures Bucket(RowTriples(es, p), j) == Picked(es, j, p)
    decreases |es|
  {
    if |es| > 0 {
      var n := |es| - 1;
      var t := Triple(es[n].index, Entry(p, es[n].value));
      BucketOfRow(es[..n], p, j);
      BucketConcat(RowTriples(es[..n], p), [t], j);
      assert Bucket([t], j) == (if t.col == j then [t.at] else []) by {
        assert [t][..0] == [];
      }
    }
  }

  /** Bucket j is feature j's vector as `readlibSVM_transpose` builds it. */
  lemma {:induction false} BucketIsColumn(rows: seq<seq<Entry>>, j: nat)
    ensures Bucket(Triples(rows), j) == ColumnOf(rows, j)
    decreases |rows|
  {
    if |rows| > 0 {
      var n := |rows| - 1;
      BucketIsColumn(rows[..n], j);
      BucketConcat(Triples(rows[..n]), RowTriples(rows[n], n), j);
      BucketOfRow(rows[n], n, j);
    }
  }

  lemma {:induction false} RowTriplesBelow(es: seq<Entry>, p: nat)
    ensures forall i :: 0 <= i < |RowTriples(es, p)| ==> RowTriples(es, p)[i].col <= MaxOf(es)
    decreases |es|
  {
    if |es| > 0 {
      RowTriplesBelow(es[..|es| - 1], p);
    }
  }

  /** Every stored feature is at most `max_col` before its increment. */
  lemma {:induction false} TriplesBelow(rows: seq<seq<Entry>>)
    ensures forall i :: 0 <= i < |Triples(rows)| ==> Triples(rows)[i].col <= MaxIndex(rows)
    decreases |rows|
  {
    if |rows| > 0 {
      var n := |rows| - 1;
      TriplesBelow(rows[..n]);
      RowTriplesBelow(rows[n], n);
      var a := Triples(rows[..n]);
      var b := RowTriples(rows[n], n);
      assert forall i :: 0 <= i < |a| ==> (a + b)[i] == a[i];
      assert forall i :: 0 <= i < |b| ==> (a + b)[|a| + i] == b[i];
    }
  }

  lemma RowTriplesStep(es: seq<Entry>, k: nat, p: nat)
    requires k < |es|
    ensures RowTriples(es[..k + 1], p) == RowTriples(es[..k], p) + [Triple(es[k].index, Entry(p, es[k].value))]
    ensures MaxOf(es[..k + 1]) == if es[k].index > MaxOf(es[..k]) then es[k].index else MaxOf(es[..k])
  {
    assert es[..k + 1][..k] == es[..k];
  }

  lemma TriplesStep(rows: seq<seq<Entry>>, p: nat)
    requires p < |rows|
    ensures Triples(rows[..p + 1]) == Triples(rows[..p]) + RowTriples(rows[p], p)
    ensures MaxIndex(rows[..p + 1]) == if MaxOf(rows[p]) > MaxIndex(rows[..p]) then MaxOf(rows[p]) else MaxIndex(rows[..p])
  {
    assert rows[..p + 1][..p] == rows[..p];
  }

  lemma BucketStep(ts: seq<Triple>, t: nat, j: nat)
    requires t < |ts|
    ensures Bucket(ts[..t + 1], j) == Bucket(ts[..t], j) + (if ts[t].col == j then [ts[t].at] else [])
  {
    assert ts[..t + 1][..t] == ts[..t];
  }

  /** The reading loop over example p's words, after k of them. */
  predicate WordsRead(rows: seq<seq<Entry>>, p: nat, k: nat, triples: seq<Triple>, maxCol: nat)
    requires p < |rows| && k <= |rows[p]|
  {
    && triples == Triples(rows[..p]) + RowTriples(rows[p][..k], p)
    && maxCol == if MaxOf(rows[p][..k]) > MaxIndex(rows[..p]) then MaxOf(rows[p][..k]) else MaxIndex(rows[..p])
  }

  /** One more word: its triple is stored and `max_col` takes its index when larger. */
  lemma WordRead(rows: seq<seq<Entry>>, p: nat, k: nat, triples: seq<Triple>, maxCol: nat)
    requires p < |rows| && k < |rows[p]| && WordsRead(rows, p, k, triples, maxCol)
    ensures WordsRead(rows, p, k + 1, triples + [Triple(rows[p][k].index, Entry(p, rows[p][k].value))],
                      if rows[p][k].index > maxCol then rows[p][k].index else maxCol)
  {
    RowTriplesStep(rows[p], k, p);
  }

  /** Bucketing the first t triples. */
  predicate Bucketed(ts: seq<Triple>, t: nat, width: nat, buckets: seq<seq<Entry>>)
    requires t <= |ts|
  {
    |buckets| == width && forall j :: 0 <= j < width ==> buckets[j] == Bucket(ts[..t], j)
  }

  lemma Bucketing(ts: seq<Triple>, t: nat, width: nat, buckets: seq<seq<Entry>>)
    requires t < |ts| && ts[t].col < width && Bucketed(ts, t, width, buckets)
    ensures Bucketed(ts, t + 1, width, buckets[ts[t].col := buckets[ts[t].col] + [ts[t].at]])
  {
    var after := buckets[ts[t].col := buckets[ts[t].col] + [ts[t].at]];
    forall j | 0 <= j < width
      ensures after[j] == Bucket(ts[..t + 1], j)
    {
      BucketStep(ts, t, j);
    }
  }

  /** The loop over one example's words. */
  method ReadLine(rows: seq<seq<Entry>>, p: nat, triples0: seq<Triple>, maxCol0: nat) returns (triples: seq<Triple>, maxCol: nat)
    requires p < |rows| && triples0 == Triples(rows[..p]) && maxCol0 == MaxIndex(rows[..p])
    ensures triples == Triples(rows[..p + 1]) && maxCol == MaxIndex(rows[..p + 1])
  {
    triples, maxCol := triples0, maxCol0;
    var es := rows[p];
    assert es[..0] == [];
    var k := 0;
    while k < |es|
      invariant k <= |es| && WordsRead(rows, p, k, triples, maxCol)
    {
      WordRead(rows, p, k, triples, maxCol);
      triples := triples + [Triple(es[k].index, Entry(p, es[k].value))];
      maxCol := if es[k].index > maxCol then es[k].index else maxCol;
      k := k + 1;
    }
    assert es[..k] == es;
    TriplesStep(rows, p);
  }

  /** The reading loop: a triple per word, example by example, the largest feature
      seen, and each example's label. */
  method ReadWords(ps: seq<Line>, stale: Entry) returns (triples: seq<Triple>, maxCol: nat, labels: seq<int>)
    ensures triples == Triples(RowsOf(ps, stale)) && maxCol == MaxIndex(RowsOf(ps, stale))
    ensures labels == LabelsOf(ps)
  {
    var rows := RowsOf(ps, stale);
    triples, maxCol, labels := [], 0, [];
    var p := 0;
    while p < |rows|
      invariant p <= |rows| && |rows| == |ps| && labels == LabelsOf(ps)[..p]
      invariant triples == Triples(rows[..p]) && maxCol == MaxIndex(rows[..p])
    {
      labels := labels + [LabelOf(ps[p])];
      assert LabelsOf(ps)[..p + 1] == LabelsOf(ps)[..p] + [LabelOf(ps[p])];
      triples, maxCol := ReadLine(rows, p, triples, maxCol);
      p := p + 1;
    }
    assert rows[..p] == rows && LabelsOf(ps)[..p] == LabelsOf(ps);
  }

  /** The bucketing loop: each triple, in order, joins the bucket of its feature. */
  method BucketAll(ts: seq<Triple>, width: nat) returns (buckets: seq<seq<Entry>>)
    requires forall i :: 0 <= i < |ts| ==> ts[i].col < width
    ensures |buckets| == width
    ensures forall j :: 0 <= j < width ==> buckets[j] == Bucket(ts, j)
  {
    buckets := seq(width, _ => []);
    assert ts[..0] == [];
    var t := 0;
    while t < |ts|
      invariant t <= |ts| && Bucketed(ts, t, width, buckets)
    {
      Bucketing(ts, t, width, buckets);
      buckets := buckets[ts[t].col := buckets[ts[t].col] + [ts[t].at]];
      t := t + 1;
    }
    assert ts[..t] == ts;
  }

  /**
   * `readlibSVM_transpose_fast`: return code 1, with nothing read, when the file
   * cannot be opened; otherwise code 0.  One pass stores a (feature, example, value)
   * triple per word, the largest feature, and the labels read as integers; the
   * triples then go, in order, into one bucket per feature 0..`max_col`, and each
   * bucket becomes a feature vector over the examples read.  Words `sscanf` cannot
   * read are not detected and store the uninitialised entry.
   */
  method ReadTransposedFast(file: Option<seq<Line>>, stale: Entry) returns (code: int, data: seq<Sparse>, labels: seq<int>)
    ensures code == (if file.None? then 1 else 0)
    ensures file.None? ==> data == [] && labels == []
    ensures file.Some? ==>
      && labels == LabelsOf(Taken(file.value))
      && data == Columns(RowsOf(Taken(file.value), stale), MaxIndex(RowsOf(Taken(file.value), stale)) + 1, |Taken(file.value)|)
  {
    if file.None? {
      return 1, [], [];
    }
    var ps := Taken(file.value);
    var rows := RowsOf(ps, stale);
    var triples, maxCol;
    triples, maxCol, labels := ReadWords(ps, stale);
    var width := maxCol + 1;
    TriplesBelow(rows);
    var buckets := BucketAll(triples, width);
    forall j | 0 <= j < width
      ensures buckets[j] == ColumnOf(rows, j)
    {
      BucketIsColumn(rows, j);
    }
    data := seq(width, j requires 0 <= j < width => Sparse(|ps|, buckets[j]));
    code := 0;
  }

  /**
   * When every word parses, the single-pass reader returns what
   * `readlibSVM_transpose` returns: the same feature vectors, the same labels.
   */
  lemma FastAgrees(file: Option<seq<Line>>, filename: string, stale: Entry)
    requires file.Some? && AllParse(Taken(file.value))
    ensures ReadTransposed(file, filename).Ok?
    ensures ReadTransposed(file, filename).value
      == (Columns(RowsOf(Taken(file.value), stale), MaxIndex(RowsOf(Taken(file.value), stale)) + 1, |Taken(file.value)|),
          LabelsOf(Taken(file.value)))
  {
    StaleUnused(Taken(file.value), stale, Entry(0, 0.0));
  }
}
