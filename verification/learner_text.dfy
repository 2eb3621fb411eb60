/**
 * The text form of the weak learners: `dump`/`load` of the linear learner and the
 * stump (src/weak_learners/LinearWeakLearner.cpp, DecisionStumpWeakLearner.cpp) and
 * `operator<<`/`operator>>` of the weighted pair (WeightedWeakLearner.cpp).
 *
 * Every field is written as a line `label value`; a loader checks each label with
 * `expect_keyword` and extracts the value after it.  A message thrown while loading
 * is caught and ends the program with `exit(1)`; an extraction that fails throws
 * nothing, stores 0 and leaves the stream failed, so the next `expect_keyword` ends
 * the program through `std::terminate`.
 */
module LearnerText {
  import opened Results
  import opened Seqs
  import opened Text
  import opened Vectors
  import opened Streams
  import opened SparseText
  import opened WeakLearners

  /** `os << "kw " << value << std::endl`: a labelled field on a line of its own. */
  function Line(kw: string, value: seq<Item>): seq<Item>
  {
    Chars(kw) + (Chars(" ") + (value + Chars("\n")))
  }

  /** A double as printed: one floating item standing for `shown(x)`. */
  function ShowReal(x: real, shown: real -> real): seq<Item>
  {
    [Flt(shown(x))]
  }

  /** A `bool` without `boolalpha` prints as the integer 1 or 0. */
  function ShowBool(b: bool): seq<Item>
  {
    Chars(ShowNat(if b then 1 else 0))
  }

  /** `dump`: wt, then the learner's own fields. */
  function DumpLearner(l: Learner, shown: real -> real): seq<Item>
  {
    match l
    case Linear(wt, edge, _) =>
      ShowSparse(wt, shown) + Line("Edge:", ShowReal(edge, shown))
    case Stump(wt, edge, _, thresh, direction, index) =>
      ShowSparse(wt, shown)
        + (Line("edge:", ShowReal(edge, shown))
        + (Line("thresh:", ShowReal(thresh, shown))
        + (Line("dir:", ShowBool(direction))
        + Line("index:", Chars(ShowNat(index))))))
  }

  /** `operator<<` of a weighted learner: the learner, then its weight. */
  function DumpWeighted(w: Weighted, shown: real -> real): seq<Item>
  {
    DumpLearner(w.learner, shown) + Line("weight:", ShowReal(w.weight, shown))
  }

  // ---------------------------------------------------------------- loading

  /** `catch (std::string s) { ...; exit(1); }` around a loader. */
  function ExitOnThrow<T>(r: Result<T>): (q: Result<T>)
    ensures q.Ok? <==> r.Ok?
    ensures q.Ok? ==> q == r
    ensures q.Err? ==> q.error == (if r.error.Thrown? then ExitFailure else r.error)
  {
    if r.Err? && r.error.Thrown? then Err(ExitFailure) else r
  }

  /** A failure a caught loader can still report: the program ends either way. */
  predicate Fatal(e: Error)
  {
    e == ExitFailure || e == Terminate
  }

  /** `expect_keyword(in, kw); in >> x` into a double. */
  function RealField(st: Stream, kw: string): (r: Result<(real, Stream)>)
    ensures r.Ok? <==> ExpectKeyword(st, kw).Ok?
    ensures r.Err? ==>
              r.error == Terminate || (ReadWord(st).value.Some? && r.error == KeywordMismatch(kw, ReadWord(st).value.value))
  {
    var s :- ExpectKeyword(st, kw);
    var x := ReadReal(s);
    Ok((x.value.GetOr(0.0), x.st))
  }

  /** `expect_keyword(in, kw); in >> b` into a `bool`. */
  function BoolField(st: Stream, kw: string): (r: Result<(bool, Stream)>)
    ensures r.Ok? <==> ExpectKeyword(st, kw).Ok?
    ensures r.Err? ==>
              r.error == Terminate || (ReadWord(st).value.Some? && r.error == KeywordMismatch(kw, ReadWord(st).value.value))
  {
    var s :- ExpectKeyword(st, kw);
    var x := ReadBool(s);
    Ok((x.value.GetOr(false), x.st))
  }

  /** `expect_keyword(in, kw); in >> n` into a `size_t`. */
  function SizeField(st: Stream, kw: string): (r: Result<(nat, Stream)>)
    ensures r.Ok? <==> ExpectKeyword(st, kw).Ok?
    ensures r.Err? ==>
              r.error == Terminate || (ReadWord(st).value.Some? && r.error == KeywordMismatch(kw, ReadWord(st).value.value))
    ensures r.Ok? ==> r.value.0 < SizeModulus
  {
    var s :- ExpectKeyword(st, kw);
    var x := ReadSize(s);
    Ok((x.value.GetOr(0), x.st))
  }

  /** The body of `load`: wt (a caught vector error leaves the old wt), then the
      labelled fields of the learner's kind.  The prediction is not part of the text
      and stays as it was. */
  function LoadFields(target: Learner, st: Stream): (r: Result<(Learner, Stream)>)
    ensures r.Ok? ==> r.value.0.Linear? == target.Linear? && r.value.0.prediction == target.prediction
    ensures r.Err? ==> r.error.Thrown? || r.error == Terminate
  {
    var v := ExtractSparse(st, target.wt);
    match target
    case Linear(_, _, prediction) =>
      var e :- RealField(v.1, "Edge:");
      Ok((Linear(v.0, e.0, prediction), e.1))
    case Stump(_, _, prediction, _, _, _) =>
      var e :- RealField(v.1, "edge:");
      var t :- RealField(e.1, "thresh:");
      var d :- BoolField(t.1, "dir:");
      var i :- SizeField(d.1, "index:");
      Ok((Stump(v.0, e.0, prediction, t.0, d.0, i.0), i.1))
  }

  /** `load` (and `operator>>` of a learner): the learner keeps its kind and its
      prediction; every failure it reports ends the program. */
  function LoadLearner(target: Learner, st: Stream): (r: Result<(Learner, Stream)>)
    ensures r.Ok? ==> r.value.0.Linear? == target.Linear? && r.value.0.prediction == target.prediction
    ensures r.Err? ==> Fatal(r.error)
  {
    ExitOnThrow(LoadFields(target, st))
  }

  /** `operator>>` of a weighted learner: the learner in place, then `weight:` and the
      weight. */
  function ReadWeighted(target: Weighted, st: Stream): (r: Result<(Weighted, Stream)>)
    ensures r.Ok? ==> r.value.0.learner.Linear? == target.learner.Linear?
    ensures r.Err? ==> Fatal(r.error)
  {
    ExitOnThrow(
      var l :- LoadLearner(target.learner, st);
      var w :- RealField(l.1, "weight:");
      Ok((Weighted(l.0, w.0), w.1)))
  }

  // ---------------------------------------------------------------- reading back what was written

  /** The labels are single words. */
  lemma LabelsAreWords()
    ensures IsWord("Edge:") && IsWord("edge:") && IsWord("thresh:")
    ensures IsWord("dir:") && IsWord("index:") && IsWord("weight:")
  {
  }

  /** The text around a labelled field, regrouped as the loaders meet it. */
  lemma FieldText(kw: string, value: seq<Item>, rest: seq<Item>)
    ensures Chars("\n") + (Line(kw, value) + rest)
            == Chars("\n") + Chars(kw) + (Chars(" ") + value + (Chars("\n") + rest))
  {
    var a, b, c := Chars(" "), value, Chars("\n");
    calc {
      Chars("\n") + (Line(kw, value) + rest);
      Chars("\n") + (Chars(kw) + (a + (b + c)) + rest);
      { Assoc(Chars(kw), a + (b + c), rest); }
      Chars("\n") + (Chars(kw) + (a + (b + c) + rest));
      { Assoc(Chars("\n"), Chars(kw), a + (b + c) + rest); }
      Chars("\n") + Chars(kw) + (a + (b + c) + rest);
      { Assoc(a, b + c, rest); Assoc(b, c, rest); Assoc(a, b, c + rest); }
      Chars("\n") + Chars(kw) + (a + b + (c + rest));
    }
  }

  /** A written real field is read back as printed, up to its newline. */
  lemma RealFieldFront(kw: string, x: real, rest: seq<Item>)
    requires IsWord(kw)
    ensures RealField(Open(Chars("\n") + (Line(kw, [Flt(x)]) + rest)), kw)
            == Ok((x, Open(Chars("\n") + rest)))
  {
    var tail := Chars(" ") + [Flt(x)] + (Chars("\n") + rest);
    FieldText(kw, [Flt(x)], rest);
    ExpectKeywordFront("\n", kw, tail);
    ReadRealFront(" ", x, Chars("\n") + rest);
  }

  /** A decimal field after its label: the integer and the stream at the newline. */
  lemma NumberAfterLabel(kw: string, n: nat, rest: seq<Item>)
    requires IsWord(kw)
    ensures var tail := Chars(" ") + Chars(ShowNat(n)) + (Chars("\n") + rest);
      && ExpectKeyword(Open(Chars("\n") + (Line(kw, Chars(ShowNat(n))) + rest)), kw) == Ok(Open(tail))
      && ReadInteger(Open(tail)) == Read(Some(n), Open(Chars("\n") + rest))
  {
    var tail := Chars(" ") + Chars(ShowNat(n)) + (Chars("\n") + rest);
    FieldText(kw, Chars(ShowNat(n)), rest);
    ExpectKeywordFront("\n", kw, tail);
    ReadIntegerFront(" ", n, Chars("\n") + rest);
  }

  lemma BoolFieldFront(kw: string, b: bool, rest: seq<Item>)
    requires IsWord(kw)
    ensures BoolField(Open(Chars("\n") + (Line(kw, ShowBool(b)) + rest)), kw)
            == Ok((b, Open(Chars("\n") + rest)))
  {
    var n := if b then 1 else 0;
    var st := Open(Chars("\n") + (Line(kw, ShowBool(b)) + rest));
    assert ShowBool(b) == Chars(ShowNat(n));
    NumberAfterLabel(kw, n, rest);
    BoolFieldStages(st, kw, Open(Chars(" ") + Chars(ShowNat(n)) + (Chars("\n") + rest)), b, Open(Chars("\n") + rest));
  }

  /** The label, then the flag written as 0 or 1. */
  lemma BoolFieldStages(st: Stream, kw: string, s: Stream, b: bool, s': Stream)
    requires ExpectKeyword(st, kw) == Ok(s)
    requires ReadInteger(s) == Read(Some(if b then 1 else 0), s')
    ensures BoolField(st, kw) == Ok((b, s'))
  {
  }

  lemma SizeFieldFront(kw: string, n: nat, rest: seq<Item>)
    requires IsWord(kw) && n < SizeModulus
    ensures SizeField(Open(Chars("\n") + (Line(kw, Chars(ShowNat(n))) + rest)), kw)
            == Ok((n, Open(Chars("\n") + rest)))
  {
    var st := Open(Chars("\n") + (Line(kw, Chars(ShowNat(n))) + rest));
    NumberAfterLabel(kw, n, rest);
    SizeFieldStages(st, kw, Open(Chars(" ") + Chars(ShowNat(n)) + (Chars("\n") + rest)), n, Open(Chars("\n") + rest));
  }

  /** The label, then a count below 2^64 read back as itself. */
  lemma SizeFieldStages(st: Stream, kw: string, s: Stream, n: nat, s': Stream)
    requires n < SizeModulus
    requires ExpectKeyword(st, kw) == Ok(s)
    requires ReadInteger(s) == Read(Some(n), s')
    ensures SizeField(st, kw) == Ok((n, s'))
  {
    assert SizeT(n) == n;
  }

  /** A learner the text can carry: its wt has at least one entry (an empty vector does
      not survive the vector reader), its indices fit an `int`, and a stump's index fits
      a `size_t`. */
  predicate Dumpable(l: Learner)
  {
    Nnz(l.wt) > 0 && FitsInt(l.wt) && (l.Stump? ==> l.index < SizeModulus)
  }

  /** What loading the dump of l into a target of the same kind yields: wt's values
      and every real as printed, the rest exactly, and the target's prediction. */
  function Reloaded(l: Learner, target: Learner, shown: real -> real): (r: Learner)
    ensures r.Linear? == l.Linear? && r.prediction == target.prediction
    ensures r.wt.dim == l.wt.dim && Nnz(r.wt) == Nnz(l.wt)
    ensures forall k :: 0 <= k < Nnz(l.wt) ==> r.wt.entries[k].index == l.wt.entries[k].index
    ensures r.Stump? ==> r.direction == l.direction && r.index == l.index
  {
    var wt := Sparse(l.wt.dim, Printed(l.wt.entries, shown));
    match l
    case Linear(_, edge, _) => Linear(wt, shown(edge), target.prediction)
    case Stump(_, edge, _, thresh, direction, index) =>
      Stump(wt, shown(edge), target.prediction, shown(thresh), direction, index)
  }

  /** The wt at the front of a dump is read back, leaving the fields. */
  lemma LoadWt(l: Learner, fields: seq<Item>, tail: seq<Item>, shown: real -> real, target: Sparse)
    requires Nnz(l.wt) > 0 && FitsInt(l.wt)
    ensures ExtractSparse(Open(ShowSparse(l.wt, shown) + fields + tail), target)
            == (Sparse(l.wt.dim, Printed(l.wt.entries, shown)), Open(Chars("\n") + (fields + tail)))
  {
    Assoc(ShowSparse(l.wt, shown), fields, tail);
    ReadShowSparse(l.wt, shown, fields + tail);
  }

  /** The stump's four fields are read back in order. */
  lemma LoadStumpFields(l: Learner, target: Learner, shown: real -> real, tail: seq<Item>)
    requires l.Stump? && target.Stump? && Dumpable(l)
    ensures LoadFields(target, Open(DumpLearner(l, shown) + tail)) == Ok((Reloaded(l, target, shown), Open(Chars("\n") + tail)))
  {
    LabelsAreWords();
    var thresh := Line("thresh:", ShowReal(l.thresh, shown));
    var dir := Line("dir:", ShowBool(l.direction));
    var index := Line("index:", Chars(ShowNat(l.index)));
    var edge := Line("edge:", ShowReal(l.edge, shown));
    var fields := edge + (thresh + (dir + index));
    assert DumpLearner(l, shown) == ShowSparse(l.wt, shown) + fields;
    LoadWt(l, fields, tail, shown, target.wt);
    Assoc(edge, thresh + (dir + index), tail);
    RealFieldFront("edge:", shown(l.edge), thresh + (dir + index) + tail);
    Assoc(thresh, dir + index, tail);
    RealFieldFront("thresh:", shown(l.thresh), dir + index + tail);
    Assoc(dir, index, tail);
    BoolFieldFront("dir:", l.direction, index + tail);
    SizeFieldFront("index:", l.index, tail);
  }

  /** The linear learner's field is read back. */
  lemma LoadLinearFields(l: Learner, target: Learner, shown: real -> real, tail: seq<Item>)
    requires l.Linear? && target.Linear? && Dumpable(l)
    ensures LoadFields(target, Open(DumpLearner(l, shown) + tail)) == Ok((Reloaded(l, target, shown), Open(Chars("\n") + tail)))
  {
    LabelsAreWords();
    var edge := Line("Edge:", ShowReal(l.edge, shown));
    var wt := Sparse(l.wt.dim, Printed(l.wt.entries, shown));
    assert DumpLearner(l, shown) == ShowSparse(l.wt, shown) + edge;
    var v := ExtractSparse(Open(DumpLearner(l, shown) + tail), target.wt);
    LoadWt(l, edge, tail, shown, target.wt);
    assert v == (wt, Open(Chars("\n") + (edge + tail)));
    RealFieldFront("Edge:", shown(l.edge), tail);
    assert RealField(v.1, "Edge:") == Ok((shown(l.edge), Open(Chars("\n") + tail)));
  }

  /** Loading what `dump` wrote into a learner of the same kind gives back wt's
      dimension and indices, direction and index exactly, every real as printed, and
      keeps the target's prediction; the final newline is left unread. */
  lemma LoadDump(l: Learner, target: Learner, shown: real -> real, tail: seq<Item>)
    requires l.Linear? == target.Linear? && Dumpable(l)
    ensures LoadLearner(target, Open(DumpLearner(l, shown) + tail)) == Ok((Reloaded(l, target, shown), Open(Chars("\n") + tail)))
  {
    if l.Linear? {
      LoadLinearFields(l, target, shown, tail);
    } else {
      LoadStumpFields(l, target, shown, tail);
    }
  }

  /** A written label met where another one is expected throws the mismatch message. */
  lemma OtherLabelThrows(kw: string, other: string, value: seq<Item>, rest: seq<Item>)
    requires IsWord(kw) && kw != other
    ensures ExpectKeyword(Open(Chars("\n") + (Line(kw, value) + rest)), other)
            == Err(KeywordMismatch(other, Chars(kw)))
    ensures KeywordMismatch(other, Chars(kw))
            == Thrown("Expected keyword '" + other + "' but got '" + kw + "'")
  {
    WordTextOfChars(kw);
    FieldText(kw, value, rest);
    ReadWordFront("\n", Chars(kw), Chars(" ") + value + (Chars("\n") + rest));
    CharsInjective(kw, other);
  }

  /** The dump of one kind read as the other kind: the vector is read, then the label
      check fails (`Edge:` against `edge:`), and the program exits. */
  lemma LoadOtherKindExits(l: Learner, target: Learner, shown: real -> real, tail: seq<Item>)
    requires l.Linear? != target.Linear? && Dumpable(l)
    ensures LoadLearner(target, Open(DumpLearner(l, shown) + tail)) == Err(ExitFailure)
  {
    LabelsAreWords();
    var edge := ShowReal(l.edge, shown);
    if l.Linear? {
      LoadWt(l, Line("Edge:", edge), tail, shown, target.wt);
      OtherLabelThrows("Edge:", "edge:", edge, tail);
    } else {
      var more := Line("thresh:", ShowReal(l.thresh, shown))
        + (Line("dir:", ShowBool(l.direction)) + Line("index:", Chars(ShowNat(l.index))));
      var fields := Line("edge:", edge) + more;
      assert DumpLearner(l, shown) == ShowSparse(l.wt, shown) + fields;
      LoadWt(l, fields, tail, shown, target.wt);
      Assoc(Line("edge:", edge), more, tail);
      OtherLabelThrows("edge:", "Edge:", edge, more + tail);
    }
  }

  /** A weighted learner's text, after the newline ending the previous line, read
      into a target of the other kind ends the program. */
  lemma ReadOtherKindExits(m: Weighted, target: Weighted, shown: real -> real, more: seq<Item>)
    requires m.learner.Linear? != target.learner.Linear? && Dumpable(m.learner)
    ensures ReadWeighted(target, Open(Chars("\n") + (DumpWeighted(m, shown) + more))) == Err(ExitFailure)
  {
    var weight := Line("weight:", ShowReal(m.weight, shown));
    DumpWeightedStart(m, shown, more);
    ReadWeightedAfterBlanks(target, "\n", DumpWeighted(m, shown) + more);
    assert LoadLearner(target.learner, Open(DumpWeighted(m, shown) + more)) == Err(ExitFailure) by {
      Assoc(DumpLearner(m.learner, shown), weight, more);
      LoadOtherKindExits(m.learner, target.learner, shown, weight + more);
    }
  }

  /** White space in front of a weighted learner's text changes nothing. */
  lemma ReadWeightedAfterBlanks(target: Weighted, pad: string, xs: seq<Item>)
    requires IsBlank(pad)
    requires |xs| > 0 && !Blank(xs[0])
    ensures ReadWeighted(target, Open(Chars(pad) + xs)) == ReadWeighted(target, Open(xs))
  {
    var s1, s2 := Open(Chars(pad) + xs), Open(xs);
    assert ExtractSparse(s1, target.learner.wt) == ExtractSparse(s2, target.learner.wt) by {
      ReadSparseAfterBlanks(pad, xs);
    }
    ReadWeightedFromSparse(target, s1, s2);
  }

  /** The weighted reader sees its stream only through the vector read first. */
  lemma ReadWeightedFromSparse(target: Weighted, s1: Stream, s2: Stream)
    requires ExtractSparse(s1, target.learner.wt) == ExtractSparse(s2, target.learner.wt)
    ensures ReadWeighted(target, s1) == ReadWeighted(target, s2)
  {
    LoadFieldsFromSparse(target.learner, s1, s2);
    assert LoadLearner(target.learner, s1) == LoadLearner(target.learner, s2);
  }

  /** The loader sees its stream only through the vector read first. */
  lemma LoadFieldsFromSparse(target: Learner, s1: Stream, s2: Stream)
    requires ExtractSparse(s1, target.wt) == ExtractSparse(s2, target.wt)
    ensures LoadFields(target, s1) == LoadFields(target, s2)
  {
  }

  /** The text of a weighted learner starts with the `(` of its vector. */
  lemma DumpWeightedStart(w: Weighted, shown: real -> real, tail: seq<Item>)
    ensures |DumpWeighted(w, shown) + tail| > 0 && (DumpWeighted(w, shown) + tail)[0] == Ch('(')
  {
  }

  /** Reading back a written weighted learner, into a target of the same kind. */
  lemma ReadDumpWeighted(w: Weighted, target: Weighted, shown: real -> real, tail: seq<Item>)
    requires w.learner.Linear? == target.learner.Linear? && Dumpable(w.learner)
    ensures ReadWeighted(target, Open(DumpWeighted(w, shown) + tail))
            == Ok((Weighted(Reloaded(w.learner, target.learner, shown), shown(w.weight)), Open(Chars("\n") + tail)))
  {
    LabelsAreWords();
    var weight := Line("weight:", ShowReal(w.weight, shown));
    Assoc(DumpLearner(w.learner, shown), weight, tail);
    LoadDump(w.learner, target.learner, shown, weight + tail);
    RealFieldFront("weight:", shown(w.weight), tail);
  }
}
