/**
 * The text form of a `SparseVector` (src/math/sparse_vector.cpp): `operator<<`,
 * `operator>>` and `operator==`.
 *
 * The writer prints `(dim) `, then the stored entries as `[index]  value`
 * separated by two blanks, then a newline.  How a double is printed (six
 * significant digits by default) is the parameter `shown`: the text of a value x
 * stands for the number `shown(x)`.
 */
module SparseText {
  import opened Results
  import opened Seqs
  import opened Text
  import opened Vectors
  import opened Streams

  /** The text of one stored entry: `[index]  value`. */
  function ShowEntry(e: Entry, shown: real -> real): seq<Item>
  {
    Chars("[") + Chars(ShowNat(e.index)) + Chars("]  ") + [Flt(shown(e.value))]
  }

  /** The stored entries, two blanks between consecutive ones. */
  function ShowEntries(es: seq<Entry>, shown: real -> real): seq<Item>
  {
    if |es| == 0 then []
    else if |es| == 1 then ShowEntry(es[0], shown)
    else ShowEntry(es[0], shown) + Chars("  ") + ShowEntries(es[1..], shown)
  }

  /** `operator<<`. */
  function ShowSparse(v: Sparse, shown: real -> real): seq<Item>
  {
    Chars("(") + Chars(ShowNat(v.dim)) + Chars(") ") + ShowEntries(v.entries, shown) + Chars("\n")
  }

  /** The entries as their printed text stands for them. */
  function Printed(es: seq<Entry>, shown: real -> real): (r: seq<Entry>)
    ensures |r| == |es|
    ensures forall k :: 0 <= k < |es| ==> r[k] == Entry(es[k].index, shown(es[k].value))
  {
    seq(|es|, k requires 0 <= k < |es| => Entry(es[k].index, shown(es[k].value)))
  }

  lemma PrintedCons(es: seq<Entry>, shown: real -> real)
    requires |es| > 0
    ensures Printed(es, shown) == [Entry(es[0].index, shown(es[0].value))] + Printed(es[1..], shown)
  {
  }

  /** The value after `]`.  A failed extraction still stores 0 (C++11) and the
      entry is kept; the loop fails on its next read. */
  function ReadValue(st: Stream, index: nat): (r: Read<Entry>)
    ensures r.value.Some? ==> r.value.value.index == index
    ensures Left(r.st) <= Left(st)
  {
    var c := ReadChar(st);
    if c.value != Some(']') then Read(None, c.st)
    else
      var w := ReadReal(c.st);
      Read(Some(Entry(index, w.value.GetOr(0.0))), w.st)
  }

  /** The index after `[`, stored into an `int` and then into a `size_t`. */
  function ReadIndex(st: Stream): (r: Read<Entry>)
    ensures Left(r.st) <= Left(st)
  {
    var i := ReadInt(st);
    if i.value.None? then Read(None, ReadChar(i.st).st)
    else ReadValue(i.st, SizeT(i.value.value))
  }

  /** One `[index] value` group; None when a mismatch throws. */
  function ReadEntry(st: Stream): (r: Read<Entry>)
    ensures r.value.Some? ==> Left(r.st) < Left(st)
    ensures Left(r.st) <= Left(st)
  {
    var o := ReadChar(st);
    if o.value != Some('[') then Read(None, o.st)
    else ReadIndex(o.st)
  }

  /** The `[index] value` loop of `operator>>`, with the entries read so far.  It
      stops when the next character is a newline (which it leaves unread); any
      other mismatch throws, which the reader catches. */
  function ReadPairs(st: Stream, dim: nat, acc: seq<Entry>): (r: (Option<Sparse>, Stream))
    ensures r.0.Some? ==> r.0.value.dim == dim && |acc| <= Nnz(r.0.value)
    ensures r.0.Some? ==> acc <= r.0.value.entries
    ensures r.0.Some? && Peek(st).value != Some(Ch('\n')) ==> |acc| < Nnz(r.0.value)
    decreases Left(st)
  {
    var p := Peek(st);
    if p.value == Some(Ch('\n')) then (Some(Sparse(dim, acc)), p.st)
    else
      var e := ReadEntry(p.st);
      if e.value.None? then (None, e.st)
      else
        var r := ReadPairs(e.st, dim, acc + [e.value.value]);
        r
  }

  /** `operator>>`: `(dim)` and then the entries.  None when a message was thrown
      and caught; the target vector is then left as it was. */
  function ReadSparse(st: Stream): (r: (Option<Sparse>, Stream))
    ensures r.0.Some? ==> ReadChar(st).value == Some('(') && Good(st)
  {
    var o := ReadChar(st);
    if o.value != Some('(') then (None, o.st)
    else ReadDim(o.st)
  }

  /** White space in front of a vector's text changes nothing. */
  lemma ReadSparseAfterBlanks(pad: string, xs: seq<Item>)
    requires IsBlank(pad)
    requires |xs| > 0 && !Blank(xs[0])
    ensures ReadSparse(Open(Chars(pad) + xs)) == ReadSparse(Open(xs))
  {
    SkipPad(pad, xs);
  }

  /** The dimension and `)`, then the entries. */
  function ReadDim(st: Stream): (r: (Option<Sparse>, Stream))
  {
    var d := ReadInt(st);
    var c := ReadChar(d.st);
    if c.value != Some(')') then (None, c.st)
    else ReadPairs(c.st, SizeT(d.value.value), [])
  }

  /** `in >> s`: the vector read, or s unchanged after a caught error. */
  function ExtractSparse(st: Stream, s: Sparse): (Sparse, Stream)
  {
    var r := ReadSparse(st);
    (r.0.GetOr(s), r.1)
  }

  /** `operator==`: same dim, same nnz, and equal values and indices position by position. */
  predicate SparseEq(a: Sparse, b: Sparse)
  {
    && a.dim == b.dim
    && Nnz(a) == Nnz(b)
    && (forall k :: 0 <= k < Nnz(a) ==> a.entries[k].value == b.entries[k].value)
    && (forall k :: 0 <= k < Nnz(a) ==> a.entries[k].index == b.entries[k].index)
  }

  /** `operator==` is equality of the modelled vectors. */
  lemma SparseEqIsEquality(a: Sparse, b: Sparse)
    ensures SparseEq(a, b) <==> a == b
  {
    if SparseEq(a, b) {
      assert forall k :: 0 <= k < Nnz(a) ==> a.entries[k] == b.entries[k];
      assert a.entries == b.entries;
    }
  }

  /** The indices and the dimension fit the `int`s the reader stores them in. */
  predicate FitsInt(v: Sparse)
  {
    v.dim <= IntMax && forall k :: 0 <= k < Nnz(v) ==> v.entries[k].index <= IntMax
  }

  lemma OneChar(c: char)
    ensures Chars([c]) == [Ch(c)]
  {
  }

  lemma ReadValueFront(n: nat, x: real, more: seq<Item>)
    requires |more| > 0
    ensures ReadValue(Open([Ch(']')] + (Chars("  ") + [Flt(x)] + more)), n) == Read(Some(Entry(n, x)), Open(more))
  {
    NoPad([Ch(']')]);
    ReadCharFront("", ']', Chars("  ") + [Flt(x)] + more);
    ReadRealFront("  ", x, more);
  }

  lemma ReadIndexFront(n: nat, x: real, more: seq<Item>)
    requires n <= IntMax && |more| > 0
    ensures ReadIndex(Open(Chars(ShowNat(n)) + ([Ch(']')] + (Chars("  ") + [Flt(x)] + more))))
            == Read(Some(Entry(n, x)), Open(more))
  {
    NoPad(Chars(ShowNat(n)));
    ReadIntegerFront("", n, [Ch(']')] + (Chars("  ") + [Flt(x)] + more));
    ReadValueFront(n, x, more);
  }

  /** One entry's text, after the blanks pad, is read back with its value as printed. */
  lemma ReadEntryFront(pad: string, e: Entry, shown: real -> real, more: seq<Item>)
    requires IsBlank(pad) && e.index <= IntMax
    requires |more| > 0
    ensures ReadEntry(Open(Chars(pad) + ShowEntry(e, shown) + more)) == Read(Some(Entry(e.index, shown(e.value))), Open(more))
  {
    var x := shown(e.value);
    var after := [Ch(']')] + (Chars("  ") + [Flt(x)] + more);
    CharsAppend("]", "  ");
    OneChar(']');
    OneChar('[');
    assert Chars(pad) + ShowEntry(e, shown) + more == Chars(pad) + [Ch('[')] + (Chars(ShowNat(e.index)) + after);
    ReadCharFront(pad, '[', Chars(ShowNat(e.index)) + after);
    ReadIndexFront(e.index, x, more);
  }

  /** While the next character is not a newline, the loop reads one entry and goes on. */
  lemma ReadPairsStep(st: Stream, dim: nat, acc: seq<Entry>)
    requires Peek(st).value.Some? && Peek(st).value.value != Ch('\n')
    requires ReadEntry(st).value.Some?
    ensures ReadPairs(st, dim, acc) == ReadPairs(ReadEntry(st).st, dim, acc + [ReadEntry(st).value.value])
  {
  }

  /** What follows the first entry's text: the remaining entries and the newline. */
  function AfterFirst(es: seq<Entry>, shown: real -> real, tail: seq<Item>): seq<Item>
    requires |es| > 0
  {
    if |es| == 1 then Chars("\n") + tail
    else Chars("  ") + ShowEntries(es[1..], shown) + Chars("\n") + tail
  }

  lemma ShowEntriesCons(pad: string, es: seq<Entry>, shown: real -> real, tail: seq<Item>)
    requires |es| > 0
    ensures Chars(pad) + ShowEntries(es, shown) + Chars("\n") + tail
            == Chars(pad) + ShowEntry(es[0], shown) + AfterFirst(es, shown, tail)
  {
    var p, h, nl := Chars(pad), ShowEntry(es[0], shown), Chars("\n");
    if |es| == 1 {
      calc {
        p + ShowEntries(es, shown) + nl + tail;
        p + h + nl + tail;
        { Assoc(p + h, nl, tail); }
        p + h + (nl + tail);
      }
    } else {
      var sep, r := Chars("  "), ShowEntries(es[1..], shown);
      var x := sep + r + nl;
      calc {
        p + ShowEntries(es, shown) + nl + tail;
        p + (h + sep + r) + nl + tail;
        { Assoc(h, sep, r); }
        p + (h + (sep + r)) + nl + tail;
        { Assoc(p, h + (sep + r), nl); Assoc(h, sep + r, nl); }
        p + (h + x) + tail;
        { Assoc(p, h + x, tail); Assoc(h, x, tail); Assoc(p, h, x + tail); }
        p + h + (x + tail);
      }
    }
  }

  /** One entry's text, after blanks, is read and the loop goes on after it. */
  lemma ReadPairsOne(pad: string, e: Entry, shown: real -> real, more: seq<Item>, dim: nat, acc: seq<Entry>)
    requires pad == " " || pad == "  "
    requires e.index <= IntMax && |more| > 0
    ensures ReadPairs(Open(Chars(pad) + ShowEntry(e, shown) + more), dim, acc)
            == ReadPairs(Open(more), dim, acc + [Entry(e.index, shown(e.value))])
  {
    var st := Open(Chars(pad) + ShowEntry(e, shown) + more);
    assert st.rest[0] == Ch(' ');
    ReadEntryFront(pad, e, shown, more);
    ReadPairsStep(st, dim, acc);
  }

  /** At the newline the loop stops with what it has read, leaving the newline. */
  lemma ReadPairsStop(tail: seq<Item>, dim: nat, acc: seq<Entry>)
    ensures ReadPairs(Open(Chars("\n") + tail), dim, acc) == (Some(Sparse(dim, acc)), Open(Chars("\n") + tail))
  {
    assert Peek(Open(Chars("\n") + tail)).value == Some(Ch('\n'));
  }

  /** The entry loop reads back the entries it was shown, up to the final newline. */
  lemma {:induction false} ReadPairsFront(pad: string, dim: nat, acc: seq<Entry>, es: seq<Entry>,
                                          shown: real -> real, tail: seq<Item>)
    requires pad == " " || pad == "  "
    requires |es| > 0 && forall k :: 0 <= k < |es| ==> es[k].index <= IntMax
    ensures ReadPairs(Open(Chars(pad) + ShowEntries(es, shown) + Chars("\n") + tail), dim, acc)
            == (Some(Sparse(dim, acc + Printed(es, shown))), Open(Chars("\n") + tail))
    decreases |es|
  {
    var e := es[0];
    var x := Entry(e.index, shown(e.value));
    var more := AfterFirst(es, shown, tail);
    calc {
      ReadPairs(Open(Chars(pad) + ShowEntries(es, shown) + Chars("\n") + tail), dim, acc);
      { ShowEntriesCons(pad, es, shown, tail); }
      ReadPairs(Open(Chars(pad) + ShowEntry(e, shown) + more), dim, acc);
      { ReadPairsOne(pad, e, shown, more, dim, acc); }
      ReadPairs(Open(more), dim, acc + [x]);
      { if |es| == 1 {
          assert more == Chars("\n") + tail;
          ReadPairsStop(tail, dim, acc + [x]);
          assert Printed(es[1..], shown) == [];
          assert acc + [x] + [] == acc + [x];
        }
        else { ReadPairsFront("  ", dim, acc + [x], es[1..], shown, tail); } }
      (Some(Sparse(dim, acc + [x] + Printed(es[1..], shown))), Open(Chars("\n") + tail));
      { PrintedCons(es, shown); Assoc(acc, [x], Printed(es[1..], shown)); }
      (Some(Sparse(dim, acc + Printed(es, shown))), Open(Chars("\n") + tail));
    }
  }

  /** For nnz >= 1, reading what `operator<<` wrote gives back dim, nnz and the
      indices, and the values as printed; the newline is left unread. */
  lemma ReadShowSparse(v: Sparse, shown: real -> real, tail: seq<Item>)
    requires Nnz(v) > 0 && FitsInt(v)
    ensures ReadSparse(Open(ShowSparse(v, shown) + tail))
            == (Some(Sparse(v.dim, Printed(v.entries, shown))), Open(Chars("\n") + tail))
  {
    var body := ShowEntries(v.entries, shown) + Chars("\n") + tail;
    calc {
      ReadSparse(Open(ShowSparse(v, shown) + tail));
      { ShowSparseSplit(v.dim, ShowEntries(v.entries, shown), tail); }
      ReadSparse(Open(Chars("(") + Chars(ShowNat(v.dim)) + Chars(") ") + body));
      { ReadHeaderFront(v.dim, body, Chars("(") + Chars(ShowNat(v.dim)) + Chars(") ") + body); }
      ReadPairs(Open(Chars(" ") + body), v.dim, []);
      { Assoc(Chars(" "), ShowEntries(v.entries, shown) + Chars("\n"), tail);
        Assoc(Chars(" "), ShowEntries(v.entries, shown), Chars("\n")); }
      ReadPairs(Open(Chars(" ") + ShowEntries(v.entries, shown) + Chars("\n") + tail), v.dim, []);
      { ReadPairsFront(" ", v.dim, [], v.entries, shown, tail); }
      (Some(Sparse(v.dim, [] + Printed(v.entries, shown))), Open(Chars("\n") + tail));
      { assert [] + Printed(v.entries, shown) == Printed(v.entries, shown); }
      (Some(Sparse(v.dim, Printed(v.entries, shown))), Open(Chars("\n") + tail));
    }
  }

  /** The written text followed by more text, regrouped as header and body. */
  lemma ShowSparseSplit(d: nat, entries: seq<Item>, tail: seq<Item>)
    ensures Chars("(") + Chars(ShowNat(d)) + Chars(") ") + entries + Chars("\n") + tail
            == Chars("(") + Chars(ShowNat(d)) + Chars(") ") + (entries + Chars("\n") + tail)
  {
    var h := Chars("(") + Chars(ShowNat(d)) + Chars(") ");
    calc {
      h + entries + Chars("\n") + tail;
      { Assoc(h, entries, Chars("\n")); }
      h + (entries + Chars("\n")) + tail;
      { Assoc(h, entries + Chars("\n"), tail); }
      h + (entries + Chars("\n") + tail);
    }
  }

  /** `(dim) ` is read, and the entry loop starts at the blank after it. */
  lemma ReadHeaderFront(d: nat, body: seq<Item>, text: seq<Item>)
    requires d <= IntMax
    requires text == Chars("(") + Chars(ShowNat(d)) + Chars(") ") + body
    ensures ReadSparse(Open(text)) == ReadPairs(Open(Chars(" ") + body), d, [])
  {
    var digits := Chars(ShowNat(d));
    var rest := Chars(" ") + body;
    OneChar('(');
    OneChar(')');
    CharsAppend(")", " ");
    assert text == [Ch('(')] + (digits + ([Ch(')')] + rest));
    NoPad([Ch('(')]);
    ReadCharFront("", '(', digits + ([Ch(')')] + rest));
    ReadDimFront(d, rest);
  }

  lemma ReadDimFront(d: nat, rest: seq<Item>)
    requires d <= IntMax
    ensures ReadDim(Open(Chars(ShowNat(d)) + ([Ch(')')] + rest))) == ReadPairs(Open(rest), d, [])
  {
    var text := Chars(ShowNat(d)) + ([Ch(')')] + rest);
    assert ReadInt(Open(text)) == Read(Some(d as int), Open([Ch(')')] + rest)) by {
      NoPad(Chars(ShowNat(d)));
      ReadIntegerFront("", d, [Ch(')')] + rest);
    }
    assert ReadChar(Open([Ch(')')] + rest)) == Read(Some(')'), Open(rest)) by {
      NoPad([Ch(')')]);
      ReadCharFront("", ')', rest);
    }
    ReadDimStages(Open(text), Open([Ch(')')] + rest), d, Open(rest));
  }

  /** The dimension, then `)`, when both reads succeed. */
  lemma ReadDimStages(st: Stream, s1: Stream, d: nat, s2: Stream)
    requires d <= IntMax
    requires ReadInt(st) == Read(Some(d as int), s1) && ReadChar(s1) == Read(Some(')'), s2)
    ensures ReadDim(st) == ReadPairs(s2, d, [])
  {
  }

  /** A vector without entries does not survive: after `(d) ` the reader sees a
      blank, not the newline, so it looks for an entry, and it never returns the
      empty vector.  When nothing follows, the read fails. */
  lemma EmptyDoesNotRoundTrip(d: nat, shown: real -> real, tail: seq<Item>)
    requires d <= IntMax
    ensures ReadSparse(Open(ShowSparse(Sparse(d, []), shown) + tail)).0 != Some(Sparse(d, []))
    ensures tail == [] ==> ReadSparse(Open(ShowSparse(Sparse(d, []), shown) + tail)).0 == None
  {
    var body := [] + Chars("\n") + tail;
    var rest := Chars(" ") + body;
    calc {
      ReadSparse(Open(ShowSparse(Sparse(d, []), shown) + tail));
      { ShowSparseSplit(d, [], tail); }
      ReadSparse(Open(Chars("(") + Chars(ShowNat(d)) + Chars(") ") + body));
      { ReadHeaderFront(d, body, Chars("(") + Chars(ShowNat(d)) + Chars(") ") + body); }
      ReadPairs(Open(rest), d, []);
    }
    assert Peek(Open(rest)).value == Some(Ch(' '));
    if tail == [] {
      assert Run(rest, Blanks) == |rest|;
    }
  }
}
