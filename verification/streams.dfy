/**
 * Formatted extraction from a `std::istream` and the token helpers of
 * src/parse.cpp.
 *
 * A stream is the text still to be read together with its `eof` and `fail`
 * flags.  The text is a sequence of items: a character, or a floating value as
 * `operator<<` printed it.  Printing a double is abstracted: the printed text is
 * one `Flt` item holding the value the digits denote, and extracting a double
 * reads that item back.  Integers, keywords and punctuation are characters.
 *
 * Every extraction starts with the `sentry`: on a stream that is not good it
 * only sets `fail`; otherwise it skips white space and sets `eof` and `fail`
 * when nothing else is left.
 */
module Streams {
  import opened Results
  import opened Text
  import opened Seqs

  datatype Item = Ch(c: char) | Flt(x: real)

  datatype Stream = Stream(rest: seq<Item>, eof: bool, fail: bool)

  /** One extraction: the value unless it failed, and the stream after it. */
  datatype Read<T> = Read(value: Option<T>, st: Stream)

  /** A fresh stream over the given text. */
  function Open(text: seq<Item>): Stream
  {
    Stream(text, false, false)
  }

  function Chars(s: string): (r: seq<Item>)
    ensures |r| == |s|
    ensures forall k :: 0 <= k < |s| ==> r[k] == Ch(s[k])
  {
    seq(|s|, k requires 0 <= k < |s| => Ch(s[k]))
  }

  lemma CharsAppend(a: string, b: string)
    ensures Chars(a + b) == Chars(a) + Chars(b)
  {
    assert forall k :: 0 <= k < |a + b| ==> Chars(a + b)[k] == (Chars(a) + Chars(b))[k];
  }

  predicate Good(st: Stream)
  {
    !st.eof && !st.fail
  }

  predicate Blank(it: Item)
  {
    it.Ch? && IsSpace(it.c)
  }

  predicate DigitItem(it: Item)
  {
    it.Ch? && IsDigit(it.c)
  }

  /** The three kinds of run the scanners look for. */
  datatype Class = Blanks | NonBlanks | Digits

  predicate In(cls: Class, it: Item)
  {
    match cls
    case Blanks => Blank(it)
    case NonBlanks => !Blank(it)
    case Digits => DigitItem(it)
  }

  /** How much is left to extract: the text, plus one while `eof` is not set.
      No extraction increases it. */
  function Left(st: Stream): nat
  {
    |st.rest| + if st.eof then 0 else 1
  }

  /** The length of the longest prefix of xs whose items are all of class cls. */
  function Run(xs: seq<Item>, cls: Class): (n: nat)
    ensures n <= |xs|
    ensures forall k :: 0 <= k < n ==> In(cls, xs[k])
    ensures n < |xs| ==> !In(cls, xs[n])
  {
    if |xs| == 0 || !In(cls, xs[0]) then 0 else 1 + Run(xs[1..], cls)
  }

  /** A run ends where the first item outside its class begins. */
  lemma {:induction false} RunOfPrefix(a: seq<Item>, b: seq<Item>, cls: Class)
    requires forall k :: 0 <= k < |a| ==> In(cls, a[k])
    requires |b| == 0 || !In(cls, b[0])
    ensures Run(a + b, cls) == |a|
    decreases |a|
  {
    if |a| > 0 {
      assert (a + b)[1..] == a[1..] + b;
      RunOfPrefix(a[1..], b, cls);
    } else {
      assert a + b == b;
    }
  }

  /** The `sentry`: fails on a stream that is not good, else skips white space. */
  function Skip(st: Stream): (r: Stream)
    ensures !Good(st) ==> r.fail
    ensures !r.fail ==> Good(r) && |r.rest| > 0 && !Blank(r.rest[0])
    ensures Left(r) <= Left(st)
  {
    if !Good(st) then st.(fail := true)
    else
      var n := Run(st.rest, Blanks);
      if n == |st.rest| then Stream([], true, true) else st.(rest := st.rest[n..])
  }

  /** White space in front of text that does not start with white space is skipped. */
  lemma SkipBlanks(pad: string, xs: seq<Item>)
    requires IsBlank(pad)
    requires |xs| > 0 && !Blank(xs[0])
    ensures Skip(Open(Chars(pad) + xs)) == Open(xs)
  {
    RunOfPrefix(Chars(pad), xs, Blanks);
    assert (Chars(pad) + xs)[|pad|..] == xs;
  }

  /** The `sentry` ends at the same place whether or not more white space is in front. */
  lemma SkipPad(pad: string, xs: seq<Item>)
    requires IsBlank(pad)
    requires |xs| > 0 && !Blank(xs[0])
    ensures Skip(Open(Chars(pad) + xs)) == Skip(Open(xs))
  {
    SkipBlanks(pad, xs);
    NoPad(xs);
    SkipBlanks("", xs);
  }

  /** `in >> s` into a `std::string`: the next run of non-blank items.  Reaching the
      end of the text while reading sets `eof`. */
  function ReadWord(st: Stream): (r: Read<seq<Item>>)
    ensures r.value.None? <==> r.st.fail
    ensures r.value.Some? ==> Good(st) && |r.value.value| > 0
    ensures r.value.Some? ==> forall k :: 0 <= k < |r.value.value| ==> !Blank(r.value.value[k])
    ensures Good(st) ==> Left(r.st) < Left(st)
    ensures !Good(st) ==> r.st == st.(fail := true)
  {
    var s := Skip(st);
    if s.fail then Read(None, s)
    else
      var n := Run(s.rest, NonBlanks);
      Read(Some(s.rest[..n]), s.(rest := s.rest[n..], eof := n == |s.rest|))
  }

  /** A word with white space in front and white space (or nothing) after it is read whole. */
  lemma ReadWordFront(pad: string, w: seq<Item>, tail: seq<Item>)
    requires IsBlank(pad)
    requires |w| > 0 && forall k :: 0 <= k < |w| ==> !Blank(w[k])
    requires |tail| == 0 || Blank(tail[0])
    ensures ReadWord(Open(Chars(pad) + w + tail)) == Read(Some(w), Stream(tail, |tail| == 0, false))
  {
    assert Chars(pad) + w + tail == Chars(pad) + (w + tail);
    SkipBlanks(pad, w + tail);
    RunOfPrefix(w, tail, NonBlanks);
    assert (w + tail)[..|w|] == w;
    assert (w + tail)[|w|..] == tail;
  }

  /** `in >> c` into a `char`: the next non-blank character.  A floating item is
      not split into characters, so extracting a character there fails. */
  function ReadChar(st: Stream): (r: Read<char>)
    ensures r.value.None? <==> r.st.fail
    ensures r.value.Some? ==> Good(st) && !IsSpace(r.value.value)
    ensures r.value.Some? ==> Left(r.st) < Left(st)
    ensures Left(r.st) <= Left(st)
  {
    var s := Skip(st);
    if s.fail then Read(None, s)
    else if s.rest[0].Flt? then Read(None, s.(fail := true))
    else Read(Some(s.rest[0].c), s.(rest := s.rest[1..]))
  }

  lemma ReadCharFront(pad: string, c: char, tail: seq<Item>)
    requires IsBlank(pad) && !IsSpace(c)
    ensures ReadChar(Open(Chars(pad) + [Ch(c)] + tail)) == Read(Some(c), Open(tail))
  {
    assert Chars(pad) + [Ch(c)] + tail == Chars(pad) + ([Ch(c)] + tail);
    SkipBlanks(pad, [Ch(c)] + tail);
    assert ([Ch(c)] + tail)[1..] == tail;
  }

  /** The number the digit items denote. */
  function DigitsValue(ds: seq<Item>): nat
    requires forall k :: 0 <= k < |ds| ==> DigitItem(ds[k])
  {
    if |ds| == 0 then 0
    else
      assert DigitItem(ds[|ds| - 1]);
      10 * DigitsValue(ds[..|ds| - 1]) + DigitValue(ds[|ds| - 1].c)
  }

  lemma {:induction false} DigitsValueOfChars(s: string)
    requires forall k :: 0 <= k < |s| ==> IsDigit(s[k])
    ensures forall k :: 0 <= k < |s| ==> DigitItem(Chars(s)[k])
    ensures DigitsValue(Chars(s)) == ReadNat(s)
    decreases |s|
  {
    if |s| > 0 {
      assert Chars(s)[..|s| - 1] == Chars(s[..|s| - 1]);
      DigitsValueOfChars(s[..|s| - 1]);
    }
  }

  /** The decimal text of n is read back as n. */
  lemma DigitsOfShowNat(n: nat)
    ensures forall k :: 0 <= k < |ShowNat(n)| ==> DigitItem(Chars(ShowNat(n))[k])
    ensures DigitsValue(Chars(ShowNat(n))) == n
  {
    DigitsValueOfChars(ShowNat(n));
    ReadShowNat(n);
  }

  /** The integer scanner shared by every integral extraction: an optional sign,
      then at least one digit.  Without a digit it fails. */
  function ReadInteger(st: Stream): (r: Read<int>)
    ensures r.value.None? <==> r.st.fail
    ensures r.value.Some? ==> Good(st) && Left(r.st) < Left(st)
    ensures Left(r.st) <= Left(st)
  {
    var s := Skip(st);
    if s.fail then Read(None, s)
    else
      var xs := s.rest;
      var sign := if xs[0] == Ch('-') || xs[0] == Ch('+') then 1 else 0;
      var n := Run(xs[sign..], Digits);
      if n == 0 then Read(None, Stream(xs[sign..], sign == |xs|, true))
      else
        var m: int := DigitsValue(xs[sign..][..n]);
        Read(Some(if xs[0] == Ch('-') then -m else m), Stream(xs[sign + n..], sign + n == |xs|, false))
  }

  /** A natural number printed in decimal, preceded by white space and followed
      by a non-digit, is scanned back. */
  lemma ReadIntegerFront(pad: string, n: nat, tail: seq<Item>)
    requires IsBlank(pad)
    requires |tail| > 0 && !DigitItem(tail[0])
    ensures ReadInteger(Open(Chars(pad) + Chars(ShowNat(n)) + tail)) == Read(Some(n), Open(tail))
  {
    var ds := Chars(ShowNat(n));
    assert Chars(pad) + ds + tail == Chars(pad) + (ds + tail);
    assert ds[0] == Ch(ShowNat(n)[0]);
    SkipBlanks(pad, ds + tail);
    DigitsOfShowNat(n);
    RunOfPrefix(ds, tail, Digits);
    assert (ds + tail)[0..] == ds + tail;
    assert (ds + tail)[..|ds|] == ds;
    assert (ds + tail)[|ds|..] == tail;
  }

  const IntMin: int := -0x8000_0000
  const IntMax: int := 0x7FFF_FFFF
  const LongMin: int := -0x8000_0000_0000_0000
  const LongMax: int := 0x7FFF_FFFF_FFFF_FFFF
  const SizeModulus: int := 0x1_0000_0000_0000_0000

  /** The conversion of a signed integer to `size_t`: reduction modulo 2^64. */
  function SizeT(i: int): (r: nat)
    ensures r < SizeModulus
    ensures 0 <= i < SizeModulus ==> r == i
    ensures (r - i) % SizeModulus == 0
  {
    i % SizeModulus
  }

  /** `in >> i` into an `int`: a value outside the 32-bit range fails. */
  function ReadInt(st: Stream): (r: Read<int>)
    ensures r.value.None? <==> r.st.fail
    ensures r.value.Some? ==> IntMin <= r.value.value <= IntMax
    ensures r.value.Some? ==> Good(st) && Left(r.st) < Left(st)
    ensures Left(r.st) <= Left(st)
  {
    var r := ReadInteger(st);
    if r.value.Some? && !(IntMin <= r.value.value <= IntMax) then Read(None, r.st.(fail := true))
    else r
  }

  /** `in >> n` into a `size_t`: a magnitude above 2^64 - 1 fails, and a minus sign
      wraps the value around as `strtoull` does. */
  function ReadSize(st: Stream): (r: Read<nat>)
    ensures r.value.None? <==> r.st.fail
    ensures r.value.Some? ==> r.value.value < SizeModulus
    ensures r.value.Some? ==> Good(st) && Left(r.st) < Left(st)
    ensures Left(r.st) <= Left(st)
  {
    var r := ReadInteger(st);
    if r.value.None? then Read(None, r.st)
    else if !(-SizeModulus < r.value.value < SizeModulus) then Read(None, r.st.(fail := true))
    else Read(Some(SizeT(r.value.value)), r.st)
  }

  /** `in >> b` into a `bool` without `boolalpha`: the integer 0 or 1; any other
      value fails. */
  function ReadBool(st: Stream): (r: Read<bool>)
    ensures r.value.None? <==> r.st.fail
    ensures r.value.Some? ==> Good(st) && Left(r.st) < Left(st)
    ensures r.value.Some? ==> ReadInteger(st).value == Some(if r.value.value then 1 else 0)
    ensures Left(r.st) <= Left(st)
  {
    var r := ReadInteger(st);
    if r.value == Some(0) then Read(Some(false), r.st)
    else if r.value == Some(1) then Read(Some(true), r.st)
    else Read(None, r.st.(fail := true))
  }

  /** `in >> x` into a `double`: a printed floating value, or an integer written in
      decimal. */
  function ReadReal(st: Stream): (r: Read<real>)
    ensures r.value.None? <==> r.st.fail
    ensures r.value.Some? ==> Good(st) && Left(r.st) < Left(st)
    ensures Left(r.st) <= Left(st)
  {
    var s := Skip(st);
    if s.fail then Read(None, s)
    else if s.rest[0].Flt? then Read(Some(s.rest[0].x), s.(rest := s.rest[1..], eof := |s.rest| == 1))
    else
      var r := ReadInteger(s);
      Read(if r.value.Some? then Some(r.value.value as real) else None, r.st)
  }

  lemma ReadRealFront(pad: string, x: real, tail: seq<Item>)
    requires IsBlank(pad)
    ensures ReadReal(Open(Chars(pad) + [Flt(x)] + tail)) == Read(Some(x), Stream(tail, |tail| == 0, false))
  {
    assert Chars(pad) + [Flt(x)] + tail == Chars(pad) + ([Flt(x)] + tail);
    SkipBlanks(pad, [Flt(x)] + tail);
    assert ([Flt(x)] + tail)[1..] == tail;
  }

  /** `in.peek()`: the next item without consuming it; none on a stream that is not
      good (which then also fails) or at the end of the text (which sets `eof`). */
  function Peek(st: Stream): (r: Read<Item>)
    ensures r.value.Some? <==> Good(st) && |st.rest| > 0
    ensures r.value.Some? ==> r.value.value == st.rest[0] && r.st == st
    ensures Left(r.st) <= Left(st)
  {
    if !Good(st) then Read(None, st.(fail := true))
    else if |st.rest| == 0 then Read(None, st.(eof := true))
    else Read(Some(st.rest[0]), st)
  }

  // ----- src/parse.cpp -----

  /** `throw_if_fail`.  It is declared `throw()`, so the string it throws cannot
      leave it: the program ends through `std::terminate`. */
  function ThrowIfFail(st: Stream): (r: Result<()>)
    ensures r.Ok? <==> !st.fail
    ensures r.Err? ==> r.error == Terminate
  {
    if st.fail then Err(Terminate) else Ok(())
  }

  /** `throw_if_eof`, declared `throw()` as well. */
  function ThrowIfEof(st: Stream): (r: Result<()>)
    ensures r.Ok? <==> !st.eof
    ensures r.Err? ==> r.error == Terminate
  {
    if st.eof then Err(Terminate) else Ok(())
  }

  /** The text of a word read by `in >> s`: its characters, and for a printed
      double the placeholder `<double>`, since the digits are not modelled. */
  function WordText(w: seq<Item>): (r: string)
    ensures |r| >= |w|
  {
    if |w| == 0 then ""
    else (if w[0].Ch? then [w[0].c] else "<double>") + WordText(w[1..])
  }

  /** A word made of characters is quoted as exactly those characters. */
  lemma {:induction false} WordTextOfChars(s: string)
    ensures WordText(Chars(s)) == s
  {
    if |s| > 0 {
      assert Chars(s)[1..] == Chars(s[1..]);
      WordTextOfChars(s[1..]);
      assert s == [s[0]] + s[1..];
    }
  }

  /** The message `expect_keyword` throws on a mismatch, quoting the word s read. */
  function KeywordMismatch(kw: string, s: seq<Item>): Error
  {
    Thrown("Expected keyword '" + kw + "' but got '" + WordText(s) + "'")
  }

  /** `expect_keyword`: the next word must be kw.  A stream that is not good before
      or after the read ends the program (the guards are `throw()`); a different
      word throws a catchable message. */
  function ExpectKeyword(st: Stream, kw: string): (r: Result<Stream>)
    ensures r.Ok? <==> Good(st) && ReadWord(st).value == Some(Chars(kw))
    ensures r.Ok? ==> r.value == ReadWord(st).st
    ensures r.Err? && r.error.Thrown? <==>
              Good(st) && ReadWord(st).value.Some? && ReadWord(st).value.value != Chars(kw)
    ensures r.Err? && r.error.Thrown? ==> r.error == KeywordMismatch(kw, ReadWord(st).value.value)
    ensures r.Err? && !r.error.Thrown? ==> r.error == Terminate
    ensures r.Ok? ==> Left(r.value) < Left(st)
  {
    var _ :- ThrowIfEof(st);
    var _ :- ThrowIfFail(st);
    var w := ReadWord(st);
    var _ :- ThrowIfFail(w.st);
    if w.value.value != Chars(kw) then Err(KeywordMismatch(kw, w.value.value)) else Ok(w.st)
  }

  /** `expect_int`: the next integer; failing to read one ends the program. */
  function ExpectInt(st: Stream): (r: Result<(int, Stream)>)
    ensures r.Ok? <==> ReadInt(st).value.Some?
    ensures r.Ok? ==> r.value == (ReadInt(st).value.value, ReadInt(st).st)
    ensures r.Err? ==> r.error == Terminate
    ensures r.Ok? ==> Left(r.value.1) < Left(st)
  {
    var _ :- ThrowIfEof(st);
    var _ :- ThrowIfFail(st);
    var i := ReadInt(st);
    var _ :- ThrowIfFail(i.st);
    Ok((i.value.value, i.st))
  }

  /** `expect_word`: the next word; failing to read one ends the program. */
  function ExpectWord(st: Stream): (r: Result<(seq<Item>, Stream)>)
    ensures r.Ok? <==> ReadWord(st).value.Some?
    ensures r.Ok? ==> r.value == (ReadWord(st).value.value, ReadWord(st).st)
    ensures r.Err? ==> r.error == Terminate
    ensures r.Ok? ==> Left(r.value.1) < Left(st)
  {
    var _ :- ThrowIfEof(st);
    var _ :- ThrowIfFail(st);
    var w := ReadWord(st);
    var _ :- ThrowIfFail(w.st);
    Ok((w.value.value, w.st))
  }

  /** No `expect_*` reaches its caller's `catch` when it meets the end of the text:
      on a stream that is not good, or holds only white space, each one ends the
      program. */
  lemma ExpectAtEndTerminates(st: Stream, kw: string)
    requires !Good(st) || forall k :: 0 <= k < |st.rest| ==> Blank(st.rest[k])
    ensures ExpectKeyword(st, kw) == Err(Terminate)
    ensures ExpectInt(st) == Err(Terminate)
    ensures ExpectWord(st) == Err(Terminate)
  {
    if Good(st) {
      assert Run(st.rest, Blanks) == |st.rest|;
    }
  }

  /** A keyword written with white space in front and after it is accepted. */
  lemma ExpectKeywordFront(pad: string, kw: string, tail: seq<Item>)
    requires IsBlank(pad) && IsWord(kw)
    requires |tail| == 0 || Blank(tail[0])
    ensures ExpectKeyword(Open(Chars(pad) + Chars(kw) + tail), kw) == Ok(Stream(tail, |tail| == 0, false))
  {
    ReadWordFront(pad, Chars(kw), tail);
  }

  /** The loop of `chomp_input_until` with the word s last read.  On a stream that
      has failed without reaching its end, `>>` changes nothing, so the loop never
      ends. */
  function ChompLoop(st: Stream, s: seq<Item>, kw: string): (r: Result<Stream>)
    ensures r.Ok? ==> Left(r.value) <= Left(st)
    ensures r.Err? ==> r.error.Thrown? || r.error == Diverges
    decreases Left(st)
  {
    if s == Chars(kw) then Ok(st)
    else if st.eof then Err(Thrown("Unexpected EOF waiting for '" + kw + "'"))
    else if st.fail then Err(Diverges)
    else
      var w := ReadWord(st);
      ChompLoop(w.st, w.value.GetOr(s), kw)
  }

  /** `chomp_input_until`: discard words up to and including the first one equal
      to kw; reaching the end first throws. */
  function ChompUntil(st: Stream, kw: string): (r: Result<Stream>)
    ensures kw == "" ==> r == Ok(st)
    ensures kw != "" && st.eof ==> r.Err? && r.error.Thrown?
    ensures kw != "" && !st.eof && st.fail ==> r == Err(Diverges)
    ensures kw != "" && r.Ok? ==> Left(r.value) < Left(st)
    ensures r.Err? ==> r.error.Thrown? || r.error == Diverges
  {
    ChompLoop(st, [], kw)
  }

  /** Words other than kw in front of kw are discarded, and kw with them. */
  lemma ChompSkipsTo(ws: seq<string>, kw: string, tail: seq<Item>)
    requires forall k :: 0 <= k < |ws| ==> IsWord(ws[k]) && ws[k] != kw
    requires IsWord(kw)
    requires |tail| == 0 || Blank(tail[0])
    ensures ChompUntil(Open(Chars(JoinWords(ws + [kw])) + tail), kw) == Ok(Stream(tail, |tail| == 0, false))
  {
    var text := Chars(JoinWords(ws + [kw])) + tail;
    NoPad(Chars(JoinWords(ws + [kw])));
    ChompLoopSkipsTo("", [], ws, kw, tail);
    assert ChompLoop(Open(text), [], kw) == ChompUntil(Open(text), kw);
  }

  lemma {:induction false} ChompLoopSkipsTo(pad: string, s: seq<Item>, ws: seq<string>, kw: string, tail: seq<Item>)
    requires IsBlank(pad)
    requires s != Chars(kw)
    requires forall k :: 0 <= k < |ws| ==> IsWord(ws[k]) && ws[k] != kw
    requires IsWord(kw)
    requires |tail| == 0 || Blank(tail[0])
    ensures ChompLoop(Open(Chars(pad) + Chars(JoinWords(ws + [kw])) + tail), s, kw) == Ok(Stream(tail, |tail| == 0, false))
    decreases |ws|
  {
    var st := Open(Chars(pad) + Chars(JoinWords(ws + [kw])) + tail);
    if |ws| == 0 {
      assert ws + [kw] == [kw];
      ReadWordFront(pad, Chars(kw), tail);
      ChompLoopStep(st, s, kw);
    } else {
      var after := Chars(" ") + Chars(JoinWords(ws[1..] + [kw])) + tail;
      ChompText(pad, ws, kw, tail);
      ReadWordFront(pad, Chars(ws[0]), after);
      ChompLoopStep(st, s, kw);
      CharsInjective(ws[0], kw);
      ChompLoopSkipsTo(" ", Chars(ws[0]), ws[1..], kw, tail);
    }
  }

  /** One word read by the loop of `chomp_input_until`. */
  lemma ChompLoopStep(st: Stream, s: seq<Item>, kw: string)
    requires s != Chars(kw) && !st.eof && !st.fail
    ensures ChompLoop(st, s, kw) == ChompLoop(ReadWord(st).st, ReadWord(st).value.GetOr(s), kw)
  {
  }

  /** Words joined by blanks, split after the first. */
  lemma ChompText(pad: string, ws: seq<string>, kw: string, tail: seq<Item>)
    requires |ws| > 0
    ensures Chars(pad) + Chars(JoinWords(ws + [kw])) + tail
            == Chars(pad) + Chars(ws[0]) + (Chars(" ") + Chars(JoinWords(ws[1..] + [kw])) + tail)
  {
    JoinFirst(ws, kw);
    Regroup(Chars(pad), Chars(ws[0]), Chars(" "), Chars(JoinWords(ws[1..] + [kw])), tail);
  }

  lemma JoinFirst(ws: seq<string>, kw: string)
    requires |ws| > 0
    ensures Chars(JoinWords(ws + [kw])) == Chars(ws[0]) + Chars(" ") + Chars(JoinWords(ws[1..] + [kw]))
  {
    calc {
      Chars(JoinWords(ws + [kw]));
    == { assert (ws + [kw])[1..] == ws[1..] + [kw]; }
      Chars(ws[0] + " " + JoinWords(ws[1..] + [kw]));
    == { CharsAppend(ws[0] + " ", JoinWords(ws[1..] + [kw])); }
      Chars(ws[0] + " ") + Chars(JoinWords(ws[1..] + [kw]));
    == { CharsAppend(ws[0], " "); }
      Chars(ws[0]) + Chars(" ") + Chars(JoinWords(ws[1..] + [kw]));
    }
  }

  lemma NoPad(xs: seq<Item>)
    ensures Chars("") + xs == xs
  {
  }

  lemma CharsInjective(a: string, b: string)
    requires a != b
    ensures Chars(a) != Chars(b)
  {
    if |a| == |b| {
      var k :| 0 <= k < |a| && a[k] != b[k];
      assert Chars(a)[k] != Chars(b)[k];
    }
  }
}
