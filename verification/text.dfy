/**
 * Characters, whitespace-separated words and decimal integers.
 *
 * Both C's `isspace` (as used by the C++ readers) and Python 2's `str.split()`
 * treat the same six characters as white space, so one `IsSpace` serves both.
 * Integers are shown in decimal the way `%i` and `operator<<` print them;
 * floating values are never shown here (their printing is abstracted elsewhere).
 */
module Text {

  predicate IsSpace(c: char)
  {
    c == ' ' || c == '\t' || c == '\n' || c == '\r' || c == '\U{B}' || c == '\U{C}'
  }

  predicate IsDigit(c: char)
  {
    '0' <= c <= '9'
  }

  /** A whitespace-only line, the `is_blank` test of the LIBSVM reader. */
  predicate IsBlank(s: string)
  {
    forall k :: 0 <= k < |s| ==> IsSpace(s[k])
  }

  /** A non-empty run of non-space characters. */
  predicate IsWord(w: string)
  {
    |w| > 0 && forall k :: 0 <= k < |w| ==> !IsSpace(w[k])
  }

  /** Length of the leading run of non-space characters. */
  function WordLength(s: string): (n: nat)
    ensures n <= |s|
    ensures forall k :: 0 <= k < n ==> !IsSpace(s[k])
    ensures n < |s| ==> IsSpace(s[n])
  {
    if |s| == 0 || IsSpace(s[0]) then 0 else 1 + WordLength(s[1..])
  }

  /** The maximal runs of non-space characters, in order: `str.split()` in
      Python, repeated `>>` into a `std::string` in C++. */
  function Words(s: string): (ws: seq<string>)
    ensures forall k :: 0 <= k < |ws| ==> IsWord(ws[k])
    decreases |s|
  {
    if |s| == 0 then []
    else if IsSpace(s[0]) then Words(s[1..])
    else
      var n := WordLength(s);
      [s[..n]] + Words(s[n..])
  }

  /** The words joined with single blanks, Python's `" ".join`. */
  function JoinWords(ws: seq<string>): string
  {
    if |ws| == 0 then ""
    else if |ws| == 1 then ws[0]
    else ws[0] + " " + JoinWords(ws[1..])
  }

  lemma {:induction false} WordsOfWordThenRest(w: string, rest: string)
    requires IsWord(w)
    requires |rest| == 0 || IsSpace(rest[0])
    ensures Words(w + rest) == [w] + Words(rest)
  {
    var s := w + rest;
    WordLengthOfWord(w, rest);
    assert s[..|w|] == w;
    assert s[|w|..] == rest;
  }

  lemma {:induction false} WordLengthOfWord(w: string, rest: string)
    requires IsWord(w)
    requires |rest| == 0 || IsSpace(rest[0])
    ensures WordLength(w + rest) == |w|
    decreases |w|
  {
    if |w| > 1 {
      assert (w + rest)[1..] == w[1..] + rest;
      WordLengthOfWord(w[1..], rest);
    } else {
      assert (w + rest)[1..] == rest;
    }
  }

  /** Splitting a blank-joined list of words gives the list back. */
  lemma {:induction false} WordsOfJoin(ws: seq<string>)
    requires forall k :: 0 <= k < |ws| ==> IsWord(ws[k])
    ensures Words(JoinWords(ws)) == ws
    decreases |ws|
  {
    if |ws| == 1 {
      WordsOfWordThenRest(ws[0], "");
      assert ws[0] + "" == ws[0];
    } else if |ws| > 1 {
      var rest := " " + JoinWords(ws[1..]);
      assert JoinWords(ws) == ws[0] + rest;
      WordsOfWordThenRest(ws[0], rest);
      assert rest[1..] == JoinWords(ws[1..]);
      WordsOfJoin(ws[1..]);
      assert ws == [ws[0]] + ws[1..];
    }
  }

  /** A line is blank exactly when it has no words. */
  lemma {:induction false} BlankIffNoWords(s: string)
    ensures IsBlank(s) <==> Words(s) == []
    decreases |s|
  {
    if |s| > 0 {
      if IsSpace(s[0]) {
        BlankIffNoWords(s[1..]);
        if IsBlank(s[1..]) {
          assert IsBlank(s) by {
            forall k | 0 <= k < |s| ensures IsSpace(s[k]) {
              if k > 0 { assert s[k] == s[1..][k - 1]; }
            }
          }
        } else {
          var k :| 0 <= k < |s[1..]| && !IsSpace(s[1..][k]);
          assert !IsSpace(s[k + 1]);
        }
      } else {
        assert !IsSpace(s[0]);
      }
    }
  }

  /** The decimal digit for d. */
  function DigitChar(d: nat): (c: char)
    requires d < 10
    ensures IsDigit(c)
  {
    "0123456789"[d]
  }

  function DigitValue(c: char): (d: nat)
    requires IsDigit(c)
    ensures d < 10
  {
    (c as int - '0' as int) as nat
  }

  /** n in decimal, without a sign. */
  function ShowNat(n: nat): (s: string)
    ensures |s| > 0
    ensures forall k :: 0 <= k < |s| ==> IsDigit(s[k])
  {
    if n < 10 then [DigitChar(n)] else ShowNat(n / 10) + [DigitChar(n % 10)]
  }

  predicate IsNumeral(s: string)
  {
    |s| > 0 && forall k :: 0 <= k < |s| ==> IsDigit(s[k])
  }

  /** The value of a run of decimal digits. */
  function ReadNat(s: string): nat
    requires forall k :: 0 <= k < |s| ==> IsDigit(s[k])
  {
    if |s| == 0 then 0 else 10 * ReadNat(s[..|s| - 1]) + DigitValue(s[|s| - 1])
  }

  /** Reading back what `ShowNat` printed gives the number. */
  lemma {:induction false} ReadShowNat(n: nat)
    ensures ReadNat(ShowNat(n)) == n
  {
    var s := ShowNat(n);
    if n < 10 {
      assert s[..0] == [];
      assert DigitValue(DigitChar(n)) == n by {
        assert "0123456789"[n] as int == '0' as int + n;
      }
    } else {
      assert s[..|s| - 1] == ShowNat(n / 10);
      ReadShowNat(n / 10);
      var d := n % 10;
      assert DigitValue(DigitChar(d)) == d by {
        assert "0123456789"[d] as int == '0' as int + d;
      }
    }
  }

  /** An integer as `%i` and `operator<<` print it: a minus sign only when negative. */
  function ShowInt(i: int): (s: string)
    ensures |s| > 0
    ensures s[0] == '-' <==> i < 0
  {
    if i < 0 then "-" + ShowNat(-i) else ShowNat(i)
  }

  /** An integer as `"%+i"` prints it: always signed. */
  function ShowSigned(i: int): (s: string)
    ensures |s| > 1
    ensures s[0] == (if i < 0 then '-' else '+')
    ensures IsNumeral(s[1..]) && ReadNat(s[1..]) == if i < 0 then -i else i
  {
    var digits := ShowNat(if i < 0 then -i else i);
    ReadShowNat(if i < 0 then -i else i);
    assert ([if i < 0 then '-' else '+'] + digits)[1..] == digits;
    [if i < 0 then '-' else '+'] + digits
  }

  /** `int()` of a floating value in C and in Python: truncation toward zero. */
  function Truncate(r: real): (i: int)
    ensures 0.0 <= r ==> i as real <= r < i as real + 1.0
    ensures r < 0.0 ==> i as real - 1.0 < r <= i as real
  {
    if r >= 0.0 then r.Floor else -((-r).Floor)
  }
}
