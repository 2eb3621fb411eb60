/**
 * Exact sums over sequences of reals.  Every accumulation loop of the source
 * (`sum`, `dot`, edge and loss totals) adds from the first element to the last,
 * which is how `Sum` is defined; with exact arithmetic the order does not matter
 * and the lemmas below let the other modules split and rescale sums.
 */
module Seqs {

  /** Concatenation regrouped; the proofs over long texts use it one step at a time. */
  lemma Assoc<T>(a: seq<T>, b: seq<T>, c: seq<T>)
    ensures a + b + c == a + (b + c)
  {
  }

  /** Multiplication distributes over a sum; the sum lemmas below use it one term at a time. */
  lemma Distrib(a: real, x: real, y: real)
    ensures a * (x + y) == a * x + a * y
  {
  }

  /** Dividing by t is multiplying by its inverse, which multiplication by t undoes. */
  lemma InverseCancels(t: real, a: real)
    requires t != 0.0
    ensures a / t == (1.0 / t) * a
    ensures (1.0 / t) * a * t == a
    ensures (1.0 / t) * t == 1.0
  {
  }

  /** Four pieces and a tail, regrouped around the second piece. */
  lemma Regroup<T>(a: seq<T>, b: seq<T>, c: seq<T>, d: seq<T>, t: seq<T>)
    ensures a + (b + c + d) + t == a + b + (c + d + t)
  {
    calc {
      a + (b + c + d) + t;
      { Assoc(a, b + c + d, t); }
      a + (b + c + d + t);
      { Assoc(b + c, d, t); Assoc(b, c, d + t); }
      a + (b + (c + (d + t)));
      { Assoc(a, b, c + (d + t)); Assoc(c, d, t); }
      a + b + (c + d + t);
    }
  }

  /** Appending a non-empty sequence is appending its head, then its tail. */
  lemma AppendHeadTail<T>(acc: seq<T>, ws: seq<T>)
    requires |ws| > 0
    ensures acc + [ws[0]] + ws[1..] == acc + ws
  {
    assert [ws[0]] + ws[1..] == ws;
    Assoc(acc, [ws[0]], ws[1..]);
  }

  /** Σ s, accumulated left to right. */
  function Sum(s: seq<real>): real
    decreases |s|
  {
    if |s| == 0 then 0.0 else Sum(s[..|s| - 1]) + s[|s| - 1]
  }

  /** n zeros: what `DenseVector(n)` and `resize(n)` allocate. */
  function Zeros(n: nat): (z: seq<real>)
    ensures |z| == n
    ensures forall i :: 0 <= i < n ==> z[i] == 0.0
  {
    seq(n, _ => 0.0)
  }

  /** a·s elementwise, the effect of `scale`. */
  function ScaleAll(s: seq<real>, a: real): (r: seq<real>)
    ensures |r| == |s|
    ensures forall i :: 0 <= i < |s| ==> r[i] == a * s[i]
  {
    seq(|s|, i requires 0 <= i < |s| => a * s[i])
  }

  /** a·x + y elementwise, the dense `axpy`. */
  function Axpy(a: real, x: seq<real>, y: seq<real>): (r: seq<real>)
    requires |x| == |y|
    ensures |r| == |y|
    ensures forall i :: 0 <= i < |y| ==> r[i] == a * x[i] + y[i]
  {
    seq(|y|, i requires 0 <= i < |y| => a * x[i] + y[i])
  }

  lemma {:induction false} SumAppend(s: seq<real>, t: seq<real>)
    ensures Sum(s + t) == Sum(s) + Sum(t)
    decreases |t|
  {
    if |t| == 0 {
      assert s + t == s;
    } else {
      var t' := t[..|t| - 1];
      assert (s + t)[..|s + t| - 1] == s + t';
      SumAppend(s, t');
    }
  }

  lemma SumSingleton(x: real)
    ensures Sum([x]) == x
  {
    assert [x][..0] == [];
  }

  /** Σ of the first element plus the rest: the sum read from the front. */
  lemma SumFront(s: seq<real>)
    requires |s| > 0
    ensures Sum(s) == s[0] + Sum(s[1..])
  {
    assert s == [s[0]] + s[1..];
    SumAppend([s[0]], s[1..]);
    SumSingleton(s[0]);
  }

  lemma {:induction false} SumZeros(n: nat)
    ensures Sum(Zeros(n)) == 0.0
  {
    if n > 0 {
      assert Zeros(n)[..n - 1] == Zeros(n - 1);
      SumZeros(n - 1);
    }
  }

  lemma {:induction false} SumScaleAll(s: seq<real>, a: real)
    ensures Sum(ScaleAll(s, a)) == a * Sum(s)
    decreases |s|
  {
    if |s| > 0 {
      var n := |s| - 1;
      var t := ScaleAll(s, a);
      forall i | 0 <= i < n
        ensures t[..n][i] == ScaleAll(s[..n], a)[i]
      {
      }
      assert t[..n] == ScaleAll(s[..n], a);
      SumScaleAll(s[..n], a);
      assert Sum(t) == Sum(t[..n]) + t[n];
      Distrib(a, Sum(s[..n]), s[n]);
    }
  }

  /** The sum of a termwise sum is the sum of the sums. */
  lemma {:induction false} SumAdd(u: seq<real>, v: seq<real>, w: seq<real>)
    requires |u| == |w| && |v| == |w|
    requires forall i :: 0 <= i < |w| ==> w[i] == u[i] + v[i]
    ensures Sum(w) == Sum(u) + Sum(v)
    decreases |w|
  {
    if |w| > 0 {
      var n := |w| - 1;
      SumAdd(u[..n], v[..n], w[..n]);
    }
  }

  lemma SumAxpy(a: real, x: seq<real>, y: seq<real>)
    requires |x| == |y|
    ensures Sum(Axpy(a, x, y)) == a * Sum(x) + Sum(y)
  {
    SumAdd(ScaleAll(x, a), y, Axpy(a, x, y));
    SumScaleAll(x, a);
  }

  /** Termwise comparison carries over to the sums. */
  lemma {:induction false} SumMonotone(s: seq<real>, t: seq<real>)
    requires |s| == |t|
    requires forall i :: 0 <= i < |s| ==> s[i] <= t[i]
    ensures Sum(s) <= Sum(t)
    decreases |s|
  {
    if |s| > 0 {
      SumMonotone(s[..|s| - 1], t[..|t| - 1]);
    }
  }

  /** Sums of terms that all lie in [lo, hi]. */
  lemma {:induction false} SumBounds(s: seq<real>, lo: real, hi: real)
    requires forall i :: 0 <= i < |s| ==> lo <= s[i] <= hi
    ensures lo * |s| as real <= Sum(s) <= hi * |s| as real
    decreases |s|
  {
    if |s| > 0 {
      SumBounds(s[..|s| - 1], lo, hi);
    }
  }

  /** Changing one term by x changes the sum by x. */
  lemma SumUpdate(s: seq<real>, i: nat, x: real)
    requires i < |s|
    ensures Sum(s[i := s[i] + x]) == Sum(s) + x
  {
    var t := s[i := s[i] + x];
    assert s == s[..i] + [s[i]] + s[i + 1..];
    assert t == s[..i] + [s[i] + x] + s[i + 1..];
    SumAppend(s[..i] + [s[i]], s[i + 1..]);
    SumAppend(s[..i], [s[i]]);
    SumAppend(s[..i] + [s[i] + x], s[i + 1..]);
    SumAppend(s[..i], [s[i] + x]);
    SumSingleton(s[i]);
    SumSingleton(s[i] + x);
  }

  /** A sum whose terms are all zero. */
  lemma AllZeroSum(s: seq<real>)
    requires forall i :: 0 <= i < |s| ==> s[i] == 0.0
    ensures Sum(s) == 0.0
  {
    assert s == Zeros(|s|);
    SumZeros(|s|);
  }

  /** A sequence that differs from t at i alone, by x, sums to t's sum plus x. */
  lemma SumShiftedTerm(s: seq<real>, t: seq<real>, i: nat, x: real)
    requires |s| == |t| && i < |t|
    requires forall k :: 0 <= k < |s| ==> s[k] == if k == i then t[k] + x else t[k]
    ensures Sum(s) == Sum(t) + x
  {
    assert s == t[i := t[i] + x];
    SumUpdate(t, i, x);
  }

  /** Sums of sequences that agree termwise. */
  lemma SumPointwise(s: seq<real>, t: seq<real>)
    requires |s| == |t|
    requires forall i :: 0 <= i < |s| ==> s[i] == t[i]
    ensures Sum(s) == Sum(t)
  {
    assert s == t;
  }

  /** s read from its last element to its first. */
  function Reverse<T>(s: seq<T>): (r: seq<T>)
    ensures |r| == |s|
    ensures forall i :: 0 <= i < |s| ==> r[i] == s[|s| - 1 - i]
  {
    seq(|s|, i requires 0 <= i < |s| => s[|s| - 1 - i])
  }

  lemma {:induction false} SumReverse(s: seq<real>)
    ensures Sum(Reverse(s)) == Sum(s)
    decreases |s|
  {
    if |s| > 0 {
      var n := |s| - 1;
      assert Reverse(s)[..n] == Reverse(s[1..]);
      SumReverse(s[1..]);
      SumFront(s);
    }
  }

  /** Taking the last element from xs and the same element from ys keeps the two
      multisets equal. */
  lemma RemoveOne<T>(xs: seq<T>, ys: seq<T>, j: nat)
    requires |xs| > 0 && j < |ys| && ys[j] == xs[|xs| - 1] && multiset(xs) == multiset(ys)
    ensures multiset(xs[..|xs| - 1]) == multiset(ys[..j] + ys[j + 1..])
  {
    var n := |xs| - 1;
    assert xs == xs[..n] + [xs[n]];
    assert ys == ys[..j] + [ys[j]] + ys[j + 1..];
    calc {
      multiset(xs[..n]);
      multiset(xs[..n]) + multiset{xs[n]} - multiset{xs[n]};
      multiset(xs) - multiset{xs[n]};
      multiset(ys) - multiset{ys[j]};
      multiset(ys[..j]) + multiset(ys[j + 1..]) + multiset{ys[j]} - multiset{ys[j]};
      multiset(ys[..j]) + multiset(ys[j + 1..]);
    }
  }

  /** A sum is the term at j plus the sum of the others. */
  lemma SumRemove(b: seq<real>, j: nat)
    requires j < |b|
    ensures Sum(b) == Sum(b[..j] + b[j + 1..]) + b[j]
  {
    var p, q := b[..j], b[j + 1..];
    var t := [b[j]] + q;
    assert b == p + t;
    SumAppend(p, t);
    assert t[1..] == q;
    SumFront(t);
    SumAppend(p, q);
  }

  /**
   * Two sums whose terms belong to the elements of xs and ys, where a term depends
   * only on its element: when ys rearranges xs the sums agree.
   */
  lemma {:induction false} PermutedSum<T>(xs: seq<T>, ys: seq<T>, a: seq<real>, b: seq<real>)
    requires |a| == |xs| && |b| == |ys| && multiset(xs) == multiset(ys)
    requires forall i, j :: 0 <= i < |xs| && 0 <= j < |ys| && xs[i] == ys[j] ==> a[i] == b[j]
    ensures Sum(a) == Sum(b)
    decreases |xs|
  {
    if |xs| == 0 {
      assert |multiset(ys)| == 0;
    } else {
      var n := |xs| - 1;
      var x := xs[n];
      assert x in multiset(ys);
      var j :| 0 <= j < |ys| && ys[j] == x;
      var ys' := ys[..j] + ys[j + 1..];
      var b' := b[..j] + b[j + 1..];
      RemoveOne(xs, ys, j);
      forall i, k | 0 <= i < n && 0 <= k < |ys'| && xs[..n][i] == ys'[k]
        ensures a[..n][i] == b'[k]
      {
        var k' := if k < j then k else k + 1;
        assert ys'[k] == ys[k'] && b'[k] == b[k'];
      }
      PermutedSum(xs[..n], ys', a[..n], b');
      SumRemove(b, j);
    }
  }
}
