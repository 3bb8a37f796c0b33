/** Trailing windows of a price series: `values[-n:]` in Python, `ROWS BETWEEN n-1 PRECEDING
    AND CURRENT ROW` in SQL, and the aggregates taken over them. */
module Windows {

  function Last<T>(s: seq<T>, n: nat): (w: seq<T>)
  {
    if |s| <= n then s else s[|s| - n..]
  }

  function Sum(s: seq<real>): real
  {
    if s == [] then 0.0 else Sum(s[..|s| - 1]) + s[|s| - 1]
  }

  function Mean(s: seq<real>): real
    requires s != []
  {
    Sum(s) / (|s| as real)
  }

  function Max(a: real, b: real): real { if a < b then b else a }

  function Min(a: real, b: real): real { if b < a then b else a }

  function Abs(a: real): real { if a < 0.0 then -a else a }

  function MaxOf(s: seq<real>): real
    requires s != []
  {
    if |s| == 1 then s[0] else Max(MaxOf(s[..|s| - 1]), s[|s| - 1])
  }

  function MinOf(s: seq<real>): real
    requires s != []
  {
    if |s| == 1 then s[0] else Min(MinOf(s[..|s| - 1]), s[|s| - 1])
  }

  lemma {:induction false} MaxOfIs(s: seq<real>)
    requires s != []
    ensures MaxOf(s) in s && forall i :: 0 <= i < |s| ==> s[i] <= MaxOf(s)
  {
    if |s| > 1 { MaxOfIs(s[..|s| - 1]); }
  }

  lemma {:induction false} MinOfIs(s: seq<real>)
    requires s != []
    ensures MinOf(s) in s && forall i :: 0 <= i < |s| ==> MinOf(s) <= s[i]
  {
    if |s| > 1 { MinOfIs(s[..|s| - 1]); }
  }

  /** A price times a scale. A function of its own, so that equal prices give equal products
      without any reasoning about multiplication. */
  function Times(a: real, k: real): real { a * k }

  /** Every element multiplied by `k`: a series re-expressed on another price basis. */
  function Scale(s: seq<real>, k: real): (t: seq<real>)
    ensures |t| == |s| && forall i :: 0 <= i < |s| ==> t[i] == Times(s[i], k)
  {
    seq(|s|, i requires 0 <= i < |s| => Times(s[i], k))
  }

  lemma {:induction false} LastScale(s: seq<real>, k: real, n: nat)
    ensures Last(Scale(s, k), n) == Scale(Last(s, n), k)
  {
  }

  lemma {:induction false} SumScale(s: seq<real>, k: real)
    ensures Sum(Scale(s, k)) == Times(Sum(s), k)
  {
    if s != [] {
      SumScale(s[..|s| - 1], k);
      assert Scale(s, k)[..|s| - 1] == Scale(s[..|s| - 1], k);
    }
  }

  lemma {:induction false} SumAppend(s: seq<real>, x: real)
    ensures Sum(s + [x]) == Sum(s) + x
  {
    assert (s + [x])[..|s|] == s;
  }

  lemma {:induction false} MeanScale(s: seq<real>, k: real)
    requires s != []
    ensures Mean(Scale(s, k)) == Times(Mean(s), k)
  {
    SumScale(s, k);
  }

  lemma {:induction false} ScaleOrder(a: real, b: real, k: real)
    requires k > 0.0
    ensures a <= b <==> a * k <= b * k
    ensures a == b <==> a * k == b * k
  {
    if a < b {
      assert (b - a) * k > 0.0;
    } else if b < a {
      assert (a - b) * k > 0.0;
    }
  }

  lemma {:induction false} MaxMinScale(a: real, b: real, k: real)
    requires k > 0.0
    ensures Max(Times(a, k), Times(b, k)) == Times(Max(a, b), k)
    ensures Min(Times(a, k), Times(b, k)) == Times(Min(a, b), k)
  {
    ScaleOrder(a, b, k);
    ScaleOrder(b, a, k);
  }

  lemma {:induction false} MaxOfScale(s: seq<real>, k: real)
    requires s != [] && k > 0.0
    ensures MaxOf(Scale(s, k)) == Times(MaxOf(s), k)
    ensures MinOf(Scale(s, k)) == Times(MinOf(s), k)
  {
    if |s| > 1 {
      var front, last := s[..|s| - 1], s[|s| - 1];
      MaxOfScale(front, k);
      assert Scale(s, k)[..|s| - 1] == Scale(front, k);
      MaxMinScale(MaxOf(front), last, k);
      MaxMinScale(MinOf(front), last, k);
    }
  }

  lemma {:induction false} RatioScale(a: real, b: real, k: real)
    requires k != 0.0 && b != 0.0
    ensures Times(b, k) != 0.0 && Times(a, k) / Times(b, k) == a / b
  {
    var q := a / b;
    assert q * b == a;
    assert b * k != 0.0;
    assert a * k == q * (b * k);
    DivUnique(a * k, b * k, q);
  }

  lemma {:induction false} DivUnique(n: real, d: real, q: real)
    requires d != 0.0 && n == q * d
    ensures n / d == q
  {
    var p := n / d;
    assert p * d == q * d;
    assert (p - q) * d == 0.0;
  }

  lemma {:induction false} SumBounds(s: seq<real>, lo: real, hi: real)
    requires forall i :: 0 <= i < |s| ==> lo <= s[i] <= hi
    ensures lo * (|s| as real) <= Sum(s) <= hi * (|s| as real)
  {
    if s != [] {
      SumBounds(s[..|s| - 1], lo, hi);
      assert |s| as real == (|s| - 1) as real + 1.0;
      assert lo * (|s| as real) == lo * ((|s| - 1) as real) + lo;
      assert hi * (|s| as real) == hi * ((|s| - 1) as real) + hi;
    }
  }

  lemma {:induction false} MeanBounds(s: seq<real>, lo: real, hi: real)
    requires s != []
    requires forall i :: 0 <= i < |s| ==> lo <= s[i] <= hi
    ensures lo <= Mean(s) <= hi
  {
    SumBounds(s, lo, hi);
    QuotientBounds(Sum(s), |s| as real, lo, hi);
  }

  lemma {:induction false} QuotientBounds(total: real, n: real, lo: real, hi: real)
    requires n > 0.0 && lo * n <= total <= hi * n
    ensures lo <= total / n <= hi
  {
    var m := total / n;
    assert m * n == total;
    ScaleOrder(lo, m, n);
    ScaleOrder(m, hi, n);
  }
}
