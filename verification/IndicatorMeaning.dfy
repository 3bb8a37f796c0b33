/** What every emitted core column is, said of the bars themselves: the recursive averages as weighted
    sums of their history, the windowed ones as sums over the last bars. */
module IndicatorMeaning {
  import opened Wrappers
  import opened Windows
  import opened TechnicalCore

  // ----- the recursive averages

  function Power(x: real, n: nat): real { if n == 0 then 1.0 else x * Power(x, n - 1) }

  /** The weight of the `i`-th of `n` values that follow a seed, the seed being number 0: `alpha` for the
      newest, less by `1 - alpha` for each step of age, and the seed takes what is left. */
  function Weight(i: nat, n: nat, alpha: real): real
    requires i <= n
  {
    if i == 0 then Power(1.0 - alpha, n) else Times(alpha, Power(1.0 - alpha, n - i))
  }

  function Terms(seed: real, xs: seq<real>, alpha: real): (t: seq<real>)
    ensures |t| == |xs| + 1 && t[0] == Times(seed, Weight(0, |xs|, alpha))
    ensures forall i :: 0 < i <= |xs| ==> t[i] == Times(xs[i - 1], Weight(i, |xs|, alpha))
  {
    seq(|xs| + 1, i requires 0 <= i <= |xs| => Times(if i == 0 then seed else xs[i - 1], Weight(i, |xs|, alpha)))
  }

  /** The seed and the values after it, each by its weight. */
  function Weighted(seed: real, xs: seq<real>, alpha: real): real { Sum(Terms(seed, xs, alpha)) }

  lemma {:induction false} WeightAges(x: real, i: nat, n: nat, alpha: real)
    requires i <= n
    ensures Times(x, Weight(i, n + 1, alpha)) == Times(Times(x, Weight(i, n, alpha)), 1.0 - alpha)
    ensures Times(x, Weight(n + 1, n + 1, alpha)) == alpha * x
  {
    var q, p := 1.0 - alpha, Power(1.0 - alpha, n - i);
    assert Power(q, n + 1 - i) == q * p;
    assert alpha * (q * p) == (alpha * p) * q;
    assert Weight(i, n + 1, alpha) == Weight(i, n, alpha) * q;
    assert x * (Weight(i, n, alpha) * q) == (x * Weight(i, n, alpha)) * q;
  }

  lemma {:induction false} TermAges(seed: real, xs: seq<real>, x: real, alpha: real, i: nat)
    requires i <= |xs|
    ensures Terms(seed, xs + [x], alpha)[i] == Scale(Terms(seed, xs, alpha), 1.0 - alpha)[i]
  {
    WeightAges(if i == 0 then seed else xs[i - 1], i, |xs|, alpha);
  }

  lemma {:induction false} TermsOneMore(seed: real, xs: seq<real>, x: real, alpha: real)
    ensures Terms(seed, xs + [x], alpha) == Scale(Terms(seed, xs, alpha), 1.0 - alpha) + [alpha * x]
  {
    forall i | 0 <= i <= |xs|
      ensures Terms(seed, xs + [x], alpha)[i] == Scale(Terms(seed, xs, alpha), 1.0 - alpha)[i]
    {
      TermAges(seed, xs, x, alpha, i);
    }
    WeightAges(x, |xs|, |xs|, alpha);
  }

  lemma {:induction false} WeightedOneMore(seed: real, xs: seq<real>, x: real, alpha: real)
    ensures Weighted(seed, xs + [x], alpha) == Times(Weighted(seed, xs, alpha), 1.0 - alpha) + alpha * x
  {
    TermsOneMore(seed, xs, x, alpha);
    SumScale(Terms(seed, xs, alpha), 1.0 - alpha);
    SumAppend(Scale(Terms(seed, xs, alpha), 1.0 - alpha), alpha * x);
  }

  lemma {:induction false} WeightedNothing(seed: real, alpha: real)
    ensures Weighted(seed, [], alpha) == seed
  {
    assert Terms(seed, [], alpha) == [] + [seed];
    SumAppend([], seed);
  }

  lemma {:induction false} EmaStep(period: Period, closes: seq<real>)
    requires |closes| > 1
    ensures var n, alpha := |closes| - 1, 2.0 / (period as real + 1.0);
            EmaOf(period, closes) == Times(EmaOf(period, closes[..n]), 1.0 - alpha) + alpha * closes[n]
  {
  }

  lemma {:induction false} EmaIsWeighted(period: Period, closes: seq<real>)
    requires closes != []
    ensures EmaOf(period, closes) == Weighted(closes[0], closes[1..], 2.0 / (period as real + 1.0))
  {
    var n, alpha := |closes| - 1, 2.0 / (period as real + 1.0);
    if n == 0 {
      WeightedNothing(closes[0], alpha);
      assert closes[1..] == [];
    } else {
      EmaIsWeighted(period, closes[..n]);
      EmaStep(period, closes);
      assert closes[1..] == closes[..n][1..] + [closes[n]];
      WeightedOneMore(closes[0], closes[..n][1..], closes[n], alpha);
    }
  }

  /** The fast average less the slow one, bar by bar. */
  function Difs(closes: seq<real>): (difs: seq<real>)
    ensures |difs| == |closes|
    ensures forall i :: 0 <= i < |closes| ==> difs[i] == EmaOf(12, closes[..i + 1]) - EmaOf(26, closes[..i + 1])
  {
    seq(|closes|, i requires 0 <= i < |closes| => EmaOf(12, closes[..i + 1]) - EmaOf(26, closes[..i + 1]))
  }

  lemma {:induction false} DifsOfFront(closes: seq<real>)
    requires closes != []
    ensures Difs(closes) == Difs(closes[..|closes| - 1]) + [EmaOf(12, closes) - EmaOf(26, closes)]
  {
    var n := |closes| - 1;
    assert closes[..n + 1] == closes;
    forall i | 0 <= i < n ensures Difs(closes)[i] == Difs(closes[..n])[i] {
      assert closes[..n][..i + 1] == closes[..i + 1];
    }
  }

  lemma {:induction false} DeaAfter(closes: seq<real>)
    requires |closes| > 1
    ensures DeaOf(closes) ==
            Times(DeaOf(closes[..|closes| - 1]), 1.0 - 0.2) + 0.2 * (EmaOf(12, closes) - EmaOf(26, closes))
  {
  }

  lemma {:induction false} DeaIsWeighted(closes: seq<real>)
    requires closes != []
    ensures DeaOf(closes) == Weighted(Difs(closes)[0], Difs(closes)[1..], 0.2)
  {
    var n, difs := |closes| - 1, Difs(closes);
    DifsOfFront(closes);
    if n == 0 {
      assert closes[..1] == closes && difs[1..] == [];
      WeightedNothing(difs[0], 0.2);
    } else {
      var front := Difs(closes[..n]);
      DeaIsWeighted(closes[..n]);
      assert difs[1..] == front[1..] + [difs[n]] && difs[0] == front[0];
      WeightedOneMore(front[0], front[1..], difs[n], 0.2);
      DeaAfter(closes);
    }
  }

  /** The price a bar counts with: its own, or the close when it is missing or zero. */
  function PriceOr(price: Option<real>, close: real): (p: real)
    ensures price.Some? && price.value > 0.0 ==> p == price.value
    ensures price == None || price == Some(0.0) ==> p == close
  {
    OrClose(price, close)
  }

  function From(bars: seq<Bar>, n: nat): nat { if |bars| <= n then 0 else |bars| - n }

  /** `hi` and `lo` are the extremes of the last nine bars. */
  ghost predicate NineBarRange(bars: seq<Bar>, lo: real, hi: real)
  {
    && (forall i :: From(bars, 9) <= i < |bars| ==> PriceOr(bars[i].high, bars[i].close) <= hi)
    && (exists i :: From(bars, 9) <= i < |bars| && PriceOr(bars[i].high, bars[i].close) == hi)
    && (forall i :: From(bars, 9) <= i < |bars| ==> lo <= PriceOr(bars[i].low, bars[i].close))
    && (exists i :: From(bars, 9) <= i < |bars| && PriceOr(bars[i].low, bars[i].close) == lo)
  }

  lemma {:induction false} ExtremeIs(s: seq<real>, x: real)
    requires s != [] && x in s
    ensures (forall i :: 0 <= i < |s| ==> s[i] <= x) ==> MaxOf(s) == x
    ensures (forall i :: 0 <= i < |s| ==> x <= s[i]) ==> MinOf(s) == x
  {
    MaxOfIs(s);
    MinOfIs(s);
  }

  lemma {:induction false} LastNine(bars: seq<Bar>, j: nat)
    requires From(bars, 9) + j < |bars|
    ensures var i, b := From(bars, 9) + j, bars[From(bars, 9) + j];
            && |Last(Highs(bars), 9)| == |Last(Lows(bars), 9)| == |bars| - From(bars, 9)
            && Last(Highs(bars), 9)[j] == PriceOr(b.high, b.close) && Last(Lows(bars), 9)[j] == PriceOr(b.low, b.close)
  {
    LastAt(Highs(bars), 9, j);
    LastAt(Lows(bars), 9, j);
  }

  lemma {:induction false} NineBarHigh(bars: seq<Bar>, lo: real, hi: real)
    requires bars != [] && NineBarRange(bars, lo, hi)
    ensures MaxOf(Last(Highs(bars), 9)) == hi
  {
    var from, highs := From(bars, 9), Last(Highs(bars), 9);
    LastNine(bars, 0);
    forall j | 0 <= j < |highs| ensures highs[j] <= hi { LastNine(bars, j); }
    var h :| from <= h < |bars| && PriceOr(bars[h].high, bars[h].close) == hi;
    LastNine(bars, h - from);
    ExtremeIs(highs, hi);
  }

  lemma {:induction false} NineBarLow(bars: seq<Bar>, lo: real, hi: real)
    requires bars != [] && NineBarRange(bars, lo, hi)
    ensures MinOf(Last(Lows(bars), 9)) == lo
  {
    var from, lows := From(bars, 9), Last(Lows(bars), 9);
    LastNine(bars, 0);
    forall j | 0 <= j < |lows| ensures lo <= lows[j] { LastNine(bars, j); }
    var l :| from <= l < |bars| && PriceOr(bars[l].low, bars[l].close) == lo;
    LastNine(bars, l - from);
    ExtremeIs(lows, lo);
  }

  /** The stochastic places the close in percent of the nine-bar range. */
  lemma {:induction false} RsvMeaning(bars: seq<Bar>, lo: real, hi: real)
    requires bars != [] && NineBarRange(bars, lo, hi)
    ensures Rsv(bars) == if hi == lo then 50.0 else (bars[|bars| - 1].close - lo) / (hi - lo) * 100.0
  {
    NineBarHigh(bars, lo, hi);
    NineBarLow(bars, lo, hi);
  }

  /** The stochastic at bar `i`. */
  function RsvAt(bars: seq<Bar>, i: nat): real
    requires i < |bars|
  {
    Rsv(bars[..i + 1])
  }

  function Rsvs(bars: seq<Bar>): (s: seq<real>)
    ensures |s| == |bars| && forall i :: 0 <= i < |bars| ==> s[i] == RsvAt(bars, i)
  {
    seq(|bars|, i requires 0 <= i < |bars| => RsvAt(bars, i))
  }

  function Ks(bars: seq<Bar>): (s: seq<real>)
    ensures |s| == |bars| && forall i :: 0 <= i < |bars| ==> s[i] == K(bars[..i + 1])
  {
    seq(|bars|, i requires 0 <= i < |bars| => K(bars[..i + 1]))
  }

  lemma {:induction false} SmoothIsThird(seed: real, xs: seq<real>, x: real)
    ensures Smooth(Weighted(seed, xs, 1.0 / 3.0), x) == Weighted(seed, xs + [x], 1.0 / 3.0)
  {
    WeightedOneMore(seed, xs, x, 1.0 / 3.0);
  }

  lemma {:induction false} RsvOfFront(bars: seq<Bar>, n: nat, i: nat)
    requires i < n <= |bars|
    ensures RsvAt(bars[..n], i) == RsvAt(bars, i)
  {
    assert bars[..n][..i + 1] == bars[..i + 1];
  }

  lemma {:induction false} RsvsOneMore(bars: seq<Bar>)
    requires bars != []
    ensures Rsvs(bars) == Rsvs(bars[..|bars| - 1]) + [Rsv(bars)]
  {
    var n, rsvs, front := |bars| - 1, Rsvs(bars), Rsvs(bars[..|bars| - 1]);
    assert bars[..n + 1] == bars;
    forall i | 0 <= i < n ensures rsvs[i] == front[i] { RsvOfFront(bars, n, i); }
    assert rsvs == front + [rsvs[n]];
  }

  lemma {:induction false} KsAt(bars: seq<Bar>, n: nat, i: nat)
    requires i < n <= |bars|
    ensures Ks(bars[..n])[i] == Ks(bars)[i]
  {
    assert bars[..n][..i + 1] == bars[..i + 1];
  }

  lemma {:induction false} KsOneMore(bars: seq<Bar>)
    requires bars != []
    ensures Ks(bars) == Ks(bars[..|bars| - 1]) + [K(bars)]
  {
    var n, ks, front := |bars| - 1, Ks(bars), Ks(bars[..|bars| - 1]);
    assert bars[..n + 1] == bars;
    assert ks[n] == K(bars);
    forall i | 0 <= i < n ensures ks[i] == front[i] { KsAt(bars, n, i); }
    assert ks == front + [ks[n]];
  }

  lemma {:induction false} KIsWeighted(bars: seq<Bar>)
    ensures K(bars) == Weighted(50.0, Rsvs(bars), 1.0 / 3.0)
  {
    if bars == [] {
      assert Rsvs(bars) == [];
      WeightedNothing(50.0, 1.0 / 3.0);
    } else {
      var front := bars[..|bars| - 1];
      KIsWeighted(front);
      RsvsOneMore(bars);
      SmoothIsThird(50.0, Rsvs(front), Rsv(bars));
    }
  }

  lemma {:induction false} DIsWeighted(bars: seq<Bar>)
    ensures D(bars) == Weighted(50.0, Ks(bars), 1.0 / 3.0)
  {
    if bars == [] {
      assert Ks(bars) == [];
      WeightedNothing(50.0, 1.0 / 3.0);
    } else {
      var front := bars[..|bars| - 1];
      DIsWeighted(front);
      KsOneMore(bars);
      SmoothIsThird(50.0, Ks(front), K(bars));
    }
  }

  /** The EMA and MACD columns: an EMA weighs each close by 2/(p+1) and its age, starting from the first;
      the MACD is twice the gap between the 12/26 difference and the nine-bar average of that. */
  lemma {:induction false} MacdMeans(bars: seq<Bar>, root: real -> real, period: Period)
    requires bars != []
    ensures forall i :: 0 <= i < |bars| ==> Closes(bars)[i] == bars[i].close
    ensures CoreValue(Ema(period), bars, root) ==
            Weighted(Closes(bars)[0], Closes(bars)[1..], 2.0 / (period as real + 1.0))
    ensures var dif, dea := CoreValue(MacdDif, bars, root), CoreValue(MacdDea, bars, root);
            && dif == CoreValue(Ema(12), bars, root) - CoreValue(Ema(26), bars, root)
            && dea == Weighted(Difs(Closes(bars))[0], Difs(Closes(bars))[1..], 0.2)
            && CoreValue(Macd, bars, root) == 2.0 * (dif - dea)
  {
    EmaIsWeighted(period, Closes(bars));
    DeaIsWeighted(Closes(bars));
  }

  /** K and D move a third of the way to the stochastic and to K, starting from 50; J is three times K
      less twice D. */
  lemma {:induction false} KdjMeans(bars: seq<Bar>, root: real -> real)
    requires bars != []
    ensures var k, d := CoreValue(KdjK, bars, root), CoreValue(KdjD, bars, root);
            && k == Weighted(50.0, Rsvs(bars), 1.0 / 3.0) && d == Weighted(50.0, Ks(bars), 1.0 / 3.0)
            && CoreValue(KdjJ, bars, root) == 3.0 * k - 2.0 * d
  {
    KIsWeighted(bars);
    DIsWeighted(bars);
  }

  // ----- the windowed columns

  /** The rises, or the falls, over the last `n` bars, one after the other. */
  function Moves(bars: seq<Bar>, n: nat, up: bool): (s: seq<real>)
    ensures |s| == |bars| - From(bars, n)
  {
    var from := From(bars, n);
    seq(|bars| - from, j requires 0 <= j < |bars| - from => Move(bars, from + j, up))
  }

  function Move(bars: seq<Bar>, i: nat, up: bool): (m: real)
    requires i < |bars|
    ensures m >= 0.0
    ensures i == 0 ==> m == 0.0
  {
    if i == 0 then 0.0
    else if up && bars[i].close > bars[i - 1].close then bars[i].close - bars[i - 1].close
    else if !up && bars[i].close < bars[i - 1].close then bars[i - 1].close - bars[i].close
    else 0.0
  }

  lemma {:induction false} LastAt(s: seq<real>, n: nat, j: nat)
    requires j < |Last(s, n)|
    ensures |Last(s, n)| <= |s| && Last(s, n)[j] == s[|s| - |Last(s, n)| + j]
  {
  }

  lemma {:induction false} MoveIsChange(bars: seq<Bar>, i: nat)
    requires i < |bars|
    ensures Gains(bars)[i] == Move(bars, i, true) && Losses(bars)[i] == Move(bars, i, false)
  {
  }

  lemma {:induction false} MovesAt(bars: seq<Bar>, n: nat, j: nat)
    requires From(bars, n) + j < |bars|
    ensures |Last(Gains(bars), n)| == |Last(Losses(bars), n)| == |bars| - From(bars, n)
    ensures Moves(bars, n, true)[j] == Last(Gains(bars), n)[j] && Moves(bars, n, false)[j] == Last(Losses(bars), n)[j]
  {
    LastAt(Gains(bars), n, j);
    LastAt(Losses(bars), n, j);
    MoveIsChange(bars, From(bars, n) + j);
  }

  lemma {:induction false} MovesAreChanges(bars: seq<Bar>, n: nat)
    requires bars != [] && n > 0
    ensures Moves(bars, n, true) == Last(Gains(bars), n) && Moves(bars, n, false) == Last(Losses(bars), n)
  {
    var gains, losses := Last(Gains(bars), n), Last(Losses(bars), n);
    var ups, downs := Moves(bars, n, true), Moves(bars, n, false);
    MovesAt(bars, n, 0);
    forall j | 0 <= j < |gains| ensures ups[j] == gains[j] && downs[j] == losses[j] { MovesAt(bars, n, j); }
    assert ups == gains && downs == losses;
  }

  lemma {:induction false} MeanTimesCount(s: seq<real>)
    requires s != []
    ensures Mean(s) * (|s| as real) == Sum(s)
  {
  }

  lemma {:induction false} RsiFromMeaning(gain: real, loss: real)
    requires gain >= 0.0 && loss >= 0.0
    ensures RsiFrom(gain, loss) * (gain + loss) == 100.0 * gain
    ensures gain == loss ==> RsiFrom(gain, loss) == 50.0
  {
    if loss > 0.0 {
      QuotientNonNegative(gain, loss);
      var rs := gain / loss;
      assert rs * loss == gain;
      var share := 100.0 / (1.0 + rs);
      assert share * (1.0 + rs) == 100.0;
      assert share * (gain + loss) == share * ((1.0 + rs) * loss) == (share * (1.0 + rs)) * loss == 100.0 * loss;
      if gain == loss { DivUnique(gain, loss, 1.0); }
    }
  }

  /** RSI is the share of the rises in all movement over the last bars, in percent; 50 without any. */
  lemma {:induction false} RsiMeans(bars: seq<Bar>, root: real -> real, period: Period)
    requires bars != []
    ensures var rise, fall := Mean(Moves(bars, period, true)), Mean(Moves(bars, period, false));
            && CoreValue(Rsi(period), bars, root) * (rise + fall) == 100.0 * rise
            && (rise == fall ==> CoreValue(Rsi(period), bars, root) == 50.0)
  {
    MovesAreChanges(bars, period);
    var gains, losses := Last(Gains(bars), period), Last(Losses(bars), period);
    MeanNonNegative(gains);
    MeanNonNegative(losses);
    var gain, loss := Mean(gains), Mean(losses);
    RsiFromMeaning(gain, loss);
    assert CoreValue(Rsi(period), bars, root) == RsiFrom(gain, loss);
  }

  /** The true range of a bar: how far it and the close before it reach. */
  function Reach(bars: seq<Bar>, i: nat): real
    requires i < |bars|
  {
    var high, low := PriceOr(bars[i].high, bars[i].close), PriceOr(bars[i].low, bars[i].close);
    if i == 0 then high - low
    else
      (if bars[i - 1].close > high then bars[i - 1].close else high) -
      (if bars[i - 1].close < low then bars[i - 1].close else low)
  }

  function Reaches(bars: seq<Bar>, n: nat): (s: seq<real>)
    ensures |s| == |bars| - From(bars, n)
  {
    var from := From(bars, n);
    seq(|bars| - from, j requires 0 <= j < |bars| - from => Reach(bars, from + j))
  }

  ghost predicate LowUnderHigh(bar: Bar) { PriceOr(bar.low, bar.close) <= PriceOr(bar.high, bar.close) }

  lemma {:induction false} RangeAt(bars: seq<Bar>, n: nat, j: nat)
    requires From(bars, n) + j < |bars| && LowUnderHigh(bars[From(bars, n) + j])
    ensures |Last(TrueRanges(bars), n)| == |bars| - From(bars, n)
    ensures Last(TrueRanges(bars), n)[j] == Reaches(bars, n)[j]
  {
    LastAt(TrueRanges(bars), n, j);
    RangeIsReach(bars, From(bars, n) + j);
  }

  lemma {:induction false} RangeIsReach(bars: seq<Bar>, i: nat)
    requires i < |bars| && LowUnderHigh(bars[i])
    ensures TrueRanges(bars)[i] == Reach(bars, i)
  {
  }

  lemma {:induction false} RangesAreReaches(bars: seq<Bar>, n: nat)
    requires bars != [] && n > 0 && forall i :: 0 <= i < |bars| ==> LowUnderHigh(bars[i])
    ensures Last(TrueRanges(bars), n) == Reaches(bars, n)
  {
    var from, ranges, reaches := From(bars, n), Last(TrueRanges(bars), n), Reaches(bars, n);
    assert LowUnderHigh(bars[from]);
    RangeAt(bars, n, 0);
    forall j | 0 <= j < |ranges| ensures ranges[j] == reaches[j] {
      assert LowUnderHigh(bars[from + j]);
      RangeAt(bars, n, j);
    }
    assert ranges == reaches;
  }

  /** The ATR averages the true ranges of the last fourteen bars. */
  lemma {:induction false} AtrMeans(bars: seq<Bar>, root: real -> real)
    requires bars != [] && forall i :: 0 <= i < |bars| ==> LowUnderHigh(bars[i])
    ensures CoreValue(Atr, bars, root) == Mean(Reaches(bars, 14))
  {
    RangesAreReaches(bars, 14);
  }

  function LastCloses(bars: seq<Bar>, n: nat): (s: seq<real>)
    ensures |s| == |bars| - From(bars, n)
  {
    var from := From(bars, n);
    seq(|bars| - from, j requires 0 <= j < |bars| - from => bars[from + j].close)
  }

  function Squares(s: seq<real>, middle: real): (t: seq<real>)
    ensures |t| == |s| && forall i :: 0 <= i < |s| ==> t[i] == Times(s[i] - middle, s[i] - middle)
  {
    seq(|s|, i requires 0 <= i < |s| => Times(s[i] - middle, s[i] - middle))
  }

  /** The middle band is the average of the last twenty closes; the others lie two population standard
      deviations above and below it. */
  lemma {:induction false} BandsMean(bars: seq<Bar>, root: real -> real)
    requires bars != [] && IsRoot(root)
    ensures var closes, mid := LastCloses(bars, 20), CoreValue(BollMid, bars, root);
            var upper := CoreValue(BollUpper, bars, root);
            && mid == Mean(closes)
            && upper >= mid && Times(upper - mid, upper - mid) == 4.0 * Mean(Squares(closes, mid))
            && mid - CoreValue(BollLower, bars, root) == upper - mid
  {
    var closes := Last(Closes(bars), 20);
    CloseWindow(bars, 20);
    assert Deviations(closes, Mean(closes)) == Squares(closes, Mean(closes));
    TwoRoots(root, Variance(closes));
    var r := root(Variance(closes));
    assert CoreValue(BollUpper, bars, root) - CoreValue(BollMid, bars, root) == 2.0 * r;
  }

  lemma {:induction false} CloseWindow(bars: seq<Bar>, n: nat)
    ensures Last(Closes(bars), n) == LastCloses(bars, n)
  {
    forall j | 0 <= j < |bars| - From(bars, n) ensures Last(Closes(bars), n)[j] == LastCloses(bars, n)[j] {
      assert Last(Closes(bars), n)[j] == Closes(bars)[From(bars, n) + j];
    }
  }

  lemma {:induction false} TwoRoots(root: real -> real, v: real)
    requires IsRoot(root) && v >= 0.0
    ensures root(v) >= 0.0 && Times(2.0 * root(v), 2.0 * root(v)) == 4.0 * v
  {
    var r := root(v);
    assert r * r == v;
    assert (2.0 * r) * (2.0 * r) == 4.0 * (r * r);
  }

  ghost predicate Listed(c: Column)
  {
    match c
    case Ema(p) => p in {5, 10, 20, 30, 60, 90, 250}
    case Rsi(p) => p in {6, 12, 14, 24}
    case _ => true
  }

  lemma {:induction false} ListedColumns(c: Column)
    ensures c in CORE_COLUMNS <==> Listed(c)
  {
  }

  /** A row has the seven EMAs, the four RSIs and every other column, each as above. */
  lemma {:induction false} RowColumns(bars: seq<Bar>, root: real -> real, c: Column)
    requires bars != []
    ensures c in Core(bars, root) <==> Listed(c)
    ensures c in Core(bars, root) ==> Core(bars, root)[c] == CoreValue(c, bars, root)
  {
    ListedColumns(c);
  }
}
