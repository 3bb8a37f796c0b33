/** What every reachable state of the indicator loop satisfies: EMAs stay inside the range of the
    closes and forget their seed geometrically; oscillators and bands stay inside their scales. */
module IndicatorBounds {
  import opened Windows
  import opened TechnicalCore

  // ----- EMA

  lemma {:induction false} AlphaRange(period: Period)
    ensures 0.0 < Alpha(period) <= 1.0
  {
    var n := (period + 1) as real;
    assert n >= 2.0;
    RatioAtMostOne(2.0, n);
  }

  lemma {:induction false} RatioAtMostOne(a: real, b: real)
    requires 0.0 <= a <= b && b > 0.0
    ensures 0.0 <= a / b <= 1.0
    ensures a > 0.0 ==> a / b > 0.0
  {
    QuotientBounds(a, b, 0.0, 1.0);
    assert (a / b) * b == a;
  }

  lemma {:induction false} BlendBetween(x: real, previous: real, alpha: real, lo: real, hi: real)
    requires 0.0 <= alpha <= 1.0 && lo <= x <= hi && lo <= previous <= hi
    ensures lo <= Blend(x, previous, alpha) <= hi
  {
    assert (x - lo) * alpha >= 0.0 && (previous - lo) * (1.0 - alpha) >= 0.0;
    assert (hi - x) * alpha >= 0.0 && (hi - previous) * (1.0 - alpha) >= 0.0;
    assert Blend(x, previous, alpha) - lo == (x - lo) * alpha + (previous - lo) * (1.0 - alpha);
    assert hi - Blend(x, previous, alpha) == (hi - x) * alpha + (hi - previous) * (1.0 - alpha);
  }

  lemma {:induction false} EmaBetween(period: Period, closes: seq<real>, lo: real, hi: real)
    requires closes != []
    requires forall i :: 0 <= i < |closes| ==> lo <= closes[i] <= hi
    ensures lo <= EmaOf(period, closes) <= hi
  {
    var n := |closes| - 1;
    if n > 0 {
      EmaBetween(period, closes[..n], lo, hi);
      AlphaRange(period);
      BlendBetween(closes[n], EmaOf(period, closes[..n]), Alpha(period), lo, hi);
    }
  }

  /** Every EMA lies between the smallest and the largest close of its prefix. */
  lemma {:induction false} EmaWithinCloses(period: Period, closes: seq<real>)
    requires closes != []
    ensures MinOf(closes) <= EmaOf(period, closes) <= MaxOf(closes)
  {
    MinOfIs(closes);
    MaxOfIs(closes);
    EmaBetween(period, closes, MinOf(closes), MaxOf(closes));
  }

  function Pow(x: real, n: nat): real { if n == 0 then 1.0 else Times(x, Pow(x, n - 1)) }

  lemma {:induction false} BlendGap(x: real, p: real, q: real, alpha: real)
    ensures Blend(x, p, alpha) - Blend(x, q, alpha) == Times(1.0 - alpha, p - q)
  {
  }

  /** Two histories that share their last `|shared|` bars: the gap between their EMAs shrinks by
      exactly `1 - 2/(period+1)` per shared bar. */
  lemma {:induction false} EmaForgetting(period: Period, a: seq<real>, b: seq<real>, shared: seq<real>)
    requires a != [] && b != []
    ensures EmaOf(period, a + shared) - EmaOf(period, b + shared)
         == Times(Pow(1.0 - Alpha(period), |shared|), EmaOf(period, a) - EmaOf(period, b))
  {
    if shared == [] {
      assert a + shared == a && b + shared == b;
    } else {
      var n := |shared| - 1;
      var front, x := shared[..n], shared[n];
      EmaForgetting(period, a, b, front);
      assert (a + shared)[..|a| + n] == a + front && (b + shared)[..|b| + n] == b + front;
      BlendGap(x, EmaOf(period, a + front), EmaOf(period, b + front), Alpha(period));
      TimesAssociative(1.0 - Alpha(period), Pow(1.0 - Alpha(period), n), EmaOf(period, a) - EmaOf(period, b));
    }
  }

  lemma {:induction false} TimesAssociative(x: real, y: real, z: real)
    ensures Times(x, Times(y, z)) == Times(Times(x, y), z)
  {
  }

  // ----- KDJ

  ghost predicate Ordered(bars: seq<Bar>)
  {
    forall i :: 0 <= i < |bars| ==> Low(bars[i]) <= bars[i].close <= High(bars[i])
  }

  lemma {:induction false} StochasticRange(close: real, high9: real, low9: real)
    requires low9 <= close <= high9
    ensures 0.0 <= Stochastic(close, high9, low9) <= 100.0
  {
    if high9 != low9 {
      RatioAtMostOne(close - low9, high9 - low9);
    }
  }

  lemma {:induction false} RsvRange(bars: seq<Bar>)
    requires bars != [] && Ordered(bars)
    ensures 0.0 <= Rsv(bars) <= 100.0
  {
    var highs, lows := Last(Highs(bars), 9), Last(Lows(bars), 9);
    var last := bars[|bars| - 1];
    assert highs[|highs| - 1] == High(last) && lows[|lows| - 1] == Low(last);
    MaxOfIs(highs);
    MinOfIs(lows);
    StochasticRange(last.close, MaxOf(highs), MinOf(lows));
  }

  /** K and D stay in [0, 100] and J in [-400/3, 700/3] on every prefix of an ordered series. */
  lemma {:induction false} KdjRange(bars: seq<Bar>)
    requires Ordered(bars)
    ensures 0.0 <= K(bars) <= 100.0 && 0.0 <= D(bars) <= 100.0
    ensures bars != [] ==> -400.0 / 3.0 <= KdjValue(KdjJ, K(bars), D(bars)) <= 700.0 / 3.0
  {
    if bars != [] {
      KdjRange(bars[..|bars| - 1]);
      RsvRange(bars);
    }
  }

  /** With a proper nine-bar range the stochastic is in [0, 100] exactly when the close lies inside it. */
  lemma {:induction false} StochasticInRangeExactly(close: real, high9: real, low9: real)
    requires low9 < high9
    ensures 0.0 <= Stochastic(close, high9, low9) <= 100.0 <==> low9 <= close <= high9
  {
    var width := high9 - low9;
    var q := (close - low9) / width;
    assert q * width == close - low9;
    ScaleOrder(0.0, q, width);
    ScaleOrder(q, 1.0, width);
  }

  /** K stays in [0, 100] exactly when the stochastic of the bar leaves it there: each bar may overshoot
      by twice the room that K has left, so a close outside its range need not push K out. */
  lemma {:induction false} KInRangeExactly(bars: seq<Bar>)
    requires bars != []
    ensures var previous := K(bars[..|bars| - 1]);
            0.0 <= K(bars) <= 100.0 <==> -2.0 * previous <= Rsv(bars) <= 300.0 - 2.0 * previous
    ensures |bars| == 1 ==> (0.0 <= K(bars) <= 100.0 <==> -100.0 <= Rsv(bars) <= 200.0)
  {
    if |bars| == 1 { assert bars[..0] == []; }
  }

  lemma {:induction false} StochasticOvershoot(close: real, high9: real, low9: real)
    requires low9 < high9
    ensures -100.0 <= Stochastic(close, high9, low9) <= 200.0 <==>
            low9 - (high9 - low9) <= close <= high9 + (high9 - low9)
  {
    var width := high9 - low9;
    var q := (close - low9) / width;
    assert Stochastic(close, high9, low9) == q * 100.0;
    assert q * width == close - low9 && (-1.0) * width == low9 - high9 && 2.0 * width == width + width;
    ScaleOrder(-1.0, q, width);
    ScaleOrder(q, 2.0, width);
    assert -1.0 <= q <==> low9 - high9 <= close - low9;
    assert q <= 2.0 <==> close - low9 <= width + width;
  }

  lemma {:induction false} FirstRsv(b: Bar)
    ensures Rsv([b]) == Stochastic(b.close, High(b), Low(b))
  {
    assert Last(Highs([b]), 9) == [High(b)] && Last(Lows([b]), 9) == [Low(b)];
    assert MaxOf([High(b)]) == High(b) && MinOf([Low(b)]) == Low(b);
  }

  /** The first bar in prices: with low < high, K stays in [0, 100] exactly when the close is no more
      than one range width outside. */
  lemma {:induction false} FirstBarInRangeExactly(b: Bar)
    requires Low(b) < High(b)
    ensures 0.0 <= K([b]) <= 100.0 <==> Low(b) - (High(b) - Low(b)) <= b.close <= High(b) + (High(b) - Low(b))
  {
    KInRangeExactly([b]);
    FirstRsv(b);
    StochasticOvershoot(b.close, High(b), Low(b));
  }

  // ----- RSI, Bollinger, ATR

  lemma {:induction false} RsiFromRange(avgGain: real, avgLoss: real)
    requires avgGain >= 0.0 && avgLoss > 0.0
    ensures avgGain / avgLoss >= 0.0
    ensures 0.0 <= 100.0 - 100.0 / (1.0 + avgGain / avgLoss) < 100.0
  {
    QuotientNonNegative(avgGain, avgLoss);
    var rs := avgGain / avgLoss;
    RatioAtMostOne(1.0, 1.0 + rs);
    var q := 1.0 / (1.0 + rs);
    assert 100.0 / (1.0 + rs) == 100.0 * q by { DivUnique(100.0, 1.0 + rs, 100.0 * q); }
  }

  lemma {:induction false} RsiRange(gains: seq<real>, losses: seq<real>, period: Period)
    requires gains != [] && losses != []
    requires forall i :: 0 <= i < |gains| ==> gains[i] >= 0.0
    requires forall i :: 0 <= i < |losses| ==> losses[i] >= 0.0
    ensures 0.0 <= RsiOf(gains, losses, period) <= 100.0
  {
    var avgGain, avgLoss := Mean(Last(gains, period)), Mean(Last(losses, period));
    MeanNonNegative(Last(gains, period));
    MeanNonNegative(Last(losses, period));
    if avgLoss != 0.0 { RsiFromRange(avgGain, avgLoss); }
  }

  lemma {:induction false} AtrNonNegative(bars: seq<Bar>)
    requires bars != [] && Ordered(bars)
    ensures Mean(Last(TrueRanges(bars), 14)) >= 0.0
  {
    var ranges := Last(TrueRanges(bars), 14);
    forall i | 0 <= i < |ranges| ensures ranges[i] >= 0.0 {
      var k := |bars| - |ranges| + i;
      assert Low(bars[k]) <= bars[k].close <= High(bars[k]);
      assert ranges[i] == TrueRange(High(bars[k]), Low(bars[k]), PreviousClose(bars, k));
    }
    MeanNonNegative(ranges);
  }

  ghost predicate InRange(c: Column, value: real)
  {
    match c
    case KdjK => 0.0 <= value <= 100.0
    case KdjD => 0.0 <= value <= 100.0
    case KdjJ => -400.0 / 3.0 <= value <= 700.0 / 3.0
    case Rsi(_) => 0.0 <= value <= 100.0
    case Atr => value >= 0.0
    case _ => true
  }

  /** Every emitted oscillator and the ATR are in range on a series with low <= close <= high. */
  lemma {:induction false} ColumnsInRange(c: Column, bars: seq<Bar>, root: real -> real)
    requires bars != [] && Ordered(bars)
    ensures InRange(c, CoreValue(c, bars, root))
  {
    match c
    case KdjK => KdjRange(bars);
    case KdjD => KdjRange(bars);
    case KdjJ => KdjRange(bars);
    case Rsi(p) => RsiRange(Gains(bars), Losses(bars), p);
    case Atr => AtrNonNegative(bars);
    case _ =>
  }

  /** The bands are ordered on every series, whatever its prices. */
  lemma {:induction false} BandsOrdered(bars: seq<Bar>, root: real -> real)
    requires bars != [] && IsRoot(root)
    ensures CoreValue(BollLower, bars, root) <= CoreValue(BollMid, bars, root) <= CoreValue(BollUpper, bars, root)
  {
    assert root(Variance(Last(Closes(bars), 20))) >= 0.0;
  }
}
