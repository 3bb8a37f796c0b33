/** The rebase multiplies the price-dimensional columns of a stored row by one scale. This equals
    recomputing the row on the new adjustment basis, column by column. */
module RebaseRecompute {
  import opened Wrappers
  import opened Windows
  import opened SqlWindows
  import opened TechnicalCore
  import opened FactorRow

  // ----- the technical core on a scaled series

  function ScaleBar(b: Bar, k: real): Bar
  {
    Bar(b.date, ScaleOption(b.high, k), ScaleOption(b.low, k), Times(b.close, k))
  }

  function ScaleBars(bars: seq<Bar>, k: real): (s: seq<Bar>)
    ensures |s| == |bars| && forall i :: 0 <= i < |bars| ==> s[i] == ScaleBar(bars[i], k)
  {
    seq(|bars|, i requires 0 <= i < |bars| => ScaleBar(bars[i], k))
  }

  lemma {:induction false} TimesFacts(a: real, b: real, k: real)
    requires k > 0.0
    ensures Times(a, k) - Times(b, k) == Times(a - b, k) && -Times(a, k) == Times(-a, k) && Times(0.0, k) == 0.0
    ensures Times(a, k) == 0.0 <==> a == 0.0
    ensures Times(a, k) < 0.0 <==> a < 0.0
    ensures Abs(Times(a, k)) == Times(Abs(a), k)
  {
    ScaleOrder(a, 0.0, k);
    ScaleOrder(0.0, a, k);
  }

  lemma {:induction false} OrCloseScales(price: Option<real>, close: real, k: real)
    requires k > 0.0
    ensures OrClose(ScaleOption(price, k), Times(close, k)) == Times(OrClose(price, close), k)
  {
    if price.Some? { TimesFacts(price.value, 0.0, k); }
  }

  lemma {:induction false} ChangeScales(bars: seq<Bar>, i: nat, k: real)
    requires i < |bars| && k > 0.0
    ensures Change(ScaleBars(bars, k), i) == Times(Change(bars, i), k)
  {
    if i > 0 { TimesFacts(bars[i].close, bars[i - 1].close, k); }
  }

  lemma {:induction false} GainScales(change: real, k: real)
    requires k > 0.0
    ensures Max(Times(change, k), 0.0) == Times(Max(change, 0.0), k)
    ensures Max(-Times(change, k), 0.0) == Times(Max(-change, 0.0), k)
  {
    MaxMinScale(change, 0.0, k);
    MaxMinScale(-change, 0.0, k);
    TimesFacts(change, 0.0, k);
  }

  lemma {:induction false} TrueRangeScales(high: real, low: real, p: Option<real>, k: real)
    requires k > 0.0
    ensures TrueRange(Times(high, k), Times(low, k), ScaleOption(p, k)) == Times(TrueRange(high, low, p), k)
  {
    TimesFacts(high, low, k);
    if p.Some? {
      TimesFacts(high, p.value, k);
      TimesFacts(low, p.value, k);
      TimesFacts(high - p.value, 0.0, k);
      TimesFacts(low - p.value, 0.0, k);
      MaxMinScale(Abs(high - p.value), Abs(low - p.value), k);
      MaxMinScale(high - low, Max(Abs(high - p.value), Abs(low - p.value)), k);
    }
  }

  lemma {:induction false} PriceSeriesScale(bars: seq<Bar>, k: real)
    requires k > 0.0
    ensures Closes(ScaleBars(bars, k)) == Scale(Closes(bars), k)
    ensures Highs(ScaleBars(bars, k)) == Scale(Highs(bars), k)
    ensures Lows(ScaleBars(bars, k)) == Scale(Lows(bars), k)
  {
    forall i | 0 <= i < |bars|
      ensures High(ScaleBars(bars, k)[i]) == Times(High(bars[i]), k)
      ensures Low(ScaleBars(bars, k)[i]) == Times(Low(bars[i]), k)
    {
      OrCloseScales(bars[i].high, bars[i].close, k);
      OrCloseScales(bars[i].low, bars[i].close, k);
    }
  }

  lemma {:induction false} ChangeSeriesScale(bars: seq<Bar>, k: real)
    requires k > 0.0
    ensures Gains(ScaleBars(bars, k)) == Scale(Gains(bars), k)
    ensures Losses(ScaleBars(bars, k)) == Scale(Losses(bars), k)
  {
    forall i | 0 <= i < |bars|
      ensures Max(Change(ScaleBars(bars, k), i), 0.0) == Times(Max(Change(bars, i), 0.0), k)
      ensures Max(-Change(ScaleBars(bars, k), i), 0.0) == Times(Max(-Change(bars, i), 0.0), k)
    {
      ChangeScales(bars, i, k);
      GainScales(Change(bars, i), k);
    }
  }

  lemma {:induction false} TrueRangesScale(bars: seq<Bar>, k: real)
    requires k > 0.0
    ensures TrueRanges(ScaleBars(bars, k)) == Scale(TrueRanges(bars), k)
  {
    forall i | 0 <= i < |bars|
      ensures TrueRanges(ScaleBars(bars, k))[i] == Times(TrueRanges(bars)[i], k)
    {
      OrCloseScales(bars[i].high, bars[i].close, k);
      OrCloseScales(bars[i].low, bars[i].close, k);
      assert PreviousClose(ScaleBars(bars, k), i) == ScaleOption(PreviousClose(bars, i), k);
      TrueRangeScales(High(bars[i]), Low(bars[i]), PreviousClose(bars, i), k);
    }
  }

  lemma {:induction false} BlendScales(x: real, p: real, alpha: real, k: real)
    ensures Blend(Times(x, k), Times(p, k), alpha) == Times(Blend(x, p, alpha), k)
  {
  }

  lemma {:induction false} EmaScales(period: Period, closes: seq<real>, k: real)
    requires closes != []
    ensures EmaOf(period, Scale(closes, k)) == Times(EmaOf(period, closes), k)
  {
    var n := |closes| - 1;
    if n > 0 {
      EmaScales(period, closes[..n], k);
      assert Scale(closes, k)[..n] == Scale(closes[..n], k);
      BlendScales(closes[n], EmaOf(period, closes[..n]), Alpha(period), k);
    }
  }

  lemma {:induction false} DifScales(closes: seq<real>, k: real)
    requires closes != []
    ensures DifOf(Scale(closes, k)) == Times(DifOf(closes), k)
  {
    EmaScales(12, closes, k);
    EmaScales(26, closes, k);
  }

  lemma {:induction false} DeaScales(closes: seq<real>, k: real)
    requires closes != []
    ensures DeaOf(Scale(closes, k)) == Times(DeaOf(closes), k)
  {
    var n := |closes| - 1;
    DifScales(closes, k);
    if n > 0 {
      DeaScales(closes[..n], k);
      assert Scale(closes, k)[..n] == Scale(closes[..n], k);
      DeaStepScales(DifOf(closes), DeaOf(closes[..n]), k);
    }
  }

  lemma {:induction false} DeaStepScales(dif: real, dea: real, k: real)
    ensures DeaStep(Times(dif, k), Times(dea, k)) == Times(DeaStep(dif, dea), k)
  {
  }

  lemma {:induction false} StochasticInvariant(close: real, high9: real, low9: real, k: real)
    requires k > 0.0
    ensures Stochastic(Times(close, k), Times(high9, k), Times(low9, k)) == Stochastic(close, high9, low9)
  {
    TimesFacts(close, low9, k);
    TimesFacts(high9, low9, k);
    TimesFacts(high9 - low9, 0.0, k);
    if high9 != low9 { RatioScale(close - low9, high9 - low9, k); }
  }

  lemma {:induction false} RsvInvariant(bars: seq<Bar>, k: real)
    requires bars != [] && k > 0.0
    ensures Rsv(ScaleBars(bars, k)) == Rsv(bars)
  {
    PriceSeriesScale(bars, k);
    LastScale(Highs(bars), k, 9);
    LastScale(Lows(bars), k, 9);
    MaxOfScale(Last(Highs(bars), 9), k);
    MaxOfScale(Last(Lows(bars), 9), k);
    StochasticInvariant(bars[|bars| - 1].close, MaxOf(Last(Highs(bars), 9)), MinOf(Last(Lows(bars), 9)), k);
  }

  lemma {:induction false} KdjInvariant(bars: seq<Bar>, k: real)
    requires k > 0.0
    ensures K(ScaleBars(bars, k)) == K(bars) && D(ScaleBars(bars, k)) == D(bars)
  {
    if bars != [] {
      var front := bars[..|bars| - 1];
      KdjInvariant(front, k);
      assert ScaleBars(bars, k)[..|bars| - 1] == ScaleBars(front, k);
      RsvInvariant(bars, k);
    }
  }

  lemma {:induction false} RsiInvariant(gains: seq<real>, losses: seq<real>, period: Period, k: real)
    requires gains != [] && losses != [] && k > 0.0
    requires forall i :: 0 <= i < |gains| ==> gains[i] >= 0.0 && Scale(gains, k)[i] >= 0.0
    requires forall i :: 0 <= i < |losses| ==> losses[i] >= 0.0 && Scale(losses, k)[i] >= 0.0
    ensures RsiOf(Scale(gains, k), Scale(losses, k), period) == RsiOf(gains, losses, period)
  {
    WindowMeanScales(gains, period, k);
    WindowMeanScales(losses, period, k);
    MeanNonNegative(Last(gains, period));
    MeanNonNegative(Last(losses, period));
    RsiFromInvariant(Mean(Last(gains, period)), Mean(Last(losses, period)), k);
  }

  lemma {:induction false} RsiFromInvariant(g: real, l: real, k: real)
    requires k > 0.0 && g >= 0.0 && l >= 0.0
    ensures Times(g, k) >= 0.0 && Times(l, k) >= 0.0
    ensures RsiFrom(Times(g, k), Times(l, k)) == RsiFrom(g, l)
  {
    TimesFacts(g, 0.0, k);
    TimesFacts(l, 0.0, k);
    if l != 0.0 { RatioScale(g, l, k); }
  }

  lemma {:induction false} WindowMeanScales(s: seq<real>, period: Period, k: real)
    requires s != [] && k > 0.0
    ensures Mean(Last(Scale(s, k), period)) == Times(Mean(Last(s, period)), k)
  {
    LastScale(s, k, period);
    MeanScale(Last(s, period), k);
  }

  lemma {:induction false} RsiColumnInvariant(bars: seq<Bar>, period: Period, k: real)
    requires bars != [] && k > 0.0
    ensures RsiOf(Gains(ScaleBars(bars, k)), Losses(ScaleBars(bars, k)), period) ==
            RsiOf(Gains(bars), Losses(bars), period)
  {
    var scaled := ScaleBars(bars, k);
    ChangeSeriesScale(bars, k);
    assert forall i :: 0 <= i < |bars| ==> Gains(scaled)[i] >= 0.0 && Losses(scaled)[i] >= 0.0;
    RsiInvariant(Gains(bars), Losses(bars), period, k);
  }

  lemma {:induction false} AtrScales(bars: seq<Bar>, k: real)
    requires bars != [] && k > 0.0
    ensures Mean(Last(TrueRanges(ScaleBars(bars, k)), 14)) == Times(Mean(Last(TrueRanges(bars), 14)), k)
  {
    TrueRangesScale(bars, k);
    LastScale(TrueRanges(bars), k, 14);
    MeanScale(Last(TrueRanges(bars), 14), k);
  }

  lemma {:induction false} VarianceScales(s: seq<real>, k: real)
    requires s != []
    ensures Variance(Scale(s, k)) == Times(Variance(s), Times(k, k))
  {
    var m := Mean(s);
    MeanScale(s, k);
    forall i | 0 <= i < |s|
      ensures Deviations(Scale(s, k), Times(m, k))[i] == Times(Deviations(s, m)[i], Times(k, k))
    {
      SquareScales(s[i], m, k);
    }
    assert Deviations(Scale(s, k), Times(m, k)) == Scale(Deviations(s, m), Times(k, k));
    MeanScale(Deviations(s, m), Times(k, k));
  }

  lemma {:induction false} SquareScales(x: real, m: real, k: real)
    ensures Times(Times(x, k) - Times(m, k), Times(x, k) - Times(m, k)) == Times(Times(x - m, x - m), Times(k, k))
  {
  }

  lemma {:induction false} RootScales(v: real, k: real, root: real -> real)
    requires IsRoot(root) && v >= 0.0 && k > 0.0
    ensures root(Times(v, Times(k, k))) == Times(root(v), k)
  {
    var a, w := Times(root(v), k), Times(v, Times(k, k));
    assert k * k > 0.0;
    assert w >= 0.0 && a >= 0.0;
    SquareOfProduct(root(v), k);
    assert root(w) * root(w) == w;
    RootUnique(a, root(w));
  }

  lemma {:induction false} SquareOfProduct(r: real, k: real)
    ensures Times(r, k) * Times(r, k) == Times(r * r, Times(k, k))
  {
  }

  lemma {:induction false} RootUnique(a: real, b: real)
    requires a >= 0.0 && b >= 0.0 && a * a == b * b
    ensures a == b
  {
    if a + b > 0.0 {
      assert a * (a + b) == b * (a + b);
      ScaleOrder(a, b, a + b);
    }
  }

  lemma {:induction false} BandScales(m: real, r: real, k: real)
    ensures Times(m, k) + 2.0 * Times(r, k) == Times(m + 2.0 * r, k)
    ensures Times(m, k) - 2.0 * Times(r, k) == Times(m - 2.0 * r, k)
  {
  }

  lemma {:induction false} BollingerScales(closes: seq<real>, k: real, root: real -> real)
    requires closes != [] && k > 0.0 && IsRoot(root)
    ensures var w, w' := Last(closes, 20), Last(Scale(closes, k), 20);
            && Mean(w') == Times(Mean(w), k)
            && Mean(w') + 2.0 * root(Variance(w')) == Times(Mean(w) + 2.0 * root(Variance(w)), k)
            && Mean(w') - 2.0 * root(Variance(w')) == Times(Mean(w) - 2.0 * root(Variance(w)), k)
  {
    LastScale(closes, k, 20);
    MeanScale(Last(closes, 20), k);
    VarianceScales(Last(closes, 20), k);
    RootScales(Variance(Last(closes, 20)), k, root);
    BandScales(Mean(Last(closes, 20)), root(Variance(Last(closes, 20))), k);
  }

  predicate PriceDimensional(c: Column) { !IsKdj(c) && !c.Rsi? }

  lemma {:induction false} MacdScales(closes: seq<real>, k: real)
    requires closes != []
    ensures var s := Scale(closes, k);
            2.0 * (DifOf(s) - DeaOf(s)) == Times(2.0 * (DifOf(closes) - DeaOf(closes)), k)
  {
    DifScales(closes, k);
    DeaScales(closes, k);
  }

  lemma {:induction false} SeriesValueScales(c: Column, bars: seq<Bar>, k: real, root: real -> real)
    requires bars != [] && k > 0.0 && IsRoot(root) && !IsKdj(c)
    ensures SeriesValue(c, ScaleBars(bars, k), root)
         == if c.Rsi? then SeriesValue(c, bars, root) else Times(SeriesValue(c, bars, root), k)
  {
    var closes := Closes(bars);
    PriceSeriesScale(bars, k);
    match c
    case Ema(p) => EmaScales(p, closes, k);
    case Macd => MacdScales(closes, k);
    case MacdDif => DifScales(closes, k);
    case MacdDea => DeaScales(closes, k);
    case Rsi(p) => RsiColumnInvariant(bars, p, k);
    case BollMid => BollingerScales(closes, k, root);
    case BollUpper => BollingerScales(closes, k, root);
    case BollLower => BollingerScales(closes, k, root);
    case Atr => AtrScales(bars, k);
  }

  /** Price-dimensional core columns scale with the series; KDJ and RSI do not move. */
  lemma {:induction false} CoreScales(c: Column, bars: seq<Bar>, k: real, root: real -> real)
    requires bars != [] && k > 0.0 && IsRoot(root)
    ensures CoreValue(c, ScaleBars(bars, k), root)
         == if PriceDimensional(c) then Times(CoreValue(c, bars, root), k) else CoreValue(c, bars, root)
  {
    if IsKdj(c) { KdjInvariant(bars, k); } else { SeriesValueScales(c, bars, k, root); }
  }

  // ----- the SQL windows on a scaled series

  function ScaleOptions(s: seq<Option<real>>, k: real): (t: seq<Option<real>>)
    ensures |t| == |s| && forall i :: 0 <= i < |s| ==> t[i] == ScaleOption(s[i], k)
  {
    seq(|s|, i requires 0 <= i < |s| => ScaleOption(s[i], k))
  }

  function ScaleQfqBar(b: QfqBar, k: real): QfqBar
  {
    QfqBar(b.date, ScaleOption(b.open, k), ScaleOption(b.high, k), ScaleOption(b.low, k), ScaleOption(b.close, k))
  }

  function ScaleQfq(bars: seq<QfqBar>, k: real): (s: seq<QfqBar>)
    ensures |s| == |bars| && forall i :: 0 <= i < |bars| ==> s[i] == ScaleQfqBar(bars[i], k)
  {
    seq(|bars|, i requires 0 <= i < |bars| => ScaleQfqBar(bars[i], k))
  }

  lemma {:induction false} NonNullScales(s: seq<Option<real>>, k: real)
    ensures NonNull(ScaleOptions(s, k)) == Scale(NonNull(s), k)
  {
    if s != [] {
      var front := s[..|s| - 1];
      NonNullScales(front, k);
      assert ScaleOptions(s, k)[..|s| - 1] == ScaleOptions(front, k);
    }
  }

  lemma {:induction false} AggregatesScale(s: seq<Option<real>>, n: nat, k: real)
    requires k > 0.0
    ensures Last(ScaleOptions(s, k), n) == ScaleOptions(Last(s, n), k)
    ensures SqlAvg(Last(ScaleOptions(s, k), n)) == ScaleOption(SqlAvg(Last(s, n)), k)
    ensures SqlMax(Last(ScaleOptions(s, k), n)) == ScaleOption(SqlMax(Last(s, n)), k)
    ensures SqlMin(Last(ScaleOptions(s, k), n)) == ScaleOption(SqlMin(Last(s, n)), k)
  {
    var w := Last(s, n);
    assert Last(ScaleOptions(s, k), n) == ScaleOptions(w, k);
    NonNullScales(w, k);
    if NonNull(w) != [] {
      MeanScale(NonNull(w), k);
      MaxOfScale(NonNull(w), k);
    }
  }

  lemma {:induction false} GrowthInvariant(x: Option<real>, y: Option<real>, k: real)
    requires k > 0.0
    ensures Growth(ScaleOption(x, k), ScaleOption(y, k)) == Growth(x, y)
  {
    if x.Some? && y.Some? {
      TimesFacts(y.value, 0.0, k);
      if y.value != 0.0 { RatioScale(x.value, y.value, k); }
    }
  }

  lemma {:induction false} ColumnsScale(bars: seq<QfqBar>, k: real)
    ensures CloseColumn(ScaleQfq(bars, k)) == ScaleOptions(CloseColumn(bars), k)
    ensures HighColumn(ScaleQfq(bars, k)) == ScaleOptions(HighColumn(bars), k)
    ensures LowColumn(ScaleQfq(bars, k)) == ScaleOptions(LowColumn(bars), k)
  {
  }

  lemma {:induction false} ReturnInvariant(bars: seq<QfqBar>, lag: nat, k: real)
    requires k > 0.0
    ensures ReturnOf(ScaleQfq(bars, k), lag) == ReturnOf(bars, lag)
  {
    ColumnsScale(bars, k);
    var closes := CloseColumn(bars);
    GrowthInvariant(Lag(closes, 0), Lag(closes, lag), k);
  }

  lemma {:induction false} DailyReturnsInvariant(bars: seq<QfqBar>, k: real)
    requires k > 0.0
    ensures DailyReturns(ScaleQfq(bars, k)) == DailyReturns(bars)
  {
    forall i | 0 <= i < |bars| ensures DailyReturns(ScaleQfq(bars, k))[i] == DailyReturns(bars)[i] {
      assert ScaleQfq(bars, k)[..i + 1] == ScaleQfq(bars[..i + 1], k);
      ReturnInvariant(bars[..i + 1], 1, k);
    }
  }

  lemma {:induction false} CoreSeriesScales(bars: seq<QfqBar>, k: real)
    ensures CoreSeries(ScaleQfq(bars, k)) == ScaleBars(CoreSeries(bars), k)
  {
    if bars != [] {
      var front := bars[..|bars| - 1];
      CoreSeriesScales(front, k);
      assert ScaleQfq(bars, k)[..|bars| - 1] == ScaleQfq(front, k);
    }
  }

  lemma {:induction false} RowScales(c: FactorColumn, bars: seq<QfqBar>, k: real, root: real -> real)
    requires bars != [] && k > 0.0 && IsRoot(root)
    ensures RowValue(c, ScaleQfq(bars, k), root) == Rebased(c, RowValue(c, bars, root), k)
  {
    ColumnsScale(bars, k);
    var last := bars[|bars| - 1];
    match c
    case OpenQfq =>
    case HighQfq =>
    case LowQfq =>
    case CloseQfq =>
    case PreCloseQfq =>
    case Ma(n) => AggregatesScale(CloseColumn(bars), n, k);
    case HighOver(n) => AggregatesScale(HighColumn(bars), n, k);
    case LowOver(n) => AggregatesScale(LowColumn(bars), n, k);
    case ReturnPct(n) => ReturnInvariant(bars, n, k);
    case DistanceHigh(n) =>
      AggregatesScale(HighColumn(bars), n, k);
      GrowthInvariant(last.close, SqlMax(Last(HighColumn(bars), n)), k);
    case DistanceLow(n) =>
      AggregatesScale(LowColumn(bars), n, k);
      GrowthInvariant(last.close, SqlMin(Last(LowColumn(bars), n)), k);
    case DrawdownPct(n) =>
      AggregatesScale(HighColumn(bars), n, k);
      GrowthInvariant(last.close, SqlMax(Last(HighColumn(bars), n)), k);
    case Volatility(n) => DailyReturnsInvariant(bars, k);
    case TechnicalColumn(t) =>
      CoreSeriesScales(bars, k);
      if last.close.Some? { CoreScales(t, CoreSeries(bars), k, root); }
  }

  // ----- change of basis

  lemma {:induction false} QfqRebases(price: Option<real>, adj: Option<real>, latest: real, latest': real)
    requires latest > 0.0 && latest' > 0.0
    ensures Qfq(price, adj, latest') == ScaleOption(Qfq(price, adj, latest), latest / latest')
  {
    if price.Some? && adj.Some? { BasisChange(Times(price.value, adj.value), latest, latest'); }
  }

  lemma {:induction false} BasisChange(x: real, latest: real, latest': real)
    requires latest != 0.0 && latest' != 0.0
    ensures x / latest' == Times(x / latest, latest / latest')
  {
    var a, b := x / latest, latest / latest';
    assert a * latest == x && b * latest' == latest;
    assert (a * b) * latest' == x;
    DivUnique(x, latest', a * b);
  }

  lemma {:induction false} QuotientPositive(a: real, b: real)
    requires a > 0.0 && b > 0.0
    ensures a / b > 0.0
  {
    assert (a / b) * b == a;
    ScaleOrder(a / b, 0.0, b);
  }

  /** Rebasing a stored row with scale `latest / latest'` gives, in every locally computed column,
      exactly the row recomputed on the basis `latest'`. */
  lemma {:induction false} RebaseEqualsRecompute(c: FactorColumn, days: seq<Day>, latest: real, latest': real,
                                                 root: real -> real)
    requires days != [] && latest > 0.0 && latest' > 0.0 && IsRoot(root)
    ensures RowValue(c, QfqBars(days, latest'), root)
         == Rebased(c, RowValue(c, QfqBars(days, latest), root), latest / latest')
  {
    var k := latest / latest';
    QuotientPositive(latest, latest');
    forall i | 0 <= i < |days|
      ensures QfqBars(days, latest')[i] == ScaleQfq(QfqBars(days, latest), k)[i]
    {
      var d := days[i];
      QfqRebases(d.open, d.adj, latest, latest');
      QfqRebases(d.high, d.adj, latest, latest');
      QfqRebases(d.low, d.adj, latest, latest');
      QfqRebases(d.close, d.adj, latest, latest');
    }
    assert QfqBars(days, latest') == ScaleQfq(QfqBars(days, latest), k);
    RowScales(c, QfqBars(days, latest), k, root);
  }
}
