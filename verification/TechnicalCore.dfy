/** The local technical-core fallback: one walk over a forward-adjusted (QFQ) price series that
    maintains nine EMAs, MACD, KDJ, RSI, Bollinger and ATR state and emits a row only for the
    stored dates that still lack one. Each indicator is first defined on a prefix of the series;
    the loop, with its skip branches, is then proved to emit exactly those values. */
module TechnicalCore {
  import opened Wrappers
  import opened Windows

  /** One row of the QFQ series with a non-null close. */
  datatype Bar = Bar(date: int, high: Option<real>, low: Option<real>, close: real)

  type Period = n: nat | n >= 1 witness 1

  datatype Column =
    | Ema(period: Period) | Macd | MacdDif | MacdDea
    | KdjK | KdjD | KdjJ | Rsi(period: Period)
    | BollMid | BollUpper | BollLower | Atr

  /** A row of the factor table: its status and its non-null core columns. */
  datatype Stored = Stored(coreReady: bool, values: map<Column, real>)

  datatype Emission = Emission(date: int, values: map<Column, real>)

  const PERIODS: seq<Period> := [5, 10, 12, 20, 26, 30, 60, 90, 250]

  const CORE_COLUMNS: set<Column> := {
    Ema(5), Ema(10), Ema(20), Ema(30), Ema(60), Ema(90), Ema(250),
    Macd, MacdDif, MacdDea, KdjK, KdjD, KdjJ,
    Rsi(6), Rsi(12), Rsi(24), Rsi(14), BollMid, BollUpper, BollLower, Atr
  }

  /** `variance ** 0.5` is the non-negative root. */
  ghost predicate IsRoot(root: real -> real)
  {
    forall v: real {:trigger root(v)} :: v >= 0.0 ==> root(v) >= 0.0 && root(v) * root(v) == v
  }

  // ----- indicators of a prefix of the series

  /** Python's `item["high_qfq"] or close`: a missing or zero price falls back to the close. */
  function OrClose(price: Option<real>, close: real): real
  {
    if price.Some? && price.value != 0.0 then price.value else close
  }

  function High(b: Bar): real { OrClose(b.high, b.close) }

  function Low(b: Bar): real { OrClose(b.low, b.close) }

  function Closes(bars: seq<Bar>): (s: seq<real>)
    ensures |s| == |bars|
  {
    seq(|bars|, i requires 0 <= i < |bars| => bars[i].close)
  }

  function Highs(bars: seq<Bar>): (s: seq<real>)
    ensures |s| == |bars|
  {
    seq(|bars|, i requires 0 <= i < |bars| => High(bars[i]))
  }

  function Lows(bars: seq<Bar>): (s: seq<real>)
    ensures |s| == |bars|
  {
    seq(|bars|, i requires 0 <= i < |bars| => Low(bars[i]))
  }

  function Change(bars: seq<Bar>, i: nat): real
    requires i < |bars|
  {
    if i == 0 then 0.0 else bars[i].close - bars[i - 1].close
  }

  function Gains(bars: seq<Bar>): (s: seq<real>)
    ensures |s| == |bars|
  {
    seq(|bars|, i requires 0 <= i < |bars| => Max(Change(bars, i), 0.0))
  }

  function Losses(bars: seq<Bar>): (s: seq<real>)
    ensures |s| == |bars|
  {
    seq(|bars|, i requires 0 <= i < |bars| => Max(-Change(bars, i), 0.0))
  }

  function TrueRange(high: real, low: real, previousClose: Option<real>): real
  {
    match previousClose
    case None => high - low
    case Some(p) => Max(high - low, Max(Abs(high - p), Abs(low - p)))
  }

  function PreviousClose(bars: seq<Bar>, i: nat): Option<real>
    requires i <= |bars|
  {
    if i == 0 then None else Some(bars[i - 1].close)
  }

  function TrueRanges(bars: seq<Bar>): (s: seq<real>)
    ensures |s| == |bars|
  {
    seq(|bars|, i requires 0 <= i < |bars| => TrueRange(High(bars[i]), Low(bars[i]), PreviousClose(bars, i)))
  }

  function Alpha(period: Period): real { 2.0 / ((period + 1) as real) }

  function EmaOf(period: Period, closes: seq<real>): real
    requires closes != []
  {
    var n := |closes| - 1;
    if n == 0 then closes[0] else Blend(closes[n], EmaOf(period, closes[..n]), Alpha(period))
  }

  function Blend(x: real, previous: real, alpha: real): real { x * alpha + previous * (1.0 - alpha) }

  function DifOf(closes: seq<real>): real
    requires closes != []
  {
    EmaOf(12, closes) - EmaOf(26, closes)
  }

  function DeaOf(closes: seq<real>): real
    requires closes != []
  {
    var n := |closes| - 1;
    if n == 0 then DifOf(closes)
    else DeaStep(DifOf(closes), DeaOf(closes[..n]))
  }

  function DeaStep(dif: real, previous: real): real { dif * (2.0 / 10.0) + previous * (8.0 / 10.0) }

  function Rsv(bars: seq<Bar>): real
    requires bars != []
  {
    Stochastic(bars[|bars| - 1].close, MaxOf(Last(Highs(bars), 9)), MinOf(Last(Lows(bars), 9)))
  }

  function Stochastic(close: real, high9: real, low9: real): real
  {
    if high9 == low9 then 50.0 else (close - low9) / (high9 - low9) * 100.0
  }

  function Smooth(previous: real, x: real): real { previous * 2.0 / 3.0 + x / 3.0 }

  function K(bars: seq<Bar>): real
  {
    if bars == [] then 50.0 else Smooth(K(bars[..|bars| - 1]), Rsv(bars))
  }

  function D(bars: seq<Bar>): real
  {
    if bars == [] then 50.0 else Smooth(D(bars[..|bars| - 1]), K(bars))
  }

  function RsiOf(gains: seq<real>, losses: seq<real>, period: Period): real
    requires gains != [] && losses != []
    requires forall i :: 0 <= i < |gains| ==> gains[i] >= 0.0
    requires forall i :: 0 <= i < |losses| ==> losses[i] >= 0.0
  {
    MeanNonNegative(Last(gains, period));
    MeanNonNegative(Last(losses, period));
    RsiFrom(Mean(Last(gains, period)), Mean(Last(losses, period)))
  }

  function RsiFrom(avgGain: real, avgLoss: real): real
    requires avgGain >= 0.0 && avgLoss >= 0.0
  {
    if avgLoss == 0.0 then (if avgGain > 0.0 then 100.0 else 50.0)
    else
      assert avgGain / avgLoss >= 0.0 by { QuotientNonNegative(avgGain, avgLoss); }
      100.0 - 100.0 / (1.0 + avgGain / avgLoss)
  }

  lemma {:induction false} MeanNonNegative(s: seq<real>)
    requires s != [] && forall i :: 0 <= i < |s| ==> s[i] >= 0.0
    ensures Mean(s) >= 0.0
  {
    MaxOfIs(s);
    MeanBounds(s, 0.0, MaxOf(s));
  }

  lemma {:induction false} QuotientNonNegative(a: real, b: real)
    requires a >= 0.0 && b > 0.0
    ensures a / b >= 0.0
  {
    var q := a / b;
    assert q * b == a;
    ScaleOrder(0.0, q, b);
  }

  function Deviations(s: seq<real>, middle: real): (t: seq<real>)
    ensures |t| == |s| && forall i :: 0 <= i < |s| ==> t[i] == Times(s[i] - middle, s[i] - middle) && t[i] >= 0.0
  {
    seq(|s|, i requires 0 <= i < |s| => Times(s[i] - middle, s[i] - middle))
  }

  function Variance(s: seq<real>): (v: real)
    requires s != []
    ensures v >= 0.0
  {
    var t := Deviations(s, Mean(s));
    MeanNonNegative(t);
    Mean(t)
  }

  predicate IsKdj(c: Column) { c.KdjK? || c.KdjD? || c.KdjJ? }

  function KdjValue(c: Column, k: real, d: real): real
    requires IsKdj(c)
  {
    match c
    case KdjK => k
    case KdjD => d
    case KdjJ => 3.0 * k - 2.0 * d
  }

  function SeriesValue(c: Column, bars: seq<Bar>, root: real -> real): real
    requires bars != [] && !IsKdj(c)
  {
    var closes := Closes(bars);
    match c
    case Ema(p) => EmaOf(p, closes)
    case Macd => 2.0 * (DifOf(closes) - DeaOf(closes))
    case MacdDif => DifOf(closes)
    case MacdDea => DeaOf(closes)
    case Rsi(p) => RsiOf(Gains(bars), Losses(bars), p)
    case BollMid => Mean(Last(closes, 20))
    case BollUpper => Mean(Last(closes, 20)) + 2.0 * root(Variance(Last(closes, 20)))
    case BollLower => Mean(Last(closes, 20)) - 2.0 * root(Variance(Last(closes, 20)))
    case Atr => Mean(Last(TrueRanges(bars), 14))
  }

  /** A core column of the last bar of `bars`. */
  function CoreValue(c: Column, bars: seq<Bar>, root: real -> real): real
    requires bars != []
  {
    if IsKdj(c) then KdjValue(c, K(bars), D(bars)) else SeriesValue(c, bars, root)
  }

  function CoreRow(bars: seq<Bar>, root: real -> real, k: real, d: real): map<Column, real>
    requires bars != []
  {
    map c | c in CORE_COLUMNS :: if IsKdj(c) then KdjValue(c, k, d) else SeriesValue(c, bars, root)
  }

  function Core(bars: seq<Bar>, root: real -> real): map<Column, real>
    requires bars != []
  {
    CoreRow(bars, root, K(bars), D(bars))
  }

  // ----- what one pass emits and stores

  /** The three `continue` branches of the loop, negated. */
  predicate Eligible(stored: map<int, Stored>, date: int, startDate: int, endDate: int)
  {
    startDate <= date <= endDate && date in stored &&
    (!stored[date].coreReady || Rsi(14) !in stored[date].values)
  }

  function Emitted(series: seq<Bar>, stored: map<int, Stored>, startDate: int, endDate: int, root: real -> real)
    : seq<Emission>
  {
    if series == [] then []
    else
      var n := |series| - 1;
      Emitted(series[..n], stored, startDate, endDate, root) + EmittedRow(series, stored, startDate, endDate, root)
  }

  function EmittedRow(series: seq<Bar>, stored: map<int, Stored>, startDate: int, endDate: int, root: real -> real)
    : seq<Emission>
    requires series != []
  {
    var date := series[|series| - 1].date;
    if Eligible(stored, date, startDate, endDate) then [Emission(date, Core(series, root))] else []
  }

  /** `INSERT ... ON CONFLICT DO UPDATE SET column = coalesce(stored, excluded)`. */
  function Coalesced(row: Stored, values: map<Column, real>): Stored
  {
    Stored(true, values + row.values)
  }

  function Upserted(stored: map<int, Stored>, rows: seq<Emission>): map<int, Stored>
  {
    if rows == [] then stored
    else
      var n := |rows| - 1;
      var before := Upserted(stored, rows[..n]);
      var row := if rows[n].date in before then before[rows[n].date] else Stored(false, map[]);
      before[rows[n].date := Coalesced(row, rows[n].values)]
  }

  // ----- the loop

  /** The variables one series walk carries from bar to bar. */
  datatype Walk = Walk(closes: seq<real>, highs: seq<real>, lows: seq<real>, gains: seq<real>, losses: seq<real>,
                       trueRanges: seq<real>, ema: map<Period, real>, dif: real, dea: Option<real>,
                       k: real, d: real, previousClose: Option<real>)

  const START := Walk([], [], [], [], [], [], map[], 0.0, None, 50.0, 50.0, None)

  ghost predicate TracksSeries(w: Walk, bars: seq<Bar>)
  {
    && w.closes == Closes(bars) && w.highs == Highs(bars) && w.lows == Lows(bars)
    && w.gains == Gains(bars) && w.losses == Losses(bars) && w.trueRanges == TrueRanges(bars)
    && w.ema == EmaMap(w.closes)
    && (bars == [] ==> w.dea == None)
    && (bars != [] ==> w.dif == DifOf(w.closes) && w.dea == Some(DeaOf(w.closes)))
    && w.previousClose == PreviousClose(bars, |bars|)
  }

  ghost predicate Tracks(w: Walk, bars: seq<Bar>)
  {
    TracksSeries(w, bars) && w.k == K(bars) && w.d == D(bars)
  }

  function EmaMap(closes: seq<real>): map<Period, real>
  {
    if closes == [] then map[] else map p | p in PERIODS :: EmaOf(p, closes)
  }

  /** The inner loop over the nine periods. */
  method AdvanceEmas(ema: map<Period, real>, close: real, ghost closes: seq<real>) returns (next: map<Period, real>)
    requires ema == EmaMap(closes)
    ensures next == EmaMap(closes + [close])
  {
    next := ema;
    assert (closes + [close])[..|closes|] == closes;
    for i := 0 to |PERIODS|
      invariant next.Keys <= set p | p in PERIODS
      invariant forall j :: 0 <= j < i ==> PERIODS[j] in next && next[PERIODS[j]] == EmaOf(PERIODS[j], closes + [close])
      invariant forall j :: i <= j < |PERIODS| ==>
        (PERIODS[j] in next <==> PERIODS[j] in ema) && (PERIODS[j] in next ==> next[PERIODS[j]] == ema[PERIODS[j]])
    {
      var period := PERIODS[i];
      next := next[period := if period !in next then close else Blend(close, next[period], Alpha(period))];
    }
  }

  lemma {:induction false} Extend(bars: seq<Bar>, item: Bar)
    ensures (bars + [item])[..|bars|] == bars
    ensures Closes(bars + [item]) == Closes(bars) + [item.close]
    ensures Highs(bars + [item]) == Highs(bars) + [High(item)]
    ensures Lows(bars + [item]) == Lows(bars) + [Low(item)]
    ensures var change := Change(bars + [item], |bars|);
            && Gains(bars + [item]) == Gains(bars) + [Max(change, 0.0)]
            && Losses(bars + [item]) == Losses(bars) + [Max(-change, 0.0)]
    ensures TrueRanges(bars + [item]) ==
            TrueRanges(bars) + [TrueRange(High(item), Low(item), PreviousClose(bars, |bars|))]
  {
  }

  method AdvanceMacd(ema: map<Period, real>, previous: Option<real>, close: real, ghost closes: seq<real>)
    returns (dif: real, dea: real)
    requires ema == EmaMap(closes + [close])
    requires previous == if closes == [] then None else Some(DeaOf(closes))
    ensures dif == DifOf(closes + [close]) && dea == DeaOf(closes + [close])
  {
    assert PERIODS[2] == 12 && PERIODS[4] == 26;
    assert (closes + [close])[..|closes|] == closes;
    dif := ema[12] - ema[26];
    dea := if previous == None then dif else DeaStep(dif, previous.value);
  }

  method AdvanceKdj(k: real, d: real, highs: seq<real>, lows: seq<real>, ghost bars: seq<Bar>, item: Bar)
    returns (k': real, d': real)
    requires k == K(bars) && d == D(bars)
    requires highs == Highs(bars + [item]) && lows == Lows(bars + [item])
    ensures k' == K(bars + [item]) && d' == D(bars + [item])
  {
    assert (bars + [item])[..|bars|] == bars;
    var high9, low9 := MaxOf(Last(highs, 9)), MinOf(Last(lows, 9));
    k' := Smooth(k, Stochastic(item.close, high9, low9));
    d' := Smooth(d, k');
  }

  method AdvanceSeries(w: Walk, item: Bar, ghost bars: seq<Bar>) returns (next: Walk)
    requires TracksSeries(w, bars)
    ensures TracksSeries(next, bars + [item]) && next.k == w.k && next.d == w.d
  {
    Extend(bars, item);
    var close := item.close;
    var high := OrClose(item.high, close);
    var low := OrClose(item.low, close);
    var change := if w.previousClose == None then 0.0 else close - w.previousClose.value;
    var ema := AdvanceEmas(w.ema, close, w.closes);
    var dif, dea := AdvanceMacd(ema, w.dea, close, w.closes);
    next := Walk(w.closes + [close], w.highs + [high], w.lows + [low],
                 w.gains + [Max(change, 0.0)], w.losses + [Max(-change, 0.0)],
                 w.trueRanges + [TrueRange(high, low, w.previousClose)],
                 ema, dif, Some(dea), w.k, w.d, Some(close));
  }

  /** The part of the loop body above the skip branches. */
  method Advance(w: Walk, item: Bar, ghost bars: seq<Bar>) returns (next: Walk)
    requires Tracks(w, bars)
    ensures Tracks(next, bars + [item])
  {
    next := AdvanceSeries(w, item, bars);
    var k, d := AdvanceKdj(w.k, w.d, next.highs, next.lows, bars, item);
    next := next.(k := k, d := d);
  }

  /** One entry of the dictionary the source appends to its fallback rows. */
  function Entry(w: Walk, c: Column, root: real -> real): real
    requires w.closes != [] && w.gains != [] && w.losses != [] && w.trueRanges != [] && w.dea.Some?
    requires c.Ema? ==> c.period in w.ema
    requires forall i :: 0 <= i < |w.gains| ==> w.gains[i] >= 0.0
    requires forall i :: 0 <= i < |w.losses| ==> w.losses[i] >= 0.0
  {
    var middle := Mean(Last(w.closes, 20));
    var bollStd := root(Variance(Last(w.closes, 20)));
    match c
    case Ema(p) => w.ema[p]
    case Macd => 2.0 * (w.dif - w.dea.value)
    case MacdDif => w.dif
    case MacdDea => w.dea.value
    case KdjK => w.k
    case KdjD => w.d
    case KdjJ => 3.0 * w.k - 2.0 * w.d
    case Rsi(p) => RsiOf(w.gains, w.losses, p)
    case BollMid => middle
    case BollUpper => middle + 2.0 * bollStd
    case BollLower => middle - 2.0 * bollStd
    case Atr => Mean(Last(w.trueRanges, 14))
  }

  lemma {:induction false} CorePeriods(c: Column)
    requires c in CORE_COLUMNS
    ensures c.Ema? ==> c.period in PERIODS
  {
    assert PERIODS[0] == 5 && PERIODS[1] == 10 && PERIODS[3] == 20 && PERIODS[5] == 30 && PERIODS[6] == 60
           && PERIODS[7] == 90 && PERIODS[8] == 250;
  }

  lemma {:induction false} EmaKnown(closes: seq<real>, c: Column)
    requires closes != [] && c in CORE_COLUMNS
    ensures c.Ema? ==> c.period in EmaMap(closes) && EmaMap(closes)[c.period] == EmaOf(c.period, closes)
  {
    CorePeriods(c);
  }

  lemma {:induction false} EntryCorrect(w: Walk, c: Column, root: real -> real, bars: seq<Bar>)
    requires bars != [] && TracksSeries(w, bars)
    requires c.Ema? ==> c.period in w.ema && w.ema[c.period] == EmaOf(c.period, w.closes)
    ensures forall i :: 0 <= i < |w.gains| ==> w.gains[i] >= 0.0
    ensures forall i :: 0 <= i < |w.losses| ==> w.losses[i] >= 0.0
    ensures Entry(w, c, root) == if IsKdj(c) then KdjValue(c, w.k, w.d) else SeriesValue(c, bars, root)
  {
  }

  method BuildRow(w: Walk, root: real -> real, ghost bars: seq<Bar>) returns (values: map<Column, real>)
    requires bars != [] && TracksSeries(w, bars)
    ensures values == CoreRow(bars, root, w.k, w.d)
  {
    forall c | c in CORE_COLUMNS
      ensures c.Ema? ==> c.period in w.ema
      ensures forall i :: 0 <= i < |w.gains| ==> w.gains[i] >= 0.0
      ensures forall i :: 0 <= i < |w.losses| ==> w.losses[i] >= 0.0
      ensures Entry(w, c, root) == if IsKdj(c) then KdjValue(c, w.k, w.d) else SeriesValue(c, bars, root)
    {
      EmaKnown(w.closes, c);
      EntryCorrect(w, c, root, bars);
    }
    values := map c | c in CORE_COLUMNS :: Entry(w, c, root);
  }

  /** The skip branches and the row: each branch leaves the walk as it is. */
  method EmitRow(w: Walk, item: Bar, stored: map<int, Stored>, startDate: int, endDate: int, root: real -> real,
                 ghost prefix: seq<Bar>) returns (row: seq<Emission>)
    requires prefix != [] && prefix[|prefix| - 1] == item && Tracks(w, prefix)
    ensures row == EmittedRow(prefix, stored, startDate, endDate, root)
  {
    if item.date < startDate || item.date > endDate {
      return [];
    }
    if item.date !in stored {
      return [];
    }
    var current := stored[item.date];
    if current.coreReady && Rsi(14) in current.values {
      return [];
    }
    var values := BuildRow(w, root, prefix);
    row := [Emission(item.date, values)];
  }

  /** After `n` bars: the walk tracks the prefix and the rows are the ones that prefix emits. */
  ghost predicate Filled(w: Walk, rows: seq<Emission>, series: seq<Bar>, n: nat, stored: map<int, Stored>,
                         startDate: int, endDate: int, root: real -> real)
    requires n <= |series|
  {
    Tracks(w, series[..n]) && rows == Emitted(series[..n], stored, startDate, endDate, root)
  }

  lemma {:induction false} EmittedOneMore(series: seq<Bar>, n: nat, stored: map<int, Stored>, startDate: int,
                                          endDate: int, root: real -> real)
    requires n < |series|
    ensures Emitted(series[..n + 1], stored, startDate, endDate, root) ==
            Emitted(series[..n], stored, startDate, endDate, root) +
              EmittedRow(series[..n + 1], stored, startDate, endDate, root)
  {
    assert series[..n + 1][..n] == series[..n];
  }

  /** One iteration of the loop over the series. */
  method FillOne(w: Walk, rows: seq<Emission>, series: seq<Bar>, n: nat, stored: map<int, Stored>,
                 startDate: int, endDate: int, root: real -> real) returns (w': Walk, rows': seq<Emission>)
    requires n < |series| && Filled(w, rows, series, n, stored, startDate, endDate, root)
    ensures Filled(w', rows', series, n + 1, stored, startDate, endDate, root)
  {
    ghost var prefix := series[..n + 1];
    assert prefix == series[..n] + [series[n]];
    w' := Advance(w, series[n], series[..n]);
    var row := EmitRow(w', series[n], stored, startDate, endDate, root, prefix);
    rows' := rows + row;
    EmittedOneMore(series, n, stored, startDate, endDate, root);
  }

  lemma {:induction false} NothingFilled(series: seq<Bar>, stored: map<int, Stored>, startDate: int, endDate: int,
                                         root: real -> real)
    ensures Filled(START, [], series, 0, stored, startDate, endDate, root)
  {
    assert series[..0] == [];
  }

  lemma {:induction false} AllFilled(w: Walk, rows: seq<Emission>, series: seq<Bar>, stored: map<int, Stored>,
                                     startDate: int, endDate: int, root: real -> real)
    requires Filled(w, rows, series, |series|, stored, startDate, endDate, root)
    ensures rows == Emitted(series, stored, startDate, endDate, root)
  {
    assert series[..|series|] == series;
  }

  method FillSeries(series: seq<Bar>, stored: map<int, Stored>, startDate: int, endDate: int, root: real -> real)
    returns (rows: seq<Emission>)
    ensures rows == Emitted(series, stored, startDate, endDate, root)
  {
    rows := [];
    var w := START;
    NothingFilled(series, stored, startDate, endDate, root);
    for i := 0 to |series|
      invariant Filled(w, rows, series, i, stored, startDate, endDate, root)
    {
      w, rows := FillOne(w, rows, series, i, stored, startDate, endDate, root);
    }
    AllFilled(w, rows, series, stored, startDate, endDate, root);
  }
}
