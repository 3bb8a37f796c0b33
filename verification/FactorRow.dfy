/** The locally computed columns of one assembled factor row: the SQL windows over the QFQ series
    and the technical core, on a given adjustment basis. */
module FactorRow {
  import opened Wrappers
  import opened Windows
  import opened SqlWindows
  import opened TechnicalCore

  /** One trading day of raw (unadjusted) facts. */
  datatype Day = Day(date: int, open: Option<real>, high: Option<real>, low: Option<real>, close: Option<real>,
                     adj: Option<real>)

  datatype QfqBar = QfqBar(date: int, open: Option<real>, high: Option<real>, low: Option<real>, close: Option<real>)

  datatype FactorColumn =
    | OpenQfq | HighQfq | LowQfq | CloseQfq | PreCloseQfq
    | Ma(days: Period) | HighOver(days: Period) | LowOver(days: Period)
    | ReturnPct(days: Period) | DistanceHigh(days: Period) | DistanceLow(days: Period)
    | DrawdownPct(days: Period) | Volatility(days: Period)
    | TechnicalColumn(column: Column)

  /** `price * adj_factor / nullif(latest_adj_factor, 0)`. */
  function Qfq(price: Option<real>, adj: Option<real>, latest: real): Option<real>
  {
    if price.Some? && adj.Some? && latest != 0.0 then Some(Times(price.value, adj.value) / latest) else None
  }

  function QfqDay(d: Day, latest: real): QfqBar
  {
    QfqBar(d.date, Qfq(d.open, d.adj, latest), Qfq(d.high, d.adj, latest), Qfq(d.low, d.adj, latest),
           Qfq(d.close, d.adj, latest))
  }

  function QfqBars(days: seq<Day>, latest: real): (bars: seq<QfqBar>)
    ensures |bars| == |days|
  {
    seq(|days|, i requires 0 <= i < |days| => QfqDay(days[i], latest))
  }

  /** The series the local fallback walks: the rows with a close. */
  function CoreSeries(bars: seq<QfqBar>): seq<Bar>
  {
    if bars == [] then []
    else
      var last := bars[|bars| - 1];
      CoreSeries(bars[..|bars| - 1]) +
      (if last.close.Some? then [Bar(last.date, last.high, last.low, last.close.value)] else [])
  }

  function CloseColumn(bars: seq<QfqBar>): (s: seq<Option<real>>) ensures |s| == |bars|
  { seq(|bars|, i requires 0 <= i < |bars| => bars[i].close) }

  function HighColumn(bars: seq<QfqBar>): (s: seq<Option<real>>) ensures |s| == |bars|
  { seq(|bars|, i requires 0 <= i < |bars| => bars[i].high) }

  function LowColumn(bars: seq<QfqBar>): (s: seq<Option<real>>) ensures |s| == |bars|
  { seq(|bars|, i requires 0 <= i < |bars| => bars[i].low) }

  function SqlStddevPop(s: seq<Option<real>>, root: real -> real): Option<real>
  {
    if NonNull(s) == [] then None else Some(root(Variance(NonNull(s))))
  }

  /** `x / nullif(y, 0) - 1`. */
  function Growth(x: Option<real>, y: Option<real>): Option<real>
  {
    if x.Some? && y.Some? && y.value != 0.0 then Some(x.value / y.value - 1.0) else None
  }

  function Percent(x: Option<real>): Option<real> { if x.Some? then Some(x.value * 100.0) else None }

  function ReturnOf(bars: seq<QfqBar>, k: nat): Option<real>
  {
    Percent(Growth(Lag(CloseColumn(bars), 0), Lag(CloseColumn(bars), k)))
  }

  function DailyReturns(bars: seq<QfqBar>): (s: seq<Option<real>>) ensures |s| == |bars|
  { seq(|bars|, i requires 0 <= i < |bars| => ReturnOf(bars[..i + 1], 1)) }

  /** Column `c` of the row assembled for the last bar of `bars`. */
  function RowValue(c: FactorColumn, bars: seq<QfqBar>, root: real -> real): Option<real>
    requires bars != []
  {
    var last := bars[|bars| - 1];
    match c
    case OpenQfq => last.open
    case HighQfq => last.high
    case LowQfq => last.low
    case CloseQfq => last.close
    case PreCloseQfq => Lag(CloseColumn(bars), 1)
    case Ma(n) => SqlAvg(Last(CloseColumn(bars), n))
    case HighOver(n) => SqlMax(Last(HighColumn(bars), n))
    case LowOver(n) => SqlMin(Last(LowColumn(bars), n))
    case ReturnPct(n) => ReturnOf(bars, n)
    case DistanceHigh(n) => Growth(last.close, SqlMax(Last(HighColumn(bars), n)))
    case DistanceLow(n) => Growth(last.close, SqlMin(Last(LowColumn(bars), n)))
    case DrawdownPct(n) => Percent(Growth(last.close, SqlMax(Last(HighColumn(bars), n))))
    case Volatility(n) => SqlStddevPop(Last(DailyReturns(bars), n), root)
    case TechnicalColumn(k) => if last.close.Some? then Some(CoreValue(k, CoreSeries(bars), root)) else None
  }

  /** The locally computed columns in the SET list of the rebase. */
  predicate InRebaseSet(c: FactorColumn)
  {
    match c
    case ReturnPct(_) => false
    case DistanceHigh(_) => false
    case DistanceLow(_) => false
    case DrawdownPct(_) => false
    case Volatility(_) => false
    case TechnicalColumn(k) => !IsKdj(k) && !k.Rsi?
    case _ => true
  }

  function ScaleOption(x: Option<real>, k: real): Option<real> { if x.Some? then Some(Times(x.value, k)) else None }

  /** `SET column = target.column * scales.scale`, or the column untouched. */
  function Rebased(c: FactorColumn, stored: Option<real>, scale: real): Option<real>
  {
    if InRebaseSet(c) then ScaleOption(stored, scale) else stored
  }
}
