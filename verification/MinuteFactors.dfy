/** Minute factors exist twice: as a Python loop with running totals and as SQL windows. The loop is
    proved against prefix definitions, and those against the windows wherever every bar is priced;
    `MinuteGaps` says exactly when they still agree once prices are missing. */
module MinuteFactors {
  import opened Wrappers
  import opened Windows
  import opened SqlWindows

  datatype MinuteBar = MinuteBar(time: int, price: Option<real>, volume: Option<real>, amount: Option<real>)

  datatype MinuteRow = MinuteRow(time: int, vwap: Option<real>, return1: Option<real>, return5: Option<real>,
                                 return15: Option<real>, ma5: Option<real>, ma10: Option<real>, ma20: Option<real>,
                                 volumeRatio: Option<real>, position: Option<real>)

  /** `_ratio`: None when the numerator is missing or the denominator is missing or zero. */
  function Ratio(n: Option<real>, d: Option<real>): Option<real>
  {
    if n.None? || d.None? || d.value == 0.0 then None else Some(n.value / d.value)
  }

  function Percent(x: Option<real>): Option<real> { if x.Some? then Some(x.value * 100.0) else None }

  /** `_trailing_return` over the prices collected so far. */
  function TrailingReturn(prices: seq<real>, minutes: nat): Option<real>
  {
    if |prices| <= minutes then None
    else
      var base := prices[|prices| - 1 - minutes];
      Percent(Ratio(Some(prices[|prices| - 1] - base), Some(base)))
  }

  /** A bar whose amount and volume enter the VWAP sums. */
  predicate Traded(b: MinuteBar) { b.amount.Some? && b.volume.Some? && b.volume.value > 0.0 }

  function PriceColumn(bars: seq<MinuteBar>): (s: seq<Option<real>>) ensures |s| == |bars|
  { seq(|bars|, i requires 0 <= i < |bars| => bars[i].price) }

  function PositiveVolumes(bars: seq<MinuteBar>): seq<real>
  {
    if bars == [] then []
    else
      var b := bars[|bars| - 1];
      PositiveVolumes(bars[..|bars| - 1]) + (if b.volume.Some? && b.volume.value > 0.0 then [b.volume.value] else [])
  }

  // ----- the loop's values on a prefix

  function Prices(bars: seq<MinuteBar>): seq<real> { NonNull(PriceColumn(bars)) }

  /** The running totals skip bars without a price. */
  function TotalAmount(bars: seq<MinuteBar>): real
  {
    if bars == [] then 0.0
    else
      var b := bars[|bars| - 1];
      TotalAmount(bars[..|bars| - 1]) + (if b.price.Some? && Traded(b) then b.amount.value else 0.0)
  }

  function TotalShares(bars: seq<MinuteBar>): real
  {
    if bars == [] then 0.0
    else
      var b := bars[|bars| - 1];
      TotalShares(bars[..|bars| - 1]) + (if b.price.Some? && Traded(b) then b.volume.value * 100.0 else 0.0)
  }

  function Baseline(bars: seq<MinuteBar>): Option<real>
    requires bars != []
  {
    var w := PositiveVolumes(Last(bars[..|bars| - 1], 20));
    if |w| == 20 then Some(Mean(w)) else None
  }

  /** The dictionary the loop appends, from its running variables. */
  function MakeRow(bar: MinuteBar, prices: seq<real>, low: real, high: real, amount: real, shares: real,
                   baseline: Option<real>): MinuteRow
    requires prices != []
  {
    MinuteRow(bar.time, Vwap(amount, shares),
              TrailingReturn(prices, 1), TrailingReturn(prices, 5), TrailingReturn(prices, 15),
              Some(Mean(Last(prices, 5))), Some(Mean(Last(prices, 10))), Some(Mean(Last(prices, 20))),
              Ratio(bar.volume, baseline), Position(prices[|prices| - 1], low, high))
  }

  function Vwap(amount: real, shares: real): Option<real> { if shares != 0.0 then Some(amount / shares) else None }

  function Position(price: real, low: real, high: real): Option<real> { Ratio(Some(price - low), Some(high - low)) }

  /** What the loop emits for the last bar of `bars`. */
  function LoopRow(bars: seq<MinuteBar>): MinuteRow
    requires bars != [] && Prices(bars) != []
  {
    var prices := Prices(bars);
    MakeRow(bars[|bars| - 1], prices, MinOf(prices), MaxOf(prices), TotalAmount(bars), TotalShares(bars),
            Baseline(bars))
  }

  function LoopRows(bars: seq<MinuteBar>): seq<MinuteRow>
  {
    if bars == [] then []
    else
      LoopRows(bars[..|bars| - 1]) +
      (if bars[|bars| - 1].price.Some? then assert Prices(bars) != []; [LoopRow(bars)] else [])
  }

  // ----- the loop

  function FirstPrice(bars: seq<MinuteBar>): Option<real>
  {
    if bars == [] then None else if bars[0].price.Some? then bars[0].price else FirstPrice(bars[1..])
  }

  lemma {:induction false} UnpricedRows(bars: seq<MinuteBar>)
    requires FirstPrice(bars) == None
    ensures forall i :: 0 <= i < |bars| ==> bars[i].price == None
    ensures LoopRows(bars) == []
  {
    if bars != [] {
      UnpricedSuffix(bars);
      UnpricedPrefix(bars);
    }
  }

  lemma {:induction false} UnpricedSuffix(bars: seq<MinuteBar>)
    requires FirstPrice(bars) == None
    ensures forall i :: 0 <= i < |bars| ==> bars[i].price == None
  {
    if bars != [] { UnpricedSuffix(bars[1..]); }
  }

  lemma {:induction false} UnpricedPrefix(bars: seq<MinuteBar>)
    requires forall i :: 0 <= i < |bars| ==> bars[i].price == None
    ensures LoopRows(bars) == []
  {
    if bars != [] { UnpricedPrefix(bars[..|bars| - 1]); }
  }

  lemma {:induction false} PricesGrow(bars: seq<MinuteBar>, b: MinuteBar)
    ensures Prices(bars + [b]) == Prices(bars) + (if b.price.Some? then [b.price.value] else [])
  {
    var column := PriceColumn(bars + [b]);
    assert column[..|bars|] == PriceColumn(bars);
  }

  /** The running variables of the loop. */
  datatype Totals = Totals(amount: real, shares: real, prices: seq<real>, high: real, low: real)

  ghost predicate Tracks(t: Totals, bars: seq<MinuteBar>)
  {
    && t.prices == Prices(bars) && t.amount == TotalAmount(bars) && t.shares == TotalShares(bars)
    && (t.prices != [] ==> t.high == MaxOf(t.prices) && t.low == MinOf(t.prices))
  }

  lemma {:induction false} TotalsGrow(bars: seq<MinuteBar>, bar: MinuteBar)
    requires bar.price.Some?
    ensures TotalAmount(bars + [bar]) == TotalAmount(bars) + (if Traded(bar) then bar.amount.value else 0.0)
    ensures TotalShares(bars + [bar]) == TotalShares(bars) + (if Traded(bar) then bar.volume.value * 100.0 else 0.0)
  {
    assert (bars + [bar])[..|bars|] == bars;
  }

  lemma {:induction false} ExtremesGrow(prices: seq<real>, price: real)
    ensures MaxOf(prices + [price]) == if prices == [] then price else Max(MaxOf(prices), price)
    ensures MinOf(prices + [price]) == if prices == [] then price else Min(MinOf(prices), price)
  {
    assert (prices + [price])[..|prices|] == prices;
  }

  method AddPriced(t: Totals, bar: MinuteBar, ghost bars: seq<MinuteBar>) returns (next: Totals)
    requires Tracks(t, bars) && bar.price.Some?
    requires t.prices == [] ==> t.high == t.low == bar.price.value
    ensures Tracks(next, bars + [bar])
  {
    PricesGrow(bars, bar);
    TotalsGrow(bars, bar);
    ExtremesGrow(t.prices, bar.price.value);
    var price := bar.price.value;
    next := t;
    if bar.amount.Some? && bar.volume.Some? && bar.volume.value > 0.0 {
      next := next.(amount := t.amount + bar.amount.value, shares := t.shares + bar.volume.value * 100.0);
    }
    next := next.(high := Max(t.high, price), low := Min(t.low, price), prices := t.prices + [price]);
  }

  method MakeRowAt(t: Totals, bars: seq<MinuteBar>, i: nat) returns (row: MinuteRow)
    requires i < |bars| && bars[i].price.Some? && Tracks(t, bars[..i + 1])
    ensures Prices(bars[..i + 1]) != [] && row == LoopRow(bars[..i + 1])
  {
    PricesGrow(bars[..i], bars[i]);
    assert bars[..i + 1] == bars[..i] + [bars[i]];
    var window := bars[(if i < 20 then 0 else i - 20)..i];
    assert window == Last(bars[..i + 1][..i], 20);
    var baseline := PositiveVolumes(window);
    var baselineMean := if |baseline| == 20 then Some(Mean(baseline)) else None;
    row := MakeRow(bars[i], t.prices, t.low, t.high, t.amount, t.shares, baselineMean);
  }

  lemma {:induction false} SkipUnpriced(t: Totals, bars: seq<MinuteBar>, i: nat)
    requires i < |bars| && bars[i].price == None && Tracks(t, bars[..i])
    ensures Tracks(t, bars[..i + 1]) && LoopRows(bars[..i + 1]) == LoopRows(bars[..i])
  {
    assert bars[..i + 1] == bars[..i] + [bars[i]] && bars[..i + 1][..i] == bars[..i];
    PricesGrow(bars[..i], bars[i]);
  }

  lemma {:induction false} RowsGrow(bars: seq<MinuteBar>, i: nat)
    requires i < |bars| && bars[i].price.Some?
    ensures Prices(bars[..i + 1]) != [] && LoopRows(bars[..i + 1]) == LoopRows(bars[..i]) + [LoopRow(bars[..i + 1])]
  {
    PricesGrow(bars[..i], bars[i]);
    assert bars[..i + 1] == bars[..i] + [bars[i]] && bars[..i + 1][..i] == bars[..i];
  }

  method MinuteFactorRows(bars: seq<MinuteBar>) returns (rows: seq<MinuteRow>)
    ensures rows == LoopRows(bars)
  {
    rows := [];
    var first := FirstPrice(bars);
    if first == None {
      UnpricedRows(bars);
      return;
    }
    var t := Totals(0.0, 0.0, [], first.value, first.value);
    assert bars[..0] == [] && bars[0..] == bars;
    for i := 0 to |bars|
      invariant Tracks(t, bars[..i])
      invariant t.prices == [] ==> FirstPrice(bars[i..]) == first && t.high == t.low == first.value
      invariant rows == LoopRows(bars[..i])
    {
      assert bars[i..][1..] == bars[i + 1..];
      if bars[i].price == None {
        SkipUnpriced(t, bars, i);
        continue;
      }
      assert bars[..i + 1] == bars[..i] + [bars[i]];
      t := AddPriced(t, bars[i], bars[..i]);
      var row := MakeRowAt(t, bars, i);
      RowsGrow(bars, i);
      rows := rows + [row];
    }
    assert bars[..|bars|] == bars;
  }

  // ----- the SQL windows

  /** `sum(x) FILTER (WHERE traded)` over the rows up to the current one: NULL when none qualifies. */
  function FilteredAmounts(bars: seq<MinuteBar>): seq<real>
  {
    if bars == [] then []
    else
      var b := bars[|bars| - 1];
      FilteredAmounts(bars[..|bars| - 1]) + (if Traded(b) then [b.amount.value] else [])
  }

  function FilteredVolumes(bars: seq<MinuteBar>): seq<real>
  {
    if bars == [] then []
    else
      var b := bars[|bars| - 1];
      FilteredVolumes(bars[..|bars| - 1]) + (if Traded(b) then [b.volume.value] else [])
  }

  function SqlSum(s: seq<real>): Option<real> { if s == [] then None else Some(Sum(s)) }

  function Minus(x: Option<real>, y: Option<real>): Option<real>
  {
    if x.Some? && y.Some? then Some(x.value - y.value) else None
  }

  function SqlReturn(bars: seq<MinuteBar>, minutes: nat): Option<real>
    requires bars != []
  {
    var base := Lag(PriceColumn(bars), minutes);
    Percent(Ratio(Minus(bars[|bars| - 1].price, base), base))
  }

  function SqlVwap(bars: seq<MinuteBar>): Option<real>
  {
    var volume := SqlSum(FilteredVolumes(bars));
    Ratio(SqlSum(FilteredAmounts(bars)), if volume.Some? then Some(volume.value * 100.0) else None)
  }

  function SqlVolumeRatio(bars: seq<MinuteBar>): Option<real>
    requires bars != []
  {
    var window := PositiveVolumes(Last(bars[..|bars| - 1], 20));
    if |window| == 20 then Ratio(bars[|bars| - 1].volume, Some(Mean(window))) else None
  }

  function SqlPosition(bars: seq<MinuteBar>): Option<real>
    requires bars != []
  {
    var low, high := SqlMin(PriceColumn(bars)), SqlMax(PriceColumn(bars));
    Ratio(Minus(bars[|bars| - 1].price, low), Minus(high, low))
  }

  function SqlMa(bars: seq<MinuteBar>, n: nat): Option<real> { SqlAvg(Last(PriceColumn(bars), n)) }

  function SqlRow(bars: seq<MinuteBar>): MinuteRow
    requires bars != []
  {
    MinuteRow(bars[|bars| - 1].time, SqlVwap(bars), SqlReturn(bars, 1), SqlReturn(bars, 5), SqlReturn(bars, 15),
              SqlMa(bars, 5), SqlMa(bars, 10), SqlMa(bars, 20), SqlVolumeRatio(bars), SqlPosition(bars))
  }

  function SqlRows(bars: seq<MinuteBar>): seq<MinuteRow>
  {
    if bars == [] then []
    else SqlRows(bars[..|bars| - 1]) + (if bars[|bars| - 1].price.Some? then [SqlRow(bars)] else [])
  }

  // ----- agreement

  ghost predicate AllPriced(bars: seq<MinuteBar>)
  {
    forall i :: 0 <= i < |bars| ==> bars[i].price.Some?
  }

  lemma {:induction false} NonNullOfSome(s: seq<Option<real>>)
    requires forall i :: 0 <= i < |s| ==> s[i].Some?
    ensures |NonNull(s)| == |s| && forall i :: 0 <= i < |s| ==> NonNull(s)[i] == s[i].value
  {
    if s != [] { NonNullOfSome(s[..|s| - 1]); }
  }

  lemma {:induction false} WindowOfPrices(bars: seq<MinuteBar>, n: nat)
    requires bars != [] && AllPriced(bars) && n > 0
    ensures SqlMa(bars, n) == Some(Mean(Last(Prices(bars), n)))
  {
    var column := PriceColumn(bars);
    NonNullOfSome(column);
    NonNullOfSome(Last(column, n));
    assert NonNull(Last(column, n)) == Last(Prices(bars), n);
  }

  lemma {:induction false} AmountsAgree(bars: seq<MinuteBar>)
    requires AllPriced(bars)
    ensures TotalAmount(bars) == Sum(FilteredAmounts(bars)) && |FilteredAmounts(bars)| == |FilteredVolumes(bars)|
  {
    if bars != [] {
      var front, b := bars[..|bars| - 1], bars[|bars| - 1];
      AmountsAgree(front);
      if Traded(b) {
        assert FilteredAmounts(bars) == FilteredAmounts(front) + [b.amount.value];
        SumAppend(FilteredAmounts(front), b.amount.value);
      } else {
        assert FilteredAmounts(bars) == FilteredAmounts(front) && FilteredVolumes(bars) == FilteredVolumes(front);
      }
    }
  }

  lemma {:induction false} SharesAgree(bars: seq<MinuteBar>)
    requires AllPriced(bars)
    ensures TotalShares(bars) == Sum(FilteredVolumes(bars)) * 100.0
    ensures if FilteredVolumes(bars) == [] then TotalShares(bars) == 0.0 else TotalShares(bars) > 0.0
  {
    if bars != [] {
      var front, b := bars[..|bars| - 1], bars[|bars| - 1];
      SharesAgree(front);
      if Traded(b) {
        assert FilteredVolumes(bars) == FilteredVolumes(front) + [b.volume.value];
        SumAppend(FilteredVolumes(front), b.volume.value);
      } else {
        assert FilteredVolumes(bars) == FilteredVolumes(front);
      }
    }
  }

  lemma {:induction false} VwapsAgree(bars: seq<MinuteBar>)
    requires bars != [] && AllPriced(bars)
    ensures SqlVwap(bars) == Vwap(TotalAmount(bars), TotalShares(bars))
  {
    AmountsAgree(bars);
    SharesAgree(bars);
  }

  lemma {:induction false} PositionsAgree(bars: seq<MinuteBar>)
    requires bars != [] && AllPriced(bars)
    ensures var prices := Prices(bars);
            && prices != []
            && SqlPosition(bars) == Position(prices[|prices| - 1], MinOf(prices), MaxOf(prices))
  {
    NonNullOfSome(PriceColumn(bars));
  }

  lemma {:induction false} ReturnsAgree(bars: seq<MinuteBar>, minutes: nat)
    requires bars != [] && AllPriced(bars)
    ensures SqlReturn(bars, minutes) == TrailingReturn(Prices(bars), minutes)
  {
    NonNullOfSome(PriceColumn(bars));
  }

  /** The row of a bar agrees with the SQL row whenever every bar up to it has a price. */
  lemma {:induction false} RowsAgree(bars: seq<MinuteBar>)
    requires bars != [] && AllPriced(bars)
    ensures Prices(bars) != [] && LoopRow(bars) == SqlRow(bars)
  {
    PositionsAgree(bars);
    VwapsAgree(bars);
    WindowOfPrices(bars, 5);
    WindowOfPrices(bars, 10);
    WindowOfPrices(bars, 20);
    ReturnsAgree(bars, 1);
    ReturnsAgree(bars, 5);
    ReturnsAgree(bars, 15);
  }

  /** On a fully priced day the two implementations store the same rows. */
  lemma {:induction false} LoopEqualsWindows(bars: seq<MinuteBar>)
    requires AllPriced(bars)
    ensures LoopRows(bars) == SqlRows(bars) && |LoopRows(bars)| == |bars|
  {
    if bars != [] {
      LoopEqualsWindows(bars[..|bars| - 1]);
      RowsAgree(bars);
    }
  }

  // ----- ranges

  /** The intraday position ratio, where defined, lies in [0, 1]. */
  lemma {:induction false} PositionInUnitInterval(bars: seq<MinuteBar>)
    requires bars != [] && bars[|bars| - 1].price.Some?
    ensures Prices(bars) != []
    ensures LoopRow(bars).position.Some? ==> 0.0 <= LoopRow(bars).position.value <= 1.0
  {
    var prices := Prices(bars);
    MaxOfIs(prices);
    MinOfIs(prices);
    UnitRatio(prices[|prices| - 1], MinOf(prices), MaxOf(prices));
  }

  lemma {:induction false} UnitRatio(price: real, low: real, high: real)
    requires low <= price <= high
    ensures Position(price, low, high).Some? ==> 0.0 <= Position(price, low, high).value <= 1.0
  {
    if high != low { QuotientBounds(price - low, high - low, 0.0, 1.0); }
  }

  /** The amount of a bar lies between `lo` and `hi` times its share count. */
  predicate AmountBetween(b: MinuteBar, lo: real, hi: real)
  {
    Traded(b) ==> Times(b.volume.value * 100.0, lo) <= b.amount.value <= Times(b.volume.value * 100.0, hi)
  }

  lemma {:induction false} TimesSum(a: real, b: real, k: real)
    ensures Times(a + b, k) == Times(a, k) + Times(b, k)
  {
  }

  lemma {:induction false} TotalsBetween(bars: seq<MinuteBar>, lo: real, hi: real)
    requires forall i :: 0 <= i < |bars| ==> AmountBetween(bars[i], lo, hi)
    ensures Times(TotalShares(bars), lo) <= TotalAmount(bars) <= Times(TotalShares(bars), hi)
    ensures TotalShares(bars) >= 0.0
  {
    if bars != [] {
      var front, b := bars[..|bars| - 1], bars[|bars| - 1];
      TotalsBetween(front, lo, hi);
      if b.price.Some? && Traded(b) {
        TimesSum(TotalShares(front), b.volume.value * 100.0, lo);
        TimesSum(TotalShares(front), b.volume.value * 100.0, hi);
      }
    }
  }

  lemma {:induction false} BarPriceBetween(amount: real, shares: real, lo: real, hi: real)
    requires shares > 0.0 && lo <= amount / shares <= hi
    ensures Times(shares, lo) <= amount <= Times(shares, hi)
  {
    var p := amount / shares;
    assert p * shares == amount;
    ScaleOrder(lo, p, shares);
    ScaleOrder(p, hi, shares);
  }

  lemma {:induction false} VwapBounds(amount: real, shares: real, lo: real, hi: real)
    requires shares >= 0.0 && Times(shares, lo) <= amount <= Times(shares, hi)
    ensures Vwap(amount, shares).Some? ==> lo <= Vwap(amount, shares).value <= hi
  {
    if shares != 0.0 { QuotientBounds(amount, shares, lo, hi); }
  }

  lemma {:induction false} TotalVwapBetween(bars: seq<MinuteBar>, lo: real, hi: real)
    requires forall i :: 0 <= i < |bars| ==> AmountBetween(bars[i], lo, hi)
    ensures var v := Vwap(TotalAmount(bars), TotalShares(bars)); v.Some? ==> lo <= v.value <= hi
  {
    TotalsBetween(bars, lo, hi);
    VwapBounds(TotalAmount(bars), TotalShares(bars), lo, hi);
  }

  /** The VWAP lies between any bounds on the per-bar prices amount / (100 * volume). */
  lemma {:induction false} VwapBetweenBarPrices(bars: seq<MinuteBar>, lo: real, hi: real)
    requires bars != [] && Prices(bars) != []
    requires forall i :: 0 <= i < |bars| && Traded(bars[i]) ==>
             lo <= bars[i].amount.value / (bars[i].volume.value * 100.0) <= hi
    ensures LoopRow(bars).vwap.Some? ==> lo <= LoopRow(bars).vwap.value <= hi
  {
    forall i | 0 <= i < |bars| ensures AmountBetween(bars[i], lo, hi) {
      if Traded(bars[i]) { BarPriceBetween(bars[i].amount.value, bars[i].volume.value * 100.0, lo, hi); }
    }
    TotalVwapBetween(bars, lo, hi);
  }
}
