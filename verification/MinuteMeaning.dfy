/** What the figures of a minute row are, said of the bars of the day so far; the SQL rows agree with
    them wherever `MinuteFactors` and `MinuteGaps` say so. */
module MinuteMeaning {
  import opened Wrappers
  import opened Windows
  import opened SqlWindows
  import opened MinuteFactors

  lemma {:induction false} RatioMeaning(n: Option<real>, d: Option<real>)
    ensures Ratio(n, d) == None <==> n == None || d == None || d == Some(0.0)
    ensures Ratio(n, d).Some? ==> Ratio(n, d).value * d.value == n.value
  {
  }

  /** The figure grows the price `back` priced bars before to the current one, in percent; it is missing
      when there are too few or that price is zero. */
  ghost predicate Grows(figure: Option<real>, prices: seq<real>, back: nat)
    requires prices != []
  {
    var last := |prices| - 1;
    match figure
    case None => back > last || prices[last - back] == 0.0
    case Some(r) => back <= last && (1.0 + r / 100.0) * prices[last - back] == prices[last]
  }

  lemma {:induction false} ReturnMeaning(prices: seq<real>, back: nat)
    requires prices != []
    ensures Grows(TrailingReturn(prices, back), prices, back)
  {
    var last := |prices| - 1;
    if back <= last && prices[last - back] != 0.0 {
      var base := prices[last - back];
      var q := (prices[last] - base) / base;
      assert q * base == prices[last] - base;
    }
  }

  // ----- turnover

  function Amounts(bars: seq<MinuteBar>): (s: seq<real>)
    ensures |s| == |bars|
  {
    seq(|bars|, i requires 0 <= i < |bars| =>
      var b := bars[i];
      if b.price.Some? && b.amount.Some? && b.volume.Some? && b.volume.value > 0.0 then b.amount.value else 0.0)
  }

  function Shares(bars: seq<MinuteBar>): (s: seq<real>)
    ensures |s| == |bars|
  {
    seq(|bars|, i requires 0 <= i < |bars| =>
      var b := bars[i];
      if b.price.Some? && b.amount.Some? && b.volume.Some? && b.volume.value > 0.0 then 100.0 * b.volume.value else 0.0)
  }

  lemma {:induction false} TotalsAreSums(bars: seq<MinuteBar>)
    ensures TotalAmount(bars) == Sum(Amounts(bars)) && TotalShares(bars) == Sum(Shares(bars))
  {
    if bars != [] {
      var front, n := bars[..|bars| - 1], |bars| - 1;
      TotalsAreSums(front);
      assert Amounts(bars) == Amounts(front) + [Amounts(bars)[n]] && Shares(bars) == Shares(front) + [Shares(bars)[n]];
      SumAppend(Amounts(front), Amounts(bars)[n]);
      SumAppend(Shares(front), Shares(bars)[n]);
    }
  }

  /** The VWAP is the turnover of the priced bars so far over their shares, a hundred to the lot. */
  lemma {:induction false} VwapMeans(bars: seq<MinuteBar>)
    requires bars != [] && Prices(bars) != []
    ensures var vwap, shares := LoopRow(bars).vwap, Sum(Shares(bars));
            (vwap == None <==> shares == 0.0) && (vwap.Some? ==> vwap.value * shares == Sum(Amounts(bars)))
  {
    TotalsAreSums(bars);
    QuotientBack(Sum(Amounts(bars)), Sum(Shares(bars)));
  }

  lemma {:induction false} QuotientBack(x: real, y: real)
    ensures y != 0.0 ==> (x / y) * y == x
  {
  }

  // ----- prices

  /** The prices are those of the priced bars, in order. */
  lemma {:induction false} PricesAre(bars: seq<MinuteBar>)
    ensures forall p :: p in Prices(bars) <==> exists i :: 0 <= i < |bars| && bars[i].price == Some(p)
    ensures bars != [] ==>
              Prices(bars) == Prices(bars[..|bars| - 1]) +
                              (if bars[|bars| - 1].price.Some? then [bars[|bars| - 1].price.value] else [])
  {
    if bars != [] {
      var front, n := bars[..|bars| - 1], |bars| - 1;
      PricesAre(front);
      assert PriceColumn(bars)[..n] == PriceColumn(front);
      forall p ensures p in Prices(bars) <==> exists i :: 0 <= i < |bars| && bars[i].price == Some(p) {
        if p in Prices(front) {
          var i :| 0 <= i < |front| && front[i].price == Some(p);
          assert bars[i].price == Some(p);
        }
        if i :| 0 <= i < |bars| && bars[i].price == Some(p) {
          if i < n { assert front[i].price == Some(p); }
        }
      }
    }
  }

  /** The figure is the mean of the last `n` prices. */
  ghost predicate Averages(figure: Option<real>, prices: seq<real>, n: nat)
  {
    var count := if |prices| <= n then |prices| else n;
    figure.Some? && figure.value * (count as real) == Sum(prices[|prices| - count..])
  }

  lemma {:induction false} MeanMeaning(prices: seq<real>, n: nat)
    requires prices != [] && n > 0
    ensures Averages(Some(Mean(Last(prices, n))), prices, n)
  {
    var count := if |prices| <= n then |prices| else n;
    assert Last(prices, n) == prices[|prices| - count..];
    QuotientBack(Sum(prices[|prices| - count..]), count as real);
  }

  /** Returns over one, five and fifteen priced bars and means of the last five, ten and twenty prices. */
  lemma {:induction false} PriceFiguresMean(bars: seq<MinuteBar>)
    requires bars != [] && Prices(bars) != []
    ensures var row, prices := LoopRow(bars), Prices(bars);
            && row.time == bars[|bars| - 1].time
            && Grows(row.return1, prices, 1) && Grows(row.return5, prices, 5) && Grows(row.return15, prices, 15)
            && Averages(row.ma5, prices, 5) && Averages(row.ma10, prices, 10) && Averages(row.ma20, prices, 20)
  {
    ReturnMeaning(Prices(bars), 1);
    ReturnMeaning(Prices(bars), 5);
    ReturnMeaning(Prices(bars), 15);
    MeanMeaning(Prices(bars), 5);
    MeanMeaning(Prices(bars), 10);
    MeanMeaning(Prices(bars), 20);
  }

  lemma {:induction false} ExtremesAre(prices: seq<real>, lo: real, hi: real)
    requires prices != [] && lo in prices && hi in prices && forall p :: p in prices ==> lo <= p <= hi
    ensures MinOf(prices) == lo && MaxOf(prices) == hi
  {
    MinOfIs(prices);
    MaxOfIs(prices);
  }

  /** The position places the price between the lowest and the highest price so far. */
  lemma {:induction false} PositionMeans(bars: seq<MinuteBar>, lo: real, hi: real, price: real)
    requires bars != [] && bars[|bars| - 1].price == Some(price)
    requires forall i :: 0 <= i < |bars| && bars[i].price.Some? ==> lo <= bars[i].price.value <= hi
    requires exists i :: 0 <= i < |bars| && bars[i].price == Some(lo)
    requires exists i :: 0 <= i < |bars| && bars[i].price == Some(hi)
    ensures Prices(bars) != []
    ensures LoopRow(bars).position == Position(price, lo, hi)
  {
    PriceRange(bars, lo, hi);
    LastPrice(bars, price);
  }

  lemma {:induction false} LastPrice(bars: seq<MinuteBar>, price: real)
    requires bars != [] && bars[|bars| - 1].price == Some(price)
    ensures Prices(bars) != [] && Prices(bars)[|Prices(bars)| - 1] == price
  {
    PricesAre(bars);
  }

  lemma {:induction false} PositionMeaning(price: real, lo: real, hi: real)
    ensures Position(price, lo, hi) == None <==> lo == hi
    ensures Position(price, lo, hi).Some? ==> Position(price, lo, hi).value * (hi - lo) == price - lo
  {
    RatioMeaning(Some(price - lo), Some(hi - lo));
  }

  lemma {:induction false} PriceRange(bars: seq<MinuteBar>, lo: real, hi: real)
    requires forall i :: 0 <= i < |bars| && bars[i].price.Some? ==> lo <= bars[i].price.value <= hi
    requires exists i :: 0 <= i < |bars| && bars[i].price == Some(lo)
    requires exists i :: 0 <= i < |bars| && bars[i].price == Some(hi)
    ensures Prices(bars) != [] && MinOf(Prices(bars)) == lo && MaxOf(Prices(bars)) == hi
  {
    PricesAre(bars);
    ExtremesAre(Prices(bars), lo, hi);
  }

  // ----- volume

  lemma {:induction false} PositiveVolumesAre(bars: seq<MinuteBar>)
    ensures |PositiveVolumes(bars)| <= |bars|
    ensures |PositiveVolumes(bars)| == |bars| <==>
            forall i :: 0 <= i < |bars| ==> bars[i].volume.Some? && bars[i].volume.value > 0.0
    ensures |PositiveVolumes(bars)| == |bars| ==>
              forall i :: 0 <= i < |bars| ==> bars[i].volume == Some(PositiveVolumes(bars)[i])
  {
    if bars != [] {
      var front := bars[..|bars| - 1];
      PositiveVolumesAre(front);
      forall i | 0 <= i < |front| ensures front[i] == bars[i] {}
    }
  }

  /** The volume ratio compares the volume with the mean volume of the twenty bars before. */
  lemma {:induction false} VolumeRatioMeans(bars: seq<MinuteBar>, before: seq<real>)
    requires |bars| > 20 && |before| == 20 && Prices(bars) != []
    requires forall j :: 0 <= j < 20 ==> before[j] > 0.0 && bars[|bars| - 21..|bars| - 1][j].volume == Some(before[j])
    ensures Mean(before) > 0.0
    ensures var ratio, volume := LoopRow(bars).volumeRatio, bars[|bars| - 1].volume;
            ratio == if volume.Some? then Some(volume.value / Mean(before)) else None
  {
    var window := bars[|bars| - 21..|bars| - 1];
    assert Last(bars[..|bars| - 1], 20) == window;
    PositiveVolumesAre(window);
    forall j | 0 <= j < 20 ensures window[j].volume == Some(before[j]) && before[j] > 0.0 {
      assert bars[|bars| - 21..|bars| - 1][j].volume == Some(before[j]);
    }
    assert PositiveVolumes(window) == before;
    PositiveMean(before);
  }

  lemma {:induction false} PositiveMean(s: seq<real>)
    requires s != [] && forall i :: 0 <= i < |s| ==> s[i] > 0.0
    ensures Mean(s) > 0.0
  {
    MinOfIs(s);
    MaxOfIs(s);
    MeanBounds(s, MinOf(s), MaxOf(s));
  }

  /** Without twenty bars before, or when one of them did not trade, there is none. */
  lemma {:induction false} VolumeRatioMissing(bars: seq<MinuteBar>, i: nat)
    requires bars != [] && Prices(bars) != []
    requires |bars| <= 20 ||
             (|bars| - 21 <= i < |bars| - 1 && (bars[i].volume == None || bars[i].volume.value <= 0.0))
    ensures LoopRow(bars).volumeRatio == None
  {
    var window := Last(bars[..|bars| - 1], 20);
    PositiveVolumesAre(window);
    if |bars| > 20 { assert window[i - (|bars| - 21)] == bars[i]; }
  }
}
