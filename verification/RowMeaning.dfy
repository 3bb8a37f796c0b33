/** What the columns of an assembled row are, said of the QFQ rows in their windows, NULLs included. */
module RowMeaning {
  import opened Wrappers
  import opened Windows
  import opened SqlWindows
  import opened TechnicalCore
  import opened FactorRow

  /** The first of the last `n` rows. */
  function First(bars: seq<QfqBar>, n: nat): nat { if |bars| <= n then 0 else |bars| - n }

  /** A QFQ price times the latest factor is the raw price times the factor of its day; it is missing
      when either of those is, or the latest factor is zero. */
  lemma {:induction false} QfqMeaning(price: Option<real>, adj: Option<real>, latest: real)
    ensures Qfq(price, adj, latest) == None <==> price == None || adj == None || latest == 0.0
    ensures Qfq(price, adj, latest).Some? ==> Qfq(price, adj, latest).value * latest == price.value * adj.value
  {
  }

  /** The price columns of a row are the QFQ prices of its day. */
  lemma {:induction false} PriceColumnsMean(days: seq<Day>, latest: real, root: real -> real)
    requires days != []
    ensures var bars, day := QfqBars(days, latest), days[|days| - 1];
            && RowValue(OpenQfq, bars, root) == Qfq(day.open, day.adj, latest)
            && RowValue(HighQfq, bars, root) == Qfq(day.high, day.adj, latest)
            && RowValue(LowQfq, bars, root) == Qfq(day.low, day.adj, latest)
            && RowValue(CloseQfq, bars, root) == Qfq(day.close, day.adj, latest)
  {
  }

  // ----- windows with NULLs

  lemma {:induction false} NonNullIs(s: seq<Option<real>>)
    ensures forall x :: x in NonNull(s) <==> Some(x) in s
    ensures |NonNull(s)| <= |s|
    ensures (forall i :: 0 <= i < |s| ==> s[i].Some?) ==>
              |NonNull(s)| == |s| && forall i :: 0 <= i < |s| ==> Some(NonNull(s)[i]) == s[i]
  {
    if s != [] {
      var front := s[..|s| - 1];
      NonNullIs(front);
      assert s == front + [s[|s| - 1]];
    }
  }

  lemma {:induction false} InNonNull(s: seq<Option<real>>, x: real)
    ensures x in NonNull(s) <==> Some(x) in s
  {
    NonNullIs(s);
  }

  /** `r` is the largest known price of the last `n` rows, or missing when none is known. */
  ghost predicate Largest(column: seq<Option<real>>, n: nat, r: Option<real>)
  {
    var from := if |column| <= n then 0 else |column| - n;
    match r
    case None => forall i :: from <= i < |column| ==> column[i] == None
    case Some(x) =>
      (exists i :: from <= i < |column| && column[i] == Some(x)) &&
      forall i :: from <= i < |column| && column[i].Some? ==> column[i].value <= x
  }

  ghost predicate Smallest(column: seq<Option<real>>, n: nat, r: Option<real>)
  {
    var from := if |column| <= n then 0 else |column| - n;
    match r
    case None => forall i :: from <= i < |column| ==> column[i] == None
    case Some(x) =>
      (exists i :: from <= i < |column| && column[i] == Some(x)) &&
      forall i :: from <= i < |column| && column[i].Some? ==> x <= column[i].value
  }

  lemma {:induction false} LastRow(column: seq<Option<real>>, n: nat, i: nat)
    requires (if |column| <= n then 0 else |column| - n) <= i < |column|
    ensures column[i] in Last(column, n)
  {
    var from := if |column| <= n then 0 else |column| - n;
    assert Last(column, n)[i - from] == column[i];
  }

  lemma {:induction false} RowOfLast(column: seq<Option<real>>, n: nat, x: Option<real>) returns (i: nat)
    requires x in Last(column, n)
    ensures (if |column| <= n then 0 else |column| - n) <= i < |column| && column[i] == x
  {
    var j :| 0 <= j < |Last(column, n)| && Last(column, n)[j] == x;
    i := j + (if |column| <= n then 0 else |column| - n);
  }

  lemma {:induction false} KnownInLast(column: seq<Option<real>>, n: nat, i: nat)
    requires (if |column| <= n then 0 else |column| - n) <= i < |column| && column[i].Some?
    ensures column[i].value in NonNull(Last(column, n))
  {
    LastRow(column, n, i);
    InNonNull(Last(column, n), column[i].value);
  }

  lemma {:induction false} NothingKnown(column: seq<Option<real>>, n: nat)
    requires NonNull(Last(column, n)) == []
    ensures Largest(column, n, None) && Smallest(column, n, None)
  {
    NonNullIs(Last(column, n));
    forall i | (if |column| <= n then 0 else |column| - n) <= i < |column| ensures column[i] == None {
      LastRow(column, n, i);
      if column[i].Some? { KnownInLast(column, n, i); }
    }
  }

  lemma {:induction false} MaxIsLargest(column: seq<Option<real>>, n: nat)
    ensures Largest(column, n, SqlMax(Last(column, n)))
  {
    var known := NonNull(Last(column, n));
    if known == [] {
      NothingKnown(column, n);
    } else {
      MaxOfIs(known);
      InNonNull(Last(column, n), MaxOf(known));
      var i := RowOfLast(column, n, Some(MaxOf(known)));
      forall k | (if |column| <= n then 0 else |column| - n) <= k < |column| && column[k].Some?
        ensures column[k].value <= MaxOf(known)
      {
        KnownInLast(column, n, k);
      }
    }
  }

  lemma {:induction false} MinIsSmallest(column: seq<Option<real>>, n: nat)
    ensures Smallest(column, n, SqlMin(Last(column, n)))
  {
    var known := NonNull(Last(column, n));
    if known == [] {
      NothingKnown(column, n);
    } else {
      MinOfIs(known);
      InNonNull(Last(column, n), MinOf(known));
      var i := RowOfLast(column, n, Some(MinOf(known)));
      forall k | (if |column| <= n then 0 else |column| - n) <= k < |column| && column[k].Some?
        ensures MinOf(known) <= column[k].value
      {
        KnownInLast(column, n, k);
      }
    }
  }

  // ----- the columns

  /** The rolling high and low are the extremes of the known highs and lows of the last rows, the
      current one included. */
  lemma {:induction false} ExtremesMean(bars: seq<QfqBar>, n: Period, root: real -> real)
    requires bars != []
    ensures forall i :: 0 <= i < |bars| ==> HighColumn(bars)[i] == bars[i].high && LowColumn(bars)[i] == bars[i].low
    ensures Largest(HighColumn(bars), n, RowValue(HighOver(n), bars, root))
    ensures Smallest(LowColumn(bars), n, RowValue(LowOver(n), bars, root))
  {
    MaxIsLargest(HighColumn(bars), n);
    MinIsSmallest(LowColumn(bars), n);
  }

  lemma {:induction false} GrowthMeaning(x: Option<real>, y: Option<real>)
    ensures Growth(x, y) == None <==> x == None || y == None || y == Some(0.0)
    ensures Growth(x, y).Some? ==> (1.0 + Growth(x, y).value) * y.value == x.value
  {
    if Growth(x, y).Some? { assert (x.value / y.value) * y.value == x.value; }
  }

  /** The distance from the rolling high leads from it to the close, and the drawdown is that distance in
      percent. */
  lemma {:induction false} HighDistanceMeans(bars: seq<QfqBar>, n: Period, root: real -> real)
    requires bars != []
    ensures var close, hi := bars[|bars| - 1].close, RowValue(HighOver(n), bars, root);
            var d := RowValue(DistanceHigh(n), bars, root);
            && (d == None <==> close == None || hi == None || hi == Some(0.0))
            && (d.Some? ==> (1.0 + d.value) * hi.value == close.value)
            && RowValue(DrawdownPct(n), bars, root) == if d.Some? then Some(d.value * 100.0) else None
  {
    GrowthMeaning(bars[|bars| - 1].close, SqlMax(Last(HighColumn(bars), n)));
  }

  /** The distance from the rolling low leads from it to the close. */
  lemma {:induction false} LowDistanceMeans(bars: seq<QfqBar>, n: Period, root: real -> real)
    requires bars != []
    ensures var close, lo := bars[|bars| - 1].close, RowValue(LowOver(n), bars, root);
            var d := RowValue(DistanceLow(n), bars, root);
            && (d == None <==> close == None || lo == None || lo == Some(0.0))
            && (d.Some? ==> (1.0 + d.value) * lo.value == close.value)
  {
    GrowthMeaning(bars[|bars| - 1].close, SqlMin(Last(LowColumn(bars), n)));
  }

  /** The previous close is that of the row before; the return over `n` rows grows the close of `n` rows
      before to the current one, in percent. */
  lemma {:induction false} ReturnsMean(bars: seq<QfqBar>, n: Period, root: real -> real)
    requires bars != []
    ensures RowValue(PreCloseQfq, bars, root) == if |bars| == 1 then None else bars[|bars| - 2].close
    ensures var last, r := |bars| - 1, RowValue(ReturnPct(n), bars, root);
            && (r == None <==> n > last || bars[last].close == None || bars[last - n].close in {None, Some(0.0)})
            && (r.Some? ==> (1.0 + r.value / 100.0) * bars[last - n].close.value == bars[last].close.value)
  {
    var last := |bars| - 1;
    assert CloseColumn(bars)[last] == bars[last].close;
    if n <= last { GrowthMeaning(bars[last].close, bars[last - n].close); }
  }

  function Known(column: seq<Option<real>>, n: nat): (s: seq<real>)
    requires forall i :: 0 <= i < |column| ==> column[i].Some?
    ensures |s| == if |column| <= n then |column| else n
  {
    var from := if |column| <= n then 0 else |column| - n;
    seq(|column| - from, j requires 0 <= j < |column| - from => column[from + j].value)
  }

  lemma {:induction false} KnownIsNonNull(column: seq<Option<real>>, n: nat)
    requires forall i :: 0 <= i < |column| ==> column[i].Some?
    ensures NonNull(Last(column, n)) == Known(column, n)
  {
    NonNullIs(Last(column, n));
    var from := if |column| <= n then 0 else |column| - n;
    forall j | 0 <= j < |Known(column, n)| ensures NonNull(Last(column, n))[j] == Known(column, n)[j] {
      assert Last(column, n)[j] == column[from + j];
    }
  }

  lemma {:induction false} AverageMissing(closes: seq<Option<real>>, n: nat)
    ensures SqlAvg(Last(closes, n)) == None <==>
            forall i :: (if |closes| <= n then 0 else |closes| - n) <= i < |closes| ==> closes[i] == None
  {
    var known := NonNull(Last(closes, n));
    if known == [] {
      NothingKnown(closes, n);
    } else {
      InNonNull(Last(closes, n), known[0]);
      var i := RowOfLast(closes, n, Some(known[0]));
      assert closes[i] == Some(known[0]);
    }
  }

  /** The moving average is the mean of the closes of the last rows; without any close there is none. */
  lemma {:induction false} AverageMeans(bars: seq<QfqBar>, n: Period, root: real -> real)
    requires bars != []
    ensures forall i :: 0 <= i < |bars| ==> CloseColumn(bars)[i] == bars[i].close
    ensures (forall i :: 0 <= i < |bars| ==> CloseColumn(bars)[i].Some?) ==>
              RowValue(Ma(n), bars, root) == Some(Mean(Known(CloseColumn(bars), n)))
    ensures RowValue(Ma(n), bars, root) == None <==>
            forall i :: First(bars, n) <= i < |bars| ==> CloseColumn(bars)[i] == None
  {
    var closes := CloseColumn(bars);
    AverageMissing(closes, n);
    if forall i :: 0 <= i < |bars| ==> closes[i].Some? {
      KnownIsNonNull(closes, n);
      assert Known(closes, n) != [];
    }
  }

  /** The volatility is the population standard deviation of the one-row returns of the last rows. */
  lemma {:induction false} VolatilityMeans(bars: seq<QfqBar>, n: Period, root: real -> real)
    requires bars != [] && IsRoot(root)
    ensures forall i :: 0 <= i < |bars| ==> DailyReturns(bars)[i] == RowValue(ReturnPct(1), bars[..i + 1], root)
    ensures var changes, v := NonNull(Last(DailyReturns(bars), n)), RowValue(Volatility(n), bars, root);
            && (v == None <==> changes == [])
            && (v.Some? ==> v.value >= 0.0 && Times(v.value, v.value) == Mean(Deviations(changes, Mean(changes))))
  {
    var changes := NonNull(Last(DailyReturns(bars), n));
    if changes != [] { RootSquared(root, Variance(changes)); }
  }

  lemma {:induction false} RootSquared(root: real -> real, v: real)
    requires IsRoot(root) && v >= 0.0
    ensures root(v) >= 0.0 && Times(root(v), root(v)) == v
  {
    assert root(v) * root(v) == v;
  }

  // ----- the series behind the technical columns

  function CoreBar(bar: QfqBar): Bar
    requires bar.close.Some?
  {
    Bar(bar.date, bar.high, bar.low, bar.close.value)
  }

  /** The series holds exactly the rows with a close, each with its own date, high and low. */
  lemma {:induction false} CoreSeriesHolds(bars: seq<QfqBar>, b: Bar)
    ensures b in CoreSeries(bars) <==> QfqBar(b.date, None, b.high, b.low, Some(b.close)) in WithoutOpen(bars)
  {
    if bars != [] {
      var front, n := bars[..|bars| - 1], |bars| - 1;
      CoreSeriesHolds(front, b);
      assert WithoutOpen(bars) == WithoutOpen(front) + [bars[n].(open := None)];
    }
  }

  function WithoutOpen(bars: seq<QfqBar>): (s: seq<QfqBar>)
    ensures |s| == |bars| && forall i :: 0 <= i < |bars| ==> s[i] == bars[i].(open := None)
  {
    seq(|bars|, i requires 0 <= i < |bars| => bars[i].(open := None))
  }

  /** And in order: with a close on every row it is the rows one by one. */
  lemma {:induction false} CoreSeriesInOrder(bars: seq<QfqBar>)
    requires forall i :: 0 <= i < |bars| ==> bars[i].close.Some?
    ensures |CoreSeries(bars)| == |bars| && forall i :: 0 <= i < |bars| ==> CoreSeries(bars)[i] == CoreBar(bars[i])
  {
    if bars != [] { CoreSeriesInOrder(bars[..|bars| - 1]); }
  }

  /** A technical column is there exactly on rows with a close. */
  lemma {:induction false} TechnicalColumnThere(bars: seq<QfqBar>, c: Column, root: real -> real)
    requires bars != []
    ensures RowValue(TechnicalColumn(c), bars, root) == None <==> bars[|bars| - 1].close == None
  {
  }

  /** It is the value of the series that ends with that row. */
  lemma {:induction false} SeriesEndsHere(bars: seq<QfqBar>)
    requires bars != [] && bars[|bars| - 1].close.Some?
    ensures CoreSeries(bars) != [] && CoreSeries(bars)[|CoreSeries(bars)| - 1] == CoreBar(bars[|bars| - 1])
  {
  }
}
