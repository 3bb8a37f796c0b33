/** The price of a minute bar may be missing. The loop then looks back over priced bars and the SQL
    windows over rows; this module says exactly when the two still store the same figures. */
module MinuteGaps {
  import opened Wrappers
  import opened Windows
  import opened SqlWindows
  import opened MinuteFactors

  /** Traded prices are positive. */
  ghost predicate PositivePrices(bars: seq<MinuteBar>)
  {
    forall i :: 0 <= i < |bars| && bars[i].price.Some? ==> bars[i].price.value > 0.0
  }

  predicate Priced(bars: seq<MinuteBar>, i: nat)
    requires i < |bars|
  {
    bars[i].price.Some?
  }

  ghost predicate NonePriced(bars: seq<MinuteBar>) { forall i :: 0 <= i < |bars| ==> !Priced(bars, i) }

  // ---- one return

  function LoopBase(bars: seq<MinuteBar>, minutes: nat): Option<real>
  {
    var prices := Prices(bars);
    if |prices| <= minutes then None else Some(prices[|prices| - 1 - minutes])
  }

  function SqlBase(bars: seq<MinuteBar>, minutes: nat): Option<real> { Lag(PriceColumn(bars), minutes) }

  lemma {:induction false} PricesFacts(bars: seq<MinuteBar>)
    ensures |Prices(bars)| <= |bars|
    ensures Prices(bars) == [] <==> NonePriced(bars)
    ensures bars != [] && Priced(bars, |bars| - 1) ==>
            Prices(bars) != [] && Prices(bars)[|Prices(bars)| - 1] == bars[|bars| - 1].price.value
    ensures PositivePrices(bars) ==> forall i :: 0 <= i < |Prices(bars)| ==> Prices(bars)[i] > 0.0
  {
    if bars != [] {
      var front, last := bars[..|bars| - 1], bars[|bars| - 1];
      PricesFacts(front);
      PricesGrow(front, last);
      assert bars == front + [last];
      assert forall i :: 0 <= i < |front| ==> Priced(front, i) == Priced(bars, i);
      assert NonePriced(bars) <==> NonePriced(front) && !Priced(bars, |bars| - 1);
    }
  }

  lemma {:induction false} ReturnsDiffer(price: real, x: real, y: real)
    requires price > 0.0 && x > 0.0 && y > 0.0
    ensures (price - x) / x * 100.0 == (price - y) / y * 100.0 <==> x == y
  {
    var p, q := (price - x) / x, (price - y) / y;
    assert (p + 1.0) * x == price && (q + 1.0) * y == price;
    if p == q { assert (p + 1.0) * (x - y) == 0.0; }
  }

  /** The two returns of a priced bar agree exactly when the loop's base (so many priced bars back) and
      the window's base (so many rows back) are both missing or the same price. */
  lemma {:induction false} ReturnAgreesExactly(bars: seq<MinuteBar>, minutes: nat)
    requires bars != [] && Priced(bars, |bars| - 1) && PositivePrices(bars)
    ensures TrailingReturn(Prices(bars), minutes) == SqlReturn(bars, minutes) <==>
            LoopBase(bars, minutes) == SqlBase(bars, minutes)
  {
    PricesFacts(bars);
    var loop, sql := LoopBase(bars, minutes), SqlBase(bars, minutes);
    if sql.Some? { assert PriceColumn(bars)[|bars| - 1 - minutes] == bars[|bars| - 1 - minutes].price; }
    if loop.Some? && sql.Some? { ReturnsDiffer(bars[|bars| - 1].price.value, loop.value, sql.value); }
  }

  /** For one minute: the bar is the first, the bar before it is priced, or nothing earlier is. */
  lemma {:induction false} OneMinuteAgreesExactly(bars: seq<MinuteBar>)
    requires bars != [] && Priced(bars, |bars| - 1) && PositivePrices(bars)
    ensures TrailingReturn(Prices(bars), 1) == SqlReturn(bars, 1) <==>
            |bars| == 1 || Priced(bars, |bars| - 2) || NonePriced(bars[..|bars| - 1])
  {
    var front, last := bars[..|bars| - 1], bars[|bars| - 1];
    ReturnAgreesExactly(bars, 1);
    PricesGrow(front, last);
    assert bars == front + [last];
    PricesFacts(front);
    if front != [] { assert Priced(front, |front| - 1) == Priced(bars, |bars| - 2); }
  }

  /** After a gap between priced bars the loop still has a return and the window has none. */
  lemma {:induction false} MissingPriceParts(bars: seq<MinuteBar>, i: nat)
    requires |bars| >= 2 && Priced(bars, |bars| - 1) && !Priced(bars, |bars| - 2) && PositivePrices(bars)
    requires i < |bars| - 2 && Priced(bars, i)
    ensures TrailingReturn(Prices(bars), 1).Some? && SqlReturn(bars, 1) == None
  {
    var front, last := bars[..|bars| - 1], bars[|bars| - 1];
    PricesGrow(front, last);
    assert bars == front + [last];
    assert Priced(front, i);
    PricesFacts(front);
    PricesFacts(bars);
    assert Lag(PriceColumn(bars), 1) == None;
  }

  // ---- the VWAP

  /** What the windows count and the loop skips: traded bars without a price. */
  function UnpricedAmount(bars: seq<MinuteBar>): real
  {
    if bars == [] then 0.0
    else
      var b := bars[|bars| - 1];
      UnpricedAmount(bars[..|bars| - 1]) + (if b.price.None? && Traded(b) then b.amount.value else 0.0)
  }

  function UnpricedShares(bars: seq<MinuteBar>): real
  {
    if bars == [] then 0.0
    else
      var b := bars[|bars| - 1];
      UnpricedShares(bars[..|bars| - 1]) + (if b.price.None? && Traded(b) then b.volume.value * 100.0 else 0.0)
  }

  lemma {:induction false} AmountTotals(bars: seq<MinuteBar>)
    ensures Sum(FilteredAmounts(bars)) == TotalAmount(bars) + UnpricedAmount(bars)
    ensures FilteredAmounts(bars) == [] <==> FilteredVolumes(bars) == []
  {
    if bars != [] {
      var front, b := bars[..|bars| - 1], bars[|bars| - 1];
      AmountTotals(front);
      if Traded(b) {
        SumAppend(FilteredAmounts(front), b.amount.value);
      } else {
        assert FilteredAmounts(bars) == FilteredAmounts(front) && FilteredVolumes(bars) == FilteredVolumes(front);
      }
    }
  }

  lemma {:induction false} ShareTotals(bars: seq<MinuteBar>)
    ensures Sum(FilteredVolumes(bars)) * 100.0 == TotalShares(bars) + UnpricedShares(bars)
    ensures TotalShares(bars) >= 0.0 && UnpricedShares(bars) >= 0.0
    ensures FilteredVolumes(bars) == [] <==> TotalShares(bars) + UnpricedShares(bars) == 0.0
    ensures UnpricedShares(bars) == 0.0 ==> UnpricedAmount(bars) == 0.0
  {
    if bars != [] {
      var front, b := bars[..|bars| - 1], bars[|bars| - 1];
      ShareTotals(front);
      if Traded(b) {
        SumAppend(FilteredVolumes(front), b.volume.value);
      } else {
        assert FilteredVolumes(bars) == FilteredVolumes(front);
      }
    }
  }

  lemma {:induction false} MediantEqual(a: real, s: real, b: real, t: real)
    requires s > 0.0 && t > 0.0
    ensures a / s == (a + b) / (s + t) <==> a / s == b / t
  {
    var q := a / s;
    assert q * s == a;
    if q == b / t {
      assert q * t == b;
      DivUnique(a + b, s + t, q);
    }
    if q == (a + b) / (s + t) {
      assert q * (s + t) == a + b;
      DivUnique(b, t, q);
    }
  }

  /** The two forms agree on the VWAP exactly when no unpriced bar was traded so far, or the priced ones
      were and at the very same average price as the unpriced ones. */
  ghost predicate SameVwap(bars: seq<MinuteBar>)
  {
    UnpricedShares(bars) == 0.0 ||
    (TotalShares(bars) > 0.0 && TotalAmount(bars) / TotalShares(bars) == UnpricedAmount(bars) / UnpricedShares(bars))
  }

  lemma {:induction false} VwapAgreesExactly(bars: seq<MinuteBar>)
    ensures Vwap(TotalAmount(bars), TotalShares(bars)) == SqlVwap(bars) <==> SameVwap(bars)
  {
    AmountTotals(bars);
    ShareTotals(bars);
    if TotalShares(bars) > 0.0 && UnpricedShares(bars) > 0.0 {
      MediantEqual(TotalAmount(bars), TotalShares(bars), UnpricedAmount(bars), UnpricedShares(bars));
    }
  }

  // ---- whole series

  /** No gap between priced bars: every priced bar but the first follows a priced one. */
  ghost predicate NoGap(bars: seq<MinuteBar>)
  {
    forall i :: 0 < i < |bars| && Priced(bars, i) ==> Priced(bars, i - 1) || NonePriced(bars[..i])
  }

  /** With no gap before a priced bar the series is unpriced bars and then priced ones only. */
  lemma {:induction false} PricedSuffix(bars: seq<MinuteBar>) returns (start: nat)
    requires bars != [] && Priced(bars, |bars| - 1) && NoGap(bars)
    ensures start < |bars| && NonePriced(bars[..start]) && AllPriced(bars[start..])
  {
    var n := |bars| - 1;
    var front := bars[..n];
    if n > 0 && Priced(bars, n - 1) {
      assert Priced(front, n - 1);
      forall i | 0 < i < n && Priced(front, i) ensures Priced(front, i - 1) || NonePriced(front[..i]) {
        assert Priced(bars, i) && front[..i] == bars[..i];
        assert Priced(front, i - 1) == Priced(bars, i - 1);
      }
      start := PricedSuffix(front);
      assert front[..start] == bars[..start] && bars[start..] == front[start..] + [bars[n]];
    } else {
      start := n;
    }
  }

  lemma {:induction false} ColumnOfSuffix(bars: seq<MinuteBar>, start: nat)
    requires start < |bars| && NonePriced(bars[..start])
    ensures PriceColumn(bars) == PriceColumn(bars)[..start] + PriceColumn(bars[start..])
    ensures forall i :: 0 <= i < start ==> PriceColumn(bars)[i] == None
  {
    forall i | 0 <= i < start ensures PriceColumn(bars)[i] == None { assert !Priced(bars[..start], i); }
  }

  lemma {:induction false} WindowOfSuffix(nones: seq<Option<real>>, suffix: seq<Option<real>>, n: nat)
    requires forall i :: 0 <= i < |nones| ==> nones[i] == None
    ensures NonNull(Last(nones + suffix, n)) == NonNull(Last(suffix, n))
  {
    var column := nones + suffix;
    if n <= |suffix| {
      assert Last(column, n) == Last(suffix, n);
    } else {
      var w := Last(column, n);
      assert w == w[..|w| - |suffix|] + suffix && Last(suffix, n) == suffix;
      NonesVanish(w[..|w| - |suffix|], suffix);
    }
  }

  lemma {:induction false} UnpricedPrefixVanishes(bars: seq<MinuteBar>, start: nat, n: nat)
    requires start < |bars| && NonePriced(bars[..start])
    ensures Prices(bars) == Prices(bars[start..])
    ensures NonNull(Last(PriceColumn(bars), n)) == NonNull(Last(PriceColumn(bars[start..]), n))
  {
    ColumnOfSuffix(bars, start);
    NonesVanish(PriceColumn(bars)[..start], PriceColumn(bars[start..]));
    WindowOfSuffix(PriceColumn(bars)[..start], PriceColumn(bars[start..]), n);
  }

  lemma {:induction false} NonesVanish(nones: seq<Option<real>>, s: seq<Option<real>>)
    requires forall i :: 0 <= i < |nones| ==> nones[i] == None
    ensures NonNull(nones + s) == NonNull(s)
  {
    if s != [] {
      var front := s[..|s| - 1];
      NonesVanish(nones, front);
      assert (nones + s)[..|nones + s| - 1] == nones + front;
    } else if nones != [] {
      assert nones + s == nones;
      var front := nones[..|nones| - 1];
      NonesVanish(front, s);
      assert front + s == front;
    } else {
      assert nones + s == s;
    }
  }

  lemma {:induction false} LagOfSuffix(bars: seq<MinuteBar>, start: nat, minutes: nat)
    requires start < |bars| && NonePriced(bars[..start])
    ensures Lag(PriceColumn(bars), minutes) == Lag(PriceColumn(bars[start..]), minutes)
  {
    var column := PriceColumn(bars);
    forall i | 0 <= i < start ensures column[i] == None { assert !Priced(bars[..start], i); }
  }

  /** Without a gap a priced bar agrees in every figure but the VWAP, and there under its condition. */
  lemma {:induction false} NoGapRowAgrees(bars: seq<MinuteBar>)
    requires bars != [] && Priced(bars, |bars| - 1) && NoGap(bars) && SameVwap(bars)
    ensures Prices(bars) != [] && LoopRow(bars) == SqlRow(bars)
  {
    var start := PricedSuffix(bars);
    var suffix := bars[start..];
    RowsAgree(suffix);
    forall n
      ensures NonNull(Last(PriceColumn(bars), n)) == NonNull(Last(PriceColumn(suffix), n)) &&
              Prices(bars) == Prices(suffix)
    {
      UnpricedPrefixVanishes(bars, start, n);
    }
    forall minutes ensures Lag(PriceColumn(bars), minutes) == Lag(PriceColumn(suffix), minutes) {
      LagOfSuffix(bars, start, minutes);
    }
    VwapAgreesExactly(bars);
    FiguresOfSuffix(bars, suffix);
  }

  lemma {:induction false} FiguresOfSuffix(bars: seq<MinuteBar>, suffix: seq<MinuteBar>)
    requires bars != [] && suffix != [] && bars[|bars| - 1] == suffix[|suffix| - 1]
    requires Prices(suffix) != [] && Prices(bars) == Prices(suffix)
    requires forall n :: NonNull(Last(PriceColumn(bars), n)) == NonNull(Last(PriceColumn(suffix), n))
    requires forall minutes :: Lag(PriceColumn(bars), minutes) == Lag(PriceColumn(suffix), minutes)
    requires LoopRow(suffix) == SqlRow(suffix)
    requires Vwap(TotalAmount(bars), TotalShares(bars)) == SqlVwap(bars)
    ensures LoopRow(bars) == SqlRow(bars)
  {
  }

  /** The prefix that ends with bar `i`. */
  function Upto(bars: seq<MinuteBar>, i: nat): seq<MinuteBar>
    requires i < |bars|
  {
    bars[..i + 1]
  }

  ghost predicate RowAgrees(bars: seq<MinuteBar>, i: nat)
    requires i < |bars|
  {
    Priced(bars, i) ==> Prices(Upto(bars, i)) != [] && LoopRow(Upto(bars, i)) == SqlRow(Upto(bars, i))
  }

  lemma {:induction false} RowAppended(bars: seq<MinuteBar>, n: nat)
    requires n < |bars|
    ensures |LoopRows(bars[..n])| == |SqlRows(bars[..n])| ==>
              |LoopRows(Upto(bars, n))| == |SqlRows(Upto(bars, n))| &&
              (LoopRows(Upto(bars, n)) == SqlRows(Upto(bars, n)) <==>
               LoopRows(bars[..n]) == SqlRows(bars[..n]) && RowAgrees(bars, n))
  {
    var prefix, front := Upto(bars, n), bars[..n];
    assert prefix[..n] == front && Priced(prefix, n) == Priced(bars, n);
    PricesFacts(prefix);
    assert Priced(prefix, |prefix| - 1) == Priced(bars, n);
    if !Priced(bars, n) {
      assert LoopRows(prefix) == LoopRows(front) && SqlRows(prefix) == SqlRows(front);
    } else if |LoopRows(front)| == |SqlRows(front)| {
      LastRows(LoopRows(front), LoopRow(prefix), SqlRows(front), SqlRow(prefix));
      assert LoopRows(prefix) == LoopRows(front) + [LoopRow(prefix)] &&
        SqlRows(prefix) == SqlRows(front) + [SqlRow(prefix)];
    }
  }

  lemma {:induction false} LastRows(a: seq<MinuteRow>, x: MinuteRow, b: seq<MinuteRow>, y: MinuteRow)
    requires |a| == |b|
    ensures a + [x] == b + [y] <==> a == b && x == y
  {
    var u, v := a + [x], b + [y];
    assert u[..|a|] == a && v[..|b|] == b && u[|a|] == x && v[|b|] == y;
  }

  ghost predicate AllAgree(bars: seq<MinuteBar>, n: nat)
    requires n <= |bars|
  {
    n == 0 || (AllAgree(bars, n - 1) && RowAgrees(bars, n - 1))
  }

  lemma {:induction false} SameRowsBarByBar(bars: seq<MinuteBar>, n: nat)
    requires n <= |bars|
    ensures |LoopRows(bars[..n])| == |SqlRows(bars[..n])|
    ensures LoopRows(bars[..n]) == SqlRows(bars[..n]) <==> AllAgree(bars, n)
  {
    if n > 0 {
      SameRowsBarByBar(bars, n - 1);
      RowAppended(bars, n - 1);
      assert Upto(bars, n - 1) == bars[..n];
    } else {
      assert bars[..n] == [];
    }
  }

  lemma {:induction false} AgreesAt(bars: seq<MinuteBar>, n: nat, i: nat)
    requires i < n <= |bars| && AllAgree(bars, n)
    ensures RowAgrees(bars, i)
  {
    if i < n - 1 { AgreesAt(bars, n - 1, i); }
  }

  /** A priced bar agrees exactly when it needs to look back over no gap and has the same VWAP. */
  ghost predicate RowMayAgree(bars: seq<MinuteBar>, i: nat)
    requires i < |bars|
  {
    Priced(bars, i) ==> SameVwap(Upto(bars, i)) && (i == 0 || Priced(bars, i - 1) || NonePriced(bars[..i]))
  }

  lemma {:induction false} AgreementNeeds(bars: seq<MinuteBar>, i: nat)
    requires i < |bars| && PositivePrices(bars) && RowAgrees(bars, i)
    ensures RowMayAgree(bars, i)
  {
    if Priced(bars, i) {
      var prefix := Upto(bars, i);
      assert prefix[..i] == bars[..i] && Priced(prefix, i) == Priced(bars, i);
      if i > 0 { assert Priced(prefix, i - 1) == Priced(bars, i - 1); }
      OneMinuteAgreesExactly(prefix);
      VwapAgreesExactly(prefix);
    }
  }

  lemma {:induction false} RowMayAgreeGives(bars: seq<MinuteBar>, i: nat)
    requires i < |bars| && Priced(bars, i) && forall j :: 0 <= j <= i ==> RowMayAgree(bars, j)
    ensures Priced(Upto(bars, i), i) && NoGap(Upto(bars, i)) && SameVwap(Upto(bars, i))
  {
    var prefix := Upto(bars, i);
    assert Priced(prefix, i) && RowMayAgree(bars, i);
    forall j | 0 < j < |prefix| && Priced(prefix, j) ensures Priced(prefix, j - 1) || NonePriced(prefix[..j]) {
      assert RowMayAgree(bars, j) && Priced(bars, j) && prefix[..j] == bars[..j];
      assert Priced(prefix, j - 1) == Priced(bars, j - 1);
    }
  }

  lemma {:induction false} AgreementGiven(bars: seq<MinuteBar>, n: nat)
    requires n <= |bars| && forall i :: 0 <= i < n ==> RowMayAgree(bars, i)
    ensures AllAgree(bars, n)
  {
    if n > 0 {
      AgreementGiven(bars, n - 1);
      if Priced(bars, n - 1) {
        RowMayAgreeGives(bars, n - 1);
        NoGapRowAgrees(Upto(bars, n - 1));
      }
    }
  }

  /** On a day with missing prices the two implementations store the same rows exactly when there is no
      gap between priced bars and every priced bar has the same VWAP in both. */
  lemma {:induction false} SameRowsExactly(bars: seq<MinuteBar>)
    requires PositivePrices(bars)
    ensures LoopRows(bars) == SqlRows(bars) <==>
            NoGap(bars) && forall i :: 0 <= i < |bars| && Priced(bars, i) ==> SameVwap(Upto(bars, i))
  {
    SameRowsBarByBar(bars, |bars|);
    assert bars[..|bars|] == bars;
    MayAgreeEverywhere(bars);
    if AllAgree(bars, |bars|) {
      forall i | 0 <= i < |bars| ensures RowMayAgree(bars, i) {
        AgreesAt(bars, |bars|, i);
        AgreementNeeds(bars, i);
      }
    }
    if forall i :: 0 <= i < |bars| ==> RowMayAgree(bars, i) { AgreementGiven(bars, |bars|); }
  }

  lemma {:induction false} MayAgreeEverywhere(bars: seq<MinuteBar>)
    ensures (forall i :: 0 <= i < |bars| ==> RowMayAgree(bars, i)) <==>
            NoGap(bars) && forall i :: 0 <= i < |bars| && Priced(bars, i) ==> SameVwap(Upto(bars, i))
  {
    if forall i :: 0 <= i < |bars| ==> RowMayAgree(bars, i) {
      assert forall i :: 0 <= i < |bars| && Priced(bars, i) ==> RowMayAgree(bars, i);
    }
  }

  lemma {:induction false} NothingTradedUnpriced(bars: seq<MinuteBar>)
    requires forall i :: 0 <= i < |bars| && !Priced(bars, i) ==> !Traded(bars[i])
    ensures UnpricedShares(bars) == 0.0
  {
    if bars != [] {
      var front := bars[..|bars| - 1];
      assert forall i :: 0 <= i < |front| ==> Priced(front, i) == Priced(bars, i) && front[i] == bars[i];
      NothingTradedUnpriced(front);
      assert !Priced(bars, |bars| - 1) ==> !Traded(bars[|bars| - 1]);
    }
  }

  /** In particular on a day without a gap on which no unpriced bar was traded. */
  lemma {:induction false} SameRowsWhenQuiet(bars: seq<MinuteBar>)
    requires PositivePrices(bars) && NoGap(bars)
    requires forall i :: 0 <= i < |bars| && !Priced(bars, i) ==> !Traded(bars[i])
    ensures LoopRows(bars) == SqlRows(bars)
  {
    forall i | 0 <= i < |bars| ensures SameVwap(Upto(bars, i)) {
      var prefix := Upto(bars, i);
      assert forall j :: 0 <= j < |prefix| ==> Priced(prefix, j) == Priced(bars, j) && prefix[j] == bars[j];
      NothingTradedUnpriced(prefix);
    }
    SameRowsExactly(bars);
  }
}
