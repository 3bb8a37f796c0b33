/** Consecutive days of net inflow, computed three ways: by a backwards Python loop, by the sector
    SQL (gaps and islands with a running count) and by the stock SQL (gaps and islands with a count
    over the whole island). */
module InflowRuns {
  import opened Wrappers

  /** `coalesce(net, 0) > 0`. */
  predicate Positive(net: Option<real>) { net.Some? && net.value > 0.0 }

  /** The length of the run of positive days at the end of the history. */
  function TrailingRun(flows: seq<Option<real>>): nat
  {
    if flows == [] || !Positive(flows[|flows| - 1]) then 0 else 1 + TrailingRun(flows[..|flows| - 1])
  }

  method ContinuousPositive(flows: seq<Option<real>>) returns (count: nat)
    ensures count == TrailingRun(flows)
    ensures count <= |flows|
    ensures forall i :: |flows| - count <= i < |flows| ==> flows[i].Some? && flows[i].value > 0.0
    ensures count < |flows| ==> flows[|flows| - 1 - count] == None || flows[|flows| - 1 - count].value <= 0.0
  {
    count := 0;
    assert flows[..|flows|] == flows;
    while count < |flows|
      invariant count <= |flows|
      invariant forall i :: |flows| - count <= i < |flows| ==> Positive(flows[i])
      invariant TrailingRun(flows) == count + TrailingRun(flows[..|flows| - count])
    {
      ghost var rest := flows[..|flows| - count];
      if !Positive(flows[|flows| - 1 - count]) {
        break;
      }
      assert rest[..|rest| - 1] == flows[..|flows| - 1 - count];
      count := count + 1;
    }
  }

  /** The running count of non-positive days up to and including day `i`: the island number. */
  function Group(flows: seq<Option<real>>, i: nat): nat
    requires i < |flows|
  {
    (if i == 0 then 0 else Group(flows, i - 1)) + (if Positive(flows[i]) then 0 else 1)
  }

  /** Positive days of island `g` among the first `n` days. */
  function CountPositive(flows: seq<Option<real>>, g: nat, n: nat): nat
    requires n <= |flows|
  {
    if n == 0 then 0
    else CountPositive(flows, g, n - 1) + (if Group(flows, n - 1) == g && Positive(flows[n - 1]) then 1 else 0)
  }

  /** Sector SQL: a running count inside the island, 0 on a non-positive day. */
  function SectorDays(flows: seq<Option<real>>, i: nat): nat
    requires i < |flows|
  {
    if Positive(flows[i]) then CountPositive(flows, Group(flows, i), i + 1) else 0
  }

  /** Stock SQL: the count over the whole island, with no order inside it. */
  function StockDays(flows: seq<Option<real>>, i: nat): nat
    requires i < |flows|
  {
    CountPositive(flows, Group(flows, i), |flows|)
  }

  lemma {:induction false} GroupBelow(flows: seq<Option<real>>, i: nat, j: nat)
    requires i <= j < |flows|
    ensures Group(flows, i) <= Group(flows, j)
  {
    if i < j { GroupBelow(flows, i, j - 1); }
  }

  /** No positive day of a later island precedes the day that opens it. */
  lemma {:induction false} NoneBefore(flows: seq<Option<real>>, g: nat, n: nat)
    requires n <= |flows| && (n > 0 ==> Group(flows, n - 1) < g)
    ensures CountPositive(flows, g, n) == 0
  {
    if n > 0 {
      if n > 1 { GroupBelow(flows, n - 2, n - 1); }
      NoneBefore(flows, g, n - 1);
    }
  }

  /** The count of an island up to day `i` of that island is the trailing run at `i`. */
  lemma {:induction false} RunningCountIsTrailingRun(flows: seq<Option<real>>, i: nat)
    requires i < |flows|
    ensures CountPositive(flows, Group(flows, i), i + 1) == TrailingRun(flows[..i + 1])
  {
    assert flows[..i + 1][..i] == flows[..i];
    if Positive(flows[i]) {
      if i > 0 { RunningCountIsTrailingRun(flows, i - 1); }
    } else {
      NoneBefore(flows, Group(flows, i), i);
    }
  }

  /** The sector value equals the Python value of the history up to the day, on every day. */
  lemma {:induction false} SectorEqualsTrailingRun(flows: seq<Option<real>>, i: nat)
    requires i < |flows|
    ensures SectorDays(flows, i) == TrailingRun(flows[..i + 1])
  {
    RunningCountIsTrailingRun(flows, i);
    assert flows[..i + 1][..i] == flows[..i];
  }

  lemma {:induction false} CountGrows(flows: seq<Option<real>>, g: nat, m: nat, n: nat)
    requires m <= n <= |flows|
    ensures CountPositive(flows, g, m) <= CountPositive(flows, g, n)
  {
    if m < n { CountGrows(flows, g, m, n - 1); }
  }

  /** Once a later island has begun, an earlier one gains no more days. */
  lemma {:induction false} CountSettled(flows: seq<Option<real>>, g: nat, m: nat, n: nat)
    requires m <= n <= |flows| && (m < n ==> g < Group(flows, m))
    ensures CountPositive(flows, g, n) == CountPositive(flows, g, m)
  {
    if m < n {
      CountSettled(flows, g, m, n - 1);
      GroupBelow(flows, m, n - 1);
    }
  }

  /** The stock value equals the trailing run exactly on the last loaded day and on days followed by
      a non-positive day; on every other day it already counts the future of the island. */
  lemma {:induction false} StockEqualsTrailingRunExactly(flows: seq<Option<real>>, i: nat)
    requires i < |flows|
    ensures StockDays(flows, i) >= TrailingRun(flows[..i + 1])
    ensures StockDays(flows, i) == TrailingRun(flows[..i + 1]) <==> i + 1 == |flows| || !Positive(flows[i + 1])
  {
    var g := Group(flows, i);
    RunningCountIsTrailingRun(flows, i);
    CountGrows(flows, g, i + 1, |flows|);
    if i + 1 < |flows| {
      if Positive(flows[i + 1]) {
        CountGrows(flows, g, i + 2, |flows|);
      } else {
        CountSettled(flows, g, i + 1, |flows|);
      }
    }
  }

  /** A backfill window that is not the newest one stores inflated days: 1 becomes 2. */
  lemma {:induction false} BackfilledDayCountsTheFuture()
    ensures var flows: seq<Option<real>> := [Some(5.0), Some(7.0)];
            StockDays(flows, 0) == 2 && TrailingRun(flows[..1]) == 1
  {
    var flows: seq<Option<real>> := [Some(5.0), Some(7.0)];
    RunningCountIsTrailingRun(flows, 0);
    assert CountPositive(flows, 0, 1) == 1 && CountPositive(flows, 0, 2) == 2;
  }
}
