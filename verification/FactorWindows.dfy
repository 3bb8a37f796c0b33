/** The daily factor backfill: trade dates are cut into windows, each window succeeds or fails as a
    whole, and every trade date ends in exactly one of three counters. */
module FactorWindows {
  import opened Wrappers

  type Date = int

  function Flatten<T>(chunks: seq<seq<T>>): seq<T>
  {
    if chunks == [] then [] else Flatten(chunks[..|chunks| - 1]) + chunks[|chunks| - 1]
  }

  /** All full but the last, none empty. */
  predicate Full<T>(chunks: seq<seq<T>>, size: nat)
  {
    forall i :: 0 <= i < |chunks| ==> 0 < |chunks[i]| <= size && (i < |chunks| - 1 ==> |chunks[i]| == size)
  }

  lemma {:induction false} FlattenOneMore<T>(chunks: seq<seq<T>>, last: seq<T>)
    ensures Flatten(chunks + [last]) == Flatten(chunks) + last
  {
    assert (chunks + [last])[..|chunks|] == chunks;
  }

  /** Slices of a list: nothing lost, repeated or reordered. */
  method Chunks<T>(items: seq<T>, size: nat) returns (chunks: seq<seq<T>>)
    requires size > 0
    ensures Flatten(chunks) == items && Full(chunks, size)
  {
    chunks := [];
    var index := 0;
    while index < |items|
      invariant Flatten(chunks) == items[..if index < |items| then index else |items|]
      invariant Full(chunks, size) && (chunks != [] && index < |items| ==> |chunks[|chunks| - 1]| == size)
      decreases |items| - index
    {
      var end := if index + size < |items| then index + size else |items|;
      FlattenOneMore(chunks, items[index..end]);
      assert items[..index] + items[index..end] == items[..end];
      chunks, index := chunks + [items[index..end]], index + size;
    }
    assert items[..|items|] == items;
  }

  lemma {:induction false} FullLength<T>(chunks: seq<seq<T>>, size: nat)
    requires Full(chunks, size) && chunks != []
    ensures |Flatten(chunks)| == (|chunks| - 1) * size + |chunks[|chunks| - 1]|
  {
    var front := chunks[..|chunks| - 1];
    if front != [] {
      FullLength(front, size);
      assert |front[|front| - 1]| == size;
      OneMoreWindow(|front|, size);
    } else {
      assert Flatten(front) == [];
    }
  }

  lemma {:induction false} OneMoreWindow(n: nat, size: nat)
    requires n > 0
    ensures n * size == (n - 1) * size + size
  {
  }

  /** Two ways to cut the same list are the same: the list and the size determine the windows, so item
      `i` lies in window `i / size`. */
  lemma {:induction false} ChunksAreDetermined<T>(a: seq<seq<T>>, b: seq<seq<T>>, size: nat)
    requires size > 0 && Full(a, size) && Full(b, size) && Flatten(a) == Flatten(b)
    ensures a == b
    decreases |a|
  {
    if a != [] { FullLength(a, size); }
    if b != [] { FullLength(b, size); }
    if a != [] && b != [] {
      SameCount(|a| - 1, |a[|a| - 1]|, |b| - 1, |b[|b| - 1]|, size);
      var x, y := a[|a| - 1], b[|b| - 1];
      var front, other := a[..|a| - 1], b[..|b| - 1];
      var whole := Flatten(a);
      assert x == whole[|whole| - |x|..] == y;
      assert Flatten(front) == whole[..|whole| - |x|] == Flatten(other);
      ChunksAreDetermined(front, other, size);
      assert a == front + [x] && b == other + [y];
    }
  }

  lemma {:induction false} SameCount(m: nat, x: nat, n: nat, y: nat, size: nat)
    requires 0 < x <= size && 0 < y <= size && m * size + x == n * size + y
    ensures m == n && x == y
  {
    if m < n { Ahead(m, n, size); }
    if n < m { Ahead(n, m, size); }
  }

  lemma {:induction false} Ahead(m: nat, n: nat, size: nat)
    requires m < n
    ensures n * size >= m * size + size
  {
    assert n * size == (m + 1) * size + (n - m - 1) * size;
  }

  // ---- one run ----

  datatype StockDay = StockDay(code: string, date: Date)

  /** What a window meets: an exception before its dates are counted, or the daily bars, the rows that
      are ready already (none are asked for unless only missing ones are wanted) and the rows written. */
  datatype Outcome = Raised | Assembled(bars: set<StockDay>, ready: set<StockDay>, written: map<Date, nat>)

  datatype Fate = Processed | Skipped | Failed

  predicate IsTarget(outcome: Outcome, date: Date)
    requires outcome.Assembled?
  {
    exists key :: key in outcome.bars - outcome.ready && key.date == date
  }

  function FateOf(outcome: Outcome, date: Date): Fate
  {
    if outcome.Raised? then Failed else if IsTarget(outcome, date) then Processed else Skipped
  }

  function Written(outcome: Outcome, date: Date): nat
    requires outcome.Assembled?
  {
    if date in outcome.written then outcome.written[date] else 0
  }

  /** The dates of a window that meet the fate. */
  function Share(window: seq<Date>, outcome: Outcome, fate: Fate): nat
  {
    if window == [] then 0
    else Share(window[..|window| - 1], outcome, fate) + (if FateOf(outcome, window[|window| - 1]) == fate then 1 else 0)
  }

  /** The rows written for the processed dates of a window. */
  function Rows(window: seq<Date>, outcome: Outcome): nat
  {
    if window == [] then 0
    else Rows(window[..|window| - 1], outcome) +
         (if FateOf(outcome, window[|window| - 1]) == Processed then Written(outcome, window[|window| - 1]) else 0)
  }

  function Shares(windows: seq<seq<Date>>, outcomes: seq<Outcome>, fate: Fate): nat
    requires |windows| == |outcomes|
  {
    if windows == [] then 0
    else
      Shares(windows[..|windows| - 1], outcomes[..|windows| - 1], fate) +
      Share(windows[|windows| - 1], outcomes[|windows| - 1], fate)
  }

  function AllRows(windows: seq<seq<Date>>, outcomes: seq<Outcome>): nat
    requires |windows| == |outcomes|
  {
    if windows == [] then 0
    else
      AllRows(windows[..|windows| - 1], outcomes[..|windows| - 1]) +
      Rows(windows[|windows| - 1], outcomes[|windows| - 1])
  }

  datatype Result = Result(processed: nat, skipped: nat, failed: nat, rows: nat)

  function Counted(windows: seq<seq<Date>>, outcomes: seq<Outcome>): Result
    requires |windows| == |outcomes|
  {
    Result(Shares(windows, outcomes, Processed), Shares(windows, outcomes, Skipped), Shares(windows, outcomes, Failed),
           AllRows(windows, outcomes))
  }

  function Plus(r: Result, window: seq<Date>, outcome: Outcome): Result
  {
    Result(r.processed + Share(window, outcome, Processed), r.skipped + Share(window, outcome, Skipped),
           r.failed + Share(window, outcome, Failed), r.rows + Rows(window, outcome))
  }

  lemma {:induction false} RaisedFailsAll(window: seq<Date>)
    ensures Share(window, Raised, Failed) == |window| && Share(window, Raised, Processed) == 0
    ensures Share(window, Raised, Skipped) == 0 && Rows(window, Raised) == 0
  {
    if window != [] { RaisedFailsAll(window[..|window| - 1]); }
  }

  /** The loop over the dates of an assembled window. */
  method CountWindow(window: seq<Date>, outcome: Outcome, before: Result) returns (after: Result)
    requires outcome.Assembled?
    ensures after == Plus(before, window, outcome)
  {
    after := before;
    var targets := outcome.bars - outcome.ready;
    for i := 0 to |window|
      invariant after == Plus(before, window[..i], outcome)
    {
      assert window[..i + 1][..i] == window[..i];
      var date := window[i];
      if !(exists key :: key in targets && key.date == date) {
        after := after.(skipped := after.skipped + 1);
      } else {
        after := after.(processed := after.processed + 1, rows := after.rows + Written(outcome, date));
      }
    }
    assert window[..|window|] == window;
  }

  lemma {:induction false} SharesOfWindow(window: seq<Date>, outcome: Outcome)
    ensures Share(window, outcome, Processed) + Share(window, outcome, Skipped) + Share(window, outcome, Failed) ==
            |window|
  {
    if window != [] { SharesOfWindow(window[..|window| - 1], outcome); }
  }

  lemma {:induction false} SharesAddUp(windows: seq<seq<Date>>, outcomes: seq<Outcome>)
    requires |windows| == |outcomes|
    ensures var r := Counted(windows, outcomes); r.processed + r.skipped + r.failed == |Flatten(windows)|
  {
    if windows != [] {
      SharesAddUp(windows[..|windows| - 1], outcomes[..|windows| - 1]);
      SharesOfWindow(windows[|windows| - 1], outcomes[|windows| - 1]);
    }
  }

  function Met(meet: nat -> Outcome, count: nat): (outcomes: seq<Outcome>)
    ensures |outcomes| == count
  {
    if count == 0 then [] else Met(meet, count - 1) + [meet(count - 1)]
  }

  /** The loop over the windows; `meet(i)` is what window `i` meets. Under fail_fast the first failed
      window ends the run without a result. A run that returns has counted every trade date once. */
  method BackfillDaily(dates: seq<Date>, size: nat, meet: nat -> Outcome, failFast: bool)
    returns (result: Option<Result>, ghost windows: seq<seq<Date>>)
    requires size > 0
    ensures Full(windows, size) && Flatten(windows) == dates
    ensures result.Some? ==> result.value == Counted(windows, Met(meet, |windows|))
    ensures result.Some? ==> result.value.processed + result.value.skipped + result.value.failed == |dates|
    ensures result.None? <==> failFast && exists i :: 0 <= i < |windows| && meet(i) == Raised
  {
    var slices := Chunks(dates, size);
    windows := slices;
    var r := Result(0, 0, 0, 0);
    for i := 0 to |slices|
      invariant r == Counted(slices[..i], Met(meet, i))
      invariant failFast ==> forall j :: 0 <= j < i ==> meet(j) != Raised
    {
      CountedOneMore(slices, meet, i);
      if meet(i).Raised? {
        r := r.(failed := r.failed + |slices[i]|);
        RaisedFailsAll(slices[i]);
        if failFast {
          result := None;
          return;
        }
      } else {
        r := CountWindow(slices[i], meet(i), r);
      }
    }
    assert slices[..|slices|] == slices;
    SharesAddUp(windows, Met(meet, |windows|));
    result := Some(r);
  }

  lemma {:induction false} CountedOneMore(windows: seq<seq<Date>>, meet: nat -> Outcome, i: nat)
    requires i < |windows|
    ensures Counted(windows[..i + 1], Met(meet, i + 1)) ==
            Plus(Counted(windows[..i], Met(meet, i)), windows[i], meet(i))
  {
    assert windows[..i + 1][..i] == windows[..i] && Met(meet, i + 1)[..i] == Met(meet, i);
  }

  // ----- the counters as counts of dates

  /** The dates of an assembled window that have a bar which is not ready. */
  ghost function TargetIndices(window: seq<Date>, outcome: Outcome): set<int>
    requires outcome.Assembled?
  {
    set i | 0 <= i < |window| && exists key :: key in outcome.bars && key !in outcome.ready && key.date == window[i]
  }

  lemma {:induction false} TargetIs(outcome: Outcome, date: Date)
    requires outcome.Assembled?
    ensures IsTarget(outcome, date) <==> exists key :: key in outcome.bars && key !in outcome.ready && key.date == date
  {
    if key :| key in outcome.bars && key !in outcome.ready && key.date == date {
      assert key in outcome.bars - outcome.ready;
    }
  }

  lemma {:induction false} OneMoreTarget(window: seq<Date>, outcome: Outcome)
    requires outcome.Assembled? && window != []
    ensures var n := |window| - 1;
            |TargetIndices(window, outcome)| ==
            |TargetIndices(window[..n], outcome)| + (if IsTarget(outcome, window[n]) then 1 else 0)
  {
    var front, n := window[..|window| - 1], |window| - 1;
    TargetIs(outcome, window[n]);
    var last := if IsTarget(outcome, window[n]) then {n} else {};
    forall i ensures i in TargetIndices(window, outcome) <==> i in TargetIndices(front, outcome) + last {
      if 0 <= i < n { assert window[i] == front[i]; }
    }
    assert TargetIndices(window, outcome) == TargetIndices(front, outcome) + last;
  }

  /** An assembled window counts the dates with a bar that is not ready as processed and the others as
      skipped. */
  lemma {:induction false} SharesCount(window: seq<Date>, outcome: Outcome)
    requires outcome.Assembled?
    ensures Share(window, outcome, Processed) == |TargetIndices(window, outcome)|
    ensures Share(window, outcome, Skipped) == |window| - |TargetIndices(window, outcome)|
    ensures Share(window, outcome, Failed) == 0
  {
    if window != [] {
      SharesCount(window[..|window| - 1], outcome);
      OneMoreTarget(window, outcome);
    }
  }

  function Total(counts: seq<nat>): nat { if counts == [] then 0 else counts[0] + Total(counts[1..]) }

  lemma {:induction false} TotalOneMore(counts: seq<nat>, last: nat)
    ensures Total(counts + [last]) == Total(counts) + last
  {
    if counts == [] {
      assert counts + [last] == [last];
    } else {
      TotalOneMore(counts[1..], last);
      assert (counts + [last])[1..] == counts[1..] + [last];
    }
  }

  /** The rows written for a date: none for one that is skipped or failed. */
  ghost function RowCount(outcome: Outcome, date: Date): nat
  {
    if outcome.Assembled? && date in outcome.written &&
       exists key :: key in outcome.bars && key !in outcome.ready && key.date == date
    then outcome.written[date]
    else 0
  }

  ghost function RowCounts(window: seq<Date>, outcome: Outcome): (counts: seq<nat>)
    ensures |counts| == |window| && forall i :: 0 <= i < |window| ==> counts[i] == RowCount(outcome, window[i])
  {
    seq(|window|, i requires 0 <= i < |window| => RowCount(outcome, window[i]))
  }

  lemma {:induction false} RowsAreTotals(window: seq<Date>, outcome: Outcome)
    ensures Rows(window, outcome) == Total(RowCounts(window, outcome))
  {
    if window != [] {
      var front, n := window[..|window| - 1], |window| - 1;
      RowsAreTotals(front, outcome);
      if outcome.Assembled? { TargetIs(outcome, window[n]); }
      assert RowCounts(window, outcome) == RowCounts(front, outcome) + [RowCount(outcome, window[n])];
      TotalOneMore(RowCounts(front, outcome), RowCount(outcome, window[n]));
    }
  }

  ghost function ShareOfEach(windows: seq<seq<Date>>, outcomes: seq<Outcome>, fate: Fate): (counts: seq<nat>)
    requires |windows| == |outcomes|
    ensures |counts| == |windows|
    ensures forall i :: 0 <= i < |windows| ==> counts[i] == Share(windows[i], outcomes[i], fate)
  {
    seq(|windows|, i requires 0 <= i < |windows| => Share(windows[i], outcomes[i], fate))
  }

  ghost function RowsOfEach(windows: seq<seq<Date>>, outcomes: seq<Outcome>): (counts: seq<nat>)
    requires |windows| == |outcomes|
    ensures |counts| == |windows|
    ensures forall i :: 0 <= i < |windows| ==> counts[i] == Total(RowCounts(windows[i], outcomes[i]))
  {
    seq(|windows|, i requires 0 <= i < |windows| => Total(RowCounts(windows[i], outcomes[i])))
  }

  /** The result of a run totals its windows. */
  lemma {:induction false} ResultIsTotals(windows: seq<seq<Date>>, outcomes: seq<Outcome>)
    requires |windows| == |outcomes|
    ensures var r := Counted(windows, outcomes);
            && r.processed == Total(ShareOfEach(windows, outcomes, Processed))
            && r.skipped == Total(ShareOfEach(windows, outcomes, Skipped))
            && r.failed == Total(ShareOfEach(windows, outcomes, Failed))
            && r.rows == Total(RowsOfEach(windows, outcomes))
  {
    if windows != [] {
      var n := |windows| - 1;
      ResultIsTotals(windows[..n], outcomes[..n]);
      RowsAreTotals(windows[n], outcomes[n]);
      forall fate ensures Total(ShareOfEach(windows, outcomes, fate)) ==
                          Total(ShareOfEach(windows[..n], outcomes[..n], fate)) + Share(windows[n], outcomes[n], fate)
      {
        var counts := ShareOfEach(windows, outcomes, fate);
        assert counts == ShareOfEach(windows[..n], outcomes[..n], fate) + [counts[n]];
        TotalOneMore(ShareOfEach(windows[..n], outcomes[..n], fate), counts[n]);
      }
      var rows := RowsOfEach(windows, outcomes);
      assert rows == RowsOfEach(windows[..n], outcomes[..n]) + [rows[n]];
      TotalOneMore(RowsOfEach(windows[..n], outcomes[..n]), rows[n]);
    }
  }
}
