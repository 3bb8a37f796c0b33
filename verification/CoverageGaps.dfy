/** Daily coverage of a stock table against the stock universe, twice: as clipped counts (the coverage
    figures) and as labelled rows (the gap report). The lemmas relate the two through the sets both
    are computed from. */
module CoverageGaps {

  /** Stock codes have a fixed width, so their order is that of their numbers. */
  type Code = nat

  /** What the queries see on one trade date: the active universe, the stocks the table has, the stocks
      with a suspension event and the stocks with any market record. Only the first is a universe;
      the others may name foreign stocks. */
  datatype Day = Day(universe: set<Code>, actual: set<Code>, suspended: set<Code>, recorded: set<Code>)

  datatype Reason = Suspended | NoMarketRecord | MissingData

  function ReasonOf(d: Day, c: Code): Reason
  {
    if c in d.suspended then Suspended else if c !in d.recorded then NoMarketRecord else MissingData
  }

  // ---- the counts ----

  datatype Base = Base(expected: nat, suspended: nat, noMarketRecord: nat)

  /** The reason breakdown is the nonzero ones of the last three. */
  datatype Coverage = Coverage(expected: nat, actual: nat, exempt: nat, suspended: nat, noMarketRecord: nat,
                               missing: nat)

  function Minimum(a: int, b: int): int { if a < b then a else b }

  function Maximum(a: int, b: int): int { if a < b then b else a }

  function Explained(d: Day): set<Code> { set c | c in d.universe && ReasonOf(d, c) != MissingData }

  function BaseOf(d: Day): Base
  {
    Base(|d.universe|, |set c | c in d.universe && ReasonOf(d, c) == Suspended|,
         |set c | c in d.universe && ReasonOf(d, c) == NoMarketRecord|)
  }

  function Cover(base: Base, actual: nat): Coverage
  {
    var raw := Maximum(base.expected - actual, 0);
    var suspended := Minimum(raw, base.suspended);
    var noMarketRecord := Minimum(Maximum(raw - suspended, 0), base.noMarketRecord);
    var exempt := suspended + noMarketRecord;
    var missing := Maximum(raw - exempt, 0);
    Coverage(base.expected, actual, exempt, suspended, noMarketRecord, missing)
  }

  function BaseAt(bases: map<int, Base>, date: int): Base { if date in bases then bases[date] else Base(0, 0, 0) }

  function ActualAt(actuals: map<string, map<int, nat>>, asset: string, date: int): nat
  {
    if asset in actuals && date in actuals[asset] then actuals[asset][date] else 0
  }

  datatype Cell = Cell(asset: string, date: int)

  ghost predicate Filled(coverage: map<Cell, Coverage>, figure: Cell -> Coverage)
  {
    forall key :: key in coverage ==> coverage[key] == figure(key)
  }

  function RowOfCells(asset: string, dates: seq<int>): set<Cell> { set d | d in dates :: Cell(asset, d) }

  function Cells(assets: seq<string>, dates: seq<int>): set<Cell> { set a, d | a in assets && d in dates :: Cell(a, d) }

  lemma {:induction false} MoreCells(assets: seq<string>, asset: string, dates: seq<int>, date: int)
    ensures RowOfCells(asset, dates + [date]) == RowOfCells(asset, dates) + {Cell(asset, date)}
    ensures Cells(assets + [asset], dates) == Cells(assets, dates) + RowOfCells(asset, dates)
  {
  }

  /** The inner loop: one asset on every date. */
  method FillAsset(coverage: map<Cell, Coverage>, asset: string, dates: seq<int>, figure: Cell -> Coverage)
    returns (filled: map<Cell, Coverage>)
    requires Filled(coverage, figure)
    ensures Filled(filled, figure) && filled.Keys == coverage.Keys + RowOfCells(asset, dates)
  {
    filled := coverage;
    for j := 0 to |dates|
      invariant Filled(filled, figure)
      invariant filled.Keys == coverage.Keys + RowOfCells(asset, dates[..j])
    {
      filled := filled[Cell(asset, dates[j]) := figure(Cell(asset, dates[j]))];
      assert dates[..j + 1] == dates[..j] + [dates[j]];
      MoreCells([], asset, dates[..j], dates[j]);
    }
    assert dates[..|dates|] == dates;
  }

  /** The outer loop: every asset. */
  method FillAssets(assets: seq<string>, dates: seq<int>, figure: Cell -> Coverage)
    returns (coverage: map<Cell, Coverage>)
    ensures Filled(coverage, figure) && coverage.Keys == Cells(assets, dates)
  {
    coverage := map[];
    for i := 0 to |assets|
      invariant Filled(coverage, figure)
      invariant coverage.Keys == Cells(assets[..i], dates)
    {
      coverage := FillAsset(coverage, assets[i], dates, figure);
      assert assets[..i + 1] == assets[..i] + [assets[i]];
      MoreCells(assets[..i], assets[i], dates, 0);
    }
    assert assets[..|assets|] == assets;
  }

  /** Every asset on every date; a date or asset without figures counts as zero. */
  method BatchCoverages(assets: seq<string>, dates: seq<int>, bases: map<int, Base>,
                        actuals: map<string, map<int, nat>>)
    returns (coverage: map<Cell, Coverage>)
    ensures coverage.Keys == Cells(assets, dates)
    ensures forall key :: key in coverage ==>
            coverage[key] == Cover(BaseAt(bases, key.date), ActualAt(actuals, key.asset, key.date))
  {
    coverage := FillAssets(assets, dates,
                           (cell: Cell) => Cover(BaseAt(bases, cell.date), ActualAt(actuals, cell.asset, cell.date)));
  }

  /** Figures that exist are taken over and missing ones count as zero. */
  lemma {:induction false} MissingFigures(bases: map<int, Base>, actuals: map<string, map<int, nat>>, asset: string,
                                          date: int)
    ensures BaseAt(bases, date) == if date in bases then bases[date] else Base(0, 0, 0)
    ensures ActualAt(actuals, asset, date) ==
            if asset !in actuals then 0 else if date !in actuals[asset] then 0 else actuals[asset][date]
  {
  }

  /** Without a universe nothing is expected, exempt or missing, whatever the table has. */
  lemma {:induction false} NothingExpected(actual: nat)
    ensures Cover(Base(0, 0, 0), actual) == Coverage(0, actual, 0, 0, 0, 0)
  {
  }

  // ---- the rows ----

  datatype Row = Row(code: Code, reason: Reason)

  function Rank(row: Row): int { if row.reason == MissingData then 0 else 1 }

  predicate Before(a: Row, b: Row) { Rank(a) < Rank(b) || (Rank(a) == Rank(b) && a.code < b.code) }

  predicate Ordered(rows: seq<Row>) { forall i, j :: 0 <= i < j < |rows| ==> Before(rows[i], rows[j]) }

  function Gaps(d: Day): set<Code> { d.universe - d.actual }

  /** The query result before its limit: every uncovered stock of the universe once, missing data first. */
  predicate IsGapList(d: Day, rows: seq<Row>)
  {
    Ordered(rows) &&
    (forall i :: 0 <= i < |rows| ==> rows[i].code in Gaps(d) && rows[i].reason == ReasonOf(d, rows[i].code)) &&
    (forall c :: c in Gaps(d) ==> Row(c, ReasonOf(d, c)) in rows)
  }

  function Limited(rows: seq<Row>, limit: nat): seq<Row> { if limit < |rows| then rows[..limit] else rows }

  predicate Truncated(coverage: Coverage, shown: seq<Row>) { coverage.exempt + coverage.missing > |shown| }

  function MissingRows(rows: seq<Row>): nat
  {
    if rows == [] then 0
    else MissingRows(rows[..|rows| - 1]) + (if rows[|rows| - 1].reason == MissingData then 1 else 0)
  }

  // ---- cardinalities ----

  lemma {:induction false} SplitCard(s: set<Code>, t: set<Code>)
    ensures |s| == |s * t| + |s - t|
  {
    assert s == (s * t) + (s - t);
  }

  lemma {:induction false} SubsetCard(s: set<Code>, t: set<Code>)
    requires s <= t
    ensures |s| <= |t| && (|s| == |t| <==> s == t)
  {
    assert t == s + (t - s);
    SplitCard(t, s);
    assert t * s == s;
    if |t - s| == 0 { assert t - s == {}; }
  }

  lemma {:induction false} BaseCounts(d: Day)
    ensures BaseOf(d).suspended + BaseOf(d).noMarketRecord == |Explained(d)|
  {
    var suspended := set c | c in d.universe && ReasonOf(d, c) == Suspended;
    SplitCard(Explained(d), suspended);
    assert Explained(d) * suspended == suspended;
    assert Explained(d) - suspended == set c | c in d.universe && ReasonOf(d, c) == NoMarketRecord;
  }

  /** The clipping collapses to one cut: exempt takes what is explained, missing the rest. */
  lemma {:induction false} CoverTotals(d: Day)
    ensures var c := Cover(BaseOf(d), |d.actual|); var raw := Maximum(|d.universe| - |d.actual|, 0);
            c.exempt == Minimum(raw, |Explained(d)|) && c.missing == Maximum(raw - |Explained(d)|, 0)
  {
    BaseCounts(d);
  }

  /** Actual, exempt and missing add up to the expected count exactly when the table has no more stocks
      than the universe. */
  lemma {:induction false} CountsAddUp(d: Day)
    ensures var c := Cover(BaseOf(d), |d.actual|);
            c.actual + c.exempt + c.missing == c.expected <==> |d.actual| <= |d.universe|
  {
    CoverTotals(d);
  }

  /** The counted gaps never exceed the uncovered stocks, and equal them exactly when one of table and
      universe contains the other; a foreign stock in the table hides a gap. */
  lemma {:induction false} GapCount(d: Day)
    ensures var c := Cover(BaseOf(d), |d.actual|);
            c.exempt + c.missing <= |Gaps(d)| &&
            (c.exempt + c.missing == |Gaps(d)| <==> d.actual <= d.universe || d.universe <= d.actual)
  {
    CoverTotals(d);
    var both := d.universe * d.actual;
    SplitCard(d.universe, d.actual);
    SplitCard(d.actual, d.universe);
    assert d.actual * d.universe == both;
    SubsetCard(both, d.actual);
    SubsetCard(both, d.universe);
  }

  /** The stocks that lower the missing count without being a gap: explained ones that the table has
      nevertheless, and foreign ones. */
  function Masking(d: Day): set<Code> { (d.actual * Explained(d)) + (d.actual - d.universe) }

  function Unexplained(d: Day): set<Code> { Gaps(d) - Explained(d) }

  /** The counted missing is the number of stocks the report labels missing_data, less the masking ones;
      it is never more, and it is equal exactly when nothing masks or nothing is missing. */
  lemma {:induction false} MissingCount(d: Day)
    ensures var c := Cover(BaseOf(d), |d.actual|);
            c.missing == Maximum(|Unexplained(d)| - |Masking(d)|, 0) &&
            (c.missing == |Unexplained(d)| <==> Masking(d) == {} || Unexplained(d) == {})
  {
    CoverTotals(d);
    var explained := Explained(d);
    SplitCard(d.universe, d.actual);
    SplitCard(d.actual, d.universe);
    assert d.actual * d.universe == d.universe * d.actual;
    SplitCard(Gaps(d), explained);
    SplitCard(explained, d.actual);
    assert Gaps(d) * explained == explained - d.actual;
    assert explained * d.actual == d.actual * explained;
    SplitCard(Masking(d), d.universe);
    assert Masking(d) * d.universe == d.actual * explained;
    assert Masking(d) - d.universe == d.actual - d.universe;
  }

  function Labelled(d: Day, reason: Reason): set<Code> { set c | c in Gaps(d) && ReasonOf(d, c) == reason }

  /** When nothing masks, every entry of the reason breakdown is the number of stocks with that label. */
  lemma {:induction false} BreakdownMatchesLabels(d: Day)
    requires Masking(d) == {}
    ensures var c := Cover(BaseOf(d), |d.actual|);
            c.suspended == |Labelled(d, Suspended)| && c.noMarketRecord == |Labelled(d, NoMarketRecord)| &&
            c.missing == |Labelled(d, MissingData)|
  {
    MissingCount(d);
    assert Labelled(d, MissingData) == Unexplained(d);
    NothingMasked(d, Suspended);
    NothingMasked(d, NoMarketRecord);
    GapCount(d);
    BaseCounts(d);
    var suspended := Labelled(d, Suspended);
    SubsetCard(suspended, Gaps(d));
    SplitCard(Gaps(d), suspended);
    SubsetCard(Labelled(d, NoMarketRecord), Gaps(d) - suspended);
  }

  lemma {:induction false} NothingMasked(d: Day, reason: Reason)
    requires Masking(d) == {} && reason != MissingData
    ensures (set c | c in d.universe && ReasonOf(d, c) == reason) == Labelled(d, reason)
    ensures d.actual <= d.universe
  {
    forall c | c in d.universe && ReasonOf(d, c) == reason ensures c in Gaps(d) {
      assert c in Explained(d) && (c in d.actual ==> c in Masking(d));
    }
    forall c | c in d.actual ensures c in d.universe {
      assert c !in d.universe ==> c in Masking(d);
    }
  }

  // ---- counts against rows ----

  function Codes(rows: seq<Row>): set<Code> { set i | 0 <= i < |rows| :: rows[i].code }

  lemma {:induction false} DistinctCard(rows: seq<Row>)
    requires forall i, j :: 0 <= i < j < |rows| ==> rows[i].code != rows[j].code
    ensures |Codes(rows)| == |rows|
  {
    if rows != [] {
      var front, last := rows[..|rows| - 1], rows[|rows| - 1];
      DistinctCard(front);
      assert Codes(rows) == Codes(front) + {last.code};
    }
  }

  lemma {:induction false} MissingFirst(rows: seq<Row>)
    requires Ordered(rows)
    ensures MissingRows(rows) <= |rows|
    ensures forall i :: 0 <= i < |rows| ==> (rows[i].reason == MissingData <==> i < MissingRows(rows))
  {
    if rows != [] {
      var front, last := rows[..|rows| - 1], |rows| - 1;
      MissingFirst(front);
      assert forall i :: 0 <= i < last ==> front[i] == rows[i] && Before(rows[i], rows[last]);
    }
  }

  lemma {:induction false} DistinctCodes(rows: seq<Row>)
    requires Ordered(rows)
    requires forall i, j :: 0 <= i < j < |rows| && rows[i].code == rows[j].code ==> rows[i].reason == rows[j].reason
    ensures forall i, j :: 0 <= i < j < |rows| ==> rows[i].code != rows[j].code
  {
    forall i, j | 0 <= i < j < |rows| ensures rows[i].code != rows[j].code {
      assert Before(rows[i], rows[j]);
    }
  }

  lemma {:induction false} CodesAreGaps(d: Day, rows: seq<Row>)
    requires IsGapList(d, rows)
    ensures Codes(rows) == Gaps(d)
  {
    forall c | c in Gaps(d) ensures c in Codes(rows) {
      var i :| 0 <= i < |rows| && rows[i] == Row(c, ReasonOf(d, c));
    }
  }

  lemma {:induction false} MissingCodes(d: Day, rows: seq<Row>)
    requires IsGapList(d, rows)
    ensures MissingRows(rows) <= |rows| && Codes(rows[..MissingRows(rows)]) == Unexplained(d)
  {
    MissingFirst(rows);
    var missing := rows[..MissingRows(rows)];
    forall c | c in Unexplained(d) ensures c in Codes(missing) {
      var i :| 0 <= i < |rows| && rows[i] == Row(c, ReasonOf(d, c));
      assert missing[i] == rows[i];
    }
    forall c | c in Codes(missing) ensures c in Unexplained(d) {
      var i :| 0 <= i < |missing| && missing[i].code == c;
      assert missing[i] == rows[i];
    }
  }

  /** The unlimited list has one row per gap, and as many missing_data rows as unexplained gaps. */
  lemma {:induction false} RowsAreGaps(d: Day, rows: seq<Row>)
    requires IsGapList(d, rows)
    ensures |rows| == |Gaps(d)| && MissingRows(rows) == |Unexplained(d)|
  {
    DistinctCodes(rows);
    DistinctCard(rows);
    CodesAreGaps(d, rows);
    MissingCodes(d, rows);
    DistinctCard(rows[..MissingRows(rows)]);
  }

  /** Every foreign stock in the table hides one gap, down to none. */
  lemma {:induction false} CountedGaps(d: Day)
    ensures var c := Cover(BaseOf(d), |d.actual|);
            c.exempt + c.missing == Maximum(|Gaps(d)| - |d.actual - d.universe|, 0)
  {
    CoverTotals(d);
    SplitCard(d.universe, d.actual);
    SplitCard(d.actual, d.universe);
    assert d.actual * d.universe == d.universe * d.actual;
  }

  /** The report flags truncation only when the limit really cut rows. It misses a cut exactly when the
      table holds at least as many foreign stocks as rows were cut. */
  lemma {:induction false} TruncationFlag(d: Day, rows: seq<Row>, limit: nat)
    requires IsGapList(d, rows)
    ensures var c, shown := Cover(BaseOf(d), |d.actual|), Limited(rows, limit);
            (Truncated(c, shown) ==> |shown| < |Gaps(d)|) &&
            (|shown| < |Gaps(d)| && !Truncated(c, shown) <==> limit < |Gaps(d)| <= limit + |d.actual - d.universe|)
    ensures d.actual <= d.universe ==>
            (Truncated(Cover(BaseOf(d), |d.actual|), Limited(rows, limit)) <==> limit < |Gaps(d)|)
  {
    RowsAreGaps(d, rows);
    CountedGaps(d);
    if d.actual <= d.universe { assert d.actual - d.universe == {}; }
  }

  /** Such a day: two gaps, one of them cut by a limit of one, and one foreign stock. */
  lemma {:induction false} MissedCut()
    ensures var d := Day({1, 2}, {7}, {}, {1, 2}); var rows := [Row(1, MissingData), Row(2, MissingData)];
            IsGapList(d, rows) && |Limited(rows, 1)| < |Gaps(d)| &&
            !Truncated(Cover(BaseOf(d), |d.actual|), Limited(rows, 1))
  {
    var d, rows := Day({1, 2}, {7}, {}, {1, 2}), [Row(1, MissingData), Row(2, MissingData)];
    assert Gaps(d) == {1, 2} && d.actual - d.universe == {7};
    assert rows[0] == Row(1, MissingData) && rows[1] == Row(2, MissingData);
    forall c | c in Gaps(d) ensures Row(c, ReasonOf(d, c)) in rows {
      assert c == 1 || c == 2;
    }
    TruncationFlag(d, rows, 1);
  }

  lemma {:induction false} MissingInPrefix(rows: seq<Row>, n: nat)
    requires Ordered(rows) && n <= |rows|
    ensures MissingRows(rows[..n]) == Minimum(n, MissingRows(rows))
    decreases |rows|
  {
    if n == |rows| {
      assert rows[..n] == rows;
      MissingFirst(rows);
    } else {
      var front := rows[..|rows| - 1];
      MissingInPrefix(front, n);
      assert rows[..n] == front[..n];
      MissingFirst(rows);
      MissingFirst(front);
    }
  }

  /** A limited report shows every counted missing stock that fits: the missing rows come first. */
  lemma {:induction false} MissingRowsShown(d: Day, rows: seq<Row>, limit: nat)
    requires IsGapList(d, rows)
    ensures MissingRows(Limited(rows, limit)) == Minimum(limit, |Unexplained(d)|)
    ensures MissingRows(Limited(rows, limit)) >= Minimum(limit, Cover(BaseOf(d), |d.actual|).missing)
  {
    RowsAreGaps(d, rows);
    MissingCount(d);
    MissingFirst(rows);
    if limit < |rows| { MissingInPrefix(rows, limit); }
  }

  // ---- the labels and figures as sets ----

  /** A gap is suspended when the stock has a suspension event, without a market record when it has
      neither that nor any record, and otherwise missing. */
  lemma {:induction false} LabelsAreSets(d: Day)
    ensures Gaps(d) == d.universe - d.actual
    ensures Labelled(d, Suspended) == (d.universe - d.actual) * d.suspended
    ensures Labelled(d, NoMarketRecord) == d.universe - d.actual - d.suspended - d.recorded
    ensures Labelled(d, MissingData) == (d.universe - d.actual) * d.recorded - d.suspended
  {
  }

  /** The figures of a day: suspended stocks of the universe explain missing ones first, stocks without a
      record explain the rest, and what is left is missing. */
  lemma {:induction false} FiguresAreSets(d: Day)
    ensures var c, raw := Cover(BaseOf(d), |d.actual|), |d.universe| - |d.actual|;
            var suspended, silent := |d.universe * d.suspended|, |d.universe - d.suspended - d.recorded|;
            && c.expected == |d.universe| && c.actual == |d.actual|
            && (raw <= 0 ==> c.suspended == c.noMarketRecord == c.missing == 0)
            && (0 < raw <= suspended ==> c.suspended == raw && c.noMarketRecord == c.missing == 0)
            && (suspended < raw <= suspended + silent ==>
                  c.suspended == suspended && c.noMarketRecord == raw - suspended && c.missing == 0)
            && (raw > suspended + silent && raw > 0 ==>
                  c.suspended == suspended && c.noMarketRecord == silent && c.missing == raw - suspended - silent)
            && c.exempt == c.suspended + c.noMarketRecord
  {
    assert (set c | c in d.universe && ReasonOf(d, c) == Suspended) == d.universe * d.suspended;
    assert (set c | c in d.universe && ReasonOf(d, c) == NoMarketRecord) == d.universe - d.suspended - d.recorded;
  }
}
