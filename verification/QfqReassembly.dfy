/** Assembling a stored row again keeps its prices and averages (`coalesce`) and overwrites its rolling
    highs and lows, returns, distances and drawdowns (`EXCLUDED`). */
module QfqReassembly {
  import opened Wrappers
  import opened Windows
  import opened SqlWindows
  import opened TechnicalCore
  import opened FactorRow
  import opened QfqBasis
  import RebaseRecompute

  /** The columns a second assembly overwrites. */
  predicate Overwritten(c: FactorColumn)
  {
    c.HighOver? || c.LowOver? || c.ReturnPct? || c.DistanceHigh? || c.DistanceLow? || c.DrawdownPct? || c.Volatility?
  }

  function Reassembled(c: FactorColumn, stored: Option<real>, assembled: Option<real>): Option<real>
  {
    if Overwritten(c) || stored.None? then assembled else stored
  }

  /** Column `c` of the last day of `days` on the basis `latest`. */
  function On(c: FactorColumn, days: seq<Day>, latest: real, root: real -> real): Option<real>
    requires days != []
  {
    RowValue(c, QfqBars(days, latest), root)
  }

  /** A row stored on the basis `stored` and assembled again on `latest`. */
  function Again(c: FactorColumn, days: seq<Day>, stored: real, latest: real, root: real -> real): Option<real>
    requires days != []
  {
    Reassembled(c, On(c, days, stored, root), On(c, days, latest, root))
  }

  lemma {:induction false} ScaledApart(x: real, stored: real, latest: real)
    requires x != 0.0 && stored > 0.0 && latest > 0.0
    ensures Times(x, stored / latest) == x <==> stored == latest
  {
    var k := stored / latest;
    assert k * latest == stored;
    if Times(x, k) == x { assert x * (k - 1.0) == 0.0; }
    if stored == latest { DivUnique(stored, latest, 1.0); }
  }

  /** A priced column that is not zero tells the bases apart. */
  lemma {:induction false} ColumnTellsBases(c: FactorColumn, days: seq<Day>, x: real, y: real, root: real -> real)
    requires days != [] && x > 0.0 && y > 0.0 && IsRoot(root) && InRebaseSet(c)
    requires On(c, days, x, root).Some? && On(c, days, x, root).value != 0.0
    ensures On(c, days, x, root) == On(c, days, y, root) <==> x == y
  {
    RebaseRecompute.RebaseEqualsRecompute(c, days, x, y, root);
    ScaledApart(On(c, days, x, root).value, x, y);
  }

  /** The row of a day with a close and a rolling high can be told from the row on any other basis. */
  ghost predicate Telling(days: seq<Day>, n: Period, basis: real, root: real -> real)
    requires days != []
  {
    On(CloseQfq, days, basis, root).Some? && On(CloseQfq, days, basis, root).value != 0.0 &&
    On(HighOver(n), days, basis, root).Some? && On(HighOver(n), days, basis, root).value != 0.0
  }

  lemma {:induction false} TellingOnAny(days: seq<Day>, n: Period, x: real, y: real, root: real -> real)
    requires days != [] && x > 0.0 && y > 0.0 && IsRoot(root) && Telling(days, n, x, root)
    ensures Telling(days, n, y, root)
  {
    RebaseRecompute.RebaseEqualsRecompute(CloseQfq, days, x, y, root);
    RebaseRecompute.RebaseEqualsRecompute(HighOver(n), days, x, y, root);
    RebaseRecompute.QuotientPositive(x, y);
    RebaseRecompute.TimesFacts(On(CloseQfq, days, x, root).value, 0.0, x / y);
    RebaseRecompute.TimesFacts(On(HighOver(n), days, x, root).value, 0.0, x / y);
  }

  /** Assembling a row again changes nothing exactly when it is stored on the latest factor already. */
  lemma {:induction false} ReassemblyIsNoOpExactly(days: seq<Day>, n: Period, stored: real, latest: real,
                                                   root: real -> real)
    requires days != [] && stored > 0.0 && latest > 0.0 && IsRoot(root) && Telling(days, n, stored, root)
    ensures (forall c :: Again(c, days, stored, latest, root) == On(c, days, stored, root)) <==> stored == latest
  {
    ColumnTellsBases(HighOver(n), days, stored, latest, root);
    assert Again(HighOver(n), days, stored, latest, root) == On(HighOver(n), days, latest, root);
  }

  /** Otherwise it leaves the row on no basis at all: the close stays on the old one and the rolling
      high moves to the new. */
  lemma {:induction false} ReassemblyKeepsOneBasisExactly(days: seq<Day>, n: Period, stored: real, latest: real,
                                                          basis: real, root: real -> real)
    requires days != [] && stored > 0.0 && latest > 0.0 && basis > 0.0 && IsRoot(root) && Telling(days, n, stored, root)
    ensures (forall c :: Again(c, days, stored, latest, root) == On(c, days, basis, root)) <==>
            stored == latest == basis
  {
    TellingOnAny(days, n, stored, latest, root);
    ColumnTellsBases(CloseQfq, days, stored, basis, root);
    ColumnTellsBases(HighOver(n), days, latest, basis, root);
    assert Again(CloseQfq, days, stored, latest, root) == On(CloseQfq, days, stored, root);
    assert Again(HighOver(n), days, stored, latest, root) == On(HighOver(n), days, latest, root);
  }

  /** Column by column: a second assembly keeps the stored prices and averages and fills in missing ones,
      and takes the new extremes, returns, distances, drawdowns and volatilities, missing ones included. */
  lemma {:induction false} ReassembledColumns(n: Period, stored: Option<real>, assembled: Option<real>)
    ensures forall c :: c in {OpenQfq, HighQfq, LowQfq, CloseQfq, PreCloseQfq, Ma(n)} ==>
              Reassembled(c, stored, assembled) == if stored.Some? then stored else assembled
    ensures forall c :: c in {HighOver(n), LowOver(n), ReturnPct(n), DistanceHigh(n), DistanceLow(n), DrawdownPct(n),
                              Volatility(n)} ==>
              Reassembled(c, stored, assembled) == assembled
  {
  }
}
