/** The rebase of one trade date: the scale it derives from the stored closes, when it fires, what it
    leaves behind, and what running it again does. */
module QfqBasis {
  import opened Wrappers
  import opened Windows
  import opened FactorRow
  import opened TechnicalCore
  import RebaseRecompute

  /** Listed prices and adjustment factors are positive. */
  ghost predicate PositiveFacts(days: seq<Day>)
  {
    forall i :: 0 <= i < |days| ==>
      (days[i].adj.Some? ==> days[i].adj.value > 0.0) && (days[i].close.Some? ==> days[i].close.value > 0.0)
  }

  /** The factor of the most recent of the first `n` days that has one. */
  function LatestAdj(days: seq<Day>, n: nat): Option<real>
    requires n <= |days|
  {
    if n == 0 then None else if days[n - 1].adj.Some? then days[n - 1].adj else LatestAdj(days, n - 1)
  }

  /** The last stored row before day `n` whose close is not NULL. */
  function Reference(table: seq<Option<real>>, n: nat): (r: Option<nat>)
    requires n <= |table|
    ensures r.Some? ==> r.value < n && table[r.value].Some?
    ensures r.None? ==> forall d :: 0 <= d < n ==> table[d].None?
  {
    if n == 0 then None else if table[n - 1].Some? then Some(n - 1) else Reference(table, n - 1)
  }

  function Quotient(x: Option<real>, y: real): Option<real>
  {
    if x.Some? && y != 0.0 then Some(x.value / y) else None
  }

  /** `(bfq_close * reference_factor / nullif(current, 0)) / nullif(stored_qfq_close, 0)`. */
  function DerivedScale(table: seq<Option<real>>, days: seq<Day>, n: nat, current: real): Option<real>
    requires n <= |table| <= |days|
  {
    var r := Reference(table, n);
    if r.None? then None
    else
      var factor := LatestAdj(days, r.value + 1);
      var close := days[r.value].close;
      if factor.None? || close.None? then None
      else Quotient(Quotient(Some(Times(close.value, factor.value)), current), table[r.value].value)
  }

  predicate Changed(current: real, previous: real) { Abs(current - previous) > 0.000000000001 }

  predicate PassesGuard(scale: real) { 0.01 <= scale <= 100.0 && Abs(scale - 1.0) > 0.00000001 }

  /** The scale the rebase applies on day `n`, if it updates at all. */
  function AppliedScale(table: seq<Option<real>>, days: seq<Day>, n: nat): Option<real>
    requires n < |days| && n <= |table| <= |days|
  {
    var current, previous := days[n].adj, LatestAdj(days, n);
    if current.None? || previous.None? || !Changed(current.value, previous.value) then None
    else
      var scale := DerivedScale(table, days, n, current.value);
      if scale.Some? && PassesGuard(scale.value) then scale else None
  }

  /** The UPDATE: every row before day `n` is multiplied by the scale, rows of day `n` and later are
      left alone; the result counts the updated rows. */
  function Rebase(table: seq<Option<real>>, days: seq<Day>, n: nat): (r: (seq<Option<real>>, nat))
    requires n <= |table| <= |days| && n < |days|
    ensures |r.0| == |table|
  {
    var scale := AppliedScale(table, days, n);
    if scale.None? then (table, 0) else (RebaseRecompute.ScaleOptions(table[..n], scale.value) + table[n..], n)
  }

  /** `close_qfq(d) = close(d) * adj(d) / latest` on every stored row. */
  ghost predicate OnBasis(table: seq<Option<real>>, days: seq<Day>, latest: Option<real>)
    requires |table| <= |days|
  {
    forall d :: 0 <= d < |table| ==>
      table[d] == if latest.Some? then Qfq(days[d].close, days[d].adj, latest.value) else None
  }

  lemma {:induction false} LatestAdjFacts(days: seq<Day>, n: nat)
    requires n <= |days| && PositiveFacts(days)
    ensures LatestAdj(days, n).Some? ==> LatestAdj(days, n).value > 0.0
    ensures LatestAdj(days, n).None? <==> forall d :: 0 <= d < n ==> days[d].adj.None?
  {
    if n > 0 { LatestAdjFacts(days, n - 1); }
  }

  lemma {:induction false} QuotientEqual(x: real, a: real, b: real)
    requires x > 0.0 && a > 0.0 && b > 0.0 && x / a == x / b
    ensures a == b
  {
    var q := x / a;
    assert q * a == x && q * b == x;
    RebaseRecompute.QuotientPositive(x, a);
    ScaleOrder(a, b, q);
  }

  lemma {:induction false} ScaleOfQuotients(x: real, latest: real, current: real)
    requires x > 0.0 && latest > 0.0 && current > 0.0
    ensures x / latest > 0.0 && (x / current) / (x / latest) == latest / current
  {
    RebaseRecompute.QuotientPositive(x, latest);
    RebaseRecompute.BasisChange(x, latest, current);
    DivUnique(x / current, x / latest, latest / current);
  }

  /** The scale derived from the stored reference row is the ratio of the two bases. */
  lemma {:induction false} DerivedScaleIsRatio(table: seq<Option<real>>, days: seq<Day>, n: nat, basis: real,
                                               current: real)
    requires n <= |table| <= |days| && PositiveFacts(days) && basis > 0.0 && current > 0.0
    requires OnBasis(table, days, Some(basis)) && Reference(table, n).Some?
    ensures DerivedScale(table, days, n, current) == Some(basis / current)
  {
    var r := Reference(table, n).value;
    assert table[r] == Qfq(days[r].close, days[r].adj, basis);
    var x := Times(days[r].close.value, days[r].adj.value);
    ScaleOrder(0.0, days[r].close.value, days[r].adj.value);
    assert x > 0.0;
    ScaleOfQuotients(x, basis, current);
  }

  lemma {:induction false} ScaledTable(table: seq<Option<real>>, days: seq<Day>, basis: real, current: real)
    requires |table| <= |days| && basis > 0.0 && current > 0.0 && OnBasis(table, days, Some(basis))
    ensures OnBasis(RebaseRecompute.ScaleOptions(table, basis / current), days, Some(current))
  {
    forall d | 0 <= d < |table|
      ensures ScaleOption(table[d], basis / current) == Qfq(days[d].close, days[d].adj, current)
    {
      RebaseRecompute.QfqRebases(days[d].close, days[d].adj, basis, current);
    }
  }

  /** Two bases put a valued row on different prices. */
  lemma {:induction false} BasesDiffer(day: Day, x: real, y: real)
    requires day.close.Some? && day.adj.Some? && day.close.value > 0.0 && day.adj.value > 0.0 && x > 0.0 && y > 0.0
    ensures Qfq(day.close, day.adj, x) == Qfq(day.close, day.adj, y) <==> x == y
  {
    ScaleOrder(0.0, day.close.value, day.adj.value);
    if x != y && Qfq(day.close, day.adj, x) == Qfq(day.close, day.adj, y) {
      QuotientEqual(Times(day.close.value, day.adj.value), x, y);
    }
  }

  /** What a caller can check before the rebase of day `n` over rows on the basis `basis`: the factor
      of the day moved, and the ratio of the bases passes the guard of the UPDATE. */
  predicate Fires(days: seq<Day>, n: nat, basis: real)
    requires n < |days|
  {
    days[n].adj.Some? && LatestAdj(days, n).Some? && Changed(days[n].adj.value, LatestAdj(days, n).value) &&
    days[n].adj.value != 0.0 && PassesGuard(basis / days[n].adj.value)
  }

  /** The rebase applies the ratio of the bases exactly when it fires. */
  lemma {:induction false} AppliedScaleExactly(table: seq<Option<real>>, days: seq<Day>, n: nat, basis: real)
    requires n <= |table| <= |days| && n < |days| && PositiveFacts(days) && basis > 0.0
    requires OnBasis(table, days, Some(basis)) && Reference(table, n).Some?
    ensures AppliedScale(table, days, n) == if Fires(days, n, basis) then Some(basis / days[n].adj.value) else None
  {
    if days[n].adj.Some? { DerivedScaleIsRatio(table, days, n, basis, days[n].adj.value); }
  }

  lemma {:induction false} FiringMoves(days: seq<Day>, n: nat, basis: real)
    requires n < |days| && Fires(days, n, basis)
    ensures basis != days[n].adj.value
  {
    if basis == days[n].adj.value { DivUnique(basis, basis, 1.0); }
  }

  /** On a table that has one basis, whatever that basis is and however many later rows are stored,
      the rebase of day `n` updates rows exactly when it fires, and then puts the earlier rows on the
      factor of the day. */
  lemma {:induction false} RebaseUpdatesExactly(table: seq<Option<real>>, days: seq<Day>, n: nat, basis: real)
    requires n <= |table| <= |days| && n < |days| && PositiveFacts(days) && basis > 0.0
    requires OnBasis(table, days, Some(basis)) && Reference(table, n).Some?
    ensures Rebase(table, days, n).1 == (if Fires(days, n, basis) then n else 0) && n > 0
    ensures Rebase(table, days, n).0 == table <==> !Fires(days, n, basis)
    ensures Fires(days, n, basis) ==>
              OnBasis(Rebase(table, days, n).0[..n], days, days[n].adj) && Rebase(table, days, n).0[n..] == table[n..]
  {
    AppliedScaleExactly(table, days, n, basis);
    if Fires(days, n, basis) {
      var after, current, r := Rebase(table, days, n).0, days[n].adj.value, Reference(table, n).value;
      FiringMoves(days, n, basis);
      ScaledTable(table[..n], days, basis, current);
      assert after[..n] == RebaseRecompute.ScaleOptions(table[..n], basis / current);
      assert after[n..] == table[n..];
      assert after[r] == after[..n][r] == Qfq(days[r].close, days[r].adj, current);
      assert table[r] == Qfq(days[r].close, days[r].adj, basis);
      BasesDiffer(days[r], basis, current);
    }
  }

  lemma {:induction false} LatestAdjAt(days: seq<Day>, p: nat, n: nat)
    requires p < n <= |days| && days[p].adj.Some? && forall d :: p < d < n ==> days[d].adj.None?
    ensures LatestAdj(days, n) == days[p].adj
  {
    if p < n - 1 { LatestAdjAt(days, p, n - 1); }
  }

  lemma {:induction false} ReferenceExists(table: seq<Option<real>>, r: nat, n: nat)
    requires r < n <= |table| && table[r].Some?
    ensures Reference(table, n).Some?
  {
    if r < n - 1 { ReferenceExists(table, r, n - 1); }
  }

  /** The rebase in numbers. With rows before day `n` stored as close times factor over `basis`, at
      least one of them valued, and `previous` the factor before that of the day: rows are updated
      exactly when the factor moved by more than 1e-12 and basis over factor is between 0.01 and 100
      and more than 1e-8 away from 1; then all `n` earlier rows are, to close times factor over the
      factor of the day. */
  lemma {:induction false} RebaseInNumbers(table: seq<Option<real>>, days: seq<Day>, n: nat, basis: real, p: nat,
                                           previous: real, current: real, r: nat)
    requires n <= |table| <= |days| && n < |days| && PositiveFacts(days) && basis > 0.0
    requires p < n && days[p].adj == Some(previous) && forall d :: p < d < n ==> days[d].adj.None?
    requires days[n].adj == Some(current) && r < n && table[r].Some?
    requires forall d :: 0 <= d < |table| ==>
               table[d] == if days[d].close.Some? && days[d].adj.Some?
                           then Some(days[d].close.value * days[d].adj.value / basis) else None
    ensures var fires := && (current - previous > 0.000000000001 || previous - current > 0.000000000001)
                         && 0.01 <= basis / current <= 100.0
                         && (basis / current - 1.0 > 0.00000001 || 1.0 - basis / current > 0.00000001);
            && Rebase(table, days, n).1 == (if fires then n else 0)
            && forall d :: 0 <= d < |table| ==>
                 Rebase(table, days, n).0[d] ==
                 if fires && d < n && table[d].Some?
                 then Some(days[d].close.value * days[d].adj.value / current) else table[d]
  {
    forall d | 0 <= d < |table| ensures table[d] == Qfq(days[d].close, days[d].adj, basis) {
      if table[d].Some? {
        assert Times(days[d].close.value, days[d].adj.value) == days[d].close.value * days[d].adj.value;
      }
    }
    LatestAdjAt(days, p, n);
    ReferenceExists(table, r, n);
    RebaseUpdatesExactly(table, days, n, basis);
    if Fires(days, n, basis) {
      forall d | 0 <= d < |table|
        ensures d < n ==> Rebase(table, days, n).0[d] == Qfq(days[d].close, days[d].adj, current)
        ensures d >= n ==> Rebase(table, days, n).0[d] == table[d]
      {
        var after := Rebase(table, days, n).0;
        assert d < n ==> after[d] == after[..n][d];
        assert d >= n ==> after[d] == after[n..][d - n] && table[d] == table[n..][d - n];
      }
    }
  }

  /** Without a factor on the day, an earlier factor or a stored close before it, nothing is updated. */
  lemma {:induction false} RebaseWithoutFacts(table: seq<Option<real>>, days: seq<Day>, n: nat)
    requires n <= |table| <= |days| && n < |days| && PositiveFacts(days)
    requires days[n].adj.None? || (forall d :: 0 <= d < n ==> days[d].adj.None?) ||
             (forall d :: 0 <= d < n ==> table[d].None?)
    ensures Rebase(table, days, n) == (table, 0)
  {
    LatestAdjFacts(days, n);
  }

  /** What a caller can check before the rebase: the factor did not move, or it moved and the ratio
      of the bases passes the guard of the UPDATE. */
  predicate Reanchors(previous: real, current: real)
  {
    current == previous || (Changed(current, previous) && current != 0.0 && PassesGuard(previous / current))
  }

  /** With something stored, the rebase puts every earlier row on the new basis exactly when
      `Reanchors` holds: a factor change inside the tolerances, or a scale outside [0.01, 100], leaves
      the whole history on the old basis. */
  lemma {:induction false} RebaseReanchorsExactly(table: seq<Option<real>>, days: seq<Day>, n: nat)
    requires n == |table| && n < |days| && PositiveFacts(days)
    requires LatestAdj(days, n).Some? && days[n].adj.Some? && Reference(table, n).Some?
    requires OnBasis(table, days, LatestAdj(days, n))
    ensures OnBasis(Rebase(table, days, n).0, days, days[n].adj)
            <==> Reanchors(LatestAdj(days, n).value, days[n].adj.value)
  {
    var previous, current := LatestAdj(days, n).value, days[n].adj.value;
    LatestAdjFacts(days, n);
    RebaseUpdatesExactly(table, days, n, previous);
    var after := Rebase(table, days, n).0;
    assert after[..n] == after;
    if !Fires(days, n, previous) && OnBasis(table, days, Some(current)) {
      var r := Reference(table, n).value;
      assert table[r] == Qfq(days[r].close, days[r].adj, previous) == Qfq(days[r].close, days[r].adj, current);
      BasesDiffer(days[r], previous, current);
    }
  }

  /** A reverse split by more than a hundred is one concrete family the guard shuts out. */
  lemma {:induction false} HundredfoldFactorStaysBehind(previous: real, current: real)
    requires previous > 0.0 && current > 100.0 * previous
    ensures !Reanchors(previous, current)
  {
    var q := previous / current;
    assert q * current == previous;
    ScaleOrder(0.01, q, current);
  }

  // ----- running it again

  lemma {:induction false} ScaleOfScaled(x: real, stored: real)
    requires stored != 0.0 && x / stored != 0.0
    ensures Times(stored, x / stored) == x && x != 0.0 && x / x == 1.0
  {
    var s := x / stored;
    assert s * stored == x;
    DivUnique(x, x, 1.0);
  }

  /** Reference and scale depend on the earlier rows only. */
  lemma {:induction false} ReferenceOfPrefix(table: seq<Option<real>>, other: seq<Option<real>>, n: nat)
    requires n <= |table| && n <= |other| && table[..n] == other[..n]
    ensures Reference(table, n) == Reference(other, n)
  {
    if n > 0 {
      assert table[n - 1] == table[..n][n - 1] == other[..n][n - 1] == other[n - 1];
      assert table[..n - 1] == table[..n][..n - 1] == other[..n][..n - 1] == other[..n - 1];
      ReferenceOfPrefix(table, other, n - 1);
    }
  }

  lemma {:induction false} ReferenceOfScaled(table: seq<Option<real>>, n: nat, scale: real)
    requires n <= |table|
    ensures Reference(RebaseRecompute.ScaleOptions(table, scale), n) == Reference(table, n)
  {
    if n > 0 { ReferenceOfScaled(table, n - 1, scale); }
  }

  /** A repeated run derives the scale one: over any table at all, and whatever rows of day `n` and
      later have been stored since, running the rebase of day `n` again updates no row. */
  lemma {:induction false} RebaseIsIdempotent(table: seq<Option<real>>, days: seq<Day>, n: nat,
                                              later: seq<Option<real>>)
    requires n <= |table| <= |days| && n < |days| && n + |later| <= |days|
    ensures var stored := Rebase(table, days, n).0[..n] + later; Rebase(stored, days, n) == (stored, 0)
  {
    var once := Rebase(table, days, n).0;
    var stored := once[..n] + later;
    assert stored[..n] == once[..n];
    ReferenceOfPrefix(once, stored, n);
    var scale := AppliedScale(table, days, n);
    if scale.Some? {
      var scaled := RebaseRecompute.ScaleOptions(table[..n], scale.value);
      assert once[..n] == scaled;
      ReferenceOfScaled(table[..n], n, scale.value);
      ReferenceOfPrefix(table, table[..n], n);
      ReferenceOfPrefix(once, scaled, n);
      var r := Reference(table, n).value;
      var x := Times(days[r].close.value, LatestAdj(days, r + 1).value) / days[n].adj.value;
      assert scale.value == x / table[r].value;
      ScaleOfScaled(x, table[r].value);
      assert stored[r] == stored[..n][r] == scaled[r] == ScaleOption(table[r], scale.value) == Some(x);
      assert DerivedScale(stored, days, n, days[n].adj.value) == Some(1.0);
    } else {
      assert once == table;
      if Reference(table, n).Some? {
        assert stored[Reference(table, n).value] == stored[..n][Reference(table, n).value];
      }
    }
  }

  /** On any table with one basis the rerun of a day updates no row exactly when it does not fire
      against that basis; right after the day, when the basis is its factor, it never fires. */
  lemma {:induction false} RerunUpdatesNothingExactly(table: seq<Option<real>>, days: seq<Day>, n: nat, basis: real)
    requires n <= |table| <= |days| && n < |days| && PositiveFacts(days) && basis > 0.0
    requires OnBasis(table, days, Some(basis)) && Reference(table, n).Some?
    ensures Rebase(table, days, n) == (table, 0) <==> !Fires(days, n, basis)
    ensures days[n].adj == Some(basis) ==> !Fires(days, n, basis)
  {
    RebaseUpdatesExactly(table, days, n, basis);
    DivUnique(basis, basis, 1.0);
  }

  /** The rerun of an older ex-date, once a newer factor has moved the basis on, fires against the newer
      basis: whenever a valued row of that day or later is stored, history is then on no single basis. */
  lemma {:induction false} OldExDateSplitsHistory(table: seq<Option<real>>, days: seq<Day>, n: nat, basis: real, e: nat,
                                                  other: real)
    requires n <= e < |table| <= |days| && PositiveFacts(days) && basis > 0.0 && other > 0.0
    requires OnBasis(table, days, Some(basis)) && Reference(table, n).Some? && table[e].Some? && Fires(days, n, basis)
    ensures !OnBasis(Rebase(table, days, n).0, days, Some(other))
  {
    RebaseUpdatesExactly(table, days, n, basis);
    LatestAdjFacts(days, n);
    var after, current, r := Rebase(table, days, n).0, days[n].adj.value, Reference(table, n).value;
    assert table[e] == Qfq(days[e].close, days[e].adj, basis) && table[r] == Qfq(days[r].close, days[r].adj, basis);
    assert after[e] == after[n..][e - n] == table[n..][e - n] == table[e];
    assert after[r] == after[..n][r] == Qfq(days[r].close, days[r].adj, current);
    BasesDiffer(days[e], other, basis);
    BasesDiffer(days[r], other, current);
    FiringMoves(days, n, basis);
  }

  function ClosedAtTen(date: int, adj: real): Day { Day(date, None, None, None, Some(10.0), Some(adj)) }

  const THREE_DAYS := [ClosedAtTen(0, 1.0), ClosedAtTen(1, 2.0), ClosedAtTen(2, 4.0)]

  /** Such a table: factors 1, 2 and 4, closes of 10, everything on the basis 4. Running day 1 again
      rewrites the first row to 5. */
  lemma {:induction false} OldExDateRerun()
    ensures var table := [Some(2.5), Some(5.0), Some(10.0)];
            PositiveFacts(THREE_DAYS) && OnBasis(table, THREE_DAYS, LatestAdj(THREE_DAYS, 3)) &&
            Rebase(table, THREE_DAYS, 1) == ([Some(5.0), Some(5.0), Some(10.0)], 1)
  {
    var days, table := THREE_DAYS, [Some(2.5), Some(5.0), Some(10.0)];
    assert LatestAdj(days, 1) == Some(1.0) && Reference(table, 1) == Some(0);
    assert DerivedScale(table, days, 1, 2.0) == Some(2.0);
    assert AppliedScale(table, days, 1) == Some(2.0);
    assert table[..1] == [Some(2.5)] && table[1..] == [Some(5.0), Some(10.0)];
    assert RebaseRecompute.ScaleOptions([Some(2.5)], 2.0) == [Some(5.0)];
    assert [Some(5.0)] + [Some(5.0), Some(10.0)] == [Some(5.0), Some(5.0), Some(10.0)];
  }

  /** With the scale the rebase derives, every column of every stored row becomes the row that a
      full recompute on the new factor would store. */
  lemma {:induction false} RebasedHistoryIsRecomputed(table: seq<Option<real>>, days: seq<Day>, n: nat, d: nat,
                                                      c: FactorColumn, root: real -> real)
    requires n <= |table| <= |days| && n < |days| && d < n && PositiveFacts(days) && IsRoot(root)
    requires OnBasis(table, days, LatestAdj(days, n)) && AppliedScale(table, days, n).Some?
    ensures RowValue(c, QfqBars(days[..d + 1], days[n].adj.value), root)
         == Rebased(c, RowValue(c, QfqBars(days[..d + 1], LatestAdj(days, n).value), root),
                    AppliedScale(table, days, n).value)
  {
    LatestAdjFacts(days, n);
    var previous, current := LatestAdj(days, n).value, days[n].adj.value;
    DerivedScaleIsRatio(table, days, n, previous, current);
    RebaseRecompute.RebaseEqualsRecompute(c, days[..d + 1], previous, current, root);
  }
}
