/** Daily runs: after a bulk load each day runs its own rebase, or misses it, and stores its row. On
    harmless days every column of every row stays what a full recompute would give. The witnesses at the
    end show a missed ex-date, its repair, and one that is passed over for good. */
module QfqDaily {
  import opened Wrappers
  import opened Windows
  import opened FactorRow
  import opened TechnicalCore
  import opened QfqBasis
  import opened QfqRuns
  import RebaseRecompute

  /** The first `m` rows, all on the factor latest after day `m`. */
  function Bulk(days: seq<Day>, m: nat): (t: seq<Option<real>>)
    requires m <= |days|
    ensures |t| == |days|
  {
    seq(|days|, d requires 0 <= d < |days| =>
      if d < m then Qfq(days[d].close, days[d].adj, Factor(LatestAdj(days, m))) else None)
  }

  /** The table after the rebase of day `n`, if it ran. */
  function RebasedTable(table: seq<Option<real>>, days: seq<Day>, ran: bool, n: nat): (t: seq<Option<real>>)
    requires |table| == |days| && n < |days|
    ensures |t| == |days|
  {
    if ran then Apply(table, days, Reanchor(n)) else table
  }

  /** Days `m` to `n` of a daily run; `ran[i]` says whether the rebase of day `i` ran. */
  function DailyTable(days: seq<Day>, ran: seq<bool>, m: nat, n: nat): (t: seq<Option<real>>)
    requires m <= n <= |days| == |ran|
    ensures |t| == |days|
  {
    if n == m then Bulk(days, m)
    else Apply(RebasedTable(DailyTable(days, ran, m, n - 1), days, ran[n - 1], n - 1), days, Assemble(n - 1, n))
  }

  /** All valued rows of the first `n` days on the factor latest after them. */
  function DailyBases(days: seq<Day>, n: nat): (b: Bases)
    requires n <= |days|
    ensures |b| == |days|
    ensures forall d :: 0 <= d < |b| ==> b[d] == if d < n && Valued(days[d]) then LatestAdj(days, n) else None
  {
    seq(|days|, d requires 0 <= d < |days| => if d < n && Valued(days[d]) then LatestAdj(days, n) else None)
  }

  lemma {:induction false} BulkShows(days: seq<Day>, m: nat)
    requires m <= |days| && PositiveFacts(days)
    ensures Shows(Bulk(days, m), days, DailyBases(days, m))
  {
    LatestAdjFacts(days, m);
    forall d | 0 <= d < |days| ensures SlotShows(Bulk(days, m)[d], days[d], DailyBases(days, m)[d]) {
    }
  }

  /** The rebase of a day, if it ran. */
  function RebasedIf(bases: Bases, days: seq<Day>, ran: bool, n: nat): (b: Bases)
    requires |bases| == |days| && n < |days|
    ensures |b| == |days|
  {
    if ran then ApplyBases(bases, days, Reanchor(n)) else bases
  }

  /** The bases day by day. */
  function DailyAfter(days: seq<Day>, ran: seq<bool>, m: nat, n: nat): (b: Bases)
    requires m <= n <= |days| == |ran|
    ensures |b| == |days|
  {
    if n == m then DailyBases(days, m)
    else ApplyBases(RebasedIf(DailyAfter(days, ran, m, n - 1), days, ran[n - 1], n - 1), days, Assemble(n - 1, n))
  }

  lemma {:induction false} DailyShows(days: seq<Day>, ran: seq<bool>, m: nat, n: nat)
    requires m <= n <= |days| == |ran| && PositiveFacts(days)
    ensures Shows(DailyTable(days, ran, m, n), days, DailyAfter(days, ran, m, n))
  {
    if n == m {
      BulkShows(days, m);
    } else {
      var table, bases := DailyTable(days, ran, m, n - 1), DailyAfter(days, ran, m, n - 1);
      DailyShows(days, ran, m, n - 1);
      if ran[n - 1] { ReanchorShows(table, days, bases, n - 1); }
      AssembleShows(RebasedTable(table, days, ran[n - 1], n - 1), days, RebasedIf(bases, days, ran[n - 1], n - 1),
                    Assemble(n - 1, n));
    }
  }

  // ---- harmless days

  /** Day `i` is harmless: no factor that day, no earlier factor, the same factor, or a rebase that ran
      and reanchors. */
  predicate Harmless(days: seq<Day>, ran: seq<bool>, i: nat)
    requires i < |days| == |ran|
  {
    var current, previous := days[i].adj, LatestAdj(days, i);
    current.None? || previous.None? || current == previous || (ran[i] && Reanchors(previous.value, current.value))
  }

  lemma {:induction false} DailyReference(days: seq<Day>, n: nat, i: nat)
    requires i <= n <= |days| && PositiveFacts(days)
    ensures LastBasis(DailyBases(days, n), i).Some? ==> LastBasis(DailyBases(days, n), i) == LatestAdj(days, n)
    ensures LastBasis(DailyBases(days, n), i).Some? <==> exists d :: 0 <= d < i && Valued(days[d])
  {
    LatestAdjFacts(days, n);
    if i > 0 { DailyReference(days, n, i - 1); }
  }

  lemma {:induction false} HarmlessRebase(days: seq<Day>, ran: seq<bool>, n: nat)
    requires n < |days| == |ran| && PositiveFacts(days) && Harmless(days, ran, n)
    ensures forall d :: 0 <= d < |days| ==>
              RebasedIf(DailyBases(days, n), days, ran[n], n)[d] ==
              if d < n && Valued(days[d]) then LatestAdj(days, n + 1) else None
  {
    var current, previous := days[n].adj, LatestAdj(days, n);
    LatestAdjFacts(days, n);
    DailyReference(days, n, n);
    if current.Some? && previous.Some? && current != previous {
      DivUnique(Times(previous.value, current.value), previous.value, current.value);
    }
  }

  lemma {:induction false} HarmlessDay(days: seq<Day>, ran: seq<bool>, n: nat)
    requires n < |days| == |ran| && PositiveFacts(days) && Harmless(days, ran, n)
    ensures ApplyBases(RebasedIf(DailyBases(days, n), days, ran[n], n), days, Assemble(n, n + 1)) ==
            DailyBases(days, n + 1)
  {
    HarmlessRebase(days, ran, n);
    var rebased := RebasedIf(DailyBases(days, n), days, ran[n], n);
    assert rebased[n] == None;
    var after := ApplyBases(rebased, days, Assemble(n, n + 1));
    forall d | 0 <= d < |days| ensures after[d] == DailyBases(days, n + 1)[d] {
    }
    assert after == DailyBases(days, n + 1);
  }

  lemma {:induction false} HarmlessRun(days: seq<Day>, ran: seq<bool>, m: nat, n: nat)
    requires m <= n <= |days| == |ran| && PositiveFacts(days)
    requires forall i :: m <= i < n ==> Harmless(days, ran, i)
    ensures DailyAfter(days, ran, m, n) == DailyBases(days, n)
  {
    if n > m {
      HarmlessRun(days, ran, m, n - 1);
      HarmlessDay(days, ran, n - 1);
    }
  }

  /** Scales telescope: after a bulk load and any run of harmless days every stored close is on the
      latest factor, and every valued day of the run has one stored. */
  lemma {:induction false} RunStaysOnLatestBasis(days: seq<Day>, ran: seq<bool>, m: nat, n: nat)
    requires m <= n <= |days| == |ran| && PositiveFacts(days)
    requires forall i :: m <= i < n ==> Harmless(days, ran, i)
    ensures Shows(DailyTable(days, ran, m, n), days, DailyBases(days, n))
    ensures forall d :: 0 <= d < |days| ==>
              DailyTable(days, ran, m, n)[d] ==
              if d < n then Qfq(days[d].close, days[d].adj, Factor(LatestAdj(days, n))) else None
  {
    HarmlessRun(days, ran, m, n);
    DailyShows(days, ran, m, n);
    LatestAdjFacts(days, n);
    forall d | 0 <= d < |days|
      ensures DailyTable(days, ran, m, n)[d] ==
              if d < n then Qfq(days[d].close, days[d].adj, Factor(LatestAdj(days, n))) else None
    {
      assert SlotShows(DailyTable(days, ran, m, n)[d], days[d], DailyBases(days, n)[d]);
    }
  }

  // ---- every column of every row

  /** A column of row `d`, assembled on the factor latest after `known` days. */
  type Assembly = (nat, nat) -> Option<real>

  function Scaled(c: FactorColumn, stored: Option<real>, scale: Option<real>): Option<real>
  {
    if scale.Some? then Rebased(c, stored, scale.value) else stored
  }

  function ScaledColumn(c: FactorColumn, column: seq<Option<real>>, scale: Option<real>): (s: seq<Option<real>>)
    ensures |s| == |column| && forall d :: 0 <= d < |s| ==> s[d] == Scaled(c, column[d], scale)
  {
    seq(|column|, d requires 0 <= d < |column| => Scaled(c, column[d], scale))
  }

  /** Column `c` of the stored rows after `n` days: the first `m` loaded in bulk, each later day first
      scaling the rows stored so far and then adding its own. */
  function RunColumn(c: FactorColumn, row: Assembly, scales: seq<Option<real>>, m: nat, n: nat)
    : (column: seq<Option<real>>)
    requires m <= n <= |scales|
    ensures |column| == n
  {
    if n == m then seq(m, d requires 0 <= d < m => row(d, m))
    else ScaledColumn(c, RunColumn(c, row, scales, m, n - 1), scales[n - 1]) + [row(n - 1, n)]
  }

  lemma {:induction false} ColumnFollows(c: FactorColumn, row: Assembly, scales: seq<Option<real>>, m: nat, n: nat,
                                         d: nat)
    requires m <= n <= |scales| && d < n
    requires forall i: nat :: m <= i < n && d < i ==> row(d, i + 1) == Scaled(c, row(d, i), scales[i])
    ensures RunColumn(c, row, scales, m, n)[d] == row(d, n)
  {
    if m < n && d < n - 1 { ColumnFollows(c, row, scales, m, n - 1, d); }
  }

  /** The scale that day `n` of the run applies to the stored rows. */
  function DayScale(days: seq<Day>, ran: seq<bool>, m: nat, n: nat): Option<real>
    requires m <= n < |days| == |ran|
  {
    if ran[n] then AppliedScale(DailyTable(days, ran, m, n), days, n) else None
  }

  function DayScales(days: seq<Day>, ran: seq<bool>, m: nat): (scales: seq<Option<real>>)
    requires m <= |days| == |ran|
    ensures |scales| == |days| && forall n :: m <= n < |days| ==> scales[n] == DayScale(days, ran, m, n)
  {
    seq(|days|, n requires 0 <= n < |days| => if n < m then None else DayScale(days, ran, m, n))
  }

  function Computed(c: FactorColumn, days: seq<Day>, d: nat, known: nat, root: real -> real): Option<real>
    requires d < known <= |days|
  {
    RowValue(c, QfqBars(days[..d + 1], Factor(LatestAdj(days, known))), root)
  }

  function AssemblyOf(c: FactorColumn, days: seq<Day>, root: real -> real): Assembly
  {
    (d: nat, known: nat) => if d < known <= |days| then Computed(c, days, d, known, root) else None
  }

  /** Column `c` of row `d` as the daily run leaves it. */
  function StoredColumn(c: FactorColumn, days: seq<Day>, ran: seq<bool>, m: nat, n: nat, d: nat, root: real -> real)
    : Option<real>
    requires m <= n <= |days| == |ran| && d < n
  {
    RunColumn(c, AssemblyOf(c, days, root), DayScales(days, ran, m), m, n)[d]
  }

  predicate Adjustable(day: Day)
  {
    day.adj.Some? && (day.open.Some? || day.high.Some? || day.low.Some? || day.close.Some?)
  }

  /** The side condition of the columns: before day `i` some row has a close to derive the scale from,
      unless there is nothing to rescale. */
  ghost predicate Referenced(days: seq<Day>, i: nat)
    requires i <= |days|
  {
    (exists d :: 0 <= d < i && Valued(days[d])) || (forall d :: 0 <= d < i ==> !Adjustable(days[d]))
  }

  lemma {:induction false} UnadjustableBars(days: seq<Day>, x: real, y: real)
    requires forall d :: 0 <= d < |days| ==> !Adjustable(days[d])
    ensures QfqBars(days, x) == QfqBars(days, y)
  {
    forall d | 0 <= d < |days| ensures QfqDay(days[d], x) == QfqDay(days[d], y) {
      assert !Adjustable(days[d]);
    }
  }

  /** The scale that day `n` of a harmless run applies, from the facts alone. */
  ghost function FactScale(days: seq<Day>, ran: seq<bool>, n: nat): Option<real>
    requires n < |days| == |ran|
  {
    var previous := LatestAdj(days, n);
    if ran[n] && previous.Some? && (exists d :: 0 <= d < n && Valued(days[d])) && Fires(days, n, previous.value)
    then Some(previous.value / days[n].adj.value)
    else None
  }

  lemma {:induction false} HarmlessScale(days: seq<Day>, ran: seq<bool>, m: nat, n: nat)
    requires m <= n < |days| == |ran| && PositiveFacts(days)
    requires forall i :: m <= i < n ==> Harmless(days, ran, i)
    ensures DayScale(days, ran, m, n) == FactScale(days, ran, n)
  {
    RunStaysOnLatestBasis(days, ran, m, n);
    ScaleShows(DailyTable(days, ran, m, n), days, DailyBases(days, n), n);
    DailyReference(days, n, n);
  }

  /** On a harmless, referenced day that scale takes every column of an earlier row to the new factor. */
  lemma {:induction false} ScaleKeepsColumn(c: FactorColumn, days: seq<Day>, ran: seq<bool>, n: nat, d: nat,
                                            root: real -> real)
    requires n < |days| == |ran| && d < n && PositiveFacts(days) && IsRoot(root)
    requires Harmless(days, ran, n) && Referenced(days, n)
    ensures var scale, stored := FactScale(days, ran, n), Computed(c, days, d, n, root);
            Computed(c, days, d, n + 1, root) == Scaled(c, stored, scale)
  {
    var current, previous := days[n].adj, LatestAdj(days, n);
    LatestAdjFacts(days, n);
    if current.Some? && previous.None? {
      UnadjustableBars(days[..d + 1], 0.0, current.value);
    } else if current.Some? && current != previous {
      if FactScale(days, ran, n).Some? {
        RebaseRecompute.RebaseEqualsRecompute(c, days[..d + 1], previous.value, current.value, root);
      } else {
        UnadjustableBars(days[..d + 1], previous.value, current.value);
      }
    }
  }

  /** What the columns need of days `m` to `n`. */
  ghost predicate Safe(days: seq<Day>, ran: seq<bool>, m: nat, n: nat)
    requires m <= n <= |days| == |ran|
  {
    forall i :: m <= i < n ==> Harmless(days, ran, i) && Referenced(days, i)
  }

  lemma {:induction false} SafeStep(c: FactorColumn, days: seq<Day>, ran: seq<bool>, m: nat, n: nat, d: nat,
                                    root: real -> real)
    requires m <= n < |days| == |ran| && d < n && PositiveFacts(days) && IsRoot(root) && Safe(days, ran, m, n + 1)
    ensures Computed(c, days, d, n + 1, root) == Scaled(c, Computed(c, days, d, n, root), DayScale(days, ran, m, n))
  {
    assert Harmless(days, ran, n) && Referenced(days, n);
    HarmlessScale(days, ran, m, n);
    ScaleKeepsColumn(c, days, ran, n, d, root);
  }

  /** After a bulk load and any run of harmless, referenced days every locally computed column of every
      stored row is what a full recompute on the latest factor would store. */
  lemma {:induction false} ColumnsStayOnLatestBasis(c: FactorColumn, days: seq<Day>, ran: seq<bool>, m: nat, n: nat,
                                                    d: nat, root: real -> real)
    requires m <= n <= |days| == |ran| && d < n && PositiveFacts(days) && IsRoot(root) && Safe(days, ran, m, n)
    ensures StoredColumn(c, days, ran, m, n, d, root) == Computed(c, days, d, n, root)
  {
    var row, scales := AssemblyOf(c, days, root), DayScales(days, ran, m);
    forall i: nat | m <= i < n && d < i ensures row(d, i + 1) == Scaled(c, row(d, i), scales[i]) {
      SafeStep(c, days, ran, m, i, d, root);
    }
    ColumnFollows(c, row, scales, m, n, d);
  }

  // ---- the side condition is needed

  lemma {:induction false} NoReferenceNoScale(days: seq<Day>, ran: seq<bool>, m: nat, n: nat)
    requires m <= n < |days| == |ran| && PositiveFacts(days)
    requires forall e :: 0 <= e < n ==> !Valued(days[e])
    ensures DayScale(days, ran, m, n) == None
  {
    var table, bases := DailyTable(days, ran, m, n), DailyAfter(days, ran, m, n);
    DailyShows(days, ran, m, n);
    forall e | 0 <= e < n ensures table[e].None? { assert SlotShows(table[e], days[e], bases[e]); }
  }

  lemma {:induction false} UnscaledColumn(c: FactorColumn, row: Assembly, scales: seq<Option<real>>, m: nat, n: nat,
                                          d: nat)
    requires m <= d < n <= |scales|
    requires forall i :: d < i < n ==> scales[i] == None
    ensures RunColumn(c, row, scales, m, n)[d] == row(d, d + 1)
  {
    if d + 1 < n { UnscaledColumn(c, row, scales, m, n - 1, d); }
  }

  lemma {:induction false} UnreferencedColumn(days: seq<Day>, ran: seq<bool>, m: nat, n: nat, d: nat,
                                              root: real -> real)
    requires m <= d < n <= |days| == |ran| && PositiveFacts(days)
    requires forall e :: 0 <= e < n - 1 ==> !Valued(days[e])
    ensures StoredColumn(HighQfq, days, ran, m, n, d, root) == Computed(HighQfq, days, d, d + 1, root)
  {
    forall i | d < i < n ensures DayScales(days, ran, m)[i] == None { NoReferenceNoScale(days, ran, m, i); }
    UnscaledColumn(HighQfq, AssemblyOf(HighQfq, days, root), DayScales(days, ran, m), m, n, d);
  }

  /** Without a stored close to derive a scale from, a row that has a high keeps it on its own factor:
      it is what a recompute would give exactly when that is still the latest one. */
  lemma {:induction false} UnreferencedRowStaysBehind(days: seq<Day>, ran: seq<bool>, m: nat, n: nat, d: nat,
                                                      root: real -> real)
    requires m <= d < n <= |days| == |ran| && PositiveFacts(days)
    requires forall e :: 0 <= e < n - 1 ==> !Valued(days[e])
    requires days[d].adj.Some? && days[d].high.Some? && days[d].high.value > 0.0
    ensures StoredColumn(HighQfq, days, ran, m, n, d, root) == Computed(HighQfq, days, d, n, root) <==>
            LatestAdj(days, n) == days[d].adj
  {
    UnreferencedColumn(days, ran, m, n, d, root);
    LatestAdjFacts(days, n);
    var latest := LatestAdj(days, n);
    assert latest.Some?;
    assert Computed(HighQfq, days, d, n, root) == Qfq(days[d].high, days[d].adj, latest.value);
    assert Computed(HighQfq, days, d, d + 1, root) == Qfq(days[d].high, days[d].adj, days[d].adj.value);
    BasesDiffer(days[d].(close := days[d].high), days[d].adj.value, latest.value);
  }

  // ---- witnesses

  const TWO_DAYS := [ClosedAtTen(0, 1.0), ClosedAtTen(1, 2.0)]

  const MISSED := [Assemble(0, 1), Assemble(1, 2)]

  lemma {:induction false} OneMoreEvent(table: seq<Option<real>>, days: seq<Day>, events: seq<Event>, e: Event)
    requires |table| == |days| && AllPossible(days, events) && Possible(days, e)
    ensures AllPossible(days, events + [e])
    ensures After(table, days, events + [e]) == Apply(After(table, days, events), days, e)
  {
    assert (events + [e])[..|events|] == events;
  }

  lemma {:induction false} BasesAppended(bases: Bases, days: seq<Day>, events: seq<Event>, e: Event)
    requires |bases| == |days| && AllPossible(days, events) && Possible(days, e)
    ensures AllPossible(days, events + [e])
    ensures BasesAfter(bases, days, events + [e]) == ApplyBases(BasesAfter(bases, days, events), days, e)
  {
    assert (events + [e])[..|events|] == events;
  }

  lemma {:induction false} TwoAssembled(table: seq<Option<real>>, days: seq<Day>, a: Event, b: Event)
    requires |table| == |days| && a.Assemble? && b.Assemble? && Possible(days, a) && Possible(days, b)
    ensures AllPossible(days, [a]) && AllPossible(days, [a, b])
    ensures After(table, days, [a, b]) == Apply(Apply(table, days, a), days, b)
    ensures BasesAfter(table, days, [a, b]) == ApplyBases(ApplyBases(table, days, a), days, b)
  {
    OneMoreEvent(table, days, [], a);
    BasesAppended(table, days, [], a);
    assert [] + [a] == [a];
    OneMoreEvent(table, days, [a], b);
    BasesAppended(table, days, [a], b);
    assert [a] + [b] == [a, b];
  }

  /** The ex-date of the second day is missed: the closes are on two bases. */
  lemma {:induction false} MissedExDate(latest: real)
    requires latest > 0.0
    ensures AllPossible(TWO_DAYS, MISSED) && After([None, None], TWO_DAYS, MISSED) == [Some(10.0), Some(10.0)]
    ensures !StoredOn([Some(10.0), Some(10.0)], TWO_DAYS, latest)
  {
    var days := TWO_DAYS;
    TwoAssembled([None, None], days, MISSED[0], MISSED[1]);
    assert LatestAdj(days, 1) == Some(1.0) && LatestAdj(days, 2) == Some(2.0);
    assert Apply([None, None], days, MISSED[0]) == [Some(10.0), None];
    assert Apply([Some(10.0), None], days, MISSED[1]) == [Some(10.0), Some(10.0)];
    BasesDiffer(days[0], 1.0, latest);
    BasesDiffer(days[1], 2.0, latest);
  }

  /** The late rebase of that day repairs it. */
  lemma {:induction false} LateRepair()
    ensures AllPossible(TWO_DAYS, MISSED + [Reanchor(1)])
    ensures After([None, None], TWO_DAYS, MISSED + [Reanchor(1)]) == [Some(5.0), Some(10.0)]
    ensures StoredOn([Some(5.0), Some(10.0)], TWO_DAYS, 2.0)
  {
    var days, table := TWO_DAYS, [Some(10.0), Some(10.0)];
    MissedExDate(1.0);
    OneMoreEvent([None, None], days, MISSED, Reanchor(1));
    assert LatestAdj(days, 1) == Some(1.0) && Reference(table, 1) == Some(0);
    assert DerivedScale(table, days, 1, 2.0) == Some(0.5);
    assert AppliedScale(table, days, 1) == Some(0.5);
    assert table[..1] == [Some(10.0)] && table[1..] == [Some(10.0)];
    assert RebaseRecompute.ScaleOptions([Some(10.0)], 0.5) == [Some(5.0)];
    assert [Some(5.0)] + [Some(10.0)] == [Some(5.0), Some(10.0)];
  }

  /** Once a later ex-date has gone by, the missed one is passed over for good: with factors 1, 2 and 4,
      the second day missed and the third rebased, no events whatever bring the closes together. */
  lemma {:induction false} PassedOverForGood(events: seq<Event>)
    requires AllPossible(THREE_DAYS, events)
    ensures BasesAfter([Some(2.0), Some(4.0), Some(4.0)], THREE_DAYS, events) == [Some(2.0), Some(4.0), Some(4.0)]
  {
    if events != [] {
      PassedOverForGood(events[..|events| - 1]);
      var days, bases := THREE_DAYS, [Some(2.0), Some(4.0), Some(4.0)];
      assert LastBasis(bases, 0) == None && LastBasis(bases, 1) == Some(2.0) && LastBasis(bases, 2) == Some(4.0);
      assert !Fires(days, 1, 2.0) && !Fires(days, 2, 4.0);
    }
  }

  lemma {:induction false} SecondDayMissed()
    ensures AllPossible(THREE_DAYS, MISSED)
    ensures BasesAfter([None, None, None], THREE_DAYS, MISSED) == [Some(1.0), Some(2.0), None]
  {
    var days, none := THREE_DAYS, [None, None, None];
    assert LatestAdj(days, 1) == Some(1.0) && LatestAdj(days, 2) == Some(2.0);
    TwoAssembled(none, days, MISSED[0], MISSED[1]);
    assert ApplyBases(none, days, MISSED[0]) == [Some(1.0), None, None];
  }

  lemma {:induction false} ThirdDayRebased()
    ensures Possible(THREE_DAYS, Reanchor(2)) && Possible(THREE_DAYS, Assemble(2, 3))
    ensures ApplyBases([Some(1.0), Some(2.0), None], THREE_DAYS, Reanchor(2)) == [Some(2.0), Some(4.0), None]
    ensures ApplyBases([Some(2.0), Some(4.0), None], THREE_DAYS, Assemble(2, 3)) == [Some(2.0), Some(4.0), Some(4.0)]
  {
    var days := THREE_DAYS;
    assert LatestAdj(days, 2) == Some(2.0) && LatestAdj(days, 3) == Some(4.0);
    assert LastBasis([Some(1.0), Some(2.0), None], 2) == Some(2.0) && Fires(days, 2, 2.0);
  }

  lemma {:induction false} PassedOverIsReached()
    ensures var events := MISSED + [Reanchor(2)] + [Assemble(2, 3)];
            AllPossible(THREE_DAYS, events) &&
            BasesAfter([None, None, None], THREE_DAYS, events) == [Some(2.0), Some(4.0), Some(4.0)]
  {
    SecondDayMissed();
    ThirdDayRebased();
    BasesAppended([None, None, None], THREE_DAYS, MISSED, Reanchor(2));
    BasesAppended([None, None, None], THREE_DAYS, MISSED + [Reanchor(2)], Assemble(2, 3));
  }

  /** So from an empty table, once those events have happened, the closes are on no single basis after
      any further ones. */
  lemma {:induction false} PassedOverStaysApart(events: seq<Event>, latest: real)
    requires AllPossible(THREE_DAYS, events) && latest > 0.0
    ensures var first := MISSED + [Reanchor(2)] + [Assemble(2, 3)];
            AllPossible(THREE_DAYS, first) &&
            !StoredOn(After(After([None, None, None], THREE_DAYS, first), THREE_DAYS, events), THREE_DAYS, latest)
  {
    var days, none, first := THREE_DAYS, [None, None, None], MISSED + [Reanchor(2)] + [Assemble(2, 3)];
    PassedOverIsReached();
    PassedOverForGood(events);
    assert Shows(none, days, none);
    RunShows(none, days, none, first);
    var table := After(none, days, first);
    RunShows(table, days, BasesAfter(none, days, first), events);
    ApartOnNoBasis(After(table, days, events), days, [Some(2.0), Some(4.0), Some(4.0)], 0, 1, latest);
  }
}
