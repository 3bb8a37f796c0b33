/** What a pass of the local fallback does to the factor table: its rows depend only on the prefix
    up to their date and not on the requested window, it never changes a stored number, and a
    second pass over the same series finds nothing left to do. */
module LocalFill {
  import opened TechnicalCore

  lemma {:induction false} EmittedFrom(series: seq<Bar>, stored: map<int, Stored>, startDate: int, endDate: int,
                                       root: real -> real, e: Emission) returns (i: nat)
    requires e in Emitted(series, stored, startDate, endDate, root)
    ensures i < |series| && EmittedAt(series, i, stored, startDate, endDate, root, e)
  {
    var n := |series| - 1;
    if e in Emitted(series[..n], stored, startDate, endDate, root) {
      i := EmittedFrom(series[..n], stored, startDate, endDate, root, e);
      SamePrefix(series, i, stored, startDate, endDate, root, e);
    } else {
      i := n;
      LastBar(series, stored, startDate, endDate, root, e);
    }
  }

  lemma {:induction false} EmittedInto(series: seq<Bar>, i: nat, stored: map<int, Stored>, startDate: int, endDate: int,
                                       root: real -> real, e: Emission)
    requires i < |series| && EmittedAt(series, i, stored, startDate, endDate, root, e)
    ensures e in Emitted(series, stored, startDate, endDate, root)
  {
    if i + 1 < |series| {
      SamePrefix(series, i, stored, startDate, endDate, root, e);
      EmittedInto(series[..|series| - 1], i, stored, startDate, endDate, root, e);
    } else {
      LastBar(series, stored, startDate, endDate, root, e);
    }
  }

  /** Exactly the eligible bars are emitted, each with the indicators of its own prefix. */
  lemma {:induction false} EmittedExactly(series: seq<Bar>, stored: map<int, Stored>, startDate: int, endDate: int,
                                          root: real -> real, e: Emission)
    ensures e in Emitted(series, stored, startDate, endDate, root) <==>
            exists i :: 0 <= i < |series| && EmittedAt(series, i, stored, startDate, endDate, root, e)
  {
    if e in Emitted(series, stored, startDate, endDate, root) {
      var i := EmittedFrom(series, stored, startDate, endDate, root, e);
    }
    if i :| 0 <= i < |series| && EmittedAt(series, i, stored, startDate, endDate, root, e) {
      EmittedInto(series, i, stored, startDate, endDate, root, e);
    }
  }

  lemma {:induction false} LastBar(series: seq<Bar>, stored: map<int, Stored>, startDate: int, endDate: int,
                                   root: real -> real, e: Emission)
    requires series != []
    ensures EmittedAt(series, |series| - 1, stored, startDate, endDate, root, e) <==>
            e in EmittedRow(series, stored, startDate, endDate, root)
  {
    assert series[..|series|] == series;
  }

  lemma {:induction false} SamePrefix(series: seq<Bar>, i: nat, stored: map<int, Stored>, startDate: int, endDate: int,
                                      root: real -> real, e: Emission)
    requires i + 1 < |series|
    ensures var front := series[..|series| - 1];
            EmittedAt(series, i, stored, startDate, endDate, root, e) <==>
              EmittedAt(front, i, stored, startDate, endDate, root, e)
  {
    assert series[..i + 1] == series[..|series| - 1][..i + 1];
  }

  /** Bar `i` is eligible and `e` carries the indicators of the prefix that ends with it. */
  ghost predicate EmittedAt(series: seq<Bar>, i: nat, stored: map<int, Stored>, startDate: int, endDate: int,
                            root: real -> real, e: Emission)
    requires i < |series|
  {
    e.date == series[i].date && Eligible(stored, e.date, startDate, endDate) && e.values == Core(series[..i + 1], root)
  }

  /** The row of a date is the same for every requested window that contains the date. */
  lemma {:induction false} WindowIndependence(series: seq<Bar>, stored: map<int, Stored>, s1: int, e1: int, s2: int,
                                              e2: int, root: real -> real, e: Emission)
    requires s1 <= e.date <= e1 && s2 <= e.date <= e2
    ensures e in Emitted(series, stored, s1, e1, root) <==> e in Emitted(series, stored, s2, e2, root)
  {
    EmittedExactly(series, stored, s1, e1, root, e);
    EmittedExactly(series, stored, s2, e2, root, e);
    assert forall i :: 0 <= i < |series| ==>
      (EmittedAt(series, i, stored, s1, e1, root, e) <==> EmittedAt(series, i, stored, s2, e2, root, e));
  }

  /** Later bars only append rows: no emitted row looks ahead. */
  lemma {:induction false} NoLookAhead(series: seq<Bar>, future: seq<Bar>, stored: map<int, Stored>,
                                       startDate: int, endDate: int, root: real -> real)
    ensures Emitted(series, stored, startDate, endDate, root) <=
            Emitted(series + future, stored, startDate, endDate, root)
  {
    if future == [] {
      assert series + future == series;
    } else {
      var n := |future| - 1;
      NoLookAhead(series, future[..n], stored, startDate, endDate, root);
      assert (series + future)[..|series| + n] == series + future[..n];
    }
  }

  ghost predicate Touched(rows: seq<Emission>, date: int)
  {
    exists i :: 0 <= i < |rows| && rows[i].date == date
  }

  /** Ready, with every core column present. */
  ghost predicate Complete(row: Stored)
  {
    row.coreReady && CORE_COLUMNS <= row.values.Keys
  }

  lemma {:induction false} UpsertKeys(stored: map<int, Stored>, rows: seq<Emission>)
    requires forall i :: 0 <= i < |rows| ==> rows[i].date in stored
    ensures Upserted(stored, rows).Keys == stored.Keys
  {
    if rows != [] { UpsertKeys(stored, rows[..|rows| - 1]); }
  }

  lemma {:induction false} UpsertEffect(stored: map<int, Stored>, rows: seq<Emission>, date: int)
    requires forall i :: 0 <= i < |rows| ==> rows[i].date in stored && CORE_COLUMNS <= rows[i].values.Keys
    requires date in stored
    ensures var after := Upserted(stored, rows);
            && after.Keys == stored.Keys
            && (!Touched(rows, date) ==> after[date] == stored[date])
            && (Touched(rows, date) ==> Complete(after[date]))
            && (forall c :: c in stored[date].values ==>
                c in after[date].values && after[date].values[c] == stored[date].values[c])
  {
    if rows != [] {
      var n := |rows| - 1;
      UpsertKeys(stored, rows[..n]);
      UpsertEffect(stored, rows[..n], date);
      assert forall i :: 0 <= i < n ==> rows[i] == rows[..n][i];
      assert Touched(rows, date) <==> Touched(rows[..n], date) || rows[n].date == date;
    }
  }

  lemma {:induction false} EmittedEligible(series: seq<Bar>, stored: map<int, Stored>, startDate: int, endDate: int,
                                           root: real -> real)
    ensures forall e :: e in Emitted(series, stored, startDate, endDate, root) ==>
              Eligible(stored, e.date, startDate, endDate) && e.values.Keys == CORE_COLUMNS
  {
    if series != [] { EmittedEligible(series[..|series| - 1], stored, startDate, endDate, root); }
  }

  lemma {:induction false} TouchedFront(front: seq<Emission>, more: seq<Emission>, date: int)
    ensures Touched(front, date) ==> Touched(front + more, date)
    ensures Touched(more, date) ==> Touched(front + more, date)
  {
    if Touched(front, date) {
      var j :| 0 <= j < |front| && front[j].date == date;
      assert (front + more)[j] == front[j];
    }
    if Touched(more, date) {
      var j :| 0 <= j < |more| && more[j].date == date;
      assert (front + more)[|front| + j] == more[j];
    }
  }

  lemma {:induction false} LastTouched(series: seq<Bar>, stored: map<int, Stored>, startDate: int, endDate: int,
                                       root: real -> real)
    requires series != [] && Eligible(stored, series[|series| - 1].date, startDate, endDate)
    ensures Touched(EmittedRow(series, stored, startDate, endDate, root), series[|series| - 1].date)
  {
    assert EmittedRow(series, stored, startDate, endDate, root)[0].date == series[|series| - 1].date;
  }

  lemma {:induction false} EligibleTouched(series: seq<Bar>, stored: map<int, Stored>, startDate: int, endDate: int,
                                           root: real -> real, i: nat)
    requires i < |series| && Eligible(stored, series[i].date, startDate, endDate)
    ensures Touched(Emitted(series, stored, startDate, endDate, root), series[i].date)
  {
    var n := |series| - 1;
    var front := Emitted(series[..n], stored, startDate, endDate, root);
    var row := EmittedRow(series, stored, startDate, endDate, root);
    assert Emitted(series, stored, startDate, endDate, root) == front + row;
    if i < n {
      EligibleTouched(series[..n], stored, startDate, endDate, root, i);
    } else {
      LastTouched(series, stored, startDate, endDate, root);
    }
    TouchedFront(front, row, series[i].date);
  }

  lemma {:induction false} EmittedRows(series: seq<Bar>, stored: map<int, Stored>, startDate: int, endDate: int,
                                       root: real -> real)
    ensures forall e :: e in Emitted(series, stored, startDate, endDate, root) ==>
              Eligible(stored, e.date, startDate, endDate) && e.values.Keys == CORE_COLUMNS
    ensures forall i :: 0 <= i < |series| && Eligible(stored, series[i].date, startDate, endDate) ==>
              Touched(Emitted(series, stored, startDate, endDate, root), series[i].date)
  {
    EmittedEligible(series, stored, startDate, endDate, root);
    forall i | 0 <= i < |series| && Eligible(stored, series[i].date, startDate, endDate)
      ensures Touched(Emitted(series, stored, startDate, endDate, root), series[i].date)
    {
      EligibleTouched(series, stored, startDate, endDate, root, i);
    }
  }

  lemma {:induction false} NoneEligible(series: seq<Bar>, stored: map<int, Stored>, startDate: int, endDate: int,
                                        root: real -> real)
    requires forall i :: 0 <= i < |series| ==> !Eligible(stored, series[i].date, startDate, endDate)
    ensures Emitted(series, stored, startDate, endDate, root) == []
  {
    if series != [] { NoneEligible(series[..|series| - 1], stored, startDate, endDate, root); }
  }

  /** What one pass does to a stored row. */
  lemma {:induction false} FilledRow(series: seq<Bar>, stored: map<int, Stored>, startDate: int, endDate: int,
                                     root: real -> real, date: int)
    requires date in stored
    ensures var rows := Emitted(series, stored, startDate, endDate, root); var after := Upserted(stored, rows);
            && date in after
            && (forall c :: c in stored[date].values ==>
                c in after[date].values && after[date].values[c] == stored[date].values[c])
            && (Touched(rows, date) ==> Complete(after[date]))
            && (!Eligible(stored, date, startDate, endDate) ==> after[date] == stored[date])
  {
    var rows := Emitted(series, stored, startDate, endDate, root);
    EmittedRows(series, stored, startDate, endDate, root);
    UpsertEffect(stored, rows, date);
  }

  lemma {:induction false} NothingLeft(series: seq<Bar>, stored: map<int, Stored>, startDate: int, endDate: int,
                                       root: real -> real)
    ensures var after := Upserted(stored, Emitted(series, stored, startDate, endDate, root));
            forall i :: 0 <= i < |series| ==> !Eligible(after, series[i].date, startDate, endDate)
  {
    var rows := Emitted(series, stored, startDate, endDate, root);
    var after := Upserted(stored, rows);
    EmittedRows(series, stored, startDate, endDate, root);
    UpsertKeys(stored, rows);
    forall i | 0 <= i < |series| ensures !Eligible(after, series[i].date, startDate, endDate) {
      if series[i].date in stored { FilledRow(series, stored, startDate, endDate, root, series[i].date); }
    }
  }

  /** One pass keeps every stored number, readies every eligible row, leaves every other row alone,
      and a second pass over the same series emits nothing. */
  lemma {:induction false} FillReachesFixpoint(series: seq<Bar>, stored: map<int, Stored>, startDate: int, endDate: int,
                                               root: real -> real)
    ensures var after := Upserted(stored, Emitted(series, stored, startDate, endDate, root));
            && after.Keys == stored.Keys
            && (forall d, c :: d in stored && c in stored[d].values ==>
                  c in after[d].values && after[d].values[c] == stored[d].values[c])
            && (forall i :: 0 <= i < |series| && Eligible(stored, series[i].date, startDate, endDate) ==>
                  Complete(after[series[i].date]))
            && (forall d :: d in stored && !Eligible(stored, d, startDate, endDate) ==> after[d] == stored[d])
            && Emitted(series, after, startDate, endDate, root) == []
  {
    var rows := Emitted(series, stored, startDate, endDate, root);
    var after := Upserted(stored, rows);
    EmittedRows(series, stored, startDate, endDate, root);
    UpsertKeys(stored, rows);
    forall d | d in stored
      ensures forall c :: c in stored[d].values ==> c in after[d].values && after[d].values[c] == stored[d].values[c]
      ensures Touched(rows, d) ==> Complete(after[d])
      ensures !Eligible(stored, d, startDate, endDate) ==> after[d] == stored[d]
    {
      FilledRow(series, stored, startDate, endDate, root, d);
    }
    NothingLeft(series, stored, startDate, endDate, root);
    NoneEligible(series, after, startDate, endDate, root);
  }

  /** In words: a date gets a row exactly when it lies in the requested range, the table has a row for it
      and that row is not ready or lacks the 14-day RSI; the row holds the indicators of the bars up to
      that date. */
  lemma {:induction false} EmittedInWords(series: seq<Bar>, stored: map<int, Stored>, startDate: int, endDate: int,
                                          root: real -> real, e: Emission)
    ensures e in Emitted(series, stored, startDate, endDate, root) <==>
            (exists i :: 0 <= i < |series| && series[i].date == e.date && e.values == Core(series[..i + 1], root)) &&
            startDate <= e.date <= endDate && e.date in stored &&
            !(stored[e.date].coreReady && Rsi(14) in stored[e.date].values)
  {
    EmittedExactly(series, stored, startDate, endDate, root, e);
    if i :| 0 <= i < |series| && series[i].date == e.date && e.values == Core(series[..i + 1], root) {
      assert Eligible(stored, e.date, startDate, endDate) ==> EmittedAt(series, i, stored, startDate, endDate, root, e);
    }
    if i :| 0 <= i < |series| && EmittedAt(series, i, stored, startDate, endDate, root, e) {
      assert series[i].date == e.date && e.values == Core(series[..i + 1], root);
    }
  }
}
