/** The adjustment basis of the stored closes over any run of events: rows are assembled on the factor
    latest by then, and the rebase of any day may run late, again or never, as the close, repair and
    backfill jobs make it. Each stored close carries a basis that the facts and the events determine. */
module QfqRuns {
  import opened Wrappers
  import opened Windows
  import opened FactorRow
  import opened QfqBasis
  import RebaseRecompute

  // ---- the table

  /** `Assemble(n, known)` stores the row of day `n` while the factors of the first `known` days are
      there; `Reanchor(n)` runs the rebase of day `n`. */
  datatype Event = Assemble(n: nat, known: nat) | Reanchor(n: nat)

  predicate Possible(days: seq<Day>, e: Event)
  {
    e.n < |days| && (e.Assemble? ==> e.n < e.known <= |days|)
  }

  /** NULL as a factor: `nullif(latest, 0)` makes every adjusted price NULL. */
  function Factor(latest: Option<real>): real { if latest.Some? then latest.value else 0.0 }

  /** One slot per day, None where no close is stored. A stored close survives a second assembly. */
  function Apply(table: seq<Option<real>>, days: seq<Day>, e: Event): (t: seq<Option<real>>)
    requires |table| == |days| && Possible(days, e)
    ensures |t| == |days|
  {
    match e
    case Assemble(n, known) =>
      if table[n].Some? then table
      else table[n := Qfq(days[n].close, days[n].adj, Factor(LatestAdj(days, known)))]
    case Reanchor(n) => Rebase(table, days, n).0
  }

  predicate AllPossible(days: seq<Day>, events: seq<Event>)
  {
    forall i :: 0 <= i < |events| ==> Possible(days, events[i])
  }

  function After(table: seq<Option<real>>, days: seq<Day>, events: seq<Event>): (t: seq<Option<real>>)
    requires |table| == |days| && AllPossible(days, events)
    ensures |t| == |days|
  {
    if events == [] then table
    else Apply(After(table, days, events[..|events| - 1]), days, events[|events| - 1])
  }

  // ---- the basis of every stored close, from the facts and the events alone

  predicate Valued(day: Day) { day.close.Some? && day.adj.Some? }

  type Bases = seq<Option<real>>

  /** The basis of the last stored close before day `n`. */
  function LastBasis(bases: Bases, n: nat): (b: Option<real>)
    requires n <= |bases|
  {
    if n == 0 then None else if bases[n - 1].Some? then bases[n - 1] else LastBasis(bases, n - 1)
  }

  /** A firing rebase takes the reference to the factor of the day and every earlier row along. */
  function Moved(bases: Bases, n: nat, reference: real, current: real): (b: Bases)
    requires n <= |bases| && reference != 0.0
    ensures |b| == |bases|
    ensures forall d :: 0 <= d < |b| ==>
              b[d] == if d < n && bases[d].Some? then Some(Times(bases[d].value, current) / reference) else bases[d]
  {
    seq(|bases|, d requires 0 <= d < |bases| =>
      if d < n && bases[d].Some? then Some(Times(bases[d].value, current) / reference) else bases[d])
  }

  function ApplyBases(bases: Bases, days: seq<Day>, e: Event): (b: Bases)
    requires |bases| == |days| && Possible(days, e)
    ensures |b| == |days|
  {
    match e
    case Assemble(n, known) =>
      if bases[n].Some? || !Valued(days[n]) then bases else bases[n := LatestAdj(days, known)]
    case Reanchor(n) =>
      var reference := LastBasis(bases, n);
      if reference.Some? && reference.value != 0.0 && Fires(days, n, reference.value)
      then Moved(bases, n, reference.value, days[n].adj.value)
      else bases
  }

  function BasesAfter(bases: Bases, days: seq<Day>, events: seq<Event>): (b: Bases)
    requires |bases| == |days| && AllPossible(days, events)
    ensures |b| == |days|
  {
    if events == [] then bases
    else ApplyBases(BasesAfter(bases, days, events[..|events| - 1]), days, events[|events| - 1])
  }

  /** Day `d`'s stored close is on the basis given, or none is stored. */
  ghost predicate SlotShows(close: Option<real>, day: Day, basis: Option<real>)
  {
    match basis
    case None => close == None
    case Some(b) => b > 0.0 && Valued(day) && close == Qfq(day.close, day.adj, b)
  }

  ghost predicate Shows(table: seq<Option<real>>, days: seq<Day>, bases: Bases)
  {
    |table| == |days| == |bases| && forall d :: 0 <= d < |days| ==> SlotShows(table[d], days[d], bases[d])
  }

  // ---- the table follows the bases

  lemma {:induction false} ReferenceShows(table: seq<Option<real>>, days: seq<Day>, bases: Bases, n: nat)
    requires Shows(table, days, bases) && n <= |days|
    ensures Reference(table, n).Some? <==> LastBasis(bases, n).Some?
    ensures Reference(table, n).Some? ==> bases[Reference(table, n).value] == LastBasis(bases, n)
    ensures LastBasis(bases, n).Some? ==> LastBasis(bases, n).value > 0.0
  {
    if n > 0 {
      assert SlotShows(table[n - 1], days[n - 1], bases[n - 1]);
      ReferenceShows(table, days, bases, n - 1);
    }
  }

  /** The scale the rebase derives is the ratio of the reference's basis to the factor of the day. */
  lemma {:induction false} ScaleShows(table: seq<Option<real>>, days: seq<Day>, bases: Bases, n: nat)
    requires Shows(table, days, bases) && PositiveFacts(days) && n < |days|
    ensures var b := LastBasis(bases, n);
            AppliedScale(table, days, n) ==
            if b.Some? && Fires(days, n, b.value) then Some(b.value / days[n].adj.value) else None
  {
    ReferenceShows(table, days, bases, n);
    if days[n].adj.Some? && Reference(table, n).Some? {
      var r := Reference(table, n).value;
      assert SlotShows(table[r], days[r], bases[r]);
      ScaleOrder(0.0, days[r].close.value, days[r].adj.value);
      ScaleOfQuotients(Times(days[r].close.value, days[r].adj.value), bases[r].value, days[n].adj.value);
    }
  }

  lemma {:induction false} MovedBasis(b: real, reference: real, current: real)
    requires b > 0.0 && reference > 0.0 && current > 0.0
    ensures Times(b, current) / reference > 0.0
    ensures b / (Times(b, current) / reference) == reference / current
  {
    var m := Times(b, current) / reference;
    assert m * reference == b * current;
    ScaleOrder(0.0, b, current);
    ScaleOrder(0.0, m, reference);
    var q := reference / current;
    assert q * current == reference;
    assert (q * m) * current == b * current;
    ScaleOrder(q * m, b, current);
    DivUnique(b, m, q);
  }

  lemma {:induction false} SlotMoves(close: Option<real>, day: Day, b: real, reference: real, current: real)
    requires SlotShows(close, day, Some(b)) && reference > 0.0 && current > 0.0
    ensures SlotShows(ScaleOption(close, reference / current), day, Some(Times(b, current) / reference))
  {
    MovedBasis(b, reference, current);
    RebaseRecompute.QfqRebases(day.close, day.adj, b, Times(b, current) / reference);
  }

  lemma {:induction false} ReanchorShows(table: seq<Option<real>>, days: seq<Day>, bases: Bases, n: nat)
    requires Shows(table, days, bases) && PositiveFacts(days) && n < |days|
    ensures Shows(Apply(table, days, Reanchor(n)), days, ApplyBases(bases, days, Reanchor(n)))
  {
    ReferenceShows(table, days, bases, n);
    ScaleShows(table, days, bases, n);
    var b := LastBasis(bases, n);
    if b.Some? && Fires(days, n, b.value) {
      var current := days[n].adj.value;
      var scale := b.value / current;
      var after, moved := Apply(table, days, Reanchor(n)), ApplyBases(bases, days, Reanchor(n));
      forall d | 0 <= d < |days| ensures SlotShows(after[d], days[d], moved[d]) {
        assert SlotShows(table[d], days[d], bases[d]);
        if d < n {
          assert after[d] == ScaleOption(table[d], scale);
          if bases[d].Some? { SlotMoves(table[d], days[d], bases[d].value, b.value, current); }
        }
      }
    }
  }

  lemma {:induction false} AssembleShows(table: seq<Option<real>>, days: seq<Day>, bases: Bases, e: Event)
    requires Shows(table, days, bases) && PositiveFacts(days) && e.Assemble? && Possible(days, e)
    ensures Shows(Apply(table, days, e), days, ApplyBases(bases, days, e))
  {
    LatestAdjFacts(days, e.known);
    assert SlotShows(table[e.n], days[e.n], bases[e.n]);
    var after, bases' := Apply(table, days, e), ApplyBases(bases, days, e);
    if bases[e.n].None? && Valued(days[e.n]) { assert LatestAdj(days, e.known).Some?; }
    forall d | 0 <= d < |days| ensures SlotShows(after[d], days[d], bases'[d]) {
      assert SlotShows(table[d], days[d], bases[d]);
    }
  }

  /** After any events every stored close is on the basis that the facts and the events give it. */
  lemma {:induction false} RunShows(table: seq<Option<real>>, days: seq<Day>, bases: Bases, events: seq<Event>)
    requires Shows(table, days, bases) && PositiveFacts(days) && AllPossible(days, events)
    ensures Shows(After(table, days, events), days, BasesAfter(bases, days, events))
  {
    if events != [] {
      var front, last := events[..|events| - 1], events[|events| - 1];
      RunShows(table, days, bases, front);
      if last.Reanchor? {
        ReanchorShows(After(table, days, front), days, BasesAfter(bases, days, front), last.n);
      } else {
        AssembleShows(After(table, days, front), days, BasesAfter(bases, days, front), last);
      }
    }
  }

  // ---- one basis for all

  /** Every stored close is `close * adj / latest`. */
  ghost predicate StoredOn(table: seq<Option<real>>, days: seq<Day>, latest: real)
  {
    |table| == |days| &&
    forall d :: 0 <= d < |days| && table[d].Some? ==> table[d] == Qfq(days[d].close, days[d].adj, latest)
  }

  ghost predicate AllOn(bases: Bases, latest: real)
  {
    forall d :: 0 <= d < |bases| && bases[d].Some? ==> bases[d].value == latest
  }

  lemma {:induction false} StoredOnExactly(table: seq<Option<real>>, days: seq<Day>, bases: Bases, latest: real)
    requires Shows(table, days, bases) && PositiveFacts(days) && latest > 0.0
    ensures StoredOn(table, days, latest) <==> AllOn(bases, latest)
  {
    forall d | 0 <= d < |days| && bases[d].Some?
      ensures table[d].Some? && (table[d] == Qfq(days[d].close, days[d].adj, latest) <==> bases[d].value == latest)
    {
      assert SlotShows(table[d], days[d], bases[d]);
      BasesDiffer(days[d], bases[d].value, latest);
    }
    forall d | 0 <= d < |days| && table[d].Some? ensures bases[d].Some? {
      assert SlotShows(table[d], days[d], bases[d]);
    }
  }

  /** A bulk load, or anything else that leaves the stored closes on one basis, is a start. */
  function OneBasis(table: seq<Option<real>>, latest: real): (b: Bases)
    ensures |b| == |table| && forall d :: 0 <= d < |b| ==> b[d] == if table[d].Some? then Some(latest) else None
  {
    seq(|table|, d requires 0 <= d < |table| => if table[d].Some? then Some(latest) else None)
  }

  lemma {:induction false} OneBasisShows(table: seq<Option<real>>, days: seq<Day>, latest: real)
    requires StoredOn(table, days, latest) && latest > 0.0
    ensures Shows(table, days, OneBasis(table, latest))
  {
  }

  /** From any table on one basis, or an empty one, and after any events, the stored closes are on the
      latest factor exactly when the events give every stored row that basis. */
  lemma {:induction false} RunEndsOnLatestBasisExactly(table: seq<Option<real>>, days: seq<Day>, basis: real,
                                                       events: seq<Event>, latest: real)
    requires StoredOn(table, days, basis) && basis > 0.0 && latest > 0.0
    requires PositiveFacts(days) && AllPossible(days, events)
    ensures StoredOn(After(table, days, events), days, latest) <==>
            AllOn(BasesAfter(OneBasis(table, basis), days, events), latest)
  {
    OneBasisShows(table, days, basis);
    RunShows(table, days, OneBasis(table, basis), events);
    StoredOnExactly(After(table, days, events), days, BasesAfter(OneBasis(table, basis), days, events), latest);
  }

  // ---- late rebases

  lemma {:induction false} LastBasisOf(bases: Bases, n: nat, early: real)
    requires n <= |bases| && forall d :: 0 <= d < n && bases[d].Some? ==> bases[d].value == early
    ensures LastBasis(bases, n).Some? ==> LastBasis(bases, n).value == early
    ensures LastBasis(bases, n).Some? <==> exists d :: 0 <= d < n && bases[d].Some?
  {
    if n > 0 { LastBasisOf(bases, n - 1, early); }
  }

  /** When a late rebase repairs a missed ex-date: with the rows before day `n` on one basis and those
      from it on another, the closes end on the later basis exactly when the rebase fires against the
      earlier one and that later basis is the factor of day `n` itself. */
  lemma {:induction false} LateRebaseRepairsExactly(table: seq<Option<real>>, days: seq<Day>, bases: Bases, n: nat,
                                                    early: real, late: real, d: nat)
    requires Shows(table, days, bases) && PositiveFacts(days) && d < n < |days| && late > 0.0
    requires early != late && bases[d] == Some(early)
    requires forall i :: 0 <= i < n && bases[i].Some? ==> bases[i].value == early
    requires forall i :: n <= i < |days| && bases[i].Some? ==> bases[i].value == late
    ensures StoredOn(Apply(table, days, Reanchor(n)), days, late) <==>
            Fires(days, n, early) && days[n].adj == Some(late)
  {
    LastBasisOf(bases, n, early);
    assert SlotShows(table[d], days[d], bases[d]);
    ReanchorShows(table, days, bases, n);
    var after := ApplyBases(bases, days, Reanchor(n));
    StoredOnExactly(Apply(table, days, Reanchor(n)), days, after, late);
    if Fires(days, n, early) {
      var current := days[n].adj.value;
      assert Times(early, current) / early == current by { DivUnique(Times(early, current), early, current); }
      assert after[d] == Some(current);
    } else {
      assert after[d] == Some(early);
    }
  }

  /** The rebase of day `n` brings two rows on different bases together exactly when it lies between
      them, fires, and scales the earlier row just so. */
  predicate Joins(bases: Bases, days: seq<Day>, n: nat, d: nat, e: nat)
    requires d < e < |bases| == |days| && n < |days| && bases[d].Some? && bases[e].Some?
  {
    d < n <= e && LastBasis(bases, n).Some? && LastBasis(bases, n).value != 0.0 &&
    Fires(days, n, LastBasis(bases, n).value) &&
    Times(bases[d].value, days[n].adj.value) / LastBasis(bases, n).value == bases[e].value
  }

  lemma {:induction false} CommonScaleKeepsApart(x: real, y: real, current: real, reference: real)
    requires current != 0.0 && reference != 0.0 && x != y
    ensures Times(x, current) / reference != Times(y, current) / reference
  {
    assert (Times(x, current) / reference) * reference == x * current;
    assert (Times(y, current) / reference) * reference == y * current;
    assert (x - y) * current != 0.0;
  }

  lemma {:induction false} StepKeepsApartExactly(bases: Bases, days: seq<Day>, event: Event, d: nat, e: nat)
    requires |bases| == |days| && Possible(days, event) && d < e < |days|
    requires bases[d].Some? && bases[e].Some? && bases[d] != bases[e]
    ensures var after := ApplyBases(bases, days, event);
            after[d].Some? && after[e].Some? &&
            (after[d] == after[e] <==> event.Reanchor? && Joins(bases, days, event.n, d, e))
  {
    if event.Reanchor? && e < event.n {
      var reference := LastBasis(bases, event.n);
      if reference.Some? && reference.value != 0.0 && Fires(days, event.n, reference.value) {
        CommonScaleKeepsApart(bases[d].value, bases[e].value, days[event.n].adj.value, reference.value);
      }
    }
  }

  /** The event joins the two rows when its turn comes. */
  predicate JoinsAt(bases: Bases, days: seq<Day>, events: seq<Event>, i: nat, d: nat, e: nat)
    requires |bases| == |days| && AllPossible(days, events) && i < |events| && d < e < |days|
  {
    var before := BasesAfter(bases, days, events[..i]);
    events[i].Reanchor? && before[d].Some? && before[e].Some? && Joins(before, days, events[i].n, d, e)
  }

  /** The step that joins two rows on different bases is the one after which they are on the same. */
  lemma {:induction false} JoinsAtExactly(bases: Bases, days: seq<Day>, events: seq<Event>, i: nat, d: nat, e: nat)
    requires |bases| == |days| && AllPossible(days, events) && i < |events| && d < e < |days|
    requires BasesAfter(bases, days, events[..i])[d].Some? && BasesAfter(bases, days, events[..i])[e].Some?
    requires BasesAfter(bases, days, events[..i])[d] != BasesAfter(bases, days, events[..i])[e]
    ensures AllPossible(days, events[..i + 1])
    ensures JoinsAt(bases, days, events, i, d, e) <==>
            BasesAfter(bases, days, events[..i + 1])[d] == BasesAfter(bases, days, events[..i + 1])[e]
  {
    assert events[..i + 1][..i] == events[..i];
    StepKeepsApartExactly(BasesAfter(bases, days, events[..i]), days, events[i], d, e);
  }

  /** Two rows on different bases stay apart through any events of which none joins them; in particular
      when no rebase of a day between them ever runs. */
  lemma {:induction false} ApartUnlessJoined(bases: Bases, days: seq<Day>, events: seq<Event>, d: nat, e: nat)
    requires |bases| == |days| && AllPossible(days, events) && d < e < |days|
    requires bases[d].Some? && bases[e].Some? && bases[d] != bases[e]
    requires forall i :: 0 <= i < |events| ==> !JoinsAt(bases, days, events, i, d, e)
    ensures var after := BasesAfter(bases, days, events);
            after[d].Some? && after[e].Some? && after[d] != after[e]
  {
    if events != [] {
      var n := |events| - 1;
      var front := events[..n];
      forall i | 0 <= i < n ensures !JoinsAt(bases, days, front, i, d, e) {
        assert front[..i] == events[..i] && !JoinsAt(bases, days, events, i, d, e);
      }
      ApartUnlessJoined(bases, days, front, d, e);
      assert !JoinsAt(bases, days, events, n, d, e);
      StepKeepsApartExactly(BasesAfter(bases, days, front), days, events[n], d, e);
    }
  }

  lemma {:induction false} ApartOnNoBasis(table: seq<Option<real>>, days: seq<Day>, bases: Bases, d: nat, e: nat,
                                          latest: real)
    requires Shows(table, days, bases) && PositiveFacts(days) && d < |days| && e < |days| && latest > 0.0
    requires bases[d].Some? && bases[e].Some? && bases[d] != bases[e]
    ensures !StoredOn(table, days, latest)
  {
    StoredOnExactly(table, days, bases, latest);
  }

  /** A missed ex-date is permanent as long as no later event joins the rows on its two sides: the
      stored closes are then on no single basis after all of them. */
  lemma {:induction false} MissedExDateIsPermanent(table: seq<Option<real>>, days: seq<Day>, bases: Bases,
                                                   events: seq<Event>, d: nat, e: nat, latest: real)
    requires Shows(table, days, bases) && PositiveFacts(days) && AllPossible(days, events) && d < e < |days|
    requires bases[d].Some? && bases[e].Some? && bases[d] != bases[e] && latest > 0.0
    requires forall i :: 0 <= i < |events| ==> !JoinsAt(bases, days, events, i, d, e)
    ensures !StoredOn(After(table, days, events), days, latest)
  {
    RunShows(table, days, bases, events);
    ApartUnlessJoined(bases, days, events, d, e);
    ApartOnNoBasis(After(table, days, events), days, BasesAfter(bases, days, events), d, e, latest);
  }
}
