/** The exclusive lease on Redis. Acquiring is three separate atomic operations (SET NX, GET and a
    compare-and-expire script) that interleave with those of other owners, with expiry and with lost
    replies; releasing is a compare-and-delete script. */
module RedisLease {
  import opened Wrappers

  type Owner = string

  datatype Lease = Lease(owner: Owner, expiresAt: real)

  /** Where an owner is inside `acquire_lease`. */
  datatype Phase = Outside | Refused(ttl: int) | Renewing(ttl: int)

  /** `claims[o]` is the expiry of the lease as `o` last set it: its latest `acquire_lease` returned
      True and it has not released since. */
  datatype State = State(now: real, key: Option<Lease>, phases: map<Owner, Phase>, claims: map<Owner, real>)

  /** `replied` is false when the operation runs on the server but the client sees an error;
      `Unreached` is an operation that fails before it reaches the server. */
  datatype Step =
    | Tick(seconds: real)
    | SetNx(owner: Owner, ttl: int, replied: bool)
    | Get(owner: Owner, replied: bool)
    | Renew(owner: Owner, replied: bool)
    | Release(owner: Owner)
    | Unreached(owner: Owner)

  const START := State(0.0, None, map[], map[])

  function PhaseOf(s: State, o: Owner): Phase { if o in s.phases then s.phases[o] else Outside }

  predicate Live(s: State) { s.key.Some? && s.key.value.expiresAt > s.now }

  predicate HeldBy(s: State, o: Owner) { Live(s) && s.key.value.owner == o }

  /** `max(1, ttl_seconds)` from now. */
  function Expiry(s: State, ttl: int): real { s.now + (if ttl < 1 then 1.0 else ttl as real) }

  predicate Enabled(s: State, step: Step)
  {
    match step
    case Tick(seconds) => seconds >= 0.0
    case SetNx(o, _, _) => PhaseOf(s, o).Outside?
    case Get(o, _) => PhaseOf(s, o).Refused?
    case Renew(o, _) => PhaseOf(s, o).Renewing?
    case Release(o) => PhaseOf(s, o).Outside?
    case Unreached(_) => true
  }

  /** `acquire_lease` returns: True leaves a claim, False gives up any earlier one. */
  function Return(s: State, o: Owner, acquired: bool): State
  {
    s.(phases := s.phases[o := Outside],
       claims := if acquired && s.key.Some? then s.claims[o := s.key.value.expiresAt] else s.claims - {o})
  }

  function Apply(s: State, step: Step): State
    requires Enabled(s, step)
  {
    match step
    case Tick(seconds) => s.(now := s.now + seconds)
    case SetNx(o, ttl, replied) =>
      if Live(s) then if replied then s.(phases := s.phases[o := Refused(ttl)]) else Return(s, o, false)
      else Return(s.(key := Some(Lease(o, Expiry(s, ttl)))), o, replied)
    case Get(o, replied) =>
      if replied && HeldBy(s, o) then s.(phases := s.phases[o := Renewing(PhaseOf(s, o).ttl)]) else Return(s, o, false)
    case Renew(o, replied) =>
      if HeldBy(s, o) then Return(s.(key := Some(Lease(o, Expiry(s, PhaseOf(s, o).ttl)))), o, replied)
      else Return(s, o, false)
    case Release(o) =>
      var t := s.(claims := s.claims - {o});
      if HeldBy(s, o) then t.(key := None) else t
    case Unreached(o) => Return(s, o, false)
  }

  /** `acquire_lease` returned True in this step. */
  predicate Granted(s: State, step: Step)
    requires Enabled(s, step)
  {
    match step
    case SetNx(_, _, replied) => replied && !Live(s)
    case Renew(o, replied) => replied && HeldBy(s, o)
    case _ => false
  }

  predicate Claims(s: State, o: Owner) { o in s.claims && s.claims[o] > s.now }

  /** An unexpired claim is backed by the key itself. */
  ghost predicate Inv(s: State)
  {
    forall o :: Claims(s, o) ==> s.key == Some(Lease(o, s.claims[o]))
  }

  lemma {:induction false} StepInv(s: State, step: Step)
    requires Inv(s) && Enabled(s, step)
    ensures Inv(Apply(s, step))
  {
  }

  predicate StepOf(step: Step, o: Owner) { !step.Tick? && step.owner == o }

  /** A late owner neither extends nor deletes nor replaces the live lease of another, and gets no
      True; this needs no invariant, only the comparisons in the scripts. */
  lemma {:induction false} LateOwnerIsHarmless(s: State, step: Step, holder: Owner)
    requires Enabled(s, step) && HeldBy(s, holder) && !step.Tick? && !StepOf(step, holder)
    ensures Apply(s, step).key == s.key && !Granted(s, step)
  {
  }

  /** Only a True makes a claim, and it makes one for the seconds asked for, at least one. */
  lemma {:induction false} GrantedExactly(s: State, step: Step)
    requires Inv(s) && Enabled(s, step)
    ensures Granted(s, step) ==> Claims(Apply(s, step), step.owner)
    ensures Granted(s, step) ==>
              var ttl := if step.SetNx? then step.ttl else s.phases[step.owner].ttl;
              Apply(s, step).claims[step.owner] == s.now + (if ttl < 1 then 1.0 else ttl as real)
    ensures forall o :: Claims(Apply(s, step), o) && !Claims(s, o) ==> Granted(s, step) && StepOf(step, o)
  {
  }

  predicate Schedule(s: State, steps: seq<Step>)
    decreases |steps|
  {
    steps == [] || (Enabled(s, steps[0]) && Schedule(Apply(s, steps[0]), steps[1..]))
  }

  function After(s: State, steps: seq<Step>): State
    requires Schedule(s, steps)
    decreases |steps|
  {
    if steps == [] then s else After(Apply(s, steps[0]), steps[1..])
  }

  lemma {:induction false} ScheduleInv(s: State, steps: seq<Step>)
    requires Inv(s) && Schedule(s, steps)
    ensures Inv(After(s, steps))
    decreases |steps|
  {
    if steps != [] {
      StepInv(s, steps[0]);
      ScheduleInv(Apply(s, steps[0]), steps[1..]);
    }
  }

  /** In every interleaving at most one owner holds an unexpired claim. */
  lemma {:induction false} Exclusion(steps: seq<Step>, a: Owner, b: Owner)
    requires Schedule(START, steps) && Claims(After(START, steps), a) && Claims(After(START, steps), b)
    ensures a == b
  {
    ScheduleInv(START, steps);
  }

  /** The owner itself does something. */
  predicate Acts(steps: seq<Step>, o: Owner) { exists i :: 0 <= i < |steps| && StepOf(steps[i], o) }

  lemma {:induction false} RestActs(steps: seq<Step>, o: Owner)
    requires steps != []
    ensures Acts(steps, o) <==> StepOf(steps[0], o) || Acts(steps[1..], o)
  {
    if Acts(steps, o) && !StepOf(steps[0], o) {
      var i :| 0 <= i < |steps| && StepOf(steps[i], o);
      assert StepOf(steps[1..][i - 1], o);
    }
    if Acts(steps[1..], o) {
      var i :| 0 <= i < |steps[1..]| && StepOf(steps[1..][i], o);
      assert StepOf(steps[i + 1], o);
    }
  }

  predicate GrantsOther(s: State, steps: seq<Step>, o: Owner)
    requires Schedule(s, steps)
    decreases |steps|
  {
    steps != [] && ((Granted(s, steps[0]) && !StepOf(steps[0], o)) || GrantsOther(Apply(s, steps[0]), steps[1..], o))
  }

  /** From a True for `o` until expiry or a step of `o` itself, the key keeps `o`'s lease unchanged
      and no other owner's `acquire_lease` returns True, whatever the others do. */
  lemma {:induction false} HeldUntilExpiry(s: State, steps: seq<Step>, o: Owner)
    requires Inv(s) && Claims(s, o) && Schedule(s, steps) && !Acts(steps, o)
    requires After(s, steps).now < s.claims[o]
    ensures !GrantsOther(s, steps, o)
    ensures After(s, steps).key == s.key && Claims(After(s, steps), o)
    decreases |steps|
  {
    if steps != [] {
      var t := Apply(s, steps[0]);
      StepInv(s, steps[0]);
      TimeMovesOn(t, steps[1..]);
      assert !StepOf(steps[0], o) && !Acts(steps[1..], o) by { RestActs(steps, o); }
      HeldUntilExpiry(t, steps[1..], o);
    }
  }

  /** The lease is not live in some state of the run. */
  predicate Lapses(s: State, steps: seq<Step>)
    requires Schedule(s, steps)
    decreases |steps|
  {
    !Live(s) || (steps != [] && Lapses(Apply(s, steps[0]), steps[1..]))
  }

  /** Its owner may also renew, fail and retry: as long as it does not release and the key does not
      lapse, the lease stays with it and every other acquire is refused. */
  lemma {:induction false} HeldWhileRenewed(s: State, steps: seq<Step>, o: Owner)
    requires HeldBy(s, o) && Schedule(s, steps) && Release(o) !in steps && !Lapses(s, steps)
    ensures HeldBy(After(s, steps), o) && !GrantsOther(s, steps, o)
    decreases |steps|
  {
    if steps != [] {
      if !steps[0].Tick? && !StepOf(steps[0], o) { LateOwnerIsHarmless(s, steps[0], o); }
      HeldWhileRenewed(Apply(s, steps[0]), steps[1..], o);
    }
  }

  lemma {:induction false} TimeMovesOn(s: State, steps: seq<Step>)
    requires Schedule(s, steps)
    ensures s.now <= After(s, steps).now
    decreases |steps|
  {
    if steps != [] { TimeMovesOn(Apply(s, steps[0]), steps[1..]); }
  }

  // ----- what the runs say in plain terms

  /** Step `i` of the run makes the `acquire_lease` of another owner return True. */
  predicate GrantsOtherAt(s: State, steps: seq<Step>, o: Owner, i: nat)
    requires Schedule(s, steps) && i < |steps|
  {
    Split(s, steps, i);
    Granted(After(s, steps[..i]), steps[i]) && !StepOf(steps[i], o)
  }

  lemma {:induction false} Split(s: State, steps: seq<Step>, i: nat)
    requires Schedule(s, steps) && i <= |steps|
    ensures Schedule(s, steps[..i]) && Schedule(After(s, steps[..i]), steps[i..])
    ensures After(After(s, steps[..i]), steps[i..]) == After(s, steps)
    ensures i < |steps| ==> Enabled(After(s, steps[..i]), steps[i])
    decreases |steps|
  {
    if i == 0 {
      assert steps[..0] == [] && steps[0..] == steps;
    } else {
      Split(Apply(s, steps[0]), steps[1..], i - 1);
      assert steps[..i][1..] == steps[1..][..i - 1] && steps[1..][i - 1..] == steps[i..];
    }
  }

  lemma {:induction false} GrantsOtherExactly(s: State, steps: seq<Step>, o: Owner)
    requires Schedule(s, steps)
    ensures GrantsOther(s, steps, o) <==> exists i: nat :: i < |steps| && GrantsOtherAt(s, steps, o, i)
    decreases |steps|
  {
    if steps != [] {
      var t, rest := Apply(s, steps[0]), steps[1..];
      GrantsOtherExactly(t, rest, o);
      assert steps[..0] == [];
      assert GrantsOtherAt(s, steps, o, 0) <==> Granted(s, steps[0]) && !StepOf(steps[0], o);
      forall i: nat | i < |rest| ensures GrantsOtherAt(s, steps, o, i + 1) <==> GrantsOtherAt(t, rest, o, i) {
        Split(s, steps, i + 1);
        assert steps[..i + 1][1..] == rest[..i];
      }
      if GrantsOther(t, rest, o) {
        var i: nat :| i < |rest| && GrantsOtherAt(t, rest, o, i);
        assert GrantsOtherAt(s, steps, o, i + 1);
      }
      if i: nat :| i < |steps| && GrantsOtherAt(s, steps, o, i) {
        if i > 0 { assert GrantsOtherAt(t, rest, o, i - 1); }
      }
    }
  }

  // ----- when an acquire must succeed

  /** A lease set for `ttl` seconds refuses every other owner for exactly that long, and at least a
      second; from then on it is there for the taking. */
  lemma {:induction false} RefusedForItsSecondsExactly(s: State, a: Owner, ttl: int, seconds: real, b: Owner, more: int)
    requires !Live(s) && PhaseOf(s, a).Outside? && PhaseOf(s, b).Outside? && seconds >= 0.0 && a != b
    ensures Schedule(s, [SetNx(a, ttl, true), Tick(seconds), SetNx(b, more, true)])
    ensures var t := Apply(Apply(s, SetNx(a, ttl, true)), Tick(seconds));
            && Granted(s, SetNx(a, ttl, true))
            && (Granted(t, SetNx(b, more, true)) <==> seconds >= 1.0 && seconds >= ttl as real)
            && (Granted(t, SetNx(b, more, true)) ==>
                  var end := t.now + (if more < 1 then 1.0 else more as real);
                  Apply(t, SetNx(b, more, true)).key == Some(Lease(b, end)))
  {
    var t := Apply(s, SetNx(a, ttl, true));
    var steps := [SetNx(a, ttl, true), Tick(seconds), SetNx(b, more, true)];
    assert steps[1..] == [Tick(seconds), SetNx(b, more, true)] && steps[1..][1..] == [SetNx(b, more, true)];
    assert steps[1..][1..][1..] == [];
    assert Schedule(Apply(t, Tick(seconds)), [SetNx(b, more, true)]);
    assert Schedule(t, steps[1..]);
  }

  /** The release of the holder frees the lease at once for any owner; a release by anybody else leaves
      it alone. */
  lemma {:induction false} ReleaseFreesExactly(s: State, a: Owner, b: Owner, ttl: int)
    requires Live(s) && PhaseOf(s, a).Outside? && PhaseOf(s, b).Outside?
    ensures Enabled(s, Release(a)) && Enabled(Apply(s, Release(a)), SetNx(b, ttl, true))
    ensures Granted(Apply(s, Release(a)), SetNx(b, ttl, true)) <==> s.key.value.owner == a
    ensures s.key.value.owner == a ==> Apply(s, Release(a)).key == None
    ensures s.key.value.owner != a ==> Apply(s, Release(a)).key == s.key
    ensures !Claims(Apply(s, Release(a)), a)
  {
  }

  lemma {:induction false} OthersLeaveIt(s: State, steps: seq<Step>, o: Owner, e: real)
    requires Schedule(s, steps) && !Acts(steps, o) && s.key == Some(Lease(o, e)) && After(s, steps).now < e
    ensures After(s, steps).key == s.key && PhaseOf(After(s, steps), o) == PhaseOf(s, o)
    decreases |steps|
  {
    if steps != [] {
      RestActs(steps, o);
      TimeMovesOn(Apply(s, steps[0]), steps[1..]);
      OthersLeaveIt(Apply(s, steps[0]), steps[1..], o, e);
    }
  }

  /** A holder that renews gets a True whatever the others do between its three operations, as long as
      the lease has not expired when the last one arrives; the lease then runs its full time anew. */
  lemma {:induction false} RenewalSucceeds(s: State, o: Owner, e: real, ttl: int, first: seq<Step>, second: seq<Step>)
    requires s.key == Some(Lease(o, e)) && e > s.now && PhaseOf(s, o).Outside? && !Acts(first, o) && !Acts(second, o)
    requires var s1 := Apply(s, SetNx(o, ttl, true)); Schedule(s1, first) && After(s1, first).now < e
    requires var s2 := After(Apply(s, SetNx(o, ttl, true)), first);
             Enabled(s2, Get(o, true)) ==>
               Schedule(Apply(s2, Get(o, true)), second) && After(Apply(s2, Get(o, true)), second).now < e
    ensures var s2 := After(Apply(s, SetNx(o, ttl, true)), first);
            Enabled(s2, Get(o, true)) &&
            var s4 := After(Apply(s2, Get(o, true)), second);
            && Enabled(s4, Renew(o, true)) && Granted(s4, Renew(o, true))
            && Apply(s4, Renew(o, true)).key == Some(Lease(o, s4.now + (if ttl < 1 then 1.0 else ttl as real)))
            && PhaseOf(Apply(s4, Renew(o, true)), o).Outside?
  {
    var s1 := Apply(s, SetNx(o, ttl, true));
    OthersLeaveIt(s1, first, o, e);
    var s3 := Apply(After(s1, first), Get(o, true));
    OthersLeaveIt(s3, second, o, e);
  }

  /** An owner that finds the lease of another gives up with a False after its second operation, and one
      that cannot reach the server gives up at once; both leave the key. */
  lemma {:induction false} RefusalEnds(s: State, o: Owner, holder: Owner, ttl: int)
    ensures HeldBy(s, holder) && holder != o && PhaseOf(s, o).Outside? ==>
              var t := Apply(s, SetNx(o, ttl, true));
              && Enabled(t, Get(o, true)) && !Granted(s, SetNx(o, ttl, true)) && !Granted(t, Get(o, true))
              && var end := Apply(t, Get(o, true));
                 PhaseOf(end, o).Outside? && end.key == s.key && !Claims(end, o)
    ensures Enabled(s, Unreached(o)) && !Granted(s, Unreached(o))
    ensures var end := Apply(s, Unreached(o)); PhaseOf(end, o).Outside? && end.key == s.key && !Claims(end, o)
  {
  }
}
