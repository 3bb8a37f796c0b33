/** The lease in the process-memory branch, over whole runs. Acquiring and releasing are exact up to
    expiry; a status read that probes the lease key's remaining seconds drops the lease in its final
    second, and nothing else weakens it. */
module MemoryLease {
  import opened MemoryStore

  type Owner = string

  const KEY := "data-assets:refresh-lease"

  /** `claims[o]` is the expiry that `o`'s latest successful acquire set. */
  datatype State = State(now: real, items: Items, claims: map<Owner, real>)

  /** `gap` passes between the two clock readings of one acquire. */
  datatype Step =
    | Tick(seconds: real)
    | Acquire(owner: Owner, ttl: int, gap: real)
    | Release(owner: Owner)
    | Probe

  const START := State(0.0, map[], map[])

  predicate Enabled(step: Step)
  {
    match step
    case Tick(seconds) => seconds >= 0.0
    case Acquire(_, _, gap) => gap >= 0.0
    case _ => true
  }

  predicate Granted(s: State, step: Step) { step.Acquire? && !Blocked(s.items, KEY, step.owner, s.now) }

  /** The store changes exactly as the methods of `MemoryStore.Store` change it. */
  function Apply(s: State, step: Step): State
    requires Enabled(step)
  {
    match step
    case Tick(seconds) => s.(now := s.now + seconds)
    case Acquire(o, ttl, gap) =>
      var t := s.(now := s.now + gap);
      if Granted(s, step) then
        var items := Stored(s.items, KEY, Owned(o), ttl, t.now);
        t.(items := items, claims := s.claims[o := items[KEY].expiresAt])
      else t.(claims := s.claims - {o})
    case Release(o) =>
      s.(items := Kept(s.items, KEY, Live(s.items, KEY, s.now) && !HeldBy(s.items, KEY, o, s.now)),
         claims := s.claims - {o})
    case Probe => s.(items := Kept(s.items, KEY, Lasts(s.items, KEY, s.now)))
  }

  /** A claim that must still hold: unexpired, and with a full second left once probes take part. */
  predicate Firm(s: State, o: Owner, probed: bool)
  {
    o in s.claims && (if probed then s.claims[o] - s.now >= 1.0 else s.claims[o] > s.now)
  }

  ghost predicate Inv(s: State, probed: bool)
  {
    forall o :: Firm(s, o, probed) ==> KEY in s.items && s.items[KEY] == Entry(s.claims[o], Owned(o))
  }

  /** Only a True makes a claim, and it makes one for the seconds asked for, at least one. */
  lemma {:induction false} GrantedExactly(s: State, step: Step)
    requires Enabled(step)
    ensures Granted(s, step) ==>
              Apply(s, step).claims[step.owner] == Apply(s, step).now + (if step.ttl < 1 then 1.0 else step.ttl as real)
    ensures forall o :: Firm(Apply(s, step), o, false) && !Firm(s, o, false) ==> Granted(s, step) && step.owner == o
  {
  }

  lemma {:induction false} OwnersDiffer(a: Owner, b: Owner)
    ensures Owned(a) == Owned(b) ==> a == b
  {
    assert Owned(a).fields["owner"] == a;
  }

  lemma {:induction false} StepInv(s: State, step: Step, probed: bool)
    requires Inv(s, probed) && Enabled(step) && (step.Probe? ==> probed)
    ensures Inv(Apply(s, step), probed)
  {
    var t := Apply(s, step);
    forall o | Firm(t, o, probed)
      ensures KEY in t.items && t.items[KEY] == Entry(t.claims[o], Owned(o))
    {
      if !(step.Acquire? && step.owner == o && Granted(s, step)) {
        assert Firm(s, o, probed);
      }
    }
  }

  predicate Schedule(steps: seq<Step>, probed: bool)
  {
    forall i :: 0 <= i < |steps| ==> Enabled(steps[i]) && (steps[i].Probe? ==> probed)
  }

  function After(s: State, steps: seq<Step>, probed: bool): State
    requires Schedule(steps, probed)
    decreases |steps|
  {
    if steps == [] then s else After(Apply(s, steps[0]), steps[1..], probed)
  }

  lemma {:induction false} RunInv(s: State, steps: seq<Step>, probed: bool)
    requires Inv(s, probed) && Schedule(steps, probed)
    ensures Inv(After(s, steps, probed), probed) && s.now <= After(s, steps, probed).now
    decreases |steps|
  {
    if steps != [] {
      StepInv(s, steps[0], probed);
      RunInv(Apply(s, steps[0]), steps[1..], probed);
    }
  }

  /** Two firm claims never coexist: without probes up to expiry, with them up to its last second. */
  lemma {:induction false} Exclusion(steps: seq<Step>, probed: bool, a: Owner, b: Owner)
    requires Schedule(steps, probed)
    requires Firm(After(START, steps, probed), a, probed) && Firm(After(START, steps, probed), b, probed)
    ensures a == b
  {
    RunInv(START, steps, probed);
    OwnersDiffer(a, b);
  }

  predicate GrantsOther(s: State, steps: seq<Step>, probed: bool, o: Owner)
    requires Schedule(steps, probed)
    decreases |steps|
  {
    steps != [] &&
    ((Granted(s, steps[0]) && steps[0].owner != o) || GrantsOther(Apply(s, steps[0]), steps[1..], probed, o))
  }

  /** While `o`'s claim is firm and `o` does nothing, no other acquire returns True. */
  lemma {:induction false} HeldWhileFirm(s: State, steps: seq<Step>, probed: bool, o: Owner)
    requires Inv(s, probed) && Schedule(steps, probed)
    requires forall i :: 0 <= i < |steps| && (steps[i].Acquire? || steps[i].Release?) ==> steps[i].owner != o
    requires o in s.claims
    requires var end := After(s, steps, probed).now; if probed then s.claims[o] - end >= 1.0 else s.claims[o] > end
    ensures !GrantsOther(s, steps, probed, o)
    ensures Firm(After(s, steps, probed), o, probed)
    decreases |steps|
  {
    if steps != [] {
      var t := Apply(s, steps[0]);
      StepInv(s, steps[0], probed);
      RunInv(t, steps[1..], probed);
      assert s.now <= t.now && Firm(s, o, probed);
      HeldWhileFirm(t, steps[1..], probed, o);
    }
  }

  /** Step `i` of the run is an acquire of another owner that returns True. */
  predicate GrantsOtherAt(s: State, steps: seq<Step>, probed: bool, o: Owner, i: nat)
    requires Schedule(steps, probed) && i < |steps|
  {
    Granted(After(s, steps[..i], probed), steps[i]) && steps[i].owner != o
  }

  lemma {:induction false} GrantsOtherExactly(s: State, steps: seq<Step>, probed: bool, o: Owner)
    requires Schedule(steps, probed)
    ensures GrantsOther(s, steps, probed, o) <==> exists i: nat :: i < |steps| && GrantsOtherAt(s, steps, probed, o, i)
    decreases |steps|
  {
    if steps != [] {
      var t, rest := Apply(s, steps[0]), steps[1..];
      GrantsOtherExactly(t, rest, probed, o);
      assert steps[..0] == [];
      assert GrantsOtherAt(s, steps, probed, o, 0) <==> Granted(s, steps[0]) && steps[0].owner != o;
      forall i: nat | i < |rest|
        ensures GrantsOtherAt(s, steps, probed, o, i + 1) <==> GrantsOtherAt(t, rest, probed, o, i)
      {
        assert steps[..i + 1][1..] == rest[..i] && steps[..i + 1][0] == steps[0];
      }
      if GrantsOther(t, rest, probed, o) {
        var i: nat :| i < |rest| && GrantsOtherAt(t, rest, probed, o, i);
        assert GrantsOtherAt(s, steps, probed, o, i + 1);
      }
      if i: nat :| i < |steps| && GrantsOtherAt(s, steps, probed, o, i) {
        if i > 0 { assert GrantsOtherAt(t, rest, probed, o, i - 1); }
      }
    }
  }

  /** A lease taken for `ttl` seconds refuses every other owner for exactly that long, and at least a
      second; its owner may renew it at any time. */
  lemma {:induction false} RefusedForItsSecondsExactly(s: State, a: Owner, ttl: int, seconds: real, b: Owner, more: int)
    requires Granted(s, Acquire(a, ttl, 0.0)) && a != b && seconds >= 0.0
    ensures var t := Apply(Apply(s, Acquire(a, ttl, 0.0)), Tick(seconds));
            && Granted(t, Acquire(a, more, 0.0))
            && (Granted(t, Acquire(b, more, 0.0)) <==> seconds >= 1.0 && seconds >= ttl as real)
  {
    OwnersDiffer(a, b);
    FoundForItsSeconds(s.items, KEY, Owned(a), ttl, s.now, KEY + "'", s.now + seconds);
  }

  /** The release of the holder frees the lease for any other owner; a release by anybody else does not,
      and a lease that nobody holds is for the taking. */
  lemma {:induction false} ReleaseFreesExactly(s: State, a: Owner, holder: Owner, b: Owner, ttl: int)
    requires b != holder
    ensures HeldBy(s.items, KEY, holder, s.now) ==>
              (Granted(Apply(s, Release(a)), Acquire(b, ttl, 0.0)) <==> a == holder)
    ensures KEY !in s.items ==> Granted(s, Acquire(b, ttl, 0.0))
  {
  }

  /** Exactly when a probe lets a second owner in beside an unexpired claim: in its final second.
      Both then hold a claim at once. */
  lemma {:induction false} ProbeLetsOtherIn(s: State, a: Owner, b: Owner, ttl: int)
    requires a != b && Inv(s, false) && Firm(s, a, false)
    ensures !Granted(s, Acquire(b, ttl, 0.0))
    ensures Granted(Apply(s, Probe), Acquire(b, ttl, 0.0)) <==> s.claims[a] - s.now < 1.0
    ensures s.claims[a] - s.now < 1.0 ==>
              var t := Apply(Apply(s, Probe), Acquire(b, ttl, 0.0)); Firm(t, a, false) && Firm(t, b, false)
  {
    OwnersDiffer(a, b);
  }

  /** A run that reaches the final second: a two-second lease, half a second before it runs out. */
  lemma {:induction false} FinalSecondIsReached(a: Owner)
    ensures var steps := [Acquire(a, 2, 0.0), Tick(1.5)];
            Schedule(steps, false) && Firm(After(START, steps, false), a, false) &&
            After(START, steps, false).claims[a] - After(START, steps, false).now == 0.5
  {
    var steps := [Acquire(a, 2, 0.0), Tick(1.5)];
    assert steps[1..] == [Tick(1.5)];
    var s := Apply(START, steps[0]);
    assert After(s, [Tick(1.5)], false) == After(Apply(s, Tick(1.5)), [], false);
  }
}
