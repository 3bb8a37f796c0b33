/** Runs of the snapshot cache in process memory, where the meta of a success is one object under two
    keys: exactly which refresh failures damage the last-good meta. */
module SnapshotSharing {
  import opened Wrappers
  import opened MemoryStore
  import opened SnapshotCache

  /** Whether the meta key still holds the object of the latest success: set by a success, kept by a
      failure that finds the object live and updates it, lost by one that starts a new object. */
  function SharesMeta(steps: seq<Step>, k: string): bool
  {
    if steps == [] then false
    else
      var step := steps[|steps| - 1];
      if step.Success? && step.k == k then true
      else if step.Failure? && step.k == k then SharesMeta(steps[..|steps| - 1], k) && step.previous.Some?
      else SharesMeta(steps[..|steps| - 1], k)
  }

  predicate HasStatus(meta: Json, status: string)
  {
    meta.Dict? && "status" in meta.fields && meta.fields["status"] == status
  }

  /** What the process-memory backend makes of a step: a failure reads and writes without another step
      in between, and what it updates is the object it found. */
  predicate InMemoryStep(before: seq<Step>, s: State, step: Step)
  {
    match step
    case Success(_, _, meta, _, _) => HasStatus(meta, "success")
    case Failure(k, read, previous, _, _, _, when, shared) =>
      s.now <= read <= when && previous == Get(s.items, Meta, k, read) &&
      shared == (SharesMeta(before, k) && previous.Some?)
    case _ => true
  }

  ghost predicate InMemory(steps: seq<Step>)
  {
    steps == [] ||
    (InMemory(steps[..|steps| - 1]) && Enabled(After(steps[..|steps| - 1]), steps[|steps| - 1]) &&
     InMemoryStep(steps[..|steps| - 1], After(steps[..|steps| - 1]), steps[|steps| - 1]))
  }

  /** The latest success of `k`: its meta, when that expires, and when the first failure after it read. */
  datatype Story = Story(meta: Json, metaUntil: real, firstFailure: Option<real>)

  function Told(story: Option<Story>, step: Step, k: string): Option<Story>
  {
    if step.Success? && step.k == k then
      Some(Story(step.meta, step.at.meta + (if step.ttl < 1 then 1.0 else step.ttl as real), None))
    else if step.Failure? && step.k == k && story.Some? && story.value.firstFailure == None then
      Some(story.value.(firstFailure := Some(step.read)))
    else story
  }

  function StoryOf(steps: seq<Step>, k: string): Option<Story>
  {
    if steps == [] then None else Told(StoryOf(steps[..|steps| - 1], k), steps[|steps| - 1], k)
  }

  /** The first failure after the latest success came before the meta of that success expired. */
  predicate Damaged(story: Story) { story.firstFailure.Some? && story.firstFailure.value < story.metaUntil }

  ghost predicate Matches(s: State, shares: bool, k: string, story: Option<Story>)
  {
    var meta := Key(Meta, k);
    var lastMeta := Key(LastGoodMeta, k);
    match story
    case None => lastMeta !in s.items && !shares
    case Some(st) =>
      HasStatus(st.meta, "success") &&
      (st.firstFailure == None ==> shares) &&
      (st.firstFailure == None && meta in s.items ==> s.items[meta] == Entry(st.metaUntil, st.meta)) &&
      (st.firstFailure == None && st.metaUntil > s.now ==> meta in s.items) &&
      (st.firstFailure.Some? && !Damaged(st) ==> !shares) &&
      (lastMeta in s.items ==>
       if Damaged(st) then HasStatus(s.items[lastMeta].value, "failed") else s.items[lastMeta].value == st.meta)
  }

  lemma {:induction false} StatusOfMetas(k: string, generatedAt: string, expiresAt: string, previous: Option<Json>,
                                         refreshedAt: string, message: string)
    ensures HasStatus(SuccessMeta(k, generatedAt, expiresAt), "success")
    ensures HasStatus(FailedMeta(k, previous, refreshedAt, message), "failed")
  {
  }

  lemma {:induction false} OtherSuccessMatches(before: seq<Step>, s: State, step: Step, k: string, story: Option<Story>)
    requires step.Success? && Enabled(s, step) && IsSnapshotKey(k) && step.k != k
    requires Matches(s, SharesMeta(before, k), k, story)
    ensures Matches(Apply(s, step), SharesMeta(before, k), k, story)
  {
    OtherKeys(step.k, k);
  }

  lemma {:induction false} OwnSuccessMatches(s: State, step: Step)
    requires step.Success? && Enabled(s, step) && HasStatus(step.meta, "success")
    ensures Matches(Apply(s, step), true, step.k, Told(None, step, step.k))
  {
    OwnKeys(step.k);
  }

  lemma {:induction false} FailureMatches(before: seq<Step>, s: State, step: Step, k: string, story: Option<Story>)
    requires step.Failure? && Enabled(s, step) && InMemoryStep(before, s, step) && IsSnapshotKey(k)
    requires Matches(s, SharesMeta(before, k), k, story)
    ensures Matches(Apply(s, step), if step.k == k then step.shared else SharesMeta(before, k), k, Told(story, step, k))
  {
    if step.k == k {
      OwnKeys(k);
      StatusOfMetas(k, "", "", step.previous, step.refreshedAt, step.message);
    } else {
      OtherKeys(step.k, k);
    }
  }

  lemma {:induction false} RemovalMatches(before: seq<Step>, s: State, step: Step, k: string, story: Option<Story>)
    requires (step.Probe? || step.Evict?) && Enabled(s, step) && IsSnapshotKey(k)
    requires Matches(s, SharesMeta(before, k), k, story)
    ensures Matches(Apply(s, step), SharesMeta(before, k), k, story)
  {
    if step.k == k { OwnKeys(k); } else { OtherKeys(step.k, k); }
  }

  lemma {:induction false} RunMatches(steps: seq<Step>, k: string)
    requires InMemory(steps) && IsSnapshotKey(k)
    ensures Schedule(steps) && Matches(After(steps), SharesMeta(steps, k), k, StoryOf(steps, k))
  {
    if steps != [] {
      var before, step := steps[..|steps| - 1], steps[|steps| - 1];
      var s, story := After(before), StoryOf(before, k);
      RunMatches(before, k);
      if step.Success? && step.k == k { OwnSuccessMatches(s, step); }
      else if step.Success? { OtherSuccessMatches(before, s, step, k, story); }
      else if step.Failure? { FailureMatches(before, s, step, k, story); }
      else if !step.Tick? { RemovalMatches(before, s, step, k, story); }
    }
  }

  /** In every run in process memory the last-good meta of a snapshot, as long as it is stored, is the
      meta of the latest success unless the first failure after that success came while that meta was
      still live; then, and only then, it reports a failure. The last-good payload is intact either way. */
  lemma {:induction false} LastGoodMetaDamagedExactly(steps: seq<Step>, k: string)
    requires InMemory(steps) && IsSnapshotKey(k)
    ensures Schedule(steps)
    ensures var s, story := After(steps), StoryOf(steps, k);
            var found := Get(s.items, LastGoodMeta, k, s.now);
            found.Some? ==>
              && story.Some?
              && (found != Some(story.value.meta) <==> Damaged(story.value))
              && (HasStatus(found.value, "failed") <==> Damaged(story.value))
    ensures var s, good := After(steps), Latest(steps, k);
            good.Some? && good.value.until > s.now ==> Get(s.items, LastGood, k, s.now) == Some(good.value.payload)
  {
    RunMatches(steps, k);
    RunAgrees(steps, k);
  }

  predicate OwnSuccess(step: Step, k: string) { step.Success? && step.k == k }

  predicate OwnFailure(step: Step, k: string) { step.Failure? && step.k == k }

  lemma {:induction false} StoryWithoutFailure(steps: seq<Step>, i: nat, k: string)
    requires i < |steps| && OwnSuccess(steps[i], k)
    requires forall j :: i < j < |steps| ==> !OwnSuccess(steps[j], k) && !OwnFailure(steps[j], k)
    ensures var until := steps[i].at.meta + (if steps[i].ttl < 1 then 1.0 else steps[i].ttl as real);
            StoryOf(steps, k) == Some(Story(steps[i].meta, until, None))
  {
    var n := |steps| - 1;
    if i < n {
      StoryWithoutFailure(steps[..n], i, k);
      assert !OwnSuccess(steps[n], k) && !OwnFailure(steps[n], k);
    }
  }

  lemma {:induction false} StoryWithFailure(steps: seq<Step>, i: nat, f: nat, k: string)
    requires i < f < |steps| && OwnSuccess(steps[i], k) && OwnFailure(steps[f], k)
    requires forall j :: i < j < |steps| ==> !OwnSuccess(steps[j], k)
    requires forall j :: i < j < f ==> !OwnFailure(steps[j], k)
    ensures var until := steps[i].at.meta + (if steps[i].ttl < 1 then 1.0 else steps[i].ttl as real);
            StoryOf(steps, k) == Some(Story(steps[i].meta, until, Some(steps[f].read)))
  {
    var n := |steps| - 1;
    if f < n {
      StoryWithFailure(steps[..n], i, f, k);
      assert !OwnSuccess(steps[n], k);
    } else {
      StoryWithoutFailure(steps[..n], i, k);
    }
  }

  /** In seconds: with step `i` the latest success of `k` and step `f` the first failure after it, a stored
      last-good meta reports that failure exactly when it read less than the ttl of the success, or less
      than a second, after the meta was written. */
  lemma {:induction false} DamagedWithinTheTtl(steps: seq<Step>, i: nat, f: nat, k: string)
    requires InMemory(steps) && IsSnapshotKey(k)
    requires i < f < |steps| && OwnSuccess(steps[i], k) && OwnFailure(steps[f], k)
    requires forall j :: i < j < |steps| ==> !OwnSuccess(steps[j], k)
    requires forall j :: i < j < f ==> !OwnFailure(steps[j], k)
    ensures var found := Get(After(steps).items, LastGoodMeta, k, After(steps).now);
            found.Some? ==>
              (HasStatus(found.value, "failed") <==>
               steps[f].read < steps[i].at.meta + 1.0 || steps[f].read < steps[i].at.meta + steps[i].ttl as real)
  {
    StoryWithFailure(steps, i, f, k);
    LastGoodMetaDamagedExactly(steps, k);
  }

  /** Until the first failure after it the stored last-good meta is that of the latest success. */
  lemma {:induction false} IntactWithoutFailure(steps: seq<Step>, i: nat, k: string)
    requires InMemory(steps) && IsSnapshotKey(k) && i < |steps| && OwnSuccess(steps[i], k)
    requires forall j :: i < j < |steps| ==> !OwnSuccess(steps[j], k) && !OwnFailure(steps[j], k)
    ensures Get(After(steps).items, LastGoodMeta, k, After(steps).now) in {None, Some(steps[i].meta)}
  {
    StoryWithoutFailure(steps, i, k);
    LastGoodMetaDamagedExactly(steps, k);
  }

  lemma {:induction false} DamageOnItems(items: Items, k: string, payload: Json, meta: Json, ttl: int, at: Clock,
                                         failed: Json, read: real, write: real)
    requires IsSnapshotKey(k) && read <= write < at.lastGood + LastGoodTtl(ttl) as real &&
             at.lastGood <= at.lastGoodMeta
    requires read < at.meta + (if ttl < 1 then 1.0 else ttl as real)
    ensures var once := AfterSuccess(items, k, payload, meta, ttl, at);
            var twice := AfterFailure(once, k, failed, ttl, write, true);
            && Found(once, Key(Meta, k), read) == Some(meta)
            && Found(twice, Key(LastGood, k), write) == Some(payload)
            && Found(twice, Key(LastGoodMeta, k), write) == Some(failed)
  {
    OwnKeys(k);
  }

  /** Such a run, for every snapshot and payload: a success with a minute to live and a failure a second
      later. */
  lemma {:induction false} DamageIsReached(k: string, payload: Json, meta: Json, refreshedAt: string, message: string)
    requires IsSnapshotKey(k) && HasStatus(meta, "success")
    ensures var steps := [Success(k, payload, meta, 60, Clock(0.0, 0.0, 0.0, 0.0)),
                          Failure(k, 1.0, Some(meta), refreshedAt, message, 60, 1.0, true)];
            && InMemory(steps) && StoryOf(steps, k).Some? && Damaged(StoryOf(steps, k).value)
            && Get(After(steps).items, LastGoodMeta, k, 1.0) == Some(FailedMeta(k, Some(meta), refreshedAt, message))
            && Get(After(steps).items, LastGood, k, 1.0) == Some(payload)
  {
    var clock := Clock(0.0, 0.0, 0.0, 0.0);
    var one := Success(k, payload, meta, 60, clock);
    var two := Failure(k, 1.0, Some(meta), refreshedAt, message, 60, 1.0, true);
    var steps := [one, two];
    DamageOnItems(START.items, k, payload, meta, 60, clock, FailedMeta(k, Some(meta), refreshedAt, message), 1.0, 1.0);
    assert steps[..1] == [one] && [one][..0] == [];
    assert After([one]) == Apply(START, one) && After(steps) == Apply(After([one]), two);
    assert InMemory([]);
    assert InMemory([one]) && SharesMeta([one], k);
    assert StoryOf([one], k) == Told(StoryOf([], k), one, k) && StoryOf(steps, k) == Told(StoryOf([one], k), two, k);
  }
}
