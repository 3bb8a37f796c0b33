/** The process-memory cache refines the runs of `SnapshotSharing`: the flag that a run carries for the
    sharing of a meta says which keys hold one object, before and after every operation. */
module SnapshotFollows {
  import opened Wrappers
  import opened MemoryStore
  import opened SnapshotCache
  import opened SnapshotSharing
  import opened SnapshotMemory

  /** The two meta keys of every snapshot hold one object exactly when the run says that it is shared
      and both are there. */
  ghost predicate SharesObjects(items: map<string, Item>, steps: seq<Step>)
  {
    forall k :: IsSnapshotKey(k) ==>
      (OneMeta(items, k) <==> SharesMeta(steps, k) && Key(Meta, k) in items && Key(LastGoodMeta, k) in items)
  }

  /** The cache is where the run of process memory has led. */
  ghost predicate Follows(cache: Snapshots, steps: seq<Step>)
    reads cache, cache.Metas()
  {
    cache.Valid() && InMemory(steps) && cache.View() == After(steps).items && SharesObjects(cache.items, steps)
  }

  lemma {:induction false} OneMore(steps: seq<Step>, step: Step)
    requires InMemory(steps) && Enabled(After(steps), step) && InMemoryStep(steps, After(steps), step)
    ensures InMemory(steps + [step]) && After(steps + [step]) == Apply(After(steps), step)
    ensures forall k :: SharesMeta(steps + [step], k) ==
                        (if step.Success? && step.k == k then true
                         else if step.Failure? && step.k == k then SharesMeta(steps, k) && step.previous.Some?
                         else SharesMeta(steps, k))
  {
    var more := steps + [step];
    assert more[..|more| - 1] == steps && more[|more| - 1] == step;
  }

  /** Two stores that agree outside the keys of `k` have the same items under the keys of another
      snapshot. */
  lemma {:induction false} ElsewhereSame(before: map<string, Item>, after: map<string, Item>, k: string, slot: Slot,
                                         j: string)
    requires IsSnapshotKey(k) && IsSnapshotKey(j) && j != k && before - OwnKeySet(k) == after - OwnKeySet(k)
    ensures Key(slot, j) in before <==> Key(slot, j) in after
    ensures Key(slot, j) in before ==> before[Key(slot, j)] == after[Key(slot, j)]
  {
    OtherKeys(k, j);
    var key, own := Key(slot, j), OwnKeySet(k);
    assert key !in own;
    assert (key in before <==> key in before - own) && (key in after <==> key in after - own);
    assert key in before ==> before[key] == (before - own)[key];
    assert key in after ==> after[key] == (after - own)[key];
  }

  /** An operation on `k` leaves the meta objects of the other snapshots where they are. */
  lemma {:induction false} OthersShare(before: map<string, Item>, after: map<string, Item>, k: string, steps: seq<Step>,
                                       more: seq<Step>)
    requires IsSnapshotKey(k) && SharesObjects(before, steps) && before - OwnKeySet(k) == after - OwnKeySet(k)
    requires forall j :: j != k ==> SharesMeta(more, j) == SharesMeta(steps, j)
    requires OneMeta(after, k) <==> SharesMeta(more, k) && Key(Meta, k) in after && Key(LastGoodMeta, k) in after
    ensures SharesObjects(after, more)
  {
    forall j | IsSnapshotKey(j) && j != k ensures
      OneMeta(after, j) <==> SharesMeta(more, j) && Key(Meta, j) in after && Key(LastGoodMeta, j) in after
    {
      ElsewhereSame(before, after, k, Meta, j);
      ElsewhereSame(before, after, k, LastGoodMeta, j);
    }
  }

  /** An empty cache follows the empty run. */
  method Started() returns (cache: Snapshots)
    ensures fresh(cache) && Follows(cache, [])
  {
    cache := new Snapshots();
    assert cache.items.Keys == cache.View().Keys;
  }

  lemma {:induction false} Waited(cache: Snapshots, steps: seq<Step>, seconds: real)
    requires Follows(cache, steps) && seconds >= 0.0
    ensures Follows(cache, steps + [Tick(seconds)])
  {
    OneMore(steps, Tick(seconds));
  }

  /** A success makes one object of its own two meta keys and leaves those of the other snapshots. */
  method FollowSuccess(cache: Snapshots, ghost steps: seq<Step>, k: string, payload: Json, generatedAt: string,
                       expiresAt: string, ttl: int, at: Clock)
    requires Follows(cache, steps) && IsSnapshotKey(k)
    requires After(steps).now <= at.payload <= at.meta <= at.lastGood <= at.lastGoodMeta
    modifies cache
    ensures Follows(cache, steps + [Success(k, payload, SuccessMeta(k, generatedAt, expiresAt), ttl, at)])
    ensures fresh(cache.Metas() - old(cache.Metas()))
  {
    ghost var step := Success(k, payload, SuccessMeta(k, generatedAt, expiresAt), ttl, at);
    OneMore(steps, step);
    ghost var was := cache.items;
    cache.WriteSuccess(k, payload, generatedAt, expiresAt, ttl, at);
    OthersShare(was, cache.items, k, steps, steps + [step]);
  }

  /** What the run says of a failure agrees with the objects: the step changes the same items. */
  lemma {:induction false} FlagsAgree(items: Items, k: string, meta: Json, ttl: int, read: real, write: real,
                                      oneObject: bool, shares: bool)
    requires IsSnapshotKey(k)
    requires Live(items, Key(Meta, k), read) ==> (oneObject <==> shares && Key(LastGoodMeta, k) in items)
    ensures var live := Live(items, Key(Meta, k), read);
            AfterFailure(items, k, meta, ttl, write, oneObject && live) ==
              AfterFailure(items, k, meta, ttl, write, shares && live)
    ensures AfterFailure(items, k, meta, ttl, write, shares).Keys == items.Keys + {Key(Meta, k)}
    ensures Key(LastGoodMeta, k) != Key(Meta, k)
  {
    KeysApart(Meta, k, LastGoodMeta, k);
  }

  /** A failure keeps the one object exactly when the run says so: it found the shared meta live. */
  method FollowFailure(cache: Snapshots, ghost steps: seq<Step>, k: string, refreshedAt: string, message: string,
                       ttl: int, read: real, write: real)
    requires Follows(cache, steps) && IsSnapshotKey(k) && After(steps).now <= read <= write
    modifies cache, cache.Metas()
    ensures var previous := Get(old(cache.View()), Meta, k, read);
            var shared := SharesMeta(steps, k) && previous.Some?;
            Follows(cache, steps + [Failure(k, read, previous, refreshedAt, message, ttl, write, shared)])
    ensures fresh(cache.Metas() - old(cache.Metas()))
  {
    ghost var was, view := cache.items, cache.View();
    ghost var previous := Get(view, Meta, k, read);
    ghost var shared := SharesMeta(steps, k) && previous.Some?;
    ghost var step := Failure(k, read, previous, refreshedAt, message, ttl, write, shared);
    OneMore(steps, step);
    FlagsAgree(view, k, FailedMeta(k, previous, refreshedAt, message), ttl, read, write, cache.OneObject(k),
               SharesMeta(steps, k));
    assert was.Keys == view.Keys;
    cache.WriteFailed(k, refreshedAt, message, ttl, read, write);
    assert cache.items.Keys == cache.View().Keys == was.Keys + {Key(Meta, k)};
    OthersShare(was, cache.items, k, steps, steps + [step]);
  }

  lemma {:induction false} RemovalShares(before: map<string, Item>, key: string, steps: seq<Step>, more: seq<Step>)
    requires SharesObjects(before, steps) && forall j :: SharesMeta(more, j) == SharesMeta(steps, j)
    ensures SharesObjects(before, more) && SharesObjects(before - {key}, more)
  {
  }

  /** Reading a key evicts it when it has expired. */
  method FollowGet(cache: Snapshots, ghost steps: seq<Step>, slot: Slot, k: string, now: real)
    returns (value: Option<Content>)
    requires Follows(cache, steps) && IsSnapshotKey(k) && After(steps).now == now
    modifies cache
    ensures Follows(cache, steps + [Evict(slot, k)])
    ensures cache.Metas() <= old(cache.Metas())
    ensures value.Some? <==> Get(old(cache.View()), slot, k, now).Some?
    ensures value.Some? ==> Some(cache.Seen(value.value)) == Get(old(cache.View()), slot, k, now)
  {
    OneMore(steps, Evict(slot, k));
    RemovalShares(cache.items, Key(slot, k), steps, steps + [Evict(slot, k)]);
    value := cache.Get(Key(slot, k), now);
  }

  lemma {:induction false} ReadHits(steps: seq<Step>, slot: Slot, k: string)
    requires InMemory(steps) && IsSnapshotKey(k)
    ensures InMemory(steps + [Evict(slot, k)]) && After(steps + [Evict(slot, k)]).now == After(steps).now
    ensures Latest(steps + [Evict(slot, k)], k) == Latest(steps, k)
    ensures var s, good := After(steps), Latest(steps, k);
            Read(s.items, k, s.now) == if good.Some? && good.value.until > s.now then Some(good.value.payload) else None
  {
    OneMore(steps, Evict(slot, k));
    assert (steps + [Evict(slot, k)])[..|steps|] == steps;
    RunMatches(steps, k);
    ReadIsLatestSuccess(steps, k);
  }

  /** The cached read of the running program: the object it returns is the payload of the latest success,
      and it returns one exactly when that success is still retained at the last look. */
  method FollowRead(cache: Snapshots, ghost steps: seq<Step>, k: string, first: real, second: real)
    returns (payload: Option<Content>, ghost more: seq<Step>)
    requires Follows(cache, steps) && IsSnapshotKey(k) && After(steps).now == first <= second
    modifies cache
    ensures Follows(cache, more) &&
            After(more).now == if Get(old(cache.View()), Payload, k, first).Some? then first else second
    ensures var good := Latest(steps, k);
            && (payload.Some? <==> good.Some? && good.value.until > After(more).now)
            && (payload.Some? ==> cache.Seen(payload.value) == good.value.payload)
  {
    payload := FollowGet(cache, steps, Payload, k, first);
    more := steps + [Evict(Payload, k)];
    ReadHits(steps, Payload, k);
    if payload == None {
      ghost var waited := more + [Tick(second - first)];
      Waited(cache, more, second - first);
      OneMore(more, Tick(second - first));
      assert waited[..|more|] == more;
      ReadHits(waited, LastGood, k);
      payload := FollowGet(cache, waited, LastGood, k, second);
      more := waited + [Evict(LastGood, k)];
    }
  }

  /** The status page asks for the remaining seconds of the payload. */
  method FollowTtl(cache: Snapshots, ghost steps: seq<Step>, k: string, now: real) returns (seconds: Option<int>)
    requires Follows(cache, steps) && IsSnapshotKey(k) && After(steps).now == now
    modifies cache
    ensures Follows(cache, steps + [Probe(Payload, k)])
    ensures cache.Metas() <= old(cache.Metas())
  {
    OneMore(steps, Probe(Payload, k));
    RemovalShares(cache.items, Key(Payload, k), steps, steps + [Probe(Payload, k)]);
    seconds := cache.Ttl(Key(Payload, k), now);
  }

  /** So what the run theorem says of the last-good meta is true of the object stored: it reports a
      failure exactly when the first failure after the latest success found the meta of that success
      live; and the two keys hold one object only before that failure or when it did so. */
  lemma {:induction false} StoredMetaDamagedExactly(cache: Snapshots, steps: seq<Step>, k: string)
    requires Follows(cache, steps) && IsSnapshotKey(k) && Live(cache.View(), Key(LastGoodMeta, k), After(steps).now)
    ensures var story, stored := StoryOf(steps, k), cache.Seen(cache.items[Key(LastGoodMeta, k)].content);
            && story.Some?
            && (HasStatus(stored, "failed") <==> Damaged(story.value))
            && (stored != story.value.meta <==> Damaged(story.value))
            && (story.value.firstFailure == None && Key(Meta, k) in cache.items ==> cache.OneObject(k))
            && (cache.OneObject(k) ==> story.value.firstFailure == None || Damaged(story.value))
  {
    RunMatches(steps, k);
    LastGoodMetaDamagedExactly(steps, k);
  }
}
