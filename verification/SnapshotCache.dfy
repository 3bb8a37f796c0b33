/** The snapshot cache: every snapshot owns four keys with their own expiry (payload, meta, last-good
    payload, last-good meta). Over every run the four together behave as one cell that holds the most
    recent successful payload for its retention time. */
module SnapshotCache {
  import opened Wrappers
  import opened MemoryStore

  const LAST_GOOD_RETENTION_SECONDS := 172800

  const PREFIX := "data-assets:"

  datatype Slot = Payload | Meta | LastGood | LastGoodMeta

  const META := ":meta"

  const LAST_GOOD := ":last-good"

  function Suffix(slot: Slot): string
  {
    match slot
    case Payload => ""
    case Meta => META
    case LastGood => LAST_GOOD
    case LastGoodMeta => LAST_GOOD + META
  }

  predicate EndsWith(s: string, suffix: string) { |suffix| <= |s| && s[|s| - |suffix|..] == suffix }

  /** What tells a snapshot key from the keys derived from it. */
  predicate IsSnapshotKey(k: string)
  {
    k != "" && k[0] != ':' && k[|k| - 1] != ':' && !EndsWith(k, META) && !EndsWith(k, LAST_GOOD)
  }

  /** `strip(":")`. */
  function Stripped(s: string): string
    decreases |s|
  {
    if s == "" then s
    else if s[0] == ':' then Stripped(s[1..])
    else if s[|s| - 1] == ':' then Stripped(s[..|s| - 1])
    else s
  }

  function Key(slot: Slot, k: string): string { PREFIX + Stripped(k + Suffix(slot)) }

  lemma {:induction false} KeyOf(slot: Slot, k: string)
    requires IsSnapshotKey(k)
    ensures Key(slot, k) == PREFIX + (k + Suffix(slot))
  {
    var whole := k + Suffix(slot);
    assert whole[0] == k[0] && META[|META| - 1] == 'a' && LAST_GOOD[|LAST_GOOD| - 1] == 'd';
    assert whole[|whole| - 1] != ':';
  }

  lemma {:induction false} EndsAppend(b: string, x: string)
    ensures EndsWith(b + x, x)
  {
  }

  lemma {:induction false} CancelRight(a: string, b: string, x: string)
    ensures a + x == b + x ==> a == b
  {
    assert (a + x)[..|a + x| - |x|] == a && (b + x)[..|b + x| - |x|] == b;
  }

  lemma {:induction false} LastDiffers(a: string, b: string)
    ensures a + META != b + LAST_GOOD
  {
    assert (a + META)[|a + META| - 1] == 'a' && (b + LAST_GOOD)[|b + LAST_GOOD| - 1] == 'd';
  }

  /** The first of two different derivations ends in a suffix that no snapshot key has. */
  lemma {:induction false} Derivations(slot: Slot, a: string, other: Slot, b: string)
    requires IsSnapshotKey(a) && IsSnapshotKey(b)
    ensures a + Suffix(slot) == b + Suffix(other) ==> slot == other && a == b
  {
    assert a + "" == a && b + "" == b;
    assert a + (LAST_GOOD + META) == (a + LAST_GOOD) + META && b + (LAST_GOOD + META) == (b + LAST_GOOD) + META;
    EndsAppend(a, META);
    EndsAppend(b, META);
    EndsAppend(a, LAST_GOOD);
    EndsAppend(b, LAST_GOOD);
    EndsAppend(a + LAST_GOOD, META);
    EndsAppend(b + LAST_GOOD, META);
    CancelRight(a, b, Suffix(slot));
    CancelRight(a, b + LAST_GOOD, META);
    CancelRight(a + LAST_GOOD, b, META);
    LastDiffers(a, b);
    LastDiffers(b, a);
    LastDiffers(a + LAST_GOOD, b);
    LastDiffers(b + LAST_GOOD, a);
  }

  /** No two snapshots share a key and no snapshot uses one key twice. */
  lemma {:induction false} KeysDistinct(slot: Slot, a: string, other: Slot, b: string)
    requires IsSnapshotKey(a) && IsSnapshotKey(b) && Key(slot, a) == Key(other, b)
    ensures slot == other && a == b
  {
    KeyOf(slot, a);
    KeyOf(other, b);
    assert a + Suffix(slot) == Key(slot, a)[|PREFIX|..] == Key(other, b)[|PREFIX|..] == b + Suffix(other);
    Derivations(slot, a, other, b);
  }

  /** The keys in use: the summary, the daily health and the daily health of another number of days. */
  lemma {:induction false} UsedKeys(days: string)
    requires days != "" && forall c :: c in days ==> '0' <= c <= '9' || c == '-'
    ensures IsSnapshotKey("summary") && IsSnapshotKey("daily_health") && IsSnapshotKey("daily_health:" + days)
  {
    var k := "daily_health:" + days;
    assert k[|k| - 1] == days[|days| - 1] && days[|days| - 1] in days;
  }

  /** The four names of a snapshot. */
  lemma {:induction false} KeyNames(k: string)
    requires IsSnapshotKey(k)
    ensures Key(Payload, k) == "data-assets:" + k
    ensures Key(Meta, k) == "data-assets:" + (k + ":meta")
    ensures Key(LastGood, k) == "data-assets:" + (k + ":last-good")
    ensures Key(LastGoodMeta, k) == "data-assets:" + (k + ":last-good:meta")
  {
    KeyOf(Payload, k);
    KeyOf(Meta, k);
    KeyOf(LastGood, k);
    KeyOf(LastGoodMeta, k);
    assert k + "" == k && LAST_GOOD + META == ":last-good:meta";
  }

  // ---- the writers and readers ----

  function SuccessMeta(k: string, generatedAt: string, expiresAt: string): Json
  {
    Dict(map["snapshot_key" := k, "status" := "success", "generated_at" := generatedAt, "expires_at" := expiresAt,
             "refreshed_at" := generatedAt])
  }

  function NewMeta(k: string): map<string, string> { map["snapshot_key" := k] }

  function FailedFields(base: map<string, string>, refreshedAt: string, message: string): map<string, string>
  {
    base["status" := "failed"]["refreshed_at" := refreshedAt]["error_message" := message]
  }

  /** The failure is written over whatever meta there was; a missing one starts with the key alone. */
  function FailedMeta(k: string, previous: Option<Json>, refreshedAt: string, message: string): Json
  {
    var known := previous.Some? && previous.value.Dict?;
    Dict(FailedFields(if known then previous.value.fields else NewMeta(k), refreshedAt, message))
  }

  /** A success says when it was generated and when it expires; a failure keeps what was known before,
      whoever wrote it, and replaces the status, the time and the error. */
  lemma {:induction false} MetaFields(k: string, generatedAt: string, expiresAt: string, previous: Option<Json>,
                                      refreshedAt: string, message: string, field: string)
    ensures var ok := SuccessMeta(k, generatedAt, expiresAt).fields;
            && ok["snapshot_key"] == k && ok["status"] == "success" && ok["generated_at"] == generatedAt
            && ok["expires_at"] == expiresAt && ok["refreshed_at"] == generatedAt
    ensures var no := FailedMeta(k, previous, refreshedAt, message).fields;
            && no["status"] == "failed" && no["refreshed_at"] == refreshedAt && no["error_message"] == message
            && (previous.Some? && previous.value.Dict? && field !in {"status", "refreshed_at", "error_message"} ==>
                  (field in no <==> field in previous.value.fields) &&
                  (field in no ==> no[field] == previous.value.fields[field]))
            && (previous.None? ==> no.Keys == {"snapshot_key", "status", "refreshed_at", "error_message"} &&
                                   no["snapshot_key"] == k)
  {
  }

  function LastGoodTtl(ttl: int): int
  {
    if 3 * ttl > LAST_GOOD_RETENTION_SECONDS then 3 * ttl else LAST_GOOD_RETENTION_SECONDS
  }

  /** The clock readings of the four writes of one success; one instant on Redis, where they are one
      transaction. */
  datatype Clock = Clock(payload: real, meta: real, lastGood: real, lastGoodMeta: real)

  function AfterSuccess(items: Items, k: string, payload: Json, meta: Json, ttl: int, at: Clock): Items
  {
    var i1 := Stored(items, Key(Payload, k), payload, ttl, at.payload);
    var i2 := Stored(i1, Key(Meta, k), meta, ttl, at.meta);
    var i3 := Stored(i2, Key(LastGood, k), payload, LastGoodTtl(ttl), at.lastGood);
    Stored(i3, Key(LastGoodMeta, k), meta, LastGoodTtl(ttl), at.lastGoodMeta)
  }

  /** `shared`: the meta that is updated in place is also the object under the last-good key, which
      happens only in process memory. */
  function AfterFailure(items: Items, k: string, meta: Json, ttl: int, at: real, shared: bool): Items
  {
    var stored := Stored(items, Key(Meta, k), meta, ttl, at);
    if shared && Key(LastGoodMeta, k) in items
    then stored[Key(LastGoodMeta, k) := Entry(items[Key(LastGoodMeta, k)].expiresAt, meta)]
    else stored
  }

  /** The meta of `k` updated in place, under its last-good key too if that holds the same object. */
  function InPlace(items: Items, k: string, meta: Json, shared: bool): Items
    requires Key(Meta, k) in items && (shared ==> Key(LastGoodMeta, k) in items)
  {
    var first := items[Key(Meta, k) := Entry(items[Key(Meta, k)].expiresAt, meta)];
    if shared then first[Key(LastGoodMeta, k) := Entry(items[Key(LastGoodMeta, k)].expiresAt, meta)] else first
  }

  lemma {:induction false} InPlaceThenStored(items: Items, k: string, meta: Json, ttl: int, at: real, shared: bool)
    requires IsSnapshotKey(k) && Key(Meta, k) in items && (shared ==> Key(LastGoodMeta, k) in items)
    ensures Stored(InPlace(items, k, meta, shared), Key(Meta, k), meta, ttl, at) ==
            AfterFailure(items, k, meta, ttl, at, shared)
  {
    OwnKeys(k);
  }

  function Get(items: Items, slot: Slot, k: string, now: real): Option<Json> { Found(items, Key(slot, k), now) }

  /** The fresh payload, or else the last good one. */
  function Read(items: Items, k: string, now: real): Option<Json>
  {
    if Get(items, Payload, k, now).Some? then Get(items, Payload, k, now) else Get(items, LastGood, k, now)
  }

  predicate IsDict(value: Option<Json>) { value.Some? && value.value.Dict? }

  /** `has_last_good` in the cache status. */
  predicate HasLastGood(items: Items, k: string, now: real)
  {
    (Get(items, Payload, k, now).Some? && IsDict(Get(items, Meta, k, now))) ||
    (Get(items, LastGood, k, now).Some? && IsDict(Get(items, LastGoodMeta, k, now)))
  }

  // ---- runs ----

  datatype State = State(now: real, items: Items)

  /** `previous` is whatever meta the failing refresh found when it read, at `read`, some time before;
      `shared` is explained at `AfterFailure`, pinned down for process memory in `SnapshotSharing` and tied
      to the objects in `SnapshotFollows`; `Probe` is the status page's question for the remaining seconds,
      which evicts in process memory; `Evict` is the removal of an expired key. */
  datatype Step =
    | Tick(seconds: real)
    | Success(k: string, payload: Json, meta: Json, ttl: int, at: Clock)
    | Failure(k: string, read: real, previous: Option<Json>, refreshedAt: string, message: string, ttl: int, when: real,
              shared: bool)
    | Probe(slot: Slot, k: string)
    | Evict(slot: Slot, k: string)

  predicate Enabled(s: State, step: Step)
  {
    match step
    case Tick(seconds) => seconds >= 0.0
    case Success(k, _, meta, _, at) =>
      IsSnapshotKey(k) && meta.Dict? && s.now <= at.payload <= at.meta <= at.lastGood <= at.lastGoodMeta
    case Failure(k, _, _, _, _, _, at, _) => IsSnapshotKey(k) && s.now <= at
    case Probe(slot, k) => IsSnapshotKey(k) && slot == Payload
    case Evict(slot, k) => IsSnapshotKey(k)
  }

  function Apply(s: State, step: Step): State
  {
    match step
    case Tick(seconds) => s.(now := s.now + seconds)
    case Success(k, payload, meta, ttl, at) => State(at.lastGoodMeta, AfterSuccess(s.items, k, payload, meta, ttl, at))
    case Failure(k, _, previous, refreshedAt, message, ttl, at, shared) =>
      State(at, AfterFailure(s.items, k, FailedMeta(k, previous, refreshedAt, message), ttl, at, shared))
    case Probe(slot, k) => s.(items := Kept(s.items, Key(slot, k), Lasts(s.items, Key(slot, k), s.now)))
    case Evict(slot, k) => s.(items := Kept(s.items, Key(slot, k), Live(s.items, Key(slot, k), s.now)))
  }

  const START := State(0.0, map[])

  function After(steps: seq<Step>): State
  {
    if steps == [] then START else Apply(After(steps[..|steps| - 1]), steps[|steps| - 1])
  }

  predicate Schedule(steps: seq<Step>)
  {
    steps == [] || (Schedule(steps[..|steps| - 1]) && Enabled(After(steps[..|steps| - 1]), steps[|steps| - 1]))
  }

  /** The simple form: the most recent success of `k`, kept until its retention runs out. */
  datatype Good = Good(payload: Json, freshUntil: real, until: real)

  function GoodOf(step: Step): Good
    requires step.Success?
  {
    Good(step.payload, step.at.payload + (if step.ttl < 1 then 1.0 else step.ttl as real),
         step.at.lastGood + LastGoodTtl(step.ttl) as real)
  }

  function Latest(steps: seq<Step>, k: string): Option<Good>
  {
    if steps == [] then None
    else
      var step := steps[|steps| - 1];
      if step.Success? && step.k == k then Some(GoodOf(step))
      else Latest(steps[..|steps| - 1], k)
  }

  /** The four keys of `k` against the simple form. */
  predicate Agree(s: State, k: string, good: Option<Good>)
  {
    var newest := Key(Payload, k);
    var last := Key(LastGood, k);
    var lastMeta := Key(LastGoodMeta, k);
    match good
    case None => !Live(s.items, newest, s.now) && !Live(s.items, last, s.now) && !Live(s.items, lastMeta, s.now)
    case Some(g) =>
      g.freshUntil <= g.until &&
      (Live(s.items, newest, s.now) ==>
       s.items[newest].value == g.payload && s.items[newest].expiresAt == g.freshUntil) &&
      (g.freshUntil - s.now >= 1.0 ==> Live(s.items, newest, s.now)) &&
      (Live(s.items, last, s.now) ==> s.items[last].value == g.payload) &&
      (Live(s.items, last, s.now) <==> g.until > s.now) &&
      (last in s.items ==> s.items[last].expiresAt == g.until) &&
      (g.until > s.now ==> Live(s.items, lastMeta, s.now) && s.items[lastMeta].value.Dict?) &&
      (lastMeta in s.items ==> s.items[lastMeta].expiresAt >= g.until)
  }

  lemma {:induction false} OtherKeys(k: string, j: string)
    requires IsSnapshotKey(k) && IsSnapshotKey(j) && j != k
    ensures forall slot, other :: Key(slot, k) != Key(other, j)
  {
    forall slot, other ensures Key(slot, k) != Key(other, j) {
      if Key(slot, k) == Key(other, j) { KeysDistinct(slot, k, other, j); }
    }
  }

  lemma {:induction false} OwnKeys(k: string)
    requires IsSnapshotKey(k)
    ensures forall slot, other :: slot != other ==> Key(slot, k) != Key(other, k)
  {
    forall slot, other | slot != other ensures Key(slot, k) != Key(other, k) {
      if Key(slot, k) == Key(other, k) { KeysDistinct(slot, k, other, k); }
    }
  }

  lemma {:induction false} OtherSuccessAgrees(s: State, step: Step, j: string, good: Option<Good>)
    requires step.Success? && Enabled(s, step) && IsSnapshotKey(j) && step.k != j && Agree(s, j, good)
    ensures Agree(Apply(s, step), j, good)
  {
    OtherKeys(step.k, j);
  }

  lemma {:induction false} OwnSuccessAgrees(s: State, step: Step)
    requires step.Success? && Enabled(s, step)
    ensures Agree(Apply(s, step), step.k, Some(GoodOf(step)))
  {
    OwnKeys(step.k);
  }

  lemma {:induction false} FailureAgrees(s: State, step: Step, j: string, good: Option<Good>)
    requires step.Failure? && Enabled(s, step) && IsSnapshotKey(j) && Agree(s, j, good)
    ensures Agree(Apply(s, step), j, good)
  {
    if step.k == j { OwnKeys(j); } else { OtherKeys(step.k, j); }
  }

  lemma {:induction false} RemovalAgrees(s: State, step: Step, j: string, good: Option<Good>)
    requires (step.Probe? || step.Evict?) && Enabled(s, step) && IsSnapshotKey(j) && Agree(s, j, good)
    ensures Agree(Apply(s, step), j, good)
  {
    if step.k == j { OwnKeys(j); } else { OtherKeys(step.k, j); }
  }

  lemma {:induction false} RunAgrees(steps: seq<Step>, k: string)
    requires Schedule(steps) && IsSnapshotKey(k)
    ensures Agree(After(steps), k, Latest(steps, k))
  {
    if steps != [] {
      var before, step := steps[..|steps| - 1], steps[|steps| - 1];
      RunAgrees(before, k);
      if step.Success? && step.k == k { OwnSuccessAgrees(After(before), step); }
      else if step.Success? { OtherSuccessAgrees(After(before), step, k, Latest(before, k)); }
      else if step.Failure? { FailureAgrees(After(before), step, k, Latest(before, k)); }
      else if !step.Tick? { RemovalAgrees(After(before), step, k, Latest(before, k)); }
    }
  }

  /** In every run a cached read returns the most recent successful payload until its retention runs
      out and nothing afterwards; the fresh payload is that payload too, live while a second of its own
      ttl remains and never after it; and the status page says
      `has_last_good` exactly when such a read would hit. */
  lemma {:induction false} ReadIsLatestSuccess(steps: seq<Step>, k: string)
    requires Schedule(steps) && IsSnapshotKey(k)
    ensures var s, good := After(steps), Latest(steps, k);
            Read(s.items, k, s.now) == if good.Some? && good.value.until > s.now then Some(good.value.payload) else None
    ensures var s, good := After(steps), Latest(steps, k);
            Get(s.items, Payload, k, s.now).Some? ==>
              Get(s.items, Payload, k, s.now) == Get(s.items, LastGood, k, s.now) && good.Some? &&
              good.value.freshUntil > s.now
    ensures var s, good := After(steps), Latest(steps, k);
            good.Some? && good.value.freshUntil - s.now >= 1.0 ==> Get(s.items, Payload, k, s.now).Some?
    ensures var s := After(steps); HasLastGood(s.items, k, s.now) <==> Read(s.items, k, s.now).Some?
  {
    RunAgrees(steps, k);
  }

  lemma {:induction false} LatestIsLast(steps: seq<Step>, i: nat, k: string)
    requires i < |steps| && steps[i].Success? && steps[i].k == k
    requires forall j :: i < j < |steps| ==> !(steps[j].Success? && steps[j].k == k)
    ensures Latest(steps, k) == Some(GoodOf(steps[i]))
  {
    var n := |steps| - 1;
    if i < n {
      LatestIsLast(steps[..n], i, k);
      assert !(steps[n].Success? && steps[n].k == k);
    }
  }

  /** The retention in seconds: from the latest success of `k` on, whatever fails, is probed, expires or
      is stored for other snapshots in between, a read returns its payload for two days or three times
      its ttl, whichever is longer, counted from the write of the last-good key, and nothing later; the
      fresh payload is gone after its ttl, and a second before that at the earliest. */
  lemma {:induction false} KeptForTwoDays(steps: seq<Step>, i: nat, k: string)
    requires Schedule(steps) && IsSnapshotKey(k) && i < |steps| && steps[i].Success? && steps[i].k == k
    requires forall j :: i < j < |steps| ==> !(steps[j].Success? && steps[j].k == k)
    ensures var s, at, ttl := After(steps), steps[i].at, steps[i].ttl as real;
            Read(s.items, k, s.now) ==
            if s.now < at.lastGood + 172800.0 || s.now < at.lastGood + 3.0 * ttl then Some(steps[i].payload) else None
    ensures var s, at, ttl := After(steps), steps[i].at, steps[i].ttl as real;
            && (s.now + 1.0 <= at.payload + 1.0 || s.now + 1.0 <= at.payload + ttl ==>
                  Get(s.items, Payload, k, s.now) == Some(steps[i].payload))
            && (s.now >= at.payload + 1.0 && s.now >= at.payload + ttl ==> Get(s.items, Payload, k, s.now) == None)
  {
    ReadIsLatestSuccess(steps, k);
    LatestIsLast(steps, i, k);
  }

  lemma {:induction false} NothingLatest(steps: seq<Step>, k: string)
    requires forall j :: 0 <= j < |steps| ==> !(steps[j].Success? && steps[j].k == k)
    ensures Latest(steps, k) == None
  {
    var n := |steps| - 1;
    if steps != [] {
      NothingLatest(steps[..n], k);
      assert !(steps[n].Success? && steps[n].k == k);
    }
  }

  /** Before the first success of `k` a read returns nothing. */
  lemma {:induction false} NothingBeforeSuccess(steps: seq<Step>, k: string)
    requires Schedule(steps) && IsSnapshotKey(k)
    requires forall j :: 0 <= j < |steps| ==> !(steps[j].Success? && steps[j].k == k)
    ensures var s := After(steps); Read(s.items, k, s.now) == None && !HasLastGood(s.items, k, s.now)
  {
    ReadIsLatestSuccess(steps, k);
    NothingLatest(steps, k);
  }

  /** A failed refresh changes no payload, fresh or last good, of any snapshot, and only the meta keys
      of its own. */
  lemma {:induction false} FailureKeepsPayloads(s: State, step: Step, slot: Slot, j: string, now: real)
    requires step.Failure? && Enabled(s, step) && IsSnapshotKey(j)
    requires slot.Payload? || slot.LastGood? || j != step.k
    ensures Get(Apply(s, step).items, slot, j, now) == Get(s.items, slot, j, now)
  {
    KeysApart(slot, j, Meta, step.k);
    KeysApart(slot, j, LastGoodMeta, step.k);
  }

  /** It leaves its last-good meta alone exactly when that is absent, or not the object being updated,
      or already equal. */
  lemma {:induction false} FailureAndLastGoodMeta(s: State, step: Step, now: real)
    requires step.Failure? && Enabled(s, step)
    ensures var meta := FailedMeta(step.k, step.previous, step.refreshedAt, step.message);
            Get(Apply(s, step).items, Meta, step.k, step.when) == Some(meta) &&
            (Get(Apply(s, step).items, LastGoodMeta, step.k, now) == Get(s.items, LastGoodMeta, step.k, now) <==>
             !step.shared || Get(s.items, LastGoodMeta, step.k, now) in {None, Some(meta)})
  {
    KeysApart(Meta, step.k, LastGoodMeta, step.k);
  }

  lemma {:induction false} KeysApart(slot: Slot, a: string, other: Slot, b: string)
    requires IsSnapshotKey(a) && IsSnapshotKey(b)
    ensures Key(slot, a) == Key(other, b) <==> slot == other && a == b
  {
    if Key(slot, a) == Key(other, b) { KeysDistinct(slot, a, other, b); }
  }

  /** A probe or an eviction never changes what a read returns. */
  lemma {:induction false} ProbeIsInvisible(steps: seq<Step>, step: Step, k: string)
    requires Schedule(steps) && Enabled(After(steps), step) && (step.Probe? || step.Evict?) && IsSnapshotKey(k)
    ensures var s := After(steps); Read(Apply(s, step).items, k, s.now) == Read(s.items, k, s.now)
  {
    var more := steps + [step];
    assert more[..|more| - 1] == steps;
    ReadIsLatestSuccess(steps, k);
    ReadIsLatestSuccess(more, k);
  }

  /** A read looks at its two keys at two instants with any steps in between: it returns the most
      recent success at the first instant or the one at the second, never anything older. */
  lemma {:induction false} SplitRead(steps: seq<Step>, between: seq<Step>, k: string)
    requires Schedule(steps) && Schedule(steps + between) && IsSnapshotKey(k)
    ensures var s, t := After(steps), After(steps + between);
            var first, second := Get(s.items, Payload, k, s.now), Get(t.items, LastGood, k, t.now);
            (first.Some? ==>
              first == Read(s.items, k, s.now) && Latest(steps, k).Some? &&
              first == Some(Latest(steps, k).value.payload)) &&
            (first.None? ==> second == Read(t.items, k, t.now))
  {
    RunAgrees(steps, k);
    RunAgrees(steps + between, k);
  }
}
