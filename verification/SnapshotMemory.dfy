/** The snapshot cache on the process-memory backend, where a read returns and a write stores the very
    object: one meta dictionary sits under two keys, and the failure path updates it in place. */
module SnapshotMemory {
  import opened Wrappers
  import opened MemoryStore
  import opened SnapshotCache
  import opened SnapshotSharing

  /** A meta dictionary; its `snapshot_key` never changes. */
  class MetaObject {
    const snapshot: string
    var fields: map<string, string>

    constructor (k: string, initial: map<string, string>)
      ensures snapshot == k && fields == initial
    {
      snapshot := k;
      fields := initial;
    }
  }

  datatype Content = Plain(json: Json) | Shared(meta: MetaObject)

  datatype Item = Item(expiresAt: real, content: Content)

  ghost predicate OneMeta(items: map<string, Item>, k: string)
  {
    Key(Meta, k) in items && Key(LastGoodMeta, k) in items &&
    items[Key(Meta, k)].content.Shared? && items[Key(Meta, k)].content == items[Key(LastGoodMeta, k)].content
  }

  ghost function OwnKeySet(k: string): set<string>
  {
    {Key(Payload, k), Key(Meta, k), Key(LastGood, k), Key(LastGoodMeta, k)}
  }

  class Snapshots {
    var items: map<string, Item>

    ghost function Metas(): set<object>
      reads this
    {
      set key | key in items && items[key].content.Shared? :: items[key].content.meta
    }

    /** What a reader of each key sees. */
    ghost function View(): Items
      reads this, Metas()
    {
      map key | key in items :: Entry(items[key].expiresAt, Seen(items[key].content))
    }

    ghost function Seen(content: Content): Json
      reads match content case Plain(_) => {} case Shared(meta) => {meta}
    {
      match content
      case Plain(json) => json
      case Shared(meta) => Dict(meta.fields)
    }

    /** A meta object sits under no other keys than the two of its snapshot. */
    ghost predicate Valid()
      reads this
    {
      forall key :: key in items ==> Fits(key, items[key].content)
    }

    ghost predicate Fits(key: string, content: Content)
    {
      content.Shared? ==>
        IsSnapshotKey(content.meta.snapshot) &&
        (key == Key(Meta, content.meta.snapshot) || key == Key(LastGoodMeta, content.meta.snapshot))
    }

    /** Both meta keys of `k` hold the one object. */
    ghost predicate OneObject(k: string)
      reads this
    {
      OneMeta(items, k)
    }

    constructor ()
      ensures Valid() && View() == map[]
    {
      items := map[];
    }

    method Get(key: string, now: real) returns (value: Option<Content>)
      requires Valid()
      modifies this
      ensures Valid()
      ensures Metas() <= old(Metas())
      ensures value == None <==> Found(old(View()), key, now) == None
      ensures value.Some? ==> Some(Seen(value.value)) == Found(old(View()), key, now)
      ensures View() == Kept(old(View()), key, Live(old(View()), key, now))
      ensures items == if Live(old(View()), key, now) then old(items) else old(items) - {key}
    {
      if key !in items {
        return None;
      }
      var item := items[key];
      if item.expiresAt <= now {
        items := items - {key};
        return None;
      }
      value := Some(item.content);
    }

    /** The remaining whole seconds; less than one of them evicts the entry. */
    method Ttl(key: string, now: real) returns (seconds: Option<int>)
      requires Valid()
      modifies this
      ensures Valid() && Metas() <= old(Metas())
      ensures seconds == None <==> key !in old(items)
      ensures key in old(items) && !Lasts(old(View()), key, now) ==> seconds == Some(-2)
      ensures Lasts(old(View()), key, now) ==>
                seconds.Some? && seconds.value as real <= old(items)[key].expiresAt - now < seconds.value as real + 1.0
      ensures View() == Kept(old(View()), key, Lasts(old(View()), key, now))
      ensures items == if Lasts(old(View()), key, now) then old(items) else old(items) - {key}
    {
      assert Lasts(View(), key, now) <==> key in items && items[key].expiresAt - now >= 1.0;
      seconds := None;
      if key in items {
        seconds := Some(Truncated(items[key].expiresAt - now));
      }
      if seconds == None || seconds.value <= 0 {
        Remove(key);
        seconds := if seconds == None then None else Some(-2);
      }
    }

    method Remove(key: string)
      requires Valid()
      modifies this
      ensures Valid() && Metas() <= old(Metas())
      ensures items == old(items) - {key} && View() == old(View()) - {key}
    {
      items := items - {key};
    }

    method ReadCachedPayload(k: string, first: real, second: real) returns (payload: Option<Content>)
      requires Valid() && IsSnapshotKey(k) && first <= second
      modifies this
      ensures Valid()
      ensures var newest := Found(old(View()), Key(Payload, k), first);
              var hit := if newest.Some? then newest else Found(old(View()), Key(LastGood, k), second);
              (payload.Some? <==> hit.Some?) && (payload.Some? ==> hit == Some(Seen(payload.value)))
    {
      payload := Get(Key(Payload, k), first);
      if payload == None {
        KeysApart(Payload, k, LastGood, k);
        payload := Get(Key(LastGood, k), second);
      }
    }

    method Put(key: string, content: Content, ttl: int, now: real)
      requires Valid() && Fits(key, content)
      modifies this
      ensures Valid()
      ensures items == old(items)[key := Item(now + (if ttl < 1 then 1.0 else ttl as real), content)]
      ensures View() == Stored(old(View()), key, Seen(content), ttl, now)
      ensures Metas() <= old(Metas()) + (if content.Shared? then {content.meta} else {})
    {
      items := items[key := Item(now + (if ttl < 1 then 1 else ttl) as real, content)];
    }

    /** A payload under one key and a meta object under another. */
    method PutPair(slot: Slot, metaSlot: Slot, k: string, payload: Json, meta: MetaObject, ttl: int, at: real,
                   metaAt: real)
      requires Valid() && IsSnapshotKey(k) && meta.snapshot == k
      requires (slot == Payload && metaSlot == Meta) || (slot == LastGood && metaSlot == LastGoodMeta)
      modifies this
      ensures Valid()
      ensures View() ==
              Stored(Stored(old(View()), Key(slot, k), payload, ttl, at), Key(metaSlot, k), Dict(meta.fields), ttl,
                     metaAt)
      ensures Holds(metaSlot, k, meta)
      ensures metaSlot == LastGoodMeta && old(Holds(Meta, k, meta)) ==> Holds(Meta, k, meta)
      ensures Metas() <= old(Metas()) + {meta}
      ensures Elsewhere(k) == old(Elsewhere(k))
    {
      OwnKeys(k);
      Put(Key(slot, k), Plain(payload), ttl, at);
      Put(Key(metaSlot, k), Shared(meta), ttl, metaAt);
    }

    /** The store without the four keys of `k`. */
    ghost function Elsewhere(k: string): map<string, Item>
      reads this
    {
      items - OwnKeySet(k)
    }

    ghost predicate Holds(slot: Slot, k: string, meta: MetaObject)
      reads this
    {
      Key(slot, k) in items && items[Key(slot, k)].content == Shared(meta)
    }

    method WriteSuccess(k: string, payload: Json, generatedAt: string, expiresAt: string, ttl: int, at: Clock)
      requires Valid() && IsSnapshotKey(k)
      modifies this
      ensures Valid() && OneObject(k)
      ensures View() == AfterSuccess(old(View()), k, payload, SuccessMeta(k, generatedAt, expiresAt), ttl, at)
      ensures fresh(Metas() - old(Metas())) && Elsewhere(k) == old(Elsewhere(k))
    {
      WriteMany(k, payload, SuccessMeta(k, generatedAt, expiresAt).fields, ttl, at);
    }

    /** The four writes around one new meta object. */
    method WriteMany(k: string, payload: Json, fields: map<string, string>, ttl: int, at: Clock)
      requires Valid() && IsSnapshotKey(k)
      modifies this
      ensures Valid() && OneObject(k)
      ensures View() == AfterSuccess(old(View()), k, payload, Dict(fields), ttl, at)
      ensures fresh(Metas() - old(Metas())) && Elsewhere(k) == old(Elsewhere(k))
    {
      var meta := new MetaObject(k, fields);
      assert View() == old(View());
      PutPair(Payload, Meta, k, payload, meta, ttl, at.payload, at.meta);
      PutPair(LastGood, LastGoodMeta, k, payload, meta, LastGoodTtl(ttl), at.lastGood, at.lastGoodMeta);
    }

    /** The meta object of `k` gets new fields: the view changes under its one or two keys. */
    method Update(k: string, meta: MetaObject, fields: map<string, string>)
      requires Valid() && IsSnapshotKey(k)
      requires Key(Meta, k) in items && items[Key(Meta, k)].content == Shared(meta)
      modifies meta
      ensures items == old(items) && meta.fields == fields
      ensures View() == InPlace(old(View()), k, Dict(fields), OneObject(k))
    {
      OwnKeys(k);
      if meta.snapshot != k { OtherKeys(k, meta.snapshot); }
      meta.fields := fields;
    }

    /** A live meta is updated in place and stored again: the last-good key sees it if it is shared. */
    method UpdateMeta(k: string, refreshedAt: string, message: string, ttl: int, write: real)
      requires Valid() && IsSnapshotKey(k)
      requires Key(Meta, k) in items && items[Key(Meta, k)].content.Shared?
      modifies this, Metas()
      ensures Valid() && OneObject(k) == old(OneObject(k))
      ensures Metas() <= old(Metas()) && Elsewhere(k) == old(Elsewhere(k))
      ensures var meta := FailedMeta(k, Some(old(View())[Key(Meta, k)].value), refreshedAt, message);
              View() == AfterFailure(old(View()), k, meta, ttl, write, old(OneObject(k)))
    {
      OwnKeys(k);
      var meta := items[Key(Meta, k)].content.meta;
      if meta.snapshot != k { OtherKeys(k, meta.snapshot); }
      var fields := FailedFields(meta.fields, refreshedAt, message);
      ghost var before, shared := View(), OneObject(k);
      assert before[Key(Meta, k)].value == Dict(meta.fields);
      InPlaceThenStored(before, k, Dict(fields), ttl, write, shared);
      Update(k, meta, fields);
      Restore(k, meta, ttl, write);
    }

    /** The same object goes back under the meta key with a new expiry. */
    method Restore(k: string, meta: MetaObject, ttl: int, write: real)
      requires Valid() && IsSnapshotKey(k) && Holds(Meta, k, meta)
      modifies this
      ensures Valid() && OneObject(k) == old(OneObject(k))
      ensures Metas() <= old(Metas()) && Elsewhere(k) == old(Elsewhere(k))
      ensures View() == Stored(old(View()), Key(Meta, k), Dict(meta.fields), ttl, write)
    {
      OwnKeys(k);
      Put(Key(Meta, k), Shared(meta), ttl, write);
    }

    /** No live meta object: a new one goes under the meta key alone. */
    method NewFailure(k: string, refreshedAt: string, message: string, ttl: int, read: real, write: real)
      requires Valid() && IsSnapshotKey(k)
      requires !(Live(View(), Key(Meta, k), read) && items[Key(Meta, k)].content.Shared?)
      modifies this
      ensures Valid() && !OneObject(k)
      ensures fresh(Metas() - old(Metas())) && Elsewhere(k) == old(Elsewhere(k))
      ensures var meta := FailedMeta(k, Found(old(View()), Key(Meta, k), read), refreshedAt, message);
              View() == AfterFailure(old(View()), k, meta, ttl, write, false)
    {
      var key := Key(Meta, k);
      var plain := key in items && items[key].expiresAt > read && items[key].content.json.Dict?;
      var base := if plain then items[key].content.json.fields else NewMeta(k);
      StoreNew(k, FailedFields(base, refreshedAt, message), ttl, write);
    }

    method StoreNew(k: string, fields: map<string, string>, ttl: int, write: real)
      requires Valid() && IsSnapshotKey(k)
      modifies this
      ensures Valid() && !OneObject(k)
      ensures fresh(Metas() - old(Metas())) && Elsewhere(k) == old(Elsewhere(k))
      ensures View() == Stored(old(View()), Key(Meta, k), Dict(fields), ttl, write)
    {
      OwnKeys(k);
      var meta := new MetaObject(k, fields);
      assert View() == old(View());
      assert Key(LastGoodMeta, k) in items ==> items[Key(LastGoodMeta, k)].content != Shared(meta);
      Put(Key(Meta, k), Shared(meta), ttl, write);
    }

    /** As on Redis, except that a live meta shared with the last-good key changes there as well; after
        it the two keys hold one object exactly when they did and it was live. */
    method WriteFailed(k: string, refreshedAt: string, message: string, ttl: int, read: real, write: real)
      requires Valid() && IsSnapshotKey(k)
      modifies this, Metas()
      ensures Valid()
      ensures OneObject(k) == (old(OneObject(k)) && Live(old(View()), Key(Meta, k), read))
      ensures fresh(Metas() - old(Metas())) && Elsewhere(k) == old(Elsewhere(k))
      ensures var meta := FailedMeta(k, Found(old(View()), Key(Meta, k), read), refreshedAt, message);
              View() == AfterFailure(old(View()), k, meta, ttl, write,
                                     old(OneObject(k)) && Live(old(View()), Key(Meta, k), read))
    {
      var key := Key(Meta, k);
      if key in items && items[key].expiresAt > read && items[key].content.Shared? {
        UpdateMeta(k, refreshedAt, message, ttl, write);
      } else {
        NewFailure(k, refreshedAt, message, ttl, read, write);
      }
    }
  }

  /** A refresh that fails while the meta of the one before is still live: the last-good meta of the
      success now reports the failure, although its payload is intact. */
  method FailedAfterSuccess(cache: Snapshots, k: string, payload: Json, generatedAt: string, expiresAt: string,
                            ttl: int, at: Clock, refreshedAt: string, message: string, read: real, write: real)
    requires cache.Valid() && IsSnapshotKey(k)
    requires at.payload <= at.meta <= at.lastGood <= at.lastGoodMeta <= read <= write
    requires write < at.lastGood + LastGoodTtl(ttl) as real
    requires read < at.meta + (if ttl < 1 then 1.0 else ttl as real)
    modifies cache, cache.Metas()
    ensures cache.Valid()
    ensures Found(cache.View(), Key(LastGood, k), write) == Some(payload)
    ensures Found(cache.View(), Key(LastGoodMeta, k), write) ==
            Some(FailedMeta(k, Some(SuccessMeta(k, generatedAt, expiresAt)), refreshedAt, message))
  {
    var meta := SuccessMeta(k, generatedAt, expiresAt);
    DamageOnItems(cache.View(), k, payload, meta, ttl, at, FailedMeta(k, Some(meta), refreshedAt, message), read,
                  write);
    cache.WriteSuccess(k, payload, generatedAt, expiresAt, ttl, at);
    cache.WriteFailed(k, refreshedAt, message, ttl, read, write);
  }
}
