/** The process-memory branch of the cache client: keyed values with an expiry, evicted lazily by the
    reads themselves, and the lease built from one read and one write without an await between them.
    Every clock reading is a parameter. */
module MemoryStore {
  import opened Wrappers

  datatype Json = Dict(fields: map<string, string>) | List(elements: seq<string>)

  datatype Entry = Entry(expiresAt: real, value: Json)

  type Items = map<string, Entry>

  /** Python's `int()` on a float: toward zero. */
  function Truncated(x: real): (r: int)
    ensures x >= 0.0 ==> r as real <= x < r as real + 1.0
    ensures r <= 0 <==> x < 1.0
  {
    if x >= 0.0 then x.Floor else -((-x).Floor)
  }

  predicate Live(items: Items, key: string, now: real) { key in items && items[key].expiresAt > now }

  function Found(items: Items, key: string, now: real): Option<Json>
  {
    if Live(items, key, now) then Some(items[key].value) else None
  }

  /** At least one whole second remains. */
  predicate Lasts(items: Items, key: string, now: real) { key in items && items[key].expiresAt - now >= 1.0 }

  /** The store after a read of `key` that keeps it only if `keep`. */
  function Kept(items: Items, key: string, keep: bool): Items { if keep then items else items - {key} }

  function Stored(items: Items, key: string, value: Json, ttl: int, now: real): Items
  {
    items[key := Entry(now + (if ttl < 1 then 1.0 else ttl as real), value)]
  }

  function Owned(owner: string): Json { Dict(map["owner" := owner]) }

  /** `current.get("owner")`, when `current` is a dictionary. */
  function OwnerOf(current: Option<Json>): Option<string>
  {
    if current.Some? && current.value.Dict? && "owner" in current.value.fields
    then Some(current.value.fields["owner"])
    else None
  }

  predicate HeldBy(items: Items, key: string, owner: string, now: real)
  {
    OwnerOf(Found(items, key, now)) == Some(owner)
  }

  /** A live dictionary that names somebody else stands in the way; anything else does not. */
  predicate Blocked(items: Items, key: string, owner: string, now: real)
  {
    OwnerOf(Found(items, key, now)).Some? && !HeldBy(items, key, owner, now)
  }

  /** A value stored for `ttl` seconds is found for exactly that long, and at least a second, and other
      keys are as they were. */
  lemma {:induction false} FoundForItsSeconds(items: Items, key: string, value: Json, ttl: int, at: real,
                                              other: string, now: real)
    requires key != other
    ensures Found(Stored(items, key, value, ttl, at), key, now) ==
            if now < at + 1.0 || now < at + ttl as real then Some(value) else None
    ensures Found(Stored(items, key, value, ttl, at), other, now) == Found(items, other, now)
  {
  }

  class Store {
    var items: Items

    constructor ()
      ensures items == map[]
    {
      items := map[];
    }

    method Get(key: string, now: real) returns (value: Option<Json>)
      modifies this
      ensures value == Found(old(items), key, now)
      ensures items == Kept(old(items), key, Live(old(items), key, now))
    {
      if key !in items {
        return None;
      }
      var item := items[key];
      if item.expiresAt <= now {
        items := items - {key};
        return None;
      }
      value := Some(item.value);
    }

    method Set(key: string, value: Json, ttl: int, now: real)
      modifies this
      ensures items == Stored(old(items), key, value, ttl, now)
    {
      items := items[key := Entry(now + (if ttl < 1 then 1 else ttl) as real, value)];
    }

    /** The remaining whole seconds; less than one of them evicts the entry. */
    method Ttl(key: string, now: real) returns (seconds: Option<int>)
      modifies this
      ensures key !in old(items) ==> seconds == None
      ensures key in old(items) && !Lasts(old(items), key, now) ==> seconds == Some(-2)
      ensures Lasts(old(items), key, now) ==>
                seconds.Some? && seconds.value as real <= old(items)[key].expiresAt - now < seconds.value as real + 1.0
      ensures items == Kept(old(items), key, Lasts(old(items), key, now))
    {
      if key !in items {
        return None;
      }
      var ttl := Truncated(items[key].expiresAt - now);
      if ttl <= 0 {
        items := items - {key};
        return Some(-2);
      }
      seconds := Some(ttl);
    }

    method AcquireLease(key: string, owner: string, ttl: int, read: real, write: real) returns (acquired: bool)
      modifies this
      ensures acquired == !Blocked(old(items), key, owner, read)
      ensures items == if acquired then Stored(old(items), key, Owned(owner), ttl, write) else old(items)
    {
      var current := Get(key, read);
      if current.Some? && current.value.Dict? && OwnerOf(current) != None && OwnerOf(current) != Some(owner) {
        return false;
      }
      Set(key, Owned(owner), ttl, write);
      acquired := true;
    }

    method ReleaseLease(key: string, owner: string, now: real)
      modifies this
      ensures items == Kept(old(items), key, Live(old(items), key, now) && !HeldBy(old(items), key, owner, now))
    {
      var current := Get(key, now);
      if current.Some? && current.value.Dict? && OwnerOf(current) == Some(owner) {
        items := items - {key};
      }
    }
  }
}
