/**
  The tagged cache: values under their keys, and for each tag the keys to drop when
  the tag is invalidated. Operations run one after the other.
 */
module TagCache {
  import opened Tables

  type Key = string
  type Tag = string

  /** A cached or fetched value: nothing, or an object by its content. */
  datatype Value = Null | Object(content: nat)

  datatype Stored = Stored(value: Value, expiresAt: int)

  /** Redis as the cache uses it: values, the tags of a key, the keys of a tag. The last two never expire. */
  datatype Cache = Cache(values: map<Key, Stored>, tagsOf: map<Key, set<Tag>>, keysOf: map<Tag, set<Key>>)

  const EMPTY := Cache(map[], map[], map[])
  const DEFAULT_TTL := 300

  function SetAt<K, V>(sets: map<K, set<V>>, k: K): set<V> {
    if k in sets then sets[k] else {}
  }

  function ToSet<T(==)>(items: seq<T>): (r: set<T>) {
    set t | t in items
  }

  // ---------- Operations ----------

  function Get(c: Cache, key: Key, now: int): Value {
    if key in c.values && now < c.values[key].expiresAt then c.values[key].value else Null
  }

  function Set(c: Cache, key: Key, value: Value, ttl: nat, now: int): Cache {
    c.(values := c.values[key := Stored(value, now + if ttl == 0 then DEFAULT_TTL else ttl)])
  }

  function Delete(c: Cache, key: Key): Cache {
    c.(values := c.values - {key})
  }

  /** Adding no member is a Redis error, which reaches the caller after the value was written. */
  function SetWithTag(c: Cache, key: Key, value: Value, tags: seq<Tag>, ttl: nat, now: int): Cache {
    var c1 := Set(c, key, value, ttl, now);
    if tags == [] then c1
    else
      c1.(tagsOf := c.tagsOf[key := SetAt(c.tagsOf, key) + ToSet(tags)],
          keysOf := AddedTo(c.keysOf, key, ToSet(tags)))
  }

  /** A write under tags adds them to the key's; without any it stores the value only. */
  lemma TagsAdded(c: Cache, key: Key, value: Value, tags: seq<Tag>, ttl: nat, now: int, other: Key)
    ensures var t := SetWithTag(c, key, value, tags, ttl, now);
            && t.values == c.values[key := Stored(value, now + (if ttl == 0 then 300 else ttl))]
            && (tags == [] ==> t == c.(values := t.values))
            && SetAt(t.tagsOf, other) == SetAt(c.tagsOf, other) + (if other == key then set tag | tag in tags else {})
  {}

  function AddedTo(keysOf: map<Tag, set<Key>>, key: Key, tags: set<Tag>): map<Tag, set<Key>> {
    map t | t in keysOf.Keys + tags :: SetAt(keysOf, t) + if t in tags then {key} else {}
  }

  lemma AddedToNone(keysOf: map<Tag, set<Key>>, key: Key)
    ensures AddedTo(keysOf, key, {}) == keysOf
  {
    var r := AddedTo(keysOf, key, {});
    assert r.Keys == keysOf.Keys;
    assert forall t :: t in keysOf ==> r[t] == keysOf[t] + {} == keysOf[t];
  }

  lemma AddedToOneMore(keysOf: map<Tag, set<Key>>, key: Key, tags: set<Tag>, tag: Tag)
    ensures AddedTo(keysOf, key, tags + {tag})
         == AddedTo(keysOf, key, tags)[tag := SetAt(AddedTo(keysOf, key, tags), tag) + {key}]
  {
    var less, more := AddedTo(keysOf, key, tags), AddedTo(keysOf, key, tags + {tag});
    var added := less[tag := SetAt(less, tag) + {key}];
    assert more.Keys == added.Keys;
    forall t | t in more
      ensures more[t] == added[t]
    {
      assert more[t] == SetAt(keysOf, t) + if t in tags + {tag} then {key} else {};
    }
  }

  function InvalidateByTag(c: Cache, tag: Tag): Cache {
    var keys := SetAt(c.keysOf, tag);
    Cache(c.values - keys, c.tagsOf - keys, c.keysOf - {tag})
  }

  // ---------- What the tag index knows, over any run ----------

  datatype Op =
    | SetOp(key: Key, value: Value, ttl: nat, now: int)
    | TaggedOp(key: Key, value: Value, tags: seq<Tag>, ttl: nat, now: int)
    | DeleteOp(key: Key)
    | InvalidateOp(tag: Tag)
    | ClearOp

  function Apply(c: Cache, op: Op): Cache {
    match op
    case SetOp(key, value, ttl, now) => Set(c, key, value, ttl, now)
    case TaggedOp(key, value, tags, ttl, now) => SetWithTag(c, key, value, tags, ttl, now)
    case DeleteOp(key) => Delete(c, key)
    case InvalidateOp(tag) => InvalidateByTag(c, tag)
    case ClearOp => EMPTY
  }

  function After(ops: seq<Op>): Cache {
    if ops == [] then EMPTY else Apply(After(ops[..|ops| - 1]), ops[|ops| - 1])
  }

  /** `key` was written under `tag`, and `tag` was not invalidated since. */
  predicate TaggedSince(ops: seq<Op>, key: Key, tag: Tag) {
    if ops == [] then false
    else
      var earlier, op := ops[..|ops| - 1], ops[|ops| - 1];
      if op.TaggedOp? && op.key == key && tag in op.tags then true
      else if op.ClearOp? || op == InvalidateOp(tag) then false
      else TaggedSince(earlier, key, tag)
  }

  /** The tags of the last write of `key`; a plain write has none. */
  function LastTags(ops: seq<Op>, key: Key): seq<Tag> {
    if ops == [] then []
    else
      var op := ops[|ops| - 1];
      if op.TaggedOp? && op.key == key then op.tags
      else if op.SetOp? && op.key == key then []
      else LastTags(ops[..|ops| - 1], key)
  }

  /** The tags of the last tagged write of `key`, even when a plain write came later. */
  function LastTaggedWrite(ops: seq<Op>, key: Key): seq<Tag> {
    if ops == [] then []
    else
      var op := ops[|ops| - 1];
      if op.TaggedOp? && op.key == key then op.tags else LastTaggedWrite(ops[..|ops| - 1], key)
  }

  /** The index, exactly: deletes and expiry leave references behind, only invalidation removes them. */
  lemma {:induction false} IndexExact(ops: seq<Op>, key: Key, tag: Tag)
    ensures key in SetAt(After(ops).keysOf, tag) <==> TaggedSince(ops, key, tag)
  {
    if ops != [] {
      IndexExact(ops[..|ops| - 1], key, tag);
    }
  }

  /** Every stored value is referenced under each tag of the write that stored it. */
  lemma {:induction false} StoredAreIndexed(ops: seq<Op>, key: Key, tag: Tag)
    requires key in After(ops).values && tag in LastTags(ops, key)
    ensures key in SetAt(After(ops).keysOf, tag)
  {
    var earlier, op := ops[..|ops| - 1], ops[|ops| - 1];
    if !((op.TaggedOp? || op.SetOp?) && op.key == key) {
      StoredAreIndexed(earlier, key, tag);
    }
  }

  /** So invalidating a tag removes every value written under it. */
  lemma {:induction false} InvalidationRemoves(ops: seq<Op>, key: Key, tag: Tag, now: int)
    requires tag in LastTags(ops, key)
    ensures key !in After(ops + [InvalidateOp(tag)]).values
    ensures Get(After(ops + [InvalidateOp(tag)]), key, now) == Null
  {
    assert (ops + [InvalidateOp(tag)])[..|ops|] == ops;
    if key in After(ops).values {
      StoredAreIndexed(ops, key, tag);
    }
  }

  /** Nothing else is lost: a value survives unless it was once written under the tag. */
  lemma InvalidationKeeps(ops: seq<Op>, key: Key, tag: Tag, now: int)
    ensures Get(After(ops + [InvalidateOp(tag)]), key, now)
         == (if TaggedSince(ops, key, tag) then Null else Get(After(ops), key, now))
  {
    assert (ops + [InvalidateOp(tag)])[..|ops|] == ops;
    IndexExact(ops, key, tag);
  }

  // ---------- What a read returns ----------

  predicate Writes(op: Op, key: Key) {
    (op.SetOp? || op.TaggedOp?) && op.key == key
  }

  /** The value the last write of `key` stored, and until when, unless it was removed since. */
  function LastWrite(ops: seq<Op>, key: Key): Option<Stored> {
    if ops == [] then None
    else
      var earlier, op := ops[..|ops| - 1], ops[|ops| - 1];
      if Writes(op, key) then Some(Stored(op.value, op.now + if op.ttl == 0 then DEFAULT_TTL else op.ttl))
      else if op == DeleteOp(key) || op.ClearOp? || (op.InvalidateOp? && TaggedSince(earlier, key, op.tag)) then None
      else LastWrite(earlier, key)
  }

  /**
    A read returns the value of the last write of the key until that expires, unless the key
    was deleted or a tag it had been written under was invalidated since; other keys do not matter.
   */
  lemma {:induction false} ReadsLastWrite(ops: seq<Op>, key: Key, now: int)
    ensures Get(After(ops), key, now)
         == (match LastWrite(ops, key) case Some(stored) =>
             (if now < stored.expiresAt then stored.value else Null) case None => Null)
  {
    StoresLastWrite(ops, key);
  }

  lemma {:induction false} StoresLastWrite(ops: seq<Op>, key: Key)
    ensures LastWrite(ops, key) == if key in After(ops).values then Some(After(ops).values[key]) else None
  {
    if ops != [] {
      var earlier, op := ops[..|ops| - 1], ops[|ops| - 1];
      StoresLastWrite(earlier, key);
      if op.InvalidateOp? {
        IndexExact(earlier, key, op.tag);
      }
    }
  }

  /**
    A plain write after an invalidation is not covered by the tags of the last tagged
    write: the second invalidation of `a` leaves the key alive.
   */
  lemma PlainWriteEscapes(key: Key, value: Value)
    ensures
      var ops := [TaggedOp(key, value, ["a"], 0, 0), InvalidateOp("a"), SetOp(key, value, 0, 0)];
      && "a" in LastTaggedWrite(ops, key)
      && key in After(ops + [InvalidateOp("a")]).values
  {
    var ops := [TaggedOp(key, value, ["a"], 0, 0), InvalidateOp("a"), SetOp(key, value, 0, 0)];
    assert ops[..2] == [TaggedOp(key, value, ["a"], 0, 0), InvalidateOp("a")];
    assert ops[..2][..1] == [TaggedOp(key, value, ["a"], 0, 0)];
    assert LastTaggedWrite(ops[..2], key) == LastTaggedWrite(ops[..2][..1], key);
    InvalidationKeeps(ops, key, "a", 0);
    assert !TaggedSince(ops[..2], key, "a");
    assert !TaggedSince(ops, key, "a");
    assert After(ops).values[key] == Stored(value, DEFAULT_TTL);
    assert (ops + [InvalidateOp("a")])[..3] == ops;
    IndexExact(ops, key, "a");
  }

  // ---------- Cached reads against the database ----------

  /** The database behind the cache; a key without a row reads as nothing. */
  datatype System = System(cache: Cache, rows: map<Key, Value>)

  function Uncached(sys: System, key: Key): Value {
    if key in sys.rows then sys.rows[key] else Null
  }

  /** Which keys are cached under tags; all others are read through `getOrSet`. */
  type Policy = map<Key, seq<Tag>>

  datatype Event =
    | Read(key: Key, ttl: nat, now: int)
    | Mutate(rows: map<Key, Value>, deleted: seq<Key>, tags: seq<Tag>)

  /** A cached value if there is one, otherwise the row, which is then cached; none when caching it fails. */
  function ReadThrough(sys: System, policy: Policy, key: Key, ttl: nat, now: int): (System, Option<Value>) {
    var cached := Get(sys.cache, key, now);
    var row := Uncached(sys, key);
    if cached != Null then (sys, Some(cached))
    else if row == Null then (sys, Some(Null))
    else if key in policy
    then (sys.(cache := SetWithTag(sys.cache, key, row, policy[key], ttl, now)),
        if policy[key] == [] then None else Some(row))
    else (sys.(cache := Set(sys.cache, key, row, ttl, now)), Some(row))
  }

  function DeleteAll(c: Cache, keys: seq<Key>): Cache
    decreases |keys|
  {
    if keys == [] then c else DeleteAll(Delete(c, keys[0]), keys[1..])
  }

  function InvalidateAll(c: Cache, tags: seq<Tag>): Cache
    decreases |tags|
  {
    if tags == [] then c else InvalidateAll(InvalidateByTag(c, tags[0]), tags[1..])
  }

  function Step(sys: System, policy: Policy, event: Event): System {
    match event
    case Read(key, ttl, now) => ReadThrough(sys, policy, key, ttl, now).0
    case Mutate(rows, deleted, tags) => System(InvalidateAll(DeleteAll(sys.cache, deleted), tags), rows)
  }

  function Run(sys: System, policy: Policy, events: seq<Event>): System {
    if events == [] then sys
    else Step(Run(sys, policy, events[..|events| - 1]), policy, events[|events| - 1])
  }

  /** The mutation deletes the key or invalidates a tag the key is cached under. */
  predicate Covers(event: Event, policy: Policy, key: Key)
    requires event.Mutate?
  {
    key in event.deleted || (key in policy && exists t :: t in policy[key] && t in event.tags)
  }

  predicate Changes(sys: System, event: Event, key: Key)
    requires event.Mutate?
  {
    Uncached(sys, key) != Uncached(System(sys.cache, event.rows), key)
  }

  /** Each mutation invalidates a tag of every key it affects. */
  ghost predicate Careful(sys: System, policy: Policy, event: Event) {
    event.Mutate? ==> forall key :: Changes(sys, event, key) ==> Covers(event, policy, key)
  }

  ghost predicate AllCareful(sys: System, policy: Policy, events: seq<Event>) {
    events == [] || (AllCareful(sys, policy, events[..|events| - 1])
                     && Careful(Run(sys, policy, events[..|events| - 1]), policy, events[|events| - 1]))
  }

  predicate Fresh(sys: System, key: Key) {
    key in sys.cache.values ==> sys.cache.values[key].value == Uncached(sys, key)
  }

  predicate Indexed(c: Cache, policy: Policy, key: Key) {
    key in c.values && key in policy ==> forall t :: t in policy[key] ==> key in SetAt(c.keysOf, t)
  }

  ghost predicate Coherent(sys: System, policy: Policy) {
    forall key :: Fresh(sys, key) && Indexed(sys.cache, policy, key)
  }

  /** What deletes and invalidations leave of one key. */
  predicate Dropped(c: Cache, key: Key, deleted: seq<Key>, tags: seq<Tag>) {
    key in deleted || exists t :: t in tags && key in SetAt(c.keysOf, t)
  }

  lemma {:induction false} DeleteAllKeeps(c: Cache, keys: seq<Key>)
    ensures DeleteAll(c, keys) == c.(values := c.values - ToSet(keys))
    decreases |keys|
  {
    if keys == [] {
      assert c.values - ToSet(keys) == c.values;
    } else {
      DeleteAllKeeps(Delete(c, keys[0]), keys[1..]);
      assert ToSet(keys) == {keys[0]} + ToSet(keys[1..]);
      assert c.values - {keys[0]} - ToSet(keys[1..]) == c.values - ToSet(keys);
    }
  }

  lemma {:induction false} InvalidateAllKeeps(c: Cache, tags: seq<Tag>, key: Key)
    ensures key in InvalidateAll(c, tags).values <==> key in c.values && !Dropped(c, key, [], tags)
    ensures key in InvalidateAll(c, tags).values ==> InvalidateAll(c, tags).values[key] == c.values[key]
    ensures forall t :: t !in tags ==> SetAt(InvalidateAll(c, tags).keysOf, t) == SetAt(c.keysOf, t)
    decreases |tags|
  {
    if tags != [] {
      var c1 := InvalidateByTag(c, tags[0]);
      InvalidateAllKeeps(c1, tags[1..], key);
      assert forall t :: t in tags <==> t == tags[0] || t in tags[1..];
      assert forall t :: t != tags[0] ==> SetAt(c1.keysOf, t) == SetAt(c.keysOf, t);
      assert SetAt(c1.keysOf, tags[0]) == {};
      if key in c.values && Dropped(c, key, [], tags) && key in c1.values {
        var t :| t in tags && key in SetAt(c.keysOf, t);
        assert t != tags[0];
        assert key in SetAt(c1.keysOf, t);
      }
    }
  }

  /** One key after a mutation: still stored unless dropped, and dropped from no index it is stored under. */
  lemma MutationOnKey(sys: System, policy: Policy, event: Event, key: Key)
    requires event.Mutate?
    ensures
      var after := Step(sys, policy, event);
      && (key in after.cache.values <==> key in sys.cache.values && !Dropped(sys.cache, key, event.deleted, event.tags))
      && (key in after.cache.values ==> after.cache.values[key] == sys.cache.values[key])
      && (Indexed(sys.cache, policy, key) ==> Indexed(after.cache, policy, key))
  {
    DeleteAllKeeps(sys.cache, event.deleted);
    InvalidateAllKeeps(DeleteAll(sys.cache, event.deleted), event.tags, key);
  }

  /** A mutation leaves no stale value exactly when every stored key whose row it changes is dropped. */
  lemma MutationFreshExactly(sys: System, policy: Policy, event: Event)
    requires Coherent(sys, policy) && event.Mutate?
    ensures Coherent(Step(sys, policy, event), policy)
       <==> forall key :: key in sys.cache.values && Changes(sys, event, key) ==>
              Dropped(sys.cache, key, event.deleted, event.tags)
  {
    var after := Step(sys, policy, event);
    forall key
      ensures Indexed(after.cache, policy, key)
      ensures Fresh(after, key) <==> (key in sys.cache.values && Changes(sys, event, key)
           ==> Dropped(sys.cache, key, event.deleted, event.tags))
    {
      MutationOnKey(sys, policy, event, key);
      assert Fresh(sys, key) && Indexed(sys.cache, policy, key);
    }
  }

  lemma MutationKeepsCoherent(sys: System, policy: Policy, event: Event)
    requires Coherent(sys, policy) && event.Mutate? && Careful(sys, policy, event)
    ensures Coherent(Step(sys, policy, event), policy)
  {
    forall key | key in sys.cache.values && Changes(sys, event, key)
      ensures Dropped(sys.cache, key, event.deleted, event.tags)
    {
      assert Covers(event, policy, key);
      assert Indexed(sys.cache, policy, key);
    }
    MutationFreshExactly(sys, policy, event);
  }

  /** A miss fetches the row and caches it: from then on reads find it for as long as it was to live. */
  lemma ReadStores(sys: System, policy: Policy, key: Key, ttl: nat, now: int, later: int)
    requires Get(sys.cache, key, now) == Null && now <= later
    requires key in sys.rows && sys.rows[key] != Null
    ensures var (after, got) := ReadThrough(sys, policy, key, ttl, now);
            && after.rows == sys.rows
            && got == (if key in policy && policy[key] == [] then None else Some(sys.rows[key]))
            && Get(after.cache, key, later)
               == (if later < now + (if ttl == 0 then 300 else ttl) then sys.rows[key] else Null)
            && forall other :: other != key ==> Get(after.cache, other, later) == Get(sys.cache, other, later)
  {}

  /** A row that is not there, or null, is returned as null and not cached. */
  lemma MissingIsNotCached(sys: System, policy: Policy, key: Key, ttl: nat, now: int)
    requires Get(sys.cache, key, now) == Null && (key in sys.rows ==> sys.rows[key] == Null)
    ensures ReadThrough(sys, policy, key, ttl, now) == (sys, Some(Null))
  {}

  /** A hit returns what is cached and writes nothing. */
  lemma HitReads(sys: System, policy: Policy, key: Key, ttl: nat, now: int)
    requires Get(sys.cache, key, now) != Null
    ensures ReadThrough(sys, policy, key, ttl, now) == (sys, Some(Get(sys.cache, key, now)))
  {}

  lemma ReadKeepsCoherent(sys: System, policy: Policy, key: Key, ttl: nat, now: int)
    requires Coherent(sys, policy)
    ensures Coherent(ReadThrough(sys, policy, key, ttl, now).0, policy)
    ensures ReadThrough(sys, policy, key, ttl, now).1 in {None, Some(Uncached(sys, key))}
  {
    var after := ReadThrough(sys, policy, key, ttl, now).0;
    assert Fresh(sys, key);
    forall k
      ensures Fresh(after, k) && Indexed(after.cache, policy, k)
    {
      assert Fresh(sys, k) && Indexed(sys.cache, policy, k);
    }
  }

  lemma {:induction false} RunKeepsCoherent(sys: System, policy: Policy, events: seq<Event>)
    requires Coherent(sys, policy) && AllCareful(sys, policy, events)
    ensures Coherent(Run(sys, policy, events), policy)
  {
    if events != [] {
      RunKeepsCoherent(sys, policy, events[..|events| - 1]);
      var before, event := Run(sys, policy, events[..|events| - 1]), events[|events| - 1];
      match event
      case Read(key, ttl, now) => ReadKeepsCoherent(before, policy, key, ttl, now);
      case Mutate(_, _, _) => MutationKeepsCoherent(before, policy, event);
    }
  }

  /** Started empty, every cached read after careful mutations returns what an uncached read would. */
  lemma CachedReadsAreUncached(rows: map<Key, Value>, policy: Policy, events: seq<Event>, key: Key, ttl: nat, now: int)
    requires AllCareful(System(EMPTY, rows), policy, events)
    requires key in policy ==> policy[key] != []
    ensures
      var sys := Run(System(EMPTY, rows), policy, events);
      ReadThrough(sys, policy, key, ttl, now).1 == Some(Uncached(sys, key))
  {
    RunKeepsCoherent(System(EMPTY, rows), policy, events);
    ReadKeepsCoherent(Run(System(EMPTY, rows), policy, events), policy, key, ttl, now);
  }
}

/** The service itself: each method changes the stored maps as the operation of the same name says. */
module TagCacheStore {
  import opened Tables
  import opened TagCache
  import Spec = TagCache

  class CacheService {
    var values: map<Key, Stored>
    var tagsOf: map<Key, set<Tag>>
    var keysOf: map<Tag, set<Key>>

    function View(): Cache
      reads this
    {
      Cache(values, tagsOf, keysOf)
    }

    constructor ()
      ensures View() == EMPTY
    {
      values, tagsOf, keysOf := map[], map[], map[];
    }

    method Get(key: Key, now: int) returns (value: Value)
      ensures value == Spec.Get(View(), key, now)
    {
      return if key in values && now < values[key].expiresAt then values[key].value else Null;
    }

    method Set(key: Key, value: Value, ttl: nat, now: int)
      modifies this`values
      ensures View() == Spec.Set(old(View()), key, value, ttl, now)
    {
      values := values[key := Stored(value, now + if ttl == 0 then DEFAULT_TTL else ttl)];
    }

    method Delete(key: Key)
      modifies this`values
      ensures View() == Spec.Delete(old(View()), key)
    {
      values := values - {key};
    }

    method SetWithTag(key: Key, value: Value, tags: seq<Tag>, ttl: nat, now: int) returns (ok: bool)
      modifies this
      ensures View() == Spec.SetWithTag(old(View()), key, value, tags, ttl, now)
      ensures ok <==> tags != []
    {
      Set(key, value, ttl, now);
      if tags == [] {
        return false;
      }
      tagsOf := tagsOf[key := SetAt(tagsOf, key) + ToSet(tags)];
      AddedToNone(keysOf, key);
      assert ToSet(tags[..0]) == {};
      for i := 0 to |tags|
        invariant values == Spec.Set(old(View()), key, value, ttl, now).values
        invariant tagsOf == old(tagsOf)[key := SetAt(old(tagsOf), key) + ToSet(tags)]
        invariant keysOf == AddedTo(old(keysOf), key, ToSet(tags[..i]))
      {
        assert ToSet(tags[..i + 1]) == ToSet(tags[..i]) + {tags[i]} by {
          assert tags[..i + 1] == tags[..i] + [tags[i]];
        }
        AddedToOneMore(old(keysOf), key, ToSet(tags[..i]), tags[i]);
        keysOf := keysOf[tags[i] := SetAt(keysOf, tags[i]) + {key}];
      }
      assert tags[..|tags|] == tags;
      return true;
    }

    method InvalidateByTag(tag: Tag)
      modifies this
      ensures View() == Spec.InvalidateByTag(old(View()), tag)
    {
      var keys := SetAt(keysOf, tag);
      values := values - keys;
      var rest := keys;
      while rest != {}
        invariant values == old(values) - keys && keysOf == old(keysOf)
        invariant rest <= keys && tagsOf == old(tagsOf) - (keys - rest)
        decreases |rest|
      {
        var key :| key in rest;
        tagsOf := tagsOf - {key};
        rest := rest - {key};
      }
      keysOf := keysOf - {tag};
    }

    /** `fetched` is what the fetch function returns if it is called. */
    method GetOrSet(key: Key, fetched: Value, ttl: nat, now: int) returns (value: Value)
      modifies this`values
      ensures (System(View(), map[key := fetched]), Some(value))
           == ReadThrough(System(old(View()), map[key := fetched]), map[], key, ttl, now)
    {
      value := Get(key, now);
      if value == Null {
        value := fetched;
        if fetched != Null {
          Set(key, fetched, ttl, now);
        }
      }
    }
  }
}
