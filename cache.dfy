/**
 * `SimpleCache` (src/utils/index.ts): a capacity-bounded map with per-entry TTL.
 * The JavaScript `Map` is an insertion-ordered sequence of entries with distinct
 * keys; writing an existing key keeps its place, as `Map.prototype.set` does.
 * The clock (`Date.now()`) is the parameter `now`, in milliseconds.
 */
module Cache {
  import opened Wrappers

  /** A stored value with its insertion time and its lifetime, both in milliseconds. */
  datatype Entry<V> = Entry(key: string, value: V, timestamp: int, ttl: int)

  /** An entry is stale once strictly more than `ttl` milliseconds have passed. */
  predicate Expired<V>(e: Entry<V>, now: int)
  {
    now - e.timestamp > e.ttl
  }

  predicate DistinctKeys<V>(es: seq<Entry<V>>)
  {
    forall i, j | 0 <= i < j < |es| :: es[i].key != es[j].key
  }

  predicate HasKey<V>(es: seq<Entry<V>>, k: string)
  {
    exists i | 0 <= i < |es| :: es[i].key == k
  }

  /** The position of `k`, or -1. */
  function IndexOf<V>(es: seq<Entry<V>>, k: string): (i: int)
    ensures -1 <= i < |es|
    ensures i >= 0 ==> es[i].key == k && forall j | 0 <= j < i :: es[j].key != k
    ensures i < 0 <==> !HasKey(es, k)
  {
    if es == [] then -1
    else if es[0].key == k then 0
    else
      var i := IndexOf(es[1..], k);
      if i < 0 then -1 else i + 1
  }

  /** `Map.prototype.get`. */
  function Lookup<V>(es: seq<Entry<V>>, k: string): Option<Entry<V>>
  {
    var i := IndexOf(es, k);
    if i < 0 then None else Some(es[i])
  }

  /** `Map.prototype.delete`. */
  function RemoveKey<V>(es: seq<Entry<V>>, k: string): seq<Entry<V>>
  {
    var i := IndexOf(es, k);
    if i < 0 then es else es[..i] + es[i + 1..]
  }

  /** `Map.prototype.set`: replace in place, or append a new key at the end. */
  function Upsert<V>(es: seq<Entry<V>>, e: Entry<V>): seq<Entry<V>>
  {
    var i := IndexOf(es, e.key);
    if i < 0 then es + [e] else es[i := e]
  }

  /** `cleanup`: the entries that are not stale at `now`, in their order. */
  function Purge<V>(es: seq<Entry<V>>, now: int): seq<Entry<V>>
  {
    if es == [] then []
    else
      var last := es[|es| - 1];
      Purge(es[..|es| - 1], now) + (if Expired(last, now) then [] else [last])
  }

  /**
   * The capacity step of `set`: when full, the first key goes; `if (oldestKey)`
   * skips the eviction when there is no entry or the oldest key is the empty string.
   */
  function EvictOldest<V>(es: seq<Entry<V>>, maxSize: nat): seq<Entry<V>>
  {
    if |es| >= maxSize && |es| > 0 && es[0].key != "" then es[1..] else es
  }

  /** The entries after `set(key, value, ttlSeconds)` at time `now`. */
  function SetEntries<V>(es: seq<Entry<V>>, maxSize: nat, key: string, value: V, ttlSeconds: int, now: int): seq<Entry<V>>
  {
    Upsert(EvictOldest(Purge(es, now), maxSize), Entry(key, value, now, ttlSeconds * 1000))
  }

  /** What `get(key)` at time `now` returns and leaves behind. */
  function Read<V>(es: seq<Entry<V>>, k: string, now: int): (Option<V>, seq<Entry<V>>)
  {
    match Lookup(es, k)
    case None => (None, es)
    case Some(e) => if Expired(e, now) then (None, RemoveKey(es, k)) else (Some(e.value), es)
  }

  // ---------------------------------------------------------------------------
  // Properties of the entry operations

  lemma {:induction false} PurgeMembers<V>(es: seq<Entry<V>>, now: int)
    ensures forall e :: e in Purge(es, now) <==> e in es && !Expired(e, now)
    ensures |Purge(es, now)| <= |es|
  {
    if es != [] {
      var init := es[..|es| - 1];
      PurgeMembers(init, now);
      assert es == init + [es[|es| - 1]];
    }
  }

  lemma PurgeKeeps<V>(es: seq<Entry<V>>, now: int, x: Entry<V>)
    requires x in Purge(es, now)
    ensures x in es && !Expired(x, now)
  {
    PurgeMembers(es, now);
  }

  lemma {:induction false} PurgeDistinct<V>(es: seq<Entry<V>>, now: int)
    requires DistinctKeys(es)
    ensures DistinctKeys(Purge(es, now))
  {
    if es != [] {
      var init := es[..|es| - 1];
      var last := es[|es| - 1];
      PurgeDistinct(init, now);
      PurgeMembers(init, now);
      var p := Purge(init, now);
      forall i | 0 <= i < |p| ensures p[i].key != last.key {
        assert p[i] in p;
        PurgeKeeps(init, now, p[i]);
        var j :| 0 <= j < |init| && init[j] == p[i];
        assert es[j] == init[j];
      }
    }
  }

  /** Cutting out position `i` of a list with distinct keys leaves distinct keys, none of them the cut one. */
  lemma RemoveAtKeys<V>(es: seq<Entry<V>>, i: nat, r: seq<Entry<V>>)
    requires DistinctKeys(es) && i < |es| && r == es[..i] + es[i + 1..]
    ensures DistinctKeys(r)
    ensures forall j | 0 <= j < |r| :: r[j].key != es[i].key
  {
    forall a, b | 0 <= a < b < |r| ensures r[a].key != r[b].key {
      assert r[a] == es[if a < i then a else a + 1];
      assert r[b] == es[if b < i then b else b + 1];
    }
    forall j | 0 <= j < |r| ensures r[j].key != es[i].key {
      assert r[j] == es[if j < i then j else j + 1];
    }
  }

  /** Cutting out position `i` of a list with distinct keys keeps exactly the entries of other keys. */
  lemma RemoveAtMembers<V>(es: seq<Entry<V>>, i: nat, r: seq<Entry<V>>)
    requires DistinctKeys(es) && i < |es| && r == es[..i] + es[i + 1..]
    ensures forall e :: e in r <==> e in es && e.key != es[i].key
  {
    RemoveAtKeys(es, i, r);
    forall e ensures e in r <==> e in es && e.key != es[i].key {
      if e in es && e.key != es[i].key {
        var j :| 0 <= j < |es| && es[j] == e;
        if j < i { assert r[j] == e; } else { assert r[j - 1] == e; }
      }
    }
  }

  lemma RemoveKeyFacts<V>(es: seq<Entry<V>>, k: string)
    requires DistinctKeys(es)
    ensures DistinctKeys(RemoveKey(es, k))
    ensures !HasKey(RemoveKey(es, k), k)
    ensures forall e :: e in RemoveKey(es, k) <==> e in es && e.key != k
  {
    var i := IndexOf(es, k);
    if i >= 0 {
      var r := es[..i] + es[i + 1..];
      RemoveAtKeys(es, i, r);
      RemoveAtMembers(es, i, r);
    }
  }

  lemma UpsertFacts<V>(es: seq<Entry<V>>, e: Entry<V>)
    requires DistinctKeys(es)
    ensures DistinctKeys(Upsert(es, e))
    ensures Lookup(Upsert(es, e), e.key) == Some(e)
    ensures |Upsert(es, e)| == if HasKey(es, e.key) then |es| else |es| + 1
    ensures forall x :: x in Upsert(es, e) ==> x == e || (x in es && x.key != e.key)
  {
    var u := Upsert(es, e);
    var i := IndexOf(es, e.key);
    if i < 0 {
      assert u[|es|] == e;
      assert IndexOf(u, e.key) == |es|;
    } else {
      assert u[i] == e;
      assert IndexOf(u, e.key) == i;
      forall x | x in u ensures x == e || (x in es && x.key != e.key) {
        var j :| 0 <= j < |u| && u[j] == x;
        if j != i { assert es[j] == x; }
      }
    }
  }

  /** `set` keeps keys distinct. */
  lemma SetKeepsDistinct<V>(es: seq<Entry<V>>, maxSize: nat, key: string, value: V, ttlSeconds: int, now: int)
    requires DistinctKeys(es)
    ensures DistinctKeys(SetEntries(es, maxSize, key, value, ttlSeconds, now))
  {
    PurgeDistinct(es, now);
    UpsertFacts(EvictOldest(Purge(es, now), maxSize), Entry(key, value, now, ttlSeconds * 1000));
  }

  /**
   * `set` purges first: apart from the entry just written, nothing stale at `now`
   * survives, and nothing that was not already there appears.
   */
  lemma SetPurgesExpired<V>(es: seq<Entry<V>>, maxSize: nat, key: string, value: V, ttlSeconds: int, now: int)
    requires DistinctKeys(es)
    ensures forall e | e in SetEntries(es, maxSize, key, value, ttlSeconds, now) ::
      e == Entry(key, value, now, ttlSeconds * 1000) || (e in es && e.key != key && !Expired(e, now))
  {
    PurgeMembers(es, now);
    PurgeDistinct(es, now);
    var p := Purge(es, now);
    var ev := EvictOldest(p, maxSize);
    assert forall e | e in ev :: e in p;
    UpsertFacts(ev, Entry(key, value, now, ttlSeconds * 1000));
  }

  /** With a non-negative TTL, a read at the time of writing finds the value. */
  lemma GetAfterSet<V>(es: seq<Entry<V>>, maxSize: nat, key: string, value: V, ttlSeconds: int, now: int)
    requires DistinctKeys(es)
    requires ttlSeconds >= 0
    ensures var after := SetEntries(es, maxSize, key, value, ttlSeconds, now);
      Read(after, key, now) == (Some(value), after)
  {
    PurgeDistinct(es, now);
    UpsertFacts(EvictOldest(Purge(es, now), maxSize), Entry(key, value, now, ttlSeconds * 1000));
  }

  /**
   * The example of a five-second entry: still there three seconds later, gone
   * (and deleted) six seconds later.
   */
  lemma FiveSecondEntry<V>(es: seq<Entry<V>>, maxSize: nat, x: V, t: int)
    requires DistinctKeys(es)
    ensures var after := SetEntries(es, maxSize, "providers", x, 5, t);
      && Read(after, "providers", t + 3000).0 == Some(x)
      && Read(after, "providers", t + 6000).0 == None
      && !HasKey(Read(after, "providers", t + 6000).1, "providers")
  {
    var after := SetEntries(es, maxSize, "providers", x, 5, t);
    SetKeepsDistinct(es, maxSize, "providers", x, 5, t);
    PurgeDistinct(es, t);
    UpsertFacts(EvictOldest(Purge(es, t), maxSize), Entry("providers", x, t, 5000));
    RemoveKeyFacts(after, "providers");
  }

  /**
   * Capacity: from a cache within `maxSize >= 1`, `set` stays within `maxSize`,
   * provided the oldest surviving key is not the empty string.
   */
  lemma SetBounded<V>(es: seq<Entry<V>>, maxSize: nat, key: string, value: V, ttlSeconds: int, now: int)
    requires DistinctKeys(es)
    requires 1 <= maxSize && |es| <= maxSize
    requires Purge(es, now) == [] || Purge(es, now)[0].key != ""
    ensures |SetEntries(es, maxSize, key, value, ttlSeconds, now)| <= maxSize
  {
    PurgeMembers(es, now);
    PurgeDistinct(es, now);
    var ev := EvictOldest(Purge(es, now), maxSize);
    UpsertFacts(ev, Entry(key, value, now, ttlSeconds * 1000));
  }

  /** The exception: an empty-string oldest key is never evicted, so the cache outgrows `maxSize`. */
  lemma EmptyOldestKeyOverfills(v: int, now: int)
    ensures |SetEntries([Entry("", v, now, 10000)], 1, "a", v, 10, now)| == 2
  {
    var es := [Entry("", v, now, 10000)];
    assert Purge(es, now) == es by {
      assert es[..0] == [];
    }
    assert IndexOf(es, "a") == -1;
  }

  // ---------------------------------------------------------------------------
  // The cache object

  class SimpleCache<V> {
    var entries: seq<Entry<V>>
    const maxSize: nat

    ghost predicate Valid()
      reads this
    {
      DistinctKeys(entries)
    }

    /** `new SimpleCache({maxSize})`. */
    constructor(maxSize: nat)
      ensures Valid() && entries == [] && this.maxSize == maxSize
    {
      this.maxSize := maxSize;
      entries := [];
    }

    /** `cleanup`: drop every entry stale at `now`, keeping the order of the rest. */
    method Cleanup(now: int)
      requires Valid()
      modifies this
      ensures Valid()
      ensures entries == Purge(old(entries), now)
    {
      var kept: seq<Entry<V>> := [];
      var i := 0;
      while i < |entries|
        invariant 0 <= i <= |entries|
        invariant kept == Purge(entries[..i], now)
      {
        assert entries[..i + 1][..i] == entries[..i];
        if !Expired(entries[i], now) {
          kept := kept + [entries[i]];
        }
        i := i + 1;
      }
      assert entries[..i] == entries;
      PurgeDistinct(entries, now);
      entries := kept;
    }

    /** `set(key, value, ttl)` at time `now`, `ttl` in seconds. */
    method Set(key: string, value: V, ttl: int, now: int)
      requires Valid()
      modifies this
      ensures Valid()
      ensures entries == SetEntries(old(entries), maxSize, key, value, ttl, now)
    {
      ghost var before := entries;
      Cleanup(now);
      if |entries| >= maxSize {
        if |entries| > 0 && entries[0].key != "" {
          entries := entries[1..];
        }
      }
      var i := IndexOf(entries, key);
      var e := Entry(key, value, now, ttl * 1000);
      if i < 0 {
        entries := entries + [e];
      } else {
        entries := entries[i := e];
      }
      SetKeepsDistinct(before, maxSize, key, value, ttl, now);
    }

    /**
     * `get(key)` at time `now`: the value when the entry exists and is not stale
     * (the boundary `now - timestamp == ttl` still counts as fresh); a stale entry
     * is deleted and reads as absent.
     */
    method Get(key: string, now: int) returns (r: Option<V>)
      requires Valid()
      modifies this
      ensures Valid()
      ensures r.Some? <==> Lookup(old(entries), key).Some? && !Expired(Lookup(old(entries), key).value, now)
      ensures r.Some? ==> r.value == Lookup(old(entries), key).value.value
      ensures Lookup(old(entries), key).Some? && Expired(Lookup(old(entries), key).value, now)
        ==> entries == RemoveKey(old(entries), key) && !HasKey(entries, key)
      ensures r.Some? || !Lookup(old(entries), key).Some? ==> entries == old(entries)
      ensures (r, entries) == Read(old(entries), key, now)
    {
      var i := IndexOf(entries, key);
      if i < 0 {
        return None;
      }
      var item := entries[i];
      if now - item.timestamp > item.ttl {
        RemoveKeyFacts(entries, key);
        entries := entries[..i] + entries[i + 1..];
        return None;
      }
      return Some(item.value);
    }

    /** `delete(key)`: whether the key was present; it is absent afterwards. */
    method Delete(key: string) returns (found: bool)
      requires Valid()
      modifies this
      ensures Valid()
      ensures found == HasKey(old(entries), key)
      ensures entries == RemoveKey(old(entries), key)
      ensures !HasKey(entries, key)
    {
      RemoveKeyFacts(entries, key);
      var i := IndexOf(entries, key);
      found := i >= 0;
      if found {
        entries := entries[..i] + entries[i + 1..];
      }
    }

    /** `clear()`. */
    method Clear()
      requires Valid()
      modifies this
      ensures Valid() && entries == []
    {
      entries := [];
    }
  }
}
