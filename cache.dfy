/** The response cache of the backend: a table from keys to values with an expiry
    time. The clock (`Date.now()`) is the parameter `now`, in milliseconds, and the
    SHA-256 hex digest is the parameter `sha256`. */
module Cache {
  import opened Wrappers
  import opened Text

  /** `CACHE_TTL_MS`: ten minutes. */
  const CacheTtlMs: int := 10 * 60 * 1000

  /** The separator `makeKey` joins the parts with. */
  const KeySeparator: string := "||"

  /** A stored value and the time from which it is stale. */
  datatype Entry<T> = Entry(value: T, expiresAt: int)

  /** `makeKey(parts)`: the first 32 hex digits of the digest of the joined parts. */
  function MakeKey(parts: seq<string>, sha256: string -> string): (key: string)
    ensures |key| <= 32
  {
    Slice(sha256(Join(parts, KeySeparator)), 0, 32)
  }

  /** The value `getCache` returns: none for a missing or expired entry. */
  function Lookup<T>(entries: map<string, Entry<T>>, key: string, now: int): (r: Option<T>)
    ensures r.Some? <==> key in entries && now < entries[key].expiresAt
    ensures r.Some? ==> r.value == entries[key].value
  {
    if key in entries && now < entries[key].expiresAt then Some(entries[key].value) else None
  }

  /** The table after `getCache`: an expired entry is deleted, nothing else changes. */
  function AfterLookup<T>(entries: map<string, Entry<T>>, key: string, now: int): (r: map<string, Entry<T>>)
    ensures key in entries && now >= entries[key].expiresAt ==> key !in r
    ensures forall k :: k in r <==> k in entries && (k != key || now < entries[key].expiresAt)
    ensures forall k :: k in r ==> r[k] == entries[k]
  {
    if key in entries && now >= entries[key].expiresAt then entries - {key} else entries
  }

  /** The table after `setCache`: the key's entry expires `ttlMs` after `now`. */
  function Stored<T>(entries: map<string, Entry<T>>, key: string, value: T, now: int, ttlMs: int): (r: map<string, Entry<T>>)
    ensures key in r && r[key] == Entry(value, now + ttlMs)
    ensures forall k :: k != key ==> (k in r <==> k in entries)
    ensures forall k :: k != key && k in entries ==> r[k] == entries[k]
  {
    entries[key := Entry(value, now + ttlMs)]
  }

  /** The module-level `Map` and the two operations on it. */
  class Table<T> {
    var entries: map<string, Entry<T>>

    constructor ()
      ensures entries == map[]
    {
      entries := map[];
    }

    /** `getCache(key)` at time `now`. */
    method Get(key: string, now: int) returns (r: Option<T>)
      modifies this
      ensures r == Lookup(old(entries), key, now)
      ensures entries == AfterLookup(old(entries), key, now)
    {
      if key !in entries {
        return None;
      }
      var entry := entries[key];
      if now >= entry.expiresAt {
        entries := entries - {key};
        return None;
      }
      return Some(entry.value);
    }

    /** `setCache(key, value, ttlMs)` at time `now`. */
    method Set(key: string, value: T, now: int, ttlMs: int := CacheTtlMs)
      modifies this
      ensures entries == Stored(old(entries), key, value, now, ttlMs)
    {
      entries := entries[key := Entry(value, now + ttlMs)];
    }
  }

  // ------------------------------------------------------------------ lemmas

  /** Reading back before expiry gives the stored value and keeps the table. */
  lemma SetThenGet<T>(entries: map<string, Entry<T>>, key: string, value: T, now: int, ttlMs: int, later: int)
    requires later < now + ttlMs
    ensures Lookup(Stored(entries, key, value, now, ttlMs), key, later) == Some(value)
    ensures AfterLookup(Stored(entries, key, value, now, ttlMs), key, later) == Stored(entries, key, value, now, ttlMs)
  {
  }

  /** Reading at or after expiry gives nothing and deletes that entry only. */
  lemma GetAfterExpiry<T>(entries: map<string, Entry<T>>, key: string, value: T, now: int, ttlMs: int, later: int)
    requires later >= now + ttlMs
    ensures Lookup(Stored(entries, key, value, now, ttlMs), key, later) == None
    ensures AfterLookup(Stored(entries, key, value, now, ttlMs), key, later) == entries - {key}
  {
    var m := Stored(entries, key, value, now, ttlMs);
    assert m - {key} == entries - {key};
  }

  /** Reading a missing key or a live entry leaves the table as it is. */
  lemma GetKeepsTable<T>(entries: map<string, Entry<T>>, key: string, now: int)
    requires key !in entries || now < entries[key].expiresAt
    ensures AfterLookup(entries, key, now) == entries
  {
  }

  /** Equal parts give equal keys, and only the joined text counts: `["a", "b"]` and
      `["a||b"]` share a key. */
  lemma KeysDependOnJoinedParts(sha256: string -> string)
    ensures MakeKey(["a", "b"], sha256) == MakeKey(["a||b"], sha256)
  {
    assert Join(["a", "b"], KeySeparator) == "a||b" by {
      assert ["a", "b"][1..] == ["b"];
    }
  }

  /** The test's scenario: a value stored for ten milliseconds is there at once and
      gone twenty milliseconds later. */
  method ExpiryScenario(now: int) returns (first: Option<string>, second: Option<string>)
    ensures first == Some("hello") && second == None
  {
    var table := new Table<string>();
    table.Set("k", "hello", now, 10);
    first := table.Get("k", now);
    second := table.Get("k", now + 20);
  }
}
