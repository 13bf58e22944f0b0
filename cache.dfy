/**
 * The localStorage caching layer. The browser's storage is a sequence of
 * (key, stored value) pairs with distinct keys, in the order `key(i)`
 * enumerates them. A stored value is kept in its parsed form.
 */
module Cache {
  import opened Types

  /** Namespace of every key the badge writes. */
  const Prefix: string := "cwb:"

  /** Milliseconds in a minute: a TTL in minutes is compared as `ttl * MsPerMinute`. */
  const MsPerMinute: int := 60 * 1000

  /**
   * What `JSON.parse` makes of a stored string: `Blank` is the empty string
   * (falsy, so every reader skips it), `Malformed` is text that does not parse,
   * `Entry` is a cache entry `{data, ts}` whose `data` may be missing.
   */
  datatype Raw = Blank | Malformed | Entry(data: Option<BadgeData>, ts: int)

  type Item = (string, Raw)

  function KeyFor(url: string): (k: string)
    ensures |k| == |Prefix| + |url| && k[..|Prefix|] == Prefix && k[|Prefix|..] == url
  {
    Prefix + url
  }

  /** `key.startsWith("cwb:")`. */
  predicate HasPrefix(key: string)
    ensures HasPrefix(key) <==> |key| >= |Prefix| && key == Prefix + key[|Prefix|..]
  {
    |Prefix| <= |key| && key[..|Prefix|] == Prefix
  }

  /** Every key the badge writes carries the namespace prefix. */
  lemma KeyForHasPrefix(url: string)
    ensures HasPrefix(KeyFor(url))
  {
  }

  ghost predicate DistinctKeys(items: seq<Item>)
  {
    forall a, b :: 0 <= a < b < |items| ==> items[a].0 != items[b].0
  }

  /** Index of the pair stored under `key`, or `|items|` when there is none. */
  function IndexOf(items: seq<Item>, key: string): (j: nat)
    ensures j <= |items|
    ensures j < |items| ==> items[j].0 == key
    ensures forall k :: 0 <= k < j ==> items[k].0 != key
  {
    if |items| == 0 then 0
    else if items[0].0 == key then 0
    else 1 + IndexOf(items[1..], key)
  }

  /** `localStorage.getItem(key)`: `None` plays the part of `null`. */
  function Lookup(items: seq<Item>, key: string): (r: Option<Raw>)
    ensures r.Some? <==> exists k :: 0 <= k < |items| && items[k].0 == key
    ensures r.Some? ==> (key, r.value) in items
  {
    var j := IndexOf(items, key);
    if j < |items| then Some(items[j].1) else None
  }

  /** `localStorage.setItem(key, raw)` when it does not throw. */
  function Put(items: seq<Item>, key: string, raw: Raw): (r: seq<Item>)
    ensures (key, raw) in r
    ensures |r| == |items| || |r| == |items| + 1
    ensures forall k :: 0 <= k < |items| && items[k].0 != key ==> r[k] == items[k]
  {
    var j := IndexOf(items, key);
    if j < |items| then
      assert items[j := (key, raw)][j] == (key, raw);
      items[j := (key, raw)]
    else
      assert (items + [(key, raw)])[|items|] == (key, raw);
      items + [(key, raw)]
  }

  /** `localStorage.removeItem(key)`: the other pairs keep their order. */
  function Remove(items: seq<Item>, key: string): (r: seq<Item>)
    ensures |r| == |items| || |r| == |items| - 1
    ensures forall x :: x in r ==> x in items
    ensures Lookup(items, key).None? ==> r == items
    ensures DistinctKeys(items) ==> forall k :: 0 <= k < |r| ==> r[k].0 != key
  {
    var j := IndexOf(items, key);
    if j < |items| then items[..j] + items[j + 1..] else items
  }

  /** With distinct keys, the pair at index i is the one found under its key. */
  lemma IndexOfDistinct(items: seq<Item>, i: nat)
    requires DistinctKeys(items) && i < |items|
    ensures IndexOf(items, items[i].0) == i
  {
  }

  lemma PutKeepsDistinct(items: seq<Item>, key: string, raw: Raw)
    requires DistinctKeys(items)
    ensures DistinctKeys(Put(items, key, raw))
  {
  }

  lemma RemoveKeepsDistinct(items: seq<Item>, key: string)
    requires DistinctKeys(items)
    ensures DistinctKeys(Remove(items, key))
  {
    var j := IndexOf(items, key);
    if j < |items| {
      var r := items[..j] + items[j + 1..];
      forall a, b | 0 <= a < b < |r| ensures r[a].0 != r[b].0 {
        var a' := if a < j then a else a + 1;
        var b' := if b < j then b else b + 1;
        assert r[a] == items[a'] && r[b] == items[b'];
      }
    }
  }

  /** A write is seen under its own key and nowhere else. */
  lemma {:induction false} LookupPut(items: seq<Item>, key: string, raw: Raw, other: string)
    ensures Lookup(Put(items, key, raw), key) == Some(raw)
    ensures other != key ==> Lookup(Put(items, key, raw), other) == Lookup(items, other)
  {
    var j := IndexOf(items, key);
    var p := Put(items, key, raw);
    assert j < |p| && p[j] == (key, raw);
    assert |p| == |items| || (|p| == |items| + 1 && j == |items|);
    assert forall k :: 0 <= k < |items| && k != j ==> p[k] == items[k];
  }

  // ---------------------------------------------------------------------
  // Reads: getCached and isCacheValid
  // ---------------------------------------------------------------------

  /**
   * `getCached(url)`: the stored record whatever its age; `None` for a missing,
   * blank or malformed entry and for an entry without data.
   */
  function GetCached(items: seq<Item>, url: string): (r: Option<BadgeData>)
    ensures r.Some? ==> exists ts :: Lookup(items, KeyFor(url)) == Some(Entry(r, ts))
  {
    match Lookup(items, KeyFor(url))
    case Some(Entry(Some(d), _)) => Some(d)
    case _ => None
  }

  /**
   * `isCacheValid(url, ttl)` at time `now`: a parsed entry exists and its
   * age is strictly below the TTL.
   */
  function IsCacheValid(items: seq<Item>, url: string, ttlMinutes: int, now: int): (v: bool)
    ensures v ==> Lookup(items, KeyFor(url)).Some? && Lookup(items, KeyFor(url)).value.Entry?
    ensures v ==> now - Lookup(items, KeyFor(url)).value.ts < ttlMinutes * MsPerMinute
  {
    match Lookup(items, KeyFor(url))
    case Some(Entry(_, ts)) => now - ts < ttlMinutes * MsPerMinute
    case _ => false
  }

  /** Missing, blank and unparseable values are never valid and never returned. */
  lemma AbsentIsInvalid(items: seq<Item>, url: string, ttlMinutes: int, now: int)
    requires Lookup(items, KeyFor(url)) in {None, Some(Blank), Some(Malformed)}
    ensures !IsCacheValid(items, url, ttlMinutes, now)
    ensures GetCached(items, url) == None
  {
  }

  /** Validity read in terms of the stored timestamp, both directions. */
  lemma ValidIff(items: seq<Item>, url: string, data: Option<BadgeData>, ts: int, ttlMinutes: int, now: int)
    requires Lookup(items, KeyFor(url)) == Some(Entry(data, ts))
    ensures IsCacheValid(items, url, ttlMinutes, now) <==> now - ts < ttlMinutes * MsPerMinute
  {
  }

  /** A longer TTL never invalidates an entry that a shorter one accepts. */
  lemma ValidMonotoneInTtl(items: seq<Item>, url: string, t1: int, t2: int, now: int)
    requires t1 <= t2 && IsCacheValid(items, url, t1, now)
    ensures IsCacheValid(items, url, t2, now)
  {
  }

  /** `getCached` ignores age: a stale entry's data is still returned. */
  lemma GetIgnoresAge(items: seq<Item>, url: string, d: BadgeData, ts: int, ttlMinutes: int, now: int)
    requires Lookup(items, KeyFor(url)) == Some(Entry(Some(d), ts))
    requires now - ts >= ttlMinutes * MsPerMinute
    ensures GetCached(items, url) == Some(d)
    ensures !IsCacheValid(items, url, ttlMinutes, now)
  {
  }

  /** `getCached` returns the data of whatever entry is stored under the URL's key. */
  lemma StoredDataReturned(items: seq<Item>, url: string, d: BadgeData, ts: int)
    requires Lookup(items, KeyFor(url)) == Some(Entry(Some(d), ts))
    ensures GetCached(items, url) == Some(d)
  {
  }

  // ---------------------------------------------------------------------
  // Writes: setCache
  // ---------------------------------------------------------------------

  /** The store after `setCache(url, data)` at `now`; a failing write leaves it as it was. */
  function AfterSetCache(items: seq<Item>, url: string, data: BadgeData, now: int, writeFails: bool): (r: seq<Item>)
    ensures writeFails ==> r == items
    ensures !writeFails ==> Lookup(r, KeyFor(url)) == Some(Entry(Some(data), now))
  {
    if writeFails then items
    else
      LookupPut(items, KeyFor(url), Entry(Some(data), now), "");
      Put(items, KeyFor(url), Entry(Some(data), now))
  }

  /**
   * A successful write is read back by `getCached`, and at any later `now'`
   * it is valid exactly while its age is below the TTL; every other key
   * reads as before.
   */
  lemma {:induction false} SetThenRead(items: seq<Item>, url: string, data: BadgeData, now: int,
                                       ttlMinutes: int, now': int, other: string)
    ensures GetCached(AfterSetCache(items, url, data, now, false), url) == Some(data)
    ensures IsCacheValid(AfterSetCache(items, url, data, now, false), url, ttlMinutes, now')
            <==> now' - now < ttlMinutes * MsPerMinute
    ensures other != KeyFor(url) ==>
            Lookup(AfterSetCache(items, url, data, now, false), other) == Lookup(items, other)
  {
    LookupPut(items, KeyFor(url), Entry(Some(data), now), other);
  }

  /** Right after a successful write the entry is valid for every positive TTL. */
  lemma {:induction false} FreshWriteIsValid(items: seq<Item>, url: string, data: BadgeData, now: int, ttlMinutes: int)
    requires ttlMinutes > 0
    ensures IsCacheValid(AfterSetCache(items, url, data, now, false), url, ttlMinutes, now)
  {
    SetThenRead(items, url, data, now, ttlMinutes, now, "");
  }

  // ---------------------------------------------------------------------
  // The sweep: clearExpired
  // ---------------------------------------------------------------------

  /** Whether `clearExpired` removes the pair: prefixed and unparseable or strictly older than `maxAge`. */
  predicate Evicted(item: Item, now: int, maxAge: int)
    ensures Evicted(item, now, maxAge) ==> HasPrefix(item.0) && !item.1.Blank?
    ensures HasPrefix(item.0) && item.1.Malformed? ==> Evicted(item, now, maxAge)
    ensures HasPrefix(item.0) && item.1.Entry? ==> (Evicted(item, now, maxAge) <==> now - item.1.ts > maxAge)
  {
    HasPrefix(item.0) &&
    match item.1
    case Malformed => true
    case Entry(_, ts) => now - ts > maxAge
    case Blank => false
  }

  /** The pairs that survive a sweep, in their original order. */
  function Swept(items: seq<Item>, now: int, maxAge: int): (r: seq<Item>)
    ensures |r| <= |items|
    ensures forall k :: 0 <= k < |r| ==> !Evicted(r[k], now, maxAge)
  {
    if |items| == 0 then []
    else (if Evicted(items[0], now, maxAge) then [] else [items[0]]) + Swept(items[1..], now, maxAge)
  }

  /** A pair survives the sweep if and only if it was stored and is not evicted. */
  lemma {:induction false} SweptMembers(items: seq<Item>, now: int, maxAge: int, x: Item)
    ensures x in Swept(items, now, maxAge) <==> x in items && !Evicted(x, now, maxAge)
  {
    if |items| > 0 {
      SweptMembers(items[1..], now, maxAge, x);
      assert items == [items[0]] + items[1..];
    }
  }

  /**
   * After the sweep every prefixed value is blank or an entry at most `maxAge`
   * old; the age bound is `<=`, so an entry exactly `maxAge` old stays.
   */
  lemma {:induction false} SweptSound(items: seq<Item>, now: int, maxAge: int, k: int)
    requires 0 <= k < |Swept(items, now, maxAge)|
    requires HasPrefix(Swept(items, now, maxAge)[k].0)
    ensures Swept(items, now, maxAge)[k].1.Blank? ||
            (Swept(items, now, maxAge)[k].1.Entry? && now - Swept(items, now, maxAge)[k].1.ts <= maxAge)
  {
    var s := Swept(items, now, maxAge);
    assert s[k] in s;
    SweptMembers(items, now, maxAge, s[k]);
  }

  /** A second sweep with the same `now` and `maxAge` changes nothing. */
  lemma {:induction false} SweptIdempotent(items: seq<Item>, now: int, maxAge: int)
    ensures Swept(Swept(items, now, maxAge), now, maxAge) == Swept(items, now, maxAge)
  {
    if |items| > 0 {
      SweptIdempotent(items[1..], now, maxAge);
      var rest := Swept(items[1..], now, maxAge);
      if !Evicted(items[0], now, maxAge) {
        var s := [items[0]] + rest;
        assert Swept(items, now, maxAge) == s;
        assert s[0] == items[0] && s[1..] == rest;
      } else {
        assert Swept(items, now, maxAge) == rest;
      }
    }
  }

  /** Swept pairs keep their key order, so distinct keys stay distinct. */
  lemma {:induction false} SweptDistinct(items: seq<Item>, now: int, maxAge: int)
    requires DistinctKeys(items)
    ensures DistinctKeys(Swept(items, now, maxAge))
  {
    if |items| > 0 {
      SweptDistinct(items[1..], now, maxAge);
      var rest := Swept(items[1..], now, maxAge);
      forall x | x in rest ensures x.0 != items[0].0 {
        SweptMembers(items[1..], now, maxAge, x);
      }
      var s := Swept(items, now, maxAge);
      if !Evicted(items[0], now, maxAge) {
        forall a, b | 0 <= a < b < |s| ensures s[a].0 != s[b].0 {
          if a == 0 { assert s[b] == rest[b - 1] && rest[b - 1] in rest; }
          else { assert s[a] == rest[a - 1] && s[b] == rest[b - 1]; }
        }
      }
    }
  }

  /**
   * The two boundaries differ: an entry whose age is exactly the TTL is no
   * longer valid, yet the sweep keeps it.
   */
  lemma ExactTtlAgeInvalidButKept(items: seq<Item>, url: string, data: Option<BadgeData>, ttlMinutes: int, now: int)
    requires Lookup(items, KeyFor(url)) == Some(Entry(data, now - ttlMinutes * MsPerMinute))
    ensures !IsCacheValid(items, url, ttlMinutes, now)
    ensures (KeyFor(url), Entry(data, now - ttlMinutes * MsPerMinute)) in Swept(items, now, ttlMinutes * MsPerMinute)
  {
    SweptMembers(items, now, ttlMinutes * MsPerMinute, (KeyFor(url), Entry(data, now - ttlMinutes * MsPerMinute)));
  }

  /**
   * One step of the descending loop: with the suffix past index i already
   * swept, removing index i (when evicted) or keeping it gives the store with
   * the suffix from i swept.
   */
  lemma SweepStep(orig: seq<Item>, i: nat, now: int, maxAge: int)
    requires i < |orig|
    ensures var before := orig[..i + 1] + Swept(orig[i + 1..], now, maxAge);
            i < |before| && before[i] == orig[i] &&
            (Evicted(orig[i], now, maxAge) ==> before[..i] + before[i + 1..] == orig[..i] + Swept(orig[i..], now, maxAge)) &&
            (!Evicted(orig[i], now, maxAge) ==> before == orig[..i] + Swept(orig[i..], now, maxAge))
  {
    var rest := Swept(orig[i + 1..], now, maxAge);
    var before := orig[..i + 1] + rest;
    assert orig[i..][0] == orig[i] && orig[i..][1..] == orig[i + 1..];
    assert orig[..i + 1] == orig[..i] + [orig[i]];
    assert before[..i] == orig[..i];
    assert before[i + 1..] == rest;
  }

  /** The browser's `localStorage` for one origin. */
  class Storage {
    var items: seq<Item>

    ghost predicate Valid()
      reads this
    {
      DistinctKeys(items)
    }

    constructor (initial: seq<Item>)
      requires DistinctKeys(initial)
      ensures Valid() && items == initial
    {
      items := initial;
    }

    /** `localStorage.length`: the number of stored pairs. */
    function Length(): (n: nat)
      reads this
      ensures n == |items|
    {
      |items|
    }

    /** `localStorage.key(i)` for an index in range. */
    function Key(i: nat): (k: string)
      reads this
      requires i < |items|
      ensures k == items[i].0
      ensures Lookup(items, k).Some?
    {
      items[i].0
    }

    /** `localStorage.getItem(key)`: `None` for a key that is not stored. */
    function GetItem(key: string): (r: Option<Raw>)
      reads this
      ensures r == Lookup(items, key)
      ensures r.Some? <==> exists j :: 0 <= j < |items| && items[j].0 == key
    {
      Lookup(items, key)
    }

    /** `localStorage.setItem`; `quotaExceeded` says whether the browser throws. */
    method SetItem(key: string, raw: Raw, quotaExceeded: bool) returns (ok: bool)
      requires Valid()
      modifies this
      ensures Valid()
      ensures ok == !quotaExceeded
      ensures items == if ok then Put(old(items), key, raw) else old(items)
    {
      ok := !quotaExceeded;
      if ok {
        PutKeepsDistinct(items, key, raw);
        items := Put(items, key, raw);
      }
    }

    method RemoveItem(key: string)
      requires Valid()
      modifies this
      ensures Valid()
      ensures items == Remove(old(items), key)
    {
      RemoveKeepsDistinct(items, key);
      items := Remove(items, key);
    }
  }

  /** `setCache(url, data)`: best effort, a failed write is swallowed. */
  method SetCache(store: Storage, url: string, data: BadgeData, now: int, quotaExceeded: bool)
    requires store.Valid()
    modifies store
    ensures store.Valid()
    ensures store.items == AfterSetCache(old(store.items), url, data, now, quotaExceeded)
  {
    var _ := store.SetItem(KeyFor(url), Entry(Some(data), now), quotaExceeded);
  }

  /**
   * One pass of the sweep loop at index i: read the key, skip it unless it
   * is prefixed and its value non-blank, remove it when unparseable or stale.
   */
  method SweepAt(store: Storage, i: nat, now: int, maxAge: int) returns (key: string)
    requires store.Valid() && i < |store.items|
    modifies store
    ensures store.Valid()
    ensures key == old(store.items)[i].0
    ensures store.items == if Evicted(old(store.items)[i], now, maxAge)
                           then old(store.items)[..i] + old(store.items)[i + 1..]
                           else old(store.items)
  {
    key := store.Key(i);
    if !HasPrefix(key) {
      return;
    }
    IndexOfDistinct(store.items, i);
    var raw := store.GetItem(key);
    match raw {
      case Some(Malformed) =>
        store.RemoveItem(key);
      case Some(Entry(_, ts)) =>
        if now - ts > maxAge {
          store.RemoveItem(key);
        }
      case _ =>
    }
  }

  /**
   * `clearExpired(ttl)` at `now`: walks the indices from the last down to 0,
   * removing evicted pairs as it goes. `examined` records the key read at each
   * step: every original pair is read exactly once, last index first.
   */
  method ClearExpired(store: Storage, ttlMinutes: int, now: int) returns (ghost examined: seq<string>)
    requires store.Valid()
    modifies store
    ensures store.Valid()
    ensures store.items == Swept(old(store.items), now, ttlMinutes * MsPerMinute)
    ensures |examined| == |old(store.items)|
    ensures forall k :: 0 <= k < |examined| ==> examined[k] == old(store.items)[|examined| - 1 - k].0
  {
    ghost var orig := store.items;
    var maxAge := ttlMinutes * MsPerMinute;
    examined := [];
    var i: int := store.Length() - 1;
    assert orig[i + 1..] == [];
    while i >= 0
      invariant -1 <= i < |orig|
      invariant store.Valid()
      invariant store.items == orig[..i + 1] + Swept(orig[i + 1..], now, maxAge)
      invariant |examined| == |orig| - 1 - i
      invariant forall k :: 0 <= k < |examined| ==> examined[k] == orig[|orig| - 1 - k].0
      decreases i
    {
      SweepStep(orig, i, now, maxAge);
      var key := SweepAt(store, i, now, maxAge);
      examined := examined + [key];
      i := i - 1;
    }
    assert orig[..0] == [];
  }
}
