/** The revocation cache in front of the token store: a map and a recency list of at most ten
    thousand positive answers that expire, next to the table they speed up. */
module Revocation {
  const MAX_ENTRIES := 10000
  const TTL := 30

  datatype Entry = Entry(revoked: bool, expiresAt: int)

  /** Most recently used first: the list is strictly sorted by the time of last use, which also says
      that no key occurs twice. */
  ghost predicate Recency(lru: seq<string>, used: map<string, nat>, clock: nat) {
    && (forall i :: 0 <= i < |lru| ==> lru[i] in used && used[lru[i]] < clock)
    && (forall i, j :: 0 <= i < j < |lru| ==> used[lru[i]] > used[lru[j]])
  }

  /** The list without one key; the order of the others is kept. */
  function Without(lru: seq<string>, key: string): (r: seq<string>)
    ensures forall x :: x in r <==> x in lru && x != key
  {
    if lru == [] then []
    else
      var n := |lru| - 1;
      assert lru == lru[..n] + [lru[n]];
      Without(lru[..n], key) + if lru[n] == key then [] else [lru[n]]
  }

  lemma {:induction false} NothingToRemove(lru: seq<string>, key: string)
    requires key !in lru
    ensures Without(lru, key) == lru
  {
    if lru != [] {
      var n := |lru| - 1;
      assert lru == lru[..n] + [lru[n]];
      NothingToRemove(lru[..n], key);
    }
  }

  /** Every element before the last was used after it. */
  lemma RecencySplit(pre: seq<string>, last: string, used: map<string, nat>, clock: nat)
    requires Recency(pre + [last], used, clock)
    ensures Recency(pre, used, clock) && last in used && used[last] < clock
    ensures forall x :: x in pre ==> x in used && used[x] > used[last]
  {
    var lru := pre + [last];
    assert lru[|pre|] == last;
    assert forall i :: 0 <= i < |pre| ==> pre[i] == lru[i];
  }

  lemma RecencySnoc(pre: seq<string>, last: string, used: map<string, nat>, clock: nat)
    requires Recency(pre, used, clock) && last in used && used[last] < clock
    requires forall x :: x in pre ==> x in used && used[x] > used[last]
    ensures Recency(pre + [last], used, clock)
  {
  }

  lemma {:induction false} RecencyWithout(lru: seq<string>, key: string, used: map<string, nat>, clock: nat)
    requires Recency(lru, used, clock)
    ensures Recency(Without(lru, key), used, clock)
    ensures |Without(lru, key)| == if key in lru then |lru| - 1 else |lru|
  {
    if lru != [] {
      var n := |lru| - 1;
      var pre, last := lru[..n], lru[n];
      assert lru == pre + [last];
      RecencySplit(pre, last, used, clock);
      RecencyWithout(pre, key, used, clock);
      if last != key {
        RecencySnoc(Without(pre, key), last, used, clock);
      } else {
        assert Without(pre, key) + [] == Without(pre, key);
      }
    }
  }

  lemma RecencyPush(lru: seq<string>, key: string, used: map<string, nat>, clock: nat)
    requires Recency(lru, used, clock) && key !in lru
    ensures Recency([key] + lru, used[key := clock], clock + 1)
  {
    assert forall i :: 0 <= i < |lru| ==> lru[i] != key;
  }

  /** Moving a key to the front, or pushing a new one. */
  function ToFrontOf(lru: seq<string>, key: string): (r: seq<string>)
    ensures forall k :: k in r <==> k == key || k in lru
  {
    [key] + Without(lru, key)
  }

  lemma RecencyToFront(lru: seq<string>, key: string, used: map<string, nat>, clock: nat)
    requires Recency(lru, used, clock)
    ensures Recency(ToFrontOf(lru, key), used[key := clock], clock + 1)
    ensures |ToFrontOf(lru, key)| == if key in lru then |lru| else |lru| + 1
  {
    RecencyWithout(lru, key, used, clock);
    RecencyPush(Without(lru, key), key, used, clock);
  }

  /** Map and list hold the same keys, each once, in recency order, within the bound; every entry is
      positive and backed by a row of the store. */
  ghost predicate Sound(rows: map<string, int>, cache: map<string, Entry>, lru: seq<string>,
        used: map<string, nat>, clock: nat)
  {
    && (forall k :: k in cache <==> k in lru)
    && |lru| <= MAX_ENTRIES
    && Recency(lru, used, clock)
    && (forall k :: k in cache ==> cache[k].revoked && k in rows)
  }

  lemma ToFrontIsSound(rows: map<string, int>, cache: map<string, Entry>, lru: seq<string>,
        used: map<string, nat>, clock: nat, key: string, entry: Entry)
    requires Sound(rows, cache, lru, used, clock) && entry.revoked && key in rows
    requires key in cache || |lru| < MAX_ENTRIES
    ensures Sound(rows, cache[key := entry], ToFrontOf(lru, key), used[key := clock], clock + 1)
  {
    RecencyToFront(lru, key, used, clock);
  }

  class TokenRevocations {
    var connected: bool
    var rows: map<string, int>
    var cache: map<string, Entry>
    var lru: seq<string>
    ghost var used: map<string, nat>
    ghost var clock: nat

    ghost predicate Valid()
      reads this
    {
      Sound(rows, cache, lru, used, clock)
    }

    constructor ()
      ensures Valid() && !connected && rows == map[] && cache == map[] && lru == []
    {
      connected, rows, cache, lru, used, clock := false, map[], map[], [], map[], 0;
    }

    /** Move a key to the front, or push a new one. */
    method ToFront(key: string, entry: Entry)
      requires Valid() && entry.revoked && key in rows
      requires key in cache || |lru| < MAX_ENTRIES
      modifies this
      ensures Valid() && rows == old(rows) && connected == old(connected)
      ensures cache == old(cache)[key := entry]
      ensures lru == ToFrontOf(old(lru), key)
      ensures used == old(used)[key := old(clock)]
    {
      ToFrontIsSound(rows, cache, lru, used, clock, key, entry);
      cache, lru, used, clock := cache[key := entry], ToFrontOf(lru, key), used[key := clock], clock + 1;
      assert Sound(rows, cache, lru, used, clock);
    }

    method Remove(key: string)
      requires Valid()
      modifies this
      ensures Valid() && rows == old(rows) && connected == old(connected) && used == old(used) && clock == old(clock)
      ensures cache == old(cache) - {key} && lru == Without(old(lru), key)
      ensures key in old(cache) ==> |lru| == |old(lru)| - 1
    {
      RecencyWithout(lru, key, used, clock);
      cache, lru := cache - {key}, Without(lru, key);
    }

    /** `revocationCacheGet` */
    method CacheGet(key: string, now: int) returns (hit: bool, entry: Entry)
      requires Valid()
      modifies this
      ensures Valid() && rows == old(rows) && connected == old(connected)
      ensures hit <==> key in old(cache) && now <= old(cache)[key].expiresAt
      ensures hit ==>
        entry == old(cache)[key] && entry.revoked && cache == old(cache) && lru == ToFrontOf(old(lru), key)
      ensures !hit ==> cache == old(cache) - {key} && lru == Without(old(lru), key)
    {
      entry := Entry(false, 0);
      if key !in cache {
        NothingToRemove(lru, key);
        assert cache - {key} == cache;
        return false, entry;
      }
      if now > cache[key].expiresAt {
        Remove(key);
        return false, entry;
      }
      entry := cache[key];
      ToFront(key, entry);
      assert cache == old(cache);
      return true, entry;
    }

    /** `revocationCacheAdd`: a full cache evicts its least recently used entry. */
    method CacheAdd(key: string, entry: Entry)
      requires Valid() && entry.revoked && key in rows
      modifies this
      ensures Valid() && rows == old(rows) && connected == old(connected)
      ensures key in cache && cache[key] == entry && lru[0] == key
      ensures key in old(cache) || |old(lru)| < MAX_ENTRIES ==> cache == old(cache)[key := entry]
      ensures key !in old(cache) && |old(lru)| == MAX_ENTRIES ==>
        var victim := old(lru)[|old(lru)| - 1];
        && cache == (old(cache) - {victim})[key := entry]
        && forall k :: k in old(cache) && k != victim ==>
           k in old(used) && victim in old(used) && old(used)[k] > old(used)[victim]
    {
      if key !in cache && |lru| >= MAX_ENTRIES {
        var victim := lru[|lru| - 1];
        forall k | k in cache && k != victim ensures k in used && used[k] > used[victim] {
          var i :| 0 <= i < |lru| && lru[i] == k;
        }
        assert victim in lru;
        Remove(victim);
      }
      ToFront(key, entry);
    }

    /** `clearRevocationCache` */
    method Clear()
      modifies this
      ensures Valid() && rows == old(rows) && connected == old(connected) && cache == map[] && lru == []
    {
      cache, lru := map[], [];
    }

    method SetTokenStore(tokens: map<string, int>)
      modifies this
      ensures Valid() && connected && rows == tokens && cache == map[]
    {
      connected, rows := true, tokens;
      Clear();
    }

    /** INSERT OR IGNORE into the store, then cache the positive answer. */
    method RevokeToken(id: string, expiresAt: int, now: int) returns (ok: bool)
      requires Valid()
      modifies this
      ensures Valid() && ok == old(connected) && connected == old(connected)
      ensures rows == if ok && id !in old(rows) then old(rows)[id := expiresAt] else old(rows)
      ensures ok ==> id in cache && cache[id] == Entry(true, now + 30) && |lru| <= 10000
    {
      if !connected { return false; }
      if id !in rows { rows := rows[id := expiresAt]; }
      CacheAdd(id, Entry(true, now + TTL));
      return true;
    }

    /** Whatever was evicted, expired or cleared in between, the answer is the store's: exactly the
        tokens with a row are revoked, and doubt (no store, failed lookup) counts as revoked. */
    method IsRevoked(id: string, now: int, lookupFails: bool) returns (revoked: bool)
      requires Valid()
      modifies this
      ensures Valid() && rows == old(rows) && connected == old(connected)
      ensures connected && !lookupFails ==> (revoked <==> id in rows)
      ensures !revoked ==> connected && id !in rows
      ensures id in rows ==> revoked
      ensures connected && !lookupFails && id in rows ==> id in cache && now <= cache[id].expiresAt
      ensures id in cache && (id !in old(cache) || cache[id] != old(cache)[id]) ==> cache[id] == Entry(true, now + 30)
      ensures lookupFails || id !in rows ==> forall k :: k in cache ==> k in old(cache)
    {
      if !connected { return true; }
      var hit, entry := CacheGet(id, now);
      if hit { return entry.revoked; }
      if lookupFails { return true; }
      revoked := id in rows;
      if revoked { CacheAdd(id, Entry(true, now + TTL)); }
    }

    /** Expired rows leave the store, then the cache is cleared, so no answer outlives its row. */
    method CleanupExpiredTokens(now: int)
      requires Valid()
      modifies this
      ensures Valid() && connected == old(connected)
      ensures connected ==> cache == map[] && rows == map k | k in old(rows) && old(rows)[k] >= now :: old(rows)[k]
      ensures !connected ==> rows == old(rows) && cache == old(cache) && lru == old(lru)
    {
      if connected {
        rows := map k | k in rows && rows[k] >= now :: rows[k];
        Clear();
      }
    }
  }
}
