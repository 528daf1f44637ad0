/** The result cache manager's own methods, proved against the functions of `CacheModel`. */
module ResultCacheManager {
  import opened Basics
  import opened CacheModel

  class ResultCacheManager {
    const ttl: real
    const maxSize: int
    var entries: map<string, Entry>
    var order: seq<string>

    ghost function View(): Cache
      reads this
    {
      Cache(entries, order)
    }

    constructor (ttl: real, maxSize: int)
      ensures View() == EMPTY_CACHE && this.ttl == ttl && this.maxSize == maxSize
    {
      this.ttl, this.maxSize, entries, order := ttl, maxSize, map[], [];
    }

    method CacheResult(id: string, results: seq<Prediction>, now: real)
      requires IsDictionary(View())
      modifies this
      ensures View() == Write(old(View()), id, results, now, ttl, maxSize)
      ensures IsDictionary(View()) && |entries| <= Max(1, maxSize)
    {
      SizeAfterWrite(View(), id, results, now, ttl, maxSize);
      CleanupExpiredCache(now);
      EnforceCacheSizeLimit();
      if id in entries {
        return;
      }
      entries := entries[id := Entry(results, now)];
      order := order + [id];
    }

    method GetCachedResult(id: string, now: real) returns (r: Option<seq<Prediction>>)
      modifies this
      ensures View() == AfterLookup(old(View()), id, now, ttl)
      ensures r == Lookup(old(View()), id, now, ttl)
      ensures r.Some? <==> id in old(entries) && now - old(entries)[id].cachedAt < ttl
      ensures r.Some? ==> r.value == old(entries)[id].results
      ensures entries == if r.Some? then old(entries) else old(entries) - {id}
    {
      if id !in entries {
        return None;
      }
      if now - entries[id].cachedAt >= ttl {
        Delete(id);
        return None;
      }
      r := Some(entries[id].results);
    }

    method ClearCache()
      modifies this
      ensures View() == EMPTY_CACHE && IsDictionary(View())
    {
      entries, order := map[], [];
    }

    method CleanupExpiredCache(now: real)
      requires IsDictionary(View())
      modifies this
      ensures View() == CleanUp(old(View()), now, ttl)
      ensures forall k :: k in entries <==> k in old(entries) && now - old(entries)[k].cachedAt < ttl
      ensures forall k :: k in entries ==> entries[k] == old(entries)[k]
    {
      var expired: seq<string> := [];
      for k := 0 to |order|
        invariant View() == old(View())
        invariant forall x :: x in expired <==> x in order[..k] && Stale(entries[x], now, ttl)
      {
        assert order[k] in Elements(order);
        if now - entries[order[k]].cachedAt >= ttl {
          expired := expired + [order[k]];
        }
      }
      assert Elements(expired) == StaleKeys(View(), now, ttl) by {
        assert order[..|order|] == order;
        assert forall x :: x in entries <==> x in Elements(order);
      }
      DeleteAll(expired);
    }

    method EnforceCacheSizeLimit()
      modifies this
      ensures View() == Enforce(old(View()), maxSize)
    {
      if |entries| < maxSize {
        assert Victims(View(), maxSize) == [];
        RemoveNothing(View());
        return;
      }
      var sorted := SortByAge(order, entries);
      var surplus := |entries| - maxSize + 1;
      var victims := sorted[..Min(surplus, |sorted|)];
      assert victims == Victims(View(), maxSize);
      DeleteAll(victims);
    }

    method DeleteAll(keys: seq<string>)
      modifies this
      ensures View() == Remove(old(View()), Elements(keys))
    {
      RemoveNothing(View());
      for k := 0 to |keys|
        invariant View() == Remove(old(View()), Elements(keys[..k]))
      {
        RemoveTwice(old(View()), Elements(keys[..k]), {keys[k]});
        assert Elements(keys[..k + 1]) == Elements(keys[..k]) + {keys[k]};
        Delete(keys[k]);
      }
      assert keys[..|keys|] == keys;
    }

    method Delete(key: string)
      modifies this
      ensures View() == Remove(old(View()), {key})
    {
      entries := entries - {key};
      order := Without(order, {key});
    }
  }

  lemma RemoveNothing(c: Cache)
    ensures Remove(c, Elements([])) == c && Remove(c, {}) == c
  {
    WithoutNothing(c.order);
    assert Elements<string>([]) == {};
    assert c.entries - {} == c.entries;
  }

  lemma {:induction false} WithoutNothing(ids: seq<string>)
    ensures Without(ids, {}) == ids
  {
    if ids != [] {
      WithoutNothing(ids[..|ids| - 1]);
    }
  }
}
