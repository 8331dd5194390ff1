/** The memory tier as the object the server holds, its key order and entries updated in place. */
module MemoryCacheObject {
  import M = MemoryCache

  class Cache {
    const maxItems: int
    var order: seq<string>
    var entries: map<string, M.Entry>

    ghost function View(): M.Store
      reads this
    {
      M.Store(order, entries)
    }

    constructor (maxItems: int)
      ensures this.maxItems == maxItems && View() == M.EMPTY
    {
      this.maxItems, order, entries := maxItems, [], map[];
    }

    method MapDelete(key: string)
      modifies this
      ensures View() == M.Delete(old(View()), key)
    {
      order := M.Without(order, key);
      entries := entries - {key};
    }

    method MapSet(key: string, entry: M.Entry)
      modifies this
      ensures View() == M.Put(old(View()), key, entry)
    {
      if key !in entries {
        order := order + [key];
      }
      entries := entries[key := entry];
    }

    method Get(key: string, now: int) returns (value: M.Value)
      modifies this
      ensures (View(), value) == M.Get(old(View()), key, now)
    {
      if key !in entries {
        return M.Null;
      }
      var entry := entries[key];
      MapDelete(key);
      if now > entry.expiresAt {
        return M.Null;
      }
      MapSet(key, entry);
      return entry.value;
    }

    method Set(key: string, value: M.Value, ttlSeconds: int, now: int)
      modifies this
      ensures View() == M.Set(old(View()), maxItems, key, value, ttlSeconds, now)
    {
      if |order| >= maxItems {
        if |order| > 0 && order[0] != "" {
          MapDelete(order[0]);
        }
      }
      MapSet(key, M.Entry(value, now + ttlSeconds * 1000));
    }
  }
}
