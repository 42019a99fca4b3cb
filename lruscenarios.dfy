/** The LRU behaviour the store and eviction-policy tests describe, as call
    sequences on the model whose outcomes follow from the contracts alone. */
module LruScenarios {
  import opened Common
  import opened EvictionPolicy
  import opened MapStore

  /** The strategy-level test's set-up: `a`, `b`, `c` inserted in that order,
      `b` touched again, then `d` inserted, so `a` is strictly the oldest. */
  method TrackFourKeys(strategy: LRUStrategy)
    requires strategy.Valid() && strategy.access == map[]
    modifies strategy
    ensures strategy.Valid()
    ensures strategy.access.Keys == {"a", "b", "c", "d"}
    ensures forall k :: k in strategy.access && k != "a" ==> strategy.access["a"] < strategy.access[k]
  {
    strategy.OnInsert("a", 1);
    strategy.OnInsert("b", 1);
    strategy.OnInsert("c", 1);
    strategy.OnAccess("b");
    strategy.OnInsert("d", 1);
  }

  /** After inserting `a`, `b`, `c`, touching `b` and inserting `d`, the
      strategy at capacity 3 names `a`; dropping it leaves `b`, `c`, `d`. */
  method EvictsLeastRecentlyUsed() returns (evictKey: string, shouldEvict: bool, left: set<string>)
    ensures shouldEvict && evictKey == "a"
    ensures left == {"b", "c", "d"}
  {
    var strategy := new LRUStrategy(3);
    TrackFourKeys(strategy);
    var data: map<string, Bytes> := map["a" := [0], "b" := [1], "c" := [2], "d" := [3]];
    assert |data| == 4 && "" !in data && "a" in data;
    evictKey, shouldEvict := strategy.Evict(data);
    assert evictKey in strategy.access && strategy.access[evictKey] <= strategy.access["a"];
    strategy.OnDelete(evictKey);
    data := data - {evictKey};
    left := data.Keys;
  }

  /** After `Reset` nothing is tracked, and a map below capacity has no victim. */
  method ResetForgetsEverything() returns (evictKey: string, shouldEvict: bool)
    ensures !shouldEvict && evictKey == ""
  {
    var strategy := new LRUStrategy(2);
    strategy.OnInsert("x", 1);
    strategy.OnAccess("x");
    strategy.Reset();
    evictKey, shouldEvict := strategy.Evict(map["x" := [118, 97, 108, 117, 101]]);
  }

  /** One insert of a new key below capacity: nothing is evicted, and the key
      becomes the most recently used. */
  method InsertBelowCapacity(store: MapStore, key: string, value: Bytes)
    requires store.Valid() && store.strategy != null
    requires |store.data| < store.strategy.capacity && key !in store.data
    modifies store, store.strategy
    ensures store.Valid()
    ensures store.data.Keys == old(store.data.Keys) + {key}
    ensures forall k :: k in old(store.data) ==>
      store.strategy.access[k] == old(store.strategy.access[k]) < store.strategy.access[key]
  {
    var _, _ := store.Set(key, value);
  }

  /** One insert of a new key at capacity when `oldest` is strictly the least
      recently used key: exactly `oldest` is evicted. */
  method InsertAtCapacity(store: MapStore, key: string, value: Bytes, oldest: string)
    requires store.Valid() && store.strategy != null
    requires |store.data| == store.strategy.capacity && key !in store.data && "" !in store.data
    requires oldest in store.data
    requires forall k :: k in store.data && k != oldest ==> store.strategy.access[oldest] < store.strategy.access[k]
    modifies store, store.strategy
    ensures store.Valid()
    ensures store.data.Keys == old(store.data.Keys) - {oldest} + {key}
  {
    var _, victim := store.Set(key, value);
    assert victim.Some? && victim.value in old(store.data);
    assert victim.value == oldest;
  }

  /** Three inserts into an empty store of capacity 3, oldest first. */
  method FillThree(store: MapStore, x: string, y: string, z: string)
    requires store.Valid() && store.strategy != null && store.strategy.capacity == 3 && store.data == map[]
    requires x != y && y != z && x != z
    modifies store, store.strategy
    ensures store.Valid()
    ensures store.data.Keys == {x, y, z}
    ensures store.strategy.access[x] < store.strategy.access[y] < store.strategy.access[z]
  {
    InsertBelowCapacity(store, x, [49]);
    InsertBelowCapacity(store, y, [50]);
    InsertBelowCapacity(store, z, [51]);
  }

  /** A new store of capacity 3 governed by an LRU strategy. */
  method NewLruStore() returns (store: MapStore)
    ensures fresh(store) && fresh(store.strategy)
    ensures store.Valid() && store.strategy != null && store.strategy.capacity == 3 && store.data == map[]
  {
    var strategy := NewEvictionStrategy(EvictionLRU, 3);
    store := new MapStore(strategy);
  }

  /** A store of capacity 3 holding `a`, `b`, `c` where `a` was just read:
      inserting `d` evicts `b`, the least recently used. */
  method StoreEvictsLeastRecentlyUsed() returns (missB: Option<StoreError>, keys: set<string>)
    ensures missB == Some(KeyNotFound)
    ensures keys == {"a", "c", "d"}
  {
    var store := NewLruStore();
    FillThree(store, "a", "b", "c");
    var _, _ := store.Get("a");
    InsertAtCapacity(store, "d", [52], "b");
    var _, err := store.Get("b");
    missB := err;
    keys := store.data.Keys;
  }

  /** Inserting `a` and `b`, then deleting `a`. */
  method InsertTwoDeleteFirst(store: MapStore)
    requires store.Valid() && store.strategy != null && store.strategy.capacity == 3 && store.data == map[]
    modifies store, store.strategy
    ensures store.Valid()
    ensures store.data.Keys == {"b"}
  {
    InsertBelowCapacity(store, "a", [49]);
    InsertBelowCapacity(store, "b", [50]);
    var _ := store.Delete("a");
  }

  /** Inserting `a` and `b`, deleting `a`, then inserting `c` and `d`. */
  method DeleteThenRefill(store: MapStore)
    requires store.Valid() && store.strategy != null && store.strategy.capacity == 3 && store.data == map[]
    modifies store, store.strategy
    ensures store.Valid()
    ensures store.data.Keys == {"b", "c", "d"}
    ensures store.strategy.access["b"] < store.strategy.access["c"] < store.strategy.access["d"]
  {
    InsertTwoDeleteFirst(store);
    InsertBelowCapacity(store, "c", [51]);
    InsertBelowCapacity(store, "d", [52]);
  }

  /** A deleted key stops counting towards capacity and the oldest remaining
      key is the next victim: `b` goes when `e` arrives. */
  method StoreForgetsDeletedKeys() returns (before: seq<string>, after: seq<string>)
    ensures |before| == 3 && Enumerates(before, {"b", "c", "d"})
    ensures |after| == 3 && Enumerates(after, {"c", "d", "e"})
  {
    var store := NewLruStore();
    DeleteThenRefill(store);
    before := store.List();
    InsertAtCapacity(store, "e", [53], "b");
    after := store.List();
  }

  /** Inserting `x` and `y`, then clearing. */
  method FillThenClear(store: MapStore)
    requires store.Valid() && store.strategy != null && store.strategy.capacity == 3 && store.data == map[]
    modifies store, store.strategy
    ensures store.Valid() && store.data == map[]
  {
    InsertBelowCapacity(store, "x", [49]);
    InsertBelowCapacity(store, "y", [50]);
    store.Clear();
  }

  /** `Clear` resets the strategy: after it, three inserts fill the store and
      the fourth evicts the first of them. */
  method StoreResetsOnClear() returns (keys: seq<string>)
    ensures |keys| == 3 && Enumerates(keys, {"b", "c", "d"})
  {
    var store := NewLruStore();
    FillThenClear(store);
    FillThree(store, "a", "b", "c");
    InsertAtCapacity(store, "d", [52], "a");
    keys := store.List();
  }
}
