/** `MapStore` (internal/store/map.go): one map guarded by one lock, bounded
    by an optional eviction strategy that is consulted before every insert. */
module MapStore {
  import opened Common
  import opened EvictionPolicy

  class MapStore {
    var data: map<string, Bytes>
    /** The eviction strategy, or `null` for Go's nil strategy (unbounded). */
    const strategy: LRUStrategy?

    /** The objects the store's methods may change. */
    function Repr(): set<object>
    {
      {this} + (if strategy != null then {strategy} else {})
    }

    /** The strategy tracks exactly the stored keys. */
    ghost predicate Valid()
      reads this, strategy
    {
      strategy != null ==> strategy.Valid() && strategy.access.Keys == data.Keys
    }

    /** Under a strategy of positive capacity, the entry count is within it. */
    ghost predicate WithinCapacity()
      reads this
    {
      strategy != null && strategy.capacity >= 1 ==> |data| <= strategy.capacity
    }

    /** `NewMapStore(strategy)` with a strategy that tracks nothing yet. */
    constructor (strategy: LRUStrategy?)
      requires strategy != null ==> strategy.Valid() && strategy.access == map[]
      ensures Valid() && WithinCapacity()
      ensures this.strategy == strategy && data == map[]
    {
      data := map[];
      this.strategy := strategy;
    }

    /** The first half of `Set`: when the strategy reports the store at
        capacity, its victim leaves the data and the strategy. */
    method MakeRoom() returns (ghost victim: Option<string>)
      requires Valid()
      modifies this, strategy
      ensures Valid()
      ensures victim.Some? <==> strategy != null && |old(data)| >= strategy.capacity
      ensures data == (if victim.Some? then old(data) - {victim.value} else old(data))
      ensures strategy != null ==>
        strategy.access == (if victim.Some? then old(strategy.access) - {victim.value} else old(strategy.access))
        && strategy.clock == old(strategy.clock)
      ensures victim.Some? && old(data) != map[] ==> victim.value in old(data)
      ensures victim.Some? && old(data) == map[] ==> victim.value == ""
      ensures victim.Some? && "" !in old(data) ==>
        forall k :: k in old(data) ==> old(strategy.access)[victim.value] <= old(strategy.access)[k]
    {
      victim := None;
      if strategy != null {
        var evictKey, shouldEvict := strategy.Evict(data);
        if shouldEvict {
          assert data != map[] ==> exists k :: k in strategy.access && k in data;
          victim := Some(evictKey);
          data := data - {evictKey};
          strategy.OnDelete(evictKey);
        }
      }
    }

    /** `Set`: when the strategy finds the store at capacity its victim is
        removed first, then the key is tracked and written. The victim may be
        any key, the one being overwritten included. The ghost `victim` names
        the evicted key. */
    method Set(key: string, value: Bytes) returns (err: Option<StoreError>, ghost victim: Option<string>)
      requires Valid()
      modifies this, strategy
      ensures Valid()
      ensures err == None
      ensures victim.Some? <==> strategy != null && |old(data)| >= strategy.capacity
      ensures data == (if victim.Some? then old(data) - {victim.value} else old(data))[key := value]
      ensures key in data && data[key] == value
      ensures strategy == null ==> data == old(data)[key := value]
      ensures strategy != null ==>
        && strategy.access == (if victim.Some? then old(strategy.access) - {victim.value} else old(strategy.access))[key := old(strategy.clock)]
        && forall k :: k in data && k != key ==> strategy.access[k] < strategy.access[key]
      ensures victim.Some? && old(data) != map[] ==> victim.value in old(data)
      ensures victim.Some? && old(data) == map[] ==> victim.value == ""
      ensures victim.Some? && "" !in old(data) ==>
        forall k :: k in old(data) ==> old(strategy.access)[victim.value] <= old(strategy.access)[k]
      ensures old(WithinCapacity()) ==> WithinCapacity()
    {
      victim := MakeRoom();
      if strategy != null {
        strategy.OnInsert(key, |value|);
      }
      data := data[key := value];
      err := None;
    }

    /** `Get`: a hit returns the value and refreshes the key's recency; a miss
        is `KeyNotFound` with a nil value and no change. */
    method Get(key: string) returns (value: Bytes, err: Option<StoreError>)
      requires Valid()
      modifies strategy
      ensures Valid()
      ensures data == old(data)
      ensures key in data ==> err == None && value == data[key]
      ensures key !in data ==> err == Some(KeyNotFound) && value == []
      ensures strategy != null ==>
        strategy.access == (if key in data then old(strategy.access)[key := old(strategy.clock)] else old(strategy.access))
      ensures strategy != null && key !in data ==> strategy.clock == old(strategy.clock)
      ensures strategy != null && key in data ==>
        forall k :: k in data && k != key ==> strategy.access[k] < strategy.access[key]
    {
      if key !in data {
        return [], Some(KeyNotFound);
      }
      value := data[key];
      if strategy != null {
        strategy.OnAccess(key);
      }
      err := None;
    }

    /** `Delete`: a miss is `KeyNotFound` with no change; a hit removes the
        key from the data and from the strategy. */
    method Delete(key: string) returns (err: Option<StoreError>)
      requires Valid()
      modifies this, strategy
      ensures Valid()
      ensures err == None <==> key in old(data)
      ensures err != None ==> err == Some(KeyNotFound)
      ensures data == old(data) - {key}
      ensures strategy != null ==> strategy.access == old(strategy.access) - {key}
      ensures old(WithinCapacity()) ==> WithinCapacity()
    {
      if key !in data {
        return Some(KeyNotFound);
      }
      data := data - {key};
      if strategy != null {
        strategy.OnDelete(key);
      }
      err := None;
    }

    /** `Clear`: an empty map and a reset strategy. */
    method Clear()
      requires Valid()
      modifies this, strategy
      ensures Valid() && WithinCapacity()
      ensures data == map[]
      ensures strategy != null ==> strategy.access == map[]
    {
      data := map[];
      if strategy != null {
        strategy.Reset();
      }
    }

    /** `List`: every stored key exactly once, in no particular order. */
    method List() returns (keys: seq<string>)
      ensures Enumerates(keys, data.Keys) && |keys| == |data|
    {
      keys := CollectKeys(data);
    }

    /** `This`: the stored map itself. */
    method This() returns (m: map<string, Bytes>)
      ensures m == data
    {
      m := data;
    }
  }
}
