/** Eviction strategies (internal/store/evictionpolicy.go): the LRU strategy
    that tracks one last-touch time per key, and the factory that picks a
    strategy from the configured policy name. */
module EvictionPolicy {
  import opened Common

  /** The `EvictionPolicy` names of the configuration. */
  const EvictionNone: string := "none"
  const EvictionLRU: string := "lru"
  const EvictionLFU: string := "lfu"
  const EvictionRandom: string := "random"

  /** `defaultEvictionPolicyCapacity`, `1 << 30`. */
  const DefaultCapacity: int := 0x4000_0000

  /** One step of the scan in `Evict`: keys no longer in `data` are skipped;
      a key replaces the current pick when nothing is picked yet (the pick is
      the empty string) or when its time is strictly earlier. */
  function ScanStep(access: map<string, nat>, data: map<string, Bytes>,
                    pick: (string, nat), k: string): (string, nat)
    requires k in access
  {
    if k !in data then pick
    else if pick.0 == "" || access[k] < pick.1 then (k, access[k])
    else pick
  }

  /** The pick after scanning the tracked keys in the iteration order `order`,
      starting from the zero key and the zero time. */
  function Scan(access: map<string, nat>, data: map<string, Bytes>, order: seq<string>): (string, nat)
    requires forall i :: 0 <= i < |order| ==> order[i] in access
    decreases |order|
  {
    if order == [] then ("", 0)
    else ScanStep(access, data, Scan(access, data, order[..|order| - 1]), order[|order| - 1])
  }

  /** Whatever the order, the scan picks either nothing or a listed key that is
      still in `data`, together with that key's time; it picks a key whenever
      some listed key is in `data`. */
  lemma {:induction false} ScanPicksLive(access: map<string, nat>, data: map<string, Bytes>, order: seq<string>)
    requires forall i :: 0 <= i < |order| ==> order[i] in access
    ensures var p := Scan(access, data, order);
      (p == ("", 0) && forall i :: 0 <= i < |order| ==> order[i] !in data) ||
      (p.0 in order && p.0 in data && p.1 == access[p.0])
    decreases |order|
  {
    if order != [] {
      var init := order[..|order| - 1];
      ScanPicksLive(access, data, init);
      var last := order[|order| - 1];
      assert forall x :: x in init ==> x in order;
      var p := Scan(access, data, init);
      if last in data && (p.0 == "" || access[last] < p.1) {
        assert Scan(access, data, order) == (last, access[last]);
      } else if p.0 == "" && p.1 == 0 {
        assert forall i :: 0 <= i < |init| ==> init[i] == order[i];
      }
    }
  }

  /** While the empty string is not a live key, the scan picks a key of least
      time among the listed keys still in `data`. */
  lemma {:induction false} ScanPicksOldest(access: map<string, nat>, data: map<string, Bytes>, order: seq<string>)
    requires forall i :: 0 <= i < |order| ==> order[i] in access
    requires "" !in data
    ensures var p := Scan(access, data, order);
      forall i :: 0 <= i < |order| && order[i] in data ==> p.0 != "" && p.1 <= access[order[i]]
    decreases |order|
  {
    if order != [] {
      var init := order[..|order| - 1];
      ScanPicksOldest(access, data, init);
      ScanPicksLive(access, data, init);
      forall i | 0 <= i < |order| && order[i] in data
        ensures Scan(access, data, order).0 != "" && Scan(access, data, order).1 <= access[order[i]]
      {
        if i < |order| - 1 {
          assert order[i] == init[i];
        }
      }
    }
  }

  /** A stored `""` newer than the current pick does not disturb it: the
      sentinel matters only once `""` itself has been picked. */
  lemma NewerEmptyKeyKeepsThePick()
    ensures var access := map["a" := 0, "" := 1, "b" := 2];
      var data := map["a" := [], "" := [], "b" := []];
      Scan(access, data, ["a", "", "b"]) == ("a", 0)
  {
    var access := map["a" := 0, "" := 1, "b" := 2];
    var data: map<string, Bytes> := map["a" := [], "" := [], "b" := []];
    assert ["a"][..0] == [];
    assert Scan(access, data, ["a"]) == ("a", 0);
    assert ["a", ""][..1] == ["a"];
    assert Scan(access, data, ["a", ""]) == ("a", 0);
    assert ["a", "", "b"][..2] == ["a", ""];
  }

  /** The empty-string sentinel: with `""` itself stored and visited first, a
      later key replaces it although `""` is the least recently used one. */
  lemma EmptyKeyIsSkippedByTheScan()
    ensures var access := map["" := 0, "a" := 1];
      var data := map["" := [], "a" := []];
      Scan(access, data, ["", "a"]).0 == "a" && access[""] < access["a"]
  {
    var access := map["" := 0, "a" := 1];
    var data: map<string, Bytes> := map["" := [], "a" := []];
    assert ["", "a"][..1] == [""];
    assert [""][..0] == [];
  }

  /** `LRUStrategy`: capacity and the last-touch time of each tracked key. */
  class LRUStrategy {
    const capacity: int
    var access: map<string, nat>
    /** The logical clock standing for `time.Now()`: every touch reads it and
        moves it forward, so later touches carry strictly later times. */
    var clock: nat

    /** Every recorded time lies in the past of the clock. */
    ghost predicate Valid()
      reads this
    {
      forall k :: k in access ==> access[k] < clock
    }

    /** `NewLRUStrategy(capacity)`. */
    constructor (capacity: int)
      ensures Valid()
      ensures this.capacity == capacity && access == map[]
    {
      this.capacity := capacity;
      access := map[];
      clock := 0;
    }

    /** `OnAccess`: the key becomes the most recently used one. */
    method OnAccess(key: string)
      requires Valid()
      modifies this
      ensures Valid()
      ensures access == old(access)[key := old(clock)] && clock > old(clock)
      ensures forall k :: k in access && k != key ==> access[k] < access[key]
    {
      access := access[key := clock];
      clock := clock + 1;
    }

    /** `OnInsert`: the key becomes the most recently used one; its size is ignored. */
    method OnInsert(key: string, size: int)
      requires Valid()
      modifies this
      ensures Valid()
      ensures access == old(access)[key := old(clock)] && clock > old(clock)
      ensures forall k :: k in access && k != key ==> access[k] < access[key]
    {
      access := access[key := clock];
      clock := clock + 1;
    }

    /** `OnDelete`: only this key stops being tracked. */
    method OnDelete(key: string)
      requires Valid()
      modifies this
      ensures Valid()
      ensures access == old(access) - {key} && clock == old(clock)
    {
      access := access - {key};
    }

    /** `Reset`: nothing is tracked any more. */
    method Reset()
      requires Valid()
      modifies this
      ensures Valid()
      ensures access == map[] && clock == old(clock)
    {
      access := map[];
    }

    /** `Evict(data)`: below capacity there is no victim. At capacity the
        tracked keys are scanned in Go's unspecified map order (chosen here
        nondeterministically) for the oldest key still in `data`. */
    method Evict(data: map<string, Bytes>) returns (key: string, shouldEvict: bool)
      ensures shouldEvict <==> |data| >= capacity
      ensures !shouldEvict ==> key == ""
      ensures shouldEvict ==> exists order :: Enumerates(order, access.Keys) && key == Scan(access, data, order).0
      ensures shouldEvict && (forall k :: k in access ==> k !in data) ==> key == ""
      ensures shouldEvict && (exists k :: k in access && k in data) ==> key in access && key in data
      ensures shouldEvict && "" !in data ==>
        forall k :: k in access && k in data ==> access[key] <= access[k]
    {
      if |data| < capacity {
        return "", false;
      }
      var oldestKey, oldestTime := "", 0;
      ghost var visited: seq<string> := [];
      var remaining := access.Keys;
      while remaining != {}
        invariant remaining <= access.Keys
        invariant Enumerates(visited, access.Keys - remaining)
        invariant (oldestKey, oldestTime) == Scan(access, data, visited)
        decreases remaining
      {
        var k :| k in remaining;
        var t := access[k];
        assert visited == (visited + [k])[..|visited|];
        if k in data && (oldestKey == "" || t < oldestTime) {
          oldestKey, oldestTime := k, t;
        }
        remaining := remaining - {k};
        visited := visited + [k];
      }
      assert access.Keys - remaining == access.Keys;
      ScanPicksLive(access, data, visited);
      forall k | k in access && k in data
        ensures oldestKey in access && oldestKey in data
        ensures "" !in data ==> access[oldestKey] <= access[k]
      {
        var i :| 0 <= i < |visited| && visited[i] == k;
        if "" !in data {
          ScanPicksOldest(access, data, visited);
        }
      }
      return oldestKey, true;
    }
  }

  /** `NewEvictionStrategy(policy, capacity)`: an LRU strategy for `"lru"`, and
      no strategy (Go's nil) for every other name, `"lfu"` and `"random"` included. */
  method NewEvictionStrategy(policy: string, capacity: int) returns (s: LRUStrategy?)
    ensures s != null <==> policy == EvictionLRU
    ensures s != null ==> fresh(s) && s.Valid() && s.capacity == capacity && s.access == map[]
  {
    if policy == EvictionLRU {
      s := new LRUStrategy(capacity);
    } else if policy == EvictionLFU {
      s := null;
    } else if policy == EvictionRandom {
      s := null;
    } else {
      s := null;
    }
  }
}
