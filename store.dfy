/** The `Store` interface (internal/store/store.go) as a sum of its two
    backends, its shared contract stated over the stored map, and the
    `NewStore` factory. */
module Store {
  import opened Common
  import opened EvictionPolicy
  import opened MapStore
  import opened SyncMapStore

  /** The `StoreEngine` names of the configuration. */
  const MapStoreEngine: string := "map"
  const SyncMapStoreEngine: string := "syncmap"

  datatype Store = MapEngine(m: MapStore) | SyncMapEngine(s: SyncMapStore)
  {
    function Repr(): set<object>
    {
      match this
      case MapEngine(m) => m.Repr()
      case SyncMapEngine(s) => {s}
    }

    ghost predicate Valid()
      reads Repr()
    {
      MapEngine? ==> m.Valid()
    }

    /** The stored map, whichever the backend. */
    ghost function Contents(): map<string, Bytes>
      reads Repr()
    {
      match this
      case MapEngine(m) => m.data
      case SyncMapEngine(s) => s.data
    }
  }

  /** `NewStore(engine, policy)`: `"syncmap"` gives a `SyncMapStore` (no
      eviction); every other engine name gives a `MapStore` whose strategy is
      built from the policy with capacity `1 << 30`. */
  method NewStore(engine: string, policy: string) returns (st: Store)
    ensures st.Valid() && st.Contents() == map[] && fresh(st.Repr())
    ensures st.SyncMapEngine? <==> engine == SyncMapStoreEngine
    ensures st.MapEngine? ==> (st.m.strategy != null <==> policy == EvictionLRU)
    ensures st.MapEngine? && st.m.strategy != null ==> st.m.strategy.capacity == DefaultCapacity
  {
    var strategy := NewEvictionStrategy(policy, DefaultCapacity);
    if engine == SyncMapStoreEngine {
      var s := new SyncMapStore();
      st := SyncMapEngine(s);
    } else {
      var m := new MapStore(strategy);
      st := MapEngine(m);
    }
  }

  /** `Store.Set`: the key holds the value afterwards; every other key keeps
      its value, except at most one evicted key (never more than one). */
  method Set(st: Store, key: string, value: Bytes) returns (err: Option<StoreError>, ghost evicted: Option<string>)
    requires st.Valid()
    modifies st.Repr()
    ensures st.Valid()
    ensures err == None
    ensures st.Contents() == (if evicted.Some? then old(st.Contents()) - {evicted.value} else old(st.Contents()))[key := value]
    ensures st.SyncMapEngine? ==> evicted == None
  {
    match st
    case MapEngine(m) =>
      err, evicted := m.Set(key, value);
    case SyncMapEngine(s) =>
      err := s.Set(key, value);
      evicted := None;
  }

  /** `Store.Get`: the value on a hit, `KeyNotFound` on a miss; the contents
      do not change. */
  method Get(st: Store, key: string) returns (value: Bytes, err: Option<StoreError>)
    requires st.Valid()
    modifies st.Repr()
    ensures st.Valid()
    ensures st.Contents() == old(st.Contents())
    ensures key in st.Contents() ==> err == None && value == st.Contents()[key]
    ensures key !in st.Contents() ==> err == Some(KeyNotFound) && value == []
  {
    match st
    case MapEngine(m) =>
      value, err := m.Get(key);
    case SyncMapEngine(s) =>
      value, err := s.Get(key);
  }

  /** A `Get` right after a `Set` returns the value just written, on both
      backends, even when the `Set` evicted a key. */
  method SetThenGet(st: Store, key: string, value: Bytes) returns (got: Bytes, err: Option<StoreError>)
    requires st.Valid()
    modifies st.Repr()
    ensures st.Valid()
    ensures err == None && got == value
  {
    var _, _ := Set(st, key, value);
    got, err := Get(st, key);
  }

  /** `Store.Delete`: `KeyNotFound` on a miss; the key is gone afterwards. */
  method Delete(st: Store, key: string) returns (err: Option<StoreError>)
    requires st.Valid()
    modifies st.Repr()
    ensures st.Valid()
    ensures err == None <==> key in old(st.Contents())
    ensures err != None ==> err == Some(KeyNotFound)
    ensures st.Contents() == old(st.Contents()) - {key}
  {
    match st
    case MapEngine(m) =>
      err := m.Delete(key);
    case SyncMapEngine(s) =>
      err := s.Delete(key);
  }

  /** `Store.Clear`: nothing is stored afterwards. */
  method Clear(st: Store)
    requires st.Valid()
    modifies st.Repr()
    ensures st.Valid()
    ensures st.Contents() == map[]
  {
    match st
    case MapEngine(m) =>
      m.Clear();
    case SyncMapEngine(s) =>
      s.Clear();
  }

  /** `Store.List`: each stored key exactly once. */
  method List(st: Store) returns (keys: seq<string>)
    ensures Enumerates(keys, st.Contents().Keys) && |keys| == |st.Contents()|
  {
    match st
    case MapEngine(m) =>
      keys := m.List();
    case SyncMapEngine(s) =>
      keys := s.List();
  }

  /** `Store.This`: a map equal to the contents. */
  method This(st: Store) returns (m: map<string, Bytes>)
    ensures m == st.Contents()
  {
    match st
    case MapEngine(ms) =>
      m := ms.This();
    case SyncMapEngine(s) =>
      m := s.This();
  }
}
