# protocache core in Dafny

protocache is a key→bytes cache served over gRPC and replicated with Raft.
This project models its core and proves properties of the model:

- **Store engines.** The `Store` interface has two backends:
  - `MapStore`, a map bounded by an optional eviction strategy that is consulted before every insert;
  - `SyncMapStore`, unbounded.

  `NewStore` picks the backend from the engine name and the strategy from the policy name.
- **LRU eviction.** `LRUStrategy` keeps one last-touch time per key. `Evict` scans the tracked keys in Go's unspecified map order for the oldest key still stored.
- **The replicated state machine.** These are the hooks the Raft library calls on a server that owns its map: `Apply` of a `set`/`delete` command, `Snapshot` and `Restore`. Also modelled are the membership list and the bootstrap decision built at the end of `InitRaft`.
- **The three generations of the gRPC cache service:**
  - the handlers over a `Store` (`internal/server/grpc.go`);
  - the earlier server that owns its map and reports misses as `NotFound` (`internal/server/server.go`);
  - the earliest server, which answers a miss with `Found = false` and treats deleting a missing key as success (`internal/server.go`).
- **Node configuration.** This covers the default values, the listen address (`net.JoinHostPort`), the dump path (`filepath.Join`, with `Clean` modelled), and the merge of command-line flags over the configuration file.

How the Go code is represented:

| Go | Dafny |
|---|---|
| object whose fields the code updates in place (`MapStore`, `SyncMapStore`, `LRUStrategy`, each `Server`) | `class` with those fields; methods carry `modifies` and contracts on the new state |
| nil strategy | a `null` `LRUStrategy?` |
| `Store` interface | `datatype Store = MapEngine(..) \| SyncMapEngine(..)` with dispatch methods sharing one contract over `Contents()` |
| `time.Now()` | the strategy's `clock`: every touch reads it and moves it forward |
| iteration over a Go map or a `sync.Map` `Range` | a loop that picks any remaining key (`var k :| k in remaining`) |

Decoding is not modelled. JSON log entries, gob snapshots and the YAML configuration file reach the model already decoded, as `Option`/`LoadResult` inputs (`None` or `LoadFailed` when decoding fails). The UUID `DefaultConfig` generates is passed in as a parameter.

The LRU scan is tied to a functional fold: `Scan(access, data, order)` over *some* enumeration `order` of the tracked keys. `Evict`'s loop is proved equal to it.

The code keeps one quirk, and the model keeps it too. `Evict` uses the empty string as "nothing picked yet" (`internal/store/evictionpolicy.go:87`). If `""` is itself a stored key, the scan picks it when it is the first stored key visited or older than the current pick. Once the pick is `""`, it looks like "nothing picked", so the next stored key visited is taken whatever its time. The victim can then be newer than `""`, and also newer than a non-empty key visited before `""`. When the scan reaches a stored `""` that is newer than the current pick, nothing changes (`EvictionPolicy.EmptyKeyIsSkippedByTheScan`, `EvictionPolicy.NewerEmptyKeyKeepsThePick`). Minimality of the victim is proved whenever `""` is not stored. The gRPC `Set` handler refuses the empty key, so through that handler it never enters the store (`GrpcServer.Server.Set`).

The Raft server of `internal/server/raft.go` owns a plain `map[string][]byte`, not the `store.Store` the handlers of `internal/server/grpc.go` call. It is therefore modelled as its own class, `RaftFsm.Server`, next to `GrpcServer.Server`, which holds a `Store`.

## Model

| member | source | states |
|---|---|---|
| Common.TotalBytesRemove | internal/server/grpc.go:78-82 | the byte total of a map is the length of any one value plus the total of the rest, so the sum does not depend on iteration order |
| Common.TotalBytesAdd | internal/server/grpc.go:80-82 | adding an entry for a new key adds exactly its value's length to the total |
| Common.CollectKeys | internal/store/map.go:91-95 | the collected keys list every key of the map exactly once (their count is the map's size) |
| Common.CopyEntries | internal/server/raft.go:137-141 | the entry-by-entry copy equals the map |
| Common.SumValueLengths | internal/server/server.go:104-107 | the accumulated total equals the sum of all value lengths, whatever order the loop visits the keys in |
| Strings.Join | internal/config/config.go:155 | `strings.Join`, the inverse of the split there: the joined string starts with the first piece, followed by the separator when there is a second (the round trips are `Strings.JoinSplit` and `Strings.SplitJoin`) |
| Strings.Split | internal/config/config.go:155 | `strings.Split` yields at least one piece and no piece contains the separator |
| Strings.JoinSplit | internal/config/config.go:155 | joining the pieces of a split with the separator gives back the original string |
| Strings.SplitCount | internal/config/config.go:155 | a split has exactly one more piece than the string has separators |
| Strings.SplitJoin | internal/config/config.go:155 | splitting a join of separator-free pieces gives back exactly those pieces |
| Strings.SplitFirst | internal/server/raft.go:68 | the first piece of a split is the prefix before the first separator, or the whole string when there is none |
| Strings.Digits | internal/config/config.go:106 | the decimal form of a number is non-empty and made of digits only |
| Strings.Itoa | internal/config/config.go:106 | `strconv.Itoa` gives a non-empty text that starts with `-` exactly when the number is negative; every other character is a decimal digit |
| Strings.ItoaRoundTrip | internal/config/config.go:106 | for every integer, negative ones included, reading the `Itoa` text back (an optional `-`, then digits) gives the number |
| Strings.DigitsRoundTrip | internal/config/config.go:106 | reading the decimal digits back gives the number |
| EvictionPolicy.ScanPicksLive | internal/store/evictionpolicy.go:83-91 | whatever the iteration order, the scan picks nothing when no listed key is stored; otherwise it picks a listed key still in the data, together with that key's time; stale keys are never picked |
| EvictionPolicy.ScanPicksOldest | internal/store/evictionpolicy.go:83-91 | when `""` is not stored, the pick's time is at most that of every listed key still in the data |
| EvictionPolicy.EmptyKeyIsSkippedByTheScan | internal/store/evictionpolicy.go:87 | with `""` stored and visited first, the scan picks a newer key: the sentinel quirk |
| EvictionPolicy.NewerEmptyKeyKeepsThePick | internal/store/evictionpolicy.go:83-91 | a stored `""` visited after an older pick does not replace it, so the scan still picks the oldest key |
| EvictionPolicy.LRUStrategy.constructor | internal/store/evictionpolicy.go:56-61 | a new strategy has the given capacity and tracks nothing |
| EvictionPolicy.LRUStrategy.OnAccess | internal/store/evictionpolicy.go:63-65 | the key gets the current time, which is strictly later than every other tracked key's; nothing else changes |
| EvictionPolicy.LRUStrategy.OnInsert | internal/store/evictionpolicy.go:67-69 | as `OnAccess`; the size argument is ignored |
| EvictionPolicy.LRUStrategy.OnDelete | internal/store/evictionpolicy.go:71-73 | only that key stops being tracked |
| EvictionPolicy.LRUStrategy.Reset | internal/store/evictionpolicy.go:97-99 | nothing is tracked afterwards |
| EvictionPolicy.LRUStrategy.Evict | internal/store/evictionpolicy.go:75-95 | `shouldEvict` holds exactly when the data is at or over capacity, and below capacity the key is `""`. At capacity, the key is what the scan gives for some enumeration of the tracked keys. It is `""` when no tracked key is stored, and otherwise a tracked stored key. When `""` is not stored it has the least time among tracked stored keys. No state changes. |
| EvictionPolicy.NewEvictionStrategy | internal/store/evictionpolicy.go:36-49 | a fresh, empty LRU strategy of the given capacity exactly for `"lru"`; no strategy for every other policy, `"lfu"` and `"random"` included |
| MapStore.MapStore.constructor | internal/store/map.go:31-36 | an empty store over the given strategy, meeting both store invariants |
| MapStore.MapStore.MakeRoom | internal/store/map.go:42-47 | a victim exists exactly when there is a strategy and the store is at capacity. The victim leaves both the data and the tracking. When the store was non-empty the victim is a stored key, and when `""` is not stored it is least recently used. With capacity 0 and an empty store the victim is `""`, which removes nothing. |
| MapStore.MapStore.Set | internal/store/map.go:38-53 | evict-then-insert: the new data is the old data minus the victim, then with the key written, so the key holds the value even when it was itself the victim. Tracking follows the same change and the key becomes the newest. Without a strategy only the key is written. The tracking domain stays equal to the data domain. For a capacity of at least 1, the entry count stays within the capacity once it starts within it; with capacity 0 an empty store evicts `""`, which removes nothing, and still takes the new key, as the Go code does. |
| MapStore.MapStore.Get | internal/store/map.go:55-66 | a hit returns the value and makes the key the newest; a miss is `KeyNotFound` with a nil value and changes nothing; the data never changes |
| MapStore.MapStore.Delete | internal/store/map.go:68-79 | a miss is `KeyNotFound`; a hit removes the key from the data and from the tracking; both invariants are kept |
| MapStore.MapStore.Clear | internal/store/map.go:81-89 | the data is empty and the strategy tracks nothing |
| MapStore.MapStore.List | internal/store/map.go:91-95 | every stored key exactly once |
| MapStore.MapStore.This | internal/store/map.go:97-100 | the stored map itself |
| SyncMapStore.SyncMapStore.constructor | internal/store/syncmapstore.go:25-27 | a new store is empty |
| SyncMapStore.SyncMapStore.Set | internal/store/syncmapstore.go:29-32 | always succeeds and overwrites the key; nothing else changes |
| SyncMapStore.SyncMapStore.Get | internal/store/syncmapstore.go:34-40 | the stored value, or `KeyNotFound` with a nil value |
| SyncMapStore.SyncMapStore.Delete | internal/store/syncmapstore.go:42-49 | `KeyNotFound` with no change on a miss, otherwise exactly that key is removed |
| SyncMapStore.SyncMapStore.Clear | internal/store/syncmapstore.go:51-56 | the deleting `Range` loop leaves the store empty |
| SyncMapStore.SyncMapStore.List | internal/store/syncmapstore.go:58-65 | every stored key exactly once; none for an empty store |
| SyncMapStore.SyncMapStore.This | internal/store/syncmapstore.go:67-74 | the `Range` copy equals the contents |
| Store.NewStore | internal/store/store.go:30-38 | `"syncmap"` gives a sync-map store, which has no eviction. Every other engine gives a map store whose strategy exists exactly for policy `"lru"`, with capacity `1 << 30`. The new store is empty and valid. |
| Store.Set | internal/store/store.go:22 | on both backends the contents become the old contents minus at most one evicted key, with the key written; the sync-map backend never evicts |
| Store.Get | internal/store/store.go:23 | on both backends, the value on a hit, `KeyNotFound` with a nil value on a miss, contents unchanged |
| Store.Delete | internal/store/store.go:24 | on both backends, `KeyNotFound` exactly on a miss, and the key is absent afterwards |
| Store.Clear | internal/store/store.go:25 | on both backends, empty contents |
| Store.List | internal/store/store.go:26 | on both backends, each stored key exactly once |
| Store.This | internal/store/store.go:27 | on both backends, a map equal to the contents |
| Store.SetThenGet | internal/store/map.go:42-51 | a `Get` right after `Set(k, v)` returns `v` without error, on both backends, even when the `Set` evicted |
| GrpcServer.Server.Set | internal/server/grpc.go:30-41 | an empty key is `InvalidArgument` and the store, its eviction tracking included, is untouched. Otherwise the reply is success and the key holds the value. Every other key that remains keeps its value, at most one other key is lost, and the empty key never enters the store. |
| GrpcServer.Server.Get | internal/server/grpc.go:43-57 | a hit replies `found` with the value and increments hits; `KeyNotFound` becomes `NotFound` and increments misses; the contents do not change |
| GrpcServer.Server.Delete | internal/server/grpc.go:59-65 | success removes the key; a missing key is `Unknown`, not `NotFound` |
| GrpcServer.Server.Clear | internal/server/grpc.go:67-70 | always succeeds and empties the store |
| GrpcServer.Server.List | internal/server/grpc.go:72-75 | the reply lists exactly the stored keys, each once |
| GrpcServer.Server.Stats | internal/server/grpc.go:77-90 | `KeyCount` is the number of entries and `MemoryUsageBytes` the sum of the value lengths |
| MapServer.Server.constructor | internal/server/server.go:49-54 | an empty map and zero counters |
| MapServer.Server.Set | internal/server/server.go:56-65 | an empty key is `InvalidArgument` with the map unchanged; any other key is overwritten and the reply is success |
| MapServer.Server.Get | internal/server/server.go:67-79 | a miss is `NotFound` and increments misses; a hit returns the value and increments hits |
| MapServer.Server.Delete | internal/server/server.go:81-91 | a missing key is `NotFound` with no change; a present key is removed |
| MapServer.Server.Clear | internal/server/server.go:93-98 | the map is replaced by an empty one |
| MapServer.Server.Stats | internal/server/server.go:100-115 | the number of entries and the sum of the value lengths |
| LegacyServer.Server.constructor | internal/server.go:21-25 | an empty map |
| LegacyServer.Server.Set | internal/server.go:27-32 | any key, the empty one included, is overwritten; always success |
| LegacyServer.Server.Get | internal/server.go:34-44 | a hit returns the value; a miss is a reply with `Found = false`, never an error |
| LegacyServer.Server.Delete | internal/server.go:46-51 | always success; the key is absent afterwards whether or not it was present |
| LegacyServer.Server.Clear | internal/server.go:53-58 | the map is replaced by an empty one |
| LegacyServer.SetGetDeleteClearScenario | internal/server_test.go:26-70 | a set key is found with its value; an unknown key and a deleted key give `Found = false`; after `Clear` no set key is found |
| RaftFsm.ApplyEntry | internal/server/raft.go:105-130 | no error exactly for a decoded `set` or `delete`. An undecodable entry is `UnmarshalFailed`, and any error leaves the store unchanged. Keys the command does not touch keep their value or absence. `set` writes the key, and `delete` leaves it absent whether or not it was present. |
| RaftFsm.ReplayFromSnapshot | internal/server/raft.go:132-157 | restoring the state after the first `i` entries and replaying the rest equals replaying the whole log |
| RaftFsm.ReplayUntouched | internal/server/raft.go:120-127 | a key no entry touches keeps its value or absence through any replay |
| RaftFsm.ReplayLastTouchWins | internal/server/raft.go:120-127 | the last entry touching a key decides it: after a final `set` it holds that value, after a final `delete` it is absent |
| RaftFsm.ServerId | internal/server/raft.go:68 | the member ID is the prefix of the address before its first `:`, or the whole address when it has none |
| RaftFsm.ClusterServers | internal/server/raft.go:65-72 | one voter per configured member, in order, with the ID taken from the address and the address kept verbatim |
| RaftFsm.CompleteInit | internal/server/raft.go:74-89 | a failed state check is an error only for a node asked to initialise. A bootstrap failure happens exactly when bootstrap is attempted (initialise requested, no existing state) and fails with anything but `ErrCantBootstrap`. Every other case starts. |
| RaftFsm.Server.Apply | internal/server/raft.go:105-130 | the new store and the error are those of `ApplyEntry`. An undecodable entry or an unknown op is an error that changes nothing. `set` writes the key and `delete` removes it, with no error. |
| RaftFsm.Server.Snapshot | internal/server/raft.go:132-142 | the copy equals the store |
| RaftFsm.Server.Restore | internal/server/raft.go:144-157 | a decoded snapshot replaces the store exactly; a decoding failure is returned and the store is unchanged |
| RaftFsm.SnapshotCatchUp | internal/server/raft.go:132-157 | a follower that restores the leader's snapshot and applies the same later entries ends with the leader's store, which is the replay of those entries |
| Config.DefaultConfig | internal/config/config.go:83-99 | the defaults carry the given ID, no members, no initialisation and no dump; both ports are valid TCP ports and differ; the graceful timeout is positive and shorter than the shutdown timeout; the dump directory is rooted |
| Config.DefaultValues | internal/config/config.go:83-99 | the defaults: gRPC port 50051, HTTP port 9091, listen address `0.0.0.0`, timeouts 30 s and 10 s, dump disabled, dump path `/var/lib/protocache/` and file `protocache.gob.gz`, no members, no initialisation |
| Config.Clean | internal/config/config.go:102 | `filepath.Clean` (called by `filepath.Join`) never returns the empty string, gives `.` for it, and returns a rooted path exactly for a rooted input |
| Config.CleanElements | internal/config/config.go:102 | the elements `Clean` keeps are non-empty, never `.` and free of slashes, and a rooted path keeps no `..` |
| Config.JoinPath | internal/config/config.go:102 | `filepath.Join` of two elements is empty only when both are, and is rooted exactly when its first non-empty element is |
| Config.MemoryDumpFileFullPath | internal/config/config.go:101-103 | the dump file path is empty only when directory and name are both empty, and, for a non-empty dump directory, is rooted exactly when that directory is |
| Config.JoinPathOfPlainDirectory | internal/config/config.go:101-103 | `filepath.Join` of a rooted directory written with a trailing slash and a plain file name is the directory followed by the name |
| Config.DefaultDumpFileFullPath | internal/config/config.go:101-103 | the default dump file is `/var/lib/protocache/protocache.gob.gz` |
| Config.JoinHostPort | internal/config/config.go:106 | `net.JoinHostPort` ends with `:` and the port. A host containing `:` is written between `[` and `]`, so the address has length `|host| + 3 + |port|`. Any other host is the address's prefix, followed directly by `:` and the port. |
| Config.SplitHostPort | internal/config/config.go:106 | without colons in host and port, splitting the address on `:` gives back exactly the host and the port |
| Config.HTTPListenAddr | internal/config/config.go:105-107 | for a host without `:`, the address splits on `:` into the host and a port text that reads back as the HTTP port, for every integer port |
| Config.GRPCListenAddr | internal/config/config.go:109-111 | for a host without `:`, the address splits on `:` into the host and a port text that reads back as the gRPC port, for every integer port |
| Config.ListenAddrRoundTrip | internal/config/config.go:105-111 | for a host without `:`, splitting the listen address on `:` gives back exactly the host and the port's plain decimal digits (no sign, since the port is non-negative), which read back as the port; this fixes the port text itself, which the `HTTPListenAddr`/`GRPCListenAddr` contracts only read back |
| Config.DefaultListenAddrs | internal/config/config.go:105-111 | the default listen addresses are `0.0.0.0:9091` and `0.0.0.0:50051` |
| Config.LoadAndMergeConfig | internal/config/config.go:143-160 | a non-nil, non-empty `-id` replaces the ID. A non-empty members string becomes its comma split; rejoining the parts gives the string back and no part contains `,`. Otherwise the file's members are kept. `-init-cluster` is always taken, and everything else comes from the file, or from the defaults when loading failed. The load error is returned alongside. |
| LruScenarios.EvictsLeastRecentlyUsed | internal/store/evictionpolicy_test.go:24-54 | insert `a`, `b`, `c`, touch `b`, insert `d` at capacity 3: `Evict` names `a`, and `b`, `c`, `d` remain |
| LruScenarios.ResetForgetsEverything | internal/store/evictionpolicy_test.go:56-68 | after `Reset`, `Evict` below capacity gives `("", false)` |
| LruScenarios.InsertBelowCapacity | internal/store/map.go:38-53 | a new key below capacity evicts nothing, is added, and becomes strictly newer than every key already stored, whose times are unchanged |
| LruScenarios.InsertAtCapacity | internal/store/map.go:38-53 | a new key at capacity, when `""` is not stored and `oldest` is strictly the least recently used, evicts exactly `oldest` |
| LruScenarios.StoreEvictsLeastRecentlyUsed | internal/store/store_test.go:99-125 | capacity 3 holding `a`, `b`, `c` with `a` just read: inserting `d` evicts `b`, and `a`, `c`, `d` remain |
| LruScenarios.StoreForgetsDeletedKeys | internal/store/store_test.go:127-147 | a deleted key frees its slot: the store lists `b`, `c`, `d`. Inserting `e` then evicts `b`, leaving `c`, `d`, `e` (the test allows either of `b`/`c` to remain; the logical clock fixes it). |
| LruScenarios.StoreResetsOnClear | internal/store/store_test.go:149-167 | after `Clear`, three inserts fit and the fourth evicts the first, leaving `b`, `c`, `d` |

## Left out

- Locking and concurrency.
  - Every operation is one atomic, sequential step, including the `sync.RWMutex` sections and the `sync.Map` operations.
  - The data race in `MapStore.Get`, which updates the tracking map under a read lock, is not modelled.
  - Concurrent `Range` during `SyncMapStore.Clear`, `List` and `This` is not modelled.
- Deep copy versus aliasing.
  - Dafny maps and sequences are values, so the model cannot express that `MapStore.This` hands out the live map while `SyncMapStore.This` and `Snapshot` build independent copies.
  - Both copies are modelled as equal maps.
- `RaftFsm.Server.Snapshot`: the "does not alias its values" half of the deep copy is vacuous on values (see above).
- Codecs. JSON unmarshalling of log entries, gob encoding of snapshots (`Persist`), gob and gzip dump files, and YAML decoding are foreign libraries. Their results enter the model as `Option`/`LoadResult` inputs.
- File and disk I/O:
  - `LoadConfig` reading the file;
  - `PersistMemoryStore`/`ReadPersistedMemoryStore`;
  - the BoltDB, snapshot-store and transport set-up of `InitRaft`.
- `LoadConfig`: the `InitCluster` field's YAML tag repeats `cluster_members`. How the YAML library treats that depends on code that is not part of this model.
- Consensus itself: leader election, log replication, `BootstrapCluster` and `HasExistingState`. The library is not part of this model; their outcomes are inputs of `RaftFsm.CompleteInit`.
- `raftListenAddr` and `GetContainerIP`, which probe network interfaces.
- Runtime values:
  - `Stats`' `GoVersion` and `Timestamp` fields;
  - the UUID of `DefaultConfig`, which is a parameter.
- `GrpcServer.Server.Stats`: the totals are unbounded naturals; the `uint64` accumulation and its wrap-around past 2^64 bytes are not modelled.
- `MapServer.Server.Stats`: same as `GrpcServer.Server.Stats`.
- `time.Now()`. It is a logical clock that strictly increases on every touch, whereas two real calls may return the same time. Ties between keys, which the scan breaks by iteration order, are therefore not modelled.
- `Config.LoadAndMergeConfig`: `-init-cluster` is a plain boolean. Go's `*cli.InitCluster` would dereference a nil pointer if the flag struct were built without it.
- Package-level strings are not modelled separately:
  - `GRPCAddr`/`HTTPAddr` (`fmt.Sprintf`);
  - the `MemoryDumpFileFullPath` variable (plain concatenation);
  - the `MemoryDumpFileFullPath` constants of `internal/server/server.go`.

  The configuration methods are modelled instead.
- `IsMemoryStoreDumpEnabled`, a field read with nothing to state.
- Not modelled because they hold no cache logic:
  - the logging interceptor (`internal/server.go:60-95`);
  - the gRPC client and the command-line tool;
  - process wiring in `cmd/protocache/main.go`;
  - logger set-up;
  - Prometheus registration beyond the two counters;
  - the constant stubs of `internal/handler.go`.
- `EvictionPolicy.LRUStrategy.Evict`: the victim's minimality is stated only when `""` is not a stored key, because after the scan picks a stored `""`, the code's sentinel takes the next stored key whatever its time, so the victim can be non-minimal (see `EvictionPolicy.EmptyKeyIsSkippedByTheScan`).
- `MapStore.MapStore.Set`: same restriction as `EvictionPolicy.LRUStrategy.Evict`.
