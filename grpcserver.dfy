/** The cache service handlers of internal/server/grpc.go: each one calls the
    configured `Store` and turns its outcome into a reply or a status code. */
module GrpcServer {
  import opened Common
  import opened Rpc
  import St = Store

  class Server {
    const store: St.Store
    /** The `CacheHits` and `CacheMisses` counters. */
    var hits: nat
    var misses: nat

    function Repr(): set<object>
    {
      {this} + store.Repr()
    }

    ghost predicate Valid()
      reads this, store.Repr()
    {
      this !in store.Repr() && store.Valid()
    }

    constructor (store: St.Store)
      requires store.Valid()
      ensures Valid() && this.store == store && hits == 0 && misses == 0
    {
      this.store := store;
      hits, misses := 0, 0;
    }

    /** `Set`: an empty key is `InvalidArgument` before the store is called; a
        store error is `Aborted`; otherwise the store holds the value. The
        empty key therefore never enters the store through this handler. */
    method Set(key: string, value: Bytes) returns (r: Reply<SetResponse>)
      requires Valid()
      modifies store.Repr()
      ensures Valid()
      ensures key == "" ==> r == Err(InvalidArgument) && store.Contents() == old(store.Contents())
      ensures key == "" ==> unchanged(store.Repr())
      ensures key != "" ==> r == Ok(SetResponse(true, "OK"))
      ensures key != "" ==> key in store.Contents() && store.Contents()[key] == value
      ensures forall k :: k in store.Contents() && k != key ==>
        k in old(store.Contents()) && store.Contents()[k] == old(store.Contents())[k]
      ensures |store.Contents().Keys - {key}| + 1 >= |old(store.Contents()).Keys - {key}|
      ensures "" !in old(store.Contents()) ==> "" !in store.Contents()
    {
      if key == "" {
        return Err(InvalidArgument);
      }
      var err;
      ghost var evicted;
      err, evicted := St.Set(store, key, value);
      if err.Some? {
        return Err(Aborted);
      }
      ghost var before := old(store.Contents()).Keys - {key};
      assert store.Contents().Keys - {key} ==
        (if evicted.Some? then before - {evicted.value} else before);
      r := Ok(SetResponse(true, "OK"));
    }

    /** `Get`: a hit counts in `hits` and returns the value; a `KeyNotFound`
        counts in `misses` and is `NotFound`; any other error is `Unknown`. */
    method Get(key: string) returns (r: Reply<GetResponse>)
      requires Valid()
      modifies this, store.Repr()
      ensures Valid()
      ensures store.Contents() == old(store.Contents())
      ensures key in store.Contents() ==>
        r == Ok(GetResponse(true, "found", store.Contents()[key])) && hits == old(hits) + 1 && misses == old(misses)
      ensures key !in store.Contents() ==>
        r == Err(NotFound) && misses == old(misses) + 1 && hits == old(hits)
    {
      var value, err := St.Get(store, key);
      if err.Some? {
        if err.value == KeyNotFound {
          misses := misses + 1;
          return Err(NotFound);
        }
        return Err(Unknown);
      }
      hits := hits + 1;
      r := Ok(GetResponse(true, "found", value));
    }

    /** `Delete`: every store error, a missing key included, is `Unknown`. */
    method Delete(key: string) returns (r: Reply<DeleteResponse>)
      requires Valid()
      modifies store.Repr()
      ensures Valid()
      ensures store.Contents() == old(store.Contents()) - {key}
      ensures key in old(store.Contents()) ==> r == Ok(DeleteResponse(true, "deleted"))
      ensures key !in old(store.Contents()) ==> r == Err(Unknown)
    {
      var err := St.Delete(store, key);
      if err.Some? {
        return Err(Unknown);
      }
      r := Ok(DeleteResponse(true, "deleted"));
    }

    /** `Clear`: always succeeds and leaves the store empty. */
    method Clear() returns (r: Reply<ClearResponse>)
      requires Valid()
      modifies store.Repr()
      ensures Valid()
      ensures store.Contents() == map[]
      ensures r == Ok(ClearResponse(true, "cleared"))
    {
      St.Clear(store);
      r := Ok(ClearResponse(true, "cleared"));
    }

    /** `List`: exactly the stored keys, each once. */
    method List() returns (r: Reply<ListResponse>)
      ensures r.Ok? && Enumerates(r.value.keys, store.Contents().Keys)
      ensures r.Ok? && |r.value.keys| == |store.Contents()|
    {
      var keys := St.List(store);
      r := Ok(ListResponse(keys));
    }

    /** `Stats`: the number of entries and the sum of the value lengths. */
    method Stats() returns (r: Reply<StatsResponse>)
      ensures r == Ok(StatsResponse(|store.Contents()|, TotalBytes(store.Contents())))
    {
      var thisStore := St.This(store);
      var totalBytes := SumValueLengths(thisStore);
      r := Ok(StatsResponse(|thisStore|, totalBytes));
    }
  }
}
