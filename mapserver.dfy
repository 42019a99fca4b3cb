/** The earlier cache service of internal/server/server.go, which owns its
    map directly: misses are `NotFound` errors and empty keys are refused. */
module MapServer {
  import opened Common
  import opened Rpc

  class Server {
    var store: map<string, Bytes>
    /** The `CacheHits` and `CacheMisses` counters. */
    var hits: nat
    var misses: nat

    /** `NewServer`: an empty store. */
    constructor ()
      ensures store == map[] && hits == 0 && misses == 0
    {
      store := map[];
      hits, misses := 0, 0;
    }

    /** `Set`: an empty key is `InvalidArgument` and changes nothing; any other
        key is written, overwriting. */
    method Set(key: string, value: Bytes) returns (r: Reply<SetResponse>)
      modifies this
      ensures hits == old(hits) && misses == old(misses)
      ensures key == "" ==> r == Err(InvalidArgument) && store == old(store)
      ensures key != "" ==> r == Ok(SetResponse(true, "OK")) && store == old(store)[key := value]
    {
      if key == "" {
        return Err(InvalidArgument);
      }
      store := store[key := value];
      r := Ok(SetResponse(true, "OK"));
    }

    /** `Get`: a hit counts in `hits` and returns the value; a miss counts
        in `misses` and is `NotFound`. */
    method Get(key: string) returns (r: Reply<GetResponse>)
      modifies this
      ensures store == old(store)
      ensures key in store ==>
        r == Ok(GetResponse(true, "found", store[key])) && hits == old(hits) + 1 && misses == old(misses)
      ensures key !in store ==>
        r == Err(NotFound) && misses == old(misses) + 1 && hits == old(hits)
    {
      if key !in store {
        misses := misses + 1;
        return Err(NotFound);
      }
      hits := hits + 1;
      r := Ok(GetResponse(true, "found", store[key]));
    }

    /** `Delete`: a miss is `NotFound` with no change; a hit removes the key. */
    method Delete(key: string) returns (r: Reply<DeleteResponse>)
      modifies this
      ensures hits == old(hits) && misses == old(misses)
      ensures store == old(store) - {key}
      ensures key in old(store) ==> r == Ok(DeleteResponse(true, "deleted"))
      ensures key !in old(store) ==> r == Err(NotFound)
    {
      if key !in store {
        return Err(NotFound);
      }
      store := store - {key};
      r := Ok(DeleteResponse(true, "deleted"));
    }

    /** `Clear`: the store is replaced by an empty map. */
    method Clear() returns (r: Reply<ClearResponse>)
      modifies this
      ensures hits == old(hits) && misses == old(misses)
      ensures store == map[] && r == Ok(ClearResponse(true, "cleared"))
    {
      store := map[];
      r := Ok(ClearResponse(true, "cleared"));
    }

    /** `Stats`: the number of entries and the sum of the value lengths. */
    method Stats() returns (r: Reply<StatsResponse>)
      ensures r == Ok(StatsResponse(|store|, TotalBytes(store)))
    {
      var totalBytes := SumValueLengths(store);
      r := Ok(StatsResponse(|store|, totalBytes));
    }
  }
}
