/** `SyncMapStore` (internal/store/syncmapstore.go): an unbounded store over
    a concurrent map, with every operation taken as one atomic step. */
module SyncMapStore {
  import opened Common

  class SyncMapStore {
    var data: map<string, Bytes>

    /** `NewSyncMapStore()`. */
    constructor ()
      ensures data == map[]
    {
      data := map[];
    }

    /** `Set`: always succeeds and overwrites. */
    method Set(key: string, value: Bytes) returns (err: Option<StoreError>)
      modifies this
      ensures err == None
      ensures data == old(data)[key := value]
    {
      data := data[key := value];
      err := None;
    }

    /** `Get`: the stored value, or `KeyNotFound` with a nil value. */
    method Get(key: string) returns (value: Bytes, err: Option<StoreError>)
      ensures key in data ==> err == None && value == data[key]
      ensures key !in data ==> err == Some(KeyNotFound) && value == []
    {
      if key !in data {
        return [], Some(KeyNotFound);
      }
      return data[key], None;
    }

    /** `Delete`: `KeyNotFound` with no change on a miss, otherwise removes
        exactly that key. */
    method Delete(key: string) returns (err: Option<StoreError>)
      modifies this
      ensures err == None <==> key in old(data)
      ensures err != None ==> err == Some(KeyNotFound)
      ensures data == old(data) - {key}
    {
      if key !in data {
        return Some(KeyNotFound);
      }
      data := data - {key};
      err := None;
    }

    /** `Clear`: a `Range` over the map that deletes every key it visits. */
    method Clear()
      modifies this
      ensures data == map[]
    {
      var visit := data.Keys;
      while visit != {}
        invariant data.Keys == visit
        decreases visit
      {
        var k :| k in visit;
        data := data - {k};
        visit := visit - {k};
      }
    }

    /** `List`: a `Range` that appends each key; every key exactly once. */
    method List() returns (keys: seq<string>)
      ensures Enumerates(keys, data.Keys) && |keys| == |data|
    {
      keys := CollectKeys(data);
    }

    /** `This`: a fresh map built by a `Range` copy, equal to the contents. */
    method This() returns (snapshot: map<string, Bytes>)
      ensures snapshot == data
    {
      snapshot := CopyEntries(data);
    }
  }
}
