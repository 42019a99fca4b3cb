/** The earliest cache service, internal/server.go: any key is accepted, a
    miss is a reply with `Found` false, and deleting a missing key succeeds. */
module LegacyServer {
  import opened Common
  import opened Rpc

  class Server {
    var store: map<string, Bytes>

    /** `NewServer`: an empty store. */
    constructor ()
      ensures store == map[]
    {
      store := map[];
    }

    /** `Set`: writes any key, the empty one included, overwriting. */
    method Set(key: string, value: Bytes) returns (r: Reply<SetResponse>)
      modifies this
      ensures store == old(store)[key := value]
      ensures r == Ok(SetResponse(true, "OK"))
    {
      store := store[key := value];
      r := Ok(SetResponse(true, "OK"));
    }

    /** `Get`: the value on a hit; a miss is a reply with `Found` false and no
        value, never an error. */
    method Get(key: string) returns (r: Reply<GetResponse>)
      ensures key in store ==> r == Ok(GetResponse(true, "found", store[key]))
      ensures key !in store ==> r == Ok(GetResponse(false, "not found", []))
    {
      if key !in store {
        return Ok(GetResponse(false, "not found", []));
      }
      r := Ok(GetResponse(true, "found", store[key]));
    }

    /** `Delete`: always succeeds; a missing key is left missing. */
    method Delete(key: string) returns (r: Reply<DeleteResponse>)
      modifies this
      ensures store == old(store) - {key}
      ensures r == Ok(DeleteResponse(true, "deleted"))
    {
      store := store - {key};
      r := Ok(DeleteResponse(true, "deleted"));
    }

    /** `Clear`: the store is replaced by an empty map. */
    method Clear() returns (r: Reply<ClearResponse>)
      modifies this
      ensures store == map[]
      ensures r == Ok(ClearResponse(true, "cleared"))
    {
      store := map[];
      r := Ok(ClearResponse(true, "cleared"));
    }
  }

  /** The earliest server's tests: a set key is found, an unknown key is not
      an error, and after `Clear` neither set key is found. */
  method SetGetDeleteClearScenario() returns (hit: Reply<GetResponse>, miss: Reply<GetResponse>,
                                              afterDelete: Reply<GetResponse>, afterClear: Reply<GetResponse>)
    ensures hit == Ok(GetResponse(true, "found", [98, 97, 114]))
    ensures miss.Ok? && !miss.value.found
    ensures afterDelete.Ok? && !afterDelete.value.found
    ensures afterClear.Ok? && !afterClear.value.found
  {
    var server := new Server();
    var _ := server.Set("foo", [98, 97, 114]);
    hit := server.Get("foo");
    miss := server.Get("baz");
    var _ := server.Delete("foo");
    afterDelete := server.Get("foo");
    var _ := server.Set("a", [49]);
    var _ := server.Set("b", [50]);
    var _ := server.Clear();
    afterClear := server.Get("a");
    var resB := server.Get("b");
    assert resB.Ok? && !resB.value.found;
  }
}
