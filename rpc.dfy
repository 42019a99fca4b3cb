/** The gRPC status codes and the reply messages the cache service uses. */
module Rpc {
  import opened Common

  /** The status codes the handlers return (`codes.OK` for a reply). */
  datatype Code = InvalidArgument | NotFound | Aborted | Unknown

  /** A handler's outcome: a reply, or an error status and no reply. */
  datatype Reply<+T> = Ok(value: T) | Err(code: Code)

  datatype SetResponse = SetResponse(success: bool, message: string)
  datatype GetResponse = GetResponse(found: bool, message: string, value: Bytes)
  datatype DeleteResponse = DeleteResponse(success: bool, message: string)
  datatype ClearResponse = ClearResponse(success: bool, message: string)
  datatype ListResponse = ListResponse(keys: seq<string>)
  /** `StatsResponse` without its `GoVersion` and `Timestamp` fields. */
  datatype StatsResponse = StatsResponse(keyCount: nat, memoryUsageBytes: nat)
}
