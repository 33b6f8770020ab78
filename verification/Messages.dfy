/** Peer-protocol messages of memnode/protocol.py, with the body fields that
    memnode/replication.py reads.  A field absent from a body, or of the wrong type
    where the code tests for that, is `None`. */
module Messages {
  import opened Common

  datatype Durability = Pinned | Cache

  datatype Message =
    | BlockChunk(reqId: Option<string>, number: nat, chunk: Option<Bytes>, final: bool)
    | StreamAbort(reqId: Option<string>)
    | StoreBlock(reqId: Option<string>, chunked: bool, totalSize: Option<int>,
                 payload: Option<Bytes>, durability: Option<Durability>, key: Option<string>)
    | RequestBlock(reqId: Option<string>, blockId: Option<int>, key: Option<string>)
    | FreeBlock(reqId: Option<string>, blockId: Option<int>)
    | Ping(reqId: Option<string>)
    | BlockData(reqId: Option<string>, chunked: bool, size: int,
                payload: Option<Bytes>, blockId: Option<int>)
    | BlockNotFound(reqId: Option<string>)
    | Nack(reqId: Option<string>)
    | Pong(reqId: Option<string>)
    | Freed(reqId: Option<string>, freed: bool)
    | Unhandled(reqId: Option<string>)
}
