/** The content-addressed backend (IPFS, reached through the TxPB NodeAPIClient), seen
    as the table of answers it gives: what a request for the object node stored under a
    hash returns, what a request for the raw block stored under a hash returns, and the
    object table it holds for each bucket. A request is a remote call, so an answer may
    be a transport error (connection, timeout, cancellation) rather than a value. */
module Backend {
  import opened Types

  /** The object node stored in the backend; its data lives in the block `dataHash`. */
  datatype ObjectNode = ObjectNode(dataHash: string, info: ObjectInfo)

  /** The backend's answers. A hash in `nodes`/`blocks` is answered with the stored
      value or with the error the call fails with; a hash in neither is unknown. */
  datatype Dag = Dag(
    nodes: map<string, Result<ObjectNode>>,
    blocks: map<string, Result<seq<bv8>>>,
    listings: map<string, map<string, string>>)

  /** ipfsObject: resolve a hash to the object node stored under it. An unknown hash
      fails with NoSuchNode; a known one gives the backend's answer, value or error. */
  function IpfsObject(dag: Dag, hash: string): (r: Result<ObjectNode>)
    ensures r.Ok? <==> hash in dag.nodes && dag.nodes[hash].Ok?
    ensures hash in dag.nodes ==> r == dag.nodes[hash]
    ensures hash !in dag.nodes ==> r == Err(NoSuchNode(hash))
  {
    if hash in dag.nodes then dag.nodes[hash] else Err(NoSuchNode(hash))
  }

  /** ipfsBytes: fetch the raw bytes stored under a hash, with the same error cases. */
  function IpfsBytes(dag: Dag, hash: string): (r: Result<seq<bv8>>)
    ensures r.Ok? <==> hash in dag.blocks && dag.blocks[hash].Ok?
    ensures hash in dag.blocks ==> r == dag.blocks[hash]
    ensures hash !in dag.blocks ==> r == Err(NoSuchNode(hash))
  {
    if hash in dag.blocks then dag.blocks[hash] else Err(NoSuchNode(hash))
  }

  /** The object table the backend holds for a bucket: what ensureCache loads. */
  function Listing(dag: Dag, bucket: string): map<string, string> {
    if bucket in dag.listings then dag.listings[bucket] else map[]
  }
}
