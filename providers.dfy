/**
 * The three outbound HTTP calls of the address discovery, made through axios
 * (src/blockchain/blockchain.service.ts:23-30, 42-44). The providers are an
 * oracle fixed when the client is built; the client's only state is the
 * list of requests it has been sent, in order.
 */
module Providers {
  import opened Wrappers
  import opened Chain

  /** A network error, a non-2xx status, or a body of the wrong shape. */
  datatype HttpError = HttpError

  datatype Request =
    | LatestBlock                      // blocks?s=id(desc)&limit=1
    | BlockTransactions(blockId: int)  // transactions?q=block_id(<id>)
    | TransactionDetail(txid: string)  // api/tx/<txid>

  /**
   * What each provider answers: the block list of the newest-block query,
   * the transaction hashes of a block, and a transaction's body.
   */
  datatype Endpoints = Endpoints(
    latestBlocks: Result<seq<Block>, HttpError>,
    blockTransactions: int -> Result<seq<string>, HttpError>,
    transaction: string -> Result<TransactionBody, HttpError>)

  class HttpClient {
    const endpoints: Endpoints
    var requests: seq<Request>

    constructor (endpoints: Endpoints)
      ensures this.endpoints == endpoints && requests == []
    {
      this.endpoints := endpoints;
      requests := [];
    }

    method GetLatestBlocks() returns (r: Result<seq<Block>, HttpError>)
      modifies this
      ensures r == endpoints.latestBlocks
      ensures requests == old(requests) + [LatestBlock]
    {
      r := endpoints.latestBlocks;
      requests := requests + [LatestBlock];
    }

    method GetBlockTransactions(blockId: int) returns (r: Result<seq<string>, HttpError>)
      modifies this
      ensures r == endpoints.blockTransactions(blockId)
      ensures requests == old(requests) + [BlockTransactions(blockId)]
    {
      r := endpoints.blockTransactions(blockId);
      requests := requests + [BlockTransactions(blockId)];
    }

    method GetTransaction(txid: string) returns (r: Result<TransactionBody, HttpError>)
      modifies this
      ensures r == endpoints.transaction(txid)
      ensures requests == old(requests) + [TransactionDetail(txid)]
    {
      r := endpoints.transaction(txid);
      requests := requests + [TransactionDetail(txid)];
    }
  }
}
