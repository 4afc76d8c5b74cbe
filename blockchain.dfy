/**
 * BlockchainService (src/blockchain/blockchain.service.ts): the address
 * discovery as the source runs it, step by step, against a Redis service
 * and an HTTP client injected at construction, growing a JavaScript Set.
 * Its contract ties every observable effect of one call to `Discovery.Run`.
 */
module Blockchain {
  import opened Wrappers
  import opened Chain
  import opened OrderedSet
  import opened Providers
  import opened Redis
  import opened Discovery

  class BlockchainService {
    const redisService: RedisService
    const http: HttpClient

    constructor (redisService: RedisService, http: HttpClient)
      ensures this.redisService == redisService && this.http == http
    {
      this.redisService := redisService;
      this.http := http;
    }

    /**
     * The body of the per-transaction try block (lines 52-64): every input
     * with a prevout adds its address, then every output with a truthy
     * address adds it. `ok` is false when `vin` or `vout` cannot be
     * iterated; the inputs have then possibly added their addresses already.
     */
    method AddTransactionAddresses(addresses: AddressSet, txid: string, body: TransactionBody, ghost raw: seq<string>)
      returns (ok: bool)
      requires addresses.items == Dedup(raw)
      modifies addresses
      ensures ok == BodyAddresses(txid, body).Ok?
      ensures ok ==> addresses.items == Dedup(raw + BodyAddresses(txid, body).value)
      ensures !ok && body.vin.Some? ==> addresses.items == Dedup(raw + InputAddresses(body.vin.value))
      ensures !ok && body.vin.None? ==> addresses.items == Dedup(raw)
    {
      if body.vin.None? {
        return false;
      }
      AddInputAddresses(addresses, body.vin.value, raw);
      if body.vout.None? {
        return false;
      }
      ghost var seen := raw + InputAddresses(body.vin.value);
      AddOutputAddresses(addresses, body.vout.value, seen);
      assert seen + OutputAddresses(body.vout.value)
          == raw + (InputAddresses(body.vin.value) + OutputAddresses(body.vout.value));
      ok := true;
    }

    /**
     * The loop over the block's txids (lines 37-71): one detail fetch per
     * txid in order, stopping at the first that fails or is malformed; on
     * success the distinct addresses in order of first insertion.
     */
    method CollectAddresses(txids: seq<string>) returns (r: Result<seq<string>, Fault>)
      modifies http
      ensures http.requests == old(http.requests) + DetailRequests(http.endpoints, txids)
      ensures Scan(http.endpoints, txids).Err? ==> r == Err(Scan(http.endpoints, txids).error)
      ensures Scan(http.endpoints, txids).Ok? ==> r == Ok(Dedup(Scan(http.endpoints, txids).value))
    {
      ghost var e := http.endpoints;
      var addresses := new AddressSet();
      var k := 0;
      while k < |txids|
        invariant 0 <= k <= |txids|
        invariant Scan(e, txids[..k]).Ok?
        invariant addresses.items == Dedup(Scan(e, txids[..k]).value)
        invariant http.requests == old(http.requests) + DetailRequests(e, txids[..k])
      {
        var txid := txids[k];
        ScanStep(e, txids, k);
        var response := http.GetTransaction(txid);
        if response.Err? {
          return Err(TransactionFetchFault(txid));
        }
        var ok := AddTransactionAddresses(addresses, txid, response.value, Scan(e, txids[..k]).value);
        if !ok {
          return Err(ExtractionFault(txid));
        }
        k := k + 1;
      }
      assert txids[..k] == txids;
      // Array.from(addresses)
      r := Ok(addresses.items);
    }

    /** getAddressesWithRecentTransactions: the cache, else the three-hop fan-out, cached for 900 s. */
    method GetAddressesWithRecentTransactions() returns (r: Result<seq<string>, Fault>)
      modifies redisService, http
      ensures var e := Run(old(redisService.store), redisService.getFails, redisService.setFails, http.endpoints);
        && r == e.result
        && redisService.store == e.store
        && redisService.commands == old(redisService.commands) + e.commands
        && http.requests == old(http.requests) + e.requests
    {
      var cached := redisService.Get(AddressesKey);
      if cached.Err? {
        return Err(CacheReadFault);
      }
      if cached.value.Some? {
        return Ok(cached.value.value);
      }

      var blocks := http.GetLatestBlocks();
      if blocks.Err? || |blocks.value| == 0 {
        return Err(BlockListFault);
      }
      var blockId := blocks.value[0].id;
      var transactions := http.GetBlockTransactions(blockId);
      if transactions.Err? {
        return Err(BlockListFault);
      }

      ghost var e := http.endpoints;
      ghost var fanOut := FanOut(e);
      assert fanOut.requests == [LatestBlock, BlockTransactions(blockId)] + DetailRequests(e, transactions.value);
      assert http.requests == old(http.requests) + [LatestBlock, BlockTransactions(blockId)];
      var collected := CollectAddresses(transactions.value);
      assert collected == fanOut.result;
      assert http.requests == old(http.requests) + fanOut.requests;
      if collected.Err? {
        return collected;
      }
      var unique := collected.value;
      var written := redisService.Set(AddressesKey, unique, RedisExpiryTime);
      if written.Err? {
        return Err(CacheWriteFault);
      }
      return Ok(unique);
    }
  }

  /** `vin.forEach`: each input with a prevout adds the prevout's address, whatever it is. */
  method AddInputAddresses(addresses: AddressSet, vin: seq<Input>, ghost raw: seq<string>)
    requires addresses.items == Dedup(raw)
    modifies addresses
    ensures addresses.items == Dedup(raw + InputAddresses(vin))
  {
    var i := 0;
    assert raw + InputAddresses(vin[..0]) == raw;
    while i < |vin|
      invariant 0 <= i <= |vin|
      invariant addresses.items == Dedup(raw + InputAddresses(vin[..i]))
    {
      InputStep(raw, vin, i);
      var input := vin[i];
      if input.prevout.Some? {
        addresses.Add(input.prevout.value.scriptpubkeyAddress);
      }
      i := i + 1;
    }
    assert vin[..i] == vin;
  }

  lemma InputStep(raw: seq<string>, vin: seq<Input>, i: nat)
    requires i < |vin|
    ensures var before := Dedup(raw + InputAddresses(vin[..i]));
      Dedup(raw + InputAddresses(vin[..i + 1]))
        == if vin[i].prevout.Some? then Added(before, vin[i].prevout.value.scriptpubkeyAddress) else before
  {
    InputAddressesSnoc(vin[..i], vin[i]);
    assert vin[..i + 1] == vin[..i] + [vin[i]];
    if vin[i].prevout.Some? {
      var a := vin[i].prevout.value.scriptpubkeyAddress;
      DedupSnoc(raw + InputAddresses(vin[..i]), a);
      assert raw + InputAddresses(vin[..i + 1]) == raw + InputAddresses(vin[..i]) + [a];
    } else {
      assert raw + InputAddresses(vin[..i + 1]) == raw + InputAddresses(vin[..i]);
    }
  }

  /** `vout.forEach`: each output whose address is present and non-empty adds it. */
  method AddOutputAddresses(addresses: AddressSet, vout: seq<Output>, ghost raw: seq<string>)
    requires addresses.items == Dedup(raw)
    modifies addresses
    ensures addresses.items == Dedup(raw + OutputAddresses(vout))
  {
    var j := 0;
    assert raw + OutputAddresses(vout[..0]) == raw;
    while j < |vout|
      invariant 0 <= j <= |vout|
      invariant addresses.items == Dedup(raw + OutputAddresses(vout[..j]))
    {
      OutputStep(raw, vout, j);
      var output := vout[j];
      if output.scriptpubkeyAddress.Some? && Truthy(output.scriptpubkeyAddress.value) {
        addresses.Add(output.scriptpubkeyAddress.value);
      }
      j := j + 1;
    }
    assert vout[..j] == vout;
  }

  lemma OutputStep(raw: seq<string>, vout: seq<Output>, j: nat)
    requires j < |vout|
    ensures var before := Dedup(raw + OutputAddresses(vout[..j]));
      var address := vout[j].scriptpubkeyAddress;
      Dedup(raw + OutputAddresses(vout[..j + 1]))
        == if address.Some? && Truthy(address.value) then Added(before, address.value) else before
  {
    OutputAddressesSnoc(vout[..j], vout[j]);
    assert vout[..j + 1] == vout[..j] + [vout[j]];
    var address := vout[j].scriptpubkeyAddress;
    if address.Some? && Truthy(address.value) {
      DedupSnoc(raw + OutputAddresses(vout[..j]), address.value);
      assert raw + OutputAddresses(vout[..j + 1]) == raw + OutputAddresses(vout[..j]) + [address.value];
    } else {
      assert raw + OutputAddresses(vout[..j + 1]) == raw + OutputAddresses(vout[..j]);
    }
  }
}
