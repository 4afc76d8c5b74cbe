/**
 * The specification of one call of the recent-address discovery
 * (src/blockchain/blockchain.service.ts:13-84) as pure functions of the
 * cache contents, the cache's failure behaviour and the providers' answers:
 * the result, the new cache contents, and the HTTP requests and cache
 * commands issued. `Blockchain.BlockchainService` is proved to behave as
 * `Run` says; the lemmas here state what `Run` guarantees.
 */
module Discovery {
  import opened Wrappers
  import opened Chain
  import opened OrderedSet
  import opened Providers
  import opened Redis

  const AddressesKey: string := "addresses"

  /** Fifteen minutes, in seconds. */
  const RedisExpiryTime: nat := 60 * 15

  /** The ways the call can fail; the per-transaction ones name the transaction. */
  datatype Fault =
    | CacheReadFault                 // the cache read throws
    | BlockListFault                 // newest block or its transaction list unavailable
    | TransactionFetchFault(txid: string)
    | ExtractionFault(txid: string)  // a malformed transaction body
    | CacheWriteFault

  /** The addresses one body adds, inputs first, or the fault its shape raises. */
  function BodyAddresses(txid: string, body: TransactionBody): (r: Result<seq<string>, Fault>)
    ensures r.Err? <==> body.vin.None? || body.vout.None?
    ensures r.Err? ==> r.error == ExtractionFault(txid)
    ensures r.Ok? ==> r.value == InputAddresses(body.vin.value) + OutputAddresses(body.vout.value)
  {
    match (body.vin, body.vout)
    case (Some(vin), Some(vout)) => Ok(InputAddresses(vin) + OutputAddresses(vout))
    case _ => Err(ExtractionFault(txid))
  }

  /**
   * The addresses a well-formed body adds, stated on its raw fields: the
   * address of every prevout, and every truthy output address.
   */
  lemma BodyAddressesMembers(txid: string, body: TransactionBody, x: string)
    requires BodyAddresses(txid, body).Ok?
    ensures x in BodyAddresses(txid, body).value <==>
      || (exists i :: 0 <= i < |body.vin.value| && body.vin.value[i].prevout == Some(Prevout(x)))
      || (Truthy(x) && exists j :: 0 <= j < |body.vout.value| && body.vout.value[j].scriptpubkeyAddress == Some(x))
  {
    InputAddressesMembers(body.vin.value, x);
    OutputAddressesMembers(body.vout.value, x);
  }

  /** Fetch one transaction and take its addresses. */
  function TransactionAddresses(e: Endpoints, txid: string): (r: Result<seq<string>, Fault>)
    ensures r.Err? ==> r.error == TransactionFetchFault(txid) || r.error == ExtractionFault(txid)
    ensures (r.Err? && r.error == TransactionFetchFault(txid)) <==> e.transaction(txid).Err?
  {
    match e.transaction(txid)
    case Err(_) => Err(TransactionFetchFault(txid))
    case Ok(body) => BodyAddresses(txid, body)
  }

  /**
   * The stream of addresses added for txids, transaction by transaction in
   * order, or the fault of the first transaction that fails.
   */
  function Scan(e: Endpoints, txids: seq<string>): (r: Result<seq<string>, Fault>)
    ensures r.Err? ==> exists i :: 0 <= i < |txids| && r.error in {TransactionFetchFault(txids[i]), ExtractionFault(txids[i])}
  {
    if txids == [] then Ok([])
    else
      match Scan(e, txids[..|txids| - 1])
      case Err(f) => Err(f)
      case Ok(raw) =>
        match TransactionAddresses(e, txids[|txids| - 1])
        case Err(f) => Err(f)
        case Ok(a) => Ok(raw + a)
  }

  /** The detail requests made for txids: one per transaction, up to the first that fails. */
  function DetailRequests(e: Endpoints, txids: seq<string>): (r: seq<Request>)
    ensures |r| <= |txids|
    // a prefix of the txids, each fetched once in order
    ensures forall i :: 0 <= i < |r| ==> r[i] == TransactionDetail(txids[i])
    // a loop that succeeds fetches every txid
    ensures Scan(e, txids).Ok? ==> |r| == |txids|
  {
    if txids == [] then []
    else
      var p := txids[..|txids| - 1];
      if Scan(e, p).Err? then DetailRequests(e, p)
      else DetailRequests(e, p) + [TransactionDetail(txids[|txids| - 1])]
  }

  datatype FanOutResult = FanOutResult(result: Result<seq<string>, Fault>, requests: seq<Request>)

  /** What a cache miss does: the three provider hops and the deduplicated address list. */
  function FanOut(e: Endpoints): (f: FanOutResult)
    ensures |f.requests| >= 1 && f.requests[0] == LatestBlock
    ensures f.result == Err(BlockListFault) ==> forall q :: q in f.requests ==> !q.TransactionDetail?
    ensures f.result.Ok? ==> NoDuplicates(f.result.value)
  {
    match e.latestBlocks
    case Err(_) => FanOutResult(Err(BlockListFault), [LatestBlock])
    case Ok(blocks) =>
      if |blocks| == 0 then FanOutResult(Err(BlockListFault), [LatestBlock])
      else
        var id := blocks[0].id;
        match e.blockTransactions(id)
        case Err(_) => FanOutResult(Err(BlockListFault), [LatestBlock, BlockTransactions(id)])
        case Ok(txids) =>
          var requests := [LatestBlock, BlockTransactions(id)] + DetailRequests(e, txids);
          match Scan(e, txids)
          case Err(fault) => FanOutResult(Err(fault), requests)
          case Ok(raw) =>
            DedupNoDuplicates(raw);
            FanOutResult(Ok(Dedup(raw)), requests)
  }

  /** The observable effect of one call. */
  datatype Effect = Effect(
    result: Result<seq<string>, Fault>,
    store: map<string, Entry>,
    requests: seq<Request>,
    commands: seq<Command>)

  /** One call of the discovery against a cache holding `store`. */
  function Run(store: map<string, Entry>, getFails: bool, setFails: bool, e: Endpoints): (r: Effect)
    // the cache is always read first
    ensures |r.commands| >= 1 && r.commands[0] == Command.Get(AddressesKey)
    // a failing cache read aborts the call before any provider request
    ensures getFails ==> r.result == Err(CacheReadFault) && r.requests == []
    // a failing cache write after a successful fan-out aborts the call
    ensures !getFails && AddressesKey !in store && FanOut(e).result.Ok? && setFails ==>
      && r.result == Err(CacheWriteFault)
      && r.requests == FanOut(e).requests
      && r.commands == [Command.Get(AddressesKey), Command.Set(AddressesKey, FanOut(e).result.value, 900)]
    // a cache hit is returned as is, with no provider call and no write
    ensures !getFails && AddressesKey in store ==>
      r == Effect(Ok(store[AddressesKey].value), store, [], [Command.Get(AddressesKey)])
    // nothing at all is cached by a call that fails
    ensures r.result.Err? ==> r.store == store
    // a call that succeeds leaves exactly its result in the cache
    ensures r.result.Ok? ==> AddressesKey in r.store && r.store[AddressesKey].value == r.result.value
    // the only write is of the returned list under "addresses" with a 900 s expiry
    ensures r.store != store ==>
      && r.result.Ok?
      && r.store == store[AddressesKey := Entry(r.result.value, 900)]
      && r.commands == [Command.Get(AddressesKey), Command.Set(AddressesKey, r.result.value, 900)]
  {
    if getFails then Effect(Err(CacheReadFault), store, [], [Command.Get(AddressesKey)])
    else if AddressesKey in store then
      Effect(Ok(store[AddressesKey].value), store, [], [Command.Get(AddressesKey)])
    else
      var f := FanOut(e);
      match f.result
      case Err(fault) => Effect(Err(fault), store, f.requests, [Command.Get(AddressesKey)])
      case Ok(list) =>
        var commands := [Command.Get(AddressesKey), Command.Set(AddressesKey, list, RedisExpiryTime)];
        if setFails then Effect(Err(CacheWriteFault), store, f.requests, commands)
        else Effect(Ok(list), store[AddressesKey := Entry(list, RedisExpiryTime)], f.requests, commands)
  }
  // ---------------------------------------------------------------------------
  // The per-transaction loop

  /** Once a prefix of the txids has failed, the rest is neither fetched nor read. */
  lemma {:induction false} ScanFaultPersists(e: Endpoints, txids: seq<string>, m: nat)
    requires m <= |txids| && Scan(e, txids[..m]).Err?
    ensures Scan(e, txids) == Scan(e, txids[..m])
    ensures DetailRequests(e, txids) == DetailRequests(e, txids[..m])
  {
    if m < |txids| {
      var p := txids[..|txids| - 1];
      assert p[..m] == txids[..m];
      ScanFaultPersists(e, p, m);
    } else {
      assert txids[..m] == txids;
    }
  }

  /** The whole loop succeeds exactly when every transaction is fetched and well formed. */
  lemma {:induction false} ScanSucceeds(e: Endpoints, txids: seq<string>)
    ensures Scan(e, txids).Ok? <==> forall i :: 0 <= i < |txids| ==> TransactionAddresses(e, txids[i]).Ok?
  {
    if txids != [] {
      var n := |txids|;
      var p := txids[..n - 1];
      ScanSucceeds(e, p);
      assert forall i :: 0 <= i < n - 1 ==> p[i] == txids[i];
    }
  }

  /** On success the stream holds exactly the addresses of the transactions' own contributions. */
  lemma {:induction false} ScanMembers(e: Endpoints, txids: seq<string>, x: string)
    requires Scan(e, txids).Ok?
    ensures x in Scan(e, txids).value
        <==> exists i :: 0 <= i < |txids| && TransactionAddresses(e, txids[i]).Ok?
                         && x in TransactionAddresses(e, txids[i]).value
  {
    if txids != [] {
      var n := |txids|;
      var p := txids[..n - 1];
      ScanMembers(e, p, x);
      if x in Scan(e, p).value {
        var i :| 0 <= i < |p| && TransactionAddresses(e, p[i]).Ok? && x in TransactionAddresses(e, p[i]).value;
        assert p[i] == txids[i];
      }
      if exists i :: 0 <= i < n && TransactionAddresses(e, txids[i]).Ok? && x in TransactionAddresses(e, txids[i]).value {
        var i :| 0 <= i < n && TransactionAddresses(e, txids[i]).Ok? && x in TransactionAddresses(e, txids[i]).value;
        if i < n - 1 {
          assert p[i] == txids[i];
        }
      }
    }
  }

  /** One turn of the txid loop: the fetch of txids[k], then its outcome or the loop's fault. */
  lemma ScanStep(e: Endpoints, txids: seq<string>, k: nat)
    requires k < |txids| && Scan(e, txids[..k]).Ok?
    ensures DetailRequests(e, txids[..k + 1]) == DetailRequests(e, txids[..k]) + [TransactionDetail(txids[k])]
    ensures TransactionAddresses(e, txids[k]).Err? ==>
      && Scan(e, txids) == Err(TransactionAddresses(e, txids[k]).error)
      && DetailRequests(e, txids) == DetailRequests(e, txids[..k + 1])
    ensures TransactionAddresses(e, txids[k]).Ok? ==>
      Scan(e, txids[..k + 1]) == Ok(Scan(e, txids[..k]).value + TransactionAddresses(e, txids[k]).value)
  {
    assert txids[..k + 1][..k] == txids[..k];
    assert txids[..k + 1][k] == txids[k];
    if TransactionAddresses(e, txids[k]).Err? {
      ScanFaultPersists(e, txids, k + 1);
    }
  }

  /**
   * A loop that fails does so at one txid, k: all before it succeeded and were
   * fetched once each in order, its own fetch was the last request, and the
   * fault is k's own (a failed fetch or a malformed body of txids[k]).
   */
  lemma {:induction false} ScanFirstFault(e: Endpoints, txids: seq<string>) returns (k: nat)
    requires Scan(e, txids).Err?
    ensures k < |txids|
    ensures Scan(e, txids[..k]).Ok?
    ensures Scan(e, txids) == TransactionAddresses(e, txids[k])
    ensures DetailRequests(e, txids) == DetailRequests(e, txids[..k]) + [TransactionDetail(txids[k])]
    ensures |DetailRequests(e, txids)| == k + 1
    ensures forall i :: 0 <= i <= k ==> DetailRequests(e, txids)[i] == TransactionDetail(txids[i])
  {
    var n := |txids|;
    var p := txids[..n - 1];
    if Scan(e, p).Err? {
      assert Scan(e, txids) == Scan(e, p);
      assert DetailRequests(e, txids) == DetailRequests(e, p);
      k := ScanFirstFault(e, p);
      assert p[..k] == txids[..k];
      assert p[k] == txids[k];
    } else {
      k := n - 1;
      assert p == txids[..k];
      assert Scan(e, txids) == TransactionAddresses(e, txids[k]);
      assert DetailRequests(e, txids) == DetailRequests(e, txids[..k]) + [TransactionDetail(txids[k])];
    }
    assert forall i :: 0 <= i < k ==> txids[..k][i] == txids[i];
  }

  // ---------------------------------------------------------------------------
  // The whole call

  /** A repeated call after a successful one is answered from the cache: same list, no provider call. */
  lemma RepeatedCallHitsCache(store: map<string, Entry>, setFails: bool, e: Endpoints, setFails': bool, e': Endpoints)
    requires Run(store, false, setFails, e).result.Ok?
    ensures var first := Run(store, false, setFails, e);
            Run(first.store, false, setFails', e')
              == Effect(first.result, first.store, [], [Command.Get(AddressesKey)])
  {
  }

  /**
   * What a successful call that missed the cache returned: the newest block's
   * transactions were all fetched once, in order; the list is free of
   * duplicates and holds exactly the addresses they contribute.
   */
  lemma MissResult(store: map<string, Entry>, setFails: bool, e: Endpoints, x: string)
    requires AddressesKey !in store && Run(store, false, setFails, e).result.Ok?
    ensures e.latestBlocks.Ok? && |e.latestBlocks.value| > 0
    ensures var id := e.latestBlocks.value[0].id;
      && e.blockTransactions(id).Ok?
      && var txids := e.blockTransactions(id).value;
      && var r := Run(store, false, setFails, e);
      && Scan(e, txids).Ok?
      && r.result.value == Dedup(Scan(e, txids).value)
      && NoDuplicates(r.result.value)
      && (forall i :: 0 <= i < |txids| ==> TransactionAddresses(e, txids[i]).Ok?)
      && (x in r.result.value <==>
           exists i :: 0 <= i < |txids| && TransactionAddresses(e, txids[i]).Ok?
                       && x in TransactionAddresses(e, txids[i]).value)
      && |r.requests| == |txids| + 2
      && r.requests[..2] == [LatestBlock, BlockTransactions(id)]
      && (forall i :: 0 <= i < |txids| ==> r.requests[i + 2] == TransactionDetail(txids[i]))
  {
    var id := e.latestBlocks.value[0].id;
    var txids := e.blockTransactions(id).value;
    ScanSucceeds(e, txids);
    ScanMembers(e, txids, x);
    DedupMembers(Scan(e, txids).value);
    DedupNoDuplicates(Scan(e, txids).value);
  }

  /**
   * A fan-out that failed on a transaction stopped at that transaction: its
   * fetch was the last request and the fault names it.
   */
  lemma FanOutStopsAtFault(e: Endpoints) returns (k: nat)
    requires FanOut(e).result.Err? && FanOut(e).result.error != BlockListFault
    ensures e.latestBlocks.Ok? && |e.latestBlocks.value| > 0
    ensures e.blockTransactions(e.latestBlocks.value[0].id).Ok?
    ensures k < |e.blockTransactions(e.latestBlocks.value[0].id).value|
    ensures var id := e.latestBlocks.value[0].id;
      var txids := e.blockTransactions(id).value;
      var f := FanOut(e);
      && (f.result.error == TransactionFetchFault(txids[k]) || f.result.error == ExtractionFault(txids[k]))
      && (forall i :: 0 <= i < k ==> TransactionAddresses(e, txids[i]).Ok?)
      && |f.requests| == k + 3
      && f.requests[..2] == [LatestBlock, BlockTransactions(id)]
      && (forall i :: 0 <= i <= k ==> f.requests[i + 2] == TransactionDetail(txids[i]))
  {
    var f := FanOut(e);
    var id := e.latestBlocks.value[0].id;
    var txids := e.blockTransactions(id).value;
    assert Scan(e, txids).Err?;
    assert f.requests == [LatestBlock, BlockTransactions(id)] + DetailRequests(e, txids);
    k := ScanFirstFault(e, txids);
    ScanSucceeds(e, txids[..k]);
    assert forall i :: 0 <= i < k ==> txids[..k][i] == txids[i];
    assert forall i :: 0 <= i <= k ==> f.requests[i + 2] == DetailRequests(e, txids)[i];
  }

  /** A call that missed the cache and failed on a transaction wrote nothing and fetched no further. */
  lemma TransactionFaultStopsFanOut(store: map<string, Entry>, setFails: bool, e: Endpoints)
    requires AddressesKey !in store
    requires var f := Run(store, false, setFails, e).result;
             f.Err? && (f.error.TransactionFetchFault? || f.error.ExtractionFault?)
    ensures var r := Run(store, false, setFails, e);
      && r.result == FanOut(e).result
      && r.requests == FanOut(e).requests
      && r.store == store
      && r.commands == [Command.Get(AddressesKey)]
  {
  }

  /** The failures before the loop: no transaction is fetched and nothing is written. */
  lemma BlockListFaultFetchesNoTransaction(store: map<string, Entry>, setFails: bool, e: Endpoints)
    requires AddressesKey !in store
    requires e.latestBlocks.Err? || |e.latestBlocks.value| == 0
             || e.blockTransactions(e.latestBlocks.value[0].id).Err?
    ensures var r := Run(store, false, setFails, e);
      && r.result == Err(BlockListFault)
      && r.store == store
      && r.commands == [Command.Get(AddressesKey)]
      && (forall q :: q in r.requests ==> !q.TransactionDetail?)
  {
  }

  // ---------------------------------------------------------------------------
  // Worked examples

  /**
   * Providers after the unit test of blockchain.service.spec.ts:91-137: one
   * block whose transactions are tx1 and tx2. The test mocks one body only
   * (input address1, output address2) and queues nothing for tx2; here both
   * txids are answered with that body.
   */
  function ExampleEndpoints(): Endpoints {
    var body := TransactionBody(Some([Input(Some(Prevout("address1")))]), Some([Output(Some("address2"))]));
    Endpoints(Ok([Block(990000123)]), _ => Ok(["tx1", "tx2"]), _ => Ok(body))
  }

  lemma ExampleStream()
    ensures Scan(ExampleEndpoints(), ["tx1", "tx2"]) == Ok(["address1", "address2", "address1", "address2"])
    ensures DetailRequests(ExampleEndpoints(), ["tx1", "tx2"]) == [TransactionDetail("tx1"), TransactionDetail("tx2")]
  {
    var e := ExampleEndpoints();
    var one := ["address1", "address2"];
    assert [Input(Some(Prevout("address1")))][..0] == [];
    assert [Output(Some("address2"))][..0] == [];
    assert e.transaction("tx1") == e.transaction("tx2") == Ok(TransactionBody(Some([Input(Some(Prevout("address1")))]), Some([Output(Some("address2"))])));
    assert ["address1"] + ["address2"] == one;
    var body := TransactionBody(Some([Input(Some(Prevout("address1")))]), Some([Output(Some("address2"))]));
    assert InputAddresses(body.vin.value) == ["address1"];
    assert OutputAddresses(body.vout.value) == ["address2"];
    assert BodyAddresses("tx1", body) == Ok(one);
    assert BodyAddresses("tx2", body) == Ok(one);
    assert TransactionAddresses(e, "tx1") == Ok(one);
    assert TransactionAddresses(e, "tx2") == Ok(one);
    assert ["tx1", "tx2"][..1] == ["tx1"];
    assert ["tx1"][..0] == [];
    assert [] + one == one;
    assert Scan(e, ["tx1"]) == Ok(one);
    assert one + one == ["address1", "address2", "address1", "address2"];
  }

  /**
   * The unit test's scenario: the list is address1 then address2, cached
   * under "addresses" for 900 s, after one detail fetch per transaction.
   */
  lemma TwoTransactionExample()
    ensures Run(map[], false, false, ExampleEndpoints())
        == Effect(
             Ok(["address1", "address2"]),
             map[AddressesKey := Entry(["address1", "address2"], 900)],
             [LatestBlock, BlockTransactions(990000123), TransactionDetail("tx1"), TransactionDetail("tx2")],
             [Command.Get(AddressesKey), Command.Set(AddressesKey, ["address1", "address2"], 900)])
  {
    ExampleStream();
    assert "address1"[7] != "address2"[7];
    DedupRepeatedPair("address1", "address2");
  }
}
