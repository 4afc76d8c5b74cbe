# Recent active Bitcoin addresses: a Dafny model

This project models the one routine with real logic in a small NestJS service: `BlockchainService.getAddressesWithRecentTransactions`. The routine answers "which addresses took part in the newest block?" in four steps:

1. It reads the Redis key `"addresses"`. A hit is returned as it is.
2. On a miss it asks Blockchair for the newest block, then for that block's transaction hashes.
3. It asks Blockstream for each transaction's body, one after another. It adds to a JavaScript `Set` the prevout address of every input that has a prevout, then every output address that is truthy.
4. It writes `Array.from(set)` back under `"addresses"` with a 15-minute expiry (`REDIS_EXPIRY_TIME = 60*15`) and returns it.

Any failure aborts the whole call, and nothing is then cached.

The modules:

- `Chain` (chain.dfy) holds the payload shapes and the two extraction rules, `InputAddresses` and `OutputAddresses`.
- `OrderedSet` (ordered_set.dfy) holds `Dedup`, the specification of a JavaScript `Set` filled in order and read back with `Array.from`. It also holds `AddressSet`, the mutable set itself.
- `Providers` (providers.dfy) models axios as `HttpClient`. It answers from a fixed oracle, `Endpoints`, and records every request it is sent.
- `Redis` (redis.dfy) models `RedisService` as a class over a `map`. It records every command.
- `Discovery` (discovery.dfy) is the pure specification of one call. `Run` gives the result, the new cache contents, the requests made and the cache commands issued. The lemmas state what `Run` guarantees.
- `Blockchain` (blockchain.dfy) holds `BlockchainService`. It runs the routine step by step, as the source does: a loop over the txids, two inner loops that grow the `AddressSet`, and early returns on each failure. `GetAddressesWithRecentTransactions` is proved to have exactly the effect that `Run` describes.

How the source's behaviour is rendered in Dafny:

- A thrown `InternalServerErrorException` becomes a `Discovery.Fault`. The per-transaction faults name their txid.
- JSON encoding and decoding of the address list is taken as the identity, so Redis values are `seq<string>`. A stored JSON array is never the empty string, so the truthiness test at line 16 only separates "present" from "absent".
- The providers' answers, and whether Redis fails, are fixed when the `HttpClient` and the `RedisService` are built. They are inputs of the model.
- An input's prevout address is kept even when it is the empty string. An output's address is kept only when it is present and non-empty. `Chain.EmptyAddressAsymmetry` states this asymmetry.

Behaviour of the code that the model pins down where it could be read more loosely:

- The returned list is in order of first insertion: transactions in txid order, and within a transaction inputs before outputs. A JavaScript `Set` keeps insertion order and `Array.from` reads it back in that order. The model proves that order (`OrderedSet.DedupFirstOccurrenceOrder`).
- The per-transaction fetches are awaited one by one inside the `for` loop (src/blockchain/blockchain.service.ts:39-44), so they never overlap. The model makes them sequential and proves their order.
- The unit tests at src/blockchain/blockchain.service.spec.ts:141-157 expect `getAddressInfo` to increment a search counter with `findOneAndUpdate`. The code at src/blockchain/blockchain.service.ts:86-91 never does. Both lookups are outside this model (see "Left out").

## Model

| member | source | states |
|---|---|---|
| `Chain.InputAddresses` | src/blockchain/blockchain.service.ts:54-58 | the `vin.forEach` loop adds at most one address per input; which addresses it adds is stated by `Chain.InputAddressesMembers` |
| `Chain.InputAddressesMembers` | src/blockchain/blockchain.service.ts:54-58 | an address comes from the inputs exactly when some input has a prevout carrying it; the address is not checked for truthiness |
| `Chain.OutputAddressesMembers` | src/blockchain/blockchain.service.ts:60-64 | an address comes from the outputs exactly when some output carries it and it is non-empty |
| `Chain.OutputAddresses` | src/blockchain/blockchain.service.ts:60-64 | every address the outputs contribute is truthy, and there are at most as many as there are outputs |
| `Chain.EmptyAddressAsymmetry` | src/blockchain/blockchain.service.ts:55-61 | an empty prevout address is added, an empty output address is not; a coinbase input and an address-less output add nothing |
| `Chain.CoinbaseAndNonStandardSkipped` | src/model/blockchain.ts:185-201 | a transaction spending a, with a coinbase input, paying a non-empty b, with an address-less output, contributes exactly [a, b] |
| `OrderedSet.Dedup` | src/blockchain/blockchain.service.ts:37-74 | the `Set` filled by the two loops and read back by `Array.from` is never longer than the stream of additions; its members, uniqueness and order are stated by the three lemmas below |
| `OrderedSet.DedupMembers` | src/blockchain/blockchain.service.ts:37 | the deduplicated list holds exactly the members added to the set |
| `OrderedSet.DedupNoDuplicates` | src/blockchain/blockchain.service.ts:74 | `Array.from` of the set lists no address twice |
| `OrderedSet.DedupFirstOccurrenceOrder` | src/blockchain/blockchain.service.ts:74 | the list is ordered by each address's first occurrence in the stream of additions |
| `OrderedSet.DedupAbsorbs` | src/blockchain/blockchain.service.ts:56 | adding members already present leaves the set unchanged |
| `OrderedSet.AddressSet.Add` | src/blockchain/blockchain.service.ts:56 | `Set.add`: a new member is appended, an existing one keeps its place |
| `Providers.HttpClient.GetLatestBlocks` | src/blockchain/blockchain.service.ts:23-25 | returns the newest-block answer and records exactly one `LatestBlock` request |
| `Providers.HttpClient.GetBlockTransactions` | src/blockchain/blockchain.service.ts:27-30 | returns the block's transaction hashes and records exactly one request for that block id |
| `Providers.HttpClient.GetTransaction` | src/blockchain/blockchain.service.ts:42-44 | returns the transaction body and records exactly one detail request for that txid |
| `Redis.RedisService.Get` | src/redis/redis.service.ts:26-28 | returns the stored list or None, or an error when the client fails; the store is unchanged |
| `Redis.RedisService.Set` | src/redis/redis.service.ts:22-24 | a successful write stores the value with its expiry under the key; a failed one stores nothing |
| `Discovery.BodyAddressesMembers` | src/blockchain/blockchain.service.ts:51-70 | for a well-formed body, an address is added exactly when some input's prevout carries it, or when some output carries it and it is non-empty |
| `Discovery.TransactionAddresses` | src/blockchain/blockchain.service.ts:41-50 | every fault names the txid; it is a fetch fault exactly when the detail fetch failed |
| `Discovery.Scan` | src/blockchain/blockchain.service.ts:39-71 | a failing loop fails with the fault of one of the txids |
| `Discovery.FanOut` | src/blockchain/blockchain.service.ts:21-36 | the newest-block request comes first; a failure to list the block's transactions (including an empty block list) makes no detail request; a successful list has no duplicates |
| `Discovery.Run` | src/blockchain/blockchain.service.ts:13-84 | the cache is read first; a failing read aborts with the cache-read fault before any provider request; a failing write after a successful fan-out aborts with the cache-write fault, after the same requests and with the attempted write logged; a hit is returned with no provider call and no write; a failed call leaves the cache unchanged; a successful call leaves exactly its result under "addresses"; the only write is that list with a 900 s expiry |
| `Discovery.ScanFaultPersists` | src/blockchain/blockchain.service.ts:45-50 | after a failure no later txid is fetched and the outcome is fixed |
| `Discovery.ScanSucceeds` | src/blockchain/blockchain.service.ts:39-71 | the loop succeeds exactly when every transaction is fetched and well formed |
| `Discovery.ScanMembers` | src/blockchain/blockchain.service.ts:39-71 | on success the stream holds exactly the addresses that the transactions contribute |
| `Discovery.DetailRequests` | src/blockchain/blockchain.service.ts:39-44 | the loop's detail requests are a prefix of the txids, one fetch each in txid order; a successful loop fetches every txid |
| `Discovery.ScanFirstFault` | src/blockchain/blockchain.service.ts:39-70 | a failing loop stops at one txid: all earlier ones succeeded and were fetched once each in order; its fetch was the last request; the fault is that txid's |
| `Discovery.RepeatedCallHitsCache` | src/blockchain/blockchain.service.ts:14-18 | after a successful call, the next call returns the same list from the cache, with no provider request and no write |
| `Discovery.MissResult` | src/blockchain/blockchain.service.ts:20-77 | on a successful miss: the newest block was listed; the result is the deduplicated stream, so it has no duplicates; it holds exactly the addresses the block's transactions contribute; there were 2 + N requests, one per txid in order |
| `Discovery.FanOutStopsAtFault` | src/blockchain/blockchain.service.ts:39-70 | a fan-out that fails on a transaction made its last request for that transaction, after one request per earlier txid; the fault names it |
| `Discovery.TransactionFaultStopsFanOut` | src/blockchain/blockchain.service.ts:45-50 | a call that fails on a transaction returns the fan-out's fault, writes nothing and issues only the cache read |
| `Discovery.BlockListFaultFetchesNoTransaction` | src/blockchain/blockchain.service.ts:21-36 | if the newest-block fetch fails, or returns no block, or the block's transaction list fails, the call fails before any detail fetch and caches nothing |
| `Discovery.TwoTransactionExample` | src/blockchain/blockchain.service.spec.ts:91-136 | the unit test's block with tx1 and tx2 gives ['address1', 'address2'], cached for 900 s, after exactly four provider requests. The test mocks one body only (lines 102-107 and 110-114) and queues nothing for tx2; the example answers both txids with that body |
| `Blockchain.BlockchainService.constructor` | src/blockchain/blockchain.service.ts:11 | the service keeps the injected Redis service and HTTP client |
| `Blockchain.BlockchainService.GetAddressesWithRecentTransactions` | src/blockchain/blockchain.service.ts:13-84 | the result, the new cache contents, the cache commands and the HTTP requests are exactly those that `Discovery.Run` gives for the old cache and the providers |
| `Blockchain.BlockchainService.CollectAddresses` | src/blockchain/blockchain.service.ts:37-74 | the txid loop makes the detail requests `DetailRequests` gives; it returns the first fault, or the deduplicated stream of addresses |
| `Blockchain.BlockchainService.AddTransactionAddresses` | src/blockchain/blockchain.service.ts:52-70 | succeeds exactly when the body is well formed; the set then holds the deduplicated stream extended by the body's addresses, inputs first; when `vin` cannot be iterated the set is unchanged, and when only `vout` cannot be, the inputs' addresses have been added |
| `Blockchain.AddInputAddresses` | src/blockchain/blockchain.service.ts:54-58 | the set afterwards is the deduplicated stream extended by the inputs' addresses |
| `Blockchain.AddOutputAddresses` | src/blockchain/blockchain.service.ts:60-64 | the set afterwards is the deduplicated stream extended by the outputs' truthy addresses |

## Left out

- HTTP transport, URLs and axios: each of the three provider calls is an answer taken from the `Endpoints` oracle. A network error, a non-2xx status and a body of the wrong shape for the block list or the block's transactions are all one `HttpError`. The source would go on in some of those shapes, for instance with an undefined block id.
- A block without an `id`, and a listed transaction without a `hash`, are not modelled. Blocks carry an integer id and hashes are strings.
- A prevout whose `scriptpubkey_address` is absent: the source would add `undefined` to the set. The model types the prevout address as a plain string, as the source's interfaces declare it (src/model/blockchain.ts:188 and 199).
- A `null` element inside `vin` or `vout`, which would throw inside `forEach`. Only a `vin` or `vout` that cannot be iterated at all is modelled as a malformed body.
- JSON serialisation is the identity. A malformed cached string (a `JSON.parse` error) and a falsy cached value other than "absent" are therefore not modelled.
- Redis TTL expiry: an entry records its 900-second expiry and never expires. Whether the client fails is fixed when it is built.
- `console.error` logging, and the text of the error messages; only the txid that a message names is kept.
- `getAddressInfo` and `getTransactionInfo` (src/blockchain/blockchain.service.ts:86-98) are a plain pass-through to a third provider. The top-address and top-transaction queries that the controller and the tests call are not defined in the shown service. The Mongo schemas, the controller, the module wiring, the bootstrap and the demo service are framework plumbing.
- The commented-out older versions of the routine (src/blockchain/blockchain.service.ts:100-172).
- Concurrency between requests: each call is modelled on its own, and its awaits run in sequence.
