# Single-use key records of a ledger contract, in Dafny

This project models `KeyContract`, a Hyperledger Fabric chaincode (keygen.go)
that keeps single-use key records in the ledger's world state. The world state
is an ordered key-to-record store. Each record (`KeyData`) holds three fields:

- a `consumed` flag;
- the id of the transaction that created it;
- an optional image URL.

The contract has six operations:

- `CreateKey`, `CreateKeyWithImage` and `CreateBulkKeys` create records, and
  refuse any key that already holds a record;
- `ConsumeKey` flips `consumed` from false to true, once;
- `ReadKey` reports one record;
- `QueryAllKeys` lists every record in ascending key order.

Modules, one file each:

- `Order` (order.dfy): the key order of the world state, which is
  lexicographic by code point (the same as comparing UTF-8 bytes). It also
  defines `Ascending`, the ascending listing of a key set, and proves that
  listing unique. `SortKeys` computes it by repeatedly selecting the least key.
- `Ledger` (ledger.dfy): the stored `Record` and the `Store` map. The class
  `WorldState` stands in for the chaincode stub. It keeps the world state in a
  `map` field, holds the invocation's transaction id, and offers `GetState`,
  `PutState`, `GetTxID` and `GetStateByRange`. Store failures are injected
  through `Faults`.
- `KeySpec` (keyspec.dfy): each operation as a pure function of the state
  before the call (`CreateStep`, `ConsumeStep`, `View`, `BulkRun`, `Query`)
  and the properties proved about these functions. `Evolves` is the life-cycle
  relation every operation respects: keys are never removed, the transaction
  id and image are written once, and `consumed` only goes from false to true.
- `KeyContract` (keycontract.dfy): the six operations as methods over a
  `WorldState`. Each makes the stub calls of the Go code in the same order and
  is proved to return, and leave behind, exactly what its `KeySpec` function
  says. The bulk loop and the enumeration loop keep their loop invariants.
- `Scenarios` (scenarios.dfy): properties that span several calls. These
  include create-then-read, creating twice, consuming twice, a bulk call with
  a repeated key, and out-of-order creation listed in order. It also proves
  that no history of invocations ever removes a key or rewrites a write-once
  field.

Representation choices:

- Errors are an `ErrorKind` enumeration instead of formatted strings:
  `StoreIOError`, `AlreadyExists`, `NotFound`, `AlreadyConsumed` and
  `DecodeError`.
- Stored bytes that `json.Unmarshal` rejects are modelled as `Record.Malformed`.
- Every creation path tests for "any record under the key", whether consumed
  or malformed, just as the Go code tests `len(existingBytes) != 0`.
- A consume answers with the current transaction id. A read answers with the
  id stored in the record.
- A record created with an empty image URL reads back without an image,
  exactly like one made by `CreateKey`. The code stores `""` in both cases,
  so "no image" and "empty image" cannot be told apart.

## Model

| member | source | states |
|---|---|---|
| `Order.BelowTransitive` | keygen.go:215 | the scan's key order is transitive |
| `Order.BelowTotal` | keygen.go:215 | any two distinct keys are ordered one way or the other |
| `Order.Ascending` | keygen.go:215 | the full-range listing of a key set is strictly ascending and holds exactly the set's keys, each once |
| `Order.IncreasingUnique` | keygen.go:215 | two strictly ascending listings of the same keys are equal, so the scan order is determined by the key set alone |
| `Order.SortKeys` | keygen.go:215 | the stub's range scan lists the stored keys as `Ascending` does |
| `Ledger.WorldState.GetState` | keygen.go:26-29 | a point read fails with a store error exactly when the key is unreadable; otherwise it answers the stored record, or nothing when the key is absent |
| `Ledger.WorldState.GetTxID` | keygen.go:35 | every call answers the one transaction id of the running invocation (also read at keygen.go:78, 102, 121 and 178) |
| `Ledger.WorldState.PutState` | keygen.go:46-48 | a write succeeds unless its key is unwritable; a successful write replaces that key's record and is visible to later reads; a failed write changes nothing |
| `Ledger.WorldState.GetStateByRange` | keygen.go:215-218 | opening the scan fails when injected; otherwise it yields one step per stored key in ascending order, a step failing for an unreadable key |
| `KeySpec.CreateStep` | keygen.go:26-48 | a create succeeds iff the key is readable, holds no record and is writable; it then adds exactly `{consumed=false, txID=tx, imageURL}` and answers the key and tx; it fails with `AlreadyExists` on any existing record; an unreadable key or a failed write gives a store error; on failure the state is unchanged |
| `KeySpec.ConsumeStep` | keygen.go:150-173 | consume succeeds iff the record exists, decodes, is unconsumed and the write succeeds; it then sets only `consumed=true`, keeps txID and image, and touches no other key; an unreadable key or a failed write gives a store error; otherwise a missing key gives `NotFound`, a malformed record `DecodeError`, a consumed record `AlreadyConsumed`; on failure the state is unchanged |
| `KeySpec.View` | keygen.go:186-207 | a read answers the stored consumed flag and tx id, and the image exactly when it is non-empty; it fails on an unreadable key, a missing key (`NotFound`) and a malformed record (`DecodeError`) |
| `KeySpec.BulkItem` | keygen.go:66-94 | one iteration of the bulk loop: an eligible key is appended to the created keys and gets a fresh record; any other key leaves the state alone and its failure reason overwrites any earlier entry for it in the failure map |
| `KeySpec.BulkRun` | keygen.go:65-95 | the bulk loop as a fold over the input in order: it creates at most one key per input element, and every created or failed key comes from the input |
| `KeySpec.BulkAccounting` | keygen.go:65-95 | after a bulk call the state is the old state plus a fresh record per created key; a key is created iff it is in the input and eligible, and at most once; a key fails iff it is in the input and is ineligible or repeated; each failure carries the reason its last occurrence met |
| `KeySpec.BulkInOrder` | keygen.go:65-95 | the created keys are a subsequence of the input, in input order (which occurrence of a repeated key creates it is stated by `BulkCreatedIsFirstEligible`) |
| `KeySpec.BulkCreatedIsFirstEligible` | keygen.go:65-95 | the created list equals `FirstEligible`, an independent definition: every eligible input key once, at its first occurrence, in input order; a repeated eligible key is created by its first occurrence |
| `KeySpec.BulkOutcome` | keygen.go:65-95 | created keys are in input order, without repetition, absent before the call and now unconsumed with the call's tx id; every input key is created or failed; old records are unchanged |
| `KeySpec.BulkRepeatFails` | keygen.go:67-75 | a readable, writable key given twice ends with `AlreadyExists`, because its first write is seen by the later check |
| `KeySpec.BulkEvolves` | keygen.go:65-95 | a bulk call removes no key and rewrites no record |
| `KeySpec.Collect` | keygen.go:223-239 | the enumeration loop succeeds iff every step decodes, and then yields one `{key, txID, consumed}` per step in scan order; otherwise it fails with the error of the first bad step |
| `KeySpec.CollectFailFast` | keygen.go:224-232 | once a prefix of the scan fails, the whole enumeration fails the same way, with no partial result |
| `KeySpec.Query` | keygen.go:215-239 | the enumeration opens the full scan and fails with a store error if it cannot, otherwise it collects the scan's steps; its success, listing and failure causes are stated by `QueryOkIff`, `QueryListing` and `QueryFailureCause` |
| `KeySpec.QueryOkIff` | keygen.go:215-239 | the enumeration succeeds iff the scan opens and every stored record is readable and decodes |
| `KeySpec.QueryListing` | keygen.go:221-239 | a successful enumeration lists every stored key exactly once, in strictly ascending order, with its stored tx id and consumed flag |
| `KeySpec.QueryFailureCause` | keygen.go:215-232 | a decode failure means some stored record is malformed; a store failure means the scan did not open or some stored key is unreadable |
| `KeyContract.CheckAndWrite` | keygen.go:26-48 | the shared check-then-write returns and leaves exactly what `CreateStep` describes |
| `KeyContract.CreateKey` | keygen.go:24-58 | `CreateStep` with no image: on success the state gains exactly `{false, txID, ""}` under the key; on an existing key it fails with `AlreadyExists` and nothing changes |
| `KeyContract.CreateBulkKeys` | keygen.go:61-107 | the call never fails; its created list, failure map and new state are those of `BulkRun` over the keys in input order, and it reports the invocation's tx id |
| `KeyContract.CreateKeyWithImage` | keygen.go:110-145 | `CreateStep` with the image: on success the state gains exactly `{false, txID, imageURL}` with the URL as given, and the answer reports it; on an existing key it fails with `AlreadyExists` and nothing changes |
| `KeyContract.ConsumeKey` | keygen.go:148-182 | returns and leaves exactly what `ConsumeStep` describes |
| `KeyContract.ReadKey` | keygen.go:185-211 | answers `View` of the current state and modifies nothing |
| `KeyContract.QueryAllKeys` | keygen.go:214-248 | answers `Query` of the current state (scan, then fail-fast collection) and modifies nothing |
| `Scenarios.CreateThenRead` | keygen.go:38-46 | a key created on an absent key reads back unconsumed, with the creating tx id and no image |
| `Scenarios.CreateWithImageThenRead` | keygen.go:124-133 | a key created with a non-empty image reads back that image |
| `Scenarios.CreateTwice` | keygen.go:30-32 | creating again, in any later transaction with its own failures (the key readable there) and by any creation path, fails with `AlreadyExists` and keeps the first record |
| `Scenarios.ConsumeTwice` | keygen.go:163-171 | the first consume succeeds; the second fails with `AlreadyConsumed` and writes nothing; the record stays consumed with its tx id and image |
| `Scenarios.ConsumedIsTerminal` | keygen.go:163-165 | a consumed record is never written again by a consume |
| `Scenarios.BulkWithRepeat` | keygen.go:65-95 | `["a","b","a"]` on an empty store creates `["a","b"]` and fails `"a"` as already existing |
| `Scenarios.EnumerationOrder` | keygen.go:215-239 | keys created as x, z, y by three transactions are listed as x, y, z, each with the id of the transaction that created it |
| `Scenarios.HistoryEvolves` | keygen.go:167-171 | over any history of invocations no key disappears, no tx id or image is rewritten, and no consumed record becomes unconsumed |
| `Scenarios.NoSecondCreate` | keygen.go:30-32 | once a key holds a record, after any history no create on it succeeds (it fails with `AlreadyExists` when the key is readable), and no bulk create with any input list creates it |

## Left out

- JSON encoding of `KeyData` and of the responses (`json.Marshal`, `json.Unmarshal`). Records and answers are datatypes. Bytes that do not decode are `Record.Malformed`. When the world state is empty the Go code answers `"keys": null`; the model answers an empty list.
- The response `message` strings and the error texts. The model uses `ErrorKind` values, and the bulk failure map holds a kind per key.
- The Fabric stub and host runtime: `contractapi`, transaction dispatch, the iterator's `Close`, and `main` with chaincode start-up. The stub is the `WorldState` class. `GetStateByRange` is modelled only with the empty-to-empty bounds the contract uses.
- Store failures are modelled as deterministic per-key faults fixed for one invocation: unreadable keys, unwritable keys, and a scan that will not open. The host's own key checks, such as rejecting an empty key on write, can be expressed only as unwritable keys.
- Read-after-write within one invocation is an assumption of the model: `PutState` updates the state that the next `GetState` of the same invocation reads. A Fabric peer does not provide this, because its `GetState` does not see the invocation's own uncommitted writes. On a peer, `CreateBulkKeys(["a","b","a"])` on an empty store would report all three keys as created and none as failed. `KeySpec.BulkRepeatFails`, `Scenarios.BulkWithRepeat`, and the "at most once" and `Distinct(created)` clauses of `KeySpec.BulkAccounting` and `KeySpec.BulkOutcome` are therefore properties of the assumed stub, not of a Fabric peer.
- The full range scan is assumed to cover every stored key. The Fabric shim replaces an empty start key with `"\x01"`, so on a peer stored keys that begin with `"\x00"` are never listed. The model does not capture that.
- Keys and image URLs are modelled as strings of Unicode scalar values. A Go `string` is a byte string that need not be valid UTF-8, so a key or an image URL that is not valid UTF-8 has no counterpart in the model. Such a URL would not round-trip in the code either, because `json.Marshal` (keygen.go:130) replaces its invalid bytes with U+FFFD. The claim that code-point order equals byte order holds only for valid UTF-8.
- Concurrent invocations, endorsement, commit and roll-back belong to the host. Each invocation is modelled as running alone on the state left by the previous one.
- keygen.py is not part of this model. It shells out to the `peer` command line, derives keys from a simulated PUF with numeric and cryptographic libraries, and ends in fixed test calls.
