# CustodyChain asset ledger, modelled in Dafny

This project models the asset-management chaincode of CustodyChain. The chaincode
keeps custody records (`Asset`: custodian name, custodian agency, case number,
evidence list) in a key-value world state. It offers these operations: seed the
ledger, create, read, update, delete, an existence check, custodian transfer, and a
full range scan. Create, update, delete and transfer read one key, then write it or
report an error. Read and the existence check only read. Seeding writes six keys
without reading. The scan reads every key.

The project has four modules:

- `KeyOrder` (`key_order.dfy`) defines the order in which a full range scan visits
  keys. It is a strict lexicographic order on strings that compares characters by
  code point, with a proper prefix first. The module proves this order is a strict
  total order. It defines the scan order of a key set (`SortedKeys`) and proves that
  order is unique. `LeastKey` is a method that finds the least key of a set.
- `WorldState` (`world_state.dfy`) holds the datatypes and the pure functions that
  specify the operations. `Create`, `Update`, `Delete` and `Transfer` map the store
  before the call to the store after it, together with what the operation returns.
  `Seed` gives only the new store. `Read` and `Scan` give only the value, because
  they change nothing. The existence check has no function of its own: it is `key in s`.
- `Chaincode` (`chaincode.dfy`) holds the class `SmartContract`. Its field `world`
  models the world state. It has one method per chaincode function, and each method
  calls the others the way the Go code does: `CreateAsset`, `UpdateAsset` and
  `DeleteAsset` call `AssetExists`, and `TransferAsset` calls `ReadAsset`. The
  stub's `GetState`, `PutState` and `DelState` are small methods on `world`.
  `GetState` returns `None` for an absent key, and `ReadAsset` turns that into the
  `NotFound` error, as the Go code splits the work. Every chaincode method that
  changes the state (`InitLedger`, `CreateAsset`, `UpdateAsset`, `DeleteAsset`,
  `TransferAsset`) states its new state, and its result if it has one, as a
  `WorldState` function applied to the old state. `PutState` and `DelState` state
  the new map directly. `InitLedger` loops over the seed slice,
  and `GetAllAssets` loops over the keys in scan order. Both are proved against
  specification functions. The client method `SeedReadDeleteZaki`, outside the
  class, calls the contract's methods to seed, check, read, delete and re-create
  the record of "Zaki". It checks each step against the method contracts.
- `LedgerProperties` (`properties.dfy`) holds lemmas that relate several operations.

The stored value is the record itself. The JSON encoding is taken to decode back to
the same record.

`TransferAsset` is modelled as written: it reads and writes under the key
`caseNumber`, not under the custodian name. So "every record is stored under its own
custodian name" (`WellKeyed`) is not an invariant of the ledger, although every other
operation keys records by custodian name. Create, update, delete and
seeding keep `WellKeyed`. `TransferWellKeyed` shows that a transfer keeps it exactly
when the transfer fails or the new custodian name equals the case number.

## Model

| member | source | states |
|---|---|---|
| `WorldState.Read` | smartcontract.go:76-92 | Reading succeeds exactly when the key is present. On success it returns the stored record. An absent key gives `NotFound(key)`. |
| `WorldState.Create` | smartcontract.go:52-73 | A present name fails with `AlreadyExists(name)` and leaves the store as it was. Otherwise the name maps to exactly the four given fields, the key set gains only that name, and every other key is untouched. |
| `WorldState.Update` | smartcontract.go:95-117 | An absent name fails with `NotFound(name)` and changes nothing. Otherwise the record is replaced by exactly the four given fields, the key set is unchanged, and every other key is untouched. |
| `WorldState.Delete` | smartcontract.go:120-130 | An absent name fails with `NotFound(name)` and changes nothing. Otherwise exactly that key is removed and every other key is untouched. |
| `WorldState.Transfer` | smartcontract.go:143-164 | An absent `caseNumber` key fails with `NotFound(caseNumber)` and changes nothing. Otherwise it returns the custodian name stored before the call. The record stays under `caseNumber`, with the new custodian name and agency and the same case number and evidence. The key set is unchanged and no other key changes. |
| `WorldState.PutAllElsewhere` | smartcontract.go:36-46 | Writing a list of records leaves a key unchanged, present or absent, when no record in the list is named by it. |
| `WorldState.PutAllWrites` | smartcontract.go:36-46 | After writing a list of records, a record that no later record overwrites is stored under its custodian name. |
| `WorldState.PutAll` | smartcontract.go:36-46 | The seed loop's writes, one record at a time under its custodian name. It has no contract of its own; `PutAllWrites` and `PutAllElsewhere` state its effect. |
| `WorldState.SeedAssets` | smartcontract.go:27-34 | The six seed records of the slice literal. There are six, and no two share a custodian name, so the seed loop never overwrites one seed record with another. |
| `WorldState.Seed` | smartcontract.go:26-49 | The new store after `InitLedger`. It has no contract of its own; `SeedEffect` states it in closed form. |
| `WorldState.SeedEffect` | smartcontract.go:26-49 | Seeding gives `s + SeedMap()`: the six fixed records sit under their custodian names, whatever was there before, and every other key keeps its old state. |
| `WorldState.SeedWrites` | smartcontract.go:27-46 | After seeding, each of the six seed names holds its own seed record, whatever the store held before. |
| `WorldState.Scan` | smartcontract.go:167-192 | A full scan returns as many records as the store has keys. |
| `WorldState.ScanFromFirst` | smartcontract.go:177-189 | A scan of a key set yields the record of its least key first, then scans the remaining keys. This is the step the iterator loop takes. |
| `WorldState.ScanFromAt` | smartcontract.go:177-189 | The i-th record a scan of a key set yields is the record under the i-th key in key order. |
| `WorldState.ScanAt` | smartcontract.go:167-192 | The i-th record of a full scan is the stored record of the i-th key in key order. |
| `WorldState.ScanCovers` | smartcontract.go:167-192 | Every stored record appears in a full scan, and only stored records do. |
| `KeyOrder.SortedKeysOrdered` | smartcontract.go:170 | The open-ended range query visits every key of the store once, in strictly ascending key order. |
| `KeyOrder.SortedKeysUnique` | smartcontract.go:170 | Any strictly ascending list of exactly the stored keys is the scan order. |
| `KeyOrder.LeastKey` | smartcontract.go:177-178 | Returns the least key of a non-empty key set, which is the key the iterator yields next. |
| `Chaincode.SmartContract.GetState` | smartcontract.go:77 | The stub's point read, also used at line 134, returns a record exactly when the key is present, and then the stored record; otherwise nothing. It has no modifies clause, so the world state is unchanged. |
| `Chaincode.SmartContract.PutState` | smartcontract.go:42 | The stub's point write, also used at lines 72, 116 and 158: the new world state is the old one with the key mapped to the given record. |
| `Chaincode.SmartContract.DelState` | smartcontract.go:129 | The stub's point delete: the new world state is the old one without the key. |
| `Chaincode.SmartContract.InitLedger` | smartcontract.go:26-49 | The loop writes the seed records in slice order without checking existence, so the new world state is `Seed(old world)`. |
| `Chaincode.SmartContract.CreateAsset` | smartcontract.go:52-73 | The new world state and the outcome are `Create` applied to the old world state. |
| `Chaincode.SmartContract.ReadAsset` | smartcontract.go:76-92 | Succeeds exactly when the name is a key. On success it returns the stored record. When `GetState` finds nothing it builds `NotFound(name)` itself. It has no modifies clause, so the world state is unchanged. |
| `Chaincode.SmartContract.UpdateAsset` | smartcontract.go:95-117 | The new world state and the outcome are `Update` applied to the old world state. |
| `Chaincode.SmartContract.DeleteAsset` | smartcontract.go:120-130 | The new world state and the outcome are `Delete` applied to the old world state. |
| `Chaincode.SmartContract.AssetExists` | smartcontract.go:133-140 | Returns true exactly when the name is a key of the world state. It has no modifies clause, so it never changes the state. |
| `Chaincode.SmartContract.TransferAsset` | smartcontract.go:143-164 | The new world state and the result are `Transfer` applied to the old world state. The lookup and the write-back both use `caseNumber` as the key. |
| `Chaincode.SmartContract.GetAllAssets` | smartcontract.go:167-192 | The loop collects the records key by key in scan order and returns exactly `Scan(world)`. |
| `LedgerProperties.CreateThenRead` | smartcontract.go:52-92 | Creating an absent name succeeds, and reading it back gives exactly the created record. |
| `LedgerProperties.CreateExistingKeepsRecord` | smartcontract.go:53-58 | Creating over a present name fails with `AlreadyExists`, and the original record still reads back. |
| `LedgerProperties.ExistenceLifecycle` | smartcontract.go:52-140 | A name that is absent is present after `Create` and absent again after a successful `Delete`. |
| `LedgerProperties.UpdateOverwrites` | smartcontract.go:95-117 | After an update of a present name, reading it gives exactly the four new fields, whatever was stored before. |
| `LedgerProperties.MissingKeyChangesNothing` | smartcontract.go:95-164 | Update, delete and transfer of an absent key fail with `NotFound` of that key and return the store unchanged. |
| `LedgerProperties.CrudKeepsWellKeyed` | smartcontract.go:52-130 | Create, update and delete keep every record under its own custodian name. |
| `LedgerProperties.SeedKeepsWellKeyed` | smartcontract.go:26-49 | Seeding keeps every record under its own custodian name. |
| `LedgerProperties.TransferWellKeyed` | smartcontract.go:143-164 | On a store whose records sit under their own names, a transfer keeps that property exactly when it fails or the new custodian name equals the case number. |
| `LedgerProperties.TransferLeavesNewNameAlone` | smartcontract.go:150-158 | A transfer does not move the record. Reading under the new custodian name gives what it gave before, unless that name is the case number. |
| `LedgerProperties.SeedKeysInScanOrder` | smartcontract.go:27-34 | The seed names in scan order are Adi, Aya, Azmi, Dan, Mirul, Zaki. |
| `LedgerProperties.SeedThenScan` | smartcontract.go:26-192 | Seeding a store that holds only seed names, an empty one for example, and then scanning returns exactly the six seed records in key order. |
| `LedgerProperties.ScanOfSeedRecords` | smartcontract.go:167-192 | A store holding exactly the seed records scans to those six records in key order. |
| `LedgerProperties.ScanOfSeedNames` | smartcontract.go:167-192 | Any store whose keys are exactly the six seed names scans their records in the order Adi, Aya, Azmi, Dan, Mirul, Zaki, whatever records they hold. |
| `LedgerProperties.SeedReadDeleteScenario` | smartcontract.go:26-130 | From any starting state: after seeding, "Zaki" is present and reads as {Zaki, RCED, 1, HP01/HP02}. Deleting it succeeds, and afterwards it is absent and reading it fails with `NotFound`. |

## Left out

- Failures of the world-state stub are not modelled. These are errors from `GetState`, `PutState`, `DelState`, `GetStateByRange` and the iterator's `Next`. In the model every store access succeeds. The error branches that only pass such a failure on are therefore absent, and `InitLedger` returns no error value.
- JSON encoding and decoding (`json.Marshal`, `json.Unmarshal`) are not modelled. The store holds the record itself, so the model has no encoding error, no decoding error for malformed bytes, and no byte-level field order.
- Field order: the comment at smartcontract.go:16 says the fields are declared in alphabetical order. The declarations at smartcontract.go:19-22 are not in that order. The model states no field-order property.
- The iterator's resource handling (`defer resultsIterator.Close()`) is not modelled.
- The store's own key ordering is not the model's. The model orders keys by comparing characters by code point. For valid Unicode strings this matches the byte order of their UTF-8 encodings, but the model does not prove that.
- The first key a full scan can return is not modelled. The platform's `GetStateByRange` replaces an empty start key with `"\x01"`, so the program's scan skips keys that start with U+0000. That substitution is outside smartcontract.go. The model follows the comment at smartcontract.go:168-169: `Scan` returns all records, and `|Scan(s)| == |s|`.
- The platform's limit on how many records one range query returns is not modelled. The peer caps a query at a configured total, and past that cap the iterator stops, so `GetAllAssets` would return at most that many records. The limit is outside smartcontract.go. In the model `Scan` has no cap.
- Concurrency, transaction isolation and consensus belong to the ledger platform, not to this code. They are not modelled.
- Error messages built with `fmt.Errorf` are not modelled. Errors are the constructors `AlreadyExists(key)` and `NotFound(key)`.
- Fabric's contract plumbing (`contractapi.Contract`, the transaction context, `GetStub()`) is not modelled. Its role is taken by the `world` field of `SmartContract`.
- A non-empty `custodianName` is not required. smartcontract.go does not check it, and neither does the model. The platform's `PutState` does refuse the empty key, so in the program `CreateAsset("")` fails. In the model it passes, and `CreateThenRead` holds for `""`. This falls under the first line above: stub failures are not modelled.
