# s3x ledger store, modelled in Dafny

The s3x gateway serves an S3-style object store and keeps the payload bytes in IPFS. Its
ledger store is the bookkeeping layer between the gateway and two stores. It keeps an
in-memory `Ledger`: bucket name to cached bucket entry, whose object table maps object names
to content hashes, and upload id to in-flight multipart upload. That ledger sits in front of
a durable key-value store (go-datastore) and the IPFS node API.

This project models two parts of it:

- the multipart-upload registry (`gateway-s3x-ledger-multipart.go`): create, record a part,
  abort or delete, look up and check existence. Lookup checks memory first, then loads from
  the store (load-on-miss).
- the object side of the bucket registry (`gateway-s3x-ledger-store.go`): construction, object
  and object-data lookup, object removal and object insertion.

## Layout

- `types.dfy` (`Types`): errors, the Go `error` and `(value, error)` returns (`Outcome`,
  `Result`), the upload, part and bucket records, and the abstract serialised form (`Blob`).
- `datastore.dfy` (`Store`): keys as lists of namespaces and the key constants. Also the
  `Datastore` class (the raw store) and `NamespacedStore` (namespace.Wrap), plus `Child`
  (`Key.ChildString`). Every store
  operation may fail with a store error. That failure is nondeterministic, and a failed
  operation changes nothing.
- `backend.dfy` (`Backend`): the IPFS node API, seen as the table of answers it gives:
  `ipfsObject`, `ipfsBytes`, and the object table each bucket's cache is loaded from.
- `parts.dfy` (`Parts`): the part map and what a part write does to it, including "last write
  wins" over any sequence of part writes.
- `objects.dfy` (`ObjectTable`): a bucket entry's object table, and what ensureCache,
  RemoveObject and putObject do to it.
- `ledger.dfy` (`S3xLedger`): the `Ledger` class (the two in-memory maps) and the
  `LedgerStore` class with every operation as a method or function.
- `findings.dfy` (`NilMap`): Go nil-map semantics, for the finding below.
- `scenarios.dfy` (`Scenarios`): client runs that use only the contracts.

Modelling choices:

- A Go nil map is the empty Dafny map. Reading from or deleting through a nil map acts like
  the empty map, so putObject's lazy `make` is the identity here. The one place where the
  difference matters (assigning into a nil map panics) is the finding below.
- Values are updated through the ledger's maps. `PutObjectPart` changes the record it loaded
  in place. When that record came from memory, memory changes too. When it came from the
  store, it is written back to the store only and does not become resident.
- Helpers whose bodies are not in the modelled files are abstract:
  - `AssertBucketExits`/`assertBucketExits`: bucket in the ledger, or a store error.
  - `getBucket`: the resident entry or nil, or a store error.
  - `ensureCache`: load the bucket's table from the backend once; an uncached entry may fail
    with the backend unreachable.
  - `saveBucket`: persist the bucket under `b/<name>`, or a store error. The stored value is
    an abstract `BucketBlob(record)` that stands in for the bucket's root hash (see "## Left out").
  - `GetObjectHash`: look the name up in the table ensureCache gives.
- `dsPartKey` is declared outside the modelled files. The model uses the placeholder `p`.
  With a one-component id, an upload record's key then differs from every bucket record's key
  (`Store.PartAndBucketKeysDiffer`), also under the ledger root (`Store.PrefixedKeysDiffer`),
  so saving a bucket never changes what an upload lookup gives. That holds only under this
  placeholder and the one-component key abstraction.
- The content backend is a table of answers. A hash it knows is answered with a value or
  with the error the remote call fails with (connection, timeout, cancellation). An unknown
  hash fails with `NoSuchNode`.

Behaviours of the code that the model keeps, although they may surprise a caller:

- After a delete whose store step failed with a store error, the upload is gone from memory
  but still in the store. The next lookup loads it again, so "once deleted, never found" holds
  only when the store delete took effect or reported NotFound.
- `PutObjectPart` does not use its object name. It does not check that the upload belongs to
  the bucket it was given.

## Model

| member | source | states |
|---|---|---|
| `S3xLedger.LedgerStore.constructor` | cmd/gateway/s3x/gateway-s3x-ledger-store.go:39-46 | The ledger starts empty, the content backend is the one given, and the store is the given one wrapped under the `ledgerRoot` namespace. The ledger invariant holds from the start. |
| `Store.NamespacedStore.Get` | cmd/gateway/s3x/gateway-s3x-ledger-multipart.go:156-159 | A read through the wrapper reads `prefix + key` in the underlying store. A missing key gives NotFound, never a value; otherwise the result is the stored value or a store error. |
| `Store.NamespacedStore.Put` | cmd/gateway/s3x/gateway-s3x-ledger-multipart.go:48 | A write through the wrapper sets `prefix + key` in the underlying store and changes nothing else. A failed write is a store error and changes nothing. |
| `Store.NamespacedStore.Delete` | cmd/gateway/s3x/gateway-s3x-ledger-multipart.go:141-145 | A delete through the wrapper removes `prefix + key`, which was present, and nothing else. A missing key never succeeds: it gives NotFound or a store error. Any failure changes nothing. |
| `Backend.IpfsObject` | cmd/gateway/s3x/gateway-s3x-ledger-store.go:53 | Succeeds exactly when the backend knows the hash and answers with a node. A known hash gives the backend's answer, node or call error. An unknown hash gives `NoSuchNode`. |
| `Backend.IpfsBytes` | cmd/gateway/s3x/gateway-s3x-ledger-store.go:61 | Succeeds exactly when the backend knows the hash and answers with bytes. A known hash gives the backend's answer, bytes or call error. An unknown hash gives `NoSuchNode`. |
| `Types.Unmarshal` | cmd/gateway/s3x/gateway-s3x-ledger-multipart.go:163-167 | Decoding succeeds exactly on a stored upload record, and what it gives re-encodes to the stored value. Any failure is a decode error. |
| `Store.PartAndBucketKeysDiffer` | cmd/gateway/s3x/gateway-s3x-ledger-store.go:23 | An upload record's key never equals a bucket record's key. |
| `Store.PrefixedKeysDiffer` | cmd/gateway/s3x/gateway-s3x-ledger-store.go:22-23 | Under any common prefix, such as `ledgerRoot`, an upload record's key never equals a bucket record's key. |
| `Store.Child` | cmd/gateway/s3x/gateway-s3x-ledger-multipart.go:48 | `ChildString` gives a key one namespace longer: the parent's namespaces followed by the new one. |
| `Store.Datastore.Get` | cmd/gateway/s3x/gateway-s3x-ledger-multipart.go:156-162 | A present key gives its value and a missing key gives NotFound, never a value; either may instead be a store error. |
| `Store.Datastore.Put` | cmd/gateway/s3x/gateway-s3x-ledger-multipart.go:48 | A successful write sets that key and changes nothing else. A failed write is a store error and changes nothing. |
| `Store.Datastore.Delete` | cmd/gateway/s3x/gateway-s3x-ledger-multipart.go:141-145 | A successful delete removes that key, which was present, and nothing else. A missing key never succeeds: it gives NotFound or a store error. Any failure changes nothing. |
| `S3xLedger.LedgerStore.Resolve` | cmd/gateway/s3x/gateway-s3x-ledger-multipart.go:149-170 | The lookup's result when the store does not fail. It is "absent, no error" exactly when the id is in neither memory nor the store. It is an error exactly when the only record is a stored one that does not decode. |
| `S3xLedger.LedgerStore.GetMultipartNilable` | cmd/gateway/s3x/gateway-s3x-ledger-multipart.go:149-170 | A resident record is returned without consulting the store. On a miss the result is `Resolve`'s or a store error. "Absent" is returned only if the store truly has no record. Errors are store or decode errors. Memory is not changed. |
| `S3xLedger.LedgerStore.Loaded` | cmd/gateway/s3x/gateway-s3x-ledger-multipart.go:126-135 | `InvalidUploadId` exactly when the id is in neither memory nor the store. A resident id gives its record. Any other error is a decode error. |
| `S3xLedger.LedgerStore.GetMultipartLoaded` | cmd/gateway/s3x/gateway-s3x-ledger-multipart.go:126-135 | A resident id gives its record. Otherwise the result is `Loaded`'s or a store error. `InvalidUploadId` only when the id is in neither memory nor the store. |
| `S3xLedger.LedgerStore.AssertValidUploadId` | cmd/gateway/s3x/gateway-s3x-ledger-multipart.go:121-124 | Passes for a resident id. Otherwise gives `Loaded`'s outcome or a store error. `InvalidUploadId` only when the id is nowhere. |
| `S3xLedger.LedgerStore.MultipartIdExists` | cmd/gateway/s3x/gateway-s3x-ledger-multipart.go:91-93 | Passes for a resident id. An id in neither memory nor the store fails with `InvalidUploadId` or a store error. |
| `S3xLedger.LedgerStore.GetObjectDetails` | cmd/gateway/s3x/gateway-s3x-ledger-multipart.go:80-88 | A resident id gives its record. Any record returned is the one `Loaded` gives. Under the ledger invariant, a resident id's record carries that id and keeps every part under its own number. |
| `S3xLedger.LedgerStore.DeleteMultipartId` | cmd/gateway/s3x/gateway-s3x-ledger-multipart.go:137-146 | The id always leaves memory, even when the store has no record. On success the stored record was there and is now the only store entry removed. A store NotFound becomes `InvalidUploadId`. Any failure leaves the store unchanged. Once the delete took effect or reported NotFound, `Loaded(id)` is `InvalidUploadId`. The invariant is preserved. |
| `S3xLedger.LedgerStore.AbortMultipartUpload` | cmd/gateway/s3x/gateway-s3x-ledger-multipart.go:18-24 | On a missing bucket it fails with `LedgerBucketDoesNotExist` or a store error and deletes nothing, in memory or in the store. Every error is a bucket-missing, store or `InvalidUploadId` error. Otherwise it has `DeleteMultipartId`'s effect. On success the upload is gone from both. |
| `S3xLedger.LedgerStore.NewMultipartUpload` | cmd/gateway/s3x/gateway-s3x-ledger-multipart.go:27-49 | On a missing bucket it fails with `LedgerBucketDoesNotExist` or a store error, before touching memory or the store. Every error is one of those two. On success `uploads[id]` is the record with this id, this info and no parts, and that same record is stored under the id's key. Nothing else changes. If the store write fails, the record stays resident and the store is unchanged. |
| `S3xLedger.LedgerStore.PutObjectPart` | cmd/gateway/s3x/gateway-s3x-ledger-multipart.go:52-72 | On a missing bucket, or an id in neither memory nor the store, it fails and writes nothing. A missing bucket gives `LedgerBucketDoesNotExist` or a store error, never an upload error. `InvalidUploadId` means the id is nowhere, and every error is a bucket-missing, store, `InvalidUploadId` or decode error. On success the store holds the whole loaded record with part `n` set to `{n, hash}`. A resident record is updated in memory. A record loaded from the store is not made resident. |
| `Parts.WithPart` | cmd/gateway/s3x/gateway-s3x-ledger-multipart.go:63-66 | After a part write, part `n` is `{Number: n, DataHash: hash}`. The part numbers are the old ones plus `n`. Every other part is unchanged. |
| `Parts.SamePartTwice` | cmd/gateway/s3x/gateway-s3x-ledger-multipart.go:63-66 | Writing the same part number twice leaves one entry, holding the later hash. |
| `Parts.DistinctPartsCommute` | cmd/gateway/s3x/gateway-s3x-ledger-multipart.go:63-66 | Writes to different part numbers give the same map in either order. |
| `Parts.LastWriteWins` | cmd/gateway/s3x/gateway-s3x-ledger-multipart.go:52-72 | After any sequence of part writes, a part is present exactly when it was there before or was written. It holds the hash of the last write to it, or its old entry if never written. |
| `Parts.ApplyWritesKeepsKeyed` | cmd/gateway/s3x/gateway-s3x-ledger-multipart.go:63-66 | Any sequence of part writes keeps every part stored under its own number. |
| `Types.UnmarshalMarshal` | cmd/gateway/s3x/gateway-s3x-ledger-multipart.go:44-48 | Decoding a stored upload record gives back the record that was encoded. |
| `Types.MarshalUnmarshal` | cmd/gateway/s3x/gateway-s3x-ledger-multipart.go:163-167 | Re-encoding a record that decoded gives the same stored value. |
| `S3xLedger.LedgerStore.AssertBucketExists` | cmd/gateway/s3x/gateway-s3x-ledger-multipart.go:19-22 | A missing bucket never passes: it gives `LedgerBucketDoesNotExist` or a store error. A present bucket passes, unless there is a store error. |
| `S3xLedger.LedgerStore.GetBucket` | cmd/gateway/s3x/gateway-s3x-ledger-store.go:66-72 | Gives the resident entry, nil for a missing bucket, or a store error. |
| `S3xLedger.LedgerStore.EnsureCache` | cmd/gateway/s3x/gateway-s3x-ledger-store.go:73-76 | An entry already cached is left alone and the call passes. Otherwise, on success the backend's table is loaded and the entry marked cached; on failure nothing changes. Other buckets and the uploads never change. |
| `S3xLedger.LedgerStore.SaveBucket` | cmd/gateway/s3x/gateway-s3x-ledger-store.go:98 | On success the bucket's stored value is replaced under its key, and nothing else in the store changes. On failure the store is unchanged. Either way, every upload lookup gives what it gave before. |
| `S3xLedger.LedgerStore.GetObjectHash` | cmd/gateway/s3x/gateway-s3x-ledger-store.go:49-52 | Gives the hash exactly when the bucket exists and its table holds the name. Otherwise it is a bucket-missing or object-missing error. |
| `S3xLedger.LedgerStore.ObjectOf` | cmd/gateway/s3x/gateway-s3x-ledger-store.go:48-54 | Any error from the hash lookup is propagated; otherwise the result is ipfsObject's for the hash, call errors included. It succeeds exactly when the hash is found and the backend answers with a node for it, and then gives that node. |
| `S3xLedger.LedgerStore.ObjectData` | cmd/gateway/s3x/gateway-s3x-ledger-store.go:56-62 | Any error from the node lookup is propagated; otherwise the result is ipfsBytes' for the node's DataHash, call errors included. It succeeds exactly when the backend answers with the bytes of that block, and then gives them. |
| `S3xLedger.LedgerStore.RemoveObject` | cmd/gateway/s3x/gateway-s3x-ledger-store.go:65-80 | On a missing bucket it fails with `LedgerBucketDoesNotExist` or a store error, and `LedgerBucketDoesNotExist` means the bucket is missing. Backend unreachable happens only for a bucket not yet cached. Any failure changes nothing, and its error is bucket missing, store error or backend unreachable, never a missing object, so removal is idempotent. On success the entry is the loaded table without the name, every other entry unchanged, and the object is no longer found. Neither the uploads nor the store change: nothing is persisted. |
| `S3xLedger.LedgerStore.PutObject` | cmd/gateway/s3x/gateway-s3x-ledger-store.go:83-99 | On a missing bucket it fails with `LedgerBucketDoesNotExist` or a store error and changes nothing, and `LedgerBucketDoesNotExist` means the bucket is missing. Every error is bucket missing, store error, or backend unreachable (only for a bucket not yet cached). On success the entry is the loaded table with the name mapped to the hash, every other entry unchanged, the store changes only under this bucket's key, which holds the saved bucket, and the object resolves to the node of that hash. The result is saveBucket's error, if any. A failed save keeps the in-memory update and leaves the store unchanged. No upload lookup changes. |
| `ObjectTable.Cached` | cmd/gateway/s3x/gateway-s3x-ledger-store.go:73 | After ensureCache the entry is cached. An entry already cached is unchanged. An uncached one holds the backend's table. |
| `ObjectTable.CachedIdempotent` | cmd/gateway/s3x/gateway-s3x-ledger-store.go:91 | Loading the cache a second time changes nothing. |
| `ObjectTable.WithoutObject` | cmd/gateway/s3x/gateway-s3x-ledger-store.go:78 | After the delete the name is absent. The other names are kept with their hashes. |
| `ObjectTable.WithObject` | cmd/gateway/s3x/gateway-s3x-ledger-store.go:94-97 | After the insert the name maps to the new hash. The other names are kept with their hashes. |
| `ObjectTable.RemoveIdempotent` | cmd/gateway/s3x/gateway-s3x-ledger-store.go:78 | Removing a name twice is the same as removing it once. |
| `ObjectTable.RemoveAbsentKeepsEntry` | cmd/gateway/s3x/gateway-s3x-ledger-store.go:78 | Removing a name the table does not hold changes nothing. |
| `ObjectTable.PutThenRemove` | cmd/gateway/s3x/gateway-s3x-ledger-store.go:78-97 | Inserting a new name and then removing it gives back the original entry. |
| `ObjectTable.PutOverwrites` | cmd/gateway/s3x/gateway-s3x-ledger-store.go:97 | A second insert of a name overwrites the first. |
| `NilMap.Assign` | cmd/gateway/s3x/gateway-s3x-ledger-multipart.go:63 | Assigning into a Go map panics exactly when the map is nil. Otherwise it updates that key. |
| `NilMap.FirstPartPanicsAsWritten` | cmd/gateway/s3x/gateway-s3x-ledger-multipart.go:35-38 | As written, the first part write to a record made by NewMultipartUpload panics. |
| `NilMap.FirstPartRecorded` | cmd/gateway/s3x/gateway-s3x-ledger-multipart.go:63-66 | With the part map allocated at creation, the first part write records exactly that part. |
| `Scenarios.CreatePutRead` | cmd/gateway/s3x/gateway-s3x-ledger-multipart.go:27-88 | Create an upload on an existing bucket, record part 1 with `hashA`, then read the upload back: part 1 is `{1, hashA}`. |
| `Scenarios.CreateOnMissingBucket` | cmd/gateway/s3x/gateway-s3x-ledger-multipart.go:27-33 | Creating an upload on a missing bucket fails with `LedgerBucketDoesNotExist`, or with a store error. No upload and no store entry changes. |
| `Scenarios.AbortThenPut` | cmd/gateway/s3x/gateway-s3x-ledger-multipart.go:18-72 | After an abort that reached the store, a part write to that upload fails with `InvalidUploadId` or a store error, and writes nothing. |
| `Scenarios.Lifecycle` | cmd/gateway/s3x/gateway-s3x-ledger-multipart.go:27-146 | When creation and deletion both succeed, the upload exists after creation. After deletion it is reported as `InvalidUploadId`, or the check hits a store error. |

## Left out

- Locking, modelled as atomic, sequential operations. This covers `pmapLocker`, `locker`,
  `plocker`, the embedded RWMutex, and the release function GetObjectDetails returns. Three
  defects are recorded in `ledger.dfy`:
  - `defer ls.locker.write(bucket)` claims the lock only at return and never releases it.
  - getMultipartNilable locks, although internal functions are meant not to.
  - The lock fields are not declared in the ledgerStore struct (store.go:32-37).
- Concurrency and the `context.Context` arguments: cancellation and deadlines are not
  modelled.
- The protobuf encoding. A stored value is an abstract `Blob`, so `Marshal` cannot fail, and
  the `m.Marshal()` error branches (multipart.go:44-47, 67-70) are not modelled. Decoding
  fails exactly on a value that is not an upload record.
- Datastore key cleaning: an upload id is one key component, so ids containing `/` are not
  modelled.
- `info *ObjectInfo` is never nil in the model, and ObjectInfo keeps only bucket and name.
- newLedgerStore's error result, which is always nil.
- S3xLedger.LedgerStore.constructor: `newLedgerStore` builds `&Ledger{}`, whose two maps are
  nil in Go. The modelled files never allocate them, so the first insert into
  `MultipartUploads` (multipart.go:41) panics unless code outside this model allocates the
  map first. The model starts from empty allocated maps and does not capture that panic.
- The commented-out GetMultipartHashes (multipart.go:96-114), which is dead code.
- cmd/consolelogger.go, the log broadcast facility, which is not part of this model.
- Garbage collection of IPFS content on removal, which the source leaves as a TODO.
- S3xLedger.LedgerStore.GetObjectHash: it is modelled as a pure lookup in the table
  ensureCache would give. It does not capture its own cache loading or backend failures,
  because its body is not part of this model.
- S3xLedger.LedgerStore.AssertBucketExists, S3xLedger.LedgerStore.GetBucket,
  S3xLedger.LedgerStore.EnsureCache and S3xLedger.LedgerStore.SaveBucket: these are abstract
  models of helpers whose bodies are not part of this model, so only their outcomes as the
  callers rely on them are stated.
- S3xLedger.LedgerStore.SaveBucket: in the system, bucket tables live in IPFS. The
  durable store keeps only the root hash of a bucket under `b/<name>` (store.go:26-31).
  saveBucket's body is not part of this model. The model stores an abstract
  `BucketBlob(record)` under the bucket key in place of that root hash. The write of the
  bucket to IPFS, and the resulting change to the bucket's listing in the backend, are not
  modelled: the backend is a fixed table, so a later reload of the table does not see the
  update.
- Types.Unmarshal: a decoded record equals the one encoded, part map included. A protobuf
  decoder very likely leaves a map field nil when the encoded record has no entries, so a
  partless record loaded from the store would have a nil `ObjectParts` as well. That load
  path of the nil-map finding is not modelled.
- Store.Datastore.Delete: it reports NotFound for a missing key, as the caller expects. It
  does not model store versions whose delete of a missing key succeeds silently.

## Findings

| source | as written | input that shows it | evidently intended | confidence | as-written member | corrected member |
|---|---|---|---|---|---|---|
| cmd/gateway/s3x/gateway-s3x-ledger-multipart.go:35-38 | NewMultipartUpload builds the record without allocating `ObjectParts`. PutObjectPart then assigns into that nil map at line 63, which panics in Go. The same panic is likely for a partless record that PutObjectPart loads from the store, since a protobuf decoder may leave an empty map field nil; only the resident path is modelled here. | On a ledger whose `MultipartUploads` map has been allocated (one built by newLedgerStore panics earlier, at line 41) and an existing bucket `b1`: `NewMultipartUpload("u1", {bucket: "b1"})`, then `PutObjectPart("b1", "o1", "hashA", "u1", 1)` | The record starts with an empty part map, and the first part write records that part | high; not executed | `NilMap.FirstPartPanicsAsWritten` | `NilMap.FirstPartRecorded` |
