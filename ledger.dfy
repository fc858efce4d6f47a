/** The ledger store of the s3x gateway: the in-memory ledger of buckets and in-flight
    multipart uploads, in front of the namespaced durable store and the content backend.

    Locking is not modelled: every operation runs atomically. Three points about the
    locks the operations take:
    - NewMultipartUpload defers `ls.locker.write(bucket)` instead of calling it at entry,
      so the bucket lock is only claimed as the function returns, and it is never released.
    - getMultipartNilable claims pmapLocker although internal functions are meant never
      to claim a lock.
    - The lock fields `locker`, `plocker` and `pmapLocker` are not declared in the
      ledgerStore struct (gateway-s3x-ledger-store.go:32-37); only an embedded RWMutex is. */
module S3xLedger {
  import opened Types
  import opened Store
  import opened Backend
  import opened Parts
  import opened ObjectTable

  /** The in-memory ledger (the `Ledger` record): cached buckets and in-flight uploads. */
  class Ledger {
    var buckets: map<string, LedgerBucketEntry>
    var multipartUploads: map<string, MultipartUpload>

    constructor ()
      ensures buckets == map[] && multipartUploads == map[]
    {
      buckets := map[];
      multipartUploads := map[];
    }
  }

  class LedgerStore {
    /** The durable store, wrapped under DsPrefix. */
    const ds: NamespacedStore
    /** The content backend. */
    const dag: Dag
    /** The in-memory cache of the store and the backend. */
    const l: Ledger

    /** newLedgerStore: an empty ledger over `ds` wrapped in the ledgerRoot namespace.
        Its error result is always nil and is not modelled. */
    constructor (ds: Datastore, dag: Dag)
      ensures fresh(this.ds) && fresh(l)
      ensures this.ds.child == ds && this.ds.prefix == DsPrefix
      ensures this.dag == dag
      ensures l.buckets == map[] && l.multipartUploads == map[]
      ensures Valid()
    {
      this.ds := new NamespacedStore(ds, DsPrefix);
      this.dag := dag;
      l := new Ledger();
    }

    /** Every resident upload is keyed by its own id and keeps every part under its own number. */
    ghost predicate Valid()
      reads l
    {
      forall id :: id in l.multipartUploads ==>
        l.multipartUploads[id].id == id && PartsKeyed(l.multipartUploads[id].objectParts)
    }

    /** The key of an upload record in the underlying store. */
    function StoreKey(id: string): Key {
      ds.prefix + PartKey(id)
    }

    /** What getMultipartNilable yields when the store does not fail: the resident record,
        else the one decoded from the store, else nil. */
    function Resolve(id: string): (r: Result<Option<MultipartUpload>>)
      reads l, ds.child
      ensures r == Ok(None) <==> id !in l.multipartUploads && StoreKey(id) !in ds.child.entries
      ensures r.Err? <==> id !in l.multipartUploads && StoreKey(id) in ds.child.entries
                          && Unmarshal(ds.child.entries[StoreKey(id)]).Err?
    {
      if id in l.multipartUploads then Ok(Some(l.multipartUploads[id]))
      else if StoreKey(id) !in ds.child.entries then Ok(None)
      else match Unmarshal(ds.child.entries[StoreKey(id)])
        case Ok(m) => Ok(Some(m))
        case Err(e) => Err(e)
    }

    /** What getMultipartLoaded yields when the store does not fail: nil becomes InvalidUploadId. */
    function Loaded(id: string): (r: Result<MultipartUpload>)
      reads l, ds.child
      ensures r == Err(InvalidUploadId) <==> id !in l.multipartUploads && StoreKey(id) !in ds.child.entries
      ensures id in l.multipartUploads ==> r == Ok(l.multipartUploads[id])
      ensures r.Err? ==> r.error == InvalidUploadId || r.error == DecodeFailure
    {
      match Resolve(id)
      case Ok(None) => Err(InvalidUploadId)
      case Ok(Some(m)) => Ok(m)
      case Err(e) => Err(e)
    }

    /////////////////////////////
    // Multipart-upload registry
    /////////////////////////////

    /** getMultipartNilable: load-on-miss lookup. A resident record is returned without
        consulting the store; a store NotFound is "absent, no error"; other store and decode
        errors propagate; the loaded record is not written back into memory. */
    method GetMultipartNilable(id: string) returns (r: Result<Option<MultipartUpload>>)
      ensures id in l.multipartUploads ==> r == Ok(Some(l.multipartUploads[id]))
      ensures id !in l.multipartUploads ==> r == Resolve(id) || r == Err(StoreFailure)
      ensures r == Ok(None) ==> id !in l.multipartUploads && StoreKey(id) !in ds.child.entries
      ensures r.Err? ==> r.error == StoreFailure || r.error == DecodeFailure
    {
      if id in l.multipartUploads {
        return Ok(Some(l.multipartUploads[id]));
      }
      var data := ds.Get(PartKey(id));
      if data.Err? {
        if data.error == NotFound {
          return Ok(None);
        }
        return Err(data.error);
      }
      var m := Unmarshal(data.value);
      if m.Err? {
        return Err(m.error);
      }
      return Ok(Some(m.value));
    }

    /** getMultipartLoaded: as getMultipartNilable, with an absent upload reported as InvalidUploadId. */
    method GetMultipartLoaded(id: string) returns (r: Result<MultipartUpload>)
      ensures id in l.multipartUploads ==> r == Ok(l.multipartUploads[id])
      ensures id !in l.multipartUploads ==> r == Loaded(id) || r == Err(StoreFailure)
      ensures r == Err(InvalidUploadId) ==> id !in l.multipartUploads && StoreKey(id) !in ds.child.entries
    {
      var m := GetMultipartNilable(id);
      if m.Err? {
        return Err(m.error);
      }
      if m.value.None? {
        return Err(InvalidUploadId);
      }
      return Ok(m.value.value);
    }

    /** accertValidUploadID: passes exactly when the upload can be loaded. */
    method AssertValidUploadId(id: string) returns (r: Outcome)
      ensures id in l.multipartUploads ==> r == Pass
      ensures id !in l.multipartUploads ==> r == Loaded(id).ToOutcome() || r == Fail(StoreFailure)
      ensures r == Fail(InvalidUploadId) ==> id !in l.multipartUploads && StoreKey(id) !in ds.child.entries
    {
      var m := GetMultipartLoaded(id);
      r := m.ToOutcome();
    }

    /** MultipartIDExists. */
    method MultipartIdExists(id: string) returns (r: Outcome)
      ensures id in l.multipartUploads ==> r == Pass
      ensures id !in l.multipartUploads ==> r == Loaded(id).ToOutcome() || r == Fail(StoreFailure)
      ensures StoreKey(id) !in ds.child.entries && id !in l.multipartUploads ==>
                r == Fail(InvalidUploadId) || r == Fail(StoreFailure)
    {
      r := AssertValidUploadId(id);
    }

    /** GetObjectDetails: the upload record; the read lock and its release function are not modelled. */
    method GetObjectDetails(id: string) returns (r: Result<MultipartUpload>)
      ensures id in l.multipartUploads ==> r == Ok(l.multipartUploads[id])
      ensures id !in l.multipartUploads ==> r == Loaded(id) || r == Err(StoreFailure)
      ensures r.Ok? ==> Loaded(id) == Ok(r.value)
      ensures Valid() && id in l.multipartUploads ==> r.Ok? && r.value.id == id && PartsKeyed(r.value.objectParts)
    {
      r := GetMultipartLoaded(id);
    }

    /** DeleteMultipartID: drops the resident record whatever the store says, then deletes
        the stored one; a store NotFound becomes InvalidUploadId. */
    method DeleteMultipartId(id: string) returns (r: Outcome)
      modifies l, ds.child
      ensures l.multipartUploads == old(l.multipartUploads) - {id}
      ensures l.buckets == old(l.buckets)
      ensures r.Pass? ==> StoreKey(id) in old(ds.child.entries)
                          && ds.child.entries == old(ds.child.entries) - {StoreKey(id)}
      ensures r.Fail? ==> ds.child.entries == old(ds.child.entries)
      ensures r.Fail? ==> r.error == InvalidUploadId || r.error == StoreFailure
      ensures r == Fail(InvalidUploadId) ==> StoreKey(id) !in old(ds.child.entries)
      ensures StoreKey(id) !in old(ds.child.entries) ==> r.Fail?
      ensures r.Pass? || r == Fail(InvalidUploadId) ==> Loaded(id) == Err(InvalidUploadId)
      ensures old(Valid()) ==> Valid()
    {
      l.multipartUploads := l.multipartUploads - {id};
      r := ds.Delete(PartKey(id));
      if r.Fail? && r.error == NotFound {
        r := Fail(InvalidUploadId);
      }
    }

    /** AbortMultipartUpload: checks the bucket, then DeleteMultipartID. On a missing
        bucket nothing is deleted, in memory or in the store. */
    method AbortMultipartUpload(bucket: string, id: string) returns (r: Outcome)
      modifies l, ds.child
      ensures l.buckets == old(l.buckets)
      ensures bucket !in l.buckets ==> r.Fail? && l.multipartUploads == old(l.multipartUploads)
                                       && ds.child.entries == old(ds.child.entries)
      ensures l.multipartUploads == old(l.multipartUploads) - {id}
              || (r.Fail? && l.multipartUploads == old(l.multipartUploads))
      ensures r.Pass? ==> bucket in l.buckets && StoreKey(id) in old(ds.child.entries)
                          && ds.child.entries == old(ds.child.entries) - {StoreKey(id)}
                          && Loaded(id) == Err(InvalidUploadId)
      ensures r.Fail? ==> ds.child.entries == old(ds.child.entries)
      ensures r == Fail(InvalidUploadId) ==> bucket in l.buckets && StoreKey(id) !in old(ds.child.entries)
                                             && Loaded(id) == Err(InvalidUploadId)
      ensures bucket !in old(l.buckets) ==> r == Fail(LedgerBucketDoesNotExist) || r == Fail(StoreFailure)
      ensures r.Fail? ==> r.error in {LedgerBucketDoesNotExist, StoreFailure, InvalidUploadId}
      ensures old(Valid()) ==> Valid()
    {
      r := AssertBucketExists(bucket);
      if r.Fail? {
        return;
      }
      r := DeleteMultipartId(id);
    }

    /** NewMultipartUpload: on an existing bucket, makes the record with no parts, makes it
        resident, then writes it to the store. A failed store write leaves it resident. */
    method NewMultipartUpload(id: string, info: ObjectInfo) returns (r: Outcome)
      modifies l, ds.child
      ensures l.buckets == old(l.buckets)
      ensures info.bucket !in l.buckets ==> r.Fail? && l.multipartUploads == old(l.multipartUploads)
                                            && ds.child.entries == old(ds.child.entries)
      ensures r.Pass? ==> info.bucket in l.buckets
                          && l.multipartUploads == old(l.multipartUploads)[id := MultipartUpload(id, info, map[])]
                          && ds.child.entries == old(ds.child.entries)[StoreKey(id) := Marshal(MultipartUpload(id, info, map[]))]
      ensures r.Fail? ==> ds.child.entries == old(ds.child.entries)
      ensures r.Fail? ==> l.multipartUploads == old(l.multipartUploads)
                          || (r.error == StoreFailure
                              && l.multipartUploads == old(l.multipartUploads)[id := MultipartUpload(id, info, map[])])
      ensures r.Pass? ==> Loaded(id) == Ok(MultipartUpload(id, info, map[]))
      ensures info.bucket !in old(l.buckets) ==> r == Fail(LedgerBucketDoesNotExist) || r == Fail(StoreFailure)
      ensures r.Fail? ==> r.error in {LedgerBucketDoesNotExist, StoreFailure}
      ensures old(Valid()) ==> Valid()
    {
      r := AssertBucketExists(info.bucket);
      if r.Fail? {
        return;
      }
      var m := MultipartUpload(id, info, map[]);
      l.multipartUploads := l.multipartUploads[id := m];
      r := ds.Put(PartKey(id), Marshal(m));
    }

    /** PutObjectPart: on an existing bucket and a loadable upload, records part
        `partNumber` with hash `partHash` and persists the whole record. The record is
        changed in place: a resident one is changed in memory too, one loaded from the
        store is not made resident. The object name is not consulted. */
    method PutObjectPart(bucketName: string, objectName: string, partHash: string, id: string, partNumber: int64)
      returns (r: Outcome)
      modifies l, ds.child
      ensures l.buckets == old(l.buckets)
      ensures bucketName !in l.buckets ==> r.Fail? && l.multipartUploads == old(l.multipartUploads)
                                           && ds.child.entries == old(ds.child.entries)
      ensures old(Resolve(id)) == Ok(None) ==> r.Fail? && l.multipartUploads == old(l.multipartUploads)
                                               && ds.child.entries == old(ds.child.entries)
      ensures r == Fail(InvalidUploadId) ==> old(Resolve(id)) == Ok(None)
      ensures r == Fail(LedgerBucketDoesNotExist) ==> bucketName !in l.buckets
      ensures bucketName !in old(l.buckets) ==> r == Fail(LedgerBucketDoesNotExist) || r == Fail(StoreFailure)
      ensures r == Fail(DecodeFailure) ==> old(Resolve(id)).Err?
      ensures r.Fail? ==> r.error in {LedgerBucketDoesNotExist, StoreFailure, InvalidUploadId, DecodeFailure}
      ensures r.Pass? ==> bucketName in l.buckets && old(Loaded(id)).Ok?
                          && ds.child.entries == old(ds.child.entries)[StoreKey(id) := Marshal(AddPart(old(Loaded(id)).value, partNumber, partHash))]
      ensures r.Fail? ==> ds.child.entries == old(ds.child.entries)
      ensures id !in old(l.multipartUploads) ==> l.multipartUploads == old(l.multipartUploads)
      ensures id in old(l.multipartUploads) ==>
                l.multipartUploads == old(l.multipartUploads)
                || l.multipartUploads == old(l.multipartUploads)[id := AddPart(old(l.multipartUploads)[id], partNumber, partHash)]
      ensures r.Pass? && id in old(l.multipartUploads) ==>
                l.multipartUploads == old(l.multipartUploads)[id := AddPart(old(l.multipartUploads)[id], partNumber, partHash)]
      ensures old(Valid()) ==> Valid()
    {
      r := AssertBucketExists(bucketName);
      if r.Fail? {
        return;
      }
      var m := GetMultipartLoaded(id);
      if m.Err? {
        return Fail(m.error);
      }
      var updated := AddPart(m.value, partNumber, partHash);
      if id in l.multipartUploads {
        // `m` points at the resident record, so the in-place write shows in the ledger.
        l.multipartUploads := l.multipartUploads[id := updated];
      }
      r := ds.Put(PartKey(id), Marshal(updated));
    }

    /////////////////////////
    // Bucket object tables
    /////////////////////////

    /** AssertBucketExits: the bucket exists in the ledger. Its body is not part of this
        model; a store error is a possible outcome. */
    method AssertBucketExists(bucket: string) returns (r: Outcome)
      ensures bucket in l.buckets ==> r == Pass || r == Fail(StoreFailure)
      ensures bucket !in l.buckets ==> r == Fail(LedgerBucketDoesNotExist) || r == Fail(StoreFailure)
    {
      var fault: bool := *;
      if fault {
        return Fail(StoreFailure);
      }
      r := if bucket in l.buckets then Pass else Fail(LedgerBucketDoesNotExist);
    }

    /** getBucket: the cached entry of a bucket, or nil. Its body is not part of this model;
        a store error is a possible outcome. */
    method GetBucket(bucket: string) returns (r: Result<Option<LedgerBucketEntry>>)
      ensures r.Ok? ==> r.value == (if bucket in l.buckets then Some(l.buckets[bucket]) else None)
      ensures r.Err? ==> r.error == StoreFailure
    {
      var fault: bool := *;
      if fault {
        return Err(StoreFailure);
      }
      r := Ok(if bucket in l.buckets then Some(l.buckets[bucket]) else None);
    }

    /** ensureCache on the entry of `bucket`: loads the bucket's object table from the
        backend once. Its body is not part of this model; an unreachable backend is a
        possible outcome while the entry is not yet cached. */
    method EnsureCache(bucket: string) returns (r: Outcome)
      requires bucket in l.buckets
      modifies l
      ensures l.multipartUploads == old(l.multipartUploads)
      ensures r.Pass? ==> l.buckets == old(l.buckets)[bucket := Cached(old(l.buckets)[bucket], Listing(dag, bucket))]
      ensures r.Fail? ==> r.error == Unavailable && l.buckets == old(l.buckets)
      ensures old(l.buckets)[bucket].cached ==> r.Pass? && l.buckets == old(l.buckets)
    {
      var e := l.buckets[bucket];
      if e.cached {
        return Pass;
      }
      var fault: bool := *;
      if fault {
        return Fail(Unavailable);
      }
      l.buckets := l.buckets[bucket := Cached(e, Listing(dag, bucket))];
      r := Pass;
    }

    /** saveBucket: persists the bucket record under its key. Its body is not part of this
        model; a store error is a possible outcome. */
    method SaveBucket(bucket: string, record: Bucket) returns (r: Outcome)
      modifies ds.child
      ensures r.Pass? ==> ds.child.entries == old(ds.child.entries)[ds.prefix + BucketKey(bucket) := BucketBlob(record)]
      ensures r.Fail? ==> r.error == StoreFailure && ds.child.entries == old(ds.child.entries)
      ensures forall id :: Loaded(id) == old(Loaded(id))
    {
      r := ds.Put(BucketKey(bucket), BucketBlob(record));
      forall id
        ensures Loaded(id) == old(Loaded(id))
      {
        PrefixedKeysDiffer(ds.prefix, id, bucket);
      }
    }

    /** The object table of a bucket as ensureCache would leave it. */
    function CachedObjects(bucket: string): map<string, string>
      reads l
      requires bucket in l.buckets
    {
      Cached(l.buckets[bucket], Listing(dag, bucket)).bucket.objects
    }

    /** GetObjectHash: the content hash the bucket's table holds for `name`. Its body is not
        part of this model; it is taken to read the table ensureCache loads. */
    function GetObjectHash(bucket: string, name: string): (r: Result<string>)
      reads l
      ensures r.Ok? <==> bucket in l.buckets && name in CachedObjects(bucket)
      ensures r.Ok? ==> r.value == CachedObjects(bucket)[name]
      ensures bucket !in l.buckets ==> r == Err(LedgerBucketDoesNotExist)
      ensures r.Err? && bucket in l.buckets ==> r.error == LedgerObjectDoesNotExist
    {
      if bucket !in l.buckets then Err(LedgerBucketDoesNotExist)
      else if name !in CachedObjects(bucket) then Err(LedgerObjectDoesNotExist)
      else Ok(CachedObjects(bucket)[name])
    }

    /** object: the backend node of the object, through its content hash. */
    function ObjectOf(bucket: string, name: string): (r: Result<ObjectNode>)
      reads l
      ensures GetObjectHash(bucket, name).Err? ==> r == Err(GetObjectHash(bucket, name).error)
      ensures GetObjectHash(bucket, name).Ok? ==> r == IpfsObject(dag, GetObjectHash(bucket, name).value)
      ensures r.Ok? <==> bucket in l.buckets && name in CachedObjects(bucket)
                         && CachedObjects(bucket)[name] in dag.nodes && dag.nodes[CachedObjects(bucket)[name]].Ok?
      ensures r.Ok? ==> Ok(r.value) == dag.nodes[CachedObjects(bucket)[name]]
    {
      var hash := GetObjectHash(bucket, name);
      if hash.Err? then Err(hash.error) else IpfsObject(dag, hash.value)
    }

    /** objectData: the object's bytes, fetched by the DataHash of its node. */
    function ObjectData(bucket: string, name: string): (r: Result<seq<bv8>>)
      reads l
      ensures ObjectOf(bucket, name).Err? ==> r == Err(ObjectOf(bucket, name).error)
      ensures ObjectOf(bucket, name).Ok? ==> r == IpfsBytes(dag, ObjectOf(bucket, name).value.dataHash)
      ensures r.Ok? <==> ObjectOf(bucket, name).Ok? && ObjectOf(bucket, name).value.dataHash in dag.blocks
                         && dag.blocks[ObjectOf(bucket, name).value.dataHash].Ok?
      ensures r.Ok? ==> Ok(r.value) == dag.blocks[ObjectOf(bucket, name).value.dataHash]
    {
      var obj := ObjectOf(bucket, name);
      if obj.Err? then Err(obj.error) else IpfsBytes(dag, obj.value.dataHash)
    }

    /** RemoveObject: on an existing bucket, loads its table if needed and deletes `name`
        from it. Removing an absent name succeeds. Nothing is persisted. */
    method RemoveObject(bucket: string, name: string) returns (r: Outcome)
      modifies l
      ensures l.multipartUploads == old(l.multipartUploads)
      ensures unchanged(ds.child)
      ensures r.Fail? ==> l.buckets == old(l.buckets)
      ensures r.Fail? ==> r.error in {LedgerBucketDoesNotExist, StoreFailure, Unavailable}
      ensures bucket !in old(l.buckets) ==> r == Fail(LedgerBucketDoesNotExist) || r == Fail(StoreFailure)
      ensures r == Fail(LedgerBucketDoesNotExist) ==> bucket !in old(l.buckets)
      ensures r == Fail(Unavailable) ==> bucket in old(l.buckets) && !old(l.buckets)[bucket].cached
      ensures r.Pass? ==> bucket in old(l.buckets)
                          && l.buckets == old(l.buckets)[bucket := WithoutObject(Cached(old(l.buckets)[bucket], Listing(dag, bucket)), name)]
      ensures r.Pass? ==> GetObjectHash(bucket, name) == Err(LedgerObjectDoesNotExist)
    {
      var b := GetBucket(bucket);
      if b.Err? {
        return Fail(b.error);
      }
      if b.value.None? {
        return Fail(LedgerBucketDoesNotExist);
      }
      r := EnsureCache(bucket);
      if r.Fail? {
        return;
      }
      l.buckets := l.buckets[bucket := WithoutObject(l.buckets[bucket], name)];
      // garbage collection of the object's content in the backend is not done
      return Pass;
    }

    /** putObject: on an existing bucket, loads its table if needed, maps `name` to `objHash`
        and returns what saving the updated bucket returns. A failed save leaves the update
        in memory. */
    method PutObject(bucket: string, name: string, objHash: string) returns (r: Outcome)
      modifies l, ds.child
      ensures l.multipartUploads == old(l.multipartUploads)
      ensures bucket !in old(l.buckets) ==> r.Fail? && l.buckets == old(l.buckets)
                                            && ds.child.entries == old(ds.child.entries)
      ensures bucket !in old(l.buckets) ==> r == Fail(LedgerBucketDoesNotExist) || r == Fail(StoreFailure)
      ensures r == Fail(LedgerBucketDoesNotExist) ==> bucket !in old(l.buckets)
      ensures r == Fail(Unavailable) ==> bucket in old(l.buckets) && !old(l.buckets)[bucket].cached
      ensures r.Fail? ==> r.error in {LedgerBucketDoesNotExist, StoreFailure, Unavailable}
      ensures r.Pass? ==> bucket in old(l.buckets)
                          && l.buckets == old(l.buckets)[bucket := WithObject(Cached(old(l.buckets)[bucket], Listing(dag, bucket)), name, objHash)]
                          && ds.child.entries == old(ds.child.entries)[ds.prefix + BucketKey(bucket) := BucketBlob(l.buckets[bucket].bucket)]
      ensures r.Fail? ==> ds.child.entries == old(ds.child.entries)
      ensures r.Fail? ==> l.buckets == old(l.buckets)
                          || (r.error == StoreFailure && bucket in old(l.buckets)
                              && l.buckets == old(l.buckets)[bucket := WithObject(Cached(old(l.buckets)[bucket], Listing(dag, bucket)), name, objHash)])
      ensures r.Pass? ==> GetObjectHash(bucket, name) == Ok(objHash) && ObjectOf(bucket, name) == IpfsObject(dag, objHash)
      ensures forall id :: Loaded(id) == old(Loaded(id))
    {
      var b := GetBucket(bucket);
      if b.Err? {
        return Fail(b.error);
      }
      if b.value.None? {
        return Fail(LedgerBucketDoesNotExist);
      }
      r := EnsureCache(bucket);
      if r.Fail? {
        return;
      }
      l.buckets := l.buckets[bucket := WithObject(l.buckets[bucket], name, objHash)];
      r := SaveBucket(bucket, l.buckets[bucket].bucket);
    }
  }
}
