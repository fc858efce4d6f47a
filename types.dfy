/** Value types shared by the ledger: errors, results, the multipart-upload and bucket
    records, and the abstract serialised form the durable store holds. */
module Types {

  /** Go's int64, the type of a part number. */
  newtype int64 = x: int | -0x8000_0000_0000_0000 <= x < 0x8000_0000_0000_0000

  /** The errors the ledger can return. */
  datatype Error =
    | LedgerBucketDoesNotExist   // ErrLedgerBucketDoesNotExist
    | LedgerObjectDoesNotExist   // the object name is not in the bucket's table
    | InvalidUploadId            // ErrInvalidUploadID
    | NotFound                   // datastore.ErrNotFound
    | StoreFailure               // any other durable-store error (connection, I/O)
    | DecodeFailure              // a stored record that does not decode
    | Unavailable                // the content backend could not be reached
    | NoSuchNode(hash: string)   // the content backend has no node or block for this hash

  /** A Go `error` return: nil or an error. */
  datatype Outcome = Pass | Fail(error: Error)

  /** A Go `(value, error)` return. */
  datatype Result<T> = Ok(value: T) | Err(error: Error) {
    function ToOutcome(): Outcome {
      match this
      case Ok(_) => Pass
      case Err(e) => Fail(e)
    }
  }

  /** A Go pointer that may be nil. */
  datatype Option<T> = None | Some(value: T)

  /** The part of ObjectInfo the ledger reads: the bucket of the upload's target object. */
  datatype ObjectInfo = ObjectInfo(bucket: string, name: string)

  datatype ObjectPartInfo = ObjectPartInfo(number: int64, dataHash: string)

  /** An in-flight multipart upload: its id, its target object and its parts by number. */
  datatype MultipartUpload = MultipartUpload(
    id: string,
    objectInfo: ObjectInfo,
    objectParts: map<int64, ObjectPartInfo>)

  /** A bucket record: object name to content hash. A nil Go map is the empty map here. */
  datatype Bucket = Bucket(objects: map<string, string>)

  /** The cached entry of one bucket; `cached` is true once ensureCache has loaded
      its object table from the content backend. */
  datatype LedgerBucketEntry = LedgerBucketEntry(bucket: Bucket, cached: bool)

  /** What the durable store holds under a key: a serialised upload or bucket record,
      or bytes that are neither. The protobuf encoding itself is kept abstract. */
  datatype Blob =
    | UploadBlob(upload: MultipartUpload)
    | BucketBlob(record: Bucket)
    | OtherBytes(bytes: seq<bv8>)

  function Marshal(m: MultipartUpload): Blob {
    UploadBlob(m)
  }

  /** Decoding a stored value as a MultipartUpload. */
  function Unmarshal(b: Blob): (r: Result<MultipartUpload>)
    ensures r.Ok? <==> b.UploadBlob?
    ensures r.Ok? ==> Marshal(r.value) == b
    ensures r.Err? ==> r.error == DecodeFailure
  {
    if b.UploadBlob? then Ok(b.upload) else Err(DecodeFailure)
  }

  /** Decoding what Marshal wrote gives the record back. */
  lemma UnmarshalMarshal(m: MultipartUpload)
    ensures Unmarshal(Marshal(m)) == Ok(m)
  {
  }

  /** Re-encoding a decoded blob gives the same blob. */
  lemma MarshalUnmarshal(b: Blob)
    requires Unmarshal(b).Ok?
    ensures Marshal(Unmarshal(b).value) == b
  {
  }
}
