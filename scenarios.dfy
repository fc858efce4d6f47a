/** Client runs of the ledger store that show what its contracts let a caller conclude.
    Each step may fail with a store or backend error; the conclusions are stated for the
    runs in which the steps that must succeed do. */
module Scenarios {
  import opened Types
  import opened S3xLedger

  /** Create an upload on an existing bucket, record part 1, read the upload back:
      part 1 holds the hash just written. */
  method CreatePutRead(ls: LedgerStore) returns (ok: bool, details: Result<MultipartUpload>)
    requires "b1" in ls.l.buckets
    modifies ls.l, ls.ds.child
    ensures ok ==> details.Ok? && 1 in details.value.objectParts
                   && details.value.objectParts[1] == ObjectPartInfo(1, "hashA")
  {
    var created := ls.NewMultipartUpload("u1", ObjectInfo("b1", "o1"));
    if created.Fail? {
      return false, Err(created.error);
    }
    var put := ls.PutObjectPart("b1", "o1", "hashA", "u1", 1);
    if put.Fail? {
      return false, Err(put.error);
    }
    details := ls.GetObjectDetails("u1");
    ok := true;
  }

  /** Creating an upload for a missing bucket fails and leaves no trace. */
  method CreateOnMissingBucket(ls: LedgerStore) returns (r: Outcome)
    requires "missing" !in ls.l.buckets
    modifies ls.l, ls.ds.child
    ensures r == Fail(LedgerBucketDoesNotExist) || r == Fail(StoreFailure)
    ensures ls.l.multipartUploads == old(ls.l.multipartUploads)
    ensures ls.ds.child.entries == old(ls.ds.child.entries)
  {
    r := ls.NewMultipartUpload("u1", ObjectInfo("missing", "o1"));
  }

  /** After an abort that reached the store, a part write to the aborted upload is
      refused with InvalidUploadId (or fails in the store) and writes nothing. */
  method AbortThenPut(ls: LedgerStore) returns (aborted: bool, r: Outcome)
    modifies ls.l, ls.ds.child
    ensures aborted ==> r == Fail(InvalidUploadId) || r == Fail(StoreFailure)
    ensures aborted ==> r.Fail? && ls.ds.child.entries == old(ls.ds.child.entries) - {ls.StoreKey("u1")}
  {
    var abort := ls.AbortMultipartUpload("b1", "u1");
    aborted := abort.Pass? || abort == Fail(InvalidUploadId);
    r := ls.PutObjectPart("b1", "o1", "hashB", "u1", 1);
  }

  /** An upload exists once created, and no longer once deleted. */
  method Lifecycle(ls: LedgerStore, info: ObjectInfo) returns (ok: bool, before: Outcome, after: Outcome)
    modifies ls.l, ls.ds.child
    ensures ok ==> before == Pass
    ensures ok ==> after == Fail(InvalidUploadId) || after == Fail(StoreFailure)
  {
    var created := ls.NewMultipartUpload("u1", info);
    before := ls.MultipartIdExists("u1");
    var deleted := ls.DeleteMultipartId("u1");
    after := ls.MultipartIdExists("u1");
    ok := created.Pass? && deleted.Pass?;
  }
}
