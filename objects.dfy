/** The object table of a cached bucket entry and what ensureCache, RemoveObject and
    putObject do to it. */
module ObjectTable {
  import opened Types

  /** The entry after a successful ensureCache: an entry already cached is kept as it is;
      otherwise the backend's table for the bucket is loaded and the entry marked cached. */
  function Cached(e: LedgerBucketEntry, listing: map<string, string>): (r: LedgerBucketEntry)
    ensures r.cached
    ensures e.cached ==> r == e
    ensures !e.cached ==> r.bucket.objects == listing
  {
    if e.cached then e else LedgerBucketEntry(Bucket(listing), true)
  }

  /** Loading the cache is done at most once: a second load changes nothing. */
  lemma CachedIdempotent(e: LedgerBucketEntry, first: map<string, string>, second: map<string, string>)
    ensures Cached(Cached(e, first), second) == Cached(e, first)
  {
  }

  /** The in-place `delete(b.Bucket.Objects, name)`. */
  function WithoutObject(e: LedgerBucketEntry, name: string): (r: LedgerBucketEntry)
    ensures r.cached == e.cached
    ensures name !in r.bucket.objects
    ensures r.bucket.objects.Keys == e.bucket.objects.Keys - {name}
    ensures forall k :: k in r.bucket.objects ==> r.bucket.objects[k] == e.bucket.objects[k]
  {
    e.(bucket := Bucket(e.bucket.objects - {name}))
  }

  /** The in-place `b.Bucket.Objects[name] = objHash`, on a map allocated if nil. */
  function WithObject(e: LedgerBucketEntry, name: string, hash: string): (r: LedgerBucketEntry)
    ensures r.cached == e.cached
    ensures name in r.bucket.objects && r.bucket.objects[name] == hash
    ensures r.bucket.objects.Keys == e.bucket.objects.Keys + {name}
    ensures forall k :: k in e.bucket.objects && k != name ==> r.bucket.objects[k] == e.bucket.objects[k]
  {
    e.(bucket := Bucket(e.bucket.objects[name := hash]))
  }

  /** Removing twice is removing once. */
  lemma RemoveIdempotent(e: LedgerBucketEntry, name: string)
    ensures WithoutObject(WithoutObject(e, name), name) == WithoutObject(e, name)
  {
  }

  /** Removing a name that is not in the table leaves the entry as it was. */
  lemma RemoveAbsentKeepsEntry(e: LedgerBucketEntry, name: string)
    requires name !in e.bucket.objects
    ensures WithoutObject(e, name) == e
  {
    assert e.bucket.objects - {name} == e.bucket.objects;
  }

  /** Putting a new name and removing it again gives back the original entry. */
  lemma PutThenRemove(e: LedgerBucketEntry, name: string, hash: string)
    requires name !in e.bucket.objects
    ensures WithoutObject(WithObject(e, name, hash), name) == e
  {
    assert e.bucket.objects[name := hash] - {name} == e.bucket.objects;
  }

  /** A second put of the same name overwrites the first. */
  lemma PutOverwrites(e: LedgerBucketEntry, name: string, h1: string, h2: string)
    ensures WithObject(WithObject(e, name, h1), name, h2) == WithObject(e, name, h2)
  {
  }
}
