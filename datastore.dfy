/** The durable key-value store the ledger persists its records in (go-datastore),
    and the namespace wrapper that puts every ledger key under one root. */
module Store {
  import opened Types

  /** A datastore key as its list of namespaces: `/ledgerRoot/b/photos` is
      ["ledgerRoot", "b", "photos"]. */
  type Key = seq<string>

  /** ChildString: the key one namespace below `k`. */
  function Child(k: Key, s: string): (c: Key)
    ensures |c| == |k| + 1 && c[..|k|] == k && c[|k|] == s
  {
    k + [s]
  }

  /** The root every ledger key is wrapped under. */
  const DsPrefix: Key := ["ledgerRoot"]
  /** The key of the whole-ledger record (not read or written by the modelled operations). */
  const DsKey: Key := ["ledgerstatekey"]
  /** The sub-prefix of bucket records. */
  const DsBucketKey: Key := ["b"]
  /** The sub-prefix of multipart-upload records. Its value is declared outside the
      modelled files; "p" stands in for it, and only its being distinct from DsBucketKey matters. */
  const DsPartKey: Key := ["p"]

  function PartKey(id: string): Key {
    Child(DsPartKey, id)
  }

  function BucketKey(name: string): Key {
    Child(DsBucketKey, name)
  }

  /** A part record and a bucket record never share a key. */
  lemma PartAndBucketKeysDiffer(id: string, name: string)
    ensures PartKey(id) != BucketKey(name)
  {
    assert PartKey(id)[0] != BucketKey(name)[0];
  }

  /** The two key families stay apart under any common prefix, such as the ledger root. */
  lemma PrefixedKeysDiffer(prefix: Key, id: string, name: string)
    ensures prefix + PartKey(id) != prefix + BucketKey(name)
  {
    PartAndBucketKeysDiffer(id, name);
    assert (prefix + PartKey(id))[|prefix|] == PartKey(id)[0];
    assert (prefix + BucketKey(name))[|prefix|] == BucketKey(name)[0];
  }

  /** The raw store. Every operation may fail with a store error (connection, I/O),
      which is modelled as a nondeterministic outcome; a failed operation changes nothing. */
  class Datastore {
    var entries: map<Key, Blob>

    constructor (initial: map<Key, Blob>)
      ensures entries == initial
    {
      entries := initial;
    }

    /** A missing key gives NotFound, never a value; a present key gives its value. */
    method Get(k: Key) returns (r: Result<Blob>)
      ensures k in entries ==> r == Ok(entries[k]) || r == Err(StoreFailure)
      ensures k !in entries ==> r == Err(NotFound) || r == Err(StoreFailure)
    {
      var fault: bool := *;
      if fault {
        return Err(StoreFailure);
      }
      if k !in entries {
        return Err(NotFound);
      }
      return Ok(entries[k]);
    }

    method Put(k: Key, v: Blob) returns (r: Outcome)
      modifies this
      ensures r.Pass? ==> entries == old(entries)[k := v]
      ensures r.Fail? ==> r.error == StoreFailure && entries == old(entries)
    {
      var fault: bool := *;
      if fault {
        return Fail(StoreFailure);
      }
      entries := entries[k := v];
      return Pass;
    }

    /** Deleting a missing key reports NotFound. */
    method Delete(k: Key) returns (r: Outcome)
      modifies this
      ensures r.Pass? ==> k in old(entries) && entries == old(entries) - {k}
      ensures r.Fail? ==> entries == old(entries)
      ensures r.Fail? ==> r.error == StoreFailure || (r.error == NotFound && k !in entries)
      ensures k !in old(entries) ==> r.Fail?
    {
      var fault: bool := *;
      if fault {
        return Fail(StoreFailure);
      }
      if k !in entries {
        return Fail(NotFound);
      }
      entries := entries - {k};
      return Pass;
    }
  }

  /** namespace.Wrap: a view of `child` in which key `k` stands for `prefix + k`.
      Every access goes to the child store under the prefix; errors pass through unchanged. */
  class NamespacedStore {
    const prefix: Key
    const child: Datastore

    constructor (child: Datastore, prefix: Key)
      ensures this.child == child && this.prefix == prefix
    {
      this.child := child;
      this.prefix := prefix;
    }

    method Get(k: Key) returns (r: Result<Blob>)
      ensures prefix + k in child.entries ==> r == Ok(child.entries[prefix + k]) || r == Err(StoreFailure)
      ensures prefix + k !in child.entries ==> r == Err(NotFound) || r == Err(StoreFailure)
    {
      r := child.Get(prefix + k);
    }

    method Put(k: Key, v: Blob) returns (r: Outcome)
      modifies child
      ensures r.Pass? ==> child.entries == old(child.entries)[prefix + k := v]
      ensures r.Fail? ==> r.error == StoreFailure && child.entries == old(child.entries)
    {
      r := child.Put(prefix + k, v);
    }

    method Delete(k: Key) returns (r: Outcome)
      modifies child
      ensures r.Pass? ==> prefix + k in old(child.entries) && child.entries == old(child.entries) - {prefix + k}
      ensures r.Fail? ==> child.entries == old(child.entries)
      ensures r.Fail? ==> r.error == StoreFailure || (r.error == NotFound && prefix + k !in child.entries)
      ensures prefix + k !in old(child.entries) ==> r.Fail?
    {
      r := child.Delete(prefix + k);
    }
  }
}
