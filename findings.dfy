/** Go's nil maps, for the one place where they matter: NewMultipartUpload builds its record
    without allocating ObjectParts, and PutObjectPart then assigns into that map. Reading or
    deleting through a nil Go map sees an empty map, but assigning into one panics. The rest
    of the model gives a new record an empty part map, which is what the code evidently intends. */
module NilMap {
  import opened Types
  import opened Parts

  /** A Go map value: nil, or an allocated map. */
  datatype GoMap<K, V> = Nil | Made(entries: map<K, V>)

  /** A MultipartUpload whose part map may be nil, as Go holds it. */
  datatype GoMultipartUpload = GoMultipartUpload(
    id: string,
    objectInfo: ObjectInfo,
    objectParts: GoMap<int64, ObjectPartInfo>)

  /** `m[k] = v` in Go: a panic (None) on a nil map, else the updated map. */
  function Assign<K, V>(m: GoMap<K, V>, k: K, v: V): (r: Option<GoMap<K, V>>)
    ensures r.None? <==> m.Nil?
    ensures r.Some? ==> r.value == Made(m.entries[k := v])
  {
    match m
    case Nil => None
    case Made(entries) => Some(Made(entries[k := v]))
  }

  /** The record NewMultipartUpload builds, as written: ObjectParts is not set. */
  function NewRecordAsWritten(id: string, info: ObjectInfo): GoMultipartUpload {
    GoMultipartUpload(id, info, Nil)
  }

  /** The part write of PutObjectPart, as written; None is a panic. */
  function PutPartAsWritten(m: GoMultipartUpload, n: int64, h: string): Option<GoMultipartUpload> {
    match Assign(m.objectParts, n, ObjectPartInfo(n, h))
    case None => None
    case Some(parts) => Some(m.(objectParts := parts))
  }

  /** As written, the first part written to any upload made by NewMultipartUpload panics. */
  lemma FirstPartPanicsAsWritten(id: string, info: ObjectInfo, n: int64, h: string)
    ensures PutPartAsWritten(NewRecordAsWritten(id, info), n, h).None?
  {
  }

  /** With the part map allocated at creation, the first part write records exactly that part. */
  lemma FirstPartRecorded(id: string, info: ObjectInfo, n: int64, h: string)
    ensures AddPart(MultipartUpload(id, info, map[]), n, h)
            == MultipartUpload(id, info, map[n := ObjectPartInfo(n, h)])
  {
  }
}
