/** The part map of a multipart upload and what PutObjectPart does to it. */
module Parts {
  import opened Types

  /** The in-place write `m.ObjectParts[partNumber] = ObjectPartInfo{partNumber, partHash}`. */
  function WithPart(parts: map<int64, ObjectPartInfo>, n: int64, h: string): (r: map<int64, ObjectPartInfo>)
    ensures n in r && r[n] == ObjectPartInfo(n, h)
    ensures r.Keys == parts.Keys + {n}
    ensures forall k :: k in parts && k != n ==> r[k] == parts[k]
  {
    parts[n := ObjectPartInfo(n, h)]
  }

  /** The upload record after recording part `n` with hash `h`. */
  function AddPart(m: MultipartUpload, n: int64, h: string): MultipartUpload {
    m.(objectParts := WithPart(m.objectParts, n, h))
  }

  /** Every part is stored under its own number. */
  ghost predicate PartsKeyed(parts: map<int64, ObjectPartInfo>) {
    forall n :: n in parts ==> parts[n].number == n
  }

  /** Writing one part number twice leaves one entry holding the later hash. */
  lemma SamePartTwice(parts: map<int64, ObjectPartInfo>, n: int64, h1: string, h2: string)
    ensures WithPart(WithPart(parts, n, h1), n, h2) == WithPart(parts, n, h2)
  {
  }

  /** Writes to different part numbers do not interfere. */
  lemma DistinctPartsCommute(parts: map<int64, ObjectPartInfo>, n1: int64, h1: string, n2: int64, h2: string)
    requires n1 != n2
    ensures WithPart(WithPart(parts, n1, h1), n2, h2) == WithPart(WithPart(parts, n2, h2), n1, h1)
  {
  }

  /** One PutObjectPart call on an upload: its part number and part hash. */
  datatype PartWrite = PartWrite(number: int64, hash: string)

  /** The part map after a sequence of PutObjectPart calls on one upload, in order. */
  function ApplyWrites(parts: map<int64, ObjectPartInfo>, ws: seq<PartWrite>): map<int64, ObjectPartInfo>
    decreases |ws|
  {
    if ws == [] then parts
    else ApplyWrites(WithPart(parts, ws[0].number, ws[0].hash), ws[1..])
  }

  /** The hash of the last write to part `n` in `ws`, if any. */
  function LastWrite(ws: seq<PartWrite>, n: int64): Option<string>
    decreases |ws|
  {
    if ws == [] then None
    else if ws[|ws| - 1].number == n then Some(ws[|ws| - 1].hash)
    else LastWrite(ws[..|ws| - 1], n)
  }

  lemma {:induction false} ApplyWritesSnoc(parts: map<int64, ObjectPartInfo>, ws: seq<PartWrite>, w: PartWrite)
    ensures ApplyWrites(parts, ws + [w]) == WithPart(ApplyWrites(parts, ws), w.number, w.hash)
    decreases |ws|
  {
    if ws == [] {
      assert [] + [w] == [w];
      assert [w][1..] == [];
    } else {
      assert (ws + [w])[0] == ws[0];
      assert (ws + [w])[1..] == ws[1..] + [w];
      ApplyWritesSnoc(WithPart(parts, ws[0].number, ws[0].hash), ws[1..], w);
    }
  }

  /** Last write wins, per part: after any sequence of part writes, part `n` holds the hash
      of the last write to `n`; a part never written keeps its old entry; nothing else appears. */
  lemma {:induction false} LastWriteWins(parts: map<int64, ObjectPartInfo>, ws: seq<PartWrite>, n: int64)
    ensures n in ApplyWrites(parts, ws) <==> n in parts || LastWrite(ws, n).Some?
    ensures LastWrite(ws, n).Some? ==> ApplyWrites(parts, ws)[n] == ObjectPartInfo(n, LastWrite(ws, n).value)
    ensures LastWrite(ws, n).None? && n in parts ==> ApplyWrites(parts, ws)[n] == parts[n]
    decreases |ws|
  {
    if ws != [] {
      var init, last := ws[..|ws| - 1], ws[|ws| - 1];
      assert ws == init + [last];
      ApplyWritesSnoc(parts, init, last);
      LastWriteWins(parts, init, n);
    }
  }

  /** Part writes keep every part stored under its own number. */
  lemma {:induction false} ApplyWritesKeepsKeyed(parts: map<int64, ObjectPartInfo>, ws: seq<PartWrite>)
    requires PartsKeyed(parts)
    ensures PartsKeyed(ApplyWrites(parts, ws))
    decreases |ws|
  {
    if ws != [] {
      ApplyWritesKeepsKeyed(WithPart(parts, ws[0].number, ws[0].hash), ws[1..]);
    }
  }
}
