/** IOSWSNAP files: a whole store content at one height, with an entry count and a digest.
  * The payload is the decompressed stream; the digest is a parameter of 32 bytes. */
module Snapshot {
  import opened Primitives
  import opened StateStore
  import BigEndian

  const MAGIC: Bytes := [73, 79, 83, 87, 83, 78, 65, 80]  // "IOSWSNAP"
  const END_MAGIC: Bytes := [83, 78, 65, 80, 69, 78, 68, 0]  // "SNAPEND\0"
  const VERSION: nat := 1
  const ENTRY_MARKER: byte := 1
  const END_MARKER: byte := 0

  datatype SnapError =
    | Truncated | BadMagic | BadVersion | BadMarker | CountMismatch | BadEndMagic | DigestMismatch | ApplyFailed

  datatype Read<+T> = Got(value: T, end: nat) | Bad(error: SnapError)

  // ---- Reading ----

  function Take(b: Bytes, at: nat, n: nat): (r: Read<Bytes>)
    ensures r.Got? ==> r.end == at + n <= |b|
  {
    if at + n <= |b| then Got(b[at..at + n], at + n) else Bad(Truncated)
  }

  function TakeUint(b: Bytes, at: nat, width: nat): (r: Read<nat>)
    ensures r.Got? ==> r.end == at + width <= |b| && r.value < BigEndian.Capacity(width)
  {
    match Take(b, at, width) case Bad(e) => Bad(e) case Got(v, end) => Got(BigEndian.Decode(v), end)
  }

  /** A length of the given width, then that many bytes. */
  function TakeBlob(b: Bytes, at: nat, width: nat): (r: Read<Bytes>)
    ensures r.Got? ==> at + width <= r.end <= |b|
  {
    match TakeUint(b, at, width) case Bad(e) => Bad(e) case Got(n, end) => Take(b, end, n)
  }

  /** The entry behind an entry marker. */
  function TakeEntry(b: Bytes, at: nat): (r: Read<Entry>)
    ensures r.Got? ==> at < r.end <= |b|
  {
    match TakeBlob(b, at, 1)
    case Bad(e) => Bad(e)
    case Got(ns, e1) =>
      match TakeBlob(b, e1, 4)
      case Bad(e) => Bad(e)
      case Got(key, e2) =>
        match TakeBlob(b, e2, 4)
        case Bad(e) => Bad(e)
        case Got(val, e3) => Got(Entry(PUT, ns, key, val), e3)
  }

  /** Entries up to and including the end marker. */
  function TakeEntries(b: Bytes, at: nat): (r: Read<seq<Entry>>)
    ensures r.Got? ==> at < r.end <= |b|
    decreases |b| - at
  {
    if at >= |b| then Bad(Truncated)
    else if b[at] == END_MARKER then Got([], at + 1)
    else if b[at] != ENTRY_MARKER then Bad(BadMarker)
    else
      match TakeEntry(b, at + 1)
      case Bad(e) => Bad(e)
      case Got(first, end) =>
        match TakeEntries(b, end) case Bad(e) => Bad(e) case Got(rest, last) => Got([first] + rest, last)
  }

  /** Magic, version and height: twenty bytes. */
  function TakeHeader(b: Bytes): (r: Read<uint64>)
    ensures r.Got? ==> r.end == 20 <= |b|
  {
    BigEndian.Capacities();
    match Take(b, 0, 8)
    case Bad(e) => Bad(e)
    case Got(magic, e1) =>
      if magic != MAGIC then Bad(BadMagic)
      else
        match TakeUint(b, e1, 4)
        case Bad(e) => Bad(e)
        case Got(version, e2) =>
          if version != VERSION then Bad(BadVersion)
          else match TakeUint(b, e2, 8) case Bad(e) => Bad(e) case Got(h, e3) => Got(h, e3)
  }

  /** Go's conversion of an unsigned 64-bit count to a signed int. */
  function ToInt64(v: uint64): int {
    if v < 0x8000_0000_0000_0000 then v else v - UINT64_LIMIT
  }

  /** Count, digest and end magic, checked against what was read. */
  function TakeTrailer(b: Bytes, at: nat, count: nat, digest: Bytes): Read<()> {
    BigEndian.Capacities();
    match TakeUint(b, at, 8)
    case Bad(e) => Bad(e)
    case Got(n, e1) =>
      if ToInt64(n) != count then Bad(CountMismatch)
      else
        match Take(b, e1, 32)
        case Bad(e) => Bad(e)
        case Got(got, e2) =>
          match Take(b, e2, 8)
          case Bad(e) => Bad(e)
          case Got(magic, e3) =>
            if magic != END_MAGIC then Bad(BadEndMagic)
            else if got != digest then Bad(DigestMismatch)
            else Got((), e3)
  }

  datatype Image = Image(height: uint64, entries: seq<Entry>)

  /** A whole snapshot, whatever follows it. */
  function Parse(b: Bytes, sha: Bytes -> Bytes): (r: Read<Image>)
    ensures r.Got? ==> 20 < r.end
  {
    match TakeHeader(b)
    case Bad(e) => Bad(e)
    case Got(h, e1) =>
      match TakeEntries(b, e1)
      case Bad(e) => Bad(e)
      case Got(es, e2) =>
        match TakeTrailer(b, e2, |es|, sha(b[..e2])) case Bad(e) => Bad(e) case Got(_, e3) => Got(Image(h, es), e3)
  }

  // ---- Writing ----

  predicate Writable(e: Entry) {
    e.writeType == PUT && |e.namespace| < 0x100 && |e.key| < 0x1_0000_0000 && |e.value| < 0x1_0000_0000
  }

  function WriteBlob(v: Bytes, width: nat): Bytes {
    BigEndian.Encode(|v|, width) + v
  }

  function WriteEntry(e: Entry): Bytes {
    [ENTRY_MARKER] + (WriteBlob(e.namespace, 1) + (WriteBlob(e.key, 4) + WriteBlob(e.value, 4)))
  }

  function WriteEntries(es: seq<Entry>): Bytes {
    if es == [] then [END_MARKER] else WriteEntry(es[0]) + WriteEntries(es[1..])
  }

  function WriteHeader(h: uint64): Bytes {
    MAGIC + (BigEndian.Encode(VERSION, 4) + BigEndian.Encode(h, 8))
  }

  function WriteBody(i: Image): Bytes {
    WriteHeader(i.height) + WriteEntries(i.entries)
  }

  function WriteTrailer(count: nat, digest: Bytes): Bytes {
    BigEndian.Encode(count, 8) + (digest + END_MAGIC)
  }

  function Write(i: Image, sha: Bytes -> Bytes): Bytes {
    WriteBody(i) + WriteTrailer(|i.entries|, sha(WriteBody(i)))
  }

  predicate WritableImage(i: Image) {
    |i.entries| < 0x8000_0000_0000_0000 && forall e :: e in i.entries ==> Writable(e)
  }
}
