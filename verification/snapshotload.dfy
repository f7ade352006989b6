/** Loading a snapshot into the store: all of it or nothing; and the format's round trip. */
module SnapshotLoad {
  import opened Primitives
  import opened StateStore
  import opened Snapshot
  import opened Protowire
  import BigEndian

  datatype Outcome = Loaded(height: uint64, count: nat) | Skipped(height: uint64) | Failed(error: SnapError)

  /** What loading a payload into a store at some height comes to. */
  function Verdict(b: Bytes, sha: Bytes -> Bytes, at: uint64): Read<Option<Image>> {
    match TakeHeader(b)
    case Bad(e) => Bad(e)
    case Got(h, end) =>
      if at >= h then Got(None, end)
      else match Parse(b, sha) case Bad(e) => Bad(e) case Got(i, last) => Got(Some(i), last)
  }

  /** The content and height a load leaves behind. */
  ghost predicate LoadResult(b: Bytes, sha: Bytes -> Bytes, fault: Option<nat>, before: Content, at: uint64,
                             after: Content, height: uint64, o: Outcome) {
    match Verdict(b, sha, at)
    case Bad(e) => o == Failed(e) && after == before && height == at
    case Got(None, _) => o == Skipped(TakeHeader(b).value) && after == before && height == at
    case Got(Some(i), _) =>
      if fault.Some? then o == Failed(ApplyFailed) && after == before && height == at
      else o == Loaded(i.height, |i.entries|) && after == Commit(before, i.height, i.entries) && height == i.height
  }

  /** Reads the payload from front to back, hashing what it reads up to the end marker, and commits
    * all entries in one transaction (which the database may fail). */
  method LoadSnapshot(payload: Bytes, store: Store, sha: Bytes -> Bytes, fault: Option<nat>) returns (o: Outcome)
    requires store.Valid()
    modifies store
    ensures store.Valid()
    ensures LoadResult(payload, sha, fault, old(store.db), old(store.height), store.db, store.height, o)
  {
    hide Take, TakeUint, TakeBlob;
    var magic := Take(payload, 0, 8);
    if magic.Bad? {
      return Failed(magic.error);
    }
    if magic.value != MAGIC {
      return Failed(BadMagic);
    }
    var version := TakeUint(payload, magic.end, 4);
    if version.Bad? {
      return Failed(version.error);
    }
    if version.value != VERSION {
      return Failed(BadVersion);
    }
    BigEndian.Capacities();
    var height := TakeUint(payload, version.end, 8);
    if height.Bad? {
      return Failed(height.error);
    }
    if store.height >= height.value {
      return Skipped(height.value);
    }
    var read := ReadEntries(payload, height.end);
    if read.Bad? {
      return Failed(read.error);
    }
    var digestWant := sha(payload[..read.end]);
    var trailer := ReadTrailer(payload, read.end, |read.value|, digestWant);
    if trailer.Bad? {
      return Failed(trailer.error);
    }
    var ok := store.ApplyDiff(height.value, read.value, fault);
    if !ok {
      return Failed(ApplyFailed);
    }
    return Loaded(height.value, |read.value|);
  }

  /** What is left to read, given the entries already collected. */
  ghost function Continue(done: seq<Entry>, rest: Read<seq<Entry>>): Read<seq<Entry>> {
    match rest case Bad(e) => Bad(e) case Got(es, end) => Got(done + es, end)
  }

  method ReadEntries(b: Bytes, at: nat) returns (r: Read<seq<Entry>>)
    requires at <= |b|
    ensures r == TakeEntries(b, at)
  {
    hide TakeEntry;
    var pos := at;
    var diffs: seq<Entry> := [];
    if TakeEntries(b, at).Got? {
      assert [] + TakeEntries(b, at).value == TakeEntries(b, at).value;
    }
    while true
      invariant at <= pos <= |b|
      invariant TakeEntries(b, at) == Continue(diffs, TakeEntries(b, pos))
      decreases |b| - pos
    {
      if pos >= |b| {
        return Bad(Truncated);
      }
      var marker := b[pos];
      if marker == END_MARKER {
        assert diffs + [] == diffs;
        return Got(diffs, pos + 1);
      }
      if marker != ENTRY_MARKER {
        return Bad(BadMarker);
      }
      var entry := TakeEntry(b, pos + 1);
      if entry.Bad? {
        return Bad(entry.error);
      }
      ghost var rest := TakeEntries(b, entry.end);
      if rest.Got? {
        assert diffs + ([entry.value] + rest.value) == (diffs + [entry.value]) + rest.value;
      }
      diffs := diffs + [entry.value];
      pos := entry.end;
    }
  }

  method ReadTrailer(b: Bytes, at: nat, count: nat, digestWant: Bytes) returns (r: Read<()>)
    ensures r == TakeTrailer(b, at, count, digestWant)
  {
    hide Take, TakeUint;
    BigEndian.Capacities();
    var n := TakeUint(b, at, 8);
    if n.Bad? {
      return Bad(n.error);
    }
    if ToInt64(n.value) != count {
      return Bad(CountMismatch);
    }
    var digestGot := Take(b, n.end, 32);
    if digestGot.Bad? {
      return Bad(digestGot.error);
    }
    var endMagic := Take(b, digestGot.end, 8);
    if endMagic.Bad? {
      return Bad(endMagic.error);
    }
    if endMagic.value != END_MAGIC {
      return Bad(BadEndMagic);
    }
    if digestWant != digestGot.value {
      return Bad(DigestMismatch);
    }
    return Got((), endMagic.end);
  }

  // ---- Written bytes read back ----

  lemma TakeHas(b: Bytes, at: nat, s: Bytes)
    requires Has(b, at, s)
    ensures Take(b, at, |s|) == Got(s, at + |s|)
  {
    HasSlice(b, at, s);
  }

  lemma UintHas(b: Bytes, at: nat, v: nat, width: nat)
    requires Has(b, at, BigEndian.Encode(v, width)) && v < BigEndian.Capacity(width)
    ensures TakeUint(b, at, width) == Got(v, at + width)
  {
    TakeHas(b, at, BigEndian.Encode(v, width));
    BigEndian.RoundTrip(v, width);
  }

  lemma BlobHas(b: Bytes, at: nat, v: Bytes, width: nat)
    requires Has(b, at, WriteBlob(v, width)) && |v| < BigEndian.Capacity(width)
    ensures TakeBlob(b, at, width) == Got(v, at + |WriteBlob(v, width)|)
  {
    hide Take, BigEndian.Encode;
    HasParts(b, at, BigEndian.Encode(|v|, width), v);
    UintHas(b, at, |v|, width);
    TakeHas(b, at + width, v);
  }

  lemma EntryHas(b: Bytes, at: nat, e: Entry)
    requires Has(b, at, WriteEntry(e)) && Writable(e)
    ensures b[at] == ENTRY_MARKER && TakeEntry(b, at + 1) == Got(e, at + |WriteEntry(e)|)
  {
    hide TakeBlob, WriteBlob;
    BigEndian.Capacities();
    var ns, key, val := WriteBlob(e.namespace, 1), WriteBlob(e.key, 4), WriteBlob(e.value, 4);
    HasParts(b, at, [ENTRY_MARKER], ns + (key + val));
    assert b[at] == [ENTRY_MARKER][0];
    HasParts(b, at + 1, ns, key + val);
    HasParts(b, at + 1 + |ns|, key, val);
    BlobHas(b, at + 1, e.namespace, 1);
    BlobHas(b, at + 1 + |ns|, e.key, 4);
    BlobHas(b, at + 1 + |ns| + |key|, e.value, 4);
  }

  lemma {:induction false} EntriesHas(b: Bytes, at: nat, es: seq<Entry>)
    requires Has(b, at, WriteEntries(es)) && forall e :: e in es ==> Writable(e)
    ensures TakeEntries(b, at) == Got(es, at + |WriteEntries(es)|)
    decreases |es|
  {
    hide TakeEntry, WriteEntry, Writable;
    if es == [] {
      assert b[at] == WriteEntries(es)[0];
    } else {
      var first := WriteEntry(es[0]);
      HasParts(b, at, first, WriteEntries(es[1..]));
      EntryHas(b, at, es[0]);
      EntriesHas(b, at + |first|, es[1..]);
      assert [es[0]] + es[1..] == es;
    }
  }

  lemma HeaderHas(b: Bytes, h: uint64)
    requires Has(b, 0, WriteHeader(h))
    ensures TakeHeader(b) == Got(h, 20)
  {
    hide Take, TakeUint, BigEndian.Encode;
    BigEndian.Capacities();
    var version, height := BigEndian.Encode(VERSION, 4), BigEndian.Encode(h, 8);
    HasParts(b, 0, MAGIC, version + height);
    HasParts(b, 8, version, height);
    TakeHas(b, 0, MAGIC);
    UintHas(b, 8, VERSION, 4);
    UintHas(b, 12, h, 8);
  }

  lemma TrailerHas(b: Bytes, at: nat, count: nat, digest: Bytes)
    requires Has(b, at, WriteTrailer(count, digest)) && |digest| == 32 && count < 0x8000_0000_0000_0000
    ensures TakeTrailer(b, at, count, digest) == Got((), at + 48)
  {
    hide Take, TakeUint, BigEndian.Encode;
    BigEndian.Capacities();
    HasParts(b, at, BigEndian.Encode(count, 8), digest + END_MAGIC);
    HasParts(b, at + 8, digest, END_MAGIC);
    UintHas(b, at, count, 8);
    TakeHas(b, at + 8, digest);
    TakeHas(b, at + 40, END_MAGIC);
  }

  /** Parsing a written snapshot gives back exactly its height and entries, whatever follows it. */
  lemma ImageRoundTrip(i: Image, sha: Bytes -> Bytes, junk: Bytes)
    requires WritableImage(i) && |sha(WriteBody(i))| == 32
    ensures Parse(Write(i, sha) + junk, sha) == Got(i, |Write(i, sha)|)
  {
    hide TakeHeader, TakeEntries, TakeTrailer, WriteHeader, WriteEntries, WriteTrailer, Writable;
    var body, trailer := WriteBody(i), WriteTrailer(|i.entries|, sha(WriteBody(i)));
    var b := Write(i, sha) + junk;
    assert Has(b, 0, Write(i, sha));
    HasParts(b, 0, body, trailer);
    HasParts(b, 0, WriteHeader(i.height), WriteEntries(i.entries));
    HasSlice(b, 0, body);
    HeaderHas(b, i.height);
    HeaderLength(i.height);
    EntriesHas(b, 20, i.entries);
    TrailerHas(b, |body|, |i.entries|, sha(body));
    TrailerLength(|i.entries|, sha(body));
  }

  lemma HeaderLength(h: uint64)
    ensures |WriteHeader(h)| == 20
  {}

  lemma TrailerLength(count: nat, digest: Bytes)
    ensures |WriteTrailer(count, digest)| == 16 + |digest|
  {}

  /** Different snapshots are written differently. */
  lemma WriteIsInjective(i: Image, j: Image, sha: Bytes -> Bytes)
    requires WritableImage(i) && WritableImage(j) && |sha(WriteBody(i))| == 32 && |sha(WriteBody(j))| == 32
    requires Write(i, sha) == Write(j, sha)
    ensures i == j
  {
    hide Parse, Write, WritableImage;
    ImageRoundTrip(i, sha, []);
    ImageRoundTrip(j, sha, []);
  }

  // ---- What parses keeps parsing when bytes are added ----

  lemma TakeExtends(b: Bytes, x: Bytes, at: nat, n: nat)
    requires Take(b, at, n).Got?
    ensures Take(b + x, at, n) == Take(b, at, n)
  {
    assert (b + x)[at..at + n] == b[at..at + n];
  }

  lemma UintExtends(b: Bytes, x: Bytes, at: nat, width: nat)
    requires TakeUint(b, at, width).Got?
    ensures TakeUint(b + x, at, width) == TakeUint(b, at, width)
  {
    hide BigEndian.Decode;
    TakeExtends(b, x, at, width);
  }

  lemma BlobExtends(b: Bytes, x: Bytes, at: nat, width: nat)
    requires TakeBlob(b, at, width).Got?
    ensures TakeBlob(b + x, at, width) == TakeBlob(b, at, width)
  {
    hide Take, TakeUint;
    UintExtends(b, x, at, width);
    var n := TakeUint(b, at, width);
    TakeExtends(b, x, n.end, n.value);
  }

  lemma EntryExtends(b: Bytes, x: Bytes, at: nat)
    requires TakeEntry(b, at).Got?
    ensures TakeEntry(b + x, at) == TakeEntry(b, at)
  {
    hide TakeBlob;
    BlobExtends(b, x, at, 1);
    var e1 := TakeBlob(b, at, 1).end;
    BlobExtends(b, x, e1, 4);
    BlobExtends(b, x, TakeBlob(b, e1, 4).end, 4);
  }

  lemma {:induction false} EntriesExtend(b: Bytes, x: Bytes, at: nat)
    requires TakeEntries(b, at).Got?
    ensures TakeEntries(b + x, at) == TakeEntries(b, at)
    decreases |b| - at
  {
    hide TakeEntry;
    if b[at] == ENTRY_MARKER {
      EntryExtends(b, x, at + 1);
      EntriesExtend(b, x, TakeEntry(b, at + 1).end);
    }
  }

  lemma HeaderExtends(b: Bytes, x: Bytes)
    requires TakeHeader(b).Got?
    ensures TakeHeader(b + x) == TakeHeader(b)
  {
    hide Take, TakeUint;
    TakeExtends(b, x, 0, 8);
    UintExtends(b, x, 8, 4);
    UintExtends(b, x, 12, 8);
  }

  lemma TrailerExtends(b: Bytes, x: Bytes, at: nat, count: nat, digest: Bytes)
    requires TakeTrailer(b, at, count, digest).Got?
    ensures TakeTrailer(b + x, at, count, digest) == TakeTrailer(b, at, count, digest)
  {
    hide Take, TakeUint;
    UintExtends(b, x, at, 8);
    TakeExtends(b, x, at + 8, 32);
    TakeExtends(b, x, at + 40, 8);
  }

  lemma ParseExtends(b: Bytes, x: Bytes, sha: Bytes -> Bytes)
    requires Parse(b, sha).Got?
    ensures Parse(b + x, sha) == Parse(b, sha) && Parse(b, sha).end <= |b|
  {
    hide TakeHeader, TakeEntries, TakeTrailer;
    HeaderExtends(b, x);
    EntriesExtend(b, x, 20);
    var es := TakeEntries(b, 20);
    assert (b + x)[..es.end] == b[..es.end];
    TrailerExtends(b, x, es.end, |es.value|, sha(b[..es.end]));
    TrailerEnds(b, es.end, |es.value|, sha(b[..es.end]));
  }

  lemma TrailerEnds(b: Bytes, at: nat, count: nat, digest: Bytes)
    requires TakeTrailer(b, at, count, digest).Got?
    ensures TakeTrailer(b, at, count, digest).end <= |b|
  {}

  /** A strict prefix of a snapshot is refused, exactly when the store is behind the snapshot's height
    * or the prefix does not even reach the end of the header. */
  lemma PrefixIsRefusedIff(i: Image, sha: Bytes -> Bytes, n: nat, at: uint64)
    requires WritableImage(i) && |sha(WriteBody(i))| == 32 && n < |Write(i, sha)|
    ensures Verdict(Write(i, sha)[..n], sha, at).Bad? <==> at < i.height || n < 20
  {
    hide Parse, Write, WritableImage, TakeHeader;
    var b := Write(i, sha);
    var p := b[..n];
    assert p + b[n..] == b;
    ImageRoundTrip(i, sha, []);
    assert b + [] == b;
    WrittenHeader(i, sha);
    if TakeHeader(p).Got? {
      HeaderExtends(p, b[n..]);
    } else if n >= 20 {
      HeaderNeedsTwenty(p, b[n..]);
    }
    if Parse(p, sha).Got? {
      ParseExtends(p, b[n..], sha);
    }
  }

  lemma WrittenHeader(i: Image, sha: Bytes -> Bytes)
    ensures TakeHeader(Write(i, sha)) == Got(i.height, 20)
  {
    hide TakeHeader, WriteHeader, WriteEntries, WriteTrailer;
    var b := Write(i, sha);
    HasParts(b, 0, WriteBody(i), WriteTrailer(|i.entries|, sha(WriteBody(i))));
    HasParts(b, 0, WriteHeader(i.height), WriteEntries(i.entries));
    HeaderHas(b, i.height);
  }

  lemma HeaderNeedsTwenty(p: Bytes, x: Bytes)
    requires |p| >= 20 && TakeHeader(p + x).Got?
    ensures TakeHeader(p).Got?
  {
    assert (p + x)[0..8] == p[0..8] && (p + x)[8..12] == p[8..12];
  }

  // ---- What parses was written ----

  lemma HasJoin(b: Bytes, at: nat, s: Bytes, t: Bytes)
    requires Has(b, at, s) && Has(b, at + |s|, t)
    ensures Has(b, at, s + t)
  {
    forall k | 0 <= k < |s + t| ensures b[at + k] == (s + t)[k] {
      if k >= |s| {
        assert b[at + |s| + (k - |s|)] == t[k - |s|];
      }
    }
  }

  lemma UintIsWritten(b: Bytes, at: nat, width: nat)
    requires TakeUint(b, at, width).Got?
    ensures Has(b, at, BigEndian.Encode(TakeUint(b, at, width).value, width))
  {
    hide BigEndian.Encode, BigEndian.Decode;
    BigEndian.EncodesBack(b[at..at + width]);
  }

  lemma BlobIsWritten(b: Bytes, at: nat, width: nat)
    requires TakeBlob(b, at, width).Got?
    ensures
      var v := TakeBlob(b, at, width);
      Has(b, at, WriteBlob(v.value, width)) && v.end == at + |WriteBlob(v.value, width)|
      && |v.value| < BigEndian.Capacity(width)
  {
    hide BigEndian.Encode, BigEndian.Decode, BigEndian.Capacity;
    UintIsWritten(b, at, width);
    HasJoin(b, at, BigEndian.Encode(TakeUint(b, at, width).value, width), TakeBlob(b, at, width).value);
  }

  lemma EntryIsWritten(b: Bytes, at: nat)
    requires at < |b| && b[at] == ENTRY_MARKER && TakeEntry(b, at + 1).Got?
    ensures
      var e := TakeEntry(b, at + 1);
      Has(b, at, WriteEntry(e.value)) && e.end == at + |WriteEntry(e.value)| && Writable(e.value)
  {
    hide TakeBlob, WriteBlob, BigEndian.Capacity;
    BigEndian.Capacities();
    var ns := TakeBlob(b, at + 1, 1);
    var key := TakeBlob(b, ns.end, 4);
    BlobIsWritten(b, at + 1, 1);
    BlobIsWritten(b, ns.end, 4);
    BlobIsWritten(b, key.end, 4);
    var e := TakeEntry(b, at + 1).value;
    HasJoin(b, ns.end, WriteBlob(e.key, 4), WriteBlob(e.value, 4));
    HasJoin(b, at + 1, WriteBlob(e.namespace, 1), WriteBlob(e.key, 4) + WriteBlob(e.value, 4));
    assert Has(b, at, [ENTRY_MARKER]);
    HasJoin(b, at, [ENTRY_MARKER], WriteBlob(e.namespace, 1) + (WriteBlob(e.key, 4) + WriteBlob(e.value, 4)));
  }

  lemma {:induction false} EntriesAreWritten(b: Bytes, at: nat)
    requires TakeEntries(b, at).Got?
    ensures
      var r := TakeEntries(b, at);
      && Has(b, at, WriteEntries(r.value)) && r.end == at + |WriteEntries(r.value)|
      && forall e :: e in r.value ==> Writable(e)
    decreases |b| - at
  {
    hide TakeEntry, WriteEntry, Writable;
    if b[at] == ENTRY_MARKER {
      var first := TakeEntry(b, at + 1);
      EntryIsWritten(b, at);
      EntriesAreWritten(b, first.end);
      var rest := TakeEntries(b, first.end).value;
      assert ([first.value] + rest)[1..] == rest;
      HasJoin(b, at, WriteEntry(first.value), WriteEntries(rest));
    }
  }

  lemma HeaderIsWritten(b: Bytes)
    requires TakeHeader(b).Got?
    ensures Has(b, 0, WriteHeader(TakeHeader(b).value))
  {
    hide BigEndian.Encode, BigEndian.Decode, BigEndian.Capacity;
    var h := TakeHeader(b).value;
    UintIsWritten(b, 8, 4);
    UintIsWritten(b, 12, 8);
    assert Has(b, 0, MAGIC);
    HasJoin(b, 8, BigEndian.Encode(VERSION, 4), BigEndian.Encode(h, 8));
    HasJoin(b, 0, MAGIC, BigEndian.Encode(VERSION, 4) + BigEndian.Encode(h, 8));
  }

  lemma TrailerIsWritten(b: Bytes, at: nat, count: nat, digest: Bytes)
    requires TakeTrailer(b, at, count, digest).Got?
    ensures Has(b, at, WriteTrailer(count, digest)) && |digest| == 32 && count < 0x8000_0000_0000_0000
    ensures TakeTrailer(b, at, count, digest).end == at + |WriteTrailer(count, digest)|
  {
    hide BigEndian.Encode, BigEndian.Decode, BigEndian.Capacity;
    BigEndian.Capacities();
    UintIsWritten(b, at, 8);
    assert Has(b, at + 8, digest) && Has(b, at + 40, END_MAGIC);
    HasJoin(b, at + 8, digest, END_MAGIC);
    HasJoin(b, at, BigEndian.Encode(count, 8), digest + END_MAGIC);
  }

  /** A payload is accepted only if it begins with a written snapshot, and then it is taken for that one. */
  lemma ParsedIsWritten(b: Bytes, sha: Bytes -> Bytes)
    requires Parse(b, sha).Got?
    ensures
      var p := Parse(b, sha);
      WritableImage(p.value) && p.end == |Write(p.value, sha)| && p.end <= |b| && b[..p.end] == Write(p.value, sha)
  {
    hide TakeHeader, TakeEntries, TakeTrailer, WriteHeader, WriteEntries, WriteTrailer, Writable;
    HeaderIsWritten(b);
    HeaderLength(TakeHeader(b).value);
    EntriesAreWritten(b, 20);
    var i := Parse(b, sha).value;
    var es := TakeEntries(b, 20);
    HasJoin(b, 0, WriteHeader(i.height), WriteEntries(i.entries));
    assert b[..es.end] == WriteBody(i);
    TrailerIsWritten(b, es.end, |i.entries|, sha(WriteBody(i)));
    HasJoin(b, 0, WriteBody(i), WriteTrailer(|i.entries|, sha(WriteBody(i))));
  }
}
