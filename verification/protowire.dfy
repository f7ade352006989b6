/** The protobuf wire format, as in the Protocol Buffers Encoding guide, sections
  * "Base 128 Varints" and "Message Structure". */
module Protowire {
  import opened Primitives

  datatype WireType = VarintType | Fixed64Type | BytesType | OtherType | Fixed32Type

  datatype Payload = Varint(v: uint64) | Len(bytes: Bytes) | Fixed64(eight: Bytes) | Fixed32(four: Bytes)

  datatype Field = Field(num: nat, payload: Payload)

  /** A decoded item and the position after it. */
  datatype Consumed<+T> = Consumed(value: T, end: nat)

  const MAX_FIELD_NUMBER: nat := 0x7fff_ffff

  // ---- Varints ----

  /** What the groups from the i-th byte on can hold, 2^(64 - 7i); the tenth byte carries a single bit. */
  function Room(i: nat): nat
    requires i <= 9
  {
    if i == 0 then 0x10000000000000000
    else if i == 1 then 0x200000000000000
    else if i == 2 then 0x4000000000000
    else if i == 3 then 0x80000000000
    else if i == 4 then 0x1000000000
    else if i == 5 then 0x20000000
    else if i == 6 then 0x400000
    else if i == 7 then 0x8000
    else if i == 8 then 0x100
    else 2
  }

  /** The value of the groups from the i-th byte on of the varint at a position, and where it ends. */
  function VarintFrom(b: Bytes, at: nat, i: nat): (r: Option<Consumed<nat>>)
    requires i <= 9
    ensures r.Some? ==> at + i < r.value.end <= |b|
    decreases 9 - i
  {
    if at + i >= |b| then None
    else if i == 9 then if b[at + i] < 2 then Some(Consumed(b[at + i] as nat, at + i + 1)) else None
    else if b[at + i] < 128 then Some(Consumed(b[at + i] as nat, at + i + 1))
    else
      match VarintFrom(b, at, i + 1)
      case None => None
      case Some(c) => Some(Consumed(b[at + i] as nat - 128 + 128 * c.value, c.end))
  }

  lemma {:induction false} VarintFits(b: Bytes, at: nat, i: nat)
    requires i <= 9
    ensures VarintFrom(b, at, i).Some? ==> VarintFrom(b, at, i).value.value < Room(i)
    decreases 9 - i
  {
    if i < 9 {
      VarintFits(b, at, i + 1);
    }
  }

  function ConsumeVarint(b: Bytes, at: nat): (r: Option<Consumed<uint64>>)
    ensures r.Some? ==> at < r.value.end <= |b|
  {
    VarintFits(b, at, 0);
    match VarintFrom(b, at, 0)
    case None => None
    case Some(c) => Some(Consumed(c.value, c.end))
  }

  function EncodeVarint(v: nat): Bytes
    decreases v
  {
    if v < 128 then [v as byte] else [(v % 128 + 128) as byte] + EncodeVarint(v / 128)
  }

  // ---- Bytes at a position ----

  /** s stands in b at a position. */
  ghost predicate Has(b: Bytes, at: nat, s: Bytes) {
    at + |s| <= |b| && forall k :: 0 <= k < |s| ==> b[at + k] == s[k]
  }

  lemma HasParts(b: Bytes, at: nat, s: Bytes, t: Bytes)
    requires Has(b, at, s + t)
    ensures Has(b, at, s) && Has(b, at + |s|, t)
  {
    forall k | 0 <= k < |s| ensures b[at + k] == s[k] {
      assert (s + t)[k] == s[k];
    }
    forall k | 0 <= k < |t| ensures b[at + |s| + k] == t[k] {
      assert (s + t)[|s| + k] == t[k];
    }
  }

  /** What stands from a position of b to its end stands at a position of c. */
  ghost predicate Carries(b: Bytes, at: nat, c: Bytes, to: nat) {
    && at <= |b| && to + (|b| - at) <= |c|
    && forall k {:trigger b[k]} :: at <= k < |b| ==> c[to + (k - at)] == b[k]
  }

  // ---- Varints there and back ----

  lemma {:induction false} VarintFromEncoded(b: Bytes, at: nat, i: nat, v: nat)
    requires i <= 9 && v < Room(i) && Has(b, at + i, EncodeVarint(v))
    ensures VarintFrom(b, at, i) == Some(Consumed(v, at + i + |EncodeVarint(v)|))
    decreases v
  {
    assert b[at + i + 0] == EncodeVarint(v)[0];
    if v >= 128 {
      HasParts(b, at + i, [EncodeVarint(v)[0]], EncodeVarint(v / 128));
      VarintFromEncoded(b, at, i + 1, v / 128);
    }
  }

  lemma VarintRoundTrip(b: Bytes, at: nat, v: uint64)
    requires Has(b, at, EncodeVarint(v))
    ensures ConsumeVarint(b, at) == Some(Consumed(v, at + |EncodeVarint(v)|))
  {
    VarintFromEncoded(b, at, 0, v);
  }

  lemma {:induction false} VarintFromCarries(b: Bytes, at: nat, c: Bytes, to: nat, i: nat)
    requires i <= 9 && Carries(b, at, c, to)
    ensures VarintFrom(b, at, i).Some? ==>
      VarintFrom(c, to, i) == Some(Consumed(VarintFrom(b, at, i).value.value, VarintFrom(b, at, i).value.end - at + to))
    ensures VarintFrom(b, at, i).None? && |c| - to == |b| - at ==> VarintFrom(c, to, i).None?
    decreases 9 - i
  {
    if at + i < |b| {
      assert c[to + (at + i - at)] == b[at + i];
      if i < 9 {
        VarintFromCarries(b, at, c, to, i + 1);
      }
    }
  }

  // ---- Fields ----

  datatype Tag = Tag(num: nat, wtype: WireType)

  function TypeOf(code: nat): WireType {
    if code == 0 then VarintType
    else if code == 1 then Fixed64Type
    else if code == 2 then BytesType
    else if code == 5 then Fixed32Type
    else OtherType
  }

  function TagOf(v: nat): Tag {
    Tag(v / 8, TypeOf(v % 8))
  }

  function ConsumeTag(b: Bytes, at: nat): (r: Option<Consumed<Tag>>)
    ensures r.Some? ==> at < r.value.end <= |b|
  {
    match ConsumeVarint(b, at)
    case None => None
    case Some(c) =>
      var tag := TagOf(c.value);
      if tag.num < 1 || tag.num > MAX_FIELD_NUMBER then None else Some(Consumed(tag, c.end))
  }

  function ConsumeBytes(b: Bytes, at: nat): (r: Option<Consumed<Bytes>>)
    ensures r.Some? ==> at < r.value.end <= |b|
  {
    match ConsumeVarint(b, at)
    case None => None
    case Some(c) =>
      if c.value > |b| - c.end then None else Some(Consumed(b[c.end..c.end + c.value], c.end + c.value))
  }

  function ConsumeFixed(b: Bytes, at: nat, size: nat): Option<Consumed<Bytes>> {
    if at + size > |b| then None else Some(Consumed(b[at..at + size], at + size))
  }

  function ConsumePayload(b: Bytes, at: nat, wtype: WireType): (r: Result<Consumed<Payload>>)
    ensures r.Ok? ==> at <= r.value.end && (at <= |b| ==> r.value.end <= |b|)
  {
    match wtype
    case VarintType =>
      (match ConsumeVarint(b, at) case None => Err(Malformed) case Some(c) => Ok(Consumed(Varint(c.value), c.end)))
    case BytesType =>
      (match ConsumeBytes(b, at) case None => Err(Malformed) case Some(c) => Ok(Consumed(Len(c.value), c.end)))
    case Fixed32Type =>
      (match ConsumeFixed(b, at, 4) case None => Err(Malformed) case Some(c) => Ok(Consumed(Fixed32(c.value), c.end)))
    case Fixed64Type =>
      (match ConsumeFixed(b, at, 8) case None => Err(Malformed) case Some(c) => Ok(Consumed(Fixed64(c.value), c.end)))
    case OtherType => Err(UnsupportedWireType)
  }

  /** The field at a position of a message. */
  function NextField(b: Bytes, at: nat): (r: Result<Consumed<Field>>)
    ensures r.Ok? ==> at < r.value.end <= |b|
  {
    match ConsumeTag(b, at)
    case None => Err(Malformed)
    case Some(t) =>
      match ConsumePayload(b, t.end, t.value.wtype)
      case Err(e) => Err(e)
      case Ok(p) => Ok(Consumed(Field(t.value.num, p.value), p.end))
  }

  // ---- Encoding ----

  predicate Encodable(f: Field) {
    && 1 <= f.num <= MAX_FIELD_NUMBER
    && (f.payload.Len? ==> |f.payload.bytes| < UINT64_LIMIT)
    && (f.payload.Fixed32? ==> |f.payload.four| == 4)
    && (f.payload.Fixed64? ==> |f.payload.eight| == 8)
  }

  function EncodeBytes(v: Bytes): Bytes {
    EncodeVarint(|v|) + v
  }

  function WireCode(p: Payload): nat {
    match p case Varint(_) => 0 case Fixed64(_) => 1 case Len(_) => 2 case Fixed32(_) => 5
  }

  function EncodeTag(num: nat, code: nat): Bytes {
    EncodeVarint(num * 8 + code)
  }

  function EncodePayload(p: Payload): Bytes {
    match p case Varint(v) => EncodeVarint(v) case Fixed64(v) => v case Len(v) => EncodeBytes(v) case Fixed32(v) => v
  }

  function EncodeField(f: Field): Bytes {
    EncodeTag(f.num, WireCode(f.payload)) + EncodePayload(f.payload)
  }

  function EncodeFields(fs: seq<Field>): Bytes {
    if fs == [] then [] else EncodeField(fs[0]) + EncodeFields(fs[1..])
  }

  lemma TagRoundTrip(b: Bytes, at: nat, num: nat, code: nat)
    requires 1 <= num <= MAX_FIELD_NUMBER && code < 8 && Has(b, at, EncodeTag(num, code))
    ensures ConsumeTag(b, at) == Some(Consumed(Tag(num, TypeOf(code)), at + |EncodeTag(num, code)|))
  {
    hide EncodeVarint;
    VarintRoundTrip(b, at, num * 8 + code);
  }

  lemma HasSlice(b: Bytes, at: nat, s: Bytes)
    requires Has(b, at, s)
    ensures b[at..at + |s|] == s
  {}

  lemma BytesRoundTrip(b: Bytes, at: nat, v: Bytes)
    requires |v| < UINT64_LIMIT && Has(b, at, EncodeBytes(v))
    ensures ConsumeBytes(b, at) == Some(Consumed(v, at + |EncodeBytes(v)|))
  {
    hide ConsumeVarint, EncodeVarint;
    HasParts(b, at, EncodeVarint(|v|), v);
    VarintRoundTrip(b, at, |v|);
    HasSlice(b, at + |EncodeVarint(|v|)|, v);
  }

  lemma PayloadRoundTrip(b: Bytes, at: nat, f: Field)
    requires Encodable(f) && Has(b, at, EncodePayload(f.payload))
    ensures ConsumePayload(b, at, TypeOf(WireCode(f.payload)))
         == Ok(Consumed(f.payload, at + |EncodePayload(f.payload)|))
  {
    hide ConsumeVarint, ConsumeBytes, EncodeVarint, EncodeBytes;
    match f.payload
    case Varint(v) => VarintRoundTrip(b, at, v);
    case Len(v) => BytesRoundTrip(b, at, v);
    case Fixed64(v) => HasSlice(b, at, v);
    case Fixed32(v) => HasSlice(b, at, v);
  }

  lemma NextFieldIs(b: Bytes, at: nat, t: Consumed<Tag>, p: Consumed<Payload>)
    requires ConsumeTag(b, at) == Some(t) && ConsumePayload(b, t.end, t.value.wtype) == Ok(p)
    ensures NextField(b, at) == Ok(Consumed(Field(t.value.num, p.value), p.end))
  {}

  lemma FieldRoundTrip(b: Bytes, at: nat, f: Field)
    requires Encodable(f) && Has(b, at, EncodeField(f))
    ensures NextField(b, at) == Ok(Consumed(f, at + |EncodeField(f)|))
  {
    hide ConsumeTag, ConsumePayload, EncodeTag, EncodePayload;
    var tag := EncodeTag(f.num, WireCode(f.payload));
    HasParts(b, at, tag, EncodePayload(f.payload));
    TagRoundTrip(b, at, f.num, WireCode(f.payload));
    PayloadRoundTrip(b, at + |tag|, f);
    NextFieldIs(b, at, ConsumeTag(b, at).value, Consumed(f.payload, at + |EncodeField(f)|));
  }

  // ---- Reading does not depend on where the bytes stand ----

  lemma VarintCarries(b: Bytes, at: nat, c: Bytes, to: nat)
    requires Carries(b, at, c, to)
    ensures ConsumeVarint(b, at).Some? ==>
      ConsumeVarint(c, to) == Some(Consumed(ConsumeVarint(b, at).value.value, ConsumeVarint(b, at).value.end - at + to))
    ensures ConsumeVarint(b, at).None? && |c| - to == |b| - at ==> ConsumeVarint(c, to).None?
  {
    VarintFromCarries(b, at, c, to, 0);
  }

  lemma SliceCarries(b: Bytes, at: nat, c: Bytes, to: nat, from: nat, end: nat)
    requires Carries(b, at, c, to) && at <= from <= end <= |b|
    ensures c[from - at + to..end - at + to] == b[from..end]
  {
    forall k | from <= k < end ensures c[k - at + to] == b[k] {}
  }

  lemma BytesCarries(b: Bytes, at: nat, c: Bytes, to: nat)
    requires Carries(b, at, c, to)
    ensures ConsumeBytes(b, at).Some? ==>
      ConsumeBytes(c, to) == Some(Consumed(ConsumeBytes(b, at).value.value, ConsumeBytes(b, at).value.end - at + to))
    ensures ConsumeBytes(b, at).None? && |c| - to == |b| - at ==> ConsumeBytes(c, to).None?
  {
    hide ConsumeVarint;
    VarintCarries(b, at, c, to);
    if ConsumeBytes(b, at).Some? {
      var v := ConsumeVarint(b, at).value;
      SliceCarries(b, at, c, to, v.end, v.end + v.value);
    }
  }

  lemma FixedCarries(b: Bytes, at: nat, c: Bytes, to: nat, size: nat)
    requires Carries(b, at, c, to)
    ensures ConsumeFixed(b, at, size).Some? ==>
      var r := ConsumeFixed(b, at, size).value;
      ConsumeFixed(c, to, size) == Some(Consumed(r.value, r.end - at + to))
    ensures ConsumeFixed(b, at, size).None? && |c| - to == |b| - at ==> ConsumeFixed(c, to, size).None?
  {
    if at + size <= |b| {
      SliceCarries(b, at, c, to, at, at + size);
    }
  }

  lemma PayloadCarries(b: Bytes, at: nat, c: Bytes, to: nat, wtype: WireType)
    requires Carries(b, at, c, to)
    ensures
      match ConsumePayload(b, at, wtype)
      case Ok(p) => ConsumePayload(c, to, wtype) == Ok(Consumed(p.value, p.end - at + to))
      case Err(e) => |c| - to == |b| - at ==> ConsumePayload(c, to, wtype) == Err(e)
  {
    hide ConsumeVarint, ConsumeBytes, ConsumeFixed;
    match wtype
    case VarintType => VarintCarries(b, at, c, to);
    case BytesType => BytesCarries(b, at, c, to);
    case Fixed32Type => FixedCarries(b, at, c, to, 4);
    case Fixed64Type => FixedCarries(b, at, c, to, 8);
    case OtherType =>
  }

  lemma TagCarries(b: Bytes, at: nat, c: Bytes, to: nat)
    requires Carries(b, at, c, to)
    ensures ConsumeTag(b, at).Some? ==>
      ConsumeTag(c, to) == Some(Consumed(ConsumeTag(b, at).value.value, ConsumeTag(b, at).value.end - at + to))
    ensures ConsumeTag(b, at).None? && |c| - to == |b| - at ==> ConsumeTag(c, to).None?
  {
    hide ConsumeVarint, TagOf;
    VarintCarries(b, at, c, to);
  }

  lemma CarriesFrom(b: Bytes, at: nat, c: Bytes, to: nat, next: nat)
    requires Carries(b, at, c, to) && at <= next <= |b|
    ensures Carries(b, next, c, next - at + to)
  {}

  lemma FieldCarries(b: Bytes, at: nat, c: Bytes, to: nat)
    requires Carries(b, at, c, to)
    ensures
      match NextField(b, at)
      case Ok(f) => NextField(c, to) == Ok(Consumed(f.value, f.end - at + to))
      case Err(e) => |c| - to == |b| - at ==> NextField(c, to) == Err(e)
  {
    hide ConsumeTag, ConsumePayload;
    TagCarries(b, at, c, to);
    if ConsumeTag(b, at).Some? {
      var t := ConsumeTag(b, at).value;
      CarriesFrom(b, at, c, to, t.end);
      PayloadCarries(b, t.end, c, t.end - at + to, t.value.wtype);
      var p := ConsumePayload(b, t.end, t.value.wtype);
      if p.Ok? {
        NextFieldIs(b, at, t, p.value);
        NextFieldIs(c, to, Consumed(t.value, t.end - at + to), Consumed(p.value.value, p.value.end - at + to));
      }
    }
  }

  // ---- Messages as folds over their fields ----

  /** Decode the rest of a message by handling its fields in order, stopping at the first error. */
  function DecodeFrom<A>(b: Bytes, at: nat, acc: A, step: (A, Field) -> Result<A>): Result<A>
    decreases |b| - at
  {
    if at >= |b| then Ok(acc)
    else
      match NextField(b, at)
      case Err(e) => Err(e)
      case Ok(c) =>
        match step(acc, c.value)
        case Err(e) => Err(e)
        case Ok(next) => DecodeFrom(b, c.end, next, step)
  }

  function Decode<A>(b: Bytes, acc: A, step: (A, Field) -> Result<A>): Result<A> {
    DecodeFrom(b, 0, acc, step)
  }

  function DecodeFields<A>(fs: seq<Field>, acc: A, step: (A, Field) -> Result<A>): Result<A>
    decreases |fs|
  {
    if fs == [] then Ok(acc)
    else
      match step(acc, fs[0])
      case Err(e) => Err(e)
      case Ok(next) => DecodeFields(fs[1..], next, step)
  }

  lemma {:induction false} DecodeFromCarries<A>(b: Bytes, at: nat, c: Bytes, to: nat, acc: A,
                                                step: (A, Field) -> Result<A>)
    requires Carries(b, at, c, to) && |c| - to == |b| - at
    ensures DecodeFrom(c, to, acc, step) == DecodeFrom(b, at, acc, step)
    decreases |b| - at
  {
    hide NextField;
    FieldCarries(b, at, c, to);
    if at < |b| && NextField(b, at).Ok? {
      var f := NextField(b, at).value;
      CarriesFrom(b, at, c, to, f.end);
      match step(acc, f.value)
      case Err(_) =>
      case Ok(next) => DecodeFromCarries(b, f.end, c, f.end - at + to, next, step);
    }
  }

  /** Cutting off what has been read leaves the decoding of the rest as it was. */
  lemma DecodeRest<A>(b: Bytes, at: nat, acc: A, step: (A, Field) -> Result<A>)
    requires at <= |b|
    ensures Decode(b[at..], acc, step) == DecodeFrom(b, at, acc, step)
  {
    DecodeFromCarries(b, at, b[at..], 0, acc, step);
  }

  /** Decoding seen as the loops do it: tag, value, rest. */
  lemma DecodeByParts<A>(b: Bytes, acc: A, step: (A, Field) -> Result<A>)
    requires b != []
    ensures Decode(b, acc, step) ==
      match ConsumeTag(b, 0)
      case None => Err(Malformed)
      case Some(t) =>
        var rest := b[t.end..];
        match ConsumePayload(rest, 0, t.value.wtype)
        case Err(e) => Err(e)
        case Ok(p) =>
          match step(acc, Field(t.value.num, p.value))
          case Err(e) => Err(e)
          case Ok(next) => Decode(rest[p.end..], next, step)
  {
    hide ConsumeTag, ConsumePayload;
    if ConsumeTag(b, 0).Some? {
      var t := ConsumeTag(b, 0).value;
      var rest := b[t.end..];
      PayloadCarries(b, t.end, rest, 0, t.value.wtype);
      var p := ConsumePayload(rest, 0, t.value.wtype);
      if p.Ok? {
        match step(acc, Field(t.value.num, p.value.value))
        case Err(_) =>
        case Ok(next) =>
          DecodeRest(rest, p.value.end, next, step);
          DecodeFromCarries(b, t.end + p.value.end, rest, p.value.end, next, step);
      }
    }
  }

  /** Decoding what was encoded handles exactly the fields that were encoded. */
  lemma {:induction false} DecodeEncodedFrom<A>(b: Bytes, at: nat, fs: seq<Field>, acc: A,
                                                step: (A, Field) -> Result<A>)
    requires forall f :: f in fs ==> Encodable(f)
    requires Has(b, at, EncodeFields(fs)) && at + |EncodeFields(fs)| == |b|
    ensures DecodeFrom(b, at, acc, step) == DecodeFields(fs, acc, step)
    decreases |fs|
  {
    hide NextField, EncodeField, Encodable;
    if fs != [] {
      var first := EncodeField(fs[0]);
      HasParts(b, at, first, EncodeFields(fs[1..]));
      FieldRoundTrip(b, at, fs[0]);
      match step(acc, fs[0])
      case Err(_) =>
      case Ok(next) => DecodeEncodedFrom(b, at + |first|, fs[1..], next, step);
    }
  }

  lemma DecodeEncoded<A>(fs: seq<Field>, acc: A, step: (A, Field) -> Result<A>)
    requires forall f :: f in fs ==> Encodable(f)
    ensures Decode(EncodeFields(fs), acc, step) == DecodeFields(fs, acc, step)
  {
    DecodeEncodedFrom(EncodeFields(fs), 0, fs, acc, step);
  }

  /** Bytes that end between two fields. */
  predicate AtBoundary(b: Bytes, at: nat)
    decreases |b| - at
  {
    at == |b| || (at < |b| && NextField(b, at).Ok? && AtBoundary(b, NextField(b, at).value.end))
  }

  /** A message may be decoded up to a field boundary and then on. */
  lemma {:induction false} DecodeSplits<A>(x: Bytes, y: Bytes, at: nat, acc: A, step: (A, Field) -> Result<A>)
    requires AtBoundary(x, at)
    ensures DecodeFrom(x + y, at, acc, step) ==
      match DecodeFrom(x, at, acc, step) case Err(e) => Err(e) case Ok(mid) => Decode(y, mid, step)
    decreases |x| - at
  {
    hide NextField;
    if at == |x| {
      DecodeFromCarries(y, 0, x + y, |x|, acc, step);
    } else {
      FieldCarries(x, at, x + y, at);
      var c := NextField(x, at).value;
      match step(acc, c.value)
      case Err(_) =>
      case Ok(next) => DecodeSplits(x, y, c.end, next, step);
    }
  }

  /** A field the decoder passes over may be inserted at any field boundary. */
  lemma IgnoredFieldIsTransparent<A>(x: Bytes, unknown: Bytes, y: Bytes, acc: A, step: (A, Field) -> Result<A>)
    requires AtBoundary(x, 0)
    requires NextField(unknown, 0).Ok? && NextField(unknown, 0).value.end == |unknown|
    requires forall a :: step(a, NextField(unknown, 0).value.value) == Ok(a)
    ensures Decode(x + (unknown + y), acc, step) == Decode(x + y, acc, step)
  {
    hide NextField;
    DecodeSplits(x, unknown + y, 0, acc, step);
    DecodeSplits(x, y, 0, acc, step);
    if Decode(x, acc, step).Ok? {
      SkipsIgnored(unknown, y, Decode(x, acc, step).value, step);
    }
  }

  lemma SkipsIgnored<A>(unknown: Bytes, y: Bytes, acc: A, step: (A, Field) -> Result<A>)
    requires NextField(unknown, 0).Ok? && NextField(unknown, 0).value.end == |unknown|
    requires step(acc, NextField(unknown, 0).value.value) == Ok(acc)
    ensures Decode(unknown + y, acc, step) == Decode(y, acc, step)
  {
    hide NextField;
    FieldCarries(unknown, 0, unknown + y, 0);
    DecodeFromCarries(y, 0, unknown + y, |unknown|, acc, step);
  }
}
