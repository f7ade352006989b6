/** Merkle-trie nodes and their protobuf form (triepb.NodePb of iotex-core). */
module MptCodec {
  import opened Primitives
  import opened Protowire

  /** An absent leaf value is told apart from an empty one; an absent key, path or hash is empty. */
  datatype Node =
    | Branch(children: map<byte, Bytes>)
    | Extension(path: Bytes, childHash: Bytes)
    | Leaf(key: Bytes, value: Option<Bytes>)

  /** One entry of a branch: the low byte of the index counts. */
  datatype Entry = Entry(index: nat, path: Bytes)

  // ---- Decoding, field by field ----

  function EntryStep(e: Entry, f: Field): Result<Entry> {
    if f.num == 1 && f.payload.Varint? then Ok(e.(index := f.payload.v % 0x1_0000_0000))
    else if f.num == 2 && f.payload.Len? then Ok(e.(path := f.payload.bytes))
    else Ok(e)
  }

  function BranchStep(children: map<byte, Bytes>, f: Field): Result<map<byte, Bytes>> {
    if f.num == 1 && f.payload.Len? then
      match Decode(f.payload.bytes, Entry(0, []), EntryStep)
      case Err(e) => Err(e)
      case Ok(e) => Ok(children[(e.index % 256) as byte := e.path])
    else Ok(children)
  }

  function LeafStep(leaf: Node, f: Field): Result<Node> {
    if !leaf.Leaf? then Ok(leaf)
    else if f.num == 2 && f.payload.Len? then Ok(leaf.(key := f.payload.bytes))
    else if f.num == 3 && f.payload.Len? then Ok(leaf.(value := Some(f.payload.bytes)))
    else Ok(leaf)
  }

  function ExtensionStep(ext: Node, f: Field): Result<Node> {
    if !ext.Extension? then Ok(ext)
    else if f.num == 1 && f.payload.Len? then Ok(ext.(path := f.payload.bytes))
    else if f.num == 2 && f.payload.Len? then Ok(ext.(childHash := f.payload.bytes))
    else Ok(ext)
  }

  /** The node a field carries, if it is a branch, leaf or extension field. */
  function NodeOf(f: Field): Option<Result<Node>> {
    if !f.payload.Len? then None
    else if f.num == 2 then
      match Decode(f.payload.bytes, map[], BranchStep) case Err(e) => Some(Err(e)) case Ok(m) => Some(Ok(Branch(m)))
    else if f.num == 3 then Some(Decode(f.payload.bytes, Leaf([], None), LeafStep))
    else if f.num == 4 then Some(Decode(f.payload.bytes, Extension([], []), ExtensionStep))
    else None
  }

  /** From a position on, the first branch, leaf or extension field decides; what follows it is not looked at. */
  function DecodeNodeFrom(b: Bytes, at: nat): Result<Node>
    decreases |b| - at
  {
    if at >= |b| then Err(Malformed)
    else
      match NextField(b, at)
      case Err(e) => Err(e)
      case Ok(c) => match NodeOf(c.value) case Some(r) => r case None => DecodeNodeFrom(b, c.end)
  }

  function DecodeNode(b: Bytes): Result<Node> {
    DecodeNodeFrom(b, 0)
  }

  lemma {:induction false} DecodeNodeCarries(b: Bytes, at: nat, c: Bytes, to: nat)
    requires Carries(b, at, c, to) && |c| - to == |b| - at
    ensures DecodeNodeFrom(c, to) == DecodeNodeFrom(b, at)
    decreases |b| - at
  {
    hide NextField, NodeOf;
    FieldCarries(b, at, c, to);
    if at < |b| && NextField(b, at).Ok? {
      var f := NextField(b, at).value;
      CarriesFrom(b, at, c, to, f.end);
      if NodeOf(f.value).None? {
        DecodeNodeCarries(b, f.end, c, f.end - at + to);
      }
    }
  }

  lemma DecodeNodeByParts(b: Bytes)
    requires b != []
    ensures DecodeNode(b) ==
      match ConsumeTag(b, 0)
      case None => Err(Malformed)
      case Some(t) =>
        var rest := b[t.end..];
        match ConsumePayload(rest, 0, t.value.wtype)
        case Err(e) => Err(e)
        case Ok(p) =>
          match NodeOf(Field(t.value.num, p.value)) case Some(r) => r case None => DecodeNode(rest[p.end..])
  {
    hide ConsumeTag, ConsumePayload, NodeOf;
    if ConsumeTag(b, 0).Some? {
      var t := ConsumeTag(b, 0).value;
      var rest := b[t.end..];
      PayloadCarries(b, t.end, rest, 0, t.value.wtype);
      var p := ConsumePayload(rest, 0, t.value.wtype);
      if p.Ok? {
        DecodeNodeCarries(rest, p.value.end, rest[p.value.end..], 0);
        DecodeNodeCarries(b, t.end + p.value.end, rest, p.value.end);
      }
    }
  }

  // ---- The decoding loops ----

  /** The length of a field value the caller does not want. */
  method SkipField(buf: Bytes, wtype: WireType) returns (r: Result<nat>)
    ensures match ConsumePayload(buf, 0, wtype) case Err(e) => r == Err(e) case Ok(c) => r == Ok(c.end)
  {
    match wtype {
      case VarintType =>
        var v := ConsumeVarint(buf, 0);
        return if v.None? then Err(Malformed) else Ok(v.value.end);
      case BytesType =>
        var v := ConsumeBytes(buf, 0);
        return if v.None? then Err(Malformed) else Ok(v.value.end);
      case Fixed32Type =>
        var v := ConsumeFixed(buf, 0, 4);
        return if v.None? then Err(Malformed) else Ok(v.value.end);
      case Fixed64Type =>
        var v := ConsumeFixed(buf, 0, 8);
        return if v.None? then Err(Malformed) else Ok(v.value.end);
      case OtherType =>
        return Err(UnsupportedWireType);
    }
  }

  method DecodeBranchNodePb(data: Bytes) returns (r: Result<Entry>)
    ensures r == Decode(data, Entry(0, []), EntryStep)
  {
    hide ConsumeVarint, ConsumeBytes, ConsumeFixed, ConsumeTag;
    var index, path := 0, [];
    var buf := data;
    while |buf| > 0
      invariant Decode(data, Entry(0, []), EntryStep) == Decode(buf, Entry(index, path), EntryStep)
      decreases |buf|
    {
      DecodeByParts(buf, Entry(index, path), EntryStep);
      var tag := ConsumeTag(buf, 0);
      if tag.None? {
        return Err(Malformed);
      }
      var num, wtype := tag.value.value.num, tag.value.value.wtype;
      buf := buf[tag.value.end..];
      if num == 1 && wtype == VarintType {
        var v := ConsumeVarint(buf, 0);
        if v.None? {
          return Err(Malformed);
        }
        buf := buf[v.value.end..];
        index := v.value.value % 0x1_0000_0000;
      } else if num == 2 && wtype == BytesType {
        var v := ConsumeBytes(buf, 0);
        if v.None? {
          return Err(Malformed);
        }
        buf := buf[v.value.end..];
        path := v.value.value;
      } else {
        var n := SkipField(buf, wtype);
        if n.Err? {
          return Err(n.error);
        }
        buf := buf[n.value..];
      }
    }
    return Ok(Entry(index, path));
  }

  method DecodeBranchPb(data: Bytes) returns (r: Result<map<byte, Bytes>>)
    ensures r == Decode(data, map[], BranchStep)
  {
    hide ConsumeVarint, ConsumeBytes, ConsumeFixed, ConsumeTag;
    var children: map<byte, Bytes> := map[];
    var buf := data;
    while |buf| > 0
      invariant Decode(data, map[], BranchStep) == Decode(buf, children, BranchStep)
      decreases |buf|
    {
      DecodeByParts(buf, children, BranchStep);
      var tag := ConsumeTag(buf, 0);
      if tag.None? {
        return Err(Malformed);
      }
      var num, wtype := tag.value.value.num, tag.value.value.wtype;
      buf := buf[tag.value.end..];
      if num == 1 && wtype == BytesType {
        var v := ConsumeBytes(buf, 0);
        if v.None? {
          return Err(Malformed);
        }
        buf := buf[v.value.end..];
        var entry := DecodeBranchNodePb(v.value.value);
        if entry.Err? {
          return Err(entry.error);
        }
        children := children[(entry.value.index % 256) as byte := entry.value.path];
      } else {
        var n := SkipField(buf, wtype);
        if n.Err? {
          return Err(n.error);
        }
        buf := buf[n.value..];
      }
    }
    return Ok(children);
  }

  method DecodeLeafPb(data: Bytes) returns (r: Result<Node>)
    ensures r == Decode(data, Leaf([], None), LeafStep)
  {
    hide ConsumeVarint, ConsumeBytes, ConsumeFixed, ConsumeTag;
    var key: Bytes, value: Option<Bytes> := [], None;
    var buf := data;
    while |buf| > 0
      invariant Decode(data, Leaf([], None), LeafStep) == Decode(buf, Leaf(key, value), LeafStep)
      decreases |buf|
    {
      DecodeByParts(buf, Leaf(key, value), LeafStep);
      var tag := ConsumeTag(buf, 0);
      if tag.None? {
        return Err(Malformed);
      }
      var num, wtype := tag.value.value.num, tag.value.value.wtype;
      buf := buf[tag.value.end..];
      if num == 1 && wtype == VarintType {
        var v := ConsumeVarint(buf, 0);
        if v.None? {
          return Err(Malformed);
        }
        buf := buf[v.value.end..];
      } else if num == 2 && wtype == BytesType {
        var v := ConsumeBytes(buf, 0);
        if v.None? {
          return Err(Malformed);
        }
        buf := buf[v.value.end..];
        key := v.value.value;
      } else if num == 3 && wtype == BytesType {
        var v := ConsumeBytes(buf, 0);
        if v.None? {
          return Err(Malformed);
        }
        buf := buf[v.value.end..];
        value := Some(v.value.value);
      } else {
        var n := SkipField(buf, wtype);
        if n.Err? {
          return Err(n.error);
        }
        buf := buf[n.value..];
      }
    }
    return Ok(Leaf(key, value));
  }

  method DecodeExtendPb(data: Bytes) returns (r: Result<Node>)
    ensures r == Decode(data, Extension([], []), ExtensionStep)
  {
    hide ConsumeVarint, ConsumeBytes, ConsumeFixed, ConsumeTag;
    var path: Bytes, childHash: Bytes := [], [];
    var buf := data;
    while |buf| > 0
      invariant Decode(data, Extension([], []), ExtensionStep) == Decode(buf, Extension(path, childHash), ExtensionStep)
      decreases |buf|
    {
      DecodeByParts(buf, Extension(path, childHash), ExtensionStep);
      var tag := ConsumeTag(buf, 0);
      if tag.None? {
        return Err(Malformed);
      }
      var num, wtype := tag.value.value.num, tag.value.value.wtype;
      buf := buf[tag.value.end..];
      if num == 1 && wtype == BytesType {
        var v := ConsumeBytes(buf, 0);
        if v.None? {
          return Err(Malformed);
        }
        buf := buf[v.value.end..];
        path := v.value.value;
      } else if num == 2 && wtype == BytesType {
        var v := ConsumeBytes(buf, 0);
        if v.None? {
          return Err(Malformed);
        }
        buf := buf[v.value.end..];
        childHash := v.value.value;
      } else {
        var n := SkipField(buf, wtype);
        if n.Err? {
          return Err(n.error);
        }
        buf := buf[n.value..];
      }
    }
    return Ok(Extension(path, childHash));
  }

  method DecodeNodePb(data: Bytes) returns (r: Result<Node>)
    ensures r == DecodeNode(data)
  {
    hide ConsumeVarint, ConsumeBytes, ConsumeFixed, ConsumeTag;
    var buf := data;
    while |buf| > 0
      invariant DecodeNode(data) == DecodeNode(buf)
      decreases |buf|
    {
      DecodeNodeByParts(buf);
      var tag := ConsumeTag(buf, 0);
      if tag.None? {
        return Err(Malformed);
      }
      var num, wtype := tag.value.value.num, tag.value.value.wtype;
      buf := buf[tag.value.end..];
      if wtype == BytesType {
        var v := ConsumeBytes(buf, 0);
        if v.None? {
          return Err(Malformed);
        }
        buf := buf[v.value.end..];
        if num == 2 {
          var children := DecodeBranchPb(v.value.value);
          return if children.Err? then Err(children.error) else Ok(Branch(children.value));
        } else if num == 3 {
          r := DecodeLeafPb(v.value.value);
          return;
        } else if num == 4 {
          r := DecodeExtendPb(v.value.value);
          return;
        }
      } else {
        var n := SkipField(buf, wtype);
        if n.Err? {
          return Err(n.error);
        }
        buf := buf[n.value..];
      }
    }
    return Err(Malformed);
  }

  // ---- Encoding ----

  function LeafBody(key: Bytes, value: Bytes): Bytes {
    EncodeFields([Field(2, Len(key)), Field(3, Len(value))])
  }

  function EncodeLeaf(key: Bytes, value: Bytes): Bytes {
    EncodeField(Field(3, Len(LeafBody(key, value))))
  }

  function ExtensionBody(path: Bytes, childHash: Bytes): Bytes {
    EncodeFields([Field(1, Len(path)), Field(2, Len(childHash))])
  }

  function EncodeExtension(path: Bytes, childHash: Bytes): Bytes {
    EncodeField(Field(4, Len(ExtensionBody(path, childHash))))
  }

  function EntryBody(index: byte, hash: Bytes): Bytes {
    EncodeFields([Field(1, Varint(index as int)), Field(2, Len(hash))])
  }

  /** The children in the order the map happened to be walked. */
  function EntryFields(order: seq<(byte, Bytes)>): seq<Field> {
    if order == [] then [] else EntryFields(order[..|order| - 1]) + [EntryField(order[|order| - 1])]
  }

  function BranchBody(order: seq<(byte, Bytes)>): Bytes {
    EncodeFields(EntryFields(order))
  }

  function EncodeBranch(order: seq<(byte, Bytes)>): Bytes {
    EncodeField(Field(2, Len(BranchBody(order))))
  }

  function AsMap(order: seq<(byte, Bytes)>): map<byte, Bytes> {
    if order == [] then map[] else AsMap(order[..|order| - 1])[order[|order| - 1].0 := order[|order| - 1].1]
  }

  /** Every child once, in some order. */
  ghost predicate Lists(order: seq<(byte, Bytes)>, children: map<byte, Bytes>) {
    AsMap(order) == children && |order| == |children|
  }

  // ---- Round trips ----

  lemma TwoFields(a: Field, b: Field)
    ensures EncodeFields([a, b]) == EncodeField(a) + EncodeField(b)
  {
    assert [a, b][1..] == [b];
    assert EncodeFields([b]) == EncodeField(b) + EncodeFields([]);
  }

  lemma LenWithinField(f: Field)
    requires f.payload.Len?
    ensures |f.payload.bytes| <= |EncodeField(f)|
  {}

  lemma DecodeTwo<A>(a: Field, b: Field, acc: A, step: (A, Field) -> Result<A>)
    requires Encodable(a) && Encodable(b)
    ensures Decode(EncodeFields([a, b]), acc, step) ==
      match step(acc, a) case Err(e) => Err(e) case Ok(mid) => step(mid, b)
  {
    DecodeEncoded([a, b], acc, step);
    assert [a, b][1..] == [b] && [b][1..] == [];
    match step(acc, a)
    case Err(_) =>
    case Ok(mid) => assert DecodeFields([b], mid, step) == step(mid, b);
  }

  /** A message of one field that carries a node is that node. */
  lemma SingleNodeField(num: nat, body: Bytes)
    requires num in {2, 3, 4} && |body| < UINT64_LIMIT
    ensures NodeOf(Field(num, Len(body))).Some?
    ensures DecodeNode(EncodeField(Field(num, Len(body)))) == NodeOf(Field(num, Len(body))).value
  {
    var f := Field(num, Len(body));
    hide NextField, EncodeField;
    FieldRoundTrip(EncodeField(f), 0, f);
  }

  lemma LeafRoundTrip(key: Bytes, value: Bytes)
    requires |LeafBody(key, value)| < UINT64_LIMIT
    ensures DecodeNode(EncodeLeaf(key, value)) == Ok(Leaf(key, Some(value)))
  {
    hide EncodeField, NextField, Decode, DecodeNode;
    var a, b := Field(2, Len(key)), Field(3, Len(value));
    TwoFields(a, b);
    LenWithinField(a);
    LenWithinField(b);
    SingleNodeField(3, LeafBody(key, value));
    DecodeTwo(a, b, Leaf([], None), LeafStep);
  }

  lemma ExtensionRoundTrip(path: Bytes, childHash: Bytes)
    requires |ExtensionBody(path, childHash)| < UINT64_LIMIT
    ensures DecodeNode(EncodeExtension(path, childHash)) == Ok(Extension(path, childHash))
  {
    hide EncodeField, NextField, Decode, DecodeNode;
    var a, b := Field(1, Len(path)), Field(2, Len(childHash));
    TwoFields(a, b);
    LenWithinField(a);
    LenWithinField(b);
    SingleNodeField(4, ExtensionBody(path, childHash));
    DecodeTwo(a, b, Extension([], []), ExtensionStep);
  }

  lemma EntryRoundTrip(index: byte, hash: Bytes)
    requires |EntryBody(index, hash)| < UINT64_LIMIT
    ensures Decode(EntryBody(index, hash), Entry(0, []), EntryStep) == Ok(Entry(index as int, hash))
  {
    hide EncodeField, NextField, Decode, EntryStep;
    var a, b := Field(1, Varint(index as int)), Field(2, Len(hash));
    TwoFields(a, b);
    LenWithinField(b);
    EntryStepsSet(index, hash);
    DecodeTwo(a, b, Entry(0, []), EntryStep);
  }

  lemma EntryStepsSet(index: byte, hash: Bytes)
    ensures EntryStep(Entry(0, []), Field(1, Varint(index as int))) == Ok(Entry(index as int, []))
    ensures EntryStep(Entry(index as int, []), Field(2, Len(hash))) == Ok(Entry(index as int, hash))
  {}

  lemma {:induction false} EncodeFieldsSnoc(fs: seq<Field>, f: Field)
    ensures EncodeFields(fs + [f]) == EncodeFields(fs) + EncodeField(f)
    decreases |fs|
  {
    if fs == [] {
      assert [f][1..] == [];
    } else {
      assert (fs + [f])[1..] == fs[1..] + [f];
      EncodeFieldsSnoc(fs[1..], f);
    }
  }

  lemma {:induction false} DecodeFieldsSnoc<A>(fs: seq<Field>, f: Field, acc: A, step: (A, Field) -> Result<A>)
    ensures DecodeFields(fs + [f], acc, step) ==
      match DecodeFields(fs, acc, step) case Err(e) => Err(e) case Ok(mid) => step(mid, f)
    decreases |fs|
  {
    if fs == [] {
      assert [f][1..] == [];
    } else {
      assert (fs + [f])[1..] == fs[1..] + [f];
      match step(acc, fs[0])
      case Err(_) =>
      case Ok(next) => DecodeFieldsSnoc(fs[1..], f, next, step);
    }
  }

  function EntryField(e: (byte, Bytes)): Field {
    Field(1, Len(EntryBody(e.0, e.1)))
  }

  lemma BranchStepAdds(children: map<byte, Bytes>, e: (byte, Bytes))
    requires Decode(EntryBody(e.0, e.1), Entry(0, []), EntryStep) == Ok(Entry(e.0 as int, e.1))
    ensures BranchStep(children, EntryField(e)) == Ok(children[e.0 := e.1])
  {
    hide EntryBody, Decode;
    BranchStepIs(children, EntryBody(e.0, e.1), Entry(e.0 as int, e.1));
  }

  lemma BranchStepIs(children: map<byte, Bytes>, body: Bytes, e: Entry)
    requires Decode(body, Entry(0, []), EntryStep) == Ok(e)
    ensures BranchStep(children, Field(1, Len(body))) == Ok(children[(e.index % 256) as byte := e.path])
  {}

  lemma {:induction false} EntriesRoundTrip(order: seq<(byte, Bytes)>)
    requires |BranchBody(order)| < UINT64_LIMIT
    ensures forall f :: f in EntryFields(order) ==> Encodable(f)
    ensures DecodeFields(EntryFields(order), map[], BranchStep) == Ok(AsMap(order))
    decreases |order|
  {
    hide EncodeField, NextField, Decode, BranchStep, EntryBody;
    if order != [] {
      var init, last := order[..|order| - 1], order[|order| - 1];
      assert order == init + [last];
      AsMapExtends(init, last);
      LenWithinField(EntryField(last));
      EntriesRoundTrip(init);
      EntryRoundTrip(last.0, last.1);
      BranchStepAdds(AsMap(init), last);
      DecodeFieldsSnoc(EntryFields(init), EntryField(last), map[], BranchStep);
    }
  }

  /** Whatever order the children are written in, decoding gives back the same map of children. */
  lemma BranchRoundTrip(order: seq<(byte, Bytes)>)
    requires |BranchBody(order)| < UINT64_LIMIT
    ensures DecodeNode(EncodeBranch(order)) == Ok(Branch(AsMap(order)))
  {
    hide EncodeField, NextField, Decode, DecodeNode, AsMap, EntryFields;
    EntriesRoundTrip(order);
    SingleNodeField(2, BranchBody(order));
    DecodeEncoded(EntryFields(order), map[], BranchStep);
  }

  // ---- The encoders ----

  method EncodeLeafNode(key: Bytes, value: Bytes) returns (node: Bytes)
    ensures node == EncodeLeaf(key, value)
    ensures |node| < UINT64_LIMIT ==> DecodeNode(node) == Ok(Leaf(key, Some(value)))
  {
    var leaf := EncodeVarint(2 * 8 + 2);
    leaf := leaf + EncodeBytes(key);
    leaf := leaf + EncodeVarint(3 * 8 + 2);
    leaf := leaf + EncodeBytes(value);
    TwoFields(Field(2, Len(key)), Field(3, Len(value)));
    assert leaf == LeafBody(key, value);
    node := EncodeVarint(3 * 8 + 2);
    node := node + EncodeBytes(leaf);
    if |node| < UINT64_LIMIT {
      LenWithinField(Field(3, Len(leaf)));
      LeafRoundTrip(key, value);
    }
  }

  method EncodeExtensionNode(path: Bytes, childHash: Bytes) returns (node: Bytes)
    ensures node == EncodeExtension(path, childHash)
    ensures |node| < UINT64_LIMIT ==> DecodeNode(node) == Ok(Extension(path, childHash))
  {
    var ext := EncodeVarint(1 * 8 + 2);
    ext := ext + EncodeBytes(path);
    ext := ext + EncodeVarint(2 * 8 + 2);
    ext := ext + EncodeBytes(childHash);
    TwoFields(Field(1, Len(path)), Field(2, Len(childHash)));
    assert ext == ExtensionBody(path, childHash);
    node := EncodeVarint(4 * 8 + 2);
    node := node + EncodeBytes(ext);
    if |node| < UINT64_LIMIT {
      LenWithinField(Field(4, Len(ext)));
      ExtensionRoundTrip(path, childHash);
    }
  }

  lemma AsMapExtends(order: seq<(byte, Bytes)>, e: (byte, Bytes))
    ensures AsMap(order + [e]) == AsMap(order)[e.0 := e.1]
    ensures EntryFields(order + [e]) == EntryFields(order) + [EntryField(e)]
    ensures BranchBody(order + [e]) == BranchBody(order) + EncodeField(EntryField(e))
  {
    hide EncodeField, EntryBody;
    assert (order + [e])[..|order|] == order;
    EncodeFieldsSnoc(EntryFields(order), EntryField(e));
  }

  method EncodeEntry(idx: byte, hash: Bytes) returns (bnp: Bytes)
    ensures bnp == EntryBody(idx, hash)
  {
    bnp := EncodeVarint(1 * 8);
    bnp := bnp + EncodeVarint(idx as int);
    bnp := bnp + EncodeVarint(2 * 8 + 2);
    bnp := bnp + EncodeBytes(hash);
    TwoFields(Field(1, Varint(idx as int)), Field(2, Len(hash)));
  }

  ghost predicate Covers(m: map<byte, Bytes>, children: map<byte, Bytes>, done: set<byte>) {
    m.Keys == done && forall i :: i in done ==> i in children && m[i] == children[i]
  }

  lemma EmptyOrder(children: map<byte, Bytes>)
    ensures Covers(AsMap([]), children, {}) && BranchBody([]) == []
  {}

  lemma BranchNodeIs(order: seq<(byte, Bytes)>)
    ensures EncodeBranch(order) == EncodeVarint(2 * 8 + 2) + EncodeBytes(BranchBody(order))
  {}

  lemma AddChild(order: seq<(byte, Bytes)>, children: map<byte, Bytes>, done: set<byte>, idx: byte)
    requires Covers(AsMap(order), children, done) && idx in children && idx !in done
    ensures Covers(AsMap(order + [(idx, children[idx])]), children, done + {idx})
    ensures BranchBody(order + [(idx, children[idx])])
         == BranchBody(order) + EncodeVarint(1 * 8 + 2) + EncodeBytes(EntryBody(idx, children[idx]))
  {
    hide EncodeVarint, EntryBody, EntryFields, AsMap;
    AsMapExtends(order, (idx, children[idx]));
  }

  /** Walks the children in an arbitrary order, as ranging over a Go map does. */
  method EncodeBranchNode(children: map<byte, Bytes>) returns (node: Bytes, ghost order: seq<(byte, Bytes)>)
    ensures Lists(order, children) && node == EncodeBranch(order)
    ensures |node| < UINT64_LIMIT ==> DecodeNode(node) == Ok(Branch(children))
  {
    hide EncodeVarint, EncodeBytes, EntryBody, BranchBody, AsMap, DecodeNode, EncodeField, Covers, Lists, EncodeBranch;
    var branch: Bytes := [];
    order := [];
    EmptyOrder(children);
    var left := children.Keys;
    ghost var done: set<byte> := {};
    while left != {}
      invariant left == children.Keys - done && done <= children.Keys && |order| == |done|
      invariant Covers(AsMap(order), children, done)
      invariant branch == BranchBody(order)
    {
      var idx :| idx in left;
      var bnp := EncodeEntry(idx, children[idx]);
      AddChild(order, children, done, idx);
      order := order + [(idx, children[idx])];
      branch := branch + EncodeVarint(1 * 8 + 2);
      branch := branch + EncodeBytes(bnp);
      left, done := left - {idx}, done + {idx};
    }
    assert done == children.Keys;
    node := EncodeVarint(2 * 8 + 2);
    node := node + EncodeBytes(branch);
    BranchNodeIs(order);
    BranchDecodes(order, children, node);
  }

  lemma BranchDecodes(order: seq<(byte, Bytes)>, children: map<byte, Bytes>, node: Bytes)
    requires Covers(AsMap(order), children, children.Keys) && |order| == |children.Keys| && node == EncodeBranch(order)
    ensures Lists(order, children)
    ensures |node| < UINT64_LIMIT ==> DecodeNode(node) == Ok(Branch(children))
  {
    hide EncodeField, DecodeNode, BranchBody, AsMap;
    CoversAll(AsMap(order), children);
    if |node| < UINT64_LIMIT {
      BranchFits(order);
      BranchRoundTrip(order);
    }
  }

  lemma CoversAll(m: map<byte, Bytes>, children: map<byte, Bytes>)
    requires Covers(m, children, children.Keys)
    ensures m == children
  {}

  // A node that can be written has a body that can be written.

  lemma LeafFits(key: Bytes, value: Bytes)
    ensures |LeafBody(key, value)| <= |EncodeLeaf(key, value)|
  {
    LenWithinField(Field(3, Len(LeafBody(key, value))));
  }

  lemma ExtensionFits(path: Bytes, childHash: Bytes)
    ensures |ExtensionBody(path, childHash)| <= |EncodeExtension(path, childHash)|
  {
    LenWithinField(Field(4, Len(ExtensionBody(path, childHash))));
  }

  lemma BranchFits(order: seq<(byte, Bytes)>)
    ensures |BranchBody(order)| <= |EncodeBranch(order)|
  {
    LenWithinField(Field(2, Len(BranchBody(order))));
  }
}
