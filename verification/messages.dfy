/** What the decoders make of messages with any fields, in any order, repeated or unknown. */
module Messages {
  import opened Primitives
  import opened Protowire
  import opened MptCodec
  import Account

  // ---- Varints ----

  /** All bytes but the last of a varint have the high bit set. */
  predicate IsVarint(b: Bytes, from: nat, end: nat) {
    from < end <= |b| && b[end - 1] < 128 && forall i :: from <= i < end - 1 ==> b[i] >= 128
  }

  /** The value of its groups of seven bits, the first being the lowest. */
  function Groups(b: Bytes, from: nat, end: nat): nat
    requires from <= end <= |b|
    decreases end - from
  {
    if from == end then 0 else b[from] as nat % 128 + 128 * Groups(b, from + 1, end)
  }

  ghost predicate Reads(b: Bytes, from: nat, c: Consumed<nat>) {
    IsVarint(b, from, c.end) && c.value == Groups(b, from, c.end)
  }

  lemma ReadsStep(b: Bytes, from: nat, c: Consumed<nat>)
    requires from + 1 < c.end
    ensures Reads(b, from, c) <==>
      && from < |b| && b[from] >= 128 && c.value >= b[from] as nat - 128
      && (c.value - (b[from] as nat - 128)) % 128 == 0
      && Reads(b, from + 1, Consumed((c.value - (b[from] as nat - 128)) / 128, c.end))
  {
    if c.end <= |b| {
      var rest := Groups(b, from + 1, c.end);
      assert Groups(b, from, c.end) == b[from] as nat % 128 + 128 * rest;
    }
  }

  lemma ReadsLast(b: Bytes, from: nat, c: Consumed<nat>)
    requires c.end == from + 1
    ensures Reads(b, from, c) <==> from < |b| && b[from] < 128 && c.value == b[from] as nat
  {
    if c.end <= |b| {
      assert Groups(b, c.end, c.end) == 0;
    }
  }

  lemma {:induction false} VarintFromIff(b: Bytes, at: nat, i: nat, c: Consumed<nat>)
    requires i <= 9
    ensures VarintFrom(b, at, i) == Some(c) <==> Reads(b, at + i, c) && c.end <= at + 10 && c.value < Room(i)
    decreases 9 - i
  {
    hide Reads;
    VarintFits(b, at, i);
    if c.end == at + i + 1 {
      ReadsLast(b, at + i, c);
    } else if at + i + 1 < c.end {
      if i < 9 && at + i < |b| && b[at + i] >= 128 && c.value >= b[at + i] as nat - 128 {
        VarintFromIff(b, at, i + 1, Consumed((c.value - (b[at + i] as nat - 128)) / 128, c.end));
        LongerVarint(b, at, i, c);
      } else {
        ReadsStep(b, at + i, c);
      }
    } else {
      EndsAfter(b, at + i, c);
    }
  }

  lemma LongerVarint(b: Bytes, at: nat, i: nat, c: Consumed<nat>)
    requires i < 9 && at + i < |b| && b[at + i] >= 128 && c.value >= b[at + i] as nat - 128 && at + i + 1 < c.end
    requires
      var rest := Consumed((c.value - (b[at + i] as nat - 128)) / 128, c.end);
      VarintFrom(b, at, i + 1) == Some(rest)
      <==> Reads(b, at + i + 1, rest) && c.end <= at + 10 && rest.value < Room(i + 1)
    ensures VarintFrom(b, at, i) == Some(c) <==> Reads(b, at + i, c) && c.end <= at + 10 && c.value < Room(i)
  {
    hide Reads;
    ReadsStep(b, at + i, c);
    assert Room(i) == 128 * Room(i + 1);
  }

  lemma EndsAfter(b: Bytes, from: nat, c: Consumed<nat>)
    ensures Reads(b, from, c) ==> from < c.end
  {}

  /** A varint is read if and only if it ends within ten bytes and its groups make a 64-bit number; minimal or not. */
  lemma VarintIff(b: Bytes, at: nat, v: uint64, end: nat)
    ensures ConsumeVarint(b, at) == Some(Consumed(v, end)) <==>
      IsVarint(b, at, end) && end <= at + 10 && v == Groups(b, at, end)
  {
    VarintFits(b, at, 0);
    VarintFromIff(b, at, 0, Consumed(v, end));
  }

  // ---- The last field of a kind counts ----

  function LastLen(fs: seq<Field>, num: nat): Option<Bytes> {
    if fs == [] then None
    else
      var f := fs[|fs| - 1];
      if f.num == num && f.payload.Len? then Some(f.payload.bytes) else LastLen(fs[..|fs| - 1], num)
  }

  function LastVarint(fs: seq<Field>, num: nat): uint64 {
    if fs == [] then 0
    else
      var f := fs[|fs| - 1];
      if f.num == num && f.payload.Varint? then f.payload.v else LastVarint(fs[..|fs| - 1], num)
  }

  function OrEmpty(v: Option<Bytes>): Bytes {
    match v case Some(b) => b case None => []
  }

  lemma Split(fs: seq<Field>)
    requires fs != []
    ensures fs == fs[..|fs| - 1] + [fs[|fs| - 1]]
  {}

  // ---- Trie nodes ----

  lemma {:induction false} LeafOfFields(fs: seq<Field>)
    ensures DecodeFields(fs, Leaf([], None), LeafStep) == Ok(Leaf(OrEmpty(LastLen(fs, 2)), LastLen(fs, 3)))
    decreases |fs|
  {
    if fs != [] {
      Split(fs);
      LeafOfFields(fs[..|fs| - 1]);
      DecodeFieldsSnoc(fs[..|fs| - 1], fs[|fs| - 1], Leaf([], None), LeafStep);
    }
  }

  lemma {:induction false} ExtensionOfFields(fs: seq<Field>)
    ensures DecodeFields(fs, Extension([], []), ExtensionStep)
         == Ok(Extension(OrEmpty(LastLen(fs, 1)), OrEmpty(LastLen(fs, 2))))
    decreases |fs|
  {
    if fs != [] {
      Split(fs);
      ExtensionOfFields(fs[..|fs| - 1]);
      DecodeFieldsSnoc(fs[..|fs| - 1], fs[|fs| - 1], Extension([], []), ExtensionStep);
    }
  }

  /** The index is cut to 32 bits. */
  lemma {:induction false} EntryOfFields(fs: seq<Field>)
    ensures DecodeFields(fs, Entry(0, []), EntryStep)
         == Ok(Entry(LastVarint(fs, 1) % 0x1_0000_0000, OrEmpty(LastLen(fs, 2))))
    decreases |fs|
  {
    if fs != [] {
      Split(fs);
      EntryOfFields(fs[..|fs| - 1]);
      DecodeFieldsSnoc(fs[..|fs| - 1], fs[|fs| - 1], Entry(0, []), EntryStep);
    }
  }

  predicate IsEntry(f: Field) {
    f.num == 1 && f.payload.Len?
  }

  function EntryIn(f: Field): Result<Entry>
    requires IsEntry(f)
  {
    Decode(f.payload.bytes, Entry(0, []), EntryStep)
  }

  /** The child a branch has for a byte: that of the last entry whose index ends in it. */
  function ChildFor(fs: seq<Field>, c: byte): Option<Bytes> {
    if fs == [] then None
    else
      var f := fs[|fs| - 1];
      if IsEntry(f) && EntryIn(f).Ok? && EntryIn(f).value.index % 256 == c as nat then Some(EntryIn(f).value.path)
      else ChildFor(fs[..|fs| - 1], c)
  }

  predicate Readable(fs: seq<Field>) {
    forall f :: f in fs && IsEntry(f) ==> EntryIn(f).Ok?
  }

  predicate IsBranchOf(m: map<byte, Bytes>, fs: seq<Field>) {
    forall c: byte :: (if c in m then Some(m[c]) else None) == ChildFor(fs, c)
  }

  /** A branch is read if and only if every entry is. */
  lemma {:induction false} BranchOfFields(fs: seq<Field>)
    ensures DecodeFields(fs, map[], BranchStep).Ok? <==> Readable(fs)
    ensures Readable(fs) ==> IsBranchOf(DecodeFields(fs, map[], BranchStep).value, fs)
    decreases |fs|
  {
    if fs != [] {
      var init, f := fs[..|fs| - 1], fs[|fs| - 1];
      Split(fs);
      BranchOfFields(init);
      DecodeFieldsSnoc(init, f, map[], BranchStep);
      hide Decode;
      assert Readable(fs) <==> Readable(init) && (IsEntry(f) ==> EntryIn(f).Ok?);
      if Readable(fs) {
        var m := DecodeFields(init, map[], BranchStep).value;
        forall c: byte ensures (if c in BranchStep(m, f).value then Some(BranchStep(m, f).value[c]) else None)
                            == ChildFor(fs, c) {
          assert (if c in m then Some(m[c]) else None) == ChildFor(init, c);
        }
      }
    }
  }

  lemma {:induction false} FirstNodeFrom(b: Bytes, at: nat, before: seq<Field>, f: Field)
    requires (forall g :: g in before ==> Encodable(g) && NodeOf(g).None?) && Encodable(f) && NodeOf(f).Some?
    requires Has(b, at, EncodeFields(before + [f]))
    ensures DecodeNodeFrom(b, at) == NodeOf(f).value
    decreases |before|
  {
    hide NextField, EncodeField, Encodable, NodeOf;
    var all := before + [f];
    HasParts(b, at, EncodeField(all[0]), EncodeFields(all[1..]));
    FieldRoundTrip(b, at, all[0]);
    if before != [] {
      assert all[1..] == before[1..] + [f];
      FirstNodeFrom(b, at + |EncodeField(before[0])|, before[1..], f);
    }
  }

  /** The first field that carries a node decides, whatever other fields come before it and whatever bytes after. */
  lemma FirstNodeDecides(before: seq<Field>, f: Field, rest: Bytes)
    requires (forall g :: g in before ==> Encodable(g) && NodeOf(g).None?) && Encodable(f) && NodeOf(f).Some?
    ensures DecodeNode(EncodeFields(before + [f]) + rest) == NodeOf(f).value
  {
    hide NextField, NodeOf, Encodable, EncodeFields;
    var b := EncodeFields(before + [f]) + rest;
    assert Has(b, 0, EncodeFields(before + [f]));
    FirstNodeFrom(b, 0, before, f);
  }

  /** What a node with these fields is. */
  predicate IsNodeOf(r: Result<Node>, num: nat, fs: seq<Field>) {
    match num
    case 2 => r.Ok? == Readable(fs) && (r.Ok? ==> r.value.Branch? && IsBranchOf(r.value.children, fs))
    case 3 => r == Ok(Leaf(OrEmpty(LastLen(fs, 2)), LastLen(fs, 3)))
    case 4 => r == Ok(Extension(OrEmpty(LastLen(fs, 1)), OrEmpty(LastLen(fs, 2))))
    case _ => true
  }

  /** The bytes of a node decode to the first branch, leaf or extension in them, in which the last field of each kind
    * counts: fields in any order, repeated or unknown. */
  lemma NodeOfFields(before: seq<Field>, num: nat, fs: seq<Field>, rest: Bytes)
    requires num in {2, 3, 4} && |EncodeFields(fs)| < UINT64_LIMIT && (forall f :: f in fs ==> Encodable(f))
    requires forall g :: g in before ==> Encodable(g) && NodeOf(g).None?
    ensures IsNodeOf(DecodeNode(EncodeFields(before + [Field(num, Len(EncodeFields(fs)))]) + rest), num, fs)
  {
    hide EncodeFields, DecodeNode, Decode, IsBranchOf, Readable, LastLen, Encodable;
    var f := Field(num, Len(EncodeFields(fs)));
    assert Encodable(f) by { ShortIsEncodable(f); }
    FirstNodeDecides(before, f, rest);
    if num == 2 {
      BranchOfFields(fs);
      DecodeEncoded(fs, map[], BranchStep);
    } else if num == 3 {
      LeafOfFields(fs);
      DecodeEncoded(fs, Leaf([], None), LeafStep);
    } else {
      ExtensionOfFields(fs);
      DecodeEncoded(fs, Extension([], []), ExtensionStep);
    }
  }

  lemma ShortIsEncodable(f: Field)
    requires f.num in {2, 3, 4} && f.payload.Len? && |f.payload.bytes| < UINT64_LIMIT
    ensures Encodable(f)
  {}

  // ---- Account records ----

  predicate IsBalance(f: Field) {
    f.num == 2 && f.payload.Len? && f.payload.bytes != []
  }

  predicate BadBalance(f: Field) {
    IsBalance(f) && Account.ParseDecimal(f.payload.bytes).None?
  }

  /** The last balance that is not left empty. */
  function LastBalance(fs: seq<Field>): int {
    if fs == [] then 0
    else
      var f := fs[|fs| - 1];
      if IsBalance(f) && Account.ParseDecimal(f.payload.bytes).Some? then Account.ParseDecimal(f.payload.bytes).value
      else LastBalance(fs[..|fs| - 1])
  }

  lemma {:induction false} RecordOfFields(fs: seq<Field>)
    ensures DecodeFields(fs, Account.NEW_ACCOUNT, Account.AccountStep) ==
      if exists f :: f in fs && BadBalance(f) then Err(InvalidBalance)
      else Ok(Account.IoTXAccount(LastVarint(fs, 1), LastBalance(fs), OrEmpty(LastLen(fs, 3)), OrEmpty(LastLen(fs, 4))))
    decreases |fs|
  {
    if fs != [] {
      var init, f := fs[..|fs| - 1], fs[|fs| - 1];
      Split(fs);
      RecordOfFields(init);
      DecodeFieldsSnoc(init, f, Account.NEW_ACCOUNT, Account.AccountStep);
      hide Account.ParseDecimal;
      assert (exists g :: g in fs && BadBalance(g)) <==> BadBalance(f) || exists g :: g in init && BadBalance(g);
    }
  }

  /** A record has the last nonce, root, code hash and non-empty balance written in it, and is refused if and only if
    * nothing is written in it or some balance is no number. Fields of another number or type count for nothing. */
  lemma AccountOfFields(fs: seq<Field>)
    requires forall f :: f in fs ==> Encodable(f)
    ensures Account.DecodeAccount(EncodeFields(fs)) ==
      if fs == [] then Err(EmptyAccount)
      else if exists f :: f in fs && BadBalance(f) then Err(InvalidBalance)
      else Ok(Account.IoTXAccount(LastVarint(fs, 1), LastBalance(fs), OrEmpty(LastLen(fs, 3)), OrEmpty(LastLen(fs, 4))))
  {
    RecordOfFields(fs);
    DecodeEncoded(fs, Account.NEW_ACCOUNT, Account.AccountStep);
    if fs != [] {
      FieldIsWritten(fs[0]);
    }
  }

  lemma FieldIsWritten(f: Field)
    ensures EncodeField(f) != []
  {}

  // ---- Decimal numbers ----

  function Zeros(n: nat): Bytes {
    if n == 0 then [] else [48] + Zeros(n - 1)
  }

  /** An optional sign, any number of zeros, and the digits of the number. */
  predicate Writes(s: Bytes, sign: Bytes, zeros: nat, n: int) {
    && s == sign + Zeros(zeros) + Account.Digits(if n < 0 then -n else n)
    && (sign == [45] || sign == [43] || sign == []) && (sign == [45] ==> n <= 0) && (n < 0 ==> sign == [45])
  }

  lemma {:induction false} ZerosAreDigits(zeros: nat, t: Bytes)
    requires t != [] && forall i :: 0 <= i < |t| ==> Account.IsDigit(t[i])
    ensures forall i :: 0 <= i < |Zeros(zeros) + t| ==> Account.IsDigit((Zeros(zeros) + t)[i])
    ensures Account.DigitsValue(Zeros(zeros) + t) == Account.DigitsValue(t)
    decreases zeros
  {
    if zeros > 0 {
      ZerosAreDigits(zeros - 1, t);
      assert Zeros(zeros) + t == [48] + (Zeros(zeros - 1) + t);
      LeadingZero(Zeros(zeros - 1) + t);
    } else {
      assert Zeros(0) + t == t;
    }
  }

  lemma {:induction false} LeadingZero(t: Bytes)
    requires forall i :: 0 <= i < |t| ==> Account.IsDigit(t[i])
    ensures forall i :: 0 <= i < |[48] + t| ==> Account.IsDigit(([48] + t)[i])
    ensures Account.DigitsValue([48] + t) == Account.DigitsValue(t)
    decreases |t|
  {
    var s: Bytes := [48] + t;
    assert forall i :: 0 < i < |s| ==> s[i] == t[i - 1];
    if t == [] {
      assert s[..0] == [];
    } else {
      assert s[..|s| - 1] == [48] + t[..|t| - 1];
      LeadingZero(t[..|t| - 1]);
    }
  }

  /** Digits are those of their value behind some zeros. */
  lemma {:induction false} DigitsAreCanonical(t: Bytes) returns (zeros: nat)
    requires t != [] && forall i :: 0 <= i < |t| ==> Account.IsDigit(t[i])
    ensures t == Zeros(zeros) + Account.Digits(Account.DigitsValue(t))
    decreases |t|
  {
    var init, last := t[..|t| - 1], t[|t| - 1];
    if init == [] {
      assert t == [last] && Account.DigitsValue([]) == 0;
      zeros := 0;
    } else {
      zeros := DigitsAreCanonical(init);
      var v := Account.DigitsValue(init);
      assert t == init + [last];
      if v == 0 {
        ZerosSnoc(zeros);
        zeros := zeros + 1;
      }
    }
  }

  lemma {:induction false} ZerosSnoc(n: nat)
    ensures Zeros(n + 1) == Zeros(n) + [48]
  {
    if n > 0 {
      ZerosSnoc(n - 1);
    }
  }

  function Signed(sign: Bytes, v: nat): int {
    if sign == [45] then 0 - v else v
  }

  lemma ParsesDigits(sign: Bytes, t: Bytes)
    requires sign == [45] || sign == [43] || sign == []
    requires t != [] && forall i :: 0 <= i < |t| ==> Account.IsDigit(t[i])
    ensures Account.ParseDecimal(sign + t) == Some(Signed(sign, Account.DigitsValue(t)))
  {
    hide Account.DigitsValue;
    if sign == [] {
      assert sign + t == t && Account.IsDigit(t[0]);
    } else {
      assert (sign + t)[1..] == t;
    }
  }

  lemma WrittenParses(s: Bytes, sign: Bytes, zeros: nat, n: int)
    requires Writes(s, sign, zeros, n)
    ensures Account.ParseDecimal(s) == Some(n)
  {
    var m := if n < 0 then -n else n;
    hide Account.ParseDecimal, Account.Digits, Account.DigitsValue, Account.IsDigit, Zeros;
    Account.DigitsRoundTrip(m);
    ZerosAreDigits(zeros, Account.Digits(m));
    ParsesDigits(sign, Zeros(zeros) + Account.Digits(m));
    assert s == sign + (Zeros(zeros) + Account.Digits(m));
  }

  /** What can be parsed is a sign and digits. */
  lemma ParsedIsDigits(s: Bytes) returns (sign: Bytes, t: Bytes)
    requires Account.ParseDecimal(s).Some?
    ensures s == sign + t && (sign == [45] || sign == [43] || sign == [])
    ensures t != [] && forall i :: 0 <= i < |t| ==> Account.IsDigit(t[i])
  {
    hide Account.DigitsValue;
    if s[0] == 45 || s[0] == 43 {
      sign, t := [s[0]], s[1..];
    } else {
      sign, t := [], s;
    }
  }

  lemma ParsedIsWritten(s: Bytes) returns (sign: Bytes, zeros: nat)
    requires Account.ParseDecimal(s).Some?
    ensures Writes(s, sign, zeros, Account.ParseDecimal(s).value)
  {
    var t: Bytes;
    sign, t := ParsedIsDigits(s);
    ParsesDigits(sign, t);
    zeros := DigitsAreCanonical(t);
    hide Account.ParseDecimal, Account.DigitsValue, Writes;
    SignedWrites(sign, zeros, Account.DigitsValue(t), t);
  }

  lemma SignedWrites(sign: Bytes, zeros: nat, v: nat, t: Bytes)
    requires (sign == [45] || sign == [43] || sign == []) && t == Zeros(zeros) + Account.Digits(v)
    ensures Writes(sign + t, sign, zeros, Signed(sign, v))
  {
    hide Account.Digits, Zeros;
    assert sign + t == sign + Zeros(zeros) + Account.Digits(v);
  }

  /** A balance is accepted if and only if it is a number written in this way, and it is read as that number. */
  lemma DecimalIff(s: Bytes, n: int)
    ensures Account.ParseDecimal(s) == Some(n) <==> exists sign, zeros :: Writes(s, sign, zeros, n)
  {
    hide Account.ParseDecimal, Writes;
    if Account.ParseDecimal(s) == Some(n) {
      var sign, zeros := ParsedIsWritten(s);
    }
    forall sign, zeros | Writes(s, sign, zeros, n) ensures Account.ParseDecimal(s) == Some(n) {
      WrittenParses(s, sign, zeros, n);
    }
  }
}
