/** Account records: a protobuf message with a decimal balance; and hex addresses. */
module Account {
  import opened Primitives
  import opened Protowire

  /** Absent byte fields and empty ones are the same to every reader of the record. */
  datatype IoTXAccount = IoTXAccount(nonce: uint64, balance: int, root: Bytes, codeHash: Bytes)

  const NEW_ACCOUNT := IoTXAccount(0, 0, [], [])

  // ---- Decimal strings ----

  predicate IsDigit(c: byte) { 48 <= c <= 57 }

  function DigitOf(c: byte): nat
    requires IsDigit(c)
  {
    c as int - 48
  }

  function DigitsValue(s: Bytes): nat
    requires forall i :: 0 <= i < |s| ==> IsDigit(s[i])
  {
    if s == [] then 0 else 10 * DigitsValue(s[..|s| - 1]) + DigitOf(s[|s| - 1])
  }

  function ParseDigits(s: Bytes): Option<nat> {
    if s != [] && forall i :: 0 <= i < |s| ==> IsDigit(s[i]) then Some(DigitsValue(s)) else None
  }

  /** big.Int.SetString in base ten: an optional sign, then at least one digit. */
  function ParseDecimal(s: Bytes): Option<int> {
    if s == [] then None
    else if s[0] == 45 then (match ParseDigits(s[1..]) case None => None case Some(n) => Some(0 - n))
    else if s[0] == 43 then (match ParseDigits(s[1..]) case None => None case Some(n) => Some(n as int))
    else match ParseDigits(s) case None => None case Some(n) => Some(n as int)
  }

  function Digits(n: nat): (s: Bytes)
    ensures s != []
  {
    if n < 10 then [(48 + n) as byte] else Digits(n / 10) + [(48 + n % 10) as byte]
  }

  function ToDecimal(n: int): Bytes {
    if n < 0 then [45] + Digits(-n) else Digits(n)
  }

  lemma {:induction false} DigitsRoundTrip(n: nat)
    ensures forall i :: 0 <= i < |Digits(n)| ==> IsDigit(Digits(n)[i])
    ensures DigitsValue(Digits(n)) == n
  {
    var s := Digits(n);
    if n < 10 {
      assert s[..|s| - 1] == [];
      assert DigitsValue([]) == 0;
    } else {
      DigitsRoundTrip(n / 10);
      assert s[..|s| - 1] == Digits(n / 10);
    }
  }

  lemma DecimalRoundTrip(n: int)
    ensures ParseDecimal(ToDecimal(n)) == Some(n)
  {
    DigitsRoundTrip(if n < 0 then -n else n);
    if n < 0 {
      assert ToDecimal(n)[1..] == Digits(-n);
    }
  }

  // ---- The record ----

  function AccountStep(acct: IoTXAccount, f: Field): Result<IoTXAccount> {
    match f.payload
    case Varint(v) => Ok(if f.num == 1 then acct.(nonce := v) else acct)
    case Len(v) =>
      if f.num == 2 && |v| > 0 then
        match ParseDecimal(v)
        case None => Err(InvalidBalance)
        case Some(n) => Ok(acct.(balance := n))
      else if f.num == 3 then Ok(acct.(root := v))
      else if f.num == 4 then Ok(acct.(codeHash := v))
      else Ok(acct)
    case _ => Ok(acct)
  }

  function DecodeAccount(data: Bytes): Result<IoTXAccount> {
    if data == [] then Err(EmptyAccount) else Decode(data, NEW_ACCOUNT, AccountStep)
  }

  /** The decoding loop: one tag at a time, then by wire type. */
  method DecodeAccountLoop(data: Bytes) returns (r: Result<IoTXAccount>)
    ensures r == DecodeAccount(data)
  {
    if |data| == 0 {
      return Err(EmptyAccount);
    }
    var acct := NEW_ACCOUNT;
    var buf := data;
    while |buf| > 0
      invariant DecodeAccount(data) == Decode(buf, acct, AccountStep)
      decreases |buf|
    {
      hide ConsumeVarint, ConsumeBytes, ConsumeFixed, ParseDecimal, Decode;
      DecodeByParts(buf, acct, AccountStep);
      var tag := ConsumeTag(buf, 0);
      if tag.None? {
        return Err(Malformed);
      }
      var num := tag.value.value.num;
      buf := buf[tag.value.end..];
      match tag.value.value.wtype {
        case VarintType =>
          var v := ConsumeVarint(buf, 0);
          if v.None? {
            return Err(Malformed);
          }
          buf := buf[v.value.end..];
          if num == 1 {
            acct := acct.(nonce := v.value.value);
          }
        case BytesType =>
          var v := ConsumeBytes(buf, 0);
          if v.None? {
            return Err(Malformed);
          }
          buf := buf[v.value.end..];
          if num == 2 {
            if |v.value.value| > 0 {
              var balance := ParseDecimal(v.value.value);
              if balance.None? {
                return Err(InvalidBalance);
              }
              acct := acct.(balance := balance.value);
            }
          } else if num == 3 {
            acct := acct.(root := v.value.value);
          } else if num == 4 {
            acct := acct.(codeHash := v.value.value);
          }
        case Fixed32Type =>
          var v := ConsumeFixed(buf, 0, 4);
          if v.None? {
            return Err(Malformed);
          }
          buf := buf[v.value.end..];
        case Fixed64Type =>
          var v := ConsumeFixed(buf, 0, 8);
          if v.None? {
            return Err(Malformed);
          }
          buf := buf[v.value.end..];
        case OtherType =>
          return Err(UnsupportedWireType);
      }
    }
    return Ok(acct);
  }

  function Optional(num: nat, v: Bytes): seq<Field> {
    if v == [] then [] else [Field(num, Len(v))]
  }

  function AccountFields(a: IoTXAccount): seq<Field> {
    [Field(1, Varint(a.nonce)), Field(2, Len(ToDecimal(a.balance)))] + Optional(3, a.root) + Optional(4, a.codeHash)
  }

  function EncodeAccount(a: IoTXAccount): Bytes {
    EncodeFields(AccountFields(a))
  }

  /** An optional field sets its value, or is left out when the value is the default anyway. */
  lemma OptionalField(num: nat, v: Bytes, rest: seq<Field>, acct: IoTXAccount)
    requires (num == 3 && acct.root == []) || (num == 4 && acct.codeHash == [])
    ensures DecodeFields(Optional(num, v) + rest, acct, AccountStep)
         == DecodeFields(rest, if num == 3 then acct.(root := v) else acct.(codeHash := v), AccountStep)
  {
    var fs := Optional(num, v) + rest;
    if v == [] {
      assert fs == rest;
    } else {
      assert fs[1..] == rest;
    }
  }

  lemma AccountFieldsDecode(a: IoTXAccount)
    ensures DecodeFields(AccountFields(a), NEW_ACCOUNT, AccountStep) == Ok(a)
  {
    DecimalRoundTrip(a.balance);
    var root, code := Optional(3, a.root), Optional(4, a.codeHash);
    var fs := AccountFields(a);
    var afterNonce := NEW_ACCOUNT.(nonce := a.nonce);
    var afterBalance := afterNonce.(balance := a.balance);
    assert fs[1..] == [Field(2, Len(ToDecimal(a.balance)))] + (root + code);
    assert fs[1..][1..] == root + code;
    assert DecodeFields(fs[1..], afterNonce, AccountStep) == DecodeFields(root + code, afterBalance, AccountStep);
    OptionalField(3, a.root, code, afterBalance);
    assert code + [] == code;
    OptionalField(4, a.codeHash, [], afterBalance.(root := a.root));
  }

  /** Decoding inverts encoding, whatever the nonce, balance, storage root and code hash. */
  lemma AccountRoundTrip(a: IoTXAccount)
    requires |ToDecimal(a.balance)| < UINT64_LIMIT && |a.root| < UINT64_LIMIT && |a.codeHash| < UINT64_LIMIT
    ensures DecodeAccount(EncodeAccount(a)) == Ok(a)
  {
    var fs := AccountFields(a);
    DecodeEncoded(fs, NEW_ACCOUNT, AccountStep);
    AccountFieldsDecode(a);
    HasParts(EncodeAccount(a), 0, EncodeField(fs[0]), EncodeFields(fs[1..]));
    FieldRoundTrip(EncodeAccount(a), 0, fs[0]);
  }

  /** A field with an unused number may be inserted between any two fields of a record without
    * changing what it decodes to; only the empty record, which is refused, becomes readable by it. */
  lemma UnknownFieldIsIgnored(x: Bytes, unknown: Bytes, y: Bytes)
    requires AtBoundary(x, 0)
    requires NextField(unknown, 0).Ok? && NextField(unknown, 0).value.end == |unknown|
    requires NextField(unknown, 0).value.value.num !in {1, 2, 3, 4}
    ensures DecodeAccount(x + (unknown + y)) == DecodeAccount(x + y) <==> x + y != []
  {
    hide NextField;
    assert forall a :: AccountStep(a, NextField(unknown, 0).value.value) == Ok(a);
    IgnoredFieldIsTransparent(x, unknown, y, NEW_ACCOUNT, AccountStep);
    if x + y == [] {
      assert x == [] && y == [];
      assert x + (unknown + y) == unknown;
    }
  }

  // ---- Addresses ----

  // "0123456789abcdef" and "0123456789ABCDEF"
  const LOWER_DIGITS: Bytes := [48, 49, 50, 51, 52, 53, 54, 55, 56, 57, 97, 98, 99, 100, 101, 102]
  const UPPER_DIGITS: Bytes := [48, 49, 50, 51, 52, 53, 54, 55, 56, 57, 65, 66, 67, 68, 69, 70]

  /** A digit is worth its place among the digits of either case; nothing else is a digit. */
  function HexVal(c: byte): (v: Option<nat>)
    ensures v.Some? ==> v.value < 16 && c in {LOWER_DIGITS[v.value], UPPER_DIGITS[v.value]}
    ensures v.None? ==> c !in LOWER_DIGITS && c !in UPPER_DIGITS
  {
    if 48 <= c <= 57 then Some(c as int - 48)
    else if 97 <= c <= 102 then Some(c as int - 97 + 10)
    else if 65 <= c <= 70 then Some(c as int - 65 + 10)
    else None
  }

  predicate IsHexAddress(addr: Bytes) {
    && |addr| == 42 && addr[0] == 48 && addr[1] in {120, 88}
    && forall i :: 2 <= i < 42 ==> HexVal(addr[i]).Some?
  }

  /** Reads exactly the 0x- or 0X-prefixed strings of forty hex digits, two digits to a byte. */
  method AddressToHash160(addr: Bytes) returns (r: Option<Bytes>)
    ensures r.Some? <==> IsHexAddress(addr)
    ensures r.Some? ==> |r.value| == 20 && forall i :: 0 <= i < 20 ==>
      r.value[i] as int == 16 * HexVal(addr[2 + 2 * i]).value + HexVal(addr[3 + 2 * i]).value
  {
    if |addr| < 2 || addr[0] != 48 || (addr[1] != 120 && addr[1] != 88) {
      return None;
    }
    var hex := addr[2..];
    if |hex| != 40 {
      return None;
    }
    var b: Bytes := [];
    for i := 0 to 20
      invariant |b| == i
      invariant forall j :: 2 <= j < 2 + 2 * i ==> HexVal(addr[j]).Some?
      invariant forall j :: 0 <= j < i ==>
        b[j] as int == 16 * HexVal(addr[2 + 2 * j]).value + HexVal(addr[3 + 2 * j]).value
    {
      var hi := HexVal(hex[i * 2]);
      if hi.None? {
        assert HexVal(addr[2 + 2 * i]).None?;
        return None;
      }
      var lo := HexVal(hex[i * 2 + 1]);
      if lo.None? {
        assert HexVal(addr[3 + 2 * i]).None?;
        return None;
      }
      b := b + [(16 * hi.value + lo.value) as byte];
    }
    return Some(b);
  }
}
