/** Fixed-width big-endian integers. */
module BigEndian {
  import opened Primitives

  /** 256 to the power of the width: how many values fit. */
  function Capacity(width: nat): nat {
    if width == 0 then 1 else 256 * Capacity(width - 1)
  }

  function Encode(v: nat, width: nat): (b: Bytes)
    ensures |b| == width
  {
    if width == 0 then [] else Encode(v / 256, width - 1) + [(v % 256) as byte]
  }

  function Decode(b: Bytes): (v: nat)
    ensures v < Capacity(|b|)
  {
    if b == [] then 0 else 256 * Decode(b[..|b| - 1]) + b[|b| - 1] as nat
  }

  lemma {:induction false} RoundTrip(v: nat, width: nat)
    requires v < Capacity(width)
    ensures Decode(Encode(v, width)) == v
    decreases width
  {
    if width > 0 {
      RoundTrip(v / 256, width - 1);
      var b := Encode(v, width);
      assert b[..|b| - 1] == Encode(v / 256, width - 1);
    }
  }

  lemma {:induction false} EncodesBack(b: Bytes)
    ensures Encode(Decode(b), |b|) == b
    decreases |b|
  {
    if b != [] {
      var init, last := b[..|b| - 1], b[|b| - 1] as nat;
      EncodesBack(init);
      assert Decode(b) / 256 == Decode(init) && Decode(b) % 256 == last;
    }
  }

  /** The first byte weighs most. */
  lemma {:induction false} FirstByteFirst(x: byte, b: Bytes)
    ensures Decode([x] + b) == x as nat * Capacity(|b|) + Decode(b)
    decreases |b|
  {
    var all := [x] + b;
    if b == [] {
      assert all[..0] == [];
    } else {
      var init := b[..|b| - 1];
      assert all[..|all| - 1] == [x] + init;
      FirstByteFirst(x, init);
      var weight := x as nat * Capacity(|init|);
      assert x as nat * Capacity(|b|) == 256 * weight;
    }
  }

  lemma Capacities()
    ensures Capacity(1) == 0x100 && Capacity(4) == 0x1_0000_0000 && Capacity(8) == UINT64_LIMIT
  {
    assert Capacity(2) == 0x1_0000;
    assert Capacity(4) == 256 * 256 * Capacity(2);
    assert Capacity(6) == 256 * 256 * Capacity(4);
    assert Capacity(8) == 256 * 256 * Capacity(6);
  }
}
