/** Integers in network byte order (`wire.hpp`). */
module Wire {
  import opened Bytes

  /** The four bytes that shifting and masking gives. */
  function PutUint32(n: nat): (b: seq<Byte>)
    requires n < 0x1_0000_0000
    ensures |b| == 4
  {
    [n / 0x100_0000 % 0x100, n / 0x1_0000 % 0x100, n / 0x100 % 0x100, n % 0x100]
  }

  function GetUint32(b: seq<Byte>): nat
    requires |b| == 4
  {
    var b0: nat, b1: nat, b2: nat, b3: nat := b[0], b[1], b[2], b[3];
    b0 * 0x100_0000 + b1 * 0x1_0000 + b2 * 0x100 + b3
  }

  function PutUint64(n: nat): (b: seq<Byte>)
    requires n < 0x1_0000_0000_0000_0000
    ensures |b| == 8
  {
    PutUint32(n / 0x1_0000_0000) + PutUint32(n % 0x1_0000_0000)
  }

  function GetUint64(b: seq<Byte>): nat
    requires |b| == 8
  {
    GetUint32(b[..4]) * 0x1_0000_0000 + GetUint32(b[4..])
  }

  lemma Uint32RoundTrip(n: nat)
    requires n < 0x1_0000_0000
    ensures GetUint32(PutUint32(n)) == n
  {
  }

  /** Every four bytes are the encoding of what they decode to. */
  lemma Uint32Back(b: seq<Byte>)
    requires |b| == 4
    ensures GetUint32(b) < 0x1_0000_0000 && PutUint32(GetUint32(b)) == b
  {
    var n := GetUint32(b);
    var b0: nat, b1: nat, b2: nat, b3: nat := b[0], b[1], b[2], b[3];
    assert n / 0x100 == b0 * 0x1_0000 + b1 * 0x100 + b2 && n % 0x100 == b3;
    assert n / 0x1_0000 == b0 * 0x100 + b1 && n / 0x100_0000 == b0;
  }

  lemma Uint64RoundTrip(n: nat)
    requires n < 0x1_0000_0000_0000_0000
    ensures GetUint64(PutUint64(n)) == n
  {
    assert PutUint64(n)[..4] == PutUint32(n / 0x1_0000_0000);
    assert PutUint64(n)[4..] == PutUint32(n % 0x1_0000_0000);
    Uint32RoundTrip(n / 0x1_0000_0000);
    Uint32RoundTrip(n % 0x1_0000_0000);
  }

  /** 256 to the power `k`. */
  function Weight(k: nat): (w: nat)
    ensures w > 0
  {
    if k == 0 then 1 else 0x100 * Weight(k - 1)
  }

  /** The number that bytes denote when the first one weighs most. */
  function Value(b: seq<Byte>): nat {
    if b == [] then 0 else 0x100 * Value(b[..|b| - 1]) + b[|b| - 1]
  }

  lemma Value4(b: seq<Byte>)
    requires |b| == 4
    ensures Value(b) == GetUint32(b)
  {
    var b0: nat, b1: nat := b[0], b[1];
    assert b[..3][..2] == b[..2] && b[..2][..1] == b[..1] && b[..1][..0] == [];
    assert Value(b[..1]) == b0;
    assert Value(b[..2]) == 0x100 * b0 + b1;
    assert Value(b[..3]) == 0x100 * Value(b[..2]) + b[2];
  }

  /** Network byte order: the bytes denote the number, the most significant one first. */
  lemma MostSignificantFirst32(n: nat)
    requires n < 0x1_0000_0000
    ensures Value(PutUint32(n)) == n
  {
    Value4(PutUint32(n));
    Uint32RoundTrip(n);
  }

  lemma {:induction false} ValueAppend(a: seq<Byte>, b: seq<Byte>)
    ensures Value(a + b) == Value(a) * Weight(|b|) + Value(b)
  {
    if b == [] {
      assert a + b == a;
    } else {
      assert (a + b)[..|a + b| - 1] == a + b[..|b| - 1];
      ValueAppend(a, b[..|b| - 1]);
      assert 0x100 * (Value(a) * Weight(|b| - 1)) == Value(a) * Weight(|b|);
    }
  }

  lemma MostSignificantFirst64(n: nat)
    requires n < 0x1_0000_0000_0000_0000
    ensures Value(PutUint64(n)) == n
  {
    var high, low := PutUint32(n / 0x1_0000_0000), PutUint32(n % 0x1_0000_0000);
    ValueAppend(high, low);
    MostSignificantFirst32(n / 0x1_0000_0000);
    MostSignificantFirst32(n % 0x1_0000_0000);
    assert Weight(4) == 0x1_0000_0000 by {
      assert Weight(1) == 0x100 && Weight(2) == 0x1_0000 && Weight(3) == 0x100_0000;
    }
  }
}
