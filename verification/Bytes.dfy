/** Fixed-width integers and their byte encodings. */
module Bytes {
  const TWO_32: nat := 0x1_0000_0000
  const TWO_64: nat := 0x1_0000_0000_0000_0000
  const TWO_128: nat := 0x1_0000_0000_0000_0000_0000_0000_0000_0000

  type Byte = b: int | 0 <= b < 0x100
  type U16 = x: int | 0 <= x < 0x1_0000
  type U32 = x: int | 0 <= x < TWO_32
  type U64 = x: int | 0 <= x < TWO_64
  type U128 = x: int | 0 <= x < TWO_128

  function Zeros(n: nat): (b: seq<Byte>)
    ensures |b| == n
  {
    if n == 0 then [] else Zeros(n - 1) + [0]
  }

  /** An account is identified by its raw 32-byte public key, which is also its encoding. */
  type AccountId = s: seq<Byte> | |s| == 32 witness Zeros(32)

  datatype Option<+T> = None | Some(value: T)

  /** The remainder an unsigned integer of `size` values keeps, by repeated subtraction. */
  function Wrap(n: nat, size: nat): (r: nat)
    requires size > 0
    ensures r < size && r <= n
  {
    if n < size then n else Wrap(n - size, size)
  }

  lemma {:induction false} WrapOf(q: nat, r: nat, size: nat)
    requires r < size
    ensures Wrap(q * size + r, size) == r
    decreases q
  {
    if q > 0 {
      assert (q - 1) * size == q * size - size;
      WrapOf(q - 1, r, size);
    }
  }

  lemma WrapIsRemainder(n: nat, size: nat)
    requires size > 0
    ensures Wrap(n, size) == n % size
  {
    var q, r := n / size, n % size;
    assert n == q * size + r;
    WrapOf(q, r, size);
  }

  /** Incrementing a wrapped counter wraps the incremented counter. */
  lemma {:induction false} WrapIncrement(n: nat, size: nat)
    requires size > 0
    ensures Wrap(Wrap(n, size) + 1, size) == Wrap(n + 1, size)
  {
    if n >= size {
      WrapIncrement(n - size, size);
    }
  }

  function Pow256(k: nat): nat {
    if k == 0 then 1 else 256 * Pow256(k - 1)
  }

  /** The low `len` bytes of `n`, most significant first. */
  function BigEndian(n: nat, len: nat): (b: seq<Byte>)
    ensures |b| == len
  {
    if len == 0 then [] else BigEndian(n / 256, len - 1) + [n % 256]
  }

  /** The low `len` bytes of `n`, least significant first. */
  function LittleEndian(n: nat, len: nat): (b: seq<Byte>)
    ensures |b| == len
  {
    if len == 0 then [] else [n % 256] + LittleEndian(n / 256, len - 1)
  }

  function FromBigEndian(b: seq<Byte>): nat {
    if b == [] then 0 else 256 * FromBigEndian(b[..|b| - 1]) + b[|b| - 1]
  }

  function FromLittleEndian(b: seq<Byte>): nat {
    if b == [] then 0 else b[0] + 256 * FromLittleEndian(b[1..])
  }

  lemma {:induction false} BigEndianDecodes(n: nat, len: nat)
    requires n < Pow256(len)
    ensures FromBigEndian(BigEndian(n, len)) == n
  {
    if len > 0 {
      BigEndianDecodes(n / 256, len - 1);
      var b := BigEndian(n, len);
      assert b[..|b| - 1] == BigEndian(n / 256, len - 1);
    }
  }

  lemma {:induction false} LittleEndianDecodes(n: nat, len: nat)
    requires n < Pow256(len)
    ensures FromLittleEndian(LittleEndian(n, len)) == n
  {
    if len > 0 {
      LittleEndianDecodes(n / 256, len - 1);
    }
  }

  /** Every byte string is the encoding of the in-range number it decodes to. */
  lemma {:induction false} BigEndianEncodes(b: seq<Byte>)
    ensures FromBigEndian(b) < Pow256(|b|)
    ensures BigEndian(FromBigEndian(b), |b|) == b
  {
    if b != [] {
      BigEndianEncodes(b[..|b| - 1]);
      var n := FromBigEndian(b);
      assert n / 256 == FromBigEndian(b[..|b| - 1]) && n % 256 == b[|b| - 1];
      assert b == b[..|b| - 1] + [b[|b| - 1]];
    }
  }

  lemma {:induction false} LittleEndianEncodes(b: seq<Byte>)
    ensures FromLittleEndian(b) < Pow256(|b|)
    ensures LittleEndian(FromLittleEndian(b), |b|) == b
  {
    if b != [] {
      LittleEndianEncodes(b[1..]);
      var n := FromLittleEndian(b);
      assert n / 256 == FromLittleEndian(b[1..]) && n % 256 == b[0];
      assert b == [b[0]] + b[1..];
    }
  }

  lemma Widths()
    ensures Pow256(4) == TWO_32 && Pow256(8) == TWO_64 && Pow256(16) == TWO_128
  {
    assert Pow256(2) == 0x1_0000;
    assert Pow256(4) == TWO_32;
    assert Pow256(6) == 0x1_0000_0000_0000;
    assert Pow256(8) == TWO_64;
    assert Pow256(10) == 0x1_0000_0000_0000_0000_0000;
    assert Pow256(12) == 0x1_0000_0000_0000_0000_0000_0000;
    assert Pow256(14) == 0x1_0000_0000_0000_0000_0000_0000_0000;
  }
}
