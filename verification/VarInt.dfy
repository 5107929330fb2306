/** QUIC variable-length integers (section 16 of RFC 9000), as quic_var_int.h reads and writes them. */
module VarInt {
  import opened Prelude

  const VAR_INT_MAX: int := 0x3FFF_FFFF_FFFF_FFFF

  type varint = x: int | 0 <= x <= 0x3FFF_FFFF_FFFF_FFFF
  type Bytes = seq<u8>

  function Size(v: varint): nat {
    if v < 0x40 then 1 else if v < 0x4000 then 2 else if v < 0x4000_0000 then 4 else 8
  }

  /** The `n` low bytes of `v`, most significant first: what a byte swap and a copy store. */
  function BigEndian(v: nat, n: nat): (s: Bytes)
    ensures |s| == n
  {
    if n == 0 then [] else BigEndian(v / 0x100, n - 1) + [v % 0x100]
  }

  function FromBigEndian(s: Bytes): nat {
    if s == [] then 0 else FromBigEndian(s[..|s| - 1]) * 0x100 + s[|s| - 1]
  }

  function Tag(n: nat): nat {
    if n == 1 then 0 else if n == 2 then 0x4000 else if n == 4 then 0x8000_0000 else 0xC000_0000_0000_0000
  }

  /** QuicVarIntEncode: the two top bits of the first byte give the length. */
  function Encode(v: varint): (s: Bytes)
    ensures |s| == Size(v)
  {
    BigEndian(Tag(Size(v)) + v, Size(v))
  }

  /** The length announced by a first byte. */
  function Announced(b: u8): nat {
    if b < 0x40 then 1 else if b < 0x80 then 2 else if b < 0xC0 then 4 else 8
  }

  /** The value bits of an encoding of `n` bytes. */
  function Mask(x: nat, n: nat): (v: varint)
    requires n == 1 || n == 2 || n == 4 || n == 8
  {
    x % (if n == 1 then 0x40 else if n == 2 then 0x4000 else if n == 4 then 0x4000_0000 else 0x4000_0000_0000_0000)
  }

  /** QuicVarIntDecode at the start of `s`: the value and the bytes consumed. */
  function Decode(s: Bytes): (r: Option<(varint, nat)>)
    ensures r.Some? ==> 0 < r.value.1 <= |s|
  {
    if |s| < 1 || |s| < Announced(s[0]) then None
    else
      var n := Announced(s[0]);
      Some((Mask(FromBigEndian(s[..n]), n), n))
  }

  lemma BigEndianPush(v: nat, n: nat)
    requires n > 0
    ensures BigEndian(v, n)[..n - 1] == BigEndian(v / 0x100, n - 1)
  {
  }

  lemma {:induction false} BigEndianRoundTrip(v: nat, n: nat)
    requires v < Pow256(n)
    ensures FromBigEndian(BigEndian(v, n)) == v
    decreases n
  {
    if n > 0 {
      BigEndianPush(v, n);
      BigEndianRoundTrip(v / 0x100, n - 1);
    }
  }

  function Pow256(n: nat): nat {
    if n == 0 then 1 else 0x100 * Pow256(n - 1)
  }

  lemma {:induction false} FirstByte(v: nat, n: nat)
    requires 0 < n && v < Pow256(n)
    ensures BigEndian(v, n)[0] == v / Pow256(n - 1)
    decreases n
  {
    if n > 1 {
      FirstByte(v / 0x100, n - 1);
      assert BigEndian(v, n)[0] == BigEndian(v / 0x100, n - 1)[0];
      DivDiv(v, Pow256(n - 2));
    }
  }

  lemma DivDiv(v: nat, p: nat)
    requires p > 0
    ensures (v / 0x100) / p == v / (0x100 * p)
  {
    var q := v / (0x100 * p);
    var r := v % (0x100 * p);
    assert v == q * (0x100 * p) + r;
    assert v / 0x100 == q * p + r / 0x100 by {
      assert v == (q * p) * 0x100 + r;
    }
    assert 0 <= r / 0x100 < p;
    DivUnique(q * p + r / 0x100, p, q, r / 0x100);
  }

  lemma Powers()
    ensures Pow256(1) == 0x100 && Pow256(2) == 0x1_0000 && Pow256(4) == 0x1_0000_0000
    ensures Pow256(3) == 0x100_0000 && Pow256(7) == 0x100_0000_0000_0000 && Pow256(8) == 0x1_0000_0000_0000_0000
  {
    assert Pow256(2) == 0x1_0000 && Pow256(3) == 0x100_0000 && Pow256(4) == 0x1_0000_0000;
    assert Pow256(5) == 0x100_0000_0000 && Pow256(6) == 0x1_0000_0000_0000;
  }

  /** The tag fits above the value, and the mask takes it off again. */
  lemma TagAndMask(v: varint)
    ensures Tag(Size(v)) + v < Pow256(Size(v)) && Mask(Tag(Size(v)) + v, Size(v)) == v
  {
    Powers();
  }

  lemma TagAnnounces(v: varint)
    ensures Announced(Encode(v)[0]) == Size(v)
  {
    Powers();
    TagAndMask(v);
    FirstByte(Tag(Size(v)) + v, Size(v));
  }

  /** Reading back what was written, whatever follows it. */
  lemma RoundTrip(v: varint, rest: Bytes)
    ensures Decode(Encode(v) + rest) == Some((v, Size(v)))
  {
    var n, s := Size(v), Encode(v);
    TagAndMask(v);
    TagAnnounces(v);
    BigEndianRoundTrip(Tag(n) + v, n);
    assert (s + rest)[..n] == s && (s + rest)[0] == s[0];
  }

  /** Bytes after a complete integer do not change how it reads. */
  lemma DecodeExtends(s: Bytes, rest: Bytes)
    requires Decode(s).Some?
    ensures Decode(s + rest) == Decode(s)
  {
    assert (s + rest)[..Announced(s[0])] == s[..Announced(s[0])];
  }
}
