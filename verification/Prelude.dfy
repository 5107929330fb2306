/** Definitions shared by the models: options and machine-word arithmetic. */
module Prelude {

  datatype Option<+T> = None | Some(value: T)

  const TWO32: int := 0x1_0000_0000
  const TWO64: int := 0x1_0000_0000_0000_0000
  const U32_MAX: int := 0xFFFF_FFFF
  const U64_MAX: int := 0xFFFF_FFFF_FFFF_FFFF

  type u8 = x: int | 0 <= x < 0x100
  type u16 = x: int | 0 <= x < 0x1_0000
  type u32 = x: int | 0 <= x < 0x1_0000_0000
  type u64 = x: int | 0 <= x < 0x1_0000_0000_0000_0000

  /** Conversion of a mathematical integer to a 32-bit word, as C does it. */
  function Wrap32(x: int): (r: u32)
    ensures 0 <= x < TWO32 ==> r == x
  {
    x % TWO32
  }

  /** Conversion of a mathematical integer to a 64-bit word, as C does it. */
  function Wrap64(x: int): (r: u64)
    ensures 0 <= x < TWO64 ==> r == x
  {
    x % TWO64
  }

  /** Wrapping early makes no difference to a sum. */
  lemma WrapAdd(x: int, y: int)
    ensures Wrap32(Wrap32(x) + y) == Wrap32(x + y)
  {
  }

  function Min(a: int, b: int): int {
    if a <= b then a else b
  }

  function Max(a: int, b: int): int {
    if a >= b then a else b
  }

  // -- Products and quotients ----------------------------------------------------------------

  lemma MultiplyLe(a: nat, b: nat, d: nat)
    requires a <= b
    ensures a * d <= b * d
  {
  }

  lemma DivUnique(a: nat, d: nat, x: nat, y: nat)
    requires y < d && a == x * d + y
    ensures a / d == x && a % d == y
  {
    var q, r := a / d, a % d;
    var qd := q * d;
    assert a == qd + r;
    assert (q + 1) * d == qd + d && (x + 1) * d == x * d + d;
    if q < x {
      MultiplyLe(q + 1, x, d);
    } else if q > x {
      MultiplyLe(x + 1, q, d);
    }
  }
}
