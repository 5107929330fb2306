/** The 64-bit arithmetic behind BBR's pacing. */
module Pacing {
  import opened Prelude

  const MICROS: int := 1_000_000
  const MIN_BURST_WINDOW: int := 2000

  /** BbrSaturatingMultiplyDivide, with every 64-bit product as the machine computes it. */
  function MultiplyDivide(value: u64, multiplier: u32, divisor: u64): u64
    requires divisor > 0
  {
    var quotient := value / divisor;
    var remainder := value % divisor;
    if quotient != 0 && multiplier > U64_MAX / quotient then U64_MAX
    else
      var whole := Wrap64(quotient * multiplier);
      var fraction := Wrap64(remainder * multiplier) / divisor;
      if whole > U64_MAX - fraction then U64_MAX else whole + fraction
  }

  /** BbrSaturatingMultiplyDivideCeil. */
  function MultiplyDivideCeil(value: u64, multiplier: u32, divisor: u64): u64
    requires divisor > 0
  {
    var result := MultiplyDivide(value, multiplier, divisor);
    if result == U64_MAX then U64_MAX
    else Wrap64(result + if Wrap64(value % divisor * multiplier) % divisor != 0 then 1 else 0)
  }

  function CeilDiv(a: nat, b: nat): nat
    requires b > 0
  {
    a / b + if a % b != 0 then 1 else 0
  }

  lemma DivideSum(a: nat, q: nat, r: nat, d: nat)
    requires d > 0 && a == q * d + r
    ensures a / d == q + r / d && a % d == r % d
  {
    var x := q + r / d;
    assert a == x * d + r % d by {
      assert r == r / d * d + r % d;
      assert x * d == q * d + r / d * d;
    }
    DivUnique(a, d, x, r % d);
  }

  /** Splitting the value before multiplying keeps the quotient exact. */
  lemma SplitProduct(value: nat, multiplier: nat, divisor: nat)
    requires divisor > 0
    ensures
      var q, r := value / divisor, value % divisor;
      && value * multiplier / divisor == q * multiplier + r * multiplier / divisor
      && value * multiplier % divisor == r * multiplier % divisor
  {
    var q, r := value / divisor, value % divisor;
    assert value * multiplier == (q * multiplier) * divisor + r * multiplier by {
      assert value == q * divisor + r;
      assert (q * divisor) * multiplier == (q * multiplier) * divisor;
    }
    DivideSum(value * multiplier, q * multiplier, r * multiplier, divisor);
  }

  lemma RemainderFits(value: u64, multiplier: u32, divisor: u64)
    requires 0 < divisor <= TWO32
    ensures value % divisor * multiplier < TWO64
  {
    var r := value % divisor;
    assert r * multiplier <= r * U32_MAX;
    assert r * U32_MAX <= (TWO32 - 1) * U32_MAX;
  }

  /** The result is the exact quotient, or the largest 64-bit value when that does not fit. */
  lemma MultiplyDivideExact(value: u64, multiplier: u32, divisor: u64)
    requires 0 < divisor <= TWO32
    ensures MultiplyDivide(value, multiplier, divisor) == Min(U64_MAX, value * multiplier / divisor)
  {
    var q, r := value / divisor, value % divisor;
    SplitProduct(value, multiplier, divisor);
    RemainderFits(value, multiplier, divisor);
    var whole, fraction := q * multiplier, r * multiplier / divisor;
    assert value * multiplier / divisor == whole + fraction;
    FractionNonNegative(r * multiplier, divisor);
    if q != 0 {
      OverflowTest(q, multiplier);
    }
  }

  lemma FractionNonNegative(a: nat, d: nat)
    requires d > 0
    ensures a / d >= 0
  {
  }

  lemma OverflowTest(q: nat, m: nat)
    requires q > 0
    ensures m > U64_MAX / q <==> q * m > U64_MAX
  {
    var k := U64_MAX / q;
    assert U64_MAX == k * q + U64_MAX % q;
    if m > k {
      assert q * m >= q * (k + 1);
    } else {
      assert q * m <= q * k;
    }
  }

  /** The rounded-up form is exact in the same way. */
  lemma MultiplyDivideCeilExact(value: u64, multiplier: u32, divisor: u64)
    requires 0 < divisor <= TWO32
    ensures MultiplyDivideCeil(value, multiplier, divisor) == Min(U64_MAX, CeilDiv(value * multiplier, divisor))
  {
    MultiplyDivideExact(value, multiplier, divisor);
    SplitProduct(value, multiplier, divisor);
    RemainderFits(value, multiplier, divisor);
  }

  // -- The token bucket's size -----------------------------------------------------------------

  /** BbrCongestionControlGetRateLimitBurstCapacity. */
  function BurstCapacity(rate: u64, datagram: u16, minRtt: Option<u64>): u32 {
    var window := if minRtt.Some? && minRtt.value > MIN_BURST_WINDOW then minRtt.value else MIN_BURST_WINDOW;
    var quantum := MultiplyDivideCeil(rate, Min(window, U32_MAX), MICROS);
    Min(Max(datagram, quantum), U32_MAX)
  }

  /** One round trip at the given rate, two milliseconds or one datagram at least, in 32 bits. */
  lemma BurstCapacityMeans(rate: u64, datagram: u16, minRtt: Option<u64>)
    ensures
      var window := if minRtt.Some? then Max(minRtt.value, MIN_BURST_WINDOW) else MIN_BURST_WINDOW;
      var capacity := BurstCapacity(rate, datagram, minRtt);
      && datagram <= capacity
      && (capacity == U32_MAX || capacity * MICROS >= rate * Min(window, U32_MAX))
      && (capacity > datagram ==> (capacity - 1) * MICROS < rate * Min(window, U32_MAX))
  {
    var window := if minRtt.Some? then Max(minRtt.value, MIN_BURST_WINDOW) else MIN_BURST_WINDOW;
    var w := Min(window, U32_MAX);
    MultiplyDivideCeilExact(rate, w, MICROS);
    CeilBounds(rate * w, MICROS);
  }

  lemma CeilBounds(a: nat, d: nat)
    requires d > 0
    ensures CeilDiv(a, d) * d >= a
    ensures CeilDiv(a, d) > 0 ==> (CeilDiv(a, d) - 1) * d < a
  {
    assert a == a / d * d + a % d;
    if a % d != 0 {
      assert (a / d + 1) * d == a / d * d + d;
    } else if a / d > 0 {
      assert (a / d - 1) * d == a / d * d - d;
    }
  }
}
