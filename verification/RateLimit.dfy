/**
 The rate limit of BBR: a token bucket that caps the average sending rate. Its value is compared
 with an ideal bucket that counts in millionths of a byte.
 */
module RateLimit {
  import opened Prelude
  import opened Pacing

  datatype Settings = Settings(pacing: bool, minRate: u64, maxRate: u64)

  /** RateLimitInitialized, RateLimitBudgetBytes and RateLimitRemainderNumerator. */
  datatype Bucket = Bucket(on: bool, budget: u64, remainder: u64)

  predicate Limited(s: Settings) {
    s.pacing && s.maxRate != 0
  }

  // -- The ideal bucket ------------------------------------------------------------------------

  predicate Ok(b: Bucket) {
    b.remainder < MICROS && b.budget <= U32_MAX && (!b.on ==> b.budget == 0 && b.remainder == 0)
  }

  /** The tokens in the bucket, in millionths of a byte. */
  function Credit(b: Bucket): nat {
    b.budget * MICROS + b.remainder
  }

  const OFF: Bucket := Bucket(false, 0, 0)

  function Holding(credit: nat): Bucket
    requires credit <= U32_MAX * MICROS
  {
    Bucket(true, credit / MICROS, credit % MICROS)
  }

  /** A bucket that has just been set up: it holds one datagram. */
  function Fresh(datagram: u16): Bucket {
    Bucket(true, datagram, 0)
  }

  function Filled(credit: nat, capacity: u32, rate: u64, time: nat): (c: nat)
    ensures c <= U32_MAX * MICROS
  {
    Min(capacity * MICROS, credit + rate * time)
  }

  datatype Event =
    | Allow(s: Settings, datagram: u16, minRtt: Option<u64>, elapsed: Option<u64>)
    | Sent(s: Settings, datagram: u16, bytes: u32)
    | RateChanged(s: Settings, datagram: u16, minRtt: Option<u64>)
    | Restart(s: Settings, datagram: u16)

  /** The bucket that an event works on. */
  function Started(b: Bucket, datagram: u16): Bucket {
    if b.on then b else Fresh(datagram)
  }

  function Elapsed(e: Option<u64>): nat {
    if e.Some? then e.value else 0
  }

  /** What each operation on the bucket means. */
  function Step(b: Bucket, e: Event): Bucket {
    if !Limited(e.s) then OFF
    else
      match e
      case Allow(s, datagram, minRtt, elapsed) =>
        Holding(Filled(Credit(Started(b, datagram)), BurstCapacity(s.maxRate, datagram, minRtt), s.maxRate,
                       Elapsed(elapsed)))
      case Sent(_, datagram, bytes) =>
        var c := Started(b, datagram);
        c.(budget := Max(0, c.budget - bytes))
      case RateChanged(s, datagram, minRtt) =>
        if !b.on then Fresh(datagram)
        else Bucket(true, Min(b.budget, BurstCapacity(s.maxRate, datagram, minRtt)), 0)
      case Restart(_, datagram) => Fresh(datagram)
  }

  // -- The code --------------------------------------------------------------------------------------

  class Limiter {
    var on: bool
    var budget: u64
    var remainder: u64

    ghost function View(): Bucket
      reads this
    {
      Bucket(on, budget, remainder)
    }

    constructor ()
      ensures View() == OFF
    {
      on, budget, remainder := false, 0, 0;
    }

    /** BbrCongestionControlClearRateLimitBudget. */
    method Clear()
      modifies this
      ensures View() == OFF
    {
      on := false;
      budget := 0;
      remainder := 0;
    }

    /** BbrCongestionControlInitializeRateLimitBudget, at the configured maximum rate. */
    method Initialize(s: Settings, datagram: u16)
      modifies this
      ensures View() == if Limited(s) then Fresh(datagram) else OFF
    {
      if !(s.pacing && s.maxRate != 0) {
        Clear();
        return;
      }
      on := true;
      budget := datagram;
      remainder := 0;
    }

    /** BbrCongestionControlRefillRateLimitBudget: no intermediate result overflows. */
    method Refill(rate: u64, capacity: u32, elapsed: Option<u64>)
      requires rate > 0 && on && Ok(View())
      modifies this
      ensures View() == Holding(Filled(old(Credit(View())), capacity, rate, Elapsed(elapsed)))
    {
      ghost var credit := Credit(View());
      if budget > capacity {
        budget := capacity;
      }
      if budget == capacity {
        remainder := 0;
        assert credit >= capacity * MICROS;
        DivUnique(capacity * MICROS, MICROS, capacity, 0);
        return;
      }
      if elapsed.None? {
        DivUnique(credit, MICROS, budget, remainder);
        return;
      }
      RefillPartly(rate, capacity, elapsed.value);
    }

    /** The timed refill of a bucket that is not full. */
    method RefillPartly(rate: u64, capacity: u32, t: u64)
      requires rate > 0 && on && Ok(View()) && budget < capacity
      modifies this
      ensures View() == Holding(Filled(old(Credit(View())), capacity, rate, t))
    {
      ghost var credit, earned := Credit(View()), rate * t;
      EarnedAdds(rate, t, 0);
      var missing := capacity - budget;
      var needed := Wrap64(Wrap64(missing * MICROS) - remainder);
      assert needed == capacity * MICROS - credit;
      var timeToFill := Wrap64(needed / rate + if needed % rate != 0 then 1 else 0);
      FillTime(needed, rate, t);
      if t >= timeToFill {
        budget := capacity;
        remainder := 0;
        DivUnique(capacity * MICROS, MICROS, capacity, 0);
        return;
      }
      var added := Wrap64(Wrap64(rate * t) + remainder);
      assert added == earned + remainder;
      DivideSum(credit + earned, budget, added, MICROS);
      budget := Wrap64(budget + added / MICROS);
      remainder := added % MICROS;
    }

    /** The part of BbrCongestionControlGetSendAllowance that keeps the bucket up to date. */
    method Update(s: Settings, datagram: u16, minRtt: Option<u64>, elapsed: Option<u64>)
      requires Ok(View())
      modifies this
      ensures View() == Step(old(View()), Allow(s, datagram, minRtt, elapsed))
    {
      if !(s.pacing && s.maxRate != 0) {
        Clear();
        return;
      }
      if !on {
        Initialize(s, datagram);
      }
      Refill(s.maxRate, BurstCapacity(s.maxRate, datagram, minRtt), elapsed);
    }

    /** The part of BbrCongestionControlOnDataSent that takes tokens out. */
    method Spend(s: Settings, datagram: u16, bytes: u32)
      requires Ok(View())
      modifies this
      ensures View() == Step(old(View()), Sent(s, datagram, bytes))
    {
      if s.pacing && s.maxRate != 0 {
        if !on {
          Initialize(s, datagram);
        }
        if on {
          budget := if bytes >= budget then 0 else budget - bytes;
        }
      } else {
        Clear();
      }
    }

    /** BbrCongestionControlOnPacingRateChanged. */
    method OnPacingRateChanged(s: Settings, datagram: u16, minRtt: Option<u64>)
      requires Ok(View())
      modifies this
      ensures View() == Step(old(View()), RateChanged(s, datagram, minRtt))
    {
      if !s.pacing || s.maxRate == 0 {
        Clear();
        return;
      }
      if !on {
        Initialize(s, datagram);
        return;
      }
      remainder := 0;
      budget := Min(budget, BurstCapacity(s.maxRate, datagram, minRtt));
    }
  }

  /** The time to fill, rounded up, is the first time at which enough has been earned. */
  lemma FillTime(needed: nat, rate: nat, t: nat)
    requires rate > 0
    ensures needed / rate >= 0
    ensures t >= CeilDiv(needed, rate) <==> rate * t >= needed
    ensures needed <= U32_MAX * MICROS ==> CeilDiv(needed, rate) <= U32_MAX * MICROS
  {
    CeilBounds(needed, rate);
    var k := CeilDiv(needed, rate);
    if t >= k {
      MultiplyLe(k, t, rate);
    } else {
      MultiplyLe(t, k - 1, rate);
    }
    if k > 0 {
      MultiplyLe(1, rate, k - 1);
    }
  }

  // -- What the bucket guarantees --------------------------------------------------------------------------

  lemma HoldingOk(credit: nat)
    requires credit <= U32_MAX * MICROS
    ensures Ok(Holding(credit)) && Credit(Holding(credit)) == credit
  {
  }

  /** Every operation leaves less than a byte in the remainder and a 32-bit budget. */
  lemma StepOk(b: Bucket, e: Event)
    requires Ok(b)
    ensures Ok(Step(b, e))
  {
    if Limited(e.s) && e.Allow? {
      HoldingOk(Filled(Credit(Started(b, e.datagram)), BurstCapacity(e.s.maxRate, e.datagram, e.minRtt), e.s.maxRate,
                       Elapsed(e.elapsed)));
    }
  }

  /** Waiting twice is waiting once for the sum: no fraction of a byte is lost or gained. */
  lemma RefillsCompose(b: Bucket, s: Settings, datagram: u16, minRtt: Option<u64>, t: u64, u: u64)
    requires Ok(b) && t + u <= U64_MAX
    ensures Step(Step(b, Allow(s, datagram, minRtt, Some(t))), Allow(s, datagram, minRtt, Some(u))) ==
            Step(b, Allow(s, datagram, minRtt, Some(t + u)))
  {
    if Limited(s) {
      var c, capacity := Credit(Started(b, datagram)), BurstCapacity(s.maxRate, datagram, minRtt);
      var once := Filled(c, capacity, s.maxRate, t);
      HoldingOk(once);
      FilledTwice(c, capacity, s.maxRate, t, u);
      assert Step(b, Allow(s, datagram, minRtt, Some(t))) == Holding(once);
    }
  }

  lemma FilledTwice(c: nat, capacity: u32, rate: u64, t: nat, u: nat)
    ensures Filled(Filled(c, capacity, rate, t), capacity, rate, u) == Filled(c, capacity, rate, t + u)
  {
    EarnedAdds(rate, t, u);
  }

  lemma EarnedAdds(rate: nat, t: nat, u: nat)
    ensures rate * (t + u) == rate * t + rate * u && rate * t >= 0 && rate * u >= 0
  {
  }

  /** While the bucket is in use, a change of rate never adds tokens. */
  lemma RateChangeNeverAdds(b: Bucket, s: Settings, datagram: u16, minRtt: Option<u64>)
    requires Ok(b) && b.on
    ensures Credit(Step(b, RateChanged(s, datagram, minRtt))) <= Credit(b)
  {
  }

  /** After the time in which the rate earns a datagram, the budget holds a datagram. */
  lemma GateClears(b: Bucket, s: Settings, datagram: u16, minRtt: Option<u64>, t: u64)
    requires Ok(b) && Limited(s) && t >= CeilDiv(datagram * MICROS, s.maxRate)
    ensures Step(b, Allow(s, datagram, minRtt, Some(t))).budget >= datagram
  {
    FillTime(datagram * MICROS, s.maxRate, t);
    var capacity := BurstCapacity(s.maxRate, datagram, minRtt);
    BurstCapacityMeans(s.maxRate, datagram, minRtt);
    var c := Filled(Credit(Started(b, datagram)), capacity, s.maxRate, t);
    assert c >= datagram * MICROS;
    HoldingOk(c);
  }

  // -- Whole runs -------------------------------------------------------------------------------------------

  function Run(b: Bucket, es: seq<Event>): Bucket {
    if es == [] then b else Step(Run(b, es[..|es| - 1]), es[|es| - 1])
  }

  /** Tokens earned by waiting. */
  function Earned(e: Event): nat {
    if Limited(e.s) && e.Allow? then e.s.maxRate * Elapsed(e.elapsed) else 0
  }

  /** Tokens given by setting the bucket up. */
  function Granted(b: Bucket, e: Event): nat {
    if Limited(e.s) && (!b.on || e.Restart?) then e.datagram * MICROS else 0
  }

  /** Bytes paid for with tokens, in millionths of a byte. */
  function Paid(b: Bucket, e: Event): nat {
    if Limited(e.s) && e.Sent? then Min(e.bytes, Started(b, e.datagram).budget) * MICROS else 0
  }

  function TotalEarned(es: seq<Event>): nat {
    if es == [] then 0 else TotalEarned(es[..|es| - 1]) + Earned(es[|es| - 1])
  }

  function TotalGranted(b: Bucket, es: seq<Event>): nat {
    if es == [] then 0
    else TotalGranted(b, es[..|es| - 1]) + Granted(Run(b, es[..|es| - 1]), es[|es| - 1])
  }

  function TotalPaid(b: Bucket, es: seq<Event>): nat {
    if es == [] then 0
    else TotalPaid(b, es[..|es| - 1]) + Paid(Run(b, es[..|es| - 1]), es[|es| - 1])
  }

  lemma StepBalance(b: Bucket, e: Event)
    requires Ok(b)
    ensures Credit(Step(b, e)) + Paid(b, e) <= Credit(b) + Earned(e) + Granted(b, e)
  {
    if Limited(e.s) {
      match e
      case Allow(s, datagram, minRtt, elapsed) =>
        var capacity := BurstCapacity(s.maxRate, datagram, minRtt);
        HoldingOk(Filled(Credit(Started(b, datagram)), capacity, s.maxRate, Elapsed(elapsed)));
      case Sent(_, datagram, bytes) =>
        assert Credit(Started(b, datagram)) <= Credit(b) + Granted(b, e);
      case RateChanged(_, _, _) =>
      case Restart(_, _) =>
    } else {
      assert Earned(e) == Granted(b, e) == Paid(b, e) == 0;
    }
  }

  /**
   Over any run, whatever the rates, capacities and settings do in between: what was paid for, and
   what is left, never exceeds what was there, what was earned and what was granted.
   */
  lemma {:induction false} RunBalance(b: Bucket, es: seq<Event>)
    requires Ok(b)
    ensures Ok(Run(b, es))
    ensures Credit(Run(b, es)) + TotalPaid(b, es) <= Credit(b) + TotalEarned(es) + TotalGranted(b, es)
    decreases |es|
  {
    if es != [] {
      var n := |es| - 1;
      RunBalance(b, es[..n]);
      StepBalance(Run(b, es[..n]), es[n]);
      StepOk(Run(b, es[..n]), es[n]);
    }
  }

  // -- A fixed rate ---------------------------------------------------------------------------------------------

  function Bytes(es: seq<Event>): nat {
    if es == [] then 0
    else Bytes(es[..|es| - 1]) + if es[|es| - 1].Sent? then es[|es| - 1].bytes else 0
  }

  function Time(es: seq<Event>): nat {
    if es == [] then 0
    else Time(es[..|es| - 1]) + if es[|es| - 1].Allow? then Elapsed(es[|es| - 1].elapsed) else 0
  }

  /** Only waiting and sending, at one rate, with every send inside the budget it finds. */
  predicate Steady(b: Bucket, rate: u64, es: seq<Event>) {
    && (forall i :: 0 <= i < |es| ==> Limited(es[i].s) && es[i].s.maxRate == rate && (es[i].Allow? || es[i].Sent?))
    && (forall i :: 0 <= i < |es| && es[i].Sent? ==> es[i].bytes <= Run(b, es[..i]).budget)
  }

  lemma SteadyPrefix(b: Bucket, rate: u64, es: seq<Event>, n: nat)
    requires Steady(b, rate, es) && n <= |es|
    ensures Steady(b, rate, es[..n])
  {
    forall i | 0 <= i < n && es[..n][i].Sent?
      ensures es[..n][i].bytes <= Run(b, es[..n][..i]).budget
    {
      assert es[..n][..i] == es[..i];
      assert es[i].bytes <= Run(b, es[..i]).budget;
    }
  }

  lemma {:induction false} SteadyTotals(b: Bucket, rate: u64, es: seq<Event>)
    requires Ok(b) && b.on && Steady(b, rate, es)
    ensures Run(b, es).on && TotalGranted(b, es) == 0
    ensures TotalPaid(b, es) == Bytes(es) * MICROS && TotalEarned(es) == rate * Time(es)
    decreases |es|
  {
    if es != [] {
      var n := |es| - 1;
      SteadyPrefix(b, rate, es, n);
      SteadyTotals(b, rate, es[..n]);
      var e, before := es[n], Run(b, es[..n]);
      assert e.Sent? ==> e.bytes <= before.budget;
      SteadyStep(before, rate, e);
      EarnedAdds(rate, Time(es[..n]), if e.Allow? then Elapsed(e.elapsed) else 0);
    }
  }

  lemma SteadyStep(b: Bucket, rate: u64, e: Event)
    requires b.on && Limited(e.s) && e.s.maxRate == rate && (e.Allow? || (e.Sent? && e.bytes <= b.budget))
    ensures Step(b, e).on && Granted(b, e) == 0
    ensures Paid(b, e) == (if e.Sent? then e.bytes else 0) * MICROS
    ensures Earned(e) == rate * (if e.Allow? then Elapsed(e.elapsed) else 0)
  {
  }

  /** The bytes sent at a fixed maximum rate never exceed the credit and what the time has earned. */
  lemma RateBound(b: Bucket, rate: u64, es: seq<Event>)
    requires Ok(b) && b.on && Steady(b, rate, es)
    ensures Bytes(es) <= (Credit(b) + rate * Time(es)) / MICROS
  {
    RunBalance(b, es);
    SteadyTotals(b, rate, es);
  }
}
