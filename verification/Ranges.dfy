/** QUIC_RANGE: a set of packet numbers kept as sorted, separated subranges. */
module Ranges {
  import opened Prelude

  datatype Sub = Sub(low: u64, count: u64)

  /** The first number after a subrange. */
  function End(s: Sub): int {
    s.low + s.count
  }

  /** Subranges are not empty, and a gap separates each from those after it. */
  ghost predicate Sorted(subs: seq<Sub>) {
    && (forall i :: 0 <= i < |subs| ==> subs[i].count > 0 && End(subs[i]) < TWO64)
    && (forall i, j :: 0 <= i < j < |subs| ==> End(subs[i]) < subs[j].low)
  }

  ghost predicate Has(subs: seq<Sub>, x: int) {
    exists i :: 0 <= i < |subs| && subs[i].low <= x < End(subs[i])
  }

  /** QuicRangeCompare: 0 if the key overlaps the subrange, else on which side it lies. */
  function Compare(low: u64, high: u64, s: Sub): int {
    if high < s.low then -1 else if End(s) - 1 < low then 1 else 0
  }

  /** The keys before `k` lie below the key, those from `k` on above it. */
  ghost predicate Between(subs: seq<Sub>, low: u64, high: u64, k: int) {
    && 0 <= k <= |subs|
    && (forall i :: 0 <= i < k ==> End(subs[i]) <= low)
    && (forall i :: k <= i < |subs| ==> high < subs[i].low)
  }

  /**
   QuicRangeSearch: an overlapping subrange, or minus one minus the place to insert at. The upper bound
   wraps below zero as in the code, where the number of candidates ends the loop.
   */
  method Search(subs: seq<Sub>, low: u64, high: u64) returns (r: int)
    requires Sorted(subs) && 0 < |subs| <= 0x7FFF_FFFF && low <= high
    ensures r >= 0 ==> r < |subs| && Compare(low, high, subs[r]) == 0
    ensures r < 0 ==> Between(subs, low, high, -(r + 1))
  {
    var num: u32, lo: u32, hi: u32, mid: u32 := |subs|, 0, |subs| - 1, 0;
    var result := 0;
    while lo <= hi
      invariant lo + num <= |subs| && hi == Wrap32(lo + num - 1)
      invariant forall i :: 0 <= i < lo ==> End(subs[i]) <= low
      invariant forall i :: lo + num <= i < |subs| ==> high < subs[i].low
      invariant num == 0 ==> mid == lo && result < 0
      decreases num, lo <= hi
    {
      var half := num / 2;
      if half != 0 {
        mid := lo + if num % 2 == 1 then half else half - 1;
        result := Compare(low, high, subs[mid]);
        if result == 0 {
          return mid;
        } else if result < 0 {
          hi := Wrap32(mid - 1);
          num := if num % 2 == 1 then half else half - 1;
        } else {
          lo := mid + 1;
          num := half;
        }
      } else if num != 0 {
        result := Compare(low, high, subs[lo]);
        if result == 0 {
          return lo;
        } else if result < 0 {
          return -1 - lo;
        } else {
          return -2 - lo;
        }
      } else {
        break;
      }
    }
    r := if result > 0 then -2 - mid else -1 - mid;
  }

  /** The subranges before `i` end, with a gap, before `low`; the one at `i` does not. */
  ghost predicate FirstTouching(subs: seq<Sub>, low: u64, i: int) {
    && 0 <= i <= |subs|
    && (forall k :: 0 <= k < i ==> End(subs[k]) < low)
    && (i < |subs| ==> End(subs[i]) >= low)
  }

  /** The first part of QuicRangeAddRange: where the new values belong. */
  method Locate(subs: seq<Sub>, low: u64, count: u64) returns (i: nat)
    requires Sorted(subs) && |subs| <= 0x7FFF_FFFF && count > 0 && low + count < TWO64
    ensures FirstTouching(subs, low, i)
  {
    var n := |subs|;
    if n > 0 && End(subs[n - 1]) > low {
      var result := Search(subs, low, low + count - 1);
      if result >= 0 {
        i := result;
        while i > 0 && Compare(low, low + count - 1, subs[i - 1]) == 0
          invariant i < n && Compare(low, low + count - 1, subs[i]) == 0
        {
          i := i - 1;
        }
      } else {
        i := -(result + 1);
      }
      if i > 0 && End(subs[i - 1]) == low {
        i := i - 1;
      }
    } else if n == 0 {
      i := 0;
    } else if End(subs[n - 1]) == low {
      i := n - 1;
    } else {
      i := n;
    }
  }

  // -- Merging --------------------------------------------------------------------------------------

  /** The subranges from `i` to before `j` replaced by one. */
  function Replaced(subs: seq<Sub>, i: nat, j: nat, s: Sub): seq<Sub>
    requires i <= j <= |subs|
  {
    subs[..i] + [s] + subs[j..]
  }

  lemma ReplacedAt(subs: seq<Sub>, i: nat, j: nat, s: Sub)
    requires i <= j <= |subs|
    ensures
      var r := Replaced(subs, i, j, s);
      && |r| == i + 1 + |subs| - j && r[i] == s
      && (forall k :: 0 <= k < i ==> r[k] == subs[k])
      && (forall k :: j <= k < |subs| ==> r[k - j + i + 1] == subs[k])
      && (forall k :: i < k < |r| ==> r[k] == subs[k - i - 1 + j])
  {
  }

  lemma ReplacedSorted(subs: seq<Sub>, i: nat, j: nat, s: Sub)
    requires Sorted(subs) && i <= j <= |subs| && s.count > 0 && End(s) < TWO64
    requires forall k :: 0 <= k < i ==> End(subs[k]) < s.low
    requires forall k :: j <= k < |subs| ==> End(s) < subs[k].low
    ensures Sorted(Replaced(subs, i, j, s))
  {
    ReplacedAt(subs, i, j, s);
    var r := Replaced(subs, i, j, s);
    forall a, b | 0 <= a < b < |r|
      ensures End(r[a]) < r[b].low
    {
      if a > i {
        assert r[a] == subs[a - i - 1 + j] && r[b] == subs[b - i - 1 + j];
      } else if b > i {
        assert r[b] == subs[b - i - 1 + j];
      }
    }
  }

  /** A subrange outside the replaced ones holds the value. */
  ghost predicate Outside(subs: seq<Sub>, i: int, j: int, x: int) {
    exists k :: 0 <= k < |subs| && (k < i || j <= k) && subs[k].low <= x < End(subs[k])
  }

  lemma ReplacedHasOnly(subs: seq<Sub>, i: nat, j: nat, s: Sub, x: int)
    requires i <= j <= |subs| && Has(Replaced(subs, i, j, s), x)
    ensures s.low <= x < End(s) || Outside(subs, i, j, x)
  {
    ReplacedAt(subs, i, j, s);
    var r := Replaced(subs, i, j, s);
    var k :| 0 <= k < |r| && r[k].low <= x < End(r[k]);
    var m := if k < i then k else if k == i then 0 else k - i - 1 + j;
    assert k != i ==> r[k] == subs[m];
  }

  lemma ReplacedHasAll(subs: seq<Sub>, i: nat, j: nat, s: Sub, x: int)
    requires i <= j <= |subs| && (s.low <= x < End(s) || Outside(subs, i, j, x))
    ensures Has(Replaced(subs, i, j, s), x)
  {
    ReplacedAt(subs, i, j, s);
    var r := Replaced(subs, i, j, s);
    if s.low <= x < End(s) {
      assert r[i].low <= x < End(r[i]);
    } else {
      var k :| 0 <= k < |subs| && (k < i || j <= k) && subs[k].low <= x < End(subs[k]);
      assert r[if k < i then k else k - j + i + 1] == subs[k];
    }
  }

  /** The values that the new ones touch: exactly the subranges from `i` to before `j`. */
  ghost predicate Touched(subs: seq<Sub>, low: u64, count: u64, i: int, j: int) {
    && 0 <= i <= j <= |subs| && FirstTouching(subs, low, i)
    && (forall k :: i <= k < j ==> subs[k].low <= low + count)
    && (forall k :: j <= k < |subs| ==> low + count < subs[k].low)
  }

  /** The subrange that covers the new values and all it touches. */
  function Merged(subs: seq<Sub>, low: u64, count: u64, i: nat, j: nat): (s: Sub)
    requires i <= j <= |subs| && count > 0 && low + count < TWO64
    requires forall k :: i <= k < j ==> subs[k].count > 0 && End(subs[k]) < TWO64
  {
    var l := if i < j then Min(low, subs[i].low) else low;
    var e := if i < j then Max(low + count, End(subs[j - 1])) else low + count;
    Sub(l, e - l)
  }

  /** Merging is set union. */
  lemma MergedMeans(subs: seq<Sub>, low: u64, count: u64, i: nat, j: nat)
    requires Sorted(subs) && count > 0 && low + count < TWO64 && Touched(subs, low, count, i, j)
    ensures
      var r := Replaced(subs, i, j, Merged(subs, low, count, i, j));
      Sorted(r) && forall x :: Has(r, x) <==> Has(subs, x) || low <= x < low + count
  {
    var s := Merged(subs, low, count, i, j);
    ReplacedSorted(subs, i, j, s);
    forall x: int
      ensures Has(Replaced(subs, i, j, s), x) <==> Has(subs, x) || low <= x < low + count
    {
      InMerged(subs, low, count, i, j, x);
      if Has(Replaced(subs, i, j, s), x) {
        ReplacedHasOnly(subs, i, j, s, x);
      }
      if s.low <= x < End(s) || Outside(subs, i, j, x) {
        ReplacedHasAll(subs, i, j, s, x);
      }
    }
  }

  lemma InMerged(subs: seq<Sub>, low: u64, count: u64, i: nat, j: nat, x: int)
    requires Sorted(subs) && count > 0 && low + count < TWO64 && Touched(subs, low, count, i, j)
    ensures
      var s := Merged(subs, low, count, i, j);
      s.low <= x < End(s) <==>
      low <= x < low + count || exists k :: i <= k < j && subs[k].low <= x < End(subs[k])
  {
    var s := Merged(subs, low, count, i, j);
    if i < j && s.low <= x < End(s) && !(low <= x < low + count) {
      if x < low {
        assert subs[i].low <= x < End(subs[i]);
      } else {
        assert subs[j - 1].low <= x < End(subs[j - 1]);
      }
    }
  }

  /** Some of the values are not there yet. */
  ghost predicate Adds(subs: seq<Sub>, low: u64, count: u64) {
    exists x :: low <= x < low + count && !Has(subs, x)
  }

  /** A subrange that covers the values, or, if none does, a value that is missing. */
  lemma AddsMeans(subs: seq<Sub>, low: u64, count: u64, i: nat)
    requires Sorted(subs) && count > 0 && low + count < TWO64 && FirstTouching(subs, low, i)
    ensures Adds(subs, low, count) <==> !(i < |subs| && subs[i].low <= low && low + count <= End(subs[i]))
  {
    if i < |subs| && subs[i].low <= low && low + count <= End(subs[i]) {
      forall x | low <= x < low + count
        ensures Has(subs, x)
      {
        assert subs[i].low <= x < End(subs[i]);
      }
    } else {
      var x := if i < |subs| && subs[i].low <= low then End(subs[i]) else low;
      assert low <= x < low + count && !Has(subs, x);
    }
  }

  /** QuicRangeMakeSpace when the array is full: the lowest subrange makes room. */
  lemma EvictionMeans(subs: seq<Sub>, s: Sub, i: nat)
    requires Sorted(subs) && 0 < i <= |subs|
    ensures
      var r := Replaced(subs[1..], i - 1, i - 1, s);
      && r == subs[1..i] + [s] + subs[i..]
      && forall x :: Has(subs[1..], x) <==> Has(subs, x) && x >= End(subs[0])
  {
    var t := subs[1..];
    assert t[..i - 1] == subs[1..i] && t[i - 1..] == subs[i..];
    forall x: int
      ensures Has(t, x) <==> Has(subs, x) && x >= End(subs[0])
    {
      if Has(t, x) {
        var k :| 0 <= k < |t| && t[k].low <= x < End(t[k]);
        assert subs[k + 1].low <= x < End(subs[k + 1]);
      }
      if Has(subs, x) && x >= End(subs[0]) {
        var k :| 0 <= k < |subs| && subs[k].low <= x < End(subs[k]);
        assert t[k - 1].low <= x < End(t[k - 1]);
      }
    }
  }

  class Range {
    var subs: seq<Sub>

    ghost predicate Valid()
      reads this
    {
      Sorted(subs) && |subs| <= 0x7FFF_FFFF
    }

    constructor ()
      ensures Valid() && subs == []
    {
      subs := [];
    }

    /**
     QuicRangeAddRange. `room` says that the array has room or can grow, `mayEvict` that the lowest
     subrange may be dropped instead. Adding is set union, and `updated` says that it changed the set.
     */
    method AddRange(low: u64, count: u64, room: bool, mayEvict: bool)
      returns (ok: bool, updated: bool, evicted: bool)
      requires Valid() && count > 0 && low + count < TWO64 && |subs| < 0x7FFF_FFFF
      modifies this
      ensures Valid() && |subs| <= |old(subs)| + 1
      ensures !ok ==> subs == old(subs) && !updated && !room && Adds(old(subs), low, count)
      ensures ok ==> (updated <==> Adds(old(subs), low, count))
      ensures evicted ==> ok && updated && !room && mayEvict && old(subs) != [] && End(old(subs)[0]) < low
      ensures ok && !evicted ==> forall x :: Has(subs, x) <==> Has(old(subs), x) || low <= x < low + count
      ensures evicted ==> forall x :: Has(subs, x) <==>
                (Has(old(subs), x) && x >= End(old(subs)[0])) || low <= x < low + count
    {
      ok, updated, evicted := false, false, false;
      var i := Locate(subs, low, count);
      AddsMeans(subs, low, count, i);
      if i == |subs| || subs[i].low > low + count {
        ok, evicted := Insert(low, count, i, room, mayEvict);
        updated := ok;
      } else {
        updated := Absorb(low, count, i);
        ok := true;
      }
    }

    method Insert(low: u64, count: u64, i: nat, room: bool, mayEvict: bool) returns (ok: bool, evicted: bool)
      requires Valid() && count > 0 && low + count < TWO64 && |subs| < 0x7FFF_FFFF
      requires Touched(subs, low, count, i, i)
      modifies this
      ensures Valid() && |subs| <= |old(subs)| + 1
      ensures !ok ==> subs == old(subs) && !room && !evicted
      ensures evicted ==> ok && !room && mayEvict && old(subs) != [] && End(old(subs)[0]) < low
      ensures ok && !evicted ==> forall x :: Has(subs, x) <==> Has(old(subs), x) || low <= x < low + count
      ensures evicted ==> forall x :: Has(subs, x) <==>
                (Has(old(subs), x) && x >= End(old(subs)[0])) || low <= x < low + count
    {
      ok, evicted := true, false;
      if room {
        MergedMeans(subs, low, count, i, i);
        subs := subs[..i] + [Sub(low, count)] + subs[i..];
      } else if !mayEvict || i == 0 {
        ok := false;
      } else {
        evicted := true;
        EvictionMeans(subs, Sub(low, count), i);
        MergedMeans(subs[1..], low, count, i - 1, i - 1);
        subs := subs[1..i] + [Sub(low, count)] + subs[i..];
      }
    }

    /** Expands the subrange at `i` and removes those that it then covers or touches. */
    method Absorb(low: u64, count: u64, i: nat) returns (updated: bool)
      requires Valid() && count > 0 && low + count < TWO64
      requires FirstTouching(subs, low, i) && i < |subs| && subs[i].low <= low + count
      modifies this
      ensures Valid() && |subs| <= |old(subs)|
      ensures updated <==> !(old(subs)[i].low <= low && low + count <= End(old(subs)[i]))
      ensures forall x :: Has(subs, x) <==> Has(old(subs), x) || low <= x < low + count
    {
      var s;
      s, updated := Expanded(subs[i], low, count);
      var j := i + 1;
      while j < |subs| && subs[j].low <= low + count
        invariant i < j <= |subs| && Valid() && subs == old(subs)
        invariant forall k :: i <= k < j ==> subs[k].low <= low + count
        invariant s == Merged(subs, low, count, i, j)
      {
        if End(subs[j]) > End(s) {
          s := s.(count := End(subs[j]) - s.low);
        }
        j := j + 1;
      }
      MergedMeans(subs, low, count, i, j);
      subs := subs[..i] + [s] + subs[j..];
    }
  }

  /** A subrange stretched over values that it overlaps or touches. */
  method Expanded(sub: Sub, low: u64, count: u64) returns (s: Sub, updated: bool)
    requires 0 < sub.count && End(sub) < TWO64 && 0 < count && low + count < TWO64
    ensures s.low == Min(low, sub.low) && End(s) == Max(low + count, End(sub))
    ensures updated <==> !(sub.low <= low && low + count <= End(sub))
  {
    s, updated := sub, false;
    if s.low > low {
      updated := true;
      s := Sub(low, s.count + (s.low - low));
    }
    if End(s) < low + count {
      updated := true;
      s := s.(count := low + count - s.low);
    }
  }

  // -- Duplicate packets -------------------------------------------------------------------------------

  /**
   The part of QUIC_ACK_TRACKER that recognises packets seen before. `accepted` are the packet numbers that were
   not reported as duplicates, and `forgotten` is where the highest subrange evicted so far ended.
   */
  class Tracker {
    const received: Range
    ghost var accepted: set<int>
    ghost var forgotten: int

    ghost predicate Valid()
      reads this, received
    {
      && received.Valid()
      && (forall x :: Has(received.subs, x) ==> x in accepted)
      && (forall x :: x in accepted && x >= forgotten ==> Has(received.subs, x))
    }

    constructor ()
      ensures Valid() && accepted == {} && forgotten == 0 && fresh(received)
    {
      received := new Range();
      accepted, forgotten := {}, 0;
    }

    /**
     QuicAckTrackerAddPacketNumber. A number is reported as a duplicate exactly if it is tracked or there is no
     room for it; so a number that was accepted before is accepted again only if it lies below what eviction has
     forgotten, is no longer tracked, and fits.
     */
    method AddPacketNumber(number: u64, room: bool, mayEvict: bool) returns (duplicate: bool)
      requires Valid() && number + 1 < TWO64 && |received.subs| < 0x7FFF_FFFF
      modifies this, received
      ensures Valid() && accepted == if duplicate then old(accepted) else old(accepted) + {number as int}
      ensures old(Has(received.subs, number)) ==> duplicate
      ensures duplicate ==> old(Has(received.subs, number)) || !room
      ensures number in old(accepted) && !duplicate ==> number < old(forgotten)
      ensures number in old(accepted) && number < old(forgotten) && room ==>
                (duplicate <==> old(Has(received.subs, number)))
      ensures forgotten >= old(forgotten) && (room || !mayEvict ==> forgotten == old(forgotten))
      ensures forgotten > old(forgotten) ==> forgotten < number && !duplicate
    {
      ghost var before := received.subs;
      HasOne(before, number);
      var ok, updated, evicted := received.AddRange(number, 1, room, mayEvict);
      duplicate := !ok || !updated;
      if evicted {
        forgotten := Max(forgotten, End(before[0]));
      }
      if !duplicate {
        accepted := accepted + {number as int};
      }
    }
  }

  lemma HasOne(subs: seq<Sub>, number: u64)
    ensures Adds(subs, number, 1) <==> !Has(subs, number)
  {
    if !Has(subs, number) {
      var x: int := number;
      assert number <= x < number + 1 && !Has(subs, x);
    }
  }

  // -- Reordering -------------------------------------------------------------------------------------------

  /** The number from which a missing packet has not been reported yet. */
  function LargestReported(subs: seq<Sub>, largestAcknowledged: u64, threshold: u8): u64
    requires subs != [] && End(subs[0]) + 0xFF < TWO64 && threshold > 0
  {
    if largestAcknowledged >= subs[0].low + threshold then largestAcknowledged - threshold + 1 else subs[0].low
  }

  /** A packet is missing that has not been reported and lies `threshold` or more below the largest one. */
  ghost predicate Reordered(subs: seq<Sub>, reported: u64, threshold: u8)
    requires subs != []
  {
    exists m :: MissingBelow(subs, reported, threshold, m)
  }

  ghost predicate MissingBelow(subs: seq<Sub>, reported: u64, threshold: u8, m: int)
    requires subs != []
  {
    reported <= m && !Has(subs, m) && End(subs[|subs| - 1]) - 1 - m >= threshold
  }

  /** QuicAckTrackerDidHitReorderingThreshold: the scan from the top finds such a packet exactly if there is one. */
  method DidHitReorderingThreshold(subs: seq<Sub>, largestAcknowledged: u64, threshold: u8) returns (hit: bool)
    requires Sorted(subs) && (subs != [] ==> End(subs[|subs| - 1]) + 0xFF < TWO64)
    ensures hit ==> threshold > 0 && |subs| >= 2
    ensures threshold > 0 && subs != [] ==>
              End(subs[0]) + 0xFF < TWO64 &&
              (hit <==> Reordered(subs, LargestReported(subs, largestAcknowledged, threshold), threshold))
  {
    if subs != [] {
      assert End(subs[0]) <= End(subs[|subs| - 1]);
    }
    if threshold == 0 || |subs| < 2 {
      if threshold > 0 && subs != [] {
        NothingMissing(subs, LargestReported(subs, largestAcknowledged, threshold), threshold);
      }
      return false;
    }
    var largest := End(subs[|subs| - 1]) - 1;
    var reported := LargestReported(subs, largestAcknowledged, threshold);
    var index := |subs| - 1;
    while index > 0
      invariant 0 <= index < |subs|
      invariant forall m :: MissingBelow(subs, reported, threshold, m) ==> m < subs[index].low
    {
      var start := subs[index].low;
      if reported >= start {
        return false;
      }
      var missing: u64 := End(subs[index - 1]);
      if reported > missing {
        missing := reported;
      }
      GapAt(subs, index, missing);
      var distance: u64 := largest - missing;
      if distance >= threshold {
        assert MissingBelow(subs, reported, threshold, missing);
        return true;
      }
      forall m
        ensures MissingBelow(subs, reported, threshold, m) ==> m < subs[index - 1].low
      {
        if subs[index - 1].low <= m < End(subs[index - 1]) {
          assert Has(subs, m);
        }
      }
      index := index - 1;
    }
    NothingMissing(subs, reported, threshold);
    return false;
  }

  /** A number in the gap before a subrange is missing. */
  lemma GapAt(subs: seq<Sub>, index: nat, m: int)
    requires Sorted(subs) && 0 < index < |subs| && End(subs[index - 1]) <= m < subs[index].low
    ensures !Has(subs, m)
  {
  }

  /** Below the first subrange nothing counts as unreported. */
  lemma NothingMissing(subs: seq<Sub>, reported: u64, threshold: u8)
    requires Sorted(subs) && subs != [] && threshold > 0 && subs[0].low <= reported
    requires |subs| == 1 || forall m :: MissingBelow(subs, reported, threshold, m) ==> m < subs[0].low
    ensures !Reordered(subs, reported, threshold)
  {
    forall m
      ensures !MissingBelow(subs, reported, threshold, m)
    {
      if |subs| == 1 && subs[0].low <= m < End(subs[0]) {
        assert Has(subs, m);
      }
    }
  }
}
