/**
 The BBR congestion controller: its phases, its windows and its sending allowance. The maxima of the
 two sliding windows (bandwidth and ack height) are inputs of each acknowledgement.
 */
module Bbr {
  import opened Prelude
  import opened Pacing
  import opened RateLimit

  const GAIN_UNIT: int := 256
  const HIGH_GAIN: int := 739
  const DRAIN_GAIN: int := 88
  const CWND_GAIN: int := 512
  const STARTUP_GROWTH: int := 320
  const SLOW_ROUND_LIMIT: int := 3
  const CYCLE: int := 8
  const PROBE_RTT_TIME: int := 200_000
  const MIN_RTT_EXPIRATION: int := 20_000_000
  const PACING_INTERVAL: int := 1000

  datatype Phase = Startup | Drain | ProbeBw | ProbeRtt

  datatype Recovery = NotRecovery | Conservative | Growth

  /** kPacingGain: probe, drain, then six rounds at the estimated bandwidth. */
  function PacingGainAt(i: nat): u32 {
    if i == 0 then 320 else if i == 1 then 192 else GAIN_UNIT
  }

  datatype Ack = Ack(
    implicit: bool, bytes: u32, totalBytes: u64, largestAck: u64, largestSent: u64, now: u64, minRtt: Option<u64>,
    hasLoss: bool, appLimited: bool, bandwidth: u64, ackHeight: u64, random: u32)

  datatype Loss = Loss(bytes: u32, largestSent: u64, persistent: bool)

  // -- What has happened so far ------------------------------------------------------------------------

  /**
   One acknowledgement as it was handled: `probing` says that it was handled in PROBE_RTT and
   `inFlight` is what was outstanding then. A reset of the controller is noted too.
   */
  datatype Note =
    | Acked(now: u64, probing: bool, inFlight: u32, newRound: bool, appLimited: bool, bandwidth: u64, after: Phase)
    | WasReset

  function NoteOf(ack: Ack, probing: bool, inFlight: u32, newRound: bool, after: Phase): Note {
    Acked(ack.now, probing, inFlight, newRound, ack.appLimited, ack.bandwidth, after)
  }

  /** The controller stayed in PROBE_RTT from note `i` until before note `k`. */
  ghost predicate InStay(log: seq<Note>, i: int, k: int)
    requires k <= |log|
  {
    0 <= i && forall m :: i <= m < k ==> log[m].Acked? && log[m].probing && log[m].after == ProbeRtt
  }

  /** Little enough was in flight to measure the round trip time. */
  predicate Low(n: Note, datagram: u16) {
    n.Acked? && n.inFlight < 21 * datagram
  }

  ghost predicate LeavesProbeRtt(n: Note) {
    n.Acked? && n.probing && n.after != ProbeRtt
  }

  /**
   Leaving PROBE_RTT at note `k` comes 200 ms or more after an ack with little in flight, in the same
   stay, with a new round trip in between.
   */
  ghost predicate ExitJustified(log: seq<Note>, k: int, datagram: u16)
    requires 0 <= k < |log| && LeavesProbeRtt(log[k])
  {
    exists i, j ::
      && 0 <= i < j <= k && InStay(log, i, k) && Low(log[i], datagram) && log[j].Acked? && log[j].newRound
      && (log[i].now + PROBE_RTT_TIME < TWO64 ==> log[k].now >= log[i].now + PROBE_RTT_TIME)
  }

  ghost predicate ExitsJustified(log: seq<Note>, datagram: u16) {
    forall k {:trigger ExitJustified(log, k, datagram)} ::
      0 <= k < |log| && LeavesProbeRtt(log[k]) ==> ExitJustified(log, k, datagram)
  }

  lemma ExitsPrefix(log: seq<Note>, n: Note, datagram: u16)
    requires ExitsJustified(log, datagram)
    requires LeavesProbeRtt(n) ==> ExitJustified(log + [n], |log|, datagram)
    ensures ExitsJustified(log + [n], datagram)
  {
    var all := log + [n];
    forall k | 0 <= k < |all| && LeavesProbeRtt(all[k])
      ensures ExitJustified(all, k, datagram)
    {
      if k < |log| {
        assert ExitJustified(log, k, datagram);
        var i, j :| 0 <= i < j <= k && InStay(log, i, k) && Low(log[i], datagram) && log[j].Acked? &&
                    log[j].newRound &&
                    (log[i].now + PROBE_RTT_TIME < TWO64 ==> log[k].now >= log[i].now + PROBE_RTT_TIME);
        assert InStay(all, i, k);
        assert all[i] == log[i] && all[j] == log[j] && all[k] == log[k];
      }
    }
  }

  lemma StayGrows(log: seq<Note>, i: nat, n: Note)
    requires i <= |log| && InStay(log, i, |log|) && n.Acked? && n.probing && n.after == ProbeRtt
    ensures InStay(log + [n], i, |log| + 1)
  {
  }

  lemma StayBefore(log: seq<Note>, i: nat, n: Note)
    requires i <= |log| && InStay(log, i, |log|)
    ensures InStay(log + [n], i, |log|)
  {
  }

  /** An ack handled in PROBE_RTT that sets no new end either continues the stay or leaves justly. */
  lemma NoteProbing(log: seq<Note>, lowAt: nat, roundAt: nat, n: Note, end: Option<u64>, round: Option<u64>,
                    datagram: u16)
    requires ExitsJustified(log, datagram) && n.Acked? && n.probing
    requires end.Some? ==>
               && lowAt < |log| && InStay(log, lowAt, |log|) && Low(log[lowAt], datagram)
               && end.value == Wrap64(log[lowAt].now + PROBE_RTT_TIME)
    requires round.Some? ==>
               end.Some? && lowAt < roundAt <= |log| && (log + [n])[roundAt].Acked? && (log + [n])[roundAt].newRound
    requires n.after != ProbeRtt ==> round.Some? && end.value <= n.now
    ensures ExitsJustified(log + [n], datagram)
    ensures n.after == ProbeRtt && end.Some? ==>
              && InStay(log + [n], lowAt, |log| + 1) && Low((log + [n])[lowAt], datagram)
              && end.value == Wrap64((log + [n])[lowAt].now + PROBE_RTT_TIME)
  {
    var all := log + [n];
    if end.Some? {
      assert all[lowAt] == log[lowAt];
      if n.after == ProbeRtt {
        StayGrows(log, lowAt, n);
      } else {
        StayBefore(log, lowAt, n);
        assert ExitJustified(all, |log|, datagram);
      }
    }
    ExitsPrefix(log, n, datagram);
  }

  /** The end of PROBE_RTT is set and reached, and a new round has been seen since it was set. */
  predicate ProbeRttOver(end: Option<u64>, round: Option<u64>, newRound: bool, now: u64) {
    end.Some? && end.value <= now && (round.Some? || newRound)
  }

  /** The phases that can follow a phase at an ack handled outside PROBE_RTT. */
  predicate Follows(p: Phase, q: Phase) {
    match p
    case Startup => q != Startup
    case Drain => q == ProbeBw || q == ProbeRtt
    case ProbeBw => q == ProbeRtt
    case ProbeRtt => false
  }

  // -- Finding the bottleneck -------------------------------------------------------------------------------

  /** The bandwidths of the rounds since the last reset that the application did not limit. */
  ghost function Rounds(log: seq<Note>): seq<u64> {
    if log == [] then []
    else
      var n := log[|log| - 1];
      if n.WasReset? then []
      else if n.newRound && !n.appLimited then Rounds(log[..|log| - 1]) + [n.bandwidth]
      else Rounds(log[..|log| - 1])
  }

  /** A quarter more, as it is computed. */
  function GrowthTarget(bandwidth: u64): u64 {
    Wrap64(bandwidth * STARTUP_GROWTH) / GAIN_UNIT
  }

  /** BtlbwFound, SlowStartupRoundCounter and LastEstimatedStartupBandwidth. */
  datatype Search = Search(found: bool, slow: nat, best: u64)

  /** One round of the search. */
  function Searched(s: Search, bandwidth: u64): Search {
    if s.found then s
    else if bandwidth >= GrowthTarget(s.best) then Search(false, 0, bandwidth)
    else Search(s.slow + 1 >= SLOW_ROUND_LIMIT, s.slow + 1, s.best)
  }

  /** The three rounds after round `k`, one after the other, did not bring a quarter more than it. */
  ghost predicate ThreeSlow(bs: seq<u64>, k: nat) {
    && k + 3 < |bs|
    && bs[k + 1] < GrowthTarget(bs[k]) && bs[k + 2] < GrowthTarget(bs[k]) && bs[k + 3] < GrowthTarget(bs[k])
  }

  /** The slow rounds counted are the last ones, all measured against the same best one. */
  ghost predicate SlowSoFar(bs: seq<u64>, s: Search) {
    if bs == [] then s == Search(false, 0, 0)
    else
      && s.slow < |bs| && s.slow < SLOW_ROUND_LIMIT && s.best == bs[|bs| - 1 - s.slow]
      && forall i :: |bs| - s.slow <= i < |bs| ==> bs[i] < GrowthTarget(s.best)
  }

  /** The bottleneck is found only by three rounds in a row without growth. */
  ghost predicate SearchOk(bs: seq<u64>, s: Search) {
    if s.found then exists k :: ThreeSlow(bs, k) else SlowSoFar(bs, s)
  }

  lemma SearchKept(bs: seq<u64>, s: Search, b: u64)
    requires SearchOk(bs, s)
    ensures SearchOk(bs + [b], Searched(s, b))
  {
    var all, n := bs + [b], |bs|;
    if s.found {
      var k :| ThreeSlow(bs, k);
      assert ThreeSlow(all, k);
    } else if bs != [] && b < GrowthTarget(s.best) {
      assert forall i :: n - s.slow <= i < n ==> all[i] == bs[i];
      if s.slow == 2 {
        assert ThreeSlow(all, n - 3);
      }
    }
  }

  /** What an ack does to the search: it counts when it starts a round that the application did not limit. */
  function SearchAfter(s: Search, newRound: bool, ack: Ack): Search {
    if newRound && !ack.appLimited then Searched(s, ack.bandwidth) else s
  }

  /** The search and the log move on together. */
  lemma NoteSearched(log: seq<Note>, n: Note, ack: Ack, s: Search, t: Search)
    requires n.Acked? && n == NoteOf(ack, n.probing, n.inFlight, n.newRound, n.after) && SearchOk(Rounds(log), s)
    requires t == SearchAfter(s, n.newRound, ack)
    ensures SearchOk(Rounds(log + [n]), t)
  {
    RoundsMore(log, n);
    SearchKept(Rounds(log), s, n.bandwidth);
  }

  lemma RoundsMore(log: seq<Note>, n: Note)
    ensures Rounds(log + [n]) ==
            if n.WasReset? then [] else if n.newRound && !n.appLimited then Rounds(log) + [n.bandwidth] else Rounds(log)
  {
    assert (log + [n])[..|log|] == log;
  }

  // -- Window arithmetic -----------------------------------------------------------------------------------

  /** The recovery window after a loss of `lost` bytes, with the sum in 32 bits. */
  function AfterLoss(window: u32, lost: u32, datagram: u16): u32 {
    if window > Wrap32(lost + 4 * datagram) then Wrap32(window - lost) else 4 * datagram
  }

  /**
   The recovery window keeps its floor of four datagrams exactly when the sum of the lost bytes and
   the floor fits in 32 bits, or the window was smaller than the loss.
   */
  lemma AfterLossFloor(window: u32, lost: u32, datagram: u16)
    requires datagram > 0
    ensures AfterLoss(window, lost, datagram) >= 4 * datagram <==> lost + 4 * datagram < TWO32 || window < lost
  {
    if lost + 4 * datagram >= TWO32 {
      assert Wrap32(lost + 4 * datagram) == lost + 4 * datagram - TWO32;
    }
    if window < lost {
      assert Wrap32(window - lost) == window - lost + TWO32;
    }
  }

  /** Entering recovery never breaks the floor, and a loss never widens the window otherwise. */
  lemma LossKeepsFloor(inFlight: u32, window: u32, lost: u32, datagram: u16)
    requires 0 < lost <= inFlight
    ensures datagram > 0 && window == Max(inFlight - lost, 4 * datagram) ==>
              AfterLoss(window, lost, datagram) >= 4 * datagram
    ensures datagram > 0 ==>
              (AfterLoss(window, lost, datagram) >= 4 * datagram <==> lost + 4 * datagram < TWO32 || window < lost)
    ensures lost + 4 * datagram < TWO32 ==>
              4 * datagram <= AfterLoss(window, lost, datagram) <= Max(window, 4 * datagram)
  {
    if datagram > 0 {
      AfterLossFloor(window, lost, datagram);
    }
  }

  /** A window that moves towards its target by no more than was acknowledged. */
  function GrownWindow(found: bool, datagram: u16, target: u32, ackHeight: u64, initial: u32, window: u32,
                       totalBytes: u64, bytes: u32): u32 {
    if found then Max(4 * datagram, Wrap32(Min(Wrap64(target + ackHeight), window + bytes)))
    else if window < target || totalBytes < initial then Max(4 * datagram, Wrap32(window + bytes))
    else Max(4 * datagram, window)
  }

  /**
   The window keeps its floor of four datagrams and grows by no more than was acknowledged. Once the bottleneck is
   found it follows the target and the ack height, no higher and as soon as it may; before that it does not shrink,
   and below the target it grows by all that was acknowledged.
   */
  predicate WindowBounded(found: bool, datagram: u16, target: u32, ackHeight: u64, window: u32, bytes: u32,
                          after: u32) {
    && 4 * datagram <= after <= Max(window + bytes, 4 * datagram)
    && (found ==> after <= Max(4 * datagram, Wrap64(target + ackHeight)))
    && (window + bytes < TWO32 ==>
          if found then after >= Min(window + bytes, Wrap64(target + ackHeight))
          else after >= window && (window < target ==> after >= window + bytes))
  }

  lemma GrownWindowBounded(found: bool, datagram: u16, target: u32, ackHeight: u64, initial: u32, window: u32,
                           totalBytes: u64, bytes: u32)
    ensures WindowBounded(found, datagram, target, ackHeight, window, bytes,
                          GrownWindow(found, datagram, target, ackHeight, initial, window, totalBytes, bytes))
  {
  }

  /** ShouldAdvancePacingGainCycle, before the in-flight conditions: the difference as it is computed. */
  predicate CycleElapsed(now: u64, start: u64, minRtt: u64) {
    Wrap64(start - now) > minRtt
  }

  /**
   The difference is taken the wrong way round, so the cycle does not wait for a round trip: from its
   start on, any later time counts as elapsed, until the clock is within a round trip of wrapping.
   */
  lemma CycleElapsedMeans(now: u64, start: u64, minRtt: u64)
    requires start <= now
    ensures CycleElapsed(now, start, minRtt) <==> start < now && now - start < TWO64 - minRtt
  {
    if start < now {
      assert Wrap64(start - now) == start - now + TWO64;
    }
  }

  /** Recovery ends with an ack past its end that reports no loss, and grows from the next round trip on. */
  function RecoveryAfter(r: Recovery, end: Option<u64>, ack: Ack, newRound: bool): Recovery
    requires r != NotRecovery ==> end.Some?
  {
    if r == NotRecovery || (!ack.hasLoss && end.value < ack.largestAck) then NotRecovery
    else if newRound then Growth
    else r
  }

  // What decides how an ack is handled.
  datatype Moment = Moment(
    phase: Phase, exitingQuiescence: bool, endOfRoundTrip: Option<u64>, recovery: Recovery,
    endOfRecovery: Option<u64>, probeRttEnd: Option<u64>, probeRttRound: Option<u64>)

  /**
   How an ack is handled and noted: whether it starts a round, what it does to recovery, when it is handled in
   PROBE_RTT, which phases can follow, and when PROBE_RTT is left.
   */
  ghost predicate Noted(n: Note, ack: Ack, was: Moment, phase: Phase, recovery: Recovery, inFlight: u32,
                        expired: bool) {
    && n.Acked? && n == NoteOf(ack, n.probing, inFlight, n.newRound, phase)
    && (n.newRound <==> was.endOfRoundTrip.None? || was.endOfRoundTrip.value < ack.largestAck)
    && (was.recovery != NotRecovery ==> was.endOfRecovery.Some?)
    && recovery == RecoveryAfter(was.recovery, was.endOfRecovery, ack, n.newRound)
    && PhaseNoted(n, ack, was, phase, expired)
  }

  ghost predicate PhaseNoted(n: Note, ack: Ack, was: Moment, phase: Phase, expired: bool)
    requires n.Acked?
  {
    && (was.phase == ProbeRtt ==> n.probing)
    && (n.probing ==> was.phase == ProbeRtt || (!was.exitingQuiescence && expired))
    && (!n.probing ==> phase == was.phase || Follows(was.phase, phase))
    && (was.phase == ProbeRtt ==>
          (phase != ProbeRtt <==> ProbeRttOver(was.probeRttEnd, was.probeRttRound, n.newRound, ack.now)))
  }

  // -- The controller ------------------------------------------------------------------------------------------

  class Controller {
    const datagram: u16
    const initialPackets: u32
    const limiter: Limiter

    var phase: Phase
    var pacingGain: u32
    var cwndGain: u32
    var cycleIndex: u32
    var cycleStart: u64
    var found: bool
    var slowRounds: nat
    var startupBandwidth: u64

    var roundTrips: u64
    var endOfRoundTrip: Option<u64>

    var recovery: Recovery
    var endOfRecovery: Option<u64>
    var recoveryWindow: u32

    var probeRttEnd: Option<u64>
    var probeRttRound: Option<u64>

    var rttSampleExpired: bool
    var minRttValid: bool
    var minRtt: u64
    var minRttTime: u64

    var exitingQuiescence: bool
    var inFlight: u32
    var cwnd: u32
    var initialWindow: u32
    var sendQuantum: u64
    var bandwidth: u64
    var ackHeight: u64

    ghost var log: seq<Note>
    // The notes of the low-in-flight ack of this stay in PROBE_RTT, and of the new round after it.
    ghost var lowAt: nat
    ghost var roundAt: nat

    /** The phase determines the gains, and what is known of the bottleneck. */
    ghost predicate PhaseOk()
      reads `phase, `found, `pacingGain, `cwndGain, `cycleIndex
    {
      match phase
      case Startup => !found && pacingGain == HIGH_GAIN && cwndGain == HIGH_GAIN
      case Drain => found && pacingGain == DRAIN_GAIN && cwndGain == HIGH_GAIN
      case ProbeBw => found && cycleIndex < CYCLE && pacingGain == PacingGainAt(cycleIndex) && cwndGain == CWND_GAIN
      case ProbeRtt => pacingGain == GAIN_UNIT
    }

    /** The end of PROBE_RTT is set by an ack of this stay, and the round by a later one. */
    ghost predicate StayOk()
      reads `phase, `probeRttEnd, `probeRttRound, `log, `lowAt, `roundAt
    {
      phase == ProbeRtt ==>
        && (probeRttEnd.Some? ==>
              && lowAt < |log| && InStay(log, lowAt, |log|) && Low(log[lowAt], datagram)
              && probeRttEnd.value == Wrap64(log[lowAt].now + PROBE_RTT_TIME))
        && (probeRttRound.Some? ==>
              probeRttEnd.Some? && lowAt < roundAt < |log| && log[roundAt].Acked? && log[roundAt].newRound)
    }

    ghost function SearchState(): Search
      reads `found, `slowRounds, `startupBandwidth
    {
      Search(found, slowRounds, startupBandwidth)
    }

    /** What the log says of the search for the bottleneck: apart from Valid(), since only acks and resets touch it. */
    ghost predicate SearchValid()
      reads `log, `found, `slowRounds, `startupBandwidth
    {
      SearchOk(Rounds(log), SearchState())
    }

    /** What holds of the phases, of every stay in PROBE_RTT so far, and of recovery. */
    ghost predicate Steady()
      reads `phase, `found, `pacingGain, `cwndGain, `cycleIndex, `probeRttEnd, `probeRttRound, `log, `lowAt, `roundAt,
            `recovery, `endOfRecovery
    {
      && PhaseOk() && StayOk() && ExitsJustified(log, datagram)
      && (recovery != NotRecovery ==> endOfRecovery.Some?)
    }

    ghost predicate Valid()
      reads this, limiter
    {
      Steady() && Ok(limiter.View())
    }

    /** In every state, a bottleneck that was found was found by three rounds in a row without growth. */
    lemma FoundAfterThreeSlowRounds()
      requires SearchValid() && found
      ensures exists k :: ThreeSlow(Rounds(log), k)
    {
    }

    ghost function Snapshot(): Moment
      reads `phase, `exitingQuiescence, `endOfRoundTrip, `recovery, `endOfRecovery, `probeRttEnd, `probeRttRound
    {
      Moment(phase, exitingQuiescence, endOfRoundTrip, recovery, endOfRecovery, probeRttEnd, probeRttRound)
    }

    /** Both windows are at least four datagrams. */
    ghost predicate WindowsOk()
      reads `cwnd, `recoveryWindow
    {
      cwnd >= 4 * datagram && recoveryWindow >= 4 * datagram
    }

    constructor (s: Settings, datagram: u16, initialPackets: u32)
      ensures Valid() && SearchValid() && phase == Startup && log == [] && inFlight == 0 && recovery == NotRecovery
      ensures this.datagram == datagram && this.initialPackets == initialPackets
      ensures fresh(limiter) && limiter.View() == if Limited(s) then Fresh(datagram) else OFF
      ensures initialPackets >= 4 && initialPackets * datagram < TWO32 ==> WindowsOk()
    {
      this.datagram, this.initialPackets := datagram, initialPackets;
      limiter := new Limiter();
      phase, pacingGain, cwndGain, found := Startup, HIGH_GAIN, HIGH_GAIN, false;
      cycleIndex, cycleStart, slowRounds, startupBandwidth := 0, 0, 0, 0;
      roundTrips, endOfRoundTrip := 0, None;
      recovery, endOfRecovery, recoveryWindow := NotRecovery, None, 2000 * datagram;
      probeRttEnd, probeRttRound := None, None;
      rttSampleExpired, minRttValid, minRtt, minRttTime := true, false, U64_MAX, 0;
      exitingQuiescence, inFlight, sendQuantum, bandwidth, ackHeight := false, 0, 0, 0, 0;
      cwnd, initialWindow := Wrap32(initialPackets * datagram), Wrap32(initialPackets * datagram);
      log := [];
      new;
      limiter.Initialize(s, datagram);
    }

    /** BbrCongestionControlGetCongestionWindow. */
    function Window(): u32
      reads `phase, `recovery, `cwnd, `recoveryWindow
    {
      if phase == ProbeRtt then 20 * datagram
      else if recovery != NotRecovery then Min(cwnd, recoveryWindow)
      else cwnd
    }

    /** In every state the effective window allows four datagrams. */
    lemma WindowFloor()
      requires WindowsOk()
      ensures Window() >= 4 * datagram
    {
    }

    /** BbrCongestionControlGetTargetCwnd. */
    function TargetCwnd(gain: u32): u32
      reads `bandwidth, `minRttValid, `minRtt, `initialWindow, `sendQuantum
    {
      if bandwidth == 0 || !minRttValid then Wrap32(gain * initialWindow / GAIN_UNIT)
      else
        var bdp := Wrap64(bandwidth * minRtt) / MICROS / 8;
        Wrap32(Wrap64(Wrap64(bdp * gain) / GAIN_UNIT + 3 * sendQuantum))
    }

    // -- Transitions ---------------------------------------------------------------------------------

    method TransitToProbeBw(now: u64, random: u32)
      modifies `phase, `cwndGain, `cycleIndex, `pacingGain, `cycleStart
      ensures phase == ProbeBw && cwndGain == CWND_GAIN && cycleStart == now
      ensures cycleIndex < CYCLE && cycleIndex != 1 && pacingGain == PacingGainAt(cycleIndex)
    {
      phase := ProbeBw;
      cwndGain := CWND_GAIN;
      cycleIndex := (random % (CYCLE - 1) + 2) % CYCLE;
      pacingGain := PacingGainAt(cycleIndex);
      cycleStart := now;
    }

    method TransitToStartup()
      modifies `phase, `pacingGain, `cwndGain
      ensures phase == Startup && pacingGain == HIGH_GAIN && cwndGain == HIGH_GAIN
    {
      phase := Startup;
      pacingGain := HIGH_GAIN;
      cwndGain := HIGH_GAIN;
    }

    method TransitToDrain()
      modifies `phase, `pacingGain, `cwndGain
      ensures phase == Drain && pacingGain == DRAIN_GAIN && cwndGain == HIGH_GAIN
    {
      phase := Drain;
      pacingGain := DRAIN_GAIN;
      cwndGain := HIGH_GAIN;
    }

    method TransitToProbeRtt()
      modifies `phase, `pacingGain, `probeRttEnd, `probeRttRound
      ensures phase == ProbeRtt && pacingGain == GAIN_UNIT && probeRttEnd.None? && probeRttRound.None?
    {
      phase := ProbeRtt;
      pacingGain := GAIN_UNIT;
      probeRttEnd := None;
      probeRttRound := None;
    }

    // -- The steps of an acknowledgement ---------------------------------------------------------------

    /** A smaller sample, or any sample once the old one is 20 s old, becomes the minimum. */
    method UpdateMinRtt(ack: Ack)
      modifies `rttSampleExpired, `minRtt, `minRttTime, `minRttValid
      ensures ack.minRtt.None? ==> minRtt == old(minRtt) && rttSampleExpired == old(rttSampleExpired)
      ensures ack.minRtt.Some? ==>
                && rttSampleExpired == (old(minRttValid) && Wrap64(old(minRttTime) + MIN_RTT_EXPIRATION) <= ack.now)
                && minRtt == if rttSampleExpired then ack.minRtt.value else Min(old(minRtt), ack.minRtt.value)
      ensures
        var replaced := ack.minRtt.Some? && (rttSampleExpired || ack.minRtt.value < old(minRtt));
        && minRttTime == (if replaced then ack.now else old(minRttTime))
        && minRttValid == (replaced || old(minRttValid))
    {
      if ack.minRtt.Some? {
        rttSampleExpired := minRttValid && Wrap64(minRttTime + MIN_RTT_EXPIRATION) <= ack.now;
        if rttSampleExpired || minRtt > ack.minRtt.value {
          minRtt := ack.minRtt.value;
          minRttTime := ack.now;
          minRttValid := true;
        }
      }
    }

    method UpdateRound(ack: Ack) returns (newRound: bool)
      modifies `roundTrips, `endOfRoundTrip
      ensures newRound <==> old(endOfRoundTrip).None? || old(endOfRoundTrip).value < ack.largestAck
      ensures endOfRoundTrip == if newRound then Some(ack.largestSent) else old(endOfRoundTrip)
      ensures roundTrips == if newRound then Wrap64(old(roundTrips) + 1) else old(roundTrips)
    {
      newRound := false;
      if endOfRoundTrip.None? || endOfRoundTrip.value < ack.largestAck {
        roundTrips := Wrap64(roundTrips + 1);
        endOfRoundTrip := Some(ack.largestSent);
        newRound := true;
      }
    }

    /** BbrCongestionControlUpdateRecoveryWindow. */
    method UpdateRecoveryWindow(bytes: u32)
      requires recovery != NotRecovery
      modifies `recoveryWindow
      ensures recoveryWindow >= 4 * datagram
      ensures inFlight + bytes < TWO32 ==> recoveryWindow >= inFlight + bytes
      ensures recovery == Growth && old(recoveryWindow) + bytes < TWO32 ==>
                recoveryWindow >= old(recoveryWindow) + bytes
      ensures recovery == Conservative ==>
                recoveryWindow == Max(old(recoveryWindow), Max(Wrap32(inFlight + bytes), 4 * datagram))
      ensures recovery == Growth ==>
                recoveryWindow == Max(Wrap32(old(recoveryWindow) + bytes), Max(Wrap32(inFlight + bytes), 4 * datagram))
    {
      if recovery == Growth {
        recoveryWindow := Wrap32(recoveryWindow + bytes);
      }
      var window := Max(recoveryWindow, Wrap32(inFlight + bytes));
      recoveryWindow := Max(window, 4 * datagram);
    }

    /** Recovery ends with an ack past its end that reports no loss. */
    method UpdateRecovery(ack: Ack, newRound: bool)
      requires recovery != NotRecovery ==> endOfRecovery.Some?
      modifies `recovery, `recoveryWindow
      ensures old(recoveryWindow) >= 4 * datagram ==> recoveryWindow >= 4 * datagram
      ensures recovery == RecoveryAfter(old(recovery), endOfRecovery, ack, newRound)
      ensures recovery != NotRecovery ==> recoveryWindow >= 4 * datagram
      ensures recovery == NotRecovery ==> recoveryWindow == old(recoveryWindow)
    {
      if recovery != NotRecovery {
        if newRound && recovery != Growth {
          recovery := Growth;
        }
        if !ack.hasLoss && endOfRecovery.value < ack.largestAck {
          recovery := NotRecovery;
        } else {
          UpdateRecoveryWindow(ack.bytes);
        }
      }
    }

    /**
     When the gain cycle moves on: a low gain ends as soon as the queue is drained, a high one lasts until the
     pipe is full or losses show, and otherwise time decides.
     */
    predicate CycleMoves(ack: Ack, previousInFlight: u32)
      reads this
    {
      || (pacingGain < GAIN_UNIT && inFlight <= TargetCwnd(GAIN_UNIT))
      || (CycleElapsed(ack.now, cycleStart, minRtt) &&
          (pacingGain <= GAIN_UNIT || ack.hasLoss || previousInFlight >= TargetCwnd(pacingGain)))
    }

    /** At the plain gain the cycle moves on within a round trip: at any later ack, however early. */
    lemma CycleMovesEarly(ack: Ack, previousInFlight: u32)
      requires pacingGain == GAIN_UNIT && cycleStart < ack.now && ack.now - cycleStart < minRtt < 0x8000_0000_0000_0000
      ensures CycleMoves(ack, previousInFlight)
    {
      CycleElapsedMeans(ack.now, cycleStart, minRtt);
    }

    /** The gain cycle of PROBE_BW. */
    method AdvanceCycle(ack: Ack, previousInFlight: u32)
      requires phase == ProbeBw ==> cycleIndex < CYCLE && pacingGain == PacingGainAt(cycleIndex)
      modifies `cycleIndex, `cycleStart, `pacingGain
      ensures phase != ProbeBw ==> pacingGain == old(pacingGain) && cycleIndex == old(cycleIndex)
      ensures phase == ProbeBw ==> cycleIndex < CYCLE && pacingGain == PacingGainAt(cycleIndex)
      ensures
        var moves := phase == ProbeBw && old(CycleMoves(ack, previousInFlight));
        && cycleIndex == (if moves then (old(cycleIndex) + 1) % CYCLE else old(cycleIndex))
        && cycleStart == (if moves then ack.now else old(cycleStart))
    {
      if phase == ProbeBw {
        var advance := CycleElapsed(ack.now, cycleStart, minRtt);
        if pacingGain > GAIN_UNIT && !ack.hasLoss && previousInFlight < TargetCwnd(pacingGain) {
          advance := false;
        }
        if pacingGain < GAIN_UNIT {
          if inFlight <= TargetCwnd(GAIN_UNIT) {
            advance := true;
          }
        }
        if advance {
          cycleIndex := (cycleIndex + 1) % CYCLE;
          cycleStart := ack.now;
          pacingGain := PacingGainAt(cycleIndex);
        }
      }
    }

    /** Three rounds in which the bandwidth did not grow by a quarter mean that it was found. */
    method CheckStartup(ack: Ack, newRound: bool)
      requires bandwidth == ack.bandwidth
      modifies `found, `slowRounds, `startupBandwidth
      ensures SearchState() == SearchAfter(old(SearchState()), newRound, ack)
    {
      if !found && newRound && !ack.appLimited {
        var target := GrowthTarget(startupBandwidth);
        if bandwidth >= target {
          startupBandwidth := bandwidth;
          slowRounds := 0;
        } else {
          slowRounds := slowRounds + 1;
          if slowRounds >= SLOW_ROUND_LIMIT {
            found := true;
          }
        }
      }
    }

    method LeaveProbeRtt(ack: Ack)
      modifies `minRttTime, `minRttValid, `phase, `cwndGain, `cycleIndex, `pacingGain, `cycleStart
      ensures PhaseOk() && phase == (if found then ProbeBw else Startup) && minRttTime == ack.now && minRttValid
    {
      minRttTime := ack.now;
      minRttValid := true;
      if found {
        TransitToProbeBw(ack.now, ack.random);
      } else {
        TransitToStartup();
      }
    }

    /** What an ack seen in PROBE_RTT does, and the note taken of it. */
    method HandleAckInProbeRtt(ack: Ack, newRound: bool)
      requires phase == ProbeRtt && pacingGain == GAIN_UNIT && StayOk() && ExitsJustified(log, datagram)
      modifies `phase, `cwndGain, `cycleIndex, `pacingGain, `cycleStart, `probeRttEnd, `probeRttRound,
               `minRttTime, `minRttValid, `log, `lowAt, `roundAt
      ensures PhaseOk() && StayOk() && ExitsJustified(log, datagram)
      ensures log == old(log) + [NoteOf(ack, true, inFlight, newRound, phase)]
      ensures phase == ProbeRtt || phase == if found then ProbeBw else Startup
      ensures phase != ProbeRtt <==> ProbeRttOver(old(probeRttEnd), old(probeRttRound), newRound, ack.now)
      ensures phase == ProbeRtt ==> minRttTime == old(minRttTime) && minRttValid == old(minRttValid)
      ensures phase != ProbeRtt ==> minRttTime == ack.now && minRttValid && old(probeRttEnd).Some?
      ensures old(probeRttEnd).None? ==>
                && probeRttEnd == (if inFlight < 21 * datagram then Some(Wrap64(ack.now + PROBE_RTT_TIME)) else None)
                && (probeRttEnd.Some? ==> probeRttRound.None?)
      ensures old(probeRttEnd).Some? ==>
                && probeRttEnd == old(probeRttEnd)
                && (probeRttRound.Some? <==> old(probeRttRound).Some? || newRound)
    {
      ghost var i := |log|;
      if probeRttEnd.None? && inFlight < Window() + datagram {
        probeRttEnd := Some(Wrap64(ack.now + PROBE_RTT_TIME));
        probeRttRound := None;
        ExitsPrefix(log, NoteOf(ack, true, inFlight, newRound, phase), datagram);
        log := log + [NoteOf(ack, true, inFlight, newRound, phase)];
        lowAt := i;
        return;
      }
      if probeRttEnd.Some? {
        if probeRttRound.None? && newRound {
          probeRttRound := Some(roundTrips);
          roundAt := i;
        }
        if probeRttRound.Some? && probeRttEnd.value <= ack.now {
          LeaveProbeRtt(ack);
        }
      }
      NoteProbing(log, lowAt, roundAt, NoteOf(ack, true, inFlight, newRound, phase), probeRttEnd, probeRttRound,
                  datagram);
      log := log + [NoteOf(ack, true, inFlight, newRound, phase)];
    }

    /** BbrCongestionControlSetSendQuantum. */
    method SetSendQuantum()
      modifies `sendQuantum
      ensures
        var rate := Wrap64(bandwidth * pacingGain) / GAIN_UNIT;
        sendQuantum ==
        if rate < 9_600_000 then datagram else if rate < 192_000_000 then 2 * datagram
        else Min(Wrap64(rate * 1000) / 8, 65536)
    {
      var rate := Wrap64(bandwidth * pacingGain) / GAIN_UNIT;
      if rate < 1_200_000 * 8 {
        sendQuantum := datagram;
      } else if rate < 24_000_000 * 8 {
        sendQuantum := datagram * 2;
      } else {
        sendQuantum := Min(Wrap64(rate * 1000) / 8, 65536);
      }
    }

    /** The congestion window after an ack: towards the target, by no more than was acknowledged. */
    function WindowAfter(window: u32, totalBytes: u64, bytes: u32): u32
      reads `phase, `found, `cwndGain, `ackHeight, `bandwidth, `minRttValid, `minRtt, `initialWindow, `sendQuantum
    {
      if phase == ProbeRtt then window
      else GrownWindow(found, datagram, TargetCwnd(cwndGain), ackHeight, initialWindow, window, totalBytes, bytes)
    }

    /** BbrCongestionControlUpdateCongestionWindow. */
    method UpdateCongestionWindow(totalBytes: u64, bytes: u32)
      modifies `cwnd, `sendQuantum
      ensures cwnd == WindowAfter(old(cwnd), totalBytes, bytes)
      ensures phase == ProbeRtt ==> cwnd == old(cwnd)
      ensures phase != ProbeRtt ==> cwnd >= 4 * datagram
      ensures phase != ProbeRtt ==>
                WindowBounded(found, datagram, TargetCwnd(cwndGain), ackHeight, old(cwnd), bytes, cwnd)
    {
      if phase == ProbeRtt {
        return;
      }
      SetSendQuantum();
      cwnd := Grow(TargetCwnd(cwndGain), cwnd, totalBytes, bytes);
    }

    method Grow(targetCwnd: u32, cwnd: u32, totalBytes: u64, bytes: u32) returns (window: u32)
      ensures window == GrownWindow(found, datagram, targetCwnd, ackHeight, initialWindow, cwnd, totalBytes, bytes)
      ensures WindowBounded(found, datagram, targetCwnd, ackHeight, cwnd, bytes, window)
    {
      GrownWindowBounded(found, datagram, targetCwnd, ackHeight, initialWindow, cwnd, totalBytes, bytes);
      var target: u64 := targetCwnd;
      if found {
        target := Wrap64(target + ackHeight);
      }
      window := cwnd;
      if found {
        window := Wrap32(Min(target, window + bytes));
      } else if window < target || totalBytes < initialWindow {
        window := Wrap32(window + bytes);
      }
      window := Max(window, 4 * datagram);
    }

    // -- The events -------------------------------------------------------------------------------------

    /** From STARTUP to DRAIN when the bottleneck was found, and on to PROBE_BW when the queue is drained. */
    method LeaveStartup(ack: Ack)
      requires phase == Startup || PhaseOk()
      modifies `phase, `pacingGain, `cwndGain, `cycleIndex, `cycleStart
      ensures old(phase) == Startup && !found && old(PhaseOk()) ==> PhaseOk()
      ensures old(phase) != Startup || found ==> PhaseOk()
      ensures phase == old(phase) || (Follows(old(phase), phase) && phase != ProbeRtt)
      ensures phase == Drain ==> inFlight > TargetCwnd(GAIN_UNIT)
      ensures old(phase) == Startup && found ==> phase != Startup
    {
      if phase == Startup && found {
        TransitToDrain();
      }
      if phase == Drain && inFlight <= TargetCwnd(GAIN_UNIT) {
        TransitToProbeBw(ack.now, ack.random);
      }
    }

    /** The gain cycle, the end of STARTUP and the end of DRAIN. */
    method FollowBandwidth(ack: Ack, newRound: bool, previousInFlight: u32)
      requires PhaseOk() && bandwidth == ack.bandwidth
      modifies `phase, `pacingGain, `cwndGain, `cycleIndex, `cycleStart, `found, `slowRounds, `startupBandwidth
      ensures PhaseOk() && (old(found) ==> found)
      ensures SearchState() == SearchAfter(old(SearchState()), newRound, ack)
      ensures phase == old(phase) || (Follows(old(phase), phase) && phase != ProbeRtt)
      ensures phase == Drain ==> inFlight > TargetCwnd(GAIN_UNIT)
    {
      AdvanceCycle(ack, previousInFlight);
      CheckStartup(ack, newRound);
      LeaveStartup(ack);
    }

    /** The phases up to the handling of PROBE_RTT. */
    method UpdatePhase(ack: Ack, newRound: bool, previousInFlight: u32)
      requires PhaseOk() && bandwidth == ack.bandwidth
      modifies `phase, `pacingGain, `cwndGain, `cycleIndex, `cycleStart, `found, `slowRounds, `startupBandwidth,
               `probeRttEnd, `probeRttRound, `exitingQuiescence
      ensures PhaseOk() && (old(found) ==> found)
      ensures SearchState() == SearchAfter(old(SearchState()), newRound, ack)
      ensures phase == old(phase) || Follows(old(phase), phase)
      ensures phase == ProbeRtt <==>
                old(phase) == ProbeRtt || (!old(exitingQuiescence) && minRttValid && rttSampleExpired)
      ensures old(phase) == ProbeRtt ==> probeRttEnd == old(probeRttEnd) && probeRttRound == old(probeRttRound)
      ensures old(phase) != ProbeRtt && phase == ProbeRtt ==> probeRttEnd.None? && probeRttRound.None?
      ensures phase == Drain ==> inFlight > TargetCwnd(GAIN_UNIT)
      ensures !exitingQuiescence
    {
      FollowBandwidth(ack, newRound, previousInFlight);
      if phase != ProbeRtt && !exitingQuiescence && minRttValid && rttSampleExpired {
        TransitToProbeRtt();
      }
      exitingQuiescence := false;
    }

    /** The measurements taken from an ack, and the recovery state. */
    method Observe(ack: Ack) returns (newRound: bool)
      requires ack.bytes <= inFlight && (recovery != NotRecovery ==> endOfRecovery.Some?)
      modifies `inFlight, `rttSampleExpired, `minRtt, `minRttTime, `minRttValid, `roundTrips, `endOfRoundTrip,
               `bandwidth, `recovery, `recoveryWindow, `ackHeight
      ensures inFlight == old(inFlight) - ack.bytes
      ensures newRound <==> old(endOfRoundTrip).None? || old(endOfRoundTrip).value < ack.largestAck
      ensures old(recoveryWindow) >= 4 * datagram ==> recoveryWindow >= 4 * datagram
      ensures recovery == RecoveryAfter(old(recovery), endOfRecovery, ack, newRound)
      ensures bandwidth == ack.bandwidth && ackHeight == ack.ackHeight
      ensures ack.minRtt.Some? ==>
                minRtt <= ack.minRtt.value && minRttValid == (old(minRttValid) || minRtt != old(minRtt))
    {
      inFlight := inFlight - ack.bytes;
      UpdateMinRtt(ack);
      newRound := UpdateRound(ack);
      bandwidth := ack.bandwidth;
      UpdateRecovery(ack, newRound);
      ackHeight := ack.ackHeight;
    }

    method UpdateAndNotePhase(ack: Ack, newRound: bool, previousInFlight: u32) returns (ghost probing: bool)
      requires PhaseOk() && StayOk() && ExitsJustified(log, datagram) && bandwidth == ack.bandwidth
      modifies `phase, `pacingGain, `cwndGain, `cycleIndex, `cycleStart, `found, `slowRounds, `startupBandwidth,
               `probeRttEnd, `probeRttRound, `exitingQuiescence, `minRttTime, `minRttValid, `log, `lowAt, `roundAt
      ensures PhaseOk() && StayOk() && ExitsJustified(log, datagram) && (old(found) ==> found)
      ensures SearchState() == SearchAfter(old(SearchState()), newRound, ack)
      ensures log == old(log) + [NoteOf(ack, probing, inFlight, newRound, phase)]
      ensures probing <==>
                old(phase) == ProbeRtt || (!old(exitingQuiescence) && old(minRttValid) && rttSampleExpired)
      ensures PhaseNoted(NoteOf(ack, probing, inFlight, newRound, phase), ack, old(Snapshot()), phase, rttSampleExpired)
    {
      UpdatePhase(ack, newRound, previousInFlight);
      probing := phase == ProbeRtt;
      if phase == ProbeRtt {
        HandleAckInProbeRtt(ack, newRound);
      } else {
        ExitsPrefix(log, NoteOf(ack, false, inFlight, newRound, phase), datagram);
        log := log + [NoteOf(ack, false, inFlight, newRound, phase)];
      }
    }

    /** BbrCongestionControlOnDataAcknowledged. */
    method OnDataAcknowledged(ack: Ack) returns (ghost n: Note)
      requires Valid() && SearchValid() && (!ack.implicit ==> ack.bytes <= inFlight)
      modifies this
      ensures Valid() && SearchValid() && (old(WindowsOk()) ==> WindowsOk()) && (old(found) ==> found)
      ensures cwnd == WindowAfter(old(cwnd), ack.totalBytes, ack.bytes)
      ensures ack.implicit ==> log == old(log) && phase == old(phase) && inFlight == old(inFlight)
      ensures !ack.implicit ==>
                && inFlight == old(inFlight) - ack.bytes && log == old(log) + [n]
                && Noted(n, ack, old(Snapshot()), phase, recovery, inFlight, rttSampleExpired)
    {
      n := WasReset;
      if !ack.implicit {
        n := HandleAck(ack);
      }
      UpdateCongestionWindow(ack.totalBytes, ack.bytes);
    }

    /** The measurements, then the phases, and the note taken of both. */
    method ObserveAndNote(ack: Ack) returns (ghost n: Note)
      requires Steady() && ack.bytes <= inFlight
      modifies `inFlight, `rttSampleExpired, `minRtt, `minRttTime, `minRttValid, `roundTrips, `endOfRoundTrip,
               `bandwidth, `recovery, `recoveryWindow, `ackHeight, `phase, `pacingGain, `cwndGain, `cycleIndex,
               `cycleStart, `found, `slowRounds, `startupBandwidth, `probeRttEnd, `probeRttRound, `exitingQuiescence,
               `log, `lowAt, `roundAt
      ensures Steady() && (old(found) ==> found)
      ensures n.Acked? && SearchState() == SearchAfter(old(SearchState()), n.newRound, ack)
      ensures old(recoveryWindow) >= 4 * datagram ==> recoveryWindow >= 4 * datagram
      ensures inFlight == old(inFlight) - ack.bytes && log == old(log) + [n]
      ensures Noted(n, ack, old(Snapshot()), phase, recovery, inFlight, rttSampleExpired)
    {
      var previousInFlight := inFlight;
      var newRound := Observe(ack);
      ghost var probing := UpdateAndNotePhase(ack, newRound, previousInFlight);
      n := NoteOf(ack, probing, inFlight, newRound, phase);
    }

    /** An ack that is not implicit. */
    method HandleAck(ack: Ack) returns (ghost n: Note)
      requires Valid() && SearchValid() && ack.bytes <= inFlight
      modifies `inFlight, `rttSampleExpired, `minRtt, `minRttTime, `minRttValid, `roundTrips, `endOfRoundTrip,
               `bandwidth, `recovery, `recoveryWindow, `ackHeight, `phase, `pacingGain, `cwndGain, `cycleIndex,
               `cycleStart, `found, `slowRounds, `startupBandwidth, `probeRttEnd, `probeRttRound, `exitingQuiescence,
               `log, `lowAt, `roundAt
      ensures Valid() && SearchValid() && (old(found) ==> found)
      ensures old(recoveryWindow) >= 4 * datagram ==> recoveryWindow >= 4 * datagram
      ensures inFlight == old(inFlight) - ack.bytes && log == old(log) + [n]
      ensures Noted(n, ack, old(Snapshot()), phase, recovery, inFlight, rttSampleExpired)
    {
      n := ObserveAndNote(ack);
      NoteSearched(old(log), n, ack, old(SearchState()), SearchState());
    }

    /** BbrCongestionControlOnDataSent. */
    method OnDataSent(s: Settings, bytes: u32, appLimited: bool)
      requires Valid()
      modifies `inFlight, `exitingQuiescence, limiter
      ensures Valid() && (old(WindowsOk()) ==> WindowsOk()) && inFlight == Wrap32(old(inFlight) + bytes)
      ensures limiter.View() == Step(old(limiter.View()), Sent(s, datagram, bytes))
      ensures exitingQuiescence == (old(exitingQuiescence) || (old(inFlight) == 0 && appLimited))
    {
      StepOk(limiter.View(), Sent(s, datagram, bytes));
      limiter.Spend(s, datagram, bytes);
      if inFlight == 0 && appLimited {
        exitingQuiescence := true;
      }
      inFlight := Wrap32(inFlight + bytes);
    }

    /** BbrCongestionControlOnDataInvalidated. */
    method OnDataInvalidated(bytes: u32)
      requires Valid() && bytes <= inFlight
      modifies `inFlight
      ensures Valid() && (old(WindowsOk()) ==> WindowsOk()) && inFlight == old(inFlight) - bytes
    {
      inFlight := inFlight - bytes;
    }

    /** BbrCongestionControlOnDataLost. */
    method OnDataLost(loss: Loss)
      requires Valid() && 0 < loss.bytes <= inFlight
      modifies `endOfRecovery, `inFlight, `recovery, `endOfRoundTrip, `recoveryWindow
      ensures Valid() && inFlight == old(inFlight) - loss.bytes
      ensures recovery != NotRecovery && endOfRecovery == Some(loss.largestSent)
      ensures old(recovery) == NotRecovery ==> recovery == Conservative && endOfRoundTrip == Some(loss.largestSent)
      ensures old(recovery) != NotRecovery ==> recovery == old(recovery) && endOfRoundTrip == old(endOfRoundTrip)
      ensures datagram > 0 ==>
                (recoveryWindow >= 4 * datagram <==>
                   || loss.persistent || loss.bytes + 4 * datagram < TWO32
                   || old(recovery) == NotRecovery || old(recoveryWindow) < loss.bytes)
      ensures loss.bytes + 4 * datagram < TWO32 ==>
                && recoveryWindow >= 4 * datagram
                && (old(recovery) == NotRecovery ==> recoveryWindow <= Max(inFlight, 4 * datagram))
                && (old(recovery) != NotRecovery ==> recoveryWindow <= Max(old(recoveryWindow), 4 * datagram))
      ensures loss.persistent ==> recoveryWindow == 4 * datagram
      ensures !loss.persistent ==>
                recoveryWindow == AfterLoss(if old(recovery) == NotRecovery then Max(inFlight, 4 * datagram)
                                            else old(recoveryWindow), loss.bytes, datagram)
    {
      var window := EnterRecovery(loss);
      LossKeepsFloor(old(inFlight), window, loss.bytes, datagram);
      if loss.persistent {
        recoveryWindow := 4 * datagram;
      } else {
        recoveryWindow := AfterLoss(window, loss.bytes, datagram);
      }
    }

    /** A loss starts recovery, with a window for what is still in flight, or moves its end. */
    method EnterRecovery(loss: Loss) returns (window: u32)
      requires loss.bytes <= inFlight
      modifies `endOfRecovery, `inFlight, `recovery, `endOfRoundTrip
      ensures inFlight == old(inFlight) - loss.bytes && endOfRecovery == Some(loss.largestSent)
      ensures if old(recovery) == NotRecovery
              then recovery == Conservative && endOfRoundTrip == Some(loss.largestSent) &&
                   window == Max(inFlight, 4 * datagram)
              else recovery == old(recovery) && endOfRoundTrip == old(endOfRoundTrip) && window == recoveryWindow
    {
      endOfRecovery := Some(loss.largestSent);
      inFlight := inFlight - loss.bytes;
      window := recoveryWindow;
      if recovery == NotRecovery {
        recovery := Conservative;
        window := inFlight;
        window := Max(window, 4 * datagram);
        endOfRoundTrip := Some(loss.largestSent);
      }
    }

    /** BbrCongestionControlReset. */
    method Reset(s: Settings, full: bool)
      requires Valid()
      modifies this, limiter
      ensures Valid() && SearchValid() && phase == Startup && recovery == NotRecovery
      ensures log == old(log) + [WasReset]
      ensures inFlight == if full then 0 else old(inFlight)
      ensures initialPackets >= 4 && initialPackets * datagram < TWO32 ==> WindowsOk()
      ensures limiter.View() == if Limited(s) then Fresh(datagram) else OFF
    {
      ResetWindows(full);
      ResetPhase();
      ResetMeasurements();
      ExitsPrefix(log, WasReset, datagram);
      RoundsMore(log, WasReset);
      log := log + [WasReset];
      limiter.Initialize(s, datagram);
    }

    method ResetWindows(full: bool)
      modifies `cwnd, `initialWindow, `recoveryWindow, `inFlight, `sendQuantum
      ensures cwnd == initialWindow == Wrap32(initialPackets * datagram) && recoveryWindow == 2000 * datagram
      ensures inFlight == if full then 0 else old(inFlight)
    {
      cwnd, initialWindow := Wrap32(initialPackets * datagram), Wrap32(initialPackets * datagram);
      recoveryWindow := 2000 * datagram;
      if full {
        inFlight := 0;
      }
      sendQuantum := 0;
    }

    method ResetPhase()
      modifies `recovery, `phase, `cwndGain, `pacingGain, `found, `slowRounds, `cycleIndex, `exitingQuiescence,
               `startupBandwidth, `cycleStart, `endOfRecovery, `probeRttEnd, `probeRttRound
      ensures phase == Startup && recovery == NotRecovery && PhaseOk() && SearchState() == Search(false, 0, 0)
    {
      recovery, phase := NotRecovery, Startup;
      cwndGain, pacingGain, found := HIGH_GAIN, HIGH_GAIN, false;
      slowRounds, cycleIndex, exitingQuiescence, startupBandwidth, cycleStart := 0, 0, false, 0, 0;
      endOfRecovery, probeRttEnd, probeRttRound := None, None, None;
    }

    method ResetMeasurements()
      modifies `roundTrips, `endOfRoundTrip, `rttSampleExpired, `minRttValid, `minRtt, `minRttTime, `bandwidth,
               `ackHeight
      ensures endOfRoundTrip.None? && rttSampleExpired && !minRttValid && minRtt == U64_MAX && bandwidth == 0
    {
      roundTrips, endOfRoundTrip := 0, None;
      rttSampleExpired, minRttValid, minRtt, minRttTime := true, false, U64_MAX, 0;
      bandwidth, ackHeight := 0, 0;
    }

    // -- The allowance ---------------------------------------------------------------------------------------

    predicate CanPace(s: Settings, elapsed: Option<u64>)
      reads this
    {
      elapsed.Some? && s.pacing && minRttValid && minRtt >= PACING_INTERVAL
    }

    /** What the bandwidth estimate alone would allow: products that may wrap. */
    function ByTime(elapsed: u64): u64
      reads this
    {
      var paced := Wrap64(Wrap64(bandwidth * pacingGain) * elapsed) / GAIN_UNIT;
      var share := Wrap64(Window() * pacingGain) / GAIN_UNIT;
      if phase == Startup then Max(paced, if share > inFlight then share - inFlight else 0) else paced
    }

    /** Layers A and B of the allowance: the paced share of the window, and the minimum rate. */
    method Layered(s: Settings, elapsed: u64, byTime: u64, window: u32, room: u32) returns (allowance: u32)
      requires room <= window
      ensures
        allowance == Min(room, if s.minRate == 0 then Min(byTime, window / 4)
                               else Max(Min(byTime, Min(room, window / 4)), s.minRate * Min(elapsed, U32_MAX) / MICROS))
    {
      var time: u64 := byTime;
      time := Min(time, room);
      time := Min(time, window / 4);
      if s.minRate != 0 {
        MultiplyDivideExact(s.minRate, Min(elapsed, U32_MAX), MICROS);
        var floor := MultiplyDivide(s.minRate, Min(elapsed, U32_MAX), MICROS);
        time := Min(Max(time, floor), room);
      }
      allowance := Min(time, U32_MAX);
    }

    /**
     The paced allowance is the bandwidth's share, at most a quarter of the window, unless the minimum rate asks
     for more; and never more than the window leaves.
     */
    method PacedAllowance(s: Settings, elapsed: u64) returns (allowance: u32)
      requires inFlight < Window()
      ensures allowance <= Window() - inFlight
      ensures allowance <= Max(Window() / 4, s.minRate * Min(elapsed, U32_MAX) / MICROS)
      ensures allowance >= Min(Window() - inFlight, Min(ByTime(elapsed), Window() / 4))
      ensures s.minRate != 0 ==> allowance >= Min(Window() - inFlight, s.minRate * Min(elapsed, U32_MAX) / MICROS)
    {
      var byTime := ByTime(elapsed);
      allowance := Layered(s, elapsed, byTime, Window(), Window() - inFlight);
    }

    /** BbrCongestionControlGetSendAllowance. */
    method GetSendAllowance(s: Settings, elapsed: Option<u64>) returns (allowance: u32)
      requires Valid()
      modifies limiter
      ensures Valid()
      ensures
        limiter.View() ==
        Step(old(limiter.View()), Allow(s, datagram, if minRttValid then Some(minRtt) else None, elapsed))
      ensures allowance <= if inFlight < Window() then Window() - inFlight else 0
      ensures Limited(s) ==> allowance <= limiter.budget && (limiter.budget < datagram ==> allowance == 0)
      ensures inFlight < Window() && !CanPace(s, elapsed) && (Limited(s) ==> limiter.budget >= datagram) ==>
                allowance == Min(Window() - inFlight, if Limited(s) then limiter.budget else U32_MAX)
      ensures CanPace(s, elapsed) && s.minRate != 0 && !Limited(s) && inFlight < Window() ==>
                allowance >= Min(Window() - inFlight, s.minRate * Min(elapsed.value, U32_MAX) / MICROS)
      ensures CanPace(s, elapsed) && inFlight < Window() && (Limited(s) ==> limiter.budget >= datagram) ==>
                allowance >= Min(Min(Window() - inFlight, if Limited(s) then limiter.budget else U32_MAX),
                                 Min(ByTime(elapsed.value), Window() / 4))
      ensures CanPace(s, elapsed) ==>
                allowance <= Max(Window() / 4, s.minRate * Min(elapsed.value, U32_MAX) / MICROS)
    {
      StepOk(limiter.View(), Allow(s, datagram, if minRttValid then Some(minRtt) else None, elapsed));
      limiter.Update(s, datagram, if minRttValid then Some(minRtt) else None, elapsed);
      if inFlight >= Window() {
        return 0;
      }
      if elapsed.None? || !s.pacing || !minRttValid || minRtt < PACING_INTERVAL {
        allowance := Window() - inFlight;
      } else {
        allowance := PacedAllowance(s, elapsed.value);
      }
      if !(s.pacing && s.maxRate != 0) || !limiter.on {
        return;
      }
      if limiter.budget < datagram {
        return 0;
      }
      allowance := Min(allowance, Min(limiter.budget, U32_MAX));
    }
  }

  /** A run in which the recovery window falls below its floor: it takes almost 2^32 bytes in flight. */
  method LossFloorBroken() returns (c: Controller)
    ensures c.Valid() && c.recovery != NotRecovery && c.recoveryWindow < 4 * c.datagram
  {
    c := new Controller(Settings(false, 0, 0), 1200, 10);
    c.OnDataSent(Settings(false, 0, 0), 0xFFFF_FFFF, false);
    c.OnDataLost(Loss(1, 0, false));
    c.OnDataLost(Loss(0xFFFF_F000, 0, false));
  }
}
