/** How a connection closes, from the first close to the completion of its shutdown. */
module Closing {
  import opened Prelude
  import opened Timers

  const IDLE: nat := 4
  const SHUTDOWN: nat := 5

  /** The QUIC_CLOSE_* flags. */
  datatype CloseFlags = CloseFlags(silent: bool, notify: bool, application: bool, remote: bool, isStatus: bool)

  /** CloseStatus and CloseErrorCode follow from which of the two the close was given. */
  datatype Reason = FromStatus(status: u64) | FromError(code: u64)

  /** The first close cancels the idle timer. */
  function TimesAfter(times: seq<u64>, first: bool, arms: bool, at: u64): seq<u64>
    requires |times| == TIMERS
  {
    var armed := if arms then times[SHUTDOWN := at] else times;
    if first then armed[IDLE := U64_MAX] else armed
  }

  class Closer {
    const isClient: bool
    const timers: ConnTimers

    var connected: bool
    var externalOwner: bool
    var closedLocally: bool
    var closedRemotely: bool
    var closedSilently: bool
    var appClosed: bool
    var reason: Option<Reason>
    var processShutdownComplete: bool
    var shutdownComplete: bool
    var timedOut: bool

    // Shutdown timer operations in the queue, and events indicated to the application.
    var expiries: nat
    var begins: nat
    var completions: nat
    // An operation for the expired shutdown timer could not be allocated.
    var lost: bool

    ghost predicate Closed()
      reads this
    {
      closedLocally || closedRemotely
    }

    predicate SideOpen(remote: bool)
      reads this
    {
      if remote then !closedRemotely else !closedLocally
    }

    /**
     The closes that start a closing or draining period: the first one, unless it is silent or refuses a client,
     and a second one on the server.
     */
    predicate Arms(flags: CloseFlags)
      reads this
    {
      && SideOpen(flags.remote) && !flags.silent
      && if closedLocally || closedRemotely then !isClient else !(flags.remote && !connected && isClient)
    }

    ghost predicate Armed()
      reads this, timers, timers.times
      requires timers.Valid()
    {
      timers.times[SHUTDOWN] != U64_MAX
    }

    ghost predicate Valid()
      reads this, timers, timers.times
    {
      && timers.Valid()
      && (Closed() <==> reason.Some?)
      && (Armed() || expiries > 0 ==> Closed())
      && (Closed() && !lost ==> processShutdownComplete || shutdownComplete || Armed() || expiries > 0)
      && (closedLocally && closedRemotely ==> processShutdownComplete || shutdownComplete)
      && begins <= (if Closed() then 1 else 0) && completions <= (if shutdownComplete then 1 else 0)
    }

    /** What no step takes back. */
    twostate predicate Forward()
      reads this
    {
      && (old(closedLocally) ==> closedLocally) && (old(closedRemotely) ==> closedRemotely)
      && (old(shutdownComplete) ==> shutdownComplete) && (old(appClosed) ==> appClosed)
      && (old(reason).Some? ==> reason == old(reason))
      && old(completions) <= completions && old(begins) <= begins
    }

    constructor (isClient: bool, externalOwner: bool)
      ensures Valid() && !Closed() && !shutdownComplete && completions == 0 && !lost
      ensures fresh(timers) && fresh(timers.times)
    {
      this.isClient, this.externalOwner := isClient, externalOwner;
      timers := new ConnTimers();
      connected, closedLocally, closedRemotely, closedSilently, appClosed := false, false, false, false, false;
      reason, processShutdownComplete, shutdownComplete, timedOut := None, false, false, false;
      expiries, begins, completions, lost := 0, 0, 0, false;
      new;
      assert timers.times[..][SHUTDOWN] >= timers.earliest;
    }

    /** QuicConnOnShutdownComplete. */
    method OnShutdownComplete()
      requires Valid()
      modifies `processShutdownComplete, `shutdownComplete, `completions
      ensures Valid() && Forward() && shutdownComplete && !processShutdownComplete
      ensures completions == old(completions) + if !old(shutdownComplete) && externalOwner then 1 else 0
    {
      processShutdownComplete := false;
      if shutdownComplete {
        return;
      }
      shutdownComplete := true;
      if externalOwner {
        completions := completions + 1;
      }
    }

    /** QuicConnTryClose. `now` and `delay` are the clock and the length of the closing or draining period. */
    method TryClose(flags: CloseFlags, code: u64, now: u64, delay: u64)
      requires Valid() && !(flags.remote && flags.silent)
      requires Wrap64(now + delay) < U64_MAX
      modifies this, timers, timers.times
      ensures Valid() && Forward()
      ensures closedSilently == flags.silent
      ensures flags.remote ==> closedRemotely && closedLocally == old(closedLocally)
      ensures !flags.remote ==> closedLocally && closedRemotely == old(closedRemotely)
      ensures !old(Closed()) ==> reason == Some(if flags.isStatus then FromStatus(code) else FromError(code))
      ensures timers.times[..] ==
              TimesAfter(old(timers.times[..]), !old(Closed()), old(Arms(flags)), Wrap64(now + delay))
      ensures !old(Closed()) && !old(Arms(flags)) ==> processShutdownComplete
      ensures !old(Closed()) ==>
                && begins == old(begins) + (if flags.notify && externalOwner then 1 else 0)
                && (appClosed <==> old(appClosed) || flags.application)
      ensures old(Closed()) ==> begins == old(begins) && appClosed == old(appClosed)
      ensures !flags.remote && old(SideOpen(false)) && !externalOwner ==> processShutdownComplete
      ensures flags.silent && !old(closedLocally && closedRemotely) ==> processShutdownComplete && !timedOut
      ensures shutdownComplete == old(shutdownComplete) && completions == old(completions)
      ensures expiries == old(expiries) && lost == old(lost)
    {
      closedSilently := flags.silent;
      if !SideOpen(flags.remote) {
        if flags.silent && closedLocally && !closedRemotely {
          timedOut := false;
          processShutdownComplete := true;
        }
        return;
      }
      Close(flags, code, now, delay);
    }

    /** The close of a side that was open. */
    method Close(flags: CloseFlags, code: u64, now: u64, delay: u64)
      requires Valid() && !(flags.remote && flags.silent)
      requires Wrap64(now + delay) < U64_MAX
      requires SideOpen(flags.remote)
      modifies `closedLocally, `closedRemotely, `processShutdownComplete, `timedOut, `reason, `appClosed, `begins,
               timers, timers.times
      ensures Valid() && Forward()
      ensures flags.remote ==> closedRemotely && closedLocally == old(closedLocally)
      ensures !flags.remote ==> closedLocally && closedRemotely == old(closedRemotely)
      ensures !old(Closed()) ==> reason == Some(if flags.isStatus then FromStatus(code) else FromError(code))
      ensures timers.times[..] ==
              TimesAfter(old(timers.times[..]), !old(Closed()), old(Arms(flags)), Wrap64(now + delay))
      ensures !old(Closed()) && !old(Arms(flags)) ==> processShutdownComplete
      ensures !old(Closed()) ==>
                && begins == old(begins) + (if flags.notify && externalOwner then 1 else 0)
                && (appClosed <==> old(appClosed) || flags.application)
      ensures old(Closed()) ==> begins == old(begins) && appClosed == old(appClosed)
      ensures !flags.remote && old(SideOpen(false)) && !externalOwner ==> processShutdownComplete
      ensures flags.silent ==> processShutdownComplete && !timedOut
    {
      if flags.remote {
        closedRemotely := true;
      } else {
        closedLocally := true;
        if !externalOwner {
          processShutdownComplete := true;
        }
      }
      var silent := Begin(flags, code, now, delay);
      if silent || (closedRemotely && closedLocally) {
        timedOut := false;
        processShutdownComplete := true;
      }
    }

    /** The period and, for the first close, what only it does. */
    method Begin(flags: CloseFlags, code: u64, now: u64, delay: u64) returns (silent: bool)
      requires timers.Valid() && !SideOpen(flags.remote) && Wrap64(now + delay) < U64_MAX
      modifies `timedOut, `reason, `appClosed, `begins, timers, timers.times
      ensures
        var first := !(closedLocally && closedRemotely);
        && silent == (flags.silent || (first && flags.remote && !connected && isClient))
        && timers.Valid()
        && timers.times[..] ==
           TimesAfter(old(timers.times[..]), first, !silent && (first || !isClient), Wrap64(now + delay))
        && (if first then
              && reason == Some(if flags.isStatus then FromStatus(code) else FromError(code))
              && appClosed == (old(appClosed) || flags.application) && timedOut
              && begins == old(begins) + if flags.notify && externalOwner then 1 else 0
            else reason == old(reason) && appClosed == old(appClosed) && begins == old(begins))
    {
      var isFirst;
      silent, isFirst := EnterPeriod(flags, now, delay);
      if isFirst {
        FirstClose(flags, code);
      }
    }

    /** The closing or draining period begins, unless the close is silent or completes the other side's. */
    method EnterPeriod(flags: CloseFlags, now: u64, delay: u64) returns (silent: bool, isFirst: bool)
      requires timers.Valid() && !SideOpen(flags.remote)
      requires Wrap64(now + delay) < U64_MAX
      modifies timers, timers.times
      ensures timers.Valid() && (isFirst <==> !(closedLocally && closedRemotely))
      ensures silent == (flags.silent || (isFirst && flags.remote && !connected && isClient))
      ensures timers.times[..] ==
              if !silent && (isFirst || !isClient) then old(timers.times[..])[SHUTDOWN := Wrap64(now + delay)]
              else old(timers.times[..])
    {
      silent, isFirst := flags.silent, true;
      if flags.remote && !closedLocally {
        if !connected && isClient {
          silent := true;
        }
        if !silent {
          timers.Set(SHUTDOWN, delay, now);
        }
      } else if !flags.remote && !closedRemotely {
        if !silent {
          timers.Set(SHUTDOWN, delay, now);
        }
      } else {
        if !isClient && !silent {
          timers.Set(SHUTDOWN, delay, now);
        }
        isFirst := false;
      }
    }

    method CancelOtherTimers()
      requires timers.Valid()
      modifies timers, timers.times
      ensures timers.Valid() && timers.times[..] == old(timers.times[..])[IDLE := U64_MAX]
    {
      ghost var before: seq<u64> := timers.times[..];
      for t := IDLE to SHUTDOWN
        invariant timers.Valid()
        invariant timers.times[..] == if t == IDLE then before else before[IDLE := U64_MAX]
      {
        timers.Cancel(t);
      }
    }

    /** What only the first close does. The loop over timers covers the idle timer alone. */
    method FirstClose(flags: CloseFlags, code: u64)
      requires timers.Valid()
      modifies `timedOut, `reason, `appClosed, `begins, timers, timers.times
      ensures timers.Valid() && timers.times[..] == old(timers.times[..])[IDLE := U64_MAX]
      ensures reason == Some(if flags.isStatus then FromStatus(code) else FromError(code))
      ensures appClosed == (old(appClosed) || flags.application) && timedOut
      ensures begins == old(begins) + if flags.notify && externalOwner then 1 else 0
    {
      timedOut := true;
      CancelOtherTimers();
      reason := Some(if flags.isStatus then FromStatus(code) else FromError(code));
      if flags.application {
        appClosed := true;
      }
      if flags.notify && externalOwner {
        begins := begins + 1;
      }
    }

    /** QuicConnTimerExpired for this connection; `canAllocate` says whether an operation can be allocated. */
    method OnTimersExpired(now: u64, canAllocate: bool)
      requires Valid() && now < U64_MAX
      modifies this, timers, timers.times
      ensures Valid() && Forward() && closedSilently == old(closedSilently)
      ensures lost == (old(lost) || (old(timers.times[SHUTDOWN]) <= now && !canAllocate))
      ensures shutdownComplete == old(shutdownComplete) && completions == old(completions)
    {
      ghost var before: seq<u64> := timers.times[..];
      var queued, flush := timers.Expired(now);
      DueOnce(before, now, SHUTDOWN);
      assert timers.times[SHUTDOWN] == timers.times[..][SHUTDOWN] == Fired(before, now)[SHUTDOWN];
      if SHUTDOWN in queued {
        if canAllocate {
          expiries := expiries + 1;
        } else {
          lost := true;
        }
      }
    }

    /** A timer other than the shutdown timer is set or cancelled. */
    method OnOtherTimer(t: nat, arm: bool, now: u64, delay: u64)
      requires Valid() && t < TIMERS && t != SHUTDOWN
      modifies timers, timers.times
      ensures Valid()
    {
      ghost var before: seq<u64> := timers.times[..];
      if arm {
        timers.Set(t, delay, now);
      } else {
        timers.Cancel(t);
      }
      assert timers.times[..][SHUTDOWN] == before[SHUTDOWN];
    }

    /** The worker takes a TIMER_EXPIRED operation of the shutdown timer from the queue. */
    method OnShutdownTimer()
      requires Valid() && expiries > 0
      modifies `expiries, `closedRemotely, `processShutdownComplete
      ensures Valid() && Forward() && closedSilently == old(closedSilently)
      ensures !old(shutdownComplete) ==> closedRemotely && processShutdownComplete
    {
      expiries := expiries - 1;
      if shutdownComplete {
        return;
      }
      closedRemotely := true;
      processShutdownComplete := true;
    }

    /** The end of QuicConnDrainOperations: completion that is due happens. */
    method EndDrain()
      requires Valid()
      modifies `processShutdownComplete, `shutdownComplete, `completions
      ensures Valid() && Forward() && !processShutdownComplete
      ensures old(processShutdownComplete) ==> shutdownComplete
    {
      if processShutdownComplete {
        OnShutdownComplete();
      }
    }

    /** QuicConnCloseHandle: the application's close always completes, and nothing is left to wait for. */
    method CloseHandle(status: u64, now: u64)
      requires Valid() && now < U64_MAX
      modifies this, timers, timers.times
      ensures Valid() && Forward() && closedLocally && closedSilently
      ensures shutdownComplete && !processShutdownComplete && lost == old(lost)
    {
      TryClose(CloseFlags(true, false, false, false, true), status, now, 0);
      if processShutdownComplete {
        OnShutdownComplete();
      }
    }

    /** The owner and the handshake, which other code changes. */
    method OnHandshake(connected: bool, externalOwner: bool)
      requires Valid()
      modifies `connected, `externalOwner
      ensures Valid() && Forward()
    {
      this.connected, this.externalOwner := connected, externalOwner;
    }
  }

  // -- Whole runs -----------------------------------------------------------------------------------

  // The calls that the worker, the timers and the application make, in any order.
  datatype Event =
    | Closes(flags: CloseFlags, code: u64, now: u64, delay: u64)
    | Tick(now: u64, canAllocate: bool)
    | OtherTimer(t: nat, arm: bool, now: u64, delay: u64)
    | ShutdownTimer
    | DrainEnds
    | HandleCloses(status: u64, now: u64)
    | Handshake(connected: bool, externalOwner: bool)
    | Abandoned

  /** What callers respect: a remote close is not silent, other timers are not the shutdown timer. */
  predicate Proper(e: Event) {
    match e
    case Closes(flags, _, now, delay) => !(flags.remote && flags.silent) && Wrap64(now + delay) < U64_MAX
    case Tick(now, _) => now < U64_MAX
    case OtherTimer(t, _, _, _) => t < TIMERS && t != SHUTDOWN
    case HandleCloses(_, now) => now < U64_MAX
    case _ => true
  }

  method Apply(c: Closer, e: Event)
    requires c.Valid() && Proper(e)
    modifies c, c.timers, c.timers.times
    ensures c.Valid() && c.Forward()
    ensures c.lost ==> old(c.lost) || (e.Tick? && !e.canAllocate)
  {
    match e
    case Closes(flags, code, now, delay) => c.TryClose(flags, code, now, delay);
    case Tick(now, canAllocate) => c.OnTimersExpired(now, canAllocate);
    case OtherTimer(t, arm, now, delay) => c.OnOtherTimer(t, arm, now, delay);
    case ShutdownTimer =>
      if c.expiries > 0 {
        c.OnShutdownTimer();
      }
    case DrainEnds => c.EndDrain();
    case HandleCloses(status, now) => c.CloseHandle(status, now);
    case Handshake(connected, externalOwner) => c.OnHandshake(connected, externalOwner);
    case Abandoned =>
      if !c.externalOwner {
        c.OnShutdownComplete();
      }
  }

  /**
   Over any run: the sides that are closed stay closed, the reason is that of the first close, completion is
   indicated at most once, and as long as operations can be allocated a closed connection always has its
   completion behind it, pending, or announced by the shutdown timer or its operation.
   */
  method Run(c: Closer, events: seq<Event>)
    requires c.Valid() && forall i :: 0 <= i < |events| ==> Proper(events[i])
    modifies c, c.timers, c.timers.times
    ensures c.Valid() && c.Forward() && c.completions <= 1
    ensures
      !old(c.lost) && (forall i :: 0 <= i < |events| && events[i].Tick? ==> events[i].canAllocate) && c.Closed() ==>
        c.shutdownComplete || c.processShutdownComplete || c.Armed() || c.expiries > 0
  {
    for i := 0 to |events|
      invariant c.Valid() && c.Forward()
      invariant c.lost ==> old(c.lost) || exists k :: 0 <= k < i && events[k].Tick? && !events[k].canAllocate
    {
      Apply(c, events[i]);
    }
  }
}
