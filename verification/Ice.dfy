/**
 The ICE datapath extension of a binding, as an interleaving of atomic steps.

 One step is one lock section, one compare-and-swap, one reference-count or
 rundown operation, one atomic load, or the start or the return of one
 application callback. Any number of threads run at the same time; a schedule
 picks, at every moment, the thread that moves and the outcome of whatever the
 step cannot decide by itself (an allocation, the socket's MTU cap, the call a
 thread makes next).
 */
module Ice {
  import opened Prelude
  import opened ThreadSum

  // The fields two configurations must share to be compatible.
  type Config = nat
  type ListenerId = nat

  datatype Path = Unselected | Installing | Direct | Relay

  // Progress of QuicBindingUninitialize, run by the thread whose release
  // brought the reference count to zero.
  datatype Tear = NotStarted | SetClosing | DropRundown | WaitRundown | SwapBound | InUnbound | Done

  // -- Program counters, one datatype per procedure ---------------------------

  // QuicBindingReserveIceExtension
  datatype ReservePc = ReserveAddRef | ReserveLock | ReserveRelease

  // QuicListenerStart up to its binding reference, then QuicBindingRegisterListener
  datatype RegisterPc =
    | RegisterEnsure(cfg: Option<Config>)
    | RegisterOwn(cfg: Option<Config>)
    | RegisterAddRef(cfg: Option<Config>)
    | RegisterLock(cfg: Option<Config>)
    | RegisterMaximize(id: ListenerId, first: bool, maximize: bool)
    | RegisterUndo(id: ListenerId, first: bool)
    | RegisterRelease

  // QuicBindingCommitIceExtension up to the copy of the configuration. The
  // owner is the listener being started, if any.
  datatype CommitPc = HasToken | CommitEnsure | CommitCheck | CommitAddRef | CommitCopy

  // QuicBindingCommitIceExtension from there on
  datatype PublishPc = DropToken | CallBound | InBound | Publish | PublishRelease

  // QuicBindingAbortIceExtension; `extra` is commit's own reference
  datatype AbortPc = AbortLock(extra: bool) | AbortRelease(extra: bool) | ExtraRelease

  // QuicBindingReceive, per datagram
  datatype RecvPc = RecvLoadBound | RecvAcquire | RecvLoadClosing | RecvRecheck(closingSeen: bool) | RecvUpcall

  // QuicBindingSend
  datatype SendPc =
    SendLoadBound | SendLoadPath | SendAcquire | SendRecheckBound | SendRecheckClosing | SendRecheckPath | RelayUpcall

  // QuicBindingIceSetSelectedPath
  datatype SelectPc =
    SelectAcquire | SelectLoadClosing | SelectLoadConfigured | SelectSwap | SelectMtu | SelectRevert | SelectPublish

  datatype Pc =
    | Idle
    | Reserving(cfg: Option<Config>, rs: ReservePc)
    | Registering(rg: RegisterPc)
    | Committing(owner: Option<ListenerId>, cm: CommitPc)
    | Publishing(copy: Config, pb: PublishPc)
    | Aborting(failed: Option<ListenerId>, ab: AbortPc)
    | Receiving(rc: RecvPc)
    | Sending(sd: SendPc)
    | Selecting(want: Path, sl: SelectPc)
    | RundownRelease
    | Tearing

  // What an idle thread, or the holder of a token, does next.
  datatype Call =
    | Nothing
    | Reserve(cfg: Option<Config>)
    | Register(cfg: Option<Config>)
    | Unregister(id: ListenerId)
    | Commit
    | Abort
    | Receive
    | Send
    | Select(relay: bool)
    | OwnerGet
    | OwnerPut

  // `ok` is the outcome of a step that may fail for reasons outside the model.
  datatype Choice = Choice(call: Call, ok: bool)

  // -- Shared state ------------------------------------------------------------

  datatype Kind = Kind(exclusive: bool, serverOwned: bool, raw: bool)

  // The reference count, and who holds the references besides the running
  // threads: owners outside this protocol, and one per started listener.
  datatype Refs = Refs(
    count: nat,
    owners: nat,
    backed: set<ListenerId>)

  datatype Ext = Ext(
    config: Option<Config>,
    configured: bool,
    installing: bool,
    bound: bool,
    closing: bool,
    path: Path,
    rundown: nat)

  datatype Hist = Hist(
    tear: Tear,
    mtuCapped: bool,
    boundCalls: nat,
    boundReturns: nat,
    boundConfig: Option<Config>,
    unboundCalls: nat,
    assertsHeld: bool)

  // `registered` says that the library's stateless registration exists. It is
  // set up on first use and stays until the library is unloaded.
  datatype Shared = Shared(
    kind: Kind,
    registered: bool,
    refs: Refs,
    listeners: map<ListenerId, Option<Config>>,
    nextId: ListenerId,
    ext: Ext,
    hist: Hist)

  datatype State = State(g: Shared, threads: seq<Pc>)

  // -- Building blocks ---------------------------------------------------------

  function Check(g: Shared, held: bool): Shared {
    g.(hist := g.hist.(assertsHeld := g.hist.assertsHeld && held))
  }

  /** QuicLibraryReleaseBinding: the last release runs the teardown on the same thread. */
  function Release(g: Shared, next: Pc): (Shared, Pc) {
    if g.refs.count <= 1 then
      var g1 := Check(g, g.refs.count > 0);
      (g1.(refs := g.refs.(count := 0), hist := g1.hist.(tear := SetClosing)), Tearing)
    else
      (g.(refs := g.refs.(count := g.refs.count - 1)), next)
  }

  /** QuicLibraryTryAddRefBinding */
  function AddRef(g: Shared): Shared {
    g.(refs := g.refs.(count := g.refs.count + 1))
  }

  /** CxPlatRundownAcquire, CxPlatRundownRelease */
  function Acquire(g: Shared): Shared {
    g.(ext := g.ext.(rundown := g.ext.rundown + 1))
  }

  function Unprotect(g: Shared): Shared {
    Check(g.(ext := g.ext.(rundown := if g.ext.rundown > 0 then g.ext.rundown - 1 else 0)), g.ext.rundown > 0)
  }

  /** QuicLibraryEnsureStatelessRegistration: can fail only if there is no registration yet. */
  function Registered(g: Shared, ok: bool): Shared {
    g.(registered := g.registered || ok)
  }

  function OwnerGains(g: Shared): Shared {
    g.(refs := g.refs.(owners := g.refs.owners + 1))
  }

  // -- QuicBindingPrepareIceExtensionLocked ------------------------------------

  predicate PrepareSucceeds(g: Shared, cfg: Option<Config>) {
    && !g.ext.closing
    && if cfg.None? then !g.ext.configured
       else if g.ext.configured then g.ext.bound && !g.ext.installing && g.ext.config == cfg
       else g.listeners == map[]
  }

  predicate FirstInstall(g: Shared, cfg: Option<Config>) {
    cfg.Some? && !g.ext.configured
  }

  function Prepared(g: Shared, cfg: Option<Config>): Shared {
    if FirstInstall(g, cfg)
    then g.(ext := g.ext.(config := cfg, configured := true, installing := true)) else g
  }

  // -- Steps ---------------------------------------------------------------------

  function StepIdle(g: Shared, call: Call): (Shared, Pc) {
    match call
    case Reserve(cfg) => (g, Reserving(cfg, ReserveAddRef))
    case Register(cfg) => (g, Registering(RegisterEnsure(cfg)))
    case Unregister(id) =>
      if id in g.refs.backed
      then (OwnerGains(g.(listeners := g.listeners - {id}, refs := g.refs.(backed := g.refs.backed - {id}))), Idle)
      else (g, Idle)
    case Receive => (g, Receiving(RecvLoadBound))
    case Send => (g, Sending(SendLoadBound))
    case Select(relay) => (g, Selecting(if relay then Relay else Direct, SelectAcquire))
    case OwnerGet => if g.refs.count > 0 then (OwnerGains(AddRef(g)), Idle) else (g, Idle)
    case OwnerPut =>
      if g.refs.owners > 0
      then Release(g.(refs := g.refs.(owners := g.refs.owners - 1)), Idle) else (g, Idle)
    case _ => (g, Idle)
  }

  function StepReserve(g: Shared, cfg: Option<Config>, pc: ReservePc): (Shared, Pc) {
    match pc
    case ReserveAddRef => if g.refs.count > 0 then (AddRef(g), Reserving(cfg, ReserveLock)) else (g, Idle)
    case ReserveLock =>
      if !PrepareSucceeds(g, cfg) then (g, Reserving(cfg, ReserveRelease))
      else (Prepared(g, cfg),
            if FirstInstall(g, cfg) then Committing(None, HasToken) else Reserving(cfg, ReserveRelease))
    case ReserveRelease => Release(g, Idle)
  }

  function StepRegister(g: Shared, pc: RegisterPc, ok: bool): (Shared, Pc) {
    match pc
    case RegisterEnsure(cfg) =>
      var g1 := Registered(g, ok);
      (g1, if g1.registered then Registering(RegisterOwn(cfg)) else Idle)
    case RegisterOwn(cfg) =>
      // The listener is started with a reference that its owner got from the library.
      if g.refs.owners > 0
      then (g.(refs := g.refs.(owners := g.refs.owners - 1)), Registering(RegisterAddRef(cfg))) else (g, Idle)
    case RegisterAddRef(cfg) =>
      if g.refs.count > 0 then (AddRef(g), Registering(RegisterLock(cfg))) else (OwnerGains(g), Idle)
    case RegisterLock(cfg) =>
      // `ok` is false when a listener on the same address already uses the ALPN.
      if !ok || !PrepareSucceeds(g, cfg) then (OwnerGains(g), Registering(RegisterRelease))
      else (Prepared(g, cfg).(listeners := g.listeners[g.nextId := cfg], nextId := g.nextId + 1),
            Registering(RegisterMaximize(g.nextId, FirstInstall(g, cfg), g.listeners == map[])))
    case RegisterMaximize(id, first, maximize) =>
      if maximize && !ok then (g, Registering(RegisterUndo(id, first)))
      else (g.(refs := g.refs.(backed := g.refs.backed + {id})),
            if first then Committing(Some(id), HasToken) else Registering(RegisterRelease))
    case RegisterUndo(id, first) =>
      (OwnerGains(g.(listeners := g.listeners - {id})),
       if first then Aborting(None, AbortLock(false)) else Registering(RegisterRelease))
    case RegisterRelease => Release(g, Idle)
  }

  function StepCommit(g: Shared, l: Option<ListenerId>, pc: CommitPc, c: Choice): (Shared, Pc) {
    match pc
    case HasToken =>
      // A listener start always goes on to commit; a connection start may give its token up.
      (g, if c.call == Commit then Committing(l, CommitEnsure)
          else if c.call == Abort && l.None? then Aborting(l, AbortLock(false))
          else Committing(l, HasToken))
    case CommitEnsure =>
      var g1 := Registered(g, c.ok);
      (g1, if g1.registered then Committing(l, CommitCheck) else Aborting(l, AbortLock(false)))
    case CommitCheck =>
      if g.ext.configured && g.ext.installing && !g.ext.closing
      then (Check(g, g.registered), Committing(l, CommitAddRef)) else (g, Aborting(l, AbortLock(false)))
    case CommitAddRef =>
      if g.refs.count > 0 then (AddRef(g), Committing(l, CommitCopy)) else (g, Aborting(l, AbortLock(false)))
    case CommitCopy =>
      (g, if g.ext.configured && g.ext.installing && !g.ext.bound && !g.ext.closing && g.ext.config.Some?
          then Publishing(g.ext.config.value, DropToken) else Aborting(l, AbortLock(true)))
  }

  function StepPublish(g: Shared, copy: Config, pc: PublishPc): (Shared, Pc) {
    match pc
    case DropToken => Release(g, Publishing(copy, CallBound))
    case CallBound =>
      (g.(hist := g.hist.(boundCalls := g.hist.boundCalls + 1, boundConfig := Some(copy))), Publishing(copy, InBound))
    case InBound => (g.(hist := g.hist.(boundReturns := g.hist.boundReturns + 1)), Publishing(copy, Publish))
    case Publish =>
      (Check(g.(ext := g.ext.(installing := false, bound := true)),
             g.ext.configured && g.ext.installing && !g.ext.bound), Publishing(copy, PublishRelease))
    case PublishRelease => Release(g, Idle)
  }

  function StepAbort(g: Shared, l: Option<ListenerId>, pc: AbortPc): (Shared, Pc) {
    match pc
    case AbortLock(extra) =>
      (if g.ext.configured && g.ext.installing && !g.ext.bound
       then g.(ext := g.ext.(config := None, configured := false, installing := false)) else g,
       Aborting(l, AbortRelease(extra)))
    case AbortRelease(extra) =>
      // A listener whose start failed would give its reference back and stay listed.
      var g1 := if l.Some? && l.value in g.refs.backed
                then OwnerGains(g.(refs := g.refs.(backed := g.refs.backed - {l.value}))) else g;
      Release(g1, if extra then Aborting(None, ExtraRelease) else Idle)
    case ExtraRelease => Release(g, Idle)
  }

  function StepReceive(g: Shared, pc: RecvPc): (Shared, Pc) {
    match pc
    case RecvLoadBound => (g, if g.ext.bound then Receiving(RecvAcquire) else Idle)
    case RecvAcquire => if g.ext.rundown > 0 then (Acquire(g), Receiving(RecvLoadClosing)) else (g, Idle)
    case RecvLoadClosing => (g, Receiving(RecvRecheck(g.ext.closing)))
    case RecvRecheck(closingSeen) =>
      (g, if !g.ext.bound || closingSeen then RundownRelease else Receiving(RecvUpcall))
    case RecvUpcall => (g, RundownRelease)
  }

  function StepSend(g: Shared, pc: SendPc): (Shared, Pc) {
    match pc
    case SendLoadBound => (g, if g.ext.bound then Sending(SendLoadPath) else Idle)
    case SendLoadPath => (g, if g.ext.path == Relay then Sending(SendAcquire) else Idle)
    case SendAcquire =>
      if g.kind.exclusive && !g.kind.serverOwned && g.ext.rundown > 0
      then (Acquire(g), Sending(SendRecheckBound)) else (g, Idle)
    case SendRecheckBound => (g, if g.ext.bound then Sending(SendRecheckClosing) else RundownRelease)
    case SendRecheckClosing => (g, if !g.ext.closing then Sending(SendRecheckPath) else RundownRelease)
    case SendRecheckPath => (g, if g.ext.path == Relay then Sending(RelayUpcall) else RundownRelease)
    case RelayUpcall => (g, RundownRelease)
  }

  function StepSelect(g: Shared, want: Path, pc: SelectPc, ok: bool): (Shared, Pc) {
    match pc
    case SelectAcquire =>
      if g.ext.rundown > 0 then (Acquire(g), Selecting(want, SelectLoadClosing)) else (g, Idle)
    case SelectLoadClosing => (g, if g.ext.closing then RundownRelease else Selecting(want, SelectLoadConfigured))
    case SelectLoadConfigured =>
      (g, if !g.ext.configured || (want == Relay && (!g.kind.exclusive || g.kind.serverOwned)) || g.kind.raw
          then RundownRelease else Selecting(want, SelectSwap))
    case SelectSwap =>
      if g.ext.path == Unselected
      then (g.(ext := g.ext.(path := Installing)), Selecting(want, if want == Relay then SelectMtu else SelectPublish))
      else (g, RundownRelease)
    case SelectMtu =>
      if ok then (g.(hist := g.hist.(mtuCapped := true)), Selecting(want, SelectPublish))
      else (g, Selecting(want, SelectRevert))
    case SelectRevert =>
      (Check(g.(ext := g.ext.(path := if g.ext.path == Installing then Unselected else g.ext.path)),
             g.ext.path == Installing), RundownRelease)
    case SelectPublish =>
      (Check(g.(ext := g.ext.(path := if g.ext.path == Installing then want else g.ext.path)),
             g.ext.path == Installing), RundownRelease)
  }

  function StepTear(g: Shared): (Shared, Pc) {
    match g.hist.tear
    case SetClosing =>
      var g1 := Check(g, g.refs.count == 0 && g.listeners == map[]);
      (g1.(ext := g.ext.(closing := true), hist := g1.hist.(tear := DropRundown)), Tearing)
    case DropRundown =>
      var g1 := Unprotect(g);
      (g1.(hist := g1.hist.(tear := WaitRundown)), Tearing)
    case WaitRundown =>
      if g.ext.rundown == 0 then (g.(hist := g.hist.(tear := SwapBound)), Tearing) else (g, Tearing)
    case SwapBound =>
      if g.ext.configured && g.ext.bound
      then (g.(ext := g.ext.(bound := false),
               hist := g.hist.(unboundCalls := g.hist.unboundCalls + 1, tear := InUnbound)), Tearing)
      else (g.(hist := g.hist.(tear := Done)), Idle)
    case InUnbound => (g.(hist := g.hist.(tear := Done)), Idle)
    case _ => (g, Tearing)
  }

  /** One step of a thread at `pc`: the new shared state and where the thread is then. */
  function Move(g: Shared, pc: Pc, c: Choice): (Shared, Pc) {
    match pc
    case Idle => StepIdle(g, c.call)
    case Reserving(cfg, rs) => StepReserve(g, cfg, rs)
    case Registering(rg) => StepRegister(g, rg, c.ok)
    case Committing(l, cm) => StepCommit(g, l, cm, c)
    case Publishing(copy, pb) => StepPublish(g, copy, pb)
    case Aborting(l, ab) => StepAbort(g, l, ab)
    case Receiving(rc) => StepReceive(g, rc)
    case Sending(sd) => StepSend(g, sd)
    case Selecting(want, sl) => StepSelect(g, want, sl, c.ok)
    case RundownRelease => (Unprotect(g), Idle)
    case Tearing => StepTear(g)
  }

  /** The step of thread `i`; a thread that has to wait does not move. */
  function Step(s: State, i: nat, c: Choice): State
    requires i < |s.threads|
  {
    var (g, pc) := Move(s.g, s.threads[i], c);
    State(g, s.threads[i := pc])
  }

  /** A whole run: the schedule names the moving thread and the choices, in order. */
  function Run(s: State, schedule: seq<(nat, Choice)>): State
    decreases |schedule|
  {
    if schedule == [] then s
    else
      var before := Run(s, schedule[..|schedule| - 1]);
      var (i, c) := schedule[|schedule| - 1];
      if i < |before.threads| then Step(before, i, c) else before
  }

  /** A binding just added to the library's list: one owner, nothing configured. */
  ghost predicate Fresh(s: State) {
    && s.g.refs == Refs(1, 1, {}) && s.g.listeners == map[]
    && s.g.ext == Ext(None, false, false, false, false, Unselected, 1)
    && s.g.hist == Hist(NotStarted, false, 0, 0, None, 0, true)
    && forall p :: p in s.threads ==> p == Idle
  }

  // -- What each thread contributes ------------------------------------------------

  /** Binding references a thread is responsible for. */
  function RefShare(p: Pc): nat {
    match p
    case Reserving(_, rs) => if rs.ReserveAddRef? then 0 else 1
    case Registering(rg) =>
      if rg.RegisterEnsure? || rg.RegisterOwn? then 0 else if rg.RegisterAddRef? || rg.RegisterRelease? then 1 else 2
    case Committing(_, cm) => if cm.CommitCopy? then 2 else 1
    case Publishing(_, pb) => if pb.DropToken? then 2 else 1
    case Aborting(_, ab) => if !ab.ExtraRelease? && ab.extra then 2 else 1
    case _ => 0
  }

  /** First-install tokens and commits in flight. */
  function TokenShare(p: Pc): nat {
    match p
    case Registering(rg) => if (rg.RegisterMaximize? || rg.RegisterUndo?) && rg.first then 1 else 0
    case Committing(_, _) => 1
    case Publishing(_, pb) => if pb.PublishRelease? then 0 else 1
    case Aborting(_, ab) => if ab.AbortLock? then 1 else 0
    case _ => 0
  }

  /** Commits whose Bound callback has been entered, and those whose callback has returned. */
  function CalledShare(p: Pc): nat { if p.Publishing? && (p.pb.InBound? || p.pb.Publish?) then 1 else 0 }
  function ReturnedShare(p: Pc): nat { if p.Publishing? && p.pb.Publish? then 1 else 0 }

  /** Rundown protections held. */
  function RundownShare(p: Pc): nat {
    match p
    case Receiving(rc) => if rc.RecvLoadBound? || rc.RecvAcquire? then 0 else 1
    case Sending(sd) => if sd.SendLoadBound? || sd.SendLoadPath? || sd.SendAcquire? then 0 else 1
    case Selecting(_, sl) => if sl.SelectAcquire? then 0 else 1
    case RundownRelease => 1
    case _ => 0
  }

  /** Protected threads that have seen Bound published; upcalls are among them. */
  function SawBoundShare(p: Pc): nat {
    if (p.Receiving? && p.rc.RecvUpcall?) ||
       (p.Sending? && (p.sd.SendRecheckClosing? || p.sd.SendRecheckPath? || p.sd.RelayUpcall?)) then 1 else 0
  }

  /** Selectors between winning the swap to INSTALLING and publishing or reverting. */
  function SelectShare(p: Pc): nat {
    if p.Selecting? && (p.sl.SelectMtu? || p.sl.SelectRevert? || p.sl.SelectPublish?) then 1 else 0
  }

  function TearShare(p: Pc): nat { if p.Tearing? then 1 else 0 }
}
