/** Safety of every run of the ICE extension protocol. */
module IceProof {
  import opened Prelude
  import opened ThreadSum
  import opened Ice

  // -- How many threads are where --------------------------------------------------

  datatype Counts = Counts(
    refs: nat, listed: nat, token: nat, called: nat, returned: nat,
    rundown: nat, saw: nat, select: nat, tear: nat)

  /** Listeners that are in the list while their registration is still running. */
  function ListedShare(p: Pc): nat {
    if p.Registering? && (p.rg.RegisterMaximize? || p.rg.RegisterUndo?) then 1 else 0
  }

  ghost function CountsOf(ts: seq<Pc>): Counts {
    Counts(Sum(RefShare, ts), Sum(ListedShare, ts), Sum(TokenShare, ts), Sum(CalledShare, ts), Sum(ReturnedShare, ts),
           Sum(RundownShare, ts), Sum(SawBoundShare, ts), Sum(SelectShare, ts), Sum(TearShare, ts))
  }

  /** The counts once a thread at `p` joins the others. */
  function Plus(o: Counts, p: Pc): Counts {
    Counts(o.refs + RefShare(p), o.listed + ListedShare(p), o.token + TokenShare(p), o.called + CalledShare(p),
           o.returned + ReturnedShare(p), o.rundown + RundownShare(p), o.saw + SawBoundShare(p),
           o.select + SelectShare(p), o.tear + TearShare(p))
  }

  /** Who counts as one thing also counts as the other. */
  predicate Nested(k: Counts) {
    && k.listed <= k.refs && k.token <= k.refs && k.returned <= k.called <= k.token
    && k.saw <= k.rundown && k.select <= k.rundown
  }

  lemma CountsNest(ts: seq<Pc>)
    ensures Nested(CountsOf(ts))
  {
    SumLe(ListedShare, RefShare, ts);
    SumLe(TokenShare, RefShare, ts);
    SumLe(ReturnedShare, CalledShare, ts);
    SumLe(CalledShare, TokenShare, ts);
    SumLe(SawBoundShare, RundownShare, ts);
    SumLe(SelectShare, RundownShare, ts);
  }

  lemma CountsSplit(ts: seq<Pc>, i: nat, p: Pc)
    requires i < |ts|
    ensures CountsOf(ts[i := p]) == Plus(CountsOf(ts[i := Idle]), p)
  {
    var os := ts[i := Idle];
    assert os[i := p] == ts[i := p];
    SumSet(RefShare, os, i, p);
    SumSet(ListedShare, os, i, p);
    SumSet(TokenShare, os, i, p);
    SumSet(CalledShare, os, i, p);
    SumSet(ReturnedShare, os, i, p);
    SumSet(RundownShare, os, i, p);
    SumSet(SawBoundShare, os, i, p);
    SumSet(SelectShare, os, i, p);
    SumSet(TearShare, os, i, p);
  }

  // -- The invariant -------------------------------------------------------------

  /** An installed extension whose commit is over. */
  predicate Live(e: Ext) { e.configured && !e.installing }

  predicate Unbinding(t: Tear) { t.InUnbound? || t.Done? }

  ghost predicate ListenersOk(g: Shared, k: Counts) {
    && |g.listeners| == |g.refs.backed| + k.listed
    && g.refs.backed <= g.listeners.Keys
    && (forall id :: id in g.listeners ==> id < g.nextId)
    && (g.ext.configured ==> forall id :: id in g.listeners ==> g.listeners[id] == g.ext.config)
  }

  predicate RefsBalance(g: Shared, k: Counts) {
    g.refs.count == g.refs.owners + |g.refs.backed| + k.refs
  }

  predicate TokenUnique(e: Ext, k: Counts) {
    && k.token == (if e.installing then 1 else 0)
    && (e.installing ==> e.configured && !e.bound)
    && (e.configured <==> e.config.Some?)
    && (e.bound ==> Live(e))
  }

  predicate TeardownOrdered(g: Shared, k: Counts) {
    var t := g.hist.tear;
    && (t.NotStarted? <==> g.refs.count > 0)
    && k.tear == (if t.NotStarted? || t.Done? then 0 else 1)
    && (g.ext.closing <==> !t.NotStarted? && !t.SetClosing?)
    && g.ext.rundown == (if t.NotStarted? || t.SetClosing? || t.DropRundown? then 1 else 0) + k.rundown
    && (t.SwapBound? || Unbinding(t) ==> g.ext.rundown == 0)
    && (Unbinding(t) ==> !g.ext.bound)
    && (Live(g.ext) && !Unbinding(t) ==> g.ext.bound)
  }

  predicate CallbacksCounted(e: Ext, h: Hist, k: Counts) {
    && h.boundCalls == k.called + (if Live(e) then 1 else 0)
    && h.boundReturns == k.returned + (if Live(e) then 1 else 0)
    && h.unboundCalls == (if Live(e) && Unbinding(h.tear) then 1 else 0)
    && (h.boundCalls > 0 ==> h.boundConfig == e.config)
    && (k.saw > 0 ==> e.bound)
  }

  predicate PathExclusive(g: Shared, k: Counts) {
    && k.select == (if g.ext.path.Installing? then 1 else 0)
    && (g.ext.path.Relay? ==> g.hist.mtuCapped && g.kind.exclusive && !g.kind.serverOwned)
  }

  ghost predicate SharedOk(g: Shared, k: Counts) {
    && RefsBalance(g, k) && ListenersOk(g, k) && TokenUnique(g.ext, k) && TeardownOrdered(g, k)
    && CallbacksCounted(g.ext, g.hist, k) && PathExclusive(g, k)
    && g.hist.assertsHeld
  }

  /** What a thread may rely on at its program counter, whatever the others do. */
  predicate LocalFacts(g: Shared, p: Pc) {
    match p
    case Registering(rg) =>
      && (rg.RegisterEnsure? || g.registered)
      && (rg.RegisterMaximize? || rg.RegisterUndo? ==> rg.id in g.listeners && rg.id !in g.refs.backed)
    case Committing(l, cm) => (l.Some? || (!cm.HasToken? && !cm.CommitEnsure?)) ==> g.registered
    case Aborting(l, _) => l.None?
    case Publishing(copy, pb) => !pb.PublishRelease? ==> g.ext.config == Some(copy)
    case Sending(sd) => sd.RelayUpcall? ==> g.ext.path.Relay?
    case Selecting(want, sl) =>
      && (want.Direct? || want.Relay?)
      && (sl.SelectMtu? || sl.SelectRevert? ==> want.Relay?)
      && (want.Relay? && !sl.SelectAcquire? && !sl.SelectLoadClosing? && !sl.SelectLoadConfigured? ==>
            g.kind.exclusive && !g.kind.serverOwned)
      && (want.Relay? && sl.SelectPublish? ==> g.hist.mtuCapped)
    case _ => true
  }

  ghost predicate Locals(s: State) {
    && (forall i :: 0 <= i < |s.threads| ==> LocalFacts(s.g, s.threads[i]))
    && (forall i, j :: 0 <= i < j < |s.threads| && ListedShare(s.threads[i]) == 1 && ListedShare(s.threads[j]) == 1 ==>
          s.threads[i].rg.id != s.threads[j].rg.id)
  }

  ghost predicate Inv(s: State) {
    SharedOk(s.g, CountsOf(s.threads)) && Locals(s)
  }

  // -- One thread moves; `o` counts all the others ---------------------------------

  ghost predicate Before(g: Shared, o: Counts, p: Pc) {
    SharedOk(g, Plus(o, p)) && LocalFacts(g, p) && Nested(o)
  }

  ghost predicate After(m: (Shared, Pc), o: Counts) {
    SharedOk(m.0, Plus(o, m.1)) && LocalFacts(m.0, m.1)
  }

  /** Counts as for `Plus(o, next)`, with one more reference to give back. */
  function Owing(o: Counts, next: Pc): Counts {
    var k := Plus(o, next);
    k.(refs := k.refs + 1)
  }

  /** Giving back a reference is safe wherever it is done; the last one starts the only teardown. */
  lemma ReleaseKeeps(g: Shared, o: Counts, next: Pc)
    requires SharedOk(g, Owing(o, next)) && LocalFacts(g, next) && Nested(o)
    requires next in {Idle, Aborting(None, ExtraRelease)} || (next.Publishing? && next.pb.CallBound?)
    ensures After(Release(g, next), o)
  {
  }

  lemma MoveReserve(g: Shared, o: Counts, cfg: Option<Config>, pc: ReservePc)
    requires Before(g, o, Reserving(cfg, pc))
    ensures After(StepReserve(g, cfg, pc), o)
  {
    if pc.ReserveRelease? {
      ReleaseKeeps(g, o, Idle);
    }
  }

  lemma MoveStart(g: Shared, o: Counts, pc: RegisterPc, ok: bool)
    requires Before(g, o, Registering(pc)) && (pc.RegisterEnsure? || pc.RegisterOwn?)
    ensures After(StepRegister(g, pc, ok), o)
  {
  }

  lemma MoveRegister(g: Shared, o: Counts, pc: RegisterPc, ok: bool)
    requires Before(g, o, Registering(pc)) && (pc.RegisterAddRef? || pc.RegisterLock? || pc.RegisterRelease?)
    ensures After(StepRegister(g, pc, ok), o)
  {
    if pc.RegisterRelease? {
      ReleaseKeeps(g, o, Idle);
    }
  }

  lemma MoveRegistered(g: Shared, o: Counts, pc: RegisterPc, ok: bool)
    requires Before(g, o, Registering(pc)) && pc.RegisterMaximize?
    ensures After(StepRegister(g, pc, ok), o)
  {
    if pc.maximize && !ok {
      LookKeeps(g, o, Registering(pc), Registering(RegisterUndo(pc.id, pc.first)));
    } else {
      MoveBacked(g, o, pc);
    }
  }

  /** The reference of the start becomes that of the started listener. */
  lemma MoveBacked(g: Shared, o: Counts, pc: RegisterPc)
    requires Before(g, o, Registering(pc)) && pc.RegisterMaximize?
    ensures
      After((g.(refs := g.refs.(backed := g.refs.backed + {pc.id})),
             if pc.first then Committing(Some(pc.id), HasToken) else Registering(RegisterRelease)), o)
  {
    assert |g.refs.backed + {pc.id}| == |g.refs.backed| + 1;
  }

  lemma MoveUnregistered(g: Shared, o: Counts, pc: RegisterPc, ok: bool)
    requires Before(g, o, Registering(pc)) && pc.RegisterUndo?
    ensures After(StepRegister(g, pc, ok), o)
  {
  }

  lemma MoveCommit(g: Shared, o: Counts, l: Option<ListenerId>, pc: CommitPc, c: Choice)
    requires Before(g, o, Committing(l, pc))
    ensures After(StepCommit(g, l, pc, c), o)
  {
  }

  lemma MovePublish(g: Shared, o: Counts, copy: Config, pc: PublishPc)
    requires Before(g, o, Publishing(copy, pc))
    ensures After(StepPublish(g, copy, pc), o)
  {
    if pc.DropToken? {
      ReleaseKeeps(g, o, Publishing(copy, CallBound));
    } else if pc.PublishRelease? {
      ReleaseKeeps(g, o, Idle);
    }
  }

  lemma MoveAbortLock(g: Shared, o: Counts, l: Option<ListenerId>, extra: bool)
    requires Before(g, o, Aborting(l, AbortLock(extra)))
    ensures After(StepAbort(g, l, AbortLock(extra)), o)
  {
  }

  lemma MoveAbort(g: Shared, o: Counts, l: Option<ListenerId>, pc: AbortPc)
    requires Before(g, o, Aborting(l, pc))
    ensures After(StepAbort(g, l, pc), o)
  {
    match pc
    case AbortLock(extra) => MoveAbortLock(g, o, l, extra);
    case AbortRelease(extra) =>
      ReleaseKeeps(g, o, if extra then Aborting(None, ExtraRelease) else Idle);
    case ExtraRelease => ReleaseKeeps(g, o, Idle);
  }

  /** A step that only looks: protections stay, and seeing Bound requires that it is published. */
  lemma LookKeeps(g: Shared, o: Counts, p: Pc, next: Pc)
    requires Before(g, o, p) && LocalFacts(g, next)
    requires Plus(o, next).(saw := 0) == Plus(o, p).(saw := 0)
    requires SawBoundShare(next) <= SawBoundShare(p) || g.ext.bound
    ensures After((g, next), o)
  {
  }

  /** Entering rundown protection is possible until the teardown has drained it. */
  lemma AcquireKeeps(g: Shared, o: Counts, p: Pc, next: Pc)
    requires Before(g, o, p) && LocalFacts(Acquire(g), next) && g.ext.rundown > 0
    requires Plus(o, next) == Plus(o, p).(rundown := Plus(o, p).rundown + 1)
    ensures After((Acquire(g), next), o)
  {
  }

  lemma MoveReceive(g: Shared, o: Counts, pc: RecvPc)
    requires Before(g, o, Receiving(pc))
    ensures After(StepReceive(g, pc), o)
  {
    var (g1, next) := StepReceive(g, pc);
    if pc.RecvAcquire? && g.ext.rundown > 0 {
      AcquireKeeps(g, o, Receiving(pc), next);
    } else {
      LookKeeps(g, o, Receiving(pc), next);
    }
  }

  lemma MoveSend(g: Shared, o: Counts, pc: SendPc)
    requires Before(g, o, Sending(pc))
    ensures After(StepSend(g, pc), o)
  {
    var (g1, next) := StepSend(g, pc);
    if pc.SendAcquire? && next != Idle {
      AcquireKeeps(g, o, Sending(pc), next);
    } else {
      LookKeeps(g, o, Sending(pc), next);
    }
  }

  lemma MoveUnprotect(g: Shared, o: Counts)
    requires Before(g, o, RundownRelease)
    ensures After((Unprotect(g), Idle), o)
  {
  }

  lemma MoveSelect(g: Shared, o: Counts, want: Path, pc: SelectPc, ok: bool)
    requires Before(g, o, Selecting(want, pc))
    requires pc.SelectAcquire? || pc.SelectLoadClosing? || pc.SelectLoadConfigured? || pc.SelectSwap?
    ensures After(StepSelect(g, want, pc, ok), o)
  {
    var (g1, next) := StepSelect(g, want, pc, ok);
    if pc.SelectSwap? {
      MoveSwap(g, o, want, ok);
    } else if pc.SelectAcquire? && next != Idle {
      AcquireKeeps(g, o, Selecting(want, pc), next);
    } else {
      LookKeeps(g, o, Selecting(want, pc), next);
    }
  }

  lemma MoveSwap(g: Shared, o: Counts, want: Path, ok: bool)
    requires Before(g, o, Selecting(want, SelectSwap))
    ensures After(StepSelect(g, want, SelectSwap, ok), o)
  {
  }

  lemma MoveSelected(g: Shared, o: Counts, want: Path, pc: SelectPc, ok: bool)
    requires Before(g, o, Selecting(want, pc))
    requires pc.SelectMtu? || pc.SelectRevert? || pc.SelectPublish?
    ensures After(StepSelect(g, want, pc, ok), o)
  {
  }

  /** The teardown starts with no reference and no listener left, as it asserts. */
  lemma MoveClose(g: Shared, o: Counts)
    requires Before(g, o, Tearing) && g.hist.tear.SetClosing?
    ensures After(StepTear(g), o)
  {
    assert |g.listeners| == 0;
  }

  lemma MoveDrain(g: Shared, o: Counts)
    requires Before(g, o, Tearing) && g.hist.tear.DropRundown?
    ensures After(StepTear(g), o)
  {
  }

  lemma MoveWait(g: Shared, o: Counts)
    requires Before(g, o, Tearing) && (g.hist.tear.WaitRundown? || g.hist.tear.NotStarted? || g.hist.tear.Done?)
    ensures After(StepTear(g), o)
  {
  }

  lemma MoveUnbind(g: Shared, o: Counts)
    requires Before(g, o, Tearing) && (g.hist.tear.SwapBound? || g.hist.tear.InUnbound?)
    ensures After(StepTear(g), o)
  {
  }

  lemma MoveIdle(g: Shared, o: Counts, call: Call)
    requires Before(g, o, Idle) && !call.Unregister? && !call.OwnerPut?
    ensures After(StepIdle(g, call), o)
  {
    if !call.Register? && !call.OwnerGet? {
      LookKeeps(g, o, Idle, StepIdle(g, call).1);
    }
  }

  lemma MoveGiveUp(g: Shared, o: Counts, call: Call)
    requires Before(g, o, Idle) && (call.Unregister? || call.OwnerPut?)
    ensures After(StepIdle(g, call), o)
  {
    if call.OwnerPut? && g.refs.owners > 0 {
      ReleaseKeeps(g.(refs := g.refs.(owners := g.refs.owners - 1)), o, Idle);
    }
  }

  /** Any thread, anywhere. */
  lemma MoveKeeps(g: Shared, o: Counts, p: Pc, c: Choice)
    requires Before(g, o, p)
    ensures After(Move(g, p, c), o)
  {
    match p
    case Idle =>
      if c.call.Unregister? || c.call.OwnerPut? { MoveGiveUp(g, o, c.call); }
      else { MoveIdle(g, o, c.call); }
    case Reserving(cfg, rs) => MoveReserve(g, o, cfg, rs);
    case Registering(rg) =>
      if rg.RegisterEnsure? || rg.RegisterOwn? { MoveStart(g, o, rg, c.ok); }
      else if rg.RegisterMaximize? { MoveRegistered(g, o, rg, c.ok); }
      else if rg.RegisterUndo? { MoveUnregistered(g, o, rg, c.ok); }
      else { MoveRegister(g, o, rg, c.ok); }
    case Committing(l, cm) => MoveCommit(g, o, l, cm, c);
    case Publishing(copy, pb) => MovePublish(g, o, copy, pb);
    case Aborting(l, ab) => MoveAbort(g, o, l, ab);
    case Receiving(rc) => MoveReceive(g, o, rc);
    case Sending(sd) => MoveSend(g, o, sd);
    case Selecting(want, sl) =>
      if sl.SelectMtu? || sl.SelectRevert? || sl.SelectPublish? { MoveSelected(g, o, want, sl, c.ok); }
      else { MoveSelect(g, o, want, sl, c.ok); }
    case RundownRelease => MoveUnprotect(g, o);
    case Tearing =>
      match g.hist.tear {
        case SetClosing => MoveClose(g, o);
        case DropRundown => MoveDrain(g, o);
        case SwapBound => MoveUnbind(g, o);
        case InUnbound => MoveUnbind(g, o);
        case _ => MoveWait(g, o);
      }
  }

  // -- The threads that do not move ---------------------------------------------------

  /** The listener a thread is in the middle of registering. */
  function OwnListener(p: Pc): set<ListenerId> {
    if ListedShare(p) == 1 then {p.rg.id} else {}
  }

  /** What a step of a thread at `p` may change of what the others rely on. */
  predicate Frame(g: Shared, p: Pc, g1: Shared, p1: Pc) {
    && g1.kind == g.kind && (g.registered ==> g1.registered)
    && (g.hist.mtuCapped ==> g1.hist.mtuCapped)
    && (g.ext.path.Relay? ==> g1.ext.path.Relay?)
    && (g1.ext.config == g.ext.config || TokenShare(p) == 1 || !g.ext.installing)
    && g.listeners.Keys - g.refs.backed - OwnListener(p) <= g1.listeners.Keys - g1.refs.backed
    && (OwnListener(p1) <= OwnListener(p) || OwnListener(p1) !! g.listeners.Keys)
  }

  lemma InstallFramed(g: Shared, o: Counts, p: Pc, c: Choice)
    requires Before(g, o, p)
    requires p.Committing? || p.Publishing? || p.Aborting?
    ensures Frame(g, p, Move(g, p, c).0, Move(g, p, c).1)
  {
  }

  lemma ReserveFramed(g: Shared, o: Counts, p: Pc, c: Choice)
    requires Before(g, o, p) && p.Reserving?
    ensures Frame(g, p, Move(g, p, c).0, Move(g, p, c).1)
  {
  }

  lemma RegisterFramed(g: Shared, o: Counts, p: Pc, c: Choice)
    requires Before(g, o, p) && p.Registering? && !p.rg.RegisterMaximize? && !p.rg.RegisterUndo?
    ensures Frame(g, p, Move(g, p, c).0, Move(g, p, c).1)
  {
  }

  lemma ListFramed(g: Shared, o: Counts, p: Pc, c: Choice)
    requires Before(g, o, p) && p.Registering? && (p.rg.RegisterMaximize? || p.rg.RegisterUndo?)
    ensures Frame(g, p, Move(g, p, c).0, Move(g, p, c).1)
  {
  }

  lemma IdleFramed(g: Shared, o: Counts, p: Pc, c: Choice)
    requires Before(g, o, p) && p.Idle?
    ensures Frame(g, p, Move(g, p, c).0, Move(g, p, c).1)
  {
  }

  lemma TearFramed(g: Shared, o: Counts, p: Pc, c: Choice)
    requires Before(g, o, p) && p.Tearing?
    ensures Frame(g, p, Move(g, p, c).0, Move(g, p, c).1)
  {
  }

  lemma UpcallFramed(g: Shared, o: Counts, p: Pc, c: Choice)
    requires Before(g, o, p) && (p.Receiving? || p.Sending? || p.Selecting? || p.RundownRelease?)
    ensures Frame(g, p, Move(g, p, c).0, Move(g, p, c).1)
  {
  }

  lemma MoveFramed(g: Shared, o: Counts, p: Pc, c: Choice)
    requires Before(g, o, p)
    ensures Frame(g, p, Move(g, p, c).0, Move(g, p, c).1)
  {
    match p
    case Idle => IdleFramed(g, o, p, c);
    case Reserving(_, _) => ReserveFramed(g, o, p, c);
    case Registering(rg) =>
      if rg.RegisterMaximize? || rg.RegisterUndo? { ListFramed(g, o, p, c); } else { RegisterFramed(g, o, p, c); }
    case Committing(_, _) => InstallFramed(g, o, p, c);
    case Publishing(_, _) => InstallFramed(g, o, p, c);
    case Aborting(_, _) => InstallFramed(g, o, p, c);
    case Tearing => TearFramed(g, o, p, c);
    case _ => UpcallFramed(g, o, p, c);
  }

  lemma OthersKeepFacts(s: State, i: nat, g: Shared, p: Pc)
    requires i < |s.threads| && Inv(s) && Frame(s.g, s.threads[i], g, p) && LocalFacts(g, p)
    ensures Locals(State(g, s.threads[i := p]))
  {
    var s1 := State(g, s.threads[i := p]);
    forall j | 0 <= j < |s.threads| && j != i
      ensures LocalFacts(g, s.threads[j])
      ensures ListedShare(s.threads[j]) == 1 && ListedShare(p) == 1 ==> s.threads[j].rg.id != p.rg.id
    {
      assert LocalFacts(s.g, s.threads[j]);
      SumTwo(TokenShare, s.threads, i, j);
      SumSet(TokenShare, s.threads, j, s.threads[j]);
      if ListedShare(s.threads[j]) == 1 {
        assert s.threads[j].rg.id in s.g.listeners.Keys - s.g.refs.backed - OwnListener(s.threads[i]);
      }
    }
  }

  /** Every step of every thread keeps the invariant. */
  lemma StepKeeps(s: State, i: nat, c: Choice)
    requires i < |s.threads| && Inv(s)
    ensures Inv(Step(s, i, c))
  {
    var p := s.threads[i];
    var o := CountsOf(s.threads[i := Idle]);
    var (g, p1) := Move(s.g, p, c);
    assert s.threads[i := p] == s.threads;
    CountsSplit(s.threads, i, p);
    CountsSplit(s.threads, i, p1);
    CountsNest(s.threads[i := Idle]);
    MoveKeeps(s.g, o, p, c);
    MoveFramed(s.g, o, p, c);
    OthersKeepFacts(s, i, g, p1);
  }

  lemma FreshIsInv(s: State)
    requires Fresh(s)
    ensures Inv(s)
  {
    SumZero(RefShare, s.threads);
    SumZero(ListedShare, s.threads);
    SumZero(TokenShare, s.threads);
    SumZero(CalledShare, s.threads);
    SumZero(ReturnedShare, s.threads);
    SumZero(RundownShare, s.threads);
    SumZero(SawBoundShare, s.threads);
    SumZero(SelectShare, s.threads);
    SumZero(TearShare, s.threads);
    assert forall i :: 0 <= i < |s.threads| ==> s.threads[i] in s.threads;
  }

  lemma {:induction false} RunKeeps(s: State, schedule: seq<(nat, Choice)>)
    requires Fresh(s)
    ensures Inv(Run(s, schedule))
    decreases |schedule|
  {
    if schedule == [] {
      FreshIsInv(s);
    } else {
      RunKeeps(s, schedule[..|schedule| - 1]);
      var before := Run(s, schedule[..|schedule| - 1]);
      var (i, c) := schedule[|schedule| - 1];
      if i < |before.threads| {
        StepKeeps(before, i, c);
      }
    }
  }

  // -- What the protocol guarantees -----------------------------------------------------

  predicate InUpcall(p: Pc) {
    (p.Receiving? && p.rc.RecvUpcall?) || (p.Sending? && p.sd.RelayUpcall?)
  }

  /**
   In every state of every run, an application upcall is running only between the return of
   Bound and the start of Unbound, with the configuration that was given to Bound. Bound and
   Unbound are called at most once, Unbound only after Bound has returned, and no assertion
   of the code has failed: those on reference counts and rundown protection, on the states of
   publishing and of path selection, on the stateless registration of a commit, and those of
   the teardown on references and listeners.
   */
  lemma UpcallsOnlyWhileBound(s: State, schedule: seq<(nat, Choice)>)
    requires Fresh(s)
    ensures
      var r := Run(s, schedule);
      var h := r.g.hist;
      && (forall i :: 0 <= i < |r.threads| && InUpcall(r.threads[i]) ==>
            && h.boundCalls == h.boundReturns == 1 && h.unboundCalls == 0
            && r.g.ext.config.Some? && h.boundConfig == r.g.ext.config)
      && h.unboundCalls <= h.boundReturns <= h.boundCalls <= 1
      && (h.tear.Done? ==> h.unboundCalls == h.boundReturns == h.boundCalls)
      && h.assertsHeld
  {
    RunKeeps(s, schedule);
    var r := Run(s, schedule);
    CountsNest(r.threads);
    forall i | 0 <= i < |r.threads| && InUpcall(r.threads[i])
      ensures r.g.ext.bound
    {
      SumSet(SawBoundShare, r.threads, i, r.threads[i]);
    }
  }

  /** A thread holding a first-install token, or committing one. */
  predicate Installs(p: Pc) { TokenShare(p) == 1 }

  /**
   In every state of every run at most one thread installs; an installed configuration is
   shared by every listed listener; and the reference count is exactly the references of the
   owners, of the started listeners and of the calls in progress. A call that is over has
   given back everything it took, since an idle thread's share is zero.
   */
  lemma ReferencesBalance(s: State, schedule: seq<(nat, Choice)>)
    requires Fresh(s)
    ensures
      var r := Run(s, schedule);
      && (forall i, j :: 0 <= i < |r.threads| && 0 <= j < |r.threads| ==>
                           Installs(r.threads[i]) && Installs(r.threads[j]) ==> i == j)
      && (r.g.ext.configured ==> forall id :: id in r.g.listeners ==> r.g.listeners[id] == r.g.ext.config)
      && r.g.refs.count == r.g.refs.owners + |r.g.refs.backed| + Sum(RefShare, r.threads)
      && ((forall p :: p in r.threads ==> p.Idle?) ==> r.g.refs.count == r.g.refs.owners + |r.g.refs.backed|)
  {
    RunKeeps(s, schedule);
    var r := Run(s, schedule);
    forall i, j | 0 <= i < |r.threads| && 0 <= j < |r.threads| && Installs(r.threads[i]) && Installs(r.threads[j])
      ensures i == j
    {
      if i != j {
        SumTwo(TokenShare, r.threads, i, j);
      }
    }
    if forall p :: p in r.threads ==> p.Idle? {
      SumZero(RefShare, r.threads);
    }
  }

  predicate Claims(p: Pc) { SelectShare(p) == 1 }

  predicate Chosen(p: Path) { p.Direct? || p.Relay? }

  /**
   Whatever the number of racing selectors, at most one is between the swap to INSTALLING and
   its outcome, and RELAY is only ever selected on an exclusive client binding whose MTU cap
   was set. An upcall to the relay runs only while RELAY is selected.
   */
  lemma SelectionIsExclusive(s: State, schedule: seq<(nat, Choice)>)
    requires Fresh(s)
    ensures
      var r := Run(s, schedule);
      && (forall i, j :: 0 <= i < |r.threads| && 0 <= j < |r.threads| ==>
                           Claims(r.threads[i]) && Claims(r.threads[j]) ==> i == j)
      && (r.g.ext.path.Installing? <==> exists i :: 0 <= i < |r.threads| && Claims(r.threads[i]))
      && (r.g.ext.path.Relay? ==> r.g.hist.mtuCapped && r.g.kind.exclusive && !r.g.kind.serverOwned)
      && (forall i :: 0 <= i < |r.threads| && r.threads[i] == Sending(RelayUpcall) ==> r.g.ext.path.Relay?)
  {
    RunKeeps(s, schedule);
    var r := Run(s, schedule);
    forall i, j | 0 <= i < |r.threads| && 0 <= j < |r.threads| && Claims(r.threads[i]) && Claims(r.threads[j])
      ensures i == j
    {
      if i != j {
        SumTwo(SelectShare, r.threads, i, j);
      }
    }
    if forall i :: 0 <= i < |r.threads| ==> !Claims(r.threads[i]) {
      SumZero(SelectShare, r.threads);
    } else {
      var i :| 0 <= i < |r.threads| && Claims(r.threads[i]);
      SumSet(SelectShare, r.threads, i, r.threads[i]);
    }
    forall i | 0 <= i < |r.threads| && r.threads[i] == Sending(RelayUpcall)
      ensures r.g.ext.path.Relay?
    {
      assert LocalFacts(r.g, r.threads[i]);
    }
  }

  lemma MoveKeepsChoice(g: Shared, o: Counts, p: Pc, c: Choice)
    requires Before(g, o, p) && Chosen(g.ext.path)
    ensures Move(g, p, c).0.ext.path == g.ext.path
  {
  }

  lemma StepKeepsChoice(s: State, i: nat, c: Choice)
    requires i < |s.threads| && Inv(s) && Chosen(s.g.ext.path)
    ensures Step(s, i, c).g.ext.path == s.g.ext.path
  {
    CountsSplit(s.threads, i, s.threads[i]);
    assert s.threads[i := s.threads[i]] == s.threads;
    CountsNest(s.threads[i := Idle]);
    MoveKeepsChoice(s.g, CountsOf(s.threads[i := Idle]), s.threads[i], c);
  }

  /** A published path choice is final: no continuation of the run changes it. */
  lemma {:induction false} ChoiceIsFinal(s: State, schedule: seq<(nat, Choice)>, more: seq<(nat, Choice)>)
    requires Fresh(s) && Chosen(Run(s, schedule).g.ext.path)
    ensures Run(s, schedule + more).g.ext.path == Run(s, schedule).g.ext.path
    decreases |more|
  {
    if more == [] {
      assert schedule + more == schedule;
    } else {
      var fewer := more[..|more| - 1];
      ChoiceIsFinal(s, schedule, fewer);
      assert (schedule + more)[..|schedule + more| - 1] == schedule + fewer;
      var before := Run(s, schedule + fewer);
      var (i, c) := more[|more| - 1];
      if i < |before.threads| {
        RunKeeps(s, schedule + fewer);
        StepKeepsChoice(before, i, c);
      }
    }
  }

  /** When the teardown has started, no listener is left in the list. */
  lemma ListenersGone(s: State, schedule: seq<(nat, Choice)>)
    requires Fresh(s) && !Run(s, schedule).g.hist.tear.NotStarted?
    ensures Run(s, schedule).g.listeners == map[] && Run(s, schedule).g.refs.backed == {}
  {
    RunKeeps(s, schedule);
    var r := Run(s, schedule);
    CountsNest(r.threads);
    assert |r.g.listeners| == 0;
  }

  /**
   The commit of a started listener never fails: in every state of every run no thread aborts on behalf of a
   listener, so that a listener that is registered stays registered until it is stopped.
   */
  lemma ListenerCommitSucceeds(s: State, schedule: seq<(nat, Choice)>, i: nat)
    requires Fresh(s) && i < |Run(s, schedule).threads|
    ensures
      var r := Run(s, schedule);
      && (r.threads[i].Aborting? ==> r.threads[i].failed.None?)
      && (r.threads[i].Committing? && r.threads[i].owner.Some? ==> r.g.registered)
  {
    RunKeeps(s, schedule);
    var r := Run(s, schedule);
    assert LocalFacts(r.g, r.threads[i]);
  }
}
