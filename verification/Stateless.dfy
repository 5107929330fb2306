/**
 The tracking of stateless operations by a binding: contexts are created on datapath threads, processed by
 workers, and freed by whichever of expiry, release and teardown comes second to the other condition. Every
 interleaving of the sections that the lock makes atomic is a run.
 */
module Stateless {
  import opened Prelude
  import opened ThreadSum

  /** QUIC_STATELESS_CONTEXT. */
  datatype Ctx = Ctx(addr: nat, created: u32, processed: bool, expired: bool)

  // A context is named by its place in `ctxs`. `owners` are the references that others hold on the
  // binding, and `operations` the queued operations, each with a reference of its own. `late` are
  // the contexts that a thread has looked at after they were freed.
  datatype Binding = Binding(
    ctxs: seq<Ctx>, list: seq<nat>, table: set<nat>, count: nat,
    operations: multiset<nat>, owners: nat, refs: nat, torn: bool, freed: multiset<nat>,
    late: set<nat>)

  datatype Pc =
    | Idle
    | Created(c: nat)                      // the context exists, the operation is not queued yet
    | Releasing(c: nat, ref: bool)         // QuicBindingReleaseStatelessOperation, before the lock
    | Looking(c: nat, ref: bool, free: bool)  // after the lock, about to look at HasBindingRef
    | Dropping(c: nat, free: bool)         // about to release the binding
    | Freeing(c: nat, free: bool)          // about to free the context if it has to

  datatype Action =
    | Create(addr: nat, now: u32, expiration: u32, max: nat, canAllocate: bool)
    | Queue(accepted: bool)
    | Take(c: nat)
    | Lock
    | Look
    | DropRef
    | Free

  // -- The sections under the lock ----------------------------------------------------------------

  predicate Old(b: Binding, c: nat, now: u32, expiration: u32)
    requires c < |b.ctxs|
  {
    Wrap32(now - b.ctxs[c].created) >= expiration
  }

  /** The oldest context leaves the tracking structures, and is freed if it was processed. */
  function ExpireFirst(b: Binding): Binding
    requires b.list != [] && b.list[0] < |b.ctxs| && b.count > 0
  {
    var c := b.list[0];
    b.(ctxs := b.ctxs[c := b.ctxs[c].(expired := true)], table := b.table - {c}, list := b.list[1..],
       count := b.count - 1, freed := if b.ctxs[c].processed then b.freed + multiset{c} else b.freed)
  }

  /** The loop that ages contexts out. */
  function Age(b: Binding, now: u32, expiration: u32): Binding
    requires Tracking(b)
    decreases |b.list|
  {
    if b.list == [] || !Old(b, b.list[0], now, expiration) then b
    else
      ExpireTracks(b);
      Age(ExpireFirst(b), now, expiration)
  }

  predicate Known(b: Binding, addr: nat)
    requires Tracking(b)
  {
    exists c :: c in b.table && b.ctxs[c].addr == addr
  }

  /** QuicBindingCreateStatelessOperation. */
  function CreateContext(b: Binding, a: Action): (Binding, Pc)
    requires a.Create? && Tracking(b)
  {
    if b.refs == 0 then (b, Idle)
    else
      AgeTracks(b, a.now, a.expiration);
      var d := Age(b, a.now, a.expiration);
      if d.count >= a.max || Known(d, a.addr) || !a.canAllocate then (d, Idle)
      else
        var c := |d.ctxs|;
        (d.(ctxs := d.ctxs + [Ctx(a.addr, a.now, false, false)], table := d.table + {c}, list := d.list + [c],
            count := d.count + 1),
         Created(c))
  }

  function Move(b: Binding, pc: Pc, a: Action): (Binding, Pc)
    requires Tracking(b)
  {
    match pc
    case Idle =>
      if a.Create? then CreateContext(b, a)
      else if a.Take? && a.c in b.operations then (b.(operations := b.operations - multiset{a.c}), Releasing(a.c, true))
      else (b, pc)
    case Created(c) =>
      if !a.Queue? then (b, pc)
      else if a.accepted && b.refs > 0 then
        (b.(refs := b.refs + 1, operations := b.operations + multiset{c}), Idle)
      else (b, Releasing(c, false))
    case Releasing(c, ref) =>
      if !a.Lock? || c >= |b.ctxs| then (b, pc)
      else
        (b.(ctxs := b.ctxs[c := b.ctxs[c].(processed := true)]), Looking(c, ref, b.ctxs[c].expired))
    case Looking(c, ref, free) =>
      if !a.Look? then (b, pc)
      else
        (b.(late := if c in b.freed then b.late + {c} else b.late),
         if ref then Dropping(c, free) else Freeing(c, free))
    case Dropping(c, free) =>
      if !a.DropRef? || b.refs == 0 then (b, pc) else (b.(refs := b.refs - 1), Freeing(c, free))
    case Freeing(c, free) =>
      if !a.Free? then (b, pc) else (if free then b.(freed := b.freed + multiset{c}) else b, Idle)
  }

  // -- Lists, table and count agree -----------------------------------------------------------------

  /** No context is listed twice, no two listed contexts share an address, and none has expired. */
  ghost predicate Listed(ctxs: seq<Ctx>, list: seq<nat>) {
    && (forall i :: 0 <= i < |list| ==> list[i] < |ctxs| && !ctxs[list[i]].expired)
    && (forall i, j :: 0 <= i < j < |list| ==> list[i] != list[j] && ctxs[list[i]].addr != ctxs[list[j]].addr)
  }

  ghost predicate Tracking(b: Binding) {
    b.count == |b.list| && b.table == (set c | c in b.list) && Listed(b.ctxs, b.list)
  }

  /** Changing a context that is not listed, or only whether it was processed, changes nothing here. */
  lemma ListedKept(ctxs: seq<Ctx>, list: seq<nat>, ctxs': seq<Ctx>)
    requires Listed(ctxs, list) && |ctxs'| >= |ctxs|
    requires forall i :: 0 <= i < |list| ==>
               ctxs'[list[i]].addr == ctxs[list[i]].addr && ctxs'[list[i]].expired == ctxs[list[i]].expired
    ensures Listed(ctxs', list)
  {
  }

  lemma ListedSuffix(ctxs: seq<Ctx>, list: seq<nat>)
    requires Listed(ctxs, list) && list != []
    ensures Listed(ctxs, list[1..]) && list[0] !in list[1..]
  {
    var rest := list[1..];
    assert forall i :: 0 <= i < |rest| ==> rest[i] == list[i + 1];
  }

  lemma ExpireTracks(b: Binding)
    requires Tracking(b) && b.list != []
    ensures Tracking(ExpireFirst(b))
  {
    var d, c := ExpireFirst(b), b.list[0];
    ListedSuffix(b.ctxs, b.list);
    assert forall i :: 0 <= i < |d.list| ==> d.list[i] in d.list;
    ListedKept(b.ctxs, d.list, d.ctxs);
    assert b.list == [c] + d.list;
    assert d.table == (set x | x in d.list);
  }

  lemma {:induction false} AgeTracks(b: Binding, now: u32, expiration: u32)
    requires Tracking(b)
    ensures Tracking(Age(b, now, expiration))
    decreases |b.list|
  {
    if b.list != [] && Old(b, b.list[0], now, expiration) {
      ExpireTracks(b);
      AgeTracks(ExpireFirst(b), now, expiration);
    }
  }

  /** Aging drops the contexts at the front that are old, up to the first that is not, and nothing else. */
  lemma {:induction false} AgeMeans(b: Binding, now: u32, expiration: u32) returns (k: nat)
    requires Tracking(b)
    ensures k <= |b.list| && Age(b, now, expiration).list == b.list[k..]
    ensures forall i :: 0 <= i < k ==> Old(b, b.list[i], now, expiration)
    ensures k < |b.list| ==> !Old(b, b.list[k], now, expiration)
    ensures Age(b, now, expiration).count == b.count - k
    decreases |b.list|
  {
    if b.list == [] || !Old(b, b.list[0], now, expiration) {
      k := 0;
    } else {
      var d := ExpireFirst(b);
      ExpireTracks(b);
      var m := AgeMeans(d, now, expiration);
      k := m + 1;
      assert b.list[k..] == d.list[m..];
      forall i | 0 < i < |b.list|
        ensures Old(b, b.list[i], now, expiration) == Old(d, d.list[i - 1], now, expiration)
      {
        OldKept(b, b.list[i], now, expiration);
        assert b.list[i] == d.list[i - 1];
      }
    }
  }

  lemma OldKept(b: Binding, c: nat, now: u32, expiration: u32)
    requires Tracking(b) && b.list != [] && c < |b.ctxs|
    ensures Old(ExpireFirst(b), c, now, expiration) == Old(b, c, now, expiration)
  {
  }

  /** Creating a context never goes over the limit, and never tracks an address twice. */
  lemma CreateBounded(b: Binding, a: Action)
    requires Tracking(b) && a.Create?
    ensures
      var (d, pc) := CreateContext(b, a);
      && d.count <= Max(b.count, a.max)
      && (pc.Created? ==> b.refs > 0 && d.count <= a.max && pc.c == |b.ctxs| && d.ctxs[pc.c].addr == a.addr)
  {
    if b.refs > 0 {
      AgeTracks(b, a.now, a.expiration);
      var k := AgeMeans(b, a.now, a.expiration);
      AgeKeepsContexts(b, a.now, a.expiration);
    }
  }

  lemma {:induction false} AgeKeepsContexts(b: Binding, now: u32, expiration: u32)
    requires Tracking(b)
    ensures |Age(b, now, expiration).ctxs| == |b.ctxs|
    decreases |b.list|
  {
    if b.list != [] && Old(b, b.list[0], now, expiration) {
      ExpireTracks(b);
      AgeKeepsContexts(ExpireFirst(b), now, expiration);
    }
  }

  // -- Whole runs -------------------------------------------------------------------------------------

  datatype Config = Config(b: Binding, ts: seq<Pc>)

  datatype Choice = Thread(i: nat, a: Action) | AddOwner | DropOwner | Teardown

  /** A datapath thread is still inside the receive path, for which closing the socket waits. */
  ghost function PathShare(pc: Pc): nat {
    if pc.Created? || ((pc.Releasing? || pc.Looking?) && !pc.ref) then 1 else 0
  }

  /** The loop of QuicBindingUninitialize over the contexts that are left. */
  ghost function Uninitialized(b: Binding): Binding {
    b.(list := [], table := {}, count := 0, freed := b.freed + multiset(b.table), torn := true)
  }

  ghost function Step(g: Config, choice: Choice): Config
    requires Tracking(g.b)
  {
    match choice
    case Thread(i, a) =>
      if i >= |g.ts| then g
      else
        var (b, pc) := Move(g.b, g.ts[i], a);
        Config(b, g.ts[i := pc])
    case AddOwner => if g.b.refs == 0 then g else g.(b := g.b.(owners := g.b.owners + 1, refs := g.b.refs + 1))
    case DropOwner =>
      if g.b.owners == 0 || g.b.refs == 0 then g
      else g.(b := g.b.(owners := g.b.owners - 1, refs := g.b.refs - 1))
    case Teardown =>
      if g.b.refs > 0 || g.b.torn || Sum(PathShare, g.ts) > 0 then g else g.(b := Uninitialized(g.b))
  }

  // -- Who processes and who frees a context -----------------------------------------------------------

  ghost function TokenOf(c: nat): Pc -> nat {
    (pc: Pc) => if (pc.Created? || pc.Releasing?) && pc.c == c then 1 else 0
  }

  ghost function FreeOf(c: nat): Pc -> nat {
    (pc: Pc) => if (pc.Looking? || pc.Dropping? || pc.Freeing?) && pc.c == c && pc.free then 1 else 0
  }

  /** Threads past the lock of a release. */
  ghost function PastOf(c: nat): Pc -> nat {
    (pc: Pc) => if (pc.Looking? || pc.Dropping? || pc.Freeing?) && pc.c == c then 1 else 0
  }

  ghost function RefShare(pc: Pc): nat {
    if pc.Dropping? || ((pc.Releasing? || pc.Looking?) && pc.ref) then 1 else 0
  }

  function One(p: bool): nat {
    if p then 1 else 0
  }

  predicate Processed(b: Binding, c: nat) {
    c < |b.ctxs| && b.ctxs[c].processed
  }

  /** Expired before it was processed: whoever releases it will free it. */
  predicate Orphaned(b: Binding, c: nat) {
    c < |b.ctxs| && b.ctxs[c].expired && !b.ctxs[c].processed
  }

  /** A context is processed, or exactly one thread or queued operation is going to process it. */
  ghost predicate ProcessedOnce(g: Config, c: nat) {
    Sum(TokenOf(c), g.ts) + g.b.operations[c] + One(Processed(g.b, c)) == One(c < |g.b.ctxs|)
  }

  /**
   A context is freed, or exactly one of the list, its releaser and a thread past the lock is going to free it;
   and never before it was processed.
   */
  ghost predicate FreedOnce(g: Config, c: nat) {
    && One(c in g.b.table) + One(Orphaned(g.b, c)) + Sum(FreeOf(c), g.ts) + g.b.freed[c] == One(c < |g.b.ctxs|)
    && (Sum(FreeOf(c), g.ts) + g.b.freed[c] > 0 ==> Processed(g.b, c))
  }

  /** One thread at most is past the lock with a context, and a context leaves the table by expiring or in the end. */
  ghost predicate ReleasedOnce(g: Config, c: nat) {
    && Sum(PastOf(c), g.ts) <= One(Processed(g.b, c))
    && (c < |g.b.ctxs| && c !in g.b.table && !g.b.ctxs[c].expired ==> g.b.torn)
  }

  ghost predicate RefsOk(g: Config) {
    && g.b.refs == g.b.owners + |g.b.operations| + Sum(RefShare, g.ts)
    && (g.b.torn ==> g.b.refs == 0 && g.b.table == {} && Sum(PathShare, g.ts) == 0)
  }

  ghost predicate Inv(g: Config) {
    && Tracking(g.b) && RefsOk(g)
    && (forall c: nat :: ProcessedOnce(g, c)) && (forall c: nat :: FreedOnce(g, c))
    && (forall c: nat :: ReleasedOnce(g, c))
  }

  lemma SharesMove(ts: seq<Pc>, i: nat, pc: Pc, c: nat)
    requires i < |ts|
    ensures Sum(TokenOf(c), ts[i := pc]) == Sum(TokenOf(c), ts) - TokenOf(c)(ts[i]) + TokenOf(c)(pc)
    ensures Sum(FreeOf(c), ts[i := pc]) == Sum(FreeOf(c), ts) - FreeOf(c)(ts[i]) + FreeOf(c)(pc)
    ensures Sum(PastOf(c), ts[i := pc]) == Sum(PastOf(c), ts) - PastOf(c)(ts[i]) + PastOf(c)(pc)
    ensures TokenOf(c)(ts[i]) <= Sum(TokenOf(c), ts) && FreeOf(c)(ts[i]) <= Sum(FreeOf(c), ts)
    ensures PastOf(c)(ts[i]) <= Sum(PastOf(c), ts)
  {
    SumSet(TokenOf(c), ts, i, pc);
    SumSet(FreeOf(c), ts, i, pc);
    SumSet(PastOf(c), ts, i, pc);
  }

  // -- Aging and creating --------------------------------------------------------------------------------

  lemma ExpireKeeps(g: Config)
    requires Inv(g) && g.b.list != []
    ensures Inv(g.(b := ExpireFirst(g.b)))
  {
    ExpireTracks(g.b);
    var h, x := g.(b := ExpireFirst(g.b)), g.b.list[0];
    forall c: nat
      ensures ProcessedOnce(h, c) && FreedOnce(h, c) && ReleasedOnce(h, c)
    {
      assert ProcessedOnce(g, c) && FreedOnce(g, c) && ReleasedOnce(g, c);
    }
  }

  lemma {:induction false} AgeKeeps(g: Config, now: u32, expiration: u32)
    requires Inv(g)
    ensures Inv(g.(b := Age(g.b, now, expiration)))
    ensures Age(g.b, now, expiration).refs == g.b.refs
    decreases |g.b.list|
  {
    if g.b.list != [] && Old(g.b, g.b.list[0], now, expiration) {
      ExpireTracks(g.b);
      ExpireKeeps(g);
      AgeKeeps(g.(b := ExpireFirst(g.b)), now, expiration);
    }
  }

  /** A new context enters list, table and count together, and its thread holds the operation to come. */
  lemma AddKeeps(g: Config, i: nat, addr: nat, now: u32)
    requires Inv(g) && i < |g.ts| && g.ts[i] == Idle && !Known(g.b, addr) && g.b.refs > 0
    ensures
      var c := |g.b.ctxs|;
      Inv(Config(g.b.(ctxs := g.b.ctxs + [Ctx(addr, now, false, false)], table := g.b.table + {c},
                      list := g.b.list + [c], count := g.b.count + 1),
                 g.ts[i := Created(c)]))
  {
    var n := |g.b.ctxs|;
    var h := Config(g.b.(ctxs := g.b.ctxs + [Ctx(addr, now, false, false)], table := g.b.table + {n},
                         list := g.b.list + [n], count := g.b.count + 1),
                    g.ts[i := Created(n)]);
    AddTracks(g.b, addr, now);
    SumSet(RefShare, g.ts, i, Created(n));
    SumSet(PathShare, g.ts, i, Created(n));
    forall c: nat
      ensures ProcessedOnce(h, c) && FreedOnce(h, c) && ReleasedOnce(h, c)
    {
      assert ProcessedOnce(g, c) && FreedOnce(g, c) && ReleasedOnce(g, c);
      SharesMove(g.ts, i, Created(n), c);
      assert c in g.b.table ==> c < n;
    }
  }

  lemma AddTracks(b: Binding, addr: nat, now: u32)
    requires Tracking(b) && !Known(b, addr)
    ensures
      var c := |b.ctxs|;
      Tracking(b.(ctxs := b.ctxs + [Ctx(addr, now, false, false)], table := b.table + {c}, list := b.list + [c],
                  count := b.count + 1))
  {
    var n := |b.ctxs|;
    var d := b.(ctxs := b.ctxs + [Ctx(addr, now, false, false)], table := b.table + {n}, list := b.list + [n],
                count := b.count + 1);
    forall i | 0 <= i < |b.list|
      ensures d.list[i] == b.list[i] && d.ctxs[d.list[i]] == b.ctxs[b.list[i]] && b.ctxs[b.list[i]].addr != addr
    {
      assert b.list[i] in b.table;
    }
    assert d.list[|b.list|] == n && d.ctxs[n].addr == addr;
    assert forall x :: x in d.list <==> x in b.list || x == n;
  }

  // -- The other moves -------------------------------------------------------------------------------------

  lemma CreateKeeps(g: Config, i: nat, a: Action)
    requires Inv(g) && i < |g.ts| && g.ts[i] == Idle && a.Create?
    ensures Inv(Step(g, Thread(i, a)))
  {
    assert g.ts[i := Idle] == g.ts;
    if g.b.refs > 0 {
      AgeTracks(g.b, a.now, a.expiration);
      AgeKeeps(g, a.now, a.expiration);
      var d := Age(g.b, a.now, a.expiration);
      if d.count < a.max && !Known(d, a.addr) && a.canAllocate {
        AddKeeps(g.(b := d), i, a.addr, a.now);
      }
    }
  }

  lemma TakeKeeps(g: Config, i: nat, x: nat)
    requires Inv(g) && i < |g.ts| && g.ts[i] == Idle && x in g.b.operations
    ensures Inv(Step(g, Thread(i, Take(x))))
  {
    var h := Step(g, Thread(i, Take(x)));
    SumSet(RefShare, g.ts, i, h.ts[i]);
    SumSet(PathShare, g.ts, i, h.ts[i]);
    forall c: nat
      ensures ProcessedOnce(h, c) && FreedOnce(h, c) && ReleasedOnce(h, c)
    {
      assert ProcessedOnce(g, c) && FreedOnce(g, c) && ReleasedOnce(g, c);
      SharesMove(g.ts, i, h.ts[i], c);
    }
  }

  lemma QueueKeeps(g: Config, i: nat, accepted: bool)
    requires Inv(g) && i < |g.ts| && g.ts[i].Created?
    ensures Inv(Step(g, Thread(i, Queue(accepted))))
  {
    if accepted && g.b.refs > 0 {
      QueueAccepted(g, i);
    } else {
      QueueRefused(g, i, accepted);
    }
  }

  lemma QueueAccepted(g: Config, i: nat)
    requires Inv(g) && i < |g.ts| && g.ts[i].Created? && g.b.refs > 0
    ensures Inv(Step(g, Thread(i, Queue(true))))
  {
    var h := Step(g, Thread(i, Queue(true)));
    SumSet(RefShare, g.ts, i, Idle);
    SumSet(PathShare, g.ts, i, Idle);
    forall c: nat
      ensures ProcessedOnce(h, c) && FreedOnce(h, c) && ReleasedOnce(h, c)
    {
      assert ProcessedOnce(g, c) && FreedOnce(g, c) && ReleasedOnce(g, c);
      SharesMove(g.ts, i, Idle, c);
    }
  }

  lemma QueueRefused(g: Config, i: nat, accepted: bool)
    requires Inv(g) && i < |g.ts| && g.ts[i].Created? && !(accepted && g.b.refs > 0)
    ensures Inv(Step(g, Thread(i, Queue(accepted))))
  {
    var pc := Releasing(g.ts[i].c, false);
    var h := Step(g, Thread(i, Queue(accepted)));
    SumSet(RefShare, g.ts, i, pc);
    SumSet(PathShare, g.ts, i, pc);
    forall c: nat
      ensures ProcessedOnce(h, c) && FreedOnce(h, c) && ReleasedOnce(h, c)
    {
      assert ProcessedOnce(g, c) && FreedOnce(g, c) && ReleasedOnce(g, c);
      SharesMove(g.ts, i, pc, c);
    }
  }

  /** Processing a context that nobody else can have processed. */
  lemma LockKeeps(g: Config, i: nat)
    requires Inv(g) && i < |g.ts| && g.ts[i].Releasing?
    ensures Inv(Step(g, Thread(i, Lock)))
  {
    var x := g.ts[i].c;
    var h := Step(g, Thread(i, Lock));
    assert ProcessedOnce(g, x);
    SumSet(TokenOf(x), g.ts, i, h.ts[i]);
    SumSet(RefShare, g.ts, i, h.ts[i]);
    SumSet(PathShare, g.ts, i, h.ts[i]);
    ListedKept(g.b.ctxs, g.b.list, h.b.ctxs);
    forall c: nat
      ensures ProcessedOnce(h, c) && FreedOnce(h, c) && ReleasedOnce(h, c)
    {
      assert ProcessedOnce(g, c) && FreedOnce(g, c) && ReleasedOnce(g, c);
      SharesMove(g.ts, i, h.ts[i], c);
    }
  }

  lemma LookKeeps(g: Config, i: nat)
    requires Inv(g) && i < |g.ts| && g.ts[i].Looking?
    ensures Inv(Step(g, Thread(i, Look)))
  {
    var h := Step(g, Thread(i, Look));
    SumSet(RefShare, g.ts, i, h.ts[i]);
    SumSet(PathShare, g.ts, i, h.ts[i]);
    forall c: nat
      ensures ProcessedOnce(h, c) && FreedOnce(h, c) && ReleasedOnce(h, c)
    {
      assert ProcessedOnce(g, c) && FreedOnce(g, c) && ReleasedOnce(g, c);
      SharesMove(g.ts, i, h.ts[i], c);
    }
  }

  lemma DropKeeps(g: Config, i: nat)
    requires Inv(g) && i < |g.ts| && g.ts[i].Dropping?
    ensures g.b.refs > 0 && Inv(Step(g, Thread(i, DropRef)))
  {
    var h := Step(g, Thread(i, DropRef));
    SumSet(RefShare, g.ts, i, Freeing(g.ts[i].c, g.ts[i].free));
    SumSet(PathShare, g.ts, i, Freeing(g.ts[i].c, g.ts[i].free));
    forall c: nat
      ensures ProcessedOnce(h, c) && FreedOnce(h, c) && ReleasedOnce(h, c)
    {
      assert ProcessedOnce(g, c) && FreedOnce(g, c) && ReleasedOnce(g, c);
      SharesMove(g.ts, i, h.ts[i], c);
    }
  }

  lemma FreeKeeps(g: Config, i: nat)
    requires Inv(g) && i < |g.ts| && g.ts[i].Freeing?
    ensures Inv(Step(g, Thread(i, Free)))
  {
    var h := Step(g, Thread(i, Free));
    SumSet(RefShare, g.ts, i, Idle);
    SumSet(PathShare, g.ts, i, Idle);
    forall c: nat
      ensures ProcessedOnce(h, c) && FreedOnce(h, c) && ReleasedOnce(h, c)
    {
      assert ProcessedOnce(g, c) && FreedOnce(g, c) && ReleasedOnce(g, c);
      SharesMove(g.ts, i, h.ts[i], c);
    }
  }

  lemma ThreadKeeps(g: Config, i: nat, a: Action)
    requires Inv(g) && i < |g.ts|
    ensures Inv(Step(g, Thread(i, a)))
  {
    assert g.ts[i := g.ts[i]] == g.ts;
    match g.ts[i]
    case Idle =>
      if a.Create? {
        CreateKeeps(g, i, a);
      } else if a.Take? && a.c in g.b.operations {
        TakeKeeps(g, i, a.c);
      }
    case Created(_) => if a.Queue? { QueueKeeps(g, i, a.accepted); }
    case Releasing(_, _) => if a.Lock? { LockKeeps(g, i); }
    case Looking(_, _, _) => if a.Look? { LookKeeps(g, i); }
    case Dropping(_, _) => if a.DropRef? { DropKeeps(g, i); }
    case Freeing(_, _) => if a.Free? { FreeKeeps(g, i); }
  }

  // -- Teardown -----------------------------------------------------------------------------------------------

  lemma {:induction false} TokensVanish(ts: seq<Pc>, c: nat)
    requires Sum(PathShare, ts) == 0 && Sum(RefShare, ts) == 0
    ensures Sum(TokenOf(c), ts) == 0
    decreases |ts|
  {
    if ts != [] {
      TokensVanish(ts[..|ts| - 1], c);
    }
  }

  /** Teardown finds only processed contexts, as it asserts. */
  lemma TeardownFindsProcessed(g: Config, c: nat)
    requires Inv(g) && g.b.refs == 0 && Sum(PathShare, g.ts) == 0 && c in g.b.table
    ensures c < |g.b.ctxs| && g.b.ctxs[c].processed
  {
    TokensVanish(g.ts, c);
    assert ProcessedOnce(g, c);
    assert g.b.operations[c] <= |g.b.operations|;
  }

  lemma TeardownKeeps(g: Config)
    requires Inv(g)
    ensures Inv(Step(g, Teardown))
  {
    if g.b.refs == 0 && !g.b.torn && Sum(PathShare, g.ts) == 0 {
      var h := Step(g, Teardown);
      forall c: nat
        ensures ProcessedOnce(h, c) && FreedOnce(h, c) && ReleasedOnce(h, c)
      {
        assert ProcessedOnce(g, c) && FreedOnce(g, c) && ReleasedOnce(g, c);
        if c in g.b.table {
          TeardownFindsProcessed(g, c);
        }
      }
    }
  }

  // -- Whole runs -----------------------------------------------------------------------------------------------

  ghost function Start(owners: nat, threads: nat): Config {
    Config(Binding([], [], {}, 0, multiset{}, owners, owners, false, multiset{}, {}), seq(threads, i => Idle))
  }

  lemma {:induction false} IdleShare(f: Pc -> nat, ts: seq<Pc>)
    requires f(Idle) == 0 && forall i :: 0 <= i < |ts| ==> ts[i] == Idle
    ensures Sum(f, ts) == 0
    decreases |ts|
  {
    if ts != [] {
      IdleShare(f, ts[..|ts| - 1]);
    }
  }

  lemma StartInv(owners: nat, threads: nat)
    ensures Inv(Start(owners, threads))
  {
    var g := Start(owners, threads);
    IdleShare(RefShare, g.ts);
    IdleShare(PathShare, g.ts);
    forall c: nat
      ensures ProcessedOnce(g, c) && FreedOnce(g, c) && ReleasedOnce(g, c)
    {
      IdleShare(TokenOf(c), g.ts);
      IdleShare(FreeOf(c), g.ts);
      IdleShare(PastOf(c), g.ts);
    }
  }

  lemma StepKeeps(g: Config, choice: Choice)
    requires Inv(g)
    ensures Inv(Step(g, choice))
  {
    match choice
    case Thread(i, a) => if i < |g.ts| { ThreadKeeps(g, i, a); }
    case AddOwner => OwnersKeep(g, Step(g, choice));
    case DropOwner => OwnersKeep(g, Step(g, choice));
    case Teardown => TeardownKeeps(g);
  }

  lemma OwnersKeep(g: Config, h: Config)
    requires Inv(g) && h.ts == g.ts
    requires h.b == g.b.(owners := h.b.owners, refs := h.b.refs)
    requires h.b.refs - h.b.owners == g.b.refs - g.b.owners && (g.b.refs == 0 ==> h.b.refs == 0)
    ensures Inv(h)
  {
    forall c: nat
      ensures ProcessedOnce(h, c) && FreedOnce(h, c) && ReleasedOnce(h, c)
    {
      assert ProcessedOnce(g, c) && FreedOnce(g, c) && ReleasedOnce(g, c);
    }
  }

  ghost function Run(g: Config, schedule: seq<Choice>): (h: Config)
    requires Inv(g)
    ensures Inv(h)
    decreases |schedule|
  {
    if schedule == [] then g
    else
      var before := Run(g, schedule[..|schedule| - 1]);
      StepKeeps(before, schedule[|schedule| - 1]);
      Step(before, schedule[|schedule| - 1])
  }

  /**
   In every reachable state list, table and count agree, no two tracked contexts have the same address, and no
   context is freed twice or freed while it is tracked or unprocessed.
   */
  lemma TrackingHolds(owners: nat, threads: nat, schedule: seq<Choice>, c: nat)
    ensures Inv(Start(owners, threads))
    ensures
      var b := Run(Start(owners, threads), schedule).b;
      && b.count == |b.list| == |b.table| && (forall x :: x in b.table <==> x in b.list)
      && (forall x, y :: x in b.table && y in b.table && x != y ==>
            x < |b.ctxs| && y < |b.ctxs| && b.ctxs[x].addr != b.ctxs[y].addr)
      && b.freed[c] <= 1
      && (c in b.freed ==> c !in b.table && c < |b.ctxs| && b.ctxs[c].processed)
  {
    StartInv(owners, threads);
    var g := Run(Start(owners, threads), schedule);
    assert FreedOnce(g, c) && ProcessedOnce(g, c);
    ListSize(g.b.list, g.b.table);
    forall x, y | x in g.b.table && y in g.b.table && x != y
      ensures x < |g.b.ctxs| && y < |g.b.ctxs| && g.b.ctxs[x].addr != g.b.ctxs[y].addr
    {
      var i :| 0 <= i < |g.b.list| && g.b.list[i] == x;
      var j :| 0 <= j < |g.b.list| && g.b.list[j] == y;
    }
  }

  lemma {:induction false} ListSize(s: seq<nat>, t: set<nat>)
    requires forall i, j :: 0 <= i < j < |s| ==> s[i] != s[j]
    requires forall x :: x in t <==> x in s
    ensures |t| == |s|
    decreases |s|
  {
    if s == [] {
      assert t == {};
    } else {
      var n := |s| - 1;
      assert s == s[..n] + [s[n]] && s[n] in t;
      ListSize(s[..n], t - {s[n]});
    }
  }

  /** Once everything has come to rest and the binding is gone, every context has been freed exactly once. */
  lemma AllFreedInTheEnd(owners: nat, threads: nat, schedule: seq<Choice>, c: nat)
    ensures Inv(Start(owners, threads))
    ensures
      var g := Run(Start(owners, threads), schedule);
      g.b.torn && (forall i :: 0 <= i < |g.ts| ==> g.ts[i] == Idle) && c < |g.b.ctxs| ==> g.b.freed[c] == 1
  {
    StartInv(owners, threads);
    var g := Run(Start(owners, threads), schedule);
    if g.b.torn && (forall i :: 0 <= i < |g.ts| ==> g.ts[i] == Idle) && c < |g.b.ctxs| {
      IdleShare(TokenOf(c), g.ts);
      IdleShare(FreeOf(c), g.ts);
      assert FreedOnce(g, c) && ProcessedOnce(g, c);
      assert g.b.operations[c] <= |g.b.operations|;
    }
  }

  // -- Looking at a context after it was freed ---------------------------------------------------------------

  /**
   After the lock a release looks at its context once more. In every run the context has been freed by then
   exactly if it has expired since the lock was taken.
   */
  lemma LookIsLate(owners: nat, threads: nat, schedule: seq<Choice>, i: nat)
    ensures Inv(Start(owners, threads))
    ensures
      var g := Run(Start(owners, threads), schedule);
      i < |g.ts| && g.ts[i].Looking? ==>
        var c := g.ts[i].c;
        && c < |g.b.ctxs|
        && (c in g.b.freed <==> g.b.ctxs[c].expired && !g.ts[i].free)
  {
    StartInv(owners, threads);
    var g := Run(Start(owners, threads), schedule);
    if i < |g.ts| && g.ts[i].Looking? {
      LookFacts(g, i);
    }
  }

  const CREATE: Action := Create(1, 0, 1, 10, true)
  const CREATE_AGAIN: Action := Create(2, 1, 1, 10, true)
  const LATE: seq<Choice> :=
    [Thread(0, CREATE), Thread(0, Queue(true)), Thread(1, Take(0)), Thread(1, Lock), Thread(0, CREATE_AGAIN),
     Thread(1, Look)]

  /** The first states of that schedule, up to the second creation. */
  ghost function LateConfig(k: nat): Config {
    var ctx := Ctx(1, 0, k >= 4, false);
    var b := Start(1, 2).b;
    var listed := b.(ctxs := [ctx], list := [0], table := {0}, count := 1);
    if k == 0 then Config(b, [Idle, Idle])
    else if k == 1 then Config(listed, [Created(0), Idle])
    else if k == 2 then Config(listed.(refs := 2, operations := multiset{0}), [Idle, Idle])
    else if k == 3 then Config(listed.(refs := 2), [Idle, Releasing(0, true)])
    else Config(listed.(refs := 2), [Idle, Looking(0, true, false)])
  }

  lemma LateCreates()
    ensures Tracking(LateConfig(0).b) && Step(LateConfig(0), LATE[0]) == LateConfig(1)
  {
    var b := LateConfig(0).b;
    assert Age(b, 0, 1) == b && !Known(b, 1);
    assert [] + [Ctx(1, 0, false, false)] == [Ctx(1, 0, false, false)] && [] + [0] == [0] && {} + {0} == {0};
    assert [Idle, Idle][0 := Created(0)] == [Created(0), Idle];
  }

  lemma LateQueues()
    ensures Tracking(LateConfig(1).b) && Step(LateConfig(1), LATE[1]) == LateConfig(2)
  {
    assert [Created(0), Idle][0 := Idle] == [Idle, Idle];
    assert multiset{} + multiset{0} == multiset{0};
  }

  lemma LateTakes()
    ensures Tracking(LateConfig(2).b) && Step(LateConfig(2), LATE[2]) == LateConfig(3)
  {
    assert [Idle, Idle][1 := Releasing(0, true)] == [Idle, Releasing(0, true)];
    assert multiset{0} - multiset{0} == multiset{};
  }

  lemma LateLocks()
    ensures Tracking(LateConfig(3).b) && Step(LateConfig(3), LATE[3]) == LateConfig(4)
  {
    assert [Ctx(1, 0, false, false)][0 := Ctx(1, 0, true, false)] == [Ctx(1, 0, true, false)];
    assert [Idle, Releasing(0, true)][1 := Looking(0, true, false)] == [Idle, Looking(0, true, false)];
  }

  lemma LateLooks()
    ensures
      var g := LateConfig(4);
      Tracking(g.b) && Tracking(Step(g, LATE[4]).b) && Step(Step(g, LATE[4]), LATE[5]).b.late == {0}
  {
    var g := LateConfig(4);
    AgesOut(g.b);
  }

  /** Such a run: the context is aged out by another thread between the lock and the look. */
  lemma LateLookHappens()
    ensures Inv(Start(1, 2)) && Run(Start(1, 2), LATE).b.late == {0}
  {
    StartInv(1, 2);
    assert Start(1, 2).ts == [Idle, Idle];
    LateCreates();
    LateQueues();
    LateTakes();
    LateLocks();
    LateLooks();
    var g := LateConfig(4);
    SixSteps(Start(1, 2), LateConfig(1), LateConfig(2), LateConfig(3), g, Step(g, LATE[4]),
             Step(Step(g, LATE[4]), LATE[5]), LATE);
  }

  lemma SixSteps(g0: Config, g1: Config, g2: Config, g3: Config, g4: Config, g5: Config, g6: Config, cs: seq<Choice>)
    requires Inv(g0) && |cs| == 6
    requires Tracking(g1.b) && Tracking(g2.b) && Tracking(g3.b) && Tracking(g4.b) && Tracking(g5.b)
    requires Step(g0, cs[0]) == g1 && Step(g1, cs[1]) == g2 && Step(g2, cs[2]) == g3
    requires Step(g3, cs[3]) == g4 && Step(g4, cs[4]) == g5 && Step(g5, cs[5]) == g6
    ensures Run(g0, cs) == g6
  {
    RunUpTo(g0, cs, [g0, g1, g2, g3, g4, g5, g6], 6);
    assert cs[..6] == cs;
  }

  /** A created context that has been processed is freed by the next creation after it has expired. */
  lemma AgesOut(b: Binding)
    requires b.ctxs == [Ctx(1, 0, true, false)] && b.list == [0] && b.table == {0} && b.count == 1
    requires b.freed == multiset{} && b.late == {} && b.refs > 0
    ensures Tracking(b) && Tracking(CreateContext(b, CREATE_AGAIN).0)
    ensures 0 in CreateContext(b, CREATE_AGAIN).0.freed && CreateContext(b, CREATE_AGAIN).0.late == {}
  {
    assert Tracking(b);
    var d := ExpireFirst(b);
    ExpireTracks(b);
    assert Old(b, 0, 1, 1);
    assert Age(d, 1, 1) == d;
    assert Age(b, 1, 1) == d;
    if !Known(d, 2) {
      AddTracks(d, 2, 1);
    }
  }

  /** A run is its steps, one after the other. */
  lemma {:induction false} RunUpTo(g: Config, cs: seq<Choice>, gs: seq<Config>, k: nat)
    requires Inv(g) && k <= |cs| && |gs| == |cs| + 1 && gs[0] == g
    requires forall j :: 0 <= j < |cs| ==> Tracking(gs[j].b) && Step(gs[j], cs[j]) == gs[j + 1]
    ensures Run(g, cs[..k]) == gs[k]
    decreases k
  {
    if k > 0 {
      RunUpTo(g, cs, gs, k - 1);
      assert cs[..k][..k - 1] == cs[..k - 1];
    }
  }

  lemma LookFacts(g: Config, i: nat)
    requires Inv(g) && i < |g.ts| && g.ts[i].Looking?
    ensures
      var c := g.ts[i].c;
      c < |g.b.ctxs| && (c in g.b.freed <==> g.b.ctxs[c].expired && !g.ts[i].free)
  {
    var c := g.ts[i].c;
    assert ProcessedOnce(g, c) && FreedOnce(g, c) && ReleasedOnce(g, c);
    SumSet(PastOf(c), g.ts, i, Idle);
    SumSet(FreeOf(c), g.ts, i, Idle);
    SumSet(RefShare, g.ts, i, Idle);
    SumSet(PathShare, g.ts, i, Idle);
    SumLeOf(c, g.ts[i := Idle]);
    if c in g.b.table {
      assert c in g.b.list;
    }
  }

  lemma {:induction false} SumLeOf(c: nat, ts: seq<Pc>)
    ensures Sum(FreeOf(c), ts) <= Sum(PastOf(c), ts)
    decreases |ts|
  {
    if ts != [] {
      SumLeOf(c, ts[..|ts| - 1]);
    }
  }
}
