/**
 The receive queue between any number of datapath threads and the worker: every interleaving of the
 sections that the lock makes atomic.
 */
module RecvWakeup {
  import opened ThreadSum
  import opened RecvQueue

  /** The worker: between operations, with a FLUSH_RECV operation in hand, or about to queue it again. */
  datatype Worker = Resting | Holding | Requeueing

  /** A datapath thread: idle, or past the lock and about to queue an operation. */
  datatype Pc = Idle | WillQueue

  datatype State = State(
    queue: seq<nat>, operations: nat, worker: Worker, complete: bool, lost: bool,
    arrived: seq<nat>, delivered: seq<nat>)

  datatype Action =
    | Arrive(packets: seq<nat>, limit: nat)
    | QueueOperation(canAllocate: bool)
    | Dequeue
    | Flush
    | Requeue
    | Complete

  // -- Steps ---------------------------------------------------------------------------------

  /** A datapath thread: QuicConnQueueRecvPackets in its two parts. */
  function ThreadMove(s: State, pc: Pc, a: Action): (State, Pc) {
    match a
    case Arrive(packets, limit) =>
      if pc != Idle || packets == [] || |s.queue| >= limit then (s, pc)
      else (s.(queue := s.queue + packets, arrived := s.arrived + packets), if s.queue == [] then WillQueue else Idle)
    case QueueOperation(canAllocate) =>
      if pc != WillQueue then (s, pc)
      else (if canAllocate then s.(operations := s.operations + 1) else s.(lost := true), Idle)
    case _ => (s, pc)
  }

  /** The worker: taking an operation, QuicConnFlushRecv, queueing the operation again. The shutdown
   may complete at any time, also while packets are being flushed. */
  function WorkerMove(s: State, a: Action): State {
    match a
    case Dequeue =>
      if s.worker != Resting || s.operations == 0 then s
      else s.(operations := s.operations - 1, worker := if s.complete then Resting else Holding)
    case Flush =>
      if s.worker != Holding then s
      else
        var n := if |s.queue| > FLUSH_MAX then FLUSH_MAX else |s.queue|;
        s.(queue := s.queue[n..], delivered := s.delivered + s.queue[..n],
           worker := if |s.queue| > FLUSH_MAX then Requeueing else Resting)
    case Requeue =>
      if s.worker != Requeueing then s else s.(operations := s.operations + 1, worker := Resting)
    case Complete => s.(complete := true)
    case _ => s
  }

  datatype Choice = Thread(i: nat, a: Action) | Work(a: Action)

  datatype Config = Config(s: State, ts: seq<Pc>)

  function Step(c: Config, choice: Choice): Config {
    match choice
    case Thread(i, a) =>
      if i >= |c.ts| then c
      else
        var (s, pc) := ThreadMove(c.s, c.ts[i], a);
        Config(s, c.ts[i := pc])
    case Work(a) => c.(s := WorkerMove(c.s, a))
  }

  function Run(c: Config, schedule: seq<Choice>): Config {
    if schedule == [] then c else Step(Run(c, schedule[..|schedule| - 1]), schedule[|schedule| - 1])
  }

  function Start(threads: nat): Config {
    Config(State([], 0, Resting, false, false, [], []), seq(threads, i => Idle))
  }

  // -- The invariant ---------------------------------------------------------------------------

  ghost function Share(pc: Pc): nat {
    if pc == WillQueue then 1 else 0
  }

  /** The FLUSH_RECV operations that are queued, about to be queued, or in the worker's hands. */
  ghost function Tokens(c: Config): nat {
    c.s.operations + Sum(Share, c.ts) + if c.s.worker == Resting then 0 else 1
  }

  ghost predicate Inv(c: Config) {
    && c.s.arrived == c.s.delivered + c.s.queue
    && Tokens(c) <= (if c.s.queue == [] then 0 else 1)
    && (!c.s.complete && !c.s.lost ==> Tokens(c) == if c.s.queue == [] then 0 else 1)
  }

  lemma {:induction false} StartInv(threads: nat)
    ensures Inv(Start(threads))
  {
    AllIdle(seq(threads, i => Idle));
  }

  lemma {:induction false} AllIdle(ts: seq<Pc>)
    requires forall i :: 0 <= i < |ts| ==> ts[i] == Idle
    ensures Sum(Share, ts) == 0
    decreases |ts|
  {
    if ts != [] {
      AllIdle(ts[..|ts| - 1]);
    }
  }

  lemma ThreadKeeps(c: Config, i: nat, a: Action)
    requires Inv(c) && i < |c.ts|
    ensures Inv(Step(c, Thread(i, a)))
  {
    var (s, pc) := ThreadMove(c.s, c.ts[i], a);
    SumSet(Share, c.ts, i, pc);
    if a.Arrive? && c.ts[i] == Idle && a.packets != [] && |c.s.queue| < a.limit {
      assert c.s.delivered + (c.s.queue + a.packets) == c.s.delivered + c.s.queue + a.packets;
    }
  }

  lemma WorkerKeeps(c: Config, a: Action)
    requires Inv(c)
    ensures Inv(Step(c, Work(a)))
  {
    if a == Flush && c.s.worker == Holding {
      var n := if |c.s.queue| > FLUSH_MAX then FLUSH_MAX else |c.s.queue|;
      assert c.s.delivered + c.s.queue[..n] + c.s.queue[n..] == c.s.delivered + c.s.queue;
    }
  }

  lemma {:induction false} RunInv(threads: nat, schedule: seq<Choice>)
    ensures Inv(Run(Start(threads), schedule))
    decreases |schedule|
  {
    if schedule == [] {
      StartInv(threads);
    } else {
      var n := |schedule| - 1;
      RunInv(threads, schedule[..n]);
      var c := Run(Start(threads), schedule[..n]);
      match schedule[n]
      case Thread(i, a) =>
        if i < |c.ts| {
          ThreadKeeps(c, i, a);
        }
      case Work(a) => WorkerKeeps(c, a);
    }
  }

  // -- What it gives ------------------------------------------------------------------------------

  /**
   No wake-up is lost: until the shutdown completes, and as long as operations can be allocated, the queue holds
   packets exactly when one operation is queued, about to be queued or in the worker's hands; and there is
   never more than one.
   */
  lemma NoLostWakeup(threads: nat, schedule: seq<Choice>)
    ensures
      var c := Run(Start(threads), schedule);
      && Tokens(c) <= 1
      && (!c.s.complete && !c.s.lost ==> (c.s.queue != [] <==> Tokens(c) == 1))
  {
    RunInv(threads, schedule);
  }

  /** Packets leave in the order in which they were accepted, and none is lost or repeated. */
  lemma FirstInFirstOut(threads: nat, schedule: seq<Choice>)
    ensures
      var s := Run(Start(threads), schedule).s;
      s.delivered <= s.arrived && s.queue == s.arrived[|s.delivered|..]
  {
    RunInv(threads, schedule);
    var s := Run(Start(threads), schedule).s;
    assert s.arrived == s.delivered + s.queue;
  }

  /** Whenever an operation is queued or in the worker's hands, there are packets for it. */
  lemma {:induction false} WorkerNeverFlushesNothing(threads: nat, schedule: seq<Choice>)
    ensures
      var s := Run(Start(threads), schedule).s;
      s.worker != Resting || s.operations > 0 ==> s.queue != []
  {
    RunInv(threads, schedule);
  }
}
