/** Counting over the threads of an interleaving model. */
module ThreadSum {

  /** Total of `f` over a sequence of per-thread program counters. */
  ghost function Sum<P>(f: P -> nat, ts: seq<P>): nat {
    if ts == [] then 0 else Sum(f, ts[..|ts| - 1]) + f(ts[|ts| - 1])
  }

  /** Moving one thread changes the total by exactly that thread's share. */
  lemma {:induction false} SumSet<P>(f: P -> nat, ts: seq<P>, i: nat, p: P)
    requires i < |ts|
    ensures Sum(f, ts[i := p]) == Sum(f, ts) - f(ts[i]) + f(p)
    ensures f(ts[i]) <= Sum(f, ts)
    decreases |ts|
  {
    var n := |ts| - 1;
    if i == n {
      assert ts[i := p][..n] == ts[..n];
    } else {
      assert ts[i := p][..n] == ts[..n][i := p];
      SumSet(f, ts[..n], i, p);
    }
  }

  /** Two different threads contribute separately. */
  lemma {:induction false} SumTwo<P>(f: P -> nat, ts: seq<P>, i: nat, j: nat)
    requires i < |ts| && j < |ts| && i != j
    ensures f(ts[i]) + f(ts[j]) <= Sum(f, ts)
    decreases |ts|
  {
    var n := |ts| - 1;
    if i == n {
      SumSet(f, ts[..n], j, ts[j]);
    } else if j == n {
      SumSet(f, ts[..n], i, ts[i]);
    } else {
      SumTwo(f, ts[..n], i, j);
    }
  }

  /** A pointwise smaller count has a smaller total. */
  lemma {:induction false} SumLe<P(!new)>(f: P -> nat, g: P -> nat, ts: seq<P>)
    requires forall p :: f(p) <= g(p)
    ensures Sum(f, ts) <= Sum(g, ts)
    decreases |ts|
  {
    if ts != [] {
      SumLe(f, g, ts[..|ts| - 1]);
    }
  }

  /** All threads idle: nothing is counted. */
  lemma {:induction false} SumZero<P>(f: P -> nat, ts: seq<P>)
    requires forall p :: p in ts ==> f(p) == 0
    ensures Sum(f, ts) == 0
    decreases |ts|
  {
    if ts != [] {
      SumZero(f, ts[..|ts| - 1]);
    }
  }
}
