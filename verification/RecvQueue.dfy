/** The receive queue of a connection: what happens under its lock, on the linked packets. */
module RecvQueue {
  import opened Prelude
  import opened Receive

  const FLUSH_MAX: int := 100

  lemma {:induction false} LeadsAt(s: seq<Datagram>, after: Datagram?, k: nat)
    requires Leads(s, after) && k < |s|
    ensures s[k].next == if k + 1 < |s| then s[k + 1] else after
    decreases k
  {
    if k > 0 {
      LeadsAt(s[1..], after, k - 1);
    }
  }

  class Queue {
    // ReceiveQueue and ReceiveQueueTail.
    const chain: Chain
    var count: u32
    var bytes: u32

    /** The counters are the real length and sum, and the tail is the last packet. */
    ghost predicate Valid()
      reads this, chain, chain.items
    {
      chain.Valid() && count == |chain.items| && bytes == Wrap32(Bytes(chain.items))
    }

    constructor ()
      ensures Valid() && chain.items == [] && fresh(chain)
    {
      chain := new Chain();
      count, bytes := 0, 0;
    }

    /** The first loop of QuicConnQueueRecvPackets: the last packet of a chain. */
    static method FindLast(first: Datagram, ghost chain: seq<Datagram>) returns (last: Datagram)
      requires Linked(first, chain)
      ensures chain != [] && last == Last(chain)
    {
      last := first;
      ghost var k := 0;
      LeadsAt(chain, null, 0);
      while last.next != null
        invariant 0 <= k < |chain| && last == chain[k]
        invariant last.next == if k + 1 < |chain| then chain[k + 1] else null
        decreases |chain| - k
      {
        last := last.next;
        k := k + 1;
        LeadsAt(chain, null, k);
      }
    }

    /** QuicConnQueueRecvPackets: packets are appended in order, or refused when the queue is at its limit. */
    method Enqueue(first: Datagram, length: u32, byteLength: u32, window: u32, ghost more: seq<Datagram>)
      returns (accepted: bool, queueOperation: bool)
      requires Valid() && Linked(first, more) && NoDup(chain.items + more)
      requires length == |more| && byteLength == Wrap32(Bytes(more)) && |more| < 0x8000_0000
      modifies this, chain, chain.items
      ensures Valid() && (accepted <==> |old(chain.items)| < Max(10, window / 1024))
      ensures chain.items == (if accepted then old(chain.items) + more else old(chain.items))
      ensures queueOperation <==> accepted && old(chain.items) == []
    {
      var last := FindLast(first, more);
      var limit := Max(10, window / 1024);
      if count >= limit {
        return false, false;
      }
      accepted, queueOperation := true, count == 0;
      AddBytes(chain.items, more);
      chain.Append(first, last, more);
      count := Wrap32(count + length);
      bytes := Wrap32(bytes + byteLength);
    }

    /** QuicConnFlushRecv: the oldest packets, at most a hundred, leave in order. */
    method Flush() returns (first: Datagram?, n: u32, nBytes: u32, flushedAll: bool, ghost taken: seq<Datagram>)
      requires Valid()
      modifies this, chain, chain.items
      ensures Valid() && old(chain.items) == taken + chain.items
      ensures flushedAll <==> chain.items == []
      ensures n == |taken| == Min(|old(chain.items)|, FLUSH_MAX) && nBytes == Wrap32(Bytes(taken))
      ensures Linked(first, taken)
    {
      first := chain.head;
      if count > FLUSH_MAX {
        flushedAll := false;
        var last;
        last, nBytes := Walk();
        n := FLUSH_MAX;
        taken := chain.items[..FLUSH_MAX];
        Cut(last, nBytes, taken);
      } else {
        flushedAll := true;
        n, nBytes, taken := count, bytes, chain.items;
        count, bytes := 0, 0;
        chain.head, chain.tail, chain.items := null, null, [];
      }
    }

    /** The hundredth packet, and the bytes up to it. */
    method Walk() returns (last: Datagram, nBytes: u32)
      requires Valid() && count > FLUSH_MAX
      ensures last == chain.items[FLUSH_MAX - 1] && nBytes == Wrap32(Bytes(chain.items[..FLUSH_MAX]))
    {
      ghost var items := chain.items;
      last, nBytes := chain.head, 0;
      var n := 1;
      while n < FLUSH_MAX
        invariant 1 <= n <= FLUSH_MAX && last == items[n - 1] && nBytes == Wrap32(Bytes(items[..n - 1]))
      {
        LeadsAt(items, null, n - 1);
        BytesAt(items, n - 1);
        nBytes := Wrap32(nBytes + last.length);
        last := last.next;
        n := n + 1;
      }
      BytesAt(items, n - 1);
      nBytes := Wrap32(nBytes + last.length);
    }

    /** Everything after `last` stays in the queue. */
    method Cut(last: Datagram, nBytes: u32, ghost taken: seq<Datagram>)
      requires Valid() && count > FLUSH_MAX && taken == chain.items[..FLUSH_MAX] && last == taken[FLUSH_MAX - 1]
      requires nBytes == Wrap32(Bytes(taken))
      modifies this, chain, last
      ensures Valid() && chain.items == old(chain.items)[FLUSH_MAX..] && Linked(old(chain.head), taken)
    {
      ghost var items, rest := chain.items, chain.items[FLUSH_MAX..];
      assert items == taken + rest;
      AddBytes(taken, rest);
      WrapBack(bytes, nBytes, Bytes(taken), Bytes(rest));
      assert Last(rest) == Last(items);
      chain.head := Unlink(last, chain.head, taken, rest);
      count := count - FLUSH_MAX;
      bytes := Wrap32(bytes - nBytes);
      chain.items := rest;
    }

    /** Ends the chain `taken` at its last packet; the rest of the chain starts at `next`. */
    static method Unlink(last: Datagram, ghost first: Datagram?, ghost taken: seq<Datagram>, ghost rest: seq<Datagram>)
      returns (next: Datagram?)
      requires Linked(first, taken + rest) && taken != [] && last == Last(taken)
      modifies last
      ensures Linked(first, taken) && Linked(next, rest)
    {
      ghost var m := |taken| - 1;
      LeadsConcat(taken, rest, null);
      LastApart(taken, rest);
      NextOfLast(taken, First(rest, null));
      LeadsConcat(taken[..m], [taken[m]], First(rest, null));
      NoDupPrefix(taken, rest);
      next := last.next;
      LinksOf(rest, null);
      ghost var ns := Nexts(rest);
      last.next := null;
      LinksKept(rest, ns, null);
      LeadsConcat(taken[..m], [taken[m]], null);
    }
  }

  lemma AddBytes(a: seq<Datagram>, b: seq<Datagram>)
    ensures Bytes(a + b) == Bytes(a) + Bytes(b)
    ensures Wrap32(Wrap32(Bytes(a)) + Wrap32(Bytes(b))) == Wrap32(Bytes(a + b))
  {
    BytesConcat(a, b);
    WrapAdd(Bytes(a), Wrap32(Bytes(b)));
    WrapAdd(Bytes(b), Bytes(a));
  }

  lemma BytesAt(s: seq<Datagram>, k: nat)
    requires k < |s|
    ensures Wrap32(Wrap32(Bytes(s[..k])) + s[k].length) == Wrap32(Bytes(s[..k + 1]))
  {
    assert s[..k + 1] == s[..k] + [s[k]];
    BytesMore(s[..k], s[k]);
    WrapAdd(Bytes(s[..k]), s[k].length);
  }

  /** Taking a wrapped part from a wrapped sum leaves the wrapped rest. */
  lemma WrapBack(sum: u32, part: u32, a: int, b: int)
    requires sum == Wrap32(a + b) && part == Wrap32(a)
    ensures Wrap32(sum - part) == Wrap32(b)
  {
    WrapAdd(a + b, 0 - part);
    var k := (a - part) / TWO32;
    assert a - part == k * TWO32;
    assert a + b - part == b + k * TWO32;
  }
}
