/**
 QuicBindingReceive: a chain of datagrams is split into subchains with one destination connection ID
 each, handshake packets first, by relinking the datagrams through tail pointers.
 */
module Receive {
  import opened Prelude

  // Where test hooks, the ICE extension and the first validation send a datagram.
  datatype Fate = Release | Stateless | Accept

  class Datagram {
    var next: Datagram?
    const cid: seq<u8>
    const handshake: bool
    // The bytes received, and those that are left when the ICE extension has taken a relay header off.
    const arrived: u16
    const length: u16
    const fate: Fate
  }

  // -- Linked chains ---------------------------------------------------------------------------

  ghost predicate NoDup(s: seq<Datagram>) {
    forall i, j :: 0 <= i < j < |s| ==> s[i] != s[j]
  }

  function First(s: seq<Datagram>, after: Datagram?): Datagram? {
    if s == [] then after else s[0]
  }

  /** Each datagram of `s` leads to the next one, and the last one to `after`. */
  ghost predicate Leads(s: seq<Datagram>, after: Datagram?)
    reads s
  {
    s == [] || (s[0].next == First(s[1..], after) && Leads(s[1..], after))
  }

  /** The chain that starts at `head` is `s`. */
  ghost predicate Linked(head: Datagram?, s: seq<Datagram>)
    reads s
  {
    NoDup(s) && head == First(s, null) && Leads(s, null)
  }

  function Last(s: seq<Datagram>): Datagram?
  {
    if s == [] then null else s[|s| - 1]
  }

  lemma {:induction false} LeadsConcat(a: seq<Datagram>, b: seq<Datagram>, after: Datagram?)
    ensures Leads(a + b, after) <==> Leads(a, First(b, after)) && Leads(b, after)
    decreases |a|
  {
    if a == [] {
      assert a + b == b;
    } else {
      assert (a + b)[1..] == a[1..] + b;
      LeadsConcat(a[1..], b, after);
    }
  }

  /** The links of a piece, as values. */
  ghost function Nexts(s: seq<Datagram>): (ns: seq<Datagram?>)
    reads s
    ensures |ns| == |s| && forall i :: 0 <= i < |s| ==> ns[i] == s[i].next
  {
    seq(|s|, i requires 0 <= i < |s| reads s => s[i].next)
  }

  ghost predicate Chained(s: seq<Datagram>, ns: seq<Datagram?>, after: Datagram?) {
    |ns| == |s| && forall i :: 0 <= i < |s| ==> ns[i] == if i + 1 < |s| then s[i + 1] else after
  }

  lemma {:induction false} LinksOf(s: seq<Datagram>, after: Datagram?)
    requires Leads(s, after)
    ensures Chained(s, Nexts(s), after)
    decreases |s|
  {
    if s != [] {
      LinksOf(s[1..], after);
      assert forall i :: 0 < i < |s| ==> s[i] == s[1..][i - 1] && Nexts(s)[i] == Nexts(s[1..])[i - 1];
    }
  }

  /** Links that have not changed still lead the same way. */
  lemma {:induction false} LinksKept(s: seq<Datagram>, ns: seq<Datagram?>, after: Datagram?)
    requires Chained(s, ns, after) && forall i :: 0 <= i < |s| ==> s[i].next == ns[i]
    ensures Leads(s, after)
    decreases |s|
  {
    if s != [] {
      LinksKept(s[1..], ns[1..], after);
    }
  }

  lemma NextOfLast(s: seq<Datagram>, after: Datagram?)
    requires Leads(s, after) && s != []
    ensures s[|s| - 1].next == after
  {
    assert s == s[..|s| - 1] + [s[|s| - 1]];
    LeadsConcat(s[..|s| - 1], [s[|s| - 1]], after);
  }

  /** In a chain without repetition, the last datagram of a piece stands nowhere else. */
  lemma LastApart(a: seq<Datagram>, b: seq<Datagram>)
    requires NoDup(a + b) && a != []
    ensures a == a[..|a| - 1] + [a[|a| - 1]]
    ensures a[|a| - 1] !in a[..|a| - 1] && a[|a| - 1] !in b
  {
    var s, n := a + b, |a| - 1;
    assert s[n] == a[n];
    assert forall i :: 0 <= i < n ==> s[i] == a[..n][i];
    assert forall i :: 0 <= i < |b| ==> s[n + 1 + i] == b[i];
  }

  // -- What splitting means ------------------------------------------------------------------------

  function Handshakes(run: seq<Datagram>): seq<Datagram> {
    if run == [] then []
    else if run[|run| - 1].handshake then Handshakes(run[..|run| - 1]) + [run[|run| - 1]]
    else Handshakes(run[..|run| - 1])
  }

  function Others(run: seq<Datagram>): seq<Datagram> {
    if run == [] then []
    else if !run[|run| - 1].handshake then Others(run[..|run| - 1]) + [run[|run| - 1]]
    else Others(run[..|run| - 1])
  }

  /** Handshake packets first, each class in order of arrival. */
  function HandshakeFirst(run: seq<Datagram>): seq<Datagram> {
    Handshakes(run) + Others(run)
  }

  function WithFate(ds: seq<Datagram>, fate: Fate): seq<Datagram> {
    if ds == [] then []
    else if ds[|ds| - 1].fate == fate then WithFate(ds[..|ds| - 1], fate) + [ds[|ds| - 1]]
    else WithFate(ds[..|ds| - 1], fate)
  }

  predicate SameCid(d: Datagram, e: Datagram) {
    d.cid == e.cid
  }

  /** A datagram joins the last run or starts one. An exclusive binding has only one connection. */
  function Grown(exclusive: bool, gs: seq<seq<Datagram>>, d: Datagram): (r: seq<seq<Datagram>>)
    requires forall k :: 0 <= k < |gs| ==> gs[k] != []
    ensures forall k :: 0 <= k < |r| ==> r[k] != []
  {
    if gs != [] && (exclusive || SameCid(gs[|gs| - 1][0], d)) then gs[..|gs| - 1] + [gs[|gs| - 1] + [d]]
    else gs + [[d]]
  }

  /** The runs of datagrams for one connection. */
  function Runs(exclusive: bool, ds: seq<Datagram>): (gs: seq<seq<Datagram>>)
    ensures forall k :: 0 <= k < |gs| ==> gs[k] != []
  {
    if ds == [] then [] else Grown(exclusive, Runs(exclusive, ds[..|ds| - 1]), ds[|ds| - 1])
  }

  function Concat(gs: seq<seq<Datagram>>): seq<Datagram> {
    if gs == [] then [] else Concat(gs[..|gs| - 1]) + gs[|gs| - 1]
  }

  function Bytes(ds: seq<Datagram>): nat {
    if ds == [] then 0 else Bytes(ds[..|ds| - 1]) + ds[|ds| - 1].length
  }

  function Arrived(ds: seq<Datagram>): nat {
    if ds == [] then 0 else Arrived(ds[..|ds| - 1]) + ds[|ds| - 1].arrived
  }

  lemma ConcatMore(gs: seq<seq<Datagram>>, g: seq<Datagram>)
    ensures Concat(gs + [g]) == Concat(gs) + g
  {
    assert (gs + [g])[..|gs|] == gs;
  }

  /** All datagrams in one run have the same connection ID. */
  ghost predicate OneCid(g: seq<Datagram>) {
    forall i, j :: 0 <= i < |g| && 0 <= j < |g| ==> g[i].cid == g[j].cid
  }

  /** Each run has one connection ID, and none could be longer. */
  ghost predicate Maximal(gs: seq<seq<Datagram>>) {
    && (forall k :: 0 <= k < |gs| ==> gs[k] != [] && OneCid(gs[k]))
    && (forall k :: 0 < k < |gs| ==> gs[k - 1][0].cid != gs[k][0].cid)
  }

  lemma RunGrows(gs: seq<seq<Datagram>>, d: Datagram)
    requires Maximal(gs)
    ensures Maximal(Grown(false, gs, d))
  {
    if gs != [] && SameCid(gs[|gs| - 1][0], d) {
      var m := |gs| - 1;
      OneCidMore(gs[m], d);
      assert forall k :: 0 <= k < m ==> Grown(false, gs, d)[k] == gs[k];
    }
  }

  lemma OneCidMore(g: seq<Datagram>, d: Datagram)
    requires g != [] && OneCid(g) && SameCid(g[0], d)
    ensures OneCid(g + [d]) && (g + [d])[0] == g[0]
  {
    assert forall i :: 0 <= i < |g| ==> g[i].cid == g[0].cid;
  }

  lemma GrownConcat(gs: seq<seq<Datagram>>, d: Datagram)
    requires forall k :: 0 <= k < |gs| ==> gs[k] != []
    ensures Concat(Grown(false, gs, d)) == Concat(gs) + [d]
  {
    if gs != [] && SameCid(gs[|gs| - 1][0], d) {
      var front, g := gs[..|gs| - 1], gs[|gs| - 1];
      ConcatMore(front, g + [d]);
      assert Concat(front) + (g + [d]) == Concat(front) + g + [d];
    } else {
      ConcatMore(gs, [d]);
    }
  }

  lemma {:induction false} RunsConcat(ds: seq<Datagram>)
    ensures Concat(Runs(false, ds)) == ds
    decreases |ds|
  {
    if ds != [] {
      var n := |ds| - 1;
      RunsConcat(ds[..n]);
      GrownConcat(Runs(false, ds[..n]), ds[n]);
      assert ds[..n] + [ds[n]] == ds;
    }
  }

  /** The runs are the input in order, each with one connection ID, and none could be longer. */
  lemma {:induction false} RunsAreMaximal(ds: seq<Datagram>)
    ensures Maximal(Runs(false, ds)) && Concat(Runs(false, ds)) == ds
    decreases |ds|
  {
    RunsConcat(ds);
    if ds != [] {
      RunsAreMaximal(ds[..|ds| - 1]);
      RunGrows(Runs(false, ds[..|ds| - 1]), ds[|ds| - 1]);
    }
  }

  lemma OneRunGrows(run: seq<Datagram>, d: Datagram)
    ensures Grown(true, if run == [] then [] else [run], d) == [run + [d]]
  {
    if run == [] {
      assert run + [d] == [d];
    } else {
      assert [run][..0] == [];
    }
  }

  lemma {:induction false} ExclusiveIsOneRun(ds: seq<Datagram>)
    ensures Runs(true, ds) == if ds == [] then [] else [ds]
    decreases |ds|
  {
    if ds != [] {
      var run, d := ds[..|ds| - 1], ds[|ds| - 1];
      var gs := Runs(true, run);
      assert gs == if run == [] then [] else [run] by {
        ExclusiveIsOneRun(run);
      }
      OneRunGrows(run, d);
      assert run + [d] == ds;
    }
  }

  lemma HandshakesMore(run: seq<Datagram>, d: Datagram)
    ensures Handshakes(run + [d]) == if d.handshake then Handshakes(run) + [d] else Handshakes(run)
    ensures Others(run + [d]) == if d.handshake then Others(run) else Others(run) + [d]
  {
    assert (run + [d])[..|run|] == run;
  }

  lemma {:induction false} HandshakeFirstPermutes(run: seq<Datagram>)
    ensures multiset(HandshakeFirst(run)) == multiset(run) && |HandshakeFirst(run)| == |run|
    decreases |run|
  {
    if run != [] {
      var n := |run| - 1;
      HandshakeFirstPermutes(run[..n]);
      assert run == run[..n] + [run[n]];
    }
  }

  // -- The release chain -------------------------------------------------------------------------------

  /** A chain with a tail pointer; a null tail stands for the address of the head. */
  class Chain {
    var head: Datagram?
    var tail: Datagram?
    ghost var items: seq<Datagram>

    ghost predicate Valid()
      reads this, items
    {
      Linked(head, items) && tail == Last(items)
    }

    constructor ()
      ensures Valid() && items == []
    {
      head, tail, items := null, null, [];
    }

    /** Lets the last item lead to `first`. */
    method LinkTail(first: Datagram, ghost more: seq<Datagram>)
      requires Valid() && tail != null && NoDup(items + more) && Leads(more, null)
      modifies tail
      ensures head == First(items, null) && Leads(items, first) && Leads(more, null)
    {
      ghost var n := |items| - 1;
      LastApart(items, more);
      LeadsConcat(items[..n], [items[n]], null);
      tail.next := first;
      LeadsConcat(items[..n], [items[n]], first);
    }

    /** Puts the chain `more`, from `first` to `last`, at the end. */
    method Append(first: Datagram, last: Datagram, ghost more: seq<Datagram>)
      requires Valid() && Linked(first, more) && more != [] && last == Last(more) && NoDup(items + more)
      modifies this, items
      ensures Valid() && items == old(items) + more
    {
      if tail == null {
        head := first;
      } else {
        LinkTail(first, more);
      }
      tail := last;
      LeadsConcat(items, more, null);
      items := items + more;
    }
  }

  // -- The subchain being built --------------------------------------------------------------------------

  lemma Inserted(a: seq<Datagram>, d: Datagram, b: seq<Datagram>)
    requires NoDup(a + b) && d !in a && d !in b
    ensures NoDup(a + [d] + b) && a + ([d] + b) == a + [d] + b
  {
    var s, t := a + b, a + [d] + b;
    forall i, j | 0 <= i < j < |t|
      ensures t[i] != t[j]
    {
      if i != |a| && j != |a| {
        assert t[i] == s[if i < |a| then i else i - 1] && t[j] == s[if j < |a| then j else j - 1];
      }
    }
  }

  lemma InEither(a: seq<Datagram>, b: seq<Datagram>)
    ensures forall d :: d in a || d in b <==> d in a + b
  {
  }

  lemma BytesMore(run: seq<Datagram>, d: Datagram)
    ensures Bytes(run + [d]) == Bytes(run) + d.length
  {
    assert (run + [d])[..|run|] == run;
  }

  class SubChain {
    var head: Datagram?
    var tail: Datagram?
    var dataTail: Datagram?
    var length: u32
    var bytes: u32
    // The datagrams inserted, in order of arrival, and the two pieces of the chain.
    ghost var run: seq<Datagram>
    ghost var hs: seq<Datagram>
    ghost var data: seq<Datagram>

    ghost predicate Shape()
      reads this, hs, data
    {
      && NoDup(hs + data) && head == First(hs + data, null) && Leads(hs, First(data, null)) && Leads(data, null)
      && tail == Last(hs) && dataTail == Last(hs + data)
    }

    ghost predicate Valid()
      reads this, hs, data
    {
      && Shape()
      && hs == Handshakes(run) && data == Others(run)
      && length == Wrap32(|run|) && bytes == Wrap32(Bytes(run))
    }

    constructor ()
      ensures Valid() && run == []
    {
      head, tail, dataTail, length, bytes, run, hs, data := null, null, null, 0, 0, [], [], [];
    }

    /** The subchain is a chain of its datagrams, handshake packets first, with true totals. */
    lemma IsChain()
      requires Valid() && run != []
      ensures
        var items := hs + data;
        && items != [] && items == HandshakeFirst(run) && Linked(head, items) && dataTail == Last(items)
        && length == Wrap32(|items|) && bytes == Wrap32(Bytes(items))
    {
      LeadsConcat(hs, data, null);
      TotalsKept(run);
    }

    lemma NotEmpty()
      requires Valid()
      ensures head != null <==> run != []
      ensures head != null ==> head in HandshakeFirst(run)
    {
      HandshakeFirstPermutes(run);
    }

    /** Writes through a tail pointer: `prev` is the last node of `a`, or null for the head. */
    method Link(prev: Datagram?, d: Datagram, ghost a: seq<Datagram>, ghost b: seq<Datagram>)
      requires NoDup(a + b) && head == First(a + b, null) && Leads(a, First(b, null)) && Leads(b, null)
      requires prev == Last(a) && d !in a && d !in b && d.next == First(b, null)
      modifies `head, a
      ensures NoDup(a + [d] + b) && head == First(a + [d] + b, null)
      ensures Leads(a, d) && Leads([d], First(b, null)) && Leads(b, null)
    {
      Inserted(a, d, b);
      ghost var n := |a| - 1;
      if prev == null {
        head := d;
      } else {
        LastApart(a, [d] + b);
        LeadsConcat(a[..n], [a[n]], First(b, null));
        prev.next := d;
        LeadsConcat(a[..n], [a[n]], d);
      }
    }

    method PlaceData(d: Datagram)
      requires Shape() && d !in hs && d !in data && d.next == null
      modifies `head, `dataTail, `data, d, hs, data
      ensures Shape() && data == old(data) + [d]
    {
      LeadsConcat(hs, data, null);
      assert (hs + data) + [] == hs + data && (hs + data) + [d] + [] == hs + (data + [d]);
      InEither(hs, data);
      Link(dataTail, d, hs + data, []);
      dataTail := d;
      LeadsConcat(hs, data, d);
      LeadsConcat(data, [d], null);
      data := data + [d];
    }

    /** The first branch is taken while there are no other packets, whose tail then moves along. */
    method PlaceHandshake(d: Datagram)
      requires Shape() && d !in hs && d !in data && d.next == null
      modifies `head, `tail, `dataTail, `hs, d, hs
      ensures Shape() && hs == old(hs) + [d]
    {
      var target := if tail == null then head else tail.next;
      assert target == First(data, null) by {
        if tail != null {
          NextOfLast(hs, First(data, null));
        }
      }
      if target == null {
        Link(tail, d, hs, data);
        tail := d;
        dataTail := d;
        assert hs + [d] + data == hs + [d];
      } else {
        d.next := target;
        Link(tail, d, hs, data);
        tail := d;
        assert Last(hs + [d] + data) == Last(data) == Last(hs + data);
      }
      LeadsConcat(hs, [d], First(data, null));
      hs := hs + [d];
    }

    /** SubChainLength and SubChainBytes. */
    method Count(d: Datagram)
      requires length == Wrap32(|run|) && bytes == Wrap32(Bytes(run))
      modifies `length, `bytes, `run
      ensures run == old(run) + [d] && length == Wrap32(|run|) && bytes == Wrap32(Bytes(run))
    {
      BytesMore(run, d);
      WrapAdd(|run|, 1);
      WrapAdd(Bytes(run), d.length);
      length := Wrap32(length + 1);
      bytes := Wrap32(bytes + d.length);
      run := run + [d];
    }

    /** Handshake packets go after the handshake packets, the others to the end. */
    method Insert(d: Datagram)
      requires Valid() && d !in hs && d !in data && d.next == null
      modifies this, d, hs, data
      ensures Valid() && run == old(run) + [d]
      ensures hs == (if d.handshake then old(hs) + [d] else old(hs))
      ensures data == (if d.handshake then old(data) else old(data) + [d])
    {
      HandshakesMore(run, d);
      Count(d);
      if !d.handshake {
        PlaceData(d);
      } else {
        PlaceHandshake(d);
      }
    }

    /** Starts a new subchain. */
    method Clear()
      modifies this
      ensures Valid() && run == []
    {
      head, tail, dataTail, length, bytes, run, hs, data := null, null, null, 0, 0, [], [], [];
    }
  }

  // -- Delivery -------------------------------------------------------------------------------------------

  /** QuicBindingDeliverPackets: takes a subchain over, or refuses it. */
  class Sink {
    const verdict: nat -> bool
    var offers: nat
    ghost var offered: seq<seq<Datagram>>
    ghost var taken: seq<Datagram>

    ghost predicate Valid()
      reads this
    {
      offers == |offered|
    }

    method Deliver(head: Datagram, length: u32, bytes: u32, ghost items: seq<Datagram>) returns (ok: bool)
      requires Valid() && items != [] && Linked(head, items)
      requires length == Wrap32(|items|) && bytes == Wrap32(Bytes(items))
      modifies this
      ensures Valid() && offered == old(offered) + [items] && ok == verdict(|old(offered)|)
      ensures taken == if ok then old(taken) + items else old(taken)
    {
      ok := verdict(offers);
      offers := offers + 1;
      offered := offered + [items];
      if ok {
        taken := taken + items;
      }
    }
  }

  lemma {:induction false} BytesSplit(run: seq<Datagram>)
    ensures Bytes(Handshakes(run)) + Bytes(Others(run)) == Bytes(run)
    decreases |run|
  {
    if run != [] {
      var n := |run| - 1;
      BytesSplit(run[..n]);
      if run[n].handshake {
        BytesMore(Handshakes(run[..n]), run[n]);
      } else {
        BytesMore(Others(run[..n]), run[n]);
      }
    }
  }

  lemma {:induction false} BytesConcat(a: seq<Datagram>, b: seq<Datagram>)
    ensures Bytes(a + b) == Bytes(a) + Bytes(b)
    decreases |b|
  {
    if b == [] {
      assert a + b == a;
    } else {
      var n := |b| - 1;
      assert a + b == (a + b[..n]) + [b[n]] && b == b[..n] + [b[n]];
      BytesMore(a + b[..n], b[n]);
      BytesMore(b[..n], b[n]);
      BytesConcat(a, b[..n]);
    }
  }

  /** Putting handshake packets first changes neither of the totals. */
  lemma TotalsKept(run: seq<Datagram>)
    ensures |HandshakeFirst(run)| == |run| && Bytes(HandshakeFirst(run)) == Bytes(run)
  {
    HandshakeFirstPermutes(run);
    BytesSplit(run);
    BytesConcat(Handshakes(run), Others(run));
  }

  /** The group went to the release chain or was taken over. */
  ghost predicate Handed(ok: bool, release: seq<Datagram>, taken: seq<Datagram>, group: seq<Datagram>,
                         release': seq<Datagram>, taken': seq<Datagram>) {
    if ok then release' == release && taken' == taken + group
    else release' == release + group && taken' == taken
  }

  /** Offers the subchain and starts a new one; a refused subchain goes to the release chain. */
  method Flush(sink: Sink, release: Chain, sub: SubChain)
    requires sink.Valid() && release.Valid() && sub.Valid() && sub.run != []
    requires NoDup(release.items + (sub.hs + sub.data))
    modifies sink, release, release.items, sub
    ensures sink.Valid() && release.Valid() && sub.Valid() && sub.run == []
    ensures sink.offered == old(sink.offered) + [HandshakeFirst(old(sub.run))]
    ensures Handed(sink.verdict(|old(sink.offered)|), old(release.items), old(sink.taken), HandshakeFirst(old(sub.run)),
                   release.items, sink.taken)
  {
    ghost var items := sub.hs + sub.data;
    sub.IsChain();
    var ok := sink.Deliver(sub.head, sub.length, sub.bytes, items);
    if !ok {
      release.Append(sub.head, sub.dataTail, items);
    }
    sub.Clear();
  }

  // -- The receive loop ---------------------------------------------------------------------------------

  ghost function Offers(gs: seq<seq<Datagram>>): seq<seq<Datagram>> {
    seq(|gs|, k requires 0 <= k < |gs| => HandshakeFirst(gs[k]))
  }

  /** A datagram joins the last run, or starts one. */
  lemma RunsMore(exclusive: bool, accepted: seq<Datagram>, d: Datagram, gs: seq<seq<Datagram>>, run: seq<Datagram>)
    requires Runs(exclusive, accepted) == if run == [] then gs else gs + [run]
    ensures
      run != [] && (exclusive || run[0].cid == d.cid) ==> Runs(exclusive, accepted + [d]) == gs + [run + [d]]
    ensures
      run != [] && !(exclusive || run[0].cid == d.cid) ==> Runs(exclusive, accepted + [d]) == gs + [run] + [[d]]
    ensures run == [] && gs == [] ==> Runs(exclusive, accepted + [d]) == [[d]]
  {
    assert (accepted + [d])[..|accepted|] == accepted;
    if run != [] {
      assert (gs + [run])[..|gs|] == gs;
    }
  }

  /** The head of a subchain, whichever packet that is, has the connection ID of the whole run. */
  lemma HeadCid(accepted: seq<Datagram>, gs: seq<seq<Datagram>>, run: seq<Datagram>, head: Datagram)
    requires Runs(false, accepted) == gs + [run] && run != [] && head in HandshakeFirst(run)
    ensures head.cid == run[0].cid
  {
    RunsAreMaximal(accepted);
    assert OneCid((gs + [run])[|gs|]);
    HandshakeFirstPermutes(run);
    assert head in multiset(HandshakeFirst(run));
    assert head in run;
  }

  lemma OffersMore(before: seq<seq<Datagram>>, gs: seq<seq<Datagram>>, g: seq<Datagram>)
    ensures before + Offers(gs + [g]) == before + Offers(gs) + [HandshakeFirst(g)]
  {
    assert Offers(gs + [g]) == Offers(gs) + [HandshakeFirst(g)];
  }

  /** Delivers the current subchain if the datagram does not belong to it. */
  method StartRun(exclusive: bool, sink: Sink, release: Chain, sub: SubChain, d: Datagram) returns (starts: bool)
    requires sink.Valid() && release.Valid() && sub.Valid() && NoDup(release.items + (sub.hs + sub.data))
    modifies sink, release, release.items, sub
    ensures sink.Valid() && release.Valid() && sub.Valid()
    ensures starts <==> !exclusive && old(sub.head) != null && d.cid != old(sub.head).cid
    ensures !starts ==>
              sub.run == old(sub.run) && sub.hs == old(sub.hs) && sub.data == old(sub.data) &&
              release.items == old(release.items) && sink.offered == old(sink.offered) && sink.taken == old(sink.taken)
    ensures starts ==>
              && sub.run == [] && sink.offered == old(sink.offered) + [HandshakeFirst(old(sub.run))]
              && Handed(sink.verdict(|old(sink.offered)|), old(release.items), old(sink.taken),
                        HandshakeFirst(old(sub.run)), release.items, sink.taken)
    ensures starts ==> sub.hs == [] && sub.data == []
  {
    starts := false;
    if !exclusive && sub.head != null {
      if d.cid != sub.head.cid {
        starts := true;
        sub.NotEmpty();
        Flush(sink, release, sub);
      }
    }
  }

  /** No datagram is in the two chains twice. */
  ghost predicate Apart(release: Chain, sub: SubChain)
    reads release, sub
  {
    NoDup(release.items + (sub.hs + sub.data))
  }

  ghost function Members(s: seq<Datagram>): set<Datagram> {
    set x | x in s
  }

  ghost function Nodes(release: Chain, sub: SubChain): set<Datagram>
    reads release, sub
  {
    Members(release.items) + Members(sub.hs) + Members(sub.data)
  }

  lemma MembersMore(s: seq<Datagram>, d: Datagram)
    ensures Members(s + [d]) == Members(s) + {d}
  {
  }

  lemma ApartMore(r: seq<Datagram>, hs: seq<Datagram>, data: seq<Datagram>, d: Datagram)
    requires NoDup(r + (hs + data)) && d !in r && d !in hs && d !in data
    ensures NoDup(r + ((hs + [d]) + data)) && NoDup(r + (hs + (data + [d]))) && NoDup((r + [d]) + (hs + data))
    ensures NoDup(r) && forall x :: x in r ==> x !in hs && x !in data
  {
    DisjointPieces(r, hs + data);
    InEither(hs, data);
    assert r + (hs + data) == (r + hs) + data == (r + hs + data) + [] == r + (hs + data);
    Inserted(r + hs, d, data);
    Inserted(r + hs + data, d, []);
    Inserted(r, d, hs + data);
    assert r + ((hs + [d]) + data) == (r + hs) + [d] + data;
    assert r + (hs + (data + [d])) == (r + hs + data) + [d] + [];
    assert (r + [d]) + (hs + data) == r + [d] + (hs + data);
    assert forall i :: 0 <= i < |r| ==> (r + (hs + data))[i] == r[i];
  }

  lemma DisjointPieces(a: seq<Datagram>, b: seq<Datagram>)
    requires NoDup(a + b)
    ensures forall x :: x in a ==> x !in b
  {
    var s := a + b;
    forall x | x in a
      ensures x !in b
    {
      var i :| 0 <= i < |a| && a[i] == x;
      assert s[i] == x;
      assert forall j :: 0 <= j < |b| ==> s[|a| + j] == b[j];
    }
  }

  lemma NoDupHanded(ok: bool, release: seq<Datagram>, taken: seq<Datagram>, group: seq<Datagram>,
                    release': seq<Datagram>, taken': seq<Datagram>)
    requires Handed(ok, release, taken, group, release', taken') && NoDup(release + group)
    ensures NoDup(release') && release' + ([] + []) == release'
  {
    assert forall i :: 0 <= i < |release| ==> (release + group)[i] == release[i];
  }

  /** The insertion leaves any other chain alone. */
  method InsertApart(sub: SubChain, d: Datagram, ghost others: seq<Datagram>)
    requires sub.Valid() && d.next == null && d !in sub.hs && d !in sub.data
    requires Leads(others, null) && forall x :: x in others ==> x != d && x !in sub.hs && x !in sub.data
    modifies sub, sub.hs, sub.data, d
    ensures sub.Valid() && sub.run == old(sub.run) + [d]
    ensures sub.hs == (if d.handshake then old(sub.hs) + [d] else old(sub.hs))
    ensures sub.data == (if d.handshake then old(sub.data) else old(sub.data) + [d])
    ensures Leads(others, null)
  {
    LinksOf(others, null);
    ghost var ns := Nexts(others);
    sub.Insert(d);
    assert forall x :: x in others ==> x.next == old(x.next);
    assert forall i :: 0 <= i < |others| ==> others[i] in others && ns[i] == old(others[i].next);
    LinksKept(others, ns, null);
  }

  method InsertBeside(release: Chain, sub: SubChain, d: Datagram)
    requires release.Valid() && sub.Valid() && Apart(release, sub)
    requires d.next == null && d !in Nodes(release, sub)
    modifies sub, sub.hs, sub.data, d
    ensures release.Valid() && sub.Valid() && Apart(release, sub) && sub.run == old(sub.run) + [d]
    ensures Nodes(release, sub) == old(Nodes(release, sub)) + {d}
  {
    ApartMore(release.items, sub.hs, sub.data, d);
    MembersMore(sub.hs, d);
    MembersMore(sub.data, d);
    InsertApart(sub, d, release.items);
  }

  /** Starting a new subchain keeps the chains apart. */
  method StartBeside(exclusive: bool, sink: Sink, release: Chain, sub: SubChain, d: Datagram) returns (starts: bool)
    requires sink.Valid() && release.Valid() && sub.Valid() && Apart(release, sub)
    modifies sink, release, release.items, sub
    ensures sink.Valid() && release.Valid() && sub.Valid() && Apart(release, sub)
    ensures Nodes(release, sub) <= old(Nodes(release, sub))
    ensures forall x :: x in sub.hs || x in sub.data ==> x in old(sub.hs) || x in old(sub.data)
    ensures starts <==> !exclusive && old(sub.head) != null && d.cid != old(sub.head).cid
    ensures !starts ==>
              sub.run == old(sub.run) && release.items == old(release.items) &&
              sink.offered == old(sink.offered) && sink.taken == old(sink.taken)
    ensures starts ==>
              && sub.run == [] && sink.offered == old(sink.offered) + [HandshakeFirst(old(sub.run))]
              && Handed(sink.verdict(|old(sink.offered)|), old(release.items), old(sink.taken),
                        HandshakeFirst(old(sub.run)), release.items, sink.taken)
  {
    ghost var released, taken, group := release.items, sink.taken, sub.hs + sub.data;
    ghost var ok := sink.verdict(|sink.offered|);
    starts := StartRun(exclusive, sink, release, sub, d);
    if starts {
      NoDupHanded(ok, released, taken, group, release.items, sink.taken);
    }
  }

  /** An accepted datagram: a new subchain if need be, then the insertion. */
  method TakeIn(exclusive: bool, sink: Sink, release: Chain, sub: SubChain, d: Datagram) returns (starts: bool)
    requires sink.Valid() && release.Valid() && sub.Valid() && Apart(release, sub)
    requires d.next == null && d !in Nodes(release, sub)
    modifies sink, release, release.items, sub, sub.hs, sub.data, d
    ensures sink.Valid() && release.Valid() && sub.Valid() && Apart(release, sub)
    ensures Nodes(release, sub) <= old(Nodes(release, sub)) + {d}
    ensures starts <==> !exclusive && old(sub.head) != null && d.cid != old(sub.head).cid
    ensures !starts ==>
              sub.run == old(sub.run) + [d] && release.items == old(release.items) &&
              sink.offered == old(sink.offered) && sink.taken == old(sink.taken)
    ensures starts ==>
              && sub.run == [d] && sink.offered == old(sink.offered) + [HandshakeFirst(old(sub.run))]
              && Handed(sink.verdict(|old(sink.offered)|), old(release.items), old(sink.taken),
                        HandshakeFirst(old(sub.run)), release.items, sink.taken)
  {
    starts := StartBeside(exclusive, sink, release, sub, d);
    InsertBeside(release, sub, d);
  }

  // Where every datagram seen so far is, and which groups were offered.
  datatype Books = Books(
    done: seq<Datagram>, gs: seq<seq<Datagram>>, run: seq<Datagram>, offered: seq<seq<Datagram>>,
    release: seq<Datagram>, taken: seq<Datagram>, stateless: seq<Datagram>)

  /** Every datagram is in exactly one place, as often as it came. */
  ghost predicate Conserved(base: seq<Datagram>, b: Books) {
    multiset(b.release) + multiset(b.taken) + multiset(b.stateless) + multiset(b.run) ==
    multiset(base) + multiset(b.done)
  }

  ghost predicate Grouped(exclusive: bool, before: seq<seq<Datagram>>, b: Books) {
    && b.offered == before + Offers(b.gs)
    && Runs(exclusive, WithFate(b.done, Accept)) == (if b.run == [] then b.gs else b.gs + [b.run])
    && (b.run == [] ==> b.gs == [])
  }

  ghost predicate Kept(exclusive: bool, before: seq<seq<Datagram>>, base: seq<Datagram>, b: Books) {
    Grouped(exclusive, before, b) && Conserved(base, b) && b.stateless == WithFate(b.done, Stateless)
  }

  lemma WithFateMore(ds: seq<Datagram>, d: Datagram, fate: Fate)
    ensures WithFate(ds + [d], fate) == if d.fate == fate then WithFate(ds, fate) + [d] else WithFate(ds, fate)
  {
    assert (ds + [d])[..|ds|] == ds;
  }

  lemma MultisetMore(s: seq<Datagram>, d: Datagram)
    ensures multiset(s + [d]) == multiset(s) + multiset{d}
  {
  }

  /** The books when a datagram is dropped or becomes a stateless operation. */
  ghost function Passed(b: Books, d: Datagram): Books {
    var c := b.(done := b.done + [d]);
    if d.fate == Release then c.(release := b.release + [d]) else c.(stateless := b.stateless + [d])
  }

  lemma KeptPassing(exclusive: bool, before: seq<seq<Datagram>>, base: seq<Datagram>, b: Books, d: Datagram)
    requires Kept(exclusive, before, base, b) && d.fate != Accept
    ensures Kept(exclusive, before, base, Passed(b, d))
  {
    WithFateMore(b.done, d, Accept);
    WithFateMore(b.done, d, Stateless);
    MultisetMore(b.done, d);
    MultisetMore(b.release, d);
    MultisetMore(b.stateless, d);
    AddedOnce(multiset(b.release), multiset(b.taken), multiset(b.stateless), multiset(b.run), multiset(base),
              multiset(b.done), d);
  }

  lemma AddedOnce(r: multiset<Datagram>, t: multiset<Datagram>, s: multiset<Datagram>, u: multiset<Datagram>,
                  base: multiset<Datagram>, done: multiset<Datagram>, d: Datagram)
    requires r + t + s + u == base + done
    ensures (r + multiset{d}) + t + s + u == base + (done + multiset{d})
    ensures r + t + (s + multiset{d}) + u == base + (done + multiset{d})
    ensures r + t + s + (u + multiset{d}) == base + (done + multiset{d})
    ensures (r + u) + t + s + multiset{d} == base + (done + multiset{d})
    ensures r + (t + u) + s + multiset{d} == base + (done + multiset{d})
  {
    var x := multiset{d};
    assert base + (done + x) == (r + t + s + u) + x;
    assert (r + x) + t + s + u == (r + t + s + u) + x;
  }

  lemma KeptJoining(exclusive: bool, before: seq<seq<Datagram>>, base: seq<Datagram>, b: Books, d: Datagram)
    requires Kept(exclusive, before, base, b) && d.fate == Accept
    requires b.run != [] ==> exclusive || b.run[0].cid == d.cid
    ensures Kept(exclusive, before, base, b.(done := b.done + [d], run := b.run + [d]))
  {
    WithFateMore(b.done, d, Accept);
    WithFateMore(b.done, d, Stateless);
    RunsMore(exclusive, WithFate(b.done, Accept), d, b.gs, b.run);
    assert b.run == [] ==> b.gs + [b.run + [d]] == [[d]];
    MultisetMore(b.done, d);
    MultisetMore(b.run, d);
    AddedOnce(multiset(b.release), multiset(b.taken), multiset(b.stateless), multiset(b.run), multiset(base),
              multiset(b.done), d);
  }

  lemma ConservedStarting(base: seq<Datagram>, b: Books, d: Datagram, ok: bool, release: seq<Datagram>,
                          taken: seq<Datagram>, c: Books)
    requires Conserved(base, b) && Handed(ok, b.release, b.taken, HandshakeFirst(b.run), release, taken)
    requires c.done == b.done + [d] && c.run == [d] && c.release == release && c.taken == taken
    requires c.stateless == b.stateless
    ensures Conserved(base, c)
  {
    var group := HandshakeFirst(b.run);
    HandshakeFirstPermutes(b.run);
    MultisetMore(b.done, d);
    assert multiset(b.release + group) == multiset(b.release) + multiset(group);
    assert multiset(b.taken + group) == multiset(b.taken) + multiset(group);
    assert multiset([d]) == multiset{d};
    AddedOnce(multiset(b.release), multiset(b.taken), multiset(b.stateless), multiset(b.run), multiset(base),
              multiset(b.done), d);
  }

  lemma GroupedStarting(exclusive: bool, before: seq<seq<Datagram>>, b: Books, d: Datagram, c: Books)
    requires Grouped(exclusive, before, b) && d.fate == Accept && b.run != []
    requires !exclusive && b.run[0].cid != d.cid
    requires c.done == b.done + [d] && c.gs == b.gs + [b.run] && c.run == [d]
    requires c.offered == b.offered + [HandshakeFirst(b.run)]
    ensures Grouped(exclusive, before, c)
  {
    assert c.offered == before + Offers(c.gs) by {
      OffersMore(before, b.gs, b.run);
    }
    WithFateMore(b.done, d, Accept);
    RunsMore(exclusive, WithFate(b.done, Accept), d, b.gs, b.run);
  }

  lemma KeptStarting(exclusive: bool, before: seq<seq<Datagram>>, base: seq<Datagram>, b: Books, d: Datagram,
                     ok: bool, release: seq<Datagram>, taken: seq<Datagram>)
    requires Kept(exclusive, before, base, b) && d.fate == Accept && b.run != []
    requires !exclusive && b.run[0].cid != d.cid
    requires Handed(ok, b.release, b.taken, HandshakeFirst(b.run), release, taken)
    ensures Kept(exclusive, before, base,
                 Books(b.done + [d], b.gs + [b.run], [d], b.offered + [HandshakeFirst(b.run)], release, taken,
                       b.stateless))
  {
    var c := Books(b.done + [d], b.gs + [b.run], [d], b.offered + [HandshakeFirst(b.run)], release, taken, b.stateless);
    WithFateMore(b.done, d, Stateless);
    GroupedStarting(exclusive, before, b, d, c);
    ConservedStarting(base, b, d, ok, release, taken, c);
  }

  /** The books after one more datagram. `verdict` says which groups are taken over. */
  ghost function Next(exclusive: bool, verdict: nat -> bool, b: Books, d: Datagram): Books {
    if d.fate != Accept then Passed(b, d)
    else if b.run != [] && !exclusive && b.run[0].cid != d.cid then
      var group, ok := HandshakeFirst(b.run), verdict(|b.offered|);
      Books(b.done + [d], b.gs + [b.run], [d], b.offered + [group], if ok then b.release else b.release + group,
            if ok then b.taken + group else b.taken, b.stateless)
    else b.(done := b.done + [d], run := b.run + [d])
  }

  lemma KeptNext(exclusive: bool, verdict: nat -> bool, before: seq<seq<Datagram>>, base: seq<Datagram>, b: Books,
                 d: Datagram)
    requires Kept(exclusive, before, base, b)
    ensures Kept(exclusive, before, base, Next(exclusive, verdict, b, d))
  {
    var c := Next(exclusive, verdict, b, d);
    if d.fate != Accept {
      KeptPassing(exclusive, before, base, b, d);
    } else if b.run != [] && !exclusive && b.run[0].cid != d.cid {
      KeptStarting(exclusive, before, base, b, d, verdict(|b.offered|), c.release, c.taken);
    } else {
      KeptJoining(exclusive, before, base, b, d);
    }
  }

  /** The head of the subchain, whichever packet that is, stands for the connection of the whole run. */
  ghost predicate HeadOk(exclusive: bool, sub: SubChain)
    reads sub
  {
    !exclusive && sub.head != null && sub.run != [] ==> sub.head.cid == sub.run[0].cid
  }

  lemma KeptTurn(exclusive: bool, before: seq<seq<Datagram>>, base: seq<Datagram>, b: Books, sink: Sink,
                 sub: SubChain, d: Datagram)
    requires Kept(exclusive, before, base, b) && sub.Valid() && sub.run == b.run
    ensures HeadOk(exclusive, sub) && Kept(exclusive, before, base, Next(exclusive, sink.verdict, b, d))
  {
    KeptNext(exclusive, sink.verdict, before, base, b, d);
    sub.NotEmpty();
    if !exclusive && sub.head != null {
      HeadCid(WithFate(b.done, Accept), b.gs, b.run, sub.head);
    }
  }

  /** One datagram. `c` follows what happened to it. */
  method TakeOne(exclusive: bool, sink: Sink, release: Chain, sub: SubChain, d: Datagram, ghost b: Books)
    returns (ghost c: Books)
    requires sink.Valid() && release.Valid() && sub.Valid() && Apart(release, sub)
    requires d.next == null && d !in Nodes(release, sub)
    requires HeadOk(exclusive, sub) && Matches(b, sink, release, sub)
    modifies sink, release, release.items, sub, sub.hs, sub.data, d
    ensures sink.Valid() && release.Valid() && sub.Valid() && Apart(release, sub)
    ensures Nodes(release, sub) <= old(Nodes(release, sub)) + {d}
    ensures c == Next(exclusive, sink.verdict, b, d) && Matches(c, sink, release, sub)
  {
    c := Next(exclusive, sink.verdict, b, d);
    if d.fate == Accept {
      sub.NotEmpty();
      var _ := TakeIn(exclusive, sink, release, sub, d);
    } else if d.fate == Release {
      ReleaseBeside(release, sub, d);
    }
  }

  ghost predicate Matches(b: Books, sink: Sink, release: Chain, sub: SubChain)
    reads sink, release, sub
  {
    b.run == sub.run && b.offered == sink.offered && b.release == release.items && b.taken == sink.taken
  }

  /** A dropped or consumed datagram leaves other chains alone. */
  method ReleaseApart(release: Chain, d: Datagram, ghost hs: seq<Datagram>, ghost data: seq<Datagram>)
    requires release.Valid() && d.next == null && NoDup(release.items + [d])
    requires forall x :: x in release.items ==> x !in hs && x !in data
    requires Leads(hs, First(data, null)) && Leads(data, null)
    modifies release, release.items
    ensures release.Valid() && release.items == old(release.items) + [d]
    ensures Leads(hs, First(data, null)) && Leads(data, null)
  {
    LinksOf(hs, First(data, null));
    LinksOf(data, null);
    ghost var hns, dns := Nexts(hs), Nexts(data);
    release.Append(d, d, [d]);
    assert forall x :: x in hs || x in data ==> x.next == old(x.next);
    assert forall i :: 0 <= i < |hs| ==> hs[i] in hs && hns[i] == old(hs[i].next);
    assert forall i :: 0 <= i < |data| ==> data[i] in data && dns[i] == old(data[i].next);
    LinksKept(hs, hns, First(data, null));
    LinksKept(data, dns, null);
  }

  method ReleaseBeside(release: Chain, sub: SubChain, d: Datagram)
    requires release.Valid() && sub.Valid() && Apart(release, sub)
    requires d.next == null && d !in Nodes(release, sub)
    modifies release, release.items
    ensures release.Valid() && sub.Valid() && Apart(release, sub) && release.items == old(release.items) + [d]
    ensures Nodes(release, sub) == old(Nodes(release, sub)) + {d}
  {
    ApartMore(release.items, sub.hs, sub.data, d);
    MembersMore(release.items, d);
    NoDupPrefix(release.items + [d], sub.hs + sub.data);
    ReleaseApart(release, d, sub.hs, sub.data);
  }

  lemma NoDupPrefix(a: seq<Datagram>, b: seq<Datagram>)
    requires NoDup(a + b)
    ensures NoDup(a) && NoDup(b)
  {
    assert forall i :: 0 <= i < |a| ==> a[i] == (a + b)[i];
    assert forall i :: 0 <= i < |b| ==> b[i] == (a + b)[|a| + i];
  }

  /** Removes the head of what is left of the input. */
  method Pop(d: Datagram, release: Chain, sub: SubChain, ghost rest: seq<Datagram>) returns (next: Datagram?)
    requires Linked(d, rest) && release.Valid() && sub.Valid() && Apart(release, sub)
    requires forall x :: x in rest ==> x !in Nodes(release, sub)
    modifies d
    ensures rest != [] && d == rest[0] && d.next == null && Linked(next, rest[1..])
    ensures d !in rest[1..] && d !in Nodes(release, sub)
    ensures release.Valid() && sub.Valid()
  {
    assert rest != [] && d in rest && rest == [d] + rest[1..];
    DisjointPieces([d], rest[1..]);
    LinksOf(rest[1..], null);
    LinksOf(release.items, null);
    LinksOf(sub.hs, First(sub.data, null));
    LinksOf(sub.data, null);
    ghost var rns, ins, hns, dns := Nexts(rest[1..]), Nexts(release.items), Nexts(sub.hs), Nexts(sub.data);
    next := d.next;
    d.next := null;
    LinksKept(rest[1..], rns, null);
    LinksKept(release.items, ins, null);
    LinksKept(sub.hs, hns, First(sub.data, null));
    LinksKept(sub.data, dns, null);
  }

  /** One turn of the loop: what is left of the input is not touched. */
  method Turn(exclusive: bool, sink: Sink, release: Chain, sub: SubChain, d: Datagram, ghost rest: seq<Datagram>,
              ghost b: Books)
    returns (next: Datagram?, ghost c: Books)
    requires sink.Valid() && release.Valid() && sub.Valid() && Apart(release, sub)
    requires Linked(d, rest) && forall x :: x in rest ==> x !in Nodes(release, sub)
    requires HeadOk(exclusive, sub) && Matches(b, sink, release, sub)
    modifies sink, release, sub, Nodes(release, sub), d
    ensures rest != [] && d == rest[0] && Linked(next, rest[1..])
    ensures sink.Valid() && release.Valid() && sub.Valid() && Apart(release, sub)
    ensures Nodes(release, sub) <= old(Nodes(release, sub)) + {d}
    ensures forall x :: x in rest[1..] ==> x !in Nodes(release, sub)
    ensures c == Next(exclusive, sink.verdict, b, d) && Matches(c, sink, release, sub)
  {
    next := Pop(d, release, sub, rest);
    ghost var more := rest[1..];
    assert forall x :: x in more ==> x in rest && x != d;
    c := TakeBeside(exclusive, sink, release, sub, d, next, more, b);
  }

  /** Placing a datagram leaves the rest of the input alone. */
  method TakeBeside(exclusive: bool, sink: Sink, release: Chain, sub: SubChain, d: Datagram, ghost next: Datagram?,
                    ghost more: seq<Datagram>, ghost b: Books)
    returns (ghost c: Books)
    requires sink.Valid() && release.Valid() && sub.Valid() && Apart(release, sub)
    requires d.next == null && d !in Nodes(release, sub)
    requires Linked(next, more) && forall x :: x in more ==> x != d && x !in Nodes(release, sub)
    requires HeadOk(exclusive, sub) && Matches(b, sink, release, sub)
    modifies sink, release, sub, Nodes(release, sub), d
    ensures Linked(next, more)
    ensures sink.Valid() && release.Valid() && sub.Valid() && Apart(release, sub)
    ensures Nodes(release, sub) <= old(Nodes(release, sub)) + {d}
    ensures c == Next(exclusive, sink.verdict, b, d) && Matches(c, sink, release, sub)
  {
    LinksOf(more, null);
    ghost var ns := Nexts(more);
    c := TakeOne(exclusive, sink, release, sub, d, b);
    assert Linked(next, more) by {
      assert forall x :: x in more ==> x.next == old(x.next);
      assert forall i :: 0 <= i < |ns| ==> more[i] in more && ns[i] == old(more[i].next);
      LinksKept(more, ns, null);
    }
  }

  /** The loop over the input, with empty chains to begin with. */
  method TakeAll(exclusive: bool, sink: Sink, release: Chain, sub: SubChain, first: Datagram?,
                 ghost input: seq<Datagram>, ghost pool: set<Datagram>)
    returns (count: u32, bytes: u32, ghost b: Books)
    requires sink.Valid() && Linked(first, input) && forall x :: x in input ==> x in pool
    requires release.Valid() && sub.Valid() && release.items == [] && sub.run == []
    modifies sink, release, sub, pool
    ensures sink.Valid() && release.Valid() && sub.Valid() && Apart(release, sub) && Nodes(release, sub) <= pool
    ensures Kept(exclusive, old(sink.offered), old(sink.taken), b) && Matches(b, sink, release, sub)
    ensures b.done == input && count == Wrap32(|input|) && bytes == Wrap32(Arrived(input))
  {
    var chain := first;
    ghost var before, base := sink.offered, sink.taken;
    b := Books([], [], [], before, [], base, []);
    KeptStarts(exclusive, before, base);
    GoingStarts(sink, release, sub, first, input, pool, b);
    count, bytes := 0, 0;
    ghost var rest := input;
    while chain != null
      invariant Going(sink, release, sub, chain, rest, pool, b) && Kept(exclusive, before, base, b)
      invariant Tally(input, b.done, rest, count, bytes)
      decreases |rest|
    {
      chain, b, rest, count, bytes :=
        AdvanceAndCount(exclusive, sink, release, sub, chain, rest, pool, before, base, b, input, count, bytes);
    }
    GoingEnds(sink, release, sub, rest, pool, b, input);
  }

  /** TotalChainLength and TotalDatagramBytes over what has been seen. */
  ghost predicate Tally(input: seq<Datagram>, done: seq<Datagram>, rest: seq<Datagram>, count: u32, bytes: u32) {
    input == done + rest && count == Wrap32(|done|) && bytes == Wrap32(Arrived(done))
  }

  method Counted(count: u32, bytes: u32, d: Datagram, ghost done: seq<Datagram>, ghost rest: seq<Datagram>,
                 ghost input: seq<Datagram>)
    returns (count': u32, bytes': u32)
    requires Tally(input, done, rest, count, bytes)
    ensures forall rest' :: rest == [d] + rest' ==> Tally(input, done + [d], rest', count', bytes')
  {
    assert (done + [d])[..|done|] == done;
    WrapAdd(|done|, 1);
    WrapAdd(Arrived(done), d.arrived);
    count' := Wrap32(count + 1);
    bytes' := Wrap32(bytes + d.arrived);
    forall rest' | rest == [d] + rest'
      ensures input == done + [d] + rest'
    {
    }
  }

  lemma GoingStarts(sink: Sink, release: Chain, sub: SubChain, first: Datagram?, input: seq<Datagram>,
                    pool: set<Datagram>, b: Books)
    requires sink.Valid() && Linked(first, input) && forall x :: x in input ==> x in pool
    requires release.Valid() && sub.Valid() && release.items == [] && sub.run == []
    requires b == Books([], [], [], sink.offered, [], sink.taken, [])
    ensures Going(sink, release, sub, first, input, pool, b)
  {
  }

  lemma GoingEnds(sink: Sink, release: Chain, sub: SubChain, rest: seq<Datagram>, pool: set<Datagram>, b: Books,
                  input: seq<Datagram>)
    requires Going(sink, release, sub, null, rest, pool, b) && input == b.done + rest
    ensures sink.Valid() && release.Valid() && sub.Valid() && Apart(release, sub) && Nodes(release, sub) <= pool
    ensures Matches(b, sink, release, sub) && b.done == input
  {
    assert rest == [];
  }

  /** What holds each time the loop looks at `chain`. */
  ghost predicate Going(sink: Sink, release: Chain, sub: SubChain, chain: Datagram?, rest: seq<Datagram>,
                        pool: set<Datagram>, b: Books)
    reads sink, release, release.items, sub, sub.hs, sub.data, rest
  {
    && sink.Valid() && release.Valid() && sub.Valid() && Apart(release, sub) && Linked(chain, rest)
    && Nodes(release, sub) <= pool && (forall x :: x in rest ==> x in pool && x !in Nodes(release, sub))
    && Matches(b, sink, release, sub)
  }

  method Advance(exclusive: bool, sink: Sink, release: Chain, sub: SubChain, d: Datagram, ghost rest: seq<Datagram>,
                 ghost pool: set<Datagram>, ghost b: Books)
    returns (next: Datagram?, ghost c: Books, ghost rest': seq<Datagram>)
    requires Going(sink, release, sub, d, rest, pool, b) && HeadOk(exclusive, sub)
    modifies sink, release, sub, pool
    ensures Going(sink, release, sub, next, rest', pool, c)
    ensures rest == [d] + rest' && c == Next(exclusive, sink.verdict, b, d)
  {
    assert d in rest;
    next, c := Turn(exclusive, sink, release, sub, d, rest, b);
    rest' := rest[1..];
  }

  /** The books stay right. */
  method AdvanceKept(exclusive: bool, sink: Sink, release: Chain, sub: SubChain, d: Datagram,
                     ghost rest: seq<Datagram>, ghost pool: set<Datagram>, ghost before: seq<seq<Datagram>>,
                     ghost base: seq<Datagram>, ghost b: Books)
    returns (next: Datagram?, ghost c: Books, ghost rest': seq<Datagram>)
    requires Going(sink, release, sub, d, rest, pool, b) && Kept(exclusive, before, base, b)
    modifies sink, release, sub, pool
    ensures Going(sink, release, sub, next, rest', pool, c) && Kept(exclusive, before, base, c)
    ensures rest == [d] + rest' && c.done == b.done + [d]
  {
    KeptTurn(exclusive, before, base, b, sink, sub, d);
    next, c, rest' := Advance(exclusive, sink, release, sub, d, rest, pool, b);
  }

  method AdvanceAndCount(exclusive: bool, sink: Sink, release: Chain, sub: SubChain, d: Datagram,
                         ghost rest: seq<Datagram>, ghost pool: set<Datagram>, ghost before: seq<seq<Datagram>>,
                         ghost base: seq<Datagram>, ghost b: Books, ghost input: seq<Datagram>, count: u32, bytes: u32)
    returns (next: Datagram?, ghost c: Books, ghost rest': seq<Datagram>, count': u32, bytes': u32)
    requires Going(sink, release, sub, d, rest, pool, b) && Kept(exclusive, before, base, b)
    requires Tally(input, b.done, rest, count, bytes)
    modifies sink, release, sub, pool
    ensures Going(sink, release, sub, next, rest', pool, c) && Kept(exclusive, before, base, c)
    ensures Tally(input, c.done, rest', count', bytes') && |rest'| < |rest|
  {
    count', bytes' := Counted(count, bytes, d, b.done, rest, input);
    next, c, rest' := AdvanceKept(exclusive, sink, release, sub, d, rest, pool, before, base, b);
  }

  lemma KeptStarts(exclusive: bool, before: seq<seq<Datagram>>, base: seq<Datagram>)
    ensures Kept(exclusive, before, base, Books([], [], [], before, [], base, []))
  {
    assert before + Offers([]) == before;
  }

  /** The last subchain. */
  method Finish(exclusive: bool, sink: Sink, release: Chain, sub: SubChain,
                ghost before: seq<seq<Datagram>>, ghost base: seq<Datagram>, ghost b: Books)
    requires sink.Valid() && release.Valid() && sub.Valid() && Apart(release, sub)
    requires Kept(exclusive, before, base, b) && Matches(b, sink, release, sub)
    modifies sink, release, sub, Nodes(release, sub)
    ensures release.Valid()
    ensures sink.offered == before + Offers(Runs(exclusive, WithFate(b.done, Accept)))
    ensures multiset(release.items) + multiset(sink.taken) + multiset(b.stateless) == multiset(base) + multiset(b.done)
  {
    sub.NotEmpty();
    ghost var ok, group := sink.verdict(|sink.offered|), HandshakeFirst(sub.run);
    if sub.head != null {
      // The code leaves the tail of the release chain at the last handshake packet; it is not used again.
      Flush(sink, release, sub);
    }
    KeptEnds(exclusive, before, base, b, ok, group, sink.offered, release.items, sink.taken);
  }

  lemma KeptEnds(exclusive: bool, before: seq<seq<Datagram>>, base: seq<Datagram>, b: Books, ok: bool,
                 group: seq<Datagram>, offered: seq<seq<Datagram>>, release: seq<Datagram>, taken: seq<Datagram>)
    requires Kept(exclusive, before, base, b) && group == HandshakeFirst(b.run)
    requires b.run == [] ==> offered == b.offered && release == b.release && taken == b.taken
    requires b.run != [] ==> offered == b.offered + [group] && Handed(ok, b.release, b.taken, group, release, taken)
    ensures offered == before + Offers(Runs(exclusive, WithFate(b.done, Accept)))
    ensures multiset(release) + multiset(taken) + multiset(b.stateless) == multiset(base) + multiset(b.done)
  {
    HandshakeFirstPermutes(b.run);
    if b.run != [] {
      OffersMore(before, b.gs, b.run);
      assert multiset(b.release + group) == multiset(b.release) + multiset(group);
      assert multiset(b.taken + group) == multiset(b.taken) + multiset(group);
    }
  }

  /**
   QuicBindingReceive. The groups offered are the runs of accepted datagrams with one connection ID,
   each with its handshake packets first; and every datagram ends up in exactly one of the chain
   given back, a group taken over and a stateless operation.
   */
  method ReceiveChain(exclusive: bool, sink: Sink, first: Datagram?, ghost input: seq<Datagram>)
    returns (released: Datagram?, count: u32, bytes: u32, ghost back: seq<Datagram>, ghost stateless: seq<Datagram>)
    requires sink.Valid() && Linked(first, input)
    modifies sink, set x | x in input
    ensures Linked(released, back)
    ensures sink.offered == old(sink.offered) + Offers(Runs(exclusive, WithFate(input, Accept)))
    ensures multiset(back) + multiset(sink.taken) + multiset(stateless) == multiset(old(sink.taken)) + multiset(input)
    ensures stateless == WithFate(input, Stateless)
    ensures count == Wrap32(|input|) && bytes == Wrap32(Arrived(input))
  {
    var release := new Chain();
    var sub := new SubChain();
    ghost var b;
    count, bytes, b := TakeAll(exclusive, sink, release, sub, first, input, set x | x in input);
    Finish(exclusive, sink, release, sub, old(sink.offered), old(sink.taken), b);
    released, back, stateless := release.head, release.items, b.stateless;
  }
}
