/** What the transport parameter codec guarantees: order does not matter, unknown parameters do not
 matter, and what is written reads back. */
module CodecProof {
  import opened Prelude
  import opened VarInt
  import opened TransportParams
  import opened TransportEncoder

  // -- Splitting concatenated input ---------------------------------------------------------

  lemma DecodeAfter(a: Bytes, n: nat, rest: Bytes)
    requires n <= |a| && Decode(a[n..]).Some?
    ensures Decode((a + rest)[n..]) == Decode(a[n..])
  {
    assert (a + rest)[n..] == a[n..] + rest;
    DecodeExtends(a[n..], rest);
  }

  lemma TlvExtends(a: Bytes, rest: Bytes)
    requires ParseTlv(a).Some?
    ensures ParseTlv(a + rest) == ParseTlv(a)
  {
    DecodeExtends(a, rest);
    var n := Decode(a).value.1;
    DecodeAfter(a, n, rest);
    var length := Decode(a[n..]).value;
    var start := n + length.1;
    assert (a + rest)[start..start + length.0] == a[start..start + length.0];
  }

  /** Complete inputs one after the other hold their parameters one after the other. */
  lemma {:induction false} ParseConcat(a: Bytes, b: Bytes)
    requires Parse(a).Some?
    ensures Parse(a + b) == Prepend(Parse(a).value, Parse(b))
    decreases |a|
  {
    if a == [] {
      assert a + b == b;
      PrependNone(Parse(b));
    } else {
      var (t, n) := ParseTlv(a).value;
      TlvExtends(a, b);
      assert (a + b)[n..] == a[n..] + b;
      ParseConcat(a[n..], b);
      PrependBoth(t, Parse(a[n..]).value, Parse(b));
    }
  }

  lemma PrependNone(r: Option<seq<Tlv>>)
    ensures Prepend([], r) == r
  {
    if r.Some? {
      assert [] + r.value == r.value;
    }
  }

  lemma PrependBoth(t: Tlv, ts: seq<Tlv>, r: Option<seq<Tlv>>)
    ensures Prepend([t] + ts, r) == Prepend([t], Prepend(ts, r))
  {
    if r.Some? {
      assert ([t] + ts) + r.value == [t] + (ts + r.value);
    }
  }

  lemma ParseParts(s: Bytes, a: Bytes, b: Bytes, v: Bytes, id: varint)
    requires |v| <= U32_MAX && s == a + (b + v)
    requires Decode(s) == Some((id, |a|)) && Decode(b + v) == Some((|v|, |b|))
    ensures ParseTlv(s) == Some((Tlv(id, v), |s|))
  {
    assert s[|a|..] == b + v;
    assert s[|a| + |b|..|s|] == v;
  }

  lemma TlvRoundTrip(t: Tlv)
    requires |t.value| <= U32_MAX
    ensures ParseTlv(EncodeTlv(t)) == Some((t, |EncodeTlv(t)|))
  {
    var id, length := Encode(t.id), Encode(|t.value|);
    assert EncodeTlv(t) == id + (length + t.value);
    RoundTrip(t.id, length + t.value);
    RoundTrip(|t.value|, t.value);
    ParseParts(EncodeTlv(t), id, length, t.value, t.id);
  }

  lemma ParseJoin(a: Bytes, b: Bytes, ts: seq<Tlv>, us: seq<Tlv>)
    requires Parse(a) == Some(ts) && Parse(b) == Some(us)
    ensures Parse(a + b) == Some(ts + us)
  {
    ParseConcat(a, b);
  }

  lemma ParseSingle(t: Tlv)
    requires |t.value| <= U32_MAX
    ensures Parse(EncodeTlv(t)) == Some([t])
  {
    TlvRoundTrip(t);
    var s := EncodeTlv(t);
    assert s[|s|..] == [];
    assert [t] + [] == [t];
  }

  predicate Reads(s: Bytes, ts: seq<Tlv>) {
    Parse(s) == Some(ts)
  }

  lemma ParseAppend(s: Bytes, ts: seq<Tlv>, t: Tlv)
    requires Reads(s, ts) && |t.value| <= U32_MAX
    ensures Reads(s + EncodeTlv(t), ts + [t])
  {
    ParseSingle(t);
    ParseJoin(s, EncodeTlv(t), ts, [t]);
  }

  /** What is written splits into what was to be written. */
  lemma {:induction false} ParseFlatten(ts: seq<Tlv>)
    requires forall i :: 0 <= i < |ts| ==> |ts[i].value| <= U32_MAX
    ensures Reads(Flatten(ts), ts)
    decreases |ts|
  {
    if ts != [] {
      var n := |ts| - 1;
      ParseFlatten(ts[..n]);
      ParseAppend(Flatten(ts[..n]), ts[..n], ts[n]);
      assert ts[..n] + [ts[n]] == ts;
    }
  }

  // -- Decoding as reading a map -------------------------------------------------------------------

  predicate Distinct(ts: seq<Tlv>) {
    forall i, j :: 0 <= i < j < |ts| ==> ts[i].id != ts[j].id
  }

  function MapOf(ts: seq<Tlv>): map<varint, Bytes> {
    if ts == [] then map[] else MapOf(ts[..|ts| - 1])[ts[|ts| - 1].id := ts[|ts| - 1].value]
  }

  /** The number a value holds for a member. */
  function NumberIn(f: Field, v: Bytes): varint {
    var r := if f == CibirOffset then Second(v) else First(v);
    if r.Some? then r.value else 0
  }

  /** Whether a value sets the flag of a member. */
  predicate Raises(f: Field, v: Bytes) {
    match f
    case PreferredAddress => false
    case CibirOffset => false
    case TimestampRecv => NumberIn(f, v) % 2 == 1
    case TimestampSend => NumberIn(f, v) / 2 % 2 == 1
    case _ => true
  }

  /** The structure that a set of parameters describes, whatever their order. */
  function FromMap(m: map<varint, Bytes>): Params {
    Params(set f: Field | Id(f) in m && Raises(f, m[Id(f)]),
           map f: Field | KindOf(f) == IsNumber && Id(f) in m :: NumberIn(f, m[Id(f)]),
           map f: Field | KindOf(f) == IsOctets && Id(f) in m :: m[Id(f)])
  }

  /** The members that a case of the switch stores to are those with its id. */
  ghost predicate StoresTo(k: Case, f: Field) {
    match k
    case Number(g, _, _) => f == g
    case Octets(g, _, _, _) => f == g
    case Marker(g) => f == g
    case Cibir => f == CibirEncoding || f == CibirOffset
    case Timestamp => f == TimestampRecv || f == TimestampSend
    case Preferred => f == PreferredAddress
    case Ignored => false
  }

  lemma CaseHasId(id: varint, f: Field)
    requires StoresTo(CaseOf(id), f)
    ensures Id(f) == id
  {
  }

  lemma IdHasCase(f: Field)
    ensures StoresTo(CaseOf(Id(f)), f)
    ensures CaseOf(Id(f)).Number? ==> KindOf(f) == IsNumber && f != CibirOffset
    ensures CaseOf(Id(f)).Octets? ==> KindOf(f) == IsOctets
    ensures CaseOf(Id(f)).Marker? ==> KindOf(f) == IsMarker
    ensures CaseOf(Id(f)).Number? || CaseOf(Id(f)).Octets? || CaseOf(Id(f)).Marker? ==>
              f !in {CibirEncoding, CibirOffset, TimestampRecv, TimestampSend, PreferredAddress}
  {
  }

  /** The parameter switch touches exactly the members with its id. */
  lemma StoreTouches(ctx: Context, tp: Params, id: varint, v: Bytes, f: Field, k: Case)
    requires Accepts(ctx, id, v) && k == CaseOf(id)
    ensures
      var s := Store(ctx, tp, id, v);
      && (f in s.flags <==> f in tp.flags || (Id(f) == id && Raises(f, v)))
      && (f in s.num <==> f in tp.num || (KindOf(f) == IsNumber && Id(f) == id))
      && (f in s.num ==> s.num[f] == if KindOf(f) == IsNumber && Id(f) == id then NumberIn(f, v) else tp.num[f])
      && (f in s.blob <==> f in tp.blob || (KindOf(f) == IsOctets && Id(f) == id))
      && (f in s.blob ==> s.blob[f] == if KindOf(f) == IsOctets && Id(f) == id then v else tp.blob[f])
  {
    IdHasCase(f);
    if StoresTo(k, f) {
      CaseHasId(id, f);
    }
  }

  lemma InsertFlags(ctx: Context, m: map<varint, Bytes>, id: varint, v: Bytes)
    requires id !in m && Accepts(ctx, id, v)
    ensures Store(ctx, FromMap(m), id, v).flags == FromMap(m[id := v]).flags
  {
    forall f: Field
      ensures f in Store(ctx, FromMap(m), id, v).flags <==> f in FromMap(m[id := v]).flags
    {
      StoreTouches(ctx, FromMap(m), id, v, f, CaseOf(id));
    }
  }

  lemma InsertNumbers(ctx: Context, m: map<varint, Bytes>, id: varint, v: Bytes)
    requires id !in m && Accepts(ctx, id, v)
    ensures Store(ctx, FromMap(m), id, v).num == FromMap(m[id := v]).num
  {
    var s, t := Store(ctx, FromMap(m), id, v), FromMap(m[id := v]);
    forall f: Field
      ensures (f in s.num <==> f in t.num) && (f in s.num ==> s.num[f] == t.num[f])
    {
      StoreTouches(ctx, FromMap(m), id, v, f, CaseOf(id));
    }
  }

  lemma InsertBlobs(ctx: Context, m: map<varint, Bytes>, id: varint, v: Bytes)
    requires id !in m && Accepts(ctx, id, v)
    ensures Store(ctx, FromMap(m), id, v).blob == FromMap(m[id := v]).blob
  {
    var s, t := Store(ctx, FromMap(m), id, v), FromMap(m[id := v]);
    forall f: Field
      ensures (f in s.blob <==> f in t.blob) && (f in s.blob ==> s.blob[f] == t.blob[f])
    {
      StoreTouches(ctx, FromMap(m), id, v, f, CaseOf(id));
    }
  }

  lemma StoreIsInsert(ctx: Context, m: map<varint, Bytes>, id: varint, v: Bytes)
    requires id !in m && Accepts(ctx, id, v)
    ensures Store(ctx, FromMap(m), id, v) == FromMap(m[id := v])
  {
    InsertFlags(ctx, m, id, v);
    InsertNumbers(ctx, m, id, v);
    InsertBlobs(ctx, m, id, v);
  }

  lemma {:induction false} MapHolds(ts: seq<Tlv>, id: varint)
    ensures id in MapOf(ts) <==> exists i :: 0 <= i < |ts| && ts[i].id == id
    ensures Distinct(ts) ==>
              forall i :: 0 <= i < |ts| && ts[i].id == id ==> id in MapOf(ts) && MapOf(ts)[id] == ts[i].value
    decreases |ts|
  {
    if ts != [] {
      var n := |ts| - 1;
      MapHolds(ts[..n], id);
      assert forall i :: 0 <= i < n ==> ts[..n][i] == ts[i];
      if id in MapOf(ts) && id != ts[n].id {
        var i :| 0 <= i < n && ts[..n][i].id == id;
        assert ts[i].id == id;
      }
      if exists i :: 0 <= i < |ts| && ts[i].id == id {
        var i :| 0 <= i < |ts| && ts[i].id == id;
        assert i < n ==> ts[..n][i].id == id;
      }
    }
  }

  /** Storing parameters with distinct ids gives the structure they describe. */
  lemma {:induction false} StoreAllIsMap(ctx: Context, ts: seq<Tlv>)
    requires AllAccepted(ctx, ts) && Distinct(ts)
    ensures StoreAll(ctx, ts) == FromMap(MapOf(ts))
    decreases |ts|
  {
    if ts == [] {
      assert FromMap(map[]) == Defaults();
    } else {
      var n := |ts| - 1;
      assert AllAccepted(ctx, ts[..n]) && Distinct(ts[..n]);
      StoreAllIsMap(ctx, ts[..n]);
      MapHolds(ts[..n], ts[n].id);
      StoreIsInsert(ctx, MapOf(ts[..n]), ts[n].id, ts[n].value);
    }
  }

  // -- Order does not matter -----------------------------------------------------------------------------

  lemma SameMembers(ts: seq<Tlv>, us: seq<Tlv>, i: nat)
    requires multiset(ts) == multiset(us) && i < |ts|
    ensures exists j :: 0 <= j < |us| && us[j] == ts[i]
  {
    assert ts[i] in multiset(ts);
    assert ts[i] in us;
  }

  lemma PermutedMap(ts: seq<Tlv>, us: seq<Tlv>)
    requires multiset(ts) == multiset(us) && Distinct(ts) && Distinct(us)
    ensures MapOf(ts) == MapOf(us)
  {
    forall id: varint
      ensures id in MapOf(ts) <==> id in MapOf(us)
      ensures id in MapOf(ts) ==> MapOf(ts)[id] == MapOf(us)[id]
    {
      MapHolds(ts, id);
      MapHolds(us, id);
      if id in MapOf(ts) {
        var i :| 0 <= i < |ts| && ts[i].id == id;
        SameMembers(ts, us, i);
      }
      if id in MapOf(us) {
        var i :| 0 <= i < |us| && us[i].id == id;
        SameMembers(us, ts, i);
      }
    }
  }

  lemma PermutedAccepted(ctx: Context, ts: seq<Tlv>, us: seq<Tlv>)
    requires multiset(ts) == multiset(us) && AllAccepted(ctx, ts)
    ensures AllAccepted(ctx, us)
  {
    forall i | 0 <= i < |us|
      ensures Accepts(ctx, us[i].id, us[i].value)
    {
      SameMembers(us, ts, i);
    }
  }

  lemma {:induction false} DistinctCount(ts: seq<Tlv>, t: Tlv)
    requires Distinct(ts)
    ensures multiset(ts)[t] <= 1
    decreases |ts|
  {
    if ts != [] {
      var n := |ts| - 1;
      assert ts == ts[..n] + [ts[n]];
      DistinctCount(ts[..n], t);
      if t == ts[n] {
        assert t !in ts[..n];
        assert multiset(ts[..n])[t] == 0;
      }
    }
  }

  lemma CountTwice(us: seq<Tlv>, i: nat, j: nat)
    requires i < j < |us| && us[i] == us[j]
    ensures multiset(us)[us[i]] >= 2
  {
    assert us == us[..j] + us[j..];
    assert us[..j][i] == us[i] && us[j..][0] == us[j];
    assert us[i] in us[..j] && us[i] in us[j..];
  }

  lemma PermutedDistinct(ts: seq<Tlv>, us: seq<Tlv>)
    requires multiset(ts) == multiset(us) && Distinct(ts)
    ensures Distinct(us)
  {
    forall i, j | 0 <= i < j < |us|
      ensures us[i].id != us[j].id
    {
      SameMembers(us, ts, i);
      SameMembers(us, ts, j);
      DistinctCount(ts, us[i]);
      if us[i] == us[j] {
        CountTwice(us, i, j);
      }
    }
  }

  /** Permuting the parameters of an input with distinct ids changes nothing. */
  lemma OrderIrrelevant(ctx: Context, s: Bytes, s': Bytes)
    requires Parse(s).Some? && Parse(s').Some?
    requires multiset(Parse(s).value) == multiset(Parse(s').value) && Distinct(Parse(s).value)
    ensures Decoded(ctx, s) == Decoded(ctx, s')
  {
    OutcomePermutes(ctx, Parse(s).value, Parse(s').value);
  }

  lemma OutcomePermutes(ctx: Context, ts: seq<Tlv>, us: seq<Tlv>)
    requires multiset(ts) == multiset(us) && Distinct(ts)
    ensures Outcome(ctx, Some(ts)) == Outcome(ctx, Some(us))
  {
    PermutedDistinct(ts, us);
    assert !RepeatsLowId(ts) && !RepeatsLowId(us);
    if AllAccepted(ctx, ts) {
      PermutedAccepted(ctx, ts, us);
      StoreAllIsMap(ctx, ts);
      StoreAllIsMap(ctx, us);
      PermutedMap(ts, us);
    } else if AllAccepted(ctx, us) {
      PermutedAccepted(ctx, us, ts);
    }
  }

  /** Two adjacent blocks of parameters of an input with distinct ids may change places. */
  lemma BlocksSwap(ctx: Context, a: Bytes, b: Bytes, c: Bytes, d: Bytes)
    requires Parse(a).Some? && Parse(b).Some? && Parse(c).Some?
    requires Parse(d).Some? ==> Distinct(Parse(a).value + Parse(b).value + Parse(c).value + Parse(d).value)
    ensures Decoded(ctx, a + b + c + d) == Decoded(ctx, a + c + b + d)
  {
    ParseConcat(a, b);
    ParseConcat(a + b, c);
    ParseConcat(a + b + c, d);
    ParseConcat(a, c);
    ParseConcat(a + c, b);
    ParseConcat(a + c + b, d);
    if Parse(d).Some? {
      OrderIrrelevant(ctx, a + b + c + d, a + c + b + d);
    }
  }

  // -- Unknown parameters do not matter ---------------------------------------------------------------------

  predicate AllIgnored(ts: seq<Tlv>) {
    forall i :: 0 <= i < |ts| ==> CaseOf(ts[i].id) == Ignored
  }

  /** The identifiers set aside by section 18.1 of RFC 9000 are all unknown to the decoder. */
  lemma ReservedIgnored(id: varint)
    requires Reserved(id)
    ensures CaseOf(id) == Ignored
  {
    assert 0xFF04_DE1B % 31 != 27 && 0x17_F758_6D2C_B570 % 31 != 27;
  }

  lemma {:induction false} StoreAllSkips(ctx: Context, a: seq<Tlv>, x: seq<Tlv>, b: seq<Tlv>)
    requires AllIgnored(x) && AllAccepted(ctx, a + x + b) && AllAccepted(ctx, a + b)
    ensures StoreAll(ctx, a + x + b) == StoreAll(ctx, a + b)
    decreases |x| + |b|
  {
    if b != [] {
      var n := |b| - 1;
      assert b == b[..n] + [b[n]];
      assert a + x + b == (a + x + b[..n]) + [b[n]] && a + b == (a + b[..n]) + [b[n]];
      StoreAllLast(ctx, a + x + b[..n], b[n]);
      StoreAllLast(ctx, a + b[..n], b[n]);
      StoreAllSkips(ctx, a, x, b[..n]);
    } else if x != [] {
      var n := |x| - 1;
      assert a + x + b == (a + x[..n] + b) + [x[n]];
      StoreAllLast(ctx, a + x[..n] + b, x[n]);
      StoreAllSkips(ctx, a, x[..n], b);
    } else {
      assert a + x + b == a + b;
    }
  }

  lemma StoreAllLast(ctx: Context, ts: seq<Tlv>, t: Tlv)
    requires AllAccepted(ctx, ts + [t])
    ensures AllAccepted(ctx, ts) && Accepts(ctx, t.id, t.value)
    ensures StoreAll(ctx, ts + [t]) == Store(ctx, StoreAll(ctx, ts), t.id, t.value)
  {
    var us := ts + [t];
    assert us[..|ts|] == ts && us[|ts|] == t;
    assert forall i :: 0 <= i < |ts| ==> us[i] == ts[i];
  }

  lemma RepeatSurvives(a: seq<Tlv>, x: seq<Tlv>, b: seq<Tlv>)
    requires RepeatsLowId(a + b)
    ensures RepeatsLowId(a + x + b)
  {
    var i, j :| 0 <= i < j < |a + b| && (a + b)[i].id == (a + b)[j].id && (a + b)[i].id < 64;
    var i', j' := if i < |a| then i else i + |x|, if j < |a| then j else j + |x|;
    assert (a + x + b)[i'] == (a + b)[i] && (a + x + b)[j'] == (a + b)[j];
  }

  lemma AcceptedWithout(ctx: Context, a: seq<Tlv>, x: seq<Tlv>, b: seq<Tlv>)
    requires AllIgnored(x)
    ensures AllAccepted(ctx, a + x + b) <==> AllAccepted(ctx, a + b)
  {
    if AllAccepted(ctx, a + x + b) {
      forall i | 0 <= i < |a + b|
        ensures Accepts(ctx, (a + b)[i].id, (a + b)[i].value)
      {
        assert (a + b)[i] == (a + x + b)[if i < |a| then i else i + |x|];
      }
    }
    if AllAccepted(ctx, a + b) {
      forall i | 0 <= i < |a + x + b|
        ensures Accepts(ctx, (a + x + b)[i].id, (a + x + b)[i].value)
      {
        if i < |a| {
          assert (a + x + b)[i] == (a + b)[i];
        } else if i < |a + x| {
          assert (a + x + b)[i] == x[i - |a|];
        } else {
          assert (a + x + b)[i] == (a + b)[i - |x|];
        }
      }
    }
  }

  /** Inserting unknown parameters changes nothing, unless it makes an id below 64 appear twice. */
  lemma UnknownIgnored(ctx: Context, a: Bytes, x: Bytes, b: Bytes)
    requires Parse(a).Some? && Parse(x).Some? && AllIgnored(Parse(x).value)
    ensures Decoded(ctx, a + x + b) ==
            if Parse(b).Some? && RepeatsLowId(Parse(a).value + Parse(x).value + Parse(b).value) then None
            else Decoded(ctx, a + b)
  {
    ParseConcat(a, x);
    ParseConcat(a + x, b);
    ParseConcat(a, b);
    if Parse(b).Some? {
      OutcomeSkips(ctx, Parse(a).value, Parse(x).value, Parse(b).value);
    }
  }

  lemma OutcomeSkips(ctx: Context, a: seq<Tlv>, x: seq<Tlv>, b: seq<Tlv>)
    requires AllIgnored(x)
    ensures Outcome(ctx, Some(a + x + b)) ==
            if RepeatsLowId(a + x + b) then None else Outcome(ctx, Some(a + b))
  {
    AcceptedWithout(ctx, a, x, b);
    if RepeatsLowId(a + b) {
      RepeatSurvives(a, x, b);
    } else if AllAccepted(ctx, a + b) {
      StoreAllSkips(ctx, a, x, b);
    }
  }

  lemma LastDelayCounts(ctx: Context, t: Tlv, u: Tlv)
    requires t.id == u.id == Id(MinAckDelay) && First(t.value).Some? && First(u.value).Some?
    requires First(t.value).value <= 25000 && First(u.value).value <= 25000
    ensures
      var r := Outcome(ctx, Some([t] + [u]));
      r.Some? && NumberOf(r.value, MinAckDelay) == First(u.value).value
  {
    var ts := [t] + [u];
    assert ts[..1] == [t] && [t][..0] == [];
    assert AllAccepted(ctx, [t]);
    assert StoreAll(ctx, [t]) == Store(ctx, Defaults(), t.id, t.value);
  }

  /**
   Identifiers from 64 on may repeat, and then order does matter: of two minimum ack delays the
   last one counts.
   */
  lemma RepeatedDelays(ctx: Context, v: varint, w: varint)
    requires v <= 25000 && w <= 25000
    ensures
      var r := Decoded(ctx, EncodeTlv(Tlv(Id(MinAckDelay), Encode(v))) + EncodeTlv(Tlv(Id(MinAckDelay), Encode(w))));
      r.Some? && NumberOf(r.value, MinAckDelay) == w
  {
    var t, u := Tlv(Id(MinAckDelay), Encode(v)), Tlv(Id(MinAckDelay), Encode(w));
    ParseSingle(t);
    ParseSingle(u);
    ParseConcat(EncodeTlv(t), EncodeTlv(u));
    FirstRoundTrip(v, []);
    FirstRoundTrip(w, []);
    assert Encode(v) + [] == Encode(v) && Encode(w) + [] == Encode(w);
    LastDelayCounts(ctx, t, u);
  }

  lemma FirstRoundTrip(v: varint, rest: Bytes)
    ensures First(Encode(v) + rest) == Some(v)
    ensures Second(Encode(v) + rest) == First(rest)
  {
    RoundTrip(v, rest);
    assert (Encode(v) + rest)[Size(v)..] == rest;
  }

  // -- What is written reads back ----------------------------------------------------------------------------

  /** The parameter that carries a member. */
  function Carrier(f: Field): Field {
    match f
    case TimestampSend => TimestampRecv
    case CibirOffset => CibirEncoding
    case _ => f
  }

  function Position(f: Field): nat {
    match f
    case OriginalDestinationCid => 0
    case IdleTimeout => 1
    case StatelessResetToken => 2
    case MaxUdpPayloadSize => 3
    case InitialMaxData => 4
    case StreamDataBidiLocal => 5
    case StreamDataBidiRemote => 6
    case StreamDataUni => 7
    case MaxStreamsBidi => 8
    case MaxStreamsUni => 9
    case AckDelayExponent => 10
    case MaxAckDelay => 11
    case DisableActiveMigration => 12
    case ActiveCidLimit => 13
    case InitialSourceCid => 14
    case RetrySourceCid => 15
    case MaxDatagramFrameSize => 16
    case Disable1RttEncryption => 17
    case VersionNegotiation => 18
    case MinAckDelay => 19
    case CibirEncoding => 20
    case GreaseQuicBit => 21
    case ReliableReset => 22
    case TimestampRecv => 23
    case _ => 24
  }

  lemma NthHasPosition(k: nat)
    requires k < 24
    ensures Position(Nth(k)) == k
  {
  }

  lemma NthAtPosition(f: Field)
    requires Position(f) < 24
    ensures Nth(Position(f)) == f
  {
  }

  lemma PositionNth(k: nat, f: Field)
    requires k < 24
    ensures Position(Nth(k)) == k
    ensures Position(f) == k <==> Nth(k) == f
  {
    NthHasPosition(k);
    if Position(f) == k {
      NthAtPosition(f);
    }
  }

  lemma IdsDiffer(f: Field, g: Field)
    requires Position(f) < 24 && Position(g) < 24 && f != g
    ensures Id(f) != Id(g)
  {
  }

  lemma TlvsMore(tp: Params, k: nat)
    requires Encodable(tp) && k < 24
    ensures Tlvs(tp, k + 1) ==
            if Present(tp, Nth(k)) then Tlvs(tp, k) + [Tlv(Id(Nth(k)), ValueOf(tp, Nth(k)))] else Tlvs(tp, k)
  {
  }

  /** Which parameters the encoder has written after `k` of them, and with which values. */
  lemma {:induction false} Lookup(tp: Params, k: nat, f: Field)
    requires Encodable(tp) && k <= 24 && Position(f) < 24
    ensures Id(f) in MapOf(Tlvs(tp, k)) <==> Position(f) < k && Present(tp, f)
    ensures Id(f) in MapOf(Tlvs(tp, k)) ==> MapOf(Tlvs(tp, k))[Id(f)] == ValueOf(tp, f)
    decreases k
  {
    if k > 0 {
      var g := Nth(k - 1);
      Lookup(tp, k - 1, f);
      PositionNth(k - 1, f);
      TlvsMore(tp, k - 1);
      if Present(tp, g) {
        MapOfMore(Tlvs(tp, k - 1), Tlv(Id(g), ValueOf(tp, g)));
        if f != g {
          IdsDiffer(f, g);
        }
      }
    }
  }

  lemma MapOfMore(ts: seq<Tlv>, t: Tlv)
    ensures MapOf(ts + [t]) == MapOf(ts)[t.id := t.value]
  {
    assert (ts + [t])[..|ts|] == ts;
  }

  lemma DistinctMore(ts: seq<Tlv>, t: Tlv)
    requires Distinct(ts) && t.id !in MapOf(ts)
    ensures Distinct(ts + [t])
  {
    MapHolds(ts, t.id);
  }

  lemma {:induction false} WrittenDistinct(tp: Params, k: nat)
    requires Encodable(tp) && k <= 24
    ensures Distinct(Tlvs(tp, k))
    decreases k
  {
    if k > 0 {
      var f := Nth(k - 1);
      WrittenDistinct(tp, k - 1);
      PositionNth(k - 1, f);
      TlvsMore(tp, k - 1);
      if Present(tp, f) {
        Lookup(tp, k - 1, f);
        DistinctMore(Tlvs(tp, k - 1), Tlv(Id(f), ValueOf(tp, f)));
      }
    }
  }

  /** The ranges that section 18.2 of RFC 9000 and the extensions give, and who may send what. */
  predicate InRange(ctx: Context, tp: Params, f: Field) {
    match f
    case OriginalDestinationCid => ctx.isServer
    case StatelessResetToken => ctx.isServer
    case RetrySourceCid => ctx.isServer
    case MaxUdpPayloadSize => 1200 <= NumberOf(tp, f) <= 65527
    case MaxStreamsBidi => NumberOf(tp, f) < 0x1000_0000_0000_0000
    case MaxStreamsUni => NumberOf(tp, f) < 0x1000_0000_0000_0000
    case AckDelayExponent => NumberOf(tp, f) <= 20
    case MaxAckDelay => NumberOf(tp, f) < 0x4000
    case ActiveCidLimit => 2 <= NumberOf(tp, f)
    case MinAckDelay => NumberOf(tp, f) < 0x100_0000
    case VersionNegotiation => |BlobOf(tp, f)| <= 0xFFFF && (BlobOf(tp, f) == [] || ctx.canAllocate)
    case CibirEncoding => 1 <= NumberOf(tp, f) && NumberOf(tp, f) + NumberOf(tp, CibirOffset) <= 255
    case _ => true
  }

  /** MIN_ACK_DELAY against the MAX_ACK_DELAY sent, or against the 25 ms that apply without one. */
  predicate DelaysFit(tp: Params) {
    MinAckDelay in tp.flags ==>
      NumberOf(tp, MinAckDelay) as int <=
      1000 * (if MaxAckDelay in tp.flags then NumberOf(tp, MaxAckDelay) as int else 25)
  }

  predicate Acceptable(ctx: Context, tp: Params) {
    (forall f :: f in tp.flags ==> InRange(ctx, tp, f)) && DelaysFit(tp)
  }

  /** The structure with the same flags and the same flagged members, and defaults elsewhere. */
  function Restored(tp: Params): Params {
    Params(tp.flags,
           map f: Field | KindOf(f) == IsNumber && Carrier(f) in tp.flags :: NumberOf(tp, f),
           map f: Field | KindOf(f) == IsOctets && f in tp.flags :: BlobOf(tp, f))
  }

  /** What a value that reads as a member reads as. */
  ghost predicate ReadsAs(tp: Params, f: Field, v: Bytes) {
    if f == CibirEncoding then First(v) == Some(NumberOf(tp, f)) && Second(v) == Some(NumberOf(tp, CibirOffset))
    else if f == TimestampRecv then First(v) == Some(TimestampValue(tp))
    else
      match KindOf(f)
      case IsNumber => First(v) == Some(NumberOf(tp, f))
      case IsOctets => v == BlobOf(tp, f)
      case IsMarker => v == []
  }

  lemma ValueReads(tp: Params, f: Field)
    requires Encodable(tp) && Position(f) < 24
    ensures ReadsAs(tp, f, ValueOf(tp, f))
  {
    if f == CibirEncoding {
      NumbersRead(NumberOf(tp, f), NumberOf(tp, CibirOffset));
    } else if f == TimestampRecv {
      NumberReads(TimestampValue(tp));
    } else if KindOf(f) == IsNumber {
      NumberReads(NumberOf(tp, f));
    }
  }

  lemma NumberReads(n: varint)
    ensures First(Encode(n)) == Some(n)
  {
    FirstRoundTrip(n, []);
    assert Encode(n) + [] == Encode(n);
  }

  lemma NumbersRead(n: varint, m: varint)
    ensures First(Encode(n) + Encode(m)) == Some(n) && Second(Encode(n) + Encode(m)) == Some(m)
  {
    FirstRoundTrip(n, Encode(m));
    NumberReads(m);
  }

  lemma AcceptsReading(ctx: Context, tp: Params, f: Field, v: Bytes)
    requires Encodable(tp) && Position(f) < 24 && Present(tp, f) && ReadsAs(tp, f, v)
    ensures Accepts(ctx, Id(f), v) <==> InRange(ctx, tp, f)
  {
  }

  /** The decoder accepts what the encoder writes for a parameter exactly when it is in range. */
  lemma AcceptsWritten(ctx: Context, tp: Params, f: Field)
    requires Encodable(tp) && Position(f) < 24 && Present(tp, f)
    ensures Accepts(ctx, Id(f), ValueOf(tp, f)) <==> InRange(ctx, tp, f)
  {
    ValueReads(tp, f);
    AcceptsReading(ctx, tp, f, ValueOf(tp, f));
  }

  lemma {:induction false} AllAcceptedWritten(ctx: Context, tp: Params, k: nat)
    requires Encodable(tp) && k <= 24
    ensures AllAccepted(ctx, Tlvs(tp, k)) <==>
            forall f :: Position(f) < k && Present(tp, f) ==> InRange(ctx, tp, f)
    decreases k
  {
    if k > 0 {
      var g := Nth(k - 1);
      AllAcceptedWritten(ctx, tp, k - 1);
      TlvsMore(tp, k - 1);
      assert forall f :: Position(f) == k - 1 <==> f == g by {
        forall f ensures Position(f) == k - 1 <==> f == g { PositionNth(k - 1, f); }
      }
      if Present(tp, g) {
        AcceptsWritten(ctx, tp, g);
        AcceptedMore(ctx, Tlvs(tp, k - 1), Tlv(Id(g), ValueOf(tp, g)));
      }
    }
  }

  lemma AcceptedMore(ctx: Context, ts: seq<Tlv>, t: Tlv)
    ensures AllAccepted(ctx, ts + [t]) <==> AllAccepted(ctx, ts) && Accepts(ctx, t.id, t.value)
  {
    var us := ts + [t];
    assert us[|ts|] == t;
    assert forall i :: 0 <= i < |ts| ==> us[i] == ts[i];
  }

  /** Every parameter the encoder writes is known, and found where the decoder looks for it. */
  lemma MemberWritten(tp: Params, f: Field)
    requires Encodable(tp)
    ensures
      var m := MapOf(Tlvs(tp, |ORDER|));
      && (f != PreferredAddress ==> (Id(f) in m <==> Present(tp, Carrier(f))))
      && (f != PreferredAddress && Id(f) in m ==> m[Id(f)] == ValueOf(tp, Carrier(f)))
  {
    if f != PreferredAddress {
      Lookup(tp, |ORDER|, Carrier(f));
    }
  }

  lemma RaisesReading(tp: Params, f: Field, v: Bytes)
    requires Encodable(tp) && f != PreferredAddress && Present(tp, Carrier(f)) && ReadsAs(tp, Carrier(f), v)
    ensures Raises(f, v) <==> f in tp.flags
    ensures KindOf(f) == IsNumber ==> NumberIn(f, v) == NumberOf(tp, f)
  {
  }

  lemma RaisesWritten(tp: Params, f: Field)
    requires Encodable(tp) && f != PreferredAddress && Present(tp, Carrier(f))
    ensures Raises(f, ValueOf(tp, Carrier(f))) <==> f in tp.flags
    ensures KindOf(f) == IsNumber ==> NumberIn(f, ValueOf(tp, Carrier(f))) == NumberOf(tp, f)
  {
    ValueReads(tp, Carrier(f));
    RaisesReading(tp, f, ValueOf(tp, Carrier(f)));
  }

  /** What the encoder wrote, seen from the member that the decoder fills. */
  ghost predicate Wrote(tp: Params, m: map<varint, Bytes>) {
    Encodable(tp) && m == MapOf(Tlvs(tp, |ORDER|))
  }

  lemma FlagRestored(tp: Params, m: map<varint, Bytes>, f: Field)
    requires Wrote(tp, m)
    ensures Id(f) in m && Raises(f, m[Id(f)]) <==> f in tp.flags
  {
    if f != PreferredAddress {
      MemberWritten(tp, f);
      if Present(tp, Carrier(f)) {
        RaisesWritten(tp, f);
      }
    }
  }

  lemma NumberRestored(tp: Params, m: map<varint, Bytes>, f: Field)
    requires Wrote(tp, m) && KindOf(f) == IsNumber
    ensures Id(f) in m <==> Carrier(f) in tp.flags
    ensures Id(f) in m ==> NumberIn(f, m[Id(f)]) == NumberOf(tp, f)
  {
    MemberWritten(tp, f);
    if Present(tp, Carrier(f)) {
      RaisesWritten(tp, f);
    }
  }

  lemma BlobRestored(tp: Params, m: map<varint, Bytes>, f: Field)
    requires Wrote(tp, m) && KindOf(f) == IsOctets
    ensures Id(f) in m <==> f in tp.flags
    ensures Id(f) in m ==> m[Id(f)] == BlobOf(tp, f)
  {
    MemberWritten(tp, f);
  }

  lemma FlagsRestored(tp: Params, m: map<varint, Bytes>)
    requires Wrote(tp, m)
    ensures FromMap(m).flags == Restored(tp).flags
  {
    forall f: Field
      ensures f in FromMap(m).flags <==> f in Restored(tp).flags
    {
      FlagRestored(tp, m, f);
    }
  }

  lemma NumbersRestored(tp: Params, m: map<varint, Bytes>)
    requires Wrote(tp, m)
    ensures FromMap(m).num == Restored(tp).num
  {
    forall f: Field | KindOf(f) == IsNumber
      ensures Id(f) in m <==> Carrier(f) in tp.flags
      ensures Id(f) in m ==> NumberIn(f, m[Id(f)]) == NumberOf(tp, f)
    {
      NumberRestored(tp, m, f);
    }
    NumbersMatch(tp, m);
  }

  lemma NumbersMatch(tp: Params, m: map<varint, Bytes>)
    requires forall f: Field :: KindOf(f) == IsNumber ==> (Id(f) in m <==> Carrier(f) in tp.flags)
    requires forall f: Field :: KindOf(f) == IsNumber && Id(f) in m ==> NumberIn(f, m[Id(f)]) == NumberOf(tp, f)
    ensures FromMap(m).num == Restored(tp).num
  {
  }

  lemma BlobsRestored(tp: Params, m: map<varint, Bytes>)
    requires Wrote(tp, m)
    ensures FromMap(m).blob == Restored(tp).blob
  {
    var s, t := FromMap(m).blob, Restored(tp).blob;
    forall f: Field
      ensures (f in s <==> f in t) && (f in s ==> s[f] == t[f])
    {
      if KindOf(f) == IsOctets {
        BlobRestored(tp, m, f);
      }
    }
  }

  lemma WrittenRestores(tp: Params)
    requires Encodable(tp)
    ensures FromMap(MapOf(Tlvs(tp, |ORDER|))) == Restored(tp)
  {
    var m := MapOf(Tlvs(tp, |ORDER|));
    FlagsRestored(tp, m);
    NumbersRestored(tp, m);
    BlobsRestored(tp, m);
  }

  lemma InRangeAll(ctx: Context, tp: Params)
    requires Encodable(tp)
    ensures (forall f :: Position(f) < 24 && Present(tp, f) ==> InRange(ctx, tp, f)) <==>
            (forall f :: f in tp.flags ==> InRange(ctx, tp, f))
  {
    if forall f :: Position(f) < 24 && Present(tp, f) ==> InRange(ctx, tp, f) {
      forall f | f in tp.flags
        ensures InRange(ctx, tp, f)
      {
        assert Position(f) < 24 || f == TimestampSend;
      }
    }
  }

  lemma DistinctOutcome(ctx: Context, ts: seq<Tlv>)
    requires Distinct(ts)
    ensures Outcome(ctx, Some(ts)) ==
            if AllAccepted(ctx, ts) && DelaysAgree(FromMap(MapOf(ts))) then Some(FromMap(MapOf(ts))) else None
  {
    if AllAccepted(ctx, ts) {
      StoreAllIsMap(ctx, ts);
    }
  }

  lemma RestoredDelays(tp: Params)
    ensures DelaysAgree(Restored(tp)) <==> DelaysFit(tp)
  {
  }

  lemma WrittenOutcome(ctx: Context, tp: Params)
    requires Encodable(tp)
    ensures Outcome(ctx, Some(Tlvs(tp, |ORDER|))) == if Acceptable(ctx, tp) then Some(Restored(tp)) else None
  {
    var ts := Tlvs(tp, |ORDER|);
    WrittenDistinct(tp, |ORDER|);
    AllAcceptedWritten(ctx, tp, |ORDER|);
    InRangeAll(ctx, tp);
    DistinctOutcome(ctx, ts);
    WrittenRestores(tp);
    RestoredDelays(tp);
  }

  lemma {:induction false} WrittenKnown(tp: Params, k: nat)
    requires Encodable(tp) && k <= 24
    ensures forall i :: 0 <= i < |Tlvs(tp, k)| ==> CaseOf(Tlvs(tp, k)[i].id) != Ignored
    decreases k
  {
    if k > 0 {
      WrittenKnown(tp, k - 1);
      TlvsMore(tp, k - 1);
      PositionNth(k - 1, Nth(k - 1));
      KnownId(Nth(k - 1));
    }
  }

  lemma KnownId(f: Field)
    ensures CaseOf(Id(f)) != Ignored
  {
  }

  /**
   Decoding what was encoded gives the flags and every flagged member back, with defaults elsewhere,
   if the parameters are acceptable; otherwise it fails. A test parameter unknown to the decoder
   makes no difference.
   */
  lemma CodecRoundTrip(ctx: Context, tp: Params, test: Option<TestParam>)
    requires Encodable(tp) && TestFits(test) && (test.Some? ==> CaseOf(test.value.kind) == Ignored)
    ensures Decoded(ctx, Encoded(tp, test)) ==
            if Acceptable(ctx, tp) then Some(Restored(tp)) else None
  {
    ParseFlatten(AllTlvs(tp, test));
    WrittenOutcome(ctx, tp);
    TestIgnored(ctx, tp, test);
  }

  lemma TestIgnored(ctx: Context, tp: Params, test: Option<TestParam>)
    requires Encodable(tp) && TestFits(test) && (test.Some? ==> CaseOf(test.value.kind) == Ignored)
    ensures Outcome(ctx, Some(AllTlvs(tp, test))) == Outcome(ctx, Some(Tlvs(tp, |ORDER|)))
  {
    var ts, us := Tlvs(tp, |ORDER|), TestTlvs(test);
    WrittenDistinct(tp, |ORDER|);
    if test.Some? {
      WrittenKnown(tp, |ORDER|);
      MapHolds(ts, test.value.kind);
      DistinctMore(ts, us[0]);
    }
    assert ts + us + [] == AllTlvs(tp, test) && ts + [] == ts;
    assert Distinct(ts + us);
    OutcomeSkips(ctx, ts, us, []);
  }

  /**
   The encoder's own debug assertion on the delays, which divides before comparing, is weaker than
   the decoder's check: parameters that pass it can be refused by the peer. A connection only ever
   sends whole milliseconds as its minimum delay, for which the two agree.
   */
  lemma AssertionTooWeak(ctx: Context)
    ensures
      var tp := Params({MinAckDelay, MaxAckDelay}, map[MinAckDelay := 25999, MaxAckDelay := 25], map[]);
      && NumberOf(tp, MinAckDelay) / 1000 <= NumberOf(tp, MaxAckDelay)
      && Encodable(tp) && Decoded(ctx, Encoded(tp, None)).None?
  {
    var tp := Params({MinAckDelay, MaxAckDelay}, map[MinAckDelay := 25999, MaxAckDelay := 25], map[]);
    CodecRoundTrip(ctx, tp, None);
    assert !DelaysFit(tp);
  }

  /** With a minimum delay of whole milliseconds the assertion is the decoder's check. */
  lemma AssertionExact(tp: Params, ms: nat)
    requires MinAckDelay in tp.flags && MaxAckDelay in tp.flags && NumberOf(tp, MinAckDelay) == 1000 * ms
    ensures NumberOf(tp, MinAckDelay) / 1000 <= NumberOf(tp, MaxAckDelay) <==> DelaysFit(tp)
  {
  }
}
