/** QuicCryptoTlsEncodeTransportParameters: a pass that adds up sizes, then a pass that writes. */
module TransportEncoder {
  import opened Prelude
  import opened VarInt
  import opened TransportParams

  // The parameters in the order both passes treat them. TimestampRecv stands for the one
  // parameter that carries both timestamp flags.
  const ORDER: seq<Field> :=
    [OriginalDestinationCid, IdleTimeout, StatelessResetToken, MaxUdpPayloadSize, InitialMaxData,
     StreamDataBidiLocal, StreamDataBidiRemote, StreamDataUni, MaxStreamsBidi, MaxStreamsUni,
     AckDelayExponent, MaxAckDelay, DisableActiveMigration, ActiveCidLimit, InitialSourceCid, RetrySourceCid,
     MaxDatagramFrameSize, Disable1RttEncryption, VersionNegotiation, MinAckDelay, CibirEncoding,
     GreaseQuicBit, ReliableReset, TimestampRecv]

  // How a member is kept in the structure.
  datatype Kind = IsNumber | IsOctets | IsMarker

  function KindOf(f: Field): Kind {
    match f
    case OriginalDestinationCid => IsOctets
    case StatelessResetToken => IsOctets
    case InitialSourceCid => IsOctets
    case RetrySourceCid => IsOctets
    case VersionNegotiation => IsOctets
    case DisableActiveMigration => IsMarker
    case PreferredAddress => IsMarker
    case Disable1RttEncryption => IsMarker
    case GreaseQuicBit => IsMarker
    case ReliableReset => IsMarker
    case TimestampRecv => IsMarker
    case TimestampSend => IsMarker
    case _ => IsNumber
  }

  /** QUIC_PRIVATE_TRANSPORT_PARAMETER: one extra parameter, for tests. */
  datatype TestParam = TestParam(kind: u32, value: Bytes)

  /** What the encoder asserts of its argument, and the sizes fixed by the C types. */
  predicate Encodable(tp: Params) {
    && PreferredAddress !in tp.flags && CibirOffset !in tp.flags
    && |BlobOf(tp, StatelessResetToken)| == RESET_TOKEN_LENGTH
    && (OriginalDestinationCid in tp.flags ==> |BlobOf(tp, OriginalDestinationCid)| <= MAX_CID_V1)
    && (InitialSourceCid in tp.flags ==> |BlobOf(tp, InitialSourceCid)| <= MAX_CID_V1)
    && (RetrySourceCid in tp.flags ==> |BlobOf(tp, RetrySourceCid)| <= MAX_CID_V1)
    && |BlobOf(tp, VersionNegotiation)| <= U32_MAX
  }

  // -- What is written ---------------------------------------------------------------------

  function EncodeTlv(t: Tlv): Bytes
    requires |t.value| <= VAR_INT_MAX
  {
    Encode(t.id) + Encode(|t.value|) + t.value
  }

  predicate Present(tp: Params, f: Field) {
    if f == TimestampRecv then TimestampRecv in tp.flags || TimestampSend in tp.flags else f in tp.flags
  }

  function TimestampValue(tp: Params): varint {
    (if TimestampRecv in tp.flags then 1 else 0) + (if TimestampSend in tp.flags then 2 else 0)
  }

  function ValueOf(tp: Params, f: Field): Bytes {
    if f == CibirEncoding then Encode(NumberOf(tp, CibirEncoding)) + Encode(NumberOf(tp, CibirOffset))
    else if f == TimestampRecv then Encode(TimestampValue(tp))
    else
      match KindOf(f)
      case IsNumber => Encode(NumberOf(tp, f))
      case IsOctets => BlobOf(tp, f)
      case IsMarker => []
  }

  lemma ValueFits(tp: Params, f: Field)
    requires Encodable(tp) && Present(tp, f)
    ensures |ValueOf(tp, f)| <= U32_MAX
  {
  }

  /** The parameters among the first `k` of the order that are present. */
  function Tlvs(tp: Params, k: nat): (ts: seq<Tlv>)
    requires Encodable(tp) && k <= |ORDER|
    ensures forall i :: 0 <= i < |ts| ==> |ts[i].value| <= U32_MAX
  {
    if k == 0 then []
    else
      var f := ORDER[k - 1];
      if Present(tp, f) then
        ValueFits(tp, f);
        Tlvs(tp, k - 1) + [Tlv(Id(f), ValueOf(tp, f))]
      else Tlvs(tp, k - 1)
  }

  function Flatten(ts: seq<Tlv>): Bytes
    requires forall i :: 0 <= i < |ts| ==> |ts[i].value| <= U32_MAX
  {
    if ts == [] then [] else Flatten(ts[..|ts| - 1]) + EncodeTlv(ts[|ts| - 1])
  }

  /** The bytes of the first `k` parameters. */
  function Prefix(tp: Params, k: nat): Bytes
    requires Encodable(tp) && k <= |ORDER|
  {
    Flatten(Tlvs(tp, k))
  }

  function TestTlvs(test: Option<TestParam>): seq<Tlv> {
    if test.Some? then [Tlv(test.value.kind, test.value.value)] else []
  }

  predicate TestFits(test: Option<TestParam>) {
    test.Some? ==> |test.value.value| <= 0xFFFF
  }

  function AllTlvs(tp: Params, test: Option<TestParam>): (ts: seq<Tlv>)
    requires Encodable(tp) && TestFits(test)
    ensures forall i :: 0 <= i < |ts| ==> |ts[i].value| <= U32_MAX
  {
    Tlvs(tp, |ORDER|) + TestTlvs(test)
  }

  function Encoded(tp: Params, test: Option<TestParam>): Bytes
    requires Encodable(tp) && TestFits(test)
  {
    Flatten(AllTlvs(tp, test))
  }

  // -- The prefixes ------------------------------------------------------------------------------

  /** What one parameter adds. */
  function Chunk(tp: Params, f: Field): Bytes
    requires Encodable(tp)
  {
    if Present(tp, f) then
      ValueFits(tp, f);
      EncodeTlv(Tlv(Id(f), ValueOf(tp, f)))
    else []
  }

  lemma PrefixStep(tp: Params, k: nat)
    requires Encodable(tp) && k < |ORDER|
    ensures Prefix(tp, k + 1) == Prefix(tp, k) + Chunk(tp, ORDER[k])
  {
    if Present(tp, ORDER[k]) {
      ValueFits(tp, ORDER[k]);
      assert Tlvs(tp, k + 1)[..|Tlvs(tp, k)|] == Tlvs(tp, k);
    }
  }

  lemma {:induction false} PrefixGrows(tp: Params, j: nat, k: nat)
    requires Encodable(tp) && j <= k <= |ORDER|
    ensures |Prefix(tp, j)| <= |Prefix(tp, k)|
    decreases k
  {
    if j < k {
      PrefixGrows(tp, j, k - 1);
      PrefixStep(tp, k - 1);
    }
  }

  function Nth(k: nat): Field
    requires k < 24
  {
    ORDER[k]
  }

  /** `pre[k]` is what stands in the buffer before the `k`th parameter is treated. */
  ghost predicate Milestones(tp: Params, pre: seq<Bytes>)
    requires Encodable(tp)
  {
    && |pre| == 25 && pre[0] == []
    && (forall k {:trigger Nth(k)} :: 0 <= k < 24 ==> pre[k + 1] == pre[k] + Chunk(tp, Nth(k)))
    && (forall k :: 0 <= k < 25 ==> |pre[k]| <= |pre[24]|)
  }

  ghost function Prefixes(tp: Params): (pre: seq<Bytes>)
    requires Encodable(tp)
    ensures Milestones(tp, pre) && pre[24] == Prefix(tp, |ORDER|)
  {
    var pre := seq(25, k requires 0 <= k < 25 => Prefix(tp, k));
    PrefixesStep(tp, pre);
    pre
  }

  lemma PrefixesStep(tp: Params, pre: seq<Bytes>)
    requires Encodable(tp) && |pre| == 25 && forall k :: 0 <= k < 25 ==> pre[k] == Prefix(tp, k)
    ensures Milestones(tp, pre)
  {
    forall k | 0 <= k < 24
      ensures pre[k + 1] == pre[k] + Chunk(tp, Nth(k))
    {
      PrefixStep(tp, k);
    }
    forall k | 0 <= k < 25
      ensures |pre[k]| <= |pre[24]|
    {
      PrefixGrows(tp, k, 24);
    }
  }

  lemma EncodedSplits(tp: Params, test: Option<TestParam>)
    requires Encodable(tp) && TestFits(test)
    ensures Encoded(tp, test) ==
            if test.Some? then Prefix(tp, |ORDER|) + EncodeTlv(Tlv(test.value.kind, test.value.value))
            else Prefix(tp, |ORDER|)
  {
    var ts := Tlvs(tp, |ORDER|);
    if test.Some? {
      assert AllTlvs(tp, test)[..|ts|] == ts;
    } else {
      assert AllTlvs(tp, test) == ts;
    }
  }

  // -- The size pass ---------------------------------------------------------------------------------

  /** TlsTransportParamLength. */
  function ParamLength(id: varint, length: varint): nat {
    Size(id) + Size(length) + length
  }

  method AddNumber(tp: Params, f: Field, n: nat, ghost pre: seq<Bytes>, ghost k: nat) returns (m: nat)
    requires Encodable(tp) && Milestones(tp, pre) && k < 24 && ORDER[k] == f && n == |pre[k]|
    requires KindOf(f) == IsNumber && f != CibirEncoding
    ensures m == |pre[k + 1]|
  {
    assert Nth(k) == f;
    m := n;
    if f in tp.flags {
      m := m + ParamLength(Id(f), Size(NumberOf(tp, f)));
    }
  }

  method AddOctets(tp: Params, f: Field, n: nat, ghost pre: seq<Bytes>, ghost k: nat) returns (m: nat)
    requires Encodable(tp) && Milestones(tp, pre) && k < 24 && ORDER[k] == f && n == |pre[k]|
    requires KindOf(f) == IsOctets
    ensures m == |pre[k + 1]|
  {
    assert Nth(k) == f;
    m := n;
    if f in tp.flags {
      m := m + ParamLength(Id(f), |BlobOf(tp, f)|);
    }
  }

  method AddMarker(tp: Params, f: Field, n: nat, ghost pre: seq<Bytes>, ghost k: nat) returns (m: nat)
    requires Encodable(tp) && Milestones(tp, pre) && k < 24 && ORDER[k] == f && n == |pre[k]|
    requires KindOf(f) == IsMarker && f != TimestampRecv
    ensures m == |pre[k + 1]|
  {
    assert Nth(k) == f;
    m := n;
    if f in tp.flags {
      m := m + ParamLength(Id(f), 0);
    }
  }

  method AddCibir(tp: Params, n: nat, ghost pre: seq<Bytes>, ghost k: nat) returns (m: nat)
    requires Encodable(tp) && Milestones(tp, pre) && k < 24 && ORDER[k] == CibirEncoding && n == |pre[k]|
    ensures m == |pre[k + 1]|
  {
    assert Nth(k) == CibirEncoding;
    m := n;
    if CibirEncoding in tp.flags {
      m := m + ParamLength(Id(CibirEncoding), Size(NumberOf(tp, CibirEncoding)) + Size(NumberOf(tp, CibirOffset)));
    }
  }

  method AddTimestamp(tp: Params, n: nat, ghost pre: seq<Bytes>, ghost k: nat) returns (m: nat)
    requires Encodable(tp) && Milestones(tp, pre) && k < 24 && ORDER[k] == TimestampRecv && n == |pre[k]|
    ensures m == |pre[k + 1]|
  {
    assert Nth(k) == TimestampRecv;
    m := n;
    if TimestampRecv in tp.flags || TimestampSend in tp.flags {
      m := m + ParamLength(Id(TimestampRecv), Size(TimestampValue(tp)));
    }
  }

  method AddFirstFour(tp: Params, before: nat, ghost pre: seq<Bytes>) returns (n: nat)
    requires Encodable(tp) && Milestones(tp, pre) && before == |pre[0]|
    ensures n == |pre[4]|
  {
    n := before;
    n := AddOctets(tp, OriginalDestinationCid, n, pre, 0);
    n := AddNumber(tp, IdleTimeout, n, pre, 1);
    n := AddOctets(tp, StatelessResetToken, n, pre, 2);
    n := AddNumber(tp, MaxUdpPayloadSize, n, pre, 3);
  }

  method AddSecondFour(tp: Params, before: nat, ghost pre: seq<Bytes>) returns (n: nat)
    requires Encodable(tp) && Milestones(tp, pre) && before == |pre[4]|
    ensures n == |pre[8]|
  {
    n := before;
    n := AddNumber(tp, InitialMaxData, n, pre, 4);
    n := AddNumber(tp, StreamDataBidiLocal, n, pre, 5);
    n := AddNumber(tp, StreamDataBidiRemote, n, pre, 6);
    n := AddNumber(tp, StreamDataUni, n, pre, 7);
  }

  method AddThirdFour(tp: Params, before: nat, ghost pre: seq<Bytes>) returns (n: nat)
    requires Encodable(tp) && Milestones(tp, pre) && before == |pre[8]|
    ensures n == |pre[12]|
  {
    n := before;
    n := AddNumber(tp, MaxStreamsBidi, n, pre, 8);
    n := AddNumber(tp, MaxStreamsUni, n, pre, 9);
    n := AddNumber(tp, AckDelayExponent, n, pre, 10);
    n := AddNumber(tp, MaxAckDelay, n, pre, 11);
  }

  method AddFourthFour(tp: Params, before: nat, ghost pre: seq<Bytes>) returns (n: nat)
    requires Encodable(tp) && Milestones(tp, pre) && before == |pre[12]|
    ensures n == |pre[16]|
  {
    n := before;
    n := AddMarker(tp, DisableActiveMigration, n, pre, 12);
    n := AddNumber(tp, ActiveCidLimit, n, pre, 13);
    n := AddOctets(tp, InitialSourceCid, n, pre, 14);
    n := AddOctets(tp, RetrySourceCid, n, pre, 15);
  }

  method AddFifthFour(tp: Params, before: nat, ghost pre: seq<Bytes>) returns (n: nat)
    requires Encodable(tp) && Milestones(tp, pre) && before == |pre[16]|
    ensures n == |pre[20]|
  {
    n := before;
    n := AddNumber(tp, MaxDatagramFrameSize, n, pre, 16);
    n := AddMarker(tp, Disable1RttEncryption, n, pre, 17);
    n := AddOctets(tp, VersionNegotiation, n, pre, 18);
    n := AddNumber(tp, MinAckDelay, n, pre, 19);
  }

  method AddSixthFour(tp: Params, before: nat, ghost pre: seq<Bytes>) returns (n: nat)
    requires Encodable(tp) && Milestones(tp, pre) && before == |pre[20]|
    ensures n == |pre[24]|
  {
    n := before;
    n := AddCibir(tp, n, pre, 20);
    n := AddMarker(tp, GreaseQuicBit, n, pre, 21);
    n := AddMarker(tp, ReliableReset, n, pre, 22);
    n := AddTimestamp(tp, n, pre, 23);
  }

  /** RequiredTPLen is the length of what the write pass then writes. */
  method RequiredLength(tp: Params, test: Option<TestParam>) returns (n: nat)
    requires Encodable(tp) && TestFits(test)
    ensures n == |Encoded(tp, test)|
  {
    ghost var pre := Prefixes(tp);
    n := 0;
    n := AddFirstFour(tp, n, pre);
    n := AddSecondFour(tp, n, pre);
    n := AddThirdFour(tp, n, pre);
    n := AddFourthFour(tp, n, pre);
    n := AddFifthFour(tp, n, pre);
    n := AddSixthFour(tp, n, pre);
    EncodedSplits(tp, test);
    if test.Some? {
      n := n + ParamLength(test.value.kind, |test.value.value|);
    }
  }

  // -- The write pass ------------------------------------------------------------------------------------

  /** Copies `s` to the cursor and moves it on. */
  method Put(buffer: array<u8>, at: nat, s: Bytes) returns (next: nat)
    requires at + |s| <= buffer.Length
    modifies buffer
    ensures next == at + |s|
    ensures buffer[..next] == old(buffer[..at]) + s
  {
    forall i | 0 <= i < |s| {
      buffer[at + i] := s[i];
    }
    next := at + |s|;
  }

  /** TlsWriteTransportParam. */
  method WriteParam(buffer: array<u8>, header: nat, at: nat, id: varint, v: Bytes) returns (next: nat)
    requires |v| <= U32_MAX && header <= at && at + |EncodeTlv(Tlv(id, v))| <= buffer.Length
    modifies buffer
    ensures next == at + |EncodeTlv(Tlv(id, v))|
    ensures buffer[header..next] == old(buffer[header..at]) + EncodeTlv(Tlv(id, v))
  {
    ghost var before := buffer[..at];
    next := Put(buffer, at, Encode(id));
    next := Put(buffer, next, Encode(|v|));
    next := Put(buffer, next, v);
    Spliced(buffer[..next], before, Encode(id), Encode(|v|), v, header);
  }

  lemma Spliced(s: Bytes, a: Bytes, b: Bytes, c: Bytes, d: Bytes, from: nat)
    requires s == a + b + c + d && from <= |a|
    ensures s[from..] == a[from..] + (b + c + d)
  {
  }

  /** The buffer holds `a` from the header up to the cursor. */
  ghost predicate Holds(buffer: array<u8>, header: nat, at: nat, a: Bytes)
    reads buffer
  {
    header <= at <= buffer.Length && buffer[header..at] == a
  }

  method WriteNumber(buffer: array<u8>, tp: Params, header: nat, f: Field, at: nat, ghost pre: seq<Bytes>, ghost k: nat)
    returns (next: nat)
    requires Encodable(tp) && Milestones(tp, pre) && k < 24 && ORDER[k] == f
    requires Holds(buffer, header, at, pre[k]) && header + |pre[24]| <= buffer.Length
    requires KindOf(f) == IsNumber && f != CibirEncoding
    modifies buffer
    ensures Holds(buffer, header, next, pre[k + 1])
  {
    assert Nth(k) == f;
    next := at;
    if f in tp.flags {
      next := WriteParam(buffer, header, at, Id(f), Encode(NumberOf(tp, f)));
    }
  }

  method WriteOctets(buffer: array<u8>, tp: Params, header: nat, f: Field, at: nat, ghost pre: seq<Bytes>, ghost k: nat)
    returns (next: nat)
    requires Encodable(tp) && Milestones(tp, pre) && k < 24 && ORDER[k] == f
    requires Holds(buffer, header, at, pre[k]) && header + |pre[24]| <= buffer.Length
    requires KindOf(f) == IsOctets
    modifies buffer
    ensures Holds(buffer, header, next, pre[k + 1])
  {
    assert Nth(k) == f;
    next := at;
    if f in tp.flags {
      next := WriteParam(buffer, header, at, Id(f), BlobOf(tp, f));
    }
  }

  method WriteMarker(buffer: array<u8>, tp: Params, header: nat, f: Field, at: nat, ghost pre: seq<Bytes>, ghost k: nat)
    returns (next: nat)
    requires Encodable(tp) && Milestones(tp, pre) && k < 24 && ORDER[k] == f
    requires Holds(buffer, header, at, pre[k]) && header + |pre[24]| <= buffer.Length
    requires KindOf(f) == IsMarker && f != TimestampRecv
    modifies buffer
    ensures Holds(buffer, header, next, pre[k + 1])
  {
    assert Nth(k) == f;
    next := at;
    if f in tp.flags {
      next := WriteParam(buffer, header, at, Id(f), []);
    }
  }

  method WriteCibir(buffer: array<u8>, tp: Params, header: nat, at: nat, ghost pre: seq<Bytes>, ghost k: nat)
    returns (next: nat)
    requires Encodable(tp) && Milestones(tp, pre) && k < 24 && ORDER[k] == CibirEncoding
    requires Holds(buffer, header, at, pre[k]) && header + |pre[24]| <= buffer.Length
    modifies buffer
    ensures Holds(buffer, header, next, pre[k + 1])
  {
    assert Nth(k) == CibirEncoding;
    next := at;
    if CibirEncoding in tp.flags {
      next := WriteParam(buffer, header, at, Id(CibirEncoding),
                         Encode(NumberOf(tp, CibirEncoding)) + Encode(NumberOf(tp, CibirOffset)));
    }
  }

  method WriteTimestamp(buffer: array<u8>, tp: Params, header: nat, at: nat, ghost pre: seq<Bytes>, ghost k: nat)
    returns (next: nat)
    requires Encodable(tp) && Milestones(tp, pre) && k < 24 && ORDER[k] == TimestampRecv
    requires Holds(buffer, header, at, pre[k]) && header + |pre[24]| <= buffer.Length
    modifies buffer
    ensures Holds(buffer, header, next, pre[k + 1])
  {
    assert Nth(k) == TimestampRecv;
    next := at;
    if TimestampRecv in tp.flags || TimestampSend in tp.flags {
      next := WriteParam(buffer, header, at, Id(TimestampRecv), Encode(TimestampValue(tp)));
    }
  }

  method WriteFirstFour(buffer: array<u8>, tp: Params, header: nat, from: nat, ghost pre: seq<Bytes>) returns (at: nat)
    requires Encodable(tp) && Milestones(tp, pre)
    requires Holds(buffer, header, from, pre[0]) && header + |pre[24]| <= buffer.Length
    modifies buffer
    ensures Holds(buffer, header, at, pre[4])
  {
    at := from;
    at := WriteOctets(buffer, tp, header, OriginalDestinationCid, at, pre, 0);
    at := WriteNumber(buffer, tp, header, IdleTimeout, at, pre, 1);
    at := WriteOctets(buffer, tp, header, StatelessResetToken, at, pre, 2);
    at := WriteNumber(buffer, tp, header, MaxUdpPayloadSize, at, pre, 3);
  }

  method WriteSecondFour(buffer: array<u8>, tp: Params, header: nat, from: nat, ghost pre: seq<Bytes>) returns (at: nat)
    requires Encodable(tp) && Milestones(tp, pre)
    requires Holds(buffer, header, from, pre[4]) && header + |pre[24]| <= buffer.Length
    modifies buffer
    ensures Holds(buffer, header, at, pre[8])
  {
    at := from;
    at := WriteNumber(buffer, tp, header, InitialMaxData, at, pre, 4);
    at := WriteNumber(buffer, tp, header, StreamDataBidiLocal, at, pre, 5);
    at := WriteNumber(buffer, tp, header, StreamDataBidiRemote, at, pre, 6);
    at := WriteNumber(buffer, tp, header, StreamDataUni, at, pre, 7);
  }

  method WriteThirdFour(buffer: array<u8>, tp: Params, header: nat, from: nat, ghost pre: seq<Bytes>) returns (at: nat)
    requires Encodable(tp) && Milestones(tp, pre)
    requires Holds(buffer, header, from, pre[8]) && header + |pre[24]| <= buffer.Length
    modifies buffer
    ensures Holds(buffer, header, at, pre[12])
  {
    at := from;
    at := WriteNumber(buffer, tp, header, MaxStreamsBidi, at, pre, 8);
    at := WriteNumber(buffer, tp, header, MaxStreamsUni, at, pre, 9);
    at := WriteNumber(buffer, tp, header, AckDelayExponent, at, pre, 10);
    at := WriteNumber(buffer, tp, header, MaxAckDelay, at, pre, 11);
  }

  method WriteFourthFour(buffer: array<u8>, tp: Params, header: nat, from: nat, ghost pre: seq<Bytes>) returns (at: nat)
    requires Encodable(tp) && Milestones(tp, pre)
    requires Holds(buffer, header, from, pre[12]) && header + |pre[24]| <= buffer.Length
    modifies buffer
    ensures Holds(buffer, header, at, pre[16])
  {
    at := from;
    at := WriteMarker(buffer, tp, header, DisableActiveMigration, at, pre, 12);
    at := WriteNumber(buffer, tp, header, ActiveCidLimit, at, pre, 13);
    at := WriteOctets(buffer, tp, header, InitialSourceCid, at, pre, 14);
    at := WriteOctets(buffer, tp, header, RetrySourceCid, at, pre, 15);
  }

  method WriteFifthFour(buffer: array<u8>, tp: Params, header: nat, from: nat, ghost pre: seq<Bytes>) returns (at: nat)
    requires Encodable(tp) && Milestones(tp, pre)
    requires Holds(buffer, header, from, pre[16]) && header + |pre[24]| <= buffer.Length
    modifies buffer
    ensures Holds(buffer, header, at, pre[20])
  {
    at := from;
    at := WriteNumber(buffer, tp, header, MaxDatagramFrameSize, at, pre, 16);
    at := WriteMarker(buffer, tp, header, Disable1RttEncryption, at, pre, 17);
    at := WriteOctets(buffer, tp, header, VersionNegotiation, at, pre, 18);
    at := WriteNumber(buffer, tp, header, MinAckDelay, at, pre, 19);
  }

  method WriteSixthFour(buffer: array<u8>, tp: Params, header: nat, from: nat, ghost pre: seq<Bytes>) returns (at: nat)
    requires Encodable(tp) && Milestones(tp, pre)
    requires Holds(buffer, header, from, pre[20]) && header + |pre[24]| <= buffer.Length
    modifies buffer
    ensures Holds(buffer, header, at, pre[24])
  {
    at := from;
    at := WriteCibir(buffer, tp, header, at, pre, 20);
    at := WriteMarker(buffer, tp, header, GreaseQuicBit, at, pre, 21);
    at := WriteMarker(buffer, tp, header, ReliableReset, at, pre, 22);
    at := WriteTimestamp(buffer, tp, header, at, pre, 23);
  }

  /** Everything but the test parameter. */
  method WriteAll(buffer: array<u8>, tp: Params, header: nat) returns (at: nat)
    requires Encodable(tp) && header + |Prefix(tp, |ORDER|)| <= buffer.Length
    modifies buffer
    ensures Holds(buffer, header, at, Prefix(tp, |ORDER|))
  {
    ghost var pre := Prefixes(tp);
    at := WriteFirstFour(buffer, tp, header, header, pre);
    at := WriteSecondFour(buffer, tp, header, at, pre);
    at := WriteThirdFour(buffer, tp, header, at, pre);
    at := WriteFourthFour(buffer, tp, header, at, pre);
    at := WriteFifthFour(buffer, tp, header, at, pre);
    at := WriteSixthFour(buffer, tp, header, at, pre);
  }

  /**
   QuicCryptoTlsEncodeTransportParameters: null exactly when the parameters do not fit in 65535
   bytes or there is no memory; otherwise a buffer of exactly the size announced, holding the
   encoding after the header room that the TLS layer asks for.
   */
  method EncodeTransportParameters(tp: Params, test: Option<TestParam>, header: nat, canAllocate: bool)
    returns (buffer: array?<u8>)
    requires Encodable(tp) && TestFits(test)
    ensures buffer == null <==> |Encoded(tp, test)| > 0xFFFF || !canAllocate
    ensures buffer != null ==> fresh(buffer) && header <= buffer.Length && buffer[header..] == Encoded(tp, test)
  {
    var required := RequiredLength(tp, test);
    if required > 0xFFFF || !canAllocate {
      return null;
    }
    var out := new u8[header + required];
    EncodedSplits(tp, test);
    var at := WriteAll(out, tp, header);
    if test.Some? {
      at := WriteParam(out, header, at, test.value.kind, test.value.value);
    }
    // FinalTPLength is RequiredTPLen: the mismatch branch of the code is never taken.
    assert at - header == required;
    buffer := out;
  }
}
