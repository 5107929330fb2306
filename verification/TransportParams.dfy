/**
 The QUIC transport parameter extension (section 18 of RFC 9000) as crypto_tls.c writes and
 reads it: a sequence of id, length and value, with ids and lengths as variable-length integers.
 */
module TransportParams {
  import opened Prelude
  import opened VarInt

  const MAX_CID_V1: int := 20
  const MAX_CID_INVARIANT: int := 255
  const RESET_TOKEN_LENGTH: int := 16
  const MAX_STREAMS_MAX: int := 0xFFF_FFFF_FFFF_FFFF

  // One constructor per QUIC_TP_FLAG_* bit, and CibirOffset for the second number of the
  // CIBIR parameter, which has no flag of its own.
  datatype Field =
    | OriginalDestinationCid | IdleTimeout | StatelessResetToken | MaxUdpPayloadSize | InitialMaxData
    | StreamDataBidiLocal | StreamDataBidiRemote | StreamDataUni | MaxStreamsBidi | MaxStreamsUni
    | AckDelayExponent | MaxAckDelay | DisableActiveMigration | PreferredAddress | ActiveCidLimit
    | InitialSourceCid | RetrySourceCid | MaxDatagramFrameSize | Disable1RttEncryption | VersionNegotiation
    | MinAckDelay | CibirEncoding | GreaseQuicBit | ReliableReset | TimestampRecv | TimestampSend | CibirOffset

  /**
   QUIC_TRANSPORT_PARAMETERS: the flags, the integer members and the byte members. A member that
   is not in its map has the value it starts with.
   */
  datatype Params = Params(flags: set<Field>, num: map<Field, varint>, blob: map<Field, Bytes>)

  datatype Tlv = Tlv(id: varint, value: Bytes)

  /** Whether the parameters come from a server, and whether memory can be allocated for them. */
  datatype Context = Context(isServer: bool, canAllocate: bool)

  // -- The parameter tables ----------------------------------------------------------

  function Id(f: Field): varint {
    match f
    case OriginalDestinationCid => 0
    case IdleTimeout => 1
    case StatelessResetToken => 2
    case MaxUdpPayloadSize => 3
    case InitialMaxData => 4
    case StreamDataBidiLocal => 5
    case StreamDataBidiRemote => 6
    case StreamDataUni => 7
    case MaxStreamsBidi => 8
    case MaxStreamsUni => 9
    case AckDelayExponent => 10
    case MaxAckDelay => 11
    case DisableActiveMigration => 12
    case PreferredAddress => 13
    case ActiveCidLimit => 14
    case InitialSourceCid => 15
    case RetrySourceCid => 16
    case MaxDatagramFrameSize => 32
    case Disable1RttEncryption => 0xBAAD
    case VersionNegotiation => 0x11
    case MinAckDelay => 0xFF04_DE1B
    case CibirEncoding => 0x1000
    case GreaseQuicBit => 0x2AB2
    case ReliableReset => 0x17_F758_6D2C_B570
    case TimestampRecv => 0x7158
    case TimestampSend => 0x7158
    case CibirOffset => 0x1000
  }

  // How the value of a parameter is read. The Case of an id is what the decoder's switch
  // statement does for it.
  datatype Case =
    | Number(f: Field, lo: int, hi: int)
    | Octets(f: Field, min: int, max: int, serverOnly: bool)
    | Marker(f: Field)
    | Cibir
    | Timestamp
    | Preferred
    | Ignored

  function CaseOf(id: varint): Case {
    if id == 0 then Octets(OriginalDestinationCid, 0, MAX_CID_V1, true)
    else if id == 1 then Number(IdleTimeout, 0, VAR_INT_MAX)
    else if id == 2 then Octets(StatelessResetToken, RESET_TOKEN_LENGTH, RESET_TOKEN_LENGTH, true)
    else if id == 3 then Number(MaxUdpPayloadSize, 1200, 65527)
    else if id == 4 then Number(InitialMaxData, 0, VAR_INT_MAX)
    else if id == 5 then Number(StreamDataBidiLocal, 0, VAR_INT_MAX)
    else if id == 6 then Number(StreamDataBidiRemote, 0, VAR_INT_MAX)
    else if id == 7 then Number(StreamDataUni, 0, VAR_INT_MAX)
    else if id == 8 then Number(MaxStreamsBidi, 0, MAX_STREAMS_MAX)
    else if id == 9 then Number(MaxStreamsUni, 0, MAX_STREAMS_MAX)
    else if id == 10 then Number(AckDelayExponent, 0, 20)
    else if id == 11 then Number(MaxAckDelay, 0, 0x3FFF)
    else if id == 12 then Marker(DisableActiveMigration)
    else if id == 13 then Preferred
    else if id == 14 then Number(ActiveCidLimit, 2, VAR_INT_MAX)
    else if id == 15 then Octets(InitialSourceCid, 0, MAX_CID_V1, false)
    else if id == 16 then Octets(RetrySourceCid, 0, MAX_CID_V1, true)
    else if id == 32 then Number(MaxDatagramFrameSize, 0, VAR_INT_MAX)
    else if id == 0x1000 then Cibir
    else if id == 0xBAAD then Marker(Disable1RttEncryption)
    else if id == 0x11 then Octets(VersionNegotiation, 0, 0xFFFF, false)
    else if id == 0xFF04_DE1B then Number(MinAckDelay, 0, 0xFF_FFFF)
    else if id == 0x2AB2 then Marker(GreaseQuicBit)
    else if id == 0x17_F758_6D2C_B570 then Marker(ReliableReset)
    else if id == 0x7158 then Timestamp
    else Ignored
  }

  /** The value of an integer member whose parameter is absent. */
  function DefaultNumber(f: Field): varint {
    match f
    case MaxUdpPayloadSize => 65527
    case AckDelayExponent => 3
    case MaxAckDelay => 25
    case ActiveCidLimit => 2
    case _ => 0
  }

  /** The value of a byte member whose parameter is absent. */
  function DefaultBlob(f: Field): Bytes {
    if f == StatelessResetToken then seq(RESET_TOKEN_LENGTH, i => 0) else []
  }

  function Defaults(): Params {
    Params({}, map[], map[])
  }

  function NumberOf(tp: Params, f: Field): varint {
    if f in tp.num then tp.num[f] else DefaultNumber(f)
  }

  function BlobOf(tp: Params, f: Field): Bytes {
    if f in tp.blob then tp.blob[f] else DefaultBlob(f)
  }

  // -- Reading one value -----------------------------------------------------------------

  /** TRY_READ_VAR_INT: bytes after the integer are not looked at. */
  function First(v: Bytes): Option<varint> {
    var r := Decode(v);
    if r.Some? then Some(r.value.0) else None
  }

  /** The integer after the first one. */
  function Second(v: Bytes): Option<varint> {
    var r := Decode(v);
    if r.Some? then First(v[r.value.1..]) else None
  }

  /** QuicTpIdIsReserved: identifiers 31 * N + 27, which the switch leaves to its default case. */
  predicate Reserved(id: varint) { id % 31 == 27 }

  /** Whether the decoder's switch accepts a value. */
  predicate Accepts(ctx: Context, id: varint, v: Bytes) {
    match CaseOf(id)
    case Number(_, lo, hi) => First(v).Some? && lo <= First(v).value <= hi
    case Octets(f, min, max, serverOnly) =>
      && min <= |v| <= max && (serverOnly ==> ctx.isServer)
      && (f == VersionNegotiation && v != [] ==> ctx.canAllocate)
    case Marker(_) => |v| == 0
    case Cibir =>
      && First(v).Some? && 1 <= First(v).value <= MAX_CID_INVARIANT
      && Second(v).Some? && Second(v).value <= MAX_CID_INVARIANT
      && First(v).value + Second(v).value <= MAX_CID_INVARIANT
    case Timestamp => First(v).Some? && First(v).value <= 3
    case Preferred => ctx.isServer
    case Ignored => true
  }

  function TimestampFlags(n: varint): set<Field> {
    (if n % 2 == 1 then {TimestampRecv} else {}) + (if n / 2 % 2 == 1 then {TimestampSend} else {})
  }

  /** What the switch stores for an accepted value. */
  function Store(ctx: Context, tp: Params, id: varint, v: Bytes): Params
    requires Accepts(ctx, id, v)
  {
    match CaseOf(id)
    case Number(f, _, _) => tp.(flags := tp.flags + {f}, num := tp.num[f := First(v).value])
    case Octets(f, _, _, _) => tp.(flags := tp.flags + {f}, blob := tp.blob[f := v])
    case Marker(f) => tp.(flags := tp.flags + {f})
    case Cibir =>
      tp.(flags := tp.flags + {CibirEncoding},
          num := tp.num[CibirEncoding := First(v).value][CibirOffset := Second(v).value])
    case Timestamp => tp.(flags := tp.flags + TimestampFlags(First(v).value))
    case Preferred => tp
    case Ignored => tp
  }

  /** MIN_ACK_DELAY, in microseconds, against the MAX_ACK_DELAY in force, in milliseconds. */
  predicate DelaysAgree(tp: Params) {
    MinAckDelay in tp.flags ==> NumberOf(tp, MinAckDelay) as int <= 1000 * (NumberOf(tp, MaxAckDelay) as int)
  }

  // -- Splitting the input ------------------------------------------------------------------

  /** The first parameter of `s` and the bytes it takes. */
  function ParseTlv(s: Bytes): (r: Option<(Tlv, nat)>)
    ensures r.Some? ==> 0 < r.value.1 <= |s|
  {
    var id := Decode(s);
    if id.None? then None
    else
      var length := Decode(s[id.value.1..]);
      if length.None? then None
      else
        var start := id.value.1 + length.value.1;
        if start + length.value.0 > |s| then None
        else Some((Tlv(id.value.0, s[start..start + length.value.0]), start + length.value.0))
  }

  /** All parameters of `s`, or nothing if the last one is cut short. */
  function Parse(s: Bytes): Option<seq<Tlv>>
    decreases |s|
  {
    if s == [] then Some([])
    else
      var r := ParseTlv(s);
      if r.None? then None
      else
        var rest := Parse(s[r.value.1..]);
        if rest.None? then None else Some([r.value.0] + rest.value)
  }

  // -- What decoding means --------------------------------------------------------------------

  /** The decoder reports an id it has seen before only below 64. */
  predicate RepeatsLowId(ts: seq<Tlv>) {
    exists i, j :: 0 <= i < j < |ts| && ts[i].id == ts[j].id && ts[i].id < 64
  }

  predicate AllAccepted(ctx: Context, ts: seq<Tlv>) {
    forall i :: 0 <= i < |ts| ==> Accepts(ctx, ts[i].id, ts[i].value)
  }

  /** The parameters stored one after the other. */
  function StoreAll(ctx: Context, ts: seq<Tlv>): (tp: Params)
    requires AllAccepted(ctx, ts)
  {
    if ts == [] then Defaults()
    else
      var n := |ts| - 1;
      assert AllAccepted(ctx, ts[..n]);
      Store(ctx, StoreAll(ctx, ts[..n]), ts[n].id, ts[n].value)
  }

  /** The outcome the decoder must have, given the parameters of its input, if they are complete. */
  function Outcome(ctx: Context, ts: Option<seq<Tlv>>): Option<Params> {
    if ts.None? || RepeatsLowId(ts.value) || !AllAccepted(ctx, ts.value) then None
    else
      var tp := StoreAll(ctx, ts.value);
      if DelaysAgree(tp) then Some(tp) else None
  }

  function Decoded(ctx: Context, s: Bytes): Option<Params> {
    Outcome(ctx, Parse(s))
  }

  /** The zeroed structure left behind by a failed decode. */
  function Cleared(): Params {
    Params({}, map[MaxUdpPayloadSize := 0, AckDelayExponent := 0, MaxAckDelay := 0, ActiveCidLimit := 0], map[])
  }

  // -- The decoder -------------------------------------------------------------------------------

  function Flagged(tp: Params, f: Field): Params {
    tp.(flags := tp.flags + {f})
  }

  /** TRY_READ_VAR_INT into a member of the structure. */
  method ReadNumber(v: Bytes, f: Field, before: Params) returns (ok: bool, tp: Params)
    ensures ok <==> First(v).Some?
    ensures ok ==> tp == before.(num := before.num[f := First(v).value])
  {
    var r := Decode(v);
    ok, tp := r.Some?, before;
    if ok {
      tp := tp.(num := tp.num[f := r.value.0]);
    }
  }

  /** The cases of the switch statement, id by id. `ok` is false where the code jumps to Exit. */
  method ReadValue(ctx: Context, id: varint, v: Bytes, before: Params) returns (ok: bool, tp: Params)
    requires |v| <= 0xFFFF
    ensures ok <==> Accepts(ctx, id, v)
    ensures ok ==> tp == Store(ctx, before, id, v)
  {
    if id <= 7 {
      ok, tp := ReadFirst(ctx, id, v, before);
    } else if id <= 16 || id == 32 {
      ok, tp := ReadSecond(ctx, id, v, before);
    } else {
      ok, tp := ReadThird(ctx, id, v, before);
    }
  }

  method ReadFirst(ctx: Context, id: varint, v: Bytes, before: Params) returns (ok: bool, tp: Params)
    requires id <= 7
    ensures ok <==> Accepts(ctx, id, v)
    ensures ok ==> tp == Store(ctx, before, id, v)
  {
    tp, ok := before, false;
    if id == 0 {
      if |v| > 20 || !ctx.isServer {
        return false, tp;
      }
      ok, tp := true, Flagged(tp.(blob := tp.blob[OriginalDestinationCid := v]), OriginalDestinationCid);
    } else if id == 1 {
      ok, tp := ReadNumber(v, IdleTimeout, tp);
      if !ok {
        return;
      }
      tp := Flagged(tp, IdleTimeout);
    } else if id == 2 {
      if |v| != 16 || !ctx.isServer {
        return false, tp;
      }
      ok, tp := true, Flagged(tp.(blob := tp.blob[StatelessResetToken := v]), StatelessResetToken);
    } else if id == 3 {
      ok, tp := ReadNumber(v, MaxUdpPayloadSize, tp);
      if !ok || tp.num[MaxUdpPayloadSize] < 1200 || tp.num[MaxUdpPayloadSize] > 65527 {
        return false, tp;
      }
      tp := Flagged(tp, MaxUdpPayloadSize);
    } else if id == 4 {
      ok, tp := ReadNumber(v, InitialMaxData, tp);
      if !ok {
        return;
      }
      tp := Flagged(tp, InitialMaxData);
    } else if id == 5 {
      ok, tp := ReadNumber(v, StreamDataBidiLocal, tp);
      if !ok {
        return;
      }
      tp := Flagged(tp, StreamDataBidiLocal);
    } else if id == 6 {
      ok, tp := ReadNumber(v, StreamDataBidiRemote, tp);
      if !ok {
        return;
      }
      tp := Flagged(tp, StreamDataBidiRemote);
    } else {
      ok, tp := ReadNumber(v, StreamDataUni, tp);
      if !ok {
        return;
      }
      tp := Flagged(tp, StreamDataUni);
    }
  }

  method ReadSecond(ctx: Context, id: varint, v: Bytes, before: Params) returns (ok: bool, tp: Params)
    requires 8 <= id <= 16 || id == 32
    ensures ok <==> Accepts(ctx, id, v)
    ensures ok ==> tp == Store(ctx, before, id, v)
  {
    tp, ok := before, false;
    if id == 8 {
      ok, tp := ReadNumber(v, MaxStreamsBidi, tp);
      if !ok || tp.num[MaxStreamsBidi] > 0xFFF_FFFF_FFFF_FFFF {
        return false, tp;
      }
      tp := Flagged(tp, MaxStreamsBidi);
    } else if id == 9 {
      ok, tp := ReadNumber(v, MaxStreamsUni, tp);
      if !ok || tp.num[MaxStreamsUni] > 0xFFF_FFFF_FFFF_FFFF {
        return false, tp;
      }
      tp := Flagged(tp, MaxStreamsUni);
    } else if id == 10 {
      ok, tp := ReadNumber(v, AckDelayExponent, tp);
      if !ok || tp.num[AckDelayExponent] > 20 {
        return false, tp;
      }
      tp := Flagged(tp, AckDelayExponent);
    } else if id == 11 {
      ok, tp := ReadNumber(v, MaxAckDelay, tp);
      if !ok || tp.num[MaxAckDelay] > 0x3FFF {
        return false, tp;
      }
      tp := Flagged(tp, MaxAckDelay);
    } else if id == 12 {
      if |v| != 0 {
        return false, tp;
      }
      ok, tp := true, Flagged(tp, DisableActiveMigration);
    } else if id == 13 {
      ok := ctx.isServer;
    } else if id == 14 {
      ok, tp := ReadNumber(v, ActiveCidLimit, tp);
      if !ok || tp.num[ActiveCidLimit] < 2 {
        return false, tp;
      }
      tp := Flagged(tp, ActiveCidLimit);
    } else if id == 15 {
      if |v| > 20 {
        return false, tp;
      }
      ok, tp := true, Flagged(tp.(blob := tp.blob[InitialSourceCid := v]), InitialSourceCid);
    } else if id == 16 {
      if |v| > 20 || !ctx.isServer {
        return false, tp;
      }
      ok, tp := true, Flagged(tp.(blob := tp.blob[RetrySourceCid := v]), RetrySourceCid);
    } else {
      ok, tp := ReadNumber(v, MaxDatagramFrameSize, tp);
      if !ok {
        return;
      }
      tp := Flagged(tp, MaxDatagramFrameSize);
    }
  }

  method ReadThird(ctx: Context, id: varint, v: Bytes, before: Params) returns (ok: bool, tp: Params)
    requires id > 16 && id != 32 && |v| <= 0xFFFF
    ensures ok <==> Accepts(ctx, id, v)
    ensures ok ==> tp == Store(ctx, before, id, v)
  {
    tp, ok := before, false;
    if id == 0x1000 {
      var length := Decode(v);
      if length.None? || length.value.0 < 1 || length.value.0 > 255 {
        return false, tp;
      }
      var offset := Decode(v[length.value.1..]);
      if offset.None? || offset.value.0 > 255 || length.value.0 + offset.value.0 > 255 {
        return false, tp;
      }
      tp := tp.(num := tp.num[CibirEncoding := length.value.0][CibirOffset := offset.value.0]);
      ok, tp := true, Flagged(tp, CibirEncoding);
    } else if id == 0xBAAD {
      if |v| != 0 {
        return false, tp;
      }
      ok, tp := true, Flagged(tp, Disable1RttEncryption);
    } else if id == 0x11 {
      if |v| > 0 && !ctx.canAllocate {
        return false, tp;
      }
      ok, tp := true, Flagged(tp.(blob := tp.blob[VersionNegotiation := v]), VersionNegotiation);
    } else if id == 0xFF04_DE1B {
      ok, tp := ReadNumber(v, MinAckDelay, tp);
      if !ok || tp.num[MinAckDelay] > 0xFF_FFFF {
        return false, tp;
      }
      tp := Flagged(tp, MinAckDelay);
    } else if id == 0x2AB2 {
      if |v| != 0 {
        return false, tp;
      }
      ok, tp := true, Flagged(tp, GreaseQuicBit);
    } else if id == 0x17_F758_6D2C_B570 {
      if |v| != 0 {
        return false, tp;
      }
      ok, tp := true, Flagged(tp, ReliableReset);
    } else if id == 0x7158 {
      var value := Decode(v);
      if value.None? || value.value.0 > 3 {
        return false, tp;
      }
      ok, tp := true, tp.(flags := tp.flags + TimestampFlags(value.value.0));
    } else {
      // Unknown and reserved identifiers are skipped.
      ok := true;
    }
  }

  function Prepend(ts: seq<Tlv>, r: Option<seq<Tlv>>): Option<seq<Tlv>> {
    if r.None? then None else Some(ts + r.value)
  }

  lemma PrependTwice(ts: seq<Tlv>, t: Tlv, r: Option<seq<Tlv>>)
    ensures Prepend(ts, Prepend([t], r)) == Prepend(ts + [t], r)
  {
    if r.Some? {
      assert ts + ([t] + r.value) == (ts + [t]) + r.value;
    }
  }

  /** The parameter at `offset`, if it is complete. */
  ghost function Front(s: Bytes, offset: nat): Option<Tlv>
    requires offset <= |s|
  {
    var r := ParseTlv(s[offset..]);
    if r.None? then None else Some(r.value.0)
  }

  /** The parameters from `offset` on. */
  ghost function Rest(s: Bytes, offset: nat): Option<seq<Tlv>>
    requires offset <= |s|
  {
    Parse(s[offset..])
  }

  /** Where the parameter at `offset` ends. */
  ghost function After(s: Bytes, offset: nat): (end: nat)
    requires offset <= |s|
    ensures offset <= end <= |s| && (Front(s, offset).Some? ==> offset < end)
  {
    var r := ParseTlv(s[offset..]);
    if r.None? then offset else offset + r.value.1
  }

  lemma RestAt(s: Bytes, offset: nat)
    requires offset < |s|
    ensures Rest(s, offset) ==
            if Front(s, offset).None? then None
            else Prepend([Front(s, offset).value], Rest(s, After(s, offset)))
  {
    var r := ParseTlv(s[offset..]);
    if r.Some? {
      assert s[offset..][r.value.1..] == s[After(s, offset)..];
    }
  }

  /** ParamsPresent: the ids below 64 among the parameters read so far. */
  ghost function LowIds(ts: seq<Tlv>): set<varint> {
    set i | 0 <= i < |ts| && ts[i].id < 64 :: ts[i].id
  }

  lemma LowIdsMore(ts: seq<Tlv>, t: Tlv)
    ensures LowIds(ts + [t]) == if t.id < 64 then LowIds(ts) + {t.id} else LowIds(ts)
  {
    var us := ts + [t];
    assert us[|ts|] == t;
    forall id | id in LowIds(ts)
      ensures id in LowIds(us)
    {
      var i :| 0 <= i < |ts| && ts[i].id < 64 && ts[i].id == id;
      assert us[i].id == id;
    }
  }

  lemma RepeatsMore(ts: seq<Tlv>, t: Tlv)
    requires !RepeatsLowId(ts)
    ensures RepeatsLowId(ts + [t]) <==> t.id in LowIds(ts)
  {
    var us := ts + [t];
    assert us[|ts|] == t;
    if t.id in LowIds(ts) {
      var i :| 0 <= i < |ts| && ts[i].id < 64 && ts[i].id == t.id;
      assert us[i].id == us[|ts|].id;
    }
  }

  /** Of the parameters `whole`, the decoder has read `ts` and found nothing wrong. */
  ghost predicate Progress(ctx: Context, whole: Option<seq<Tlv>>, rest: Option<seq<Tlv>>,
                           ts: seq<Tlv>, present: set<varint>, tp: Params) {
    && whole == Prepend(ts, rest)
    && present == LowIds(ts) && !RepeatsLowId(ts)
    && AllAccepted(ctx, ts) && tp == StoreAll(ctx, ts)
  }

  lemma ProgressStarts(ctx: Context, whole: Option<seq<Tlv>>)
    ensures Progress(ctx, whole, whole, [], {}, Defaults())
  {
    if whole.Some? {
      assert [] + whole.value == whole.value;
    }
  }

  /** A repeated or rejected parameter settles the outcome, whatever follows it. */
  lemma DefectDecides(ctx: Context, whole: Option<seq<Tlv>>, t: Tlv, rest: Option<seq<Tlv>>,
                      ts: seq<Tlv>, present: set<varint>, tp: Params)
    requires Progress(ctx, whole, Prepend([t], rest), ts, present, tp)
    requires t.id in present || !Accepts(ctx, t.id, t.value)
    ensures Outcome(ctx, whole).None?
  {
    if rest.Some? {
      var all := whole.value;
      assert all[|ts|] == t;
      if t.id in present {
        var i :| 0 <= i < |ts| && ts[i].id < 64 && ts[i].id == t.id;
        assert all[i].id == all[|ts|].id && all[i].id < 64;
      } else {
        assert !Accepts(ctx, all[|ts|].id, all[|ts|].value);
      }
    }
  }

  lemma ProgressContinues(ctx: Context, whole: Option<seq<Tlv>>, t: Tlv, rest: Option<seq<Tlv>>,
                          ts: seq<Tlv>, present: set<varint>, tp: Params)
    requires Progress(ctx, whole, Prepend([t], rest), ts, present, tp)
    requires Accepts(ctx, t.id, t.value) && t.id !in present
    ensures Progress(ctx, whole, rest, ts + [t], if t.id < 64 then present + {t.id} else present,
                     Store(ctx, tp, t.id, t.value))
  {
    PrependTwice(ts, t, rest);
    RepeatsMore(ts, t);
    LowIdsMore(ts, t);
    assert (ts + [t])[..|ts|] == ts;
  }

  lemma ProgressEnds(ctx: Context, whole: Option<seq<Tlv>>, ts: seq<Tlv>, present: set<varint>, tp: Params)
    requires Progress(ctx, whole, Some([]), ts, present, tp)
    ensures Outcome(ctx, whole) == if DelaysAgree(tp) then Some(tp) else None
  {
    assert ts + [] == ts;
  }

  /** The id, the check for a repeated id, and the length, in the decoder's order. */
  method ReadTlv(s: Bytes, present: set<varint>) returns (r: Option<(Tlv, nat)>)
    ensures r.Some? ==> r == ParseTlv(s) && r.value.0.id !in present && |r.value.0.value| <= |s|
    ensures r.None? ==> ParseTlv(s).None? || ParseTlv(s).value.0.id in present
  {
    var id := Decode(s);
    if id.None? || id.value.0 in present {
      return None;
    }
    var length := Decode(s[id.value.1..]);
    if length.None? {
      return None;
    }
    var start := id.value.1 + length.value.1;
    if start + length.value.0 > |s| {
      return None;
    }
    r := Some((Tlv(id.value.0, s[start..start + length.value.0]), start + length.value.0));
  }

  /** One turn of the decoder's loop. */
  method ReadNext(ctx: Context, s: Bytes, offset: nat, present: set<varint>, tp: Params)
    returns (ok: bool, end: nat, seen: set<varint>, next: Params)
    requires offset < |s| <= 0xFFFF
    ensures
      var front := Front(s, offset);
      if front.None? then !ok
      else
        && (ok <==> front.value.id !in present && Accepts(ctx, front.value.id, front.value.value))
        && (ok ==> end == After(s, offset) &&
                   seen == (if front.value.id < 64 then present + {front.value.id} else present) &&
                   next == Store(ctx, tp, front.value.id, front.value.value))
  {
    end, seen, next := offset, present, tp;
    var head := ReadTlv(s[offset..], present);
    if head.None? {
      return false, end, seen, next;
    }
    var t := head.value.0;
    ok, next := ReadValue(ctx, t.id, t.value, tp);
    end := offset + head.value.1;
    if t.id < 64 {
      seen := seen + {t.id};
    }
  }

  /** The parameter at the front of what is left, if it is complete, decides how the loop goes on. */
  lemma TurnKeeps(ctx: Context, whole: Option<seq<Tlv>>, front: Option<Tlv>, rest: Option<seq<Tlv>>,
                  ts: seq<Tlv>, present: set<varint>, tp: Params)
    requires Progress(ctx, whole, if front.None? then None else Prepend([front.value], rest), ts, present, tp)
    ensures
      if front.None? || front.value.id in present || !Accepts(ctx, front.value.id, front.value.value) then
        Outcome(ctx, whole).None?
      else
        var t := front.value;
        Progress(ctx, whole, rest, ts + [t], if t.id < 64 then present + {t.id} else present,
                 Store(ctx, tp, t.id, t.value))
  {
    if front.Some? {
      var t := front.value;
      if t.id in present || !Accepts(ctx, t.id, t.value) {
        DefectDecides(ctx, whole, t, rest, ts, present, tp);
      } else {
        ProgressContinues(ctx, whole, t, rest, ts, present, tp);
      }
    }
  }

  /** QuicCryptoTlsDecodeTransportParameters does what `Decoded` says, on every input. */
  method DecodeTransportParameters(ctx: Context, s: Bytes) returns (ok: bool, tp: Params)
    requires |s| <= 0xFFFF
    ensures ok <==> Decoded(ctx, s).Some?
    ensures ok ==> tp == Decoded(ctx, s).value
    ensures !ok ==> tp == Cleared()
  {
    tp := Defaults();
    var present: set<varint> := {};
    var offset := 0;
    ghost var ts: seq<Tlv> := [];
    ghost var whole := Parse(s);
    assert s[0..] == s;
    ProgressStarts(ctx, whole);
    while offset < |s|
      invariant offset <= |s| && Progress(ctx, whole, Rest(s, offset), ts, present, tp)
    {
      RestAt(s, offset);
      TurnKeeps(ctx, whole, Front(s, offset), Rest(s, After(s, offset)), ts, present, tp);
      ghost var front := Front(s, offset);
      ok, offset, present, tp := ReadNext(ctx, s, offset, present, tp);
      if !ok {
        return false, Cleared();
      }
      ts := ts + [front.value];
    }
    ProgressEnds(ctx, whole, ts, present, tp);
    ok := DelaysAgree(tp);
    if !ok {
      tp := Cleared();
    }
  }
}
