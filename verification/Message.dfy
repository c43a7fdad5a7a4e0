/** RTPS messages: built (src/message/message_builder.rs), written and parsed
    (src/message.rs, src/message/submessage/element/data.rs). They are built and written
    little-endian, as every sender of the implementation does; the parser goes by the
    endianness flag of each submessage. */
module Messages {
  import opened Types
  import opened Octets
  import opened SequenceNumberSets

  const LE := LittleEndian

  // submessage ids
  const PAD: nat := 0x01
  const ACKNACK: nat := 0x06
  const HEARTBEAT: nat := 0x07
  const GAP: nat := 0x08
  const INFO_TS: nat := 0x09
  const INFO_DST: nat := 0x0e
  const DATA: nat := 0x15
  const OTHERS: set<nat> := {0x0c, 0x0d, 0x0f, 0x12, 0x13, 0x16}

  // flags; the same bit means different things in different submessages
  const ENDIANNESS_FLAG: nat := 1
  const INVALIDATE_FLAG: nat := 2
  const FINAL_FLAG: nat := 2
  const LIVELINESS_FLAG: nat := 4
  const INLINE_QOS_FLAG: nat := 2
  const DATA_FLAG: nat := 4
  const KEY_FLAG: nat := 8

  predicate Flagged(flags: nat, flag: nat)
    requires flag > 0
  {
    flags / flag % 2 == 1
  }

  datatype Timestamp = Timestamp(seconds: nat, fraction: nat)

  const TIME_INVALID := Timestamp(0xFFFF_FFFF, 0xFFFF_FFFF)

  /** One parameter of an inline QoS. */
  datatype Parameter = Parameter(pid: nat, value: seq<Octet>)

  const PID_SENTINEL: nat := 1

  datatype Body =
    | InfoTs(timestamp: Option<Timestamp>)
    | InfoDst(prefix: GuidPrefix)
    | AckNack(readerId: EntityId, writerId: EntityId, state: NumberSet, count: int)
    | Heartbeat(readerId: EntityId, writerId: EntityId, first: int, last: int, count: int)
    | Data(readerId: EntityId, writerId: EntityId, writerSn: int, payload: Option<Payload>,
           inlineQos: Option<seq<Parameter>>)
    | Gap(readerId: EntityId, writerId: EntityId, start: int, list: NumberSet)
    | Unread(octets: seq<Octet>)     // a kind outside this model

  datatype Submessage = Submessage(id: nat, flags: nat, len: nat, body: Body)

  // ---- what fits the fields ----

  predicate IsId(id: EntityId) {
    0 <= id < 0x1_0000_0000
  }

  predicate IsCount(count: int) {
    -0x8000_0000 <= count < 0x8000_0000
  }

  predicate IsNumber(n: int) {
    -0x8000_0000_0000_0000 <= n < 0x8000_0000_0000_0000
  }

  predicate IsTime(t: Timestamp) {
    t.seconds < 0x1_0000_0000 && t.fraction < 0x1_0000_0000
  }

  const PREFIX_LIMIT: nat := 0x1_0000_0000_0000_0000_0000_0000

  predicate IsSet(s: NumberSet) {
    Storable(s) && WordsMatch(s)
  }

  predicate IsParameter(p: Parameter) {
    p.pid < 0x1_0000 && p.pid != PID_SENTINEL && |p.value| + PadLength(|p.value|) < 0x8000
  }

  predicate AllAreParameters(ps: seq<Parameter>) {
    forall i :: 0 <= i < |ps| ==> IsParameter(ps[i])
  }

  function PadLength(length: nat): nat {
    (4 - length % 4) % 4
  }

  predicate Fits(b: Body) {
    match b
    case InfoTs(ts) => ts.Some? && IsTime(ts.value)
    case InfoDst(prefix) => 0 <= prefix < PREFIX_LIMIT
    case AckNack(r, w, s, c) => IsId(r) && IsId(w) && IsSet(s) && IsCount(c)
    case Heartbeat(r, w, first, last, c) => IsId(r) && IsId(w) && IsNumber(first) && IsNumber(last) && IsCount(c)
    case Data(r, w, n, p, qos) =>
      IsId(r) && IsId(w) && IsNumber(n) && (p.Some? ==> |p.value| >= 4) && (qos.Some? ==> AllAreParameters(qos.value))
    case Gap(r, w, start, s) => IsId(r) && IsId(w) && IsNumber(start) && IsSet(s)
    case Unread(_) => false
  }

  // ---- writing ----

  /** Identifiers are plain octets, whatever the byte order. */
  function WriteId(id: EntityId): (bs: seq<Octet>)
    requires IsId(id)
    ensures |bs| == 4
  {
    Spell(id, 4, BigEndian)
  }

  function WriteCount(count: int, e: Endianness): (bs: seq<Octet>)
    requires IsCount(count)
    ensures |bs| == 4
  {
    Spell(Unsigned32(count), 4, e)
  }

  function Zeros(count: nat): (bs: seq<Octet>)
    ensures |bs| == count
  {
    seq(count, _ => 0)
  }

  /** Each value is padded to a multiple of four octets; a sentinel ends the list. */
  function WriteParameters(ps: seq<Parameter>, e: Endianness): (bs: seq<Octet>)
    requires AllAreParameters(ps)
    ensures |bs| == ParametersLength(ps)
  {
    if ps == [] then Spell(PID_SENTINEL, 4, e)
    else
      var pad := PadLength(|ps[0].value|);
      Spell(ps[0].pid, 2, e) + Spell(|ps[0].value| + pad, 2, e) + (ps[0].value + Zeros(pad)) + WriteParameters(ps[1..], e)
  }

  function ParametersLength(ps: seq<Parameter>): nat {
    if ps == [] then 4 else 4 + |ps[0].value| + PadLength(|ps[0].value|) + ParametersLength(ps[1..])
  }

  function WriteBody(b: Body, e: Endianness): seq<Octet>
    requires Fits(b)
  {
    match b
    case InfoTs(ts) => Spell(ts.value.seconds, 4, e) + Spell(ts.value.fraction, 4, e)
    case InfoDst(prefix) => Spell(prefix, 12, BigEndian)
    case AckNack(r, w, s, c) => WriteId(r) + WriteId(w) + (WriteSet(s, e) + WriteCount(c, e))
    case Heartbeat(r, w, first, last, c) =>
      WriteId(r) + WriteId(w) + (WriteNumber(first, e) + (WriteNumber(last, e) + WriteCount(c, e)))
    case Data(r, w, n, p, qos) =>
      Spell(0, 2, e) + Spell(16, 2, e)
        + (WriteId(r) + WriteId(w)
           + (WriteNumber(n, e) + ((if qos.Some? then WriteParameters(qos.value, e) else []) + if p.Some? then p.value else [])))
    case Gap(r, w, start, s) => WriteId(r) + WriteId(w) + (WriteNumber(start, e) + WriteSet(s, e))
  }

  /** The length the builder puts into the submessage header. */
  function BodyLength(b: Body): nat {
    match b
    case InfoTs(_) => 8
    case InfoDst(_) => 12
    case AckNack(_, _, s, _) => 12 + SizeOf(s)
    case Heartbeat(_, _, _, _, _) => 28
    case Data(_, _, _, p, qos) =>
      2 + 2 + 4 + 4 + 8 + (if qos.Some? then ParametersLength(qos.value) else 0) + if p.Some? then |p.value| else 0
    case Gap(_, _, _, s) => 16 + SizeOf(s)
    case Unread(octets) => |octets|
  }

  /** The header's length is the number of octets that follow it. */
  lemma LengthIsHonest(b: Body, e: Endianness)
    requires Fits(b)
    ensures |WriteBody(b, e)| == BodyLength(b)
  {
  }

  predicate Writable(m: Submessage) {
    m.id < 0x100 && m.flags < 0x100 && m.len < 0x1_0000 && Fits(m.body)
  }

  function WriteSub(m: Submessage): seq<Octet>
    requires Writable(m)
  {
    [m.id, m.flags] + Spell(m.len, 2, LE) + WriteBody(m.body, LE)
  }

  // ---- building ----

  function IdOf(b: Body): nat
    requires !b.Unread?
  {
    match b
    case InfoTs(_) => INFO_TS
    case InfoDst(_) => INFO_DST
    case AckNack(_, _, _, _) => ACKNACK
    case Heartbeat(_, _, _, _, _) => HEARTBEAT
    case Data(_, _, _, _, _) => DATA
    case Gap(_, _, _, _) => GAP
  }

  predicate FlagsOk(b: Body, flags: nat) {
    match b
    case InfoTs(ts) => flags == 1 || (flags == 3 && ts == Some(TIME_INVALID))
    case AckNack(_, _, _, _) => flags == 1 || flags == 3
    case Heartbeat(_, _, _, _, _) => flags == 1 || flags == 3 || flags == 5 || flags == 7
    case Data(_, _, _, p, qos) => flags == 1 + (if qos.Some? then 2 else 0) + (if p.Some? then 4 else 0)
    case _ => flags == 1
  }

  /** The length put into the header is a 16-bit number; that of DATA is cut to fit. */
  function HeaderLength(b: Body): nat {
    if b.Data? then BodyLength(b) % 0x1_0000 else BodyLength(b)
  }

  /** What the builder's calls push, if the length is not cut. */
  predicate Built(m: Submessage) {
    && Fits(m.body) && m.id == IdOf(m.body) && FlagsOk(m.body, m.flags)
    && m.len == BodyLength(m.body) && m.len < 0x1_0000
  }

  class MessageBuilder {
    var submessages: seq<Submessage>

    constructor ()
      ensures submessages == []
    {
      submessages := [];
    }

    /** Every call appends one submessage, with flags that suit the body it was given. */
    ghost predicate Pushed(before: seq<Submessage>, b: Body, flags: nat)
      requires !b.Unread?
      reads this
    {
      submessages == before + [Submessage(IdOf(b), flags, HeaderLength(b), b)] && FlagsOk(b, flags)
    }

    method InfoTs(timestamp: Option<Timestamp>)
      modifies this
      ensures Pushed(old(submessages), Body.InfoTs(Some(if timestamp.Some? then timestamp.value else TIME_INVALID)),
                     if timestamp.Some? then 1 else 3)
    {
      var flags, ts := ENDIANNESS_FLAG, TIME_INVALID;
      match timestamp {
        case Some(t) => ts := t;
        case None => flags := flags + INVALIDATE_FLAG;
      }
      submessages := submessages + [Submessage(INFO_TS, flags, 8, Body.InfoTs(Some(ts)))];
    }

    method InfoDst(destination: GuidPrefix)
      modifies this
      ensures Pushed(old(submessages), Body.InfoDst(destination), 1)
    {
      submessages := submessages + [Submessage(INFO_DST, ENDIANNESS_FLAG, 12, Body.InfoDst(destination))];
    }

    method AckNack(writerId: EntityId, readerId: EntityId, state: NumberSet, count: int, isFinal: bool)
      modifies this
      ensures Pushed(old(submessages), Body.AckNack(readerId, writerId, state, count), if isFinal then 3 else 1)
    {
      var flags := ENDIANNESS_FLAG;
      if isFinal {
        flags := flags + FINAL_FLAG;
      }
      submessages := submessages
        + [Submessage(ACKNACK, flags, 12 + SizeOf(state), Body.AckNack(readerId, writerId, state, count))];
    }

    method Heartbeat(liveliness: bool, writerId: EntityId, readerId: EntityId, first: int, last: int, count: int, isFinal: bool)
      modifies this
      ensures Pushed(old(submessages), Body.Heartbeat(readerId, writerId, first, last, count),
                     1 + (if isFinal then 2 else 0) + (if liveliness then 4 else 0))
    {
      var flags := ENDIANNESS_FLAG;
      if isFinal {
        flags := flags + FINAL_FLAG;
      }
      if liveliness {
        flags := flags + LIVELINESS_FLAG;
      }
      submessages := submessages
        + [Submessage(HEARTBEAT, flags, 28, Body.Heartbeat(readerId, writerId, first, last, count))];
    }

    method Data(writerId: EntityId, readerId: EntityId, writerSn: int, payload: Option<Payload>)
      modifies this
      ensures Pushed(old(submessages), Body.Data(readerId, writerId, writerSn, payload, None), if payload.Some? then 5 else 1)
    {
      var flags, payloadLength := ENDIANNESS_FLAG, 0;
      if payload.Some? {
        flags := flags + DATA_FLAG;
        payloadLength := |payload.value|;
      }
      submessages := submessages
        + [Submessage(DATA, flags, (2 + 2 + 4 + 4 + 8 + payloadLength) % 0x1_0000,
                       Body.Data(readerId, writerId, writerSn, payload, None))];
    }

    method Gap(writerId: EntityId, readerId: EntityId, start: int, list: NumberSet)
      modifies this
      ensures Pushed(old(submessages), Body.Gap(readerId, writerId, start, list), 1)
    {
      submessages := submessages
        + [Submessage(GAP, ENDIANNESS_FLAG, 16 + SizeOf(list), Body.Gap(readerId, writerId, start, list))];
    }
  }

  // ---- reading ----

  datatype ReadBody = BodyRead(body: Body) | BodyError | BodyPanic

  function ReadId(bs: seq<Octet>): EntityId {
    Value(bs, BigEndian)
  }

  /** SubMessageHeader::get_endian, and the same flag of DATA. */
  function EndiannessOf(flags: nat): Endianness {
    if Flagged(flags, ENDIANNESS_FLAG) then LittleEndian else BigEndian
  }

  function ReadCount(bs: seq<Octet>, e: Endianness): int {
    Signed(Value(bs, e), 4)
  }

  function ReadAckNack(bs: seq<Octet>, e: Endianness): ReadBody {
    if |bs| < 8 then BodyError
    else
      match ReadSet(bs[8..], e)
      case None => BodyError
      case Some(s) =>
        if |s.rest| < 4 then BodyError
        else BodyRead(AckNack(ReadId(bs[..4]), ReadId(bs[4..8]), s.numbers, ReadCount(s.rest[..4], e)))
  }

  /** Group fields after the count are not looked at. */
  function ReadHeartbeat(bs: seq<Octet>, e: Endianness): ReadBody {
    if |bs| < 28 then BodyError
    else BodyRead(Heartbeat(ReadId(bs[..4]), ReadId(bs[4..8]), ReadNumber(bs[8..16], e),
                            ReadNumber(bs[16..24], e), ReadCount(bs[24..28], e)))
  }

  function ReadGap(bs: seq<Octet>, e: Endianness): ReadBody {
    if |bs| < 16 then BodyError
    else
      match ReadSet(bs[16..], e)
      case None => BodyError
      case Some(s) => BodyRead(Gap(ReadId(bs[..4]), ReadId(bs[4..8]), ReadNumber(bs[8..16], e), s.numbers))
  }

  /** SerializedPayload::from_bytes: its header must be there, and something after it. */
  function ReadPayload(bs: seq<Octet>): Option<Payload> {
    if |bs| <= 4 then None else Some(bs)
  }

  /** Data::deserialize_data; octetsToInlineQos counts from just after itself. */
  function ReadData(bs: seq<Octet>, flags: nat): ReadBody {
    if |bs| < 20 then BodyError
    else
      var e := EndiannessOf(flags);
      var toQos := Value(bs[2..4], e);
      var readerId, writerId, writerSn := ReadId(bs[4..8]), ReadId(bs[8..12]), ReadNumber(bs[12..20], e);
      if toQos < 16 then BodyPanic
      else
        var at := 20 + (toQos - 16);
        if !Flagged(flags, INLINE_QOS_FLAG) then ReadRest(bs, at, flags, readerId, writerId, writerSn, None)
        else if |bs| < at then BodyPanic
        else
          match ReadParameters(bs[at..], e)
          case None => BodyError
          case Some(ps) => ReadRest(bs, at + ParametersLength(ps), flags, readerId, writerId, writerSn, Some(ps))
  }

  /** The payload, if the flags announce one. */
  function ReadRest(bs: seq<Octet>, at: nat, flags: nat, readerId: EntityId, writerId: EntityId, writerSn: int,
                    qos: Option<seq<Parameter>>): ReadBody {
    if !Flagged(flags, DATA_FLAG) && !Flagged(flags, KEY_FLAG) then BodyRead(Data(readerId, writerId, writerSn, None, qos))
    else if |bs| < at + 4 then BodyPanic
    else
      match ReadPayload(bs[at..])
      case None => BodyError
      case Some(p) => BodyRead(Data(readerId, writerId, writerSn, Some(p), qos))
  }

  /** ParameterList: identifier, length, value, up to the sentinel; a negative length asks
      for more octets than there are. */
  function ReadParameters(bs: seq<Octet>, e: Endianness): Option<seq<Parameter>>
    decreases |bs|
  {
    if |bs| < 2 then None
    else if Value(bs[..2], e) == PID_SENTINEL then Some([])
    else if |bs| < 4 then None
    else
      var len := Signed(Value(bs[2..4], e), 2);
      if len < 0 || |bs| - 4 < len then None
      else
        match ReadParameters(bs[4 + len..], e)
        case None => None
        case Some(ps) => Some([Parameter(Value(bs[..2], e), bs[4..4 + len])] + ps)
  }

  lemma Prepended(done: seq<Parameter>, p: Parameter, rest: Option<seq<Parameter>>)
    ensures Onto(done, if rest.Some? then Some([p] + rest.value) else None) == Onto(done + [p], rest)
  {
    if rest.Some? {
      assert done + ([p] + rest.value) == done + [p] + rest.value;
    }
  }

  function Onto(done: seq<Parameter>, rest: Option<seq<Parameter>>): Option<seq<Parameter>> {
    if rest.Some? then Some(done + rest.value) else None
  }

  /** The loop of ParameterList's reader. */
  method ReadParameterList(buffer: seq<Octet>, e: Endianness) returns (r: Option<seq<Parameter>>)
    ensures r == ReadParameters(buffer, e)
  {
    var done: seq<Parameter>, bs := [], buffer;
    assert ReadParameters(buffer, e).Some? ==> [] + ReadParameters(buffer, e).value == ReadParameters(buffer, e).value;
    while true
      invariant ReadParameters(buffer, e) == Onto(done, ReadParameters(bs, e))
      decreases |bs|
    {
      if |bs| < 2 {
        return None;
      }
      var pid := Value(bs[..2], e);
      if pid == PID_SENTINEL {
        assert done + [] == done;
        return Some(done);
      }
      if |bs| < 4 {
        return None;
      }
      var len := Signed(Value(bs[2..4], e), 2);
      if len < 0 || |bs| - 4 < len {
        return None;
      }
      var p := Parameter(pid, bs[4..4 + len]);
      Prepended(done, p, ReadParameters(bs[4 + len..], e));
      done, bs := done + [p], bs[4 + len..];
    }
  }

  /** The same with a cursor that moves along the buffer. */
  method DeserializeData(buffer: seq<Octet>, flags: nat) returns (r: ReadBody)
    ensures r == ReadData(buffer, flags)
  {
    hide Value, ReadId, ReadNumber, ReadParameters, ParametersLength, Flagged, EndiannessOf;
    if |buffer| < 20 {
      return BodyError;
    }
    var e := EndiannessOf(flags);
    var readBytes := 2;                                      // extraFlags
    var toQos := Value(buffer[readBytes..readBytes + 2], e);
    readBytes := readBytes + 2;
    var readerId := ReadId(buffer[readBytes..readBytes + 4]);
    readBytes := readBytes + 4;
    var writerId := ReadId(buffer[readBytes..readBytes + 4]);
    readBytes := readBytes + 4;
    var writerSn := ReadNumber(buffer[readBytes..readBytes + 8], e);
    readBytes := readBytes + 8;
    if toQos < 16 {
      return BodyPanic;
    }
    readBytes := readBytes + (toQos - 16);
    var qos: Option<seq<Parameter>> := None;
    if Flagged(flags, INLINE_QOS_FLAG) {
      if |buffer| < readBytes {
        return BodyPanic;
      }
      qos := ReadParameterList(buffer[readBytes..], e);
      if qos.None? {
        return BodyError;
      }
      readBytes := readBytes + ParametersLength(qos.value);   // as if it were written again
    }
    var payload: Option<Payload> := None;
    if Flagged(flags, DATA_FLAG) || Flagged(flags, KEY_FLAG) {
      if |buffer| < readBytes + 4 {
        return BodyPanic;
      }
      payload := ReadPayload(buffer[readBytes..]);
      if payload.None? {
        return BodyError;
      }
    }
    r := BodyRead(Data(readerId, writerId, writerSn, payload, qos));
  }

  function ReadInfoTs(bs: seq<Octet>, flags: nat, e: Endianness): ReadBody {
    if Flagged(flags, INVALIDATE_FLAG) then BodyRead(InfoTs(None))
    else if |bs| < 8 then BodyError
    else BodyRead(InfoTs(Some(Timestamp(Value(bs[..4], e), Value(bs[4..8], e)))))
  }

  function ReadKind(id: nat, flags: nat, bs: seq<Octet>): ReadBody {
    var e := EndiannessOf(flags);
    if id == ACKNACK then ReadAckNack(bs, e)
    else if id == HEARTBEAT then ReadHeartbeat(bs, e)
    else if id == GAP then ReadGap(bs, e)
    else if id == INFO_TS then ReadInfoTs(bs, flags, e)
    else if id == INFO_DST then (if |bs| < 12 then BodyError else BodyRead(InfoDst(Value(bs[..12], BigEndian))))
    else if id == DATA then ReadData(bs, flags)
    else BodyRead(Unread(bs))
  }

  /** PAD and kinds nobody knows are skipped. */
  predicate Skipped(id: nat) {
    id !in OTHERS && id !in {ACKNACK, HEARTBEAT, GAP, INFO_TS, INFO_DST, DATA}
  }

  /** A length of 0 means "to the end of the message", except for PAD and INFO_TS
      (section 9.4.5.1.3 of RTPS 2.3). */
  function SpanOf(id: nat, len: nat, left: nat): nat {
    if len != 0 then len else if id == PAD || id == INFO_TS then 0 else left
  }

  datatype Parsed = Parsed(subs: seq<Submessage>) | ReadError | Panicked

  /** The parse loop, with `done` pushed so far. */
  function ParseFrom(bs: seq<Octet>, done: seq<Submessage>): Parsed
    decreases |bs|
  {
    if bs == [] then Parsed(done)
    else if |bs| < 4 then Panicked
    else
      var id, flags, len := bs[0], bs[1], Value(bs[2..4], LE);
      var span := SpanOf(id, len, |bs| - 4);
      if |bs| - 4 < span then Panicked
      else
        var rest := bs[4 + span..];
        if Skipped(id) then ParseFrom(rest, done)
        else
          match ReadKind(id, flags, bs[4..4 + span])
          case BodyError => ReadError
          case BodyPanic => Panicked
          case BodyRead(body) => ParseFrom(rest, done + [Submessage(id, flags, len, body)])
  }

  /** Message::new after the 20 octets of the header. Each pass uses up at least the four
      octets of a submessage header. */
  method Parse(buffer: seq<Octet>) returns (r: Parsed)
    ensures r == ParseFrom(buffer, [])
  {
    var bs, subs := buffer, [];
    while bs != []
      invariant ParseFrom(bs, subs) == ParseFrom(buffer, [])
      decreases |bs|
    {
      if |bs| < 4 {
        return Panicked;
      }
      var id, flags, len := bs[0], bs[1], Value(bs[2..4], LE);
      var span := SpanOf(id, len, |bs| - 4);
      if |bs| - 4 < span {
        return Panicked;
      }
      var body, rest := bs[4..4 + span], bs[4 + span..];
      if !Skipped(id) {
        match ReadKind(id, flags, body) {
          case BodyError => return ReadError;
          case BodyPanic => return Panicked;
          case BodyRead(b) => subs := subs + [Submessage(id, flags, len, b)];
        }
      }
      bs := rest;
    }
    r := Parsed(subs);
  }

  // ---- round trip ----

  /** What comes back of a submessage: an invalid timestamp comes back as none. */
  function Seen(m: Submessage): Submessage {
    if m.body.InfoTs? && Flagged(m.flags, INVALIDATE_FLAG) then m.(body := InfoTs(None))
    else if m.body.Data? then m.(body := PaddedQos(m.body))
    else m
  }

  predicate PayloadOk(m: Submessage) {
    m.body.Data? && m.body.payload.Some? ==> |m.body.payload.value| > 4
  }

  lemma IdRoundTrip(id: EntityId)
    requires IsId(id)
    ensures ReadId(WriteId(id)) == id
  {
    Powers();
    SpellRoundTrip(id, 4, BigEndian);
  }

  lemma CountRoundTrip(count: int, e: Endianness)
    requires IsCount(count)
    ensures ReadCount(WriteCount(count, e), e) == count
  {
    Powers();
    SpellRoundTrip(Unsigned32(count), 4, e);
  }

  lemma TwoIds(r: EntityId, w: EntityId, rest: seq<Octet>)
    requires IsId(r) && IsId(w)
    ensures var bs := WriteId(r) + WriteId(w) + rest;
      && ReadId(bs[..4]) == r && ReadId(bs[4..8]) == w && bs[8..] == rest
  {
    IdRoundTrip(r);
    IdRoundTrip(w);
    var bs := WriteId(r) + WriteId(w) + rest;
    assert bs[..4] == WriteId(r) && bs[4..8] == WriteId(w);
  }

  lemma AckNackRoundTrip(b: Body, e: Endianness)
    requires b.AckNack? && Fits(b)
    ensures ReadAckNack(WriteBody(b, e), e) == BodyRead(b)
  {
    var count := WriteCount(b.count, e);
    TwoIds(b.readerId, b.writerId, WriteSet(b.state, e) + count);
    SetRoundTrip(b.state, count, e);
    CountRoundTrip(b.count, e);
    assert count[..4] == count;
  }

  lemma HeartbeatRoundTrip(b: Body, e: Endianness)
    requires b.Heartbeat? && Fits(b)
    ensures ReadHeartbeat(WriteBody(b, e), e) == BodyRead(b)
  {
    var f, l, c := WriteNumber(b.first, e), WriteNumber(b.last, e), WriteCount(b.count, e);
    NumberRoundTrip(b.first, e);
    NumberRoundTrip(b.last, e);
    CountRoundTrip(b.count, e);
    TwoIds(b.readerId, b.writerId, f + (l + c));
    var bs := WriteBody(b, e);
    assert bs[8..16] == bs[8..][..8] == f;
    assert bs[16..24] == bs[8..][8..16] == l;
    assert bs[24..28] == bs[8..][16..20] == c;
  }

  lemma GapRoundTrip(b: Body, e: Endianness)
    requires b.Gap? && Fits(b)
    ensures ReadGap(WriteBody(b, e), e) == BodyRead(b)
  {
    var start := WriteNumber(b.start, e);
    NumberRoundTrip(b.start, e);
    TwoIds(b.readerId, b.writerId, start + WriteSet(b.list, e));
    SetRoundTrip(b.list, [], e);
    assert WriteSet(b.list, e) + [] == WriteSet(b.list, e);
    var bs := WriteBody(b, e);
    assert bs[8..16] == bs[8..][..8] == start;
    assert bs[16..] == bs[8..][8..] == WriteSet(b.list, e);
  }

  lemma InfoTsRoundTrip(b: Body, flags: nat, e: Endianness)
    requires b.InfoTs? && Fits(b)
    ensures ReadInfoTs(WriteBody(b, e), flags, e) == BodyRead(if Flagged(flags, INVALIDATE_FLAG) then InfoTs(None) else b)
  {
    Powers();
    var t := b.timestamp.value;
    SpellRoundTrip(t.seconds, 4, e);
    SpellRoundTrip(t.fraction, 4, e);
    var bs := WriteBody(b, e);
    assert bs[..4] == Spell(t.seconds, 4, e) && bs[4..8] == Spell(t.fraction, 4, e);
  }

  lemma PrefixFits()
    ensures Power(12) == PREFIX_LIMIT
  {
  }

  lemma InfoDstRoundTrip(b: Body, e: Endianness)
    requires b.InfoDst? && Fits(b)
    ensures |WriteBody(b, e)| == 12 && Value(WriteBody(b, e)[..12], BigEndian) == b.prefix
  {
    PrefixFits();
    SpellRoundTrip(b.prefix, 12, BigEndian);
    assert WriteBody(b, e)[..12] == WriteBody(b, e);
  }

  // ---- inline QoS ----

  /** Values come back with their padding. */
  function Padded(ps: seq<Parameter>): (r: seq<Parameter>)
    ensures ParametersLength(r) == ParametersLength(ps)
  {
    if ps == [] then []
    else
      var v := ps[0].value + Zeros(PadLength(|ps[0].value|));
      assert PadLength(|v|) == 0;
      [Parameter(ps[0].pid, v)] + Padded(ps[1..])
  }

  lemma ParameterSlices(pid: seq<Octet>, len: seq<Octet>, v: seq<Octet>, rest: seq<Octet>, tail: seq<Octet>)
    requires |pid| == 2 && |len| == 2
    ensures var bs := pid + len + v + rest + tail;
      && bs[..2] == pid && bs[2..4] == len && bs[4..4 + |v|] == v && bs[4 + |v|..] == rest + tail
  {
  }

  lemma SentinelIsRead(tail: seq<Octet>)
    ensures var bs := Spell(PID_SENTINEL, 4, LE) + tail; |bs| >= 2 && Value(bs[..2], LE) == PID_SENTINEL
  {
    var bs := Spell(PID_SENTINEL, 4, LE) + tail;
    assert Little(1, 4) == [1] + Little(0, 3) && Little(0, 3) == [0] + Little(0, 2);
    assert bs[..2] == [1, 0] && [1, 0][1..] == [0] && [0][1..] == [];
    assert LittleValue([0]) == 0 && LittleValue([1, 0]) == 1;
  }

  /** What Data writes for its inline QoS is read up to the sentinel. */
  lemma {:induction false} ParametersRoundTrip(ps: seq<Parameter>, tail: seq<Octet>)
    requires AllAreParameters(ps)
    ensures ReadParameters(WriteParameters(ps, LE) + tail, LE) == Some(Padded(ps))
    decreases |ps|
  {
    if ps == [] {
      SentinelIsRead(tail);
    } else {
      Powers();
      var pad := PadLength(|ps[0].value|);
      var v := ps[0].value + Zeros(pad);
      assert IsParameter(ps[0]);
      SpellRoundTrip(ps[0].pid, 2, LE);
      SpellRoundTrip(|v|, 2, LE);
      ParameterSlices(Spell(ps[0].pid, 2, LE), Spell(|v|, 2, LE), v, WriteParameters(ps[1..], LE), tail);
      ParametersRoundTrip(ps[1..], tail);
      ReadOne(WriteParameters(ps, LE) + tail, |v|, ps[0].pid);
    }
  }

  lemma ReadOne(bs: seq<Octet>, len: nat, pid: nat)
    requires |bs| >= 4 + len && len < 0x8000 && pid != PID_SENTINEL
    requires Value(bs[..2], LE) == pid && Value(bs[2..4], LE) == len
    ensures ReadParameters(bs, LE) ==
      match ReadParameters(bs[4 + len..], LE)
      case None => None
      case Some(ps) => Some([Parameter(pid, bs[4..4 + len])] + ps)
  {
    hide Value, Signed;
    ShortIsPositive(len);
  }

  lemma ShortIsPositive(len: nat)
    requires len < 0x8000
    ensures Signed(len, 2) == len
  {
    Powers();
  }

  function PaddedQos(b: Body): Body
    requires b.Data?
  {
    if b.inlineQos.Some? then b.(inlineQos := Some(Padded(b.inlineQos.value))) else b
  }

  lemma DataSlices(a: seq<Octet>, q: seq<Octet>, r: seq<Octet>, w: seq<Octet>, n: seq<Octet>, p: seq<Octet>)
    requires |a| == 2 && |q| == 2 && |r| == 4 && |w| == 4 && |n| == 8
    ensures var bs := a + q + (r + w + (n + p));
      |bs| >= 20 && bs[2..4] == q && bs[4..8] == r && bs[8..12] == w && bs[12..20] == n && bs[20..] == p
  {
  }

  function RestOf(b: Body): seq<Octet>
    requires b.Data? && Fits(b)
  {
    (if b.inlineQos.Some? then WriteParameters(b.inlineQos.value, LE) else []) + if b.payload.Some? then b.payload.value else []
  }

  lemma DataFlags(b: Body, flags: nat)
    requires b.Data? && FlagsOk(b, flags)
    ensures EndiannessOf(flags) == LE && !Flagged(flags, KEY_FLAG)
    ensures (Flagged(flags, INLINE_QOS_FLAG) <==> b.inlineQos.Some?) && (Flagged(flags, DATA_FLAG) <==> b.payload.Some?)
  {
  }

  lemma ReadDataOf(bs: seq<Octet>, b: Body, flags: nat)
    requires b.Data? && Fits(b) && |bs| >= 20 && Value(bs[2..4], LE) == 16
    requires ReadId(bs[4..8]) == b.readerId && ReadId(bs[8..12]) == b.writerId
    requires ReadNumber(bs[12..20], LE) == b.writerSn
    requires FlagsOk(b, flags) && bs[20..] == RestOf(b)
    ensures ReadData(bs, flags) == if b.payload.Some? && |b.payload.value| <= 4 then BodyError else BodyRead(PaddedQos(b))
  {
    hide Flagged, EndiannessOf, FlagsOk, ReadParameters, WriteParameters, Padded;
    DataFlags(b, flags);
    var p := if b.payload.Some? then b.payload.value else [];
    if b.inlineQos.Some? {
      ParametersRoundTrip(b.inlineQos.value, p);
      var at := 20 + ParametersLength(b.inlineQos.value);
      assert bs[at..] == bs[20..][at - 20..] == p;
    } else {
      assert [] + p == p;
    }
  }

  /** A payload that is nothing but its four header octets is refused; the values of an
      inline QoS come back with their padding. */
  lemma DataRoundTrip(b: Body, flags: nat)
    requires b.Data? && Fits(b) && FlagsOk(b, flags)
    ensures ReadData(WriteBody(b, LE), flags)
         == if b.payload.Some? && |b.payload.value| <= 4 then BodyError else BodyRead(PaddedQos(b))
  {
    hide ReadData, WriteParameters, ReadId, WriteId, WriteNumber, ReadNumber, Spell, Value;
    SixteenIsRead();
    NumberRoundTrip(b.writerSn, LE);
    IdRoundTrip(b.readerId);
    IdRoundTrip(b.writerId);
    DataSlices(Spell(0, 2, LE), Spell(16, 2, LE), WriteId(b.readerId), WriteId(b.writerId), WriteNumber(b.writerSn, LE), RestOf(b));
    ReadDataOf(WriteBody(b, LE), b, flags);
  }

  lemma SixteenIsRead()
    ensures Value(Spell(16, 2, LE), LE) == 16
  {
    Powers();
    SpellRoundTrip(16, 2, LE);
  }

  lemma BuiltLittleEndian(m: Submessage)
    requires Built(m)
    ensures EndiannessOf(m.flags) == LE
  {
  }

  lemma BodyRoundTrip(m: Submessage)
    requires Built(m)
    ensures ReadKind(m.id, m.flags, WriteBody(m.body, LE)) == if PayloadOk(m) then BodyRead(Seen(m).body) else BodyError
  {
    hide WriteBody, ReadAckNack, ReadHeartbeat, ReadGap, ReadInfoTs, ReadData, EndiannessOf, Flagged;
    BuiltLittleEndian(m);
    match m.body
    case InfoTs(ts) => InfoTsRoundTrip(m.body, m.flags, LE);
    case InfoDst(prefix) => InfoDstRoundTrip(m.body, LE);
    case AckNack(r, w, s, c) => AckNackRoundTrip(m.body, LE);
    case Heartbeat(r, w, first, last, c) => HeartbeatRoundTrip(m.body, LE);
    case Data(r, w, n, p, qos) => DataRoundTrip(m.body, m.flags);
    case Gap(r, w, start, s) => GapRoundTrip(m.body, LE);
  }

  lemma HeaderSlices(id: Octet, flags: Octet, len: seq<Octet>, body: seq<Octet>, tail: seq<Octet>)
    requires |len| == 2
    ensures var bs := [id, flags] + len + body + tail;
      && bs[0] == id && bs[1] == flags && bs[2..4] == len
      && bs[4..4 + |body|] == body && bs[4 + |body|..] == tail
  {
  }

  lemma SubRoundTrip(m: Submessage, tail: seq<Octet>, done: seq<Submessage>)
    requires Built(m)
    ensures ParseFrom(WriteSub(m) + tail, done)
         == if PayloadOk(m) then ParseFrom(tail, done + [Seen(m)]) else ReadError
  {
    Powers();
    SpellRoundTrip(m.len, 2, LE);
    LengthIsHonest(m.body, LE);
    BodyRoundTrip(m);
    HeaderSlices(m.id, m.flags, Spell(m.len, 2, LE), WriteBody(m.body, LE), tail);
    assert m.len > 0;
  }

  ghost predicate AllBuilt(ms: seq<Submessage>) {
    forall i :: 0 <= i < |ms| ==> Built(ms[i])
  }

  ghost predicate AllPayloadsOk(ms: seq<Submessage>) {
    forall i :: 0 <= i < |ms| ==> PayloadOk(ms[i])
  }

  ghost predicate AllWritable(ms: seq<Submessage>) {
    forall i :: 0 <= i < |ms| ==> Writable(ms[i])
  }

  ghost function WriteSubs(ms: seq<Submessage>): seq<Octet>
    requires AllWritable(ms)
  {
    if ms == [] then [] else WriteSub(ms[0]) + WriteSubs(ms[1..])
  }

  function SeenAll(ms: seq<Submessage>): seq<Submessage> {
    if ms == [] then [] else [Seen(ms[0])] + SeenAll(ms[1..])
  }

  lemma {:induction false} SubsRoundTrip(ms: seq<Submessage>, done: seq<Submessage>)
    requires AllBuilt(ms)
    ensures ParseFrom(WriteSubs(ms), done)
         == if AllPayloadsOk(ms) then Parsed(done + SeenAll(ms)) else ReadError
    decreases |ms|
  {
    if ms == [] {
      assert done + SeenAll(ms) == done;
    } else {
      SubRoundTrip(ms[0], WriteSubs(ms[1..]), done);
      SubsRoundTrip(ms[1..], done + [Seen(ms[0])]);
      assert done + [Seen(ms[0])] + SeenAll(ms[1..]) == done + SeenAll(ms);
      assert AllPayloadsOk(ms) <==> PayloadOk(ms[0]) && AllPayloadsOk(ms[1..]);
    }
  }

  // ---- whole messages ----

  datatype Header = Header(protocol: seq<Octet>, version: seq<Octet>, vendor: seq<Octet>, prefix: GuidPrefix)

  /** Header::new: "RTPS", version 2.3, an unknown vendor and the sender's GUID prefix. */
  function OwnHeader(prefix: GuidPrefix): Header {
    Header([0x52, 0x54, 0x50, 0x53], [2, 3], [0, 0], prefix)
  }

  /** All of it is octets, whatever the byte order; no field is checked. */
  function ReadHeader(bs: seq<Octet>): Header
    requires |bs| >= 20
  {
    Header(bs[..4], bs[4..6], bs[6..8], Value(bs[8..20], BigEndian))
  }

  function WriteHeader(prefix: GuidPrefix): (bs: seq<Octet>)
    requires 0 <= prefix < PREFIX_LIMIT
    ensures |bs| == 20
  {
    var h := OwnHeader(prefix);
    h.protocol + h.version + h.vendor + Spell(prefix, 12, BigEndian)
  }

  ghost function WriteMessage(prefix: GuidPrefix, ms: seq<Submessage>): seq<Octet>
    requires 0 <= prefix < PREFIX_LIMIT && AllWritable(ms)
  {
    WriteHeader(prefix) + WriteSubs(ms)
  }

  /** Message::new; fewer than 20 octets are a panic. */
  method ParseMessage(buffer: seq<Octet>) returns (header: Option<Header>, r: Parsed)
    ensures |buffer| < 20 ==> header == None && r == Panicked
    ensures |buffer| >= 20 ==> header == Some(ReadHeader(buffer)) && r == ParseFrom(buffer[20..], [])
  {
    header, r := None, Panicked;
    if |buffer| >= 20 {
      header := Some(Header(buffer[..4], buffer[4..6], buffer[6..8], Value(buffer[8..20], BigEndian)));
      r := Parse(buffer[20..]);
    }
  }

  lemma FourSlices(a: seq<Octet>, b: seq<Octet>, c: seq<Octet>, d: seq<Octet>, tail: seq<Octet>)
    requires |a| == 4 && |b| == 2 && |c| == 2 && |d| == 12
    ensures var bs := a + b + c + d + tail;
      && |bs| >= 20 && bs[..4] == a && bs[4..6] == b && bs[6..8] == c && bs[8..20] == d && bs[20..] == tail
  {
  }

  lemma HeaderRoundTrip(prefix: GuidPrefix, tail: seq<Octet>)
    requires 0 <= prefix < PREFIX_LIMIT
    ensures ReadHeader(WriteHeader(prefix) + tail) == OwnHeader(prefix) && (WriteHeader(prefix) + tail)[20..] == tail
  {
    hide Spell, Value;
    PrefixFits();
    SpellRoundTrip(prefix, 12, BigEndian);
    var h := OwnHeader(prefix);
    FourSlices(h.protocol, h.version, h.vendor, Spell(prefix, 12, BigEndian), tail);
  }

  /** Parsing a built message gives its header and the submessages back in order, an invalid
      timestamp as none and the values of an inline QoS with their padding, exactly when no
      payload is empty; an empty one is a read error for the whole message. The length in
      each submessage header is that of its body. */
  lemma MessageRoundTrip(prefix: GuidPrefix, ms: seq<Submessage>)
    requires 0 <= prefix < PREFIX_LIMIT && AllBuilt(ms)
    ensures var bs := WriteMessage(prefix, ms);
      && |bs| >= 20 && ReadHeader(bs) == OwnHeader(prefix)
      && ParseFrom(bs[20..], []) == if AllPayloadsOk(ms) then Parsed(SeenAll(ms)) else ReadError
    ensures forall i :: 0 <= i < |ms| ==> ms[i].len == |WriteBody(ms[i].body, LE)|
  {
    HeaderRoundTrip(prefix, WriteSubs(ms));
    SubsRoundTrip(ms, []);
    assert [] + SeenAll(ms) == SeenAll(ms);
    forall i | 0 <= i < |ms|
      ensures ms[i].len == |WriteBody(ms[i].body, LE)|
    {
      LengthIsHonest(ms[i].body, LE);
    }
  }

  // ---- which payloads arrive ----

  /** What a writer sends for one change, as the calls of the builder push it. */
  function DataMessage(time: Timestamp, readerId: EntityId, writerId: EntityId, n: int, p: Payload): seq<Submessage> {
    var data := Data(readerId, writerId, n, Some(p), None);
    [Submessage(INFO_TS, 1, 8, InfoTs(Some(time))), Submessage(DATA, 5, HeaderLength(data), data)]
  }

  lemma DataMessageLength(prefix: GuidPrefix, time: Timestamp, readerId: EntityId, writerId: EntityId, n: int, p: Payload)
    requires 0 <= prefix < PREFIX_LIMIT && IsTime(time) && IsId(readerId) && IsId(writerId) && IsNumber(n) && |p| >= 4
    ensures var ms := DataMessage(time, readerId, writerId, n, p);
      AllWritable(ms) && |WriteMessage(prefix, ms)| == 56 + |p|
  {
    var ms := DataMessage(time, readerId, writerId, n, p);
    assert WriteSubs(ms) == WriteSub(ms[0]) + WriteSubs(ms[1..]);
    assert WriteSubs(ms[1..]) == WriteSub(ms[1]) + WriteSubs(ms[1..][1..]);
    LengthIsHonest(ms[0].body, LE);
    LengthIsHonest(ms[1].body, LE);
  }

  lemma DataMessageBuilt(time: Timestamp, readerId: EntityId, writerId: EntityId, n: int, p: Payload)
    requires IsTime(time) && IsId(readerId) && IsId(writerId) && IsNumber(n) && 4 <= |p| <= MAX_DATAGRAM - 56
    ensures var ms := DataMessage(time, readerId, writerId, n, p);
      AllBuilt(ms) && SeenAll(ms) == ms && (AllPayloadsOk(ms) <==> |p| > 4)
  {
    var ms := DataMessage(time, readerId, writerId, n, p);
    assert AllPayloadsOk(ms) <==> PayloadOk(ms[1]);
    assert !Flagged(1, INVALIDATE_FLAG);
    assert SeenAll(ms[1..]) == [Seen(ms[1])] + SeenAll(ms[1..][1..]);
    assert ms[1..][1..] == [] && Seen(ms[0]) == ms[0] && Seen(ms[1]) == ms[1];
    assert SeenAll(ms) == [ms[0]] + [ms[1]];
  }

  /** A payload arrives exactly when the message with its DATA fits a datagram and the
      receiver, having read it, finds both submessages as they were. */
  lemma DeliverableExactly(prefix: GuidPrefix, time: Timestamp, readerId: EntityId, writerId: EntityId, n: int, p: Payload)
    requires 0 <= prefix < PREFIX_LIMIT && IsTime(time) && IsId(readerId) && IsId(writerId) && IsNumber(n) && |p| >= 4
    ensures var ms := DataMessage(time, readerId, writerId, n, p);
      && AllWritable(ms)
      && var bs := WriteMessage(prefix, ms);
         (Deliverable(p) <==> |bs| <= MAX_DATAGRAM && ParseFrom(bs[20..], []) == Parsed(ms))
  {
    hide WriteMessage, ParseFrom, WriteSubs, Built, SeenAll, AllPayloadsOk;
    DataMessageLength(prefix, time, readerId, writerId, n, p);
    var ms := DataMessage(time, readerId, writerId, n, p);
    if 56 + |p| <= MAX_DATAGRAM {
      DataMessageBuilt(time, readerId, writerId, n, p);
      MessageRoundTrip(prefix, ms);
    }
  }
}
