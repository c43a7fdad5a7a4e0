/** The parameter list with which a participant announces itself
    (src/discovery/structure/data.rs:255-288, 450-711, 1067-1159). */
module Spdp {
  import opened Types
  import opened Octets
  import Bitmap = SequenceNumberSets

  datatype Duration = Duration(seconds: int, fraction: nat)

  datatype Version = Version(major: Octet, minor: Octet)

  datatype Vendor = Vendor(first: Octet, second: Octet)

  /** SPDPdiscoveredParticipantData without the domain tag, which is not sent. */
  datatype Participant = Participant(
    domainId: nat,
    version: Version,
    guid: Guid,
    vendor: Vendor,
    expectsInlineQos: bool,
    endpoints: nat,
    metatrafficUnicast: seq<Locator>,
    metatrafficMulticast: seq<Locator>,
    defaultUnicast: seq<Locator>,
    defaultMulticast: seq<Locator>,
    livelinessCount: Option<int>,
    lease: Duration)

  /** The same while it is being collected from a parameter list. */
  datatype Builtin = Builtin(
    domainId: nat,
    version: Option<Version>,
    guid: Option<Guid>,
    vendor: Option<Vendor>,
    expectsInlineQos: Option<bool>,
    endpoints: Option<nat>,
    metatrafficUnicast: seq<Locator>,
    metatrafficMulticast: seq<Locator>,
    defaultUnicast: seq<Locator>,
    defaultMulticast: seq<Locator>,
    livelinessCount: Option<int>,
    lease: Option<Duration>)

  const NOTHING := Builtin(0, None, None, None, None, None, [], [], [], [], None, None)

  const DEFAULT_LEASE := Duration(100, 0)

  /** gen_spdp_discoverd_participant_data: a few parameters may be missing. */
  function Generated(b: Builtin): Option<Participant> {
    if b.version.None? || b.guid.None? || b.vendor.None? || b.endpoints.None? then None
    else Some(Participant(
      b.domainId, b.version.value, b.guid.value, b.vendor.value,
      if b.expectsInlineQos.Some? then b.expectsInlineQos.value else false,
      b.endpoints.value,
      b.metatrafficUnicast, b.metatrafficMulticast, b.defaultUnicast, b.defaultMulticast,
      b.livelinessCount, if b.lease.Some? then b.lease.value else DEFAULT_LEASE))
  }

  // ---- parameters ----

  datatype ListKind = MetatrafficUnicast | MetatrafficMulticast | DefaultUnicast | DefaultMulticast

  datatype Param =
    | DomainId(domainId: nat)
    | ProtocolVersion(version: Version)
    | VendorId(vendor: Vendor)
    | InlineQos(expected: bool)
    | ParticipantGuid(guid: Guid)
    | LocatorIn(kind: ListKind, locator: Locator)
    | Endpoints(bits: nat)
    | Lease(lease: Duration)
    | Liveliness(count: int)

  const PID_PAD: nat := 0x0000
  const PID_SENTINEL: nat := 0x0001
  const PID_LEASE: nat := 0x0002
  const PID_DOMAIN_ID: nat := 0x000f
  const PID_VERSION: nat := 0x0015
  const PID_VENDOR: nat := 0x0016
  const PID_DEFAULT_UNICAST: nat := 0x0031
  const PID_METATRAFFIC_UNICAST: nat := 0x0032
  const PID_METATRAFFIC_MULTICAST: nat := 0x0033
  const PID_LIVELINESS: nat := 0x0034
  const PID_INLINE_QOS: nat := 0x0043
  const PID_DEFAULT_MULTICAST: nat := 0x0048
  const PID_GUID: nat := 0x0050
  const PID_ENDPOINTS: nat := 0x0058

  /** Parameters of endpoint data, properties and names, which this model does not read. */
  const FOREIGN: set<nat> := {
    0x0004, 0x0005, 0x0006, 0x0007, 0x001a, 0x001b, 0x001d, 0x001e, 0x001f, 0x0021, 0x0023, 0x0025, 0x0027,
    0x0029, 0x002b, 0x002c, 0x002d, 0x002e, 0x002f, 0x0030, 0x0040, 0x0041, 0x0049, 0x0059, 0x005a, 0x0060,
    0x0062, 0x4014 }

  function PidOfList(kind: ListKind): nat {
    match kind
    case MetatrafficUnicast => PID_METATRAFFIC_UNICAST
    case MetatrafficMulticast => PID_METATRAFFIC_MULTICAST
    case DefaultUnicast => PID_DEFAULT_UNICAST
    case DefaultMulticast => PID_DEFAULT_MULTICAST
  }

  function Pid(p: Param): nat {
    match p
    case DomainId(_) => PID_DOMAIN_ID
    case ProtocolVersion(_) => PID_VERSION
    case VendorId(_) => PID_VENDOR
    case InlineQos(_) => PID_INLINE_QOS
    case ParticipantGuid(_) => PID_GUID
    case LocatorIn(kind, _) => PidOfList(kind)
    case Endpoints(_) => PID_ENDPOINTS
    case Lease(_) => PID_LEASE
    case Liveliness(_) => PID_LIVELINESS
  }

  const KIND_UDPV4: int := 1
  const GUID_LIMIT: nat := 0x1_0000_0000_0000_0000_0000_0000_0000_0000

  predicate IsInt(n: int) {
    -0x8000_0000 <= n < 0x8000_0000
  }

  predicate LocatorFits(l: Locator) {
    IsInt(l.kind) && l.port < 0x1_0000_0000 && |l.address| == 16
  }

  /** Locator::new insists on leading zeros in front of an IPv4 address. */
  predicate LocatorOk(l: Locator)
    requires |l.address| == 16
  {
    l.kind == KIND_UDPV4 ==> forall i :: 0 <= i < 12 ==> l.address[i] == 0
  }

  // the flags of BuiltinEndpoint are bits 0 to 29
  const ENDPOINT_LIMIT: nat := 0x4000_0000

  /** BitFlags::from_bits_truncate */
  function Truncated(bits: nat): nat {
    bits % ENDPOINT_LIMIT
  }

  predicate Fits(p: Param) {
    match p
    case DomainId(n) => n < 0x1_0000
    case ParticipantGuid(g) => 0 <= g < GUID_LIMIT
    case LocatorIn(_, l) => LocatorFits(l)
    case Endpoints(bits) => bits < 0x1_0000_0000
    case Lease(d) => IsInt(d.seconds) && d.fraction < 0x1_0000_0000
    case Liveliness(c) => IsInt(c)
    case _ => true
  }

  // ---- writing ----

  function WriteInt(n: int, e: Endianness): (bs: seq<Octet>)
    requires IsInt(n)
    ensures |bs| == 4
  {
    Spell(Bitmap.Unsigned32(n), 4, e)
  }

  /** The value of a parameter; the domain id is written as a 32-bit number. */
  function WriteValue(p: Param, e: Endianness): seq<Octet>
    requires Fits(p)
  {
    match p
    case DomainId(n) => Spell(n, 4, e)
    case ProtocolVersion(v) => [v.major, v.minor] + [0, 0]
    case VendorId(v) => [v.first, v.second] + [0, 0]
    case InlineQos(expected) => [if expected then 1 else 0] + [0, 0, 0]
    case ParticipantGuid(g) => Spell(g, 16, BigEndian)
    case LocatorIn(_, l) => WriteInt(l.kind, e) + (Spell(l.port, 4, e) + l.address)
    case Endpoints(bits) => Spell(bits, 4, e)
    case Lease(d) => WriteInt(d.seconds, e) + Spell(d.fraction, 4, e)
    case Liveliness(c) => WriteInt(c, e)
  }

  function ValueLength(p: Param): nat {
    match p
    case ParticipantGuid(_) => 16
    case LocatorIn(_, _) => 24
    case Lease(_) => 8
    case _ => 4
  }

  function WriteParam(p: Param, e: Endianness): seq<Octet>
    requires Fits(p)
  {
    Spell(Pid(p), 2, e) + Spell(ValueLength(p), 2, e) + WriteValue(p, e)
  }

  ghost predicate AllFit(ps: seq<Param>) {
    forall i :: 0 <= i < |ps| ==> Fits(ps[i])
  }

  ghost function WriteParams(ps: seq<Param>, e: Endianness): seq<Octet>
    requires AllFit(ps)
  {
    if ps == [] then [] else WriteParam(ps[0], e) + WriteParams(ps[1..], e)
  }

  function Sentinel(e: Endianness): seq<Octet> {
    Spell(PID_SENTINEL, 2, e) + Spell(0, 2, e)
  }

  function LocatorParams(kind: ListKind, ls: seq<Locator>): seq<Param> {
    seq(|ls|, i requires 0 <= i < |ls| => LocatorIn(kind, ls[i]))
  }

  function Head(p: Participant): seq<Param> {
    [DomainId(p.domainId), ProtocolVersion(p.version), VendorId(p.vendor), InlineQos(p.expectsInlineQos), ParticipantGuid(p.guid)]
  }

  function Tail(p: Participant): seq<Param> {
    [Endpoints(p.endpoints), Lease(p.lease)] + if p.livelinessCount.Some? then [Liveliness(p.livelinessCount.value)] else []
  }

  /** What a participant sends, in order. */
  function Params(p: Participant): seq<Param> {
    Head(p)
    + (LocatorParams(MetatrafficUnicast, p.metatrafficUnicast)
    + (LocatorParams(MetatrafficMulticast, p.metatrafficMulticast)
    + (LocatorParams(DefaultUnicast, p.defaultUnicast)
    + (LocatorParams(DefaultMulticast, p.defaultMulticast) + Tail(p)))))
  }

  // ---- reading ----

  datatype Value = Got(param: Param, rest: seq<Octet>) | ValueError | ValuePanic

  function ReadLocator(kind: ListKind, bs: seq<Octet>, e: Endianness): Value {
    if |bs| < 24 then ValueError
    else
      var l := Locator(Signed(Octets.Value(bs[..4], e), 4), Octets.Value(bs[4..8], e), bs[8..24]);
      if LocatorOk(l) then Got(LocatorIn(kind, l), bs[24..]) else ValuePanic
  }

  /** Of a domain id's 4 octets only the first two count. */
  function ReadFour(pid: nat, bs: seq<Octet>, e: Endianness): Value {
    if |bs| < 4 then ValueError
    else if pid == PID_DOMAIN_ID then Got(DomainId(Octets.Value(bs[..2], e)), bs[4..])
    else if pid == PID_VERSION then Got(ProtocolVersion(Version(bs[0], bs[1])), bs[4..])
    else if pid == PID_VENDOR then Got(VendorId(Vendor(bs[0], bs[1])), bs[4..])
    else if pid == PID_INLINE_QOS then (if bs[0] > 1 then ValuePanic else Got(InlineQos(bs[0] == 1), bs[4..]))
    else if pid == PID_ENDPOINTS then Got(Endpoints(Truncated(Octets.Value(bs[..4], e))), bs[4..])
    else Got(Liveliness(Signed(Octets.Value(bs[..4], e), 4)), bs[4..])
  }

  predicate IsFour(pid: nat) {
    pid in {PID_DOMAIN_ID, PID_VERSION, PID_VENDOR, PID_INLINE_QOS, PID_ENDPOINTS, PID_LIVELINESS}
  }

  /** Each known parameter is read by its own size, not by the length it carries. */
  function ReadValue(pid: nat, bs: seq<Octet>, e: Endianness): (v: Value)
    ensures v.Got? ==> |v.rest| < |bs|
  {
    if IsFour(pid) then ReadFour(pid, bs, e)
    else if pid == PID_GUID then (if |bs| < 16 then ValueError else Got(ParticipantGuid(Octets.Value(bs[..16], BigEndian)), bs[16..]))
    else if pid == PID_LEASE then
      (if |bs| < 8 then ValueError
       else Got(Lease(Duration(Signed(Octets.Value(bs[..4], e), 4), Octets.Value(bs[4..8], e))), bs[8..]))
    else if pid == PID_METATRAFFIC_UNICAST then ReadLocator(MetatrafficUnicast, bs, e)
    else if pid == PID_METATRAFFIC_MULTICAST then ReadLocator(MetatrafficMulticast, bs, e)
    else if pid == PID_DEFAULT_UNICAST then ReadLocator(DefaultUnicast, bs, e)
    else ReadLocator(DefaultMulticast, bs, e)
  }

  predicate IsKnown(pid: nat) {
    IsFour(pid) || pid in {PID_GUID, PID_LEASE, PID_METATRAFFIC_UNICAST, PID_METATRAFFIC_MULTICAST,
                           PID_DEFAULT_UNICAST, PID_DEFAULT_MULTICAST}
  }

  function Absorb(b: Builtin, p: Param): Builtin {
    match p
    case DomainId(n) => b.(domainId := n)
    case ProtocolVersion(v) => b.(version := Some(v))
    case VendorId(v) => b.(vendor := Some(v))
    case InlineQos(expected) => b.(expectsInlineQos := Some(expected))
    case ParticipantGuid(g) => b.(guid := Some(g))
    case LocatorIn(kind, l) =>
      (match kind
       case MetatrafficUnicast => b.(metatrafficUnicast := b.metatrafficUnicast + [l])
       case MetatrafficMulticast => b.(metatrafficMulticast := b.metatrafficMulticast + [l])
       case DefaultUnicast => b.(defaultUnicast := b.defaultUnicast + [l])
       case DefaultMulticast => b.(defaultMulticast := b.defaultMulticast + [l]))
    case Endpoints(bits) => b.(endpoints := Some(bits))
    case Lease(d) => b.(lease := Some(d))
    case Liveliness(c) => b.(livelinessCount := Some(c))
  }

  datatype Outcome = Collected(data: Builtin) | ReadError | Panicked | NotModelled

  /** The parameter loop. Padding is two octets; an unknown parameter is skipped. */
  function Collect(bs: seq<Octet>, b: Builtin, e: Endianness): Outcome
    decreases |bs|
  {
    if |bs| < 2 then ReadError
    else
      var pid := Octets.Value(bs[..2], e);
      if pid == PID_PAD then Collect(bs[2..], b, e)
      else if |bs| < 4 then ReadError
      else
        var length, body := Octets.Value(bs[2..4], e), bs[4..];
        if pid == PID_SENTINEL then Collected(b)
        else if pid in FOREIGN then NotModelled
        else if !IsKnown(pid) then (if |body| < length then ReadError else Collect(body[length..], b, e))
        else
          match ReadValue(pid, body, e)
          case ValueError => ReadError
          case ValuePanic => Panicked
          case Got(p, rest) => Collect(rest, Absorb(b, p), e)
  }

  /** SDPBuiltinData::read_from */
  method ReadParticipant(buffer: seq<Octet>, e: Endianness) returns (r: Outcome)
    ensures r == Collect(buffer, NOTHING, e)
  {
    var bs, b := buffer, NOTHING;
    while true
      invariant Collect(bs, b, e) == Collect(buffer, NOTHING, e)
      decreases |bs|
    {
      if |bs| < 2 {
        return ReadError;
      }
      var pid := Octets.Value(bs[..2], e);
      if pid == PID_PAD {
        bs := bs[2..];
        continue;
      }
      if |bs| < 4 {
        return ReadError;
      }
      var length, body := Octets.Value(bs[2..4], e), bs[4..];
      if pid == PID_SENTINEL {
        return Collected(b);
      }
      if pid in FOREIGN {
        return NotModelled;
      }
      if !IsKnown(pid) {
        if |body| < length {
          return ReadError;
        }
        bs := body[length..];
        continue;
      }
      match ReadValue(pid, body, e) {
        case ValueError => return ReadError;
        case ValuePanic => return Panicked;
        case Got(p, rest) => bs, b := rest, Absorb(b, p);
      }
    }
  }

  // ---- one parameter there and back ----

  /** What comes back of a parameter; big-endian, the domain id's two octets of padding
      come first. */
  function Heard(p: Param, e: Endianness): Param {
    match p
    case DomainId(n) => DomainId(if e == LittleEndian then n else 0)
    case Endpoints(bits) => Endpoints(Truncated(bits))
    case _ => p
  }

  predicate Accepted(p: Param)
    requires Fits(p)
  {
    p.LocatorIn? ==> LocatorOk(p.locator)
  }

  lemma IntRoundTrip(n: int, e: Endianness)
    requires IsInt(n)
    ensures Signed(Octets.Value(WriteInt(n, e), e), 4) == n
  {
    Powers();
    SpellRoundTrip(Bitmap.Unsigned32(n), 4, e);
  }

  lemma DomainIdHalf(n: nat, e: Endianness)
    requires n < 0x1_0000
    ensures Octets.Value(Spell(n, 4, e)[..2], e) == if e == LittleEndian then n else 0
  {
    var little := Little(n, 4);
    assert Little(n, 2) == [n % 0x100] + Little(n / 0x100, 1);
    assert Little(n / 0x100, 1) == [n / 0x100] + Little(0, 0);
    assert little == [n % 0x100] + Little(n / 0x100, 3);
    assert Little(n / 0x100, 3) == [n / 0x100] + Little(0, 2);
    assert Little(0, 2) == [0] + Little(0, 1) && Little(0, 1) == [0] + Little(0, 0);
    if e == LittleEndian {
      assert little[..2] == Little(n, 2);
      Powers();
      SpellRoundTrip(n, 2, e);
    } else {
      assert little == [n % 0x100, n / 0x100, 0, 0];
      ReversedFour(n % 0x100, n / 0x100, 0, 0);
      assert Spell(n, 4, e)[..2] == [0, 0];
      ZeroHalf();
    }
  }

  lemma ReversedFour(a: Octet, b: Octet, c: Octet, d: Octet)
    ensures Reversed([a, b, c, d]) == [d, c, b, a]
  {
    assert [a, b, c, d][1..] == [b, c, d] && [b, c, d][1..] == [c, d] && [c, d][1..] == [d] && [d][1..] == [];
    assert Reversed([d]) == [d] && Reversed([c, d]) == [d, c] && Reversed([b, c, d]) == [d, c, b];
  }

  lemma ZeroHalf()
    ensures Octets.Value([0, 0], BigEndian) == 0
  {
    assert [0, 0][1..] == [0] && [0][1..] == [];
    assert Reversed([0]) == [0] && Reversed([0, 0]) == [0, 0];
    assert LittleValue([0]) == 0 && LittleValue([0, 0]) == 0;
  }

  lemma FourRoundTrip(p: Param, e: Endianness, tail: seq<Octet>)
    requires Fits(p) && IsFour(Pid(p))
    ensures |WriteValue(p, e)| == 4
    ensures ReadFour(Pid(p), WriteValue(p, e) + tail, e) == Got(Heard(p, e), tail)
  {
    Powers();
    var v := WriteValue(p, e);
    var bs := v + tail;
    assert bs[..4] == v && bs[4..] == tail && bs[..2] == v[..2];
    match p
    case DomainId(n) => DomainIdHalf(n, e);
    case Endpoints(bits) => SpellRoundTrip(bits, 4, e);
    case Liveliness(c) => IntRoundTrip(c, e);
    case ProtocolVersion(version) =>
    case VendorId(vendor) =>
    case InlineQos(expected) =>
  }

  lemma LocatorRoundTrip(kind: ListKind, l: Locator, e: Endianness, tail: seq<Octet>)
    requires LocatorFits(l)
    ensures |WriteValue(LocatorIn(kind, l), e)| == 24
    ensures ReadLocator(kind, WriteValue(LocatorIn(kind, l), e) + tail, e)
         == if LocatorOk(l) then Got(LocatorIn(kind, l), tail) else ValuePanic
  {
    Powers();
    IntRoundTrip(l.kind, e);
    SpellRoundTrip(l.port, 4, e);
    var bs := WriteInt(l.kind, e) + (Spell(l.port, 4, e) + l.address) + tail;
    assert bs[..4] == WriteInt(l.kind, e) && bs[4..8] == Spell(l.port, 4, e);
    assert bs[8..24] == l.address && bs[24..] == tail;
  }

  lemma GuidRoundTrip(g: Guid, tail: seq<Octet>)
    requires 0 <= g < GUID_LIMIT
    ensures var bs := Spell(g, 16, BigEndian) + tail;
      Octets.Value(bs[..16], BigEndian) == g && bs[16..] == tail
  {
    Powers();
    assert Power(9) == 0x100 * Power(8) && Power(10) == 0x100 * Power(9);
    assert Power(11) == 0x100 * Power(10) && Power(12) == 0x100 * Power(11);
    assert Power(13) == 0x100 * Power(12) && Power(14) == 0x100 * Power(13);
    assert Power(15) == 0x100 * Power(14) && Power(16) == 0x100 * Power(15);
    SpellRoundTrip(g, 16, BigEndian);
    var bs := Spell(g, 16, BigEndian) + tail;
    assert bs[..16] == Spell(g, 16, BigEndian);
  }

  lemma LeaseRoundTrip(d: Duration, e: Endianness, tail: seq<Octet>)
    requires Fits(Lease(d))
    ensures var bs := WriteValue(Lease(d), e) + tail;
      && Signed(Octets.Value(bs[..4], e), 4) == d.seconds && Octets.Value(bs[4..8], e) == d.fraction
      && bs[8..] == tail
  {
    Powers();
    IntRoundTrip(d.seconds, e);
    SpellRoundTrip(d.fraction, 4, e);
    var bs := WriteValue(Lease(d), e) + tail;
    assert bs[..4] == WriteInt(d.seconds, e) && bs[4..8] == Spell(d.fraction, 4, e);
  }

  lemma ValueRoundTrip(p: Param, e: Endianness, tail: seq<Octet>)
    requires Fits(p)
    ensures ReadValue(Pid(p), WriteValue(p, e) + tail, e) == if Accepted(p) then Got(Heard(p, e), tail) else ValuePanic
  {
    match p
    case ParticipantGuid(g) => GuidRoundTrip(g, tail);
    case Lease(d) => LeaseRoundTrip(d, e, tail);
    case LocatorIn(kind, l) => LocatorRoundTrip(kind, l, e, tail);
    case _ => FourRoundTrip(p, e, tail);
  }

  lemma HeaderSlices(pid: seq<Octet>, len: seq<Octet>, body: seq<Octet>, tail: seq<Octet>)
    requires |pid| == 2 && |len| == 2
    ensures var bs := pid + len + body + tail;
      |bs| >= 4 && bs[..2] == pid && bs[2..4] == len && bs[4..] == body + tail
  {
  }

  predicate OwnPid(pid: nat) {
    IsKnown(pid) && pid !in FOREIGN && pid != PID_PAD && pid != PID_SENTINEL
  }

  lemma PidIsKnown(p: Param)
    ensures OwnPid(Pid(p)) && Pid(p) < 0x1_0000
  {
  }

  lemma CollectKnown(bs: seq<Octet>, pid: nat, body: seq<Octet>, b: Builtin, e: Endianness)
    requires |bs| >= 4 && Octets.Value(bs[..2], e) == pid && bs[4..] == body && OwnPid(pid)
    ensures var v := ReadValue(pid, body, e);
      Collect(bs, b, e) == if v.Got? then Collect(v.rest, Absorb(b, v.param), e)
                           else if v.ValuePanic? then Panicked else ReadError
  {
  }

  lemma ParamRoundTrip(p: Param, b: Builtin, e: Endianness, tail: seq<Octet>)
    requires Fits(p)
    ensures Collect(WriteParam(p, e) + tail, b, e)
         == if Accepted(p) then Collect(tail, Absorb(b, Heard(p, e)), e) else Panicked
  {
    Powers();
    SpellRoundTrip(Pid(p), 2, e);
    HeaderSlices(Spell(Pid(p), 2, e), Spell(ValueLength(p), 2, e), WriteValue(p, e), tail);
    PidIsKnown(p);
    CollectKnown(WriteParam(p, e) + tail, Pid(p), WriteValue(p, e) + tail, b, e);
    ValueRoundTrip(p, e, tail);
  }

  // ---- the whole list ----

  function AbsorbAll(b: Builtin, ps: seq<Param>, e: Endianness): Builtin
    decreases |ps|
  {
    if ps == [] then b else AbsorbAll(Absorb(b, Heard(ps[0], e)), ps[1..], e)
  }

  lemma SentinelEnds(b: Builtin, e: Endianness)
    ensures Collect(Sentinel(e), b, e) == Collected(b)
  {
    Powers();
    SpellRoundTrip(PID_SENTINEL, 2, e);
    HeaderSlices(Spell(PID_SENTINEL, 2, e), Spell(0, 2, e), [], []);
    assert Sentinel(e) + [] + [] == Sentinel(e);
  }

  lemma {:induction false} ParamsRoundTrip(ps: seq<Param>, b: Builtin, e: Endianness)
    requires AllFit(ps)
    ensures Collect(WriteParams(ps, e) + Sentinel(e), b, e)
         == if AllFine(ps) then Collected(AbsorbAll(b, ps, e)) else Panicked
    decreases |ps|
  {
    if ps == [] {
      SentinelEnds(b, e);
      assert [] + Sentinel(e) == Sentinel(e);
    } else {
      var rest := WriteParams(ps[1..], e) + Sentinel(e);
      assert WriteParams(ps, e) + Sentinel(e) == WriteParam(ps[0], e) + rest;
      ParamRoundTrip(ps[0], b, e, rest);
      ParamsRoundTrip(ps[1..], Absorb(b, Heard(ps[0], e)), e);
      assert AllFine(ps) <==> Accepted(ps[0]) && AllFine(ps[1..]);
    }
  }

  function WithLocators(b: Builtin, kind: ListKind, ls: seq<Locator>): Builtin {
    match kind
    case MetatrafficUnicast => b.(metatrafficUnicast := b.metatrafficUnicast + ls)
    case MetatrafficMulticast => b.(metatrafficMulticast := b.metatrafficMulticast + ls)
    case DefaultUnicast => b.(defaultUnicast := b.defaultUnicast + ls)
    case DefaultMulticast => b.(defaultMulticast := b.defaultMulticast + ls)
  }

  lemma NoMoreLocators(b: Builtin, kind: ListKind)
    ensures WithLocators(b, kind, []) == b
  {
  }

  lemma OneMoreLocator(b: Builtin, kind: ListKind, l: Locator, ls: seq<Locator>)
    ensures WithLocators(Absorb(b, LocatorIn(kind, l)), kind, ls) == WithLocators(b, kind, [l] + ls)
  {
  }

  /** A locator list of any length arrives in order. */
  lemma {:induction false} LocatorsAbsorbed(b: Builtin, kind: ListKind, ls: seq<Locator>, rest: seq<Param>, e: Endianness)
    ensures AbsorbAll(b, LocatorParams(kind, ls) + rest, e) == AbsorbAll(WithLocators(b, kind, ls), rest, e)
    decreases |ls|
  {
    var ps := LocatorParams(kind, ls) + rest;
    if ls == [] {
      NoMoreLocators(b, kind);
      assert ps == rest;
    } else {
      assert ps[1..] == LocatorParams(kind, ls[1..]) + rest;
      LocatorsAbsorbed(Absorb(b, LocatorIn(kind, ls[0])), kind, ls[1..], rest, e);
      OneMoreLocator(b, kind, ls[0], ls[1..]);
      assert [ls[0]] + ls[1..] == ls;
    }
  }

  predicate ZeroPrefixed(l: Locator) {
    |l.address| == 16 && LocatorOk(l)
  }

  lemma FineConcat(a: seq<Param>, b: seq<Param>)
    ensures AllFine(a + b) <==> AllFine(a) && AllFine(b)
    ensures AllFit(a + b) <==> AllFit(a) && AllFit(b)
  {
    if AllFit(a + b) {
      assert forall i :: 0 <= i < |a| ==> a[i] == (a + b)[i];
      assert forall i :: 0 <= i < |b| ==> b[i] == (a + b)[|a| + i];
    }
    if AllFine(a + b) {
      assert forall i :: 0 <= i < |a| ==> a[i] == (a + b)[i];
      assert forall i :: 0 <= i < |b| ==> b[i] == (a + b)[|a| + i];
    }
  }

  ghost predicate AllFine(ps: seq<Param>) {
    forall i :: 0 <= i < |ps| ==> Fits(ps[i]) && Accepted(ps[i])
  }

  ghost predicate AllLocatorsFit(ls: seq<Locator>) {
    forall i :: 0 <= i < |ls| ==> LocatorFits(ls[i])
  }

  ghost predicate AllZeroPrefixed(ls: seq<Locator>) {
    forall i :: 0 <= i < |ls| ==> ZeroPrefixed(ls[i])
  }

  lemma FineLocators(kind: ListKind, ls: seq<Locator>)
    requires AllLocatorsFit(ls)
    ensures AllFit(LocatorParams(kind, ls))
    ensures AllFine(LocatorParams(kind, ls)) <==> AllZeroPrefixed(ls)
  {
    var ps := LocatorParams(kind, ls);
    forall i | 0 <= i < |ls|
      ensures Fits(ps[i]) && (Accepted(ps[i]) <==> ZeroPrefixed(ls[i]))
    {
      assert ps[i] == LocatorIn(kind, ls[i]);
    }
  }

  ghost predicate LocatorsFit(p: Participant) {
    && AllLocatorsFit(p.metatrafficUnicast) && AllLocatorsFit(p.metatrafficMulticast)
    && AllLocatorsFit(p.defaultUnicast) && AllLocatorsFit(p.defaultMulticast)
  }

  /** Each IPv4 locator has its twelve leading zeros. */
  ghost predicate LocatorsOk(p: Participant) {
    && AllZeroPrefixed(p.metatrafficUnicast) && AllZeroPrefixed(p.metatrafficMulticast)
    && AllZeroPrefixed(p.defaultUnicast) && AllZeroPrefixed(p.defaultMulticast)
  }

  ghost predicate ParticipantFits(p: Participant) {
    && p.domainId < 0x1_0000 && 0 <= p.guid < GUID_LIMIT && p.endpoints < ENDPOINT_LIMIT
    && Fits(Lease(p.lease)) && (p.livelinessCount.Some? ==> IsInt(p.livelinessCount.value))
    && LocatorsFit(p)
  }

  lemma FineSix(h: seq<Param>, a: seq<Param>, b: seq<Param>, c: seq<Param>, d: seq<Param>, t: seq<Param>)
    ensures var all := h + (a + (b + (c + (d + t))));
      && (AllFine(all) <==> AllFine(h) && AllFine(a) && AllFine(b) && AllFine(c) && AllFine(d) && AllFine(t))
      && (AllFit(all) <==> AllFit(h) && AllFit(a) && AllFit(b) && AllFit(c) && AllFit(d) && AllFit(t))
  {
    FineConcat(d, t);
    FineConcat(c, d + t);
    FineConcat(b, c + (d + t));
    FineConcat(a, b + (c + (d + t)));
    FineConcat(h, a + (b + (c + (d + t))));
  }

  lemma EndsFine(p: Participant)
    requires ParticipantFits(p)
    ensures AllFine(Head(p)) && AllFit(Head(p)) && AllFine(Tail(p)) && AllFit(Tail(p))
  {
  }

  lemma ParamsAre(p: Participant)
    requires ParticipantFits(p)
    ensures AllFit(Params(p)) && (AllFine(Params(p)) <==> LocatorsOk(p))
  {
    var a, b := LocatorParams(MetatrafficUnicast, p.metatrafficUnicast), LocatorParams(MetatrafficMulticast, p.metatrafficMulticast);
    var c, d := LocatorParams(DefaultUnicast, p.defaultUnicast), LocatorParams(DefaultMulticast, p.defaultMulticast);
    FineLocators(MetatrafficUnicast, p.metatrafficUnicast);
    FineLocators(MetatrafficMulticast, p.metatrafficMulticast);
    FineLocators(DefaultUnicast, p.defaultUnicast);
    FineLocators(DefaultMulticast, p.defaultMulticast);
    EndsFine(p);
    FineSix(Head(p), a, b, c, d, Tail(p));
  }

  /** The octets a participant sends. */
  ghost function Announcement(p: Participant, e: Endianness): seq<Octet>
    requires ParticipantFits(p)
  {
    ParamsAre(p);
    WriteParams(Params(p), e) + Sentinel(e)
  }

  lemma HeadAbsorbed(p: Participant, rest: seq<Param>, e: Endianness)
    ensures AbsorbAll(NOTHING, Head(p) + rest, e)
         == AbsorbAll(Builtin(if e == LittleEndian then p.domainId else 0, Some(p.version), Some(p.guid), Some(p.vendor),
                              Some(p.expectsInlineQos), None, [], [], [], [], None, None), rest, e)
  {
    var ps := Head(p) + rest;
    assert ps[1..][1..][1..][1..][1..] == rest;
    assert ps[1..][0] == ps[1] && ps[1..][1..][0] == ps[2] && ps[1..][1..][1..][0] == ps[3]
        && ps[1..][1..][1..][1..][0] == ps[4];
    var b1 := Absorb(NOTHING, Heard(ps[0], e));
    var b2 := Absorb(b1, ps[1]);
    var b3 := Absorb(b2, ps[2]);
    var b4 := Absorb(b3, ps[3]);
    assert AbsorbAll(b3, ps[1..][1..][1..], e) == AbsorbAll(b4, ps[1..][1..][1..][1..], e);
    assert AbsorbAll(b1, ps[1..], e) == AbsorbAll(b2, ps[1..][1..], e) == AbsorbAll(b3, ps[1..][1..][1..], e);
  }

  lemma TailAbsorbed(b: Builtin, p: Participant, e: Endianness)
    requires p.endpoints < ENDPOINT_LIMIT && b.livelinessCount == None
    ensures AbsorbAll(b, Tail(p), e)
         == b.(endpoints := Some(p.endpoints), lease := Some(p.lease), livelinessCount := p.livelinessCount)
  {
    var ps := Tail(p);
    var b1 := Absorb(b, Heard(ps[0], e));
    var b2 := Absorb(b1, ps[1]);
    assert ps[1..][0] == ps[1];
    assert AbsorbAll(b, ps, e) == AbsorbAll(b1, ps[1..], e) == AbsorbAll(b2, ps[1..][1..], e);
    if p.livelinessCount.Some? {
      var last := [Liveliness(p.livelinessCount.value)];
      assert ps[1..][1..] == last && last[1..] == [];
      assert AbsorbAll(b2, last, e) == AbsorbAll(Absorb(b2, last[0]), [], e);
    } else {
      assert ps[1..][1..] == [];
    }
  }

  ghost function Gathered(p: Participant, e: Endianness): Builtin {
    Builtin(if e == LittleEndian then p.domainId else 0, Some(p.version), Some(p.guid), Some(p.vendor),
            Some(p.expectsInlineQos), Some(p.endpoints),
            p.metatrafficUnicast, p.metatrafficMulticast, p.defaultUnicast, p.defaultMulticast,
            p.livelinessCount, Some(p.lease))
  }

  lemma AllAbsorbed(p: Participant, e: Endianness)
    requires p.endpoints < ENDPOINT_LIMIT
    ensures AbsorbAll(NOTHING, Params(p), e) == Gathered(p, e)
  {
    var b := LocatorParams(MetatrafficMulticast, p.metatrafficMulticast);
    var c, d := LocatorParams(DefaultUnicast, p.defaultUnicast), LocatorParams(DefaultMulticast, p.defaultMulticast);
    var rest := LocatorParams(MetatrafficUnicast, p.metatrafficUnicast) + (b + (c + (d + Tail(p))));
    HeadAbsorbed(p, rest, e);
    assert forall ls: seq<Locator> :: [] + ls == ls;
    var s0 := Builtin(if e == LittleEndian then p.domainId else 0, Some(p.version), Some(p.guid), Some(p.vendor),
                      Some(p.expectsInlineQos), None, [], [], [], [], None, None);
    LocatorsAbsorbed(s0, MetatrafficUnicast, p.metatrafficUnicast, b + (c + (d + Tail(p))), e);
    var s1 := s0.(metatrafficUnicast := p.metatrafficUnicast);
    LocatorsAbsorbed(s1, MetatrafficMulticast, p.metatrafficMulticast, c + (d + Tail(p)), e);
    var s2 := s1.(metatrafficMulticast := p.metatrafficMulticast);
    LocatorsAbsorbed(s2, DefaultUnicast, p.defaultUnicast, d + Tail(p), e);
    var s3 := s2.(defaultUnicast := p.defaultUnicast);
    LocatorsAbsorbed(s3, DefaultMulticast, p.defaultMulticast, Tail(p), e);
    TailAbsorbed(s3.(defaultMulticast := p.defaultMulticast), p, e);
  }

  /** Reading an announcement and rebuilding the participant gives the original back, all
      four locator lists in order, exactly when every IPv4 locator has its leading zeros
      and the octets are little-endian or the domain id is 0: big-endian, the domain id is
      written as four octets but read from the first two. */
  lemma ParticipantRoundTrip(p: Participant, e: Endianness)
    requires ParticipantFits(p)
    ensures var r := Collect(Announcement(p, e), NOTHING, e);
      && (r.Collected? <==> LocatorsOk(p)) && (!r.Collected? ==> r == Panicked)
      && (r.Collected? ==>
            Generated(r.data) == Some(p.(domainId := if e == LittleEndian then p.domainId else 0)))
      && ((r.Collected? && Generated(r.data) == Some(p)) <==> LocatorsOk(p) && (e == LittleEndian || p.domainId == 0))
  {
    ParamsAre(p);
    ParamsRoundTrip(Params(p), NOTHING, e);
    AllAbsorbed(p, e);
  }

  // ---- the writer, statement by statement ----

  lemma {:induction false} WriteParamsMore(ps: seq<Param>, p: Param, e: Endianness)
    requires AllFit(ps) && Fits(p) && AllFit(ps + [p])
    ensures WriteParams(ps + [p], e) == WriteParams(ps, e) + WriteParam(p, e)
    decreases |ps|
  {
    if ps == [] {
      assert ps + [p] == [p];
      OneParam(p, e);
    } else {
      hide WriteParam, Fits;
      var rest := ps[1..] + [p];
      assert (ps + [p])[0] == ps[0] && (ps + [p])[1..] == rest;
      WriteParamsMore(ps[1..], p, e);
      assert WriteParams(ps + [p], e) == WriteParam(ps[0], e) + WriteParams(rest, e);
      Octets.Regroup(WriteParam(ps[0], e), WriteParams(ps[1..], e), WriteParam(p, e));
    }
  }

  lemma OneParam(p: Param, e: Endianness)
    requires Fits(p)
    ensures WriteParams([p], e) == WriteParam(p, e)
  {
  }

  lemma NoLocatorParams(kind: ListKind, ls: seq<Locator>, sent: seq<Param>)
    ensures sent + LocatorParams(kind, ls[..0]) == sent
  {
  }

  lemma LocatorParamsMore(kind: ListKind, ls: seq<Locator>, i: nat, sent: seq<Param>)
    requires i < |ls|
    ensures sent + LocatorParams(kind, ls[..i + 1]) == sent + LocatorParams(kind, ls[..i]) + [LocatorIn(kind, ls[i])]
  {
  }

  class ListWriter {
    const e: Endianness
    var out: seq<Octet>
    ghost var sent: seq<Param>

    constructor (e: Endianness)
      ensures Valid() && this.e == e && sent == []
    {
      this.e, out, sent := e, [], [];
    }

    ghost predicate Valid()
      reads this
    {
      AllFit(sent) && out == WriteParams(sent, e)
    }

    method Put(p: Param)
      requires Valid() && Fits(p)
      modifies this
      ensures Valid() && sent == old(sent) + [p]
    {
      assert AllFit(sent + [p]);
      WriteParamsMore(sent, p, e);
      out := out + WriteParam(p, e);
      sent := sent + [p];
    }

    method PutLocators(kind: ListKind, ls: seq<Locator>)
      requires Valid() && AllLocatorsFit(ls)
      modifies this
      ensures Valid() && sent == old(sent) + LocatorParams(kind, ls)
    {
      hide Valid, WriteParams, LocatorParams;
      var i := 0;
      NoLocatorParams(kind, ls, sent);
      while i < |ls|
        invariant i <= |ls| && Valid() && sent == old(sent) + LocatorParams(kind, ls[..i])
      {
        LocatorParamsMore(kind, ls, i, old(sent));
        Put(LocatorIn(kind, ls[i]));
        i := i + 1;
      }
      assert ls[..i] == ls;
    }

    method PutHead(p: Participant)
      requires Valid() && sent == [] && ParticipantFits(p)
      modifies this
      ensures Valid() && sent == Head(p)
    {
      Put(DomainId(p.domainId));
      Put(ProtocolVersion(p.version));
      Put(VendorId(p.vendor));
      Put(InlineQos(p.expectsInlineQos));
      Put(ParticipantGuid(p.guid));
    }

    method PutTail(p: Participant)
      requires Valid() && ParticipantFits(p)
      modifies this
      ensures Valid() && sent == old(sent) + Tail(p)
    {
      Put(Endpoints(p.endpoints));
      Put(Lease(p.lease));
      if p.livelinessCount.Some? {
        Put(Liveliness(p.livelinessCount.value));
      }
    }

    /** SPDPdiscoveredParticipantData::write_to */
    method PutParticipant(p: Participant)
      requires Valid() && sent == [] && ParticipantFits(p)
      modifies this
      ensures out == Announcement(p, e)
    {
      PutHead(p);
      PutLocators(MetatrafficUnicast, p.metatrafficUnicast);
      PutLocators(MetatrafficMulticast, p.metatrafficMulticast);
      PutLocators(DefaultUnicast, p.defaultUnicast);
      PutLocators(DefaultMulticast, p.defaultMulticast);
      PutTail(p);
      Associate(Head(p), LocatorParams(MetatrafficUnicast, p.metatrafficUnicast),
                LocatorParams(MetatrafficMulticast, p.metatrafficMulticast),
                LocatorParams(DefaultUnicast, p.defaultUnicast), LocatorParams(DefaultMulticast, p.defaultMulticast), Tail(p));
      out := out + Sentinel(e);
    }
  }

  lemma Associate(h: seq<Param>, a: seq<Param>, b: seq<Param>, c: seq<Param>, d: seq<Param>, t: seq<Param>)
    ensures h + a + b + c + d + t == h + (a + (b + (c + (d + t))))
  {
  }
}
