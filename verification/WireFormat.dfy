/** Octet by octet, what goes over the wire beside the samples: GUIDs, sequence number sets,
    submessages and the parameters of an announcement; and what the parsers make of octets
    that nobody wrote. */
module WireFormats {
  import opened Types
  import opened Octets
  import opened CdrOctets
  import opened SequenceNumberSets
  import M = Messages
  import S = Spdp

  // ---- numbers of many octets ----

  /** `n` as `k` groups of four octets, the most significant first. */
  function Wide(n: nat, k: nat): (bs: seq<Octet>)
    ensures |bs| == 4 * k
  {
    if k == 0 then [] else Wide(n / 0x1_0000_0000, k - 1) + Four(n % 0x1_0000_0000, BigEndian)
  }

  lemma {:induction false} WideOctets(n: nat, k: nat)
    ensures Spell(n, 4 * k, BigEndian) == Wide(n, k)
  {
    hide Little, Reversed, Four;
    if k == 0 {
      NothingSpelled(n);
    } else {
      var low, high := n % 0x1_0000_0000, n / 0x1_0000_0000;
      WideOctets(high, k - 1);
      LittleGroup(n, 4 * (k - 1));
      NumberOctets(low, BigEndian);
      ReversedSplit(Little(low, 4), Little(high, 4 * (k - 1)));
    }
  }

  lemma LittleGroup(n: nat, size: nat)
    ensures Little(n, size + 4) == Little(n % 0x1_0000_0000, 4) + Little(n / 0x1_0000_0000, size)
  {
    hide Little;
    LittleHead(n, size);
    LittleHead(n % 0x1_0000_0000, 0);
    SameDigits(n);
    NothingSpelled(n % 0x1_0000_0000 / 0x1_0000_0000);
  }

  lemma NothingSpelled(n: nat)
    ensures Little(n, 0) == [] && Reversed(Little(n, 0)) == []
  {
  }

  /** Of the 16 octets of a GUID the first 12 are the participant's, the last 4 the entity's. */
  lemma GuidParts(g: Guid)
    requires 0 <= g < 0x1_0000_0000_0000_0000_0000_0000_0000_0000
    ensures var bs := Spell(g, 16, BigEndian);
      bs[..12] == Spell(PrefixOf(g), 12, BigEndian) && bs[12..] == Four(EntityOf(g), BigEndian)
  {
    WideOctets(g, 4);
    WideOctets(g / 0x1_0000_0000, 3);
    hide Spell, Four;
  }

  // ---- bitmaps ----

  /** Bit `k` of a word counts from the most significant one. */
  lemma {:induction false} BitsExactly(w: nat, n: nat, k: nat)
    requires k < n
    ensures Bits(w, n)[k] <==> w / Pow2(n - 1 - k) % 2 == 1
    decreases n
  {
    if k < n - 1 {
      BitsExactly(w / 2, n - 1, k);
      HalfAgain(w, Pow2(n - 2 - k));
    }
  }

  lemma HalfAgain(w: nat, p: nat)
    requires p > 0
    ensures w / 2 / p == w / (2 * p)
  {
    var q, r := w / (2 * p), w % (2 * p);
    assert w == 2 * (p * q) + r && 0 <= r < 2 * p;
    assert w / 2 == p * q + r / 2 && 0 <= r / 2 < p;
    Quotient(w / 2, p, q, r / 2);
  }

  lemma Multiples(p: int, d: int)
    requires p >= 0
    ensures d >= 1 ==> p * d >= p
    ensures d <= -1 ==> p * d <= -p
  {
    if d >= 1 {
      assert p * d == p + p * (d - 1);
    } else if d <= -1 {
      assert p * d == -p + p * (d + 1);
    }
  }

  lemma Quotient(n: nat, p: nat, q: nat, r: nat)
    requires p > 0 && n == p * q + r && r < p
    ensures n / p == q
  {
    var d := q - n / p;
    assert n == p * (n / p) + n % p;
    assert p * d == p * q - p * (n / p);
    Multiples(p, d);
  }

  lemma {:induction false} FromBitsMore(bs: seq<bool>, k: nat)
    requires k < |bs| && !bs[k]
    ensures FromBits(bs[k := true]) == FromBits(bs) + Pow2(|bs| - 1 - k)
    decreases |bs|
  {
    var m := |bs| - 1;
    if k < m {
      FromBitsMore(bs[..m], k);
      assert bs[k := true][..m] == bs[..m][k := true];
    } else {
      assert bs[k := true][..m] == bs[..m];
    }
  }

  lemma {:induction false} BitsBack(w: nat, n: nat)
    requires w < Pow2(n)
    ensures FromBits(Bits(w, n)) == w
  {
    if n > 0 {
      BitsBack(w / 2, n - 1);
      assert Bits(w, n)[..n - 1] == Bits(w / 2, n - 1);
    }
  }

  lemma Pow32()
    ensures Pow2(32) == 0x1_0000_0000 && Pow2(31) == 0x8000_0000
  {
    assert Pow2(4) == 16 && Pow2(8) == 256 && Pow2(12) == 4096 && Pow2(16) == 65536;
    assert Pow2(20) == 0x10_0000 && Pow2(24) == 0x100_0000 && Pow2(28) == 0x1000_0000 && Pow2(32) == 0x1_0000_0000;
  }

  /** Setting bit `k` of a word adds 2 to the power of 31 - k, and testing it looks there. */
  lemma WordExactly(w: nat, k: nat)
    requires w < 0x1_0000_0000 && k < 32
    ensures TestBit(w, k) <==> w / Pow2(31 - k) % 2 == 1
    ensures WithBit(w, k) == if TestBit(w, k) then w else w + Pow2(31 - k)
  {
    hide Bits, FromBits, Pow2;
    Pow32();
    BitsExactly(w, 32, k);
    BitsBack(w, 32);
    var bs := Bits(w, 32);
    if bs[k] {
      assert bs[k := true] == bs;
    } else {
      FromBitsMore(bs, k);
    }
  }

  /** A set says number `base + 32 * i + k` by bit `k` of word `i`. */
  lemma SaidExactly(s: NumberSet, i: nat, k: nat)
    requires WordsMatch(s) && i < |s.bitmap| && k < 32 && s.bitmap[i] < 0x1_0000_0000
    ensures s.base + 32 * i + k in Numbers(s) <==> 32 * i + k < s.numBits && s.bitmap[i] / Pow2(31 - k) % 2 == 1
  {
    NumbersFromAre(s, 0);
    WordExactly(s.bitmap[i], k);
    var p := 32 * i + k;
    assert p / 32 == i && p % 32 == k;
    assert s.base + p - s.base == p;
  }

  // ---- submessages ----

  /** A sequence number: its signed high half, then its low half. */
  function Long(n: int, e: Endianness): (bs: seq<Octet>)
    requires M.IsNumber(n)
    ensures |bs| == 8
  {
    Four(Complement(n / 0x1_0000_0000, 0x1_0000_0000), e) + Four(n % 0x1_0000_0000, e)
  }

  function SetOctets(s: NumberSet, e: Endianness): seq<Octet>
    requires Storable(s)
  {
    Long(s.base, e) + Four(s.numBits, e) + WordOctets(s.bitmap, e)
  }

  function WordOctets(words: seq<nat>, e: Endianness): (bs: seq<Octet>)
    requires forall i :: 0 <= i < |words| ==> words[i] < 0x1_0000_0000
    ensures |bs| == 4 * |words|
  {
    if words == [] then [] else Four(words[0], e) + WordOctets(words[1..], e)
  }

  lemma LongOctets(n: int, e: Endianness)
    requires M.IsNumber(n)
    ensures WriteNumber(n, e) == Long(n, e)
  {
    hide Spell, Four;
    NumberOctets(Unsigned32(n / WORD_LIMIT), e);
    NumberOctets(n % WORD_LIMIT, e);
  }

  lemma {:induction false} WordsOctets(words: seq<nat>, e: Endianness)
    requires forall i :: 0 <= i < |words| ==> words[i] < 0x1_0000_0000
    ensures WriteWords(words, e) == WordOctets(words, e)
    decreases |words|
  {
    hide Spell, Four;
    if words != [] {
      NumberOctets(words[0], e);
      WordsOctets(words[1..], e);
    }
  }

  lemma SetsOctets(s: NumberSet, e: Endianness)
    requires Storable(s)
    ensures WriteSet(s, e) == SetOctets(s, e)
  {
    hide Spell, Four, WriteNumber, Long;
    LongOctets(s.base, e);
    NumberOctets(s.numBits, e);
    WordsOctets(s.bitmap, e);
  }

  /** Identifier, flags and the length of what follows, then the fields; two entity ids are
      plain octets, the reader's first. */
  function Framed(id: Octet, flags: Octet, fields: seq<Octet>): seq<Octet>
    requires |fields| < 0x1_0000
  {
    [id, flags] + Two(|fields|, LittleEndian) + fields
  }

  function Ids(readerId: EntityId, writerId: EntityId): (bs: seq<Octet>)
    requires M.IsId(readerId) && M.IsId(writerId)
    ensures |bs| == 8
  {
    Four(readerId, BigEndian) + Four(writerId, BigEndian)
  }

  function Count(count: int, e: Endianness): (bs: seq<Octet>)
    requires M.IsCount(count)
    ensures |bs| == 4
  {
    Four(Complement(count, 0x1_0000_0000), e)
  }

  /** The fields of each submessage. */
  function FieldOctets(b: M.Body, e: Endianness): seq<Octet>
    requires M.Fits(b)
  {
    match b
    case InfoTs(ts) => Four(ts.value.seconds, e) + Four(ts.value.fraction, e)
    case InfoDst(prefix) => Wide(prefix, 3)
    case AckNack(r, w, s, c) => Ids(r, w) + SetOctets(s, e) + Count(c, e)
    case Heartbeat(r, w, first, last, c) => Ids(r, w) + Long(first, e) + Long(last, e) + Count(c, e)
    case Gap(r, w, start, s) => Ids(r, w) + Long(start, e) + SetOctets(s, e)
    case Data(r, w, n, p, qos) =>
      [0, 0] + Two(16, e) + Ids(r, w) + Long(n, e)
        + (if qos.Some? then QosOctets(qos.value, e) else []) + (if p.Some? then p.value else [])
  }

  /** Parameters, each with the length of its padded value, up to the sentinel. */
  function QosOctets(ps: seq<M.Parameter>, e: Endianness): seq<Octet>
    requires M.AllAreParameters(ps)
  {
    if ps == [] then Four(1, e)
    else
      var value := ps[0].value + if |ps[0].value| % 4 == 0 then [] else if |ps[0].value| % 4 == 3 then [0] else
                                 if |ps[0].value| % 4 == 2 then [0, 0] else [0, 0, 0];
      Two(ps[0].pid, e) + Two(|value|, e) + value + QosOctets(ps[1..], e)
  }

  lemma IdsOctets(r: EntityId, w: EntityId)
    requires M.IsId(r) && M.IsId(w)
    ensures M.WriteId(r) + M.WriteId(w) == Ids(r, w)
  {
    hide Spell, Four;
    NumberOctets(r, BigEndian);
    NumberOctets(w, BigEndian);
  }

  lemma CountOctets(count: int, e: Endianness)
    requires M.IsCount(count)
    ensures M.WriteCount(count, e) == Count(count, e)
  {
    hide Spell, Four;
    NumberOctets(Unsigned32(count), e);
  }

  lemma {:induction false} QosWritten(ps: seq<M.Parameter>, e: Endianness)
    requires M.AllAreParameters(ps)
    ensures M.WriteParameters(ps, e) == QosOctets(ps, e)
    decreases |ps|
  {
    hide Spell, Four, Two;
    if ps == [] {
      NumberOctets(1, e);
    } else {
      assert M.IsParameter(ps[0]);
      var length := |ps[0].value|;
      var pad := M.PadLength(length);
      NumberOctets(ps[0].pid, e);
      NumberOctets(length + pad, e);
      QosWritten(ps[1..], e);
      assert M.Zeros(0) == [] && M.Zeros(1) == [0] && M.Zeros(2) == [0, 0] && M.Zeros(3) == [0, 0, 0];
    }
  }

  lemma BodyOctets(b: M.Body, e: Endianness)
    requires M.Fits(b)
    ensures M.WriteBody(b, e) == FieldOctets(b, e)
  {
    hide Spell, Four, Two, M.WriteId, M.WriteCount, WriteSet, SetOctets, WriteNumber, Long, M.WriteParameters, QosOctets, Count, Wide;
    match b
    case InfoTs(ts) =>
      NumberOctets(ts.value.seconds, e);
      NumberOctets(ts.value.fraction, e);
    case InfoDst(prefix) => WideOctets(prefix, 3);
    case AckNack(r, w, s, c) =>
      IdsOctets(r, w);
      SetsOctets(s, e);
      CountOctets(c, e);
    case Heartbeat(r, w, first, last, c) =>
      IdsOctets(r, w);
      LongOctets(first, e);
      LongOctets(last, e);
      CountOctets(c, e);
    case Gap(r, w, start, s) =>
      IdsOctets(r, w);
      LongOctets(start, e);
      SetsOctets(s, e);
    case Data(r, w, n, p, qos) => DataOctets(b, e);
  }

  lemma DataOctets(b: M.Body, e: Endianness)
    requires M.Fits(b) && b.Data?
    ensures M.WriteBody(b, e) == FieldOctets(b, e)
  {
    hide Spell, Four, Two, M.WriteId, WriteNumber, Long, M.WriteParameters, QosOctets;
    NumberOctets(0, e);
    NumberOctets(16, e);
    assert Two(0, e) == [0, 0] by {
      NothingInTwo(e);
    }
    IdsOctets(b.readerId, b.writerId);
    LongOctets(b.writerSn, e);
    if b.inlineQos.Some? {
      QosWritten(b.inlineQos.value, e);
    }
  }

  lemma NothingInTwo(e: Endianness)
    ensures Two(0, e) == [0, 0]
  {
  }

  /** What the builder's submessages look like on the wire: their identifiers, and a length
      that is that of the fields. */
  lemma SubmessageOctets(m: M.Submessage)
    requires M.Built(m)
    ensures |FieldOctets(m.body, LittleEndian)| < 0x1_0000 && 0 <= m.flags < 0x100
    ensures M.WriteSub(m) == Framed(
      match m.body
      case AckNack(_, _, _, _) => 0x06
      case Heartbeat(_, _, _, _, _) => 0x07
      case Gap(_, _, _, _) => 0x08
      case InfoTs(_) => 0x09
      case InfoDst(_) => 0x0E
      case Data(_, _, _, _, _) => 0x15,
      m.flags, FieldOctets(m.body, LittleEndian))
  {
    BodyOctets(m.body, LittleEndian);
    M.LengthIsHonest(m.body, LittleEndian);
    NumberOctets(m.len, LittleEndian);
    hide Spell, Two, FieldOctets, M.WriteBody;
  }

  /** "RTPS", version 2.3, no vendor, the participant's prefix. */
  lemma HeaderOctets(prefix: GuidPrefix)
    requires 0 <= prefix < M.PREFIX_LIMIT
    ensures M.WriteHeader(prefix) == [0x52, 0x54, 0x50, 0x53, 2, 3, 0, 0] + Wide(prefix, 3)
  {
    WideOctets(prefix, 3);
    hide Spell, Wide;
  }

  // ---- what the parser makes of octets ----

  lemma TwoRead(n: nat, e: Endianness)
    requires n < 0x1_0000
    ensures Octets.Value(Two(n, e), e) == n
  {
    NumberOctets(n, e);
    Powers();
    SpellRoundTrip(n, 2, e);
    hide Spell, Octets.Value;
  }

  lemma FrameSlices(id: Octet, flags: Octet, len: seq<Octet>, rest: seq<Octet>)
    requires |len| == 2
    ensures var bs := [id, flags] + len + rest;
      bs[0] == id && bs[1] == flags && bs[2..4] == len && bs[4..] == rest
  {
  }

  lemma FrameRead(id: Octet, flags: Octet, n: nat, rest: seq<Octet>)
    requires n < 0x1_0000
    ensures var bs := [id, flags] + Two(n, LittleEndian) + rest;
      |bs| >= 4 && bs[0] == id && bs[1] == flags && Octets.Value(bs[2..4], LittleEndian) == n && bs[4..] == rest
  {
    TwoRead(n, LittleEndian);
    FrameSlices(id, flags, Two(n, LittleEndian), rest);
    hide Two, Octets.Value;
  }

  lemma BodyTaken(bs: seq<Octet>, x: seq<Octet>, rest: seq<Octet>)
    requires |bs| >= 4 && bs[4..] == x + rest
    ensures bs[4..4 + |x|] == x && bs[4 + |x|..] == rest && |bs| == 4 + |x| + |rest|
  {
    assert bs[4..4 + |x|] == bs[4..][..|x|];
    assert bs[4 + |x|..] == bs[4..][|x|..];
  }

  /** Fewer than four octets are a panic, and so is a length past the end. */
  lemma CutShort(bs: seq<Octet>, id: Octet, flags: Octet, n: nat, rest: seq<Octet>, done: seq<M.Submessage>)
    requires 0 < |bs| < 4 && |rest| < n < 0x1_0000
    ensures M.ParseFrom(bs, done) == M.Panicked
    ensures M.ParseFrom([id, flags] + Two(n, LittleEndian) + rest, done) == M.Panicked
  {
    FrameRead(id, flags, n, rest);
    hide Two, Octets.Value, M.ReadKind;
  }

  /** The kinds the parser tells apart, whether this model reads them or not. */
  predicate HasKind(id: Octet) {
    id == 0x06 || id == 0x07 || id == 0x08 || id == 0x09 || id == 0x0C || id == 0x0D || id == 0x0E || id == 0x0F
    || id == 0x12 || id == 0x13 || id == 0x15 || id == 0x16
  }

  lemma KindsExactly(id: Octet)
    ensures M.Skipped(id) <==> !HasKind(id)
  {
  }

  /** A submessage of no known kind is skipped by its length; without a length it takes all
      that is left, unless it is padding. */
  lemma UnknownSkipped(id: Octet, flags: Octet, x: seq<Octet>, rest: seq<Octet>, done: seq<M.Submessage>)
    requires !HasKind(id) && 0 < |x| < 0x1_0000
    ensures M.ParseFrom([id, flags] + Two(|x|, LittleEndian) + (x + rest), done) == M.ParseFrom(rest, done)
    ensures M.ParseFrom([id, flags] + Two(0, LittleEndian) + rest, done)
         == if id == 0x01 then M.ParseFrom(rest, done) else M.Parsed(done)
  {
    KindsExactly(id);
    FrameRead(id, flags, |x|, x + rest);
    BodyTaken([id, flags] + Two(|x|, LittleEndian) + (x + rest), x, rest);
    FrameRead(id, flags, 0, rest);
    var bs := [id, flags] + Two(0, LittleEndian) + rest;
    BodyTaken(bs, rest, []) by {
      assert rest + [] == rest;
    }
    BodyTaken(bs, [], rest) by {
      assert [] + rest == rest;
    }
    hide Two, Octets.Value, M.ReadKind, M.Skipped;
  }

  /** The flag of a submessage says in which byte order its fields are; without a length it
      takes all that is left. */
  lemma HeartbeatParsed(b: M.Body, flags: Octet, rest: seq<Octet>, done: seq<M.Submessage>)
    requires b.Heartbeat? && M.Fits(b)
    ensures var e := if flags % 2 == 1 then LittleEndian else BigEndian;
      var fields := FieldOctets(b, e);
      && M.ParseFrom([7, flags] + Two(28, LittleEndian) + (fields + rest), done)
           == M.ParseFrom(rest, done + [M.Submessage(7, flags, 28, b)])
      && M.ParseFrom([7, flags] + Two(0, LittleEndian) + fields, done)
           == M.Parsed(done + [M.Submessage(7, flags, 0, b)])
  {
    hide Two, Octets.Value, M.ReadKind, FieldOctets, M.WriteBody, M.Skipped, M.ReadHeartbeat;
    var e := if flags % 2 == 1 then LittleEndian else BigEndian;
    var fields := FieldOctets(b, e);
    BodyOctets(b, e);
    M.LengthIsHonest(b, e);
    M.HeartbeatRoundTrip(b, e);
    KindsExactly(7);
    HeartbeatRead(fields, flags, b);
    FrameRead(7, flags, 28, fields + rest);
    BodyTaken([7, flags] + Two(28, LittleEndian) + (fields + rest), fields, rest);
    FrameRead(7, flags, 0, fields);
    BodyTaken([7, flags] + Two(0, LittleEndian) + fields, fields, []) by {
      assert fields + [] == fields;
    }
  }

  lemma HeartbeatRead(fields: seq<Octet>, flags: Octet, b: M.Body)
    requires M.ReadHeartbeat(fields, if flags % 2 == 1 then LittleEndian else BigEndian) == M.BodyRead(b)
    ensures M.ReadKind(7, flags, fields) == M.BodyRead(b)
  {
    hide M.ReadHeartbeat;
  }

  /** An invalid timestamp has no fields; INFO_TS is not one that takes all that is left. */
  lemma InvalidTimestamp(rest: seq<Octet>, done: seq<M.Submessage>)
    ensures M.ParseFrom([9, 3] + Two(0, LittleEndian) + rest, done)
         == M.ParseFrom(rest, done + [M.Submessage(9, 3, 0, M.InfoTs(None))])
  {
    KindsExactly(9);
    FrameRead(9, 3, 0, rest);
    var bs := [9, 3] + Two(0, LittleEndian) + rest;
    BodyTaken(bs, [], rest) by {
      assert [] + rest == rest;
    }
    assert M.ReadKind(9, 3, []) == M.BodyRead(M.InfoTs(None)) by {
      assert M.Flagged(3, M.INVALIDATE_FLAG);
    }
    hide Two, Octets.Value, M.ReadKind, M.Skipped;
  }

  lemma DataSliced(x: seq<Octet>, q: seq<Octet>, r: EntityId, w: EntityId, n: int, gap: seq<Octet>, p: seq<Octet>, e: Endianness)
    requires |x| == 2 && |q| == 2 && M.IsId(r) && M.IsId(w) && M.IsNumber(n)
    ensures var bs := x + q + (Ids(r, w) + (Long(n, e) + (gap + p)));
      && |bs| == 20 + |gap| + |p| && bs[2..4] == q && M.ReadId(bs[4..8]) == r && M.ReadId(bs[8..12]) == w
      && ReadNumber(bs[12..20], e) == n && bs[20 + |gap|..] == p
  {
    hide M.ReadId, M.WriteId, ReadNumber, WriteNumber, Long, Ids;
    IdsOctets(r, w);
    LongOctets(n, e);
    NumberRoundTrip(n, e);
    M.IdRoundTrip(r);
    M.IdRoundTrip(w);
    M.DataSlices(x, q, M.WriteId(r), M.WriteId(w), WriteNumber(n, e), gap + p);
    var bs := x + q + (M.WriteId(r) + M.WriteId(w) + (WriteNumber(n, e) + (gap + p)));
    assert bs[20 + |gap|..] == bs[20..][|gap|..] == p;
  }

  /** DATA without inline QoS: fewer than 20 octets are an error, an offset below 16 is a
      panic, and one above passes over what lies between; a payload, announced by the data or
      the key flag, is a panic below four octets and an error at four. */
  lemma DataRules(x: seq<Octet>, short: seq<Octet>, k: nat, r: EntityId, w: EntityId, n: int, gap: seq<Octet>, p: seq<Octet>, flags: Octet)
    requires |x| == 2 && |short| < 20 && k < 16 && |gap| < 0xFFF0 && M.IsId(r) && M.IsId(w) && M.IsNumber(n)
    requires flags / 2 % 2 == 0
    ensures var e := if flags % 2 == 1 then LittleEndian else BigEndian;
      && M.ReadData(short, flags) == M.BodyError
      && M.ReadData(x + Two(k, e) + (Ids(r, w) + (Long(n, e) + (gap + p))), flags) == M.BodyPanic
      && M.ReadData(x + Two(16 + |gap|, e) + (Ids(r, w) + (Long(n, e) + (gap + p))), flags) ==
           if flags / 4 % 2 == 0 && flags / 8 % 2 == 0 then M.BodyRead(M.Data(r, w, n, None, None))
           else if |p| < 4 then M.BodyPanic
           else if |p| == 4 then M.BodyError
           else M.BodyRead(M.Data(r, w, n, Some(p), None))
  {
    hide Two, Octets.Value, M.ReadId, ReadNumber, Ids, Long, M.ReadParameters;
    var e := if flags % 2 == 1 then LittleEndian else BigEndian;
    TwoRead(k, e);
    TwoRead(16 + |gap|, e);
    DataSliced(x, Two(k, e), r, w, n, gap, p, e);
    DataSliced(x, Two(16 + |gap|, e), r, w, n, gap, p, e);
  }

  // ---- announcements ----

  function ParamOctets(p: S.Param, e: Endianness): seq<Octet>
    requires S.Fits(p)
  {
    match p
    case Lease(d) => Two(0x02, e) + Two(8, e) + (Four(Complement(d.seconds, 0x1_0000_0000), e) + Four(d.fraction, e))
    case DomainId(n) => Two(0x0F, e) + Two(4, e) + Four(n, e)
    case ProtocolVersion(v) => Two(0x15, e) + Two(4, e) + [v.major, v.minor, 0, 0]
    case VendorId(v) => Two(0x16, e) + Two(4, e) + [v.first, v.second, 0, 0]
    case LocatorIn(kind, l) =>
      Two(match kind
          case DefaultUnicast => 0x31
          case MetatrafficUnicast => 0x32
          case MetatrafficMulticast => 0x33
          case DefaultMulticast => 0x48, e)
        + Two(24, e) + (Four(Complement(l.kind, 0x1_0000_0000), e) + (Four(l.port, e) + l.address))
    case Liveliness(c) => Two(0x34, e) + Two(4, e) + Four(Complement(c, 0x1_0000_0000), e)
    case InlineQos(expected) => Two(0x43, e) + Two(4, e) + [if expected then 1 else 0, 0, 0, 0]
    case ParticipantGuid(g) => Two(0x50, e) + Two(16, e) + Wide(g, 4)
    case Endpoints(bits) => Two(0x58, e) + Two(4, e) + Four(bits, e)
  }

  lemma IntOctets(n: int, e: Endianness)
    requires S.IsInt(n)
    ensures S.WriteInt(n, e) == Four(Complement(n, 0x1_0000_0000), e)
  {
    hide Spell, Four;
    NumberOctets(Unsigned32(n), e);
  }

  lemma ValueOctets(p: S.Param, e: Endianness)
    requires S.Fits(p)
    ensures ParamOctets(p, e) == Two(S.Pid(p), e) + Two(S.ValueLength(p), e) + S.WriteValue(p, e)
  {
    hide Spell, Four, Two, S.WriteInt, Wide;
    match p
    case DomainId(n) => NumberOctets(n, e);
    case ParticipantGuid(g) => WideOctets(g, 4);
    case LocatorIn(_, l) =>
      IntOctets(l.kind, e);
      NumberOctets(l.port, e);
    case Endpoints(bits) => NumberOctets(bits, e);
    case Lease(d) =>
      IntOctets(d.seconds, e);
      NumberOctets(d.fraction, e);
    case Liveliness(c) => IntOctets(c, e);
    case _ =>
  }

  /** Every parameter of an announcement: its identifier, its length, its value. */
  lemma AnnouncedOctets(p: S.Param, e: Endianness)
    requires S.Fits(p)
    ensures S.WriteParam(p, e) == ParamOctets(p, e)
    ensures S.Sentinel(e) == Two(1, e) + Two(0, e)
  {
    hide Spell, Four, Two, S.WriteValue, ParamOctets, S.Pid, S.ValueLength;
    SmallNumbers(p);
    ValueOctets(p, e);
    NumberOctets(S.Pid(p), e);
    NumberOctets(S.ValueLength(p), e);
    NumberOctets(1, e);
    NumberOctets(0, e);
  }

  lemma SmallNumbers(p: S.Param)
    ensures S.Pid(p) < 0x1_0000 && S.ValueLength(p) < 0x1_0000
  {
  }

  lemma ParamRead(pid: nat, length: nat, rest: seq<Octet>, e: Endianness)
    requires pid < 0x1_0000 && length < 0x1_0000
    ensures var bs := Two(pid, e) + Two(length, e) + rest;
      && |bs| == 4 + |rest| && Octets.Value(bs[..2], e) == pid && Octets.Value(bs[2..4], e) == length
      && bs[2..] == Two(length, e) + rest && bs[4..] == rest
  {
    hide Two, Octets.Value;
    TwoRead(pid, e);
    TwoRead(length, e);
    var bs := Two(pid, e) + Two(length, e) + rest;
    assert bs[..2] == Two(pid, e) && bs[2..4] == Two(length, e);
  }

  /** Padding is two octets; a parameter nobody knows is passed over by its length; the list
      ends with the sentinel, whatever follows, and without one it is an error. */
  lemma CollectRules(pid: nat, x: seq<Octet>, rest: seq<Octet>, b: S.Builtin, e: Endianness)
    requires pid < 0x1_0000 && |x| < 0x1_0000 && pid != 0 && pid != 1 && pid !in S.FOREIGN && !S.IsKnown(pid)
    ensures S.Collect([], b, e) == S.ReadError
    ensures S.Collect(Two(1, e) + Two(0, e) + rest, b, e) == S.Collected(b)
    ensures S.Collect(Two(0, e) + rest, b, e) == S.Collect(rest, b, e)
    ensures S.Collect(Two(pid, e) + Two(|x|, e) + (x + rest), b, e) == S.Collect(rest, b, e)
  {
    ParamRead(1, 0, rest, e);
    ParamRead(pid, |x|, x + rest, e);
    assert (x + rest)[|x|..] == rest;
    TwoRead(0, e);
    assert (Two(0, e) + rest)[..2] == Two(0, e) && (Two(0, e) + rest)[2..] == rest;
    hide Two, Octets.Value, S.ReadValue;
  }

  /** A participant need only say four things; the rest is taken to be: domain 0, no inline
      QoS, no locators, a lease of 100 seconds. */
  lemma LeastAnnouncement(v: S.Version, x: S.Vendor, g: Guid, bits: nat, e: Endianness)
    requires 0 <= g < S.GUID_LIMIT && bits < 0x1_0000_0000
    ensures var bs := ParamOctets(S.ProtocolVersion(v), e) + (ParamOctets(S.VendorId(x), e)
        + (ParamOctets(S.ParticipantGuid(g), e) + (ParamOctets(S.Endpoints(bits), e) + (Two(1, e) + Two(0, e)))));
      var r := S.Collect(bs, S.NOTHING, e);
      && r.Collected?
      && S.Generated(r.data)
           == Some(S.Participant(0, v, g, x, false, bits % 0x4000_0000, [], [], [], [], None, S.Duration(100, 0)))
  {
    hide ParamOctets, Two, S.WriteParam, S.Collect, S.Sentinel;
    var p1, p2, p3, p4 := S.ProtocolVersion(v), S.VendorId(x), S.ParticipantGuid(g), S.Endpoints(bits);
    AnnouncedOctets(p1, e);
    AnnouncedOctets(p2, e);
    AnnouncedOctets(p3, e);
    AnnouncedOctets(p4, e);
    var end := S.Sentinel(e);
    S.SentinelEnds(S.NOTHING.(version := Some(v), vendor := Some(x), guid := Some(g), endpoints := Some(bits % 0x4000_0000)), e);
    S.ParamRoundTrip(p4, S.NOTHING.(version := Some(v), vendor := Some(x), guid := Some(g)), e, end);
    S.ParamRoundTrip(p3, S.NOTHING.(version := Some(v), vendor := Some(x)), e, S.WriteParam(p4, e) + end);
    S.ParamRoundTrip(p2, S.NOTHING.(version := Some(v)), e, S.WriteParam(p3, e) + (S.WriteParam(p4, e) + end));
    S.ParamRoundTrip(p1, S.NOTHING, e, S.WriteParam(p2, e) + (S.WriteParam(p3, e) + (S.WriteParam(p4, e) + end)));
  }
}
