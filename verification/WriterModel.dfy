/** What the handlers of a reliable, user-defined RTPS StatefulWriter do, written as
    functions on values (src/rtps/writer.rs, src/structure/proxy.rs:32-88,
    src/rtps/cache.rs:452-517, src/dds/datawriter.rs:116-166).

    The application's DataWriter runs on another thread and shares the HistoryCache
    through a lock. `script` holds the writes that thread gets in before each of the
    lock acquisitions a handler is about to make; `Yield` is one such acquisition. */
module WriterModel {
  import opened Types
  import opened Ascending
  import opened ReaderProxies

  datatype Config = Config(
    durability: Durability,
    history: History,
    pushMode: bool,
    maxSamples: int,
    nackDelayZero: bool)

  datatype AckNackState = Waiting | Repairing | MustRepair

  /** The submessages a writer sends. A GAP always covers the one number `start`. */
  datatype Msg =
    | Data(n: int, payload: Payload)
    | Gap(start: int)
    | Heartbeat(first: int, last: int, liveliness: bool)

  /** One reader a submessage is meant for, with the locators it listens on. */
  datatype Target = Target(guid: Guid, locators: seq<Locator>)

  /** One submessage and the readers it is for: what min_message_cover is given. */
  datatype Send = Send(msg: Msg, to: seq<Target>)

  datatype Proxy = Proxy(locators: Locators, durability: Durability, state: CacheState)

  /** The HistoryCache of one writer, shared with the application thread. */
  datatype Cache = Cache(
    changes: map<int, Payload>,      // keyed by sequence number
    unprocessed: set<int>,           // numbers not yet handed to the proxies
    last: int,                       // DataWriter.last_change_sequence_number
    written: seq<Payload>)           // history variable: all that was ever written

  datatype Writer = Writer(
    cfg: Config,
    hc: Cache,
    processed: int,                  // history variable: newest number handed to the proxies
    proxies: map<Guid, Proxy>,
    anState: AckNackState,
    out: seq<Send>,                  // what the running handler has sent so far
    panicked: bool,                  // an unreachable!() was reached
    script: seq<seq<Payload>>)

  function Initial(cfg: Config): Writer {
    Writer(cfg, Cache(map[], {}, 0, []), 0, map[], Waiting, [], false, [])
  }

  // ---- the application thread ----

  /** add_change blocks a reliable writer when the cache would fill up. */
  predicate Full(c: Cache, maxSamples: int) {
    LimitReached(|c.changes|, maxSamples)
  }

  /** DataWriter::write; a blocked write is retried, so it changes nothing yet. */
  function Write(c: Cache, maxSamples: int, p: Payload): Cache {
    if Full(c, maxSamples) then c
    else
      var n := c.last + 1;
      Cache(c.changes[n := p], c.unprocessed + {n}, n, c.written + [p])
  }

  function WriteAll(c: Cache, maxSamples: int, ps: seq<Payload>): Cache
    decreases |ps|
  {
    if ps == [] then c else WriteAll(Write(c, maxSamples, ps[0]), maxSamples, ps[1..])
  }

  function Yield(w: Writer): Writer {
    if w.script == [] then w
    else w.(hc := WriteAll(w.hc, w.cfg.maxSamples, w.script[0]), script := w.script[1..])
  }

  // ---- queries ----

  ghost predicate AckedByAll(w: Writer, n: int) {
    forall g :: g in w.proxies ==> IsAcked(w.proxies[g].state, n)
  }

  ghost predicate AllAcked(w: Writer) {
    forall n :: n in w.hc.changes ==> AckedByAll(w, n)
  }

  /** Cached numbers the proxies already know about. */
  function Settled(w: Writer): set<int> {
    w.hc.changes.Keys - w.hc.unprocessed
  }

  ghost function MinSettled(w: Writer): int {
    if Settled(w) == {} then 0 else Min(Settled(w))
  }

  ghost function MaxSettled(w: Writer): int {
    if Settled(w) == {} then 0 else Max(Settled(w))
  }

  // ---- forgetting acknowledged changes ----

  /** HistoryCache::remove_change leaves an unprocessed change alone. */
  function RemoveChange(c: Cache, n: int): Cache {
    if n in c.unprocessed then c else c.(changes := c.changes - {n})
  }

  /** The proxies drop their entry whether or not the cache let the change go. */
  function RemoveOne(w: Writer, n: int): Writer {
    w.(hc := RemoveChange(w.hc, n),
       proxies := map g | g in w.proxies :: w.proxies[g].(state := w.proxies[g].state - {n}))
  }

  function RemoveEach(w: Writer, nums: seq<int>): Writer
    decreases |nums|
  {
    if nums == [] then w else RemoveEach(RemoveOne(Yield(w), nums[0]), nums[1..])
  }

  function RemovalBound(w: Writer, base: int): int {
    match w.cfg.durability
    case Volatile => base
    case TransientLocal => base - 1
  }

  ghost function Removable(w: Writer, base: int): set<int> {
    set n | n in w.hc.changes && n <= RemovalBound(w, base) && AckedByAll(w, n)
  }

  ghost function RemoveAcked(w: Writer, base: int): Writer {
    var w1 := Yield(w);
    RemoveEach(w1, List(Removable(w1, base)))
  }

  // ---- handle_write_data_cmd ----

  /** How many members of `s` lie above `n`: the rank of `n` counted from the newest. */
  function Rank(s: set<int>, n: int): nat {
    |set m | m in s && m > n|
  }

  function RelevantOnWrite(cfg: Config, news: set<int>, n: int): bool {
    match cfg.history
    case KeepAll => true
    case KeepLast(depth) =>
      match cfg.durability
      case Volatile => Rank(news, n) < depth
      case TransientLocal => Rank(news, n) <= depth
  }

  function Register(cfg: Config, cs: CacheState, news: set<int>): CacheState {
    map n | n in cs.Keys + news ::
      if n in news
      then ChangeForReader(if cfg.pushMode then Unsent else Unacknowledged, RelevantOnWrite(cfg, news, n))
      else cs[n]
  }

  /** get_unprocessed, then update_cache_state of every proxy. */
  function TakeUnprocessed(w: Writer): Writer {
    w.(hc := w.hc.(unprocessed := {}), processed := w.hc.last,
       proxies := map g | g in w.proxies ::
         w.proxies[g].(state := Register(w.cfg, w.proxies[g].state, w.hc.unprocessed)))
  }

  ghost function DrainProxy(p: Proxy, st: Status): Proxy {
    p.(state := Drained(p.state, st))
  }

  ghost function DrainAll(w: Writer, st: Status): Writer {
    w.(proxies := map g | g in w.proxies :: DrainProxy(w.proxies[g], st))
  }

  /** Reader `g` is to get a DATA (relevant) or a GAP (not) for `n`. */
  predicate Wants(w: Writer, g: Guid, st: Status, n: int, relevant: bool) {
    && g in w.proxies && n in w.proxies[g].state
    && w.proxies[g].state[n] == ChangeForReader(st, relevant)
    && w.proxies[g].locators.DataTargets() != []
  }

  function TargetsAmong(w: Writer, gs: seq<Guid>, st: Status, n: int, relevant: bool): seq<Target> {
    if gs == [] then []
    else
      var rest := TargetsAmong(w, gs[1..], st, n, relevant);
      if Wants(w, gs[0], st, n, relevant)
      then [Target(gs[0], w.proxies[gs[0]].locators.DataTargets())] + rest
      else rest
  }

  ghost function WantedNumbers(w: Writer, gs: seq<Guid>, st: Status, relevant: bool): set<int> {
    set g, n | g in gs && g in w.proxies && n in w.proxies[g].state && Wants(w, g, st, n, relevant) :: n
  }

  /** The to_send_data (relevant) or to_send_gap (not) table built while draining
      the proxies of `gs`. */
  ghost function Plan(w: Writer, gs: seq<Guid>, st: Status, relevant: bool): map<int, seq<Target>> {
    map n | n in WantedNumbers(w, gs, st, relevant) :: TargetsAmong(w, gs, st, n, relevant)
  }

  ghost function Guids(w: Writer): seq<Guid> {
    List(w.proxies.Keys)
  }

  /** Sending the planned DATA: a change that has left the cache is an unreachable!(). */
  function SendData(w: Writer, plan: map<int, seq<Target>>, nums: seq<int>): Writer
    requires Within(nums, plan.Keys)
    decreases |nums|
  {
    if nums == [] then w
    else
      var w1 := Yield(w);
      var n := nums[0];
      if n in w1.hc.changes
      then SendData(w1.(out := w1.out + [Send(Data(n, w1.hc.changes[n]), plan[n])]), plan, nums[1..])
      else w1.(panicked := true)
  }

  function SendGaps(w: Writer, plan: map<int, seq<Target>>, nums: seq<int>): Writer
    requires Within(nums, plan.Keys)
    decreases |nums|
  {
    if nums == [] then w
    else
      var n := nums[0];
      SendGaps(w.(out := w.out + [Send(Gap(n), plan[n])]), plan, nums[1..])
  }

  ghost function SendUnsent(w: Writer): Writer {
    var gs := Guids(w);
    var data := Plan(w, gs, Unsent, true);
    var gaps := Plan(w, gs, Unsent, false);
    var w1 := SendData(DrainAll(w, Unsent), data, List(data.Keys));
    if w1.panicked then w1 else SendGaps(w1, gaps, List(gaps.Keys))
  }

  ghost function ProcessWrites(w: Writer): Writer {
    var w1 := Yield(w);
    if w1.hc.unprocessed == {} then w1
    else SendUnsent(RemoveAcked(TakeUnprocessed(w1), Min(w1.hc.unprocessed)))
  }

  // ---- send_heart_beat ----

  ghost function HeartbeatAudience(w: Writer, gs: seq<Guid>): seq<Target> {
    if gs == [] then []
    else
      var rest := HeartbeatAudience(w, gs[1..]);
      if gs[0] in w.proxies && w.proxies[gs[0]].locators.HeartbeatTargets() != []
      then [Target(gs[0], w.proxies[gs[0]].locators.HeartbeatTargets())] + rest
      else rest
  }

  predicate HeartbeatRangeOk(first: int, last: int) {
    first > 0 && last >= 0 && last >= first - 1
  }

  /** Acknowledged changes go first; then the range of the heartbeat is read. */
  ghost function Trim(w: Writer): Writer {
    var w1 := Yield(w);
    Yield(RemoveAcked(w1, MaxSettled(w1)))
  }

  ghost function Announce(w: Writer, liveliness: bool): Writer {
    var first, last := MinSettled(w), MaxSettled(w);
    if !HeartbeatRangeOk(first, last) then w
    else w.(out := w.out + [Send(Heartbeat(first, last, liveliness), HeartbeatAudience(w, Guids(w)))])
  }

  ghost function SendHeartbeat(w: Writer, liveliness: bool): Writer {
    var w0 := if liveliness then w else Yield(w);
    if !liveliness && AllAcked(w0) then w0 else Announce(Trim(w0), liveliness)
  }

  // ---- handle_acknack and handle_nack_response_timeout ----

  /** A requested change that has left the cache is answered with a HEARTBEAT that
      starts just above it. */
  ghost function SendRepairs(w: Writer, plan: map<int, seq<Target>>, nums: seq<int>): Writer
    requires Within(nums, plan.Keys)
    decreases |nums|
  {
    if nums == [] then w
    else
      var w1 := Yield(w);
      var n := nums[0];
      var msg := if n in w1.hc.changes then Data(n, w1.hc.changes[n]) else Heartbeat(n + 1, MaxSettled(w1), false);
      SendRepairs(w1.(out := w1.out + [Send(msg, plan[n])]), plan, nums[1..])
  }

  ghost function Repair(w: Writer, g: Guid): Writer {
    if g !in w.proxies then w.(anState := Waiting)
    else
      var data := Plan(w, [g], Requested, true);
      var gaps := Plan(w, [g], Requested, false);
      var w1 := w.(proxies := w.proxies[g := DrainProxy(w.proxies[g], Requested)]);
      var w2 := SendRepairs(w1, data, List(data.Keys));
      SendGaps(w2, gaps, List(gaps.Keys)).(anState := Waiting)
  }

  ghost function NoteAck(w: Writer, g: Guid, base: int, req: set<int>): Writer
    requires g in w.proxies
  {
    w.(proxies := w.proxies[g := w.proxies[g].(
         state := WithRequested(AckedUpTo(w.proxies[g].state, base - 1), req))])
  }

  ghost function AnswerNack(w: Writer, g: Guid): Writer
    requires g in w.proxies
  {
    if w.anState == Waiting && Numbers(w.proxies[g].state, Requested) != {}
    then (if w.cfg.nackDelayZero then Repair(w, g) else w.(anState := MustRepair))
    else w
  }

  ghost function HandleAckNack(w: Writer, g: Guid, base: int, req: set<int>): Writer {
    if g !in w.proxies then w
    else
      var w1 := NoteAck(w, g, base, req);
      if w1.anState == Repairing then w1.(panicked := true)
      else RemoveAcked(AnswerNack(w1, g), base - 1)
  }

  // ---- readers coming and going ----

  /** The reader's policies, as far as matching looks at them. */
  datatype ReaderQos = ReaderQos(durability: Durability, restCompatible: bool)

  /** An offered durability must be at least the requested one. */
  predicate Compatible(cfg: Config, qos: ReaderQos) {
    qos.restCompatible && (qos.durability == TransientLocal ==> cfg.durability == TransientLocal)
  }

  /** What a new proxy knows: every cached change, only the newest relevant and
      only to a TransientLocal reader. */
  ghost function Snapshot(w: Writer, durability: Durability): CacheState {
    map n | n in w.hc.changes ::
      ChangeForReader(if w.cfg.pushMode then Unsent else Unacknowledged,
                      durability == TransientLocal && n == Max(w.hc.changes.Keys))
  }

  ghost function AddReader(w: Writer, g: Guid, locators: Locators, qos: ReaderQos): Writer {
    if g in w.proxies
    then w.(proxies := w.proxies[g := w.proxies[g].(locators := locators, durability := qos.durability)])
    else if !Compatible(w.cfg, qos) then w
    else
      var w1 := Yield(w);
      w1.(proxies := w1.proxies[g := Proxy(locators, qos.durability, Snapshot(w1, qos.durability))])
  }

  function RemoveReaders(w: Writer, prefix: GuidPrefix): Writer {
    w.(proxies := map g | g in w.proxies && PrefixOf(g) != prefix :: w.proxies[g])
  }
}
