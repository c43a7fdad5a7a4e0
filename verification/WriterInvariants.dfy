/** What every handler of the writer keeps, whatever ACKNACKs arrive and whatever
    the application writes in between. */
module WriterInvariants {
  import opened Types
  import opened Ascending
  import opened ReaderProxies
  import opened WriterModel

  /** Numbers are handed out in order; the unprocessed ones are the newest. */
  ghost predicate Numbered(w: Writer) {
    CacheNumbered(w.hc, w.processed)
  }

  ghost predicate CacheNumbered(c: Cache, processed: int) {
    && 0 <= processed <= c.last && |c.written| == c.last
    && (forall n :: n in c.unprocessed <==> processed < n <= c.last)
    && (forall n :: n in c.changes ==> 1 <= n <= c.last && c.changes[n] == c.written[n - 1])
    && c.unprocessed <= c.changes.Keys
  }

  /** `d` is `c` after some more writes. */
  ghost predicate CacheGrown(c: Cache, d: Cache) {
    && c.last <= d.last && c.written <= d.written && |d.written| == d.last
    && (forall n :: n in d.changes <==> n in c.changes || c.last < n <= d.last)
    && (forall n :: n in c.changes ==> d.changes[n] == c.changes[n])
    && (forall n :: n in d.unprocessed <==> n in c.unprocessed || c.last < n <= d.last)
  }

  /** `b` is `a` after some more writes by the application and nothing else. */
  ghost predicate Grown(a: Writer, b: Writer) {
    b == a.(hc := b.hc, script := b.script) && CacheGrown(a.hc, b.hc) && Numbered(b)
  }

  lemma {:induction false} WriteAllGrows(c: Cache, maxSamples: int, ps: seq<Payload>, processed: int)
    requires CacheNumbered(c, processed)
    ensures CacheNumbered(WriteAll(c, maxSamples, ps), processed) && CacheGrown(c, WriteAll(c, maxSamples, ps))
    decreases |ps|
  {
    if ps != [] {
      WriteAllGrows(Write(c, maxSamples, ps[0]), maxSamples, ps[1..], processed);
    }
  }

  lemma YieldGrows(w: Writer)
    requires Numbered(w)
    ensures Grown(w, Yield(w))
  {
    if w.script != [] {
      WriteAllGrows(w.hc, w.cfg.maxSamples, w.script[0], w.processed);
    }
  }

  lemma GrownTwice(a: Writer, b: Writer, c: Writer)
    requires Grown(a, b) && Grown(b, c)
    ensures Grown(a, c)
  {
  }

  lemma GrownSettled(a: Writer, b: Writer)
    requires Numbered(a) && Grown(a, b)
    ensures Settled(a) == Settled(b)
    ensures MaxSettled(a) == MaxSettled(b) && MinSettled(a) == MinSettled(b)
  {
    assert forall n :: n in Settled(a) <==> n in Settled(b);
  }

  // ---- the effect of the loops that give the lock up between iterations ----

  function CacheWithout(c: Cache, s: set<int>): Cache {
    c.(changes := c.changes - (s - c.unprocessed))
  }

  function ProxiesWithout(ps: map<Guid, Proxy>, s: set<int>): map<Guid, Proxy> {
    map g | g in ps :: ps[g].(state := ps[g].state - s)
  }

  /** All of `s` removed at once. */
  function Removed(w: Writer, s: set<int>): Writer {
    w.(hc := CacheWithout(w.hc, s), proxies := ProxiesWithout(w.proxies, s))
  }

  lemma RemovedNothing(w: Writer)
    requires Numbered(w)
    ensures Removed(w, {}) == w && Grown(w, w)
  {
    assert forall g :: g in w.proxies ==> w.proxies[g].state - {} == w.proxies[g].state;
    assert w.hc.changes - ({} - w.hc.unprocessed) == w.hc.changes;
  }

  lemma ProxiesWithoutOneMore(ps: map<Guid, Proxy>, s: set<int>, n: int)
    ensures ProxiesWithout(ProxiesWithout(ps, s), {n}) == ProxiesWithout(ps, s + {n})
  {
    var r, t := ProxiesWithout(ProxiesWithout(ps, s), {n}), ProxiesWithout(ps, s + {n});
    forall g | g in ps
      ensures r[g] == t[g]
    {
      assert ps[g].state - s - {n} == ps[g].state - (s + {n});
    }
  }

  lemma RemoveOneMore(a: Writer, w: Writer, s: set<int>, n: int)
    requires Grown(Removed(a, s), w)
    ensures Grown(Removed(a, s + {n}), RemoveOne(w, n))
  {
    ProxiesWithoutOneMore(a.proxies, s, n);
    assert RemoveOne(w, n).proxies == ProxiesWithout(w.proxies, {n});
    assert forall m :: m in RemoveOne(w, n).hc.unprocessed ==> m in RemoveOne(w, n).hc.changes;
  }

  lemma {:induction false} RemoveEachEffect(a: Writer, w: Writer, s: set<int>, nums: seq<int>)
    requires Grown(Removed(a, s), w)
    ensures Grown(Removed(a, s + set n | n in nums), RemoveEach(w, nums))
    decreases |nums|
  {
    if nums == [] {
      assert s + (set n | n in nums) == s;
    } else {
      var w1, n := Yield(w), nums[0];
      YieldGrows(w);
      GrownTwice(Removed(a, s), w, w1);
      RemoveOneMore(a, w1, s, n);
      RemoveEachEffect(a, RemoveOne(w1, n), s + {n}, nums[1..]);
      assert nums == [n] + nums[1..];
      assert s + (set m | m in nums) == s + {n} + (set m | m in nums[1..]);
    }
  }

  lemma RemoveSetEffect(w: Writer, s: set<int>, nums: seq<int>)
    requires Numbered(w) && s == set n | n in nums
    ensures Grown(Removed(w, s), RemoveEach(w, nums))
  {
    RemovedNothing(w);
    RemoveEachEffect(w, w, {}, nums);
    assert {} + s == s;
  }

  lemma RemoveAckedEffect(w: Writer, base: int)
    requires Numbered(w)
    ensures Grown(w, Yield(w))
    ensures Grown(Removed(Yield(w), Removable(Yield(w), base)), RemoveAcked(w, base))
  {
    YieldGrows(w);
    var s := Removable(Yield(w), base);
    assert s == set n | n in List(s);
    RemoveSetEffect(Yield(w), s, List(s));
  }

  ghost function DataSends(w: Writer, plan: map<int, seq<Target>>, nums: seq<int>): seq<Send>
    requires Within(nums, plan.Keys) && Within(nums, w.hc.changes.Keys)
  {
    seq(|nums|, i requires 0 <= i < |nums| => Send(Data(nums[i], w.hc.changes[nums[i]]), plan[nums[i]]))
  }

  lemma {:induction false} SendDataEffect(a: Writer, w: Writer, plan: map<int, seq<Target>>, nums: seq<int>)
    requires Numbered(a) && Grown(a, w.(out := a.out))
    requires Within(nums, plan.Keys) && Within(nums, a.hc.changes.Keys)
    ensures Grown(a.(out := w.out + DataSends(a, plan, nums)), SendData(w, plan, nums))
    decreases |nums|
  {
    if nums == [] {
      assert w.out + DataSends(a, plan, nums) == w.out;
    } else {
      YieldGrows(w);
      GrownTwice(a, w.(out := a.out), Yield(w).(out := a.out));
      var w1, n := Yield(w), nums[0];
      var w2 := w1.(out := w1.out + [Send(Data(n, w1.hc.changes[n]), plan[n])]);
      SendDataEffect(a, w2, plan, nums[1..]);
      DataSendsCons(a, plan, nums, w.out);
    }
  }

  lemma DataSendsCons(a: Writer, plan: map<int, seq<Target>>, nums: seq<int>, out: seq<Send>)
    requires Within(nums, plan.Keys) && Within(nums, a.hc.changes.Keys) && nums != []
    ensures out + DataSends(a, plan, nums)
         == out + [Send(Data(nums[0], a.hc.changes[nums[0]]), plan[nums[0]])] + DataSends(a, plan, nums[1..])
  {
  }

  ghost function GapSends(plan: map<int, seq<Target>>, nums: seq<int>): seq<Send>
    requires Within(nums, plan.Keys)
  {
    seq(|nums|, i requires 0 <= i < |nums| => Send(Gap(nums[i]), plan[nums[i]]))
  }

  lemma {:induction false} SendGapsEffect(w: Writer, plan: map<int, seq<Target>>, nums: seq<int>)
    requires Within(nums, plan.Keys)
    ensures SendGaps(w, plan, nums) == w.(out := w.out + GapSends(plan, nums))
    decreases |nums|
  {
    if nums == [] {
      assert w.out + GapSends(plan, nums) == w.out;
    } else {
      var n := nums[0];
      var w1 := w.(out := w.out + [Send(Gap(n), plan[n])]);
      SendGapsEffect(w1, plan, nums[1..]);
      assert w.out + GapSends(plan, nums) == w1.out + GapSends(plan, nums[1..]);
    }
  }

  ghost function RepairMsg(w: Writer, n: int): Msg {
    if n in w.hc.changes then Data(n, w.hc.changes[n]) else Heartbeat(n + 1, MaxSettled(w), false)
  }

  ghost function RepairSends(w: Writer, plan: map<int, seq<Target>>, nums: seq<int>): seq<Send>
    requires Within(nums, plan.Keys)
  {
    seq(|nums|, i requires 0 <= i < |nums| => Send(RepairMsg(w, nums[i]), plan[nums[i]]))
  }

  /** Answering one request: only the output changes, and the answer does not depend
      on writes made since `a`. */
  lemma RepairStep(a: Writer, w: Writer, n: int)
    requires Numbered(a) && Grown(a, w.(out := a.out))
    ensures var w1 := Yield(w); Grown(a, w1.(out := a.out)) && w1.out == w.out
    ensures n <= a.hc.last ==> RepairMsg(Yield(w), n) == RepairMsg(a, n)
  {
    YieldGrows(w);
    GrownTwice(a, w.(out := a.out), Yield(w).(out := a.out));
    GrownSettled(a, Yield(w).(out := a.out));
    assert Settled(Yield(w)) == Settled(Yield(w).(out := a.out));
  }

  lemma {:induction false} SendRepairsKeeps(a: Writer, w: Writer, plan: map<int, seq<Target>>, nums: seq<int>)
    requires Numbered(a) && Grown(a, w.(out := a.out))
    requires Within(nums, plan.Keys)
    ensures Grown(a, SendRepairs(w, plan, nums).(out := a.out))
    decreases |nums|
  {
    if nums != [] {
      var w1, n := Yield(w), nums[0];
      RepairStep(a, w, n);
      SendRepairsKeeps(a, w1.(out := w1.out + [Send(RepairMsg(w1, n), plan[n])]), plan, nums[1..]);
    }
  }

  lemma {:induction false} SendRepairsOut(a: Writer, w: Writer, plan: map<int, seq<Target>>, nums: seq<int>)
    requires Numbered(a) && Grown(a, w.(out := a.out))
    requires Within(nums, plan.Keys) && forall i :: 0 <= i < |nums| ==> nums[i] <= a.hc.last
    ensures SendRepairs(w, plan, nums).out == w.out + RepairSends(a, plan, nums)
    decreases |nums|
  {
    if nums == [] {
      assert w.out + RepairSends(a, plan, nums) == w.out;
    } else {
      hide Numbered, CacheGrown, Yield, RepairSends, RepairMsg;
      var w1, n, rest := Yield(w), nums[0], nums[1..];
      RepairStep(a, w, n);
      var w2 := w1.(out := w1.out + [Send(RepairMsg(w1, n), plan[n])]);
      SendRepairsOut(a, w2, plan, rest);
      assert SendRepairs(w, plan, nums) == SendRepairs(w2, plan, rest);
      RepairSendsCons(a, plan, nums);
      assert w.out + RepairSends(a, plan, nums) == w2.out + RepairSends(a, plan, rest);
    }
  }

  lemma RepairSendsCons(a: Writer, plan: map<int, seq<Target>>, nums: seq<int>)
    requires Within(nums, plan.Keys) && nums != []
    ensures RepairSends(a, plan, nums)
         == [Send(RepairMsg(a, nums[0]), plan[nums[0]])] + RepairSends(a, plan, nums[1..])
  {
  }

  // ---- agreement between the cache and the proxies ----

  /** Every settled change has an entry in every proxy. */
  ghost predicate AllRegistered(w: Writer) {
    forall g, n :: g in w.proxies && n in w.hc.changes && n !in w.hc.unprocessed ==> n in w.proxies[g].state
  }

  /** Whatever is still to be sent for the first time can be sent. */
  ghost predicate UnsentCached(w: Writer) {
    forall g, n :: g in w.proxies && n in w.proxies[g].state && w.proxies[g].state[n].status == Unsent
      ==> n in w.hc.changes
  }

  ghost predicate Agreement(w: Writer) {
    && Numbered(w) && AllRegistered(w) && UnsentCached(w)
    && !w.panicked && w.anState != Repairing
  }

  lemma AgreementGrown(a: Writer, b: Writer)
    requires Agreement(a) && Grown(a, b)
    ensures Agreement(b)
  {
  }

  lemma AgreementRemoved(w: Writer, s: set<int>)
    requires Agreement(w)
    ensures Agreement(Removed(w, s))
  {
  }

  lemma AgreementRemoveAcked(w: Writer, base: int)
    requires Agreement(w)
    ensures Agreement(RemoveAcked(w, base))
  {
    RemoveAckedEffect(w, base);
    AgreementGrown(w, Yield(w));
    var s := Removable(Yield(w), base);
    AgreementRemoved(Yield(w), s);
    AgreementGrown(Removed(Yield(w), s), RemoveAcked(w, base));
  }

  lemma AgreementTake(w: Writer)
    requires Agreement(w)
    ensures Agreement(TakeUnprocessed(w))
  {
  }

  lemma AgreementDrain(w: Writer, st: Status)
    requires Agreement(w)
    ensures Agreement(DrainAll(w, st))
  {
  }

  ghost function UnsentSends(w: Writer): seq<Send>
    requires UnsentCached(w)
  {
    var data := Plan(w, Guids(w), Unsent, true);
    var gaps := Plan(w, Guids(w), Unsent, false);
    DataSends(w, data, List(data.Keys)) + GapSends(gaps, List(gaps.Keys))
  }

  lemma MoreSent(a: Writer, b: Writer, sends: seq<Send>)
    requires Grown(a, b)
    ensures Grown(a.(out := a.out + sends), b.(out := b.out + sends))
  {
  }

  lemma SendBothEffect(a: Writer, data: map<int, seq<Target>>, xs: seq<int>, gaps: map<int, seq<Target>>, ys: seq<int>)
    requires Numbered(a) && Within(xs, data.Keys) && Within(xs, a.hc.changes.Keys) && Within(ys, gaps.Keys)
    ensures var w1 := SendData(a, data, xs);
      Grown(a.(out := a.out + (DataSends(a, data, xs) + GapSends(gaps, ys))), SendGaps(w1, gaps, ys))
  {
    var d, g := DataSends(a, data, xs), GapSends(gaps, ys);
    SendDataEffect(a, a, data, xs);
    MoreSent(a.(out := a.out + d), SendData(a, data, xs), g);
    SendGapsEffect(SendData(a, data, xs), gaps, ys);
    assert a.out + (d + g) == a.out + d + g;
  }

  /** Draining sends exactly the planned DATA and GAPs; in particular the
      unreachable!() for a change missing from the cache is not reached. */
  lemma SendUnsentEffect(w: Writer)
    requires Agreement(w)
    ensures Grown(DrainAll(w, Unsent).(out := w.out + UnsentSends(w)), SendUnsent(w))
  {
    var data := Plan(w, Guids(w), Unsent, true);
    var gaps := Plan(w, Guids(w), Unsent, false);
    var a := DrainAll(w, Unsent);
    AgreementDrain(w, Unsent);
    assert data.Keys <= w.hc.changes.Keys;
    SendDataEffect(a, a, data, List(data.Keys));
    SendBothEffect(a, data, List(data.Keys), gaps, List(gaps.Keys));
    assert DataSends(a, data, List(data.Keys)) == DataSends(w, data, List(data.Keys));
  }

  lemma AgreementProcessWrites(w: Writer)
    requires Agreement(w)
    ensures Agreement(ProcessWrites(w))
  {
    YieldGrows(w);
    AgreementGrown(w, Yield(w));
    var w1 := Yield(w);
    if w1.hc.unprocessed != {} {
      AgreementTake(w1);
      var w2 := TakeUnprocessed(w1);
      AgreementRemoveAcked(w2, Min(w1.hc.unprocessed));
      var w3 := RemoveAcked(w2, Min(w1.hc.unprocessed));
      SendUnsentEffect(w3);
      AgreementDrain(w3, Unsent);
      AgreementGrown(DrainAll(w3, Unsent).(out := w3.out + UnsentSends(w3)), SendUnsent(w3));
    }
  }

  lemma TrimEffect(w: Writer)
    requires Numbered(w)
    ensures Grown(w, Yield(w))
    ensures Grown(RemoveAcked(Yield(w), MaxSettled(Yield(w))), Trim(w))
  {
    YieldGrows(w);
    var w1 := Yield(w);
    RemoveAckedEffect(w1, MaxSettled(w1));
    YieldGrows(RemoveAcked(w1, MaxSettled(w1)));
  }

  lemma AgreementTrim(w: Writer)
    requires Agreement(w)
    ensures Agreement(Trim(w))
  {
    TrimEffect(w);
    var w1 := Yield(w);
    AgreementGrown(w, w1);
    AgreementRemoveAcked(w1, MaxSettled(w1));
    AgreementGrown(RemoveAcked(w1, MaxSettled(w1)), Trim(w));
  }

  lemma AgreementHeartbeat(w: Writer, liveliness: bool)
    requires Agreement(w)
    ensures Agreement(SendHeartbeat(w, liveliness))
  {
    var w0 := if liveliness then w else Yield(w);
    YieldGrows(w);
    AgreementGrown(w, Yield(w));
    AgreementTrim(w0);
  }

  lemma AgreementRepair(w: Writer, g: Guid)
    requires Agreement(w)
    ensures Agreement(Repair(w, g))
  {
    if g in w.proxies {
      var data := Plan(w, [g], Requested, true);
      var gaps := Plan(w, [g], Requested, false);
      var a := w.(proxies := w.proxies[g := DrainProxy(w.proxies[g], Requested)]);
      assert Agreement(a);
      SendRepairsKeeps(a, a, data, List(data.Keys));
      var b := SendRepairs(a, data, List(data.Keys));
      AgreementGrown(a, b.(out := a.out));
      SendGapsEffect(b, gaps, List(gaps.Keys));
    }
  }

  lemma AgreementAnswerNack(w: Writer, g: Guid)
    requires Agreement(w) && g in w.proxies
    ensures Agreement(AnswerNack(w, g))
  {
    AgreementRepair(w, g);
  }

  lemma AgreementNoteAck(w: Writer, g: Guid, base: int, req: set<int>)
    requires Agreement(w) && g in w.proxies
    ensures Agreement(NoteAck(w, g, base, req))
  {
  }

  lemma AgreementAckNack(w: Writer, g: Guid, base: int, req: set<int>)
    requires Agreement(w)
    ensures Agreement(HandleAckNack(w, g, base, req))
  {
    if g in w.proxies {
      var w1 := NoteAck(w, g, base, req);
      AgreementNoteAck(w, g, base, req);
      AgreementAnswerNack(w1, g);
      hide Agreement, NoteAck, AnswerNack, RemoveAcked;
      AgreementRemoveAcked(AnswerNack(w1, g), base - 1);
    }
  }

  lemma AgreementAddReader(w: Writer, g: Guid, locators: Locators, qos: ReaderQos)
    requires Agreement(w)
    ensures Agreement(AddReader(w, g, locators, qos))
  {
    YieldGrows(w);
    AgreementGrown(w, Yield(w));
  }

  // ---- all runs ----

  /** What can happen to a writer; `script` is what the application writes meanwhile. */
  datatype Event =
    | AppWrite(payload: Payload)
    | WriteCommand(script: seq<seq<Payload>>)
    | HeartbeatTimer(liveliness: bool, script: seq<seq<Payload>>)
    | AckNackArrives(guid: Guid, base: int, req: set<int>, script: seq<seq<Payload>>)
    | NackTimer(guid: Guid, script: seq<seq<Payload>>)
    | ReaderFound(guid: Guid, locators: Locators, qos: ReaderQos, script: seq<seq<Payload>>)
    | ReadersGone(prefix: GuidPrefix)

  function Begin(w: Writer, script: seq<seq<Payload>>): Writer {
    w.(script := script, out := [])
  }

  function AppWrites(w: Writer, p: Payload): Writer {
    w.(hc := Write(w.hc, w.cfg.maxSamples, p))
  }

  lemma WriteGrows(w: Writer, p: Payload)
    requires Numbered(w)
    ensures Grown(w, AppWrites(w, p))
  {
    var c := AppWrites(w, p).hc;
    assert forall m :: m in c.unprocessed ==> m in c.changes;
  }

  ghost function Handle(w: Writer, e: Event): Writer {
    match e
    case AppWrite(p) => AppWrites(w, p)
    case WriteCommand(script) => ProcessWrites(Begin(w, script))
    case HeartbeatTimer(liveliness, script) => SendHeartbeat(Begin(w, script), liveliness)
    case AckNackArrives(g, base, req, script) => HandleAckNack(Begin(w, script), g, base, req)
    case NackTimer(g, script) => Repair(Begin(w, script), g)
    case ReaderFound(g, locators, qos, script) => AddReader(Begin(w, script), g, locators, qos)
    case ReadersGone(prefix) => RemoveReaders(w, prefix)
  }

  ghost function HandleAll(w: Writer, es: seq<Event>): Writer
    decreases |es|
  {
    if es == [] then w else HandleAll(Handle(w, es[0]), es[1..])
  }

  lemma AgreementHandle(w: Writer, e: Event)
    requires Agreement(w)
    ensures Agreement(Handle(w, e))
  {
    match e
    case AppWrite(p) =>
      WriteGrows(w, p);
      AgreementGrown(w, AppWrites(w, p));
    case WriteCommand(script) => AgreementProcessWrites(Begin(w, script));
    case HeartbeatTimer(liveliness, script) => AgreementHeartbeat(Begin(w, script), liveliness);
    case AckNackArrives(g, base, req, script) => AgreementAckNack(Begin(w, script), g, base, req);
    case NackTimer(g, script) => AgreementRepair(Begin(w, script), g);
    case ReaderFound(g, locators, qos, script) => AgreementAddReader(Begin(w, script), g, locators, qos);
    case ReadersGone(prefix) =>
  }

  /** In every reachable state, for any ACKNACKs and any interleaved writes. */
  lemma {:induction false} AgreementInEveryRun(w: Writer, es: seq<Event>)
    requires Agreement(w)
    ensures Agreement(HandleAll(w, es))
    decreases |es|
  {
    if es != [] {
      AgreementHandle(w, es[0]);
      AgreementInEveryRun(Handle(w, es[0]), es[1..]);
    }
  }

  lemma AgreementFromStart(cfg: Config, es: seq<Event>)
    ensures Agreement(HandleAll(Initial(cfg), es))
  {
    AgreementInEveryRun(Initial(cfg), es);
  }

  // ---- exactly what is forgotten ----

  /** Settled, at or below the bound, and acknowledged by (or irrelevant to) every
      matched reader: such a change goes, every other one stays. */
  lemma RemoveAckedExactly(w: Writer, base: int)
    requires Numbered(w)
    ensures var r := RemoveAcked(w, base);
      && (forall n :: n in r.hc.changes <==>
            || w.hc.last < n <= r.hc.last
            || (n in w.hc.changes && !(n !in w.hc.unprocessed && n <= RemovalBound(w, base) && AckedByAll(w, n))))
      && (forall n :: n in w.hc.unprocessed ==> n in r.hc.changes)
      && (forall n :: n in w.hc.changes && n in r.hc.changes ==> r.hc.changes[n] == w.hc.changes[n])
  {
    RemoveAckedEffect(w, base);
    var w1, r := Yield(w), RemoveAcked(w, base);
    forall n | n in w.hc.changes
      ensures n in r.hc.changes <==> !(n !in w.hc.unprocessed && n <= RemovalBound(w, base) && AckedByAll(w, n))
      ensures n in r.hc.changes ==> r.hc.changes[n] == w.hc.changes[n]
    {
      assert n in w1.hc.unprocessed <==> n in w.hc.unprocessed;
      assert AckedByAll(w1, n) <==> AckedByAll(w, n);
      assert n in Removable(w1, base) <==> n <= RemovalBound(w, base) && AckedByAll(w, n);
    }
  }

  // ---- what a TransientLocal writer keeps for readers still to come ----

  ghost predicate Retained(w: Writer) {
    w.cfg.durability == TransientLocal && w.processed >= 1 ==> w.processed in w.hc.changes
  }

  lemma RetainedRemoveAcked(w: Writer, base: int)
    requires Numbered(w) && Retained(w) && base <= w.processed
    ensures Retained(RemoveAcked(w, base))
  {
    RemoveAckedExactly(w, base);
    RemoveAckedEffect(w, base);
  }

  lemma RetainedProcessWrites(w: Writer)
    requires Agreement(w) && Retained(w)
    ensures Retained(ProcessWrites(w))
  {
    YieldGrows(w);
    AgreementGrown(w, Yield(w));
    var w1 := Yield(w);
    if w1.hc.unprocessed != {} {
      var w2, oldest := TakeUnprocessed(w1), Min(w1.hc.unprocessed);
      AgreementTake(w1);
      RetainedRemoveAcked(w2, oldest);
      AgreementRemoveAcked(w2, oldest);
      SendUnsentEffect(RemoveAcked(w2, oldest));
    }
  }

  lemma RetainedTrim(w: Writer)
    requires Numbered(w) && Retained(w)
    ensures Retained(Trim(w))
  {
    TrimEffect(w);
    var w1 := Yield(w);
    RetainedRemoveAcked(w1, MaxSettled(w1));
    assert Retained(RemoveAcked(w1, MaxSettled(w1)));
  }

  lemma RetainedHeartbeat(w: Writer, liveliness: bool)
    requires Agreement(w) && Retained(w)
    ensures Retained(SendHeartbeat(w, liveliness))
  {
    var w0 := if liveliness then w else Yield(w);
    YieldGrows(w);
    assert Retained(w0);
    RetainedTrim(w0);
  }

  lemma RetainedAnswerNack(w: Writer, g: Guid)
    requires Agreement(w) && Retained(w) && g in w.proxies
    ensures Retained(AnswerNack(w, g)) && AnswerNack(w, g).processed == w.processed
  {
    RetainedRepair(w, g);
  }

  lemma RetainedAckNack(w: Writer, g: Guid, base: int, req: set<int>)
    requires Agreement(w) && Retained(w) && base <= w.processed + 1
    ensures Retained(HandleAckNack(w, g, base, req))
  {
    if g in w.proxies {
      var w1 := NoteAck(w, g, base, req);
      assert Agreement(w1) && Retained(w1);
      RetainedAnswerNack(w1, g);
      AgreementAnswerNack(w1, g);
      RetainedRemoveAcked(AnswerNack(w1, g), base - 1);
    }
  }

  lemma RetainedHandle(w: Writer, e: Event)
    requires Agreement(w) && Retained(w)
    requires e.AckNackArrives? ==> e.base <= w.processed + 1
    ensures Retained(Handle(w, e))
  {
    match e
    case AppWrite(p) =>
    case WriteCommand(script) => RetainedProcessWrites(Begin(w, script));
    case HeartbeatTimer(liveliness, script) => RetainedHeartbeat(Begin(w, script), liveliness);
    case AckNackArrives(g, base, req, script) => RetainedAckNack(Begin(w, script), g, base, req);
    case NackTimer(g, script) => RetainedRepair(Begin(w, script), g);
    case ReaderFound(g, locators, qos, script) => YieldGrows(Begin(w, script));
    case ReadersGone(prefix) =>
  }

  lemma RetainedRepair(w: Writer, g: Guid)
    requires Agreement(w) && Retained(w)
    ensures Retained(Repair(w, g)) && Repair(w, g).processed == w.processed
  {
    if g in w.proxies {
      var data := Plan(w, [g], Requested, true);
      var gaps := Plan(w, [g], Requested, false);
      var a := w.(proxies := w.proxies[g := DrainProxy(w.proxies[g], Requested)]);
      SendRepairsKeeps(a, a, data, List(data.Keys));
      SendGapsEffect(SendRepairs(a, data, List(data.Keys)), gaps, List(gaps.Keys));
    }
  }

  /** No ACKNACK claims more than the writer had processed when it arrived. */
  ghost predicate AcksInRange(w: Writer, es: seq<Event>)
    decreases |es|
  {
    es == [] ||
    (&& (es[0].AckNackArrives? ==> es[0].base <= w.processed + 1)
     && AcksInRange(Handle(w, es[0]), es[1..]))
  }

  lemma {:induction false} RetainedInEveryRun(w: Writer, es: seq<Event>)
    requires Agreement(w) && Retained(w) && AcksInRange(w, es)
    ensures Agreement(HandleAll(w, es)) && Retained(HandleAll(w, es))
    decreases |es|
  {
    if es != [] {
      AgreementHandle(w, es[0]);
      RetainedHandle(w, es[0]);
      RetainedInEveryRun(Handle(w, es[0]), es[1..]);
    }
  }

  /** A late-joining TransientLocal reader is owed exactly the newest change. */
  lemma LateJoinerGetsNewest(w: Writer, g: Guid, locators: Locators, qos: ReaderQos)
    requires Agreement(w) && Retained(w) && g !in w.proxies
    requires Compatible(w.cfg, qos) && qos.durability == TransientLocal
    ensures var r := AddReader(w, g, locators, qos);
      && g in r.proxies && r.proxies[g].state.Keys == r.hc.changes.Keys
      && (set n | n in r.proxies[g].state && r.proxies[g].state[n].relevant)
           == (if r.hc.last >= 1 then {r.hc.last} else {})
  {
    YieldGrows(w);
    var w1 := Yield(w);
    assert Retained(w1);
    if w1.hc.last >= 1 {
      assert w1.hc.last in w1.hc.changes by {
        if w1.hc.last == w1.processed {
        } else {
          assert w1.hc.last in w1.hc.unprocessed;
        }
      }
      assert Max(w1.hc.changes.Keys) == w1.hc.last;
    }
  }
}
