/** How a run can begin: readers are matched before anything is written, then one write
    command hands a batch of changes to them. */
module Openings {
  import opened Types
  import opened Ascending
  import opened ReaderProxies
  import opened WriterModel
  import opened WriterInvariants
  import opened Delivery
  import opened Convergence
  import R = WriterProxies

  function Settings(durability: Durability): Config {
    Config(durability, KeepAll, true, LENGTH_UNLIMITED, true)
  }

  function NewPeer(durability: Durability, locator: Locator): Peer {
    Peer(durability, locator, [], None, {}, {}, map[], 0)
  }

  function UpTo(k: nat): (s: set<int>)
    ensures forall n :: n in s <==> 1 <= n <= k
  {
    R.Span(1, k)
  }

  function Changes(ps: seq<Payload>): map<int, Payload> {
    map n | n in UpTo(|ps|) :: ps[n - 1]
  }

  /** The first `k` changes, all relevant and in one status. */
  function Entries(k: nat, st: Status): CacheState {
    map n | n in UpTo(k) :: ChangeForReader(st, true)
  }

  /** Every reader is owed the first `k` changes, in status `st`, and can be reached. */
  predicate AllAt(w: Writer, k: nat, st: Status) {
    && w.proxies.Keys != {}
    && forall g :: g in w.proxies ==> ProxyAt(w.proxies[g], k, st)
  }

  predicate ProxyAt(p: Proxy, k: nat, st: Status) {
    p.locators.DataTargets() != [] && p.state == Entries(k, st)
  }

  function Datas(ps: seq<Payload>): seq<Msg> {
    seq(|ps|, i requires 0 <= i < |ps| => Data(i + 1, ps[i]))
  }

  /** A writer that has matched readers but written nothing. */
  ghost predicate Unwritten(w: Writer) {
    && w == Initial(w.cfg).(proxies := w.proxies) && w.cfg == Settings(w.cfg.durability)
    && w.proxies.Keys != {}
    && forall g :: g in w.proxies ==> w.proxies[g].state == map[] && w.proxies[g].locators.DataTargets() != []
  }

  /** The same writer once it has sent `ps`. */
  function Written(w: Writer, ps: seq<Payload>): Writer {
    w.(hc := Cache(Changes(ps), {}, |ps|, ps), processed := |ps|,
       proxies := map g | g in w.proxies :: w.proxies[g].(state := Entries(|ps|, Underway)))
  }

  // ---- the writes ----

  lemma {:induction false} AllTaken(c: Cache, ps: seq<Payload>)
    ensures var d := WriteAll(c, LENGTH_UNLIMITED, ps); d.last == c.last + |ps| && d.written == c.written + ps
    decreases |ps|
  {
    if ps == [] {
      assert c.written + ps == c.written;
    } else {
      AllTaken(Write(c, LENGTH_UNLIMITED, ps[0]), ps[1..]);
      assert c.written + [ps[0]] + ps[1..] == c.written + ps;
    }
  }

  lemma WrittenCache(ps: seq<Payload>)
    ensures WriteAll(Cache(map[], {}, 0, []), LENGTH_UNLIMITED, ps) == Cache(Changes(ps), UpTo(|ps|), |ps|, ps)
  {
    hide WriteAll, UpTo;
    var c := Cache(map[], {}, 0, []);
    AllTaken(c, ps);
    WriteAllGrows(c, LENGTH_UNLIMITED, ps, 0);
    SameCache(WriteAll(c, LENGTH_UNLIMITED, ps), ps);
  }

  lemma SameCache(d: Cache, ps: seq<Payload>)
    requires CacheNumbered(d, 0) && CacheGrown(Cache(map[], {}, 0, []), d) && d.last == |ps| && d.written == [] + ps
    ensures d == Cache(Changes(ps), UpTo(|ps|), |ps|, ps)
  {
    assert [] + ps == ps;
    assert d.changes.Keys == UpTo(|ps|);
    assert d.unprocessed == UpTo(|ps|);
  }

  // ---- what is sent ----

  lemma {:induction false} QuietSendData(w: Writer, plan: map<int, seq<Target>>, nums: seq<int>)
    requires w.script == [] && Within(nums, plan.Keys) && Within(nums, w.hc.changes.Keys)
    ensures SendData(w, plan, nums) == w.(out := w.out + DataSends(w, plan, nums))
    decreases |nums|
  {
    if nums == [] {
      assert w.out + DataSends(w, plan, nums) == w.out;
    } else {
      var n := nums[0];
      var w1 := w.(out := w.out + [Send(Data(n, w.hc.changes[n]), plan[n])]);
      QuietSendData(w1, plan, nums[1..]);
      DataSendsCons(w, plan, nums, w.out);
      assert DataSends(w1, plan, nums[1..]) == DataSends(w, plan, nums[1..]);
    }
  }

  predicate Names(ts: seq<Target>, g: Guid) {
    exists i :: 0 <= i < |ts| && ts[i].guid == g
  }

  lemma {:induction false} WantingIsTarget(w: Writer, gs: seq<Guid>, st: Status, n: int, relevant: bool, g: Guid)
    requires g in gs && Wants(w, g, st, n, relevant)
    ensures Names(TargetsAmong(w, gs, st, n, relevant), g)
    decreases |gs|
  {
    var ts, rest := TargetsAmong(w, gs, st, n, relevant), TargetsAmong(w, gs[1..], st, n, relevant);
    if gs[0] == g {
      assert ts[0].guid == g;
    } else {
      WantingIsTarget(w, gs[1..], st, n, relevant, g);
      var i :| 0 <= i < |rest| && rest[i].guid == g;
      var j := if Wants(w, gs[0], st, n, relevant) then i + 1 else i;
      assert ts[j].guid == g;
    }
  }

  lemma {:induction false} ListeningIsTarget(w: Writer, gs: seq<Guid>, g: Guid)
    requires g in gs && g in w.proxies && w.proxies[g].locators.HeartbeatTargets() != []
    ensures Names(HeartbeatAudience(w, gs), g)
    decreases |gs|
  {
    var ts, rest := HeartbeatAudience(w, gs), HeartbeatAudience(w, gs[1..]);
    if gs[0] == g {
      assert ts[0].guid == g;
    } else {
      ListeningIsTarget(w, gs[1..], g);
      var i :| 0 <= i < |rest| && rest[i].guid == g;
      var j := if gs[0] in w.proxies && w.proxies[gs[0]].locators.HeartbeatTargets() != [] then i + 1 else i;
      assert ts[j].guid == g;
    }
  }

  function OneTo(k: nat): seq<int> {
    seq(k, i => i + 1)
  }

  lemma ListUpTo(s: set<int>, k: nat)
    requires s == UpTo(k)
    ensures List(s) == OneTo(k)
  {
    forall n
      ensures n in List(s) <==> n in OneTo(k)
    {
      if n in s {
        assert OneTo(k)[n - 1] == n;
      }
    }
    AscendingUnique(List(s), OneTo(k));
  }

  lemma WantsAll(w: Writer, k: nat, g: Guid, n: int, relevant: bool)
    requires AllAt(w, k, Unsent) && g in w.proxies
    ensures Wants(w, g, Unsent, n, relevant) <==> relevant && 1 <= n <= k
    ensures relevant && 1 <= n <= k ==> n in w.proxies[g].state
  {
    assert ProxyAt(w.proxies[g], k, Unsent);
  }

  lemma AllWanted(w: Writer, k: nat, n: int, relevant: bool)
    requires AllAt(w, k, Unsent)
    ensures n in WantedNumbers(w, Guids(w), Unsent, relevant) <==> relevant && 1 <= n <= k
  {
    hide Wants;
    var some := Member(w.proxies.Keys);
    WantsAll(w, k, some, n, relevant);
    hide AllAt;
    assert some in Guids(w);
    if n in WantedNumbers(w, Guids(w), Unsent, relevant) {
      var g :| g in Guids(w) && g in w.proxies && n in w.proxies[g].state && Wants(w, g, Unsent, n, relevant);
      WantsAll(w, k, g, n, relevant);
    }
  }

  /** A DATA for each number goes to every reader. */
  lemma AllUnsent(w: Writer, k: nat)
    requires AllAt(w, k, Unsent)
    ensures Plan(w, Guids(w), Unsent, true).Keys == UpTo(k) && Plan(w, Guids(w), Unsent, false) == map[]
  {
    hide AllAt, WantedNumbers, TargetsAmong, UpTo;
    forall n
      ensures n in Plan(w, Guids(w), Unsent, true) <==> 1 <= n <= k
      ensures n !in Plan(w, Guids(w), Unsent, false)
    {
      AllWanted(w, k, n, true);
      AllWanted(w, k, n, false);
    }
  }

  lemma EachIsTarget(w: Writer, k: nat, g: Guid, n: int)
    requires AllAt(w, k, Unsent) && g in w.proxies && 1 <= n <= k
    ensures n in Plan(w, Guids(w), Unsent, true)
    ensures Names(Plan(w, Guids(w), Unsent, true)[n], g)
  {
    AllWanted(w, k, n, true);
    assert ProxyAt(w.proxies[g], k, Unsent);
    assert g in Guids(w) && Wants(w, g, Unsent, n, true);
    WantingIsTarget(w, Guids(w), Unsent, n, true, g);
  }

  lemma DataSendsFor(w: Writer, plan: map<int, seq<Target>>, ps: seq<Payload>, g: Guid)
    requires plan.Keys == UpTo(|ps|) && w.hc.changes == Changes(ps)
    requires forall n :: 1 <= n <= |ps| ==> Names(plan[n], g)
    ensures Within(OneTo(|ps|), plan.Keys) && Within(OneTo(|ps|), w.hc.changes.Keys)
    ensures MsgsFor(DataSends(w, plan, OneTo(|ps|)), g) == Datas(ps)
  {
    var out := DataSends(w, plan, OneTo(|ps|));
    forall i | 0 <= i < |out|
      ensures IsFor(out[i], g)
    {
      assert out[i].to == plan[i + 1];
    }
    AllMsgs(out, g);
  }

  lemma RegisteredNew(cfg: Config, k: nat)
    requires cfg == Settings(cfg.durability)
    ensures Register(cfg, map[], UpTo(k)) == Entries(k, Unsent)
  {
  }

  function EnteredAt(w: Writer, ps: seq<Payload>): Writer {
    w.(hc := Cache(Changes(ps), {}, |ps|, ps), processed := |ps|,
       proxies := map g | g in w.proxies :: w.proxies[g].(state := Entries(|ps|, Unsent)))
  }

  /** The new changes have been entered in every proxy. */
  lemma Entered(w: Writer, ps: seq<Payload>)
    requires Unwritten(w)
    ensures var w1 := Yield(Begin(w, [ps]));
      && w1.hc.unprocessed == UpTo(|ps|) && TakeUnprocessed(w1) == EnteredAt(w, ps)
  {
    hide WriteAll, UpTo, Register, Changes, Entries;
    WrittenCache(ps);
    RegisteredNew(w.cfg, |ps|);
    var w1 := Yield(Begin(w, [ps]));
    assert [ps][1..] == [];
    assert w1 == w.(hc := Cache(Changes(ps), UpTo(|ps|), |ps|, ps));
    var t := TakeUnprocessed(w1);
    forall g | g in w.proxies
      ensures t.proxies[g] == EnteredAt(w, ps).proxies[g]
    {
    }
    assert t.proxies == EnteredAt(w, ps).proxies;
  }

  lemma NothingRemovable(w: Writer, base: int)
    requires Numbered(w) && w.script == [] && Removable(w, base) == {}
    ensures RemoveAcked(w, base) == w
  {
    QuietRemoveAcked(w, base);
    RemovedNothing(w);
  }

  lemma SentIs(t: Writer, k: nat)
    requires t.script == [] && t.out == [] && !t.panicked && t.hc.changes.Keys == UpTo(k) && AllAt(t, k, Unsent)
    ensures var data := Plan(t, Guids(t), Unsent, true);
      && Within(OneTo(k), data.Keys) && Within(OneTo(k), t.hc.changes.Keys)
      && SendUnsent(t) == DrainAll(t, Unsent).(out := DataSends(t, data, OneTo(k)))
  {
    hide AllAt, Plan, UpTo, DataSends;
    var data, gaps := Plan(t, Guids(t), Unsent, true), Plan(t, Guids(t), Unsent, false);
    AllUnsent(t, k);
    ListUpTo(data.Keys, k);
    OneToWithin(data.Keys, k);
    var d := DrainAll(t, Unsent);
    QuietSendData(d, data, OneTo(k));
    SameDataSends(t, d, data, OneTo(k));
    NoGaps(d.(out := DataSends(t, data, OneTo(k))), gaps);
  }

  lemma OneToWithin(s: set<int>, k: nat)
    requires s == UpTo(k)
    ensures Within(OneTo(k), s)
  {
  }

  lemma SameDataSends(t: Writer, d: Writer, data: map<int, seq<Target>>, nums: seq<int>)
    requires d.hc == t.hc && d.out == [] && Within(nums, data.Keys) && Within(nums, t.hc.changes.Keys)
    ensures d.out + DataSends(d, data, nums) == DataSends(t, data, nums)
  {
  }

  lemma NoGaps(w: Writer, gaps: map<int, seq<Target>>)
    requires gaps == map[]
    ensures Within(List(gaps.Keys), gaps.Keys) && SendGaps(w, gaps, List(gaps.Keys)) == w
  {
    assert List(gaps.Keys) == [];
  }

  lemma SentTo(t: Writer, ps: seq<Payload>, g: Guid)
    requires t.script == [] && t.out == [] && !t.panicked && t.hc.changes == Changes(ps) && AllAt(t, |ps|, Unsent)
    requires g in t.proxies
    ensures MsgsFor(SendUnsent(t).out, g) == Datas(ps)
  {
    hide AllAt, Plan, UpTo, DataSends, Datas, MsgsFor, SendUnsent, Names;
    SentIs(t, |ps|);
    AllUnsent(t, |ps|);
    forall n | 1 <= n <= |ps|
      ensures n in Plan(t, Guids(t), Unsent, true) && Names(Plan(t, Guids(t), Unsent, true)[n], g)
    {
      EachIsTarget(t, |ps|, g, n);
    }
    DataSendsFor(t, Plan(t, Guids(t), Unsent, true), ps, g);
  }

  lemma SentToAll(t: Writer, ps: seq<Payload>)
    requires t.script == [] && t.out == [] && !t.panicked && t.hc.changes == Changes(ps) && AllAt(t, |ps|, Unsent)
    ensures var r := SendUnsent(t);
      && r == DrainAll(t, Unsent).(out := r.out)
      && forall g :: g in t.proxies ==> MsgsFor(r.out, g) == Datas(ps)
  {
    hide AllAt, Plan, UpTo, DataSends, Datas, MsgsFor, SendUnsent;
    SentIs(t, |ps|);
    forall g | g in t.proxies
      ensures MsgsFor(SendUnsent(t).out, g) == Datas(ps)
    {
      SentTo(t, ps, g);
    }
  }

  lemma NoneAcked(w: Writer, ps: seq<Payload>, n: int)
    requires Unwritten(w) && 1 <= n <= |ps|
    ensures !AckedByAll(EnteredAt(w, ps), n)
  {
    var t := EnteredAt(w, ps);
    var some := Member(w.proxies.Keys);
    assert !IsAcked(t.proxies[some].state, n);
  }

  lemma DrainedWrites(w: Writer, ps: seq<Payload>)
    ensures DrainAll(EnteredAt(w, ps), Unsent) == Written(w, ps)
  {
    hide Changes, UpTo;
    var t := EnteredAt(w, ps);
    assert Drained(Entries(|ps|, Unsent), Unsent) == Entries(|ps|, Underway);
    forall g | g in w.proxies
      ensures DrainAll(t, Unsent).proxies[g] == Written(w, ps).proxies[g]
    {
    }
    assert DrainAll(t, Unsent).proxies == Written(w, ps).proxies;
  }

  lemma EnteredFacts(w: Writer, ps: seq<Payload>)
    requires Unwritten(w)
    ensures var t := EnteredAt(w, ps);
      && Numbered(t) && AllAt(t, |ps|, Unsent) && DrainAll(t, Unsent) == Written(w, ps)
      && forall base :: Removable(t, base) == {}
  {
    hide DrainAll, Written, AckedByAll;
    var t := EnteredAt(w, ps);
    DrainedWrites(w, ps);
    forall n | n in t.hc.changes
      ensures !AckedByAll(t, n)
    {
      NoneAcked(w, ps, n);
    }
  }

  /** One write command for all of `ps` sends each change to each reader, in order. */
  lemma FirstWrites(w: Writer, ps: seq<Payload>)
    requires Unwritten(w) && ps != []
    ensures Yield(Begin(w, [ps])).hc.unprocessed == UpTo(|ps|)
    ensures var r := ProcessWrites(Begin(w, [ps]));
      && r == Written(w, ps).(out := r.out)
      && forall g :: g in w.proxies ==> MsgsFor(r.out, g) == Datas(ps)
  {
    hide UpTo, AllAt, Numbered, Removable, RemoveAcked, SendUnsent, DrainAll, TakeUnprocessed, Changes, Entries;
    Entered(w, ps);
    EnteredFacts(w, ps);
    var w1, t := Yield(Begin(w, [ps])), EnteredAt(w, ps);
    assert 1 in w1.hc.unprocessed;
    NothingRemovable(t, Min(w1.hc.unprocessed));
    SentToAll(t, ps);
  }

  // ---- the same in a run ----

  lemma {:induction false} RunOn(s: Sys, a: seq<Step>, b: seq<Step>)
    ensures Run(s, a + b) == Run(Run(s, a), b)
    decreases |a|
  {
    hide Apply;
    if a == [] {
      assert a + b == b;
    } else {
      RunOn(Apply(s, a[0]), a[1..], b);
      assert (a + b)[1..] == a[1..] + b;
    }
  }

  lemma RunStep(s: Sys, step: Step, rest: seq<Step>)
    ensures Run(s, [step] + rest) == Run(Apply(s, step), rest)
  {
    hide Apply;
    assert ([step] + rest)[1..] == rest;
  }

  lemma RunAt(s: Sys, steps: seq<Step>, k: nat)
    requires k < |steps|
    ensures Run(s, steps[k..]) == Run(Apply(s, steps[k]), steps[k + 1..])
  {
    hide Apply;
    assert steps[k..][1..] == steps[k + 1..];
  }

  lemma NothingPosted(s: Sys)
    requires s.w.out == []
    ensures Post(s) == s.(w := s.w.(out := [], script := []))
  {
    var r := Post(s);
    forall g | g in s.peers
      ensures r.peers[g] == s.peers[g]
    {
      assert MsgsFor([], g) == [];
    }
    assert r.peers == s.peers;
  }

  lemma OwedIsKnown(cs: CacheState)
    ensures RelevantIn(cs) <= cs.Keys
  {
  }

  /** A reader is matched before anything has been written. */
  lemma MatchedEarly(s: Sys, g: Guid)
    requires s.w == Initial(s.w.cfg).(proxies := s.w.proxies) && g in s.peers && g !in s.w.proxies
    requires FreshPeer(s.peers[g]) && s.peers[g].durability == s.w.cfg.durability
    ensures var p := s.peers[g];
      Apply(s, WriterFinds(g, true, []))
        == s.(w := s.w.(proxies := s.w.proxies[g := Proxy(OwnLocators(p), p.durability, map[])]))
  {
    var p := s.peers[g];
    var w1 := AddReader(Begin(s.w, []), g, OwnLocators(p), ReaderQos(p.durability, true));
    assert Snapshot(s.w, p.durability) == map[];
    assert w1 == s.w.(proxies := s.w.proxies[g := Proxy(OwnLocators(p), p.durability, map[])]);
    OwedIsKnown(w1.proxies[g].state);
    assert RelevantIn(w1.proxies[g].state) == {} && p.(rel := {}) == p;
    assert SetPeer(s, g, p) == s;
    NothingPosted(s.(w := w1));
  }

  /** A peer that is owed all of `ps` and has it all on its link. */
  function Sent(p: Peer, ps: seq<Payload>): Peer {
    p.(rel := p.rel + UpTo(|ps|), link := p.link + Items(Datas(ps), |ps|), hi := |ps|)
  }

  lemma SentInRun(s: Sys, ps: seq<Payload>)
    requires Unwritten(s.w) && s.peers.Keys == s.w.proxies.Keys && ps != []
    ensures Apply(s, Step.WriteCommand([ps])) == Sys(Written(s.w, ps), map g | g in s.peers :: Sent(s.peers[g], ps))
  {
    hide UpTo, ProcessWrites, Changes, Entries;
    FirstWrites(s.w, ps);
    var w1 := ProcessWrites(Begin(s.w, [ps]));
    var owed := Owed(s.peers, s.w.proxies.Keys, UpTo(|ps|));
    assert Written(s.w, ps) == w1.(out := [], script := []);
    forall g | g in s.peers
      ensures Posted(owed[g], MsgsFor(w1.out, g), |ps|) == Sent(s.peers[g], ps)
    {
      assert Datas(ps) != [];
    }
    assert Post(Sys(w1, owed)).peers == map g | g in s.peers :: Sent(s.peers[g], ps);
  }

  // ---- a link that loses everything ----

  function Losses(g: Guid, k: nat): seq<Step> {
    seq(k, _ => Lose(g))
  }

  lemma {:induction false} AllLost(s: Sys, g: Guid, k: nat)
    requires g in s.peers && k == |s.peers[g].link|
    ensures Run(s, Losses(g, k)) == SetPeer(s, g, s.peers[g].(link := []))
    decreases k
  {
    if k == 0 {
      assert SetPeer(s, g, s.peers[g].(link := [])) == s;
    } else {
      var s1 := Apply(s, Lose(g));
      assert Losses(g, k)[1..] == Losses(g, k - 1);
      AllLost(s1, g, k - 1);
      assert s1.peers[g := s.peers[g].(link := [])] == s.peers[g := s.peers[g].(link := [])];
    }
  }

  // ---- an ACKNACK from one reader among others ----

  function Repairs(w: Writer, nums: seq<int>): seq<Msg>
    requires Within(nums, w.hc.changes.Keys)
  {
    seq(|nums|, i requires 0 <= i < |nums| => Data(nums[i], w.hc.changes[nums[i]]))
  }

  /** Everything requested is relevant and still cached. */
  ghost predicate Servable(w: Writer, g: Guid) {
    && w.script == [] && w.out == [] && w.anState == Waiting && w.cfg.nackDelayZero
    && g in w.proxies && w.proxies[g].locators.DataTargets() != []
    && forall n :: n in Numbers(w.proxies[g].state, Requested) ==> w.proxies[g].state[n].relevant && n in w.hc.changes
  }

  lemma RequestPlan(w: Writer, g: Guid)
    requires Servable(w, g)
    ensures Plan(w, [g], Requested, true).Keys == Numbers(w.proxies[g].state, Requested)
    ensures Plan(w, [g], Requested, false) == map[]
  {
    forall n
      ensures n in Plan(w, [g], Requested, true) <==> n in Numbers(w.proxies[g].state, Requested)
      ensures n !in Plan(w, [g], Requested, false)
    {
      PlanFor(w, g, true, n);
      PlanFor(w, g, false, n);
    }
  }

  lemma RepairSendsFor(w: Writer, g: Guid, nums: seq<int>)
    requires Servable(w, g) && nums == List(Numbers(w.proxies[g].state, Requested))
    requires Within(nums, Plan(w, [g], Requested, true).Keys) && Within(nums, w.hc.changes.Keys)
    ensures MsgsFor(RepairSends(w, Plan(w, [g], Requested, true), nums), g) == Repairs(w, nums)
  {
    var plan := Plan(w, [g], Requested, true);
    var out := RepairSends(w, plan, nums);
    forall i | 0 <= i < |out|
      ensures IsFor(out[i], g) && out[i].msg == Data(nums[i], w.hc.changes[nums[i]])
    {
      PlanFor(w, g, true, nums[i]);
      OneTargetIsFor(out[i], g);
    }
    AllMsgs(out, g);
  }

  /** Each request is answered with its DATA, in order, and nothing else changes. */
  lemma RequestsServed(w: Writer, g: Guid)
    requires Servable(w, g)
    ensures var r := Repair(w, g);
      var nums := List(Numbers(w.proxies[g].state, Requested));
      && r == w.(proxies := w.proxies[g := DrainProxy(w.proxies[g], Requested)], out := r.out)
      && Within(nums, w.hc.changes.Keys) && MsgsFor(r.out, g) == Repairs(w, nums)
  {
    hide Plan, RepairSends, MsgsFor, Repairs, DrainProxy;
    var data, gaps := Plan(w, [g], Requested, true), Plan(w, [g], Requested, false);
    RequestPlan(w, g);
    var nums := List(data.Keys);
    RepairSendsFor(w, g, nums);
    var a := w.(proxies := w.proxies[g := DrainProxy(w.proxies[g], Requested)]);
    assert List(gaps.Keys) == [];
    RepairSteps(a, data, nums, gaps, []);
    RepairSendsElsewhere(w, a, data, nums);
    assert RepairSends(w, data, nums) + GapSends(gaps, []) == RepairSends(w, data, nums);
  }

  lemma NackAnswered(w: Writer, g: Guid)
    requires Servable(w, g)
    ensures var r := AnswerNack(w, g);
      var nums := List(Numbers(w.proxies[g].state, Requested));
      && r == w.(proxies := w.proxies[g := DrainProxy(w.proxies[g], Requested)], out := r.out)
      && Within(nums, w.hc.changes.Keys) && MsgsFor(r.out, g) == Repairs(w, nums)
  {
    hide Repair, Repairs;
    if Numbers(w.proxies[g].state, Requested) == {} {
      NothingToDrain(w.proxies[g].state);
      NothingRepaired(w);
    } else {
      RequestsServed(w, g);
    }
  }

  lemma NothingRepaired(w: Writer)
    ensures Within([], w.hc.changes.Keys) && Repairs(w, []) == []
  {
  }
}
