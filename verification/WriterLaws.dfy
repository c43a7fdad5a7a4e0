/** What each handler of the writer does to cache, proxies and output, told by the fields
    themselves: which changes it forgets, what it sends, to whom, and where. */
module WriterLaws {
  import opened Types
  import opened Ascending
  import opened ReaderProxies
  import opened WriterModel
  import opened WriterInvariants

  // ---- where things are sent ----

  /** DATA, GAP and repairs prefer unicast, and a reader's own locators to its default ones. */
  function DataAddress(l: Locators): seq<Locator> {
    if l.unicast != [] then l.unicast
    else if l.defaultUnicast != [] then l.defaultUnicast
    else if l.multicast != [] then l.multicast
    else l.defaultMulticast
  }

  /** Heartbeats prefer multicast. */
  function HeartbeatAddress(l: Locators): seq<Locator> {
    if l.multicast != [] then l.multicast
    else if l.defaultMulticast != [] then l.defaultMulticast
    else if l.unicast != [] then l.unicast
    else l.defaultUnicast
  }

  // ---- to whom ----

  /** Reader `g` has change `n` in status `st`, relevant or not, and can be reached. */
  predicate Due(w: Writer, g: Guid, st: Status, n: int, relevant: bool) {
    && g in w.proxies && n in w.proxies[g].state
    && w.proxies[g].state[n].status == st && w.proxies[g].state[n].relevant == relevant
    && DataAddress(w.proxies[g].locators) != []
  }

  ghost predicate Named(to: seq<Target>, g: Guid) {
    exists i :: 0 <= i < |to| && to[i].guid == g
  }

  /** No reader twice, in GUID order. */
  ghost predicate InGuidOrder(to: seq<Target>) {
    forall i, j :: 0 <= i < j < |to| ==> to[i].guid < to[j].guid
  }

  /** `to` names exactly the readers among `gs` that are due, each once, at its own address. */
  ghost predicate Addressed(w: Writer, gs: set<Guid>, st: Status, n: int, relevant: bool, to: seq<Target>) {
    && InGuidOrder(to)
    && (forall i :: 0 <= i < |to| ==>
          && to[i].guid in gs && Due(w, to[i].guid, st, n, relevant)
          && to[i].locators == DataAddress(w.proxies[to[i].guid].locators))
    && (forall g :: g in gs && Due(w, g, st, n, relevant) ==> Named(to, g))
  }

  lemma NamedFirst(t: Target, rest: seq<Target>, g: Guid)
    ensures Named([t] + rest, g) <==> t.guid == g || Named(rest, g)
  {
    if t.guid == g {
      assert ([t] + rest)[0].guid == g;
    }
    if Named(rest, g) {
      var i :| 0 <= i < |rest| && rest[i].guid == g;
      assert ([t] + rest)[i + 1].guid == g;
    }
  }

  lemma {:induction false} TargetsExactly(w: Writer, gs: seq<Guid>, st: Status, n: int, relevant: bool)
    requires IsAscending(gs)
    ensures Addressed(w, NumbersIn(gs), st, n, relevant, TargetsAmong(w, gs, st, n, relevant))
    decreases |gs|
  {
    if gs != [] {
      var g, rest := gs[0], TargetsAmong(w, gs[1..], st, n, relevant);
      TargetsExactly(w, gs[1..], st, n, relevant);
      if Due(w, g, st, n, relevant) {
        AddressedFirst(w, gs, st, n, relevant, Target(g, DataAddress(w.proxies[g].locators)), rest);
      }
      assert forall h :: h in NumbersIn(gs) <==> h == g || h in NumbersIn(gs[1..]);
    }
  }

  lemma AddressedFirst(w: Writer, gs: seq<Guid>, st: Status, n: int, relevant: bool, t: Target, rest: seq<Target>)
    requires gs != [] && IsAscending(gs) && t.guid == gs[0] && Due(w, t.guid, st, n, relevant)
    requires t.locators == DataAddress(w.proxies[t.guid].locators)
    requires Addressed(w, NumbersIn(gs[1..]), st, n, relevant, rest)
    ensures Addressed(w, NumbersIn(gs), st, n, relevant, [t] + rest)
  {
    hide DataAddress;
    forall i | 0 <= i < |rest|
      ensures t.guid < rest[i].guid && rest[i].guid in gs
    {
      assert rest[i].guid in gs[1..];
    }
    forall h
      ensures Named([t] + rest, h) <==> h == t.guid || Named(rest, h)
    {
      NamedFirst(t, rest, h);
    }
    hide Named;
    assert forall h :: h in NumbersIn(gs) <==> h == t.guid || h in NumbersIn(gs[1..]);
  }

  /** `nums` are the numbers some reader among `gs` is due, ascending. */
  ghost predicate DueNumbers(w: Writer, gs: set<Guid>, st: Status, relevant: bool, nums: seq<int>) {
    && IsAscending(nums)
    && (forall n :: n in nums ==> exists g :: g in gs && Due(w, g, st, n, relevant))
    && (forall g, n :: g in gs && Due(w, g, st, n, relevant) ==> n in nums)
  }

  lemma WantsIsDue(w: Writer, g: Guid, st: Status, n: int, relevant: bool)
    ensures Wants(w, g, st, n, relevant) <==> Due(w, g, st, n, relevant)
    ensures Due(w, g, st, n, relevant) ==> g in w.proxies && n in w.proxies[g].state
  {
  }

  lemma WantedByOne(w: Writer, gs: seq<Guid>, st: Status, relevant: bool, n: int) returns (g: Guid)
    requires n in WantedNumbers(w, gs, st, relevant)
    ensures g in gs && Wants(w, g, st, n, relevant)
  {
    hide Wants;
    g :| g in gs && g in w.proxies && n in w.proxies[g].state && Wants(w, g, st, n, relevant);
  }

  lemma DueIsWanted(w: Writer, gs: seq<Guid>, st: Status, relevant: bool, g: Guid, n: int)
    requires g in gs && Due(w, g, st, n, relevant)
    ensures n in WantedNumbers(w, gs, st, relevant)
  {
    WantsIsDue(w, g, st, n, relevant);
    hide Wants, Due;
  }

  lemma NumbersDue(w: Writer, gs: seq<Guid>, st: Status, relevant: bool)
    ensures DueNumbers(w, NumbersIn(gs), st, relevant, List(WantedNumbers(w, gs, st, relevant)))
  {
    hide Wants, Due, WantedNumbers;
    var nums := List(WantedNumbers(w, gs, st, relevant));
    forall n | n in nums
      ensures exists g :: g in NumbersIn(gs) && Due(w, g, st, n, relevant)
    {
      var g := WantedByOne(w, gs, st, relevant, n);
      WantsIsDue(w, g, st, n, relevant);
      assert g in NumbersIn(gs) && Due(w, g, st, n, relevant);
    }
    forall g, n | g in NumbersIn(gs) && Due(w, g, st, n, relevant)
      ensures n in nums
    {
      DueIsWanted(w, gs, st, relevant, g, n);
    }
  }

  ghost predicate PlannedFor(w: Writer, gs: set<Guid>, st: Status, relevant: bool, plan: map<int, seq<Target>>) {
    && DueNumbers(w, gs, st, relevant, List(plan.Keys))
    && forall n :: n in plan ==> Addressed(w, gs, st, n, relevant, plan[n])
  }

  lemma PlanExactly(w: Writer, gs: seq<Guid>, st: Status, relevant: bool)
    requires IsAscending(gs)
    ensures PlannedFor(w, NumbersIn(gs), st, relevant, Plan(w, gs, st, relevant))
  {
    hide DueNumbers, Addressed, WantedNumbers, TargetsAmong;
    var plan := Plan(w, gs, st, relevant);
    NumbersDue(w, gs, st, relevant);
    assert plan.Keys == WantedNumbers(w, gs, st, relevant);
    forall n | n in plan
      ensures Addressed(w, NumbersIn(gs), st, n, relevant, plan[n])
    {
      TargetsExactly(w, gs, st, n, relevant);
    }
  }

  /** The settled changes: cached, and known to the proxies. */
  ghost function Known(w: Writer): set<int> {
    set n | n in w.hc.changes && n !in w.hc.unprocessed
  }

  ghost function Newest(s: set<int>): int {
    if s == {} then 0 else Max(s)
  }

  lemma NewestKnown(w: Writer)
    ensures Known(w) == Settled(w) && Newest(Known(w)) == MaxSettled(w)
  {
    assert Known(w) == Settled(w);
  }

  /** A cached change goes out as DATA; in place of one that is gone, a HEARTBEAT says that
      nothing at or below it is left. One that is not written yet may be by then. */
  ghost predicate Answer(w: Writer, n: int, m: Msg) {
    if n in w.hc.changes then m == Data(n, w.hc.changes[n])
    else m == Heartbeat(n + 1, Newest(Known(w)), false) || (n > w.hc.last && m.Data? && m.n == n)
  }

  /** DATA, or what takes its place, for each number due as relevant, in ascending order. */
  ghost predicate DataSent(w: Writer, gs: set<Guid>, st: Status, xs: seq<int>, sends: seq<Send>) {
    && DueNumbers(w, gs, st, true, xs) && |sends| == |xs|
    && forall i :: 0 <= i < |xs| ==> Answer(w, xs[i], sends[i].msg) && Addressed(w, gs, st, xs[i], true, sends[i].to)
  }

  ghost predicate GapsSent(w: Writer, gs: set<Guid>, st: Status, ys: seq<int>, sends: seq<Send>) {
    && DueNumbers(w, gs, st, false, ys) && |sends| == |ys|
    && forall i :: 0 <= i < |ys| ==> sends[i].msg == Gap(ys[i]) && Addressed(w, gs, st, ys[i], false, sends[i].to)
  }

  /** First the DATA, then the GAPs. */
  ghost predicate Dispatched(w: Writer, gs: set<Guid>, st: Status, xs: seq<int>, ys: seq<int>, sends: seq<Send>) {
    |sends| == |xs| + |ys| && DataSent(w, gs, st, xs, sends[..|xs|]) && GapsSent(w, gs, st, ys, sends[|xs|..])
  }

  /** Proxy `q` is `p` with every entry in status `st` turned to Underway. */
  ghost predicate NowUnderway(p: Proxy, q: Proxy, st: Status) {
    && q.locators == p.locators && q.durability == p.durability && q.state.Keys == p.state.Keys
    && forall n :: n in p.state ==>
         && q.state[n].relevant == p.state[n].relevant
         && q.state[n].status == if p.state[n].status == st then Underway else p.state[n].status
  }

  ghost predicate AllUnderway(w: Writer, r: Writer, st: Status) {
    r.proxies.Keys == w.proxies.Keys && forall g :: g in w.proxies ==> NowUnderway(w.proxies[g], r.proxies[g], st)
  }

  /** Nothing but these four has changed, and the cache only by what was written meanwhile. */
  ghost predicate OnlySent(w: Writer, r: Writer) {
    r == w.(hc := r.hc, proxies := r.proxies, out := r.out, script := r.script) && CacheGrown(w.hc, r.hc)
  }

  lemma GuidsAll(w: Writer)
    ensures NumbersIn(Guids(w)) == w.proxies.Keys && IsAscending(Guids(w))
  {
  }

  lemma UnsentPlanned(w: Writer)
    requires Agreement(w)
    ensures var data, gaps := Plan(w, Guids(w), Unsent, true), Plan(w, Guids(w), Unsent, false);
      && Within(List(data.Keys), w.hc.changes.Keys)
      && UnsentSends(w) == DataSends(w, data, List(data.Keys)) + GapSends(gaps, List(gaps.Keys))
  {
    hide DataSends, GapSends;
  }

  lemma GapsPlanned(w: Writer, gs: set<Guid>, st: Status, gaps: map<int, seq<Target>>)
    requires PlannedFor(w, gs, st, false, gaps)
    ensures GapsSent(w, gs, st, List(gaps.Keys), GapSends(gaps, List(gaps.Keys)))
  {
    hide Addressed, DueNumbers, IsAscending;
  }

  lemma DataPlanned(w: Writer, gs: set<Guid>, st: Status, data: map<int, seq<Target>>)
    requires PlannedFor(w, gs, st, true, data) && Within(List(data.Keys), w.hc.changes.Keys)
    ensures DataSent(w, gs, st, List(data.Keys), DataSends(w, data, List(data.Keys)))
  {
    hide Addressed, DueNumbers, IsAscending, Known;
  }

  lemma Halves(a: seq<Send>, b: seq<Send>)
    ensures (a + b)[..|a|] == a && (a + b)[|a|..] == b
  {
  }

  lemma UnsentDispatched(w: Writer) returns (xs: seq<int>, ys: seq<int>)
    requires Agreement(w)
    ensures Dispatched(w, w.proxies.Keys, Unsent, xs, ys, UnsentSends(w))
  {
    hide *;
    UnsentPlanned(w);
    PlanForAll(w);
    var data, gaps := Plan(w, Guids(w), Unsent, true), Plan(w, Guids(w), Unsent, false);
    xs, ys := List(data.Keys), List(gaps.Keys);
    DataPlanned(w, w.proxies.Keys, Unsent, data);
    GapsPlanned(w, w.proxies.Keys, Unsent, gaps);
    TwoParts(w, w.proxies.Keys, Unsent, xs, ys, DataSends(w, data, xs), GapSends(gaps, ys));
  }

  lemma PlanForAll(w: Writer)
    ensures PlannedFor(w, w.proxies.Keys, Unsent, true, Plan(w, Guids(w), Unsent, true))
    ensures PlannedFor(w, w.proxies.Keys, Unsent, false, Plan(w, Guids(w), Unsent, false))
  {
    GuidsAll(w);
    hide Plan, PlannedFor, Guids;
    PlanExactly(w, Guids(w), Unsent, true);
    PlanExactly(w, Guids(w), Unsent, false);
  }

  lemma TwoParts(w: Writer, gs: set<Guid>, st: Status, xs: seq<int>, ys: seq<int>, first: seq<Send>, last: seq<Send>)
    requires DataSent(w, gs, st, xs, first) && GapsSent(w, gs, st, ys, last)
    ensures Dispatched(w, gs, st, xs, ys, first + last)
  {
    hide Addressed, DueNumbers, Answer;
    Halves(first, last);
  }

  lemma DrainsAll(w: Writer, st: Status)
    ensures AllUnderway(w, DrainAll(w, st), st)
  {
  }

  /** Everything unsent goes out: DATA for what is relevant, then a GAP for each change that
      is not, each to exactly the readers it is due. */
  lemma UnsentGoesOut(w: Writer) returns (xs: seq<int>, ys: seq<int>, sends: seq<Send>)
    requires Agreement(w)
    ensures var r := SendUnsent(w);
      OnlySent(w, r) && AllUnderway(w, r, Unsent) && r.out == w.out + sends
    ensures Dispatched(w, w.proxies.Keys, Unsent, xs, ys, sends)
  {
    SendUnsentEffect(w);
    DrainsAll(w, Unsent);
    xs, ys := UnsentDispatched(w);
    sends := UnsentSends(w);
    hide SendUnsent, Dispatched, UnsentSends, Agreement, NowUnderway;
  }

  // ---- what is forgotten ----

  /** A change this proxy's reader still has to acknowledge. */
  predicate Awaits(p: Proxy, n: int) {
    n in p.state && p.state[n].relevant && p.state[n].status != Acknowledged
  }

  ghost predicate Awaited(w: Writer, n: int) {
    exists g :: g in w.proxies && Awaits(w.proxies[g], n)
  }

  /** Cached, at or below the bound, and awaited by nobody. */
  ghost function Spent(w: Writer, bound: int): set<int> {
    set n | n in w.hc.changes && n <= bound && !Awaited(w, n)
  }

  /** `r` is `w` without the spent changes, save for those the proxies have yet to be told of. */
  ghost predicate Forgets(w: Writer, bound: int, r: Writer) {
    && r == w.(hc := r.hc, proxies := r.proxies, script := r.script) && r.hc.last >= w.hc.last
    && (forall n :: n in r.hc.changes <==>
          (n in w.hc.changes && (n in w.hc.unprocessed || n !in Spent(w, bound))) || w.hc.last < n <= r.hc.last)
    && (forall n :: n in w.hc.changes && n in r.hc.changes ==> r.hc.changes[n] == w.hc.changes[n])
    && (forall n :: n in r.hc.unprocessed <==> n in w.hc.unprocessed || w.hc.last < n <= r.hc.last)
    && r.proxies.Keys == w.proxies.Keys
    && forall g :: g in w.proxies ==>
         r.proxies[g] == w.proxies[g].(state := w.proxies[g].state - Spent(w, bound))
  }

  /** A Volatile writer forgets up to the number it is given, a TransientLocal one up to the
      number below, so that the newest stays for readers still to come. */
  function UpTo(cfg: Config, base: int): int {
    if cfg.durability == Volatile then base else base - 1
  }

  lemma AwaitedExactly(w: Writer, n: int)
    ensures AckedByAll(w, n) <==> !Awaited(w, n)
  {
  }

  lemma RemovableIsSpent(w: Writer, base: int)
    ensures Removable(w, base) == Spent(w, UpTo(w.cfg, base))
  {
    forall n
      ensures AckedByAll(w, n) <==> !Awaited(w, n)
    {
      AwaitedExactly(w, n);
    }
    hide AckedByAll, Awaited;
  }

  lemma RemovedForgets(w: Writer, bound: int, r: Writer)
    requires Numbered(w) && Grown(Removed(w, Spent(w, bound)), r)
    ensures Forgets(w, bound, r)
  {
    var s := Spent(w, bound);
    assert s <= w.hc.changes.Keys;
    hide Spent;
    assert r.proxies == ProxiesWithout(w.proxies, s);
  }

  lemma ForgetsExactly(w: Writer, base: int)
    requires Numbered(w)
    ensures Forgets(Yield(w), UpTo(w.cfg, base), RemoveAcked(w, base))
  {
    RemoveAckedEffect(w, base);
    RemovableIsSpent(Yield(w), base);
    hide Removable, Spent, RemoveAcked, Removed, Forgets;
    RemovedForgets(Yield(w), UpTo(w.cfg, base), RemoveAcked(w, base));
  }

  // ---- the write command ----

  /** All that a KeepAll writer writes is sent; of a batch taken together, a KeepLast writer
      sends the newest `depth`, and one more if it is TransientLocal. */
  predicate OwedAsNews(cfg: Config, news: set<int>, n: int) {
    match cfg.history
    case KeepAll => true
    case KeepLast(depth) =>
      |set m | m in news && m > n| < if cfg.durability == TransientLocal then depth + 1 else depth
  }

  /** The proxy has a fresh entry for each of the news; in pull mode the reader has to ask. */
  predicate Learns(cfg: Config, news: set<int>, p: Proxy, q: Proxy) {
    && q.locators == p.locators && q.durability == p.durability && q.state.Keys == p.state.Keys + news
    && forall n :: n in q.state ==>
         if n in news
         then q.state[n] == ChangeForReader(if cfg.pushMode then Unsent else Unacknowledged, OwedAsNews(cfg, news, n))
         else n in p.state && q.state[n] == p.state[n]
  }

  ghost predicate Registers(w: Writer, r: Writer) {
    && r == w.(hc := w.hc.(unprocessed := {}), processed := w.hc.last, proxies := r.proxies)
    && r.proxies.Keys == w.proxies.Keys
    && forall g :: g in w.proxies ==> Learns(w.cfg, w.hc.unprocessed, w.proxies[g], r.proxies[g])
  }

  lemma RegistersExactly(w: Writer)
    ensures Registers(w, TakeUnprocessed(w))
  {
    hide Rank;
    forall n
      ensures RelevantOnWrite(w.cfg, w.hc.unprocessed, n) == OwedAsNews(w.cfg, w.hc.unprocessed, n)
    {
      RelevantIsOwed(w.cfg, w.hc.unprocessed, n);
    }
    hide RelevantOnWrite, OwedAsNews;
  }

  lemma RelevantIsOwed(cfg: Config, news: set<int>, n: int)
    ensures RelevantOnWrite(cfg, news, n) == OwedAsNews(cfg, news, n)
  {
  }

  /** A command that finds unprocessed changes tells every proxy of them, forgets what nobody
      awaits up to the oldest of them, and sends everything unsent. */
  lemma WriteCommandExactly(w: Writer)
    returns (taken: Writer, kept: Writer, xs: seq<int>, ys: seq<int>, sends: seq<Send>)
    requires Agreement(w) && Yield(w).hc.unprocessed != {}
    ensures Registers(Yield(w), taken) && Agreement(kept)
    ensures Forgets(Yield(taken), UpTo(w.cfg, Min(Yield(w).hc.unprocessed)), kept)
    ensures Dispatched(kept, kept.proxies.Keys, Unsent, xs, ys, sends)
    ensures var r := ProcessWrites(w);
      OnlySent(kept, r) && AllUnderway(kept, r, Unsent) && r.out == w.out + sends
  {
    YieldGrows(w);
    var w1 := Yield(w);
    AgreementGrown(w, w1);
    taken := TakeUnprocessed(w1);
    RegistersExactly(w1);
    AgreementTake(w1);
    var oldest := Min(w1.hc.unprocessed);
    kept := RemoveAcked(taken, oldest);
    ForgetsExactly(taken, oldest);
    AgreementRemoveAcked(taken, oldest);
    xs, ys, sends := UnsentGoesOut(kept);
    hide Agreement, RemoveAcked, SendUnsent, Forgets, OnlySent, AllUnderway, Dispatched, TakeUnprocessed, Registers, Numbered;
    KeptOut(taken, oldest);
  }

  lemma KeptOut(w: Writer, base: int)
    requires Numbered(w)
    ensures RemoveAcked(w, base).out == w.out && RemoveAcked(w, base).cfg == w.cfg
  {
    RemoveAckedEffect(w, base);
  }

  /** Reader `g` is owed `n` once the news are known. */
  predicate Owed(w: Writer, g: Guid, n: int) {
    g in w.proxies && if n in w.hc.unprocessed then OwedAsNews(w.cfg, w.hc.unprocessed, n) else Awaits(w.proxies[g], n)
  }

  ghost predicate OwedToSome(w: Writer, n: int) {
    exists g :: Owed(w, g, n)
  }

  lemma AwaitedOnceKnown(w: Writer, taken: Writer, n: int)
    requires Registers(w, taken)
    ensures Awaited(taken, n) <==> OwedToSome(w, n)
  {
    forall g | g in w.proxies
      ensures Awaits(taken.proxies[g], n) <==> Owed(w, g, n)
    {
      assert Learns(w.cfg, w.hc.unprocessed, w.proxies[g], taken.proxies[g]);
    }
    hide Learns, Awaits, OwedAsNews;
  }

  lemma KeptByCommand(w: Writer, taken: Writer, found: Writer, bound: int, kept: Writer, r: Writer, n: int)
    requires CacheNumbered(w.hc, w.processed) && Registers(w, taken) && Grown(taken, found)
    requires Forgets(found, bound, kept) && OnlySent(kept, r)
    ensures n in w.hc.changes ==> (n in r.hc.changes <==> n > bound || OwedToSome(w, n))
    ensures n in r.hc.changes && n !in w.hc.changes ==> n > w.hc.last
  {
    AwaitedOnceKnown(w, taken, n);
    hide OwedToSome;
    assert Awaited(found, n) <==> Awaited(taken, n);
    hide Awaited, Registers;
    assert n in w.hc.changes ==> n in found.hc.changes && n !in found.hc.unprocessed && n <= kept.hc.last;
  }

  /** After a write command that finds something new, a change cached before is still cached
      just if it lies above the bound that the oldest of the news sets, or is owed to some
      matched reader. */
  lemma WriteCommandKeeps(w: Writer)
    requires Agreement(w) && Yield(w).hc.unprocessed != {}
    ensures var w1, r := Yield(w), ProcessWrites(w);
      && (forall n :: n in w1.hc.changes ==>
            (n in r.hc.changes <==> n > UpTo(w.cfg, Min(w1.hc.unprocessed)) || OwedToSome(w1, n)))
      && (forall n :: n in r.hc.changes && n !in w1.hc.changes ==> n > w1.hc.last)
  {
    hide *;
    var w1, r := Yield(w), ProcessWrites(w);
    var taken, kept, xs, ys, sends := WriteCommandExactly(w);
    FoundNumbered(w, taken);
    var bound := UpTo(w.cfg, Min(w1.hc.unprocessed));
    forall n
      ensures n in w1.hc.changes ==> (n in r.hc.changes <==> n > bound || OwedToSome(w1, n))
      ensures n in r.hc.changes && n !in w1.hc.changes ==> n > w1.hc.last
    {
      KeptByCommand(w1, taken, Yield(taken), bound, kept, r, n);
    }
  }

  lemma FoundNumbered(w: Writer, taken: Writer)
    requires Agreement(w) && Registers(Yield(w), taken)
    ensures CacheNumbered(Yield(w).hc, Yield(w).processed) && Grown(taken, Yield(taken))
  {
    YieldGrows(w);
    YieldGrows(taken);
  }

  // ---- when a writer blocks ----

  /** How many of `m` writes fit into a cache that holds `cached`. */
  function Fitting(maxSamples: int, cached: nat, m: nat): nat {
    if maxSamples < 0 || cached + m < maxSamples then m
    else if cached + 1 < maxSamples then maxSamples - 1 - cached
    else 0
  }

  /** A limited cache never holds max_samples changes: it takes writes up to one less, and a
      negative limit is none. */
  lemma {:induction false} TakesWhatFits(c: Cache, maxSamples: int, ps: seq<Payload>, processed: int)
    requires CacheNumbered(c, processed)
    ensures var d, fit := WriteAll(c, maxSamples, ps), Fitting(maxSamples, |c.changes|, |ps|);
      d.written == c.written + ps[..fit] && |d.changes| == |c.changes| + fit
    decreases |ps|
  {
    if ps == [] {
      assert c.written + [] == c.written;
    } else {
      TakesNext(c, maxSamples, ps, processed);
      TakesWhatFits(Write(c, maxSamples, ps[0]), maxSamples, ps[1..], processed);
    }
  }

  lemma TakesNext(c: Cache, maxSamples: int, ps: seq<Payload>, processed: int)
    requires CacheNumbered(c, processed) && ps != []
    ensures var c1 := Write(c, maxSamples, ps[0]);
      var fit, rest := Fitting(maxSamples, |c.changes|, |ps|), Fitting(maxSamples, |c1.changes|, |ps| - 1);
      && CacheNumbered(c1, processed)
      && c1.written + ps[1..][..rest] == c.written + ps[..fit] && |c1.changes| + rest == |c.changes| + fit
  {
    var c1 := Write(c, maxSamples, ps[0]);
    var fit, rest := Fitting(maxSamples, |c.changes|, |ps|), Fitting(maxSamples, |c1.changes|, |ps| - 1);
    if Full(c, maxSamples) {
      assert fit == rest == 0;
      assert ps[1..][..0] == ps[..0];
    } else {
      OneMoreCached(c, ps[0]);
      hide CacheNumbered;
      assert rest == fit - 1;
      OneMoreTaken(c.written, ps, fit);
    }
  }

  lemma OneMoreCached(c: Cache, p: Payload)
    requires c.last + 1 !in c.changes
    ensures |c.changes[c.last + 1 := p]| == |c.changes| + 1
  {
  }

  lemma OneMoreTaken(written: seq<Payload>, ps: seq<Payload>, fit: nat)
    requires 0 < fit <= |ps|
    ensures written + [ps[0]] + ps[1..][..fit - 1] == written + ps[..fit]
  {
    assert [ps[0]] + ps[1..][..fit - 1] == ps[..fit];
  }

  /** Nothing was written meanwhile, and `r` has the readers and the settings of `w`. */
  predicate Quiet(w: Writer, r: Writer) {
    && r.script == [] && r.cfg == w.cfg && r.proxies.Keys == w.proxies.Keys
    && r.hc.last == w.hc.last && r.hc.written == w.hc.written && r.hc.unprocessed == w.hc.unprocessed
  }

  lemma {:induction false} QuietRemoval(w: Writer, nums: seq<int>)
    requires w.script == []
    ensures Quiet(w, RemoveEach(w, nums))
    decreases |nums|
  {
    if nums != [] {
      QuietRemoval(RemoveOne(w, nums[0]), nums[1..]);
    }
  }

  lemma {:induction false} QuietData(w: Writer, plan: map<int, seq<Target>>, nums: seq<int>)
    requires w.script == [] && Within(nums, plan.Keys)
    ensures Quiet(w, SendData(w, plan, nums))
    decreases |nums|
  {
    if nums != [] && nums[0] in w.hc.changes {
      QuietData(w.(out := w.out + [Send(Data(nums[0], w.hc.changes[nums[0]]), plan[nums[0]])]), plan, nums[1..]);
    }
  }

  lemma QuietDrain(w: Writer)
    requires w.script == []
    ensures Quiet(w, SendUnsent(w))
  {
    var gs := Guids(w);
    var data, gaps := Plan(w, gs, Unsent, true), Plan(w, gs, Unsent, false);
    var d := DrainAll(w, Unsent);
    QuietData(d, data, List(data.Keys));
    SendGapsEffect(SendData(d, data, List(data.Keys)), gaps, List(gaps.Keys));
  }

  /** When the application writes nothing meanwhile, a write command leaves nothing new. */
  lemma QuietCommand(w: Writer)
    requires w.script == []
    ensures Quiet(w.(hc := w.hc.(unprocessed := {})), ProcessWrites(w))
  {
    if w.hc.unprocessed != {} {
      var taken := TakeUnprocessed(w);
      var kept := RemoveAcked(taken, Min(w.hc.unprocessed));
      QuietRemoval(taken, List(Removable(taken, Min(w.hc.unprocessed))));
      assert Quiet(taken, kept);
      QuietDrain(kept);
      hide SendUnsent;
    }
  }

  /** Each write is followed by the command that hands it on. */
  ghost function WriteEach(w: Writer, ps: seq<Payload>): Writer
    decreases |ps|
  {
    if ps == [] then w else WriteEach(ProcessWrites(Begin(AppWrites(w, ps[0]), [])), ps[1..])
  }

  /** Nobody listens and everything written is handed on; a TransientLocal writer keeps the
      newest change. */
  ghost predicate Unheard(w: Writer) {
    && Agreement(w) && w.proxies.Keys == {} && w.hc.unprocessed == {}
    && w.hc.changes.Keys == if w.cfg.durability == TransientLocal && w.hc.last > 0 then {w.hc.last} else {}
  }

  lemma UnheardBlocked(w: Writer, p: Payload)
    requires Unheard(w) && Full(w.hc, w.cfg.maxSamples)
    ensures var r := ProcessWrites(Begin(AppWrites(w, p), []));
      Unheard(r) && r.cfg == w.cfg && r.hc == w.hc
  {
  }

  lemma Nobody(w: Writer, n: int)
    requires w.proxies.Keys == {}
    ensures !OwedToSome(w, n)
  {
  }

  lemma UnheardNext(w: Writer, p: Payload) returns (b: Writer)
    requires Unheard(w) && !Full(w.hc, w.cfg.maxSamples)
    ensures b == Begin(AppWrites(w, p), []) && Agreement(b) && Yield(b) == b
    ensures b.proxies.Keys == {} && b.hc.unprocessed == {w.hc.last + 1} && b.hc.last == w.hc.last + 1
    ensures b.hc.changes.Keys == w.hc.changes.Keys + {w.hc.last + 1} && b.hc.written == w.hc.written + [p]
  {
    b := Begin(AppWrites(w, p), []);
    WriteGrows(w, p);
  }

  lemma UnheardKeeps(b: Writer, n: int)
    requires Agreement(b) && b.script == [] && b.proxies.Keys == {} && n > 0
    requires b.hc.unprocessed == {n} && n in b.hc.changes && n == b.hc.last
    ensures ProcessWrites(b).hc.changes.Keys == if b.cfg.durability == TransientLocal then {n} else {}
  {
    hide ProcessWrites, OwedToSome, Agreement;
    var r := ProcessWrites(b);
    QuietCommand(b);
    AgreementProcessWrites(b);
    LastKnown(b);
    LastKnown(r);
    forall m
      ensures m in r.hc.changes <==> m == n && b.cfg.durability == TransientLocal
    {
      WriteCommandKeeps(b);
      Nobody(b, m);
    }
  }

  lemma UnheardWrites(w: Writer, p: Payload)
    requires Unheard(w) && !Full(w.hc, w.cfg.maxSamples)
    ensures var r := ProcessWrites(Begin(AppWrites(w, p), []));
      Unheard(r) && r.cfg == w.cfg && r.hc.written == w.hc.written + [p] && r.hc.last == w.hc.last + 1
  {
    LastKnown(w);
    var b := UnheardNext(w, p);
    QuietCommand(b);
    AgreementProcessWrites(b);
    hide ProcessWrites, Agreement, AppWrites;
    UnheardKeeps(b, w.hc.last + 1);
  }

  lemma LastKnown(w: Writer)
    requires Agreement(w)
    ensures w.hc.last >= 0 && forall n :: n in w.hc.changes ==> n <= w.hc.last
  {
  }

  lemma Held(w: Writer)
    requires Unheard(w)
    ensures |w.hc.changes| == if w.cfg.durability == TransientLocal && w.hc.last > 0 then 1 else 0
    ensures w.hc.last >= 0
  {
    assert |w.hc.changes| == |w.hc.changes.Keys|;
  }

  lemma {:induction false} UnheardRun(w: Writer, ps: seq<Payload>)
    requires Unheard(w) && (w.cfg.durability == TransientLocal ==> w.hc.last > 0)
    ensures WriteEach(w, ps).hc.written
         == if Full(w.hc, w.cfg.maxSamples) then w.hc.written else w.hc.written + ps
    decreases |ps|
  {
    hide Unheard, ProcessWrites, AppWrites, Begin;
    if ps != [] {
      var r := ProcessWrites(Begin(AppWrites(w, ps[0]), []));
      Held(w);
      if Full(w.hc, w.cfg.maxSamples) {
        UnheardBlocked(w, ps[0]);
      } else {
        UnheardWrites(w, ps[0]);
        Held(r);
        assert w.hc.written + ps == w.hc.written + [ps[0]] + ps[1..];
      }
      UnheardRun(r, ps[1..]);
    }
  }

  lemma {:induction false} BlockedRun(w: Writer, ps: seq<Payload>)
    requires Unheard(w) && Full(w.hc, w.cfg.maxSamples)
    ensures WriteEach(w, ps).hc == w.hc
    decreases |ps|
  {
    hide Unheard, ProcessWrites, AppWrites, Begin;
    if ps != [] {
      UnheardBlocked(w, ps[0]);
      BlockedRun(ProcessWrites(Begin(AppWrites(w, ps[0]), [])), ps[1..]);
    }
  }

  lemma UnheardAtFirst(cfg: Config)
    ensures Unheard(Initial(cfg))
  {
  }

  /** A writer without readers, whose commands follow each write, takes all that is written
      just if it is without limit, or the limit leaves room for one change to be written
      beside those it keeps: none if it is Volatile, the newest if it is TransientLocal. */
  lemma NeverBlocks(cfg: Config, ps: seq<Payload>)
    requires |ps| >= 2
    ensures WriteEach(Initial(cfg), ps).hc.written == ps
      <==> cfg.maxSamples < 0 || cfg.maxSamples >= if cfg.durability == Volatile then 2 else 3
  {
    hide Unheard, ProcessWrites, AppWrites, Begin;
    var w := Initial(cfg);
    UnheardAtFirst(cfg);
    var r := ProcessWrites(Begin(AppWrites(w, ps[0]), []));
    if Full(w.hc, cfg.maxSamples) {
      BlockedRun(w, ps);
    } else {
      UnheardWrites(w, ps[0]);
      Held(r);
      UnheardRun(r, ps[1..]);
      assert WriteEach(w, ps) == WriteEach(r, ps[1..]);
      assert [] + [ps[0]] + ps[1..] == ps;
    }
  }

  // ---- heartbeats ----

  /** `to` names each matched reader that can be reached once, in GUID order. */
  ghost predicate Everybody(w: Writer, gs: set<Guid>, to: seq<Target>) {
    && InGuidOrder(to)
    && (forall i :: 0 <= i < |to| ==>
          && to[i].guid in gs && to[i].guid in w.proxies
          && to[i].locators == HeartbeatAddress(w.proxies[to[i].guid].locators) != [])
    && (forall g :: g in gs && g in w.proxies && HeartbeatAddress(w.proxies[g].locators) != [] ==> Named(to, g))
  }

  lemma {:induction false} AudienceExactly(w: Writer, gs: seq<Guid>)
    requires IsAscending(gs)
    ensures Everybody(w, NumbersIn(gs), HeartbeatAudience(w, gs))
    decreases |gs|
  {
    if gs != [] {
      var g, rest := gs[0], HeartbeatAudience(w, gs[1..]);
      AudienceExactly(w, gs[1..]);
      if g in w.proxies && HeartbeatAddress(w.proxies[g].locators) != [] {
        EverybodyFirst(w, gs, Target(g, HeartbeatAddress(w.proxies[g].locators)), rest);
      }
      assert forall h :: h in NumbersIn(gs) <==> h == g || h in NumbersIn(gs[1..]);
    }
  }

  lemma EverybodyFirst(w: Writer, gs: seq<Guid>, t: Target, rest: seq<Target>)
    requires gs != [] && IsAscending(gs) && t.guid == gs[0] && t.guid in w.proxies
    requires t.locators == HeartbeatAddress(w.proxies[t.guid].locators) != []
    requires Everybody(w, NumbersIn(gs[1..]), rest)
    ensures Everybody(w, NumbersIn(gs), [t] + rest)
  {
    hide HeartbeatAddress;
    forall i | 0 <= i < |rest|
      ensures t.guid < rest[i].guid && rest[i].guid in gs
    {
      assert rest[i].guid in gs[1..];
    }
    forall h
      ensures Named([t] + rest, h) <==> h == t.guid || Named(rest, h)
    {
      NamedFirst(t, rest, h);
    }
    hide Named;
    assert forall h :: h in NumbersIn(gs) <==> h == t.guid || h in NumbersIn(gs[1..]);
  }

  /** What a heartbeat leaves cached of the changes the proxies know: the unacknowledged ones,
      and for readers still to come the newest, if the writer is TransientLocal. */
  ghost function LeftBy(w: Writer): set<int> {
    set n | n in Known(w) && (n > UpTo(w.cfg, Newest(Known(w))) || Awaited(w, n))
  }

  ghost predicate Trimmed(w: Writer, r: Writer) {
    && r == w.(hc := r.hc, proxies := r.proxies, script := r.script)
    && Known(r) == LeftBy(w) && r.proxies.Keys == w.proxies.Keys
    && forall g :: g in w.proxies ==>
         r.proxies[g] == w.proxies[g].(state := w.proxies[g].state - (Known(w) - LeftBy(w)))
  }

  lemma KnownGrown(a: Writer, b: Writer)
    requires Numbered(a) && Grown(a, b)
    ensures Known(a) == Known(b)
    ensures forall n :: Awaited(b, n) <==> Awaited(a, n)
  {
    assert forall n :: n in Known(a) <==> n in Known(b);
    forall n
      ensures Awaited(b, n) <==> Awaited(a, n)
    {
    }
  }

  lemma KnownProcessed(w: Writer, n: int)
    requires Numbered(w) && n in w.hc.changes
    ensures n in Known(w) <==> n <= w.processed
    ensures Newest(Known(w)) <= w.processed
  {
  }

  /** What is spent up to the newest known change is what a heartbeat does not leave. */
  lemma SpentUpToNewest(w: Writer)
    requires Numbered(w)
    ensures Spent(w, UpTo(w.cfg, Newest(Known(w)))) == Known(w) - LeftBy(w)
  {
    hide Numbered, Awaited, Known, Newest;
    assert Known(w) <= w.hc.changes.Keys by {
      KnownCached(w);
    }
    forall n | n in w.hc.changes
      ensures n in Known(w) <==> n <= w.processed
      ensures Newest(Known(w)) <= w.processed
    {
      KnownProcessed(w, n);
    }
  }

  lemma KnownCached(w: Writer)
    ensures Known(w) <= w.hc.changes.Keys
  {
  }

  lemma ForgetsKnown(w: Writer, r: Writer)
    requires Numbered(w) && Forgets(w, UpTo(w.cfg, Newest(Known(w))), r)
    ensures Trimmed(w, r)
  {
    SpentUpToNewest(w);
    LeftKnown(w);
    hide Awaited, Newest, Spent, LeftBy;
    forall n
      ensures n in Known(r) <==> n in LeftBy(w)
    {
    }
  }

  lemma LeftKnown(w: Writer)
    ensures LeftBy(w) <= Known(w)
  {
  }

  lemma LeftGrown(a: Writer, b: Writer)
    requires Numbered(a) && Grown(a, b)
    ensures Known(a) == Known(b) && LeftBy(a) == LeftBy(b)
  {
    KnownGrown(a, b);
    hide Known, Awaited;
    assert forall n :: n in LeftBy(a) <==> n in LeftBy(b);
  }

  lemma TrimExactly(w: Writer)
    requires Numbered(w)
    ensures Trimmed(w, Trim(w)) && Numbered(Trim(w))
  {
    TrimEffect(w);
    var w1 := Yield(w);
    var found, kept, r := Yield(w1), RemoveAcked(w1, MaxSettled(w1)), Trim(w);
    YieldGrows(w1);
    GrownTwice(w, w1, found);
    NewestKnown(w1);
    LeftGrown(w, w1);
    LeftGrown(w, found);
    ForgetsExactly(w1, MaxSettled(w1));
    assert Grown(kept, r) && Numbered(kept) by {
      RemoveAckedEffect(w1, MaxSettled(w1));
    }
    KnownGrown(kept, r);
    hide RemoveAcked, Trim, Forgets, Known, LeftBy, Newest, Awaited, Numbered, CacheGrown;
    ForgetsKnown(found, kept);
  }

  ghost predicate NobodyWaits(w: Writer) {
    forall n :: n in w.hc.changes ==> !Awaited(w, n)
  }

  lemma AllAckedExactly(w: Writer)
    ensures AllAcked(w) <==> NobodyWaits(w)
  {
    forall n
      ensures AckedByAll(w, n) <==> !Awaited(w, n)
    {
      AwaitedExactly(w, n);
    }
    hide AckedByAll, Awaited;
  }

  /** The audience of a heartbeat is every matched reader. */
  ghost predicate Told(w: Writer, to: seq<Target>) {
    Everybody(w, w.proxies.Keys, to)
  }

  lemma TrimmedAfter(w: Writer, w0: Writer)
    requires Numbered(w) && (w0 == w || (w0 == Yield(w) && Grown(w, w0)))
    ensures Trimmed(w, Trim(w0)) && Numbered(Trim(w0)) && LeftBy(w0) == LeftBy(w)
  {
    if w0 != w {
      LeftGrown(w, w0);
    }
    assert Numbered(w0);
    hide LeftBy, Known, Trim, Numbered, CacheGrown;
    TrimExactly(w0);
  }

  lemma RangeKnown(w: Writer)
    requires Numbered(w)
    ensures if Known(w) == {} then MinSettled(w) == 0
            else && MinSettled(w) == Min(Known(w)) && MaxSettled(w) == Max(Known(w))
                 && 1 <= Min(Known(w)) <= Max(Known(w))
  {
    NewestKnown(w);
  }

  lemma ToldAll(w: Writer, r: Writer)
    requires r.proxies == w.proxies
    ensures Told(r, HeartbeatAudience(w, Guids(w)))
  {
    GuidsAll(w);
    AudienceExactly(w, Guids(w));
    hide HeartbeatAddress, HeartbeatAudience, Guids, Named;
  }

  lemma AnnouncesLeft(w: Writer, liveliness: bool)
    requires Numbered(w)
    ensures var r := Announce(w, liveliness);
      && r == w.(out := r.out) && Told(r, HeartbeatAudience(w, Guids(w)))
      && r.out == w.out + if Known(w) == {} then [] else
           [Send(Heartbeat(Min(Known(w)), Max(Known(w)), liveliness), HeartbeatAudience(w, Guids(w)))]
  {
    RangeKnown(w);
    hide Known, HeartbeatAudience, Guids, Settled, MaxSettled, MinSettled, Told, Numbered;
    ToldAll(w, Announce(w, liveliness));
  }

  /** A periodic heartbeat is sent only while some reader has not acknowledged all that is
      cached, one for liveliness always. It trims the cache first, and announces exactly the
      range of what is left, to every matched reader; when nothing is left it is not sent. */
  lemma HeartbeatExactly(w: Writer, liveliness: bool) returns (to: seq<Target>)
    requires Agreement(w)
    ensures var w0, r := if liveliness then w else Yield(w), SendHeartbeat(w, liveliness);
      if !liveliness && NobodyWaits(w0) then r == w0
      else
        && Trimmed(w, r.(out := w.out)) && Told(r, to)
        && r.out == w.out + if LeftBy(w) == {} then [] else
             [Send(Heartbeat(Min(LeftBy(w)), Max(LeftBy(w)), liveliness), to)]
  {
    var w0 := if liveliness then w else Yield(w);
    to := HeartbeatAudience(Trim(w0), Guids(Trim(w0)));
    YieldGrows(w);
    AllAckedExactly(w0);
    if !(!liveliness && NobodyWaits(w0)) {
      TrimmedAfter(w, w0);
      AnnouncesLeft(Trim(w0), liveliness);
    }
  }

  // ---- requests and acknowledgements ----

  lemma AnswerNow(a: Writer, w: Writer, n: int)
    requires Numbered(a) && Grown(a, w.(out := a.out))
    ensures Answer(a, n, RepairMsg(Yield(w), n)) && Grown(a, Yield(w).(out := a.out)) && Yield(w).out == w.out
  {
    RepairStep(a, w, n);
    NewestKnown(a);
    var w1 := Yield(w).(out := a.out);
    GrownSettled(a, w1);
    assert MaxSettled(w1) == MaxSettled(Yield(w)) by {
      assert Settled(w1) == Settled(Yield(w));
    }
    hide Settled, Known, Newest, Yield, MaxSettled;
  }

  lemma {:induction false} RepairsEach(a: Writer, w: Writer, plan: map<int, seq<Target>>, nums: seq<int>)
    returns (sends: seq<Send>)
    requires Numbered(a) && Grown(a, w.(out := a.out)) && Within(nums, plan.Keys)
    ensures SendRepairs(w, plan, nums).out == w.out + sends && |sends| == |nums|
    ensures forall i :: 0 <= i < |nums| ==> Answer(a, nums[i], sends[i].msg) && sends[i].to == plan[nums[i]]
    decreases |nums|
  {
    if nums == [] {
      sends := [];
    } else {
      hide *;
      var w1, n := Yield(w), nums[0];
      AnswerNow(a, w, n);
      var first := Send(RepairMsg(w1, n), plan[n]);
      SendsFirst(w, plan, nums);
      WithinRest(nums, plan.Keys);
      var rest := RepairsEach(a, w1.(out := w1.out + [first]), plan, nums[1..]);
      sends := [first] + rest;
      assert w.out + sends == w.out + [first] + rest;
    }
  }

  lemma WithinRest(nums: seq<int>, s: set<int>)
    requires Within(nums, s) && nums != []
    ensures Within(nums[1..], s) && nums[0] in s
  {
  }

  lemma SendsFirst(w: Writer, plan: map<int, seq<Target>>, nums: seq<int>)
    requires nums != [] && Within(nums, plan.Keys)
    ensures var w1, n := Yield(w), nums[0];
      SendRepairs(w, plan, nums) == SendRepairs(w1.(out := w1.out + [Send(RepairMsg(w1, n), plan[n])]), plan, nums[1..])
  {
  }

  lemma DataAnswered(w: Writer, gs: set<Guid>, st: Status, data: map<int, seq<Target>>, sends: seq<Send>)
    requires PlannedFor(w, gs, st, true, data) && |sends| == |List(data.Keys)|
    requires forall i :: 0 <= i < |sends| ==>
      Answer(w, List(data.Keys)[i], sends[i].msg) && sends[i].to == data[List(data.Keys)[i]]
    ensures DataSent(w, gs, st, List(data.Keys), sends)
  {
    hide Addressed, DueNumbers, IsAscending, Answer;
  }

  /** Only reader `g` has been answered. */
  ghost predicate Answered(w: Writer, g: Guid, r: Writer) {
    && r == w.(hc := r.hc, proxies := r.proxies, anState := Waiting, out := r.out, script := r.script)
    && CacheGrown(w.hc, r.hc) && g in w.proxies && g in r.proxies && r.proxies == w.proxies[g := r.proxies[g]]
    && NowUnderway(w.proxies[g], r.proxies[g], Requested)
  }

  lemma RepairsThenGaps(a: Writer, data: map<int, seq<Target>>, xs: seq<int>, gaps: map<int, seq<Target>>, ys: seq<int>)
    returns (sends: seq<Send>)
    requires Numbered(a) && Within(xs, data.Keys) && Within(ys, gaps.Keys)
    ensures var r := SendGaps(SendRepairs(a, data, xs), gaps, ys);
      && r == a.(hc := r.hc, out := a.out + (sends + GapSends(gaps, ys)), script := r.script) && CacheGrown(a.hc, r.hc)
    ensures |sends| == |xs|
    ensures forall i :: 0 <= i < |xs| ==> Answer(a, xs[i], sends[i].msg) && sends[i].to == data[xs[i]]
  {
    hide *;
    RepairsFrame(a, data, xs, gaps, ys);
    sends := RepairsFromHere(a, data, xs);
    assert a.out + sends + GapSends(gaps, ys) == a.out + (sends + GapSends(gaps, ys));
  }

  lemma RepairsFromHere(a: Writer, data: map<int, seq<Target>>, xs: seq<int>) returns (sends: seq<Send>)
    requires Numbered(a) && Within(xs, data.Keys)
    ensures SendRepairs(a, data, xs).out == a.out + sends && |sends| == |xs|
    ensures forall i :: 0 <= i < |xs| ==> Answer(a, xs[i], sends[i].msg) && sends[i].to == data[xs[i]]
  {
    assert Grown(a, a);
    sends := RepairsEach(a, a, data, xs);
  }

  lemma RepairsFrame(a: Writer, data: map<int, seq<Target>>, xs: seq<int>, gaps: map<int, seq<Target>>, ys: seq<int>)
    requires Numbered(a) && Within(xs, data.Keys) && Within(ys, gaps.Keys)
    ensures var b := SendRepairs(a, data, xs); var r := SendGaps(b, gaps, ys);
      r == a.(hc := r.hc, out := b.out + GapSends(gaps, ys), script := r.script) && CacheGrown(a.hc, r.hc)
  {
    assert Grown(a, a);
    SendRepairsKeeps(a, a, data, xs);
    SendGapsEffect(SendRepairs(a, data, xs), gaps, ys);
    hide SendRepairs, SendGaps, GapSends, Numbered;
  }

  lemma DrainsOne(w: Writer, g: Guid) returns (a: Writer)
    requires Agreement(w) && g in w.proxies
    ensures a == w.(proxies := w.proxies[g := DrainProxy(w.proxies[g], Requested)]) && Agreement(a)
    ensures NowUnderway(w.proxies[g], a.proxies[g], Requested)
    ensures forall n, m :: Answer(a, n, m) <==> Answer(w, n, m)
  {
    a := w.(proxies := w.proxies[g := DrainProxy(w.proxies[g], Requested)]);
    assert Known(a) == Known(w);
  }

  lemma RepairAround(w: Writer, g: Guid) returns (sends: seq<Send>)
    requires Agreement(w) && g in w.proxies
    ensures Answered(w, g, Repair(w, g))
    ensures var data, gaps := Plan(w, [g], Requested, true), Plan(w, [g], Requested, false);
      && Repair(w, g).out == w.out + (sends + GapSends(gaps, List(gaps.Keys))) && |sends| == |List(data.Keys)|
      && forall i :: 0 <= i < |sends| ==>
           Answer(w, List(data.Keys)[i], sends[i].msg) && sends[i].to == data[List(data.Keys)[i]]
  {
    var a := DrainsOne(w, g);
    hide SendRepairs, SendGaps, Plan, Answer, GapSends, IsAscending, CacheGrown, NowUnderway;
    var data, gaps := Plan(w, [g], Requested, true), Plan(w, [g], Requested, false);
    sends := RepairsThenGaps(a, data, List(data.Keys), gaps, List(gaps.Keys));
  }

  /** All that reader `g` has requested is answered: DATA, or a HEARTBEAT for what is gone,
      then a GAP for each change that is not relevant to it. */
  lemma RepairExactly(w: Writer, g: Guid) returns (xs: seq<int>, ys: seq<int>, sends: seq<Send>)
    requires Agreement(w)
    ensures var r := Repair(w, g);
      if g !in w.proxies then r == w.(anState := Waiting)
      else Answered(w, g, r) && r.out == w.out + sends && Dispatched(w, {g}, Requested, xs, ys, sends)
  {
    hide Agreement, Answered, DataSent, GapsSent, Repair, IsAscending, Answer;
    if g in w.proxies {
      PlanForOne(w, g);
      var firsts := RepairAround(w, g);
      hide Plan, PlannedFor;
      var data, gaps := Plan(w, [g], Requested, true), Plan(w, [g], Requested, false);
      xs, ys := List(data.Keys), List(gaps.Keys);
      sends := firsts + GapSends(gaps, ys);
      DataAnswered(w, {g}, Requested, data, firsts);
      GapsPlanned(w, {g}, Requested, gaps);
      TwoParts(w, {g}, Requested, xs, ys, firsts, GapSends(gaps, ys));
    } else {
      xs, ys, sends := [], [], [];
      assert Repair(w, g) == w.(anState := Waiting) by {
        NobodyToRepair(w, g);
      }
    }
  }

  lemma PlanForOne(w: Writer, g: Guid)
    ensures PlannedFor(w, {g}, Requested, true, Plan(w, [g], Requested, true))
    ensures PlannedFor(w, {g}, Requested, false, Plan(w, [g], Requested, false))
  {
    hide Plan, PlannedFor;
    PlanExactly(w, [g], Requested, true);
    PlanExactly(w, [g], Requested, false);
    assert NumbersIn([g]) == {g};
  }

  lemma NobodyToRepair(w: Writer, g: Guid)
    requires g !in w.proxies
    ensures Repair(w, g) == w.(anState := Waiting)
  {
  }

  /** What an ACKNACK says about the proxy: below `base` everything is acknowledged, and what
      is requested is, whatever it was before. */
  predicate Acks(p: Proxy, base: int, req: set<int>, q: Proxy) {
    && q.locators == p.locators && q.durability == p.durability && q.state.Keys == p.state.Keys + req
    && forall n :: n in q.state ==>
         && q.state[n].relevant == (n in p.state ==> p.state[n].relevant)
         && if n in req then q.state[n].status == Requested
            else n in p.state && q.state[n].status == if n < base then Acknowledged else p.state[n].status
  }

  predicate Asks(p: Proxy) {
    exists n :: n in p.state && p.state[n].status == Requested
  }

  lemma AcksExactly(w: Writer, g: Guid, base: int, req: set<int>)
    requires g in w.proxies
    ensures var r := NoteAck(w, g, base, req);
      && g in r.proxies && r == w.(proxies := w.proxies[g := r.proxies[g]])
      && Acks(w.proxies[g], base, req, r.proxies[g])
      && (Numbers(r.proxies[g].state, Requested) != {} <==> Asks(r.proxies[g]))
  {
    var q := NoteAck(w, g, base, req).proxies[g];
    if Asks(q) {
      var n :| n in q.state && q.state[n].status == Requested;
      assert n in Numbers(q.state, Requested);
    }
    if Numbers(q.state, Requested) != {} {
      var n := Member(Numbers(q.state, Requested));
    }
  }

  /** An ACKNACK is noted; if the reader has anything requested and no answer is pending, it
      is answered, at once or when the delay is over; and what nobody awaits is forgotten, up
      to the last number the base acknowledges. */
  lemma AckNackExactly(w: Writer, g: Guid, base: int, req: set<int>)
    returns (noted: Writer, done: Writer, xs: seq<int>, ys: seq<int>, sends: seq<Send>)
    requires Agreement(w) && g in w.proxies
    ensures g in noted.proxies && noted == w.(proxies := w.proxies[g := noted.proxies[g]])
    ensures Acks(w.proxies[g], base, req, noted.proxies[g])
    ensures
      if w.anState != Waiting || !Asks(noted.proxies[g]) then done == noted
      else if !w.cfg.nackDelayZero then done == noted.(anState := MustRepair)
      else
        && Answered(noted, g, done) && done.out == noted.out + sends
        && Dispatched(noted, {g}, Requested, xs, ys, sends)
    ensures Forgets(Yield(done), UpTo(w.cfg, base - 1), HandleAckNack(w, g, base, req))
  {
    noted := NoteAck(w, g, base, req);
    AcksExactly(w, g, base, req);
    AgreementNoteAck(w, g, base, req);
    done := AnswerNack(noted, g);
    AgreementAnswerNack(noted, g);
    assert Numbered(done) && noted.anState != Repairing;
    hide NoteAck, Agreement, Repair, Numbered, Dispatched, Answered, Asks, Acks, Forgets;
    xs, ys, sends := RepairExactly(noted, g);
    ForgetsExactly(done, base - 1);
    assert done.cfg == w.cfg by {
      AnswerCfg(noted, g);
    }
  }

  lemma AnswerCfg(w: Writer, g: Guid)
    requires Agreement(w) && g in w.proxies
    ensures AnswerNack(w, g).cfg == w.cfg
  {
    var sends := RepairAround(w, g);
    hide Repair;
  }

  // ---- readers coming and going ----

  /** A reader announced again takes its new locators and durability, even when its policies
      no longer match, and keeps its state; a new one is matched if its policies match, and
      then knows all that is cached, relevant only if it is TransientLocal, and only the
      newest change. Nothing else changes. */
  lemma AddReaderExactly(w: Writer, g: Guid, locators: Locators, qos: ReaderQos)
    ensures var w1, r := Yield(w), AddReader(w, g, locators, qos);
      if g in w.proxies
      then r == w.(proxies := w.proxies[g := Proxy(locators, qos.durability, w.proxies[g].state)])
      else if !qos.restCompatible || (qos.durability == TransientLocal && w.cfg.durability == Volatile) then r == w
      else
        && g in r.proxies && r == w1.(proxies := w1.proxies[g := r.proxies[g]])
        && r.proxies[g].locators == locators && r.proxies[g].durability == qos.durability
        && r.proxies[g].state.Keys == w1.hc.changes.Keys
        && forall n :: n in w1.hc.changes ==>
             && r.proxies[g].state[n].status == (if w.cfg.pushMode then Unsent else Unacknowledged)
             && (r.proxies[g].state[n].relevant <==>
                   qos.durability == TransientLocal && forall m :: m in w1.hc.changes ==> m <= n)
  {
    var w1 := Yield(w);
    if g !in w.proxies && w1.hc.changes.Keys != {} {
      var newest := Max(w1.hc.changes.Keys);
      forall n | n in w1.hc.changes
        ensures n == newest <==> forall m :: m in w1.hc.changes ==> m <= n
      {
        assert newest in w1.hc.changes;
      }
    }
  }

  /** Whatever of `sends` is meant for reader `g` goes to `address`. */
  predicate GoesTo(sends: seq<Send>, g: Guid, address: seq<Locator>) {
    forall i, j :: 0 <= i < |sends| && 0 <= j < |sends[i].to| && sends[i].to[j].guid == g
      ==> sends[i].to[j].locators == address
  }

  lemma GoesToBoth(a: seq<Send>, b: seq<Send>, g: Guid, address: seq<Locator>)
    requires GoesTo(a, g, address) && GoesTo(b, g, address)
    ensures GoesTo(a + b, g, address)
  {
  }

  lemma DispatchedTo(w: Writer, gs: set<Guid>, st: Status, xs: seq<int>, ys: seq<int>, sends: seq<Send>, g: Guid)
    requires Dispatched(w, gs, st, xs, ys, sends) && g in w.proxies
    ensures GoesTo(sends, g, DataAddress(w.proxies[g].locators))
  {
    hide DataAddress, Due, DueNumbers, Answer, InGuidOrder, Named;
    var first, last, address := sends[..|xs|], sends[|xs|..], DataAddress(w.proxies[g].locators);
    assert first + last == sends;
    assert GoesTo(first, g, address);
    assert GoesTo(last, g, address);
    GoesToBoth(first, last, g, address);
  }

  lemma CommandAddress(w: Writer, g: Guid)
    requires Agreement(w) && g in w.proxies && w.script == [] && w.hc.unprocessed != {} && w.out == []
    ensures GoesTo(ProcessWrites(w).out, g, DataAddress(w.proxies[g].locators))
  {
    hide ProcessWrites, Agreement, OnlySent, AllUnderway, DataAddress, Dispatched, GoesTo, Spent, CacheGrown;
    assert Yield(w) == w;
    var taken, kept, xs, ys, sends := WriteCommandExactly(w);
    assert Learns(w.cfg, w.hc.unprocessed, w.proxies[g], taken.proxies[g]);
    assert g in kept.proxies && kept.proxies[g].locators == w.proxies[g].locators;
    assert [] + sends == sends;
    DispatchedTo(kept, kept.proxies.Keys, Unsent, xs, ys, sends, g);
  }

  lemma NothingToProcess(w: Writer)
    requires w.hc.unprocessed == {} && w.script == []
    ensures ProcessWrites(w) == w
  {
  }

  /** What is next written goes to the address the reader was last announced with. */
  lemma AnnouncedAgain(w: Writer, g: Guid, locators: Locators, qos: ReaderQos, p: Payload)
    requires Agreement(w) && g in w.proxies
    ensures GoesTo(ProcessWrites(Begin(AppWrites(AddReader(w, g, locators, qos), p), [])).out, g, DataAddress(locators))
  {
    var w1 := AddReader(w, g, locators, qos);
    AgreementAddReader(w, g, locators, qos);
    WriteGrows(w1, p);
    AgreementGrown(w1, AppWrites(w1, p));
    var b := Begin(AppWrites(w1, p), []);
    assert Agreement(b) && b.proxies[g].locators == locators && Yield(b) == b;
    hide AddReader, AppWrites, Agreement, ProcessWrites;
    if b.hc.unprocessed != {} {
      CommandAddress(b, g);
    } else {
      NothingToProcess(b);
    }
  }

  /** When a participant leaves, its readers go and all others stay as they are. */
  lemma RemoveReadersExactly(w: Writer, prefix: GuidPrefix)
    ensures var r := RemoveReaders(w, prefix);
      && r == w.(proxies := r.proxies)
      && forall g :: if g in w.proxies && !(prefix * 0x1_0000_0000 <= g < (prefix + 1) * 0x1_0000_0000)
                     then g in r.proxies && r.proxies[g] == w.proxies[g] else g !in r.proxies
  {
  }

  /** What the application writes while a handler waits for the lock. */
  lemma WritesMeanwhile(w: Writer, ps: seq<Payload>, rest: seq<seq<Payload>>)
    requires Numbered(w) && w.script == [ps] + rest
    ensures var r := Yield(w);
      && r == w.(hc := r.hc, script := rest)
      && r.hc.written == w.hc.written + ps[..Fitting(w.cfg.maxSamples, |w.hc.changes|, |ps|)]
  {
    TakesWhatFits(w.hc, w.cfg.maxSamples, ps, w.processed);
    assert w.script[1..] == rest;
  }
}