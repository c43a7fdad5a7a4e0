/** The RTPS StatefulWriter as the object its handlers update (src/rtps/writer.rs), each
    handler against the function of WriterModel that says what it does. */
module StatefulWriters {
  import opened Types
  import opened Ascending
  import opened ReaderProxies
  import H = HistoryCaches
  import A = DataWriters
  import P = ReaderProxyClass
  import M = WriterModel

  // ---- the numbers that have been handed to the proxies ----

  lemma SettledInCache(w: M.Writer, whc: H.HistoryCache, guid: Guid, n: int)
    requires w.hc.changes == A.Payloads(whc.changes, guid) && w.hc.unprocessed == whc.unprocessed
    requires A.OwnChanges(whc.changes, guid)
    ensures whc.IsSettled(n) <==> n in M.Settled(w)
  {
  }

  // ---- entries for new changes ----

  /** The entries of the numbers in `done` are in place. */
  ghost function RegisteredSome(cfg: M.Config, cs: CacheState, news: set<int>, done: set<int>): CacheState {
    map n | n in cs.Keys + done ::
      if n in done
      then ChangeForReader(if cfg.pushMode then Unsent else Unacknowledged, M.RelevantOnWrite(cfg, news, n))
      else cs[n]
  }

  lemma RegisteredOneMore(cfg: M.Config, cs: CacheState, news: set<int>, done: set<int>, n: int)
    ensures RegisteredSome(cfg, cs, news, done + {n})
         == RegisteredSome(cfg, cs, news, done)[n := ChangeForReader(if cfg.pushMode then Unsent else Unacknowledged,
                                                                      M.RelevantOnWrite(cfg, news, n))]
  {
  }

  lemma RegisteredAll(cfg: M.Config, cs: CacheState, news: set<int>)
    ensures RegisteredSome(cfg, cs, news, news) == M.Register(cfg, cs, news)
    ensures RegisteredSome(cfg, cs, news, {}) == cs
  {
  }

  /** Counted from the newest, the i-th number of an ascending list has rank i. */
  lemma {:induction false} RankInList(nums: seq<int>, news: set<int>, i: nat)
    requires IsAscending(nums) && (forall n :: n in nums <==> n in news) && i < |nums|
    ensures M.Rank(news, nums[|nums| - 1 - i]) == i
    decreases i
  {
    var k := |nums| - 1 - i;
    var above := set m | m in news && m > nums[k];
    if i == 0 {
      forall m | m in news ensures m <= nums[k] {
        var j :| 0 <= j < |nums| && nums[j] == m;
      }
      assert above == {};
    } else {
      RankInList(nums, news, i - 1);
      var fewer := set m | m in news && m > nums[k + 1];
      forall m | m in news
        ensures m > nums[k] <==> m == nums[k + 1] || m > nums[k + 1]
      {
        var j :| 0 <= j < |nums| && nums[j] == m;
        assert j <= k || j == k + 1 || k + 1 < j;
      }
      assert nums[k + 1] in nums;
      assert above == fewer + {nums[k + 1]};
    }
  }

  // ---- draining a proxy ----

  ghost function DrainedSome(cs: CacheState, visited: seq<int>): CacheState {
    map n | n in cs :: if n in visited then cs[n].(status := Underway) else cs[n]
  }

  lemma DrainedNone(cs: CacheState)
    ensures DrainedSome(cs, []) == cs
  {
  }

  lemma DrainedOneMore(cs: CacheState, visited: seq<int>, n: int)
    requires n in cs && n !in visited
    ensures n in DrainedSome(cs, visited) && DrainedSome(cs, visited)[n] == cs[n]
    ensures DrainedSome(cs, visited + [n]) == DrainedSome(cs, visited)[n := ChangeForReader(Underway, cs[n].relevant)]
  {
  }

  lemma TodoIs(cs: CacheState, st: Status)
    ensures var todo := List(Numbers(cs, st));
      IsAscending(todo) && forall n :: n in todo <==> n in cs && cs[n].status == st
  {
  }

  lemma DrainedEvery(cs: CacheState, st: Status)
    ensures DrainedSome(cs, List(Numbers(cs, st))) == Drained(cs, st)
  {
  }

  /** Of the entries still in status `st`, the first of the list is the smallest. */
  lemma NextIsFirst(cs: CacheState, st: Status, todo: seq<int>, i: nat, next: Option<int>)
    requires st != Underway && IsAscending(todo) && i <= |todo|
    requires forall n :: n in todo <==> n in cs && cs[n].status == st
    requires var now := DrainedSome(cs, todo[..i]);
      && (next.None? <==> forall n :: n in now ==> now[n].status != st)
      && (next.Some? ==> next.value in now && now[next.value].status == st)
      && (next.Some? ==> forall n :: n in now && now[n].status == st ==> next.value <= n)
    ensures if i == |todo| then next.None? else next == Some(todo[i])
  {
    var now := DrainedSome(cs, todo[..i]);
    forall n | n in now
      ensures now[n].status == st <==> n in todo && n !in todo[..i]
    {
    }
    if i < |todo| {
      assert todo[i] in todo && todo[i] !in todo[..i];
      assert todo[i] in now;
    } else {
      assert todo[..i] == todo;
    }
  }

  /** The submessage tables with the entries `visited` of one more proxy added. */
  ghost predicate IsWanted(p: M.Proxy, st: Status, relevant: bool, visited: seq<int>, n: int) {
    n in visited && n in p.state && p.state[n] == ChangeForReader(st, relevant) && p.locators.DataTargets() != []
  }

  ghost function PlanWith(plan: map<int, seq<M.Target>>, p: M.Proxy, g: Guid, st: Status, relevant: bool, visited: seq<int>)
    : map<int, seq<M.Target>>
  {
    map n | n in plan.Keys + (set k | k in visited && IsWanted(p, st, relevant, visited, k)) ::
      (if n in plan then plan[n] else [])
      + if IsWanted(p, st, relevant, visited, n) then [M.Target(g, p.locators.DataTargets())] else []
  }

  function Entered(plan: map<int, seq<M.Target>>, n: int, t: M.Target): map<int, seq<M.Target>> {
    plan[n := (if n in plan then plan[n] else []) + [t]]
  }

  lemma PlanWithNone(plan: map<int, seq<M.Target>>, p: M.Proxy, g: Guid, st: Status, relevant: bool)
    ensures PlanWith(plan, p, g, st, relevant, []) == plan
  {
    var r := PlanWith(plan, p, g, st, relevant, []);
    forall n | n in plan ensures r[n] == plan[n] {
      assert plan[n] + [] == plan[n];
    }
    assert r == plan;
  }

  lemma PlanWithOneMore(plan: map<int, seq<M.Target>>, p: M.Proxy, g: Guid, st: Status, relevant: bool, visited: seq<int>, n: int)
    requires n !in visited && n in p.state && p.state[n].status == st
    ensures var now := PlanWith(plan, p, g, st, relevant, visited);
      PlanWith(plan, p, g, st, relevant, visited + [n])
        == if p.state[n].relevant == relevant && p.locators.DataTargets() != []
           then Entered(now, n, M.Target(g, p.locators.DataTargets())) else now
  {
    var a := PlanWith(plan, p, g, st, relevant, visited + [n]);
    var now := PlanWith(plan, p, g, st, relevant, visited);
    var b := if p.state[n].relevant == relevant && p.locators.DataTargets() != []
             then Entered(now, n, M.Target(g, p.locators.DataTargets())) else now;
    forall m
      ensures IsWanted(p, st, relevant, visited + [n], m)
        <==> IsWanted(p, st, relevant, visited, m) || (m == n && IsWanted(p, st, relevant, [n], n))
    {
    }
    forall m | m in a ensures m in b && a[m] == b[m] {
      if m == n && m in plan {
        assert plan[n] + [] == plan[n];
      }
    }
    assert a == b;
  }

  // ---- the table over several proxies ----

  lemma {:induction false} TargetsMore(w: M.Writer, gs: seq<Guid>, g: Guid, st: Status, n: int, relevant: bool)
    ensures M.TargetsAmong(w, gs + [g], st, n, relevant)
         == M.TargetsAmong(w, gs, st, n, relevant)
            + if M.Wants(w, g, st, n, relevant) then [M.Target(g, w.proxies[g].locators.DataTargets())] else []
    decreases |gs|
  {
    if gs == [] {
      assert (gs + [g])[1..] == [];
    } else {
      TargetsMore(w, gs[1..], g, st, n, relevant);
      assert (gs + [g])[1..] == gs[1..] + [g];
    }
  }

  lemma InWanted(w: M.Writer, gs: seq<Guid>, st: Status, relevant: bool, n: int)
    ensures n in M.WantedNumbers(w, gs, st, relevant) <==> exists g :: g in gs && M.Wants(w, g, st, n, relevant)
  {
  }

  lemma {:induction false} NobodyWants(w: M.Writer, gs: seq<Guid>, st: Status, n: int, relevant: bool)
    requires forall g :: g in gs ==> !M.Wants(w, g, st, n, relevant)
    ensures M.TargetsAmong(w, gs, st, n, relevant) == []
    decreases |gs|
  {
    if gs != [] {
      NobodyWants(w, gs[1..], st, n, relevant);
    }
  }

  lemma PlanMore(w: M.Writer, gs: seq<Guid>, g: Guid, st: Status, relevant: bool, visited: seq<int>)
    requires g in w.proxies
    requires forall n :: n in visited <==> n in w.proxies[g].state && w.proxies[g].state[n].status == st
    ensures M.Plan(w, gs + [g], st, relevant)
         == PlanWith(M.Plan(w, gs, st, relevant), w.proxies[g], g, st, relevant, visited)
  {
    var a := M.Plan(w, gs + [g], st, relevant);
    var plan := M.Plan(w, gs, st, relevant);
    var b := PlanWith(plan, w.proxies[g], g, st, relevant, visited);
    forall n
      ensures n in a <==> n in b
      ensures n in a ==> a[n] == b[n]
    {
      InWanted(w, gs + [g], st, relevant, n);
      InWanted(w, gs, st, relevant, n);
      TargetsMore(w, gs, g, st, n, relevant);
      assert IsWanted(w.proxies[g], st, relevant, visited, n) <==> M.Wants(w, g, st, n, relevant);
      assert (exists h :: h in gs + [g] && M.Wants(w, h, st, n, relevant))
        <==> (exists h :: h in gs && M.Wants(w, h, st, n, relevant)) || M.Wants(w, g, st, n, relevant);
      if n !in plan {
        NobodyWants(w, gs, st, n, relevant);
      }
    }
    assert a == b;
  }

  method NoteAckAt(p: P.ReaderProxy, base: int, req: seq<int>)
    modifies p`cacheState
    ensures p.cacheState == WithRequested(ReaderProxies.AckedUpTo(old(p.cacheState), base - 1), NumbersIn(req))
  {
    p.AckedChangesSet(base - 1);
    p.RequestedChangesSet(req);
  }

  ghost function ProxyOf(p: P.ReaderProxy): M.Proxy
    reads p
  {
    M.Proxy(p.locators, p.durability, p.cacheState)
  }

  /** The loop over next_unsent_change or next_requested_change: each entry in that status
      is visited once, in ascending order, and nothing else changes. */
  method DrainOne(p: P.ReaderProxy, st: Status, data0: map<int, seq<M.Target>>, gaps0: map<int, seq<M.Target>>)
    returns (data: map<int, seq<M.Target>>, gaps: map<int, seq<M.Target>>, ghost visited: seq<int>)
    requires st != Underway
    modifies p`cacheState
    ensures p.cacheState == Drained(old(p.cacheState), st)
    ensures visited == List(Numbers(old(p.cacheState), st))
    ensures data == PlanWith(data0, old(ProxyOf(p)), p.remoteReaderGuid, st, true, visited)
    ensures gaps == PlanWith(gaps0, old(ProxyOf(p)), p.remoteReaderGuid, st, false, visited)
  {
    hide List, Numbers, DrainedSome, Drained, PlanWith, Entered;
    ghost var cs, proxy, g := p.cacheState, ProxyOf(p), p.remoteReaderGuid;
    ghost var todo := List(Numbers(cs, st));
    TodoIs(cs, st);
    ghost var i := 0;
    data, gaps, visited := data0, gaps0, [];
    DrainedNone(cs);
    PlanWithNone(data0, proxy, g, st, true);
    PlanWithNone(gaps0, proxy, g, st, false);
    var next := p.NextChange(st);
    while next.Some?
      invariant i <= |todo| && visited == todo[..i]
      invariant p.cacheState == DrainedSome(cs, visited)
      invariant data == PlanWith(data0, proxy, g, st, true, visited)
      invariant gaps == PlanWith(gaps0, proxy, g, st, false, visited)
      invariant next.None? <==> forall n :: n in p.cacheState ==> p.cacheState[n].status != st
      invariant next.Some? ==> next.value in p.cacheState && p.cacheState[next.value].status == st
      invariant next.Some? ==> forall n :: n in p.cacheState && p.cacheState[n].status == st ==> next.value <= n
      decreases |todo| - i
    {
      var n := next.value;
      NextIsFirst(cs, st, todo, i, next);
      assert n == todo[i] && todo[i] in todo && todo[i] !in todo[..i];
      DrainedOneMore(cs, visited, n);
      PlanWithOneMore(data0, proxy, g, st, true, visited, n);
      PlanWithOneMore(gaps0, proxy, g, st, false, visited, n);
      var relevant := p.cacheState[n].relevant;
      p.UpdateCacheState(n, relevant, Underway);
      var locators := p.locators.DataTargets();
      if locators != [] {
        if relevant {
          data := Entered(data, n, M.Target(p.remoteReaderGuid, locators));
        } else {
          gaps := Entered(gaps, n, M.Target(p.remoteReaderGuid, locators));
        }
      }
      visited, i := visited + [n], i + 1;
      next := p.NextChange(st);
    }
    NextIsFirst(cs, st, todo, i, next);
    assert todo[..i] == todo;
    DrainedEvery(cs, st);
  }

  class Writer {
    const guid: Guid
    const cfg: M.Config
    const app: A.DataWriter              // shares the cache through a lock
    var matched: map<Guid, P.ReaderProxy>
    var anState: M.AckNackState
    var out: seq<M.Send>
    var panicked: bool
    var script: seq<seq<Payload>>        // what the application writes at coming lock acquisitions
    ghost var processed: int

    constructor (guid: Guid, cfg: M.Config, app: A.DataWriter)
      requires app.Valid() && app.guid == guid && app.maxSamples == cfg.maxSamples
      requires app.View() == M.Cache(map[], {}, 0, [])
      ensures Valid() && Model() == M.Initial(cfg)
    {
      this.guid, this.cfg, this.app := guid, cfg, app;
      matched, anState, out, panicked, script, processed := map[], M.Waiting, [], false, [], 0;
    }

    ghost function Proxies(): set<P.ReaderProxy>
      reads this
    {
      set g | g in matched :: matched[g]
    }

    ghost predicate Valid()
      reads this, app, app.whc, Proxies()
    {
      && app.Valid() && app.guid == guid && app.maxSamples == cfg.maxSamples
      && forall g :: g in matched ==> matched[g].remoteReaderGuid == g
    }

    ghost function ProxyView(): map<Guid, M.Proxy>
      reads this, Proxies()
    {
      map g | g in matched :: ProxyOf(matched[g])
    }

    /** This writer as WriterModel sees it. */
    ghost function Model(): M.Writer
      reads this, app, app.whc, Proxies()
    {
      M.Writer(cfg, app.View(), processed, ProxyView(), anState, out, panicked, script)
    }

    /** Waiting for the lock on the cache lets the application's thread in. */
    method Lock()
      requires Valid()
      modifies this`script, app, app.whc
      ensures Valid() && Model() == M.Yield(old(Model()))
    {
      hide H.Agree, H.AllCached, A.InOrder, A.Payloads;
      if script != [] {
        var writes := script[0];
        script := script[1..];
        app.WriteEach(writes, 0);
      }
    }

    method IsAckedByAll(n: int) returns (acked: bool)
      requires Valid()
      ensures Valid() && Model() == old(Model())
      ensures acked <==> M.AckedByAll(Model(), n)
    {
      var rest := matched.Keys;
      while rest != {}
        invariant rest <= matched.Keys
        invariant forall g :: g in matched && g !in rest ==> IsAcked(matched[g].cacheState, n)
        decreases |rest|
      {
        var g := Pick(rest);
        var one := matched[g].IsAcked(n);
        if !one {
          assert !IsAcked(ProxyView()[g].state, n);
          return false;
        }
        rest := rest - {g};
      }
      assert forall g :: g in matched ==> ProxyView()[g].state == matched[g].cacheState;
      acked := true;
    }

    method RemoveFromProxies(n: int)
      requires Valid()
      modifies Proxies()`cacheState
      ensures Valid()
      ensures ProxyView() == map g | g in old(ProxyView()) :: old(ProxyView())[g].(state := old(ProxyView())[g].state - {n})
    {
      var rest := matched.Keys;
      while rest != {}
        invariant rest <= matched.Keys
        invariant forall g :: g in matched ==>
          matched[g].cacheState == if g in rest then old(matched[g].cacheState) else old(matched[g].cacheState) - {n}
        decreases |rest|
      {
        var g := Pick(rest);
        matched[g].RemoveCacheState(n);
        rest := rest - {g};
      }
      assert forall g :: g in matched ==> ProxyView()[g] == old(ProxyView())[g].(state := old(ProxyView())[g].state - {n});
    }

    /** HistoryCache::remove_change, which leaves an unprocessed change alone. */
    method ForgetChange(n: int)
      requires Valid()
      modifies app.whc
      ensures Valid() && app.View() == M.RemoveChange(old(app.View()), n)
    {
      hide H.Agree, H.AllCached, A.Payloads;
      A.PayloadsWithout(app.whc.changes, guid, n);
      A.WithoutAscends(app.whc.ts2key, H.Key(guid, n));
      app.whc.RemoveChange(H.Key(guid, n), false);
    }

    method RemoveOne(n: int)
      requires Valid()
      modifies app.whc, Proxies()`cacheState
      ensures Valid() && Model() == M.RemoveOne(old(Model()), n)
    {
      hide A.DataWriter.Valid, A.DataWriter.View, M.RemoveChange;
      ForgetChange(n);
      RemoveFromProxies(n);
    }

    /** The cached numbers in the order in which the map is walked. */
    method CachedNumbers() returns (nums: seq<int>)
      requires Valid()
      ensures Valid() && Model() == old(Model())
      ensures IsAscending(nums) && forall n :: n in nums <==> n in Model().hc.changes
    {
      hide H.Agree, H.AllCached, A.Payloads, H.Ascends, H.Lists;
      var keys := H.Walk(app.whc.changes.Keys);
      nums := [];
      var i := 0;
      while i < |keys|
        invariant i <= |keys| && nums == SeqNums(keys[..i])
      {
        assert keys[..i + 1][..i] == keys[..i];
        nums := nums + [keys[i].seqNum];
        i := i + 1;
      }
      assert keys[..i] == keys;
      OwnNumbers(keys, app.whc.changes, guid);
    }

    /** Which of them every matched reader has acknowledged, up to the bound `base` sets. */
    method AckedUpTo(base: int) returns (acked: seq<int>)
      requires Valid()
      ensures Valid() && Model() == old(Model()) && acked == List(M.Removable(Model(), base))
    {
      hide Valid, M.AckedByAll, A.DataWriter.View, ProxyView, List;
      ghost var w := Model();
      var bound := match cfg.durability
        case Volatile => base
        case TransientLocal => base - 1;
      var nums := CachedNumbers();
      acked := [];
      var i := 0;
      while i < |nums|
        invariant i <= |nums| && Valid() && Model() == w && IsAscending(acked)
        invariant forall n :: n in acked <==> n in nums[..i] && n <= bound && M.AckedByAll(w, n)
        invariant forall j, m :: 0 <= j < |acked| && i <= m < |nums| ==> acked[j] < nums[m]
      {
        assert nums[..i + 1] == nums[..i] + [nums[i]];
        var all := IsAckedByAll(nums[i]);
        if nums[i] <= bound && all {
          acked := acked + [nums[i]];
        }
        i := i + 1;
      }
      assert nums[..i] == nums;
      TodoIsRemovable(w, base, acked);
    }

    /** remove_acked_changes: the lock is given up between one change and the next. */
    method RemoveAckedChanges(base: int)
      requires Valid()
      modifies this`script, app, app.whc, Proxies()`cacheState
      ensures Valid() && Model() == M.RemoveAcked(old(Model()), base)
    {
      hide M.Yield, M.RemoveOne, M.AckedByAll, M.Removable, List, A.DataWriter.Valid, A.DataWriter.View;
      Lock();
      ghost var w := Model();
      var todo := AckedUpTo(base);
      var i := 0;
      assert todo[0..] == todo;
      while i < |todo|
        invariant i <= |todo| && Valid()
        invariant M.RemoveEach(Model(), todo[i..]) == M.RemoveEach(w, todo)
      {
        assert todo[i..][0] == todo[i] && todo[i..][1..] == todo[i + 1..];
        Lock();
        RemoveOne(todo[i]);
        i := i + 1;
      }
      assert todo[i..] == [];
      assert Model() == M.RemoveEach(w, todo);
      assert w == M.Yield(old(Model()));
      assert todo == List(M.Removable(w, base));
    }

    // ---- handle_write_data_cmd ----

    /** One new change is entered for every matched reader. */
    method RegisterOne(n: int, entry: ChangeForReader)
      requires Valid()
      modifies Proxies()`cacheState
      ensures Valid()
      ensures ProxyView() == map g | g in old(ProxyView()) :: old(ProxyView())[g].(state := old(ProxyView())[g].state[n := entry])
    {
      var rest := matched.Keys;
      while rest != {}
        invariant rest <= matched.Keys
        invariant forall g :: g in matched ==>
          matched[g].cacheState == if g in rest then old(matched[g].cacheState) else old(matched[g].cacheState)[n := entry]
        decreases |rest|
      {
        var g := Pick(rest);
        matched[g].UpdateCacheState(n, entry.relevant, entry.status);
        rest := rest - {g};
      }
      assert forall g :: g in matched ==> ProxyView()[g] == old(ProxyView())[g].(state := old(ProxyView())[g].state[n := entry]);
    }

    /** Newest first, so that the loop counter is the rank. */
    method RegisterAll(news: set<int>)
      requires Valid()
      modifies Proxies()`cacheState
      ensures Valid() && ProxyView() == RegisteredView(cfg, old(ProxyView()), news, news)
    {
      hide Valid, ProxyView, RegisteredView, M.RelevantOnWrite, NumbersIn, List;
      ghost var before := ProxyView();
      var nums := Walk(news);
      RegisteredViewNone(cfg, before, news);
      NumbersInList(news);
      var i := 0;
      while i < |nums|
        invariant i <= |nums| && Valid()
        invariant ProxyView() == RegisteredView(cfg, before, news, NumbersIn(nums[|nums| - i..]))
      {
        var n := nums[|nums| - 1 - i];
        RelevanceIsRank(cfg, news, i);
        var relevant := match cfg.history
          case KeepAll => true
          case KeepLast(depth) => (match cfg.durability
            case Volatile => i < depth
            case TransientLocal => i <= depth);
        RegisteredViewMore(cfg, before, news, NumbersIn(nums[|nums| - i..]), n);
        NumbersInSuffix(nums, i);
        RegisterOne(n, ChangeForReader(if cfg.pushMode then Unsent else Unacknowledged, relevant));
        i := i + 1;
      }
      assert nums[|nums| - i..] == nums;
    }

    /** get_unprocessed, then an entry for each new change in every proxy. */
    method TakeNews() returns (oldest: Option<int>)
      requires Valid()
      modifies this`processed, app.whc, Proxies()`cacheState
      ensures Valid()
      ensures var news := old(Model()).hc.unprocessed;
        if news == {} then oldest == None && Model() == old(Model())
        else oldest == Some(Min(news)) && Model() == M.TakeUnprocessed(old(Model()))
    {
      hide RegisteredView, A.Payloads, A.InOrder, H.Agree, H.AllCached, M.Register;
      var news := GetUnprocessed();
      if news == {} {
        oldest := None;
      } else {
        var min := Smallest(news);
        oldest := Some(min);
        RegisterAll(news);
        processed := app.last;
        RegisteredIsTaken(old(Model()));
      }
    }

    method GetUnprocessed() returns (news: set<int>)
      requires Valid()
      modifies app.whc
      ensures Valid() && news == old(app.View()).unprocessed && app.View() == old(app.View()).(unprocessed := {})
    {
      news := app.whc.GetUnprocessed();
    }

    method DrainNext(g: Guid, p: P.ReaderProxy, st: Status, data0: map<int, seq<M.Target>>, gaps0: map<int, seq<M.Target>>)
      returns (data: map<int, seq<M.Target>>, gaps: map<int, seq<M.Target>>)
      requires Valid() && g in matched && matched[g] == p && st != Underway
      modifies p`cacheState
      ensures Valid()
      ensures ProxyView() == old(ProxyView())[g := M.DrainProxy(old(ProxyView())[g], st)]
      ensures var was := old(ProxyView())[g];
        && data == PlanWith(data0, was, g, st, true, List(Numbers(was.state, st)))
        && gaps == PlanWith(gaps0, was, g, st, false, List(Numbers(was.state, st)))
    {
      hide PlanWith, Drained, List, Numbers, A.InOrder, H.Agree, H.AllCached;
      ghost var visited;
      data, gaps, visited := DrainOne(p, st, data0, gaps0);
      forall h | h in matched
        ensures ProxyView()[h] == if h == g then M.DrainProxy(old(ProxyView())[g], st) else old(ProxyView())[h]
      {
      }
    }

    method DrainList(gs: seq<Guid>, st: Status, ghost w: M.Writer)
      returns (data: map<int, seq<M.Target>>, gaps: map<int, seq<M.Target>>)
      requires Valid() && st != Underway && ProxyView() == w.proxies && gs == List(w.proxies.Keys)
      modifies Proxies()`cacheState
      ensures Valid() && ProxyView() == DrainedView(w.proxies, gs, st)
      ensures data == M.Plan(w, gs, st, true) && gaps == M.Plan(w, gs, st, false)
    {
      hide Valid, M.Plan, M.DrainProxy, PlanWith, DrainedView, ProxyView, List, Numbers;
      data, gaps := map[], map[];
      NothingPlanned(w, st);
      DrainedViewNone(w.proxies, st);
      var i := 0;
      assert gs[..0] == [];
      while i < |gs|
        invariant i <= |gs| && Valid() && ProxyView() == DrainedView(w.proxies, gs[..i], st)
        invariant data == M.Plan(w, gs[..i], st, true) && gaps == M.Plan(w, gs[..i], st, false)
      {
        DrainStep(w, gs, i, st);
        ViewKeys();
        data, gaps := DrainNext(gs[i], matched[gs[i]], st, data, gaps);
        i := i + 1;
      }
      assert gs[..i] == gs;
    }

    /** The drain loops over all proxies, in the order of their GUIDs. */
    method DrainProxies(st: Status) returns (data: map<int, seq<M.Target>>, gaps: map<int, seq<M.Target>>)
      requires Valid() && st != Underway
      modifies Proxies()`cacheState
      ensures var w := old(Model());
        && Valid() && Model() == M.DrainAll(w, st)
        && data == M.Plan(w, M.Guids(w), st, true) && gaps == M.Plan(w, M.Guids(w), st, false)
    {
      hide Valid, M.Plan, M.DrainProxy, DrainedView, ProxyView, List, A.DataWriter.View;
      ghost var w := Model();
      var gs := Walk(matched.Keys);
      ViewKeys();
      data, gaps := DrainList(gs, st, w);
      DrainedViewAll(w, gs, st);
    }

    method NumbersOf(plan: map<int, seq<M.Target>>) returns (nums: seq<int>)
      requires Valid()
      ensures Valid() && Model() == old(Model())
      ensures nums == List(plan.Keys) && Within(nums, plan.Keys)
    {
      nums := Walk(plan.Keys);
      WithinKeys(plan);
    }

    method Emit(send: M.Send)
      requires Valid()
      modifies this`out
      ensures Valid() && Model() == old(Model()).(out := old(Model()).out + [send])
    {
      out := out + [send];
    }

    /** Send the planned DATA; a change that is gone is an unreachable!(). */
    method SendData(data: map<int, seq<M.Target>>)
      requires Valid()
      modifies this`script, this`out, this`panicked, app, app.whc
      ensures Valid() && Model() == M.SendData(old(Model()), data, List(data.Keys))
    {
      hide Valid, Model, M.Yield, List;
      ghost var w := Model();
      var nums := NumbersOf(data);
      var i := 0;
      assert nums[0..] == nums;
      while i < |nums|
        invariant i <= |nums| && Valid() && Within(nums, data.Keys)
        invariant M.SendData(Model(), data, nums[i..]) == M.SendData(w, data, nums)
      {
        assert nums[i..][0] == nums[i] && nums[i..][1..] == nums[i + 1..];
        Lock();
        var change := GetChange(nums[i]);
        if change.None? {
          Panic();
          return;
        }
        Emit(M.Send(M.Data(nums[i], change.value), data[nums[i]]));
        i := i + 1;
      }
      assert nums[i..] == [];
    }

    method Panic()
      requires Valid()
      modifies this`panicked
      ensures Valid() && panicked && Model() == old(Model()).(panicked := true)
    {
      panicked := true;
    }

    method GetChange(n: int) returns (change: Option<Payload>)
      requires Valid()
      ensures Valid() && Model() == old(Model())
      ensures change == if n in Model().hc.changes then Some(Model().hc.changes[n]) else None
    {
      hide H.Agree, H.AllCached, A.Payloads;
      A.InPayloads(app.whc.changes, guid, n);
      var key := H.Key(guid, n);
      change := if key in app.whc.changes then app.whc.changes[key].data else None;
    }

    /** Send the planned GAPs, one for each number. */
    method SendGaps(gaps: map<int, seq<M.Target>>)
      requires Valid()
      modifies this`out
      ensures Valid() && Model() == M.SendGaps(old(Model()), gaps, List(gaps.Keys))
    {
      hide Valid, Model, List;
      ghost var w := Model();
      var nums := NumbersOf(gaps);
      var i := 0;
      assert nums[0..] == nums;
      while i < |nums|
        invariant i <= |nums| && Valid() && Within(nums, gaps.Keys)
        invariant M.SendGaps(Model(), gaps, nums[i..]) == M.SendGaps(w, gaps, nums)
      {
        assert nums[i..][0] == nums[i] && nums[i..][1..] == nums[i + 1..];
        Emit(M.Send(M.Gap(nums[i]), gaps[nums[i]]));
        i := i + 1;
      }
      assert nums[i..] == [];
    }

    /** handle_write_data_cmd: new changes are entered, acknowledged ones forgotten, and
        whatever has not been sent goes out. */
    method HandleWriteDataCmd()
      requires Valid()
      modifies this, app, app.whc, Proxies()`cacheState
      ensures Valid() && Model() == M.ProcessWrites(old(Model()))
    {
      hide Valid, Model, M.Yield, M.TakeUnprocessed, M.RemoveAcked, M.SendUnsent;
      Lock();
      var oldest := TakeNews();
      if oldest.Some? {
        RemoveAckedChanges(oldest.value);
        SendUnsent();
      }
    }

    method SendUnsent()
      requires Valid()
      modifies this, app, app.whc, Proxies()`cacheState
      ensures Valid() && Model() == M.SendUnsent(old(Model()))
    {
      hide Valid, M.Plan, M.DrainAll, M.SendData, M.SendGaps, List, ProxyView, A.DataWriter.View;
      var data, gaps := DrainProxies(Unsent);
      SendData(data);
      if !panicked {
        SendGaps(gaps);
      }
    }

    // ---- send_heart_beat ----

    method IsAckedAllChanges() returns (all: bool)
      requires Valid()
      ensures Valid() && Model() == old(Model()) && (all <==> M.AllAcked(Model()))
    {
      hide Valid, Model, M.AckedByAll;
      ghost var w := Model();
      var nums := CachedNumbers();
      var i := 0;
      while i < |nums|
        invariant i <= |nums| && Valid() && Model() == w
        invariant forall j :: 0 <= j < i ==> M.AckedByAll(w, nums[j])
      {
        var acked := IsAckedByAll(nums[i]);
        if !acked {
          assert nums[i] in nums;
          return false;
        }
        i := i + 1;
      }
      all := true;
    }

    method FirstAndLast() returns (first: int, last: int)
      requires Valid()
      ensures Valid() && Model() == old(Model())
      ensures first == M.MinSettled(Model()) && last == M.MaxSettled(Model())
    {
      hide H.Agree, H.AllCached, A.Payloads, M.Settled;
      first := app.whc.GetSeqNumMin();
      last := app.whc.GetSeqNumMax();
      ghost var w := Model();
      forall n ensures app.whc.IsSettled(n) <==> n in M.Settled(w) {
        SettledInCache(w, app.whc, guid, n);
      }
      FirstAndLastAre(w, first, last);
    }

    method GuidsInOrder() returns (gs: seq<Guid>)
      requires Valid()
      ensures Valid() && Model() == old(Model()) && gs == M.Guids(Model())
    {
      hide List, H.Agree, H.AllCached, A.InOrder;
      gs := Walk(matched.Keys);
      assert Model().proxies.Keys == matched.Keys;
    }

    method HeartbeatTarget(g: Guid) returns (to: seq<M.Target>)
      requires Valid()
      ensures Valid() && Model() == old(Model())
      ensures var ps := Model().proxies;
        to == if g in ps && ps[g].locators.HeartbeatTargets() != [] then [M.Target(g, ps[g].locators.HeartbeatTargets())] else []
    {
      to := [];
      if g in matched && matched[g].locators.HeartbeatTargets() != [] {
        to := [M.Target(g, matched[g].locators.HeartbeatTargets())];
      }
    }

    /** The readers a HEARTBEAT goes to, in the order of their GUIDs. */
    method Audience() returns (to: seq<M.Target>)
      requires Valid()
      ensures Valid() && Model() == old(Model()) && to == M.HeartbeatAudience(Model(), M.Guids(Model()))
    {
      hide Valid, Model, List;
      ghost var w := Model();
      var gs := GuidsInOrder();
      to := [];
      var i := 0;
      assert gs[0..] == gs && to + M.HeartbeatAudience(w, gs) == M.HeartbeatAudience(w, gs);
      while i < |gs|
        invariant i <= |gs| && Valid() && Model() == w
        invariant to + M.HeartbeatAudience(w, gs[i..]) == M.HeartbeatAudience(w, gs)
      {
        AudienceStep(w, gs, i, to);
        var one := HeartbeatTarget(gs[i]);
        to := to + one;
        i := i + 1;
      }
      assert gs[i..] == [] && to + [] == to;
    }

    method SendHeartBeat(liveliness: bool)
      requires Valid()
      modifies this`script, this`out, app, app.whc, Proxies()`cacheState
      ensures Valid() && Model() == M.SendHeartbeat(old(Model()), liveliness)
    {
      hide Valid, Model, M.Yield, M.AllAcked, M.RemoveAcked, M.MinSettled, M.MaxSettled, M.HeartbeatAudience, List;
      if !liveliness {
        Lock();
        var all := IsAckedAllChanges();
        if all {
          return;
        }
      }
      Lock();
      var first, last := FirstAndLast();
      RemoveAckedChanges(last);
      Lock();
      first, last := FirstAndLast();
      if !M.HeartbeatRangeOk(first, last) {
        return;
      }
      var to := Audience();
      Emit(M.Send(M.Heartbeat(first, last, liveliness), to));
    }

    // ---- handle_nack_response_timeout ----

    method SetState(state: M.AckNackState)
      requires Valid()
      modifies this`anState
      ensures Valid() && Model() == old(Model()).(anState := state)
    {
      anState := state;
    }

    method RepairMessage(n: int) returns (msg: M.Msg)
      requires Valid()
      ensures Valid() && Model() == old(Model())
      ensures var w := Model();
        msg == if n in w.hc.changes then M.Data(n, w.hc.changes[n]) else M.Heartbeat(n + 1, M.MaxSettled(w), false)
    {
      hide Valid, Model, M.MaxSettled, M.MinSettled;
      var change := GetChange(n);
      if change.Some? {
        msg := M.Data(n, change.value);
      } else {
        var first, last := FirstAndLast();
        msg := M.Heartbeat(n + 1, last, false);
      }
    }

    /** A requested change that is gone is answered with a HEARTBEAT that starts above it. */
    method SendRepairs(data: map<int, seq<M.Target>>)
      requires Valid()
      modifies this`script, this`out, app, app.whc
      ensures Valid() && Model() == M.SendRepairs(old(Model()), data, List(data.Keys))
    {
      hide Valid, Model, M.Yield, M.MaxSettled, M.SendRepairs, List;
      ghost var w := Model();
      var nums := NumbersOf(data);
      var i := 0;
      assert nums[0..] == nums;
      while i < |nums|
        invariant i <= |nums| && Valid() && Within(nums, data.Keys)
        invariant M.SendRepairs(Model(), data, nums[i..]) == M.SendRepairs(w, data, nums)
      {
        NextRepair(Model(), data, nums, i);
        Lock();
        var msg := RepairMessage(nums[i]);
        Emit(M.Send(msg, data[nums[i]]));
        i := i + 1;
      }
      NoRepairs(Model(), data, nums[i..]);
    }

    /** The requests of one reader, taken from its proxy. */
    method DrainRequests(g: Guid, p: P.ReaderProxy) returns (data: map<int, seq<M.Target>>, gaps: map<int, seq<M.Target>>)
      requires Valid() && g in matched && matched[g] == p
      modifies p`cacheState
      ensures Valid()
      ensures var w := old(Model());
        && g in w.proxies && Model() == w.(proxies := w.proxies[g := M.DrainProxy(w.proxies[g], Requested)])
        && data == M.Plan(w, [g], Requested, true) && gaps == M.Plan(w, [g], Requested, false)
    {
      hide M.Plan, PlanWith, Drained, List, Numbers, H.Agree, H.AllCached, A.InOrder, A.Payloads;
      ghost var w := Model();
      data, gaps := DrainNext(g, p, Requested, map[], map[]);
      OnePlan(w, g, Requested);
    }

    method HandleNackResponseTimeout(g: Guid)
      requires Valid()
      modifies this`anState, this`script, this`out, app, app.whc, Proxies()`cacheState
      ensures Valid() && Model() == M.Repair(old(Model()), g)
    {
      hide Valid, M.Plan, M.DrainProxy, List, ProxyView, A.DataWriter.View;
      ghost var w := Model();
      ViewKeys();
      SetState(M.Repairing);
      if g in matched {
        var data, gaps := DrainRequests(g, matched[g]);
        RepairOtherwise(w, g, M.Repairing);
        SendRepairs(data);
        SendGaps(gaps);
      }
      SetState(M.Waiting);
    }

    // ---- handle_acknack ----

    method NoteAck(g: Guid, p: P.ReaderProxy, base: int, req: seq<int>)
      requires Valid() && g in matched && matched[g] == p
      modifies p`cacheState
      ensures Valid() && g in old(Model()).proxies
      ensures Model() == M.NoteAck(old(Model()), g, base, NumbersIn(req))
    {
      hide WithRequested, ReaderProxies.AckedUpTo, H.Agree, H.AllCached, A.InOrder, A.Payloads;
      ghost var state := WithRequested(ReaderProxies.AckedUpTo(p.cacheState, base - 1), NumbersIn(req));
      NoteAckAt(p, base, req);
      assert forall h :: h in matched ==>
        ProxyView()[h] == if h == g then old(ProxyView())[h].(state := state) else old(ProxyView())[h];
    }

    method HasRequested(g: Guid) returns (some: bool)
      requires Valid() && g in matched
      ensures Valid() && Model() == old(Model()) && g in Model().proxies
      ensures some <==> Numbers(Model().proxies[g].state, Requested) != {}
    {
      hide H.Agree, H.AllCached, A.InOrder, A.Payloads;
      var next := matched[g].NextChange(Requested);
      some := next.Some?;
      SomeRequested(matched[g].cacheState, next);
    }

    method AnswerNack(g: Guid)
      requires Valid() && g in matched && anState != M.Repairing
      modifies this`anState, this`script, this`out, app, app.whc, Proxies()`cacheState
      ensures Valid() && g in old(Model()).proxies && Model() == M.AnswerNack(old(Model()), g)
    {
      hide Valid, M.Repair, ProxyView, A.DataWriter.View, Numbers;
      var some := HasRequested(g);
      if anState == M.Waiting && some {
        if cfg.nackDelayZero {
          HandleNackResponseTimeout(g);
        } else {
          SetState(M.MustRepair);
        }
      }
    }

    method HandleAckNack(g: Guid, base: int, req: seq<int>)
      requires Valid()
      modifies this, app, app.whc, Proxies()`cacheState
      ensures Valid() && Model() == M.HandleAckNack(old(Model()), g, base, NumbersIn(req))
    {
      hide Valid, M.NoteAck, M.AnswerNack, M.RemoveAcked, ProxyView, A.DataWriter.View;
      ViewKeys();
      if g in matched {
        NoteAck(g, matched[g], base, req);
        if anState == M.Repairing {
          Panic();
          return;
        }
        AnswerNack(g);
        RemoveAckedChanges(base - 1);
      }
    }

    // ---- readers coming and going ----

    /** matched_reader_add_with_default_locator; a new proxy needs a locator. */
    method MatchedReaderAdd(g: Guid, locators: Locators, qos: M.ReaderQos)
      requires Valid() && (g !in matched && M.Compatible(cfg, qos) ==> locators.NonEmpty())
      modifies this`matched, this`script, app, app.whc, Proxies()
      ensures Valid() && Model() == M.AddReader(old(Model()), g, locators, qos)
    {
      ViewKeys();
      if g in matched {
        UpdateReader(g, matched[g], locators, qos.durability);
      } else if M.Compatible(cfg, qos) {
        Lock();
        AddProxy(g, locators, qos.durability);
      }
    }

    method UpdateReader(g: Guid, p: P.ReaderProxy, locators: Locators, durability: Durability)
      requires Valid() && g in matched && matched[g] == p
      modifies p`locators, p`durability
      ensures Valid() && g in old(ProxyView())
      ensures Model() == old(Model()).(
        proxies := old(ProxyView())[g := old(ProxyView())[g].(locators := locators, durability := durability)])
    {
      hide H.Agree, H.AllCached, A.InOrder, A.Payloads;
      p.locators := locators;
      p.durability := durability;
      assert forall h :: h in matched ==>
        ProxyView()[h] == if h == g then old(ProxyView())[h].(locators := locators, durability := durability) else old(ProxyView())[h];
    }

    method AddProxy(g: Guid, locators: Locators, durability: Durability)
      requires Valid() && g !in matched && locators.NonEmpty()
      modifies this`matched
      ensures Valid()
      ensures Model() == old(Model()).(
        proxies := old(ProxyView())[g := M.Proxy(locators, durability, M.Snapshot(old(Model()), durability))])
    {
      hide Valid, Model, ProxyView, M.Snapshot;
      var p := NewProxy(g, locators, durability);
      Insert(g, p);
    }

    method Insert(g: Guid, p: P.ReaderProxy)
      requires Valid() && p.remoteReaderGuid == g
      modifies this`matched
      ensures Valid() && Model() == old(Model()).(proxies := old(ProxyView())[g := old(ProxyOf(p))])
    {
      hide H.Agree, H.AllCached, A.InOrder, A.Payloads;
      matched := matched[g := p];
      assert ProxyView() == old(ProxyView())[g := old(ProxyOf(p))];
    }

    method NewProxy(g: Guid, locators: Locators, durability: Durability) returns (p: P.ReaderProxy)
      requires Valid() && locators.NonEmpty()
      ensures Valid() && Model() == old(Model()) && ProxyView() == old(ProxyView())
      ensures fresh(p) && p.remoteReaderGuid == g
      ensures ProxyOf(p) == M.Proxy(locators, durability, M.Snapshot(old(Model()), durability))
    {
      hide M.Snapshot, P.StartsWith, H.KindsAgree, H.AllCached, A.Payloads;
      assert P.OneWriter(app.whc.changes.Keys);
      p := new P.ReaderProxy(g, locators, durability, false, app.whc, cfg.pushMode);
      SnapshotIs(old(Model()), app.whc.changes, app.whc.ts2key, guid, durability, p.cacheState);
    }

    method DeleteReaderProxy(prefix: GuidPrefix)
      requires Valid()
      modifies this`matched
      ensures Valid() && Model() == M.RemoveReaders(old(Model()), prefix)
    {
      hide Valid, Model, ProxyView;
      ghost var w := Model();
      var toDelete := ReadersOf(prefix);
      var rest := toDelete;
      NobodyGone(w.proxies, toDelete);
      while rest != {}
        invariant rest <= toDelete && Valid()
        invariant Model() == w.(proxies := w.proxies - (toDelete - rest))
        decreases |rest|
      {
        var g := PickReader(rest);
        OneMoreGone(w.proxies, toDelete, rest, g);
        MatchedReaderRemove(g);
        rest := rest - {g};
      }
      AllGone(w, toDelete, prefix);
    }

    method ReadersOf(prefix: GuidPrefix) returns (guids: set<Guid>)
      requires Valid()
      ensures Valid() && Model() == old(Model())
      ensures guids == set g | g in Model().proxies && PrefixOf(g) == prefix
    {
      guids := set g | g in matched && PrefixOf(g) == prefix;
    }

    method PickReader(guids: set<Guid>) returns (g: Guid)
      requires Valid() && guids != {}
      ensures Valid() && Model() == old(Model()) && g in guids
    {
      hide H.Agree, H.AllCached;
      g := Pick(guids);
    }

    method MatchedReaderRemove(g: Guid)
      requires Valid()
      modifies this`matched
      ensures Valid() && Model() == old(Model()).(proxies := old(Model()).proxies - {g})
    {
      hide H.Agree, H.AllCached, A.InOrder, A.Payloads;
      matched := matched - {g};
      assert ProxyView() == old(ProxyView()) - {g};
    }

    lemma ViewKeys()
      ensures ProxyView().Keys == matched.Keys
    {
    }
  }

  ghost function DrainedView(ps: map<Guid, M.Proxy>, gs: seq<Guid>, st: Status): map<Guid, M.Proxy> {
    map g | g in ps :: if g in gs then M.DrainProxy(ps[g], st) else ps[g]
  }

  lemma DrainedViewNone(ps: map<Guid, M.Proxy>, st: Status)
    ensures DrainedView(ps, [], st) == ps
  {
  }

  lemma DrainedViewMore(ps: map<Guid, M.Proxy>, gs: seq<Guid>, g: Guid, st: Status)
    requires g in ps && g !in gs
    ensures var now := DrainedView(ps, gs, st);
      now.Keys == ps.Keys && now[g] == ps[g]
      && DrainedView(ps, gs + [g], st) == now[g := M.DrainProxy(ps[g], st)]
  {
  }

  lemma DrainStep(w: M.Writer, gs: seq<Guid>, i: nat, st: Status)
    requires gs == List(w.proxies.Keys) && i < |gs|
    ensures var g, now := gs[i], DrainedView(w.proxies, gs[..i], st);
      && g in w.proxies && g in now && now[g] == w.proxies[g]
      && DrainedView(w.proxies, gs[..i + 1], st) == now[g := M.DrainProxy(w.proxies[g], st)]
    ensures var g := gs[i];
      var todo := List(Numbers(w.proxies[g].state, st));
      && M.Plan(w, gs[..i + 1], st, true) == PlanWith(M.Plan(w, gs[..i], st, true), w.proxies[g], g, st, true, todo)
      && M.Plan(w, gs[..i + 1], st, false) == PlanWith(M.Plan(w, gs[..i], st, false), w.proxies[g], g, st, false, todo)
  {
    hide List, M.Plan, PlanWith, M.DrainProxy, Numbers;
    GuidListed(w.proxies.Keys, gs, i);
    var g := gs[i];
    assert gs[..i + 1] == gs[..i] + [g];
    DrainedViewMore(w.proxies, gs[..i], g, st);
    TodoIs(w.proxies[g].state, st);
    PlanMore(w, gs[..i], g, st, true, List(Numbers(w.proxies[g].state, st)));
    PlanMore(w, gs[..i], g, st, false, List(Numbers(w.proxies[g].state, st)));
  }

  lemma DrainedViewAll(w: M.Writer, gs: seq<Guid>, st: Status)
    requires gs == List(w.proxies.Keys)
    ensures DrainedView(w.proxies, gs, st) == M.DrainAll(w, st).proxies
  {
  }

  lemma WithinKeys(plan: map<int, seq<M.Target>>)
    ensures Within(List(plan.Keys), plan.Keys)
  {
  }

  lemma FirstAndLastAre(w: M.Writer, first: int, last: int)
    requires (first == 0 && forall n :: n !in M.Settled(w)) || (first in M.Settled(w) && forall n :: n in M.Settled(w) ==> first <= n)
    requires (last == 0 && forall n :: n !in M.Settled(w)) || (last in M.Settled(w) && forall n :: n in M.Settled(w) ==> n <= last)
    ensures first == M.MinSettled(w) && last == M.MaxSettled(w)
  {
  }

  lemma AudienceStep(w: M.Writer, gs: seq<Guid>, i: nat, to: seq<M.Target>)
    requires i < |gs|
    ensures var g := gs[i];
      to + M.HeartbeatAudience(w, gs[i..])
        == to + (if g in w.proxies && w.proxies[g].locators.HeartbeatTargets() != []
                 then [M.Target(g, w.proxies[g].locators.HeartbeatTargets())] else [])
           + M.HeartbeatAudience(w, gs[i + 1..])
  {
  }

  lemma OnePlan(w: M.Writer, g: Guid, st: Status)
    requires g in w.proxies
    ensures var todo := List(Numbers(w.proxies[g].state, st));
      && M.Plan(w, [g], st, true) == PlanWith(map[], w.proxies[g], g, st, true, todo)
      && M.Plan(w, [g], st, false) == PlanWith(map[], w.proxies[g], g, st, false, todo)
  {
    hide List, M.Plan, PlanWith, Numbers;
    NothingPlanned(w, st);
    TodoIs(w.proxies[g].state, st);
    PlanMore(w, [], g, st, true, List(Numbers(w.proxies[g].state, st)));
    PlanMore(w, [], g, st, false, List(Numbers(w.proxies[g].state, st)));
    assert [] + [g] == [g];
  }

  // ---- sending does not depend on the state of the ACKNACK machine ----

  lemma YieldOtherwise(w: M.Writer, st: M.AckNackState)
    ensures M.Yield(w.(anState := st)) == M.Yield(w).(anState := st)
  {
  }

  lemma MaxSettledOtherwise(w: M.Writer, st: M.AckNackState)
    ensures M.MaxSettled(w.(anState := st)) == M.MaxSettled(w)
  {
  }

  lemma {:induction false} RepairsOtherwise(w: M.Writer, plan: map<int, seq<M.Target>>, nums: seq<int>, st: M.AckNackState)
    requires Within(nums, plan.Keys)
    ensures M.SendRepairs(w.(anState := st), plan, nums) == M.SendRepairs(w, plan, nums).(anState := st)
    decreases |nums|
  {
    if nums != [] {
      YieldOtherwise(w, st);
      var w1, n := M.Yield(w), nums[0];
      MaxSettledOtherwise(w1, st);
      var msg := if n in w1.hc.changes then M.Data(n, w1.hc.changes[n]) else M.Heartbeat(n + 1, M.MaxSettled(w1), false);
      RepairsOtherwise(w1.(out := w1.out + [M.Send(msg, plan[n])]), plan, nums[1..], st);
    }
  }

  lemma {:induction false} GapsOtherwise(w: M.Writer, plan: map<int, seq<M.Target>>, nums: seq<int>, st: M.AckNackState)
    requires Within(nums, plan.Keys)
    ensures M.SendGaps(w.(anState := st), plan, nums) == M.SendGaps(w, plan, nums).(anState := st)
    decreases |nums|
  {
    if nums != [] {
      GapsOtherwise(w.(out := w.out + [M.Send(M.Gap(nums[0]), plan[nums[0]])]), plan, nums[1..], st);
    }
  }

  lemma PlanOtherwise(w: M.Writer, gs: seq<Guid>, st: Status, relevant: bool, an: M.AckNackState)
    ensures M.Plan(w.(anState := an), gs, st, relevant) == M.Plan(w, gs, st, relevant)
  {
    var v := w.(anState := an);
    forall n
      ensures M.TargetsAmong(v, gs, st, n, relevant) == M.TargetsAmong(w, gs, st, n, relevant)
    {
      TargetsOtherwise(w, gs, st, n, relevant, an);
    }
    forall n
      ensures n in M.WantedNumbers(v, gs, st, relevant) <==> n in M.WantedNumbers(w, gs, st, relevant)
    {
      InWanted(v, gs, st, relevant, n);
      InWanted(w, gs, st, relevant, n);
      assert forall g :: M.Wants(v, g, st, n, relevant) <==> M.Wants(w, g, st, n, relevant);
    }
    assert M.Plan(v, gs, st, relevant) == M.Plan(w, gs, st, relevant);
  }

  lemma {:induction false} TargetsOtherwise(w: M.Writer, gs: seq<Guid>, st: Status, n: int, relevant: bool, an: M.AckNackState)
    ensures M.TargetsAmong(w.(anState := an), gs, st, n, relevant) == M.TargetsAmong(w, gs, st, n, relevant)
    decreases |gs|
  {
    if gs != [] {
      TargetsOtherwise(w, gs[1..], st, n, relevant, an);
    }
  }

  /** Repairing while the state says so ends where WriterModel says. */
  lemma RepairOtherwise(w: M.Writer, g: Guid, st: M.AckNackState)
    requires g in w.proxies
    ensures var v := w.(anState := st);
      var data, gaps := M.Plan(v, [g], Requested, true), M.Plan(v, [g], Requested, false);
      var w1 := v.(proxies := v.proxies[g := M.DrainProxy(v.proxies[g], Requested)]);
      && Within(List(data.Keys), data.Keys) && Within(List(gaps.Keys), gaps.Keys)
      && M.SendGaps(M.SendRepairs(w1, data, List(data.Keys)), gaps, List(gaps.Keys)).(anState := M.Waiting) == M.Repair(w, g)
  {
    hide List, M.Plan, M.DrainProxy;
    PlanOtherwise(w, [g], Requested, true, st);
    PlanOtherwise(w, [g], Requested, false, st);
    var data, gaps := M.Plan(w, [g], Requested, true), M.Plan(w, [g], Requested, false);
    WithinKeys(data);
    WithinKeys(gaps);
    var w1 := w.(proxies := w.proxies[g := M.DrainProxy(w.proxies[g], Requested)]);
    RepairsOtherwise(w1, data, List(data.Keys), st);
    GapsOtherwise(M.SendRepairs(w1, data, List(data.Keys)), gaps, List(gaps.Keys), st);
  }

  lemma SomeRequested(cs: CacheState, next: Option<int>)
    requires next.None? <==> forall n :: n in cs ==> cs[n].status != Requested
    requires next.Some? ==> next.value in cs && cs[next.value].status == Requested
    ensures next.Some? <==> Numbers(cs, Requested) != {}
  {
    if next.Some? {
      assert next.value in Numbers(cs, Requested);
    } else if Numbers(cs, Requested) != {} {
      var n := Member(Numbers(cs, Requested));
    }
  }

  // ---- the snapshot of a new proxy ----

  lemma SnapshotIs(w: M.Writer, changes: map<H.Key, H.CacheChange>, ts2key: seq<H.Key>, guid: Guid, durability: Durability, state: CacheState)
    requires w.hc.changes == A.Payloads(changes, guid) && A.OwnChanges(changes, guid)
    requires H.Ascends(ts2key) && H.Lists(ts2key, changes.Keys)
    requires ts2key == [] ==> state == map[]
    requires ts2key != [] ==> P.StartsWith(state, changes.Keys, ts2key[|ts2key| - 1], durability, false, w.cfg.pushMode)
    ensures state == M.Snapshot(w, durability)
  {
    hide M.Snapshot, A.Payloads, A.OwnChanges, P.StartsWith, H.Ascends, H.Lists;
    forall n
      ensures n in state <==> n in M.Snapshot(w, durability)
      ensures n in state ==> state[n] == M.Snapshot(w, durability)[n]
    {
      SnapshotAt(w, changes, ts2key, guid, durability, state, n);
    }
    assert state == M.Snapshot(w, durability);
  }

  lemma SnapshotAt(w: M.Writer, changes: map<H.Key, H.CacheChange>, ts2key: seq<H.Key>, guid: Guid, durability: Durability,
                   state: CacheState, n: int)
    requires w.hc.changes == A.Payloads(changes, guid) && A.OwnChanges(changes, guid)
    requires H.Ascends(ts2key) && H.Lists(ts2key, changes.Keys)
    requires ts2key == [] ==> state == map[]
    requires ts2key != [] ==> P.StartsWith(state, changes.Keys, ts2key[|ts2key| - 1], durability, false, w.cfg.pushMode)
    ensures n in state <==> n in M.Snapshot(w, durability)
    ensures n in state ==> state[n] == M.Snapshot(w, durability)[n]
  {
    hide A.Payloads, H.Ascends;
    A.InPayloads(changes, guid, n);
    var key := H.Key(guid, n);
    assert key in ts2key <==> key in changes;
    if ts2key != [] {
      LatestIsMax(w, changes, ts2key, guid);
      var latest := ts2key[|ts2key| - 1];
      assert latest in ts2key && latest in changes && latest.guid == guid;
      if n in state {
        var k :| k in changes && k.seqNum == n;
        assert k == key;
      }
    }
  }

  lemma LatestIsMax(w: M.Writer, changes: map<H.Key, H.CacheChange>, ts2key: seq<H.Key>, guid: Guid)
    requires w.hc.changes == A.Payloads(changes, guid) && A.OwnChanges(changes, guid)
    requires H.Ascends(ts2key) && H.Lists(ts2key, changes.Keys) && ts2key != []
    ensures w.hc.changes.Keys != {} && Max(w.hc.changes.Keys) == ts2key[|ts2key| - 1].seqNum
  {
    var latest := ts2key[|ts2key| - 1];
    assert latest in ts2key && latest == H.Key(guid, latest.seqNum);
    A.InPayloads(changes, guid, latest.seqNum);
    var max := Max(w.hc.changes.Keys);
    A.InPayloads(changes, guid, max);
    assert H.Key(guid, max) in ts2key;
    var i :| 0 <= i < |ts2key| && ts2key[i] == H.Key(guid, max);
  }

  lemma NobodyGone(ps: map<Guid, M.Proxy>, guids: set<Guid>)
    ensures ps - (guids - guids) == ps
  {
  }

  lemma OneMoreGone(ps: map<Guid, M.Proxy>, guids: set<Guid>, rest: set<Guid>, g: Guid)
    requires g in rest && rest <= guids
    ensures ps - (guids - (rest - {g})) == ps - (guids - rest) - {g}
  {
  }

  lemma AllGone(w: M.Writer, guids: set<Guid>, prefix: GuidPrefix)
    requires guids == set g | g in w.proxies && PrefixOf(g) == prefix
    ensures w.(proxies := w.proxies - (guids - {})) == M.RemoveReaders(w, prefix)
  {
  }

  function SeqNums(keys: seq<H.Key>): seq<int> {
    if keys == [] then [] else SeqNums(keys[..|keys| - 1]) + [keys[|keys| - 1].seqNum]
  }

  lemma {:induction false} SeqNumAt(keys: seq<H.Key>)
    ensures |SeqNums(keys)| == |keys| && forall i :: 0 <= i < |keys| ==> SeqNums(keys)[i] == keys[i].seqNum
    decreases |keys|
  {
    if keys != [] {
      SeqNumAt(keys[..|keys| - 1]);
    }
  }

  /** A writer's keys, listed in order, are its numbers listed in order. */
  lemma OwnNumbers(keys: seq<H.Key>, changes: map<H.Key, H.CacheChange>, guid: Guid)
    requires H.Ascends(keys) && H.Lists(keys, changes.Keys) && A.OwnChanges(changes, guid)
    ensures IsAscending(SeqNums(keys))
    ensures forall n :: n in SeqNums(keys) <==> n in A.Payloads(changes, guid)
  {
    var nums := SeqNums(keys);
    SeqNumAt(keys);
    forall i | 0 <= i < |keys| ensures keys[i] == H.Key(guid, nums[i]) {
      assert keys[i] in keys;
    }
    forall i, j | 0 <= i < j < |nums| ensures nums[i] < nums[j] {
      assert H.Before(keys[i], keys[j]);
    }
    forall n ensures n in nums <==> n in A.Payloads(changes, guid) {
      A.InPayloads(changes, guid, n);
      assert n in nums <==> H.Key(guid, n) in keys;
    }
  }

  lemma NextRepair(w: M.Writer, plan: map<int, seq<M.Target>>, nums: seq<int>, i: nat)
    requires i < |nums| && Within(nums, plan.Keys)
    ensures var w1, n := M.Yield(w), nums[i];
      var msg := if n in w1.hc.changes then M.Data(n, w1.hc.changes[n]) else M.Heartbeat(n + 1, M.MaxSettled(w1), false);
      M.SendRepairs(w, plan, nums[i..]) == M.SendRepairs(w1.(out := w1.out + [M.Send(msg, plan[n])]), plan, nums[i + 1..])
  {
  }

  lemma NoRepairs(w: M.Writer, plan: map<int, seq<M.Target>>, nums: seq<int>)
    requires nums == []
    ensures M.SendRepairs(w, plan, nums) == w
  {
  }

  lemma GuidListed(guids: set<Guid>, gs: seq<Guid>, i: nat)
    requires gs == List(guids) && i < |gs|
    ensures gs[i] in guids && gs[i] !in gs[..i]
  {
  }

  lemma NothingPlanned(w: M.Writer, st: Status)
    ensures M.Plan(w, [], st, true) == map[] && M.Plan(w, [], st, false) == map[]
  {
  }

  lemma RegisteredIsTaken(w: M.Writer)
    ensures RegisteredView(w.cfg, w.proxies, w.hc.unprocessed, w.hc.unprocessed) == M.TakeUnprocessed(w).proxies
  {
    var a, b := RegisteredView(w.cfg, w.proxies, w.hc.unprocessed, w.hc.unprocessed), M.TakeUnprocessed(w).proxies;
    forall g | g in w.proxies ensures a[g] == b[g] {
      RegisteredAll(w.cfg, w.proxies[g].state, w.hc.unprocessed);
    }
    assert a == b;
  }

  lemma NumbersInSuffix(nums: seq<int>, i: nat)
    requires i < |nums|
    ensures NumbersIn(nums[|nums| - 1 - i..]) == NumbersIn(nums[|nums| - i..]) + {nums[|nums| - 1 - i]}
  {
  }

  lemma NumbersInList(news: set<int>)
    ensures NumbersIn(List(news)) == news
    ensures var nums := List(news); nums[|nums|..] == [] && NumbersIn([]) == {}
  {
  }

  lemma RelevanceIsRank(cfg: M.Config, news: set<int>, i: nat)
    requires i < |List(news)|
    ensures var nums := List(news);
      M.RelevantOnWrite(cfg, news, nums[|nums| - 1 - i]) == match cfg.history
        case KeepAll => true
        case KeepLast(depth) => (match cfg.durability
          case Volatile => i < depth
          case TransientLocal => i <= depth)
  {
    hide M.Rank, List;
    RankInList(List(news), news, i);
  }

  ghost function RegisteredView(cfg: M.Config, ps: map<Guid, M.Proxy>, news: set<int>, done: set<int>): map<Guid, M.Proxy> {
    map g | g in ps :: ps[g].(state := RegisteredSome(cfg, ps[g].state, news, done))
  }

  lemma RegisteredViewNone(cfg: M.Config, ps: map<Guid, M.Proxy>, news: set<int>)
    ensures RegisteredView(cfg, ps, news, {}) == ps
  {
    var r := RegisteredView(cfg, ps, news, {});
    forall g | g in ps ensures r[g] == ps[g] {
      RegisteredAll(cfg, ps[g].state, news);
    }
    assert r == ps;
  }

  lemma RegisteredViewMore(cfg: M.Config, ps: map<Guid, M.Proxy>, news: set<int>, done: set<int>, n: int)
    ensures var now := RegisteredView(cfg, ps, news, done);
      var entry := ChangeForReader(if cfg.pushMode then Unsent else Unacknowledged, M.RelevantOnWrite(cfg, news, n));
      RegisteredView(cfg, ps, news, done + {n}) == map g | g in now :: now[g].(state := now[g].state[n := entry])
  {
    var now, r := RegisteredView(cfg, ps, news, done), RegisteredView(cfg, ps, news, done + {n});
    var entry := ChangeForReader(if cfg.pushMode then Unsent else Unacknowledged, M.RelevantOnWrite(cfg, news, n));
    forall g | g in ps ensures r[g] == now[g].(state := now[g].state[n := entry]) {
      RegisteredOneMore(cfg, ps[g].state, news, done, n);
    }
  }

  lemma TodoIsRemovable(w: M.Writer, base: int, todo: seq<int>)
    requires IsAscending(todo)
    requires forall n :: n in todo <==> n in w.hc.changes && n <= M.RemovalBound(w, base) && M.AckedByAll(w, n)
    ensures todo == List(M.Removable(w, base))
  {
    var nums := List(M.Removable(w, base));
    forall n ensures n in nums <==> n in todo {
      assert n in nums <==> n in M.Removable(w, base);
    }
    AscendingUnique(todo, nums);
  }
}
