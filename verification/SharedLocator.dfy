/** Why each reader needs a locator of its own: a GAP for two readers that came late is
    merged into one message and reaches a third one, for which the change is relevant. That
    reader acknowledges what it never received, and the writer forgets it. */
module SharedLocators {
  import opened Types
  import opened Ascending
  import opened ReaderProxies
  import opened WriterModel
  import opened WriterInvariants
  import opened Delivery
  import opened Convergence
  import opened Openings
  import C = MessageCover
  import R = WriterProxies

  // EARLY is matched before anything is written, the other two after change 1
  const EARLY: Guid := 1
  const LATE: Guid := 2
  const LATER: Guid := 3

  function Shared(): Locator {
    Locator(1, 7400, [])
  }

  function Listening(): Locators {
    Locators([Shared()], [], [], [])
  }

  function Found(state: CacheState): Proxy {
    Proxy(Listening(), Volatile, state)
  }

  function WithEarly(): Writer {
    Initial(Settings(Volatile)).(proxies := map[EARLY := Found(map[])])
  }

  function Owing(st: Status): CacheState {
    map[1 := ChangeForReader(st, true)]
  }

  function Irrelevant(st: Status): CacheState {
    map[1 := ChangeForReader(st, false)]
  }

  /** Change 1 has been sent to EARLY; then LATE and LATER are found. */
  function WithAll(p: Payload): Writer {
    Initial(Settings(Volatile)).(
      hc := Cache(map[1 := p], {}, 1, [p]), processed := 1,
      proxies := map[EARLY := Found(Owing(Underway)), LATE := Found(Irrelevant(Unsent)), LATER := Found(Irrelevant(Unsent))])
  }

  ghost function Join(w: Writer, g: Guid): Writer {
    AddReader(w, g, Listening(), ReaderQos(Volatile, true))
  }

  lemma EarlyUnwritten()
    ensures Unwritten(WithEarly())
  {
    assert EARLY in WithEarly().proxies.Keys;
  }

  /** Change 1 has been sent to EARLY. */
  function WithOne(p: Payload): Writer {
    WithAll(p).(proxies := map[EARLY := Found(Owing(Underway))])
  }

  lemma OneSent(p: Payload)
    ensures Written(WithEarly(), [p]) == WithOne(p) && Datas([p]) == [Data(1, p)]
  {
    assert Changes([p]) == map[1 := p];
    assert Entries(1, Underway) == Owing(Underway);
  }

  lemma Joined(w: Writer, p: Payload, g: Guid)
    requires w.cfg == Settings(Volatile) && w.script == [] && w.hc.changes == map[1 := p] && g !in w.proxies
    ensures Join(w, g) == w.(proxies := w.proxies[g := Found(Irrelevant(Unsent))])
  {
    assert Snapshot(w, Volatile) == Irrelevant(Unsent);
  }

  /** EARLY is sent change 1; then the other two join. */
  lemma FirstSent(p: Payload)
    ensures var r := ProcessWrites(Begin(WithEarly(), [[p]]));
      && MsgsFor(r.out, EARLY) == [Data(1, p)]
      && Join(Join(r.(out := []), LATE), LATER) == WithAll(p)
  {
    hide Join, ProcessWrites, Written, Unwritten;
    EarlyUnwritten();
    FirstWrites(WithEarly(), [p]);
    OneSent(p);
    var r := WithOne(p);
    Joined(r, p, LATE);
    Joined(r.(proxies := r.proxies[LATE := Found(Irrelevant(Unsent))]), p, LATER);
  }

  // ---- change 2 is written ----

  /** When change 2 has been entered, before anything is sent. */
  function Entered2(p: Payload, q: Payload): Writer {
    WithAll(p).(
      hc := Cache(map[1 := p, 2 := q], {}, 2, [p, q]), processed := 2,
      proxies := map[EARLY := Found(Owing(Underway)[2 := ChangeForReader(Unsent, true)]),
                     LATE := Found(Irrelevant(Unsent)[2 := ChangeForReader(Unsent, true)]),
                     LATER := Found(Irrelevant(Unsent)[2 := ChangeForReader(Unsent, true)])])
  }

  /** The writer when all is sent. */
  function Sent2(p: Payload, q: Payload): Writer {
    Entered2(p, q).(
      proxies := map[EARLY := Found(Owing(Underway)[2 := ChangeForReader(Underway, true)]),
                     LATE := Found(Irrelevant(Underway)[2 := ChangeForReader(Underway, true)]),
                     LATER := Found(Irrelevant(Underway)[2 := ChangeForReader(Underway, true)])])
  }

  function To(g: Guid): Target {
    Target(g, [Shared()])
  }

  /** DATA 2 for all three, GAP 1 for the two that came late. */
  function SecondSends(q: Payload): seq<Send> {
    [Send(Data(2, q), [To(EARLY), To(LATE), To(LATER)]), Send(Gap(1), [To(LATE), To(LATER)])]
  }

  lemma SecondWrite(p: Payload, q: Payload)
    ensures var c := Cache(map[1 := p], {}, 1, [p]);
      WriteAll(c, LENGTH_UNLIMITED, [q]) == Cache(map[1 := p, 2 := q], {2}, 2, [p, q])
  {
    assert [q][1..] == [];
  }

  lemma OneMoreEntry(cs: CacheState)
    ensures Register(Settings(Volatile), cs, {2}) == cs[2 := ChangeForReader(Unsent, true)]
  {
  }

  lemma Entering(p: Payload, q: Payload)
    ensures var w1 := Yield(Begin(WithAll(p), [[q]]));
      w1.hc.unprocessed == {2} && TakeUnprocessed(w1) == Entered2(p, q)
  {
    hide WriteAll, Register, Owing, Irrelevant;
    SecondWrite(p, q);
    assert [[q]][1..] == [];
    OneMoreEntry(Owing(Underway));
    OneMoreEntry(Irrelevant(Unsent));
    var w1 := Yield(Begin(WithAll(p), [[q]]));
    assert TakeUnprocessed(w1).proxies == Entered2(p, q).proxies;
  }

  lemma InOrder(w: Writer)
    requires w.proxies.Keys == {EARLY, LATE, LATER}
    ensures Guids(w) == [EARLY, LATE, LATER]
  {
    AscendingUnique(Guids(w), [EARLY, LATE, LATER]);
  }

  lemma TargetsOfThree(w: Writer, n: int, relevant: bool, early: bool)
    requires Wants(w, EARLY, Unsent, n, relevant) <==> early
    requires Wants(w, LATE, Unsent, n, relevant) && w.proxies[LATE].locators == Listening()
    requires Wants(w, LATER, Unsent, n, relevant) && w.proxies[LATER].locators == Listening()
    requires early ==> w.proxies[EARLY].locators == Listening()
    ensures TargetsAmong(w, [EARLY, LATE, LATER], Unsent, n, relevant)
         == (if early then [To(EARLY)] else []) + [To(LATE), To(LATER)]
  {
    hide Wants;
    var gs := [EARLY, LATE, LATER];
    assert gs[1..] == [LATE, LATER] && [LATE, LATER][1..] == [LATER] && [LATER][1..] == [];
    assert TargetsAmong(w, [LATER], Unsent, n, relevant) == [To(LATER)];
    assert TargetsAmong(w, [LATE, LATER], Unsent, n, relevant) == [To(LATE), To(LATER)];
  }

  lemma Wanting(p: Payload, q: Payload, g: Guid, n: int, relevant: bool)
    ensures Wants(Entered2(p, q), g, Unsent, n, relevant) <==>
      if relevant then n == 2 && g in {EARLY, LATE, LATER} else n == 1 && g in {LATE, LATER}
  {
  }

  lemma Wanted(p: Payload, q: Payload, relevant: bool)
    ensures WantedNumbers(Entered2(p, q), [EARLY, LATE, LATER], Unsent, relevant) == {if relevant then 2 else 1}
  {
    hide Wants;
    var t, n := Entered2(p, q), if relevant then 2 else 1;
    Wanting(p, q, LATE, n, relevant);
    assert LATE in [EARLY, LATE, LATER] && LATE in t.proxies && n in t.proxies[LATE].state;
    forall m | m in WantedNumbers(t, [EARLY, LATE, LATER], Unsent, relevant)
      ensures m == n
    {
      var g :| g in [EARLY, LATE, LATER] && g in t.proxies && m in t.proxies[g].state && Wants(t, g, Unsent, m, relevant);
      Wanting(p, q, g, m, relevant);
    }
  }

  lemma PlanOf(p: Payload, q: Payload, relevant: bool)
    ensures var t := Entered2(p, q);
      Plan(t, [EARLY, LATE, LATER], Unsent, relevant)
        == map[(if relevant then 2 else 1) := (if relevant then [To(EARLY)] else []) + [To(LATE), To(LATER)]]
  {
    hide Wants, WantedNumbers, TargetsAmong;
    var t, n := Entered2(p, q), if relevant then 2 else 1;
    Wanted(p, q, relevant);
    Wanting(p, q, EARLY, n, relevant);
    Wanting(p, q, LATE, n, relevant);
    Wanting(p, q, LATER, n, relevant);
    TargetsOfThree(t, n, relevant, relevant);
  }

  lemma Plans(p: Payload, q: Payload)
    ensures var t := Entered2(p, q);
      && Plan(t, Guids(t), Unsent, true) == map[2 := [To(EARLY), To(LATE), To(LATER)]]
      && Plan(t, Guids(t), Unsent, false) == map[1 := [To(LATE), To(LATER)]]
  {
    hide Plan, To;
    EnteredReaders(p, q);
    hide Entered2;
    InOrder(Entered2(p, q));
    PlanOf(p, q, true);
    PlanOf(p, q, false);
    assert [To(EARLY)] + [To(LATE), To(LATER)] == [To(EARLY), To(LATE), To(LATER)];
    assert [] + [To(LATE), To(LATER)] == [To(LATE), To(LATER)];
  }

  lemma EnteredReaders(p: Payload, q: Payload)
    ensures Entered2(p, q).proxies.Keys == {EARLY, LATE, LATER}
  {
  }

  lemma Draining(p: Payload, q: Payload)
    ensures DrainAll(Entered2(p, q), Unsent) == Sent2(p, q) && !Sent2(p, q).panicked
  {
    var d := DrainAll(Entered2(p, q), Unsent);
    assert d.proxies[EARLY].state == Sent2(p, q).proxies[EARLY].state;
    assert d.proxies[LATE].state == Sent2(p, q).proxies[LATE].state;
    assert d.proxies == Sent2(p, q).proxies;
  }

  lemma OneListed(n: int)
    ensures List({n}) == [n]
  {
    AscendingUnique(List({n}), [n]);
  }

  lemma DataGoes(p: Payload, q: Payload, to: seq<Target>)
    ensures var plan := map[2 := to];
      && Within(List(plan.Keys), plan.Keys)
      && SendData(Sent2(p, q), plan, List(plan.Keys)) == Sent2(p, q).(out := [Send(Data(2, q), to)])
  {
    var plan, d := map[2 := to], Sent2(p, q);
    OneListed(2);
    assert plan.Keys == {2};
    QuietSendData(d, plan, [2]);
    assert d.out + DataSends(d, plan, [2]) == [Send(Data(2, q), to)];
  }

  lemma GapGoes(w: Writer, to: seq<Target>)
    ensures var plan := map[1 := to];
      && Within(List(plan.Keys), plan.Keys)
      && SendGaps(w, plan, List(plan.Keys)) == w.(out := w.out + [Send(Gap(1), to)])
  {
    var plan := map[1 := to];
    OneListed(1);
    assert plan.Keys == {1};
    SendGapsEffect(w, plan, [1]);
    assert GapSends(plan, [1]) == [Send(Gap(1), to)];
  }

  lemma Sending(p: Payload, q: Payload)
    ensures SendUnsent(Entered2(p, q)) == Sent2(p, q).(out := SecondSends(q))
  {
    hide Plan, DrainAll, SendData, SendGaps, Entered2, To;
    var all, late := [To(EARLY), To(LATE), To(LATER)], [To(LATE), To(LATER)];
    Plans(p, q);
    Draining(p, q);
    DataGoes(p, q, all);
    GapGoes(Sent2(p, q).(out := [Send(Data(2, q), all)]), late);
    assert [Send(Data(2, q), all)] + [Send(Gap(1), late)] == SecondSends(q);
  }

  lemma NoneGoes(p: Payload, q: Payload, base: int)
    ensures RemoveAcked(Entered2(p, q), base) == Entered2(p, q)
  {
    var t := Entered2(p, q);
    assert !IsAcked(t.proxies[EARLY].state, 1) && !IsAcked(t.proxies[EARLY].state, 2);
    assert EARLY in t.proxies && !AckedByAll(t, 1) && !AckedByAll(t, 2);
    assert Numbered(t);
    NothingRemovable(t, base);
  }

  lemma SecondSent(p: Payload, q: Payload)
    ensures ProcessWrites(Begin(WithAll(p), [[q]])) == Sent2(p, q).(out := SecondSends(q))
  {
    hide Yield, TakeUnprocessed, RemoveAcked, SendUnsent, Entered2, Sent2, SecondSends;
    Entering(p, q);
    NoneGoes(p, q, 2);
    Sending(p, q);
  }

  // ---- what EARLY makes of it ----

  /** The messages for LATE and LATER reach EARLY, however they are covered. */
  lemma ReachesEarly(r: seq<C.Message>)
    requires var ps := C.Flat([To(LATE), To(LATER)]); C.Covers(r, ps) && C.OnlyNeeded(r, ps)
    ensures exists m :: m in r && C.Reaches(m, C.Pair(EARLY, Shared()))
  {
    var ts := [To(LATE), To(LATER)];
    assert ts[..1] == [To(LATE)] && [To(LATE)][..0] == [];
    assert C.Flat([To(LATE)]) == [C.Pair(LATE, Shared())];
    assert C.Flat(ts) == [C.Pair(LATE, Shared()), C.Pair(LATER, Shared())];
    C.MergedReachesOthers(LATE, LATER, EARLY, Shared());
  }

  lemma Announced(p: Payload, q: Payload)
    ensures MinSettled(Sent2(p, q)) == 1 && MaxSettled(Sent2(p, q)) == 2
  {
    assert Settled(Sent2(p, q)) == {1, 2};
  }

  lemma EarlyNoted(p: Payload, q: Payload)
    ensures var w1 := NoteAck(Sent2(p, q), EARLY, 3, {});
      && Numbers(w1.proxies[EARLY].state, Requested) == {} && AckedByAll(w1, 1) && Numbered(w1)
  {
    var w1 := NoteAck(Sent2(p, q), EARLY, 3, {});
    assert w1.proxies[EARLY].state[1].status == Acknowledged;
    assert IsAcked(w1.proxies[EARLY].state, 1) && IsAcked(w1.proxies[LATE].state, 1) && IsAcked(w1.proxies[LATER].state, 1);
  }

  lemma OneForgotten(p: Payload, q: Payload)
    ensures 1 !in HandleAckNack(Sent2(p, q), EARLY, 3, {}).hc.changes
  {
    hide AckedByAll, Numbered, NoteAck, RemoveAcked, Numbers;
    var w := Sent2(p, q);
    EarlyNoted(p, q);
    AckNackUnfolds(w, EARLY, Ack(3, {}));
    assert NoteAck(w, EARLY, 3, {}).hc == w.hc && NoteAck(w, EARLY, 3, {}).cfg == w.cfg by { NotedRest(w, EARLY, 3); }
    RemoveAckedExactly(NoteAck(w, EARLY, 3, {}), 2);
  }

  lemma NotedRest(w: Writer, g: Guid, base: int)
    requires g in w.proxies
    ensures var w1 := NoteAck(w, g, base, {}); w1 == w.(proxies := w1.proxies) && g in w1.proxies
  {
  }

  // ---- the heartbeat and its answer ----

  lemma NoneAcked2(p: Payload, q: Payload)
    ensures var w := Sent2(p, q);
      Numbered(w) && !AllAcked(w) && Removable(w, 2) == {}
  {
    var w := Sent2(p, q);
    assert EARLY in w.proxies && !IsAcked(w.proxies[EARLY].state, 1) && !IsAcked(w.proxies[EARLY].state, 2);
    assert 1 in w.hc.changes && !AckedByAll(w, 1) && !AckedByAll(w, 2);
  }

  lemma AudienceStep(w: Writer, g: Guid, gs: seq<Guid>)
    requires g in w.proxies && w.proxies[g].locators == Listening()
    ensures HeartbeatAudience(w, [g] + gs) == [To(g)] + HeartbeatAudience(w, gs)
  {
    assert ([g] + gs)[1..] == gs;
  }

  lemma Audience(w: Writer)
    requires w.proxies.Keys == {EARLY, LATE, LATER}
    requires forall g :: g in w.proxies ==> w.proxies[g].locators == Listening()
    ensures HeartbeatAudience(w, Guids(w)) == [To(EARLY), To(LATE), To(LATER)]
  {
    hide HeartbeatAudience, Guids;
    InOrder(w);
    AudienceStep(w, EARLY, [LATE, LATER]);
    AudienceStep(w, LATE, [LATER]);
    AudienceStep(w, LATER, []);
    assert [EARLY] + [LATE, LATER] == [EARLY, LATE, LATER] && [LATE] + [LATER] == [LATE, LATER] && [LATER] + [] == [LATER];
    assert HeartbeatAudience(w, []) == [] by { NoAudience(w); }
  }

  lemma NoAudience(w: Writer)
    ensures HeartbeatAudience(w, []) == []
  {
  }

  const BEAT := Heartbeat(1, 2, false)

  lemma NothingTrimmed(w: Writer)
    requires Numbered(w) && w.script == [] && w.out == [] && !AllAcked(w) && Removable(w, MaxSettled(w)) == {}
    ensures Begin(w, []) == w && SendHeartbeat(w, false) == Announce(w, false)
  {
    hide RemoveAcked, AllAcked, Announce;
    NothingRemovable(w, MaxSettled(w));
  }

  lemma SentFacts(p: Payload, q: Payload)
    ensures var w := Sent2(p, q);
      && w.script == [] && w.out == [] && w.proxies.Keys == {EARLY, LATE, LATER}
      && forall g :: g in w.proxies ==> w.proxies[g].locators == Listening()
  {
  }

  lemma BeatSent(p: Payload, q: Payload)
    ensures SendHeartbeat(Begin(Sent2(p, q), []), false) == Sent2(p, q).(out := [Send(BEAT, [To(EARLY), To(LATE), To(LATER)])])
  {
    hide SendHeartbeat, AllAcked, HeartbeatAudience, Guids, Numbered, Sent2, MinSettled, MaxSettled, Removable, Listening, To, Begin;
    var w := Sent2(p, q);
    NoneAcked2(p, q);
    SentFacts(p, q);
    Announced(p, q);
    NothingTrimmed(w);
    Audience(w);
    assert [] + [Send(BEAT, [To(EARLY), To(LATE), To(LATER)])] == [Send(BEAT, [To(EARLY), To(LATE), To(LATER)])];
  }

  /** EARLY as it was matched: it knows nothing yet. */
  function Alone(): Peer {
    NewPeer(Volatile, Shared()).(reader := Some(map[]))
  }

  /** EARLY when DATA 2, GAP 1 and the heartbeat have arrived, in this order. */
  ghost function Told(q: Payload): Peer {
    Receive(Receive(Receive(Alone(), Data(2, q), {}), Gap(1), {}), BEAT, {})
  }

  lemma AnswerClaimsAll(q: Payload)
    requires Deliverable(q)
    ensures Told(q).acks == {Ack(3, {})} && Told(q).got == map[2 := q]
  {
    var cs := R.WithIrrelevant(R.WithReceived(map[], 2), 1);
    var record := R.OnHeartbeat(cs, {}, 1, 2);
    assert Receive(Receive(Alone(), Data(2, q), {}), Gap(1), {}) == Alone().(reader := Some(cs), got := map[2 := q]);
    forall n
      ensures n !in R.MissingSet(record)
    {
      MissingHeard(cs, {}, 1, 2, n);
    }
    AccountedHeard(cs, {}, 1, 2, 2);
    assert R.MissingSet(record) == {};
    assert forall n :: n in record ==> n <= 2 by {
      assert forall n :: n in R.Span(1, 2) <==> 1 <= n <= 2;
    }
    assert Told(q).acks == {} + {Ack(3, {})};
  }

  lemma FirstMatch()
    ensures Join(Initial(Settings(Volatile)), EARLY) == WithEarly()
  {
    var w := Initial(Settings(Volatile));
    assert Snapshot(w, Volatile) == map[];
    assert w.proxies[EARLY := Found(map[])] == map[EARLY := Found(map[])];
  }

  /** The whole run, step by step from a new writer: EARLY is matched and owed change 1, and
      its only DATA is lost; LATE and LATER are matched; change 2 is written, and the GAP
      for those two reaches EARLY whatever cover is sent; EARLY's answer to the next
      heartbeat acknowledges change 1, which it has not got, and asks for nothing; and the
      writer drops change 1. */
  lemma RelevantChangeLost(p: Payload, q: Payload, r: seq<C.Message>)
    requires var ps := C.Flat([To(LATE), To(LATER)]); C.Covers(r, ps) && C.OnlyNeeded(r, ps)
    requires Deliverable(q)
    ensures var w0 := Join(Initial(Settings(Volatile)), EARLY);
      var w1 := ProcessWrites(Begin(w0, [[p]]));
      var w2 := Join(Join(w1.(out := []), LATE), LATER);
      var w3 := ProcessWrites(Begin(w2, [[q]]));
      var w4 := SendHeartbeat(Begin(w3, []), false);
      var early := Told(q);
      && MsgsFor(w1.out, EARLY) == [Data(1, p)]
      && EARLY in w2.proxies && w2.proxies[EARLY].state == Owing(Underway)
      && w3.out == [Send(Data(2, q), [To(EARLY), To(LATE), To(LATER)]), Send(Gap(1), [To(LATE), To(LATER)])]
      && (exists m :: m in r && C.Reaches(m, C.Pair(EARLY, Shared())))
      && w4.out == [Send(BEAT, [To(EARLY), To(LATE), To(LATER)])]
      && early.acks == {Ack(3, {})} && AckValid(Ack(3, {})) && 1 !in early.got
      && 1 !in HandleAckNack(Begin(w4, []), EARLY, 3, {}).hc.changes
  {
    hide ProcessWrites, Join, HandleAckNack, C.Covers, C.OnlyNeeded, C.Flat, SendHeartbeat, Told, Entered2;
    FirstMatch();
    FirstSent(p);
    SecondSent(p, q);
    ReachesEarly(r);
    BeatSent(p, q);
    AnswerClaimsAll(q);
    OneForgotten(p, q);
    AtRest(p, q);
  }

  lemma AtRest(p: Payload, q: Payload)
    ensures Begin(Sent2(p, q).(out := SecondSends(q)), []) == Begin(Sent2(p, q), []) == Sent2(p, q)
    ensures forall out :: Begin(Sent2(p, q).(out := out), []) == Sent2(p, q)
  {
  }
}
