/** Repair when nothing is lost, in any order and for any number of readers: each message of
    a round arrives, and so does each ACKNACK, those that answer the heartbeats among the
    repairs included. */
module LossFree {
  import opened Types
  import opened Ascending
  import opened ReaderProxies
  import opened WriterModel
  import opened WriterInvariants
  import opened Delivery
  import opened Convergence
  import opened Openings
  import R = WriterProxies

  /** A round in progress: `due` holds the ACKNACKs under way from each reader, oldest
      first, `heard` the readers that the periodic heartbeat has reached. */
  datatype Net = Net(s: Sys, due: map<Guid, seq<Ack>>, heard: set<Guid>)

  datatype Arrival =
    | Hear(guid: Guid, taken: set<int>)   // the next message on the link to a reader arrives
    | Return(guid: Guid)                  // the oldest ACKNACK of a reader arrives

  function Due(n: Net, g: Guid): seq<Ack> {
    if g in n.due then n.due[g] else []
  }

  /** What a reader answers to a message. */
  ghost function AnswersTo(p: Peer, msg: Msg, taken: set<int>): seq<Ack> {
    if p.reader.Some? && msg.Heartbeat? && R.HeartbeatValid(msg.first, msg.last)
    then
      var r := R.OnHeartbeat(p.reader.value, taken, msg.first, msg.last);
      [Ack(R.AckBase(r), R.MissingSet(r))]
    else []
  }

  /** What the application has taken counts when the periodic heartbeat arrives; it takes
      nothing while repairs arrive. */
  function TakenNow(n: Net, g: Guid, taken: set<int>): set<int> {
    if g in n.heard then {} else taken
  }

  /** An event that is not possible changes nothing. */
  ghost function Happen(n: Net, e: Arrival): Net {
    if e.guid !in n.s.w.proxies || e.guid !in n.s.peers then n
    else
      var g, p, due := e.guid, n.s.peers[e.guid], Due(n, e.guid);
      match e
      case Hear(_, taken) =>
        if p.link == [] then n
        else
          var t := TakenNow(n, g, taken);
          Net(Apply(n.s, Deliver(g, t, false)), n.due[g := due + AnswersTo(p, p.link[0].msg, t)], n.heard + {g})
      case Return(_) =>
        if due == [] then n
        else Net(Apply(n.s, AckArrives(g, due[0], [])), n.due[g := due[1..]], n.heard)
  }

  ghost function Play(n: Net, es: seq<Arrival>): Net
    decreases |es|
  {
    if es == [] then n else Play(Happen(n, es[0]), es[1..])
  }

  /** The heartbeat timer fires. */
  ghost function Fire(s: Sys): Net {
    Net(Apply(s, Step.HeartbeatTimer(false, [])), map[], {})
  }

  /** Everything has arrived. */
  ghost predicate Quiet(n: Net) {
    forall g :: g in n.s.w.proxies && g in n.s.peers ==> n.s.peers[g].link == [] && Due(n, g) == []
  }

  /** Every reader is matched on both sides, the links are empty and every write has been
      handed to the proxies. */
  ghost predicate CalmAll(s: Sys) {
    && s.w.hc.unprocessed == {}
    && forall g :: g in s.w.proxies ==> g in s.peers && s.peers[g].reader.Some? && s.peers[g].link == []
  }

  ghost predicate ReadyAll(s: Sys) {
    Inv(s) && NoneRequested(s.w) && CalmAll(s)
  }

  /** The bitmap of every reader's answer can span what that reader misses. */
  ghost predicate AllFit(s: Sys)
    requires CalmAll(s)
  {
    forall g :: g in s.w.proxies ==> AckFits(s, g, {})
  }

  /** Every cached change can arrive where it is owed. */
  ghost predicate AllCarried(w: Writer) {
    forall g :: g in w.proxies ==> CanCarry(w, g)
  }

  // ---- one reader during a round ----

  /** What stays the same for a reader during a round: the range of the periodic heartbeat
      and the answer to it. */
  datatype Goal = Goal(first: int, last: int, ack: Ack)

  ghost predicate GoalOk(k: Goal) {
    && 1 <= k.first <= k.last && AckValid(k.ack)
    && forall m :: m in k.ack.req ==> k.first <= m && k.ack.base <= m
  }

  /** A repair for one of the numbers asked for, that can arrive. */
  ghost predicate Fine(msg: Msg, k: Goal) {
    NumberOf(msg) in k.ack.req && Arrives(msg) && (msg.Heartbeat? ==> msg.last <= k.last)
  }

  /** An answer that fits, asks for no more than the first one, and claims the whole range
      unless it asks for its base. */
  ghost predicate AckFine(a: Ack, k: Goal) {
    AckValid(a) && a.req <= k.ack.req && (a.base <= k.last ==> a.base in a.req)
  }

  predicate Mends(msg: Msg, m: int) {
    NumberOf(msg) == m && (msg.Heartbeat? ==> msg.last >= m)
  }

  /** A repair for `m` is on the link, or a request for it under way. */
  ghost predicate InHand(link: seq<Item>, due: seq<Ack>, m: int) {
    || (exists i :: 0 <= i < |link| && Mends(link[i].msg, m))
    || (exists i :: 0 <= i < |due| && m in due[i].req)
  }

  ghost predicate LinkFine(link: seq<Item>, k: Goal) {
    forall i :: 0 <= i < |link| ==> Fine(link[i].msg, k)
  }

  ghost predicate DueFine(p: Peer, due: seq<Ack>, k: Goal) {
    forall i :: 0 <= i < |due| ==> due[i] in p.acks && AckFine(due[i], k)
  }

  /** Up to `max` the reader misses nothing that is not being repaired. */
  ghost predicate Pending(cs: R.CacheState, link: seq<Item>, due: seq<Ack>, max: int) {
    forall m :: R.IsMissing(cs, m) && m <= max ==> InHand(link, due, m)
  }

  ghost predicate Serving(p: Peer, due: seq<Ack>, max: int, k: Goal) {
    && p.reader.Some? && Recorded(p.reader.value, k.first, k.last)
    && (forall m :: R.IsMissing(p.reader.value, m) ==> m in k.ack.req)
    && LinkFine(p.link, k) && DueFine(p, due, k)
    && Pending(p.reader.value, p.link, due, max)
  }

  /** The answer to a heartbeat within the range asks for no more than is missing. */
  lemma AnswerFine(cs: R.CacheState, taken: set<int>, first: int, last: int, k: Goal)
    requires GoalOk(k) && Recorded(cs, k.first, k.last) && R.HeartbeatValid(first, last) && k.first <= first && last <= k.last
    requires forall m :: m in cs ==> cs[m].status != R.Unknown
    requires var r := R.OnHeartbeat(cs, taken, first, last);
      && Recorded(r, k.first, k.last)
      && forall m :: R.IsMissing(r, m) ==> m in k.ack.req
    ensures var r := R.OnHeartbeat(cs, taken, first, last); AckFine(Ack(R.AckBase(r), R.MissingSet(r)), k)
  {
    var r := R.OnHeartbeat(cs, taken, first, last);
    var a := Ack(R.AckBase(r), R.MissingSet(r));
    forall m | m in a.req
      ensures m in k.ack.req
    {
      assert R.IsMissing(r, m);
    }
    if a.req == {} {
      LastIsAccounted(cs, taken, first, last, k.last);
    }
    NarrowerFits(k.ack, a);
  }

  lemma LastIsAccounted(cs: R.CacheState, taken: set<int>, first: int, last: int, m: int)
    requires forall n :: n in cs ==> cs[n].status != R.Unknown
    requires var r := R.OnHeartbeat(cs, taken, first, last); m in r && R.MissingSet(r) == {}
    ensures var r := R.OnHeartbeat(cs, taken, first, last); R.Accounted(r, m) && R.AckBase(r) > m
  {
    var r := R.OnHeartbeat(cs, taken, first, last);
    assert m !in R.MissingSet(r);
    assert r[m].status != R.Unknown;
  }

  /** A repair makes nothing missing, and settles the number it is for. */
  lemma FineHeard(cs: R.CacheState, msg: Msg, k: Goal)
    requires GoalOk(k) && Fine(msg, k) && Recorded(cs, k.first, k.last)
    requires forall m :: m in cs ==> cs[m].status != R.Unknown
    ensures var r := Heard(cs, msg, {});
      && Recorded(r, k.first, k.last)
      && (forall m :: R.IsMissing(r, m) ==> R.IsMissing(cs, m))
      && (forall m :: Mends(msg, m) ==> !R.IsMissing(r, m))
  {
    if msg.Heartbeat? && R.HeartbeatValid(msg.first, msg.last) {
      assert cs - {} == cs;
      var c := R.WithMissing(cs, msg.first, msg.last);
      forall m
        ensures m in c <==> m in cs
      {
        assert m in R.Span(msg.first, msg.last) ==> m in cs;
      }
    }
  }

  /** The next message on the link of a reader under repair arrives. */
  lemma ServeHear(p: Peer, due: seq<Ack>, max: int, k: Goal)
    requires GoalOk(k) && Serving(p, due, max, k) && p.link != [] && ReaderOk(p)
    ensures var msg := p.link[0].msg;
      Serving(Receive(p, msg, {}).(link := p.link[1..]), due + AnswersTo(p, msg, {}), max, k)
  {
    var cs, msg, rest := p.reader.value, p.link[0].msg, p.link[1..];
    var r, more := Heard(cs, msg, {}), due + AnswersTo(p, msg, {});
    assert Fine(msg, k);
    FineHeard(cs, msg, k);
    if AnswersTo(p, msg, {}) != [] {
      AnswerFine(cs, {}, msg.first, msg.last, k);
      assert more[|due|].req == R.MissingSet(r);
    }
    forall m | R.IsMissing(r, m) && m <= max
      ensures InHand(rest, more, m)
    {
      if AnswersTo(p, msg, {}) != [] {
        assert m in more[|due|].req;
      } else if i :| 0 <= i < |p.link| && Mends(p.link[i].msg, m) {
        assert i > 0 && rest[i - 1] == p.link[i];
      } else {
        var j :| 0 <= j < |due| && m in due[j].req;
        assert more[j] == due[j];
      }
    }
    assert Receive(p, msg, {}).reader == Some(r);
    assert LinkFine(rest, k) by {
      assert forall i :: 0 <= i < |rest| ==> rest[i] == p.link[i + 1];
    }
  }

  // ---- the periodic heartbeat ----

  ghost function GoalOf(s: Sys, g: Guid): Goal
    requires g in s.peers && s.peers[g].reader.Some?
  {
    Goal(MinSettled(Trimmed(s.w)), MaxSettled(Trimmed(s.w)), RoundAck(s, g, {}))
  }

  /** Before the heartbeat arrives. */
  ghost predicate Unheard(p: Peer, cs: R.CacheState, due: seq<Ack>, k: Goal) {
    && p.reader == Some(cs) && due == []
    && |p.link| == 1 && p.link[0].msg == Heartbeat(k.first, k.last, false)
  }

  lemma TrimmedSpan(w: Writer)
    requires Numbered(w) && w.hc.unprocessed == {} && !AllAcked(w)
    ensures var t := Trimmed(w);
      t.hc.changes.Keys != {} && 1 <= MinSettled(t) <= MaxSettled(t) <= w.processed
  {
    UnackedSurvives(w);
    TrimmedShape(w);
    AllSettled(Trimmed(w));
    assert MaxSettled(Trimmed(w)) !in w.hc.unprocessed;
  }

  lemma WriterFacts(s: Sys)
    requires Inv(s)
    ensures Agreement(s.w) && Numbered(s.w) && Retained(s.w)
    ensures s.w.anState == Waiting && s.w.cfg.nackDelayZero && s.w.proxies.Keys <= s.peers.Keys
    ensures forall g :: g in s.w.proxies ==> s.w.proxies[g].locators == OwnLocators(s.peers[g])
  {
    forall g | g in s.w.proxies
      ensures s.w.proxies[g].locators == OwnLocators(s.peers[g])
    {
      assert ProxyOk(s.w, s.peers[g], s.w.proxies[g]);
    }
  }

  lemma GoalFine(s: Sys, g: Guid)
    requires ReadyAll(s) && !AllAcked(s.w) && g in s.w.proxies && AckFits(s, g, {})
    ensures GoalOk(GoalOf(s, g))
  {
    hide Inv, Trimmed, AckValid, NoneRequested, R.OnHeartbeat, R.AckBase;
    WriterFacts(s);
    TrimmedSpan(s.w);
    var k, cs := GoalOf(s, g), s.peers[g].reader.value;
    FirstHeard(cs, {}, k.first, k.last);
    BaseIsLeast(HeartbeatHeard(s, g, {}));
    forall m | m in k.ack.req
      ensures k.first <= m
    {
      assert R.IsMissing(HeartbeatHeard(s, g, {}), m);
    }
  }

  /** The heartbeat arrives: whatever the application has taken, the answer is the same. */
  lemma WaitHear(p: Peer, cs: R.CacheState, taken: set<int>, max: int, k: Goal)
    requires Unheard(p, cs, [], k) && GoalOk(k) && ReaderOk(p)
    requires var r := R.OnHeartbeat(cs, {}, k.first, k.last); k.ack == Ack(R.AckBase(r), R.MissingSet(r))
    ensures var msg := p.link[0].msg;
      && AnswersTo(p, msg, taken) == [k.ack]
      && Serving(Receive(p, msg, taken).(link := p.link[1..]), [k.ack], max, k)
  {
    hide R.OnHeartbeat, R.AckBase, AckValid;
    var msg := p.link[0].msg;
    SameAnswer(cs, taken, k.first, k.last);
    FirstHeard(cs, taken, k.first, k.last);
    var r := R.OnHeartbeat(cs, taken, k.first, k.last);
    if k.ack.req == {} {
      LastIsAccounted(cs, taken, k.first, k.last, k.last);
    }
    BaseFine(r, k);
    forall m | R.IsMissing(r, m)
      ensures InHand([], [k.ack], m)
    {
      assert m in [k.ack][0].req;
    }
    assert p.link[1..] == [];
  }

  lemma BaseFine(r: R.CacheState, k: Goal)
    requires k.ack == Ack(R.AckBase(r), R.MissingSet(r)) && AckValid(k.ack)
    requires k.ack.req == {} ==> k.ack.base > k.last
    ensures AckFine(k.ack, k) && forall m :: R.IsMissing(r, m) ==> m in k.ack.req
  {
  }

  // ---- all of a round ----

  /** What holds of writer and readers all through a round begun in `s`. */
  ghost predicate Steady(s: Sys, r: Sys) {
    && Inv(r) && NoneRequested(r.w) && r.w.hc.unprocessed == {} && r.w.script == [] && r.w.out == []
    && r.w.cfg == s.w.cfg && WriterKept(s.w, r.w)
    && r.w.hc.changes.Keys <= Trimmed(s.w).hc.changes.Keys
    && forall g :: g in s.w.proxies ==> g in s.peers && g in r.peers && r.peers[g].rel == s.peers[g].rel
  }

  /** A heartbeat from above `b`, or an ACKNACK that claims `b`, is under way. */
  ghost predicate OnItsWay(link: seq<Item>, due: seq<Ack>, b: int) {
    || (exists i :: 0 <= i < |link| && BeatsAbove(link[i].msg, b))
    || (exists i :: 0 <= i < |due| && due[i].base > b)
  }

  predicate BeatsAbove(msg: Msg, b: int) {
    msg.Heartbeat? && msg.first > b && R.HeartbeatValid(msg.first, msg.last)
  }

  /** The writer still hears from reader `h` about the number after `m`. */
  ghost predicate Awaited(n: Net, h: Guid, m: int) {
    && h in n.s.w.proxies && h in n.s.peers
    && (Unacked(n.s.w, h, m + 1) || OnItsWay(n.s.peers[h].link, Due(n, h), m + 1))
  }

  predicate Unacked(w: Writer, h: Guid, b: int) {
    b in w.hc.changes && h in w.proxies && !IsAcked(w.proxies[h].state, b)
  }

  /** A change that all have acknowledged stays only for readers still to come, or for as
      long as some reader is to be heard about the next number. */
  ghost predicate Stays(n: Net, m: int) {
    n.s.w.cfg.durability == TransientLocal && (m == n.s.w.processed || exists h :: Awaited(n, h, m))
  }

  ghost predicate NothingForgotten(n: Net) {
    forall m :: m in n.s.w.hc.changes && AckedByAll(n.s.w, m) ==> Stays(n, m)
  }

  ghost predicate Attended(s: Sys, n: Net, g: Guid)
    requires g in s.peers && s.peers[g].reader.Some? && g in n.s.peers
  {
    if g in n.heard
    then Serving(n.s.peers[g], Due(n, g), MaxSettled(n.s.w), GoalOf(s, g))
    else Unheard(n.s.peers[g], s.peers[g].reader.value, Due(n, g), GoalOf(s, g))
  }

  ghost predicate InRound(s: Sys, n: Net)
    requires CalmAll(s)
  {
    && Steady(s, n.s)
    && (forall g :: g in s.w.proxies ==> Attended(s, n, g))
    && NothingForgotten(n)
  }

  lemma AnnounceAll(t: Writer, g: Guid)
    requires t.out == [] && HeartbeatRangeOk(MinSettled(t), MaxSettled(t))
    requires g in t.proxies && t.proxies[g].locators.HeartbeatTargets() != []
    ensures var r := Announce(t, false); r == t.(out := r.out) && MsgsFor(r.out, g) == [HeartbeatOf(t)]
  {
    hide HeartbeatAudience, MinSettled, MaxSettled;
    ListeningIsTarget(t, Guids(t), g);
    var send := Send(HeartbeatOf(t), HeartbeatAudience(t, Guids(t)));
    assert IsFor(send, g);
    OneMsg(send, g);
    assert Announce(t, false).out == [send];
  }

  lemma TrimmedQuiet(w: Writer)
    requires Numbered(w)
    ensures var t := Trimmed(w); t.script == [] && t.out == [] && t.cfg == w.cfg && t.proxies.Keys == w.proxies.Keys
    ensures forall g :: g in w.proxies ==> Trimmed(w).proxies[g].locators == w.proxies[g].locators
  {
    TrimmedShape(w);
  }

  lemma FiredAll(s: Sys, g: Guid)
    requires ReadyAll(s) && !AllAcked(s.w) && g in s.w.proxies
    ensures var s1, t := Fire(s).s, Trimmed(s.w);
      && Steady(s, s1) && s1.w == t
      && s1.peers[g] == s.peers[g].(link := [Item(HeartbeatOf(t), t.processed)], hi := t.processed)
  {
    hide Inv, Trimmed, Announce, SendHeartbeat, NoneRequested, AllAcked, Apply, MsgsFor;
    var step, t := Step.HeartbeatTimer(false, []), Trimmed(s.w);
    WriterFacts(s);
    TrimmedQuiet(s.w);
    TrimmedSpan(s.w);
    TrimmedRest(s.w);
    TrimmedShape(s.w);
    AnnounceAll(t, g);
    ApplyHeartbeat(s);
    PostOne(s.(w := Announce(t, false)), g, HeartbeatOf(t));
    NoneRequestedApply(s, step);
    forall h | h in s.w.proxies
      ensures Inv(Apply(s, step)) && Kept(s, Apply(s, step), h)
    {
      KeptStep(s, step, h);
    }
    assert Post(s.(w := Announce(t, false))).w == t;
  }

  lemma TrimmedAcked(w: Writer, n: int)
    requires Numbered(w) && w.hc.unprocessed == {} && n in Trimmed(w).hc.changes
    ensures AckedByAll(Trimmed(w), n) <==> AckedByAll(w, n)
  {
    hide Removable, MaxSettled;
    TrimmedIs(w);
    var v := Begin(w, []);
    RemovedAcked(v, Removable(v, MaxSettled(v)), n);
  }

  lemma RemovedAcked(v: Writer, s: set<int>, n: int)
    requires v.hc.unprocessed == {} && n in Removed(v, s).hc.changes
    ensures AckedByAll(Removed(v, s), n) <==> AckedByAll(v, n)
  {
    var r := Removed(v, s);
    forall g | g in v.proxies
      ensures IsAcked(r.proxies[g].state, n) <==> IsAcked(v.proxies[g].state, n)
    {
    }
    assert r.proxies.Keys == v.proxies.Keys;
  }

  lemma FireStays(s: Sys, m: int)
    requires ReadyAll(s) && !AllAcked(s.w) && m in Trimmed(s.w).hc.changes && AckedByAll(Trimmed(s.w), m)
    ensures s.w.cfg.durability == TransientLocal && m == s.w.processed
  {
    hide Trimmed, NoneRequested;
    WriterFacts(s);
    TrimmedShape(s.w);
    TrimmedAcked(s.w, m);
    TrimmedLeft(s.w, m);
    if s.w.processed >= 1 && s.w.cfg.durability == TransientLocal {
      NewestIsMax(s.w);
    }
  }

  lemma FireInRound(s: Sys)
    requires ReadyAll(s) && !AllAcked(s.w)
    ensures InRound(s, Fire(s))
  {
    hide Inv, Trimmed, NoneRequested, AllAcked, AckedByAll, RoundAck, Steady, Attended, Stays, Fire;
    SomeReader(s.w);
    var some := Member(s.w.proxies.Keys);
    FiredAll(s, some);
    WriterFacts(s);
    forall g | g in s.w.proxies
      ensures g in Fire(s).s.peers && Attended(s, Fire(s), g)
    {
      FireAttends(s, g);
    }
    forall m | m in Fire(s).s.w.hc.changes && AckedByAll(Fire(s).s.w, m)
      ensures Stays(Fire(s), m)
    {
      FireStays(s, m);
      TrimmedShape(s.w);
      StaysAsNewest(Fire(s), m);
    }
  }

  lemma StaysAsNewest(n: Net, m: int)
    requires n.s.w.cfg.durability == TransientLocal && m == n.s.w.processed
    ensures Stays(n, m)
  {
  }

  lemma FireAttends(s: Sys, g: Guid)
    requires ReadyAll(s) && !AllAcked(s.w) && g in s.w.proxies
    ensures g in Fire(s).s.peers && Attended(s, Fire(s), g)
  {
    hide Inv, Trimmed, NoneRequested, AllAcked, RoundAck, Steady;
    FiredAll(s, g);
  }

  lemma SomeReader(w: Writer)
    requires !AllAcked(w)
    ensures w.proxies.Keys != {}
  {
  }

  // ---- a message arrives ----

  lemma AboveStays(p: Peer, due: seq<Ack>, max: int, k: Goal, b: int)
    requires GoalOk(k) && Serving(p, due, max, k) && p.link != [] && ReaderOk(p)
    requires OnItsWay(p.link, due, b) && b <= k.last
    ensures OnItsWay(p.link[1..], due + AnswersTo(p, p.link[0].msg, {}), b)
  {
    hide R.OnHeartbeat, AckValid, Pending;
    var msg, rest := p.link[0].msg, p.link[1..];
    var more := due + AnswersTo(p, msg, {});
    if i :| 0 <= i < |p.link| && BeatsAbove(p.link[i].msg, b) {
      if i > 0 {
        assert rest[i - 1] == p.link[i];
      } else {
        ServeHear(p, due, max, k);
        var a := more[|due|];
        assert AckFine(a, k);
        AnswerAbove(p.reader.value, msg.first, msg.last, a);
      }
    } else {
      var j :| 0 <= j < |due| && due[j].base > b;
      assert more[j] == due[j];
    }
  }

  /** An answer asks for nothing below the heartbeat's range. */
  lemma AnswerAbove(cs: R.CacheState, first: int, last: int, a: Ack)
    requires a.req == R.MissingSet(R.OnHeartbeat(cs, {}, first, last))
    ensures forall m :: m in a.req ==> m >= first
  {
  }

  lemma HappenHear(n: Net, g: Guid, taken: set<int>)
    requires Inv(n.s) && g in n.s.w.proxies && g in n.s.peers && n.s.peers[g].link != []
    ensures var r, p, t := Happen(n, Hear(g, taken)), n.s.peers[g], TakenNow(n, g, taken);
      var q := Receive(p, p.link[0].msg, t).(link := p.link[1..]);
      && Inv(r.s) && r.s == n.s.(peers := n.s.peers[g := q])
      && r.due == n.due[g := Due(n, g) + AnswersTo(p, p.link[0].msg, t)] && r.heard == n.heard + {g}
  {
    OneDelivered(n.s, g, TakenNow(n, g, taken));
  }

  lemma HearSteady(s: Sys, n: Net, g: Guid, taken: set<int>)
    requires Steady(s, n.s) && g in n.s.w.proxies && g in n.s.peers && n.s.peers[g].link != []
    ensures Steady(s, Happen(n, Hear(g, taken)).s)
  {
    hide Happen, Inv, Receive, NoneRequested, Trimmed;
    HappenHear(n, g, taken);
    var p := n.s.peers[g];
    ReceiveKeepsRel(p, p.link[0].msg, TakenNow(n, g, taken));
  }

  lemma ReceiveKeepsRel(p: Peer, msg: Msg, taken: set<int>)
    ensures Receive(p, msg, taken).rel == p.rel
  {
  }

  lemma HearAttends(s: Sys, n: Net, g: Guid, taken: set<int>, h: Guid)
    requires ReadyAll(s) && !AllAcked(s.w) && AllFit(s) && InRound(s, n)
    requires g in s.w.proxies && n.s.peers[g].link != [] && h in s.w.proxies
    ensures var r := Happen(n, Hear(g, taken)); h in r.s.peers && Attended(s, r, h)
  {
    hide Happen, Inv, Receive, NoneRequested, Trimmed, AckValid, Serving, RoundAck, AllAcked, GoalOk, AnswersTo, R.OnHeartbeat;
    HappenHear(n, g, taken);
    assert Attended(s, n, h);
    if h == g {
      var p, k := n.s.peers[g], GoalOf(s, g);
      GoalFine(s, g);
      ReaderOkOf(n.s, g);
      if g in n.heard {
        ServeHear(p, Due(n, g), MaxSettled(n.s.w), k);
      } else {
        GoalIs(s, g);
        WaitHear(p, s.peers[g].reader.value, taken, MaxSettled(n.s.w), k);
        assert [] + [k.ack] == [k.ack];
      }
    }
  }

  lemma GoalIs(s: Sys, g: Guid)
    requires g in s.peers && s.peers[g].reader.Some?
    ensures var k := GoalOf(s, g);
      var r := R.OnHeartbeat(s.peers[g].reader.value, {}, k.first, k.last);
      k.ack == Ack(R.AckBase(r), R.MissingSet(r))
  {
  }

  lemma LastIsNewest(s: Sys)
    requires ReadyAll(s) && !AllAcked(s.w) && s.w.cfg.durability == TransientLocal
    ensures MaxSettled(Trimmed(s.w)) == s.w.processed
  {
    hide NoneRequested, AllAcked;
    WriterFacts(s);
    TrimmedSpan(s.w);
    TrimmedShape(s.w);
    if s.w.processed in Trimmed(s.w).hc.changes {
      NewestIsMax(Trimmed(s.w));
    } else {
      NewestIsMax(s.w);
      TrimmedLeft(s.w, s.w.processed);
    }
  }

  /** Cached changes lie within the range of the round's heartbeat. */
  lemma WithinRange(s: Sys, n: Net, m: int)
    requires ReadyAll(s) && Steady(s, n.s) && m in n.s.w.hc.changes
    ensures MinSettled(Trimmed(s.w)) <= m <= MaxSettled(Trimmed(s.w)) && m <= s.w.processed
  {
    hide NoneRequested;
    WriterFacts(s);
    TrimmedShape(s.w);
    InTrimmed(Trimmed(s.w), m);
    assert m !in s.w.hc.unprocessed;
  }

  lemma HearStays(s: Sys, n: Net, g: Guid, taken: set<int>, m: int)
    requires ReadyAll(s) && !AllAcked(s.w) && AllFit(s) && InRound(s, n)
    requires g in s.w.proxies && n.s.peers[g].link != []
    requires m in n.s.w.hc.changes && AckedByAll(n.s.w, m)
    ensures Stays(Happen(n, Hear(g, taken)), m)
  {
    hide Happen, Inv, Receive, NoneRequested, Trimmed, AckValid, Serving, RoundAck, AllAcked, AckedByAll, GoalOk, AnswersTo,
         OnItsWay, Unacked;
    var r := Happen(n, Hear(g, taken));
    HappenHear(n, g, taken);
    assert Stays(n, m);
    if m != n.s.w.processed {
      var h :| Awaited(n, h, m);
      WithinRange(s, n, m);
      LastIsNewest(s);
      assert Attended(s, n, g);
      if h == g && !Unacked(n.s.w, g, m + 1) {
        if g in n.heard {
          GoalFine(s, g);
          ReaderOkOf(n.s, g);
          AboveStays(n.s.peers[g], Due(n, g), MaxSettled(n.s.w), GoalOf(s, g), m + 1);
        } else {
          NotFromAbove(n.s.peers[g], s.peers[g].reader.value, GoalOf(s, g), m + 1);
        }
      }
      assert Awaited(r, h, m);
    }
  }

  lemma NotFromAbove(p: Peer, cs: R.CacheState, k: Goal, b: int)
    requires Unheard(p, cs, [], k) && k.first < b
    ensures !OnItsWay(p.link, [], b)
  {
  }

  lemma HearInRound(s: Sys, n: Net, g: Guid, taken: set<int>)
    requires ReadyAll(s) && !AllAcked(s.w) && AllFit(s) && InRound(s, n)
    requires g in s.w.proxies && n.s.peers[g].link != []
    ensures InRound(s, Happen(n, Hear(g, taken)))
  {
    hide Happen, Inv, NoneRequested, Trimmed, RoundAck, AllAcked, AllFit, AckedByAll, Attended, Stays, TakenNow;
    var r := Happen(n, Hear(g, taken));
    HearSteady(s, n, g, taken);
    HappenHear(n, g, taken);
    forall h | h in s.w.proxies
      ensures h in r.s.peers && Attended(s, r, h)
    {
      HearAttends(s, n, g, taken, h);
    }
    forall m | m in r.s.w.hc.changes && AckedByAll(r.s.w, m)
      ensures Stays(r, m)
    {
      HearStays(s, n, g, taken, m);
    }
  }

  // ---- an ACKNACK arrives ----

  lemma {:induction false} NoneFor(out: seq<Send>, g: Guid)
    requires forall i :: 0 <= i < |out| ==> !IsFor(out[i], g)
    ensures MsgsFor(out, g) == []
    decreases |out|
  {
    if out != [] {
      assert forall i :: 0 <= i < |out[1..]| ==> out[1..][i] == out[i + 1];
      NoneFor(out[1..], g);
    }
  }

  lemma RepairOutIs(w: Writer, g: Guid)
    requires w.script == [] && w.out == [] && g in w.proxies
    ensures Repair(w, g).out == RepairList(w, Plan(w, [g], Requested, true), Plan(w, [g], Requested, false))
  {
    var data, gaps := Plan(w, [g], Requested, true), Plan(w, [g], Requested, false);
    var a := w.(proxies := w.proxies[g := DrainProxy(w.proxies[g], Requested)]);
    RepairSteps(a, data, List(data.Keys), gaps, List(gaps.Keys));
    RepairSendsElsewhere(w, a, data, List(data.Keys));
  }

  lemma OneTargetOnly(send: Send, g: Guid, h: Guid)
    requires OneTarget(send.to, g) && h != g
    ensures !IsFor(send, h)
  {
  }

  lemma RepairTargetAt(w: Writer, g: Guid, i: nat)
    requires g in w.proxies && w.proxies[g].locators.DataTargets() != []
    ensures var out := RepairList(w, Plan(w, [g], Requested, true), Plan(w, [g], Requested, false));
      i < |out| ==> OneTarget(out[i].to, g)
  {
    hide Plan, RepairSends, GapSends;
    var data, gaps := Plan(w, [g], Requested, true), Plan(w, [g], Requested, false);
    var xs, ys := List(data.Keys), List(gaps.Keys);
    assert |RepairList(w, data, gaps)| == |xs| + |ys| by { RepairListLength(w, data, gaps); }
    if i < |xs| + |ys| {
      SendAt(w, data, xs, gaps, ys, i);
      PlanFor(w, g, i < |xs|, if i < |xs| then xs[i] else ys[i - |xs|]);
    }
  }

  lemma RepairListLength(w: Writer, data: map<int, seq<Target>>, gaps: map<int, seq<Target>>)
    ensures |RepairList(w, data, gaps)| == |List(data.Keys)| + |List(gaps.Keys)|
  {
  }

  lemma RepairsOnlyFor(w: Writer, g: Guid, h: Guid)
    requires w.script == [] && w.out == [] && g in w.proxies && w.proxies[g].locators.DataTargets() != [] && h != g
    ensures MsgsFor(Repair(w, g).out, h) == []
  {
    hide Plan, MsgsFor, RepairList, Repair, IsFor, OneTarget;
    RepairOutIs(w, g);
    var out := RepairList(w, Plan(w, [g], Requested, true), Plan(w, [g], Requested, false));
    forall i | 0 <= i < |out|
      ensures !IsFor(out[i], h)
    {
      RepairTargetAt(w, g, i);
      OneTargetOnly(out[i], g, h);
    }
    NoneFor(out, h);
  }

  lemma AnsweredOnly(w: Writer, g: Guid, a: Ack, h: Guid)
    requires AtRest(w, g) && h != g
    ensures MsgsFor(Answered(w, g, a.base, a.req).out, h) == []
  {
    hide MsgsFor, Repair;
    var w1 := NoteAck(w, g, a.base, a.req);
    RepairsOnlyFor(w1, g, h);
    NoneFor([], h);
  }

  /** What an ACKNACK makes of the writer: what it sends, and what it forgets. */
  lemma Taken(w: Writer, g: Guid, a: Ack)
    requires AtRest(w, g)
    ensures var v, r := Answered(w, g, a.base, a.req), HandleAckNack(w, g, a.base, a.req);
      && r == Removed(v, Removable(v, a.base - 1)) && r.out == v.out && r.cfg == w.cfg && r.script == []
      && r.hc.unprocessed == {} && r.hc.changes.Keys <= w.hc.changes.Keys
  {
    AckHandled(w, g, a);
    AnsweredIs(w, g, a.base, a.req);
  }

  /** Which changes an ACKNACK leaves, and which of them all have acknowledged then. */
  lemma LeftBy(w: Writer, g: Guid, a: Ack, m: int)
    requires AtRest(w, g) && m in w.hc.changes
    ensures var v, r := Answered(w, g, a.base, a.req), HandleAckNack(w, g, a.base, a.req);
      && (m in r.hc.changes <==> !(m <= RemovalBound(w, a.base - 1) && AckedByAll(v, m)))
      && (m in r.hc.changes ==> (AckedByAll(r, m) <==> AckedByAll(v, m)))
      && (m in r.hc.changes ==> forall h :: h in w.proxies && h in r.proxies && h in v.proxies ==>
            (IsAcked(r.proxies[h].state, m) <==> IsAcked(v.proxies[h].state, m)))
  {
    hide HandleAckNack, Answered, AckedByAll;
    Taken(w, g, a);
    AnsweredIs(w, g, a.base, a.req);
    var v, r := Answered(w, g, a.base, a.req), HandleAckNack(w, g, a.base, a.req);
    assert AckedByAll(v, m) && m <= RemovalBound(v, a.base - 1) <==> m in Removable(v, a.base - 1);
    if m in r.hc.changes {
      RemovedAcked(v, Removable(v, a.base - 1), m);
    }
  }

  /** Only the reader that sent it is seen differently. */
  lemma SeenBy(w: Writer, g: Guid, a: Ack, h: Guid, m: int)
    requires AtRest(w, g) && h in w.proxies && m in w.proxies[h].state
    ensures var v := Answered(w, g, a.base, a.req);
      && h in v.proxies
      && (IsAcked(v.proxies[h].state, m) <==>
            if h == g && w.proxies[g].state[m].relevant
            then m !in a.req && (m < a.base || IsAcked(w.proxies[g].state, m))
            else IsAcked(w.proxies[h].state, m))
  {
    AnsweredIs(w, g, a.base, a.req);
    if h == g {
      StateAfterEntry(w.proxies[g].state, a.base, a.req, m);
    }
  }

  /** Requests are repaired, and what is still missing is in hand. */
  lemma ServeReturn(p: Peer, due: seq<Ack>, max: int, k: Goal, msgs: seq<Msg>, top: int, less: int)
    requires GoalOk(k) && Serving(p, due, max, k) && due != [] && less <= max <= k.last
    requires Convergence.Answers(msgs, due[0].req, max) && forall i :: 0 <= i < |msgs| ==> Arrives(msgs[i])
    ensures Serving(Posted(p, msgs, top), due[1..], less, k)
  {
    hide AckValid;
    var q, a, rest := Posted(p, msgs, top), due[0], due[1..];
    assert AckFine(a, k);
    forall i | 0 <= i < |q.link|
      ensures Fine(q.link[i].msg, k)
      ensures i < |p.link| ==> q.link[i] == p.link[i]
      ensures i >= |p.link| ==> q.link[i].msg == msgs[i - |p.link|]
    {
      if i < |p.link| {
        assert Fine(p.link[i].msg, k);
      } else {
        var msg := msgs[i - |p.link|];
        assert Settles(msg, NumberOf(msg), max) && NumberOf(msg) in a.req;
      }
    }
    assert |q.link| == |p.link| + |msgs|;
    assert DueFine(q, rest, k) by {
      assert forall i :: 0 <= i < |rest| ==> rest[i] == due[i + 1];
    }
    forall m | R.IsMissing(p.reader.value, m) && m <= less
      ensures InHand(q.link, rest, m)
    {
      if i :| 0 <= i < |p.link| && Mends(p.link[i].msg, m) {
        assert Mends(q.link[i].msg, m);
      } else if m in a.req {
        var i :| 0 <= i < |msgs| && Settles(msgs[i], m, max);
        assert Mends(q.link[|p.link| + i].msg, m);
      } else {
        var j :| 0 <= j < |due| && m in due[j].req;
        assert rest[j - 1] == due[j];
      }
    }
  }

  lemma ServeElsewhere(p: Peer, due: seq<Ack>, max: int, k: Goal, less: int)
    requires Serving(p, due, max, k) && less <= max
    ensures Serving(p, due, less, k)
  {
  }

  lemma RestingFor(s: Sys, r: Sys, g: Guid)
    requires Steady(s, r) && g in s.w.proxies
    ensures AtRest(r.w, g) && Begin(r.w, []) == r.w
  {
    hide Inv, Trimmed;
    WriterFacts(r);
  }

  /** The oldest ACKNACK of a reader that is being repaired. */
  ghost predicate Next(n: Net, g: Guid, a: Ack) {
    && g in n.s.w.proxies && g in n.s.peers && Due(n, g) != [] && Due(n, g)[0] == a
    && a in n.s.peers[g].acks && AckValid(a)
  }

  lemma HappenReturn(s: Sys, n: Net, g: Guid, a: Ack)
    requires Steady(s, n.s) && Next(n, g, a)
    ensures var r, w1 := Happen(n, Return(g)), HandleAckNack(n.s.w, g, a.base, a.req);
      && r.s == Post(n.s.(w := w1)) && r.due == n.due[g := Due(n, g)[1..]] && r.heard == n.heard
  {
    hide Post, HandleAckNack, Inv, AckValid, Trimmed, NoneRequested;
    RestingFor(s, n.s, g);
    AckArrivesIs(n.s, g, a);
  }

  lemma AfterReturn(s: Sys, n: Net, g: Guid, a: Ack)
    requires Steady(s, n.s) && Next(n, g, a)
    ensures var r, w1 := Happen(n, Return(g)), HandleAckNack(n.s.w, g, a.base, a.req);
      && r.s.w == w1.(out := []) && r.s.w.hc == w1.hc && r.s.w.proxies == w1.proxies && r.s.peers.Keys == n.s.peers.Keys
      && forall h :: h in n.s.peers ==> r.s.peers[h] == Posted(n.s.peers[h], MsgsFor(w1.out, h), w1.processed)
  {
    hide Happen, HandleAckNack, Answered, Inv, AckValid, Trimmed, NoneRequested, MsgsFor, Posted;
    HappenReturn(s, n, g, a);
    RestingFor(s, n.s, g);
    Taken(n.s.w, g, a);
  }

  lemma ReturnSteady(s: Sys, n: Net, g: Guid, a: Ack)
    requires Steady(s, n.s) && Next(n, g, a)
    ensures Steady(s, Happen(n, Return(g)).s)
  {
    hide HandleAckNack, Answered, Apply, Post, Inv, AckValid, Trimmed, NoneRequested;
    var step := AckArrives(g, a, []);
    assert Happen(n, Return(g)).s == Apply(n.s, step);
    AfterReturn(s, n, g, a);
    RestingFor(s, n.s, g);
    Taken(n.s.w, g, a);
    NoneRequestedApply(n.s, step);
    forall h | h in s.w.proxies
      ensures Inv(Apply(n.s, step)) && Kept(n.s, Apply(n.s, step), h)
    {
      KeptStep(n.s, step, h);
    }
    KeptStep(n.s, step, g);
  }

  /** A cached change that is owed can arrive, now as at the start of the round. */
  lemma OwedCanArrive(s: Sys, r: Sys, g: Guid, m: int)
    requires ReadyAll(s) && AllCarried(s.w) && Steady(s, r) && g in s.w.proxies
    requires m in r.w.hc.changes && m in r.w.proxies[g].state && r.w.proxies[g].state[m].relevant
    ensures Deliverable(r.w.hc.changes[m])
  {
    hide Trimmed, NoneRequested, Inv;
    WriterFacts(s);
    WriterFacts(r);
    TrimmedShape(s.w);
    OwedIsRelevant(r, g, m);
    RegisteredIn(s.w, g, m);
    RelevantIsOwed(s, g, m);
    assert !Hopeless(s.w, g, m);
  }

  lemma RelevantIsOwed(s: Sys, g: Guid, m: int)
    requires Inv(s) && g in s.w.proxies && g in s.peers && m in s.peers[g].rel && m in s.w.proxies[g].state
    ensures s.w.proxies[g].state[m].relevant
  {
    assert ProxyOk(s.w, s.peers[g], s.w.proxies[g]);
    assert EntryOk(s.w, s.peers[g], m, s.w.proxies[g].state[m]);
  }

  /** What is sent back can arrive. */
  lemma RepairsCanArrive(s: Sys, n: Net, g: Guid, a: Ack, i: nat)
    requires ReadyAll(s) && AllCarried(s.w) && Steady(s, n.s) && g in s.w.proxies
    requires i < |MsgsFor(HandleAckNack(n.s.w, g, a.base, a.req).out, g)|
    ensures Arrives(MsgsFor(HandleAckNack(n.s.w, g, a.base, a.req).out, g)[i])
  {
    hide HandleAckNack, Answered, Inv, AckValid, Trimmed, NoneRequested, MsgsFor;
    var w := n.s.w;
    RestingFor(s, n.s, g);
    WriterFacts(n.s);
    Taken(w, g, a);
    AnsweredIs(w, g, a.base, a.req);
    var msg := MsgsFor(HandleAckNack(w, g, a.base, a.req).out, g)[i];
    assert OwedMsg(msg, w.hc.changes, Noted(w.proxies[g].state, a.base, a.req));
    if msg.Data? {
      RegisteredIn(w, g, msg.n);
      OwedCanArrive(s, n.s, g, msg.n);
    }
  }

  lemma MaxShrinks(w: Writer, r: Writer)
    requires Numbered(w) && w.hc.unprocessed == {} && r.hc.unprocessed == {} && r.hc.changes.Keys <= w.hc.changes.Keys
    ensures 0 <= MaxSettled(r) <= MaxSettled(w)
  {
    AllSettled(w);
    AllSettled(r);
    if r.hc.changes.Keys != {} {
      assert MaxSettled(r) in w.hc.changes;
    } else if w.hc.changes.Keys != {} {
      assert MaxSettled(w) in w.hc.changes;
    }
  }

  lemma MaxInRange(s: Sys, r: Sys)
    requires ReadyAll(s) && !AllAcked(s.w) && Steady(s, r)
    ensures MaxSettled(r.w) <= MaxSettled(Trimmed(s.w))
  {
    hide Inv, NoneRequested, AllAcked, Trimmed;
    WriterFacts(s);
    TrimmedShape(s.w);
    MaxShrinks(Trimmed(s.w), r.w);
  }

  lemma NextOf(s: Sys, n: Net, g: Guid)
    requires CalmAll(s) && InRound(s, n) && g in s.w.proxies && Due(n, g) != []
    ensures g in n.heard && Next(n, g, Due(n, g)[0]) && Serving(n.s.peers[g], Due(n, g), MaxSettled(n.s.w), GoalOf(s, g))
  {
    hide Inv, NoneRequested, Trimmed, AckValid, Pending, LinkFine;
    assert Attended(s, n, g);
    assert AckFine(Due(n, g)[0], GoalOf(s, g));
  }

  lemma ReturnAttends(s: Sys, n: Net, g: Guid, h: Guid)
    requires ReadyAll(s) && !AllAcked(s.w) && AllFit(s) && AllCarried(s.w) && InRound(s, n)
    requires g in s.w.proxies && Due(n, g) != [] && h in s.w.proxies
    ensures var r := Happen(n, Return(g)); h in r.s.peers && Attended(s, r, h)
  {
    hide Happen, HandleAckNack, Answered, Inv, AckValid, Trimmed, NoneRequested, MsgsFor, AllAcked, Serving, GoalOk, RoundAck, Posted;
    var a := Due(n, g)[0];
    NextOf(s, n, g);
    HappenReturn(s, n, g, a);
    AfterReturn(s, n, g, a);
    ReturnSteady(s, n, g, a);
    RestingFor(s, n.s, g);
    WriterFacts(n.s);
    var r, w, w1 := Happen(n, Return(g)), n.s.w, HandleAckNack(n.s.w, g, a.base, a.req);
    Taken(w, g, a);
    MaxShrinks(w, r.s.w);
    assert Attended(s, n, h);
    if h == g {
      GoalFine(s, g);
      MaxInRange(s, n.s);
      AnsweredIs(w, g, a.base, a.req);
      var msgs := MsgsFor(w1.out, g);
      forall i | 0 <= i < |msgs|
        ensures Arrives(msgs[i])
      {
        RepairsCanArrive(s, n, g, a, i);
      }
      ServeReturn(n.s.peers[g], Due(n, g), MaxSettled(w), GoalOf(s, g), msgs, w1.processed, MaxSettled(r.s.w));
    } else {
      AnsweredOnly(w, g, a, h);
      NothingPostedTo(n.s.peers[h], w1.processed);
      if h in n.heard {
        ServeElsewhere(n.s.peers[h], Due(n, h), MaxSettled(w), GoalOf(s, h), MaxSettled(r.s.w));
      }
    }
  }

  lemma NothingPostedTo(p: Peer, top: int)
    ensures Posted(p, [], top) == p
  {
  }

  // ---- what an ACKNACK leaves behind ----

  /** The next number is cached and not acknowledged by `h`: so it remains, if the ACKNACK
      does not claim it. */
  lemma UnackedRemains(s: Sys, n: Net, g: Guid, a: Ack, h: Guid, b: int)
    requires Steady(s, n.s) && g in s.w.proxies && h in s.w.proxies && Unacked(n.s.w, h, b) && (h == g ==> a.base <= b)
    ensures Unacked(HandleAckNack(n.s.w, g, a.base, a.req), h, b)
  {
    hide HandleAckNack, Answered, Inv, Trimmed, NoneRequested, IsAcked;
    var w := n.s.w;
    RestingFor(s, n.s, g);
    WriterFacts(n.s);
    RegisteredIn(w, h, b);
    Relevance(w, h, b);
    SeenBy(w, g, a, h, b);
    LeftBy(w, g, a, b);
    Taken(w, g, a);
    var v := Answered(w, g, a.base, a.req);
    AnsweredIs(w, g, a.base, a.req);
    assert !AckedByAll(v, b);
  }

  lemma Relevance(w: Writer, h: Guid, b: int)
    requires Unacked(w, h, b) && b in w.proxies[h].state
    ensures w.proxies[h].state[b].relevant
  {
  }

  /** A change acknowledged by this ACKNACK was owed, and lies below its base. */
  lemma NewlyAcked(s: Sys, n: Net, g: Guid, a: Ack, m: int)
    requires Steady(s, n.s) && g in s.w.proxies && m in n.s.w.hc.changes
    requires AckedByAll(Answered(n.s.w, g, a.base, a.req), m) && !AckedByAll(n.s.w, m)
    ensures m < a.base && m in n.s.peers[g].rel
  {
    hide Answered, Inv, Trimmed, NoneRequested, IsAcked;
    var w := n.s.w;
    RestingFor(s, n.s, g);
    WriterFacts(n.s);
    var h :| h in w.proxies && !IsAcked(w.proxies[h].state, m);
    RegisteredIn(w, h, m);
    SeenBy(w, g, a, h, m);
    assert Unacked(w, h, m);
    Relevance(w, h, m);
    OwedIsRelevant(n.s, h, m);
  }

  /** Above a change that is owed, no entry is irrelevant. */
  lemma OwedAbove(r: Sys, g: Guid, m: int, b: int)
    requires Inv(r) && g in r.w.proxies && g in r.peers && m in r.peers[g].rel && m < b <= r.w.processed
    ensures b in r.w.proxies[g].state ==> r.w.proxies[g].state[b].relevant
  {
    assert ProxyOk(r.w, r.peers[g], r.w.proxies[g]);
    if b in r.w.proxies[g].state {
      assert EntryOk(r.w, r.peers[g], b, r.w.proxies[g].state[b]);
    }
  }

  /** A request for a cached change that is owed takes its acknowledgement back. */
  lemma AskedStays(s: Sys, n: Net, g: Guid, a: Ack, b: int)
    requires Steady(s, n.s) && g in s.w.proxies && b in n.s.w.hc.changes && b in a.req
    requires b in n.s.w.proxies[g].state ==> n.s.w.proxies[g].state[b].relevant
    ensures Unacked(HandleAckNack(n.s.w, g, a.base, a.req), g, b)
  {
    hide HandleAckNack, Answered, Inv, Trimmed, NoneRequested, IsAcked;
    var w := n.s.w;
    RestingFor(s, n.s, g);
    WriterFacts(n.s);
    RegisteredIn(w, g, b);
    SeenBy(w, g, a, g, b);
    LeftBy(w, g, a, b);
    Taken(w, g, a);
    AnsweredIs(w, g, a.base, a.req);
    assert !AckedByAll(Answered(w, g, a.base, a.req), b);
  }

  predicate SomeAbove(msgs: seq<Msg>, b: int) {
    exists i :: 0 <= i < |msgs| && BeatsAbove(msgs[i], b)
  }

  /** A request for a change that has gone, though it was owed, is answered by a heartbeat
      from the next number on. */
  lemma GoneIsSkipped(w: Writer, g: Guid, a: Ack, b: int)
    requires AtRest(w, g) && b !in w.hc.changes && b in a.req && 1 <= b <= MaxSettled(w)
    requires b in w.proxies[g].state ==> w.proxies[g].state[b].relevant
    ensures SomeAbove(MsgsFor(HandleAckNack(w, g, a.base, a.req).out, g), b)
  {
    hide HandleAckNack, Answered, MsgsFor, Noted, MaxSettled, Removed, Convergence.Answers, OnlyOwed, SomeAbove;
    Taken(w, g, a);
    AnsweredIs(w, g, a.base, a.req);
    NotedRelevant(w.proxies[g].state, a.base, a.req, b);
    RequestMet(MsgsFor(Answered(w, g, a.base, a.req).out, g), a.req, MaxSettled(w), b, w.hc.changes,
               Noted(w.proxies[g].state, a.base, a.req));
    assert HandleAckNack(w, g, a.base, a.req).out == Answered(w, g, a.base, a.req).out;
  }

  lemma RequestMet(msgs: seq<Msg>, req: set<int>, last: int, b: int, changes: map<int, Payload>, cs: CacheState)
    requires Convergence.Answers(msgs, req, last) && OnlyOwed(msgs, changes, cs) && b in req && 1 <= b <= last
    requires b !in changes && b in cs && cs[b].relevant
    ensures SomeAbove(msgs, b)
  {
    hide OwedMsg, BeatsAbove, Settles;
    var i :| 0 <= i < |msgs| && Settles(msgs[i], b, last);
    OnlyABeat(msgs[i], changes, cs, b, last);
  }

  lemma OnlyABeat(msg: Msg, changes: map<int, Payload>, cs: CacheState, b: int, max: int)
    requires OwedMsg(msg, changes, cs) && Settles(msg, b, max) && 1 <= b <= max
    requires b !in changes && b in cs && cs[b].relevant
    ensures BeatsAbove(msg, b)
  {
  }

  lemma NotedRelevant(cs: CacheState, base: int, req: set<int>, b: int)
    requires b in req && (b in cs ==> cs[b].relevant)
    ensures b in Noted(cs, base, req) && Noted(cs, base, req)[b].relevant
  {
  }

  lemma NewestCached(r: Sys)
    requires Inv(r) && r.w.hc.unprocessed == {} && r.w.cfg.durability == TransientLocal && r.w.processed >= 1
    ensures MaxSettled(r.w) == r.w.processed
  {
    WriterFacts(r);
    NewestIsMax(r.w);
  }

  /** The base of the ACKNACK is the number after `m`, which it has acknowledged: then it
      asks for that number, and the reader is heard about it again. */
  lemma BaseIsAwaited(s: Sys, n: Net, g: Guid, a: Ack, m: int)
    requires Steady(s, n.s) && Next(n, g, a) && g in s.w.proxies && n.s.w.cfg.durability == TransientLocal
    requires m in n.s.peers[g].rel && 1 <= m < n.s.w.processed && a.base == m + 1 && m + 1 in a.req
    ensures Awaited(Happen(n, Return(g)), g, m)
  {
    hide Happen, HandleAckNack, Inv, Trimmed, NoneRequested, MsgsFor, AckValid;
    var r, w1 := Happen(n, Return(g)), HandleAckNack(n.s.w, g, a.base, a.req);
    AfterReturn(s, n, g, a);
    ReturnSteady(s, n, g, a);
    OwedAbove(n.s, g, m, m + 1);
    if m + 1 in n.s.w.hc.changes {
      AskedStays(s, n, g, a, m + 1);
    } else {
      NewestCached(n.s);
      RestingFor(s, n.s, g);
      GoneIsSkipped(n.s.w, g, a, m + 1);
      var msgs := MsgsFor(w1.out, g);
      var i :| 0 <= i < |msgs| && BeatsAbove(msgs[i], m + 1);
      PostedAtEnd(n.s.peers[g], msgs, w1.processed, i);
      assert BeatsAbove(r.s.peers[g].link[|n.s.peers[g].link| + i].msg, m + 1);
    }
  }

  lemma PostedAtEnd(p: Peer, msgs: seq<Msg>, top: int, i: nat)
    requires i < |msgs|
    ensures var q := Posted(p, msgs, top); |q.link| == |p.link| + |msgs| && q.link[|p.link| + i].msg == msgs[i]
  {
  }

  lemma AboveRemains(p: Peer, due: seq<Ack>, b: int, msgs: seq<Msg>, top: int)
    requires OnItsWay(p.link, due, b) && due != [] && due[0].base <= b
    ensures OnItsWay(Posted(p, msgs, top).link, due[1..], b)
  {
    var q := Posted(p, msgs, top);
    if i :| 0 <= i < |p.link| && BeatsAbove(p.link[i].msg, b) {
      assert q.link[i] == p.link[i];
    } else {
      var j :| 0 <= j < |due| && due[j].base > b;
      assert due[1..][j - 1] == due[j];
    }
  }

  lemma AboveElsewhere(p: Peer, due: seq<Ack>, b: int, msgs: seq<Msg>, top: int)
    requires OnItsWay(p.link, due, b)
    ensures OnItsWay(Posted(p, msgs, top).link, due, b)
  {
    var q := Posted(p, msgs, top);
    if i :| 0 <= i < |p.link| && BeatsAbove(p.link[i].msg, b) {
      assert q.link[i] == p.link[i];
    }
  }

  /** Whoever was awaited is awaited still, unless the ACKNACK claims the next number. */
  lemma AwaitedRemains(s: Sys, n: Net, g: Guid, a: Ack, h: Guid, m: int)
    requires Steady(s, n.s) && Next(n, g, a) && g in s.w.proxies && Awaited(n, h, m) && a.base <= m + 1
    ensures Awaited(Happen(n, Return(g)), h, m)
  {
    hide Happen, HandleAckNack, Inv, Trimmed, NoneRequested, MsgsFor, AckValid, OnItsWay, Unacked, Posted;
    var w1 := HandleAckNack(n.s.w, g, a.base, a.req);
    HappenReturn(s, n, g, a);
    AfterReturn(s, n, g, a);
    ReturnSteady(s, n, g, a);
    if Unacked(n.s.w, h, m + 1) {
      UnackedRemains(s, n, g, a, h, m + 1);
      UnackedSame(w1, m + 1, h);
    } else if h == g {
      AboveRemains(n.s.peers[g], Due(n, g), m + 1, MsgsFor(w1.out, g), w1.processed);
    } else {
      AboveElsewhere(n.s.peers[h], Due(n, h), m + 1, MsgsFor(w1.out, h), w1.processed);
    }
  }

  lemma UnackedSame(w: Writer, b: int, h: Guid)
    ensures Unacked(w.(out := []), h, b) <==> Unacked(w, h, b)
  {
  }

  lemma ReturnStays(s: Sys, n: Net, g: Guid, m: int)
    requires ReadyAll(s) && !AllAcked(s.w) && InRound(s, n) && g in s.w.proxies && Due(n, g) != []
    requires var r := Happen(n, Return(g)); m in r.s.w.hc.changes && AckedByAll(r.s.w, m)
    ensures Stays(Happen(n, Return(g)), m)
  {
    hide Happen, HandleAckNack, Answered, Inv, Trimmed, NoneRequested, AllAcked, AckedByAll, AckValid, Attended, Awaited, RoundAck;
    var r, w, a := Happen(n, Return(g)), n.s.w, Due(n, g)[0];
    NextOf(s, n, g);
    HappenReturn(s, n, g, a);
    AfterReturn(s, n, g, a);
    RestingFor(s, n.s, g);
    Taken(w, g, a);
    LeftBy(w, g, a, m);
    SameAcked(HandleAckNack(w, g, a.base, a.req), m);
    WithinRange(s, n, m);
    ReturnSteady(s, n, g, a);
    assert m > RemovalBound(w, a.base - 1);
    if AckedByAll(w, m) {
      assert Stays(n, m);
      if m != w.processed {
        var h :| Awaited(n, h, m);
        AwaitedRemains(s, n, g, a, h, m);
      }
    } else {
      NewlyAcked(s, n, g, a, m);
      NewlyStays(s, n, g, m);
    }
  }

  lemma SameAcked(w: Writer, m: int)
    ensures AckedByAll(w.(out := []), m) <==> AckedByAll(w, m)
  {
  }

  lemma NewlyStays(s: Sys, n: Net, g: Guid, m: int)
    requires ReadyAll(s) && !AllAcked(s.w) && InRound(s, n) && g in s.w.proxies && Due(n, g) != []
    requires m in n.s.w.hc.changes && m in n.s.peers[g].rel
    requires var a := Due(n, g)[0]; RemovalBound(n.s.w, a.base - 1) < m < a.base
    ensures Stays(Happen(n, Return(g)), m)
  {
    hide Happen, Inv, Trimmed, NoneRequested, AllAcked, AckValid, Awaited, RoundAck, Pending, LinkFine;
    var r, a := Happen(n, Return(g)), Due(n, g)[0];
    NextOf(s, n, g);
    ReturnSteady(s, n, g, a);
    WithinRange(s, n, m);
    WriterFacts(n.s);
    assert n.s.w.cfg.durability == TransientLocal && a.base == m + 1;
    if m != n.s.w.processed {
      LastIsNewest(s);
      assert AckFine(a, GoalOf(s, g));
      BaseIsAwaited(s, n, g, a, m);
    }
  }

  lemma ReturnInRound(s: Sys, n: Net, g: Guid)
    requires ReadyAll(s) && !AllAcked(s.w) && AllFit(s) && AllCarried(s.w) && InRound(s, n)
    requires g in s.w.proxies && Due(n, g) != []
    ensures InRound(s, Happen(n, Return(g)))
  {
    hide Happen, Inv, NoneRequested, Trimmed, RoundAck, AllAcked, AllFit, AllCarried, AckedByAll, Attended, Stays, AckValid, Serving;
    var r := Happen(n, Return(g));
    NextOf(s, n, g);
    ReturnSteady(s, n, g, Due(n, g)[0]);
    forall h | h in s.w.proxies
      ensures h in r.s.peers && Attended(s, r, h)
    {
      ReturnAttends(s, n, g, h);
    }
    forall m | m in r.s.w.hc.changes && AckedByAll(r.s.w, m)
      ensures Stays(r, m)
    {
      ReturnStays(s, n, g, m);
    }
  }

  /** Every event of a round keeps what holds all through it. */
  lemma HappenInRound(s: Sys, n: Net, e: Arrival)
    requires ReadyAll(s) && !AllAcked(s.w) && AllFit(s) && AllCarried(s.w) && InRound(s, n)
    ensures InRound(s, Happen(n, e))
  {
    hide Inv, NoneRequested, Trimmed, RoundAck, AllAcked, AllFit, AllCarried, Attended, NothingForgotten;
    if e.guid in s.w.proxies {
      match e
      case Hear(g, taken) =>
        if n.s.peers[g].link != [] {
          HearInRound(s, n, g, taken);
        }
      case Return(g) =>
        if Due(n, g) != [] {
          ReturnInRound(s, n, g);
        }
    }
  }

  lemma {:induction false} PlayInRound(s: Sys, n: Net, es: seq<Arrival>)
    requires ReadyAll(s) && !AllAcked(s.w) && AllFit(s) && AllCarried(s.w) && InRound(s, n)
    ensures InRound(s, Play(n, es))
    decreases |es|
  {
    hide InRound, Happen, ReadyAll, AllAcked, AllFit, AllCarried;
    if es != [] {
      HappenInRound(s, n, es[0]);
      PlayInRound(s, Happen(n, es[0]), es[1..]);
    }
  }

  // ---- the end of a round ----

  lemma AllHeard(s: Sys, n: Net, g: Guid)
    requires CalmAll(s) && InRound(s, n) && Quiet(n) && g in s.w.proxies
    ensures g in n.heard && n.s.peers[g].link == [] && Due(n, g) == []
    ensures Serving(n.s.peers[g], [], MaxSettled(n.s.w), GoalOf(s, g))
  {
    hide Inv, NoneRequested, Trimmed, Serving;
    assert Attended(s, n, g);
  }

  lemma EndsReady(s: Sys, n: Net)
    requires CalmAll(s) && InRound(s, n) && Quiet(n)
    ensures ReadyAll(n.s)
  {
    hide Inv, NoneRequested, Trimmed, Attended, AckValid;
    forall g | g in s.w.proxies
      ensures g in n.s.peers && n.s.peers[g].reader.Some? && n.s.peers[g].link == []
    {
      AllHeard(s, n, g);
    }
  }

  lemma EndsWithNewest(s: Sys, n: Net)
    requires ReadyAll(s) && !AllAcked(s.w) && InRound(s, n) && Quiet(n) && AllAcked(n.s.w)
    ensures OnlyNewest(n.s.w)
  {
    hide Inv, NoneRequested, Trimmed, Attended, AckedByAll;
    WriterFacts(s);
    WriterFacts(n.s);
    TrimmedSpan(s.w);
    forall m | m in n.s.w.hc.changes
      ensures n.s.w.cfg.durability == TransientLocal && m == n.s.w.processed
    {
      assert AckedByAll(n.s.w, m);
      assert Stays(n, m);
      if m != n.s.w.processed {
        var h :| Awaited(n, h, m);
        AllHeard(s, n, h);
        NotUnacked(n.s.w, h, m + 1);
      }
    }
  }

  lemma NotUnacked(w: Writer, h: Guid, b: int)
    requires AllAcked(w)
    ensures !Unacked(w, h, b)
  {
    if b in w.hc.changes && h in w.proxies {
      assert AckedByAll(w, b);
    }
  }

  /** The answer to the round's heartbeat claims its whole range and asks for none of it. */
  ghost predicate Covered(s: Sys, g: Guid)
    requires g in s.peers && s.peers[g].reader.Some?
  {
    var k := GoalOf(s, g);
    k.ack.base > k.last && forall m :: m in k.ack.req ==> m > k.last
  }

  ghost predicate AllCovered(s: Sys)
    requires CalmAll(s)
  {
    forall g :: g in s.w.proxies ==> Covered(s, g)
  }

  /** After a round the reader misses nothing that is cached, and what it will ask for next
      fits. */
  lemma EndsCovered(s: Sys, n: Net, g: Guid)
    requires ReadyAll(s) && !AllAcked(s.w) && AllFit(s) && InRound(s, n) && Quiet(n) && ReadyAll(n.s)
    requires !AllAcked(n.s.w) && g in s.w.proxies
    ensures AckFits(n.s, g, {}) && Covered(n.s, g)
  {
    hide Inv, NoneRequested, Trimmed, AllAcked, AckValid, R.OnHeartbeat, LinkFine, DueFine, NothingForgotten;
    AllHeard(s, n, g);
    GoalFine(s, g);
    ReaderOkOf(n.s, g);
    WriterFacts(s);
    WriterFacts(n.s);
    TrimmedSpan(s.w);
    TrimmedSpan(n.s.w);
    TrimmedShape(s.w);
    TrimmedShape(n.s.w);
    var k, k2, cs := GoalOf(s, g), GoalOf(n.s, g), n.s.peers[g].reader.value;
    RangeShrinks(Trimmed(s.w), Trimmed(n.s.w));
    MaxShrinks(n.s.w, Trimmed(n.s.w));
    GoalIs(n.s, g);
    AsksNoMore(cs, {}, (k.first, k.last), (k2.first, k2.last), k.ack.req);
    NothingMissing(cs, MaxSettled(n.s.w));
    WholeAnswers(cs, {}, k2.first, k2.last);
    BaseIsLeast(R.OnHeartbeat(cs, {}, k2.first, k2.last));
    NarrowerFits(k.ack, k2.ack);
  }

  lemma NothingMissing(cs: R.CacheState, max: int)
    requires Pending(cs, [], [], max)
    ensures forall m :: m <= max ==> !R.IsMissing(cs, m)
  {
    forall m
      ensures !InHand([], [], m)
    {
    }
  }

  lemma EndsCarried(s: Sys, r: Sys)
    requires ReadyAll(s) && AllCarried(s.w) && Steady(s, r)
    ensures AllCarried(r.w)
  {
    hide Inv, NoneRequested, Trimmed;
    forall g, m | g in r.w.proxies && m in r.w.hc.changes
      ensures !Hopeless(r.w, g, m)
    {
      if m in r.w.proxies[g].state && r.w.proxies[g].state[m].relevant {
        OwedCanArrive(s, r, g, m);
      }
    }
  }

  lemma RoundEnds(s: Sys, es: seq<Arrival>)
    requires ReadyAll(s) && !AllAcked(s.w) && AllFit(s) && AllCarried(s.w) && Quiet(Play(Fire(s), es))
    ensures var r := Play(Fire(s), es).s;
      && Steady(s, r) && ReadyAll(r)
      && (AllAcked(r.w) ==> OnlyNewest(r.w))
      && (!AllAcked(r.w) ==> AllFit(r) && AllCarried(r.w) && AllCovered(r))
  {
    hide Inv, NoneRequested, Trimmed, AllAcked, AckFits, Covered, CanCarry, OnlyNewest, Play, Fire, Quiet, Attended, NothingForgotten;
    FireInRound(s);
    PlayInRound(s, Fire(s), es);
    var n := Play(Fire(s), es);
    EndsReady(s, n);
    if AllAcked(n.s.w) {
      EndsWithNewest(s, n);
    } else {
      EndsCarried(s, n.s);
      forall g | g in n.s.w.proxies
        ensures AckFits(n.s, g, {}) && Covered(n.s, g)
      {
        EndsCovered(s, n, g);
      }
    }
  }

  // ---- the second round ----

  /** Once its answers are in, `g` has acknowledged all that is cached. */
  ghost predicate Concluded(n: Net, g: Guid) {
    g in n.heard && Due(n, g) == [] && g in n.s.w.proxies ==> AckedBy(n.s.w, g)
  }

  ghost predicate AckedBy(w: Writer, g: Guid)
    requires g in w.proxies
  {
    forall m :: m in w.hc.changes ==> IsAcked(w.proxies[g].state, m)
  }

  lemma HearConcludes(s: Sys, n: Net, g: Guid, taken: set<int>, h: Guid)
    requires ReadyAll(s) && !AllAcked(s.w) && AllFit(s) && InRound(s, n)
    requires g in s.w.proxies && n.s.peers[g].link != [] && h in s.w.proxies && Concluded(n, h)
    ensures Concluded(Happen(n, Hear(g, taken)), h)
  {
    hide Happen, Inv, Receive, NoneRequested, Trimmed, AckValid, Serving, RoundAck, AllAcked, GoalOk, AnswersTo, R.OnHeartbeat, AckedBy;
    HappenHear(n, g, taken);
    assert Attended(s, n, h);
    if h == g && g !in n.heard {
      GoalFine(s, g);
      ReaderOkOf(n.s, g);
      GoalIs(s, g);
      WaitHear(n.s.peers[g], s.peers[g].reader.value, taken, MaxSettled(n.s.w), GoalOf(s, g));
    }
  }

  lemma AcksAll(s: Sys, n: Net, g: Guid)
    requires ReadyAll(s) && !AllAcked(s.w) && InRound(s, n) && g in s.w.proxies && Due(n, g) != [] && Covered(s, g)
    ensures var a := Due(n, g)[0];
      forall m :: m in n.s.w.hc.changes ==> m !in a.req && m < a.base
  {
    hide Inv, NoneRequested, Trimmed, AckValid, RoundAck, AllAcked, Pending, LinkFine;
    NextOf(s, n, g);
    var a := Due(n, g)[0];
    assert AckFine(a, GoalOf(s, g));
    forall m | m in n.s.w.hc.changes
      ensures m <= GoalOf(s, g).last
    {
      WithinRange(s, n, m);
    }
  }

  lemma StillAcked(s: Sys, n: Net, g: Guid, h: Guid, m: int)
    requires ReadyAll(s) && !AllAcked(s.w) && InRound(s, n) && g in s.w.proxies && Due(n, g) != [] && h in s.w.proxies
    requires var a := Due(n, g)[0];
      && m in n.s.w.hc.changes && m in HandleAckNack(n.s.w, g, a.base, a.req).hc.changes
      && if h == g then m !in a.req && m < a.base else IsAcked(n.s.w.proxies[h].state, m)
    ensures var r := Happen(n, Return(g)).s.w; h in r.proxies && IsAcked(r.proxies[h].state, m)
  {
    hide Happen, HandleAckNack, Answered, Inv, Trimmed, NoneRequested, AllAcked, AckedByAll, AckValid, Attended, RoundAck, IsAcked;
    var w, a := n.s.w, Due(n, g)[0];
    NextOf(s, n, g);
    AfterReturn(s, n, g, a);
    RestingFor(s, n.s, g);
    WriterFacts(n.s);
    RegisteredIn(w, h, m);
    SeenBy(w, g, a, h, m);
    LeftBy(w, g, a, m);
    Taken(w, g, a);
    AnsweredIs(w, g, a.base, a.req);
    IrrelevantIsAcked(w.proxies[h].state, m);
  }

  lemma IrrelevantIsAcked(cs: CacheState, m: int)
    ensures m in cs && !cs[m].relevant ==> IsAcked(cs, m)
  {
  }

  lemma ReturnConcludes(s: Sys, n: Net, g: Guid, h: Guid)
    requires ReadyAll(s) && !AllAcked(s.w) && AllFit(s) && AllCarried(s.w) && InRound(s, n)
    requires g in s.w.proxies && Due(n, g) != [] && h in s.w.proxies && Concluded(n, h) && Covered(s, g)
    ensures Concluded(Happen(n, Return(g)), h)
  {
    hide Happen, HandleAckNack, Inv, Trimmed, NoneRequested, AllAcked, AckValid, Attended, RoundAck, IsAcked, NothingForgotten, Covered;
    var r, w, a := Happen(n, Return(g)), n.s.w, Due(n, g)[0];
    NextOf(s, n, g);
    HappenReturn(s, n, g, a);
    AfterReturn(s, n, g, a);
    RestingFor(s, n.s, g);
    Taken(w, g, a);
    AcksAll(s, n, g);
    if h == g || (h in n.heard && Due(n, h) == []) {
      forall m | m in r.s.w.hc.changes
        ensures h in r.s.w.proxies && IsAcked(r.s.w.proxies[h].state, m)
      {
        StillAcked(s, n, g, h, m);
      }
    }
  }

  ghost predicate AllConcluded(s: Sys, n: Net) {
    forall g :: g in s.w.proxies ==> Concluded(n, g)
  }

  lemma {:induction false} PlayConcludes(s: Sys, n: Net, es: seq<Arrival>)
    requires ReadyAll(s) && !AllAcked(s.w) && AllFit(s) && AllCarried(s.w) && AllCovered(s)
    requires InRound(s, n) && AllConcluded(s, n)
    ensures AllConcluded(s, Play(n, es))
    decreases |es|
  {
    hide Happen, Inv, NoneRequested, AllAcked, AllFit, AllCarried, Covered, Attended, Concluded, NothingForgotten, Trimmed;
    if es != [] {
      var e := es[0];
      forall h | h in s.w.proxies
        ensures Concluded(Happen(n, e), h)
      {
        HappenConcludes(s, n, e, h);
      }
      HappenInRound(s, n, e);
      PlayConcludes(s, Happen(n, e), es[1..]);
    }
  }

  lemma HappenConcludes(s: Sys, n: Net, e: Arrival, h: Guid)
    requires ReadyAll(s) && !AllAcked(s.w) && AllFit(s) && AllCarried(s.w) && AllCovered(s)
    requires InRound(s, n) && h in s.w.proxies && Concluded(n, h)
    ensures Concluded(Happen(n, e), h)
  {
    hide Inv, NoneRequested, AllAcked, AllFit, AllCarried, Covered, Attended, Concluded, NothingForgotten, Trimmed;
    if e.guid in s.w.proxies {
      match e
      case Hear(g, taken) =>
        if n.s.peers[g].link != [] {
          HearConcludes(s, n, g, taken, h);
        }
      case Return(g) =>
        if Due(n, g) != [] {
          ReturnConcludes(s, n, g, h);
        }
    }
  }

  lemma FireConcludes(s: Sys)
    ensures AllConcluded(s, Fire(s))
  {
  }

  /** A round whose answers cover the writer's range leaves everything acknowledged. */
  lemma CoveredEnds(s: Sys, es: seq<Arrival>)
    requires ReadyAll(s) && !AllAcked(s.w) && AllFit(s) && AllCarried(s.w) && AllCovered(s) && Quiet(Play(Fire(s), es))
    ensures AllAcked(Play(Fire(s), es).s.w)
  {
    hide Inv, NoneRequested, Trimmed, AllFit, AllCarried, AllCovered, Play, Fire, Quiet, Attended, NothingForgotten, IsAcked;
    FireInRound(s);
    FireConcludes(s);
    PlayConcludes(s, Fire(s), es);
    PlayInRound(s, Fire(s), es);
    var n := Play(Fire(s), es);
    forall m, g | m in n.s.w.hc.changes && g in n.s.w.proxies
      ensures IsAcked(n.s.w.proxies[g].state, m)
    {
      AllHeard(s, n, g);
      assert Concluded(n, g);
    }
  }

  // ---- rounds, one after the other ----

  /** What a round ends in. */
  ghost function AfterRound(s: Sys, es: seq<Arrival>): Sys {
    Play(Fire(s), es).s
  }

  ghost function After(s: Sys, rounds: seq<seq<Arrival>>): Sys
    decreases |rounds|
  {
    if rounds == [] then s else After(AfterRound(s, rounds[0]), rounds[1..])
  }

  /** Each round goes on until everything has arrived. */
  ghost predicate NothingLost(s: Sys, rounds: seq<seq<Arrival>>)
    decreases |rounds|
  {
    rounds == [] || (Quiet(Play(Fire(s), rounds[0])) && NothingLost(AfterRound(s, rounds[0]), rounds[1..]))
  }

  lemma {:induction false} NothingHappens(n: Net, es: seq<Arrival>)
    requires Quiet(n)
    ensures Play(n, es) == n
    decreases |es|
  {
    hide Apply;
    if es != [] {
      assert Happen(n, es[0]) == n;
      NothingHappens(n, es[1..]);
    }
  }

  lemma SilentAfter(s: Sys, es: seq<Arrival>)
    requires ReadyAll(s) && AllAcked(s.w)
    ensures var r := AfterRound(s, es); r == s.(w := s.w.(out := [], script := [])) && ReadyAll(r) && AllAcked(r.w)
  {
    hide Apply;
    Silent(s);
    AckedCleared(s.w);
    assert Quiet(Fire(s));
    NothingHappens(Fire(s), es);
    InvCleared(s);
  }

  lemma InvCleared(s: Sys)
    requires Inv(s)
    ensures Inv(s.(w := s.w.(out := [], script := [])))
  {
    InvBegin(s, []);
  }

  lemma {:induction false} SilentAfterAll(s: Sys, rounds: seq<seq<Arrival>>)
    requires ReadyAll(s) && AllAcked(s.w)
    ensures var r := After(s, rounds);
      && AllAcked(r.w) && r.w.hc == s.w.hc && r.w.cfg == s.w.cfg && r.w.processed == s.w.processed && r.peers == s.peers
    decreases |rounds|
  {
    hide AllAcked, AfterRound, ReadyAll;
    if rounds != [] {
      SilentAfter(s, rounds[0]);
      SilentAfterAll(AfterRound(s, rounds[0]), rounds[1..]);
    }
  }

  /** If every answer fits and all that is owed can arrive, two rounds are enough, whatever
      order things arrive in, and they leave what they should. */
  lemma TwoRoundsDo(s: Sys, rounds: seq<seq<Arrival>>)
    requires ReadyAll(s) && !AllAcked(s.w) && AllFit(s) && AllCarried(s.w) && |rounds| >= 2 && NothingLost(s, rounds)
    ensures AllAcked(After(s, rounds).w) && OnlyNewest(After(s, rounds).w)
  {
    hide AllAcked, ReadyAll, AllFit, AllCarried, AllCovered, OnlyNewest, Play, Quiet, Fire;
    var s1, rest := AfterRound(s, rounds[0]), rounds[1..];
    RoundEnds(s, rounds[0]);
    if AllAcked(s1.w) {
      SilentAfterAll(s1, rest);
      SameContent(s1.w, After(s1, rest).w);
    } else {
      var s2 := AfterRound(s1, rest[0]);
      RoundEnds(s1, rest[0]);
      CoveredEnds(s1, rest[0]);
      SilentAfterAll(s2, rest[1..]);
      SameContent(s2.w, After(s2, rest[1..]).w);
    }
  }

  // ---- what cannot be repaired ----

  lemma KeptHappen(n: Net, e: Arrival, g: Guid)
    requires Inv(n.s) && g in n.s.peers
    ensures Inv(Happen(n, e).s) && Kept(n.s, Happen(n, e).s, g)
  {
    hide Apply, Inv;
    match e
    case Hear(h, taken) => KeptStep(n.s, Deliver(h, TakenNow(n, h, taken), false), g);
    case Return(h) =>
      if Due(n, h) != [] {
        KeptStep(n.s, AckArrives(h, Due(n, h)[0], []), g);
      }
  }

  lemma {:induction false} KeptPlay(n: Net, es: seq<Arrival>, g: Guid)
    requires Inv(n.s) && g in n.s.peers
    ensures Inv(Play(n, es).s) && Kept(n.s, Play(n, es).s, g)
    decreases |es|
  {
    hide Inv, Happen;
    if es != [] {
      KeptHappen(n, es[0], g);
      KeptPlay(Happen(n, es[0]), es[1..], g);
    }
  }

  lemma {:induction false} KeptAfter(s: Sys, rounds: seq<seq<Arrival>>, g: Guid)
    requires Inv(s) && g in s.peers
    ensures Inv(After(s, rounds)) && Kept(s, After(s, rounds), g)
    decreases |rounds|
  {
    hide Inv, Apply, Play;
    if rounds != [] {
      KeptStep(s, Step.HeartbeatTimer(false, []), g);
      KeptPlay(Fire(s), rounds[0], g);
      KeptAfter(AfterRound(s, rounds[0]), rounds[1..], g);
    }
  }

  /** One change that cannot arrive is enough: the writer is never done. */
  lemma HopelessAfter(s: Sys, rounds: seq<seq<Arrival>>)
    requires ReadyAll(s) && !AllCarried(s.w)
    ensures !AllAcked(After(s, rounds).w)
  {
    hide Inv, After, NoneRequested;
    var g :| g in s.w.proxies && !CanCarry(s.w, g);
    var m :| m in s.w.hc.changes && Hopeless(s.w, g, m);
    KeptAfter(s, rounds, g);
    OwedIsRelevant(s, g, m);
    InvBlocks(After(s, rounds), g, m, m);
  }

  // ---- an answer that does not fit, of the only reader ----

  /** The heartbeat has arrived; its answer is under way, or has been dropped. */
  ghost predicate AfterBeat(s: Sys, n: Net, g: Guid, taken: set<int>)
    requires g in s.peers && s.peers[g].reader.Some?
  {
    n.s == MidRound(s, g, taken) && g in n.heard && (Due(n, g) == [] || Due(n, g) == [RoundAck(s, g, taken)])
  }

  ghost predicate Unfit(s: Sys, g: Guid) {
    Ready(s, g) && !AllAcked(s.w) && !AckFits(s, g, {})
  }

  lemma UnfitFirst(s: Sys, g: Guid, taken: set<int>)
    requires Unfit(s, g)
    ensures AfterBeat(s, Happen(Fire(s), Hear(g, taken)), g, taken)
    ensures OnlyReader(Fire(s).s.w, g) && g in Fire(s).s.peers && Fire(s).s.peers[g].link != []
  {
    hide Inv, Apply, AllAcked, NoneRequested, AckValid, Trimmed;
    Fired(s, g);
    WriterFacts(s);
    TrimmedQuiet(s.w);
  }

  lemma UnfitNext(s: Sys, g: Guid, taken: set<int>, n: Net, e: Arrival)
    requires Unfit(s, g) && AfterBeat(s, n, g, taken)
    ensures AfterBeat(s, Happen(n, e), g, taken)
  {
    hide Inv, Apply, AllAcked, NoneRequested, AckValid, Trimmed, MidRound;
    HeartbeatArrives(s, g, taken);
    WriterFacts(s);
    TrimmedQuiet(s.w);
    AckFitsIgnoresTaken(s, g, taken);
    AckDropped(n.s, g, RoundAck(s, g, taken));
  }

  lemma {:induction false} UnfitPlay(s: Sys, g: Guid, taken: set<int>, n: Net, es: seq<Arrival>)
    requires Unfit(s, g) && AfterBeat(s, n, g, taken)
    ensures AfterBeat(s, Play(n, es), g, taken)
    decreases |es|
  {
    hide Unfit, AfterBeat, Happen;
    if es != [] {
      assert Unfit(s, g);
      UnfitNext(s, g, taken, n, es[0]);
      UnfitPlay(s, g, taken, Happen(n, es[0]), es[1..]);
    }
  }

  /** Until the heartbeat arrives nothing happens. */
  lemma {:induction false} UnfitFromStart(s: Sys, g: Guid, es: seq<Arrival>) returns (taken: set<int>)
    requires Unfit(s, g)
    ensures Play(Fire(s), es) == Fire(s) || AfterBeat(s, Play(Fire(s), es), g, taken)
    decreases |es|
  {
    taken := {};
    if es != [] {
      var n := Fire(s);
      UnfitFirst(s, g, {});
      if es[0].Hear? && es[0].guid == g {
        taken := es[0].taken;
        UnfitFirst(s, g, taken);
        UnfitPlay(s, g, taken, Happen(n, es[0]), es[1..]);
      } else {
        assert Happen(n, es[0]) == n;
        taken := UnfitFromStart(s, g, es[1..]);
      }
    }
  }

  /** The round then ends as it does when only that answer is waited for. */
  lemma UnfitEnds(s: Sys, g: Guid, es: seq<Arrival>) returns (taken: set<int>)
    requires Unfit(s, g) && Quiet(Play(Fire(s), es))
    ensures AfterRound(s, es) == Round(s, g, taken)
  {
    hide Unfit, Inv, Apply, MidRound, DeliverAll, Play, Fire, Quiet, NoneRequested, AllAcked, AckValid, Round;
    assert Unfit(s, g);
    UnfitFirst(s, g, {});
    taken := UnfitFromStart(s, g, es);
    NotQuiet(s, g);
    UnfitIsRound(s, g, taken);
  }

  lemma NotQuiet(s: Sys, g: Guid)
    requires Unfit(s, g)
    ensures !Quiet(Fire(s))
  {
    hide Unfit, Apply;
    UnfitFirst(s, g, {});
  }

  lemma UnfitIsRound(s: Sys, g: Guid, taken: set<int>)
    requires Unfit(s, g)
    ensures Round(s, g, taken) == MidRound(s, g, taken)
  {
    hide Inv, Apply, AllAcked, NoneRequested, AckValid, Trimmed, MidRound, Round, DeliverAll;
    AckFitsIgnoresTaken(s, g, taken);
    RoundUnfolds(s, g, taken);
    HeartbeatArrives(s, g, taken);
    AckDropped(MidRound(s, g, taken), g, RoundAck(s, g, taken));
    NothingToDeliver(MidRound(s, g, taken), g);
  }

  lemma UnfitStays(s: Sys, g: Guid, taken: set<int>)
    requires Unfit(s, g)
    ensures var r := Round(s, g, taken); Unfit(r, g) && r.peers[g].got == s.peers[g].got
  {
    hide Round, Inv, NoneRequested, AllAcked, AckValid;
    AckFitsIgnoresTaken(s, g, taken);
    UnfitRound(s, g, taken);
    UnfitAgain(s, g, taken, {});
  }

  lemma {:induction false} UnfitAfter(s: Sys, g: Guid, rounds: seq<seq<Arrival>>)
    requires Unfit(s, g) && NothingLost(s, rounds)
    ensures var r := After(s, rounds); Unfit(r, g) && r.peers[g].got == s.peers[g].got
    decreases |rounds|
  {
    hide Unfit, AfterRound, Quiet, Play, Fire, Round;
    if rounds != [] {
      var taken := UnfitEnds(s, g, rounds[0]);
      UnfitStays(s, g, taken);
      UnfitAfter(AfterRound(s, rounds[0]), g, rounds[1..]);
    }
  }

  // ---- the theorems ----

  lemma CalmIsReadyAll(s: Sys, steps: seq<Step>)
    requires Start(s) && CalmAll(Run(s, steps))
    ensures ReadyAll(Run(s, steps))
  {
    hide Run, Inv, NoneRequested;
    StartIsOk(s);
    NoneRequestedRun(s, steps);
  }

  lemma StartIsOk(s: Sys)
    requires Start(s)
    ensures Inv(s) && NoneRequested(s.w)
  {
  }

  /** Any number of readers, everything arriving in any order: two or more rounds leave
      every cached change acknowledged by every reader, and the writer silent, if that was
      so from the start, or if every reader's answer fits and all that is owed can arrive;
      of what was to be repaired, the cache then keeps nothing (Volatile) or just the
      newest change (TransientLocal), without exception. If something owed cannot arrive,
      it is never so. */
  lemma AllSettle(s: Sys, steps: seq<Step>, rounds: seq<seq<Arrival>>)
    requires Start(s) && CalmAll(Run(s, steps)) && |rounds| >= 2 && NothingLost(Run(s, steps), rounds)
    ensures var s0 := Run(s, steps);
      var r := After(s0, rounds);
      && (AllAcked(s0.w) || (AllFit(s0) && AllCarried(s0.w)) ==> AllAcked(r.w))
      && (AllAcked(r.w) ==> AllAcked(s0.w) || AllCarried(s0.w))
      && (AllAcked(r.w) ==> Apply(r, Step.HeartbeatTimer(false, [])).peers == r.peers)
      && (AllAcked(s0.w) ==> r.w.hc == s0.w.hc)
      && (!AllAcked(s0.w) && AllFit(s0) && AllCarried(s0.w) ==> OnlyNewest(r.w))
  {
    hide Run, After, AllAcked, AllFit, AllCarried, Apply, NothingLost, Inv, NoneRequested, OnlyNewest;
    CalmIsReadyAll(s, steps);
    var s0 := Run(s, steps);
    var r := After(s0, rounds);
    if AllAcked(s0.w) {
      SilentAfterAll(s0, rounds);
    } else if !AllCarried(s0.w) {
      HopelessAfter(s0, rounds);
    } else if AllFit(s0) {
      TwoRoundsDo(s0, rounds);
    }
    if AllAcked(r.w) {
      Silent(r);
    }
  }

  /** With one reader that is the exact condition: an answer that does not fit is never
      served, in whatever order things arrive. */
  lemma OneSettles(s: Sys, steps: seq<Step>, g: Guid, rounds: seq<seq<Arrival>>)
    requires Start(s) && CalmAll(Run(s, steps)) && OnlyReader(Run(s, steps).w, g)
    requires |rounds| >= 2 && NothingLost(Run(s, steps), rounds)
    ensures var s0 := Run(s, steps);
      var r := After(s0, rounds);
      && (AllAcked(r.w) <==> AllAcked(s0.w) || (AckFits(s0, g, {}) && CanCarry(s0.w, g)))
      && (!AllAcked(s0.w) && AllAcked(r.w) ==> OnlyNewest(r.w))
      && (!AllAcked(s0.w) && !AckFits(s0, g, {}) ==> g in r.peers && r.peers[g].got == s0.peers[g].got)
  {
    hide Run, After, AllAcked, AckFits, CanCarry, Apply, NothingLost, Inv, NoneRequested, OnlyNewest;
    CalmIsReadyAll(s, steps);
    AllSettle(s, steps, rounds);
    OneForAll(Run(s, steps), g);
    if Unfit(Run(s, steps), g) {
      UnfitAfter(Run(s, steps), g, rounds);
    }
  }

  lemma OneForAll(s: Sys, g: Guid)
    requires ReadyAll(s) && OnlyReader(s.w, g)
    ensures Ready(s, g) && (AllFit(s) <==> AckFits(s, g, {})) && (AllCarried(s.w) <==> CanCarry(s.w, g))
  {
    hide Inv, NoneRequested, AckFits, CanCarry;
  }
}
