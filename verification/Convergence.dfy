/** Repair converges: with one reader and no new writes, two heartbeat rounds leave every
    cached change acknowledged, and the writer falls silent, exactly when the answer's
    bitmap can span what is missing and all that is owed can arrive. */
module Convergence {
  import opened Types
  import opened Ascending
  import opened ReaderProxies
  import opened WriterModel
  import opened WriterInvariants
  import opened Delivery
  import R = WriterProxies

  /** Everything on the link arrives, in order. */
  ghost function DeliverAll(s: Sys, g: Guid, taken: set<int>): Sys
    requires g in s.peers
    decreases |s.peers[g].link|
  {
    if s.peers[g].link == [] then s
    else DeliverAll(Apply(s, Deliver(g, taken, false)), g, taken)
  }

  ghost function Answer(p: Peer): Ack
    requires p.reader.Some?
  {
    Ack(R.AckBase(p.reader.value), R.MissingSet(p.reader.value))
  }

  lemma TimerKeepsPeer(s: Sys, g: Guid)
    requires g in s.peers
    ensures var s1 := Apply(s, Step.HeartbeatTimer(false, [])); g in s1.peers && s1.peers[g].reader == s.peers[g].reader
  {
  }

  lemma DeliverKeepsPeer(s: Sys, g: Guid, taken: set<int>)
    requires g in s.peers && s.peers[g].reader.Some?
    ensures var s1 := Apply(s, Deliver(g, taken, false)); g in s1.peers && s1.peers[g].reader.Some?
  {
  }

  lemma PeersStay(s: Sys, g: Guid, a: Ack)
    requires g in s.peers
    ensures g in Apply(s, AckArrives(g, a, [])).peers
  {
  }

  /** The heartbeat timer fires; the heartbeat, its answer and the repairs all arrive. The
      ACKNACKs with which the reader answers heartbeats among the repairs do not arrive;
      in the rounds of module LossFree they do. `taken` is what the application has taken
      by the time the heartbeat arrives. */
  ghost function Round(s: Sys, g: Guid, taken: set<int>): Sys
    requires g in s.peers && s.peers[g].reader.Some?
  {
    hide Apply;
    TimerKeepsPeer(s, g);
    var s1 := Apply(s, Step.HeartbeatTimer(false, []));
    if s1.peers[g].link == [] then s1
    else
      DeliverKeepsPeer(s1, g, taken);
      var s2 := Apply(s1, Deliver(g, taken, false));
      PeersStay(s2, g, Answer(s2.peers[g]));
      DeliverAll(Apply(s2, AckArrives(g, Answer(s2.peers[g]), [])), g, {})
  }

  /** Between handlers no request is left unanswered. */
  ghost predicate NoneRequested(w: Writer) {
    forall g, n :: g in w.proxies && n in w.proxies[g].state ==> w.proxies[g].state[n].status != Requested
  }

  predicate OnlyReader(w: Writer, g: Guid) {
    g in w.proxies && forall h :: h in w.proxies ==> h == g
  }

  /** Reader `g` is the only one, matched on both sides; the link is empty and all
      writes have been handed to the proxies. */
  ghost predicate Ready(s: Sys, g: Guid) {
    && Inv(s) && g in s.peers && OnlyReader(s.w, g)
    && s.peers[g].reader.Some? && s.peers[g].link == []
    && s.w.hc.unprocessed == {} && NoneRequested(s.w)
  }

  // ---- without interleaved writes the loops do just what they say ----

  lemma RemovedAfterOne(w: Writer, n: int, s: set<int>)
    ensures Removed(RemoveOne(w, n), s) == Removed(w, s + {n})
  {
    var a, b := Removed(RemoveOne(w, n), s), Removed(w, s + {n});
    forall g | g in w.proxies
      ensures a.proxies[g] == b.proxies[g]
    {
      assert w.proxies[g].state - {n} - s == w.proxies[g].state - (s + {n});
    }
    assert a.proxies == b.proxies;
    assert a.hc.changes == b.hc.changes;
  }

  lemma {:induction false} QuietRemoveEach(w: Writer, nums: seq<int>)
    requires Numbered(w) && w.script == []
    ensures RemoveEach(w, nums) == Removed(w, set n | n in nums)
    decreases |nums|
  {
    if nums == [] {
      RemovedNothing(w);
      assert (set n | n in nums) == {};
    } else {
      var rest := set n | n in nums[1..];
      assert Numbered(RemoveOne(w, nums[0])) by {
        assert forall m :: m in w.hc.unprocessed ==> m in RemoveOne(w, nums[0]).hc.changes;
      }
      QuietRemoveEach(RemoveOne(w, nums[0]), nums[1..]);
      RemovedAfterOne(w, nums[0], rest);
      assert nums == [nums[0]] + nums[1..];
      assert (set n | n in nums) == rest + {nums[0]};
    }
  }

  lemma QuietRemoveSet(w: Writer, s: set<int>, nums: seq<int>)
    requires Numbered(w) && w.script == [] && s == set n | n in nums
    ensures RemoveEach(w, nums) == Removed(w, s)
  {
    QuietRemoveEach(w, nums);
  }

  lemma QuietRemoveAcked(w: Writer, base: int)
    requires Numbered(w) && w.script == []
    ensures RemoveAcked(w, base) == Removed(w, Removable(w, base))
  {
    var s := Removable(w, base);
    assert s == set n | n in List(s);
    QuietRemoveSet(w, s, List(s));
  }

  lemma {:induction false} QuietSendRepairs(w: Writer, plan: map<int, seq<Target>>, nums: seq<int>)
    requires w.script == [] && Within(nums, plan.Keys)
    ensures SendRepairs(w, plan, nums) == w.(out := w.out + RepairSends(w, plan, nums))
    decreases |nums|
  {
    if nums == [] {
      assert w.out + RepairSends(w, plan, nums) == w.out;
    } else {
      var n, rest := nums[0], nums[1..];
      var w1 := w.(out := w.out + [Send(RepairMsg(w, n), plan[n])]);
      QuietSendRepairs(w1, plan, rest);
      RepairSendsCons(w, plan, nums);
      RepairSendsElsewhere(w, w1, plan, rest);
      assert w1.out + RepairSends(w1, plan, rest) == w.out + RepairSends(w, plan, nums);
    }
  }

  lemma RepairSendsElsewhere(w: Writer, r: Writer, plan: map<int, seq<Target>>, nums: seq<int>)
    requires Within(nums, plan.Keys) && r.hc == w.hc
    ensures RepairSends(r, plan, nums) == RepairSends(w, plan, nums)
  {
  }

  // ---- the heartbeat goes out ----

  /** The writer as it stands when it sends its heartbeat. */
  ghost function Trimmed(w: Writer): Writer {
    Trim(Begin(w, []))
  }

  lemma TrimmedIs(w: Writer)
    requires Numbered(w)
    ensures var v := Begin(w, []); Trimmed(w) == Removed(v, Removable(v, MaxSettled(v)))
  {
    var v := Begin(w, []);
    QuietRemoveAcked(v, MaxSettled(v));
    assert Numbered(v);
  }

  lemma AllSettled(w: Writer)
    requires w.hc.unprocessed == {}
    ensures Settled(w) == w.hc.changes.Keys
  {
  }

  /** A writer that has dropped some changes and the entries for them, nothing else. */
  ghost predicate Shrunk(w: Writer, t: Writer) {
    && Numbered(t) && t == w.(hc := t.hc, proxies := t.proxies)
    && t.hc == w.hc.(changes := t.hc.changes) && t.hc.changes.Keys <= w.hc.changes.Keys
    && t.proxies.Keys == w.proxies.Keys
    && (forall g :: g in w.proxies ==> t.proxies[g].locators == w.proxies[g].locators)
  }

  lemma RemovedShrinks(w: Writer, s: set<int>)
    requires Numbered(w)
    ensures Shrunk(w, Removed(w, s))
  {
  }

  lemma TrimmedShape(w: Writer)
    requires Numbered(w)
    ensures Shrunk(Begin(w, []), Trimmed(w))
  {
    TrimmedIs(w);
    var v := Begin(w, []);
    RemovedShrinks(v, Removable(v, MaxSettled(v)));
  }

  /** After trimming only unacknowledged changes are left, and for a TransientLocal
      writer the newest one. */
  lemma TrimmedLeft(w: Writer, n: int)
    requires Numbered(w) && w.hc.unprocessed == {} && n in w.hc.changes
    ensures n in Trimmed(w).hc.changes <==>
      !AckedByAll(w, n) || (w.cfg.durability == TransientLocal && n == MaxSettled(w))
  {
    TrimmedIs(w);
    var v := Begin(w, []);
    AllSettled(w);
    AllSettled(v);
    assert AckedByAll(v, n) <==> AckedByAll(w, n);
    assert n <= MaxSettled(v) == MaxSettled(w);
    assert n in Removable(v, MaxSettled(v)) <==> n <= RemovalBound(v, MaxSettled(v)) && AckedByAll(v, n);
  }

  ghost function HeartbeatOf(t: Writer): Msg {
    Heartbeat(MinSettled(t), MaxSettled(t), false)
  }

  lemma OneGuid(w: Writer, g: Guid)
    requires OnlyReader(w, g)
    ensures Guids(w) == [g]
  {
  }

  lemma OneMsg(s: Send, g: Guid)
    requires IsFor(s, g)
    ensures MsgsFor([s], g) == [s.msg]
  {
  }

  lemma AnnounceOne(t: Writer, g: Guid, p: Peer)
    requires Numbered(t) && t.hc.unprocessed == {} && t.hc.changes.Keys != {} && t.out == []
    requires OnlyReader(t, g) && t.proxies[g].locators == OwnLocators(p)
    ensures var r := Announce(t, false);
      && r == t.(out := r.out) && MsgsFor(r.out, g) == [HeartbeatOf(t)]
      && 1 <= MinSettled(t) <= MaxSettled(t) <= t.processed
  {
    AllSettled(t);
    OneGuid(t, g);
    var target := Target(g, [p.locator]);
    assert [g][1..] == [];
    assert HeartbeatAudience(t, [g]) == [target];
    var send := Send(HeartbeatOf(t), [target]);
    assert send.to[0].guid == g;
    OneMsg(send, g);
    assert Announce(t, false).out == [send];
    assert MaxSettled(t) !in t.hc.unprocessed;
  }

  lemma UnackedSurvives(w: Writer)
    requires Numbered(w) && w.hc.unprocessed == {} && !AllAcked(w)
    ensures Trimmed(w).hc.changes.Keys != {}
  {
    var m :| m in w.hc.changes && !AckedByAll(w, m);
    TrimmedLeft(w, m);
  }

  lemma BeginAcked(w: Writer)
    ensures AllAcked(Begin(w, [])) <==> AllAcked(w)
  {
  }

  lemma TrimmedRest(w: Writer)
    requires Numbered(w) && w.hc.unprocessed == {} && !AllAcked(w)
    ensures Trimmed(w).hc.changes.Keys != {} && Numbered(Trimmed(w))
    ensures SendHeartbeat(Begin(w, []), false) == Announce(Trimmed(w), false)
  {
    UnackedSurvives(w);
    BeginAcked(w);
    TrimmedShape(w);
  }

  lemma FiredWriter(w: Writer, g: Guid, p: Peer)
    requires Numbered(w) && w.hc.unprocessed == {} && !AllAcked(w)
    requires OnlyReader(w, g) && w.proxies[g].locators == OwnLocators(p)
    ensures var t, r := Trimmed(w), SendHeartbeat(Begin(w, []), false);
      && r.(out := [], script := []) == t && MsgsFor(r.out, g) == [HeartbeatOf(t)]
      && r.processed == w.processed
      && t.hc.changes.Keys != {} && 1 <= MinSettled(t) <= MaxSettled(t) <= t.processed
  {
    TrimmedShape(w);
    TrimmedRest(w);
    AnnounceOne(Trimmed(w), g, p);
  }

  lemma ApplyHeartbeat(s: Sys)
    ensures Apply(s, Step.HeartbeatTimer(false, [])) == Post(s.(w := SendHeartbeat(Begin(s.w, []), false)))
  {
  }

  /** The heartbeat covers all that is cached, and it is all that is on the link. */
  lemma Fired(s: Sys, g: Guid)
    requires Ready(s, g) && !AllAcked(s.w)
    ensures var s1 := Apply(s, Step.HeartbeatTimer(false, []));
      var t := Trimmed(s.w);
      && Inv(s1) && s1.w == t && g in s1.peers && t.hc.changes.Keys != {}
      && s1.peers[g] == s.peers[g].(link := [Item(HeartbeatOf(t), t.processed)], hi := t.processed)
      && 1 <= MinSettled(t) <= MaxSettled(t) <= t.processed
  {
    InvApply(s, Step.HeartbeatTimer(false, []));
    ApplyHeartbeat(s);
    assert ProxyOk(s.w, s.peers[g], s.w.proxies[g]);
    FiredAt(s, g);
  }

  lemma PostOne(s: Sys, g: Guid, msg: Msg)
    requires g in s.peers && s.peers[g].link == [] && MsgsFor(s.w.out, g) == [msg]
    ensures Post(s).peers[g] == s.peers[g].(link := [Item(msg, s.w.processed)], hi := s.w.processed)
  {
  }

  lemma FiredAt(s: Sys, g: Guid)
    requires g in s.peers && s.peers[g].link == [] && Numbered(s.w) && s.w.hc.unprocessed == {} && !AllAcked(s.w)
    requires OnlyReader(s.w, g) && s.w.proxies[g].locators == OwnLocators(s.peers[g])
    ensures var s1 := Post(s.(w := SendHeartbeat(Begin(s.w, []), false)));
      var t := Trimmed(s.w);
      && s1.w == t && g in s1.peers && t.hc.changes.Keys != {}
      && s1.peers[g] == s.peers[g].(link := [Item(HeartbeatOf(t), t.processed)], hi := t.processed)
      && 1 <= MinSettled(t) <= MaxSettled(t) <= t.processed
  {
    FiredWriter(s.w, g, s.peers[g]);
    TrimmedShape(s.w);
    PostOne(s.(w := SendHeartbeat(Begin(s.w, []), false)), g, HeartbeatOf(Trimmed(s.w)));
  }

  // ---- the answer comes back ----

  /** The number a repair is for: a HEARTBEAT gives up the one below its range. */
  function NumberOf(msg: Msg): int {
    match msg
    case Data(k, _) => k
    case Gap(k) => k
    case Heartbeat(first, _, _) => first - 1
  }

  predicate Settles(msg: Msg, n: int, last: int) {
    NumberOf(msg) == n && (msg.Heartbeat? ==> msg.last == last)
  }

  /** Every request is answered, in one of three ways, and nothing else is sent. */
  ghost predicate Answers(msgs: seq<Msg>, req: set<int>, last: int) {
    && (forall n :: n in req ==> exists i :: 0 <= i < |msgs| && Settles(msgs[i], n, last))
    && (forall i :: 0 <= i < |msgs| ==> NumberOf(msgs[i]) in req && Settles(msgs[i], NumberOf(msgs[i]), last))
  }

  /** A DATA among the answers carries a change that is cached and owed; a GAP says that
      one is not owed. */
  ghost predicate OnlyOwed(msgs: seq<Msg>, changes: map<int, Payload>, cs: CacheState) {
    forall i :: 0 <= i < |msgs| ==> OwedMsg(msgs[i], changes, cs)
  }

  predicate OwedMsg(msg: Msg, changes: map<int, Payload>, cs: CacheState) {
    match msg
    case Data(n, payload) => n in changes && payload == changes[n] && n in cs && cs[n].relevant
    case Gap(n) => n in cs && !cs[n].relevant
    case Heartbeat(_, _, _) => true
  }

  lemma {:induction false} AllMsgs(out: seq<Send>, g: Guid)
    requires forall i :: 0 <= i < |out| ==> IsFor(out[i], g)
    ensures |MsgsFor(out, g)| == |out| && forall i :: 0 <= i < |out| ==> MsgsFor(out, g)[i] == out[i].msg
    decreases |out|
  {
    if out != [] {
      assert forall i :: 0 <= i < |out[1..]| ==> out[1..][i] == out[i + 1];
      AllMsgs(out[1..], g);
      var rest := MsgsFor(out[1..], g);
      assert MsgsFor(out, g) == [out[0].msg] + rest;
    }
  }

  lemma PlanFor(w: Writer, g: Guid, relevant: bool, n: int)
    requires g in w.proxies && w.proxies[g].locators.DataTargets() != []
    ensures var plan := Plan(w, [g], Requested, relevant);
      && (n in plan <==> n in w.proxies[g].state && w.proxies[g].state[n] == ChangeForReader(Requested, relevant))
      && (n in plan ==> OneTarget(plan[n], g))
  {
    var plan := Plan(w, [g], Requested, relevant);
    assert [g][1..] == [];
    if n in w.proxies[g].state && w.proxies[g].state[n] == ChangeForReader(Requested, relevant) {
      assert Wants(w, g, Requested, n, relevant);
      assert g in [g];
      assert n in WantedNumbers(w, [g], Requested, relevant);
    }
    if n in plan {
      assert Wants(w, g, Requested, n, relevant);
      assert TargetsAmong(w, [], Requested, n, relevant) == [];
    }
  }

  lemma RepairSteps(w: Writer, data: map<int, seq<Target>>, xs: seq<int>, gaps: map<int, seq<Target>>, ys: seq<int>)
    requires w.script == [] && w.out == [] && Within(xs, data.Keys) && Within(ys, gaps.Keys)
    ensures SendGaps(SendRepairs(w, data, xs), gaps, ys)
         == w.(out := RepairSends(w, data, xs) + GapSends(gaps, ys))
  {
    QuietSendRepairs(w, data, xs);
    SendGapsEffect(SendRepairs(w, data, xs), gaps, ys);
    assert [] + RepairSends(w, data, xs) == RepairSends(w, data, xs);
  }

  ghost function RepairList(w: Writer, data: map<int, seq<Target>>, gaps: map<int, seq<Target>>): seq<Send> {
    RepairSends(w, data, List(data.Keys)) + GapSends(gaps, List(gaps.Keys))
  }

  predicate OneTarget(to: seq<Target>, g: Guid) {
    |to| == 1 && to[0].guid == g
  }

  lemma OneTargetIsFor(send: Send, g: Guid)
    requires OneTarget(send.to, g)
    ensures IsFor(send, g)
  {
  }

  lemma SendAt(w: Writer, data: map<int, seq<Target>>, xs: seq<int>,
               gaps: map<int, seq<Target>>, ys: seq<int>, i: nat)
    requires Within(xs, data.Keys) && Within(ys, gaps.Keys) && i < |xs| + |ys|
    ensures var send := (RepairSends(w, data, xs) + GapSends(gaps, ys))[i];
      var n := if i < |xs| then xs[i] else ys[i - |xs|];
      && NumberOf(send.msg) == n && Settles(send.msg, n, MaxSettled(w))
      && send.to == (if i < |xs| then data[n] else gaps[n])
      && (send.msg.Data? ==> i < |xs| && n in w.hc.changes && send.msg.payload == w.hc.changes[n])
      && (send.msg.Gap? ==> i >= |xs|)
  {
  }

  lemma RepairSendAt(w: Writer, g: Guid, data: map<int, seq<Target>>, gaps: map<int, seq<Target>>, i: nat)
    requires g in w.proxies && w.proxies[g].locators.DataTargets() != []
    requires data == Plan(w, [g], Requested, true) && gaps == Plan(w, [g], Requested, false)
    requires i < |RepairList(w, data, gaps)|
    ensures var send := RepairList(w, data, gaps)[i];
      var n := NumberOf(send.msg);
      && IsFor(send, g) && n in Numbers(w.proxies[g].state, Requested) && Settles(send.msg, n, MaxSettled(w))
      && OwedMsg(send.msg, w.hc.changes, w.proxies[g].state)
  {
    var xs, ys := List(data.Keys), List(gaps.Keys);
    SendAt(w, data, xs, gaps, ys, i);
    var send := RepairList(w, data, gaps)[i];
    PlanFor(w, g, i < |xs|, NumberOf(send.msg));
    OneTargetIsFor(send, g);
  }

  lemma ListedIsSent(w: Writer, data: map<int, seq<Target>>, xs: seq<int>,
                     gaps: map<int, seq<Target>>, ys: seq<int>, n: int)
    requires Within(xs, data.Keys) && Within(ys, gaps.Keys) && (n in xs || n in ys)
    ensures var out := RepairSends(w, data, xs) + GapSends(gaps, ys);
      exists i :: 0 <= i < |out| && Settles(out[i].msg, n, MaxSettled(w))
  {
    var out := RepairSends(w, data, xs) + GapSends(gaps, ys);
    if n in xs {
      var i :| 0 <= i < |xs| && xs[i] == n;
      assert Settles(out[i].msg, n, MaxSettled(w));
    } else {
      var i :| 0 <= i < |ys| && ys[i] == n;
      assert Settles(out[|xs| + i].msg, n, MaxSettled(w));
    }
  }

  lemma RequestedIsPlanned(w: Writer, g: Guid, n: int)
    requires g in w.proxies && w.proxies[g].locators.DataTargets() != []
    requires n in Numbers(w.proxies[g].state, Requested)
    ensures n in Plan(w, [g], Requested, true) || n in Plan(w, [g], Requested, false)
  {
  }

  lemma RepairAnswers(w: Writer, g: Guid, data: map<int, seq<Target>>, gaps: map<int, seq<Target>>)
    requires g in w.proxies && w.proxies[g].locators.DataTargets() != []
    requires data == Plan(w, [g], Requested, true) && gaps == Plan(w, [g], Requested, false)
    ensures Answers(MsgsFor(RepairList(w, data, gaps), g), Numbers(w.proxies[g].state, Requested), MaxSettled(w))
    ensures OnlyOwed(MsgsFor(RepairList(w, data, gaps), g), w.hc.changes, w.proxies[g].state)
  {
    var out := RepairList(w, data, gaps);
    var req, last := Numbers(w.proxies[g].state, Requested), MaxSettled(w);
    forall i | 0 <= i < |out|
      ensures IsFor(out[i], g) && NumberOf(out[i].msg) in req && Settles(out[i].msg, NumberOf(out[i].msg), last)
      ensures OwedMsg(out[i].msg, w.hc.changes, w.proxies[g].state)
    {
      RepairSendAt(w, g, data, gaps, i);
    }
    AllMsgs(out, g);
    var msgs := MsgsFor(out, g);
    forall n | n in req
      ensures exists i :: 0 <= i < |msgs| && Settles(msgs[i], n, last)
    {
      RequestedIsPlanned(w, g, n);
      ListedIsSent(w, data, List(data.Keys), gaps, List(gaps.Keys), n);
      var i :| 0 <= i < |out| && Settles(out[i].msg, n, last);
      assert Settles(msgs[i], n, last);
    }
  }

  lemma RepairOut(w: Writer, g: Guid)
    requires w.script == [] && w.out == []
    requires g in w.proxies && w.proxies[g].locators.DataTargets() != []
    ensures var r := Repair(w, g);
      && r == w.(proxies := w.proxies[g := DrainProxy(w.proxies[g], Requested)], out := r.out, anState := Waiting)
      && Answers(MsgsFor(r.out, g), Numbers(w.proxies[g].state, Requested), MaxSettled(w))
      && OnlyOwed(MsgsFor(r.out, g), w.hc.changes, w.proxies[g].state)
  {
    var data, gaps := Plan(w, [g], Requested, true), Plan(w, [g], Requested, false);
    var xs, ys := List(data.Keys), List(gaps.Keys);
    var a := w.(proxies := w.proxies[g := DrainProxy(w.proxies[g], Requested)]);
    RepairSteps(a, data, xs, gaps, ys);
    RepairSendsElsewhere(w, a, data, xs);
    RepairAnswers(w, g, data, gaps);
  }

  /** A writer at rest that owes reader `g` no answer. */
  ghost predicate AtRest(w: Writer, g: Guid) {
    && Numbered(w) && w.hc.unprocessed == {} && w.script == [] && w.out == []
    && w.anState == Waiting && w.cfg.nackDelayZero
    && g in w.proxies && w.proxies[g].locators.DataTargets() != []
    && (forall n :: n in w.proxies[g].state ==> w.proxies[g].state[n].status != Requested)
  }

  /** The same, and `g` is its only reader. */
  ghost predicate Resting(w: Writer, g: Guid) {
    AtRest(w, g) && OnlyReader(w, g)
  }

  /** After the ACKNACK, before acknowledged changes are forgotten. */
  ghost function Answered(w: Writer, g: Guid, base: int, req: set<int>): Writer
    requires g in w.proxies
  {
    AnswerNack(NoteAck(w, g, base, req), g)
  }

  lemma RequestsAreThose(cs: CacheState, committed: int, req: set<int>)
    requires forall n :: n in cs ==> cs[n].status != Requested
    ensures Numbers(WithRequested(AckedUpTo(cs, committed), req), Requested) == req
  {
  }

  lemma NothingToDrain(cs: CacheState)
    requires Numbers(cs, Requested) == {}
    ensures Drained(cs, Requested) == cs
  {
    assert forall n :: n in cs && cs[n].status == Requested ==> n in Numbers(cs, Requested);
  }

  /** The reader's entries once its ACKNACK is noted. */
  ghost function Noted(cs: CacheState, base: int, req: set<int>): CacheState {
    WithRequested(AckedUpTo(cs, base - 1), req)
  }

  /** The same once its requests are answered. */
  ghost function StateAfter(cs: CacheState, base: int, req: set<int>): CacheState {
    Drained(Noted(cs, base, req), Requested)
  }

  lemma AnswerNackIs(w: Writer, g: Guid)
    requires g in w.proxies && w.proxies[g].locators.DataTargets() != []
    requires w.script == [] && w.out == [] && w.anState == Waiting && w.cfg.nackDelayZero
    ensures var r := AnswerNack(w, g);
      && r == w.(proxies := w.proxies[g := DrainProxy(w.proxies[g], Requested)], out := r.out)
      && Answers(MsgsFor(r.out, g), Numbers(w.proxies[g].state, Requested), MaxSettled(w))
      && OnlyOwed(MsgsFor(r.out, g), w.hc.changes, w.proxies[g].state)
  {
    if Numbers(w.proxies[g].state, Requested) == {} {
      NothingToDrain(w.proxies[g].state);
      assert w.proxies == w.proxies[g := DrainProxy(w.proxies[g], Requested)];
    } else {
      RepairOut(w, g);
    }
  }

  lemma MaxSettledElsewhere(w: Writer, r: Writer)
    requires r.hc == w.hc
    ensures MaxSettled(r) == MaxSettled(w)
  {
  }

  lemma AnsweredFrom(w: Writer, g: Guid, cs: CacheState)
    requires AtRest(w, g)
    ensures var w1 := w.(proxies := w.proxies[g := w.proxies[g].(state := cs)]);
      var r := AnswerNack(w1, g);
      && r == w.(proxies := w.proxies[g := w.proxies[g].(state := Drained(cs, Requested))], out := r.out)
      && Answers(MsgsFor(r.out, g), Numbers(cs, Requested), MaxSettled(w)) && OnlyOwed(MsgsFor(r.out, g), w.hc.changes, cs)
  {
    hide AnswerNack, Answers, OnlyOwed, Drained, Numbers, MsgsFor;
    var proxy := w.proxies[g].(state := cs);
    var w1 := w.(proxies := w.proxies[g := proxy]);
    AnswerNackIs(w1, g);
    MaxSettledElsewhere(w, w1);
    assert w1.proxies[g := DrainProxy(proxy, Requested)] == w.proxies[g := DrainProxy(proxy, Requested)];
  }

  lemma AnsweredIs(w: Writer, g: Guid, base: int, req: set<int>)
    requires AtRest(w, g)
    ensures var r := Answered(w, g, base, req);
      && g in r.proxies && r == w.(proxies := r.proxies, out := r.out)
      && r.proxies == w.proxies[g := w.proxies[g].(state := StateAfter(w.proxies[g].state, base, req))]
      && Answers(MsgsFor(r.out, g), req, MaxSettled(w))
      && OnlyOwed(MsgsFor(r.out, g), w.hc.changes, Noted(w.proxies[g].state, base, req))
  {
    var cs := Noted(w.proxies[g].state, base, req);
    assert Numbers(cs, Requested) == req by {
      RequestsAreThose(w.proxies[g].state, base - 1, req);
    }
    AnsweredFrom(w, g, cs);
  }

  lemma AckedByOne(w: Writer, g: Guid, n: int)
    requires OnlyReader(w, g)
    ensures AckedByAll(w, n) <==> IsAcked(w.proxies[g].state, n)
  {
  }

  lemma AckHandled(w: Writer, g: Guid, ack: Ack)
    requires AtRest(w, g)
    ensures var v := Answered(w, g, ack.base, ack.req);
      HandleAckNack(w, g, ack.base, ack.req) == Removed(v, Removable(v, ack.base - 1))
  {
    AckNackUnfolds(w, g, ack);
    AnsweredIs(w, g, ack.base, ack.req);
    QuietRemoveAcked(Answered(w, g, ack.base, ack.req), ack.base - 1);
  }

  lemma ForgottenAfter(w: Writer, g: Guid, ack: Ack, n: int)
    requires Resting(w, g) && n in w.hc.changes
    ensures var v, r := Answered(w, g, ack.base, ack.req), HandleAckNack(w, g, ack.base, ack.req);
      && (n in r.hc.changes <==> !(n <= RemovalBound(w, ack.base - 1) && AckedByAll(v, n)))
      && (n in r.hc.changes ==> (AckedByAll(r, n) <==> AckedByAll(v, n)))
  {
    AckHandled(w, g, ack);
    AnsweredIs(w, g, ack.base, ack.req);
    var v, r := Answered(w, g, ack.base, ack.req), HandleAckNack(w, g, ack.base, ack.req);
    if n in r.hc.changes {
      assert n !in Removable(v, ack.base - 1);
      assert IsAcked(r.proxies[g].state, n) <==> IsAcked(v.proxies[g].state, n);
      assert AckedByAll(r, n) <==> IsAcked(r.proxies[g].state, n);
      assert AckedByAll(v, n) <==> IsAcked(v.proxies[g].state, n);
    }
  }

  // ---- what the reader makes of it ----

  ghost predicate Recorded(cs: R.CacheState, first: int, last: int) {
    forall n :: first <= n <= last ==> n in cs
  }

  ghost function Heard(cs: R.CacheState, msg: Msg, taken: set<int>): R.CacheState {
    match msg
    case Data(n, payload) => if Deliverable(payload) then R.WithReceived(cs, n) else cs
    case Gap(n) => R.WithIrrelevant(cs, n)
    case Heartbeat(first, last, _) =>
      if R.HeartbeatValid(first, last) then R.OnHeartbeat(cs, taken, first, last) else cs
  }

  predicate Arrives(msg: Msg) {
    msg.Data? ==> Deliverable(msg.payload)
  }

  /** A heartbeat within what is on record makes nothing missing; what it no longer
      covers is given up. */
  lemma HeardHeartbeat(cs: R.CacheState, taken: set<int>, first: int, last: int)
    requires Recorded(cs, first, last)
    ensures var r := R.OnHeartbeat(cs, taken, first, last);
      && (forall n :: R.IsMissing(r, n) ==> n >= first)
      && (forall n :: n >= first ==> (n in r <==> n in cs))
      && (forall n :: n >= first && R.IsMissing(r, n) ==> R.IsMissing(cs, n) || cs[n].status == R.Unknown)
  {
  }

  /** Repairs never make a number missing, and each settles the number it is for. */
  lemma RepairHeard(cs: R.CacheState, msg: Msg, first: int, last: int)
    requires Recorded(cs, first, last) && first >= 1
    requires forall n :: n in cs ==> cs[n].status != R.Unknown
    requires msg.Heartbeat? ==> msg.first > first && msg.last == last
    ensures var r := Heard(cs, msg, {});
      && Recorded(r, first, last)
      && (forall n :: R.IsMissing(r, n) ==> R.IsMissing(cs, n))
      && (forall n :: first <= n <= last && Settles(msg, n, last) && Arrives(msg) ==> !R.IsMissing(r, n))
  {
    if msg.Heartbeat? && R.HeartbeatValid(msg.first, msg.last) {
      assert cs - {} == cs;
      var c := R.WithMissing(cs, msg.first, msg.last);
      forall n
        ensures n in c <==> n in cs
      {
        assert n in R.Span(msg.first, msg.last) ==> n in cs;
      }
    }
  }

  /** The heartbeat of a round: its whole range is on record afterwards. */
  lemma FirstHeard(cs: R.CacheState, taken: set<int>, first: int, last: int)
    ensures var r := R.OnHeartbeat(cs, taken, first, last);
      && Recorded(r, first, last) && (forall n :: R.IsMissing(r, n) ==> n >= first)
  {
  }

  // ---- the repairs arrive ----

  predicate RepairLink(p: Peer, first: int, last: int) {
    forall i :: 0 <= i < |p.link| && p.link[i].msg.Heartbeat? ==>
      first < p.link[i].msg.first && p.link[i].msg.last == last
  }

  /** Reader and link of `p` as they are while the repairs for [first, last] arrive. */
  ghost predicate Mending(p: Peer, first: int, last: int) {
    p.reader.Some? && RepairLink(p, first, last) && Recorded(p.reader.value, first, last)
  }

  /** A repair for `n` that can arrive is on the link. */
  ghost predicate Mended(p: Peer, n: int, last: int) {
    exists i :: 0 <= i < |p.link| && Settles(p.link[i].msg, n, last) && Arrives(p.link[i].msg)
  }

  ghost predicate LessMissing(p: Peer, q: Peer)
    requires p.reader.Some? && q.reader.Some?
  {
    forall n :: R.IsMissing(q.reader.value, n) ==> R.IsMissing(p.reader.value, n)
  }

  lemma ReceiveRepair(p: Peer, first: int, last: int)
    requires Mending(p, first, last) && p.link != [] && first >= 1 && ReaderOk(p)
    ensures var q := Receive(p, p.link[0].msg, {}).(link := p.link[1..]);
      && Mending(q, first, last) && LessMissing(p, q)
      && (forall n :: first <= n <= last && Settles(p.link[0].msg, n, last) && Arrives(p.link[0].msg)
            ==> !R.IsMissing(q.reader.value, n))
  {
    var msg := p.link[0].msg;
    RepairHeard(p.reader.value, msg, first, last);
    var q := Receive(p, msg, {}).(link := p.link[1..]);
    assert q.reader == Some(Heard(p.reader.value, msg, {}));
    assert forall i :: 0 <= i < |q.link| ==> q.link[i] == p.link[i + 1];
  }

  lemma OneDelivered(s: Sys, g: Guid, taken: set<int>)
    requires Inv(s) && g in s.peers && s.peers[g].link != []
    ensures var r := Apply(s, Deliver(g, taken, false));
      && Inv(r) && r.w == s.w && g in r.peers
      && r.peers[g] == Receive(s.peers[g], s.peers[g].link[0].msg, taken).(link := s.peers[g].link[1..])
  {
    InvApply(s, Deliver(g, taken, false));
    ReceiveOk(s.w, s.peers[g], taken);
  }

  lemma ReaderOkOf(s: Sys, g: Guid)
    requires Inv(s) && g in s.peers
    ensures ReaderOk(s.peers[g])
  {
  }

  lemma {:induction false} RepairsArrive(s: Sys, g: Guid, first: int, last: int)
    requires Inv(s) && g in s.peers && Mending(s.peers[g], first, last) && first >= 1
    ensures var r := DeliverAll(s, g, {});
      && Inv(r) && r.w == s.w && g in r.peers && r.peers[g].link == []
      && Mending(r.peers[g], first, last) && LessMissing(s.peers[g], r.peers[g])
      && (forall n :: first <= n <= last && Mended(s.peers[g], n, last) ==> !R.IsMissing(r.peers[g].reader.value, n))
    decreases |s.peers[g].link|
  {
    var p := s.peers[g];
    if p.link != [] {
      var s1 := Apply(s, Deliver(g, {}, false));
      OneDelivered(s, g, {});
      ReaderOkOf(s, g);
      ReceiveRepair(p, first, last);
      RepairsArrive(s1, g, first, last);
      var r := DeliverAll(s, g, {});
      assert r == DeliverAll(s1, g, {});
      forall n | first <= n <= last && Mended(p, n, last)
        ensures !R.IsMissing(r.peers[g].reader.value, n)
      {
        var i :| 0 <= i < |p.link| && Settles(p.link[i].msg, n, last) && Arrives(p.link[i].msg);
        if i > 0 {
          assert p.link[i] == s1.peers[g].link[i - 1];
          assert Mended(s1.peers[g], n, last);
        }
      }
    }
  }

  // ---- one round ----

  /** The reader's record once the round's heartbeat has arrived. */
  ghost function HeartbeatHeard(s: Sys, g: Guid, taken: set<int>): R.CacheState
    requires g in s.peers && s.peers[g].reader.Some?
  {
    R.OnHeartbeat(s.peers[g].reader.value, taken, MinSettled(Trimmed(s.w)), MaxSettled(Trimmed(s.w)))
  }

  /** The ACKNACK of a round. */
  ghost function RoundAck(s: Sys, g: Guid, taken: set<int>): Ack
    requires g in s.peers && s.peers[g].reader.Some?
  {
    Ack(R.AckBase(HeartbeatHeard(s, g, taken)), R.MissingSet(HeartbeatHeard(s, g, taken)))
  }

  /** The bitmap of the answer can span what the reader misses; a wider one is dropped
      when it arrives at the writer. */
  ghost predicate AckFits(s: Sys, g: Guid, taken: set<int>)
    requires g in s.peers && s.peers[g].reader.Some?
  {
    AckValid(RoundAck(s, g, taken))
  }

  /** After the heartbeat has arrived and been answered. */
  ghost function MidRound(s: Sys, g: Guid, taken: set<int>): Sys {
    Apply(Apply(s, Step.HeartbeatTimer(false, [])), Deliver(g, taken, false))
  }

  lemma ReceiveHeartbeat(p: Peer, first: int, last: int, taken: set<int>)
    requires p.reader.Some? && R.HeartbeatValid(first, last)
    ensures var r := R.OnHeartbeat(p.reader.value, taken, first, last);
      Receive(p, Heartbeat(first, last, false), taken)
        == p.(reader := Some(r), acks := p.acks + {Ack(R.AckBase(r), R.MissingSet(r))})
  {
  }

  lemma HeartbeatArrives(s: Sys, g: Guid, taken: set<int>)
    requires Ready(s, g) && !AllAcked(s.w)
    ensures var s1 := Apply(s, Step.HeartbeatTimer(false, []));
      g in s1.peers && s1.peers[g].link != []
    ensures var s2, a := MidRound(s, g, taken), RoundAck(s, g, taken);
      && Inv(s2) && s2.w == Trimmed(s.w) && g in s2.peers
      && s2.peers[g].reader == Some(HeartbeatHeard(s, g, taken))
      && s2.peers[g].link == [] && a in s2.peers[g].acks && Answer(s2.peers[g]) == a
      && s2.peers[g].got == s.peers[g].got
  {
    Fired(s, g);
    var t := Trimmed(s.w);
    var s1 := Apply(s, Step.HeartbeatTimer(false, []));
    OneDelivered(s1, g, taken);
    ReceiveHeartbeat(s1.peers[g], MinSettled(t), MaxSettled(t), taken);
  }

  lemma AckBounds(s: Sys, g: Guid, taken: set<int>)
    requires Ready(s, g) && !AllAcked(s.w)
    ensures var a, t := RoundAck(s, g, taken), Trimmed(s.w);
      && 1 <= a.base <= s.w.processed + 1
      && (forall n :: n in a.req ==> MinSettled(t) <= n <= s.w.processed)
      && (a.req != {} ==> a.base in a.req)
  {
    HeartbeatArrives(s, g, taken);
    Fired(s, g);
    var s2, a, t := MidRound(s, g, taken), RoundAck(s, g, taken), Trimmed(s.w);
    FirstHeard(s.peers[g].reader.value, taken, MinSettled(t), MaxSettled(t));
    assert PeerOk(s2.w, s2.peers[g]);
    assert AckOk(s2.peers[g], a);
    assert s2.w.processed == s.w.processed by { TrimmedShape(s.w); }
    forall n | n in a.req
      ensures MinSettled(t) <= n
    {
      assert R.IsMissing(HeartbeatHeard(s, g, taken), n);
    }
  }

  lemma TrimmedRests(s: Sys, g: Guid)
    requires Ready(s, g)
    ensures Resting(Trimmed(s.w), g)
  {
    var t := Trimmed(s.w);
    TrimmedShape(s.w);
    TrimmedIs(s.w);
    assert ProxyOk(s.w, s.peers[g], s.w.proxies[g]);
    assert t.proxies[g].locators == OwnLocators(s.peers[g]);
    forall n | n in t.proxies[g].state
      ensures t.proxies[g].state[n].status != Requested
    {
      assert t.proxies[g].state[n] == s.w.proxies[g].state[n];
    }
  }

  /** What the answer makes of the writer, and what is sent back. */
  lemma AckRound(t: Writer, g: Guid, a: Ack)
    requires Resting(t, g)
    ensures var h := HandleAckNack(t, g, a.base, a.req);
      && OnlyReader(h, g) && h.hc.unprocessed == {} && h.processed == t.processed
      && Answers(MsgsFor(h.out, g), a.req, MaxSettled(t))
      && OnlyOwed(MsgsFor(h.out, g), t.hc.changes, Noted(t.proxies[g].state, a.base, a.req))
      && h.hc.changes.Keys <= t.hc.changes.Keys
      && (forall n :: n in h.proxies[g].state ==> h.proxies[g].state[n].status != Requested)
  {
    AckHandled(t, g, a);
    AnsweredIs(t, g, a.base, a.req);
    var v := Answered(t, g, a.base, a.req);
    StateAfterNoneRequested(t.proxies[g].state, a.base, a.req);
  }

  lemma StateAfterNoneRequested(cs: CacheState, base: int, req: set<int>)
    ensures forall n :: n in StateAfter(cs, base, req) ==> StateAfter(cs, base, req)[n].status != Requested
  {
  }

  /** After the ACKNACK has arrived and the repairs are on the link. */
  ghost function Repairing(s: Sys, g: Guid, taken: set<int>): Sys
    requires g in s.peers && s.peers[g].reader.Some?
  {
    Apply(MidRound(s, g, taken), AckArrives(g, RoundAck(s, g, taken), []))
  }

  lemma RoundIs(s: Sys, g: Guid, taken: set<int>, s2: Sys, a: Ack)
    requires g in s.peers && s.peers[g].reader.Some? && s2 == MidRound(s, g, taken)
    requires var s1 := Apply(s, Step.HeartbeatTimer(false, [])); g in s1.peers && s1.peers[g].link != []
    requires g in s2.peers && s2.peers[g].reader.Some? && a == Answer(s2.peers[g])
    requires g in Apply(s2, AckArrives(g, a, [])).peers
    ensures Round(s, g, taken) == DeliverAll(Apply(s2, AckArrives(g, a, [])), g, {})
  {
  }

  lemma RoundUnfolds(s: Sys, g: Guid, taken: set<int>)
    requires Ready(s, g) && !AllAcked(s.w)
    ensures g in Repairing(s, g, taken).peers
    ensures Round(s, g, taken) == DeliverAll(Repairing(s, g, taken), g, {})
  {
    HeartbeatArrives(s, g, taken);
    PeersStay(MidRound(s, g, taken), g, RoundAck(s, g, taken));
    RoundIs(s, g, taken, MidRound(s, g, taken), RoundAck(s, g, taken));
  }

  lemma AckArrivesIs(s: Sys, g: Guid, a: Ack)
    requires g in s.peers && a in s.peers[g].acks && AckValid(a) && Begin(s.w, []) == s.w
    ensures Apply(s, AckArrives(g, a, [])) == Post(s.(w := HandleAckNack(s.w, g, a.base, a.req)))
  {
  }

  lemma PostedLink(s: Sys, g: Guid, msgs: seq<Msg>)
    requires g in s.peers && s.peers[g].link == [] && msgs == MsgsFor(s.w.out, g)
    ensures var p := Post(s).peers[g];
      && p.reader == s.peers[g].reader && |p.link| == |msgs|
      && forall i :: 0 <= i < |msgs| ==> p.link[i].msg == msgs[i]
  {
  }

  /** The writer at the end of a round in which something was unacknowledged. */
  ghost function RoundWriter(s: Sys, g: Guid, taken: set<int>): Writer
    requires g in s.peers && s.peers[g].reader.Some?
  {
    var a := RoundAck(s, g, taken);
    HandleAckNack(Trimmed(s.w), g, a.base, a.req)
  }

  lemma RepairsPosted(s: Sys, g: Guid, taken: set<int>)
    requires Ready(s, g) && !AllAcked(s.w) && AckFits(s, g, taken)
    ensures var s3, msgs := Repairing(s, g, taken), MsgsFor(RoundWriter(s, g, taken).out, g);
      && Inv(s3) && s3.w == RoundWriter(s, g, taken).(out := [], script := []) && g in s3.peers
      && s3.peers[g].reader == Some(HeartbeatHeard(s, g, taken))
      && |s3.peers[g].link| == |msgs|
      && forall i :: 0 <= i < |msgs| ==> s3.peers[g].link[i].msg == msgs[i]
  {
    HeartbeatArrives(s, g, taken);
    TrimmedRests(s, g);
    var s2, a := MidRound(s, g, taken), RoundAck(s, g, taken);
    InvApply(s2, AckArrives(g, a, []));
    AckArrivesIs(s2, g, a);
    PostedLink(s2.(w := RoundWriter(s, g, taken)), g, MsgsFor(RoundWriter(s, g, taken).out, g));
  }

  lemma AnswersForm(p: Peer, msgs: seq<Msg>, a: Ack, first: int, last: int)
    requires |p.link| == |msgs| && forall i :: 0 <= i < |msgs| ==> p.link[i].msg == msgs[i]
    requires Answers(msgs, a.req, last) && forall n :: n in a.req ==> first <= n
    ensures RepairLink(p, first, last)
  {
  }

  /** `n` is cached and owed to `g`, and its DATA cannot arrive. */
  predicate Hopeless(w: Writer, g: Guid, n: int) {
    && n in w.hc.changes && !Deliverable(w.hc.changes[n])
    && g in w.proxies && n in w.proxies[g].state && w.proxies[g].state[n].relevant
  }

  /** Every cached change that is owed to `g` can arrive. */
  ghost predicate CanCarry(w: Writer, g: Guid) {
    forall n :: n in w.hc.changes ==> !Hopeless(w, g, n)
  }

  lemma AnswersMend(p: Peer, msgs: seq<Msg>, t: Writer, g: Guid, a: Ack, n: int)
    requires |p.link| == |msgs| && forall i :: 0 <= i < |msgs| ==> p.link[i].msg == msgs[i]
    requires Answers(msgs, a.req, MaxSettled(t)) && n in a.req
    requires g in t.proxies && (n in t.hc.changes ==> n in t.proxies[g].state)
    requires OnlyOwed(msgs, t.hc.changes, Noted(t.proxies[g].state, a.base, a.req))
    ensures Mended(p, n, MaxSettled(t)) || Hopeless(t, g, n)
  {
    var last := MaxSettled(t);
    var i :| 0 <= i < |msgs| && Settles(msgs[i], n, last);
    assert OwedMsg(msgs[i], t.hc.changes, Noted(t.proxies[g].state, a.base, a.req));
    assert Settles(p.link[i].msg, n, last);
  }

  lemma RepairsForm(s: Sys, g: Guid, taken: set<int>)
    requires Ready(s, g) && !AllAcked(s.w) && AckFits(s, g, taken)
    ensures var s3, t := Repairing(s, g, taken), Trimmed(s.w);
      g in s3.peers && Mending(s3.peers[g], MinSettled(t), MaxSettled(t))
  {
    RepairsPosted(s, g, taken);
    TrimmedRests(s, g);
    AckBounds(s, g, taken);
    var s3, a, t := Repairing(s, g, taken), RoundAck(s, g, taken), Trimmed(s.w);
    AckRound(t, g, a);
    AnswersForm(s3.peers[g], MsgsFor(RoundWriter(s, g, taken).out, g), a, MinSettled(t), MaxSettled(t));
    FirstHeard(s.peers[g].reader.value, taken, MinSettled(t), MaxSettled(t));
  }

  lemma RepairsMend(s: Sys, g: Guid, taken: set<int>, n: int)
    requires Ready(s, g) && !AllAcked(s.w) && AckFits(s, g, taken)
    ensures var s3, t := Repairing(s, g, taken), Trimmed(s.w);
      && g in s3.peers && s3.peers[g].reader.Some?
      && (R.IsMissing(s3.peers[g].reader.value, n) ==> Mended(s3.peers[g], n, MaxSettled(t)) || Hopeless(t, g, n))
  {
    RepairsPosted(s, g, taken);
    TrimmedRests(s, g);
    TrimmedAgrees(s, g);
    var s3, a, t := Repairing(s, g, taken), RoundAck(s, g, taken), Trimmed(s.w);
    AckRound(t, g, a);
    if R.IsMissing(s3.peers[g].reader.value, n) {
      assert n in a.req;
      AnswersMend(s3.peers[g], MsgsFor(RoundWriter(s, g, taken).out, g), t, g, a, n);
    }
  }

  /** The reader has a record of everything in [first, last] and misses none of it. */
  ghost predicate Whole(p: Peer, first: int, last: int) {
    && p.reader.Some? && Recorded(p.reader.value, first, last)
    && forall n :: first <= n <= last ==> !R.IsMissing(p.reader.value, n)
  }

  /** The reader has a record of the whole range of `t`, and of that it misses only what
      cannot arrive. */
  ghost predicate Repaired(p: Peer, t: Writer, g: Guid) {
    && p.reader.Some? && Recorded(p.reader.value, MinSettled(t), MaxSettled(t))
    && forall n :: MinSettled(t) <= n <= MaxSettled(t) && R.IsMissing(p.reader.value, n) ==> Hopeless(t, g, n)
  }

  lemma RoundDone(s: Sys, g: Guid, taken: set<int>)
    requires Ready(s, g) && !AllAcked(s.w) && AckFits(s, g, taken)
    ensures var r, t := Round(s, g, taken), Trimmed(s.w);
      && Inv(r) && r.w == RoundWriter(s, g, taken).(out := [], script := [])
      && g in r.peers && r.peers[g].link == [] && Repaired(r.peers[g], t, g)
      && forall n :: R.IsMissing(r.peers[g].reader.value, n) ==> n in RoundAck(s, g, taken).req
  {
    RoundUnfolds(s, g, taken);
    RepairsPosted(s, g, taken);
    Fired(s, g);
    RepairsForm(s, g, taken);
    var s3, t := Repairing(s, g, taken), Trimmed(s.w);
    RepairsArrive(s3, g, MinSettled(t), MaxSettled(t));
    forall n | MinSettled(t) <= n <= MaxSettled(t) && R.IsMissing(Round(s, g, taken).peers[g].reader.value, n)
      ensures Hopeless(t, g, n)
    {
      RepairsMend(s, g, taken, n);
    }
  }

  lemma RoundReady(s: Sys, g: Guid, taken: set<int>)
    requires Ready(s, g) && !AllAcked(s.w) && AckFits(s, g, taken)
    ensures var r, t := Round(s, g, taken), Trimmed(s.w);
      && Ready(r, g) && Repaired(r.peers[g], t, g)
      && r.w.processed == s.w.processed && r.w.cfg == s.w.cfg
      && forall n :: n in r.w.hc.changes ==> n in t.hc.changes
  {
    RoundDone(s, g, taken);
    TrimmedRests(s, g);
    TrimmedShape(s.w);
    var a, t := RoundAck(s, g, taken), Trimmed(s.w);
    AckRound(t, g, a);
    AckHandled(t, g, a);
    AnsweredIs(t, g, a.base, a.req);
  }

  // ---- two rounds ----

  /** The answer of a reader that misses nothing of the writer's range claims all of it. */
  lemma WholeAnswers(cs: R.CacheState, taken: set<int>, first: int, last: int)
    requires R.HeartbeatValid(first, last) && first <= last && Recorded(cs, first, last)
    requires forall n :: n in cs ==> cs[n].status != R.Unknown
    requires forall n :: first <= n <= last ==> !R.IsMissing(cs, n)
    ensures var r := R.OnHeartbeat(cs, taken, first, last);
      R.AckBase(r) > last && forall n :: n in R.MissingSet(r) ==> n > last
  {
    var r := R.OnHeartbeat(cs, taken, first, last);
    HeardHeartbeat(cs, taken, first, last);
    forall n | n in R.MissingSet(r)
      ensures n > last
    {
      assert R.IsMissing(r, n);
    }
    assert R.Accounted(r, last) by {
      assert last in r && !R.IsMissing(r, last);
      assert last in R.Span(first, last);
    }
  }

  lemma RangeShrinks(t: Writer, u: Writer)
    requires u.hc.unprocessed == t.hc.unprocessed == {} && u.hc.changes.Keys != {}
    requires forall n :: n in u.hc.changes ==> n in t.hc.changes
    ensures MinSettled(t) <= MinSettled(u) && MaxSettled(u) <= MaxSettled(t)
  {
    AllSettled(t);
    AllSettled(u);
    assert MinSettled(u) in t.hc.changes && MaxSettled(u) in t.hc.changes;
  }

  lemma TrimmedRange(s: Sys, g: Guid)
    requires Ready(s, g) && !AllAcked(s.w)
    ensures var t := Trimmed(s.w); t.hc.changes.Keys != {} && 1 <= MinSettled(t) <= MaxSettled(t) <= t.processed
  {
    Fired(s, g);
  }

  lemma SecondAckCovers(s: Sys, g: Guid, taken: set<int>, first: int, last: int)
    requires Ready(s, g) && !AllAcked(s.w) && Whole(s.peers[g], first, last)
    requires first <= MinSettled(Trimmed(s.w)) && MaxSettled(Trimmed(s.w)) <= last
    ensures var a, last2 := RoundAck(s, g, taken), MaxSettled(Trimmed(s.w));
      a.base > last2 && forall n :: n in a.req ==> n > last2
  {
    TrimmedRange(s, g);
    ReaderOkOf(s, g);
    var t := Trimmed(s.w);
    WholeAnswers(s.peers[g].reader.value, taken, MinSettled(t), MaxSettled(t));
  }

  lemma TrimmedAgrees(s: Sys, g: Guid)
    requires Ready(s, g) && !AllAcked(s.w)
    ensures Agreement(Trimmed(s.w)) && Retained(Trimmed(s.w)) && Trimmed(s.w).processed == s.w.processed
  {
    Fired(s, g);
    TrimmedShape(s.w);
  }

  /** Acknowledged by the answer of this round, or before it, or not owed at all. */
  lemma AckedThen(t: Writer, g: Guid, a: Ack, n: int)
    requires Resting(t, g) && n in t.proxies[g].state
    ensures AckedByAll(Answered(t, g, a.base, a.req), n)
      ==> IsAcked(t.proxies[g].state, n) || n <= a.base - 1
    ensures n !in a.req && n <= a.base - 1 ==> AckedByAll(Answered(t, g, a.base, a.req), n)
  {
    AnsweredIs(t, g, a.base, a.req);
    AckedByOne(Answered(t, g, a.base, a.req), g, n);
    StateAfterEntry(t.proxies[g].state, a.base, a.req, n);
  }

  lemma StateAfterEntry(cs: CacheState, base: int, req: set<int>, n: int)
    requires n in cs && forall m :: m in cs ==> cs[m].status != Requested
    ensures var r := StateAfter(cs, base, req);
      && n in r && r[n].relevant == cs[n].relevant
      && (r[n].status == Acknowledged <==> n !in req && (n <= base - 1 || cs[n].status == Acknowledged))
  {
  }

  lemma FateAtWriter(w: Writer, g: Guid, a: Ack, n: int)
    requires Numbered(w) && w.hc.unprocessed == {} && OnlyReader(w, g)
    requires var t := Trimmed(w); Resting(t, g) && n in t.hc.changes && n in t.proxies[g].state
    ensures var h, bound := HandleAckNack(Trimmed(w), g, a.base, a.req), RemovalBound(w, a.base - 1);
      && (n !in a.req && n <= a.base - 1 && n in h.hc.changes ==> n > bound && AckedByAll(h, n))
      && (n > bound ==> n in h.hc.changes)
      && (n in h.hc.changes && AckedByAll(h, n) ==> n > bound && (AckedByAll(w, n) || n <= a.base - 1))
  {
    var t := Trimmed(w);
    AckedThen(t, g, a, n);
    ForgottenAfter(t, g, a, n);
    assert t.cfg == w.cfg by { TrimmedShape(w); }
    if IsAcked(t.proxies[g].state, n) {
      TrimmedAckedWas(w, g, n);
    }
  }

  lemma RegisteredIn(t: Writer, g: Guid, n: int)
    requires Agreement(t) && t.hc.unprocessed == {} && g in t.proxies && n in t.hc.changes
    ensures n in t.proxies[g].state
  {
  }

  /** What becomes of change `n` in a round. */
  lemma Fate(s: Sys, g: Guid, taken: set<int>, n: int)
    requires Ready(s, g) && !AllAcked(s.w) && AckFits(s, g, taken) && n in Trimmed(s.w).hc.changes
    ensures var r, a := Round(s, g, taken).w, RoundAck(s, g, taken);
      var bound := RemovalBound(s.w, a.base - 1);
      && (n !in a.req && n <= a.base - 1 && n in r.hc.changes ==> n > bound && AckedByAll(r, n))
      && (n > bound ==> n in r.hc.changes)
      && (n in r.hc.changes && AckedByAll(r, n) ==> n > bound && (AckedByAll(s.w, n) || n <= a.base - 1))
  {
    RoundDone(s, g, taken);
    TrimmedRests(s, g);
    TrimmedAgrees(s, g);
    RegisteredIn(Trimmed(s.w), g, n);
    FateAtWriter(s.w, g, RoundAck(s, g, taken), n);
    AckedStill(RoundWriter(s, g, taken), n);
  }

  lemma TrimmedAckedWas(w: Writer, g: Guid, n: int)
    requires Numbered(w) && w.hc.unprocessed == {} && OnlyReader(w, g)
    requires n in Trimmed(w).hc.changes && g in Trimmed(w).proxies && n in Trimmed(w).proxies[g].state
    requires IsAcked(Trimmed(w).proxies[g].state, n)
    ensures AckedByAll(w, n)
  {
    TrimmedIs(w);
  }

  lemma AckedStill(w: Writer, n: int)
    ensures AckedByAll(w.(out := [], script := []), n) <==> AckedByAll(w, n)
  {
  }

  /** What is cached: nothing, or for a TransientLocal writer the newest change. */
  ghost predicate OnlyNewest(w: Writer) {
    forall n :: n in w.hc.changes <==> w.cfg.durability == TransientLocal && n == w.processed
  }

  lemma NewestIsMax(t: Writer)
    requires Numbered(t) && t.hc.unprocessed == {} && Retained(t)
    requires t.cfg.durability == TransientLocal && t.processed >= 1
    ensures t.processed in t.hc.changes && MaxSettled(t) == t.processed
  {
    AllSettled(t);
    assert t.processed in Settled(t);
    assert MaxSettled(t) !in t.hc.unprocessed;
  }

  lemma NewestStays(s: Sys, g: Guid)
    requires Ready(s, g) && !AllAcked(s.w) && s.w.cfg.durability == TransientLocal
    ensures s.w.processed >= 1 && s.w.processed in s.w.hc.changes
    ensures MaxSettled(Trimmed(s.w)) == s.w.processed
  {
    TrimmedRange(s, g);
    TrimmedAgrees(s, g);
    TrimmedShape(s.w);
    NewestIsMax(s.w);
    NewestIsMax(Trimmed(s.w));
  }

  lemma InTrimmed(t: Writer, n: int)
    requires t.hc.unprocessed == {} && n in t.hc.changes
    ensures MinSettled(t) <= n <= MaxSettled(t)
  {
    AllSettled(t);
  }

  /** A round that the reader answers in full leaves nothing to do. */
  lemma FullAnswerSettles(s: Sys, g: Guid, taken: set<int>)
    requires Ready(s, g) && !AllAcked(s.w) && AckFits(s, g, taken)
    requires var a, last := RoundAck(s, g, taken), MaxSettled(Trimmed(s.w));
      a.base > last && forall n :: n in a.req ==> n > last
    ensures AllAcked(Round(s, g, taken).w) && OnlyNewest(Round(s, g, taken).w)
  {
    var r, a, t := Round(s, g, taken), RoundAck(s, g, taken), Trimmed(s.w);
    RoundReady(s, g, taken);
    TrimmedAgrees(s, g);
    TrimmedShape(s.w);
    AckBounds(s, g, taken);
    if s.w.cfg.durability == TransientLocal {
      NewestStays(s, g);
    }
    forall n | n in r.w.hc.changes
      ensures AckedByAll(r.w, n) && s.w.cfg.durability == TransientLocal && n == s.w.processed
    {
      InTrimmed(t, n);
      Fate(s, g, taken, n);
    }
    assert Retained(r.w);
  }

  /** If one round was enough, a Volatile writer's cache is empty; a TransientLocal one
      holds just the newest change, provided that was among those still unacknowledged. */
  lemma OneRoundSettles(s: Sys, g: Guid, taken: set<int>)
    requires Ready(s, g) && !AllAcked(s.w) && AckFits(s, g, taken) && AllAcked(Round(s, g, taken).w)
    requires s.w.cfg.durability == TransientLocal ==> !AckedByAll(s.w, s.w.processed)
    ensures OnlyNewest(Round(s, g, taken).w)
  {
    hide Inv, Round, RoundAck, Trimmed, NoneRequested;
    var r, a, t := Round(s, g, taken), RoundAck(s, g, taken), Trimmed(s.w);
    RoundReady(s, g, taken);
    ReadyRetains(s, g);
    ReadyRetains(r, g);
    TrimmedAgrees(s, g);
    TrimmedShape(s.w);
    AckBounds(s, g, taken);
    assert Retained(r.w);
    if s.w.cfg.durability == TransientLocal {
      NewestStays(s, g);
      Fate(s, g, taken, s.w.processed);
    }
    forall n | n in r.w.hc.changes
      ensures s.w.cfg.durability == TransientLocal && n == s.w.processed
    {
      Fate(s, g, taken, n);
      TrimmedLeft(s.w, n);
    }
  }

  lemma LeftAfterOne(s: Sys, g: Guid, taken: set<int>, n: int)
    requires Ready(s, g) && !AllAcked(s.w) && AckFits(s, g, taken) && AllAcked(Round(s, g, taken).w)
    requires s.w.cfg.durability == TransientLocal && n in Round(s, g, taken).w.hc.changes
    ensures n == s.w.processed || n == RoundAck(s, g, taken).base - 1
  {
    RoundReady(s, g, taken);
    NewestStays(s, g);
    NewestIsMax(s.w);
    TrimmedShape(s.w);
    TrimmedLeft(s.w, n);
    Fate(s, g, taken, n);
  }

  lemma ReadyRetains(s: Sys, g: Guid)
    requires Ready(s, g)
    ensures Retained(s.w) && Agreement(s.w)
  {
  }

  lemma KeptAfterOne(s: Sys, g: Guid, taken: set<int>)
    requires Ready(s, g) && !AllAcked(s.w) && AckFits(s, g, taken) && s.w.cfg.durability == TransientLocal
    ensures s.w.processed in Round(s, g, taken).w.hc.changes
  {
    RoundReady(s, g, taken);
    NewestStays(s, g);
    ReadyRetains(Round(s, g, taken), g);
  }

  lemma BelowBaseStays(s: Sys, g: Guid, taken: set<int>, n: int)
    requires Ready(s, g) && !AllAcked(s.w) && AckFits(s, g, taken) && s.w.cfg.durability == TransientLocal
    requires n == RoundAck(s, g, taken).base - 1
    ensures n in Round(s, g, taken).w.hc.changes <==> n in Trimmed(s.w).hc.changes
  {
    RoundReady(s, g, taken);
    if n in Trimmed(s.w).hc.changes {
      Fate(s, g, taken, n);
    }
  }

  lemma NewestAlone(r: Writer, n: int)
    requires r.cfg.durability == TransientLocal && r.processed in r.hc.changes
    requires forall m :: m in r.hc.changes ==> m == r.processed || m == n
    ensures OnlyNewest(r) <==> n == r.processed || n !in r.hc.changes
  {
  }

  /** When one round was enough but the newest change had been acknowledged before it,
      a TransientLocal writer can be left with one change too many: the one just below
      the base of the answer. The heartbeat that would clear it is not sent, as nothing
      is unacknowledged any more. */
  lemma OneRoundLeaves(s: Sys, g: Guid, taken: set<int>)
    requires Ready(s, g) && !AllAcked(s.w) && AckFits(s, g, taken) && AllAcked(Round(s, g, taken).w)
    requires s.w.cfg.durability == TransientLocal
    ensures var base := RoundAck(s, g, taken).base;
      OnlyNewest(Round(s, g, taken).w) <==> base == s.w.processed + 1 || base - 1 !in Trimmed(s.w).hc.changes
  {
    hide Inv, Round, RoundAck, Trimmed, AllAcked, NoneRequested;
    var r, n := Round(s, g, taken).w, RoundAck(s, g, taken).base - 1;
    KeptAfterOne(s, g, taken);
    BelowBaseStays(s, g, taken, n);
    forall m | m in r.hc.changes
      ensures m == s.w.processed || m == n
    {
      LeftAfterOne(s, g, taken, m);
    }
    assert r.cfg == s.w.cfg && r.processed == s.w.processed by {
      RoundReady(s, g, taken);
    }
    NewestAlone(r, n);
  }

  /** What the reader misses once a heartbeat has arrived. */
  lemma MissingHeard(cs: R.CacheState, taken: set<int>, first: int, last: int, n: int)
    requires forall m :: m in cs ==> cs[m].status != R.Unknown
    ensures n in R.MissingSet(R.OnHeartbeat(cs, taken, first, last))
      <==> n >= first && if n in cs then cs[n].status == R.Missing else n <= last
  {
  }

  lemma SameBase(a: R.CacheState, b: R.CacheState, first: int)
    requires R.MissingSet(a) == R.MissingSet(b)
    requires forall n :: n >= first ==> (R.Accounted(a, n) <==> R.Accounted(b, n))
    requires R.MissingSet(a) == {} ==> exists n :: n >= first && n > 0 && R.Accounted(a, n)
    ensures R.AckBase(a) == R.AckBase(b)
  {
  }

  lemma AccountedHeard(cs: R.CacheState, taken: set<int>, first: int, last: int, n: int)
    requires n >= first
    ensures R.Accounted(R.OnHeartbeat(cs, taken, first, last), n) <==> R.Accounted(cs, n)
  {
  }

  lemma SameAnswer(cs: R.CacheState, taken: set<int>, first: int, last: int)
    requires forall m :: m in cs ==> cs[m].status != R.Unknown
    requires first <= last && 1 <= last
    ensures var a, b := R.OnHeartbeat(cs, taken, first, last), R.OnHeartbeat(cs, {}, first, last);
      R.MissingSet(a) == R.MissingSet(b) && R.AckBase(a) == R.AckBase(b)
  {
    hide R.OnHeartbeat, R.Accounted, R.MissingSet;
    var a, b := R.OnHeartbeat(cs, taken, first, last), R.OnHeartbeat(cs, {}, first, last);
    forall n
      ensures n in R.MissingSet(a) <==> n in R.MissingSet(b)
    {
      MissingHeard(cs, taken, first, last, n);
      MissingHeard(cs, {}, first, last, n);
    }
    forall n | n >= first
      ensures R.Accounted(a, n) <==> R.Accounted(b, n)
    {
      AccountedHeard(cs, taken, first, last, n);
      AccountedHeard(cs, {}, first, last, n);
    }
    assert R.MissingSet(a) == R.MissingSet(b);
    if R.MissingSet(a) == {} {
      LastAccounted(cs, taken, first, last);
    }
    SameBase(a, b, first);
  }

  lemma LastAccounted(cs: R.CacheState, taken: set<int>, first: int, last: int)
    requires forall m :: m in cs ==> cs[m].status != R.Unknown
    requires first <= last && R.MissingSet(R.OnHeartbeat(cs, taken, first, last)) == {}
    ensures R.Accounted(R.OnHeartbeat(cs, taken, first, last), last)
  {
    MissingHeard(cs, taken, first, last, last);
    AccountedHeard(cs, taken, first, last, last);
  }

  /** What the application has taken makes no difference to the answer. */
  lemma AckIgnoresTaken(s: Sys, g: Guid, taken: set<int>)
    requires Ready(s, g) && !AllAcked(s.w)
    ensures RoundAck(s, g, taken) == RoundAck(s, g, {})
  {
    TrimmedRange(s, g);
    ReaderOkOf(s, g);
    SameAnswer(s.peers[g].reader.value, taken, MinSettled(Trimmed(s.w)), MaxSettled(Trimmed(s.w)));
  }

  lemma AsksNoMore(cs: R.CacheState, taken: set<int>, outer: (int, int), inner: (int, int), req: set<int>)
    requires Recorded(cs, outer.0, outer.1) && outer.0 <= inner.0 && inner.1 <= outer.1
    requires forall m :: m in cs ==> cs[m].status != R.Unknown
    requires forall m :: R.IsMissing(cs, m) ==> m in req
    ensures R.MissingSet(R.OnHeartbeat(cs, taken, inner.0, inner.1)) <= req
  {
  }

  lemma NarrowerFits(a: Ack, b: Ack)
    requires AckValid(a) && b.req <= a.req && forall n :: n in a.req ==> a.base <= n
    requires b.base >= 1 && (b.req != {} ==> b.base in b.req)
    ensures AckValid(b)
  {
  }

  lemma BaseIsLeast(cs: R.CacheState)
    ensures forall n :: n in R.MissingSet(cs) ==> R.AckBase(cs) <= n
  {
  }

  /** The second round's heartbeat covers no more than the first one's. */
  lemma SecondRange(s: Sys, g: Guid, taken: set<int>)
    requires Ready(s, g) && !AllAcked(s.w) && AckFits(s, g, taken) && !AllAcked(Round(s, g, taken).w)
    ensures var s1, t := Round(s, g, taken), Trimmed(s.w);
      && Ready(s1, g) && Repaired(s1.peers[g], t, g)
      && MinSettled(t) <= MinSettled(Trimmed(s1.w)) && MaxSettled(Trimmed(s1.w)) <= MaxSettled(t)
  {
    hide Round, Trimmed, Inv;
    var s1 := Round(s, g, taken);
    RoundReady(s, g, taken);
    ReadyRetains(s, g);
    ReadyRetains(s1, g);
    TrimmedRange(s1, g);
    TrimmedShape(s.w);
    TrimmedShape(s1.w);
    RangeShrinks(Trimmed(s.w), Trimmed(s1.w));
  }

  /** After a round that got through, the next answer fits as well: it asks for no more. */
  lemma FitsAgain(s: Sys, g: Guid, taken1: set<int>, taken2: set<int>)
    requires Ready(s, g) && !AllAcked(s.w) && AckFits(s, g, taken1)
    requires var s1 := Round(s, g, taken1); g in s1.peers && s1.peers[g].reader.Some? && !AllAcked(s1.w)
    ensures AckFits(Round(s, g, taken1), g, taken2)
  {
    hide Inv, Round, Trimmed, R.OnHeartbeat, R.AckBase, R.MissingSet, NoneRequested, AckValid, AllAcked, OnlyReader;
    var s1 := Round(s, g, taken1);
    SecondRange(s, g, taken1);
    RoundDone(s, g, taken1);
    AckBounds(s1, g, taken2);
    ReaderOkOf(s1, g);
    var t, t1 := Trimmed(s.w), Trimmed(s1.w);
    var a := RoundAck(s, g, taken1);
    AsksNoMore(s1.peers[g].reader.value, taken2, (MinSettled(t), MaxSettled(t)), (MinSettled(t1), MaxSettled(t1)), a.req);
    BaseIsLeast(HeartbeatHeard(s, g, taken1));
    NarrowerFits(a, RoundAck(s1, g, taken2));
  }

  lemma TrimmedCarries(w: Writer, g: Guid)
    requires Numbered(w) && CanCarry(w, g)
    ensures CanCarry(Trimmed(w), g)
  {
    TrimmedIs(w);
    var t := Trimmed(w);
    forall n | n in t.hc.changes
      ensures !Hopeless(t, g, n)
    {
      assert !Hopeless(w, g, n);
    }
  }

  lemma RepairedWhole(p: Peer, t: Writer, g: Guid)
    requires Repaired(p, t, g) && CanCarry(t, g)
    ensures Whole(p, MinSettled(t), MaxSettled(t))
  {
  }

  /** The second round's answer covers the whole of the writer's range. */
  lemma SecondRound(s: Sys, g: Guid, taken1: set<int>, taken2: set<int>)
    requires Ready(s, g) && !AllAcked(s.w) && AckFits(s, g, taken1) && CanCarry(s.w, g)
    requires var s1 := Round(s, g, taken1); g in s1.peers && s1.peers[g].reader.Some? && !AllAcked(s1.w)
    ensures var r := Round(Round(s, g, taken1), g, taken2);
      Ready(r, g) && AllAcked(r.w) && OnlyNewest(r.w)
  {
    var s1 := Round(s, g, taken1);
    SecondRange(s, g, taken1);
    ReadyRetains(s, g);
    TrimmedCarries(s.w, g);
    RepairedWhole(s1.peers[g], Trimmed(s.w), g);
    FitsAgain(s, g, taken1, taken2);
    SecondAckCovers(s1, g, taken2, MinSettled(Trimmed(s.w)), MaxSettled(Trimmed(s.w)));
    FullAnswerSettles(s1, g, taken2);
    RoundReady(s1, g, taken2);
  }

  // ---- a gap too wide for the bitmap ----

  lemma TrimmedTwice(w: Writer, g: Guid)
    requires Agreement(w) && w.hc.unprocessed == {} && OnlyReader(w, g)
    requires Agreement(Trimmed(w)) && OnlyReader(Trimmed(w), g)
    ensures Trimmed(Trimmed(w)).hc.changes.Keys == Trimmed(w).hc.changes.Keys
  {
    hide Trimmed;
    var t := Trimmed(w);
    TrimmedShape(w);
    TrimmedShape(t);
    AllSettled(w);
    AllSettled(t);
    forall n | n in t.hc.changes
      ensures n in Trimmed(t).hc.changes
    {
      TrimmedLeft(w, n);
      TrimmedLeft(t, n);
      RegisteredIn(t, g, n);
      if AckedByAll(t, n) {
        TrimmedAckedWas(w, g, n);
      }
    }
  }

  lemma UnackedStays(w: Writer, g: Guid)
    requires Numbered(w) && w.hc.unprocessed == {} && OnlyReader(w, g) && !AllAcked(w)
    requires Agreement(Trimmed(w)) && OnlyReader(Trimmed(w), g)
    ensures !AllAcked(Trimmed(w))
  {
    hide Numbered, Trimmed;
    TrimmedShape(w);
    var n :| n in w.hc.changes && !AckedByAll(w, n);
    TrimmedLeft(w, n);
    RegisteredIn(Trimmed(w), g, n);
    if AckedByAll(Trimmed(w), n) {
      TrimmedAckedWas(w, g, n);
    }
  }

  lemma AckDropped(s: Sys, g: Guid, a: Ack)
    requires !AckValid(a)
    ensures Apply(s, AckArrives(g, a, [])) == s
  {
  }

  lemma NothingToDeliver(s: Sys, g: Guid)
    requires g in s.peers && s.peers[g].link == []
    ensures DeliverAll(s, g, {}) == s
  {
  }

  lemma TrimmedReady(s: Sys, g: Guid, r: Sys)
    requires Ready(s, g) && Inv(r) && r.w == Trimmed(s.w)
    requires g in r.peers && r.peers[g].reader.Some? && r.peers[g].link == []
    ensures Ready(r, g)
  {
    TrimmedRests(s, g);
  }

  /** An answer that does not fit is lost on the writer: the round ends after it. */
  lemma UnfitRound(s: Sys, g: Guid, taken: set<int>)
    requires Ready(s, g) && !AllAcked(s.w) && !AckFits(s, g, taken)
    ensures var r := Round(s, g, taken);
      && Ready(r, g) && r.w == Trimmed(s.w) && !AllAcked(r.w)
      && r.peers[g].reader == Some(HeartbeatHeard(s, g, taken)) && r.peers[g].got == s.peers[g].got
  {
    hide Inv, Round, DeliverAll, Apply, HeartbeatHeard, RoundAck, Trimmed;
    RoundUnfolds(s, g, taken);
    HeartbeatArrives(s, g, taken);
    AckDropped(MidRound(s, g, taken), g, RoundAck(s, g, taken));
    NothingToDeliver(MidRound(s, g, taken), g);
    TrimmedReady(s, g, MidRound(s, g, taken));
    TrimmedAgrees(s, g);
    ReadyRetains(s, g);
    UnackedStays(s.w, g);
  }

  lemma SettledAs(w: Writer, r: Writer)
    requires r.hc.changes.Keys == w.hc.changes.Keys && r.hc.unprocessed == w.hc.unprocessed
    ensures MinSettled(r) == MinSettled(w) && MaxSettled(r) == MaxSettled(w)
  {
  }

  lemma HeardTwice(cs: R.CacheState, taken1: set<int>, taken2: set<int>, first: int, last: int)
    requires forall m :: m in cs ==> cs[m].status != R.Unknown
    ensures var a := R.OnHeartbeat(cs, taken1, first, last);
      R.MissingSet(R.OnHeartbeat(a, taken2, first, last)) == R.MissingSet(a)
  {
  }

  lemma UnfitAsks(s: Sys, g: Guid, taken: set<int>)
    requires Ready(s, g) && !AllAcked(s.w) && !AckFits(s, g, taken)
    ensures RoundAck(s, g, taken).req != {}
  {
    AckBounds(s, g, taken);
  }

  lemma UnfitAgain(s: Sys, g: Guid, taken1: set<int>, taken2: set<int>)
    requires Ready(s, g) && !AllAcked(s.w) && !AckFits(s, g, taken1)
    requires Ready(Round(s, g, taken1), g)
    ensures !AckFits(Round(s, g, taken1), g, taken2)
  {
    hide Inv, Round, Trimmed, R.OnHeartbeat, Agreement;
    UnfitRound(s, g, taken1);
    UnfitAsks(s, g, taken1);
    ReaderOkOf(s, g);
    ReadyRetains(s, g);
    var s1, t := Round(s, g, taken1), Trimmed(s.w);
    ReadyRetains(s1, g);
    TrimmedTwice(s.w, g);
    TrimmedShape(t);
    SettledAs(t, Trimmed(t));
    HeardTwice(s.peers[g].reader.value, taken1, taken2, MinSettled(t), MaxSettled(t));
    assert RoundAck(s1, g, taken2) == RoundAck(s, g, taken1);
  }

  /** A writer with nothing unacknowledged sends no periodic heartbeat. */
  lemma Silent(s: Sys)
    requires AllAcked(s.w)
    ensures Apply(s, Step.HeartbeatTimer(false, [])) == s.(w := s.w.(out := [], script := []))
  {
  }

  lemma SilentRound(s: Sys, g: Guid, taken: set<int>)
    requires Ready(s, g) && AllAcked(s.w)
    ensures Round(s, g, taken) == s.(w := s.w.(out := [], script := []))
  {
    Silent(s);
  }

  // ---- no request stays unanswered between handlers ----

  lemma NoneRequestedRemoveAcked(w: Writer, base: int)
    requires Numbered(w) && NoneRequested(w)
    ensures NoneRequested(RemoveAcked(w, base))
  {
    RemoveAckedEffect(w, base);
  }

  lemma NoneRequestedTake(w: Writer)
    requires NoneRequested(w)
    ensures NoneRequested(TakeUnprocessed(w))
  {
  }

  lemma NoneRequestedSendUnsent(w: Writer)
    requires Agreement(w) && NoneRequested(w)
    ensures NoneRequested(SendUnsent(w))
  {
    SendUnsentEffect(w);
  }

  lemma NoneRequestedProcessWrites(w: Writer)
    requires Agreement(w) && NoneRequested(w)
    ensures NoneRequested(ProcessWrites(w))
  {
    YieldGrows(w);
    var w1 := Yield(w);
    if w1.hc.unprocessed != {} {
      AgreementGrown(w, w1);
      AgreementTake(w1);
      var w2, oldest := TakeUnprocessed(w1), Min(w1.hc.unprocessed);
      NoneRequestedTake(w1);
      NoneRequestedRemoveAcked(w2, oldest);
      AgreementRemoveAcked(w2, oldest);
      NoneRequestedSendUnsent(RemoveAcked(w2, oldest));
    }
  }

  lemma NoneRequestedTrim(w: Writer)
    requires Numbered(w) && NoneRequested(w)
    ensures NoneRequested(Trim(w))
  {
    TrimEffect(w);
    NoneRequestedRemoveAcked(Yield(w), MaxSettled(Yield(w)));
  }

  lemma NoneRequestedHeartbeat(w: Writer, liveliness: bool)
    requires Numbered(w) && NoneRequested(w)
    ensures NoneRequested(SendHeartbeat(w, liveliness))
  {
    var w0 := if liveliness then w else Yield(w);
    YieldGrows(w);
    NoneRequestedTrim(w0);
  }

  lemma RepairedNoneRequested(w: Writer, g: Guid)
    requires Agreement(w) && g in w.proxies
    requires forall h, n ::
      h in w.proxies && h != g && n in w.proxies[h].state ==> w.proxies[h].state[n].status != Requested
    ensures NoneRequested(Repair(w, g))
  {
    var data, gaps := Plan(w, [g], Requested, true), Plan(w, [g], Requested, false);
    var a := w.(proxies := w.proxies[g := DrainProxy(w.proxies[g], Requested)]);
    SendRepairsKeeps(a, a, data, List(data.Keys));
    SendGapsEffect(SendRepairs(a, data, List(data.Keys)), gaps, List(gaps.Keys));
  }

  lemma NoneRequestedAnswerNack(w: Writer, g: Guid)
    requires Agreement(w) && g in w.proxies && w.anState == Waiting && w.cfg.nackDelayZero
    requires forall h, n ::
      h in w.proxies && h != g && n in w.proxies[h].state ==> w.proxies[h].state[n].status != Requested
    ensures NoneRequested(AnswerNack(w, g))
  {
    hide Repair, Agreement;
    if Numbers(w.proxies[g].state, Requested) == {} {
      forall n | n in w.proxies[g].state
        ensures w.proxies[g].state[n].status != Requested
      {
        assert n !in Numbers(w.proxies[g].state, Requested);
      }
    } else {
      RepairedNoneRequested(w, g);
    }
  }

  lemma NoteAckOthers(w: Writer, g: Guid, base: int, req: set<int>)
    requires Agreement(w) && NoneRequested(w) && g in w.proxies
    ensures var w1 := NoteAck(w, g, base, req);
      && Agreement(w1) && g in w1.proxies && w1.anState == w.anState && w1.cfg == w.cfg
      && forall h, n ::
           h in w1.proxies && h != g && n in w1.proxies[h].state ==> w1.proxies[h].state[n].status != Requested
  {
  }

  lemma NoneRequestedAckNack(w: Writer, g: Guid, base: int, req: set<int>)
    requires Agreement(w) && NoneRequested(w) && w.anState == Waiting && w.cfg.nackDelayZero
    ensures NoneRequested(HandleAckNack(w, g, base, req))
  {
    hide NoteAck, AnswerNack, RemoveAcked, NoneRequested;
    if g in w.proxies {
      NoteAckOthers(w, g, base, req);
      var w1 := NoteAck(w, g, base, req);
      NoneRequestedAnswerNack(w1, g);
      AgreementAnswerNack(w1, g);
      NoneRequestedRemoveAcked(AnswerNack(w1, g), base - 1);
    }
  }

  lemma NoneRequestedApply(s: Sys, step: Step)
    requires Inv(s) && NoneRequested(s.w)
    ensures NoneRequested(Apply(s, step).w)
  {
    hide HandleAckNack, ProcessWrites, SendHeartbeat, PeersOk, AckValid;
    match step
    case AppWrite(p) =>
    case WriteCommand(script) => NoneRequestedProcessWrites(Begin(s.w, script));
    case HeartbeatTimer(liveliness, script) => NoneRequestedHeartbeat(Begin(s.w, script), liveliness);
    case AckArrives(g, ack, script) => NoneRequestedAckNack(Begin(s.w, script), g, ack.base, ack.req);
    case WriterFinds(g, restCompatible, script) => YieldGrows(Begin(s.w, script));
    case WriterForgets(prefix) =>
    case ReaderFinds(g) =>
    case ReaderForgets(g) =>
    case Lose(g) =>
    case Deliver(g, taken, again) =>
  }

  lemma {:induction false} NoneRequestedRun(s: Sys, steps: seq<Step>)
    requires Inv(s) && NoneRequested(s.w)
    ensures Inv(Run(s, steps)) && NoneRequested(Run(s, steps).w)
    decreases |steps|
  {
    if steps != [] {
      InvApply(s, steps[0]);
      NoneRequestedApply(s, steps[0]);
      NoneRequestedRun(Apply(s, steps[0]), steps[1..]);
    }
  }

  // ---- what no round takes away ----

  predicate WriterKept(a: Writer, b: Writer) {
    b.proxies.Keys == a.proxies.Keys && b.processed == a.processed && a.hc.written <= b.hc.written
  }

  /** The reader stays matched and is owed what it was owed; what it has got stays. */
  predicate Kept(a: Sys, b: Sys, g: Guid) {
    && WriterKept(a.w, b.w) && g in a.peers && g in b.peers
    && b.peers[g].rel == a.peers[g].rel && a.peers[g].got.Keys <= b.peers[g].got.Keys
  }

  lemma RemoveAckedKeeps(w: Writer, base: int)
    requires Numbered(w)
    ensures WriterKept(w, RemoveAcked(w, base))
  {
    RemoveAckedEffect(w, base);
  }

  lemma HeartbeatKeeps(w: Writer, liveliness: bool)
    requires Numbered(w)
    ensures WriterKept(w, SendHeartbeat(w, liveliness))
  {
    hide RemoveAcked, Announce;
    var w0 := if liveliness then w else Yield(w);
    YieldGrows(w);
    TrimKeeps(w0);
    AnnounceKeeps(Trim(w0), liveliness);
  }

  lemma TrimKeeps(w: Writer)
    requires Numbered(w)
    ensures WriterKept(w, Trim(w))
  {
    TrimEffect(w);
    RemoveAckedKeeps(Yield(w), MaxSettled(Yield(w)));
  }

  lemma AnnounceKeeps(w: Writer, liveliness: bool)
    ensures WriterKept(w, Announce(w, liveliness))
  {
  }

  lemma RepairKeeps(w: Writer, g: Guid)
    requires Agreement(w)
    ensures WriterKept(w, Repair(w, g))
  {
    if g in w.proxies {
      var data, gaps := Plan(w, [g], Requested, true), Plan(w, [g], Requested, false);
      var a := w.(proxies := w.proxies[g := DrainProxy(w.proxies[g], Requested)]);
      SendRepairsKeeps(a, a, data, List(data.Keys));
      SendGapsEffect(SendRepairs(a, data, List(data.Keys)), gaps, List(gaps.Keys));
    }
  }

  lemma AckNackKeeps(w: Writer, g: Guid, a: Ack)
    requires Agreement(w) && w.anState == Waiting
    ensures WriterKept(w, HandleAckNack(w, g, a.base, a.req))
  {
    hide Repair, RemoveAcked;
    if g in w.proxies {
      AckNackUnfolds(w, g, a);
      var w1 := NoteAck(w, g, a.base, a.req);
      assert Agreement(w1);
      RepairKeeps(w1, g);
      AgreementAnswerNack(w1, g);
      RemoveAckedKeeps(AnswerNack(w1, g), a.base - 1);
    }
  }

  lemma KeptStep(s: Sys, step: Step, g: Guid)
    requires Inv(s) && g in s.peers
    requires step.HeartbeatTimer? || step.AckArrives? || step.Deliver?
    ensures Inv(Apply(s, step)) && Kept(s, Apply(s, step), g)
  {
    hide SendHeartbeat, HandleAckNack, PeersOk, AckValid;
    InvApply(s, step);
    match step
    case HeartbeatTimer(liveliness, script) => HeartbeatKeeps(Begin(s.w, script), liveliness);
    case AckArrives(h, ack, script) => AckNackKeeps(Begin(s.w, script), h, ack);
    case Deliver(h, taken, again) =>
  }

  lemma {:induction false} KeptDeliverAll(s: Sys, g: Guid)
    requires Inv(s) && g in s.peers
    ensures Inv(DeliverAll(s, g, {})) && Kept(s, DeliverAll(s, g, {}), g)
    decreases |s.peers[g].link|
  {
    hide Inv;
    if s.peers[g].link != [] {
      KeptStep(s, Deliver(g, {}, false), g);
      KeptDeliverAll(Apply(s, Deliver(g, {}, false)), g);
    }
  }

  lemma KeptRound(s: Sys, g: Guid, taken: set<int>)
    requires Inv(s) && g in s.peers && s.peers[g].reader.Some?
    ensures Inv(Round(s, g, taken)) && Kept(s, Round(s, g, taken), g)
  {
    hide Inv, Apply, DeliverAll;
    TimerKeepsPeer(s, g);
    KeptStep(s, Step.HeartbeatTimer(false, []), g);
    var s1 := Apply(s, Step.HeartbeatTimer(false, []));
    if s1.peers[g].link != [] {
      DeliverKeepsPeer(s1, g, taken);
      KeptStep(s1, Deliver(g, taken, false), g);
      var s2 := Apply(s1, Deliver(g, taken, false));
      var ack := AckArrives(g, Answer(s2.peers[g]), []);
      KeptStep(s2, ack, g);
      KeptDeliverAll(Apply(s2, ack), g);
    }
  }

  // ---- the theorem ----

  /** Reader `g` is the only one, matched on both sides; its link is empty and every
      write has been handed to the proxies. */
  ghost predicate Calm(s: Sys, g: Guid) {
    && g in s.peers && OnlyReader(s.w, g) && s.peers[g].reader.Some? && s.peers[g].link == []
    && s.w.hc.unprocessed == {}
  }

  lemma CalmIsReady(s: Sys, steps: seq<Step>, g: Guid)
    requires Start(s) && Calm(Run(s, steps), g)
    ensures Ready(Run(s, steps), g)
  {
    NoneRequestedRun(s, steps);
  }

  /** One round after the other. */
  ghost function Rounds(s: Sys, g: Guid, takens: seq<set<int>>): Sys
    decreases |takens|
  {
    if takens == [] || g !in s.peers || s.peers[g].reader.None? then s
    else Rounds(Round(s, g, takens[0]), g, takens[1..])
  }

  lemma AckedCleared(w: Writer)
    ensures AllAcked(w.(out := [], script := [])) <==> AllAcked(w)
  {
  }

  lemma ReadyCleared(s: Sys, g: Guid)
    requires Ready(s, g)
    ensures Ready(s.(w := s.w.(out := [], script := [])), g)
  {
  }

  lemma {:induction false} SilentRounds(s: Sys, g: Guid, takens: seq<set<int>>)
    requires Ready(s, g) && AllAcked(s.w)
    ensures var r := Rounds(s, g, takens);
      AllAcked(r.w) && r.w.hc == s.w.hc && r.w.cfg == s.w.cfg && r.w.processed == s.w.processed
    decreases |takens|
  {
    if takens != [] {
      SilentRound(s, g, takens[0]);
      AckedCleared(s.w);
      ReadyCleared(s, g);
      SilentRounds(Round(s, g, takens[0]), g, takens[1..]);
    }
  }

  lemma {:induction false} KeptRounds(s: Sys, g: Guid, takens: seq<set<int>>)
    requires Inv(s) && g in s.peers
    ensures Inv(Rounds(s, g, takens)) && Kept(s, Rounds(s, g, takens), g)
    decreases |takens|
  {
    hide Inv, Round;
    if takens != [] && s.peers[g].reader.Some? {
      KeptRound(s, g, takens[0]);
      KeptRounds(Round(s, g, takens[0]), g, takens[1..]);
    }
  }

  /** A payload that cannot arrive is never acknowledged, however many rounds follow. */
  lemma HopelessStays(s: Sys, g: Guid, takens: seq<set<int>>, n: int)
    requires Inv(s) && g in s.peers && s.w.hc.unprocessed == {} && Hopeless(s.w, g, n)
    ensures !AllAcked(Rounds(s, g, takens).w)
  {
    hide Rounds;
    KeptRounds(s, g, takens);
    OwedIsRelevant(s, g, n);
    InvBlocks(Rounds(s, g, takens), g, n, n);
  }

  lemma OwedIsRelevant(s: Sys, g: Guid, n: int)
    requires Inv(s) && g in s.peers && s.w.hc.unprocessed == {} && n in s.w.hc.changes
    requires g in s.w.proxies && n in s.w.proxies[g].state && s.w.proxies[g].state[n].relevant
    ensures n in s.peers[g].rel && 1 <= n <= s.w.processed && n <= |s.w.hc.written|
    ensures s.w.hc.changes[n] == s.w.hc.written[n - 1]
  {
    assert ProxyOk(s.w, s.peers[g], s.w.proxies[g]);
    assert EntryOk(s.w, s.peers[g], n, s.w.proxies[g].state[n]);
  }

  /** In one round everything arrives that is owed and can. */
  lemma ArrivesInRound(s: Sys, g: Guid, taken: set<int>, n: int)
    requires Ready(s, g) && !AllAcked(s.w) && AckFits(s, g, taken) && n in s.w.hc.changes
    requires n in s.w.proxies[g].state && s.w.proxies[g].state[n].relevant && Deliverable(s.w.hc.changes[n])
    ensures var r := Round(s, g, taken); g in r.peers && n in r.peers[g].got
  {
    hide Round, Trimmed, NoneRequested, AllAcked, AckValid;
    var r, t := Round(s, g, taken), Trimmed(s.w);
    KeptRound(s, g, taken);
    OwedIsRelevant(s, g, n);
    RoundReady(s, g, taken);
    TrimmedRest(s.w);
    TrimmedShape(s.w);
    GotOrCached(r, g, n);
    if n in r.w.hc.changes {
      InTrimmed(t, n);
      assert t.hc.changes[n] == s.w.hc.changes[n];
      GotIfNotMissing(r, g, n);
    }
  }

  lemma GotOrCached(r: Sys, g: Guid, n: int)
    requires Inv(r) && g in r.peers && g in r.w.proxies && n in r.peers[g].rel && n <= r.w.processed
    ensures n in r.peers[g].got || n in r.w.hc.changes
  {
    assert ProxyOk(r.w, r.peers[g], r.w.proxies[g]);
  }

  lemma GotIfNotMissing(r: Sys, g: Guid, n: int)
    requires Inv(r) && g in r.peers && r.peers[g].reader.Some? && n in r.peers[g].rel
    requires n in r.peers[g].reader.value && !R.IsMissing(r.peers[g].reader.value, n)
    ensures n in r.peers[g].got
  {
    assert ReaderOk(r.peers[g]);
  }

  lemma {:induction false} UnfitRounds(s: Sys, g: Guid, takens: seq<set<int>>)
    requires Ready(s, g) && !AllAcked(s.w) && !AckFits(s, g, {})
    ensures var r := Rounds(s, g, takens);
      !AllAcked(r.w) && g in r.peers && r.peers[g].got == s.peers[g].got
    decreases |takens|
  {
    hide Inv, Round, RoundAck, Trimmed, AllAcked, NoneRequested, AckValid, HeartbeatHeard, OnlyReader;
    if takens != [] {
      AckIgnoresTaken(s, g, takens[0]);
      UnfitRound(s, g, takens[0]);
      UnfitAgain(s, g, takens[0], {});
      UnfitRounds(Round(s, g, takens[0]), g, takens[1..]);
    }
  }

  /** The answer of a round, as far as it arrives, acknowledges all that is left. */
  ghost predicate Finishes(s: Sys, g: Guid)
    requires g in s.peers && s.peers[g].reader.Some?
  {
    var t, a := Trimmed(s.w), RoundAck(s, g, {});
    g in t.proxies && forall n :: n in t.hc.changes && n in t.proxies[g].state ==> AckedThereby(t.proxies[g].state[n], n, a)
  }

  predicate AckedThereby(e: ChangeForReader, n: int, a: Ack) {
    e.relevant ==> n !in a.req && (n < a.base || e.status == Acknowledged)
  }

  lemma AckedAtEnd(t: Writer, g: Guid, a: Ack, n: int)
    requires Resting(t, g) && n in t.hc.changes && n in t.proxies[g].state
    ensures var h := HandleAckNack(t, g, a.base, a.req);
      (n in h.hc.changes ==> AckedByAll(h, n)) <==> AckedThereby(t.proxies[g].state[n], n, a)
  {
    AnsweredIs(t, g, a.base, a.req);
    ForgottenAfter(t, g, a, n);
    AckedByOne(Answered(t, g, a.base, a.req), g, n);
    StateAfterEntry(t.proxies[g].state, a.base, a.req, n);
  }

  lemma FinishesExactly(s: Sys, g: Guid, taken: set<int>)
    requires Ready(s, g) && !AllAcked(s.w) && AckFits(s, g, taken)
    ensures AllAcked(Round(s, g, taken).w) <==> Finishes(s, g)
  {
    AckIgnoresTaken(s, g, taken);
    RoundReady(s, g, taken);
    RoundDone(s, g, taken);
    TrimmedRests(s, g);
    TrimmedAgrees(s, g);
    var t, a, r := Trimmed(s.w), RoundAck(s, g, {}), Round(s, g, taken).w;
    forall n | n in t.hc.changes
      ensures n in t.proxies[g].state
      ensures (n in r.hc.changes ==> AckedByAll(r, n)) <==> AckedThereby(t.proxies[g].state[n], n, a)
    {
      RegisteredIn(t, g, n);
      AckedAtEnd(t, g, a, n);
      AckedStill(RoundWriter(s, g, taken), n);
    }
  }

  /** A TransientLocal writer falls silent one change too early: the first answer
      acknowledges all that is left, but the change just below its base stays. It would go
      when the answer to the heartbeat that replaces the base arrived. */
  ghost predicate LeavesOne(s: Sys, g: Guid)
    requires g in s.peers && s.peers[g].reader.Some?
  {
    var base := RoundAck(s, g, {}).base;
    s.w.cfg.durability == TransientLocal && Finishes(s, g) && base <= s.w.processed && base - 1 in Trimmed(s.w).hc.changes
  }

  lemma OneRoundEnds(s: Sys, g: Guid, taken: set<int>)
    requires Ready(s, g) && !AllAcked(s.w) && AckFits(s, g, taken) && AllAcked(Round(s, g, taken).w)
    ensures OnlyNewest(Round(s, g, taken).w) <==> !LeavesOne(s, g)
  {
    hide Inv, Round, Trimmed, RoundAck, Finishes, OnlyNewest, AllAcked;
    FinishesExactly(s, g, taken);
    AckIgnoresTaken(s, g, taken);
    AckBounds(s, g, taken);
    if s.w.cfg.durability == TransientLocal {
      OneRoundLeaves(s, g, taken);
    } else {
      OneRoundSettles(s, g, taken);
    }
  }

  lemma SameContent(w: Writer, r: Writer)
    requires r.hc == w.hc && r.cfg == w.cfg && r.processed == w.processed
    ensures OnlyNewest(r) <==> OnlyNewest(w)
  {
  }

  lemma FitRounds(s: Sys, g: Guid, takens: seq<set<int>>)
    requires Ready(s, g) && !AllAcked(s.w) && AckFits(s, g, {}) && CanCarry(s.w, g) && |takens| >= 2
    ensures AllAcked(Rounds(s, g, takens).w) && (OnlyNewest(Rounds(s, g, takens).w) <==> !LeavesOne(s, g))
  {
    hide Inv, Round, RoundAck, Finishes, OnlyNewest, AllAcked, NoneRequested;
    AckIgnoresTaken(s, g, takens[0]);
    RoundReady(s, g, takens[0]);
    FinishesExactly(s, g, takens[0]);
    var s1 := Round(s, g, takens[0]);
    if AllAcked(s1.w) {
      OneRoundEnds(s, g, takens[0]);
      SilentRounds(s1, g, takens[1..]);
      SameContent(s1.w, Rounds(s1, g, takens[1..]).w);
    } else {
      SecondRound(s, g, takens[0], takens[1]);
      var s2 := Round(s1, g, takens[1]);
      SilentRounds(s2, g, takens[1..][1..]);
      SameContent(s2.w, Rounds(s2, g, takens[1..][1..]).w);
    }
  }

  /** What was cached, owed and able to arrive has been got. */
  ghost predicate AllArrived(s: Sys, r: Sys, g: Guid)
    requires g in r.peers
  {
    forall n :: n in s.w.hc.changes && n !in r.peers[g].got ==> !OwedAndFit(s.w, g, n)
  }

  predicate OwedAndFit(w: Writer, g: Guid, n: int)
    requires n in w.hc.changes
  {
    && Deliverable(w.hc.changes[n])
    && g in w.proxies && n in w.proxies[g].state && w.proxies[g].state[n].relevant
  }

  lemma FitArrives(s: Sys, g: Guid, takens: seq<set<int>>)
    requires Ready(s, g) && !AllAcked(s.w) && AckFits(s, g, {}) && takens != []
    ensures var r := Rounds(s, g, takens); g in r.peers && AllArrived(s, r, g)
  {
    hide Round, AckFits, AllAcked, NoneRequested, Inv;
    var s1 := Round(s, g, takens[0]);
    AckFitsIgnoresTaken(s, g, takens[0]);
    assert Inv(s);
    KeptRound(s, g, takens[0]);
    KeptRounds(s1, g, takens[1..]);
    forall n | n in s.w.hc.changes && OwedAndFit(s.w, g, n)
      ensures n in s1.peers[g].got
    {
      ArrivesInRound(s, g, takens[0], n);
    }
  }

  lemma AckFitsIgnoresTaken(s: Sys, g: Guid, taken: set<int>)
    requires Ready(s, g) && !AllAcked(s.w)
    ensures AckFits(s, g, taken) <==> AckFits(s, g, {})
  {
    AckIgnoresTaken(s, g, taken);
  }

  /** Converges, without the run that leads to the state. */
  lemma ConvergesFrom(s: Sys, g: Guid, takens: seq<set<int>>)
    requires Ready(s, g) && |takens| >= 2
    ensures var r := Rounds(s, g, takens);
      && g in r.peers
      && (AllAcked(r.w) <==> AllAcked(s.w) || (AckFits(s, g, {}) && CanCarry(s.w, g)))
      && (AllAcked(r.w) ==> Apply(r, Step.HeartbeatTimer(false, [])).peers == r.peers)
      && (AllAcked(s.w) ==> r.w.hc == s.w.hc)
      && (!AllAcked(s.w) && !AckFits(s, g, {}) ==> r.peers[g].got == s.peers[g].got)
      && (!AllAcked(s.w) && AckFits(s, g, {}) ==> AllArrived(s, r, g))
      && (!AllAcked(s.w) && AllAcked(r.w) ==> (OnlyNewest(r.w) <==> !LeavesOne(s, g)))
  {
    hide Rounds, Apply, AckFits, AllAcked, AllArrived, LeavesOne, NoneRequested, OnlyNewest, Hopeless;
    assert Inv(s);
    hide Inv;
    KeptRounds(s, g, takens);
    if AllAcked(s.w) {
      SilentRounds(s, g, takens);
    } else if !AckFits(s, g, {}) {
      UnfitRounds(s, g, takens);
    } else {
      FitArrives(s, g, takens);
      if CanCarry(s.w, g) {
        FitRounds(s, g, takens);
      } else {
        var n :| n in s.w.hc.changes && Hopeless(s.w, g, n);
        HopelessStays(s, g, takens, n);
      }
    }
    if AllAcked(Rounds(s, g, takens).w) {
      Silent(Rounds(s, g, takens));
    }
  }

  /** Repair converges, exactly when the answer's bitmap can span what is missing and all
      that is owed can arrive. Take any reachable state in which `g` is the only reader, let
      nothing new be written, and let two or more rounds pass. Then every cached change is
      acknowledged, and the timer puts nothing on any link any more, if and only if that was
      so from the start, or the answer fits and every change owed can arrive. If the answer
      fits, whatever is owed and can arrive does; otherwise nothing arrives, however many
      rounds follow. If there was anything to repair and all of it was, the cache is left
      with nothing (Volatile) or just the newest change (TransientLocal), but for the one
      case of LeavesOne. */
  lemma Converges(s: Sys, steps: seq<Step>, g: Guid, takens: seq<set<int>>)
    requires Start(s) && Calm(Run(s, steps), g) && |takens| >= 2
    ensures var s0 := Run(s, steps);
      var r := Rounds(s0, g, takens);
      && g in r.peers
      && (AllAcked(r.w) <==> AllAcked(s0.w) || (AckFits(s0, g, {}) && CanCarry(s0.w, g)))
      && (AllAcked(r.w) ==> Apply(r, Step.HeartbeatTimer(false, [])).peers == r.peers)
      && (AllAcked(s0.w) ==> r.w.hc == s0.w.hc)
      && (!AllAcked(s0.w) && !AckFits(s0, g, {}) ==> r.peers[g].got == s0.peers[g].got)
      && (!AllAcked(s0.w) && AckFits(s0, g, {}) ==> AllArrived(s0, r, g))
      && (!AllAcked(s0.w) && AllAcked(r.w) ==> (OnlyNewest(r.w) <==> !LeavesOne(s0, g)))
  {
    hide Run, Rounds, Apply, Inv, AckFits, AllAcked, CanCarry, AllArrived, LeavesOne, NoneRequested;
    CalmIsReady(s, steps, g);
    ConvergesFrom(Run(s, steps), g, takens);
  }

  // ---- a condition the writer can check ----

  /** All that is not acknowledged lies within 255 numbers of the newest change. */
  ghost predicate Narrow(w: Writer) {
    forall n :: n in w.hc.changes && !AckedByAll(w, n) ==> w.processed - n < 255
  }

  lemma LeftIsNarrow(w: Writer)
    requires Numbered(w) && w.hc.unprocessed == {} && Narrow(w) && !AllAcked(w) && Retained(w)
    ensures w.processed - MinSettled(Trimmed(w)) < 255
  {
    UnackedSurvives(w);
    TrimmedShape(w);
    var t := Trimmed(w);
    AllSettled(t);
    AllSettled(w);
    var n := MinSettled(t);
    assert n in t.hc.changes && n in w.hc.changes;
    TrimmedLeft(w, n);
    if AckedByAll(w, n) {
      assert n == MaxSettled(w);
      assert w.processed in w.hc.changes;
    }
  }

  /** Then the answer fits, whatever the reader misses. */
  lemma NarrowFits(s: Sys, g: Guid)
    requires Ready(s, g) && !AllAcked(s.w) && Narrow(s.w)
    ensures AckFits(s, g, {})
  {
    AckBounds(s, g, {});
    LeftIsNarrow(s.w);
  }

  lemma MaxIs(s: set<int>, m: int)
    requires m in s && forall n :: n in s ==> n <= m
    ensures Max(s) == m
  {
  }
}
