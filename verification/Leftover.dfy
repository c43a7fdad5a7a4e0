/** The one case in which the rounds of module Convergence leave a TransientLocal writer
    with a change too many, reached by a run: an old ACKNACK asks for 1 again when all of
    1, 2 and 3 have been acknowledged, while a second reader holds them in the cache. */
module Leftovers {
  import opened Types
  import opened Ascending
  import opened ReaderProxies
  import opened WriterModel
  import opened WriterInvariants
  import opened Delivery
  import opened Convergence
  import opened Openings
  import R = WriterProxies

  const HERE: Guid := 0
  const OTHER: Guid := ENTITY_SPAN   // a reader of another participant

  function Near(): Locator {
    Locator(1, 7400, [])
  }

  function Far(): Locator {
    Locator(1, 7401, [])
  }

  const SOME: Payload := [0, 1, 0, 0, 7]   // the header of a CDR payload and one octet
  const THREE: seq<Payload> := [SOME, SOME, SOME]

  function PairStart(): Sys {
    Sys(Initial(Settings(TransientLocal)),
        map[HERE := NewPeer(TransientLocal, Near()), OTHER := NewPeer(TransientLocal, Far())])
  }

  // the ACKNACKs of the run
  const ALL_MISSING := Ack(1, {1, 2, 3})
  const ONE_MISSING := Ack(1, {1})
  const NONE_MISSING := Ack(4, {})

  /** Both readers are matched, 1, 2 and 3 are sent, and HERE misses 1. */
  function Sending(): seq<Step> {
    [WriterFinds(HERE, true, []), WriterFinds(OTHER, true, []), ReaderFinds(HERE), Step.WriteCommand([THREE]),
     Lose(HERE), Deliver(HERE, {}, false), Deliver(HERE, {}, false)]
  }

  /** It asks for 1 and gets it. */
  function Asking(): seq<Step> {
    [Step.HeartbeatTimer(false, []), Deliver(HERE, {}, false), AckArrives(HERE, ONE_MISSING, []), Deliver(HERE, {}, false)]
  }

  /** It acknowledges all; then it finds the writer anew, hears the same heartbeat again
      and asks for everything. */
  function StartingOver(): seq<Step> {
    [Step.HeartbeatTimer(false, []), Deliver(HERE, {}, true), ReaderFinds(HERE), Deliver(HERE, {}, false)]
  }

  /** The writer takes the ACKNACKs in another order and forgets the other reader. */
  function Reordered(): seq<Step> {
    [AckArrives(HERE, ALL_MISSING, []), AckArrives(HERE, NONE_MISSING, []), AckArrives(HERE, ONE_MISSING, []),
     WriterForgets(PrefixOf(OTHER))]
  }

  /** Of what is under way HERE gets 1 and 3. */
  function Receiving(): seq<Step> {
    [Deliver(HERE, {}, false), Lose(HERE), Deliver(HERE, {}, false), Deliver(HERE, {}, false)]
  }

  function Schedule(): seq<Step> {
    Sending() + (Asking() + (StartingOver() + (Reordered() + Receiving())))
  }

  // ---- the states of the run ----

  /** HERE has acknowledged just these; the rest of 1, 2 and 3 is on its way. */
  function Acked(acked: set<int>): CacheState {
    map n | n in UpTo(3) :: ChangeForReader(if n in acked then Acknowledged else Underway, true)
  }

  function Proxies(acked: set<int>, both: bool): map<Guid, Proxy> {
    var near := map[HERE := Proxy(Locators([Near()], [], [], []), TransientLocal, Acked(acked))];
    if both then near[OTHER := Proxy(Locators([Far()], [], [], []), TransientLocal, Acked({}))] else near
  }

  function WriterAt(acked: set<int>, both: bool): Writer {
    Initial(Settings(TransientLocal)).(
      hc := Cache(Changes(THREE), {}, 3, THREE), processed := 3, proxies := Proxies(acked, both))
  }

  /** What HERE knows: these have been received, and if `told` the others are missing. */
  function Known(received: set<int>, told: bool): R.CacheState {
    map n | n in UpTo(3) && (told || n in received) ::
      R.ChangeFromWriter(if n in received then R.Received else R.Missing, true)
  }

  ghost predicate Carries(link: seq<Item>, msgs: seq<Msg>) {
    |link| == |msgs| && forall i :: 0 <= i < |msgs| ==> link[i].msg == msgs[i]
  }

  ghost predicate At(s: Sys, acked: set<int>, both: bool, msgs: seq<Msg>, received: set<int>, told: bool, acks: set<Ack>) {
    && s.w == WriterAt(acked, both) && HERE in s.peers
    && s.peers[HERE].reader == Some(Known(received, told))
    && Carries(s.peers[HERE].link, msgs) && acks <= s.peers[HERE].acks
  }

  function D(n: int): Msg {
    Data(n, SOME)
  }

  const BEAT := Heartbeat(1, 3, false)

  // ---- the reader's steps ----

  lemma Head(link: seq<Item>, msg: Msg, msgs: seq<Msg>)
    requires Carries(link, [msg] + msgs)
    ensures link != [] && link[0].msg == msg && Carries(link[1..], msgs)
  {
    assert forall i :: 0 <= i < |msgs| ==> ([msg] + msgs)[i + 1] == msgs[i];
  }

  lemma Lost(s: Sys, acked: set<int>, both: bool, msg: Msg, msgs: seq<Msg>, received: set<int>, told: bool, acks: set<Ack>)
    requires At(s, acked, both, [msg] + msgs, received, told, acks)
    ensures At(Apply(s, Lose(HERE)), acked, both, msgs, received, told, acks)
  {
    hide WriterAt, Known;
    Head(s.peers[HERE].link, msg, msgs);
  }

  lemma Learned(received: set<int>, told: bool, n: int)
    requires 1 <= n <= 3
    ensures R.WithReceived(Known(received, told), n) == Known(received + {n}, told)
  {
  }

  lemma Got(s: Sys, acked: set<int>, both: bool, n: int, msgs: seq<Msg>, received: set<int>, told: bool, acks: set<Ack>)
    requires At(s, acked, both, [D(n)] + msgs, received, told, acks) && 1 <= n <= 3
    ensures At(Apply(s, Deliver(HERE, {}, false)), acked, both, msgs, received + {n}, told, acks)
  {
    hide WriterAt, Known;
    Head(s.peers[HERE].link, D(n), msgs);
    Learned(received, told, n);
  }

  lemma Told(received: set<int>, told: bool)
    ensures R.OnHeartbeat(Known(received, told), {}, 1, 3) == Known(received, true)
  {
    forall n
      ensures n in R.Span(1, 3) <==> 1 <= n <= 3
    {
    }
  }

  /** What HERE answers to a heartbeat. */
  ghost function AnswerOf(received: set<int>): Ack {
    Ack(R.AckBase(Known(received, true)), R.MissingSet(Known(received, true)))
  }

  lemma SomeMissing(received: set<int>, n: int)
    requires 1 <= n <= 3 && n !in received && forall m :: 1 <= m < n ==> m in received
    ensures AnswerOf(received) == Ack(n, UpTo(3) - received)
  {
    var cs := Known(received, true);
    var missing := R.MissingSet(cs);
    assert missing == UpTo(3) - received;
    assert n in missing && forall m :: m in missing ==> n <= m;
  }

  lemma NoneMissing(received: set<int>)
    requires UpTo(3) <= received
    ensures AnswerOf(received) == NONE_MISSING
  {
    var cs := Known(received, true);
    assert R.MissingSet(cs) == {};
    assert R.Accounted(cs, 3);
  }

  lemma Heard(s: Sys, acked: set<int>, both: bool, msgs: seq<Msg>, received: set<int>, told: bool, acks: set<Ack>,
              again: bool)
    requires At(s, acked, both, [BEAT] + msgs, received, told, acks)
    ensures At(Apply(s, Deliver(HERE, {}, again)), acked, both, if again then [BEAT] + msgs else msgs, received, true, acks + {AnswerOf(received)})
  {
    hide WriterAt, Known, R.OnHeartbeat, R.MissingSet, R.AckBase;
    Head(s.peers[HERE].link, BEAT, msgs);
    Told(received, told);
  }

  lemma Forgot(s: Sys, acked: set<int>, both: bool, msgs: seq<Msg>, received: set<int>, told: bool, acks: set<Ack>)
    requires At(s, acked, both, msgs, received, told, acks)
    ensures At(Apply(s, ReaderFinds(HERE)), acked, both, msgs, {}, false, acks)
  {
    hide WriterAt;
    assert Known({}, false) == map[];
  }

  // ---- the writer's steps ----

  lemma Unacked(acked: set<int>, n: int)
    ensures n in Changes(THREE) ==> !AckedByAll(WriterAt(acked, true), n)
  {
    var w := WriterAt(acked, true);
    if n in Changes(THREE) {
      assert OTHER in w.proxies && !IsAcked(w.proxies[OTHER].state, n);
    }
  }

  lemma WriterFacts(acked: set<int>, both: bool)
    ensures var w := WriterAt(acked, both);
      && Numbered(w) && Settled(w) == UpTo(3) && MinSettled(w) == 1 && MaxSettled(w) == 3
  {
    var w := WriterAt(acked, both);
    assert Settled(w) == UpTo(3);
  }

  lemma NoneRemovable(acked: set<int>, v: Writer, base: int)
    requires v == WriterAt(acked, true).(out := v.out)
    ensures RemoveAcked(v, base) == v
  {
    hide UpTo, Acked, Changes;
    forall n | n in v.hc.changes
      ensures !AckedByAll(v, n)
    {
      Unacked(acked, n);
    }
    assert Numbered(v) by {
      WriterFacts(acked, true);
    }
    assert Removable(v, base) == {};
    NothingRemovable(v, base);
  }

  lemma Listening(acked: set<int>)
    ensures var w := WriterAt(acked, true); Names(HeartbeatAudience(w, Guids(w)), HERE)
  {
    var w := WriterAt(acked, true);
    assert HERE in Guids(w);
    ListeningIsTarget(w, Guids(w), HERE);
  }

  lemma BeatSent(acked: set<int>)
    ensures var w := WriterAt(acked, true);
      var r := SendHeartbeat(Begin(w, []), false);
      r == w.(out := r.out) && MsgsFor(r.out, HERE) == [BEAT]
  {
    hide WriterAt, RemoveAcked, AckedByAll, HeartbeatAudience, MsgsFor, Names;
    var w := WriterAt(acked, true);
    WriterFacts(acked, true);
    Unacked(acked, 1);
    NotAllAcked(acked);
    AtRest(acked);
    NoneRemovable(acked, w, 3);
    Listening(acked);
    var send := Send(BEAT, HeartbeatAudience(w, Guids(w)));
    assert IsFor(send, HERE) by { NamedIsFor(send, HERE); }
    OneMsg(send, HERE);
    assert Announce(w, false) == w.(out := [send]);
  }

  lemma NamedIsFor(send: Send, g: Guid)
    requires Names(send.to, g)
    ensures IsFor(send, g)
  {
  }

  lemma NotAllAcked(acked: set<int>)
    ensures !AllAcked(WriterAt(acked, true))
  {
    Unacked(acked, 1);
    assert 1 in WriterAt(acked, true).hc.changes;
  }

  lemma AtRest(acked: set<int>)
    ensures var w := WriterAt(acked, true); Begin(w, []) == w && w.script == [] && w.out == []
  {
  }

  lemma Beaten(s: Sys, acked: set<int>, received: set<int>, told: bool, acks: set<Ack>)
    requires At(s, acked, true, [], received, told, acks)
    ensures At(Apply(s, Step.HeartbeatTimer(false, [])), acked, true, [BEAT], received, told, acks)
  {
    hide WriterAt, Known, SendHeartbeat;
    BeatSent(acked);
    AtRest(acked);
  }

  // ---- ACKNACKs ----

  ghost predicate AckedNow(acked: set<int>, a: Ack, now: set<int>) {
    forall n :: 1 <= n <= 3 ==> (n in now <==> n !in a.req && (n < a.base || n in acked))
  }

  ghost function Noted(acked: set<int>, a: Ack): CacheState {
    WithRequested(ReaderProxies.AckedUpTo(Acked(acked), a.base - 1), a.req)
  }

  lemma NotedAt(acked: set<int>, a: Ack, n: int)
    requires a.req <= UpTo(3)
    ensures n in Noted(acked, a) <==> 1 <= n <= 3
    ensures 1 <= n <= 3 ==> Noted(acked, a)[n] == ChangeForReader(
      if n in a.req then Requested else if n < a.base || n in acked then Acknowledged else Underway, true)
  {
  }

  lemma EntriesAfter(acked: set<int>, a: Ack, now: set<int>)
    requires AckedNow(acked, a, now) && a.req <= UpTo(3)
    ensures var noted := Noted(acked, a);
      && Numbers(noted, Requested) == a.req && Drained(noted, Requested) == Acked(now)
      && forall n :: n in noted ==> noted[n].relevant
  {
    hide Noted;
    var noted := Noted(acked, a);
    forall n
      ensures n in noted <==> 1 <= n <= 3
      ensures 1 <= n <= 3 ==> noted[n] == ChangeForReader(
        if n in a.req then Requested else if n < a.base || n in acked then Acknowledged else Underway, true)
    {
      NotedAt(acked, a, n);
    }
    assert Numbers(noted, Requested) == a.req;
    assert Drained(noted, Requested) == Acked(now);
  }

  function Answering(nums: seq<int>): seq<Msg> {
    seq(|nums|, i requires 0 <= i < |nums| => D(nums[i]))
  }

  lemma NotedServable(acked: set<int>, a: Ack, now: set<int>)
    requires AckedNow(acked, a, now)
    requires a.req <= UpTo(3)
    ensures var w1 := NoteAck(WriterAt(acked, true), HERE, a.base, a.req);
      && HERE in w1.proxies && Servable(w1, HERE) && Numbers(w1.proxies[HERE].state, Requested) == a.req
      && w1.proxies[HERE := DrainProxy(w1.proxies[HERE], Requested)] == Proxies(now, true)
      && w1 == WriterAt(acked, true).(proxies := w1.proxies)
  {
    hide UpTo, Acked, WithRequested, ReaderProxies.AckedUpTo, Drained, Numbers;
    EntriesAfter(acked, a, now);
    RequestedCached(Noted(acked, a), a.req);
  }

  lemma RequestedCached(noted: CacheState, req: set<int>)
    requires Numbers(noted, Requested) == req && req <= UpTo(3)
    ensures forall n :: n in Numbers(noted, Requested) ==> n in noted && n in Changes(THREE)
  {
  }

  lemma SameAnswers(w: Writer, nums: seq<int>)
    requires w.hc.changes == Changes(THREE) && Within(nums, w.hc.changes.Keys)
    ensures Repairs(w, nums) == Answering(nums)
  {
  }

  lemma AckTaken(acked: set<int>, a: Ack, now: set<int>, nums: seq<int>)
    requires AckedNow(acked, a, now)
    requires a.req <= UpTo(3) && nums == List(a.req)
    ensures var r := HandleAckNack(WriterAt(acked, true), HERE, a.base, a.req);
      r == WriterAt(now, true).(out := r.out) && MsgsFor(r.out, HERE) == Answering(nums)
  {
    hide AckedNow, UpTo, Acked, Changes, NoteAck, AnswerNack, RemoveAcked, MsgsFor, Servable, Numbers, DrainProxy, Repairs, Answering;
    var w := WriterAt(acked, true);
    var w1 := NoteAck(w, HERE, a.base, a.req);
    NotedServable(acked, a, now);
    AckNackUnfolds(w, HERE, a);
    NackAnswered(w1, HERE);
    NoneRemovable(now, AnswerNack(w1, HERE), a.base - 1);
    SameAnswers(w1, nums);
  }

  lemma MoreCarried(link: seq<Item>, msgs: seq<Msg>, more: seq<Msg>, top: int)
    requires Carries(link, msgs)
    ensures Carries(link + Items(more, top), msgs + more)
  {
  }

  lemma PostedAt(s: Sys, w: Writer, r: Writer, msgs: seq<Msg>, more: seq<Msg>)
    requires HERE in s.peers && Carries(s.peers[HERE].link, msgs) && w.script == [] && w.out == []
    requires r == w.(out := r.out) && MsgsFor(r.out, HERE) == more
    ensures var t := Post(s.(w := r));
      && t.w == w && HERE in t.peers && Carries(t.peers[HERE].link, msgs + more)
      && t.peers[HERE].reader == s.peers[HERE].reader && t.peers[HERE].acks == s.peers[HERE].acks
  {
    hide Carries, MsgsFor;
    MoreCarried(s.peers[HERE].link, msgs, more, w.processed);
    assert msgs + [] == msgs;
  }

  lemma Arrived(s: Sys, acked: set<int>, msgs: seq<Msg>, received: set<int>, told: bool, acks: set<Ack>,
                a: Ack, now: set<int>, nums: seq<int>)
    requires At(s, acked, true, msgs, received, told, acks) && a in acks && AckValid(a)
    requires AckedNow(acked, a, now)
    requires a.req <= UpTo(3) && nums == List(a.req)
    ensures At(Apply(s, AckArrives(HERE, a, [])), now, true, msgs + Answering(nums), received, told, acks)
  {
    hide AckedNow, WriterAt, Known, HandleAckNack, AckValid, Carries, UpTo, Apply, Post, MsgsFor;
    AckTaken(acked, a, now, nums);
    AtRest(acked);
    AtRest(now);
    AckArrivesIs(s, HERE, a);
    PostedAt(s, WriterAt(now, true), HandleAckNack(WriterAt(acked, true), HERE, a.base, a.req), msgs, Answering(nums));
  }

  lemma OtherGone(s: Sys, acked: set<int>, msgs: seq<Msg>, received: set<int>, told: bool, acks: set<Ack>)
    requires At(s, acked, true, msgs, received, told, acks)
    ensures At(Apply(s, WriterForgets(PrefixOf(OTHER))), acked, false, msgs, received, told, acks)
  {
    hide Known, Carries, Acked;
    assert PrefixOf(OTHER) == 1 && PrefixOf(HERE) == 0;
    assert RemoveReaders(WriterAt(acked, true), 1).proxies == Proxies(acked, false);
  }

  // ---- the run ----

  function Matched(): Sys {
    Sys(Initial(Settings(TransientLocal)).(
          proxies := map[HERE := Proxy(Locators([Near()], [], [], []), TransientLocal, map[]),
                         OTHER := Proxy(Locators([Far()], [], [], []), TransientLocal, map[])]),
        map[HERE := NewPeer(TransientLocal, Near()).(reader := Some(map[])), OTHER := NewPeer(TransientLocal, Far())])
  }

  lemma Matching()
    ensures Start(PairStart())
    ensures Apply(Apply(Apply(PairStart(), WriterFinds(HERE, true, [])), WriterFinds(OTHER, true, [])), ReaderFinds(HERE))
         == Matched()
  {
    var s := PairStart();
    MatchedEarly(s, HERE);
    var s1 := Sys(s.w.(proxies := map[HERE := Proxy(Locators([Near()], [], [], []), TransientLocal, map[])]), s.peers);
    assert Apply(s, WriterFinds(HERE, true, [])) == s1;
    MatchedEarly(s1, OTHER);
  }

  lemma AllUnderWay()
    ensures Acked({}) == Entries(3, Underway) && Known({}, false) == map[]
    ensures Datas(THREE) == [D(1), D(2), D(3)]
  {
  }

  lemma Writing()
    ensures At(Apply(Matched(), Step.WriteCommand([THREE])), {}, true, [D(1), D(2), D(3)], {}, false, {})
  {
    hide UpTo, Changes, Apply, Acked, Known, Entries, Carries, Datas, Items;
    var s := Matched();
    assert Unwritten(s.w);
    SentInRun(s, THREE);
    AllUnderWay();
    assert Written(s.w, THREE).proxies == Proxies({}, true);
    NothingCarried();
    MoreCarried([], [], Datas(THREE), 3);
    assert [] + Datas(THREE) == Datas(THREE);
  }

  lemma NothingCarried()
    ensures Carries([], [])
  {
  }

  lemma FirstPart()
    ensures At(Run(PairStart(), Sending()), {}, true, [], {2, 3}, false, {})
  {
    hide Apply, Run, At;
    var steps, s := Sending(), PairStart();
    RunAt(s, steps, 0);
    var s1 := Apply(s, steps[0]);
    RunAt(s1, steps, 1);
    var s2 := Apply(s1, steps[1]);
    RunAt(s2, steps, 2);
    Matching();
    var s3 := Apply(s2, steps[2]);
    RunAt(s3, steps, 3);
    Writing();
    var s4 := Apply(s3, steps[3]);
    RunAt(s4, steps, 4);
    assert [D(1), D(2), D(3)] == [D(1)] + [D(2), D(3)];
    Lost(s4, {}, true, D(1), [D(2), D(3)], {}, false, {});
    var s5 := Apply(s4, steps[4]);
    RunAt(s5, steps, 5);
    assert [D(2), D(3)] == [D(2)] + [D(3)];
    Got(s5, {}, true, 2, [D(3)], {}, false, {});
    var s6 := Apply(s5, steps[5]);
    RunAt(s6, steps, 6);
    assert [D(3)] == [D(3)] + [] && {} + {2} == {2} && {2} + {3} == {2, 3};
    Got(s6, {}, true, 3, [], {2}, false, {});
    RunOver(Apply(s6, steps[6]), steps);
  }

  lemma RunOver(s: Sys, steps: seq<Step>)
    ensures Run(s, steps[|steps|..]) == s
  {
  }

  /** The answers that HERE gives in the course of the run, and the last one. */
  lemma Answers()
    ensures AnswerOf({2, 3}) == ONE_MISSING && AnswerOf({1, 2, 3}) == NONE_MISSING && AnswerOf({}) == ALL_MISSING
    ensures AnswerOf({1, 3}) == Ack(2, {2})
  {
    hide AnswerOf;
    SomeMissing({2, 3}, 1);
    NoneMissing({1, 2, 3});
    SomeMissing({}, 1);
    SomeMissing({1, 3}, 2);
    assert UpTo(3) - {2, 3} == {1} && UpTo(3) - {} == {1, 2, 3} && UpTo(3) - {1, 3} == {2};
  }

  lemma AllThree()
    ensures {1, 2, 3} == UpTo(3)
  {
  }

  lemma AllListed()
    ensures List({1, 2, 3}) == [1, 2, 3]
  {
    hide UpTo;
    AllThree();
    ListUpTo({1, 2, 3}, 3);
    assert OneTo(3) == [1, 2, 3];
  }

  lemma AllFits(acked: set<int>)
    ensures AckValid(ALL_MISSING) && AckedNow(acked, ALL_MISSING, {})
  {
    MaxIs({1, 2, 3}, 3);
  }

  lemma AllAsked(s: Sys, acked: set<int>, msgs: seq<Msg>, received: set<int>, told: bool, acks: set<Ack>)
    requires At(s, acked, true, msgs, received, told, acks) && ALL_MISSING in acks
    ensures At(Apply(s, AckArrives(HERE, ALL_MISSING, [])), {}, true, msgs + [D(1), D(2), D(3)], received, told, acks)
  {
    hide At, Apply, AckValid, AckedNow, UpTo;
    AllThree();
    AllListed();
    AllFits(acked);
    Arrived(s, acked, msgs, received, told, acks, ALL_MISSING, {}, [1, 2, 3]);
    assert Answering([1, 2, 3]) == [D(1), D(2), D(3)];
  }

  lemma NoneAsked(s: Sys, acked: set<int>, msgs: seq<Msg>, received: set<int>, told: bool, acks: set<Ack>)
    requires At(s, acked, true, msgs, received, told, acks) && NONE_MISSING in acks
    ensures At(Apply(s, AckArrives(HERE, NONE_MISSING, [])), {1, 2, 3}, true, msgs, received, told, acks)
  {
    hide At, Apply;
    assert List({}) == [];
    Arrived(s, acked, msgs, received, told, acks, NONE_MISSING, {1, 2, 3}, []);
    assert msgs + Answering([]) == msgs;
  }

  lemma OneAsked(s: Sys, acked: set<int>, msgs: seq<Msg>, received: set<int>, told: bool, acks: set<Ack>)
    requires At(s, acked, true, msgs, received, told, acks) && ONE_MISSING in acks
    ensures At(Apply(s, AckArrives(HERE, ONE_MISSING, [])), acked - {1}, true, msgs + [D(1)], received, told, acks)
  {
    hide At, Apply;
    MaxIs({1}, 1);
    AscendingUnique(List({1}), [1]);
    Arrived(s, acked, msgs, received, told, acks, ONE_MISSING, acked - {1}, [1]);
    assert Answering([1]) == [D(1)];
  }

  const ANSWERS: set<Ack> := {ONE_MISSING, NONE_MISSING, ALL_MISSING}

  lemma SecondPart(s: Sys)
    requires At(s, {}, true, [], {2, 3}, false, {})
    ensures At(Run(s, Asking()), {}, true, [], {1, 2, 3}, true, {ONE_MISSING})
  {
    hide Apply, Run, At, AnswerOf;
    Answers();
    var steps, acks := Asking(), {ONE_MISSING};
    assert [BEAT] == [BEAT] + [] && [D(1)] == [D(1)] + [] && {2, 3} + {1} == {1, 2, 3};
    assert {} + {ONE_MISSING} == acks;
    RunAt(s, steps, 0);
    Beaten(s, {}, {2, 3}, false, {});
    var s1 := Apply(s, steps[0]);
    RunAt(s1, steps, 1);
    Heard(s1, {}, true, [], {2, 3}, false, {}, false);
    var s2 := Apply(s1, steps[1]);
    RunAt(s2, steps, 2);
    assert [] + [D(1)] == [D(1)] && {} - {1} == {};
    OneAsked(s2, {}, [], {2, 3}, true, acks);
    var s3 := Apply(s2, steps[2]);
    RunAt(s3, steps, 3);
    Got(s3, {}, true, 1, [], {2, 3}, true, acks);
    RunOver(Apply(s3, steps[3]), steps);
  }

  lemma ThirdPart(s: Sys)
    requires At(s, {}, true, [], {1, 2, 3}, true, {ONE_MISSING})
    ensures At(Run(s, StartingOver()), {}, true, [], {}, true, ANSWERS)
  {
    hide Apply, Run, At, AnswerOf;
    Answers();
    var steps, a1, a2 := StartingOver(), {ONE_MISSING}, {ONE_MISSING, NONE_MISSING};
    assert [BEAT] == [BEAT] + [];
    assert a1 + {NONE_MISSING} == a2 && a2 + {ALL_MISSING} == ANSWERS;
    RunAt(s, steps, 0);
    Beaten(s, {}, {1, 2, 3}, true, a1);
    var s1 := Apply(s, steps[0]);
    RunAt(s1, steps, 1);
    Heard(s1, {}, true, [], {1, 2, 3}, true, a1, true);
    var s2 := Apply(s1, steps[1]);
    RunAt(s2, steps, 2);
    Forgot(s2, {}, true, [BEAT] + [], {1, 2, 3}, true, a2);
    var s3 := Apply(s2, steps[2]);
    RunAt(s3, steps, 3);
    Heard(s3, {}, true, [], {}, false, a2, false);
    RunOver(Apply(s3, steps[3]), steps);
  }

  function UnderWay(): seq<Msg> {
    [D(1), D(2), D(3), D(1)]
  }

  lemma FourthPart(s: Sys)
    requires At(s, {}, true, [], {}, true, ANSWERS)
    ensures At(Run(s, Reordered()), {2, 3}, false, UnderWay(), {}, true, ANSWERS)
  {
    hide Apply, Run, At;
    var steps, all := Reordered(), [D(1), D(2), D(3)];
    assert [] + all == all && all + [D(1)] == UnderWay() && {1, 2, 3} - {1} == {2, 3};
    RunAt(s, steps, 0);
    AllAsked(s, {}, [], {}, true, ANSWERS);
    var s1 := Apply(s, steps[0]);
    RunAt(s1, steps, 1);
    NoneAsked(s1, {}, all, {}, true, ANSWERS);
    var s2 := Apply(s1, steps[1]);
    RunAt(s2, steps, 2);
    OneAsked(s2, {1, 2, 3}, all, {}, true, ANSWERS);
    var s3 := Apply(s2, steps[2]);
    RunAt(s3, steps, 3);
    OtherGone(s3, {2, 3}, UnderWay(), {}, true, ANSWERS);
    RunOver(Apply(s3, steps[3]), steps);
  }

  lemma FifthPart(s: Sys)
    requires At(s, {2, 3}, false, UnderWay(), {}, true, ANSWERS)
    ensures At(Run(s, Receiving()), {2, 3}, false, [], {1, 3}, true, ANSWERS)
  {
    hide Apply, Run, At;
    var steps := Receiving();
    assert UnderWay() == [D(1)] + [D(2), D(3), D(1)];
    assert [D(2), D(3), D(1)] == [D(2)] + [D(3), D(1)] && [D(3), D(1)] == [D(3)] + [D(1)] && [D(1)] == [D(1)] + [];
    assert {} + {1} == {1} && {1} + {3} == {1, 3} && {1, 3} + {1} == {1, 3};
    RunAt(s, steps, 0);
    Got(s, {2, 3}, false, 1, [D(2), D(3), D(1)], {}, true, ANSWERS);
    var s1 := Apply(s, steps[0]);
    RunAt(s1, steps, 1);
    Lost(s1, {2, 3}, false, D(2), [D(3), D(1)], {1}, true, ANSWERS);
    var s2 := Apply(s1, steps[1]);
    RunAt(s2, steps, 2);
    Got(s2, {2, 3}, false, 3, [D(1)], {1}, true, ANSWERS);
    var s3 := Apply(s2, steps[2]);
    RunAt(s3, steps, 3);
    Got(s3, {2, 3}, false, 1, [], {1, 3}, true, ANSWERS);
    RunOver(Apply(s3, steps[3]), steps);
  }

  lemma ScheduleEnds()
    ensures Start(PairStart())
    ensures At(Run(PairStart(), Schedule()), {2, 3}, false, [], {1, 3}, true, ANSWERS)
  {
    hide Run, Apply, At;
    Matching();
    FirstPart();
    var s1 := Run(PairStart(), Sending());
    var s2 := Run(s1, Asking());
    var s3 := Run(s2, StartingOver());
    RunOn(PairStart(), Sending(), Asking() + (StartingOver() + (Reordered() + Receiving())));
    RunOn(s1, Asking(), StartingOver() + (Reordered() + Receiving()));
    RunOn(s2, StartingOver(), Reordered() + Receiving());
    RunOn(s3, Reordered(), Receiving());
    SecondPart(s1);
    ThirdPart(s2);
    FourthPart(s3);
    FifthPart(Run(s3, Reordered()));
  }

  // ---- what is left ----

  lemma EndAcked()
    ensures var w := WriterAt({2, 3}, false);
      && OnlyReader(w, HERE) && !AckedByAll(w, 1) && AckedByAll(w, 2) && AckedByAll(w, 3) && !AllAcked(w)
  {
    var w := WriterAt({2, 3}, false);
    AckedByOne(w, HERE, 1);
    AckedByOne(w, HERE, 2);
    AckedByOne(w, HERE, 3);
    assert 1 in w.hc.changes;
  }

  lemma EndTrimmed()
    ensures var t := Trimmed(WriterAt({2, 3}, false));
      && t.hc.changes.Keys == {1, 3} && MinSettled(t) == 1 && MaxSettled(t) == 3
  {
    hide Trimmed, AckedByAll, WriterAt, Changes;
    var w := WriterAt({2, 3}, false);
    var t := Trimmed(w);
    EndAcked();
    WriterFacts({2, 3}, false);
    EndCached();
    TrimmedShape(w);
    AllSettled(t);
    TrimmedLeft(w, 1);
    TrimmedLeft(w, 2);
    TrimmedLeft(w, 3);
    MaxIs(Settled(t), 3);
  }

  lemma EndCached()
    ensures var w := WriterAt({2, 3}, false);
      w.hc.changes.Keys == {1, 2, 3} && w.hc.unprocessed == {} && w.cfg.durability == TransientLocal
  {
  }

  lemma EndAnswer(s: Sys)
    requires At(s, {2, 3}, false, [], {1, 3}, true, ANSWERS)
    ensures RoundAck(s, HERE, {}) == Ack(2, {2})
  {
    hide Trimmed, Known, R.OnHeartbeat;
    EndTrimmed();
    Told({1, 3}, true);
    Answers();
  }

  lemma EndState(n: int)
    requires n == 1 || n == 3
    ensures var t := Trimmed(WriterAt({2, 3}, false));
      HERE in t.proxies && n in t.proxies[HERE].state
      && t.proxies[HERE].state[n] == ChangeForReader(if n == 3 then Acknowledged else Underway, true)
  {
    hide Trimmed, Removable;
    EndTrimmed();
    TrimmedIs(WriterAt({2, 3}, false));
    var v := Begin(WriterAt({2, 3}, false), []);
    assert n !in Removable(v, MaxSettled(v));
  }

  lemma EndFinishes(s: Sys)
    requires At(s, {2, 3}, false, [], {1, 3}, true, ANSWERS)
    ensures Finishes(s, HERE)
  {
    hide Trimmed, Known, RoundAck, WriterAt;
    EndTrimmed();
    EndAnswer(s);
    EndState(1);
    EndState(3);
  }

  lemma EndCarries()
    ensures CanCarry(WriterAt({2, 3}, false), HERE)
  {
  }

  lemma EndLeaves(s: Sys)
    requires At(s, {2, 3}, false, [], {1, 3}, true, ANSWERS)
    ensures Calm(s, HERE) && !AllAcked(s.w) && AckFits(s, HERE, {}) && CanCarry(s.w, HERE) && LeavesOne(s, HERE)
  {
    hide Trimmed, Known, RoundAck, AllAcked, Finishes, OnlyReader, UpTo, Changes, Proxies;
    EndAcked();
    EndCached();
    EndTrimmed();
    EndAnswer(s);
    EndFinishes(s);
    EndCarries();
    MaxIs({2}, 2);
  }

  /** The run ends calm, with one reader, something to repair and an answer that fits; yet
      after two rounds, or any number of them, the cache still holds more than the newest
      change. */
  lemma LeftoverStays(takens: seq<set<int>>)
    requires |takens| >= 2
    ensures Start(PairStart())
    ensures var s := Run(PairStart(), Schedule());
      && Calm(s, HERE) && !AllAcked(s.w) && AckFits(s, HERE, {}) && CanCarry(s.w, HERE) && LeavesOne(s, HERE)
      && AllAcked(Rounds(s, HERE, takens).w) && !OnlyNewest(Rounds(s, HERE, takens).w)
  {
    hide Run, Rounds, At, AckFits, AllAcked, CanCarry, OnlyNewest, LeavesOne;
    ScheduleEnds();
    EndLeaves(Run(PairStart(), Schedule()));
    Converges(PairStart(), Schedule(), HERE, takens);
  }
}
