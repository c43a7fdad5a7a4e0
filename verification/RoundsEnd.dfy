/** The rounds of module LossFree come to an end: whatever has to be repaired, messages and
    ACKNACKs can be delivered until none is left. */
module RoundsEnd {
  import opened Types
  import opened Ascending
  import opened ReaderProxies
  import opened WriterModel
  import opened WriterInvariants
  import opened Delivery
  import opened Convergence
  import opened LossFree
  import R = WriterProxies

  /** Nothing of the other readers' is different. */
  ghost predicate Apart(n: Net, r: Net, g: Guid) {
    && r.s.w.proxies.Keys == n.s.w.proxies.Keys && r.s.peers.Keys == n.s.peers.Keys
    && forall h :: h in n.s.peers && h != g ==> r.s.peers[h] == n.s.peers[h] && Due(r, h) == Due(n, h)
  }

  /** Up to what is cached, reader `g` misses only what is on its link. */
  ghost predicate OnLink(n: Net, g: Guid) {
    g in n.s.peers && n.s.peers[g].reader.Some?
    && LinkHas(n.s.peers[g].reader.value, n.s.peers[g].link, MaxSettled(n.s.w))
  }

  ghost predicate LinkHas(cs: R.CacheState, link: seq<Item>, max: int) {
    forall m :: R.IsMissing(cs, m) && m <= max ==> exists i :: 0 <= i < |link| && Mends(link[i].msg, m)
  }

  /** Nothing under way from `g` asks for anything that is cached. */
  ghost predicate AsksAbove(due: seq<Ack>, max: int) {
    forall i, m :: 0 <= i < |due| && m in due[i].req ==> m > max
  }

  /** Nothing on the link makes the reader answer. */
  predicate Unanswered(link: seq<Item>) {
    forall i :: 0 <= i < |link| ==> !BeatsAbove(link[i].msg, 0)
  }

  lemma LinkHasLess(p: Peer, due: seq<Ack>, max: int, k: Goal)
    requires GoalOk(k) && Serving(p, due, max, k) && p.link != [] && ReaderOk(p) && LinkHas(p.reader.value, p.link, max)
    ensures LinkHas(Heard(p.reader.value, p.link[0].msg, {}), p.link[1..], max)
  {
    hide R.OnHeartbeat, AckValid, Pending, DueFine;
    var msg, rest := p.link[0].msg, p.link[1..];
    assert Fine(msg, k);
    FineHeard(p.reader.value, msg, k);
    forall m | R.IsMissing(Heard(p.reader.value, msg, {}), m) && m <= max
      ensures exists i :: 0 <= i < |rest| && Mends(rest[i].msg, m)
    {
      var i :| 0 <= i < |p.link| && Mends(p.link[i].msg, m);
      assert i > 0 && rest[i - 1] == p.link[i];
    }
  }

  /** Nothing on the link will be answered, and no ACKNACK under way will be met by more. */
  ghost predicate DyingOut(n: Net, g: Guid) {
    g in n.s.peers && Unanswered(n.s.peers[g].link) && AsksAbove(Due(n, g), MaxSettled(n.s.w))
  }

  ghost predicate NoneMissing(cs: R.CacheState, max: int) {
    forall m :: m <= max ==> !R.IsMissing(cs, m)
  }

  ghost predicate Clean(n: Net, g: Guid) {
    g in n.s.peers && n.s.peers[g].reader.Some? && NoneMissing(n.s.peers[g].reader.value, MaxSettled(n.s.w))
  }

  /** A reader that misses nothing cached asks for nothing cached. */
  lemma AnswersAbove(p: Peer, due: seq<Ack>, max: int, k: Goal)
    requires GoalOk(k) && Serving(p, due, max, k) && p.link != [] && ReaderOk(p) && NoneMissing(p.reader.value, max)
    ensures NoneMissing(Heard(p.reader.value, p.link[0].msg, {}), max)
    ensures AsksAbove(due, max) ==> AsksAbove(due + AnswersTo(p, p.link[0].msg, {}), max)
  {
    hide R.OnHeartbeat, AckValid, Pending, DueFine;
    var msg := p.link[0].msg;
    assert Fine(msg, k);
    FineHeard(p.reader.value, msg, k);
    var more := due + AnswersTo(p, msg, {});
    if AsksAbove(due, max) {
      forall i, m | 0 <= i < |more| && m in more[i].req
        ensures m > max
      {
        if i < |due| {
          assert more[i] == due[i];
        } else {
          assert R.IsMissing(Heard(p.reader.value, msg, {}), m);
        }
      }
    }
  }

  lemma ReceiveHears(p: Peer, msg: Msg)
    requires p.reader.Some?
    ensures Receive(p, msg, {}).reader == Some(Heard(p.reader.value, msg, {}))
    ensures !BeatsAbove(msg, 0) ==> AnswersTo(p, msg, {}) == []
  {
  }

  /** One more message is heard. */
  lemma HearOne(s: Sys, n: Net, g: Guid)
    requires ReadyAll(s) && !AllAcked(s.w) && AllFit(s) && InRound(s, n)
    requires g in s.w.proxies && g in n.heard && n.s.peers[g].link != []
    ensures var r := Happen(n, Hear(g, {}));
      && InRound(s, r) && Apart(n, r, g) && g in r.heard && r.s.w == n.s.w && g in r.s.peers
      && r.s.peers[g].link == n.s.peers[g].link[1..]
      && (OnLink(n, g) ==> OnLink(r, g))
      && (Clean(n, g) ==> Clean(r, g) && (AsksAbove(Due(n, g), MaxSettled(n.s.w)) ==> AsksAbove(Due(r, g), MaxSettled(r.s.w))))
      && (Unanswered(n.s.peers[g].link) ==> Unanswered(r.s.peers[g].link) && Due(r, g) == Due(n, g))
  {
    hide Happen, Inv, Receive, NoneRequested, Trimmed, AckValid, Serving, RoundAck, AllAcked, AllFit, GoalOk, Heard, NothingForgotten,
         AnswersTo, AsksAbove, NoneMissing, LinkHas, BeatsAbove, InRound;
    HearInRound(s, n, g, {});
    ServingOf(s, n, g);
    HappenHear(n, g, {});
    var p, max, k := n.s.peers[g], MaxSettled(n.s.w), GoalOf(s, g);
    if OnLink(n, g) {
      LinkHasLess(p, Due(n, g), max, k);
    }
    if Clean(n, g) {
      AnswersAbove(p, Due(n, g), max, k);
    }
    ReceiveHears(p, p.link[0].msg);
    assert Due(n, g) + [] == Due(n, g);
  }

  lemma ServingOf(s: Sys, n: Net, g: Guid)
    requires ReadyAll(s) && !AllAcked(s.w) && AllFit(s) && InRound(s, n) && g in s.w.proxies && g in n.heard
    ensures GoalOk(GoalOf(s, g)) && g in n.s.peers && ReaderOk(n.s.peers[g]) && n.s.peers[g].reader.Some? && Inv(n.s)
    ensures n.s.w.proxies.Keys == s.w.proxies.Keys && Serving(n.s.peers[g], Due(n, g), MaxSettled(n.s.w), GoalOf(s, g))
  {
    hide NoneRequested, Trimmed, AckValid, GoalOk, AllAcked;
    assert Attended(s, n, g);
    GoalFine(s, g);
    ReaderOkOf(n.s, g);
  }

  // ---- everything on a link is heard ----

  lemma PlayOne(n: Net, e: Arrival, es: seq<Arrival>)
    ensures Play(n, [e] + es) == Play(Happen(n, e), es)
  {
    hide Happen;
    assert ([e] + es)[1..] == es;
  }

  lemma {:induction false} PlayOn(n: Net, a: seq<Arrival>, b: seq<Arrival>)
    ensures Play(n, a + b) == Play(Play(n, a), b)
    decreases |a|
  {
    hide Happen;
    if a == [] {
      assert a + b == b;
    } else {
      PlayOn(Happen(n, a[0]), a[1..], b);
      assert (a + b)[1..] == a[1..] + b;
    }
  }

  lemma ApartTwice(n: Net, r: Net, t: Net, g: Guid)
    requires Apart(n, r, g) && Apart(r, t, g)
    ensures Apart(n, t, g)
  {
  }

  lemma {:induction false} HearAll(s: Sys, n: Net, g: Guid) returns (es: seq<Arrival>, r: Net)
    requires ReadyAll(s) && !AllAcked(s.w) && AllFit(s) && InRound(s, n) && g in s.w.proxies && g in n.heard
    requires g in n.s.peers
    ensures r == Play(n, es) && InRound(s, r) && Apart(n, r, g) && g in r.heard && g in r.s.peers && r.s.peers[g].link == []
    ensures OnLink(n, g) ==> OnLink(r, g)
    ensures Clean(n, g) ==> Clean(r, g)
    ensures Clean(n, g) && AsksAbove(Due(n, g), MaxSettled(n.s.w)) ==> AsksAbove(Due(r, g), MaxSettled(r.s.w))
    ensures Unanswered(n.s.peers[g].link) ==> Due(r, g) == Due(n, g)
    decreases |n.s.peers[g].link|
  {
    hide Inv, NoneRequested, InRound, Happen, AllAcked, AllFit, ReadyAll, OnLink, Clean, AsksAbove, Unanswered, Apart;
    if n.s.peers[g].link == [] {
      es, r := [], n;
      assert Apart(n, n, g) by { ApartFromItself(n, g); }
    } else {
      HearOne(s, n, g);
      var n1 := Happen(n, Hear(g, {}));
      var rest;
      rest, r := HearAll(s, n1, g);
      es := [Hear(g, {})] + rest;
      PlayOne(n, Hear(g, {}), rest);
      ApartTwice(n, n1, r, g);
    }
  }

  lemma ApartFromItself(n: Net, g: Guid)
    ensures Apart(n, n, g)
  {
  }

  // ---- every ACKNACK under way arrives ----

  lemma RepairsDead(msgs: seq<Msg>, req: set<int>, max: int)
    requires Convergence.Answers(msgs, req, max) && forall m :: m in req ==> m > max
    ensures forall i :: 0 <= i < |msgs| ==> !BeatsAbove(msgs[i], 0)
  {
    forall i | 0 <= i < |msgs|
      ensures !BeatsAbove(msgs[i], 0)
    {
      assert NumberOf(msgs[i]) in req && Settles(msgs[i], NumberOf(msgs[i]), max);
    }
  }

  lemma PostedUnanswered(p: Peer, msgs: seq<Msg>, top: int)
    requires Unanswered(p.link) && forall i :: 0 <= i < |msgs| ==> !BeatsAbove(msgs[i], 0)
    ensures Unanswered(Posted(p, msgs, top).link)
  {
    var q := Posted(p, msgs, top);
    forall i | 0 <= i < |q.link|
      ensures !BeatsAbove(q.link[i].msg, 0)
    {
      if i < |p.link| {
        assert q.link[i] == p.link[i];
      } else {
        assert q.link[i].msg == msgs[i - |p.link|];
      }
    }
  }

  lemma StillAbove(due: seq<Ack>, max: int, less: int)
    requires AsksAbove(due, max) && due != [] && less <= max
    ensures AsksAbove(due[1..], less) && forall m :: m in due[0].req ==> m > max
  {
  }

  lemma StillNone(cs: R.CacheState, max: int, less: int)
    requires NoneMissing(cs, max) && less <= max
    ensures NoneMissing(cs, less)
  {
  }

  lemma PostedReader(p: Peer, msgs: seq<Msg>, top: int)
    ensures Posted(p, msgs, top).reader == p.reader
  {
  }

  lemma ReturnOne(s: Sys, n: Net, g: Guid)
    requires ReadyAll(s) && !AllAcked(s.w) && AllFit(s) && AllCarried(s.w) && InRound(s, n)
    requires g in s.w.proxies && Due(n, g) != [] && g in n.s.peers
    ensures var r := Happen(n, Return(g));
      && InRound(s, r) && Apart(n, r, g) && r.heard == n.heard && g in r.s.peers && Due(r, g) == Due(n, g)[1..]
      && (Clean(n, g) ==> Clean(r, g))
      && (DyingOut(n, g) ==> DyingOut(r, g))
  {
    hide Happen, HandleAckNack, Answered, Inv, Trimmed, NoneRequested, MsgsFor, AllAcked, AllFit, AllCarried, AckValid, Posted,
         AsksAbove, Unanswered, NoneMissing, InRound, BeatsAbove, OwedMsg, OnlyOwed;
    var w, a := n.s.w, Due(n, g)[0];
    ReturnInRound(s, n, g);
    ReturnFacts(s, n, g);
    var r, w1 := Happen(n, Return(g)), HandleAckNack(w, g, a.base, a.req);
    forall h | h in n.s.peers && h != g
      ensures r.s.peers[h] == n.s.peers[h]
    {
      AnsweredOnly(w, g, a, h);
      NothingPostedTo(n.s.peers[h], w1.processed);
    }
    var p, msgs := n.s.peers[g], MsgsFor(w1.out, g);
    PostedReader(p, msgs, w1.processed);
    if Clean(n, g) {
      StillNone(p.reader.value, MaxSettled(w), MaxSettled(r.s.w));
    }
    if Unanswered(p.link) && AsksAbove(Due(n, g), MaxSettled(w)) {
      StillAbove(Due(n, g), MaxSettled(w), MaxSettled(r.s.w));
      AnsweredIs(w, g, a.base, a.req);
      RepairsDead(msgs, a.req, MaxSettled(w));
      PostedUnanswered(p, msgs, w1.processed);
    }
  }

  lemma ReturnFacts(s: Sys, n: Net, g: Guid)
    requires ReadyAll(s) && !AllAcked(s.w) && AllFit(s) && AllCarried(s.w) && InRound(s, n)
    requires g in s.w.proxies && Due(n, g) != []
    ensures var r, a := Happen(n, Return(g)), Due(n, g)[0];
      var w1 := HandleAckNack(n.s.w, g, a.base, a.req);
      && AtRest(n.s.w, g) && w1.out == Answered(n.s.w, g, a.base, a.req).out
      && r.due == n.due[g := Due(n, g)[1..]] && r.heard == n.heard
      && r.s.w.proxies.Keys == n.s.w.proxies.Keys && r.s.peers.Keys == n.s.peers.Keys
      && MaxSettled(r.s.w) <= MaxSettled(n.s.w)
      && forall h :: h in n.s.peers ==> r.s.peers[h] == Posted(n.s.peers[h], MsgsFor(w1.out, h), w1.processed)
  {
    hide Happen, HandleAckNack, Answered, Inv, Trimmed, NoneRequested, MsgsFor, AllAcked, AllFit, AllCarried, AckValid, Posted,
         Attended, NothingForgotten;
    var a := Due(n, g)[0];
    NextOf(s, n, g);
    HappenReturn(s, n, g, a);
    AfterReturn(s, n, g, a);
    RestingFor(s, n.s, g);
    Taken(n.s.w, g, a);
    WriterFacts(n.s);
    ReturnSteady(s, n, g, a);
    MaxShrinks(n.s.w, Happen(n, Return(g)).s.w);
  }

  lemma {:induction false} ReturnAll(s: Sys, n: Net, g: Guid) returns (es: seq<Arrival>, r: Net)
    requires ReadyAll(s) && !AllAcked(s.w) && AllFit(s) && AllCarried(s.w) && InRound(s, n)
    requires g in s.w.proxies && g in n.s.peers
    ensures r == Play(n, es) && InRound(s, r) && Apart(n, r, g) && r.heard == n.heard && g in r.s.peers && Due(r, g) == []
    ensures Clean(n, g) ==> Clean(r, g)
    ensures DyingOut(n, g) ==> DyingOut(r, g)
    decreases |Due(n, g)|
  {
    hide Inv, NoneRequested, InRound, Happen, AllAcked, AllFit, AllCarried, ReadyAll, Clean, DyingOut, Apart;
    if Due(n, g) == [] {
      es, r := [], n;
      ApartFromItself(n, g);
    } else {
      ReturnOne(s, n, g);
      var n1 := Happen(n, Return(g));
      var rest;
      rest, r := ReturnAll(s, n1, g);
      es := [Return(g)] + rest;
      PlayOne(n, Return(g), rest);
      ApartTwice(n, n1, r, g);
    }
  }

  // ---- the whole round ----

  lemma InHandOnLink(s: Sys, n: Net, g: Guid)
    requires ReadyAll(s) && !AllAcked(s.w) && AllFit(s) && InRound(s, n) && g in s.w.proxies && g in n.heard
    requires Due(n, g) == []
    ensures OnLink(n, g)
  {
    hide ReadyAll, AllAcked, AllFit, InRound, LinkFine, DueFine;
    ServingOf(s, n, g);
    var p, max := n.s.peers[g], MaxSettled(n.s.w);
    forall m | R.IsMissing(p.reader.value, m) && m <= max
      ensures exists i :: 0 <= i < |p.link| && Mends(p.link[i].msg, m)
    {
      assert InHand(p.link, [], m);
    }
  }

  lemma AllSettledIsClean(n: Net, g: Guid)
    requires OnLink(n, g) && n.s.peers[g].link == []
    ensures Clean(n, g)
  {
  }

  lemma NothingAsked(n: Net, g: Guid)
    requires g in n.s.peers
    ensures Due(n, g) == [] ==> AsksAbove(Due(n, g), MaxSettled(n.s.w))
    ensures n.s.peers[g].link == [] && AsksAbove(Due(n, g), MaxSettled(n.s.w)) ==> DyingOut(n, g)
    ensures DyingOut(n, g) ==> Unanswered(n.s.peers[g].link)
  {
  }

  /** A reader that has not heard the heartbeat hears it. */
  lemma StartHearing(s: Sys, n: Net, g: Guid) returns (es: seq<Arrival>, r: Net)
    requires ReadyAll(s) && !AllAcked(s.w) && AllFit(s) && InRound(s, n) && g in s.w.proxies
    ensures r == Play(n, es) && InRound(s, r) && Apart(n, r, g) && g in r.heard && g in r.s.peers
  {
    hide Happen, Inv, NoneRequested, Trimmed, AllAcked, AllFit, RoundAck, Serving, NothingForgotten;
    if g in n.heard {
      es, r := [], n;
    } else {
      es, r := [Hear(g, {})], Happen(n, Hear(g, {}));
      assert Attended(s, n, g);
      HearInRound(s, n, g, {});
      HappenHear(n, g, {});
      PlayOne(n, Hear(g, {}), []);
      assert [Hear(g, {})] + [] == [Hear(g, {})];
    }
  }

  /** Some order of arrivals leaves nothing under way to or from `g`. */
  lemma FinishOne(s: Sys, n: Net, g: Guid) returns (es: seq<Arrival>, r: Net)
    requires ReadyAll(s) && !AllAcked(s.w) && AllFit(s) && AllCarried(s.w) && InRound(s, n) && g in s.w.proxies
    ensures r == Play(n, es) && InRound(s, r) && Apart(n, r, g)
    ensures g in r.s.peers && r.s.peers[g].link == [] && Due(r, g) == []
  {
    hide Inv, NoneRequested, InRound, Happen, AllAcked, AllFit, AllCarried, ReadyAll, Clean, OnLink, AsksAbove, Unanswered, DyingOut, Apart, Play;
    var e1, n1 := StartHearing(s, n, g);
    var e2, n2 := ReturnAll(s, n1, g);
    InHandOnLink(s, n2, g);
    var e3, n3 := HearAll(s, n2, g);
    AllSettledIsClean(n3, g);
    var e4, n4 := ReturnAll(s, n3, g);
    NothingAsked(n4, g);
    var e5, n5 := HearAll(s, n4, g);
    NothingAsked(n5, g);
    var e6, n6 := ReturnAll(s, n5, g);
    NothingAsked(n6, g);
    var e7, n7 := HearAll(s, n6, g);
    es, r := e1 + (e2 + (e3 + (e4 + (e5 + (e6 + e7))))), n7;
    PlayOn(n, e1, e2 + (e3 + (e4 + (e5 + (e6 + e7)))));
    PlayOn(n1, e2, e3 + (e4 + (e5 + (e6 + e7))));
    PlayOn(n2, e3, e4 + (e5 + (e6 + e7)));
    PlayOn(n3, e4, e5 + (e6 + e7));
    PlayOn(n4, e5, e6 + e7);
    PlayOn(n5, e6, e7);
    ApartTwice(n, n1, n2, g);
    ApartTwice(n, n2, n3, g);
    ApartTwice(n, n3, n4, g);
    ApartTwice(n, n4, n5, g);
    ApartTwice(n, n5, n6, g);
    ApartTwice(n, n6, n7, g);
  }

  /** Nothing is under way to or from the readers outside `rest`. */
  ghost predicate QuietBut(n: Net, rest: set<Guid>) {
    forall g :: g in n.s.w.proxies && g in n.s.peers && g !in rest ==> n.s.peers[g].link == [] && Due(n, g) == []
  }

  lemma {:induction false} FinishAll(s: Sys, n: Net, rest: set<Guid>) returns (es: seq<Arrival>)
    requires ReadyAll(s) && !AllAcked(s.w) && AllFit(s) && AllCarried(s.w) && InRound(s, n)
    requires rest <= s.w.proxies.Keys && QuietBut(n, rest)
    ensures Quiet(Play(n, es))
    decreases |rest|
  {
    hide Inv, NoneRequested, InRound, Happen, AllAcked, AllFit, AllCarried, ReadyAll, Play;
    if rest == {} {
      es := [];
      assert Play(n, []) == n by { PlayNothing(n); }
    } else {
      var g := Member(rest);
      var e1, n1 := FinishOne(s, n, g);
      var more := FinishAll(s, n1, rest - {g});
      es := e1 + more;
      PlayOn(n, e1, more);
    }
  }

  lemma PlayNothing(n: Net)
    ensures Play(n, []) == n
  {
  }

  /** If every answer fits and all that is owed can arrive, a round can be brought to its
      end: messages and ACKNACKs can arrive in some order until nothing is under way. */
  lemma RoundCanEnd(s: Sys) returns (es: seq<Arrival>)
    requires ReadyAll(s) && AllFit(s) && AllCarried(s.w)
    ensures Quiet(Play(Fire(s), es))
  {
    hide Inv, NoneRequested, InRound, Happen, AllAcked, AllFit, AllCarried, Play;
    if AllAcked(s.w) {
      es := [];
      Silent(s);
      PlayNothing(Fire(s));
    } else {
      FireInRound(s);
      FireReaders(s);
      es := FinishAll(s, Fire(s), s.w.proxies.Keys);
    }
  }

  lemma FireReaders(s: Sys)
    requires ReadyAll(s) && !AllAcked(s.w)
    ensures Fire(s).s.w.proxies.Keys == s.w.proxies.Keys
  {
    hide Inv, NoneRequested, AllAcked, Fire, Trimmed;
    SomeReader(s.w);
    var some := Member(s.w.proxies.Keys);
    FiredAll(s, some);
  }

  /** So can any number of them, one after the other; AllSettle then says how they end. */
  lemma {:induction false} RoundsCanEnd(s: Sys, count: nat) returns (rounds: seq<seq<Arrival>>)
    requires ReadyAll(s) && AllFit(s) && AllCarried(s.w)
    ensures |rounds| == count && NothingLost(s, rounds)
    decreases count
  {
    hide Inv, NoneRequested, AllAcked, AllFit, AllCarried, AllCovered, Play, Fire, ReadyAll, Quiet;
    if count == 0 {
      rounds := [];
    } else {
      var es := RoundCanEnd(s);
      var s1 := AfterRound(s, es);
      var rest;
      if AllAcked(s.w) {
        SilentAfter(s, es);
        rest := SilentRoundsEnd(s1, count - 1);
      } else {
        RoundEnds(s, es);
        if AllAcked(s1.w) {
          rest := SilentRoundsEnd(s1, count - 1);
        } else {
          rest := RoundsCanEnd(s1, count - 1);
        }
      }
      rounds := [es] + rest;
      assert rounds[1..] == rest;
    }
  }

  lemma {:induction false} SilentRoundsEnd(s: Sys, count: nat) returns (rounds: seq<seq<Arrival>>)
    requires ReadyAll(s) && AllAcked(s.w)
    ensures |rounds| == count && NothingLost(s, rounds)
    decreases count
  {
    hide Inv, NoneRequested, AllAcked, Play, Fire, ReadyAll, Quiet;
    if count == 0 {
      rounds := [];
    } else {
      SilentIsQuiet(s);
      SilentAfter(s, []);
      var rest := SilentRoundsEnd(AfterRound(s, []), count - 1);
      rounds := [[]] + rest;
      assert rounds[1..] == rest;
    }
  }

  lemma SilentIsQuiet(s: Sys)
    requires ReadyAll(s) && AllAcked(s.w)
    ensures Quiet(Play(Fire(s), []))
  {
    hide Inv, NoneRequested, AllAcked;
    Silent(s);
    PlayNothing(Fire(s));
  }
}
