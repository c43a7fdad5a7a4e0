/** One reliable KeepAll writer, its readers and the links between them.

    A link to a reader loses messages but keeps their order, and may deliver a message
    more than once in a row. ACKNACKs may be lost, repeated and reordered at will: they
    stay in a pool from which any one can arrive at any time. Each reader has a locator
    of its own (module MessageCover shows that a submessage then reaches exactly the
    readers it is for). */
module Delivery {
  import opened Types
  import opened Ascending
  import opened ReaderProxies
  import opened WriterModel
  import opened WriterInvariants
  import R = WriterProxies

  /** A submessage under way; `top` is a history variable: the newest number the
      writer had processed when it sent it. */
  datatype Item = Item(msg: Msg, top: int)

  datatype Ack = Ack(base: int, req: set<int>)

  datatype Peer = Peer(
    durability: Durability,
    locator: Locator,
    link: seq<Item>,
    reader: Option<R.CacheState>,    // what the reader knows about the writer, if matched
    acks: set<Ack>,                  // every ACKNACK the reader has sent
    rel: set<int>,                   // history: changes relevant to it since it was last matched
    got: map<int, Payload>,          // history: DATA it has accepted
    hi: int)                         // history: newest `top` sent to it

  datatype Sys = Sys(w: Writer, peers: map<Guid, Peer>)

  function OwnLocators(p: Peer): Locators {
    Locators([p.locator], [], [], [])
  }

  // ---- steps ----

  predicate IsFor(s: Send, g: Guid) {
    exists i :: 0 <= i < |s.to| && s.to[i].guid == g
  }

  function MsgsFor(out: seq<Send>, g: Guid): seq<Msg> {
    if out == [] then []
    else (if IsFor(out[0], g) then [out[0].msg] else []) + MsgsFor(out[1..], g)
  }

  function Items(msgs: seq<Msg>, top: int): seq<Item> {
    seq(|msgs|, i requires 0 <= i < |msgs| => Item(msgs[i], top))
  }

  /** What a handler sent to `p` is put on its link. */
  function Posted(p: Peer, msgs: seq<Msg>, top: int): Peer {
    if msgs == [] then p else p.(link := p.link + Items(msgs, top), hi := top)
  }

  function Post(s: Sys): Sys {
    Sys(s.w.(out := [], script := []),
        map g | g in s.peers :: Posted(s.peers[g], MsgsFor(s.w.out, g), s.w.processed))
  }

  /** Handing new changes to the proxies makes them relevant to every matched reader. */
  function Owed(peers: map<Guid, Peer>, matched: set<Guid>, news: set<int>): map<Guid, Peer> {
    map g | g in peers ::
      if g in matched then peers[g].(rel := peers[g].rel + news) else peers[g]
  }

  /** An ACKNACK whose bitmap spans 256 numbers or more is dropped on arrival. */
  ghost predicate AckValid(a: Ack) {
    a.base >= 1 && (a.req != {} ==> Max(a.req) - a.base + 1 < 256)
  }

  /** What arrives at a reader. A DATA it cannot be given changes nothing. */
  ghost function Receive(p: Peer, msg: Msg, taken: set<int>): Peer {
    match p.reader
    case None => p
    case Some(cs) =>
      match msg
      case Data(n, payload) =>
        if !Deliverable(payload) then p
        else p.(reader := Some(R.WithReceived(cs, n)), got := p.got[n := payload])
      case Gap(n) => p.(reader := Some(R.WithIrrelevant(cs, n)))
      case Heartbeat(first, last, _) =>
        if !R.HeartbeatValid(first, last) then p
        else
          var r := R.OnHeartbeat(cs, taken, first, last);
          p.(reader := Some(r), acks := p.acks + {Ack(R.AckBase(r), R.MissingSet(r))})
  }

  function RelevantIn(cs: CacheState): set<int> {
    set n | n in cs && cs[n].relevant
  }

  datatype Step =
    | AppWrite(payload: Payload)
    | WriteCommand(script: seq<seq<Payload>>)
    | HeartbeatTimer(liveliness: bool, script: seq<seq<Payload>>)
    | AckArrives(guid: Guid, ack: Ack, script: seq<seq<Payload>>)
    | WriterFinds(guid: Guid, restCompatible: bool, script: seq<seq<Payload>>)
    | WriterForgets(prefix: GuidPrefix)
    | ReaderFinds(guid: Guid)        // the reader starts with an empty record
    | ReaderForgets(guid: Guid)
    | Lose(guid: Guid)
    | Deliver(guid: Guid, taken: set<int>, again: bool)

  ghost function SetPeer(s: Sys, g: Guid, p: Peer): Sys {
    s.(peers := s.peers[g := p])
  }

  /** A step that is not possible in `s` changes nothing. */
  ghost function Apply(s: Sys, step: Step): Sys {
    match step
    case AppWrite(p) => s.(w := AppWrites(s.w, p))
    case WriteCommand(script) =>
      var w0 := Begin(s.w, script);
      Post(Sys(ProcessWrites(w0), Owed(s.peers, s.w.proxies.Keys, Yield(w0).hc.unprocessed)))
    case HeartbeatTimer(liveliness, script) =>
      Post(s.(w := SendHeartbeat(Begin(s.w, script), liveliness)))
    case AckArrives(g, ack, script) =>
      if g in s.peers && ack in s.peers[g].acks && AckValid(ack)
      then Post(s.(w := HandleAckNack(Begin(s.w, script), g, ack.base, ack.req)))
      else s
    case WriterFinds(g, restCompatible, script) =>
      if g !in s.peers || g in s.w.proxies then s
      else
        var p := s.peers[g];
        var w1 := AddReader(Begin(s.w, script), g, OwnLocators(p), ReaderQos(p.durability, restCompatible));
        if g !in w1.proxies then s
        else
          var owed := RelevantIn(w1.proxies[g].state);
          Post(SetPeer(s, g, p.(rel := owed)).(w := w1))
    case WriterForgets(prefix) => s.(w := RemoveReaders(s.w, prefix))
    case ReaderFinds(g) => if g in s.peers then SetPeer(s, g, s.peers[g].(reader := Some(map[]))) else s
    case ReaderForgets(g) => if g in s.peers then SetPeer(s, g, s.peers[g].(reader := None)) else s
    case Lose(g) =>
      if g in s.peers && s.peers[g].link != []
      then SetPeer(s, g, s.peers[g].(link := s.peers[g].link[1..]))
      else s
    case Deliver(g, taken, again) =>
      if g in s.peers && s.peers[g].link != []
      then
        var p := Receive(s.peers[g], s.peers[g].link[0].msg, taken);
        SetPeer(s, g, if again then p else p.(link := p.link[1..]))
      else s
  }

  ghost function Run(s: Sys, steps: seq<Step>): Sys
    decreases |steps|
  {
    if steps == [] then s else Run(Apply(s, steps[0]), steps[1..])
  }

  predicate FreshPeer(p: Peer) {
    p.link == [] && p.reader == None && p.acks == {} && p.rel == {} && p.got == map[] && p.hi == 0
  }

  /** Nothing written, nobody matched. */
  predicate Start(s: Sys) {
    && s.w == Initial(s.w.cfg) && s.w.cfg.history == KeepAll && s.w.cfg.nackDelayZero
    && forall g :: g in s.peers ==> FreshPeer(s.peers[g])
  }

  // ---- the invariant ----

  /** Every change relevant to the reader, up to `m`, has reached it. */
  ghost predicate GotUpTo(p: Peer, m: int) {
    forall n :: n in p.rel && n <= m ==> n in p.got
  }

  ghost predicate MsgOk(p: Peer, written: seq<Payload>, msg: Msg, top: int) {
    match msg
    case Data(n, payload) => 1 <= n <= top && n <= |written| && payload == written[n - 1]
    case Gap(n) => n <= top && n !in p.rel
    case Heartbeat(first, last, _) =>
      last <= top && forall n :: n in p.rel && n <= top && !(first <= n <= last) ==> n in p.got
  }

  ghost predicate LinkOk(p: Peer, written: seq<Payload>) {
    && (forall i :: 0 <= i < |p.link| ==>
          0 <= p.link[i].top <= p.hi && MsgOk(p, written, p.link[i].msg, p.link[i].top))
    && (forall i, j :: 0 <= i < j < |p.link| ==> p.link[i].top <= p.link[j].top)
  }

  ghost predicate ReaderOk(p: Peer) {
    match p.reader
    case None => true
    case Some(cs) =>
      && (forall n :: n in cs ==> n <= p.hi && cs[n].status != R.Unknown)
      && (forall n, i :: n in cs && 0 <= i < |p.link| ==> n <= p.link[i].top)
      && (forall n :: R.Accounted(cs, n) && n in p.rel ==> n in p.got)
  }

  ghost predicate AckOk(p: Peer, a: Ack) {
    && a.base <= p.hi + 1 && GotUpTo(p, a.base - 1)
    && (forall n :: n in a.req ==> n <= p.hi)
  }

  ghost predicate GotOk(p: Peer, written: seq<Payload>) {
    forall n :: n in p.got ==> 1 <= n <= |written| && p.got[n] == written[n - 1] && Deliverable(p.got[n])
  }

  /** The newest processed change is owed to a TransientLocal reader that could have
      heard of it. */
  ghost predicate NewestOwed(w: Writer, p: Peer) {
    p.durability == TransientLocal && w.hc.last == w.processed >= 1 ==> w.processed in p.rel
  }

  ghost predicate PeerOk(w: Writer, p: Peer) {
    && 0 <= p.hi <= w.processed
    && (forall n :: n in p.rel ==> 1 <= n <= w.hc.last)
    && LinkOk(p, w.hc.written) && ReaderOk(p) && GotOk(p, w.hc.written)
    && (forall a :: a in p.acks ==> AckOk(p, a))
    && (p.hi == w.processed ==> NewestOwed(w, p))
  }

  ghost predicate EntryOk(w: Writer, p: Peer, m: int, e: ChangeForReader) {
    && m <= w.hc.last
    && (e.status == Acknowledged ==> m <= p.hi && GotUpTo(p, m))
    && (e.status == Requested ==> m <= p.hi)
    && (!e.relevant ==> m !in p.rel && (m <= w.processed ==> forall n :: n in p.rel ==> n > m))
    && (e.relevant && m in Settled(w) ==> m in p.rel)
  }

  ghost predicate ProxyOk(w: Writer, p: Peer, proxy: Proxy) {
    && proxy.locators == OwnLocators(p)
    && (forall m :: m in proxy.state ==> EntryOk(w, p, m, proxy.state[m]))
    && (forall m :: 1 <= m <= w.processed && m !in w.hc.changes ==> GotUpTo(p, m))
    && NewestOwed(w, p)
  }

  ghost predicate PeersOk(w: Writer, peers: map<Guid, Peer>) {
    && w.proxies.Keys <= peers.Keys
    && (forall g :: g in peers ==> PeerOk(w, peers[g]))
    && (forall g :: g in w.proxies ==> ProxyOk(w, peers[g], w.proxies[g]))
  }

  ghost predicate WriterOk(w: Writer) {
    && Agreement(w) && Retained(w)
    && w.cfg.history == KeepAll && w.cfg.nackDelayZero && w.anState == Waiting
  }

  ghost predicate Inv(s: Sys) {
    WriterOk(s.w) && PeersOk(s.w, s.peers)
  }

  // ---- the invariant under the writer's small steps ----

  lemma PeerOkGrown(a: Writer, b: Writer, p: Peer)
    requires Numbered(a) && Grown(a, b) && PeerOk(a, p)
    ensures PeerOk(b, p)
  {
  }

  lemma ProxyOkGrown(a: Writer, b: Writer, p: Peer, proxy: Proxy)
    requires Numbered(a) && Grown(a, b) && ProxyOk(a, p, proxy)
    ensures ProxyOk(b, p, proxy)
  {
  }

  lemma OkGrown(a: Writer, b: Writer, peers: map<Guid, Peer>)
    requires WriterOk(a) && PeersOk(a, peers) && Grown(a, b)
    ensures WriterOk(b) && PeersOk(b, peers)
  {
    AgreementGrown(a, b);
    forall g | g in peers
      ensures PeerOk(b, peers[g])
      ensures g in b.proxies ==> ProxyOk(b, peers[g], b.proxies[g])
    {
      PeerOkGrown(a, b, peers[g]);
      if g in b.proxies {
        ProxyOkGrown(a, b, peers[g], b.proxies[g]);
      }
    }
  }

  lemma OkRemoved(w: Writer, s: set<int>, peers: map<Guid, Peer>)
    requires Agreement(w) && PeersOk(w, peers)
    requires forall m :: m in s ==> AckedByAll(w, m)
    ensures PeersOk(Removed(w, s), peers)
  {
    var r := Removed(w, s);
    forall g | g in r.proxies
      ensures ProxyOk(r, peers[g], r.proxies[g])
    {
      var p := peers[g];
      assert ProxyOk(w, p, w.proxies[g]);
      forall m | 1 <= m <= r.processed && m !in r.hc.changes
        ensures GotUpTo(p, m)
      {
        if m in w.hc.changes {
          assert m in s && m !in w.hc.unprocessed;
          assert m in w.proxies[g].state && EntryOk(w, p, m, w.proxies[g].state[m]);
        }
      }
      forall m | m in r.proxies[g].state
        ensures EntryOk(r, p, m, r.proxies[g].state[m])
      {
        assert EntryOk(w, p, m, w.proxies[g].state[m]);
      }
    }
  }

  lemma OkRemoveAcked(w: Writer, base: int, peers: map<Guid, Peer>)
    requires WriterOk(w) && PeersOk(w, peers) && base <= w.processed
    ensures var r := RemoveAcked(w, base);
      WriterOk(r) && PeersOk(r, peers) && r.out == w.out && r.processed == w.processed
  {
    RemoveAckedEffect(w, base);
    var w1, r := Yield(w), RemoveAcked(w, base);
    var s := Removable(w1, base);
    RetainedRemoveAcked(w, base);
    OkGrown(w, w1, peers);
    OkRemovedGrown(w1, s, r, peers);
  }

  lemma OkRemovedGrown(w: Writer, s: set<int>, r: Writer, peers: map<Guid, Peer>)
    requires WriterOk(w) && PeersOk(w, peers)
    requires forall m :: m in s ==> AckedByAll(w, m)
    requires Grown(Removed(w, s), r) && Retained(r)
    ensures WriterOk(r) && PeersOk(r, peers)
  {
    var b := Removed(w, s);
    OkRemoved(w, s, peers);
    AgreementRemoved(w, s);
    AgreementGrown(b, r);
    forall g | g in peers
      ensures PeerOk(r, peers[g])
      ensures g in r.proxies ==> ProxyOk(r, peers[g], r.proxies[g])
    {
      PeerOkGrown(b, r, peers[g]);
      if g in r.proxies {
        ProxyOkGrown(b, r, peers[g], r.proxies[g]);
      }
    }
  }

  /** No proxy has heard of a change that is still unprocessed. */
  ghost predicate EntriesSettled(w: Writer) {
    forall g, m :: g in w.proxies && m in w.proxies[g].state ==> m <= w.processed
  }

  lemma PeerOkTake(w: Writer, p: Peer, owed: Peer)
    requires Numbered(w) && PeerOk(w, p) && w.hc.unprocessed != {}
    requires owed == p || owed == p.(rel := p.rel + w.hc.unprocessed)
    ensures PeerOk(TakeUnprocessed(w), owed)
  {
    var x := Member(w.hc.unprocessed);
    forall i | 0 <= i < |p.link|
      ensures MsgOk(owed, w.hc.written, p.link[i].msg, p.link[i].top)
    {
      assert MsgOk(p, w.hc.written, p.link[i].msg, p.link[i].top);
    }
    forall a | a in owed.acks
      ensures AckOk(owed, a)
    {
      assert AckOk(p, a);
    }
  }

  lemma ProxyOkTake(w: Writer, p: Peer, proxy: Proxy)
    requires Agreement(w) && PeerOk(w, p) && ProxyOk(w, p, proxy)
    requires w.cfg.history == KeepAll && w.hc.unprocessed != {}
    ensures ProxyOk(TakeUnprocessed(w), p.(rel := p.rel + w.hc.unprocessed),
                    proxy.(state := Register(w.cfg, proxy.state, w.hc.unprocessed)))
    ensures forall m :: m in Register(w.cfg, proxy.state, w.hc.unprocessed) ==> m <= w.hc.last
  {
    var x := Member(w.hc.unprocessed);
    var r, q := TakeUnprocessed(w), p.(rel := p.rel + w.hc.unprocessed);
    var state := Register(w.cfg, proxy.state, w.hc.unprocessed);
    forall m | m in state
      ensures EntryOk(r, q, m, state[m])
    {
      if m !in w.hc.unprocessed {
        assert EntryOk(w, p, m, proxy.state[m]);
        assert m in Settled(r) ==> m in Settled(w);
      }
    }
    assert w.hc.last in w.hc.unprocessed;
  }

  lemma OkTake(w: Writer, peers: map<Guid, Peer>)
    requires WriterOk(w) && PeersOk(w, peers) && w.hc.unprocessed != {}
    ensures var r := TakeUnprocessed(w);
      && WriterOk(r) && PeersOk(r, Owed(peers, w.proxies.Keys, w.hc.unprocessed)) && EntriesSettled(r)
  {
    var x := Member(w.hc.unprocessed);
    AgreementTake(w);
    var r, owed := TakeUnprocessed(w), Owed(peers, w.proxies.Keys, w.hc.unprocessed);
    assert w.hc.last in w.hc.unprocessed;
    forall g | g in peers
      ensures PeerOk(r, owed[g])
      ensures g in r.proxies ==> ProxyOk(r, owed[g], r.proxies[g])
      ensures g in r.proxies ==> forall m :: m in r.proxies[g].state ==> m <= r.processed
    {
      PeerOkTake(w, peers[g], owed[g]);
      if g in w.proxies {
        ProxyOkTake(w, peers[g], w.proxies[g]);
      }
    }
  }

  /** EntryOk and ProxyOk look at the cache and the processed number only. */
  lemma ProxyOkElsewhere(w: Writer, r: Writer, p: Peer, proxy: Proxy)
    requires ProxyOk(w, p, proxy) && r.hc == w.hc && r.processed == w.processed
    ensures ProxyOk(r, p, proxy)
  {
  }

  lemma PeerOkElsewhere(w: Writer, r: Writer, p: Peer)
    requires PeerOk(w, p) && r.hc == w.hc && r.processed == w.processed
    ensures PeerOk(r, p)
  {
  }

  lemma ProxyOkDrain(w: Writer, p: Peer, proxy: Proxy, st: Status)
    requires ProxyOk(w, p, proxy)
    ensures ProxyOk(w, p, DrainProxy(proxy, st))
  {
  }

  lemma OkDrain(w: Writer, st: Status, peers: map<Guid, Peer>)
    requires WriterOk(w) && PeersOk(w, peers)
    ensures WriterOk(DrainAll(w, st)) && PeersOk(DrainAll(w, st), peers)
  {
    var r := DrainAll(w, st);
    AgreementDrain(w, st);
    forall g | g in peers
      ensures PeerOk(r, peers[g])
      ensures g in r.proxies ==> ProxyOk(r, peers[g], r.proxies[g])
    {
      PeerOkElsewhere(w, r, peers[g]);
      if g in w.proxies {
        ProxyOkDrain(w, peers[g], w.proxies[g], st);
        ProxyOkElsewhere(w, r, peers[g], r.proxies[g]);
      }
    }
  }

  // ---- what handlers send ----

  ghost predicate SendOk(w: Writer, peers: map<Guid, Peer>, send: Send) {
    forall g :: IsFor(send, g) ==>
      g in w.proxies && g in peers && MsgOk(peers[g], w.hc.written, send.msg, w.processed)
  }

  ghost predicate OutOk(w: Writer, peers: map<Guid, Peer>) {
    AllSendsOk(w, peers, w.out)
  }

  lemma {:induction false} TargetsWant(w: Writer, gs: seq<Guid>, st: Status, n: int, relevant: bool, g: Guid)
    requires exists i :: 0 <= i < |TargetsAmong(w, gs, st, n, relevant)|
                         && TargetsAmong(w, gs, st, n, relevant)[i].guid == g
    ensures Wants(w, g, st, n, relevant)
  {
    if gs != [] && !(Wants(w, gs[0], st, n, relevant) && g == gs[0]) {
      var ts, rest := TargetsAmong(w, gs, st, n, relevant), TargetsAmong(w, gs[1..], st, n, relevant);
      var i :| 0 <= i < |ts| && ts[i].guid == g;
      if Wants(w, gs[0], st, n, relevant) {
        assert ts[i] == rest[i - 1];
      } else {
        assert ts[i] == rest[i];
      }
      TargetsWant(w, gs[1..], st, n, relevant, g);
    }
  }

  lemma DataSendOk(w: Writer, peers: map<Guid, Peer>, gs: seq<Guid>, st: Status, n: int)
    requires WriterOk(w) && PeersOk(w, peers) && n in w.hc.changes && n <= w.processed
    requires n in Plan(w, gs, st, true)
    ensures SendOk(w, peers, Send(Data(n, w.hc.changes[n]), Plan(w, gs, st, true)[n]))
  {
    var send := Send(Data(n, w.hc.changes[n]), Plan(w, gs, st, true)[n]);
    forall g | IsFor(send, g)
      ensures g in w.proxies && g in peers && MsgOk(peers[g], w.hc.written, send.msg, w.processed)
    {
      TargetsWant(w, gs, st, n, true, g);
    }
  }

  lemma GapSendOk(w: Writer, peers: map<Guid, Peer>, gs: seq<Guid>, st: Status, n: int)
    requires WriterOk(w) && PeersOk(w, peers)
    requires n in Plan(w, gs, st, false) && n <= w.processed
    ensures SendOk(w, peers, Send(Gap(n), Plan(w, gs, st, false)[n]))
  {
    var send := Send(Gap(n), Plan(w, gs, st, false)[n]);
    forall g | IsFor(send, g)
      ensures g in w.proxies && g in peers && MsgOk(peers[g], w.hc.written, send.msg, w.processed)
    {
      TargetsWant(w, gs, st, n, false, g);
      assert EntryOk(w, peers[g], n, w.proxies[g].state[n]);
    }
  }

  ghost predicate AllSendsOk(w: Writer, peers: map<Guid, Peer>, sends: seq<Send>) {
    forall i :: 0 <= i < |sends| ==> SendOk(w, peers, sends[i])
  }

  lemma DataSendsOk(w: Writer, peers: map<Guid, Peer>, gs: seq<Guid>, st: Status, nums: seq<int>)
    requires WriterOk(w) && PeersOk(w, peers)
    requires Within(nums, Plan(w, gs, st, true).Keys) && Within(nums, w.hc.changes.Keys)
    requires forall i :: 0 <= i < |nums| ==> nums[i] <= w.processed
    ensures AllSendsOk(w, peers, DataSends(w, Plan(w, gs, st, true), nums))
  {
    forall i | 0 <= i < |nums|
      ensures SendOk(w, peers, DataSends(w, Plan(w, gs, st, true), nums)[i])
    {
      DataSendOk(w, peers, gs, st, nums[i]);
    }
  }

  lemma GapSendsOk(w: Writer, peers: map<Guid, Peer>, gs: seq<Guid>, st: Status, nums: seq<int>)
    requires WriterOk(w) && PeersOk(w, peers)
    requires Within(nums, Plan(w, gs, st, false).Keys)
    requires forall i :: 0 <= i < |nums| ==> nums[i] <= w.processed
    ensures AllSendsOk(w, peers, GapSends(Plan(w, gs, st, false), nums))
  {
    forall i | 0 <= i < |nums|
      ensures SendOk(w, peers, GapSends(Plan(w, gs, st, false), nums)[i])
    {
      GapSendOk(w, peers, gs, st, nums[i]);
    }
  }

  lemma UnsentWithin(w: Writer, n: int, relevant: bool)
    requires Agreement(w) && EntriesSettled(w) && n in Plan(w, Guids(w), Unsent, relevant)
    ensures n <= w.processed && n in w.hc.changes
  {
  }

  lemma UnsentDataOk(w: Writer, peers: map<Guid, Peer>)
    requires WriterOk(w) && PeersOk(w, peers) && EntriesSettled(w)
    ensures var data := Plan(w, Guids(w), Unsent, true);
      data.Keys <= w.hc.changes.Keys && AllSendsOk(w, peers, DataSends(w, data, List(data.Keys)))
  {
    var data := Plan(w, Guids(w), Unsent, true);
    forall n | n in data ensures n <= w.processed && n in w.hc.changes { UnsentWithin(w, n, true); }
    DataSendsOk(w, peers, Guids(w), Unsent, List(data.Keys));
  }

  lemma UnsentGapsOk(w: Writer, peers: map<Guid, Peer>)
    requires WriterOk(w) && PeersOk(w, peers) && EntriesSettled(w)
    ensures var gaps := Plan(w, Guids(w), Unsent, false); AllSendsOk(w, peers, GapSends(gaps, List(gaps.Keys)))
  {
    var gaps := Plan(w, Guids(w), Unsent, false);
    forall n | n in gaps ensures n <= w.processed { UnsentWithin(w, n, false); }
    GapSendsOk(w, peers, Guids(w), Unsent, List(gaps.Keys));
  }

  lemma UnsentSendsOk(w: Writer, peers: map<Guid, Peer>)
    requires WriterOk(w) && PeersOk(w, peers) && EntriesSettled(w)
    ensures AllSendsOk(w, peers, UnsentSends(w))
  {
    UnsentDataOk(w, peers);
    UnsentGapsOk(w, peers);
    var data, gaps := Plan(w, Guids(w), Unsent, true), Plan(w, Guids(w), Unsent, false);
    AllSendsOkConcat(w, peers, DataSends(w, data, List(data.Keys)), GapSends(gaps, List(gaps.Keys)));
  }

  lemma AllSendsOkConcat(w: Writer, peers: map<Guid, Peer>, a: seq<Send>, b: seq<Send>)
    requires AllSendsOk(w, peers, a) && AllSendsOk(w, peers, b)
    ensures AllSendsOk(w, peers, a + b)
  {
  }

  lemma OkMoreSent(w: Writer, sends: seq<Send>, peers: map<Guid, Peer>)
    requires WriterOk(w) && PeersOk(w, peers)
    ensures var r := w.(out := w.out + sends); WriterOk(r) && PeersOk(r, peers)
  {
    var r := w.(out := w.out + sends);
    assert Agreement(r);
    forall g | g in peers
      ensures PeerOk(r, peers[g])
      ensures g in r.proxies ==> ProxyOk(r, peers[g], r.proxies[g])
    {
      PeerOkElsewhere(w, r, peers[g]);
      if g in w.proxies {
        ProxyOkElsewhere(w, r, peers[g], w.proxies[g]);
      }
    }
  }

  /** SendOk does not depend on what Grown leaves open. */
  lemma SendOkLater(w: Writer, r: Writer, peers: map<Guid, Peer>, send: Send)
    requires SendOk(w, peers, send)
    requires r.proxies.Keys == w.proxies.Keys && r.processed == w.processed && w.hc.written <= r.hc.written
    ensures SendOk(r, peers, send)
  {
  }

  lemma OkSendUnsent(w: Writer, peers: map<Guid, Peer>)
    requires WriterOk(w) && PeersOk(w, peers) && EntriesSettled(w) && w.out == []
    ensures var r := SendUnsent(w); WriterOk(r) && PeersOk(r, peers) && OutOk(r, peers)
  {
    SendUnsentEffect(w);
    OkDrain(w, Unsent, peers);
    UnsentSendsOk(w, peers);
    var sends := UnsentSends(w);
    OkMoreSent(DrainAll(w, Unsent), sends, peers);
    var r := SendUnsent(w);
    OkGrown(DrainAll(w, Unsent).(out := w.out + sends), r, peers);
    assert r.out == sends;
    forall i | 0 <= i < |r.out|
      ensures SendOk(r, peers, r.out[i])
    {
      SendOkLater(w, r, peers, sends[i]);
    }
  }

  // ---- the invariant under whole handlers ----

  lemma RemoveAckedEntries(w: Writer, base: int)
    requires Numbered(w) && EntriesSettled(w)
    ensures EntriesSettled(RemoveAcked(w, base))
  {
    RemoveAckedEffect(w, base);
  }

  lemma OwedNothing(peers: map<Guid, Peer>, matched: set<Guid>)
    ensures Owed(peers, matched, {}) == peers
  {
    assert forall g :: g in peers ==> peers[g].rel + {} == peers[g].rel;
  }

  lemma OkProcessWrites(w: Writer, peers: map<Guid, Peer>)
    requires WriterOk(w) && PeersOk(w, peers) && w.out == []
    ensures var r, owed := ProcessWrites(w), Owed(peers, w.proxies.Keys, Yield(w).hc.unprocessed);
      WriterOk(r) && PeersOk(r, owed) && OutOk(r, owed)
  {
    YieldGrows(w);
    OkGrown(w, Yield(w), peers);
    var w1 := Yield(w);
    if w1.hc.unprocessed == {} {
      OwedNothing(peers, w.proxies.Keys);
    } else {
      OkTake(w1, peers);
      var w2, oldest := TakeUnprocessed(w1), Min(w1.hc.unprocessed);
      var owed := Owed(peers, w.proxies.Keys, w1.hc.unprocessed);
      OkRemoveAcked(w2, oldest, owed);
      RemoveAckedEntries(w2, oldest);
      OkSendUnsent(RemoveAcked(w2, oldest), owed);
    }
  }

  lemma {:induction false} AudienceMatched(w: Writer, gs: seq<Guid>, g: Guid)
    requires exists i :: 0 <= i < |HeartbeatAudience(w, gs)| && HeartbeatAudience(w, gs)[i].guid == g
    ensures g in w.proxies
  {
    var ts := HeartbeatAudience(w, gs);
    var i :| 0 <= i < |ts| && ts[i].guid == g;
    if g !in w.proxies {
      var rest := HeartbeatAudience(w, gs[1..]);
      if gs[0] in w.proxies && w.proxies[gs[0]].locators.HeartbeatTargets() != [] {
        assert ts[i] == rest[i - 1];
      } else {
        assert ts[i] == rest[i];
      }
      AudienceMatched(w, gs[1..], g);
    }
  }

  /** A heartbeat covers whatever its receiver still lacks. */
  lemma HeartbeatSendOk(w: Writer, peers: map<Guid, Peer>, liveliness: bool, gs: seq<Guid>)
    requires WriterOk(w) && PeersOk(w, peers)
    ensures SendOk(w, peers, Send(Heartbeat(MinSettled(w), MaxSettled(w), liveliness), HeartbeatAudience(w, gs)))
  {
    var first, last := MinSettled(w), MaxSettled(w);
    var send := Send(Heartbeat(first, last, liveliness), HeartbeatAudience(w, gs));
    forall g | IsFor(send, g)
      ensures g in w.proxies && g in peers && MsgOk(peers[g], w.hc.written, send.msg, w.processed)
    {
      AudienceMatched(w, gs, g);
      forall n | n in peers[g].rel && n <= w.processed && !(first <= n <= last)
        ensures n in peers[g].got
      {
        assert n in w.hc.changes ==> n in Settled(w);
        assert GotUpTo(peers[g], n);
      }
    }
  }

  lemma OkTrim(w: Writer, peers: map<Guid, Peer>)
    requires WriterOk(w) && PeersOk(w, peers)
    ensures var r := Trim(w); WriterOk(r) && PeersOk(r, peers) && r.out == w.out
  {
    TrimEffect(w);
    var w1 := Yield(w);
    OkGrown(w, w1, peers);
    OkRemoveAcked(w1, MaxSettled(w1), peers);
    OkGrown(RemoveAcked(w1, MaxSettled(w1)), Trim(w), peers);
  }

  lemma OutOkMoreSent(w: Writer, sends: seq<Send>, peers: map<Guid, Peer>)
    requires WriterOk(w) && PeersOk(w, peers) && OutOk(w, peers) && AllSendsOk(w, peers, sends)
    ensures var r := w.(out := w.out + sends); WriterOk(r) && PeersOk(r, peers) && OutOk(r, peers)
  {
    OkMoreSent(w, sends, peers);
    var r := w.(out := w.out + sends);
    forall i | 0 <= i < |r.out|
      ensures SendOk(r, peers, r.out[i])
    {
      SendOkLater(w, r, peers, if i < |w.out| then w.out[i] else sends[i - |w.out|]);
    }
  }

  lemma OkAnnounce(w: Writer, liveliness: bool, peers: map<Guid, Peer>)
    requires WriterOk(w) && PeersOk(w, peers) && OutOk(w, peers)
    ensures var r := Announce(w, liveliness); WriterOk(r) && PeersOk(r, peers) && OutOk(r, peers)
  {
    var send := Send(Heartbeat(MinSettled(w), MaxSettled(w), liveliness), HeartbeatAudience(w, Guids(w)));
    HeartbeatSendOk(w, peers, liveliness, Guids(w));
    OutOkMoreSent(w, [send], peers);
  }

  lemma OkHeartbeat(w: Writer, liveliness: bool, peers: map<Guid, Peer>)
    requires WriterOk(w) && PeersOk(w, peers) && w.out == []
    ensures var r := SendHeartbeat(w, liveliness); WriterOk(r) && PeersOk(r, peers) && OutOk(r, peers)
  {
    var w0 := if liveliness then w else Yield(w);
    YieldGrows(w);
    OkGrown(w, Yield(w), peers);
    OkTrim(w0, peers);
    OkAnnounce(Trim(w0), liveliness, peers);
  }

  lemma ProxyOkNoteAck(w: Writer, p: Peer, proxy: Proxy, ack: Ack)
    requires Numbered(w) && PeerOk(w, p) && ProxyOk(w, p, proxy) && ack in p.acks
    requires forall m :: m in Settled(w) ==> m in proxy.state
    ensures ProxyOk(w, p, proxy.(state := WithRequested(AckedUpTo(proxy.state, ack.base - 1), ack.req)))
  {
  }

  lemma OkSetProxy(w: Writer, g: Guid, proxy: Proxy, peers: map<Guid, Peer>)
    requires PeersOk(w, peers) && g in peers && ProxyOk(w, peers[g], proxy)
    ensures PeersOk(w.(proxies := w.proxies[g := proxy]), peers)
  {
  }

  lemma OkNoteAck(w: Writer, g: Guid, ack: Ack, peers: map<Guid, Peer>)
    requires WriterOk(w) && PeersOk(w, peers) && g in w.proxies && ack in peers[g].acks
    ensures var r := NoteAck(w, g, ack.base, ack.req); WriterOk(r) && PeersOk(r, peers)
  {
    ProxyOkNoteAck(w, peers[g], w.proxies[g], ack);
    OkSetProxy(w, g, NoteAck(w, g, ack.base, ack.req).proxies[g], peers);
    assert Agreement(NoteAck(w, g, ack.base, ack.req));
  }

  lemma RepairSendOk(w: Writer, peers: map<Guid, Peer>, g: Guid, n: int)
    requires WriterOk(w) && PeersOk(w, peers) && n in Plan(w, [g], Requested, true)
    ensures n <= w.processed
    ensures SendOk(w, peers, Send(RepairMsg(w, n), Plan(w, [g], Requested, true)[n]))
  {
    var send := Send(RepairMsg(w, n), Plan(w, [g], Requested, true)[n]);
    assert Wants(w, g, Requested, n, true);
    assert EntryOk(w, peers[g], n, w.proxies[g].state[n]);
    forall h | IsFor(send, h)
      ensures h in w.proxies && h in peers && MsgOk(peers[h], w.hc.written, send.msg, w.processed)
    {
      TargetsWant(w, [g], Requested, n, true, h);
      if n !in w.hc.changes {
        forall k | k in peers[h].rel && k <= w.processed && !(n + 1 <= k <= MaxSettled(w))
          ensures k in peers[h].got
        {
          if k <= n {
            assert GotUpTo(peers[h], n);
          } else {
            assert k !in Settled(w);
            assert GotUpTo(peers[h], k);
          }
        }
      }
    }
  }

  lemma RepairSendsOk(w: Writer, peers: map<Guid, Peer>, g: Guid, nums: seq<int>)
    requires WriterOk(w) && PeersOk(w, peers) && Within(nums, Plan(w, [g], Requested, true).Keys)
    ensures AllSendsOk(w, peers, RepairSends(w, Plan(w, [g], Requested, true), nums))
    ensures forall i :: 0 <= i < |nums| ==> nums[i] <= w.processed
  {
    forall i | 0 <= i < |nums|
      ensures SendOk(w, peers, RepairSends(w, Plan(w, [g], Requested, true), nums)[i])
      ensures nums[i] <= w.processed
    {
      RepairSendOk(w, peers, g, nums[i]);
    }
  }

  lemma AllSendsOkLater(w: Writer, r: Writer, peers: map<Guid, Peer>, sends: seq<Send>)
    requires AllSendsOk(w, peers, sends)
    requires r.proxies.Keys == w.proxies.Keys && r.processed == w.processed && w.hc.written <= r.hc.written
    ensures AllSendsOk(r, peers, sends)
  {
  }

  lemma OkRepairSteps(w: Writer, a: Writer, data: map<int, seq<Target>>, xs: seq<int>,
                      gaps: map<int, seq<Target>>, ys: seq<int>, peers: map<Guid, Peer>)
    requires WriterOk(a) && PeersOk(a, peers) && OutOk(a, peers)
    requires a.hc == w.hc && a.processed == w.processed && a.proxies.Keys == w.proxies.Keys
    requires Within(xs, data.Keys) && Within(ys, gaps.Keys)
    requires forall i :: 0 <= i < |xs| ==> xs[i] <= w.processed
    requires AllSendsOk(w, peers, RepairSends(w, data, xs)) && AllSendsOk(w, peers, GapSends(gaps, ys))
    ensures var r := SendGaps(SendRepairs(a, data, xs), gaps, ys);
      WriterOk(r) && PeersOk(r, peers) && OutOk(r, peers)
  {
    assert Grown(a, a);
    SendRepairsKeeps(a, a, data, xs);
    SendRepairsOut(a, a, data, xs);
    SendGapsEffect(SendRepairs(a, data, xs), gaps, ys);
    var b := SendRepairs(a, data, xs);
    var b0 := b.(out := a.out);
    OkGrown(a, b0, peers);
    var reps := RepairSends(w, data, xs);
    assert Settled(a) == Settled(w);
    assert RepairSends(a, data, xs) == reps;
    AllSendsOkLater(a, b0, peers, a.out);
    AllSendsOkLater(w, b0, peers, reps);
    OutOkMoreSent(b0, reps, peers);
    AllSendsOkLater(w, b, peers, GapSends(gaps, ys));
    OutOkMoreSent(b, GapSends(gaps, ys), peers);
  }

  lemma RepairPlanOk(w: Writer, g: Guid, peers: map<Guid, Peer>)
    requires WriterOk(w) && PeersOk(w, peers) && g in w.proxies
    ensures var data, gaps := Plan(w, [g], Requested, true), Plan(w, [g], Requested, false);
      var xs, ys := List(data.Keys), List(gaps.Keys);
      && AllSendsOk(w, peers, RepairSends(w, data, xs)) && AllSendsOk(w, peers, GapSends(gaps, ys))
      && forall i :: 0 <= i < |xs| ==> xs[i] <= w.processed
  {
    var data, gaps := Plan(w, [g], Requested, true), Plan(w, [g], Requested, false);
    RepairSendsOk(w, peers, g, List(data.Keys));
    forall n | n in gaps ensures n <= w.processed {
      assert Wants(w, g, Requested, n, false);
      assert EntryOk(w, peers[g], n, w.proxies[g].state[n]);
    }
    GapSendsOk(w, peers, [g], Requested, List(gaps.Keys));
  }

  lemma OkRepair(w: Writer, g: Guid, peers: map<Guid, Peer>)
    requires WriterOk(w) && PeersOk(w, peers) && OutOk(w, peers) && g in w.proxies
    ensures var r := Repair(w, g); WriterOk(r) && PeersOk(r, peers) && OutOk(r, peers)
  {
    var data, gaps := Plan(w, [g], Requested, true), Plan(w, [g], Requested, false);
    var a := w.(proxies := w.proxies[g := DrainProxy(w.proxies[g], Requested)]);
    ProxyOkDrain(w, peers[g], w.proxies[g], Requested);
    OkSetProxy(w, g, a.proxies[g], peers);
    assert Agreement(a);
    AllSendsOkLater(w, a, peers, w.out);
    RepairPlanOk(w, g, peers);
    OkRepairSteps(w, a, data, List(data.Keys), gaps, List(gaps.Keys), peers);
  }

  lemma OkAnswerNack(w: Writer, g: Guid, peers: map<Guid, Peer>)
    requires WriterOk(w) && PeersOk(w, peers) && OutOk(w, peers) && g in w.proxies
    ensures var r := AnswerNack(w, g);
      WriterOk(r) && PeersOk(r, peers) && OutOk(r, peers) && r.processed == w.processed
  {
    OkRepair(w, g, peers);
    RetainedAnswerNack(w, g);
  }

  lemma OutOkRemoveAcked(w: Writer, base: int, peers: map<Guid, Peer>)
    requires WriterOk(w) && PeersOk(w, peers) && OutOk(w, peers) && base <= w.processed
    ensures var r := RemoveAcked(w, base); WriterOk(r) && PeersOk(r, peers) && OutOk(r, peers)
  {
    OkRemoveAcked(w, base, peers);
    RemoveAckedEffect(w, base);
    var r := RemoveAcked(w, base);
    assert r.proxies.Keys == w.proxies.Keys;
    AllSendsOkLater(w, r, peers, w.out);
  }

  lemma AckNackUnfolds(w: Writer, g: Guid, ack: Ack)
    requires g in w.proxies && w.anState == Waiting
    ensures HandleAckNack(w, g, ack.base, ack.req)
         == RemoveAcked(AnswerNack(NoteAck(w, g, ack.base, ack.req), g), ack.base - 1)
  {
  }

  lemma AckBelow(w: Writer, p: Peer, ack: Ack)
    requires PeerOk(w, p) && ack in p.acks
    ensures ack.base - 1 <= w.processed
  {
  }

  lemma OkAckNack(w: Writer, g: Guid, ack: Ack, peers: map<Guid, Peer>)
    requires WriterOk(w) && PeersOk(w, peers) && w.out == []
    requires g in peers && ack in peers[g].acks
    ensures var r := HandleAckNack(w, g, ack.base, ack.req); WriterOk(r) && PeersOk(r, peers) && OutOk(r, peers)
  {
    if g in w.proxies {
      AckNackUnfolds(w, g, ack);
      AckBelow(w, peers[g], ack);
      OkNoteAck(w, g, ack, peers);
      var w1 := NoteAck(w, g, ack.base, ack.req);
      OkAnswerNack(w1, g, peers);
      OutOkRemoveAcked(AnswerNack(w1, g), ack.base - 1, peers);
    }
  }

  // ---- a reader is matched ----

  /** What a new proxy owes its reader: nothing, or the newest change of all, which the
      reader either had a claim to before or cannot have heard of. */
  lemma SnapshotOwes(w: Writer, p: Peer)
    requires WriterOk(w) && PeerOk(w, p)
    requires p.durability == TransientLocal ==> w.cfg.durability == TransientLocal
    ensures var cs := Snapshot(w, p.durability);
      var owed := RelevantIn(cs);
      && (forall n :: n in owed <==> p.durability == TransientLocal && n == w.hc.last && n >= 1)
      && (forall n :: n in owed ==> n in w.hc.changes && n >= w.processed && (n in p.rel || n > p.hi))
  {
    var cs := Snapshot(w, p.durability);
    var owed := RelevantIn(cs);
    if p.durability == TransientLocal && w.hc.last >= 1 {
      assert w.hc.last in w.hc.changes by {
        if w.hc.last > w.processed {
          assert w.hc.last in w.hc.unprocessed;
        }
      }
      assert Max(w.hc.changes.Keys) == w.hc.last;
      assert w.hc.last in owed;
    }
  }

  lemma JoinPeerOk(w: Writer, r: Writer, p: Peer, owed: set<int>)
    requires Numbered(w) && PeerOk(w, p) && r.hc == w.hc && r.processed == w.processed
    requires forall n :: n in owed <==> p.durability == TransientLocal && n == w.hc.last && n >= 1
    requires forall n :: n in owed ==> n in p.rel || n > p.hi
    ensures PeerOk(r, p.(rel := owed))
  {
    var q := p.(rel := owed);
    forall i | 0 <= i < |p.link|
      ensures MsgOk(q, w.hc.written, p.link[i].msg, p.link[i].top)
    {
      assert MsgOk(p, w.hc.written, p.link[i].msg, p.link[i].top);
    }
    forall a | a in q.acks
      ensures AckOk(q, a)
    {
      assert AckOk(p, a);
    }
  }

  lemma OkAddReader(w: Writer, g: Guid, restCompatible: bool, peers: map<Guid, Peer>)
    requires WriterOk(w) && PeersOk(w, peers) && g in peers && g !in w.proxies
    ensures var p := peers[g];
      var r := AddReader(w, g, OwnLocators(p), ReaderQos(p.durability, restCompatible));
      g in r.proxies ==>
        && r.out == w.out && WriterOk(r)
        && PeersOk(r, peers[g := p.(rel := RelevantIn(r.proxies[g].state))])
  {
    var p := peers[g];
    var qos := ReaderQos(p.durability, restCompatible);
    var r := AddReader(w, g, OwnLocators(p), qos);
    if Compatible(w.cfg, qos) {
      YieldGrows(w);
      OkGrown(w, Yield(w), peers);
      var w1 := Yield(w);
      AgreementAddReader(w, g, OwnLocators(p), qos);
      SnapshotOwes(w1, p);
      var owed := RelevantIn(r.proxies[g].state);
      JoinPeerOk(w1, r, p, owed);
      JoinProxyOk(w1, r, p, owed);
      OkJoined(w1, r, g, p.(rel := owed), peers);
    }
  }

  lemma OkJoined(w: Writer, r: Writer, g: Guid, q: Peer, peers: map<Guid, Peer>)
    requires PeersOk(w, peers) && g in peers && g in r.proxies && r == w.(proxies := w.proxies[g := r.proxies[g]])
    requires PeerOk(r, q) && ProxyOk(r, q, r.proxies[g])
    ensures PeersOk(r, peers[g := q])
  {
    forall h | h in peers && h != g
      ensures PeerOk(r, peers[h])
      ensures h in r.proxies ==> ProxyOk(r, peers[h], r.proxies[h])
    {
      PeerOkElsewhere(w, r, peers[h]);
      if h in r.proxies {
        ProxyOkElsewhere(w, r, peers[h], r.proxies[h]);
      }
    }
  }

  lemma JoinProxyOk(w: Writer, r: Writer, p: Peer, owed: set<int>)
    requires Numbered(w) && r.hc == w.hc && r.processed == w.processed
    requires owed == RelevantIn(Snapshot(w, p.durability))
    requires forall n :: n in owed <==> p.durability == TransientLocal && n == w.hc.last && n >= 1
    requires forall n :: n in owed ==> n in w.hc.changes && n >= w.processed
    ensures ProxyOk(r, p.(rel := owed), Proxy(OwnLocators(p), p.durability, Snapshot(w, p.durability)))
  {
  }

  // ---- messages are put on the links ----

  ghost predicate AllMsgsOk(w: Writer, p: Peer, msgs: seq<Msg>) {
    forall j :: 0 <= j < |msgs| ==> MsgOk(p, w.hc.written, msgs[j], w.processed)
  }

  lemma {:induction false} MsgsForOk(w: Writer, g: Guid, peers: map<Guid, Peer>, out: seq<Send>)
    requires AllSendsOk(w, peers, out)
    ensures var msgs := MsgsFor(out, g);
      msgs != [] ==> g in w.proxies && g in peers && AllMsgsOk(w, peers[g], msgs)
    decreases |out|
  {
    if out != [] {
      var rest := MsgsFor(out[1..], g);
      assert AllSendsOk(w, peers, out[1..]) by {
        assert forall i :: 0 <= i < |out[1..]| ==> out[1..][i] == out[i + 1];
      }
      MsgsForOk(w, g, peers, out[1..]);
      var msgs := MsgsFor(out, g);
      assert SendOk(w, peers, out[0]);
      forall j | 0 <= j < |msgs|
        ensures MsgOk(peers[g], w.hc.written, msgs[j], w.processed)
      {
        if !IsFor(out[0], g) {
          assert msgs[j] == rest[j];
        } else if j == 0 {
          assert msgs[0] == out[0].msg;
        } else {
          assert msgs[j] == rest[j - 1];
        }
      }
    }
  }

  lemma PostedOk(w: Writer, p: Peer, msgs: seq<Msg>)
    requires PeerOk(w, p) && (msgs != [] ==> NewestOwed(w, p))
    requires AllMsgsOk(w, p, msgs)
    ensures PeerOk(w, Posted(p, msgs, w.processed))
  {
    if msgs != [] {
      var q := Posted(p, msgs, w.processed);
      forall i | 0 <= i < |q.link|
        ensures 0 <= q.link[i].top <= q.hi && MsgOk(q, w.hc.written, q.link[i].msg, q.link[i].top)
      {
        if i < |p.link| {
          assert MsgOk(p, w.hc.written, p.link[i].msg, p.link[i].top);
        } else {
          assert MsgOk(p, w.hc.written, msgs[i - |p.link|], w.processed);
        }
      }
      forall a | a in q.acks
        ensures AckOk(q, a)
      {
        assert AckOk(p, a);
      }
    }
  }

  lemma ProxyOkPosted(w: Writer, p: Peer, q: Peer, proxy: Proxy)
    requires ProxyOk(w, p, proxy)
    requires q.durability == p.durability && q.locator == p.locator && q.rel == p.rel && q.hi >= p.hi
    requires p.got.Keys <= q.got.Keys
    ensures ProxyOk(w, q, proxy)
  {
  }

  lemma PostPeerOk(s: Sys, g: Guid)
    requires WriterOk(s.w) && PeersOk(s.w, s.peers) && OutOk(s.w, s.peers) && g in s.peers
    ensures var r := Post(s);
      PeerOk(r.w, r.peers[g]) && (g in r.w.proxies ==> ProxyOk(r.w, r.peers[g], r.w.proxies[g]))
  {
    var r, p, msgs := Post(s), s.peers[g], MsgsFor(s.w.out, g);
    MsgsForOk(s.w, g, s.peers, s.w.out);
    assert g in s.w.proxies ==> ProxyOk(s.w, p, s.w.proxies[g]);
    var q := Posted(p, msgs, s.w.processed);
    PostedOk(s.w, p, msgs);
    PeerOkElsewhere(s.w, r.w, q);
    if g in s.w.proxies {
      ProxyOkPosted(s.w, p, q, s.w.proxies[g]);
      ProxyOkElsewhere(s.w, r.w, q, s.w.proxies[g]);
    }
  }

  lemma InvPost(s: Sys)
    requires WriterOk(s.w) && PeersOk(s.w, s.peers) && OutOk(s.w, s.peers)
    ensures Inv(Post(s))
  {
    var r := Post(s);
    assert WriterOk(r.w);
    forall g | g in s.peers
      ensures PeerOk(r.w, r.peers[g])
      ensures g in r.w.proxies ==> ProxyOk(r.w, r.peers[g], r.w.proxies[g])
    {
      PostPeerOk(s, g);
    }
  }

  // ---- readers act ----

  /** The answer to a heartbeat claims nothing that has not arrived. */
  lemma HeartbeatAnswerOk(p: Peer, written: seq<Payload>, cs: R.CacheState, taken: set<int>,
                          first: int, last: int, liveliness: bool)
    requires p.reader == Some(cs) && ReaderOk(p) && LinkOk(p, written)
    requires p.link != [] && p.link[0].msg == Heartbeat(first, last, liveliness) && R.HeartbeatValid(first, last)
    ensures var r := R.OnHeartbeat(cs, taken, first, last);
      ReaderOk(p.(reader := Some(r))) && AckOk(p, Ack(R.AckBase(r), R.MissingSet(r)))
  {
    var top := p.link[0].top;
    assert MsgOk(p, written, p.link[0].msg, top);
    var r := R.OnHeartbeat(cs, taken, first, last);
    forall n | n in r
      ensures n <= top <= p.hi
      ensures R.Accounted(r, n) && n in p.rel ==> n in p.got
      ensures r[n].status != R.Unknown
    {
      assert n in R.Span(first, last) <==> first <= n <= last;
    }
    var base := R.AckBase(r);
    assert base <= top + 1;
    forall n | n in p.rel && n <= base - 1
      ensures n in p.got
    {
      if first <= n <= last {
        assert n in R.Span(first, last);
        assert n in r && n !in R.MissingSet(r);
        assert R.Accounted(r, n);
      }
    }
  }

  lemma ReceiveOk(w: Writer, p: Peer, taken: set<int>)
    requires PeerOk(w, p) && p.link != []
    ensures var q := Receive(p, p.link[0].msg, taken);
      && PeerOk(w, q) && p.got.Keys <= q.got.Keys
      && q == p.(reader := q.reader, got := q.got, acks := q.acks)
  {
    hide R.OnHeartbeat, NewestOwed, AckOk, R.AckBase, R.MissingSet;
    var q := Receive(p, p.link[0].msg, taken);
    assert MsgOk(p, w.hc.written, p.link[0].msg, p.link[0].top);
    match p.reader
    case None =>
    case Some(cs) =>
      match p.link[0].msg
      case Data(n, payload) => MoreGotOk(w, p, q);
      case Gap(n) => MoreGotOk(w, p, q);
      case Heartbeat(first, last, liveliness) =>
        if R.HeartbeatValid(first, last) {
          HeartbeatAnswerOk(p, w.hc.written, cs, taken, first, last, liveliness);
          var r := R.OnHeartbeat(cs, taken, first, last);
          AnsweredOk(w, p, r, Ack(R.AckBase(r), R.MissingSet(r)));
        }
  }

  lemma AnsweredOk(w: Writer, p: Peer, r: R.CacheState, ack: Ack)
    requires PeerOk(w, p) && ReaderOk(p.(reader := Some(r))) && AckOk(p, ack)
    ensures PeerOk(w, p.(reader := Some(r), acks := p.acks + {ack}))
  {
    hide NewestOwed;
    var q := p.(reader := Some(r), acks := p.acks + {ack});
    assert LinkOk(q, w.hc.written) by {
      forall i | 0 <= i < |q.link| ensures MsgOk(q, w.hc.written, q.link[i].msg, q.link[i].top) {
        assert MsgOk(p, w.hc.written, p.link[i].msg, p.link[i].top);
      }
    }
    forall a | a in q.acks ensures AckOk(q, a) {
      assert AckOk(p, a);
    }
    assert ReaderOk(q) by {
      assert q.reader == Some(r) && q.link == p.link;
    }
    assert NewestOwed(w, q) <==> NewestOwed(w, p) by {
      NewestOwedSame(w, p, q);
    }
  }

  lemma NewestOwedSame(w: Writer, p: Peer, q: Peer)
    requires q.durability == p.durability && q.rel == p.rel
    ensures NewestOwed(w, q) <==> NewestOwed(w, p)
  {
  }

  lemma MoreGotOk(w: Writer, p: Peer, q: Peer)
    requires PeerOk(w, p) && q == p.(reader := q.reader, got := q.got)
    requires p.got.Keys <= q.got.Keys && GotOk(q, w.hc.written) && ReaderOk(q)
    ensures PeerOk(w, q)
  {
  }

  lemma DropHeadOk(w: Writer, p: Peer)
    requires PeerOk(w, p) && p.link != []
    ensures PeerOk(w, p.(link := p.link[1..]))
  {
  }

  lemma InvSetPeer(s: Sys, g: Guid, q: Peer)
    requires Inv(s) && g in s.peers && PeerOk(s.w, q)
    requires var p := s.peers[g];
      q.durability == p.durability && q.locator == p.locator && q.rel == p.rel && q.hi == p.hi
      && p.got.Keys <= q.got.Keys
    ensures Inv(SetPeer(s, g, q))
  {
    var r := SetPeer(s, g, q);
    forall h | h in r.w.proxies
      ensures ProxyOk(r.w, r.peers[h], r.w.proxies[h])
    {
      if h == g {
        ProxyOkPosted(s.w, s.peers[g], q, s.w.proxies[g]);
      }
    }
  }

  lemma InvForget(s: Sys, prefix: GuidPrefix)
    requires Inv(s)
    ensures Inv(s.(w := RemoveReaders(s.w, prefix)))
  {
    var r := RemoveReaders(s.w, prefix);
    assert Agreement(r);
    forall g | g in s.peers
      ensures PeerOk(r, s.peers[g])
      ensures g in r.proxies ==> ProxyOk(r, s.peers[g], r.proxies[g])
    {
      PeerOkElsewhere(s.w, r, s.peers[g]);
      if g in r.proxies {
        ProxyOkElsewhere(s.w, r, s.peers[g], r.proxies[g]);
      }
    }
  }

  lemma InvBegin(s: Sys, script: seq<seq<Payload>>)
    requires Inv(s)
    ensures WriterOk(Begin(s.w, script)) && PeersOk(Begin(s.w, script), s.peers)
  {
    var r := Begin(s.w, script);
    assert Agreement(r);
    forall g | g in s.peers
      ensures PeerOk(r, s.peers[g])
      ensures g in r.proxies ==> ProxyOk(r, s.peers[g], r.proxies[g])
    {
      PeerOkElsewhere(s.w, r, s.peers[g]);
      if g in r.proxies {
        ProxyOkElsewhere(s.w, r, s.peers[g], r.proxies[g]);
      }
    }
  }

  lemma InvReaderStep(s: Sys, step: Step)
    requires Inv(s)
    requires step.ReaderFinds? || step.ReaderForgets? || step.Lose? || step.Deliver?
    ensures Inv(Apply(s, step))
  {
    match step
    case ReaderFinds(g) =>
      if g in s.peers {
        MoreGotOk(s.w, s.peers[g], s.peers[g].(reader := Some(map[])));
        InvSetPeer(s, g, s.peers[g].(reader := Some(map[])));
      }
    case ReaderForgets(g) =>
      if g in s.peers {
        MoreGotOk(s.w, s.peers[g], s.peers[g].(reader := None));
        InvSetPeer(s, g, s.peers[g].(reader := None));
      }
    case Lose(g) =>
      if g in s.peers && s.peers[g].link != [] {
        DropHeadOk(s.w, s.peers[g]);
        InvSetPeer(s, g, s.peers[g].(link := s.peers[g].link[1..]));
      }
    case Deliver(g, taken, again) =>
      if g in s.peers && s.peers[g].link != [] {
        ReceiveOk(s.w, s.peers[g], taken);
        var p := Receive(s.peers[g], s.peers[g].link[0].msg, taken);
        DropHeadOk(s.w, p);
        InvSetPeer(s, g, if again then p else p.(link := p.link[1..]));
      }
  }

  lemma InvApply(s: Sys, step: Step)
    requires Inv(s)
    ensures Inv(Apply(s, step))
  {
    match step
    case AppWrite(p) =>
      WriteGrows(s.w, p);
      OkGrown(s.w, AppWrites(s.w, p), s.peers);
    case WriteCommand(script) =>
      var w0 := Begin(s.w, script);
      InvBegin(s, script);
      OkProcessWrites(w0, s.peers);
      InvPost(Sys(ProcessWrites(w0), Owed(s.peers, s.w.proxies.Keys, Yield(w0).hc.unprocessed)));
    case HeartbeatTimer(liveliness, script) =>
      var w0 := Begin(s.w, script);
      InvBegin(s, script);
      OkHeartbeat(w0, liveliness, s.peers);
      InvPost(s.(w := SendHeartbeat(w0, liveliness)));
    case AckArrives(g, ack, script) =>
      if g in s.peers && ack in s.peers[g].acks && AckValid(ack) {
        var w0 := Begin(s.w, script);
        InvBegin(s, script);
        OkAckNack(w0, g, ack, s.peers);
        InvPost(s.(w := HandleAckNack(w0, g, ack.base, ack.req)));
      }
    case WriterFinds(g, restCompatible, script) => InvWriterFinds(s, g, restCompatible, script);
    case WriterForgets(prefix) => InvForget(s, prefix);
    case ReaderFinds(g) => InvReaderStep(s, step);
    case ReaderForgets(g) => InvReaderStep(s, step);
    case Lose(g) => InvReaderStep(s, step);
    case Deliver(g, taken, again) => InvReaderStep(s, step);
  }

  lemma InvWriterFinds(s: Sys, g: Guid, restCompatible: bool, script: seq<seq<Payload>>)
    requires Inv(s)
    ensures Inv(Apply(s, WriterFinds(g, restCompatible, script)))
  {
    if g in s.peers && g !in s.w.proxies {
      var p, w0 := s.peers[g], Begin(s.w, script);
      InvBegin(s, script);
      OkAddReader(w0, g, restCompatible, s.peers);
      var w1 := AddReader(w0, g, OwnLocators(p), ReaderQos(p.durability, restCompatible));
      if g in w1.proxies {
        var owed := RelevantIn(w1.proxies[g].state);
        InvPost(SetPeer(s, g, p.(rel := owed)).(w := w1));
      }
    }
  }

  lemma {:induction false} InvRun(s: Sys, steps: seq<Step>)
    requires Inv(s)
    ensures Inv(Run(s, steps))
    decreases |steps|
  {
    if steps != [] {
      InvApply(s, steps[0]);
      InvRun(Apply(s, steps[0]), steps[1..]);
    }
  }

  /** No loss, over every run: a change that is relevant to a reader still matched and
      that the writer has dropped from its cache was accepted by that reader, with the
      payload that was written. */
  lemma NothingForgottenUnreceived(s: Sys, steps: seq<Step>, g: Guid, n: int)
    requires Start(s)
    requires var r := Run(s, steps);
      g in r.w.proxies && g in r.peers && n in r.peers[g].rel && n !in r.w.hc.changes
    ensures var r := Run(s, steps);
      1 <= n <= |r.w.hc.written| && n in r.peers[g].got && r.peers[g].got[n] == r.w.hc.written[n - 1]
  {
    hide Run, Apply;
    InvRun(s, steps);
    InvKeepsPromise(Run(s, steps), g, n);
  }

  lemma InvKeepsPromise(r: Sys, g: Guid, n: int)
    requires Inv(r) && g in r.w.proxies && g in r.peers && n in r.peers[g].rel && n !in r.w.hc.changes
    ensures 1 <= n <= |r.w.hc.written| && n in r.peers[g].got && r.peers[g].got[n] == r.w.hc.written[n - 1]
  {
  }

  /** What "relevant" means for a change still in the cache: the proxy's own entry says so. */
  lemma RelevantIsWhatTheProxySays(s: Sys, steps: seq<Step>, g: Guid, n: int)
    requires Start(s)
    requires var r := Run(s, steps); g in r.w.proxies && n in Settled(r.w)
    ensures var r := Run(s, steps);
      g in r.peers && n in r.w.proxies[g].state
      && (n in r.peers[g].rel <==> r.w.proxies[g].state[n].relevant)
  {
    hide Run, Apply;
    InvRun(s, steps);
    InvKnowsRelevance(Run(s, steps), g, n);
  }

  lemma InvKnowsRelevance(r: Sys, g: Guid, n: int)
    requires Inv(r) && g in r.w.proxies && n in Settled(r.w)
    ensures g in r.peers && n in r.w.proxies[g].state
    ensures n in r.peers[g].rel <==> r.w.proxies[g].state[n].relevant
  {
  }

  /** A payload that cannot arrive blocks the writer, in every run: while the reader it is
      owed to stays matched, neither it nor any later change is acknowledged or leaves the
      cache. */
  lemma UndeliverableBlocks(s: Sys, steps: seq<Step>, g: Guid, n: int, m: int)
    requires Start(s)
    requires var r := Run(s, steps);
      && g in r.w.proxies && g in r.peers && n in r.peers[g].rel && 1 <= n <= |r.w.hc.written|
      && !Deliverable(r.w.hc.written[n - 1]) && n <= m <= r.w.processed
    ensures var r := Run(s, steps); m in r.w.hc.changes && !AckedByAll(r.w, m)
  {
    hide Run, Apply;
    InvRun(s, steps);
    InvBlocks(Run(s, steps), g, n, m);
  }

  lemma InvBlocks(r: Sys, g: Guid, n: int, m: int)
    requires Inv(r) && g in r.w.proxies && g in r.peers && n in r.peers[g].rel && 1 <= n <= |r.w.hc.written|
    requires !Deliverable(r.w.hc.written[n - 1]) && n <= m <= r.w.processed
    ensures m in r.w.hc.changes && !AckedByAll(r.w, m)
  {
    var p := r.peers[g];
    assert PeerOk(r.w, p) && ProxyOk(r.w, p, r.w.proxies[g]);
    assert n !in p.got;
    assert !GotUpTo(p, m);
    assert m in r.w.proxies[g].state;
    assert EntryOk(r.w, p, m, r.w.proxies[g].state[m]);
  }
}
