/** The reader of module Delivery is the Reader of module StatefulReaders: what arrives on a
    link changes its record, and is answered, as Delivery.Receive says. */
module ReaderSteps {
  import opened Types
  import opened Ascending
  import opened WriterProxies
  import D = Delivery
  import H = HistoryCaches
  import M = WriterModel
  import S = StatefulReaders
  import Sets = SequenceNumberSets

  /** An ACKNACK is dropped on arrival exactly when the set it carries is not valid. */
  lemma AnswerFits(cs: CacheState)
    ensures Sets.IsValid(S.AnswerState(cs)) <==> D.AckValid(D.Ack(AckBase(cs), MissingSet(cs)))
  {
    var missing := List(MissingSet(cs));
    S.MissingListed(cs);
    Sets.ValidWhenNarrow(AckBase(cs), missing);
    if missing != [] {
      var last := missing[|missing| - 1];
      assert last in missing;
      forall n | n in MissingSet(cs)
        ensures n <= last
      {
        assert n in missing;
      }
    }
  }

  /** What Delivery knows of a reader's view of one writer. */
  ghost function RecordOf(view: map<Guid, CacheState>, w: Guid): Option<CacheState> {
    if w in view then Some(view[w]) else None
  }

  predicate Answers(p: D.Peer, msg: M.Msg) {
    p.reader.Some? && msg.Heartbeat? && HeartbeatValid(msg.first, msg.last)
  }

  function ChangeOf(w: Guid, n: int, payload: Payload, timestamp: int): H.CacheChange {
    H.CacheChange(H.Alive, w, n, timestamp, Some(payload))
  }

  /** Of writer `w` the cache holds only what has been accepted, as it was accepted. */
  ghost predicate CacheOf(changes: map<H.Key, H.CacheChange>, w: Guid, got: map<int, Payload>) {
    forall k :: k in changes && k.guid == w ==> k.seqNum in got && changes[k].data == Some(got[k.seqNum])
  }

  /** A DATA that comes again carries what it carried before, so the cache does not panic. */
  lemma NoPanic(r: S.Reader, w: Guid, p: D.Peer, written: seq<Payload>, n: int, payload: Payload, top: int, timestamp: int)
    requires r.reliable && CacheOf(r.rhc.changes, w, p.got)
    requires D.GotOk(p, written) && D.MsgOk(p, written, M.Data(n, payload), top)
    ensures H.OutcomeFor(H.ReaderCache, r.rhc.changes, ChangeOf(w, n, payload, timestamp), true, r.maxSamples) != H.Panicked
  {
    H.AddingPanics(H.ReaderCache, r.rhc.changes, ChangeOf(w, n, payload, timestamp), true, r.maxSamples);
  }

  /** What a reliable reader's cache holds after an offer is as before or the change offered. */
  lemma OfferedKeeps(c: H.HistoryCache, change: H.CacheChange, outcome: H.AddOutcome, maxSamples: int, history: History,
                     w: Guid, got: map<int, Payload>)
    requires CacheOf(c.changes, w, got)
    requires change.writerGuid == w && change.data.Some?
    requires change.seqNum in got ==> got[change.seqNum] == change.data.value
    ensures CacheOf(c.Offered(change, outcome, maxSamples, history), w, got[change.seqNum := change.data.value])
  {
  }

  lemma GapNamesOne(n: int)
    ensures var s := Sets.FromList(n + 1, []); Sets.WordsMatch(s) && s.base == n + 1 && Sets.Numbers(s) == []
  {
    Sets.NoNumbers(n + 1);
  }

  method HearData(r: S.Reader, w: Guid, n: int, payload: Payload, timestamp: int,
                  ghost p: D.Peer, ghost written: seq<Payload>, ghost top: int)
    requires r.Valid() && r.reliable && w !in r.unmatched && CacheOf(r.rhc.changes, w, p.got)
    requires D.GotOk(p, written) && D.MsgOk(p, written, M.Data(n, payload), top)
    modifies r, r.rhc, (set g | g in r.matched :: r.matched[g])`cacheState, (set g | g in r.unmatched :: r.unmatched[g])`cacheState
    ensures r.Valid() && r.sent == old(r.sent)
    ensures r.View() == if w in old(r.View()) then old(r.View())[w := WithReceived(old(r.View())[w], n)] else old(r.View())
    ensures CacheOf(r.rhc.changes, w, if w in old(r.View()) then p.got[n := payload] else p.got)
  {
    hide S.Reader.Valid, WithReceived, S.Advanced, H.OutcomeFor, H.Stored;
    ghost var change := ChangeOf(w, n, payload, timestamp);
    ghost var offered := H.OutcomeFor(H.ReaderCache, r.rhc.changes, change, true, r.maxSamples);
    NoPanic(r, w, p, written, n, payload, top, timestamp);
    OfferedKeeps(r.rhc, change, offered, r.maxSamples, r.history, w, p.got);
    var outcome := r.AddChange(w, ChangeOf(w, n, payload, timestamp));
  }

  /** One message of a user-defined writer, as the message receiver passes it on: a
      HEARTBEAT whose range is not valid and a DATA that cannot be read go no further, and
      a GAP names one number. What Delivery keeps of messages and of what has been accepted
      is all that is asked for. */
  method Hear(r: S.Reader, w: Guid, msg: M.Msg, timestamp: int, ghost p: D.Peer, ghost written: seq<Payload>, ghost top: int)
    requires r.Valid() && r.reliable && r.responseDelayZero && w !in r.unmatched
    requires p.reader == RecordOf(r.View(), w) && CacheOf(r.rhc.changes, w, p.got)
    requires D.GotOk(p, written) && D.MsgOk(p, written, msg, top)
    modifies r, r.rhc, (set g | g in r.matched :: r.matched[g])`cacheState, (set g | g in r.unmatched :: r.unmatched[g])`cacheState
    ensures r.Valid()
    ensures var q := D.Receive(p, msg, old(r.TakenFrom(w)));
      && q.reader == RecordOf(r.View(), w) && CacheOf(r.rhc.changes, w, q.got)
      && (Answers(p, msg) ==>
            && q.reader.Some? && q.acks == p.acks + {D.Ack(AckBase(q.reader.value), MissingSet(q.reader.value))}
            && r.sent == old(r.sent) + [S.AckNack(w, S.AnswerState(q.reader.value))])
      && (!Answers(p, msg) ==> q.acks == p.acks && r.sent == old(r.sent))
    ensures forall g :: g != w ==> RecordOf(r.View(), g) == old(RecordOf(r.View(), g))
  {
    hide S.Reader.Valid, OnHeartbeat, S.AnswerState, WithReceived, WithIrrelevant, S.Skipped, S.Without, CacheOf, D.GotOk;
    match msg
    case Data(n, payload) =>
      if Deliverable(payload) {
        HearData(r, w, n, payload, timestamp, p, written, top);
      }
    case Gap(n) =>
      GapNamesOne(n);
      S.OneNumberGap(old(r.Heard(w)), n);
      r.HandleGap(w, n, Sets.FromList(n + 1, []));
    case Heartbeat(first, last, liveliness) =>
      if first > 0 && last >= 0 && last >= first - 1 {
        r.HandleHeartbeat(w, first, last, false, liveliness);
      }
  }
}
