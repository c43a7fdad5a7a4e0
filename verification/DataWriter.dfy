/** The application's end of a writer (src/dds/datawriter.rs:116-166) and how the cache it
    shares with the RTPS Writer looks in WriterModel. */
module DataWriters {
  import opened Types
  import opened Ascending
  import opened HistoryCaches
  import M = WriterModel

  function NumbersOf(keys: set<Key>): set<int> {
    set k | k in keys :: k.seqNum
  }

  /** The payloads of a writer's own changes, by sequence number. */
  function Payloads(changes: map<Key, CacheChange>, guid: Guid): map<int, Payload> {
    map n | n in NumbersOf(changes.Keys) && Key(guid, n) in changes && changes[Key(guid, n)].data.Some? ::
      changes[Key(guid, n)].data.value
  }

  ghost predicate OwnChanges(changes: map<Key, CacheChange>, guid: Guid) {
    forall k :: k in changes ==> k.guid == guid && changes[k].data.Some?
  }

  lemma InPayloads(changes: map<Key, CacheChange>, guid: Guid, n: int)
    requires OwnChanges(changes, guid)
    ensures n in Payloads(changes, guid) <==> Key(guid, n) in changes
    ensures n in Payloads(changes, guid) ==> Payloads(changes, guid)[n] == changes[Key(guid, n)].data.value
  {
  }

  lemma PayloadsWith(changes: map<Key, CacheChange>, guid: Guid, change: CacheChange)
    requires OwnChanges(changes, guid) && change.writerGuid == guid && change.data.Some?
    ensures var more := changes[KeyOf(change) := change];
      OwnChanges(more, guid)
      && Payloads(more, guid) == Payloads(changes, guid)[change.seqNum := change.data.value]
  {
    var more := changes[KeyOf(change) := change];
    var a, b := Payloads(more, guid), Payloads(changes, guid)[change.seqNum := change.data.value];
    forall n
      ensures n in a <==> n in b
      ensures n in a ==> a[n] == b[n]
    {
      InPayloads(more, guid, n);
      InPayloads(changes, guid, n);
    }
    assert a == b;
  }

  lemma PayloadsWithout(changes: map<Key, CacheChange>, guid: Guid, n: int)
    requires OwnChanges(changes, guid)
    ensures OwnChanges(changes - {Key(guid, n)}, guid)
    ensures Payloads(changes - {Key(guid, n)}, guid) == Payloads(changes, guid) - {n}
  {
    var less := changes - {Key(guid, n)};
    var a, b := Payloads(less, guid), Payloads(changes, guid) - {n};
    forall m
      ensures m in a <==> m in b
      ensures m in a ==> a[m] == b[m]
    {
      InPayloads(less, guid, m);
      InPayloads(changes, guid, m);
    }
    assert a == b;
  }

  lemma {:induction false} PayloadsCount(changes: map<Key, CacheChange>, guid: Guid)
    requires OwnChanges(changes, guid)
    ensures |Payloads(changes, guid)| == |changes|
    decreases |changes|
  {
    if changes.Keys == {} {
      forall n ensures n !in Payloads(changes, guid) { InPayloads(changes, guid, n); }
      assert Payloads(changes, guid).Keys == {};
    } else {
      var k := Member(changes.Keys);
      PayloadsWithout(changes, guid, k.seqNum);
      InPayloads(changes, guid, k.seqNum);
      assert (changes - {k}).Keys == changes.Keys - {k};
      assert (Payloads(changes, guid) - {k.seqNum}).Keys == Payloads(changes, guid).Keys - {k.seqNum};
      PayloadsCount(changes - {k}, guid);
    }
  }

  /** A writer's own changes, numbered up to `last`, filed in order of their numbers. */
  ghost predicate InOrder(changes: map<Key, CacheChange>, ts2key: seq<Key>, guid: Guid, last: int) {
    && OwnChanges(changes, guid) && last >= 0 && Ascends(ts2key)
    && forall k :: k in changes ==> 1 <= k.seqNum <= last
  }

  lemma WriteIs(c: M.Cache, maxSamples: int, p: Payload)
    ensures M.Write(c, maxSamples, p)
         == if M.Full(c, maxSamples) then c
            else M.Cache(c.changes[c.last + 1 := p], c.unprocessed + {c.last + 1}, c.last + 1, c.written + [p])
  {
  }

  class DataWriter {
    const guid: Guid
    const whc: HistoryCache
    const maxSamples: int
    const history: History
    var last: int                        // last_change_sequence_number
    ghost var written: seq<Payload>

    constructor (guid: Guid, whc: HistoryCache, maxSamples: int, history: History)
      requires whc.Valid() && whc.kind == WriterCache && whc.changes == map[] && whc.unprocessed == {}
      ensures Valid() && this.guid == guid && this.whc == whc && this.maxSamples == maxSamples && this.history == history
      ensures View() == M.Cache(map[], {}, 0, [])
    {
      this.guid, this.whc, this.maxSamples, this.history, last, written := guid, whc, maxSamples, history, 0, [];
      new;
      forall k ensures k !in whc.ts2key { assert k in whc.ts2key <==> k in whc.changes; }
    }

    ghost predicate Valid()
      reads this, whc
    {
      whc.Valid() && whc.kind == WriterCache && InOrder(whc.changes, whc.ts2key, guid, last)
    }

    ghost function View(): M.Cache
      reads this, whc
    {
      M.Cache(Payloads(whc.changes, guid), whc.unprocessed, last, written)
    }

    /** One pass through the loop of writer_data_to_hc. The number is spent only when the
        cache takes the change; the loop does not end before that. */
    method TryWrite(payload: Payload, timestamp: int) returns (blocked: bool)
      requires Valid()
      modifies this, whc
      ensures Valid() && View() == M.Write(old(View()), maxSamples, payload)
      ensures blocked <==> M.Full(old(View()), maxSamples)
    {
      hide Agree, AllCached, InOrder, Payloads;
      var change := CacheChange(Alive, guid, last + 1, timestamp, Some(payload));
      ghost var before := View();
      blocked := Offer(change);
      WriteIs(before, maxSamples, payload);
      if !blocked {
        Spend(payload);
      }
    }

    method Spend(payload: Payload)
      requires whc.Valid() && whc.kind == WriterCache && InOrder(whc.changes, whc.ts2key, guid, last + 1)
      modifies this
      ensures Valid() && View() == M.Cache(Payloads(whc.changes, guid), whc.unprocessed, old(last) + 1, old(written) + [payload])
    {
      last := last + 1;
      written := written + [payload];
    }

    /** A change under a new number is taken or has to wait. */
    method Offer(change: CacheChange) returns (blocked: bool)
      requires Valid() && change.writerGuid == guid && change.seqNum == last + 1 && change.data.Some?
      modifies whc
      ensures blocked <==> M.Full(old(View()), maxSamples)
      ensures blocked ==> Valid() && View() == old(View())
      ensures !blocked ==>
        && whc.Valid() && InOrder(whc.changes, whc.ts2key, guid, last + 1)
        && Payloads(whc.changes, guid) == old(View()).changes[change.seqNum := change.data.value]
        && whc.unprocessed == old(View()).unprocessed + {change.seqNum}
    {
      hide KindsAgree, AllCached, Payloads, OldestGoes;
      assert KeyOf(change) !in whc.changes;
      Appended(whc.ts2key, whc.changes.Keys, KeyOf(change));
      PayloadsCount(whc.changes, guid);
      PayloadsWith(whc.changes, guid, change);
      var outcome := whc.AddChange(change, true, maxSamples, history);
      blocked := outcome == WouldBlock;
      assert whc.changes == if blocked then old(whc.changes) else old(whc.changes)[KeyOf(change) := change];
    }

    method WriteEach(payloads: seq<Payload>, timestamp: int)
      requires Valid()
      modifies this, whc
      ensures Valid() && View() == M.WriteAll(old(View()), maxSamples, payloads)
    {
      var i := 0;
      assert payloads[0..] == payloads;
      while i < |payloads|
        invariant i <= |payloads| && Valid()
        invariant M.WriteAll(View(), maxSamples, payloads[i..]) == M.WriteAll(old(View()), maxSamples, payloads)
      {
        assert payloads[i..][0] == payloads[i] && payloads[i..][1..] == payloads[i + 1..];
        var blocked := TryWrite(payloads[i], timestamp);
        i := i + 1;
      }
      assert payloads[i..] == [];
    }
  }

  lemma Appended(s: seq<Key>, keys: set<Key>, k: Key)
    requires Ascends(s) && Lists(s, keys) && forall m :: m in keys ==> m.seqNum < k.seqNum
    ensures Ascends(s + [k])
  {
  }

  lemma WithoutAscends(s: seq<Key>, k: Key)
    requires Ascends(s)
    ensures Ascends(Without(s, k))
  {
    hide Without;
    if k in s {
      var i :| 0 <= i < |s| && s[i] == k;
      assert forall j :: 0 <= j < i ==> s[j] != k;
      WithoutAt(s, k, i);
      var r := s[..i] + s[i + 1..];
      forall a, b | 0 <= a < b < |r| ensures Before(r[a], r[b]) {
        var c, d := if a < i then a else a + 1, if b < i then b else b + 1;
        assert r[a] == s[c] && r[b] == s[d];
      }
    } else {
      WithoutAbsent(s, k);
    }
  }
}
