/** The RTPS StatefulReader as the object its handlers update (src/rtps/reader.rs:129-305,
    550-784). */
module StatefulReaders {
  import opened Types
  import opened Ascending
  import opened WriterProxies
  import H = HistoryCaches
  import P = WriterProxyClass
  import Sets = SequenceNumberSets

  /** What a reader waits for before it hands changes to the application. */
  datatype ReaderState = Initial | Waiting(waitList: set<int>) | Expect(next: int)

  datatype AckNack = AckNack(writer: Guid, state: Sets.NumberSet)

  // ---- what the application gets ----

  /** What of a reader decides when changes become readable. */
  datatype Shelf = Shelf(
    state: map<Guid, ReaderState>,
    cached: set<H.Key>,
    ready: set<H.Key>,
    signals: nat)

  /** What reaches a reliable reader from a writer; after a DATA the cache holds `cached`. */
  datatype Arrival =
    | Data(writer: Guid, n: int, cached: set<H.Key>)
    | Gap(writer: Guid, nums: set<int>)
    | Beat(writer: Guid, record: CacheState)      // a HEARTBEAT that is answered

  ghost function Put(s: Shelf, a: Arrival): Shelf {
    match a
    case Data(w, n, cached) =>
      var done := Completes(s.state, w, n);
      Shelf(Advanced(s.state, w, n), cached, if done then cached else s.ready * cached, s.signals + if done then 1 else 0)
    case Gap(w, nums) => s.(state := Without(s.state, w, nums))
    case Beat(w, record) =>
      var whole := w in s.state && MissingSet(record) == {};
      s.(state := Answering(s.state, w, record),
         ready := if whole then s.cached else s.ready,
         signals := s.signals + if whole && s.cached != {} then 1 else 0)
  }

  // ---- GAP ----

  /** The numbers a GAP names: from its start up to its base, and those of its list. */
  function GapNumbers(start: int, base: int, list: seq<int>): set<int> {
    Span(start, base - 1) + NumbersIn(list)
  }

  ghost function Skipped(cs: CacheState, nums: set<int>): CacheState {
    map n | n in cs.Keys + nums :: if n in nums then ChangeFromWriter(Received, false) else cs[n]
  }

  lemma SkippedNone(cs: CacheState)
    ensures Skipped(cs, {}) == cs
  {
  }

  lemma SkippedOneMore(cs: CacheState, nums: set<int>, n: int)
    ensures Skipped(cs, nums + {n}) == WithIrrelevant(Skipped(cs, nums), n)
  {
  }

  /** The GAP of a user-defined writer names one number. */
  lemma OneNumberGap(cs: CacheState, n: int)
    ensures GapNumbers(n, n + 1, []) == {n} && Skipped(cs, {n}) == WithIrrelevant(cs, n)
  {
  }

  lemma {:induction false} SpanMore(first: int, last: int)
    requires first <= last + 1
    ensures Span(first, last + 1) == Span(first, last) + {last + 1}
    decreases last - first
  {
  }

  /** A wait list is only shortened while there is one. */
  function Without(state: map<Guid, ReaderState>, w: Guid, nums: set<int>): map<Guid, ReaderState> {
    if w in state && state[w].Waiting? then state[w := Waiting(state[w].waitList - nums)] else state
  }

  class Reader {
    const guid: Guid
    const reliable: bool
    const maxSamples: int
    const history: History
    const responseDelayZero: bool        // heartbeat_response_delay
    const rhc: H.HistoryCache
    var matched: map<Guid, P.WriterProxy>
    var unmatched: map<Guid, P.WriterProxy>
    var state: map<Guid, ReaderState>    // writer_communication_state
    var sent: seq<AckNack>
    var available: nat                   // how often DataAvailable was signalled

    constructor (guid: Guid, reliable: bool, maxSamples: int, history: History, responseDelayZero: bool, rhc: H.HistoryCache)
      requires rhc.Valid() && rhc.kind == H.ReaderCache
      ensures Valid() && this.rhc == rhc && this.reliable == reliable && this.responseDelayZero == responseDelayZero
      ensures matched == map[] && unmatched == map[] && state == map[] && sent == []
    {
      this.guid, this.reliable, this.maxSamples, this.history := guid, reliable, maxSamples, history;
      this.responseDelayZero, this.rhc := responseDelayZero, rhc;
      matched, unmatched, state, sent, available := map[], map[], map[], [], 0;
    }

    ghost function Proxies(): set<P.WriterProxy>
      reads this
    {
      set g | g in matched :: matched[g]
    }

    ghost predicate Valid()
      reads this, rhc, Proxies(), set g | g in unmatched :: unmatched[g]
    {
      && rhc.Valid() && rhc.kind == H.ReaderCache
      && (forall g :: g in matched ==> matched[g].remoteWriterGuid == g)
      && (forall g :: g in unmatched ==> unmatched[g].remoteWriterGuid == g)
    }

    /** What is known about each matched writer. */
    ghost function View(): map<Guid, CacheState>
      reads this, Proxies()
    {
      map g | g in matched :: matched[g].cacheState
    }

    ghost function OnShelf(): Shelf
      reads this, rhc
    {
      Shelf(state, rhc.changes.Keys, rhc.ready, available)
    }

    /** A writer whose liveliness was lost is matched again when it is heard from. */
    method Rematch(w: Guid)
      requires Valid()
      modifies this`matched, this`unmatched
      ensures Valid() && unmatched == old(unmatched) - {w}
      ensures matched == if w in old(unmatched) then old(matched)[w := old(unmatched)[w]] else old(matched)
    {
      if w in unmatched {
        matched := matched[w := unmatched[w]];
        unmatched := unmatched - {w};
      }
    }

    /** A compatible writer is found: nothing is known about its changes yet. */
    method MatchedWriterAdd(w: Guid, compatible: bool)
      requires Valid()
      modifies this`matched, this`state
      ensures Valid()
      ensures w in old(matched) || !compatible ==> matched == old(matched) && state == old(state)
      ensures w !in old(matched) && compatible ==> View() == old(View())[w := map[]] && state == old(state)[w := Initial]
    {
      hide H.Agree, H.AllCached;
      if w !in matched && compatible {
        var p := new P.WriterProxy(w);
        matched := matched[w := p];
        state := state[w := Initial];
        assert forall g :: g in matched ==> View()[g] == if g == w then map[] else old(View())[g];
      }
    }

    /** A writer that is gone takes its changes along. */
    method MatchedWriterRemove(w: Guid)
      requires Valid()
      modifies this`matched, this`state, rhc
      ensures Valid() && View() == old(View()) - {w}
      ensures w in old(matched) ==>
        && state == old(state) - {w}
        && rhc.changes == map k | k in old(rhc.changes) && k.guid != w :: old(rhc.changes)[k]
    {
      hide H.Agree, H.AllCached;
      if w in matched {
        matched := matched - {w};
        rhc.RemoveChangesFromWriter(w);
        state := state - {w};
      }
      assert View() == old(View()) - {w};
    }

    // ---- handle_gap ----

    method Skip(w: Guid, p: P.WriterProxy, n: int)
      requires Valid() && w in matched && matched[w] == p
      modifies this`state, p`cacheState
      ensures Valid() && View() == old(View())[w := WithIrrelevant(old(View())[w], n)]
      ensures state == Without(old(state), w, {n})
    {
      hide H.Agree, H.AllCached;
      p.IrrelevantChangeSet(n);
      if w in state && state[w].Waiting? {
        state := state[w := Waiting(state[w].waitList - {n})];
      }
      assert forall g :: g in matched ==>
        View()[g] == if g == w then WithIrrelevant(old(View())[w], n) else old(View())[g];
    }

    method SkipAll(w: Guid, p: P.WriterProxy, start: int, base: int, list: seq<int>)
      requires Valid() && w in matched && matched[w] == p
      modifies this`state, p`cacheState
      ensures Valid() && w in old(View()) && View() == old(View())[w := Skipped(old(View())[w], GapNumbers(start, base, list))]
      ensures state == Without(old(state), w, GapNumbers(start, base, list))
    {
      hide Valid, View, Skipped, Without, WithIrrelevant, Span, NumbersIn;
      ViewHas(w);
      ghost var before, st, done := View(), state, Span(start, start - 1);
      SkippingStarts(before[w], st, w, start);
      assert before[w := before[w]] == before;
      var n := start;
      while n < base
        invariant start <= n && (if start <= base then n <= base else n == start) && done == Span(start, n - 1)
        invariant Valid() && w in matched && matched[w] == p && w in View()
        invariant View() == before[w := Skipped(before[w], done)] && state == Without(st, w, done)
      {
        SkippingGoesOn(before[w], st, w, done, n);
        SpanMore(start, n - 1);
        Skip(w, p, n);
        done := done + {n};
        n := n + 1;
      }
      SpanEmpty(start, base - 1);
      assert list[..0] == [];
      assert done == Span(start, base - 1);
      PlusNone(done);
      var i := 0;
      while i < |list|
        invariant i <= |list| && done == Span(start, base - 1) + NumbersIn(list[..i])
        invariant Valid() && w in matched && matched[w] == p && w in View()
        invariant View() == before[w := Skipped(before[w], done)] && state == Without(st, w, done)
      {
        SkippingGoesOn(before[w], st, w, done, list[i]);
        NumbersInMore(list, i);
        Skip(w, p, list[i]);
        done := done + {list[i]};
        i := i + 1;
      }
      assert list[..i] == list;
    }

    lemma ViewHas(w: Guid)
      ensures w in View() <==> w in matched
      ensures w in matched ==> View()[w] == matched[w].cacheState
    {
    }

    /** Everything the GAP names counts as received, and nobody waits for it. Changes that
        are complete now are not handed over before the next heartbeat or DATA. */
    method HandleGap(w: Guid, start: int, gapList: Sets.NumberSet)
      requires Valid() && Sets.WordsMatch(gapList)
      modifies this`matched, this`unmatched, this`state,
               (set g | g in matched :: matched[g])`cacheState, (set g | g in unmatched :: unmatched[g])`cacheState
      ensures Valid() && rhc.ready == old(rhc.ready)
      ensures var nums := GapNumbers(start, gapList.base, Sets.Numbers(gapList));
        if w in old(matched) || w in old(unmatched)
        then View() == old(View())[w := Skipped(old(Heard(w)), nums)] && OnShelf() == Put(old(OnShelf()), Gap(w, nums))
        else View() == old(View()) && OnShelf() == old(OnShelf())
    {
      hide Valid, View, Heard, Skipped, Without, GapNumbers, Sets.Numbers;
      Rematched(w);
      if w in matched {
        var nums := NumbersOf(gapList);
        SkipAll(w, matched[w], start, gapList.base, nums);
      }
    }

    method NumbersOf(s: Sets.NumberSet) returns (nums: seq<int>)
      requires Valid() && Sets.WordsMatch(s)
      ensures Valid() && View() == old(View()) && nums == Sets.Numbers(s)
    {
      nums := Sets.Set(s);
    }

    // ---- handle_heartbeat ----

    /** Numbers of `w` that the application has taken. */
    ghost function TakenFrom(w: Guid): set<int>
      reads rhc
    {
      set k | k in rhc.taken && k.guid == w :: k.seqNum
    }

    /** Entries of taken changes go, the range is recorded, what lies below it is lost. */
    method Record(w: Guid, p: P.WriterProxy, first: int, last: int)
      requires Valid() && w in matched && matched[w] == p
      modifies rhc, p`cacheState
      ensures Valid() && rhc.changes == old(rhc.changes) && rhc.ready == old(rhc.ready)
      ensures p.cacheState == OnHeartbeat(old(p.cacheState), old(TakenFrom(w)), first, last)
    {
      hide H.Agree, H.AllCached, WithLost, WithMissing;
      ghost var nums := set n | n in TakenFrom(w) && n < first;
      var taken := rhc.GetTakenLessThan(w, first);
      DropTaken(p, taken);
      p.MissingChangesUpdate(first, last);
      p.LostChangesUpdate(first);
      forall n ensures n in nums <==> exists k :: k in taken && k.seqNum == n {
        if n in nums {
          var k :| k in old(rhc.taken) && k.guid == w && k.seqNum == n;
          assert k in taken;
        }
      }
      SameDropped(old(p.cacheState), taken, nums);
    }

    method DropTaken(p: P.WriterProxy, taken: set<H.Key>)
      modifies p`cacheState
      ensures p.cacheState == Dropped(old(p.cacheState), taken)
    {
      var rest := taken;
      DroppedNone(p.cacheState);
      assert taken - rest == {};
      while rest != {}
        invariant rest <= taken && p.cacheState == Dropped(old(p.cacheState), taken - rest)
        decreases |rest|
      {
        var k := Pick(rest);
        DroppedOneMore(old(p.cacheState), taken - rest, k);
        p.RemoveCacheState(k.seqNum);
        assert taken - (rest - {k}) == taken - rest + {k};
        rest := rest - {k};
      }
      assert taken - rest == taken;
    }

    method Signal(flushed: bool)
      requires Valid()
      modifies this`available
      ensures Valid() && View() == old(View()) && available == old(available) + if flushed then 1 else 0
    {
      if flushed {
        available := available + 1;
      }
    }

    method Missing(w: Guid) returns (missing: seq<int>)
      requires Valid() && w in matched
      ensures Valid() && View() == old(View()) && w in View() && missing == List(MissingSet(View()[w]))
    {
      hide H.Agree, H.AllCached, List, MissingSet;
      missing := matched[w].MissingChanges();
    }

    method NextExpected(w: Guid) returns (next: int)
      requires Valid() && w in matched
      ensures Valid() && View() == old(View()) && w in View() && next == AvailableMax(View()[w]) + 1
    {
      hide H.Agree, H.AllCached;
      var max := matched[w].AvailableChangesMax();
      next := max + 1;
    }

    /** Nothing is missing: the next number is expected, and all changes may be read. */
    method ExpectNext(w: Guid, next: int)
      requires Valid()
      modifies this`state, this`available, rhc
      ensures Valid() && View() == old(View()) && rhc.changes == old(rhc.changes)
      ensures state == if w in old(state) then old(state)[w := Expect(next)] else old(state)
      ensures rhc.ready == if w in old(state) then rhc.changes.Keys else old(rhc.ready)
      ensures available == old(available) + if w in old(state) && rhc.changes.Keys != {} then 1 else 0
    {
      hide H.Agree, H.AllCached;
      assert rhc.changes == map[] <==> rhc.changes.Keys == {};
      if w in state {
        state := state[w := Expect(next)];
        var flushed := rhc.Flush();
        Signal(flushed);
      }
    }

    method WaitFor(w: Guid, missing: set<int>)
      requires Valid()
      modifies this`state
      ensures Valid() && View() == old(View())
      ensures state == if w in old(state) then old(state)[w := Waiting(missing)] else old(state)
    {
      if w in state {
        state := state[w := Waiting(missing)];
      }
    }

    method Send(w: Guid, base: int, missing: seq<int>)
      requires Valid() && Sets.AllFrom(base, missing)
      modifies this`sent
      ensures Valid() && View() == old(View()) && sent == old(sent) + [AckNack(w, Sets.FromList(base, missing))]
    {
      hide H.Agree, H.AllCached;
      var numbers := Sets.FromVec(base, missing);
      sent := sent + [AckNack(w, numbers)];
    }

    /** The answer to a heartbeat: everything missing, from the smallest on; or nothing,
        from the number after the newest known, and then all changes may be read. */
    method HandleHbResponseTimeout(w: Guid)
      requires Valid()
      modifies this`state, this`sent, this`available, rhc
      ensures Valid() && View() == old(View()) && rhc.changes == old(rhc.changes)
      ensures w !in old(View()) ==> sent == old(sent) && OnShelf() == old(OnShelf())
      ensures w in old(View()) ==>
        var cs := old(View())[w];
        && sent == old(sent) + [AckNack(w, AnswerState(cs))]
        && OnShelf() == Put(old(OnShelf()), Beat(w, cs))
    {
      hide Valid, View, List, MissingSet, AvailableMax, NumbersIn;
      ViewHas(w);
      if w in matched {
        ghost var cs := View()[w];
        MissingListed(cs);
        var missing := Missing(w);
        var base;
        if |missing| == 0 {
          base := NextExpected(w);
          ExpectNext(w, base);
        } else {
          base := missing[0];
          WaitFor(w, NumbersIn(missing));
        }
        Send(w, base, missing);
      }
    }

    /** The heartbeat's range goes on record at the proxy of a matched writer. */
    method RecordHeartbeat(w: Guid, first: int, last: int)
      requires Valid() && w in matched
      modifies rhc, (set g | g in matched :: matched[g])`cacheState
      ensures Valid() && rhc.changes == old(rhc.changes) && rhc.ready == old(rhc.ready)
      ensures w in old(View()) && View() == old(View())[w := OnHeartbeat(old(View())[w], old(TakenFrom(w)), first, last)]
    {
      hide H.Agree, H.AllCached, OnHeartbeat, TakenFrom;
      ghost var cs := OnHeartbeat(View()[w], TakenFrom(w), first, last);
      Record(w, matched[w], first, last);
      assert forall g :: g in matched ==> View()[g] == if g == w then cs else old(View())[g];
    }

    method Rematched(w: Guid)
      requires Valid()
      modifies this`matched, this`unmatched
      ensures Valid() && (w in matched <==> w in old(matched) || w in old(unmatched))
      ensures View() == if w in matched then old(View())[w := old(Heard(w))] else old(View())
      ensures forall g :: g in matched ==> g in old(matched) || (g in old(unmatched) && g == w)
      ensures forall g :: g in matched ==> matched[g] == if g in old(unmatched) && g == w then old(unmatched)[g] else old(matched)[g]
    {
      hide H.Agree, H.AllCached;
      Rematch(w);
      assert w in matched ==> forall g :: g in matched ==> View()[g] == if g == w then old(Heard(w)) else old(View())[g];
    }

    method HandleHeartbeat(w: Guid, first: int, last: int, isFinal: bool, liveliness: bool)
      requires Valid()
      modifies this, rhc, (set g | g in matched :: matched[g])`cacheState, (set g | g in unmatched :: unmatched[g])`cacheState
      ensures Valid() && rhc.changes == old(rhc.changes)
      ensures w !in old(matched) && w !in old(unmatched) ==>
        View() == old(View()) && sent == old(sent) && OnShelf() == old(OnShelf())
      ensures w in old(matched) || w in old(unmatched) ==>
        var cs := OnHeartbeat(old(Heard(w)), old(TakenFrom(w)), first, last);
        var answers := responseDelayZero && (!isFinal || (!liveliness && MissingSet(cs) != {}));
        && View() == old(View())[w := cs]
        && sent == old(sent) + (if answers then [AckNack(w, AnswerState(cs))] else [])
        && OnShelf() == if answers then Put(old(OnShelf()), Beat(w, cs)) else old(OnShelf())
    {
      hide Valid, View, Heard, OnHeartbeat, AnswerState, TakenFrom, MissingSet, List, NumbersIn;
      Rematched(w);
      if w in matched {
        ghost var cs := OnHeartbeat(old(Heard(w)), old(TakenFrom(w)), first, last);
        RecordHeartbeat(w, first, last);
        MissingListed(cs);
        var missing := Missing(w);
        if responseDelayZero && (!isFinal || (!liveliness && |missing| > 0)) {
          HandleHbResponseTimeout(w);
        }
      }
    }

    // ---- add_change ----

    method NoteReceived(w: Guid, p: P.WriterProxy, n: int)
      requires Valid() && w in matched && matched[w] == p
      modifies p`cacheState
      ensures Valid() && w in old(View()) && View() == old(View())[w := WithReceived(old(View())[w], n)]
    {
      hide H.Agree, H.AllCached, WithReceived;
      p.ReceivedChangeSet(n);
      assert forall g :: g in matched ==> View()[g] == if g == w then WithReceived(old(View())[w], n) else old(View())[g];
    }

    /** A change that completes what the reader waits for, or is the one it expects, makes
        everything readable. */
    method Advance(w: Guid, n: int)
      requires Valid()
      modifies this`state, this`available, rhc
      ensures Valid() && View() == old(View()) && rhc.changes == old(rhc.changes)
      ensures state == Advanced(old(state), w, n)
      ensures rhc.ready == if Completes(old(state), w, n) then rhc.changes.Keys else old(rhc.ready)
      ensures available == old(available) + if Completes(old(state), w, n) then 1 else 0
    {
      hide H.Agree, H.AllCached;
      if w in state {
        match state[w] {
          case Initial =>
          case Waiting(waitList) =>
            state := state[w := Waiting(waitList - {n})];
            if waitList - {n} == {} {
              var flushed := rhc.Flush();
              available := available + 1;
            }
          case Expect(next) =>
            if n == next {
              var flushed := rhc.Flush();
              available := available + 1;
              state := state[w := Expect(next + 1)];
            }
        }
      }
    }

    method Offer(change: H.CacheChange) returns (outcome: H.AddOutcome)
      requires Valid()
      modifies rhc
      ensures Valid() && View() == old(View())
      ensures outcome == H.OutcomeFor(H.ReaderCache, old(rhc.changes), change, reliable, maxSamples)
      ensures rhc.changes == old(rhc.Offered(change, outcome, maxSamples, history))
      ensures rhc.ready == old(rhc.ready) * rhc.changes.Keys
    {
      hide H.Agree, H.AllCached, H.Stored;
      outcome := rhc.AddChange(change, reliable, maxSamples, history);
    }

    /** A reliable reader: the change counts as received even when the cache, being full,
        has discarded it. */
    method AddReliable(w: Guid, change: H.CacheChange) returns (outcome: H.AddOutcome)
      requires Valid() && reliable && w in matched
      modifies rhc, this`state, this`available, (set g | g in matched :: matched[g])`cacheState
      ensures Valid() && outcome == H.OutcomeFor(H.ReaderCache, old(rhc.changes), change, reliable, maxSamples)
      ensures rhc.changes == old(rhc.Offered(change, outcome, maxSamples, history))
      ensures outcome == H.Panicked ==> View() == old(View()) && state == old(state)
      ensures outcome != H.Panicked ==>
        && w in old(View()) && View() == old(View())[w := WithReceived(old(View())[w], change.seqNum)]
        && OnShelf() == Put(old(OnShelf()), Data(w, change.seqNum, rhc.changes.Keys))
    {
      hide Valid, View, WithReceived, Advanced, Completes, H.OutcomeFor;
      outcome := Offer(change);
      if outcome == H.Panicked {
        return;
      }
      Advance(w, change.seqNum);
      NoteReceived(w, matched[w], change.seqNum);
    }

    /** Of the cache nothing but the record of taken changes is different. */
    twostate predicate SameChanges()
      reads this, rhc
    {
      && rhc.changes == old(rhc.changes) && rhc.ts2key == old(rhc.ts2key)
      && rhc.ready == old(rhc.ready) && rhc.unprocessed == old(rhc.unprocessed)
    }

    /** Entries of taken changes are dropped; a proxy may be gone by then. */
    method DropAllTaken()
      requires Valid()
      modifies rhc, (set g | g in matched :: matched[g])`cacheState
      ensures Valid() && View() == DroppedView(old(View()), old(rhc.taken)) && rhc.taken == {} && SameChanges()
    {
      hide Valid, View, DroppedView;
      ghost var view := View();
      var taken := GetTaken();
      var rest := taken;
      DroppedViewNone(view);
      assert taken - rest == {};
      while rest != {}
        invariant rest <= taken && Valid() && View() == DroppedView(view, taken - rest)
        invariant rhc.taken == {} && SameChanges()
        decreases |rest|
      {
        var k := PickKey(rest);
        ViewHas(k.guid);
        DroppedViewOneMore(view, taken - rest, k);
        if k.guid in matched {
          DropEntry(k.guid, matched[k.guid], k.seqNum);
        }
        assert taken - (rest - {k}) == taken - rest + {k};
        rest := rest - {k};
      }
      assert taken - rest == taken;
    }

    method GetTaken() returns (taken: set<H.Key>)
      requires Valid()
      modifies rhc
      ensures Valid() && View() == old(View()) && taken == old(rhc.taken) && rhc.taken == {} && SameChanges()
    {
      hide H.Agree, H.AllCached;
      taken := rhc.GetTaken();
    }

    method PickKey(keys: set<H.Key>) returns (k: H.Key)
      requires Valid() && keys != {}
      ensures Valid() && View() == old(View()) && k in keys
    {
      k := Pick(keys);
    }

    method DropEntry(w: Guid, p: P.WriterProxy, n: int)
      requires Valid() && w in matched && matched[w] == p
      modifies p`cacheState
      ensures Valid() && w in old(View()) && View() == old(View())[w := old(View())[w] - {n}]
    {
      hide H.Agree, H.AllCached;
      p.RemoveCacheState(n);
      assert forall g :: g in matched ==> View()[g] == if g == w then old(View())[w] - {n} else old(View())[g];
    }

    /** A best-effort reader takes a change whose number is not below the one expected,
        and gives up what was skipped. */
    method AddBestEffort(w: Guid, change: H.CacheChange) returns (outcome: Option<H.AddOutcome>)
      requires Valid() && w in matched
      modifies rhc, this`available, (set g | g in matched :: matched[g])`cacheState
      ensures Valid() && state == old(state)
      ensures var view := DroppedView(old(View()), old(rhc.taken));
        && w in view
        && (outcome.Some? <==> change.seqNum > AvailableMax(view[w]))
        && View() == if outcome.Some? && outcome.value != H.Panicked
                     then view[w := TakenIn(view[w], change.seqNum)] else view
      ensures outcome.None? ==> rhc.changes == old(rhc.changes) && rhc.ready == old(rhc.ready) && available == old(available)
      ensures outcome.Some? ==>
        && outcome.value == H.OutcomeFor(H.ReaderCache, old(rhc.changes), change, reliable, maxSamples)
        && rhc.changes == old(rhc.Offered(change, outcome.value, maxSamples, history))
        && (outcome.value != H.Panicked ==> rhc.ready == rhc.changes.Keys && available == old(available) + 1)
    {
      hide Valid, View, DroppedView, TakenIn, AvailableMax;
      ViewHas(w);
      KeepsWriters(View(), rhc.taken);
      DropAllTaken();
      ViewHas(w);
      var expected := NextExpected(w);
      if change.seqNum < expected {
        return None;
      }
      var added := AddToCache(change);
      if added != H.Panicked {
        AcceptNumber(w, matched[w], change.seqNum, expected);
      }
      outcome := Some(added);
    }

    method AddToCache(change: H.CacheChange) returns (outcome: H.AddOutcome)
      requires Valid()
      modifies rhc, this`available
      ensures Valid() && View() == old(View())
      ensures outcome == H.OutcomeFor(H.ReaderCache, old(rhc.changes), change, reliable, maxSamples)
      ensures rhc.changes == old(rhc.Offered(change, outcome, maxSamples, history))
      ensures outcome != H.Panicked ==> rhc.ready == rhc.changes.Keys && available == old(available) + 1
    {
      hide H.Agree, H.AllCached, H.OutcomeFor;
      outcome := Offer(change);
      if outcome != H.Panicked {
        var flushed := rhc.Flush();
        available := available + 1;
      }
    }

    method AcceptNumber(w: Guid, p: P.WriterProxy, n: int, expected: int)
      requires Valid() && w in matched && matched[w] == p && w in View() && expected == AvailableMax(View()[w]) + 1 && n >= expected
      modifies p`cacheState
      ensures Valid() && View() == old(View())[w := TakenIn(old(View())[w], n)]
    {
      hide H.Agree, H.AllCached, WithReceived, WithLost, AvailableMax;
      p.ReceivedChangeSet(n);
      if n > expected {
        p.LostChangesUpdate(n);
      }
      assert forall g :: g in matched ==> View()[g] == if g == w then TakenIn(old(View())[w], n) else old(View())[g];
    }

    /** add_change; None: the writer is unknown, or the change comes too late. */
    method AddChange(w: Guid, change: H.CacheChange) returns (outcome: Option<H.AddOutcome>)
      requires Valid() && change.writerGuid == w
      modifies this`matched, this`unmatched, this`state, this`available, rhc, (set g | g in matched :: matched[g])`cacheState, (set g | g in unmatched :: unmatched[g])`cacheState
      ensures Valid()
      ensures w !in old(matched) && w !in old(unmatched) ==> outcome == None && View() == old(View()) && state == old(state)
      ensures outcome.None? ==> rhc.changes == old(rhc.changes) && rhc.ready == old(rhc.ready) && available == old(available)
      ensures outcome.Some? ==>
        && outcome.value == H.OutcomeFor(H.ReaderCache, old(rhc.changes), change, reliable, maxSamples)
        && rhc.changes == old(rhc.Offered(change, outcome.value, maxSamples, history))
      ensures (w in old(matched) || w in old(unmatched)) && reliable ==> outcome.Some?
      ensures outcome.Some? && outcome.value != H.Panicked && reliable ==>
        && View() == old(View())[w := WithReceived(old(Heard(w)), change.seqNum)]
        && OnShelf() == Put(old(OnShelf()), Data(w, change.seqNum, rhc.changes.Keys))
      ensures outcome.Some? && outcome.value != H.Panicked && !reliable ==>
        rhc.ready == rhc.changes.Keys && available == old(available) + 1
      ensures (w in old(matched) || w in old(unmatched)) && !reliable ==>
        var view := DroppedView(old(View())[w := old(Heard(w))], old(rhc.taken));
        && state == old(state)
        && w in view && (outcome.Some? <==> change.seqNum > AvailableMax(view[w]))
        && View() == if outcome.Some? && outcome.value != H.Panicked
                     then view[w := TakenIn(view[w], change.seqNum)] else view
    {
      hide Valid, View, Heard, DroppedView, TakenIn, AvailableMax, WithReceived, H.OutcomeFor, Advanced, Completes;
      Rematched(w);
      if w !in matched {
        outcome := None;
      } else if reliable {
        var added := AddReliable(w, change);
        outcome := Some(added);
      } else {
        outcome := AddBestEffort(w, change);
      }
    }

    /** What is known about a writer when it is heard from, matched or not. */
    ghost function Heard(w: Guid): CacheState
      reads this, Proxies(), set g | g in unmatched :: unmatched[g]
    {
      if w in unmatched then unmatched[w].cacheState else if w in matched then matched[w].cacheState else map[]
    }
  }

  /** With an answer the reader starts waiting for what is missing, or expects the next. */
  ghost function Answering(state: map<Guid, ReaderState>, w: Guid, cs: CacheState): map<Guid, ReaderState> {
    if w !in state then state
    else state[w := if MissingSet(cs) == {} then Expect(AckBase(cs)) else Waiting(MissingSet(cs))]
  }

  /** The sequence number set of the answer to a heartbeat. */
  ghost function AnswerState(cs: CacheState): Sets.NumberSet {
    MissingListed(cs);
    Sets.FromList(AckBase(cs), List(MissingSet(cs)))
  }

  lemma MissingListed(cs: CacheState)
    ensures var missing := List(MissingSet(cs));
      && (missing == [] <==> MissingSet(cs) == {}) && NumbersIn(missing) == MissingSet(cs)
      && Sets.AllFrom(AckBase(cs), missing) && IsAscending(missing)
      && (missing != [] ==> missing[0] == AckBase(cs))
  {
  }

  /** The set of an answer says exactly what is missing. */
  lemma AnswerSaysMissing(cs: CacheState)
    ensures var s := AnswerState(cs);
      s.base == AckBase(cs) && Sets.WordsMatch(s) && Sets.Numbers(s) == List(MissingSet(cs))
  {
    MissingListed(cs);
    Sets.RoundTrip(AckBase(cs), List(MissingSet(cs)));
  }

  ghost function Dropped(cs: CacheState, taken: set<H.Key>): CacheState {
    map n | n in cs && !(exists k :: k in taken && k.seqNum == n) :: cs[n]
  }

  lemma DroppedNone(cs: CacheState)
    ensures Dropped(cs, {}) == cs
  {
  }

  lemma DroppedOneMore(cs: CacheState, taken: set<H.Key>, k: H.Key)
    ensures Dropped(cs, taken + {k}) == Dropped(cs, taken) - {k.seqNum}
  {
  }

  lemma SameDropped(cs: CacheState, taken: set<H.Key>, nums: set<int>)
    requires forall n :: n in nums <==> exists k :: k in taken && k.seqNum == n
    ensures Dropped(cs, taken) == cs - nums
  {
    var a, b := Dropped(cs, taken), cs - nums;
    assert forall n :: n in a <==> n in b;
    assert a == b;
  }

  /** The change with number `n` ends the waiting for `w`. */
  ghost predicate Completes(state: map<Guid, ReaderState>, w: Guid, n: int) {
    w in state && match state[w]
      case Initial => false
      case Waiting(waitList) => waitList - {n} == {}
      case Expect(next) => n == next
  }

  ghost function Advanced(state: map<Guid, ReaderState>, w: Guid, n: int): map<Guid, ReaderState> {
    if w !in state then state
    else match state[w]
      case Initial => state
      case Waiting(waitList) => state[w := Waiting(waitList - {n})]
      case Expect(next) => if n == next then state[w := Expect(next + 1)] else state
  }

  /** What a best-effort reader records of a change it accepts. */
  ghost function TakenIn(cs: CacheState, n: int): CacheState {
    var r := WithReceived(cs, n);
    if n > AvailableMax(cs) + 1 then WithLost(r, n) else r
  }

  ghost function DroppedView(view: map<Guid, CacheState>, taken: set<H.Key>): map<Guid, CacheState> {
    map g | g in view :: Dropped(view[g], set k | k in taken && k.guid == g)
  }

  lemma KeepsWriters(view: map<Guid, CacheState>, taken: set<H.Key>)
    ensures DroppedView(view, taken).Keys == view.Keys
  {
  }

  lemma DroppedViewNone(view: map<Guid, CacheState>)
    ensures DroppedView(view, {}) == view
  {
    var r := DroppedView(view, {});
    forall g | g in view ensures r[g] == view[g] {
      var none := set k: H.Key | k in {} && k.guid == g;
      assert none == {};
      DroppedNone(view[g]);
    }
    assert r == view;
  }

  lemma DroppedViewOneMore(view: map<Guid, CacheState>, taken: set<H.Key>, k: H.Key)
    ensures var now := DroppedView(view, taken);
      DroppedView(view, taken + {k}) == if k.guid in view then now[k.guid := now[k.guid] - {k.seqNum}] else now
    ensures DroppedView(view, taken).Keys == view.Keys
  {
    var now, r := DroppedView(view, taken), DroppedView(view, taken + {k});
    forall g | g in view
      ensures r[g] == if g == k.guid then now[g] - {k.seqNum} else now[g]
    {
      var before := set m | m in taken && m.guid == g;
      var after := set m | m in taken + {k} && m.guid == g;
      if g == k.guid {
        assert after == before + {k};
        DroppedOneMore(view[g], before, k);
      } else {
        assert after == before;
      }
    }
  }

  lemma SkippingStarts(cs: CacheState, st: map<Guid, ReaderState>, w: Guid, start: int)
    ensures Span(start, start - 1) == {} && Skipped(cs, Span(start, start - 1)) == cs
    ensures Without(st, w, Span(start, start - 1)) == st
  {
    SkippedNone(cs);
    if w in st && st[w].Waiting? {
      assert st[w].waitList - {} == st[w].waitList;
      assert st[w := st[w]] == st;
    }
  }

  lemma SkippingGoesOn(cs: CacheState, st: map<Guid, ReaderState>, w: Guid, done: set<int>, n: int)
    ensures Skipped(cs, done + {n}) == WithIrrelevant(Skipped(cs, done), n)
    ensures Without(Without(st, w, done), w, {n}) == Without(st, w, done + {n})
  {
    SkippedOneMore(cs, done, n);
    if w in st && st[w].Waiting? {
      assert st[w].waitList - done - {n} == st[w].waitList - (done + {n});
    }
  }

  lemma SpanEmpty(first: int, last: int)
    ensures last < first ==> Span(first, last) == {} && Span(first, first - 1) == {}
  {
  }

  lemma PlusNone(s: set<int>)
    ensures s + NumbersIn([]) == s
  {
  }

  lemma NumbersInMore(list: seq<int>, i: nat)
    requires i < |list|
    ensures NumbersIn(list[..i + 1]) == NumbersIn(list[..i]) + {list[i]}
    ensures forall s: set<int> :: s + NumbersIn(list[..i]) + {list[i]} == s + NumbersIn(list[..i + 1])
  {
  }
}
