/** When a reader lets the application read (src/rtps/reader.rs:195-303): what sequences of
    arrivals make readable, whichever writers they come from. */
module HandOver {
  import opened Types
  import opened Ascending
  import opened WriterProxies
  import opened StatefulReaders
  import H = HistoryCaches

  ghost function PutAll(s: Shelf, arrivals: seq<Arrival>): Shelf
    decreases |arrivals|
  {
    if arrivals == [] then s
    else Put(PutAll(s, arrivals[..|arrivals| - 1]), arrivals[|arrivals| - 1])
  }

  /** The numbers of `w` that have come as DATA or been skipped by a GAP. */
  function NumbersFrom(w: Guid, arrivals: seq<Arrival>): set<int> {
    if arrivals == [] then {}
    else
      NumbersFrom(w, arrivals[..|arrivals| - 1])
      + match arrivals[|arrivals| - 1]
        case Data(v, n, _) => if v == w then {n} else {}
        case Gap(v, nums) => if v == w then nums else {}
        case Beat(_, _) => {}
  }

  /** The writer's heartbeats are not answered in the meantime. */
  ghost predicate NoBeat(w: Guid, arrivals: seq<Arrival>) {
    forall i :: 0 <= i < |arrivals| ==> !(arrivals[i].Beat? && arrivals[i].writer == w)
  }

  lemma OneMore(s: Shelf, arrivals: seq<Arrival>, a: Arrival)
    ensures PutAll(s, arrivals + [a]) == Put(PutAll(s, arrivals), a)
  {
    assert (arrivals + [a])[..|arrivals|] == arrivals;
  }

  lemma OneMoreNumber(w: Guid, arrivals: seq<Arrival>, a: Arrival)
    ensures NumbersFrom(w, arrivals + [a]) == NumbersFrom(w, arrivals) + NumbersFrom(w, [a])
    ensures a.Data? && a.writer == w ==> NumbersFrom(w, arrivals + [a]) == NumbersFrom(w, arrivals) + {a.n}
  {
    assert (arrivals + [a])[..|arrivals|] == arrivals && [a][..0] == [];
  }

  lemma {:induction false} StillWaiting(s: Shelf, w: Guid, waitedFor: set<int>, arrivals: seq<Arrival>)
    requires w in s.state && s.state[w] == Waiting(waitedFor) && NoBeat(w, arrivals)
    ensures var r := PutAll(s, arrivals); w in r.state && r.state[w] == Waiting(waitedFor - NumbersFrom(w, arrivals))
    decreases |arrivals|
  {
    if arrivals == [] {
      assert waitedFor - {} == waitedFor;
    } else {
      var k := |arrivals| - 1;
      var before, a := arrivals[..k], arrivals[k];
      assert !(a.Beat? && a.writer == w);
      StillWaiting(s, w, waitedFor, before);
      var left := waitedFor - NumbersFrom(w, before);
      match a
      case Data(v, n, cached) => assert v == w ==> left - {n} == waitedFor - NumbersFrom(w, arrivals);
      case Gap(v, nums) => assert v == w ==> left - nums == waitedFor - NumbersFrom(w, arrivals);
      case Beat(v, record) =>
    }
  }

  /** A DATA makes everything readable, and the application is told, exactly when all that is
      waited for has come or been skipped since, in whatever order. */
  lemma WaitedFor(s: Shelf, w: Guid, waitedFor: set<int>, before: seq<Arrival>, n: int, cached: set<H.Key>)
    requires w in s.state && s.state[w] == Waiting(waitedFor) && NoBeat(w, before)
    ensures var a := Data(w, n, cached);
      var was, r := PutAll(s, before), PutAll(s, before + [a]);
      if waitedFor <= NumbersFrom(w, before + [a])
      then r.ready == cached && r.signals == was.signals + 1
      else r.ready == was.ready * cached && r.signals == was.signals
  {
    var a := Data(w, n, cached);
    StillWaiting(s, w, waitedFor, before);
    OneMore(s, before, a);
    OneMoreNumber(w, before, a);
    var left := waitedFor - NumbersFrom(w, before);
    assert left - {n} == {} <==> waitedFor <= NumbersFrom(w, before) + {n};
  }

  ghost predicate AllFrom(w: Guid, arrivals: seq<Arrival>) {
    forall i :: 0 <= i < |arrivals| ==> arrivals[i].writer == w && !arrivals[i].Beat?
  }

  /** Until then nothing becomes readable and the application is told nothing. */
  lemma {:induction false} NotBefore(s: Shelf, w: Guid, waitedFor: set<int>, arrivals: seq<Arrival>)
    requires w in s.state && s.state[w] == Waiting(waitedFor) && AllFrom(w, arrivals)
    requires !(waitedFor <= NumbersFrom(w, arrivals))
    ensures var r := PutAll(s, arrivals); r.ready <= s.ready && r.signals == s.signals
    decreases |arrivals|
  {
    if arrivals != [] {
      var k := |arrivals| - 1;
      var before, a := arrivals[..k], arrivals[k];
      assert before + [a] == arrivals;
      assert a.writer == w && !a.Beat?;
      OneMoreNumber(w, before, a);
      OneMore(s, before, a);
      NotBefore(s, w, waitedFor, before);
      if a.Data? {
        WaitedFor(s, w, waitedFor, before, a.n, a.cached);
      }
    }
  }

  /** What is waited for is what was missing when a heartbeat was last answered. */
  lemma BeatWaits(s: Shelf, w: Guid, record: CacheState, before: seq<Arrival>, n: int, cached: set<H.Key>)
    requires w in s.state && MissingSet(record) != {} && NoBeat(w, before)
    ensures var a := Data(w, n, cached);
      var s1 := PutAll(s, [Beat(w, record)]);
      var was, r := PutAll(s1, before), PutAll(s1, before + [a]);
      && s1.ready == s.ready && s1.signals == s.signals
      && if MissingSet(record) <= NumbersFrom(w, before + [a])
         then r.ready == cached && r.signals == was.signals + 1
         else r.ready == was.ready * cached && r.signals == was.signals
  {
    OneMore(s, [], Beat(w, record));
    assert [] + [Beat(w, record)] == [Beat(w, record)];
    WaitedFor(PutAll(s, [Beat(w, record)]), w, MissingSet(record), before, n, cached);
  }

  /** The arrivals from `from` on, in order. */
  ghost predicate InOrder(w: Guid, from: int, arrivals: seq<Arrival>) {
    forall i :: 0 <= i < |arrivals| ==> arrivals[i].Data? && arrivals[i].writer == w && arrivals[i].n == from + i
  }

  lemma {:induction false} Expected(s: Shelf, w: Guid, next: int, arrivals: seq<Arrival>)
    requires w in s.state && s.state[w] == Expect(next) && InOrder(w, next, arrivals)
    ensures var r := PutAll(s, arrivals);
      && w in r.state && r.state[w] == Expect(next + |arrivals|) && r.signals == s.signals + |arrivals|
      && (arrivals != [] ==> r.ready == arrivals[|arrivals| - 1].cached)
    decreases |arrivals|
  {
    if arrivals != [] {
      var k := |arrivals| - 1;
      assert arrivals[k].n == next + k;
      Expected(s, w, next, arrivals[..k]);
    }
  }

  /** Nothing was missing when a heartbeat was answered: everything cached is readable then,
      and each number of a stream that goes on in order, from the number after the newest
      known, makes everything readable at once; the first that is out of order does not. */
  lemma InOrderAtOnce(s: Shelf, w: Guid, record: CacheState, stream: seq<Arrival>, n: int, cached: set<H.Key>)
    requires w in s.state && MissingSet(record) == {} && InOrder(w, AvailableMax(record) + 1, stream)
    requires n != AvailableMax(record) + 1 + |stream|
    ensures var s1 := PutAll(s, [Beat(w, record)]);
      var r := PutAll(s1, stream);
      && s1.ready == s.cached && s1.signals == s.signals + (if s.cached == {} then 0 else 1)
      && r.signals == s1.signals + |stream| && (stream != [] ==> r.ready == stream[|stream| - 1].cached)
      && var late := PutAll(s1, stream + [Data(w, n, cached)]);
         late.ready == r.ready * cached && late.signals == r.signals
  {
    OneMore(s, [], Beat(w, record));
    assert [] + [Beat(w, record)] == [Beat(w, record)];
    var s1 := PutAll(s, [Beat(w, record)]);
    assert s1.state[w] == Expect(AvailableMax(record) + 1);
    Expected(s1, w, AvailableMax(record) + 1, stream);
    OneMore(s1, stream, Data(w, n, cached));
  }

  lemma {:induction false} NothingHeard(s: Shelf, w: Guid, arrivals: seq<Arrival>)
    requires w in s.state && s.state[w] == Initial && AllFrom(w, arrivals)
    ensures var r := PutAll(s, arrivals); r.state == s.state && r.ready <= s.ready && r.signals == s.signals
    decreases |arrivals|
  {
    if arrivals != [] {
      var k := |arrivals| - 1;
      assert arrivals[k].writer == w && !arrivals[k].Beat?;
      NothingHeard(s, w, arrivals[..k]);
    }
  }

  // ---- best effort ----

  /** A best-effort reader offered change `n`. */
  ghost function Take(record: CacheState, n: int): CacheState {
    if n > AvailableMax(record) then TakenIn(record, n) else record
  }

  ghost function TakeAll(record: CacheState, nums: seq<int>): CacheState
    decreases |nums|
  {
    if nums == [] then record else Take(TakeAll(record, nums[..|nums| - 1]), nums[|nums| - 1])
  }

  lemma TakenIsNewest(record: CacheState, n: int)
    requires n > AvailableMax(record)
    ensures AvailableMax(TakenIn(record, n)) == n
    ensures n > AvailableMax(record) + 1 ==> forall m :: IsMissing(TakenIn(record, n), m) ==> m > n
  {
    var r := TakenIn(record, n);
    assert Accounted(r, n);
    forall m | Accounted(r, m)
      ensures m <= n
    {
      assert m in record || m == n;
      if m > n {
        assert r[m] == record[m] && Accounted(record, m);
      }
    }
  }

  /** As long as nothing is taken, the newest number a best-effort reader knows is the
      largest it knew or was offered since; so it accepts just what is larger than all that
      came before. */
  lemma {:induction false} BestEffortTakesRecords(record: CacheState, nums: seq<int>)
    ensures var max := AvailableMax(TakeAll(record, nums));
      && max >= AvailableMax(record) && (forall i :: 0 <= i < |nums| ==> nums[i] <= max)
      && (max == AvailableMax(record) || max in nums)
    decreases |nums|
  {
    if nums != [] {
      var k := |nums| - 1;
      BestEffortTakesRecords(record, nums[..k]);
      var r := TakeAll(record, nums[..k]);
      if nums[k] > AvailableMax(r) {
        TakenIsNewest(r, nums[k]);
      }
      forall i | 0 <= i < |nums|
        ensures nums[i] <= AvailableMax(TakeAll(record, nums))
      {
        assert i < k ==> nums[i] == nums[..k][i];
      }
    }
  }

  // ---- what is on record ----

  /** What a heartbeat for [first, last] leaves on record. Below the range what was taken is
      dropped and what has not come is lost; in it what was not known is missing; above it
      nothing changes. */
  lemma HeartbeatRecords(cs: CacheState, taken: set<int>, first: int, last: int, n: int)
    requires HeartbeatValid(first, last)
    ensures var r := OnHeartbeat(cs, taken, first, last);
      if n !in cs then
        if first <= n <= last then n in r && r[n] == ChangeFromWriter(Missing, true) else n !in r
      else if n in taken && n < first then n !in r
      else
        && n in r && r[n].relevant == cs[n].relevant
        && r[n].status ==
             if cs[n].status == Received || cs[n].status == Lost then cs[n].status
             else if n < first then Lost
             else if n <= last then Missing
             else cs[n].status
  {
  }

  /** A GAP names the numbers from its start up to its base, and those of its list; each of
      them counts as received and irrelevant, and nothing else changes. */
  lemma GapRecords(cs: CacheState, start: int, base: int, list: seq<int>, n: int)
    ensures var r := Skipped(cs, GapNumbers(start, base, list));
      if start <= n < base || n in list then n in r && r[n] == ChangeFromWriter(Received, false)
      else (n in r <==> n in cs) && (n in cs ==> r[n] == cs[n])
  {
  }

  /** A DATA counts as received; a change that a GAP has made irrelevant stays so. With a
      best-effort reader, what it passes over is lost. */
  lemma DataRecords(cs: CacheState, n: int, m: int)
    ensures var r := WithReceived(cs, n);
      && n in r && r[n] == ChangeFromWriter(Received, n in cs ==> cs[n].relevant)
      && (m != n ==> (m in r <==> m in cs) && (m in cs ==> r[m] == cs[m]))
    ensures n > AvailableMax(cs) && m < n && m in cs ==>
      var r := TakenIn(cs, n);
      && m in r && r[m].relevant == cs[m].relevant
      && r[m].status ==
           if (cs[m].status == Unknown || cs[m].status == Missing) && n != AvailableMax(cs) + 1 then Lost else cs[m].status
    ensures n > AvailableMax(cs) ==> n in TakenIn(cs, n) && TakenIn(cs, n)[n] == WithReceived(cs, n)[n]
  {
  }

  /** What the application has taken of a writer's changes is dropped from its record. */
  lemma TakenRecords(view: map<Guid, CacheState>, taken: set<H.Key>, w: Guid, n: int)
    requires w in view
    ensures var r := DroppedView(view, taken);
      && r.Keys == view.Keys
      && (n in r[w] <==> n in view[w] && H.Key(w, n) !in taken) && (n in r[w] ==> r[w][n] == view[w][n])
  {
  }
}
