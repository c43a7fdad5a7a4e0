/** A reliable reader's view of one matched writer (WriterProxy of
    src/structure/proxy.rs) and the ACKNACK it answers a heartbeat with
    (src/rtps/reader.rs:599-743). */
module WriterProxies {
  import opened Ascending

  datatype Status = Lost | Missing | Received | Unknown

  /** ChangeFromWriter; the sequence number is the key under which it is stored. */
  datatype ChangeFromWriter = ChangeFromWriter(status: Status, relevant: bool)

  type CacheState = map<int, ChangeFromWriter>

  ghost predicate IsMissing(cs: CacheState, n: int) {
    n in cs && cs[n].status == Missing
  }

  /** Received or given up for lost: the writer need not keep it for this reader. */
  predicate Accounted(cs: CacheState, n: int) {
    n in cs && (cs[n].status == Received || cs[n].status == Lost)
  }

  function WithReceived(cs: CacheState, n: int): CacheState {
    cs[n := if n in cs then cs[n].(status := Received) else ChangeFromWriter(Received, true)]
  }

  function WithIrrelevant(cs: CacheState, n: int): CacheState {
    cs[n := ChangeFromWriter(Received, false)]
  }

  function MissingUpdate(cfw: ChangeFromWriter): ChangeFromWriter {
    if cfw.status == Unknown then cfw.(status := Missing) else cfw
  }

  function Span(first: int, last: int): (s: set<int>)
    ensures forall n :: n in s <==> first <= n <= last
    decreases last - first
  {
    if first > last then {} else {first} + Span(first + 1, last)
  }

  /** missing_changes_update: every number of the heartbeat's range is recorded. */
  function WithMissing(cs: CacheState, first: int, last: int): CacheState {
    map n | n in cs.Keys + Span(first, last) ::
      if n !in cs then ChangeFromWriter(Missing, true)
      else if first <= n <= last then MissingUpdate(cs[n])
      else cs[n]
  }

  /** lost_changes_update: what lies below the writer's range will not come any more. */
  function WithLost(cs: CacheState, first: int): CacheState {
    map n | n in cs ::
      if n < first && (cs[n].status == Unknown || cs[n].status == Missing)
      then cs[n].(status := Lost)
      else cs[n]
  }

  function MissingSet(cs: CacheState): set<int> {
    set n | n in cs && cs[n].status == Missing
  }

  ghost function AvailableMax(cs: CacheState): (m: int)
    ensures m >= 0 && forall n :: Accounted(cs, n) ==> n <= m
    ensures m == 0 || Accounted(cs, m)
  {
    var avail := set n | n in cs && Accounted(cs, n);
    assert forall n :: Accounted(cs, n) ==> n in avail;
    if avail == {} || Max(avail) < 0 then 0 else Max(avail)
  }

  /** The smallest missing number; without one, the number after the newest known. */
  ghost function AckBase(cs: CacheState): int {
    if MissingSet(cs) == {} then AvailableMax(cs) + 1 else Min(MissingSet(cs))
  }

  predicate HeartbeatValid(first: int, last: int) {
    first > 0 && last >= 0 && last >= first - 1
  }

  /** Entries of changes the application has taken, below the writer's range, are dropped. */
  function OnHeartbeat(cs: CacheState, taken: set<int>, first: int, last: int): CacheState {
    WithLost(WithMissing(cs - (set n | n in taken && n < first), first, last), first)
  }

  // ---- what the answer to a heartbeat says ----

  /** If nothing above the heartbeat's range is on record, everything the answer
      acknowledges from `first` on is accounted for, nothing missing lies below its
      base, nothing below `first` is asked for again. */
  lemma AckSound(cs: CacheState, taken: set<int>, first: int, last: int)
    requires HeartbeatValid(first, last)
    requires forall n :: n in cs ==> n <= last
    ensures var r := OnHeartbeat(cs, taken, first, last);
      var base := AckBase(r);
      && (forall n :: first <= n < base ==> Accounted(r, n))
      && (forall n :: n in MissingSet(r) <==> IsMissing(r, n))
      && (forall n :: n in MissingSet(r) ==> base <= n && first <= n <= last)
      && 1 <= base <= last + 1
  {
    var r := OnHeartbeat(cs, taken, first, last);
    forall n | n in r
      ensures n <= last && r[n].status != Unknown
      ensures r[n].status == Missing ==> first <= n
    {
      assert n in Span(first, last) <==> first <= n <= last;
    }
    assert AckBase(r) <= last + 1;
    forall n | first <= n < AckBase(r)
      ensures Accounted(r, n)
    {
      assert n in Span(first, last);
      assert n in r;
      assert n !in MissingSet(r);
    }
  }

  /** The record behind an answer: the heartbeat's whole range, and above it what was there. */
  lemma RecordAfter(cs: CacheState, taken: set<int>, first: int, last: int, n: int)
    requires HeartbeatValid(first, last) && first <= n
    ensures var r := OnHeartbeat(cs, taken, first, last);
      n in r <==> n in cs || n <= last
  {
  }

  /** In general the answer is sound exactly when there is no hole in the record between
      the end of the heartbeat's range and the answer's base. */
  lemma AckSoundExactly(cs: CacheState, taken: set<int>, first: int, last: int)
    requires HeartbeatValid(first, last) && forall n :: n in cs ==> cs[n].status != Unknown
    ensures var r := OnHeartbeat(cs, taken, first, last);
      (forall n :: first <= n < AckBase(r) ==> Accounted(r, n)) <==> (forall n :: last < n < AckBase(r) ==> n in cs)
  {
    var r := OnHeartbeat(cs, taken, first, last);
    forall n | first <= n < AckBase(r)
      ensures Accounted(r, n) <==> n in cs || n <= last
    {
      RecordAfter(cs, taken, first, last, n);
      if n in r {
        assert n !in MissingSet(r);
        assert r[n].status != Unknown;
      }
    }
  }

  /** Why links must keep the order: a heartbeat for [1, 1] that arrives after DATA 3 has
      everything up to 3 acknowledged, although 2 never came. */
  lemma LateHeartbeatSkips()
    ensures var cs := map[1 := ChangeFromWriter(Received, true), 3 := ChangeFromWriter(Received, true)];
      var r := OnHeartbeat(cs, {}, 1, 1);
      AckBase(r) == 4 && !Accounted(r, 2)
  {
    var cs := map[1 := ChangeFromWriter(Received, true), 3 := ChangeFromWriter(Received, true)];
    var r := OnHeartbeat(cs, {}, 1, 1);
    forall n
      ensures n in r <==> n == 1 || n == 3
      ensures n in r ==> r[n] == ChangeFromWriter(Received, true)
    {
      assert n in Span(1, 1) <==> n == 1;
    }
    assert forall n :: n !in MissingSet(r);
    assert Accounted(r, 3);
  }
}
