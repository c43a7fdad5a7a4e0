/** The writer's view of one matched reader (ReaderProxy of src/structure/proxy.rs). */
module ReaderProxies {
  import opened Types
  import opened Ascending

  datatype Status = Unsent | Unacknowledged | Requested | Acknowledged | Underway

  /** ChangeForReader; the sequence number is the key under which it is stored. */
  datatype ChangeForReader = ChangeForReader(status: Status, relevant: bool)

  type CacheState = map<int, ChangeForReader>

  /** The four locator lists of a proxy. */
  datatype Locators = Locators(
    unicast: seq<Locator>, multicast: seq<Locator>,
    defaultUnicast: seq<Locator>, defaultMulticast: seq<Locator>)
  {
    predicate NonEmpty() {
      |unicast| + |multicast| + |defaultUnicast| + |defaultMulticast| > 0
    }

    function UnicastList(): seq<Locator> {
      if unicast == [] then defaultUnicast else unicast
    }

    function MulticastList(): seq<Locator> {
      if multicast == [] then defaultMulticast else multicast
    }

    /** Where a user-defined writer sends DATA and GAP; [] when nothing is known. */
    function DataTargets(): seq<Locator> {
      if UnicastList() == [] then MulticastList() else UnicastList()
    }

    /** Where a writer sends HEARTBEAT; [] when nothing is known. */
    function HeartbeatTargets(): seq<Locator> {
      if MulticastList() == [] then UnicastList() else MulticastList()
    }
  }

  /** A change with no entry counts as acknowledged, and so does an irrelevant one. */
  predicate IsAcked(cs: CacheState, n: int) {
    n in cs && cs[n].relevant ==> cs[n].status == Acknowledged
  }

  ghost function AckedUpTo(cs: CacheState, committed: int): CacheState {
    map n | n in cs :: if n <= committed then cs[n].(status := Acknowledged) else cs[n]
  }

  /** Entries become Requested; a number without an entry gets a relevant one. */
  ghost function WithRequested(cs: CacheState, req: set<int>): CacheState {
    map n | n in cs.Keys + req ::
      if n in req then (if n in cs then cs[n].(status := Requested) else ChangeForReader(Requested, true))
      else cs[n]
  }

  ghost function Numbers(cs: CacheState, st: Status): set<int> {
    set n | n in cs && cs[n].status == st
  }

  /** Every entry in status `st` becomes Underway. */
  ghost function Drained(cs: CacheState, st: Status): CacheState {
    map n | n in cs :: if cs[n].status == st then cs[n].(status := Underway) else cs[n]
  }
}
