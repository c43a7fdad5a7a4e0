/** ReaderProxy as the object its methods update in place (src/structure/proxy.rs:17-220),
    each method against the functions of ReaderProxies. */
module ReaderProxyClass {
  import opened Types
  import opened Ascending
  import opened ReaderProxies
  import H = HistoryCaches

  /** The state of a new proxy: a cache of one writer, whose newest key is `latest`. A
      builtin reader is owed all of it. */
  ghost predicate StartsWith(state: CacheState, keys: set<H.Key>, latest: H.Key, durability: Durability, builtin: bool, pushMode: bool) {
    && (forall k :: k in keys ==> k.seqNum in state)
    && (forall n :: n in state ==> exists k :: k in keys && k.seqNum == n)
    && (forall k :: k in keys ==>
          state[k.seqNum] == ChangeForReader(if pushMode then Unsent else Unacknowledged,
                                             durability == TransientLocal && (builtin || k == latest)))
  }

  /** No two keys share a number, as in the cache of a single writer. */
  ghost predicate OneWriter(keys: set<H.Key>) {
    forall k, m :: k in keys && m in keys && k.seqNum == m.seqNum ==> k == m
  }

  lemma StartsWithOneMore(state: CacheState, keys: set<H.Key>, k: H.Key, latest: H.Key, durability: Durability, builtin: bool, pushMode: bool)
    requires StartsWith(state, keys, latest, durability, builtin, pushMode) && OneWriter(keys + {k})
    ensures StartsWith(
      state[k.seqNum := ChangeForReader(if pushMode then Unsent else Unacknowledged,
                                        durability == TransientLocal && (builtin || k == latest))],
      keys + {k}, latest, durability, builtin, pushMode)
  {
  }

  /** Every cached change, as the proxy of a reader found just now sees it. */
  method Snapshot(keys: seq<H.Key>, latest: H.Key, durability: Durability, builtin: bool, pushMode: bool) returns (state: CacheState)
    requires OneWriter(H.Members(keys))
    ensures StartsWith(state, H.Members(keys), latest, durability, builtin, pushMode)
  {
    state := map[];
    var i := 0;
    while i < |keys|
      invariant i <= |keys|
      invariant StartsWith(state, H.Members(keys[..i]), latest, durability, builtin, pushMode)
    {
      H.MembersGrow(keys, i);
      assert forall k :: k in H.Members(keys[..i + 1]) ==> k in H.Members(keys);
      StartsWithOneMore(state, H.Members(keys[..i]), keys[i], latest, durability, builtin, pushMode);
      var relevant := match durability
        case Volatile => false
        case TransientLocal => builtin || keys[i] == latest;
      state := state[keys[i].seqNum := ChangeForReader(if pushMode then Unsent else Unacknowledged, relevant)];
      i := i + 1;
    }
    assert keys[..i] == keys;
  }

  ghost function AckedThese(cs: CacheState, nums: seq<int>): CacheState {
    map n | n in cs :: if n in nums then cs[n].(status := Acknowledged) else cs[n]
  }

  lemma AckedOneMore(cs: CacheState, nums: seq<int>, i: nat)
    requires i < |nums| && nums[i] in cs
    ensures AckedThese(cs, nums[..i + 1])
         == AckedThese(cs, nums[..i])[nums[i] := ChangeForReader(Acknowledged, cs[nums[i]].relevant)]
  {
  }

  method NumbersUpTo(cs: CacheState, committed: int) returns (nums: seq<int>)
    ensures forall n :: n in nums <==> n in cs && n <= committed
    ensures Within(nums, cs.Keys)
  {
    nums := Walk(set n | n in cs && n <= committed);
  }

  class ReaderProxy {
    const remoteReaderGuid: Guid
    var locators: Locators
    var durability: Durability
    var cacheState: CacheState

    constructor (guid: Guid, locators: Locators, durability: Durability, builtin: bool, hc: H.HistoryCache, pushMode: bool)
      requires locators.NonEmpty() && hc.Valid() && OneWriter(hc.changes.Keys)
      ensures remoteReaderGuid == guid && this.locators == locators && this.durability == durability
      ensures hc.ts2key == [] ==> cacheState == map[]
      ensures hc.ts2key != [] ==>
        StartsWith(cacheState, hc.changes.Keys, hc.ts2key[|hc.ts2key| - 1], durability, builtin, pushMode)
    {
      hide H.KindsAgree, H.AllCached, StartsWith, OneWriter, H.NoRepeats;
      remoteReaderGuid, this.locators, this.durability := guid, locators, durability;
      var state: CacheState := map[];
      var keys := H.Walk(hc.changes.Keys);
      assert H.Members(keys) == hc.changes.Keys;
      if |hc.ts2key| > 0 {
        state := Snapshot(keys, hc.ts2key[|hc.ts2key| - 1], durability, builtin, pushMode);
      }
      cacheState := state;
    }

    method UpdateCacheState(n: int, relevant: bool, status: Status)
      modifies this`cacheState
      ensures cacheState == old(cacheState)[n := ChangeForReader(status, relevant)]
    {
      cacheState := cacheState[n := ChangeForReader(status, relevant)];
    }

    method AckedChangesSet(committed: int)
      modifies this`cacheState
      ensures cacheState == AckedUpTo(old(cacheState), committed)
    {
      var toUpdate := NumbersUpTo(cacheState, committed);
      var i := 0;
      while i < |toUpdate|
        invariant i <= |toUpdate| && cacheState == AckedThese(old(cacheState), toUpdate[..i])
      {
        AckedOneMore(old(cacheState), toUpdate, i);
        UpdateCacheState(toUpdate[i], cacheState[toUpdate[i]].relevant, Acknowledged);
        i := i + 1;
      }
      assert toUpdate[..i] == toUpdate;
    }

    method RequestedChangesSet(req: seq<int>)
      modifies this`cacheState
      ensures cacheState == WithRequested(old(cacheState), set n | n in req)
    {
      var i := 0;
      while i < |req|
        invariant i <= |req|
        invariant cacheState == WithRequested(old(cacheState), set n | n in req[..i])
      {
        assert req[..i + 1] == req[..i] + [req[i]];
        if req[i] in cacheState {
          cacheState := cacheState[req[i] := cacheState[req[i]].(status := Requested)];
        } else {
          UpdateCacheState(req[i], true, Requested);
        }
        i := i + 1;
      }
      assert req[..i] == req;
    }

    /** next_unsent_change and next_requested_change: the smallest number in that status. */
    method NextChange(status: Status) returns (next: Option<int>)
      ensures next.None? <==> forall n :: n in cacheState ==> cacheState[n].status != status
      ensures next.Some? ==> next.value in cacheState && cacheState[next.value].status == status
      ensures next.Some? ==> forall n :: n in cacheState && cacheState[n].status == status ==> next.value <= n
    {
      next := None;
      var rest := cacheState.Keys;
      while rest != {}
        invariant rest <= cacheState.Keys
        invariant next.Some? ==> next.value in cacheState && cacheState[next.value].status == status
        invariant forall n :: n in cacheState && n !in rest && cacheState[n].status == status ==> next.Some? && next.value <= n
        decreases |rest|
      {
        var n := Pick(rest);
        if cacheState[n].status == status && (next.None? || n < next.value) {
          next := Some(n);
        }
        rest := rest - {n};
      }
    }

    method IsAcked(n: int) returns (acked: bool)
      ensures acked <==> ReaderProxies.IsAcked(cacheState, n)
    {
      acked := if n in cacheState then (if cacheState[n].relevant then cacheState[n].status == Acknowledged else true) else true;
    }

    method RemoveCacheState(n: int)
      modifies this`cacheState
      ensures cacheState == old(cacheState) - {n}
    {
      cacheState := cacheState - {n};
    }
  }
}
