/** WriterProxy as the object its methods update in place (src/structure/proxy.rs:317-476),
    each method against the functions of WriterProxies. */
module WriterProxyClass {
  import opened Types
  import opened Ascending
  import opened WriterProxies

  /** The effect of missing_changes_update on the numbers below `n`. */
  function MissingBelow(cs: CacheState, first: int, n: int): CacheState {
    WithMissing(cs, first, n - 1)
  }

  lemma MissingOneMore(cs: CacheState, first: int, n: int)
    requires first <= n
    ensures var r := MissingBelow(cs, first, n);
      MissingBelow(cs, first, n + 1)
        == r[n := if n in cs then MissingUpdate(cs[n]) else ChangeFromWriter(Missing, true)]
    ensures n in MissingBelow(cs, first, n) <==> n in cs
    ensures n in cs ==> MissingBelow(cs, first, n)[n] == cs[n]
  {
  }

  lemma NoneMissing(cs: CacheState, first: int, last: int)
    requires last < first
    ensures WithMissing(cs, first, last) == cs
  {
    assert cs.Keys + Span(first, last) == cs.Keys;
  }

  class WriterProxy {
    const remoteWriterGuid: Guid
    var cacheState: CacheState

    constructor (guid: Guid)
      ensures remoteWriterGuid == guid && cacheState == map[]
    {
      remoteWriterGuid, cacheState := guid, map[];
    }

    method UpdateCacheState(n: int, relevant: bool, status: Status)
      modifies this`cacheState
      ensures cacheState == old(cacheState)[n := ChangeFromWriter(status, relevant)]
    {
      cacheState := cacheState[n := ChangeFromWriter(status, relevant)];
    }

    method AvailableChangesMax() returns (max: int)
      ensures max == AvailableMax(cacheState)
    {
      max := 0;
      var rest := cacheState.Keys;
      while rest != {}
        invariant rest <= cacheState.Keys && max >= 0
        invariant max == 0 || Accounted(cacheState, max)
        invariant forall n :: Accounted(cacheState, n) && n !in rest ==> n <= max
        decreases |rest|
      {
        var n := Pick(rest);
        if (cacheState[n].status == Received || cacheState[n].status == Lost) && n > max {
          max := n;
        }
        rest := rest - {n};
      }
    }

    method IrrelevantChangeSet(n: int)
      modifies this`cacheState
      ensures cacheState == WithIrrelevant(old(cacheState), n)
    {
      UpdateCacheState(n, false, Received);
    }

    method LostChangesUpdate(first: int)
      modifies this`cacheState
      ensures cacheState == WithLost(old(cacheState), first)
    {
      var rest := cacheState.Keys;
      while rest != {}
        invariant cacheState.Keys == old(cacheState).Keys && rest <= cacheState.Keys
        invariant forall n :: n in cacheState ==>
          cacheState[n] == if n in rest then old(cacheState)[n] else WithLost(old(cacheState), first)[n]
        decreases |rest|
      {
        var n := Pick(rest);
        if (cacheState[n].status == Unknown || cacheState[n].status == Missing) && n < first {
          cacheState := cacheState[n := cacheState[n].(status := Lost)];
        }
        rest := rest - {n};
      }
    }

    /** The numbers that are missing, smallest first. */
    method MissingChanges() returns (missing: seq<int>)
      ensures missing == List(MissingSet(cacheState))
    {
      missing := Walk(set n | n in cacheState && cacheState[n].status == Missing);
    }

    method MissingChangesUpdate(first: int, last: int)
      modifies this`cacheState
      ensures cacheState == WithMissing(old(cacheState), first, last)
    {
      NoneMissing(cacheState, first, if last < first then last else first - 1);
      if last < first {
        return;
      }
      var n := first;
      while n <= last
        invariant first <= n <= last + 1
        invariant cacheState == MissingBelow(old(cacheState), first, n)
      {
        MissingOneMore(old(cacheState), first, n);
        if n in cacheState {
          if cacheState[n].status == Unknown {
            cacheState := cacheState[n := cacheState[n].(status := Missing)];
          }
        } else {
          UpdateCacheState(n, true, Missing);
        }
        n := n + 1;
      }
    }

    method ReceivedChangeSet(n: int)
      modifies this`cacheState
      ensures cacheState == WithReceived(old(cacheState), n)
    {
      if n in cacheState {
        cacheState := cacheState[n := cacheState[n].(status := Received)];
      } else {
        UpdateCacheState(n, true, Received);
      }
    }

    method RemoveCacheState(n: int)
      modifies this`cacheState
      ensures cacheState == old(cacheState) - {n}
    {
      cacheState := cacheState - {n};
    }
  }
}
