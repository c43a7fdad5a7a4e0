/** The HistoryCache shared by a DataWriter and its RTPS Writer, or by an RTPS Reader and
    its DataReader (src/rtps/cache.rs): one map of changes and four indices beside it. */
module HistoryCaches {
  import opened Types

  datatype ChangeKind = Alive | AliveFiltered | NotAlive | NotAliveDisposed | NotAliveUnregistered

  datatype Key = Key(guid: Guid, seqNum: int)

  datatype CacheChange = CacheChange(
    kind: ChangeKind, writerGuid: Guid, seqNum: int, timestamp: int, data: Option<Payload>)

  function KeyOf(change: CacheChange): Key {
    Key(change.writerGuid, change.seqNum)
  }

  datatype CacheKind = ReaderCache | WriterCache | DummyCache

  datatype AddOutcome =
    | Added
    | Refreshed      // the same change was there already
    | Discarded      // a full cache of a reliable reader
    | WouldBlock     // a full cache of a reliable writer
    | Panicked       // unreachable!(), or an index into an empty vector

  // ---- the order of keys ----

  /** By sequence number, then by GUID. */
  predicate Before(a: Key, b: Key) {
    a.seqNum < b.seqNum || (a.seqNum == b.seqNum && a.guid < b.guid)
  }

  ghost predicate Ascends(s: seq<Key>) {
    forall i, j :: 0 <= i < j < |s| ==> Before(s[i], s[j])
  }

  ghost predicate Lists(s: seq<Key>, keys: set<Key>) {
    forall k :: k in s <==> k in keys
  }

  function Above(keys: set<Key>, k: Key): set<Key> {
    set m | m in keys && Before(k, m)
  }

  /** The `d` largest keys, or all if there are fewer. */
  function Newest(keys: set<Key>, d: nat): set<Key> {
    set k | k in keys && |Above(keys, k)| < d
  }

  lemma {:induction false} AboveInList(s: seq<Key>, keys: set<Key>, i: nat)
    requires Ascends(s) && Lists(s, keys) && i < |s|
    ensures |Above(keys, s[i])| == |s| - 1 - i
    decreases |s| - i
  {
    if i == |s| - 1 {
      forall m ensures m !in Above(keys, s[i]) {
        InTail(s, keys, i, m);
      }
      assert Above(keys, s[i]) == {};
    } else {
      AboveInList(s, keys, i + 1);
      var a, b := Above(keys, s[i]), Above(keys, s[i + 1]);
      forall m ensures m in a <==> m in b + {s[i + 1]} {
        InTail(s, keys, i, m);
        InTail(s, keys, i + 1, m);
        assert s[i + 1..] == [s[i + 1]] + s[i + 2..];
      }
      assert a == b + {s[i + 1]} && s[i + 1] !in b;
    }
  }

  lemma InTail(s: seq<Key>, keys: set<Key>, i: nat, m: Key)
    requires Ascends(s) && Lists(s, keys) && i < |s|
    ensures m in Above(keys, s[i]) <==> m in s[i + 1..]
  {
  }

  /** Skipping the last `d` of the keys in ascending order leaves all but the newest `d`. */
  lemma NewestInList(s: seq<Key>, keys: set<Key>, d: nat, i: nat)
    requires Ascends(s) && Lists(s, keys) && i < |s|
    ensures s[i] in Newest(keys, d) <==> i >= |s| - d
  {
    AboveInList(s, keys, i);
    assert s[i] in keys;
  }

  lemma {:induction false} ListLength(s: seq<Key>, keys: set<Key>)
    requires Ascends(s) && Lists(s, keys)
    ensures |s| == |keys|
    decreases |s|
  {
    if s == [] {
      forall k ensures k !in keys { assert k in s <==> k in keys; }
      assert keys == {};
    } else {
      var n := |s| - 1;
      var rest := keys - {s[n]};
      assert s[n] in keys;
      forall k
        ensures k in s[..n] <==> k in rest
      {
        if k in s[..n] {
          var i :| 0 <= i < n && s[i] == k;
          assert Before(s[i], s[n]);
        }
        if k in rest {
          assert k in s;
        }
      }
      ListLength(s[..n], rest);
    }
  }

  /** What KEEP_LAST keeps: the right number of keys, each larger than all that go. */
  lemma NewestAreTheLargest(s: seq<Key>, keys: set<Key>, d: nat)
    requires Ascends(s) && Lists(s, keys)
    ensures |Newest(keys, d)| == if d < |keys| then d else |keys|
    ensures forall a, b :: a in Newest(keys, d) && b in keys && b !in Newest(keys, d) ==> Before(b, a)
  {
    ListLength(s, keys);
    var cut := if d < |s| then |s| - d else 0;
    var tail := s[cut..];
    forall k
      ensures k in tail <==> k in Newest(keys, d)
    {
      if k in tail {
        var i :| 0 <= i < |tail| && tail[i] == k;
        NewestInList(s, keys, d, cut + i);
      }
      if k in Newest(keys, d) {
        assert k in s;
        var i :| 0 <= i < |s| && s[i] == k;
        NewestInList(s, keys, d, i);
        assert tail[i - cut] == k;
      }
    }
    ListLength(tail, Newest(keys, d));
    forall a, b | a in Newest(keys, d) && b in keys && b !in Newest(keys, d)
      ensures Before(b, a)
    {
      assert a in s && b in s;
      var i :| 0 <= i < |s| && s[i] == a;
      var j :| 0 <= j < |s| && s[j] == b;
      NewestInList(s, keys, d, i);
      NewestInList(s, keys, d, j);
    }
  }

  method Least(keys: set<Key>) returns (least: Key)
    requires keys != {}
    ensures least in keys && forall k :: k in keys && k != least ==> Before(least, k)
  {
    least :| least in keys;
    var rest := keys - {least};
    while rest != {}
      invariant rest <= keys && least in keys
      invariant forall k :: k in keys && k !in rest && k != least ==> Before(least, k)
      decreases rest
    {
      var k :| k in rest;
      if Before(k, least) {
        least := k;
      }
      rest := rest - {k};
    }
  }

  /** The keys of a BTreeMap or BTreeSet in the order they are walked. */
  method Walk(keys: set<Key>) returns (s: seq<Key>)
    ensures Ascends(s) && Lists(s, keys)
  {
    s := [];
    var rest := keys;
    while rest != {}
      invariant Ascends(s) && rest <= keys
      invariant forall k :: k in s <==> k in keys && k !in rest
      invariant forall k, m :: k in s && m in rest ==> Before(k, m)
      decreases rest
    {
      var k := Least(rest);
      s := s + [k];
      rest := rest - {k};
    }
  }

  // ---- the vector of keys in order of arrival ----

  ghost predicate NoRepeats(s: seq<Key>) {
    forall i, j :: 0 <= i < j < |s| ==> s[i] != s[j]
  }

  /** `s` without the first occurrence of `k`. */
  function Without(s: seq<Key>, k: Key): seq<Key> {
    if s == [] then [] else if s[0] == k then s[1..] else [s[0]] + Without(s[1..], k)
  }

  lemma {:induction false} WithoutAt(s: seq<Key>, k: Key, i: nat)
    requires i < |s| && s[i] == k && forall j :: 0 <= j < i ==> s[j] != k
    ensures Without(s, k) == s[..i] + s[i + 1..]
  {
    if i == 0 {
    } else {
      WithoutAt(s[1..], k, i - 1);
      assert s[..i] == [s[0]] + s[1..][..i - 1];
      assert s[i + 1..] == s[1..][i..];
    }
  }

  lemma {:induction false} WithoutAbsent(s: seq<Key>, k: Key)
    requires k !in s
    ensures Without(s, k) == s
  {
    if s != [] {
      WithoutAbsent(s[1..], k);
    }
  }

  lemma CutLists(s: seq<Key>, i: nat, keys: set<Key>)
    requires NoRepeats(s) && Lists(s, keys) && i < |s|
    ensures var r := s[..i] + s[i + 1..];
      NoRepeats(r) && Lists(r, keys - {s[i]})
  {
  }

  lemma {:induction false} WithoutLists(s: seq<Key>, k: Key, keys: set<Key>)
    requires NoRepeats(s) && Lists(s, keys)
    ensures NoRepeats(Without(s, k)) && Lists(Without(s, k), keys - {k})
  {
    hide Without;
    if k in s {
      var i :| 0 <= i < |s| && s[i] == k;
      assert forall j :: 0 <= j < i ==> s[j] != k;
      WithoutAt(s, k, i);
      CutLists(s, i, keys);
    } else {
      WithoutAbsent(s, k);
    }
  }

  /** ts2key.iter().position and ts2key.remove. */
  method RemoveFirst(s: seq<Key>, k: Key) returns (r: seq<Key>)
    ensures r == Without(s, k)
  {
    var i := 0;
    while i < |s| && s[i] != k
      invariant i <= |s| && forall j :: 0 <= j < i ==> s[j] != k
    {
      i := i + 1;
    }
    if i < |s| {
      WithoutAt(s, k, i);
      r := s[..i] + s[i + 1..];
    } else {
      WithoutAbsent(s, k);
      r := s;
    }
  }

  // ---- agreement of the indices ----

  /** Every change is filed under its kind, and nothing else is. */
  ghost predicate KindsAgree(changes: map<Key, CacheChange>, kind2key: map<ChangeKind, set<Key>>) {
    && (forall k :: k in changes ==> changes[k].kind in kind2key && k in kind2key[changes[k].kind])
    && (forall c, k :: c in kind2key && k in kind2key[c] ==> k in changes && changes[k].kind == c)
  }

  function Filed(kind2key: map<ChangeKind, set<Key>>, c: ChangeKind): set<Key> {
    if c in kind2key then kind2key[c] else {}
  }

  lemma KindsAgreeWithout(changes: map<Key, CacheChange>, kind2key: map<ChangeKind, set<Key>>, key: Key)
    requires KindsAgree(changes, kind2key) && key in changes
    ensures changes[key].kind in kind2key
    ensures var c := changes[key].kind;
      KindsAgree(changes - {key}, kind2key[c := Filed(kind2key, c) - {key}])
  {
  }

  lemma KindsAgreeWith(changes: map<Key, CacheChange>, kind2key: map<ChangeKind, set<Key>>, key: Key, change: CacheChange)
    requires KindsAgree(changes, kind2key) && key !in changes
    ensures KindsAgree(changes[key := change], kind2key[change.kind := Filed(kind2key, change.kind) + {key}])
  {
  }

  function Members(s: seq<Key>): set<Key> {
    set k | k in s
  }

  lemma MembersGrow(s: seq<Key>, i: nat)
    requires i < |s|
    ensures Members(s[..i + 1]) == Members(s[..i]) + {s[i]}
  {
  }

  lemma OneMoreGone(m: map<Key, CacheChange>, s: set<Key>, gone: set<Key>, k: Key)
    ensures m - gone - {k} == m - (gone + {k}) && s - gone - {k} == s - (gone + {k})
  {
  }

  ghost predicate AllCached(nums: set<int>, changes: map<Key, CacheChange>) {
    forall n :: n in nums ==> exists k :: k in changes && k.seqNum == n
  }

  lemma AllCachedWithout(nums: set<int>, changes: map<Key, CacheChange>, key: Key)
    requires AllCached(nums, changes) && key.seqNum !in nums
    ensures AllCached(nums, changes - {key})
  {
  }

  lemma AllCachedWith(nums: set<int>, changes: map<Key, CacheChange>, key: Key, change: CacheChange)
    requires AllCached(nums, changes)
    ensures AllCached(nums, changes[key := change]) && AllCached(nums + {key.seqNum}, changes[key := change])
  {
  }

  ghost predicate Agree(changes: map<Key, CacheChange>, ts2key: seq<Key>, kind2key: map<ChangeKind, set<Key>>) {
    && NoRepeats(ts2key) && Lists(ts2key, changes.Keys) && KindsAgree(changes, kind2key)
    && forall k :: k in changes ==> KeyOf(changes[k]) == k
  }

  lemma ReadyLeft(ready: set<Key>, room: set<Key>, keys: set<Key>, key: Key)
    requires key !in ready && forall k :: k in keys ==> k == key || k in room
    ensures ready * room * keys == ready * keys
  {
  }

  /** What becomes of a change that is offered to a cache. */
  function OutcomeFor(kind: CacheKind, changes: map<Key, CacheChange>, change: CacheChange,
                      reliable: bool, maxSamples: int): AddOutcome {
    var key := KeyOf(change);
    if key in changes then
      if changes[key].data == change.data && kind != DummyCache then Refreshed else Panicked
    else if !LimitReached(|changes|, maxSamples) then Added
    else match kind
      case DummyCache => Panicked
      case WriterCache => if reliable then WouldBlock else if changes == map[] then Panicked else Added
      case ReaderCache => if reliable then Discarded else if changes == map[] then Panicked else Added
  }

  /** KEEP_LAST is enforced by readers only. */
  ghost function Stored(kind: CacheKind, history: History, all: map<Key, CacheChange>): map<Key, CacheChange> {
    if kind == ReaderCache && history.KeepLast?
    then all - (all.Keys - Newest(all.Keys, history.depth))
    else all
  }

  /** Adding never panics when samples are unlimited or at least two are allowed, unless
      a known key comes back with other contents. */
  lemma AddingPanics(kind: CacheKind, changes: map<Key, CacheChange>, change: CacheChange, reliable: bool, maxSamples: int)
    requires kind != DummyCache
    ensures var key := KeyOf(change);
      OutcomeFor(kind, changes, change, reliable, maxSamples) == Panicked <==>
        || (key in changes && changes[key].data != change.data)
        || (changes == map[] && !reliable && 0 <= maxSamples <= 1)
  {
  }

  lemma StoredWhole(kind: CacheKind, history: History, all: map<Key, CacheChange>)
    requires kind != ReaderCache || history.KeepAll?
    ensures Stored(kind, history, all) == all
  {
  }

  /** Of the changes `before`, which came in the order of `order`, the one that came first
      goes if the cache is full, and none if it is not. */
  predicate OldestOut(before: map<Key, CacheChange>, order: seq<Key>, maxSamples: int,
                      after: map<Key, CacheChange>, newOrder: seq<Key>) {
    if 0 <= maxSamples <= |before| + 1 then order != [] && newOrder == order[1..] && after == before - {order[0]}
    else newOrder == order && after == before
  }

  /** The new change comes last. */
  ghost predicate OldestGoes(before: map<Key, CacheChange>, order: seq<Key>, change: CacheChange, maxSamples: int,
                             after: map<Key, CacheChange>, newOrder: seq<Key>) {
    exists room, left :: OldestOut(before, order, maxSamples, room, left)
      && after == room[KeyOf(change) := change] && newOrder == left + [KeyOf(change)]
  }

  /** A KEEP_LAST reader stores the `depth` largest keys, or all if there are fewer; any other
      cache stores all. */
  lemma StoredExactly(kind: CacheKind, history: History, all: map<Key, CacheChange>, s: seq<Key>)
    requires Ascends(s) && Lists(s, all.Keys)
    ensures var r := Stored(kind, history, all);
      && (forall k :: k in r ==> k in all && r[k] == all[k])
      && if kind == ReaderCache && history.KeepLast? && history.depth < |s|
         then |r| == history.depth && forall a, b :: a in r && b in all && b !in r ==> Before(b, a)
         else r == all
  {
    hide Newest, Ascends, Lists;
    if kind == ReaderCache && history.KeepLast? {
      NewestAreTheLargest(s, all.Keys, history.depth);
      ListLength(s, all.Keys);
      assert Newest(all.Keys, history.depth) <= all.Keys by {
        NewestAreKeys(all.Keys, history.depth);
      }
      var r := Stored(kind, history, all);
      assert r.Keys == Newest(all.Keys, history.depth) && |r| == |r.Keys|;
      if history.depth >= |s| {
        AllKept(s, all.Keys, history.depth);
      }
    }
  }

  lemma NewestAreKeys(keys: set<Key>, d: nat)
    ensures Newest(keys, d) <= keys
  {
  }

  lemma AllKept(s: seq<Key>, keys: set<Key>, d: nat)
    requires Ascends(s) && Lists(s, keys) && d >= |s|
    ensures Newest(keys, d) == keys
  {
    forall k | k in keys
      ensures k in Newest(keys, d)
    {
      assert k in s;
      var i :| 0 <= i < |s| && s[i] == k;
      NewestInList(s, keys, d, i);
    }
  }

  // ---- the cache ----

  class HistoryCache {
    const kind: CacheKind
    var changes: map<Key, CacheChange>
    var ts2key: seq<Key>
    var kind2key: map<ChangeKind, set<Key>>
    var unprocessed: set<int>
    var taken: set<Key>
    var ready: set<Key>
    var lastAdded: map<Guid, int>        // when a writer's last change was added

    constructor (kind: CacheKind)
      ensures Valid() && this.kind == kind
      ensures changes == map[] && ts2key == [] && unprocessed == {} && taken == {} && ready == {} && lastAdded == map[]
    {
      this.kind := kind;
      changes, ts2key, kind2key, unprocessed, taken, ready, lastAdded := map[], [], map[], {}, {}, {}, map[];
    }

    /** The indices agree with the map of changes. */
    ghost predicate Valid()
      reads this
    {
      && Agree(changes, ts2key, kind2key)
      && ready <= changes.Keys && AllCached(unprocessed, changes)
      && (kind != WriterCache ==> unprocessed == {})
      && (kind != ReaderCache ==> ready == {} && taken == {})
    }

    /** Forgets `key` everywhere, unless its number is still unprocessed. */
    method RemoveChange(key: Key, isTaken: bool)
      requires Valid()
      modifies this`changes, this`ts2key, this`kind2key, this`ready, this`taken
      ensures Valid() && unprocessed == old(unprocessed)
      ensures key.seqNum in unprocessed ==>
        changes == old(changes) && ts2key == old(ts2key) && ready == old(ready) && taken == old(taken)
      ensures key.seqNum !in unprocessed ==>
        && changes == old(changes) - {key} && ts2key == Without(old(ts2key), key) && ready == old(ready) - {key}
        && taken == old(taken) + if isTaken && kind == ReaderCache && key in old(changes) then {key} else {}
    {
      hide NoRepeats, Lists, KindsAgree, AllCached, Without;
      if key.seqNum in unprocessed {
        return;
      }
      WithoutLists(ts2key, key, changes.Keys);
      if key in changes {
        var c := changes[key];
        KindsAgreeWithout(changes, kind2key, key);
        AllCachedWithout(unprocessed, changes, key);
        changes := changes - {key};
        if kind == ReaderCache {
          if isTaken {
            taken := taken + {key};
          }
          ready := ready - {key};
        }
        kind2key := kind2key[c.kind := kind2key[c.kind] - {key}];
      }
      ts2key := RemoveFirst(ts2key, key);
      assert changes.Keys == old(changes.Keys) - {key};
    }

    method RemoveChangeIfExist(key: Key)
      requires Valid()
      modifies this`changes, this`ts2key, this`kind2key, this`ready, this`taken
      ensures Valid() && unprocessed == old(unprocessed) && taken == old(taken)
      ensures key.seqNum in unprocessed ==> changes == old(changes) && ready == old(ready)
      ensures key.seqNum !in unprocessed ==> changes == old(changes) - {key} && ready == old(ready) - {key}
    {
      if key in changes {
        RemoveChange(key, false);
      }
    }

    /** Removes the keys of `todo` one after the other; none of them is unprocessed. */
    method RemoveAll(todo: seq<Key>, isTaken: bool)
      requires Valid()
      requires forall k :: k in todo ==> k.seqNum !in unprocessed && k in changes
      requires NoRepeats(todo)
      modifies this`changes, this`ts2key, this`kind2key, this`ready, this`taken
      ensures Valid() && unprocessed == old(unprocessed)
      ensures changes == old(changes) - Members(todo) && ready == old(ready) - Members(todo)
      ensures taken == old(taken) + if isTaken && kind == ReaderCache then Members(todo) else {}
    {
      var i := 0;
      while i < |todo|
        invariant i <= |todo| && Valid() && unprocessed == old(unprocessed)
        invariant changes == old(changes) - Members(todo[..i]) && ready == old(ready) - Members(todo[..i])
        invariant taken == old(taken) + if isTaken && kind == ReaderCache then Members(todo[..i]) else {}
      {
        MembersGrow(todo, i);
        OneMoreGone(old(changes), old(ready), Members(todo[..i]), todo[i]);
        assert todo[i] in todo && todo[i] !in Members(todo[..i]);
        RemoveChange(todo[i], isTaken);
        i := i + 1;
      }
      assert todo[..i] == todo;
    }

    /** Puts a new change into every index. */
    method Insert(key: Key, change: CacheChange)
      requires Valid() && key !in changes && key == KeyOf(change)
      modifies this`changes, this`ts2key, this`kind2key, this`lastAdded
      ensures Valid() && changes == old(changes)[key := change] && ts2key == old(ts2key) + [key]
      ensures lastAdded == old(lastAdded)[change.writerGuid := change.timestamp]
    {
      KindsAgreeWith(changes, kind2key, key, change);
      AllCachedWith(unprocessed, changes, key, change);
      lastAdded := lastAdded[key.guid := change.timestamp];
      ts2key := ts2key + [key];
      kind2key := kind2key[change.kind := (if change.kind in kind2key then kind2key[change.kind] else {}) + {key}];
      changes := changes[key := change];
    }

    /** KEEP_LAST: the keys beyond the `depth` largest go. */
    method KeepNewest(depth: nat)
      requires Valid() && kind == ReaderCache
      modifies this`changes, this`ts2key, this`kind2key, this`ready, this`taken
      ensures Valid() && unprocessed == old(unprocessed) && taken == old(taken)
      ensures changes == old(changes) - (old(changes).Keys - Newest(old(changes).Keys, depth))
      ensures ready == old(ready) * changes.Keys
    {
      var keys := Walk(changes.Keys);
      var todo := if depth < |keys| then keys[..|keys| - depth] else [];
      forall k
        ensures k in todo <==> k in changes.Keys - Newest(changes.Keys, depth)
      {
        if k in changes {
          assert k in keys;
          var i :| 0 <= i < |keys| && keys[i] == k;
          NewestInList(keys, changes.Keys, depth, i);
          assert i < |todo| ==> todo[i] == k;
        }
      }
      assert Members(todo) == changes.Keys - Newest(changes.Keys, depth);
      RemoveAll(todo, false);
    }

    method RemoveChangesFromWriter(guid: Guid)
      requires Valid()
      modifies this`changes, this`ts2key, this`kind2key, this`ready, this`taken
      ensures Valid() && unprocessed == old(unprocessed) && taken == old(taken)
      ensures kind == ReaderCache ==>
        && changes == (map k | k in old(changes) && k.guid != guid :: old(changes)[k])
        && ready == set k | k in old(ready) && k.guid != guid
      ensures kind != ReaderCache ==> changes == old(changes) && ready == old(ready)
    {
      if kind == ReaderCache {
        var todo := Walk(set k | k in changes && k.guid == guid);
        RemoveAll(todo, false);
      }
    }

    /** The change that goes first when a best-effort cache is full. */
    ghost function Evicted(): set<Key>
      reads this
    {
      if ts2key == [] || ts2key[0].seqNum in unprocessed then {} else {ts2key[0]}
    }

    /** The changes just before `key` is put in. */
    ghost function RoomMade(maxSamples: int): map<Key, CacheChange>
      reads this
    {
      if LimitReached(|changes|, maxSamples) then changes - Evicted() else changes
    }

    /** The changes once `change` has been offered and met with `outcome`. */
    ghost function Offered(change: CacheChange, outcome: AddOutcome, maxSamples: int, history: History): map<Key, CacheChange>
      reads this
    {
      if outcome == Added then Stored(kind, history, RoomMade(maxSamples)[KeyOf(change) := change]) else changes
    }

    /** A writer's cache notes which changes its RTPS Writer has not seen yet. */
    method Note(key: Key)
      requires Valid() && key in changes
      modifies this`unprocessed
      ensures Valid()
      ensures unprocessed == old(unprocessed) + if kind == WriterCache then {key.seqNum} else {}
    {
      if kind == WriterCache {
        AllCachedWith(unprocessed, changes, key, changes[key]);
        assert changes[key := changes[key]] == changes;
        unprocessed := unprocessed + {key.seqNum};
      }
    }

    /** A full cache: a reliable endpoint gives up, another one drops its oldest sample. */
    method MakeRoom(reliable: bool) returns (stop: Option<AddOutcome>)
      requires Valid()
      modifies this`changes, this`ts2key, this`kind2key, this`ready, this`taken
      ensures Valid() && taken == old(taken) && unprocessed == old(unprocessed)
      ensures stop == if kind == DummyCache then Some(Panicked)
        else if reliable then Some(if kind == WriterCache then WouldBlock else Discarded)
        else if old(changes) == map[] then Some(Panicked)
        else None
      ensures stop.Some? ==> changes == old(changes) && ts2key == old(ts2key) && ready == old(ready)
      ensures stop.None? ==> changes == old(changes - Evicted()) && ready == old(ready) - old(Evicted())
      ensures stop.None? && kind == ReaderCache ==>
        old(ts2key) != [] && changes == old(changes) - {old(ts2key)[0]} && ts2key == old(ts2key)[1..]
    {
      if kind == DummyCache {
        return Some(Panicked);
      }
      if reliable {
        return Some(if kind == WriterCache then WouldBlock else Discarded);
      }
      assert ts2key == [] ==> forall k :: k !in changes;
      if |ts2key| == 0 {
        return Some(Panicked);
      }
      assert ts2key[0] in ts2key;
      RemoveChange(ts2key[0], false);
      stop := None;
    }

    method AddNew(key: Key, change: CacheChange, history: History)
      requires Valid() && key !in changes && key == KeyOf(change)
      modifies this
      ensures Valid() && taken == old(taken)
      ensures kind != ReaderCache || history.KeepAll? ==> ts2key == old(ts2key) + [key]
      ensures changes == Stored(kind, history, old(changes)[key := change])
      ensures ready == old(ready) * changes.Keys && lastAdded == old(lastAdded)[change.writerGuid := change.timestamp]
      ensures unprocessed == old(unprocessed) + if kind == WriterCache then {key.seqNum} else {}
    {
      Insert(key, change);
      if kind == ReaderCache && history.KeepLast? {
        KeepNewest(history.depth);
      } else {
        Note(key);
      }
    }

    method RoomFor(reliable: bool, maxSamples: int) returns (stop: Option<AddOutcome>)
      requires Valid()
      modifies this`changes, this`ts2key, this`kind2key, this`ready, this`taken
      ensures Valid() && taken == old(taken) && unprocessed == old(unprocessed)
      ensures stop == if !LimitReached(|old(changes)|, maxSamples) then None
        else if kind == DummyCache then Some(Panicked)
        else if reliable then Some(if kind == WriterCache then WouldBlock else Discarded)
        else if old(changes) == map[] then Some(Panicked)
        else None
      ensures stop.Some? ==> changes == old(changes) && ts2key == old(ts2key) && ready == old(ready)
      ensures stop.None? ==> changes == old(RoomMade(maxSamples)) && ready == old(ready) * changes.Keys
      ensures stop.None? && kind == ReaderCache ==> OldestOut(old(changes), old(ts2key), maxSamples, changes, ts2key)
      ensures !LimitReached(|old(changes)|, maxSamples) ==> ts2key == old(ts2key)
    {
      hide Agree, AllCached;
      stop := None;
      if LimitReached(|changes|, maxSamples) {
        stop := MakeRoom(reliable);
      }
    }

    method AddUnknown(change: CacheChange, reliable: bool, maxSamples: int, history: History) returns (outcome: AddOutcome)
      requires Valid() && KeyOf(change) !in changes
      modifies this
      ensures Valid() && taken == old(taken)
      ensures outcome == OutcomeFor(kind, old(changes), change, reliable, maxSamples) != Refreshed
      ensures outcome != Added ==>
        changes == old(changes) && ts2key == old(ts2key) && ready == old(ready) && unprocessed == old(unprocessed)
      ensures lastAdded == if outcome == Added then old(lastAdded)[change.writerGuid := change.timestamp] else old(lastAdded)
      ensures outcome == Added && kind == WriterCache && reliable ==> ts2key == old(ts2key) + [KeyOf(change)]
      ensures outcome == Added && kind == ReaderCache && history.KeepAll? ==>
        OldestGoes(old(changes), old(ts2key), change, maxSamples, changes, ts2key)
      ensures outcome == Added ==>
        && changes == Stored(kind, history, old(RoomMade(maxSamples))[KeyOf(change) := change])
        && ready == old(ready) * changes.Keys
        && unprocessed == old(unprocessed) + if kind == WriterCache then {change.seqNum} else {}
    {
      var stop := RoomFor(reliable, maxSamples);
      if stop.Some? {
        return stop.value;
      }
      ghost var room, left := changes, ts2key;
      AddNew(KeyOf(change), change, history);
      ReadyLeft(old(ready), room.Keys, changes.Keys, KeyOf(change));
      if kind == ReaderCache && history.KeepAll? {
        StoredWhole(kind, history, room[KeyOf(change) := change]);
        assert OldestOut(old(changes), old(ts2key), maxSamples, room, left);
      }
      outcome := Added;
    }

    /** A change that is known already: only the time is new, and a writer sends it again. */
    method Refresh(key: Key, timestamp: int)
      requires Valid() && key in changes
      modifies this`lastAdded, this`unprocessed
      ensures Valid() && lastAdded == old(lastAdded)[key.guid := timestamp]
      ensures unprocessed == old(unprocessed) + if kind == WriterCache then {key.seqNum} else {}
    {
      lastAdded := lastAdded[key.guid := timestamp];
      Note(key);
    }

    method AddKnown(change: CacheChange, reliable: bool, maxSamples: int) returns (outcome: AddOutcome)
      requires Valid() && KeyOf(change) in changes
      modifies this`lastAdded, this`unprocessed
      ensures Valid() && outcome == OutcomeFor(kind, changes, change, reliable, maxSamples) != Added
      ensures lastAdded == if outcome == Refreshed then old(lastAdded)[change.writerGuid := change.timestamp] else old(lastAdded)
      ensures unprocessed == old(unprocessed) + if kind == WriterCache && outcome == Refreshed then {change.seqNum} else {}
    {
      var key := KeyOf(change);
      if changes[key].data != change.data || kind == DummyCache {
        return Panicked;
      }
      Refresh(key, change.timestamp);
      outcome := Refreshed;
    }

    /** An offered change is known already, or refused, or put in; a best-effort reader that is
        full drops the one that came first. */
    method AddChange(change: CacheChange, reliable: bool, maxSamples: int, history: History) returns (outcome: AddOutcome)
      requires Valid()
      modifies this
      ensures Valid() && taken == old(taken)
      ensures outcome == OutcomeFor(kind, old(changes), change, reliable, maxSamples)
      ensures changes == old(Offered(change, outcome, maxSamples, history)) && ready == old(ready) * changes.Keys
      ensures outcome != Added ==> changes == old(changes) && ts2key == old(ts2key) && ready == old(ready)
      ensures outcome == Added && kind == WriterCache && reliable ==> ts2key == old(ts2key) + [KeyOf(change)]
      ensures outcome == Added && kind == ReaderCache && history.KeepAll? ==>
        OldestGoes(old(changes), old(ts2key), change, maxSamples, changes, ts2key)
      ensures lastAdded == if outcome == Added || outcome == Refreshed
        then old(lastAdded)[change.writerGuid := change.timestamp] else old(lastAdded)
      ensures unprocessed == old(unprocessed)
        + if kind == WriterCache && (outcome == Added || outcome == Refreshed) then {change.seqNum} else {}
    {
      hide Agree, AllCached, Stored, OutcomeFor;
      if KeyOf(change) in changes {
        outcome := AddKnown(change, reliable, maxSamples);
      } else {
        outcome := AddUnknown(change, reliable, maxSamples, history);
      }
    }

    method AddEmptyChange(guid: Guid, now: int)
      requires Valid()
      modifies this`lastAdded
      ensures Valid() && lastAdded == old(lastAdded)[guid := now]
    {
      lastAdded := lastAdded[guid := now];
    }

    method GetLastAdded(guid: Guid) returns (timestamp: Option<int>)
      requires Valid()
      ensures timestamp == if guid in lastAdded then Some(lastAdded[guid]) else None
    {
      timestamp := if guid in lastAdded then Some(lastAdded[guid]) else None;
    }

    method GetUnprocessed() returns (nums: set<int>)
      requires Valid() && kind == WriterCache
      modifies this`unprocessed
      ensures Valid() && nums == old(unprocessed) && unprocessed == {}
      ensures changes == old(changes) && ts2key == old(ts2key) && ready == old(ready) && taken == old(taken)
    {
      nums := unprocessed;
      unprocessed := {};
    }

    method GetTaken() returns (keys: set<Key>)
      requires Valid() && kind == ReaderCache
      modifies this`taken
      ensures Valid() && keys == old(taken) && taken == {}
      ensures changes == old(changes) && ts2key == old(ts2key) && ready == old(ready) && unprocessed == old(unprocessed)
    {
      keys := taken;
      taken := {};
    }

    method GetTakenLessThan(guid: Guid, seqNum: int) returns (keys: set<Key>)
      requires Valid() && kind == ReaderCache
      modifies this`taken
      ensures Valid() && keys + taken == old(taken)
      ensures forall k :: k in keys <==> k in old(taken) && k.guid == guid && k.seqNum < seqNum
      ensures forall k :: k in taken <==> k in old(taken) && !(k.guid == guid && k.seqNum < seqNum)
      ensures changes == old(changes) && ready == old(ready) && unprocessed == old(unprocessed)
    {
      keys := set k | k in taken && k.guid == guid && k.seqNum < seqNum;
      taken := taken - keys;
    }

    /** Everything cached may be read from now on. */
    method Flush() returns (flushed: bool)
      requires Valid() && kind == ReaderCache
      modifies this`ready
      ensures Valid() && ready == changes.Keys && (flushed <==> changes != map[])
      ensures changes == old(changes) && taken == old(taken) && unprocessed == old(unprocessed)
    {
      var keys := Walk(changes.Keys);
      flushed := false;
      var i := 0;
      while i < |keys|
        invariant i <= |keys| && (flushed <==> i > 0)
        invariant ready == old(ready) + set k | k in keys[..i]
        invariant changes == old(changes) && taken == old(taken) && unprocessed == old(unprocessed)
        invariant ts2key == old(ts2key) && kind2key == old(kind2key)
      {
        assert keys[..i + 1] == keys[..i] + [keys[i]];
        ready := ready + {keys[i]};
        flushed := true;
        i := i + 1;
      }
      assert keys[..i] == keys;
      assert forall k :: k in changes <==> k in keys;
      assert ready == changes.Keys;
      if |keys| > 0 {
        assert keys[0] in keys;
      } else {
        assert forall k :: k !in changes;
      }
    }

    /** The ready changes that are alive, in ascending order. A key filed as alive whose
        change is gone would be a panic. */
    method GetReadyChanges() returns (keys: seq<Key>, found: seq<CacheChange>, panicked: bool)
      requires Valid()
      ensures !panicked && Ascends(keys) && |found| == |keys|
      ensures forall k :: k in keys <==> k in ready && changes[k].kind == Alive
      ensures forall i :: 0 <= i < |keys| ==> keys[i] in changes && found[i] == changes[keys[i]]
    {
      keys, found, panicked := [], [], false;
      if Alive in kind2key {
        var alive := Walk(kind2key[Alive]);
        var i := 0;
        while i < |alive|
          invariant i <= |alive| && |found| == |keys| && Ascends(keys)
          invariant forall k :: k in keys <==> k in alive[..i] && k in ready
          invariant forall j, m :: 0 <= j < |keys| && i <= m < |alive| ==> Before(keys[j], alive[m])
          invariant forall j :: 0 <= j < |keys| ==> keys[j] in changes && found[j] == changes[keys[j]]
        {
          assert alive[..i + 1] == alive[..i] + [alive[i]];
          assert alive[i] in alive;
          if alive[i] in ready {
            if alive[i] !in changes {
              panicked := true;
              return;
            }
            keys, found := keys + [alive[i]], found + [changes[alive[i]]];
          }
          i := i + 1;
        }
        assert alive[..i] == alive;
      }
    }

    ghost predicate IsSettled(n: int)
      reads this
    {
      n !in unprocessed && exists k :: k in changes && k.seqNum == n
    }

    /** The smallest number that has been handed to the proxies, or 0. */
    method GetSeqNumMin() returns (min: int)
      ensures (min == 0 && forall n :: !IsSettled(n)) || (IsSettled(min) && forall n :: IsSettled(n) ==> min <= n)
    {
      var rest, found := changes.Keys, false;
      min := 0;
      while rest != {}
        invariant rest <= changes.Keys
        invariant found ==> IsSettled(min)
        invariant !found ==> min == 0
        invariant forall k :: k in changes && k !in rest && k.seqNum !in unprocessed ==> found && min <= k.seqNum
        decreases rest
      {
        var k :| k in rest;
        if (!found || k.seqNum < min) && k.seqNum !in unprocessed {
          found, min := true, k.seqNum;
        }
        rest := rest - {k};
      }
    }

    /** The largest number that has been handed to the proxies, or 0. */
    method GetSeqNumMax() returns (max: int)
      ensures (max == 0 && forall n :: !IsSettled(n)) || (IsSettled(max) && forall n :: IsSettled(n) ==> n <= max)
    {
      var rest, found := changes.Keys, false;
      max := 0;
      while rest != {}
        invariant rest <= changes.Keys
        invariant found ==> IsSettled(max)
        invariant !found ==> max == 0
        invariant forall k :: k in changes && k !in rest && k.seqNum !in unprocessed ==> found && k.seqNum <= max
        decreases rest
      {
        var k :| k in rest;
        if (!found || k.seqNum > max) && k.seqNum !in unprocessed {
          found, max := true, k.seqNum;
        }
        rest := rest - {k};
      }
    }
  }
}
