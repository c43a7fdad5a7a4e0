/** Identifiers and small containers shared by the whole model. */
module Types {

  datatype Option<+T> = None | Some(value: T)

  /** A GUID as the 128-bit big-endian number its 16 octets spell: 12 octets of
      prefix, then 4 octets of entity id. Comparing GUIDs octet by octet is then
      comparing numbers. */
  type Guid = int
  type EntityId = int
  type GuidPrefix = int

  const ENTITY_SPAN: nat := 0x1_0000_0000
  const ENTITYID_UNKNOWN: EntityId := 0

  function EntityOf(g: Guid): EntityId {
    g % ENTITY_SPAN
  }

  function PrefixOf(g: Guid): GuidPrefix {
    g / ENTITY_SPAN
  }

  type Octet = n: int | 0 <= n < 0x100

  /** The octets of a serialized payload. */
  type Payload = seq<Octet>

  /** The most a UDP datagram holds over IPv4; a longer message fails to be sent. */
  const MAX_DATAGRAM: nat := 65507

  /** The reader can be given a DATA with this payload: there is something after the four
      octets of its header, and with the 56 octets that come before it, it is one datagram.
      Messages.DeliverableExactly says why. */
  predicate Deliverable(p: Payload) {
    4 < |p| <= MAX_DATAGRAM - 56
  }

  datatype Locator = Locator(kind: int, port: nat, address: seq<Octet>)

  datatype Durability = Volatile | TransientLocal

  datatype History = KeepAll | KeepLast(depth: nat)

  const LENGTH_UNLIMITED: int := -1

  /** One more sample would reach max_samples. Any other negative limit turns into a huge
      unsigned one and is never reached. */
  predicate LimitReached(samples: nat, maxSamples: int) {
    maxSamples != LENGTH_UNLIMITED && 0 <= maxSamples <= samples + 1
  }
}

/** Sets of numbers listed in ascending order, the order in which a BTreeMap or a
    BTreeSet is walked. */
module Ascending {

  ghost predicate IsAscending(s: seq<int>) {
    forall i, j :: 0 <= i < j < |s| ==> s[i] < s[j]
  }

  predicate Within(nums: seq<int>, s: set<int>) {
    forall i :: 0 <= i < |nums| ==> nums[i] in s
  }

  lemma Member<T>(s: set<T>) returns (x: T)
    requires s != {}
    ensures x in s
  {
    x :| x in s;
  }

  lemma {:induction false} MinExists(s: set<int>)
    requires s != {}
    ensures exists m :: m in s && forall k :: k in s ==> m <= k
    decreases s
  {
    var x := Member(s);
    if s == {x} {
      assert forall k :: k in s ==> x <= k;
    } else {
      MinExists(s - {x});
      var r :| r in s - {x} && forall k :: k in s - {x} ==> r <= k;
      var m := if r < x then r else x;
      assert forall k :: k in s ==> k == x || k in s - {x};
      assert m in s && forall k :: k in s ==> m <= k;
    }
  }

  ghost function Min(s: set<int>): (m: int)
    requires s != {}
    ensures m in s && forall k :: k in s ==> m <= k
  {
    MinExists(s);
    var m :| m in s && forall k :: k in s ==> m <= k;
    m
  }

  lemma {:induction false} MaxExists(s: set<int>)
    requires s != {}
    ensures exists m :: m in s && forall k :: k in s ==> k <= m
  {
    var neg := set k | k in s :: -k;
    var x := Member(s);
    assert -x in neg;
    var m := -Min(neg);
    forall k | k in s ensures k <= m {
      assert -k in neg;
    }
    assert m in s;
  }

  ghost function Max(s: set<int>): (m: int)
    requires s != {}
    ensures m in s && forall k :: k in s ==> k <= m
  {
    MaxExists(s);
    var m :| m in s && forall k :: k in s ==> k <= m;
    m
  }

  /** The members of `s`, smallest first. */
  ghost function List(s: set<int>): (r: seq<int>)
    ensures IsAscending(r) && |r| == |s|
    ensures forall k :: k in r <==> k in s
    ensures Within(r, s)
    decreases s
  {
    if s == {} then []
    else
      var m := Min(s);
      var r := List(s - {m});
      assert forall i :: 0 <= i < |r| ==> r[i] in r;
      [m] + r
  }

  lemma {:induction false} AscendingUnique(a: seq<int>, b: seq<int>)
    requires IsAscending(a) && IsAscending(b)
    requires forall n :: n in a <==> n in b
    ensures a == b
    decreases |a|
  {
    assert (a != [] ==> a[0] in a) && (b != [] ==> b[0] in b);
    if a == [] {
      assert b == [];
    } else {
      assert a[0] in b && b != [];
      assert b[0] in a;
      assert a[0] == b[0];
      forall n
        ensures n in a[1..] <==> n in b[1..]
      {
        assert n in a <==> n == a[0] || n in a[1..];
        assert n in b <==> n == b[0] || n in b[1..];
        assert a[0] !in a[1..] && b[0] !in b[1..];
      }
      AscendingUnique(a[1..], b[1..]);
    }
  }

  function NumbersIn(nums: seq<int>): set<int> {
    set n | n in nums
  }

  lemma ListStep(s: set<int>, m: int)
    requires m in s && forall k :: k in s ==> m <= k
    ensures List(s) == [m] + List(s - {m})
  {
    assert Min(s) == m;
  }

  lemma Shift(r: seq<int>, m: int, rest: seq<int>, all: seq<int>)
    requires all == [m] + rest
    ensures r + all == r + [m] + rest
  {
  }

  lemma WalkStep(r: seq<int>, s: set<int>, m: int)
    requires m in s && forall k :: k in s ==> m <= k
    ensures r + List(s) == r + [m] + List(s - {m})
  {
    ListStep(s, m);
    Shift(r, m, List(s - {m}), List(s));
  }

  method Pick<T(==)>(s: set<T>) returns (x: T)
    requires s != {}
    ensures x in s
  {
    x :| x in s;
  }

  method Smallest(s: set<int>) returns (m: int)
    requires s != {}
    ensures m in s && forall k :: k in s ==> m <= k
  {
    m := Pick(s);
    var rest := s - {m};
    while rest != {}
      invariant rest <= s && m in s
      invariant forall k :: k in s && k !in rest ==> m <= k
      decreases |rest|
    {
      var k := Pick(rest);
      if k < m {
        m := k;
      }
      rest := rest - {k};
    }
  }

  /** The numbers of a BTreeSet, or the keys of a BTreeMap, in the order they are walked. */
  method Walk(s: set<int>) returns (r: seq<int>)
    ensures r == List(s)
  {
    r := [];
    var rest := s;
    while rest != {}
      invariant r + List(rest) == List(s)
      decreases |rest|
    {
      var m := Smallest(rest);
      WalkStep(r, rest, m);
      r := r + [m];
      rest := rest - {m};
    }
  }
}
