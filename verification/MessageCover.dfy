/** Writer::min_message_cover (src/rtps/writer.rs:834-859): one submessage for several
    readers, with as few messages as their locators allow. */
module MessageCover {
  import opened Types
  import opened Ascending
  import opened WriterModel

  /** One message: the reader's entity id, or UNKNOWN for whoever listens there. */
  datatype Message = Message(entity: EntityId, locator: Locator)

  /** One reader at one of its locators. */
  datatype Pair = Pair(guid: Guid, locator: Locator)

  function PairsOf(t: Target): seq<Pair> {
    seq(|t.locators|, i requires 0 <= i < |t.locators| => Pair(t.guid, t.locators[i]))
  }

  /** All pairs, in the order in which they are listed. */
  function Flat(ts: seq<Target>): seq<Pair> {
    if ts == [] then [] else Flat(ts[..|ts| - 1]) + PairsOf(ts[|ts| - 1])
  }

  function ReadersAt(ps: seq<Pair>, l: Locator): set<Guid> {
    set i | 0 <= i < |ps| && ps[i].locator == l :: ps[i].guid
  }

  function LocatorsIn(ps: seq<Pair>): set<Locator> {
    set i | 0 <= i < |ps| :: ps[i].locator
  }

  predicate Shared(ps: seq<Pair>, l: Locator) {
    |ReadersAt(ps, l)| > 1
  }

  // ---- what is asked of a list of messages ----

  predicate Reaches(m: Message, p: Pair) {
    m.locator == p.locator && (m.entity == ENTITYID_UNKNOWN || m.entity == EntityOf(p.guid))
  }

  ghost predicate Covers(r: seq<Message>, ps: seq<Pair>) {
    forall p :: p in ps ==> exists m :: m in r && Reaches(m, p)
  }

  /** Every message is for a listed pair, and addressed to UNKNOWN only where at least
      two of the readers listen. */
  ghost predicate OnlyNeeded(r: seq<Message>, ps: seq<Pair>) {
    forall m :: m in r ==>
      || (m.entity == ENTITYID_UNKNOWN && Shared(ps, m.locator))
      || (exists p :: p in ps && m == Message(EntityOf(p.guid), p.locator) && !Shared(ps, p.locator))
  }

  /** No locator that one reader has for itself is listed twice. */
  ghost predicate OncePrivately(ps: seq<Pair>) {
    forall i, j :: 0 <= i < j < |ps| && ps[i].locator == ps[j].locator ==> Shared(ps, ps[i].locator)
  }

  // ---- the algorithm ----

  function Table(ps: seq<Pair>): map<Locator, set<Guid>> {
    map l | l in LocatorsIn(ps) :: ReadersAt(ps, l)
  }

  lemma TableMore(ps: seq<Pair>, p: Pair)
    ensures var t := Table(ps);
      Table(ps + [p]) == t[p.locator := (if p.locator in t then t[p.locator] else {}) + {p.guid}]
  {
    var t, r := Table(ps), Table(ps + [p]);
    var u := t[p.locator := (if p.locator in t then t[p.locator] else {}) + {p.guid}];
    NobodyAt(ps, p.locator);
    forall l
      ensures l in r <==> l in u
    {
      LocatorMore(ps, p, l);
    }
    forall l | l in r
      ensures r[l] == u[l]
    {
      ReadersMore(ps, p, l);
    }
    assert r == u;
  }

  lemma NobodyAt(ps: seq<Pair>, l: Locator)
    ensures l !in LocatorsIn(ps) ==> ReadersAt(ps, l) == {}
  {
  }

  lemma LocatorMore(ps: seq<Pair>, p: Pair, l: Locator)
    ensures l in LocatorsIn(ps + [p]) <==> l in LocatorsIn(ps) || l == p.locator
  {
    var all := ps + [p];
    if l in LocatorsIn(ps) {
      var i :| 0 <= i < |ps| && ps[i].locator == l;
      assert all[i].locator == l;
    }
    if l == p.locator {
      assert all[|ps|].locator == l;
    }
  }

  lemma ReaderMore(ps: seq<Pair>, p: Pair, l: Locator, g: Guid)
    ensures g in ReadersAt(ps + [p], l) <==> g in ReadersAt(ps, l) || (l == p.locator && g == p.guid)
  {
    var all := ps + [p];
    if g in ReadersAt(ps, l) {
      var i :| 0 <= i < |ps| && ps[i].locator == l && ps[i].guid == g;
      assert all[i].locator == l && all[i].guid == g;
    }
    if l == p.locator && g == p.guid {
      assert all[|ps|].locator == l && all[|ps|].guid == g;
    }
  }

  lemma ReadersMore(ps: seq<Pair>, p: Pair, l: Locator)
    ensures ReadersAt(ps + [p], l) == ReadersAt(ps, l) + if l == p.locator then {p.guid} else {}
  {
    var a, b := ReadersAt(ps + [p], l), ReadersAt(ps, l) + if l == p.locator then {p.guid} else {};
    forall g
      ensures g in a <==> g in b
    {
      ReaderMore(ps, p, l, g);
    }
  }

  method BuildTable(ts: seq<Target>) returns (table: map<Locator, set<Guid>>)
    ensures table == Table(Flat(ts))
  {
    table := map[];
    var i := 0;
    while i < |ts|
      invariant i <= |ts| && table == Table(Flat(ts[..i]))
    {
      ghost var before := Flat(ts[..i]);
      assert ts[..i + 1][..i] == ts[..i];
      var ps := PairsOf(ts[i]);
      var j := 0;
      assert before + ps[..0] == before;
      while j < |ps|
        invariant j <= |ps| && table == Table(before + ps[..j])
      {
        TableMore(before + ps[..j], ps[j]);
        assert before + ps[..j] + [ps[j]] == before + ps[..j + 1];
        var l := ps[j].locator;
        table := table[l := (if l in table then table[l] else {}) + {ps[j].guid}];
        j := j + 1;
      }
      assert ps[..j] == ps;
      i := i + 1;
    }
    assert ts[..i] == ts;
  }

  /** One message per shared locator. */
  ghost predicate SharedMessages(r: seq<Message>, ps: seq<Pair>) {
    && (forall i, j :: 0 <= i < j < |r| ==> r[i] != r[j])
    && (forall m :: m in r <==> m.entity == ENTITYID_UNKNOWN && m.locator in LocatorsIn(ps) && Shared(ps, m.locator))
  }

  method CoverShared(table: map<Locator, set<Guid>>, ghost ps: seq<Pair>) returns (r: seq<Message>, covered: set<Pair>)
    requires table == Table(ps)
    ensures SharedMessages(r, ps)
    ensures forall p :: p in covered <==> p.locator in table && p.guid in table[p.locator] && Shared(ps, p.locator)
  {
    r, covered := [], {};
    var rest := table.Keys;
    while rest != {}
      invariant rest <= table.Keys
      invariant forall i, j :: 0 <= i < j < |r| ==> r[i] != r[j]
      invariant forall m :: m in r <==>
        m.entity == ENTITYID_UNKNOWN && m.locator in table && m.locator !in rest && Shared(ps, m.locator)
      invariant forall p :: p in covered <==>
        p.locator in table && p.locator !in rest && p.guid in table[p.locator] && Shared(ps, p.locator)
      decreases |rest|
    {
      var l := Pick(rest);
      if |table[l]| > 1 {
        r := r + [Message(ENTITYID_UNKNOWN, l)];
        covered := covered + set g | g in table[l] :: Pair(g, l);
      }
      rest := rest - {l};
    }
  }

  /** One message for each listed pair that no shared message covers. */
  function PrivateMessages(ps: seq<Pair>, all: seq<Pair>): seq<Message> {
    if ps == [] then []
    else
      var p := ps[|ps| - 1];
      PrivateMessages(ps[..|ps| - 1], all) + if Shared(all, p.locator) then [] else [Message(EntityOf(p.guid), p.locator)]
  }

  lemma PrivateMore(ps: seq<Pair>, p: Pair, all: seq<Pair>)
    ensures PrivateMessages(ps + [p], all)
         == PrivateMessages(ps, all) + if Shared(all, p.locator) then [] else [Message(EntityOf(p.guid), p.locator)]
  {
  }

  method CoverOne(t: Target, covered: set<Pair>, before: seq<Message>, ghost done: seq<Pair>, ghost all: seq<Pair>)
    returns (r: seq<Message>)
    requires before == PrivateMessages(done, all)
    requires forall p :: p in PairsOf(t) ==> (p in covered <==> Shared(all, p.locator))
    ensures r == PrivateMessages(done + PairsOf(t), all)
  {
    r := before;
    var ps := PairsOf(t);
    var j := 0;
    assert done + ps[..0] == done;
    while j < |ps|
      invariant j <= |ps| && r == PrivateMessages(done + ps[..j], all)
    {
      PrivateMore(done + ps[..j], ps[j], all);
      assert done + ps[..j] + [ps[j]] == done + ps[..j + 1];
      assert ps[j] in ps;
      if ps[j] !in covered {
        r := r + [Message(EntityOf(ps[j].guid), ps[j].locator)];
      }
      j := j + 1;
    }
    assert ps[..j] == ps;
  }

  method CoverPrivate(ts: seq<Target>, covered: set<Pair>) returns (r: seq<Message>)
    requires forall p :: p in Flat(ts) ==> (p in covered <==> Shared(Flat(ts), p.locator))
    ensures r == PrivateMessages(Flat(ts), Flat(ts))
  {
    r := [];
    var i := 0;
    while i < |ts|
      invariant i <= |ts| && r == PrivateMessages(Flat(ts[..i]), Flat(ts))
    {
      assert ts[..i + 1][..i] == ts[..i];
      FlatHas(ts, i);
      r := CoverOne(ts[i], covered, r, Flat(ts[..i]), Flat(ts));
      i := i + 1;
    }
    assert ts[..i] == ts;
  }

  lemma {:induction false} FlatHas(ts: seq<Target>, i: nat)
    requires i < |ts|
    ensures forall p :: p in PairsOf(ts[i]) ==> p in Flat(ts)
    decreases |ts|
  {
    if i < |ts| - 1 {
      FlatHas(ts[..|ts| - 1], i);
    }
  }

  method MinMessageCover(ts: seq<Target>) returns (r: seq<Message>)
    ensures Covers(r, Flat(ts)) && OnlyNeeded(r, Flat(ts))
    ensures |r| == |LocatorsIn(Flat(ts))| <==> OncePrivately(Flat(ts))
  {
    ghost var ps := Flat(ts);
    var table := BuildTable(ts);
    var shared, covered := CoverShared(table, ps);
    forall p | p in ps
      ensures p in covered <==> Shared(ps, p.locator)
    {
      var i :| 0 <= i < |ps| && ps[i] == p;
      assert ps[i].locator in LocatorsIn(ps) && ps[i].guid in ReadersAt(ps, p.locator);
    }
    var private := CoverPrivate(ts, covered);
    r := shared + private;
    CoverWorks(ps, shared);
    CoverCounts(ps, shared);
  }

  // ---- why that is a cover, and a small one ----

  lemma {:induction false} PrivateAre(ps: seq<Pair>, all: seq<Pair>, m: Message)
    ensures m in PrivateMessages(ps, all)
      <==> exists p :: p in ps && m == Message(EntityOf(p.guid), p.locator) && !Shared(all, p.locator)
    decreases |ps|
  {
    if ps != [] {
      var k := |ps| - 1;
      PrivateAre(ps[..k], all, m);
      assert ps == ps[..k] + [ps[k]];
    }
  }

  lemma CoverWorks(ps: seq<Pair>, shared: seq<Message>)
    requires SharedMessages(shared, ps)
    ensures var r := shared + PrivateMessages(ps, ps); Covers(r, ps) && OnlyNeeded(r, ps)
  {
    var r := shared + PrivateMessages(ps, ps);
    forall p | p in ps
      ensures exists m :: m in r && Reaches(m, p)
    {
      var i :| 0 <= i < |ps| && ps[i] == p;
      assert ps[i].locator in LocatorsIn(ps);
      if Shared(ps, p.locator) {
        assert Message(ENTITYID_UNKNOWN, p.locator) in r && Reaches(Message(ENTITYID_UNKNOWN, p.locator), p);
      } else {
        PrivateAre(ps, ps, Message(EntityOf(p.guid), p.locator));
        assert Reaches(Message(EntityOf(p.guid), p.locator), p);
      }
    }
    forall m | m in r && m !in shared
      ensures exists p :: p in ps && m == Message(EntityOf(p.guid), p.locator) && !Shared(ps, p.locator)
    {
      PrivateAre(ps, ps, m);
    }
  }

  function SharedLocators(ps: seq<Pair>): set<Locator> {
    set l | l in LocatorsIn(ps) && Shared(ps, l)
  }

  function PrivateLocators(ps: seq<Pair>, all: seq<Pair>): set<Locator> {
    set l | l in LocatorsIn(ps) && !Shared(all, l)
  }

  lemma {:induction false} SharedCount(r: seq<Message>, ls: set<Locator>)
    requires forall i, j :: 0 <= i < j < |r| ==> r[i] != r[j]
    requires forall m :: m in r <==> m.entity == ENTITYID_UNKNOWN && m.locator in ls
    ensures |r| == |ls|
    decreases |r|
  {
    assert forall l :: l in ls ==> Message(ENTITYID_UNKNOWN, l) in r;
    if r == [] {
      assert ls == {};
    } else {
      var k := |r| - 1;
      assert r[k] in r;
      var rest := ls - {r[k].locator};
      forall m
        ensures m in r[..k] <==> m.entity == ENTITYID_UNKNOWN && m.locator in rest
      {
        assert r == r[..k] + [r[k]];
        assert m in r <==> m in r[..k] || m == r[k];
      }
      SharedCount(r[..k], rest);
    }
  }

  /** Earlier positions hold no private locator twice. */
  ghost predicate OnceIn(ps: seq<Pair>, all: seq<Pair>) {
    forall i, j :: 0 <= i < j < |ps| && ps[i].locator == ps[j].locator ==> Shared(all, ps[i].locator)
  }

  lemma {:induction false} PrivateCount(ps: seq<Pair>, all: seq<Pair>)
    ensures |PrivateMessages(ps, all)| >= |PrivateLocators(ps, all)|
    ensures |PrivateMessages(ps, all)| == |PrivateLocators(ps, all)| <==> OnceIn(ps, all)
    decreases |ps|
  {
    if ps == [] {
      assert PrivateLocators(ps, all) == {};
    } else {
      var k := |ps| - 1;
      var p, init := ps[k], ps[..k];
      PrivateCount(init, all);
      PrivateLocatorsMore(init, p, all);
      assert ps == init + [p];
      OnceMore(init, p, all);
    }
  }

  lemma PrivateLocatorsMore(ps: seq<Pair>, p: Pair, all: seq<Pair>)
    ensures PrivateLocators(ps + [p], all)
         == PrivateLocators(ps, all) + if Shared(all, p.locator) then {} else {p.locator}
  {
    forall l
      ensures l in LocatorsIn(ps + [p]) <==> l in LocatorsIn(ps) || l == p.locator
    {
      LocatorMore(ps, p, l);
    }
  }

  lemma OnceMore(ps: seq<Pair>, p: Pair, all: seq<Pair>)
    ensures OnceIn(ps + [p], all) <==> OnceIn(ps, all) && (p.locator in LocatorsIn(ps) ==> Shared(all, p.locator))
  {
    var r := ps + [p];
    if OnceIn(r, all) {
      forall i, j | 0 <= i < j < |ps| && ps[i].locator == ps[j].locator ensures Shared(all, ps[i].locator) {
        assert r[i].locator == r[j].locator;
      }
      if p.locator in LocatorsIn(ps) {
        var i :| 0 <= i < |ps| && ps[i].locator == p.locator;
        assert r[i].locator == r[|ps|].locator;
      }
    }
    if OnceIn(ps, all) && (p.locator in LocatorsIn(ps) ==> Shared(all, p.locator)) {
      forall i, j | 0 <= i < j < |r| && r[i].locator == r[j].locator ensures Shared(all, r[i].locator) {
        if j < |ps| {
          assert ps[i].locator == ps[j].locator;
        } else {
          assert ps[i].locator in LocatorsIn(ps);
        }
      }
    }
  }

  lemma CoverCounts(ps: seq<Pair>, shared: seq<Message>)
    requires SharedMessages(shared, ps)
    ensures var r := shared + PrivateMessages(ps, ps);
      |r| == |LocatorsIn(ps)| <==> OncePrivately(ps)
  {
    SharedCount(shared, SharedLocators(ps));
    PrivateCount(ps, ps);
    assert LocatorsIn(ps) == SharedLocators(ps) + PrivateLocators(ps, ps);
    assert SharedLocators(ps) !! PrivateLocators(ps, ps);
  }

  function LocatorsOf(r: seq<Message>): set<Locator> {
    if r == [] then {} else LocatorsOf(r[1..]) + {r[0].locator}
  }

  lemma {:induction false} LocatorsOfAre(r: seq<Message>)
    ensures |LocatorsOf(r)| <= |r|
    ensures forall m :: m in r ==> m.locator in LocatorsOf(r)
  {
    if r != [] {
      LocatorsOfAre(r[1..]);
    }
  }

  lemma {:induction false} SubsetSmaller<T>(a: set<T>, b: set<T>)
    requires forall x :: x in a ==> x in b
    ensures |a| <= |b|
    decreases |a|
  {
    if a != {} {
      var x := Member(a);
      SubsetSmaller(a - {x}, b - {x});
    }
  }

  /** No list of messages, however addressed, covers the readers with fewer messages
      than they have locators. */
  lemma NoCoverIsSmaller(r: seq<Message>, ps: seq<Pair>)
    requires Covers(r, ps)
    ensures |r| >= |LocatorsIn(ps)|
  {
    LocatorsOfAre(r);
    forall l | l in LocatorsIn(ps)
      ensures l in LocatorsOf(r)
    {
      var i :| 0 <= i < |ps| && ps[i].locator == l;
      assert ps[i] in ps;
      var m :| m in r && Reaches(m, ps[i]);
    }
    SubsetSmaller(LocatorsIn(ps), LocatorsOf(r));
  }

  // ---- whom the messages reach ----

  predicate IsTarget(ps: seq<Pair>, h: Guid) {
    exists i :: 0 <= i < |ps| && ps[i].guid == h
  }

  /** A message of `r` is taken in by reader `h`, who listens on `ls`. */
  predicate TakenIn(r: seq<Message>, h: Guid, ls: set<Locator>) {
    exists i :: 0 <= i < |r| && r[i].locator in ls && Reaches(r[i], Pair(h, r[i].locator))
  }

  /** What is sent for `p` cannot be told from what is sent to `h`: two of the readers
      listen on the locator, or the entity ids do not tell them apart. */
  predicate Mistaken(ps: seq<Pair>, p: Pair, h: Guid) {
    Shared(ps, p.locator) || EntityOf(p.guid) == EntityOf(h) || EntityOf(p.guid) == ENTITYID_UNKNOWN
  }

  lemma OneReader(ps: seq<Pair>, l: Locator, i: nat, j: nat)
    requires i < |ps| && j < |ps| && ps[i].locator == ps[j].locator == l && !Shared(ps, l)
    ensures ps[i].guid == ps[j].guid
  {
    assert ps[i].guid in ReadersAt(ps, l) && ps[j].guid in ReadersAt(ps, l);
    if ps[i].guid != ps[j].guid {
      SubsetSmaller({ps[i].guid, ps[j].guid}, ReadersAt(ps, l));
    }
  }

  lemma SharedIsListed(ps: seq<Pair>, l: Locator)
    requires Shared(ps, l)
    ensures exists i :: 0 <= i < |ps| && ps[i].locator == l
  {
    var g := Member(ReadersAt(ps, l));
  }

  lemma CoverOf(r: seq<Message>, ps: seq<Pair>, p: Pair) returns (m: Message, q: Pair)
    requires Covers(r, ps) && OnlyNeeded(r, ps) && p in ps
    ensures m in r && Reaches(m, p)
    ensures if Shared(ps, p.locator) then m.entity == ENTITYID_UNKNOWN else q in ps && m == Message(EntityOf(q.guid), q.locator)
  {
    hide Shared;
    m :| m in r && Reaches(m, p);
    q := p;
    if !Shared(ps, p.locator) {
      q :| q in ps && m == Message(EntityOf(q.guid), q.locator);
    }
  }

  lemma MistakenIsReached(r: seq<Message>, ps: seq<Pair>, h: Guid, i: nat)
    requires Covers(r, ps) && OnlyNeeded(r, ps) && i < |ps| && Mistaken(ps, ps[i], h)
    ensures exists m :: m in r && m.locator == ps[i].locator && Reaches(m, Pair(h, m.locator))
  {
    hide Shared, Covers, OnlyNeeded;
    assert ps[i] in ps;
    var m, q := CoverOf(r, ps, ps[i]);
    if !Shared(ps, ps[i].locator) {
      var k :| 0 <= k < |ps| && ps[k] == q;
      OneReader(ps, q.locator, i, k);
    }
    assert Reaches(m, Pair(h, m.locator));
  }

  lemma ReachedIsMistaken(r: seq<Message>, ps: seq<Pair>, h: Guid, m: Message)
    requires OnlyNeeded(r, ps) && m in r && Reaches(m, Pair(h, m.locator))
    ensures exists i :: 0 <= i < |ps| && ps[i].locator == m.locator && Mistaken(ps, ps[i], h)
  {
    hide Shared;
    if Shared(ps, m.locator) {
      SharedIsListed(ps, m.locator);
    } else {
      var p :| p in ps && m == Message(EntityOf(p.guid), p.locator);
      assert Mistaken(ps, p, h);
    }
  }

  /** Whoever listens, a target or not: whichever cover is sent, it takes a message in
      exactly when one of the pairs is at one of its locators and can be mistaken for it. */
  lemma TakenInExactly(r: seq<Message>, ps: seq<Pair>, h: Guid, ls: set<Locator>)
    requires Covers(r, ps) && OnlyNeeded(r, ps)
    ensures TakenIn(r, h, ls) <==> exists i :: 0 <= i < |ps| && ps[i].locator in ls && Mistaken(ps, ps[i], h)
  {
    hide Mistaken, Covers, OnlyNeeded, Reaches;
    if TakenIn(r, h, ls) {
      var i :| 0 <= i < |r| && r[i].locator in ls && Reaches(r[i], Pair(h, r[i].locator));
      ReachedIsMistaken(r, ps, h, r[i]);
    }
    if i :| 0 <= i < |ps| && ps[i].locator in ls && Mistaken(ps, ps[i], h) {
      MistakenIsReached(r, ps, h, i);
    }
  }

  /** No other reader listens where two or more targets do, nor where one does whose entity
      id is its own. */
  ghost predicate SetApart(ps: seq<Pair>, listening: map<Guid, set<Locator>>) {
    forall h, i :: h in listening && !IsTarget(ps, h) && 0 <= i < |ps| && ps[i].locator in listening[h]
      ==> !Mistaken(ps, ps[i], h)
  }

  /** A submessage is taken in by just the readers it is for, exactly when the others are
      set apart: then for every cover, otherwise for none. */
  lemma ReachesJustTheTargets(r: seq<Message>, ps: seq<Pair>, listening: map<Guid, set<Locator>>)
    requires Covers(r, ps) && OnlyNeeded(r, ps)
    requires forall p :: p in ps ==> p.guid in listening && p.locator in listening[p.guid]
    ensures (forall h :: h in listening ==> (TakenIn(r, h, listening[h]) <==> IsTarget(ps, h))) <==> SetApart(ps, listening)
  {
    hide Mistaken, Covers, OnlyNeeded, TakenIn;
    forall h | h in listening
      ensures IsTarget(ps, h) ==> TakenIn(r, h, listening[h])
      ensures TakenIn(r, h, listening[h])
        <==> exists i :: 0 <= i < |ps| && ps[i].locator in listening[h] && Mistaken(ps, ps[i], h)
    {
      TakenInExactly(r, ps, h, listening[h]);
      if i :| 0 <= i < |ps| && ps[i].guid == h {
        assert ps[i] in ps;
        MistakenForItself(ps, i);
      }
    }
  }

  lemma MistakenForItself(ps: seq<Pair>, i: nat)
    requires i < |ps|
    ensures Mistaken(ps, ps[i], ps[i].guid)
  {
  }

  /** With a locator for each reader they are; that is what the links of module Delivery
      assume. */
  lemma OwnLocatorsSetApart(ps: seq<Pair>, listening: map<Guid, set<Locator>>)
    requires forall p, h :: p in ps && h in listening && p.locator in listening[h] ==> h == p.guid
    ensures SetApart(ps, listening)
  {
  }

  /** On a shared locator a merged message also reaches a reader it is not for. */
  lemma MergedReachesOthers(a: Guid, b: Guid, c: Guid, l: Locator)
    requires a != b
    ensures var ps := [Pair(a, l), Pair(b, l)];
      forall r :: Covers(r, ps) && OnlyNeeded(r, ps) ==> exists m :: m in r && Reaches(m, Pair(c, l))
  {
    var ps := [Pair(a, l), Pair(b, l)];
    assert ps[0] in ps;
    assert Shared(ps, l) by {
      assert ps[0].guid in ReadersAt(ps, l) && ps[1].guid in ReadersAt(ps, l);
      SubsetSmaller({a, b}, ReadersAt(ps, l));
    }
    forall r | Covers(r, ps) && OnlyNeeded(r, ps)
      ensures exists m :: m in r && Reaches(m, Pair(c, l))
    {
      var m :| m in r && Reaches(m, ps[0]);
      assert Reaches(m, Pair(c, l));
    }
  }
}
