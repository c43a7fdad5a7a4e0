/** A reader that misses more than its bitmap can span is never served: every such gap is
    reached by a run. */
module WideGaps {
  import opened Types
  import opened Ascending
  import opened ReaderProxies
  import opened WriterModel
  import opened WriterInvariants
  import opened Delivery
  import opened Convergence
  import opened Openings
  import R = WriterProxies

  const ALONE: Guid := 0

  function Place(): Locator {
    Locator(1, 7400, [])
  }

  function LoneStart(durability: Durability): Sys {
    Sys(Initial(Settings(durability)), map[ALONE := NewPeer(durability, Place())])
  }

  /** One reader is matched on both sides, all of `ps` is written and sent, and all of it is lost. */
  function AllDataLost(ps: seq<Payload>): seq<Step> {
    [WriterFinds(ALONE, true, [])] + ([ReaderFinds(ALONE)] + ([Step.WriteCommand([ps])] + Losses(ALONE, |ps|)))
  }

  /** The writer once everything is sent. */
  function LoneWriter(durability: Durability, ps: seq<Payload>): Writer {
    Initial(Settings(durability)).(
      hc := Cache(Changes(ps), {}, |ps|, ps), processed := |ps|,
      proxies := map[ALONE := Proxy(Locators([Place()], [], [], []), durability, Entries(|ps|, Underway))])
  }

  /** Nothing has arrived, and nothing is under way any more. */
  function LoneEnd(durability: Durability, ps: seq<Payload>): Sys {
    Sys(LoneWriter(durability, ps),
        map[ALONE := NewPeer(durability, Place()).(reader := Some(map[]), rel := UpTo(|ps|), hi := |ps|)])
  }

  /** The reader is matched on both sides. */
  function LoneMatched(durability: Durability): Sys {
    Sys(Initial(Settings(durability)).(
          proxies := map[ALONE := Proxy(Locators([Place()], [], [], []), durability, map[])]),
        map[ALONE := NewPeer(durability, Place()).(reader := Some(map[]))])
  }

  lemma LoneMatch(durability: Durability)
    ensures Start(LoneStart(durability))
    ensures Apply(Apply(LoneStart(durability), WriterFinds(ALONE, true, [])), ReaderFinds(ALONE)) == LoneMatched(durability)
  {
    MatchedEarly(LoneStart(durability), ALONE);
  }

  lemma LoneSent(durability: Durability, ps: seq<Payload>)
    requires ps != []
    ensures var s := Apply(LoneMatched(durability), Step.WriteCommand([ps]));
      ALONE in s.peers && |s.peers[ALONE].link| == |ps|
      && SetPeer(s, ALONE, s.peers[ALONE].(link := [])) == LoneEnd(durability, ps)
  {
    hide UpTo, Changes, Entries, Apply;
    var s := LoneMatched(durability);
    assert Unwritten(s.w);
    SentInRun(s, ps);
    assert {} + UpTo(|ps|) == UpTo(|ps|);
    assert Written(s.w, ps).proxies == LoneWriter(durability, ps).proxies;
  }

  lemma LoneRun(durability: Durability, ps: seq<Payload>)
    requires ps != []
    ensures Start(LoneStart(durability)) && Run(LoneStart(durability), AllDataLost(ps)) == LoneEnd(durability, ps)
  {
    hide Apply, Run, Losses, LoneEnd, SetPeer;
    var s := LoneStart(durability);
    var s2 := LoneMatched(durability);
    var s3 := Apply(s2, Step.WriteCommand([ps]));
    LoneMatch(durability);
    LoneSent(durability, ps);
    AllLost(s3, ALONE, |ps|);
    RunStep(s, WriterFinds(ALONE, true, []), [ReaderFinds(ALONE)] + ([Step.WriteCommand([ps])] + Losses(ALONE, |ps|)));
    RunStep(Apply(s, WriterFinds(ALONE, true, [])), ReaderFinds(ALONE), [Step.WriteCommand([ps])] + Losses(ALONE, |ps|));
    RunStep(s2, Step.WriteCommand([ps]), Losses(ALONE, |ps|));
  }

  lemma LoneUnacked(durability: Durability, ps: seq<Payload>, n: int)
    ensures n in LoneWriter(durability, ps).hc.changes ==> !AckedByAll(LoneWriter(durability, ps), n)
  {
    AckedByOne(LoneWriter(durability, ps), ALONE, n);
  }

  lemma LoneRange(durability: Durability, ps: seq<Payload>)
    requires ps != []
    ensures var t := Trimmed(LoneWriter(durability, ps)); MinSettled(t) == 1 && MaxSettled(t) == |ps|
  {
    var w := LoneWriter(durability, ps);
    var t := Trimmed(w);
    assert Numbered(w);
    TrimmedShape(w);
    AllSettled(t);
    forall n
      ensures n in t.hc.changes <==> 1 <= n <= |ps|
    {
      if n in w.hc.changes {
        LoneUnacked(durability, ps, n);
        TrimmedLeft(w, n);
      }
    }
    assert 1 in Settled(t) && |ps| in Settled(t);
  }

  lemma LoneAnswer(durability: Durability, ps: seq<Payload>)
    requires ps != []
    ensures RoundAck(LoneEnd(durability, ps), ALONE, {}) == Ack(1, UpTo(|ps|))
  {
    LoneRange(durability, ps);
    var heard := HeartbeatHeard(LoneEnd(durability, ps), ALONE, {});
    forall n
      ensures n in R.MissingSet(heard) <==> n in UpTo(|ps|)
    {
      MissingHeard(map[], {}, 1, |ps|, n);
    }
    assert R.MissingSet(heard) == UpTo(|ps|);
    assert 1 in R.MissingSet(heard);
  }

  lemma LoneNarrow(durability: Durability, ps: seq<Payload>)
    requires ps != []
    ensures Narrow(LoneWriter(durability, ps)) <==> |ps| < 256
  {
    hide AckedByAll;
    var w := LoneWriter(durability, ps);
    forall n | n in w.hc.changes
      ensures !AckedByAll(w, n)
    {
      LoneUnacked(durability, ps, n);
    }
    assert 1 in w.hc.changes;
  }

  /** For every batch there is a run after which the reader misses all of it, and the answer
      to the next heartbeat fits exactly when the batch is shorter than 256; the bound that
      the writer can check for itself is then met exactly as well. */
  lemma GapOfAnyWidth(durability: Durability, ps: seq<Payload>)
    requires ps != []
    ensures Start(LoneStart(durability))
    ensures var s := Run(LoneStart(durability), AllDataLost(ps));
      && Calm(s, ALONE) && !AllAcked(s.w) && s.peers[ALONE].got == map[] && s.peers[ALONE].rel == UpTo(|ps|)
      && (AckFits(s, ALONE, {}) <==> |ps| < 256) && (Narrow(s.w) <==> |ps| < 256)
  {
    hide UpTo, Run, RoundAck;
    LoneRun(durability, ps);
    LoneAnswer(durability, ps);
    LoneUnacked(durability, ps, 1);
    assert 1 in LoneWriter(durability, ps).hc.changes;
    MaxIs(UpTo(|ps|), |ps|);
    LoneNarrow(durability, ps);
  }

  predicate AllDeliverable(ps: seq<Payload>) {
    forall i :: 0 <= i < |ps| ==> Deliverable(ps[i])
  }

  lemma LoneOwed(durability: Durability, ps: seq<Payload>, i: nat)
    requires i < |ps|
    ensures var w := LoneWriter(durability, ps);
      && i + 1 in w.hc.changes && (Deliverable(ps[i]) <==> OwedAndFit(w, ALONE, i + 1))
      && (Deliverable(ps[i]) <==> !Hopeless(w, ALONE, i + 1))
  {
  }

  lemma LoneCarries(durability: Durability, ps: seq<Payload>)
    ensures CanCarry(LoneWriter(durability, ps), ALONE) <==> AllDeliverable(ps)
  {
    hide OwedAndFit, Hopeless;
    var w := LoneWriter(durability, ps);
    forall i | 0 <= i < |ps|
      ensures i + 1 in w.hc.changes && (Deliverable(ps[i]) <==> !Hopeless(w, ALONE, i + 1))
    {
      LoneOwed(durability, ps, i);
    }
    forall n | n in w.hc.changes
      ensures 0 <= n - 1 < |ps|
    {
    }
    if AllDeliverable(ps) {
      forall n | n in w.hc.changes
        ensures !Hopeless(w, ALONE, n)
      {
        assert Deliverable(ps[n - 1]);
      }
    }
  }

  /** A reader that has missed `ps` is repaired, by any number of rounds, exactly when
      `ps` is shorter than 256 and all of it can arrive. Of a longer batch nothing ever
      arrives, of a shorter one all that can. */
  lemma WideGapStays(durability: Durability, ps: seq<Payload>, takens: seq<set<int>>)
    requires ps != [] && |takens| >= 2
    ensures var r := Rounds(Run(LoneStart(durability), AllDataLost(ps)), ALONE, takens);
      && ALONE in r.peers
      && (AllAcked(r.w) <==> |ps| < 256 && AllDeliverable(ps))
      && (|ps| >= 256 ==> r.peers[ALONE].got == map[])
      && (|ps| < 256 ==> forall i :: 0 <= i < |ps| && Deliverable(ps[i]) ==> i + 1 in r.peers[ALONE].got)
  {
    hide Run, Rounds, AckFits, AllAcked, CanCarry, OwedAndFit, Hopeless, LoneWriter;
    GapOfAnyWidth(durability, ps);
    Converges(LoneStart(durability), AllDataLost(ps), ALONE, takens);
    LoneRun(durability, ps);
    LoneCarries(durability, ps);
    var r := Rounds(Run(LoneStart(durability), AllDataLost(ps)), ALONE, takens);
    if |ps| < 256 {
      forall i | 0 <= i < |ps| && Deliverable(ps[i])
        ensures i + 1 in r.peers[ALONE].got
      {
        LoneOwed(durability, ps, i);
      }
    }
  }
}
