/**
What the point-to-point drain guarantees over every run: each receive classifies its message
correctly, each receive that is still blocked gets exactly one dummy, and the drain ends with
no message in flight.
*/
module P2pDummies {
  import opened Common
  import opened P2pDrain
  import opened P2pDrainRounds
  import opened P2pDrainSums
  import opened P2pDrainInvariant

  /** The one read of p2p_dummy_phase after NEXT_FUNC(Recv) returns true exactly for a dummy,
      also if the flag changes before the slot is stored. */
  lemma ReadClassifies(run: seq<State>, i: nat, r: Rid)
    requires Run(run) && i < |run| && r < |run[i].ranks|
    ensures run[i].ranks[r].place.Got? ==> run[i].ranks[r].phase == run[i].ranks[r].place.dummy
    ensures run[i].ranks[r].place.Read? ==> run[i].ranks[r].place.flag == run[i].ranks[r].place.dummy
  {
    RunInv(run, i);
    assert RankInv(run[i], r);
  }

  /** The drain never buffers a dummy, and no dummy is counted as a message. */
  lemma DummyIsNeverBuffered(run: seq<State>, i: nat, r: Rid)
    requires Run(run) && i < |run| && r < |run[i].ranks|
    ensures !Enabled(run[i], r, ReceiveDummy)
    ensures run[i].ranks[r].dummies > 0 ==> run[i].ranks[r].place.InRecv? && run[i].ranks[r].phase
  {
    RunInv(run, i);
    if run[i].ranks[r].dummies > 0 {
      DummyIsAwaited(run[i], r);
    }
  }

  /** Each message is counted once: the received totals, the messages in flight and those about
      to be counted add up to the messages sent, over any number of checkpoints. */
  lemma CountsBalance(run: seq<State>, i: nat)
    requires Run(run) && i < |run|
    ensures Sum(Loads(run[i].ranks)) == Sum(Sents(run[i].ranks))
  {
    RunInv(run, i);
  }

  /** A step of the drain keeps the rounds whose reduction is complete. */
  lemma CompleteRoundStays(s: State, s': State, k: nat)
    requires Inv(s) && Next(s, s') && s.draining && s'.draining && k < |s.rounds| && Full(s.rounds[k])
    ensures k < |s'.rounds| && s'.rounds[k] == s.rounds[k]
  {
    var r: Rid, step: Step :| Enabled(s, r, step) && s' == Apply(s, r, step);
    assert LifeRank(s, r);
    if step.Reduce? {
      assert !s.rounds[s.ranks[r].round].samples[r].Some?;
    }
  }

  /** If the sampled received total of a round reached the sent total, no real message is in
      flight or uncounted, from then until the end of the drain. */
  lemma {:induction false} ReceivedStaysQuiet(run: seq<State>, i: nat, j: nat, k: nat)
    requires Run(run) && i <= j < |run| && (forall m :: i <= m <= j ==> run[m].draining)
    requires k < |run[i].rounds| && Full(run[i].rounds[k]) && Received(run[i].rounds[k])
    ensures k < |run[j].rounds| && run[j].rounds[k] == run[i].rounds[k] && Quiet(run[j])
    decreases j
  {
    RunInv(run, j);
    if i < j {
      ReceivedStaysQuiet(run, i, j - 1, k);
      RunInv(run, j - 1);
      assert StepAt(run, j - 1);
      CompleteRoundStays(run[j - 1], run[j], k);
    }
  }

  /** When a rank leaves the drain loop, no MPI_Recv of any rank is in the lower half, no message
      and no dummy is in flight, every message is counted, and each rank that was blocked in
      MPI_Recv at pass 1 has received exactly one dummy, any other rank none. */
  lemma DrainEndsClean(run: seq<State>, i: nat, done: Rid, r: Rid)
    requires Run(run) && i < |run| && run[i].draining
    requires done < |run[i].ranks| && run[i].ranks[done].stage.Done? && r < |run[i].ranks|
    ensures !run[i].ranks[r].slot.Active? && QuietRank(run[i].ranks[r]) && run[i].ranks[r].dummies == 0
    ensures run[i].ranks[r].taken == (if run[i].ranks[r].blocked then 1 else 0)
    ensures run[i].ranks[r].round == run[i].ranks[done].round
  {
    RunInv(run, i);
    var s := run[i];
    var k := s.ranks[done].round;
    assert LifeRank(s, done) && LifeRank(s, r) && RankInv(s, r);
    assert s.rounds[k].samples[r].Some?;
    FinishedMeansNoneActive(s, s.rounds[k], r);
    assert Quiet(s) && QuietRank(s.ranks[r]);
  }

  /** Once every rank has sent the dummies posted to it, each MPI_Recv still in the lower half can
      go on: its dummy is in flight, or it has returned with it. */
  lemma BlockedCanGoOn(run: seq<State>, i: nat, r: Rid)
    requires Run(run) && i < |run| && run[i].draining && r < |run[i].ranks|
    requires forall q :: 0 <= q < |run[i].ranks| ==> PastSends(run[i].ranks[q])
    requires run[i].ranks[r].slot.Active?
    ensures run[i].ranks[r].blocked
    ensures Enabled(run[i], r, ReturnDummy) || Enabled(run[i], r, ReadFlag) || Enabled(run[i], r, StoreSlot)
  {
    RunInv(run, i);
    var s := run[i];
    forall q: Rid | q < |s.ranks| ensures s.ranks[q].next >= |s.posted[q]| {
      assert RankInv(s, q);
    }
    UnsentNone(s.posted, s.ranks, r);
    assert RankInv(s, r);
  }
}
