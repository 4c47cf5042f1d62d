/**
The rounds of the point-to-point drain: every rank goes through the same rounds with the
same pass, and a round in which the received total reached the sent total leaves no real
message in flight or uncounted.
*/
module P2pDrainRounds {
  import opened Common
  import opened P2pDrain

  predicate InDrain(rk: Rank) {
    rk.stage.Top? || rk.stage.Closing? || rk.stage.Work? || rk.stage.Counted? || rk.stage.Reducing? || rk.stage.Done?
  }

  /** The rank has given its numbers to the reduction of round k. */
  predicate Contributed(rk: Rank, k: nat) {
    InDrain(rk) && (k < rk.round || (k == rk.round && (rk.stage.Reducing? || rk.stage.Done?)))
  }

  ghost predicate LifeRank(s: State, r: Rid)
    requires r < |s.ranks|
  {
    var rk := s.ranks[r];
    && (rk.stage.AtBarrier? ==> rk.round == 0 && rk.pass == 0 && rk.next == 0 && !rk.blocked)
    && (s.draining ==>
          && !rk.stage.Running?
          && (InDrain(rk) ==> rk.round < |s.rounds| && rk.pass == s.rounds[rk.round].pass)
          && (rk.stage.Done? ==> rk.round == |s.rounds| - 1 && Full(s.rounds[rk.round]) && Finished(s.rounds[rk.round]))
          && (forall k: nat :: k < |s.rounds| && r < |s.rounds[k].samples| ==>
                (s.rounds[k].samples[r].Some? <==> Contributed(rk, k))))
    && (!s.draining ==> rk.stage.Running? || rk.stage.AtBarrier? || rk.stage.Done?)
  }

  /** The rounds follow each other: a round opens when the one before is full and not the last. */
  ghost predicate LifeShared(s: State) {
    && |s.posted| == |s.ranks|
    && (s.draining ==>
          && |s.rounds| > 0 && s.rounds[0].pass == 0
          && (forall k: nat :: k < |s.rounds| ==> |s.rounds[k].samples| == |s.ranks|)
          && (forall k: nat :: k < |s.rounds| ==> Follows(s.rounds, k))
          && (Full(s.rounds[|s.rounds| - 1]) ==> Finished(s.rounds[|s.rounds| - 1])))
  }

  ghost predicate Follows(rounds: seq<Round>, k: nat)
    requires k < |rounds|
  {
    k + 1 < |rounds| ==> Full(rounds[k]) && !Finished(rounds[k]) && rounds[k + 1].pass == NextPass(rounds[k])
  }

  ghost predicate LifeInv(s: State) {
    LifeShared(s) && forall r: Rid :: r < |s.ranks| ==> LifeRank(s, r)
  }

  /** A rank that has not given its numbers is in the newest round. */
  lemma Newest(s: State, r: Rid)
    requires LifeInv(s) && s.draining && r < |s.ranks| && InDrain(s.ranks[r])
    requires !s.ranks[r].stage.Reducing? && !s.ranks[r].stage.Done?
    ensures s.ranks[r].round == |s.rounds| - 1
  {
    assert LifeRank(s, r);
    var k := s.ranks[r].round;
    assert Follows(s.rounds, k);
    assert !s.rounds[k].samples[r].Some?;
    assert !Full(s.rounds[k]);
  }

  /** The steps of a rank, as far as its rounds see them. */
  ghost predicate Moves(s: State, rk: Rank, rk': Rank) {
    || (rk'.stage == rk.stage && rk'.round == rk.round && rk'.pass == rk.pass &&
        (rk.stage.AtBarrier? ==> rk'.next == rk.next && rk'.blocked == rk.blocked))
    || (rk.stage.AtBarrier? && rk'.stage.Top? && rk'.round == rk.round && rk'.pass == rk.pass && s.draining)
    || (Busy(rk) && Busy(rk') && rk'.round == rk.round && rk'.pass == rk.pass)
    || (rk.stage.Reducing? && rk.round < |s.rounds| && Full(s.rounds[rk.round]) &&
        if Finished(s.rounds[rk.round]) then rk'.stage.Done? && rk'.round == rk.round && rk'.pass == rk.pass
        else rk'.stage.Top? && rk'.round == rk.round + 1 && rk'.pass == NextPass(s.rounds[rk.round]))
    || (rk.stage.Done? && rk'.stage.Running? && !s.draining)
  }

  predicate Busy(rk: Rank) { rk.stage.Top? || rk.stage.Closing? || rk.stage.Work? || rk.stage.Counted? }

  /** A step that leaves the rounds and the flag of the drain alone. */
  predicate KeepsRounds(step: Step) { !step.CloseGate? && !step.Reduce? && !step.Resume? }

  lemma StepMoves(s: State, r: Rid, step: Step, q: Rid)
    requires Enabled(s, r, step) && KeepsRounds(step) && q < |s.ranks|
    ensures Moves(s, s.ranks[q], StepRanks(s, r, step)[q])
  {
  }

  lemma LifeMoves(s: State, s': State, q: Rid)
    requires LifeShared(s) && q < |s.ranks| == |s'.ranks| && LifeRank(s, q)
    requires s'.rounds == s.rounds && s'.draining == s.draining && Moves(s, s.ranks[q], s'.ranks[q])
    ensures LifeRank(s', q)
  {
    var rk, rk' := s.ranks[q], s'.ranks[q];
    if s.draining {
      assert rk.round < |s.rounds| ==> Follows(s.rounds, rk.round);
      assert forall k: nat :: k < |s.rounds| ==> Contributed(rk', k) == Contributed(rk, k);
    }
  }

  lemma LifeKeeps(s: State, r: Rid, step: Step)
    requires LifeInv(s) && Enabled(s, r, step) && KeepsRounds(step)
    ensures LifeInv(Apply(s, r, step))
  {
    var s' := Apply(s, r, step);
    forall q: Rid | q < |s'.ranks| ensures LifeRank(s', q) {
      assert LifeRank(s, q);
      StepMoves(s, r, step, q);
      LifeMoves(s, s', q);
    }
  }

  lemma LifeClose(s: State, r: Rid)
    requires LifeInv(s) && Enabled(s, r, CloseGate)
    ensures LifeInv(Apply(s, r, CloseGate))
  {
    var s' := Apply(s, r, CloseGate);
    assert LifeRank(s, r);
    assert s'.draining ==> !Full(s'.rounds[0]) by {
      if s'.draining {
        assert s'.rounds[0].samples[r] == None;
      }
    }
    forall q: Rid | q < |s'.ranks| ensures LifeRank(s', q) {
      assert LifeRank(s, q);
    }
  }

  lemma LifeResume(s: State, r: Rid)
    requires LifeInv(s) && Enabled(s, r, Resume)
    ensures LifeInv(Apply(s, r, Resume))
  {
    var s' := Apply(s, r, Resume);
    forall q: Rid | q < |s'.ranks| ensures LifeRank(s', q) {
      assert LifeRank(s, q);
    }
  }

  lemma LifeReduce(s: State, r: Rid, busy: nat, dummySends: nat)
    requires LifeInv(s) && Enabled(s, r, Reduce(busy, dummySends))
    ensures LifeInv(Apply(s, r, Reduce(busy, dummySends)))
  {
    var s' := Apply(s, r, Reduce(busy, dummySends));
    assert LifeRank(s, r) && s.draining;
    Newest(s, r);
    var last := |s.rounds| - 1;
    forall k: nat | k < |s'.rounds| ensures Follows(s'.rounds, k) {
      assert k < |s.rounds| ==> Follows(s.rounds, k);
    }
    if |s'.rounds| > |s.rounds| {
      assert s'.rounds[last + 1].samples[r] == None;
      assert !Full(s'.rounds[last + 1]);
    }
    forall q: Rid | q < |s'.ranks| ensures LifeRank(s', q) {
      assert LifeRank(s, q);
    }
  }

  lemma LifeStep(s: State, r: Rid, step: Step)
    requires LifeInv(s) && Enabled(s, r, step)
    ensures LifeInv(Apply(s, r, step))
  {
    match step
    case CloseGate => LifeClose(s, r);
    case Reduce(busy, dummySends) => LifeReduce(s, r, busy, dummySends);
    case Resume => LifeResume(s, r);
    case _ => LifeKeeps(s, r, step);
  }
}
