/**
The inductive invariant of the point-to-point drain: how a returned receive classifies its
message, what the samples say, and where the dummies are.
*/
module P2pDrainInvariant {
  import opened Common
  import opened P2pDrain
  import opened P2pDrainRounds
  import opened P2pDrainSums

  /** An MPI_Recv is between publishing its slot and storing it again. */
  predicate Holding(rk: Rank) { rk.place.InRecv? || rk.place.Got? || rk.place.Read? }

  /** The rank has done its part of pass 1: closed an idle slot, then set p2p_dummy_phase. */
  predicate PastClose(rk: Rank) { InDrain(rk) && (rk.pass >= 2 || (rk.pass == 1 && !rk.stage.Top?)) }
  predicate PastFlag(rk: Rank) { PastClose(rk) && !(rk.pass == 1 && rk.stage.Closing?) }
  /** The rank has done its part of pass 2 and of pass 3. */
  predicate PastPost(rk: Rank) { InDrain(rk) && (rk.pass >= 3 || (rk.pass == 2 && !rk.stage.Top?)) }
  predicate PastSends(rk: Rank) { InDrain(rk) && (rk.pass >= 4 || (rk.pass == 3 && !rk.stage.Top?)) }

  predicate ClassRank(rk: Rank, draining: bool) {
    && (rk.slot.Active? <==> Holding(rk))
    && (rk.place.Got? ==> rk.place.dummy == rk.phase)
    && (rk.place.Read? ==> rk.place.dummy == rk.place.flag)
    && (rk.stage.Closing? ==> rk.pass == 1)
    && (draining ==> (rk.phase <==> PastFlag(rk)))
    && (!draining ==> (rk.phase ==> rk.stage.Done?) && (rk.stage.Done? ==> !rk.slot.Active?))
  }

  ghost predicate SampleRank(s: State, r: Rid)
    requires r < |s.ranks|
  {
    s.draining ==>
      && (s.ranks[r].stage.Counted? ==> s.ranks[r].stage.recv <= s.ranks[r].recv)
      && (forall k: nat :: k < |s.rounds| && r < |s.rounds[k].samples| && s.rounds[k].samples[r].Some? ==>
            SampleOk(s.ranks[r], s.rounds[k].samples[r].value))
  }

  /** The dummies for the rank: exactly one if it was blocked and has posted, otherwise none. */
  predicate DummyRank(rk: Rank, draining: bool, unsent: nat) {
    && (draining ==>
          && unsent + rk.dummies + rk.taken == (if PastPost(rk) && rk.blocked then 1 else 0)
          && (PastClose(rk) && rk.slot.Active? ==> rk.blocked)
          && (rk.blocked ==> PastClose(rk))
          && (rk.blocked ==> rk.place.InRecv? || rk.taken >= 1)
          && (rk.place.InRecv? ==> rk.taken == 0)
          && ((rk.place.Got? || rk.place.Read?) && rk.place.dummy ==> rk.taken >= 1))
    && (!draining ==>
          && rk.dummies == 0
          && (rk.stage.AtBarrier? ==> rk.taken == 0)
          && !((rk.place.Got? || rk.place.Read?) && rk.place.dummy))
  }

  /** How far the rank is in its list of dummies. */
  predicate ListRank(rk: Rank, draining: bool, list: seq<Rid>, n: nat) {
    draining ==>
      && rk.next <= |list|
      && (rk.pass < 3 ==> rk.next == 0)
      && (PastSends(rk) ==> rk.next == |list|)
      && (forall j :: 0 <= j < |list| ==> list[j] < n)
  }

  ghost predicate RankInv(s: State, r: Rid)
    requires r < |s.ranks| == |s.posted|
  {
    && ClassRank(s.ranks[r], s.draining)
    && SampleRank(s, r)
    && DummyRank(s.ranks[r], s.draining, Unsent(s.posted, s.ranks, r))
    && ListRank(s.ranks[r], s.draining, s.posted[r], |s.ranks|)
  }

  /** From the first pass of the dummy step on, and after every round with all messages
      received, no real message is in flight. */
  ghost predicate QuietInv(s: State) {
    s.draining ==>
      forall k: nat :: k < |s.rounds| && (s.rounds[k].pass >= 1 || (Full(s.rounds[k]) && Received(s.rounds[k]))) ==>
        Quiet(s)
  }

  ghost predicate Inv(s: State) {
    && LifeInv(s) && Balanced(s) && QuietInv(s)
    && forall r: Rid :: r < |s.ranks| ==> RankInv(s, r)
  }

  // ---- facts of one state ----

  lemma PassIsQuiet(s: State, r: Rid)
    requires Inv(s) && r < |s.ranks| && s.draining && InDrain(s.ranks[r]) && s.ranks[r].pass >= 1
    ensures Quiet(s)
  {
    assert LifeRank(s, r);
  }

  /** A dummy in flight is for an MPI_Recv that waits in the lower half, with the flag set. */
  lemma DummyIsAwaited(s: State, r: Rid)
    requires Inv(s) && r < |s.ranks| && s.ranks[r].dummies > 0
    ensures s.ranks[r].place.InRecv? && s.ranks[r].slot.Active? && s.ranks[r].phase
  {
    assert RankInv(s, r);
  }

  /** No real message returns to an MPI_Recv once the flag is set. */
  lemma RealReturnsBeforeFlag(s: State, r: Rid)
    requires Inv(s) && r < |s.ranks| && s.ranks[r].place.InRecv? && s.ranks[r].net > 0
    ensures !s.ranks[r].phase
  {
    assert RankInv(s, r);
    if s.draining && s.ranks[r].phase {
      PassIsQuiet(s, r);
    }
  }

  // ---- the counters ----

  /** A rank's own step moves a message between in flight, uncounted and counted. */
  lemma LoadKept(s: State, r: Rid, step: Step)
    requires Enabled(s, r, step) && !step.ReceiveDummy? && ClassRank(s.ranks[r], s.draining)
    ensures Load(StepRank(s, r, step)) == Load(s.ranks[r])
    ensures StepRank(s, r, step).sent == s.ranks[r].sent + (if step.Send? then 1 else 0)
  {
  }

  lemma NoDummyBuffered(s: State, r: Rid, step: Step)
    requires Inv(s) && Enabled(s, r, step)
    ensures !step.ReceiveDummy?
  {
    if s.ranks[r].dummies > 0 {
      DummyIsAwaited(s, r);
    }
  }

  lemma BalancedRanks(s: State, r: Rid, step: Step)
    requires Balanced(s) && Enabled(s, r, step) && !step.ReceiveDummy? && ClassRank(s.ranks[r], s.draining)
    ensures Sum(Loads(StepRanks(s, r, step))) == Sum(Sents(StepRanks(s, r, step)))
  {
    SelfLoads(s, r, step);
    var ranks := s.ranks[r := StepRank(s, r, step)];
    if step.Send? {
      ArrivalLoads(ranks, step.dest);
    } else if step.SendDummy? {
      ArrivalLoads(ranks, s.posted[r][s.ranks[r].next]);
    } else {
      assert StepRanks(s, r, step) == ranks;
    }
  }

  lemma SelfLoads(s: State, r: Rid, step: Step)
    requires Enabled(s, r, step) && !step.ReceiveDummy? && ClassRank(s.ranks[r], s.draining)
    ensures var ranks := s.ranks[r := StepRank(s, r, step)];
            && Sum(Loads(ranks)) == Sum(Loads(s.ranks))
            && Sum(Sents(ranks)) == Sum(Sents(s.ranks)) + (if step.Send? then 1 else 0)
  {
    LoadKept(s, r, step);
    LoadsUpdate(s.ranks, r, StepRank(s, r, step));
  }

  /** A message that arrives adds one to the load; a dummy adds none. */
  lemma ArrivalLoads(ranks: seq<Rank>, d: Rid)
    requires d < |ranks|
    ensures var real' := ranks[d := ranks[d].(net := ranks[d].net + 1)];
            Sum(Loads(real')) == Sum(Loads(ranks)) + 1 && Sum(Sents(real')) == Sum(Sents(ranks))
    ensures var dummy' := ranks[d := ranks[d].(dummies := ranks[d].dummies + 1)];
            Sum(Loads(dummy')) == Sum(Loads(ranks)) && Sum(Sents(dummy')) == Sum(Sents(ranks))
  {
    LoadsUpdate(ranks, d, ranks[d].(net := ranks[d].net + 1));
    LoadsUpdate(ranks, d, ranks[d].(dummies := ranks[d].dummies + 1));
  }

  lemma BalancedStep(s: State, r: Rid, step: Step)
    requires Inv(s) && Enabled(s, r, step)
    ensures Balanced(Apply(s, r, step))
  {
    NoDummyBuffered(s, r, step);
    assert RankInv(s, r);
    BalancedRanks(s, r, step);
  }

  // ---- quiet ----

  lemma QuietStays(s: State, r: Rid, step: Step)
    requires Inv(s) && Enabled(s, r, step) && s.draining && Quiet(s)
    ensures Quiet(Apply(s, r, step))
  {
    var s' := Apply(s, r, step);
    assert LifeRank(s, r) && RankInv(s, r);
    assert QuietRank(s.ranks[r]);
    assert QuietRank(StepRank(s, r, step));
    forall q | 0 <= q < |s'.ranks| ensures QuietRank(s'.ranks[q]) {
      assert QuietRank(s.ranks[q]);
    }
  }

  // ---- samples ----

  /** The drain sends no message and loses no count of a received one. */
  lemma CountsGrow(s: State, r: Rid, step: Step)
    requires Enabled(s, r, step) && s.draining && LifeRank(s, r)
    requires s.ranks[r].stage.Counted? ==> s.ranks[r].stage.recv <= s.ranks[r].recv
    ensures var rk' := StepRank(s, r, step);
            && rk'.sent == s.ranks[r].sent && s.ranks[r].recv <= rk'.recv
            && (rk'.stage.Counted? ==> rk'.stage.recv <= rk'.recv)
  {
  }

  lemma SampleSelf(s: State, r: Rid, step: Step)
    requires Inv(s) && Enabled(s, r, step) && !step.Reduce? && !step.CloseGate?
    ensures SampleRank(Apply(s, r, step), r)
  {
    var s' := Apply(s, r, step);
    assert RankInv(s, r) && LifeRank(s, r);
    StepArrived(s, r, step, r);
    if s'.draining {
      CountsGrow(s, r, step);
      assert s'.rounds == s.rounds;
    }
  }

  lemma SampleOther(s: State, r: Rid, step: Step, q: Rid)
    requires Inv(s) && Enabled(s, r, step) && !step.Reduce? && !step.CloseGate? && q < |s.ranks| && q != r
    ensures SampleRank(Apply(s, r, step), q)
  {
    assert RankInv(s, q);
  }

  lemma SampleReduce(s: State, r: Rid, busy: nat, dummySends: nat, q: Rid)
    requires Inv(s) && Enabled(s, r, Reduce(busy, dummySends)) && q < |s.ranks|
    ensures SampleRank(Apply(s, r, Reduce(busy, dummySends)), q)
  {
    assert RankInv(s, q) && RankInv(s, r) && LifeRank(s, r);
  }

  lemma SampleStep(s: State, r: Rid, step: Step, q: Rid)
    requires Inv(s) && Enabled(s, r, step) && q < |s.ranks|
    ensures SampleRank(Apply(s, r, step), q)
  {
    assert RankInv(s, q);
    if step.Reduce? {
      SampleReduce(s, r, step.busy, step.dummySends, q);
    } else if step.CloseGate? {
      assert LifeRank(s, r);
    } else if q == r {
      SampleSelf(s, r, step);
    } else {
      SampleOther(s, r, step, q);
    }
  }

  lemma QuietReduce(s: State, r: Rid, busy: nat, dummySends: nat)
    requires Inv(s) && Enabled(s, r, Reduce(busy, dummySends))
    ensures QuietInv(Apply(s, r, Reduce(busy, dummySends)))
  {
    var step := Reduce(busy, dummySends);
    var s' := Apply(s, r, step);
    assert LifeRank(s, r) && s.draining;
    var k0 := s.ranks[r].round;
    LifeStep(s, r, step);
    BalancedStep(s, r, step);
    if Full(s'.rounds[k0]) && Received(s'.rounds[k0]) {
      forall q | 0 <= q < |s'.ranks| ensures SampleOk(s'.ranks[q], s'.rounds[k0].samples[q].value) {
        SampleStep(s, r, step, q);
      }
      ReceivedIsQuiet(s', s'.rounds[k0]);
    }
    if Quiet(s) {
      QuietStays(s, r, step);
    }
    assert forall k: nat :: k < |s.rounds| && k != k0 ==> s'.rounds[k] == s.rounds[k];
    assert s'.rounds[k0].pass == s.rounds[k0].pass;
    Newest(s, r);
  }

  lemma QuietStep(s: State, r: Rid, step: Step)
    requires Inv(s) && Enabled(s, r, step)
    ensures QuietInv(Apply(s, r, step))
  {
    var s' := Apply(s, r, step);
    if step.Reduce? {
      QuietReduce(s, r, step.busy, step.dummySends);
    } else if step.CloseGate? {
      assert LifeRank(s, r);
      assert s'.draining ==> s'.rounds[0].samples[r] == None;
    } else if s.draining && Quiet(s) {
      QuietStays(s, r, step);
    }
  }

  // ---- how a receive classifies its message ----

  /** The application thread's steps. */
  lemma ClassApp(s: State, r: Rid, step: Step)
    requires Enabled(s, r, step) && ClassRank(s.ranks[r], s.draining)
    requires step.ReturnReal? ==> !s.ranks[r].phase
    requires step.ReturnDummy? ==> s.ranks[r].phase
    requires step.Publish? ==> !s.draining
    requires step.Send? || step.Publish? || step.ReturnReal? || step.ReturnDummy? || step.ReadFlag? ||
             step.StoreSlot? || step.Count? || step.Unpark? || step.Receive? || step.ReceiveDummy?
    ensures ClassRank(StepRank(s, r, step), s.draining)
  {
  }

  /** The checkpoint thread's steps. */
  lemma ClassDrain(s: State, r: Rid, step: Step)
    requires Enabled(s, r, step) && ClassRank(s.ranks[r], s.draining)
    requires step.StartDrain? || step.TopStep? || step.SetFlag? || step.SendDummy? || step.EndSends? ||
             step.ReadRecv? || step.Reduce? || step.Judge? || step.Reset?
    requires !step.Reset? ==> s.draining
    requires step.SetFlag? ==> s.ranks[r].place != Got(false)
    requires step.Judge? ==> s.ranks[r].pass == s.rounds[s.ranks[r].round].pass
    requires step.StartDrain? ==> s.ranks[r].pass == 0
    ensures ClassRank(StepRank(s, r, step), s.draining)
  {
  }

  lemma ClassSelf(s: State, r: Rid, step: Step)
    requires Inv(s) && Enabled(s, r, step) && !step.CloseGate? && !step.Resume?
    ensures ClassRank(StepRank(s, r, step), s.draining)
  {
    assert RankInv(s, r) && LifeRank(s, r);
    if step.ReturnReal? {
      RealReturnsBeforeFlag(s, r);
      ClassApp(s, r, step);
    } else if step.ReturnDummy? {
      DummyIsAwaited(s, r);
      ClassApp(s, r, step);
    } else if step.SetFlag? {
      PassIsQuiet(s, r);
      assert QuietRank(s.ranks[r]);
      ClassDrain(s, r, step);
    } else if step.Send? || step.Publish? || step.ReadFlag? || step.StoreSlot? || step.Count? || step.Unpark? ||
              step.Receive? || step.ReceiveDummy? {
      ClassApp(s, r, step);
    } else {
      ClassDrain(s, r, step);
    }
  }

  lemma NoneActiveAtEnd(s: State, r: Rid, q: Rid)
    requires Inv(s) && Enabled(s, r, Resume) && q < |s.ranks|
    ensures !s.ranks[q].slot.Active?
  {
    assert LifeRank(s, q) && RankInv(s, q);
    FinishedMeansNoneActive(s, s.rounds[s.ranks[q].round], q);
  }

  ghost function Arrived(s: State, r: Rid, step: Step, q: Rid): Rank
    requires Enabled(s, r, step) && q < |s.ranks|
  {
    var rk := if q == r then StepRank(s, r, step) else s.ranks[q];
    if step.Send? && step.dest == q then rk.(net := rk.net + 1)
    else if step.SendDummy? && s.posted[r][s.ranks[r].next] == q then rk.(dummies := rk.dummies + 1)
    else rk
  }

  lemma StepArrived(s: State, r: Rid, step: Step, q: Rid)
    requires Enabled(s, r, step) && q < |s.ranks|
    ensures Apply(s, r, step).ranks[q] == Arrived(s, r, step, q)
  {
  }

  lemma ClassStep(s: State, r: Rid, step: Step, q: Rid)
    requires Inv(s) && Enabled(s, r, step) && q < |s.ranks|
    ensures var s' := Apply(s, r, step); ClassRank(s'.ranks[q], s'.draining)
  {
    StepArrived(s, r, step, q);
    assert RankInv(s, q) && LifeRank(s, q) && LifeRank(s, r);
    if step.Resume? {
      NoneActiveAtEnd(s, r, q);
    } else if !step.CloseGate? {
      ClassSelf(s, r, step);
      var rk := if q == r then StepRank(s, r, step) else s.ranks[q];
      assert ClassRank(rk, s.draining);
    }
  }

  // ---- the dummies ----

  /** A rank at the top of pass 2 is in the newest round, so no rank has sent a dummy yet. */
  lemma {:induction false} PassGrows(rounds: seq<Round>, j: nat, k: nat)
    requires j <= k < |rounds| && forall i: nat :: i < |rounds| ==> Follows(rounds, i)
    ensures rounds[j].pass <= rounds[k].pass
    decreases k
  {
    if j < k {
      PassGrows(rounds, j, k - 1);
      assert Follows(rounds, k - 1);
    }
  }

  lemma NoneSentYet(s: State, r: Rid, q: Rid)
    requires Inv(s) && s.draining && r < |s.ranks| && q < |s.ranks|
    requires s.ranks[r].stage.Top? && s.ranks[r].pass == 2
    ensures s.ranks[q].next == 0 && s.ranks[q].pass < 3
  {
    assert LifeRank(s, r) && LifeRank(s, q) && RankInv(s, q);
    Newest(s, r);
    if InDrain(s.ranks[q]) {
      PassGrows(s.rounds, s.ranks[q].round, s.ranks[r].round);
    }
  }

  ghost predicate SendsTo(s: State, r: Rid, step: Step, q: Rid)
    requires Enabled(s, r, step)
  {
    step.SendDummy? && s.posted[r][s.ranks[r].next] == q
  }

  ghost predicate PostsFor(s: State, r: Rid, step: Step, q: Rid)
    requires Enabled(s, r, step)
  {
    step.TopStep? && Posts(s.ranks[r]) && q == r
  }

  lemma UnsentStep(s: State, r: Rid, step: Step, q: Rid)
    requires Inv(s) && Enabled(s, r, step) && q < |s.ranks| && s.draining && Apply(s, r, step).draining
    ensures |Apply(s, r, step).posted| == |s.posted| == |s.ranks| == |Apply(s, r, step).ranks|
    ensures Unsent(Apply(s, r, step).posted, Apply(s, r, step).ranks, q) + (if SendsTo(s, r, step, q) then 1 else 0) ==
            Unsent(s.posted, s.ranks, q) + (if PostsFor(s, r, step, q) then 1 else 0)
  {
    var s' := Apply(s, r, step);
    assert LifeRank(s, r);
    if step.SendDummy? {
      assert forall i :: 0 <= i < |s.ranks| && i != r ==> s'.ranks[i].next == s.ranks[i].next;
      UnsentSend(s.posted, s.ranks, s'.ranks, r, q);
    } else {
      assert forall i :: 0 <= i < |s.ranks| ==> s'.ranks[i].next == s.ranks[i].next;
      UnsentSame(s'.posted, s.ranks, s'.ranks, q);
      if step.TopStep? && Posts(s.ranks[r]) {
        assert RankInv(s, step.sender);
        UnsentPost(s.posted, s.ranks, step.sender, r, q);
      }
    }
  }

  /** The application thread's steps. */
  lemma DummyApp(s: State, r: Rid, step: Step, unsent: nat)
    requires Enabled(s, r, step) && s.draining && DummyRank(s.ranks[r], true, unsent)
    requires ClassRank(s.ranks[r], true)
    requires step.ReturnReal? || step.ReturnDummy? || step.ReadFlag? || step.StoreSlot? || step.Count? || step.Receive?
    requires step.ReturnReal? ==> !s.ranks[r].phase
    requires PastClose(s.ranks[r]) ==> QuietRank(s.ranks[r])
    ensures DummyRank(StepRank(s, r, step), true, unsent)
  {
  }

  /** The checkpoint thread's steps. */
  lemma DummyDrain(s: State, r: Rid, step: Step, unsent: nat)
    requires Enabled(s, r, step) && s.draining && DummyRank(s.ranks[r], true, unsent)
    requires ClassRank(s.ranks[r], true)
    requires step.StartDrain? || step.TopStep? || step.SetFlag? || step.SendDummy? || step.EndSends? ||
             step.ReadRecv? || step.Reduce? || step.Judge?
    requires s.ranks[r].pass >= 1 ==> QuietRank(s.ranks[r])
    requires step.Judge? ==> s.ranks[r].pass == s.rounds[s.ranks[r].round].pass
    requires step.StartDrain? ==> s.ranks[r].pass == 0
    ensures DummyRank(StepRank(s, r, step), true, unsent + if PostsFor(s, r, step, r) then 1 else 0)
  {
  }

  lemma DummySelf(s: State, r: Rid, step: Step, unsent: nat)
    requires Inv(s) && Enabled(s, r, step) && s.draining && Apply(s, r, step).draining
    requires DummyRank(s.ranks[r], true, unsent)
    ensures DummyRank(StepRank(s, r, step), true, unsent + if PostsFor(s, r, step, r) then 1 else 0)
  {
    assert RankInv(s, r) && LifeRank(s, r);
    NoDummyBuffered(s, r, step);
    if InDrain(s.ranks[r]) && s.ranks[r].pass >= 1 {
      PassIsQuiet(s, r);
      assert QuietRank(s.ranks[r]);
    }
    if step.ReturnReal? {
      RealReturnsBeforeFlag(s, r);
    }
    if step.ReturnReal? || step.ReturnDummy? || step.ReadFlag? || step.StoreSlot? || step.Count? || step.Receive? {
      DummyApp(s, r, step, unsent);
    } else {
      DummyDrain(s, r, step, unsent);
    }
  }

  lemma DummyStep(s: State, r: Rid, step: Step, q: Rid)
    requires Inv(s) && Enabled(s, r, step) && q < |s.ranks|
    ensures var s' := Apply(s, r, step);
      |s'.posted| == |s'.ranks| && DummyRank(s'.ranks[q], s'.draining, Unsent(s'.posted, s'.ranks, q))
  {
    var s' := Apply(s, r, step);
    if s.draining && s'.draining {
      DummyDuring(s, r, step, q);
    } else {
      DummyEnds(s, r, step, q);
    }
  }

  lemma DummyDuring(s: State, r: Rid, step: Step, q: Rid)
    requires Inv(s) && Enabled(s, r, step) && q < |s.ranks| && s.draining && Apply(s, r, step).draining
    ensures var s' := Apply(s, r, step);
      |s'.posted| == |s'.ranks| && DummyRank(s'.ranks[q], true, Unsent(s'.posted, s'.ranks, q))
  {
    assert RankInv(s, q);
    StepArrived(s, r, step, q);
    UnsentStep(s, r, step, q);
    assert !step.Send? by {
      assert LifeRank(s, r);
    }
    if q == r {
      DummySelf(s, r, step, Unsent(s.posted, s.ranks, r));
    }
  }

  /** The drain begins or ends with the step, or does not run. */
  lemma DummyEnds(s: State, r: Rid, step: Step, q: Rid)
    requires Inv(s) && Enabled(s, r, step) && q < |s.ranks| && !(s.draining && Apply(s, r, step).draining)
    ensures var s' := Apply(s, r, step);
      |s'.posted| == |s'.ranks| && DummyRank(s'.ranks[q], s'.draining, Unsent(s'.posted, s'.ranks, q))
  {
    var s' := Apply(s, r, step);
    if s'.draining {
      DummyBegins(s, r, step, q);
    } else if s.draining {
      assert RankInv(s, q) && LifeRank(s, q) && LifeRank(s, r);
      StepArrived(s, r, step, q);
      NoneActiveAtEnd(s, r, q);
    } else {
      DummyIdle(s, r, step, q);
    }
  }

  lemma DummyIdle(s: State, r: Rid, step: Step, q: Rid)
    requires Inv(s) && Enabled(s, r, step) && q < |s.ranks| && !s.draining && !Apply(s, r, step).draining
    ensures var s' := Apply(s, r, step);
      |s'.posted| == |s'.ranks| && DummyRank(s'.ranks[q], false, Unsent(s'.posted, s'.ranks, q))
  {
    assert RankInv(s, q) && LifeRank(s, q) && LifeRank(s, r);
    StepArrived(s, r, step, q);
    if q == r {
      DummyIdleSelf(s, r, step, Unsent(s.posted, s.ranks, r));
    }
  }

  lemma DummyIdleSelf(s: State, r: Rid, step: Step, unsent: nat)
    requires Enabled(s, r, step) && LifeRank(s, r) && !s.draining
    requires ClassRank(s.ranks[r], false) && DummyRank(s.ranks[r], false, unsent)
    ensures DummyRank(StepRank(s, r, step), false, unsent)
  {
  }

  lemma DummyBegins(s: State, r: Rid, step: Step, q: Rid)
    requires Inv(s) && Enabled(s, r, step) && q < |s.ranks| && !s.draining && Apply(s, r, step).draining
    ensures var s' := Apply(s, r, step);
      |s'.posted| == |s'.ranks| && DummyRank(s'.ranks[q], true, Unsent(s'.posted, s'.ranks, q))
  {
    var s' := Apply(s, r, step);
    assert RankInv(s, q) && LifeRank(s, q) && LifeRank(s, r);
    StepArrived(s, r, step, q);
    UnsentNone(s'.posted, s'.ranks, q);
  }

  lemma ListStep(s: State, r: Rid, step: Step, q: Rid)
    requires Inv(s) && Enabled(s, r, step) && q < |s.ranks|
    ensures var s' := Apply(s, r, step);
      |s'.posted| == |s'.ranks| && ListRank(s'.ranks[q], s'.draining, s'.posted[q], |s'.ranks|)
  {
    if step.TopStep? {
      ListTop(s, r, step, q);
    } else if q == r {
      ListSelf(s, r, step);
    } else {
      assert RankInv(s, q) && LifeRank(s, q);
      StepArrived(s, r, step, q);
    }
  }

  /** A rank that posts its dummy lengthens a list; no rank has sent from one then. */
  lemma ListTop(s: State, r: Rid, step: Step, q: Rid)
    requires Inv(s) && Enabled(s, r, step) && q < |s.ranks| && step.TopStep?
    ensures var s' := Apply(s, r, step);
      |s'.posted| == |s'.ranks| && ListRank(s'.ranks[q], s'.draining, s'.posted[q], |s'.ranks|)
  {
    assert RankInv(s, q) && LifeRank(s, q) && LifeRank(s, r);
    StepArrived(s, r, step, q);
    if s.draining && Posts(s.ranks[r]) {
      NoneSentYet(s, r, q);
    }
  }

  lemma ListSelf(s: State, r: Rid, step: Step)
    requires Inv(s) && Enabled(s, r, step) && !step.TopStep?
    ensures var s' := Apply(s, r, step);
      |s'.posted| == |s'.ranks| && ListRank(s'.ranks[r], s'.draining, s'.posted[r], |s'.ranks|)
  {
    assert RankInv(s, r) && LifeRank(s, r);
    StepArrived(s, r, step, r);
  }

  // ---- every run ----

  lemma InitInv(s: State)
    requires Init(s)
    ensures Inv(s)
  {
    SumOfZeros(Loads(s.ranks));
    SumOfZeros(Sents(s.ranks));
  }

  lemma StepInv(s: State, r: Rid, step: Step)
    requires Inv(s) && Enabled(s, r, step)
    ensures Inv(Apply(s, r, step))
  {
    var s' := Apply(s, r, step);
    LifeStep(s, r, step);
    BalancedStep(s, r, step);
    QuietStep(s, r, step);
    forall q: Rid | q < |s'.ranks| ensures RankInv(s', q) {
      ClassStep(s, r, step, q);
      SampleStep(s, r, step, q);
      DummyStep(s, r, step, q);
      ListStep(s, r, step, q);
    }
  }

  lemma {:induction false} RunInv(run: seq<State>, i: nat)
    requires Run(run) && i < |run|
    ensures Inv(run[i])
  {
    if i == 0 {
      InitInv(run[0]);
    } else {
      RunInv(run, i - 1);
      assert StepAt(run, i - 1);
      var r: Rid, step: Step :| Enabled(run[i - 1], r, step) && run[i] == Apply(run[i - 1], r, step);
      StepInv(run[i - 1], r, step);
    }
  }
}
