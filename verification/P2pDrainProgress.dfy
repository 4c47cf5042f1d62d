/**
That the point-to-point drain gets on, over every run: what a rank gives to a reduction is what it
read, a reduction decides exactly by what it was given, a drain with nothing left to receive ends,
the dummy passes start when only blocked receives are left, and some rank can always go on.
*/
module P2pDrainProgress {
  import opened Common
  import opened P2pDrain
  import opened P2pDrainRounds
  import opened P2pDrainSums
  import opened P2pDrainInvariant
  import opened P2pDummies

  ghost predicate DrainsAt(run: seq<State>, i: nat) { i < |run| && run[i].draining }

  /** The run drains from state i to state j. */
  ghost predicate Drains(run: seq<State>, i: nat, j: nat) {
    forall m: nat {:trigger DrainsAt(run, m)} :: i <= m <= j ==> DrainsAt(run, m)
  }

  lemma RunNext(run: seq<State>, i: nat)
    requires Run(run) && i + 1 < |run|
    ensures Inv(run[i]) && Next(run[i], run[i + 1])
  {
    RunInv(run, i);
    assert StepAt(run, i);
  }

  lemma StepOf(run: seq<State>, i: nat) returns (r: Rid, step: Step)
    requires Run(run) && i + 1 < |run|
    ensures Inv(run[i]) && Enabled(run[i], r, step) && run[i + 1] == Apply(run[i], r, step)
  {
    RunInv(run, i);
    assert StepAt(run, i);
    r, step :| Enabled(run[i], r, step) && run[i + 1] == Apply(run[i], r, step);
  }

  // ---- what a rank gives to a reduction ----

  /** In step b, rank r reads local_recv_messages for round k. */
  ghost predicate Reads(run: seq<State>, b: nat, r: Rid, k: nat) {
    && b + 1 < |run| && r < |run[b].ranks| && r < |run[b + 1].ranks|
    && run[b].ranks[r].stage.Work? && run[b].ranks[r].round == k && run[b + 1].ranks[r].stage.Counted?
  }

  /** In step a, rank r gives its numbers to the reduction of round k. */
  ghost predicate Gives(run: seq<State>, a: nat, r: Rid, k: nat) {
    && a + 1 < |run| && r < |run[a].ranks| && r < |run[a + 1].ranks|
    && run[a].ranks[r].stage.Counted? && run[a].ranks[r].round == k && run[a + 1].ranks[r].stage.Reducing?
  }

  lemma CountedStep(s: State, r: Rid, q: Rid, step: Step)
    requires Inv(s) && Enabled(s, q, step) && r < |s.ranks| && Apply(s, q, step).ranks[r].stage.Counted?
    ensures var rk, rk' := s.ranks[r], Apply(s, q, step).ranks[r];
            && rk'.round == rk.round
            && (rk.stage == rk'.stage || (rk.stage.Work? && rk'.stage == Counted(rk.recv)))
  {
    StepArrived(s, q, step, r);
  }

  lemma {:induction false} CountedWasRead(run: seq<State>, i: nat, r: Rid) returns (b: nat)
    requires Run(run) && i < |run| && r < |run[i].ranks| && run[i].ranks[r].stage.Counted?
    ensures b < i && Reads(run, b, r, run[i].ranks[r].round) && Drains(run, b, i)
    ensures run[i].ranks[r].stage.recv == run[b].ranks[r].recv
  {
    CountedDrains(run, i, r);
    if i == 0 {
      assert false;
    }
    RunNext(run, i - 1);
    CountedNext(run[i - 1], run[i], r);
    CountedDrains(run, i - 1, r);
    if run[i - 1].ranks[r].stage.Counted? {
      b := CountedWasRead(run, i - 1, r);
    } else {
      b := i - 1;
    }
  }

  lemma CountedDrains(run: seq<State>, i: nat, r: Rid)
    requires Run(run) && i < |run| && r < |run[i].ranks|
    ensures run[i].ranks[r].stage.Counted? || run[i].ranks[r].stage.Work? ==> i > 0 && DrainsAt(run, i)
  {
    RunInv(run, i);
    assert LifeRank(run[i], r);
  }

  lemma CountedNext(s: State, s': State, r: Rid)
    requires Inv(s) && Next(s, s') && r < |s'.ranks| && s'.ranks[r].stage.Counted?
    ensures r < |s.ranks|
    ensures var rk, rk' := s.ranks[r], s'.ranks[r];
            && rk'.round == rk.round
            && (rk.stage == rk'.stage || (rk.stage.Work? && rk'.stage == Counted(rk.recv)))
  {
    var q: Rid, step: Step :| Enabled(s, q, step) && s' == Apply(s, q, step);
    CountedStep(s, r, q, step);
  }

  /** A sample is there after the step because it was there before, or because the rank gave it. */
  lemma SampleFrom(s: State, k: nat, r: Rid, q: Rid, step: Step)
    requires Inv(s) && Enabled(s, q, step) && r < |s.ranks|
    requires var s' := Apply(s, q, step);
             s'.draining && k < |s'.rounds| && r < |s'.rounds[k].samples| && s'.rounds[k].samples[r].Some?
    ensures s.draining
    ensures var rk, sample' := s.ranks[r], Apply(s, q, step).rounds[k].samples[r];
            || (k < |s.rounds| && r < |s.rounds[k].samples| && s.rounds[k].samples[r] == sample')
            || (q == r && step.Reduce? && rk.round == k && rk.stage.Counted? &&
                sample' == Some(Sample(rk.sent, rk.stage.recv, rk.slot.Active?, step.busy, step.dummySends)))
  {
    assert LifeRank(s, q);
  }

  /** The sample of rank r in round k: r read its received count in step b, and gave the numbers, with
      its sent count and its slot, in step a. */
  lemma {:induction false} SampleWasGiven(run: seq<State>, i: nat, k: nat, r: Rid) returns (b: nat, a: nat)
    requires Run(run) && i < |run| && run[i].draining && r < |run[i].ranks|
    requires k < |run[i].rounds| && r < |run[i].rounds[k].samples| && run[i].rounds[k].samples[r].Some?
    ensures b < a < i && Reads(run, b, r, k) && Gives(run, a, r, k) && Drains(run, b, i)
    ensures var sample := run[i].rounds[k].samples[r].value;
            && sample.recv == run[b].ranks[r].recv && sample.sent == run[a].ranks[r].sent
            && sample.inRecv == run[a].ranks[r].slot.Active?
  {
    if i == 0 {
      assert false;
    }
    var before := SampleBefore(run, i, k, r);
    if before {
      b, a := SampleWasGiven(run, i - 1, k, r);
    } else {
      a := i - 1;
      b := CountedWasRead(run, a, r);
    }
  }

  lemma SampleBefore(run: seq<State>, i: nat, k: nat, r: Rid) returns (before: bool)
    requires Run(run) && 0 < i < |run| && run[i].draining && r < |run[i].ranks|
    requires k < |run[i].rounds| && r < |run[i].rounds[k].samples| && run[i].rounds[k].samples[r].Some?
    ensures run[i - 1].draining && r < |run[i - 1].ranks|
    ensures before ==>
              && k < |run[i - 1].rounds| && r < |run[i - 1].rounds[k].samples|
              && run[i - 1].rounds[k].samples[r] == run[i].rounds[k].samples[r]
    ensures !before ==>
              && Gives(run, i - 1, r, k)
              && var rk, sample := run[i - 1].ranks[r], run[i].rounds[k].samples[r].value;
                 sample.recv == rk.stage.recv && sample.sent == rk.sent && sample.inRecv == rk.slot.Active?
  {
    var q, step := StepOf(run, i - 1);
    var s := run[i - 1];
    SampleFrom(s, k, r, q, step);
    before := k < |s.rounds| && r < |s.rounds[k].samples| && s.rounds[k].samples[r] == run[i].rounds[k].samples[r];
  }

  // ---- what a reduction decides ----

  function Samples(r: Round): seq<Sample>
    requires Full(r)
  {
    seq(|r.samples|, i requires 0 <= i < |r.samples| => r.samples[i].value)
  }

  /** All messages that the ranks had sent are received, and no rank has anything else unfinished. */
  predicate AllReceived(v: seq<Sample>) {
    && Sum(seq(|v|, i requires 0 <= i < |v| => v[i].sent)) <= Sum(seq(|v|, i requires 0 <= i < |v| => v[i].recv))
    && forall i :: 0 <= i < |v| ==> v[i].busy == 0
  }

  predicate SomeInRecv(v: seq<Sample>) { exists i :: 0 <= i < |v| && v[i].inRecv }

  predicate NoDummySends(v: seq<Sample>) { forall i :: 0 <= i < |v| ==> v[i].dummySends == 0 }

  lemma SumIsZero(a: seq<nat>)
    ensures Sum(a) == 0 <==> forall i :: 0 <= i < |a| ==> a[i] == 0
  {
    if Sum(a) == 0 {
      forall i | 0 <= i < |a| ensures a[i] == 0 {
        SumZero(a, i);
      }
    } else if forall i :: 0 <= i < |a| ==> a[i] == 0 {
      SumOfZeros(a);
    }
  }

  lemma ReceivedMeans(r: Round)
    requires Full(r)
    ensures Received(r) <==> AllReceived(Samples(r))
  {
    var v := Samples(r);
    assert seq(|v|, i requires 0 <= i < |v| => v[i].sent) == SentOf(r);
    assert seq(|v|, i requires 0 <= i < |v| => v[i].recv) == RecvOf(r);
    SumIsZero(BusyOf(r));
    assert forall i :: 0 <= i < |v| ==> BusyOf(r)[i] == v[i].busy;
  }

  lemma InRecvMeans(r: Round)
    requires Full(r)
    ensures Sum(InRecvOf(r)) > 0 <==> SomeInRecv(Samples(r))
  {
    var v := Samples(r);
    SumIsZero(InRecvOf(r));
    assert forall i :: 0 <= i < |v| ==> (InRecvOf(r)[i] != 0 <==> v[i].inRecv);
  }

  lemma DummySendsMean(r: Round)
    requires Full(r)
    ensures Sum(DummySendsOf(r)) == 0 <==> NoDummySends(Samples(r))
  {
    var v := Samples(r);
    SumIsZero(DummySendsOf(r));
    assert forall i :: 0 <= i < |v| ==> DummySendsOf(r)[i] == v[i].dummySends;
  }

  /** A complete reduction ends the drain exactly if all messages are received, no rank is in MPI_Recv
      and no dummy is still being sent.  Otherwise the dummy passes go on, start if only receives are
      left, or do not start. */
  lemma RoundDecides(run: seq<State>, i: nat, k: nat)
    requires Run(run) && i < |run| && run[i].draining && k < |run[i].rounds| && Full(run[i].rounds[k])
    ensures var rounds := run[i].rounds; var v := Samples(rounds[k]);
      && (k + 1 == |rounds| <==> AllReceived(v) && !SomeInRecv(v) && NoDummySends(v))
      && (k + 1 < |rounds| ==>
            rounds[k + 1].pass == (if rounds[k].pass > 0 then rounds[k].pass + 1
                                   else if AllReceived(v) && SomeInRecv(v) then 1 else 0))
  {
    RunInv(run, i);
    var r := run[i].rounds[k];
    ReceivedMeans(r);
    InRecvMeans(r);
    DummySendsMean(r);
    assert Follows(run[i].rounds, k);
  }

  /** What a rank does with a complete reduction. */
  lemma JudgeDecides(run: seq<State>, i: nat, r: Rid)
    requires Run(run) && i < |run| && Enabled(run[i], r, Judge)
    ensures run[i].draining
    ensures var v, rk' := Samples(run[i].rounds[run[i].ranks[r].round]), StepRank(run[i], r, Judge);
      if AllReceived(v) && !SomeInRecv(v) && NoDummySends(v) then rk'.stage.Done?
      else rk'.stage.Top? && rk'.round == run[i].ranks[r].round + 1
  {
    RunInv(run, i);
    assert LifeRank(run[i], r);
    var round := run[i].rounds[run[i].ranks[r].round];
    ReceivedMeans(round);
    InRecvMeans(round);
    DummySendsMean(round);
  }

  // ---- a drain with nothing left to receive ends ----

  lemma QuietCounts(s: State, r: Rid, q: Rid, step: Step)
    requires Inv(s) && Enabled(s, q, step) && s.draining && Quiet(s) && r < |s.ranks|
    ensures var rk, rk' := s.ranks[r], Apply(s, q, step).ranks[r]; rk'.recv == rk.recv && rk'.sent == rk.sent
  {
    assert LifeRank(s, q) && QuietRank(s.ranks[q]);
    NoDummyBuffered(s, q, step);
    StepArrived(s, q, step, r);
  }

  lemma QuietNext(s: State, s': State, r: Rid)
    requires Inv(s) && Next(s, s') && s.draining && Quiet(s) && r < |s.ranks|
    ensures Quiet(s') && |s'.ranks| == |s.ranks|
    ensures s'.ranks[r].recv == s.ranks[r].recv && s'.ranks[r].sent == s.ranks[r].sent
  {
    var q: Rid, step: Step :| Enabled(s, q, step) && s' == Apply(s, q, step);
    QuietStays(s, q, step);
    QuietCounts(s, r, q, step);
  }

  lemma RoundsNext(s: State, s': State)
    requires Inv(s) && Next(s, s') && s.draining && s'.draining
    ensures |s.rounds| <= |s'.rounds|
  {
    var q: Rid, step: Step :| Enabled(s, q, step) && s' == Apply(s, q, step);
    assert LifeRank(s, q);
  }

  lemma RanksNext(s: State, s': State)
    requires Next(s, s')
    ensures |s'.ranks| == |s.ranks|
  {
  }

  /** Once nothing is in flight or uncounted, the counters stay as they are until the drain ends. */
  lemma {:induction false} QuietStaysSo(run: seq<State>, j: nat, i: nat, r: Rid)
    requires Run(run) && j <= i < |run| && Drains(run, j, i) && Quiet(run[j]) && r < |run[j].ranks|
    ensures Quiet(run[i]) && |run[i].ranks| == |run[j].ranks|
    ensures run[i].ranks[r].recv == run[j].ranks[r].recv && run[i].ranks[r].sent == run[j].ranks[r].sent
    decreases i
  {
    if j < i {
      assert DrainsAt(run, i - 1);
      QuietStaysSo(run, j, i - 1, r);
      RunNext(run, i - 1);
      QuietNext(run[i - 1], run[i], r);
    }
  }

  lemma {:induction false} RoundsGrow(run: seq<State>, j: nat, i: nat)
    requires Run(run) && j <= i < |run| && Drains(run, j, i)
    ensures |run[j].rounds| <= |run[i].rounds|
    decreases i
  {
    if j < i {
      assert DrainsAt(run, i) && DrainsAt(run, i - 1);
      RoundsGrow(run, j, i - 1);
      RunNext(run, i - 1);
      RoundsNext(run[i - 1], run[i]);
    }
  }

  /** The rank read its count for round k after state j, where the round was not open. */
  lemma QuietSample(run: seq<State>, j: nat, i: nat, k: nat, r: Rid)
    requires Run(run) && j <= i < |run| && Drains(run, j, i) && Quiet(run[j]) && |run[j].rounds| <= k
    requires k < |run[i].rounds| && r < |run[i].ranks| && r < |run[i].rounds[k].samples|
    requires run[i].rounds[k].samples[r].Some?
    ensures r < |run[j].ranks| == |run[i].ranks|
    ensures var sample := run[i].rounds[k].samples[r].value;
            sample.recv == run[j].ranks[r].recv && sample.sent == run[j].ranks[r].sent
  {
    assert DrainsAt(run, i);
    var b, a := SampleWasGiven(run, i, k, r);
    RunInv(run, b);
    assert LifeRank(run[b], r);
    if b < j {
      RoundsGrow(run, b, j);
    }
    SameRanks(run, j, i);
    QuietStaysSo(run, j, b, r);
    QuietStaysSo(run, j, a, r);
  }

  lemma {:induction false} SameRanks(run: seq<State>, j: nat, i: nat)
    requires Run(run) && j <= i < |run|
    ensures |run[i].ranks| == |run[j].ranks|
    decreases i
  {
    if j < i {
      SameRanks(run, j, i - 1);
      RunNext(run, i - 1);
      RanksNext(run[i - 1], run[i]);
    }
  }

  /** The drain ends when it should: if nothing was in flight or uncounted before round k opened, and
      in round k no rank gave a receive in the lower half or anything unfinished, then round k is the
      last one, and every rank leaves the drain loop there. */
  lemma QuietDrainEnds(run: seq<State>, j: nat, i: nat, k: nat, r: Rid)
    requires Run(run) && j <= i < |run| && Drains(run, j, i) && Quiet(run[j]) && |run[j].rounds| <= k
    requires k < |run[i].rounds| && Full(run[i].rounds[k]) && r < |run[i].ranks|
    requires forall v :: v in Samples(run[i].rounds[k]) ==> v.busy == 0 && v.dummySends == 0 && !v.inRecv
    ensures k + 1 == |run[i].rounds|
    ensures Enabled(run[i], r, Judge) && run[i].ranks[r].round == k ==> StepRank(run[i], r, Judge).stage.Done?
  {
    assert DrainsAt(run, i);
    RunInv(run, i);
    RunInv(run, j);
    var v, ranks := Samples(run[i].rounds[k]), run[j].ranks;
    assert |v| == |run[i].ranks|;
    SameRanks(run, j, i);
    forall q | 0 <= q < |v| ensures v[q].recv == ranks[q].recv && v[q].sent == ranks[q].sent && v[q].busy == 0 {
      QuietSample(run, j, i, k, q);
      assert v[q] in v;
    }
    assert seq(|v|, q requires 0 <= q < |v| => v[q].sent) == Sents(ranks);
    forall q | 0 <= q < |v| ensures Loads(ranks)[q] == v[q].recv {
      assert QuietRank(ranks[q]);
    }
    assert seq(|v|, q requires 0 <= q < |v| => v[q].recv) == Loads(ranks);
    assert AllReceived(v);
    RoundDecides(run, i, k);
    if Enabled(run[i], r, Judge) && run[i].ranks[r].round == k {
      JudgeDecides(run, i, r);
    }
  }

  // ---- the dummy passes ----

  /** When round k has all messages received and some rank in MPI_Recv, the passes follow. */
  lemma PassesFollow(run: seq<State>, i: nat, k: nat, n: nat)
    requires Run(run) && i < |run| && run[i].draining && k + n < |run[i].rounds| && n > 0
    requires Full(run[i].rounds[k]) && run[i].rounds[k].pass == 0
    requires AllReceived(Samples(run[i].rounds[k])) && SomeInRecv(Samples(run[i].rounds[k]))
    ensures run[i].rounds[k + n].pass == n
    decreases n
  {
    RunInv(run, i);
    if n == 1 {
      RoundDecides(run, i, k);
    } else {
      PassesFollow(run, i, k, n - 1);
      assert Follows(run[i].rounds, k + n - 1);
      RoundDecides(run, i, k + n - 1);
    }
  }

  /** Every MPI_Recv that is still blocked gets its dummy: four rounds after a round with all messages
      received and some rank in MPI_Recv, it can go on. */
  lemma DummiesReachBlocked(run: seq<State>, i: nat, k: nat, r: Rid)
    requires Run(run) && i < |run| && run[i].draining && k + 4 < |run[i].rounds| && r < |run[i].ranks|
    requires Full(run[i].rounds[k]) && run[i].rounds[k].pass == 0
    requires AllReceived(Samples(run[i].rounds[k])) && SomeInRecv(Samples(run[i].rounds[k]))
    requires run[i].ranks[r].slot.Active?
    ensures Enabled(run[i], r, ReturnDummy) || Enabled(run[i], r, ReadFlag) || Enabled(run[i], r, StoreSlot)
  {
    RunInv(run, i);
    var s := run[i];
    PassesFollow(run, i, k, 3);
    PassesFollow(run, i, k, 4);
    assert Follows(s.rounds, k + 3);
    forall q: Rid | q < |s.ranks| ensures PastSends(s.ranks[q]) {
      assert LifeRank(s, q);
      assert s.rounds[k + 3].samples[q].Some?;
      if s.ranks[q].round > k + 3 {
        PassesFollow(run, i, k, s.ranks[q].round - k);
      }
    }
    BlockedCanGoOn(run, i, r);
  }

  // ---- some rank can always go on ----

  /** The steps of the checkpoint threads. */
  predicate IsDrainStep(step: Step) {
    || step.StartDrain? || step.TopStep? || step.SetFlag? || step.SendDummy? || step.EndSends?
    || step.ReadRecv? || step.Reduce? || step.Judge? || step.Resume?
  }

  predicate Unfinished(rk: Rank) { Busy(rk) || rk.stage.AtBarrier? }

  lemma BusyCanGoOn(s: State, r: Rid) returns (step: Step)
    requires Inv(s) && s.draining && r < |s.ranks| && Unfinished(s.ranks[r])
    ensures IsDrainStep(step) && Enabled(s, r, step) && !step.Resume? && (step.Reduce? ==> step == Reduce(0, 0))
  {
    assert LifeRank(s, r) && RankInv(s, r);
    var rk := s.ranks[r];
    step := if rk.stage.AtBarrier? then StartDrain
            else if rk.stage.Closing? then SetFlag
            else if rk.stage.Work? then ReadRecv
            else if rk.stage.Counted? then Reduce(0, 0)
            else if rk.pass != 3 then TopStep(r)
            else if rk.next < |s.posted[r]| then SendDummy
            else EndSends;
  }

  lemma SomeCanGoOn(s: State) returns (r: Rid, step: Step)
    requires Inv(s) && s.draining && |s.ranks| > 0
    ensures IsDrainStep(step) && Enabled(s, r, step) && (step.Reduce? ==> step == Reduce(0, 0))
  {
    if q: Rid :| q < |s.ranks| && Unfinished(s.ranks[q]) {
      r := q;
      step := BusyCanGoOn(s, r);
      return;
    }
    forall q: Rid | q < |s.ranks| ensures s.ranks[q].stage.Reducing? || s.ranks[q].stage.Done? {
      assert LifeRank(s, q) && !Unfinished(s.ranks[q]);
    }
    if q: Rid :| q < |s.ranks| && s.ranks[q].stage.Reducing? {
      r := ReducingCanGoOn(s, q);
      step := Judge;
    } else {
      r, step := 0, Resume;
    }
  }

  /** The drain has no deadlock: until it ends, some checkpoint thread can make its next step. */
  lemma DrainCanGoOn(run: seq<State>, i: nat) returns (r: Rid, step: Step)
    requires Run(run) && i < |run| && run[i].draining && |run[i].ranks| > 0
    ensures IsDrainStep(step) && Enabled(run[i], r, step)
  {
    RunInv(run, i);
    r, step := SomeCanGoOn(run[i]);
  }

  /** With all ranks at their reductions, the one in the oldest round can judge it. */
  lemma ReducingCanGoOn(s: State, q: Rid) returns (r: Rid)
    requires Inv(s) && s.draining && q < |s.ranks| && s.ranks[q].stage.Reducing?
    requires forall p: Rid :: p < |s.ranks| ==> s.ranks[p].stage.Reducing? || s.ranks[p].stage.Done?
    ensures Enabled(s, r, Judge)
  {
    assert LifeRank(s, q);
    var k := s.ranks[q].round;
    if Full(s.rounds[k]) {
      return q;
    }
    var p: Rid :| p < |s.rounds[k].samples| && !s.rounds[k].samples[p].Some?;
    assert LifeRank(s, p);
    assert Follows(s.rounds, s.ranks[p].round);
    return p;
  }

  // ---- after the drain ----

  /** Between checkpoints the slot is not closed, and the flag is reset. */
  predicate OpenRank(rk: Rank) { rk.stage.Running? ==> rk.slot != Closed && !rk.phase }

  lemma OpenStep(s: State, r: Rid, q: Rid, step: Step)
    requires Inv(s) && Enabled(s, q, step) && r < |s.ranks| && OpenRank(s.ranks[r])
    ensures OpenRank(Apply(s, q, step).ranks[r])
  {
    assert LifeRank(s, r) && RankInv(s, r);
    StepArrived(s, q, step, r);
  }

  lemma {:induction false} RunOpen(run: seq<State>, i: nat, r: Rid)
    requires Run(run) && i < |run| && r < |run[i].ranks|
    ensures OpenRank(run[i].ranks[r])
  {
    if i > 0 {
      var q, step := StepOf(run, i - 1);
      RunOpen(run, i - 1, r);
      OpenStep(run[i - 1], r, q, step);
    }
  }

  /** After any number of checkpoints, a rank can send, a rank that is in no MPI_Recv can make one, and
      a rank whose MPI_Recv received a dummy can try it again. */
  lemma CanReceiveAgain(run: seq<State>, i: nat, r: Rid)
    requires Run(run) && i < |run| && r < |run[i].ranks| && run[i].ranks[r].stage.Running?
    ensures forall d: Rid :: d < |run[i].ranks| ==> Enabled(run[i], r, Send(d))
    ensures run[i].ranks[r].place.Out? ==> Enabled(run[i], r, Publish)
    ensures run[i].ranks[r].place.Parked? ==>
              Enabled(run[i], r, Unpark) && Enabled(Apply(run[i], r, Unpark), r, Publish)
  {
    RunInv(run, i);
    RunOpen(run, i, r);
    assert RankInv(run[i], r);
  }

  /** From its part of pass 1 on, a rank's slot is not idle: no MPI_Recv could be published any more. */
  predicate ClosedRank(rk: Rank) { PastClose(rk) ==> rk.slot != Idle }

  lemma ClosedStep(s: State, r: Rid, q: Rid, step: Step)
    requires Inv(s) && Enabled(s, q, step) && r < |s.ranks| && s.draining && Apply(s, q, step).draining
    requires ClosedRank(s.ranks[r])
    ensures ClosedRank(Apply(s, q, step).ranks[r])
  {
    assert LifeRank(s, r) && RankInv(s, r);
    StepArrived(s, q, step, r);
    if step.Judge? {
      assert Follows(s.rounds, s.ranks[q].round);
    }
  }

  lemma ClosedBegins(s: State, r: Rid, q: Rid, step: Step)
    requires Inv(s) && Enabled(s, q, step) && r < |s.ranks| && !s.draining && Apply(s, q, step).draining
    ensures ClosedRank(Apply(s, q, step).ranks[r])
  {
    assert LifeRank(s, r) && LifeRank(s, q);
    StepArrived(s, q, step, r);
  }

  lemma ClosedNext(s: State, s': State, r: Rid)
    requires Inv(s) && Next(s, s') && r < |s.ranks| && s'.draining && (s.draining ==> ClosedRank(s.ranks[r]))
    ensures r < |s'.ranks| && ClosedRank(s'.ranks[r])
  {
    var q: Rid, step: Step :| Enabled(s, q, step) && s' == Apply(s, q, step);
    if s.draining {
      ClosedStep(s, r, q, step);
    } else {
      ClosedBegins(s, r, q, step);
    }
  }

  lemma {:induction false} SlotStaysClosed(run: seq<State>, i: nat, r: Rid)
    requires Run(run) && i < |run| && r < |run[i].ranks| && run[i].draining
    ensures ClosedRank(run[i].ranks[r])
  {
    if i > 0 {
      SameRanks(run, i - 1, i);
      RunNext(run, i - 1);
      if run[i - 1].draining {
        SlotStaysClosed(run, i - 1, r);
      }
      ClosedNext(run[i - 1], run[i], r);
    }
  }
}
