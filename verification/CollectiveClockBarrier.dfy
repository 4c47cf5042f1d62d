/**
The barriers of the Collective Clock drain: which processes a round has seen, and that
the counters of a round say what its processes said.
*/
module CollectiveClockBarrier {
  import opened MpiJob
  import opened CollectiveClock

  /** The process has arrived at the barrier of round k. */
  predicate ArrivedAt(pr: Proc, k: nat) {
    (pr.stage.Rounds() || pr.stage.Failed?) && (k < pr.round || (k == pr.round && pr.stage.Arrived()))
  }

  predicate Full(s: State, k: nat)
    requires k < |s.rounds|
  {
    AllIn(|s.procs|, s.rounds[k].arrived.Keys)
  }

  ghost predicate BarrierProc(s: State, p: Pid)
    requires p < |s.procs|
  {
    var pr := s.procs[p];
    && (p in s.shared <==> !pr.stage.Idle? && !pr.stage.ShareUp?)
    && (pr.stage.ShareDown? || pr.stage.Rounds() || pr.stage.Failed? ==> pr.round < |s.rounds|)
    && (pr.stage.ShareUp? || pr.stage.ShareWait? || pr.stage.ShareDown? ==> pr.round == 0)
    && (pr.stage.Judged? || pr.stage.RoundDown? || pr.stage.Done? || pr.stage.Failed? ==>
          pr.round + 1 < |s.rounds|)
    && (forall k: nat :: k < |s.rounds| ==> (p in s.rounds[k].arrived <==> ArrivedAt(pr, k)))
  }

  /** A round is full exactly if the next one is open. */
  ghost predicate BarrierShared(s: State) {
    && (|s.procs| > 0 ==> (|s.rounds| > 0 <==> AllIn(|s.procs|, s.shared)))
    && (forall k: nat :: k < |s.rounds| ==> (Full(s, k) <==> k + 1 < |s.rounds|))
  }

  ghost predicate BarrierInv(s: State) {
    BarrierShared(s) && forall p: Pid :: p < |s.procs| ==> BarrierProc(s, p)
  }

  /** A process that has not arrived at its round is in the newest round. */
  lemma NewestRound(s: State, p: Pid)
    requires BarrierInv(s) && p < |s.procs|
    requires BeforeArrival(s.procs[p].stage) || s.procs[p].stage.ShareDown?
    ensures s.procs[p].round == |s.rounds| - 1
  {
    assert BarrierProc(s, p);
    var k := s.procs[p].round;
    assert p !in s.rounds[k].arrived;
    assert !Full(s, k);
  }

  lemma BarrierArriveShare(job: Job, s: State, p: Pid)
    requires |s.procs| == |job.programs| && BarrierInv(s) && Enabled(job, s, p, ArriveShare)
    ensures BarrierInv(Apply(job, s, p, ArriveShare))
  {
    var s' := Apply(job, s, p, ArriveShare);
    assert BarrierProc(s, p);
    assert p !in s.shared && s.rounds == [];
    forall q: Pid | q < |s.procs| ensures BarrierProc(s', q) {
      assert BarrierProc(s, q);
    }
    assert |s'.rounds| > 0 ==> !Full(s', 0) by {
      if |s'.rounds| > 0 {
        assert p !in s'.rounds[0].arrived.Keys;
      }
    }
  }

  lemma BarrierArrive(job: Job, s: State, p: Pid)
    requires |s.procs| == |job.programs| && BarrierInv(s) && Enabled(job, s, p, Arrive)
    ensures BarrierInv(Apply(job, s, p, Arrive))
  {
    var s' := Apply(job, s, p, Arrive);
    var k := s.procs[p].round;
    assert BarrierProc(s, p);
    NewestRound(s, p);
    var r := AddSample(s.rounds[k], p, s.procs[p]);
    assert r.arrived.Keys == s.rounds[k].arrived.Keys + {p};
    forall q: Pid | q < |s.procs| ensures BarrierProc(s', q) {
      assert BarrierProc(s, q);
    }
    forall j: nat | j < |s'.rounds| ensures Full(s', j) <==> j + 1 < |s'.rounds| {
      if j < k {
        assert Full(s, j);
      } else if j > k {
        assert p !in s'.rounds[j].arrived.Keys;
      }
    }
  }

  /** The barriers of s' are those of s. */
  ghost predicate SameBarriers(s: State, s': State) {
    && |s'.procs| == |s.procs| && s'.shared == s.shared && |s'.rounds| == |s.rounds|
    && forall k: nat :: k < |s.rounds| ==> s'.rounds[k].arrived == s.rounds[k].arrived
  }

  lemma StepSameBarriers(job: Job, s: State, p: Pid, step: Step)
    requires |s.procs| == |job.programs| && Enabled(job, s, p, step)
    requires !step.ArriveShare? && !step.Arrive?
    ensures SameBarriers(s, Apply(job, s, p, step))
  {
  }

  /** The steps of a checkpoint thread, as far as the barriers see them. */
  ghost predicate Moves(s: State, pr: Proc, pr': Proc) {
    || (pr'.stage == pr.stage && pr'.round == pr.round)
    || (pr.stage.Idle? && pr'.stage.ShareUp? && pr'.round == 0)
    || (pr.stage.ShareWait? && AllIn(|s.procs|, s.shared) && pr'.stage.ShareDown? && pr'.round == pr.round)
    || (pr'.round == pr.round && (
        || (pr.stage.ShareUp? && pr'.stage.ShareUp?)
        || (pr.stage.ShareDown? && (pr'.stage.ShareDown? || pr'.stage.Ready?))
        || (BeforeArrival(pr.stage) && BeforeArrival(pr'.stage))
        || ((pr.stage.Judged? || pr.stage.RoundDown?) && pr'.stage.RoundDown?)
        || (pr.stage.RoundWait? && pr.round < |s.rounds| && Full(s, pr.round) &&
            (pr'.stage.Done? || pr'.stage.Judged? || pr'.stage.Failed?))))
    || (pr'.round == pr.round + 1 && pr'.stage.Ready? &&
        (pr.stage.RoundDown? || (pr.stage.RoundWait? && pr.round < |s.rounds| && Full(s, pr.round))))
  }

  predicate BeforeArrival(stage: Stage) { stage.Ready? || stage.AddDown? || stage.RoundUp? }

  lemma StepMoves(job: Job, s: State, p: Pid, step: Step)
    requires |s.procs| == |job.programs| && Enabled(job, s, p, step)
    requires !step.ArriveShare? && !step.Arrive?
    ensures Moves(s, s.procs[p], StepProc(job, s, p, step))
  {
  }

  lemma BarrierSelf(s: State, s': State, p: Pid)
    requires BarrierShared(s) && p < |s.procs| && BarrierProc(s, p)
    requires SameBarriers(s, s') && Moves(s, s.procs[p], s'.procs[p])
    ensures BarrierProc(s', p)
  {
    var pr, pr' := s.procs[p], s'.procs[p];
    assert pr.stage.RoundWait? && pr.round < |s.rounds| && Full(s, pr.round) ==> pr.round + 1 < |s.rounds|;
    assert forall k: nat :: k < |s.rounds| ==> ArrivedAt(pr', k) == ArrivedAt(pr, k);
  }

  lemma BarrierRest(job: Job, s: State, p: Pid, step: Step)
    requires |s.procs| == |job.programs| && BarrierInv(s) && Enabled(job, s, p, step)
    requires !step.ArriveShare? && !step.Arrive?
    ensures BarrierInv(Apply(job, s, p, step))
  {
    var s' := Apply(job, s, p, step);
    StepSameBarriers(job, s, p, step);
    assert BarrierProc(s, p);
    StepMoves(job, s, p, step);
    BarrierSelf(s, s', p);
    forall q: Pid | q < |s.procs| ensures BarrierProc(s', q) {
      assert BarrierProc(s, q);
      if q != p {
        assert s'.procs[q] == s.procs[q];
      }
    }
    forall k: nat | k < |s'.rounds| ensures Full(s', k) <==> k + 1 < |s'.rounds| {
      assert Full(s, k) <==> k + 1 < |s.rounds|;
    }
  }

  lemma BarrierStep(job: Job, s: State, p: Pid, step: Step)
    requires |s.procs| == |job.programs| && BarrierInv(s) && Enabled(job, s, p, step)
    ensures BarrierInv(Apply(job, s, p, step))
  {
    match step
    case ArriveShare => BarrierArriveShare(job, s, p);
    case Arrive => BarrierArrive(job, s, p);
    case _ => BarrierRest(job, s, p, step);
  }

  // ---- the counters ----

  ghost function ReachedIn(r: Round): set<Pid> { set q | q in r.arrived && r.arrived[q].reached }

  /** The counters of the round are the sums of what its processes added. */
  ghost predicate Tallied(r: Round) {
    && r.converged == |ReachedIn(r)|
    && (r.inCs <==> exists q :: q in r.arrived && r.arrived[q].cs)
    && (r.raised == 0 <==> r.list == {})
  }

  ghost predicate TallyInv(s: State) {
    && (forall k :: 0 <= k < |s.rounds| ==> Tallied(s.rounds[k]))
    && (forall k, q :: 0 <= k < |s.rounds| && q in s.rounds[k].arrived ==> q < |s.procs|)
  }

  lemma TallyAdd(r: Round, p: Pid, pr: Proc)
    requires Tallied(r) && p !in r.arrived
    ensures Tallied(AddSample(r, p, pr))
  {
    var r' := AddSample(r, p, pr);
    assert ReachedIn(r') == ReachedIn(r) + (if AllReached(pr.clocks) then {p} else {});
    assert p !in ReachedIn(r);
    assert r'.inCs ==> exists q :: q in r'.arrived && r'.arrived[q].cs by {
      if pr.inCs {
        assert r'.arrived[p].cs;
      } else if r.inCs {
        var q :| q in r.arrived && r.arrived[q].cs;
        assert r'.arrived[q].cs;
      }
    }
    if exists q :: q in r'.arrived && r'.arrived[q].cs {
      var q :| q in r'.arrived && r'.arrived[q].cs;
      assert q != p ==> r.arrived[q].cs;
    }
  }

  lemma TallyStep(job: Job, s: State, p: Pid, step: Step)
    requires |s.procs| == |job.programs| && BarrierInv(s) && TallyInv(s) && Enabled(job, s, p, step)
    ensures TallyInv(Apply(job, s, p, step))
  {
    assert BarrierProc(s, p);
    match step
    case Arrive =>
      var k := s.procs[p].round;
      assert p !in s.rounds[k].arrived;
      TallyAdd(s.rounds[k], p, s.procs[p]);
    case Upload(g) =>
      var s' := Apply(job, s, p, step);
      forall k | 0 <= k < |s'.rounds| ensures Tallied(s'.rounds[k]) {
        assert ReachedIn(s'.rounds[k]) == ReachedIn(s.rounds[k]);
      }
    case _ =>
  }

  lemma {:induction false} AllOfThem(n: nat, pids: set<Pid>)
    requires forall q :: q in pids ==> q < n
    ensures |pids| <= n
    ensures |pids| == n ==> AllIn(n, pids)
  {
    if n > 0 {
      var rest := pids - {n - 1};
      AllOfThem(n - 1, rest);
      if n - 1 in pids {
        assert pids == rest + {n - 1};
      } else {
        assert rest == pids;
      }
    }
  }

  /** If a full round counts as a success, every process had reached its targets and was
      outside a critical section when it added its sample, and none raised a target. */
  lemma SuccessMeans(s: State, k: nat)
    requires TallyInv(s) && k < |s.rounds| && Full(s, k) && Success(s.rounds[k], |s.procs|)
    ensures s.rounds[k].list == {}
    ensures forall q: Pid :: q < |s.procs| ==> s.rounds[k].arrived[q] == Sample(true, false)
  {
    var r := s.rounds[k];
    AllOfThem(|s.procs|, ReachedIn(r));
    forall q: Pid | q < |s.procs| ensures r.arrived[q] == Sample(true, false) {
      assert q in ReachedIn(r);
    }
  }
}
