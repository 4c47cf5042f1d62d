/**
What the Collective Clock drain guarantees over every run: agreement on success, a
consistent cut at success, and that the cut is the least one.
*/
module CollectiveClockDrain {
  import opened Common
  import opened MpiJob
  import opened CollectiveClock
  import opened CollectiveClockInvariant
  import opened CollectiveClockBarrier
  import opened CollectiveClockTargets

  // ---- a successful round ends the attempt ----

  /** The process took part in round k with its targets reached, outside a critical section,
      and is still there: it can begin no call and add no clock. */
  predicate Frozen(pr: Proc) {
    pr.pending && !pr.inCs && AllReached(pr.clocks) && pr.raised == {} && !pr.added
  }

  /** The process is at the barrier of a round and added there that it had reached its
      targets outside a critical section. */
  ghost predicate SaidSo(pr: Proc, p: Pid, rounds: seq<Round>) {
    && (pr.stage.RoundWait? || pr.stage.Done?) && pr.round < |rounds|
    && p in rounds[pr.round].arrived && rounds[pr.round].arrived[p] == Sample(true, false)
  }

  ghost predicate FrozenProc(pr: Proc, p: Pid, rounds: seq<Round>, n: nat) {
    && (SaidSo(pr, p, rounds) ==> Frozen(pr))
    && (pr.stage.AddDown? ==> !pr.added)
    && (pr.stage.RoundUp? ==> pr.raised == {} && !pr.added)
    && (pr.stage.Done? ==> pr.round < |rounds| && Success(rounds[pr.round], n))
  }

  /** No process passes a successful round. */
  ghost predicate StopsAt(pr: Proc, k: nat) {
    pr.round == k && (pr.stage.RoundWait? || pr.stage.Done?)
  }

  ghost predicate FrozenInv(s: State) {
    && (forall p: Pid :: p < |s.procs| ==> FrozenProc(s.procs[p], p, s.rounds, |s.procs|))
    && (forall k: nat, p: Pid :: k + 1 < |s.rounds| && Success(s.rounds[k], |s.procs|) && p < |s.procs| ==>
          StopsAt(s.procs[p], k))
  }

  /** A full round keeps its counters. */
  lemma FullRoundKept(job: Job, s: State, p: Pid, step: Step, k: nat)
    requires |s.procs| == |job.programs| && Enabled(job, s, p, step) && BarrierInv(s)
    requires k + 1 < |s.rounds|
    ensures k + 1 < |Apply(job, s, p, step).rounds| && Apply(job, s, p, step).rounds[k] == s.rounds[k]
  {
    assert BarrierProc(s, p);
    if step.Upload? && s.procs[p].stage.RoundUp? {
      NewestRound(s, p);
    } else if step.Arrive? {
      NewestRound(s, p);
    }
  }

  /** A round in which p took part keeps the sample of p, and p its own round if full. */
  lemma SampleKept(job: Job, s: State, p: Pid, step: Step, q: Pid)
    requires |s.procs| == |job.programs| && Enabled(job, s, p, step) && BarrierInv(s)
    requires q < |s.procs| && q != p
    requires FrozenProc(s.procs[q], q, s.rounds, |s.procs|)
    ensures FrozenProc(s.procs[q], q, Apply(job, s, p, step).rounds, |s.procs|)
  {
    var s', pr := Apply(job, s, p, step), s.procs[q];
    assert BarrierProc(s, q) && BarrierProc(s, p);
    if pr.stage.Done? {
      FullRoundKept(job, s, p, step, pr.round);
    } else if pr.stage.RoundWait? {
      assert q in s.rounds[pr.round].arrived;
      assert s'.rounds[pr.round].arrived[q] == s.rounds[pr.round].arrived[q];
    }
  }

  lemma FrozenArrive(job: Job, s: State, p: Pid)
    requires |s.procs| == |job.programs| && Enabled(job, s, p, Arrive) && BarrierInv(s)
    requires FrozenProc(s.procs[p], p, s.rounds, |s.procs|)
    requires s.procs[p].stage.Active() ==> s.procs[p].pending
    ensures var s' := Apply(job, s, p, Arrive); FrozenProc(s'.procs[p], p, s'.rounds, |s.procs|)
  {
    var s', pr := Apply(job, s, p, Arrive), s.procs[p];
    assert BarrierProc(s, p);
    NewestRound(s, p);
    assert s'.rounds[pr.round].arrived[p] == Sample(AllReached(pr.clocks), pr.inCs);
  }

  lemma FrozenPass(job: Job, s: State, p: Pid)
    requires |s.procs| == |job.programs| && Enabled(job, s, p, Pass) && BarrierInv(s)
    requires FrozenProc(s.procs[p], p, s.rounds, |s.procs|)
    requires s.procs[p].stage.Active() ==> s.procs[p].pending
    ensures var s' := Apply(job, s, p, Pass); FrozenProc(s'.procs[p], p, s'.rounds, |s.procs|)
  {
    assert BarrierProc(s, p);
    assert Apply(job, s, p, Pass).rounds == s.rounds;
  }

  /** At the barrier only the application moves, and it leaves a frozen process as it is. */
  lemma FrozenApp(job: Job, s: State, p: Pid, step: Step)
    requires |s.procs| == |job.programs| && Enabled(job, s, p, step) && !step.Pass? && !step.Arrive?
    requires s.procs[p].stage.RoundWait? || s.procs[p].stage.Done?
    requires FrozenProc(s.procs[p], p, s.rounds, |s.procs|)
    ensures var s' := Apply(job, s, p, step); FrozenProc(s'.procs[p], p, s'.rounds, |s.procs|)
  {
    assert IsApp(step);
    assert Apply(job, s, p, step).rounds == s.rounds;
  }

  lemma FrozenSelf(job: Job, s: State, p: Pid, step: Step)
    requires |s.procs| == |job.programs| && Enabled(job, s, p, step) && BarrierInv(s)
    requires FrozenProc(s.procs[p], p, s.rounds, |s.procs|)
    requires s.procs[p].stage.Active() ==> s.procs[p].pending
    ensures var s' := Apply(job, s, p, step); FrozenProc(s'.procs[p], p, s'.rounds, |s.procs|)
  {
    var s', pr := Apply(job, s, p, step), s.procs[p];
    if step.Pass? {
      FrozenPass(job, s, p);
    } else if step.Arrive? {
      FrozenArrive(job, s, p);
    } else if pr.stage.RoundWait? || pr.stage.Done? {
      FrozenApp(job, s, p, step);
    } else {
      assert !s'.procs[p].stage.RoundWait? && !s'.procs[p].stage.Done?;
    }
  }

  lemma StopsSelf(job: Job, s: State, p: Pid, step: Step, k: nat)
    requires |s.procs| == |job.programs| && Enabled(job, s, p, step)
    requires k < |s.rounds| && Success(s.rounds[k], |s.procs|) && StopsAt(s.procs[p], k)
    ensures StopsAt(StepProc(job, s, p, step), k)
  {
  }

  /** The last process to arrive opens the next round; then all are at the barrier. */
  lemma StopsArrive(job: Job, s: State, p: Pid, q: Pid)
    requires |s.procs| == |job.programs| && Enabled(job, s, p, Arrive) && BarrierInv(s) && q < |s.procs|
    ensures var s' := Apply(job, s, p, Arrive);
      |s'.rounds| > |s.rounds| ==> StopsAt(s'.procs[q], |s.rounds| - 1)
  {
    var s' := Apply(job, s, p, Arrive);
    assert BarrierProc(s, p) && BarrierProc(s, q);
    NewestRound(s, p);
    if |s'.rounds| > |s.rounds| && q != p {
      assert q in s'.rounds[|s.rounds| - 1].arrived;
      assert ArrivedAt(s.procs[q], |s.rounds| - 1);
    }
  }

  lemma StopsStep(job: Job, s: State, p: Pid, step: Step, k: nat, q: Pid)
    requires |s.procs| == |job.programs| && Enabled(job, s, p, step) && BarrierInv(s) && FrozenInv(s)
    requires q < |s.procs|
    ensures var s' := Apply(job, s, p, step);
      k + 1 < |s'.rounds| && Success(s'.rounds[k], |s.procs|) ==> StopsAt(s'.procs[q], k)
  {
    var s' := Apply(job, s, p, step);
    assert BarrierProc(s, p);
    if k + 1 < |s.rounds| {
      FullRoundKept(job, s, p, step, k);
      if Success(s.rounds[k], |s.procs|) {
        assert StopsAt(s.procs[q], k) && StopsAt(s.procs[p], k);
        StopsSelf(job, s, p, step, k);
      }
    } else if step.Arrive? {
      StopsArrive(job, s, p, q);
    }
  }

  lemma FrozenStep(job: Job, s: State, p: Pid, step: Step)
    requires |s.procs| == |job.programs| && Enabled(job, s, p, step) && BarrierInv(s) && FrozenInv(s)
    requires s.procs[p].stage.Active() ==> s.procs[p].pending
    ensures FrozenInv(Apply(job, s, p, step))
  {
    var s' := Apply(job, s, p, step);
    FrozenSelf(job, s, p, step);
    forall q: Pid | q < |s.procs| ensures FrozenProc(s'.procs[q], q, s'.rounds, |s.procs|) {
      if q != p {
        SampleKept(job, s, p, step, q);
      }
    }
    forall k: nat, q: Pid | k + 1 < |s'.rounds| && Success(s'.rounds[k], |s.procs|) && q < |s.procs|
      ensures StopsAt(s'.procs[q], k)
    {
      StopsStep(job, s, p, step, k, q);
    }
  }

  // ---- the invariant over every run ----

  ghost predicate Inv(job: Job, s: State) {
    && ProgramInv(job, s) && BarrierInv(s) && TallyInv(s) && ToldInv(job, s) && BaseInv(s) && DeltaInv(s)
    && FrozenInv(s)
  }

  lemma InitInv(job: Job, s: State)
    requires WellFormed(job) && Init(job, s)
    ensures Inv(job, s)
  {
    forall p: Pid | p < |s.procs|
      ensures ProgramProc(job, s, p) && BarrierProc(s, p) && ToldProc(job, s, p) && DeltaProc(s, p)
      ensures FrozenProc(s.procs[p], p, s.rounds, |s.procs|)
    {
      assert InitProc(job, s, p);
    }
    if |s.procs| > 0 {
      assert !AllIn(|s.procs|, s.shared) by {
        var first: Pid := 0;
        assert first !in s.shared;
      }
    }
  }

  lemma StepInv(job: Job, s: State, p: Pid, step: Step)
    requires WellFormed(job) && Inv(job, s) && Enabled(job, s, p, step)
    ensures Inv(job, Apply(job, s, p, step))
  {
    assert ProgramProc(job, s, p);
    ProgramStep(job, s, p, step);
    BarrierStep(job, s, p, step);
    TallyStep(job, s, p, step);
    ToldStep(job, s, p, step);
    BaseStep(job, s, p, step);
    DeltaStep(job, s, p, step);
    FrozenStep(job, s, p, step);
  }

  /** The invariant holds in every state of every run. */
  lemma {:induction false} RunInv(job: Job, run: seq<State>, i: nat)
    requires WellFormed(job) && Run(job, run) && i < |run|
    ensures Inv(job, run[i]) && |run[i].procs| == |job.programs|
  {
    if i == 0 {
      InitInv(job, run[0]);
    } else {
      RunInv(job, run, i - 1);
      assert StepAt(job, run, i - 1);
      var p: Pid, step: Step :| Enabled(job, run[i - 1], p, step) && run[i] == Apply(job, run[i - 1], p, step);
      StepInv(job, run[i - 1], p, step);
    }
  }

  // ---- agreement and safety ----

  /** Process p has seen the success of its round. */
  predicate Succeeded(s: State, p: Pid) { p < |s.procs| && s.procs[p].stage.Done? }

  /** If one process sees success in a round, every process is at that round's barrier or has
      passed it with success, with its targets reached, outside a critical section. */
  lemma SuccessFreezes(job: Job, s: State, p: Pid, q: Pid)
    requires Inv(job, s) && Succeeded(s, p) && q < |s.procs|
    ensures StopsAt(s.procs[q], s.procs[p].round) && Frozen(s.procs[q])
    ensures s.procs[p].round < |s.rounds| && s.rounds[s.procs[p].round].list == {}
    ensures Success(s.rounds[s.procs[p].round], |s.procs|)
  {
    var k := s.procs[p].round;
    assert BarrierProc(s, p) && FrozenProc(s.procs[p], p, s.rounds, |s.procs|);
    assert Full(s, k) <==> k + 1 < |s.rounds|;
    SuccessMeans(s, k);
    assert StopsAt(s.procs[q], k);
    assert FrozenProc(s.procs[q], q, s.rounds, |s.procs|);
    assert SaidSo(s.procs[q], q, s.rounds);
  }

  /** Agreement: no process ever leaves a round with failure, or goes on to another round,
      once one process has seen success there; the next step of each is the success itself. */
  lemma SuccessIsAgreed(job: Job, run: seq<State>, i: nat, p: Pid, q: Pid)
    requires WellFormed(job) && Run(job, run) && i < |run| && Succeeded(run[i], p) && q < |run[i].procs|
    ensures |run[i].procs| == |job.programs|
    ensures run[i].procs[q].round == run[i].procs[p].round
    ensures Succeeded(run[i], q) ||
            (Enabled(job, run[i], q, Pass) && StepProc(job, run[i], q, Pass).stage.Done?)
  {
    RunInv(job, run, i);
    var s := run[i];
    SuccessFreezes(job, s, p, q);
    assert BarrierProc(s, p);
    assert Full(s, s.procs[p].round) <==> s.procs[p].round + 1 < |s.rounds|;
  }

  // ---- at success, the cut is closed ----

  /** The process has made g (or had it at the start). */
  ghost predicate Has(job: Job, s: State, p: Pid, g: Gid)
    requires p < |s.procs| == |job.programs| && s.procs[p].pc <= |job.programs[p]|
  {
    Member(job, p, g) && (g in job.initial || MadeBefore(job.programs[p], s.procs[p].pc, g))
  }

  /** A process that holds the clock of a communicator with other members has made as many
      calls on it as the table says. */
  lemma CallsAreTable(job: Job, s: State, done: Pid, p: Pid, g: Gid)
    requires Inv(job, s) && Succeeded(s, done) && p < |s.procs|
    requires g in s.procs[p].clocks && HasPeers(job, g)
    ensures s.procs[p].clocks[g].calls == At(s.table, g)
  {
    SuccessFreezes(job, s, done, p);
    var pr := s.procs[p];
    var k := pr.round;
    assert BarrierProc(s, done) && BarrierProc(s, p);
    assert ToldProc(job, s, p) && Told(job, pr, s.table, g);
    assert DeltaProc(s, p) && AtLeast(pr.clocks, pr.clocks.Keys, s.rounds[k].base);
    assert ListComplete(s, k);
    TableAfterSuccess(job, s, done, g);
  }

  /** Nothing is uploaded after a successful round. */
  lemma TableAfterSuccess(job: Job, s: State, done: Pid, g: Gid)
    requires Inv(job, s) && Succeeded(s, done)
    ensures s.procs[done].round < |s.rounds| && At(s.table, g) == At(s.rounds[s.procs[done].round].base, g)
  {
    var k := s.procs[done].round;
    assert BarrierProc(s, done);
    SuccessFreezes(job, s, done, done);
    assert ListComplete(s, k) && ListComplete(s, k + 1);
    assert !ArrivedAt(s.procs[done], k + 1);
    assert done !in s.rounds[k + 1].arrived.Keys;
    assert !Full(s, k + 1);
    forall q: Pid | q < |s.procs| ensures s.procs[q].round == k {
      SuccessFreezes(job, s, done, q);
    }
    assert !Entered(s, k + 1);
  }

  lemma HeldOrFreed(job: Job, s: State, done: Pid, p: Pid, g: Gid)
    requires Inv(job, s) && Succeeded(s, done) && p < |s.procs| && s.procs[p].pc <= |job.programs[p]|
    requires Has(job, s, p, g)
    ensures g in s.procs[p].clocks || AllFreed(job, s, g)
  {
    SuccessFreezes(job, s, done, p);
    assert ProgramProc(job, s, p);
  }

  /** All members free a communicator in the same-numbered call. */
  lemma FreeIsNumbered(job: Job, p: Pid, i: nat, q: Pid, j: nat, g: Gid)
    requires WellFormed(job) && p < |job.programs| && i < |job.programs[p]|
    requires q < |job.programs| && j < |job.programs[q]|
    requires job.programs[p][i] == Free(g) && job.programs[q][j] == Free(g)
    ensures CountTo(job.programs[p], i, g) >= CountTo(job.programs[q], j, g)
  {
    var n := CountTo(job.programs[p], i, g);
    if n < CountTo(job.programs[q], j, g) {
      var m := FindCall(job.programs[q], j, n, g);
      assert Matching(job, p, i, q, m, g) && SameNumber(job, p, i, q, m, g);
      assert CallOk(job, q, j);
      assert FreedBefore(job.programs[q], j, g);
    }
  }

  lemma FreedCounts(job: Job, s: State, p: Pid, q: Pid, g: Gid)
    requires WellFormed(job) && ProgramInv(job, s) && AllFreed(job, s, g)
    requires p < |s.procs| && q < |s.procs| && Member(job, p, g) && Member(job, q, g)
    requires s.procs[p].pc <= |job.programs[p]| && s.procs[q].pc <= |job.programs[q]|
    ensures CountTo(job.programs[p], s.procs[p].pc, g) == CountTo(job.programs[q], s.procs[q].pc, g)
  {
    var i :| 0 <= i < s.procs[p].pc && job.programs[p][i] == Free(g);
    var j :| 0 <= j < s.procs[q].pc && job.programs[q][j] == Free(g);
    FreeIsNumbered(job, p, i, q, j, g);
    FreeIsNumbered(job, q, j, p, i, g);
    NoCallAfterFree(job, p, i, s.procs[p].pc, g);
    NoCallAfterFree(job, q, j, s.procs[q].pc, g);
  }

  lemma TwoMembers(members: set<Pid>, p: Pid, q: Pid)
    requires p in members && q in members && p != q
    ensures |members| > 1
  {
    assert |members - {p} - {q}| == |members| - 2;
  }

  ghost function CallsOf(job: Job, s: State, p: Pid, g: Gid): nat
    requires p < |s.procs| == |job.programs| && s.procs[p].pc <= |job.programs[p]|
  {
    CountTo(job.programs[p], s.procs[p].pc, g)
  }

  lemma EqualIfBothHave(job: Job, s: State, done: Pid, p: Pid, q: Pid, g: Gid)
    requires WellFormed(job) && Inv(job, s) && Succeeded(s, done) && p < |s.procs| && q < |s.procs|
    requires s.procs[p].pc <= |job.programs[p]| && s.procs[q].pc <= |job.programs[q]|
    requires Has(job, s, p, g) && Has(job, s, q, g)
    ensures CallsOf(job, s, p, g) == CallsOf(job, s, q, g)
  {
    HeldOrFreed(job, s, done, p, g);
    HeldOrFreed(job, s, done, q, g);
    if AllFreed(job, s, g) {
      FreedCounts(job, s, p, q, g);
    } else if p != q {
      TwoMembers(job.members[g], p, q);
      CallsAreTable(job, s, done, p, g);
      CallsAreTable(job, s, done, q, g);
      assert ProgramProc(job, s, p) && ProgramProc(job, s, q);
    }
  }

  /** If a process has made a communicator, every member of it has. */
  lemma {:induction false} MadeByAll(job: Job, s: State, done: Pid, q: Pid, i: nat, p: Pid, g: Gid)
    requires WellFormed(job) && Inv(job, s) && Succeeded(s, done) && p < |s.procs| && q < |s.procs|
    requires s.procs[p].pc <= |job.programs[p]| && s.procs[q].pc <= |job.programs[q]|
    requires i < s.procs[q].pc && Made(job.programs[q][i]) == Some(g) && Member(job, p, g)
    ensures Has(job, s, p, g)
    decreases i
  {
    var call := job.programs[q][i];
    assert CallOk(job, q, i) && ProgramProc(job, s, q);
    SuccessFreezes(job, s, done, q);
    if call.CreateGroup? {
      assert AllEntered(job, s, g);
    } else {
      var h := call.parent;
      assert Usable(job, q, i, h);
      assert Member(job, p, h);
      if h !in job.initial {
        var i' :| 0 <= i' < i && Made(job.programs[q][i']) == Some(h);
        MadeByAll(job, s, done, q, i', p, h);
      }
      EqualIfBothHave(job, s, done, p, q, h);
      CountGrows(job.programs[q], i + 1, s.procs[q].pc, h);
      var j := FindCall(job.programs[p], s.procs[p].pc, CountTo(job.programs[q], i, h), h);
      assert Matching(job, q, i, p, j, h) && SameNumber(job, q, i, p, j, h);
      assert Made(job.programs[p][j]) == Some(g);
    }
  }

  lemma AllOrNoneHave(job: Job, s: State, done: Pid, p: Pid, q: Pid, g: Gid)
    requires WellFormed(job) && Inv(job, s) && Succeeded(s, done) && p < |s.procs| && q < |s.procs|
    requires s.procs[p].pc <= |job.programs[p]| && s.procs[q].pc <= |job.programs[q]|
    requires Member(job, p, g) && Has(job, s, q, g)
    ensures Has(job, s, p, g)
  {
    if g !in job.initial {
      var i :| 0 <= i < s.procs[q].pc && Made(job.programs[q][i]) == Some(g);
      MadeByAll(job, s, done, q, i, p, g);
    }
  }

  lemma EqualCounts(job: Job, s: State, done: Pid, p: Pid, q: Pid, g: Gid)
    requires WellFormed(job) && Inv(job, s) && Succeeded(s, done) && p < |s.procs| && q < |s.procs|
    requires s.procs[p].pc <= |job.programs[p]| && s.procs[q].pc <= |job.programs[q]|
    requires Member(job, p, g) && Member(job, q, g)
    ensures CallsOf(job, s, p, g) == CallsOf(job, s, q, g)
  {
    if Has(job, s, p, g) {
      AllOrNoneHave(job, s, done, q, p, g);
      EqualIfBothHave(job, s, done, p, q, g);
    } else if Has(job, s, q, g) {
      AllOrNoneHave(job, s, done, p, q, g);
    } else {
      NoCallBeforeMade(job, p, s.procs[p].pc, g);
      NoCallBeforeMade(job, q, s.procs[q].pc, g);
    }
  }

  lemma PositionIsCut(job: Job, s: State)
    requires ProgramInv(job, s)
    ensures IsCut(job, Position(s))
  {
    forall p: Pid | p < |s.procs| ensures s.procs[p].pc <= |job.programs[p]| {
      assert ProgramProc(job, s, p);
    }
  }

  /** Drain safety: when one process sees success, all members of every communicator have made
      the same number of calls on it, and no process is in a critical section. */
  lemma SuccessIsClosed(job: Job, run: seq<State>, i: nat, done: Pid)
    requires WellFormed(job) && Run(job, run) && i < |run| && Succeeded(run[i], done)
    ensures IsCut(job, Position(run[i])) && Closed(job, Position(run[i]))
    ensures forall p :: 0 <= p < |run[i].procs| ==> !run[i].procs[p].inCs
  {
    RunInv(job, run, i);
    var s := run[i];
    PositionIsCut(job, s);
    var cut := Position(s);
    forall p: Pid | p < |s.procs| ensures !s.procs[p].inCs {
      SuccessFreezes(job, s, done, p);
    }
    forall p: Pid, q: Pid, g: Gid | p < |cut| && q < |cut| && Member(job, p, g) && Member(job, q, g)
      ensures CountTo(job.programs[p], cut[p], g) == CountTo(job.programs[q], cut[q], g)
    {
      EqualCounts(job, s, done, p, q, g);
    }
  }

  // ---- lifetimes of communicators ----

  /** The process has made the communicator and has not freed it. */
  ghost predicate Live(job: Job, s: State, p: Pid, g: Gid)
    requires p < |s.procs| == |job.programs| && s.procs[p].pc <= |job.programs[p]|
  {
    Has(job, s, p, g) && !FreedBefore(job.programs[p], s.procs[p].pc, g)
  }

  lemma FreedByAll(job: Job, s: State, done: Pid, p: Pid, q: Pid, g: Gid)
    requires WellFormed(job) && Inv(job, s) && Succeeded(s, done) && p < |s.procs| && q < |s.procs|
    requires s.procs[p].pc <= |job.programs[p]| && s.procs[q].pc <= |job.programs[q]|
    requires Member(job, p, g) && Member(job, q, g) && FreedBefore(job.programs[p], s.procs[p].pc, g)
    ensures FreedBefore(job.programs[q], s.procs[q].pc, g)
  {
    EqualCounts(job, s, done, p, q, g);
    var i :| 0 <= i < s.procs[p].pc && job.programs[p][i] == Free(g);
    NoCallAfterFree(job, p, i, s.procs[p].pc, g);
    var j := FindCall(job.programs[q], s.procs[q].pc, CountTo(job.programs[p], i, g), g);
    assert Matching(job, p, i, q, j, g) && SameNumber(job, p, i, q, j, g);
  }

  /** At a successful drain, a communicator is live on one member exactly if it is live on all. */
  lemma LiveIsAgreed(job: Job, run: seq<State>, i: nat, done: Pid, p: Pid, q: Pid, g: Gid)
    requires WellFormed(job) && Run(job, run) && i < |run| && Succeeded(run[i], done)
    requires p < |run[i].procs| && q < |run[i].procs| && Member(job, p, g) && Member(job, q, g)
    ensures |run[i].procs| == |job.programs|
    ensures run[i].procs[p].pc <= |job.programs[p]| && run[i].procs[q].pc <= |job.programs[q]|
    ensures Live(job, run[i], p, g) <==> Live(job, run[i], q, g)
  {
    RunInv(job, run, i);
    var s := run[i];
    assert ProgramProc(job, s, p) && ProgramProc(job, s, q);
    if Has(job, s, p, g) {
      AllOrNoneHave(job, s, done, q, p, g);
    }
    if Has(job, s, q, g) {
      AllOrNoneHave(job, s, done, p, q, g);
    }
    if FreedBefore(job.programs[p], s.procs[p].pc, g) {
      FreedByAll(job, s, done, p, q, g);
    }
    if FreedBefore(job.programs[q], s.procs[q].pc, g) {
      FreedByAll(job, s, done, q, p, g);
    }
  }

  /** A clock is missing on a process that made its communicator only after every member has
      begun its counted MPI_Comm_free. */
  lemma ErasedOnlyAfterAllFreed(job: Job, run: seq<State>, i: nat, p: Pid, g: Gid, q: Pid)
    requires WellFormed(job) && Run(job, run) && i < |run| && p < |run[i].procs| && q < |run[i].procs|
    requires Member(job, p, g) && Member(job, q, g) && g !in run[i].procs[p].clocks
    ensures |run[i].procs| == |job.programs|
    ensures run[i].procs[p].pc <= |job.programs[p]| && run[i].procs[q].pc <= |job.programs[q]|
    ensures g in job.initial || MadeBefore(job.programs[p], Completed(run[i].procs[p]), g) ==>
              FreedBefore(job.programs[q], run[i].procs[q].pc, g)
  {
    RunInv(job, run, i);
    assert ProgramProc(job, run[i], p) && ProgramProc(job, run[i], q);
  }

  /** At a successful drain, each barrier of an MPI_Comm_free that a process still tests has been
      started by every member, so complete_comm_free_barriers() waits for no other call. */
  lemma FreeBarriersComplete(job: Job, run: seq<State>, i: nat, done: Pid, p: Pid, g: Gid)
    requires WellFormed(job) && Run(job, run) && i < |run| && Succeeded(run[i], done)
    requires p < |run[i].procs| && g in run[i].procs[p].frees
    ensures |run[i].procs| == |job.programs| && Enabled(job, run[i], p, Erase(g))
  {
    RunInv(job, run, i);
    var s := run[i];
    assert ProgramProc(job, s, p);
    SuccessFreezes(job, s, done, p);
    assert FreedBefore(job.programs[p], s.procs[p].pc, g);
    var k :| 0 <= k < s.procs[p].pc && job.programs[p][k] == Free(g);
    assert CallOk(job, p, k);
    forall q: Pid | q < |s.procs| && Member(job, q, g) ensures g in s.procs[q].started {
      assert ProgramProc(job, s, q);
      SuccessFreezes(job, s, done, q);
      FreedByAll(job, s, done, p, q, g);
    }
  }

  /** A clock is erased only after every member has begun its counted MPI_Comm_free. */
  lemma EraseIsAfterAllFreed(job: Job, run: seq<State>, i: nat, p: Pid, g: Gid)
    requires WellFormed(job) && Run(job, run) && i < |run| && |run[i].procs| == |job.programs|
    requires Enabled(job, run[i], p, Erase(g))
    ensures AllFreed(job, run[i], g)
  {
    RunInv(job, run, i);
    BarrierMeansFreed(job, run[i], g);
  }

  /** Once a process has seen the barrier of its MPI_Comm_free complete, it has no clock of the
      communicator any more. */
  lemma CompletedFreeIsForgotten(job: Job, run: seq<State>, i: nat, p: Pid, g: Gid)
    requires WellFormed(job) && Run(job, run) && i < |run| && p < |run[i].procs|
    requires g in run[i].procs[p].started && g !in run[i].procs[p].frees
    ensures g !in run[i].procs[p].clocks
  {
    RunInv(job, run, i);
    assert ProgramProc(job, run[i], p);
  }

  // ---- from one attempt to the next ----

  /** An attempt may start at the beginning of the job. */
  lemma FirstAttempt(job: Job, s: State)
    requires WellFormed(job) && |s.procs| == |job.programs| && s.table == map[] && s.shared == {} && s.rounds == []
    requires forall p: Pid :: p < |s.procs| ==> Started(job, s.procs[p], p)
    ensures Init(job, s)
  {
    forall p: Pid | p < |s.procs| ensures InitProc(job, s, p) {
      assert Started(job, s.procs[p], p);
    }
  }

  /** And wherever an attempt has got to, successful, failed or abandoned, the next one may start: so
      the theorems hold for every attempt of every checkpoint. */
  lemma NextAttempt(job: Job, run: seq<State>, i: nat)
    requires WellFormed(job) && Run(job, run) && i < |run|
    ensures Init(job, NewAttempt(run[i]))
  {
    RunInv(job, run, i);
    var s, s' := run[i], NewAttempt(run[i]);
    forall p: Pid | p < |s'.procs| ensures InitProc(job, s', p) {
      assert ProgramProc(job, s, p);
      SameHolds(job, s, s', p);
    }
  }

  lemma SameHolds(job: Job, s: State, s': State, p: Pid)
    requires ProgramInv(job, s) && s' == NewAttempt(s) && p < |s.procs| && ProgramProc(job, s, p)
    ensures HoldsItsClocks(job, s', p)
  {
    forall g: Gid ensures AllFreed(job, s, g) ==> AllFreed(job, s', g) {
    }
    forall g: Gid ensures AllEntered(job, s, g) ==> AllEntered(job, s', g) {
    }
    assert ClocksCount(job, s'.procs[p], p);
    assert ClocksHeld(job, s', p);
    assert GroupsEntered(job, s', p);
  }

  // ---- until the reset ----

  lemma SuccessStep(job: Job, s: State, done: Pid, p: Pid, step: Step)
    requires Inv(job, s) && Succeeded(s, done) && Enabled(job, s, p, step)
    ensures Succeeded(Apply(job, s, p, step), done)
    ensures Position(Apply(job, s, p, step)) == Position(s)
  {
    SuccessFreezes(job, s, done, p);
    var s' := Apply(job, s, p, step);
    assert s'.procs[p].pc == s.procs[p].pc;
  }

  lemma SuccessNext(job: Job, s: State, s': State, done: Pid)
    requires Inv(job, s) && Succeeded(s, done) && Next(job, s, s')
    ensures Succeeded(s', done) && Position(s') == Position(s)
  {
    var p: Pid, step: Step :| Enabled(job, s, p, step) && s' == Apply(job, s, p, step);
    SuccessStep(job, s, done, p, step);
  }

  /** After success, no process begins a call until seq_num_reset(). */
  lemma {:induction false} SuccessStays(job: Job, run: seq<State>, i: nat, j: nat, done: Pid)
    requires WellFormed(job) && Run(job, run) && i <= j < |run| && Succeeded(run[i], done)
    ensures Succeeded(run[j], done) && Position(run[j]) == Position(run[i])
    decreases j
  {
    if i < j {
      SuccessStays(job, run, i, j - 1, done);
      RunInv(job, run, j - 1);
      assert StepAt(job, run, j - 1);
      SuccessNext(job, run[j - 1], run[j], done);
    }
  }
}
