/**
The drain ends at the least closed cut above the sequence numbers that the processes shared
at the start of the attempt, whatever the interleaving.
*/
module CollectiveClockLeastCut {
  import opened MpiJob
  import opened CollectiveClock
  import opened CollectiveClockInvariant
  import opened CollectiveClockBarrier
  import opened CollectiveClockTargets
  import opened CollectiveClockDrain

  /** The processes that have joined the attempt did so at or below the cut. */
  ghost predicate SnapsBelow(s: State, cut: Cut) {
    |cut| == |s.procs| && forall p :: 0 <= p < |cut| && !s.procs[p].stage.Idle? ==> s.procs[p].snap <= cut[p]
  }

  ghost predicate TableBelow(job: Job, s: State, cut: Cut)
    requires IsCut(job, cut)
  {
    forall p: Pid, g: Gid :: p < |cut| && Member(job, p, g) ==>
      At(s.table, g) <= CountTo(job.programs[p], cut[p], g)
  }

  ghost predicate CallsBelow(s: State, cut: Cut) {
    |cut| == |s.procs| && forall p :: 0 <= p < |cut| && s.procs[p].stage.Active() ==> s.procs[p].pc <= cut[p]
  }

  ghost predicate Within(job: Job, s: State, cut: Cut)
    requires IsCut(job, cut)
  {
    SnapsBelow(s, cut) ==> TableBelow(job, s, cut) && CallsBelow(s, cut)
  }

  /** A process that may begin a call has not made all calls of the cut. */
  lemma BeginBelow(job: Job, s: State, cut: Cut, p: Pid)
    requires Inv(job, s) && IsCut(job, cut) && TableBelow(job, s, cut) && CallsBelow(s, cut)
    requires Enabled(job, s, p, Begin) && s.procs[p].stage.Active()
    ensures s.procs[p].pc < cut[p]
  {
    var pr := s.procs[p];
    assert ProgramProc(job, s, p) && ToldProc(job, s, p);
    var g :| g in pr.clocks && pr.clocks[g].target > pr.clocks[g].calls;
    assert Told(job, pr, s.table, g);
    assert pr.clocks[g].calls < At(s.table, g) <= CountTo(job.programs[p], cut[p], g);
  }

  lemma UploadBelow(job: Job, s: State, cut: Cut, p: Pid, g: Gid)
    requires Inv(job, s) && IsCut(job, cut) && Closed(job, cut) && TableBelow(job, s, cut) && CallsBelow(s, cut)
    requires Enabled(job, s, p, Upload(g))
    ensures TableBelow(job, Apply(job, s, p, Upload(g)), cut)
  {
    var pr, s' := s.procs[p], Apply(job, s, p, Upload(g));
    assert ProgramProc(job, s, p);
    CountGrows(job.programs[p], pr.pc, cut[p], g);
    forall q: Pid, h: Gid | q < |cut| && Member(job, q, h)
      ensures At(s'.table, h) <= CountTo(job.programs[q], cut[q], h)
    {
      assert At(s.table, h) <= CountTo(job.programs[q], cut[q], h);
    }
  }

  /** What a step does to the position and the snapshot of its process. */
  lemma StepSnap(job: Job, s: State, p: Pid, step: Step)
    requires |s.procs| == |job.programs| && Enabled(job, s, p, step)
    ensures var pr, pr' := s.procs[p], StepProc(job, s, p, step);
      && pr'.pc == (if step.Begin? then pr.pc + 1 else pr.pc)
      && (step.Join? ==> pr.stage.Idle? && pr'.snap == pr'.pc)
      && (!step.Join? ==> pr'.snap == pr.snap && pr'.stage.Idle? == pr.stage.Idle?)
      && (pr'.stage.Active() ==> pr.stage.Active() || step.Join?)
  {
  }

  lemma CallsStep(job: Job, s: State, s': State, cut: Cut, p: Pid, step: Step)
    requires |s.procs| == |job.programs| && Enabled(job, s, p, step)
    requires |s'.procs| == |s.procs| && s'.procs == s.procs[p := StepProc(job, s, p, step)]
    requires SnapsBelow(s', cut) && CallsBelow(s, cut)
    requires step.Begin? && s.procs[p].stage.Active() ==> s.procs[p].pc < cut[p]
    ensures CallsBelow(s', cut)
  {
    StepSnap(job, s, p, step);
  }

  lemma WithinStep(job: Job, s: State, cut: Cut, p: Pid, step: Step)
    requires Inv(job, s) && IsCut(job, cut) && Closed(job, cut) && Within(job, s, cut)
    requires Enabled(job, s, p, step)
    ensures Within(job, Apply(job, s, p, step), cut)
  {
    var s' := Apply(job, s, p, step);
    if SnapsBelow(s', cut) {
      StepSnap(job, s, p, step);
      assert SnapsBelow(s, cut);
      StepTable(job, s, p, step);
      if step.Begin? && s.procs[p].stage.Active() {
        BeginBelow(job, s, cut, p);
      }
      CallsStep(job, s, s', cut, p, step);
      if step.Upload? {
        UploadBelow(job, s, cut, p, step.gid);
      }
    }
  }

  lemma {:induction false} RunWithin(job: Job, run: seq<State>, i: nat, cut: Cut)
    requires WellFormed(job) && Run(job, run) && i < |run| && IsCut(job, cut) && Closed(job, cut)
    ensures Within(job, run[i], cut)
  {
    if i > 0 {
      RunWithin(job, run, i - 1, cut);
      RunInv(job, run, i - 1);
      assert StepAt(job, run, i - 1);
      var p: Pid, step: Step :| Enabled(job, run[i - 1], p, step) && run[i] == Apply(job, run[i - 1], p, step);
      WithinStep(job, run[i - 1], cut, p, step);
    } else {
      forall p: Pid | p < |run[0].procs| ensures run[0].procs[p].stage.Idle? {
        assert InitProc(job, run[0], p);
      }
    }
  }

  /** No process in the attempt ever passes a closed cut above the shared sequence numbers. */
  lemma NeverPassesClosedCut(job: Job, run: seq<State>, i: nat, cut: Cut, p: Pid)
    requires WellFormed(job) && Run(job, run) && i < |run| && IsCut(job, cut) && Closed(job, cut)
    requires SnapsBelow(run[i], cut)
    requires p < |cut| && run[i].procs[p].stage.Active()
    ensures run[i].procs[p].pc <= cut[p]
  {
    RunWithin(job, run, i, cut);
  }

  lemma {:induction false} RunAboveSnapshot(job: Job, run: seq<State>, i: nat, p: Pid)
    requires WellFormed(job) && Run(job, run) && i < |run| && p < |job.programs|
    ensures p < |run[i].procs| && (!run[i].procs[p].stage.Idle? ==> run[i].procs[p].snap <= run[i].procs[p].pc)
  {
    if i > 0 {
      RunAboveSnapshot(job, run, i - 1, p);
      RunInv(job, run, i - 1);
      assert StepAt(job, run, i - 1);
      var q: Pid, step: Step :| Enabled(job, run[i - 1], q, step) && run[i] == Apply(job, run[i - 1], q, step);
      StepSnap(job, run[i - 1], q, step);
    } else {
      assert InitProc(job, run[0], p);
    }
  }

  /** The cut is the least closed cut at or above the snapshot. */
  ghost predicate IsLeastClosed(job: Job, cut: Cut, snapshot: Cut) {
    && IsCut(job, cut) && Closed(job, cut) && Below(snapshot, cut)
    && forall other: Cut :: IsCut(job, other) && Closed(job, other) && Below(snapshot, other) ==> Below(cut, other)
  }

  /** A successful drain ends at the least closed cut. */
  lemma SuccessIsLeast(job: Job, run: seq<State>, i: nat, done: Pid)
    requires WellFormed(job) && Run(job, run) && i < |run| && Succeeded(run[i], done)
    ensures IsLeastClosed(job, Position(run[i]), Snapshot(run[i]))
  {
    var s := run[i];
    RunInv(job, run, i);
    SuccessIsClosed(job, run, i, done);
    forall p: Pid | p < |s.procs| ensures s.procs[p].stage.Active() && s.procs[p].snap <= s.procs[p].pc {
      SuccessFreezes(job, s, done, p);
      RunAboveSnapshot(job, run, i, p);
    }
    forall other: Cut | IsCut(job, other) && Closed(job, other) && Below(Snapshot(s), other)
      ensures Below(Position(s), other)
    {
      forall p: Pid | p < |s.procs| ensures s.procs[p].snap <= other[p] {
        assert Snapshot(s)[p] <= other[p];
      }
      RunWithin(job, run, i, other);
    }
  }

  /** Two runs that shared the same sequence numbers end at the same cut. */
  lemma SuccessIsUnique(job: Job, run: seq<State>, i: nat, done: Pid, run': seq<State>, i': nat, done': Pid)
    requires WellFormed(job) && Run(job, run) && i < |run| && Succeeded(run[i], done)
    requires Run(job, run') && i' < |run'| && Succeeded(run'[i'], done')
    requires Snapshot(run[i]) == Snapshot(run'[i'])
    ensures Position(run[i]) == Position(run'[i'])
  {
    SuccessIsLeast(job, run, i, done);
    SuccessIsLeast(job, run', i', done');
    var a, b := Position(run[i]), Position(run'[i']);
    assert Below(a, b) && Below(b, a);
    assert forall p :: 0 <= p < |a| ==> a[p] == b[p];
  }

  /** The delta exchange agrees with a full one: at its lock section in a round, each clock of a
      process has a target of at least the table's value after the barrier before. */
  lemma DeltaIsFull(job: Job, run: seq<State>, i: nat, p: Pid, g: Gid)
    requires WellFormed(job) && Run(job, run) && i < |run| && p < |run[i].procs|
    requires run[i].procs[p].stage.RoundUp? && g in run[i].procs[p].clocks
    ensures run[i].procs[p].round < |run[i].rounds|
    ensures At(run[i].rounds[run[i].procs[p].round].base, g) <= run[i].procs[p].clocks[g].target
  {
    RunInv(job, run, i);
    assert DeltaProc(run[i], p);
  }
}
