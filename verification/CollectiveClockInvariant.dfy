/**
The inductive invariant of the Collective Clock drain.  Each part is a predicate of
one process and the shared records, and each part has one lemma that every step keeps it.
*/
module CollectiveClockInvariant {
  import opened Common
  import opened MpiJob
  import opened CollectiveClock

  // ---- the application threads ----

  ghost predicate ProgramProc(job: Job, s: State, p: Pid)
    requires p < |s.procs| == |job.programs|
  {
    && s.procs[p].pc <= |job.programs[p]|
    && HoldsItsClocks(job, s, p)
    && s.procs[p].stage.Todo() <= s.procs[p].clocks.Keys
    && (s.procs[p].stage.Active() ==> s.procs[p].pending)
  }

  ghost predicate ProgramInv(job: Job, s: State) {
    |s.procs| == |job.programs| && forall p: Pid :: p < |s.procs| ==> ProgramProc(job, s, p)
  }

  /** No process is behind its position in s. */
  ghost predicate Advanced(job: Job, s: State, s': State) {
    && |s'.procs| == |s.procs| == |job.programs|
    && forall p: Pid :: p < |s.procs| ==> s.procs[p].pc <= s'.procs[p].pc <= |job.programs[p]|
  }

  lemma FreedStays(job: Job, s: State, s': State)
    requires Advanced(job, s, s')
    ensures forall g: Gid :: AllFreed(job, s, g) ==> AllFreed(job, s', g)
    ensures forall g: Gid :: AllEntered(job, s, g) ==> AllEntered(job, s', g)
  {
    forall g: Gid, q: Pid | q < |s.procs| && Member(job, q, g)
      ensures FreedBefore(job.programs[q], s.procs[q].pc, g) ==> FreedBefore(job.programs[q], s'.procs[q].pc, g)
      ensures MadeBefore(job.programs[q], s.procs[q].pc, g) ==> MadeBefore(job.programs[q], s'.procs[q].pc, g)
    {
    }
  }

  lemma StepAdvances(job: Job, s: State, p: Pid, step: Step)
    requires ProgramInv(job, s) && Enabled(job, s, p, step)
    ensures Advanced(job, s, Apply(job, s, p, step))
  {
    assert ProgramProc(job, s, p);
    forall q: Pid | q < |s.procs| ensures s.procs[q].pc <= |job.programs[q]| {
      assert ProgramProc(job, s, q);
    }
  }

  /** A step of another process. */
  lemma ProgramOther(job: Job, s: State, s': State, q: Pid)
    requires Advanced(job, s, s') && q < |s.procs| && s'.procs[q] == s.procs[q]
    requires ProgramProc(job, s, q)
    ensures ProgramProc(job, s', q)
  {
    FreedStays(job, s, s');
  }

  /** The steps of the application thread that change its clocks or its position. */
  predicate IsApp(step: Step) { step.Begin? || step.Add? || step.StartFree? || step.Finish? || step.Erase? }

  /** The drain keeps the position of a process, its clocks and their counts. */
  predicate SamePlace(pr: Proc, pr': Proc) {
    && pr'.pc == pr.pc && pr'.inCs == pr.inCs && pr'.clocks.Keys == pr.clocks.Keys
    && pr'.started == pr.started && pr'.frees == pr.frees
    && forall g :: g in pr.clocks ==> pr'.clocks[g].calls == pr.clocks[g].calls
  }

  lemma DrainKeepsPlace(job: Job, s: State, p: Pid, step: Step)
    requires |s.procs| == |job.programs| && Enabled(job, s, p, step)
    requires !IsApp(step)
    requires s.procs[p].stage.Todo() <= s.procs[p].clocks.Keys && (s.procs[p].stage.Active() ==> s.procs[p].pending)
    ensures var pr' := StepProc(job, s, p, step);
            SamePlace(s.procs[p], pr') && pr'.stage.Todo() <= pr'.clocks.Keys && (pr'.stage.Active() ==> pr'.pending)
  {
    if step.Download? {
      DownloadKeepsPlace(s.procs[p], step.gid, s.table);
    } else if step.DownloadEnd? {
      EndKeepsPlace(s.procs[p]);
    }
  }

  lemma DownloadKeepsPlace(pr: Proc, g: Gid, table: map<Gid, nat>)
    requires pr.stage.Todo() <= pr.clocks.Keys && (pr.stage.Active() ==> pr.pending)
    ensures var pr' := Downloaded(pr, g, table);
            SamePlace(pr, pr') && pr'.stage.Todo() <= pr'.clocks.Keys && (pr'.stage.Active() ==> pr'.pending)
  {
  }

  lemma EndKeepsPlace(pr: Proc)
    requires pr.stage.Todo() <= pr.clocks.Keys && (pr.stage.Active() ==> pr.pending)
    ensures var pr' := EndDownload(pr);
            SamePlace(pr, pr') && pr'.stage.Todo() <= pr'.clocks.Keys && (pr'.stage.Active() ==> pr'.pending)
  {
  }

  lemma PlaceHolds(job: Job, s: State, s': State, p: Pid)
    requires Advanced(job, s, s') && p < |s.procs| && ProgramProc(job, s, p) && SamePlace(s.procs[p], s'.procs[p])
    ensures HoldsItsClocks(job, s', p)
  {
    FreedStays(job, s, s');
    assert ClocksCount(job, s'.procs[p], p);
    assert ClocksHeld(job, s', p);
    assert GroupsEntered(job, s', p);
  }

  /** A step that changes no clock but its target. */
  lemma ProgramDrain(job: Job, s: State, p: Pid, step: Step)
    requires |s.procs| == |job.programs| && Enabled(job, s, p, step) && ProgramProc(job, s, p)
    requires !IsApp(step)
    requires Advanced(job, s, Apply(job, s, p, step))
    ensures ProgramProc(job, Apply(job, s, p, step), p)
  {
    DrainKeepsPlace(job, s, p, step);
    PlaceHolds(job, s, Apply(job, s, p, step), p);
  }

  lemma ProgramBegin(job: Job, s: State, p: Pid)
    requires |s.procs| == |job.programs| && Enabled(job, s, p, Begin) && ProgramProc(job, s, p)
    requires CallOk(job, p, s.procs[p].pc)
    requires Advanced(job, s, Apply(job, s, p, Begin))
    ensures ProgramProc(job, Apply(job, s, p, Begin), p)
  {
    var s' := Apply(job, s, p, Begin);
    var pr, pr', program := s.procs[p], s'.procs[p], job.programs[p];
    FreedStays(job, s, s');
    var counted := CountedOn(program[pr.pc]);
    if counted.Some? {
      assert !AllFreed(job, s, counted.value);
      assert counted.value in pr.clocks;
    }
    assert pr'.pc == pr.pc + 1 && pr'.clocks.Keys == pr.clocks.Keys && Completed(pr') == pr.pc == Completed(pr);
    BeginCounts(job, pr, p);
    assert ClocksHeld(job, s', p);
    assert GroupsEntered(job, s', p);
  }

  lemma BeginCounts(job: Job, pr: Proc, p: Pid)
    requires p < |job.programs| && pr.pc < |job.programs[p]| && ClocksCount(job, pr, p)
    ensures ClocksCount(job, BeginCall(job, pr, job.programs[p][pr.pc]), p)
  {
    var pr' := BeginCall(job, pr, job.programs[p][pr.pc]);
    forall g | g in pr'.clocks
      ensures g in job.initial || MadeBefore(job.programs[p], pr'.pc, g)
      ensures pr'.clocks[g].calls == CountTo(job.programs[p], pr'.pc, g)
    {
    }
  }

  /** A communicator was not freed before it is made. */
  lemma NotFreedYet(job: Job, p: Pid, i: nat, g: Gid)
    requires WellFormed(job) && p < |job.programs| && i < |job.programs[p]| && Made(job.programs[p][i]) == Some(g)
    ensures !FreedBefore(job.programs[p], i + 1, g)
  {
    assert CallOk(job, p, i);
    forall k | 0 <= k < i + 1 ensures job.programs[p][k] != Free(g) {
      assert CallOk(job, p, k);
    }
  }

  lemma ProgramAdd(job: Job, s: State, p: Pid)
    requires WellFormed(job) && |s.procs| == |job.programs| && Enabled(job, s, p, Add) && ProgramProc(job, s, p)
    requires Advanced(job, s, Apply(job, s, p, Add))
    ensures ProgramProc(job, Apply(job, s, p, Add), p)
  {
    var s' := Apply(job, s, p, Add);
    var pr, program := s.procs[p], job.programs[p];
    var g := Made(program[pr.pc - 1]).value;
    FreedStays(job, s, s');
    assert CallOk(job, p, pr.pc - 1);
    NoCallWhenMade(job, p, pr.pc - 1, g);
    assert MadeBefore(program, pr.pc, g);
    NotFreedYet(job, p, pr.pc - 1, g);
    assert ClocksCount(job, s'.procs[p], p);
    assert ClocksHeld(job, s', p);
    forall i | 0 <= i < pr.pc && program[i].CreateGroup? && program[i].gid == g
      ensures i == pr.pc - 1
    {
      assert Made(program[i]) == Some(g);
    }
    assert GroupsEntered(job, s', p);
  }

  lemma ProgramFinish(job: Job, s: State, p: Pid)
    requires |s.procs| == |job.programs| && Enabled(job, s, p, Finish) && ProgramProc(job, s, p)
    requires Advanced(job, s, Apply(job, s, p, Finish))
    ensures ProgramProc(job, Apply(job, s, p, Finish), p)
  {
    var s' := Apply(job, s, p, Finish);
    var pr, program := s.procs[p], job.programs[p];
    FreedStays(job, s, s');
    forall g: Gid | MadeBefore(program, pr.pc, g)
      ensures MadeBefore(program, Completed(pr), g) || Made(program[pr.pc - 1]) == Some(g)
    {
    }
    assert ClocksHeld(job, s', p);
    assert GroupsEntered(job, s', p);
  }

  lemma ProgramStartFree(job: Job, s: State, p: Pid)
    requires |s.procs| == |job.programs| && Enabled(job, s, p, StartFree) && ProgramProc(job, s, p)
    requires Advanced(job, s, Apply(job, s, p, StartFree))
    ensures ProgramProc(job, Apply(job, s, p, StartFree), p)
  {
    var s' := Apply(job, s, p, StartFree);
    FreedStays(job, s, s');
    var i := s.procs[p].pc - 1;
    assert job.programs[p][i] == Free(job.programs[p][i].gid);
    assert BarriersOfFrees(job, s'.procs[p], p);
    assert ClocksHeld(job, s', p);
    assert GroupsEntered(job, s', p);
  }

  /** When the barrier of an MPI_Comm_free completes, every member has begun its MPI_Comm_free. */
  lemma BarrierMeansFreed(job: Job, s: State, g: Gid)
    requires ProgramInv(job, s) && AllStarted(job, s, g)
    ensures AllFreed(job, s, g)
  {
    forall q: Pid | q < |s.procs| && Member(job, q, g)
      ensures s.procs[q].pc <= |job.programs[q]| && FreedBefore(job.programs[q], s.procs[q].pc, g)
    {
      assert ProgramProc(job, s, q);
    }
  }

  lemma ProgramErase(job: Job, s: State, p: Pid, g: Gid)
    requires |s.procs| == |job.programs| && Enabled(job, s, p, Erase(g)) && ProgramProc(job, s, p)
    requires AllFreed(job, s, g)
    requires Advanced(job, s, Apply(job, s, p, Erase(g)))
    ensures ProgramProc(job, Apply(job, s, p, Erase(g)), p)
  {
    var s' := Apply(job, s, p, Erase(g));
    FreedStays(job, s, s');
    assert ClocksHeld(job, s', p);
    assert GroupsEntered(job, s', p);
  }

  lemma ProgramStep(job: Job, s: State, p: Pid, step: Step)
    requires WellFormed(job) && ProgramInv(job, s) && Enabled(job, s, p, step)
    ensures ProgramInv(job, Apply(job, s, p, step))
  {
    var s' := Apply(job, s, p, step);
    StepAdvances(job, s, p, step);
    assert ProgramProc(job, s, p);
    forall q: Pid | q < |s.procs| ensures ProgramProc(job, s', q) {
      if q != p {
        ProgramOther(job, s, s', q);
      } else {
        match step
        case Begin => assert CallOk(job, p, s.procs[p].pc); ProgramBegin(job, s, p);
        case Add => ProgramAdd(job, s, p);
        case Finish => ProgramFinish(job, s, p);
        case StartFree => ProgramStartFree(job, s, p);
        case Erase(g) => BarrierMeansFreed(job, s, g); ProgramErase(job, s, p, g);
        case _ => ProgramDrain(job, s, p, step);
      }
    }
  }
}
