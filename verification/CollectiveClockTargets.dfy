/**
The targets of the Collective Clock drain, between two bounds.  From above: a target is
a sequence number that a process reached.  From below: although a round downloads only
the gids that it raised, each target is at least the table's value when the round opened.
*/
module CollectiveClockTargets {
  import opened MpiJob
  import opened CollectiveClock
  import opened CollectiveClockInvariant
  import opened CollectiveClockBarrier

  predicate TableGrows(table: map<Gid, nat>, table': map<Gid, nat>) {
    forall g :: g in table ==> g in table' && table[g] <= table'[g]
  }

  lemma AtGrows(table: map<Gid, nat>, table': map<Gid, nat>, g: Gid)
    requires TableGrows(table, table')
    ensures At(table, g) <= At(table', g)
  {
  }

  lemma StepTable(job: Job, s: State, p: Pid, step: Step)
    requires |s.procs| == |job.programs| && Enabled(job, s, p, step)
    ensures TableGrows(s.table, Apply(job, s, p, step).table)
    ensures !step.Upload? ==> Apply(job, s, p, step).table == s.table
  {
  }

  // ---- what the processes have uploaded ----

  /** The clock of g has other members to tell about. */
  predicate HasPeers(job: Job, g: Gid) { g in job.members && |job.members[g]| > 1 }

  /** The table has the calls that the process made on g, or the process will upload them. */
  predicate Told(job: Job, pr: Proc, table: map<Gid, nat>, g: Gid)
    requires g in pr.clocks
  {
    var c, stage := pr.clocks[g], pr.stage;
    && (stage.ShareUp? && g !in stage.todo ==> g in table && c.calls <= At(table, g))
    && (stage.ShareWait? || stage.ShareDown? ==> g in table && c.calls <= At(table, g))
    && (stage.ShareDown? && g !in stage.todo ==> c.target <= At(table, g))
    && (stage.Rounds() ==>
          && c.target <= Max(c.calls, At(table, g))
          && (HasPeers(job, g) ==>
                c.calls <= At(table, g) || g in pr.raised || (stage.RoundUp? && g in stage.todo)))
  }

  ghost predicate ToldProc(job: Job, s: State, p: Pid)
    requires p < |s.procs|
  {
    forall g :: g in s.procs[p].clocks ==> Told(job, s.procs[p], s.table, g)
  }

  ghost predicate ToldInv(job: Job, s: State) {
    forall p: Pid :: p < |s.procs| ==> ToldProc(job, s, p)
  }

  lemma ToldSelf(job: Job, s: State, p: Pid, step: Step, g: Gid)
    requires |s.procs| == |job.programs| && Enabled(job, s, p, step) && g in s.procs[p].clocks
    requires Told(job, s.procs[p], s.table, g)
    requires s.procs[p].stage.Active() ==> s.procs[p].pending
    ensures var s' := Apply(job, s, p, step);
      g in s'.procs[p].clocks ==> Told(job, s'.procs[p], s'.table, g)
  {
    var pr := s.procs[p];
    match step
    case Begin => ToldBegin(job, pr, job.programs[p][pr.pc], s.table, g);
    case Download(h) => ToldDownload(job, pr, s.table, h, g);
    case Upload(h) => ToldUpload(job, pr, s.table, h, g);
    case _ => ToldRest(job, s, p, step, g);
  }

  lemma ToldUpload(job: Job, pr: Proc, table: map<Gid, nat>, h: Gid, g: Gid)
    requires pr.stage.ShareUp? || pr.stage.RoundUp?
    requires g in pr.clocks && Told(job, pr, table, g)
    ensures var table' := if h in pr.clocks then UploadMax(table, h, pr.clocks[h].calls) else table;
      Told(job, Uploaded(pr, h), table', g)
  {
  }

  lemma ToldDownload(job: Job, pr: Proc, table: map<Gid, nat>, h: Gid, g: Gid)
    requires pr.stage.ShareDown? || pr.stage.AddDown? || pr.stage.RoundDown?
    requires g in pr.clocks && Told(job, pr, table, g)
    ensures g in Downloaded(pr, h, table).clocks && Told(job, Downloaded(pr, h, table), table, g)
  {
  }

  /** The other steps keep what the process counted and its targets. */
  lemma RestKeeps(job: Job, s: State, p: Pid, step: Step, g: Gid)
    requires |s.procs| == |job.programs| && Enabled(job, s, p, step) && g in s.procs[p].clocks
    requires !step.Begin? && !step.Download? && !step.Upload? && !step.Add?
    ensures var pr' := StepProc(job, s, p, step); g in pr'.clocks ==> pr'.clocks[g] == s.procs[p].clocks[g]
  {
  }

  lemma ToldRest(job: Job, s: State, p: Pid, step: Step, g: Gid)
    requires |s.procs| == |job.programs| && Enabled(job, s, p, step) && g in s.procs[p].clocks
    requires !step.Begin? && !step.Download? && !step.Upload?
    requires Told(job, s.procs[p], s.table, g)
    ensures var pr' := StepProc(job, s, p, step); g in pr'.clocks ==> Told(job, pr', s.table, g)
  {
    if step.Add? || step.StartFree? || step.Finish? || step.Erase? || step.Release? {
      assert StepProc(job, s, p, step).stage == s.procs[p].stage;
    } else {
      RestKeeps(job, s, p, step, g);
    }
  }

  lemma ToldBegin(job: Job, pr: Proc, call: Call, table: map<Gid, nat>, g: Gid)
    requires !pr.stage.Locked() && g in pr.clocks && Told(job, pr, table, g)
    requires pr.stage.Active() ==> pr.pending
    ensures g in BeginCall(job, pr, call).clocks && Told(job, BeginCall(job, pr, call), table, g)
  {
  }

  lemma ToldStep(job: Job, s: State, p: Pid, step: Step)
    requires |s.procs| == |job.programs| && Enabled(job, s, p, step) && ToldInv(job, s)
    requires s.procs[p].stage.Active() ==> s.procs[p].pending
    ensures ToldInv(job, Apply(job, s, p, step))
  {
    var s' := Apply(job, s, p, step);
    StepTable(job, s, p, step);
    assert ToldProc(job, s, p);
    forall g | g in s'.procs[p].clocks ensures Told(job, s'.procs[p], s'.table, g) {
      if g in s.procs[p].clocks {
        ToldSelf(job, s, p, step, g);
      }
    }
    forall q: Pid | q < |s.procs| && q != p ensures ToldProc(job, s', q) {
      assert ToldProc(job, s, q) && s'.procs[q] == s.procs[q];
      forall g | g in s.procs[q].clocks ensures Told(job, s.procs[q], s'.table, g) {
        assert Told(job, s.procs[q], s.table, g);
      }
    }
  }

  // ---- the table when each round opened ----

  /** The table at the end of round k: when round k + 1 opened, or now. */
  ghost function EndTable(s: State, k: nat): map<Gid, nat>
    requires k < |s.rounds|
  {
    if k + 1 < |s.rounds| then s.rounds[k + 1].base else s.table
  }

  /** The round raised only the gids of its list. */
  ghost predicate ListComplete(s: State, k: nat)
    requires k < |s.rounds|
  {
    forall g: Gid :: g !in s.rounds[k].list ==> At(EndTable(s, k), g) == At(s.rounds[k].base, g)
  }

  /** Some process is in round k. */
  ghost predicate Entered(s: State, k: nat) {
    exists p: Pid :: p < |s.procs| && s.procs[p].stage.Rounds() && s.procs[p].round == k
  }

  ghost predicate BaseInv(s: State) {
    && (forall k: nat, g: Gid :: k < |s.rounds| ==> At(s.rounds[k].base, g) <= At(s.table, g))
    && (forall k: nat :: k < |s.rounds| ==> ListComplete(s, k))
    && (|s.rounds| > 0 && s.rounds[|s.rounds| - 1].list != {} ==> Entered(s, |s.rounds| - 1))
  }

  lemma BaseUpload(job: Job, s: State, p: Pid, g: Gid)
    requires |s.procs| == |job.programs| && Enabled(job, s, p, Upload(g)) && BarrierInv(s) && BaseInv(s)
    ensures BaseInv(Apply(job, s, p, Upload(g)))
  {
    var s' := Apply(job, s, p, Upload(g));
    StepTable(job, s, p, Upload(g));
    assert BarrierProc(s, p);
    assert forall k: nat :: k < |s.rounds| ==> s'.rounds[k].base == s.rounds[k].base;
    forall k: nat, h: Gid | k < |s'.rounds| ensures At(s'.rounds[k].base, h) <= At(s'.table, h) {
      AtGrows(s.table, s'.table, h);
    }
    if s.procs[p].stage.RoundUp? {
      NewestRound(s, p);
      assert s'.procs[p].stage.Rounds();
      forall k: nat | k < |s'.rounds| ensures ListComplete(s', k) {
        assert ListComplete(s, k);
      }
    } else {
      assert s.rounds == [];
    }
  }

  lemma BaseRest(job: Job, s: State, p: Pid, step: Step)
    requires |s.procs| == |job.programs| && Enabled(job, s, p, step) && !step.Upload? && BarrierInv(s) && BaseInv(s)
    ensures BaseInv(Apply(job, s, p, step))
  {
    var s' := Apply(job, s, p, step);
    var last := |s.rounds| - 1;
    assert BarrierProc(s, p);
    if !step.Arrive? && !step.ArriveShare? {
      assert s'.rounds == s.rounds && s'.table == s.table;
      forall k: nat | k < |s'.rounds| ensures ListComplete(s', k) {
        assert ListComplete(s, k);
      }
      if last >= 0 && s.rounds[last].list != {} {
        var q: Pid :| q < |s.procs| && s.procs[q].stage.Rounds() && s.procs[q].round == last;
        if q == p {
          StepMoves(job, s, p, step);
          assert Full(s, last) <==> last + 1 < |s.rounds|;
          assert BarrierProc(s, p);
          assert s'.procs[p].stage.Rounds() && s'.procs[p].round == last;
        } else {
          assert s'.procs[q] == s.procs[q];
        }
      }
    } else if step.Arrive? {
      NewestRound(s, p);
      assert s'.procs[p].stage.Rounds() && s'.procs[p].round == last;
      forall k: nat | k < |s'.rounds| ensures ListComplete(s', k) {
        assert k < |s.rounds| ==> ListComplete(s, k);
      }
    } else {
      assert s.rounds == [];
    }
  }

  lemma BaseStep(job: Job, s: State, p: Pid, step: Step)
    requires |s.procs| == |job.programs| && Enabled(job, s, p, step) && BarrierInv(s) && BaseInv(s)
    ensures BaseInv(Apply(job, s, p, step))
  {
    if step.Upload? {
      BaseUpload(job, s, p, step.gid);
    } else {
      BaseRest(job, s, p, step);
    }
  }

  // ---- what the processes have downloaded ----

  /** The target of each clock in 'gids' is at least its value in the table. */
  predicate AtLeast(clocks: map<Gid, Clock>, gids: set<Gid>, table: map<Gid, nat>) {
    forall g :: g in clocks && g in gids ==> At(table, g) <= clocks[g].target
  }

  /** The delta exchange: when its round opened, the table had no value above the targets of
      the process.  A clock that the process added since may be behind; then the next lock
      section downloads all targets. */
  ghost predicate Delta(pr: Proc, rounds: seq<Round>) {
    && (pr.stage.ShareDown? || pr.stage.AddDown? ==>
          pr.round < |rounds| && AtLeast(pr.clocks, pr.clocks.Keys - pr.stage.todo, rounds[pr.round].base))
    && (pr.stage.RoundDown? ==>
          pr.round + 1 < |rounds| &&
          (pr.added || AtLeast(pr.clocks, pr.clocks.Keys - pr.stage.todo, rounds[pr.round + 1].base)))
    && (pr.stage.Ready? || pr.stage.RoundUp? || pr.stage.RoundWait? || pr.stage.Judged? || pr.stage.Done? ==>
          pr.round < |rounds| && (pr.added || AtLeast(pr.clocks, pr.clocks.Keys, rounds[pr.round].base)))
    && (pr.stage.AddDown? || pr.stage.RoundUp? ==> !pr.added)
  }

  ghost predicate DeltaProc(s: State, p: Pid)
    requires p < |s.procs|
  {
    Delta(s.procs[p], s.rounds)
  }

  ghost predicate DeltaInv(s: State) {
    forall p: Pid :: p < |s.procs| ==> DeltaProc(s, p)
  }

  /** The rounds keep their opening tables. */
  ghost predicate RoundsKept(s: State, s': State) {
    && |s.rounds| <= |s'.rounds|
    && forall k: nat :: k < |s.rounds| ==> s'.rounds[k].base == s.rounds[k].base
  }

  lemma StepRounds(job: Job, s: State, p: Pid, step: Step)
    requires |s.procs| == |job.programs| && Enabled(job, s, p, step) && BarrierInv(s)
    ensures RoundsKept(s, Apply(job, s, p, step))
  {
    assert BarrierProc(s, p);
  }

  /** The steps of the application thread. */
  lemma DeltaApp(job: Job, s: State, s': State, p: Pid, step: Step)
    requires |s.procs| == |job.programs| && Enabled(job, s, p, step) && DeltaProc(s, p)
    requires IsApp(step)
    requires s.procs[p].stage.Active() ==> s.procs[p].pending
    requires |s'.procs| == |s.procs| && s'.procs[p] == StepProc(job, s, p, step) && RoundsKept(s, s')
    ensures DeltaProc(s', p)
  {
    var pr, pr' := s.procs[p], s'.procs[p];
    assert pr'.stage == pr.stage && pr'.round == pr.round;
    assert step.Add? ==> pr'.added || !pr.stage.Active();
    assert !step.Add? ==> pr'.added == pr.added;
    assert forall g :: g in pr'.clocks && !step.Add? ==> g in pr.clocks && pr.clocks[g].target <= pr'.clocks[g].target;
  }

  lemma DeltaDownload(pr: Proc, rounds: seq<Round>, table: map<Gid, nat>, g: Gid)
    requires Delta(pr, rounds)
    requires forall k: nat, h: Gid :: k < |rounds| ==> At(rounds[k].base, h) <= At(table, h)
    requires pr.stage.ShareDown? || pr.stage.AddDown? || pr.stage.RoundDown?
    ensures Delta(Downloaded(pr, g, table), rounds)
  {
    var pr' := Downloaded(pr, g, table);
    assert pr'.clocks.Keys == pr.clocks.Keys && pr'.round == pr.round && pr'.added == pr.added;
    var k := if pr.stage.RoundDown? then pr.round + 1 else pr.round;
    if k < |rounds| {
      DownloadReaches(pr.clocks, pr'.clocks, pr.stage.todo, rounds[k].base, table, g);
    }
  }

  lemma DownloadReaches(
      clocks: map<Gid, Clock>, clocks': map<Gid, Clock>, todo: set<Gid>, base: map<Gid, nat>,
      table: map<Gid, nat>, g: Gid)
    requires forall h: Gid :: At(base, h) <= At(table, h)
    requires clocks'.Keys == clocks.Keys
    requires forall h :: h in clocks && h != g ==> clocks'[h] == clocks[h]
    requires g in clocks ==> clocks'[g].target == (if g in table then table[g] else clocks[g].target)
    ensures AtLeast(clocks, clocks.Keys - todo, base) ==> AtLeast(clocks', clocks'.Keys - (todo - {g}), base)
  {
    if AtLeast(clocks, clocks.Keys - todo, base) {
      forall h | h in clocks' && h in clocks'.Keys - (todo - {g}) ensures At(base, h) <= clocks'[h].target {
        assert h != g ==> h in clocks.Keys - todo;
        assert At(base, g) <= At(table, g);
      }
    }
  }

  /** After the round, the targets of the gids outside its list are at least the next table. */
  lemma DeltaNext(s: State, p: Pid)
    requires p < |s.procs| && DeltaProc(s, p) && BarrierInv(s) && BaseInv(s)
    requires s.procs[p].stage.RoundWait? || s.procs[p].stage.Judged?
    requires s.procs[p].round < |s.rounds| && Full(s, s.procs[p].round)
    ensures var pr := s.procs[p];
      && pr.round + 1 < |s.rounds|
      && (pr.added || AtLeast(pr.clocks, pr.clocks.Keys - s.rounds[pr.round].list, s.rounds[pr.round + 1].base))
  {
    var pr := s.procs[p];
    assert Full(s, pr.round) <==> pr.round + 1 < |s.rounds|;
    assert ListComplete(s, pr.round);
  }

  lemma DeltaPass(s: State, p: Pid)
    requires p < |s.procs| && DeltaProc(s, p) && BarrierInv(s) && BaseInv(s) && TallyInv(s)
    requires s.procs[p].stage.RoundWait?
    requires s.procs[p].round < |s.rounds| && Full(s, s.procs[p].round)
    ensures Delta(Judge(s.procs[p], s.rounds[s.procs[p].round], |s.procs|), s.rounds)
  {
    DeltaNext(s, p);
    var pr := s.procs[p];
    assert Tallied(s.rounds[pr.round]);
    if s.rounds[pr.round].raised == 0 {
      assert pr.clocks.Keys - s.rounds[pr.round].list == pr.clocks.Keys;
    }
    JudgeDelta(pr, s.rounds[pr.round], |s.procs|, s.rounds);
  }

  lemma JudgeDelta(pr: Proc, r: Round, n: nat, rounds: seq<Round>)
    requires Delta(pr, rounds) && pr.stage.RoundWait? && pr.round + 1 < |rounds|
    requires r.raised == 0 ==> pr.added || AtLeast(pr.clocks, pr.clocks.Keys, rounds[pr.round + 1].base)
    ensures Delta(Judge(pr, r, n), rounds)
  {
  }

  lemma DeltaLockDownload(s: State, p: Pid)
    requires p < |s.procs| && DeltaProc(s, p) && BarrierInv(s) && BaseInv(s)
    requires s.procs[p].stage.Judged? && s.procs[p].round < |s.rounds|
    ensures Delta(StartDownload(s.procs[p], s.rounds[s.procs[p].round]), s.rounds)
  {
    assert BarrierProc(s, p);
    var pr := s.procs[p];
    assert Full(s, pr.round) <==> pr.round + 1 < |s.rounds|;
    DeltaNext(s, p);
    var pr' := StartDownload(pr, s.rounds[pr.round]);
    forall g | g in pr.clocks.Keys - pr'.stage.todo ensures g in pr.clocks.Keys - s.rounds[pr.round].list {
    }
  }

  /** The other steps of the checkpoint thread. */
  lemma DeltaDrain(job: Job, s: State, p: Pid, step: Step)
    requires |s.procs| == |job.programs| && Enabled(job, s, p, step) && DeltaProc(s, p)
    requires !IsApp(step) && !step.Download? && !step.PassShare? && !step.Pass? && !step.LockDownload?
    ensures Delta(StepProc(job, s, p, step), s.rounds)
  {
  }

  lemma DeltaPassShare(s: State, p: Pid)
    requires p < |s.procs| && BarrierInv(s) && s.procs[p].stage.ShareWait? && AllIn(|s.procs|, s.shared)
    ensures Delta(s.procs[p].(stage := ShareDown(s.procs[p].clocks.Keys)), s.rounds)
  {
    assert BarrierProc(s, p);
  }

  lemma DeltaKept(pr: Proc, s: State, s': State)
    requires Delta(pr, s.rounds) && RoundsKept(s, s')
    ensures Delta(pr, s'.rounds)
  {
  }

  lemma DeltaSelf(job: Job, s: State, p: Pid, step: Step)
    requires |s.procs| == |job.programs| && Enabled(job, s, p, step) && DeltaProc(s, p)
    requires !IsApp(step)
    requires BarrierInv(s) && BaseInv(s) && TallyInv(s)
    ensures Delta(StepProc(job, s, p, step), s.rounds)
  {
    match step
    case Download(g) => DeltaDownload(s.procs[p], s.rounds, s.table, g);
    case PassShare => DeltaPassShare(s, p);
    case Pass => DeltaPass(s, p);
    case LockDownload =>
      assert BarrierProc(s, p);
      DeltaLockDownload(s, p);
    case _ => DeltaDrain(job, s, p, step);
  }

  lemma DeltaStep(job: Job, s: State, p: Pid, step: Step)
    requires |s.procs| == |job.programs| && Enabled(job, s, p, step) && DeltaInv(s)
    requires BarrierInv(s) && BaseInv(s) && TallyInv(s)
    requires s.procs[p].stage.Active() ==> s.procs[p].pending
    ensures DeltaInv(Apply(job, s, p, step))
  {
    var s' := Apply(job, s, p, step);
    StepRounds(job, s, p, step);
    assert DeltaProc(s, p);
    if IsApp(step) {
      DeltaApp(job, s, s', p, step);
    } else {
      DeltaSelf(job, s, p, step);
      DeltaKept(StepProc(job, s, p, step), s, s');
    }
    forall q: Pid | q < |s.procs| && q != p ensures DeltaProc(s', q) {
      assert DeltaProc(s, q) && s'.procs[q] == s.procs[q];
      DeltaKept(s.procs[q], s, s');
    }
  }
}
