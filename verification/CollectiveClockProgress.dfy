/**
That a Collective Clock drain gets on, over every run: an attempt gives up exactly after
MAX_DRAIN_ROUNDS rounds in a row in which no process raised a target, all processes agree on that, and
until the attempt ends some checkpoint thread can make its next step.
*/
module CollectiveClockProgress {
  import opened MpiJob
  import opened CollectiveClock
  import opened CollectiveClockInvariant
  import opened CollectiveClockBarrier
  import opened CollectiveClockTargets
  import opened CollectiveClockDrain
  import opened CollectiveClockSuccess

  /** Round k is the last of MAX_DRAIN_ROUNDS rounds in a row without a raised target. */
  predicate GivesUp(rounds: seq<Round>, k: nat) {
    && MAX_DRAIN_ROUNDS <= k + 1 <= |rounds|
    && forall j :: k + 1 - MAX_DRAIN_ROUNDS <= j <= k ==> rounds[j].raised == 0
  }

  /** rounds_without_raise counts the rounds since the last one with a raised target. */
  predicate CountsQuiet(rounds: seq<Round>, round: nat, quiet: nat) {
    && quiet <= round <= |rounds| && quiet < MAX_DRAIN_ROUNDS
    && (forall j :: round - quiet <= j < round ==> rounds[j].raised == 0)
    && (quiet < round ==> rounds[round - quiet - 1].raised > 0)
  }

  predicate QuietProc(pr: Proc, rounds: seq<Round>) {
    && (pr.stage.ShareUp? || pr.stage.ShareWait? || pr.stage.ShareDown? ==> pr.round == 0 && pr.quiet == 0)
    && (pr.stage.Rounds() || pr.stage.Failed? ==>
          && CountsQuiet(rounds, pr.round, pr.quiet)
          && (forall k: nat :: k < pr.round ==> !GivesUp(rounds, k)))
    && (pr.stage.Judged? || pr.stage.RoundDown? ==> pr.round < |rounds| && rounds[pr.round].raised > 0)
    && (pr.stage.Failed? ==> GivesUp(rounds, pr.round))
  }

  ghost predicate QuietInv(s: State) { forall p: Pid :: p < |s.procs| ==> QuietProc(s.procs[p], s.rounds) }

  // ---- the next round ----

  lemma CountNext(rounds: seq<Round>, round: nat, quiet: nat)
    requires CountsQuiet(rounds, round, quiet) && round < |rounds|
    ensures GivesUp(rounds, round) <==> rounds[round].raised == 0 && quiet + 1 == MAX_DRAIN_ROUNDS
    ensures rounds[round].raised > 0 ==> CountsQuiet(rounds, round + 1, 0)
    ensures rounds[round].raised == 0 && quiet + 1 < MAX_DRAIN_ROUNDS ==> CountsQuiet(rounds, round + 1, quiet + 1)
  {
  }

  lemma CountFrame(rounds: seq<Round>, rounds': seq<Round>, round: nat, quiet: nat)
    requires round <= |rounds| <= |rounds'| && forall k :: 0 <= k < round ==> rounds'[k] == rounds[k]
    ensures CountsQuiet(rounds', round, quiet) == CountsQuiet(rounds, round, quiet)
    ensures forall k: nat :: k < round ==> GivesUp(rounds', k) == GivesUp(rounds, k)
  {
  }

  lemma QuietFrame(pr: Proc, rounds: seq<Round>, rounds': seq<Round>)
    requires QuietProc(pr, rounds) && |rounds| <= |rounds'|
    requires forall k :: 0 <= k && k + 1 < |rounds| ==> rounds'[k] == rounds[k]
    requires pr.stage.Rounds() || pr.stage.Failed? ==> pr.round < |rounds|
    requires pr.stage.Judged? || pr.stage.RoundDown? || pr.stage.Failed? ==> pr.round + 1 < |rounds|
    ensures QuietProc(pr, rounds')
  {
    if pr.stage.Rounds() || pr.stage.Failed? {
      CountFrame(rounds, rounds', pr.round, pr.quiet);
      if pr.stage.Failed? {
        CountFrame(rounds, rounds', pr.round + 1, pr.quiet);
      }
    }
  }

  lemma QuietPass(pr: Proc, rounds: seq<Round>, n: nat)
    requires QuietProc(pr, rounds) && pr.stage.RoundWait? && pr.round < |rounds|
    ensures QuietProc(Judge(pr, rounds[pr.round], n), rounds)
  {
    CountNext(rounds, pr.round, pr.quiet);
  }

  lemma QuietSelf(job: Job, s: State, p: Pid, step: Step)
    requires |s.procs| == |job.programs| && Enabled(job, s, p, step) && BarrierInv(s)
    requires QuietProc(s.procs[p], s.rounds)
    ensures QuietProc(StepProc(job, s, p, step), s.rounds)
  {
    var pr := s.procs[p];
    assert BarrierProc(s, p);
    if step.Pass? {
      QuietPass(pr, s.rounds, |s.procs|);
    } else if step.DownloadEnd? && pr.stage.RoundDown? {
      CountNext(s.rounds, pr.round, pr.quiet);
    } else {
      QuietRest(job, s, p, step);
    }
  }

  lemma QuietRest(job: Job, s: State, p: Pid, step: Step)
    requires |s.procs| == |job.programs| && Enabled(job, s, p, step) && !step.Pass?
    requires !(step.DownloadEnd? && s.procs[p].stage.RoundDown?)
    requires QuietProc(s.procs[p], s.rounds)
    ensures QuietProc(StepProc(job, s, p, step), s.rounds)
  {
  }

  lemma RoundsKept(job: Job, s: State, p: Pid, step: Step)
    requires |s.procs| == |job.programs| && Enabled(job, s, p, step) && BarrierInv(s)
    ensures var rounds' := Apply(job, s, p, step).rounds;
            |s.rounds| <= |rounds'| && forall k :: 0 <= k && k + 1 < |s.rounds| ==> rounds'[k] == s.rounds[k]
  {
    assert BarrierProc(s, p);
    forall k: nat | k + 1 < |s.rounds| ensures Apply(job, s, p, step).rounds[k] == s.rounds[k] {
      FullRoundKept(job, s, p, step, k);
    }
  }

  lemma QuietStep(job: Job, s: State, p: Pid, step: Step)
    requires |s.procs| == |job.programs| && Enabled(job, s, p, step) && BarrierInv(s) && QuietInv(s)
    ensures QuietInv(Apply(job, s, p, step))
  {
    var s' := Apply(job, s, p, step);
    BarrierStep(job, s, p, step);
    RoundsKept(job, s, p, step);
    forall q: Pid | q < |s'.procs| ensures QuietProc(s'.procs[q], s'.rounds) {
      assert QuietProc(s.procs[q], s.rounds);
      assert BarrierProc(s, q) && BarrierProc(s', q);
      if q == p {
        QuietSelf(job, s, p, step);
      }
      QuietFrame(s'.procs[q], s.rounds, s'.rounds);
    }
  }

  lemma QuietNext(job: Job, s: State, s': State)
    requires Inv(job, s) && QuietInv(s) && Next(job, s, s')
    ensures QuietInv(s')
  {
    var p: Pid, step: Step :| Enabled(job, s, p, step) && s' == Apply(job, s, p, step);
    QuietStep(job, s, p, step);
  }

  lemma {:induction false} RunQuiet(job: Job, run: seq<State>, i: nat)
    requires WellFormed(job) && Run(job, run) && i < |run|
    ensures QuietInv(run[i])
  {
    if i == 0 {
      forall p: Pid | p < |run[0].procs| ensures QuietProc(run[0].procs[p], run[0].rounds) {
        assert InitProc(job, run[0], p);
      }
    } else {
      RunQuiet(job, run, i - 1);
      RunNext(job, run, i - 1);
      QuietNext(job, run[i - 1], run[i]);
    }
  }

  // ---- giving up ----

  /** The attempt fails exactly if the round does not succeed and no process uploaded a target in it and
      in the 199 rounds before. */
  lemma FailsIff(job: Job, run: seq<State>, i: nat, p: Pid)
    requires WellFormed(job) && Run(job, run) && i < |run| && |run[i].procs| == |job.programs|
    requires Enabled(job, run[i], p, Pass)
    ensures var k, pr' := run[i].procs[p].round, StepProc(job, run[i], p, Pass);
      pr'.stage.Failed? <==>
        && !pr'.stage.Done? && 200 <= k + 1
        && forall j: nat :: k + 1 - 200 <= j <= k ==> !Raised(run, i, j)
  {
    RunQuiet(job, run, i);
    var s := run[i];
    var k := s.procs[p].round;
    assert QuietProc(s.procs[p], s.rounds);
    CountNext(s.rounds, k, s.procs[p].quiet);
    forall j: nat | j <= k ensures Raised(run, i, j) <==> s.rounds[j].raised > 0 {
      RaisedIff(job, run, i, j);
    }
  }

  /** If one process gives up in a round, no process is past that round or succeeds in it. */
  lemma FailureIsAgreed(job: Job, run: seq<State>, i: nat, p: Pid, q: Pid)
    requires WellFormed(job) && Run(job, run) && i < |run| && p < |run[i].procs| && q < |run[i].procs|
    requires run[i].procs[p].stage.Failed?
    ensures !run[i].procs[q].stage.Done?
    ensures run[i].procs[q].stage.Rounds() || run[i].procs[q].stage.Failed? ==>
              run[i].procs[q].round <= run[i].procs[p].round
  {
    RunInv(job, run, i);
    RunQuiet(job, run, i);
    assert QuietProc(run[i].procs[p], run[i].rounds) && QuietProc(run[i].procs[q], run[i].rounds);
    if run[i].procs[q].stage.Done? {
      SuccessFreezes(job, run[i], q, p);
    }
  }

  // ---- no deadlock ----

  /** The steps of the checkpoint threads. */
  predicate IsDrainStep(step: Step) {
    || step.Join? || step.Upload? || step.ArriveShare? || step.PassShare? || step.Download? || step.DownloadEnd?
    || step.Lock? || step.Arrive? || step.Pass? || step.LockDownload?
  }

  predicate AtBarrier(stage: Stage) { stage.ShareWait? || stage.RoundWait? }

  predicate Ended(stage: Stage) { stage.Done? || stage.Failed? }

  lemma WorkingCanGoOn(job: Job, s: State, p: Pid) returns (step: Step)
    requires |s.procs| == |job.programs| && p < |s.procs|
    requires !AtBarrier(s.procs[p].stage) && !Ended(s.procs[p].stage)
    ensures IsDrainStep(step) && Enabled(job, s, p, step)
  {
    var stage := s.procs[p].stage;
    if stage.Idle? {
      step := Join;
    } else if stage.Ready? {
      step := Lock;
    } else if stage.Judged? {
      step := LockDownload;
    } else if g :| g in stage.Todo() {
      step := if stage.ShareUp? || stage.RoundUp? then Upload(g) else Download(g);
    } else {
      assert stage.Todo() == {};
      step := if stage.ShareUp? then ArriveShare else if stage.RoundUp? then Arrive else DownloadEnd;
    }
  }

  /** With all processes at barriers, the one in the oldest round can pass. */
  lemma WaitingCanGoOn(job: Job, s: State, q: Pid) returns (p: Pid)
    requires Inv(job, s) && QuietInv(s) && |s.procs| == |job.programs|
    requires q < |s.procs| && s.procs[q].stage.RoundWait?
    requires forall p: Pid :: p < |s.procs| ==> s.procs[p].stage.RoundWait? || Ended(s.procs[p].stage)
    ensures Enabled(job, s, p, Pass)
  {
    assert BarrierProc(s, q);
    var k := s.procs[q].round;
    if Full(s, k) {
      return q;
    }
    p :| p < |s.procs| && p !in s.rounds[k].arrived.Keys;
    assert BarrierProc(s, p) && !ArrivedAt(s.procs[p], k);
    assert Full(s, s.procs[p].round);
    OldestWaits(job, s, p, q);
  }

  /** A process that has ended is in the newest round that another one reached. */
  lemma OldestWaits(job: Job, s: State, p: Pid, q: Pid)
    requires Inv(job, s) && QuietInv(s) && p < |s.procs| && q < |s.procs|
    requires s.procs[p].stage.RoundWait? || Ended(s.procs[p].stage)
    requires s.procs[q].stage.RoundWait? && s.procs[p].round < s.procs[q].round
    ensures s.procs[p].stage.RoundWait?
  {
    assert QuietProc(s.procs[p], s.rounds) && QuietProc(s.procs[q], s.rounds);
    if s.procs[p].stage.Done? {
      SuccessFreezes(job, s, p, q);
    }
  }

  /** The attempt has no deadlock: until every process has succeeded or given up, some checkpoint thread
      can make its next step. */
  lemma DrainCanGoOn(job: Job, run: seq<State>, i: nat) returns (p: Pid, step: Step)
    requires WellFormed(job) && Run(job, run) && i < |run| && |run[i].procs| == |job.programs|
    requires exists q: Pid :: q < |run[i].procs| && !Ended(run[i].procs[q].stage)
    ensures IsDrainStep(step) && Enabled(job, run[i], p, step)
  {
    var s := run[i];
    RunInv(job, run, i);
    RunQuiet(job, run, i);
    if q: Pid :| q < |s.procs| && !AtBarrier(s.procs[q].stage) && !Ended(s.procs[q].stage) {
      p := q;
      step := WorkingCanGoOn(job, s, p);
    } else if q: Pid :| q < |s.procs| && s.procs[q].stage.ShareWait? {
      p, step := q, PassShare;
      forall r: Pid | r < |s.procs| ensures r in s.shared {
        assert BarrierProc(s, r);
      }
    } else {
      var q: Pid :| q < |s.procs| && !Ended(s.procs[q].stage);
      p := WaitingCanGoOn(job, s, q);
      step := Pass;
    }
  }

  /** A thread that is to begin a call waits exactly while a checkpoint is pending and every clock has
      reached its target, or while the checkpoint thread holds the lock. */
  lemma BeginWaitsIff(job: Job, s: State, p: Pid)
    requires |s.procs| == |job.programs| && p < |s.procs|
    requires !s.procs[p].inCs && s.procs[p].pc < |job.programs[p]| && !s.procs[p].stage.Locked()
    ensures Enabled(job, s, p, Begin) <==>
              !s.procs[p].pending ||
              exists g :: g in s.procs[p].clocks && s.procs[p].clocks[g].calls < s.procs[p].clocks[g].target
  {
  }

  /** After a failed attempt the process lets its threads go on. */
  lemma ReleaseLetsBegin(job: Job, s: State, p: Pid)
    requires |s.procs| == |job.programs| && p < |s.procs| && s.procs[p].stage.Failed?
    requires !s.procs[p].inCs && s.procs[p].pc < |job.programs[p]|
    ensures Enabled(job, s, p, Release) && Enabled(job, Apply(job, s, p, Release), p, Begin)
  {
  }

  lemma ThenApply(job: Job, path: seq<State>, p: Pid, step: Step) returns (path': seq<State>)
    requires PathOf(job, path, p) && IsApp(step) && Enabled(job, path[|path| - 1], p, step)
    ensures PathOf(job, path', p) && path'[0] == path[0]
    ensures path'[|path'| - 1] == Apply(job, path[|path| - 1], p, step)
  {
    path' := path + [Apply(job, path[|path| - 1], p, step)];
    forall i | 0 <= i < |path'| - 1 ensures NextOf(job, path'[i], path'[i + 1], p) {
      assert i < |path| - 1 ==> NextOf(job, path[i], path[i + 1], p);
    }
  }

  ghost predicate NextOf(job: Job, s: State, s': State, p: Pid) {
    && |s.procs| == |job.programs| == |s'.procs|
    && exists step: Step :: IsApp(step) && Enabled(job, s, p, step) && s' == Apply(job, s, p, step)
  }

  /** A path by steps of the application thread of p alone. */
  ghost predicate PathOf(job: Job, path: seq<State>, p: Pid) {
    && |path| > 0 && |path[|path| - 1].procs| == |job.programs|
    && forall i :: 0 <= i < |path| - 1 ==> NextOf(job, path[i], path[i + 1], p)
  }

  /** The call that the process is in. */
  function CallAt(job: Job, s: State, p: Pid): Call
    requires p < |s.procs| == |job.programs| && 0 < s.procs[p].pc <= |job.programs[p]|
  {
    job.programs[p][s.procs[p].pc - 1]
  }

  /** Adds the clock that the call makes, if it is still to be added. */
  lemma AddIfNeeded(job: Job, s: State, p: Pid) returns (path: seq<State>)
    requires p < |s.procs| == |job.programs| && 0 < s.procs[p].pc <= |job.programs[p]|
    requires s.procs[p].inCs && !s.procs[p].stage.Locked()
    requires CallAt(job, s, p).CreateGroup? ==> AllEntered(job, s, CallAt(job, s, p).gid)
    ensures PathOf(job, path, p) && path[0] == s && p < |path[|path| - 1].procs|
    ensures var pr, pr' := s.procs[p], path[|path| - 1].procs[p];
            && pr'.inCs && pr'.pc == pr.pc && pr'.started == pr.started
            && (Made(CallAt(job, s, p)).Some? ==> Made(CallAt(job, s, p)).value in pr'.clocks)
  {
    path := [s];
    var call := CallAt(job, s, p);
    if Made(call).Some? && Made(call).value !in s.procs[p].clocks {
      path := ThenApply(job, path, p, Add);
    }
  }

  /** A thread in a critical section can leave it by its own steps, unless it waits for the checkpoint
      thread's lock, or for another member of the communicator that its MPI_Comm_create_group makes. */
  lemma CriticalSectionCanEnd(job: Job, s: State, p: Pid) returns (path: seq<State>)
    requires p < |s.procs| == |job.programs| && 0 < s.procs[p].pc <= |job.programs[p]|
    requires s.procs[p].inCs && !s.procs[p].stage.Locked()
    requires CallAt(job, s, p).CreateGroup? ==> AllEntered(job, s, CallAt(job, s, p).gid)
    ensures PathOf(job, path, p) && path[0] == s && p < |path[|path| - 1].procs|
    ensures !path[|path| - 1].procs[p].inCs && path[|path| - 1].procs[p].pc == s.procs[p].pc
  {
    path := AddIfNeeded(job, s, p);
    var call := CallAt(job, s, p);
    if call.Free? && call.gid !in path[|path| - 1].procs[p].started {
      path := ThenApply(job, path, p, StartFree);
    }
    path := ThenApply(job, path, p, Finish);
  }

  // ---- what is uploaded ----

  /** Only communicators with other members are uploaded. */
  ghost predicate PeersOnly(job: Job, pr: Proc) {
    pr.stage.Active() ==>
      && (forall g :: g in pr.raised ==> HasPeers(job, g))
      && (pr.stage.RoundUp? ==> forall g :: g in pr.stage.todo ==> HasPeers(job, g))
  }

  lemma PeersStep(job: Job, s: State, p: Pid, step: Step)
    requires |s.procs| == |job.programs| && Enabled(job, s, p, step) && PeersOnly(job, s.procs[p])
    ensures PeersOnly(job, StepProc(job, s, p, step))
  {
  }

  /** In a round, a process uploads only what concerns another process. */
  lemma {:induction false} UploadsHavePeers(job: Job, run: seq<State>, i: nat, p: Pid)
    requires WellFormed(job) && Run(job, run) && i < |run| && p < |run[i].procs|
    ensures PeersOnly(job, run[i].procs[p])
  {
    if i == 0 {
      assert InitProc(job, run[0], p);
    } else {
      RunNext(job, run, i - 1);
      var q: Pid, step: Step :| Enabled(job, run[i - 1], q, step) && run[i] == Apply(job, run[i - 1], q, step);
      UploadsHavePeers(job, run, i - 1, p);
      if q == p {
        PeersStep(job, run[i - 1], p, step);
      }
    }
  }
}
