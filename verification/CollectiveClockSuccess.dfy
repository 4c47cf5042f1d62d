/**
When a round of the Collective Clock drain succeeds, over every run: exactly if every process arrived
with its targets reached, outside a critical section, and no process uploaded a target in the round.
And that an attempt gives up only after MAX_DRAIN_ROUNDS rounds in which no process did.
*/
module CollectiveClockSuccess {
  import opened Common
  import opened MpiJob
  import opened CollectiveClock
  import opened CollectiveClockInvariant
  import opened CollectiveClockBarrier
  import opened CollectiveClockDrain

  lemma RunNext(job: Job, run: seq<State>, i: nat)
    requires WellFormed(job) && Run(job, run) && i + 1 < |run|
    ensures Inv(job, run[i]) && |run[i].procs| == |job.programs| && Next(job, run[i], run[i + 1])
  {
    RunInv(job, run, i);
    assert StepAt(job, run, i);
  }

  /** The process is outside a critical section and has made as many calls as its targets ask for. */
  predicate Converged(pr: Proc) {
    !pr.inCs && forall g :: g in pr.clocks ==> pr.clocks[g].target <= pr.clocks[g].calls
  }

  /** From s to s', process q adds its numbers to round k and joins the barrier. */
  ghost predicate Arrives(s: State, s': State, q: Pid, k: nat) {
    && q < |s.procs| == |s'.procs|
    && s.procs[q].stage.RoundUp? && s.procs[q].round == k && s'.procs[q].stage.RoundWait?
  }

  /** From s to s', process q uploads the sequence number of a gid in round k. */
  ghost predicate Uploads(s: State, s': State, q: Pid, k: nat) {
    && q < |s.procs| == |s'.procs|
    && s.procs[q].stage.RoundUp? && s.procs[q].round == k
    && s'.procs[q].stage.RoundUp? && s'.procs[q].stage != s.procs[q].stage
  }

  ghost predicate ArrivesAt(run: seq<State>, a: nat, q: Pid, k: nat) {
    a + 1 < |run| && Arrives(run[a], run[a + 1], q, k)
  }

  ghost predicate UploadsAt(run: seq<State>, j: nat, q: Pid, k: nat) {
    j + 1 < |run| && Uploads(run[j], run[j + 1], q, k)
  }

  predicate RaisedIn(s: State, k: nat) { k < |s.rounds| && s.rounds[k].raised > 0 }

  predicate HasSample(s: State, k: nat, q: Pid) { k < |s.rounds| && q in s.rounds[k].arrived }

  // ---- one step ----

  lemma ArrivalIsStep(job: Job, s: State, s': State, q: Pid, k: nat)
    requires Inv(job, s) && Next(job, s, s') && Arrives(s, s', q, k)
    ensures Enabled(job, s, q, Arrive) && s' == Apply(job, s, q, Arrive)
  {
    var p: Pid, step: Step :| Enabled(job, s, p, step) && s' == Apply(job, s, p, step);
    assert p == q && step.Arrive?;
  }

  lemma ArrivalNext(job: Job, s: State, s': State, q: Pid, k: nat)
    requires Inv(job, s) && Next(job, s, s') && Arrives(s, s', q, k)
    ensures HasSample(s', k, q) && (s'.rounds[k].arrived[q] == Sample(true, false) <==> Converged(s.procs[q]))
  {
    ArrivalIsStep(job, s, s', q, k);
    assert BarrierProc(s, q);
  }

  lemma SampleNext(job: Job, s: State, s': State, q: Pid, k: nat)
    requires Inv(job, s) && Next(job, s, s') && HasSample(s, k, q)
    ensures HasSample(s', k, q) && s'.rounds[k].arrived[q] == s.rounds[k].arrived[q]
  {
    var p: Pid, step: Step :| Enabled(job, s, p, step) && s' == Apply(job, s, p, step);
    assert BarrierProc(s, p);
    if step.Arrive? {
      ArriveKeepsSample(job, s, p, q, k);
    }
  }

  lemma ArriveKeepsSample(job: Job, s: State, p: Pid, q: Pid, k: nat)
    requires Inv(job, s) && |s.procs| == |job.programs| && Enabled(job, s, p, Arrive) && HasSample(s, k, q)
    ensures var s' := Apply(job, s, p, Arrive);
            HasSample(s', k, q) && s'.rounds[k].arrived[q] == s.rounds[k].arrived[q]
  {
    assert BarrierProc(s, p);
  }

  lemma SampleFrom(job: Job, s: State, s': State, q: Pid, k: nat)
    requires Inv(job, s) && Next(job, s, s') && HasSample(s', k, q)
    ensures HasSample(s, k, q) || Arrives(s, s', q, k)
  {
    var p: Pid, step: Step :| Enabled(job, s, p, step) && s' == Apply(job, s, p, step);
    assert BarrierProc(s, p);
  }

  lemma UploadIsStep(job: Job, s: State, s': State, q: Pid, k: nat)
    requires Inv(job, s) && Next(job, s, s') && Uploads(s, s', q, k)
    ensures exists g :: Enabled(job, s, q, Upload(g)) && s' == Apply(job, s, q, Upload(g))
  {
    var p: Pid, step: Step :| Enabled(job, s, p, step) && s' == Apply(job, s, p, step);
    assert p == q && step.Upload?;
  }

  lemma UploadNext(job: Job, s: State, s': State, q: Pid, k: nat)
    requires Inv(job, s) && Next(job, s, s') && Uploads(s, s', q, k)
    ensures RaisedIn(s', k)
  {
    UploadIsStep(job, s, s', q, k);
    var g :| Enabled(job, s, q, Upload(g)) && s' == Apply(job, s, q, Upload(g));
    assert BarrierProc(s, q);
  }

  lemma RaisedNext(job: Job, s: State, s': State, k: nat)
    requires Inv(job, s) && Next(job, s, s') && RaisedIn(s, k)
    ensures RaisedIn(s', k)
  {
    var p: Pid, step: Step :| Enabled(job, s, p, step) && s' == Apply(job, s, p, step);
    assert BarrierProc(s, p);
  }

  lemma RaisedFrom(job: Job, s: State, s': State, k: nat) returns (q: Pid)
    requires Inv(job, s) && Next(job, s, s') && RaisedIn(s', k)
    ensures RaisedIn(s, k) || Uploads(s, s', q, k)
  {
    var p: Pid, step: Step :| Enabled(job, s, p, step) && s' == Apply(job, s, p, step);
    assert BarrierProc(s, p);
    q := p;
    if step.Upload? {
      RaisedUpload(job, s, p, step.gid, k);
    }
  }

  lemma RaisedUpload(job: Job, s: State, p: Pid, g: Gid, k: nat)
    requires Inv(job, s) && |s.procs| == |job.programs| && Enabled(job, s, p, Upload(g))
    requires RaisedIn(Apply(job, s, p, Upload(g)), k)
    ensures RaisedIn(s, k) || Uploads(s, Apply(job, s, p, Upload(g)), p, k)
  {
  }

  // ---- over the run ----

  lemma SampleAt(job: Job, run: seq<State>, i: nat, q: Pid, k: nat)
    requires WellFormed(job) && Run(job, run) && i + 1 < |run| && HasSample(run[i], k, q)
    ensures HasSample(run[i + 1], k, q) && run[i + 1].rounds[k].arrived[q] == run[i].rounds[k].arrived[q]
  {
    RunNext(job, run, i);
    SampleNext(job, run[i], run[i + 1], q, k);
  }

  lemma {:induction false} SampleStays(job: Job, run: seq<State>, j: nat, i: nat, q: Pid, k: nat)
    requires WellFormed(job) && Run(job, run) && j <= i < |run| && HasSample(run[j], k, q)
    ensures HasSample(run[i], k, q) && run[i].rounds[k].arrived[q] == run[j].rounds[k].arrived[q]
    decreases i
  {
    if j < i {
      SampleStays(job, run, j, i - 1, q, k);
      SampleAt(job, run, i - 1, q, k);
    }
  }

  lemma ArrivalSample(job: Job, run: seq<State>, a: nat, i: nat, q: Pid, k: nat)
    requires WellFormed(job) && Run(job, run) && a < i < |run| && ArrivesAt(run, a, q, k)
    ensures HasSample(run[i], k, q)
    ensures run[i].rounds[k].arrived[q] == Sample(true, false) <==> Converged(run[a].procs[q])
  {
    RunNext(job, run, a);
    ArrivalNext(job, run[a], run[a + 1], q, k);
    SampleStays(job, run, a + 1, i, q, k);
  }

  lemma {:induction false} SampleArrival(job: Job, run: seq<State>, i: nat, q: Pid, k: nat) returns (a: nat)
    requires WellFormed(job) && Run(job, run) && i < |run| && HasSample(run[i], k, q)
    ensures a < i && ArrivesAt(run, a, q, k)
  {
    if i == 0 {
      assert false;
    }
    RunNext(job, run, i - 1);
    SampleFrom(job, run[i - 1], run[i], q, k);
    if HasSample(run[i - 1], k, q) {
      a := SampleArrival(job, run, i - 1, q, k);
    } else {
      a := i - 1;
    }
  }

  lemma RaisedAt(job: Job, run: seq<State>, i: nat, k: nat)
    requires WellFormed(job) && Run(job, run) && i + 1 < |run| && RaisedIn(run[i], k)
    ensures RaisedIn(run[i + 1], k)
  {
    RunNext(job, run, i);
    RaisedNext(job, run[i], run[i + 1], k);
  }

  lemma {:induction false} RaisedStays(job: Job, run: seq<State>, j: nat, i: nat, k: nat)
    requires WellFormed(job) && Run(job, run) && j <= i < |run| && RaisedIn(run[j], k)
    ensures RaisedIn(run[i], k)
    decreases i
  {
    if j < i {
      RaisedStays(job, run, j, i - 1, k);
      RaisedAt(job, run, i - 1, k);
    }
  }

  lemma UploadRaises(job: Job, run: seq<State>, j: nat, i: nat, q: Pid, k: nat)
    requires WellFormed(job) && Run(job, run) && j < i < |run| && UploadsAt(run, j, q, k)
    ensures RaisedIn(run[i], k)
  {
    RunNext(job, run, j);
    UploadNext(job, run[j], run[j + 1], q, k);
    RaisedStays(job, run, j + 1, i, k);
  }

  lemma {:induction false} RaisedByUpload(job: Job, run: seq<State>, i: nat, k: nat) returns (j: nat, q: Pid)
    requires WellFormed(job) && Run(job, run) && i < |run| && RaisedIn(run[i], k)
    ensures j < i && UploadsAt(run, j, q, k)
  {
    if i == 0 {
      assert false;
    }
    RunNext(job, run, i - 1);
    q := RaisedFrom(job, run[i - 1], run[i], k);
    j := i - 1;
    if RaisedIn(run[i - 1], k) {
      j, q := RaisedByUpload(job, run, i - 1, k);
    }
  }

  // ---- success ----

  /** Before state i, process q arrived at round k with its targets reached, outside a critical section. */
  ghost predicate ArrivedConverged(run: seq<State>, i: nat, q: Pid, k: nat) {
    exists a: nat :: a < i && ArrivesAt(run, a, q, k) && Converged(run[a].procs[q])
  }

  /** Before state i, a process uploaded a target in round k. */
  ghost predicate Raised(run: seq<State>, i: nat, k: nat) {
    exists j: nat, q: Pid :: j < i && UploadsAt(run, j, q, k)
  }

  lemma RaisedIff(job: Job, run: seq<State>, i: nat, k: nat)
    requires WellFormed(job) && Run(job, run) && i < |run| && k < |run[i].rounds|
    ensures Raised(run, i, k) <==> run[i].rounds[k].raised > 0
  {
    if Raised(run, i, k) {
      var j: nat, q: Pid :| j < i && UploadsAt(run, j, q, k);
      UploadRaises(job, run, j, i, q, k);
    }
    if run[i].rounds[k].raised > 0 {
      var j, q := RaisedByUpload(job, run, i, k);
    }
  }

  lemma ConvergedIff(job: Job, run: seq<State>, i: nat, q: Pid, k: nat)
    requires WellFormed(job) && Run(job, run) && i < |run| && HasSample(run[i], k, q)
    ensures ArrivedConverged(run, i, q, k) <==> run[i].rounds[k].arrived[q] == Sample(true, false)
  {
    var a := SampleArrival(job, run, i, q, k);
    ArrivalSample(job, run, a, i, q, k);
    if ArrivedConverged(run, i, q, k) {
      var b: nat :| b < i && ArrivesAt(run, b, q, k) && Converged(run[b].procs[q]);
      ArrivalSample(job, run, b, i, q, k);
    }
  }

  /** The counters of a full round say success exactly if the samples do. */
  lemma TalliedSuccess(s: State, k: nat)
    requires TallyInv(s) && k < |s.rounds| && Full(s, k)
    ensures Success(s.rounds[k], |s.procs|) <==>
              && s.rounds[k].raised == 0
              && forall q: Pid :: q < |s.procs| ==> s.rounds[k].arrived[q] == Sample(true, false)
  {
    var r := s.rounds[k];
    if Success(r, |s.procs|) {
      SuccessMeans(s, k);
    } else if r.raised == 0 && forall q: Pid :: q < |s.procs| ==> r.arrived[q] == Sample(true, false) {
      AllCounted(|s.procs|, ReachedIn(r));
    }
  }

  lemma {:induction false} AllCounted(n: nat, pids: set<Pid>)
    requires AllIn(n, pids) && forall q :: q in pids ==> q < n
    ensures |pids| == n
  {
    if n > 0 {
      var rest := pids - {n - 1};
      AllCounted(n - 1, rest);
      assert pids == rest + {n - 1};
    } else {
      assert pids == {};
    }
  }

  lemma AllConvergedIff(job: Job, run: seq<State>, i: nat, k: nat)
    requires WellFormed(job) && Run(job, run) && i < |run| && k < |run[i].rounds| && Full(run[i], k)
    ensures AllConverged(run, i, k) <==>
              forall q: Pid :: q < |run[i].procs| ==> run[i].rounds[k].arrived[q] == Sample(true, false)
  {
    forall q: Pid | q < |run[i].procs|
      ensures ArrivedConverged(run, i, q, k) <==> run[i].rounds[k].arrived[q] == Sample(true, false)
    {
      assert q in run[i].rounds[k].arrived.Keys;
      ConvergedIff(job, run, i, q, k);
    }
  }

  /** Before state i, every process arrived at round k like that. */
  ghost predicate AllConverged(run: seq<State>, i: nat, k: nat)
    requires i < |run|
  {
    forall q: Pid :: q < |run[i].procs| ==> ArrivedConverged(run, i, q, k)
  }

  /** A round succeeds when it should, and only then: a process that passes the barrier of round k ends
      the drain exactly if every process arrived there with its targets reached, outside a critical
      section, and no process uploaded a target in the round. */
  lemma SuccessIff(job: Job, run: seq<State>, i: nat, p: Pid)
    requires WellFormed(job) && Run(job, run) && i < |run| && |run[i].procs| == |job.programs|
    requires Enabled(job, run[i], p, Pass)
    ensures var k := run[i].procs[p].round;
      StepProc(job, run[i], p, Pass).stage.Done? <==> !Raised(run, i, k) && AllConverged(run, i, k)
  {
    var k := run[i].procs[p].round;
    RunTally(job, run, i);
    TalliedSuccess(run[i], k);
    RaisedIff(job, run, i, k);
    AllConvergedIff(job, run, i, k);
  }

  lemma RunTally(job: Job, run: seq<State>, i: nat)
    requires WellFormed(job) && Run(job, run) && i < |run|
    ensures TallyInv(run[i])
  {
    RunInv(job, run, i);
  }
}
