/**
The Collective Clock drain (src/seq_num.cpp) as a transition system over all
processes of a job.  Each process has an application thread, which makes the calls
of its program, and a checkpoint thread, which runs one drain attempt.  Each step is
atomic: a section under seq_num_lock that makes no request to the coordinator, or
one request to the coordinator.  So a process may upload for the next round while
another one still downloads for the last one.

A state is one attempt, started at any point of the job: a process that is Idle has
not joined it yet, and may still hold the flags and targets of an earlier attempt.
*/
module CollectiveClock {
  import opened Common
  import opened MpiJob

  const MAX_DRAIN_ROUNDS: nat := 200

  datatype Clock = Clock(calls: nat, target: nat)

  /** Where the checkpoint thread of a process is.  'todo' has the gids whose request to
      the coordinator is still to be made. */
  datatype Stage =
    | Idle                          // not in the attempt yet
    | ShareUp(todo: set<Gid>)       // share_seq_nums(): uploads, under the lock
    | ShareWait                     //   at its barrier, under the lock
    | ShareDown(todo: set<Gid>)     //   downloads, under the lock
    | Ready                         // before the lock section of the round
    | AddDown(todo: set<Gid>)       // downloads since a clock was added, under the lock
    | RoundUp(todo: set<Gid>)       // upload_raised_targets(), under the lock
    | RoundWait                     // at the barrier of the round
    | Judged                        // the round raised a target
    | RoundDown(todo: set<Gid>)     // download_raised_targets(), under the lock
    | Done                          // try_drain_mpi_collective() returned true
    | Failed                        //   or false
  {
    predicate Locked() {
      ShareUp? || ShareWait? || ShareDown? || AddDown? || RoundUp? || RoundDown?
    }
    predicate Active() { !Idle? && !Failed? }
    /** The process has downloaded the targets shared at the start of the attempt. */
    predicate Rounds() {
      Ready? || AddDown? || RoundUp? || RoundWait? || Judged? || RoundDown? || Done?
    }
    /** The process has arrived at the barrier of its round. */
    predicate Arrived() { RoundWait? || Judged? || RoundDown? || Done? || Failed? }
    function Todo(): set<Gid> {
      if ShareUp? || ShareDown? || AddDown? || RoundUp? || RoundDown? then todo else {}
    }
  }

  /** pc is the number of calls begun; inCs is current_phase == IN_CS; snap is the pc at
      which the process joined the attempt.  'started' has the communicators whose MPI_Comm_free
      barrier the process started, and 'frees' (pending_frees) those whose barrier it still tests. */
  datatype Proc = Proc(
    pc: nat, inCs: bool, clocks: map<Gid, Clock>, started: set<Gid>, frees: set<Gid>,
    raised: set<Gid>, added: bool, pending: bool, stage: Stage, round: nat, quiet: nat, snap: nat)

  /** check_seq_nums() */
  predicate AllReached(clocks: map<Gid, Clock>) {
    forall g :: g in clocks ==> clocks[g].target <= clocks[g].calls
  }

  /** What a process adds to the counters of a round. */
  datatype Sample = Sample(reached: bool, cs: bool)

  /** The KVDB records of one round.  'base' is the table when the round opened. */
  datatype Round = Round(
    base: map<Gid, nat>, arrived: map<Pid, Sample>, converged: nat, inCs: bool,
    raised: nat, list: set<Gid>)

  /** 'table' is the attempt's KVDB of maxima; 'shared' has the processes at or past the
      barrier of share_seq_nums(). */
  datatype State = State(procs: seq<Proc>, table: map<Gid, nat>, shared: set<Pid>, rounds: seq<Round>)

  function Max(a: nat, b: nat): nat { if a < b then b else a }

  /** The value of g in the table; 0 if the KVDB has none. */
  function At(table: map<Gid, nat>, g: Gid): nat { if g in table then table[g] else 0 }

  function UploadMax(table: map<Gid, nat>, g: Gid, calls: nat): map<Gid, nat> {
    table[g := Max(At(table, g), calls)]
  }

  predicate AllIn(n: nat, pids: set<Pid>) { forall q: Pid :: q < n ==> q in pids }

  function OpenRound(table: map<Gid, nat>): Round { Round(table, map[], 0, false, 0, {}) }

  // ---- the application thread ----

  /** begin_critical_section() passes wait_while_targets_reached(). */
  predicate MayBegin(pr: Proc) {
    !pr.stage.Locked() && !pr.inCs && !(pr.pending && AllReached(pr.clocks))
  }

  /** The rest of begin_critical_section() for a call that the clock of g counts; 'size'
      is the number of members of g. */
  function CountCall(pr: Proc, g: Gid, size: nat): Proc {
    if g !in pr.clocks then pr
    else
      var c := Clock(pr.clocks[g].calls + 1, pr.clocks[g].target);
      if pr.pending && c.calls > c.target then
        pr.(clocks := pr.clocks[g := Clock(c.calls, c.calls)],
            raised := if size > 1 then pr.raised + {g} else pr.raised)
      else pr.(clocks := pr.clocks[g := c])
  }

  function BeginCall(job: Job, pr: Proc, call: Call): Proc {
    var pr' := pr.(pc := pr.pc + 1, inCs := true);
    match CountedOn(call)
    case Some(g) => CountCall(pr', g, if g in job.members then |job.members[g]| else 0)
    case None => pr'
  }

  /** add_comm_clock() */
  function AddClock(pr: Proc, g: Gid): Proc {
    pr.(clocks := pr.clocks[g := Clock(0, 0)], added := pr.added || pr.pending)
  }

  ghost predicate AllFreed(job: Job, s: State, g: Gid) {
    forall q: Pid :: q < |s.procs| && q < |job.programs| && Member(job, q, g) ==>
      s.procs[q].pc <= |job.programs[q]| && FreedBefore(job.programs[q], s.procs[q].pc, g)
  }

  /** MPI_Ibarrier() on g completes: every member has started it. */
  ghost predicate AllStarted(job: Job, s: State, g: Gid) {
    forall q: Pid :: q < |s.procs| && Member(job, q, g) ==> g in s.procs[q].started
  }

  /** start_comm_free_barrier(), in the critical section of MPI_Comm_free */
  function StartBarrier(pr: Proc, g: Gid): Proc {
    pr.(started := pr.started + {g}, frees := pr.frees + {g})
  }

  /** finish_free(), once the barrier is complete */
  function EraseClock(pr: Proc, g: Gid): Proc {
    pr.(clocks := pr.clocks - {g}, frees := pr.frees - {g})
  }

  /** Every member of g has entered the MPI_Comm_create_group that makes g. */
  ghost predicate AllEntered(job: Job, s: State, g: Gid) {
    forall q: Pid :: q < |s.procs| && q < |job.programs| && Member(job, q, g) ==>
      s.procs[q].pc <= |job.programs[q]| && MadeBefore(job.programs[q], s.procs[q].pc, g)
  }

  // ---- the checkpoint thread ----

  /** drain_mpi_collective() up to the uploads of share_seq_nums(). */
  function JoinAttempt(pr: Proc): Proc {
    pr.(pending := true, raised := {}, added := false, stage := ShareUp(pr.clocks.Keys),
        round := 0, quiet := 0, snap := pr.pc)
  }

  /** The gids that upload_raised_targets() uploads, and an empty raised_clocks. */
  function StartUpload(pr: Proc): Proc {
    pr.(stage := RoundUp(pr.raised * pr.clocks.Keys), raised := {})
  }

  function EnterRound(pr: Proc): Proc {
    if pr.added then pr.(stage := AddDown(pr.clocks.Keys), added := false) else StartUpload(pr)
  }

  function Uploaded(pr: Proc, g: Gid): Proc {
    match pr.stage
    case ShareUp(todo) => pr.(stage := ShareUp(todo - {g}))
    case RoundUp(todo) => pr.(stage := RoundUp(todo - {g}))
    case _ => pr
  }

  function Downloaded(pr: Proc, g: Gid, table: map<Gid, nat>): Proc {
    var pr' :=
      if g in pr.clocks && g in table
      then pr.(clocks := pr.clocks[g := pr.clocks[g].(target := table[g])]) else pr;
    match pr.stage
    case ShareDown(todo) => pr'.(stage := ShareDown(todo - {g}))
    case AddDown(todo) => pr'.(stage := AddDown(todo - {g}))
    case RoundDown(todo) => pr'.(stage := RoundDown(todo - {g}))
    case _ => pr'
  }

  function EndDownload(pr: Proc): Proc {
    match pr.stage
    case ShareDown(_) => pr.(stage := Ready)
    case AddDown(_) => StartUpload(pr)
    case RoundDown(_) => pr.(stage := Ready, round := pr.round + 1, quiet := 0)
    case _ => pr
  }

  predicate Success(r: Round, n: nat) { !r.inCs && r.converged == n && r.raised == 0 }

  /** What a process does with the counters of a round that all processes reached. */
  function Judge(pr: Proc, r: Round, n: nat): Proc {
    if Success(r, n) then pr.(stage := Done)
    else if r.raised > 0 then pr.(stage := Judged)
    else if pr.quiet + 1 < MAX_DRAIN_ROUNDS then
      pr.(stage := Ready, round := pr.round + 1, quiet := pr.quiet + 1)
    else pr.(stage := Failed)
  }

  function StartDownload(pr: Proc, r: Round): Proc {
    pr.(stage := RoundDown(if r.raised >= |pr.clocks| then pr.clocks.Keys else r.list * pr.clocks.Keys))
  }

  function AddSample(r: Round, p: Pid, pr: Proc): Round {
    var reached := AllReached(pr.clocks);
    r.(arrived := r.arrived[p := Sample(reached, pr.inCs)],
       converged := r.converged + (if reached then 1 else 0), inCs := r.inCs || pr.inCs)
  }

  // ---- steps ----

  datatype Step =
    | Begin                 // the application thread begins its next call
    | Add                   //   adds the clock of the communicator that the call makes
    | StartFree             //   starts the barrier of its MPI_Comm_free
    | Finish                //   leaves the critical section
    | Erase(gid: Gid)       //   finish_free(): tests such a barrier
    | Join
    | Upload(gid: Gid)
    | ArriveShare
    | PassShare
    | Download(gid: Gid)
    | DownloadEnd
    | Lock
    | Arrive
    | Pass
    | LockDownload
    | Release               // ckpt_pending = false after a failed attempt

  ghost predicate Enabled(job: Job, s: State, p: Pid, step: Step)
    requires |s.procs| == |job.programs|
  {
    p < |s.procs| &&
    var pr := s.procs[p];
    match step
    case Begin => pr.pc < |job.programs[p]| && MayBegin(pr)
    case Add =>
      && pr.inCs && !pr.stage.Locked() && 0 < pr.pc <= |job.programs[p]|
      && var call := job.programs[p][pr.pc - 1];
      && Made(call).Some? && Made(call).value !in pr.clocks
      && (call.CreateGroup? ==> AllEntered(job, s, call.gid))
    case StartFree =>
      && pr.inCs && 0 < pr.pc <= |job.programs[p]|
      && job.programs[p][pr.pc - 1].Free? && job.programs[p][pr.pc - 1].gid !in pr.started
    case Finish =>
      && pr.inCs && 0 < pr.pc <= |job.programs[p]|
      && var call := job.programs[p][pr.pc - 1];
      && (Made(call).Some? ==> Made(call).value in pr.clocks)
      && (call.Free? ==> call.gid in pr.started)
    case Erase(g) =>
      !pr.inCs && !pr.stage.Locked() && g in pr.frees && AllStarted(job, s, g)
    case Join => pr.stage.Idle?
    case Upload(g) => (pr.stage.ShareUp? || pr.stage.RoundUp?) && g in pr.stage.todo
    case ArriveShare => pr.stage == ShareUp({})
    case PassShare => pr.stage.ShareWait? && AllIn(|s.procs|, s.shared)
    case Download(g) =>
      (pr.stage.ShareDown? || pr.stage.AddDown? || pr.stage.RoundDown?) && g in pr.stage.todo
    case DownloadEnd =>
      (pr.stage.ShareDown? || pr.stage.AddDown? || pr.stage.RoundDown?) && pr.stage.todo == {}
    case Lock => pr.stage.Ready?
    case Arrive => pr.stage == RoundUp({})
    case Pass =>
      pr.stage.RoundWait? && pr.round < |s.rounds| && AllIn(|s.procs|, s.rounds[pr.round].arrived.Keys)
    case LockDownload => pr.stage.Judged?
    case Release => pr.stage.Idle? || pr.stage.Failed?
  }

  /** The process after the step. */
  ghost function StepProc(job: Job, s: State, p: Pid, step: Step): Proc
    requires |s.procs| == |job.programs| && Enabled(job, s, p, step)
  {
    var pr := s.procs[p];
    match step
    case Begin => BeginCall(job, pr, job.programs[p][pr.pc])
    case Add => AddClock(pr, Made(job.programs[p][pr.pc - 1]).value)
    case StartFree => StartBarrier(pr, job.programs[p][pr.pc - 1].gid)
    case Finish => pr.(inCs := false)
    case Erase(g) => EraseClock(pr, g)
    case Join => JoinAttempt(pr)
    case Upload(g) => Uploaded(pr, g)
    case ArriveShare => pr.(stage := ShareWait)
    case PassShare => pr.(stage := ShareDown(pr.clocks.Keys))
    case Download(g) => Downloaded(pr, g, s.table)
    case DownloadEnd => EndDownload(pr)
    case Lock => EnterRound(pr)
    case Arrive => pr.(stage := RoundWait)
    case Pass => Judge(pr, s.rounds[pr.round], |s.procs|)
    case LockDownload =>
      if pr.round < |s.rounds| then StartDownload(pr, s.rounds[pr.round]) else pr
    case Release => pr.(pending := false)
  }

  /** upload_seq(), and in a round the entry in the list of raised gids. */
  ghost function UploadKvdb(s: State, pr: Proc, g: Gid): State {
    var s' := if g in pr.clocks then s.(table := UploadMax(s.table, g, pr.clocks[g].calls)) else s;
    if pr.stage.RoundUp? && pr.round < |s.rounds| then
      var r := s.rounds[pr.round];
      s'.(rounds := s.rounds[pr.round := r.(raised := r.raised + 1, list := r.list + {g})])
    else s'
  }

  /** The process joins the barrier of share_seq_nums(); the last one opens round 0. */
  ghost function ArriveShareKvdb(s: State, p: Pid): State {
    var shared := s.shared + {p};
    s.(shared := shared, rounds := if AllIn(|s.procs|, shared) then [OpenRound(s.table)] else s.rounds)
  }

  /** The process adds its sample and joins the barrier of the round; the last one opens
      the next round. */
  ghost function ArriveKvdb(s: State, p: Pid, pr: Proc): State {
    if pr.round < |s.rounds| then
      var r := AddSample(s.rounds[pr.round], p, pr);
      var rounds := s.rounds[pr.round := r];
      s.(rounds := if AllIn(|s.procs|, r.arrived.Keys) then rounds + [OpenRound(s.table)] else rounds)
    else s
  }

  /** The shared records after the step. */
  ghost function StepKvdb(s: State, p: Pid, step: Step): State
    requires p < |s.procs|
  {
    match step
    case Upload(g) => UploadKvdb(s, s.procs[p], g)
    case ArriveShare => ArriveShareKvdb(s, p)
    case Arrive => ArriveKvdb(s, p, s.procs[p])
    case _ => s
  }

  ghost function Apply(job: Job, s: State, p: Pid, step: Step): State
    requires |s.procs| == |job.programs| && Enabled(job, s, p, step)
  {
    StepKvdb(s, p, step).(procs := s.procs[p := StepProc(job, s, p, step)])
  }

  ghost predicate Next(job: Job, s: State, s': State) {
    |s.procs| == |job.programs| &&
    exists p: Pid, step: Step :: Enabled(job, s, p, step) && s' == Apply(job, s, p, step)
  }

  /** A process before it joins the attempt, at any point of its program.  It holds the
      clocks of the communicators that it made, except those that all members freed. */
  ghost predicate InitProc(job: Job, s: State, p: Pid)
    requires p < |s.procs| == |job.programs|
  {
    var pr := s.procs[p];
    && pr.stage.Idle?
    && pr.pc <= |job.programs[p]|
    && HoldsItsClocks(job, s, p)
  }

  ghost predicate HoldsItsClocks(job: Job, s: State, p: Pid)
    requires p < |s.procs| == |job.programs| && s.procs[p].pc <= |job.programs[p]|
  {
    && ClocksCount(job, s.procs[p], p)
    && ClocksHeld(job, s, p)
    && GroupsEntered(job, s, p)
    && BarriersOfFrees(job, s.procs[p], p)
    && (s.procs[p].inCs ==> s.procs[p].pc > 0)
  }

  /** The process started a barrier for each communicator that it has freed, and only for those that
      it began to free; once it has seen the barrier complete, the clock is gone. */
  ghost predicate BarriersOfFrees(job: Job, pr: Proc, p: Pid)
    requires p < |job.programs| && pr.pc <= |job.programs[p]|
  {
    && pr.frees <= pr.started && (forall g :: g in pr.started && g !in pr.frees ==> g !in pr.clocks)
    && (forall g :: g in pr.started ==> FreedBefore(job.programs[p], pr.pc, g))
    && (forall i :: 0 <= i < Completed(pr) && job.programs[p][i].Free? ==> job.programs[p][i].gid in pr.started)
  }

  /** Each clock is of a communicator of the process and counts the calls on it. */
  ghost predicate ClocksCount(job: Job, pr: Proc, p: Pid)
    requires p < |job.programs| && pr.pc <= |job.programs[p]|
  {
    forall g :: g in pr.clocks ==>
      && Member(job, p, g)
      && (g in job.initial || MadeBefore(job.programs[p], pr.pc, g))
      && pr.clocks[g].calls == CountTo(job.programs[p], pr.pc, g)
  }

  /** The process has the clock of a communicator that it made, until all members freed it. */
  ghost predicate ClocksHeld(job: Job, s: State, p: Pid)
    requires p < |s.procs| == |job.programs| && s.procs[p].pc <= |job.programs[p]|
  {
    var pr := s.procs[p];
    forall g: Gid :: Member(job, p, g) && (g in job.initial || MadeBefore(job.programs[p], Completed(pr), g)) ==>
      g in pr.clocks || AllFreed(job, s, g)
  }

  /** MPI_Comm_create_group completes only once all its members have entered it. */
  ghost predicate GroupsEntered(job: Job, s: State, p: Pid)
    requires p < |s.procs| == |job.programs| && s.procs[p].pc <= |job.programs[p]|
  {
    var pr := s.procs[p];
    forall i :: 0 <= i < pr.pc && job.programs[p][i].CreateGroup? &&
                (i < Completed(pr) || job.programs[p][i].gid in pr.clocks) ==>
      AllEntered(job, s, job.programs[p][i].gid)
  }

  /** The number of calls that the process has left. */
  function Completed(pr: Proc): nat {
    if pr.inCs && pr.pc > 0 then pr.pc - 1 else pr.pc
  }

  ghost predicate Init(job: Job, s: State) {
    && |s.procs| == |job.programs|
    && (forall p: Pid :: p < |s.procs| ==> InitProc(job, s, p))
    && s.table == map[] && s.shared == {} && s.rounds == []
  }

  /** A run of the attempt. */
  ghost predicate Run(job: Job, run: seq<State>) {
    && |run| > 0 && Init(job, run[0])
    && forall i: nat {:trigger StepAt(job, run, i)} :: i + 1 < |run| ==> StepAt(job, run, i)
  }

  ghost predicate StepAt(job: Job, run: seq<State>, i: nat) { i + 1 < |run| && Next(job, run[i], run[i + 1]) }

  /** The calls that the processes have begun. */
  function Position(s: State): Cut { seq(|s.procs|, i requires 0 <= i < |s.procs| => s.procs[i].pc) }

  /** The calls that the processes had begun when they shared their sequence numbers. */
  function Snapshot(s: State): Cut { seq(|s.procs|, i requires 0 <= i < |s.procs| => s.procs[i].snap) }

  /** Before an attempt: no table, no barrier, and every process where it is. */
  ghost function NewAttempt(s: State): State {
    State(seq(|s.procs|, i requires 0 <= i < |s.procs| => s.procs[i].(stage := Idle)), map[], {}, [])
  }

  /** A process that has made no call has the clocks of the communicators that exist from the start. */
  ghost predicate Started(job: Job, pr: Proc, p: Pid) {
    && pr.pc == 0 && !pr.inCs && pr.started == {} && pr.frees == {} && pr.stage.Idle?
    && pr.clocks.Keys == (set g | g in job.initial && Member(job, p, g))
    && forall g :: g in pr.clocks ==> pr.clocks[g].calls == 0
  }
}
