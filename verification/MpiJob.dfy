/**
The MPI job that the Collective Clock drains: for each process a fixed, arbitrary
sequence of communicator calls.  The drain counts the calls per communicator; a
vector of call prefixes is a closed cut if all members of each communicator have
made the same number of calls on it.
*/
module MpiJob {
  import opened Common

  type Gid = nat
  type Pid = nat

  /** What one process calls, as far as the Collective Clock sees it. */
  datatype Call =
    | Collective(gid: Gid)                  // any collective call that makes no communicator
    | CreateFrom(parent: Gid, gid: Gid)     // MPI_Comm_dup, MPI_Comm_split, ...: counted on the parent
    | CreateGroup(gid: Gid)                 // MPI_Comm_create_group: counted on no clock
    | Free(gid: Gid)                        // MPI_Comm_free: counted

  /** The clock that counts the call. */
  function CountedOn(call: Call): Option<Gid> {
    match call
    case Collective(g) => Some(g)
    case CreateFrom(h, _) => Some(h)
    case CreateGroup(_) => None
    case Free(g) => Some(g)
  }

  /** The communicator that the call makes. */
  function Made(call: Call): Option<Gid> {
    match call
    case CreateFrom(_, g) => Some(g)
    case CreateGroup(g) => Some(g)
    case _ => None
  }

  /** 'initial' has the communicators that exist before the first call. */
  datatype Job = Job(programs: seq<seq<Call>>, members: map<Gid, set<Pid>>, initial: set<Gid>)

  predicate Member(job: Job, p: Pid, g: Gid) {
    g in job.members && p in job.members[g]
  }

  /** How many of the first k calls the clock of g counts. */
  function CountTo(program: seq<Call>, k: nat, g: Gid): nat
    requires k <= |program|
  {
    if k == 0 then 0
    else CountTo(program, k - 1, g) + (if CountedOn(program[k - 1]) == Some(g) then 1 else 0)
  }

  ghost predicate MadeBefore(program: seq<Call>, k: nat, g: Gid)
    requires k <= |program|
  {
    exists i :: 0 <= i < k && Made(program[i]) == Some(g)
  }

  ghost predicate FreedBefore(program: seq<Call>, k: nat, g: Gid)
    requires k <= |program|
  {
    exists i :: 0 <= i < k && program[i] == Free(g)
  }

  /** Process p may use g in its call number i. */
  ghost predicate Usable(job: Job, p: Pid, i: nat, g: Gid)
    requires p < |job.programs| && i <= |job.programs[p]|
  {
    && Member(job, p, g)
    && (g in job.initial || MadeBefore(job.programs[p], i, g))
    && !FreedBefore(job.programs[p], i, g)
  }

  ghost predicate CallOk(job: Job, p: Pid, i: nat)
    requires p < |job.programs| && i < |job.programs[p]|
  {
    var call := job.programs[p][i];
    && (CountedOn(call).Some? ==> Usable(job, p, i, CountedOn(call).value))
    && (Made(call).Some? ==>
          && Member(job, p, Made(call).value)
          && Made(call).value !in job.initial
          && !MadeBefore(job.programs[p], i, Made(call).value))
    && (call.CreateFrom? ==>
          && call.parent in job.members
          && job.members[call.gid] <= job.members[call.parent])
  }

  /** Call i of p and call j of q are the same-numbered calls on the clock of g. */
  ghost predicate SameNumber(job: Job, p: Pid, i: nat, q: Pid, j: nat, g: Gid)
    requires p < |job.programs| && i < |job.programs[p]|
    requires q < |job.programs| && j < |job.programs[q]|
  {
    && CountedOn(job.programs[p][i]) == Some(g)
    && CountedOn(job.programs[q][j]) == Some(g)
    && CountTo(job.programs[p], i, g) == CountTo(job.programs[q], j, g)
  }

  /** MPI fixes the order of collective calls on a communicator: its members free it in
      the same-numbered call, and the members of a communicator made from it make it in
      the same-numbered call. */
  ghost predicate Matching(job: Job, p: Pid, i: nat, q: Pid, j: nat, g: Gid)
    requires p < |job.programs| && i < |job.programs[p]|
    requires q < |job.programs| && j < |job.programs[q]|
  {
    SameNumber(job, p, i, q, j, g) ==>
      && (job.programs[p][i] == Free(g) ==> job.programs[q][j] == Free(g))
      && (job.programs[p][i].CreateFrom? && Member(job, q, job.programs[p][i].gid) ==>
            job.programs[q][j] == job.programs[p][i])
  }

  /** The job follows the rules of MPI. */
  ghost predicate WellFormed(job: Job) {
    && (forall p: Pid, g: Gid :: Member(job, p, g) ==> p < |job.programs|)
    && (forall g :: g in job.initial ==> g in job.members)
    && (forall p: Pid, i: nat | p < |job.programs| && i < |job.programs[p]| :: CallOk(job, p, i))
    && (forall p: Pid, i: nat, q: Pid, j: nat, g: Gid |
          p < |job.programs| && i < |job.programs[p]| && q < |job.programs| && j < |job.programs[q]| ::
          Matching(job, p, i, q, j, g))
  }

  /** A vector of call prefixes, one per process. */
  type Cut = seq<nat>

  ghost predicate IsCut(job: Job, cut: Cut) {
    |cut| == |job.programs| && forall p :: 0 <= p < |cut| ==> cut[p] <= |job.programs[p]|
  }

  /** All members of each communicator have made the same number of calls on it. */
  ghost predicate Closed(job: Job, cut: Cut)
    requires IsCut(job, cut)
  {
    forall p, q, g :: 0 <= p < |cut| && 0 <= q < |cut| && Member(job, p, g) && Member(job, q, g) ==>
      CountTo(job.programs[p], cut[p], g) == CountTo(job.programs[q], cut[q], g)
  }

  ghost predicate Below(a: Cut, b: Cut) {
    |a| == |b| && forall p :: 0 <= p < |a| ==> a[p] <= b[p]
  }

  lemma {:induction false} CountGrows(program: seq<Call>, j: nat, k: nat, g: Gid)
    requires j <= k <= |program|
    ensures CountTo(program, j, g) <= CountTo(program, k, g)
    decreases k
  {
    if j < k {
      CountGrows(program, j, k - 1, g);
    }
  }

  /** If the first k calls have more than n on g, one of them is call number n on g. */
  lemma {:induction false} FindCall(program: seq<Call>, k: nat, n: nat, g: Gid) returns (i: nat)
    requires k <= |program|
    requires n < CountTo(program, k, g)
    ensures i < k && CountedOn(program[i]) == Some(g) && CountTo(program, i, g) == n
  {
    if CountedOn(program[k - 1]) == Some(g) && CountTo(program, k - 1, g) == n {
      i := k - 1;
    } else {
      i := FindCall(program, k - 1, n, g);
    }
  }

  /** Before a process makes a communicator that did not exist at the start, it has no
      call on it. */
  lemma {:induction false} NoCallBeforeMade(job: Job, p: Pid, k: nat, g: Gid)
    requires WellFormed(job) && p < |job.programs| && k <= |job.programs[p]|
    requires g !in job.initial && !MadeBefore(job.programs[p], k, g)
    ensures CountTo(job.programs[p], k, g) == 0
  {
    if k > 0 {
      NoCallBeforeMade(job, p, k - 1, g);
      assert CallOk(job, p, k - 1);
    }
  }

  lemma NoCallWhenMade(job: Job, p: Pid, i: nat, g: Gid)
    requires WellFormed(job) && p < |job.programs| && i < |job.programs[p]|
    requires Made(job.programs[p][i]) == Some(g)
    ensures CountTo(job.programs[p], i + 1, g) == 0
  {
    assert CallOk(job, p, i);
    NoCallBeforeMade(job, p, i, g);
  }

  /** After a process frees a communicator, it has no more calls on it. */
  lemma {:induction false} NoCallAfterFree(job: Job, p: Pid, i: nat, k: nat, g: Gid)
    requires WellFormed(job) && p < |job.programs| && i < k <= |job.programs[p]|
    requires job.programs[p][i] == Free(g)
    ensures CountTo(job.programs[p], k, g) == CountTo(job.programs[p], i, g) + 1
  {
    if i + 1 < k {
      NoCallAfterFree(job, p, i, k - 1, g);
      assert CallOk(job, p, k - 1);
    }
  }
}
