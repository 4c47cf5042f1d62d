/**
The non-blocking receives of the point-to-point drain: MPI_Irecv requests, the pending log, and the
three places that count a received message (the application's MPI_Test and MPI_Wait, the drain's
test of pending requests, the drain's receive into the buffer), each in its own small steps.
P2pDrain has one step for "a message is received and counted"; here, that step is what each of the
three comes to, because the pending log says who counts.
*/
module P2pRequests {
  import opened Common
  import opened P2pDrain
  import opened P2pDrainSums
  import P2pDrainInvariant
  import P2pDummies

  /** The real request: the MPI library has no message for it, has one, or MANA completed it. */
  datatype Handle = Awaits | Matched | Null

  /** An MPI_Irecv request.  'completed' is the entry's flag, 'logged' its entry in the pending log;
      'consumed' tells that the application's handle is freed, and 'counted' how often its message was
      counted. */
  datatype Request = Request(
    handle: Handle, completed: bool, logged: bool, procNull: bool, consumed: bool, counted: nat)

  /** Where the application thread is in MPI_Test or MPI_Wait of a request. */
  datatype AppAt =
    | Away
    | Flagged(q: nat)        // the test said that it is complete
    | Tallied(q: nat)        // past the counting
    | Cleared(q: nat)        // removed from the pending log

  /** Where the checkpoint thread is with a request or a message. */
  datatype DrainAt =
    | Rest
    | Tested(q: nat)         // the test said that it is complete
    | Marked(q: nat)         // past the counting
    | Stored(q: nat)      // complete_virt_request() done
    | Taken                  // received a message into the buffer, has not counted it

  /** The requests of a rank, its two threads, and the number of messages in MANA's buffer.  As history,
      'handed' counts the messages that MPI_Recv took from the buffer, and 'direct' those that MPI_Recv
      received itself. */
  datatype Desk = Desk(
    reqs: seq<Request>, app: AppAt, drain: DrainAt, buffered: nat, handed: nat, direct: nat)

  /** In 'base', the network of a rank has the messages that are not matched. */
  datatype Job = Job(base: State, desks: seq<Desk>)

  datatype Move =
    | Base(step: Step)               // any step of P2pDrain but Receive
    // the application thread
    | IrecvPost(procNull: bool)
    | IrecvServed | RecvServed       // served from the buffer
    | TestCall(q: nat) | WaitCall(q: nat)
    | AppCount | AppClear | AppFree
    // the MPI library
    | Match(q: nat)
    // the checkpoint thread
    | DrainTest(q: nat) | DrainCount | DrainComplete | DrainClear
    | BufferTake | BufferCount

  /** MPI_Test() of the real request, or the entry's flag, says that it is complete. */
  predicate Complete(req: Request) { req.handle.Matched? || (req.handle.Null? && req.completed) }

  /** is_counted_irecv() */
  predicate IsCounted(req: Request) { req.logged && !req.procNull }

  /** The application thread may make a call: the gate is open, and it is not in another one. */
  predicate AppMay(rk: Rank, d: Desk) { rk.stage.Running? && rk.place.Out? && d.app.Away? }

  predicate DrainMay(rk: Rank, d: Desk) { rk.stage.Work? && d.drain.Rest? }

  predicate Usable(d: Desk, q: nat) { q < |d.reqs| && !d.reqs[q].consumed }

  ghost predicate May(j: Job, r: Rid, move: Move) {
    r < |j.base.ranks| == |j.desks| &&
    var rk, d := j.base.ranks[r], j.desks[r];
    match move
    case Base(step) =>
      && Enabled(j.base, r, step) && !step.Receive?
      && (step.Send? || step.Publish? || step.CloseGate? ==> d.app.Away?)
      && (step.ReadRecv? ==> d.drain.Rest?)
    case IrecvPost(_) => AppMay(rk, d)
    case IrecvServed => AppMay(rk, d) && d.buffered > 0
    case RecvServed => AppMay(rk, d) && d.buffered > 0
    case TestCall(q) => AppMay(rk, d) && Usable(d, q) && Complete(d.reqs[q])
    case WaitCall(q) => AppMay(rk, d) && Usable(d, q) && Complete(d.reqs[q])
    case AppCount => d.app.Flagged? && d.app.q < |d.reqs|
    case AppClear => d.app.Tallied? && d.app.q < |d.reqs|
    case AppFree => d.app.Cleared? && d.app.q < |d.reqs|
    case Match(q) => q < |d.reqs| && d.reqs[q].handle.Awaits? && (d.reqs[q].procNull || rk.net > 0)
    case DrainTest(q) => DrainMay(rk, d) && q < |d.reqs| && d.reqs[q].logged && Complete(d.reqs[q])
    case DrainCount => d.drain.Tested? && d.drain.q < |d.reqs|
    case DrainComplete => d.drain.Marked? && d.drain.q < |d.reqs|
    case DrainClear => d.drain.Stored? && d.drain.q < |d.reqs|
    case BufferTake => DrainMay(rk, d) && rk.net > 0
    case BufferCount => d.drain.Taken?
  }

  function CountedMore(req: Request): Request { req.(counted := req.counted + 1) }

  /** The requests after a move. */
  function MoveDesk(d: Desk, move: Move): Desk
    requires match move
             case TestCall(q) => q < |d.reqs|
             case Match(q) => q < |d.reqs|
             case AppCount => d.app.Flagged? && d.app.q < |d.reqs|
             case AppClear => d.app.Tallied? && d.app.q < |d.reqs|
             case AppFree => d.app.Cleared? && d.app.q < |d.reqs|
             case DrainCount => d.drain.Tested? && d.drain.q < |d.reqs|
             case DrainComplete => d.drain.Marked? && d.drain.q < |d.reqs|
             case DrainClear => d.drain.Stored? && d.drain.q < |d.reqs|
             case IrecvServed => d.buffered > 0
             case RecvServed => d.buffered > 0
             case _ => true
  {
    match move
    case Base(_) => d
    case IrecvPost(procNull) => d.(reqs := d.reqs + [Request(Awaits, false, true, procNull, false, 0)])
    case IrecvServed =>
      // the drain counted the message when it put it into the buffer
      d.(reqs := d.reqs + [Request(Null, true, false, false, false, 1)], buffered := d.buffered - 1)
    case RecvServed => d.(buffered := d.buffered - 1, handed := d.handed + 1)
    case TestCall(q) =>
      // PMPI_Test() does not look at the log of a request that MANA completed
      d.(app := if d.reqs[q].handle.Null? then Tallied(q) else Flagged(q))
    case WaitCall(q) => d.(app := Flagged(q))
    case AppCount =>
      var req := d.reqs[d.app.q];
      d.(reqs := if IsCounted(req) then d.reqs[d.app.q := CountedMore(req)] else d.reqs, app := Tallied(d.app.q))
    case AppClear => d.(reqs := d.reqs[d.app.q := d.reqs[d.app.q].(logged := false)], app := Cleared(d.app.q))
    case AppFree => d.(reqs := d.reqs[d.app.q := d.reqs[d.app.q].(consumed := true)], app := Away)
    case Match(q) => d.(reqs := d.reqs[q := d.reqs[q].(handle := Matched)])
    case DrainTest(q) => d.(drain := Tested(q))
    case DrainCount =>
      var req := d.reqs[d.drain.q];
      d.(reqs := if req.procNull then d.reqs else d.reqs[d.drain.q := CountedMore(req)], drain := Marked(d.drain.q))
    case DrainComplete =>
      d.(reqs := d.reqs[d.drain.q := d.reqs[d.drain.q].(completed := true, handle := Null)], drain := Stored(d.drain.q))
    case DrainClear => d.(reqs := d.reqs[d.drain.q := d.reqs[d.drain.q].(logged := false)], drain := Rest)
    case BufferTake => d.(drain := Taken)
    case BufferCount => d.(drain := Rest, buffered := d.buffered + 1)
  }

  /** The move increments local_recv_messages. */
  predicate Counts(d: Desk, move: Move) {
    match move
    case AppCount => d.app.Flagged? && d.app.q < |d.reqs| && IsCounted(d.reqs[d.app.q])
    case DrainCount => d.drain.Tested? && d.drain.q < |d.reqs| && !d.reqs[d.drain.q].procNull
    case BufferCount => d.drain.Taken?
    case _ => false
  }

  /** The move takes a message out of the network. */
  predicate Takes(d: Desk, move: Move) {
    match move
    case Match(q) => q < |d.reqs| && !d.reqs[q].procNull
    case BufferTake => true
    case _ => false
  }

  function MoveRank(rk: Rank, d: Desk, move: Move): Rank
    requires Takes(d, move) ==> rk.net > 0
  {
    rk.(net := if Takes(d, move) then rk.net - 1 else rk.net, recv := if Counts(d, move) then rk.recv + 1 else rk.recv)
  }

  function BaseDesk(d: Desk, step: Step): Desk { if step.Count? then d.(direct := d.direct + 1) else d }

  ghost function Do(j: Job, r: Rid, move: Move): Job
    requires May(j, r, move)
  {
    if move.Base? then Job(Apply(j.base, r, move.step), j.desks[r := BaseDesk(j.desks[r], move.step)])
    else
      Job(j.base.(ranks := j.base.ranks[r := MoveRank(j.base.ranks[r], j.desks[r], move)]),
          j.desks[r := MoveDesk(j.desks[r], move)])
  }

  ghost predicate Moves(j: Job, j': Job) { exists r: Rid, move: Move :: May(j, r, move) && j' == Do(j, r, move) }

  const EMPTY_DESK: Desk := Desk([], Away, Rest, 0, 0, 0)

  ghost predicate JobRun(run: seq<Job>) {
    && |run| > 0 && Init(run[0].base) && |run[0].desks| == |run[0].base.ranks|
    && (forall r :: 0 <= r < |run[0].desks| ==> run[0].desks[r] == EMPTY_DESK)
    && forall i: nat {:trigger MoveAt(run, i)} :: i + 1 < |run| ==> MoveAt(run, i)
  }

  ghost predicate MoveAt(run: seq<Job>, i: nat) { i + 1 < |run| && Moves(run[i], run[i + 1]) }

  // ---- the messages that are not counted yet ----

  function Pend(req: Request): nat { if req.handle.Matched? && !req.procNull && req.counted == 0 then 1 else 0 }

  function Pends(reqs: seq<Request>): seq<nat> {
    seq(|reqs|, i requires 0 <= i < |reqs| => Pend(reqs[i]))
  }

  /** The messages that the rank has, but did not count yet. */
  function Uncounted(d: Desk): nat { Sum(Pends(d.reqs)) + if d.drain.Taken? then 1 else 0 }

  /** The rank of P2pDrain: a message is in flight until it is counted. */
  function AbsRank(rk: Rank, d: Desk): Rank { rk.(net := rk.net + Uncounted(d)) }

  ghost function Abs(j: Job): State
    requires |j.base.ranks| == |j.desks|
  {
    j.base.(ranks := seq(|j.desks|, i requires 0 <= i < |j.desks| => AbsRank(j.base.ranks[i], j.desks[i])))
  }

  lemma PendsUpdate(reqs: seq<Request>, q: nat, req: Request)
    requires q < |reqs|
    ensures Sum(Pends(reqs[q := req])) + Pend(reqs[q]) == Sum(Pends(reqs)) + Pend(req)
  {
    assert Pends(reqs[q := req]) == Pends(reqs)[q := Pend(req)];
    SumUpdate(Pends(reqs), q, Pend(req));
  }

  lemma PendsPush(reqs: seq<Request>, req: Request)
    requires Pend(req) == 0
    ensures Sum(Pends(reqs + [req])) == Sum(Pends(reqs))
  {
    assert Pends(reqs + [req]) == Pends(reqs) + [0];
    SumPush(Pends(reqs), 0);
  }

  lemma {:induction false} SumPush(a: seq<nat>, v: nat)
    ensures Sum(a + [v]) == Sum(a) + v
  {
    if a != [] {
      SumPush(a[1..], v);
      assert (a + [v])[1..] == a[1..] + [v];
    } else {
      assert (a + [v])[1..] == [];
    }
  }

  // ---- who counts ----

  /** Between its counting and its removal from the log, a request is logged and counted. */
  predicate InWindow(d: Desk, q: nat) {
    d.app == Tallied(q) || d.drain == Marked(q) || d.drain == Stored(q)
  }

  /** Outside of that, a message is counted exactly if its request is not in the log. */
  predicate RequestOk(req: Request, window: bool) {
    && (req.procNull ==> req.counted == 0) && req.counted <= 1
    && (req.handle.Awaits? ==> req.logged && req.counted == 0 && !req.completed && !window)
    && (req.handle.Null? ==> req.completed)
    && (req.logged && !window ==> req.counted == 0 && !req.handle.Null?)
    && (!req.procNull && (!req.logged || req.handle.Null? || window) ==> req.counted == 1)
    && (req.consumed ==> !req.logged)
  }

  predicate AppOk(d: Desk) {
    match d.app
    case Away => true
    case Flagged(q) => q < |d.reqs| && !d.reqs[q].handle.Awaits?
    case Tallied(q) => q < |d.reqs|
    case Cleared(q) => q < |d.reqs| && !d.reqs[q].logged
  }

  predicate DrainOk(d: Desk) {
    match d.drain
    case Tested(q) => q < |d.reqs| && d.reqs[q].handle.Matched? && d.reqs[q].logged
    case Marked(q) => q < |d.reqs| && d.reqs[q].logged
    case Stored(q) => q < |d.reqs| && d.reqs[q].handle.Null?
    case _ => true
  }

  /** The gate keeps the two threads apart. */
  ghost predicate DeskOk(rk: Rank, d: Desk) {
    && (!d.app.Away? ==> rk.stage.Running?) && (!d.drain.Rest? ==> rk.stage.Work?)
    && AppOk(d) && DrainOk(d)
    && forall q: nat :: q < |d.reqs| ==> RequestOk(d.reqs[q], InWindow(d, q))
  }

  ghost predicate DesksOk(j: Job) {
    |j.desks| == |j.base.ranks| && forall r: Rid :: r < |j.desks| ==> DeskOk(j.base.ranks[r], j.desks[r])
  }

  predicate IsApp(move: Move) { move.TestCall? || move.WaitCall? || move.AppCount? || move.AppClear? || move.AppFree? }

  predicate IsDrain(move: Move) {
    || move.DrainTest? || move.DrainCount? || move.DrainComplete? || move.DrainClear?
    || move.BufferTake? || move.BufferCount?
  }

  lemma AppKeeps(j: Job, r: Rid, move: Move)
    requires DesksOk(j) && May(j, r, move) && IsApp(move)
    ensures DeskOk(MoveRank(j.base.ranks[r], j.desks[r], move), MoveDesk(j.desks[r], move))
  {
    assert DeskOk(j.base.ranks[r], j.desks[r]);
  }

  lemma DrainKeepsDesk(j: Job, r: Rid, move: Move)
    requires DesksOk(j) && May(j, r, move) && IsDrain(move)
    ensures DeskOk(MoveRank(j.base.ranks[r], j.desks[r], move), MoveDesk(j.desks[r], move))
  {
    assert DeskOk(j.base.ranks[r], j.desks[r]);
  }

  lemma PostKeepsDesk(j: Job, r: Rid, move: Move)
    requires DesksOk(j) && May(j, r, move) && !move.Base? && !IsApp(move) && !IsDrain(move)
    ensures DeskOk(MoveRank(j.base.ranks[r], j.desks[r], move), MoveDesk(j.desks[r], move))
  {
    assert DeskOk(j.base.ranks[r], j.desks[r]);
  }

  /** A step of P2pDrain leaves the threads where the gate lets them be. */
  lemma BaseKeepsStage(j: Job, r: Rid, step: Step, q: Rid)
    requires DesksOk(j) && May(j, r, Base(step)) && q < |j.desks|
    ensures DeskOk(Apply(j.base, r, step).ranks[q], if q == r then BaseDesk(j.desks[q], step) else j.desks[q])
  {
    assert DeskOk(j.base.ranks[q], j.desks[q]);
    var d := BaseDesk(j.desks[q], step);
    assert forall i: nat :: i < |d.reqs| ==> InWindow(d, i) == InWindow(j.desks[q], i);
    assert q != r ==> Apply(j.base, r, step).ranks[q].stage == j.base.ranks[q].stage;
  }

  lemma MoveKeeps(j: Job, r: Rid, move: Move)
    requires DesksOk(j) && May(j, r, move)
    ensures DesksOk(Do(j, r, move))
  {
    var j' := Do(j, r, move);
    forall q: Rid | q < |j'.desks| ensures DeskOk(j'.base.ranks[q], j'.desks[q]) {
      assert DeskOk(j.base.ranks[q], j.desks[q]);
      if move.Base? {
        BaseKeepsStage(j, r, move.step, q);
      } else if q == r {
        if IsApp(move) {
          AppKeeps(j, r, move);
        } else if IsDrain(move) {
          DrainKeepsDesk(j, r, move);
        } else {
          PostKeepsDesk(j, r, move);
        }
      }
    }
  }

  // ---- the moves come to steps of P2pDrain ----

  /** A counted message was not counted before: it goes from the uncounted ones to the counter. */
  lemma CountMoves(rk: Rank, d: Desk, move: Move)
    requires DeskOk(rk, d) && Counts(d, move)
    ensures Uncounted(d) > 0 && Uncounted(MoveDesk(d, move)) == Uncounted(d) - 1
  {
    if move.AppCount? {
      var q := d.app.q;
      assert RequestOk(d.reqs[q], InWindow(d, q));
      PendsUpdate(d.reqs, q, CountedMore(d.reqs[q]));
    } else if move.DrainCount? {
      var q := d.drain.q;
      assert RequestOk(d.reqs[q], InWindow(d, q));
      PendsUpdate(d.reqs, q, CountedMore(d.reqs[q]));
    }
  }

  lemma TakeMoves(j: Job, r: Rid, move: Move)
    requires DesksOk(j) && May(j, r, move) && Takes(j.desks[r], move)
    ensures Uncounted(MoveDesk(j.desks[r], move)) == Uncounted(j.desks[r]) + 1
  {
    var d := j.desks[r];
    assert DeskOk(j.base.ranks[r], d);
    if move.Match? {
      assert RequestOk(d.reqs[move.q], InWindow(d, move.q));
      PendsUpdate(d.reqs, move.q, d.reqs[move.q].(handle := Matched));
    }
  }

  lemma OtherMoves(j: Job, r: Rid, move: Move)
    requires DesksOk(j) && May(j, r, move) && !move.Base? && !Takes(j.desks[r], move) && !Counts(j.desks[r], move)
    ensures Uncounted(MoveDesk(j.desks[r], move)) == Uncounted(j.desks[r])
  {
    var d := j.desks[r];
    assert DeskOk(j.base.ranks[r], d);
    match move
    case IrecvPost(procNull) => PendsPush(d.reqs, Request(Awaits, false, true, procNull, false, 0));
    case IrecvServed => PendsPush(d.reqs, Request(Null, true, false, false, false, 1));
    case Match(q) => PendsUpdate(d.reqs, q, d.reqs[q].(handle := Matched));
    case AppClear => PendsUpdate(d.reqs, d.app.q, d.reqs[d.app.q].(logged := false));
    case AppFree => PendsUpdate(d.reqs, d.app.q, d.reqs[d.app.q].(consumed := true));
    case DrainComplete =>
      assert RequestOk(d.reqs[d.drain.q], InWindow(d, d.drain.q));
      PendsUpdate(d.reqs, d.drain.q, d.reqs[d.drain.q].(completed := true, handle := Null));
    case DrainClear => PendsUpdate(d.reqs, d.drain.q, d.reqs[d.drain.q].(logged := false));
    case _ =>
  }

  lemma BaseMay(j: Job, r: Rid, step: Step)
    requires DesksOk(j) && May(j, r, Base(step))
    ensures Enabled(Abs(j), r, step)
  {
    assert Abs(j).ranks[r] == AbsRank(j.base.ranks[r], j.desks[r]);
    if step.Resume? {
      assert forall q :: 0 <= q < |j.desks| ==> Abs(j).ranks[q].stage == j.base.ranks[q].stage;
    }
  }

  lemma BaseRanks(j: Job, r: Rid, step: Step)
    requires DesksOk(j) && May(j, r, Base(step)) && Enabled(Abs(j), r, step)
    ensures Abs(Do(j, r, Base(step))).ranks == StepRanks(Abs(j), r, step)
  {
    BaseRank(j, r, step);
    var left, right := Abs(Do(j, r, Base(step))).ranks, StepRanks(Abs(j), r, step);
    assert |left| == |right|;
    var stepped := j.base.ranks[r := StepRank(j.base, r, step)];
    forall i | 0 <= i < |left| ensures left[i] == right[i] {
      if !step.Send? && !step.SendDummy? {
        assert left[i] == AbsRank(stepped[i], j.desks[i]);
      }
    }
  }

  /** A step of P2pDrain is the same step when matched messages are still seen as in flight. */
  lemma BaseIsStep(j: Job, r: Rid, step: Step)
    requires DesksOk(j) && May(j, r, Base(step))
    ensures Enabled(Abs(j), r, step) && Abs(Do(j, r, Base(step))) == Apply(Abs(j), r, step)
  {
    BaseMay(j, r, step);
    BaseShared(j, r, step);
    BaseRanks(j, r, step);
  }

  lemma BaseRank(j: Job, r: Rid, step: Step)
    requires DesksOk(j) && May(j, r, Base(step)) && Enabled(Abs(j), r, step)
    ensures StepRank(Abs(j), r, step) == AbsRank(StepRank(j.base, r, step), j.desks[r])
  {
  }

  lemma BaseShared(j: Job, r: Rid, step: Step)
    requires DesksOk(j) && May(j, r, Base(step)) && Enabled(Abs(j), r, step)
    ensures StepShared(Abs(j), r, step).(ranks := []) == StepShared(j.base, r, step).(ranks := [])
  {
    if step.CloseGate? {
      assert LastToClose(Abs(j), r) <==> LastToClose(j.base, r) by {
        assert forall q :: 0 <= q < |j.desks| ==> Abs(j).ranks[q].stage == j.base.ranks[q].stage;
      }
    }
  }

  /** A move of the requests is the receive of P2pDrain if it counts, and otherwise no step at all. */
  lemma MoveIsStep(j: Job, r: Rid, move: Move)
    requires DesksOk(j) && May(j, r, move) && !move.Base?
    ensures Counts(j.desks[r], move) ==>
              Enabled(Abs(j), r, Receive) && Abs(Do(j, r, move)) == Apply(Abs(j), r, Receive)
    ensures !Counts(j.desks[r], move) ==> Abs(Do(j, r, move)) == Abs(j)
  {
    var d, j' := j.desks[r], Do(j, r, move);
    assert DeskOk(j.base.ranks[r], d);
    if Counts(d, move) {
      CountMoves(j.base.ranks[r], d, move);
      assert Abs(j').ranks == Apply(Abs(j), r, Receive).ranks;
    } else {
      if Takes(d, move) {
        TakeMoves(j, r, move);
      } else {
        OtherMoves(j, r, move);
      }
      assert Abs(j').ranks == Abs(j).ranks;
    }
  }

  lemma Extend(run: seq<State>, s: State) returns (run': seq<State>)
    requires Run(run) && (Next(run[|run| - 1], s) || s == run[|run| - 1])
    ensures Run(run') && run'[|run'| - 1] == s
  {
    if s == run[|run| - 1] {
      return run;
    }
    run' := run + [s];
    forall i: nat | i + 1 < |run'| ensures StepAt(run', i) {
      if i < |run| - 1 {
        assert StepAt(run, i);
      }
    }
  }

  lemma MoveIsNext(j: Job, j': Job)
    requires DesksOk(j) && Moves(j, j')
    ensures DesksOk(j') && (Next(Abs(j), Abs(j')) || Abs(j') == Abs(j))
  {
    var r: Rid, move: Move :| May(j, r, move) && j' == Do(j, r, move);
    MoveKeeps(j, r, move);
    if move.Base? {
      BaseIsStep(j, r, move.step);
    } else {
      MoveIsStep(j, r, move);
    }
  }

  lemma StartIsInit(j: Job)
    requires Init(j.base) && |j.desks| == |j.base.ranks|
    requires forall r :: 0 <= r < |j.desks| ==> j.desks[r] == EMPTY_DESK
    ensures DesksOk(j) && Init(Abs(j))
  {
    StartIsAbs(j);
    forall r: Rid | r < |j.desks| ensures DeskOk(j.base.ranks[r], j.desks[r]) {
      EmptyDeskOk(j.base.ranks[r]);
    }
  }

  lemma EmptyDeskOk(rk: Rank)
    ensures DeskOk(rk, EMPTY_DESK)
  {
  }

  lemma StartIsAbs(j: Job)
    requires |j.desks| == |j.base.ranks| && forall r :: 0 <= r < |j.desks| ==> j.desks[r] == EMPTY_DESK
    ensures Abs(j) == j.base
  {
    NothingUncounted();
    var ranks := Abs(j).ranks;
    forall r | 0 <= r < |j.desks| ensures ranks[r] == j.base.ranks[r] {
      assert ranks[r] == AbsRank(j.base.ranks[r], EMPTY_DESK);
    }
    assert ranks == j.base.ranks;
  }

  lemma NothingUncounted()
    ensures Uncounted(EMPTY_DESK) == 0
  {
    assert Pends([]) == [];
  }

  /** Refinement: every run with requests comes to a run of P2pDrain, so all that holds of its runs
      holds here, with a message in flight until it is counted. */
  lemma {:induction false} RunRefines(run: seq<Job>, i: nat) returns (simple: seq<State>)
    requires JobRun(run) && i < |run|
    ensures DesksOk(run[i]) && Run(simple) && simple[|simple| - 1] == Abs(run[i])
  {
    if i == 0 {
      StartIsInit(run[0]);
      simple := [Abs(run[0])];
    } else {
      simple := RunRefines(run, i - 1);
      assert MoveAt(run, i - 1);
      MoveIsNext(run[i - 1], run[i]);
      simple := Extend(simple, Abs(run[i]));
    }
  }

  // ---- every run, over any number of checkpoints ----

  /** Each message of an MPI_Irecv is counted at most once, and exactly once before its request is
      gone, whoever completes it; a receive from MPI_PROC_NULL is never counted. */
  lemma CountedOnce(run: seq<Job>, i: nat, r: Rid, q: nat)
    requires JobRun(run) && i < |run| && r < |run[i].desks| && q < |run[i].desks[r].reqs|
    ensures var req := run[i].desks[r].reqs[q];
            && req.counted <= 1 && (req.procNull ==> req.counted == 0)
            && (req.consumed && !req.procNull ==> req.counted == 1)
  {
    var simple := RunRefines(run, i);
    assert DeskOk(run[i].base.ranks[r], run[i].desks[r]);
    assert RequestOk(run[i].desks[r].reqs[q], InWindow(run[i].desks[r], q));
  }

  /** Conservation: the messages counted by any of the receives, those in the network, and those that a
      rank has but did not count yet add up to the messages sent. */
  lemma EveryMessageIsCounted(run: seq<Job>, i: nat)
    requires JobRun(run) && i < |run|
    ensures |run[i].desks| == |run[i].base.ranks|
    ensures Sum(Loads(Abs(run[i]).ranks)) == Sum(Sents(run[i].base.ranks))
  {
    var simple := RunRefines(run, i);
    P2pDummies.CountsBalance(simple, |simple| - 1);
    assert Sents(Abs(run[i]).ranks) == Sents(run[i].base.ranks);
  }

  /** When a rank leaves the drain loop, no message is in the network, none waits to be counted, and
      every request that the MPI library has matched is counted: restart loses none of them. */
  lemma DrainCompletesMatched(run: seq<Job>, i: nat, done: Rid, r: Rid, q: nat)
    requires JobRun(run) && i < |run| && run[i].base.draining && r < |run[i].base.ranks|
    requires done < |run[i].base.ranks| && run[i].base.ranks[done].stage.Done?
    ensures |run[i].desks| == |run[i].base.ranks| && run[i].base.ranks[r].net == 0 && !run[i].desks[r].drain.Taken?
    ensures q < |run[i].desks[r].reqs| && !run[i].desks[r].reqs[q].procNull ==>
              run[i].desks[r].reqs[q].handle.Awaits? || run[i].desks[r].reqs[q].counted == 1
  {
    var simple := RunRefines(run, i);
    var a, d := Abs(run[i]), run[i].desks[r];
    P2pDummies.DrainEndsClean(simple, |simple| - 1, done, r);
    assert a.ranks[r] == AbsRank(run[i].base.ranks[r], d);
    assert DeskOk(run[i].base.ranks[r], d);
    if q < |d.reqs| {
      assert RequestOk(d.reqs[q], InWindow(d, q));
      SumZero(Pends(d.reqs), q);
    }
  }

  // ---- where the counted messages are ----

  function Counteds(reqs: seq<Request>): seq<nat> {
    seq(|reqs|, i requires 0 <= i < |reqs| => reqs[i].counted)
  }

  /** Each message that the rank counted is one that MPI_Recv received or took from the buffer, one of a
      request, or still in the buffer. */
  predicate LedgerOk(rk: Rank, d: Desk) {
    rk.recv == d.direct + d.handed + d.buffered + Sum(Counteds(d.reqs))
  }

  lemma CountedsUpdate(reqs: seq<Request>, q: nat, req: Request)
    requires q < |reqs|
    ensures Sum(Counteds(reqs[q := req])) + reqs[q].counted == Sum(Counteds(reqs)) + req.counted
  {
    assert Counteds(reqs[q := req]) == Counteds(reqs)[q := req.counted];
    SumUpdate(Counteds(reqs), q, req.counted);
  }

  lemma CountedsPush(reqs: seq<Request>, req: Request)
    ensures Sum(Counteds(reqs + [req])) == Sum(Counteds(reqs)) + req.counted
  {
    assert Counteds(reqs + [req]) == Counteds(reqs) + [req.counted];
    SumPush(Counteds(reqs), req.counted);
  }

  lemma LedgerMove(j: Job, r: Rid, move: Move)
    requires DesksOk(j) && May(j, r, move) && !move.Base? && LedgerOk(j.base.ranks[r], j.desks[r])
    ensures LedgerOk(MoveRank(j.base.ranks[r], j.desks[r], move), MoveDesk(j.desks[r], move))
  {
    var d := j.desks[r];
    match move
    case IrecvPost(procNull) => CountedsPush(d.reqs, Request(Awaits, false, true, procNull, false, 0));
    case IrecvServed => CountedsPush(d.reqs, Request(Null, true, false, false, false, 1));
    case Match(q) => CountedsUpdate(d.reqs, q, d.reqs[q].(handle := Matched));
    case AppCount => CountedsUpdate(d.reqs, d.app.q, CountedMore(d.reqs[d.app.q]));
    case AppClear => CountedsUpdate(d.reqs, d.app.q, d.reqs[d.app.q].(logged := false));
    case AppFree => CountedsUpdate(d.reqs, d.app.q, d.reqs[d.app.q].(consumed := true));
    case DrainCount => CountedsUpdate(d.reqs, d.drain.q, CountedMore(d.reqs[d.drain.q]));
    case DrainComplete =>
      CountedsUpdate(d.reqs, d.drain.q, d.reqs[d.drain.q].(completed := true, handle := Null));
    case DrainClear => CountedsUpdate(d.reqs, d.drain.q, d.reqs[d.drain.q].(logged := false));
    case _ =>
  }

  lemma LedgerBase(j: Job, r: Rid, step: Step, q: Rid)
    requires DesksOk(j) && May(j, r, Base(step)) && q < |j.desks| && !step.ReceiveDummy?
    requires LedgerOk(j.base.ranks[q], j.desks[q])
    ensures LedgerOk(Apply(j.base, r, step).ranks[q], Do(j, r, Base(step)).desks[q])
  {
    P2pDrainInvariant.StepArrived(j.base, r, step, q);
  }

  /** Every message that a rank counted went to the application exactly once, or is still in the buffer:
      the buffer gives out each message once. */
  lemma {:induction false} CountedIsHandedOut(run: seq<Job>, i: nat, r: Rid)
    requires JobRun(run) && i < |run| && r < |run[i].desks|
    ensures r < |run[i].base.ranks| && LedgerOk(run[i].base.ranks[r], run[i].desks[r])
  {
    if i == 0 {
      assert run[0].base.ranks[r] == FRESH_RANK && Counteds([]) == [];
    } else {
      SameDesks(run, i - 1);
      CountedIsHandedOut(run, i - 1, r);
      LedgerNext(run, i - 1, r);
    }
  }

  lemma SameDesks(run: seq<Job>, i: nat)
    requires JobRun(run) && i + 1 < |run|
    ensures |run[i + 1].desks| == |run[i].desks|
  {
    assert MoveAt(run, i);
  }

  lemma RunDesks(run: seq<Job>, i: nat)
    requires JobRun(run) && i < |run|
    ensures DesksOk(run[i])
  {
    var simple := RunRefines(run, i);
  }

  lemma BaseTakesNoDummy(run: seq<Job>, i: nat, q: Rid, step: Step)
    requires JobRun(run) && i < |run| && May(run[i], q, Base(step))
    ensures !step.ReceiveDummy?
  {
    var simple := RunRefines(run, i);
    BaseMay(run[i], q, step);
    P2pDummies.DummyIsNeverBuffered(simple, |simple| - 1, q);
  }

  lemma LedgerNext(run: seq<Job>, i: nat, r: Rid)
    requires JobRun(run) && i + 1 < |run| && r < |run[i].desks| && r < |run[i].base.ranks|
    requires LedgerOk(run[i].base.ranks[r], run[i].desks[r])
    ensures r < |run[i + 1].base.ranks| && r < |run[i + 1].desks|
    ensures LedgerOk(run[i + 1].base.ranks[r], run[i + 1].desks[r])
  {
    RunDesks(run, i);
    assert MoveAt(run, i);
    var q: Rid, move: Move :| May(run[i], q, move) && run[i + 1] == Do(run[i], q, move);
    if move.Base? {
      BaseTakesNoDummy(run, i, q, move.step);
      LedgerBase(run[i], q, move.step, r);
    } else if q == r {
      LedgerMove(run[i], r, move);
    }
  }

  // ---- a complete request can be consumed ----

  /** A continuation by moves of the application thread of r alone. */
  ghost predicate AppPath(path: seq<Job>, r: Rid) {
    |path| > 0 && forall k :: 0 <= k < |path| - 1 ==> AppNext(path[k], path[k + 1], r)
  }

  ghost predicate AppNext(j: Job, j': Job, r: Rid) {
    exists move: Move :: IsApp(move) && May(j, r, move) && j' == Do(j, r, move)
  }

  lemma AppThen(path: seq<Job>, r: Rid, move: Move) returns (path': seq<Job>)
    requires AppPath(path, r) && IsApp(move) && May(path[|path| - 1], r, move)
    ensures AppPath(path', r) && path'[0] == path[0] && path'[|path'| - 1] == Do(path[|path| - 1], r, move)
  {
    path' := path + [Do(path[|path| - 1], r, move)];
    forall k | 0 <= k < |path'| - 1 ensures AppNext(path'[k], path'[k + 1], r) {
      assert k < |path| - 1 ==> AppNext(path[k], path[k + 1], r);
    }
  }

  /** The request is consumed, removed from the log, and counted once if it had a message. */
  predicate IsConsumed(j: Job, r: Rid, q: nat) {
    && r < |j.desks| == |j.base.ranks| && q < |j.desks[r].reqs| && AppMay(j.base.ranks[r], j.desks[r])
    && var req := j.desks[r].reqs[q];
       req.consumed && !req.logged && req.counted == if req.procNull then 0 else 1
  }

  /** The rest of MPI_Test() and MPI_Wait() after the counting. */
  lemma ClearAndFree(j: Job, r: Rid, q: nat) returns (path: seq<Job>)
    requires DesksOk(j) && r < |j.desks| && j.desks[r].app == Tallied(q) && j.base.ranks[r].place.Out?
    ensures AppPath(path, r) && path[0] == j && IsConsumed(path[|path| - 1], r, q)
  {
    assert DeskOk(j.base.ranks[r], j.desks[r]);
    assert RequestOk(j.desks[r].reqs[q], InWindow(j.desks[r], q));
    path := AppThen([j], r, AppClear);
    path := AppThen(path, r, AppFree);
  }

  lemma CountFirst(j: Job, r: Rid, q: nat, call: Move) returns (path: seq<Job>)
    requires DesksOk(j) && r < |j.desks| && (call == TestCall(q) || call == WaitCall(q)) && May(j, r, call)
    ensures AppPath(path, r) && path[0] == j && DesksOk(path[|path| - 1])
    ensures var j' := path[|path| - 1];
            r < |j'.desks| && j'.desks[r].app == Tallied(q) && j'.base.ranks[r].place.Out?
  {
    MoveKeeps(j, r, call);
    path := AppThen([j], r, call);
    var j1 := path[|path| - 1];
    if j1.desks[r].app.Flagged? {
      MoveKeeps(j1, r, AppCount);
      path := AppThen(path, r, AppCount);
    }
  }

  /** Between checkpoints, MPI_Test() or MPI_Wait() of a request that has its message succeeds, whoever
      completed it, and its message is then counted exactly once. */
  lemma CompleteCanBeConsumed(run: seq<Job>, i: nat, r: Rid, q: nat, call: Move) returns (path: seq<Job>)
    requires JobRun(run) && i < |run| && r < |run[i].desks| && r < |run[i].base.ranks|
    requires AppMay(run[i].base.ranks[r], run[i].desks[r]) && Usable(run[i].desks[r], q)
    requires !run[i].desks[r].reqs[q].handle.Awaits? && (call == TestCall(q) || call == WaitCall(q))
    ensures AppPath(path, r) && path[0] == run[i] && IsConsumed(path[|path| - 1], r, q)
  {
    var simple := RunRefines(run, i);
    assert DeskOk(run[i].base.ranks[r], run[i].desks[r]);
    assert RequestOk(run[i].desks[r].reqs[q], InWindow(run[i].desks[r], q));
    path := CountFirst(run[i], r, q, call);
    var rest := ClearAndFree(path[|path| - 1], r, q);
    path := JoinPaths(path, rest, r);
  }

  lemma JoinPaths(a: seq<Job>, b: seq<Job>, r: Rid) returns (c: seq<Job>)
    requires AppPath(a, r) && AppPath(b, r) && a[|a| - 1] == b[0]
    ensures AppPath(c, r) && c[0] == a[0] && c[|c| - 1] == b[|b| - 1]
  {
    c := a + b[1..];
    forall k | 0 <= k < |c| - 1 ensures AppNext(c[k], c[k + 1], r) {
      if k < |a| - 1 {
        assert AppNext(a[k], a[k + 1], r);
      } else {
        assert c[k] == b[k - (|a| - 1)] && c[k + 1] == b[k + 1 - (|a| - 1)];
      }
    }
  }
}
