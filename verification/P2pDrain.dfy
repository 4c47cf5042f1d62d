/**
The point-to-point drain in blocking mode (drainWithoutBarriers() in src/p2p_drain.cpp,
PMPI_Recv() in src/mpi-wrappers/mpi_p2p_wrappers.cpp) as a transition system over all ranks
and any number of checkpoints.  It has the counters of sent and received messages, the
three-state slot of the pending MPI_Recv, the flag p2p_dummy_phase, and the dummies.  The
network is the number of real messages and of dummies in flight to each rank; which of them
a receive matches is left open.  The reductions of the drain are rendezvous.
*/
module P2pDrain {
  import opened Common

  type Rid = nat

  datatype Slot = Idle | Active | Closed

  /** Where the application thread of a rank is in PMPI_Recv(). */
  datatype Place =
    | Out                                  // not in the lower half with a receive
    | InRecv                               // in NEXT_FUNC(Recv)
    | Got(dummy: bool)                     // it returned, with a dummy or a real message
    | Read(dummy: bool, flag: bool)        // read p2p_dummy_phase
    | Uncounted                            // went back to IDLE, has not counted the message
    | Parked                               // discarded a dummy; waits for the checkpoint to end

  /** Where the checkpoint thread of a rank is. */
  datatype Stage =
    | Running                              // no checkpoint; the gate of the lower half is open
    | AtBarrier                            // the gate is closed; at the barrier before the drain
    | Top                                  // at the top of the drain loop
    | Closing                              // pass 1: has closed an idle slot, has not set the flag
    | Work                                 // completes requests and probes
    | Counted(recv: nat)                   // has read local_recv_messages, not the slot
    | Reducing                             // has given its numbers to the reduction
    | Done                                 // has left the drain loop

  /** net and dummies are the messages in flight to the rank.  'next' is the next dummy in its
      list to send; 'taken' counts the dummies that its MPI_Recv received. */
  datatype Rank = Rank(
    sent: nat, recv: nat, net: nat, dummies: nat, taken: nat,
    place: Place, slot: Slot, phase: bool, blocked: bool, stage: Stage, round: nat, pass: nat, next: nat)

  /** What a rank gives to a reduction; busy stands for its unfinished sends and non-blocking
      collectives, dummySends for its unfinished sends of dummies. */
  datatype Sample = Sample(sent: nat, recv: nat, inRecv: bool, busy: nat, dummySends: nat)

  /** A round of the drain loop: the value of dummy_pass at its top, and the samples. */
  datatype Round = Round(pass: nat, samples: seq<Option<Sample>>)

  /** posted[r] lists the receivers of the dummies that rank r is to send. */
  datatype State = State(ranks: seq<Rank>, draining: bool, rounds: seq<Round>, posted: seq<seq<Rid>>)

  // ---- sums over ranks ----

  function Sum(values: seq<nat>): nat {
    if values == [] then 0 else values[0] + Sum(values[1..])
  }

  function SentOf(r: Round): seq<nat> {
    seq(|r.samples|, i requires 0 <= i < |r.samples| => if r.samples[i].Some? then r.samples[i].value.sent else 0)
  }
  function RecvOf(r: Round): seq<nat> {
    seq(|r.samples|, i requires 0 <= i < |r.samples| => if r.samples[i].Some? then r.samples[i].value.recv else 0)
  }
  function InRecvOf(r: Round): seq<nat> {
    seq(|r.samples|, i requires 0 <= i < |r.samples| =>
      if r.samples[i].Some? && r.samples[i].value.inRecv then 1 else 0)
  }
  function BusyOf(r: Round): seq<nat> {
    seq(|r.samples|, i requires 0 <= i < |r.samples| => if r.samples[i].Some? then r.samples[i].value.busy else 0)
  }
  function DummySendsOf(r: Round): seq<nat> {
    seq(|r.samples|, i requires 0 <= i < |r.samples| =>
      if r.samples[i].Some? then r.samples[i].value.dummySends else 0)
  }

  predicate Full(r: Round) { forall i :: 0 <= i < |r.samples| ==> r.samples[i].Some? }

  /** Every message is received, and nothing else is unfinished. */
  predicate Received(r: Round) { Sum(RecvOf(r)) >= Sum(SentOf(r)) && Sum(BusyOf(r)) == 0 }

  predicate Finished(r: Round) { Received(r) && Sum(InRecvOf(r)) == 0 && Sum(DummySendsOf(r)) == 0 }

  /** dummy_pass at the top of the next round. */
  function NextPass(r: Round): nat {
    if r.pass > 0 then r.pass + 1 else if Received(r) && Sum(InRecvOf(r)) > 0 then 1 else 0
  }

  function EmptyRound(pass: nat, n: nat): Round { Round(pass, seq(n, _ => None)) }

  // ---- steps ----

  datatype Step =
    // the application thread
    | Send(dest: Rid)                 // counts and sends a message
    | Publish                         // IDLE -> ACTIVE, enters NEXT_FUNC(Recv)
    | ReturnReal | ReturnDummy
    | ReadFlag
    | StoreSlot
    | Count
    | Unpark
    // any receive of a message that is counted at once: MPI_Irecv with MPI_Test or MPI_Wait, the
    // drain's own receives into the buffer
    | Receive
    | ReceiveDummy                    // the drain buffers a dummy that no pending MPI_Recv matches
    // the checkpoint thread
    | CloseGate
    | StartDrain
    | TopStep(sender: Rid)            // what the pass of the round does
    | SetFlag
    | SendDummy
    | EndSends
    | ReadRecv
    | Reduce(busy: nat, dummySends: nat)
    | Judge
    | Resume
    | Reset

  ghost predicate Enabled(s: State, r: Rid, step: Step) {
    r < |s.ranks| &&
    var rk := s.ranks[r];
    match step
    case Send(d) => rk.stage.Running? && d < |s.ranks|
    case Publish => rk.stage.Running? && rk.place.Out? && rk.slot.Idle?
    case ReturnReal => rk.place.InRecv? && rk.net > 0
    case ReturnDummy => rk.place.InRecv? && rk.dummies > 0
    case ReadFlag => rk.place.Got?
    case StoreSlot => rk.place.Read?
    case Count => rk.place.Uncounted?
    case Unpark => rk.place.Parked? && rk.stage.Running?
    case Receive => rk.net > 0
    case ReceiveDummy => rk.dummies > 0 && rk.slot != Active
    case CloseGate => rk.stage.Running?
    case StartDrain => rk.stage.AtBarrier? && s.draining
    case TopStep(sender) => rk.stage.Top? && rk.pass != 3 && sender < |s.ranks|
    case SetFlag => rk.stage.Closing?
    case SendDummy => rk.stage.Top? && rk.pass == 3 && r < |s.posted| && rk.next < |s.posted[r]| &&
                      s.posted[r][rk.next] < |s.ranks|
    case EndSends => rk.stage.Top? && rk.pass == 3 && r < |s.posted| && rk.next == |s.posted[r]|
    case ReadRecv => rk.stage.Work?
    case Reduce(_, _) => rk.stage.Counted? && rk.round < |s.rounds| && r < |s.rounds[rk.round].samples|
    case Judge => rk.stage.Reducing? && rk.round < |s.rounds| && Full(s.rounds[rk.round])
    case Resume => s.draining && forall q :: 0 <= q < |s.ranks| ==> s.ranks[q].stage.Done?
    case Reset => rk.stage.Done? && !s.draining
  }

  /** drainP2p(): closes an idle slot. */
  function CloseIdle(slot: Slot): Slot { if slot.Idle? then Closed else slot }

  /** What the pass of the round does at the top of the loop, except sending dummies. */
  function TopRank(rk: Rank): Rank {
    if rk.pass == 1 then rk.(slot := CloseIdle(rk.slot), blocked := rk.slot.Active?, stage := Closing)
    else rk.(stage := Work)
  }

  ghost function StepRank(s: State, r: Rid, step: Step): Rank
    requires Enabled(s, r, step)
  {
    var rk := s.ranks[r];
    match step
    case Send(d) => rk.(sent := rk.sent + 1)
    case Publish => rk.(slot := Active, place := InRecv)
    case ReturnReal => rk.(net := rk.net - 1, place := Got(false))
    case ReturnDummy => rk.(dummies := rk.dummies - 1, taken := rk.taken + 1, place := Got(true))
    case ReadFlag => rk.(place := Read(rk.place.dummy, rk.phase))
    case StoreSlot =>
      if rk.place.flag then rk.(slot := Closed, place := Parked) else rk.(slot := Idle, place := Uncounted)
    case Count => rk.(recv := rk.recv + 1, place := Out)
    case Unpark => rk.(place := Out)
    case Receive => rk.(net := rk.net - 1, recv := rk.recv + 1)
    case ReceiveDummy => rk.(dummies := rk.dummies - 1, recv := rk.recv + 1)
    case CloseGate => rk.(stage := AtBarrier, round := 0, pass := 0, next := 0, taken := 0, blocked := false)
    case StartDrain => rk.(slot := CloseIdle(rk.slot), stage := Top)
    case TopStep(_) => TopRank(rk)
    case SetFlag => rk.(phase := true, stage := Work)
    case SendDummy => rk.(next := rk.next + 1)
    case EndSends => rk.(stage := Work)
    case ReadRecv => rk.(stage := Counted(rk.recv))
    case Reduce(_, _) => rk.(stage := Reducing)
    case Judge =>
      var round := s.rounds[rk.round];
      if Finished(round) then rk.(stage := Done)
      else rk.(stage := Top, round := rk.round + 1, pass := NextPass(round))
    case Resume => rk
    case Reset => rk.(phase := false, slot := Idle, stage := Running)
  }

  /** The last rank to close its gate starts the drain: all are at the barrier. */
  ghost predicate LastToClose(s: State, r: Rid) {
    forall q :: 0 <= q < |s.ranks| && q != r ==> s.ranks[q].stage.AtBarrier?
  }

  /** A rank that is blocked posts its dummy to the sender in pass 2. */
  ghost predicate Posts(rk: Rank) { rk.pass == 2 && rk.blocked }

  ghost function StepShared(s: State, r: Rid, step: Step): State
    requires Enabled(s, r, step)
  {
    var rk, n := s.ranks[r], |s.ranks|;
    match step
    case CloseGate =>
      if LastToClose(s, r) then s.(draining := true, rounds := [EmptyRound(0, n)], posted := seq(n, _ => [])) else s
    case TopStep(sender) =>
      if Posts(rk) && sender < |s.posted| then s.(posted := s.posted[sender := s.posted[sender] + [r]]) else s
    case Reduce(busy, dummySends) =>
      var sample := Sample(rk.sent, rk.stage.recv, rk.slot.Active?, busy, dummySends);
      var round := s.rounds[rk.round];
      var round' := round.(samples := round.samples[r := Some(sample)]);
      var rounds := s.rounds[rk.round := round'];
      s.(rounds := if Full(round') && !Finished(round') then rounds + [EmptyRound(NextPass(round'), n)] else rounds)
    case Resume => s.(draining := false)
    case _ => s
  }

  /** The ranks after the step: a message or a dummy arrives in the network of its receiver. */
  ghost function StepRanks(s: State, r: Rid, step: Step): seq<Rank>
    requires Enabled(s, r, step)
  {
    var ranks := s.ranks[r := StepRank(s, r, step)];
    match step
    case Send(d) => ranks[d := ranks[d].(net := ranks[d].net + 1)]
    case SendDummy =>
      var d := s.posted[r][s.ranks[r].next];
      ranks[d := ranks[d].(dummies := ranks[d].dummies + 1)]
    case _ => ranks
  }

  ghost function Apply(s: State, r: Rid, step: Step): State
    requires Enabled(s, r, step)
  {
    StepShared(s, r, step).(ranks := StepRanks(s, r, step))
  }

  ghost predicate Next(s: State, s': State) {
    exists r: Rid, step: Step :: Enabled(s, r, step) && s' == Apply(s, r, step)
  }

  const FRESH_RANK: Rank := Rank(0, 0, 0, 0, 0, Out, Idle, false, false, Running, 0, 0, 0)

  ghost predicate Init(s: State) {
    && (forall r :: 0 <= r < |s.ranks| ==> s.ranks[r] == FRESH_RANK)
    && !s.draining && s.rounds == [] && |s.posted| == |s.ranks|
    && (forall r :: 0 <= r < |s.posted| ==> s.posted[r] == [])
  }

  ghost predicate Run(run: seq<State>) {
    && |run| > 0 && Init(run[0])
    && forall i: nat {:trigger StepAt(run, i)} :: i + 1 < |run| ==> StepAt(run, i)
  }

  ghost predicate StepAt(run: seq<State>, i: nat) { i + 1 < |run| && Next(run[i], run[i + 1]) }
}
