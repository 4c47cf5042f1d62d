/**
The messages to one rank across checkpoints, as a transition system: what the senders sent,
the network, MANA's buffer, the posted receives and the synchronous sends.  The network keeps
the order of the messages of one source and communicator only.  The drain moves a message to
the buffer if it is the next one of its source and communicator and no posted receive matches
it; receives and probes look in the buffer first.  A dummy takes the place of the message of an
MPI_Recv that is blocked during the drain: the receive is then no longer posted, and is tried
again after the checkpoint.
*/
module P2pChannel {
  import opened Common
  import opened MessageBuffer

  /** What has become of an MPI_Issend to the rank. */
  datatype SsendState =
    | Plain        // its request is the MPI library's
    | Noticed      // publishSsendNotices() announced it; the MPI library has not completed it
    | Awaiting     // awaitSsendAck(): its request is the receive of an ack
    | Marked       // markSsendAcks() marked its message in the buffer
    | Owed         // sendOwedSsendAcks() is to send its ack
    | Acked        // its ack is on the way
    | Complete     // its request is complete

  /** id is its message; later is its later_sends; acks counts the acks sent for it. */
  datatype Issend = Issend(id: nat, state: SsendState, later: nat, announced: bool, acks: nat)

  /** What a probe reported, for one probe of the run: the message, then the receive that was posted
      for it (the k-th posted one), then that receive while it waits to be tried again. */
  datatype Claim = NoClaim | Probed(m: Message) | Claimed(m: Message, k: nat) | ClaimParked(m: Message)

  /** sent and delivered are the history; net has the messages in flight, in the order sent.  With
      'blocked', the application thread is in MPI_Recv, with the last posted receive; 'parked' is the
      MPI_Recv that received a dummy and is to be tried again. */
  datatype State = State(
    sent: seq<Message>, delivered: seq<Message>, net: seq<Message>, buffer: seq<Buffered>,
    posted: seq<Pattern>, blocked: bool, parked: Option<Pattern>, issends: seq<Issend>, draining: bool,
    claim: Claim)

  predicate SameChannel(a: Message, b: Message) {
    a.envelope.source == b.envelope.source && a.envelope.comm == b.envelope.comm
  }

  /** The messages of one source and communicator that are not delivered: buffer, then network. */
  function Undelivered(s: State): seq<Message> { Msgs(s.buffer) + s.net }

  datatype Step =
    | Send(envelope: Envelope, synchronous: bool)
    | RecvBuffered(p: Pattern, i: nat)     // MPI_Recv or MPI_Irecv, served from the buffer
    | RecvPosted(p: Pattern, wait: bool)   // MPI_Recv (wait) or MPI_Irecv, posted to the MPI library
    | Deliver(i: nat, k: nat)              // the MPI library matches message i and receive k
    | ProbeBuffered(p: Pattern, i: nat, track: bool)   // a probe that reports a buffered message
    | ProbeNet(p: Pattern, i: nat, track: bool)        //   or one in the network
    | Park                                 // a dummy reaches the blocked MPI_Recv
    | RetryBuffered(i: nat)                // the MPI_Recv is tried again: served from the buffer
    | RetryPosted                          //   or posted again
    | StartDrain                           // publishSsendNotices()
    | Drain(i: nat)                        // recvMsgIntoInternalBuffer()
    | Received(x: nat)                     // awaitSsendAck()
    | Mark(x: nat, i: nat)                 // markSsendAck() finds the message
    | MarkOwed(x: nat)                     //   or does not
    | EndDrain
    | SendOwed(x: nat)
    | AckArrives(x: nat)
    | CompletePlain(x: nat)                // the MPI library completes an MPI_Issend

  /** countSendAfterIssends() */
  function CountSend(issends: seq<Issend>, sent: seq<Message>, e: Envelope): (r: seq<Issend>)
    ensures |r| == |issends|
  {
    seq(|issends|, x requires 0 <= x < |issends| =>
      if (issends[x].state.Plain? || issends[x].state.Noticed?) && issends[x].id < |sent| &&
         sent[issends[x].id].envelope == e
      then issends[x].(later := issends[x].later + 1) else issends[x])
  }

  function Announce(issends: seq<Issend>): (r: seq<Issend>)
    ensures |r| == |issends|
  {
    seq(|issends|, x requires 0 <= x < |issends| =>
      if issends[x].state.Plain? then issends[x].(state := Noticed, announced := true) else issends[x])
  }

  /** The application thread may make a call. */
  predicate Free(s: State) { !s.draining && !s.blocked && s.parked.None? }

  /** A receive or a probe of the message's source, tag and communicator. */
  function Exactly(m: Message): Pattern {
    Pattern(Some(m.envelope.source), Some(m.envelope.tag), m.envelope.comm)
  }

  ghost predicate Enabled(s: State, step: Step) {
    match step
    case Send(_, _) => !s.draining
    case RecvBuffered(p, i) => Free(s) && FirstMatch(s.buffer, p, i)
    case RecvPosted(p, _) => Free(s) && NoMatch(s.buffer, p)
    case ProbeBuffered(p, i, _) => Free(s) && FirstMatch(s.buffer, p, i)
    case ProbeNet(p, i, _) =>
      && Free(s) && NoMatch(s.buffer, p) && i < |s.net| && Matches(p, s.net[i].envelope)
      && (forall j :: 0 <= j < i && SameChannel(s.net[j], s.net[i]) ==> !Matches(p, s.net[j].envelope))
      && (forall k :: 0 <= k < |s.posted| ==> !Matches(s.posted[k], s.net[i].envelope))
    case Park => s.draining && s.blocked && s.posted != []
    case RetryBuffered(i) => !s.draining && s.parked.Some? && FirstMatch(s.buffer, s.parked.value, i)
    case RetryPosted => !s.draining && s.parked.Some? && NoMatch(s.buffer, s.parked.value)
    case Deliver(i, k) =>
      && i < |s.net| && k < |s.posted| && Matches(s.posted[k], s.net[i].envelope)
      && (forall j :: 0 <= j < i && SameChannel(s.net[j], s.net[i]) ==> !Matches(s.posted[k], s.net[j].envelope))
      && (forall j :: 0 <= j < k ==> !Matches(s.posted[j], s.net[i].envelope))
    case StartDrain => !s.draining
    case Drain(i) =>
      && s.draining && i < |s.net|
      && (forall j :: 0 <= j < i ==> !SameChannel(s.net[j], s.net[i]))
      && (forall k :: 0 <= k < |s.posted| ==> !Matches(s.posted[k], s.net[i].envelope))
    case Received(x) =>
      && s.draining && x < |s.issends| && s.issends[x].state.Noticed?
      && (forall j :: 0 <= j < |s.net| ==> s.net[j].id != s.issends[x].id)
    case Mark(x, i) => MayMark(s, x) && IsFromEnd(s.buffer, EnvelopeOf(s, x), s.issends[x].later, i)
    case MarkOwed(x) => MayMark(s, x) && |Of(Msgs(s.buffer), EnvelopeOf(s, x))| <= s.issends[x].later
    case EndDrain =>
      s.draining && s.net == [] &&
      forall x :: 0 <= x < |s.issends| ==> !s.issends[x].state.Noticed? && !s.issends[x].state.Awaiting?
    case SendOwed(x) => !s.draining && x < |s.issends| && s.issends[x].state.Owed?
    case AckArrives(x) => x < |s.issends| && s.issends[x].state.Acked?
    case CompletePlain(x) =>
      && !s.draining && x < |s.issends| && s.issends[x].state.Plain? && s.issends[x].id < |s.sent|
      && s.sent[s.issends[x].id] in s.delivered
  }

  function EnvelopeOf(s: State, x: nat): Envelope {
    if x < |s.issends| && s.issends[x].id < |s.sent| then s.sent[s.issends[x].id].envelope else Envelope(0, 0, 0)
  }

  /** The receiver marks once every message is received and no MPI_Issend is incomplete. */
  ghost predicate MayMark(s: State, x: nat) {
    && s.draining && s.net == [] && x < |s.issends| && s.issends[x].state.Awaiting?
    && forall y :: 0 <= y < |s.issends| ==> !s.issends[y].state.Noticed?
  }

  function Acknowledge(issend: Issend): Issend { issend.(state := Acked, acks := issend.acks + 1) }

  /** consumeMatchingMsgBuffer() */
  function TakeBuffered(s: State, i: nat): State
    requires i < |s.buffer|
  {
    var b := s.buffer[i];
    s.(delivered := s.delivered + [b.msg], buffer := Without(s.buffer, i),
       issends := if b.ack.Some? && b.ack.value < |s.issends|
                  then s.issends[b.ack.value := Acknowledge(s.issends[b.ack.value])] else s.issends)
  }

  /** The probe's message is claimed by the receive that is posted next, if it is for the message. */
  function ClaimPosted(claim: Claim, p: Pattern, k: nat): Claim {
    match claim
    case Probed(m) => if p == Exactly(m) then Claimed(m, k) else NoClaim
    case _ => claim
  }

  /** The k-th posted receive is gone. */
  function ClaimDelivered(claim: Claim, k: nat): Claim {
    match claim
    case Claimed(m, j) => if k == j then NoClaim else if k < j then Claimed(m, j - 1) else claim
    case _ => claim
  }

  ghost function Apply(s: State, step: Step): State
    requires Enabled(s, step)
  {
    match step
    case Send(e, synchronous) =>
      var m := Message(|s.sent|, e);
      var counted := CountSend(s.issends, s.sent, e);
      s.(sent := s.sent + [m], net := s.net + [m],
         issends := if synchronous then counted + [Issend(m.id, Plain, 0, false, 0)] else counted)
    case RecvBuffered(p, i) => TakeBuffered(s, i).(claim := if s.claim.Probed? then NoClaim else s.claim)
    case RecvPosted(p, wait) =>
      s.(posted := s.posted + [p], blocked := wait, claim := ClaimPosted(s.claim, p, |s.posted|))
    case Deliver(i, k) =>
      s.(delivered := s.delivered + [s.net[i]], net := Without(s.net, i), posted := Without(s.posted, k),
         blocked := s.blocked && k + 1 < |s.posted|, claim := ClaimDelivered(s.claim, k))
    case ProbeBuffered(_, i, track) => if track then s.(claim := Probed(s.buffer[i].msg)) else s
    case ProbeNet(_, i, track) => if track then s.(claim := Probed(s.net[i])) else s
    case Park =>
      var last := |s.posted| - 1;
      s.(posted := s.posted[..last], blocked := false, parked := Some(s.posted[last]),
         claim := if s.claim.Claimed? && s.claim.k == last then ClaimParked(s.claim.m) else s.claim)
    case RetryBuffered(i) =>
      TakeBuffered(s, i).(parked := None, claim := if s.claim.ClaimParked? then NoClaim else s.claim)
    case RetryPosted =>
      s.(posted := s.posted + [s.parked.value], blocked := true, parked := None,
         claim := if s.claim.ClaimParked? then Claimed(s.claim.m, |s.posted|) else s.claim)
    case StartDrain => s.(draining := true, issends := Announce(s.issends))
    case Drain(i) => s.(buffer := s.buffer + [Buffered(s.net[i], None)], net := Without(s.net, i))
    case Received(x) => s.(issends := s.issends[x := s.issends[x].(state := Awaiting)])
    case Mark(x, i) =>
      s.(buffer := s.buffer[i := s.buffer[i].(ack := Some(x))],
         issends := s.issends[x := s.issends[x].(state := Marked)])
    case MarkOwed(x) => s.(issends := s.issends[x := s.issends[x].(state := Owed)])
    case EndDrain => s.(draining := false)
    case SendOwed(x) => s.(issends := s.issends[x := Acknowledge(s.issends[x])])
    case AckArrives(x) => s.(issends := s.issends[x := s.issends[x].(state := Complete)])
    case CompletePlain(x) => s.(issends := s.issends[x := s.issends[x].(state := Complete)])
  }

  ghost predicate Next(s: State, s': State) { exists step :: Enabled(s, step) && s' == Apply(s, step) }

  const START: State := State([], [], [], [], [], false, None, [], false, NoClaim)

  ghost predicate Run(run: seq<State>) {
    && |run| > 0 && run[0] == START
    && forall i: nat {:trigger StepAt(run, i)} :: i + 1 < |run| ==> StepAt(run, i)
  }

  ghost predicate StepAt(run: seq<State>, i: nat) { i + 1 < |run| && Next(run[i], run[i + 1]) }

  // ---- what an uncheckpointed run allows ----

  /** The matching rules of section 3.5 of the MPI 3.1 standard: messages that are sent and not
      received, and posted receives in order. */
  datatype Spec = Spec(unreceived: set<Message>, posted: seq<Pattern>)

  datatype Event = NoEvent | Sends(m: Message) | Posts(p: Pattern) | Receives(p: Pattern, m: Message)

  /** A receive takes the oldest message of a source and communicator that it matches, and only
      if no receive posted before matches it. */
  ghost predicate MayReceive(a: Spec, p: Pattern, before: seq<Pattern>, m: Message) {
    && m in a.unreceived && Matches(p, m.envelope)
    && (forall m' :: m' in a.unreceived && SameChannel(m', m) && Matches(p, m'.envelope) ==> m.id <= m'.id)
    && (forall j :: 0 <= j < |before| ==> !Matches(before[j], m.envelope))
  }

  ghost predicate SpecNext(a: Spec, a': Spec, event: Event) {
    match event
    case NoEvent => a' == a
    case Sends(m) => a' == a.(unreceived := a.unreceived + {m}) && forall m' :: m' in a.unreceived ==> m'.id < m.id
    case Posts(p) => a' == a.(posted := a.posted + [p])
    case Receives(p, m) =>
      // a posted receive, or one that is posted and completes at once
      || (exists k: nat :: k < |a.posted| && a.posted[k] == p && MayReceive(a, p, a.posted[..k], m) &&
            a' == Spec(a.unreceived - {m}, Without(a.posted, k)))
      || (MayReceive(a, p, a.posted, m) && a' == a.(unreceived := a.unreceived - {m}))
  }

  /** The application's posted receives: also the one that is to be tried again. */
  function Posted(s: State): seq<Pattern> { s.posted + if s.parked.Some? then [s.parked.value] else [] }

  ghost function Abstract(s: State): Spec { Spec((set m | m in Undelivered(s)), Posted(s)) }

  /** What the application sees of a step. */
  ghost function Visible(s: State, step: Step): Event
    requires Enabled(s, step)
  {
    match step
    case Send(e, _) => Sends(Message(|s.sent|, e))
    case RecvBuffered(p, i) => Receives(p, s.buffer[i].msg)
    case RecvPosted(p, _) => Posts(p)
    case Deliver(i, k) => Receives(s.posted[k], s.net[i])
    case RetryBuffered(i) => Receives(s.parked.value, s.buffer[i].msg)
    case _ => NoEvent
  }
}
