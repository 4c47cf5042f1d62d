/**
MPI_Issend across checkpoints: the receiver marks the right message, each announced MPI_Issend
gets exactly one ack, and its request completes only after its message is received.
*/
module P2pIssend {
  import opened Common
  import opened MessageBuffer
  import opened P2pChannel
  import opened P2pChannelProofs

  predicate Unmarked(state: SsendState) { state.Plain? || state.Noticed? || state.Awaiting? }

  ghost predicate IssendOk(s: State, x: nat)
    requires x < |s.issends|
  {
    var i := s.issends[x];
    && i.id < |s.sent|
    // later_sends counts the sends with its envelope posted since
    && (Unmarked(i.state) ==> i.later == |Of(s.sent[i.id + 1..], s.sent[i.id].envelope)|)
    && (i.state.Noticed? || i.state.Awaiting? ==> s.draining)
    && (i.state.Marked? ==> exists k :: 0 <= k < |s.buffer| && s.buffer[k].ack == Some(x))
    && (i.state.Owed? || i.state.Acked? || i.state.Complete? ==> s.sent[i.id] in s.delivered)
    && (i.announced <==> !i.state.Plain? && !(i.state.Complete? && i.acks == 0))
    && i.acks == (if i.announced && (i.state.Acked? || i.state.Complete?) then 1 else 0)
  }

  ghost predicate MarkOk(s: State, k: nat)
    requires k < |s.buffer|
  {
    s.buffer[k].ack.Some? ==>
      var x := s.buffer[k].ack.value;
      x < |s.issends| && s.issends[x].state.Marked? && s.buffer[k].msg.id == s.issends[x].id
  }

  ghost predicate IssendInv(s: State) {
    && (forall x: nat :: x < |s.issends| ==> IssendOk(s, x))
    && (forall k: nat :: k < |s.buffer| ==> MarkOk(s, k))
    && (forall x, y :: 0 <= x < y < |s.issends| ==> s.issends[x].id != s.issends[y].id)
  }

  ghost predicate Inv(s: State) { ChannelInv(s) && IssendInv(s) }

  // ---- marking ----

  /** With an empty network, the buffered messages of an envelope are the last ones sent, so the
      message with 'later' ones of its envelope behind it in the buffer is the one with as many
      sends behind it. */
  lemma FoundIsTheMessage(s: State, x: nat, k: nat)
    requires Inv(s) && Enabled(s, Mark(x, k))
    ensures s.issends[x].id < |s.sent| && s.buffer[k].msg == s.sent[s.issends[x].id]
  {
    assert IssendOk(s, x);
    assert Undelivered(s) == Msgs(s.buffer);
    SameFromEnd(s.delivered, Msgs(s.buffer), s.sent, k, s.issends[x].id);
  }

  /** The messages with equally many of the envelope behind them, among those left and among all. */
  lemma SameFromEnd(delivered: seq<Message>, b: seq<Message>, sent: seq<Message>, k: nat, id: nat)
    requires k < |b| && id < |sent| && b[k].envelope == sent[id].envelope
    requires var e := sent[id].envelope;
             && Of(delivered, e) + Of(b, e) == Of(sent, e)
             && |Of(b[k + 1..], e)| == |Of(sent[id + 1..], e)|
    ensures b[k] == sent[id]
  {
    var e := sent[id].envelope;
    OfSuffix(sent, id, e);
    OfSuffix(b, k, e);
    LastAgree(Of(delivered, e) + Of(b[..k], e), b[k], Of(b[k + 1..], e), Of(sent[..id], e), sent[id],
              Of(sent[id + 1..], e));
  }

  lemma LastAgree(a: seq<Message>, m: Message, b: seq<Message>, a': seq<Message>, m': Message, b': seq<Message>)
    requires a + [m] + b == a' + [m'] + b' && |b| == |b'|
    ensures m == m'
  {
    assert (a + [m] + b)[|a|] == m;
    assert (a' + [m'] + b')[|a'|] == m';
  }

  /** If the buffer has too few messages of the envelope, the application has received it. */
  lemma NotFoundIsReceived(s: State, x: nat)
    requires Inv(s) && Enabled(s, MarkOwed(x))
    ensures s.issends[x].id < |s.sent| && s.sent[s.issends[x].id] in s.delivered
  {
    assert IssendOk(s, x);
    var id := s.issends[x].id;
    var e := s.sent[id].envelope;
    assert Undelivered(s) == Msgs(s.buffer);
    OfSuffix(s.sent, id, e);
    var d := Of(s.delivered, e);
    var at := |Of(s.sent[..id], e)|;
    assert Of(s.sent, e)[at] == s.sent[id];
    assert at < |d|;
    assert d[at] == (d + Of(Msgs(s.buffer), e))[at] == s.sent[id];
    OfMember(s.delivered, e, s.sent[id]);
  }

  /** The message that a notice finds is not marked for another MPI_Issend. */
  lemma FoundIsUnmarked(s: State, x: nat, k: nat)
    requires Inv(s) && Enabled(s, Mark(x, k))
    ensures s.buffer[k].ack == None
  {
    FoundIsTheMessage(s, x, k);
    assert MarkOk(s, k) && IssendOk(s, x);
  }

  // ---- steps ----

  lemma LaterSend(sent: seq<Message>, id: nat, m: Message)
    requires id < |sent|
    ensures var e := sent[id].envelope;
            Of((sent + [m])[id + 1..], e) == Of(sent[id + 1..], e) + if m.envelope == e then [m] else []
  {
    var e := sent[id].envelope;
    assert (sent + [m])[id + 1..] == sent[id + 1..] + [m];
    OfConcat(sent[id + 1..], [m], e);
    assert Of([m], e) == if m.envelope == e then [m] else [];
  }

  lemma IssendSendOne(s: State, step: Step, x: nat)
    requires Inv(s) && Enabled(s, step) && step.Send? && x < |s.issends|
    ensures IssendOk(Apply(s, step), x)
  {
    assert IssendOk(s, x);
    LaterSend(s.sent, s.issends[x].id, Message(|s.sent|, step.envelope));
  }

  lemma IssendSend(s: State, step: Step)
    requires Inv(s) && Enabled(s, step) && step.Send?
    ensures IssendInv(Apply(s, step))
  {
    var s' := Apply(s, step);
    forall x: nat | x < |s'.issends| ensures IssendOk(s', x) {
      if x < |s.issends| {
        IssendSendOne(s, step, x);
      }
    }
    forall k: nat | k < |s'.buffer| ensures MarkOk(s', k) {
      assert MarkOk(s, k);
    }
    forall x: nat | x < |s.issends| ensures s.issends[x].id < |s.sent| {
      assert IssendOk(s, x);
    }
  }

  /** Two buffered messages are not the same. */
  lemma BufferIsDistinct(s: State, i: nat, j: nat)
    requires ChannelInv(s) && i < |s.buffer| && j < |s.buffer| && i != j
    ensures s.buffer[i].msg.id != s.buffer[j].msg.id
  {
    var u := Undelivered(s);
    assert u[i] == s.buffer[i].msg && u[j] == s.buffer[j].msg;
    if u[i].id == u[j].id {
      assert u[i] == u[j];
      assert SameChannel(u[i], u[j]);
    }
  }

  /** A message is taken from the buffer, and its ack, if it has one, is sent. */
  lemma IssendTake(s: State, i: nat)
    requires Inv(s) && i < |s.buffer|
    ensures IssendInv(TakeBuffered(s, i))
  {
    var s', b := TakeBuffered(s, i), s.buffer[i];
    assert MarkOk(s, i);
    assert forall k :: 0 <= k < |s'.buffer| ==> s'.buffer[k] == s.buffer[if k < i then k else k + 1];
    assert Undelivered(s)[i] == b.msg;
    forall k: nat | k < |s'.buffer| ensures MarkOk(s', k) {
      var k0 := if k < i then k else k + 1;
      assert MarkOk(s, k0);
      BufferIsDistinct(s, k0, i);
    }
    forall x: nat | x < |s'.issends| ensures IssendOk(s', x) {
      assert IssendOk(s, x);
      if s.issends[x].state.Marked? && b.ack != Some(x) {
        var k :| 0 <= k < |s.buffer| && s.buffer[k].ack == Some(x);
        assert s'.buffer[if k < i then k else k - 1].ack == Some(x);
      }
    }
  }

  /** The synchronous sends do not depend on what the receiver has posted. */
  lemma IssendSame(s: State, s': State)
    requires IssendInv(s) && s'.sent == s.sent && s'.delivered == s.delivered && s'.buffer == s.buffer
    requires s'.issends == s.issends && s'.draining == s.draining
    ensures IssendInv(s')
  {
    forall x: nat | x < |s'.issends| ensures IssendOk(s', x) {
      assert IssendOk(s, x);
    }
    forall k: nat | k < |s'.buffer| ensures MarkOk(s', k) {
      assert MarkOk(s, k);
    }
  }

  lemma IssendTaken(s: State, step: Step)
    requires Inv(s) && Enabled(s, step) && (step.RecvBuffered? || step.RetryBuffered?)
    ensures IssendInv(Apply(s, step))
  {
    IssendTake(s, step.i);
    IssendSame(TakeBuffered(s, step.i), Apply(s, step));
  }

  lemma IssendMark(s: State, step: Step)
    requires Inv(s) && Enabled(s, step) && step.Mark?
    ensures IssendInv(Apply(s, step))
  {
    var s' := Apply(s, step);
    FoundIsTheMessage(s, step.x, step.i);
    FoundIsUnmarked(s, step.x, step.i);
    forall k: nat | k < |s'.buffer| ensures MarkOk(s', k) {
      assert MarkOk(s, k) && IssendOk(s, step.x);
    }
    forall x: nat | x < |s'.issends| ensures IssendOk(s', x) {
      assert IssendOk(s, x);
      if x != step.x && s.issends[x].state.Marked? {
        var k :| 0 <= k < |s.buffer| && s.buffer[k].ack == Some(x);
        assert s'.buffer[k].ack == Some(x);
      } else if x == step.x {
        assert s'.buffer[step.i].ack == Some(x);
      }
    }
  }

  lemma IssendMove(s: State, step: Step)
    requires Inv(s) && Enabled(s, step) && (step.Deliver? || step.Drain? || step.EndDrain?)
    ensures IssendInv(Apply(s, step))
  {
    var s' := Apply(s, step);
    forall x: nat | x < |s'.issends| ensures IssendOk(s', x) {
      assert IssendOk(s, x);
      if s.issends[x].state.Marked? {
        var k :| 0 <= k < |s.buffer| && s.buffer[k].ack == Some(x);
        assert s'.buffer[k].ack == Some(x);
      }
    }
    forall k: nat | k < |s'.buffer| ensures MarkOk(s', k) {
      assert k < |s.buffer| ==> MarkOk(s, k);
    }
  }

  /** One synchronous send that is not marked changes. */
  lemma IssendChange(s: State, s': State, x: nat)
    requires IssendInv(s) && x < |s.issends| && !s.issends[x].state.Marked?
    requires |s'.issends| == |s.issends| && s' == s.(issends := s.issends[x := s'.issends[x]])
    requires s'.issends[x].id == s.issends[x].id && !s'.issends[x].state.Marked? && IssendOk(s', x)
    ensures IssendInv(s')
  {
    forall y: nat | y < |s'.issends| ensures IssendOk(s', y) {
      assert IssendOk(s, y);
    }
    forall k: nat | k < |s'.buffer| ensures MarkOk(s', k) {
      assert MarkOk(s, k);
    }
  }

  predicate IsState(step: Step) {
    step.Received? || step.MarkOwed? || step.SendOwed? || step.AckArrives? || step.CompletePlain?
  }

  lemma IssendStateOk(s: State, step: Step)
    requires Inv(s) && Enabled(s, step) && IsState(step)
    ensures IssendOk(Apply(s, step), step.x)
  {
    assert IssendOk(s, step.x);
    if step.MarkOwed? {
      NotFoundIsReceived(s, step.x);
    }
  }

  lemma IssendState(s: State, step: Step)
    requires Inv(s) && Enabled(s, step) && IsState(step)
    ensures IssendInv(Apply(s, step))
  {
    assert IssendOk(s, step.x);
    IssendStateOk(s, step);
    IssendChange(s, Apply(s, step), step.x);
  }

  lemma IssendAnnounce(s: State)
    requires Inv(s) && Enabled(s, StartDrain)
    ensures IssendInv(Apply(s, StartDrain))
  {
    var s' := Apply(s, StartDrain);
    forall x: nat | x < |s'.issends| ensures IssendOk(s', x) {
      assert IssendOk(s, x);
    }
    forall k: nat | k < |s'.buffer| ensures MarkOk(s', k) {
      assert MarkOk(s, k);
    }
  }

  lemma StepInv(s: State, step: Step)
    requires Inv(s) && Enabled(s, step)
    ensures Inv(Apply(s, step))
  {
    ChannelStep(s, step);
    match step
    case Send(_, _) => IssendSend(s, step);
    case RecvBuffered(_, _) => IssendTaken(s, step);
    case RetryBuffered(_) => IssendTaken(s, step);
    case Mark(_, _) => IssendMark(s, step);
    case RecvPosted(_, _) => IssendSame(s, Apply(s, step));
    case ProbeBuffered(_, _, _) => IssendSame(s, Apply(s, step));
    case ProbeNet(_, _, _) => IssendSame(s, Apply(s, step));
    case Park => IssendSame(s, Apply(s, step));
    case RetryPosted => IssendSame(s, Apply(s, step));
    case Deliver(_, _) => IssendMove(s, step);
    case Drain(_) => IssendMove(s, step);
    case EndDrain => IssendMove(s, step);
    case StartDrain => IssendAnnounce(s);
    case _ => IssendState(s, step);
  }

  lemma {:induction false} RunInv(run: seq<State>, i: nat)
    requires Run(run) && i < |run|
    ensures Inv(run[i])
  {
    if i > 0 {
      RunInv(run, i - 1);
      assert StepAt(run, i - 1);
      var step :| Enabled(run[i - 1], step) && run[i] == Apply(run[i - 1], step);
      StepInv(run[i - 1], step);
    }
  }

  // ---- every run ----

  /** The drain is invisible: each step of each run is one that an uncheckpointed run allows, with
      the same sends, posts and receives, or one that changes nothing for the application. */
  lemma DrainIsInvisible(run: seq<State>, i: nat)
    requires Run(run) && i + 1 < |run|
    ensures exists step ::
      Enabled(run[i], step) && run[i + 1] == Apply(run[i], step) &&
      SpecNext(Abstract(run[i]), Abstract(run[i + 1]), Visible(run[i], step))
  {
    RunInv(run, i);
    assert StepAt(run, i);
    var step :| Enabled(run[i], step) && run[i + 1] == Apply(run[i], step);
    StepRefines(run[i], step);
  }

  /** Nothing is lost, duplicated or reordered: of each envelope, the messages delivered, then those
      in the buffer, then those in the network, are the messages sent, in order. */
  lemma NothingIsLost(run: seq<State>, i: nat, e: Envelope)
    requires Run(run) && i < |run|
    ensures Of(run[i].delivered, e) + Of(Msgs(run[i].buffer), e) + Of(run[i].net, e) == Of(run[i].sent, e)
  {
    RunInv(run, i);
    OfConcat(Msgs(run[i].buffer), run[i].net, e);
    assert Of(run[i].delivered, e) + Of(Undelivered(run[i]), e) == Of(run[i].sent, e);
  }

  /** A notice marks exactly the message of its MPI_Issend, which no other notice marked; if it
      finds none, the application has received the message. */
  lemma MarkHitsItsMessage(run: seq<State>, i: nat, x: nat, k: nat)
    requires Run(run) && i < |run| && x < |run[i].issends|
    ensures Enabled(run[i], Mark(x, k)) ==>
              run[i].buffer[k].msg.id == run[i].issends[x].id && run[i].buffer[k].ack == None
    ensures Enabled(run[i], MarkOwed(x)) ==> exists m :: m in run[i].delivered && m.id == run[i].issends[x].id
  {
    RunInv(run, i);
    if Enabled(run[i], Mark(x, k)) {
      FoundIsTheMessage(run[i], x, k);
      FoundIsUnmarked(run[i], x, k);
    }
    if Enabled(run[i], MarkOwed(x)) {
      NotFoundIsReceived(run[i], x);
    }
  }

  /** Each announced MPI_Issend gets exactly one ack, and an MPI_Issend completes only after its
      message is received.  Between checkpoints an announced one is on its way to its ack: its
      buffered message is marked, its ack is owed or sent, or it is complete. */
  lemma OneAck(run: seq<State>, i: nat, x: nat)
    requires Run(run) && i < |run| && x < |run[i].issends|
    ensures var issend := run[i].issends[x];
      && issend.acks <= 1
      && (issend.state.Complete? ==> exists m :: m in run[i].delivered && m.id == issend.id)
      && (issend.announced && issend.state.Complete? ==> issend.acks == 1)
      && (issend.announced && !run[i].draining ==>
            || issend.state.Owed? || issend.state.Acked? || issend.state.Complete?
            || exists k :: 0 <= k < |run[i].buffer| && run[i].buffer[k] == Buffered(run[i].buffer[k].msg, Some(x)) &&
                 run[i].buffer[k].msg.id == issend.id)
  {
    RunInv(run, i);
    var s := run[i];
    assert IssendOk(s, x);
    if s.issends[x].state.Marked? {
      var k: nat :| k < |s.buffer| && s.buffer[k].ack == Some(x);
      assert MarkOk(s, k);
    }
  }
}
