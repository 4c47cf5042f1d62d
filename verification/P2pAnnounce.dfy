/**
Which MPI_Issends the sender announces: every one that a checkpoint finds pending, so no message of
an MPI_Issend waits in MANA's buffer without its ack.
*/
module P2pAnnounce {
  import opened Common
  import opened MessageBuffer
  import opened P2pChannel
  import opened P2pChannelProofs
  import opened P2pIssend

  /** The buffered message of an MPI_Issend is marked for it, or the drain is on the way to that. */
  predicate BufferedOk(b: Buffered, issend: Issend, x: nat) {
    b.msg.id == issend.id ==> issend.state.Noticed? || issend.state.Awaiting? || b.ack == Some(x)
  }

  ghost predicate AnnounceInv(s: State) {
    && (s.draining ==> forall x :: 0 <= x < |s.issends| ==> !s.issends[x].state.Plain?)
    && (forall k: nat, x: nat :: k < |s.buffer| && x < |s.issends| ==> BufferedOk(s.buffer[k], s.issends[x], x))
  }

  // ---- a received message is no longer there ----

  lemma {:induction false} OfRises(ms: seq<Message>, e: Envelope)
    requires forall i, j :: 0 <= i < j < |ms| ==> ms[i].id < ms[j].id
    ensures forall i, j :: 0 <= i < j < |Of(ms, e)| ==> Of(ms, e)[i].id < Of(ms, e)[j].id
    ensures forall i :: 0 <= i < |Of(ms, e)| ==> Of(ms, e)[i] in ms
  {
    if ms != [] {
      OfRises(ms[1..], e);
    }
  }

  lemma DeliveredIsGone(s: State, m: Message, at: nat)
    requires ChannelInv(s) && m in s.delivered && at < |Undelivered(s)|
    ensures Undelivered(s)[at].id != m.id
  {
    var u, e := Undelivered(s), m.envelope;
    var all := Of(s.sent, e);
    OfRises(s.sent, e);
    OfMember(s.delivered, e, m);
    assert all == Of(s.delivered, e) + Of(u, e);
    var i :| 0 <= i < |Of(s.delivered, e)| && Of(s.delivered, e)[i] == m;
    assert all[i] == m && m in s.sent;
    forall j | 0 <= j < |Of(u, e)| ensures Of(u, e)[j].id != m.id {
      assert all[|Of(s.delivered, e)| + j] == Of(u, e)[j];
    }
    if u[at].id == m.id {
      OfMember(u, e, u[at]);
    }
  }

  // ---- steps ----

  /** A new MPI_Issend is not pending at a checkpoint yet, and its message is not in the buffer. */
  lemma AnnounceSend(s: State, step: Step)
    requires Inv(s) && AnnounceInv(s) && Enabled(s, step) && step.Send?
    ensures AnnounceInv(Apply(s, step))
  {
    var s' := Apply(s, step);
    forall k: nat, x: nat | k < |s'.buffer| && x < |s'.issends| ensures BufferedOk(s'.buffer[k], s'.issends[x], x) {
      if x < |s.issends| {
        assert BufferedOk(s.buffer[k], s.issends[x], x);
      } else {
        assert Undelivered(s)[k] == s.buffer[k].msg;
      }
    }
  }

  /** The message that the drain moves is not marked and not received yet. */
  lemma AnnounceDrain(s: State, step: Step)
    requires Inv(s) && AnnounceInv(s) && Enabled(s, step) && step.Drain?
    ensures AnnounceInv(Apply(s, step))
  {
    var s', at := Apply(s, step), |s.buffer| + step.i;
    assert Undelivered(s)[at] == s.net[step.i];
    forall k: nat, x: nat | k < |s'.buffer| && x < |s'.issends| ensures BufferedOk(s'.buffer[k], s'.issends[x], x) {
      if k < |s.buffer| {
        assert BufferedOk(s.buffer[k], s.issends[x], x);
      } else if s.net[step.i].id == s.issends[x].id {
        DrainedIsAnnounced(s, step.i, x);
      }
    }
  }

  lemma DrainedIsAnnounced(s: State, i: nat, x: nat)
    requires Inv(s) && AnnounceInv(s) && s.draining && i < |s.net| && x < |s.issends|
    requires s.net[i].id == s.issends[x].id
    ensures s.issends[x].state.Noticed? || s.issends[x].state.Awaiting?
  {
    var u, at := Undelivered(s), |s.buffer| + i;
    assert IssendOk(s, x) && u[at] == s.net[i];
    if s.issends[x].state.Marked? {
      var k: nat :| k < |s.buffer| && s.buffer[k].ack == Some(x);
      assert MarkOk(s, k) && u[k] == s.buffer[k].msg;
      assert u[k] == u[at] && SameChannel(u[k], u[at]);
    } else if s.sent[s.issends[x].id] in s.delivered {
      DeliveredIsGone(s, s.sent[s.issends[x].id], at);
    }
  }

  lemma AnnounceTaken(s: State, step: Step)
    requires Inv(s) && AnnounceInv(s) && Enabled(s, step) && (step.RecvBuffered? || step.RetryBuffered?)
    ensures AnnounceInv(Apply(s, step))
  {
    var s' := Apply(s, step);
    assert MarkOk(s, step.i);
    forall k: nat, x: nat | k < |s'.buffer| && x < |s'.issends| ensures BufferedOk(s'.buffer[k], s'.issends[x], x) {
      var k0 := if k < step.i then k else k + 1;
      assert s'.buffer[k] == s.buffer[k0] && BufferedOk(s.buffer[k0], s.issends[x], x);
      if s.buffer[step.i].ack == Some(x) {
        BufferIsDistinct(s, k0, step.i);
      }
    }
  }

  lemma AnnounceMark(s: State, step: Step)
    requires Inv(s) && AnnounceInv(s) && Enabled(s, step) && step.Mark?
    ensures AnnounceInv(Apply(s, step))
  {
    var s' := Apply(s, step);
    FoundIsTheMessage(s, step.x, step.i);
    FoundIsUnmarked(s, step.x, step.i);
    assert IssendOk(s, step.x);
    forall k: nat, x: nat | k < |s'.buffer| && x < |s'.issends| ensures BufferedOk(s'.buffer[k], s'.issends[x], x) {
      assert BufferedOk(s.buffer[k], s.issends[x], x);
      if k != step.i {
        BufferIsDistinct(s, k, step.i);
      }
    }
  }

  /** One synchronous send changes; its message is received, or it is not a plain one. */
  lemma AnnounceState(s: State, step: Step)
    requires Inv(s) && AnnounceInv(s) && Enabled(s, step) && IsState(step)
    ensures AnnounceInv(Apply(s, step))
  {
    var s' := Apply(s, step);
    assert IssendOk(s, step.x);
    if step.MarkOwed? {
      NotFoundIsReceived(s, step.x);
    }
    forall k: nat, x: nat | k < |s'.buffer| && x < |s'.issends| ensures BufferedOk(s'.buffer[k], s'.issends[x], x) {
      assert BufferedOk(s.buffer[k], s.issends[x], x) && MarkOk(s, k);
      if x == step.x && step.MarkOwed? {
        assert Undelivered(s)[k] == s.buffer[k].msg;
        DeliveredIsGone(s, s.sent[s.issends[x].id], k);
      }
    }
  }

  lemma AnnounceStart(s: State)
    requires Inv(s) && AnnounceInv(s) && Enabled(s, StartDrain)
    ensures AnnounceInv(Apply(s, StartDrain))
  {
    var s' := Apply(s, StartDrain);
    forall k: nat, x: nat | k < |s'.buffer| && x < |s'.issends| ensures BufferedOk(s'.buffer[k], s'.issends[x], x) {
      assert BufferedOk(s.buffer[k], s.issends[x], x);
    }
  }

  lemma AnnounceSame(s: State, s': State)
    requires AnnounceInv(s) && s'.buffer == s.buffer && s'.issends == s.issends && (s'.draining ==> s.draining)
    ensures AnnounceInv(s')
  {
  }

  lemma AnnounceStep(s: State, step: Step)
    requires Inv(s) && AnnounceInv(s) && Enabled(s, step)
    ensures AnnounceInv(Apply(s, step))
  {
    match step
    case Send(_, _) => AnnounceSend(s, step);
    case Drain(_) => AnnounceDrain(s, step);
    case RecvBuffered(_, _) => AnnounceTaken(s, step);
    case RetryBuffered(_) => AnnounceTaken(s, step);
    case Mark(_, _) => AnnounceMark(s, step);
    case StartDrain => AnnounceStart(s);
    case Received(_) => AnnounceState(s, step);
    case MarkOwed(_) => AnnounceState(s, step);
    case SendOwed(_) => AnnounceState(s, step);
    case AckArrives(_) => AnnounceState(s, step);
    case CompletePlain(_) => AnnounceState(s, step);
    case _ => AnnounceSame(s, Apply(s, step));
  }

  lemma {:induction false} RunAnnounced(run: seq<State>, i: nat)
    requires Run(run) && i < |run|
    ensures AnnounceInv(run[i])
  {
    if i > 0 {
      RunAnnounced(run, i - 1);
      RunInv(run, i - 1);
      assert StepAt(run, i - 1);
      var step :| Enabled(run[i - 1], step) && run[i] == Apply(run[i - 1], step);
      AnnounceStep(run[i - 1], step);
    }
  }

  // ---- every run ----

  /** A checkpoint announces every MPI_Issend that it finds pending: while it drains, none is plain;
      between checkpoints, each buffered message of an MPI_Issend is marked to be acked. */
  lemma EveryIssendIsAnnounced(run: seq<State>, i: nat, x: nat, k: nat)
    requires Run(run) && i < |run| && x < |run[i].issends|
    ensures run[i].draining ==> !run[i].issends[x].state.Plain?
    ensures !run[i].draining && k < |run[i].buffer| && run[i].buffer[k].msg.id == run[i].issends[x].id ==>
              run[i].buffer[k].ack == Some(x)
  {
    RunAnnounced(run, i);
    RunInv(run, i);
    assert IssendOk(run[i], x);
    if k < |run[i].buffer| {
      assert BufferedOk(run[i].buffer[k], run[i].issends[x], x);
    }
  }

  /** Once the application has received the message of an MPI_Issend that was announced, its ack is
      sent, or is sent as soon as the rank goes on. */
  lemma ReceivedIsAcked(run: seq<State>, i: nat, x: nat, m: Message)
    requires Run(run) && i < |run| && x < |run[i].issends| && !run[i].draining
    requires run[i].issends[x].announced && m in run[i].delivered && m.id == run[i].issends[x].id
    ensures run[i].issends[x].acks == 1 || Enabled(run[i], SendOwed(x))
  {
    RunInv(run, i);
    var s := run[i];
    assert IssendOk(s, x);
    NotMarked(s, x, m);
  }

  /** Between checkpoints, an MPI_Issend whose message the application has received can complete: the
      MPI library completes it, or its ack is sent and arrives. */
  lemma ReceivedCanComplete(run: seq<State>, i: nat, x: nat, m: Message) returns (path: seq<State>)
    requires Run(run) && i < |run| && x < |run[i].issends| && !run[i].draining
    requires m in run[i].delivered && m.id == run[i].issends[x].id
    ensures |path| > 0 && path[0] == run[i] && (forall j :: 0 <= j < |path| - 1 ==> Next(path[j], path[j + 1]))
    ensures var s' := path[|path| - 1]; x < |s'.issends| && s'.issends[x].state.Complete?
  {
    RunInv(run, i);
    var s := run[i];
    assert IssendOk(s, x);
    NotMarked(s, x, m);
    path := [s];
    if s.issends[x].state.Plain? {
      PlainIsDelivered(s, x, m);
      path := path + [Apply(s, CompletePlain(x))];
    } else if s.issends[x].state.Owed? {
      var s' := Apply(s, SendOwed(x));
      path := path + [s'] + [Apply(s', AckArrives(x))];
    } else if s.issends[x].state.Acked? {
      path := path + [Apply(s, AckArrives(x))];
    }
  }

  lemma NotMarked(s: State, x: nat, m: Message)
    requires Inv(s) && x < |s.issends| && m in s.delivered && m.id == s.issends[x].id
    ensures !s.issends[x].state.Marked?
  {
    assert IssendOk(s, x);
    if s.issends[x].state.Marked? {
      var k: nat :| k < |s.buffer| && s.buffer[k].ack == Some(x);
      assert MarkOk(s, k) && Undelivered(s)[k] == s.buffer[k].msg;
      DeliveredIsGone(s, m, k);
    }
  }

  lemma PlainIsDelivered(s: State, x: nat, m: Message)
    requires Inv(s) && x < |s.issends| && m in s.delivered && m.id == s.issends[x].id
    ensures s.issends[x].id < |s.sent| && s.sent[s.issends[x].id] == m
  {
    var e := m.envelope;
    OfMember(s.delivered, e, m);
    OfMember(s.sent, e, m);
    var d, u := Of(s.delivered, e), Of(Undelivered(s), e);
    assert d + u == Of(s.sent, e);
    var i :| 0 <= i < |d| && d[i] == m;
    assert (d + u)[i] == m;
  }
}
