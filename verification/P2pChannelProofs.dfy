/**
The drain is invisible: every step is one that the matching rules of MPI allow, or one that
the application does not see.  And every synchronous send that a checkpoint announced gets
exactly one ack, after its message is received.
*/
module P2pChannelProofs {
  import opened Common
  import opened MessageBuffer
  import opened P2pChannel

  // ---- the logical channel ----

  /** The messages are ones that were sent; a message's id is its number in the order sent. */
  ghost predicate Ids(sent: seq<Message>, u: seq<Message>) {
    && (forall i :: 0 <= i < |sent| ==> sent[i].id == i)
    && (forall i :: 0 <= i < |u| ==> u[i].id < |sent| && sent[u[i].id] == u[i])
  }

  /** One source's messages on one communicator are in the order sent. */
  ghost predicate Ordered(u: seq<Message>) {
    forall i, j :: 0 <= i < j < |u| && SameChannel(u[i], u[j]) ==> u[i].id < u[j].id
  }

  /** Of each envelope, what was delivered and then the rest is what was sent. */
  ghost predicate Complete(delivered: seq<Message>, u: seq<Message>, sent: seq<Message>) {
    forall e: Envelope :: Of(delivered, e) + Of(u, e) == Of(sent, e)
  }

  /** No posted receive matches a buffered message. */
  ghost predicate PostedInv(s: State) {
    forall k, i :: 0 <= k < |s.posted| && 0 <= i < |s.buffer| ==> !Matches(s.posted[k], s.buffer[i].msg.envelope)
  }

  /** The thread is blocked in at most one MPI_Recv. */
  predicate WaitInv(s: State) { s.blocked ==> s.posted != [] && s.parked.None? }

  /** Buffer, then network, is one logical channel for each source and communicator. */
  ghost predicate Logical(sent: seq<Message>, delivered: seq<Message>, u: seq<Message>) {
    Ids(sent, u) && Ordered(u) && Complete(delivered, u, sent)
  }

  ghost predicate ChannelInv(s: State) {
    Logical(s.sent, s.delivered, Undelivered(s)) && PostedInv(s) && WaitInv(s)
  }

  lemma WithoutAt(u: seq<Message>, at: nat)
    requires at < |u|
    ensures forall i :: 0 <= i < |u| - 1 ==> Without(u, at)[i] == u[if i < at then i else i + 1]
    ensures Ordered(u) ==> Ordered(Without(u, at))
  {
  }

  /** Taking a message out of the undelivered ones. */
  lemma TakeOut(sent: seq<Message>, delivered: seq<Message>, u: seq<Message>, at: nat)
    requires Ids(sent, u) && Ordered(u) && Complete(delivered, u, sent) && at < |u|
    requires forall j :: 0 <= j < at ==> u[j].envelope != u[at].envelope
    ensures Ids(sent, Without(u, at)) && Ordered(Without(u, at))
    ensures Complete(delivered + [u[at]], Without(u, at), sent)
  {
    var u' := Without(u, at);
    WithoutAt(u, at);
    forall e: Envelope ensures Of(delivered + [u[at]], e) + Of(u', e) == Of(sent, e) {
      TakeFirst(u, at, e);
      OfConcat(delivered, [u[at]], e);
      assert Of([u[at]], e) == if u[at].envelope == e then [u[at]] else [];
      assert Of(delivered, e) + Of(u, e) == Of(sent, e);
    }
  }

  lemma TakenOut(u: seq<Message>, at: nat)
    requires Ordered(u) && at < |u|
    ensures (set m | m in Without(u, at)) == (set m | m in u) - {u[at]}
  {
    WithoutAt(u, at);
    var u' := Without(u, at);
    forall m ensures m in u' <==> m in u && m != u[at] {
      if m in u && m != u[at] {
        var i :| 0 <= i < |u| && u[i] == m;
        assert u'[if i < at then i else i - 1] == m;
      }
    }
  }

  lemma ChannelSend(s: State, step: Step)
    requires ChannelInv(s) && Enabled(s, step) && step.Send?
    ensures ChannelInv(Apply(s, step))
  {
    var s' := Apply(s, step);
    var m := Message(|s.sent|, step.envelope);
    assert Undelivered(s') == Undelivered(s) + [m];
    forall e: Envelope ensures Of(s'.delivered, e) + Of(Undelivered(s'), e) == Of(s'.sent, e) {
      OfConcat(Undelivered(s), [m], e);
      OfConcat(s.sent, [m], e);
      assert Of(s.delivered, e) + Of(Undelivered(s), e) == Of(s.sent, e);
    }
  }

  /** A message that is taken from the buffer is the first that its receive matches. */
  lemma ChannelTake(s: State, p: Pattern, i: nat)
    requires ChannelInv(s) && FirstMatch(s.buffer, p, i)
    ensures ChannelInv(TakeBuffered(s, i))
    ensures (set m | m in Undelivered(TakeBuffered(s, i))) == (set m | m in Undelivered(s)) - {s.buffer[i].msg}
  {
    var s', u := TakeBuffered(s, i), Undelivered(s);
    assert Undelivered(s') == Without(u, i);
    assert forall j :: 0 <= j <= i ==> u[j] == s.buffer[j].msg;
    TakeOut(s.sent, s.delivered, u, i);
    TakenOut(u, i);
  }

  /** The states have the same messages and the same posted receives. */
  predicate SameMessages(s: State, s': State) {
    && s'.sent == s.sent && s'.delivered == s.delivered && s'.net == s.net && s'.buffer == s.buffer
    && s'.posted == s.posted
  }

  lemma ChannelSame(s: State, s': State)
    requires ChannelInv(s) && SameMessages(s, s') && WaitInv(s')
    ensures ChannelInv(s') && Undelivered(s') == Undelivered(s)
  {
  }

  lemma ChannelRecvBuffered(s: State, step: Step)
    requires ChannelInv(s) && Enabled(s, step) && step.RecvBuffered?
    ensures ChannelInv(Apply(s, step))
    ensures Abstract(Apply(s, step)) == Abstract(s).(unreceived := Abstract(s).unreceived - {s.buffer[step.i].msg})
  {
    ChannelTake(s, step.p, step.i);
    ChannelSame(TakeBuffered(s, step.i), Apply(s, step));
  }

  lemma ChannelRetry(s: State, step: Step)
    requires ChannelInv(s) && Enabled(s, step) && step.RetryBuffered?
    ensures ChannelInv(Apply(s, step))
    ensures Abstract(Apply(s, step)) == Spec(Abstract(s).unreceived - {s.buffer[step.i].msg}, s.posted)
  {
    ChannelTake(s, s.parked.value, step.i);
    ChannelSame(TakeBuffered(s, step.i), Apply(s, step));
  }

  lemma ChannelDeliver(s: State, step: Step)
    requires ChannelInv(s) && Enabled(s, step) && step.Deliver?
    ensures ChannelInv(Apply(s, step))
    ensures Abstract(Apply(s, step)) ==
            Spec(Abstract(s).unreceived - {s.net[step.i]}, Without(Posted(s), step.k))
  {
    var s', u, at := Apply(s, step), Undelivered(s), |s.buffer| + step.i;
    assert Undelivered(s') == Without(u, at);
    forall j | 0 <= j < at ensures u[j].envelope != u[at].envelope {
      if j < |s.buffer| {
        assert !Matches(s.posted[step.k], s.buffer[j].msg.envelope);
      } else {
        assert u[j] == s.net[j - |s.buffer|];
      }
    }
    TakeOut(s.sent, s.delivered, u, at);
    TakenOut(u, at);
    assert Posted(s') == Without(Posted(s), step.k);
  }

  /** Where the messages of the logical channel are after the drain moved message i of the
      network to the end of the buffer, which has n messages. */
  function Moved(n: nat, at: nat, i: nat): nat {
    if i < n then i else if i == n then at else if i <= at then i - 1 else i
  }

  lemma MoveUp(a: seq<Message>, b: seq<Message>, i: nat)
    requires i < |b|
    ensures var u, u' := a + b, a + ([b[i]] + Without(b, i));
      |u'| == |u| && forall k :: 0 <= k < |u'| ==> u'[k] == u[Moved(|a|, |a| + i, k)]
  {
  }

  lemma MoveUpKeepsOrder(u: seq<Message>, u': seq<Message>, n: nat, at: nat)
    requires n <= at < |u| == |u'| && (forall k :: 0 <= k < |u'| ==> u'[k] == u[Moved(n, at, k)])
    requires Ordered(u) && forall j :: n <= j < at ==> !SameChannel(u[j], u[at])
    ensures Ordered(u')
  {
    forall j, k | 0 <= j < k < |u'| && SameChannel(u'[j], u'[k]) ensures u'[j].id < u'[k].id {
      assert !(j == n && k <= at);
    }
  }

  lemma MoveUpKeepsSet(u: seq<Message>, u': seq<Message>, n: nat, at: nat)
    requires n <= at < |u| == |u'| && (forall k :: 0 <= k < |u'| ==> u'[k] == u[Moved(n, at, k)])
    ensures (set m | m in u') == (set m | m in u)
  {
    forall m ensures m in u' <==> m in u {
      if m in u {
        var k :| 0 <= k < |u| && u[k] == m;
        assert u'[if k < n then k else if k == at then n else if k < at then k + 1 else k] == m;
      }
    }
  }

  /** Moving a message up to the end of the buffer keeps the logical channel. */
  lemma MoveUpLogical(sent: seq<Message>, delivered: seq<Message>, a: seq<Message>, b: seq<Message>, i: nat)
    requires Logical(sent, delivered, a + b) && i < |b|
    requires forall j :: 0 <= j < i ==> !SameChannel(b[j], b[i])
    ensures var u := a + ([b[i]] + Without(b, i));
            Logical(sent, delivered, u) && (set m | m in u) == (set m | m in a + b)
  {
    var u, u' := a + b, a + ([b[i]] + Without(b, i));
    MoveUp(a, b, i);
    assert forall j :: |a| <= j < |u| ==> u[j] == b[j - |a|];
    MoveUpKeepsOrder(u, u', |a|, |a| + i);
    MoveUpKeepsSet(u, u', |a|, |a| + i);
    forall e: Envelope ensures Of(delivered, e) + Of(u', e) == Of(sent, e) {
      DrainKeeps(a, b, i, e);
      assert Of(delivered, e) + Of(u, e) == Of(sent, e);
    }
  }

  /** The drain moves a message within the logical channel of its source and communicator. */
  lemma ChannelDrain(s: State, step: Step)
    requires ChannelInv(s) && Enabled(s, step) && step.Drain?
    ensures ChannelInv(Apply(s, step)) && Abstract(Apply(s, step)) == Abstract(s)
    ensures Undelivered(Apply(s, step)) == Msgs(s.buffer) + ([s.net[step.i]] + Without(s.net, step.i))
  {
    var s', m, a := Apply(s, step), s.net[step.i], Msgs(s.buffer);
    assert Msgs(s'.buffer) == a + [m];
    assert Undelivered(s') == a + ([m] + Without(s.net, step.i));
    MoveUpLogical(s.sent, s.delivered, a, s.net, step.i);
  }

  lemma DrainKeeps(a: seq<Message>, b: seq<Message>, i: nat, e: Envelope)
    requires i < |b| && forall j :: 0 <= j < i ==> !SameChannel(b[j], b[i])
    ensures Of(a + ([b[i]] + Without(b, i)), e) == Of(a + b, e)
  {
    TakeFirst(b, i, e);
    OfConcat(a, b, e);
    OfConcat(a, [b[i]] + Without(b, i), e);
    OfConcat([b[i]], Without(b, i), e);
    assert Of([b[i]], e) == if b[i].envelope == e then [b[i]] else [];
  }

  /** A step that leaves the messages where they are. */
  lemma ChannelRest(s: State, step: Step)
    requires ChannelInv(s) && Enabled(s, step)
    requires !step.Send? && !step.RecvBuffered? && !step.RetryBuffered? && !step.Deliver? && !step.Drain?
    ensures ChannelInv(Apply(s, step)) && Undelivered(Apply(s, step)) == Undelivered(s)
  {
    var s' := Apply(s, step);
    assert Undelivered(s') == Undelivered(s);
    assert s'.sent == s.sent && s'.delivered == s.delivered;
  }

  lemma ChannelStep(s: State, step: Step)
    requires ChannelInv(s) && Enabled(s, step)
    ensures ChannelInv(Apply(s, step))
  {
    match step
    case Send(_, _) => ChannelSend(s, step);
    case RecvBuffered(_, _) => ChannelRecvBuffered(s, step);
    case RetryBuffered(_) => ChannelRetry(s, step);
    case Deliver(_, _) => ChannelDeliver(s, step);
    case Drain(_) => ChannelDrain(s, step);
    case _ => ChannelRest(s, step);
  }

  // ---- the drain is invisible ----

  /** The first message of its channel that a receive matches is the oldest one. */
  lemma FirstIsOldest(u: seq<Message>, at: nat, p: Pattern)
    requires Ordered(u) && at < |u|
    requires forall j :: 0 <= j < at && SameChannel(u[j], u[at]) ==> !Matches(p, u[j].envelope)
    ensures forall m :: m in u && SameChannel(m, u[at]) && Matches(p, m.envelope) ==> u[at].id <= m.id
  {
    forall m | m in u && SameChannel(m, u[at]) && Matches(p, m.envelope) ensures u[at].id <= m.id {
      var j :| 0 <= j < |u| && u[j] == m;
      assert j >= at;
    }
  }

  lemma BufferedIsAllowed(s: State, p: Pattern, i: nat)
    requires ChannelInv(s) && FirstMatch(s.buffer, p, i)
    ensures MayReceive(Abstract(s), p, s.posted, s.buffer[i].msg)
  {
    var u := Undelivered(s);
    assert forall j :: 0 <= j <= i ==> u[j] == s.buffer[j].msg;
    FirstIsOldest(u, i, p);
  }

  /** The receive that is tried again is the application's last posted one. */
  lemma RetryIsAllowed(s: State, i: nat)
    requires ChannelInv(s) && Enabled(s, RetryBuffered(i))
    requires MayReceive(Abstract(s), s.parked.value, s.posted, s.buffer[i].msg)
    requires Abstract(Apply(s, RetryBuffered(i))) == Spec(Abstract(s).unreceived - {s.buffer[i].msg}, s.posted)
    ensures SpecNext(Abstract(s), Abstract(Apply(s, RetryBuffered(i))), Receives(s.parked.value, s.buffer[i].msg))
  {
    var k := |s.posted|;
    assert Posted(s)[k] == s.parked.value && Posted(s)[..k] == s.posted;
    assert Without(Posted(s), k) == s.posted;
  }

  lemma DeliverIsAllowed(s: State, i: nat, k: nat)
    requires ChannelInv(s) && Enabled(s, Deliver(i, k))
    ensures MayReceive(Abstract(s), s.posted[k], s.posted[..k], s.net[i])
  {
    var u, at := Undelivered(s), |s.buffer| + i;
    assert u[at] == s.net[i];
    forall j | 0 <= j < at && SameChannel(u[j], u[at]) ensures !Matches(s.posted[k], u[j].envelope) {
      if j < |s.buffer| {
        assert u[j] == s.buffer[j].msg;
      } else {
        assert u[j] == s.net[j - |s.buffer|];
      }
    }
    FirstIsOldest(u, at, s.posted[k]);
  }

  lemma SendRefines(s: State, step: Step)
    requires ChannelInv(s) && Enabled(s, step) && step.Send?
    ensures SpecNext(Abstract(s), Abstract(Apply(s, step)), Visible(s, step))
  {
    var m := Message(|s.sent|, step.envelope);
    assert Undelivered(Apply(s, step)) == Undelivered(s) + [m];
    assert Abstract(Apply(s, step)).unreceived == Abstract(s).unreceived + {m};
  }

  lemma RecvRefines(s: State, p: Pattern, i: nat)
    requires ChannelInv(s) && Enabled(s, RecvBuffered(p, i))
    ensures SpecNext(Abstract(s), Abstract(Apply(s, RecvBuffered(p, i))), Receives(p, s.buffer[i].msg))
  {
    ChannelRecvBuffered(s, RecvBuffered(p, i));
    BufferedIsAllowed(s, p, i);
    assert Posted(s) == s.posted;
  }

  lemma DeliverRefines(s: State, i: nat, k: nat)
    requires ChannelInv(s) && Enabled(s, Deliver(i, k))
    ensures SpecNext(Abstract(s), Abstract(Apply(s, Deliver(i, k))), Receives(s.posted[k], s.net[i]))
  {
    ChannelDeliver(s, Deliver(i, k));
    DeliverIsAllowed(s, i, k);
    assert Posted(s)[k] == s.posted[k] && Posted(s)[..k] == s.posted[..k];
  }

  /** A dummy un-posts the MPI_Recv, and the retry posts it again: the application sees neither. */
  lemma RestRefines(s: State, step: Step)
    requires ChannelInv(s) && Enabled(s, step)
    requires !step.Send? && !step.RecvBuffered? && !step.RetryBuffered? && !step.Deliver? && !step.Drain?
    ensures SpecNext(Abstract(s), Abstract(Apply(s, step)), Visible(s, step))
  {
    ChannelRest(s, step);
    var s' := Apply(s, step);
    if step.RecvPosted? {
      assert Posted(s') == Posted(s) + [step.p];
    } else {
      assert Posted(s') == Posted(s);
    }
  }

  /** Each step does what the application may see in an uncheckpointed run. */
  lemma StepRefines(s: State, step: Step)
    requires ChannelInv(s) && Enabled(s, step)
    ensures SpecNext(Abstract(s), Abstract(Apply(s, step)), Visible(s, step))
  {
    match step
    case Send(_, _) => SendRefines(s, step);
    case RecvBuffered(p, i) => RecvRefines(s, p, i);
    case RetryBuffered(i) =>
      ChannelRetry(s, step);
      BufferedIsAllowed(s, s.parked.value, i);
      RetryIsAllowed(s, i);
    case Deliver(i, k) => DeliverRefines(s, i, k);
    case Drain(_) => ChannelDrain(s, step);
    case _ => RestRefines(s, step);
  }
}
