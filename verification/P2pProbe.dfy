/**
Probes across checkpoints: what a probe reported is what the receive for it then takes, also if a
checkpoint drains messages in between, or a dummy reaches that receive and it is tried again.
*/
module P2pProbe {
  import opened Common
  import opened MessageBuffer
  import opened P2pChannel
  import opened P2pChannelProofs
  import P2pIssend

  /** m is the oldest of its envelope that is not delivered. */
  predicate OldestOf(u: seq<Message>, m: Message) {
    Of(u, m.envelope) != [] && Of(u, m.envelope)[0] == m
  }

  predicate NonePosted(posted: seq<Pattern>, e: Envelope) {
    forall k :: 0 <= k < |posted| ==> !Matches(posted[k], e)
  }

  /** No receive that was posted before can take the message of the claim, and it is the oldest of its
      envelope. */
  ghost predicate ClaimInv(s: State) {
    match s.claim
    case NoClaim => true
    case Probed(m) =>
      OldestOf(Undelivered(s), m) && NonePosted(s.posted, m.envelope) && !s.blocked && s.parked.None?
    case Claimed(m, k) =>
      && OldestOf(Undelivered(s), m) && k < |s.posted| && s.posted[k] == Exactly(m)
      && NonePosted(s.posted[..k], m.envelope)
    case ClaimParked(m) =>
      OldestOf(Undelivered(s), m) && s.parked == Some(Exactly(m)) && NonePosted(s.posted, m.envelope)
  }

  lemma FirstIsOldestOf(u: seq<Message>, at: nat)
    requires at < |u| && forall j :: 0 <= j < at ==> u[j].envelope != u[at].envelope
    ensures OldestOf(u, u[at])
  {
    var e := u[at].envelope;
    OfSuffix(u, at, e);
    OfNone(u[..at], e);
  }

  lemma OldestIsFirst(u: seq<Message>, at: nat, m: Message)
    requires at < |u| && u[at].envelope == m.envelope && OldestOf(u, m)
    requires forall j :: 0 <= j < at ==> u[j].envelope != m.envelope
    ensures u[at] == m
  {
    FirstIsOldestOf(u, at);
  }

  // ---- what the claiming receive takes ----

  lemma BufferedTakes(s: State, m: Message, i: nat)
    requires OldestOf(Undelivered(s), m) && FirstMatch(s.buffer, Exactly(m), i)
    ensures s.buffer[i].msg == m
  {
    var u := Undelivered(s);
    assert forall j :: 0 <= j <= i ==> u[j] == s.buffer[j].msg;
    OldestIsFirst(u, i, m);
  }

  lemma DeliverTakes(s: State, m: Message, i: nat, k: nat)
    requires ChannelInv(s) && OldestOf(Undelivered(s), m) && Enabled(s, Deliver(i, k)) && s.posted[k] == Exactly(m)
    ensures s.net[i] == m
  {
    var u, at := Undelivered(s), |s.buffer| + i;
    assert u[at] == s.net[i];
    forall j | 0 <= j < at ensures u[j].envelope != m.envelope {
      if j < |s.buffer| {
        assert u[j] == s.buffer[j].msg && !Matches(s.posted[k], s.buffer[j].msg.envelope);
      } else {
        assert u[j] == s.net[j - |s.buffer|];
      }
    }
    OldestIsFirst(u, at, m);
  }

  // ---- every step keeps the claim ----

  lemma BufferProbe(s: State, p: Pattern, i: nat)
    requires ChannelInv(s) && FirstMatch(s.buffer, p, i)
    ensures OldestOf(Undelivered(s), s.buffer[i].msg) && NonePosted(s.posted, s.buffer[i].msg.envelope)
  {
    var u := Undelivered(s);
    assert forall j :: 0 <= j <= i ==> u[j] == s.buffer[j].msg;
    FirstIsOldestOf(u, i);
  }

  lemma NetProbe(s: State, p: Pattern, i: nat)
    requires NoMatch(s.buffer, p) && i < |s.net| && Matches(p, s.net[i].envelope)
    requires forall j :: 0 <= j < i && SameChannel(s.net[j], s.net[i]) ==> !Matches(p, s.net[j].envelope)
    ensures OldestOf(Undelivered(s), s.net[i])
  {
    var u, at := Undelivered(s), |s.buffer| + i;
    assert u[at] == s.net[i];
    forall j | 0 <= j < at ensures u[j].envelope != u[at].envelope {
      if j < |s.buffer| {
        assert u[j] == s.buffer[j].msg;
      } else {
        assert u[j] == s.net[j - |s.buffer|];
      }
    }
    FirstIsOldestOf(u, at);
  }

  lemma ProbeClaims(s: State, step: Step)
    requires ChannelInv(s) && ClaimInv(s) && Enabled(s, step) && (step.ProbeBuffered? || step.ProbeNet?)
    ensures ClaimInv(Apply(s, step))
  {
    assert Undelivered(Apply(s, step)) == Undelivered(s);
    if step.ProbeBuffered? {
      BufferProbe(s, step.p, step.i);
    } else {
      NetProbe(s, step.p, step.i);
    }
  }

  /** The messages of an envelope stay when one of another envelope is taken. */
  lemma OthersStay(u: seq<Message>, at: nat, m: Message)
    requires at < |u| && OldestOf(u, m) && u[at].envelope != m.envelope
    ensures OldestOf(Without(u, at), m)
  {
    OfRemove(u, at, m.envelope);
  }

  lemma TakeKeepsClaim(s: State, i: nat, m: Message)
    requires i < |s.buffer| && OldestOf(Undelivered(s), m) && s.buffer[i].msg.envelope != m.envelope
    ensures OldestOf(Undelivered(TakeBuffered(s, i)), m)
  {
    assert Undelivered(TakeBuffered(s, i)) == Without(Undelivered(s), i);
    OthersStay(Undelivered(s), i, m);
  }

  /** While a receive for the message is posted, the buffer has none of its envelope. */
  lemma BufferHasNone(s: State, m: Message, k: nat, i: nat)
    requires ChannelInv(s) && k < |s.posted| && s.posted[k] == Exactly(m) && i < |s.buffer|
    ensures s.buffer[i].msg.envelope != m.envelope
  {
    assert !Matches(s.posted[k], s.buffer[i].msg.envelope);
  }

  lemma RecvKeepsClaim(s: State, step: Step)
    requires ChannelInv(s) && ClaimInv(s) && Enabled(s, step) && (step.RecvBuffered? || step.RetryBuffered?)
    ensures ClaimInv(Apply(s, step))
  {
    var s' := Apply(s, step);
    if s.claim.Claimed? {
      BufferHasNone(s, s.claim.m, s.claim.k, step.i);
      TakeKeepsClaim(s, step.i, s.claim.m);
      assert Undelivered(s') == Undelivered(TakeBuffered(s, step.i));
    }
  }

  lemma DeliverKeepsOldest(s: State, i: nat, k: nat, m: Message)
    requires Enabled(s, Deliver(i, k)) && OldestOf(Undelivered(s), m) && s.net[i].envelope != m.envelope
    ensures OldestOf(Undelivered(Apply(s, Deliver(i, k))), m)
  {
    var s', at := Apply(s, Deliver(i, k)), |s.buffer| + i;
    assert Undelivered(s)[at] == s.net[i];
    assert Undelivered(s') == Without(Undelivered(s), at);
    OthersStay(Undelivered(s), at, m);
  }

  lemma DeliverKeepsClaim(s: State, i: nat, k: nat)
    requires ClaimInv(s) && Enabled(s, Deliver(i, k))
    ensures ClaimInv(Apply(s, Deliver(i, k)))
  {
    var s' := Apply(s, Deliver(i, k));
    if !s.claim.NoClaim? && !s'.claim.NoClaim? {
      DeliveredIsAnother(s, i, k);
      DeliverKeepsOldest(s, i, k, s.claim.m);
      if s.claim.Claimed? {
        ClaimedMoves(s.posted, k, s.claim.k, s.claim.m.envelope);
      } else {
        NonePostedLess(s.posted, k, s.claim.m.envelope);
      }
    }
  }

  lemma NonePostedLess(posted: seq<Pattern>, k: nat, e: Envelope)
    requires k < |posted| && NonePosted(posted, e)
    ensures NonePosted(Without(posted, k), e)
  {
  }

  lemma ClaimedMoves(posted: seq<Pattern>, k: nat, j: nat, e: Envelope)
    requires k < |posted| && j < |posted| && k != j && NonePosted(posted[..j], e)
    ensures var r, j' := Without(posted, k), if k < j then j - 1 else j;
            r[j'] == posted[j] && NonePosted(r[..j'], e)
  {
    var r, j' := Without(posted, k), if k < j then j - 1 else j;
    forall i | 0 <= i < j' ensures !Matches(r[..j'][i], e) {
      assert r[..j'][i] == posted[..j][if i < k then i else i + 1];
    }
  }

  /** A receive other than the claiming one takes no message of the envelope. */
  lemma DeliveredIsAnother(s: State, i: nat, k: nat)
    requires ClaimInv(s) && Enabled(s, Deliver(i, k)) && !s.claim.NoClaim?
    requires s.claim.Claimed? ==> k != s.claim.k
    ensures s.net[i].envelope != s.claim.m.envelope
  {
    if s.claim.Claimed? {
      if k < s.claim.k {
        assert s.posted[k] == s.posted[..s.claim.k][k];
      } else {
        assert !Matches(s.posted[s.claim.k], s.net[i].envelope);
      }
    }
  }

  lemma PostKeepsClaim(s: State, step: Step)
    requires ChannelInv(s) && ClaimInv(s) && Enabled(s, step) && (step.RecvPosted? || step.RetryPosted? || step.Park?)
    ensures ClaimInv(Apply(s, step))
  {
    var s' := Apply(s, step);
    assert Undelivered(s') == Undelivered(s);
    match s'.claim
    case Claimed(_, k) => assert s'.posted[..k] == s.posted[..k];
    case ClaimParked(_) =>
      if s.claim.Claimed? {
        assert s'.posted == s.posted[..s.claim.k];
      }
    case _ =>
  }

  lemma MessagesKeepClaim(s: State, step: Step)
    requires ChannelInv(s) && ClaimInv(s) && Enabled(s, step) && (step.Send? || step.Drain?) && !s.claim.NoClaim?
    ensures OldestOf(Undelivered(Apply(s, step)), s.claim.m)
  {
    var s', e := Apply(s, step), s.claim.m.envelope;
    if step.Send? {
      var m := Message(|s.sent|, step.envelope);
      assert Undelivered(s') == Undelivered(s) + [m];
      OfConcat(Undelivered(s), [m], e);
    } else {
      ChannelDrain(s, step);
      DrainKeeps(Msgs(s.buffer), s.net, step.i, e);
    }
  }

  lemma RestKeepsClaim(s: State, step: Step)
    requires ChannelInv(s) && ClaimInv(s) && Enabled(s, step)
    requires step.StartDrain? || step.Received? || step.Mark? || step.MarkOwed? || step.EndDrain? || step.SendOwed? ||
             step.AckArrives? || step.CompletePlain?
    ensures ClaimInv(Apply(s, step))
  {
    assert Undelivered(Apply(s, step)) == Undelivered(s);
  }

  lemma ClaimStep(s: State, step: Step)
    requires ChannelInv(s) && ClaimInv(s) && Enabled(s, step)
    ensures ClaimInv(Apply(s, step))
  {
    match step
    case ProbeBuffered(_, _, _) => ProbeClaims(s, step);
    case ProbeNet(_, _, _) => ProbeClaims(s, step);
    case RecvBuffered(_, _) => RecvKeepsClaim(s, step);
    case RetryBuffered(_) => RecvKeepsClaim(s, step);
    case Deliver(i, k) => DeliverKeepsClaim(s, i, k);
    case RecvPosted(_, _) => PostKeepsClaim(s, step);
    case RetryPosted => PostKeepsClaim(s, step);
    case Park => PostKeepsClaim(s, step);
    case Send(_, _) =>
      if !s.claim.NoClaim? {
        MessagesKeepClaim(s, step);
      }
    case Drain(_) =>
      if !s.claim.NoClaim? {
        MessagesKeepClaim(s, step);
      }
    case _ => RestKeepsClaim(s, step);
  }

  lemma RunChannel(run: seq<State>, i: nat)
    requires Run(run) && i < |run|
    ensures ChannelInv(run[i])
  {
    P2pIssend.RunInv(run, i);
  }

  lemma RunStep(run: seq<State>, i: nat)
    requires Run(run) && i + 1 < |run|
    ensures Next(run[i], run[i + 1])
  {
    assert StepAt(run, i);
  }

  lemma ClaimNext(s: State, s': State)
    requires ChannelInv(s) && ClaimInv(s) && Next(s, s')
    ensures ClaimInv(s')
  {
    var step :| Enabled(s, step) && s' == Apply(s, step);
    ClaimStep(s, step);
  }

  lemma {:induction false} RunClaim(run: seq<State>, i: nat)
    requires Run(run) && i < |run|
    ensures ClaimInv(run[i])
  {
    if i > 0 {
      RunClaim(run, i - 1);
      RunChannel(run, i - 1);
      RunStep(run, i - 1);
      ClaimNext(run[i - 1], run[i]);
    }
  }

  /** In every run, with checkpoints anywhere: if a probe reported m and no receive was posted or served
      since, then m is still there, and a receive with its source, tag and communicator takes it, from
      the buffer, from the network, or, after a dummy, when it is tried again. */
  lemma ProbeThenReceive(run: seq<State>, i: nat, at: nat)
    requires Run(run) && i < |run|
    ensures var s := run[i];
            match s.claim
            case NoClaim => true
            case Probed(m) =>
              m in Undelivered(s) && (Enabled(s, RecvBuffered(Exactly(m), at)) ==> s.buffer[at].msg == m)
            case Claimed(m, k) => m in Undelivered(s) && (Enabled(s, Deliver(at, k)) ==> s.net[at] == m)
            case ClaimParked(m) => m in Undelivered(s) && (Enabled(s, RetryBuffered(at)) ==> s.buffer[at].msg == m)
  {
    RunClaim(run, i);
    RunChannel(run, i);
    var s := run[i];
    if !s.claim.NoClaim? {
      OfMember(Undelivered(s), s.claim.m.envelope, s.claim.m);
      if s.claim.Claimed? && Enabled(s, Deliver(at, s.claim.k)) {
        DeliverTakes(s, s.claim.m, at, s.claim.k);
      } else if !s.claim.Claimed? && FirstMatch(s.buffer, Exactly(s.claim.m), at) {
        BufferedTakes(s, s.claim.m, at);
      }
    }
  }
}
