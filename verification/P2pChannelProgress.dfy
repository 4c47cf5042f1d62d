/**
That a checkpoint of the channel can always be brought to its end, from any state: the network can be
emptied, and for every announced MPI_Issend the receiver marks the message or owes the ack.
*/
module P2pChannelProgress {
  import opened Common
  import opened MessageBuffer
  import opened P2pChannel

  /** The steps of the drain, and of the receives that the MPI library completes meanwhile. */
  predicate IsDrainStep(step: Step) {
    step.Deliver? || step.Drain? || step.Received? || step.Mark? || step.MarkOwed? || step.EndDrain?
  }

  /** How many steps an MPI_Issend still needs before the drain can end. */
  function StepsLeft(state: SsendState): nat {
    if state.Noticed? then 2 else if state.Awaiting? then 1 else 0
  }

  function AllLeft(issends: seq<Issend>): nat {
    if issends == [] then 0 else StepsLeft(issends[0].state) + AllLeft(issends[1..])
  }

  lemma {:induction false} LeftUpdate(issends: seq<Issend>, x: nat, i: Issend)
    requires x < |issends|
    ensures AllLeft(issends[x := i]) + StepsLeft(issends[x].state) == AllLeft(issends) + StepsLeft(i.state)
  {
    if x == 0 {
      assert issends[0 := i][1..] == issends[1..];
    } else {
      LeftUpdate(issends[1..], x - 1, i);
      assert issends[x := i][1..] == issends[1..][x - 1 := i];
    }
  }

  // ---- each step that is left can be made ----

  /** The oldest message in the network can go to the first posted receive that matches it, or to the
      buffer if none does. */
  lemma NetCanShrink(s: State) returns (step: Step)
    requires s.draining && s.net != []
    ensures IsDrainStep(step) && Enabled(s, step) && Apply(s, step).draining
    ensures |Apply(s, step).net| < |s.net| && Apply(s, step).issends == s.issends
  {
    var k := FirstReceive(s.posted, s.net[0].envelope);
    step := if k.Some? then Deliver(0, k.value) else Drain(0);
  }

  lemma {:induction false} FirstReceive(posted: seq<Pattern>, e: Envelope) returns (k: Option<nat>)
    ensures k.Some? ==> k.value < |posted| && Matches(posted[k.value], e)
    ensures forall j :: 0 <= j < (if k.Some? then k.value else |posted|) ==> !Matches(posted[j], e)
  {
    if posted == [] {
      return None;
    }
    var n := |posted| - 1;
    k := FirstReceive(posted[..n], e);
    if k.None? && Matches(posted[n], e) {
      k := Some(n);
    }
  }

  /** The message with 'later' messages of its envelope behind it is there, or there are too few. */
  lemma {:induction false} FromEnd(queue: seq<Buffered>, e: Envelope, later: nat) returns (at: nat)
    requires later < |Of(Msgs(queue), e)|
    ensures IsFromEnd(queue, e, later, at)
  {
    assert Msgs(queue)[1..] == Msgs(queue[1..]);
    if later < |Of(Msgs(queue[1..]), e)| {
      at := FromEnd(queue[1..], e, later);
      assert Msgs(queue)[at + 2..] == Msgs(queue[1..])[at + 1..];
      at := at + 1;
    } else {
      at := 0;
    }
  }

  lemma IssendCanGoOn(s: State, x: nat) returns (step: Step)
    requires s.draining && s.net == [] && x < |s.issends| && StepsLeft(s.issends[x].state) > 0
    ensures IsDrainStep(step) && Enabled(s, step) && Apply(s, step).draining && Apply(s, step).net == []
    ensures AllLeft(Apply(s, step).issends) < AllLeft(s.issends)
  {
    if y: nat :| y < |s.issends| && s.issends[y].state.Noticed? {
      step := Received(y);
      LeftUpdate(s.issends, y, s.issends[y].(state := Awaiting));
    } else {
      var e, later := EnvelopeOf(s, x), s.issends[x].later;
      if later < |Of(Msgs(s.buffer), e)| {
        var at := FromEnd(s.buffer, e, later);
        step := Mark(x, at);
        LeftUpdate(s.issends, x, s.issends[x].(state := Marked));
      } else {
        step := MarkOwed(x);
        LeftUpdate(s.issends, x, s.issends[x].(state := Owed));
      }
    }
  }

  // ---- the drain can end ----

  /** A continuation by steps of the drain alone. */
  ghost predicate DrainPath(path: seq<State>) {
    && |path| > 0
    && forall i :: 0 <= i < |path| - 1 ==> DrainNext(path[i], path[i + 1])
  }

  ghost predicate DrainNext(s: State, s': State) {
    exists step :: IsDrainStep(step) && Enabled(s, step) && s' == Apply(s, step)
  }

  lemma {:induction false} SomeLeft(issends: seq<Issend>) returns (x: nat)
    requires AllLeft(issends) > 0
    ensures x < |issends| && StepsLeft(issends[x].state) > 0
  {
    if StepsLeft(issends[0].state) > 0 {
      return 0;
    }
    x := SomeLeft(issends[1..]);
    x := x + 1;
  }

  lemma {:induction false} NoneLeft(issends: seq<Issend>, x: nat)
    requires AllLeft(issends) == 0 && x < |issends|
    ensures StepsLeft(issends[x].state) == 0
  {
    if x > 0 {
      NoneLeft(issends[1..], x - 1);
    }
  }

  lemma NextDrainStep(s: State) returns (step: Step)
    requires s.draining
    ensures IsDrainStep(step) && Enabled(s, step)
    ensures var s' := Apply(s, step);
            || (step.EndDrain? && !s'.draining)
            || (s'.draining && |s'.net| < |s.net|)
            || (s'.draining && s'.net == s.net && AllLeft(s'.issends) < AllLeft(s.issends))
  {
    if s.net != [] {
      step := NetCanShrink(s);
    } else if AllLeft(s.issends) > 0 {
      var x := SomeLeft(s.issends);
      step := IssendCanGoOn(s, x);
    } else {
      step := EndDrain;
      forall x | 0 <= x < |s.issends| ensures !s.issends[x].state.Noticed? && !s.issends[x].state.Awaiting? {
        NoneLeft(s.issends, x);
      }
    }
  }

  /** The drain can always end: from every state of a drain, steps of the drain alone lead to its end,
      with nothing left in the network. */
  lemma {:induction false} DrainCanEnd(s: State) returns (path: seq<State>)
    requires s.draining
    ensures DrainPath(path) && path[0] == s
    ensures var s' := path[|path| - 1]; !s'.draining && s'.net == []
    decreases |s.net|, AllLeft(s.issends)
  {
    var step := NextDrainStep(s);
    var s' := Apply(s, step);
    assert DrainNext(s, s');
    if s'.draining {
      var rest := DrainCanEnd(s');
      path := [s] + rest;
    } else {
      path := [s, s'];
    }
  }

  /** A drain ends only when nothing is in the network and no announced MPI_Issend waits for the
      receiver to look for its message. */
  lemma DrainEndsEmpty(s: State, s': State)
    requires Next(s, s') && s.draining && !s'.draining
    ensures s'.net == [] && AllLeft(s'.issends) == 0
  {
    AllZero(s'.issends);
  }

  lemma {:induction false} AllZero(issends: seq<Issend>)
    requires forall x :: 0 <= x < |issends| ==> StepsLeft(issends[x].state) == 0
    ensures AllLeft(issends) == 0
  {
    if issends != [] {
      AllZero(issends[1..]);
    }
  }

  /** From every state between checkpoints, a whole checkpoint can be made. */
  lemma CheckpointCanComplete(s: State) returns (path: seq<State>)
    requires !s.draining
    ensures |path| > 1 && path[0] == s && Next(path[0], path[1]) && path[1].draining && DrainPath(path[1..])
    ensures var s' := path[|path| - 1]; !s'.draining && s'.net == []
  {
    var s1 := Apply(s, StartDrain);
    assert Enabled(s, StartDrain);
    var rest := DrainCanEnd(s1);
    path := [s] + rest;
    assert path[1..] == rest;
  }

  // ---- receives and probes are always possible ----

  lemma {:induction false} FirstBuffered(queue: seq<Buffered>, p: Pattern) returns (at: Option<nat>)
    ensures at.Some? ==> FirstMatch(queue, p, at.value)
    ensures at.None? ==> NoMatch(queue, p)
  {
    if queue == [] {
      return None;
    }
    var n := |queue| - 1;
    at := FirstBuffered(queue[..n], p);
    if at.None? && Matches(p, queue[n].msg.envelope) {
      at := Some(n);
    }
  }

  /** A thread that may make a call can receive: from the buffer, or by a post to the MPI library. */
  lemma CanReceive(s: State, p: Pattern, wait: bool) returns (step: Step)
    requires Free(s)
    ensures Enabled(s, step) && ((step.RecvBuffered? && step.p == p) || step == RecvPosted(p, wait))
  {
    var at := FirstBuffered(s.buffer, p);
    step := if at.Some? then RecvBuffered(p, at.value) else RecvPosted(p, wait);
  }

  /** An MPI_Recv that received a dummy can be tried again after the checkpoint. */
  lemma CanRetry(s: State) returns (step: Step)
    requires !s.draining && s.parked.Some?
    ensures Enabled(s, step) && (step.RetryBuffered? || step.RetryPosted?) && Apply(s, step).parked.None?
  {
    var at := FirstBuffered(s.buffer, s.parked.value);
    step := if at.Some? then RetryBuffered(at.value) else RetryPosted;
  }

  lemma {:induction false} FirstInNet(net: seq<Message>, p: Pattern, k: nat) returns (i: nat)
    requires k < |net| && Matches(p, net[k].envelope)
    ensures i <= k && Matches(p, net[i].envelope) && forall j :: 0 <= j < i ==> !Matches(p, net[j].envelope)
  {
    i := k;
    if j :| 0 <= j < k && Matches(p, net[j].envelope) {
      i := FirstInNet(net, p, j);
    }
  }

  /** A probe finds a message that is there: in the buffer, or in the network if no receive waits for
      what the probe matches. */
  lemma ProbeFinds(s: State, p: Pattern, m: Message, track: bool) returns (step: Step)
    requires Free(s) && m in Undelivered(s) && Matches(p, m.envelope)
    requires forall k, i :: 0 <= k < |s.posted| && 0 <= i < |s.net| && Matches(p, s.net[i].envelope) ==>
               !Matches(s.posted[k], s.net[i].envelope)
    ensures Enabled(s, step) && (step.ProbeBuffered? || step.ProbeNet?) && step.p == p && step.track == track
  {
    var at := FirstBuffered(s.buffer, p);
    if at.Some? {
      step := ProbeBuffered(p, at.value, track);
    } else {
      var k :| 0 <= k < |Undelivered(s)| && Undelivered(s)[k] == m;
      assert k >= |s.buffer| && s.net[k - |s.buffer|] == m;
      var i := FirstInNet(s.net, p, k - |s.buffer|);
      step := ProbeNet(p, i, track);
    }
  }
}
