/**
MANA's buffer of drained messages (g_message_queue in src/p2p_drain.cpp): the search that
MPI_Recv, MPI_Irecv and MPI_Iprobe make before they ask the MPI library, and the search from
the end that finds the message of an MPI_Issend.
*/
module MessageBuffer {
  import opened Common

  /** What MPI matches a message by, and what orders messages. */
  datatype Envelope = Envelope(source: nat, tag: nat, comm: nat)

  /** The id tells the messages of a run apart. */
  datatype Message = Message(id: nat, envelope: Envelope)

  /** The arguments of a receive or a probe; None is MPI_ANY_SOURCE or MPI_ANY_TAG. */
  datatype Pattern = Pattern(source: Option<nat>, tag: Option<nat>, comm: nat)

  predicate Matches(p: Pattern, e: Envelope) {
    (p.source == Some(e.source) || p.source.None?) && (p.tag == Some(e.tag) || p.tag.None?) && p.comm == e.comm
  }

  /** A receive or a probe matches exactly the messages of its communicator that have its source or come
      to MPI_ANY_SOURCE, and have its tag or come to MPI_ANY_TAG. */
  lemma MatchesIff(p: Pattern, e: Envelope)
    ensures Matches(p, e) <==>
              p in {Pattern(Some(e.source), Some(e.tag), e.comm), Pattern(Some(e.source), None, e.comm),
                    Pattern(None, Some(e.tag), e.comm), Pattern(None, None, e.comm)}
  {
  }

  /** A buffered message; 'ack' names the MPI_Issend to ack when it is consumed. */
  datatype Buffered = Buffered(msg: Message, ack: Option<nat>)

  /** The messages of one envelope, in order. */
  function Of(ms: seq<Message>, e: Envelope): seq<Message> {
    if ms == [] then [] else (if ms[0].envelope == e then [ms[0]] else []) + Of(ms[1..], e)
  }

  function Msgs(queue: seq<Buffered>): (ms: seq<Message>)
    ensures |ms| == |queue| && forall i :: 0 <= i < |ms| ==> ms[i] == queue[i].msg
  {
    seq(|queue|, i requires 0 <= i < |queue| => queue[i].msg)
  }

  /** i is the first message that matches. */
  predicate FirstMatch(queue: seq<Buffered>, p: Pattern, i: nat) {
    && i < |queue| && Matches(p, queue[i].msg.envelope)
    && forall j :: 0 <= j < i ==> !Matches(p, queue[j].msg.envelope)
  }

  predicate NoMatch(queue: seq<Buffered>, p: Pattern) {
    forall j :: 0 <= j < |queue| ==> !Matches(p, queue[j].msg.envelope)
  }

  /** i is the message of the envelope that has 'later' messages of the envelope behind it. */
  predicate IsFromEnd(queue: seq<Buffered>, e: Envelope, later: nat, i: nat) {
    i < |queue| && queue[i].msg.envelope == e && |Of(Msgs(queue)[i + 1..], e)| == later
  }

  class Queue {
    var queue: seq<Buffered>

    constructor ()
      ensures queue == []
    {
      queue := [];
    }

    /** recvMsgIntoInternalBuffer(): a drained message goes to the end. */
    method Push(m: Message)
      modifies this
      ensures queue == old(queue) + [Buffered(m, None)]
    {
      queue := queue + [Buffered(m, None)];
    }

    /** existsMatchingMsgBuffer() */
    method Find(p: Pattern) returns (found: Option<nat>)
      ensures found.Some? ==> FirstMatch(queue, p, found.value)
      ensures found.None? ==> NoMatch(queue, p)
    {
      var i := 0;
      while i < |queue|
        invariant 0 <= i <= |queue|
        invariant forall j :: 0 <= j < i ==> !Matches(p, queue[j].msg.envelope)
      {
        if Matches(p, queue[i].msg.envelope) {
          return Some(i);
        }
        i := i + 1;
      }
      return None;
    }

    /** consumeMatchingMsgBuffer(): takes out the first match; the caller has found one. */
    method Consume(p: Pattern) returns (b: Buffered, ghost at: nat)
      requires !NoMatch(queue, p)
      modifies this
      ensures FirstMatch(old(queue), p, at) && b == old(queue)[at]
      ensures queue == old(queue)[..at] + old(queue)[at + 1..]
    {
      var found := Find(p);
      b := queue[found.value];
      at := found.value;
      queue := queue[..found.value] + queue[found.value + 1..];
    }

    /** markSsendAck(): counts back from the end to the message that has 'later' messages of
        its envelope behind it, and marks it. */
    method Mark(e: Envelope, later: nat, issend: nat) returns (found: bool, ghost at: nat)
      modifies this
      ensures found <==> later < |Of(Msgs(old(queue)), e)|
      ensures found ==> IsFromEnd(old(queue), e, later, at)
      ensures found ==> queue == old(queue)[at := old(queue)[at].(ack := Some(issend))]
      ensures !found ==> queue == old(queue)
    {
      var n := 0;
      var i := |queue|;
      while i > 0
        invariant 0 <= i <= |queue| && queue == old(queue)
        invariant n == |Of(Msgs(queue)[i..], e)| <= later
      {
        i := i - 1;
        assert Msgs(queue)[i..][1..] == Msgs(queue)[i + 1..];
        if queue[i].msg.envelope == e {
          if n == later {
            OfSuffix(Msgs(queue), i, e);
            queue := queue[i := queue[i].(ack := Some(issend))];
            return true, i;
          }
          n := n + 1;
        }
      }
      assert Msgs(queue)[0..] == Msgs(queue);
      return false, 0;
    }
  }

  // ---- the messages of one envelope ----

  lemma {:induction false} OfConcat(a: seq<Message>, b: seq<Message>, e: Envelope)
    ensures Of(a + b, e) == Of(a, e) + Of(b, e)
  {
    if a == [] {
      assert a + b == b;
    } else {
      OfConcat(a[1..], b, e);
      assert (a + b)[1..] == a[1..] + b;
    }
  }

  lemma OfSuffix(ms: seq<Message>, i: nat, e: Envelope)
    requires i < |ms|
    ensures Of(ms, e) == Of(ms[..i], e) + (if ms[i].envelope == e then [ms[i]] else []) + Of(ms[i + 1..], e)
  {
    assert ms == ms[..i] + ms[i..] && ms[i..][1..] == ms[i + 1..];
    OfConcat(ms[..i], ms[i..], e);
  }

  /** Taking out a message takes it out of the messages of its envelope. */
  lemma OfRemove(ms: seq<Message>, i: nat, e: Envelope)
    requires i < |ms|
    ensures ms[i].envelope != e ==> Of(ms[..i] + ms[i + 1..], e) == Of(ms, e)
    ensures ms[i].envelope == e ==> Of(ms[..i] + ms[i + 1..], e) == Of(ms[..i], e) + Of(ms[i + 1..], e)
    ensures Of(ms, e) == Of(ms[..i], e) + (if ms[i].envelope == e then [ms[i]] else []) + Of(ms[i + 1..], e)
  {
    OfSuffix(ms, i, e);
    OfConcat(ms[..i], ms[i + 1..], e);
  }

  /** If no message before i has the envelope of i, then i is the first of its envelope. */
  lemma {:induction false} OfNone(ms: seq<Message>, e: Envelope)
    requires forall j :: 0 <= j < |ms| ==> ms[j].envelope != e
    ensures Of(ms, e) == []
  {
    if ms != [] {
      OfNone(ms[1..], e);
    }
  }

  lemma {:induction false} OfMember(ms: seq<Message>, e: Envelope, m: Message)
    ensures m in Of(ms, e) <==> m in ms && m.envelope == e
  {
    if ms != [] {
      OfMember(ms[1..], e, m);
      assert ms == [ms[0]] + ms[1..];
    }
  }

  lemma TakeFirst(ms: seq<Message>, i: nat, e: Envelope)
    requires i < |ms| && forall j :: 0 <= j < i ==> ms[j].envelope != ms[i].envelope
    ensures (if ms[i].envelope == e then [ms[i]] else []) + Of(ms[..i] + ms[i + 1..], e) == Of(ms, e)
  {
    OfRemove(ms, i, e);
    if ms[i].envelope == e {
      OfNone(ms[..i], e);
    }
  }
}
