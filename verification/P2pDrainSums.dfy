/** Sums over the ranks, for the counters and the lists of dummies of the point-to-point drain. */
module P2pDrainSums {
  import opened Common
  import opened P2pDrain

  lemma {:induction false} SumUpdate(a: seq<nat>, i: nat, v: nat)
    requires i < |a|
    ensures Sum(a[i := v]) + a[i] == Sum(a) + v
  {
    if i > 0 {
      SumUpdate(a[1..], i - 1, v);
      assert a[i := v][1..] == a[1..][i - 1 := v];
    } else {
      assert a[i := v][1..] == a[1..];
    }
  }

  lemma {:induction false} SumMono(a: seq<nat>, b: seq<nat>)
    requires |a| == |b| && forall i :: 0 <= i < |a| ==> a[i] <= b[i]
    ensures Sum(a) <= Sum(b)
    ensures Sum(a) == Sum(b) ==> a == b
  {
    if |a| > 0 {
      SumMono(a[1..], b[1..]);
      assert a == [a[0]] + a[1..] && b == [b[0]] + b[1..];
    }
  }

  lemma {:induction false} SumZero(a: seq<nat>, i: nat)
    requires Sum(a) == 0 && i < |a|
    ensures a[i] == 0
  {
    if i > 0 {
      SumZero(a[1..], i - 1);
    }
  }

  lemma {:induction false} SumOfZeros(a: seq<nat>)
    requires forall i :: 0 <= i < |a| ==> a[i] == 0
    ensures Sum(a) == 0
  {
    if |a| > 0 {
      SumOfZeros(a[1..]);
    }
  }

  // ---- received and sent messages ----

  /** The rank has a real message that it has not counted yet. */
  predicate HasUncounted(rk: Rank) {
    rk.place == Got(false) || (rk.place.Read? && !rk.place.dummy) || rk.place.Uncounted?
  }

  /** The real messages sent to the rank so far: counted, in flight, or not counted yet. */
  function Load(rk: Rank): nat { rk.recv + rk.net + (if HasUncounted(rk) then 1 else 0) }

  function Loads(ranks: seq<Rank>): seq<nat> { seq(|ranks|, i requires 0 <= i < |ranks| => Load(ranks[i])) }
  function Sents(ranks: seq<Rank>): seq<nat> { seq(|ranks|, i requires 0 <= i < |ranks| => ranks[i].sent) }

  /** Each message sent is counted as received, in flight, or about to be counted. */
  ghost predicate Balanced(s: State) { Sum(Loads(s.ranks)) == Sum(Sents(s.ranks)) }

  lemma LoadsUpdate(ranks: seq<Rank>, r: Rid, rk: Rank)
    requires r < |ranks|
    ensures Sum(Loads(ranks[r := rk])) + Load(ranks[r]) == Sum(Loads(ranks)) + Load(rk)
    ensures Sum(Sents(ranks[r := rk])) + ranks[r].sent == Sum(Sents(ranks)) + rk.sent
  {
    SumUpdate(Loads(ranks), r, Load(rk));
    assert Loads(ranks[r := rk]) == Loads(ranks)[r := Load(rk)];
    SumUpdate(Sents(ranks), r, rk.sent);
    assert Sents(ranks[r := rk]) == Sents(ranks)[r := rk.sent];
  }

  predicate QuietRank(rk: Rank) { rk.net == 0 && !HasUncounted(rk) }

  /** No real message is in flight or uncounted. */
  ghost predicate Quiet(s: State) { forall r :: 0 <= r < |s.ranks| ==> QuietRank(s.ranks[r]) }

  /** The sample of a rank is not newer than the rank. */
  predicate SampleOk(rk: Rank, sample: Sample) {
    sample.sent == rk.sent && sample.recv <= rk.recv && (!sample.inRecv ==> !rk.slot.Active?)
  }

  /** Count soundness: although the ranks read their counters at different times, a received
      total that reaches the sent total means that no real message is in flight or uncounted. */
  lemma ReceivedIsQuiet(s: State, round: Round)
    requires Balanced(s) && |round.samples| == |s.ranks| && Full(round) && Received(round)
    requires forall r :: 0 <= r < |s.ranks| ==> SampleOk(s.ranks[r], round.samples[r].value)
    ensures Quiet(s)
  {
    var loads := Loads(s.ranks);
    assert SentOf(round) == Sents(s.ranks);
    SumMono(RecvOf(round), loads);
    forall r | 0 <= r < |s.ranks| ensures QuietRank(s.ranks[r]) {
      assert RecvOf(round)[r] == loads[r];
    }
  }

  lemma FinishedMeansNoneActive(s: State, round: Round, r: Rid)
    requires |round.samples| == |s.ranks| && Full(round) && Finished(round) && r < |s.ranks|
    requires SampleOk(s.ranks[r], round.samples[r].value)
    ensures !s.ranks[r].slot.Active?
  {
    SumZero(InRecvOf(round), r);
  }

  // ---- the lists of dummies ----

  /** The dummies of the list that are still to send. */
  function Rest(list: seq<Rid>, next: nat): seq<Rid> { if next <= |list| then list[next..] else [] }

  function UnsentBy(posted: seq<seq<Rid>>, ranks: seq<Rank>, r: Rid): seq<nat>
    requires |posted| == |ranks|
  {
    seq(|ranks|, i requires 0 <= i < |ranks| => multiset(Rest(posted[i], ranks[i].next))[r])
  }

  /** The number of dummies for rank r that are posted and not sent. */
  function Unsent(posted: seq<seq<Rid>>, ranks: seq<Rank>, r: Rid): nat
    requires |posted| == |ranks|
  {
    Sum(UnsentBy(posted, ranks, r))
  }

  lemma UnsentSame(posted: seq<seq<Rid>>, ranks: seq<Rank>, ranks': seq<Rank>, r: Rid)
    requires |posted| == |ranks| == |ranks'|
    requires forall i :: 0 <= i < |ranks| ==> ranks'[i].next == ranks[i].next
    ensures Unsent(posted, ranks', r) == Unsent(posted, ranks, r)
  {
    assert UnsentBy(posted, ranks', r) == UnsentBy(posted, ranks, r);
  }

  lemma UnsentPost(posted: seq<seq<Rid>>, ranks: seq<Rank>, sender: Rid, dest: Rid, r: Rid)
    requires |posted| == |ranks| && sender < |posted| && ranks[sender].next <= |posted[sender]|
    ensures Unsent(posted[sender := posted[sender] + [dest]], ranks, r) ==
            Unsent(posted, ranks, r) + (if r == dest then 1 else 0)
  {
    var posted' := posted[sender := posted[sender] + [dest]];
    var a, b := UnsentBy(posted, ranks, r), UnsentBy(posted', ranks, r);
    var k := ranks[sender].next;
    assert Rest(posted'[sender], k) == Rest(posted[sender], k) + [dest];
    assert b[sender] == a[sender] + (if r == dest then 1 else 0);
    SumUpdate(a, sender, b[sender]);
    assert b == a[sender := b[sender]] by {
      assert forall i :: 0 <= i < |a| && i != sender ==> posted'[i] == posted[i];
    }
  }

  lemma UnsentSend(posted: seq<seq<Rid>>, ranks: seq<Rank>, ranks': seq<Rank>, sender: Rid, r: Rid)
    requires |posted| == |ranks| == |ranks'| && sender < |posted| && ranks[sender].next < |posted[sender]|
    requires ranks'[sender].next == ranks[sender].next + 1
    requires forall i :: 0 <= i < |ranks| && i != sender ==> ranks'[i].next == ranks[i].next
    ensures Unsent(posted, ranks', r) + (if posted[sender][ranks[sender].next] == r then 1 else 0) ==
            Unsent(posted, ranks, r)
  {
    var k := ranks[sender].next;
    var a, b := UnsentBy(posted, ranks, r), UnsentBy(posted, ranks', r);
    assert posted[sender][k..] == [posted[sender][k]] + posted[sender][k + 1..];
    SumUpdate(a, sender, b[sender]);
    assert b == a[sender := b[sender]];
  }

  lemma UnsentNone(posted: seq<seq<Rid>>, ranks: seq<Rank>, r: Rid)
    requires |posted| == |ranks|
    requires forall i :: 0 <= i < |ranks| ==> ranks[i].next >= |posted[i]|
    ensures Unsent(posted, ranks, r) == 0
  {
    forall i | 0 <= i < |ranks| ensures Rest(posted[i], ranks[i].next) == [] {
    }
    SumOfZeros(UnsentBy(posted, ranks, r));
  }
}
