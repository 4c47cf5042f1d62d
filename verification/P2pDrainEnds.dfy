/**
That the point-to-point drain can always end: from every state of a drain that a run reaches, there is
a continuation in which all messages are received, the blocked receives get their dummies, and every
rank leaves the drain loop.
*/
module P2pDrainEnds {
  import opened Common
  import opened P2pDrain
  import opened P2pDrainRounds
  import opened P2pDrainSums
  import opened P2pDrainInvariant
  import opened P2pDrainProgress

  // ---- paths ----

  ghost predicate Path(path: seq<State>) {
    |path| > 0 && forall i :: 0 <= i < |path| - 1 ==> Next(path[i], path[i + 1])
  }

  function Last(path: seq<State>): State
    requires |path| > 0
  {
    path[|path| - 1]
  }

  lemma OneStep(s: State, r: Rid, step: Step) returns (path: seq<State>)
    requires Enabled(s, r, step)
    ensures Path(path) && path[0] == s && Last(path) == Apply(s, r, step)
  {
    path := [s, Apply(s, r, step)];
  }

  lemma Concat(a: seq<State>, b: seq<State>) returns (c: seq<State>)
    requires Path(a) && Path(b) && Last(a) == b[0]
    ensures Path(c) && c[0] == a[0] && Last(c) == Last(b)
  {
    c := a + b[1..];
    forall i | 0 <= i < |c| - 1 ensures Next(c[i], c[i + 1]) {
      if i < |a| - 1 {
        assert Next(a[i], a[i + 1]);
      } else {
        assert c[i] == b[i - (|a| - 1)] && c[i + 1] == b[i + 1 - (|a| - 1)];
      }
    }
  }

  // ---- the application threads ----

  /** What the application thread of a rank and the MPI library have left to do for the rank. */
  function AppLeft(rk: Rank): nat {
    rk.net + match rk.place
             case Got(_) => 3
             case Read(_, _) => 2
             case Uncounted => 1
             case InRecv => if rk.dummies > 0 then 4 else 0
             case _ => 0
  }

  /** Nothing is left to receive, and no MPI_Recv has returned without being done. */
  ghost predicate Calm(s: State) { forall r :: 0 <= r < |s.ranks| ==> AppLeft(s.ranks[r]) == 0 }

  lemma CalmIsQuiet(s: State)
    requires Calm(s)
    ensures Quiet(s)
  {
    forall r | 0 <= r < |s.ranks| ensures QuietRank(s.ranks[r]) {
      assert AppLeft(s.ranks[r]) == 0;
    }
  }

  /** The rank is where it was in the drain loop. */
  predicate SameStage(rk: Rank, rk': Rank) {
    && rk'.stage == rk.stage && rk'.round == rk.round && rk'.pass == rk.pass && rk'.next == rk.next
    && rk'.sent == rk.sent && (QuietRank(rk) ==> rk'.recv == rk.recv && QuietRank(rk'))
  }

  lemma SettleStep(s: State, r: Rid) returns (step: Step)
    requires Inv(s) && s.draining && r < |s.ranks| && AppLeft(s.ranks[r]) > 0
    ensures Enabled(s, r, step)
    ensures var s' := Apply(s, r, step);
            && Inv(s') && s' == s.(ranks := s.ranks[r := s'.ranks[r]])
            && SameStage(s.ranks[r], s'.ranks[r]) && AppLeft(s'.ranks[r]) < AppLeft(s.ranks[r])
  {
    var rk := s.ranks[r];
    assert RankInv(s, r);
    step := if rk.net > 0 then Receive
            else if rk.place.Got? then ReadFlag
            else if rk.place.Read? then StoreSlot
            else if rk.place.Uncounted? then Count else ReturnDummy;
    StepInv(s, r, step);
  }

  lemma {:induction false} SettleRank(s: State, r: Rid) returns (path: seq<State>)
    requires Inv(s) && s.draining && r < |s.ranks|
    ensures Path(path) && path[0] == s && Inv(Last(path)) && r < |Last(path).ranks|
    ensures Last(path) == s.(ranks := s.ranks[r := Last(path).ranks[r]])
    ensures SameStage(s.ranks[r], Last(path).ranks[r]) && AppLeft(Last(path).ranks[r]) == 0
    decreases AppLeft(s.ranks[r])
  {
    if AppLeft(s.ranks[r]) == 0 {
      path := [s];
      assert s.ranks[r := s.ranks[r]] == s.ranks;
    } else {
      var step := SettleStep(s, r);
      path := OneStep(s, r, step);
      var rest := SettleRank(Last(path), r);
      path := Concat(path, rest);
    }
  }

  lemma {:induction false} SettleAll(s: State, k: nat) returns (path: seq<State>)
    requires Inv(s) && s.draining && k <= |s.ranks| && forall r :: 0 <= r < k ==> AppLeft(s.ranks[r]) == 0
    ensures Path(path) && path[0] == s && Inv(Last(path)) && Last(path).draining && Calm(Last(path))
    ensures |Last(path).ranks| == |s.ranks|
    decreases |s.ranks| - k
  {
    if k == |s.ranks| {
      path := [s];
    } else {
      path := SettleRank(s, k);
      var rest := SettleAll(Last(path), k + 1);
      path := Concat(path, rest);
    }
  }

  // ---- how far the drain is ----

  predicate SampleNow(rk: Rank, v: Sample) {
    v.recv == rk.recv && v.sent == rk.sent && v.inRecv == rk.slot.Active? && v.busy == 0 && v.dummySends == 0
  }

  predicate NowRank(rk: Rank, sample: Option<Sample>) {
    (sample.Some? ==> SampleNow(rk, sample.value)) && (rk.stage.Counted? ==> rk.stage.recv == rk.recv)
  }

  /** What the newest round was given is still so. */
  ghost predicate UpToDate(s: State)
    requires LifeShared(s) && s.draining
  {
    forall r: Rid :: r < |s.ranks| ==> NowRank(s.ranks[r], LastRound(s).samples[r])
  }

  function LastRound(s: State): Round
    requires |s.rounds| > 0
  {
    s.rounds[|s.rounds| - 1]
  }

  /** How many rounds may still have to open. */
  ghost function RoundsLeft(s: State): nat
    requires LifeShared(s) && s.draining
  {
    var pass := LastRound(s).pass;
    if pass == 0 then (if UpToDate(s) then 6 else 7)
    else if pass < 4 then 6 - pass
    else if UpToDate(s) then 1 else 2
  }

  function Weight(stage: Stage): nat {
    match stage
    case AtBarrier => 9
    case Top => 8
    case Closing => 7
    case Work => 6
    case Counted(_) => 5
    case Reducing => 4
    case _ => 0
  }

  function RankLeft(rk: Rank, rounds: nat): nat {
    Weight(rk.stage) + if rk.round < rounds then 10 * (rounds - rk.round) else 0
  }

  function RanksLeft(s: State): seq<nat> {
    seq(|s.ranks|, r requires 0 <= r < |s.ranks| => RankLeft(s.ranks[r], |s.rounds|))
  }

  function UnsentOf(s: State): seq<nat>
    requires |s.posted| == |s.ranks|
  {
    seq(|s.ranks|, r requires 0 <= r < |s.ranks| => |Rest(s.posted[r], s.ranks[r].next)|)
  }

  // ---- a step of the checkpoint threads ----

  /** A step that neither opens a round nor sends a dummy nor ends the drain. */
  predicate IsPlain(step: Step) {
    step.StartDrain? || step.TopStep? || step.SetFlag? || step.EndSends? || step.ReadRecv? || step.Judge?
  }

  /** The drain step leaves the messages of the rank alone. */
  predicate SameMessages(rk: Rank, rk': Rank) {
    && AppLeft(rk') == AppLeft(rk) && rk'.sent == rk.sent && rk'.recv == rk.recv && rk'.slot.Active? == rk.slot.Active?
  }

  lemma PlainRank(s: State, r: Rid, step: Step)
    requires Inv(s) && s.draining && Enabled(s, r, step) && IsPlain(step)
    ensures var rk, rk' := s.ranks[r], StepRank(s, r, step);
            && SameMessages(rk, rk') && (rk'.stage.Counted? ==> rk'.stage.recv == rk.recv || rk.stage == rk'.stage)
            && RankLeft(rk', |s.rounds|) < RankLeft(rk, |s.rounds|)
  {
    assert LifeRank(s, r);
    if step.Judge? {
      assert Follows(s.rounds, s.ranks[r].round);
    }
  }

  lemma PlainShape(s: State, r: Rid, step: Step)
    requires Inv(s) && s.draining && Enabled(s, r, step) && IsPlain(step)
    ensures var s' := Apply(s, r, step);
            s'.draining && s'.rounds == s.rounds && s'.ranks == s.ranks[r := StepRank(s, r, step)]
  {
  }

  lemma PlainNow(s: State, s': State, r: Rid)
    requires LifeShared(s) && LifeShared(s') && s.draining && s'.draining && s'.rounds == s.rounds && UpToDate(s)
    requires r < |s.ranks| == |s'.ranks| && s'.ranks == s.ranks[r := s'.ranks[r]]
    requires var rk, rk' := s.ranks[r], s'.ranks[r];
             SameMessages(rk, rk') && (rk'.stage.Counted? ==> rk'.stage.recv == rk.recv || rk.stage == rk'.stage)
    ensures UpToDate(s')
  {
    forall q: Rid | q < |s'.ranks| ensures NowRank(s'.ranks[q], LastRound(s').samples[q]) {
      assert NowRank(s.ranks[q], LastRound(s).samples[q]);
    }
  }

  lemma LeftUpdate(s: State, s': State, r: Rid)
    requires r < |s.ranks| == |s'.ranks| && s'.ranks == s.ranks[r := s'.ranks[r]] && |s'.rounds| == |s.rounds|
    requires RankLeft(s'.ranks[r], |s.rounds|) < RankLeft(s.ranks[r], |s.rounds|)
    ensures Sum(RanksLeft(s')) < Sum(RanksLeft(s))
  {
    SumUpdate(RanksLeft(s), r, RankLeft(s'.ranks[r], |s.rounds|));
    assert RanksLeft(s') == RanksLeft(s)[r := RankLeft(s'.ranks[r], |s.rounds|)];
  }

  lemma StaysCalm(s: State, s': State, r: Rid)
    requires Calm(s) && r < |s.ranks| == |s'.ranks| && s'.ranks == s.ranks[r := s'.ranks[r]]
    requires AppLeft(s'.ranks[r]) == AppLeft(s.ranks[r])
    ensures Calm(s')
  {
    forall q | 0 <= q < |s'.ranks| ensures AppLeft(s'.ranks[q]) == 0 {
      assert AppLeft(s.ranks[q]) == 0;
    }
  }

  lemma PlainStep(s: State, r: Rid, step: Step)
    requires Inv(s) && s.draining && Calm(s) && Enabled(s, r, step) && IsPlain(step)
    ensures var s' := Apply(s, r, step);
            && Inv(s') && s'.draining && Calm(s') && s'.rounds == s.rounds && |s'.ranks| == |s.ranks|
            && RoundsLeft(s') <= RoundsLeft(s) && Sum(RanksLeft(s')) < Sum(RanksLeft(s))
  {
    var s' := Apply(s, r, step);
    StepInv(s, r, step);
    PlainShape(s, r, step);
    PlainRank(s, r, step);
    LeftUpdate(s, s', r);
    StaysCalm(s, s', r);
    if UpToDate(s) {
      PlainNow(s, s', r);
    }
  }

  // ---- a dummy ----

  lemma SendRank(s: State, r: Rid, q: Rid)
    requires Inv(s) && s.draining && Enabled(s, r, SendDummy) && q < |s.ranks|
    ensures var s' := Apply(s, r, SendDummy);
            && |s'.ranks| == |s.ranks|
            && s'.ranks[q].stage == s.ranks[q].stage && s'.ranks[q].round == s.ranks[q].round
            && s'.ranks[q].next == s.ranks[q].next + (if q == r then 1 else 0)
            && (q != s.posted[r][s.ranks[r].next] ==> AppLeft(s'.ranks[q]) == AppLeft(s.ranks[q]))
  {
    StepArrived(s, r, SendDummy, q);
  }

  lemma SendShape(s: State, r: Rid)
    requires Inv(s) && s.draining && Enabled(s, r, SendDummy)
    ensures var s' := Apply(s, r, SendDummy);
            && Inv(s') && s'.draining && s'.rounds == s.rounds && s'.posted == s.posted && |s'.ranks| == |s.ranks|
    ensures LastRound(s).pass == 3
  {
    StepInv(s, r, SendDummy);
    assert LifeRank(s, r);
    P2pDrainRounds.Newest(s, r);
  }

  /** The sums do not depend on what the application threads do. */
  lemma SameSums(s: State, s': State)
    requires |s'.ranks| == |s.ranks| == |s.posted| && s'.posted == s.posted && |s'.rounds| == |s.rounds|
    requires forall q :: 0 <= q < |s.ranks| ==>
               && s'.ranks[q].stage == s.ranks[q].stage && s'.ranks[q].round == s.ranks[q].round
               && s'.ranks[q].next == s.ranks[q].next
    ensures RanksLeft(s') == RanksLeft(s) && UnsentOf(s') == UnsentOf(s)
  {
  }

  lemma SendSums(s: State, s': State, r: Rid)
    requires r < |s'.ranks| == |s.ranks| == |s.posted| && s'.posted == s.posted && |s'.rounds| == |s.rounds|
    requires forall q :: 0 <= q < |s.ranks| ==>
               && s'.ranks[q].stage == s.ranks[q].stage && s'.ranks[q].round == s.ranks[q].round
               && s'.ranks[q].next == s.ranks[q].next + if q == r then 1 else 0
    requires s.ranks[r].next < |s.posted[r]|
    ensures RanksLeft(s') == RanksLeft(s) && Sum(UnsentOf(s')) < Sum(UnsentOf(s))
  {
    var list, next := s.posted[r], s.ranks[r].next;
    SumUpdate(UnsentOf(s), r, |Rest(list, next + 1)|);
    assert UnsentOf(s') == UnsentOf(s)[r := |Rest(list, next + 1)|];
    assert RanksLeft(s') == RanksLeft(s);
  }

  lemma SendStep(s: State, r: Rid)
    requires Inv(s) && s.draining && Calm(s) && Enabled(s, r, SendDummy)
    ensures var s' := Apply(s, r, SendDummy);
            && Inv(s') && s'.draining && s'.rounds == s.rounds && s'.posted == s.posted && |s'.ranks| == |s.ranks|
            && RanksLeft(s') == RanksLeft(s) && Sum(UnsentOf(s')) < Sum(UnsentOf(s))
            && forall q :: 0 <= q < |s.ranks| && q != s.posted[r][s.ranks[r].next] ==> AppLeft(s'.ranks[q]) == 0
  {
    var s' := Apply(s, r, SendDummy);
    SendShape(s, r);
    forall q: Rid | q < |s.ranks|
      ensures s'.ranks[q].stage == s.ranks[q].stage && s'.ranks[q].round == s.ranks[q].round
      ensures s'.ranks[q].next == s.ranks[q].next + if q == r then 1 else 0
      ensures q != s.posted[r][s.ranks[r].next] ==> AppLeft(s'.ranks[q]) == 0
    {
      SendRank(s, r, q);
      assert AppLeft(s.ranks[q]) == 0;
    }
    SendSums(s, s', r);
  }

  lemma DummySettles(s: State, d: Rid) returns (path: seq<State>)
    requires Inv(s) && s.draining && d < |s.ranks|
    requires forall q :: 0 <= q < |s.ranks| && q != d ==> AppLeft(s.ranks[q]) == 0
    ensures Path(path) && path[0] == s && Inv(Last(path)) && Last(path).draining && Calm(Last(path))
    ensures var s' := Last(path);
            && |s'.ranks| == |s.ranks| && s'.rounds == s.rounds && s'.posted == s.posted
            && RanksLeft(s') == RanksLeft(s) && UnsentOf(s') == UnsentOf(s)
  {
    path := SettleRank(s, d);
    var s' := Last(path);
    forall q | 0 <= q < |s'.ranks| ensures AppLeft(s'.ranks[q]) == 0 {
      assert q != d ==> s'.ranks[q] == s.ranks[q];
    }
    SameSums(s, s');
  }

  lemma SendAndSettle(s: State, r: Rid) returns (path: seq<State>)
    requires Inv(s) && s.draining && Calm(s) && Enabled(s, r, SendDummy)
    ensures Path(path) && path[0] == s && Inv(Last(path)) && Last(path).draining && Calm(Last(path))
    ensures var s' := Last(path);
            && |s'.ranks| == |s.ranks| && RoundsLeft(s') == RoundsLeft(s)
            && RanksLeft(s') == RanksLeft(s) && Sum(UnsentOf(s')) < Sum(UnsentOf(s))
  {
    SendStep(s, r);
    SendShape(s, r);
    path := OneStep(s, r, SendDummy);
    var rest := DummySettles(Last(path), s.posted[r][s.ranks[r].next]);
    path := Concat(path, rest);
    PassThree(s, Last(path));
  }

  lemma PassThree(s: State, s': State)
    requires LifeShared(s) && LifeShared(s') && s.draining && s'.draining && s'.rounds == s.rounds
    requires LastRound(s).pass == 3
    ensures RoundsLeft(s') == RoundsLeft(s)
  {
  }

  // ---- a reduction ----

  /** The newest round with the numbers of rank r, which has nothing unfinished. */
  function Given(s: State, r: Rid): Round
    requires |s.rounds| > 0 && r < |s.ranks| && r < |LastRound(s).samples| && s.ranks[r].stage.Counted?
  {
    var rk := s.ranks[r];
    var sample := Sample(rk.sent, rk.stage.recv, rk.slot.Active?, 0, 0);
    LastRound(s).(samples := LastRound(s).samples[r := Some(sample)])
  }

  predicate Opens(round: Round) { Full(round) && !Finished(round) }

  lemma ReduceShape(s: State, r: Rid)
    requires Inv(s) && s.draining && Enabled(s, r, Reduce(0, 0))
    ensures |s.rounds| > 0 && r < |LastRound(s).samples| == |s.ranks| && s.ranks[r].round == |s.rounds| - 1
    ensures var s', given := Apply(s, r, Reduce(0, 0)), Given(s, r);
            && s'.draining && s'.posted == s.posted && s'.ranks == s.ranks[r := s.ranks[r].(stage := Reducing)]
            && s'.rounds == s.rounds[|s.rounds| - 1 := given] +
                            if Opens(given) then [EmptyRound(NextPass(given), |s.ranks|)] else []
  {
    assert LifeRank(s, r);
    P2pDrainRounds.Newest(s, r);
  }

  lemma ReduceCalm(s: State, r: Rid)
    requires Inv(s) && s.draining && Calm(s) && Enabled(s, r, Reduce(0, 0))
    ensures Inv(Apply(s, r, Reduce(0, 0))) && Calm(Apply(s, r, Reduce(0, 0)))
  {
    var s' := Apply(s, r, Reduce(0, 0));
    StepInv(s, r, Reduce(0, 0));
    ReduceShape(s, r);
    StaysCalm(s, s', r);
  }

  /** If the round was up to date, it stays so with the numbers of r. */
  lemma GivenNow(s: State, r: Rid, q: Rid)
    requires Inv(s) && s.draining && Enabled(s, r, Reduce(0, 0)) && UpToDate(s) && q < |s.ranks|
    ensures r < |LastRound(s).samples| == |s.ranks| && |Given(s, r).samples| == |s.ranks|
    ensures Given(s, r).samples[q].Some? ==> SampleNow(s.ranks[q], Given(s, r).samples[q].value)
  {
    ReduceShape(s, r);
    assert NowRank(s.ranks[q], LastRound(s).samples[q]) && NowRank(s.ranks[r], LastRound(s).samples[r]);
  }

  /** The round stays open, or is the last one. */
  lemma ReduceKeeps(s: State, r: Rid)
    requires Inv(s) && s.draining && Calm(s) && Enabled(s, r, Reduce(0, 0))
    requires |Apply(s, r, Reduce(0, 0)).rounds| == |s.rounds| && Inv(Apply(s, r, Reduce(0, 0)))
    ensures var s' := Apply(s, r, Reduce(0, 0));
            s'.draining && RoundsLeft(s') <= RoundsLeft(s) && Sum(RanksLeft(s')) < Sum(RanksLeft(s))
  {
    var s' := Apply(s, r, Reduce(0, 0));
    ReduceShape(s, r);
    LeftUpdate(s, s', r);
    if UpToDate(s) {
      forall q: Rid | q < |s'.ranks| ensures NowRank(s'.ranks[q], LastRound(s').samples[q]) {
        GivenNow(s, r, q);
        assert NowRank(s.ranks[q], LastRound(s).samples[q]);
      }
    }
  }

  lemma NoneCounted(s: State, r: Rid, q: Rid)
    requires Inv(s) && s.draining && Enabled(s, r, Reduce(0, 0)) && q < |s.ranks| && q != r
    requires |s.rounds| > 0 && r < |LastRound(s).samples| && Full(Given(s, r))
    ensures s.ranks[q].stage.Reducing? || s.ranks[q].stage.Done?
    ensures s.ranks[q].round == |s.rounds| - 1
  {
    assert LifeRank(s, q) && LifeRank(s, r);
    assert Given(s, r).samples[q].Some? && LastRound(s).samples[q].Some?;
  }

  /** With nothing in flight, a round whose numbers are up to date has all messages received. */
  lemma NowReceived(s: State, round: Round)
    requires Balanced(s) && Quiet(s) && |round.samples| == |s.ranks| && Full(round)
    requires forall q: Rid :: q < |s.ranks| ==> SampleNow(s.ranks[q], round.samples[q].value)
    ensures Received(round) && Sum(DummySendsOf(round)) == 0
  {
    forall q | 0 <= q < |s.ranks| ensures RecvOf(round)[q] == Loads(s.ranks)[q] {
      assert QuietRank(s.ranks[q]) && SampleNow(s.ranks[q], round.samples[q].value);
    }
    assert RecvOf(round) == Loads(s.ranks);
    assert SentOf(round) == Sents(s.ranks);
    SumOfZeros(BusyOf(round));
    SumOfZeros(DummySendsOf(round));
  }

  /** Once the dummies are sent and received, no MPI_Recv is in the lower half. */
  lemma NoneActive(s: State, q: Rid)
    requires Inv(s) && s.draining && Calm(s) && q < |s.ranks|
    requires forall p :: 0 <= p < |s.ranks| ==> PastSends(s.ranks[p])
    ensures !s.ranks[q].slot.Active?
  {
    forall p: Rid | p < |s.ranks| ensures s.ranks[p].next >= |s.posted[p]| {
      assert RankInv(s, p);
    }
    UnsentNone(s.posted, s.ranks, q);
    assert RankInv(s, q) && AppLeft(s.ranks[q]) == 0;
  }

  lemma LatePastSends(s: State, r: Rid, q: Rid)
    requires Inv(s) && s.draining && Enabled(s, r, Reduce(0, 0)) && q < |s.ranks|
    requires |s.rounds| > 0 && r < |LastRound(s).samples| && Full(Given(s, r)) && LastRound(s).pass >= 4
    ensures PastSends(s.ranks[q])
  {
    assert LifeRank(s, q) && LifeRank(s, r);
    ReduceShape(s, r);
    if q != r {
      NoneCounted(s, r, q);
    }
  }

  /** A complete round that is up to date ends the drain, or starts the dummy passes. */
  lemma NowDecides(s: State, r: Rid)
    requires Inv(s) && s.draining && Calm(s) && Enabled(s, r, Reduce(0, 0)) && UpToDate(s)
    ensures r < |LastRound(s).samples|
    ensures Opens(Given(s, r)) && LastRound(s).pass == 0 ==> NextPass(Given(s, r)) == 1
    ensures LastRound(s).pass >= 4 ==> !Opens(Given(s, r))
  {
    ReduceShape(s, r);
    var given := Given(s, r);
    if Full(given) {
      forall q: Rid | q < |s.ranks| ensures SampleNow(s.ranks[q], given.samples[q].value) {
        GivenNow(s, r, q);
      }
      CalmIsQuiet(s);
      NowReceived(s, given);
      if LastRound(s).pass >= 4 {
        forall q | 0 <= q < |s.ranks| ensures InRecvOf(given)[q] == 0 {
          forall p | 0 <= p < |s.ranks| ensures PastSends(s.ranks[p]) {
            LatePastSends(s, r, p);
          }
          NoneActive(s, q);
          assert SampleNow(s.ranks[q], given.samples[q].value);
        }
        SumOfZeros(InRecvOf(given));
      }
    }
  }

  /** A round that opens leaves fewer to open. */
  lemma ReduceOpens(s: State, r: Rid)
    requires Inv(s) && s.draining && Calm(s) && Enabled(s, r, Reduce(0, 0))
    requires |Apply(s, r, Reduce(0, 0)).rounds| > |s.rounds| && Inv(Apply(s, r, Reduce(0, 0)))
    ensures Apply(s, r, Reduce(0, 0)).draining && RoundsLeft(Apply(s, r, Reduce(0, 0))) < RoundsLeft(s)
  {
    var s' := Apply(s, r, Reduce(0, 0));
    ReduceShape(s, r);
    forall q: Rid | q < |s'.ranks| ensures NowRank(s'.ranks[q], LastRound(s').samples[q]) {
      if q != r {
        NoneCounted(s, r, q);
      }
    }
    assert UpToDate(s');
    if UpToDate(s) {
      NowDecides(s, r);
    }
  }

  // ---- the end ----

  ghost predicate IsOver(s: State) { !s.draining && forall r :: 0 <= r < |s.ranks| ==> s.ranks[r].stage.Done? }

  /** One step of the checkpoint threads, and what the application threads then do: the drain ends, or
      is closer to its end. */
  lemma Closer(s: State) returns (path: seq<State>)
    requires Inv(s) && s.draining && Calm(s) && |s.ranks| > 0
    ensures Path(path) && path[0] == s
    ensures var s' := Last(path);
            IsOver(s') ||
            (Inv(s') && s'.draining && Calm(s') && |s'.ranks| == |s.ranks| &&
             (|| RoundsLeft(s') < RoundsLeft(s)
              || (RoundsLeft(s') <= RoundsLeft(s) && Sum(RanksLeft(s')) < Sum(RanksLeft(s)))
              || (RoundsLeft(s') == RoundsLeft(s) && Sum(RanksLeft(s')) == Sum(RanksLeft(s)) &&
                  Sum(UnsentOf(s')) < Sum(UnsentOf(s)))))
  {
    var r, step := SomeCanGoOn(s);
    if step.SendDummy? {
      path := SendAndSettle(s, r);
    } else {
      path := OneStep(s, r, step);
      if step.Reduce? {
        ReduceCloser(s, r);
      } else if !step.Resume? {
        PlainStep(s, r, step);
      }
    }
  }

  lemma ReduceCloser(s: State, r: Rid)
    requires Inv(s) && s.draining && Calm(s) && Enabled(s, r, Reduce(0, 0))
    ensures var s' := Apply(s, r, Reduce(0, 0));
            && Inv(s') && s'.draining && Calm(s') && |s'.ranks| == |s.ranks|
            && (RoundsLeft(s') < RoundsLeft(s) ||
                (RoundsLeft(s') <= RoundsLeft(s) && Sum(RanksLeft(s')) < Sum(RanksLeft(s))))
  {
    ReduceCalm(s, r);
    ReduceShape(s, r);
    if |Apply(s, r, Reduce(0, 0)).rounds| > |s.rounds| {
      ReduceOpens(s, r);
    } else {
      ReduceKeeps(s, r);
    }
  }

  lemma {:induction false} EndFrom(s: State) returns (path: seq<State>)
    requires Inv(s) && s.draining && Calm(s) && |s.ranks| > 0
    ensures Path(path) && path[0] == s && IsOver(Last(path))
    decreases RoundsLeft(s), Sum(RanksLeft(s)), Sum(UnsentOf(s))
  {
    path := Closer(s);
    if Last(path).draining {
      var rest := EndFrom(Last(path));
      path := Concat(path, rest);
    }
  }

  /** The drain can always end: from every draining state of every run, some steps lead to its end, and
      then to a state in which every rank runs again. */
  lemma DrainCanEnd(run: seq<State>, i: nat) returns (path: seq<State>)
    requires Run(run) && i < |run| && run[i].draining && |run[i].ranks| > 0
    ensures Path(path) && path[0] == run[i] && !Last(path).draining
    ensures forall r :: 0 <= r < |Last(path).ranks| ==> Last(path).ranks[r].stage.Running?
  {
    RunInv(run, i);
    path := SettleAll(run[i], 0);
    var rest := EndFrom(Last(path));
    path := Concat(path, rest);
    rest := ResetAll(Last(path), 0);
    path := Concat(path, rest);
  }

  lemma {:induction false} ResetAll(s: State, k: nat) returns (path: seq<State>)
    requires !s.draining && k <= |s.ranks|
    requires forall r :: 0 <= r < |s.ranks| ==> s.ranks[r].stage == (if r < k then Running else Stage.Done)
    ensures Path(path) && path[0] == s && !Last(path).draining
    ensures forall r :: 0 <= r < |Last(path).ranks| ==> Last(path).ranks[r].stage.Running?
    decreases |s.ranks| - k
  {
    path := [s];
    if k < |s.ranks| {
      path := OneStep(s, k, Reset);
      var rest := ResetAll(Last(path), k + 1);
      path := Concat(path, rest);
    }
  }

  // ---- the next checkpoint ----

  /** The last rank to close its gate starts the drain, so not all ranks wait for that. */
  ghost predicate SomeoneRuns(s: State) { s.draining || exists r: Rid :: r < |s.ranks| && !s.ranks[r].stage.AtBarrier? }

  lemma SomeoneCloses(s: State, r: Rid)
    requires Enabled(s, r, CloseGate)
    ensures SomeoneRuns(Apply(s, r, CloseGate))
  {
    var s' := Apply(s, r, CloseGate);
    if !s'.draining {
      var q: Rid :| q < |s.ranks| && q != r && !s.ranks[q].stage.AtBarrier?;
      assert !s'.ranks[q].stage.AtBarrier?;
    }
  }

  lemma RunsOn(s: State, r: Rid, step: Step, q: Rid)
    requires Inv(s) && Enabled(s, r, step) && !step.CloseGate? && q < |s.ranks| && !s.ranks[q].stage.AtBarrier?
    ensures q < |Apply(s, r, step).ranks| && !Apply(s, r, step).ranks[q].stage.AtBarrier?
  {
    StepArrived(s, r, step, q);
  }

  lemma SomeoneRunsStep(s: State, r: Rid, step: Step)
    requires Inv(s) && SomeoneRuns(s) && Enabled(s, r, step)
    ensures SomeoneRuns(Apply(s, r, step))
  {
    if step.CloseGate? {
      SomeoneCloses(s, r);
    } else if !s.draining {
      var q: Rid :| q < |s.ranks| && !s.ranks[q].stage.AtBarrier?;
      RunsOn(s, r, step, q);
    } else if step.Resume? {
      assert s.ranks[r].stage.Done?;
      RunsOn(s, r, step, r);
    }
  }

  lemma SomeoneRunsNext(s: State, s': State)
    requires Inv(s) && SomeoneRuns(s) && Next(s, s')
    ensures SomeoneRuns(s')
  {
    var r: Rid, step: Step :| Enabled(s, r, step) && s' == Apply(s, r, step);
    SomeoneRunsStep(s, r, step);
  }

  lemma {:induction false} RunSomeone(run: seq<State>, i: nat)
    requires Run(run) && i < |run| && |run[i].ranks| > 0
    ensures SomeoneRuns(run[i])
  {
    if i == 0 {
      var first: Rid := 0;
      assert run[0].ranks[first] == FRESH_RANK;
    } else {
      SameRanks(run, i - 1, i);
      RunSomeone(run, i - 1);
      RunNext(run, i - 1);
      SomeoneRunsNext(run[i - 1], run[i]);
    }
  }

  /** From every state between checkpoints, the next drain can start. */
  lemma CheckpointCanStart(run: seq<State>, i: nat) returns (path: seq<State>)
    requires Run(run) && i < |run| && !run[i].draining && |run[i].ranks| > 0
    ensures Path(path) && path[0] == run[i] && Last(path).draining
  {
    RunInv(run, i);
    RunSomeone(run, i);
    path := CloseFrom(run[i], 0);
  }

  /** The ranks below k are at the barrier; the others run, are done, or are there too. */
  lemma {:induction false} CloseFrom(s: State, k: nat) returns (path: seq<State>)
    requires Inv(s) && !s.draining && k < |s.ranks|
    requires forall r :: 0 <= r < k ==> s.ranks[r].stage.AtBarrier?
    requires !forall r :: 0 <= r < |s.ranks| ==> s.ranks[r].stage.AtBarrier?
    ensures Path(path) && path[0] == s && Last(path).draining
    decreases |s.ranks| - k
  {
    path := [s];
    if !s.ranks[k].stage.AtBarrier? {
      path := CloseOne(s, k);
    }
    if !Last(path).draining {
      var rest := CloseFrom(Last(path), k + 1);
      path := Concat(path, rest);
    }
  }

  lemma CloseOne(s: State, r: Rid) returns (path: seq<State>)
    requires Inv(s) && !s.draining && r < |s.ranks| && !s.ranks[r].stage.AtBarrier?
    ensures Path(path) && path[0] == s && Inv(Last(path)) && |Last(path).ranks| == |s.ranks|
    ensures Last(path).ranks[r].stage.AtBarrier?
    ensures forall q :: 0 <= q < |s.ranks| && q != r ==> Last(path).ranks[q] == s.ranks[q]
    ensures Last(path).draining <==> forall q :: 0 <= q < |s.ranks| && q != r ==> s.ranks[q].stage.AtBarrier?
  {
    assert LifeRank(s, r);
    path := [s];
    if s.ranks[r].stage.Done? {
      path := OneStep(s, r, Reset);
      StepInv(s, r, Reset);
    }
    var s1 := Last(path);
    StepInv(s1, r, CloseGate);
    var rest := OneStep(s1, r, CloseGate);
    path := Concat(path, rest);
  }
}
