/**
That the gate of the lower half lets threads get on, over every run: once it is open, every thread can
enter; while it is closed, a thread that is inside can still make nested calls; and a closing can always
come to its end, since every thread can leave or step back out.
*/
module LowerHalfProgress {
  import opened LowerHalfGate

  // ---- paths ----

  ghost predicate Path(path: seq<State>) {
    |path| > 0 && forall i :: 0 <= i < |path| - 1 ==> Next(path[i], path[i + 1], true)
  }

  function Last(path: seq<State>): State
    requires |path| > 0
  {
    path[|path| - 1]
  }

  lemma Then(path: seq<State>, t: Tid, step: Step) returns (path': seq<State>)
    requires Path(path) && Enabled(Last(path), t, step)
    ensures Path(path') && path'[0] == path[0] && Last(path') == Apply(Last(path), t, step, true)
    ensures |path'| == |path| + 1
  {
    path' := path + [Apply(Last(path), t, step, true)];
    forall i | 0 <= i < |path'| - 1 ensures Next(path'[i], path'[i + 1], true) {
      if i < |path| - 1 {
        assert Next(path[i], path[i + 1], true);
      } else {
        assert Enabled(path'[i], t, step) && path'[i + 1] == Apply(path'[i], t, step, true);
      }
    }
  }

  lemma Concat(a: seq<State>, b: seq<State>) returns (c: seq<State>)
    requires Path(a) && Path(b) && Last(a) == b[0]
    ensures Path(c) && c[0] == a[0] && Last(c) == Last(b) && |c| == |a| + |b| - 1
  {
    c := a + b[1..];
    forall i | 0 <= i < |c| - 1 ensures Next(c[i], c[i + 1], true) {
      if i < |a| - 1 {
        assert Next(a[i], a[i + 1], true);
      } else {
        assert c[i] == b[i - (|a| - 1)] && c[i + 1] == b[i + 1 - (|a| - 1)];
      }
    }
  }

  // ---- what the closer stored ----

  predicate GateOk(s: State) {
    && (s.closedBuffer == [] ==> s.closedMem == s.closed)
    && (s.closedBuffer != [] ==> s.closedBuffer[|s.closedBuffer| - 1] == s.closed)
    && (s.stage.Open? <==> !s.closed) && (s.closing <==> s.closed)
    && (s.stage.Scan? ==> forall u :: u in s.stage.todo ==> u < |s.threads| && u != s.closer)
    && (s.stage.Closing? ==> s.excused == {})
  }

  lemma GateStep(s: State, t: Tid, step: Step)
    requires GateOk(s) && Enabled(s, t, step)
    ensures GateOk(Apply(s, t, step, true))
  {
  }

  lemma GateNext(s: State, s': State)
    requires GateOk(s) && Next(s, s', true)
    ensures GateOk(s')
  {
    var t: Tid, step: Step :| Enabled(s, t, step) && s' == Apply(s, t, step, true);
    GateStep(s, t, step);
  }

  lemma {:induction false} RunGate(run: seq<State>, i: nat)
    requires Run(run, true) && i < |run|
    ensures GateOk(run[i])
  {
    if i > 0 {
      RunGate(run, i - 1);
      assert StepAt(run, i - 1, true);
      GateNext(run[i - 1], run[i]);
    }
  }

  // ---- an open gate ----

  lemma {:induction false} DrainClosedAll(s: State) returns (path: seq<State>)
    requires GateOk(s) && s.closer < |s.threads|
    ensures Path(path) && path[0] == s && Last(path) == s.(closedMem := s.closed, closedBuffer := [])
    decreases |s.closedBuffer|
  {
    path := [s];
    if s.closedBuffer != [] {
      path := Then(path, s.closer, DrainClosed);
      var s' := Last(path);
      assert s'.threads == s.threads;
      assert s'.closedBuffer == s.closedBuffer[1..];
      var rest := DrainClosedAll(s');
      path := Concat(path, rest);
    }
  }

  /** From every state with an open gate, any thread can be in the lower half after steps of its own,
      once the store that opened the gate has reached memory. */
  lemma OpenGateLetsIn(run: seq<State>, i: nat, t: Tid) returns (path: seq<State>)
    requires Run(run, true) && i < |run| && run[i].stage.Open? && t < |run[i].threads|
    ensures Path(path) && path[0] == run[i] && t < |Last(path).threads| && Last(path).threads[t].place.Inside?
  {
    RunInv(run, i);
    RunGate(run, i);
    path := DrainClosedAll(run[i]);
    assert ThreadInv(run[i], t);
    if Last(path).threads[t].place.Outside? {
      if !Last(path).threads[t].registered {
        path := Then(path, t, Register);
      }
      path := Then(path, t, Enter);
    }
    if Last(path).threads[t].place.Waiting? {
      path := Then(path, t, Wake);
    }
    if Last(path).threads[t].place.Stored? {
      path := Then(path, t, Check);
    } else if Last(path).threads[t].place.Checking? {
      path := Then(path, t, CheckAgain);
    }
  }

  /** A nested entry, and an entry of the closer itself, pass whatever the gate is. */
  lemma NestedEntryPasses(s: State, t: Tid) returns (path: seq<State>)
    requires Inv(s) && GateOk(s) && t < |s.threads|
    requires s.threads[t].place.Inside? || (t == s.closer && s.threads[t].place.Outside? && s.threads[t].registered)
    ensures Path(path) && path[0] == s && t < |Last(path).threads|
    ensures Last(path).threads[t].place.Inside? && Last(path).threads[t].depth == s.threads[t].depth + 1
  {
    assert ThreadInv(s, t);
    path := [s];
    path := Then(path, t, Enter);
    path := Then(path, t, Check);
  }

  // ---- blocking calls ----

  /** in_blocking_call is true, or is about to be in memory, exactly as the thread left it. */
  predicate BlockedOk(t: Thread) {
    && t.blocked == t.inCall
    && (t.blockedBuffer == [] ==> t.blockedMem == t.blocked)
    && (t.blockedBuffer != [] ==> t.blockedBuffer[|t.blockedBuffer| - 1] == t.blocked)
  }

  lemma BlockedStep(s: State, t: Tid, step: Step, u: Tid)
    requires Enabled(s, t, step) && u < |s.threads| && BlockedOk(s.threads[u])
    ensures BlockedOk(Apply(s, t, step, true).threads[u])
  {
    if u == t {
      BlockedSelf(s, t, step);
    }
  }

  lemma BlockedSelf(s: State, t: Tid, step: Step)
    requires Enabled(s, t, step) && BlockedOk(s.threads[t])
    ensures BlockedOk(StepThread(s, t, step, true))
  {
  }

  lemma BlockedNext(s: State, s': State, u: Tid)
    requires Next(s, s', true) && u < |s.threads| && BlockedOk(s.threads[u])
    ensures u < |s'.threads| && BlockedOk(s'.threads[u])
  {
    var t: Tid, step: Step :| Enabled(s, t, step) && s' == Apply(s, t, step, true);
    BlockedStep(s, t, step, u);
  }

  lemma {:induction false} RunBlocked(run: seq<State>, i: nat, u: Tid)
    requires Run(run, true) && i < |run| && u < |run[i].threads|
    ensures BlockedOk(run[i].threads[u])
  {
    if i > 0 {
      SameThreads(run, i - 1, i);
      RunBlocked(run, i - 1, u);
      assert StepAt(run, i - 1, true);
      BlockedNext(run[i - 1], run[i], u);
    }
  }

  ghost predicate Fine(s: State) {
    Inv(s) && GateOk(s) && forall u: Tid :: u < |s.threads| ==> BlockedOk(s.threads[u])
  }

  lemma FineStep(s: State, t: Tid, step: Step)
    requires Fine(s) && Enabled(s, t, step)
    ensures Fine(Apply(s, t, step, true))
  {
    StepInv(s, t, step);
    GateStep(s, t, step);
    forall u: Tid | u < |s.threads| ensures BlockedOk(Apply(s, t, step, true).threads[u]) {
      BlockedStep(s, t, step, u);
    }
  }

  lemma RunFine(run: seq<State>, i: nat)
    requires Run(run, true) && i < |run|
    ensures Fine(run[i])
  {
    RunInv(run, i);
    RunGate(run, i);
    forall u: Tid | u < |run[i].threads| ensures BlockedOk(run[i].threads[u]) {
      RunBlocked(run, i, u);
    }
  }

  // ---- a closing gate ----

  /** How many steps the thread needs until memory has that it is out. */
  function StepsOut(t: Thread): nat {
    |t.depthBuffer| + match t.place
                      case Inside => 2 * t.depth
                      case Stored => 2 * t.depth + 2
                      case Checking => 2
                      case _ => 0
  }

  /** A thread that the scan waits for can go on towards the outside. */
  lemma CanStepOut(s: State, t: Tid) returns (step: Step)
    requires Fine(s) && s.stage.Scan? && t < |s.threads| && t != s.closer && StepsOut(s.threads[t]) > 0
    ensures Enabled(s, t, step)
    ensures var s' := Apply(s, t, step, true);
            && Fine(s') && s' == s.(threads := s.threads[t := s'.threads[t]])
            && StepsOut(s'.threads[t]) < StepsOut(s.threads[t])
  {
    assert ThreadInv(s, t);
    var place := s.threads[t].place;
    step := if place.Inside? then Leave else if place.Stored? then Check
            else if place.Checking? then CheckAgain else DrainDepth;
    FineStep(s, t, step);
  }

  lemma {:induction false} LeadOut(s: State, t: Tid) returns (path: seq<State>)
    requires Fine(s) && s.stage.Scan? && t < |s.threads| && t != s.closer
    ensures Path(path) && path[0] == s && Fine(Last(path)) && t < |Last(path).threads|
    ensures Last(path) == s.(threads := s.threads[t := Last(path).threads[t]]) && Last(path).threads[t].depthMem == 0
    decreases StepsOut(s.threads[t])
  {
    path := [s];
    if StepsOut(s.threads[t]) > 0 {
      var step := CanStepOut(s, t);
      path := Then(path, t, step);
      var rest := LeadOut(Last(path), t);
      path := Concat(path, rest);
    } else {
      assert ThreadInv(s, t);
      assert s.threads[t := s.threads[t]] == s.threads;
    }
  }

  lemma {:induction false} DrainBlockedAll(s: State, t: Tid) returns (path: seq<State>)
    requires Fine(s) && s.stage.Scan? && t < |s.threads|
    ensures Path(path) && path[0] == s && Fine(Last(path))
    ensures var th := s.threads[t];
            Last(path) == s.(threads := s.threads[t := th.(blockedMem := th.inCall, blockedBuffer := [])])
    decreases |s.threads[t].blockedBuffer|
  {
    path := [s];
    if s.threads[t].blockedBuffer != [] {
      FineStep(s, t, DrainBlocked);
      path := Then(path, t, DrainBlocked);
      var rest := DrainBlockedAll(Last(path), t);
      path := Concat(path, rest);
    } else {
      assert BlockedOk(s.threads[t]);
      assert s.threads == s.threads[t := s.threads[t].(blockedMem := s.threads[t].inCall, blockedBuffer := [])];
    }
  }

  /** The closing does not need a thread in a blocking call to get on, if it skips those. */
  ghost predicate LeavesBlocked(s: State, s': State) {
    && |s'.threads| == |s.threads| && s'.skip == s.skip
    && (s.skip ==> forall u: Tid :: u < |s.threads| && s.threads[u].inCall ==> SameSpot(s.threads[u], s'.threads[u]))
  }

  predicate SameSpot(t: Thread, t': Thread) { t'.place == t.place && t'.depth == t.depth && t'.inCall }

  lemma LeavesBlockedBoth(s: State, s': State, s'': State)
    requires LeavesBlocked(s, s') && LeavesBlocked(s', s'')
    ensures LeavesBlocked(s, s'')
  {
    forall u: Tid | s.skip && u < |s.threads| && s.threads[u].inCall ensures SameSpot(s.threads[u], s''.threads[u]) {
      assert SameSpot(s.threads[u], s'.threads[u]);
    }
  }

  /** The scan gets past thread t: the thread goes out, or stays where it is in its blocking call. */
  lemma PassScan(s: State, t: Tid) returns (path: seq<State>)
    requires Fine(s) && s.stage.Scan? && t in s.stage.todo
    ensures Path(path) && path[0] == s && Fine(Last(path)) && LeavesBlocked(s, Last(path))
    ensures Last(path).stage == Scan(s.stage.todo - {t})
  {
    if s.skip && s.threads[t].inCall {
      path := DrainBlockedAll(s, t);
    } else {
      path := LeadOut(s, t);
    }
    FineStep(Last(path), t, Scanned);
    path := Then(path, t, Scanned);
  }

  lemma {:induction false} ScanCanEnd(s: State) returns (path: seq<State>)
    requires Fine(s) && s.stage.Scan?
    ensures Path(path) && path[0] == s && Last(path).stage.Closed? && LeavesBlocked(s, Last(path))
    decreases |s.stage.todo|
  {
    if t :| t in s.stage.todo {
      path := PassScan(s, t);
      var mid := Last(path);
      var rest := ScanCanEnd(mid);
      LeavesBlockedBoth(s, mid, Last(rest));
      path := Concat(path, rest);
    } else {
      assert s.stage.todo == {};
      path := Then([s], s.closer, EndScan);
    }
  }

  lemma {:induction false} MembarrierCanEnd(s: State, k: nat) returns (path: seq<State>)
    requires Fine(s) && s.stage.Membarrier? && k <= |s.threads|
    requires forall u: Tid :: u < k ==> u in s.stage.passed
    ensures Path(path) && path[0] == s && Last(path).stage.Closed? && LeavesBlocked(s, Last(path))
    decreases |s.threads| - k
  {
    var t, step := if k < |s.threads| then k else s.closer, if k < |s.threads| then PassMembarrier else StartScan;
    FineStep(s, t, step);
    path := Then([s], t, step);
    var mid := Last(path);
    var rest: seq<State>;
    if k < |s.threads| {
      rest := MembarrierCanEnd(mid, k + 1);
    } else {
      rest := ScanCanEnd(mid);
    }
    LeavesBlockedBoth(s, mid, Last(rest));
    path := Concat(path, rest);
  }

  /** A closing can always end: from every state of every run in which the gate is being closed, some
      steps lead to the return of close_lower_half_and_wait(); no thread that it waits for is stuck, and
      with skip_blocked no thread in a blocking call has to move. */
  lemma CloseCanEnd(run: seq<State>, i: nat) returns (path: seq<State>)
    requires Run(run, true) && i < |run| && !run[i].stage.Open?
    ensures Path(path) && path[0] == run[i] && Last(path).stage.Closed? && LeavesBlocked(run[i], Last(path))
  {
    RunFine(run, i);
    var s := run[i];
    match s.stage
    case Closed => path := [s];
    case Scan(_) => path := ScanCanEnd(s);
    case Membarrier(_) => path := MembarrierCanEnd(s, 0);
    case Closing =>
      FineStep(s, s.closer, StartMembarrier);
      path := Then([s], s.closer, StartMembarrier);
      var mid := Last(path);
      var rest := MembarrierCanEnd(mid, 0);
      LeavesBlockedBoth(s, mid, Last(rest));
      path := Concat(path, rest);
  }

  /** The closer can open a closed gate, or close it again in either way. */
  lemma ClosedCanGoOn(run: seq<State>, i: nat, skip: bool) returns (open: seq<State>, again: seq<State>)
    requires Run(run, true) && i < |run| && run[i].stage.Closed?
    ensures Path(open) && open[0] == run[i] && Last(open).stage.Open?
    ensures Path(again) && again[0] == run[i] && Last(again).stage.Closed? && Last(again).skip == skip && |again| > 1
  {
    RunFine(run, i);
    var s := run[i];
    open := Then([s], s.closer, Reopen);
    FineStep(s, s.closer, Close(skip));
    again := Then([s], s.closer, Close(skip));
    var s1 := Last(again);
    FineStep(s1, s.closer, StartMembarrier);
    again := Then(again, s.closer, StartMembarrier);
    var rest := MembarrierCanEnd(Last(again), 0);
    again := Concat(again, rest);
  }

  // ---- who is left inside ----

  /** The closing that state i is in began before state j: the gate is in the same closing in all states
      from j to i. */
  ghost predicate SameClosing(run: seq<State>, j: nat, i: nat) {
    forall m: nat {:trigger InClosing(run, m)} :: j <= m <= i ==> InClosing(run, m)
  }

  ghost predicate InClosing(run: seq<State>, i: nat) {
    i < |run| && (run[i].stage.Membarrier? || run[i].stage.Scan? || run[i].stage.Closed?)
  }

  ghost predicate IsInCall(run: seq<State>, m: nat, t: Tid) {
    m < |run| && t < |run[m].threads| && run[m].threads[t].inCall
  }

  /** Memory says that the thread is in a blocking call, or will say so. */
  predicate SaysBlocked(t: Thread) { t.blockedMem || true in t.blockedBuffer }

  lemma SaysBlockedNext(s: State, s': State, t: Tid)
    requires Next(s, s', true) && t < |s.threads| && BlockedOk(s.threads[t])
    ensures t < |s'.threads|
    ensures SaysBlocked(s'.threads[t]) ==> SaysBlocked(s.threads[t]) || s'.threads[t].inCall
    ensures s.stage.Membarrier? && s'.stage.Membarrier? && t !in s.stage.passed && t in s'.stage.passed ==>
              (SaysBlocked(s'.threads[t]) ==> s'.threads[t].inCall)
  {
    var u: Tid, step: Step :| Enabled(s, u, step) && s' == Apply(s, u, step, true);
    if u == t {
      SaysBlockedStep(s, t, step);
    }
  }

  lemma SaysBlockedStep(s: State, t: Tid, step: Step)
    requires Enabled(s, t, step) && BlockedOk(s.threads[t])
    ensures var th, th' := s.threads[t], StepThread(s, t, step, true);
            && (SaysBlocked(th') ==> SaysBlocked(th) || th'.inCall)
            && (step.PassMembarrier? && SaysBlocked(th') ==> th'.inCall)
  {
    if step.DrainBlocked? {
      assert s.threads[t].blockedBuffer == [s.threads[t].blockedBuffer[0]] + s.threads[t].blockedBuffer[1..];
    }
  }

  /** Whatever memory says of a thread that passed the barrier of the closing is from after the closing
      began. */
  lemma {:induction false} SaidInClosing(run: seq<State>, i: nat, t: Tid) returns (m: nat)
    requires Run(run, true) && i < |run| && t < |run[i].threads| && Fenced(run[i], t) && SaysBlocked(run[i].threads[t])
    ensures m <= i && IsInCall(run, m, t) && SameClosing(run, m, i)
  {
    if i == 0 {
      assert false;
    }
    SameThreads(run, i - 1, i);
    RunBlocked(run, i - 1, t);
    assert StepAt(run, i - 1, true);
    SaysBlockedNext(run[i - 1], run[i], t);
    FencedNext(run[i - 1], run[i], t);
    if run[i].threads[t].inCall {
      m := i;
    } else {
      m := SaidInClosing(run, i - 1, t);
    }
  }

  lemma FencedNext(s: State, s': State, t: Tid)
    requires Next(s, s', true) && t < |s.threads| && Fenced(s', t)
    ensures Fenced(s, t) ||
            (s.stage.Membarrier? && s'.stage.Membarrier? && t !in s.stage.passed && t in s'.stage.passed)
  {
  }

  lemma ExcusedNext(s: State, s': State, t: Tid)
    requires Next(s, s', true) && t in s'.excused
    ensures t in s.excused ||
            (s.stage.Scan? && s'.stage.Scan? && s.skip && t < |s.threads| && s.threads[t].blockedMem)
  {
  }

  lemma StageNext(run: seq<State>, i: nat)
    requires Run(run, true) && i + 1 < |run| && InClosing(run, i + 1)
    ensures InClosing(run, i) || (run[i].stage.Closing? && run[i].excused == {})
  {
    assert StepAt(run, i, true);
    RunGate(run, i);
  }

  /** A thread that a closing leaves in the lower half was in a blocking call during that closing. */
  lemma {:induction false} ExcusedWasBlocked(run: seq<State>, i: nat, t: Tid) returns (m: nat)
    requires Run(run, true) && InClosing(run, i) && t in run[i].excused
    ensures m <= i && IsInCall(run, m, t) && SameClosing(run, m, i)
  {
    if i == 0 {
      assert false;
    }
    assert StepAt(run, i - 1, true);
    ExcusedNext(run[i - 1], run[i], t);
    StageNext(run, i - 1);
    if t in run[i - 1].excused {
      m := ExcusedWasBlocked(run, i - 1, t);
    } else {
      m := SaidInClosing(run, i - 1, t);
    }
  }
}
