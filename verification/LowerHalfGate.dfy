/**
The gate that keeps threads out of the lower half during a checkpoint
(src/lower_half_ckpt.h, src/lower_half_ckpt.cpp), as a transition system over any number
of threads.  Every store goes to a buffer of its thread and location first and reaches
memory later, in order per location only.  The entry path has no fence; the membarrier
step of the closing thread makes each thread empty its buffers at some point of its own.
*/
module LowerHalfGate {

  type Tid = nat

  /** Where a thread is. */
  datatype Place =
    | Outside      // not between LOWER_HALF_DISABLE_CKPT() and LOWER_HALF_ENABLE_CKPT()
    | Stored       // lower_half_disable_ckpt(): stored its depth, has not loaded lower_half_closed
    | Checking     // wait_until_lower_half_open(): at the outer loop's load
    | Waiting      // wait_until_lower_half_open(): stepped back out
    | Inside       // past lower_half_disable_ckpt()

  /** depth and blocked are what the thread stored last; the buffers hold the stores that have
      not reached memory yet, oldest first.  inCall tells that the thread is between the begin and the
      end of a blocking call. */
  datatype Thread = Thread(
    place: Place, registered: bool,
    depth: nat, depthBuffer: seq<nat>, depthMem: nat,
    blocked: bool, blockedBuffer: seq<bool>, blockedMem: bool, inCall: bool)

  /** Where the checkpoint thread is in close_lower_half_and_wait(). */
  datatype Stage =
    | Open                             // not closed, or reopened
    | Closing                          // stored closing_thread and lower_half_closed
    | Membarrier(passed: set<Tid>)     // the threads that have passed the barrier
    | Scan(todo: set<Tid>)             // holds threads_lock; the threads still to wait for
    | Closed                           // close_lower_half_and_wait() returned

  /** closer is the checkpoint thread.  closed is what it stored last in lower_half_closed, and
      closing whether closing_thread is its address.  'excused' has the threads that the scan
      left in a blocking call; skip is skip_blocked. */
  datatype State = State(
    threads: seq<Thread>, closer: Tid, closed: bool, closedBuffer: seq<bool>, closedMem: bool,
    closing: bool, skip: bool, stage: Stage, excused: set<Tid>)

  /** The thread is in the lower half: past its entry, or in a nested one. */
  predicate InLowerHalf(t: Thread) { t.place.Inside? || (t.place.Stored? && t.depth > 1) }

  function StoreDepth(t: Thread, depth: nat, place: Place): Thread {
    t.(depth := depth, depthBuffer := t.depthBuffer + [depth], place := place)
  }

  function StoreBlocked(t: Thread, blocked: bool): Thread {
    t.(blocked := blocked, blockedBuffer := t.blockedBuffer + [blocked])
  }

  /** A full memory barrier on the thread. */
  function Flushed(t: Thread): Thread {
    t.(depthBuffer := [], depthMem := t.depth, blockedBuffer := [], blockedMem := t.blocked)
  }

  /** A load of lower_half_closed by thread t: a thread sees its own stores. */
  function LoadClosed(s: State, t: Tid): bool {
    if t == s.closer then s.closed else s.closedMem
  }

  datatype Step =
    | Register | Unregister
    | Enter                  // stores depth + 1
    | Check                  // loads lower_half_closed
    | CheckAgain             // the outer loop of wait_until_lower_half_open()
    | Wake                   // its inner loop
    | Leave
    | BeginBlocking | EndBlocking
    | DrainDepth | DrainBlocked   // the oldest buffered store reaches memory
    | DrainClosed
    // close_lower_half_and_wait() and allow_threads_to_enter_lower_half(), by the closer
    | Close(skip: bool) | StartMembarrier | PassMembarrier | StartScan | Scanned | EndScan | Reopen

  predicate LockFree(s: State) { !s.stage.Scan? }

  ghost predicate Enabled(s: State, t: Tid, step: Step) {
    t < |s.threads| &&
    var th := s.threads[t];
    match step
    case Register => th.place.Outside? && !th.registered && LockFree(s)
    case Unregister => th.place.Outside? && th.registered && LockFree(s)
    case Enter => th.registered && (th.place.Outside? || th.place.Inside?)
    case Check => th.place.Stored?
    case CheckAgain => th.place.Checking?
    case Wake => th.place.Waiting? && !LoadClosed(s, t)
    case Leave => th.place.Inside? && th.depth > 0
    case BeginBlocking => th.place.Inside?
    case EndBlocking => th.place.Inside?
    case DrainDepth => th.depthBuffer != []
    case DrainBlocked => th.blockedBuffer != []
    case DrainClosed => t == s.closer && s.closedBuffer != []
    case Close(_) => t == s.closer && (s.stage.Open? || s.stage.Closed?)
    case StartMembarrier => t == s.closer && s.stage.Closing?
    case PassMembarrier => s.stage.Membarrier?
    case StartScan => t == s.closer && s.stage.Membarrier? && forall u: Tid :: u < |s.threads| ==> u in s.stage.passed
    case Scanned =>
      s.stage.Scan? && t in s.stage.todo && (th.depthMem == 0 || (s.skip && th.blockedMem))
    case EndScan => t == s.closer && s.stage == Scan({})
    case Reopen => t == s.closer && s.stage.Closed?
  }

  /** The thread after its step.  With 'fenced' false, membarrier() would do nothing. */
  ghost function StepThread(s: State, t: Tid, step: Step, fenced: bool): Thread
    requires Enabled(s, t, step)
  {
    var th := s.threads[t];
    match step
    case Register => th.(registered := true)
    case Unregister => th.(registered := false)
    case Enter => StoreDepth(th, th.depth + 1, Stored)
    case Check =>
      if !LoadClosed(s, t) || th.depth > 1 || (t == s.closer && s.closing) then th.(place := Inside)
      else th.(place := Checking)
    case CheckAgain =>
      if LoadClosed(s, t) then StoreDepth(th, 0, Waiting) else th.(place := Inside)
    case Wake => StoreDepth(th, 1, Checking)
    case Leave => StoreDepth(th, th.depth - 1, if th.depth == 1 then Outside else Inside)
    case BeginBlocking => StoreBlocked(th, true).(inCall := true)
    case EndBlocking => StoreBlocked(th, false).(inCall := false)
    case DrainDepth => th.(depthMem := th.depthBuffer[0], depthBuffer := th.depthBuffer[1..])
    case DrainBlocked => th.(blockedMem := th.blockedBuffer[0], blockedBuffer := th.blockedBuffer[1..])
    case StartMembarrier => Flushed(th)
    case PassMembarrier => if fenced then Flushed(th) else th
    case _ => th
  }

  ghost function StepGate(s: State, t: Tid, step: Step): State
    requires Enabled(s, t, step)
  {
    match step
    case DrainClosed => s.(closedMem := s.closedBuffer[0], closedBuffer := s.closedBuffer[1..])
    case Close(skip) =>
      s.(closing := true, closed := true, closedBuffer := s.closedBuffer + [true], skip := skip,
         stage := Closing, excused := {})
    case StartMembarrier =>
      s.(closedMem := s.closed, closedBuffer := [], stage := Membarrier({}))
    case PassMembarrier => s.(stage := Membarrier(s.stage.passed + {t}))
    case StartScan =>
      s.(stage := Scan(set u: Tid | u < |s.threads| && s.threads[u].registered && u != s.closer))
    case Scanned =>
      s.(stage := Scan(s.stage.todo - {t}),
         excused := if s.threads[t].depthMem == 0 then s.excused else s.excused + {t})
    case EndScan => s.(stage := Closed)
    case Reopen =>
      s.(closing := false, closed := false, closedBuffer := s.closedBuffer + [false], stage := Open)
    case _ => s
  }

  ghost function Apply(s: State, t: Tid, step: Step, fenced: bool): State
    requires Enabled(s, t, step)
  {
    StepGate(s, t, step).(threads := s.threads[t := StepThread(s, t, step, fenced)])
  }

  ghost predicate Next(s: State, s': State, fenced: bool) {
    exists t: Tid, step: Step :: Enabled(s, t, step) && s' == Apply(s, t, step, fenced)
  }

  const IDLE_THREAD: Thread := Thread(Outside, false, 0, [], 0, false, [], false, false)

  ghost predicate Init(s: State) {
    && (forall t :: 0 <= t < |s.threads| ==> s.threads[t] == IDLE_THREAD)
    && s.closer < |s.threads|
    && !s.closed && s.closedBuffer == [] && !s.closedMem && !s.closing && s.stage == Open && s.excused == {}
  }

  ghost predicate Run(run: seq<State>, fenced: bool) {
    && |run| > 0 && Init(run[0])
    && forall i: nat {:trigger StepAt(run, i, fenced)} :: i + 1 < |run| ==> StepAt(run, i, fenced)
  }

  ghost predicate StepAt(run: seq<State>, i: nat, fenced: bool) { i + 1 < |run| && Next(run[i], run[i + 1], fenced) }

  // ---- the invariant ----

  predicate ThreadOk(t: Thread) {
    && (t.place.Outside? || t.place.Waiting? ==> t.depth == 0)
    && (t.place.Checking? ==> t.depth == 1)
    && (t.place.Stored? || t.place.Inside? ==> t.depth >= 1)
    && (!t.place.Outside? ==> t.registered)
    && (t.depthBuffer == [] ==> t.depthMem == t.depth)
    && (t.depthBuffer != [] ==> t.depthBuffer[|t.depthBuffer| - 1] == t.depth)
  }

  /** The closer can see that the thread is in the lower half, and will as long as it is. */
  predicate Visible(t: Thread) {
    t.depthMem >= 1 && forall i :: 0 <= i < |t.depthBuffer| ==> t.depthBuffer[i] >= 1
  }

  /** Thread t has passed the barrier of the current closing. */
  predicate Fenced(s: State, t: Tid) {
    (s.stage.Membarrier? && t in s.stage.passed) || s.stage.Scan? || s.stage.Closed?
  }

  predicate ScanDone(s: State, t: Tid) {
    (s.stage.Scan? && t !in s.stage.todo) || s.stage.Closed?
  }

  ghost predicate ThreadInv(s: State, t: Tid)
    requires t < |s.threads|
  {
    && ThreadOk(s.threads[t])
    && (t != s.closer && Fenced(s, t) && InLowerHalf(s.threads[t]) ==> Visible(s.threads[t]))
    && (t != s.closer && ScanDone(s, t) && InLowerHalf(s.threads[t]) ==> t in s.excused)
  }

  ghost predicate Inv(s: State) {
    && s.closer < |s.threads|
    && (forall t: Tid :: t < |s.threads| ==> ThreadInv(s, t))
    && (!s.stage.Open? ==> s.closed)
    && (s.stage.Membarrier? || s.stage.Scan? || s.stage.Closed? ==>
           s.closedMem && s.closedBuffer == [])
    && (!s.skip ==> s.excused == {})
  }

  // ---- what a step of thread t does to t ----

  /** Entering, waiting and leaving: the gate does not change. */
  predicate IsEntry(step: Step) { step.Enter? || step.Check? || step.CheckAgain? || step.Wake? || step.Leave? }

  predicate IsDrain(step: Step) { step.DrainDepth? || step.DrainBlocked? || step.DrainClosed? }

  predicate IsNote(step: Step) { step.Register? || step.Unregister? || step.BeginBlocking? || step.EndBlocking? }

  /** The thread's own stores keep it visible, and a thread that the gate holds gets no further. */
  lemma EntryThread(s: State, t: Tid, step: Step)
    requires Inv(s) && Enabled(s, t, step) && IsEntry(step)
    ensures var th, th' := s.threads[t], StepThread(s, t, step, true);
            && ThreadOk(th')
            && (InLowerHalf(th') && InLowerHalf(th) && Visible(th) ==> Visible(th'))
            && (InLowerHalf(th') && t != s.closer && Fenced(s, t) ==> InLowerHalf(th))
  {
    assert ThreadInv(s, t);
  }

  lemma EntrySelf(s: State, t: Tid, step: Step)
    requires Inv(s) && Enabled(s, t, step) && IsEntry(step)
    ensures ThreadInv(Apply(s, t, step, true), t)
  {
    assert ThreadInv(s, t);
    EntryThread(s, t, step);
  }

  lemma DrainThread(th: Thread)
    requires ThreadOk(th) && th.depthBuffer != []
    ensures var th' := th.(depthMem := th.depthBuffer[0], depthBuffer := th.depthBuffer[1..]);
            ThreadOk(th') && (Visible(th) ==> Visible(th'))
  {
  }

  lemma DrainSelf(s: State, t: Tid, step: Step)
    requires Inv(s) && Enabled(s, t, step) && IsDrain(step)
    ensures ThreadInv(Apply(s, t, step, true), t)
  {
    assert ThreadInv(s, t);
    if step.DrainDepth? {
      DrainThread(s.threads[t]);
    }
  }

  lemma NoteSelf(s: State, t: Tid, step: Step)
    requires Inv(s) && Enabled(s, t, step) && IsNote(step)
    ensures ThreadInv(Apply(s, t, step, true), t)
  {
    assert ThreadInv(s, t);
  }

  /** The steps of close_lower_half_and_wait() and of the membarrier. */
  lemma CloseSelf(s: State, t: Tid, step: Step)
    requires Inv(s) && Enabled(s, t, step) && !IsEntry(step) && !IsDrain(step) && !IsNote(step)
    ensures ThreadInv(Apply(s, t, step, true), t)
  {
    assert ThreadInv(s, t);
  }

  lemma StepSelf(s: State, t: Tid, step: Step)
    requires Inv(s) && Enabled(s, t, step)
    ensures ThreadInv(Apply(s, t, step, true), t)
  {
    if IsEntry(step) {
      EntrySelf(s, t, step);
    } else if IsDrain(step) {
      DrainSelf(s, t, step);
    } else if IsNote(step) {
      NoteSelf(s, t, step);
    } else {
      CloseSelf(s, t, step);
    }
  }

  lemma StepOther(s: State, t: Tid, step: Step, u: Tid)
    requires Inv(s) && Enabled(s, t, step) && u < |s.threads| && u != t
    ensures ThreadInv(Apply(s, t, step, true), u)
  {
    assert ThreadInv(s, u);
  }

  lemma StepInv(s: State, t: Tid, step: Step)
    requires Inv(s) && Enabled(s, t, step)
    ensures Inv(Apply(s, t, step, true))
  {
    var s' := Apply(s, t, step, true);
    StepSelf(s, t, step);
    forall u: Tid | u < |s'.threads| ensures ThreadInv(s', u) {
      if u != t {
        StepOther(s, t, step, u);
      }
    }
    assert ThreadInv(s, t);
  }

  lemma {:induction false} RunInv(run: seq<State>, i: nat)
    requires Run(run, true) && i < |run|
    ensures Inv(run[i])
  {
    if i > 0 {
      RunInv(run, i - 1);
      assert StepAt(run, i - 1, true);
      var t: Tid, step: Step :| Enabled(run[i - 1], t, step) && run[i] == Apply(run[i - 1], t, step, true);
      StepInv(run[i - 1], t, step);
    }
  }

  ghost predicate StaysOut(s: State, t: Tid) {
    t < |s.threads| && t != s.closer && !InLowerHalf(s.threads[t])
  }

  /** Every thread reads lower_half_closed as true, now and until it is stored again. */
  predicate Shut(s: State) {
    s.closedMem && forall i :: 0 <= i < |s.closedBuffer| ==> s.closedBuffer[i]
  }

  lemma ShutStep(s: State, s': State)
    requires Shut(s) && Next(s, s', true) && (s.stage.Closing? ==> s.closed) && !s'.stage.Open?
    ensures Shut(s')
  {
    var u: Tid, step: Step :| Enabled(s, u, step) && s' == Apply(s, u, step, true);
    ShutGate(s, u, step);
  }

  lemma ShutGate(s: State, u: Tid, step: Step)
    requires Shut(s) && Enabled(s, u, step) && (s.stage.Closing? ==> s.closed) && !step.Reopen?
    ensures Shut(StepGate(s, u, step))
  {
    if step.DrainClosed? {
      var rest := s.closedBuffer[1..];
      assert forall i :: 0 <= i < |rest| ==> rest[i] == s.closedBuffer[i + 1];
    }
  }

  lemma OutThread(s: State, t: Tid, step: Step)
    requires Enabled(s, t, step) && t != s.closer && s.closedMem && ThreadOk(s.threads[t]) && !InLowerHalf(s.threads[t])
    ensures !InLowerHalf(StepThread(s, t, step, true))
  {
  }

  lemma StaysOutStep(s: State, s': State, t: Tid)
    requires StaysOut(s, t) && ThreadOk(s.threads[t]) && s.closedMem && Next(s, s', true)
    ensures StaysOut(s', t)
  {
    var u: Tid, step: Step :| Enabled(s, u, step) && s' == Apply(s, u, step, true);
    if u == t {
      OutThread(s, t, step);
    }
  }

  /** The gate is closed at i and does not reopen until after j; it may close again in between. */
  ghost predicate StaysClosed(run: seq<State>, i: nat, j: nat) {
    && Run(run, true) && i <= j < |run| && run[i].stage.Closed?
    && forall k :: i <= k <= j ==> !run[k].stage.Open?
  }

  lemma {:induction false} ShutUntilOpen(run: seq<State>, i: nat, j: nat)
    requires StaysClosed(run, i, j)
    ensures Shut(run[j])
    decreases j
  {
    if i < j {
      ShutUntilOpen(run, i, j - 1);
      RunInv(run, j - 1);
      assert StepAt(run, j - 1, true);
      ShutStep(run[j - 1], run[j]);
    } else {
      RunInv(run, j);
    }
  }

  lemma HeldThread(run: seq<State>, i: nat, j: nat, t: Tid)
    requires StaysClosed(run, i, j) && t < |run[j].threads|
    ensures run[j].closedMem && ThreadOk(run[j].threads[t])
  {
    RunInv(run, j);
    ShutUntilOpen(run, i, j);
    assert ThreadInv(run[j], t);
  }

  /** From the return of close_lower_half_and_wait() until the gate reopens, also while the closer
      closes it again, and also with skip_blocked, no thread but the closer gets in. */
  lemma {:induction false} NoNewEntries(run: seq<State>, i: nat, j: nat, t: Tid)
    requires StaysClosed(run, i, j) && StaysOut(run[i], t)
    ensures StaysOut(run[j], t)
    decreases j
  {
    if i < j {
      NoNewEntries(run, i, j - 1, t);
      HeldThread(run, i, j - 1, t);
      assert StepAt(run, j - 1, true);
      StaysOutStep(run[j - 1], run[j], t);
    }
  }

  lemma {:induction false} SameThreads(run: seq<State>, i: nat, j: nat)
    requires Run(run, true) && i <= j < |run|
    ensures |run[j].threads| == |run[i].threads| && run[j].closer == run[i].closer
    decreases j
  {
    if i < j {
      SameThreads(run, i, j - 1);
      assert StepAt(run, j - 1, true);
    }
  }

  /** Gate exclusion: from the return of close_lower_half_and_wait() until the gate reopens, a
      thread other than the closer is in the lower half only if the scan left it there in a blocking
      call; with skip_blocked false, none is. */
  lemma GateExcludes(run: seq<State>, i: nat, j: nat, t: Tid)
    requires StaysClosed(run, i, j) && t < |run[j].threads| && t != run[j].closer
    ensures InLowerHalf(run[j].threads[t]) ==>
              && run[i].skip && t in run[i].excused
              && t < |run[i].threads| && InLowerHalf(run[i].threads[t])
  {
    RunInv(run, i);
    SameThreads(run, i, j);
    assert ThreadInv(run[i], t);
    if !InLowerHalf(run[i].threads[t]) {
      NoNewEntries(run, i, j, t);
    }
  }

  lemma Extend(run: seq<State>, t: Tid, step: Step, fenced: bool) returns (run': seq<State>)
    requires Run(run, fenced) && Enabled(run[|run| - 1], t, step)
    ensures Run(run', fenced) && run'[|run'| - 1] == Apply(run[|run| - 1], t, step, fenced)
  {
    run' := run + [Apply(run[|run| - 1], t, step, fenced)];
    forall i: nat | i + 1 < |run'| ensures StepAt(run', i, fenced) {
      if i == |run| - 1 {
        assert Enabled(run'[i], t, step) && run'[i + 1] == Apply(run'[i], t, step, fenced);
      } else {
        assert StepAt(run, i, fenced);
      }
    }
  }

  /** Thread 1 has entered while the gate was open; its depth is still in its buffer. */
  ghost function EnteredUnseen(): Thread { Thread(Inside, true, 1, [1], 0, false, [], false, false) }

  lemma EnterUnseen(fenced: bool) returns (run: seq<State>)
    ensures Run(run, fenced)
    ensures run[|run| - 1] == State([IDLE_THREAD, EnteredUnseen()], 0, false, [], false, false, false, Open, {})
  {
    run := [State([IDLE_THREAD, IDLE_THREAD], 0, false, [], false, false, false, Open, {})];
    run := Extend(run, 1, Register, fenced);
    run := Extend(run, 1, Enter, fenced);
    run := Extend(run, 1, Check, fenced);
    assert run[|run| - 1].threads[1].depthBuffer == [1];
    assert run[|run| - 1].threads == [IDLE_THREAD, EnteredUnseen()];
  }

  /** The membarrier is what the entry path relies on: if it did nothing, a run of two threads
      would leave thread 1 in the lower half after close_lower_half_and_wait(false) returns. */
  lemma MembarrierIsNeeded() returns (run: seq<State>)
    ensures Run(run, false)
    ensures var s := run[|run| - 1];
      |s.threads| == 2 && s.closer == 0 && s.stage.Closed? && !s.skip && InLowerHalf(s.threads[1])
  {
    run := EnterUnseen(false);
    run := Extend(run, 0, Close(false), false);
    run := Extend(run, 0, StartMembarrier, false);
    run := Extend(run, 0, PassMembarrier, false);
    run := Extend(run, 1, PassMembarrier, false);
    run := Extend(run, 0, StartScan, false);
    run := Extend(run, 1, Scanned, false);
    assert run[|run| - 1].stage == Scan({});
    run := Extend(run, 0, EndScan, false);
  }
}
