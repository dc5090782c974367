/**
  Who wakes the lazy writer: the timer, the queued scans and the post-tick list on which
  CcWaitForCurrentLazyWriterActivity leaves its item (ntoskrnl/cc/lazywrite.c).
*/
module LazyScans {

  /**
    `queued` scans have not drained the post-tick list yet; `drained` ones have, and will look
    for deferred writes; `ending` ones have found none and will clear ScanActive.
  */
  datatype State = State(scanActive: bool, timer: bool, queued: nat, drained: nat, ending: nat, deferred: bool,
                         postTick: seq<nat>, otherWork: bool, posted: seq<nat>)

  datatype Step =
    | MarkDirty                     // or a deferred write: schedules a scan unless one is active
    | Hurry                         // a writer that must wait: schedules a scan in any case
    | Wait(waiter: nat)
    | TimerFires(gotItem: bool)
    | ScanNow                       // a worker that starts a scan of its own
    | Drain
    | Look
    | Clear
    | Defer(pending: bool)

  const Start := State(false, false, 0, 0, 0, false, [], false, [])

  ghost predicate Enabled(s: State, step: Step) {
    match step
    case TimerFires(_) => s.timer
    case Drain => s.queued > 0
    case Look => s.drained > 0
    case Clear => s.ending > 0
    case _ => true
  }

  /** CcScheduleLazyWriteScan arms the timer; the flag tells that a run is under way. */
  ghost function Schedule(s: State): State {
    s.(scanActive := true, timer := true)
  }

  ghost function Apply(s: State, step: Step): State
    requires Enabled(s, step)
  {
    match step
    case MarkDirty => if s.scanActive then s else Schedule(s)
    case Hurry => Schedule(s)
    case Wait(waiter) =>
      var t := s.(postTick := s.postTick + [waiter], otherWork := true);
      if s.scanActive then t else Schedule(t)
    case TimerFires(gotItem) =>
      if gotItem then s.(timer := false, queued := s.queued + 1) else s.(timer := false, scanActive := false)
    case ScanNow => s.(queued := s.queued + 1)
    case Drain =>
      var t := s.(queued := s.queued - 1, drained := s.drained + 1);
      if s.otherWork then t.(posted := s.posted + s.postTick, postTick := [], otherWork := false) else t
    case Look =>
      var t := s.(drained := s.drained - 1);
      if s.deferred then Schedule(t) else t.(ending := s.ending + 1)
    case Clear => s.(ending := s.ending - 1, scanActive := false)
    case Defer(pending) => s.(deferred := pending)
  }

  /** A scan that will still drain the post-tick list is on its way. */
  ghost predicate ScanComing(s: State) {
    s.timer || s.queued > 0
  }

  ghost predicate ScanRunning(s: State) {
    s.drained > 0 || s.ending > 0
  }

  /** Whoever waits has a scan to come or one that still runs. */
  ghost predicate Attended(s: State) {
    s.postTick != [] ==> ScanComing(s) || ScanRunning(s)
  }

  /** ScanActive is set only for a scan, and OtherWork exactly while there are waiters. */
  ghost predicate Inv(s: State) {
    && (s.scanActive ==> ScanComing(s) || ScanRunning(s))
    && (s.postTick != [] <==> s.otherWork)
  }

  lemma {:induction false} StepInv(s: State, step: Step)
    requires Inv(s) && Enabled(s, step)
    ensures Inv(Apply(s, step))
  {
  }

  /**
    The two steps that leave waiters behind: the last scan clears ScanActive after late waiters
    have come, or the timer gets no work item and no other scan is there.
  */
  ghost predicate Leaves(s: State, step: Step) {
    s.postTick != [] &&
    match step
    case Clear => s.ending == 1 && s.drained == 0 && !ScanComing(s)
    case TimerFires(gotItem) => !gotItem && s.queued == 0 && !ScanRunning(s)
    case _ => false
  }

  /** The steps that start a scan where there is none. */
  ghost predicate Starts(step: Step) {
    step.MarkDirty? || step.Hurry? || step.Wait? || step.ScanNow?
  }

  /** Exactly these steps leave waiters behind, and exactly those take them up again. */
  lemma {:induction false} LeftExactly(s: State, step: Step)
    requires Inv(s) && Enabled(s, step)
    ensures Attended(s) ==> (Attended(Apply(s, step)) <==> !Leaves(s, step))
    ensures !Attended(s) ==> (Attended(Apply(s, step)) <==> Starts(step)) && (!Starts(step) ==> step.Defer?)
    ensures Leaves(s, step) ==> Attended(s)
  {
  }

  /** A scan that drains the list posts the item of every waiter. */
  lemma {:induction false} DrainReaches(s: State)
    requires Inv(s) && s.queued > 0
    ensures Apply(s, Drain).postTick == [] && forall w :: w in s.postTick ==> w in Apply(s, Drain).posted
  {
  }

  ghost predicate Follows(s: State, step: Step, t: State) {
    Enabled(s, step) && t == Apply(s, step)
  }

  ghost predicate IsRun(states: seq<State>, steps: seq<Step>) {
    && |states| == |steps| + 1 && states[0] == Start
    && forall i :: 0 <= i < |steps| ==> Follows(states[i], steps[i], states[i + 1])
  }

  lemma {:induction false} RunInv(states: seq<State>, steps: seq<Step>, k: nat)
    requires IsRun(states, steps) && k < |states|
    ensures Inv(states[k])
  {
    if k > 0 {
      var i := k - 1;
      RunInv(states, steps, i);
      assert Follows(states[i], steps[i], states[i + 1]);
      StepInv(states[i], steps[i]);
    }
  }

  /** The waiters were left behind at step `i` and no scan has been started since. */
  ghost predicate LeftAt(states: seq<State>, steps: seq<Step>, k: nat, i: nat)
    requires |states| == |steps| + 1 && k < |states|
  {
    i < k && Leaves(states[i], steps[i]) && forall j :: i < j < k ==> !Starts(steps[j])
  }

  /** In every run: someone waits for a scan that does not come if and only if a step has left them behind. */
  lemma {:induction false} WaitersLeft(states: seq<State>, steps: seq<Step>, k: nat)
    requires IsRun(states, steps) && k < |states|
    ensures !Attended(states[k]) <==> exists i: nat :: LeftAt(states, steps, k, i)
  {
    hide Inv, Attended, Leaves, Starts, Apply;
    if k == 0 {
      NobodyWaits();
    } else {
      var m := k - 1;
      WaitersLeft(states, steps, m);
      RunInv(states, steps, m);
      assert Follows(states[m], steps[m], states[m + 1]);
      LeftExactly(states[m], steps[m]);
      if !Attended(states[k]) {
        if Attended(states[m]) {
          assert LeftAt(states, steps, k, m);
        } else {
          var i: nat :| LeftAt(states, steps, m, i);
          assert LeftAt(states, steps, k, i);
        }
      } else if i: nat :| LeftAt(states, steps, k, i) {
        if i < m {
          assert LeftAt(states, steps, m, i);
        }
      }
    }
  }

  lemma {:induction false} NobodyWaits()
    ensures Attended(Start)
  {
  }

  /** So in every run without such a step, all waiters are attended all the time. */
  lemma {:induction false} WaitersReached(states: seq<State>, steps: seq<Step>)
    requires IsRun(states, steps)
    ensures (forall k :: 0 <= k < |states| ==> Attended(states[k])) <==> (forall i :: 0 <= i < |steps| ==> !Leaves(states[i], steps[i]))
  {
    hide Attended, Leaves, Starts;
    forall k | 0 <= k < |states|
      ensures !Attended(states[k]) <==> exists i: nat :: LeftAt(states, steps, k, i)
    {
      WaitersLeft(states, steps, k);
    }
    if i :| 0 <= i < |steps| && Leaves(states[i], steps[i]) {
      assert LeftAt(states, steps, i + 1, i);
      assert !Attended(states[i + 1]);
    }
  }

  /** A waiter that comes after a scan has drained the list and before it clears ScanActive. */
  lemma {:induction false} WaiterLeftBehind()
    returns (s1: State, s2: State, s3: State, s4: State, s5: State, s6: State)
    ensures Follows(Start, MarkDirty, s1) && Follows(s1, TimerFires(true), s2) && Follows(s2, Drain, s3)
    ensures Follows(s3, Wait(7), s4) && Follows(s4, Look, s5) && Follows(s5, Clear, s6)
    ensures Leaves(s5, Clear) && s6.postTick == [7] && !s6.scanActive && !Attended(s6)
  {
    s1 := Apply(Start, MarkDirty);
    s2 := Apply(s1, TimerFires(true));
    s3 := Apply(s2, Drain);
    s4 := Apply(s3, Wait(7));
    s5 := Apply(s4, Look);
    s6 := Apply(s5, Clear);
  }

  /** A waiter whose timer finds no memory for a work item. */
  lemma {:induction false} NoItemForWaiter() returns (s1: State, s2: State)
    ensures Follows(Start, Wait(7), s1) && Follows(s1, TimerFires(false), s2)
    ensures Leaves(s1, TimerFires(false)) && s2.postTick == [7] && !s2.scanActive && !Attended(s2)
  {
    s1 := Apply(Start, Wait(7));
    s2 := Apply(s1, TimerFires(false));
  }

  /** No waiter is dropped or doubled: it is on the post-tick list or its item has been posted. */
  lemma {:induction false} WaitersKept(s: State, step: Step, w: nat)
    requires Enabled(s, step)
    ensures var t := Apply(s, step);
      multiset(t.postTick)[w] + multiset(t.posted)[w]
      == multiset(s.postTick)[w] + multiset(s.posted)[w] + (if step == Wait(w) then 1 else 0)
  {
    var t := Apply(s, step);
    if step.Wait? {
      assert multiset(t.postTick) == multiset(s.postTick) + multiset{step.waiter};
    } else if step.Drain? && s.otherWork {
      assert multiset(t.posted) == multiset(s.posted) + multiset(s.postTick);
    }
  }

  // ----- dirty data and deferred writes -----

  /** Whether there are deferred writes, going by the last step that changed it. */
  ghost function Pending(steps: seq<Step>, k: nat): bool
    requires k <= |steps|
  {
    if k == 0 then false else if steps[k - 1].Defer? then steps[k - 1].pending else Pending(steps, k - 1)
  }

  lemma {:induction false} RunPending(states: seq<State>, steps: seq<Step>, k: nat)
    requires IsRun(states, steps) && k < |states|
    ensures states[k].deferred == Pending(steps, k)
  {
    if k > 0 {
      RunPending(states, steps, k - 1);
      assert Follows(states[k - 1], steps[k - 1], states[k]);
    }
  }

  /** In every run, a scan that ends while writes are deferred leaves the timer armed for the next one; any other clears ScanActive. */
  lemma {:induction false} DeferredScannedAgain(states: seq<State>, steps: seq<Step>, k: nat)
    requires IsRun(states, steps) && k < |steps| && steps[k] == Look
    ensures Pending(steps, k) ==> states[k + 1].timer && states[k + 1].scanActive
    ensures !Pending(steps, k) ==> states[k + 1].ending == states[k].ending + 1 && states[k + 1].timer == states[k].timer
  {
    RunPending(states, steps, k);
    assert Follows(states[k], steps[k], states[k + 1]);
  }

  /** Whoever marks data dirty, or waits, has a scan to come or running; a writer that must wait has the timer armed. */
  lemma {:induction false} ScanFollows(states: seq<State>, steps: seq<Step>, k: nat)
    requires IsRun(states, steps) && k < |steps|
    ensures steps[k].MarkDirty? || steps[k].Wait? ==> ScanComing(states[k + 1]) || ScanRunning(states[k + 1])
    ensures steps[k].Hurry? ==> states[k + 1].timer
    ensures steps[k].ScanNow? || steps[k] == TimerFires(true) ==> states[k + 1].queued == states[k].queued + 1
  {
    RunInv(states, steps, k);
    assert Follows(states[k], steps[k], states[k + 1]);
  }

  /** A waiter stands on the list until a scan posts it, behind all that came before it. */
  lemma {:induction false} PostedInOrder(states: seq<State>, steps: seq<Step>, k: nat)
    requires IsRun(states, steps) && k < |steps|
    ensures states[k + 1].posted + states[k + 1].postTick ==
              states[k].posted + states[k].postTick + (if steps[k].Wait? then [steps[k].waiter] else [])
  {
    RunInv(states, steps, k);
    assert Follows(states[k], steps[k], states[k + 1]);
    if steps[k].Wait? {
      assert states[k].posted + (states[k].postTick + [steps[k].waiter]) == states[k].posted + states[k].postTick + [steps[k].waiter];
    }
  }
}
