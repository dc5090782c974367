/**
  Threads that take KCB locks through the array or the two-key routines, shared or exclusive,
  and let them go again in reverse order.  A push lock has an owner or a number of sharers,
  and a queue; the model lets a thread queue up even at a free lock and lets a lock pass to
  any waiter that fits, so that what is proved holds for every waking policy.
*/
module KcbLocking {
  import opened Common
  import opened Seqs
  import opened KcbOrder

  type ThreadId = nat

  datatype Mode = Shared | Exclusive

  datatype Thread =
    | Idle
    | Taking(plan: seq<nat>, mode: Mode, held: nat)      // at work once all of the plan is held
    | Blocked(plan: seq<nat>, mode: Mode, held: nat)
    | Releasing(plan: seq<nat>, mode: Mode, held: nat)

  datatype Lock = Lock(owner: Option<ThreadId>, sharers: nat, queue: seq<ThreadId>)

  datatype State = State(locks: seq<Lock>, threads: map<ThreadId, Thread>)

  datatype Step =
    | Begin(t: ThreadId, plan: seq<nat>, mode: Mode)
    | Acquire(t: ThreadId)
    | Enqueue(t: ThreadId)
    | Grant(t: ThreadId)
    | Finish(t: ThreadId)
    | Release(t: ThreadId)
    | End(t: ThreadId)

  predicate Fits(lock: Lock, mode: Mode) {
    lock.owner == None && (mode == Exclusive ==> lock.sharers == 0)
  }

  function Taken(lock: Lock, t: ThreadId, mode: Mode): Lock {
    if mode == Exclusive then lock.(owner := Some(t)) else lock.(sharers := lock.sharers + 1)
  }

  /** ExReleasePushLock goes by the state of the lock, not by how the caller took it. */
  function Freed(lock: Lock): Lock {
    if lock.sharers > 0 then lock.(sharers := lock.sharers - 1) else lock.(owner := None)
  }

  ghost predicate InRange(s: State, plan: seq<nat>) {
    forall k :: 0 <= k < |plan| ==> plan[k] < |s.locks|
  }

  ghost predicate Enabled(s: State, step: Step) {
    step.t in s.threads &&
    var x := s.threads[step.t];
    match step
    case Begin(t, plan, mode) => x.Idle? && Increasing(plan) && InRange(s, plan)
    case Acquire(t) => x.Taking? && x.held < |x.plan| && x.plan[x.held] < |s.locks| && Fits(s.locks[x.plan[x.held]], x.mode)
    case Enqueue(t) => x.Taking? && x.held < |x.plan| && x.plan[x.held] < |s.locks|
    case Grant(t) => x.Blocked? && x.held < |x.plan| && x.plan[x.held] < |s.locks| && Fits(s.locks[x.plan[x.held]], x.mode)
    case Finish(t) => x.Taking? && x.held == |x.plan|
    case Release(t) => x.Releasing? && 0 < x.held <= |x.plan| && x.plan[x.held - 1] < |s.locks|
    case End(t) => x.Releasing? && x.held == 0
  }

  ghost function Next(s: State, step: Step): Thread
    requires Enabled(s, step)
  {
    var x := s.threads[step.t];
    match step
    case Begin(t, plan, mode) => Taking(plan, mode, 0)
    case Acquire(t) => Taking(x.plan, x.mode, x.held + 1)
    case Enqueue(t) => Blocked(x.plan, x.mode, x.held)
    case Grant(t) => Taking(x.plan, x.mode, x.held + 1)
    case Finish(t) => Releasing(x.plan, x.mode, x.held)
    case Release(t) => Releasing(x.plan, x.mode, x.held - 1)
    case End(t) => Idle
  }

  ghost function Locks(s: State, step: Step): seq<Lock>
    requires Enabled(s, step)
  {
    var x := s.threads[step.t];
    match step
    case Acquire(t) =>
      var i := x.plan[x.held]; s.locks[i := Taken(s.locks[i], t, x.mode)]
    case Enqueue(t) =>
      var i := x.plan[x.held]; s.locks[i := s.locks[i].(queue := s.locks[i].queue + [t])]
    case Grant(t) =>
      var i := x.plan[x.held]; s.locks[i := Taken(s.locks[i].(queue := Without(s.locks[i].queue, t)), t, x.mode)]
    case Release(t) =>
      var i := x.plan[x.held - 1]; s.locks[i := Freed(s.locks[i])]
    case _ => s.locks
  }

  ghost function Apply(s: State, step: Step): State
    requires Enabled(s, step)
  {
    State(Locks(s, step), s.threads[step.t := Next(s, step)])
  }

  // ----- the invariant -----

  /** The thread holds lock `i`. */
  ghost predicate Holds(x: Thread, i: nat) {
    !x.Idle? && exists k :: 0 <= k < x.held && k < |x.plan| && x.plan[k] == i
  }

  ghost predicate HoldsAs(x: Thread, i: nat, mode: Mode) {
    !x.Idle? && x.mode == mode && Holds(x, i)
  }

  ghost predicate WaitsFor(x: Thread, i: nat) {
    x.Blocked? && x.held < |x.plan| && x.plan[x.held] == i
  }

  ghost function Sharers(s: State, i: nat): set<ThreadId> {
    set t | t in s.threads && HoldsAs(s.threads[t], i, Shared)
  }

  ghost function Owners(s: State, i: nat): set<ThreadId> {
    set t | t in s.threads && HoldsAs(s.threads[t], i, Exclusive)
  }

  ghost predicate ThreadInv(s: State, x: Thread) {
    !x.Idle? ==>
      && Increasing(x.plan) && InRange(s, x.plan) && x.held <= |x.plan|
      && (x.Blocked? ==> x.held < |x.plan|)
  }

  ghost predicate CountInv(s: State, i: nat, lock: Lock) {
    && lock.sharers == |Sharers(s, i)|
    && Owners(s, i) == (if lock.owner.Some? then {lock.owner.value} else {})
    && (lock.owner.Some? ==> lock.sharers == 0)
  }

  ghost predicate QueueInv(s: State, i: nat, queue: seq<ThreadId>) {
    && NoDup(queue)
    && (forall t :: t in queue <==> t in s.threads && WaitsFor(s.threads[t], i))
  }

  ghost predicate LockInv(s: State, i: nat, lock: Lock) {
    CountInv(s, i, lock) && QueueInv(s, i, lock.queue)
  }

  ghost predicate Inv(s: State) {
    && (forall t :: t in s.threads ==> ThreadInv(s, s.threads[t]))
    && (forall i :: 0 <= i < |s.locks| ==> LockInv(s, i, s.locks[i]))
  }

  ghost predicate Init(s: State) {
    && (forall i :: 0 <= i < |s.locks| ==> s.locks[i] == Lock(None, 0, []))
    && (forall t :: t in s.threads ==> s.threads[t] == Idle)
  }

  lemma {:induction false} InitInv(s: State)
    requires Init(s)
    ensures Inv(s)
  {
    forall i | 0 <= i < |s.locks| ensures LockInv(s, i, s.locks[i]) {
      assert Sharers(s, i) == {} && Owners(s, i) == {};
    }
  }

  lemma {:induction false} SharersAfter(s: State, r: State, t: ThreadId, i: nat)
    requires t in s.threads && t in r.threads && r.threads == s.threads[t := r.threads[t]]
    ensures var x, y := s.threads[t], r.threads[t];
            && |Sharers(r, i)| == |Sharers(s, i)| - (if HoldsAs(x, i, Shared) then 1 else 0) + (if HoldsAs(y, i, Shared) then 1 else 0)
            && (HoldsAs(x, i, Shared) ==> |Sharers(s, i)| > 0)
  {
    hide HoldsAs;
    SetSwap(Sharers(s, i), Sharers(r, i), t);
    assert HoldsAs(s.threads[t], i, Shared) ==> t in Sharers(s, i);
  }

  lemma {:induction false} OwnersAfter(s: State, r: State, t: ThreadId, i: nat)
    requires t in s.threads && t in r.threads && r.threads == s.threads[t := r.threads[t]]
    ensures Owners(r, i) == Owners(s, i) - {t} + (if HoldsAs(r.threads[t], i, Exclusive) then {t} else {})
    ensures HoldsAs(s.threads[t], i, Exclusive) <==> t in Owners(s, i)
  {
    hide HoldsAs;
  }

  /** How a step changes what its thread holds. */
  lemma {:induction false} HoldsAfter(s: State, step: Step, i: nat)
    requires Enabled(s, step) && ThreadInv(s, s.threads[step.t])
    ensures var x, y := s.threads[step.t], Next(s, step);
            match step
            case Acquire(_) => Holds(y, i) <==> Holds(x, i) || i == x.plan[x.held]
            case Grant(_) => Holds(y, i) <==> Holds(x, i) || i == x.plan[x.held]
            case Release(_) => Holds(y, i) <==> Holds(x, i) && i != x.plan[x.held - 1]
            case Begin(_, _, _) => !Holds(y, i)
            case End(_) => !Holds(x, i)
            case _ => Holds(y, i) <==> Holds(x, i)
  {
    var x := s.threads[step.t];
    match step {
      case Release(_) =>
        if Holds(x, i) && i != x.plan[x.held - 1] {
          var k :| 0 <= k < x.held && x.plan[k] == i;
          assert k < x.held - 1;
        }
      case Acquire(_) =>
        if i == x.plan[x.held] {
          assert Next(s, step).plan[x.held] == i;
        }
      case Grant(_) =>
        if i == x.plan[x.held] {
          assert Next(s, step).plan[x.held] == i;
        }
      case _ =>
    }
  }

  lemma {:induction false} NotYetHeld(s: State, x: Thread)
    requires ThreadInv(s, x) && !x.Idle? && x.held < |x.plan|
    ensures !Holds(x, x.plan[x.held])
  {
  }

  lemma {:induction false} LastHeld(x: Thread)
    requires !x.Idle? && 0 < x.held <= |x.plan|
    ensures Holds(x, x.plan[x.held - 1])
  {
  }

  lemma {:induction false} IdleHolds(i: nat)
    ensures !Holds(Idle, i)
  {
  }

  lemma {:induction false} InvAt(s: State, t: ThreadId, i: nat)
    requires Inv(s) && t in s.threads && i < |s.locks|
    ensures ThreadInv(s, s.threads[t]) && CountInv(s, i, s.locks[i])
  {
    hide ThreadInv, CountInv, QueueInv;
    assert LockInv(s, i, s.locks[i]);
  }

  /** The thread goes on to hold lock `i`, or to hold it no longer, or neither. */
  lemma {:induction false} CountAfter(s: State, r: State, t: ThreadId, i: nat)
    requires t in s.threads && t in r.threads && r.threads == s.threads[t := r.threads[t]] && i < |s.locks| == |r.locks|
    requires CountInv(s, i, s.locks[i])
    requires var x, y, a, b := s.threads[t], r.threads[t], s.locks[i], r.locks[i];
             || (Holds(x, i) == Holds(y, i) && (Holds(x, i) ==> !x.Idle? && !y.Idle? && x.mode == y.mode) && b == a.(queue := b.queue))
             || (!Holds(x, i) && Holds(y, i) && !y.Idle? && Fits(a, y.mode) && b == Taken(a, t, y.mode).(queue := b.queue))
             || (Holds(x, i) && !Holds(y, i) && !x.Idle? && b == Freed(a).(queue := b.queue))
    ensures CountInv(r, i, r.locks[i])
  {
    hide Holds, Sharers, Owners;
    SharersAfter(s, r, t, i);
    OwnersAfter(s, r, t, i);
  }

  lemma {:induction false} StepCount(s: State, step: Step, i: nat)
    requires Inv(s) && Enabled(s, step) && i < |s.locks|
    ensures CountInv(Apply(s, step), i, Apply(s, step).locks[i])
  {
    hide Inv, Holds, Increasing, CountInv, Without;
    var x := s.threads[step.t];
    InvAt(s, step.t, i);
    HoldsAfter(s, step, i);
    IdleHolds(i);
    if (step.Acquire? || step.Grant?) && i == x.plan[x.held] {
      NotYetHeld(s, x);
    } else if step.Release? && i == x.plan[x.held - 1] {
      LastHeld(x);
    }
    CountAfter(s, Apply(s, step), step.t, i);
  }

  lemma {:induction false} StepQueue(s: State, step: Step, i: nat)
    requires Inv(s) && Enabled(s, step) && i < |s.locks|
    ensures QueueInv(Apply(s, step), i, Apply(s, step).locks[i].queue)
  {
    hide Increasing, CountInv, NoDup;
    var x := s.threads[step.t];
    assert LockInv(s, i, s.locks[i]) && ThreadInv(s, x);
    if step.Grant? {
      WithoutNoDup(s.locks[i].queue, step.t);
    } else if step.Enqueue? && i == x.plan[x.held] {
      NoDupAppend(s.locks[i].queue, step.t);
    }
  }

  lemma {:induction false} StepInv(s: State, step: Step)
    requires Inv(s) && Enabled(s, step)
    ensures Inv(Apply(s, step))
  {
    hide CountInv, QueueInv, Increasing;
    var r := Apply(s, step);
    forall t | t in r.threads ensures ThreadInv(r, r.threads[t]) {
      assert ThreadInv(s, s.threads[t]);
    }
    forall i | 0 <= i < |r.locks| ensures LockInv(r, i, r.locks[i]) {
      StepCount(s, step, i);
      StepQueue(s, step, i);
    }
  }

  // ----- runs -----

  ghost predicate Goes(s: State, step: Step, r: State) {
    Enabled(s, step) && r == Apply(s, step)
  }

  ghost predicate IsRun(states: seq<State>, steps: seq<Step>) {
    && |states| == |steps| + 1 && Init(states[0])
    && forall i :: 0 <= i < |steps| ==> Goes(states[i], steps[i], states[i + 1])
  }

  lemma {:induction false} RunInv(states: seq<State>, steps: seq<Step>, k: nat)
    requires IsRun(states, steps) && k < |states|
    ensures Inv(states[k])
  {
    hide Inv, Enabled, Apply, Init;
    if k == 0 {
      InitInv(states[0]);
    } else {
      var i := k - 1;
      RunInv(states, steps, i);
      assert Goes(states[i], steps[i], states[i + 1]);
      StepInv(states[i], steps[i]);
    }
  }

  /** Two threads hold the same lock only if both share it. */
  lemma {:induction false} MutualExclusion(states: seq<State>, steps: seq<Step>, k: nat, i: nat, t: ThreadId, u: ThreadId)
    requires IsRun(states, steps) && k < |states| && i < |states[k].locks| && t in states[k].threads && u in states[k].threads
    requires t != u && Holds(states[k].threads[t], i) && Holds(states[k].threads[u], i)
    ensures states[k].threads[t].mode == Shared && states[k].threads[u].mode == Shared
  {
    hide IsRun, ThreadInv, QueueInv;
    RunInv(states, steps, k);
    var s := states[k];
    var x, y := s.threads[t], s.threads[u];
    assert LockInv(s, i, s.locks[i]);
    assert HoldsAs(x, i, x.mode) && HoldsAs(y, i, y.mode);
    assert x.mode == Exclusive ==> t in Owners(s, i);
    assert y.mode == Exclusive ==> u in Owners(s, i);
    assert x.mode == Shared ==> t in Sharers(s, i);
    assert y.mode == Shared ==> u in Sharers(s, i);
  }

  /** When all threads are done, every lock that was taken has been let go. */
  lemma {:induction false} AllReleased(states: seq<State>, steps: seq<Step>, k: nat, i: nat)
    requires IsRun(states, steps) && k < |states| && i < |states[k].locks|
    requires forall t :: t in states[k].threads ==> states[k].threads[t] == Idle
    ensures var lock := states[k].locks[i]; lock.owner == None && lock.sharers == 0 && forall t :: t !in lock.queue
  {
    hide IsRun, ThreadInv, NoDup;
    RunInv(states, steps, k);
    var s := states[k];
    assert LockInv(s, i, s.locks[i]);
    assert Sharers(s, i) == {} && Owners(s, i) == {};
  }

  // ----- no deadlock -----

  /** The thread has a step that does not wait for any other thread. */
  ghost predicate CanMove(s: State, t: ThreadId) {
    t in s.threads &&
    var x := s.threads[t];
    match x
    case Idle => false
    case Taking(plan, mode, held) => Enabled(s, Enqueue(t)) || Enabled(s, Finish(t))
    case Blocked(plan, mode, held) =>
      Enabled(s, Grant(t)) && s.locks[plan[held]].queue != [] && s.locks[plan[held]].queue[0] == t
    case Releasing(plan, mode, held) => Enabled(s, Release(t)) || Enabled(s, End(t))
  }

  lemma {:induction false} RunnersMove(s: State, t: ThreadId)
    requires Inv(s) && t in s.threads && (s.threads[t].Taking? || s.threads[t].Releasing?)
    ensures CanMove(s, t)
  {
    hide LockInv, Increasing;
    assert ThreadInv(s, s.threads[t]);
  }

  ghost function Wanted(s: State, t: ThreadId): nat
    requires t in s.threads && s.threads[t].Blocked? && s.threads[t].held < |s.threads[t].plan|
  {
    s.threads[t].plan[s.threads[t].held]
  }

  ghost predicate AllBlocked(s: State, ts: set<ThreadId>) {
    forall t :: t in ts ==> t in s.threads && s.threads[t].Blocked? && s.threads[t].held < |s.threads[t].plan|
  }

  /** Of blocked threads one waits for the highest lock. */
  lemma {:induction false} Highest(s: State, ts: set<ThreadId>) returns (h: ThreadId)
    requires ts != {} && AllBlocked(s, ts)
    ensures h in ts && forall t :: t in ts ==> Wanted(s, t) <= Wanted(s, h)
  {
    h :| h in ts;
    if ts != {h} {
      var g := Highest(s, ts - {h});
      if Wanted(s, h) < Wanted(s, g) {
        h := g;
      }
    }
  }

  /** A blocked thread waits for a lock above all that it holds. */
  lemma {:induction false} WantsHigher(s: State, t: ThreadId, i: nat)
    requires Inv(s) && t in s.threads && s.threads[t].Blocked? && s.threads[t].held < |s.threads[t].plan| && Holds(s.threads[t], i)
    ensures i < Wanted(s, t)
  {
    hide LockInv;
    assert ThreadInv(s, s.threads[t]);
  }

  /** The first waiter at the highest lock gets it: a holder would wait for a higher one. */
  lemma {:induction false} HeadMoves(s: State, h: ThreadId, ts: set<ThreadId>)
    requires Inv(s) && AllBlocked(s, ts) && h in ts && forall t :: t in ts ==> Wanted(s, t) <= Wanted(s, h)
    requires forall t :: t in s.threads && !s.threads[t].Idle? ==> t in ts
    ensures exists t :: CanMove(s, t)
  {
    hide Increasing, NoDup;
    var i := Wanted(s, h);
    assert ThreadInv(s, s.threads[h]);
    var lock := s.locks[i];
    assert LockInv(s, i, lock);
    assert WaitsFor(s.threads[h], i) && h in lock.queue;
    var first := lock.queue[0];
    assert first in lock.queue && WaitsFor(s.threads[first], i);
    forall u ensures u !in Sharers(s, i) && u !in Owners(s, i) {
      if u in Sharers(s, i) || u in Owners(s, i) {
        assert u in ts;
        WantsHigher(s, u, i);
      }
    }
    assert Sharers(s, i) == {} && Owners(s, i) == {};
    assert CanMove(s, first);
  }

  /** In every state of every run in which some thread is not done, some thread can go on. */
  lemma {:induction false} NoDeadlock(states: seq<State>, steps: seq<Step>, k: nat, t: ThreadId)
    requires IsRun(states, steps) && k < |states| && t in states[k].threads && !states[k].threads[t].Idle?
    ensures exists u :: CanMove(states[k], u)
  {
    hide IsRun, LockInv, CanMove, Increasing;
    RunInv(states, steps, k);
    var s := states[k];
    if u :| u in s.threads && (s.threads[u].Taking? || s.threads[u].Releasing?) {
      RunnersMove(s, u);
    } else {
      var ts := set u | u in s.threads && s.threads[u].Blocked?;
      forall u | u in ts ensures s.threads[u].held < |s.threads[u].plan| {
        assert ThreadInv(s, s.threads[u]);
      }
      assert t in ts;
      var h := Highest(s, ts);
      HeadMoves(s, h, ts);
    }
  }

  // ----- all work ends -----

  /** An upper bound for the steps that a thread still takes. */
  ghost function Work(x: Thread): nat {
    match x
    case Idle => 0
    case Taking(plan, _, held) => if held <= |plan| then 2 * (|plan| - held) + |plan| + 2 else 0
    case Blocked(plan, _, held) => if held <= |plan| then 2 * (|plan| - held) + |plan| + 1 else 0
    case Releasing(_, _, held) => held + 1
  }

  ghost function AllWork(threads: map<ThreadId, Thread>): nat {
    if threads == map[] then 0 else
    var t :| t in threads;
    Work(threads[t]) + AllWork(threads - {t})
  }

  lemma {:induction false} WorkOfOne(threads: map<ThreadId, Thread>, t: ThreadId)
    requires t in threads
    ensures AllWork(threads) == Work(threads[t]) + AllWork(threads - {t})
    decreases |threads|
  {
    hide Work;
    var u :| u in threads && AllWork(threads) == Work(threads[u]) + AllWork(threads - {u});
    if u != t {
      WorkOfOne(threads - {u}, t);
      WorkOfOne(threads - {t}, u);
      assert threads - {u} - {t} == threads - {t} - {u};
    }
  }

  lemma {:induction false} StepWork(s: State, step: Step)
    requires Inv(s) && Enabled(s, step) && !step.Begin?
    ensures AllWork(Apply(s, step).threads) < AllWork(s.threads)
  {
    hide LockInv, AllWork;
    var r := Apply(s, step);
    assert ThreadInv(s, s.threads[step.t]);
    WorkOfOne(s.threads, step.t);
    WorkOfOne(r.threads, step.t);
    assert r.threads - {step.t} == s.threads - {step.t};
  }

  /** Without new arrivals, the threads take no more steps than they have work left. */
  lemma {:induction false} WorkEnds(states: seq<State>, steps: seq<Step>, j: nat, k: nat)
    requires IsRun(states, steps) && j <= k < |states|
    requires forall i :: j <= i < k ==> !steps[i].Begin?
    ensures k - j + AllWork(states[k].threads) <= AllWork(states[j].threads)
  {
    hide Inv, Enabled, Apply, Init, AllWork;
    if j < k {
      WorkEnds(states, steps, j, k - 1);
      RunInv(states, steps, k - 1);
      var i := k - 1;
      assert Goes(states[i], steps[i], states[i + 1]);
      StepWork(states[i], steps[i]);
    }
  }

  // ----- at work -----

  /** The thread is on its way with this plan, and holds as much of it as it has taken. */
  ghost predicate OnPlan(x: Thread, plan: seq<nat>, mode: Mode) {
    !x.Idle? && x.plan == plan && x.mode == mode
  }

  lemma {:induction false} StepPlan(s: State, step: Step, t: ThreadId, plan: seq<nat>, mode: Mode)
    requires Enabled(s, step) && t in s.threads
    requires step == Begin(t, plan, mode) || OnPlan(s.threads[t], plan, mode)
    ensures var y := Apply(s, step).threads[t]; OnPlan(y, plan, mode) || (y.Idle? && step == End(t))
  {
    hide Locks;
  }

  /**
    In every run a thread that is done with acquiring holds every lock of the plan that it came
    with, in the mode that it asked for, until it has begun to release them.
  */
  lemma {:induction false} AtWork(states: seq<State>, steps: seq<Step>, i: nat, k: nat, t: ThreadId, plan: seq<nat>, mode: Mode, lock: nat)
    requires IsRun(states, steps) && i < k < |states| && steps[i] == Begin(t, plan, mode)
    requires forall m :: i < m < k ==> steps[m] != End(t)
    ensures t in states[k].threads && OnPlan(states[k].threads[t], plan, mode)
    ensures Enabled(states[k], Finish(t)) && lock in plan ==> HoldsAs(states[k].threads[t], lock, mode)
  {
    hide Inv, Apply, Holds;
    var m := k - 1;
    RunInv(states, steps, m);
    assert Goes(states[m], steps[m], states[m + 1]);
    ThreadsKept(states[m], steps[m]);
    if m > i {
      AtWork(states, steps, i, m, t, plan, mode, lock);
    }
    StepPlan(states[m], steps[m], t, plan, mode);
    if Enabled(states[k], Finish(t)) && lock in plan {
      HoldsAll(states[k].threads[t], lock);
    }
  }

  lemma {:induction false} ThreadsKept(s: State, step: Step)
    requires Enabled(s, step)
    ensures Apply(s, step).threads.Keys == s.threads.Keys
  {
    hide Locks, Next;
  }

  lemma {:induction false} HoldsAll(x: Thread, lock: nat)
    requires x.Taking? && x.held == |x.plan| && lock in x.plan
    ensures Holds(x, lock)
  {
    var k :| 0 <= k < |x.plan| && x.plan[k] == lock;
  }
}
