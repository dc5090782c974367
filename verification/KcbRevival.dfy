/**
  One key control block and the threads that find it in the cache, reference it and drop it
  (CmpReferenceKeyControlBlock and CmpDereferenceKeyControlBlock in
  ntoskrnl/config/cmkcbncb.c, CmpDelayCloseWorker in ntoskrnl/config/cmdelay.c).  A thread may
  find an unreferenced KCB while it has the lock of its hash chain shared only; to take the
  KCB off the delayed-close list it needs the lock exclusively, and may have to let the lock
  go in between.  It then leaves a temporary reference and sets DelayedCloseIndex to 1.  A step
  is one access to the KCB or one lock operation, by any of any number of threads.
*/
module KcbRevival {
  import opened Common
  import opened Seqs

  type ThreadId = nat

  /** DelayedCloseIndex: Off is CmpDelayedCloseSize, for a KCB that is not on the list. */
  datatype Index = Off | Zero | One

  datatype Thread =
    | Idle
    // in CmpReferenceKeyControlBlock
    | LookS | LookX                 // the KCB was found under the shared or the exclusive lock
    | TryConvert                    // no reference was seen, and the lock is shared
    | MarkIt                        // the lock could not be converted
    | RaiseIt
    | Unlocking                     // temporary reference
    | Parked                        // temporary reference, no lock
    | Back                          // temporary reference, exclusive lock
    | Lowered
    | CountS | CountX
    | CheckS | CheckX               // referenced; will look at the index
    | ParkedC                       // referenced, no lock, will look at the index again
    | KeepS | KeepX
    | Holder                        // has a handle and no lock
    // in CmpDereferenceKeyControlBlock
    | CasDrop(seen: int)
    | WantX
    | DropX
    // in CmpDelayCloseWorker
    | WorkX

  datatype State = State(alive: bool, refs: int, index: Index, inLru: bool,
                         sharers: set<ThreadId>, owner: Option<ThreadId>, threads: map<ThreadId, Thread>)

  datatype Step =
    | AcquireShared(t: ThreadId)
    | AcquireExclusive(t: ThreadId)
    | Begin(t: ThreadId)
    | Convert(t: ThreadId, ok: bool)
    | Mark(t: ThreadId)
    | Raise(t: ThreadId)
    | Unlock(t: ThreadId)
    | Relock(t: ThreadId)
    | Lower(t: ThreadId)
    | Reset(t: ThreadId)
    | Count(t: ThreadId)
    | Check(t: ThreadId, ok: bool)
    | RelockC(t: ThreadId)
    | Leave(t: ThreadId)
    | Read(t: ThreadId)
    | Cas(t: ThreadId)
    | LockDrop(t: ThreadId)
    | Drop(t: ThreadId, close: bool)
    | WorkStart(t: ThreadId)
    | Work(t: ThreadId)

  /** The thread has the lock shared. */
  ghost predicate IsShared(x: Thread) {
    x.LookS? || x.TryConvert? || x.MarkIt? || x.RaiseIt? || x.Unlocking? || x.CountS? || x.CheckS? || x.KeepS?
  }

  ghost predicate IsExclusive(x: Thread) {
    x.LookX? || x.Back? || x.Lowered? || x.CountX? || x.CheckX? || x.KeepX? || x.DropX? || x.WorkX?
  }

  /** One of the KCB's references is the thread's. */
  ghost predicate HasRef(x: Thread) {
    || x.Unlocking? || x.Parked? || x.Back?
    || x.CheckS? || x.CheckX? || x.ParkedC? || x.KeepS? || x.KeepX? || x.Holder? || x.CasDrop? || x.WantX? || x.DropX?
  }

  /** The thread has set the index to 1 and will set it back. */
  ghost predicate Owes(x: Thread) {
    x.RaiseIt? || x.Unlocking? || x.Parked? || x.Back? || x.Lowered?
  }

  ghost predicate Unlocked(s: State) {
    s.owner == None && s.sharers == {}
  }

  ghost predicate Enabled(s: State, step: Step) {
    step.t in s.threads &&
    var x := s.threads[step.t];
    match step
    case AcquireShared(t) => x.Idle? && s.owner == None && s.alive
    case AcquireExclusive(t) => x.Idle? && Unlocked(s) && s.alive
    case Begin(t) => x.LookS? || x.LookX?
    case Convert(t, ok) => x.TryConvert? && (ok ==> s.sharers == {t})
    case Mark(t) => x.MarkIt?
    case Raise(t) => x.RaiseIt?
    case Unlock(t) => x.Unlocking?
    case Relock(t) => x.Parked? && Unlocked(s)
    case Lower(t) => x.Back?
    case Reset(t) => x.Lowered?
    case Count(t) => x.CountS? || x.CountX?
    case Check(t, ok) => (x.CheckS? || x.CheckX?) && (ok ==> x.CheckS? && s.sharers == {t})
    case RelockC(t) => x.ParkedC? && Unlocked(s)
    case Leave(t) => x.KeepS? || x.KeepX?
    case Read(t) => x.Holder?
    case Cas(t) => x.CasDrop?
    case LockDrop(t) => x.WantX? && Unlocked(s)
    case Drop(t, close) => x.DropX?
    case WorkStart(t) => x.Idle? && Unlocked(s) && s.alive && s.inLru
    case Work(t) => x.WorkX?
  }

  /** The KCB has not been freed, and the code's assertions on its way hold. */
  ghost predicate Safe(s: State, step: Step) {
    && Enabled(s, step) && s.alive
    && (step.Drop? && s.refs == 1 ==> s.index == Off && !s.inLru)
    && (step.Check? && s.threads[step.t].CheckX? && s.index == Zero ==> s.inLru)
    && (step.Reset? ==> s.index != Zero)
    && (step.Lower? || step.Drop? || step.Cas? ==> s.refs > 0)
  }

  ghost function Next(s: State, step: Step): Thread
    requires Safe(s, step)
  {
    var x := s.threads[step.t];
    match step
    case AcquireShared(t) => LookS
    case AcquireExclusive(t) => LookX
    case Begin(t) => if x.LookX? then CountX else if s.refs == 0 then TryConvert else CountS
    case Convert(t, ok) => if ok then CountX else MarkIt
    case Mark(t) => RaiseIt
    case Raise(t) => Unlocking
    case Unlock(t) => Parked
    case Relock(t) => Back
    case Lower(t) => Lowered
    case Reset(t) => CountX
    case Count(t) => if x.CountX? then CheckX else CheckS
    case Check(t, ok) =>
      if x.CheckX? then KeepX
      else if s.index != Zero then KeepS
      else if ok then CheckX
      else ParkedC
    case RelockC(t) => CheckX
    case Leave(t) => Holder
    case Read(t) => if s.refs - 1 > 0 then CasDrop(s.refs) else WantX
    case Cas(t) => if s.refs == x.seen then Idle else WantX
    case LockDrop(t) => DropX
    case Drop(t, close) => Idle
    case WorkStart(t) => WorkX
    case Work(t) => Idle
  }

  ghost function Kcb(s: State, step: Step): State
    requires Safe(s, step)
  {
    var x := s.threads[step.t];
    match step
    case Mark(t) => s.(index := One)
    case Raise(t) => s.(refs := s.refs + 1)
    case Lower(t) => s.(refs := s.refs - 1)
    case Reset(t) => if s.index == One then s.(index := Zero) else s
    case Count(t) => s.(refs := s.refs + 1)
    case Check(t, ok) => if x.CheckX? && s.index == Zero then s.(inLru := false, index := Off) else s
    case Cas(t) => if s.refs == x.seen then s.(refs := s.refs - 1) else s
    case Drop(t, close) =>
      if s.refs > 1 then s.(refs := s.refs - 1)
      else if close then s.(refs := 0, alive := false)
      else s.(refs := 0, inLru := true, index := Zero)
    case Work(t) =>
      // a KCB that is in use again goes back to the head of the list
      if !s.inLru || s.refs != 0 || s.index != Zero then s else s.(alive := false, inLru := false)
    case _ => s
  }

  ghost function Apply(s: State, step: Step): State
    requires Safe(s, step)
  {
    var y := Next(s, step);
    Kcb(s, step).(
      threads := s.threads[step.t := y],
      sharers := if IsShared(y) then s.sharers + {step.t} else s.sharers - {step.t},
      owner := if IsExclusive(y) then Some(step.t) else if s.owner == Some(step.t) then None else s.owner)
  }

  // ----- the invariant -----

  ghost function Refs(s: State): set<ThreadId> {
    set t | t in s.threads && HasRef(s.threads[t])
  }

  ghost predicate LockInv(s: State) {
    && (forall t :: t in s.sharers <==> t in s.threads && IsShared(s.threads[t]))
    && (forall t :: s.owner == Some(t) <==> t in s.threads && IsExclusive(s.threads[t]))
    && (s.owner.Some? ==> s.sharers == {})
  }

  /** What the owner of the lock may have left half done. */
  ghost predicate OwnerIn(s: State, a: bool, b: bool, c: bool) {
    s.owner.Some? && s.owner.value in s.threads &&
    var x := s.threads[s.owner.value];
    (a && x.Lowered?) || (b && x.CountX?) || (c && x.CheckX?)
  }

  ghost predicate KcbInv(s: State) {
    && s.refs == |Refs(s)|
    && (s.inLru <==> s.index != Off)
    && (s.index == One ==> exists t :: t in s.threads && Owes(s.threads[t]))
    && (s.index == Zero && s.refs > 0 ==> OwnerIn(s, false, true, true))
    && (s.refs == 0 && !s.inLru ==> OwnerIn(s, true, true, false))
  }

  ghost predicate ThreadInv(s: State, x: Thread) {
    && (x.TryConvert? || x.MarkIt? ==> s.index != Off)
    && (x.RaiseIt? || x.Unlocking? ==> s.index == One)
    && (x.Lowered? ==> s.index != Zero)
    && (x.CountS? ==> s.refs > 0)
    && (x.CasDrop? ==> x.seen > 1)
  }

  ghost predicate Inv(s: State) {
    && LockInv(s)
    && (forall t :: t in s.threads ==> ThreadInv(s, s.threads[t]))
    && if s.alive then KcbInv(s) else forall t :: t in s.threads ==> s.threads[t].Idle?
  }

  /** The KCB has just been made by a thread that has a handle on it. */
  ghost predicate Init(s: State) {
    && s.alive && s.refs == 1 && s.index == Off && !s.inLru && Unlocked(s)
    && exists c :: c in s.threads && s.threads[c] == Holder && forall t :: t in s.threads && t != c ==> s.threads[t] == Idle
  }

  lemma {:induction false} InitInv(s: State)
    requires Init(s)
    ensures Inv(s)
  {
    var c :| c in s.threads && s.threads[c] == Holder && forall t :: t in s.threads && t != c ==> s.threads[t] == Idle;
    assert Refs(s) == {c};
  }

  // ----- every step is safe -----

  lemma {:induction false} RefSeen(s: State, t: ThreadId)
    requires Inv(s) && s.alive && t in s.threads && HasRef(s.threads[t])
    ensures s.refs >= 1 && (s.refs == 1 ==> Refs(s) == {t})
  {
    hide ThreadInv;
    assert t in Refs(s);
    assert Refs(s) == {t} + (Refs(s) - {t});
  }

  lemma {:induction false} StepSafe(s: State, step: Step)
    requires Inv(s) && Enabled(s, step)
    ensures Safe(s, step)
  {
    hide Refs;
    var x := s.threads[step.t];
    assert ThreadInv(s, x);
    if s.alive && HasRef(x) {
      RefSeen(s, step.t);
      if step.Drop? && s.refs == 1 {
        OwedByNone(s, step.t);
      }
    }
  }

  /** The last reference, under the exclusive lock: nobody else is in the middle of anything. */
  lemma {:induction false} OwedByNone(s: State, t: ThreadId)
    requires Inv(s) && s.alive && t in s.threads && s.threads[t].DropX? && Refs(s) == {t}
    ensures forall u :: u in s.threads && u != t ==> s.threads[u].Idle?
    ensures s.index == Off
  {
    forall u | u in s.threads && u != t ensures s.threads[u].Idle? {
      assert u in Refs(s) <==> HasRef(s.threads[u]);
      assert u in s.sharers <==> IsShared(s.threads[u]);
      assert s.owner == Some(u) <==> IsExclusive(s.threads[u]);
    }
  }

  // ----- every step keeps the invariant -----

  lemma {:induction false} RefsAfter(s: State, step: Step)
    requires Safe(s, step)
    ensures var y := Next(s, step);
            |Refs(Apply(s, step))| == |Refs(s)| - (if HasRef(s.threads[step.t]) then 1 else 0) + (if HasRef(y) then 1 else 0)
  {
    hide Next, Kcb;
    SetSwap(Refs(s), Refs(Apply(s, step)), step.t);
  }

  lemma {:induction false} StepLock(s: State, step: Step)
    requires Inv(s) && Safe(s, step)
    ensures LockInv(Apply(s, step))
  {
    hide KcbInv, ThreadInv, Kcb;
  }

  lemma {:induction false} InvAt(s: State, t: ThreadId)
    requires Inv(s) && t in s.threads
    ensures LockInv(s) && ThreadInv(s, s.threads[t]) && (s.alive ==> KcbInv(s))
  {
    hide LockInv, ThreadInv, KcbInv;
  }

  lemma {:induction false} StepKcb(s: State, step: Step)
    requires Inv(s) && Safe(s, step) && Apply(s, step).alive
    ensures KcbInv(Apply(s, step))
  {
    hide Inv, Refs;
    var x, r := s.threads[step.t], Apply(s, step);
    InvAt(s, step.t);
    RefsAfter(s, step);
    if HasRef(x) {
      RefSeen(s, step.t);
    }
    if r.index == One {
      StillOwed(s, step);
    }
  }

  lemma {:induction false} StillOwed(s: State, step: Step)
    requires Inv(s) && Safe(s, step) && Apply(s, step).index == One
    ensures exists t :: t in Apply(s, step).threads && Owes(Apply(s, step).threads[t])
  {
    hide Refs, ThreadInv;
    var r := Apply(s, step);
    if step.Mark? {
      assert Owes(r.threads[step.t]);
    } else {
      var t :| t in s.threads && Owes(s.threads[t]);
      assert Owes(r.threads[t]);
    }
  }

  lemma {:induction false} StepThread(s: State, step: Step, u: ThreadId)
    requires Inv(s) && Safe(s, step) && u in Apply(s, step).threads
    ensures ThreadInv(Apply(s, step), Apply(s, step).threads[u])
  {
    hide Inv, Safe, Apply, ThreadInv;
    if u == step.t {
      StepOwn(s, step);
    } else {
      StepOthers(s, step, u);
    }
  }

  /** Who has the lock shared sees no owner, and who has it exclusively is the owner. */
  lemma {:induction false} LockSeen(s: State, t: ThreadId)
    requires LockInv(s) && t in s.threads
    ensures IsShared(s.threads[t]) ==> s.owner == None
    ensures IsExclusive(s.threads[t]) ==> s.owner == Some(t)
  {
    assert t in s.sharers <==> IsShared(s.threads[t]);
  }

  lemma {:induction false} StepOwn(s: State, step: Step)
    requires Inv(s) && Safe(s, step) && step.t in Apply(s, step).threads
    ensures ThreadInv(Apply(s, step), Apply(s, step).threads[step.t])
  {
    hide Refs, LockInv, Owes;
    LockSeen(s, step.t);
    assert ThreadInv(s, s.threads[step.t]);
    if HasRef(s.threads[step.t]) {
      RefSeen(s, step.t);
    }
  }

  lemma {:induction false} StepOthers(s: State, step: Step, u: ThreadId)
    requires Inv(s) && Safe(s, step) && u in Apply(s, step).threads && u != step.t
    ensures ThreadInv(Apply(s, step), Apply(s, step).threads[u])
  {
    hide Refs;
    assert ThreadInv(s, s.threads[u]) && ThreadInv(s, s.threads[step.t]);
    if HasRef(s.threads[step.t]) {
      RefSeen(s, step.t);
    }
  }

  /** A KCB is freed only when every other thread has nothing to do with it. */
  lemma {:induction false} FreedUnused(s: State, step: Step)
    requires Inv(s) && Safe(s, step) && !Apply(s, step).alive
    ensures forall u :: u in s.threads && u != step.t ==> s.threads[u].Idle?
    ensures Next(s, step).Idle?
  {
    var t := step.t;
    if step.Drop? {
      RefSeen(s, t);
      OwedByNone(s, t);
    } else {
      assert Refs(s) == {};
      forall u | u in s.threads && u != t ensures s.threads[u].Idle? {
        assert u in Refs(s) <==> HasRef(s.threads[u]);
        assert u in s.sharers <==> IsShared(s.threads[u]);
        assert s.owner == Some(u) <==> IsExclusive(s.threads[u]);
      }
    }
  }

  lemma {:induction false} StepInv(s: State, step: Step)
    requires Inv(s) && Enabled(s, step)
    ensures Safe(s, step) && Inv(Apply(s, step))
  {
    hide LockInv, KcbInv, ThreadInv, Next, Kcb;
    StepSafe(s, step);
    var r := Apply(s, step);
    StepLock(s, step);
    forall u | u in r.threads ensures ThreadInv(r, r.threads[u]) {
      StepThread(s, step, u);
    }
    if r.alive {
      StepKcb(s, step);
    } else {
      FreedUnused(s, step);
    }
  }

  // ----- runs -----

  ghost predicate Goes(s: State, step: Step, r: State) {
    Enabled(s, step) && (Safe(s, step) ==> r == Apply(s, step))
  }

  /** A run; after a step on a freed KCB, or one that an assertion forbids, anything could follow. */
  ghost predicate IsRun(states: seq<State>, steps: seq<Step>) {
    && |states| == |steps| + 1 && Init(states[0])
    && forall i :: 0 <= i < |steps| ==> Goes(states[i], steps[i], states[i + 1])
  }

  lemma {:induction false} RunInv(states: seq<State>, steps: seq<Step>, k: nat)
    requires IsRun(states, steps) && k < |states|
    ensures Inv(states[k])
  {
    hide Inv, Safe, Enabled, Apply, Init;
    if k == 0 {
      InitInv(states[0]);
    } else {
      var i := k - 1;
      RunInv(states, steps, i);
      assert Goes(states[i], steps[i], states[i + 1]);
      StepInv(states[i], steps[i]);
    }
  }

  /**
    No step of any run touches a freed KCB or violates an assertion of the code, and when the
    KCB is freed no other thread has a reference, the lock, or a pointer to it.
  */
  lemma {:induction false} RunSafe(states: seq<State>, steps: seq<Step>, k: nat)
    requires IsRun(states, steps) && k < |steps|
    ensures Safe(states[k], steps[k]) && states[k + 1] == Apply(states[k], steps[k])
    ensures !states[k + 1].alive ==> forall u :: u in states[k].threads && u != steps[k].t ==> states[k].threads[u].Idle?
  {
    hide Inv, Safe, Enabled, Apply, Init, Next;
    RunInv(states, steps, k);
    assert Goes(states[k], steps[k], states[k + 1]);
    StepSafe(states[k], steps[k]);
    if !states[k + 1].alive {
      FreedUnused(states[k], steps[k]);
    }
  }

  /**
    When no thread is inside one of the routines, the references are exactly the handles, and
    the KCB is on the delayed-close list, with index 0, if and only if there is none.
  */
  lemma {:induction false} AtRest(states: seq<State>, steps: seq<Step>, k: nat)
    requires IsRun(states, steps) && k < |states| && states[k].alive
    requires forall t :: t in states[k].threads ==> states[k].threads[t].Idle? || states[k].threads[t].Holder?
    ensures var s := states[k];
            && s.refs == |set t | t in s.threads && s.threads[t].Holder?|
            && (s.inLru <==> s.refs == 0) && (s.inLru <==> s.index == Zero) && s.index != One
  {
    hide IsRun, ThreadInv;
    RunInv(states, steps, k);
    var s := states[k];
    assert Refs(s) == set t | t in s.threads && s.threads[t].Holder?;
  }

  // ----- when the KCB is freed, and when it is kept -----

  /**
    In every run the KCB is freed exactly by the last dereference under the exclusive lock if
    closing is not put off, and by the worker if it is on the list, unreferenced and not marked.
  */
  lemma {:induction false} FreedExactly(states: seq<State>, steps: seq<Step>, k: nat)
    requires IsRun(states, steps) && k < |steps| && states[k].alive
    ensures !states[k + 1].alive <==>
      || (steps[k].Drop? && states[k].refs == 1 && steps[k].close)
      || (steps[k].Work? && states[k].inLru && states[k].refs == 0 && states[k].index == Zero)
    ensures !states[k + 1].alive ==> states[k + 1].refs == 0 && !states[k + 1].inLru
  {
    hide Inv, Init, Next;
    RunSafe(states, steps, k);
  }

  /** In every run a KCB leaves the list only when it is freed, or when the owner of the lock finds index 0 and takes it back into use. */
  lemma {:induction false} LeavesList(states: seq<State>, steps: seq<Step>, k: nat)
    requires IsRun(states, steps) && k < |steps| && states[k].inLru
    ensures !states[k + 1].inLru <==>
      || !states[k + 1].alive
      || (steps[k].Check? && states[k].owner == Some(steps[k].t) && states[k].index == Zero)
    ensures states[k + 1].alive && !states[k + 1].inLru ==> states[k + 1].index == Off && states[k].refs > 0
  {
    hide Init, Next, Refs, ThreadInv;
    RunInv(states, steps, k);
    RunSafe(states, steps, k);
    LockSeen(states[k], steps[k].t);
    if steps[k].Check? {
      RefSeen(states[k], steps[k].t);
    }
  }

  /** A reference that was counted under the shared lock never has to come back for the list. */
  lemma {:induction false} SharedCountKeeps(states: seq<State>, steps: seq<Step>, k: nat)
    requires IsRun(states, steps) && k < |steps| && steps[k].Check? && steps[k].t in states[k].threads && states[k].threads[steps[k].t].CheckS?
    ensures steps[k].t in states[k + 1].threads && states[k + 1].threads[steps[k].t].KeepS?
  {
    hide Init, Refs, ThreadInv;
    RunInv(states, steps, k);
    RunSafe(states, steps, k);
    LockSeen(states[k], steps[k].t);
    RefSeen(states[k], steps[k].t);
  }

  /** The last dereference that puts the close off leaves the KCB on the list, with index 0. */
  lemma {:induction false} KeptOnList(states: seq<State>, steps: seq<Step>, k: nat)
    requires IsRun(states, steps) && k < |steps| && steps[k].Drop? && !steps[k].close && states[k].refs == 1
    ensures states[k + 1].alive && states[k + 1].inLru && states[k + 1].index == Zero && states[k + 1].refs == 0
  {
    hide Inv, Init, Next;
    RunSafe(states, steps, k);
  }

  /** The steps that a reference still has to take, at most, if no lock conversion is asked for again. */
  ghost function StepsLeft(x: Thread): nat {
    match x
    case LookS => 13
    case TryConvert => 12
    case MarkIt => 11
    case RaiseIt => 10
    case Unlocking => 9
    case Parked => 8
    case Back => 7
    case Lowered => 6
    case LookX => 6
    case CountS => 5
    case CountX => 5
    case CheckS => 4
    case ParkedC => 3
    case CheckX => 2
    case KeepS => 1
    case KeepX => 1
    case _ => 0
  }

  ghost predicate Referencing(x: Thread) {
    StepsLeft(x) > 0
  }

  /** Every step of a thread that references the KCB brings it closer to its handle, which it gets. */
  lemma {:induction false} GetsHandle(s: State, step: Step)
    requires Safe(s, step) && Referencing(s.threads[step.t])
    ensures var y := Next(s, step); StepsLeft(y) < StepsLeft(s.threads[step.t]) && (!Referencing(y) ==> y.Holder?)
  {
    hide Unlocked;
  }

  /** The steps that a dereference, or a turn of the worker, still has to take at most. */
  ghost function DropsLeft(x: Thread): nat {
    match x
    case Holder => 4
    case CasDrop(_) => 3
    case WantX => 2
    case DropX => 1
    case WorkX => 1
    case _ => 0
  }

  /** Every step of a dereference, and of the worker, brings it closer to its end, where the thread has nothing. */
  lemma {:induction false} DropEnds(s: State, step: Step)
    requires Safe(s, step) && DropsLeft(s.threads[step.t]) > 0
    ensures var y := Next(s, step); DropsLeft(y) < DropsLeft(s.threads[step.t]) && (DropsLeft(y) == 0 ==> y.Idle?)
  {
    hide Unlocked;
  }

  /** The worker comes for an unreferenced KCB on the list with the lock to itself, and then frees it unless it is in use again. */
  lemma {:induction false} WorkerComes(s: State, step: Step)
    requires Safe(s, step) && step.WorkStart?
    ensures Next(s, step).WorkX? && Apply(s, step).owner == Some(step.t) && Apply(s, step).inLru && Apply(s, step).refs == s.refs
  {
    hide Refs;
  }

  /** In every run a thread that has come for a reference still has the KCB before it, or has its handle. */
  lemma {:induction false} ReferenceSucceeds(states: seq<State>, steps: seq<Step>, i: nat, k: nat, t: ThreadId)
    requires IsRun(states, steps) && i < k < |states| && (steps[i] == AcquireShared(t) || steps[i] == AcquireExclusive(t))
    requires forall m :: i < m < k ==> t in states[m].threads && Referencing(states[m].threads[t])
    ensures t in states[k].threads && states[k].alive
    ensures Referencing(states[k].threads[t]) || (states[k].threads[t].Holder? && states[k].refs >= 1)
  {
    hide Inv, Safe, Enabled, Init, StepsLeft, Kcb;
    var m := k - 1;
    RunSafe(states, steps, m);
    RunInv(states, steps, k);
    ThreadsAfter(states[m], steps[m]);
    if m == i {
      ComesIn(states[i], steps[i]);
    } else {
      ReferenceSucceeds(states, steps, i, m, t);
      if steps[m].t == t {
        GetsHandle(states[m], steps[m]);
      }
    }
    ReferencingNotIdle(states[k].threads[t]);
    StaysAlive(states[k], t);
  }

  lemma {:induction false} ReferencingNotIdle(x: Thread)
    ensures Referencing(x) ==> !x.Idle?
  {
  }

  lemma {:induction false} ThreadsAfter(s: State, step: Step)
    requires Safe(s, step)
    ensures step.t in s.threads && Apply(s, step).threads == s.threads[step.t := Next(s, step)]
  {
    hide Next, Kcb;
  }

  lemma {:induction false} ComesIn(s: State, step: Step)
    requires Safe(s, step) && (step.AcquireShared? || step.AcquireExclusive?)
    ensures Referencing(Next(s, step))
  {
  }

  /** A freed KCB has no thread at work on it. */
  lemma {:induction false} StaysAlive(s: State, t: ThreadId)
    requires Inv(s) && t in s.threads && !s.threads[t].Idle?
    ensures s.alive && (s.threads[t].Holder? ==> s.refs >= 1)
  {
    hide Refs, ThreadInv, LockInv;
    if s.alive && s.threads[t].Holder? {
      RefSeen(s, t);
    }
  }
}
