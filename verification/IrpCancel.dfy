/**
  The queue, dequeue and cancel routines as a protocol of any number of threads
  (media/doc/irp cancel boilerplate.c, with IoCancelIrp from ntoskrnl/io/iomgr/irp.c as
  the caller of the cancel routine).  The queue lock orders the list operations; the
  Cancel flag and the cancel routine slot change without it.
*/
module IrpCancel {
  import opened Seqs
  import opened IrpList

  type ThreadId = nat

  datatype Status = Cancelled | Succeeded

  datatype Thread =
    | Idle
    | Marked(irp: Irp)              // queueing: has the lock, the cancel routine is set
    | TakingBack(irp: Irp)          // queueing: saw the Cancel flag
    | Inserting(irp: Irp)           // queueing: will insert and unlock
    | Popped(irp: Irp)              // dequeueing: has the lock, took the head off the list
    | Orphaning(irp: Irp)           // dequeueing: the canceller has the routine
    | Flagged(irp: Irp)             // cancelling: has set the Cancel flag
    | Cancelling(irp: Irp)          // cancelling: in the cancel routine, before the lock
    | Completing(irp: Irp, status: Status)

  /** `queue` is the list that the pointers in `links` stand for. */
  datatype State = State(started: set<Irp>, flagged: set<Irp>, routine: set<Irp>,
                         links: Links, queue: seq<Irp>, lock: set<ThreadId>,
                         threads: map<ThreadId, Thread>, completed: multiset<Irp>, outcome: map<Irp, Status>)

  datatype Step =
    | QueueStart(t: ThreadId, irp: Irp)
    | QueueCheck(t: ThreadId)
    | QueueTakeBack(t: ThreadId)
    | QueueInsert(t: ThreadId)
    | DequeueStart(t: ThreadId)
    | DequeueTake(t: ThreadId)
    | DequeueOrphan(t: ThreadId)
    | CancelStart(t: ThreadId, irp: Irp)
    | CancelTake(t: ThreadId)
    | CancelRemove(t: ThreadId)
    | Complete(t: ThreadId)

  ghost predicate Init(s: State) {
    && s.started == {} && s.flagged == {} && s.routine == {} && s.completed == multiset{} && s.outcome == map[]
    && s.queue == [] && IsList(s.links, [])
    && s.lock == {}
    && forall t :: t in s.threads ==> s.threads[t] == Idle
  }

  ghost predicate Enabled(s: State, step: Step) {
    step.t in s.threads &&
    var x := s.threads[step.t];
    match step
    case QueueStart(t, irp) => x.Idle? && s.lock == {} && irp !in s.started
    case QueueCheck(t) => x.Marked?
    case QueueTakeBack(t) => x.TakingBack?
    case QueueInsert(t) => x.Inserting?
    case DequeueStart(t) => x.Idle? && s.lock == {} && s.links.flink.Keys >= {Head} && s.links.flink[Head] != Head
    case DequeueTake(t) => x.Popped?
    case DequeueOrphan(t) => x.Orphaning?
    case CancelStart(t, irp) => x.Idle?
    case CancelTake(t) => x.Flagged?
    case CancelRemove(t) => x.Cancelling? && s.lock == {}
    case Complete(t) => x.Completing?
  }

  /** The list entries that a step follows pointers of are properly linked. */
  ghost predicate Derefs(s: State, step: Step) {
    Enabled(s, step) &&
    match step
    case QueueInsert(t) => Present(s.links, Head)
    case DequeueStart(t) => s.links.flink[Head].Entry? && Present(s.links, s.links.flink[Head])
    case CancelRemove(t) => Present(s.links, Entry(s.threads[t].irp))
    case _ => true
  }

  ghost function Become(s: State, t: ThreadId, x: Thread): State {
    s.(threads := s.threads[t := x])
  }

  ghost function Apply(s: State, step: Step): State
    requires Derefs(s, step)
  {
    match step
    case QueueStart(t, irp) =>
      Become(s, t, Marked(irp)).(lock := {t}, started := s.started + {irp}, routine := s.routine + {irp})
    case QueueCheck(t) =>
      var irp := s.threads[t].irp;
      Become(s, t, if irp in s.flagged then TakingBack(irp) else Inserting(irp))
    case QueueTakeBack(t) =>
      var irp := s.threads[t].irp;
      if irp in s.routine
      then Become(s, t, Completing(irp, Cancelled)).(routine := s.routine - {irp}, lock := {})
      else Become(s, t, Inserting(irp))
    case QueueInsert(t) =>
      var irp := s.threads[t].irp;
      Become(s, t, Idle).(links := InsertTail(s.links, Entry(irp)), queue := s.queue + [irp], lock := {})
    case DequeueStart(t) =>
      var first := s.links.flink[Head];
      Become(s, t, Popped(first.irp)).(links := RemoveEntry(s.links, first), queue := Without(s.queue, first.irp), lock := {t})
    case DequeueTake(t) =>
      var irp := s.threads[t].irp;
      if irp in s.routine
      then Become(s, t, Completing(irp, Succeeded)).(routine := s.routine - {irp}, lock := {})
      else Become(s, t, Orphaning(irp))
    case DequeueOrphan(t) =>
      var irp := s.threads[t].irp;
      Become(s, t, Idle).(links := Initialize(s.links, Entry(irp)), lock := {})
    case CancelStart(t, irp) =>
      Become(s, t, Flagged(irp)).(flagged := s.flagged + {irp})
    case CancelTake(t) =>
      var irp := s.threads[t].irp;
      if irp in s.routine
      then Become(s, t, Cancelling(irp)).(routine := s.routine - {irp})
      else Become(s, t, Idle)
    case CancelRemove(t) =>
      var irp := s.threads[t].irp;
      Become(s, t, Completing(irp, Cancelled)).(links := RemoveEntry(s.links, Entry(irp)), queue := Without(s.queue, irp))
    case Complete(t) =>
      var irp := s.threads[t].irp;
      Become(s, t, Idle).(completed := s.completed + multiset{irp}, outcome := s.outcome[irp := s.threads[t].status])
  }

  // ----- the invariant -----

  ghost predicate HasLock(x: Thread) {
    x.Marked? || x.TakingBack? || x.Inserting? || x.Popped? || x.Orphaning?
  }

  /** The thread has taken over the right, and the duty, to complete the IRP. */
  ghost predicate Owns(x: Thread, irp: Irp) {
    (x.Cancelling? || x.Completing?) && x.irp == irp
  }

  ghost function Owners(s: State, irp: Irp): set<ThreadId> {
    set t | t in s.threads && Owns(s.threads[t], irp)
  }

  /** The right to complete an IRP exists exactly once, wherever it is. */
  ghost predicate OneRight(s: State, irp: Irp) {
    (if irp in s.started then 0 else 1) + (if irp in s.routine then 1 else 0) + |Owners(s, irp)| + s.completed[irp] == 1
  }

  /** The thread that has the lock is at work on this IRP. */
  ghost predicate InWork(s: State, irp: Irp) {
    exists t :: t in s.lock && t in s.threads && HasLock(s.threads[t]) && s.threads[t].irp == irp
  }

  ghost predicate InCancel(s: State, irp: Irp) {
    exists t :: t in s.threads && s.threads[t] == Cancelling(irp)
  }

  ghost predicate LockInv(s: State) {
    && |s.lock| <= 1
    && (forall t :: t in s.lock <==> t in s.threads && HasLock(s.threads[t]))
  }

  /** The thread that has the lock works on an IRP that is not on the list. */
  ghost predicate WorkOffList(s: State) {
    forall t :: t in s.threads && HasLock(s.threads[t]) ==> s.threads[t].irp !in s.queue && s.threads[t].irp in s.started
  }

  /** Somebody may still cancel, or is cancelling, every IRP on the list. */
  ghost predicate QueuedOpen(s: State) {
    forall irp :: irp in s.queue ==> irp in s.started && (irp in s.routine || InCancel(s, irp))
  }

  /** A cancel routine is set only while the IRP is on the list or being worked on. */
  ghost predicate RoutineListed(s: State) {
    forall irp :: irp in s.routine ==> irp in s.queue || InWork(s, irp)
  }

  /** When the cancel routine gets the lock, the entry is on the list or points to itself. */
  ghost predicate CancelLinked(s: State) {
    forall t :: t in s.threads && s.threads[t].Cancelling? ==>
      var irp := s.threads[t].irp; irp in s.queue || InWork(s, irp) || SelfLinked(s.links, irp)
  }

  /** An IRP in work without its routine is one that a canceller will complete. */
  ghost predicate WorkOpen(s: State) {
    && (forall t :: t in s.threads && HasLock(s.threads[t]) ==>
        s.threads[t].irp in s.routine || InCancel(s, s.threads[t].irp))
    && (forall t :: t in s.threads && s.threads[t].Orphaning? ==> InCancel(s, s.threads[t].irp))
  }

  ghost predicate ListInv(s: State) {
    IsList(s.links, s.queue) && WorkOffList(s) && QueuedOpen(s) && RoutineListed(s) && CancelLinked(s) && WorkOpen(s)
  }

  ghost predicate Inv(s: State) {
    && LockInv(s)
    && ListInv(s)
    && forall irp :: OneRight(s, irp)
  }

  lemma {:induction false} InitInv(s: State)
    requires Init(s)
    ensures Inv(s)
  {
    forall irp ensures OneRight(s, irp) {
      assert Owners(s, irp) == {};
    }
  }

  /** Every pointer that a step follows is properly linked. */
  lemma {:induction false} StepSafe(s: State, step: Step)
    requires Inv(s) && Enabled(s, step)
    ensures Derefs(s, step)
  {
    match step
    case QueueInsert(t) => ListPresent(s.links, s.queue, |s.queue|);
    case DequeueStart(t) => DequeueHead(s, t);
    case CancelRemove(t) =>
      var irp := s.threads[t].irp;
      assert irp in s.queue || SelfLinked(s.links, irp);
      if irp in s.queue {
        var k :| 0 <= k < |s.queue| && s.queue[k] == irp;
        RemoveLinked(s.links, s.queue, k);
      }
    case _ =>
  }

  lemma {:induction false} DequeueHead(s: State, t: ThreadId)
    requires Inv(s) && Enabled(s, DequeueStart(t))
    ensures s.queue != [] && s.links.flink[Head] == Entry(s.queue[0])
    ensures Present(s.links, Entry(s.queue[0]))
  {
    ListPresent(s.links, s.queue, |s.queue|);
    assert s.links.flink[Head] == After(s.queue, 0);
    ListPresent(s.links, s.queue, 0);
  }

  lemma {:induction false} OwnersAfter(s: State, r: State, t: ThreadId, irp: Irp)
    requires t in s.threads && t in r.threads && r.threads == s.threads[t := r.threads[t]]
    ensures Owns(s.threads[t], irp) == Owns(r.threads[t], irp) ==> Owners(r, irp) == Owners(s, irp)
    ensures !Owns(s.threads[t], irp) && Owns(r.threads[t], irp) ==> |Owners(r, irp)| == |Owners(s, irp)| + 1
    ensures Owns(s.threads[t], irp) && !Owns(r.threads[t], irp) ==> |Owners(r, irp)| == |Owners(s, irp)| - 1
  {
    if !Owns(s.threads[t], irp) && Owns(r.threads[t], irp) {
      assert Owners(r, irp) == Owners(s, irp) + {t};
    } else if Owns(s.threads[t], irp) && !Owns(r.threads[t], irp) {
      assert Owners(s, irp) == Owners(r, irp) + {t} && t !in Owners(r, irp);
    } else {
      assert Owners(r, irp) == Owners(s, irp);
    }
  }

  lemma {:induction false} StepRight(s: State, step: Step, irp: Irp)
    requires Derefs(s, step) && OneRight(s, irp)
    ensures OneRight(Apply(s, step), irp)
  {
    var r := Apply(s, step);
    OwnersAfter(s, r, step.t, irp);
  }

  lemma {:induction false} LockHolder(s: State, t: ThreadId, u: ThreadId)
    requires LockInv(s) && t in s.threads && HasLock(s.threads[t]) && u in s.threads && HasLock(s.threads[u])
    ensures t == u
  {
    assert {t, u} <= s.lock;
    SubsetSize({t, u}, s.lock);
  }

  lemma {:induction false} StepLock(s: State, step: Step)
    requires Derefs(s, step) && LockInv(s)
    ensures LockInv(Apply(s, step))
  {
    var r := Apply(s, step);
    forall u ensures u in r.lock <==> u in r.threads && HasLock(r.threads[u]) {
      if u in s.threads && HasLock(s.threads[u]) && HasLock(s.threads[step.t]) {
        LockHolder(s, step.t, u);
      }
    }
  }

  /** What a step does to the pointers it does to the queue that they stand for. */
  lemma {:induction false} StepLinks(s: State, step: Step)
    requires Inv(s) && Derefs(s, step)
    ensures IsList(Apply(s, step).links, Apply(s, step).queue)
  {
    hide IsList, Present, OneRight, InsertTail, RemoveEntry, Initialize, InCancel, InWork, Linked, SelfLinked;
    match step {
      case QueueInsert(t) =>
        InsertLinked(s.links, s.queue, s.threads[t].irp);
      case DequeueStart(t) =>
        DequeueHead(s, t);
        RemoveQueued(s.links, s.queue, s.queue[0]);
      case DequeueOrphan(t) =>
        InitializeOutside(s.links, s.queue, s.threads[t].irp);
      case CancelRemove(t) =>
        var irp := s.threads[t].irp;
        if irp in s.queue {
          RemoveQueued(s.links, s.queue, irp);
        } else {
          LateRemoval(s, t);
        }
      case _ =>
    }
  }

  lemma {:induction false} RemoveQueued(l: Links, q: seq<Irp>, irp: Irp)
    requires IsList(l, q) && irp in q
    ensures Present(l, Entry(irp)) && IsList(RemoveEntry(l, Entry(irp)), Without(q, irp))
  {
    var k :| 0 <= k < |q| && q[k] == irp;
    RemoveLinked(l, q, k);
    WithoutAt(q, k);
  }

  /**
    The late RemoveEntryList: when the dequeuer has already taken the IRP off the list,
    the cancel routine's removal changes no pointer at all.
  */
  lemma {:induction false} LateRemoval(s: State, t: ThreadId)
    requires Inv(s) && Enabled(s, CancelRemove(t)) && s.threads[t].irp !in s.queue
    ensures Derefs(s, CancelRemove(t))
    ensures Apply(s, CancelRemove(t)).links == s.links && Apply(s, CancelRemove(t)).queue == s.queue
  {
    var irp := s.threads[t].irp;
    assert SelfLinked(s.links, irp);
    RemoveSelfLinked(s.links, irp);
    WithoutAbsent(s.queue, irp);
  }

  /** An entry that points to itself goes on doing so while it is off the list. */
  lemma {:induction false} StepSelfLinked(s: State, step: Step, other: Irp)
    requires Inv(s) && Derefs(s, step)
    requires SelfLinked(s.links, other) && other !in s.queue && other !in Apply(s, step).queue
    ensures SelfLinked(Apply(s, step).links, other)
  {
    match step {
      case QueueInsert(t) =>
        SelfLinkedStays(s.links, s.queue, other, s.threads[t].irp);
      case DequeueStart(t) =>
        DequeueHead(s, t);
        SelfLinkedStays(s.links, s.queue, other, s.queue[0]);
      case DequeueOrphan(t) =>
        if s.threads[t].irp != other {
          SelfLinkedStays(s.links, s.queue, other, s.threads[t].irp);
        }
      case CancelRemove(t) =>
        var irp := s.threads[t].irp;
        if irp in s.queue {
          SelfLinkedStays(s.links, s.queue, other, irp);
        } else {
          LateRemoval(s, t);
        }
      case _ =>
    }
  }

  /** A canceller in front of the lock stays there until it gets it. */
  lemma {:induction false} InCancelStays(s: State, step: Step, irp: Irp)
    requires Derefs(s, step) && InCancel(s, irp)
    ensures InCancel(Apply(s, step), irp) || (step.CancelRemove? && s.threads[step.t].irp == irp)
  {
    var t :| t in s.threads && s.threads[t] == Cancelling(irp);
    if t != step.t {
      assert Apply(s, step).threads[t] == Cancelling(irp);
    }
  }

  lemma {:induction false} StepWorkOffList(s: State, step: Step)
    requires Inv(s) && Derefs(s, step)
    ensures WorkOffList(Apply(s, step))
  {
    hide IsList, OneRight, InCancel, InWork, SelfLinked, RemoveEntry, InsertTail, Initialize;
    var r := Apply(s, step);
    if step.DequeueStart? {
      DequeueHead(s, step.t);
    }
    forall t | t in r.threads && HasLock(r.threads[t]) ensures r.threads[t].irp !in r.queue && r.threads[t].irp in r.started {
      if HasLock(s.threads[t]) && HasLock(s.threads[step.t]) {
        LockHolder(s, t, step.t);
      }
    }
  }

  lemma {:induction false} RightsExclude(s: State, irp: Irp, t: ThreadId)
    requires OneRight(s, irp) && t in s.threads && Owns(s.threads[t], irp)
    ensures irp in s.started && irp !in s.routine && s.completed[irp] == 0 && Owners(s, irp) == {t}
  {
    assert t in Owners(s, irp);
    assert Owners(s, irp) == {t} + (Owners(s, irp) - {t});
    assert |Owners(s, irp) - {t}| == 0;
  }

  /** A right that leaves the slot of an IRP goes to the thread that takes it. */
  lemma {:induction false} SlotTaken(s: State, step: Step, irp: Irp)
    requires Derefs(s, step) && irp in s.routine && irp !in Apply(s, step).routine
    ensures s.threads[step.t].Flagged? || HasLock(s.threads[step.t])
    ensures s.threads[step.t].irp == irp
    ensures s.threads[step.t].Flagged? ==> InCancel(Apply(s, step), irp)
    ensures HasLock(s.threads[step.t]) ==> Apply(s, step).threads[step.t].Completing?
  {
    if step.CancelTake? {
      assert Apply(s, step).threads[step.t] == Cancelling(irp);
    }
  }

  lemma {:induction false} StepQueuedOpen(s: State, step: Step)
    requires Inv(s) && Derefs(s, step)
    ensures QueuedOpen(Apply(s, step))
  {
    var r := Apply(s, step);
    forall irp | irp in r.queue ensures irp in r.started && (irp in r.routine || InCancel(r, irp)) {
      if irp in s.routine {
        if irp !in r.routine {
          SlotTaken(s, step, irp);
        }
      } else {
        assert InCancel(s, irp);
        InCancelStays(s, step, irp);
      }
    }
  }

  lemma {:induction false} StepWorkOpen(s: State, step: Step)
    requires Inv(s) && Derefs(s, step)
    ensures WorkOpen(Apply(s, step))
  {
    hide IsList, OneRight, InCancel, InWork, SelfLinked, RemoveEntry, InsertTail, Initialize;
    var r := Apply(s, step);
    forall t | t in r.threads && HasLock(r.threads[t])
      ensures r.threads[t].irp in r.routine || InCancel(r, r.threads[t].irp)
      ensures r.threads[t].Orphaning? ==> InCancel(r, r.threads[t].irp)
    {
      var irp := r.threads[t].irp;
      if step.DequeueStart? {
        DequeueHead(s, step.t);
      }
      if irp in s.routine && irp !in r.routine {
        SlotTaken(s, step, irp);
        if HasLock(s.threads[step.t]) && HasLock(s.threads[t]) {
          LockHolder(s, t, step.t);
        }
      }
      if InCancel(s, irp) {
        InCancelStays(s, step, irp);
      }
    }
  }

  /** Work on an IRP goes on, or ends with the IRP on the list, given up or owned. */
  lemma {:induction false} InWorkStays(s: State, step: Step, irp: Irp)
    requires Inv(s) && Derefs(s, step) && InWork(s, irp)
    ensures var r := Apply(s, step);
      || InWork(r, irp)
      || irp in r.queue
      || (step.DequeueOrphan? && irp !in s.routine && SelfLinked(r.links, irp))
      || (irp in s.routine && irp !in r.routine && r.threads[step.t].Completing?)
  {
    hide IsList, OneRight, InCancel, RemoveEntry, InsertTail;
    var r := Apply(s, step);
    var t :| t in s.lock && t in s.threads && HasLock(s.threads[t]) && s.threads[t].irp == irp;
    if step.t != t {
      assert r.threads[t] == s.threads[t];
      if HasLock(s.threads[step.t]) {
        LockHolder(s, t, step.t);
      }
    } else {
      InWorkOwn(s, step, irp);
    }
  }

  lemma {:induction false} InWorkOwn(s: State, step: Step, irp: Irp)
    requires Inv(s) && Derefs(s, step) && step.t in s.lock && HasLock(s.threads[step.t]) && s.threads[step.t].irp == irp
    ensures var r := Apply(s, step);
      || InWork(r, irp)
      || irp in r.queue
      || (step.DequeueOrphan? && irp !in s.routine && SelfLinked(r.links, irp))
      || (irp in s.routine && irp !in r.routine && r.threads[step.t].Completing?)
  {
    hide IsList, OneRight, InCancel, RemoveEntry, InsertTail;
    if step.DequeueOrphan? {
      InCancelNotSet(s, irp);
    } else if HasLock(Apply(s, step).threads[step.t]) {
      assert step.t in Apply(s, step).lock;
    }
  }

  lemma {:induction false} InCancelNotSet(s: State, irp: Irp)
    requires InCancel(s, irp) && OneRight(s, irp)
    ensures irp !in s.routine && irp in s.started && s.completed[irp] == 0
  {
    var t :| t in s.threads && s.threads[t] == Cancelling(irp);
    RightsExclude(s, irp, t);
  }

  lemma {:induction false} StepRoutineListed(s: State, step: Step)
    requires Inv(s) && Derefs(s, step)
    ensures RoutineListed(Apply(s, step))
  {
    var r := Apply(s, step);
    forall irp | irp in r.routine ensures irp in r.queue || InWork(r, irp) {
      if irp !in s.routine {
        assert step.t in r.lock && r.threads[step.t].irp == irp;
      } else if InWork(s, irp) {
        InWorkStays(s, step, irp);
      } else if irp !in r.queue {
        if step.DequeueStart? {
          DequeueHead(s, step.t);
          assert step.t in r.lock && r.threads[step.t].irp == irp;
        } else {
          RightsExclude(s, irp, step.t);
        }
      }
    }
  }

  lemma {:induction false} StepCancelLinked(s: State, step: Step)
    requires Inv(s) && Derefs(s, step)
    ensures CancelLinked(Apply(s, step))
  {
    var r := Apply(s, step);
    forall t | t in r.threads && r.threads[t].Cancelling?
      ensures var irp := r.threads[t].irp; irp in r.queue || InWork(r, irp) || SelfLinked(r.links, irp)
    {
      if t == step.t {
        TakenLinked(s, step);
      } else {
        WaitingLinked(s, step, t);
      }
    }
  }

  lemma {:induction false} TakenLinked(s: State, step: Step)
    requires Inv(s) && Derefs(s, step) && Apply(s, step).threads[step.t].Cancelling?
    ensures var r := Apply(s, step);
      var irp := r.threads[step.t].irp; irp in r.queue || InWork(r, irp)
  {
    var irp := s.threads[step.t].irp;
    if InWork(s, irp) {
      InWorkStays(s, step, irp);
    }
  }

  lemma {:induction false} WaitingLinked(s: State, step: Step, t: ThreadId)
    requires Inv(s) && Derefs(s, step) && t in s.threads && t != step.t && s.threads[t].Cancelling?
    ensures var r := Apply(s, step);
      var irp := s.threads[t].irp; irp in r.queue || InWork(r, irp) || SelfLinked(r.links, irp)
  {
    var r := Apply(s, step);
    var irp := s.threads[t].irp;
    RightsExclude(s, irp, t);
    if InWork(s, irp) {
      InWorkStays(s, step, irp);
    } else if irp in s.queue {
      if step.DequeueStart? {
        DequeueHead(s, step.t);
        assert irp in r.queue || (step.t in r.lock && r.threads[step.t].irp == irp);
      } else {
        assert step.t !in Owners(s, irp);
      }
    } else if irp !in r.queue {
      StepSelfLinked(s, step, irp);
    }
  }

  lemma {:induction false} StepInv(s: State, step: Step)
    requires Inv(s) && Enabled(s, step)
    ensures Derefs(s, step) && Inv(Apply(s, step))
  {
    StepSafe(s, step);
    StepLock(s, step);
    StepLinks(s, step);
    StepWorkOffList(s, step);
    StepQueuedOpen(s, step);
    StepRoutineListed(s, step);
    StepCancelLinked(s, step);
    StepWorkOpen(s, step);
    forall irp ensures OneRight(Apply(s, step), irp) {
      StepRight(s, step, irp);
    }
  }

  // ----- every run -----

  ghost predicate IsRun(states: seq<State>, steps: seq<Step>) {
    && |states| == |steps| + 1
    && Init(states[0])
    && forall i :: 0 <= i < |steps| ==> Goes(states[i], steps[i], states[i + 1])
  }

  /** A step that follows a broken pointer may lead anywhere. */
  ghost predicate Goes(s: State, step: Step, r: State) {
    Enabled(s, step) && (Derefs(s, step) ==> r == Apply(s, step))
  }

  lemma {:induction false} RunInv(states: seq<State>, steps: seq<Step>, k: nat)
    requires IsRun(states, steps) && k < |states|
    ensures Inv(states[k])
    ensures k < |steps| ==> Derefs(states[k], steps[k]) && states[k + 1] == Apply(states[k], steps[k])
  {
    hide Inv, Derefs, Enabled, Apply, Init;
    if k == 0 {
      InitInv(states[0]);
    } else {
      RunInv(states, steps, k - 1);
      var i := k - 1;
      assert Goes(states[i], steps[i], states[i + 1]);
      StepInv(states[i], steps[i]);
    }
    if k < |steps| {
      assert Goes(states[k], steps[k], states[k + 1]);
      StepSafe(states[k], steps[k]);
    }
  }

  /**
    In every interleaving no IRP is completed twice; one that has been started is either
    still open to cancellation, or in the hands of exactly one thread, or completed once.
  */
  lemma {:induction false} CompletedOnce(states: seq<State>, steps: seq<Step>, k: nat, irp: Irp)
    requires IsRun(states, steps) && k < |states|
    ensures states[k].completed[irp] <= 1
    ensures irp in states[k].started && irp !in states[k].routine ==>
      |Owners(states[k], irp)| + states[k].completed[irp] == 1
    ensures irp in states[k].queue ==> states[k].completed[irp] == 0
  {
    RunInv(states, steps, k);
    assert OneRight(states[k], irp);
    if irp in states[k].queue && irp !in states[k].routine {
      InCancelNotSet(states[k], irp);
    }
  }

  /** When all threads are at rest: queued and not completed, or off the list and completed once. */
  lemma {:induction false} AtRest(states: seq<State>, steps: seq<Step>, k: nat, irp: Irp)
    requires IsRun(states, steps) && k < |states| && irp in states[k].started
    requires forall t :: t in states[k].threads ==> states[k].threads[t].Idle?
    ensures if irp in states[k].queue then states[k].completed[irp] == 0 && irp in states[k].routine
            else states[k].completed[irp] == 1
  {
    var s := states[k];
    RunInv(states, steps, k);
    assert OneRight(s, irp) && Owners(s, irp) == {};
    assert !InWork(s, irp) && !InCancel(s, irp);
  }

  /** In every run the cancel routine's removal takes its own IRP off the list, or nothing. */
  lemma {:induction false} CancelRemovesOwnIrp(states: seq<State>, steps: seq<Step>, k: nat, t: ThreadId)
    requires IsRun(states, steps) && k < |steps| && steps[k] == CancelRemove(t)
    ensures t in states[k].threads && states[k].threads[t].Cancelling?
    ensures states[k + 1].queue == Without(states[k].queue, states[k].threads[t].irp)
    ensures IsList(states[k + 1].links, states[k + 1].queue)
    ensures states[k].threads[t].irp !in states[k].queue ==> states[k + 1].links == states[k].links
  {
    RunInv(states, steps, k);
    RunInv(states, steps, k + 1);
    assert Goes(states[k], steps[k], states[k + 1]);
    StepSafe(states[k], steps[k]);
    if states[k].threads[t].irp !in states[k].queue {
      LateRemoval(states[k], t);
    }
  }

  // ----- a cancelled IRP does not stay in the queue -----

  /** Somebody will still see that the IRP has been cancelled. */
  ghost predicate WillSee(x: Thread, irp: Irp) {
    x == Flagged(irp) || x == Marked(irp) || x == TakingBack(irp)
  }

  /** An IRP that is flagged and still has its cancel routine has somebody who will take the routine. */
  ghost predicate FlagSeen(s: State, irp: Irp) {
    irp in s.routine && irp in s.flagged ==> exists t :: t in s.threads && WillSee(s.threads[t], irp)
  }

  lemma {:induction false} StepFlagSeen(s: State, step: Step, irp: Irp)
    requires Inv(s) && Derefs(s, step) && FlagSeen(s, irp)
    ensures FlagSeen(Apply(s, step), irp)
  {
    hide Inv, IsList, InsertTail, RemoveEntry, Initialize, Present;
    var r := Apply(s, step);
    if irp in r.routine && irp in r.flagged {
      if irp in s.routine && irp in s.flagged {
        var t :| t in s.threads && WillSee(s.threads[t], irp);
        assert WillSee(r.threads[t], irp) || t == step.t;
        if t == step.t {
          assert WillSee(r.threads[t], irp);
        }
      } else {
        assert WillSee(r.threads[step.t], irp);
      }
    }
  }

  lemma {:induction false} RunFlagSeen(states: seq<State>, steps: seq<Step>, k: nat, irp: Irp)
    requires IsRun(states, steps) && k < |states|
    ensures FlagSeen(states[k], irp)
  {
    hide Inv, Derefs, Apply;
    if k > 0 {
      RunFlagSeen(states, steps, k - 1, irp);
      RunInv(states, steps, k - 1);
      StepFlagSeen(states[k - 1], steps[k - 1], irp);
    }
  }

  lemma {:induction false} FlagStays(states: seq<State>, steps: seq<Step>, i: nat, k: nat, t: ThreadId, irp: Irp)
    requires IsRun(states, steps) && i < k < |states| && steps[i] == CancelStart(t, irp)
    ensures irp in states[k].flagged
  {
    hide Inv, IsList, InsertTail, RemoveEntry, Initialize;
    RunInv(states, steps, k - 1);
    if i < k - 1 {
      FlagStays(states, steps, i, k - 1, t, irp);
    }
  }

  /**
    In every run, an IRP for which IoCancelIrp was called, before it was queued or at any time
    after, is not in the queue when all threads are at rest; if it was started it is completed.
  */
  lemma {:induction false} CancelledLeaves(states: seq<State>, steps: seq<Step>, i: nat, k: nat, t: ThreadId, irp: Irp)
    requires IsRun(states, steps) && i < k < |states| && steps[i] == CancelStart(t, irp)
    requires forall u :: u in states[k].threads ==> states[k].threads[u].Idle?
    ensures irp !in states[k].queue && (irp in states[k].started ==> states[k].completed[irp] == 1)
  {
    hide Inv, Derefs, Apply;
    FlagStays(states, steps, i, k, t, irp);
    RunFlagSeen(states, steps, k, irp);
    RunInv(states, steps, k);
    if irp in states[k].queue {
      QueuedStarted(states[k], irp);
      AtRest(states, steps, k, irp);
    } else if irp in states[k].started {
      AtRest(states, steps, k, irp);
    }
  }

  lemma {:induction false} QueuedStarted(s: State, irp: Irp)
    requires Inv(s) && irp in s.queue
    ensures irp in s.started
  {
  }

  // ----- with which status an IRP is completed -----

  /** The thread treats as cancelled only what somebody has asked to cancel. */
  ghost predicate AskedBy(s: State, x: Thread) {
    x.Cancelling? || x.TakingBack? || x.Flagged? || (x.Completing? && x.status == Cancelled) ==> x.irp in s.flagged
  }

  ghost predicate AskedOutcome(s: State, irp: Irp) {
    && (irp in s.outcome && s.outcome[irp] == Cancelled ==> irp in s.flagged)
    && (irp in s.outcome <==> s.completed[irp] > 0)
  }

  /** Only IRPs that somebody has asked to cancel are completed, or about to be, as cancelled. */
  ghost predicate AskedFor(s: State) {
    && (forall t :: t in s.threads ==> AskedBy(s, s.threads[t]))
    && (forall irp :: AskedOutcome(s, irp))
  }

  lemma {:induction false} StepAskedBy(s: State, step: Step, t: ThreadId)
    requires Derefs(s, step) && t in s.threads && AskedBy(s, s.threads[t])
    ensures t in Apply(s, step).threads && AskedBy(Apply(s, step), Apply(s, step).threads[t])
  {
    hide InsertTail, RemoveEntry, Initialize, Present, Without;
  }

  lemma {:induction false} StepAskedOutcome(s: State, step: Step, irp: Irp)
    requires Derefs(s, step) && AskedBy(s, s.threads[step.t]) && AskedOutcome(s, irp)
    ensures AskedOutcome(Apply(s, step), irp)
  {
    hide InsertTail, RemoveEntry, Initialize, Present, Without;
  }

  lemma {:induction false} StepAskedFor(s: State, step: Step)
    requires Derefs(s, step) && AskedFor(s)
    ensures AskedFor(Apply(s, step))
  {
    hide Apply, AskedBy, AskedOutcome;
    SameThreads(s, step);
    forall t | t in s.threads ensures AskedBy(Apply(s, step), Apply(s, step).threads[t]) {
      StepAskedBy(s, step, t);
    }
    forall irp ensures AskedOutcome(Apply(s, step), irp) {
      StepAskedOutcome(s, step, irp);
    }
  }

  lemma {:induction false} SameThreads(s: State, step: Step)
    requires Derefs(s, step)
    ensures step.t in s.threads && Apply(s, step).threads.Keys == s.threads.Keys
  {
    hide InsertTail, RemoveEntry, Initialize, Present, Without;
  }

  lemma {:induction false} RunAskedFor(states: seq<State>, steps: seq<Step>, k: nat)
    requires IsRun(states, steps) && k < |states|
    ensures AskedFor(states[k])
  {
    hide Inv, Derefs, Apply;
    if k > 0 {
      RunAskedFor(states, steps, k - 1);
      RunInv(states, steps, k - 1);
      StepAskedFor(states[k - 1], steps[k - 1]);
    }
  }

  /** A dequeue takes this IRP, in step `i`. */
  ghost predicate Dequeues(states: seq<State>, steps: seq<Step>, i: nat, irp: Irp)
    requires |states| == |steps| + 1
  {
    i < |steps| && steps[i].DequeueStart? && states[i].queue != [] && states[i].queue[0] == irp
  }

  ghost predicate WasDequeued(states: seq<State>, steps: seq<Step>, k: nat, irp: Irp)
    requires |states| == |steps| + 1
  {
    exists i: nat :: i < k && Dequeues(states, steps, i, irp)
  }

  /** The IRP has been taken off the head of the queue by a dequeuer, or completed by one. */
  ghost predicate ByDequeuer(s: State, irp: Irp) {
    || (exists t :: t in s.threads && (s.threads[t] == Popped(irp) || s.threads[t] == Completing(irp, Succeeded)))
    || (irp in s.outcome && s.outcome[irp] == Succeeded)
  }

  lemma {:induction false} StepByDequeuer(s: State, step: Step, irp: Irp)
    requires Inv(s) && Derefs(s, step) && ByDequeuer(Apply(s, step), irp)
    ensures ByDequeuer(s, irp) || (step.DequeueStart? && s.queue != [] && s.queue[0] == irp)
  {
    hide Inv, IsList, InsertTail, RemoveEntry, Initialize, Present;
    var r := Apply(s, step);
    if step.DequeueStart? {
      DequeueHead(s, step.t);
    }
    if t :| t in r.threads && (r.threads[t] == Popped(irp) || r.threads[t] == Completing(irp, Succeeded)) {
      if t == step.t {
        assert step.DequeueStart? || s.threads[t] == Popped(irp);
      } else {
        assert s.threads[t] == r.threads[t];
      }
    } else if irp !in s.outcome || s.outcome[irp] != Succeeded {
      assert s.threads[step.t] == Completing(irp, Succeeded);
    }
  }

  lemma {:induction false} RunByDequeuer(states: seq<State>, steps: seq<Step>, k: nat, irp: Irp)
    requires IsRun(states, steps) && k < |states| && ByDequeuer(states[k], irp)
    ensures WasDequeued(states, steps, k, irp)
  {
    hide Inv, Derefs, Apply, ByDequeuer;
    if k == 0 {
      NobodyYet(states[0], irp);
    } else {
      var i := k - 1;
      RunInv(states, steps, i);
      StepByDequeuer(states[i], steps[i], irp);
      if ByDequeuer(states[i], irp) {
        RunByDequeuer(states, steps, i, irp);
        var j: nat :| j < i && Dequeues(states, steps, j, irp);
      } else {
        assert Dequeues(states, steps, i, irp);
      }
    }
  }

  lemma {:induction false} NobodyYet(s: State, irp: Irp)
    requires Init(s)
    ensures !ByDequeuer(s, irp)
  {
  }

  /**
    In every run an IRP is completed as cancelled only if its cancellation was asked for, and with
    success only if a dequeuer took it off the head of the queue.
  */
  lemma {:induction false} RightStatus(states: seq<State>, steps: seq<Step>, k: nat, irp: Irp)
    requires IsRun(states, steps) && k < |states|
    ensures irp in states[k].outcome <==> states[k].completed[irp] == 1
    ensures irp in states[k].outcome && states[k].outcome[irp] == Cancelled ==> irp in states[k].flagged
    ensures irp in states[k].outcome && states[k].outcome[irp] == Succeeded ==> WasDequeued(states, steps, k, irp)
  {
    hide Inv, Derefs, Apply, WasDequeued;
    RunAskedFor(states, steps, k);
    CompletedOnce(states, steps, k, irp);
    assert AskedOutcome(states[k], irp);
    if irp in states[k].outcome && states[k].outcome[irp] == Succeeded {
      RunByDequeuer(states, steps, k, irp);
    }
  }

  // ----- first in, first out -----

  /** The IRP is put into the queue in step `i`. */
  ghost predicate Enqueues(states: seq<State>, steps: seq<Step>, i: nat, irp: Irp)
    requires |states| == |steps| + 1
  {
    i < |steps| && steps[i].QueueInsert? && steps[i].t in states[i].threads && states[i].threads[steps[i].t] == Inserting(irp)
  }

  lemma {:induction false} StepQueue(s: State, step: Step)
    requires Derefs(s, step)
    ensures var q := Apply(s, step).queue;
      || q == s.queue
      || (step.QueueInsert? && s.threads[step.t].Inserting? && q == s.queue + [s.threads[step.t].irp])
      || (exists irp :: q == Without(s.queue, irp))
  {
    hide IsList, InsertTail, RemoveEntry, Initialize, Without;
    if step.DequeueStart? {
      assert Apply(s, step).queue == Without(s.queue, s.links.flink[Head].irp);
    } else if step.CancelRemove? {
      assert Apply(s, step).queue == Without(s.queue, s.threads[step.t].irp);
    }
  }

  lemma {:induction false} OrderStays(s: State, step: Step, a: Irp, b: Irp)
    requires Derefs(s, step) && Precedes(s.queue, a, b) && a in Apply(s, step).queue && b in Apply(s, step).queue
    ensures Precedes(Apply(s, step).queue, a, b)
  {
    hide Apply, Precedes;
    StepQueue(s, step);
    var q := Apply(s, step).queue;
    if q != s.queue {
      if irp :| q == Without(s.queue, irp) {
        PrecedesWithout(s.queue, irp, a, b);
      } else {
        PrecedesAppend(s.queue, s.threads[step.t].irp, a, b);
      }
    }
  }

  /** Nothing comes back into the queue: what is there now and was put there earlier was there all the time. */
  lemma {:induction false} StaysQueued(states: seq<State>, steps: seq<Step>, i: nat, k: nat, irp: Irp)
    requires IsRun(states, steps) && i < k < |states| && Enqueues(states, steps, i, irp) && irp in states[k].queue
    ensures forall j :: i < j <= k ==> irp in states[j].queue
  {
    hide Inv, Derefs, Apply;
    if i + 1 < k {
      BackInQueue(states, steps, i, k, irp);
      StaysQueued(states, steps, i, k - 1, irp);
    }
  }

  lemma {:induction false} BackInQueue(states: seq<State>, steps: seq<Step>, i: nat, k: nat, irp: Irp)
    requires IsRun(states, steps) && i + 1 < k < |states| && Enqueues(states, steps, i, irp) && irp in states[k].queue
    ensures irp in states[k - 1].queue
  {
    hide Inv, Derefs, Apply, OneRight;
    NotQueuedAgain(states, steps, i, k - 1, irp);
    RunInv(states, steps, k - 1);
    StepQueue(states[k - 1], steps[k - 1]);
  }

  /** Once an IRP has been inserted, no thread is about to insert it again. */
  lemma {:induction false} NotQueuedAgain(states: seq<State>, steps: seq<Step>, i: nat, k: nat, irp: Irp)
    requires IsRun(states, steps) && i < k < |states| && Enqueues(states, steps, i, irp)
    ensures irp in states[k].started
    ensures forall t :: t in states[k].threads ==> !Queueing(states[k].threads[t], irp)
  {
    hide Inv, Derefs, Apply;
    if i + 1 < k {
      NotQueuedAgain(states, steps, i, k - 1, irp);
      RunInv(states, steps, k - 1);
      StepQueueing(states[k - 1], steps[k - 1], irp);
    } else {
      RunInv(states, steps, i);
      AloneQueueing(states[i], steps[i], irp);
    }
  }

  ghost predicate Queueing(x: Thread, irp: Irp) {
    (x.Marked? || x.TakingBack? || x.Inserting?) && x.irp == irp
  }

  lemma {:induction false} StepQueueing(s: State, step: Step, irp: Irp)
    requires Derefs(s, step) && irp in s.started && forall t :: t in s.threads ==> !Queueing(s.threads[t], irp)
    ensures irp in Apply(s, step).started && forall t :: t in Apply(s, step).threads ==> !Queueing(Apply(s, step).threads[t], irp)
  {
    hide IsList, InsertTail, RemoveEntry, Initialize, Present;
  }

  lemma {:induction false} AloneQueueing(s: State, step: Step, irp: Irp)
    requires Inv(s) && Derefs(s, step) && step.QueueInsert? && s.threads[step.t] == Inserting(irp)
    ensures irp in Apply(s, step).started && forall t :: t in Apply(s, step).threads ==> !Queueing(Apply(s, step).threads[t], irp)
  {
    hide IsList, InsertTail, RemoveEntry, Initialize, Present, OneRight, QueuedOpen, RoutineListed, CancelLinked, WorkOpen;
    forall t | t in s.threads && HasLock(s.threads[t]) ensures t == step.t {
      LockHolder(s, t, step.t);
    }
  }

  /** In every run the queue is in the order in which the IRPs were put into it. */
  lemma {:induction false} QueueInOrder(states: seq<State>, steps: seq<Step>, i: nat, j: nat, k: nat, a: Irp, b: Irp)
    requires IsRun(states, steps) && i < j < k < |states|
    requires Enqueues(states, steps, i, a) && Enqueues(states, steps, j, b) && a in states[k].queue && b in states[k].queue
    ensures Precedes(states[k].queue, a, b)
  {
    hide Inv, Derefs, Apply, Precedes;
    StaysQueued(states, steps, i, k, a);
    if j + 1 < k {
      StaysQueued(states, steps, j, k, b);
      QueueInOrder(states, steps, i, j, k - 1, a, b);
      RunInv(states, steps, k - 1);
      OrderStays(states[k - 1], steps[k - 1], a, b);
    } else {
      RunInv(states, steps, j);
      InsertsLast(states[j], steps[j], b);
      PrecedesLast(states[j].queue, b, a);
    }
  }

  lemma {:induction false} InsertsLast(s: State, step: Step, irp: Irp)
    requires Derefs(s, step) && step.QueueInsert? && s.threads[step.t] == Inserting(irp)
    ensures Apply(s, step).queue == s.queue + [irp]
  {
  }

  /** So a dequeue takes the IRP that was queued first of those that are there. */
  lemma {:induction false} FirstOut(states: seq<State>, steps: seq<Step>, i: nat, j: nat, k: nat, a: Irp, b: Irp)
    requires IsRun(states, steps) && i < k && j < k && Dequeues(states, steps, k, a) && b in states[k].queue && b != a
    requires Enqueues(states, steps, i, a) && Enqueues(states, steps, j, b)
    ensures i < j
    ensures steps[k].t in states[k + 1].threads && states[k + 1].threads[steps[k].t] == Popped(a)
  {
    hide Derefs, Apply, Precedes, Inv, IsList;
    RunInv(states, steps, k);
    InvList(states[k]);
    assert a in states[k].queue;
    OnceQueued(states, steps, i, j, k, a, b);
    if j < i {
      QueueInOrder(states, steps, j, i, k, b, a);
      NotBeforeHead(states[k].links, states[k].queue, b);
    }
    HeadPopped(states[k], steps[k]);
  }

  lemma {:induction false} InvList(s: State)
    requires Inv(s)
    ensures IsList(s.links, s.queue)
  {
    hide IsList;
  }

  lemma {:induction false} OnceQueued(states: seq<State>, steps: seq<Step>, i: nat, j: nat, k: nat, a: Irp, b: Irp)
    requires |states| == |steps| + 1 && a != b && Enqueues(states, steps, i, a) && Enqueues(states, steps, j, b)
    ensures i != j
  {
  }

  lemma {:induction false} HeadPopped(s: State, step: Step)
    requires Inv(s) && Derefs(s, step) && step.DequeueStart?
    ensures s.queue != [] && step.t in Apply(s, step).threads && Apply(s, step).threads[step.t] == Popped(s.queue[0])
  {
    hide RemoveEntry;
    DequeueHead(s, step.t);
  }

  lemma {:induction false} NotBeforeHead(l: Links, q: seq<Irp>, b: Irp)
    requires IsList(l, q) && q != []
    ensures !Precedes(q, b, q[0])
  {
  }

  // ----- every operation goes on to its end -----

  /** How many steps a thread still has before it is at rest, at most. */
  ghost function StepsLeft(x: Thread): nat {
    match x
    case Idle => 0
    case Marked(_) => 4
    case TakingBack(_) => 3
    case Inserting(_) => 2
    case Popped(_) => 3
    case Orphaning(_) => 2
    case Flagged(_) => 4
    case Cancelling(_) => 3
    case Completing(_, _) => 1
  }

  /** A step that begins an operation makes its thread busy; every other step brings it closer to rest. */
  lemma {:induction false} StepGoesOn(s: State, step: Step)
    requires Derefs(s, step)
    ensures var x, y := s.threads[step.t], Apply(s, step).threads[step.t];
      if step.QueueStart? || step.DequeueStart? || step.CancelStart? then x.Idle? && !y.Idle? else StepsLeft(y) < StepsLeft(x)
    ensures forall u :: u in s.threads && u != step.t ==> u in Apply(s, step).threads && Apply(s, step).threads[u] == s.threads[u]
  {
    hide InsertTail, RemoveEntry, Initialize, Present, Without;
  }

  lemma {:induction false} StartedStays(states: seq<State>, steps: seq<Step>, i: nat, k: nat, t: ThreadId, irp: Irp)
    requires IsRun(states, steps) && i < k < |states| && steps[i] == QueueStart(t, irp)
    ensures irp in states[k].started
  {
    hide Inv, IsList, InsertTail, RemoveEntry, Initialize;
    RunInv(states, steps, k - 1);
    if i < k - 1 {
      StartedStays(states, steps, i, k - 1, t, irp);
    }
  }

  /**
    In every run, an IRP that was given to the queue routine is, when all threads are at rest, either
    in the queue, uncancelled and uncompleted, or completed once and off the list.
  */
  lemma {:induction false} QueuedOrCompleted(states: seq<State>, steps: seq<Step>, i: nat, k: nat, t: ThreadId, irp: Irp)
    requires IsRun(states, steps) && i < k < |states| && steps[i] == QueueStart(t, irp)
    requires forall u :: u in states[k].threads ==> states[k].threads[u].Idle?
    ensures if irp in states[k].queue then states[k].completed[irp] == 0 && irp !in states[k].flagged
            else states[k].completed[irp] == 1
  {
    hide Inv, Derefs, Apply;
    StartedStays(states, steps, i, k, t, irp);
    AtRest(states, steps, k, irp);
    RunFlagSeen(states, steps, k, irp);
  }
}
