/**
  Registry callbacks (ntoskrnl/config/cmhook.c): threads walk the callback list and run
  callbacks with the list's mutex dropped, while others register and unregister them.  The
  rundown reference (ntoskrnl/ex/rundown.c) is modelled down to its compare-and-exchange
  loops and the wait block on the waiter's stack.  A step is a critical section under the
  mutex or one access to shared memory, by any of any number of threads.
*/
module CallbackRundown {
  import opened Common
  import opened Seqs

  type Addr = nat
  type ThreadId = nat

  /** EX_RUNDOWN_REF: a count, or the active bit with a pointer to a wait block, or the bare bit. */
  datatype Word = Counted(n: int) | WaitedBy(owner: ThreadId) | Active

  /** One registration; `inst` tells apart registrations that get the same address. */
  datatype Entry = Entry(inst: nat, pending: bool, word: Word)

  datatype Block = Block(count: int, signalled: bool)

  datatype Thread =
    | Idle
    | Registering(a: Addr)
    // in CmiCallRegisteredCallbacks
    | At(a: Addr)
    | Acquiring(a: Addr, value: Word)
    | Running(a: Addr, inst: nat)
    | Returned(a: Addr, inst: nat, ok: bool)
    | Releasing(a: Addr, inst: nat, value: Word, ok: bool)
    | Signalling(a: Addr, owner: ThreadId, ok: bool)
    | Stepping(a: Addr, ok: bool)
    // in CmUnRegisterCallback
    | Marked(a: Addr, inst: nat)
    | WaitLoop(a: Addr, inst: nat, value: Word)
    | Waiting(a: Addr, inst: nat)
    | Unlinking(a: Addr, inst: nat)
    | Freeing(a: Addr, inst: nat)

  datatype State = State(mutex: Option<ThreadId>, list: seq<Addr>, entries: map<Addr, Entry>,
                         blocks: map<ThreadId, Block>, threads: map<ThreadId, Thread>,
                         made: nat, gone: seq<nat>)

  datatype Step =
    | Allocate(t: ThreadId, a: Addr)
    | Link(t: ThreadId)
    | Start(t: ThreadId)
    | Look(t: ThreadId)
    | AcquireCas(t: ThreadId)
    | FunctionReturns(t: ThreadId, ok: bool)
    | Relock(t: ThreadId)
    | ReleaseCas(t: ThreadId)
    | Signal(t: ThreadId)
    | Advance(t: ThreadId)
    | Unregister(t: ThreadId, cookie: Addr)
    | WaitStart(t: ThreadId)
    | WaitCas(t: ThreadId)
    | Wake(t: ThreadId)
    | Unlink(t: ThreadId)
    | Free(t: ThreadId)

  ghost predicate Init(s: State) {
    && s.mutex == None && s.list == [] && s.entries == map[] && s.made == 0 && s.gone == []
    && forall t :: t in s.threads ==> s.threads[t] == Idle
  }

  /** States in which the thread owns CmiCallbackLock. */
  ghost predicate Locked(x: Thread) {
    x.At? || x.Acquiring? || x.Releasing? || x.Signalling? || x.Stepping?
  }

  /** The thread's walk stands at the entry and will follow its link. */
  ghost predicate Walks(x: Thread, a: Addr) {
    (Locked(x) || x.Running? || x.Returned?) && x.a == a
  }

  /** The thread has rundown protection on the entry. */
  ghost predicate Protects(x: Thread, a: Addr) {
    (x.Running? || x.Returned? || x.Releasing?) && x.a == a
  }

  /** The thread has set PendingDelete of the entry. */
  ghost predicate Removes(x: Thread, a: Addr) {
    (x.Marked? || x.WaitLoop? || x.Waiting? || x.Unlinking? || x.Freeing?) && x.a == a
  }

  /** The entry is off the list and only the thread knows it. */
  ghost predicate Owns(x: Thread, a: Addr) {
    (x.Registering? || x.Freeing?) && x.a == a
  }

  ghost predicate Enabled(s: State, step: Step) {
    step.t in s.threads &&
    var x := s.threads[step.t];
    match step
    case Allocate(t, a) => x.Idle? && a !in s.entries
    case Link(t) => x.Registering? && s.mutex == None
    case Start(t) => x.Idle? && s.mutex == None
    case Look(t) => x.At?
    case AcquireCas(t) => x.Acquiring?
    case FunctionReturns(t, ok) => x.Running?
    case Relock(t) => x.Returned? && s.mutex == None
    case ReleaseCas(t) => x.Releasing?
    case Signal(t) => x.Signalling?
    case Advance(t) => x.Stepping?
    case Unregister(t, cookie) => x.Idle? && s.mutex == None
    case WaitStart(t) => x.Marked?
    case WaitCas(t) => x.WaitLoop?
    case Wake(t) => x.Waiting? && t in s.blocks && s.blocks[t].signalled
    case Unlink(t) => x.Unlinking? && s.mutex == None
    case Free(t) => x.Freeing?
  }

  ghost predicate AllThere(s: State) {
    forall a :: a in s.list ==> a in s.entries
  }

  /** The memory that a step touches is there: no freed entry, no wait block of a thread that went on. */
  ghost predicate Safe(s: State, step: Step) {
    Enabled(s, step) &&
    var x := s.threads[step.t];
    match step
    case Allocate(t, a) => true
    case Start(t) => AllThere(s)
    case Unregister(t, cookie) => AllThere(s)
    case FunctionReturns(t, ok) => x.a in s.entries
    case Wake(t) => true
    case Link(t) => x.a in s.entries && AllThere(s)
    case Unlink(t) => x.a in s.entries && x.a in s.list && AllThere(s)
    case Advance(t) => x.a in s.entries && x.a in s.list && AllThere(s)
    case Signal(t) => x.owner in s.threads && s.threads[x.owner].Waiting? && x.owner in s.blocks
    case ReleaseCas(t) =>
      && x.a in s.entries
      && (x.value.WaitedBy? ==> x.value.owner in s.threads && s.threads[x.value.owner].Waiting? && x.value.owner in s.blocks)
      && !x.value.Active?
    case WaitCas(t) => x.a in s.entries && x.value.Counted?
    case _ => x.a in s.entries
  }

  /** The entry that follows in the list. */
  function After(list: seq<Addr>, a: Addr): (r: Option<Addr>)
    ensures r.Some? ==> r.value in list
  {
    if |list| < 2 then None
    else if list[0] == a then Some(list[1])
    else After(list[1..], a)
  }

  /** A walk goes on at `next`, or ends. */
  function Arrive(next: Option<Addr>): Thread {
    if next.Some? then At(next.value) else Idle
  }

  ghost predicate IsActive(w: Word) {
    !w.Counted?
  }

  /** What the thread goes on to do. */
  ghost function Next(s: State, step: Step): Thread
    requires Safe(s, step)
  {
    var x := s.threads[step.t];
    match step
    case Allocate(t, a) => Registering(a)
    case Link(t) => Idle
    case Start(t) => Arrive(if s.list == [] then None else Some(s.list[0]))
    case Look(t) => if s.entries[x.a].pending then Stepping(x.a, true) else Acquiring(x.a, s.entries[x.a].word)
    case AcquireCas(t) =>
      if IsActive(x.value) then Stepping(x.a, true)
      else if s.entries[x.a].word == x.value then Running(x.a, s.entries[x.a].inst)
      else Acquiring(x.a, s.entries[x.a].word)
    case FunctionReturns(t, ok) => Returned(x.a, x.inst, ok)
    case Relock(t) => Releasing(x.a, x.inst, s.entries[x.a].word, x.ok)
    case ReleaseCas(t) =>
      if x.value.Counted? then
        if s.entries[x.a].word == x.value then Stepping(x.a, x.ok)
        else Releasing(x.a, x.inst, s.entries[x.a].word, x.ok)
      else if s.blocks[x.value.owner].count == 1 then Signalling(x.a, x.value.owner, x.ok)
      else Stepping(x.a, x.ok)
    case Signal(t) => Stepping(x.a, x.ok)
    case Advance(t) => if x.ok then Arrive(After(s.list, x.a)) else Idle
    case Unregister(t, cookie) =>
      if cookie in s.list && !s.entries[cookie].pending then Marked(cookie, s.entries[cookie].inst) else Idle
    case WaitStart(t) =>
      var w := s.entries[x.a].word;
      if w == Counted(0) || w == Active then Unlinking(x.a, x.inst) else WaitLoop(x.a, x.inst, w)
    case WaitCas(t) =>
      if s.entries[x.a].word != x.value then WaitLoop(x.a, x.inst, s.entries[x.a].word)
      else if x.value.n == 0 then Unlinking(x.a, x.inst)
      else Waiting(x.a, x.inst)
    case Wake(t) => Unlinking(x.a, x.inst)
    case Unlink(t) => Freeing(x.a, x.inst)
    case Free(t) => Idle
  }

  ghost function SetWord(s: State, a: Addr, w: Word): State
    requires a in s.entries
  {
    s.(entries := s.entries[a := s.entries[a].(word := w)])
  }

  /** What happens to the list, the entries and the wait blocks. */
  ghost function Shared(s: State, step: Step): State
    requires Safe(s, step)
  {
    var x := s.threads[step.t];
    match step
    case Allocate(t, a) => s.(entries := s.entries[a := Entry(s.made, false, Counted(0))], made := s.made + 1)
    case Link(t) => s.(list := s.list + [x.a])
    case AcquireCas(t) =>
      if x.value.Counted? && s.entries[x.a].word == x.value then SetWord(s, x.a, Counted(x.value.n + 1)) else s
    case ReleaseCas(t) =>
      if x.value.Counted? then
        if s.entries[x.a].word == x.value then SetWord(s, x.a, Counted(x.value.n - 1)) else s
      else
        var o := x.value.owner;
        s.(blocks := s.blocks[o := s.blocks[o].(count := s.blocks[o].count - 1)])
    case Signal(t) => s.(blocks := s.blocks[x.owner := s.blocks[x.owner].(signalled := true)])
    case Unregister(t, cookie) =>
      if cookie in s.list && !s.entries[cookie].pending
      then s.(entries := s.entries[cookie := s.entries[cookie].(pending := true)])
      else s
    case WaitStart(t) => if s.entries[x.a].word == Counted(0) then SetWord(s, x.a, Active) else s
    case WaitCas(t) =>
      if s.entries[x.a].word != x.value then s else
      SetWord(s, x.a, WaitedBy(t)).(blocks := s.blocks[t := Block(x.value.n, false)])
    case Unlink(t) => s.(list := Without(s.list, x.a))
    case Free(t) => s.(entries := s.entries - {x.a}, gone := s.gone + [x.inst])
    case _ => s
  }

  /** The mutex is held between steps only while a walk looks at an entry. */
  ghost function Apply(s: State, step: Step): State
    requires Safe(s, step)
  {
    var y := Next(s, step);
    Shared(s, step).(
      threads := s.threads[step.t := y],
      mutex := if Locked(y) then Some(step.t) else if Locked(s.threads[step.t]) then None else s.mutex)
  }

  // ----- the invariant -----

  ghost function Protectors(s: State, a: Addr): set<ThreadId> {
    set t | t in s.threads && Protects(s.threads[t], a)
  }

  ghost function Removers(s: State, a: Addr): set<ThreadId> {
    set t | t in s.threads && Removes(s.threads[t], a)
  }

  ghost function Owners(s: State, a: Addr): set<ThreadId> {
    set t | t in s.threads && Owns(s.threads[t], a)
  }

  ghost predicate MutexInv(s: State) {
    && (forall t :: t in s.threads && Locked(s.threads[t]) ==> s.mutex == Some(t))
    && (s.mutex.Some? ==> s.mutex.value in s.threads && Locked(s.threads[s.mutex.value]))
  }

  ghost predicate ListInv(s: State) {
    NoDup(s.list) && AllThere(s)
  }

  /** Who may know an entry, and how the rundown word counts those that protect it. */
  ghost predicate EntryInv(s: State, a: Addr) {
    if a in s.entries then
      && |Owners(s, a)| + (if a in s.list then 1 else 0) == 1
      && |Removers(s, a)| == (if s.entries[a].pending then 1 else 0)
      && WordInv(s, a, s.entries[a].word)
      && (IsActive(s.entries[a].word) ==> s.entries[a].pending)
    else
      |Owners(s, a)| == 0 && |Removers(s, a)| == 0 && |Protectors(s, a)| == 0
  }

  ghost predicate WordInv(s: State, a: Addr, w: Word) {
    match w
    case Counted(n) => n == |Protectors(s, a)|
    case Active => |Protectors(s, a)| == 0
    case WaitedBy(o) =>
      && o in s.threads && Removes(s.threads[o], a)
      && if s.threads[o].Waiting? then o in s.blocks && s.blocks[o].count == |Protectors(s, a)| else |Protectors(s, a)| == 0
  }

  /** What a thread knows about its entry. */
  ghost predicate ThreadInv(s: State, t: ThreadId, x: Thread) {
    && (forall a :: Walks(x, a) ==> a in s.list)
    && (x.Running? || x.Returned? || x.Releasing? ==> x.a in s.entries && s.entries[x.a].inst == x.inst)
    && (x.Releasing? ==> x.a in s.entries && (x.value.Counted? || x.value == s.entries[x.a].word))
    && (x.Registering? ==> x.a in s.entries && s.entries[x.a] == Entry(s.entries[x.a].inst, false, Counted(0)))
    && (x.Marked? || x.WaitLoop? || x.Waiting? || x.Unlinking? || x.Freeing? ==> x.a in s.entries && s.entries[x.a].inst == x.inst)
    && (x.Marked? || x.WaitLoop? || x.Waiting? || x.Unlinking? ==> x.a in s.list)
    && (x.Marked? || x.WaitLoop? ==> s.entries[x.a].word.Counted?)
    && (x.WaitLoop? ==> x.value.Counted?)
    && (x.Waiting? ==> s.entries[x.a].word == WaitedBy(t) && WaitInv(s, t))
    && (x.Unlinking? || x.Freeing? ==> IsActive(s.entries[x.a].word) && |Protectors(s, x.a)| == 0)
    && (x.Signalling? ==> x.owner in s.threads && s.threads[x.owner].Waiting? && x.owner in s.blocks
                          && s.blocks[x.owner] == Block(0, false))
  }

  /** No wake-up is lost: someone will bring the count to zero, or is about to signal, or has signalled. */
  ghost predicate WaitInv(s: State, t: ThreadId) {
    && t in s.blocks && s.blocks[t].count >= 0
    && (s.blocks[t].signalled ==> s.blocks[t].count == 0)
    && (s.blocks[t].count == 0 && !s.blocks[t].signalled ==>
          exists u :: u in s.threads && s.threads[u].Signalling? && s.threads[u].owner == t)
  }

  /** Each registration is on record once: as an entry, or as unregistered. */
  ghost predicate HistoryInv(s: State) {
    && NoDup(s.gone)
    && (forall n :: n in s.gone ==> n < s.made)
    && (forall a :: a in s.entries ==> s.entries[a].inst < s.made && s.entries[a].inst !in s.gone)
    && (forall a, b :: a in s.entries && b in s.entries && s.entries[a].inst == s.entries[b].inst ==> a == b)
    && (forall n: nat :: n < s.made ==> n in s.gone || exists a :: a in s.entries && s.entries[a].inst == n)
  }

  ghost predicate Inv(s: State) {
    && MutexInv(s) && ListInv(s) && HistoryInv(s)
    && (forall a :: EntryInv(s, a))
    && (forall t :: t in s.threads ==> ThreadInv(s, t, s.threads[t]))
  }

  lemma {:induction false} InitInv(s: State)
    requires Init(s)
    ensures Inv(s)
  {
    forall a ensures EntryInv(s, a) {
      assert Owners(s, a) == {} && Removers(s, a) == {} && Protectors(s, a) == {};
    }
  }

  lemma {:induction false} StepSafe(s: State, step: Step)
    requires Inv(s) && Enabled(s, step)
    ensures Safe(s, step)
  {
    hide HistoryInv, MutexInv;
    var t := step.t;
    var x := s.threads[t];
    assert ThreadInv(s, t, x);
    if x.Releasing? {
      assert EntryInv(s, x.a) && t in Protectors(s, x.a);
    }
  }

  // ----- counting -----

  ghost function Bit(b: bool): int {
    if b then 1 else 0
  }

  lemma {:induction false} CountsAfter(s: State, r: State, t: ThreadId, a: Addr)
    requires t in s.threads && t in r.threads && r.threads == s.threads[t := r.threads[t]]
    ensures var x, y := s.threads[t], r.threads[t];
            && |Protectors(r, a)| == |Protectors(s, a)| - Bit(Protects(x, a)) + Bit(Protects(y, a))
            && |Removers(r, a)| == |Removers(s, a)| - Bit(Removes(x, a)) + Bit(Removes(y, a))
            && |Owners(r, a)| == |Owners(s, a)| - Bit(Owns(x, a)) + Bit(Owns(y, a))
  {
    SetSwap(Protectors(s, a), Protectors(r, a), t);
    SetSwap(Removers(s, a), Removers(r, a), t);
    SetSwap(Owners(s, a), Owners(r, a), t);
  }

  lemma {:induction false} OnlyRemover(s: State, t: ThreadId, u: ThreadId, a: Addr)
    requires EntryInv(s, a) && t in s.threads && u in s.threads && Removes(s.threads[t], a) && Removes(s.threads[u], a)
    ensures t == u
  {
    assert {t, u} <= Removers(s, a);
    SubsetSize({t, u}, Removers(s, a));
  }

  lemma {:induction false} Exists(s: State, t: ThreadId, a: Addr)
    requires EntryInv(s, a) && t in s.threads && (Owns(s.threads[t], a) || Removes(s.threads[t], a) || Protects(s.threads[t], a))
    ensures a in s.entries
    ensures Owns(s.threads[t], a) ==> a !in s.list
    ensures Removes(s.threads[t], a) ==> s.entries[a].pending
    ensures Protects(s.threads[t], a) ==> |Protectors(s, a)| >= 1
  {
    assert Owns(s.threads[t], a) ==> t in Owners(s, a);
    assert Removes(s.threads[t], a) ==> t in Removers(s, a);
    assert Protects(s.threads[t], a) ==> t in Protectors(s, a);
  }

  // ----- the mutex and the list -----

  lemma {:induction false} StepMutex(s: State, step: Step)
    requires Safe(s, step) && Inv(s)
    ensures MutexInv(Apply(s, step))
  {
    hide ListInv, HistoryInv, EntryInv, ThreadInv, Shared, After;
  }

  lemma {:induction false} StepList(s: State, step: Step)
    requires Safe(s, step) && Inv(s)
    ensures ListInv(Apply(s, step))
  {
    hide MutexInv, HistoryInv, ThreadInv, Next, After, Protectors, Removers, Owners, WordInv;
    var x := s.threads[step.t];
    if step.Link? || step.Free? {
      assert EntryInv(s, x.a);
      Exists(s, step.t, x.a);
      if step.Link? {
        NoDupAppend(s.list, x.a);
      }
    } else if step.Unlink? {
      WithoutNoDup(s.list, x.a);
    }
  }

  ghost predicate SameInstances(s: State, r: State) {
    && r.gone == s.gone && r.made == s.made
    && (forall a :: a in r.entries <==> a in s.entries)
    && (forall a :: a in s.entries ==> r.entries[a].inst == s.entries[a].inst)
  }

  lemma {:induction false} HistorySame(s: State, r: State)
    requires HistoryInv(s) && SameInstances(s, r)
    ensures HistoryInv(r)
  {
    hide NoDup;
    forall n: nat | n < r.made ensures n in r.gone || exists a :: a in r.entries && r.entries[a].inst == n {
      if n !in s.gone {
        var a :| a in s.entries && s.entries[a].inst == n;
        assert a in r.entries && r.entries[a].inst == n;
      }
    }
  }

  lemma {:induction false} HistoryMade(s: State, r: State, a: Addr)
    requires HistoryInv(s) && a !in s.entries && r.gone == s.gone && r.made == s.made + 1
    requires r.entries == s.entries[a := Entry(s.made, false, Counted(0))]
    ensures HistoryInv(r)
  {
    hide NoDup;
    assert r.entries[a].inst == s.made;
    forall n: nat | n < r.made ensures n in r.gone || exists b :: b in r.entries && r.entries[b].inst == n {
      if n < s.made && n !in s.gone {
        var b :| b in s.entries && s.entries[b].inst == n;
        assert b in r.entries && r.entries[b].inst == n;
      }
    }
  }

  lemma {:induction false} HistoryGone(s: State, r: State, a: Addr)
    requires HistoryInv(s) && a in s.entries && r.made == s.made
    requires r.gone == s.gone + [s.entries[a].inst] && r.entries == s.entries - {a}
    ensures HistoryInv(r)
  {
    hide NoDup;
    NoDupAppend(s.gone, s.entries[a].inst);
    forall n: nat | n < r.made ensures n in r.gone || exists b :: b in r.entries && r.entries[b].inst == n {
      if n !in s.gone {
        var b :| b in s.entries && s.entries[b].inst == n;
        assert b == a || (b in r.entries && r.entries[b].inst == n);
      }
    }
  }

  lemma {:induction false} StepHistory(s: State, step: Step)
    requires Safe(s, step) && Inv(s)
    ensures HistoryInv(Apply(s, step))
  {
    hide MutexInv, ListInv, EntryInv, Next, After, HistoryInv;
    var x := s.threads[step.t];
    var r := Apply(s, step);
    assert ThreadInv(s, step.t, x);
    if step.Allocate? {
      HistoryMade(s, r, step.a);
    } else if step.Free? {
      HistoryGone(s, r, x.a);
    } else {
      HistorySame(s, r);
    }
  }

  // ----- the entries -----

  lemma {:induction false} EntryReleased(s: State, step: Step, a: Addr)
    requires Safe(s, step) && Inv(s) && step.ReleaseCas?
    ensures EntryInv(Apply(s, step), a)
  {
    hide MutexInv, HistoryInv, After, Protectors, Removers, Owners, NoDup;
    var x := s.threads[step.t];
    var r := Apply(s, step);
    assert EntryInv(s, a) && ThreadInv(s, step.t, x);
    CountsAfter(s, r, step.t, a);
    if Owns(x, a) || Removes(x, a) || Protects(x, a) {
      Exists(s, step.t, a);
    }
    assert EntryInv(s, x.a);
  }

  lemma {:induction false} EntryAcquired(s: State, step: Step, a: Addr)
    requires Safe(s, step) && Inv(s) && step.AcquireCas?
    ensures EntryInv(Apply(s, step), a)
  {
    hide MutexInv, HistoryInv, After, Protectors, Removers, Owners, NoDup;
    var x := s.threads[step.t];
    var r := Apply(s, step);
    assert EntryInv(s, a) && ThreadInv(s, step.t, x);
    CountsAfter(s, r, step.t, a);
    if Owns(x, a) || Removes(x, a) || Protects(x, a) {
      Exists(s, step.t, a);
    }
  }

  lemma {:induction false} EntryWaited(s: State, step: Step, a: Addr)
    requires Safe(s, step) && Inv(s) && step.WaitCas?
    ensures EntryInv(Apply(s, step), a)
  {
    hide MutexInv, HistoryInv, After, Protectors, Removers, Owners, NoDup;
    var x := s.threads[step.t];
    var r := Apply(s, step);
    assert EntryInv(s, a) && ThreadInv(s, step.t, x);
    CountsAfter(s, r, step.t, a);
    if Owns(x, a) || Removes(x, a) || Protects(x, a) {
      Exists(s, step.t, a);
    }
  }

  lemma {:induction false} EntryMarked(s: State, step: Step, a: Addr)
    requires Safe(s, step) && Inv(s) && (step.Unregister? || step.WaitStart? || step.Wake?)
    ensures EntryInv(Apply(s, step), a)
  {
    hide Inv, After, Protectors, Removers, Owners, NoDup;
    var x := s.threads[step.t];
    var r := Apply(s, step);
    InvEntry(s, a);
    InvThread(s, step.t);
    CountsAfter(s, r, step.t, a);
    if Owns(x, a) || Removes(x, a) || Protects(x, a) {
      Exists(s, step.t, a);
    }
  }

  lemma {:induction false} EntryUnlinked(s: State, step: Step, a: Addr)
    requires Safe(s, step) && Inv(s) && (step.Unlink? || step.Free?)
    ensures EntryInv(Apply(s, step), a)
  {
    hide Inv, After, Protectors, Removers, Owners, NoDup;
    var x := s.threads[step.t];
    var r := Apply(s, step);
    InvEntry(s, a);
    InvThread(s, step.t);
    CountsAfter(s, r, step.t, a);
    if Owns(x, a) || Removes(x, a) || Protects(x, a) {
      Exists(s, step.t, a);
    }
  }

  lemma {:induction false} InvThere(s: State)
    requires Inv(s)
    ensures AllThere(s)
  {
    hide MutexInv, HistoryInv, EntryInv, ThreadInv;
  }

  lemma {:induction false} EntryWalked(s: State, step: Step, a: Addr)
    requires Safe(s, step) && Inv(s)
    requires step.Allocate? || step.Link? || step.Start? || step.Look? || step.FunctionReturns? || step.Relock? || step.Signal? || step.Advance?
    ensures EntryInv(Apply(s, step), a)
  {
    hide Inv, After, Protectors, Removers, Owners, NoDup;
    var x := s.threads[step.t];
    var r := Apply(s, step);
    InvEntry(s, a);
    InvThere(s);
    InvThread(s, step.t);
    CountsAfter(s, r, step.t, a);
    if Owns(x, a) || Removes(x, a) || Protects(x, a) {
      Exists(s, step.t, a);
    }
  }

  lemma {:induction false} StepEntry(s: State, step: Step, a: Addr)
    requires Safe(s, step) && Inv(s)
    ensures EntryInv(Apply(s, step), a)
  {
    hide *;
    match step {
      case ReleaseCas(_) => EntryReleased(s, step, a);
      case AcquireCas(_) => EntryAcquired(s, step, a);
      case WaitCas(_) => EntryWaited(s, step, a);
      case Unregister(_, _) => EntryMarked(s, step, a);
      case WaitStart(_) => EntryMarked(s, step, a);
      case Wake(_) => EntryMarked(s, step, a);
      case Unlink(_) => EntryUnlinked(s, step, a);
      case Free(_) => EntryUnlinked(s, step, a);
      case _ => EntryWalked(s, step, a);
    }
  }

  // ----- the threads -----

  lemma {:induction false} InvThread(s: State, t: ThreadId)
    requires Inv(s) && t in s.threads
    ensures ThreadInv(s, t, s.threads[t])
  {
    hide ThreadInv;
  }

  lemma {:induction false} InvEntry(s: State, a: Addr)
    requires Inv(s)
    ensures EntryInv(s, a)
  {
    hide EntryInv;
  }

  /** No walk stands at an entry that is being unlinked or freed. */
  lemma {:induction false} WalkUndisturbed(s: State, step: Step, u: ThreadId, a: Addr)
    requires Safe(s, step) && Inv(s) && u in s.threads && u != step.t && Walks(s.threads[u], a)
    ensures var r := Apply(s, step); a in r.list && a in r.entries && r.entries[a].inst == s.entries[a].inst
  {
    hide HistoryInv, NoDup, Protectors, Owners, Removers, Next, WordInv;
    assert ThreadInv(s, u, s.threads[u]) && EntryInv(s, a) && ThreadInv(s, step.t, s.threads[step.t]);
    if Protects(s.threads[u], a) {
      Exists(s, u, a);
    }
    if step.Free? {
      assert EntryInv(s, s.threads[step.t].a);
      Exists(s, step.t, s.threads[step.t].a);
    }
  }

  /** The rundown word goes from a count to active and then stays. */
  lemma {:induction false} ActiveStays(s: State, step: Step, a: Addr)
    requires Safe(s, step) && a in s.entries && a in Apply(s, step).entries && IsActive(s.entries[a].word)
    ensures Apply(s, step).entries[a].word == s.entries[a].word
  {
    hide Next, AllThere;
  }

  lemma {:induction false} OtherWalker(s: State, step: Step, u: ThreadId)
    requires Safe(s, step) && Inv(s) && u in s.threads && u != step.t && exists a :: Walks(s.threads[u], a)
    ensures ThreadInv(Apply(s, step), u, s.threads[u])
  {
    hide MutexInv, ListInv, HistoryInv, EntryInv, Apply, Protectors, Enabled;
    var x := s.threads[u];
    InvThread(s, u);
    WalkUndisturbed(s, step, u, x.a);
    if x.Releasing? && IsActive(x.value) {
      ActiveStays(s, step, x.a);
    } else if x.Signalling? {
      SignalPending(s, step, u);
    }
  }

  lemma {:induction false} SignalPending(s: State, step: Step, u: ThreadId)
    requires Safe(s, step) && Inv(s) && u in s.threads && u != step.t && s.threads[u].Signalling?
    ensures var r, o := Apply(s, step), s.threads[u].owner;
            o in r.threads && r.threads[o].Waiting? && o in r.blocks && r.blocks[o] == Block(0, false)
  {
    hide ListInv, HistoryInv, EntryInv, After;
    assert ThreadInv(s, u, s.threads[u]);
  }

  /** Only its remover makes a word active, unlinks the entry and frees it. */
  lemma {:induction false} RemoverAlone(s: State, step: Step, u: ThreadId, a: Addr)
    requires Safe(s, step) && Inv(s) && u in s.threads && u != step.t && Removes(s.threads[u], a)
    ensures var r := Apply(s, step);
            && a in r.entries && r.entries[a].inst == s.entries[a].inst
            && (a in s.list ==> a in r.list)
            && (s.entries[a].word.Counted? ==> r.entries[a].word.Counted?)
  {
    hide HistoryInv, NoDup, Protectors, Owners, Removers, Next, WordInv, MutexInv, After;
    assert ThreadInv(s, u, s.threads[u]) && EntryInv(s, a) && ThreadInv(s, step.t, s.threads[step.t]);
    if Removes(s.threads[step.t], a) {
      OnlyRemover(s, step.t, u, a);
    }
    Exists(s, u, a);
  }

  lemma {:induction false} WaiterWoken(s: State, step: Step, u: ThreadId)
    requires Safe(s, step) && Inv(s) && u in s.threads && u != step.t && s.threads[u].Waiting?
    ensures WaitInv(Apply(s, step), u)
  {
    hide ListInv, HistoryInv, After, Removers, Owners, AllThere;
    var r := Apply(s, step);
    var x := s.threads[step.t];
    InvThread(s, u);
    InvThread(s, step.t);
    if step.ReleaseCas? && x.value == WaitedBy(u) {
      InvEntry(s, x.a);
      Exists(s, step.t, x.a);
      if s.blocks[u].count == 1 {
        assert r.threads[step.t].Signalling? && r.threads[step.t].owner == u;
      }
    } else if s.blocks[u].count == 0 && !s.blocks[u].signalled {
      var w :| w in s.threads && s.threads[w].Signalling? && s.threads[w].owner == u;
      if w != step.t {
        assert r.threads[w].Signalling? && r.threads[w].owner == u;
      }
    }
  }

  lemma {:induction false} OtherRemover(s: State, step: Step, u: ThreadId, a: Addr)
    requires Safe(s, step) && Inv(s) && u in s.threads && u != step.t && Removes(s.threads[u], a)
    ensures ThreadInv(Apply(s, step), u, s.threads[u])
  {
    hide MutexInv, ListInv, HistoryInv, Apply, Protectors, Owners, Removers, Enabled, Safe, WaitInv;
    var x := s.threads[u];
    var r := Apply(s, step);
    InvThread(s, u);
    RemoverAlone(s, step, u, a);
    if IsActive(s.entries[a].word) {
      ActiveStays(s, step, a);
    }
    if x.Waiting? {
      WaiterWoken(s, step, u);
    } else if x.Unlinking? || x.Freeing? {
      StepEntry(s, step, a);
      InvEntry(s, a);
      StepThreads(s, step);
      if r.entries[a].word.WaitedBy? && r.entries[a].word.owner == step.t {
        OnlyRemover(r, step.t, u, a);
      }
      if r.entries[a].word.WaitedBy? {
        OnlyRemover(r, r.entries[a].word.owner, u, a);
      }
    }
  }

  lemma {:induction false} StepThreads(s: State, step: Step)
    requires Safe(s, step)
    ensures step.t in s.threads && Apply(s, step).threads == s.threads[step.t := Next(s, step)]
  {
    hide Shared, Next;
  }

  lemma {:induction false} OtherRegistering(s: State, step: Step, u: ThreadId)
    requires Safe(s, step) && Inv(s) && u in s.threads && u != step.t && s.threads[u].Registering?
    ensures ThreadInv(Apply(s, step), u, s.threads[u])
  {
    hide MutexInv, HistoryInv, NoDup, Protectors, Owners, Removers, Next, WordInv, After;
    var a := s.threads[u].a;
    assert ThreadInv(s, u, s.threads[u]) && EntryInv(s, a) && ThreadInv(s, step.t, s.threads[step.t]);
    Exists(s, u, a);
    if Removes(s.threads[step.t], a) {
      Exists(s, step.t, a);
    }
  }

  lemma {:induction false} SelfWalker(s: State, step: Step)
    requires Safe(s, step) && Inv(s)
    requires step.Start? || step.Look? || step.AcquireCas? || step.FunctionReturns? || step.Relock? || step.Signal? || step.Advance?
    ensures ThreadInv(Apply(s, step), step.t, Next(s, step))
  {
    hide MutexInv, HistoryInv, EntryInv, NoDup, Protectors;
    InvThread(s, step.t);
  }

  lemma {:induction false} SelfRelease(s: State, step: Step)
    requires Safe(s, step) && Inv(s) && step.ReleaseCas?
    ensures ThreadInv(Apply(s, step), step.t, Next(s, step))
  {
    hide MutexInv, HistoryInv, NoDup, Removers, Owners;
    var x := s.threads[step.t];
    InvThread(s, step.t);
    InvEntry(s, x.a);
    Exists(s, step.t, x.a);
    if x.value.WaitedBy? {
      InvThread(s, x.value.owner);
    }
  }

  lemma {:induction false} SelfMarker(s: State, step: Step)
    requires Safe(s, step) && Inv(s) && (step.Allocate? || step.Link? || step.Unregister?)
    ensures ThreadInv(Apply(s, step), step.t, Next(s, step))
  {
    hide MutexInv, HistoryInv, NoDup, Protectors, Removers, Owners;
    if step.Unregister? {
      InvEntry(s, step.cookie);
    }
  }

  lemma {:induction false} SelfRemover(s: State, step: Step)
    requires Safe(s, step) && Inv(s) && (step.WaitStart? || step.WaitCas?)
    ensures ThreadInv(Apply(s, step), step.t, Next(s, step))
  {
    hide Inv, NoDup, Protectors, Removers, Owners;
    InvThread(s, step.t);
    var a := s.threads[step.t].a;
    InvEntry(s, a);
    Exists(s, step.t, a);
    CountsAfter(s, Apply(s, step), step.t, a);
  }

  lemma {:induction false} SelfUnlinker(s: State, step: Step)
    requires Safe(s, step) && Inv(s) && (step.Wake? || step.Unlink? || step.Free?)
    ensures ThreadInv(Apply(s, step), step.t, Next(s, step))
  {
    hide Inv, NoDup, Protectors, Removers, Owners;
    InvThread(s, step.t);
    var a := s.threads[step.t].a;
    InvEntry(s, a);
    Exists(s, step.t, a);
    CountsAfter(s, Apply(s, step), step.t, a);
  }

  lemma {:induction false} StepThread(s: State, step: Step, u: ThreadId)
    requires Safe(s, step) && Inv(s) && u in Apply(s, step).threads
    ensures ThreadInv(Apply(s, step), u, Apply(s, step).threads[u])
  {
    hide Inv, Safe, Apply, ThreadInv, Next;
    StepThreads(s, step);
    if u == step.t {
      match step {
        case ReleaseCas(_) => SelfRelease(s, step);
        case Allocate(_, _) => SelfMarker(s, step);
        case Link(_) => SelfMarker(s, step);
        case Unregister(_, _) => SelfMarker(s, step);
        case WaitStart(_) => SelfRemover(s, step);
        case WaitCas(_) => SelfRemover(s, step);
        case Wake(_) => SelfUnlinker(s, step);
        case Unlink(_) => SelfUnlinker(s, step);
        case Free(_) => SelfUnlinker(s, step);
        case _ => SelfWalker(s, step);
      }
    } else {
      var x := s.threads[u];
      if x.Registering? {
        OtherRegistering(s, step, u);
      } else if x.Idle? {
        IdleInv(Apply(s, step), u);
      } else if Removes(x, x.a) {
        OtherRemover(s, step, u, x.a);
      } else {
        assert Walks(x, x.a);
        OtherWalker(s, step, u);
      }
    }
  }

  lemma {:induction false} IdleInv(s: State, t: ThreadId)
    ensures ThreadInv(s, t, Idle)
  {
  }

  lemma {:induction false} StepInv(s: State, step: Step)
    requires Inv(s) && Enabled(s, step)
    ensures Safe(s, step) && Inv(Apply(s, step))
  {
    hide MutexInv, ListInv, HistoryInv, EntryInv, ThreadInv, Safe, Enabled, Apply;
    StepSafe(s, step);
    var r := Apply(s, step);
    StepMutex(s, step);
    StepList(s, step);
    StepHistory(s, step);
    forall a ensures EntryInv(r, a) {
      StepEntry(s, step, a);
    }
    forall u | u in r.threads ensures ThreadInv(r, u, r.threads[u]) {
      StepThread(s, step, u);
    }
  }

  // ----- runs -----

  ghost predicate Goes(s: State, step: Step, r: State) {
    Enabled(s, step) && (Safe(s, step) ==> r == Apply(s, step))
  }

  /** A run; a step on freed memory could be followed by any state. */
  ghost predicate IsRun(states: seq<State>, steps: seq<Step>) {
    && |states| == |steps| + 1 && Init(states[0])
    && forall i :: 0 <= i < |steps| ==> Goes(states[i], steps[i], states[i + 1])
  }

  /** No step of any run touches a freed entry or the wait block of a thread that went on. */
  lemma {:induction false} RunInv(states: seq<State>, steps: seq<Step>, k: nat)
    requires IsRun(states, steps) && k < |states|
    ensures Inv(states[k])
    ensures k < |steps| ==> Safe(states[k], steps[k]) && states[k + 1] == Apply(states[k], steps[k])
  {
    hide Inv, Safe, Enabled, Apply, Init;
    if k == 0 {
      InitInv(states[0]);
    } else {
      var i := k - 1;
      RunInv(states, steps, i);
      assert Goes(states[i], steps[i], states[i + 1]);
      StepInv(states[i], steps[i]);
    }
    if k < |steps| {
      assert Goes(states[k], steps[k], states[k + 1]);
      StepSafe(states[k], steps[k]);
    }
  }

  lemma {:induction false} GoneGrows(states: seq<State>, steps: seq<Step>, j: nat, k: nat, n: nat)
    requires IsRun(states, steps) && j <= k < |states| && n in states[j].gone
    ensures n in states[k].gone
  {
    hide Inv, Safe, Apply, Init, Goes;
    if j < k {
      GoneGrows(states, steps, j, k - 1, n);
      RunInv(states, steps, k - 1);
      GoneKept(states[k - 1], steps[k - 1], n);
    }
  }

  lemma {:induction false} GoneKept(s: State, step: Step, n: nat)
    requires Safe(s, step) && n in s.gone
    ensures n in Apply(s, step).gone
  {
    hide Next;
  }

  /**
    Once CmUnRegisterCallback has returned success for a registration, its function does not
    run, now or later, and no thread keeps a reference to its entry: whatever entry a thread
    walks at, protects, unregisters or registers is another registration's.  It succeeds only once.
  */
  lemma {:induction false} GoneForGood(states: seq<State>, steps: seq<Step>, j: nat, k: nat, n: nat)
    requires IsRun(states, steps) && j <= k < |states| && n in states[j].gone
    ensures forall t, a :: t in states[k].threads && Refers(states[k].threads[t], a) ==>
              && a in states[k].entries && states[k].entries[a].inst != n
              && (Instance(states[k].threads[t]).Some? ==> Instance(states[k].threads[t]).value == states[k].entries[a].inst)
    ensures NoDup(states[k].gone)
  {
    hide MutexInv, EntryInv, IsRun, Walks, Protects, Removes, Owns;
    GoneGrows(states, steps, j, k, n);
    RunInv(states, steps, k);
    forall t, a | t in states[k].threads && Refers(states[k].threads[t], a)
      ensures && a in states[k].entries && states[k].entries[a].inst != n
              && (Instance(states[k].threads[t]).Some? ==> Instance(states[k].threads[t]).value == states[k].entries[a].inst)
    {
      RefersThere(states[k], t, a);
    }
  }

  /** The thread has a pointer to the entry. */
  ghost predicate Refers(x: Thread, a: Addr) {
    Walks(x, a) || Protects(x, a) || Removes(x, a) || Owns(x, a)
  }

  /** The registration that the thread took the entry for, where it has one in mind. */
  ghost function Instance(x: Thread): Option<nat> {
    match x
    case Running(_, n) => Some(n)
    case Returned(_, n, _) => Some(n)
    case Releasing(_, n, _, _) => Some(n)
    case Marked(_, n) => Some(n)
    case WaitLoop(_, n, _) => Some(n)
    case Waiting(_, n) => Some(n)
    case Unlinking(_, n) => Some(n)
    case Freeing(_, n) => Some(n)
    case _ => None
  }

  lemma {:induction false} RefersThere(s: State, t: ThreadId, a: Addr)
    requires Inv(s) && t in s.threads && Refers(s.threads[t], a)
    ensures a in s.entries
    ensures Instance(s.threads[t]).Some? ==> Instance(s.threads[t]).value == s.entries[a].inst
  {
    hide MutexInv, HistoryInv;
    assert ThreadInv(s, t, s.threads[t]) && EntryInv(s, a);
    if !Walks(s.threads[t], a) {
      Exists(s, t, a);
    }
  }

  /**
    When all threads are idle, every registration is either on the list, intact and with no
    removal begun, or was unregistered: so of the unregister calls that ever found an entry
    exactly one succeeded.
  */
  lemma {:induction false} AtRest(states: seq<State>, steps: seq<Step>, k: nat, n: nat)
    requires IsRun(states, steps) && k < |states| && n < states[k].made
    requires forall t :: t in states[k].threads ==> states[k].threads[t] == Idle
    ensures var s := states[k];
            if n in s.gone then forall a :: a in s.entries ==> s.entries[a].inst != n
            else exists a :: a in s.list && a in s.entries && s.entries[a] == Entry(n, false, Counted(0))
  {
    hide MutexInv, IsRun, ThreadInv;
    RunInv(states, steps, k);
    var s := states[k];
    if n !in s.gone {
      var a :| a in s.entries && s.entries[a].inst == n;
      InvEntry(s, a);
      assert Owners(s, a) == {} && Removers(s, a) == {} && Protectors(s, a) == {};
      assert s.entries[a] == Entry(n, false, Counted(0));
    }
  }

  /** A waiter is never forgotten: its count is positive, or a signal is under way or given. */
  lemma {:induction false} NoLostWakeup(states: seq<State>, steps: seq<Step>, k: nat, t: ThreadId)
    requires IsRun(states, steps) && k < |states| && t in states[k].threads && states[k].threads[t].Waiting?
    ensures var s := states[k];
            && t in s.blocks
            && (|| (exists u :: u in s.threads && Protects(s.threads[u], s.threads[t].a))
                || (exists u :: u in s.threads && s.threads[u].Signalling? && s.threads[u].owner == t)
                || s.blocks[t].signalled)
  {
    hide MutexInv, ListInv, HistoryInv, IsRun, Removers, Owners;
    RunInv(states, steps, k);
    var s := states[k];
    var a := s.threads[t].a;
    InvThread(s, t);
    InvEntry(s, a);
    if s.blocks[t].count > 0 {
      assert Protectors(s, a) != {};
      var u :| u in Protectors(s, a);
      assert Protects(s.threads[u], a);
    }
  }
}
