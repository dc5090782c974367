/**
  What callers of CmiCallRegisteredCallbacks, CmRegisterCallback and CmUnRegisterCallback may
  rely on (ntoskrnl/config/cmhook.c), over the runs of CallbackRundown: which callbacks a walk
  calls, in which order, and what becomes of a registration.
*/
module CallbackWalks {
  import opened Common
  import opened Seqs
  import opened CallbackRundown

  /** Registration `n` at address `a` is listed and nobody has asked for its removal. */
  ghost predicate Live(s: State, a: Addr, n: nat) {
    a in s.list && a in s.entries && s.entries[a].inst == n && !s.entries[a].pending
  }

  /** The thread is inside CmiCallRegisteredCallbacks. */
  ghost predicate InWalk(x: Thread) {
    Locked(x) || x.Running? || x.Returned?
  }

  // ----- a protection is acquired only on a live entry -----

  ghost predicate Fresh(s: State, x: Thread) {
    x.Acquiring? ==> x.a in s.entries && !s.entries[x.a].pending && x.value.Counted?
  }

  lemma {:induction false} FreshOwn(s: State, step: Step)
    requires Inv(s) && Safe(s, step) && Fresh(s, s.threads[step.t])
    ensures Fresh(Apply(s, step), Next(s, step))
  {
    hide Inv, AllThere, After;
    if step.Look? || step.AcquireCas? {
      InvEntry(s, s.threads[step.t].a);
    }
  }

  lemma {:induction false} FreshOther(s: State, step: Step, u: ThreadId)
    requires Inv(s) && Safe(s, step) && u in s.threads && u != step.t && Fresh(s, s.threads[u])
    ensures Fresh(Apply(s, step), s.threads[u])
  {
    hide ListInv, HistoryInv, EntryInv, ThreadInv, AllThere, After, Next;
    if s.threads[u].Acquiring? {
      WalkUndisturbed(s, step, u, s.threads[u].a);
    }
  }

  lemma {:induction false} RunFresh(states: seq<State>, steps: seq<Step>, k: nat, t: ThreadId)
    requires IsRun(states, steps) && k < |states| && t in states[k].threads
    ensures Fresh(states[k], states[k].threads[t])
  {
    hide Inv, Safe, Apply, Fresh;
    if k == 0 {
      FreshAtFirst(states[0], t);
    } else {
      var i := k - 1;
      RunInv(states, steps, i);
      StepThreads(states[i], steps[i]);
      RunFresh(states, steps, i, t);
      if t == steps[i].t {
        FreshOwn(states[i], steps[i]);
      } else {
        FreshOther(states[i], steps[i], t);
      }
    }
  }

  lemma {:induction false} FreshAtFirst(s: State, t: ThreadId)
    requires Init(s) && t in s.threads
    ensures Fresh(s, s.threads[t])
  {
  }

  /** In every run a callback is started only while its registration is live. */
  lemma {:induction false} CallsLive(states: seq<State>, steps: seq<Step>, k: nat, t: ThreadId, a: Addr, n: nat)
    requires IsRun(states, steps) && k < |steps| && t in states[k].threads && t in states[k + 1].threads
    requires states[k + 1].threads[t] == Running(a, n) && states[k].threads[t] != Running(a, n)
    ensures Live(states[k], a, n)
  {
    hide Inv, Safe, Apply;
    RunInv(states, steps, k);
    RunFresh(states, steps, k, t);
    StepThreads(states[k], steps[k]);
    StartsAcquired(states[k], steps[k], a, n);
  }

  /** ExAcquireRundownProtection never refuses a walk: the mutex keeps a removal from starting meanwhile. */
  lemma {:induction false} NeverRefused(states: seq<State>, steps: seq<Step>, k: nat, t: ThreadId)
    requires IsRun(states, steps) && k < |steps| && steps[k].t == t && steps[k].AcquireCas?
    ensures t in states[k].threads && states[k].threads[t].Acquiring? && states[k].threads[t].value.Counted?
    ensures states[k].threads[t].a in states[k].entries && t in states[k + 1].threads
    ensures states[k + 1].threads[t].Running? <==> states[k].entries[states[k].threads[t].a].word == states[k].threads[t].value
  {
    hide Inv;
    RunInv(states, steps, k);
    RunFresh(states, steps, k, t);
  }

  lemma {:induction false} StartsAcquired(s: State, step: Step, a: Addr, n: nat)
    requires Inv(s) && Safe(s, step) && Fresh(s, s.threads[step.t]) && Next(s, step) == Running(a, n) && s.threads[step.t] != Running(a, n)
    ensures Live(s, a, n)
  {
    hide Inv, AllThere, After;
    InvThread(s, step.t);
    assert Walks(s.threads[step.t], a);
  }

  // ----- where a walk stands -----

  /** The walk has yet to come to the entry, or stands at it and has not called it. */
  ghost predicate Ahead(s: State, x: Thread, a: Addr) {
    InWalk(x) && ((x.a == a && (x.At? || x.Acquiring?)) || Precedes(s.list, x.a, a))
  }

  /** No callback of this walk has failed. */
  ghost predicate Well(x: Thread) {
    x.Returned? || x.Releasing? || x.Signalling? || x.Stepping? ==> x.ok
  }

  lemma {:induction false} AfterTail(list: seq<Addr>, b: Addr)
    requires |list| >= 2 && list[0] != b
    ensures After(list, b) == After(list[1..], b)
  {
  }

  lemma {:induction false} AfterNext(list: seq<Addr>, b: Addr, a: Addr)
    requires NoDup(list) && Precedes(list, b, a)
    ensures After(list, b).Some? && (After(list, b).value == a || Precedes(list, After(list, b).value, a))
  {
    var i, j :| 0 <= i < j < |list| && list[i] == b && list[j] == a;
    var rest := list[1..];
    if i == 0 {
      if j > 1 {
        assert list[1] == After(list, b).value;
      }
    } else {
      assert rest[i - 1] == b && rest[j - 1] == a;
      assert NoDup(rest);
      AfterNext(rest, b, a);
      AfterTail(list, b);
      var c := After(list, b).value;
      if c != a {
        PrecedesCons(rest, list[0], c, a);
        assert [list[0]] + rest == list;
      }
    }
  }

  lemma {:induction false} FirstOrLater(list: seq<Addr>, a: Addr)
    requires a in list
    ensures list[0] == a || Precedes(list, list[0], a)
  {
    var i :| 0 <= i < |list| && list[i] == a;
  }

  lemma {:induction false} NotPastItself(s: State, a: Addr)
    requires ListInv(s)
    ensures !Precedes(s.list, a, a)
  {
  }

  lemma {:induction false} InvListed(s: State)
    requires Inv(s)
    ensures ListInv(s)
  {
    hide ListInv;
  }

  /** A step of the walk leaves the entry ahead, or calls it: it cannot be passed over. */
  lemma {:induction false} WalkOwn(s: State, step: Step, a: Addr, n: nat)
    requires Inv(s) && Safe(s, step) && Fresh(s, s.threads[step.t]) && Well(s.threads[step.t])
    requires Ahead(s, s.threads[step.t], a) && Live(s, a, n) && (step.FunctionReturns? ==> step.ok)
    ensures var y := Next(s, step); Well(y) && (y == Running(a, n) || Ahead(Apply(s, step), y, a))
  {
    hide Inv, AllThere, After, Precedes, Without;
    InvListed(s);
    NotPastItself(s, a);
    if step.Advance? {
      AfterNext(s.list, s.threads[step.t].a, a);
    }
  }

  lemma {:induction false} WalkStart(s: State, step: Step, a: Addr, n: nat)
    requires Safe(s, step) && step.Start? && Live(s, a, n)
    ensures var y := Next(s, step); Well(y) && Ahead(Apply(s, step), y, a)
  {
    hide AllThere, Precedes;
    FirstOrLater(s.list, a);
  }

  lemma {:induction false} ListChange(s: State, step: Step)
    requires Safe(s, step)
    ensures var r := Apply(s, step);
      || r.list == s.list
      || (step.Link? && s.threads[step.t].Registering? && r.list == s.list + [s.threads[step.t].a])
      || (exists b :: r.list == Without(s.list, b))
  {
    hide AllThere, After, Next, Without;
    if step.Unlink? {
      assert Apply(s, step).list == Without(s.list, s.threads[step.t].a);
    }
  }

  lemma {:induction false} OrderStays(s: State, step: Step, a: Addr, b: Addr)
    requires Safe(s, step) && Precedes(s.list, a, b) && a in Apply(s, step).list && b in Apply(s, step).list
    ensures Precedes(Apply(s, step).list, a, b)
  {
    hide Apply, Precedes, AllThere;
    ListChange(s, step);
    var list := Apply(s, step).list;
    if list != s.list {
      if c :| list == Without(s.list, c) {
        PrecedesWithout(s.list, c, a, b);
      } else {
        PrecedesAppend(s.list, s.threads[step.t].a, a, b);
      }
    }
  }

  lemma {:induction false} WalkOther(s: State, step: Step, u: ThreadId, a: Addr, n: nat)
    requires Inv(s) && Safe(s, step) && u in s.threads && u != step.t
    requires Ahead(s, s.threads[u], a) && Live(Apply(s, step), a, n)
    ensures Ahead(Apply(s, step), s.threads[u], a)
  {
    hide Inv, Safe, Apply, Precedes;
    var x := s.threads[u];
    WalkUndisturbed(s, step, u, x.a);
    if Precedes(s.list, x.a, a) {
      OrderStays(s, step, x.a, a);
    }
  }

  // ----- a whole walk -----

  /** From step `i` on the thread is in one walk, up to state `k`. */
  ghost predicate IsWalk(states: seq<State>, steps: seq<Step>, t: ThreadId, i: nat, k: nat) {
    && |states| == |steps| + 1 && i < k < |states| && steps[i] == Start(t)
    && (forall j :: i < j < k ==> t in states[j].threads && InWalk(states[j].threads[t]))
  }

  ghost predicate NoFailure(steps: seq<Step>, t: ThreadId, i: nat, k: nat) {
    forall j :: i <= j < k && j < |steps| ==> steps[j] != FunctionReturns(t, false)
  }

  ghost predicate Steady(states: seq<State>, a: Addr, n: nat, i: nat, k: nat) {
    forall j :: i <= j <= k && j < |states| ==> Live(states[j], a, n)
  }

  ghost predicate Called(states: seq<State>, t: ThreadId, a: Addr, n: nat, i: nat, k: nat) {
    exists j :: i < j <= k && j < |states| && t in states[j].threads && states[j].threads[t] == Running(a, n)
  }

  lemma {:induction false} WalkReaches(states: seq<State>, steps: seq<Step>, t: ThreadId, i: nat, k: nat, a: Addr, n: nat)
    requires IsRun(states, steps) && IsWalk(states, steps, t, i, k) && NoFailure(steps, t, i, k) && Steady(states, a, n, i, k)
    ensures t in states[k].threads
    ensures Called(states, t, a, n, i, k) || (Well(states[k].threads[t]) && Ahead(states[k], states[k].threads[t], a))
  {
    hide Inv, Safe, Apply, Fresh, Well, Ahead, Live;
    var m := k - 1;
    RunInv(states, steps, m);
    StepThreads(states[m], steps[m]);
    assert Live(states[m], a, n) && Live(states[k], a, n);
    if m == i {
      WalkStart(states[i], steps[i], a, n);
    } else {
      WalkReaches(states, steps, t, i, m, a, n);
      if Called(states, t, a, n, i, m) {
        var j :| i < j <= m && t in states[j].threads && states[j].threads[t] == Running(a, n);
      } else if steps[m].t == t {
        RunFresh(states, steps, m, t);
        assert steps[m].FunctionReturns? ==> steps[m].ok by {
          assert steps[m] != FunctionReturns(t, false);
        }
        WalkOwn(states[m], steps[m], a, n);
      } else {
        WalkOther(states[m], steps[m], t, a, n);
      }
    }
  }

  /**
    In every run, a walk in which no callback fails has, when it ends, called every registration
    that was live all the time, whatever other threads registered or unregistered meanwhile.
  */
  lemma {:induction false} WalkCallsAll(states: seq<State>, steps: seq<Step>, t: ThreadId, i: nat, k: nat, a: Addr, n: nat)
    requires IsRun(states, steps) && IsWalk(states, steps, t, i, k) && NoFailure(steps, t, i, k) && Steady(states, a, n, i, k)
    requires t in states[k].threads && !InWalk(states[k].threads[t])
    ensures Called(states, t, a, n, i, k)
  {
    hide IsRun, Steady, Called, Well;
    WalkReaches(states, steps, t, i, k, a, n);
  }

  /** It calls them in list order: before it calls one, it has called those in front of it. */
  lemma {:induction false} WalkInOrder(states: seq<State>, steps: seq<Step>, t: ThreadId, i: nat, k: nat, a: Addr, n: nat, b: Addr, m: nat)
    requires IsRun(states, steps) && IsWalk(states, steps, t, i, k) && NoFailure(steps, t, i, k) && Steady(states, a, n, i, k)
    requires t in states[k].threads && states[k].threads[t] == Running(b, m) && Precedes(states[k].list, a, b)
    ensures Called(states, t, a, n, i, k)
  {
    hide IsRun, Steady, Called, Well, Inv, Precedes;
    WalkReaches(states, steps, t, i, k, a, n);
    RunInv(states, steps, k);
    InvListed(states[k]);
    PrecedesOnce(states[k].list, a, b);
  }

  // ----- a callback that fails ends the walk -----

  ghost predicate Failing(x: Thread) {
    (x.Returned? || x.Releasing? || x.Signalling? || x.Stepping?) && !x.ok
  }

  lemma {:induction false} FailingStep(s: State, step: Step)
    requires Safe(s, step) && (Failing(s.threads[step.t]) || (step.FunctionReturns? && !step.ok))
    ensures Failing(Next(s, step)) || Next(s, step).Idle?
  {
    hide AllThere, After;
  }

  /** In every run, from a callback's failure to the end of the walk no callback is running in it. */
  lemma {:induction false} FailureEndsWalk(states: seq<State>, steps: seq<Step>, t: ThreadId, j: nat, k: nat)
    requires IsRun(states, steps) && j < k < |states| && steps[j] == FunctionReturns(t, false)
    requires forall m :: j < m < k ==> t in states[m].threads && !states[m].threads[t].Idle?
    ensures t in states[k].threads && (Failing(states[k].threads[t]) || states[k].threads[t].Idle?)
  {
    hide Inv, Safe, Apply, Failing;
    var m := k - 1;
    RunInv(states, steps, m);
    StepThreads(states[m], steps[m]);
    if m == j {
      FailingStep(states[m], steps[m]);
    } else {
      FailureEndsWalk(states, steps, t, j, m);
      if steps[m].t == t {
        FailingStep(states[m], steps[m]);
      }
    }
  }

  // ----- registering and unregistering -----

  /** In every run the list is in the order in which its entries were linked. */
  lemma {:induction false} ListInOrder(states: seq<State>, steps: seq<Step>, u: ThreadId, j: nat, k: nat, a: Addr, b: Addr)
    requires IsRun(states, steps) && j < k < |states| && steps[j] == Link(u) && u in states[j].threads && states[j].threads[u] == Registering(b)
    requires forall m :: j <= m <= k ==> a in states[m].list
    requires forall m :: j < m <= k ==> b in states[m].list
    ensures Precedes(states[k].list, a, b)
  {
    hide Inv, Safe, Apply, Precedes;
    var m := k - 1;
    RunInv(states, steps, m);
    if m == j {
      LinksLast(states[j], steps[j], b);
      PrecedesLast(states[j].list, b, a);
    } else {
      ListInOrder(states, steps, u, j, m, a, b);
      OrderStays(states[m], steps[m], a, b);
    }
  }

  lemma {:induction false} LinksLast(s: State, step: Step, b: Addr)
    requires Safe(s, step) && step.Link? && s.threads[step.t] == Registering(b)
    ensures Apply(s, step).list == s.list + [b]
  {
  }

  /** The thread is removing registration `n`. */
  ghost predicate Removing(x: Thread, n: nat) {
    (x.Marked? || x.WaitLoop? || x.Waiting? || x.Unlinking? || x.Freeing?) && x.inst == n
  }

  lemma {:induction false} RemovingStep(s: State, step: Step, n: nat)
    requires Safe(s, step) && Removing(s.threads[step.t], n)
    ensures Removing(Next(s, step), n) || (Next(s, step).Idle? && n in Apply(s, step).gone)
  {
    hide AllThere, After;
  }

  lemma {:induction false} RemovingStart(s: State, step: Step, a: Addr, n: nat)
    requires Safe(s, step) && step.Unregister? && step.cookie == a
    ensures Live(s, a, n) ==> Removing(Next(s, step), n) && a in Apply(s, step).entries && Apply(s, step).entries[a].pending
    ensures (forall m :: !Live(s, a, m)) ==> Apply(s, step) == s
  {
    if forall m :: !Live(s, a, m) {
      if a in s.list {
        assert !Live(s, a, s.entries[a].inst);
      }
      assert s.threads[step.t := Idle] == s.threads;
    }
  }

  /**
    In every run, CmUnRegisterCallback for a live registration has taken it out for good when it
    returns; for a cookie without one it fails and changes nothing.
  */
  lemma {:induction false} UnregisterTakesOut(states: seq<State>, steps: seq<Step>, t: ThreadId, i: nat, k: nat, a: Addr, n: nat)
    requires IsRun(states, steps) && i < k < |states| && steps[i] == Unregister(t, a)
    requires forall m :: i < m < k ==> t in states[m].threads && !states[m].threads[t].Idle?
    ensures t in states[k].threads
    ensures Live(states[i], a, n) ==> Removing(states[k].threads[t], n) || (states[k].threads[t].Idle? && n in states[k].gone)
    ensures (forall m :: !Live(states[i], a, m)) ==> states[i + 1] == states[i]
  {
    hide Inv, Safe, Apply, Removing, Live;
    RunInv(states, steps, i);
    RemovingStart(states[i], steps[i], a, n);
    var m := k - 1;
    RunInv(states, steps, m);
    StepThreads(states[m], steps[m]);
    if m > i {
      UnregisterTakesOut(states, steps, t, i, m, a, n);
      if Live(states[i], a, n) && steps[m].t == t {
        RemovingStep(states[m], steps[m], n);
      }
    }
  }

  // ----- every operation goes on to its end -----

  /** How far a thread is from the end of its call, or of its work on one entry of the list. */
  ghost function Rank(x: Thread): nat {
    match x
    case At(_) => 7
    case Acquiring(_, _) => 6
    case Running(_, _) => 5
    case Returned(_, _, _) => 4
    case Releasing(_, _, _, _) => 3
    case Signalling(_, _, _) => 2
    case Stepping(_, _) => 1
    case Marked(_, _) => 5
    case WaitLoop(_, _, _) => 4
    case Waiting(_, _) => 3
    case Unlinking(_, _) => 2
    case Freeing(_, _) => 1
    case Registering(_) => 1
    case Idle => 0
  }

  /** The thread tries its compare-and-exchange again, because the word has changed since it read it. */
  ghost predicate Retries(s: State, x: Thread, y: Thread) {
    match x
    case Acquiring(a, value) => a in s.entries && s.entries[a].word != value && y == Acquiring(a, s.entries[a].word)
    case Releasing(a, n, value, ok) => a in s.entries && s.entries[a].word != value && y == Releasing(a, n, s.entries[a].word, ok)
    case WaitLoop(a, n, value) => a in s.entries && s.entries[a].word != value && y == WaitLoop(a, n, s.entries[a].word)
    case _ => false
  }

  /** A busy thread comes closer to the end with every step, or retries, or goes on to a later entry of the list. */
  lemma {:induction false} GoesOn(s: State, step: Step)
    requires Inv(s) && Safe(s, step) && !s.threads[step.t].Idle?
    ensures var x, y := s.threads[step.t], Next(s, step);
      || Rank(y) < Rank(x)
      || Retries(s, x, y)
      || (step.Advance? && y.At? && Precedes(s.list, x.a, y.a))
  {
    hide Inv, After, Precedes;
    if step.Advance? {
      AfterLater(s.list, s.threads[step.t].a);
    }
  }

  lemma {:induction false} AfterLater(list: seq<Addr>, a: Addr)
    ensures After(list, a).Some? ==> Precedes(list, a, After(list, a).value)
  {
    if |list| >= 2 {
      if list[0] == a {
        assert list[1] == After(list, a).value;
      } else {
        AfterLater(list[1..], a);
        if After(list, a).Some? {
          PrecedesCons(list[1..], list[0], a, After(list, a).value);
          assert [list[0]] + list[1..] == list;
        }
      }
    }
  }
}
