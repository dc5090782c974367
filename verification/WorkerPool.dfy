/**
  The cache manager's worker pool (ntoskrnl/cc/lazywrite.c): two work queues, a list of
  idle workers, a throttle, and the SetDone item that a caller waits for.
  One step of the machine is one critical section under LockQueueWorkQueueLock, or the
  unlocked handling of one item.
*/
module WorkerPool {
  import opened Common
  import opened Seqs

  datatype Work = ReadAhead | WriteBehind | LazyScan | SetDone | Ignored

  /** A work item; tickets number the items in the order in which they were posted. */
  datatype Item = Item(ticket: nat, work: Work)

  datatype Queue = ExpressQueue | RegularQueue

  type WorkerId = nat

  /** What the queue lock protects. */
  datatype Pool = Pool(express: seq<Item>, regular: seq<Item>, idle: seq<WorkerId>, active: int, throttle: bool)

  /** The outcome of a worker's look at the queues. */
  datatype Next = Run(item: Item, queue: Queue) | Leave

  // ----- the two critical sections -----

  /** CcPostWorkQueue: queue the item; wake an idle worker unless throttled. */
  function Post(p: Pool, item: Item, queue: Queue): (Pool, Option<WorkerId>) {
    var q := if queue.ExpressQueue? then p.(express := p.express + [item]) else p.(regular := p.regular + [item]);
    if !p.throttle && p.idle != [] then
      (q.(idle := p.idle[1..], active := p.active + 1), Some(p.idle[0]))
    else
      (q, None)
  }

  /** The locked part of the loop in CcWorkerThread: express work goes first. */
  function Look(p: Pool, worker: WorkerId, drop: bool): (Pool, Next) {
    var q := if drop then p.(throttle := false) else p;
    if q.express == [] && q.regular == [] then
      (Retire(q, worker), Leave)
    else
      var item := if q.express == [] then q.regular[0] else q.express[0];
      if item.work.SetDone? && q.active > 1 then
        (Retire(q.(throttle := true), worker), Leave)
      else if q.express == [] then
        (q.(regular := q.regular[1..]), Run(item, RegularQueue))
      else
        (q.(express := q.express[1..]), Run(item, ExpressQueue))
  }

  function Retire(p: Pool, worker: WorkerId): Pool {
    p.(idle := p.idle + [worker], active := p.active - 1)
  }

  /** The globals themselves, updated in place. */
  class WorkQueues {
    var express: seq<Item>
    var regular: seq<Item>
    var idle: seq<WorkerId>
    var active: int
    var throttle: bool

    function Shared(): Pool
      reads this
    {
      Pool(express, regular, idle, active, throttle)
    }

    constructor (workers: seq<WorkerId>)
      ensures Shared() == Pool([], [], workers, 0, false)
    {
      express, regular, idle, active, throttle := [], [], workers, 0, false;
    }

    method PostWorkQueue(item: Item, queue: Queue) returns (spawn: Option<WorkerId>)
      modifies this
      ensures (Shared(), spawn) == Post(old(Shared()), item, queue)
    {
      if queue.ExpressQueue? {
        express := express + [item];
      } else {
        regular := regular + [item];
      }
      spawn := None;
      if !throttle && idle != [] {
        spawn := Some(idle[0]);
        idle := idle[1..];
        active := active + 1;
      }
    }

    method WorkerLook(worker: WorkerId, drop: bool) returns (next: Next)
      modifies this
      ensures (Shared(), next) == Look(old(Shared()), worker, drop)
    {
      if drop {
        throttle := false;
      }
      if express == [] && regular == [] {
        idle, active, next := idle + [worker], active - 1, Leave;
        return;
      }
      var item := if express == [] then regular[0] else express[0];
      if item.work.SetDone? && active > 1 {
        throttle := true;
        idle, active, next := idle + [worker], active - 1, Leave;
        return;
      }
      if express == [] {
        regular, next := regular[1..], Run(item, RegularQueue);
      } else {
        express, next := express[1..], Run(item, ExpressQueue);
      }
    }
  }

  // ----- all workers together -----

  /** A worker that is not idle is about to look at the queues, or has an item in hand. */
  datatype Worker = Idle | Ready(drop: bool) | Busy(item: Item, queue: Queue)

  datatype State = State(pool: Pool, workers: map<WorkerId, Worker>,
                         next: nat, posted: set<nat>, finished: set<nat>)

  datatype Step =
    | PostStep(work: Work, queue: Queue)
    | LookStep(worker: WorkerId)
    | FinishStep(worker: WorkerId)

  ghost predicate Init(s: State) {
    && s.workers != map[]
    && (forall w :: w in s.workers ==> s.workers[w] == Idle)
    && NoDup(s.pool.idle)
    && (forall w :: w in s.pool.idle <==> w in s.workers)
    && s.pool == Pool([], [], s.pool.idle, 0, false)
    && s.next == 0 && s.posted == {} && s.finished == {}
  }

  /** SetDone items only ever go to the regular queue. */
  ghost predicate Enabled(s: State, step: Step) {
    match step
    case PostStep(work, queue) => work.SetDone? ==> queue.RegularQueue?
    case LookStep(w) => w in s.workers && s.workers[w].Ready?
    case FinishStep(w) => w in s.workers && s.workers[w].Busy?
  }

  ghost function Apply(s: State, step: Step): State
    requires Enabled(s, step)
  {
    match step
    case PostStep(work, queue) =>
      var item := Item(s.next, work);
      var (pool, spawn) := Post(s.pool, item, queue);
      s.(pool := pool,
         workers := if spawn.Some? then s.workers[spawn.value := Ready(false)] else s.workers,
         next := s.next + 1,
         posted := if queue.RegularQueue? then s.posted + {s.next} else s.posted)
    case LookStep(w) =>
      var (pool, next) := Look(s.pool, w, s.workers[w].drop);
      s.(pool := pool,
         workers := s.workers[w := if next.Run? then Busy(next.item, next.queue) else Idle])
    case FinishStep(w) =>
      var item := s.workers[w].item;
      s.(workers := s.workers[w := Ready(item.work.SetDone?)], finished := s.finished + {item.ticket})
  }

  ghost function Working(s: State): set<WorkerId> {
    set w | w in s.workers && !s.workers[w].Idle?
  }

  /** A worker that will reset the throttle at its next look. */
  ghost predicate Carries(x: Worker) {
    (x.Ready? && x.drop) || (x.Busy? && x.item.work.SetDone?)
  }

  ghost predicate Increasing(q: seq<Item>) {
    forall i, j :: 0 <= i < j < |q| ==> q[i].ticket < q[j].ticket
  }

  /** Idle list, active count and worker states agree. */
  ghost predicate Counted(s: State) {
    && s.workers != map[]
    && NoDup(s.pool.idle)
    && (forall w :: w in s.pool.idle <==> w in s.workers && s.workers[w].Idle?)
    && s.pool.active == |Working(s)|
  }

  /** Queued work is never left without a worker, and the throttle never without a cause. */
  ghost predicate NotStuck(s: State) {
    && (s.pool.express != [] || s.pool.regular != [] ==> Working(s) != {})
    && (s.pool.throttle ==>
        || (exists w :: w in s.workers && Carries(s.workers[w]))
        || (Working(s) != {} && s.pool.regular != [] && s.pool.regular[0].work.SetDone?))
  }

  ghost predicate Held(s: State, ticket: nat) {
    exists w :: w in s.workers && s.workers[w].Busy? && s.workers[w].item.ticket == ticket
  }

  /** Every regular item is queued, in hand or finished; the queue is in posting order. */
  ghost predicate Tracked(s: State) {
    && Increasing(s.pool.regular)
    && (forall i :: 0 <= i < |s.pool.regular| ==> s.pool.regular[i].ticket in s.posted)
    && (forall t :: t in s.posted ==> t < s.next)
    && (forall t :: t in s.posted ==>
        || t in s.finished
        || Held(s, t)
        || (exists i :: 0 <= i < |s.pool.regular| && s.pool.regular[i].ticket == t))
    && (forall i :: 0 <= i < |s.pool.express| ==> !s.pool.express[i].work.SetDone?)
  }

  ghost predicate Inv(s: State) {
    Counted(s) && NotStuck(s) && Tracked(s)
  }

  // ----- cardinality of the working set -----

  lemma {:induction false} WorkingJoin(s: State, t: State, w: WorkerId)
    requires w in s.workers && s.workers[w].Idle?
    requires w in t.workers && t.workers == s.workers[w := t.workers[w]] && !t.workers[w].Idle?
    ensures |Working(t)| == |Working(s)| + 1
  {
    assert Working(t) == Working(s) + {w};
  }

  lemma {:induction false} WorkingLeave(s: State, t: State, w: WorkerId)
    requires w in s.workers && !s.workers[w].Idle?
    requires t.workers == s.workers[w := Idle]
    ensures |Working(t)| == |Working(s)| - 1
  {
    assert Working(s) == Working(t) + {w} && w !in Working(t);
  }

  lemma {:induction false} WorkingStay(s: State, t: State, w: WorkerId)
    requires w in s.workers && !s.workers[w].Idle?
    requires w in t.workers && t.workers == s.workers[w := t.workers[w]] && !t.workers[w].Idle?
    ensures Working(t) == Working(s)
  {
  }

  // ----- the invariant over every run -----

  lemma {:induction false} InitInv(s: State)
    requires Init(s)
    ensures Inv(s)
  {
    assert Working(s) == {};
  }

  lemma {:induction false} PostInv(s: State, work: Work, queue: Queue)
    requires Inv(s) && Enabled(s, PostStep(work, queue))
    ensures Inv(Apply(s, PostStep(work, queue)))
  {
    var step := PostStep(work, queue);
    var t := Apply(s, step);
    var item := Item(s.next, work);
    if !s.pool.throttle && s.pool.idle != [] {
      var w := s.pool.idle[0];
      assert w in s.pool.idle && w !in s.pool.idle[1..];
      WorkingJoin(s, t, w);
      assert w in Working(t);
    } else {
      assert Working(t) == Working(s);
      if s.pool.idle == [] {
        var w :| w in s.workers;
        assert w in Working(s);
      }
    }
    PostTracked(s, t, item, queue);
    assert NotStuck(t) by {
      if s.pool.throttle {
        assert t.workers == s.workers;
        if w :| w in s.workers && Carries(s.workers[w]) {
          assert w in Working(t);
        } else {
          assert t.pool.regular[0] == s.pool.regular[0];
        }
      }
    }
  }

  lemma {:induction false} PostTracked(s: State, t: State, item: Item, queue: Queue)
    requires Tracked(s) && item.ticket == s.next && (item.work.SetDone? ==> queue.RegularQueue?)
    requires t.finished == s.finished && t.next == s.next + 1
    requires forall w :: w in s.workers && s.workers[w].Busy? ==> w in t.workers && t.workers[w] == s.workers[w]
    requires if queue.ExpressQueue?
      then t.pool.regular == s.pool.regular && t.pool.express == s.pool.express + [item] && t.posted == s.posted
      else t.pool.regular == s.pool.regular + [item] && t.pool.express == s.pool.express && t.posted == s.posted + {s.next}
    ensures Tracked(t)
  {
    forall u | u in t.posted
      ensures u in t.finished || Held(t, u) || (exists i :: 0 <= i < |t.pool.regular| && t.pool.regular[i].ticket == u)
    {
      if u == s.next {
        assert t.pool.regular[|t.pool.regular| - 1].ticket == u;
      } else if Held(s, u) {
        var w :| w in s.workers && s.workers[w].Busy? && s.workers[w].item.ticket == u;
        assert t.workers[w] == s.workers[w];
      } else if u !in s.finished {
        var i :| 0 <= i < |s.pool.regular| && s.pool.regular[i].ticket == u;
        assert t.pool.regular[i] == s.pool.regular[i];
      }
    }
  }

  lemma {:induction false} FinishInv(s: State, w: WorkerId)
    requires Inv(s) && Enabled(s, FinishStep(w))
    ensures Inv(Apply(s, FinishStep(w)))
  {
    var step := FinishStep(w);
    var t := Apply(s, step);
    WorkingStay(s, t, w);
    if c :| c in s.workers && Carries(s.workers[c]) {
      assert Carries(t.workers[c]);
    }
    forall u | u in t.posted
      ensures u in t.finished || Held(t, u) || (exists i :: 0 <= i < |t.pool.regular| && t.pool.regular[i].ticket == u)
    {
      if u !in t.finished && Held(s, u) {
        var x :| x in s.workers && s.workers[x].Busy? && s.workers[x].item.ticket == u;
        assert t.workers[x] == s.workers[x];
      }
    }
  }

  lemma {:induction false} LookInv(s: State, w: WorkerId)
    requires Inv(s) && Enabled(s, LookStep(w))
    ensures Inv(Apply(s, LookStep(w)))
  {
    var step := LookStep(w);
    var t := Apply(s, step);
    var (pool, next) := Look(s.pool, w, s.workers[w].drop);
    if next.Run? {
      WorkingStay(s, t, w);
    } else {
      NoDupAppend(s.pool.idle, w);
      WorkingLeave(s, t, w);
    }
    LookNotStuck(s, w);
    LookTracked(s, w);
  }

  lemma {:induction false} LookNotStuck(s: State, w: WorkerId)
    requires Inv(s) && Enabled(s, LookStep(w))
    ensures NotStuck(Apply(s, LookStep(w)))
  {
    var step := LookStep(w);
    var t := Apply(s, step);
    var (pool, next) := Look(s.pool, w, s.workers[w].drop);
    if next.Run? {
      WorkingStay(s, t, w);
      assert w in Working(t);
    } else {
      WorkingLeave(s, t, w);
    }
    if t.pool.throttle && next.Run? {
      if c :| c in s.workers && Carries(s.workers[c]) {
        assert Carries(t.workers[c]);
      } else if next.queue.RegularQueue? {
        assert Carries(t.workers[w]);
      }
    } else if t.pool.throttle && s.pool.throttle && !s.workers[w].drop && pool.express == [] && pool.regular == [] {
      var c :| c in s.workers && Carries(s.workers[c]);
      assert Carries(t.workers[c]);
    }
  }

  lemma {:induction false} LookTracked(s: State, w: WorkerId)
    requires Tracked(s) && Enabled(s, LookStep(w))
    ensures Tracked(Apply(s, LookStep(w)))
  {
    hide Held;
    var t := Apply(s, LookStep(w));
    forall u | u in t.posted
      ensures u in t.finished || Held(t, u) || (exists i :: 0 <= i < |t.pool.regular| && t.pool.regular[i].ticket == u)
    {
      LookTracksOne(s, w, u);
    }
  }

  lemma {:induction false} LookTracksOne(s: State, w: WorkerId, u: nat)
    requires Enabled(s, LookStep(w))
    requires u in s.finished || Held(s, u) || exists i :: 0 <= i < |s.pool.regular| && s.pool.regular[i].ticket == u
    ensures var t := Apply(s, LookStep(w));
      u in t.finished || Held(t, u) || exists i :: 0 <= i < |t.pool.regular| && t.pool.regular[i].ticket == u
  {
    var t := Apply(s, LookStep(w));
    var (pool, next) := Look(s.pool, w, s.workers[w].drop);
    if Held(s, u) {
      var x :| x in s.workers && s.workers[x].Busy? && s.workers[x].item.ticket == u;
      assert t.workers[x] == s.workers[x];
    } else if u !in s.finished {
      var i :| 0 <= i < |s.pool.regular| && s.pool.regular[i].ticket == u;
      if next.Run? && next.queue.RegularQueue? {
        if i == 0 {
          assert t.workers[w].item.ticket == u;
        } else {
          assert t.pool.regular[i - 1] == s.pool.regular[i];
        }
      } else {
        assert t.pool.regular[i] == s.pool.regular[i];
      }
    }
  }

  lemma {:induction false} StepInv(s: State, step: Step)
    requires Inv(s) && Enabled(s, step)
    ensures Inv(Apply(s, step))
  {
    match step
    case PostStep(work, queue) => PostInv(s, work, queue);
    case LookStep(w) => LookInv(s, w);
    case FinishStep(w) => FinishInv(s, w);
  }

  /** A run of the pool: any interleaving of posts and of the workers' steps. */
  ghost predicate IsRun(states: seq<State>, steps: seq<Step>) {
    && |states| == |steps| + 1
    && Init(states[0])
    && forall i :: 0 <= i < |steps| ==> Enabled(states[i], steps[i]) && states[i + 1] == Apply(states[i], steps[i])
  }

  lemma {:induction false} RunInv(states: seq<State>, steps: seq<Step>, k: nat)
    requires IsRun(states, steps) && k < |states|
    ensures Inv(states[k])
  {
    if k == 0 {
      InitInv(states[0]);
    } else {
      RunInv(states, steps, k - 1);
      StepInv(states[k - 1], steps[k - 1]);
    }
  }

  /**
    SetDone is a barrier: in every run, a worker takes a SetDone item only while all the
    other workers are idle, and only when every item posted to the regular queue before
    it has been finished.
  */
  lemma {:induction false} SetDoneIsBarrier(states: seq<State>, steps: seq<Step>, k: nat, w: WorkerId)
    requires IsRun(states, steps) && k < |steps| && steps[k] == LookStep(w)
    requires var x := states[k + 1].workers[w]; x.Busy? && x.item.work.SetDone?
    ensures forall v :: v in states[k].workers && v != w ==> states[k].workers[v].Idle?
    ensures states[k + 1].workers[w].queue.RegularQueue?
    ensures forall t :: t in states[k].posted && t < states[k + 1].workers[w].item.ticket ==> t in states[k].finished
  {
    RunInv(states, steps, k);
    BarrierStep(states[k], w);
  }

  lemma {:induction false} BarrierStep(s: State, w: WorkerId)
    requires Inv(s) && Enabled(s, LookStep(w))
    requires var x := Apply(s, LookStep(w)).workers[w]; x.Busy? && x.item.work.SetDone?
    ensures forall v :: v in s.workers && v != w ==> s.workers[v].Idle?
    ensures var x := Apply(s, LookStep(w)).workers[w];
      x.queue.RegularQueue? && forall t :: t in s.posted && t < x.item.ticket ==> t in s.finished
  {
    var item := Apply(s, LookStep(w)).workers[w].item;
    assert |Working(s)| <= 1 && w in Working(s);
    forall v | v in s.workers && v != w ensures s.workers[v].Idle? {
      if !s.workers[v].Idle? {
        assert {v, w} <= Working(s);
        SubsetSize({v, w}, Working(s));
      }
    }
    forall t | t in s.posted && t < item.ticket ensures t in s.finished {
      assert !Held(s, t);
    }
  }

  /**
    No work is stuck: in every reachable state in which no worker can move, both queues
    are empty, the throttle is off and all workers are idle.
  */
  lemma {:induction false} NoStuckWork(states: seq<State>, steps: seq<Step>, k: nat)
    requires IsRun(states, steps) && k < |states|
    requires forall w :: !Enabled(states[k], LookStep(w)) && !Enabled(states[k], FinishStep(w))
    ensures var p := states[k].pool;
      p.express == [] && p.regular == [] && !p.throttle && p.active == 0 && |p.idle| == |states[k].workers|
  {
    RunInv(states, steps, k);
    var s := states[k];
    assert Working(s) == {} by {
      forall w | w in s.workers ensures s.workers[w].Idle? {
        assert !Enabled(s, LookStep(w)) && !Enabled(s, FinishStep(w));
      }
    }
    assert !s.pool.throttle by {
      if c :| c in s.workers && Carries(s.workers[c]) {
        assert c in Working(s);
      }
    }
    IdlePlusActive(s);
  }

  /** Idle and active workers together are all the workers there are. */
  lemma {:induction false} IdlePlusActive(s: State)
    requires Counted(s)
    ensures |s.pool.idle| + s.pool.active == |s.workers|
  {
    MembersSize(s.pool.idle);
    assert s.workers.Keys == Members(s.pool.idle) + Working(s) && Members(s.pool.idle) !! Working(s);
    assert |s.workers| == |s.workers.Keys|;
  }

  ghost function Members(q: seq<WorkerId>): set<WorkerId> {
    set w | w in q
  }

  lemma {:induction false} MembersSize(q: seq<WorkerId>)
    requires NoDup(q)
    ensures |Members(q)| == |q|
  {
    if q == [] {
      assert Members(q) == {};
    } else {
      var rest := q[1..];
      MembersSize(rest);
      assert q[0] !in rest;
      assert Members(q) == Members(rest) + {q[0]};
    }
  }

  /** What the workers still have to do. */
  ghost function Backlog(s: State): nat {
    3 * (|s.pool.express| + |s.pool.regular|) + 2 * |Occupied(s)| + |Looking(s)|
  }

  ghost function Occupied(s: State): set<WorkerId> {
    set w | w in s.workers && s.workers[w].Busy?
  }

  ghost function Looking(s: State): set<WorkerId> {
    set w | w in s.workers && s.workers[w].Ready?
  }

  lemma {:induction false} LookBacklog(s: State, w: WorkerId)
    requires Enabled(s, LookStep(w))
    ensures var t := Apply(s, LookStep(w));
      && |t.pool.express| + |t.pool.regular| == |s.pool.express| + |s.pool.regular| - |Occupied(t)| + |Occupied(s)|
      && 0 <= |Occupied(t)| - |Occupied(s)| <= 1
      && |Looking(t)| == |Looking(s)| - 1
  {
    var t := Apply(s, LookStep(w));
    assert Looking(s) == Looking(t) + {w} && w !in Looking(t);
    if t.workers[w].Busy? {
      assert Occupied(t) == Occupied(s) + {w} && w !in Occupied(s);
    } else {
      assert Occupied(t) == Occupied(s);
    }
  }

  /** Every step of a worker reduces the backlog. */
  lemma {:induction false} WorkersDrain(s: State, step: Step)
    requires Enabled(s, step) && !step.PostStep?
    ensures Backlog(Apply(s, step)) < Backlog(s)
  {
    if step.LookStep? {
      LookBacklog(s, step.worker);
    } else {
      var t, w := Apply(s, step), step.worker;
      assert Occupied(s) == Occupied(t) + {w} && w !in Occupied(t);
      assert Looking(t) == Looking(s) + {w} && w !in Looking(s);
    }
  }

  /** So without new posts the pool comes to rest, after at most `Backlog` steps. */
  lemma {:induction false} QuietPoolRests(states: seq<State>, steps: seq<Step>)
    requires |states| == |steps| + 1
    requires forall i :: 0 <= i < |steps| ==>
      !steps[i].PostStep? && Enabled(states[i], steps[i]) && states[i + 1] == Apply(states[i], steps[i])
    ensures |steps| + Backlog(states[|steps|]) <= Backlog(states[0])
  {
    if steps != [] {
      var n := |steps| - 1;
      QuietPoolRests(states[..n + 1], steps[..n]);
      WorkersDrain(states[n], steps[n]);
    }
  }

  // ----- every item runs once, in order, and as it was posted -----

  function QueueOf(p: Pool, queue: Queue): seq<Item> {
    if queue.ExpressQueue? then p.express else p.regular
  }

  ghost function Times(q: seq<Item>, n: nat): nat {
    if q == [] then 0 else (if q[0].ticket == n then 1 else 0) + Times(q[1..], n)
  }

  lemma {:induction false} TimesSnoc(q: seq<Item>, x: Item, n: nat)
    ensures Times(q + [x], n) == Times(q, n) + (if x.ticket == n then 1 else 0)
  {
    if q == [] {
      assert q + [x] == [x] && [x][1..] == [];
    } else {
      assert (q + [x])[1..] == q[1..] + [x];
      TimesSnoc(q[1..], x, n);
    }
  }

  /** The workers that have the item with this ticket in hand. */
  ghost function Handlers(s: State, n: nat): set<WorkerId> {
    set w | w in s.workers && s.workers[w].Busy? && s.workers[w].item.ticket == n
  }

  /** A posted item is finished, in the hands of one worker, or in one queue once; nothing else is anywhere. */
  ghost predicate OnePlace(s: State, n: nat) {
    (if n in s.finished then 1 else 0) + |Handlers(s, n)| + Times(s.pool.express, n) + Times(s.pool.regular, n)
    == if n < s.next then 1 else 0
  }

  lemma {:induction false} PostPlace(s: State, work: Work, queue: Queue, n: nat)
    requires Counted(s) && Enabled(s, PostStep(work, queue)) && OnePlace(s, n)
    ensures OnePlace(Apply(s, PostStep(work, queue)), n)
  {
    var t := Apply(s, PostStep(work, queue));
    assert Handlers(t, n) == Handlers(s, n);
    TimesSnoc(s.pool.express, Item(s.next, work), n);
    TimesSnoc(s.pool.regular, Item(s.next, work), n);
  }

  lemma {:induction false} LookPlace(s: State, w: WorkerId, n: nat)
    requires Enabled(s, LookStep(w)) && OnePlace(s, n)
    ensures OnePlace(Apply(s, LookStep(w)), n)
  {
    var t := Apply(s, LookStep(w));
    SetSwap(Handlers(s, n), Handlers(t, n), w);
  }

  lemma {:induction false} FinishPlace(s: State, w: WorkerId, n: nat)
    requires Enabled(s, FinishStep(w)) && OnePlace(s, n)
    ensures OnePlace(Apply(s, FinishStep(w)), n)
  {
    var t := Apply(s, FinishStep(w));
    SetSwap(Handlers(s, n), Handlers(t, n), w);
    assert s.workers[w].item.ticket == n ==> w in Handlers(s, n) && |Handlers(s, n)| > 0;
  }

  /**
    In every state of every run each item that was posted, to either queue, is finished, in the
    hands of exactly one worker, or queued exactly once: none is lost and none runs twice.
  */
  lemma {:induction false} RunsOnce(states: seq<State>, steps: seq<Step>, k: nat, n: nat)
    requires IsRun(states, steps) && k < |states|
    ensures OnePlace(states[k], n)
  {
    hide Apply, Inv;
    if k == 0 {
      assert Handlers(states[0], n) == {};
    } else {
      var i := k - 1;
      RunsOnce(states, steps, i, n);
      RunInv(states, steps, i);
      InvCounted(states[i]);
      match steps[i]
      case PostStep(work, queue) => PostPlace(states[i], work, queue, n);
      case LookStep(w) => LookPlace(states[i], w, n);
      case FinishStep(w) => FinishPlace(states[i], w, n);
    }
  }

  lemma {:induction false} InvCounted(s: State)
    requires Inv(s)
    ensures Counted(s)
  {
  }

  /** Where no worker can move, every item that was ever posted has been finished. */
  lemma {:induction false} AllFinished(states: seq<State>, steps: seq<Step>, k: nat, n: nat)
    requires IsRun(states, steps) && k < |states| && n < states[k].next
    requires forall w :: !Enabled(states[k], LookStep(w)) && !Enabled(states[k], FinishStep(w))
    ensures n in states[k].finished
  {
    var s := states[k];
    NoStuckWork(states, steps, k);
    RunsOnce(states, steps, k, n);
    forall w ensures w !in Handlers(s, n) {
      assert !Enabled(s, FinishStep(w));
    }
    assert Handlers(s, n) == {};
  }

  /** Later than ticket `n`: everything in the queue and everything still to be posted. */
  ghost predicate Above(s: State, queue: Queue, n: nat) {
    n < s.next && Between(QueueOf(s.pool, queue), n, s.next)
  }

  /** In posting order, with tickets above `low` and below `high`. */
  ghost predicate Between(q: seq<Item>, low: int, high: int) {
    Increasing(q) && forall i :: 0 <= i < |q| ==> low < q[i].ticket < high
  }

  lemma {:induction false} BetweenAppend(q: seq<Item>, low: int, high: int, item: Item)
    requires Between(q, low, high) && low < high && item.ticket == high
    ensures Between(q + [item], low, high + 1)
  {
  }

  lemma {:induction false} BetweenTail(q: seq<Item>, low: int, high: int)
    requires Between(q, low, high) && q != []
    ensures Between(q[1..], low, high) && Between(q[1..], q[0].ticket, high) && low < q[0].ticket < high
  {
  }

  lemma {:induction false} BetweenLater(q: seq<Item>, low: int, high: int, later: int)
    requires Between(q, low, high) && high <= later
    ensures Between(q, low, later)
  {
  }

  lemma {:induction false} BetweenStep(s: State, step: Step, queue: Queue, low: int)
    requires Enabled(s, step) && Between(QueueOf(s.pool, queue), low, s.next) && low < s.next
    ensures Between(QueueOf(Apply(s, step).pool, queue), low, Apply(s, step).next) && s.next <= Apply(s, step).next
  {
    hide Apply, Between, QueueOf;
    StepQueues(s, step, queue);
    var t, q := Apply(s, step), QueueOf(s.pool, queue);
    if q != [] && QueueOf(t.pool, queue) == q[1..] {
      BetweenTail(q, low, s.next);
    } else if t.next == s.next + 1 && exists work :: QueueOf(t.pool, queue) == q + [Item(s.next, work)] {
      var work :| QueueOf(t.pool, queue) == q + [Item(s.next, work)];
      BetweenAppend(q, low, s.next, Item(s.next, work));
    }
    if QueueOf(t.pool, queue) == q {
      BetweenLater(q, low, s.next, t.next);
    } else if q != [] && QueueOf(t.pool, queue) == q[1..] {
      BetweenLater(q[1..], low, s.next, t.next);
    }
  }

  /** A step leaves a queue alone, or appends the next ticket, or takes the head off. */
  lemma {:induction false} StepQueues(s: State, step: Step, queue: Queue)
    requires Enabled(s, step)
    ensures var t, q := Apply(s, step), QueueOf(s.pool, queue);
      || (QueueOf(t.pool, queue) == q && s.next <= t.next)
      || (t.next == s.next + 1 && exists work :: QueueOf(t.pool, queue) == q + [Item(s.next, work)])
      || (t.next == s.next && q != [] && QueueOf(t.pool, queue) == q[1..])
  {
    if step.PostStep? {
      var item := Item(s.next, step.work);
      assert step.queue == queue ==> QueueOf(Apply(s, step).pool, queue) == QueueOf(s.pool, queue) + [item];
    }
  }

  lemma {:induction false} RunLined(states: seq<State>, steps: seq<Step>, k: nat, queue: Queue)
    requires IsRun(states, steps) && k < |states|
    ensures Between(QueueOf(states[k].pool, queue), -1, states[k].next)
  {
    hide Apply;
    if k > 0 {
      RunLined(states, steps, k - 1, queue);
      BetweenStep(states[k - 1], steps[k - 1], queue, -1);
    }
  }

  lemma {:induction false} RunAbove(states: seq<State>, steps: seq<Step>, i: nat, k: nat, queue: Queue, n: nat)
    requires IsRun(states, steps) && i <= k < |states| && Above(states[i], queue, n)
    ensures Above(states[k], queue, n)
  {
    hide Apply, Between, QueueOf;
    if i < k {
      RunAbove(states, steps, i, k - 1, queue, n);
      BetweenStep(states[k - 1], steps[k - 1], queue, n);
    }
  }

  /** The worker takes an item from the queue in this step. */
  ghost predicate Takes(states: seq<State>, steps: seq<Step>, i: nat, w: WorkerId, item: Item, queue: Queue)
    requires |states| == |steps| + 1
  {
    i < |steps| && steps[i] == LookStep(w) && w in states[i + 1].workers && states[i + 1].workers[w] == Busy(item, queue)
  }

  lemma {:induction false} TakesHead(states: seq<State>, steps: seq<Step>, i: nat, w: WorkerId, item: Item, queue: Queue)
    requires IsRun(states, steps) && Takes(states, steps, i, w, item, queue)
    ensures QueueOf(states[i].pool, queue) != [] && item == QueueOf(states[i].pool, queue)[0]
    ensures QueueOf(states[i + 1].pool, queue) == QueueOf(states[i].pool, queue)[1..]
    ensures queue.RegularQueue? ==> states[i].pool.express == []
  {
  }

  /**
    In every run the items of one queue are taken in the order in which they were posted, and a
    regular item only while there is no express item.
  */
  lemma {:induction false} TakenInOrder(states: seq<State>, steps: seq<Step>, i: nat, j: nat,
                                        v: WorkerId, w: WorkerId, a: Item, b: Item, queue: Queue)
    requires IsRun(states, steps) && i < j
    requires Takes(states, steps, i, v, a, queue) && Takes(states, steps, j, w, b, queue)
    ensures a.ticket < b.ticket
    ensures queue.RegularQueue? ==> states[i].pool.express == []
  {
    hide Apply, Init, Above;
    TakesHead(states, steps, i, v, a, queue);
    TakesHead(states, steps, j, w, b, queue);
    TakenAbove(states, steps, i, v, a, queue);
    RunAbove(states, steps, i + 1, j, queue, a.ticket);
    AboveHead(states[j], queue, a.ticket);
  }

  lemma {:induction false} AboveHead(s: State, queue: Queue, n: nat)
    requires Above(s, queue, n) && QueueOf(s.pool, queue) != []
    ensures n < QueueOf(s.pool, queue)[0].ticket
  {
  }

  lemma {:induction false} TakenAbove(states: seq<State>, steps: seq<Step>, i: nat, v: WorkerId, a: Item, queue: Queue)
    requires IsRun(states, steps) && Takes(states, steps, i, v, a, queue)
    ensures Above(states[i + 1], queue, a.ticket)
  {
    hide Between, QueueOf;
    TakesHead(states, steps, i, v, a, queue);
    RunLined(states, steps, i, queue);
    BetweenTail(QueueOf(states[i].pool, queue), -1, states[i].next);
    StepQueues(states[i], steps[i], queue);
    assert states[i + 1].next == states[i].next;
  }

  /** The item was posted with this work to this queue, before state `k`. */
  ghost predicate Posted(states: seq<State>, steps: seq<Step>, k: nat, item: Item, queue: Queue)
    requires |states| == |steps| + 1
  {
    exists i :: 0 <= i < k && i < |steps| && steps[i] == PostStep(item.work, queue) && states[i].next == item.ticket
  }

  ghost predicate Present(s: State, item: Item, queue: Queue) {
    item in QueueOf(s.pool, queue) || exists w :: w in s.workers && s.workers[w] == Busy(item, queue)
  }

  lemma {:induction false} PresentBefore(s: State, step: Step, item: Item, queue: Queue)
    requires Counted(s) && Enabled(s, step) && Present(Apply(s, step), item, queue)
    ensures Present(s, item, queue) || (step == PostStep(item.work, queue) && s.next == item.ticket)
  {
    var t := Apply(s, step);
    if w :| w in t.workers && t.workers[w] == Busy(item, queue) {
      assert step == LookStep(w) || (w in s.workers && s.workers[w] == t.workers[w]);
    }
  }

  /** In every run the work that a worker has in hand is what was posted, with its ticket, to that queue. */
  lemma {:induction false} AsPosted(states: seq<State>, steps: seq<Step>, k: nat, item: Item, queue: Queue)
    requires IsRun(states, steps) && k < |states| && Present(states[k], item, queue)
    ensures Posted(states, steps, k, item, queue)
  {
    hide Apply, Inv, Present;
    if k == 0 {
      NothingPresent(states[0], item, queue);
    } else {
      var i := k - 1;
      RunInv(states, steps, i);
      InvCounted(states[i]);
      PresentBefore(states[i], steps[i], item, queue);
      if Present(states[i], item, queue) {
        AsPosted(states, steps, i, item, queue);
      }
    }
  }

  lemma {:induction false} NothingPresent(s: State, item: Item, queue: Queue)
    requires Init(s)
    ensures !Present(s, item, queue)
  {
  }

  /** A post that is not throttled puts one more worker to work, if there is an idle one. */
  lemma {:induction false} PostWakes(s: State, work: Work, queue: Queue)
    requires Counted(s) && Enabled(s, PostStep(work, queue))
    ensures |Working(Apply(s, PostStep(work, queue)))| ==
              |Working(s)| + (if !s.pool.throttle && Working(s) != s.workers.Keys then 1 else 0)
  {
    var t := Apply(s, PostStep(work, queue));
    if s.pool.idle != [] {
      var w := s.pool.idle[0];
      assert w in s.pool.idle && w !in Working(s);
      if !s.pool.throttle {
        WorkingJoin(s, t, w);
      } else {
        assert Working(t) == Working(s);
      }
    } else {
      assert Working(t) == Working(s);
      forall w | w in s.workers ensures w in Working(s) {
        assert w !in s.pool.idle;
      }
      assert Working(s) == s.workers.Keys;
    }
  }

  // ----- the throttle -----

  /** A worker that finds a SetDone item while others are at work turns the throttle on and rests. */
  lemma {:induction false} SetDoneThrottles(s: State, w: WorkerId)
    requires Counted(s) && Enabled(s, LookStep(w)) && s.pool.express == [] && s.pool.regular != []
    requires s.pool.regular[0].work.SetDone? && Working(s) != {w}
    ensures var t := Apply(s, LookStep(w));
      t.pool.throttle && t.workers[w].Idle? && t.pool.regular == s.pool.regular && t.pool.express == []
  {
    assert w in Working(s);
    var v :| v in Working(s) && v != w;
    assert {v, w} <= Working(s);
    SubsetSize({v, w}, Working(s));
  }

  /** The worker has just finished a SetDone item, in step `j`, and has not looked at the queues since. */
  ghost predicate HasSetDone(states: seq<State>, steps: seq<Step>, k: nat, w: WorkerId, j: nat)
    requires |states| == |steps| + 1 && k < |states|
  {
    && j < k && steps[j] == FinishStep(w) && w in states[j].workers && states[j].workers[w].Busy? && states[j].workers[w].item.work.SetDone?
    && forall m :: j < m <= k ==> w in states[m].workers && states[m].workers[w].Ready?
  }

  lemma {:induction false} DropsAfterSetDone(states: seq<State>, steps: seq<Step>, k: nat, w: WorkerId) returns (j: nat)
    requires IsRun(states, steps) && k < |states| && w in states[k].workers && states[k].workers[w] == Ready(true)
    ensures HasSetDone(states, steps, k, w, j)
  {
    hide Look, Post;
    var i := k - 1;
    if steps[i] == FinishStep(w) {
      j := i;
    } else {
      RunInv(states, steps, i);
      assert w in states[i].workers && states[i].workers[w] == Ready(true) by {
        StaysReady(states[i], steps[i], w);
      }
      j := DropsAfterSetDone(states, steps, i, w);
    }
  }

  lemma {:induction false} StaysReady(s: State, step: Step, w: WorkerId)
    requires Inv(s) && Enabled(s, step) && step != FinishStep(w) && w in Apply(s, step).workers && Apply(s, step).workers[w] == Ready(true)
    ensures w in s.workers && s.workers[w] == Ready(true)
  {
    hide NotStuck, Tracked;
  }

  /**
    In every run the throttle goes off only when the worker that has finished a SetDone item looks
    at the queues again; until then posts wake nobody.
  */
  lemma {:induction false} ThrottleLasts(states: seq<State>, steps: seq<Step>, k: nat) returns (w: WorkerId, j: nat)
    requires IsRun(states, steps) && k < |steps| && states[k].pool.throttle && !states[k + 1].pool.throttle
    ensures steps[k] == LookStep(w) && HasSetDone(states, steps, k, w, j)
  {
    w := ThrottleDropper(states[k], steps[k]);
    j := DropsAfterSetDone(states, steps, k, w);
  }

  lemma {:induction false} ThrottleDropper(s: State, step: Step) returns (w: WorkerId)
    requires Enabled(s, step) && s.pool.throttle && !Apply(s, step).pool.throttle
    ensures step == LookStep(w) && w in s.workers && s.workers[w] == Ready(true)
  {
    w := step.worker;
  }

  /** Workers are woken in the order in which they went to rest. */
  lemma {:induction false} IdleInOrder(s: State, step: Step)
    requires Enabled(s, step)
    ensures var idle := Apply(s, step).pool.idle;
      match step
      case PostStep(_, _) => idle == if s.pool.throttle || s.pool.idle == [] then s.pool.idle else s.pool.idle[1..]
      case LookStep(w) => idle == if Apply(s, step).workers[w].Idle? then s.pool.idle + [w] else s.pool.idle
      case FinishStep(_) => idle == s.pool.idle
  {
  }
}
