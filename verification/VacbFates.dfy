/**
  What becomes of every write, and which views threads get and lose, over the runs of
  VacbProtocol (ntoskrnl/cc/view.c, ntoskrnl/cc/copy.c).
*/
module VacbFates {
  import opened Common
  import opened Seqs
  import opened VacbList
  import opened VacbProtocol

  // ----- every write -----

  /** The step copies bytes into a view that its thread holds; `w` is that write. */
  ghost predicate Makes(s: State, step: Step, w: Write) {
    && step.WriteData? && step.t in s.threads && (s.threads[step.t].Holding? || s.threads[step.t].Wrote?)
    && InChunk(s, s.threads[step.t].v, w) && w.id == s.writes
  }

  /** The step puts the write on disk or gives it up. */
  ghost predicate Ends(s: State, step: Step, w: Write) {
    WritesOut(s, step, w) || GivesUp(s, step, w)
  }

  lemma {:induction false} MadeUnflushed(s: State, step: Step, w: Write)
    requires Safe(s, step) && Makes(s, step, w)
    ensures w in Apply(s, step).unflushed && w.id < Apply(s, step).writes
  {
  }

  /** An unflushed write stays so exactly until a step ends it. */
  lemma {:induction false} StepEnds(s: State, step: Step, w: Write)
    requires Safe(s, step) && w in s.unflushed
    ensures w in Apply(s, step).unflushed <==> !Ends(s, step, w)
  {
    hide Without, ListOf, FindView, Inserted, Next, Elsewhere, Apply, WritesOut, GivesUp;
    UnflushedAfter(s, step);
    match step {
      case Purge(_, _) => EndsByDropper(s, step, w);
      case FreePrivate(_, _, _) => EndsByDropper(s, step, w);
      case WriteFails(_) => EndsByFailure(s, step, w);
      case _ => EndsByOther(s, step, w);
    }
  }

  lemma {:induction false} UnflushedAfter(s: State, step: Step)
    requires Safe(s, step)
    ensures Apply(s, step).unflushed == Shared(s, step).unflushed && Apply(s, step).discarded == Shared(s, step).discarded
  {
    hide Shared, Next;
  }

  lemma {:induction false} EndsByDropper(s: State, step: Step, w: Write)
    requires Safe(s, step) && w in s.unflushed && (step.Purge? || step.FreePrivate?)
    ensures w in Shared(s, step).unflushed <==> !Ends(s, step, w)
  {
    hide Without, ListOf, Elsewhere;
  }

  lemma {:induction false} EndsByFailure(s: State, step: Step, w: Write)
    requires Safe(s, step) && w in s.unflushed && step.WriteFails?
    ensures w in Shared(s, step).unflushed <==> !Ends(s, step, w)
  {
    hide Elsewhere;
  }

  lemma {:induction false} EndsByOther(s: State, step: Step, w: Write)
    requires Safe(s, step) && w in s.unflushed && !step.Purge? && !step.FreePrivate? && !step.WriteFails?
    ensures w in Shared(s, step).unflushed <==> !Ends(s, step, w)
  {
    hide Without, ListOf, FindView, Inserted, Elsewhere;
  }

  lemma {:induction false} NotMadeAgain(s: State, step: Step, w: Write)
    requires Safe(s, step) && w !in s.unflushed && w.id < s.writes
    ensures w !in Apply(s, step).unflushed
  {
    hide Apply, Shared, Next;
    WritesAfter(s, step);
  }

  /** Only WriteData makes a write, the one with the next number. */
  lemma {:induction false} WritesAfter(s: State, step: Step)
    requires Safe(s, step)
    ensures Apply(s, step).writes == s.writes + (if step.WriteData? then 1 else 0)
    ensures forall w :: w in Apply(s, step).unflushed ==> w in s.unflushed || (step.WriteData? && w.id == s.writes)
  {
    hide Without, ListOf, FindView, Inserted, Next, Elsewhere, ChunkWrites, Forgotten;
  }

  lemma {:induction false} IdsBelow(states: seq<State>, steps: seq<Step>, i: nat, j: nat, w: Write)
    requires IsRun(states, steps) && i < j < |states| && Makes(states[i], steps[i], w)
    ensures w.id < states[j].writes
  {
    hide Inv, Safe, Apply;
    RunInv(states, steps, j - 1);
    if i < j - 1 {
      IdsBelow(states, steps, i, j - 1, w);
      WritesAfter(states[j - 1], steps[j - 1]);
    } else {
      MadeUnflushed(states[i], steps[i], w);
    }
  }

  /**
    In every run, a write is unflushed data from the step that makes it, whether its view was
    clean or dirty, until a step puts it on disk or gives it up, and not after that; all that
    time it belongs to a dirty VACB or to a thread that will see to it.
  */
  lemma {:induction false} WriteFate(states: seq<State>, steps: seq<Step>, i: nat, j: nat, w: Write)
    requires IsRun(states, steps) && i < j < |states| && Makes(states[i], steps[i], w)
    ensures w in states[j].unflushed <==> forall k :: i < k < j ==> !Ends(states[k], steps[k], w)
    ensures w in states[j].unflushed ==> Covered(states[j], w)
  {
    hide ListsInv, CountInv, ThreadInv, Covered, Safe, Apply, Goes, Init, Ends, Makes;
    RunInv(states, steps, j);
    var m := j - 1;
    RunInv(states, steps, m);
    if m == i {
      MadeUnflushed(states[i], steps[i], w);
    } else {
      WriteFate(states, steps, i, m, w);
      IdsBelow(states, steps, i, m, w);
      if w in states[m].unflushed {
        StepEnds(states[m], steps[m], w);
      } else {
        NotMadeAgain(states[m], steps[m], w);
      }
    }
  }

  lemma {:induction false} StepDiscards(s: State, step: Step, w: Write)
    requires Safe(s, step)
    ensures w in Apply(s, step).discarded <==> w in s.discarded || (w in s.unflushed && GivesUp(s, step, w))
  {
    hide Without, ListOf, FindView, Inserted, Next, Elsewhere, Apply;
    UnflushedAfter(s, step);
  }

  /** In every run exactly the writes that were given up are on record as discarded. */
  lemma {:induction false} DiscardedExactly(states: seq<State>, steps: seq<Step>, j: nat, w: Write)
    requires IsRun(states, steps) && j < |states|
    ensures w in states[j].discarded <==> exists k :: 0 <= k < j && w in states[k].unflushed && GivesUp(states[k], steps[k], w)
  {
    hide Inv, Safe, Apply, GivesUp;
    if j > 0 {
      DiscardedExactly(states, steps, j - 1, w);
      RunInv(states, steps, j - 1);
      StepDiscards(states[j - 1], steps[j - 1], w);
    }
  }

  // ----- which view a thread gets -----

  /** The VACB maps the part of the file that holds the point. */
  ghost predicate Covers(s: State, v: Vid, file: FileId, point: int) {
    v in s.vacbs && s.vacbs[v].file == file && InRange(s.vacbs[v].offset, point)
  }

  /** The thread is on its way to a view of the point, or has got it. */
  ghost predicate Seeks(s: State, x: Thread, file: FileId, point: int) {
    match x
    case Missed(f, p) => f == file && p == point
    case Creating(_, f, p) => f == file && p == point
    case Discarding(_, v) => Covers(s, v, file, point)
    case Holding(v) => Covers(s, v, file, point)
    case _ => false
  }

  lemma {:induction false} FoundCovers(s: State, file: FileId, point: int)
    requires ListsInv(s)
    ensures var r := FindView(ListOf(s, file), point);
      && (r.Some? ==> Covers(s, r.value.id, file, point) && Listed(s, r.value.id))
      && (r.None? ==> forall v :: Listed(s, v) ==> !Covers(s, v, file, point))
  {
    hide NoDup, Ascending;
    var r := FindView(ListOf(s, file), point);
    FindViewIs(ListOf(s, file), point);
    if r.Some? {
      assert InFile(s, file, r.value);
    } else {
      forall v | Listed(s, v) ensures !Covers(s, v, file, point) {
        if v in s.vacbs && s.vacbs[v].file == file {
          assert InFile(s, file, View(v, s.vacbs[v].offset));
        }
      }
    }
  }

  lemma {:induction false} FindViewIs(views: seq<View>, point: int)
    ensures var r := FindView(views, point);
      if r.Some? then r.value in views && InRange(r.value.offset, point) else forall x :: x in views ==> !InRange(x.offset, point)
  {
    if views != [] && !InRange(views[0].offset, point) {
      FindViewIs(views[1..], point);
    }
  }

  lemma {:induction false} LookupSeeks(s: State, step: Step)
    requires Inv(s) && Safe(s, step) && step.Lookup?
    ensures Seeks(Apply(s, step), Next(s, step), step.file, step.point)
    ensures Next(s, step).Missed? <==> forall v :: Listed(s, v) ==> !Covers(s, v, step.file, step.point)
  {
    hide CountInv, ThreadInv, ListsInv, FindView, ListOf;
    FoundCovers(s, step.file, step.point);
  }

  lemma {:induction false} SeekOwn(s: State, step: Step, file: FileId, point: int)
    requires Inv(s) && Safe(s, step) && Seeks(s, s.threads[step.t], file, point) && !s.threads[step.t].Holding?
    ensures Seeks(Apply(s, step), Next(s, step), file, point) || (step.GiveUp? && Next(s, step).Idle?)
  {
    hide Inv, ThreadInv, Shared, Covers;
    InvThread(s, step.t);
    match s.threads[step.t] {
      case Missed(_, _) => SeekMissed(s, step, file, point);
      case Creating(_, _, _) =>
        InvLists(s);
        SeekCreating(s, step, file, point);
      case Discarding(own, v) =>
        InvCount(s, own);
        InvCount(s, v);
        KeeperFacts(s, step.t, own);
        HolderFacts(s, step.t, v);
        SeekDiscarding(s, step, file, point);
    }
  }

  lemma {:induction false} InvLists(s: State)
    requires Inv(s)
    ensures ListsInv(s)
  {
    hide ListsInv;
  }

  lemma {:induction false} SeekMissed(s: State, step: Step, file: FileId, point: int)
    requires Safe(s, step) && s.threads[step.t] == Missed(file, point)
    ensures Seeks(Apply(s, step), Next(s, step), file, point) || (step.GiveUp? && Next(s, step).Idle?)
  {
    hide Shared;
  }

  lemma {:induction false} SeekCreating(s: State, step: Step, file: FileId, point: int)
    requires ListsInv(s) && Safe(s, step) && s.threads[step.t].Creating? && ThreadInv(s, s.threads[step.t])
    requires s.threads[step.t].file == file && s.threads[step.t].point == point
    ensures Seeks(Apply(s, step), Next(s, step), file, point) || (step.GiveUp? && Next(s, step).Idle?)
  {
    hide ListsInv, Shared, ThreadInv, Covers;
    if step.Insert? {
      FoundCovers(s, file, point);
      SeekInsert(s, step, file, point);
    }
  }

  lemma {:induction false} SeekInsert(s: State, step: Step, file: FileId, point: int)
    requires Safe(s, step) && step.Insert? && ThreadInv(s, s.threads[step.t])
    requires s.threads[step.t].file == file && s.threads[step.t].point == point
    requires var r := FindView(ListOf(s, file), point); r.Some? ==> Covers(s, r.value.id, file, point)
    ensures Seeks(Apply(s, step), Next(s, step), file, point)
  {
    hide FindView, ListOf, Inserted, InRange;
    RoundDownCovers(point);
  }

  lemma {:induction false} SeekDiscarding(s: State, step: Step, file: FileId, point: int)
    requires Safe(s, step) && s.threads[step.t].Discarding? && s.threads[step.t].own != s.threads[step.t].v
    requires Covers(s, s.threads[step.t].v, file, point)
    ensures Seeks(Apply(s, step), Next(s, step), file, point)
  {
    hide InRange;
  }

  lemma {:induction false} CoversStays(s: State, step: Step, u: ThreadId, v: Vid, file: FileId, point: int)
    requires Inv(s) && Safe(s, step) && u in s.threads && u != step.t && Holds(s.threads[u], v) && Covers(s, v, file, point)
    ensures Covers(Apply(s, step), v, file, point)
  {
    hide Inv, Safe, Apply, CountInv, InRange;
    ThreadsAfter(s, step);
    InvCount(s, v);
    StepCount(s, step, v);
    HolderFacts(Apply(s, step), u, v);
    StepKept(s, step, v);
  }

  /**
    In every run, a thread that asks for a view of a point of a file, while others create, evict,
    purge and delete views, comes out with a view of that point, or gives up for want of memory.
  */
  lemma {:induction false} RightView(states: seq<State>, steps: seq<Step>, t: ThreadId, i: nat, k: nat, file: FileId, point: int)
    requires IsRun(states, steps) && i < k < |states| && steps[i] == Lookup(t, file, point)
    requires forall m :: i < m < k ==> t in states[m].threads && !states[m].threads[t].Holding? && !states[m].threads[t].Idle?
    ensures t in states[k].threads
    ensures Seeks(states[k], states[k].threads[t], file, point) || (steps[k - 1] == GiveUp(t) && states[k].threads[t].Idle?)
  {
    hide Inv, Safe, Apply, Covers;
    var m := k - 1;
    RunInv(states, steps, m);
    ThreadsAfter(states[m], steps[m]);
    if m == i {
      LookupSeeks(states[i], steps[i]);
    } else {
      RightView(states, steps, t, i, m, file, point);
      if steps[m].t == t {
        SeekOwn(states[m], steps[m], file, point);
      } else if states[m].threads[t].Discarding? {
        CoversStays(states[m], steps[m], t, states[m].threads[t].v, file, point);
      }
    }
  }

  // ----- least recently used -----

  /** The step uses the VACB: it is touched, inserted, or marked when it was clean. */
  ghost predicate Uses(s: State, step: Step, v: Vid) {
    step.t in s.threads &&
    var x := s.threads[step.t];
    match step
    case Touch(_) => x.Holding? && x.v == v
    case Insert(_) => x.Creating? && x.own == v && FindView(ListOf(s, x.file), x.point).None?
    case Mark(_) => x.Marking? && x.v == v && v in s.vacbs && !s.vacbs[v].dirty
    case FlushRemark(_) => x.Failed? && x.v == v && x.was && v in s.vacbs && !s.vacbs[v].dirty
    case _ => false
  }

  /** Using a VACB puts it behind all others; no other step changes the order of two VACBs. */
  lemma {:induction false} StepLru(s: State, step: Step)
    requires Safe(s, step)
    ensures var lru := Apply(s, step).lru;
      || lru == s.lru
      || (exists v :: lru == Without(s.lru, v))
      || (exists v :: Uses(s, step, v) && lru == Without(s.lru, v) + [v])
      || (exists v :: Uses(s, step, v) && lru == s.lru + [v])
    ensures forall v :: Uses(s, step, v) ==> Apply(s, step).lru == Without(s.lru, v) + [v] || Apply(s, step).lru == s.lru + [v]
  {
    hide Without, ListOf, FindView, Inserted, Next, Elsewhere, ChunkWrites, Forgotten;
    var x := s.threads[step.t];
    match step {
      case Touch(_) => assert Uses(s, step, x.v);
      case Insert(_) => assert FindView(ListOf(s, x.file), x.point).None? ==> Uses(s, step, x.own);
      case Mark(_) => assert !s.vacbs[x.v].dirty ==> Uses(s, step, x.v);
      case FlushRemark(_) => assert x.was && !s.vacbs[x.v].dirty ==> Uses(s, step, x.v);
      case Evict(_, v) => assert Apply(s, step).lru == Without(s.lru, v);
      case Purge(_, v) => assert Apply(s, step).lru == Without(s.lru, v);
      case Delete(_, v) => assert Apply(s, step).lru == Without(s.lru, v);
      case _ =>
    }
  }

  lemma {:induction false} OrderStays(s: State, step: Step, u: Vid, v: Vid)
    requires Safe(s, step) && Precedes(s.lru, u, v) && !Uses(s, step, u) && !Uses(s, step, v)
    requires u in Apply(s, step).lru && v in Apply(s, step).lru
    ensures Precedes(Apply(s, step).lru, u, v)
  {
    hide Apply, Safe, Precedes, Uses, Without;
    StepLru(s, step);
    var lru := Apply(s, step).lru;
    if lru != s.lru {
      if y :| lru == Without(s.lru, y) {
        PrecedesWithout(s.lru, y, u, v);
      } else if y :| Uses(s, step, y) && lru == Without(s.lru, y) + [y] {
        PrecedesWithout(s.lru, y, u, v);
        PrecedesAppend(Without(s.lru, y), y, u, v);
      } else {
        var y :| Uses(s, step, y) && lru == s.lru + [y];
        PrecedesAppend(s.lru, y, u, v);
      }
    }
  }

  lemma {:induction false} UsedLast(s: State, step: Step, u: Vid, v: Vid)
    requires Safe(s, step) && Uses(s, step, v) && u in s.lru && u != v
    ensures Precedes(Apply(s, step).lru, u, v)
  {
    hide Apply, Safe, Precedes, Uses;
    StepLru(s, step);
    if Apply(s, step).lru == s.lru + [v] {
      PrecedesLast(s.lru, v, u);
    } else {
      PrecedesLast(Without(s.lru, v), v, u);
    }
  }

  /** In every run, of two listed VACBs the one that was used last stands behind the other on the LRU list. */
  lemma {:induction false} RecentBehind(states: seq<State>, steps: seq<Step>, j: nat, m: nat, u: Vid, v: Vid)
    requires IsRun(states, steps) && j < m < |states| && Uses(states[j], steps[j], v) && u != v
    requires forall k :: j <= k <= m ==> u in states[k].lru
    requires forall k :: j < k <= m ==> v in states[k].lru
    requires forall k :: j < k < m ==> !Uses(states[k], steps[k], u) && !Uses(states[k], steps[k], v)
    ensures Precedes(states[m].lru, u, v)
  {
    hide Inv, Safe, Apply, Precedes, Uses;
    var p := m - 1;
    RunInv(states, steps, p);
    if p == j {
      UsedLast(states[j], steps[j], u, v);
    } else {
      RecentBehind(states, steps, j, p, u, v);
      OrderStays(states[p], steps[p], u, v);
    }
  }

  // ----- every operation goes on -----

  /** What a thread may go on to; only a writer may write again, and only a thread that drops may drop more. */
  ghost predicate Continues(x: Thread, y: Thread) {
    match x
    case Idle => y.Holding? || y.Missed? || y.Dropping?
    case Missed(_, _) => y.Creating? || y.Idle?
    case Creating(_, _, _) => y.Discarding? || y.Holding? || y.Idle?
    case Discarding(_, v) => y == Holding(v)
    case Holding(v) => (y.Wrote? || y.Releasing? || y.Unmarked?) && y.v == v
    case Wrote(v, ws) => (y.Wrote? && y.v == v && ws <= y.ws) || y == Releasing(v) || y == Marking(v, ws)
    case Marking(v, _) => y == Releasing(v)
    case Releasing(_) => y.Idle?
    case Unmarked(v, was) => y == Failed(v, was) || (y.Flushing? && y.v == v && y.was == was)
    case Flushing(v, was, _) => y == Holding(v) || y == Failed(v, was)
    case Failed(v, _) => y == Holding(v)
    case Dropping(vs) => (y.Dropping? && (vs < y.vs || y.vs < vs)) || y.Idle?
  }

  /** Every step but touching a view, and the memory manager's own, takes its thread on. */
  lemma {:induction false} GoesOn(s: State, step: Step)
    requires Inv(s) && Safe(s, step) && !step.Touch? && !step.MmWrites?
    ensures Continues(s.threads[step.t], Next(s, step))
    ensures Next(s, step).Wrote? <==> step.WriteData?
  {
    hide ListsInv, CountInv, ThreadInv, FindView, ListOf, ChunkWrites;
    if Drops(step) && !step.FreePrivate? && s.threads[step.t].Dropping? {
      NotDroppedTwice(s, step);
    }
  }

  /** A view that is taken off the lists was not on the thread's free list already. */
  lemma {:induction false} NotDroppedTwice(s: State, step: Step)
    requires Inv(s) && Safe(s, step) && (step.Evict? || step.Purge? || step.Delete?) && s.threads[step.t].Dropping?
    ensures step.v !in s.threads[step.t].vs
  {
    hide Inv, CountInv, ChunkWrites;
    if step.v in s.threads[step.t].vs {
      InvCount(s, step.v);
      KeeperFacts(s, step.t, step.v);
    }
  }
}
