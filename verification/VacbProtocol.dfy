/**
  Writers, flushers, the trimmer and the purger at work on the VACBs of all files
  (ntoskrnl/cc/view.c and ntoskrnl/cc/fs.c).  A step is one critical section under the
  master lock, one unlocked read of `Dirty`, one interlocked decrement, or one call of
  the memory manager, by any of any number of threads.
*/
module VacbProtocol {
  import opened Common
  import opened Seqs
  import opened VacbList

  type Vid = nat
  type FileId = nat
  type ThreadId = nat

  /** One write to a view's part of a file; it is unflushed until it has reached the disk. */
  datatype Write = Write(id: nat, file: FileId, offset: int)

  datatype Vacb = Vacb(file: FileId, offset: int, refs: int, dirty: bool)

  datatype Thread =
    | Idle
    | Missed(file: FileId, point: int)                            // lookup found nothing
    | Creating(own: Vid, file: FileId, point: int)                // has a new VACB that is on no list
    | Discarding(own: Vid, v: Vid)                                // lost the race; will use `v`
    | Holding(v: Vid)
    | Wrote(v: Vid, ws: set<Write>)                               // in CcRosReleaseVacb with Dirty set
    | Marking(v: Vid, ws: set<Write>)                             // saw the VACB clean, will mark it
    | Releasing(v: Vid)
    | Unmarked(v: Vid, was: bool)                                 // in CcRosFlushVacb
    | Flushing(v: Vid, was: bool, snap: set<Write>)               // in MmFlushSegment
    | Failed(v: Vid, was: bool)
    | Dropping(vs: set<Vid>)                                      // VACBs on a private free list

  datatype State = State(vacbs: map<Vid, Vacb>, lists: map<FileId, seq<View>>, lru: seq<Vid>,
                         dirtyList: seq<Vid>, dirtyPages: int, threads: map<ThreadId, Thread>,
                         unflushed: set<Write>, discarded: set<Write>, writes: nat)

  function ListOf(s: State, file: FileId): seq<View> {
    if file in s.lists then s.lists[file] else []
  }

  ghost function ChunkWrites(s: State, x: Vacb): set<Write> {
    set w | w in s.unflushed && w.file == x.file && w.offset == x.offset
  }

  // ----- the shared operations -----

  function Add(s: State, v: Vid, delta: int): State
    requires v in s.vacbs
  {
    s.(vacbs := s.vacbs[v := s.vacbs[v].(refs := s.vacbs[v].refs + delta)])
  }

  /** CcRosVacbDecRefCount: the last reference frees the VACB. */
  function Drop(s: State, v: Vid): State
    requires v in s.vacbs
  {
    if s.vacbs[v].refs == 1 then s.(vacbs := s.vacbs - {v}) else Add(s, v, -1)
  }

  /** CcRosMarkDirtyVacb */
  function MarkDirty(s: State, v: Vid): State
    requires v in s.vacbs
  {
    if s.vacbs[v].dirty then s else
    s.(vacbs := s.vacbs[v := s.vacbs[v].(refs := s.vacbs[v].refs + 1, dirty := true)],
       dirtyList := s.dirtyList + [v],
       dirtyPages := s.dirtyPages + PagesPerVacb,
       lru := Without(s.lru, v) + [v])
  }

  /** CcRosUnmarkDirtyVacb, with the decrement that must not be the last one. */
  function UnmarkDirty(s: State, v: Vid): State
    requires v in s.vacbs
  {
    if !s.vacbs[v].dirty then s else
    Drop(s.(vacbs := s.vacbs[v := s.vacbs[v].(dirty := false)],
            dirtyList := Without(s.dirtyList, v),
            dirtyPages := s.dirtyPages - PagesPerVacb), v)
  }

  /** Off the file's list and off the LRU list. */
  function Unlist(s: State, v: Vid): State
    requires v in s.vacbs
  {
    var x := s.vacbs[v];
    s.(lists := s.lists[x.file := Without(ListOf(s, x.file), View(v, x.offset))], lru := Without(s.lru, v))
  }

  /** The VACB at place `i` of the LRU list is the first that has no user. */
  ghost predicate LeastUsed(s: State, i: nat) {
    && i < |s.lru| && s.lru[i] in s.vacbs && s.vacbs[s.lru[i]].refs < 2
    && forall k :: 0 <= k < i ==> s.lru[k] in s.vacbs && s.vacbs[s.lru[k]].refs >= 2
  }

  /** The VACBs that nobody uses, in the order given. */
  function Unused(vacbs: map<Vid, Vacb>, order: seq<Vid>): seq<Vid> {
    Filter((v: Vid) => v in vacbs && vacbs[v].refs < 2, order)
  }

  lemma {:induction false} UnusedSnoc(vacbs: map<Vid, Vacb>, order: seq<Vid>, i: nat)
    requires i < |order| && order[i] in vacbs
    ensures Unused(vacbs, order[..i + 1]) == Unused(vacbs, order[..i]) + (if vacbs[order[i]].refs < 2 then [order[i]] else [])
  {
    assert order[..i + 1] == order[..i] + [order[i]];
    FilterConcat((v: Vid) => v in vacbs && vacbs[v].refs < 2, order[..i], [order[i]]);
  }

  function UnlistAll(s: State, vs: seq<Vid>): State {
    if vs == [] then s else
    var r := UnlistAll(s, vs[..|vs| - 1]);
    var v := vs[|vs| - 1];
    if v in r.vacbs then Unlist(r, v) else r
  }

  lemma {:induction false} NoneUnlisted(s: State)
    ensures UnlistAll(s, []) == s && Unused(s.vacbs, []) == []
  {
  }

  lemma {:induction false} UnlistMore(s: State, vs: seq<Vid>, v: Vid)
    requires v in s.vacbs
    ensures v in UnlistAll(s, vs).vacbs && UnlistAll(s, vs + [v]) == Unlist(UnlistAll(s, vs), v)
  {
    UnlistKeeps(s, vs);
    assert (vs + [v])[..|vs|] == vs;
  }

  lemma {:induction false} UnlistKeeps(s: State, vs: seq<Vid>)
    ensures UnlistAll(s, vs).vacbs == s.vacbs
  {
    if vs != [] {
      UnlistKeeps(s, vs[..|vs| - 1]);
    }
  }

  // ----- the steps -----

  datatype Step =
    | Lookup(t: ThreadId, file: FileId, point: int)
    | Allocate(t: ThreadId, v: Vid)
    | GiveUp(t: ThreadId)
    | Insert(t: ThreadId)
    | Discard(t: ThreadId)
    | Touch(t: ThreadId)
    | PickDirty(t: ThreadId, v: Vid)
    | WriteData(t: ThreadId)
    | ReleaseClean(t: ThreadId)
    | WriteFails(t: ThreadId)
    | ReleaseCheck(t: ThreadId)
    | Mark(t: ThreadId)
    | Release(t: ThreadId)
    | FlushUnmark(t: ThreadId)
    | FlushRefused(t: ThreadId)
    | FlushBegin(t: ThreadId)
    | FlushEnd(t: ThreadId, ok: bool, written: set<Write>)
    | FlushRemark(t: ThreadId)
    | Evict(t: ThreadId, v: Vid)
    | Purge(t: ThreadId, v: Vid)
    | Delete(t: ThreadId, v: Vid)
    | FreePrivate(t: ThreadId, v: Vid, ok: bool)
    | MmWrites(t: ThreadId, written: set<Write>)

  ghost predicate Init(s: State) {
    && s.vacbs == map[] && s.lists == map[] && s.lru == [] && s.dirtyList == [] && s.dirtyPages == 0
    && s.unflushed == {} && s.discarded == {} && s.writes == 0
    && forall t :: t in s.threads ==> s.threads[t] == Idle
  }

  /** The VACB is used by the thread under a reference of its own. */
  ghost predicate Holds(x: Thread, v: Vid) {
    match x
    case Discarding(_, u) => u == v
    case Holding(u) => u == v
    case Wrote(u, _) => u == v
    case Marking(u, _) => u == v
    case Releasing(u) => u == v
    case Unmarked(u, _) => u == v
    case Flushing(u, _, _) => u == v
    case Failed(u, _) => u == v
    case _ => false
  }

  /** The VACB is on no list and belongs to the thread alone. */
  ghost predicate Keeps(x: Thread, v: Vid) {
    match x
    case Creating(own, _, _) => own == v
    case Discarding(own, _) => own == v
    case Dropping(vs) => v in vs
    case _ => false
  }

  ghost predicate Listed(s: State, v: Vid) {
    v in s.lru
  }

  ghost predicate FreeToDrop(x: Thread) {
    x.Idle? || x.Dropping?
  }

  ghost predicate Enabled(s: State, step: Step) {
    step.t in s.threads &&
    var x := s.threads[step.t];
    match step
    case Lookup(t, file, point) => x.Idle?
    case Allocate(t, v) => x.Missed? && v !in s.vacbs
    case GiveUp(t) => x.Missed? || x.Creating?
    case Insert(t) => x.Creating?
    case Discard(t) => x.Discarding?
    case Touch(t) => x.Holding?
    case PickDirty(t, v) => x.Idle? && v in s.dirtyList
    case WriteData(t) => x.Holding? || x.Wrote?
    case ReleaseClean(t) => x.Holding?
    case WriteFails(t) => x.Wrote?
    case ReleaseCheck(t) => x.Wrote?
    case Mark(t) => x.Marking?
    case Release(t) => x.Releasing?
    case FlushUnmark(t) => x.Holding?
    case FlushRefused(t) => x.Unmarked?
    case FlushBegin(t) => x.Unmarked?
    case FlushEnd(t, ok, written) => x.Flushing? && (ok ==> x.snap <= written)
    case FlushRemark(t) => x.Failed?
    case Evict(t, v) => FreeToDrop(x) && v in s.lru && v in s.vacbs && s.vacbs[v].refs < 2
    case Purge(t, v) => FreeToDrop(x) && v in s.lru && v in s.vacbs && s.vacbs[v].refs <= (if s.vacbs[v].dirty then 2 else 1)
    case Delete(t, v) => FreeToDrop(x) && v in s.lru && forall u :: u in s.threads ==> !Holds(s.threads[u], v)
    case FreePrivate(t, v, ok) => x.Dropping? && v in x.vs
    case MmWrites(t, written) => true
  }

  /** The VACBs whose memory a step reads or writes have not been freed. */
  ghost predicate Safe(s: State, step: Step) {
    Enabled(s, step) &&
    var x := s.threads[step.t];
    match step
    case Lookup(t, file, point) =>
      var r := FindView(ListOf(s, file), point); r.Some? ==> r.value.id in s.vacbs
    case Allocate(t, v) => true
    case GiveUp(t) => x.Creating? ==> x.own in s.vacbs
    case Insert(t) =>
      x.own in s.vacbs && var r := FindView(ListOf(s, x.file), x.point); r.Some? ==> r.value.id in s.vacbs && r.value.id != x.own
    case Discard(t) => x.own in s.vacbs
    case PickDirty(t, v) => v in s.vacbs
    case Evict(t, v) => true
    case Purge(t, v) => true
    case Delete(t, v) => v in s.vacbs
    case FreePrivate(t, v, ok) => v in s.vacbs
    case MmWrites(t, written) => true
    case FlushRefused(t) => true
    case _ => (x.Holding? || x.Wrote? || x.Marking? || x.Releasing? || x.Unmarked? || x.Flushing? || x.Failed?) && x.v in s.vacbs
  }

  ghost function Dropped(x: Thread): set<Vid> {
    if x.Dropping? then x.vs else {}
  }

  ghost function NewWrite(s: State, v: Vid): Write
    requires v in s.vacbs
  {
    Write(s.writes, s.vacbs[v].file, s.vacbs[v].offset)
  }

  /** What the thread goes on to do. */
  ghost function Next(s: State, step: Step): Thread
    requires Safe(s, step)
  {
    var x := s.threads[step.t];
    match step
    case Lookup(t, file, point) =>
      var r := FindView(ListOf(s, file), point);
      if r.Some? then Holding(r.value.id) else Missed(file, point)
    case Allocate(t, v) => Creating(v, x.file, x.point)
    case GiveUp(t) => Idle
    case Insert(t) =>
      var r := FindView(ListOf(s, x.file), x.point);
      if r.Some? then Discarding(x.own, r.value.id) else Holding(x.own)
    case Discard(t) => Holding(x.v)
    case Touch(t) => x
    case PickDirty(t, v) => Holding(v)
    case WriteData(t) => Wrote(x.v, (if x.Wrote? then x.ws else {}) + {NewWrite(s, x.v)})
    case ReleaseClean(t) => Releasing(x.v)
    case WriteFails(t) => Releasing(x.v)
    case ReleaseCheck(t) => if s.vacbs[x.v].dirty then Releasing(x.v) else Marking(x.v, x.ws)
    case Mark(t) => Releasing(x.v)
    case Release(t) => Idle
    case FlushUnmark(t) => Unmarked(x.v, s.vacbs[x.v].dirty)
    case FlushRefused(t) => Failed(x.v, x.was)
    case FlushBegin(t) => Flushing(x.v, x.was, ChunkWrites(s, s.vacbs[x.v]))
    case FlushEnd(t, ok, written) => if ok then Holding(x.v) else Failed(x.v, x.was)
    case FlushRemark(t) => Holding(x.v)
    case Evict(t, v) => Dropping(Dropped(x) + {v})
    case Purge(t, v) => Dropping(Dropped(x) + {v})
    case Delete(t, v) => Dropping(Dropped(x) + {v})
    case FreePrivate(t, v, ok) => if x.vs == {v} then Idle else Dropping(x.vs - {v})
    case MmWrites(t, written) => x
  }

  ghost predicate InChunk(s: State, v: Vid, w: Write) {
    v in s.vacbs && w.file == s.vacbs[v].file && w.offset == s.vacbs[v].offset
  }

  /** The thread will see to the write: mark its VACB, or flush it, or mark it again. */
  ghost predicate Minds(s: State, x: Thread, w: Write) {
    match x
    case Wrote(_, ws) => w in ws
    case Marking(_, ws) => w in ws
    case Unmarked(v, was) => was && InChunk(s, v, w)
    case Flushing(_, was, snap) => was && w in snap
    case Failed(v, was) => was && InChunk(s, v, w)
    case _ => false
  }

  /** A dirty VACB of the same chunk, other than `v`, or a thread other than `t` answers for the write. */
  ghost predicate Elsewhere(s: State, v: Option<Vid>, t: ThreadId, w: Write) {
    || (exists u :: v != Some(u) && InChunk(s, u, w) && s.vacbs[u].dirty)
    || (exists u :: u != t && u in s.threads && Minds(s, s.threads[u], w))
  }

  /** The writes that are forgotten when nothing but `v` and `t` answers for them any more. */
  ghost function Forgotten(s: State, v: Option<Vid>, t: ThreadId, ws: set<Write>): set<Write> {
    set w | w in ws && !Elsewhere(s, v, t, w)
  }

  /** What happens to the VACBs, the lists and the data. */
  ghost function Shared(s: State, step: Step): State
    requires Safe(s, step)
  {
    var x := s.threads[step.t];
    match step
    case Lookup(t, file, point) =>
      var r := FindView(ListOf(s, file), point);
      if r.Some? then Add(s, r.value.id, 1) else s
    case Allocate(t, v) => s.(vacbs := s.vacbs[v := Vacb(x.file, RoundDown(x.point), 1, false)])
    case GiveUp(t) => if x.Creating? then s.(vacbs := s.vacbs - {x.own}) else s
    case Insert(t) =>
      var r := FindView(ListOf(s, x.file), x.point);
      if r.Some? then Add(s, r.value.id, 1) else
      Add(s, x.own, 1).(
        lists := s.lists[x.file := Inserted(ListOf(s, x.file), View(x.own, s.vacbs[x.own].offset))],
        lru := s.lru + [x.own])
    case Discard(t) => Drop(s, x.own)
    case Touch(t) => s.(lru := Without(s.lru, x.v) + [x.v])
    case PickDirty(t, v) => Add(s, v, 1)
    case WriteData(t) => s.(unflushed := s.unflushed + {NewWrite(s, x.v)}, writes := s.writes + 1)
    case WriteFails(t) =>
      // an exception: the bytes stay in the view, which is released as clean
      var gone := Forgotten(s, None, t, x.ws * s.unflushed);
      s.(unflushed := s.unflushed - gone, discarded := s.discarded + gone)
    case Mark(t) => MarkDirty(s, x.v)
    case Release(t) => Drop(s, x.v)
    case FlushUnmark(t) => UnmarkDirty(s, x.v)
    case FlushEnd(t, ok, written) => s.(unflushed := s.unflushed - written)
    case FlushRemark(t) => if x.was then MarkDirty(s, x.v) else s
    case Evict(t, v) => Unlist(s, v)
    case Purge(t, v) =>
      UnmarkDirty(Unlist(s, v), v).(
        unflushed := s.unflushed - ChunkWrites(s, s.vacbs[v]),
        discarded := s.discarded + ChunkWrites(s, s.vacbs[v]))
    case Delete(t, v) =>
      // unmarked, then flagged dirty again so that it is flushed before it is freed
      var r := UnmarkDirty(Unlist(s, v), v);
      if v in r.vacbs then r.(vacbs := r.vacbs[v := r.vacbs[v].(dirty := s.vacbs[v].dirty)]) else r
    case FreePrivate(t, v, ok) =>
      var ws := if s.vacbs[v].dirty then ChunkWrites(s, s.vacbs[v]) else {};
      var gone := if ok then ws else Forgotten(s, Some(v), t, ws);
      Drop(s.(vacbs := s.vacbs[v := s.vacbs[v].(dirty := false)]), v).(
        unflushed := s.unflushed - gone,
        discarded := if ok then s.discarded else s.discarded + gone)
    case MmWrites(t, written) => s.(unflushed := s.unflushed - written)
    case _ => s
  }

  ghost function Apply(s: State, step: Step): State
    requires Safe(s, step)
  {
    Shared(s, step).(threads := s.threads[step.t := Next(s, step)])
  }

  // ----- the invariant -----

  ghost function Holders(s: State, v: Vid): set<ThreadId> {
    set t | t in s.threads && Holds(s.threads[t], v)
  }

  ghost function Keepers(s: State, v: Vid): set<ThreadId> {
    set t | t in s.threads && Keeps(s.threads[t], v)
  }

  /** Both global lists and the per-file lists show the same VACBs; the page count fits. */
  ghost predicate ListsInv(s: State) {
    && NoDup(s.lru) && NoDup(s.dirtyList)
    && (forall file :: file in s.lists ==> Ascending(s.lists[file]))
    && (forall file, x :: x in ListOf(s, file) <==> InFile(s, file, x))
    && (forall v :: v in s.lru ==> v in s.vacbs && Aligned(s.vacbs[v].offset))
    && (forall v :: v in s.dirtyList <==> v in s.lru && s.vacbs[v].dirty)
    && s.dirtyPages == PagesPerVacb * |s.dirtyList|
  }

  ghost predicate InFile(s: State, file: FileId, x: View) {
    x.id in s.lru && x.id in s.vacbs && s.vacbs[x.id].file == file && s.vacbs[x.id].offset == x.offset
  }

  /** One reference for being on the lists or kept privately, one for being dirty, one per holder. */
  ghost predicate CountInv(s: State, v: Vid) {
    if v in s.vacbs then
      && |Keepers(s, v)| + (if Listed(s, v) then 1 else 0) == 1
      && s.vacbs[v].refs == 1 + (if Listed(s, v) && s.vacbs[v].dirty then 1 else 0) + |Holders(s, v)|
      && (!Listed(s, v) ==> |Holders(s, v)| == 0)
    else
      |Keepers(s, v)| == 0 && |Holders(s, v)| == 0
  }

  /** What threads remember fits the VACBs that they use. */
  ghost predicate ThreadInv(s: State, x: Thread) {
    match x
    case Creating(own, file, point) =>
      own in s.vacbs && s.vacbs[own].file == file && s.vacbs[own].offset == RoundDown(point) && !s.vacbs[own].dirty
    case Discarding(own, _) => own in s.vacbs && !s.vacbs[own].dirty
    case Wrote(v, ws) => forall w :: w in ws ==> InChunk(s, v, w)
    case Marking(v, ws) => forall w :: w in ws ==> InChunk(s, v, w)
    case Flushing(v, _, snap) => forall w :: w in snap ==> InChunk(s, v, w)
    case _ => true
  }

  /** No write is forgotten: its VACB is dirty, or a thread minds it. */
  ghost predicate Covered(s: State, w: Write) {
    || (exists v :: InChunk(s, v, w) && s.vacbs[v].dirty)
    || (exists t :: t in s.threads && Minds(s, s.threads[t], w))
  }

  ghost predicate Inv(s: State) {
    && ListsInv(s)
    && (forall v :: CountInv(s, v))
    && (forall t :: t in s.threads ==> ThreadInv(s, s.threads[t]))
    && (forall w :: w in s.unflushed ==> Covered(s, w))
  }

  lemma {:induction false} InitInv(s: State)
    requires Init(s)
    ensures Inv(s)
  {
    forall v ensures CountInv(s, v) {
      assert Keepers(s, v) == {} && Holders(s, v) == {};
    }
  }

  // ----- consequences of the invariant that the steps rely on -----

  lemma {:induction false} HolderFacts(s: State, t: ThreadId, v: Vid)
    requires CountInv(s, v) && t in s.threads && Holds(s.threads[t], v)
    ensures v in s.vacbs && Listed(s, v) && s.vacbs[v].refs >= (if s.vacbs[v].dirty then 3 else 2)
  {
    assert t in Holders(s, v);
  }

  lemma {:induction false} KeeperFacts(s: State, t: ThreadId, v: Vid)
    requires CountInv(s, v) && t in s.threads && Keeps(s.threads[t], v)
    ensures v in s.vacbs && !Listed(s, v) && s.vacbs[v].refs == 1 && Keepers(s, v) == {t}
  {
    assert t in Keepers(s, v);
    assert Keepers(s, v) == {t} + (Keepers(s, v) - {t});
  }

  lemma {:induction false} UnusedFacts(s: State, v: Vid)
    requires CountInv(s, v) && v in s.vacbs && Listed(s, v)
    ensures forall u :: u in s.threads ==> !Keeps(s.threads[u], v)
    ensures s.vacbs[v].refs <= 1 ==> !s.vacbs[v].dirty && Holders(s, v) == {} && s.vacbs[v].refs == 1
    ensures s.vacbs[v].refs <= (if s.vacbs[v].dirty then 2 else 1) ==> Holders(s, v) == {}
    ensures (forall u :: u in s.threads ==> !Holds(s.threads[u], v)) ==> Holders(s, v) == {}
  {
    assert Keepers(s, v) == {};
    assert forall u :: u in s.threads && Keeps(s.threads[u], v) ==> u in Keepers(s, v);
  }

  lemma {:induction false} StepSafe(s: State, step: Step)
    requires Inv(s) && Enabled(s, step)
    ensures Safe(s, step)
  {
    hide Ascending, Aligned, NoDup, Covered, CountInv, ThreadInv;
    var t := step.t;
    var x := s.threads[t];
    match step {
      case Lookup(_, file, point) =>
      case Insert(_) =>
        InvCount(s, x.own);
        KeeperFacts(s, t, x.own);
      case GiveUp(_) =>
        if x.Creating? {
          InvCount(s, x.own);
          KeeperFacts(s, t, x.own);
        }
      case Discard(_) =>
        InvCount(s, x.own);
        KeeperFacts(s, t, x.own);
      case FreePrivate(_, v, _) =>
        InvCount(s, v);
        KeeperFacts(s, t, v);
      case PickDirty(_, v) =>
      case Evict(_, v) =>
      case Purge(_, v) =>
      case Delete(_, v) =>
      case Allocate(_, _) =>
      case MmWrites(_, _) =>
      case FlushRefused(_) =>
      case _ =>
        InvCount(s, x.v);
        HolderFacts(s, t, x.v);
    }
  }

  // ----- counting -----

  lemma {:induction false} CountsAfter(s: State, r: State, t: ThreadId, v: Vid)
    requires t in s.threads && t in r.threads && r.threads == s.threads[t := r.threads[t]]
    ensures |Holders(r, v)| == |Holders(s, v)| - (if Holds(s.threads[t], v) then 1 else 0) + (if Holds(r.threads[t], v) then 1 else 0)
    ensures |Keepers(r, v)| == |Keepers(s, v)| - (if Keeps(s.threads[t], v) then 1 else 0) + (if Keeps(r.threads[t], v) then 1 else 0)
  {
    SetSwap(Holders(s, v), Holders(r, v), t);
    SetSwap(Keepers(s, v), Keepers(r, v), t);
  }

  /** The steps of a thread that holds a VACB keep the counts of every VACB. */
  lemma {:induction false} CountHolder(s: State, step: Step, v: Vid)
    requires Safe(s, step) && Inv(s)
    requires || step.Touch? || step.WriteData? || step.ReleaseClean? || step.WriteFails? || step.ReleaseCheck? || step.Mark? || step.Release?
             || step.FlushUnmark? || step.FlushRefused? || step.FlushBegin? || step.FlushEnd? || step.FlushRemark?
    ensures CountInv(Apply(s, step), v)
  {
    hide Inv, CountInv, Shared, Next;
    InvCount(s, v);
    InvCount(s, s.threads[step.t].v);
    HolderFacts(s, step.t, s.threads[step.t].v);
    if step.Mark? || step.Release? || step.FlushUnmark? || step.FlushRemark? {
      CountChanged(s, step, v);
    } else if step.Touch? {
      CountTouch(s, step, v);
    } else {
      CountUnchanged(s, step, v);
    }
  }

  lemma {:induction false} CountUnchanged(s: State, step: Step, v: Vid)
    requires Safe(s, step) && CountInv(s, v)
    requires || step.WriteData? || step.ReleaseClean? || step.WriteFails? || step.ReleaseCheck?
             || step.FlushRefused? || step.FlushBegin? || step.FlushEnd?
    ensures CountInv(Apply(s, step), v)
  {
    hide Holders, Keepers, Shared, Next;
    OnlyData(s, step, v);
    ThreadsAfter(s, step);
    CountsAfter(s, Apply(s, step), step.t, v);
  }

  /** These steps leave VACBs and lists alone, and their thread goes on with the VACB that it has. */
  lemma {:induction false} OnlyData(s: State, step: Step, v: Vid)
    requires Safe(s, step)
    requires || step.WriteData? || step.ReleaseClean? || step.WriteFails? || step.ReleaseCheck?
             || step.FlushRefused? || step.FlushBegin? || step.FlushEnd?
    ensures Apply(s, step).vacbs == s.vacbs && Apply(s, step).lru == s.lru
    ensures Holds(Next(s, step), v) == Holds(s.threads[step.t], v) && Keeps(Next(s, step), v) == Keeps(s.threads[step.t], v)
  {
    hide ChunkWrites, Forgotten;
  }

  lemma {:induction false} CountTouch(s: State, step: Step, v: Vid)
    requires Safe(s, step) && CountInv(s, v) && step.Touch? && Listed(s, s.threads[step.t].v)
    ensures CountInv(Apply(s, step), v)
  {
    hide Holders, Keepers;
    CountsAfter(s, Apply(s, step), step.t, v);
  }

  lemma {:induction false} CountChanged(s: State, step: Step, v: Vid)
    requires Safe(s, step) && CountInv(s, v) && (step.Mark? || step.Release? || step.FlushUnmark? || step.FlushRemark?)
    requires var x := s.threads[step.t];
      Holds(x, x.v) && Listed(s, x.v) && CountInv(s, x.v) && s.vacbs[x.v].refs >= (if s.vacbs[x.v].dirty then 3 else 2)
    ensures CountInv(Apply(s, step), v)
  {
    hide Holders, Keepers;
    CountsAfter(s, Apply(s, step), step.t, v);
  }

  lemma {:induction false} CountEvict(s: State, step: Step, v: Vid)
    requires Safe(s, step) && step.Evict? && CountInv(s, v) && CountInv(s, step.v)
    ensures CountInv(Apply(s, step), v)
  {
    hide Holders, Keepers, ListOf;
    CountsAfter(s, Apply(s, step), step.t, v);
    UnusedFacts(s, step.v);
  }

  lemma {:induction false} CountPurge(s: State, step: Step, v: Vid)
    requires Safe(s, step) && step.Purge? && CountInv(s, v) && CountInv(s, step.v)
    ensures CountInv(Apply(s, step), v)
  {
    hide Holders, Keepers, ListOf, ChunkWrites;
    CountsAfter(s, Apply(s, step), step.t, v);
    UnusedFacts(s, step.v);
  }

  lemma {:induction false} CountDelete(s: State, step: Step, v: Vid)
    requires Safe(s, step) && step.Delete? && CountInv(s, v) && CountInv(s, step.v)
    ensures CountInv(Apply(s, step), v)
  {
    hide Holders, Keepers, ListOf, ChunkWrites;
    CountsAfter(s, Apply(s, step), step.t, v);
    UnusedFacts(s, step.v);
  }

  lemma {:induction false} CountFree(s: State, step: Step, v: Vid)
    requires Safe(s, step) && Inv(s) && step.FreePrivate?
    ensures CountInv(Apply(s, step), v)
  {
    hide ListsInv, ThreadInv, Covered, Holders, Keepers;
    CountsAfter(s, Apply(s, step), step.t, v);
    assert CountInv(s, v) && CountInv(s, step.v);
    KeeperFacts(s, step.t, step.v);
  }

  lemma {:induction false} CountGain(s: State, r: State, t: ThreadId, u: Vid, v: Vid)
    requires t in s.threads && CountInv(s, u) && CountInv(s, v) && u in s.vacbs && Listed(s, u) && t in r.threads
    requires r == Add(s, u, 1).(threads := s.threads[t := r.threads[t]])
    requires !Holds(s.threads[t], u) && Holds(r.threads[t], u) && forall w :: w != u ==> Holds(r.threads[t], w) == Holds(s.threads[t], w)
    requires forall w :: Keeps(r.threads[t], w) == Keeps(s.threads[t], w)
    ensures CountInv(r, v)
  {
    hide Holders, Keepers;
    CountsAfter(s, r, t, v);
  }

  lemma {:induction false} CountLookup(s: State, step: Step, v: Vid)
    requires Safe(s, step) && Inv(s) && (step.Lookup? || step.PickDirty? || step.Insert?)
    ensures CountInv(Apply(s, step), v)
  {
    hide Covered, Holders, Keepers, FindView, Inserted;
    var r := Apply(s, step);
    assert CountInv(s, v);
    var x := s.threads[step.t];
    if step.PickDirty? {
      CountGain(s, r, step.t, step.v, v);
    } else {
      var file, point := if step.Lookup? then step.file else x.file, if step.Lookup? then step.point else x.point;
      var f := FindView(ListOf(s, file), point);
      if f.Some? {
        assert InFile(s, file, f.value);
        CountGain(s, r, step.t, f.value.id, v);
      } else if step.Insert? {
        CountsAfter(s, r, step.t, v);
        KeeperFacts(s, step.t, x.own);
      } else {
        CountsAfter(s, r, step.t, v);
      }
    }
  }

  lemma {:induction false} CountOther(s: State, step: Step, v: Vid)
    requires Safe(s, step) && Inv(s) && (step.Allocate? || step.GiveUp? || step.Discard? || step.MmWrites?)
    ensures CountInv(Apply(s, step), v)
  {
    hide ThreadInv, Covered, Holders, Keepers;
    CountsAfter(s, Apply(s, step), step.t, v);
    assert CountInv(s, v);
    var x := s.threads[step.t];
    if x.Creating? || x.Discarding? {
      KeeperFacts(s, step.t, x.own);
    }
    if x.Discarding? {
      HolderFacts(s, step.t, x.v);
    }
  }

  lemma {:induction false} StepCount(s: State, step: Step, v: Vid)
    requires Safe(s, step) && Inv(s)
    ensures CountInv(Apply(s, step), v)
  {
    hide *;
    InvCount(s, v);
    match step {
      case Lookup(_, _, _) => CountLookup(s, step, v);
      case PickDirty(_, _) => CountLookup(s, step, v);
      case Insert(_) => CountLookup(s, step, v);
      case Evict(_, u) =>
        InvCount(s, u);
        CountEvict(s, step, v);
      case Purge(_, u) =>
        InvCount(s, u);
        CountPurge(s, step, v);
      case Delete(_, u) =>
        InvCount(s, u);
        CountDelete(s, step, v);
      case FreePrivate(_, _, _) => CountFree(s, step, v);
      case Allocate(_, _) => CountOther(s, step, v);
      case GiveUp(_) => CountOther(s, step, v);
      case Discard(_) => CountOther(s, step, v);
      case MmWrites(_, _) => CountOther(s, step, v);
      case _ => CountHolder(s, step, v);
    }
  }

  // ----- what the threads remember -----

  ghost predicate Drops(step: Step) {
    step.Evict? || step.Purge? || step.Delete? || step.FreePrivate?
  }

  /** A VACB keeps its place in its file; only its user, or whoever takes it off the lists, changes its flag. */
  ghost predicate Kept(s: State, step: Step, v: Vid)
    requires Safe(s, step)
  {
    var r := Apply(s, step);
    v in s.vacbs && v in r.vacbs ==>
      && r.vacbs[v].file == s.vacbs[v].file && r.vacbs[v].offset == s.vacbs[v].offset
      && (r.vacbs[v].dirty == s.vacbs[v].dirty || Holds(s.threads[step.t], v) || Keeps(s.threads[step.t], v) || Listed(s, v))
  }

  lemma {:induction false} KeptByDropper(s: State, step: Step, v: Vid)
    requires Safe(s, step) && Drops(step)
    ensures Kept(s, step, v)
  {
    hide Without, ChunkWrites, ListOf, Next, Dropped;
  }

  lemma {:induction false} KeptByHolder(s: State, step: Step, v: Vid)
    requires Safe(s, step) && (step.Mark? || step.Release? || step.FlushUnmark? || step.FlushRemark? || step.Discard?)
    ensures Kept(s, step, v)
  {
    hide Without, ChunkWrites, ListOf, Next, Dropped;
  }

  lemma {:induction false} KeptByOther(s: State, step: Step, v: Vid)
    requires Safe(s, step) && !Drops(step)
    requires !(step.Mark? || step.Release? || step.FlushUnmark? || step.FlushRemark? || step.Discard?)
    ensures Kept(s, step, v)
  {
    hide FindView, Inserted, Without, ChunkWrites, ListOf, Next;
  }

  lemma {:induction false} StepKept(s: State, step: Step, v: Vid)
    requires Safe(s, step)
    ensures Kept(s, step, v)
  {
    hide Safe, Kept, Apply;
    match step {
      case Evict(_, _) => KeptByDropper(s, step, v);
      case Purge(_, _) => KeptByDropper(s, step, v);
      case Delete(_, _) => KeptByDropper(s, step, v);
      case FreePrivate(_, _, _) => KeptByDropper(s, step, v);
      case Mark(_) => KeptByHolder(s, step, v);
      case Release(_) => KeptByHolder(s, step, v);
      case FlushUnmark(_) => KeptByHolder(s, step, v);
      case FlushRemark(_) => KeptByHolder(s, step, v);
      case Discard(_) => KeptByHolder(s, step, v);
      case _ => KeptByOther(s, step, v);
    }
  }

  lemma {:induction false} ThreadOther(s: State, step: Step, u: ThreadId)
    requires Safe(s, step) && Inv(s) && u in s.threads && u != step.t
    ensures ThreadInv(Apply(s, step), s.threads[u])
  {
    hide ListsInv, Covered, CountInv, Apply, Safe, Enabled;
    var r := Apply(s, step);
    var x := s.threads[u];
    ThreadsAfter(s, step);
    assert ThreadInv(s, x);
    if x.Creating? || x.Discarding? {
      InvCount(s, x.own);
      StepCount(s, step, x.own);
      KeeperFacts(s, u, x.own);
      KeeperFacts(r, u, x.own);
      OneKeeper(s, step.t, u, x.own);
      StepKept(s, step, x.own);
    } else if x.Wrote? || x.Marking? || x.Flushing? {
      InvCount(s, x.v);
      StepCount(s, step, x.v);
      HolderFacts(s, u, x.v);
      HolderFacts(r, u, x.v);
      StepKept(s, step, x.v);
    }
  }

  lemma {:induction false} OneKeeper(s: State, t: ThreadId, u: ThreadId, v: Vid)
    requires CountInv(s, v) && t != u && t in s.threads && u in s.threads && Keeps(s.threads[u], v)
    ensures !Keeps(s.threads[t], v) && !Holds(s.threads[t], v)
  {
    KeeperFacts(s, u, v);
    assert Keeps(s.threads[t], v) ==> t in Keepers(s, v);
    assert Holds(s.threads[t], v) ==> t in Holders(s, v);
  }

  lemma {:induction false} ThreadsAfter(s: State, step: Step)
    requires Safe(s, step)
    ensures step.t in s.threads && Apply(s, step).threads == s.threads[step.t := Next(s, step)]
  {
    hide Shared, Next;
  }

  lemma {:induction false} ThreadSelf(s: State, step: Step)
    requires Safe(s, step) && Inv(s)
    requires step.Allocate? || step.Insert? || step.WriteData? || step.ReleaseCheck? || step.FlushBegin? || step.Touch? || step.MmWrites?
    ensures ThreadInv(Apply(s, step), Next(s, step))
  {
    hide ListsInv, Covered, Holders, Keepers, FindView, Inserted, Without;
    var x := s.threads[step.t];
    assert ThreadInv(s, x);
  }

  lemma {:induction false} ThreadPlain(s: State, step: Step)
    requires Safe(s, step)
    requires !(step.Allocate? || step.Insert? || step.WriteData? || step.ReleaseCheck? || step.FlushBegin? || step.Touch? || step.MmWrites?)
    ensures ThreadInv(Apply(s, step), Next(s, step))
  {
    hide Apply, FindView, Dropped;
  }

  lemma {:induction false} StepThread(s: State, step: Step, u: ThreadId)
    requires Safe(s, step) && Inv(s) && u in Apply(s, step).threads
    ensures ThreadInv(Apply(s, step), Apply(s, step).threads[u])
  {
    hide ThreadInv, Inv, Shared, Next, Safe;
    ThreadsAfter(s, step);
    if u == step.t {
      match step {
        case Allocate(_, _) => ThreadSelf(s, step);
        case Insert(_) => ThreadSelf(s, step);
        case WriteData(_) => ThreadSelf(s, step);
        case ReleaseCheck(_) => ThreadSelf(s, step);
        case FlushBegin(_) => ThreadSelf(s, step);
        case Touch(_) => ThreadSelf(s, step);
        case MmWrites(_, _) => ThreadSelf(s, step);
        case _ => ThreadPlain(s, step);
      }
    } else {
      ThreadOther(s, step, u);
    }
  }

  // ----- no write is forgotten -----

  /** A dirty VACB stays dirty, or its flusher takes over, or its writes are done with. */
  ghost predicate DirtyGoesOn(s: State, step: Step, v: Vid, w: Write)
    requires Safe(s, step)
  {
    var r := Apply(s, step);
    || (v in r.vacbs && r.vacbs[v].dirty)
    || (v in r.vacbs && Next(s, step) == Unmarked(v, true))
    || w !in r.unflushed
    || (step.FreePrivate? && step.v == v && Elsewhere(s, Some(v), step.t, w))
  }

  lemma {:induction false} DirtyByDropper(s: State, step: Step, v: Vid, w: Write)
    requires Safe(s, step) && Drops(step) && CountInv(s, v) && CountInv(s, step.v) && InChunk(s, v, w) && s.vacbs[v].dirty
    ensures DirtyGoesOn(s, step, v, w)
  {
    hide Without, ListOf, Dropped, Holders, Keepers;
    if step.FreePrivate? {
      DirtyFreed(s, step, v, w);
    } else {
      UnusedFacts(s, step.v);
    }
  }

  lemma {:induction false} DirtyFreed(s: State, step: Step, v: Vid, w: Write)
    requires Safe(s, step) && step.FreePrivate? && CountInv(s, v) && InChunk(s, v, w) && s.vacbs[v].dirty
    ensures DirtyGoesOn(s, step, v, w)
    ensures v != step.v ==> var r := Apply(s, step); v in r.vacbs && r.vacbs[v].dirty && InChunk(r, v, w)
  {
    hide Without, ListOf, Dropped, Holders, Keepers, Elsewhere;
  }

  /** A write that is known elsewhere stays covered when the VACB goes without a flush. */
  lemma {:induction false} ElsewhereCovered(s: State, step: Step, w: Write)
    requires Safe(s, step) && Inv(s) && step.FreePrivate? && Elsewhere(s, Some(step.v), step.t, w)
    ensures Covered(Apply(s, step), w)
  {
    hide CountInv, ListsInv, ThreadInv, Safe, Shared, Next, Apply;
    if u :| u != step.v && InChunk(s, u, w) && s.vacbs[u].dirty {
      InvCount(s, u);
      DirtyFreed(s, step, u, w);
    } else {
      var t :| t != step.t && t in s.threads && Minds(s, s.threads[t], w);
      MindedByOther(s, step, w, t);
    }
  }

  /** So does one whose writer gets an exception. */
  lemma {:induction false} FailureCovered(s: State, step: Step, w: Write)
    requires Safe(s, step) && Inv(s) && step.WriteFails? && Elsewhere(s, None, step.t, w)
    ensures Covered(Apply(s, step), w)
  {
    hide CountInv, ListsInv, ThreadInv, Safe, Next, Apply;
    if u :| InChunk(s, u, w) && s.vacbs[u].dirty {
      FailureKeeps(s, step);
      assert InChunk(Apply(s, step), u, w);
    } else {
      var t :| t != step.t && t in s.threads && Minds(s, s.threads[t], w);
      MindedByOther(s, step, w, t);
    }
  }

  lemma {:induction false} FailureKeeps(s: State, step: Step)
    requires Safe(s, step) && step.WriteFails?
    ensures Apply(s, step).vacbs == s.vacbs
  {
  }

  lemma {:induction false} FailureForgets(s: State, step: Step, w: Write)
    requires Safe(s, step) && step.WriteFails? && w in Apply(s, step).unflushed && Minds(s, s.threads[step.t], w)
    ensures Elsewhere(s, None, step.t, w)
  {
    hide Elsewhere;
  }

  lemma {:induction false} DirtyByHolder(s: State, step: Step, v: Vid, w: Write)
    requires Safe(s, step) && Inv(s) && InChunk(s, v, w) && s.vacbs[v].dirty
    requires step.Mark? || step.Release? || step.FlushUnmark? || step.FlushRemark?
    ensures DirtyGoesOn(s, step, v, w)
  {
    hide ListsInv, ThreadInv, Without, ListOf, ChunkWrites, Holders, Keepers, Covered;
    assert CountInv(s, v);
    HolderFacts(s, step.t, s.threads[step.t].v);
  }

  lemma {:induction false} DirtyByOther(s: State, step: Step, v: Vid, w: Write)
    requires Safe(s, step) && Inv(s) && InChunk(s, v, w) && s.vacbs[v].dirty && !Drops(step)
    requires !(step.Mark? || step.Release? || step.FlushUnmark? || step.FlushRemark?)
    ensures DirtyGoesOn(s, step, v, w)
  {
    hide ListsInv, CountInv, Without, ListOf, ChunkWrites, FindView, Inserted, Covered;
    assert ThreadInv(s, s.threads[step.t]);
  }

  /** A thread that minds a write goes on minding it, or marks the VACB, or has flushed it. */
  lemma {:induction false} MindedOn(s: State, step: Step, w: Write)
    requires Safe(s, step) && Inv(s) && w in Apply(s, step).unflushed && w in s.unflushed && Minds(s, s.threads[step.t], w)
    requires !step.WriteFails?
    ensures Covered(Apply(s, step), w)
  {
    hide ListsInv, CountInv, Shared, Next, Covered;
    var x := s.threads[step.t];
    InvCount(s, x.v);
    InvThread(s, step.t);
    HolderFacts(s, step.t, x.v);
    if step.Mark? || step.FlushRemark? || (step.ReleaseCheck? && s.vacbs[x.v].dirty) {
      MindedMarked(s, step, w);
    } else {
      MindedStill(s, step, w);
    }
  }

  lemma {:induction false} MindedMarked(s: State, step: Step, w: Write)
    requires Safe(s, step) && Minds(s, s.threads[step.t], w) && ThreadInv(s, s.threads[step.t])
    requires step.Mark? || step.FlushRemark? || step.ReleaseCheck?
    requires step.ReleaseCheck? ==> s.vacbs[s.threads[step.t].v].dirty
    ensures Covered(Apply(s, step), w)
  {
    hide Without, Next;
    var r, v := Apply(s, step), s.threads[step.t].v;
    assert InChunk(s, v, w);
    assert InChunk(r, v, w) && r.vacbs[v].dirty;
  }

  lemma {:induction false} MindedStill(s: State, step: Step, w: Write)
    requires Safe(s, step) && Minds(s, s.threads[step.t], w) && ThreadInv(s, s.threads[step.t]) && w in s.unflushed
    requires w in Apply(s, step).unflushed && !step.WriteFails? && !step.Mark? && !step.FlushRemark?
    requires step.ReleaseCheck? ==> !s.vacbs[s.threads[step.t].v].dirty
    ensures Covered(Apply(s, step), w)
  {
    hide Without, ListOf, FindView, Inserted, Forgotten;
    var r := Apply(s, step);
    assert InChunk(s, s.threads[step.t].v, w);
    assert Minds(r, r.threads[step.t], w);
  }

  lemma {:induction false} MindedByOther(s: State, step: Step, w: Write, u: ThreadId)
    requires Safe(s, step) && Inv(s) && u in s.threads && u != step.t && Minds(s, s.threads[u], w)
    ensures Covered(Apply(s, step), w)
  {
    hide Inv, Apply, Safe, Holders, Keepers, CountInv;
    var r := Apply(s, step);
    var x := s.threads[u];
    ThreadsAfter(s, step);
    InvCount(s, x.v);
    StepCount(s, step, x.v);
    HolderFacts(s, u, x.v);
    HolderFacts(r, u, x.v);
    StepKept(s, step, x.v);
    assert Minds(r, r.threads[u], w);
  }

  lemma {:induction false} InvCount(s: State, v: Vid)
    requires Inv(s)
    ensures CountInv(s, v)
  {
    hide CountInv;
  }

  lemma {:induction false} DirtyCovered(s: State, step: Step, v: Vid, w: Write)
    requires Safe(s, step) && Inv(s) && w in Apply(s, step).unflushed && InChunk(s, v, w) && s.vacbs[v].dirty
    ensures Covered(Apply(s, step), w)
  {
    hide CountInv, ListsInv, ThreadInv, Safe, Enabled, Shared, Next, Apply, Inv, Elsewhere;
    var r := Apply(s, step);
    ThreadsAfter(s, step);
    InvCount(s, v);
    if Drops(step) {
      InvCount(s, step.v);
      DirtyByDropper(s, step, v, w);
    } else if step.Mark? || step.Release? || step.FlushUnmark? || step.FlushRemark? {
      DirtyByHolder(s, step, v, w);
    } else {
      DirtyByOther(s, step, v, w);
    }
    if step.FreePrivate? && step.v == v && Elsewhere(s, Some(v), step.t, w) {
      ElsewhereCovered(s, step, w);
    } else {
      StepKept(s, step, v);
      assert v in r.vacbs && InChunk(r, v, w);
      if !r.vacbs[v].dirty {
        assert Minds(r, r.threads[step.t], w);
      }
    }
  }

  lemma {:induction false} StepCover(s: State, step: Step, w: Write)
    requires Safe(s, step) && Inv(s) && w in Apply(s, step).unflushed
    ensures Covered(Apply(s, step), w)
  {
    hide CountInv, ListsInv, ThreadInv, Safe, Enabled, Shared, Next, Apply;
    var r := Apply(s, step);
    ThreadsAfter(s, step);
    if w !in s.unflushed {
      OnlyWritten(s, step, w);
      assert Minds(r, r.threads[step.t], w);
    } else if v :| InChunk(s, v, w) && s.vacbs[v].dirty {
      DirtyCovered(s, step, v, w);
    } else {
      var u :| u in s.threads && Minds(s, s.threads[u], w);
      if u == step.t && step.WriteFails? {
        FailureForgets(s, step, w);
        FailureCovered(s, step, w);
      } else if u == step.t {
        MindedOn(s, step, w);
      } else {
        MindedByOther(s, step, w, u);
      }
    }
  }

  lemma {:induction false} OnlyWritten(s: State, step: Step, w: Write)
    requires Safe(s, step) && w in Apply(s, step).unflushed && w !in s.unflushed
    ensures Next(s, step).Wrote? && w in Next(s, step).ws
  {
    hide Without, ListOf, FindView, Inserted, ChunkWrites, Dropped;
  }

  // ----- the lists -----

  /** The lists are the same, and so is every VACB on them but for its reference count. */
  ghost predicate SameLists(s: State, r: State) {
    && r.lists == s.lists && r.lru == s.lru && r.dirtyList == s.dirtyList && r.dirtyPages == s.dirtyPages
    && forall v :: v in s.lru && v in s.vacbs ==> SameVacb(s, r, v)
  }

  ghost predicate SameVacb(s: State, r: State, v: Vid)
    requires v in s.vacbs
  {
    && v in r.vacbs && r.vacbs[v].dirty == s.vacbs[v].dirty
    && r.vacbs[v].file == s.vacbs[v].file && r.vacbs[v].offset == s.vacbs[v].offset
  }

  lemma {:induction false} ListsSame(s: State, r: State)
    requires ListsInv(s) && SameLists(s, r)
    ensures ListsInv(r)
  {
    hide Ascending, NoDup, Aligned;
    forall file, x ensures x in ListOf(r, file) <==> InFile(r, file, x) {
      assert x in ListOf(s, file) <==> InFile(s, file, x);
    }
  }

  lemma {:induction false} ListsTouch(s: State, v: Vid)
    requires ListsInv(s) && v in s.lru
    ensures ListsInv(s.(lru := Without(s.lru, v) + [v]))
  {
    hide Ascending, Aligned;
    var r := s.(lru := Without(s.lru, v) + [v]);
    WithoutNoDup(s.lru, v);
    NoDupAppend(Without(s.lru, v), v);
    assert forall u :: u in r.lru <==> u in s.lru;
    forall file, x ensures x in ListOf(r, file) <==> InFile(r, file, x) {
      assert x in ListOf(s, file) <==> InFile(s, file, x);
    }
  }

  lemma {:induction false} ListsMark(s: State, v: Vid)
    requires ListsInv(s) && v in s.lru
    ensures ListsInv(MarkDirty(s, v))
  {
    hide Ascending, Aligned;
    if !s.vacbs[v].dirty {
      var m := s.(vacbs := s.vacbs[v := s.vacbs[v].(refs := s.vacbs[v].refs + 1, dirty := true)],
                  dirtyList := s.dirtyList + [v], dirtyPages := s.dirtyPages + PagesPerVacb);
      NoDupAppend(s.dirtyList, v);
      forall file, x ensures x in ListOf(m, file) <==> InFile(m, file, x) {
        assert x in ListOf(s, file) <==> InFile(s, file, x);
      }
      ListsTouch(m, v);
    }
  }

  lemma {:induction false} ListsUnmark(s: State, v: Vid)
    requires ListsInv(s) && v in s.lru && (s.vacbs[v].dirty ==> s.vacbs[v].refs != 1)
    ensures ListsInv(UnmarkDirty(s, v))
  {
    hide Ascending, Aligned;
    if s.vacbs[v].dirty {
      var r := UnmarkDirty(s, v);
      WithoutNoDup(s.dirtyList, v);
      forall file, x ensures x in ListOf(r, file) <==> InFile(r, file, x) {
        assert x in ListOf(s, file) <==> InFile(s, file, x);
      }
    }
  }

  lemma {:induction false} WithoutAscending(views: seq<View>, x: View)
    requires Ascending(views)
    ensures Ascending(Without(views, x))
  {
    hide Ascending;
    if views != [] {
      AscendingTail(views);
      WithoutAscending(views[1..], x);
      if views[0] != x {
        AscendingCons(views[0], Without(views[1..], x));
      }
    }
  }

  lemma {:induction false} ListsUnlist(s: State, v: Vid)
    requires ListsInv(s) && v in s.lru && !s.vacbs[v].dirty
    ensures ListsInv(Unlist(s, v))
  {
    hide Ascending, Aligned;
    var r := Unlist(s, v);
    var x := s.vacbs[v];
    WithoutNoDup(s.lru, v);
    assert InFile(s, x.file, View(v, x.offset));
    WithoutAscending(ListOf(s, x.file), View(v, x.offset));
    forall file, y ensures y in ListOf(r, file) <==> InFile(r, file, y) {
      assert y in ListOf(s, file) <==> InFile(s, file, y);
    }
  }

  lemma {:induction false} UnlistUnmark(s: State, v: Vid)
    requires v in s.vacbs && (s.vacbs[v].dirty ==> s.vacbs[v].refs != 1)
    ensures v in UnmarkDirty(s, v).vacbs && UnmarkDirty(Unlist(s, v), v) == Unlist(UnmarkDirty(s, v), v)
    ensures !UnmarkDirty(s, v).vacbs[v].dirty && UnmarkDirty(s, v).lru == s.lru
  {
    hide Without;
  }

  lemma {:induction false} ListsInsert(s: State, own: Vid, refs: int)
    requires ListsInv(s) && own in s.vacbs && own !in s.lru && !s.vacbs[own].dirty && Aligned(s.vacbs[own].offset)
    requires forall x :: x in ListOf(s, s.vacbs[own].file) ==> x.offset != s.vacbs[own].offset
    ensures var x := s.vacbs[own];
            ListsInv(Add(s, own, refs).(lists := s.lists[x.file := Inserted(ListOf(s, x.file), View(own, x.offset))], lru := s.lru + [own]))
  {
    hide Ascending, Aligned;
    var x := s.vacbs[own];
    var r := Add(s, own, refs).(lists := s.lists[x.file := Inserted(ListOf(s, x.file), View(own, x.offset))], lru := s.lru + [own]);
    NoDupAppend(s.lru, own);
    assert Ascending([]) by { AscendingEmpty(); }
    InsertedAscending(ListOf(s, x.file), View(own, x.offset));
    forall file, y ensures y in ListOf(r, file) <==> InFile(r, file, y) {
      assert y in ListOf(s, file) <==> InFile(s, file, y);
    }
  }

  lemma {:induction false} AscendingEmpty()
    ensures Ascending([])
  {
  }

  ghost predicate Relists(s: State, step: Step)
    requires Safe(s, step)
  {
    var x := s.threads[step.t];
    || step.Touch? || step.Mark? || step.FlushUnmark? || (step.FlushRemark? && x.was) || step.Evict? || step.Purge? || step.Delete?
    || (step.Insert? && FindView(ListOf(s, x.file), x.point).None?)
  }

  ghost predicate Alone(s: State, t: ThreadId, v: Vid) {
    v in s.vacbs && s.vacbs[v].refs == 1 && !Listed(s, v) && Keepers(s, v) == {t} && Holders(s, v) == {}
  }

  lemma {:induction false} FreedByDropper(s: State, step: Step, v: Vid)
    requires Safe(s, step) && Inv(s) && v in s.vacbs && v !in Apply(s, step).vacbs && Drops(step)
    ensures Keeps(s.threads[step.t], v) && step.FreePrivate?
  {
    hide ListsInv, ThreadInv, Covered, Holders, Keepers, ListOf, Without, ChunkWrites, Next;
    assert CountInv(s, step.v);
    if !step.FreePrivate? {
      UnusedFacts(s, step.v);
    }
  }

  lemma {:induction false} FreedByOther(s: State, step: Step, v: Vid)
    requires Safe(s, step) && Inv(s) && v in s.vacbs && v !in Apply(s, step).vacbs && !Drops(step)
    ensures Keeps(s.threads[step.t], v) && !s.vacbs[v].dirty
  {
    hide Inv, CountInv, Shared, Next;
    InvCount(s, v);
    InvThread(s, step.t);
    if Holds(s.threads[step.t], v) {
      HolderFacts(s, step.t, v);
    }
    FreedByKeeper(s, step, v);
  }

  lemma {:induction false} InvThread(s: State, t: ThreadId)
    requires Inv(s)
    ensures t in s.threads ==> ThreadInv(s, s.threads[t])
  {
    hide ThreadInv, ListsInv, CountInv, Covered;
  }

  lemma {:induction false} FreedByKeeper(s: State, step: Step, v: Vid)
    requires Safe(s, step) && v in s.vacbs && v !in Apply(s, step).vacbs && !Drops(step)
    requires Holds(s.threads[step.t], v) ==> s.vacbs[v].refs >= (if s.vacbs[v].dirty then 3 else 2)
    requires ThreadInv(s, s.threads[step.t])
    ensures Keeps(s.threads[step.t], v) && !s.vacbs[v].dirty
  {
    hide FindView, ListOf, Inserted, Without, ChunkWrites, Next, Forgotten;
  }

  /** A VACB is freed by its only keeper, on no list, with no holder, and clean or flushed just before. */
  lemma {:induction false} FreedAlone(s: State, step: Step, v: Vid)
    requires Safe(s, step) && Inv(s) && v in s.vacbs && v !in Apply(s, step).vacbs
    ensures Alone(s, step.t, v) && (s.vacbs[v].dirty ==> step.FreePrivate?)
  {
    hide Safe, Apply, ListsInv, ThreadInv, Covered;
    if Drops(step) {
      FreedByDropper(s, step, v);
    } else {
      FreedByOther(s, step, v);
    }
    assert CountInv(s, v);
    ThreadsAfter(s, step);
    KeeperFacts(s, step.t, v);
  }

  lemma {:induction false} FlagQuiet(s: State, step: Step, v: Vid)
    requires Safe(s, step) && v in s.vacbs && v in Apply(s, step).vacbs && !Relists(s, step) && !Keeps(s.threads[step.t], v)
    ensures Apply(s, step).vacbs[v].dirty == s.vacbs[v].dirty
  {
    hide FindView, ListOf, Inserted, Without, ChunkWrites, Next;
  }

  lemma {:induction false} ListsQuiet(s: State, step: Step)
    requires Safe(s, step) && !Relists(s, step)
    ensures var r := Apply(s, step); r.lists == s.lists && r.lru == s.lru && r.dirtyList == s.dirtyList && r.dirtyPages == s.dirtyPages
  {
    hide Safe, Enabled, FindView, ListOf, Inserted, Without, ChunkWrites, Next;
  }

  lemma {:induction false} QuietSteps(s: State, step: Step)
    requires Safe(s, step) && Inv(s) && !Relists(s, step)
    ensures SameLists(s, Apply(s, step))
  {
    hide Inv, Safe, Apply, CountInv, Relists;
    ListsQuiet(s, step);
    ThreadsAfter(s, step);
    forall v | v in s.lru && v in s.vacbs ensures SameVacb(s, Apply(s, step), v) {
      if v !in Apply(s, step).vacbs {
        FreedAlone(s, step, v);
      }
      StepKept(s, step, v);
      InvCount(s, v);
      UnusedFacts(s, v);
      FlagQuiet(s, step, v);
    }
  }

  lemma {:induction false} ListsDropped(s: State, step: Step)
    requires Safe(s, step) && Inv(s) && (step.Evict? || step.Purge? || step.Delete?)
    ensures ListsInv(Apply(s, step))
  {
    hide ListsInv, ThreadInv, Covered, Holders, Keepers, ListOf, ChunkWrites, Without, Unlist, UnmarkDirty, Dropped, Next;
    var v := step.v;
    var r := Apply(s, step);
    assert CountInv(s, v);
    UnusedFacts(s, v);
    if step.Evict? {
      ListsUnlist(s, v);
      ListsSame(Unlist(s, v), r);
    } else {
      ListsUnmark(s, v);
      UnlistUnmark(s, v);
      ListsUnlist(UnmarkDirty(s, v), v);
      var m := Unlist(UnmarkDirty(s, v), v);
      UnlistGone(UnmarkDirty(s, v), v);
      ListsSame(m, r);
    }
  }

  lemma {:induction false} UnlistGone(s: State, v: Vid)
    requires v in s.vacbs
    ensures v !in Unlist(s, v).lru
  {
  }

  lemma {:induction false} ListsInserted(s: State, step: Step)
    requires Safe(s, step) && Inv(s) && step.Insert? && Relists(s, step)
    ensures ListsInv(Apply(s, step))
  {
    hide ListsInv, Covered, Holders, Keepers, ChunkWrites, Inserted, Ascending, Aligned;
    var x := s.threads[step.t];
    assert CountInv(s, x.own) && ThreadInv(s, x);
    KeeperFacts(s, step.t, x.own);
    RoundDownCovers(x.point);
    ListsInsert(s, x.own, 1);
    var r := Apply(s, step);
    ListsSame(r.(threads := s.threads), r);
  }

  lemma {:induction false} StepLists(s: State, step: Step)
    requires Safe(s, step) && Inv(s)
    ensures ListsInv(Apply(s, step))
  {
    hide ListsInv, CountInv, ThreadInv, Covered, Inv, Apply, Safe, FindView, ListOf;
    match step {
      case Evict(_, _) => ListsDropped(s, step);
      case Purge(_, _) => ListsDropped(s, step);
      case Delete(_, _) => ListsDropped(s, step);
      case Touch(_) => ListsHolder(s, step);
      case Mark(_) => ListsHolder(s, step);
      case FlushUnmark(_) => ListsHolder(s, step);
      case FlushRemark(_) => ListsHolder(s, step);
      case Insert(_) =>
        if Relists(s, step) {
          ListsInserted(s, step);
        } else {
          ListsAlone(s, step);
        }
      case _ => ListsAlone(s, step);
    }
  }

  lemma {:induction false} ListsAlone(s: State, step: Step)
    requires Safe(s, step) && Inv(s) && !Relists(s, step)
    ensures ListsInv(Apply(s, step))
  {
    hide ListsInv, Apply, Safe, Relists, CountInv, ThreadInv, Covered;
    QuietSteps(s, step);
    ListsSame(s, Apply(s, step));
  }

  lemma {:induction false} ListsHolder(s: State, step: Step)
    requires Safe(s, step) && Inv(s) && (step.Touch? || step.Mark? || step.FlushUnmark? || step.FlushRemark?)
    ensures ListsInv(Apply(s, step))
  {
    hide ListsInv, ThreadInv, Covered, Without, MarkDirty, UnmarkDirty, CountInv, Next;
    var x := s.threads[step.t];
    var r := Apply(s, step);
    InvCount(s, x.v);
    HolderFacts(s, step.t, x.v);
    match step {
      case Touch(_) =>
        ListsTouch(s, x.v);
        ListsSame(s.(lru := Without(s.lru, x.v) + [x.v]), r);
      case Mark(_) =>
        ListsMark(s, x.v);
        ListsSame(MarkDirty(s, x.v), r);
      case FlushUnmark(_) =>
        ListsUnmark(s, x.v);
        ListsSame(UnmarkDirty(s, x.v), r);
      case FlushRemark(_) =>
        if x.was {
          ListsMark(s, x.v);
          ListsSame(MarkDirty(s, x.v), r);
        } else {
          ListsSame(s, r);
        }
    }
  }

  lemma {:induction false} StepInv(s: State, step: Step)
    requires Inv(s) && Enabled(s, step)
    ensures Safe(s, step) && Inv(Apply(s, step))
  {
    hide ListsInv, ThreadInv, Covered, CountInv, Safe, Enabled, Apply;
    StepSafe(s, step);
    var r := Apply(s, step);
    StepLists(s, step);
    forall v ensures CountInv(r, v) {
      StepCount(s, step, v);
    }
    forall u | u in r.threads ensures ThreadInv(r, r.threads[u]) {
      StepThread(s, step, u);
    }
    forall w | w in r.unflushed ensures Covered(r, w) {
      StepCover(s, step, w);
    }
  }

  // ----- runs -----

  ghost predicate Goes(s: State, step: Step, r: State) {
    Enabled(s, step) && (Safe(s, step) ==> r == Apply(s, step))
  }

  /** A run; a step on freed memory could be followed by any state. */
  ghost predicate IsRun(states: seq<State>, steps: seq<Step>) {
    && |states| == |steps| + 1 && Init(states[0])
    && forall i :: 0 <= i < |steps| ==> Goes(states[i], steps[i], states[i + 1])
  }

  /** No step of any run uses a freed VACB, and the invariant holds all along. */
  lemma {:induction false} RunInv(states: seq<State>, steps: seq<Step>, k: nat)
    requires IsRun(states, steps) && k < |states|
    ensures Inv(states[k])
    ensures k < |steps| ==> Safe(states[k], steps[k]) && states[k + 1] == Apply(states[k], steps[k])
  {
    hide Inv, Safe, Enabled, Apply, Init;
    if k == 0 {
      InitInv(states[0]);
    } else {
      var i := k - 1;
      RunInv(states, steps, i);
      assert Goes(states[i], steps[i], states[i + 1]);
      StepInv(states[i], steps[i]);
    }
    if k < |steps| {
      assert Goes(states[k], steps[k], states[k + 1]);
      StepSafe(states[k], steps[k]);
    }
  }

  /** The step puts the write on disk. */
  ghost predicate WritesOut(s: State, step: Step, w: Write) {
    match step
    case FlushEnd(_, _, written) => w in written
    case MmWrites(_, written) => w in written
    case FreePrivate(_, v, ok) => ok && InChunk(s, v, w) && v in s.vacbs && s.vacbs[v].dirty
    case _ => false
  }

  /** The step gives the write up: its chunk is purged, or it has raised, or a deletion fails to flush it, with nobody else to see to it. */
  ghost predicate GivesUp(s: State, step: Step, w: Write) {
    match step
    case WriteFails(t) => t in s.threads && s.threads[t].Wrote? && w in s.threads[t].ws && !Elsewhere(s, None, t, w)
    case Purge(_, v) => InChunk(s, v, w)
    case FreePrivate(_, v, ok) => !ok && InChunk(s, v, w) && v in s.vacbs && s.vacbs[v].dirty && !Elsewhere(s, Some(v), step.t, w)
    case _ => false
  }

  lemma {:induction false} WriteStays(s: State, step: Step, w: Write)
    requires Safe(s, step) && w in s.unflushed
    ensures w in Apply(s, step).unflushed || WritesOut(s, step, w) || GivesUp(s, step, w)
  {
    hide Without, ListOf, FindView, Inserted, Next;
  }

  /**
    From the moment a write is made it is on a dirty VACB or minded by a thread, until some
    step has put it on disk or has given it up.
  */
  lemma {:induction false} NoWriteLost(states: seq<State>, steps: seq<Step>, i: nat, j: nat, w: Write)
    requires IsRun(states, steps) && i <= j < |states| && w in states[i].unflushed
    ensures || (w in states[j].unflushed && Covered(states[j], w))
            || (exists k :: i <= k < j && (WritesOut(states[k], steps[k], w) || GivesUp(states[k], steps[k], w)))
  {
    hide ListsInv, CountInv, ThreadInv, Covered, Safe, Apply, Goes, Init, WritesOut, GivesUp;
    RunInv(states, steps, j);
    if i < j {
      NoWriteLost(states, steps, i, j - 1, w);
      if w in states[j - 1].unflushed {
        RunInv(states, steps, j - 1);
        WriteStays(states[j - 1], steps[j - 1], w);
      }
    }
  }

  /** Two threads that both miss a view never leave two VACBs for it. */
  lemma {:induction false} OneVacbPerChunk(states: seq<State>, steps: seq<Step>, k: nat, u: Vid, v: Vid)
    requires IsRun(states, steps) && k < |states|
    requires var s := states[k]; Listed(s, u) && Listed(s, v) && u in s.vacbs && v in s.vacbs
    requires var s := states[k]; s.vacbs[u].file == s.vacbs[v].file && s.vacbs[u].offset == s.vacbs[v].offset
    ensures u == v
  {
    hide CountInv, ThreadInv, Covered, IsRun;
    RunInv(states, steps, k);
    var s := states[k];
    var x := s.vacbs[v];
    assert InFile(s, x.file, View(u, x.offset)) && InFile(s, x.file, View(v, x.offset));
    var views := ListOf(s, x.file);
    var i :| 0 <= i < |views| && views[i] == View(u, x.offset);
    var j :| 0 <= j < |views| && views[j] == View(v, x.offset);
    assert i == j;
  }

  /**
    When every thread is idle, the VACBs are exactly the listed ones, each with one reference
    and one more if it is dirty, and every write that is not on disk belongs to a dirty VACB
    that the lazy writer's list shows; with no dirty pages, everything is on disk.
  */
  lemma {:induction false} AtRest(states: seq<State>, steps: seq<Step>, k: nat)
    requires IsRun(states, steps) && k < |states|
    requires forall t :: t in states[k].threads ==> states[k].threads[t] == Idle
    ensures var s := states[k];
            && (forall v :: v in s.vacbs <==> v in s.lru)
            && (forall v :: v in s.vacbs ==> s.vacbs[v].refs == if v in s.dirtyList then 2 else 1)
            && (forall w :: w in s.unflushed ==> exists v :: v in s.dirtyList && InChunk(s, v, w))
            && (s.dirtyPages == 0 ==> s.unflushed == {})
  {
    hide IsRun, ThreadInv, Ascending, NoDup, Aligned;
    RunInv(states, steps, k);
    var s := states[k];
    forall v | v in s.vacbs ensures v in s.lru && s.vacbs[v].refs == if v in s.dirtyList then 2 else 1 {
      assert CountInv(s, v) && Keepers(s, v) == {} && Holders(s, v) == {};
    }
    forall w | w in s.unflushed ensures exists v :: v in s.dirtyList && InChunk(s, v, w) {
      assert Covered(s, w);
      var v :| InChunk(s, v, w) && s.vacbs[v].dirty;
      assert v in s.dirtyList;
    }
    if s.dirtyPages == 0 {
      assert s.dirtyList == [];
    }
  }
}
