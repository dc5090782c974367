/**
  Key control blocks (ntoskrnl/config/cmkcbncb.c and ntoskrnl/config/cmdelay.c): a tree whose
  links count as references, a hash table of the keys that exist, a list of unreferenced KCBs
  whose closing is put off, and a list of dereferences that are put off.  This module says on
  values what the operations do and what they keep; KcbCache has the operations.
*/
module KcbTree {
  import opened Common
  import opened Seqs

  type Id = nat

  /** What CmpInsertKeyHash compares. */
  datatype Key = Key(conv: nat, hive: nat, cell: nat)

  datatype Kcb = Kcb(key: Key, name: string, parent: Option<Id>, levels: nat, refs: nat, delete: bool, noDelay: bool)

  /** `handles`, `leaked`: references that a caller owns, and references that nobody will drop. */
  datatype Cache = Cache(kcbs: map<Id, Kcb>, chains: map<nat, seq<Id>>, lru: seq<Id>, elements: int,
                         deferred: seq<Id>, handles: multiset<Id>, leaked: multiset<Id>)

  const MaxRefs := 0xFFFF
  const MaxLevels := 512

  function ChainOf(c: Cache, i: nat): seq<Id> {
    if i in c.chains then c.chains[i] else []
  }

  ghost function Children(c: Cache, id: Id): set<Id> {
    set k | k in c.kcbs && c.kcbs[k].parent == Some(id)
  }

  // ----- the invariant -----

  /** Every reference is a child, a handle, a put-off dereference or a leak. */
  ghost predicate RefInv(c: Cache, id: Id) {
    var known := |Children(c, id)| + c.handles[id] + multiset(c.deferred)[id] + c.leaked[id];
    if id in c.kcbs then c.kcbs[id].refs == known <= MaxRefs else known == 0
  }

  /** Exactly the unreferenced KCBs, but for `z`, wait on the delayed-close list. */
  ghost predicate DelayInv(c: Cache, z: Option<Id>) {
    && NoDup(c.lru) && c.elements == |c.lru|
    && (forall id :: id in c.lru <==> id in c.kcbs && c.kcbs[id].refs == 0 && z != Some(id))
  }

  /** A KCB is in its hash chain once unless its key has been deleted; no two stand for one key. */
  ghost predicate ChainInv(c: Cache, index: nat -> nat) {
    && (forall i :: i in c.chains ==> NoDup(c.chains[i]))
    && (forall i, id :: id in ChainOf(c, i) <==> InChain(c, index, i, id))
    && (forall a, b :: a in c.kcbs && b in c.kcbs && !c.kcbs[a].delete && !c.kcbs[b].delete && c.kcbs[a].key == c.kcbs[b].key ==> a == b)
  }

  ghost predicate InChain(c: Cache, index: nat -> nat, i: nat, id: Id) {
    id in c.kcbs && !c.kcbs[id].delete && index(c.kcbs[id].key.conv) == i
  }

  ghost predicate LevelInv(c: Cache, id: Id) {
    id in c.kcbs ==>
      var x := c.kcbs[id];
      && 1 <= x.levels < MaxLevels
      && match x.parent
         case None => x.levels == 1
         case Some(p) => p in c.kcbs && x.levels == c.kcbs[p].levels + 1
  }

  ghost predicate InvBut(c: Cache, index: nat -> nat, z: Option<Id>) {
    && DelayInv(c, z) && ChainInv(c, index)
    && (forall id :: RefInv(c, id)) && (forall id :: LevelInv(c, id))
  }

  ghost predicate Inv(c: Cache, index: nat -> nat) {
    InvBut(c, index, None)
  }

  // ----- the parts of the operations -----

  /** One handle is given up; the KCB may be left with no reference. */
  ghost function Dropped(c: Cache, k: Id): Cache
    requires k in c.kcbs && c.kcbs[k].refs > 0
  {
    c.(kcbs := c.kcbs[k := c.kcbs[k].(refs := c.kcbs[k].refs - 1)], handles := c.handles - multiset{k})
  }

  ghost function Raised(c: Cache, k: Id): Cache
    requires k in c.kcbs
  {
    c.(kcbs := c.kcbs[k := c.kcbs[k].(refs := c.kcbs[k].refs + 1)], handles := c.handles + multiset{k})
  }

  /** CmpAddToDelayedClose */
  ghost function Delayed(c: Cache, k: Id): Cache {
    c.(lru := [k] + c.lru, elements := c.elements + 1)
  }

  /** CmpRemoveFromDelayedClose */
  ghost function Undelayed(c: Cache, k: Id): Cache {
    c.(lru := Without(c.lru, k), elements := c.elements - 1)
  }

  ghost function Unhashed(c: Cache, index: nat -> nat, k: Id): Cache
    requires k in c.kcbs
  {
    var i := index(c.kcbs[k].key.conv);
    c.(chains := c.chains[i := Without(ChainOf(c, i), k)])
  }

  ghost function ParentHandle(c: Cache, k: Id): multiset<Id>
    requires k in c.kcbs
  {
    if c.kcbs[k].parent.Some? then multiset{c.kcbs[k].parent.value} else multiset{}
  }

  /** The KCB is freed; the reference that it had on its parent is now the caller's. */
  ghost function Removed(c: Cache, index: nat -> nat, k: Id): Cache
    requires k in c.kcbs
  {
    var d := if c.kcbs[k].delete then c else Unhashed(c, index, k);
    d.(kcbs := d.kcbs - {k}, handles := d.handles + ParentHandle(c, k))
  }

  // ----- what the parts keep -----

  lemma {:induction false} DroppedRefs(c: Cache, k: Id, id: Id)
    requires RefInv(c, id) && k in c.kcbs && c.handles[k] > 0 && c.kcbs[k].refs > 0
    ensures RefInv(Dropped(c, k), id)
  {
    assert Children(Dropped(c, k), id) == Children(c, id);
  }

  lemma {:induction false} DroppedInv(c: Cache, index: nat -> nat, k: Id)
    requires Inv(c, index) && c.handles[k] > 0
    ensures k in c.kcbs && c.kcbs[k].refs > 0
    ensures var d := Dropped(c, k); InvBut(d, index, if d.kcbs[k].refs == 0 then Some(k) else None)
  {
    hide ChainInv, LevelInv, Children, NoDup;
    assert RefInv(c, k);
    var d := Dropped(c, k);
    SameShape(c, d, index);
    forall id ensures RefInv(d, id) {
      DroppedRefs(c, k, id);
    }
  }

  /** Nothing but reference counts and close flags has changed. */
  ghost predicate OnlyRefs(c: Cache, d: Cache) {
    && (forall id :: id in d.kcbs <==> id in c.kcbs)
    && (forall id :: id in c.kcbs ==> d.kcbs[id] == c.kcbs[id].(refs := d.kcbs[id].refs, noDelay := d.kcbs[id].noDelay))
    && d.chains == c.chains
  }

  lemma {:induction false} SameShape(c: Cache, d: Cache, index: nat -> nat)
    requires OnlyRefs(c, d)
    ensures forall id :: Children(d, id) == Children(c, id)
    ensures ChainInv(c, index) ==> ChainInv(d, index)
    ensures (forall id :: LevelInv(c, id)) ==> forall id :: LevelInv(d, id)
  {
    hide NoDup;
    forall id ensures Children(d, id) == Children(c, id) {
    }
    if ChainInv(c, index) {
      forall i, id ensures id in ChainOf(d, i) <==> InChain(d, index, i, id) {
        assert id in ChainOf(c, i) <==> InChain(c, index, i, id);
      }
    }
    if forall id :: LevelInv(c, id) {
      forall id ensures LevelInv(d, id) {
        assert LevelInv(c, id);
      }
    }
  }

  lemma {:induction false} DelayedInv(c: Cache, index: nat -> nat, k: Id)
    requires InvBut(c, index, Some(k)) && k in c.kcbs && c.kcbs[k].refs == 0
    ensures Inv(Delayed(c, k), index)
  {
    hide ChainInv, LevelInv, Children;
    var d := Delayed(c, k);
    NoDupAppend(c.lru, k);
    SameShape(c, d, index);
    forall id ensures RefInv(d, id) {
      assert RefInv(c, id);
    }
  }

  lemma {:induction false} RaisedInv(c: Cache, index: nat -> nat, k: Id)
    requires Inv(c, index) && k in c.kcbs && 0 < c.kcbs[k].refs < MaxRefs
    ensures Inv(Raised(c, k), index)
  {
    hide ChainInv, LevelInv, Children, NoDup;
    var d := Raised(c, k);
    SameShape(c, d, index);
    forall id ensures RefInv(d, id) {
      assert RefInv(c, id);
    }
  }

  /** A KCB that waits to be closed is taken back into use. */
  lemma {:induction false} RevivedInv(c: Cache, index: nat -> nat, k: Id)
    requires Inv(c, index) && k in c.kcbs && c.kcbs[k].refs == 0
    ensures Inv(Undelayed(Raised(c, k), k), index)
  {
    hide ChainInv, LevelInv, Children, NoDup;
    var d := Undelayed(Raised(c, k), k);
    WithoutNoDup(c.lru, k);
    SameShape(c, d, index);
    forall id ensures RefInv(d, id) {
      assert RefInv(c, id);
    }
  }

  lemma {:induction false} NoChildren(c: Cache, k: Id)
    requires RefInv(c, k) && k in c.kcbs && c.kcbs[k].refs == 0
    ensures Children(c, k) == {} && c.handles[k] == 0 && multiset(c.deferred)[k] == 0 && c.leaked[k] == 0
  {
  }

  lemma {:induction false} RemovedRefs(c: Cache, index: nat -> nat, k: Id, id: Id)
    requires k in c.kcbs && c.kcbs[k].refs == 0 && RefInv(c, k) && RefInv(c, id)
    ensures RefInv(Removed(c, index, k), id)
  {
    var d := Removed(c, index, k);
    NoChildren(c, k);
    SetSwap(Children(c, id), Children(d, id), k);
  }

  lemma {:induction false} RemovedLevels(c: Cache, index: nat -> nat, k: Id, id: Id)
    requires k in c.kcbs && c.kcbs[k].refs == 0 && RefInv(c, k) && LevelInv(c, id)
    ensures LevelInv(Removed(c, index, k), id)
  {
    NoChildren(c, k);
    assert id in c.kcbs && c.kcbs[id].parent == Some(k) ==> id in Children(c, k);
  }

  lemma {:induction false} UnhashedChains(c: Cache, index: nat -> nat, k: Id, d: Cache)
    requires ChainInv(c, index) && k in c.kcbs
    requires d.chains == Unhashed(c, index, k).chains
    requires k !in d.kcbs || d.kcbs[k].delete
    requires forall id :: id != k ==> (id in d.kcbs <==> id in c.kcbs) && (id in c.kcbs ==> d.kcbs[id] == c.kcbs[id])
    ensures ChainInv(d, index)
  {
    hide NoDup;
    var i := index(c.kcbs[k].key.conv);
    WithoutNoDup(ChainOf(c, i), k);
    forall j, id ensures id in ChainOf(d, j) <==> InChain(d, index, j, id) {
      assert id in ChainOf(c, j) <==> InChain(c, index, j, id);
    }
  }

  lemma {:induction false} RemovedInv(c: Cache, index: nat -> nat, k: Id)
    requires InvBut(c, index, Some(k)) && k in c.kcbs && c.kcbs[k].refs == 0
    ensures Inv(Removed(c, index, k), index)
  {
    hide LevelInv, RefInv, NoDup;
    var d := Removed(c, index, k);
    forall id ensures RefInv(d, id) && LevelInv(d, id) {
      RemovedRefs(c, index, k, id);
      RemovedLevels(c, index, k, id);
    }
    if c.kcbs[k].delete {
      forall i, id ensures id in ChainOf(d, i) <==> InChain(d, index, i, id) {
        assert id in ChainOf(c, i) <==> InChain(c, index, i, id);
      }
    } else {
      UnhashedChains(c, index, k, d);
    }
  }

  // ----- the operations -----

  ghost predicate ClosesAtOnce(c: Cache, k: Id, hold: bool)
    requires k in c.kcbs
  {
    hold || c.kcbs[k].noDelay || c.kcbs[k].delete
  }

  /** `d` has KCBs of `c` only, the same but for their reference counts. */
  ghost predicate Thinned(c: Cache, d: Cache) {
    forall id :: id in d.kcbs ==> id in c.kcbs && d.kcbs[id] == c.kcbs[id].(refs := d.kcbs[id].refs)
  }

  /** A KCB that loses its last reference is freed and not kept for a while. */
  ghost predicate Closes(c: Cache, id: Id, hold: bool, alloc: nat -> bool)
    requires id in c.kcbs
  {
    ClosesAtOnce(c, id, hold) || !alloc(c.kcbs[id].levels)
  }

  /** CmpDelayDerefKeyControlBlock; without a delay item the reference is never dropped. */
  ghost function DelayDeref(c: Cache, index: nat -> nat, k: Id, alloc: nat -> bool): (d: Cache)
    requires Inv(c, index) && c.handles[k] > 0
    ensures k in c.kcbs && Inv(d, index) && d.handles == c.handles - multiset{k}
    ensures Thinned(c, d) && (forall id :: id in c.kcbs ==> id in d.kcbs)
    ensures d.deferred == if c.kcbs[k].refs == 1 && alloc(c.kcbs[k].levels) then c.deferred + [k] else c.deferred
    ensures d.leaked == if c.kcbs[k].refs == 1 && !alloc(c.kcbs[k].levels) then c.leaked + multiset{k} else c.leaked
    ensures d.lru == c.lru
  {
    DroppedInv(c, index, k);
    if c.kcbs[k].refs > 1 then Dropped(c, k)
    else
      DeferredInv(c, index, k);
      if alloc(c.kcbs[k].levels) then c.(handles := c.handles - multiset{k}, deferred := c.deferred + [k])
      else c.(handles := c.handles - multiset{k}, leaked := c.leaked + multiset{k})
  }

  lemma {:induction false} DeferredInv(c: Cache, index: nat -> nat, k: Id)
    requires Inv(c, index) && c.handles[k] > 0
    ensures Inv(c.(handles := c.handles - multiset{k}, deferred := c.deferred + [k]), index)
    ensures Inv(c.(handles := c.handles - multiset{k}, leaked := c.leaked + multiset{k}), index)
  {
    hide ChainInv, LevelInv, NoDup, Children;
    var d := c.(handles := c.handles - multiset{k}, deferred := c.deferred + [k]);
    var e := c.(handles := c.handles - multiset{k}, leaked := c.leaked + multiset{k});
    SameShape(c, d, index);
    SameShape(c, e, index);
    forall id ensures RefInv(d, id) && RefInv(e, id) {
      assert RefInv(c, id);
    }
  }

  /**
    CmpDereferenceKeyControlBlockWithLock.  `alloc` tells for each level whether a delay item
    can be had for the KCB of that level; `hold` is CmpHoldLazyFlush.
  */
  ghost function Deref(c: Cache, index: nat -> nat, k: Id, locked: bool, hold: bool, alloc: nat -> bool): (d: Cache)
    requires Inv(c, index) && c.handles[k] > 0
    ensures k in c.kcbs && Inv(d, index) && d.handles == c.handles - multiset{k}
    decreases if k in c.kcbs then c.kcbs[k].levels else 0, 1
  {
    DroppedInv(c, index, k);
    var dropped := Dropped(c, k);
    if dropped.kcbs[k].refs > 0 then dropped
    else if Closes(dropped, k, hold, alloc) then CleanUp(dropped, index, k, locked, hold, alloc)
    else
      DelayedInv(dropped, index, k);
      Delayed(dropped, k)
  }

  /** The reference on the parent was dropped, or its dereference was put off, or leaked. */
  ghost predicate Deferral(c: Cache, d: Cache, k: Id)
    requires k in c.kcbs
  {
    match c.kcbs[k].parent
    case None => d.deferred == c.deferred && d.leaked == c.leaked
    case Some(p) =>
      || (d.deferred == c.deferred && d.leaked == c.leaked)
      || (d.deferred == c.deferred + [p] && d.leaked == c.leaked)
      || (d.deferred == c.deferred && d.leaked == c.leaked + multiset{p})
  }

  /** CmpCleanUpKcbCacheWithLock */
  ghost function CleanUp(c: Cache, index: nat -> nat, k: Id, locked: bool, hold: bool, alloc: nat -> bool): (d: Cache)
    requires InvBut(c, index, Some(k)) && k in c.kcbs && c.kcbs[k].refs == 0
    ensures Inv(d, index) && d.handles == c.handles
    decreases c.kcbs[k].levels, 0
  {
    RemovedInv(c, index, k);
    Placed(c, index, k);
    var removed := Removed(c, index, k);
    if c.kcbs[k].parent == None then removed
    else if locked then Deref(removed, index, c.kcbs[k].parent.value, locked, hold, alloc)
    else DelayDeref(removed, index, c.kcbs[k].parent.value, alloc)
  }

  /** KCB `id` is still there, the same but for its count; or it was freed, and had to be. */
  ghost predicate FreedRight(c: Cache, d: Cache, k: Id, locked: bool, hold: bool, alloc: nat -> bool, id: Id) {
    && (id in d.kcbs ==> id in c.kcbs && d.kcbs[id] == c.kcbs[id].(refs := d.kcbs[id].refs))
    && (id in c.kcbs && id !in d.kcbs && id != k ==> c.kcbs[id].refs == 1 && Closes(c, id, hold, alloc) && locked)
  }

  lemma {:induction false} DerefAt(c: Cache, index: nat -> nat, k: Id, locked: bool, hold: bool, alloc: nat -> bool, id: Id)
    requires Inv(c, index) && c.handles[k] > 0
    ensures var d := Deref(c, index, k, locked, hold, alloc);
            && k in c.kcbs && FreedRight(c, d, k, locked, hold, alloc, id)
            && (k !in d.kcbs <==> c.kcbs[k].refs == 1 && Closes(c, k, hold, alloc))
    decreases if k in c.kcbs then c.kcbs[k].levels else 0, 1
  {
    hide InvBut;
    DroppedInv(c, index, k);
    var dropped := Dropped(c, k);
    if dropped.kcbs[k].refs == 0 && Closes(dropped, k, hold, alloc) {
      CleanUpAt(dropped, index, k, locked, hold, alloc, id);
    }
  }

  lemma {:induction false} CleanUpAt(c: Cache, index: nat -> nat, k: Id, locked: bool, hold: bool, alloc: nat -> bool, id: Id)
    requires InvBut(c, index, Some(k)) && k in c.kcbs && c.kcbs[k].refs == 0
    ensures var d := CleanUp(c, index, k, locked, hold, alloc);
            FreedRight(c, d, k, locked, hold, alloc, id) && k !in d.kcbs
    decreases c.kcbs[k].levels, 0
  {
    hide Inv, InvBut, Thinned, Removed, Deref, DelayDeref;
    RemovedInv(c, index, k);
    Placed(c, index, k);
    RemovedAt(c, index, k);
    var removed := Removed(c, index, k);
    if c.kcbs[k].parent.Some? {
      var p := c.kcbs[k].parent.value;
      if locked {
        DerefAt(removed, index, p, locked, hold, alloc, id);
        DerefAt(removed, index, p, locked, hold, alloc, k);
      } else {
        DelayDerefAt(removed, index, p, alloc, id);
        DelayDerefAt(removed, index, p, alloc, k);
      }
    }
  }

  lemma {:induction false} RemovedAt(c: Cache, index: nat -> nat, k: Id)
    requires k in c.kcbs && c.kcbs[k].parent != Some(k)
    ensures var r := Removed(c, index, k);
            r.kcbs == c.kcbs - {k} && (c.kcbs[k].parent.Some? ==> r.handles[c.kcbs[k].parent.value] > 0)
  {
  }

  lemma {:induction false} DelayDerefAt(c: Cache, index: nat -> nat, k: Id, alloc: nat -> bool, id: Id)
    requires Inv(c, index) && c.handles[k] > 0
    ensures var d := DelayDeref(c, index, k, alloc);
            (id in d.kcbs <==> id in c.kcbs) && (id in c.kcbs ==> d.kcbs[id] == c.kcbs[id].(refs := d.kcbs[id].refs))
  {
    hide Inv;
  }

  lemma {:induction false} DerefLists(c: Cache, index: nat -> nat, k: Id, locked: bool, hold: bool, alloc: nat -> bool)
    requires Inv(c, index) && c.handles[k] > 0
    ensures var d := Deref(c, index, k, locked, hold, alloc);
            k in c.kcbs && if locked || k in d.kcbs then d.deferred == c.deferred && d.leaked == c.leaked else Deferral(c, d, k)
    decreases if k in c.kcbs then c.kcbs[k].levels else 0, 1
  {
    hide InvBut, Thinned, CleanUp;
    DroppedInv(c, index, k);
    var dropped := Dropped(c, k);
    if dropped.kcbs[k].refs == 0 && Closes(dropped, k, hold, alloc) {
      CleanUpLists(dropped, index, k, locked, hold, alloc);
      CleanUpAt(dropped, index, k, locked, hold, alloc, k);
    }
  }

  lemma {:induction false} CleanUpLists(c: Cache, index: nat -> nat, k: Id, locked: bool, hold: bool, alloc: nat -> bool)
    requires InvBut(c, index, Some(k)) && k in c.kcbs && c.kcbs[k].refs == 0
    ensures var d := CleanUp(c, index, k, locked, hold, alloc);
            if locked then d.deferred == c.deferred && d.leaked == c.leaked else Deferral(c, d, k) && d.lru == c.lru
    decreases c.kcbs[k].levels, 0
  {
    hide InvBut, Thinned;
    RemovedInv(c, index, k);
    Placed(c, index, k);
    if c.kcbs[k].parent.Some? && locked {
      DerefLists(Removed(c, index, k), index, c.kcbs[k].parent.value, locked, hold, alloc);
    }
  }

  /** Not to be kept for a while: lazy flushing is held, its hive is frozen, its key is gone, or there is no delay item. */
  ghost predicate Unkept(x: Kcb, hold: bool, alloc: nat -> bool) {
    hold || x.noDelay || x.delete || !alloc(x.levels)
  }

  /**
    A dereference frees only KCBs that had a single reference and are not to be kept for a
    while: the KCB itself and, under the registry lock, those above it.  Without that lock
    the dereference of the parent may be put off.
  */
  lemma {:induction false} DerefFrees(c: Cache, index: nat -> nat, k: Id, locked: bool, hold: bool, alloc: nat -> bool)
    requires Inv(c, index) && c.handles[k] > 0
    ensures var d := Deref(c, index, k, locked, hold, alloc);
            && k in c.kcbs && Thinned(c, d)
            && (k !in d.kcbs <==> c.kcbs[k].refs == 1 && Unkept(c.kcbs[k], hold, alloc))
            && (forall id :: id in c.kcbs && id !in d.kcbs ==> c.kcbs[id].refs == 1 && Unkept(c.kcbs[id], hold, alloc) && (locked || id == k))
            && (if locked || k in d.kcbs then d.deferred == c.deferred && d.leaked == c.leaked else Deferral(c, d, k))
  {
    hide Inv, Deref, Deferral;
    DerefLists(c, index, k, locked, hold, alloc);
    var d := Deref(c, index, k, locked, hold, alloc);
    DerefAt(c, index, k, locked, hold, alloc, k);
    forall id ensures (id in d.kcbs ==> id in c.kcbs && d.kcbs[id] == c.kcbs[id].(refs := d.kcbs[id].refs))
                   && (id in c.kcbs && id !in d.kcbs ==> c.kcbs[id].refs == 1 && Unkept(c.kcbs[id], hold, alloc) && (locked || id == k)) {
      DerefAt(c, index, k, locked, hold, alloc, id);
    }
  }

  lemma {:induction false} CleanUpFrees(c: Cache, index: nat -> nat, k: Id, locked: bool, hold: bool, alloc: nat -> bool)
    requires InvBut(c, index, Some(k)) && k in c.kcbs && c.kcbs[k].refs == 0
    ensures var d := CleanUp(c, index, k, locked, hold, alloc);
            && Thinned(c, d) && k !in d.kcbs
            && (if locked then d.deferred == c.deferred && d.leaked == c.leaked else Deferral(c, d, k) && d.lru == c.lru)
  {
    hide InvBut, CleanUp, Closes, Deferral;
    CleanUpLists(c, index, k, locked, hold, alloc);
    var d := CleanUp(c, index, k, locked, hold, alloc);
    CleanUpAt(c, index, k, locked, hold, alloc, k);
    forall id ensures id in d.kcbs ==> id in c.kcbs && d.kcbs[id] == c.kcbs[id].(refs := d.kcbs[id].refs) {
      CleanUpAt(c, index, k, locked, hold, alloc, id);
    }
  }

  lemma {:induction false} Placed(c: Cache, index: nat -> nat, k: Id)
    requires InvBut(c, index, Some(k)) && k in c.kcbs
    ensures var x := c.kcbs[k];
            && (x.parent.Some? ==> x.parent.value != k && x.parent.value in c.kcbs && c.kcbs[x.parent.value].levels < x.levels)
            && (!x.delete ==> k in ChainOf(c, index(x.key.conv)) && NoDup(ChainOf(c, index(x.key.conv))))
  {
    hide RefInv, DelayInv, NoDup;
    assert LevelInv(c, k);
    assert !c.kcbs[k].delete ==> InChain(c, index, index(c.kcbs[k].key.conv), k);
  }

  /** The key of the KCB is gone; handles may still be open. */
  ghost function Deleted(c: Cache, index: nat -> nat, k: Id): Cache
    requires k in c.kcbs
  {
    var d := Unhashed(c, index, k);
    d.(kcbs := d.kcbs[k := d.kcbs[k].(delete := true)])
  }

  lemma {:induction false} DeletedInv(c: Cache, index: nat -> nat, k: Id)
    requires Inv(c, index) && k in c.kcbs && !c.kcbs[k].delete
    ensures Inv(Deleted(c, index, k), index)
  {
    hide NoDup, ChainInv;
    var d := Deleted(c, index, k);
    UnhashedChains(c, index, k, d);
    forall id ensures RefInv(d, id) && LevelInv(d, id) {
      assert RefInv(c, id) && LevelInv(c, id) && Children(d, id) == Children(c, id);
    }
  }

  /** A new KCB at the head of its chain, with one handle, and a reference on its parent. */
  ghost function Created(c: Cache, index: nat -> nat, id: Id, key: Key, name: string, parent: Option<Id>, noDelay: bool): Cache
    requires parent.Some? ==> parent.value in c.kcbs
  {
    var i := index(key.conv);
    var levels := if parent.Some? then c.kcbs[parent.value].levels + 1 else 1;
    var kcbs := if parent.Some? then c.kcbs[parent.value := c.kcbs[parent.value].(refs := c.kcbs[parent.value].refs + 1)] else c.kcbs;
    c.(kcbs := kcbs[id := Kcb(key, name, parent, levels, 1, false, noDelay)],
       chains := c.chains[i := [id] + ChainOf(c, i)],
       handles := c.handles + multiset{id})
  }

  ghost predicate MayCreate(c: Cache, id: Id, key: Key, parent: Option<Id>) {
    && id !in c.kcbs
    && (forall k :: k in c.kcbs && !c.kcbs[k].delete ==> c.kcbs[k].key != key)
    && (parent.Some? ==> parent.value in c.kcbs && 0 < c.kcbs[parent.value].refs < MaxRefs && c.kcbs[parent.value].levels + 1 < MaxLevels)
  }

  lemma {:induction false} CreatedRefs(c: Cache, index: nat -> nat, id: Id, key: Key, name: string, parent: Option<Id>, noDelay: bool, k: Id)
    requires MayCreate(c, id, key, parent) && RefInv(c, k) && RefInv(c, id)
    ensures RefInv(Created(c, index, id, key, name, parent, noDelay), k)
  {
    var d := Created(c, index, id, key, name, parent, noDelay);
    assert forall x :: x in Children(d, k) && x != id ==> x in Children(c, k);
    assert forall x :: x in Children(c, k) ==> x in Children(d, k) && x != id;
    SetSwap(Children(c, k), Children(d, k), id);
  }

  lemma {:induction false} CreatedLevels(c: Cache, index: nat -> nat, id: Id, key: Key, name: string, parent: Option<Id>, noDelay: bool, k: Id)
    requires MayCreate(c, id, key, parent) && LevelInv(c, k)
    ensures LevelInv(Created(c, index, id, key, name, parent, noDelay), k)
  {
  }

  lemma {:induction false} CreatedChains(c: Cache, index: nat -> nat, id: Id, key: Key, name: string, parent: Option<Id>, noDelay: bool)
    requires MayCreate(c, id, key, parent) && ChainInv(c, index)
    ensures ChainInv(Created(c, index, id, key, name, parent, noDelay), index)
  {
    hide NoDup;
    var d := Created(c, index, id, key, name, parent, noDelay);
    var i := index(key.conv);
    assert NoDup(ChainOf(c, i)) by { NoDupEmpty(); }
    assert !InChain(c, index, i, id);
    NoDupAppend(ChainOf(c, i), id);
    forall j, k ensures k in ChainOf(d, j) <==> InChain(d, index, j, k) {
      assert k in ChainOf(c, j) <==> InChain(c, index, j, k);
    }
  }

  lemma {:induction false} NoDupEmpty()
    ensures NoDup<Id>([])
  {
  }

  lemma {:induction false} CreatedInv(c: Cache, index: nat -> nat, id: Id, key: Key, name: string, parent: Option<Id>, noDelay: bool)
    requires Inv(c, index) && MayCreate(c, id, key, parent)
    ensures Inv(Created(c, index, id, key, name, parent, noDelay), index)
  {
    hide NoDup, ChainInv, LevelInv, RefInv;
    CreatedChains(c, index, id, key, name, parent, noDelay);
    forall k ensures RefInv(Created(c, index, id, key, name, parent, noDelay), k) && LevelInv(Created(c, index, id, key, name, parent, noDelay), k) {
      CreatedRefs(c, index, id, key, name, parent, noDelay, k);
      CreatedLevels(c, index, id, key, name, parent, noDelay, k);
    }
  }

  /** A put-off dereference is taken off its list to be carried out. */
  ghost function TakenUp(c: Cache): Cache
    requires c.deferred != []
  {
    c.(deferred := c.deferred[1..], handles := c.handles + multiset{c.deferred[0]})
  }

  lemma {:induction false} TakenUpInv(c: Cache, index: nat -> nat)
    requires Inv(c, index) && c.deferred != []
    ensures Inv(TakenUp(c), index)
  {
    hide ChainInv, LevelInv, NoDup, Children;
    var d := TakenUp(c);
    SameShape(c, d, index);
    assert c.deferred == [c.deferred[0]] + d.deferred;
    forall id ensures RefInv(d, id) {
      assert RefInv(c, id);
    }
  }

  lemma {:induction false} NoDelayInv(c: Cache, index: nat -> nat, k: Id)
    requires Inv(c, index) && k in c.kcbs
    ensures Inv(c.(kcbs := c.kcbs[k := c.kcbs[k].(noDelay := true)]), index)
  {
    hide ChainInv, LevelInv, NoDup, Children;
    var d := c.(kcbs := c.kcbs[k := c.kcbs[k].(noDelay := true)]);
    SameShape(c, d, index);
    forall id ensures RefInv(d, id) {
      assert RefInv(c, id);
    }
  }

  /** The levels of the KCBs whose dereference was put off, summed up. */
  ghost function Load(c: Cache, items: seq<Id>): nat {
    if items == [] then 0 else
    (if items[0] in c.kcbs then c.kcbs[items[0]].levels else 0) + Load(c, items[1..])
  }

  lemma {:induction false} LoadThinned(c: Cache, d: Cache, items: seq<Id>)
    requires Thinned(c, d)
    ensures Load(d, items) <= Load(c, items)
  {
    hide Thinned;
    if items != [] {
      LoadThinned(c, d, items[1..]);
      assert items[0] in d.kcbs ==> items[0] in c.kcbs && d.kcbs[items[0]].levels == c.kcbs[items[0]].levels by { ThinnedLevels(c, d, items[0]); }
    }
  }

  lemma {:induction false} ThinnedSelf(c: Cache)
    ensures Thinned(c, c)
  {
  }

  lemma {:induction false} ThinnedOn(c: Cache, d: Cache, e: Cache)
    requires Thinned(c, d) && Thinned(d, e)
    ensures Thinned(c, e)
  {
  }

  lemma {:induction false} ThinnedLevels(c: Cache, d: Cache, id: Id)
    requires Thinned(c, d)
    ensures id in d.kcbs ==> id in c.kcbs && d.kcbs[id].levels == c.kcbs[id].levels
  {
  }

  lemma {:induction false} LoadSnoc(c: Cache, items: seq<Id>, p: Id)
    ensures Load(c, items + [p]) == Load(c, items) + Load(c, [p])
  {
    if items != [] {
      assert (items + [p])[1..] == items[1..] + [p];
      LoadSnoc(c, items[1..], p);
    } else {
      assert items + [p] == [p];
    }
  }

  /** A dereference that is carried out makes the load lighter, even if it puts off another. */
  lemma {:induction false} LoadFalls(c: Cache, index: nat -> nat, hold: bool, alloc: nat -> bool)
    requires Inv(c, index) && c.deferred != []
    ensures Inv(TakenUp(c), index)
    ensures var d := Deref(TakenUp(c), index, c.deferred[0], false, hold, alloc); Load(d, d.deferred) < Load(c, c.deferred)
  {
    hide RefInv, ChainInv, DelayInv, Thinned, Closes;
    var k := c.deferred[0];
    TakenUpInv(c, index);
    var taken := TakenUp(c);
    var d := Deref(taken, index, k, false, hold, alloc);
    DerefFrees(taken, index, k, false, hold, alloc);
    assert LevelInv(c, k) && c.kcbs[k].levels >= 1;
    LoadThinned(taken, d, taken.deferred);
    LoadSameKcbs(taken, c, taken.deferred);
    if d.deferred != taken.deferred {
      var p := c.kcbs[k].parent.value;
      LoadSnoc(d, taken.deferred, p);
      ThinnedLevels(taken, d, p);
    }
  }

  /** All put-off dereferences are carried out, from the first on; a parent's that is put off meanwhile comes last. */
  ghost function CarriedOutAll(c: Cache, index: nat -> nat, hold: bool, allocs: nat -> nat -> bool, turn: nat): (d: Cache)
    requires Inv(c, index)
    ensures Inv(d, index) && d.deferred == []
    decreases Load(c, c.deferred)
  {
    if c.deferred == [] then c else
    LoadFalls(c, index, hold, allocs(turn));
    CarriedOutAll(Deref(TakenUp(c), index, c.deferred[0], false, hold, allocs(turn)), index, hold, allocs, turn + 1)
  }

  lemma {:induction false} LoadSameKcbs(c: Cache, d: Cache, items: seq<Id>)
    requires c.kcbs == d.kcbs
    ensures Load(c, items) == Load(d, items)
  {
    if items != [] {
      LoadSameKcbs(c, d, items[1..]);
    }
  }

  // ----- nothing is forgotten -----

  /** The names from the root key down to the KCB. */
  ghost function PathOf(c: Cache, k: Option<Id>): seq<string>
    decreases if k.Some? && k.value in c.kcbs then 1 + c.kcbs[k.value].levels else 0
  {
    if k.None? || k.value !in c.kcbs then [] else
    var x := c.kcbs[k.value];
    if x.parent.Some? && x.parent.value in c.kcbs && c.kcbs[x.parent.value].levels < x.levels
    then PathOf(c, x.parent) + [x.name]
    else [x.name]
  }

  /** `a` is `d` or one of the KCBs above it. */
  ghost predicate Above(c: Cache, a: Id, d: Id)
    decreases if d in c.kcbs then c.kcbs[d].levels else 0
  {
    a == d ||
    (d in c.kcbs && c.kcbs[d].parent.Some? &&
     var p := c.kcbs[d].parent.value;
     p in c.kcbs && c.kcbs[p].levels < c.kcbs[d].levels && Above(c, a, p))
  }

  lemma {:induction false} AboveChild(c: Cache, a: Id, k: Id, d: Id)
    requires (forall id :: LevelInv(c, id)) && k in c.kcbs && c.kcbs[k].parent == Some(a) && Above(c, k, d)
    ensures Above(c, a, d)
    decreases if d in c.kcbs then c.kcbs[d].levels else 0
  {
    assert LevelInv(c, k);
    if k != d {
      AboveChild(c, a, k, c.kcbs[d].parent.value);
    } else {
      assert Above(c, a, a);
    }
  }

  /**
    When no handle, no put-off dereference and no leak is left, below every KCB there is one
    on the delayed-close list; so once that list has been worked off, no KCB is left.
  */
  lemma {:induction false} ClosingLeaf(c: Cache, index: nat -> nat, a: Id) returns (d: Id)
    requires Inv(c, index) && c.handles == multiset{} && c.deferred == [] && c.leaked == multiset{} && a in c.kcbs
    ensures d in c.lru && Above(c, a, d)
    decreases MaxLevels - c.kcbs[a].levels
  {
    assert RefInv(c, a) && LevelInv(c, a);
    if c.kcbs[a].refs == 0 {
      d := a;
    } else {
      var k :| k in Children(c, a);
      assert LevelInv(c, k);
      d := ClosingLeaf(c, index, k);
      AboveChild(c, a, k, d);
    }
  }

  lemma {:induction false} AllClosed(c: Cache, index: nat -> nat)
    requires Inv(c, index) && c.handles == multiset{} && c.deferred == [] && c.leaked == multiset{} && c.lru == []
    ensures c.kcbs == map[]
  {
    hide Inv;
    if a :| a in c.kcbs {
      var d := ClosingLeaf(c, index, a);
    }
  }

  /** A leaked reference keeps its KCB for good. */
  lemma {:induction false} LeakedStays(c: Cache, index: nat -> nat, k: Id)
    requires Inv(c, index) && c.leaked[k] > 0
    ensures k in c.kcbs && c.kcbs[k].refs > 0 && k !in c.lru
  {
    assert RefInv(c, k);
  }
}
