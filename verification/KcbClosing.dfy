/**
  Which key control blocks wait on the delayed-close list, in which order, and which never do
  (ntoskrnl/config/cmdelay.c), over the runs of KcbRuns.
*/
module KcbClosing {
  import opened Common
  import opened Seqs
  import opened KcbTree
  import opened KcbRuns
  import opened KeyPath

  // ----- how an operation changes the delayed-close list -----

  /** The list is as it was, or one KCB that may be kept for a while has come to its head. */
  ghost predicate Joins(c: Cache, d: Cache) {
    d.lru == c.lru || (d.lru != [] && d.lru[1..] == c.lru && d.lru[0] in d.kcbs && !d.kcbs[d.lru[0]].delete && !d.kcbs[d.lru[0]].noDelay)
  }

  lemma {:induction false} DerefJoins(c: Cache, index: nat -> nat, k: Id, locked: bool, hold: bool, alloc: nat -> bool)
    requires Inv(c, index) && c.handles[k] > 0
    ensures Joins(c, Deref(c, index, k, locked, hold, alloc))
    decreases if k in c.kcbs then c.kcbs[k].levels else 0, 1
  {
    hide Inv, InvBut, Thinned;
    DroppedInv(c, index, k);
    var dropped := Dropped(c, k);
    if dropped.kcbs[k].refs == 0 {
      if Closes(dropped, k, hold, alloc) {
        CleanUpJoins(dropped, index, k, locked, hold, alloc);
      } else {
        assert ([k] + c.lru)[1..] == c.lru;
      }
    }
  }

  lemma {:induction false} CleanUpJoins(c: Cache, index: nat -> nat, k: Id, locked: bool, hold: bool, alloc: nat -> bool)
    requires InvBut(c, index, Some(k)) && k in c.kcbs && c.kcbs[k].refs == 0
    ensures Joins(c, CleanUp(c, index, k, locked, hold, alloc))
    ensures !locked ==> CleanUp(c, index, k, locked, hold, alloc).lru == c.lru
    decreases c.kcbs[k].levels, 0
  {
    hide Inv, InvBut, Thinned;
    RemovedInv(c, index, k);
    Placed(c, index, k);
    if c.kcbs[k].parent.Some? && locked {
      DerefJoins(Removed(c, index, k), index, c.kcbs[k].parent.value, locked, hold, alloc);
    }
  }

  /** An operation leaves the list, takes one KCB off it, or puts one at its head. */
  lemma {:induction false} StepList(c: Cache, op: Op, index: nat -> nat, hash: Hash)
    requires Inv(c, index) && Enabled(c, op, hash)
    ensures var d := Apply(c, op, index, hash); Joins(c, d) || exists x :: d.lru == Without(c.lru, x)
  {
    hide Inv, InvBut, Deref, CleanUp, Thinned, SameBut, MayCreate, HashName, WithoutSeparators, Without;
    match op
    case Refer(k, frozen) =>
      if c.kcbs[k].refs == 0 {
        assert Apply(c, op, index, hash).lru == Without(c.lru, k);
      }
    case Drop(k, locked, hold, alloc) => DerefJoins(c, index, k, locked, hold, alloc);
    case CarryOut(hold, alloc) =>
      TakenUpInv(c, index);
      DerefJoins(TakenUp(c), index, c.deferred[0], false, hold, alloc);
    case Close(k, hold, alloc) =>
      UndelayedInv(c, index, k);
      CleanUpJoins(Undelayed(c, k), index, k, false, hold, alloc);
      assert Apply(c, op, index, hash).lru == Without(c.lru, k);
    case _ =>
  }

  // ----- who has waited longest -----

  /** The KCB comes onto the list with operation `i`, and stays there up to state `m`. */
  ghost predicate Waits(caches: seq<Cache>, i: nat, m: nat, k: Id) {
    i < m < |caches| && k !in caches[i].lru && forall j :: i < j <= m ==> k in caches[j].lru
  }

  lemma {:induction false} JoinsFirst(c: Cache, op: Op, index: nat -> nat, hash: Hash, k: Id)
    requires Inv(c, index) && Enabled(c, op, hash) && k !in c.lru && k in Apply(c, op, index, hash).lru
    ensures Apply(c, op, index, hash).lru == [k] + c.lru
  {
    hide Inv, Enabled, Apply, Without;
    StepList(c, op, index, hash);
    var lru := Apply(c, op, index, hash).lru;
    if lru != [] && lru[1..] == c.lru {
      assert lru == [lru[0]] + c.lru;
    }
  }

  lemma {:induction false} OrderStays(c: Cache, op: Op, index: nat -> nat, hash: Hash, a: Id, b: Id)
    requires Inv(c, index) && Enabled(c, op, hash) && Precedes(c.lru, a, b)
    requires a in Apply(c, op, index, hash).lru && b in Apply(c, op, index, hash).lru
    ensures Precedes(Apply(c, op, index, hash).lru, a, b)
  {
    hide Inv, Enabled, Apply, Without, Precedes;
    StepList(c, op, index, hash);
    var lru := Apply(c, op, index, hash).lru;
    if x :| lru == Without(c.lru, x) {
      PrecedesWithout(c.lru, x, a, b);
    } else if lru != c.lru {
      PrecedesCons(c.lru, lru[0], a, b);
      assert lru == [lru[0]] + c.lru;
    }
  }

  /** In every run, of two KCBs on the list the one that came later stands in front. */
  lemma {:induction false} LaterInFront(caches: seq<Cache>, ops: seq<Op>, index: nat -> nat, hash: Hash, i: nat, j: nat, m: nat, k: Id, l: Id)
    requires IsRun(caches, ops, index, hash) && caches[0] == Empty
    requires i < j && Waits(caches, i, m, k) && Waits(caches, j, m, l)
    ensures Precedes(caches[m].lru, l, k)
  {
    hide Inv, Keyed, Enabled, Apply, Precedes, Goes;
    if m == j + 1 {
      RunInv(caches, ops, index, hash, j);
      JoinsFirst(caches[j], ops[j], index, hash, l);
      PrecedesFirst(caches[j].lru, l, k);
    } else {
      var p := m - 1;
      LaterInFront(caches, ops, index, hash, i, j, p, k, l);
      RunInv(caches, ops, index, hash, p);
      OrderStays(caches[p], ops[p], index, hash, l, k);
    }
  }

  lemma {:induction false} SplitPrecedes(s: seq<Id>, n: nat, k: Id, l: Id)
    requires NoDup(s) && n <= |s| && k in s[n..] && l in s[..n]
    ensures k != l && !Precedes(s, k, l)
  {
  }

  lemma {:induction false} ListedOnce(c: Cache, index: nat -> nat)
    requires Inv(c, index)
    ensures NoDup(c.lru)
  {
    hide NoDup;
  }

  /**
    In every run, wherever the list is cut, all KCBs behind the cut have waited longer than all
    those in front of it; so a worker that closes from the tail closes the oldest.
  */
  lemma {:induction false} OldestAtTail(caches: seq<Cache>, ops: seq<Op>, index: nat -> nat, hash: Hash, i: nat, j: nat, m: nat, n: nat, k: Id, l: Id)
    requires IsRun(caches, ops, index, hash) && caches[0] == Empty
    requires Waits(caches, i, m, k) && Waits(caches, j, m, l) && n <= |caches[m].lru|
    requires k in caches[m].lru[n..] && l in caches[m].lru[..n]
    ensures i < j
  {
    hide Inv, Keyed, Enabled, Apply, Precedes, Goes, NoDup;
    RunInv(caches, ops, index, hash, m);
    ListedOnce(caches[m], index);
    SplitPrecedes(caches[m].lru, n, k, l);
    if j < i {
      LaterInFront(caches, ops, index, hash, j, i, m, l, k);
    } else if i == j {
      RunInv(caches, ops, index, hash, i);
      JoinsFirst(caches[i], ops[i], index, hash, k);
    }
  }

  // ----- who never waits -----

  /** A KCB whose key is gone or whose hive is frozen is not on the list. */
  ghost predicate OffList(c: Cache, k: Id) {
    k in c.kcbs && (c.kcbs[k].delete || c.kcbs[k].noDelay) ==> k !in c.lru
  }

  lemma {:induction false} ThinnedOffList(c: Cache, d: Cache, index: nat -> nat, k: Id)
    requires OffList(c, k) && Thinned(c, d) && Joins(c, d)
    ensures OffList(d, k)
  {
  }

  lemma {:induction false} ReferOffList(c: Cache, index: nat -> nat, k: Id, frozen: bool, x: Id)
    requires Inv(c, index) && k in c.kcbs && c.kcbs[k].refs < MaxRefs && OffList(c, x)
    ensures OffList(Reused(c, k, frozen), x)
  {
    hide ChainInv, LevelInv, RefInv, NoDup;
  }

  lemma {:induction false} CreateOffList(c: Cache, index: nat -> nat, id: Id, key: Key, name: string, parent: Option<Id>, frozen: bool, x: Id)
    requires Inv(c, index) && MayCreate(c, id, key, parent) && OffList(c, x)
    ensures OffList(Created(c, index, id, key, name, parent, frozen), x)
  {
    hide ChainInv, LevelInv, RefInv, NoDup;
  }

  /** Exactly the deletion of a KCB that is waiting puts such a KCB on the list. */
  lemma {:induction false} StepOffList(c: Cache, op: Op, index: nat -> nat, hash: Hash, x: Id)
    requires Inv(c, index) && Enabled(c, op, hash) && OffList(c, x)
    ensures OffList(Apply(c, op, index, hash), x) <==> !(op == Delete(x) && x in c.lru)
  {
    hide Inv, InvBut, Deref, CleanUp, DelayDeref, Thinned, Reused, Created, SameBut, MayCreate, Joins, OffList, HashName, WithoutSeparators;
    match op
    case Refer(k, frozen) => ReferOffList(c, index, k, frozen, x);
    case Drop(k, locked, hold, alloc) =>
      DerefJoins(c, index, k, locked, hold, alloc);
      DerefFrees(c, index, k, locked, hold, alloc);
      ThinnedOffList(c, Deref(c, index, k, locked, hold, alloc), index, x);
    case DropLater(k, alloc) =>
      SameListJoins(c, DelayDeref(c, index, k, alloc));
      ThinnedOffList(c, DelayDeref(c, index, k, alloc), index, x);
    case Create(id, hive, cell, name, parent, frozen) =>
      CreateOffList(c, index, id, KeyFor(c, hash, hive, cell, name, parent), name, parent, frozen, x);
    case TakeBack(chains) => SameOffList(c, c.(chains := chains), x);
    case Delete(k) => DeleteOffList(c, index, k, x);
    case CarryOut(hold, alloc) =>
      var t := TakenUp(c);
      TakenUpInv(c, index);
      SameOffList(c, t, x);
      DerefJoins(t, index, c.deferred[0], false, hold, alloc);
      DerefFrees(t, index, c.deferred[0], false, hold, alloc);
      ThinnedOffList(t, Deref(t, index, c.deferred[0], false, hold, alloc), index, x);
    case Close(k, hold, alloc) =>
      var u := Undelayed(c, k);
      UndelayedInv(c, index, k);
      FewerOffList(c, u, x);
      CleanUpJoins(u, index, k, false, hold, alloc);
      CleanUpFrees(u, index, k, false, hold, alloc);
      ThinnedOffList(u, CleanUp(u, index, k, false, hold, alloc), index, x);
  }

  lemma {:induction false} SameListJoins(c: Cache, d: Cache)
    requires d.lru == c.lru
    ensures Joins(c, d)
  {
  }

  lemma {:induction false} SameOffList(c: Cache, d: Cache, x: Id)
    requires d.lru == c.lru && d.kcbs == c.kcbs && OffList(c, x)
    ensures OffList(d, x)
  {
  }

  lemma {:induction false} FewerOffList(c: Cache, d: Cache, x: Id)
    requires d.kcbs == c.kcbs && OffList(c, x) && forall y :: y in d.lru ==> y in c.lru
    ensures OffList(d, x)
  {
  }

  lemma {:induction false} DeleteOffList(c: Cache, index: nat -> nat, k: Id, x: Id)
    requires k in c.kcbs && OffList(c, x)
    ensures OffList(Deleted(c, index, k), x) <==> !(k == x && x in c.lru)
  {
  }

  /** The KCB is deleted, or made or referenced in a frozen hive, by operation `i`. */
  ghost predicate Flags(op: Op, k: Id) {
    match op
    case Refer(x, frozen) => x == k && frozen
    case Create(x, _, _, _, _, frozen) => x == k && frozen
    case Delete(x) => x == k
    case _ => false
  }

  ghost predicate Flagged(c: Cache, k: Id) {
    k in c.kcbs && (c.kcbs[k].delete || c.kcbs[k].noDelay)
  }

  lemma {:induction false} ThinnedFlags(c: Cache, d: Cache, k: Id)
    requires Thinned(c, d) && k in d.kcbs && Flagged(c, k)
    ensures Flagged(d, k)
  {
  }

  lemma {:induction false} ReferFlags(c: Cache, x: Id, frozen: bool, k: Id)
    requires x in c.kcbs && k in c.kcbs && (Flagged(c, k) || (x == k && frozen))
    ensures Flagged(Reused(c, x, frozen), k)
  {
    hide Without;
  }

  lemma {:induction false} CreateFlags(c: Cache, index: nat -> nat, id: Id, key: Key, name: string, parent: Option<Id>, frozen: bool, k: Id)
    requires MayCreate(c, id, key, parent) && (Flagged(c, k) || (id == k && frozen))
    ensures Flagged(Created(c, index, id, key, name, parent, frozen), k)
  {
  }

  lemma {:induction false} DeleteFlags(c: Cache, index: nat -> nat, x: Id, k: Id)
    requires x in c.kcbs && (Flagged(c, k) || x == k)
    ensures Flagged(Deleted(c, index, x), k)
  {
    hide Without;
  }

  lemma {:induction false} StepFlags(c: Cache, op: Op, index: nat -> nat, hash: Hash, k: Id)
    requires Inv(c, index) && Enabled(c, op, hash) && k in Apply(c, op, index, hash).kcbs && (Flagged(c, k) || Flags(op, k))
    ensures Flagged(Apply(c, op, index, hash), k)
  {
    hide Inv, InvBut, Deref, CleanUp, DelayDeref, Thinned, Reused, Created, Deleted, SameBut, MayCreate, HashName, WithoutSeparators, Deferral, Unkept;
    match op
    case Refer(x, frozen) => ReferFlags(c, x, frozen, k);
    case Drop(x, locked, hold, alloc) =>
      DerefFrees(c, index, x, locked, hold, alloc);
      ThinnedFlags(c, Deref(c, index, x, locked, hold, alloc), k);
    case DropLater(x, alloc) => ThinnedFlags(c, DelayDeref(c, index, x, alloc), k);
    case Create(id, hive, cell, name, parent, frozen) =>
      CreateFlags(c, index, id, KeyFor(c, hash, hive, cell, name, parent), name, parent, frozen, k);
    case TakeBack(chains) =>
    case Delete(x) => DeleteFlags(c, index, x, k);
    case CarryOut(hold, alloc) =>
      TakenUpInv(c, index);
      DerefFrees(TakenUp(c), index, c.deferred[0], false, hold, alloc);
      ThinnedFlags(TakenUp(c), Deref(TakenUp(c), index, c.deferred[0], false, hold, alloc), k);
    case Close(x, hold, alloc) =>
      UndelayedInv(c, index, x);
      CleanUpFrees(Undelayed(c, x), index, x, false, hold, alloc);
      ThinnedFlags(Undelayed(c, x), CleanUp(Undelayed(c, x), index, x, false, hold, alloc), k);
  }

  /**
    In every run, a KCB that was deleted while it was not waiting, or made or referenced in a
    frozen hive, does not wait to be closed as long as it is there.
  */
  lemma {:induction false} NeverWaits(caches: seq<Cache>, ops: seq<Op>, index: nat -> nat, hash: Hash, i: nat, m: nat, k: Id)
    requires IsRun(caches, ops, index, hash) && caches[0] == Empty && i < m < |caches| && Flags(ops[i], k)
    requires forall j :: i < j <= m ==> k in caches[j].kcbs
    requires forall j :: 0 <= j < m ==> !(ops[j] == Delete(k) && k in caches[j].lru)
    ensures k !in caches[m].lru
  {
    hide Inv, Keyed, Enabled, Apply, Goes, Flags;
    StillFlagged(caches, ops, index, hash, i, m, k);
    RunOffList(caches, ops, index, hash, m, k);
  }

  lemma {:induction false} StillFlagged(caches: seq<Cache>, ops: seq<Op>, index: nat -> nat, hash: Hash, i: nat, m: nat, k: Id)
    requires IsRun(caches, ops, index, hash) && caches[0] == Empty && i < m < |caches| && Flags(ops[i], k)
    requires forall j :: i < j <= m ==> k in caches[j].kcbs
    ensures Flagged(caches[m], k)
  {
    hide Inv, Keyed, Enabled, Apply, Goes, Flags, Flagged;
    var p := m - 1;
    RunInv(caches, ops, index, hash, p);
    if i < p {
      StillFlagged(caches, ops, index, hash, i, p, k);
    }
    StepFlags(caches[p], ops[p], index, hash, k);
  }

  lemma {:induction false} RunOffList(caches: seq<Cache>, ops: seq<Op>, index: nat -> nat, hash: Hash, m: nat, k: Id)
    requires IsRun(caches, ops, index, hash) && caches[0] == Empty && m < |caches|
    requires forall j :: 0 <= j < m ==> !(ops[j] == Delete(k) && k in caches[j].lru)
    ensures OffList(caches[m], k)
  {
    hide Inv, Keyed, Enabled, Apply, Goes;
    if m > 0 {
      RunOffList(caches, ops, index, hash, m - 1, k);
      RunInv(caches, ops, index, hash, m - 1);
      StepOffList(caches[m - 1], ops[m - 1], index, hash, k);
    }
  }

  // ----- deferred dereferences are carried out in order -----

  ghost predicate Grows(s: seq<Id>, t: seq<Id>) {
    t == s || (t != [] && t[..|t| - 1] == s)
  }

  lemma {:induction false} DeferralGrows(c: Cache, d: Cache, k: Id)
    requires k in c.kcbs && Deferral(c, d, k)
    ensures Grows(c.deferred, d.deferred)
  {
    if c.kcbs[k].parent.Some? {
      assert (c.deferred + [c.kcbs[k].parent.value])[..|c.deferred|] == c.deferred;
    }
  }

  /** Only the worker takes a dereference off the list, the first one; others come to its end. */
  lemma {:induction false} StepDeferred(c: Cache, op: Op, index: nat -> nat, hash: Hash)
    requires Inv(c, index) && Enabled(c, op, hash)
    ensures Grows(if op.CarryOut? then c.deferred[1..] else c.deferred, Apply(c, op, index, hash).deferred)
  {
    hide Inv, InvBut, Deref, CleanUp, Thinned, SameBut, MayCreate, HashName, WithoutSeparators, Without, Deferral, Unkept;
    match op
    case Drop(k, locked, hold, alloc) =>
      DerefFrees(c, index, k, locked, hold, alloc);
      var d := Deref(c, index, k, locked, hold, alloc);
      if !(locked || k in d.kcbs) {
        DeferralGrows(c, d, k);
      }
    case DropLater(k, alloc) =>
      assert (c.deferred + [k])[..|c.deferred|] == c.deferred;
    case CarryOut(hold, alloc) =>
      var t := TakenUp(c);
      TakenUpInv(c, index);
      DerefFrees(t, index, c.deferred[0], false, hold, alloc);
      var d := Deref(t, index, c.deferred[0], false, hold, alloc);
      if c.deferred[0] !in d.kcbs {
        DeferralGrows(t, d, c.deferred[0]);
      }
    case Close(k, hold, alloc) =>
      UndelayedInv(c, index, k);
      CleanUpFrees(Undelayed(c, k), index, k, false, hold, alloc);
      DeferralGrows(Undelayed(c, k), CleanUp(Undelayed(c, k), index, k, false, hold, alloc), k);
    case _ =>
  }

  /** How many deferred dereferences operations `i` to `m` carry out. */
  ghost function CarriedOut(ops: seq<Op>, i: nat, m: nat): nat
    requires i <= m <= |ops|
  {
    if i == m then 0 else CarriedOut(ops, i, m - 1) + if ops[m - 1].CarryOut? then 1 else 0
  }

  /** In every run deferred dereferences are carried out in the order in which they were put off. */
  lemma {:induction false} FirstDeferredFirst(caches: seq<Cache>, ops: seq<Op>, index: nat -> nat, hash: Hash, i: nat, m: nat)
    requires IsRun(caches, ops, index, hash) && caches[0] == Empty && i <= m < |caches|
    ensures var n := CarriedOut(ops, i, m);
      n <= |caches[i].deferred| ==> caches[i].deferred[n..] <= caches[m].deferred
  {
    hide Inv, Keyed, Enabled, Apply, Goes;
    if i < m {
      var p := m - 1;
      FirstDeferredFirst(caches, ops, index, hash, i, p);
      RunInv(caches, ops, index, hash, p);
      StepDeferred(caches[p], ops[p], index, hash);
      var n := CarriedOut(ops, i, m);
      if n <= |caches[i].deferred| {
        PrefixStep(caches[i].deferred, CarriedOut(ops, i, p), ops[p].CarryOut?, caches[p].deferred, caches[m].deferred);
      }
    } else {
      assert caches[i].deferred[0..] == caches[i].deferred;
    }
  }

  lemma {:induction false} PrefixStep(s: seq<Id>, n: nat, taken: bool, t: seq<Id>, u: seq<Id>)
    requires n + (if taken then 1 else 0) <= |s| && s[n..] <= t && (taken ==> t != [])
    requires Grows(if taken then t[1..] else t, u)
    ensures s[n + (if taken then 1 else 0)..] <= u
  {
    if taken {
      assert s[n + 1..] == s[n..][1..];
    }
  }
}
