/**
  Every run of the operations on the cache of key control blocks, from an empty cache on
  (ntoskrnl/config/cmkcbncb.c and ntoskrnl/config/cmdelay.c).  An operation is one critical
  section under the exclusive KCB lock; KcbTree says on values what each of them does.
*/
module KcbRuns {
  import opened Common
  import opened Seqs
  import opened KcbTree
  import opened KeyPath

  // ----- the hashes of the keys -----

  /** Each KCB has the hash of its name, walking down from its parent, or from nothing. */
  ghost predicate Keyed(c: Cache, hash: Hash) {
    forall k :: k in c.kcbs && (c.kcbs[k].parent.Some? ==> c.kcbs[k].parent.value in c.kcbs) ==>
      c.kcbs[k].key.conv == HashName(hash, ConvAt(c, c.kcbs[k].parent), WithoutSeparators(c.kcbs[k].name))
  }

  function ConvAt(c: Cache, k: Option<Id>): nat
    requires k.Some? ==> k.value in c.kcbs
  {
    if k.Some? then c.kcbs[k.value].key.conv else 0
  }

  /** The hash of a list of names, one below the other. */
  function HashNames(hash: Hash, conv: nat, names: seq<string>): nat
    decreases |names|
  {
    if names == [] then conv else HashNames(hash, HashName(hash, conv, WithoutSeparators(names[0])), names[1..])
  }

  lemma {:induction false} HashNamesSnoc(hash: Hash, conv: nat, names: seq<string>, name: string)
    ensures HashNames(hash, conv, names + [name]) == HashName(hash, HashNames(hash, conv, names), WithoutSeparators(name))
    decreases |names|
  {
    hide HashName, WithoutSeparators;
    if names == [] {
      assert names + [name] == [name];
    } else {
      assert (names + [name])[1..] == names[1..] + [name];
      HashNamesSnoc(hash, HashName(hash, conv, WithoutSeparators(names[0])), names[1..], name);
    }
  }

  /** The hash of a KCB is that of its whole path, so equal paths share a hash chain. */
  lemma {:induction false} HashOfPath(c: Cache, index: nat -> nat, hash: Hash, k: Id)
    requires Inv(c, index) && Keyed(c, hash) && k in c.kcbs
    ensures c.kcbs[k].key.conv == HashNames(hash, 0, PathOf(c, Some(k)))
    decreases c.kcbs[k].levels
  {
    hide HashName, WithoutSeparators, RefInv, ChainInv, DelayInv, HashNames;
    assert LevelInv(c, k);
    var x := c.kcbs[k];
    assert [] + [x.name] == [x.name];
    HashNamesSnoc(hash, 0, PathOf(c, x.parent), x.name);
    if x.parent.Some? {
      HashOfPath(c, index, hash, x.parent.value);
    } else {
      HashOfNothing(hash, 0);
    }
  }

  lemma {:induction false} HashOfNothing(hash: Hash, conv: nat)
    ensures HashNames(hash, conv, []) == conv
  {
  }

  // ----- the operations -----

  /** One reference more; a KCB that waited to be closed is taken off the list. */
  ghost function Revived(c: Cache, k: Id): Cache
    requires k in c.kcbs
  {
    if c.kcbs[k].refs == 0 then Undelayed(Raised(c, k), k) else Raised(c, k)
  }

  /** The KCB is used again; in a frozen hive it will be closed at once from now on. */
  ghost function Reused(c: Cache, k: Id, frozen: bool): Cache
    requires k in c.kcbs
  {
    var d := Revived(c, k);
    if frozen && k in d.kcbs then d.(kcbs := d.kcbs[k := d.kcbs[k].(noDelay := true)]) else d
  }

  /** Equal but for chains that are empty in one way or the other. */
  ghost predicate SameBut(c: Cache, d: Cache) {
    d == c.(chains := d.chains) && forall i :: ChainOf(d, i) == ChainOf(c, i)
  }

  /**
    `locked`, `hold` and `alloc` are those of KcbTree.Deref.  TakeBack is what is left of a KCB
    that was made and could not be finished: perhaps an empty chain where there was none.
  */
  datatype Op =
    | Refer(k: Id, frozen: bool)
    | Drop(k: Id, locked: bool, hold: bool, alloc: nat -> bool)
    | DropLater(k: Id, alloc: nat -> bool)
    | Create(id: Id, hive: nat, cell: nat, name: string, parent: Option<Id>, frozen: bool)
    | TakeBack(chains: map<nat, seq<Id>>)
    | Delete(k: Id)
    | CarryOut(hold: bool, alloc: nat -> bool)
    | Close(k: Id, hold: bool, alloc: nat -> bool)

  const Empty := Cache(map[], map[], [], 0, [], multiset{}, multiset{})

  /** What CmpInsertKeyHash will compare of a new key. */
  function KeyFor(c: Cache, hash: Hash, hive: nat, cell: nat, name: string, parent: Option<Id>): Key
    requires parent.Some? ==> parent.value in c.kcbs
  {
    Key(HashName(hash, ConvAt(c, parent), WithoutSeparators(name)), hive, cell)
  }

  ghost predicate Enabled(c: Cache, op: Op, hash: Hash) {
    match op
    case Refer(k, frozen) => k in c.kcbs && c.kcbs[k].refs < MaxRefs
    case Drop(k, locked, hold, alloc) => c.handles[k] > 0
    case DropLater(k, alloc) => c.handles[k] > 0
    case Create(id, hive, cell, name, parent, frozen) =>
      && (parent.Some? ==> parent.value in c.kcbs)
      && MayCreate(c, id, KeyFor(c, hash, hive, cell, name, parent), parent)
    case TakeBack(chains) => SameBut(c, c.(chains := chains))
    case Delete(k) => k in c.kcbs && !c.kcbs[k].delete
    case CarryOut(hold, alloc) => c.deferred != []
    case Close(k, hold, alloc) => k in c.lru && k in c.kcbs && c.kcbs[k].refs == 0
  }

  ghost function Apply(c: Cache, op: Op, index: nat -> nat, hash: Hash): Cache
    requires Inv(c, index) && Enabled(c, op, hash)
  {
    match op
    case Refer(k, frozen) => Reused(c, k, frozen)
    case Drop(k, locked, hold, alloc) => Deref(c, index, k, locked, hold, alloc)
    case DropLater(k, alloc) => DelayDeref(c, index, k, alloc)
    case Create(id, hive, cell, name, parent, frozen) =>
      Created(c, index, id, KeyFor(c, hash, hive, cell, name, parent), name, parent, frozen)
    case TakeBack(chains) => c.(chains := chains)
    case Delete(k) => Deleted(c, index, k)
    case CarryOut(hold, alloc) =>
      TakenUpInv(c, index);
      Deref(TakenUp(c), index, c.deferred[0], false, hold, alloc)
    case Close(k, hold, alloc) =>
      UndelayedInv(c, index, k);
      CleanUp(Undelayed(c, k), index, k, false, hold, alloc)
  }

  // ----- what each operation keeps -----

  /** Hashes stay right, and leaks stay leaks. */
  ghost predicate Carries(c: Cache, d: Cache, hash: Hash) {
    (Keyed(c, hash) ==> Keyed(d, hash)) && c.leaked <= d.leaked
  }

  lemma {:induction false} KeyedCreated(c: Cache, index: nat -> nat, hash: Hash, id: Id, key: Key, name: string, parent: Option<Id>, noDelay: bool)
    requires Inv(c, index) && id !in c.kcbs && (parent.Some? ==> parent.value in c.kcbs)
    requires key.conv == HashName(hash, ConvAt(c, parent), WithoutSeparators(name))
    ensures Carries(c, Created(c, index, id, key, name, parent, noDelay), hash)
  {
    hide ChainInv, DelayInv, RefInv, HashName, WithoutSeparators;
    forall k | k in c.kcbs ensures c.kcbs[k].parent != Some(id) {
      assert LevelInv(c, k);
    }
  }

  /** `d` has KCBs of `c` only, each for the same key, with the same name and parent. */
  ghost predicate SameKeys(c: Cache, d: Cache) {
    forall k :: k in d.kcbs ==> k in c.kcbs && d.kcbs[k].key == c.kcbs[k].key && d.kcbs[k].name == c.kcbs[k].name && d.kcbs[k].parent == c.kcbs[k].parent
  }

  lemma {:induction false} CarriesSameKeys(c: Cache, d: Cache, hash: Hash)
    requires SameKeys(c, d) && c.leaked <= d.leaked
    ensures Carries(c, d, hash)
  {
    hide HashName, WithoutSeparators;
  }

  lemma {:induction false} SameButInv(c: Cache, d: Cache, index: nat -> nat)
    requires Inv(c, index) && SameBut(c, d)
    ensures Inv(d, index)
  {
    hide NoDup;
    forall id ensures RefInv(d, id) && LevelInv(d, id) {
      assert RefInv(c, id) && LevelInv(c, id);
      RefSame(c, d, id);
    }
    forall i | i in d.chains ensures NoDup(d.chains[i]) {
      assert ChainOf(d, i) == ChainOf(c, i);
      NoDupEmpty();
    }
    forall i, id ensures id in ChainOf(d, i) <==> InChain(d, index, i, id) {
      assert ChainOf(d, i) == ChainOf(c, i) && (id in ChainOf(c, i) <==> InChain(c, index, i, id));
    }
  }

  lemma {:induction false} UndelayedInv(c: Cache, index: nat -> nat, k: Id)
    requires Inv(c, index) && k in c.kcbs && c.kcbs[k].refs == 0
    ensures InvBut(Undelayed(c, k), index, Some(k))
  {
    hide RefInv, LevelInv, ChainInv, NoDup;
    var d := Undelayed(c, k);
    SameShape(c, d, index);
    WithoutNoDup(c.lru, k);
    forall id ensures RefInv(d, id) {
      assert RefInv(c, id);
      RefSame(c, d, id);
    }
  }

  lemma {:induction false} RefSame(c: Cache, d: Cache, id: Id)
    requires RefInv(c, id) && d.kcbs == c.kcbs && d.handles == c.handles && d.deferred == c.deferred && d.leaked == c.leaked
    ensures RefInv(d, id)
  {
    assert Children(d, id) == Children(c, id);
  }

  lemma {:induction false} RefsKnown(c: Cache, index: nat -> nat, k: Id)
    requires Inv(c, index) && k in c.kcbs
    ensures c.kcbs[k].refs <= MaxRefs && (c.kcbs[k].refs == 0 <==> k in c.lru) && NoDup(c.lru)
  {
    assert RefInv(c, k);
  }

  lemma {:induction false} ReferStep(c: Cache, index: nat -> nat, hash: Hash, k: Id, frozen: bool)
    requires Inv(c, index) && k in c.kcbs && c.kcbs[k].refs < MaxRefs
    ensures Inv(Reused(c, k, frozen), index) && Carries(c, Reused(c, k, frozen), hash)
  {
    hide Inv, Carries;
    if c.kcbs[k].refs == 0 {
      RevivedInv(c, index, k);
    } else {
      RaisedInv(c, index, k);
    }
    if frozen {
      NoDelayInv(Revived(c, k), index, k);
    }
    CarriesSameKeys(c, Reused(c, k, frozen), hash);
  }

  lemma {:induction false} ThinnedCarries(c: Cache, d: Cache, hash: Hash)
    requires Thinned(c, d) && c.leaked <= d.leaked
    ensures Carries(c, d, hash)
  {
    hide Carries;
    CarriesSameKeys(c, d, hash);
  }

  lemma {:induction false} LeakedGrows(c: Cache, d: Cache, k: Id)
    requires k in c.kcbs && Deferral(c, d, k)
    ensures c.leaked <= d.leaked
  {
  }

  lemma {:induction false} DropStep(c: Cache, index: nat -> nat, hash: Hash, k: Id, locked: bool, hold: bool, alloc: nat -> bool)
    requires Inv(c, index) && c.handles[k] > 0
    ensures Carries(c, Deref(c, index, k, locked, hold, alloc), hash)
  {
    hide Inv, Carries, Deref, Closes, Deferral, Thinned;
    DerefFrees(c, index, k, locked, hold, alloc);
    var d := Deref(c, index, k, locked, hold, alloc);
    if !(locked || k in d.kcbs) {
      LeakedGrows(c, d, k);
    }
    ThinnedCarries(c, d, hash);
  }

  lemma {:induction false} CloseStep(c: Cache, index: nat -> nat, hash: Hash, k: Id, hold: bool, alloc: nat -> bool)
    requires InvBut(Undelayed(c, k), index, Some(k)) && k in c.kcbs && c.kcbs[k].refs == 0
    ensures Carries(c, CleanUp(Undelayed(c, k), index, k, false, hold, alloc), hash)
  {
    hide Inv, InvBut, Carries, CleanUp, Deferral, Thinned;
    var u := Undelayed(c, k);
    var d := CleanUp(u, index, k, false, hold, alloc);
    CleanUpFrees(u, index, k, false, hold, alloc);
    LeakedGrows(u, d, k);
    ThinnedCarries(u, d, hash);
    CarriesSameKeys(c, u, hash);
    CarriesOn(c, u, d, hash);
  }

  lemma {:induction false} CarriesOn(c: Cache, d: Cache, e: Cache, hash: Hash)
    requires Carries(c, d, hash) && Carries(d, e, hash)
    ensures Carries(c, e, hash)
  {
    hide Keyed;
  }

  /** Each operation keeps the tree, its counts, chains and lists; and carries hashes and leaks over. */
  lemma {:induction false} StepInv(c: Cache, op: Op, index: nat -> nat, hash: Hash)
    requires Inv(c, index) && Enabled(c, op, hash)
    ensures Inv(Apply(c, op, index, hash), index) && Carries(c, Apply(c, op, index, hash), hash)
  {
    hide Inv, Carries, Reused, Deref, DelayDeref, Created, Deleted, CleanUp, SameBut, MayCreate, HashName, WithoutSeparators;
    match op
    case Refer(k, frozen) => ReferStep(c, index, hash, k, frozen);
    case Drop(k, locked, hold, alloc) => DropStep(c, index, hash, k, locked, hold, alloc);
    case DropLater(k, alloc) => DropLaterStep(c, index, hash, k, alloc);
    case Create(id, hive, cell, name, parent, frozen) => CreateStep(c, index, hash, id, hive, cell, name, parent, frozen);
    case TakeBack(chains) => TakeBackStep(c, index, hash, chains);
    case Delete(k) => DeleteStep(c, index, hash, k);
    case CarryOut(hold, alloc) => CarryOutStep(c, index, hash, hold, alloc);
    case Close(k, hold, alloc) =>
      UndelayedInv(c, index, k);
      CloseStep(c, index, hash, k, hold, alloc);
  }

  lemma {:induction false} DropLaterStep(c: Cache, index: nat -> nat, hash: Hash, k: Id, alloc: nat -> bool)
    requires Inv(c, index) && c.handles[k] > 0
    ensures Carries(c, DelayDeref(c, index, k, alloc), hash)
  {
    hide Inv, Carries;
    ThinnedCarries(c, DelayDeref(c, index, k, alloc), hash);
  }

  lemma {:induction false} CreateStep(
      c: Cache, index: nat -> nat, hash: Hash, id: Id, hive: nat, cell: nat, name: string, parent: Option<Id>, frozen: bool)
    requires Inv(c, index) && (parent.Some? ==> parent.value in c.kcbs)
    requires MayCreate(c, id, KeyFor(c, hash, hive, cell, name, parent), parent)
    ensures var d := Created(c, index, id, KeyFor(c, hash, hive, cell, name, parent), name, parent, frozen);
            Inv(d, index) && Carries(c, d, hash)
  {
    hide Inv, Carries, Created, HashName, WithoutSeparators;
    var key := KeyFor(c, hash, hive, cell, name, parent);
    CreatedInv(c, index, id, key, name, parent, frozen);
    KeyedCreated(c, index, hash, id, key, name, parent, frozen);
  }

  lemma {:induction false} TakeBackStep(c: Cache, index: nat -> nat, hash: Hash, chains: map<nat, seq<Id>>)
    requires Inv(c, index) && SameBut(c, c.(chains := chains))
    ensures Inv(c.(chains := chains), index) && Carries(c, c.(chains := chains), hash)
  {
    hide Inv, Carries, SameBut;
    SameButInv(c, c.(chains := chains), index);
    CarriesSameKeys(c, c.(chains := chains), hash);
  }

  lemma {:induction false} DeleteStep(c: Cache, index: nat -> nat, hash: Hash, k: Id)
    requires Inv(c, index) && k in c.kcbs && !c.kcbs[k].delete
    ensures Inv(Deleted(c, index, k), index) && Carries(c, Deleted(c, index, k), hash)
  {
    hide Inv, Carries;
    DeletedInv(c, index, k);
    CarriesSameKeys(c, Deleted(c, index, k), hash);
  }

  lemma {:induction false} CarryOutStep(c: Cache, index: nat -> nat, hash: Hash, hold: bool, alloc: nat -> bool)
    requires Inv(c, index) && c.deferred != []
    ensures Inv(TakenUp(c), index)
    ensures Carries(c, Deref(TakenUp(c), index, c.deferred[0], false, hold, alloc), hash)
  {
    hide Inv, Carries, Deref;
    var t := TakenUp(c);
    TakenUpInv(c, index);
    DropStep(t, index, hash, c.deferred[0], false, hold, alloc);
    CarriesSameKeys(c, t, hash);
    CarriesOn(c, t, Deref(t, index, c.deferred[0], false, hold, alloc), hash);
  }

  // ----- every run -----

  /** What an operation would do to a broken cache is left open. */
  ghost predicate Goes(c: Cache, op: Op, d: Cache, index: nat -> nat, hash: Hash) {
    Enabled(c, op, hash) && (Inv(c, index) ==> d == Apply(c, op, index, hash))
  }

  ghost predicate IsRun(caches: seq<Cache>, ops: seq<Op>, index: nat -> nat, hash: Hash) {
    && |caches| == |ops| + 1
    && forall i :: 0 <= i < |ops| ==> Goes(caches[i], ops[i], caches[i + 1], index, hash)
  }

  /** Some run of operations leads from `c` to `d`. */
  ghost predicate Reaches(c: Cache, d: Cache, index: nat -> nat, hash: Hash) {
    exists caches: seq<Cache>, ops: seq<Op> ::
      IsRun(caches, ops, index, hash) && caches[0] == c && caches[|caches| - 1] == d
  }

  lemma {:induction false} ReachesSelf(c: Cache, index: nat -> nat, hash: Hash)
    ensures Reaches(c, c, index, hash)
  {
    var caches, ops: seq<Op> := [c], [];
    assert IsRun(caches, ops, index, hash);
  }

  lemma {:induction false} ReachesStep(c: Cache, op: Op, d: Cache, index: nat -> nat, hash: Hash)
    requires Goes(c, op, d, index, hash)
    ensures Reaches(c, d, index, hash)
  {
    hide Goes;
    var caches, ops := [c, d], [op];
    assert IsRun(caches, ops, index, hash);
  }

  lemma {:induction false} RunsJoin(a: seq<Cache>, p: seq<Op>, b: seq<Cache>, q: seq<Op>, index: nat -> nat, hash: Hash)
    requires IsRun(a, p, index, hash) && IsRun(b, q, index, hash) && a[|a| - 1] == b[0]
    ensures IsRun(a + b[1..], p + q, index, hash)
  {
    hide Goes;
    var caches, ops := a + b[1..], p + q;
    forall i | 0 <= i < |ops| ensures Goes(caches[i], ops[i], caches[i + 1], index, hash) {
      if i < |p| {
        assert Goes(a[i], p[i], a[i + 1], index, hash);
      } else {
        var j := i - |p|;
        assert Goes(b[j], q[j], b[j + 1], index, hash);
      }
    }
  }

  lemma {:induction false} ReachesOn(c: Cache, d: Cache, e: Cache, index: nat -> nat, hash: Hash)
    requires Reaches(c, d, index, hash) && Reaches(d, e, index, hash)
    ensures Reaches(c, e, index, hash)
  {
    hide Goes;
    var a: seq<Cache>, p: seq<Op> :| IsRun(a, p, index, hash) && a[0] == c && a[|a| - 1] == d;
    var b: seq<Cache>, q: seq<Op> :| IsRun(b, q, index, hash) && b[0] == d && b[|b| - 1] == e;
    RunsJoin(a, p, b, q, index, hash);
    var caches := a + b[1..];
    RunLength(a, p, index, hash);
    RunLength(b, q, index, hash);
    assert caches[0] == c && caches[|caches| - 1] == e;
    assert IsRun(caches, p + q, index, hash);
  }

  lemma {:induction false} RunLength(caches: seq<Cache>, ops: seq<Op>, index: nat -> nat, hash: Hash)
    requires IsRun(caches, ops, index, hash)
    ensures |caches| == |ops| + 1
  {
  }

  lemma {:induction false} EmptyInv(index: nat -> nat)
    ensures Inv(Empty, index)
  {
    forall id ensures RefInv(Empty, id) {
      assert Children(Empty, id) == {};
    }
  }

  /**
    In every state of every run that starts with an empty cache: references are children,
    handles, deferred dereferences and leaks; the unreferenced KCBs are those on the
    delayed-close list; live KCBs are in their chains; and each KCB has its hash.
  */
  lemma {:induction false} RunInv(caches: seq<Cache>, ops: seq<Op>, index: nat -> nat, hash: Hash, k: nat)
    requires IsRun(caches, ops, index, hash) && caches[0] == Empty && k < |caches|
    ensures Inv(caches[k], index) && Keyed(caches[k], hash)
    ensures k < |ops| ==> Enabled(caches[k], ops[k], hash) && caches[k + 1] == Apply(caches[k], ops[k], index, hash)
  {
    hide Inv, Enabled, Apply;
    if k == 0 {
      EmptyInv(index);
    } else {
      var i := k - 1;
      RunInv(caches, ops, index, hash, i);
      StepInv(caches[i], ops[i], index, hash);
    }
    if k < |ops| {
      assert Goes(caches[k], ops[k], caches[k + 1], index, hash);
    }
  }

  /** So it is wherever a run has led. */
  lemma {:induction false} Reached(d: Cache, index: nat -> nat, hash: Hash)
    requires Reaches(Empty, d, index, hash)
    ensures Inv(d, index) && Keyed(d, hash)
  {
    hide Inv, Keyed, Goes, Enabled, Apply;
    var caches: seq<Cache>, ops: seq<Op> :| IsRun(caches, ops, index, hash) && caches[0] == Empty && caches[|caches| - 1] == d;
    RunInv(caches, ops, index, hash, |ops|);
  }

  /** In every run each KCB has the hash of its whole path. */
  lemma {:induction false} KeyedForGood(caches: seq<Cache>, ops: seq<Op>, index: nat -> nat, hash: Hash, j: nat, k: Id)
    requires IsRun(caches, ops, index, hash) && caches[0] == Empty && j < |caches| && k in caches[j].kcbs
    ensures caches[j].kcbs[k].key.conv == HashNames(hash, 0, PathOf(caches[j], Some(k)))
  {
    hide Inv, Keyed, HashNames, PathOf, IsRun, Apply;
    RunInv(caches, ops, index, hash, j);
    HashOfPath(caches[j], index, hash, k);
  }

  /** A KCB with a leaked reference stays in use, off the delayed-close list, for ever after. */
  lemma {:induction false} LeakedForGood(caches: seq<Cache>, ops: seq<Op>, index: nat -> nat, hash: Hash, i: nat, j: nat, k: Id)
    requires IsRun(caches, ops, index, hash) && caches[0] == Empty && i <= j < |caches| && caches[i].leaked[k] > 0
    ensures caches[j].leaked[k] > 0 && k in caches[j].kcbs && caches[j].kcbs[k].refs > 0 && k !in caches[j].lru
  {
    hide Inv, Keyed, IsRun, Apply, Enabled;
    RunInv(caches, ops, index, hash, j);
    if i < j {
      var m := j - 1;
      LeakedForGood(caches, ops, index, hash, i, m, k);
      RunInv(caches, ops, index, hash, m);
      RunLength(caches, ops, index, hash);
      StepInv(caches[m], ops[m], index, hash);
    }
    LeakedStays(caches[j], index, k);
  }

  // ----- when a reference leaks -----

  /** Freeing the KCB drops the last reference of its parent, for which no delay item can be had. */
  ghost predicate ParentLeaks(c: Cache, k: Id, alloc: nat -> bool) {
    k in c.kcbs && c.kcbs[k].parent.Some? &&
    var p := c.kcbs[k].parent.value;
    p in c.kcbs && c.kcbs[p].refs == 1 && !alloc(c.kcbs[p].levels)
  }

  /** The operation is to put off the dereference of a last reference and gets no delay item. */
  ghost predicate Leaks(c: Cache, op: Op) {
    match op
    case Drop(k, locked, hold, alloc) =>
      !locked && k in c.kcbs && c.kcbs[k].refs == 1 && Unkept(c.kcbs[k], hold, alloc) && ParentLeaks(c, k, alloc)
    case DropLater(k, alloc) => k in c.kcbs && c.kcbs[k].refs == 1 && !alloc(c.kcbs[k].levels)
    case CarryOut(hold, alloc) =>
      c.deferred != [] &&
      var k := c.deferred[0];
      k in c.kcbs && c.kcbs[k].refs == 1 && Unkept(c.kcbs[k], hold, alloc) && ParentLeaks(c, k, alloc)
    case Close(k, hold, alloc) => ParentLeaks(c, k, alloc)
    case _ => false
  }

  lemma {:induction false} CleanUpLeaks(c: Cache, index: nat -> nat, k: Id, hold: bool, alloc: nat -> bool)
    requires InvBut(c, index, Some(k)) && k in c.kcbs && c.kcbs[k].refs == 0
    ensures CleanUp(c, index, k, false, hold, alloc).leaked == c.leaked <==> !ParentLeaks(c, k, alloc)
  {
    hide InvBut, Inv, Thinned, Removed, Without, NoDup;
    RemovedInv(c, index, k);
    Placed(c, index, k);
    RemovedAt(c, index, k);
    RemovedLeaks(c, index, k);
  }

  lemma {:induction false} RemovedLeaks(c: Cache, index: nat -> nat, k: Id)
    requires k in c.kcbs
    ensures Removed(c, index, k).leaked == c.leaked
  {
  }

  lemma {:induction false} DropLeaks(c: Cache, index: nat -> nat, k: Id, locked: bool, hold: bool, alloc: nat -> bool)
    requires Inv(c, index) && c.handles[k] > 0
    ensures k in c.kcbs
    ensures Deref(c, index, k, locked, hold, alloc).leaked == c.leaked <==>
              !(!locked && c.kcbs[k].refs == 1 && Unkept(c.kcbs[k], hold, alloc) && ParentLeaks(c, k, alloc))
  {
    hide Inv, InvBut, CleanUp, Thinned;
    DroppedInv(c, index, k);
    if locked {
      DerefLists(c, index, k, locked, hold, alloc);
    } else if c.kcbs[k].refs == 1 && Unkept(c.kcbs[k], hold, alloc) {
      var d := Dropped(c, k);
      CleanUpLeaks(d, index, k, hold, alloc);
      Placed(d, index, k);
    }
  }

  /** Exactly these operations leak a reference. */
  lemma {:induction false} LeaksExactly(c: Cache, op: Op, index: nat -> nat, hash: Hash)
    requires Inv(c, index) && Enabled(c, op, hash)
    ensures Apply(c, op, index, hash).leaked == c.leaked <==> !Leaks(c, op)
  {
    hide Inv, InvBut, Deref, CleanUp, Thinned, Unkept, ParentLeaks, SameBut, MayCreate, HashName, WithoutSeparators;
    match op
    case Drop(k, locked, hold, alloc) => DropLeaks(c, index, k, locked, hold, alloc);
    case CarryOut(hold, alloc) =>
      TakenUpInv(c, index);
      DropLeaks(TakenUp(c), index, c.deferred[0], false, hold, alloc);
      SameKcbsLeak(c, TakenUp(c), c.deferred[0], hold, alloc);
    case Close(k, hold, alloc) =>
      UndelayedInv(c, index, k);
      CleanUpLeaks(Undelayed(c, k), index, k, hold, alloc);
      SameKcbsLeak(c, Undelayed(c, k), k, hold, alloc);
    case _ =>
  }

  lemma {:induction false} SameKcbsLeak(c: Cache, d: Cache, k: Id, hold: bool, alloc: nat -> bool)
    requires d.kcbs == c.kcbs && k in c.kcbs
    ensures ParentLeaks(d, k, alloc) <==> ParentLeaks(c, k, alloc)
  {
  }

  lemma {:induction false} NothingLeaked(caches: seq<Cache>, ops: seq<Op>, index: nat -> nat, hash: Hash, j: nat)
    requires IsRun(caches, ops, index, hash) && caches[0] == Empty && j < |caches|
    requires forall i :: 0 <= i < j ==> !Leaks(caches[i], ops[i])
    ensures caches[j].leaked == multiset{}
  {
    hide Inv, Keyed, IsRun, Apply, Enabled, Leaks;
    RunLength(caches, ops, index, hash);
    if j > 0 {
      var m := j - 1;
      NothingLeaked(caches, ops, index, hash, m);
      RunInv(caches, ops, index, hash, m);
      LeaksExactly(caches[m], ops[m], index, hash);
    }
  }

  /**
    In every run: once there is no handle, no deferred dereference and nothing on the
    delayed-close list, no KCB is left, if and only if no operation has leaked a reference.
  */
  lemma {:induction false} AllGone(caches: seq<Cache>, ops: seq<Op>, index: nat -> nat, hash: Hash, j: nat)
    requires IsRun(caches, ops, index, hash) && caches[0] == Empty && j < |caches|
    requires caches[j].handles == multiset{} && caches[j].deferred == [] && caches[j].lru == []
    ensures caches[j].kcbs == map[] <==> forall i :: 0 <= i < j ==> !Leaks(caches[i], ops[i])
  {
    hide Inv, Keyed, IsRun, Apply, Enabled, Leaks, Carries;
    RunLength(caches, ops, index, hash);
    RunInv(caches, ops, index, hash, j);
    if i :| 0 <= i < j && Leaks(caches[i], ops[i]) {
      RunInv(caches, ops, index, hash, i);
      StepLeaks(caches[i], ops[i], index, hash);
      var k :| caches[i + 1].leaked[k] > 0;
      LeakedForGood(caches, ops, index, hash, i + 1, j, k);
    } else {
      NothingLeaked(caches, ops, index, hash, j);
      AllClosed(caches[j], index);
    }
  }

  lemma {:induction false} StepLeaks(c: Cache, op: Op, index: nat -> nat, hash: Hash)
    requires Inv(c, index) && Enabled(c, op, hash) && Leaks(c, op)
    ensures exists k :: Apply(c, op, index, hash).leaked[k] > 0
  {
    hide Inv, Leaks, Apply, Enabled, Keyed;
    LeaksExactly(c, op, index, hash);
    StepInv(c, op, index, hash);
    var d := Apply(c, op, index, hash);
    assert c.leaked != d.leaked && c.leaked <= d.leaked;
    var k :| d.leaked[k] != c.leaked[k];
    assert d.leaked[k] > 0;
  }
}
