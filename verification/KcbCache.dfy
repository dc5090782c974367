/** The operations on the cache of key control blocks, as ntoskrnl/config carries them out. */
module KcbCache {
  import opened Common
  import opened Seqs
  import opened KcbTree
  import opened KcbRuns
  import opened KeyPath

  datatype Status = Success | Retry | Unsuccessful

  datatype QueryStatus = Done | TooSmall | Overflow

  /** Then a live child is found by its name alone, however the path spells it. */
  lemma {:induction false} NameIsEnough(c: Cache, hash: Hash, up: char -> char, path: string, kcb: Id, k: Id)
    requires Keyed(c, hash) && UpcasedHash(hash, up) && kcb in c.kcbs && k in c.kcbs && Names(path) != []
    requires !c.kcbs[k].delete && c.kcbs[k].parent == Some(kcb) && SEP !in c.kcbs[k].name
    ensures CachedChild(c, up, Entries(hash, c.kcbs[kcb].key.conv, Names(path)), kcb, k) <==> SameName(up, Names(path)[0], c.kcbs[k].name)
  {
    hide HashName, Names, WithoutSeparators;
    NoSeparators(c.kcbs[k].name);
    if SameName(up, Names(path)[0], c.kcbs[k].name) {
      SameNameHash(hash, up, c.kcbs[kcb].key.conv, Names(path)[0], c.kcbs[k].name);
    }
  }

  /** The stack holds the first names of the path. */
  ghost predicate StackFor(stack: seq<Entry>, path: string) {
    |stack| <= |Names(path)| && forall i :: 0 <= i < |stack| ==> stack[i].name == Names(path)[i]
  }

  lemma {:induction false} StackFits(stack: seq<Entry>, path: string)
    requires StackFor(stack, path)
    ensures |stack| <= |Names(path)|
  {
  }

  /** CmpCompareSubkeys: the KCB is compared with every entry of the stack, and none of those above it. */
  ghost predicate EntriesMatch(up: char -> char, stack: seq<Entry>, i: nat, x: Kcb) {
    forall j :: 0 <= j <= i && j < |stack| ==> stack[j].conv == x.key.conv && SameName(up, stack[j].name, x.name)
  }

  /** What the search accepts at stack index `i`. */
  ghost predicate Accepted(c: Cache, up: char -> char, stack: seq<Entry>, i: nat, kcb: Id, k: Id) {
    && kcb in c.kcbs && k in c.kcbs && c.kcbs[k].levels == c.kcbs[kcb].levels + i + 1
    && EntriesMatch(up, stack, i, c.kcbs[k]) && c.kcbs[k].parent == Some(kcb)
  }

  /** A KCB in the cache for the first name of the stack below `kcb`. */
  ghost predicate CachedChild(c: Cache, up: char -> char, stack: seq<Entry>, kcb: Id, k: Id) {
    && stack != [] && k in c.kcbs && !c.kcbs[k].delete && c.kcbs[k].parent == Some(kcb)
    && c.kcbs[k].key.conv == stack[0].conv && SameName(up, stack[0].name, c.kcbs[k].name)
  }

  /** A child of the base KCB is one level below it: only the first name can ever be matched. */
  lemma {:induction false} OnlyFirstName(c: Cache, index: nat -> nat, up: char -> char, stack: seq<Entry>, i: nat, kcb: Id, k: Id)
    requires Inv(c, index) && i < |stack|
    ensures Accepted(c, up, stack, i, kcb, k) ==> i == 0
    ensures i == 0 && k in ChainOf(c, index(stack[0].conv)) ==> (Accepted(c, up, stack, 0, kcb, k) <==> CachedChild(c, up, stack, kcb, k))
    ensures CachedChild(c, up, stack, kcb, k) ==> k in ChainOf(c, index(stack[0].conv))
  {
    hide RefInv, DelayInv, NoDup, SameName;
    assert LevelInv(c, k);
    if k in c.kcbs {
      assert k in ChainOf(c, index(stack[0].conv)) <==> InChain(c, index, index(stack[0].conv), k);
    }
  }

  class KcbTable {
    const index: nat -> nat      // GET_HASH_INDEX
    const hash: Hash             // COMPUTE_HASH_CHAR
    const closeSize: nat         // CmpDelayedCloseSize
    var kcbs: map<Id, Kcb>
    var chains: map<nat, seq<Id>>
    var lru: seq<Id>
    var elements: int
    var deferred: seq<Id>
    var hold: bool               // CmpHoldLazyFlush
    ghost var handles: multiset<Id>
    ghost var leaked: multiset<Id>

    ghost function Value(): Cache
      reads this
    {
      Cache(kcbs, chains, lru, elements, deferred, handles, leaked)
    }

    ghost predicate Valid()
      reads this
    {
      Inv(Value(), index)
    }

    constructor (index: nat -> nat, hash: Hash, closeSize: nat)
      ensures Valid() && Value() == Empty && kcbs == map[] && deferred == [] && handles == multiset{} && leaked == multiset{}
    {
      this.index := index;
      this.hash := hash;
      this.closeSize := closeSize;
      kcbs, chains, lru, elements, deferred := map[], map[], [], 0, [];
      handles, leaked := multiset{}, multiset{};
      new;
      forall id ensures RefInv(Value(), id) {
        assert Children(Value(), id) == {};
      }
    }

    /** The chain of a hash index. */
    function Chain(i: nat): seq<Id>
      reads this
    {
      if i in chains then chains[i] else []
    }

    /** CmpRemoveKeyHash: the walk always finds the KCB. */
    method RemoveKeyHash(k: Id)
      requires k in kcbs && k in Chain(index(kcbs[k].key.conv)) && NoDup(Chain(index(kcbs[k].key.conv)))
      modifies this`chains
      ensures Value() == Unhashed(old(Value()), index, k)
    {
      var i := index(kcbs[k].key.conv);
      var chain := Chain(i);
      var at := 0;
      while chain[at] != k
        invariant 0 <= at < |chain| && k !in chain[..at]
        decreases |chain| - at
      {
        at := at + 1;
      }
      WithoutAt(chain, at);
      chains := chains[i := chain[..at] + chain[at + 1..]];
    }

    /** CmpInsertKeyHash: the KCB that stands for the key already, or the new one is linked in. */
    method InsertKeyHash(id: Id, key: Key) returns (found: Option<Id>)
      requires Valid() && id !in kcbs
      modifies this`chains
      ensures found.Some? ==> chains == old(chains) && found.value in kcbs && !kcbs[found.value].delete && kcbs[found.value].key == key
      ensures found.None? ==> MayAdd(old(Value()), id, key)
      ensures found.None? ==> chains == old(chains)[index(key.conv) := [id] + ChainOf(old(Value()), index(key.conv))]
    {
      hide NoDup, RefInv, LevelInv, DelayInv;
      var i := index(key.conv);
      var chain := Chain(i);
      var at := 0;
      while at < |chain|
        invariant 0 <= at <= |chain|
        invariant forall j :: 0 <= j < at ==> chain[j] in kcbs && kcbs[chain[j]].key != key
      {
        assert InChain(Value(), index, i, chain[at]);
        if kcbs[chain[at]].key == key {
          return Some(chain[at]);
        }
        at := at + 1;
      }
      forall k | k in kcbs && !kcbs[k].delete ensures kcbs[k].key != key {
        var j := index(kcbs[k].key.conv);
        assert InChain(Value(), index, j, k) && k in ChainOf(Value(), j);
      }
      chains := chains[i := [id] + chain];
      return None;
    }

    /** CmpAddToDelayedClose, once there is a delay item. */
    method AddToDelayedClose(k: Id)
      modifies this`lru, this`elements
      ensures Value() == Delayed(old(Value()), k)
    {
      lru := [k] + lru;
      elements := elements + 1;
    }

    /** CmpRemoveFromDelayedClose */
    method RemoveFromDelayedClose(k: Id)
      requires k in lru && NoDup(lru)
      modifies this`lru, this`elements
      ensures Value() == Undelayed(old(Value()), k)
    {
      var at := 0;
      while lru[at] != k
        invariant 0 <= at < |lru| && k !in lru[..at]
        decreases |lru| - at
      {
        at := at + 1;
      }
      WithoutAt(lru, at);
      lru := lru[..at] + lru[at + 1..];
      elements := elements - 1;
    }

    /** CmpReferenceKeyControlBlock, under the exclusive KCB lock. */
    method Reference(k: Id) returns (ok: bool)
      requires Valid() && k in kcbs
      modifies this
      ensures Valid() && kcbs.Keys == old(kcbs).Keys && hold == old(hold)
      ensures ok <==> old(kcbs[k].refs) < MaxRefs
      ensures handles == if ok then old(handles) + multiset{k} else old(handles)
      ensures !ok ==> Value() == old(Value())
      ensures ok ==> Value() == Revived(old(Value()), k)
      ensures kcbs == old(kcbs)[k := old(kcbs[k]).(refs := kcbs[k].refs)]
      ensures k in lru <==> k in old(lru) && !ok
      ensures deferred == old(deferred) && leaked == old(leaked) && chains == old(chains)
      ensures Reaches(old(Value()), Value(), index, hash)
    {
      hide Inv, InvBut, NoDup, Reaches;
      ghost var was := Value();
      RefsKnown(was, index, k);
      ReachesSelf(was, index, hash);
      if kcbs[k].refs == MaxRefs {
        return false;
      }
      var unused := kcbs[k].refs == 0;
      kcbs := kcbs[k := kcbs[k].(refs := kcbs[k].refs + 1)];
      handles := handles + multiset{k};
      if unused {
        RevivedInv(was, index, k);
        assert Value() == Raised(was, k);
        RemoveFromDelayedClose(k);
      } else {
        RaisedInv(was, index, k);
      }
      ReachesReused(was, k, false, index, hash);
      return true;
    }

    /** CmpDelayDerefKeyControlBlock */
    method DelayDereference(k: Id, alloc: nat -> bool)
      requires Valid() && handles[k] > 0
      modifies this
      ensures Valid() && Value() == DelayDeref(old(Value()), index, k, alloc) && hold == old(hold)
      ensures Reaches(old(Value()), Value(), index, hash)
    {
      hide Inv, InvBut, Thinned, Reaches;
      ghost var was := Value();
      DroppedInv(Value(), index, k);
      ghost var d := DelayDeref(Value(), index, k, alloc);
      handles := handles - multiset{k};
      if kcbs[k].refs - 1 > 0 {
        kcbs := kcbs[k := kcbs[k].(refs := kcbs[k].refs - 1)];
      } else if alloc(kcbs[k].levels) {
        deferred := deferred + [k];
      } else {
        leaked := leaked + multiset{k};
      }
      assert Value() == d;
      ReachesStep(was, DropLater(k, alloc), d, index, hash);
    }

    /** CmpDereferenceKeyControlBlockWithLock */
    method Dereference(k: Id, locked: bool, alloc: nat -> bool)
      requires Valid() && handles[k] > 0
      modifies this
      ensures Valid() && Value() == Deref(old(Value()), index, k, locked, hold, alloc) && hold == old(hold)
      ensures Reaches(old(Value()), Value(), index, hash)
      decreases if k in kcbs then kcbs[k].levels else 0, 1
    {
      hide Inv, InvBut, Thinned, Deferral, Reaches;
      ghost var was := Value();
      DroppedInv(was, index, k);
      ghost var d := Deref(was, index, k, locked, hold, alloc);
      kcbs := kcbs[k := kcbs[k].(refs := kcbs[k].refs - 1)];
      handles := handles - multiset{k};
      assert Value() == Dropped(was, k);
      if kcbs[k].refs == 0 {
        if hold || kcbs[k].noDelay || kcbs[k].delete {
          CleanUpKcb(k, locked, alloc);
        } else if !alloc(kcbs[k].levels) {
          CleanUpKcb(k, locked, alloc);
        } else {
          AddToDelayedClose(k);
        }
      }
      assert Value() == d;
      ReachesDropped(was, k, locked, hold, alloc, index, hash);
    }

    /** CmpCleanUpKcbCacheWithLock */
    method CleanUpKcb(k: Id, locked: bool, alloc: nat -> bool)
      requires InvBut(Value(), index, Some(k)) && k in kcbs && kcbs[k].refs == 0
      modifies this
      ensures Valid() && Value() == CleanUp(old(Value()), index, k, locked, hold, alloc) && hold == old(hold)
      decreases kcbs[k].levels, 0
    {
      hide Inv, InvBut, Thinned, Deferral, NoDup, Without, Reaches;
      ghost var was := Value();
      ghost var d := CleanUp(was, index, k, locked, hold, alloc);
      RemovedInv(was, index, k);
      Placed(was, index, k);
      var parent := kcbs[k].parent;
      if !kcbs[k].delete {
        RemoveKeyHash(k);
      }
      kcbs := kcbs - {k};
      if parent.Some? {
        handles := handles + multiset{parent.value};
        assert Value() == Removed(was, index, k);
        if locked {
          Dereference(parent.value, locked, alloc);
        } else {
          DelayDereference(parent.value, alloc);
        }
      }
      assert Value() == d;
    }

    /** The new KCB is taken out of its chain and freed again. */
    method Forget(id: Id, key: Key, name: string, ghost was: Cache)
      requires Inv(was, index) && id !in was.kcbs && Value() == Created(was, index, id, key, name, None, false)
      modifies this`kcbs, this`chains, this`handles
      ensures SameBut(was, Value())
    {
      hide Inv, NoDup, Without, SameBut;
      NewChain(was, index, id, key);
      RemoveKeyHash(id);
      kcbs := kcbs - {id};
      handles := handles - multiset{id};
      TakenBack(was, index, id, key, name);
    }

    /** The caller's own reference keeps the parent from being closed here. */
    method DropAgain(p: Id, alloc: nat -> bool, ghost before: Cache)
      requires Inv(before, index) && p in before.kcbs && 0 < before.kcbs[p].refs < MaxRefs && Value() == Raised(before, p)
      modifies this
      ensures Value() == before && hold == old(hold)
    {
      hide Inv, InvBut, Raised, Deref, Thinned, Closes, Deferral;
      RaisedKnown(before, p);
      RaisedInv(before, index, p);
      DerefMany(Raised(before, p), index, p, false, hold, alloc);
      Dereference(p, false, alloc);
    }

    method Attach(id: Id, key: Key, name: string, p: Id, ghost was: Cache)
      requires p in was.kcbs && id !in was.kcbs && p in Created(was, index, id, key, name, None, false).kcbs
      requires Value() == Raised(Created(was, index, id, key, name, None, false), p)
      modifies this`kcbs, this`handles
      ensures Value() == Created(was, index, id, key, name, Some(p), false)
    {
      hide Created, Raised;
      LinkedIs(was, index, id, key, name, p);
      kcbs := kcbs[id := Kcb(key, name, Some(p), kcbs[p].levels + 1, 1, false, false)];
      handles := handles - multiset{p};
    }

    /** A reference on the parent makes the new KCB its child. */
    method LinkToParent(id: Id, key: Key, name: string, p: Id, gotName: bool, alloc: nat -> bool, ghost was: Cache) returns (ok: bool)
      requires Inv(was, index) && MayAdd(was, id, key) && was.handles[p] > 0 && Value() == Created(was, index, id, key, name, None, false)
      modifies this
      ensures p in was.kcbs
      ensures ok <==> gotName && was.kcbs[p].levels + 1 < MaxLevels && was.kcbs[p].refs < MaxRefs
      ensures if ok then Value() == Created(was, index, id, key, name, Some(p), false) else SameBut(was, Value())
      ensures hold == old(hold)
    {
      hide Inv, InvBut, NoDup, Without, Created, Raised, Deref, SameBut, Thinned, Closes, Deferral;
      NewRoot(was, index, id, key, name);
      HandleKnown(was, index, p);
      ghost var made := Value();
      StillThere(was, index, id, key, name, p);
      ok := kcbs[p].levels + 1 < MaxLevels;
      if ok {
        ok := Reference(p);
        HandleRevived(made, index, p);
      }
      if ok {
        if gotName {
          Attach(id, key, name, p, was);
          return true;
        }
        DropAgain(p, alloc, made);
      }
      Forget(id, key, name, was);
      return false;
    }

    /** The KCB is in its chain; set it up, or take it out again. */
    method AddKcb(id: Id, key: Key, name: string, parent: Option<Id>, gotName: bool, alloc: nat -> bool, ghost was: Cache) returns (ok: bool, faults: bool)
      requires Inv(was, index) && MayAdd(was, id, key) && Value() == was.(chains := chains)
      requires chains == was.chains[index(key.conv) := [id] + ChainOf(was, index(key.conv))]
      requires parent.Some? ==> was.handles[parent.value] > 0
      modifies this
      ensures Valid() && (parent.Some? ==> parent.value in was.kcbs)
      ensures ok <==> gotName && ParentFits(was, parent)
      ensures faults <==> parent.None? && !gotName
      ensures if ok || faults then Value() == Created(was, index, id, key, name, parent, false) else SameBut(was, Value())
      ensures hold == old(hold)
    {
      hide Inv, InvBut, NoDup, Without, Created, SameBut, Raised, ChainOf;
      kcbs := kcbs[id := Kcb(key, name, None, 1, 1, false, false)];
      handles := handles + multiset{id};
      IsCreated(was, index, id, key, name, Value());
      NewRoot(was, index, id, key, name);
      if parent.None? {
        // without a name the code goes on to dereference the parent that is not there
        return gotName, !gotName;
      }
      faults := false;
      ok := LinkToParent(id, key, name, parent.value, gotName, alloc, was);
      HandleKnown(was, index, parent.value);
      if ok {
        CreatedInv(was, index, id, key, name, parent, false);
      } else {
        SameButInv(was, Value(), index);
      }
    }

    /** A KCB of a frozen hive is closed as soon as it is unreferenced. */
    method Freeze(k: Id)
      requires Valid() && k in kcbs
      modifies this`kcbs
      ensures Valid() && kcbs == old(kcbs)[k := old(kcbs[k]).(noDelay := true)]
    {
      hide Inv;
      NoDelayInv(Value(), index, k);
      kcbs := kcbs[k := kcbs[k].(noDelay := true)];
    }

    /**
      CmpCreateKeyControlBlock, with the locks held: `id` is the memory for a new KCB if
      `gotKcb`, `gotName` tells whether a name block can be had, `frozen` comes from the hive.
    */
    method CreateKcb(id: Id, hive: nat, cell: nat, keyName: string, parent: Option<Id>, gotKcb: bool, gotName: bool, frozen: bool, alloc: nat -> bool)
      returns (r: Option<Id>, faults: bool)
      requires Valid() && id !in kcbs && Trim(keyName) != []
      requires parent.Some? ==> handles[parent.value] > 0
      modifies this
      ensures Valid() && hold == old(hold) && (parent.Some? ==> parent.value in old(kcbs))
      ensures var key := KeyFor(old(Value()), hash, hive, cell, Trim(keyName), parent);
        && (faults <==> Faults(old(Value()), id, key, parent, gotKcb, gotName))
        && (faults ==> r == None && Value() == Created(old(Value()), index, id, key, Trim(keyName), None, false))
        && (!faults ==> CreateOutcome(old(Value()), Value(), index, id, key, Trim(keyName), parent, gotKcb, gotName, frozen, r))
      ensures Reaches(old(Value()), Value(), index, hash)
    {
      hide Inv, Reaches, CreateOutcome, HashName, WithoutSeparators, Created, MayAdd;
      if parent.Some? {
        HandleKnown(Value(), index, parent.value);
      }
      var conv := 0;
      if parent.Some? {
        conv := kcbs[parent.value].key.conv;
      }
      conv := ConvKeyOf(hash, conv, keyName);
      var name := SkipSeparators(keyName);
      r, faults := InsertKcb(id, Key(conv, hive, cell), name, parent, gotKcb, gotName, frozen, alloc);
    }

    /** The rest of it, once the hash is known. */
    method InsertKcb(id: Id, key: Key, name: string, parent: Option<Id>, gotKcb: bool, gotName: bool, frozen: bool, alloc: nat -> bool)
      returns (r: Option<Id>, faults: bool)
      requires Valid() && id !in kcbs && (parent.Some? ==> parent.value in kcbs && handles[parent.value] > 0)
      requires key == KeyFor(Value(), hash, key.hive, key.cell, name, parent)
      modifies this
      ensures Valid() && hold == old(hold)
      ensures faults <==> Faults(old(Value()), id, key, parent, gotKcb, gotName)
      ensures faults ==> r == None && Value() == Created(old(Value()), index, id, key, name, None, false)
      ensures !faults ==> CreateOutcome(old(Value()), Value(), index, id, key, name, parent, gotKcb, gotName, frozen, r)
      ensures Reaches(old(Value()), Value(), index, hash)
    {
      hide Inv, InvBut, Created, SameBut, ChainOf, CreateOutcome, MayAdd, ParentFits, Reaches, Reused, KeyFor;
      ghost var was := Value();
      SameSelf(was);
      ReachesSelf(was, index, hash);
      if !gotKcb {
        OutcomeNone(was, was, index, id, key, name, parent, gotKcb, gotName, frozen);
        return None, false;
      }
      var found := InsertKeyHash(id, key);
      if found.Some? {
        NotNew(was, id, key, found.value);
        var ok := ReuseKcb(found.value, frozen);
        if ok {
          OutcomeFound(was, index, id, key, name, parent, gotName, frozen, found.value);
          return found, false;
        }
        OutcomeFull(was, index, id, key, name, parent, gotName, frozen, found.value);
        return None, false;
      }
      var ok;
      ok, faults := AddKcb(id, key, name, parent, gotName, alloc, was);
      if faults {
        RootFits(was);
        ReachesCreated(was, id, key, name, None, false, index, hash);
        return None, true;
      }
      if !ok {
        ReachesBack(was, Value(), index, hash);
        OutcomeNone(was, Value(), index, id, key, name, parent, gotKcb, gotName, frozen);
        return None, false;
      }
      CreatedKnown(was, index, id, key, name, parent);
      ReachesCreated(was, id, key, name, parent, frozen, index, hash);
      if frozen {
        Freeze(id);
      }
      OutcomeAdded(was, index, id, key, name, parent, frozen);
      return Some(id), false;
    }

    /** The KCB that stands for the key already is referenced. */
    method ReuseKcb(k: Id, frozen: bool) returns (ok: bool)
      requires Valid() && k in kcbs
      modifies this
      ensures Valid() && hold == old(hold)
      ensures ok <==> old(kcbs[k].refs) < MaxRefs
      ensures if ok then Value() == Reused(old(Value()), k, frozen) else Value() == old(Value()) && old(kcbs[k].refs) == MaxRefs
      ensures Reaches(old(Value()), Value(), index, hash)
    {
      hide Inv, InvBut, Reaches, Undelayed, Raised;
      ghost var was := Value();
      RefsKnown(was, index, k);
      ok := Reference(k);
      if ok && frozen {
        Freeze(k);
      }
      if ok {
        ReachesReused(was, k, frozen, index, hash);
      }
    }

    method CompareSubkeys(up: char -> char, stack: seq<Entry>, cur: Id, remaining: nat) returns (same: bool, parent: Option<Id>)
      requires cur in kcbs && remaining < |stack|
      ensures same <==> EntriesMatch(up, stack, remaining, kcbs[cur])
      ensures parent == if same then kcbs[cur].parent else Some(cur)
    {
      var i: int := remaining;
      while i >= 0
        invariant -1 <= i <= remaining
        invariant forall j :: i < j <= remaining ==> stack[j].conv == kcbs[cur].key.conv && SameName(up, stack[j].name, kcbs[cur].name)
        decreases i
      {
        if kcbs[cur].key.conv != stack[i].conv || !SameName(up, stack[i].name, kcbs[cur].name) {
          return false, Some(cur);
        }
        i := i - 1;
      }
      return true, kcbs[cur].parent;
    }

    /** One turn of the search of CmpLookInCache, through the chain of stack index `i`. */
    method SearchChain(up: char -> char, stack: seq<Entry>, i: nat, kcb: Id, levels: nat) returns (r: Option<Id>)
      requires Valid() && kcb in kcbs && i < |stack| && levels == kcbs[kcb].levels + i + 1
      ensures r.Some? ==> r.value in ChainOf(Value(), index(stack[i].conv)) && Accepted(Value(), up, stack, i, kcb, r.value)
      ensures r.None? ==> forall k :: k in ChainOf(Value(), index(stack[i].conv)) ==> !Accepted(Value(), up, stack, i, kcb, k)
    {
      hide Inv, InvBut, NoDup;
      var chain := Chain(index(stack[i].conv));
      ChainKnown(Value(), index, index(stack[i].conv));
      var j := 0;
      while j < |chain|
        invariant 0 <= j <= |chain|
        invariant forall m :: 0 <= m < j ==> !Accepted(Value(), up, stack, i, kcb, chain[m])
      {
        var cur := chain[j];
        if levels == kcbs[cur].levels {
          var same, parent := CompareSubkeys(up, stack, cur, i);
          if same && parent == Some(kcb) {
            return Some(cur);
          }
        }
        j := j + 1;
      }
      return None;
    }

    /** The base KCB is deleted, so what was found below it must leave the cache. */
    method Expunge(k: Id, alloc: nat -> bool)
      requires Valid() && k in kcbs && !kcbs[k].delete
      modifies this
      ensures Valid() && handles == old(handles) && hold == old(hold)
      ensures k !in kcbs || kcbs[k].delete
      ensures k in kcbs <==> old(kcbs[k].refs) != 0
      ensures Reaches(old(Value()), Value(), index, hash)
    {
      hide Inv, InvBut, NoDup, CleanUp, Closes, Thinned, Deferral, Without, Reaches;
      ghost var was := Value();
      RefsKnown(was, index, k);
      if kcbs[k].refs != 0 {
        MarkDeleted(k);
      } else {
        UndelayedInv(was, index, k);
        RemoveFromDelayedClose(k);
        CleanUpFrees(Value(), index, k, false, hold, alloc);
        CleanUpKcb(k, false, alloc);
        ReachesClosed(was, k, hold, alloc, index, hash);
      }
    }

    /** The search of CmpLookInCache, from the deepest name up. */
    method SearchCache(up: char -> char, stack: seq<Entry>, kcb: Id) returns (found: Option<Id>, i: int)
      requires Valid() && kcb in kcbs
      ensures found.Some? ==> i == 0 && CachedChild(Value(), up, stack, kcb, found.value)
      ensures found.None? ==> i == -1 && forall k :: !CachedChild(Value(), up, stack, kcb, k)
    {
      hide Inv, InvBut, NoDup, CachedChild, Accepted;
      i, found := |stack| - 1, None;
      var levels := |stack| + kcbs[kcb].levels + 1;
      while i >= 0
        invariant -1 <= i < |stack| && levels == kcbs[kcb].levels + i + 2 && found.None?
        invariant i < 0 && stack != [] ==> forall k :: k in ChainOf(Value(), index(stack[0].conv)) ==> !Accepted(Value(), up, stack, 0, kcb, k)
        decreases i
      {
        levels := levels - 1;
        found := SearchChain(up, stack, i, kcb, levels);
        if found.Some? {
          OnlyFirstName(Value(), index, up, stack, i, kcb, found.value);
          return;
        }
        i := i - 1;
      }
      forall k ensures !CachedChild(Value(), up, stack, kcb, k) {
        if stack == [] {
          NoNames(Value(), up, kcb, k);
        } else {
          OnlyFirstName(Value(), index, up, stack, 0, kcb, k);
        }
      }
    }

    /** The base KCB is dereferenced; a child keeps it. */
    method LeaveBase(kcb: Id, ghost k: Id, alloc: nat -> bool)
      requires Valid() && k in kcbs && kcbs[k].parent == Some(kcb) && handles[kcb] > 0
      modifies this
      ensures Valid() && hold == old(hold) && handles == old(handles) - multiset{kcb}
      ensures kcb in kcbs && Raised(Value(), kcb) == old(Value())
      ensures Reaches(old(Value()), Value(), index, hash)
    {
      hide Inv, InvBut, NoDup, CleanUp, Closes, Deferral, Reaches;
      ghost var before := Value();
      ChildKeeps(before, index, kcb, k);
      Dereference(kcb, false, alloc);
      assert Raised(Value(), kcb) == before;
    }

    /** The handle moves from the base KCB to the one that was found, unless that has too many. */
    method MoveHandle(kcb: Id, k: Id, alloc: nat -> bool) returns (ok: bool)
      requires Valid() && k in kcbs && kcbs[k].parent == Some(kcb) && handles[kcb] > 0
      modifies this
      ensures Valid() && hold == old(hold)
      ensures ok <==> old(kcbs[k].refs) < MaxRefs
      ensures handles == if ok then old(handles) + multiset{k} - multiset{kcb} else old(handles) - multiset{kcb}
      ensures kcb in kcbs && Raised(Value(), kcb) == if ok then Revived(old(Value()), k) else old(Value())
      ensures Reaches(old(Value()), Value(), index, hash)
    {
      hide Inv, InvBut, NoDup, Raised, Revived, Reaches;
      ok := Reference(k);
      ghost var before := Value();
      LeaveBase(kcb, k, alloc);
      ReachesOn(old(Value()), before, Value(), index, hash);
    }

    /** What CmpLookInCache does with the KCB that it has found. */
    method UseHit(stack: seq<Entry>, exclusive: bool, path: string, kcb: Id, k: Id, i: nat, alloc: nat -> bool)
      returns (status: Status, r: Id, rest: string, matched: nat)
      requires Valid() && kcb in kcbs && handles[kcb] > 0 && k in kcbs && !kcbs[k].delete && kcbs[k].parent == Some(kcb)
      requires i < |stack| && StackFor(stack, path)
      modifies this
      ensures Valid() && hold == old(hold)
      ensures Used(old(kcbs[kcb].delete), old(kcbs[k].refs), exclusive, path, kcb, k, i, status, r, rest, matched)
      ensures handles == old(handles) - multiset{kcb} + (if status == Success then multiset{r} else multiset{})
      ensures status != Success ==> kcb in kcbs && Raised(Value(), kcb) == old(Value())
      ensures status == Success && matched > 0 ==> r == k && kcb in kcbs && Raised(Value(), kcb) == Revived(old(Value()), k)
      ensures Reaches(old(Value()), Value(), index, hash)
    {
      hide Inv, InvBut, NoDup, Deref, Names, Raised, Thinned, Reaches;
      StackFits(stack, path);
      r, rest, matched := kcb, path, 0;
      if kcbs[kcb].delete {
        if exclusive {
          Expunge(k, alloc);
          return Success, r, rest, matched;
        }
        LeaveBase(kcb, k, alloc);
        return Retry, r, rest, matched;
      }
      rest := RemoveSubkeys(stack, i, path);
      var ok := MoveHandle(kcb, k, alloc);
      if ok {
        return Success, k, rest, i + 1;
      }
      return Unsuccessful, r, rest, i + 1;
    }

    /**
      CmpLookInCache: on a hit the handle is on the KCB that was found and `rest` is the rest
      of the path; on a miss it is on the base KCB, and the path is as it was.
    */
    method LookInCache(up: char -> char, stack: seq<Entry>, exclusive: bool, path: string, kcb: Id, alloc: nat -> bool)
      returns (status: Status, r: Id, rest: string, matched: nat)
      requires Valid() && kcb in kcbs
      requires StackFor(stack, path)
      modifies this
      ensures Valid() && hold == old(hold)
      ensures handles == if status == Success then old(handles) + multiset{r} else old(handles)
      ensures Looked(old(Value()), up, stack, exclusive, path, kcb, status, r, rest, matched)
      ensures status != Success ==> Value() == old(Value())
      ensures status == Success && (matched > 0 || forall k :: !CachedChild(old(Value()), up, stack, kcb, k)) ==>
                r in old(kcbs) && Value() == Revived(old(Value()), r)
      ensures Reaches(old(Value()), Value(), index, hash)
    {
      hide Inv, InvBut, NoDup, CachedChild, Names, Revived, Reaches, StackFor, Looked, Used;
      ghost var was := Value();
      r, rest, matched := kcb, path, 0;
      RefsKnown(was, index, kcb);
      var ok := Reference(kcb);
      if !ok {
        LookedFull(was, up, stack, exclusive, path, kcb);
        return Unsuccessful, r, rest, matched;
      }
      ghost var before := Value();
      var found, i := SearchCache(up, stack, kcb);
      assert Value() == before;
      if found.None? {
        LookedMiss(was, before, up, stack, exclusive, path, kcb);
        return Success, r, rest, matched;
      }
      CachedSame(was, before, up, stack, kcb, found.value);
      CachedKnown(was, index, up, stack, kcb, found.value);
      assert was.handles + multiset{kcb} - multiset{kcb} == was.handles;
      status, r, rest, matched := UseHit(stack, exclusive, path, kcb, found.value, i, alloc);
      LookedHit(was, up, stack, exclusive, path, kcb, found.value, status, r, rest, matched);
      if status != Success || matched > 0 {
        MovedHandle(was, index, before, Value(), kcb, found.value, status == Success);
      }
      ReachesOn(was, before, Value(), index, hash);
    }

    /**
      CmpQueryNameInformation for a caller's buffer of `length` bytes, of which the first four
      hold the length of the name: the path is written from its end to its front.
    */
    method QueryName(k: Id, buffer: array<char>, length: nat) returns (status: QueryStatus, resultLength: nat, nameLength: nat)
      requires Valid() && k in kcbs && length <= 4 + 2 * buffer.Length
      modifies buffer
      ensures var path := Printed(PathOf(Value(), Some(k)));
              && resultLength == 4 + 2 * |path|
              && (status == TooSmall <==> length < 4)
              && (status == Overflow <==> 4 <= length < resultLength)
              && (status != TooSmall ==> nameLength == 2 * |path|)
              && (status == Done ==> |path| <= buffer.Length && buffer[..|path|] == path && buffer[|path|..] == old(buffer[|path|..]))
      ensures status != Done ==> buffer[..] == old(buffer[..])
    {
      hide Inv, InvBut, PathOf, Printed;
      ghost var names := PathOf(Value(), Some(k));
      var needed := 0;
      var cur: Option<Id> := Some(k);
      while cur.Some?
        invariant cur.Some? ==> cur.value in kcbs
        invariant needed + |Printed(PathOf(Value(), cur))| == |Printed(names)|
        modifies {}
        decreases if cur.Some? then 1 + kcbs[cur.value].levels else 0
      {
        PathStep(Value(), index, cur.value);
        needed := needed + |kcbs[cur.value].name| + 1;
        cur := kcbs[cur.value].parent;
      }
      PathEnd(Value());
      resultLength, nameLength := 4 + 2 * needed, 0;
      if length < 4 {
        return TooSmall, resultLength, nameLength;
      }
      if length < resultLength {
        return Overflow, resultLength, 2 * needed;
      }
      nameLength := FillName(k, buffer, needed);
      return Done, resultLength, nameLength;
    }

    /** The second pass, which copies the names. */
    method FillName(k: Id, buffer: array<char>, size: nat) returns (nameLength: nat)
      requires Valid() && k in kcbs && size == |Printed(PathOf(Value(), Some(k)))| <= buffer.Length
      modifies buffer
      ensures nameLength == 2 * size
      ensures buffer[..size] == Printed(PathOf(Value(), Some(k))) && buffer[size..] == old(buffer[size..])
    {
      hide Inv, InvBut, PathOf, Printed, Filled;
      ghost var path, init := Printed(PathOf(Value(), Some(k))), buffer[..];
      var cur: Option<Id> := Some(k);
      var at := size;
      nameLength := 0;
      FillStart(init, path);
      while cur.Some?
        invariant cur.Some? ==> cur.value in kcbs
        invariant 0 <= at <= size && path[..at] == Printed(PathOf(Value(), cur)) && nameLength == 2 * (size - at)
        invariant buffer[..] == Filled(init, path, at)
        decreases if cur.Some? then 1 + kcbs[cur.value].levels else 0
      {
        PathStep(Value(), index, cur.value);
        var name := kcbs[cur.value].name;
        FillStep(init, path, at, Printed(PathOf(Value(), kcbs[cur.value].parent)), name);
        PutName(buffer, at, name);
        at := at - |name| - 1;
        nameLength := nameLength + 2 * |name| + 2;
        cur := kcbs[cur.value].parent;
      }
      PathEnd(Value());
      FillEnd(init, path);
    }

    /** One name with the separator before it, put in front of position `at`. */
    method PutName(buffer: array<char>, at: nat, name: string)
      requires |name| < at <= buffer.Length
      modifies buffer
      ensures buffer[..] == old(buffer[..at - |name| - 1]) + [SEP] + name + old(buffer[at..])
    {
      forall i | 0 <= i < |name| {
        buffer[at - |name| + i] := name[i];
      }
      buffer[at - |name| - 1] := SEP;
    }

    /** The key is deleted or its hive unloaded: the KCB leaves its chain for good. */
    method MarkDeleted(k: Id)
      requires Valid() && k in kcbs && !kcbs[k].delete
      modifies this`kcbs, this`chains
      ensures Valid() && Value() == Deleted(old(Value()), index, k)
      ensures Reaches(old(Value()), Value(), index, hash)
    {
      hide Inv, InvBut, NoDup, Without, Reaches;
      ghost var was := Value();
      Hashed(was, index, k);
      DeletedInv(was, index, k);
      RemoveKeyHash(k);
      kcbs := kcbs[k := kcbs[k].(delete := true)];
      assert Value() == Deleted(was, index, k);
      ReachesStep(was, Delete(k), Value(), index, hash);
    }

    /** One put-off dereference is carried out. */
    method DereferenceFirst(alloc: nat -> bool)
      requires Valid() && deferred != []
      modifies this
      ensures Valid() && handles == old(handles) && hold == old(hold)
      ensures Inv(TakenUp(old(Value())), index) && Value() == Deref(TakenUp(old(Value())), index, old(deferred[0]), false, hold, alloc)
      ensures Thinned(old(Value()), Value()) && Load(Value(), deferred) < old(Load(Value(), deferred))
      ensures Reaches(old(Value()), Value(), index, hash)
    {
      hide Inv, InvBut, Deref, Closes, Deferral, Load, Reaches;
      ghost var was := Value();
      var k := deferred[0];
      LoadFalls(was, index, hold, alloc);
      DerefFrees(TakenUp(was), index, k, false, hold, alloc);
      deferred := deferred[1..];
      handles := handles + multiset{k};
      assert Value() == TakenUp(was);
      Dereference(k, false, alloc);
      ReachesCarriedOut(was, hold, alloc, index, hash);
    }

    /** CmpDelayDerefKCBWorker; `allocs` tells for each turn which delay items can be had. */
    method DelayDerefWorker(allocs: nat -> nat -> bool)
      requires Valid()
      modifies this
      ensures Valid() && deferred == [] && handles == old(handles) && hold == old(hold)
      ensures Value() == CarriedOutAll(old(Value()), index, hold, allocs, 0)
      ensures Thinned(old(Value()), Value()) && Reaches(old(Value()), Value(), index, hash)
    {
      hide Inv, InvBut, Load, Deref, Thinned, Reaches;
      ReachesSelf(Value(), index, hash);
      ThinnedSelf(Value());
      var turn: nat := 0;
      while deferred != []
        invariant Valid() && handles == old(handles) && hold == old(hold) && Thinned(old(Value()), Value())
        invariant Reaches(old(Value()), Value(), index, hash)
        invariant CarriedOutAll(Value(), index, hold, allocs, turn) == CarriedOutAll(old(Value()), index, hold, allocs, 0)
        decreases Load(Value(), deferred)
      {
        ghost var before := Value();
        DereferenceFirst(allocs(turn));
        ReachesOn(old(Value()), before, Value(), index, hash);
        ThinnedOn(old(Value()), before, Value());
        turn := turn + 1;
      }
    }

    /** One turn of CmpDelayCloseWorker after it has got the KCB lock for `conv`. */
    method CloseTail(conv: nat, alloc: nat -> bool) returns (closed: bool)
      requires Valid()
      modifies this
      ensures Valid() && handles == old(handles) && hold == old(hold)
      ensures closed <==> old(|lru|) > closeSize && old(kcbs[lru[|lru| - 1]].key.conv) == conv
      ensures if closed then lru == old(lru[..|lru| - 1]) && old(lru[|lru| - 1]) !in kcbs else Value() == old(Value())
      ensures Thinned(old(Value()), Value()) && Reaches(old(Value()), Value(), index, hash)
    {
      hide Inv, InvBut, NoDup, Closes, CleanUp, Reaches;
      ghost var was := Value();
      ReachesSelf(was, index, hash);
      ListKnown(was, index);
      if elements <= closeSize {
        return false;
      }
      var k := lru[|lru| - 1];
      if kcbs[k].key.conv != conv {
        return false;
      }
      UnlistedTail(was, index);
      // a KCB on the list has no reference, so it never goes back to the head
      lru := lru[..|lru| - 1];
      elements := elements - 1;
      TailUndelayed(was, index);
      CleanUpFrees(Value(), index, k, false, hold, alloc);
      CleanUpKcb(k, false, alloc);
      ReachesClosed(was, k, hold, alloc, index, hash);
      return true;
    }

    /** CmpDelayCloseWorker: the oldest KCBs go first, a quarter of the limit at most. */
    method DelayCloseWorker(allocs: nat -> nat -> bool)
      requires Valid()
      modifies this
      ensures Valid() && handles == old(handles)
      ensures var excess := old(|lru|) - closeSize;
              |lru| == old(|lru|) - (if excess <= 0 then 0 else if excess < closeSize / 4 then excess else closeSize / 4)
      ensures lru == old(lru)[..|lru|]
      ensures Reaches(old(Value()), Value(), index, hash)
    {
      hide Inv, InvBut, NoDup, Thinned, Reaches;
      ReachesSelf(Value(), index, hash);
      var i := 0;
      ListKnown(Value(), index);
      while i < closeSize / 4
        invariant Valid() && handles == old(handles) && 0 <= i <= closeSize / 4 && elements == |lru|
        invariant |lru| == old(|lru|) - i && (i > 0 ==> |lru| >= closeSize) && lru == old(lru)[..|lru|]
        invariant Reaches(old(Value()), Value(), index, hash)
      {
        ghost var before := Value();
        ListKnown(Value(), index);
        if elements <= closeSize {
          break;
        }
        var conv := kcbs[lru[|lru| - 1]].key.conv;
        var closed := CloseTail(conv, allocs(i));
        ReachesOn(old(Value()), before, Value(), index, hash);
        ListKnown(Value(), index);
        i := i + 1;
      }
    }
  }

  /**
    What CmpLookInCache makes of the cache `c`: a hit is a cached child for the first name and
    leaves the other names; a miss means that there is none, or that the base KCB is deleted.
  */
  ghost predicate Looked(c: Cache, up: char -> char, stack: seq<Entry>, exclusive: bool, path: string, kcb: Id,
                         status: Status, r: Id, rest: string, matched: nat)
    requires kcb in c.kcbs
  {
    match status
    case Success =>
      if matched > 0 then
        && matched == 1 && !c.kcbs[kcb].delete && CachedChild(c, up, stack, kcb, r)
        && Names(path) != [] && Names(rest) == Names(path)[1..]
      else
        r == kcb && rest == path && (c.kcbs[kcb].delete || forall k :: !CachedChild(c, up, stack, kcb, k))
    case Retry =>
      && r == kcb && rest == path && !exclusive && c.kcbs[kcb].delete
      && exists k :: CachedChild(c, up, stack, kcb, k)
    case Unsuccessful =>
      && r == kcb
      && ((c.kcbs[kcb].refs == MaxRefs && rest == path)
          || (Names(path) != [] && Names(rest) == Names(path)[1..] &&
              exists k :: CachedChild(c, up, stack, kcb, k) && k in c.kcbs && c.kcbs[k].refs == MaxRefs))
  }

  /** What UseHit makes of a KCB that the search has found at stack index `i`. */
  ghost predicate Used(deleted: bool, refs: nat, exclusive: bool, path: string, kcb: Id, k: Id, i: nat,
                       status: Status, r: Id, rest: string, matched: nat) {
    if deleted then
      status == (if exclusive then Success else Retry) && r == kcb && rest == path && matched == 0
    else
      && status == (if refs < MaxRefs then Success else Unsuccessful)
      && r == (if status == Success then k else kcb)
      && matched == i + 1 && i < |Names(path)| && Names(rest) == Names(path)[i + 1..]
  }

  lemma {:induction false} LookedFull(c: Cache, up: char -> char, stack: seq<Entry>, exclusive: bool, path: string, kcb: Id)
    requires kcb in c.kcbs && c.kcbs[kcb].refs == MaxRefs
    ensures Looked(c, up, stack, exclusive, path, kcb, Unsuccessful, kcb, path, 0)
  {
  }

  lemma {:induction false} LookedMiss(c: Cache, d: Cache, up: char -> char, stack: seq<Entry>, exclusive: bool, path: string, kcb: Id)
    requires kcb in c.kcbs && kcb in d.kcbs && d.kcbs == c.kcbs[kcb := c.kcbs[kcb].(refs := d.kcbs[kcb].refs)]
    requires forall k :: !CachedChild(d, up, stack, kcb, k)
    ensures Looked(c, up, stack, exclusive, path, kcb, Success, kcb, path, 0)
  {
    hide CachedChild, Names;
    forall k ensures !CachedChild(c, up, stack, kcb, k) {
      CachedSame(c, d, up, stack, kcb, k);
    }
  }

  /** What UseHit gives for a child that the search has found. */
  lemma {:induction false} LookedHit(c: Cache, up: char -> char, stack: seq<Entry>, exclusive: bool, path: string, kcb: Id, k: Id,
                                     status: Status, r: Id, rest: string, matched: nat)
    requires kcb in c.kcbs && k in c.kcbs && CachedChild(c, up, stack, kcb, k) && c.kcbs[k].refs <= MaxRefs
    requires Used(c.kcbs[kcb].delete, c.kcbs[k].refs, exclusive, path, kcb, k, 0, status, r, rest, matched)
    ensures Looked(c, up, stack, exclusive, path, kcb, status, r, rest, matched)
  {
    hide CachedChild, Names;
  }

  ghost predicate MayAdd(c: Cache, id: Id, key: Key) {
    id !in c.kcbs && forall k :: k in c.kcbs && !c.kcbs[k].delete ==> c.kcbs[k].key != key
  }

  ghost predicate ParentFits(c: Cache, parent: Option<Id>) {
    parent.Some? ==> parent.value in c.kcbs && c.kcbs[parent.value].levels + 1 < MaxLevels && c.kcbs[parent.value].refs < MaxRefs
  }

  /**
    What CmpCreateKeyControlBlock makes of the cache `c`: a KCB that stands for the key is
    referenced, or else one is made below the parent, or nothing changes.
  */
  ghost predicate CreateOutcome(c: Cache, d: Cache, index: nat -> nat, id: Id, key: Key, name: string, parent: Option<Id>,
                                gotKcb: bool, gotName: bool, frozen: bool, r: Option<Id>) {
    && (r.None? ==> SameBut(c, d))
    && (r.Some? ==> d.handles == c.handles + multiset{r.value})
    && (forall k :: k in c.kcbs && !c.kcbs[k].delete && c.kcbs[k].key == key ==>
          if gotKcb && c.kcbs[k].refs < MaxRefs then r == Some(k) && d == Reused(c, k, frozen) else r == None)
    && (MayAdd(c, id, key) ==>
          if gotKcb && gotName && ParentFits(c, parent)
          then r == Some(id) && d == Created(c, index, id, key, name, parent, frozen)
          else r == None)
  }

  /** A new root key for which no name block can be had: the code drops a reference on no KCB at all. */
  ghost predicate Faults(c: Cache, id: Id, key: Key, parent: Option<Id>, gotKcb: bool, gotName: bool) {
    parent.None? && gotKcb && !gotName && MayAdd(c, id, key)
  }

  /** The first key of all, when there is memory for its KCB and none for its name. */
  lemma {:induction false} FirstRootFaults(id: Id, key: Key)
    ensures Faults(Empty, id, key, None, true, false)
  {
  }

  lemma {:induction false} RootFits(c: Cache)
    ensures ParentFits(c, None)
  {
  }

  lemma {:induction false} NotNew(c: Cache, id: Id, key: Key, k: Id)
    requires k in c.kcbs && !c.kcbs[k].delete && c.kcbs[k].key == key
    ensures !MayAdd(c, id, key)
  {
  }

  // ----- the operations as runs -----

  lemma {:induction false} ReachesReused(c: Cache, k: Id, frozen: bool, index: nat -> nat, hash: Hash)
    requires k in c.kcbs && c.kcbs[k].refs < MaxRefs
    ensures Reaches(c, Reused(c, k, frozen), index, hash)
  {
    hide Inv, Reaches;
    ReachesStep(c, Refer(k, frozen), Reused(c, k, frozen), index, hash);
  }

  lemma {:induction false} ReachesDropped(c: Cache, k: Id, locked: bool, hold: bool, alloc: nat -> bool, index: nat -> nat, hash: Hash)
    requires Inv(c, index) && c.handles[k] > 0
    ensures Reaches(c, Deref(c, index, k, locked, hold, alloc), index, hash)
  {
    hide Inv, Reaches, Deref;
    ReachesStep(c, Drop(k, locked, hold, alloc), Deref(c, index, k, locked, hold, alloc), index, hash);
  }

  lemma {:induction false} ReachesCarriedOut(c: Cache, hold: bool, alloc: nat -> bool, index: nat -> nat, hash: Hash)
    requires Inv(c, index) && c.deferred != []
    ensures Inv(TakenUp(c), index)
    ensures Reaches(c, Deref(TakenUp(c), index, c.deferred[0], false, hold, alloc), index, hash)
  {
    hide Inv, Reaches, Deref;
    TakenUpInv(c, index);
    ReachesStep(c, CarryOut(hold, alloc), Deref(TakenUp(c), index, c.deferred[0], false, hold, alloc), index, hash);
  }

  lemma {:induction false} ReachesClosed(c: Cache, k: Id, hold: bool, alloc: nat -> bool, index: nat -> nat, hash: Hash)
    requires Inv(c, index) && k in c.kcbs && c.kcbs[k].refs == 0
    ensures InvBut(Undelayed(c, k), index, Some(k))
    ensures Reaches(c, CleanUp(Undelayed(c, k), index, k, false, hold, alloc), index, hash)
  {
    hide Inv, InvBut, Reaches, CleanUp, NoDup;
    UndelayedInv(c, index, k);
    RefsKnown(c, index, k);
    ReachesStep(c, Close(k, hold, alloc), CleanUp(Undelayed(c, k), index, k, false, hold, alloc), index, hash);
  }

  lemma {:induction false} ReachesBack(c: Cache, d: Cache, index: nat -> nat, hash: Hash)
    requires SameBut(c, d)
    ensures Reaches(c, d, index, hash)
  {
    hide Inv, Reaches;
    assert d == c.(chains := d.chains);
    ReachesStep(c, TakeBack(d.chains), d, index, hash);
  }

  lemma {:induction false} ReachesCreated(c: Cache, id: Id, key: Key, name: string, parent: Option<Id>, frozen: bool, index: nat -> nat, hash: Hash)
    requires Inv(c, index) && MayAdd(c, id, key) && ParentFits(c, parent)
    requires parent.Some? ==> parent.value in c.kcbs && c.handles[parent.value] > 0
    requires key == KeyFor(c, hash, key.hive, key.cell, name, parent)
    ensures Reaches(c, Created(c, index, id, key, name, parent, frozen), index, hash)
  {
    hide Inv, Reaches, Created, KeyFor;
    if parent.Some? {
      HandleKnown(c, index, parent.value);
    }
    ReachesStep(c, Create(id, key.hive, key.cell, name, parent, frozen), Created(c, index, id, key, name, parent, frozen), index, hash);
  }

  /** Taking the tail off the list is taking that KCB off the list. */
  lemma {:induction false} TailUndelayed(c: Cache, index: nat -> nat)
    requires Inv(c, index) && c.lru != []
    ensures Undelayed(c, c.lru[|c.lru| - 1]) == c.(lru := c.lru[..|c.lru| - 1], elements := c.elements - 1)
  {
    hide RefInv, LevelInv, ChainInv, NoDup;
    var n := |c.lru| - 1;
    WithoutAt(c.lru, n);
    assert c.lru[n + 1..] == [] && c.lru[..n] + [] == c.lru[..n];
  }

  lemma {:induction false} SameSelf(c: Cache)
    ensures SameBut(c, c)
  {
  }

  lemma {:induction false} OutcomeNone(c: Cache, d: Cache, index: nat -> nat, id: Id, key: Key, name: string, parent: Option<Id>,
                                       gotKcb: bool, gotName: bool, frozen: bool)
    requires SameBut(c, d) && (gotKcb ==> MayAdd(c, id, key) && !(gotName && ParentFits(c, parent)))
    ensures CreateOutcome(c, d, index, id, key, name, parent, gotKcb, gotName, frozen, None)
  {
    hide SameBut, Created;
  }

  lemma {:induction false} OutcomeFull(c: Cache, index: nat -> nat, id: Id, key: Key, name: string, parent: Option<Id>,
                                       gotName: bool, frozen: bool, k: Id)
    requires Inv(c, index) && k in c.kcbs && !c.kcbs[k].delete && c.kcbs[k].key == key && c.kcbs[k].refs == MaxRefs
    ensures CreateOutcome(c, c, index, id, key, name, parent, true, gotName, frozen, None)
  {
    hide Inv, Created;
    OneOfKey(c, index, key);
  }

  lemma {:induction false} OutcomeAdded(c: Cache, index: nat -> nat, id: Id, key: Key, name: string, parent: Option<Id>, frozen: bool)
    requires MayAdd(c, id, key) && ParentFits(c, parent)
    ensures CreateOutcome(c, Created(c, index, id, key, name, parent, frozen), index, id, key, name, parent, true, true, frozen, Some(id))
  {
  }

  lemma {:induction false} OutcomeFound(c: Cache, index: nat -> nat, id: Id, key: Key, name: string, parent: Option<Id>,
                                        gotName: bool, frozen: bool, k: Id)
    requires Inv(c, index) && k in c.kcbs && !c.kcbs[k].delete && c.kcbs[k].key == key && c.kcbs[k].refs < MaxRefs
    ensures CreateOutcome(c, Reused(c, k, frozen), index, id, key, name, parent, true, gotName, frozen, Some(k))
  {
    hide Inv, SameBut, Created;
    OneOfKey(c, index, key);
  }

  lemma {:induction false} AddedFresh(c: Cache, id: Id, key: Key)
    requires MayAdd(c, id, key)
    ensures id !in c.kcbs
  {
  }

  lemma {:induction false} OneOfKey(c: Cache, index: nat -> nat, key: Key)
    requires Inv(c, index)
    ensures forall a, b :: a in c.kcbs && b in c.kcbs && !c.kcbs[a].delete && !c.kcbs[b].delete && c.kcbs[a].key == key && c.kcbs[b].key == key ==> a == b
  {
    hide NoDup, RefInv, LevelInv;
  }

  lemma {:induction false} IsCreated(c: Cache, index: nat -> nat, id: Id, key: Key, name: string, d: Cache)
    requires d.chains == c.chains[index(key.conv) := [id] + ChainOf(c, index(key.conv))]
    requires d == c.(kcbs := c.kcbs[id := Kcb(key, name, None, 1, 1, false, false)], handles := c.handles + multiset{id}, chains := d.chains)
    ensures d == Created(c, index, id, key, name, None, false)
  {
  }

  lemma {:induction false} CreatedKnown(c: Cache, index: nat -> nat, id: Id, key: Key, name: string, parent: Option<Id>)
    requires parent.Some? ==> parent.value in c.kcbs
    ensures var d := Created(c, index, id, key, name, parent, false);
            && id in d.kcbs && d.handles == c.handles + multiset{id}
            && d.(kcbs := d.kcbs[id := d.kcbs[id].(noDelay := true)]) == Created(c, index, id, key, name, parent, true)
  {
    var d := Created(c, index, id, key, name, parent, false);
    assert d.kcbs[id := d.kcbs[id].(noDelay := true)] == Created(c, index, id, key, name, parent, true).kcbs;
  }

  lemma {:induction false} NewChain(c: Cache, index: nat -> nat, id: Id, key: Key)
    requires Inv(c, index) && id !in c.kcbs
    ensures var chain := ChainOf(c, index(key.conv));
            id !in chain && NoDup([id] + chain) && Without([id] + chain, id) == chain
  {
    hide RefInv, LevelInv, NoDup;
    var i := index(key.conv);
    var chain := ChainOf(c, i);
    assert !InChain(c, index, i, id);
    NoDupEmpty();
    NoDupAppend(chain, id);
    WithoutAbsent(chain, id);
    assert ([id] + chain)[1..] == chain;
  }

  /** A KCB that is made and then taken out of its chain and freed leaves nothing behind. */
  lemma {:induction false} TakenBack(c: Cache, index: nat -> nat, id: Id, key: Key, name: string)
    requires Inv(c, index) && id !in c.kcbs
    ensures var d := Unhashed(Created(c, index, id, key, name, None, false), index, id);
            SameBut(c, d.(kcbs := d.kcbs - {id}, handles := d.handles - multiset{id}))
  {
    hide Inv, NoDup, Without;
    NewChain(c, index, id, key);
    var d := Unhashed(Created(c, index, id, key, name, None, false), index, id);
    assert d.kcbs - {id} == c.kcbs && d.handles - multiset{id} == c.handles;
  }

  lemma {:induction false} StillThere(c: Cache, index: nat -> nat, id: Id, key: Key, name: string, p: Id)
    requires p in c.kcbs && id !in c.kcbs
    ensures var d := Created(c, index, id, key, name, None, false); p in d.kcbs && d.kcbs[p] == c.kcbs[p] && id in d.kcbs && p != id && d.handles[p] == c.handles[p]
  {
  }

  /** Linking the new KCB to a parent that has just been referenced. */
  lemma {:induction false} LinkedIs(c: Cache, index: nat -> nat, id: Id, key: Key, name: string, p: Id)
    requires p in c.kcbs && id !in c.kcbs
    ensures var d := Created(c, index, id, key, name, None, false);
            && p in d.kcbs && p in Raised(d, p).kcbs
            && var r := Raised(d, p);
               r.(kcbs := r.kcbs[id := Kcb(key, name, Some(p), r.kcbs[p].levels + 1, 1, false, false)], handles := r.handles - multiset{p})
               == Created(c, index, id, key, name, Some(p), false)
  {
    var r := Raised(Created(c, index, id, key, name, None, false), p);
    assert r.kcbs[id := Kcb(key, name, Some(p), r.kcbs[p].levels + 1, 1, false, false)] == Created(c, index, id, key, name, Some(p), false).kcbs;
    assert r.handles - multiset{p} == Created(c, index, id, key, name, Some(p), false).handles;
  }

  lemma {:induction false} RaisedKnown(c: Cache, p: Id)
    requires p in c.kcbs
    ensures var r := Raised(c, p); p in r.kcbs && r.kcbs[p].refs == c.kcbs[p].refs + 1 && Dropped(r, p) == c && r.handles[p] > 0
  {
    var r := Raised(c, p);
    assert Dropped(r, p).kcbs == c.kcbs && Dropped(r, p).handles == c.handles;
  }

  lemma {:induction false} DerefMany(c: Cache, index: nat -> nat, k: Id, locked: bool, hold: bool, alloc: nat -> bool)
    requires Inv(c, index) && c.handles[k] > 0 && k in c.kcbs && c.kcbs[k].refs > 1
    ensures Deref(c, index, k, locked, hold, alloc) == Dropped(c, k)
  {
    hide Inv, InvBut, Closes, Thinned;
  }

  lemma {:induction false} NewRoot(c: Cache, index: nat -> nat, id: Id, key: Key, name: string)
    requires Inv(c, index) && MayAdd(c, id, key)
    ensures Inv(Created(c, index, id, key, name, None, false), index)
  {
    hide InvBut;
    CreatedInv(c, index, id, key, name, None, false);
  }

  lemma {:induction false} HandleKnown(c: Cache, index: nat -> nat, p: Id)
    requires Inv(c, index) && c.handles[p] > 0
    ensures p in c.kcbs && c.handles[p] <= c.kcbs[p].refs <= MaxRefs
  {
    assert RefInv(c, p);
  }

  /** A KCB with a handle does not wait to be closed. */
  lemma {:induction false} HandleRevived(c: Cache, index: nat -> nat, p: Id)
    requires Inv(c, index) && c.handles[p] > 0
    ensures p in c.kcbs && Revived(c, p) == Raised(c, p)
  {
    HandleKnown(c, index, p);
  }

  lemma {:induction false} Hashed(c: Cache, index: nat -> nat, k: Id)
    requires Inv(c, index) && k in c.kcbs && !c.kcbs[k].delete
    ensures k in ChainOf(c, index(c.kcbs[k].key.conv)) && NoDup(ChainOf(c, index(c.kcbs[k].key.conv)))
  {
    hide RefInv, DelayInv, NoDup;
    assert InChain(c, index, index(c.kcbs[k].key.conv), k);
  }

  lemma {:induction false} PathStep(c: Cache, index: nat -> nat, k: Id)
    requires Inv(c, index) && k in c.kcbs
    ensures var x := c.kcbs[k];
            && (x.parent.Some? ==> x.parent.value in c.kcbs && c.kcbs[x.parent.value].levels < x.levels)
            && Printed(PathOf(c, Some(k))) == Printed(PathOf(c, x.parent)) + [SEP] + x.name
  {
    hide RefInv, ChainInv, DelayInv, Printed;
    assert LevelInv(c, k);
    var x := c.kcbs[k];
    PrintedSnoc(PathOf(c, x.parent), x.name);
    assert [] + [x.name] == [x.name];
  }

  /** The buffer with the path from position `at` on in place. */
  ghost function Filled(init: string, path: string, at: nat): string
    requires at <= |path| <= |init|
  {
    init[..at] + path[at..] + init[|path|..]
  }

  lemma {:induction false} FillStart(init: string, path: string)
    requires |path| <= |init|
    ensures Filled(init, path, |path|) == init
  {
  }

  lemma {:induction false} FillStep(init: string, path: string, at: nat, above: string, name: string)
    requires at <= |path| <= |init| && path[..at] == above + [SEP] + name
    ensures |name| < at && path[..at - |name| - 1] == above
    ensures var b := Filled(init, path, at);
            |b| == |init| && Filled(init, path, at - |name| - 1) == b[..at - |name| - 1] + [SEP] + name + b[at..]
  {
    var b, i := Filled(init, path, at), at - |name| - 1;
    assert path[i..at] == [SEP] + name by { assert path[..at][i..] == path[i..at]; }
    assert path[i..] == path[i..at] + path[at..];
    assert b[..i] == init[..i] && b[at..] == path[at..] + init[|path|..];
  }

  lemma {:induction false} FillEnd(init: string, path: string)
    requires |path| <= |init|
    ensures Filled(init, path, 0)[..|path|] == path && Filled(init, path, 0)[|path|..] == init[|path|..]
  {
  }

  lemma {:induction false} PathEnd(c: Cache)
    ensures Printed(PathOf(c, None)) == []
  {
  }

  /** What CmpQueryNameInformation prints, the parse routine splits into the same names. */
  lemma {:induction false} QueryParse(c: Cache, k: Id)
    requires forall i :: 0 <= i < |PathOf(c, Some(k))| ==> IsName(PathOf(c, Some(k))[i])
    ensures Names(Printed(PathOf(c, Some(k)))) == PathOf(c, Some(k))
    ensures k in c.kcbs ==> !Blank(Printed(PathOf(c, Some(k))))
  {
    hide IsName, Names, Printed;
    PrintParse(PathOf(c, Some(k)));
  }

  lemma {:induction false} NoNames(c: Cache, up: char -> char, kcb: Id, k: Id)
    ensures !CachedChild(c, up, [], kcb, k)
  {
  }

  lemma {:induction false} CachedSame(c: Cache, d: Cache, up: char -> char, stack: seq<Entry>, kcb: Id, k: Id)
    requires kcb in c.kcbs && kcb in d.kcbs && d.kcbs == c.kcbs[kcb := c.kcbs[kcb].(refs := d.kcbs[kcb].refs)]
    ensures CachedChild(d, up, stack, kcb, k) <==> CachedChild(c, up, stack, kcb, k)
  {
  }

  /** A KCB with a child in the cache and a handle has at least two references. */
  lemma {:induction false} ChildKeeps(c: Cache, index: nat -> nat, kcb: Id, k: Id)
    requires Inv(c, index) && k in c.kcbs && c.kcbs[k].parent == Some(kcb)
    ensures kcb in c.kcbs && k != kcb && c.kcbs[kcb].refs >= 1 + c.handles[kcb]
  {
    hide ChainInv, DelayInv;
    assert RefInv(c, kcb) && LevelInv(c, k);
    assert k in Children(c, kcb);
  }

  /** A handle on the base KCB that has come and gone leaves no trace: its child keeps it. */
  lemma {:induction false} MovedHandle(c: Cache, index: nat -> nat, b: Cache, d: Cache, kcb: Id, k: Id, ok: bool)
    requires Inv(c, index) && k in c.kcbs && c.kcbs[k].parent == Some(kcb) && kcb in c.kcbs && kcb in d.kcbs
    requires b == Revived(c, kcb) && k in b.kcbs && Raised(d, kcb) == if ok then Revived(b, k) else b
    ensures d == if ok then Revived(c, k) else c
  {
    hide Inv, Raised;
    ChildKeeps(c, index, kcb, k);
    if ok {
      RevivedRaised(c, kcb, k);
      SameRaised(d, Revived(c, k), kcb);
    } else {
      SameRaised(d, c, kcb);
    }
  }

  lemma {:induction false} RevivedRaised(c: Cache, kcb: Id, k: Id)
    requires k in c.kcbs && kcb in c.kcbs && k != kcb
    ensures kcb in Revived(c, k).kcbs && k in Raised(c, kcb).kcbs && Revived(Raised(c, kcb), k) == Raised(Revived(c, k), kcb)
  {
    hide Without;
    assert Raised(c, kcb).kcbs[k] == c.kcbs[k];
    RaisedTwice(c, kcb, k);
  }

  lemma {:induction false} RaisedTwice(c: Cache, a: Id, b: Id)
    requires a in c.kcbs && b in c.kcbs && a != b
    ensures Raised(Raised(c, a), b) == Raised(Raised(c, b), a)
  {
    assert c.handles + multiset{a} + multiset{b} == c.handles + multiset{b} + multiset{a};
    assert Raised(Raised(c, a), b).kcbs == Raised(Raised(c, b), a).kcbs;
  }

  lemma {:induction false} SameRaised(d: Cache, e: Cache, k: Id)
    requires k in d.kcbs && k in e.kcbs && Raised(d, k) == Raised(e, k)
    ensures d == e
  {
    forall j ensures (j in d.kcbs <==> j in e.kcbs) && (j in d.kcbs && j in e.kcbs ==> d.kcbs[j] == e.kcbs[j]) {
      assert j in Raised(d, k).kcbs <==> j in Raised(e, k).kcbs;
      if j in d.kcbs && j in e.kcbs {
        assert Raised(d, k).kcbs[j] == Raised(e, k).kcbs[j];
      }
    }
    assert d.kcbs == e.kcbs;
    assert d.handles == Raised(d, k).handles - multiset{k} == Raised(e, k).handles - multiset{k} == e.handles;
    assert d == Raised(d, k).(kcbs := d.kcbs, handles := d.handles);
    assert e == Raised(e, k).(kcbs := e.kcbs, handles := e.handles);
  }

  lemma {:induction false} CachedKnown(c: Cache, index: nat -> nat, up: char -> char, stack: seq<Entry>, kcb: Id, k: Id)
    requires Inv(c, index) && CachedChild(c, up, stack, kcb, k)
    ensures stack != [] && k in c.kcbs && !c.kcbs[k].delete && k != kcb && c.kcbs[k].refs <= MaxRefs && c.kcbs[k].parent == Some(kcb)
  {
    hide ChainInv, DelayInv;
    assert LevelInv(c, k) && RefInv(c, k);
  }

  lemma {:induction false} ChainKnown(c: Cache, index: nat -> nat, i: nat)
    requires Inv(c, index)
    ensures forall k :: k in ChainOf(c, i) ==> k in c.kcbs && !c.kcbs[k].delete && index(c.kcbs[k].key.conv) == i
  {
    hide NoDup, RefInv, LevelInv;
    assert forall k :: k in ChainOf(c, i) ==> InChain(c, index, i, k);
  }

  lemma {:induction false} ListKnown(c: Cache, index: nat -> nat)
    requires Inv(c, index)
    ensures c.elements == |c.lru| && forall id :: id in c.lru ==> id in c.kcbs && c.kcbs[id].refs == 0
  {
  }

  lemma {:induction false} UnlistedTail(c: Cache, index: nat -> nat)
    requires Inv(c, index) && c.lru != []
    ensures InvBut(c.(lru := c.lru[..|c.lru| - 1], elements := c.elements - 1), index, Some(c.lru[|c.lru| - 1]))
  {
    hide RefInv, LevelInv, ChainInv;
    var d := c.(lru := c.lru[..|c.lru| - 1], elements := c.elements - 1);
    var k := c.lru[|c.lru| - 1];
    SameShape(c, d, index);
    assert c.lru == d.lru + [k];
    forall id ensures RefInv(d, id) {
      assert RefInv(c, id);
      RefSame(c, d, id);
    }
  }
}
