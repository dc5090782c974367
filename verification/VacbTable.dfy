/**
  The critical sections of ntoskrnl/cc/view.c that change reference counts, flags and the
  lists in place, each proved to be the atomic operation that VacbProtocol makes of it.
*/
module VacbTable {
  import opened Common
  import opened Seqs
  import opened VacbList
  import P = VacbProtocol

  class Table {
    var vacbs: map<P.Vid, P.Vacb>
    var lists: map<P.FileId, seq<View>>
    var lru: seq<P.Vid>
    var dirtyList: seq<P.Vid>
    var dirtyPages: int
    ghost var others: P.State      // the threads and their data

    ghost function Value(): P.State
      reads this
    {
      others.(vacbs := vacbs, lists := lists, lru := lru, dirtyList := dirtyList, dirtyPages := dirtyPages)
    }

    /** CcRosVacbDecRefCount */
    method DecRef(v: P.Vid) returns (refs: int)
      requires v in vacbs
      modifies this`vacbs
      ensures Value() == P.Drop(old(Value()), v)
      ensures refs == old(vacbs[v].refs) - 1 && (refs == 0 <==> v !in vacbs)
    {
      refs := vacbs[v].refs - 1;
      vacbs := vacbs[v := vacbs[v].(refs := refs)];
      if refs == 0 {
        vacbs := vacbs - {v};
        assert vacbs == old(vacbs) - {v};
      }
    }

    /** CcRosMarkDirtyVacb */
    method MarkDirty(v: P.Vid)
      requires v in vacbs
      modifies this`vacbs, this`dirtyList, this`dirtyPages, this`lru
      ensures Value() == P.MarkDirty(old(Value()), v)
    {
      if vacbs[v].dirty {
        return;
      }
      dirtyList := dirtyList + [v];
      dirtyPages := dirtyPages + Granularity / PageSize;
      vacbs := vacbs[v := vacbs[v].(refs := vacbs[v].refs + 1)];
      lru := Without(lru, v) + [v];
      vacbs := vacbs[v := vacbs[v].(dirty := true)];
      assert vacbs == P.MarkDirty(old(Value()), v).vacbs;
    }

    /** CcRosUnmarkDirtyVacb */
    method UnmarkDirty(v: P.Vid) returns (was: bool)
      requires v in vacbs
      modifies this`vacbs, this`dirtyList, this`dirtyPages
      ensures Value() == P.UnmarkDirty(old(Value()), v) && was == old(vacbs[v].dirty)
    {
      if !vacbs[v].dirty {
        return false;
      }
      vacbs := vacbs[v := vacbs[v].(dirty := false)];
      dirtyList := Without(dirtyList, v);
      dirtyPages := dirtyPages - Granularity / PageSize;
      var refs := DecRef(v);
      return true;
    }

    /** The view leaves its file's list and the LRU list. */
    method Unlist(v: P.Vid)
      requires v in vacbs
      modifies this`lists, this`lru
      ensures Value() == P.Unlist(old(Value()), v)
    {
      var x := vacbs[v];
      var views := if x.file in lists then lists[x.file] else [];
      lists := lists[x.file := Without(views, View(v, x.offset))];
      lru := Without(lru, v);
    }

    /** CcRosFreeOneUnusedVacb: the least recently used VACB that nobody uses is freed. */
    method FreeOneUnused() returns (freed: Option<P.Vid>)
      requires forall v :: v in lru ==> v in vacbs && vacbs[v].refs >= 1
      modifies this
      ensures freed.None? ==> Value() == old(Value()) && forall v :: v in lru ==> vacbs[v].refs >= 2
      ensures freed.Some? ==>
                exists i :: 0 <= i < old(|lru|) && P.LeastUsed(old(Value()), i) && freed.value == old(lru)[i]
      ensures freed.Some? ==> freed.value in old(vacbs) && Value() == P.Drop(P.Unlist(old(Value()), freed.value), freed.value)
      ensures freed.Some? ==> freed.value !in vacbs
    {
      var i := 0;
      while i < |lru|
        invariant 0 <= i <= |lru| && Value() == old(Value())
        invariant forall k :: 0 <= k < i ==> vacbs[lru[k]].refs >= 2
      {
        var v := lru[i];
        if vacbs[v].refs < 2 {
          assert P.LeastUsed(old(Value()), i);
          Unlist(v);
          var refs := DecRef(v);
          return Some(v);
        }
        i := i + 1;
      }
      return None;
    }

    /** The scan of CcRosTrimCache: every VACB that nobody uses goes to the free list. */
    method TrimScan(target: nat) returns (evicted: seq<P.Vid>, freed: nat, left: nat)
      requires forall v :: v in lru ==> v in vacbs
      modifies this`lists, this`lru
      ensures evicted == P.Unused(vacbs, old(lru)) && Value() == P.UnlistAll(old(Value()), evicted)
      ensures freed + left == target && freed == if target < PagesPerVacb * |evicted| then target else PagesPerVacb * |evicted|
    {
      hide P.Unused, P.UnlistAll, P.Unlist;
      evicted, freed, left := [], 0, target;
      var i, order := 0, lru;
      P.NoneUnlisted(Value());
      assert order[..0] == [];
      while i < |order|
        invariant 0 <= i <= |order| && evicted == P.Unused(vacbs, order[..i])
        invariant Value() == P.UnlistAll(old(Value()), evicted)
        invariant freed + left == target && freed == if target < PagesPerVacb * |evicted| then target else PagesPerVacb * |evicted|
      {
        var v := order[i];
        assert v in order;
        P.UnusedSnoc(vacbs, order, i);
        if vacbs[v].refs < 2 {
          P.UnlistMore(old(Value()), evicted, v);
          Unlist(v);
          evicted := evicted + [v];
          var pages := if left < PagesPerVacb then left else PagesPerVacb;
          left := left - pages;
          freed := freed + pages;
        }
        i := i + 1;
      }
      assert order[..|order|] == order;
    }
  }
}
