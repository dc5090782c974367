/**
  The VACBs of one file: 256 KB views, kept on a list in ascending file order
  (CcRosLookupVacb and CcRosCreateVacb in ntoskrnl/cc/view.c, CcPurgeCacheSection in
  ntoskrnl/cc/fs.c).
*/
module VacbList {
  import opened Common

  /** VACB_MAPPING_GRANULARITY */
  const Granularity := 0x40000
  const PagesPerVacb := Granularity / PageSize

  /** A VACB as the list sees it. */
  datatype View = View(id: nat, offset: int)

  /** IsPointInRange, by way of DoRangesIntersect */
  predicate InRange(offset: int, point: int) {
    !(offset + Granularity <= point) && !(point + 1 <= offset)
  }

  /** ROUND_DOWN to the granularity */
  function RoundDown(point: int): int {
    point - point % Granularity
  }

  predicate Aligned(offset: int) {
    offset % Granularity == 0
  }

  ghost predicate Ascending(views: seq<View>) {
    && (forall i :: 0 <= i < |views| ==> Aligned(views[i].offset))
    && (forall i, j :: 0 <= i < j < |views| ==> views[i].offset < views[j].offset)
  }

  /** Aligned views that start apart do not overlap. */
  lemma {:induction false} AlignedApart(a: int, b: int)
    requires Aligned(a) && Aligned(b) && a < b
    ensures a + Granularity <= b
  {
  }

  lemma {:induction false} RoundDownCovers(point: int)
    ensures Aligned(RoundDown(point)) && InRange(RoundDown(point), point)
    ensures forall o :: Aligned(o) && InRange(o, point) ==> o == RoundDown(point)
  {
    forall o | Aligned(o) && InRange(o, point) ensures o == RoundDown(point) {
      if o < RoundDown(point) {
        AlignedApart(o, RoundDown(point));
      } else if RoundDown(point) < o {
        AlignedApart(RoundDown(point), o);
      }
    }
  }

  lemma {:induction false} AscendingTail(views: seq<View>)
    requires Ascending(views) && views != []
    ensures Ascending(views[1..]) && Aligned(views[0].offset)
    ensures forall y :: y in views[1..] ==> views[0].offset < y.offset
  {
  }

  lemma {:induction false} AscendingCons(v: View, rest: seq<View>)
    requires Ascending(rest) && Aligned(v.offset) && forall y :: y in rest ==> v.offset < y.offset
    ensures Ascending([v] + rest)
  {
    assert forall i :: 0 <= i < |rest| ==> rest[i] in rest;
  }

  /** The full search that the early-exit lookup stands for. */
  function FindView(views: seq<View>, point: int): (r: Option<View>)
    ensures r.Some? ==> r.value in views && InRange(r.value.offset, point)
    ensures r.None? ==> forall v :: v in views ==> !InRange(v.offset, point)
  {
    if views == [] then None
    else if InRange(views[0].offset, point) then Some(views[0])
    else FindView(views[1..], point)
  }

  /** In an ascending list at most one view covers a point. */
  lemma {:induction false} FoundOnce(views: seq<View>, point: int, a: View)
    requires Ascending(views) && a in views && InRange(a.offset, point)
    ensures FindView(views, point) == Some(a)
  {
    var b := FindView(views, point).value;
    var i :| 0 <= i < |views| && views[i] == a;
    var j :| 0 <= j < |views| && views[j] == b;
    if i < j {
      AlignedApart(a.offset, b.offset);
    } else if j < i {
      AlignedApart(b.offset, a.offset);
    }
  }

  /** `views` with `v` put in front of the first view that does not start before it. */
  function Inserted(views: seq<View>, v: View): (r: seq<View>)
    ensures forall x :: x in r <==> x in views || x == v
    ensures |r| == |views| + 1
  {
    if views == [] || views[0].offset >= v.offset then [v] + views
    else [views[0]] + Inserted(views[1..], v)
  }

  lemma {:induction false} InsertedAt(views: seq<View>, k: nat, v: View)
    requires k <= |views|
    requires forall i :: 0 <= i < k ==> views[i].offset < v.offset
    requires k < |views| ==> views[k].offset >= v.offset
    ensures Inserted(views, v) == views[..k] + [v] + views[k..]
  {
    if k > 0 {
      InsertedAt(views[1..], k - 1, v);
      assert views[..k] == [views[0]] + views[1..][..k - 1] && views[1..][k - 1..] == views[k..];
    }
  }

  lemma {:induction false} InsertedAscending(views: seq<View>, v: View)
    requires Ascending(views) && Aligned(v.offset)
    requires forall x :: x in views ==> x.offset != v.offset
    ensures Ascending(Inserted(views, v))
  {
    hide Ascending;
    if views != [] && views[0].offset < v.offset {
      AscendingTail(views);
      InsertedAscending(views[1..], v);
      AscendingCons(views[0], Inserted(views[1..], v));
    } else if views != [] {
      AscendingTail(views);
      assert views[0] in views && forall y :: y in views ==> y == views[0] || y in views[1..];
      AscendingCons(v, views);
    } else {
      AscendingCons(v, views);
    }
  }

  /** The views that a purge of [start, end) takes, and those that it leaves. */
  predicate Purgeable(v: View, start: int, end: int, sectionSize: int) {
    start <= v.offset && ViewEnd(v, sectionSize) < end
  }

  /** A purgeable view with no purgeable view in use at its place or before it. */
  ghost predicate Taken(views: seq<View>, v: View, start: int, end: int, sectionSize: int, inUse: set<nat>) {
    && v in views && Purgeable(v, start, end, sectionSize)
    && forall u :: u in views && Purgeable(u, start, end, sectionSize) && u.id in inUse ==> v.offset < u.offset
  }

  function ViewEnd(v: View, sectionSize: int): int {
    if v.offset + Granularity < sectionSize then v.offset + Granularity else sectionSize
  }

  /** Behind the first view that ends too late, every view does. */
  lemma {:induction false} LaterViewsEndLater(views: seq<View>, i: nat, sectionSize: int)
    requires Ascending(views) && i < |views|
    ensures forall j :: i <= j < |views| ==> ViewEnd(views[i], sectionSize) <= ViewEnd(views[j], sectionSize)
  {
  }

  class CacheMap {
    var views: seq<View>

    constructor ()
      ensures views == []
    {
      views := [];
    }

    /** CcRosLookupVacb: the walk stops as soon as a view starts beyond the point. */
    method Lookup(point: int) returns (r: Option<View>)
      requires Ascending(views)
      ensures r == FindView(views, point)
    {
      var i := 0;
      while i < |views|
        invariant 0 <= i <= |views|
        invariant forall k :: 0 <= k < i ==> !InRange(views[k].offset, point)
      {
        if InRange(views[i].offset, point) {
          FoundOnce(views, point, views[i]);
          return Some(views[i]);
        }
        if views[i].offset > point {
          break;
        }
        i := i + 1;
      }
      assert forall k :: i <= k < |views| ==> views[i].offset <= views[k].offset;
      assert forall v :: v in views ==> !InRange(v.offset, point);
      return None;
    }

    /**
      The critical section of CcRosCreateVacb: somebody may have created a view for the
      same point in the meantime; otherwise the new view is inserted at its place.
    */
    method FindOrInsert(id: nat, point: int) returns (existing: Option<View>)
      requires Ascending(views)
      modifies this
      ensures Ascending(views)
      ensures existing == FindView(old(views), point)
      ensures views == if existing.Some? then old(views) else Inserted(old(views), View(id, RoundDown(point)))
    {
      var i, previous := 0, 0;   // `previous` counts the views up to the insertion point
      while i < |views|
        invariant 0 <= i <= |views|
        invariant previous == i
        invariant forall k :: 0 <= k < i ==> views[k].offset < point && !InRange(views[k].offset, point)
      {
        if InRange(views[i].offset, point) {
          FoundOnce(views, point, views[i]);
          return Some(views[i]);
        }
        if views[i].offset < point {
          previous := i + 1;
        }
        if views[i].offset > point {
          break;
        }
        i := i + 1;
      }
      existing := None;
      var v := View(id, RoundDown(point));
      assert forall k :: previous <= k < |views| ==> views[previous].offset <= views[k].offset;
      assert forall v :: v in views ==> !InRange(v.offset, point);
      RoundDownCovers(point);
      NewPlace(views, previous, point);
      InsertedAt(views, previous, v);
      InsertedAscending(views, v);
      views := views[..previous] + [v] + views[previous..];
    }

    /**
      The loop of CcPurgeCacheSection.  `inUse` tells which views have more references
      than the purge allows; it is fixed while the locks are held.
    */
    method Purge(start: int, end: int, sectionSize: int, inUse: set<nat>) returns (ok: bool, freed: seq<View>)
      requires Ascending(views)
      modifies this
      ensures Ascending(views)
      ensures forall v :: v in old(views) <==> v in views || v in freed
      ensures forall v :: v in freed ==> v !in views && Purgeable(v, start, end, sectionSize) && v.id !in inUse
      ensures forall v :: v in freed <==> Taken(old(views), v, start, end, sectionSize, inUse)
      ensures ok ==> forall v :: v in views ==> !Purgeable(v, start, end, sectionSize)
      ensures ok ==> forall v :: v in views && start <= v.offset && ViewEnd(v, sectionSize) <= end ==> ViewEnd(v, sectionSize) == end
      ensures ok <==> forall v :: v in old(views) && Purgeable(v, start, end, sectionSize) ==> v.id !in inUse
    {
      var i := 0;
      ok, freed := true, [];
      ghost var was, done := views, 0;
      hide Ascending;
      while i < |views|
        invariant 0 <= i <= |views| && 0 <= done <= |was|
        invariant Ascending(was) && views[i..] == was[done..]
        invariant forall v :: v in was[..done] <==> v in views[..i] || v in freed
        invariant forall v :: v in freed ==> v !in views[..i] && Purgeable(v, start, end, sectionSize) && v.id !in inUse
        invariant forall v :: v in views[..i] ==> !Purgeable(v, start, end, sectionSize)
        invariant Ascending(views)
        decreases |views| - i
      {
        var v := views[i];
        assert v == views[i..][0] == was[done..][0] && views[i..][1..] == was[done..][1..];
        if v.offset < start {
          assert views[..i + 1] == views[..i] + [v] && was[..done + 1] == was[..done] + [v] && views[i + 1..] == was[done + 1..];
          i, done := i + 1, done + 1;
          continue;
        }
        if ViewEnd(v, sectionSize) >= end {
          break;
        }
        if v.id in inUse {
          ok := false;
          break;
        }
        DropAscending(views, i);
        ghost var kept := views[..i];
        views := views[..i] + views[i + 1..];
        assert views[..i] == kept && was[..done + 1] == was[..done] + [v] && views[i..] == was[done + 1..];
        freed, done := [v] + freed, done + 1;
      }
      if i < |views| {
        LaterViewsEndLater(views, i, sectionSize);
        assert views[i] == views[i..][0];
      }
      NoneTwice(was, done);
      forall v | v in was[done..] ensures ok ==> !Purgeable(v, start, end, sectionSize) {
        assert v in views[i..];
      }
      PurgeTakes(was, done, views[..i], freed, start, end, sectionSize, inUse, ok);
    }
  }

  /** The purge stops at the first purgeable view that is in use, and has taken those before it. */
  lemma {:induction false} PurgeTakes(was: seq<View>, done: nat, kept: seq<View>, freed: seq<View>,
                                      start: int, end: int, sectionSize: int, inUse: set<nat>, ok: bool)
    requires Ascending(was) && done <= |was|
    requires forall v :: v in was[..done] <==> v in kept || v in freed
    requires forall v :: v in freed ==> Purgeable(v, start, end, sectionSize) && v.id !in inUse
    requires forall v :: v in kept ==> !Purgeable(v, start, end, sectionSize)
    requires ok ==> forall v :: v in was[done..] ==> !Purgeable(v, start, end, sectionSize)
    requires !ok ==> done < |was| && Purgeable(was[done], start, end, sectionSize) && was[done].id in inUse
    ensures forall v :: v in freed <==> Taken(was, v, start, end, sectionSize, inUse)
  {
    hide Purgeable, Ascending;
    NoneTwice(was, done);
    forall v ensures v in freed <==> Taken(was, v, start, end, sectionSize, inUse) {
      if v in freed {
        forall u | u in was && Purgeable(u, start, end, sectionSize) && u.id in inUse ensures v.offset < u.offset {
          assert u in was[done..];
          Before(was, done, v, u);
        }
      } else if v in was[done..] && !ok {
        NotBefore(was, done, v);
        assert was[done] in was;
      }
    }
  }

  lemma {:induction false} Before(views: seq<View>, k: nat, v: View, u: View)
    requires Ascending(views) && k <= |views| && v in views[..k] && u in views[k..]
    ensures v.offset < u.offset
  {
  }

  lemma {:induction false} NotBefore(views: seq<View>, k: nat, v: View)
    requires Ascending(views) && k < |views| && v in views[k..]
    ensures views[k].offset <= v.offset
  {
  }

  lemma {:induction false} DropAscending(views: seq<View>, i: nat)
    requires Ascending(views) && i < |views|
    ensures Ascending(views[..i] + views[i + 1..]) && views[i] !in views[..i] && views[i] !in views[i + 1..]
  {
  }

  lemma {:induction false} NoneTwice(views: seq<View>, k: nat)
    requires Ascending(views) && k <= |views|
    ensures forall v :: v in views[..k] ==> v !in views[k..]
    ensures views == views[..k] + views[k..]
  {
  }

  /** A view that starts before an uncovered point also ends before the view for that point. */
  lemma {:induction false} NewPlace(views: seq<View>, k: nat, point: int)
    requires Ascending(views) && k <= |views|
    requires forall i :: 0 <= i < k ==> views[i].offset < point && !InRange(views[i].offset, point)
    requires k < |views| ==> views[k].offset > point
    ensures forall i :: 0 <= i < k ==> views[i].offset < RoundDown(point)
    ensures k < |views| ==> views[k].offset > RoundDown(point)
    ensures forall v :: v in views ==> v.offset != RoundDown(point)
  {
    RoundDownCovers(point);
  }

  /** A view that lies wholly inside the range is left behind exactly when it ends where the range ends. */
  lemma {:induction false} LeftInside(v: View, start: int, end: int, sectionSize: int)
    requires start <= v.offset && ViewEnd(v, sectionSize) <= end
    ensures !Purgeable(v, start, end, sectionSize) <==> ViewEnd(v, sectionSize) == end
  {
  }

  /** A purge of the first 256 KB of a larger file leaves their view. */
  lemma {:induction false} FirstViewLeft(id: nat)
    ensures var v := View(id, 0);
            ViewEnd(v, 2 * Granularity) <= Granularity && !Purgeable(v, 0, Granularity, 2 * Granularity)
  {
  }
}
