/**
  The order in which KCB locks are taken (ntoskrnl/config/cmkcbncb.c, CmpSortKcbArray and
  CmpBuildAndLockKcbArray; ntoskrnl/config/cmsysini.c, the two-key routines).  A lock array
  is an `array` whose element 0 holds the number of lock indices that follow it.
*/
module KcbOrder {
  import opened KeyPath

  /** `x` is one of the indices s[1], ..., s[n]. */
  ghost predicate Has(s: seq<nat>, n: nat, x: nat) {
    exists k :: 1 <= k <= n && k < |s| && s[k] == x
  }

  ghost predicate SameIndices(s: seq<nat>, n: nat, r: seq<nat>, m: nat) {
    forall x :: Has(s, n, x) <==> Has(r, m, x)
  }

  ghost predicate Sorted(s: seq<nat>, n: nat) {
    n < |s| && forall p, q :: 1 <= p < q <= n ==> s[p] <= s[q]
  }

  /** Each index before `i` is below all that follow it. */
  ghost predicate StrictBefore(s: seq<nat>, i: int, n: nat) {
    n < |s| && forall p, q :: 1 <= p < q <= n && p < i ==> s[p] < s[q]
  }

  /** An order in which locks may be taken. */
  ghost predicate Increasing(plan: seq<nat>) {
    forall p, q :: 0 <= p < q < |plan| ==> plan[p] < plan[q]
  }

  ghost predicate Placed(s: seq<nat>, i: int, n: nat) {
    n < |s| && forall p, q :: 1 <= p < q <= n && p < i ==> s[p] <= s[q]
  }

  lemma {:induction false} SwapSame(s: seq<nat>, n: nat, i: nat, j: nat)
    requires 1 <= i <= n && 1 <= j <= n < |s|
    ensures SameIndices(s, n, s[i := s[j]][j := s[i]], n)
  {
    var r := s[i := s[j]][j := s[i]];
    forall x ensures Has(s, n, x) <==> Has(r, n, x) {
      if Has(s, n, x) {
        var k :| 1 <= k <= n && s[k] == x;
        assert r[if k == i then j else if k == j then i else k] == x;
      }
      if Has(r, n, x) {
        var k :| 1 <= k <= n && r[k] == x;
        assert s[if k == i then j else if k == j then i else k] == x;
      }
    }
  }

  lemma {:induction false} SameTrans(s: seq<nat>, n: nat, r: seq<nat>, m: nat, q: seq<nat>, l: nat)
    requires SameIndices(s, n, r, m) && SameIndices(r, m, q, l)
    ensures SameIndices(s, n, q, l)
  {
  }

  /** The first pair of loops of CmpSortKcbArray. */
  method ExchangeSort(a: array<nat>, n: nat)
    requires n < a.Length
    modifies a
    ensures a[0] == old(a[0]) && Sorted(a[..], n) && SameIndices(old(a[..]), n, a[..], n)
  {
    hide SameIndices;
    var i := 1;
    SameRefl(a[..], n);
    while i <= n
      invariant 1 <= i <= n + 1 && a[0] == old(a[0])
      invariant Placed(a[..], i, n) && SameIndices(old(a[..]), n, a[..], n)
    {
      var j := i + 1;
      while j <= n
        invariant i < j <= n + 1 && a[0] == old(a[0])
        invariant Placed(a[..], i, n) && SameIndices(old(a[..]), n, a[..], n)
        invariant forall q :: i < q < j ==> a[i] <= a[q]
      {
        if a[i] > a[j] {
          ghost var s := a[..];
          SwapSame(s, n, i, j);
          SameTrans(old(a[..]), n, s, n, s[i := s[j]][j := s[i]], n);
          a[i], a[j] := a[j], a[i];
          assert a[..] == s[i := s[j]][j := s[i]];
        }
        j := j + 1;
      }
      i := i + 1;
    }
  }

  lemma {:induction false} SameRefl(s: seq<nat>, n: nat)
    ensures SameIndices(s, n, s, n)
  {
  }

  /** The array with the index at `j - 1` dropped, as the innermost loop leaves it. */
  ghost predicate Shifted(s: seq<nat>, r: seq<nat>, j: nat, n: nat) {
    && |r| == |s| && 1 <= j <= n < |s|
    && (forall p :: 0 <= p < j - 1 ==> r[p] == s[p])
    && (forall p :: j - 1 <= p < n ==> r[p] == s[p + 1])
  }

  method ShiftLeft(a: array<nat>, j: nat, n: nat)
    requires 1 <= j <= n < a.Length
    modifies a
    ensures Shifted(old(a[..]), a[..], j, n)
  {
    var k := j;
    while k <= n
      invariant j <= k <= n + 1
      invariant forall p :: 0 <= p < j - 1 ==> a[p] == old(a[p])
      invariant forall p :: j - 1 <= p < k - 1 ==> a[p] == old(a[p + 1])
      invariant forall p :: k - 1 <= p < a.Length ==> a[p] == old(a[p])
    {
      a[k - 1] := a[k];
      k := k + 1;
    }
  }

  /** In a sorted array the duplicate of s[i] comes next, so that dropping either is the same. */
  lemma {:induction false} DropDuplicate(s: seq<nat>, r: seq<nat>, i: nat, j: nat, n: nat)
    requires 1 <= i < j <= n && Shifted(s, r, j, n) && Sorted(s, n) && StrictBefore(s, i, n)
    requires s[i] == s[j] && forall q :: i < q < j ==> s[i] < s[q]
    ensures j == i + 1 && Sorted(r, n - 1) && StrictBefore(r, i, n - 1) && SameIndices(s, n, r, n - 1)
    ensures r[0] == s[0]
  {
    assert s[i + 1] <= s[j];
    forall x ensures Has(s, n, x) <==> Has(r, n - 1, x) {
      if Has(s, n, x) {
        var k :| 1 <= k <= n && s[k] == x;
        assert r[if k < j then k else k - 1] == x;
      }
      if Has(r, n - 1, x) {
        var k :| 1 <= k <= n - 1 && r[k] == x;
        assert s[if k < j - 1 then k else k + 1] == x;
      }
    }
  }

  /** The `i`-th index is below all that follow it, up to `j`. */
  ghost predicate Below(s: seq<nat>, i: nat, j: nat) {
    j <= |s| && forall q :: i < q < j ==> s[i] < s[q]
  }

  lemma {:induction false} BelowAll(s: seq<nat>, i: nat, n: nat)
    requires 1 <= i && StrictBefore(s, i, n) && Below(s, i, n + 1)
    ensures StrictBefore(s, i + 1, n)
  {
  }

  /** The middle loop: the duplicates of the `i`-th index go, one after the other. */
  method DropEqual(a: array<nat>, i: nat, n: nat) returns (m: nat)
    requires 1 <= i <= n < a.Length && Sorted(a[..], n) && StrictBefore(a[..], i, n)
    modifies a
    ensures i <= m <= n && a[0] == old(a[0])
    ensures Sorted(a[..], m) && StrictBefore(a[..], i + 1, m) && SameIndices(old(a[..]), n, a[..], m)
  {
    hide SameIndices, Sorted, StrictBefore;
    m := n;
    var j := i + 1;
    SameRefl(a[..], n);
    while j <= m
      invariant i < j <= m + 1 && m <= n && a[0] == old(a[0])
      invariant Sorted(a[..], m) && StrictBefore(a[..], i, m) && SameIndices(old(a[..]), n, a[..], m)
      invariant Below(a[..], i, j)
      decreases m - j
    {
      ghost var s := a[..];
      if a[i] == a[j] {
        ShiftLeft(a, j, m);
        DropDuplicate(s, a[..], i, j, m);
        SameTrans(old(a[..]), n, s, m, a[..], m - 1);
        m := m - 1;
      } else {
        SortedNext(s, i, j, m);
        j := j + 1;
      }
    }
    BelowAll(a[..], i, m);
  }

  lemma {:induction false} SortedNext(s: seq<nat>, i: nat, j: nat, n: nat)
    requires 1 <= i < j <= n && Sorted(s, n) && Below(s, i, j) && s[i] != s[j]
    ensures Below(s, i, j + 1)
  {
  }

  /** The second group of loops of CmpSortKcbArray. */
  method RemoveDuplicates(a: array<nat>, n: nat) returns (m: nat)
    requires n < a.Length && Sorted(a[..], n)
    modifies a
    ensures m <= n && a[0] == old(a[0]) && StrictBefore(a[..], m, m) && SameIndices(old(a[..]), n, a[..], m)
  {
    hide SameIndices, Sorted;
    m := n;
    var i := 1;
    SameRefl(a[..], n);
    NoneBefore(a[..], n);
    while i <= m
      invariant 1 <= i <= m + 1 && m <= n && a[0] == old(a[0])
      invariant Sorted(a[..], m) && StrictBefore(a[..], i, m) && SameIndices(old(a[..]), n, a[..], m)
      decreases n + 1 - i
    {
      ghost var s, k := a[..], m;
      m := DropEqual(a, i, m);
      SameTrans(old(a[..]), n, s, k, a[..], m);
      i := i + 1;
    }
  }

  lemma {:induction false} NoneBefore(s: seq<nat>, n: nat)
    requires n < |s|
    ensures StrictBefore(s, 1, n)
  {
  }

  /** The lock indices in the order in which CmpLockKcbArray takes them. */
  function Plan(s: seq<nat>): (plan: seq<nat>)
    requires 0 < |s| && s[0] < |s|
    ensures |plan| == s[0]
  {
    s[1..s[0] + 1]
  }

  /** CmpSortKcbArray: a strictly increasing array with the same set of lock indices. */
  method SortKcbArray(a: array<nat>)
    requires 0 < a.Length && a[0] < a.Length
    modifies a
    ensures a[0] <= old(a[0]) && Increasing(Plan(a[..]))
    ensures forall x :: x in Plan(a[..]) <==> x in Plan(old(a[..]))
  {
    var n := a[0];
    ExchangeSort(a, n);
    ghost var s := a[..];
    var m := RemoveDuplicates(a, n);
    ghost var r := a[..];
    a[0] := m;
    SameTrans(old(a[..]), n, s, n, r, m);
    assert a[..] == r[0 := m];
    HeaderAside(old(a[..]), n);
    HeaderAside(r, m);
    PlanHas(old(a[..]));
    PlanHas(a[..]);
    assert SameIndices(r, m, a[..], m);
  }

  lemma {:induction false} HeaderAside(s: seq<nat>, n: nat)
    requires n < |s|
    ensures SameIndices(s, n, s[0 := n], n)
  {
    var r := s[0 := n];
    forall x ensures Has(s, n, x) <==> Has(r, n, x) {
      if Has(s, n, x) {
        var k :| 1 <= k <= n && s[k] == x;
        assert r[k] == x;
      }
      if Has(r, n, x) {
        var k :| 1 <= k <= n && r[k] == x;
        assert s[k] == x;
      }
    }
  }

  lemma {:induction false} PlanHas(s: seq<nat>)
    requires 0 < |s| && s[0] < |s|
    ensures forall x: nat :: x in Plan(s) <==> Has(s, s[0], x)
  {
    forall x: nat ensures x in Plan(s) <==> Has(s, s[0], x) {
      if Has(s, s[0], x) {
        var k :| 1 <= k <= s[0] && s[k] == x;
        assert Plan(s)[k - 1] == x;
      }
    }
  }

  const ArrayLimit := DepthLimit + 2      // CMP_KCBS_IN_ARRAY_LIMIT

  /** How many indices CmpBuildAndLockKcbArray puts into the array; element 0 counts them. */
  function Needed(parent: seq<nat>, hashes: seq<nat>, matched: nat): nat {
    |hashes| + if |parent| == 1 && |hashes| == matched then 2 else 1
  }

  /**
    The array of CmpParseKey is large enough exactly for paths of up to 32 names, except that the
    parent does not fit beside 32 names; its callers come with a match that is not complete.
  */
  lemma {:induction false} ArrayFits(parent: seq<nat>, hashes: seq<nat>, matched: nat)
    ensures Needed(parent, hashes, matched) < ArrayLimit <==>
              |hashes| < DepthLimit || (|hashes| == DepthLimit && !(|parent| == 1 && matched == |hashes|))
    ensures |hashes| <= DepthLimit && matched != |hashes| ==> Needed(parent, hashes, matched) < ArrayLimit
  {
  }

  /**
    The array part of CmpBuildAndLockKcbArray: the locks of the key, of its parent when the
    cache matched all that was left of the path, and of every hash of the stack.
  */
  method BuildKcbArray(a: array<nat>, kcb: nat, parent: seq<nat>, hashes: seq<nat>, matched: nat)
    requires |parent| <= 1 && Needed(parent, hashes, matched) < a.Length
    modifies a
    ensures 0 < a[0] < a.Length && Increasing(Plan(a[..]))
    ensures forall x :: x in Plan(a[..]) <==> x == kcb || x in hashes || (|hashes| == matched && x in parent)
  {
    var next := 1;
    if |parent| == 1 && |hashes| == matched {
      a[next] := parent[0];
      next := next + 1;
    }
    a[next] := kcb;
    next := next + 1;
    ghost var front := if |parent| == 1 && |hashes| == matched then [parent[0], kcb] else [kcb];
    assert a[1..next] == front;
    assert forall x :: x in front <==> x == kcb || (|hashes| == matched && x in parent);
    var i := 0;
    while i < |hashes|
      invariant 0 <= i <= |hashes| && next == 1 + |front| + i && |front| <= 2
      invariant a[1..next] == front + hashes[..i]
    {
      a[next] := hashes[i];
      next := next + 1;
      i := i + 1;
    }
    a[0] := next - 1;
    assert Plan(a[..]) == front + hashes;
    assert kcb in Plan(a[..]);
    SortKcbArray(a);
    assert kcb in Plan(a[..]);
  }

  /** The order of CmpAcquireTwoKcbLocksExclusiveByKey. */
  function TwoKeyPlan(index1: nat, index2: nat): (plan: seq<nat>)
    ensures Increasing(plan) && forall x :: x in plan <==> x == index1 || x == index2
  {
    if index1 < index2 then [index1, index2]
    else [index2] + if index1 != index2 then [index1] else []
  }

  /** The order of CmpReleaseTwoKcbLockByKey. */
  function TwoKeyRelease(index1: nat, index2: nat): (order: seq<nat>)
    ensures var plan := TwoKeyPlan(index1, index2);
            |order| == |plan| && forall i :: 0 <= i < |plan| ==> order[i] == plan[|plan| - 1 - i]
  {
    if index1 < index2 then [index2, index1]
    else (if index1 != index2 then [index1] else []) + [index2]
  }
}
