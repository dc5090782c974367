/**
  The order in which boot drivers are loaded (ntoskrnl/config/cmboot.c).

  The drivers are enumerated into a list, arranged by the ServiceGroupOrder value
  and finally sorted by tag inside every stretch of equal groups.  The linked list of
  BOOT_DRIVER_NODEs is the field `nodes`; a node pointer is a position in it.
*/
module DriverOrder {
  import opened Seqs
  import opened Drivers
  import opened TagOrder
  import opened GroupOrder

  /** `s[a..b]` is a maximal stretch of drivers of one group. */
  ghost predicate IsRun(up: char -> char, s: seq<Driver>, a: nat, b: nat) {
    && a < b <= |s|
    && RunStart(up, s, a)
    && RunStart(up, s, b)
    && forall k :: a <= k < b ==> SameGroup(up, s[a], s[k])
  }

  ghost predicate RunStart(up: char -> char, s: seq<Driver>, a: nat) {
    a == 0 || a >= |s| || !SameGroup(up, s[a - 1], s[a])
  }

  ghost predicate Ordered(was: seq<Driver>, s: seq<Driver>, a: nat, b: nat) {
    && a <= b <= |s| == |was|
    && TagSorted(s[a..b])
    && multiset(s[a..b]) == multiset(was[a..b])
  }

  /** Two maximal stretches that overlap are one and the same. */
  lemma {:induction false} RunUnique(up: char -> char, s: seq<Driver>, start: nat, next: nat, a: nat, b: nat)
    requires IsRun(up, s, start, next) && IsRun(up, s, a, b)
    requires a < next && start < b
    ensures a == start && b == next
  {
    if a > start {
      SameGroupJoin(up, s[start], s[a - 1], s[a]);
    } else if a < start {
      SameGroupJoin(up, s[a], s[start - 1], s[start]);
    } else if b < next {
      SameGroupJoin(up, s[a], s[b - 1], s[b]);
    } else if next < b {
      SameGroupJoin(up, s[a], s[next - 1], s[next]);
    }
  }

  /** A permutation of a stretch of one group keeps the group at every position. */
  lemma {:induction false} GroupsKept(up: char -> char, was: seq<Driver>, s: seq<Driver>, start: nat, next: nat, i: nat)
    requires start <= i < next <= |s| == |was|
    requires forall k :: start <= k < next ==> SameGroup(up, was[start], was[k])
    requires multiset(s[start..next]) == multiset(was[start..next])
    ensures SameGroup(up, s[i], was[i])
  {
    assert s[i] == s[start..next][i - start];
    assert s[i] in multiset(was[start..next]);
    var k :| 0 <= k < next - start && was[start..next][k] == s[i];
    assert was[start..next][k] == was[start + k];
    SameGroupJoin(up, was[start], was[start + k], was[i]);
  }

  lemma {:induction false} RunInSuffix(up: char -> char, was: seq<Driver>, s: seq<Driver>, start: nat, next: nat)
    requires start < next <= |s| == |was|
    requires s[start..] == was[start..] && RunStart(up, was, start)
    requires forall k :: start <= k < next ==> SameGroup(up, s[start], s[k])
    requires next == |s| || !SameGroup(up, s[start], s[next])
    ensures IsRun(up, was, start, next)
  {
    forall k | start <= k < |s| ensures s[k] == was[k] {
      assert s[k] == s[start..][k - start] && was[k] == was[start..][k - start];
    }
    if next < |s| && SameGroup(up, was[next - 1], was[next]) {
      SameGroupJoin(up, was[next - 1], was[start], was[next]);
    }
  }

  /** Window facts for one round of CmpResolveDriverDependencies. */
  lemma {:induction false} RoundWindows(was: seq<Driver>, before: seq<Driver>, s: seq<Driver>, start: nat, next: nat)
    requires start < next <= |s| == |before| == |was|
    requires before[start..] == was[start..]
    requires s[..start] == before[..start] && s[next..] == before[next..]
    ensures s[next..] == was[next..] && before[start..next] == was[start..next]
    ensures forall i :: 0 <= i < start ==> s[i] == before[i]
    ensures forall i :: next <= i < |s| ==> s[i] == was[i]
    ensures forall a, b :: 0 <= a <= b <= start ==> s[a..b] == before[a..b]
  {
    assert before[next..] == before[start..][next - start..] && was[next..] == was[start..][next - start..];
    assert before[start..next] == before[start..][..next - start] && was[start..next] == was[start..][..next - start];
    forall i | 0 <= i < start ensures s[i] == before[i] {
      assert s[i] == s[..start][i];
    }
    forall i | next <= i < |s| ensures s[i] == was[i] {
      assert s[i] == s[next..][i - next] && was[i] == was[next..][i - next];
    }
  }

  /** What holds in CmpResolveDriverDependencies when everything before `next` is done. */
  ghost predicate Resolving(up: char -> char, was: seq<Driver>, s: seq<Driver>, next: nat) {
    && next <= |s| == |was|
    && s[next..] == was[next..] && multiset(s) == multiset(was)
    && RunStart(up, was, next)
    && (forall i :: 0 <= i < |was| ==> SameGroup(up, s[i], was[i]))
    && (forall a: nat, b: nat :: IsRun(up, was, a, b) && b <= next ==> Ordered(was, s, a, b))
  }

  lemma {:induction false} RoundDone(up: char -> char, was: seq<Driver>, before: seq<Driver>, s: seq<Driver>, start: nat, next: nat)
    requires Resolving(up, was, before, start)
    requires start < next <= |s| == |before|
    requires forall k :: start <= k < next ==> SameGroup(up, before[start], before[k])
    requires next == |s| || !SameGroup(up, before[start], before[next])
    requires s[..start] == before[..start] && s[next..] == before[next..]
    requires Ordered(before, s, start, next)
    ensures Resolving(up, was, s, next)
  {
    hide SameGroup, TagSorted;
    RunInSuffix(up, was, before, start, next);
    RoundWindows(was, before, s, start, next);
    assert s == s[..start] + s[start..next] + s[next..];
    assert before == before[..start] + before[start..next] + before[next..];
    forall i | 0 <= i < |was| ensures SameGroup(up, s[i], was[i]) {
      if start <= i < next {
        GroupsKept(up, was, s, start, next, i);
      }
    }
    forall a: nat, b: nat | IsRun(up, was, a, b) && b <= next ensures Ordered(was, s, a, b) {
      if start < b {
        RunUnique(up, was, start, next, a, b);
      } else {
        assert Ordered(was, before, a, b);
      }
    }
  }

  lemma {:induction false} ResolvingStart(up: char -> char, s: seq<Driver>)
    ensures Resolving(up, s, s, 0)
  {
  }

  lemma {:induction false} ResolvingDone(up: char -> char, was: seq<Driver>, s: seq<Driver>)
    requires Resolving(up, was, s, |s|)
    ensures |s| == |was| && multiset(s) == multiset(was)
    ensures forall i :: 0 <= i < |s| ==> SameGroup(up, s[i], was[i])
    ensures forall a: nat, b: nat :: IsRun(up, was, a, b) ==> Ordered(was, s, a, b)
  {
    hide SameGroup, Ordered;
  }

  lemma {:induction false} OrderedRun(was: seq<Driver>, s: seq<Driver>, first: nat, last: nat)
    requires RunOrdered(was, s, first, last)
    ensures |s| == |was| && s[..first] == was[..first] && s[last + 1..] == was[last + 1..] && Ordered(was, s, first, last + 1)
  {
  }

  /**
    The load order that the group list asks for: the drivers of the `i`-th listed group
    stand together behind those of the earlier groups, none missing, in tag order.  The
    drivers of no listed group follow, in the order of the list that was built, with
    every stretch of one group sorted by tag.
  */
  ghost predicate LoadOrder(up: char -> char, names: seq<string>, found: seq<Driver>, s: seq<Driver>) {
    && |s| == |found|
    && multiset(s) == multiset(found)
    && (forall i :: 0 <= i < |names| ==> BlockLoaded(up, names, found, s, i))
    && TailLoaded(up, |Blocks(up, names, found)|, Filter(Unlisted(up, names), Reverse(found)), s)
  }

  ghost predicate TailLoaded(up: char -> char, at: nat, tail: seq<Driver>, s: seq<Driver>) {
    && at + |tail| == |s|
    && forall a: nat, b: nat :: IsRun(up, tail, a, b) ==> Ordered(tail, s[at..], a, b)
  }

  ghost predicate BlockLoaded(up: char -> char, names: seq<string>, found: seq<Driver>, s: seq<Driver>, i: nat) {
    i < |names| &&
    var at, block := |Blocks(up, names[..i], found)|, Filter(InGroup(up, names[i]), found);
    && at + |block| <= |s|
    && TagSorted(s[at..at + |block|])
    && multiset(s[at..at + |block|]) == multiset(block)
  }

  /** A driver without a group has the empty group name, which no list names. */
  ghost predicate Named(names: seq<string>) {
    forall i :: 0 <= i < |names| ==> names[i] != []
  }

  /** Three parts whose neighbours differ in group: the middle one is a maximal stretch. */
  lemma {:induction false} MiddleIsRun(up: char -> char, p: seq<Driver>, b: seq<Driver>, q: seq<Driver>)
    requires b != []
    requires forall x, y :: x in b && y in b ==> SameGroup(up, x, y)
    requires forall x, y :: x in b && y in p ==> !SameGroup(up, y, x)
    requires forall x, y :: x in b && y in q ==> !SameGroup(up, x, y)
    ensures IsRun(up, p + b + q, |p|, |p| + |b|)
  {
    var s := p + b + q;
    assert s[|p|] == b[0] && s[|p| + |b| - 1] == b[|b| - 1];
    forall k | |p| <= k < |p| + |b| ensures SameGroup(up, s[|p|], s[k]) {
      assert s[k] == b[k - |p|];
    }
    if p != [] {
      assert s[|p| - 1] == p[|p| - 1];
    }
    if q != [] {
      assert s[|p| + |b|] == q[0];
    }
  }

  lemma {:induction false} BelongsSame(up: char -> char, g: string, h: string, x: Driver, y: Driver)
    requires g != [] && Belongs(up, g, x)
    ensures Belongs(up, g, y) ==> SameGroup(up, x, y)
    ensures SameGroup(up, x, y) || SameGroup(up, y, x) ==> Belongs(up, g, y)
    ensures Belongs(up, h, y) && Belongs(up, g, y) ==> EqualNames(up, g, h) && EqualNames(up, h, g)
  {
  }

  lemma {:induction false} BlocksSplit(up: char -> char, names: seq<string>, found: seq<Driver>, i: nat)
    requires i < |names|
    ensures Blocks(up, names, found)
         == Blocks(up, names[..i], found) + Filter(InGroup(up, names[i]), found) + Blocks(up, names[i + 1..], found)
  {
    var rest := names[i..];
    assert names == names[..i] + rest && rest[1..] == names[i + 1..];
    BlocksConcat(up, names[..i], rest, found);
  }

  /** The drivers in front of a block and behind it belong to other groups. */
  lemma {:induction false} BlockNeighbours(up: char -> char, names: seq<string>, found: seq<Driver>, i: nat, x: Driver, y: Driver)
    requires Named(names) && Distinct(up, names) && i < |names|
    requires Belongs(up, names[i], x)
    ensures y in Blocks(up, names[..i], found) ==> !SameGroup(up, y, x)
    ensures y in Blocks(up, names[i + 1..], found) ==> !SameGroup(up, x, y)
    ensures !ListedIn(up, names, y) ==> !SameGroup(up, x, y)
  {
    hide EqualNames;
    var g := names[i];
    if y in Blocks(up, names[..i], found) {
      BlocksMembers(up, names[..i], found);
      var j :| 0 <= j < i && Belongs(up, names[..i][j], y);
      BelongsSame(up, g, names[j], x, y);
    } else if y in Blocks(up, names[i + 1..], found) {
      BlocksMembers(up, names[i + 1..], found);
      var j :| 0 <= j < |names[i + 1..]| && Belongs(up, names[i + 1..][j], y);
      BelongsSame(up, g, names[i + 1 + j], x, y);
    }
    BelongsSame(up, g, g, x, y);
  }

  lemma {:induction false} BlockIsRun(up: char -> char, names: seq<string>, arranged: seq<Driver>, i: nat)
    requires Named(names) && Distinct(up, names) && i < |names| && Grouped(up, names, arranged)
    requires Filter(InGroup(up, names[i]), arranged) != []
    ensures var at, block := |Blocks(up, names[..i], arranged)|, Filter(InGroup(up, names[i]), arranged);
      && IsRun(up, arranged, at, at + |block|)
      && arranged[at..at + |block|] == block
  {
    hide Blocks, IsRun, SameGroup, Belongs, ListedIn, Named, Distinct;
    var p, b, r := Blocks(up, names[..i], arranged), Filter(InGroup(up, names[i]), arranged), Blocks(up, names[i + 1..], arranged);
    var tail := Filter(Unlisted(up, names), arranged);
    forall x, y | x in b && y in b ensures SameGroup(up, x, y) {
      BlockTogether(up, names[i], x, y);
    }
    forall x, y | x in b && y in p ensures !SameGroup(up, y, x) {
      BlockNeighbours(up, names, arranged, i, x, y);
    }
    forall x, y | x in b && y in r + tail ensures !SameGroup(up, x, y) {
      BlockNeighbours(up, names, arranged, i, x, y);
    }
    MiddleIsRun(up, p, b, r + tail);
    BlocksSplit(up, names, arranged, i);
    assert p + b + (r + tail) == p + b + r + tail;
  }

  lemma {:induction false} BlockTogether(up: char -> char, g: string, x: Driver, y: Driver)
    requires Belongs(up, g, x) && Belongs(up, g, y)
    ensures SameGroup(up, x, y)
  {
  }

  ghost predicate Resolved(up: char -> char, arranged: seq<Driver>, s: seq<Driver>) {
    && |s| == |arranged|
    && multiset(s) == multiset(arranged)
    && forall a: nat, b: nat :: IsRun(up, arranged, a, b) ==> Ordered(arranged, s, a, b)
  }

  lemma {:induction false} ResolvedBlock(up: char -> char, names: seq<string>, arranged: seq<Driver>, s: seq<Driver>, i: nat)
    requires Named(names) && Distinct(up, names) && i < |names| && Grouped(up, names, arranged)
    requires Resolved(up, arranged, s)
    ensures BlockLoaded(up, names, arranged, s, i)
  {
    hide Named, Distinct, IsRun, InGroup, Grouped, Blocks, Filter, TagSorted;
    if Filter(InGroup(up, names[i]), arranged) == [] {
      BlocksSplit(up, names, arranged, i);
      GroupedParts(up, names, arranged);
      TagSortedEmpty();
    } else {
      BlockIsRun(up, names, arranged, i);
    }
  }

  lemma {:induction false} TagSortedEmpty()
    ensures TagSorted([])
  {
  }

  /** Which drivers a block holds and where it starts is the same for every permutation. */
  lemma {:induction false} BlockLoadedSame(
      up: char -> char, names: seq<string>, found: seq<Driver>, arranged: seq<Driver>, s: seq<Driver>, i: nat)
    requires BlockLoaded(up, names, arranged, s, i) && multiset(found) == multiset(arranged)
    ensures BlockLoaded(up, names, found, s, i)
  {
    hide Blocks, Filter, TagSorted;
    BlocksPermute(up, names[..i], found, arranged);
    FilterPermutes(InGroup(up, names[i]), found, arranged);
  }

  /** A listed driver and an unlisted one are of different groups. */
  lemma {:induction false} ListedApart(up: char -> char, names: seq<string>, x: Driver, y: Driver)
    requires Named(names) && ListedIn(up, names, x) && !ListedIn(up, names, y)
    ensures !SameGroup(up, x, y)
  {
    var i :| 0 <= i < |names| && Belongs(up, names[i], x);
    BelongsSame(up, names[i], names[i], x, y);
  }

  /** A maximal stretch of the tail is one of the whole, when the tail starts a new group. */
  lemma {:induction false} TailIsRun(up: char -> char, p: seq<Driver>, tail: seq<Driver>, a: nat, b: nat)
    requires IsRun(up, tail, a, b)
    requires forall x, y :: x in p && y in tail ==> !SameGroup(up, x, y)
    ensures IsRun(up, p + tail, |p| + a, |p| + b)
  {
    hide SameGroup;
    var s := p + tail;
    forall k | |p| + a <= k < |p| + b ensures SameGroup(up, s[|p| + a], s[k]) {
      assert s[k] == tail[k - |p|];
    }
    if a == 0 && p != [] {
      assert s[|p| - 1] == p[|p| - 1] && s[|p|] == tail[0];
    }
  }

  lemma {:induction false} OrderedTail(p: seq<Driver>, tail: seq<Driver>, s: seq<Driver>, a: nat, b: nat)
    requires Ordered(p + tail, s, |p| + a, |p| + b)
    ensures Ordered(tail, s[|p|..], a, b)
  {
    hide TagSorted;
    assert (p + tail)[|p| + a..|p| + b] == tail[a..b];
    assert s[|p| + a..|p| + b] == s[|p|..][a..b];
  }

  lemma {:induction false} ResolvedTail(up: char -> char, names: seq<string>, arranged: seq<Driver>, s: seq<Driver>)
    requires Named(names) && Grouped(up, names, arranged) && Resolved(up, arranged, s)
    ensures TailLoaded(up, |Blocks(up, names, arranged)|, Filter(Unlisted(up, names), arranged), s)
  {
    hide Named, IsRun, Ordered, ListedIn, Blocks, SameGroup;
    var p, tail := Blocks(up, names, arranged), Filter(Unlisted(up, names), arranged);
    forall x, y | x in p && y in tail ensures !SameGroup(up, x, y) {
      BlocksMembers(up, names, arranged);
      ListedApart(up, names, x, y);
    }
    forall a: nat, b: nat | IsRun(up, tail, a, b) ensures Ordered(tail, s[|p|..], a, b) {
      TailIsRun(up, p, tail, a, b);
      OrderedTail(p, tail, s, a, b);
    }
  }

  lemma {:induction false} ResolvedLoadOrder(up: char -> char, names: seq<string>, found: seq<Driver>, s: seq<Driver>)
    requires Named(names) && Resolved(up, Arrange(up, names, Reverse(found)), s)
    ensures LoadOrder(up, FirstNames(up, names), found, s)
  {
    hide Distinct, Grouped, Arrange, FirstNames, Blocks, Filter, BlockLoaded, TailLoaded;
    var first, arranged := FirstNames(up, names), Arrange(up, names, Reverse(found));
    ReversePermutes(found);
    ArrangedByGroup(up, names, Reverse(found));
    FirstNamesAre(up, names);
    assert Named(first) by {
      assert forall i :: 0 <= i < |first| ==> first[i] in names;
    }
    assert |s| == |multiset(s)| && |found| == |multiset(found)|;
    forall i | 0 <= i < |first| ensures BlockLoaded(up, first, found, s, i) {
      ResolvedBlock(up, first, arranged, s, i);
      BlockLoadedSame(up, first, found, arranged, s, i);
    }
    ResolvedTail(up, first, arranged, s);
    BlocksPermute(up, first, found, arranged);
  }

  lemma {:induction false} ReversePermutes(s: seq<Driver>)
    ensures multiset(Reverse(s)) == multiset(s)
  {
    if s != [] {
      ReversePermutes(s[1..]);
      assert s == [s[0]] + s[1..];
    }
  }

  /** CmpDoSort's inner loop, with the nodes before `i` handled. */
  ghost predicate Moving(up: char -> char, name: string, was: seq<Driver>, s: seq<Driver>, i: nat) {
    && i <= |s| == |was|
    && s[i..] == was[i..]
    && s[..i] == MoveToFront(up, name, was[..i])
  }

  lemma {:induction false} MovingStart(up: char -> char, name: string, s: seq<Driver>)
    ensures Moving(up, name, s, s, 0)
  {
    assert s[..0] == [] && Reverse<Driver>([]) == [];
  }

  lemma {:induction false} MovingStep(up: char -> char, name: string, was: seq<Driver>, s: seq<Driver>, i: nat)
    requires Moving(up, name, was, s, i) && i < |s|
    ensures Moving(up, name, was, if Belongs(up, name, s[i]) then [s[i]] + s[..i] + s[i + 1..] else s, i + 1)
  {
    hide MoveToFront, Belongs;
    var node, front := s[i], s[..i];
    var r := if Belongs(up, name, node) then [node] + front + s[i + 1..] else s;
    assert node == s[i..][0] == was[i..][0] && was[..i + 1] == was[..i] + [node];
    MoveToFrontSnoc(up, name, was[..i], node);
    assert s[i + 1..] == s[i..][1..] && was[i + 1..] == was[i..][1..];
    assert s[..i + 1] == front + [node];
    assert r[..i + 1] == if Belongs(up, name, node) then [node] + front else front + [node];
    assert r[i + 1..] == s[i + 1..];
  }

  lemma {:induction false} MovingDone(up: char -> char, name: string, was: seq<Driver>, s: seq<Driver>)
    requires Moving(up, name, was, s, |s|)
    ensures s == MoveToFront(up, name, was)
  {
    assert s[..|s|] == s && was[..|s|] == was;
  }

  class DriverList {
    const up: char -> char
    var nodes: seq<Driver>

    constructor (up: char -> char)
      ensures this.up == up && nodes == []
    {
      this.up := up;
      nodes := [];
    }

    /**
      CmpOrderGroup.  The walk inserts a node one place further left than it belongs,
      which undoes part of the order already reached; it still terminates.
      StartNode and EndNode are pointers in the source; they always
      denote the nodes at `first` and `last`.
    */
    method OrderGroup(first: nat, last: nat)
      requires first <= last < |nodes|
      modifies this
      ensures RunOrdered(old(nodes), nodes, first, last)
    {
      WalkStart(nodes, first, last);
      if first == last {
        WalkDone(nodes, nodes, first, last);
        return;
      }
      hide Disorder, Relink, TagSorted, Walking, RunOrdered, Descent;
      var start, end := first, last;
      var cur: nat := first;
      while cur != end
        invariant start == first && end == last
        invariant first <= cur <= last < |nodes| == old(|nodes|)
        invariant Walking(old(nodes), nodes, first, cur, last)
        decreases Disorder(nodes, first, last),
                  if Descent(nodes, cur, last) then 0 else 1,
                  if Descent(nodes, cur, last) then cur else last - cur
      {
        var prev := cur;
        cur := cur + 1;
        if nodes[prev].tag > nodes[cur].tag {
          if cur == end {
            end := prev;
          }
          var spot := SpotFor(start, cur);
          WalkBack(old(nodes), nodes, first, prev, last, spot);
          nodes := Relink(nodes, cur, spot);
          if end == prev {
            end := end + 1;   // the nodes behind the insertion point moved up by one
          }
          cur := spot;
        } else {
          WalkOn(old(nodes), nodes, first, prev, last);
        }
      }
      WalkDone(old(nodes), nodes, first, last);
    }

    /** The inner loop of CmpOrderGroup: back to a node whose tag is not bigger, or to the start. */
    method SpotFor(start: nat, cur: nat) returns (spot: nat)
      requires start < cur < |nodes|
      ensures start <= spot < cur
      ensures forall k :: spot < k < cur ==> nodes[k].tag > nodes[cur].tag
      ensures nodes[spot].tag <= nodes[cur].tag || spot == start
    {
      spot := cur - 1;
      while nodes[spot].tag > nodes[cur].tag && spot != start
        invariant start <= spot < cur
        invariant forall k :: spot < k < cur ==> nodes[k].tag > nodes[cur].tag
        decreases spot
      {
        spot := spot - 1;
      }
    }

    /** CmpResolveDriverDependencies: every maximal stretch of one group is ordered by tag. */
    method ResolveDependencies()
      modifies this
      ensures |nodes| == old(|nodes|) && multiset(nodes) == multiset(old(nodes))
      ensures forall i :: 0 <= i < |nodes| ==> SameGroup(up, nodes[i], old(nodes)[i])
      ensures forall a: nat, b: nat :: IsRun(up, old(nodes), a, b) ==> Ordered(old(nodes), nodes, a, b)
    {
      hide Resolving, SameGroup, RunOrdered, TagSorted, IsRun, Ordered;
      var next := 0;
      ResolvingStart(up, nodes);
      while next < |nodes|
        invariant 0 <= next <= |nodes| == old(|nodes|)
        invariant Resolving(up, old(nodes), nodes, next)
      {
        var start := next;
        var end;
        end, next := LastOfGroup(start);
        ghost var before := nodes;
        OrderGroup(start, end);
        OrderedRun(before, nodes, start, end);
        RoundDone(up, old(nodes), before, nodes, start, next);
      }
      ResolvingDone(up, old(nodes), nodes);
    }

    /** The inner loop of CmpResolveDriverDependencies: how far the group of `start` reaches. */
    method LastOfGroup(start: nat) returns (end: nat, next: nat)
      requires start < |nodes|
      ensures start <= end < next <= |nodes| && next == end + 1
      ensures forall k :: start <= k < next ==> SameGroup(up, nodes[start], nodes[k])
      ensures next == |nodes| || !SameGroup(up, nodes[start], nodes[next])
    {
      next := start;
      while true
        invariant start <= next < |nodes|
        invariant forall k :: start <= k <= next ==> SameGroup(up, nodes[start], nodes[k])
        decreases |nodes| - next
      {
        end := next;
        next := next + 1;
        if next == |nodes| {
          break;
        }
        if !SameGroup(up, nodes[start], nodes[next]) {
          break;
        }
      }
    }

    /** CmpFindDrivers: every driver that qualifies is inserted at the head of the list. */
    method FindDrivers(found: seq<Driver>)
      modifies this
      ensures nodes == Reverse(found) + old(nodes)
    {
      for i := 0 to |found|
        invariant nodes == Reverse(found[..i]) + old(nodes)
      {
        nodes := [found[i]] + nodes;
        assert found[..i + 1] == found[..i] + [found[i]];
        ReverseConcat(found[..i], [found[i]]);
      }
      assert found[..|found|] == found;
    }

    /** One pass of CmpDoSort for one group name. */
    method MoveGroup(name: string)
      modifies this
      ensures nodes == MoveToFront(up, name, old(nodes))
    {
      hide MoveToFront, Moving;
      MovingStart(up, name, nodes);
      for i := 0 to |nodes|
        invariant |nodes| == old(|nodes|) && Moving(up, name, old(nodes), nodes, i)
      {
        MovingStep(up, name, old(nodes), nodes, i);
        var node := nodes[i];
        if node.group.Named? && EqualNames(up, name, node.group.text) {
          nodes := [node] + nodes[..i] + nodes[i + 1..];
        }
      }
      MovingDone(up, name, old(nodes), nodes);
    }

    /** The scan of CmpDoSort that steps back over one name. */
    static method ScanName(order: string, before: char, from: nat) returns (start: nat, end: nat)
      requires 0 < from < |order| && order[from] == NUL
      ensures Scanned(order, from, start, end)
    {
      var current := from;
      end := from;
      while true
        invariant 0 < current <= from
        invariant forall k :: current <= k < from - 1 ==> order[k] != NUL
        invariant current < from ==> order[current - 1] != NUL
        invariant current == from ==> end == from
        invariant current < from ==> end == if current < from - 1 && order[from - 1] == NUL then from - 1 else from
        decreases current
      {
        if order[current] == NUL {
          end := current;
        }
        current := current - 1;
        if CharAt(order, before, current - 1) == NUL || current == 0 {
          break;
        }
      }
      start := current;
    }

    /**
      CmpSortDriverList and CmpDoSort: `order` is the whole registry value.  A value that does
      not end in a terminator is refused; any other arranges the groups that the scan finds.
    */
    method SortByGroups(order: string, before: char) returns (ok: bool)
      modifies this
      ensures ok == (order != [] && order[|order| - 1] == NUL)
      ensures nodes == if ok then Arrange(up, ListNames(order), old(nodes)) else old(nodes)
      ensures multiset(nodes) == multiset(old(nodes))
    {
      if order == [] || order[|order| - 1] != NUL {
        return false;
      }
      hide Arrange, MoveToFront, Scanned, Arranging, ListNames;
      var current: int := |order| - 1;
      ghost var done: seq<string> := [];
      ArrangingStart(up, order, nodes);
      while current > 0
        invariant -1 <= current < |order|
        invariant current >= 0 ==> order[current] == NUL
        invariant multiset(nodes) == multiset(old(nodes))
        invariant Arranging(up, order, old(nodes), nodes, done, current)
      {
        var start, end := ScanName(order, before, current);
        ScannedBounds(order, current, start, end);
        ArrangingStep(up, order, old(nodes), nodes, done, current, start, end);
        MoveToFrontPermutes(up, order[start..end], nodes);
        MoveGroup(order[start..end]);
        done := [order[start..end]] + done;
        current := start as int - 1;
      }
      ArrangingDone(up, order, old(nodes), nodes, done, current);
      ok := true;
    }

    /** The whole of the driver ordering, from the enumeration to the load order. */
    method OrderBootDrivers(found: seq<Driver>, order: string, before: char) returns (ok: bool)
      requires nodes == []
      modifies this
      ensures ok == (order != [] && order[|order| - 1] == NUL)
      ensures !ok ==> nodes == Reverse(found)
      ensures multiset(nodes) == multiset(found)
      ensures ok ==> LoadOrder(up, FirstNames(up, ListNames(order)), found, nodes)
      ensures forall names :: Spells(order, names) ==> ok && LoadOrder(up, FirstNames(up, names), found, nodes)
      ensures forall names :: Spells(order, names) && Distinct(up, names) ==> ok && LoadOrder(up, names, found, nodes)
    {
      hide Spells, Distinct, LoadOrder, FirstNames, Arrange, NamesUpTo, ListNames;
      ReversePermutes(found);
      FindDrivers(found);
      assert nodes == Reverse(found);
      ok := SortByGroups(order, before);
      forall names | Spells(order, names) ensures ok && ListNames(order) == names {
        SpelledNames(order, names);
      }
      if !ok {
        return;
      }
      ghost var arranged := nodes;
      ResolveDependencies();
      assert Resolved(up, arranged, nodes);
      ListNamed(order);
      ResolvedLoadOrder(up, ListNames(order), found, nodes);
      forall names | Spells(order, names) && Distinct(up, names) ensures LoadOrder(up, names, found, nodes) {
        FirstNamesAre(up, names);
      }
    }
  }

  lemma {:induction false} ListNamed(order: string)
    ensures Named(ListNames(order))
  {
    NamesNotEmpty(order, |order| - 1);
    assert forall i :: 0 <= i < |ListNames(order)| ==> ListNames(order)[i] in ListNames(order);
  }
}
