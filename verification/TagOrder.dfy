/**
  Sorting one stretch of drivers by tag: the measure and the invariant of CmpOrderGroup
  (ntoskrnl/config/cmboot.c).
*/
module TagOrder {
  import opened Drivers

  ghost predicate TagSorted(s: seq<Driver>) {
    forall i, j :: 0 <= i < j < |s| ==> s[i].tag <= s[j].tag
  }

  /** The nodes `first..last` are now in tag order; no other node has moved. */
  ghost predicate RunOrdered(was: seq<Driver>, s: seq<Driver>, first: nat, last: nat) {
    && first <= last < |s| == |was|
    && s[..first] == was[..first]
    && s[last + 1..] == was[last + 1..]
    && multiset(s[first..last + 1]) == multiset(was[first..last + 1])
    && TagSorted(s[first..last + 1])
  }

  // ----- inversions: the measure behind CmpOrderGroup -----

  /** How many drivers of `s` have a tag below `t`. */
  ghost function Below(s: seq<Driver>, t: nat): nat {
    if s == [] then 0 else (if s[0].tag < t then 1 else 0) + Below(s[1..], t)
  }

  /** How many drivers of `s` have a tag above `t`. */
  ghost function Above(s: seq<Driver>, t: nat): nat {
    if s == [] then 0 else (if s[0].tag > t then 1 else 0) + Above(s[1..], t)
  }

  ghost function Inversions(s: seq<Driver>): nat {
    if s == [] then 0 else Below(s[1..], s[0].tag) + Inversions(s[1..])
  }

  lemma {:induction false} BelowConcat(a: seq<Driver>, b: seq<Driver>, t: nat)
    ensures Below(a + b, t) == Below(a, t) + Below(b, t)
  {
    if a == [] {
      assert a + b == b;
    } else {
      BelowConcat(a[1..], b, t);
      assert (a + b)[1..] == a[1..] + b;
    }
  }

  lemma {:induction false} InversionsCons(y: Driver, s: seq<Driver>)
    ensures Inversions([y] + s) == Below(s, y.tag) + Inversions(s)
  {
    assert ([y] + s)[1..] == s;
  }

  lemma {:induction false} BelowSwap(b: seq<Driver>, x: Driver, c: seq<Driver>, t: nat)
    ensures Below([x] + b + c, t) == Below(b + [x] + c, t)
  {
    BelowConcat([x] + b, c, t);
    BelowConcat([x], b, t);
    BelowConcat(b + [x], c, t);
    BelowConcat(b, [x], t);
  }

  lemma {:induction false} InversionsTwo(x: Driver, y: Driver, s: seq<Driver>)
    ensures Inversions([x] + ([y] + s)) + (if y.tag > x.tag then 1 else 0)
         == Inversions([y] + ([x] + s)) + (if y.tag < x.tag then 1 else 0)
  {
    InversionsCons(x, [y] + s);
    InversionsCons(y, s);
    InversionsCons(y, [x] + s);
    InversionsCons(x, s);
    BelowConcat([y], s, x.tag);
    BelowConcat([x], s, y.tag);
  }

  /** Moving `x` from behind the stretch `b` to in front of it. */
  lemma {:induction false} InversionsHop(b: seq<Driver>, x: Driver, c: seq<Driver>)
    ensures Inversions([x] + b + c) + Above(b, x.tag) == Inversions(b + [x] + c) + Below(b, x.tag)
  {
    if b == [] {
      assert [x] + b + c == b + [x] + c;
    } else {
      var y, b' := b[0], b[1..];
      assert [x] + b + c == [x] + ([y] + (b' + c));
      InversionsTwo(x, y, b' + c);
      assert [x] + b' + c == [x] + (b' + c);
      InversionsCons(y, [x] + b' + c);
      BelowSwap(b', x, c, y.tag);
      assert b + [x] + c == [y] + (b' + [x] + c);
      InversionsCons(y, b' + [x] + c);
      InversionsHop(b', x, c);
    }
  }

  lemma {:induction false} InversionsMove(a: seq<Driver>, b: seq<Driver>, x: Driver, c: seq<Driver>)
    ensures Inversions(a + ([x] + b + c)) + Above(b, x.tag) == Inversions(a + (b + [x] + c)) + Below(b, x.tag)
  {
    var s, t := [x] + b + c, b + [x] + c;
    if a == [] {
      assert a + s == s && a + t == t;
      InversionsHop(b, x, c);
    } else {
      var y, a' := a[0], a[1..];
      InversionsMove(a', b, x, c);
      assert a + s == [y] + (a' + s) && a + t == [y] + (a' + t);
      InversionsCons(y, a' + s);
      InversionsCons(y, a' + t);
      BelowConcat(a', s, y.tag);
      BelowConcat(a', t, y.tag);
      BelowSwap(b, x, c, y.tag);
    }
  }

  lemma {:induction false} AllAbove(s: seq<Driver>, t: nat)
    requires forall d :: d in s ==> d.tag > t
    ensures Above(s, t) == |s| && Below(s, t) == 0
  {
    if s != [] {
      AllAbove(s[1..], t);
    }
  }

  /** RemoveEntryList of the node at `from`, then InsertTailList in front of the node at `to`. */
  function Relink(s: seq<Driver>, from: nat, to: nat): (r: seq<Driver>)
    requires to <= from < |s|
    ensures |r| == |s|
  {
    s[..to] + ([s[from]] + s[to..from] + s[from + 1..])
  }

  lemma {:induction false} RelinkAt(s: seq<Driver>, from: nat, to: nat)
    requires to <= from < |s|
    ensures |Relink(s, from, to)| == |s| && Relink(s, from, to)[to] == s[from]
    ensures forall k :: (0 <= k < to || from < k < |s|) ==> Relink(s, from, to)[k] == s[k]
    ensures forall k {:trigger Relink(s, from, to)[k]} :: to < k <= from ==> Relink(s, from, to)[k] == s[k - 1]
  {
  }

  lemma {:induction false} RelinkPermutes(s: seq<Driver>, from: nat, to: nat)
    requires to <= from < |s|
    ensures multiset(Relink(s, from, to)) == multiset(s)
  {
    assert s == s[..to] + (s[to..from] + [s[from]] + s[from + 1..]);
  }

  lemma {:induction false} RelinkInversions(s: seq<Driver>, from: nat, to: nat)
    requires to <= from < |s|
    ensures Inversions(Relink(s, from, to)) + Above(s[to..from], s[from].tag)
         == Inversions(s) + Below(s[to..from], s[from].tag)
  {
    var a, b, x, c := s[..to], s[to..from], s[from], s[from + 1..];
    InversionsMove(a, b, x, c);
    var before, after := a + (b + [x] + c), a + ([x] + b + c);
    assert s == before;
    assert Relink(s, from, to) == after;
  }

  /** The next node has a smaller tag than the node at `cur`. */
  ghost predicate Descent(s: seq<Driver>, cur: nat, last: nat) {
    cur < last < |s| && s[cur].tag > s[cur + 1].tag
  }

  lemma {:induction false} HopBalance(b: seq<Driver>, t: nat)
    requires b != [] && b[|b| - 1].tag > t
    requires forall k :: 0 < k < |b| ==> b[k].tag > t
    ensures Above(b, t) > Below(b, t) || (|b| == 2 && b[0].tag < t && Above(b, t) == Below(b, t))
  {
    AllAbove(b[1..], t);
  }

  /**
    One relink step of CmpOrderGroup: the node at `from` goes in front of the node at `to`.
    Either the run loses an inversion, or it keeps the number and the node that
    follows the moved one is again out of order, one place further left.
  */
  lemma {:induction false} RelinkStep(s: seq<Driver>, from: nat, to: nat)
    requires to < from < |s|
    requires s[from - 1].tag > s[from].tag
    requires forall k :: to < k < from ==> s[k].tag > s[from].tag
    ensures var r := Relink(s, from, to);
      || Inversions(r) < Inversions(s)
      || (Inversions(r) == Inversions(s) && to == from - 2 && s[from].tag > s[to].tag)
  {
    RelinkInversions(s, from, to);
    RelinkAt(s, from, to);
    HopBalance(s[to..from], s[from].tag);
  }

  /** Relinking inside a window touches the window only. */
  lemma {:induction false} RelinkWindow(s: seq<Driver>, first: nat, last: nat, from: nat, to: nat)
    requires first <= to <= from <= last < |s|
    ensures var r := Relink(s, from, to);
      && r[..first] == s[..first]
      && r[last + 1..] == s[last + 1..]
      && r[first..last + 1] == Relink(s[first..last + 1], from - first, to - first)
      && r[first..to + 1] == s[first..to] + [s[from]]
  {
    hide Relink;
    RelinkAt(s, from, to);
    RelinkInside(s, first, last, from, to);
  }

  lemma {:induction false} RelinkInside(s: seq<Driver>, first: nat, last: nat, from: nat, to: nat)
    requires first <= to <= from <= last < |s|
    ensures Relink(s, from, to)[first..last + 1] == Relink(s[first..last + 1], from - first, to - first)
  {
    hide Relink;
    var window := s[first..last + 1];
    var r, w := Relink(s, from, to), Relink(window, from - first, to - first);
    RelinkAt(s, from, to);
    RelinkAt(window, from - first, to - first);
    forall k | 0 <= k < |window| ensures r[first + k] == w[k] {
      if to <= first + k <= from {
        assert k == to - first || window[k - 1] == s[first + k - 1];
      } else {
        assert window[k] == s[first + k];
      }
    }
    assert r[first..last + 1] == w;
  }

  /** The conditions for a relink step, seen inside a window. */
  lemma {:induction false} StepInWindow(s: seq<Driver>, first: nat, last: nat, from: nat, to: nat)
    requires first <= to < from <= last < |s|
    requires s[from - 1].tag > s[from].tag
    requires forall k :: to < k < from ==> s[k].tag > s[from].tag
    ensures var run := s[first..last + 1];
      && run[from - first] == s[from] && run[to - first] == s[to]
      && run[from - first - 1].tag > run[from - first].tag
      && (forall k {:trigger run[k]} :: to - first < k < from - first ==> run[k].tag > run[from - first].tag)
  {
    var run := s[first..last + 1];
    forall k {:trigger run[k]} | to - first < k < from - first ensures run[k].tag > s[from].tag {
      assert run[k] == s[first + k];
    }
  }

  lemma {:induction false} WindowStep(s: seq<Driver>, first: nat, last: nat, from: nat, to: nat)
    requires first <= to < from <= last < |s|
    requires s[from - 1].tag > s[from].tag
    requires forall k :: to < k < from ==> s[k].tag > s[from].tag
    ensures var run := s[first..last + 1];
      var r := Relink(run, from - first, to - first);
      && multiset(r) == multiset(run)
      && (|| Inversions(r) < Inversions(run)
          || (Inversions(r) == Inversions(run) && to == from - 2 && s[from].tag > s[to].tag))
  {
    hide *;
    var run := s[first..last + 1];
    StepInWindow(s, first, last, from, to);
    RelinkPermutes(run, from - first, to - first);
    RelinkStep(run, from - first, to - first);
  }

  /** What CmpOrderGroup keeps: the run up to the current node is in tag order. */
  ghost predicate Walking(was: seq<Driver>, s: seq<Driver>, first: nat, cur: nat, last: nat) {
    && first <= cur <= last < |s| == |was|
    && s[..first] == was[..first]
    && s[last + 1..] == was[last + 1..]
    && multiset(s[first..last + 1]) == multiset(was[first..last + 1])
    && TagSorted(s[first..cur + 1])
  }

  lemma {:induction false} WalkStart(s: seq<Driver>, first: nat, last: nat)
    requires first <= last < |s|
    ensures Walking(s, s, first, first, last)
  {
  }

  lemma {:induction false} WalkDone(was: seq<Driver>, s: seq<Driver>, first: nat, last: nat)
    requires Walking(was, s, first, last, last)
    ensures RunOrdered(was, s, first, last)
  {
  }

  lemma {:induction false} WalkOn(was: seq<Driver>, s: seq<Driver>, first: nat, cur: nat, last: nat)
    requires Walking(was, s, first, cur, last)
    requires cur < last && s[cur].tag <= s[cur + 1].tag
    ensures Walking(was, s, first, cur + 1, last)
  {
    var p, q := s[first..cur + 1], s[first..cur + 2];
    assert q == p + [s[cur + 1]] && p[cur - first] == s[cur];
  }

  lemma {:induction false} WalkBack(was: seq<Driver>, s: seq<Driver>, first: nat, cur: nat, last: nat, to: nat)
    requires Walking(was, s, first, cur, last)
    requires Descent(s, cur, last)
    requires first <= to <= cur
    requires forall k :: to < k <= cur ==> s[k].tag > s[cur + 1].tag
    requires s[to].tag <= s[cur + 1].tag || to == first
    ensures Walking(was, Relink(s, cur + 1, to), first, to, last)
    ensures Closer(s, Relink(s, cur + 1, to), first, last, cur, to)
  {
    hide Inversions, Relink;
    WindowStep(s, first, last, cur + 1, to);
    WalkBackWindow(s, first, cur, last, to);
    WalkBackSorted(s, first, cur, to);
  }

  /** A relink that moves the walk towards its end: fewer inversions, or a descent further left. */
  ghost predicate Closer(s: seq<Driver>, r: seq<Driver>, first: nat, last: nat, cur: nat, to: nat) {
    || Disorder(r, first, last) < Disorder(s, first, last)
    || (&& Disorder(r, first, last) == Disorder(s, first, last)
        && to < cur
        && Descent(r, to, last))
  }

  /** The inversions inside the run. */
  ghost function Disorder(s: seq<Driver>, first: nat, last: nat): nat {
    if first <= last < |s| then Inversions(s[first..last + 1]) else 0
  }

  lemma {:induction false} WalkBackWindow(s: seq<Driver>, first: nat, cur: nat, last: nat, to: nat)
    requires first <= to <= cur < last < |s|
    ensures var r := Relink(s, cur + 1, to);
      && |r| == |s|
      && r[..first] == s[..first]
      && r[last + 1..] == s[last + 1..]
      && r[first..last + 1] == Relink(s[first..last + 1], cur + 1 - first, to - first)
      && r[first..to + 1] == s[first..to] + [s[cur + 1]]
      && r[to] == s[cur + 1]
      && (to < cur ==> r[to + 1] == s[to])
  {
    RelinkWindow(s, first, last, cur + 1, to);
    RelinkAt(s, cur + 1, to);
  }

  lemma {:induction false} WalkBackSorted(s: seq<Driver>, first: nat, cur: nat, to: nat)
    requires first <= to <= cur && cur + 1 < |s|
    requires TagSorted(s[first..cur + 1])
    requires s[to].tag <= s[cur + 1].tag || to == first
    ensures TagSorted(s[first..to] + [s[cur + 1]])
  {
    var p := s[first..cur + 1];
    forall k | first <= k < to ensures s[k].tag <= s[cur + 1].tag {
      assert p[k - first].tag <= p[to - first].tag;
    }
    assert s[first..to] == p[..to - first];
  }
}
