/**
  Deferred writes (CcPostDeferredWrites in ntoskrnl/cc/copy.c): writes that had to wait are
  taken from the head of a queue and posted if they may go now; the others are put back.
*/
module DeferredWrites {
  import opened Seqs

  /** `limit` is LimitModifiedPages: the pass goes on behind such a write. */
  datatype Deferred = Deferred(id: nat, limit: bool)

  /** What one pass makes of a queue; `can` tells for each turn whether CcCanIWrite agrees. */
  datatype Outcome = Outcome(posted: seq<Deferred>, kept: seq<Deferred>, rest: seq<Deferred>)

  function Pass(q: seq<Deferred>, can: nat -> bool, turn: nat): Outcome
    decreases |q|
  {
    if q == [] then Outcome([], [], [])
    else if can(turn) then
      var o := Pass(q[1..], can, turn + 1);
      o.(posted := [q[0]] + o.posted)
    else if !q[0].limit then Outcome([], [q[0]], q[1..])
    else
      var o := Pass(q[1..], can, turn + 1);
      o.(kept := [q[0]] + o.kept)
  }

  /** Nothing is lost and nothing is posted twice. */
  lemma {:induction false} PassConserves(q: seq<Deferred>, can: nat -> bool, turn: nat)
    ensures var o := Pass(q, can, turn); multiset(o.posted) + multiset(o.kept) + multiset(o.rest) == multiset(q)
    decreases |q|
  {
    if q != [] {
      assert q == [q[0]] + q[1..];
      if can(turn) || q[0].limit {
        PassConserves(q[1..], can, turn + 1);
      }
    }
  }

  /** The pass leaves writes untried exactly behind a write that it kept and that is not limited. */
  lemma {:induction false} PassStops(q: seq<Deferred>, can: nat -> bool, turn: nat)
    ensures var o := Pass(q, can, turn);
            && (o.rest != [] ==> o.kept != [] && !o.kept[|o.kept| - 1].limit)
            && (forall i :: 0 <= i < |o.kept| - 1 ==> o.kept[i].limit)
    decreases |q|
  {
    if q != [] && (can(turn) || q[0].limit) {
      PassStops(q[1..], can, turn + 1);
    }
  }

  class WriteQueue {
    var queue: seq<Deferred>

    /** The writes that were kept come back in reverse order. */
    method PostDeferredWrites(can: nat -> bool) returns (posted: seq<Deferred>)
      modifies this
      ensures posted == Pass(old(queue), can, 0).posted
      ensures queue == Reverse(Pass(old(queue), can, 0).kept) + Pass(old(queue), can, 0).rest
    {
      hide Reverse;
      ghost var all := Pass(queue, can, 0);
      var back: seq<Deferred> := [];
      ghost var kept: seq<Deferred> := [];
      posted := [];
      var turn := 0;
      ReverseNothing();
      JoinedNothing(all);
      while queue != []
        invariant back == Reverse(kept) && all == Joined(posted, kept, Pass(queue, can, turn))
        decreases |queue|
      {
        var w := queue[0];
        queue := queue[1..];
        turn := turn + 1;
        if can(turn - 1) {
          JoinedPosted(posted, w, kept, Pass(queue, can, turn));
          posted := posted + [w];
          continue;
        }
        JoinedKept(posted, kept, w, if w.limit then Pass(queue, can, turn) else Outcome([], [], queue));
        ReverseSnoc(kept, w);
        back, kept := [w] + back, kept + [w];
        if !w.limit {
          break;
        }
      }
      assert posted + [] == posted && kept + [] == kept;
      PutBack(back);
    }

    method PutBack(kept: seq<Deferred>)
      modifies this
      ensures queue == kept + old(queue)
    {
      var back := kept;
      while back != []
        invariant |back| <= |kept| && back == kept[..|back|] && queue == kept[|back|..] + old(queue)
      {
        var w := back[|back| - 1];
        back := back[..|back| - 1];
        queue := [w] + queue;
      }
    }
  }

  lemma {:induction false} ReverseNothing()
    ensures Reverse<Deferred>([]) == []
  {
  }

  lemma {:induction false} ReverseSnoc(s: seq<Deferred>, w: Deferred)
    ensures Reverse(s + [w]) == [w] + Reverse(s)
  {
    ReverseConcat(s, [w]);
  }

  lemma {:induction false} JoinedNothing(o: Outcome)
    ensures Joined([], [], o) == o
  {
    assert [] + o.posted == o.posted && [] + o.kept == o.kept;
  }

  ghost function Joined(posted: seq<Deferred>, kept: seq<Deferred>, o: Outcome): Outcome {
    Outcome(posted + o.posted, kept + o.kept, o.rest)
  }

  lemma {:induction false} JoinedPosted(posted: seq<Deferred>, w: Deferred, kept: seq<Deferred>, o: Outcome)
    ensures Joined(posted, kept, o.(posted := [w] + o.posted)) == Joined(posted + [w], kept, o)
  {
    assert posted + ([w] + o.posted) == posted + [w] + o.posted;
  }

  lemma {:induction false} JoinedKept(posted: seq<Deferred>, kept: seq<Deferred>, w: Deferred, o: Outcome)
    ensures Joined(posted, kept, o.(kept := [w] + o.kept)) == Joined(posted, kept + [w], o)
  {
    assert kept + ([w] + o.kept) == kept + [w] + o.kept;
  }

  ghost predicate Refused(q: seq<Deferred>, can: nat -> bool, turn: nat, i: nat) {
    i < |q| && !can(turn + i)
  }

  /** The first write to be refused limits modified pages, and a later one is refused too. */
  ghost predicate Reorders(q: seq<Deferred>, can: nat -> bool, turn: nat) {
    exists i: nat, j: nat ::
      && i < j && Refused(q, can, turn, i) && Refused(q, can, turn, j)
      && q[i].limit && forall k: nat :: k < i ==> !Refused(q, can, turn, k)
  }

  lemma {:induction false} KeepsAny(q: seq<Deferred>, can: nat -> bool, turn: nat)
    ensures Pass(q, can, turn).kept != [] <==> exists i: nat :: Refused(q, can, turn, i)
    decreases |q|
  {
    if q != [] {
      if can(turn) {
        var rest, next := q[1..], turn + 1;
        KeepsAny(rest, can, next);
        if i: nat :| Refused(q, can, turn, i) {
          assert Refused(rest, can, next, i - 1);
        }
        if i: nat :| Refused(rest, can, next, i) {
          assert Refused(q, can, turn, i + 1);
        }
      } else {
        assert Refused(q, can, turn, 0);
      }
    }
  }

  lemma {:induction false} KeepsTwo(q: seq<Deferred>, can: nat -> bool, turn: nat)
    ensures |Pass(q, can, turn).kept| >= 2 <==> Reorders(q, can, turn)
    decreases |q|
  {
    if q != [] {
      var rest, next := q[1..], turn + 1;
      if can(turn) {
        KeepsTwo(rest, can, next);
        LaterReorders(q, can, turn, rest, next);
      } else {
        assert Refused(q, can, turn, 0);
        if q[0].limit {
          KeepsAny(rest, can, next);
          if j: nat :| Refused(rest, can, next, j) {
            assert Refused(q, can, turn, j + 1);
          }
          if Reorders(q, can, turn) {
            var i: nat, j: nat :| i < j && Refused(q, can, turn, i) && Refused(q, can, turn, j);
            assert Refused(rest, can, next, j - 1);
          }
        }
      }
    }
  }

  lemma {:induction false} LaterReorders(q: seq<Deferred>, can: nat -> bool, turn: nat, rest: seq<Deferred>, next: nat)
    requires q != [] && can(turn) && rest == q[1..] && next == turn + 1
    ensures Reorders(q, can, turn) <==> Reorders(rest, can, next)
  {
    assert !Refused(q, can, turn, 0);
    if Reorders(q, can, turn) {
      var i: nat, j: nat :| i < j && Refused(q, can, turn, i) && Refused(q, can, turn, j)
                            && q[i].limit && forall k: nat :: k < i ==> !Refused(q, can, turn, k);
      assert Refused(rest, can, next, i - 1) && Refused(rest, can, next, j - 1) && rest[i - 1].limit;
      forall k: nat | k < i - 1 ensures !Refused(rest, can, next, k) {
        assert !Refused(q, can, turn, k + 1);
      }
    }
    if Reorders(rest, can, next) {
      var i: nat, j: nat :| i < j && Refused(rest, can, next, i) && Refused(rest, can, next, j)
                            && rest[i].limit && forall k: nat :: k < i ==> !Refused(rest, can, next, k);
      assert Refused(q, can, turn, i + 1) && Refused(q, can, turn, j + 1) && q[i + 1].limit;
      forall k: nat | k < i + 1 ensures !Refused(q, can, turn, k) {
        if k > 0 {
          assert !Refused(rest, can, next, k - 1);
        }
      }
    }
  }

  /** What a queue would be that kept its order. */
  ghost function InOrder(q: seq<Deferred>, can: nat -> bool): seq<Deferred> {
    var o := Pass(q, can, 0);
    o.kept + o.rest
  }

  /**
    The writes that wait on keep their order if and only if it is not the case that the first
    write to be refused limits modified pages and another one behind it is refused.
  */
  lemma {:induction false} OrderKept(q: seq<Deferred>, can: nat -> bool)
    requires NoDup(q)
    ensures var o := Pass(q, can, 0); Reverse(o.kept) + o.rest == InOrder(q, can) <==> !Reorders(q, can, 0)
  {
    hide Reorders;
    var o := Pass(q, can, 0);
    KeepsTwo(q, can, 0);
    if |o.kept| >= 2 {
      KeptNoDup(q, can, 0);
      var n := |o.kept|;
      assert (Reverse(o.kept) + o.rest)[0] == o.kept[n - 1] && (o.kept + o.rest)[0] == o.kept[0];
    } else {
      assert Reverse(o.kept) == o.kept;
    }
  }

  /** Two writes that limit modified pages and are both refused change places. */
  lemma {:induction false} TwoChangePlaces(a: Deferred, b: Deferred, can: nat -> bool)
    requires a != b && a.limit && b.limit && !can(0) && !can(1)
    ensures Reorders([a, b], can, 0)
    ensures var o := Pass([a, b], can, 0); Reverse(o.kept) + o.rest == [b, a]
  {
    var q := [a, b];
    assert Refused(q, can, 0, 0) && Refused(q, can, 0, 1);
    assert q[1..] == [b] && [b][1..] == [];
    assert Pass([], can, 2) == Outcome([], [], []);
    assert Pass([b], can, 1) == Outcome([], [b], []);
  }

  lemma {:induction false} KeptNoDup(q: seq<Deferred>, can: nat -> bool, turn: nat)
    requires NoDup(q)
    ensures NoDup(Pass(q, can, turn).kept) && forall w :: w in Pass(q, can, turn).kept ==> w in q
    decreases |q|
  {
    if q != [] {
      var rest := q[1..];
      assert NoDup(rest) && q[0] !in rest && q[0] in q && forall w :: w in rest ==> w in q;
      if can(turn) || q[0].limit {
        KeptNoDup(rest, can, turn + 1);
      }
    }
  }

  // ----- which writes go, which stay, and in which order -----

  /** The writes of a queue, in order, for which the answers are `yes`. */
  ghost function Chosen(q: seq<Deferred>, can: nat -> bool, turn: nat, yes: bool): seq<Deferred>
    decreases |q|
  {
    if q == [] then [] else (if can(turn) == yes then [q[0]] else []) + Chosen(q[1..], can, turn + 1, yes)
  }

  /** The pass tries the first `n` writes: up to the first that is refused and does not limit modified pages. */
  ghost predicate Tries(q: seq<Deferred>, can: nat -> bool, turn: nat, n: nat) {
    && n <= |q|
    && (forall i :: 0 <= i < n - 1 ==> can(turn + i) || q[i].limit)
    && (n < |q| ==> n > 0 && !can(turn + n - 1) && !q[n - 1].limit)
  }

  /**
    What a pass does to a queue: the writes it tries that are agreed to are posted in queue order,
    those refused are kept in queue order, and the others are left as they stand.
  */
  lemma {:induction false} PassExactly(q: seq<Deferred>, can: nat -> bool, turn: nat) returns (n: nat)
    ensures Tries(q, can, turn, n)
    ensures var o := Pass(q, can, turn);
      o.posted == Chosen(q[..n], can, turn, true) && o.kept == Chosen(q[..n], can, turn, false) && o.rest == q[n..]
    decreases |q|
  {
    if q == [] {
      n := 0;
    } else if !can(turn) && !q[0].limit {
      n := 1;
      assert q[..1] == [q[0]] && q[..1][1..] == [];
    } else {
      var rest := q[1..];
      var m := PassExactly(rest, can, turn + 1);
      n := m + 1;
      assert q[..n] == [q[0]] + rest[..m] && q[..n][1..] == rest[..m] && q[n..] == rest[m..];
      TriesMore(q, can, turn, m);
    }
  }

  lemma {:induction false} TriesMore(q: seq<Deferred>, can: nat -> bool, turn: nat, m: nat)
    requires q != [] && (can(turn) || q[0].limit) && Tries(q[1..], can, turn + 1, m)
    ensures Tries(q, can, turn, m + 1)
  {
    var rest := q[1..];
    forall i | 0 <= i < m ensures can(turn + i) || q[i].limit {
      if i > 0 {
        assert can(turn + 1 + (i - 1)) || rest[i - 1].limit;
      }
    }
    if m == 0 && rest != [] {
      assert false;
    }
  }

  /** Only one number of tries fits, so the outcome of a pass is determined by queue and answers. */
  lemma {:induction false} TriesOnce(q: seq<Deferred>, can: nat -> bool, turn: nat, m: nat, n: nat)
    requires Tries(q, can, turn, m) && Tries(q, can, turn, n)
    ensures m == n
  {
  }
}
