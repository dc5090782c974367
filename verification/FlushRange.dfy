/**
  Flushing a range of a file (CcFlushCache in ntoskrnl/cc/view.c): the range is cut at the
  boundaries of the views, and each part goes to MmFlushSegment, either as the whole of a
  dirty view or as the bytes asked for.
*/
module FlushRange {
  import opened Common
  import opened VacbList

  datatype Found = NoVacb | CleanVacb | DirtyVacb

  datatype FlushStatus = Flushed | AddOverflow | FlushFailed

  /** One call of MmFlushSegment that has succeeded. */
  datatype Range = Range(start: nat, length: nat)

  predicate Contains(r: Range, x: int) {
    r.start <= x < r.start + r.length
  }

  ghost predicate Covered(ranges: seq<Range>, x: int) {
    exists i :: 0 <= i < |ranges| && Contains(ranges[i], x)
  }

  ghost predicate AllCovered(ranges: seq<Range>, start: int, end: int) {
    forall x :: start <= x < end ==> Covered(ranges, x)
  }

  /** The range is not empty and lies inside one view. */
  predicate InView(r: Range) {
    0 < r.length && r.start + r.length <= RoundDown(r.start) + Granularity
  }

  ghost predicate InViews(ranges: seq<Range>) {
    forall i :: 0 <= i < |ranges| ==> InView(ranges[i])
  }

  lemma {:induction false} CoverMore(ranges: seq<Range>, r: Range, start: int, reached: int, next: int)
    requires AllCovered(ranges, start, reached)
    requires forall x :: reached <= x < next ==> Contains(r, x)
    ensures AllCovered(ranges + [r], start, next)
  {
    var more := ranges + [r];
    forall x | start <= x < next ensures Covered(more, x) {
      if x < reached {
        assert Covered(ranges, x);
        var i :| 0 <= i < |ranges| && Contains(ranges[i], x);
        assert more[i] == ranges[i];
      } else {
        assert more[|ranges|] == r && Contains(r, x);
      }
    }
  }

  lemma {:induction false} ChunkStart(x: nat)
    ensures 0 <= RoundDown(x) <= x < RoundDown(x) + Granularity && Aligned(RoundDown(x))
    ensures RoundDown(x + Granularity) == RoundDown(x) + Granularity
  {
  }

  lemma {:induction false} RoundedStays(x: int)
    requires Aligned(x)
    ensures RoundDown(x) == x
  {
  }

  /** The last view of the 63-bit offsets ends just behind the largest one. */
  lemma {:induction false} LastChunk(x: nat)
    requires x <= MaxLongLong && x + Granularity > MaxLongLong
    ensures RoundDown(x) + Granularity == MaxLongLong + 1
  {
    RoundDownCovers(x);
    assert Aligned(MaxLongLong + 1 - Granularity) && VacbList.InRange(MaxLongLong + 1 - Granularity, x);
  }

  /** What is flushed for the chunk of `at` in a range that ends at `end`. */
  function Part(found: Found, at: nat, end: nat): (r: Range)
    requires at < end
  {
    if found == DirtyVacb then Range(RoundDown(at), Granularity)
    else if end - end % Granularity <= at then Range(at, end - at)
    else Range(at, Granularity - at % Granularity)
  }

  /** It reaches to the end of the chunk, or of the range. */
  lemma {:induction false} PartCovers(found: Found, at: nat, end: nat)
    requires at < end
    ensures forall x :: at <= x < end && x < RoundDown(at) + Granularity ==> Contains(Part(found, at, end), x)
    ensures InView(Part(found, at, end))
  {
    ChunkStart(at);
    ChunkStart(end);
    if end - end % Granularity <= at {
      assert RoundDown(end) <= at < end;
      RoundDownCovers(at);
      assert VacbList.InRange(RoundDown(end), at);
    }
  }

  lemma {:induction false} NothingYet(start: int)
    ensures AllCovered([], start, start)
  {
  }

  lemma {:induction false} InViewsMore(ranges: seq<Range>, r: Range)
    requires InViews(ranges) && InView(r)
    ensures InViews(ranges + [r])
  {
    hide InView;
  }

  /** Where turn `t` starts: the first one at `offset`, each later one at the next view. */
  function TurnStart(offset: nat, t: nat): nat {
    if t == 0 then offset else RoundDown(offset) + t * Granularity
  }

  lemma {:induction false} TurnsRise(offset: nat, t: nat, u: nat)
    requires t <= u
    ensures TurnStart(offset, t) <= TurnStart(offset, u)
  {
    ChunkStart(offset);
  }

  lemma {:induction false} NextStart(offset: nat, t: nat)
    ensures TurnStart(offset, t + 1) == RoundDown(TurnStart(offset, t)) + Granularity
  {
    ChunkStart(offset);
  }

  /** Every turn that the range needs succeeds. */
  ghost predicate AllFlushed(offset: nat, end: nat, flushed: nat -> bool) {
    forall t: nat :: TurnStart(offset, t) < end ==> flushed(t)
  }

  lemma {:induction false} AllDone(offset: nat, end: nat, flushed: nat -> bool, n: nat)
    requires end <= TurnStart(offset, n) && forall i :: 0 <= i < n ==> flushed(i)
    ensures AllFlushed(offset, end, flushed)
  {
    hide TurnStart;
    forall t: nat | TurnStart(offset, t) < end ensures flushed(t) {
      if n <= t {
        TurnsRise(offset, n, t);
      }
    }
  }

  /** What each turn has flushed. */
  ghost predicate Parts(ranges: seq<Range>, offset: nat, end: nat, found: nat -> Found) {
    forall i :: 0 <= i < |ranges| ==> TurnStart(offset, i) < end && ranges[i] == Part(found(i), TurnStart(offset, i), end)
  }

  lemma {:induction false} PartsMore(ranges: seq<Range>, offset: nat, end: nat, found: nat -> Found)
    requires Parts(ranges, offset, end, found) && TurnStart(offset, |ranges|) < end
    ensures Parts(ranges + [Part(found(|ranges|), TurnStart(offset, |ranges|), end)], offset, end, found)
  {
    hide TurnStart, Part;
  }

  /**
    The loop of CcFlushCache.  `found` tells what the lookup finds at each turn, `flushed`
    whether the flush of that turn succeeds; both may be anything.
  */
  method FlushCache(offset: nat, length: nat, found: nat -> Found, flushed: nat -> bool)
    returns (status: FlushStatus, ranges: seq<Range>)
    requires offset <= MaxLongLong
    ensures status == AddOverflow <==> offset + length > MaxLongLong
    ensures status == AddOverflow ==> ranges == []
    ensures status == Flushed <==> offset + length <= MaxLongLong && AllFlushed(offset, offset + length, flushed)
    ensures status == Flushed ==> AllCovered(ranges, offset, offset + length) && offset + length <= TurnStart(offset, |ranges|)
    ensures status == FlushFailed ==> TurnStart(offset, |ranges|) < offset + length && !flushed(|ranges|)
    ensures status == FlushFailed ==> AllCovered(ranges, offset, TurnStart(offset, |ranges|))
    ensures forall i :: 0 <= i < |ranges| ==> flushed(i)
    ensures Parts(ranges, offset, offset + length, found) && InViews(ranges)
  {
    hide AllCovered, RoundDown, Part, Contains, InView, TurnStart, AllFlushed;
    ranges := [];
    if offset + length > MaxLongLong {
      return AddOverflow, ranges;
    }
    var at, end := offset, offset + length;
    var turn := 0;
    NothingYet(offset);
    FirstStart(offset);
    while at < end
      invariant 0 <= at <= MaxLongLong && turn == |ranges| && InViews(ranges)
      invariant AllCovered(ranges, offset, if at < end then at else end)
      invariant at == TurnStart(offset, turn) && Parts(ranges, offset, end, found)
      invariant forall i :: 0 <= i < |ranges| ==> flushed(i)
      decreases end - at
    {
      if !flushed(turn) {
        NotAll(offset, end, flushed, turn);
        return FlushFailed, ranges;
      }
      var r := Part(found(turn), at, end);
      PartCovers(found(turn), at, end);
      ChunkStart(at);
      NextStart(offset, turn);
      PartsMore(ranges, offset, end, found);
      var next := RoundDown(at) + Granularity;
      CoverMore(ranges, r, offset, at, if next < end then next else end);
      InViewsMore(ranges, r);
      ranges := ranges + [r];
      if at + Granularity > MaxLongLong {
        LastChunk(at);
        break;
      }
      at := RoundDown(at + Granularity);
      turn := turn + 1;
    }
    AllDone(offset, end, flushed, |ranges|);
    return Flushed, ranges;
  }

  lemma {:induction false} FirstStart(offset: nat)
    ensures TurnStart(offset, 0) == offset
  {
  }

  lemma {:induction false} NotAll(offset: nat, end: nat, flushed: nat -> bool, t: nat)
    requires TurnStart(offset, t) < end && !flushed(t)
    ensures !AllFlushed(offset, end, flushed)
  {
    hide TurnStart;
  }
}
