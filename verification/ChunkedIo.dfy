/**
  Cached reads and writes (ntoskrnl/cc/copy.c): CcCopyWrite, CcCopyRead and the cached loop of
  CcZeroData go through a file view by view.  Here the views hold the bytes; what a caller may
  rely on is stated about the flat file that they make up.
*/
module ChunkedIo {
  import opened Common
  import opened VacbList

  type Byte = bv8

  /** How a routine ends: it returns TRUE or FALSE, or raises a status. */
  datatype Exit = ReturnTrue | ReturnFalse | Raise

  /** What the parts of one turn do: any of them may fail, and the copy may fault half way. */
  datatype Turn = Turn(gotVacb: bool, resident: bool, readable: bool, faultAt: Option<nat>, segmentDirty: bool)

  // ----- the flat file -----

  ghost predicate Views(data: map<nat, seq<Byte>>) {
    forall c :: c in data ==> |data[c]| == Granularity
  }

  ghost predicate Mapped(data: map<nat, seq<Byte>>, x: nat) {
    x / Granularity in data
  }

  function ByteAt(data: map<nat, seq<Byte>>, x: nat): Byte
    requires Mapped(data, x) && Views(data)
  {
    data[x / Granularity][x % Granularity]
  }

  function Splice(s: seq<Byte>, i: nat, b: seq<Byte>): (r: seq<Byte>)
    requires i + |b| <= |s|
    ensures |r| == |s| && forall k :: 0 <= k < |s| ==> r[k] == if i <= k < i + |b| then b[k - i] else s[k]
  {
    s[..i] + b + s[i + |b|..]
  }

  /** `data` is `was` with the bytes `b` written at `offset`. */
  ghost predicate Written(was: map<nat, seq<Byte>>, data: map<nat, seq<Byte>>, offset: nat, b: seq<Byte>) {
    && data.Keys == was.Keys && Views(was) && Views(data)
    && forall x: nat :: Mapped(was, x) ==>
         ByteAt(data, x) == if offset <= x < offset + |b| then b[x - offset] else ByteAt(was, x)
  }

  lemma {:induction false} InChunk(x: nat, offset: nat, n: nat)
    requires offset % Granularity + n <= Granularity && offset <= x < offset + n
    ensures x / Granularity == offset / Granularity && x % Granularity == offset % Granularity + (x - offset)
  {
  }

  lemma {:induction false} OutsideChunk(x: nat, offset: nat, n: nat)
    requires offset % Granularity + n <= Granularity && x / Granularity == offset / Granularity
    ensures offset <= x < offset + n <==> offset % Granularity <= x % Granularity < offset % Granularity + n
  {
  }

  lemma {:induction false} WriteInChunk(was: map<nat, seq<Byte>>, offset: nat, b: seq<Byte>)
    requires Views(was) && Mapped(was, offset) && offset % Granularity + |b| <= Granularity
    ensures var c := offset / Granularity;
            Written(was, was[c := Splice(was[c], offset % Granularity, b)], offset, b)
  {
    var c := offset / Granularity;
    var data := was[c := Splice(was[c], offset % Granularity, b)];
    forall x: nat | Mapped(was, x)
      ensures Mapped(data, x) && ByteAt(data, x) == if offset <= x < offset + |b| then b[x - offset] else ByteAt(was, x)
    {
      if x / Granularity == c {
        OutsideChunk(x, offset, |b|);
        if offset <= x < offset + |b| {
          InChunk(x, offset, |b|);
        }
      }
    }
  }

  lemma {:induction false} WrittenTwice(a: map<nat, seq<Byte>>, b: map<nat, seq<Byte>>, c: map<nat, seq<Byte>>, offset: nat, s: seq<Byte>, t: seq<Byte>)
    requires Written(a, b, offset, s) && Written(b, c, offset + |s|, t)
    ensures Written(a, c, offset, s + t)
  {
    forall x: nat | Mapped(a, x)
      ensures Mapped(c, x) && ByteAt(c, x) == if offset <= x < offset + |s + t| then (s + t)[x - offset] else ByteAt(a, x)
    {
      assert Mapped(b, x);
    }
  }

  /** The first `n` bytes of `all` and then the first `k` of a part that follows them. */
  lemma {:induction false} WrittenOn(
      a: map<nat, seq<Byte>>, b: map<nat, seq<Byte>>, c: map<nat, seq<Byte>>, offset: nat, all: seq<Byte>, n: nat, length: nat, k: nat)
    requires k <= length && n + length <= |all|
    requires Written(a, b, offset, all[..n]) && Written(b, c, offset + n, all[n..n + length][..k])
    ensures Written(a, c, offset, all[..n + k])
  {
    hide Written;
    assert all[..n] + all[n..n + length][..k] == all[..n + k];
    WrittenTwice(a, b, c, offset, all[..n], all[n..n + length][..k]);
  }

  /** Every byte of the range is in a view. */
  ghost predicate AllMapped(data: map<nat, seq<Byte>>, offset: nat, end: nat) {
    forall x: nat :: offset <= x < end ==> Mapped(data, x)
  }

  function Chunk(x: nat): nat {
    x / Granularity
  }

  /** The views that a range touches. */
  ghost function ChunksOf(offset: nat, end: nat): set<nat> {
    set x: nat | offset <= x < end :: Chunk(x)
  }

  lemma {:induction false} MarkMore(offset: nat, at: nat, n: nat)
    requires offset <= at && at % Granularity + n <= Granularity && 0 < n
    ensures ChunksOf(offset, at + n) == ChunksOf(offset, at) + {Chunk(at)}
  {
    var all := ChunksOf(offset, at) + {Chunk(at)};
    forall c | c in ChunksOf(offset, at + n) ensures c in all {
      var x: nat :| offset <= x < at + n && Chunk(x) == c;
      if at <= x {
        InChunk(x, at, n);
      }
    }
    assert Chunk(at) in ChunksOf(offset, at + n);
  }

  /** The part of a range of `left` bytes at `at` that lies in one view. */
  function PartLength(at: nat, left: nat): (n: nat)
    ensures n <= left && at % Granularity + n <= Granularity && (0 < left ==> 0 < n)
  {
    if left < Granularity - at % Granularity then left else Granularity - at % Granularity
  }

  // ----- the turns of a loop -----

  datatype Access = Reading | Writing

  /** Where turn `t` starts: the first one at `offset`, each later one at the next view. */
  function TurnAt(offset: nat, t: nat): nat {
    if t == 0 then offset else (offset / Granularity + t) * Granularity
  }

  function TurnLength(offset: nat, end: nat, t: nat): nat {
    var at := TurnAt(offset, t);
    if at < end then PartLength(at, end - at) else 0
  }

  lemma {:induction false} NextTurn(offset: nat, end: nat, t: nat)
    requires TurnAt(offset, t) < end
    ensures var next := TurnAt(offset, t) + TurnLength(offset, end, t);
            next == if TurnAt(offset, t + 1) < end then TurnAt(offset, t + 1) else end
  {
    var at := TurnAt(offset, t);
    assert TurnAt(offset, t + 1) == (at / Granularity + 1) * Granularity;
    assert at == at / Granularity * Granularity + at % Granularity;
  }

  lemma {:induction false} TurnsAscend(offset: nat, t: nat, u: nat)
    requires t <= u
    ensures TurnAt(offset, t) <= TurnAt(offset, u)
  {
  }

  /** Nothing fails in a turn that has `length` bytes to copy. */
  predicate GoesWell(access: Access, turn: Turn, wait: bool, length: nat) {
    && turn.gotVacb && (turn.resident || (wait && turn.readable))
    && (turn.faultAt.None? || turn.faultAt.value >= length)
    && (access == Writing ==> turn.segmentDirty)
  }

  /** How a turn that fails ends the routine, and how many bytes it has copied by then. */
  function FailExit(turn: Turn, wait: bool): Exit {
    if turn.gotVacb && !turn.resident && !wait then ReturnFalse else Raise
  }

  function FailBytes(turn: Turn, wait: bool, length: nat): nat {
    if !turn.gotVacb || (!turn.resident && !(wait && turn.readable)) then 0
    else if turn.faultAt.Some? && turn.faultAt.value < length then turn.faultAt.value
    else length
  }

  ghost predicate WellUpTo(access: Access, offset: nat, end: nat, wait: bool, turns: nat -> Turn, t: nat) {
    forall i: nat :: i < t && TurnAt(offset, i) < end ==> GoesWell(access, turns(i), wait, TurnLength(offset, end, i))
  }

  ghost predicate AllWell(access: Access, offset: nat, end: nat, wait: bool, turns: nat -> Turn) {
    forall t: nat :: TurnAt(offset, t) < end ==> GoesWell(access, turns(t), wait, TurnLength(offset, end, t))
  }

  /** Turn `t` is the first one that fails; the routine ends there, having copied `n` bytes. */
  ghost predicate FailsAt(
      access: Access, offset: nat, end: nat, wait: bool, turns: nat -> Turn, t: nat, exit: Exit, n: nat)
  {
    && TurnAt(offset, t) < end
    && WellUpTo(access, offset, end, wait, turns, t)
    && !GoesWell(access, turns(t), wait, TurnLength(offset, end, t))
    && exit == FailExit(turns(t), wait)
    && n == TurnAt(offset, t) - offset + FailBytes(turns(t), wait, TurnLength(offset, end, t))
  }

  lemma {:induction false} WellSoFar(access: Access, offset: nat, end: nat, wait: bool, turns: nat -> Turn, t: nat)
    requires WellUpTo(access, offset, end, wait, turns, t)
    requires TurnAt(offset, t) < end ==> GoesWell(access, turns(t), wait, TurnLength(offset, end, t))
    ensures WellUpTo(access, offset, end, wait, turns, t + 1)
  {
  }

  lemma {:induction false} WellToTheEnd(access: Access, offset: nat, end: nat, wait: bool, turns: nat -> Turn, t: nat)
    requires WellUpTo(access, offset, end, wait, turns, t) && end <= TurnAt(offset, t)
    ensures AllWell(access, offset, end, wait, turns)
  {
    forall u: nat | TurnAt(offset, u) < end ensures GoesWell(access, turns(u), wait, TurnLength(offset, end, u)) {
      if t <= u {
        TurnsAscend(offset, t, u);
      }
    }
  }

  /** A loop that stands at `at` has done the turns before `t`. */
  ghost predicate AtTurn(access: Access, offset: nat, end: nat, wait: bool, turns: nat -> Turn, t: nat, at: nat) {
    && WellUpTo(access, offset, end, wait, turns, t)
    && if at < end then at == TurnAt(offset, t) else end <= TurnAt(offset, t)
  }

  lemma {:induction false} FirstTurn(access: Access, offset: nat, end: nat, wait: bool, turns: nat -> Turn)
    ensures AtTurn(access, offset, end, wait, turns, 0, offset)
  {
  }

  lemma {:induction false} TurnHere(access: Access, offset: nat, end: nat, wait: bool, turns: nat -> Turn, t: nat, at: nat)
    requires AtTurn(access, offset, end, wait, turns, t, at) && at < end
    ensures at == TurnAt(offset, t) && TurnLength(offset, end, t) == PartLength(at, end - at)
  {
    hide WellUpTo;
  }

  lemma {:induction false} TurnWell(access: Access, offset: nat, end: nat, wait: bool, turns: nat -> Turn, t: nat, at: nat)
    requires AtTurn(access, offset, end, wait, turns, t, at) && at < end
    requires GoesWell(access, turns(t), wait, TurnLength(offset, end, t))
    ensures AtTurn(access, offset, end, wait, turns, t + 1, at + TurnLength(offset, end, t))
  {
    hide WellUpTo, GoesWell;
    WellSoFar(access, offset, end, wait, turns, t);
    NextTurn(offset, end, t);
  }

  lemma {:induction false} TurnFails(
      access: Access, offset: nat, end: nat, wait: bool, turns: nat -> Turn, t: nat, at: nat, exit: Exit, n: nat)
    requires AtTurn(access, offset, end, wait, turns, t, at) && offset <= at < end
    requires !GoesWell(access, turns(t), wait, TurnLength(offset, end, t))
    requires exit == FailExit(turns(t), wait) && n == at - offset + FailBytes(turns(t), wait, TurnLength(offset, end, t))
    ensures FailsAt(access, offset, end, wait, turns, t, exit, n)
    ensures !AllWell(access, offset, end, wait, turns)
  {
    hide WellUpTo, GoesWell;
  }

  lemma {:induction false} TurnsDone(access: Access, offset: nat, end: nat, wait: bool, turns: nat -> Turn, t: nat, at: nat)
    requires AtTurn(access, offset, end, wait, turns, t, at) && end <= at
    ensures AllWell(access, offset, end, wait, turns)
  {
    WellToTheEnd(access, offset, end, wait, turns, t);
  }

  lemma {:induction false} NothingWritten(data: map<nat, seq<Byte>>, offset: nat)
    requires Views(data)
    ensures Written(data, data, offset, [])
  {
  }

  class CachedFile {
    var data: map<nat, seq<Byte>>
    var marked: set<nat>               // views released as dirty
    ghost var held: multiset<nat>      // references taken on views

    /** CcRosReleaseVacb */
    method Release(c: nat, dirty: bool)
      requires held[c] > 0
      modifies this`marked, this`held
      ensures held == old(held) - multiset{c}
      ensures marked == if dirty then old(marked) + {c} else old(marked)
    {
      held := held - multiset{c};
      if dirty {
        marked := marked + {c};
      }
    }

    /**
      One turn of the write loops: `b` is what goes into the view at `at`; `exit` is None if
      the loop goes on.  The first `n` bytes have been written in any case.
    */
    method WriteTurn(at: nat, b: seq<Byte>, wait: bool, turn: Turn) returns (exit: Option<Exit>, n: nat)
      requires Views(data) && Mapped(data, at) && at % Granularity + |b| <= Granularity
      modifies this
      ensures n <= |b| && Written(old(data), data, at, b[..n]) && held == old(held)
      ensures exit.None? ==> n == |b| && marked == old(marked) + {Chunk(at)}
      ensures exit.Some? ==> marked == old(marked) && exit.value == FailExit(turn, wait) && n == FailBytes(turn, wait, |b|)
      ensures exit.None? <==> GoesWell(Writing, turn, wait, |b|)
    {
      hide Written, Views;
      var c := at / Granularity;
      NothingWritten(data, at);
      assert b[..0] == [];
      if !turn.gotVacb {
        return Some(Raise), 0;
      }
      held := held + multiset{c};
      if !turn.resident && !wait {
        Release(c, false);
        return Some(ReturnFalse), 0;
      }
      if !turn.resident && !turn.readable {
        Release(c, false);
        return Some(Raise), 0;
      }
      if turn.faultAt.Some? && turn.faultAt.value < |b| {
        PutBytes(at, b[..turn.faultAt.value]);
        Release(c, false);
        return Some(Raise), turn.faultAt.value;
      }
      PutBytes(at, b);
      assert b[..|b|] == b;
      if !turn.segmentDirty {
        Release(c, false);
        return Some(Raise), |b|;
      }
      Release(c, true);
      return None, |b|;
    }

    /** RtlCopyMemory into the view */
    method PutBytes(at: nat, b: seq<Byte>)
      requires Views(data) && Mapped(data, at) && at % Granularity + |b| <= Granularity
      modifies this`data
      ensures Written(old(data), data, at, b)
    {
      WriteInChunk(data, at, b);
      var c := at / Granularity;
      data := data[c := Splice(data[c], at % Granularity, b)];
    }

    /**
      CcCopyWrite: it returns TRUE if and only if every turn goes well, and then the flat file
      has the whole buffer and all its views are marked.  Otherwise the first turn that fails
      says how it ends: it has written the first `n` bytes and has marked the views of the
      first `m`.  In no case does it hold a view more than before.
    */
    method CopyWrite(offset: nat, b: seq<Byte>, wait: bool, turns: nat -> Turn) returns (exit: Exit, ghost n: nat, ghost m: nat)
      requires Views(data) && AllMapped(data, offset, offset + |b|) && offset <= MaxLongLong
      modifies this
      ensures held == old(held) && m <= n <= |b|
      ensures Written(old(data), data, offset, b[..n]) && marked == old(marked) + ChunksOf(offset, offset + m)
      ensures exit == ReturnTrue ==> n == m == |b|
      ensures offset + |b| > MaxLongLong ==> exit == Raise && n == 0
      ensures exit == ReturnTrue <==> offset + |b| <= MaxLongLong && AllWell(Writing, offset, offset + |b|, wait, turns)
      ensures exit != ReturnTrue && offset + |b| <= MaxLongLong ==>
                exists t: nat :: FailsAt(Writing, offset, offset + |b|, wait, turns, t, exit, n) && offset + m == TurnAt(offset, t)
      ensures m < n ==> exit == Raise && n - m <= Granularity
    {
      hide Written, Views, AllMapped, ChunksOf, TurnAt, TurnLength, AtTurn, AllWell, GoesWell, FailsAt;
      n, m := 0, 0;
      NothingWritten(data, offset);
      NothingMarked(offset);
      assert b[..0] == [];
      if offset + |b| > MaxLongLong {
        return Raise, n, m;
      }
      var at, turn := offset, 0;
      FirstTurn(Writing, offset, offset + |b|, wait, turns);
      while at < offset + |b|
        invariant offset <= at <= offset + |b| && n == m == at - offset && held == old(held)
        invariant AtTurn(Writing, offset, offset + |b|, wait, turns, turn, at)
        invariant Written(old(data), data, offset, b[..n]) && marked == old(marked) + ChunksOf(offset, offset + m)
      {
        var length := PartLength(at, offset + |b| - at);
        var part := b[at - offset..at - offset + length];
        StillMapped(old(data), data, offset, b[..n], offset + |b|, at);
        ghost var before := data;
        TurnHere(Writing, offset, offset + |b|, wait, turns, turn, at);
        var stop, k := WriteTurn(at, part, wait, turns(turn));
        WrittenOn(old(data), before, data, offset, b, n, length, k);
        n := n + k;
        if stop.Some? {
          TurnFails(Writing, offset, offset + |b|, wait, turns, turn, at, stop.value, n);
          return stop.value, n, m;
        }
        TurnWell(Writing, offset, offset + |b|, wait, turns, turn, at);
        MarkMore(offset, at, length);
        m := n;
        at := at + length;
        turn := turn + 1;
      }
      assert b[..n] == b;
      TurnsDone(Writing, offset, offset + |b|, wait, turns, turn, at);
      return ReturnTrue, n, m;
    }

    /** The cached loop of CcZeroData, which is the same loop without a buffer. */
    method ZeroData(start: nat, end: nat, wait: bool, turns: nat -> Turn) returns (exit: Exit, ghost n: nat, ghost m: nat)
      requires Views(data) && AllMapped(data, start, end)
      modifies this
      ensures held == old(held) && m <= n && (start <= end ==> start + n <= end) && (end < start ==> n == 0)
      ensures Written(old(data), data, start, Zeros(n)) && marked == old(marked) + ChunksOf(start, start + m)
      ensures exit == ReturnTrue && start <= end ==> start + n == end && m == n
      ensures exit == ReturnTrue <==> AllWell(Writing, start, end, wait, turns)
      ensures exit != ReturnTrue ==>
                exists t: nat :: FailsAt(Writing, start, end, wait, turns, t, exit, n) && start + m == TurnAt(start, t)
      ensures m < n ==> exit == Raise && n - m <= Granularity
    {
      hide Written, Views, AllMapped, ChunksOf, Zeros, TurnAt, TurnLength, AtTurn, AllWell, GoesWell, FailsAt;
      n, m := 0, 0;
      NothingWritten(data, start);
      NothingMarked(start);
      ZerosJoin(0, 0);
      var at, left, turn := start, end as int - start, 0;
      FirstTurn(Writing, start, end, wait, turns);
      while at < end
        invariant start <= at && (start <= end ==> at <= end) && (end < start ==> at == start)
        invariant n == m == at - start && left == end - at && held == old(held)
        invariant Written(old(data), data, start, Zeros(n)) && marked == old(marked) + ChunksOf(start, start + m)
        invariant AtTurn(Writing, start, end, wait, turns, turn, at)
        decreases end - at
      {
        var length := PartLength(at, left);
        StillMapped(old(data), data, start, Zeros(n), end, at);
        ghost var before := data;
        ZerosTake(length, length);
        TurnHere(Writing, start, end, wait, turns, turn, at);
        var stop, k := WriteTurn(at, Zeros(length), wait, turns(turn));
        ZerosJoin(n, k);
        ZerosTake(length, k);
        WrittenTwice(old(data), before, data, start, Zeros(n), Zeros(k));
        n := n + k;
        if stop.Some? {
          TurnFails(Writing, start, end, wait, turns, turn, at, stop.value, n);
          return stop.value, n, m;
        }
        TurnWell(Writing, start, end, wait, turns, turn, at);
        MarkMore(start, at, length);
        m := n;
        at := at + length;
        left := left - length;
        turn := turn + 1;
      }
      TurnsDone(Writing, start, end, wait, turns, turn, at);
      return ReturnTrue, n, m;
    }

    /** One turn of the read loop; `part` is what has been copied into the caller's buffer. */
    method ReadTurn(at: nat, length: nat, wait: bool, turn: Turn) returns (exit: Option<Exit>, part: seq<Byte>)
      requires Views(data) && Mapped(data, at) && at % Granularity + length <= Granularity
      modifies this`held
      ensures held == old(held) && IsRead(data, at, part)
      ensures exit.None? <==> GoesWell(Reading, turn, wait, length)
      ensures exit.None? ==> |part| == length
      ensures exit.Some? ==> exit.value == FailExit(turn, wait) && |part| == FailBytes(turn, wait, length)
    {
      hide IsRead, Views;
      IsReadNothing(data, at);
      if !turn.gotVacb {
        return Some(Raise), [];
      }
      var c, from := at / Granularity, at % Granularity;
      held := held + multiset{c};
      if !turn.resident && !wait {
        held := held - multiset{c};
        return Some(ReturnFalse), [];
      }
      if !turn.resident && !turn.readable {
        held := held - multiset{c};
        return Some(Raise), [];
      }
      var fault := turn.faultAt.Some? && turn.faultAt.value < length;
      var n := if fault then turn.faultAt.value else length;
      ReadInChunk(data, at, n);
      part := data[c][from..from + n];
      held := held - multiset{c};
      return if fault then Some(Raise) else None, part;
    }

    /**
      CcCopyRead: what has been read is a prefix of the flat file's bytes at `offset`, all of
      them if and only if every turn goes well; the first turn that fails says how it ends and
      how much it has read.  `FileOffset + Length` is computed without a check and wraps round.
    */
    method CopyRead(offset: nat, length: nat, wait: bool, turns: nat -> Turn) returns (exit: Exit, buffer: seq<Byte>)
      requires Views(data) && AllMapped(data, offset, offset + length) && offset <= MaxLongLong && length <= 0xFFFF_FFFF
      modifies this`held
      ensures held == old(held) && |buffer| <= length
      ensures IsRead(data, offset, buffer)
      ensures exit == ReturnTrue ==> |buffer| == if offset + length <= MaxLongLong then length else 0
      ensures offset + length > MaxLongLong ==> exit == ReturnTrue
      ensures offset + length <= MaxLongLong ==>
                (exit == ReturnTrue <==> AllWell(Reading, offset, offset + length, wait, turns))
      ensures var end, n := offset + length, |buffer|;
        exit != ReturnTrue ==> exists t: nat :: FailsAt(Reading, offset, end, wait, turns, t, exit, n)
    {
      hide AllMapped, IsRead, Views, TurnAt, TurnLength, AtTurn, AllWell, GoesWell, FailsAt;
      buffer := [];
      IsReadNothing(data, offset);
      var end := Wrapped(offset + length);
      var at, left, turn := offset, length, 0;
      ghost var last := offset + length;
      FirstTurn(Reading, offset, last, wait, turns);
      while at < end
        invariant offset <= at && at + left == last && |buffer| == at - offset && held == old(held)
        invariant (end == last && at <= end) || (end < 0 && at == offset)
        invariant IsRead(data, offset, buffer) && AtTurn(Reading, offset, last, wait, turns, turn, at)
        decreases end - at
      {
        var n := PartLength(at, left);
        TurnHere(Reading, offset, last, wait, turns, turn, at);
        ReadMapped(data, offset, last, at);
        var stop, part := ReadTurn(at, n, wait, turns(turn));
        IsReadMore(data, offset, buffer, part);
        buffer := buffer + part;
        if stop.Some? {
          TurnFails(Reading, offset, last, wait, turns, turn, at, stop.value, |buffer|);
          return stop.value, buffer;
        }
        TurnWell(Reading, offset, last, wait, turns, turn, at);
        at := at + n;
        left := left - n;
        turn := turn + 1;
      }
      if end == last {
        TurnsDone(Reading, offset, last, wait, turns, turn, at);
      }
      return ReturnTrue, buffer;
    }
  }

  /** Addition of LONGLONGs that wraps round. */
  function Wrapped(x: nat): (r: int)
    ensures (x - r) % 0x1_0000_0000_0000_0000 == 0
    ensures x < 0x1_0000_0000_0000_0000 ==> -MaxLongLong - 1 <= r <= MaxLongLong
  {
    if x <= MaxLongLong then x else x - 2 * (MaxLongLong + 1)
  }

  function Zeros(n: nat): seq<Byte> {
    seq(n, _ => 0)
  }

  lemma {:induction false} ZerosJoin(n: nat, k: nat)
    ensures Zeros(n) + Zeros(k) == Zeros(n + k) && |Zeros(n)| == n && |Zeros(k)| == k && Zeros(0) == []
  {
  }

  lemma {:induction false} ZerosTake(n: nat, k: nat)
    requires k <= n
    ensures |Zeros(n)| == n && Zeros(n)[..k] == Zeros(k)
  {
  }

  lemma {:induction false} ReadMapped(data: map<nat, seq<Byte>>, offset: nat, end: nat, at: nat)
    requires AllMapped(data, offset, end) && offset <= at < end
    ensures Mapped(data, at)
  {
  }

  ghost predicate ReadAt(data: map<nat, seq<Byte>>, offset: nat, buffer: seq<Byte>, i: nat)
    requires Views(data) && i < |buffer|
  {
    Mapped(data, offset + i) && buffer[i] == ByteAt(data, offset + i)
  }

  /** The buffer holds the flat file's bytes at `offset`. */
  ghost predicate IsRead(data: map<nat, seq<Byte>>, offset: nat, buffer: seq<Byte>) {
    Views(data) && forall i :: 0 <= i < |buffer| ==> ReadAt(data, offset, buffer, i)
  }

  lemma {:induction false} IsReadNothing(data: map<nat, seq<Byte>>, offset: nat)
    requires Views(data)
    ensures IsRead(data, offset, [])
  {
  }

  lemma {:induction false} IsReadMore(data: map<nat, seq<Byte>>, offset: nat, b: seq<Byte>, c: seq<Byte>)
    requires IsRead(data, offset, b) && IsRead(data, offset + |b|, c)
    ensures IsRead(data, offset, b + c)
  {
    hide Views;
    forall i | 0 <= i < |b + c| ensures ReadAt(data, offset, b + c, i) {
      if i < |b| {
        assert ReadAt(data, offset, b, i);
      } else {
        assert ReadAt(data, offset + |b|, c, i - |b|);
        assert offset + |b| + (i - |b|) == offset + i;
      }
    }
  }

  lemma {:induction false} ReadInChunk(data: map<nat, seq<Byte>>, at: nat, n: nat)
    requires Views(data) && Mapped(data, at) && at % Granularity + n <= Granularity
    ensures |data[at / Granularity]| == Granularity
    ensures IsRead(data, at, data[at / Granularity][at % Granularity..at % Granularity + n])
  {
    var part := data[at / Granularity][at % Granularity..at % Granularity + n];
    forall i | 0 <= i < |part| ensures ReadAt(data, at, part, i) {
      InChunk(at + i, at, n);
    }
  }

  lemma {:induction false} NothingMarked(offset: nat)
    ensures ChunksOf(offset, offset) == {}
  {
  }

  lemma {:induction false} StillMapped(was: map<nat, seq<Byte>>, data: map<nat, seq<Byte>>, offset: nat, b: seq<Byte>, end: nat, at: nat)
    requires AllMapped(was, offset, end) && Written(was, data, offset, b) && offset <= at < end
    ensures Mapped(data, at) && Views(data)
  {
    assert Mapped(was, at);
  }
}
