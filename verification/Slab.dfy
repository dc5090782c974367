/**
  The page allocator behind KCBs and delay items (ntoskrnl/config/cmalloc.c): blocks are cut
  from whole pages, free blocks of all pages share one list, and each page counts its own.
  A block is named by its page and its place there; the first lemmas say that its address,
  from which the code masks the page, tells the same.
*/
module Slab {
  import opened Common
  import opened Seqs

  datatype Block = Block(page: nat, index: nat)

  // ----- addresses -----

  const Header := 8            // FIELD_OFFSET(CM_ALLOC_PAGE, AllocPage)

  /** CM_KCBS_PER_PAGE, CM_DELAYS_PER_PAGE for blocks of `size` bytes */
  function PerPage(size: nat): nat
    requires 0 < size
  {
    (PageSize - Header) / size
  }

  function AddressOf(size: nat, b: Block): nat {
    b.page * PageSize + Header + b.index * size
  }

  lemma {:induction false} MulLe(a: nat, b: nat, m: nat)
    requires a <= b
    ensures a * m <= b * m
  {
    assert b * m == a * m + (b - a) * m;
  }

  /** A block lies inside its page, and masking its address gives the page (CmpGetAllocPageFromKcb). */
  lemma {:induction false} BlockInPage(size: nat, b: Block)
    requires 0 < size && b.index < PerPage(size)
    ensures b.page * PageSize + Header <= AddressOf(size, b) && AddressOf(size, b) + size <= (b.page + 1) * PageSize
    ensures AddressOf(size, b) / PageSize == b.page
  {
    MulLe(b.index + 1, PerPage(size), size);
    assert (b.index + 1) * size == b.index * size + size;
    assert PerPage(size) * size <= PageSize - Header;
  }

  /** Different blocks do not overlap. */
  lemma {:induction false} BlocksApart(size: nat, a: Block, b: Block)
    requires 0 < size && a.index < PerPage(size) && b.index < PerPage(size) && a != b
    ensures AddressOf(size, a) + size <= AddressOf(size, b) || AddressOf(size, b) + size <= AddressOf(size, a)
  {
    BlockInPage(size, a);
    BlockInPage(size, b);
    if a.page == b.page && a.index < b.index {
      MulLe(a.index + 1, b.index, size);
      assert (a.index + 1) * size == a.index * size + size;
    } else if a.page == b.page {
      MulLe(b.index + 1, a.index, size);
      assert (b.index + 1) * size == b.index * size + size;
    }
  }

  // ----- the state and its invariant -----

  /** `live`: the blocks that have been handed out and not returned. */
  datatype State = State(free: seq<Block>, counts: map<nat, nat>, live: set<Block>)

  ghost function Upto(n: nat): (r: set<nat>)
    ensures forall i: nat :: i in r <==> i < n
  {
    if n == 0 then {} else Upto(n - 1) + {n - 1}
  }

  ghost function FreeIn(s: State, per: nat, page: nat): set<nat> {
    set i | i in Upto(per) && Block(page, i) in s.free
  }

  ghost predicate IsBlock(s: State, per: nat, b: Block) {
    b.page in s.counts && b.index < per
  }

  /** Every block of every page is either free or handed out, once, and each page counts its free ones. */
  ghost predicate Inv(s: State, per: nat) {
    && NoDup(s.free)
    && (forall b :: b in s.free ==> IsBlock(s, per, b) && b !in s.live)
    && (forall b :: b in s.live ==> IsBlock(s, per, b))
    && (forall b :: IsBlock(s, per, b) ==> b in s.free || b in s.live)
    && (forall page :: page in s.counts ==> s.counts[page] == |FreeIn(s, per, page)|)
  }

  /** Between operations a page is there only for the sake of some block in use. */
  ghost predicate NoIdlePage(s: State, per: nat) {
    forall page :: page in s.counts ==> s.counts[page] < per
  }

  lemma {:induction false} UptoSize(n: nat)
    ensures |Upto(n)| == n
  {
    if n > 0 {
      UptoSize(n - 1);
    }
  }

  lemma {:induction false} CountFits(s: State, per: nat, page: nat)
    ensures |FreeIn(s, per, page)| <= per
    ensures |FreeIn(s, per, page)| == per <==> FreeIn(s, per, page) == Upto(per)
  {
    var free := FreeIn(s, per, page);
    UptoSize(per);
    SubsetSize(free, Upto(per));
    assert Upto(per) == free + (Upto(per) - free);
  }

  /** Moving one block between the list and its user changes the count of its page by one. */
  lemma {:induction false} CountMoves(s: State, r: State, per: nat, page: nat, b: Block)
    requires b.index < per && forall c :: c != b ==> (c in r.free <==> c in s.free)
    ensures |FreeIn(r, per, page)| == |FreeIn(s, per, page)| +
              (if page == b.page then (if b in r.free then 1 else 0) - (if b in s.free then 1 else 0) else 0)
  {
    if page == b.page {
      SetSwap(FreeIn(s, per, page), FreeIn(r, per, page), b.index);
    } else {
      assert FreeIn(r, per, page) == FreeIn(s, per, page);
    }
  }

  // ----- the operations -----

  ghost function Taken(s: State): State
    requires s.free != [] && s.free[0].page in s.counts && s.counts[s.free[0].page] > 0
  {
    var b := s.free[0];
    State(s.free[1..], s.counts[b.page := s.counts[b.page] - 1], s.live + {b})
  }

  ghost function Returned(s: State, b: Block): State
    requires b.page in s.counts
  {
    State(s.free + [b], s.counts[b.page := s.counts[b.page] + 1], s.live - {b})
  }

  /** The free list with the first `n` blocks of a page at its end. */
  ghost function Linked(free: seq<Block>, page: nat, n: nat): (r: seq<Block>)
    ensures forall b :: b in r <==> b in free || (b.page == page && b.index < n)
  {
    if n == 0 then free else Linked(free, page, n - 1) + [Block(page, n - 1)]
  }

  /** The free list without the first `n` blocks of a page. */
  ghost function Unlinked(free: seq<Block>, page: nat, n: nat): (r: seq<Block>)
    ensures forall b :: b in r <==> b in free && !(b.page == page && b.index < n)
  {
    if n == 0 then free else Without(Unlinked(free, page, n - 1), Block(page, n - 1))
  }

  ghost function WithPage(s: State, per: nat, page: nat): State {
    State(Linked(s.free, page, per), s.counts[page := per], s.live)
  }

  ghost function WithoutPage(s: State, per: nat, page: nat): State {
    State(Unlinked(s.free, page, per), s.counts - {page}, s.live)
  }

  lemma {:induction false} LinkedOrder(free: seq<Block>, page: nat, n: nat, a: Block, c: Block)
    requires Precedes(free, a, c)
    ensures Precedes(Linked(free, page, n), a, c)
  {
    if n > 0 {
      LinkedOrder(free, page, n - 1, a, c);
      PrecedesAppend(Linked(free, page, n - 1), Block(page, n - 1), a, c);
    }
  }

  lemma {:induction false} UnlinkedOrder(free: seq<Block>, page: nat, n: nat, a: Block, c: Block)
    requires Precedes(free, a, c) && a.page != page && c.page != page
    ensures Precedes(Unlinked(free, page, n), a, c)
  {
    if n > 0 {
      UnlinkedOrder(free, page, n - 1, a, c);
      PrecedesWithout(Unlinked(free, page, n - 1), Block(page, n - 1), a, c);
    }
  }

  /** Blocks are handed out in the order in which they came back: nothing but taking the first changes who is in front. */
  lemma {:induction false} FirstFreedFirst(s: State, per: nat, page: nat, b: Block, a: Block, c: Block)
    requires Inv(s, per) && b in s.live && Precedes(s.free, a, c)
    ensures s.free[0] != c && (s.free[0] != a ==> Precedes(s.free[1..], a, c))
    ensures Precedes(s.free + [b], a, c) && Precedes(s.free + [b], c, b)
    ensures Precedes(WithPage(s, per, page).free, a, c)
    ensures a.page != page && c.page != page ==> Precedes(WithoutPage(s, per, page).free, a, c)
  {
    hide FreeIn, Linked, Unlinked, IsBlock;
    var i, j :| 0 <= i < j < |s.free| && s.free[i] == a && s.free[j] == c;
    if i > 0 {
      assert s.free[1..][i - 1] == a && s.free[1..][j - 1] == c;
    }
    PrecedesAppend(s.free, b, a, c);
    PrecedesLast(s.free, b, c);
    LinkedOrder(s.free, page, per, a, c);
    if a.page != page && c.page != page {
      UnlinkedOrder(s.free, page, per, a, c);
    }
  }

  lemma {:induction false} FreeCounts(s: State, per: nat, b: Block)
    requires b in s.free && b.index < per
    ensures |FreeIn(s, per, b.page)| > 0
  {
    assert b.index in FreeIn(s, per, b.page);
  }

  lemma {:induction false} TakenInv(s: State, per: nat)
    requires Inv(s, per) && s.free != []
    ensures s.free[0].page in s.counts && s.counts[s.free[0].page] > 0
    ensures Inv(Taken(s), per) && s.free[0] !in s.live
  {
    hide Upto, FreeIn;
    var b := s.free[0];
    FreeCounts(s, per, b);
    var r := Taken(s);
    assert forall c :: c in s.free <==> c == b || c in r.free;
    forall page | page in r.counts ensures r.counts[page] == |FreeIn(r, per, page)| {
      CountMoves(s, r, per, page, b);
    }
  }

  lemma {:induction false} ReturnedInv(s: State, per: nat, b: Block)
    requires Inv(s, per) && b in s.live
    ensures b.page in s.counts && Inv(Returned(s, b), per)
  {
    var r := Returned(s, b);
    NoDupAppend(s.free, b);
    forall page | page in r.counts ensures r.counts[page] == |FreeIn(r, per, page)| {
      CountMoves(s, r, per, page, b);
    }
  }

  lemma {:induction false} LinkedNoDup(free: seq<Block>, page: nat, n: nat)
    requires NoDup(free) && forall b :: b in free ==> b.page != page
    ensures NoDup(Linked(free, page, n))
  {
    if n > 0 {
      LinkedNoDup(free, page, n - 1);
      NoDupAppend(Linked(free, page, n - 1), Block(page, n - 1));
    }
  }

  lemma {:induction false} UnlinkedNoDup(free: seq<Block>, page: nat, n: nat)
    requires NoDup(free)
    ensures NoDup(Unlinked(free, page, n))
  {
    hide NoDup;
    if n > 0 {
      UnlinkedNoDup(free, page, n - 1);
      WithoutNoDup(Unlinked(free, page, n - 1), Block(page, n - 1));
    }
  }

  lemma {:induction false} WithPageInv(s: State, per: nat, page: nat)
    requires Inv(s, per) && page !in s.counts
    ensures Inv(WithPage(s, per, page), per)
  {
    var r := WithPage(s, per, page);
    LinkedNoDup(s.free, page, per);
    forall p | p in r.counts ensures r.counts[p] == |FreeIn(r, per, p)| {
      if p == page {
        assert FreeIn(r, per, p) == Upto(per);
        UptoSize(per);
      } else {
        assert FreeIn(r, per, p) == FreeIn(s, per, p);
      }
    }
  }

  /** A page whose count is full has all its blocks on the list; they go with it. */
  lemma {:induction false} WithoutPageInv(s: State, per: nat, page: nat)
    requires Inv(s, per) && page in s.counts && s.counts[page] == per
    ensures Inv(WithoutPage(s, per, page), per)
    ensures forall i :: 0 <= i < per ==> Block(page, i) in s.free
    ensures forall b :: b in WithoutPage(s, per, page).free || b in s.live ==> b.page != page
  {
    hide NoDup, Unlinked, FreeIn;
    var r := WithoutPage(s, per, page);
    FullPage(s, per, page);
    UnlinkedNoDup(s.free, page, per);
    forall b ensures b in r.free <==> b in s.free && b.page != page {
      UnlinkedHas(s.free, page, per, b);
      assert b in s.free ==> IsBlock(s, per, b);
    }
    forall p | p in r.counts ensures r.counts[p] == |FreeIn(r, per, p)| {
      FreeSame(s, r, per, p);
    }
  }

  lemma {:induction false} FullPage(s: State, per: nat, page: nat)
    requires |FreeIn(s, per, page)| == per
    ensures forall i :: 0 <= i < per ==> Block(page, i) in s.free
  {
    CountFits(s, per, page);
    forall i | 0 <= i < per ensures Block(page, i) in s.free {
      assert i in FreeIn(s, per, page);
    }
  }

  lemma {:induction false} FreeSame(s: State, r: State, per: nat, page: nat)
    requires forall i :: Block(page, i) in r.free <==> Block(page, i) in s.free
    ensures FreeIn(r, per, page) == FreeIn(s, per, page)
  {
    hide Upto;
  }

  lemma {:induction false} UnlinkedHas(free: seq<Block>, page: nat, n: nat, b: Block)
    ensures b in Unlinked(free, page, n) <==> b in free && !(b.page == page && b.index < n)
  {
  }

  // ----- pages are there for blocks in use -----

  lemma {:induction false} PageHasUser(s: State, per: nat, page: nat) returns (b: Block)
    requires Inv(s, per) && page in s.counts && s.counts[page] < per
    ensures b in s.live && b.page == page
  {
    CountFits(s, per, page);
    var i :| i in Upto(per) && i !in FreeIn(s, per, page);
    b := Block(page, i);
    assert IsBlock(s, per, b);
  }

  lemma {:induction false} PagesBelow(pages: set<nat>, live: set<Block>)
    requires forall page :: page in pages ==> exists b :: b in live && b.page == page
    ensures |pages| <= |live|
    decreases |pages|
  {
    if pages != {} {
      var page :| page in pages;
      var b :| b in live && b.page == page;
      PagesBelow(pages - {page}, live - {b});
    }
  }

  /** There are never more pages than blocks in use. */
  lemma {:induction false} FewPages(s: State, per: nat)
    requires Inv(s, per) && NoIdlePage(s, per)
    ensures |s.counts.Keys| <= |s.live|
  {
    hide Inv;
    forall page | page in s.counts.Keys ensures exists b :: b in s.live && b.page == page {
      var b := PageHasUser(s, per, page);
    }
    PagesBelow(s.counts.Keys, s.live);
  }

  class Allocator {
    const per: nat                 // blocks in a page
    var free: seq<Block>
    var counts: map<nat, nat>
    ghost var live: set<Block>

    ghost function Value(): State
      reads this
    {
      State(free, counts, live)
    }

    ghost predicate Valid()
      reads this
    {
      1 <= per && Inv(Value(), per) && NoIdlePage(Value(), per)
    }

    constructor (size: nat)
      requires 0 < size <= PageSize - Header
      ensures Valid() && live == {} && counts == map[] && per == PerPage(size)
    {
      per := PerPage(size);
      free, counts, live := [], map[], {};
      new;
      assert 1 * size <= PageSize - Header;
    }

    /** A new page: all its blocks go to the end of the list. */
    method AddPage(page: nat)
      modifies this`free, this`counts
      ensures Value() == WithPage(old(Value()), per, page)
    {
      counts := counts[page := per];
      var i := 0;
      while i < per
        invariant 0 <= i <= per && free == Linked(old(free), page, i)
        modifies this`free
      {
        free := free + [Block(page, i)];
        i := i + 1;
      }
    }

    /** CmpAllocateDelayItem, and the private part of CmpAllocateKeyControlBlock; `page` is what the pool gives. */
    method Allocate(page: Option<nat>) returns (r: Option<Block>)
      requires Valid() && (page.Some? ==> page.value !in counts)
      modifies this
      ensures Valid()
      ensures r.None? <==> old(free) == [] && page.None?
      ensures r.None? ==> Value() == old(Value())
      ensures r.Some? ==> r.value !in old(live) && live == old(live) + {r.value}
      ensures r.Some? && old(free) != [] ==> r.value == old(free[0]) && free == old(free[1..]) && counts.Keys == old(counts).Keys
      ensures r.Some? && old(free) == [] ==>
                r.value.page == page.value && counts.Keys == old(counts).Keys + {page.value} && [r.value] + free == Linked([], page.value, per)
    {
      hide Inv;
      if free == [] {
        if page.None? {
          return None;
        }
        WithPageInv(Value(), per, page.value);
        AddPage(page.value);
      }
      TakenInv(Value(), per);
      TakenBusy(Value(), per);
      var b := free[0];
      free := free[1..];
      counts := counts[b.page := counts[b.page] - 1];
      live := live + {b};
      return Some(b);
    }

    /** CmpFreeDelayItem, and the private part of CmpFreeKeyControlBlock. */
    method Free(b: Block)
      requires Valid() && b in live
      modifies this
      ensures Valid() && live == old(live) - {b}
      ensures b.page in old(counts)
      ensures if exists c :: c in live && c.page == b.page then counts.Keys == old(counts).Keys && free == old(free) + [b]
              else counts.Keys == old(counts).Keys - {b.page} && free == Unlinked(old(free) + [b], b.page, per)
                   && forall c :: c in free ==> c.page != b.page
    {
      hide Inv;
      ReturnedInv(Value(), per, b);
      var page := b.page;
      free := free + [b];
      counts := counts[page := counts[page] + 1];
      live := live - {b};
      if counts[page] == per {
        WithoutPageInv(Value(), per, page);
        RemovePage(page);
      } else {
        ghost var c := PageHasUser(Value(), per, page);
      }
    }

    method RemovePage(page: nat)
      requires forall i :: 0 <= i < per ==> Block(page, i) in free
      modifies this`free, this`counts
      ensures Value() == WithoutPage(old(Value()), per, page)
    {
      var i := 0;
      while i < per
        invariant 0 <= i <= per && free == Unlinked(old(free), page, i)
        modifies this`free
      {
        free := Without(free, Block(page, i));
        i := i + 1;
      }
      counts := counts - {page};
    }
  }

  /** Only the page of the first free block can have been idle, and it is idle no longer. */
  lemma {:induction false} TakenBusy(s: State, per: nat)
    requires Inv(s, per) && s.free != [] && s.free[0].page in s.counts && s.counts[s.free[0].page] > 0
    requires forall p :: p in s.counts && p != s.free[0].page ==> s.counts[p] < per
    ensures NoIdlePage(Taken(s), per)
  {
    CountFits(s, per, s.free[0].page);
  }
}
