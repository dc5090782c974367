/**
  Arranging the drivers by the ServiceGroupOrder list: the REG_MULTI_SZ value, its
  right-to-left scan and what the repeated moves to the front add up to
  (CmpDoSort in ntoskrnl/config/cmboot.c).
*/
module GroupOrder {
  import opened Seqs
  import opened Drivers

  // ----- the REG_MULTI_SZ value -----

  ghost predicate Plain(names: seq<string>) {
    forall i :: 0 <= i < |names| ==> names[i] != [] && NUL !in names[i]
  }

  ghost predicate Distinct(up: char -> char, names: seq<string>) {
    forall i, j :: 0 <= i < j < |names| ==> !EqualNames(up, names[i], names[j])
  }

  /** The names, each with its terminator. */
  function Body(names: seq<string>): string {
    if names == [] then [] else names[0] + [NUL] + Body(names[1..])
  }

  function MultiSz(names: seq<string>): string {
    Body(names) + [NUL]
  }

  lemma {:induction false} BodySnoc(names: seq<string>, n: string)
    ensures Body(names + [n]) == Body(names) + n + [NUL]
  {
    if names == [] {
      assert names + [n] == [n] && Body([]) == [];
    } else {
      BodySnoc(names[1..], n);
      assert (names + [n])[1..] == names[1..] + [n];
    }
  }

  lemma {:induction false} BodyPrefix(names: seq<string>, k: nat)
    requires k <= |names|
    ensures Body(names[..k]) <= Body(names)
    decreases |names| - k
  {
    if k == |names| {
      assert names[..k] == names;
    } else {
      BodyPrefix(names, k + 1);
      BodySnoc(names[..k], names[k]);
      assert names[..k + 1] == names[..k] + [names[k]];
    }
  }

  lemma {:induction false} MultiSzInjective(a: seq<string>, b: seq<string>)
    requires Plain(a) && Plain(b) && MultiSz(a) == MultiSz(b)
    ensures a == b
  {
    if a == [] || b == [] {
      assert MultiSz(a)[0] == MultiSz(b)[0];
    } else {
      var s := MultiSz(a);
      assert s == a[0] + ([NUL] + MultiSz(a[1..])) && s == b[0] + ([NUL] + MultiSz(b[1..]));
      assert s[|a[0]|] == NUL && s[|b[0]|] == NUL;
      assert forall k :: 0 <= k < |a[0]| ==> s[k] == a[0][k] != NUL;
      assert forall k :: 0 <= k < |b[0]| ==> s[k] == b[0][k] != NUL;
      assert |a[0]| == |b[0]|;
      assert a[0] == s[..|a[0]|] == b[0];
      assert MultiSz(a[1..]) == s[|a[0]| + 1..] == MultiSz(b[1..]);
      MultiSzInjective(a[1..], b[1..]);
    }
  }

  /** Where the `k`-th name of a list sits. */
  lemma {:induction false} NameAt(names: seq<string>, k: nat)
    requires k < |names|
    ensures var base, s := |Body(names[..k])|, MultiSz(names);
      && |Body(names[..k + 1])| == base + |names[k]| + 1 < |s|
      && s[base..base + |names[k]|] == names[k]
      && s[base + |names[k]|] == NUL
      && (base == 0 <==> k == 0)
      && (base > 0 ==> s[base - 1] == NUL)
  {
    var p, n := names[..k], names[k];
    BodySnoc(p, n);
    assert names[..k + 1] == p + [n];
    BodyPrefix(names, k + 1);
    var s, base := MultiSz(names), |Body(p)|;
    var q := Body(p) + n + [NUL];
    assert q <= s;
    assert s[base..base + |n|] == q[base..base + |n|] == n;
    if k > 0 {
      BodySnoc(p[..k - 1], p[k - 1]);
      assert p == p[..k - 1] + [p[k - 1]];
    }
  }

  /** One character of the buffer; the scan also reads the one in front of it. */
  function CharAt(s: string, before: char, i: int): char
    requires -1 <= i < |s|
  {
    if i == -1 then before else s[i]
  }

  /** What the scan finds when it starts from the terminator at `from`. */
  ghost predicate Scanned(s: string, from: nat, start: nat, end: nat) {
    && start < from < |s|
    && (start == 0 || s[start - 1] == NUL)
    && (forall k :: start <= k < from - 1 ==> s[k] != NUL)
    && end == if start < from - 1 && s[from - 1] == NUL then from - 1 else from
  }

  lemma {:induction false} ScannedBounds(s: string, from: nat, start: nat, end: nat)
    requires Scanned(s, from, start, end)
    ensures start < from && start <= end <= |s|
    ensures start > 0 ==> s[start - 1] == NUL
  {
  }

  /** On a well-formed list the scan finds exactly the last name that is left. */
  lemma {:induction false} ScanFindsName(names: seq<string>, k: nat, from: nat, start: nat, end: nat)
    requires Plain(names) && k < |names|
    requires from == |Body(names[..k + 1])| - 1 || (from == |Body(names[..k + 1])| && k + 1 == |names|)
    requires Scanned(MultiSz(names), from, start, end)
    ensures start == |Body(names[..k])| && end == start + |names[k]|
    ensures MultiSz(names)[start..end] == names[k]
  {
    NameAt(names, k);
    var base, s, n := |Body(names[..k])|, MultiSz(names), names[k];
    assert n in names;
    forall i | base <= i < base + |n| ensures s[i] != NUL {
      assert s[i] == s[base..base + |n|][i - base];
    }
  }

  // ----- the names that the scan finds in any value -----

  /** The nearest place at or before `i` where a name can start. */
  function LastStart(s: string, i: nat): (start: nat)
    requires i < |s|
    ensures start <= i && (start == 0 || s[start - 1] == NUL) && forall k :: start <= k < i ==> s[k] != NUL
  {
    if i == 0 || s[i - 1] == NUL then i else LastStart(s, i - 1)
  }

  /** The names before the terminator at `from`, as they are found from right to left. */
  function NamesUpTo(s: string, from: int): (names: seq<string>)
    requires from < |s|
    decreases from
  {
    if from <= 0 then [] else NamesUpTo(s, LastStart(s, from - 1) - 1) + [s[LastStart(s, from - 1)..NameEnd(s, from)]]
  }

  /** A name ends at its terminator, or before the one in front of that. */
  function NameEnd(s: string, from: nat): (end: nat)
    requires 0 < from < |s|
    ensures LastStart(s, from - 1) < end <= from
  {
    if LastStart(s, from - 1) < from - 1 && s[from - 1] == NUL then from - 1 else from
  }

  lemma {:induction false} NamesNotEmpty(s: string, from: int)
    requires from < |s|
    ensures forall n :: n in NamesUpTo(s, from) ==> n != []
    decreases from
  {
    if from > 0 {
      NamesNotEmpty(s, LastStart(s, from - 1) as int - 1);
    }
  }

  /** The names in a value that ends in a terminator. */
  function ListNames(order: string): seq<string> {
    NamesUpTo(order, |order| - 1)
  }

  lemma {:induction false} ScannedIs(s: string, from: nat, start: nat, end: nat)
    requires Scanned(s, from, start, end)
    ensures NamesUpTo(s, from) == NamesUpTo(s, start - 1) + [s[start..end]]
  {
    OneStart(s, from - 1, start);
  }

  lemma {:induction false} OneStart(s: string, i: nat, start: nat)
    requires start <= i < |s| && (start == 0 || s[start - 1] == NUL) && forall k :: start <= k < i ==> s[k] != NUL
    ensures LastStart(s, i) == start
  {
    if start < i {
      assert s[i - 1] != NUL;
      OneStart(s, i - 1, start);
    }
  }

  lemma {:induction false} LastStartPrefix(s: string, t: string, i: nat)
    requires s <= t && i < |s|
    ensures LastStart(s, i) == LastStart(t, i)
  {
    if i > 0 && s[i - 1] != NUL {
      LastStartPrefix(s, t, i - 1);
    }
  }

  lemma {:induction false} EndPrefix(s: string, t: string, from: nat)
    requires s <= t && 0 < from < |s|
    ensures LastStart(t, from - 1) == LastStart(s, from - 1) < NameEnd(s, from) <= from && NameEnd(t, from) == NameEnd(s, from)
  {
    hide LastStart;
    LastStartPrefix(s, t, from - 1);
    assert s[from - 1] == t[from - 1];
    EndAfterStart(s, from);
  }

  lemma {:induction false} EndAfterStart(s: string, from: nat)
    requires 0 < from < |s|
    ensures LastStart(s, from - 1) < NameEnd(s, from) <= from && LastStart(s, from - 1) < from
    ensures Scanned(s, from, LastStart(s, from - 1), NameEnd(s, from))
  {
  }

  lemma {:induction false} PrefixSlice(s: string, t: string, a: nat, b: nat)
    requires s <= t && a <= b <= |s|
    ensures s[a..b] == t[a..b]
  {
  }

  /** What stands behind the terminator does not matter. */
  lemma {:induction false} NamesUpToPrefix(s: string, t: string, from: int)
    requires s <= t && from < |s|
    ensures NamesUpTo(s, from) == NamesUpTo(t, from)
    decreases from
  {
    hide LastStart, NameEnd;
    if from > 0 {
      EndPrefix(s, t, from);
      NamesUpToPrefix(s, t, LastStart(s, from - 1) as int - 1);
      PrefixSlice(s, t, LastStart(s, from - 1), NameEnd(s, from));
    }
  }

  /** The value is a MULTI_SZ of the names, or one that lacks its second terminator. */
  ghost predicate Spells(order: string, names: seq<string>) {
    Plain(names) && (order == MultiSz(names) || (names != [] && order == Body(names)))
  }

  lemma {:induction false} NamesOfPrefix(names: seq<string>, k: nat)
    requires Plain(names) && k <= |names|
    ensures |Body(names[..k])| < |MultiSz(names)| && NamesUpTo(MultiSz(names), |Body(names[..k])| - 1) == names[..k]
  {
    hide Plain, NamesUpTo, Body;
    PrefixFits(names, k);
    if k == 0 {
      NothingBefore(MultiSz(names), -1);
    } else {
      NamesOfPrefix(names, k - 1);
      NameAt(names, k - 1);
      NameNotEmpty(names, k - 1);
      ScanOneName(names, k - 1, |Body(names[..k])| - 1);
    }
  }

  lemma {:induction false} PrefixFits(names: seq<string>, k: nat)
    requires k <= |names|
    ensures |Body(names[..k])| < |MultiSz(names)| && |MultiSz(names)| == |Body(names)| + 1 && (k == 0 ==> Body(names[..k]) == [])
  {
    BodyPrefix(names, k);
  }

  lemma {:induction false} NameNotEmpty(names: seq<string>, k: nat)
    requires Plain(names) && k < |names|
    ensures names[k] != []
  {
  }

  lemma {:induction false} NothingBefore(s: string, from: int)
    requires from <= 0 && from < |s|
    ensures NamesUpTo(s, from) == []
  {
  }

  lemma {:induction false} ScanOneName(names: seq<string>, k: nat, from: nat)
    requires Plain(names) && k < |names|
    requires from == |Body(names[..k + 1])| - 1 || (from == |Body(names[..k + 1])| && k + 1 == |names|)
    requires 0 < from < |MultiSz(names)| && |Body(names[..k])| < |MultiSz(names)| && NamesUpTo(MultiSz(names), |Body(names[..k])| - 1) == names[..k]
    ensures NamesUpTo(MultiSz(names), from) == names[..k + 1]
  {
    hide Plain, Body, MultiSz, NamesUpTo, LastStart, NameEnd, Scanned;
    var s := MultiSz(names);
    EndAfterStart(s, from);
    var start: nat, end: nat := LastStart(s, from - 1), NameEnd(s, from);
    ScanFindsName(names, k, from, start, end);
    ScannedIs(s, from, start, end);
    assert names[..k + 1] == names[..k] + [names[k]];
  }

  lemma {:induction false} MultiSzNames(names: seq<string>)
    requires Plain(names)
    ensures ListNames(MultiSz(names)) == names
  {
    hide Plain, NamesUpTo;
    var n := |names|;
    assert names[..n] == names;
    if n > 0 {
      NamesOfPrefix(names, n - 1);
      NameAt(names, n - 1);
      ScanOneName(names, n - 1, |Body(names)|);
      assert names[..n - 1 + 1] == names;
    } else {
      NothingBefore(MultiSz(names), 0);
    }
  }

  lemma {:induction false} BodyNames(names: seq<string>)
    requires Plain(names) && names != []
    ensures Body(names) != [] && ListNames(Body(names)) == names
  {
    hide Plain, NamesUpTo;
    assert names[..|names|] == names;
    NamesOfPrefix(names, |names|);
    NamesUpToPrefix(Body(names), MultiSz(names), |Body(names)| - 1);
  }

  /** The scan reads a list back from its value, with or without the second terminator. */
  lemma {:induction false} SpelledNames(order: string, names: seq<string>)
    requires Spells(order, names)
    ensures order != [] && order[|order| - 1] == NUL && ListNames(order) == names
  {
    hide Plain, ListNames;
    if order == MultiSz(names) {
      MultiSzNames(names);
    } else {
      BodyNames(names);
      var n := |names| - 1;
      BodySnoc(names[..n], names[n]);
      assert names[..n] + [names[n]] == names;
    }
  }

  // ----- moving groups to the front -----

  predicate Belongs(up: char -> char, g: string, d: Driver) {
    d.group.Named? && EqualNames(up, g, d.group.text)
  }

  function InGroup(up: char -> char, g: string): Driver -> bool {
    d => Belongs(up, g, d)
  }

  function NotInGroup(up: char -> char, g: string): Driver -> bool {
    d => !Belongs(up, g, d)
  }

  predicate ListedIn(up: char -> char, names: seq<string>, d: Driver) {
    exists i :: 0 <= i < |names| && Belongs(up, names[i], d)
  }

  function Unlisted(up: char -> char, names: seq<string>): Driver -> bool {
    d => !ListedIn(up, names, d)
  }

  /** One pass over the list: every driver of the group is relinked at the head. */
  function MoveToFront(up: char -> char, g: string, s: seq<Driver>): seq<Driver> {
    Reverse(Filter(InGroup(up, g), s)) + Filter(NotInGroup(up, g), s)
  }

  /** All passes; the last name of the list is handled first. */
  function Arrange(up: char -> char, names: seq<string>, s: seq<Driver>): seq<Driver> {
    if names == [] then s else MoveToFront(up, names[0], Arrange(up, names[1..], s))
  }

  /** One step of a pass: a matching node goes to the head, another one stays. */
  lemma {:induction false} MoveToFrontSnoc(up: char -> char, g: string, s: seq<Driver>, d: Driver)
    ensures MoveToFront(up, g, s + [d])
         == if Belongs(up, g, d) then [d] + MoveToFront(up, g, s) else MoveToFront(up, g, s) + [d]
  {
    hide Filter, Reverse;
    var p, q := InGroup(up, g), NotInGroup(up, g);
    FilterConcat(p, s, [d]);
    FilterConcat(q, s, [d]);
    var a, b := Filter(p, s), Filter(q, s);
    if Belongs(up, g, d) {
      FilterAll(p, [d]);
      FilterNone(q, [d]);
      ReverseConcat(a, [d]);
      assert Reverse(a + [d]) == [d] + Reverse(a);
    } else {
      FilterNone(p, [d]);
      FilterAll(q, [d]);
      assert a + [] == a;
    }
  }

  lemma {:induction false} MoveToFrontPermutes(up: char -> char, g: string, s: seq<Driver>)
    ensures multiset(MoveToFront(up, g, s)) == multiset(s)
  {
    if s != [] {
      var init, last := s[..|s| - 1], s[|s| - 1];
      assert s == init + [last];
      MoveToFrontPermutes(up, g, init);
      MoveToFrontSnoc(up, g, init, last);
    }
  }

  lemma {:induction false} ArrangeMore(up: char -> char, g: string, names: seq<string>, s: seq<Driver>)
    ensures Arrange(up, [g] + names, s) == MoveToFront(up, g, Arrange(up, names, s))
  {
    assert ([g] + names)[1..] == names;
  }

  /** CmpDoSort with the names before `current` still to handle. */
  ghost predicate Arranging(up: char -> char, order: string, was: seq<Driver>, s: seq<Driver>, done: seq<string>, current: int) {
    && current < |order|
    && NamesUpTo(order, current) + done == ListNames(order)
    && s == Arrange(up, done, was)
  }

  lemma {:induction false} ArrangingStart(up: char -> char, order: string, s: seq<Driver>)
    ensures Arranging(up, order, s, s, [], |order| - 1)
  {
    assert NamesUpTo(order, |order| - 1) + [] == ListNames(order);
  }

  lemma {:induction false} ArrangingStep(
      up: char -> char, order: string, was: seq<Driver>, s: seq<Driver>, done: seq<string>, current: nat, start: nat, end: nat)
    requires Arranging(up, order, was, s, done, current) && Scanned(order, current, start, end)
    ensures var g := order[start..end]; Arranging(up, order, was, MoveToFront(up, g, s), [g] + done, start - 1)
  {
    hide Arrange, MoveToFront, NamesUpTo;
    var g, rest := order[start..end], NamesUpTo(order, start - 1);
    ScannedIs(order, current, start, end);
    ArrangeMore(up, g, done, was);
    assert rest + [g] + done == rest + ([g] + done);
  }

  lemma {:induction false} ArrangingDone(up: char -> char, order: string, was: seq<Driver>, s: seq<Driver>, done: seq<string>, current: int)
    requires Arranging(up, order, was, s, done, current) && current <= 0
    ensures s == Arrange(up, ListNames(order), was)
  {
    assert [] + done == done;
  }

  /** The drivers of the listed groups, group by group, each in the order of `s`. */
  function Blocks(up: char -> char, names: seq<string>, s: seq<Driver>): seq<Driver> {
    if names == [] then [] else Filter(InGroup(up, names[0]), s) + Blocks(up, names[1..], s)
  }

  lemma {:induction false} BlocksMembers(up: char -> char, names: seq<string>, s: seq<Driver>)
    ensures forall d :: d in Blocks(up, names, s) <==> d in s && ListedIn(up, names, d)
  {
    if names != [] {
      BlocksMembers(up, names[1..], s);
      forall d ensures ListedIn(up, names, d) <==> Belongs(up, names[0], d) || ListedIn(up, names[1..], d) {
        if ListedIn(up, names, d) && !Belongs(up, names[0], d) {
          var i :| 0 <= i < |names| && Belongs(up, names[i], d);
          assert names[i] == names[1..][i - 1];
        }
        if ListedIn(up, names[1..], d) {
          var i :| 0 <= i < |names[1..]| && Belongs(up, names[1..][i], d);
          assert names[1..][i] == names[i + 1];
        }
      }
    }
  }

  lemma {:induction false} OneGroupOnly(up: char -> char, names: seq<string>, d: Driver)
    requires names != [] && Distinct(up, names)
    ensures !(Belongs(up, names[0], d) && ListedIn(up, names[1..], d))
    ensures ListedIn(up, names, d) <==> Belongs(up, names[0], d) || ListedIn(up, names[1..], d)
  {
    if ListedIn(up, names[1..], d) {
      var i :| 0 <= i < |names[1..]| && Belongs(up, names[1..][i], d);
      assert names[1..][i] == names[i + 1];
      assert !EqualNames(up, names[0], names[i + 1]);
    }
    if ListedIn(up, names, d) && !Belongs(up, names[0], d) {
      var i :| 0 <= i < |names| && Belongs(up, names[i], d);
      assert names[i] == names[1..][i - 1];
    }
  }

  /** The pass for the first name, over a list that the other passes have arranged. */
  lemma {:induction false} LastPass(up: char -> char, names: seq<string>, found: seq<Driver>)
    requires names != [] && Distinct(up, names)
    ensures var s, g, rest := Reverse(found), names[0], names[1..];
      var arranged := Blocks(up, rest, found) + Filter(Unlisted(up, rest), s);
      && Filter(InGroup(up, g), arranged) == Filter(InGroup(up, g), s)
      && Filter(NotInGroup(up, g), arranged) == Blocks(up, rest, found) + Filter(Unlisted(up, names), s)
  {
    var s, g, rest := Reverse(found), names[0], names[1..];
    var blocks, tail := Blocks(up, rest, found), Filter(Unlisted(up, rest), s);
    BlocksMembers(up, rest, found);
    FilterConcat(InGroup(up, g), blocks, tail);
    FilterConcat(NotInGroup(up, g), blocks, tail);
    assert forall d :: d in blocks ==> !Belongs(up, g, d) by {
      forall d | d in blocks ensures !Belongs(up, g, d) { OneGroupOnly(up, names, d); }
    }
    FilterNone(InGroup(up, g), blocks);
    FilterAll(NotInGroup(up, g), blocks);
    forall d | d in s
      ensures InGroup(up, g)(d) == (InGroup(up, g)(d) && Unlisted(up, rest)(d))
      ensures Unlisted(up, names)(d) == (NotInGroup(up, g)(d) && Unlisted(up, rest)(d))
    {
      OneGroupOnly(up, names, d);
    }
    FilterFilter(InGroup(up, g), Unlisted(up, rest), InGroup(up, g), s);
    FilterFilter(NotInGroup(up, g), Unlisted(up, rest), Unlisted(up, names), s);
  }

  /**
    With distinct names the passes put the listed groups in list order and restore the
    enumeration order inside each of them; what is not listed stays behind, in the
    reversed order that the head insertions left.
  */
  lemma {:induction false} ArrangedInOrder(up: char -> char, names: seq<string>, found: seq<Driver>)
    requires Distinct(up, names)
    ensures Arrange(up, names, Reverse(found)) == Blocks(up, names, found) + Filter(Unlisted(up, names), Reverse(found))
  {
    var s := Reverse(found);
    if names == [] {
      FilterAll(Unlisted(up, names), s);
    } else {
      var g := InGroup(up, names[0]);
      ArrangedInOrder(up, names[1..], found);
      LastPass(up, names, found);
      FilterReverse(g, found);
      ReverseReverse(Filter(g, found));
    }
  }

  lemma {:induction false} BlocksConcat(up: char -> char, a: seq<string>, b: seq<string>, s: seq<Driver>)
    ensures Blocks(up, a + b, s) == Blocks(up, a, s) + Blocks(up, b, s)
  {
    hide Filter;
    if a == [] {
      assert a + b == b;
    } else {
      var ab := a + b;
      assert ab[0] == a[0] && ab[1..] == a[1..] + b;
      BlocksConcat(up, a[1..], b, s);
    }
  }

  // ----- lists that name a group more than once -----

  function OtherNames(up: char -> char, g: string, names: seq<string>): seq<string> {
    if names == [] then [] else
    (if EqualNames(up, g, names[0]) then [] else [names[0]]) + OtherNames(up, g, names[1..])
  }

  /** Each name at its first place only. */
  function FirstNames(up: char -> char, names: seq<string>): seq<string> {
    if names == [] then [] else [names[0]] + OtherNames(up, names[0], FirstNames(up, names[1..]))
  }

  lemma {:induction false} OtherNamesHas(up: char -> char, g: string, names: seq<string>)
    ensures forall h :: h in OtherNames(up, g, names) <==> h in names && !EqualNames(up, g, h)
    ensures Distinct(up, names) ==> Distinct(up, OtherNames(up, g, names))
    ensures |OtherNames(up, g, names)| <= |names|
  {
    hide EqualNames;
    if names != [] {
      var rest := names[1..];
      OtherNamesHas(up, g, rest);
      if Distinct(up, names) {
        DistinctTail(up, names);
        if !EqualNames(up, g, names[0]) {
          DistinctCons(up, names[0], OtherNames(up, g, rest));
        }
      }
    }
  }

  lemma {:induction false} DistinctTail(up: char -> char, names: seq<string>)
    requires names != [] && Distinct(up, names)
    ensures Distinct(up, names[1..]) && forall h :: h in names[1..] ==> !EqualNames(up, names[0], h)
  {
    hide EqualNames;
  }

  lemma {:induction false} DistinctCons(up: char -> char, g: string, names: seq<string>)
    requires Distinct(up, names) && forall h :: h in names ==> !EqualNames(up, g, h)
    ensures Distinct(up, [g] + names)
  {
    hide EqualNames;
  }

  lemma {:induction false} FirstNamesAre(up: char -> char, names: seq<string>)
    ensures Distinct(up, FirstNames(up, names)) && forall h :: h in FirstNames(up, names) ==> h in names
    ensures Distinct(up, names) ==> FirstNames(up, names) == names
  {
    hide EqualNames;
    if names != [] {
      var g, rest := names[0], names[1..];
      FirstNamesAre(up, rest);
      OtherNamesHas(up, g, FirstNames(up, rest));
      DistinctCons(up, g, OtherNames(up, g, FirstNames(up, rest)));
      if Distinct(up, names) {
        DistinctTail(up, names);
        NoOtherNames(up, g, rest);
      }
    }
  }

  lemma {:induction false} NoOtherNames(up: char -> char, g: string, names: seq<string>)
    requires forall h :: h in names ==> !EqualNames(up, g, h)
    ensures OtherNames(up, g, names) == names
  {
    hide EqualNames;
    if names != [] {
      NoOtherNames(up, g, names[1..]);
    }
  }

  lemma {:induction false} ListedHas(up: char -> char, names: seq<string>, d: Driver)
    ensures ListedIn(up, names, d) <==> exists h :: h in names && Belongs(up, h, d)
  {
    hide Belongs;
    if h :| h in names && Belongs(up, h, d) {
      var i :| 0 <= i < |names| && names[i] == h;
      assert Belongs(up, names[i], d);
    }
  }

  lemma {:induction false} TwoNames(up: char -> char, g: string, h: string, d: Driver)
    requires Belongs(up, g, d)
    ensures Belongs(up, h, d) <==> EqualNames(up, g, h)
  {
  }

  /** Taking out repeated names changes nothing about which drivers are listed. */
  lemma {:induction false} FirstNamesList(up: char -> char, names: seq<string>, d: Driver)
    ensures ListedIn(up, FirstNames(up, names), d) <==> ListedIn(up, names, d)
  {
    hide EqualNames, Belongs, ListedIn, Distinct;
    ListedHas(up, names, d);
    ListedHas(up, FirstNames(up, names), d);
    if names != [] {
      var g, rest := names[0], names[1..];
      FirstNamesList(up, rest, d);
      ListedHas(up, rest, d);
      ListedHas(up, FirstNames(up, rest), d);
      OtherNamesHas(up, g, FirstNames(up, rest));
      FirstNamesAre(up, names);
      if h :| h in rest && Belongs(up, h, d) {
        var f :| f in FirstNames(up, rest) && Belongs(up, f, d);
        if EqualNames(up, g, f) {
          BelongsEqual(up, g, f, d);
        }
      }
    }
  }

  lemma {:induction false} BelongsEqual(up: char -> char, g: string, h: string, d: Driver)
    requires EqualNames(up, g, h) && Belongs(up, h, d)
    ensures Belongs(up, g, d)
  {
  }

  /** The listed groups stand in list order, in front of everything else. */
  ghost predicate Grouped(up: char -> char, names: seq<string>, s: seq<Driver>) {
    s == Blocks(up, names, s) + Filter(Unlisted(up, names), s)
  }

  /** A pass takes the drivers of its group out of the blocks, and leaves the other blocks. */
  lemma {:induction false} BlocksWithout(up: char -> char, g: string, names: seq<string>, s: seq<Driver>)
    ensures Filter(NotInGroup(up, g), Blocks(up, names, s)) == Blocks(up, OtherNames(up, g, names), s)
  {
    hide EqualNames, Belongs, Reverse;
    if names != [] {
      var h, rest := names[0], names[1..];
      var block := Filter(InGroup(up, h), s);
      BlocksWithout(up, g, rest, s);
      FilterConcat(NotInGroup(up, g), block, Blocks(up, rest, s));
      if EqualNames(up, g, h) {
        forall d | d in block ensures !NotInGroup(up, g)(d) {
          BelongsEqual(up, g, h, d);
        }
        FilterNone(NotInGroup(up, g), block);
        assert OtherNames(up, g, names) == OtherNames(up, g, rest);
      } else {
        forall d | d in block ensures NotInGroup(up, g)(d) {
          if Belongs(up, g, d) {
            TwoNames(up, g, h, d);
          }
        }
        FilterAll(NotInGroup(up, g), block);
        assert OtherNames(up, g, names)[1..] == OtherNames(up, g, rest);
      }
    }
  }

  /** Blocks of other groups do not see a move of group `g`. */
  lemma {:induction false} BlocksMoved(up: char -> char, g: string, names: seq<string>, s: seq<Driver>)
    requires forall h :: h in names ==> !EqualNames(up, g, h)
    ensures Blocks(up, names, MoveToFront(up, g, s)) == Blocks(up, names, s)
  {
    hide EqualNames, Belongs, Reverse, MoveToFront;
    if names != [] {
      BlocksMoved(up, g, names[1..], s);
      BlockMoved(up, g, names[0], s);
    }
  }

  lemma {:induction false} BlockMoved(up: char -> char, g: string, h: string, s: seq<Driver>)
    requires !EqualNames(up, g, h)
    ensures Filter(InGroup(up, h), MoveToFront(up, g, s)) == Filter(InGroup(up, h), s)
  {
    hide EqualNames, Belongs;
    var mine, others := Reverse(Filter(InGroup(up, g), s)), Filter(NotInGroup(up, g), s);
    FilterConcat(InGroup(up, h), mine, others);
    forall d | d in mine ensures !InGroup(up, h)(d) {
      assert d in Filter(InGroup(up, g), s) && InGroup(up, g)(d);
      TwoNames(up, g, h, d);
    }
    FilterNone(InGroup(up, h), mine);
    forall d | d in s ensures InGroup(up, h)(d) == (InGroup(up, h)(d) && NotInGroup(up, g)(d)) {
      if Belongs(up, g, d) {
        TwoNames(up, g, h, d);
      }
    }
    FilterFilter(InGroup(up, h), NotInGroup(up, g), InGroup(up, h), s);
  }

  /** What a pass leaves in front and behind. */
  lemma {:induction false} MovedParts(up: char -> char, g: string, s: seq<Driver>)
    ensures var a := MoveToFront(up, g, s);
      && a == Filter(InGroup(up, g), a) + Filter(NotInGroup(up, g), s)
      && Filter(NotInGroup(up, g), a) == Filter(NotInGroup(up, g), s)
  {
    hide Belongs;
    var mine, others := Reverse(Filter(InGroup(up, g), s)), Filter(NotInGroup(up, g), s);
    FilterConcat(InGroup(up, g), mine, others);
    FilterConcat(NotInGroup(up, g), mine, others);
    FilterAll(InGroup(up, g), mine);
    FilterNone(InGroup(up, g), others);
    FilterNone(NotInGroup(up, g), mine);
    FilterAll(NotInGroup(up, g), others);
    assert mine + [] == mine && [] + others == others;
  }

  /**
    Whatever the list, the passes leave the groups in the order in which they are named first,
    and the drivers of no listed group behind them in the order that they had.
  */
  lemma {:induction false} ArrangedByGroup(up: char -> char, names: seq<string>, s: seq<Driver>)
    ensures Grouped(up, FirstNames(up, names), Arrange(up, names, s))
    ensures Filter(Unlisted(up, FirstNames(up, names)), Arrange(up, names, s)) == Filter(Unlisted(up, FirstNames(up, names)), s)
    ensures multiset(Arrange(up, names, s)) == multiset(s)
  {
    hide EqualNames, Belongs, ListedIn, MoveToFront, OtherNames, Reverse;
    if names == [] {
      NothingListed(up, s);
    } else {
      var g, rest := names[0], names[1..];
      var r, first := Arrange(up, rest, s), FirstNames(up, rest);
      ArrangedByGroup(up, rest, s);
      MoveToFrontPermutes(up, g, r);
      PassGrouped(up, g, first, r, s);
    }
  }

  lemma {:induction false} NothingListed(up: char -> char, s: seq<Driver>)
    ensures Filter(Unlisted(up, []), s) == s
  {
    FilterAll(Unlisted(up, []), s);
  }

  lemma {:induction false} UnlistedCons(up: char -> char, g: string, names: seq<string>, d: Driver)
    ensures Unlisted(up, [g] + OtherNames(up, g, names))(d) == (NotInGroup(up, g)(d) && Unlisted(up, names)(d))
  {
    hide EqualNames, Belongs, ListedIn;
    var all := [g] + OtherNames(up, g, names);
    ListedHas(up, all, d);
    ListedHas(up, names, d);
    OtherNamesHas(up, g, names);
    if h :| h in names && Belongs(up, h, d) {
      if EqualNames(up, g, h) {
        BelongsEqual(up, g, h, d);
        assert g in all;
      } else {
        assert h in all;
      }
    }
    assert g in all;
  }

  lemma {:induction false} PassGrouped(up: char -> char, g: string, first: seq<string>, r: seq<Driver>, s: seq<Driver>)
    requires Grouped(up, first, r) && Filter(Unlisted(up, first), r) == Filter(Unlisted(up, first), s)
    ensures var names, a := [g] + OtherNames(up, g, first), MoveToFront(up, g, r);
      Grouped(up, names, a) && Filter(Unlisted(up, names), a) == Filter(Unlisted(up, names), s)
  {
    hide *;
    var others := OtherNames(up, g, first);
    var names, a := [g] + others, MoveToFront(up, g, r);
    var notG, out, outAll := NotInGroup(up, g), Unlisted(up, first), Unlisted(up, names);
    forall d ensures outAll(d) == (notG(d) && out(d)) {
      UnlistedCons(up, g, first, d);
    }
    MovedParts(up, g, r);
    PassBlocks(up, g, first, r);
    FilterFilter(notG, out, outAll, r);
    FilterFilter(notG, out, outAll, s);
    FilterBoth(notG, out, outAll, a);
    FilterBoth(notG, out, outAll, r);
    FilterConcat(notG, Blocks(up, first, r), Filter(out, r));
    GroupedParts(up, first, r);
    GroupedFrom(up, names, a, Filter(InGroup(up, g), a), Blocks(up, others, r), Filter(outAll, r));
  }

  lemma {:induction false} GroupedParts(up: char -> char, names: seq<string>, s: seq<Driver>)
    requires Grouped(up, names, s)
    ensures s == Blocks(up, names, s) + Filter(Unlisted(up, names), s)
  {
    hide Blocks, Filter, Unlisted;
  }

  lemma {:induction false} GroupedFrom(
      up: char -> char, names: seq<string>, s: seq<Driver>, mine: seq<Driver>, blocks: seq<Driver>, tail: seq<Driver>)
    requires s == mine + (blocks + tail)
    requires Blocks(up, names, s) == mine + blocks && Filter(Unlisted(up, names), s) == tail
    ensures Grouped(up, names, s)
  {
    assert mine + (blocks + tail) == mine + blocks + tail;
  }

  /** The blocks behind a pass: the group moved, then the other groups as they were. */
  lemma {:induction false} PassBlocks(up: char -> char, g: string, first: seq<string>, r: seq<Driver>)
    ensures var others, a := OtherNames(up, g, first), MoveToFront(up, g, r);
      && Blocks(up, [g] + others, a) == Filter(InGroup(up, g), a) + Blocks(up, others, r)
      && Blocks(up, others, r) == Filter(NotInGroup(up, g), Blocks(up, first, r))
  {
    hide EqualNames, Belongs, OtherNames, Reverse, MoveToFront, Filter;
    var others := OtherNames(up, g, first);
    OtherNamesHas(up, g, first);
    BlocksMoved(up, g, others, r);
    BlocksWithout(up, g, first, r);
    assert ([g] + others)[1..] == others;
  }

  lemma {:induction false} FilterBoth(p: Driver -> bool, q: Driver -> bool, r: Driver -> bool, s: seq<Driver>)
    requires forall d :: r(d) == (p(d) && q(d))
    ensures Filter(r, s) == Filter(q, Filter(p, s))
  {
    FilterFilter(q, p, r, s);
  }

  lemma {:induction false} BlocksPermute(up: char -> char, names: seq<string>, a: seq<Driver>, b: seq<Driver>)
    requires multiset(a) == multiset(b)
    ensures |Blocks(up, names, a)| == |Blocks(up, names, b)|
  {
    if names != [] {
      FilterPermutes(InGroup(up, names[0]), a, b);
      BlocksPermute(up, names[1..], a, b);
    }
  }
}
