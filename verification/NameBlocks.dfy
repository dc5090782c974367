/**
  Name control blocks (CmpGetNameControlBlock and CmpDereferenceNameControlBlockWithLock in
  ntoskrnl/config/cmkcbncb.c, CmpCompareCompressedName in sdk/lib/cmlib/cmname.c): key names are
  kept once, upcased, with eight bits a character where all characters fit, and counted.
  Characters are 16-bit codes; `up` stands for RtlUpcaseUnicodeChar.
*/
module NameBlocks {
  import opened Common
  import opened Seqs

  type Id = nat
  type Name = seq<nat>

  /** `length` is NameLength: bytes, which are characters in a compressed name. */
  datatype Ncb = Ncb(compressed: bool, name: Name, length: nat, conv: nat, refs: nat)

  predicate Narrow(name: Name) {
    forall i :: 0 <= i < |name| ==> name[i] <= 0xFF
  }

  function Upcased(up: nat -> nat, name: Name): (r: Name)
    ensures |r| == |name| && forall i :: 0 <= i < |name| ==> r[i] == up(name[i])
  {
    seq(|name|, i requires 0 <= i < |name| => up(name[i]))
  }

  /** The case mapping is idempotent and does not cross the limit of eight bits. */
  ghost predicate Tame(up: nat -> nat) {
    forall c :: up(up(c)) == up(c) && (c <= 0xFF <==> up(c) <= 0xFF)
  }

  function LengthOf(name: Name): nat {
    if Narrow(name) then |name| else 2 * |name|
  }

  /** The stored name: truncated to eight bits where it is compressed. */
  function Stored(up: nat -> nat, name: Name, conv: nat): Ncb {
    if Narrow(name) then Ncb(true, seq(|name|, i requires 0 <= i < |name| => up(name[i]) % 0x100), |name|, conv, 1)
    else Ncb(false, Upcased(up, name), 2 * |name|, conv, 1)
  }

  // ----- comparing -----

  /** Equal in length and, without regard to case, in every character. */
  predicate SameUp(up: nat -> nat, a: Name, b: Name) {
    |a| == |b| && forall i :: 0 <= i < |a| ==> up(a[i]) == up(b[i])
  }

  method CompareCompressed(up: nat -> nat, search: Name, stored: Name) returns (differ: bool)
    ensures differ <==> !SameUp(up, search, stored)
  {
    var i := 0;
    while i < |search| && i < |stored|
      invariant 0 <= i <= |search| && i <= |stored|
      invariant forall k :: 0 <= k < i ==> up(search[k]) == up(stored[k])
    {
      if search[i] != stored[i] && up(search[i]) != up(stored[i]) {
        return true;
      }
      i := i + 1;
    }
    return |search| != |stored|;
  }

  /** The comparison with an uncompressed name, over the stored length only. */
  method CompareWide(up: nat -> nat, search: Name, stored: Name) returns (same: bool)
    requires |stored| <= |search|
    ensures same <==> forall i :: 0 <= i < |stored| ==> up(search[i]) == up(stored[i])
  {
    var i := 0;
    while i < |stored|
      invariant 0 <= i <= |stored| && forall k :: 0 <= k < i ==> up(search[k]) == up(stored[k])
    {
      if up(search[i]) != up(stored[i]) {
        return false;
      }
      i := i + 1;
    }
    return true;
  }

  /** A block that holds an upcased name. */
  ghost predicate Sound(up: nat -> nat, b: Ncb) {
    && (b.compressed <==> Narrow(b.name)) && b.length == LengthOf(b.name)
    && forall i :: 0 <= i < |b.name| ==> up(b.name[i]) == b.name[i]
  }

  lemma {:induction false} StoredSound(up: nat -> nat, name: Name, conv: nat)
    requires Tame(up)
    ensures Sound(up, Stored(up, name, conv)) && Stored(up, name, conv).name == Upcased(up, name)
  {
    var b := Stored(up, name, conv);
    if Narrow(name) {
      forall i | 0 <= i < |name| ensures b.name[i] == up(name[i]) {
      }
    } else {
      var i :| 0 <= i < |name| && name[i] > 0xFF;
      assert b.name[i] > 0xFF;
    }
  }

  /**
    The lengths are compared although one may count characters and the other bytes; still the
    code's comparison finds exactly the names that are equal when upcased.
  */
  lemma {:induction false} ComparesNames(up: nat -> nat, name: Name, b: Ncb)
    requires Tame(up) && Sound(up, b)
    ensures Upcased(up, name) == b.name <==> Matches(up, name, b)
  {
    if Upcased(up, name) == b.name {
      SameWidth(up, name, b.name);
    } else if LengthOf(name) == b.length && !b.compressed && Narrow(name) && |b.name| <= |name| {
      var i :| 0 <= i < |b.name| && b.name[i] > 0xFF;
      assert up(name[i]) != up(b.name[i]);
    }
  }

  lemma {:induction false} SameWidth(up: nat -> nat, a: Name, b: Name)
    requires Tame(up) && Upcased(up, a) == b
    ensures Narrow(a) <==> Narrow(b)
  {
    assert forall i :: 0 <= i < |a| ==> b[i] == up(a[i]) && (a[i] <= 0xFF <==> b[i] <= 0xFF);
  }

  /** The code's comparison of a name with a block, as IsFor carries it out. */
  ghost predicate Matches(up: nat -> nat, name: Name, b: Ncb) {
    && LengthOf(name) == b.length
    && if b.compressed then SameUp(up, name, b.name)
       else |b.name| <= |name| && forall i :: 0 <= i < |b.name| ==> up(name[i]) == up(b.name[i])
  }

  /** A name is found again in the block made for it exactly when each of its characters survives. */
  lemma {:induction false} FoundAgain(up: nat -> nat, name: Name, conv: nat)
    ensures Matches(up, name, Stored(up, name, conv)) <==>
              forall i :: 0 <= i < |name| ==> up(if Narrow(name) then up(name[i]) % 0x100 else up(name[i])) == up(name[i])
  {
    var b := Stored(up, name, conv);
    assert |b.name| == |name|;
    assert forall i :: 0 <= i < |name| ==> b.name[i] == if Narrow(name) then up(name[i]) % 0x100 else up(name[i]);
  }

  /** The comparison agrees with equality of upcased names. */
  ghost predicate Faithful(up: nat -> nat) {
    forall n: Name, o: Name :: Matches(up, n, Stored(up, o, 0)) <==> Upcased(up, n) == Upcased(up, o)
  }

  /**
    What it needs of the case mapping: upcasing twice is upcasing once, also across the cut to
    eight bits, and no eight-bit character shares its upper case with a wider one.
  */
  ghost predicate KeepsWidth(up: nat -> nat) {
    && (forall c :: up(up(c)) == up(c))
    && (forall c :: c <= 0xFF ==> up(up(c) % 0x100) == up(c))
    && (forall c, w :: c <= 0xFF < w ==> up(c) != up(w))
  }

  lemma {:induction false} MatchesNarrow(up: nat -> nat, n: Name, o: Name)
    requires KeepsWidth(up) && Narrow(o)
    ensures Matches(up, n, Stored(up, o, 0)) <==> Upcased(up, n) == Upcased(up, o)
  {
    var b := Stored(up, o, 0);
    assert forall i :: 0 <= i < |o| ==> up(b.name[i]) == up(o[i]);
    if Upcased(up, n) == Upcased(up, o) {
      SameUpcase(up, n, o);
    }
    if SameUp(up, n, b.name) {
      assert Upcased(up, n) == Upcased(up, o);
    }
  }

  lemma {:induction false} MatchesWide(up: nat -> nat, n: Name, o: Name)
    requires KeepsWidth(up) && !Narrow(o)
    ensures Matches(up, n, Stored(up, o, 0)) <==> Upcased(up, n) == Upcased(up, o)
  {
    var b := Stored(up, o, 0);
    assert forall i :: 0 <= i < |o| ==> up(b.name[i]) == up(o[i]);
    var k :| 0 <= k < |o| && o[k] > 0xFF;
    if Upcased(up, n) == Upcased(up, o) {
      SameUpcase(up, n, o);
    }
    if Matches(up, n, b) {
      assert up(n[k]) == up(o[k]) && n[k] > 0xFF;
      assert Upcased(up, n) == Upcased(up, o);
    }
  }

  lemma {:induction false} SameUpcase(up: nat -> nat, n: Name, o: Name)
    requires KeepsWidth(up) && Upcased(up, n) == Upcased(up, o)
    ensures |n| == |o| && (Narrow(n) <==> Narrow(o)) && forall i :: 0 <= i < |n| ==> up(n[i]) == up(o[i])
  {
    var u := Upcased(up, n);
    assert forall i :: 0 <= i < |n| ==> u[i] == up(n[i]) == up(o[i]);
  }

  /** The comparison finds exactly the names that are equal when upcased, exactly for such a mapping. */
  lemma {:induction false} FaithfulExactly(up: nat -> nat)
    ensures Faithful(up) <==> KeepsWidth(up)
  {
    hide Matches, Stored, Upcased, Narrow;
    if KeepsWidth(up) {
      forall n: Name, o: Name ensures Matches(up, n, Stored(up, o, 0)) <==> Upcased(up, n) == Upcased(up, o) {
        if Narrow(o) {
          MatchesNarrow(up, n, o);
        } else {
          MatchesWide(up, n, o);
        }
      }
    }
    if Faithful(up) {
      forall c ensures up(up(c)) == up(c) {
        if up(up(c)) != up(c) {
          MissedWide(up, c);
        }
      }
      forall c | c <= 0xFF ensures up(up(c) % 0x100) == up(c) {
        if up(up(c) % 0x100) != up(c) {
          MissedNarrow(up, c);
        }
      }
      forall c, w | c <= 0xFF < w ensures up(c) != up(w) {
        if up(c) == up(w) {
          MissedWidth(up, c, w);
        }
      }
    }
  }

  lemma {:induction false} MissedWide(up: nat -> nat, c: nat)
    requires up(up(c)) != up(c)
    ensures !Faithful(up)
  {
    var n := [c, 0x100];
    assert n[1] > 0xFF;
    FoundAgain(up, n, 0);
    assert n[0] == c && !Matches(up, n, Stored(up, n, 0));
  }

  lemma {:induction false} MissedNarrow(up: nat -> nat, c: nat)
    requires c <= 0xFF && up(up(c) % 0x100) != up(c)
    ensures !Faithful(up)
  {
    var n := [c];
    FoundAgain(up, n, 0);
    assert n[0] == c && !Matches(up, n, Stored(up, n, 0));
    assert Upcased(up, n) == Upcased(up, n);
  }

  lemma {:induction false} MissedWidth(up: nat -> nat, c: nat, w: nat)
    requires c <= 0xFF < w && up(c) == up(w)
    ensures !Faithful(up)
  {
    var n, o := [c], [w];
    assert o[0] > 0xFF;
    assert n[0] <= 0xFF && LengthOf(n) == 1 && Stored(up, o, 0).length == 2;
    assert Upcased(up, n) == Upcased(up, o) && !Matches(up, n, Stored(up, o, 0));
  }

  /** With a mapping that leaves eight bits, as from U+00FF to U+0178, a name is not found again. */
  lemma {:induction false} WideUpcase(up: nat -> nat)
    requires up(0xFF) == 0x178 && up(0x78) == 0x58
    ensures var b := Stored(up, [0xFF], 0); b.compressed && LengthOf([0xFF]) == b.length && !SameUp(up, [0xFF], b.name)
  {
    assert Stored(up, [0xFF], 0).name[0] == 0x78;
  }

  // ----- the table -----

  /** `users`: the references that callers have. */
  datatype Table = Table(blocks: map<Id, Ncb>, chains: map<nat, seq<Id>>, users: multiset<Id>)

  /** Case mapping, hash (the folded COMPUTE_HASH_CHAR, which upcases) and hash index. */
  datatype Maps = Maps(up: nat -> nat, hash: Name -> nat, index: nat -> nat)

  ghost predicate Proper(m: Maps) {
    Tame(m.up) && forall n :: m.hash(Upcased(m.up, n)) == m.hash(n)
  }

  function Chain(s: Table, i: nat): seq<Id> {
    if i in s.chains then s.chains[i] else []
  }

  ghost predicate BlockInv(s: Table, m: Maps, id: Id) {
    if id in s.blocks then
      Sound(m.up, s.blocks[id]) && s.blocks[id].conv == m.hash(s.blocks[id].name) && s.blocks[id].refs == s.users[id] > 0
    else s.users[id] == 0
  }

  ghost predicate InChain(s: Table, m: Maps, i: nat, id: Id) {
    id in s.blocks && m.index(s.blocks[id].conv) == i
  }

  /** Blocks are sound and counted, each is in its chain once, and no two have the same name. */
  ghost predicate Inv(s: Table, m: Maps) {
    && (forall id :: BlockInv(s, m, id))
    && (forall i :: i in s.chains ==> NoDup(s.chains[i]))
    && (forall i, id :: id in Chain(s, i) <==> InChain(s, m, i, id))
    && (forall a, b :: a in s.blocks && b in s.blocks && s.blocks[a].name == s.blocks[b].name ==> a == b)
  }

  ghost function Counted(s: Table, id: Id, refs: nat, users: multiset<Id>): Table
    requires id in s.blocks
  {
    s.(blocks := s.blocks[id := s.blocks[id].(refs := refs)], users := users)
  }

  lemma {:induction false} CountedInv(s: Table, m: Maps, id: Id, refs: nat, users: multiset<Id>)
    requires Inv(s, m) && id in s.blocks && refs == users[id] > 0 && forall k :: k != id ==> users[k] == s.users[k]
    ensures Inv(Counted(s, id, refs, users), m)
  {
    hide NoDup;
    var r := Counted(s, id, refs, users);
    forall k ensures BlockInv(r, m, k) {
      assert BlockInv(s, m, k);
    }
    forall i, k ensures k in Chain(r, i) <==> InChain(r, m, i, k) {
      assert k in Chain(s, i) <==> InChain(s, m, i, k);
    }
  }

  ghost function Added(s: Table, m: Maps, name: Name, id: Id): Table {
    var i := m.index(m.hash(name));
    Table(s.blocks[id := Stored(m.up, name, m.hash(name))], s.chains[i := [id] + Chain(s, i)], s.users + multiset{id})
  }

  lemma {:induction false} AddedInv(s: Table, m: Maps, name: Name, id: Id)
    requires Inv(s, m) && Proper(m) && id !in s.blocks && forall k :: k in s.blocks ==> s.blocks[k].name != Upcased(m.up, name)
    ensures Inv(Added(s, m, name, id), m)
  {
    hide Sound, NoDup;
    var r, i := Added(s, m, name, id), m.index(m.hash(name));
    StoredSound(m.up, name, m.hash(name));
    assert NoDup(Chain(s, i)) by { NoDupNone(); }
    assert !InChain(s, m, i, id);
    NoDupAppend(Chain(s, i), id);
    forall k ensures BlockInv(r, m, k) {
      assert BlockInv(s, m, k);
    }
    forall j, k ensures k in Chain(r, j) <==> InChain(r, m, j, k) {
      assert k in Chain(s, j) <==> InChain(s, m, j, k);
    }
  }

  lemma {:induction false} NoDupNone()
    ensures NoDup<Id>([])
  {
  }

  ghost function Freed(s: Table, m: Maps, id: Id): Table
    requires id in s.blocks
  {
    var i := m.index(s.blocks[id].conv);
    Table(s.blocks - {id}, s.chains[i := Without(Chain(s, i), id)], s.users - multiset{id})
  }

  lemma {:induction false} FreedInv(s: Table, m: Maps, id: Id)
    requires Inv(s, m) && id in s.blocks && s.blocks[id].refs == 1
    ensures Inv(Freed(s, m, id), m)
  {
    hide Sound, NoDup;
    var r, i := Freed(s, m, id), m.index(s.blocks[id].conv);
    assert InChain(s, m, i, id) && BlockInv(s, m, id);
    WithoutNoDup(Chain(s, i), id);
    forall k ensures BlockInv(r, m, k) {
      assert BlockInv(s, m, k);
    }
    forall j, k ensures k in Chain(r, j) <==> InChain(r, m, j, k) {
      assert k in Chain(s, j) <==> InChain(s, m, j, k);
    }
  }

  /** All blocks that can be for a name are in the chain of its hash. */
  lemma {:induction false} ChainKnown(s: Table, m: Maps, name: Name)
    requires Inv(s, m) && Proper(m)
    ensures var chain := Chain(s, m.index(m.hash(name)));
            && (forall k :: k in chain ==> k in s.blocks && Sound(m.up, s.blocks[k]))
            && (forall k :: k in s.blocks && s.blocks[k].name == Upcased(m.up, name) ==> k in chain && s.blocks[k].conv == m.hash(name))
  {
    hide Sound, NoDup;
    var i := m.index(m.hash(name));
    forall k | k in Chain(s, i) ensures k in s.blocks && Sound(m.up, s.blocks[k]) {
      assert InChain(s, m, i, k) && BlockInv(s, m, k);
    }
    forall k | k in s.blocks && s.blocks[k].name == Upcased(m.up, name) ensures k in Chain(s, i) && s.blocks[k].conv == m.hash(name) {
      assert BlockInv(s, m, k) && InChain(s, m, i, k);
    }
  }

  class NameTable {
    const m: Maps
    var blocks: map<Id, Ncb>
    var chains: map<nat, seq<Id>>
    ghost var users: multiset<Id>

    ghost function Value(): Table
      reads this
    {
      Table(blocks, chains, users)
    }

    ghost predicate Valid()
      reads this
    {
      Proper(m) && Inv(Value(), m)
    }

    constructor (m: Maps)
      requires Proper(m)
      ensures Valid() && this.m == m && blocks == map[] && users == multiset{}
    {
      this.m := m;
      blocks, chains, users := map[], map[], multiset{};
    }

    /** Whether the block in hand is the one for the name. */
    method IsFor(name: Name, conv: nat, b: Ncb) returns (found: bool)
      requires Tame(m.up) && Sound(m.up, b)
      ensures found <==> conv == b.conv && Upcased(m.up, name) == b.name
    {
      ComparesNames(m.up, name, b);
      if conv != b.conv || LengthOf(name) != b.length {
        return false;
      }
      if b.compressed {
        var differ := CompareCompressed(m.up, name, b.name);
        return !differ;
      }
      found := CompareWide(m.up, name, b.name);
    }

    /** The search through the chain of the name's hash. */
    method Find(name: Name) returns (r: Option<Id>)
      requires Valid()
      ensures r.Some? ==> r.value in blocks && blocks[r.value].name == Upcased(m.up, name)
      ensures r.None? ==> forall k :: k in blocks ==> blocks[k].name != Upcased(m.up, name)
    {
      hide Inv, Sound, Upcased;
      var conv := m.hash(name);
      var i := m.index(conv);
      var chain := if i in chains then chains[i] else [];
      ChainKnown(Value(), m, name);
      var at := 0;
      while at < |chain|
        invariant 0 <= at <= |chain|
        invariant forall j :: 0 <= j < at ==>
                    chain[j] in blocks && !(blocks[chain[j]].conv == conv && blocks[chain[j]].name == Upcased(m.up, name))
      {
        assert chain[at] in chain;
        var found := IsFor(name, conv, blocks[chain[at]]);
        if found {
          return Some(chain[at]);
        }
        at := at + 1;
      }
      return None;
    }

    /** CmpGetNameControlBlock: one block for all spellings of a name, made when there is none. */
    method Get(name: Name, id: Id, gotMemory: bool) returns (r: Option<Id>)
      requires Valid() && id !in blocks
      modifies this
      ensures Valid()
      ensures r.None? <==> !gotMemory && forall k :: k in old(blocks) ==> old(blocks)[k].name != Upcased(m.up, name)
      ensures r.None? ==> Value() == old(Value())
      ensures r.Some? ==> r.value in blocks && blocks[r.value].name == Upcased(m.up, name)
      ensures r.Some? ==>
                Value() == if r.value in old(blocks)
                           then Counted(old(Value()), r.value, old(blocks)[r.value].refs + 1, old(users) + multiset{r.value})
                           else Added(old(Value()), m, name, id)
    {
      hide Inv, Sound, Upcased, Stored;
      ghost var was := Value();
      r := Find(name);
      if r.Some? {
        var k := r.value;
        RefsKnown(was, m, k);
        CountedInv(was, m, k, blocks[k].refs + 1, users + multiset{k});
        blocks := blocks[k := blocks[k].(refs := blocks[k].refs + 1)];
        users := users + multiset{k};
      } else if gotMemory {
        AddedInv(was, m, name, id);
        StoredName(m.up, name, m.hash(name));
        var i := m.index(m.hash(name));
        blocks := blocks[id := Stored(m.up, name, m.hash(name))];
        chains := chains[i := [id] + if i in chains then chains[i] else []];
        users := users + multiset{id};
        assert Value() == Added(was, m, name, id);
        r := Some(id);
      }
    }

    /** CmpDereferenceNameControlBlockWithLock: the last user frees the block. */
    method Dereference(id: Id)
      requires Valid() && users[id] > 0
      modifies this
      ensures Valid() && id in old(blocks)
      ensures Value() == if old(blocks)[id].refs > 1 then Counted(old(Value()), id, old(blocks)[id].refs - 1, old(users) - multiset{id})
                         else Freed(old(Value()), m, id)
    {
      hide Inv, Without;
      ghost var was := Value();
      RefsKnown(was, m, id);
      if blocks[id].refs > 1 {
        CountedInv(was, m, id, blocks[id].refs - 1, users - multiset{id});
        blocks := blocks[id := blocks[id].(refs := blocks[id].refs - 1)];
      } else {
        FreedInv(was, m, id);
        var i := m.index(blocks[id].conv);
        chains := chains[i := Without(if i in chains then chains[i] else [], id)];
        blocks := blocks - {id};
      }
      users := users - multiset{id};
    }
  }

  lemma {:induction false} RefsKnown(s: Table, m: Maps, id: Id)
    requires Inv(s, m) && (id in s.blocks || s.users[id] > 0)
    ensures id in s.blocks && s.blocks[id].refs == s.users[id] > 0
  {
    assert BlockInv(s, m, id);
  }

  lemma {:induction false} StoredName(up: nat -> nat, name: Name, conv: nat)
    requires Tame(up)
    ensures Stored(up, name, conv).name == Upcased(up, name)
  {
    StoredSound(up, name, conv);
  }
}
