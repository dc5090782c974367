/**
  Registry paths (ntoskrnl/config/cmparse.c): splitting them into key names, and the stack of
  names and hashes with which the KCB cache is searched.  Strings are counted, as UNICODE_STRING
  is; `hash` stands for COMPUTE_HASH_CHAR.
*/
module KeyPath {

  const SEP := '\\'
  const NUL := '\0'
  const DepthLimit := 32       // CMP_SUBKEY_LEVELS_DEPTH_LIMIT

  type Hash = (nat, char) -> nat

  // ----- what a path means -----

  /** The path without its leading separators. */
  function Trim(path: string): (r: string)
    ensures |r| <= |path| && (r != [] ==> r[0] != SEP)
  {
    if path != [] && path[0] == SEP then Trim(path[1..]) else path
  }

  /** The length of the name at the start of the path. */
  function NameLen(path: string): (n: nat)
    ensures n <= |path| && SEP !in path[..n] && (n < |path| ==> path[n] == SEP)
  {
    if path == [] || path[0] == SEP then 0 else
    assert path[..1 + NameLen(path[1..])] == [path[0]] + path[1..][..NameLen(path[1..])];
    1 + NameLen(path[1..])
  }

  /** The names in a path. */
  function Names(path: string): (names: seq<string>)
    decreases |path|
  {
    var p := Trim(path);
    if p == [] then [] else
    var n := NameLen(p);
    [p[..n]] + Names(p[n..])
  }

  ghost predicate IsName(name: string) {
    name != [] && SEP !in name
  }

  lemma {:induction false} NamesAreNames(path: string, i: nat)
    requires i < |Names(path)|
    ensures IsName(Names(path)[i])
    decreases |path|
  {
    var p := Trim(path);
    var n := NameLen(p);
    if i > 0 {
      NamesAreNames(p[n..], i - 1);
    }
  }

  /** Where the first name ends. */
  lemma {:induction false} NameLenIs(name: string, rest: string)
    requires SEP !in name && (rest != [] ==> rest[0] == SEP)
    ensures NameLen(name + rest) == |name|
  {
    if name == [] {
      assert name + rest == rest;
    } else {
      assert (name + rest)[1..] == name[1..] + rest;
      NameLenIs(name[1..], rest);
    }
  }

  lemma {:induction false} TrimIs(path: string, k: nat)
    requires k <= |path| && (forall i :: 0 <= i < k ==> path[i] == SEP) && (k < |path| ==> path[k] != SEP)
    ensures Trim(path) == path[k..]
  {
    if k > 0 {
      TrimIs(path[1..], k - 1);
      assert path[1..][k - 1..] == path[k..];
    }
  }

  lemma {:induction false} TrimTrim(path: string)
    ensures Names(Trim(path)) == Names(path)
  {
    TrimIs(Trim(path), 0);
  }

  // ----- CmpGetNextName -----

  method GetNextName(remaining: string) returns (valid: bool, next: string, rest: string, last: bool)
    ensures Blank(remaining) ==> valid && next == [] && last && rest == remaining
    ensures !Blank(remaining) && Names(remaining) == [] ==> valid && next == [] && last && rest == []
    ensures !Blank(remaining) && Names(remaining) != [] ==>
              next == Names(remaining)[0] && Names(rest) == Names(remaining)[1..] && (last <==> rest == [])
    ensures !Blank(remaining) ==> |rest| < |remaining| && (rest != [] ==> rest[0] == SEP)
    ensures valid <==> |next| <= 256
  {
    if remaining == [] || remaining[0] == NUL {
      return true, [], remaining, true;
    }
    var i := 0;
    while i < |remaining| && remaining[i] == SEP
      invariant 0 <= i <= |remaining| && forall k :: 0 <= k < i ==> remaining[k] == SEP
    {
      i := i + 1;
    }
    TrimIs(remaining, i);
    var j := i;
    while j < |remaining| && remaining[j] != SEP
      invariant i <= j <= |remaining| && SEP !in remaining[i..j]
    {
      j := j + 1;
    }
    next, rest := remaining[i..j], remaining[j..];
    assert remaining[i..] == next + rest;
    NameLenIs(next, rest);
    valid := 2 * |next| <= 512;
    last := rest == [];
  }

  /** Nothing is left of the name, for CmpGetNextName. */
  predicate Blank(path: string) {
    path == [] || path[0] == NUL
  }

  /** The names that the parse routine gets from CmpGetNextName, or failure at one that is too long. */
  method WalkNames(path: string) returns (ok: bool, names: seq<string>)
    ensures ok <==> Blank(path) || forall i :: 0 <= i < |Names(path)| ==> |Names(path)[i]| <= 256
    ensures ok ==> names == if Blank(path) then [] else Names(path)
  {
    hide Names, Walked;
    names := [];
    var rest := path;
    WalkStart(path);
    while true
      invariant Walked(path, names, rest)
      invariant (rest == path && names == []) || (!Blank(path) && rest != [] && rest[0] == SEP)
      decreases |rest|
    {
      var valid, next, after, last := GetNextName(rest);
      NamesNonEmpty(rest);
      if !valid {
        WalkFails(path, names, rest);
        return false, names;
      }
      if next == [] {
        if !Blank(rest) {
          WalkDone(path, names, rest);
        }
        return true, names;
      }
      WalkOn(path, names, rest, after);
      names := names + [next];
      if last {
        NamesOfNothing((c, d) => 0, 0);
        WalkDone(path, names, after);
        return true, names;
      }
      rest := after;
    }
  }

  ghost predicate Walked(path: string, names: seq<string>, rest: string) {
    Names(path) == names + Names(rest) && forall i :: 0 <= i < |names| ==> |names[i]| <= 256
  }

  lemma {:induction false} WalkStart(path: string)
    ensures Walked(path, [], path)
  {
    assert [] + Names(path) == Names(path);
  }

  lemma {:induction false} WalkOn(path: string, names: seq<string>, rest: string, after: string)
    requires Walked(path, names, rest) && Names(rest) != [] && Names(after) == Names(rest)[1..] && |Names(rest)[0]| <= 256
    ensures Walked(path, names + [Names(rest)[0]], after)
  {
    hide Names;
    assert Names(rest) == [Names(rest)[0]] + Names(after);
    assert names + ([Names(rest)[0]] + Names(after)) == names + [Names(rest)[0]] + Names(after);
  }

  lemma {:induction false} WalkDone(path: string, names: seq<string>, rest: string)
    requires Walked(path, names, rest) && Names(rest) == []
    ensures names == Names(path) && forall i :: 0 <= i < |Names(path)| ==> |Names(path)[i]| <= 256
  {
    hide Names;
    assert names + [] == names;
  }

  lemma {:induction false} WalkFails(path: string, names: seq<string>, rest: string)
    requires Walked(path, names, rest) && Names(rest) != [] && |Names(rest)[0]| > 256
    ensures exists i :: 0 <= i < |Names(path)| && |Names(path)[i]| > 256
  {
    hide Names;
    assert Names(path)[|names|] == Names(rest)[0];
  }

  lemma {:induction false} NamesNonEmpty(path: string)
    ensures Names(path) == [] || Names(path)[0] != []
  {
    if Names(path) != [] {
      NamesAreNames(path, 0);
    }
  }

  /** The two ways of splitting a path see different names exactly when it starts with a NUL. */
  lemma {:induction false} NulHidesNames(path: string)
    ensures (if Blank(path) then [] else Names(path)) != Names(path) <==> path != [] && path[0] == NUL
  {
    if path != [] && path[0] == NUL {
      TrimIs(path, 0);
      assert path[0..] == path;
    }
  }

  // ----- CmpComputeHashValue -----

  datatype Entry = Entry(name: string, conv: nat)

  function HashName(hash: Hash, conv: nat, name: string): nat
    decreases |name|
  {
    if name == [] then conv else HashName(hash, hash(conv, name[0]), name[1..])
  }

  /** Each name with the hash that a KCB for it has, walking down from `conv`. */
  function Entries(hash: Hash, conv: nat, names: seq<string>): (r: seq<Entry>)
    ensures |r| == |names|
    decreases |names|
  {
    if names == [] then [] else
    var c := HashName(hash, conv, names[0]);
    [Entry(names[0], c)] + Entries(hash, c, names[1..])
  }

  function Limited<T>(s: seq<T>): (r: seq<T>)
    ensures |r| <= DepthLimit
  {
    if |s| <= DepthLimit then s else s[..DepthLimit]
  }

  lemma {:induction false} HashSnoc(hash: Hash, conv: nat, name: string, c: char)
    ensures HashName(hash, conv, name + [c]) == hash(HashName(hash, conv, name), c)
    decreases |name|
  {
    if name == [] {
      assert name + [c] == [c];
    } else {
      assert (name + [c])[1..] == name[1..] + [c];
      HashSnoc(hash, hash(conv, name[0]), name[1..], c);
    }
  }

  /** The first `total` names have been read; the others start at `from`, with hash `below` above them. */
  ghost predicate Reading(hash: Hash, conv: nat, path: string, total: nat, from: nat, below: nat) {
    && from <= |path| && (from < |path| ==> path[from] != SEP)
    && var all := Entries(hash, conv, Names(path));
       total <= |all| && all[total..] == Entries(hash, below, Names(path[from..]))
  }

  lemma {:induction false} ReadStart(hash: Hash, conv: nat, path: string, k: nat)
    requires k <= |path| && (forall i :: 0 <= i < k ==> path[i] == SEP) && (k < |path| ==> path[k] != SEP)
    ensures Reading(hash, conv, path, 0, k, conv)
  {
    TrimIs(path, k);
    TrimTrim(path);
  }

  lemma {:induction false} FirstName(name: string, tail: string, gap: nat)
    requires IsName(name) && gap <= |tail| && (forall i :: 0 <= i < gap ==> tail[i] == SEP)
    requires gap < |tail| ==> tail[gap] != SEP && 0 < gap
    ensures Names(name + tail) == [name] + Names(tail[gap..])
  {
    var path := name + tail;
    assert path[0] in name;
    TrimIs(path, 0);
    NameLenIs(name, tail);
    assert path[..|name|] == name && path[|name|..] == tail;
    TrimIs(tail, gap);
    TrimTrim(tail);
  }

  lemma {:induction false} NamesFrom(path: string, from: nat, pos: nat, after: nat)
    requires from < pos <= after <= |path| && SEP !in path[from..pos]
    requires (forall i :: pos <= i < after ==> path[i] == SEP) && (after < |path| ==> path[after] != SEP && pos < after)
    ensures Names(path[from..]) == [path[from..pos]] + Names(path[after..])
  {
    hide Names;
    var name, tail := path[from..pos], path[pos..];
    assert path[from..] == name + tail && tail[after - pos..] == path[after..];
    FirstName(name, tail, after - pos);
  }

  /** The name in path[from..pos] is complete, and the next one starts at `after`. */
  lemma {:induction false} ReadName(hash: Hash, conv: nat, path: string, total: nat, from: nat, below: nat, pos: nat, after: nat)
    requires Reading(hash, conv, path, total, from, below) && from < pos <= after <= |path| && SEP !in path[from..pos]
    requires (forall i :: pos <= i < after ==> path[i] == SEP) && (after < |path| ==> path[after] != SEP && pos < after)
    ensures total + 1 <= |Entries(hash, conv, Names(path))|
    ensures var name := path[from..pos];
            && Reading(hash, conv, path, total + 1, after, HashName(hash, below, name))
            && Entries(hash, conv, Names(path))[..total + 1] == Entries(hash, conv, Names(path))[..total] + [Entry(name, HashName(hash, below, name))]
  {
    hide HashName, Names;
    NamesFrom(path, from, pos, after);
    var name, names := path[from..pos], Names(path[after..]);
    var all := Entries(hash, conv, Names(path));
    var tail := all[total..];
    assert tail == Entries(hash, below, [name] + names);
    assert ([name] + names)[1..] == names;
    assert tail[0] == all[total] && tail[1..] == all[total + 1..];
  }

  /** CmpComputeHashValue: the stack holds the names of the path, in order and each with its KCB's hash. */
  method ComputeHashValue(hash: Hash, path: string, conv: nat, stack: array<Entry>) returns (remaining: nat, total: nat, asserted: bool)
    requires stack.Length >= DepthLimit
    modifies stack
    ensures asserted <==> Names(path) == [] || path == [] || path[|path| - 1] != SEP
    ensures total == |Names(path)| && remaining <= DepthLimit
    ensures stack[..remaining] == Limited(Entries(hash, conv, Names(path)))
  {
    hide Names, Entries, HashName, Reading;
    if path == [] {
      NamesOfNothing(hash, conv);
      return 0, 0, true;
    }
    var pos := 0;
    while pos < |path| && path[pos] == SEP
      invariant 0 <= pos <= |path| && forall k :: 0 <= k < pos ==> path[k] == SEP
    {
      pos := pos + 1;
    }
    ReadStart(hash, conv, path, pos);
    ghost var all := Entries(hash, conv, Names(path));
    ghost var from, below := pos, conv;
    var length, copy, start := 0, conv, pos;
    remaining, total, asserted := 0, 0, true;
    EmptyName(hash, conv);
    while pos < |path|
      invariant from <= pos <= |path| && SEP !in path[from..pos] && (from == pos == |path| || (pos < |path| && (pos == from ==> path[pos] != SEP)))
      invariant Reading(hash, conv, path, total, from, below) && copy == HashName(hash, below, path[from..pos])
      invariant asserted || (pos == |path| && total > 0 && path[pos - 1] == SEP)
      invariant asserted && pos == |path| && total > 0 ==> path[pos - 1] != SEP
      invariant total <= |all| && remaining == (if total < DepthLimit then total else DepthLimit)
      invariant stack[..remaining] == all[..remaining]
      invariant pos < |path| && remaining < DepthLimit ==> start == from && length == pos - from
      decreases |path| - pos
    {
      if path[pos] != SEP {
        HashSnoc(hash, below, path[from..pos], path[pos]);
        assert path[from..pos] + [path[pos]] == path[from..pos + 1];
        copy := hash(copy, path[pos]);
        pos := pos + 1;
        length := length + 1;
        if pos == |path| {
          ReadName(hash, conv, path, total, from, below, pos, pos);
          if remaining < DepthLimit {
            stack[remaining] := Entry(path[start..start + length], copy);
            remaining := remaining + 1;
          }
          total := total + 1;
          from, below := pos, copy;
          EmptyName(hash, below);
          assert path[from..pos] == [];
        }
      } else {
        ghost var end := pos;
        while pos < |path| && path[pos] == SEP
          invariant end <= pos <= |path| && forall k :: end <= k < pos ==> path[k] == SEP
        {
          pos := pos + 1;
        }
        asserted := asserted && pos < |path|;   // ASSERT(RemainingNameLength != 0)
        ReadName(hash, conv, path, total, from, below, end, pos);
        total := total + 1;
        if remaining < DepthLimit {
          stack[remaining] := Entry(path[start..start + length], copy);
          remaining := remaining + 1;
          length := 0;
          if remaining < DepthLimit {
            start := pos;
          }
        }
        from, below := pos, copy;
        EmptyName(hash, below);
        assert path[from..pos] == [];
      }
    }
    ReadAll(hash, conv, path, total, from, below);
  }

  /** The path of a key with a separator behind it. */
  lemma {:induction false} TrailingSeparator()
    ensures Names("a\\") == ["a"] && "a\\"[1] == SEP
  {
    var path := "a\\";
    NameLenIs("a", [SEP]);
    assert "a" + [SEP] == path && Trim(path) == path;
    assert path[1..] == [SEP] && Trim([SEP]) == [];
  }

  lemma {:induction false} TrimTrailing(path: string)
    ensures Trim(path + [SEP]) == if Trim(path) == [] then [] else Trim(path) + [SEP]
  {
    if path == [] {
      assert path + [SEP] == [SEP] && [SEP][1..] == [];
    } else if path[0] == SEP {
      assert (path + [SEP])[1..] == path[1..] + [SEP];
      TrimTrailing(path[1..]);
    }
  }

  /** A separator at the end of a path adds no name. */
  lemma {:induction false} NamesTrailing(path: string)
    ensures Names(path + [SEP]) == Names(path)
    decreases |path|
  {
    TrimTrailing(path);
    var p := Trim(path);
    if p != [] {
      var n := NameLen(p);
      var q := p + [SEP];
      NameLenIs(p[..n], p[n..] + [SEP]);
      assert p[..n] + (p[n..] + [SEP]) == q;
      assert q[..n] == p[..n] && q[n..] == p[n..] + [SEP];
      assert n > 0;
      NamesTrailing(p[n..]);
    }
  }

  /** CmpParseKey takes such separators off first, so that the assertion holds for what is left. */
  method StripSeparators(path: string) returns (rest: string)
    ensures rest <= path && Names(rest) == Names(path) && (rest == [] || rest[|rest| - 1] != SEP)
  {
    hide Names;
    var n := |path|;
    assert path[..n] == path;
    while n > 0 && path[n - 1] == SEP
      invariant 0 <= n <= |path| && Names(path[..n]) == Names(path)
    {
      assert path[..n] == path[..n - 1] + [SEP];
      NamesTrailing(path[..n - 1]);
      n := n - 1;
    }
    rest := path[..n];
  }

  lemma {:induction false} NamesOfNothing(hash: Hash, conv: nat)
    ensures Names([]) == [] && Entries(hash, conv, []) == []
  {
  }

  lemma {:induction false} EmptyName(hash: Hash, conv: nat)
    ensures HashName(hash, conv, []) == conv
  {
  }

  lemma {:induction false} ReadAll(hash: Hash, conv: nat, path: string, total: nat, from: nat, below: nat)
    requires Reading(hash, conv, path, total, from, below) && from == |path|
    ensures total == |Names(path)| == |Entries(hash, conv, Names(path))|
  {
    var all := Entries(hash, conv, Names(path));
    assert path[from..] == [];
    NamesOfNothing(hash, below);
    assert |all[total..]| == 0;
  }

  // ----- CmpRemoveSubkeysInRemainingName -----

  lemma {:induction false} AfterName(path: string, rest: string)
    requires Names(path) != [] && path[0] != SEP && |Names(path)[0]| <= |path| && rest == Trim(path[|Names(path)[0]|..])
    ensures Names(rest) == Names(path)[1..]
  {
    TrimIs(path, 0);
    TrimTrim(path[|Names(path)[0]|..]);
  }

  lemma {:induction false} NameFits(path: string)
    requires Names(path) != []
    ensures path != [] && (path[0] != SEP ==> |Names(path)[0]| <= |path|)
  {
    if path[0] != SEP {
      TrimIs(path, 0);
    }
  }

  /** What is left of the path behind the names that the stack has for 0, ..., matched. */
  method RemoveSubkeys(stack: seq<Entry>, matched: nat, path: string) returns (rest: string)
    requires matched < |stack| && matched < |Names(path)|
    requires forall i :: 0 <= i <= matched ==> stack[i].name == Names(path)[i]
    ensures Names(rest) == Names(path)[matched + 1..] && (rest != [] ==> rest[0] != SEP)
  {
    hide Names;
    rest := SkipSeparators(path);
    TrimTrim(path);
    var i := 0;
    while i <= matched
      invariant 0 <= i <= matched + 1 && Names(rest) == Names(path)[i..] && (rest != [] ==> rest[0] != SEP)
    {
      ghost var was := rest;
      assert Names(was)[0] == Names(path)[i] == stack[i].name;
      NameFits(was);
      var behind := rest[|stack[i].name|..];
      rest := SkipSeparators(behind);
      AfterName(was, rest);
      assert Names(rest) == Names(path)[i + 1..];
      i := i + 1;
    }
  }

  method SkipSeparators(path: string) returns (r: string)
    ensures r == Trim(path)
  {
    var i := 0;
    while i < |path| && path[i] == SEP
      invariant 0 <= i <= |path| && forall k :: 0 <= k < i ==> path[k] == SEP
    {
      i := i + 1;
    }
    TrimIs(path, i);
    return path[i..];
  }

  // ----- the hash of a new KCB -----

  function WithoutSeparators(name: string): string {
    if name == [] then [] else
    (if name[0] != SEP then [name[0]] else []) + WithoutSeparators(name[1..])
  }

  /** The hash that CmpCreateKeyControlBlock gives to a key below a parent with hash `parent`. */
  method ConvKeyOf(hash: Hash, parent: nat, keyName: string) returns (conv: nat)
    ensures conv == HashName(hash, parent, WithoutSeparators(Trim(keyName)))
    ensures IsName(keyName) ==> conv == HashName(hash, parent, keyName)
  {
    var name := SkipSeparators(keyName);
    conv := parent;
    var i := 0;
    while i < |name|
      invariant 0 <= i <= |name|
      invariant HashName(hash, conv, WithoutSeparators(name[i..])) == HashName(hash, parent, WithoutSeparators(name))
    {
      ghost var later := WithoutSeparators(name[i + 1..]);
      assert name[i..][1..] == name[i + 1..];
      if name[i] != SEP {
        assert WithoutSeparators(name[i..]) == [name[i]] + later && ([name[i]] + later)[1..] == later;
        conv := hash(conv, name[i]);
      } else {
        assert WithoutSeparators(name[i..]) == later;
      }
      i := i + 1;
    }
    if IsName(keyName) {
      TrimIs(keyName, 0);
      NoSeparators(keyName);
    }
  }

  lemma {:induction false} NoSeparators(name: string)
    requires SEP !in name
    ensures WithoutSeparators(name) == name
  {
    if name != [] {
      NoSeparators(name[1..]);
    }
  }

  /** Names are compared without regard to case; `up` stands for RtlUpcaseUnicodeChar. */
  predicate SameName(up: char -> char, a: string, b: string) {
    |a| == |b| && forall i :: 0 <= i < |a| ==> up(a[i]) == up(b[i])
  }

  ghost predicate UpcasedHash(hash: Hash, up: char -> char) {
    forall conv, c, d :: up(c) == up(d) ==> hash(conv, c) == hash(conv, d)
  }

  lemma {:induction false} SameNameHash(hash: Hash, up: char -> char, conv: nat, a: string, b: string)
    requires UpcasedHash(hash, up) && SameName(up, a, b)
    ensures HashName(hash, conv, a) == HashName(hash, conv, b)
    decreases |a|
  {
    if a != [] {
      SameNameHash(hash, up, hash(conv, a[0]), a[1..], b[1..]);
    }
  }

  // ----- printing a path -----

  function Printed(names: seq<string>): string {
    if names == [] then [] else [SEP] + names[0] + Printed(names[1..])
  }

  lemma {:induction false} PrintedSnoc(names: seq<string>, name: string)
    ensures Printed(names + [name]) == Printed(names) + [SEP] + name
  {
    if names == [] {
      assert names + [name] == [name] && Printed([name][1..]) == [];
      assert [SEP] + name + [] == [SEP] + name;
    } else {
      assert (names + [name])[1..] == names[1..] + [name];
      PrintedSnoc(names[1..], name);
      assert [SEP] + names[0] + (Printed(names[1..]) + [SEP] + name) == [SEP] + names[0] + Printed(names[1..]) + [SEP] + name;
    }
  }

  /** Splitting a printed path gives the names back, and the parse routine sees all of it. */
  lemma {:induction false} PrintParse(names: seq<string>)
    requires forall i :: 0 <= i < |names| ==> IsName(names[i])
    ensures Names(Printed(names)) == names && (names != [] ==> !Blank(Printed(names)))
  {
    if names == [] {
      NamesOfNothing((c, d) => 0, 0);
    } else {
      var rest := Printed(names[1..]);
      PrintParse(names[1..]);
      var path := Printed(names);
      TrimIs(path, 1);
      assert path[1..] == names[0] + rest;
      NameLenIs(names[0], rest);
      assert (names[0] + rest)[..|names[0]|] == names[0] && (names[0] + rest)[|names[0]|..] == rest;
    }
  }
}
