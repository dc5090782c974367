/** The drivers that the boot loader has to put in order (ntoskrnl/config/cmboot.c). */
module Drivers {

  const NUL: char := 0 as char

  /** A driver without a "group" value has no group buffer at all. */
  datatype Group = NoGroup | Named(text: string) {
    function Text(): string {
      if NoGroup? then "" else text
    }
  }

  datatype Driver = Driver(name: string, group: Group, tag: nat)

  /** Case-insensitive equality of counted strings; `up` is the upcase table. */
  predicate EqualNames(up: char -> char, a: string, b: string) {
    |a| == |b| && forall i :: 0 <= i < |a| ==> up(a[i]) == up(b[i])
  }

  predicate SameGroup(up: char -> char, a: Driver, b: Driver) {
    EqualNames(up, a.group.Text(), b.group.Text())
  }

  lemma {:induction false} SameGroupJoin(up: char -> char, a: Driver, b: Driver, c: Driver)
    requires SameGroup(up, a, b) && SameGroup(up, a, c)
    ensures SameGroup(up, b, c)
  {
  }
}
