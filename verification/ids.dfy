/** The static `idCounter` fields of Account, User, Bank and Branch, each
    advanced by a private generateId()/generateID() as `++idCounter`.
    The counter is an object here so that the constructors that draw from
    it say so in their frames. Account and User count in a Java long, Bank
    and Branch in a Java int; `++` wraps from the largest value to the
    smallest. */
module Ids {

  const IntMax: int := 0x7FFF_FFFF
  const LongMax: int := 0x7FFF_FFFF_FFFF_FFFF

  class IdCounter {
    /** Largest value of the counter's Java type (Integer or Long MAX_VALUE). */
    const max: nat
    /** The value of the static field: the id handed out last, 0 at start. */
    var last: int

    ghost predicate Valid()
      reads this
    {
      -(max as int) - 1 <= last <= max
    }

    constructor (max: nat)
      ensures this.max == max && last == 0 && Valid()
    {
      this.max := max;
      last := 0;
    }

    /** `return ++idCounter;` */
    method Next() returns (id: int)
      requires Valid()
      modifies this
      ensures Valid() && last == id
      ensures id == if old(last) == max then -(max as int) - 1 else old(last) + 1
      ensures old(last) < max ==> id > old(last)
    {
      last := if last == max then -(max as int) - 1 else last + 1;
      id := last;
    }
  }
}
