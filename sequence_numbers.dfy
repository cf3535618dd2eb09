/** `sequence_numbers.py`: a named counter per key, backed by the disk
    cache's atomic increment. The value the disk cache hands out for a key it
    has not seen yet is the constructor parameter `first`; from then on every
    call adds exactly one. */
module SequenceNumbers {

  class SequenceNumbers {
    /** The last value handed out for each key. */
    var counters: map<string, int>
    /** The value handed out for a key with no counter yet. */
    const first: int
    /** Every value handed out so far, per key, in order. */
    ghost var Issued: map<string, seq<int>>

    /** Every value handed out for a key is at most its current counter. */
    ghost predicate Valid()
      reads this
    {
      && counters.Keys == Issued.Keys
      && forall key, v :: key in Issued && v in Issued[key] ==> v <= counters[key]
    }

    /** Opens the counter directory and clears it: all counters start afresh. */
    constructor (first: int)
      ensures Valid()
      ensures this.first == first
      ensures counters == map[] && Issued == map[]
    {
      this.first := first;
      counters := map[];
      Issued := map[];
    }

    /** The next value for `key`: its previous value plus one, or `first`.
        The result exceeds every value handed out for `key` before, so a
        value is never handed out twice; other keys' counters do not move. */
    method Generate(key: string) returns (v: int)
      requires Valid()
      modifies this
      ensures Valid()
      ensures v == (if key in old(counters) then old(counters)[key] + 1 else first)
      ensures counters == old(counters)[key := v]
      ensures key in old(Issued) ==> forall w :: w in old(Issued)[key] ==> w < v
      ensures Issued == old(Issued)[key := (if key in old(Issued) then old(Issued)[key] else []) + [v]]
    {
      if key in counters {
        v := counters[key] + 1;
      } else {
        v := first;
      }
      counters := counters[key := v];
      Issued := Issued[key := (if key in Issued then Issued[key] else []) + [v]];
    }
  }
}
