/**
 * The result of one simulation step (sim_result.hpp): an outcome fixed at
 * construction and an optional owned list of the nets that changed, which
 * the result releases when it is destroyed.
 */
module Simulation {
  import Nets

  datatype Outcome = Ok | Changed | Error

  /** An absent or present value; the list pointer of the C++ may be null. */
  datatype Option<T> = None | Some(value: T)

  class SimResult {
    /** The owned list of changed nets; public, as in the C++. */
    var changedSigs: Option<seq<Nets.Net>>
    /** The outcome: private and never assigned after construction. */
    const result: Outcome

    /** Default construction: OK with no list. */
    constructor Default()
      ensures Result() == Ok && changedSigs == None
    {
      result := Ok;
      changedSigs := None;
    }

    /** Construction from an outcome and an optional list, both kept as given. */
    constructor (res: Outcome, changed: Option<seq<Nets.Net>> := None)
      ensures Result() == res && changedSigs == changed
    {
      result := res;
      changedSigs := changed;
    }

    /** `result()`: the outcome given at construction. */
    function Result(): Outcome
    {
      result
    }

    /**
     * The destructor's clean-up. Without a list nothing happens; otherwise
     * the first element is released and erased until the list is empty,
     * then the list itself is released. `released` is the order in which
     * the nets are released: each element of the list exactly once, front
     * to back.
     */
    method Teardown() returns (released: seq<Nets.Net>)
      modifies this
      ensures changedSigs == None
      ensures old(changedSigs) == None ==> released == []
      ensures old(changedSigs).Some? ==> released == old(changedSigs).value
    {
      released := [];
      if changedSigs.Some? {
        while changedSigs.value != []
          invariant changedSigs.Some?
          invariant released + changedSigs.value == old(changedSigs).value
          decreases |changedSigs.value|
        {
          var elem := changedSigs.value[0];
          released := released + [elem];
          changedSigs := Some(changedSigs.value[1..]);
        }
        changedSigs := None;
      }
    }
  }
}
