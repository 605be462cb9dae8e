/**
 * The result of one elaboration step (elab_result.hpp): an outcome tag and,
 * depending on it, the specification still needed or the instance found.
 * The C++ union with a separate tag becomes a sum type whose payload can
 * only be read under the matching tag.
 */
module Elaboration {
  import Netlist

  datatype Outcome = NotFound | Found | NeedAnother

  datatype ElabResult =
    | Missing
    | Resolved(instance: Netlist.ModuleInstance?)
    | Needs(spec: Netlist.ModuleSpec?)
  {
    /** `result()`: the tag fixed when the result was built. */
    function Result(): Outcome
    {
      match this
      case Missing => NotFound
      case Resolved(_) => Found
      case Needs(_) => NeedAnother
    }

    /** `get_spec()`: only under NEED_ANOTHER; the specification the result was built with. */
    function GetSpec(): (s: Netlist.ModuleSpec?)
      requires Result() == NeedAnother
      ensures this == Needs(s)
    {
      spec
    }

    /** `get_instance()`: only under FOUND; the instance the result was built with. */
    function GetInstance(): (i: Netlist.ModuleInstance?)
      requires Result() == Found
      ensures this == Resolved(i)
    {
      instance
    }
  }

  /** Built from a specification: NEED_ANOTHER, and `get_spec()` gives that specification back. */
  function FromSpec(spec: Netlist.ModuleSpec?): (r: ElabResult)
    ensures r.Result() == NeedAnother
    ensures r.GetSpec() == spec
  {
    Needs(spec)
  }

  /** Built from an instance: FOUND, and `get_instance()` gives that instance back. */
  function FromInstance(instance: Netlist.ModuleInstance?): (r: ElabResult)
    ensures r.Result() == Found
    ensures r.GetInstance() == instance
  {
    Resolved(instance)
  }

  /** Default construction: NOT_FOUND, with no payload to read. */
  function NoResult(): (r: ElabResult)
    ensures r.Result() == NotFound
  {
    Missing
  }

  /**
   * Every result is one of the three constructions, and its tag says which
   * one: the tag admits exactly the accessor of the payload it was built with.
   */
  lemma ResultIsConstruction(r: ElabResult)
    ensures r.Result() == NotFound ==> r == NoResult()
    ensures r.Result() == Found ==> r == FromInstance(r.GetInstance())
    ensures r.Result() == NeedAnother ==> r == FromSpec(r.GetSpec())
  {
  }
}
