/**
 * The connection between modules of net.h: a named vector of values owned by
 * one instance. This is a separate draft from the aliasing Net of the
 * Signals module; here a Net holds its values itself.
 */
module Nets {

  /** The possible net values (`Net::value_t`). */
  datatype Logic = V0 | V1 | VX | VZ | VH | VL

  class Net {
    var val: seq<Logic>
    /** The names are fixed at construction: nothing can change them. */
    const name: string
    const instanceName: string

    /**
     * A net of `width` values (default 1). The value vector is
     * value-initialised, and the first enumerator V0 is what that yields.
     */
    constructor (name: string, instanceName: string, width: nat := 1)
      ensures this.name == name && this.instanceName == instanceName
      ensures Width() == width
      ensures forall i | 0 <= i < width :: Value()[i] == V0
    {
      this.name := name;
      this.instanceName := instanceName;
      val := seq(width, _ => V0);
    }

    /** The number of values the net carries: always the length of its vector. */
    function Width(): (w: nat)
      reads this
      ensures w == |Value()|
    {
      |val|
    }

    /** `value()`: the current value vector. */
    function Value(): seq<Logic>
      reads this
    {
      val
    }

    /** Replaces the values; the new vector must have exactly the current width. */
    method SetValue(v: seq<Logic>)
      requires |v| == Width()
      modifies this
      ensures Value() == v
      ensures Width() == old(Width())
    {
      val := v;
    }
  }
}
