/**
 * The structural netlist of module.h: ports, the ordered port list of a
 * module specification, and instances binding a name to a specification.
 */
module Netlist {
  import Nets

  datatype Direction = Unknown | In | Out | InOut

  /** An immutable named terminal; a Port given only its name has width 0 and direction Unknown. */
  datatype Port = Port(name: string, width: nat := 0, dir: Direction := Unknown)

  /** `Port(name)` takes the defaults for width and direction. */
  lemma NamedPortDefaults(name: string)
    ensures Port(name).name == name
    ensures Port(name).width == 0 && Port(name).dir == Unknown
  {
  }

  /** `operator==`: field-wise comparison, which is exactly structural equality. */
  function Equals(p: Port, q: Port): (b: bool)
    ensures b <==> p == q
  {
    p.name == q.name && p.dir == q.dir && p.width == q.width
  }

  /** `operator!=` is the negation of `operator==`: ports differing in any field. */
  function NotEquals(p: Port, q: Port): (b: bool)
    ensures b <==> p.name != q.name || p.dir != q.dir || p.width != q.width
  {
    !Equals(p, q)
  }

  /** How a direction is printed. */
  function DirectionName(d: Direction): string
  {
    match d
    case Unknown => "unknown"
    case In => "in"
    case Out => "out"
    case InOut => "inout"
  }

  /** Distinct directions are printed differently. */
  lemma DirectionNameInjective(d: Direction, e: Direction)
    ensures DirectionName(d) == DirectionName(e) ==> d == e
  {
    if d != e {
      assert DirectionName(d)[0] != DirectionName(e)[0] || |DirectionName(d)| != |DirectionName(e)|;
    }
  }

  /**
   * A module specification: a name and an ordered list of ports. The class
   * also stands for its base ModuleInterface, whose public view is the name
   * and the port count; ports are appended without any check.
   */
  class ModuleSpec {
    const name: string
    var ports: seq<Port>

    constructor (name: string)
      ensures this.name == name
      ensures Size() == 0
    {
      this.name := name;
      ports := [];
    }

    /** `size()`: the number of ports in the list. */
    function Size(): (n: nat)
      reads this
      ensures n == |Ports()|
    {
      |ports|
    }

    /** `ports()`: the port list in order. */
    function Ports(): seq<Port>
      reads this
    {
      ports
    }

    /** `port(idx)`: the `idx`-th port; the index must be in range. */
    function PortAt(idx: nat): (p: Port)
      reads this
      requires idx < Size()
      ensures p == Ports()[idx]
    {
      ports[idx]
    }

    /** Appends a port: one more port, the new one last, the earlier ones untouched. */
    method PushBack(p: Port)
      modifies this
      ensures Size() == old(Size()) + 1
      ensures PortAt(Size() - 1) == p
      ensures forall i | 0 <= i < old(Size()) :: PortAt(i) == old(PortAt(i))
      ensures Ports() == old(Ports()) + [p]
    {
      ports := ports + [p];
    }
  }

  /**
   * A named occurrence of a module specification. No member ever changes the
   * specification or the connection map after construction, and no member
   * adds connections, so the map stays empty.
   */
  class ModuleInstance {
    const name: string
    const iface: ModuleSpec?
    const connections: map<Port, Nets.Net>

    constructor (name: string, iface: ModuleSpec?)
      ensures this.name == name && this.iface == iface
      ensures Connections() == map[]
    {
      this.name := name;
      this.iface := iface;
      connections := map[];
    }

    /** `iface()`: the specification given at construction, which must not be null. */
    function Iface(): (s: ModuleSpec)
      requires iface != null
      ensures s == iface
    {
      iface
    }

    /** `connections()`: a copy of the port-to-net map. */
    function Connections(): map<Port, Nets.Net>
    {
      connections
    }
  }
}
