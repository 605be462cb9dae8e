# Signal and netlist data model of mhdlsim

mhdlsim coordinates several HDL simulation back ends over one shared module
hierarchy. This project models the data that all of its parts share, with
proofs about it:

- the signal fabric of `node.h`/`node.cc` (module `Signals`, file
  `signals.dfy`). A Node is a handle on a canonical value cell holding one
  of `0 1 X Z H L`. A Bus is a fixed-width sequence of handles. `slice` and
  `concat` build Buses whose positions alias the cells of their sources.
  A Net is a named Bus.
- the value-vector Net of `net.h` (module `Nets`, file `nets.dfy`): a named
  vector of values whose width `set_value` must respect.
- the netlist of `module.h` (module `Netlist`, file `netlist.dfy`): ports,
  the ordered port list of a module specification, and module instances.
- the elaboration step result of `elab_result.hpp` (module `Elaboration`,
  file `elaboration.dfy`): a three-way tagged result whose accessors demand
  the matching tag.
- the simulation step result of `sim_result.hpp` (module `Simulation`, file
  `simulation.dfy`): an outcome plus an owned list of changed nets that is
  released element by element when the result is destroyed.
- the walk-through of `nettest.cc` (module `NetTest`, file `nettest.dfy`):
  the slicing and concatenation scenario, step by step, with the four net
  lines it prints (nettest.cc:9, 15, 20, 22).

A Node handle is a reference to a `Box` object, so copying a handle shares
the cell exactly as the shared pointer does. A Bus is a value holding a
sequence of such references, since neither its width nor its node array
changes after construction. `slice` and `concat` are methods that fill a
fresh array with the source's handles, as the C++ does. Their results are
described by the predicates `IsSliceOf` and `IsConcatOf`, which state the
width and, position by position, which source cell each position holds.

In four places the code is looser than one might expect, and the model
follows the code:

- Index access through `operator[]` is not bounds-checked in the code. It
  is modelled as a precondition `idx < width`.
- `set_value` checks the width only with an `assert`. It is modelled as a
  precondition.
- There is no `make_port` and no port binding in the code. `push_back`
  appends any port, duplicate names included, and instances never get a
  connection.
- A net of `net.h` starts with every value `V0`: its vector is
  value-initialised. A node of `node.h` starts at `VX`.

## Model

| member | source | states |
|---|---|---|
| `Signals.Box.constructor` | node.h:80 | a new node owns a fresh cell holding the given value, VX when none is given |
| `Signals.Box.Value` | node.h:85-86 | `value()` and the conversion to a value read the shared cell, so they give the last value assigned through any handle on it |
| `Signals.Box.Assign` | node.h:88-91 | assigning a value through a handle sets the shared cell, so every copy of that handle reads the new value |
| `Signals.Bus.Width` | node.h:113 | `width()` is the number of handles the Bus holds |
| `Signals.Bus.At` | node.h:120-121 | `b[idx]` requires `idx < width()` and gives the handle itself, the same cell and not a copy |
| `Signals.Bus.Size` | node.h:113-114 | `size()` is always equal to `width()` |
| `Signals.NewBus` | node.h:105 | `Bus(width)` holds `width` fresh, pairwise distinct cells, each holding VX |
| `Signals.NewNet` | node.cc:40-41 | `Net(name, width)` keeps the name and holds `width` fresh, distinct VX cells |
| `Signals.SetAt` | node.h:120 | writing `b[idx]` sets every position of `b` that holds the same cell, and leaves every other position as it was |
| `Signals.NodeChar` | node.cc:6-18 | every value prints as one of `0 1 X Z H L`, never as the fallback `?` |
| `Signals.NodeCharInjective` | node.cc:9-14 | distinct values print as distinct characters |
| `Signals.Picture` | node.cc:50 | the k-th printed character is the character of position `width-1-k`, so the highest index comes first |
| `Signals.PictureIs` | node.cc:50 | the picture is the only string with one character per value, highest position first |
| `Signals.PictureOfConcat` | node.cc:50 | the picture of `o`'s values followed by `a`'s is `a`'s picture followed by `o`'s, so a printed `a.concat(o)` shows `a` first |
| `Signals.Render` | node.cc:48-53 | a printed Net is its name, `="`, the characters of its current node values highest index first, and a closing quote |
| `Signals.Clamp` | node.cc:21 | `min(hi, width-1)` on unsigned numbers: the smaller of `hi` and the last position, or `hi` unchanged for width 0, where `width-1` wraps |
| `Signals.Slice` | node.cc:20-29 | an empty Bus if the clamped `hi` is below `lo`; otherwise width `hi-lo+1`, position `i` holding the very cell of source position `lo+i`; the source must be non-empty unless `hi < lo` |
| `Signals.SliceIsSubsequence` | node.cc:25-27 | a non-empty slice is exactly the sub-sequence `src[lo..h+1]` of the source's handles, `h` the clamped `hi` |
| `Signals.SliceValues` | node.cc:27 | a slice reads exactly the current values of the positions it covers, so writes through either side are seen by the other |
| `Signals.Range` | node.h:124 | `b(hi, lo)` gives the same slice as `b.slice(hi, lo)` |
| `Signals.Concat` | node.cc:31-38 | `a.concat(o)` has width `a.width()+o.width()`; positions `[0, o.width())` hold `o`'s cells in order and the positions after them hold `a`'s cells in order |
| `Signals.ConcatIsAppend` | node.cc:35-36 | the concatenation of `a` and `o` is exactly the sequence `o + a` of the very same handles |
| `Signals.ConcatValues` | node.cc:35-36 | a concatenation reads `o`'s current values followed by `a`'s |
| `Signals.Comma` | node.h:127 | `(a, o)` gives the same Bus as `a.concat(o)` |
| `Signals.SelfConcatSharesCells` | nettest.cc:19-22 | in `b.concat(b)` positions `i` and `width+i` both hold cell `i` of `b`, so one write to `b[i]` shows at both |
| `NetTest.PrintsFreshA` | nettest.cc:9 | eight X values print as `XXXXXXXX` |
| `NetTest.PrintsWrittenA` | nettest.cc:15 | eight values with only bit 6 at 0 print as `X0XXXXXX` |
| `NetTest.PrintsDuplicatedC` | nettest.cc:20 | two copies of `X X 0 X` (bits 0 to 3) print as `X0XXX0XX` |
| `NetTest.PrintsRewrittenC` | nettest.cc:22 | two copies of `1 X 0 X` (bits 0 to 3) print as `X0X1X0X1` |
| `NetTest.CreateA` | nettest.cc:8-9 | `Net a("a", 8)` has eight distinct fresh X cells and prints as `a="XXXXXXXX"` |
| `NetTest.SliceAndWrite` | nettest.cc:13-15 | `b = a(7, 4)` holds bits 4 to 7 of `a`; after `b[2] = V0` bit 6 of `a` is 0, every other bit is still X, and `a` prints as `a="X0XXXXXX"` |
| `NetTest.Duplicate` | nettest.cc:19-20 | `c` over `(b, b)` holds the cells of `b` twice and prints as `c="X0XXX0XX"` |
| `NetTest.WriteThroughSlice` | nettest.cc:21-22 | after `b[0] = V1` bit 0 of `b` is 1, its other bits are unchanged, and `c` prints as `c="X0X1X0X1"`: the write shows in both halves |
| `NetTest.Run` | nettest.cc:8-22 | the whole walk-through: the four net lines it prints (nettest.cc:9, 15, 20, 22), and at the end bit 6 of `a` is 0, bit 4 is 1 and the other bits are X |
| `Nets.Net.constructor` | net.h:31-36 | a net keeps its name and instance name and holds `width` values (default 1), all V0 |
| `Nets.Net.Width` | net.h:48 | `width()` is the length of the value vector |
| `Nets.Net.Value` | net.h:47 | `value()` gives the current value vector |
| `Nets.Net.SetValue` | net.h:44 | requires a vector of exactly the current width; afterwards `value()` is that vector and the width is unchanged |
| `Netlist.NamedPortDefaults` | module.h:34-37 | a port given only its name has width 0 and direction unknown |
| `Netlist.Equals` | module.h:44-48 | two ports are equal exactly when name, direction and width are all equal |
| `Netlist.NotEquals` | module.h:49-51 | `!=` holds exactly when name, direction or width differs, which is the negation of `==` |
| `Netlist.DirectionName` | module.h:60-76 | the four directions print as unknown, in, out and inout |
| `Netlist.DirectionNameInjective` | module.h:60-76 | the four directions print as four different words |
| `Netlist.ModuleSpec.constructor` | module.h:118-119 | a new specification keeps its name and has no ports, `size() == 0` |
| `Netlist.ModuleSpec.Size` | module.h:92 | `size()` is the length of the port list |
| `Netlist.ModuleSpec.Ports` | module.h:123 | `ports()` gives the port list in insertion order |
| `Netlist.ModuleSpec.PortAt` | module.h:124 | `port(idx)` requires `idx < size()` and gives the `idx`-th port |
| `Netlist.ModuleSpec.PushBack` | module.h:122 | `push_back(p)` adds one port; `p` is last and the earlier ports are unchanged |
| `Netlist.ModuleInstance.constructor` | module.h:133-135 | an instance keeps its name and specification and starts with an empty connection map |
| `Netlist.ModuleInstance.Iface` | module.h:139-142 | `iface()` requires a non-null specification and gives the one the instance was built with |
| `Netlist.ModuleInstance.Connections` | module.h:143-145 | `connections()` gives the port-to-net map, which no member ever fills |
| `Elaboration.ElabResult.Result` | elab_result.hpp:45-47 | `result()` gives the tag fixed by the construction: NOT_FOUND, FOUND or NEED_ANOTHER |
| `Elaboration.ElabResult.GetSpec` | elab_result.hpp:37-40 | `get_spec()` can only be called under NEED_ANOTHER, and gives the specification the result was built with |
| `Elaboration.ElabResult.GetInstance` | elab_result.hpp:41-44 | `get_instance()` can only be called under FOUND, and gives the instance the result was built with |
| `Elaboration.FromSpec` | elab_result.hpp:26-29 | built from a specification, the result is NEED_ANOTHER and `get_spec()` gives that specification back |
| `Elaboration.FromInstance` | elab_result.hpp:30-33 | built from an instance, the result is FOUND and `get_instance()` gives that instance back |
| `Elaboration.NoResult` | elab_result.hpp:34-35 | the default result is NOT_FOUND |
| `Elaboration.ResultIsConstruction` | elab_result.hpp:37-47 | the tag tells which construction built the result: NOT_FOUND is the default result, FOUND is the result built from `get_instance()`, NEED_ANOTHER the one built from `get_spec()` |
| `Simulation.SimResult.Default` | sim_result.hpp:31-33 | the default result is OK with no changed-net list |
| `Simulation.SimResult.constructor` | sim_result.hpp:34-36 | the result keeps exactly the outcome and list it was given; the outcome is constant afterwards |
| `Simulation.SimResult.Result` | sim_result.hpp:47-49 | `result()` gives the outcome the result was built with; it never changes |
| `Simulation.SimResult.Teardown` | sim_result.hpp:37-46 | without a list nothing is released; otherwise the nets are released in list order, front to back, each as often as it is listed, and the list is then dropped |

## Left out

- The simulator, manager and elaborator interfaces, and the compiler, analyzer and handler glue: they are declarations without bodies, so there is no behaviour to model.
- `NetSelect` of `net.h`: its constructor has no definition and its behaviour is unwritten.
- Stream output mechanics: only the characters and their order are modelled. The printing of a Port, a module interface and a module instance (module.h:78-83, 106-114, 176-180) is not modelled apart from the direction names.
- Shared-pointer reference counts, the destructors of Node, Bus and Net, and array deleters: aliasing is object identity and memory is not reclaimed.
- Unsigned 32-bit arithmetic: widths and indices are unbounded naturals. Only the wrap of `m_width-1` in `slice` is modelled.
- Signals.Concat: the sum `wleft+wrght` (node.cc:34) wraps once the widths total 2^32 or more, and the C++ then writes past the array it allocated; `Signals.Concat`, with unbounded widths, does not capture this.
- Signals.Slice: slicing a zero-width Bus with `lo <= hi` is excluded by its precondition, because the C++ then copies from outside the node array.
- `Bus(width, nodes)` and `Net(name, width, nodes)` are the datatype constructors `Bus(nodes)` and `Net(name, Bus(nodes))`. The C++ cannot check that the array holds `width` nodes; here the width is the length of the sequence.
- Re-pointing a handle inside a Bus by copy-assigning a Node through `operator[]`, and the raw `begin()`/`end()` pointers: a Bus's handles are fixed after construction.
- `ModuleSpec::ports()` returns a mutable reference to the list. It is modelled as a read, so changes made through that reference are not modelled.
- Ports are held by pointer in the C++ list. Ports are immutable, so they are modelled as values, and null entries and pointer identity are not modelled.
- The connection map of a module instance is keyed by Port, which has no `operator<` in the code. It is modelled as a Dafny map that stays empty, because no member adds to it.
- The virtual dispatch of `set_value` and `value` in `net.h`.
- The progress messages printed at nettest.cc:12 and 18 are not modelled.
- Simulation.SimResult.Teardown: freeing a net is recorded as its entry in the returned release order. A net listed twice would be freed twice in the C++, which is undefined behaviour; here it just appears twice. The list holds nets, not possibly null pointers: a null entry, which `delete` at sim_result.hpp:41 would skip, cannot be represented.
