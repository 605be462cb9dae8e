/**
 * The wiring walk-through of nettest.cc, step by step: an 8-bit net `a`
 * printed fresh; the slice `b = a(7, 4)` and the write `b[2] = V0`, after
 * which `a` is printed again; the net `c` named over `(b, b)`, printed; and
 * the write `b[0] = V1`, after which `c` is printed once more. Each step is
 * a method of its own, and `Run` chains them.
 */
module NetTest {
  import opened Signals

  /** The picture of the fresh net `a`: every bit is X. */
  lemma PrintsFreshA(vals: seq<Logic>)
    requires vals == [VX, VX, VX, VX, VX, VX, VX, VX]
    ensures Picture(vals) == "XXXXXXXX"
  {
    PictureIs(vals, "XXXXXXXX");
  }

  /** The picture of `a` after `b[2] = V0`: bit 6 is 0, the others X. */
  lemma PrintsWrittenA(vals: seq<Logic>)
    requires vals == [VX, VX, VX, VX, VX, VX, V0, VX]
    ensures Picture(vals) == "X0XXXXXX"
  {
    PictureIs(vals, "X0XXXXXX");
  }

  /** The picture of `c`, two copies of the slice `b` whose bit 2 is 0. */
  lemma PrintsDuplicatedC(half: seq<Logic>)
    requires half == [VX, VX, V0, VX]
    ensures Picture(half + half) == "X0XXX0XX"
  {
    PictureOfConcat(half, half);
    PictureIs(half, "X0XX");
  }

  /** The picture of `c` after `b[0] = V1`: both copies show the write. */
  lemma PrintsRewrittenC(half: seq<Logic>)
    requires half == [V1, VX, V0, VX]
    ensures Picture(half + half) == "X0X1X0X1"
  {
    PictureOfConcat(half, half);
    PictureIs(half, "X0X1");
  }

  /** `Net a("a", 8)`, printed: eight distinct fresh cells, all X. */
  method CreateA() returns (a: Net, first: string)
    ensures a.name == "a" && a.bus.Width() == 8
    ensures forall i | 0 <= i < 8 :: fresh(a.bus.nodes[i]) && a.bus.nodes[i].val == VX
    ensures forall i, j | 0 <= i < j < 8 :: a.bus.nodes[i] != a.bus.nodes[j]
    ensures first == Line("a", "XXXXXXXX")
  {
    a := NewNet("a", 8);
    first := Render(a);
    PrintsFreshA(Values(a.bus));
  }

  /** `b = a(7, 4); b[2] = V0`, then `a` printed: the write lands on bit 6 of `a`. */
  method SliceAndWrite(a: Net) returns (b: Bus, second: string)
    requires a.name == "a" && a.bus.Width() == 8
    requires forall i | 0 <= i < 8 :: a.bus.nodes[i].val == VX
    requires forall i, j | 0 <= i < j < 8 :: a.bus.nodes[i] != a.bus.nodes[j]
    modifies a.bus.nodes[6]
    ensures b.nodes == a.bus.nodes[4..8]
    ensures a.bus.nodes[6].val == V0
    ensures forall k | 0 <= k < 8 && k != 6 :: a.bus.nodes[k].val == VX
    ensures second == Line("a", "X0XXXXXX")
  {
    b := Range(a.bus, 7, 4);
    assert b.nodes == a.bus.nodes[4..8];
    SetAt(b, 2, V0);
    second := Render(a);
    PrintsWrittenA(Values(a.bus));
  }

  /** `Net c("c", (b, b))`, printed: both halves of `c` are the cells of `b`. */
  method Duplicate(b: Bus) returns (c: Net, third: string)
    requires b.Width() == 4 && b.nodes[2].val == V0
    requires b.nodes[0].val == VX && b.nodes[1].val == VX && b.nodes[3].val == VX
    ensures c.name == "c" && c.bus.nodes == b.nodes + b.nodes
    ensures third == Line("c", "X0XXX0XX")
  {
    var bb := Comma(b, b);
    c := Net("c", bb);
    ConcatIsAppend(c.bus.nodes, b.nodes, b.nodes);
    ConcatValues(c.bus, b, b);
    third := Render(c);
    PrintsDuplicatedC(Values(b));
  }

  /** `b[0] = V1`, then `c` printed: the write shows in both halves of `c`. */
  method WriteThroughSlice(b: Bus, c: Net) returns (fourth: string)
    requires b.Width() == 4 && forall i, j | 0 <= i < j < 4 :: b.nodes[i] != b.nodes[j]
    requires b.nodes[2].val == V0
    requires b.nodes[1].val == VX && b.nodes[3].val == VX
    requires c.name == "c" && c.bus.nodes == b.nodes + b.nodes
    modifies b.nodes[0]
    ensures b.nodes[0].val == V1 && b.nodes[2].val == V0
    ensures b.nodes[1].val == VX && b.nodes[3].val == VX
    ensures fourth == Line("c", "X0X1X0X1")
  {
    SetAt(b, 0, V1);
    ConcatIsAppend(c.bus.nodes, b.nodes, b.nodes);
    ConcatValues(c.bus, b, b);
    fourth := Render(c);
    PrintsRewrittenC(Values(b));
  }

  /**
   * The whole walk-through: the four printed lines, and the final state in
   * which bit 6 of `a` is 0, bit 4 is 1 and the others are still X.
   */
  method Run() returns (a: Net, b: Bus, c: Net, first: string, second: string, third: string, fourth: string)
    ensures a.name == "a" && a.bus.Width() == 8 && c.name == "c"
    ensures b.nodes == a.bus.nodes[4..8]
    ensures c.bus.nodes == b.nodes + b.nodes
    ensures a.bus.nodes[6].val == V0 && a.bus.nodes[4].val == V1
    ensures forall k | 0 <= k < 8 && k != 4 && k != 6 :: a.bus.nodes[k].val == VX
    ensures first == Line("a", "XXXXXXXX")
    ensures second == Line("a", "X0XXXXXX")
    ensures third == Line("c", "X0XXX0XX")
    ensures fourth == Line("c", "X0X1X0X1")
  {
    a, first := CreateA();
    b, second := SliceAndWrite(a);
    c, third := Duplicate(b);
    fourth := WriteThroughSlice(b, c);
  }
}
