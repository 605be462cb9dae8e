/**
 * The electrical wiring of modules (node.h, node.cc).
 *
 * A Node is a handle on a canonical value cell; copying the handle shares the
 * cell, so here a Node is a reference to a `Box` and a copy is the same
 * reference. A Bus is a fixed-width sequence of such handles; slicing and
 * concatenating build new Buses whose positions alias the cells of the
 * source, never copies of their values. A Net is a Bus with a name.
 */
module Signals {

  /** The supported node values: a subset of the VHDL std_logic type. */
  datatype Logic = V0 | V1 | VX | VZ | VH | VL

  /** The canonical representative of one electrical node. */
  class Box {
    var val: Logic

    /** A fresh cell; a default-constructed Node holds VX. */
    constructor (v: Logic := VX)
      ensures val == v
    {
      val := v;
    }

    /** The value the node currently carries (`value()`, `operator value_t`). */
    function Value(): Logic
      reads this
    {
      val
    }

    /** Assignment of a value through a handle: every handle on this cell sees it. */
    method Assign(v: Logic)
      modifies this
      ensures Value() == v
    {
      val := v;
    }
  }

  /** A Node handle is the reference to its canonical cell. */
  type Node = Box

  /** An ordered, fixed-width collection of node handles. */
  datatype Bus = Bus(nodes: seq<Node>) {

    function Width(): nat
    {
      |nodes|
    }

    /** `size()` is the same number as `width()`. */
    function Size(): (n: nat)
      ensures n == Width()
    {
      |nodes|
    }

    /** `operator[]`: the handle at position `idx` (unchecked in C++). */
    function At(idx: nat): Node
      requires idx < Width()
    {
      nodes[idx]
    }
  }

  /** A Bus with a name; the name need not be unique. */
  datatype Net = Net(name: string, bus: Bus)

  /** The values currently carried by the nodes of `b`, position by position. */
  function Values(b: Bus): (vs: seq<Logic>)
    reads b.nodes
  {
    seq(|b.nodes|, i requires 0 <= i < |b.nodes| reads b.nodes => b.nodes[i].val)
  }

  /** `Bus(width)`: `width` fresh, pairwise distinct nodes, each holding VX. */
  method NewBus(width: nat) returns (b: Bus)
    ensures b.Width() == width
    ensures forall i | 0 <= i < width :: fresh(b.nodes[i]) && b.nodes[i].val == VX
    ensures forall i, j | 0 <= i < j < width :: b.nodes[i] != b.nodes[j]
  {
    var nodes: seq<Node> := [];
    while |nodes| < width
      invariant |nodes| <= width
      invariant forall i | 0 <= i < |nodes| :: fresh(nodes[i]) && nodes[i].val == VX
      invariant forall i, j | 0 <= i < j < |nodes| :: nodes[i] != nodes[j]
    {
      var n := new Box();
      nodes := nodes + [n];
    }
    b := Bus(nodes);
  }

  /** `Net(name, width = 1)`: a named Bus of fresh VX nodes. */
  method NewNet(name: string, width: nat := 1) returns (n: Net)
    ensures n.name == name && n.bus.Width() == width
    ensures forall i | 0 <= i < width :: fresh(n.bus.nodes[i]) && n.bus.nodes[i].val == VX
    ensures forall i, j | 0 <= i < j < width :: n.bus.nodes[i] != n.bus.nodes[j]
  {
    var b := NewBus(width);
    n := Net(name, b);
  }

  /**
   * `b[idx] = v`: writes the cell at position `idx`. Every position of `b`
   * holding the same cell sees `v`; every other position keeps its value.
   */
  method SetAt(b: Bus, idx: nat, v: Logic)
    requires idx < b.Width()
    modifies b.nodes[idx]
    ensures forall j | 0 <= j < b.Width() ::
      b.nodes[j].val == if b.nodes[j] == b.nodes[idx] then v else old(b.nodes[j].val)
  {
    b.At(idx).Assign(v);
  }

  // ---------------------------------------------------------------- printing

  /** The character printed for a node value; the '?' fallback is never produced. */
  function NodeChar(v: Logic): (c: char)
    ensures c != '?'
    ensures c in "01XZHL"
  {
    match v
    case V0 => '0'
    case V1 => '1'
    case VX => 'X'
    case VZ => 'Z'
    case VH => 'H'
    case VL => 'L'
  }

  /** Distinct values are printed as distinct characters. */
  lemma NodeCharInjective(u: Logic, v: Logic)
    ensures NodeChar(u) == NodeChar(v) ==> u == v
  {
  }

  /** The characters of a value vector, highest position first. */
  function Picture(vals: seq<Logic>): (s: string)
    ensures |s| == |vals|
    ensures forall k | 0 <= k < |vals| :: s[k] == NodeChar(vals[|vals| - 1 - k])
  {
    if vals == [] then "" else Picture(vals[1..]) + [NodeChar(vals[0])]
  }

  /** A string with one character per value, highest position first, is the picture of those values. */
  lemma PictureIs(vals: seq<Logic>, s: string)
    requires |s| == |vals|
    requires forall k | 0 <= k < |vals| :: s[k] == NodeChar(vals[|vals| - 1 - k])
    ensures Picture(vals) == s
  {
  }

  /**
   * The picture of the values of `o` followed by those of `a` (the values of
   * `a.concat(o)`) shows `a` first: the operand of `concat` is the low part.
   */
  lemma PictureOfConcat(o: seq<Logic>, a: seq<Logic>)
    ensures Picture(o + a) == Picture(a) + Picture(o)
  {
    PictureIs(o + a, Picture(a) + Picture(o));
  }

  /** The printed form of a Net: its name, `="`, the picture of its values, `"`. */
  function Line(name: string, pic: string): string
  {
    name + "=\"" + pic + "\""
  }

  /** Printing a Net: its name, then its node values between quotes, highest index first. */
  method Render(n: Net) returns (s: string)
    ensures s == Line(n.name, Picture(Values(n.bus)))
  {
    ghost var vals := Values(n.bus);
    s := n.name + "=\"";
    var it := n.bus.Width();
    while it > 0
      invariant 0 <= it <= n.bus.Width()
      invariant s == n.name + "=\"" + Picture(vals[it..])
    {
      it := it - 1;
      assert vals[it..][1..] == vals[it + 1..];
      s := s + [NodeChar(n.bus.nodes[it].val)];
    }
    s := s + "\"";
  }

  // ------------------------------------------------------------------ slice

  /**
   * `std::min(hi, m_width - 1)` on unsigned numbers: for a zero-width bus
   * `m_width - 1` wraps to the largest unsigned value, which leaves `hi` as it is.
   */
  function Clamp(hi: nat, width: nat): (h: nat)
    ensures width > 0 ==> h <= hi && h < width && (h == hi || h == width - 1)
    ensures width == 0 ==> h == hi
  {
    if width == 0 || hi < width - 1 then hi else width - 1
  }

  /**
   * `r` is the slice `src(hi, lo)`: empty when the clamped `hi` is below `lo`,
   * otherwise `hi - lo + 1` positions, position `i` holding the cell of `src[lo + i]`.
   */
  ghost predicate IsSliceOf(r: seq<Node>, src: seq<Node>, hi: nat, lo: nat)
    requires |src| > 0 || hi < lo
  {
    var h := Clamp(hi, |src|);
    if h < lo then r == []
    else |r| == h - lo + 1 && forall i | 0 <= i < |r| :: r[i] == src[lo + i]
  }

  /** A non-empty slice is the sub-sequence `src[lo..h + 1]` of the very same handles. */
  lemma SliceIsSubsequence(r: seq<Node>, src: seq<Node>, hi: nat, lo: nat)
    requires lo <= Clamp(hi, |src|) < |src|
    ensures IsSliceOf(r, src, hi, lo) <==> r == src[lo..Clamp(hi, |src|) + 1]
  {
    var h := Clamp(hi, |src|);
    if IsSliceOf(r, src, hi, lo) {
      assert forall i | 0 <= i < |r| :: r[i] == src[lo..h + 1][i];
    }
  }

  /**
   * `b.slice(hi, lo)`: a new Bus aliasing part of `b`. A zero-width `b` is
   * only sliced with `hi < lo`; otherwise the C++ copies from outside the array.
   */
  method Slice(b: Bus, hi: nat, lo: nat) returns (r: Bus)
    requires b.Width() > 0 || hi < lo
    ensures IsSliceOf(r.nodes, b.nodes, hi, lo)
  {
    var h := Clamp(hi, b.Width());
    if h < lo {
      return Bus([]);
    }
    var len := h - lo + 1;
    var dst := new Box?[len];
    for k := 0 to len
      invariant forall i | 0 <= i < k :: dst[i] == b.nodes[lo + i]
    {
      dst[k] := b.nodes[lo + k];
    }
    var copied: seq<Node> := dst[..];
    r := Bus(copied);
  }

  /** A non-empty slice reads exactly the values of the positions it covers. */
  lemma SliceValues(r: Bus, src: Bus, hi: nat, lo: nat)
    requires lo <= Clamp(hi, src.Width()) < src.Width()
    requires IsSliceOf(r.nodes, src.nodes, hi, lo)
    ensures Values(r) == Values(src)[lo..Clamp(hi, src.Width()) + 1]
  {
    SliceIsSubsequence(r.nodes, src.nodes, hi, lo);
  }

  /** `b(hi, lo)` forwards to `b.slice(hi, lo)`. */
  method Range(b: Bus, hi: nat, lo: nat) returns (r: Bus)
    requires b.Width() > 0 || hi < lo
    ensures IsSliceOf(r.nodes, b.nodes, hi, lo)
  {
    r := Slice(b, hi, lo);
  }

  // ----------------------------------------------------------------- concat

  /**
   * `r` is `a` concatenated with `o`: `o` in the low positions, `a` in the
   * high ones, every position holding the very cell of its source.
   */
  ghost predicate IsConcatOf(r: seq<Node>, a: seq<Node>, o: seq<Node>)
  {
    && |r| == |a| + |o|
    && (forall i | 0 <= i < |o| :: r[i] == o[i])
    && (forall i | 0 <= i < |a| :: r[|o| + i] == a[i])
  }

  /** Concatenation is sequence append with the argument first: `o + a`. */
  lemma ConcatIsAppend(r: seq<Node>, a: seq<Node>, o: seq<Node>)
    ensures IsConcatOf(r, a, o) <==> r == o + a
  {
    if IsConcatOf(r, a, o) {
      forall k | 0 <= k < |r|
        ensures r[k] == (o + a)[k]
      {
        if k >= |o| {
          assert r[|o| + (k - |o|)] == a[k - |o|];
        }
      }
    }
  }

  /** A concatenation reads the values of `o` and then those of `a`. */
  lemma ConcatValues(r: Bus, a: Bus, o: Bus)
    requires IsConcatOf(r.nodes, a.nodes, o.nodes)
    ensures Values(r) == Values(o) + Values(a)
  {
    ConcatIsAppend(r.nodes, a.nodes, o.nodes);
  }

  /** `a.concat(o)`: a new Bus of both widths, filled by two index loops. */
  method Concat(a: Bus, o: Bus) returns (r: Bus)
    ensures IsConcatOf(r.nodes, a.nodes, o.nodes)
  {
    var wleft := a.Width();
    var wrght := o.Width();
    var res := new Box?[wleft + wrght];
    for i := 0 to wrght
      invariant forall k | 0 <= k < i :: res[k] == o.nodes[k]
    {
      res[i] := o.nodes[i];
    }
    for i := 0 to wleft
      invariant forall k | 0 <= k < wrght :: res[k] == o.nodes[k]
      invariant forall k | 0 <= k < i :: res[wrght + k] == a.nodes[k]
    {
      res[wrght + i] := a.nodes[i];
    }
    assert forall k | 0 <= k < res.Length :: res[k] != null by {
      forall k | 0 <= k < res.Length ensures res[k] != null {
        if k >= wrght {
          assert res[wrght + (k - wrght)] == a.nodes[k - wrght];
        }
      }
    }
    var filled: seq<Node> := res[..];
    r := Bus(filled);
  }

  /** `(a, o)` forwards to `a.concat(o)`. */
  method Comma(a: Bus, o: Bus) returns (r: Bus)
    ensures IsConcatOf(r.nodes, a.nodes, o.nodes)
  {
    r := Concat(a, o);
  }

  /**
   * Concatenating a Bus with itself lists each of its cells twice, so a later
   * write to one position of `b` is seen at both positions of the result.
   */
  lemma SelfConcatSharesCells(r: seq<Node>, b: seq<Node>, i: nat)
    requires IsConcatOf(r, b, b) && i < |b|
    ensures r[i] == r[|b| + i] == b[i]
  {
  }
}
