/** Sizes of the multi-level switch network: how many links every switch has and which nodes lie below it. */
module EeeShape {
  import opened DivMod

  /** `nodes` is N_nodes; `sizes[l]` is switches_per_level[l], level 0 being the edge. */
  datatype Shape = Shape(nodes: nat, sizes: seq<nat>)
  {
    function Levels(): nat { |sizes| }

    /** Every level has a switch. */
    predicate Populated() { forall l :: 0 <= l < |sizes| ==> 0 < sizes[l] }

    /** Enough levels and nodes for every link count to be positive, so that no index computation divides by zero. */
    predicate Sized() {
      && 3 <= |sizes|
      && Populated()
      && forall l :: 0 <= l < |sizes| ==> 0 < FanIn(l)
    }

    /** Below the top, the switches of a level are shared out evenly among the switches above them. */
    predicate TreeShaped() {
      Sized() && forall l :: 1 <= l < |sizes| - 1 ==> sizes[l - 1] % sizes[l] == 0
    }

    /** A tree whose edge switches also share the nodes evenly. */
    predicate Admissible() {
      TreeShaped() && nodes % sizes[0] == 0
    }

    /** N_in_links of every switch of a level. */
    function FanIn(l: nat): nat
      requires l < |sizes| && Populated()
    {
      if l == 0 then nodes / sizes[0]
      else if l == |sizes| - 1 then sizes[l - 1]
      else sizes[l - 1] / sizes[l]
    }

    /** N_out_links of every switch of a level. */
    function FanOut(l: nat): nat
      requires l < |sizes|
    {
      if l == 0 then 1
      else if l == |sizes| - 1 then 0
      else if l + 1 == |sizes| - 1 then sizes[l + 1]
      else 1
    }

    /** Number of nodes in the subtree of one switch of level `l`: the product of the fan-ins up to `l`. */
    function NodesUnder(l: nat): nat
      requires l < |sizes| && Populated()
    {
      if l == 0 then FanIn(0) else NodesUnder(l - 1) * FanIn(l)
    }
  }

  /** Below the top, the subtrees of one level partition the nodes; the top subtree holds them all. */
  lemma {:induction false} NodesUnderCovers(sh: Shape, l: nat)
    requires sh.Admissible() && l < sh.Levels()
    ensures 0 < sh.NodesUnder(l)
    ensures l < sh.Levels() - 1 ==> sh.NodesUnder(l) * sh.sizes[l] == sh.nodes
    ensures l == sh.Levels() - 1 ==> sh.NodesUnder(l) == sh.nodes
  {
    var s := sh.sizes;
    if l == 0 {
      DivExact(sh.nodes, s[0]);
    } else {
      NodesUnderCovers(sh, l - 1);
      var u := sh.NodesUnder(l - 1);
      MulAtLeast(u, sh.FanIn(l));
      if l < |s| - 1 {
        DivExact(s[l - 1], s[l]);
        MulThrough(u, sh.FanIn(l), s[l], s[l - 1]);
      }
    }
  }

  /** A node's switch exists at every level below the top. */
  lemma SubtreeInRange(sh: Shape, node: nat, l: nat)
    requires sh.Admissible() && l < sh.Levels() && node < sh.nodes
    ensures 0 < sh.NodesUnder(l)
    ensures l < sh.Levels() - 1 ==> node / sh.NodesUnder(l) < sh.sizes[l]
    ensures l == sh.Levels() - 1 ==> node / sh.NodesUnder(l) == 0
  {
    NodesUnderCovers(sh, l);
    var u := sh.NodesUnder(l);
    if l < sh.Levels() - 1 {
      assert sh.sizes[l] * u == u * sh.sizes[l];
      DivBelow(node, sh.sizes[l], u);
    } else {
      DivBelow(node, 1, u);
      DivNonNegative(node, u);
    }
  }

  /** The subtree one level up is the subtree below it divided by the fan-in. */
  lemma SubtreeParent(sh: Shape, node: nat, l: nat)
    requires sh.Admissible() && l + 1 < sh.Levels()
    ensures 0 < sh.NodesUnder(l) && 0 < sh.NodesUnder(l + 1) && 0 < sh.FanIn(l + 1)
    ensures node / sh.NodesUnder(l + 1) == (node / sh.NodesUnder(l)) / sh.FanIn(l + 1)
  {
    NodesUnderCovers(sh, l);
    NodesUnderCovers(sh, l + 1);
    DivDiv(node, sh.NodesUnder(l), sh.FanIn(l + 1));
  }

  predicate SameSubtree(sh: Shape, s: nat, r: nat, l: nat)
    requires sh.Admissible() && l < sh.Levels()
  {
    NodesUnderCovers(sh, l);
    s / sh.NodesUnder(l) == r / sh.NodesUnder(l)
  }

  /** Once two nodes share a subtree they share every larger one. */
  lemma {:induction false} SameSubtreeUp(sh: Shape, s: nat, r: nat, l: nat, u: nat)
    requires sh.Admissible() && l <= u < sh.Levels()
    requires SameSubtree(sh, s, r, l)
    ensures SameSubtree(sh, s, r, u)
    decreases u - l
  {
    if l < u {
      SubtreeParent(sh, s, l);
      SubtreeParent(sh, r, l);
      SameSubtreeUp(sh, s, r, l + 1, u);
    }
  }

  /** Lowest level, from `l` on, at which two nodes share a subtree: where a message turns. */
  function MeetFrom(sh: Shape, s: nat, r: nat, l: nat): (m: nat)
    requires sh.Admissible() && l < sh.Levels() && s < sh.nodes && r < sh.nodes
    ensures l <= m < sh.Levels()
    ensures SameSubtree(sh, s, r, m)
    ensures forall k :: l <= k < m ==> !SameSubtree(sh, s, r, k)
    decreases sh.Levels() - l
  {
    if SameSubtree(sh, s, r, l) then l
    else if l == sh.Levels() - 1 then
      SubtreeInRange(sh, s, l); SubtreeInRange(sh, r, l);
      assert false; l
    else MeetFrom(sh, s, r, l + 1)
  }

  function Meet(sh: Shape, s: nat, r: nat): (m: nat)
    requires sh.Admissible() && s < sh.nodes && r < sh.nodes
    ensures m < sh.Levels()
    ensures forall l :: 0 <= l < sh.Levels() ==> (SameSubtree(sh, s, r, l) <==> m <= l)
  {
    var m := MeetFrom(sh, s, r, 0);
    assert forall l :: 0 <= l < sh.Levels() ==> (SameSubtree(sh, s, r, l) <==> m <= l) by {
      forall l | m <= l < sh.Levels() ensures SameSubtree(sh, s, r, l) { SameSubtreeUp(sh, s, r, m, l); }
    }
    m
  }

  /** The sizes hard-coded at the top of configure_switches: 2 switches on top, 4 below, the edge sized by the nodes. */
  function CodeShape(nodes: nat): Shape { Shape(nodes, [nodes / 4, 4, 2]) }

  /** The hard-coded sizes form a regular tree exactly for multiples of 16. */
  lemma CodeShapeAdmissible(nodes: nat)
    ensures CodeShape(nodes).Admissible() <==> 0 < nodes && nodes % 16 == 0
  {
    if CodeShape(nodes).Admissible() {
      CodeShapeOnlyIf(nodes);
    }
    if 0 < nodes && nodes % 16 == 0 {
      CodeShapeIf(nodes);
    }
  }

  lemma CodeShapeOnlyIf(nodes: nat)
    requires CodeShape(nodes).Admissible()
    ensures 0 < nodes && nodes % 16 == 0
  {
    var sh := CodeShape(nodes);
    var e := nodes / 4;
    assert sh.sizes[1 - 1] % sh.sizes[1] == 0;
    assert 0 < sh.FanIn(0);
    var x := nodes - 4 * e;
    DivModUnique(4, x, e);
    assert 4 * e + x == nodes;
  }

  lemma CodeShapeIf(nodes: nat)
    requires 0 < nodes && nodes % 16 == 0
    ensures CodeShape(nodes).Admissible()
  {
    var f := nodes / 16;
    DivExact(nodes, 16);
    assert nodes == 16 * f && nodes / 4 == 4 * f;
    FourEach(f);
    DivModUnique(f, 0, 4);
    var sh := CodeShape(nodes);
    assert sh.FanIn(0) == 4 && sh.FanIn(1) == f && sh.FanIn(2) == 4;
  }

  lemma FourEach(f: nat)
    requires 0 < f
    ensures (16 * f) / (4 * f) == 4 && (16 * f) % (4 * f) == 0
  {
    DivModUnique(4, 0, 4 * f);
  }
}
