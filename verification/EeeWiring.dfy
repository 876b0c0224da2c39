/**
 * Wiring of the switch network: configure_switches and its self-test.
 *
 * The program keeps links in arrays that are allocated once and never move, so a pointer to a link is the
 * path to its cell: a side (in or out), a level, a switch and an index.  `LinkAddr` is that path.
 */
module EeeWiring {
  import opened DivMod
  import opened EeeShape
  import opened Options

  datatype LinkAddr =
    | InLink(level: nat, switch: nat, index: nat)
    | OutLink(level: nat, switch: nat, index: nat)

  /** One duplex link end with the next free time and the power-off time of each direction. */
  datatype Link = Link(
    level: nat, switchId: nat, linkId: nat,
    inFree: real, outFree: real, inOff: real, outOff: real,
    partner: Option<LinkAddr>)

  datatype SwitchInfo = SwitchInfo(level: nat, id: nat, inLinks: nat, outLinks: nat)

  /** The address denotes an allocated link. */
  predicate Attached(sh: Shape, a: LinkAddr)
    requires sh.Populated()
  {
    && a.level < sh.Levels()
    && a.switch < sh.sizes[a.level]
    && a.index < (if a.InLink? then sh.FanIn(a.level) else sh.FanOut(a.level))
  }

  /** Links to the compute nodes: the only ones without a partner. */
  predicate IsEdge(a: LinkAddr) { a.InLink? && a.level == 0 }

  /**
   * The other end of a cable.  Between two ordinary levels the switches above adopt consecutive groups of
   * switches below; between the last two levels everything is connected to everything.
   */
  function Partner(sh: Shape, a: LinkAddr): Option<LinkAddr>
    requires sh.Sized() && Attached(sh, a)
  {
    match a
    case InLink(l, j, k) =>
      if l == 0 then None
      else if l == sh.Levels() - 1 then Some(OutLink(l - 1, k, j))
      else Some(OutLink(l - 1, j * sh.FanIn(l) + k, 0))
    case OutLink(l, j, k) =>
      if l == sh.Levels() - 2 then Some(InLink(l + 1, k, j))
      else Some(InLink(l + 1, j / sh.FanIn(l + 1), j % sh.FanIn(l + 1)))
  }

  /** The state in which configure_switches leaves a link. */
  function FreshLink(sh: Shape, a: LinkAddr): Link
    requires sh.Sized() && Attached(sh, a)
  {
    Link(a.level, a.switch, a.index, 0.0, 0.0, -1.0, -1.0, Partner(sh, a))
  }

  function SwitchRow(sh: Shape, l: nat): seq<SwitchInfo>
    requires sh.Populated() && l < sh.Levels()
  {
    seq(sh.sizes[l], (j: nat) => SwitchInfo(l, j, sh.FanIn(l), sh.FanOut(l)))
  }

  /** Every link exists exactly once, carries its own address and is connected as `Partner` says. */
  ghost predicate Wired(sh: Shape, links: map<LinkAddr, Link>) {
    && sh.Sized()
    && (forall a :: a in links <==> Attached(sh, a))
    && (forall a :: a in links ==>
          links[a].level == a.level && links[a].switchId == a.switch && links[a].linkId == a.index
          && links[a].partner == Partner(sh, a))
  }

  /** In a tree every cable ends inside the network, one level away, and its two ends name each other. */
  lemma PartnerInvolution(sh: Shape, a: LinkAddr)
    requires sh.TreeShaped() && Attached(sh, a)
    ensures Partner(sh, a).None? <==> IsEdge(a)
    ensures !IsEdge(a) ==>
      var b := Partner(sh, a).value;
      && Attached(sh, b)
      && a.OutLink? == b.InLink? && !IsEdge(b)
      && b.level == (if a.OutLink? then a.level + 1 else a.level - 1)
      && Partner(sh, b) == Some(a)
  {
    match a
    case InLink(l, j, k) =>
      if 0 < l < sh.Levels() - 1 {
        var f := sh.FanIn(l);
        DivModUnique(j, k, f);
        IndexBelow(j, k, sh.sizes[l], f);
        DivExact(sh.sizes[l - 1], sh.sizes[l]);
        assert f * sh.sizes[l] == sh.sizes[l] * f;
      }
    case OutLink(l, j, k) =>
      if l < sh.Levels() - 2 {
        var f := sh.FanIn(l + 1);
        EuclidDivision(j, f);
        DivExact(sh.sizes[l], sh.sizes[l + 1]);
        assert f * sh.sizes[l + 1] == sh.sizes[l + 1] * f;
        DivBelow(j, sh.sizes[l + 1], f);
      }
  }

  /** Out-links and non-edge in-links are in bijection: every such in-link is the partner of exactly one out-link. */
  lemma PartnerBijection(sh: Shape, b: LinkAddr)
    requires sh.TreeShaped() && Attached(sh, b) && b.InLink? && !IsEdge(b)
    ensures exists a :: Attached(sh, a) && a.OutLink? && Partner(sh, a) == Some(b)
    ensures forall a, a' | Attached(sh, a) && Attached(sh, a') && a.OutLink? && a'.OutLink? ::
      Partner(sh, a) == Some(b) && Partner(sh, a') == Some(b) ==> a == a'
  {
    PartnerInvolution(sh, b);
    var c := Partner(sh, b).value;
    assert Attached(sh, c) && c.OutLink? && Partner(sh, c) == Some(b);
    forall a | Attached(sh, a) && a.OutLink? && Partner(sh, a) == Some(b) ensures a == c {
      PartnerInvolution(sh, a);
    }
  }

  /** The cables all end inside the network exactly when the shape is a tree. */
  lemma WiringInRangeIffTree(sh: Shape)
    requires sh.Sized()
    ensures sh.TreeShaped() <==>
      forall a | Attached(sh, a) && !IsEdge(a) :: Partner(sh, a).Some? && Attached(sh, Partner(sh, a).value)
  {
    if sh.TreeShaped() {
      forall a | Attached(sh, a) && !IsEdge(a)
        ensures Partner(sh, a).Some? && Attached(sh, Partner(sh, a).value)
      {
        PartnerInvolution(sh, a);
      }
    } else {
      var l :| 1 <= l < sh.Levels() - 1 && sh.sizes[l - 1] % sh.sizes[l] != 0;
      LooseCable(sh, l);
    }
  }

  /** Without divisibility the last switch of the lower level is wired to a switch that does not exist. */
  lemma LooseCable(sh: Shape, l: nat)
    requires sh.Sized() && 1 <= l < sh.Levels() - 1 && sh.sizes[l - 1] % sh.sizes[l] != 0
    ensures var a := OutLink(l - 1, sh.sizes[l - 1] - 1, 0);
      Attached(sh, a) && Partner(sh, a).Some? && !Attached(sh, Partner(sh, a).value)
  {
    var s, q := sh.sizes, sh.FanIn(l);
    LastOutOfRange(s[l - 1], s[l], q);
  }

  /** Sharing `n` out unevenly among `d` leaves some for a share number `d`. */
  lemma LastOutOfRange(n: nat, d: nat, q: nat)
    requires 0 < d && n % d != 0 && q == n / d && 0 < q
    ensures d <= (n - 1) / q
  {
    EuclidDivision(n, d);
    EuclidDivision(n - 1, q);
    assert d * q == q * d;
    var x, y := (n - 1) / q, (n - 1) % q;
    if x < d {
      IndexBelow(x, y, d, q);
    }
  }

  /** Every node is attached to an existing edge link exactly when the edge switches share the nodes evenly. */
  lemma NodesAttachedIffEven(sh: Shape)
    requires sh.Sized()
    ensures sh.nodes % sh.sizes[0] == 0 <==>
      forall node: nat | node < sh.nodes :: Attached(sh, EdgeLink(sh, node))
  {
    var k, s := sh.FanIn(0), sh.sizes[0];
    EuclidDivision(sh.nodes, s);
    assert k * s == s * k;
    if sh.nodes % s == 0 {
      forall node: nat | node < sh.nodes ensures Attached(sh, EdgeLink(sh, node)) {
        EuclidDivision(node, k);
        DivBelow(node, s, k);
      }
    } else {
      DivModUnique(s, 0, k);
      assert !Attached(sh, EdgeLink(sh, s * k));
    }
  }

  /** The edge link of a node, as link_transmit computes it. */
  function EdgeLink(sh: Shape, node: nat): LinkAddr
    requires sh.Sized()
  {
    InLink(0, node / sh.FanIn(0), node % sh.FanIn(0))
  }

  /** The loop nests visit links level by level, switch by switch, index by index. */
  predicate VisitedBefore(a: LinkAddr, i: nat, j: nat, k: nat) {
    a.level < i || (a.level == i && (a.switch < j || (a.switch == j && a.index < k)))
  }

  /** What has been written when the nest over the in-links (or out-links) reaches `i`, `j`, `k`. */
  ghost predicate WrittenSoFar(sh: Shape, before: map<LinkAddr, Link>, links: map<LinkAddr, Link>,
                               inside: bool, i: nat, j: nat, k: nat)
    requires sh.Sized()
  {
    && (forall a :: a in links <==>
          a in before || (Attached(sh, a) && a.InLink? == inside && VisitedBefore(a, i, j, k)))
    && (forall a :: a in links ==>
          if a in before then links[a] == before[a] else Attached(sh, a) && links[a] == FreshLink(sh, a))
  }

  lemma WriteOne(sh: Shape, before: map<LinkAddr, Link>, links: map<LinkAddr, Link>,
                 inside: bool, i: nat, j: nat, k: nat)
    requires sh.Sized() && WrittenSoFar(sh, before, links, inside, i, j, k)
    requires forall a :: a in before ==> a.InLink? != inside
    requires Attached(sh, if inside then InLink(i, j, k) else OutLink(i, j, k))
    ensures var a := if inside then InLink(i, j, k) else OutLink(i, j, k);
      WrittenSoFar(sh, before, links[a := FreshLink(sh, a)], inside, i, j, k + 1)
  {
    var x := if inside then InLink(i, j, k) else OutLink(i, j, k);
    forall a | a in links ensures a == x || VisitedBefore(a, i, j, k) || a in before {}
    forall a | Attached(sh, a) && a.InLink? == inside && VisitedBefore(a, i, j, k + 1)
      ensures a == x || VisitedBefore(a, i, j, k)
    {
    }
  }

  lemma RowWritten(sh: Shape, before: map<LinkAddr, Link>, links: map<LinkAddr, Link>,
                   inside: bool, i: nat, j: nat)
    requires sh.Sized() && i < sh.Levels()
    requires WrittenSoFar(sh, before, links, inside, i, j, if inside then sh.FanIn(i) else sh.FanOut(i))
    ensures WrittenSoFar(sh, before, links, inside, i, j + 1, 0)
  {
  }

  lemma LevelWritten(sh: Shape, before: map<LinkAddr, Link>, links: map<LinkAddr, Link>, inside: bool, i: nat)
    requires sh.Sized() && i < sh.Levels()
    requires WrittenSoFar(sh, before, links, inside, i, sh.sizes[i], 0)
    ensures WrittenSoFar(sh, before, links, inside, i + 1, 0, 0)
  {
  }

  /** The running index over the out-links of a level selects the in-link that `Partner` names. */
  lemma OutPartnerIndex(sh: Shape, i: nat, j: nat, k: nat, q: nat, r: nat, d: nat)
    requires sh.Sized() && Attached(sh, OutLink(i, j, k)) && i < sh.Levels() - 1
    requires d == if i != sh.Levels() - 2 then sh.FanIn(i + 1) else sh.FanOut(i)
    requires r < d && j * sh.FanOut(i) + k == q * d + r
    ensures Partner(sh, OutLink(i, j, k)) == Some(
      if i != sh.Levels() - 2 then InLink(i + 1, q, r) else InLink(i + 1, r, q))
  {
    if i != sh.Levels() - 2 {
      DivModUnique(q, r, d);
    } else {
      EuclidUnique(j, k, q, r, d);
    }
  }

  /** The nests over the in-links and the out-links together write every link. */
  lemma BothNestsWritten(sh: Shape, inner: map<LinkAddr, Link>, links: map<LinkAddr, Link>)
    requires sh.Sized()
    requires WrittenSoFar(sh, map[], inner, true, sh.Levels(), 0, 0)
    requires WrittenSoFar(sh, inner, links, false, sh.Levels(), 0, 0)
    ensures FreshNetwork(sh, links)
  {
    forall a | Attached(sh, a) ensures VisitedBefore(a, sh.Levels(), 0, 0) {}
  }

  /** Every link exists and is as configure_switches leaves it. */
  ghost predicate FreshNetwork(sh: Shape, links: map<LinkAddr, Link>)
    requires sh.Sized()
  {
    && (forall a :: a in links <==> Attached(sh, a))
    && (forall a :: a in links ==> links[a] == FreshLink(sh, a))
  }

  lemma FreshNetworkReturns(sh: Shape, links: map<LinkAddr, Link>)
    requires sh.TreeShaped() && FreshNetwork(sh, links)
    ensures forall a :: a in links ==>
      if links[a].partner.None? then IsEdge(a) else links[a].partner.value in links
    ensures forall a :: a in links ==> ReturnsToItself(links, a)
  {
    forall a | a in links
      ensures if links[a].partner.None? then IsEdge(a)
              else links[a].partner.value in links && ReturnsToItself(links, a)
    {
      PartnerInvolution(sh, a);
    }
  }

  /** The network state built by configure_switches. */
  class SwitchFabric {
    const shape: Shape
    var switches: seq<seq<SwitchInfo>>
    var links: map<LinkAddr, Link>

    constructor (nodes: nat, sizes: seq<nat>)
      ensures shape == Shape(nodes, sizes) && switches == [] && links == map[]
    {
      shape := Shape(nodes, sizes);
      switches, links := [], map[];
    }

    /** The switch tables hold the link counts of the shape. */
    ghost predicate Counted()
      reads this`switches
    {
      && shape.Populated()
      && |switches| == shape.Levels()
      && forall l :: 0 <= l < shape.Levels() ==> switches[l] == SwitchRow(shape, l)
    }

    /** First pass: how many links go into and out of every switch. */
    method CountLinks()
      requires shape.Sized()
      modifies this`switches
      ensures Counted()
    {
      switches := [];
      for i := 0 to shape.Levels()
        invariant |switches| == i
        invariant forall l :: 0 <= l < i ==> switches[l] == SwitchRow(shape, l)
      {
        var row: seq<SwitchInfo> := [];
        for j := 0 to shape.sizes[i]
          invariant |row| == j
          invariant forall x :: 0 <= x < j ==> row[x] == SwitchRow(shape, i)[x]
        {
          var inLinks, outLinks;
          if i == 0 {
            inLinks, outLinks := shape.nodes / shape.sizes[i], 1;
          } else if i == shape.Levels() - 1 {
            inLinks, outLinks := shape.sizes[i - 1], 0;
          } else {
            inLinks, outLinks := shape.sizes[i - 1] / shape.sizes[i], 1;
            if i + 1 == shape.Levels() - 1 {
              outLinks := shape.sizes[i + 1];
            }
          }
          row := row + [SwitchInfo(i, j, inLinks, outLinks)];
        }
        assert row == SwitchRow(shape, i);
        switches := switches + [row];
      }
    }

    /** Body of the second pass: initialise one in-link and point it at its partner. */
    method WireInLink(i: nat, j: nat, k: nat, partnerJ: nat)
      requires shape.Sized() && Attached(shape, InLink(i, j, k))
      requires partnerJ == j * shape.FanIn(i) + k
      modifies this`links
      ensures links == old(links)[InLink(i, j, k) := FreshLink(shape, InLink(i, j, k))]
    {
      var partner;
      if i == 0 {
        partner := None;
      } else if i == shape.Levels() - 1 {
        partner := Some(OutLink(i - 1, partnerJ % shape.sizes[i - 1], partnerJ / shape.sizes[i - 1]));
      } else {
        partner := Some(OutLink(i - 1, partnerJ, 0));
      }
      DivModUnique(j, k, shape.FanIn(i));
      links := links[InLink(i, j, k) := Link(i, j, k, 0.0, 0.0, -1.0, -1.0, partner)];
    }

    /** The in-links of one switch. */
    method WireSwitch(i: nat, j: nat, partnerJ: nat, ghost before: map<LinkAddr, Link>) returns (partnerJ': nat)
      requires shape.Sized() && Counted() && i < shape.Levels() && j < shape.sizes[i]
      requires partnerJ == j * shape.FanIn(i) && before == map[]
      requires WrittenSoFar(shape, before, links, true, i, j, 0)
      modifies this`links
      ensures WrittenSoFar(shape, before, links, true, i, j + 1, 0) && partnerJ' == (j + 1) * shape.FanIn(i)
    {
      partnerJ' := partnerJ;
      for k := 0 to switches[i][j].inLinks
        invariant partnerJ' == j * shape.FanIn(i) + k
        invariant WrittenSoFar(shape, before, links, true, i, j, k)
      {
        WriteOne(shape, before, links, true, i, j, k);
        WireInLink(i, j, k, partnerJ');
        partnerJ' := partnerJ' + 1;
      }
      RowWritten(shape, before, links, true, i, j);
    }

    /** Second pass: initialise the in-links and point each at its partner, counting partners per level. */
    method WireInLinks()
      requires shape.Sized() && Counted() && links == map[]
      modifies this`links
      ensures WrittenSoFar(shape, map[], links, true, shape.Levels(), 0, 0)
    {
      ghost var before := links;
      for i := 0 to shape.Levels()
        invariant WrittenSoFar(shape, before, links, true, i, 0, 0)
      {
        var partnerJ: nat := 0;
        for j := 0 to shape.sizes[i]
          invariant partnerJ == j * shape.FanIn(i)
          invariant WrittenSoFar(shape, before, links, true, i, j, 0)
        {
          partnerJ := WireSwitch(i, j, partnerJ, before);
        }
        LevelWritten(shape, before, links, true, i);
      }
    }

    /** The partner of an out-link, from its running index. */
    method OutPartner(i: nat, j: nat, k: nat, partnerJ: nat) returns (partner: Option<LinkAddr>)
      requires shape.Sized() && Counted()
      requires Attached(shape, OutLink(i, j, k)) && i < shape.Levels() - 1
      requires partnerJ == j * shape.FanOut(i) + k
      ensures partner == Partner(shape, OutLink(i, j, k))
    {
      var above := if i != shape.Levels() - 2 then switches[i + 1][0].inLinks else switches[i][0].outLinks;
      var quotient, remainder := partnerJ / above, partnerJ % above;
      assert 0 < above;
      EuclidDivision(partnerJ, above);
      OutPartnerIndex(shape, i, j, k, quotient, remainder, above);
      if i != shape.Levels() - 2 {
        partner := Some(InLink(i + 1, quotient, remainder));
      } else {
        partner := Some(InLink(i + 1, remainder, quotient));
      }
    }

    /** Body of the third pass: initialise one out-link and point it at its partner. */
    method WireOutLink(i: nat, j: nat, k: nat, partnerJ: nat)
      requires shape.Sized() && Counted()
      requires Attached(shape, OutLink(i, j, k)) && i < shape.Levels() - 1
      requires partnerJ == j * shape.FanOut(i) + k
      modifies this`links
      ensures links == old(links)[OutLink(i, j, k) := FreshLink(shape, OutLink(i, j, k))]
    {
      var partner := OutPartner(i, j, k, partnerJ);
      links := links[OutLink(i, j, k) := Link(i, j, k, 0.0, 0.0, -1.0, -1.0, partner)];
    }

    /** Third pass: the same for the out-links; the last level has none. */
    method WireOutLinks() returns (ok: bool)
      requires shape.Sized() && Counted()
      requires forall a :: a in links ==> a.InLink?
      modifies this`links
      ensures ok
      ensures WrittenSoFar(shape, old(links), links, false, shape.Levels(), 0, 0)
    {
      ghost var before := links;
      for i := 0 to shape.Levels()
        invariant WrittenSoFar(shape, before, links, false, i, 0, 0)
      {
        var partnerJ: nat := 0;
        for j := 0 to shape.sizes[i]
          invariant partnerJ == j * shape.FanOut(i)
          invariant WrittenSoFar(shape, before, links, false, i, j, 0)
        {
          for k := 0 to switches[i][j].outLinks
            invariant partnerJ == j * shape.FanOut(i) + k
            invariant WrittenSoFar(shape, before, links, false, i, j, k)
          {
            if i == shape.Levels() - 1 {
              return false; // "CANNOT BE HERE"
            }
            WriteOne(shape, before, links, false, i, j, k);
            WireOutLink(i, j, k, partnerJ);
            partnerJ := partnerJ + 1;
          }
          RowWritten(shape, before, links, false, i, j);
        }
        LevelWritten(shape, before, links, false, i);
      }
      ok := true;
    }

    /**
     * Follow every cable to its other end and back.  The pointers must be valid; the edge in-links may have none.
     */
    method SelfTest() returns (ok: bool)
      requires Counted() && shape.Sized()
      requires forall a :: a in links <==> Attached(shape, a)
      requires forall a :: a in links ==>
        if links[a].partner.None? then IsEdge(a) else links[a].partner.value in links
      ensures ok <==> forall a :: a in links ==> ReturnsToItself(links, a)
    {
      var tested := false;
      for i := 0 to shape.Levels()
        invariant tested <==> 0 < i
        invariant forall a :: a in links && a.OutLink? && VisitedBefore(a, i, 0, 0) ==> ReturnsToItself(links, a)
      {
        for j := 0 to shape.sizes[i]
          invariant tested <==> 0 < i || 0 < j
          invariant forall a :: a in links && a.OutLink? && VisitedBefore(a, i, j, 0) ==> ReturnsToItself(links, a)
        {
          for k := 0 to switches[i][j].outLinks
            invariant tested <==> 0 < i || 0 < j || 0 < k
            invariant forall a :: a in links && a.OutLink? && VisitedBefore(a, i, j, k) ==> ReturnsToItself(links, a)
          {
            var a := OutLink(i, j, k);
            assert a in links && VisitedBefore(a, i, j, k + 1);
            if links[links[a].partner.value].partner != Some(a) {
              return false;
            }
            tested := true;
          }
        }
      }
      ok := SelfTestIn();
      ok := ok && tested;
    }

    /** Second half of the self-test, over the in-links. */
    method SelfTestIn() returns (ok: bool)
      requires Counted() && shape.Sized()
      requires forall a :: a in links <==> Attached(shape, a)
      requires forall a :: a in links ==>
        if links[a].partner.None? then IsEdge(a) else links[a].partner.value in links
      ensures ok <==> forall a :: a in links && a.InLink? ==> ReturnsToItself(links, a)
    {
      for i := 0 to shape.Levels()
        invariant forall a :: a in links && a.InLink? && VisitedBefore(a, i, 0, 0) ==> ReturnsToItself(links, a)
      {
        for j := 0 to shape.sizes[i]
          invariant forall a :: a in links && a.InLink? && VisitedBefore(a, i, j, 0) ==> ReturnsToItself(links, a)
        {
          for k := 0 to switches[i][j].inLinks
            invariant forall a :: a in links && a.InLink? && VisitedBefore(a, i, j, k) ==> ReturnsToItself(links, a)
          {
            var a := InLink(i, j, k);
            assert a in links && VisitedBefore(a, i, j, k + 1);
            if !(i == 0 && links[a].partner.None?) {
              if links[links[a].partner.value].partner != Some(a) {
                return false;
              }
            }
          }
        }
      }
      ok := true;
    }

    /** Build the whole network.  On a tree the dead exit is not taken and the self-test passes. */
    method Configure() returns (ok: bool)
      requires shape.TreeShaped() && links == map[]
      modifies this
      ensures ok
      ensures Counted() && FreshNetwork(shape, links)
    {
      CountLinks();
      WireInLinks();
      ghost var inner := links;
      ok := WireOutLinks();
      BothNestsWritten(shape, inner, links);
      FreshNetworkReturns(shape, links);
      ok := SelfTest();
    }
  }

  /** The check the self-test makes of one link. */
  predicate ReturnsToItself(links: map<LinkAddr, Link>, a: LinkAddr)
    requires a in links
    requires links[a].partner.Some? ==> links[a].partner.value in links
  {
    links[a].partner.Some? ==> links[links[a].partner.value].partner == Some(a)
  }
}
