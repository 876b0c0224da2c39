/**
 * The route of a message: climb to the lowest level whose subtree holds both nodes, turn, descend.
 * Every call of eee_network performs the next action of that route or waits for its next link.
 */
module EeeRoutes {
  import opened DivMod
  import opened EeeShape
  import opened EeeWiring
  import opened EeeRouting

  /** The switch of level `l` on the way to `dst`, seen from below or above by `node`. */
  function SwitchAt(sh: Shape, node: nat, dst: nat, l: nat): nat
    requires sh.Sized() && l < sh.Levels()
  {
    NodesUnderPositive(sh, l);
    DivNonNegative(node, sh.NodesUnder(l));
    if l == sh.Levels() - 1 then dst % sh.sizes[l] else node / sh.NodesUnder(l)
  }

  /** The in-link of a switch of level `l` that leads down towards `dst`. */
  function DownLink(sh: Shape, dst: nat, l: nat): nat
    requires sh.Sized() && l < sh.Levels()
  {
    if l == 0 then dst % sh.FanIn(0)
    else
      NodesUnderPositive(sh, l - 1);
      DivNonNegative(dst, sh.NodesUnder(l - 1));
      (dst / sh.NodesUnder(l - 1)) % sh.FanIn(l)
  }

  /** The link direction of the k-th transmission, for two nodes that meet at level `top`. */
  function RoutePort(sh: Shape, src: nat, dst: nat, top: nat, k: nat): Port
    requires sh.Sized() && top < sh.Levels() && k < 2 * top + 2
  {
    if k == 0 then Port(EdgeLink(sh, src), Inward)
    else if k <= top then Port(OutLink(k - 1, SwitchAt(sh, src, dst, k - 1), dst % sh.FanOut(k - 1)), Outward)
    else
      var l := 2 * top + 1 - k;
      Port(InLink(l, SwitchAt(sh, dst, dst, l), DownLink(sh, dst, l)), Outward)
  }

  /** A route ends on the receiver's own edge link. */
  lemma RouteEndsAtReceiver(sh: Shape, src: nat, dst: nat)
    requires sh.Admissible() && src < sh.nodes && dst < sh.nodes
    ensures RoutePort(sh, src, dst, Meet(sh, src, dst), 0) == Port(EdgeLink(sh, src), Inward)
    ensures RoutePort(sh, src, dst, Meet(sh, src, dst), 2 * Meet(sh, src, dst) + 1) == Port(EdgeLink(sh, dst), Outward)
  {
  }

  /** No link direction occurs twice on a route. */
  lemma RoutePortsDistinct(sh: Shape, src: nat, dst: nat, top: nat, j: nat, k: nat)
    requires sh.Sized() && top < sh.Levels() && j < k < 2 * top + 2
    ensures RoutePort(sh, src, dst, top, j) != RoutePort(sh, src, dst, top, k)
  {
  }

  /** Going up, the cable from the sender's subtree leads to the next larger one, on top to the receiver's switch. */
  lemma UpCable(sh: Shape, src: nat, dst: nat, l: nat)
    requires sh.Admissible() && src < sh.nodes && l < sh.Levels() - 1
    ensures 0 < sh.FanOut(l)
    ensures var a := OutLink(l, SwitchAt(sh, src, dst, l), dst % sh.FanOut(l));
      && Attached(sh, a)
      && Partner(sh, a).Some?
      && Attached(sh, Partner(sh, a).value)
      && Partner(sh, a).value.switch == SwitchAt(sh, src, dst, l + 1)
  {
    SubtreeInRange(sh, src, l);
    SubtreeParent(sh, src, l);
    PartnerInvolution(sh, OutLink(l, SwitchAt(sh, src, dst, l), dst % sh.FanOut(l)));
  }

  /** The link at which a message enters or leaves its node exists. */
  lemma EdgeCable(sh: Shape, node: nat)
    requires sh.Admissible() && node < sh.nodes
    ensures Attached(sh, EdgeLink(sh, node))
  {
    NodesAttachedIffEven(sh);
  }

  lemma SwitchExists(sh: Shape, node: nat, dst: nat, l: nat)
    requires sh.Admissible() && node < sh.nodes && l < sh.Levels()
    ensures SwitchAt(sh, node, dst, l) < sh.sizes[l]
  {
    SubtreeInRange(sh, node, l);
  }

  /** The down-link and the switch above it recover the switch below. */
  lemma DownLinkSelects(sh: Shape, dst: nat, l: nat)
    requires sh.Admissible() && dst < sh.nodes && 0 < l < sh.Levels()
    ensures DownLink(sh, dst, l) < sh.FanIn(l)
    ensures if l == sh.Levels() - 1 then DownLink(sh, dst, l) == SwitchAt(sh, dst, dst, l - 1)
            else SwitchAt(sh, dst, dst, l) * sh.FanIn(l) + DownLink(sh, dst, l) == SwitchAt(sh, dst, dst, l - 1)
  {
    SubtreeInRange(sh, dst, l - 1);
    SubtreeParent(sh, dst, l - 1);
    SplitIndex(SwitchAt(sh, dst, dst, l - 1), sh.FanIn(l));
  }

  lemma SplitIndex(x: nat, f: nat)
    requires 0 < f
    ensures x % f < f && x / f * f + x % f == x
    ensures x < f ==> x % f == x
  {
    EuclidDivision(x, f);
    if x < f {
      DivModUnique(0, x, f);
    }
  }

  /** Going down, the chosen in-link leads to the smaller subtree that holds the receiver. */
  lemma DownCable(sh: Shape, dst: nat, l: nat)
    requires sh.Admissible() && dst < sh.nodes && 0 < l < sh.Levels()
    ensures var a := InLink(l, SwitchAt(sh, dst, dst, l), DownLink(sh, dst, l));
      && Attached(sh, a)
      && Partner(sh, a).Some?
      && Attached(sh, Partner(sh, a).value)
      && Partner(sh, a).value.switch == SwitchAt(sh, dst, dst, l - 1)
  {
    SwitchExists(sh, dst, dst, l);
    DownLinkSelects(sh, dst, l);
    PartnerInvolution(sh, InLink(l, SwitchAt(sh, dst, dst, l), DownLink(sh, dst, l)));
  }

  /** Where a message can be between two calls. */
  predicate Routed(sh: Shape, m: Msg)
    requires sh.Admissible()
  {
    && m.src < sh.nodes && m.dst < sh.nodes
    && -1 <= m.level < sh.Levels()
    && if m.level == -1 then m.done || !m.linkDone
       else
         var top := Meet(sh, m.src, m.dst);
         && !m.done && m.src != m.dst
         && m.linkDone != m.switchDone
         && (if m.dir.Up? then
               && m.level <= top
               && m.switch == SwitchAt(sh, m.src, m.dst, m.level)
               && (!m.linkDone ==> m.level < top && m.link == m.dst % sh.FanOut(m.level))
             else
               && m.dir.Down?
               && m.level <= top
               && m.switch == SwitchAt(sh, m.dst, m.dst, m.level)
               && (m.linkDone ==> m.level < top)
               && (!m.linkDone ==> m.link == DownLink(sh, m.dst, m.level)))
  }

  /** Transmissions and switch hops behind a message. */
  function Crossings(sh: Shape, m: Msg): nat
    requires sh.Admissible() && Routed(sh, m)
  {
    var top := Meet(sh, m.src, m.dst);
    if m.src == m.dst then 0
    else if m.level == -1 then if m.done then 2 * top + 2 else 0
    else if m.dir.Up? then m.level + 1
    else 2 * top + 1 - m.level
  }

  function Hops(sh: Shape, m: Msg): nat
    requires sh.Admissible() && Routed(sh, m)
  {
    var top := Meet(sh, m.src, m.dst);
    if m.src == m.dst then 0
    else if m.level == -1 then if m.done then 2 * top + 1 else 0
    else (if m.dir.Up? then m.level + 1 else 2 * top + 1 - m.level) - (if m.linkDone then 1 else 0)
  }

  /** Successful calls still needed. */
  function StepsLeft(sh: Shape, m: Msg): nat
    requires sh.Admissible() && Routed(sh, m)
  {
    if m.done then 0
    else if m.src == m.dst then 1
    else 4 * Meet(sh, m.src, m.dst) + 3 - Crossings(sh, m) - Hops(sh, m)
  }

  lemma ProgressBounds(sh: Shape, m: Msg)
    requires sh.Admissible() && Routed(sh, m)
    ensures Crossings(sh, m) <= 2 * Meet(sh, m.src, m.dst) + 2
    ensures !m.done && m.src != m.dst && !m.linkDone ==> Crossings(sh, m) < 2 * Meet(sh, m.src, m.dst) + 2
    ensures Hops(sh, m) <= 2 * Meet(sh, m.src, m.dst) + 1
    ensures !m.done ==> 0 < StepsLeft(sh, m)
    ensures StepsLeft(sh, m) <= 4 * sh.Levels()
  {
  }

  /** The link direction a message that is about to transmit needs. */
  function NextPort(sh: Shape, m: Msg): Port
    requires sh.Admissible() && Routed(sh, m) && !m.done && !m.linkDone && m.src != m.dst
  {
    ProgressBounds(sh, m);
    RoutePort(sh, m.src, m.dst, Meet(sh, m.src, m.dst), Crossings(sh, m))
  }

  /** Header time of the k-th transmission, with the payload on the last one: virtual cut-through. */
  function CrossCost(cfg: Config, size: nat, top: nat, k: nat): real
    requires 0 <= cfg.headerSize && k < 2 * top + 2
  {
    if k <= top then cfg.transfer(Up, k, cfg.headerSize)
    else cfg.transfer(Down, 2 * top + 1 - k, cfg.headerSize)
         + if k == 2 * top + 1 then cfg.transfer(Down, 0, size) else 0.0
  }

  /** How long the k-th transmission keeps its link busy once awake: header and payload, on every link. */
  function Occupancy(cfg: Config, size: nat, top: nat, k: nat): real
    requires 0 <= cfg.headerSize && k < 2 * top + 2
  {
    if k <= top then cfg.transfer(Up, k, cfg.headerSize) + cfg.transfer(Up, k, size)
    else cfg.transfer(Down, 2 * top + 1 - k, cfg.headerSize) + cfg.transfer(Down, 2 * top + 1 - k, size)
  }

  /** Latency of the k-th switch hop. */
  function HopCost(cfg: Config, top: nat, k: nat): real
    requires top < |cfg.hop| && k < 2 * top + 1
  {
    cfg.hop[if k <= top then k else 2 * top - k]
  }

  /** A switch: its level and its number. */
  datatype SwitchRef = SwitchRef(level: int, switch: nat)

  /** The switch of the k-th hop: up through the subtrees of the sender, down through those of the receiver. */
  function RouteSwitch(sh: Shape, src: nat, dst: nat, top: nat, k: nat): SwitchRef
    requires sh.Sized() && top < sh.Levels() && k < 2 * top + 1
  {
    if k <= top then SwitchRef(k, SwitchAt(sh, src, dst, k))
    else SwitchRef(2 * top - k, SwitchAt(sh, dst, dst, 2 * top - k))
  }

  /** A message that is about to hop is at the switch of its route that is next. */
  lemma HopsAtRouteSwitch(sh: Shape, m: Msg)
    requires sh.Admissible() && Routed(sh, m) && m.linkDone && !m.done
    ensures Hops(sh, m) < 2 * Meet(sh, m.src, m.dst) + 1
    ensures SwitchRef(m.level, m.switch) == RouteSwitch(sh, m.src, m.dst, Meet(sh, m.src, m.dst), Hops(sh, m))
  {
  }

  /** A message that stays on its node is delivered at once. */
  ghost predicate StaysLocal(sh: Shape, m: Msg, mv: Move)
    requires sh.Admissible() && mv.Moved? && Routed(sh, m) && Routed(sh, mv.msg)
  {
    m.src == m.dst && mv.msg.done && mv.delay == 0.0
  }

  /** One switch hop: no link changes, the delay is the hop latency of the level. */
  ghost predicate TakesHop(sh: Shape, cfg: Config, m: Msg, mv: Move)
    requires sh.Admissible() && cfg.Fits(sh) && mv.Moved? && Routed(sh, m) && Routed(sh, mv.msg)
  {
    var top := Meet(sh, m.src, m.dst);
    && m.src != m.dst && m.linkDone && !mv.msg.done && !mv.msg.linkDone
    && Crossings(sh, mv.msg) == Crossings(sh, m)
    && Hops(sh, mv.msg) == Hops(sh, m) + 1
    && Hops(sh, m) < 2 * top + 1
    && mv.delay == HopCost(cfg, top, Hops(sh, m))
  }

  /** A busy link: nothing changes, and the wait is positive and ends when the link is free. */
  ghost predicate Waits(sh: Shape, links: map<LinkAddr, Link>, m: Msg, now: real, mv: Move, busy: Port)
    requires sh.Admissible() && mv.Moved? && Routed(sh, m) && Routed(sh, mv.msg)
  {
    && m.src != m.dst && !m.done && !m.linkDone && busy == NextPort(sh, m) && busy.addr in links
    && mv.msg.src == m.src && mv.msg.dst == m.dst
    && !mv.msg.done && !mv.msg.linkDone && NextPort(sh, mv.msg) == busy
    && Crossings(sh, mv.msg) == Crossings(sh, m) && Hops(sh, mv.msg) == Hops(sh, m)
    && 0.0 < mv.delay && now + mv.delay == GateOf(links[busy.addr], busy.half).free
  }

  /** The next transmission of the route, over a link direction that was free. */
  ghost predicate CrossesNext(sh: Shape, cfg: Config, links: map<LinkAddr, Link>, m: Msg, now: real, mv: Move)
    requires sh.Admissible() && cfg.Valid(sh) && mv.Moved? && mv.event.Crossed? && Routed(sh, m) && Routed(sh, mv.msg)
  {
    var top, port := Meet(sh, m.src, m.dst), mv.event.port;
    && m.src != m.dst && !m.done && !m.linkDone && port == NextPort(sh, m) && port.addr in links
    && mv.msg.linkDone && (mv.msg.done <==> Crossings(sh, mv.msg) == 2 * top + 2)
    && Crossings(sh, mv.msg) == Crossings(sh, m) + 1 && Hops(sh, mv.msg) == Hops(sh, m)
    && Crossings(sh, m) < 2 * top + 2
    && mv.delay == CrossCost(cfg, m.size, top, Crossings(sh, m)) + mv.event.wake
    && mv.event.until == now + mv.event.wake + Occupancy(cfg, m.size, top, Crossings(sh, m))
    && Reserves(sh, cfg, links, now, mv)
  }

  /** The level whose power parameters a link uses. */
  function PowerLevel(p: Port): nat { p.addr.level }

  /** The reservation made: it starts now on a free direction, covers wake-up and data, and powers down later. */
  ghost predicate Reserves(sh: Shape, cfg: Config, links: map<LinkAddr, Link>, now: real, mv: Move)
    requires cfg.Valid(sh) && mv.Moved? && mv.event.Crossed?
  {
    var p, l, extra, until := mv.event.port, PowerLevel(mv.event.port), mv.event.wake, mv.event.until;
    && p.addr in links && l < sh.Levels()
    && GateOf(links[p.addr], p.half).free <= now
    && extra == WakeDelay(cfg.sleep[l], cfg.wake[l], GateOf(links[p.addr], p.half).off, now)
    && now + extra <= until
    && mv.links == links[p.addr := SetGate(links[p.addr], p.half, Gate(until, until + cfg.powerDown[l]))]
  }

  /** What one call of eee_network may do to a message on its route. */
  ghost predicate FollowsRoute(sh: Shape, cfg: Config, links: map<LinkAddr, Link>, m: Msg, now: real, mv: Move)
    requires sh.Admissible() && cfg.Valid(sh) && Routed(sh, m) && !m.done
  {
    && mv.Moved?
    && Routed(sh, mv.msg) && Wired(sh, mv.links)
    && mv.msg.src == m.src && mv.msg.dst == m.dst && mv.msg.size == m.size
    && 0.0 <= mv.delay
    && match mv.event
       case Local => mv.links == links && StaysLocal(sh, m, mv)
       case Hopped => mv.links == links && TakesHop(sh, cfg, m, mv)
       case Refused(busy) => mv.links == links && Waits(sh, links, m, now, mv, busy)
       case Crossed(_, _, _) => CrossesNext(sh, cfg, links, m, now, mv)
  }

  /** Updating the times of a link leaves the wiring alone. */
  lemma SetGateKeepsWiring(sh: Shape, links: map<LinkAddr, Link>, a: LinkAddr, h: Half, g: Gate)
    requires Wired(sh, links) && a in links
    ensures Wired(sh, links[a := SetGate(links[a], h, g)])
  {
  }

  /** A message that is about to transmit. */
  predicate Ready(sh: Shape, m: Msg)
    requires sh.Admissible()
  {
    Routed(sh, m) && !m.done && !m.linkDone && m.src != m.dst
    && (m.level == -1 ==> m.dir == Up && m.switch == m.src / sh.FanIn(0) && m.link == m.src % sh.FanIn(0))
  }

  lemma ReadyPort(sh: Shape, m: Msg)
    requires sh.Admissible() && Ready(sh, m)
    ensures PortOf(m) == NextPort(sh, m)
    ensures Attached(sh, PortOf(m).addr)
    ensures Follows(m) ==>
      var p := Partner(sh, PortOf(m).addr);
      && p.Some? && Attached(sh, p.value)
      && p.value.switch == (if m.dir.Up? then SwitchAt(sh, m.src, m.dst, m.level + 1)
                            else SwitchAt(sh, m.dst, m.dst, m.level - 1))
  {
    if m.level == -1 {
      EdgeCable(sh, m.src);
    } else if m.dir.Up? {
      UpCable(sh, m.src, m.dst, m.level);
    } else if m.level == 0 {
      EdgeCable(sh, m.dst);
    } else {
      DownCable(sh, m.dst, m.level);
    }
  }

  /** Arriving at the right switch is the next point of the route. */
  lemma ArrivalRoutes(sh: Shape, m: Msg, switch': nat)
    requires sh.Admissible() && Ready(sh, m)
    requires switch' == (if !Follows(m) then m.switch
                         else if m.dir.Up? then SwitchAt(sh, m.src, m.dst, m.level + 1)
                         else SwitchAt(sh, m.dst, m.dst, m.level - 1))
    ensures var m' := Arrive(m, switch');
      && Routed(sh, m') && m'.linkDone
      && Crossings(sh, m') == Crossings(sh, m) + 1 && Hops(sh, m') == Hops(sh, m)
      && (m'.done <==> Crossings(sh, m') == 2 * Meet(sh, m.src, m.dst) + 2)
  {
    if m.level == -1 {
      assert sh.NodesUnder(0) == sh.FanIn(0);
    }
  }

  lemma CrossCostIsDelay(sh: Shape, cfg: Config, m: Msg)
    requires sh.Admissible() && cfg.Valid(sh) && Ready(sh, m)
    ensures Crossings(sh, m) < 2 * Meet(sh, m.src, m.dst) + 2
    ensures CrossCost(cfg, m.size, Meet(sh, m.src, m.dst), Crossings(sh, m))
         == HeaderTime(cfg, m) + if m.dir.Down? && m.level == 0 then PayloadTime(cfg, m) else 0.0
    ensures Occupancy(cfg, m.size, Meet(sh, m.src, m.dst), Crossings(sh, m)) == HeaderTime(cfg, m) + PayloadTime(cfg, m)
    ensures 0.0 <= HeaderTime(cfg, m) && 0.0 <= PayloadTime(cfg, m)
  {
    ProgressBounds(sh, m);
  }

  lemma WakeDelayNonNegative(sleep: real, wake: real, off: real, now: real)
    requires 0.0 <= sleep && 0.0 <= wake
    ensures 0.0 <= WakeDelay(sleep, wake, off, now)
  {
  }

  lemma AttemptReserves(sh: Shape, cfg: Config, links: map<LinkAddr, Link>, m: Msg, now: real)
    requires sh.Sized() && cfg.Valid(sh) && -1 <= m.level < sh.Levels()
    requires if m.dir.Up? then m.level < sh.Levels() - 1 else m.dir.Down? && 0 <= m.level
    requires !m.linkDone && (m.level != -1 ==> m.switchDone)
    requires PortOf(m).addr in links && GateOf(links[PortOf(m).addr], PortOf(m).half).free <= now
    requires Follows(m) ==>
      links[PortOf(m).addr].partner.Some? && links[PortOf(m).addr].partner.value in links
    ensures var mv := Attempt(sh, cfg, links, m, now);
      && mv.Moved? && mv.event.Crossed? && mv.event.port == PortOf(m)
      && mv.msg == Arrive(m, if Follows(m) then links[links[PortOf(m).addr].partner.value].switchId else m.switch)
      && mv.delay == HeaderTime(cfg, m) + (if m.dir.Down? && m.level == 0 then PayloadTime(cfg, m) else 0.0)
                     + mv.event.wake
      && mv.event.until == now + mv.event.wake + HeaderTime(cfg, m) + PayloadTime(cfg, m)
      && Reserves(sh, cfg, links, now, mv)
      && 0.0 <= mv.event.wake
  {
    var gate := GateOf(links[PortOf(m).addr], PortOf(m).half);
    var l := if m.level == -1 then 0 else m.level;
    WakeDelayNonNegative(cfg.sleep[l], cfg.wake[l], gate.off, now);
    assert 0.0 <= HeaderTime(cfg, m) && 0.0 <= PayloadTime(cfg, m);
  }

  /** The switch a departing message will reach. */
  function NextSwitch(sh: Shape, m: Msg): nat
    requires sh.Admissible() && Ready(sh, m)
  {
    if !Follows(m) then m.switch
    else if m.dir.Up? then SwitchAt(sh, m.src, m.dst, m.level + 1)
    else SwitchAt(sh, m.dst, m.dst, m.level - 1)
  }

  lemma CrossingFollowsRoute(sh: Shape, cfg: Config, links: map<LinkAddr, Link>, m: Msg, now: real, mv: Move)
    requires sh.Admissible() && cfg.Valid(sh) && Ready(sh, m)
    requires mv.Moved? && mv.event.Crossed? && mv.event.port == NextPort(sh, m)
    requires mv.msg == Arrive(m, NextSwitch(sh, m))
    requires Reserves(sh, cfg, links, now, mv) && 0.0 <= mv.event.wake && Wired(sh, mv.links)
    requires mv.event.until == now + mv.event.wake + HeaderTime(cfg, m) + PayloadTime(cfg, m)
    requires mv.delay == HeaderTime(cfg, m)
      + (if m.dir.Down? && m.level == 0 then PayloadTime(cfg, m) else 0.0) + mv.event.wake
    ensures FollowsRoute(sh, cfg, links, m, now, mv)
  {
    ArrivalRoutes(sh, m, NextSwitch(sh, m));
    CrossCostIsDelay(sh, cfg, m);
  }

  lemma AttemptArrives(sh: Shape, cfg: Config, links: map<LinkAddr, Link>, m: Msg, now: real)
    requires sh.Admissible() && cfg.Valid(sh) && Wired(sh, links) && Ready(sh, m)
    requires PortOf(m).addr in links && GateOf(links[PortOf(m).addr], PortOf(m).half).free <= now
    ensures var mv := Attempt(sh, cfg, links, m, now);
      && mv.Moved? && mv.event.Crossed? && mv.event.port == NextPort(sh, m)
      && mv.msg == Arrive(m, NextSwitch(sh, m))
      && Reserves(sh, cfg, links, now, mv) && 0.0 <= mv.event.wake
      && mv.event.until == now + mv.event.wake + HeaderTime(cfg, m) + PayloadTime(cfg, m)
      && mv.delay == HeaderTime(cfg, m)
           + (if m.dir.Down? && m.level == 0 then PayloadTime(cfg, m) else 0.0) + mv.event.wake
  {
    ReadyPort(sh, m);
    AttemptReserves(sh, cfg, links, m, now);
    assert links[PortOf(m).addr].partner == Partner(sh, PortOf(m).addr);
  }

  lemma AttemptCrosses(sh: Shape, cfg: Config, links: map<LinkAddr, Link>, m: Msg, now: real)
    requires sh.Admissible() && cfg.Valid(sh) && Wired(sh, links) && Ready(sh, m)
    requires PortOf(m).addr in links && GateOf(links[PortOf(m).addr], PortOf(m).half).free <= now
    ensures FollowsRoute(sh, cfg, links, m, now, Attempt(sh, cfg, links, m, now))
  {
    AttemptArrives(sh, cfg, links, m, now);
    var mv := Attempt(sh, cfg, links, m, now);
    var p, until := mv.event.port, mv.event.until;
    SetGateKeepsWiring(sh, links, p.addr, p.half, Gate(until, until + cfg.powerDown[PowerLevel(p)]));
    CrossingFollowsRoute(sh, cfg, links, m, now, mv);
  }

  lemma AttemptWaits(sh: Shape, cfg: Config, links: map<LinkAddr, Link>, m: Msg, now: real)
    requires sh.Admissible() && cfg.Valid(sh) && Wired(sh, links) && Ready(sh, m)
    requires PortOf(m).addr in links && now < GateOf(links[PortOf(m).addr], PortOf(m).half).free
    ensures FollowsRoute(sh, cfg, links, m, now, Attempt(sh, cfg, links, m, now))
  {
    ReadyPort(sh, m);
    ProgressBounds(sh, m);
    var mv := Attempt(sh, cfg, links, m, now);
    assert mv.msg == m.(linkDone := false, switchDone := true);
  }

  /** A message at a switch, after the decision to turn. */
  predicate AtSwitch(sh: Shape, m: Msg)
    requires sh.Admissible()
  {
    && m.src < sh.nodes && m.dst < sh.nodes && m.src != m.dst && !m.done && m.linkDone && !m.switchDone
    && 0 <= m.level <= Meet(sh, m.src, m.dst)
    && (if m.dir.Up? then m.level < Meet(sh, m.src, m.dst) && m.switch == SwitchAt(sh, m.src, m.dst, m.level)
        else m.dir.Down? && m.switch == SwitchAt(sh, m.dst, m.dst, m.level))
  }

  /** Climbing messages turn exactly at the lowest common subtree; descending ones never see one again. */
  lemma TurnsAtMeet(sh: Shape, m: Msg)
    requires sh.Admissible() && Routed(sh, m) && !m.done && m.linkDone
    ensures 0 < sh.NodesUnder(m.level)
    ensures var e := Enter(sh, m);
      var t := Turn(sh, e);
      && AtSwitch(sh, t)
      && t == m.(dir := t.dir) && (t.dir.Up? <==> m.dir.Up? && m.level < Meet(sh, m.src, m.dst))
      && (m.src / sh.NodesUnder(m.level) == m.dst / sh.NodesUnder(m.level) && !e.dir.Up? ==>
            m.level == sh.Levels() - 1)
  {
    NodesUnderPositive(sh, m.level);
    assert SameSubtree(sh, m.src, m.dst, m.level) <==> Meet(sh, m.src, m.dst) <= m.level;
  }

  lemma RouteUp(sh: Shape, cfg: Config, links: map<LinkAddr, Link>, m: Msg)
    requires sh.Admissible() && cfg.Valid(sh) && Wired(sh, links) && AtSwitch(sh, m) && m.dir.Up?
    ensures Route(sh, cfg, links, m)
         == Moved(m.(link := m.dst % sh.FanOut(m.level), switchDone := true, linkDone := false),
                  links, cfg.hop[m.level], Hopped)
  {
    UpCable(sh, m.src, m.dst, m.level);
  }

  lemma RouteDown(sh: Shape, cfg: Config, links: map<LinkAddr, Link>, m: Msg)
    requires sh.Admissible() && cfg.Valid(sh) && Wired(sh, links) && AtSwitch(sh, m) && m.dir.Down?
    ensures Route(sh, cfg, links, m)
         == Moved(m.(link := DownLink(sh, m.dst, m.level), switchDone := true, linkDone := false),
                  links, cfg.hop[m.level], Hopped)
  {
    if 0 < m.level {
      DownCableWired(sh, links, m.dst, m.level);
    }
  }

  /** The chosen in-link of a wired network has its partner, on the switch of the smaller subtree. */
  lemma DownCableWired(sh: Shape, links: map<LinkAddr, Link>, dst: nat, l: nat)
    requires sh.Admissible() && Wired(sh, links) && dst < sh.nodes && 0 < l < sh.Levels()
    ensures var down := InLink(l, SwitchAt(sh, dst, dst, l), DownLink(sh, dst, l));
      && down in links && links[down].partner.Some? && links[down].partner.value in links
      && links[links[down].partner.value].switchId == SwitchAt(sh, dst, dst, l - 1)
  {
    DownCable(sh, dst, l);
    assert InLink(l, SwitchAt(sh, dst, dst, l), DownLink(sh, dst, l)) in links;
  }

  lemma HopProgress(sh: Shape, m: Msg, link': nat)
    requires sh.Admissible() && AtSwitch(sh, m)
    requires link' == if m.dir.Up? then m.dst % sh.FanOut(m.level) else DownLink(sh, m.dst, m.level)
    ensures var m' := m.(link := link', switchDone := true, linkDone := false);
      && Routed(sh, m')
      && Crossings(sh, m') == (if m.dir.Up? then m.level + 1 else 2 * Meet(sh, m.src, m.dst) + 1 - m.level)
      && Hops(sh, m') == Crossings(sh, m')
  {
  }

  /** The turn and the choice of the next link are those of the route. */
  lemma HopRoutes(sh: Shape, cfg: Config, links: map<LinkAddr, Link>, m: Msg)
    requires sh.Admissible() && cfg.Valid(sh) && Wired(sh, links)
    requires Routed(sh, m) && !m.done && m.linkDone
    ensures FollowsRoute(sh, cfg, links, m, 0.0, Hop(sh, cfg, links, Enter(sh, m)))
    ensures Hop(sh, cfg, links, Enter(sh, m)).event.Hopped?
  {
    TurnsAtMeet(sh, m);
    var t := Turn(sh, Enter(sh, m));
    SwitchExists(sh, if t.dir.Up? then m.src else m.dst, m.dst, m.level);
    if t.dir.Up? {
      HopsUp(sh, cfg, links, m, t);
    } else {
      HopsDown(sh, cfg, links, m, t);
    }
  }

  lemma HopsUp(sh: Shape, cfg: Config, links: map<LinkAddr, Link>, m: Msg, t: Msg)
    requires sh.Admissible() && cfg.Valid(sh) && Wired(sh, links)
    requires Routed(sh, m) && !m.done && m.linkDone && AtSwitch(sh, t) && t.dir.Up?
    requires t.src == m.src && t.dst == m.dst && t.size == m.size && t.level == m.level && t.switch == m.switch
    requires Crossings(sh, m) == m.level + 1 && Hops(sh, m) == m.level
    ensures Route(sh, cfg, links, t).Moved? && Route(sh, cfg, links, t).event.Hopped?
    ensures FollowsRoute(sh, cfg, links, m, 0.0, Route(sh, cfg, links, t))
  {
    UpCable(sh, m.src, m.dst, m.level);
    RouteUp(sh, cfg, links, t);
    HopProgress(sh, t, m.dst % sh.FanOut(m.level));
  }

  lemma HopsDown(sh: Shape, cfg: Config, links: map<LinkAddr, Link>, m: Msg, t: Msg)
    requires sh.Admissible() && cfg.Valid(sh) && Wired(sh, links)
    requires Routed(sh, m) && !m.done && m.linkDone && AtSwitch(sh, t) && t.dir.Down?
    requires t.src == m.src && t.dst == m.dst && t.size == m.size && t.level == m.level && t.switch == m.switch
    requires var top := Meet(sh, m.src, m.dst);
      Crossings(sh, m) == 2 * top + 1 - m.level && Hops(sh, m) == 2 * top - m.level
    ensures Route(sh, cfg, links, t).Moved? && Route(sh, cfg, links, t).event.Hopped?
    ensures FollowsRoute(sh, cfg, links, m, 0.0, Route(sh, cfg, links, t))
  {
    RouteDown(sh, cfg, links, t);
    HopProgress(sh, t, DownLink(sh, m.dst, m.level));
  }

  /** Main result: on a configured network one call keeps a message on its route and never reaches an error exit. */
  lemma StepFollowsRoute(sh: Shape, cfg: Config, links: map<LinkAddr, Link>, m: Msg, now: real)
    requires sh.Admissible() && cfg.Valid(sh) && Wired(sh, links) && Routed(sh, m) && !m.done
    ensures FollowsRoute(sh, cfg, links, m, now, Step(sh, cfg, links, m, now))
  {
    if m.linkDone {
      HopRoutes(sh, cfg, links, m);
    } else if m.level == -1 && m.src == m.dst {
    } else {
      var ready := Depart(sh, Enter(sh, m));
      assert Ready(sh, ready);
      ReadyPort(sh, ready);
      if GateOf(links[PortOf(ready).addr], PortOf(ready).half).free <= now {
        AttemptCrosses(sh, cfg, links, ready, now);
      } else {
        AttemptWaits(sh, cfg, links, ready, now);
      }
    }
  }
}
