/** The error exits of one call on a configured network, for any state of a message, on a route or not. */
module EeeExits {
  import opened Options
  import opened EeeShape
  import opened EeeWiring
  import opened EeeRouting
  import opened EeeRoutes

  /** A message at some switch of the network. */
  predicate Placed(sh: Shape, m: Msg)
    requires sh.Admissible()
  {
    m.src < sh.nodes && m.dst < sh.nodes && 0 <= m.level < sh.Levels() && m.switch < sh.sizes[m.level]
  }

  /** It comes down, or without direction, through a level whose subtree holds both nodes, below the top. */
  predicate TurnsTwice(sh: Shape, m: Msg)
    requires sh.Admissible() && Placed(sh, m)
  {
    Meet(sh, m.src, m.dst) <= m.level < sh.Levels() - 1 && !m.dir.Up?
  }

  /** It goes on downwards. */
  predicate Descends(sh: Shape, m: Msg)
    requires sh.Admissible() && Placed(sh, m)
  {
    m.dir.Down? || (m.dir.Up? && Meet(sh, m.src, m.dst) <= m.level)
  }

  lemma SameSubtreeIff(sh: Shape, m: Msg)
    requires sh.Admissible() && Placed(sh, m)
    ensures 0 < sh.NodesUnder(m.level)
    ensures m.src / sh.NodesUnder(m.level) == m.dst / sh.NodesUnder(m.level) <==> Meet(sh, m.src, m.dst) <= m.level
  {
    NodesUnderPositive(sh, m.level);
    assert SameSubtree(sh, m.src, m.dst, m.level) <==> Meet(sh, m.src, m.dst) <= m.level;
  }

  /** The in-link towards the receiver leads to the receiver's switch below exactly from the receiver's own switch. */
  lemma DownFromWrongSwitch(sh: Shape, links: map<LinkAddr, Link>, m: Msg)
    requires sh.Admissible() && Wired(sh, links) && Placed(sh, m) && 0 < m.level
    ensures var down := InLink(m.level, m.switch, DownLink(sh, m.dst, m.level));
      && down in links && links[down].partner.Some? && links[down].partner.value in links
      && (links[links[down].partner.value].switchId == SwitchAt(sh, m.dst, m.dst, m.level - 1) <==>
            m.level == sh.Levels() - 1 || m.switch == SwitchAt(sh, m.dst, m.dst, m.level))
  {
    var l, down := m.level, InLink(m.level, m.switch, DownLink(sh, m.dst, m.level));
    DownLinkSelects(sh, m.dst, l);
    PartnerInvolution(sh, down);
    assert down in links && links[down].partner == Partner(sh, down);
    if l < sh.Levels() - 1 && m.switch != SwitchAt(sh, m.dst, m.dst, l) {
      OtherProduct(m.switch, SwitchAt(sh, m.dst, m.dst, l), sh.FanIn(l));
    }
  }

  lemma OtherProduct(a: nat, b: nat, f: nat)
    requires a != b && 0 < f
    ensures a * f != b * f
  {
    if a < b {
      assert (b - a) * f == b * f - a * f && 0 < (b - a) * f;
    } else {
      assert (a - b) * f == a * f - b * f && 0 < (a - b) * f;
    }
  }

  /** It goes down from a switch below the top that is not above its receiver. */
  predicate Misdirected(sh: Shape, m: Msg)
    requires sh.Admissible() && Placed(sh, m)
  {
    Descends(sh, m) && 0 < m.level < sh.Levels() - 1 && m.switch != SwitchAt(sh, m.dst, m.dst, m.level)
  }

  /** Why a hop must not happen, if there is a reason. */
  function HopFault(sh: Shape, m: Msg): Option<Fault>
    requires sh.Admissible() && Placed(sh, m)
  {
    if TurnsTwice(sh, m) then Some(TurnTwice)
    else if m.dir.Unset? then Some(BadDirection)
    else if Misdirected(sh, m) then Some(WrongSwitch)
    else if m.switchDone || !m.linkDone then Some(SwitchTooEarly)
    else None
  }

  /** A call does what its faults ask for: it exits with the fault, or it does not exit. */
  predicate ExitsWith(mv: Move, fault: Option<Fault>) {
    match fault case Some(f) => mv == Exit(f) case None => mv.Moved?
  }

  /** A hop exits exactly for these reasons, and never for another. */
  lemma HopExits(sh: Shape, cfg: Config, links: map<LinkAddr, Link>, m: Msg)
    requires sh.Admissible() && cfg.Valid(sh) && Wired(sh, links) && Placed(sh, m)
    ensures ExitsWith(Hop(sh, cfg, links, m), HopFault(sh, m))
  {
    SameSubtreeIff(sh, m);
    var t := Turn(sh, m);
    if !TurnsTwice(sh, m) {
      if t.dir.Up? {
        UpExits(sh, cfg, links, t);
      } else if t.dir.Down? {
        DownExits(sh, cfg, links, t);
      }
    }
  }

  lemma UpExits(sh: Shape, cfg: Config, links: map<LinkAddr, Link>, m: Msg)
    requires sh.Admissible() && cfg.Valid(sh) && Wired(sh, links) && Placed(sh, m)
    requires m.dir.Up? && m.level < Meet(sh, m.src, m.dst)
    ensures Route(sh, cfg, links, m).Exit? <==> m.switchDone || !m.linkDone
    ensures Route(sh, cfg, links, m).Exit? ==> Route(sh, cfg, links, m).fault == SwitchTooEarly
  {
    UpCable(sh, m.src, m.dst, m.level);
    assert OutLink(m.level, m.switch, m.dst % sh.FanOut(m.level)) in links;
  }

  lemma BottomExits(sh: Shape, cfg: Config, links: map<LinkAddr, Link>, m: Msg)
    requires sh.Admissible() && cfg.Valid(sh) && Placed(sh, m) && m.dir.Down? && m.level == 0
    ensures Route(sh, cfg, links, m).Exit? <==> m.switchDone || !m.linkDone
    ensures Route(sh, cfg, links, m).Exit? ==> Route(sh, cfg, links, m).fault == SwitchTooEarly
  {
  }

  /** Above the bottom the switch that the in-link leads to is tested. */
  lemma DownRoute(sh: Shape, cfg: Config, links: map<LinkAddr, Link>, m: Msg, below: nat)
    requires sh.Admissible() && cfg.Valid(sh) && Placed(sh, m) && m.dir.Down? && 0 < m.level
    requires var down := InLink(m.level, m.switch, DownLink(sh, m.dst, m.level));
      && down in links && links[down].partner.Some? && links[down].partner.value in links
      && links[links[down].partner.value].switchId == below
    ensures 0 < sh.NodesUnder(m.level - 1)
    ensures Route(sh, cfg, links, m)
         == if below != m.dst / sh.NodesUnder(m.level - 1) then Exit(WrongSwitch)
            else HopDone(cfg, links, m.(link := DownLink(sh, m.dst, m.level)))
  {
    NodesUnderPositive(sh, m.level - 1);
  }

  lemma DownExits(sh: Shape, cfg: Config, links: map<LinkAddr, Link>, m: Msg)
    requires sh.Admissible() && cfg.Valid(sh) && Wired(sh, links) && Placed(sh, m) && m.dir.Down?
    ensures var wrong := 0 < m.level < sh.Levels() - 1 && m.switch != SwitchAt(sh, m.dst, m.dst, m.level);
      ExitsWith(Route(sh, cfg, links, m),
                if wrong then Some(WrongSwitch) else if m.switchDone || !m.linkDone then Some(SwitchTooEarly) else None)
  {
    if m.level == 0 {
      BottomExits(sh, cfg, links, m);
    } else {
      var down := InLink(m.level, m.switch, DownLink(sh, m.dst, m.level));
      DownFromWrongSwitch(sh, links, m);
      BelowIsTarget(sh, m.dst, m.level - 1);
      DownRoute(sh, cfg, links, m, links[links[down].partner.value].switchId);
    }
  }

  lemma BelowIsTarget(sh: Shape, dst: nat, l: nat)
    requires sh.Admissible() && l < sh.Levels() - 1
    ensures 0 < sh.NodesUnder(l) && SwitchAt(sh, dst, dst, l) == dst / sh.NodesUnder(l)
  {
    NodesUnderPositive(sh, l);
  }

  // ----- transmissions and whole calls

  /** The link direction that a message needs for its next transmission. */
  function NeededPort(sh: Shape, m: Msg): Port
    requires sh.Admissible() && -1 <= m.level
  {
    if m.level == -1 then Port(EdgeLink(sh, m.src), Inward)
    else if m.dir.Up? && m.level < sh.Levels() - 1 then Port(OutLink(m.level, m.switch, m.link), Outward)
    else Port(InLink(m.level, m.switch, m.link), Outward)
  }

  /** A message of two nodes on its way to a link that exists, or at a switch. */
  predicate Somewhere(sh: Shape, m: Msg)
    requires sh.Admissible()
  {
    && m.src < sh.nodes && m.dst < sh.nodes && -1 <= m.level < sh.Levels()
    && (m.linkDone ==> Placed(sh, m)) && (0 <= m.level ==> Attached(sh, NeededPort(sh, m).addr))
  }

  /** Why a call must not happen: the message was sent, no phase is left, or the phase that is due is not possible. */
  function CallFault(sh: Shape, links: map<LinkAddr, Link>, m: Msg, now: real): Option<Fault>
    requires sh.Admissible() && Wired(sh, links) && Somewhere(sh, m)
    requires m.level == -1 ==> Attached(sh, NeededPort(sh, m).addr)
  {
    if m.done then Some(AlreadySent)
    else if m.linkDone && m.switchDone then Some(NoPhase)
    else if m.linkDone then HopFault(sh, if m.level == sh.Levels() - 1 then m.(dir := Down) else m)
    else if m.level == -1 || m.level == sh.Levels() - 1 then None
    else if m.dir.Unset? then Some(BadDirection)
    else
      var p := NeededPort(sh, m);
      var free := GateOf(links[p.addr], p.half).free <= now;
      if m.dir.Up? && !m.switchDone && free then Some(PhaseMix) else None
  }

  lemma AttemptExits(sh: Shape, cfg: Config, links: map<LinkAddr, Link>, m: Msg, now: real)
    requires sh.Admissible() && cfg.Valid(sh) && Wired(sh, links) && !m.linkDone
    requires -1 <= m.level < sh.Levels() && (m.dir.Up? ==> m.level < sh.Levels() - 1)
    requires m.dir.Up? || (m.dir.Down? && m.level != -1)
    requires PortOf(m).addr in links && (Follows(m) ==> !IsEdge(PortOf(m).addr))
    ensures var gate := GateOf(links[PortOf(m).addr], PortOf(m).half);
      ExitsWith(Attempt(sh, cfg, links, m, now),
                if gate.free <= now && !m.switchDone && m.level != -1 && m.dir.Up? then Some(PhaseMix) else None)
  {
    PartnerInvolution(sh, PortOf(m).addr);
  }

  /** Which exit a call takes on a configured network, wherever the message is. */
  lemma CallExits(sh: Shape, cfg: Config, links: map<LinkAddr, Link>, m: Msg, now: real)
    requires sh.Admissible() && cfg.Valid(sh) && Wired(sh, links) && Somewhere(sh, m)
    ensures m.level == -1 ==> Attached(sh, NeededPort(sh, m).addr)
    ensures ExitsWith(Step(sh, cfg, links, m, now), CallFault(sh, links, m, now))
  {
    EdgeCable(sh, m.src);
    var e := Enter(sh, m);
    if !m.done && !m.linkDone {
      TransmitExits(sh, cfg, links, m, now);
    } else if !m.done && !m.switchDone {
      HopExits(sh, cfg, links, e);
    }
  }

  lemma TransmitExits(sh: Shape, cfg: Config, links: map<LinkAddr, Link>, m: Msg, now: real)
    requires sh.Admissible() && cfg.Valid(sh) && Wired(sh, links) && Somewhere(sh, m) && !m.done && !m.linkDone
    requires m.level == -1 ==> Attached(sh, NeededPort(sh, m).addr)
    ensures ExitsWith(Transmit(sh, cfg, links, Enter(sh, m), now), CallFault(sh, links, m, now))
  {
    var d := Depart(sh, Enter(sh, m));
    if m.level == -1 {
      assert PortOf(d) == NeededPort(sh, m);
      AttemptExits(sh, cfg, links, d, now);
    } else if !d.dir.Unset? {
      assert PortOf(d) == NeededPort(sh, m);
      AttemptExits(sh, cfg, links, d, now);
    }
  }
}
