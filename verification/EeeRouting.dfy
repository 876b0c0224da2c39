/**
 * One message crossing the switch network: eee_network, link_transmit and nw_switch.
 *
 * `Step` says what one call does to the message and to the links; the methods of `Thread` compute it in place.
 * `exit(EXIT_FAILURE)` and a bad array index are the outcome `Exit`.
 */
module EeeRouting {
  import opened DivMod
  import opened EeeShape
  import opened EeeWiring
  import opened Options

  datatype Direction = Up | Down | Unset

  /** Per-level parameters of the network and the time a transfer of some bytes takes. */
  datatype Config = Config(
    enabled: bool, headerSize: int,
    wake: seq<real>, sleep: seq<real>, powerDown: seq<real>, hop: seq<real>,
    transfer: (Direction, nat, nat) -> real)
  {
    predicate Fits(sh: Shape) {
      |wake| == |sleep| == |powerDown| == |hop| == sh.Levels()
    }

    ghost predicate Valid(sh: Shape) {
      && Fits(sh) && enabled && 0 <= headerSize
      && (forall l :: 0 <= l < sh.Levels() ==>
            0.0 <= wake[l] && 0.0 <= sleep[l] && 0.0 <= powerDown[l] && 0.0 <= hop[l])
      && forall d, l, n :: 0.0 <= transfer(d, l, n)
    }
  }

  /** The EEE fields of a thread with the message it sends. */
  datatype Msg = Msg(
    src: nat, dst: nat, size: nat,
    level: int, dir: Direction, switch: nat, link: nat,
    linkDone: bool, switchDone: bool, done: bool)

  /** Direction of traffic on a duplex link, seen from the end that owns the fields. */
  datatype Half = Inward | Outward

  datatype Port = Port(addr: LinkAddr, half: Half)

  /** Time a direction is next free, and time its link powers down. */
  datatype Gate = Gate(free: real, off: real)

  function GateOf(link: Link, h: Half): Gate {
    if h.Inward? then Gate(link.inFree, link.inOff) else Gate(link.outFree, link.outOff)
  }

  function SetGate(link: Link, h: Half, g: Gate): Link {
    if h.Inward? then link.(inFree := g.free, inOff := g.off) else link.(outFree := g.free, outOff := g.off)
  }

  datatype Fault =
    | NotEnabled | NegativeHeader | WildIndex | UpAtTop | BadDirection | PhaseMix
    | TurnTwice | WrongSwitch | SwitchTooEarly | NoPhase | AlreadySent | ZeroWait

  /** What one successful call did: cross a link, find it busy, hop through a switch, or stay on the node. */
  datatype Event =
    | Crossed(port: Port, wake: real, until: real)
    | Refused(busy: Port)
    | Hopped
    | Local

  datatype Move = Moved(msg: Msg, links: map<LinkAddr, Link>, delay: real, event: Event) | Exit(fault: Fault)

  /** What a call returns: the delay after which it wants to be called again, or the end of the program. */
  datatype Outcome = Delay(time: real) | Abort(fault: Fault)

  /** eee_network sets the direction at both ends of the climb. */
  function Enter(sh: Shape, m: Msg): Msg {
    if m.level == -1 then m.(dir := Up)
    else if m.level == sh.Levels() - 1 then m.(dir := Down)
    else m
  }

  /** The first transmission starts on the edge link of the sender. */
  function Depart(sh: Shape, m: Msg): Msg
    requires sh.Sized()
  {
    if m.level == -1 then m.(switch := m.src / sh.FanIn(0), link := m.src % sh.FanIn(0)) else m
  }

  /** The link direction a departing message needs. */
  function PortOf(m: Msg): Port
    requires -1 <= m.level && (m.dir.Up? || 0 <= m.level)
  {
    if m.dir.Up? then
      if m.level == -1 then Port(InLink(0, m.switch, m.link), Inward)
      else Port(OutLink(m.level, m.switch, m.link), Outward)
    else Port(InLink(m.level, m.switch, m.link), Outward)
  }

  /** Time a link found at `now` needs before it can carry data: the rest of falling asleep, then waking up. */
  function WakeDelay(sleep: real, wake: real, off: real, now: real): real {
    if off < now then
      if now - off < sleep then wake + (sleep - (now - off)) else wake
    else 0.0
  }

  function HeaderTime(cfg: Config, m: Msg): real
    requires 0 <= cfg.headerSize && -1 <= m.level && (m.dir.Up? || 0 <= m.level)
  {
    cfg.transfer(m.dir, if m.dir.Up? then m.level + 1 else m.level, cfg.headerSize)
  }

  function PayloadTime(cfg: Config, m: Msg): real
    requires -1 <= m.level && (m.dir.Up? || 0 <= m.level)
  {
    cfg.transfer(m.dir, if m.dir.Up? then m.level + 1 else m.level, m.size)
  }

  /** Crossing anything but an edge link leads to another switch. */
  predicate Follows(m: Msg) { m.level != -1 && (m.dir.Up? || m.level != 0) }

  /** A message that crosses its link changes level and waits to be switched; below level 0 it is delivered. */
  function Arrive(m: Msg, switch': nat): Msg {
    var level' := if m.dir.Up? then m.level + 1 else m.level - 1;
    m.(level := level', switch := switch', done := m.done || level' == -1, linkDone := true, switchDone := false)
  }

  /** link_transmit. */
  function Transmit(sh: Shape, cfg: Config, links: map<LinkAddr, Link>, m0: Msg, now: real): Move
    requires sh.Sized() && cfg.Fits(sh)
  {
    if !cfg.enabled then Exit(NotEnabled)
    else if cfg.headerSize < 0 then Exit(NegativeHeader)
    else
      var m := Depart(sh, m0);
      if m.level == -1 && m.src == m.dst then Moved(m.(done := true), links, 0.0, Local)
      else Attempt(sh, cfg, links, m, now)
  }

  /** The link a message needs is either busy or reserved for it. */
  function Attempt(sh: Shape, cfg: Config, links: map<LinkAddr, Link>, m: Msg, now: real): Move
    requires sh.Sized() && cfg.Fits(sh) && 0 <= cfg.headerSize
  {
    if m.dir.Unset? then Exit(BadDirection)
    else if m.dir.Up? && m.level == sh.Levels() - 1 then Exit(UpAtTop)
    else if !(-1 <= m.level < sh.Levels()) || (m.dir.Down? && m.level == -1) then Exit(WildIndex)
    else
      var port := PortOf(m);
      if port.addr !in links then Exit(WildIndex)
      else
        var link := links[port.addr];
        var gate := GateOf(link, port.half);
        if now < gate.free then
          Moved(m.(linkDone := false, switchDone := true), links, gate.free - now, Refused(port))
        else if Follows(m) && (link.partner.None? || link.partner.value !in links) then Exit(WildIndex)
        else if (m.linkDone || !m.switchDone) && m.level != -1 && m.dir.Up? then Exit(PhaseMix)
        else
          var l := if m.level == -1 then 0 else m.level;
          var header, payload := HeaderTime(cfg, m), PayloadTime(cfg, m);
          var extra := WakeDelay(cfg.sleep[l], cfg.wake[l], gate.off, now);
          var until := now + header + payload + extra;
          Moved(Arrive(m, if Follows(m) then links[link.partner.value].switchId else m.switch),
                links[port.addr := SetGate(link, port.half, Gate(until, until + cfg.powerDown[l]))],
                header + (if m.dir.Down? && m.level == 0 then payload else 0.0) + extra,
                Crossed(port, extra, until))
  }

  /** The turn: a climbing message that has reached a common subtree goes down from here. */
  function Turn(sh: Shape, m: Msg): Msg
    requires sh.Sized() && 0 <= m.level < sh.Levels()
    requires 0 < sh.NodesUnder(m.level)
  {
    if m.src / sh.NodesUnder(m.level) == m.dst / sh.NodesUnder(m.level) && m.dir.Up? then m.(dir := Down) else m
  }

  /** nw_switch. */
  function Hop(sh: Shape, cfg: Config, links: map<LinkAddr, Link>, m0: Msg): Move
    requires sh.Sized() && cfg.Fits(sh)
  {
    if !(0 <= m0.level < sh.Levels()) || sh.sizes[m0.level] <= m0.switch then Exit(WildIndex)
    else
      var l: nat := m0.level;
      NodesUnderPositive(sh, l);
      var under := sh.NodesUnder(l);
      if m0.src / under == m0.dst / under && !m0.dir.Up? && l != sh.Levels() - 1 then Exit(TurnTwice)
      else Route(sh, cfg, links, Turn(sh, m0))
  }

  /** The link out of the switch: up by the receiver's remainder, down by the receiver's subtree. */
  function Route(sh: Shape, cfg: Config, links: map<LinkAddr, Link>, m: Msg): Move
    requires sh.Sized() && cfg.Fits(sh) && 0 <= m.level < sh.Levels()
  {
    var l: nat := m.level;
    if m.dir.Up? && l == sh.Levels() - 1 then Exit(UpAtTop)
    else if m.dir.Unset? then Exit(BadDirection)
    else if m.dir.Up? then
      var out := OutLink(l, m.switch, m.dst % sh.FanOut(l));
      if out !in links then Exit(WildIndex)
      else HopDone(cfg, links, m.(link := links[out].linkId))
    else if l == 0 then
      HopDone(cfg, links, m.(link := m.dst % sh.FanIn(0)))
    else
      NodesUnderPositive(sh, l - 1);
      var target := m.dst / sh.NodesUnder(l - 1);
      var down := InLink(l, m.switch, target % sh.FanIn(l));
      if down !in links || links[down].partner.None? || links[down].partner.value !in links then Exit(WildIndex)
      else if links[links[down].partner.value].switchId != target then Exit(WrongSwitch)
      else HopDone(cfg, links, m.(link := down.index))
  }

  function HopDone(cfg: Config, links: map<LinkAddr, Link>, m: Msg): Move
    requires 0 <= m.level < |cfg.hop|
  {
    if m.switchDone || !m.linkDone then Exit(SwitchTooEarly)
    else Moved(m.(switchDone := true, linkDone := false), links, cfg.hop[m.level], Hopped)
  }

  lemma {:induction false} NodesUnderPositive(sh: Shape, l: nat)
    requires sh.Sized() && l < sh.Levels()
    ensures 0 < sh.NodesUnder(l)
  {
    if l != 0 {
      NodesUnderPositive(sh, l - 1);
      MulAtLeast(sh.NodesUnder(l - 1), sh.FanIn(l));
    }
  }

  /** eee_network: one call. */
  function Step(sh: Shape, cfg: Config, links: map<LinkAddr, Link>, m: Msg, now: real): Move
    requires sh.Sized() && cfg.Fits(sh)
  {
    if m.done then Exit(AlreadySent)
    else
      var m' := Enter(sh, m);
      if !m'.linkDone then Transmit(sh, cfg, links, m', now)
      else if !m'.switchDone then Hop(sh, cfg, links, m')
      else Exit(NoPhase)
  }

  /** A method's outcome and final state are those of a move. */
  predicate Agrees(mv: Move, r: Outcome, m: Msg, links: map<LinkAddr, Link>) {
    match mv
    case Moved(m', links', delay, _) => r == Delay(delay) && m == m' && links == links'
    case Exit(f) => r == Abort(f)
  }

  /** The EEE fields of a simulated thread. */
  class Thread {
    var src: nat
    var dst: nat
    var size: nat
    var level: int
    var dir: Direction
    var switch: nat
    var link: nat
    var linkDone: bool
    var switchDone: bool
    var done: bool

    constructor (m: Msg)
      ensures State() == m
    {
      src, dst, size, level, dir := m.src, m.dst, m.size, m.level, m.dir;
      switch, link, linkDone, switchDone, done := m.switch, m.link, m.linkDone, m.switchDone, m.done;
    }

    function State(): Msg
      reads this
    {
      Msg(src, dst, size, level, dir, switch, link, linkDone, switchDone, done)
    }

    /** How long the link needs to be awake, as the three branches of link_transmit compute it. */
    static method AwakeAfter(cfg: Config, l: nat, off: real, now: real) returns (extra: real)
      requires l < |cfg.sleep| && l < |cfg.wake|
      ensures extra == WakeDelay(cfg.sleep[l], cfg.wake[l], off, now)
    {
      var on := true;
      var inSleep, remaining := false, 0.0;
      if off < now {
        on := false;
        var sleepDiff := now - off;
        if sleepDiff < cfg.sleep[l] {
          inSleep, remaining := true, cfg.sleep[l] - sleepDiff;
        }
      }
      extra := 0.0;
      if !on {
        extra := cfg.wake[l];
        if inSleep {
          extra := extra + remaining;
        }
      }
    }

    /** The upward branch at the sender's edge link. */
    method ReserveFromNode(net: SwitchFabric, cfg: Config, now: real) returns (possible: bool, delay: real)
      requires net.shape.Sized() && cfg.Fits(net.shape) && 0 <= cfg.headerSize
      requires level == -1 && dir == Up && InLink(0, switch, link) in net.links
      modifies net`links
      ensures var a := InLink(0, switch, link);
        var was := old(net.links)[a];
        if now < was.inFree then !possible && delay == was.inFree - now && net.links == old(net.links)
        else
          var extra := WakeDelay(cfg.sleep[0], cfg.wake[0], was.inOff, now);
          var until := now + HeaderTime(cfg, State()) + PayloadTime(cfg, State()) + extra;
          && possible && delay == HeaderTime(cfg, State()) + extra
          && net.links == old(net.links)[a := was.(inFree := until, inOff := until + cfg.powerDown[0])]
    {
      var a := InLink(0, switch, link);
      if net.links[a].inFree <= now {
        var extra := AwakeAfter(cfg, 0, net.links[a].inOff, now);
        possible := true;
        delay := cfg.transfer(Up, 0, cfg.headerSize);
        var payload := cfg.transfer(Up, 0, size);
        var free := now + delay + payload;
        delay := delay + extra;
        free := free + extra;
        net.links := net.links[a := net.links[a].(inFree := free, inOff := free + cfg.powerDown[0])];
      } else {
        possible := false;
        delay := net.links[a].inFree - now;
      }
    }

    /** The branches that use the outward direction of a link: `a` is an out-link going up, an in-link going down. */
    method ReserveOutward(net: SwitchFabric, cfg: Config, now: real, a: LinkAddr) returns (possible: bool, delay: real)
      requires net.shape.Sized() && cfg.Fits(net.shape) && 0 <= cfg.headerSize
      requires 0 <= level < net.shape.Levels() && a in net.links
      modifies net`links
      ensures var was := old(net.links)[a];
        if now < was.outFree then !possible && delay == was.outFree - now && net.links == old(net.links)
        else
          var extra := WakeDelay(cfg.sleep[level], cfg.wake[level], was.outOff, now);
          var until := now + HeaderTime(cfg, State()) + PayloadTime(cfg, State()) + extra;
          && possible
          && delay == HeaderTime(cfg, State())
                      + (if dir.Down? && level == 0 then PayloadTime(cfg, State()) else 0.0) + extra
          && net.links == old(net.links)[a := was.(outFree := until, outOff := until + cfg.powerDown[level])]
    {
      if net.links[a].outFree <= now {
        var rate := if dir.Up? then level + 1 else level;
        var extra := AwakeAfter(cfg, level, net.links[a].outOff, now);
        possible := true;
        delay := cfg.transfer(dir, rate, cfg.headerSize);
        var payload := cfg.transfer(dir, rate, size);
        var free := now + delay + payload;
        if dir.Down? && level == 0 {
          delay := delay + payload;
        }
        delay := delay + extra;
        free := free + extra;
        net.links := net.links[a := net.links[a].(outFree := free, outOff := free + cfg.powerDown[level])];
      } else {
        possible := false;
        delay := net.links[a].outFree - now;
      }
    }

    /** The first transmission finds the edge link of the sender. */
    method AssignEdgeLink(net: SwitchFabric)
      requires net.shape.Sized() && level == -1
      modifies this`switch, this`link
      ensures State() == Depart(net.shape, old(State()))
    {
      var noOfLinks := net.shape.nodes / net.shape.sizes[0];
      assert noOfLinks == net.shape.FanIn(0);
      switch, link := src / noOfLinks, src % noOfLinks;
    }

    /** Reserve an outward link direction and, if granted and asked to, move to the switch at its other end. */
    method CrossOutward(net: SwitchFabric, cfg: Config, now: real, a: LinkAddr, follow: bool)
      returns (possible: bool, r: Outcome)
      requires net.shape.Sized() && cfg.Fits(net.shape) && 0 <= cfg.headerSize
      requires 0 <= level < net.shape.Levels() && (follow <==> dir.Up? || level != 0)
      requires a == PortOf(State()).addr && !dir.Unset?
      modifies net`links, this`switch
      ensures r.Abort? ==> r.fault == WildIndex
      ensures r.Abort? <==>
        || a !in old(net.links)
        || (old(net.links)[a].outFree <= now && follow
            && (old(net.links)[a].partner.None? || old(net.links)[a].partner.value !in old(net.links)))
      ensures r.Delay? ==>
        var m, was := old(State()), old(net.links)[a];
        if now < was.outFree then
          !possible && r.time == was.outFree - now && net.links == old(net.links) && State() == m
        else
          var extra := WakeDelay(cfg.sleep[m.level], cfg.wake[m.level], was.outOff, now);
          var until := now + HeaderTime(cfg, m) + PayloadTime(cfg, m) + extra;
          && possible
          && r.time == HeaderTime(cfg, m) + (if follow then 0.0 else PayloadTime(cfg, m)) + extra
          && net.links == old(net.links)[a := was.(outFree := until, outOff := until + cfg.powerDown[m.level])]
          && State() == (if follow then m.(switch := old(net.links)[was.partner.value].switchId) else m)
    {
      possible, r := false, Abort(WildIndex);
      if a !in net.links { return; }
      var delay;
      possible, delay := ReserveOutward(net, cfg, now, a);
      if possible && follow {
        var partner := net.links[a].partner;
        if partner.None? || partner.value !in net.links { return; }
        switch := net.links[partner.value].switchId;
      }
      r := Delay(delay);
    }

    /** The end of link_transmit: change level, notice the last hop, set the phase flags. */
    method Conclude(orgLevel: int, possible: bool, delay: real) returns (r: Outcome)
      requires level == orgLevel && !dir.Unset?
      modifies this`level, this`done, this`linkDone, this`switchDone
      ensures var m := old(State());
        if !possible then r == Delay(delay) && State() == m.(linkDone := false, switchDone := true)
        else if (m.linkDone || !m.switchDone) && orgLevel != -1 && m.dir.Up? then r == Abort(PhaseMix)
        else
          var level' := if m.dir.Up? then m.level + 1 else m.level - 1;
          r == Delay(delay)
          && State() == m.(level := level', done := m.done || level' == -1, linkDone := true, switchDone := false)
    {
      if possible {
        level := if dir == Up then level + 1 else level - 1;
      }
      if level == -1 && possible {
        done := true;
      }
      if possible {
        if (linkDone || !switchDone) && orgLevel != -1 && dir == Up {
          return Abort(PhaseMix);
        }
        linkDone, switchDone := true, false;
      } else {
        linkDone, switchDone := false, true;
      }
      r := Delay(delay);
    }

    method LinkTransmit(net: SwitchFabric, cfg: Config, now: real) returns (r: Outcome)
      requires net.shape.Sized() && net.Counted() && cfg.Fits(net.shape)
      modifies this, net`links
      ensures Agrees(Transmit(net.shape, cfg, old(net.links), old(State()), now), r, State(), net.links)
    {
      if !cfg.enabled { return Abort(NotEnabled); }
      if cfg.headerSize < 0 { return Abort(NegativeHeader); }
      if level == -1 {
        AssignEdgeLink(net);
        if src == dst {
          done := true;
          return Delay(0.0);
        }
      }
      if dir == Up {
        r := AttemptUp(net, cfg, now);
      } else if dir == Down {
        r := AttemptDown(net, cfg, now);
      } else {
        return Abort(BadDirection);
      }
    }

    method AttemptUp(net: SwitchFabric, cfg: Config, now: real) returns (r: Outcome)
      requires net.shape.Sized() && cfg.Fits(net.shape) && 0 <= cfg.headerSize && dir == Up
      modifies this, net`links
      ensures Agrees(Attempt(net.shape, cfg, old(net.links), old(State()), now), r, State(), net.links)
    {
      if level == -1 {
        if InLink(0, switch, link) !in net.links { return Abort(WildIndex); }
        var possible, delay := ReserveFromNode(net, cfg, now);
        if !possible && delay == 0.0 { return Abort(ZeroWait); }
        r := Conclude(level, possible, delay);
      } else if level == net.shape.Levels() - 1 {
        return Abort(UpAtTop);
      } else {
        if !(0 <= level < net.shape.Levels()) { return Abort(WildIndex); }
        var possible;
        possible, r := CrossOutward(net, cfg, now, OutLink(level, switch, link), true);
        if r.Abort? { return; }
        r := Conclude(level, possible, r.time);
      }
    }

    method AttemptDown(net: SwitchFabric, cfg: Config, now: real) returns (r: Outcome)
      requires net.shape.Sized() && cfg.Fits(net.shape) && 0 <= cfg.headerSize && dir == Down
      modifies this, net`links
      ensures Agrees(Attempt(net.shape, cfg, old(net.links), old(State()), now), r, State(), net.links)
    {
      if !(0 <= level < net.shape.Levels()) { return Abort(WildIndex); }
      var possible;
      possible, r := CrossOutward(net, cfg, now, InLink(level, switch, link), level != 0);
      if r.Abort? { return; }
      r := Conclude(level, possible, r.time);
    }

    /** Number of nodes under one switch of level `upTo`, multiplied up from the fan-ins of the first switches. */
    static method NodesPerSwitch(net: SwitchFabric, upTo: nat) returns (divisor: nat)
      requires net.shape.Sized() && net.Counted() && upTo < net.shape.Levels()
      ensures divisor == net.shape.NodesUnder(upTo)
    {
      divisor := net.switches[0][0].inLinks;
      for l := 1 to upTo + 1
        invariant divisor == net.shape.NodesUnder(l - 1)
      {
        divisor := divisor * net.switches[l][0].inLinks;
      }
    }

    /** The turn: decide the direction at the switch the message has reached. */
    method ChooseDirection(net: SwitchFabric) returns (fault: Option<Fault>)
      requires net.shape.Sized() && net.Counted() && 0 <= level < net.shape.Levels()
      requires 0 < net.shape.NodesUnder(level)
      modifies this`dir
      ensures var m, under := old(State()), net.shape.NodesUnder(level);
        if m.src / under == m.dst / under && !m.dir.Up? && level != net.shape.Levels() - 1 then fault == Some(TurnTwice)
        else fault == None && State() == Turn(net.shape, m)
    {
      var divisor := NodesPerSwitch(net, level);
      if src / divisor == dst / divisor {
        if dir == Up {
          dir := Down;
        } else if level != net.shape.Levels() - 1 {
          return Some(TurnTwice);
        }
      }
      fault := None;
    }

    /** The down-link towards the receiver, with the check that it leads to the receiver's subtree. */
    method ChooseDownLink(net: SwitchFabric) returns (fault: Option<Fault>)
      requires net.shape.Sized() && net.Counted() && 0 < level < net.shape.Levels()
      requires switch < net.shape.sizes[level] && 0 < net.shape.NodesUnder(level - 1)
      modifies this`link
      ensures var target := dst / net.shape.NodesUnder(level - 1);
        var a := InLink(level, switch, target % net.shape.FanIn(level));
        if a !in net.links || net.links[a].partner.None? || net.links[a].partner.value !in net.links then
          fault == Some(WildIndex)
        else if net.links[net.links[a].partner.value].switchId != target then fault == Some(WrongSwitch)
        else fault == None && link == a.index
    {
      var below := NodesPerSwitch(net, level - 1);
      var target := dst / below;
      link := target % net.switches[level][switch].inLinks;
      var a := InLink(level, switch, link);
      if a !in net.links || net.links[a].partner.None? || net.links[a].partner.value !in net.links {
        return Some(WildIndex);
      }
      if net.links[net.links[a].partner.value].switchId != target {
        return Some(WrongSwitch);
      }
      fault := None;
    }

    method NwSwitch(net: SwitchFabric, cfg: Config) returns (r: Outcome)
      requires net.shape.Sized() && net.Counted() && cfg.Fits(net.shape)
      modifies this
      ensures Agrees(Hop(net.shape, cfg, net.links, old(State())), r, State(), net.links)
    {
      if !(0 <= level < net.shape.Levels()) || net.shape.sizes[level] <= switch {
        return Abort(WildIndex);
      }
      NodesUnderPositive(net.shape, level);
      var fault := ChooseDirection(net);
      if fault.Some? { return Abort(fault.value); }
      r := ChooseLink(net, cfg);
    }

    /** The second half of nw_switch: the next link, and the phase flags. */
    method ChooseLink(net: SwitchFabric, cfg: Config) returns (r: Outcome)
      requires net.shape.Sized() && net.Counted() && cfg.Fits(net.shape)
      requires 0 <= level < net.shape.Levels() && switch < net.shape.sizes[level]
      modifies this
      ensures Agrees(Route(net.shape, cfg, net.links, old(State())), r, State(), net.links)
    {
      var fault;
      if dir == Up {
        if level == net.shape.Levels() - 1 { return Abort(UpAtTop); }
        var out := OutLink(level, switch, dst % net.switches[level][switch].outLinks);
        if out !in net.links { return Abort(WildIndex); }
        link := net.links[out].linkId;
      } else if dir == Down {
        var next := level - 1;
        if next == -1 {
          var noOfLinks := net.shape.nodes / net.shape.sizes[0];
          assert noOfLinks == net.shape.FanIn(0);
          link := dst % noOfLinks;
        } else {
          NodesUnderPositive(net.shape, next);
          fault := ChooseDownLink(net);
          if fault.Some? { return Abort(fault.value); }
        }
      } else {
        return Abort(BadDirection);
      }
      if switchDone || !linkDone { return Abort(SwitchTooEarly); }
      switchDone, linkDone := true, false;
      r := Delay(cfg.hop[level]);
    }

    method EeeNetwork(net: SwitchFabric, cfg: Config, now: real) returns (r: Outcome)
      requires net.shape.Sized() && net.Counted() && cfg.Fits(net.shape)
      modifies this, net`links
      ensures Agrees(Step(net.shape, cfg, old(net.links), old(State()), now), r, State(), net.links)
    {
      if !done {
        if level == -1 {
          dir := Up;
        } else if level == net.shape.Levels() - 1 {
          dir := Down;
        }
        if !linkDone {
          r := LinkTransmit(net, cfg, now);
        } else if !switchDone {
          r := NwSwitch(net, cfg);
        } else {
          return Abort(NoPhase);
        }
      } else {
        return Abort(AlreadySent);
      }
    }
  }
}
