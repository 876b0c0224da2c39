/**
 * What the reservations of a run look like: links are used by one message at a time, every message crosses the
 * ports of its route in order, its delays add up, and each wake-up charge is the one the power automaton asks for.
 */
module EeeHistory {
  import opened EeeShape
  import opened EeeWiring
  import opened EeeRouting
  import opened EeeRoutes
  import opened EeeRuns

  // ----- mutual exclusion

  /** Reservations of one link direction do not overlap. */
  ghost predicate Exclusive(log: seq<Reservation>) {
    forall a, b :: 0 <= a < b < |log| && log[a].port == log[b].port ==> log[a].until <= log[b].start
  }

  /** Every reservation lies behind the next free time of its direction, and every busy direction is reserved. */
  ghost predicate Accounted(w: World) {
    && (forall k :: 0 <= k < |w.log| ==>
          var e := w.log[k];
          && e.port.addr in w.links && 0.0 <= e.start <= w.now
          && 0.0 <= e.wake && e.start + e.wake <= e.until <= FreeAt(w.links, e.port))
    && forall p: Port | p.addr in w.links ::
         FreeAt(w.links, p) == 0.0 || ReservedUntil(w.log, p, FreeAt(w.links, p))
  }

  ghost predicate ReservedUntil(log: seq<Reservation>, p: Port, t: real) {
    exists k :: 0 <= k < |log| && log[k].port == p && log[k].until == t
  }

  /** What a call does to links and log, whatever the message. */
  lemma FireEffect(sh: Shape, cfg: Config, w: World, i: nat)
    requires sh.Admissible() && cfg.Valid(sh) && Safe(sh, w) && MayFire(w, i)
    ensures var w', mv := Fire(sh, cfg, w, i), MoveOf(sh, cfg, w, i);
      && Safe(sh, w') && mv.Moved? && w'.now == w.flights[i].at && w.now <= w'.now
      && (!mv.event.Crossed? ==> w'.log == w.log && w'.links == w.links)
      && (mv.event.Crossed? ==>
            var p := mv.event.port;
            && w'.log == w.log + [Reservation(i, p, w'.now, mv.event.wake, mv.event.until)]
            && Reserves(sh, cfg, w.links, w'.now, mv) && w'.links == mv.links)
  {
    FireFollowsRoute(sh, cfg, w, i);
    FireSafe(sh, cfg, w, i);
  }

  lemma FireExclusive(sh: Shape, cfg: Config, w: World, i: nat)
    requires sh.Admissible() && cfg.Valid(sh) && Safe(sh, w) && MayFire(w, i)
    requires Accounted(w) && Exclusive(w.log)
    ensures Accounted(Fire(sh, cfg, w, i)) && Exclusive(Fire(sh, cfg, w, i).log)
  {
    FireEffect(sh, cfg, w, i);
    var w', mv := Fire(sh, cfg, w, i), MoveOf(sh, cfg, w, i);
    if mv.event.Crossed? {
      CrossingAccounted(sh, cfg, w, w', i, mv);
    }
  }

  lemma CrossingAccounted(sh: Shape, cfg: Config, w: World, w': World, i: nat, mv: Move)
    requires sh.Admissible() && cfg.Valid(sh) && mv.Moved? && mv.event.Crossed?
    requires Accounted(w) && Exclusive(w.log) && 0.0 <= w.now <= w'.now
    requires Reserves(sh, cfg, w.links, w'.now, mv) && w'.links == mv.links && 0.0 <= mv.event.wake
    requires w'.log == w.log + [Reservation(i, mv.event.port, w'.now, mv.event.wake, mv.event.until)]
    ensures Accounted(w') && Exclusive(w'.log)
  {
    PortsReserved(sh, cfg, w, w', i, mv);
    LogBehind(sh, cfg, w, w', i, mv);
    var n, e := |w.log|, w'.log[|w.log|];
    forall a, b | 0 <= a < b < |w'.log| && w'.log[a].port == w'.log[b].port
      ensures w'.log[a].until <= w'.log[b].start
    {
      assert w'.log[a] == w.log[a];
      if b < n {
        assert w'.log[b] == w.log[b];
      } else {
        assert w.log[a].until <= FreeAt(w.links, w.log[a].port);
      }
    }
  }

  /** After a crossing every busy direction is reserved. */
  lemma PortsReserved(sh: Shape, cfg: Config, w: World, w': World, i: nat, mv: Move)
    requires sh.Admissible() && cfg.Valid(sh) && mv.Moved? && mv.event.Crossed? && Accounted(w)
    requires Reserves(sh, cfg, w.links, w'.now, mv) && w'.links == mv.links
    requires w'.log == w.log + [Reservation(i, mv.event.port, w'.now, mv.event.wake, mv.event.until)]
    ensures forall p: Port | p.addr in w'.links ::
      FreeAt(w'.links, p) == 0.0 || ReservedUntil(w'.log, p, FreeAt(w'.links, p))
  {
    var n, q := |w.log|, mv.event.port;
    assert w'.log[n].port == q && w'.log[n].until == mv.event.until;
    forall p: Port | p.addr in w'.links
      ensures FreeAt(w'.links, p) == 0.0 || ReservedUntil(w'.log, p, FreeAt(w'.links, p))
    {
      if p != q {
        assert FreeAt(w'.links, p) == FreeAt(w.links, p);
        if FreeAt(w.links, p) != 0.0 {
          var k :| 0 <= k < n && w.log[k].port == p && w.log[k].until == FreeAt(w.links, p);
          assert w'.log[k] == w.log[k];
        }
      }
    }
  }

  /** After a crossing every reservation lies behind the next free time of its direction. */
  lemma LogBehind(sh: Shape, cfg: Config, w: World, w': World, i: nat, mv: Move)
    requires sh.Admissible() && cfg.Valid(sh) && mv.Moved? && mv.event.Crossed? && Accounted(w)
    requires 0.0 <= w.now <= w'.now && 0.0 <= mv.event.wake
    requires Reserves(sh, cfg, w.links, w'.now, mv) && w'.links == mv.links
    requires w'.log == w.log + [Reservation(i, mv.event.port, w'.now, mv.event.wake, mv.event.until)]
    ensures forall k :: 0 <= k < |w'.log| ==>
      var e := w'.log[k];
      && e.port.addr in w'.links && 0.0 <= e.start <= w'.now
      && 0.0 <= e.wake && e.start + e.wake <= e.until <= FreeAt(w'.links, e.port)
  {
    forall k | 0 <= k < |w'.log|
      ensures w'.log[k].port.addr in w'.links && 0.0 <= w'.log[k].start <= w'.now && 0.0 <= w'.log[k].wake
      ensures w'.log[k].start + w'.log[k].wake <= w'.log[k].until <= FreeAt(w'.links, w'.log[k].port)
    {
      if k < |w.log| {
        assert w'.log[k] == w.log[k];
      }
    }
  }

  // ----- routes

  /** The link directions a flight has crossed, in order. */
  function CrossedBy(log: seq<Reservation>, i: nat): seq<Port> {
    if log == [] then []
    else
      var e := log[|log| - 1];
      CrossedBy(log[..|log| - 1], i) + if e.flight == i then [e.port] else []
  }

  lemma CrossedByAppend(log: seq<Reservation>, e: Reservation, i: nat)
    ensures CrossedBy(log + [e], i) == CrossedBy(log, i) + if e.flight == i then [e.port] else []
  {
    assert (log + [e])[..|log|] == log;
  }

  lemma {:induction false} CrossedByHolds(log: seq<Reservation>, k: nat)
    requires k < |log|
    ensures log[k].port in CrossedBy(log, log[k].flight)
  {
    if k < |log| - 1 {
      CrossedByHolds(log[..|log| - 1], k);
    }
  }

  /** The ports crossed so far are the beginning of the route. */
  ghost predicate OnRoute(sh: Shape, m: Msg, ports: seq<Port>)
    requires sh.Admissible() && Routed(sh, m)
  {
    && |ports| == Crossings(sh, m) <= 2 * Meet(sh, m.src, m.dst) + 2
    && forall k :: 0 <= k < |ports| ==> ports[k] == RoutePort(sh, m.src, m.dst, Meet(sh, m.src, m.dst), k)
  }

  ghost predicate AllOnRoute(sh: Shape, w: World)
    requires sh.Admissible() && AllRouted(sh, w.flights)
  {
    && (forall i: nat | i < |w.flights| :: OnRoute(sh, w.flights[i].msg, CrossedBy(w.log, i)))
    && forall k :: 0 <= k < |w.log| ==> w.log[k].flight < |w.flights|
  }

  /** How a move along the route counts, case by case. */
  lemma MoveCounts(sh: Shape, cfg: Config, links: map<LinkAddr, Link>, m: Msg, now: real, mv: Move)
    requires sh.Admissible() && cfg.Valid(sh) && Routed(sh, m) && !m.done && FollowsRoute(sh, cfg, links, m, now, mv)
    ensures SameEnds(m, mv.msg)
    ensures Crossings(sh, mv.msg) == Crossings(sh, m) + if mv.event.Crossed? then 1 else 0
    ensures Hops(sh, mv.msg) == Hops(sh, m) + if mv.event.Hopped? then 1 else 0
  {
    match mv.event
    case Local =>
    case Hopped =>
    case Refused(busy) =>
    case Crossed(_, _, _) =>
  }

  predicate SameEnds(m: Msg, m': Msg) { m'.src == m.src && m'.dst == m.dst && m'.size == m.size }

  lemma RouteLonger(sh: Shape, m: Msg, m': Msg, ports: seq<Port>, p: Port)
    requires sh.Admissible() && Routed(sh, m) && Routed(sh, m') && SameEnds(m, m')
    requires OnRoute(sh, m, ports) && Crossings(sh, m') == Crossings(sh, m) + 1
    requires Crossings(sh, m) < 2 * Meet(sh, m.src, m.dst) + 2
    requires p == RoutePort(sh, m.src, m.dst, Meet(sh, m.src, m.dst), Crossings(sh, m))
    ensures OnRoute(sh, m', ports + [p])
  {
  }

  lemma MoveOnRoute(sh: Shape, cfg: Config, links: map<LinkAddr, Link>, m: Msg, now: real, mv: Move, ports: seq<Port>)
    requires sh.Admissible() && cfg.Valid(sh) && Routed(sh, m) && !m.done
    requires FollowsRoute(sh, cfg, links, m, now, mv) && OnRoute(sh, m, ports)
    ensures OnRoute(sh, mv.msg, ports + if mv.event.Crossed? then [mv.event.port] else [])
  {
    MoveCounts(sh, cfg, links, m, now, mv);
    if mv.event.Crossed? {
      CrossedNext(sh, cfg, links, m, now, mv);
      RouteLonger(sh, m, mv.msg, ports, mv.event.port);
    } else {
      assert ports + [] == ports;
    }
  }

  lemma CrossedNext(sh: Shape, cfg: Config, links: map<LinkAddr, Link>, m: Msg, now: real, mv: Move)
    requires sh.Admissible() && cfg.Valid(sh) && Routed(sh, m) && !m.done && FollowsRoute(sh, cfg, links, m, now, mv)
    requires mv.event.Crossed?
    ensures var top := Meet(sh, m.src, m.dst);
      && Crossings(sh, m) < 2 * top + 2 && mv.event.port == RoutePort(sh, m.src, m.dst, top, Crossings(sh, m))
      && mv.delay == CrossCost(cfg, m.size, top, Crossings(sh, m)) + mv.event.wake
  {
  }

  lemma HoppedNext(sh: Shape, cfg: Config, links: map<LinkAddr, Link>, m: Msg, now: real, mv: Move)
    requires sh.Admissible() && cfg.Valid(sh) && Routed(sh, m) && !m.done && FollowsRoute(sh, cfg, links, m, now, mv)
    requires mv.event.Hopped?
    ensures var top := Meet(sh, m.src, m.dst);
      m.linkDone && Hops(sh, m) < 2 * top + 1 && mv.delay == HopCost(cfg, top, Hops(sh, m))
  {
  }

  lemma FireOnRoute(sh: Shape, cfg: Config, w: World, i: nat)
    requires sh.Admissible() && cfg.Valid(sh) && Safe(sh, w) && MayFire(w, i) && AllOnRoute(sh, w)
    ensures Safe(sh, Fire(sh, cfg, w, i)) && AllOnRoute(sh, Fire(sh, cfg, w, i))
  {
    FireFollowsRoute(sh, cfg, w, i);
    FireSafe(sh, cfg, w, i);
    FlightsOnRoute(sh, cfg, w, i);
    var w', mv := Fire(sh, cfg, w, i), MoveOf(sh, cfg, w, i);
    forall k | 0 <= k < |w'.log| ensures w'.log[k].flight < |w'.flights| {
      if k < |w.log| {
        assert w'.log[k] == w.log[k];
      }
    }
  }

  lemma FlightsOnRoute(sh: Shape, cfg: Config, w: World, i: nat)
    requires sh.Admissible() && cfg.Valid(sh) && Safe(sh, w) && MayFire(w, i) && AllOnRoute(sh, w)
    requires Safe(sh, Fire(sh, cfg, w, i))
    ensures var w' := Fire(sh, cfg, w, i);
      forall j: nat | j < |w'.flights| :: OnRoute(sh, w'.flights[j].msg, CrossedBy(w'.log, j))
  {
    FireFollowsRoute(sh, cfg, w, i);
    var w', mv := Fire(sh, cfg, w, i), MoveOf(sh, cfg, w, i);
    MoveOnRoute(sh, cfg, w.links, w.flights[i].msg, w.flights[i].at, mv, CrossedBy(w.log, i));
    forall j: nat | j < |w'.flights| ensures OnRoute(sh, w'.flights[j].msg, CrossedBy(w'.log, j)) {
      FireCrossedBy(sh, cfg, w, i, j);
      if j != i {
        assert w'.flights[j] == w.flights[j] && CrossedBy(w.log, j) + [] == CrossedBy(w.log, j);
      }
    }
  }

  lemma FireCrossedBy(sh: Shape, cfg: Config, w: World, i: nat, j: nat)
    requires sh.Sized() && cfg.Fits(sh) && i < |w.flights| && MoveOf(sh, cfg, w, i).Moved?
    ensures var mv := MoveOf(sh, cfg, w, i);
      CrossedBy(Fire(sh, cfg, w, i).log, j)
        == CrossedBy(w.log, j) + if mv.event.Crossed? && i == j then [mv.event.port] else []
  {
    var w', mv := Fire(sh, cfg, w, i), MoveOf(sh, cfg, w, i);
    if mv.event.Crossed? {
      CrossedByAppend(w.log, w'.log[|w.log|], j);
    } else {
      assert w'.log == w.log;
    }
  }

  // ----- hops

  /** The switches a flight has hopped through, in order. */
  function HoppedBy(hops: seq<Hop>, i: nat): seq<SwitchRef> {
    if hops == [] then []
    else
      var h := hops[|hops| - 1];
      HoppedBy(hops[..|hops| - 1], i) + if h.flight == i then [h.at] else []
  }

  /** The switches hopped through so far are the beginning of the route. */
  ghost predicate OnHops(sh: Shape, m: Msg, at: seq<SwitchRef>)
    requires sh.Admissible() && Routed(sh, m)
  {
    && |at| == Hops(sh, m) <= 2 * Meet(sh, m.src, m.dst) + 1
    && forall k :: 0 <= k < |at| ==> at[k] == RouteSwitch(sh, m.src, m.dst, Meet(sh, m.src, m.dst), k)
  }

  ghost predicate AllOnHops(sh: Shape, w: World)
    requires sh.Admissible() && AllRouted(sh, w.flights)
  {
    forall i: nat | i < |w.flights| :: OnHops(sh, w.flights[i].msg, HoppedBy(w.hops, i))
  }

  lemma MoveOnHops(sh: Shape, cfg: Config, links: map<LinkAddr, Link>, m: Msg, now: real, mv: Move, at: seq<SwitchRef>)
    requires sh.Admissible() && cfg.Valid(sh) && Routed(sh, m) && !m.done
    requires FollowsRoute(sh, cfg, links, m, now, mv) && OnHops(sh, m, at)
    ensures OnHops(sh, mv.msg, at + if mv.event.Hopped? then [SwitchRef(m.level, m.switch)] else [])
  {
    MoveCounts(sh, cfg, links, m, now, mv);
    ProgressBounds(sh, mv.msg);
    if mv.event.Hopped? {
      HoppedNext(sh, cfg, links, m, now, mv);
      HopsAtRouteSwitch(sh, m);
      HopsLonger(sh, m, mv.msg, at, SwitchRef(m.level, m.switch));
    } else {
      assert at + [] == at;
    }
  }

  lemma HopsLonger(sh: Shape, m: Msg, m': Msg, at: seq<SwitchRef>, s: SwitchRef)
    requires sh.Admissible() && Routed(sh, m) && Routed(sh, m') && SameEnds(m, m')
    requires OnHops(sh, m, at) && Hops(sh, m') == Hops(sh, m) + 1 && Hops(sh, m) < 2 * Meet(sh, m.src, m.dst) + 1
    requires s == RouteSwitch(sh, m.src, m.dst, Meet(sh, m.src, m.dst), Hops(sh, m))
    ensures OnHops(sh, m', at + [s])
  {
  }

  lemma FireHoppedBy(sh: Shape, cfg: Config, w: World, i: nat, j: nat)
    requires sh.Sized() && cfg.Fits(sh) && i < |w.flights| && MoveOf(sh, cfg, w, i).Moved?
    ensures var mv, m := MoveOf(sh, cfg, w, i), w.flights[i].msg;
      HoppedBy(Fire(sh, cfg, w, i).hops, j)
        == HoppedBy(w.hops, j) + if mv.event.Hopped? && i == j then [SwitchRef(m.level, m.switch)] else []
  {
    var h, w' := Hop(i, SwitchRef(w.flights[i].msg.level, w.flights[i].msg.switch)), Fire(sh, cfg, w, i);
    assert (w.hops + [h])[..|w.hops|] == w.hops;
    if !MoveOf(sh, cfg, w, i).event.Hopped? {
      assert w'.hops == w.hops;
    }
  }

  lemma FireOnHops(sh: Shape, cfg: Config, w: World, i: nat)
    requires sh.Admissible() && cfg.Valid(sh) && Safe(sh, w) && MayFire(w, i) && AllOnHops(sh, w)
    ensures Safe(sh, Fire(sh, cfg, w, i)) && AllOnHops(sh, Fire(sh, cfg, w, i))
  {
    FireFollowsRoute(sh, cfg, w, i);
    FireSafe(sh, cfg, w, i);
    var w', mv := Fire(sh, cfg, w, i), MoveOf(sh, cfg, w, i);
    forall j: nat | j < |w'.flights| ensures OnHops(sh, w'.flights[j].msg, HoppedBy(w'.hops, j)) {
      FireHoppedBy(sh, cfg, w, i, j);
      if j == i {
        MoveOnHops(sh, cfg, w.links, w.flights[i].msg, w.flights[i].at, mv, HoppedBy(w.hops, i));
      }
    }
  }

  /** A flight other than `i` has reserved the direction from `now` or before until exactly `until`. */
  ghost predicate HeldByAnother(log: seq<Reservation>, p: Port, now: real, until: real, i: nat) {
    exists k :: 0 <= k < |log| && log[k].port == p && log[k].start <= now && log[k].until == until && log[k].flight != i
  }

  /** A refused message waits, a positive time, for the end of a reservation that another message holds now. */
  lemma RefusedWaitsForAnother(sh: Shape, cfg: Config, w: World, i: nat)
    requires sh.Admissible() && cfg.Valid(sh) && Safe(sh, w) && MayFire(w, i)
    requires Accounted(w) && AllOnRoute(sh, w) && MoveOf(sh, cfg, w, i).Moved?
    requires MoveOf(sh, cfg, w, i).event.Refused?
    ensures var mv, now := MoveOf(sh, cfg, w, i), w.flights[i].at;
      0.0 < mv.delay && HeldByAnother(w.log, mv.event.busy, now, now + mv.delay, i)
  {
    FireFollowsRoute(sh, cfg, w, i);
    var m, mv, now := w.flights[i].msg, MoveOf(sh, cfg, w, i), w.flights[i].at;
    var busy := mv.event.busy;
    assert FreeAt(w.links, busy) == now + mv.delay;
    var k :| 0 <= k < |w.log| && w.log[k].port == busy && w.log[k].until == FreeAt(w.links, busy);
    if w.log[k].flight == i {
      CrossedByHolds(w.log, k);
      var ports, top := CrossedBy(w.log, i), Meet(sh, m.src, m.dst);
      var j :| 0 <= j < |ports| && ports[j] == busy;
      ProgressBounds(sh, m);
      RoutePortsDistinct(sh, m.src, m.dst, top, j, Crossings(sh, m));
    }
  }

  // ----- how long a reservation lasts

  /** Header and message on a link direction: up on the way in and on out-links, down on in-links. */
  function LoadTime(cfg: Config, size: nat, p: Port): real
    requires 0 <= cfg.headerSize
  {
    if p.half.Inward? then cfg.transfer(Up, 0, cfg.headerSize) + cfg.transfer(Up, 0, size)
    else
      match p.addr
      case OutLink(l, _, _) => cfg.transfer(Up, l + 1, cfg.headerSize) + cfg.transfer(Up, l + 1, size)
      case InLink(l, _, _) => cfg.transfer(Down, l, cfg.headerSize) + cfg.transfer(Down, l, size)
  }

  /** Every reservation lasts for the wake-up, the header and the whole message. */
  ghost predicate AllLast(cfg: Config, w: World)
    requires 0 <= cfg.headerSize
  {
    forall k :: 0 <= k < |w.log| ==> Lasts(cfg, w, w.log[k])
  }

  ghost predicate Lasts(cfg: Config, w: World, e: Reservation)
    requires 0 <= cfg.headerSize
  {
    && e.flight < |w.flights|
    && e.until == e.start + e.wake + LoadTime(cfg, w.flights[e.flight].msg.size, e.port)
  }

  lemma OccupancyIsLoad(sh: Shape, cfg: Config, src: nat, dst: nat, size: nat, top: nat, k: nat)
    requires sh.Sized() && 0 <= cfg.headerSize && top < sh.Levels() && k < 2 * top + 2
    ensures Occupancy(cfg, size, top, k) == LoadTime(cfg, size, RoutePort(sh, src, dst, top, k))
  {
  }

  lemma CrossingLasts(sh: Shape, cfg: Config, links: map<LinkAddr, Link>, m: Msg, now: real, mv: Move)
    requires sh.Admissible() && cfg.Valid(sh) && Routed(sh, m) && !m.done && FollowsRoute(sh, cfg, links, m, now, mv)
    requires mv.event.Crossed?
    ensures mv.event.until == now + mv.event.wake + LoadTime(cfg, m.size, mv.event.port)
  {
    CrossedNext(sh, cfg, links, m, now, mv);
    OccupancyIsLoad(sh, cfg, m.src, m.dst, m.size, Meet(sh, m.src, m.dst), Crossings(sh, m));
  }

  lemma FireLasts(sh: Shape, cfg: Config, w: World, i: nat)
    requires sh.Admissible() && cfg.Valid(sh) && Safe(sh, w) && MayFire(w, i) && AllLast(cfg, w)
    ensures AllLast(cfg, Fire(sh, cfg, w, i))
  {
    FireFollowsRoute(sh, cfg, w, i);
    var w', mv := Fire(sh, cfg, w, i), MoveOf(sh, cfg, w, i);
    if mv.event.Crossed? {
      CrossingLasts(sh, cfg, w.links, w.flights[i].msg, w.flights[i].at, mv);
    }
    forall k | 0 <= k < |w'.log| ensures Lasts(cfg, w', w'.log[k]) {
      if k < |w.log| {
        assert Lasts(cfg, w, w.log[k]) && w'.log[k] == w.log[k];
      }
    }
  }

  // ----- travel time

  /** Times of the first `k` transmissions of a route. */
  function CrossTime(cfg: Config, size: nat, top: nat, k: nat): real
    requires 0 <= cfg.headerSize && k <= 2 * top + 2
  {
    if k == 0 then 0.0 else CrossTime(cfg, size, top, k - 1) + CrossCost(cfg, size, top, k - 1)
  }

  /** Times of its first `k` switch hops. */
  function HopTime(cfg: Config, top: nat, k: nat): real
    requires top < |cfg.hop| && k <= 2 * top + 1
  {
    if k == 0 then 0.0 else HopTime(cfg, top, k - 1) + HopCost(cfg, top, k - 1)
  }

  /** Everything that has delayed a message: its route, waking links and waiting for others. */
  ghost predicate OnTime(sh: Shape, cfg: Config, f: Flight)
    requires sh.Admissible() && cfg.Valid(sh) && Routed(sh, f.msg)
  {
    var m, top := f.msg, Meet(sh, f.msg.src, f.msg.dst);
    ProgressBounds(sh, m);
    f.at == f.start + CrossTime(cfg, m.size, top, Crossings(sh, m)) + HopTime(cfg, top, Hops(sh, m))
            + f.woken + f.waited
  }

  ghost predicate AllOnTime(sh: Shape, cfg: Config, w: World)
    requires sh.Admissible() && cfg.Valid(sh) && AllRouted(sh, w.flights)
  {
    forall i: nat | i < |w.flights| :: OnTime(sh, cfg, w.flights[i])
  }

  lemma FireOnTime(sh: Shape, cfg: Config, w: World, i: nat)
    requires sh.Admissible() && cfg.Valid(sh) && Safe(sh, w) && MayFire(w, i) && AllOnTime(sh, cfg, w)
    ensures Safe(sh, Fire(sh, cfg, w, i)) && AllOnTime(sh, cfg, Fire(sh, cfg, w, i))
  {
    FireFollowsRoute(sh, cfg, w, i);
    FireSafe(sh, cfg, w, i);
    assert OnTime(sh, cfg, w.flights[i]);
    MoveOnTime(sh, cfg, w.links, w.flights[i], MoveOf(sh, cfg, w, i));
    OthersOnTime(sh, cfg, w, i);
  }

  lemma OthersOnTime(sh: Shape, cfg: Config, w: World, i: nat)
    requires sh.Admissible() && cfg.Valid(sh) && Safe(sh, w) && MayFire(w, i) && AllOnTime(sh, cfg, w)
    requires var mv, w' := MoveOf(sh, cfg, w, i), Fire(sh, cfg, w, i);
      && mv.Moved? && Routed(sh, mv.msg) && OnTime(sh, cfg, FlightAfter(w.flights[i], mv)) && AllRouted(sh, w'.flights)
    ensures AllOnTime(sh, cfg, Fire(sh, cfg, w, i))
  {
    var w' := Fire(sh, cfg, w, i);
    forall k: nat | k < |w'.flights| ensures OnTime(sh, cfg, w'.flights[k]) {
      if k != i {
        assert w'.flights[k] == w.flights[k];
      }
    }
  }

  /** A move along the route keeps a flight on time. */
  lemma MoveOnTime(sh: Shape, cfg: Config, links: map<LinkAddr, Link>, f: Flight, mv: Move)
    requires sh.Admissible() && cfg.Valid(sh) && Routed(sh, f.msg) && !f.msg.done && OnTime(sh, cfg, f)
    requires FollowsRoute(sh, cfg, links, f.msg, f.at, mv)
    ensures OnTime(sh, cfg, FlightAfter(f, mv))
  {
    MoveCounts(sh, cfg, links, f.msg, f.at, mv);
    if mv.event.Crossed? {
      CrossedNext(sh, cfg, links, f.msg, f.at, mv);
    } else if mv.event.Hopped? {
      HoppedNext(sh, cfg, links, f.msg, f.at, mv);
    } else {
      StaysOrWaits(sh, cfg, links, f.msg, f.at, mv);
    }
    OnTimeAfter(sh, cfg, f, mv);
  }

  lemma StaysOrWaits(sh: Shape, cfg: Config, links: map<LinkAddr, Link>, m: Msg, now: real, mv: Move)
    requires sh.Admissible() && cfg.Valid(sh) && Routed(sh, m) && !m.done && FollowsRoute(sh, cfg, links, m, now, mv)
    ensures mv.event.Local? ==> mv.delay == 0.0
  {
  }

  lemma OnTimeAfter(sh: Shape, cfg: Config, f: Flight, mv: Move)
    requires sh.Admissible() && cfg.Valid(sh) && Routed(sh, f.msg) && OnTime(sh, cfg, f)
    requires mv.Moved? && Routed(sh, mv.msg) && SameEnds(f.msg, mv.msg)
    requires Crossings(sh, mv.msg) == Crossings(sh, f.msg) + (if mv.event.Crossed? then 1 else 0)
    requires Hops(sh, mv.msg) == Hops(sh, f.msg) + (if mv.event.Hopped? then 1 else 0)
    requires var top := Meet(sh, f.msg.src, f.msg.dst);
      && (mv.event.Crossed? ==> Crossings(sh, f.msg) < 2 * top + 2)
      && (mv.event.Crossed? ==> mv.delay == CrossCost(cfg, f.msg.size, top, Crossings(sh, f.msg)) + mv.event.wake)
      && (mv.event.Hopped? ==> Hops(sh, f.msg) < 2 * top + 1 && mv.delay == HopCost(cfg, top, Hops(sh, f.msg)))
      && (mv.event.Local? ==> mv.delay == 0.0)
    ensures OnTime(sh, cfg, FlightAfter(f, mv))
  {
    ProgressBounds(sh, f.msg);
    ProgressBounds(sh, mv.msg);
  }

  /** Header times of the `k` lowest levels in one direction. */
  function HeaderSum(cfg: Config, d: Direction, k: nat): real
    requires 0 <= cfg.headerSize
  {
    if k == 0 then 0.0 else HeaderSum(cfg, d, k - 1) + cfg.transfer(d, k - 1, cfg.headerSize)
  }

  /** Hop latencies of the `k` lowest levels. */
  function HopSum(cfg: Config, k: nat): real
    requires k <= |cfg.hop|
  {
    if k == 0 then 0.0 else HopSum(cfg, k - 1) + cfg.hop[k - 1]
  }

  /** Virtual cut-through between nodes that meet at level `top`: headers on every link, the payload once. */
  function CutThroughTime(cfg: Config, size: nat, top: nat): real
    requires 0 <= cfg.headerSize && top < |cfg.hop|
  {
    HeaderSum(cfg, Up, top + 1) + HeaderSum(cfg, Down, top + 1) + cfg.transfer(Down, 0, size)
    + HopSum(cfg, top + 1) + HopSum(cfg, top)
  }

  lemma {:induction false} CrossTimeClosed(cfg: Config, size: nat, top: nat, k: nat)
    requires 0 <= cfg.headerSize && k <= 2 * top + 2
    ensures CrossTime(cfg, size, top, k)
         == if k <= top + 1 then HeaderSum(cfg, Up, k)
            else HeaderSum(cfg, Up, top + 1)
                 + HeaderSum(cfg, Down, top + 1) - HeaderSum(cfg, Down, 2 * top + 2 - k)
                 + if k == 2 * top + 2 then cfg.transfer(Down, 0, size) else 0.0
  {
    if k != 0 {
      CrossTimeClosed(cfg, size, top, k - 1);
    }
  }

  lemma {:induction false} HopTimeClosed(cfg: Config, top: nat, k: nat)
    requires top < |cfg.hop| && k <= 2 * top + 1
    ensures HopTime(cfg, top, k)
         == if k <= top + 1 then HopSum(cfg, k)
            else HopSum(cfg, top + 1) + HopSum(cfg, top) - HopSum(cfg, 2 * top + 1 - k)
  {
    if k != 0 {
      HopTimeClosed(cfg, top, k - 1);
    }
  }

  /** A delivered message took the cut-through time of its route plus its wake-ups and its waits. */
  lemma DeliveredOnTime(sh: Shape, cfg: Config, f: Flight)
    requires sh.Admissible() && cfg.Valid(sh) && Routed(sh, f.msg) && OnTime(sh, cfg, f) && f.msg.done
    ensures f.at == f.start + f.woken + f.waited
      + if f.msg.src == f.msg.dst then 0.0 else CutThroughTime(cfg, f.msg.size, Meet(sh, f.msg.src, f.msg.dst))
  {
    var top := Meet(sh, f.msg.src, f.msg.dst);
    CrossTimeClosed(cfg, f.msg.size, top, 2 * top + 2);
    HopTimeClosed(cfg, top, 2 * top + 1);
  }
}
