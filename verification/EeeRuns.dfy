/**
 * Any number of messages sharing the network.  Every message is called again exactly after the delay its last
 * call returned; of the pending calls one with the earliest time comes first, ties in any order.
 */
module EeeRuns {
  import opened EeeShape
  import opened EeeWiring
  import opened EeeRouting
  import opened EeeRoutes
  import opened Counting

  /** A message with its start, the time of its next call and what its delays were made of. */
  datatype Flight = Flight(msg: Msg, start: real, at: real, waited: real, woken: real)

  /** A granted link direction: busy from `start` to `until`, of which `wake` is spent waking up. */
  datatype Reservation = Reservation(flight: nat, port: Port, start: real, wake: real, until: real)

  /** A hop of a flight through a switch. */
  datatype Hop = Hop(flight: nat, at: SwitchRef)

  datatype World = World(
    now: real, flights: seq<Flight>, links: map<LinkAddr, Link>, log: seq<Reservation>, hops: seq<Hop>, crashed: bool)

  function FreeAt(links: map<LinkAddr, Link>, p: Port): real
    requires p.addr in links
  {
    GateOf(links[p.addr], p.half).free
  }

  /** The flights that still have to be called. */
  predicate Pending(w: World, i: nat) { i < |w.flights| && !w.flights[i].msg.done }

  /** The event loop may call flight `i` next. */
  predicate MayFire(w: World, i: nat) {
    && !w.crashed && Pending(w, i)
    && forall j: nat | j < |w.flights| :: Pending(w, j) ==> w.flights[i].at <= w.flights[j].at
  }

  function MoveOf(sh: Shape, cfg: Config, w: World, i: nat): Move
    requires sh.Sized() && cfg.Fits(sh) && i < |w.flights|
  {
    Step(sh, cfg, w.links, w.flights[i].msg, w.flights[i].at)
  }

  /** A flight is called again after the delay of its move; refusals and waking links are added up. */
  function FlightAfter(f: Flight, mv: Move): Flight
    requires mv.Moved?
  {
    Flight(mv.msg, f.start, f.at + mv.delay,
           if mv.event.Refused? then f.waited + mv.delay else f.waited,
           if mv.event.Crossed? then f.woken + mv.event.wake else f.woken)
  }

  /** The world after the call of flight `i`; an error exit ends the program. */
  function Fire(sh: Shape, cfg: Config, w: World, i: nat): World
    requires sh.Sized() && cfg.Fits(sh) && i < |w.flights|
  {
    var f, mv := w.flights[i], MoveOf(sh, cfg, w, i);
    match mv
    case Exit(_) => w.(crashed := true)
    case Moved(m, links, delay, event) =>
      World(f.at,
            w.flights[i := FlightAfter(f, mv)],
            links,
            w.log + (if event.Crossed? then [Reservation(i, event.port, f.at, event.wake, event.until)] else []),
            w.hops + (if event.Hopped? then [Hop(i, SwitchRef(f.msg.level, f.msg.switch))] else []),
            false)
  }

  /** A run is a sequence of choices of the event loop. */
  predicate IsRun(sh: Shape, cfg: Config, w: World, picks: seq<nat>)
    requires sh.Sized() && cfg.Fits(sh)
    decreases |picks|
  {
    picks == [] || (MayFire(w, picks[0]) && IsRun(sh, cfg, Fire(sh, cfg, w, picks[0]), picks[1..]))
  }

  function After(sh: Shape, cfg: Config, w: World, picks: seq<nat>): World
    requires sh.Sized() && cfg.Fits(sh) && IsRun(sh, cfg, w, picks)
    decreases |picks|
  {
    if picks == [] then w else After(sh, cfg, Fire(sh, cfg, w, picks[0]), picks[1..])
  }

  /** A freshly configured network and messages that have not set out. */
  ghost predicate Initial(sh: Shape, w: World)
    requires sh.Admissible()
  {
    && w.now == 0.0 && w.log == [] && w.hops == [] && !w.crashed
    && FreshNetwork(sh, w.links)
    && forall i: nat | i < |w.flights| ::
         var f := w.flights[i];
         f.msg.src < sh.nodes && f.msg.dst < sh.nodes && f.msg.level == -1 && !f.msg.linkDone && !f.msg.done
         && 0.0 <= f.start && f.at == f.start && f.waited == 0.0 && f.woken == 0.0
  }

  predicate AllRouted(sh: Shape, fs: seq<Flight>)
    requires sh.Admissible()
  {
    forall i: nat | i < |fs| :: Routed(sh, fs[i].msg)
  }

  /** Safety: no error exit was taken, all messages are on their routes, and no call is overdue. */
  ghost predicate Safe(sh: Shape, w: World)
    requires sh.Admissible()
  {
    && !w.crashed && 0.0 <= w.now && Wired(sh, w.links)
    && AllRouted(sh, w.flights)
    && forall i: nat | Pending(w, i) :: w.now <= w.flights[i].at
  }

  lemma FireFollowsRoute(sh: Shape, cfg: Config, w: World, i: nat)
    requires sh.Admissible() && cfg.Valid(sh) && Safe(sh, w) && MayFire(w, i)
    ensures FollowsRoute(sh, cfg, w.links, w.flights[i].msg, w.flights[i].at, MoveOf(sh, cfg, w, i))
  {
    StepFollowsRoute(sh, cfg, w.links, w.flights[i].msg, w.flights[i].at);
  }

  lemma FireSafe(sh: Shape, cfg: Config, w: World, i: nat)
    requires sh.Admissible() && cfg.Valid(sh) && Safe(sh, w) && MayFire(w, i)
    ensures Safe(sh, Fire(sh, cfg, w, i))
  {
    FireFollowsRoute(sh, cfg, w, i);
  }

  // ----- termination

  function StepsLeftOf(sh: Shape, fs: seq<Flight>): seq<nat>
    requires sh.Admissible() && AllRouted(sh, fs)
  {
    seq(|fs|, (i: nat) requires i < |fs| => StepsLeft(sh, fs[i].msg))
  }

  /** The flight is going to find its link busy. */
  predicate Blocked(sh: Shape, links: map<LinkAddr, Link>, f: Flight)
    requires sh.Admissible() && Routed(sh, f.msg)
  {
    !f.msg.done && !f.msg.linkDone && f.msg.src != f.msg.dst
    && NextPort(sh, f.msg).addr in links && f.at < FreeAt(links, NextPort(sh, f.msg))
  }

  function BlockedOf(sh: Shape, links: map<LinkAddr, Link>, fs: seq<Flight>): seq<nat>
    requires sh.Admissible() && AllRouted(sh, fs)
  {
    seq(|fs|, (i: nat) requires i < |fs| => if Blocked(sh, links, fs[i]) then 1 else 0)
  }

  /** Successful calls left, over all flights. */
  function TotalLeft(sh: Shape, w: World): nat
    requires sh.Admissible() && AllRouted(sh, w.flights)
  {
    Sum(StepsLeftOf(sh, w.flights))
  }

  /** Flights that are going to be refused. */
  function TotalBlocked(sh: Shape, w: World): nat
    requires sh.Admissible() && AllRouted(sh, w.flights)
  {
    Sum(BlockedOf(sh, w.links, w.flights))
  }

  lemma BlockedAtMostAll(sh: Shape, w: World)
    requires sh.Admissible() && AllRouted(sh, w.flights)
    ensures TotalBlocked(sh, w) <= |w.flights|
  {
    SumBound(BlockedOf(sh, w.links, w.flights), 1);
  }

  /** Longest run that `left` steps of `n` flights and `blocked` refusals allow. */
  function RunBound(left: nat, blocked: nat, n: nat): nat { left * (n + 1) + blocked }

  lemma RunBoundDrops(left: nat, blocked: nat, left': nat, blocked': nat, n: nat)
    requires (left' == left && blocked' + 1 == blocked) || (left' + 1 == left && blocked' <= n)
    ensures RunBound(left', blocked', n) + 1 <= RunBound(left, blocked, n)
  {
  }

  /** A call takes a step of its route, or is refused and will not be refused at its next call. */
  lemma FireProgress(sh: Shape, cfg: Config, w: World, i: nat)
    requires sh.Admissible() && cfg.Valid(sh) && Safe(sh, w) && MayFire(w, i)
    ensures var w' := Fire(sh, cfg, w, i);
      Safe(sh, w') && |w'.flights| == |w.flights| && w'.flights == w.flights[i := w'.flights[i]]
      && MoveOf(sh, cfg, w, i).Moved?
      && if MoveOf(sh, cfg, w, i).event.Refused? then
           StepsLeft(sh, w'.flights[i].msg) == StepsLeft(sh, w.flights[i].msg)
           && w'.links == w.links
           && Blocked(sh, w.links, w.flights[i]) && !Blocked(sh, w'.links, w'.flights[i])
         else StepsLeft(sh, w'.flights[i].msg) + 1 == StepsLeft(sh, w.flights[i].msg)
  {
    FireFollowsRoute(sh, cfg, w, i);
    FireSafe(sh, cfg, w, i);
    ProgressBounds(sh, w.flights[i].msg);
  }

  /** The steps left, after replacing one flight. */
  lemma StepsLeftUpdate(sh: Shape, fs: seq<Flight>, i: nat, f: Flight)
    requires sh.Admissible() && i < |fs| && Routed(sh, f.msg)
    requires AllRouted(sh, fs)
    ensures AllRouted(sh, fs[i := f])
    ensures Sum(StepsLeftOf(sh, fs[i := f])) + StepsLeft(sh, fs[i].msg)
         == Sum(StepsLeftOf(sh, fs)) + StepsLeft(sh, f.msg)
  {
    assert StepsLeftOf(sh, fs[i := f]) == StepsLeftOf(sh, fs)[i := StepsLeft(sh, f.msg)];
    SumUpdate(StepsLeftOf(sh, fs), i, StepsLeft(sh, f.msg));
  }

  lemma BlockedUpdate(sh: Shape, links: map<LinkAddr, Link>, fs: seq<Flight>, i: nat, f: Flight)
    requires sh.Admissible() && i < |fs| && Routed(sh, f.msg)
    requires AllRouted(sh, fs)
    requires Blocked(sh, links, fs[i]) && !Blocked(sh, links, f)
    ensures AllRouted(sh, fs[i := f])
    ensures Sum(BlockedOf(sh, links, fs[i := f])) + 1 == Sum(BlockedOf(sh, links, fs))
  {
    assert BlockedOf(sh, links, fs[i := f]) == BlockedOf(sh, links, fs)[i := 0];
    SumUpdate(BlockedOf(sh, links, fs), i, 0);
  }

  lemma FireMeasure(sh: Shape, cfg: Config, w: World, i: nat)
    requires sh.Admissible() && cfg.Valid(sh) && Safe(sh, w) && MayFire(w, i)
    ensures var w' := Fire(sh, cfg, w, i);
      && Safe(sh, w') && |w'.flights| == |w.flights|
      && (|| (TotalLeft(sh, w') == TotalLeft(sh, w) && TotalBlocked(sh, w') + 1 == TotalBlocked(sh, w))
          || (TotalLeft(sh, w') + 1 == TotalLeft(sh, w) && TotalBlocked(sh, w') <= |w.flights|))
  {
    FireProgress(sh, cfg, w, i);
    var w' := Fire(sh, cfg, w, i);
    StepsLeftUpdate(sh, w.flights, i, w'.flights[i]);
    if MoveOf(sh, cfg, w, i).event.Refused? {
      BlockedUpdate(sh, w.links, w.flights, i, w'.flights[i]);
    } else {
      BlockedAtMostAll(sh, w');
    }
  }

  /** Main result: no run takes an error exit, and none is longer than the steps and refusals it starts with allow. */
  lemma {:induction false} RunsAreSafeAndFinite(sh: Shape, cfg: Config, w: World, picks: seq<nat>)
    requires sh.Admissible() && cfg.Valid(sh) && Safe(sh, w) && IsRun(sh, cfg, w, picks)
    ensures Safe(sh, After(sh, cfg, w, picks))
    ensures |picks| <= RunBound(TotalLeft(sh, w), TotalBlocked(sh, w), |w.flights|)
    decreases |picks|
  {
    if picks != [] {
      var w' := Fire(sh, cfg, w, picks[0]);
      FireMeasure(sh, cfg, w, picks[0]);
      RunBoundDrops(TotalLeft(sh, w), TotalBlocked(sh, w), TotalLeft(sh, w'), TotalBlocked(sh, w'), |w.flights|);
      RunsAreSafeAndFinite(sh, cfg, w', picks[1..]);
    }
  }
}
