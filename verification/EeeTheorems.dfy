/** Every run of the switch network, from configuration to delivery. */
module EeeTheorems {
  import opened EeeShape
  import opened EeeRouting
  import opened EeeRoutes
  import opened EeeRuns
  import opened EeeHistory
  import opened EeeEnergy
  import opened Counting

  /** The routes of two messages have no link direction in common. */
  ghost predicate RoutesApart(sh: Shape, a: Msg, b: Msg)
    requires sh.Admissible() && a.src < sh.nodes && a.dst < sh.nodes && b.src < sh.nodes && b.dst < sh.nodes
  {
    a.src != a.dst && b.src != b.dst ==>
      var top, top' := Meet(sh, a.src, a.dst), Meet(sh, b.src, b.dst);
      forall k: nat, k': nat | k < 2 * top + 2 && k' < 2 * top' + 2 ::
        RoutePort(sh, a.src, a.dst, top, k) != RoutePort(sh, b.src, b.dst, top', k')
  }

  /** No other message uses a link direction of the route of message `i`. */
  ghost predicate Alone(sh: Shape, fs: seq<Flight>, i: nat)
    requires sh.Admissible() && AllRouted(sh, fs) && i < |fs|
  {
    forall j: nat | j < |fs| && j != i :: RoutesApart(sh, fs[i].msg, fs[j].msg)
  }

  /** A message that shares no link direction with another has never waited. */
  ghost predicate AloneNeverWaits(sh: Shape, w: World)
    requires sh.Admissible() && AllRouted(sh, w.flights)
  {
    forall i: nat | i < |w.flights| :: Alone(sh, w.flights, i) ==> w.flights[i].waited == 0.0
  }

  /** Everything that holds of every world a run can reach. */
  ghost predicate Sound(sh: Shape, cfg: Config, w: World)
    requires sh.Admissible() && cfg.Valid(sh)
  {
    && Safe(sh, w)
    && Accounted(w) && Exclusive(w.log)
    && AllOnRoute(sh, w) && AllOnHops(sh, w)
    && AllOnTime(sh, cfg, w)
    && Tracks(sh, cfg, w) && ChargesAreWaits(cfg, w.log)
    && AloneNeverWaits(sh, w) && AllLast(cfg, w)
  }

  lemma InitialSound(sh: Shape, cfg: Config, w: World)
    requires sh.Admissible() && cfg.Valid(sh) && Initial(sh, w)
    ensures Sound(sh, cfg, w)
  {
  }

  lemma SameAlone(sh: Shape, fs: seq<Flight>, fs': seq<Flight>, i: nat)
    requires sh.Admissible() && AllRouted(sh, fs) && AllRouted(sh, fs') && SameJourneys(fs', fs) && i < |fs|
    ensures Alone(sh, fs, i) <==> Alone(sh, fs', i)
  {
    forall j: nat | j < |fs|
      ensures RoutesApart(sh, fs[i].msg, fs[j].msg) <==> RoutesApart(sh, fs'[i].msg, fs'[j].msg)
    {
      assert SameJourney(fs'[i], fs[i]) && SameJourney(fs'[j], fs[j]);
    }
  }

  /** Who has reserved the direction that a message needs next shares it. */
  lemma HolderShares(sh: Shape, w: World, i: nat, k: nat)
    requires sh.Admissible() && AllRouted(sh, w.flights) && AllOnRoute(sh, w) && i < |w.flights| && k < |w.log|
    requires var m := w.flights[i].msg;
      !m.done && !m.linkDone && m.src != m.dst && w.log[k].port == NextPort(sh, m) && w.log[k].flight != i
    ensures !Alone(sh, w.flights, i)
  {
    var m, j := w.flights[i].msg, w.log[k].flight;
    CrossedByHolds(w.log, k);
    assert OnRoute(sh, w.flights[j].msg, CrossedBy(w.log, j));
    ProgressBounds(sh, m);
    assert !RoutesApart(sh, m, w.flights[j].msg);
  }

  /** A refused message is not alone: the direction it needs is on the route of the message that holds it. */
  lemma RefusedIsNotAlone(sh: Shape, cfg: Config, w: World, i: nat)
    requires sh.Admissible() && cfg.Valid(sh) && Safe(sh, w) && MayFire(w, i) && Accounted(w) && AllOnRoute(sh, w)
    requires MoveOf(sh, cfg, w, i).Moved? && MoveOf(sh, cfg, w, i).event.Refused?
    ensures !Alone(sh, w.flights, i)
  {
    RefusedWaitsForAnother(sh, cfg, w, i);
    FireFollowsRoute(sh, cfg, w, i);
    var mv, now := MoveOf(sh, cfg, w, i), w.flights[i].at;
    var k :| 0 <= k < |w.log| && w.log[k].port == mv.event.busy && w.log[k].start <= now
             && w.log[k].until == now + mv.delay && w.log[k].flight != i;
    HolderShares(sh, w, i, k);
  }

  lemma FireAlone(sh: Shape, cfg: Config, w: World, i: nat)
    requires sh.Admissible() && cfg.Valid(sh) && MayFire(w, i)
    requires Safe(sh, w) && Accounted(w) && AllOnRoute(sh, w) && AloneNeverWaits(sh, w)
    ensures AllRouted(sh, Fire(sh, cfg, w, i).flights) && AloneNeverWaits(sh, Fire(sh, cfg, w, i))
  {
    FireFollowsRoute(sh, cfg, w, i);
    FireSafe(sh, cfg, w, i);
    FireKeepsJourneys(sh, cfg, w, i);
    var w' := Fire(sh, cfg, w, i);
    forall j: nat | j < |w'.flights| && Alone(sh, w'.flights, j) ensures w'.flights[j].waited == 0.0 {
      SameAlone(sh, w.flights, w'.flights, j);
      if j == i && MoveOf(sh, cfg, w, i).event.Refused? {
        RefusedIsNotAlone(sh, cfg, w, i);
      }
    }
  }

  lemma FireSound(sh: Shape, cfg: Config, w: World, i: nat)
    requires sh.Admissible() && cfg.Valid(sh) && Sound(sh, cfg, w) && MayFire(w, i)
    ensures Sound(sh, cfg, Fire(sh, cfg, w, i))
  {
    FireSafe(sh, cfg, w, i);
    FireExclusive(sh, cfg, w, i);
    FireOnRoute(sh, cfg, w, i);
    FireOnHops(sh, cfg, w, i);
    FireOnTime(sh, cfg, w, i);
    FireTracks(sh, cfg, w, i);
    FireAlone(sh, cfg, w, i);
    FireLasts(sh, cfg, w, i);
  }

  lemma {:induction false} RunSound(sh: Shape, cfg: Config, w: World, picks: seq<nat>)
    requires sh.Admissible() && cfg.Valid(sh) && Sound(sh, cfg, w) && IsRun(sh, cfg, w, picks)
    ensures Sound(sh, cfg, After(sh, cfg, w, picks))
    decreases |picks|
  {
    if picks != [] {
      FireSound(sh, cfg, w, picks[0]);
      RunSound(sh, cfg, Fire(sh, cfg, w, picks[0]), picks[1..]);
    }
  }

  predicate SameJourneys(fs: seq<Flight>, gs: seq<Flight>) {
    |fs| == |gs| && forall i: nat | i < |fs| :: SameJourney(fs[i], gs[i])
  }

  lemma {:induction false} RunKeepsJourneys(sh: Shape, cfg: Config, w: World, picks: seq<nat>)
    requires sh.Admissible() && cfg.Valid(sh) && Safe(sh, w) && IsRun(sh, cfg, w, picks)
    ensures SameJourneys(After(sh, cfg, w, picks).flights, w.flights)
    decreases |picks|
  {
    if picks != [] {
      var w' := Fire(sh, cfg, w, picks[0]);
      FireSafe(sh, cfg, w, picks[0]);
      FireKeepsJourneys(sh, cfg, w, picks[0]);
      RunKeepsJourneys(sh, cfg, w', picks[1..]);
      JourneysCompose(After(sh, cfg, w', picks[1..]).flights, w'.flights, w.flights);
    }
  }

  lemma FireKeepsJourneys(sh: Shape, cfg: Config, w: World, i: nat)
    requires sh.Admissible() && cfg.Valid(sh) && Safe(sh, w) && MayFire(w, i)
    ensures SameJourneys(Fire(sh, cfg, w, i).flights, w.flights)
  {
    FireFollowsRoute(sh, cfg, w, i);
  }

  lemma JourneysCompose(fs: seq<Flight>, gs: seq<Flight>, hs: seq<Flight>)
    requires SameJourneys(fs, gs) && SameJourneys(gs, hs)
    ensures SameJourneys(fs, hs)
  {
    forall i: nat | i < |fs| ensures SameJourney(fs[i], hs[i]) {
      assert SameJourney(fs[i], gs[i]) && SameJourney(gs[i], hs[i]);
    }
  }

  /** The message and its start do not change under way. */
  predicate SameJourney(f: Flight, g: Flight) {
    f.msg.src == g.msg.src && f.msg.dst == g.msg.dst && f.msg.size == g.msg.size && f.start == g.start
  }

  /** While a message is under way some call is due: the loop does not stop early. */
  lemma {:induction false} SomeoneMayFire(w: World, i: nat)
    requires !w.crashed && Pending(w, i)
    ensures exists k :: MayFire(w, k)
  {
    var first := Earliest(w, |w.flights|, i);
    assert MayFire(w, first);
  }

  /** An earliest pending flight among the first `n`, or `i` if none is earlier. */
  function Earliest(w: World, n: nat, i: nat): (k: nat)
    requires n <= |w.flights| && Pending(w, i)
    ensures Pending(w, k) && w.flights[k].at <= w.flights[i].at
    ensures forall j: nat | j < n :: Pending(w, j) ==> w.flights[k].at <= w.flights[j].at
  {
    if n == 0 then i
    else
      var k := Earliest(w, n - 1, i);
      if Pending(w, n - 1) && w.flights[n - 1].at < w.flights[k].at then n - 1 else k
  }

  /** At the start no link is busy, so a run is at most as long as all steps times one more than the messages. */
  lemma InitialBound(sh: Shape, w: World)
    requires sh.Admissible() && Initial(sh, w) && AllRouted(sh, w.flights)
    ensures TotalBlocked(sh, w) == 0
  {
    SumBound(BlockedOf(sh, w.links, w.flights), 0);
  }

  /** Its whole route was crossed, in order. */
  ghost predicate CameAlong(sh: Shape, m: Msg, ports: seq<Port>, at: seq<SwitchRef>)
    requires sh.Admissible() && m.src < sh.nodes && m.dst < sh.nodes
  {
    if m.src == m.dst then ports == [] && at == []
    else
      var top := Meet(sh, m.src, m.dst);
      && ports == seq(2 * top + 2, (k: nat) requires k < 2 * top + 2 => RoutePort(sh, m.src, m.dst, top, k))
      && at == seq(2 * top + 1, (k: nat) requires k < 2 * top + 1 => RouteSwitch(sh, m.src, m.dst, top, k))
  }

  /** Its time is fully accounted for. */
  ghost predicate CameInTime(sh: Shape, cfg: Config, f: Flight)
    requires sh.Admissible() && cfg.Valid(sh) && f.msg.src < sh.nodes && f.msg.dst < sh.nodes
  {
    f.at == f.start + f.woken + f.waited
      + if f.msg.src == f.msg.dst then 0.0 else CutThroughTime(cfg, f.msg.size, Meet(sh, f.msg.src, f.msg.dst))
  }

  /** A delivered message. */
  ghost predicate Delivered(sh: Shape, cfg: Config, w: World, i: nat)
    requires sh.Admissible() && cfg.Valid(sh) && i < |w.flights|
  {
    var f := w.flights[i];
    && f.msg.src < sh.nodes && f.msg.dst < sh.nodes && f.msg.done
    && CameAlong(sh, f.msg, CrossedBy(w.log, i), HoppedBy(w.hops, i)) && CameInTime(sh, cfg, f)
  }

  lemma DoneIsDelivered(sh: Shape, cfg: Config, w: World, i: nat)
    requires sh.Admissible() && cfg.Valid(sh) && Sound(sh, cfg, w) && i < |w.flights| && w.flights[i].msg.done
    ensures Delivered(sh, cfg, w, i)
  {
    DoneInTime(sh, cfg, w, i);
    DoneAlong(sh, w, i);
  }

  lemma DoneInTime(sh: Shape, cfg: Config, w: World, i: nat)
    requires sh.Admissible() && cfg.Valid(sh) && AllRouted(sh, w.flights) && AllOnTime(sh, cfg, w)
    requires i < |w.flights| && w.flights[i].msg.done
    ensures CameInTime(sh, cfg, w.flights[i])
  {
    assert OnTime(sh, cfg, w.flights[i]);
    DeliveredOnTime(sh, cfg, w.flights[i]);
  }

  lemma DoneAlong(sh: Shape, w: World, i: nat)
    requires sh.Admissible() && AllRouted(sh, w.flights) && AllOnRoute(sh, w) && AllOnHops(sh, w)
    requires i < |w.flights| && w.flights[i].msg.done
    ensures CameAlong(sh, w.flights[i].msg, CrossedBy(w.log, i), HoppedBy(w.hops, i))
  {
    var m := w.flights[i].msg;
    assert OnRoute(sh, m, CrossedBy(w.log, i)) && OnHops(sh, m, HoppedBy(w.hops, i));
    WholeRoute(sh, m, CrossedBy(w.log, i), HoppedBy(w.hops, i));
  }

  lemma WholeRoute(sh: Shape, m: Msg, ports: seq<Port>, at: seq<SwitchRef>)
    requires sh.Admissible() && Routed(sh, m) && m.done && OnRoute(sh, m, ports) && OnHops(sh, m, at)
    ensures CameAlong(sh, m, ports, at)
  {
  }

  /**
   * Every run from a configured network: no error exit, bounded length, links used by one message at a time,
   * wake-up charges as the power automaton asks, no waiting without sharing, and, when nothing is left to call, every
   * message delivered.
   */
  lemma EveryRun(sh: Shape, cfg: Config, w0: World, picks: seq<nat>)
    requires sh.Admissible() && cfg.Valid(sh) && Initial(sh, w0) && IsRun(sh, cfg, w0, picks)
    ensures var w := After(sh, cfg, w0, picks);
      && AllRouted(sh, w0.flights)
      && !w.crashed
      && |picks| <= TotalLeft(sh, w0) * (|w0.flights| + 1)
      && Exclusive(w.log)
      && ChargesAreWaits(cfg, w.log)
      && AllLast(cfg, w)
      && SameJourneys(w.flights, w0.flights)
      && (forall i: nat | i < |w.flights| && Alone(sh, w0.flights, i) :: w.flights[i].waited == 0.0)
      && (forall i: nat | i < |w.flights| && w.flights[i].msg.done :: Delivered(sh, cfg, w, i))
      && ((forall k: nat | k < |w.flights| :: !MayFire(w, k)) ==>
            forall i: nat | i < |w.flights| :: Delivered(sh, cfg, w, i))
  {
    var w := After(sh, cfg, w0, picks);
    InitialSound(sh, cfg, w0);
    InitialBound(sh, w0);
    RunSound(sh, cfg, w0, picks);
    RunKeepsJourneys(sh, cfg, w0, picks);
    RunsAreSafeAndFinite(sh, cfg, w0, picks);
    forall i: nat | i < |w.flights| && Alone(sh, w0.flights, i) ensures w.flights[i].waited == 0.0 {
      SameAlone(sh, w0.flights, w.flights, i);
    }
    forall i: nat | i < |w.flights| && w.flights[i].msg.done ensures Delivered(sh, cfg, w, i) {
      DoneIsDelivered(sh, cfg, w, i);
    }
    if forall k: nat | k < |w.flights| :: !MayFire(w, k) {
      forall i: nat | i < |w.flights| ensures Delivered(sh, cfg, w, i) {
        if !w.flights[i].msg.done {
          SomeoneMayFire(w, i);
        }
      }
    }
  }
}
