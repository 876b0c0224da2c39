/** The reservations of every run, replayed through the power automaton. */
module EeeEnergy {
  import opened EeeShape
  import opened EeeRouting
  import opened EeeRoutes
  import opened EeePower
  import opened EeeRuns
  import opened EeeHistory

  function TimesOf(cfg: Config, p: Port): PowerTimes
    requires p.addr.level < |cfg.powerDown| && p.addr.level < |cfg.sleep| && p.addr.level < |cfg.wake|
  {
    PowerTimes(cfg.powerDown[p.addr.level], cfg.sleep[p.addr.level], cfg.wake[p.addr.level])
  }

  /** An automaton state and the time at which it holds. */
  datatype Sample = Sample(state: Power, since: real)

  /** The automaton of one link direction after the reservations of a log, started with the configured link. */
  function Replay(t: PowerTimes, log: seq<Reservation>, p: Port): Sample {
    if log == [] then Sample(StateAt(t, Gate(0.0, -1.0), 0.0), 0.0)
    else
      var before, e := Replay(t, log[..|log| - 1], p), log[|log| - 1];
      if e.port != p then before else UsedFrom(t, before, e)
  }

  /** The automaton after a use. */
  function UsedFrom(t: PowerTimes, s: Sample, e: Reservation): Sample {
    Sample(Use(t, Elapse(t, s.state, e.start - s.since), e.until - e.start - e.wake), e.start)
  }

  /** The wake-up charge of a reservation made after `log` is the wait of the automaton at that moment. */
  predicate ChargeIsWait(cfg: Config, log: seq<Reservation>, e: Reservation)
    requires |cfg.powerDown| == |cfg.sleep| == |cfg.wake|
  {
    e.port.addr.level < |cfg.wake| &&
    var t := TimesOf(cfg, e.port);
    var s := Replay(t, log, e.port);
    e.wake == WaitFor(t, Elapse(t, s.state, e.start - s.since))
  }

  ghost predicate ChargesAreWaits(cfg: Config, log: seq<Reservation>)
    requires |cfg.powerDown| == |cfg.sleep| == |cfg.wake|
  {
    forall k :: 0 <= k < |log| ==> ChargeIsWait(cfg, log[..k], log[k])
  }

  /** The stamps of every direction stand for its replayed automaton. */
  ghost predicate Tracks(sh: Shape, cfg: Config, w: World)
    requires sh.Populated() && cfg.Fits(sh)
  {
    forall p: Port | p.addr in w.links && p.addr.level < sh.Levels() :: TracksPort(cfg, w, p)
  }

  ghost predicate TracksPort(cfg: Config, w: World, p: Port)
    requires p.addr in w.links && p.addr.level < |cfg.powerDown| == |cfg.sleep| == |cfg.wake|
  {
    var t, g := TimesOf(cfg, p), GateOf(w.links[p.addr], p.half);
    var s := Replay(t, w.log, p);
    0.0 <= s.since <= w.now && StandFor(t, g, s)
  }

  /** The stamps stand for an automaton state. */
  ghost predicate StandFor(t: PowerTimes, g: Gate, s: Sample) { Consistent(t, g) && StateAt(t, g, s.since) == s.state }

  lemma ReplayAppend(t: PowerTimes, log: seq<Reservation>, e: Reservation, p: Port)
    ensures Replay(t, log + [e], p) ==
      var before := Replay(t, log, p);
      if e.port != p then before else UsedFrom(t, before, e)
  {
    assert (log + [e])[..|log|] == log;
  }

  /** One reservation: the charge is the automaton's wait, and the new stamps stand for the used automaton. */
  lemma ReservationTracks(sh: Shape, cfg: Config, w: World, w': World, i: nat, mv: Move)
    requires sh.Admissible() && cfg.Valid(sh) && mv.Moved? && mv.event.Crossed? && w.now <= w'.now
    requires Reserves(sh, cfg, w.links, w'.now, mv) && w'.links == mv.links
    requires w'.log == w.log + [Reservation(i, mv.event.port, w'.now, mv.event.wake, mv.event.until)]
    requires mv.event.port.addr.level < sh.Levels() && TracksPort(cfg, w, mv.event.port)
    ensures TracksPort(cfg, w', mv.event.port)
    ensures ChargeIsWait(cfg, w.log, w'.log[|w.log|])
  {
    var p := mv.event.port;
    var e := Reservation(i, p, w'.now, mv.event.wake, mv.event.until);
    var t := TimesOf(cfg, p);
    UsedTracks(t, w.log, e, GateOf(w.links[p.addr], p.half));
    assert GateOf(w'.links[p.addr], p.half) == Gate(e.until, e.until + t.powerDown);
    assert w'.log[|w.log|] == e;
  }

  /** The replayed automaton after a reservation is the one that the new stamps stand for. */
  lemma UsedTracks(t: PowerTimes, log: seq<Reservation>, e: Reservation, g: Gate)
    requires t.Valid() && StandFor(t, g, Replay(t, log, e.port)) && g.free <= e.start && e.start + e.wake <= e.until
    requires 0.0 <= Replay(t, log, e.port).since <= e.start && e.wake == WakeDelay(t.sleep, t.wake, g.off, e.start)
    ensures StandFor(t, Gate(e.until, e.until + t.powerDown), Replay(t, log + [e], e.port))
    ensures Replay(t, log + [e], e.port).since == e.start
    ensures var s := Replay(t, log, e.port); e.wake == WaitFor(t, Elapse(t, s.state, e.start - s.since))
  {
    ReplayAppend(t, log, e, e.port);
    UsedSample(t, g, Replay(t, log, e.port), e);
  }

  lemma UsedSample(t: PowerTimes, g: Gate, s: Sample, e: Reservation)
    requires t.Valid() && StandFor(t, g, s) && g.free <= e.start && e.start + e.wake <= e.until
    requires 0.0 <= s.since <= e.start && e.wake == WakeDelay(t.sleep, t.wake, g.off, e.start)
    ensures StandFor(t, Gate(e.until, e.until + t.powerDown), UsedFrom(t, s, e))
    ensures e.wake == WaitFor(t, Elapse(t, s.state, e.start - s.since))
  {
    StampsTrackUsage(t, g, s, e.start, e.wake, e.until);
  }

  /** The same for the stamps and the automaton alone. */
  lemma StampsTrackUsage(t: PowerTimes, g: Gate, s: Sample, now: real, wake: real, until: real)
    requires t.Valid() && Consistent(t, g) && g.free <= now
    requires 0.0 <= s.since <= now && StateAt(t, g, s.since) == s.state
    requires wake == WakeDelay(t.sleep, t.wake, g.off, now) && now + wake <= until
    ensures wake == WaitFor(t, Elapse(t, s.state, now - s.since))
    ensures StateAt(t, Gate(until, until + t.powerDown), now)
         == Use(t, Elapse(t, s.state, now - s.since), until - now - wake)
    ensures Consistent(t, Gate(until, until + t.powerDown))
  {
    StampsTrackElapse(t, g, s.since, now);
    WakeDelayIsWait(t, g, now);
    StampsTrackUse(t, g, now, until - now - wake, until);
  }

  lemma FireTracks(sh: Shape, cfg: Config, w: World, i: nat)
    requires sh.Admissible() && cfg.Valid(sh) && Safe(sh, w) && MayFire(w, i)
    requires Tracks(sh, cfg, w) && ChargesAreWaits(cfg, w.log)
    ensures var w' := Fire(sh, cfg, w, i); Tracks(sh, cfg, w') && ChargesAreWaits(cfg, w'.log)
  {
    FireEffect(sh, cfg, w, i);
    var w', mv := Fire(sh, cfg, w, i), MoveOf(sh, cfg, w, i);
    if mv.event.Crossed? {
      CrossingTracks(sh, cfg, w, w', i, mv);
    } else {
      forall p: Port | p.addr in w'.links && p.addr.level < sh.Levels() ensures TracksPort(cfg, w', p) {
        assert TracksPort(cfg, w, p);
      }
    }
  }

  /** A direction that is not reserved keeps its stamps and its replayed automaton. */
  lemma OthersTrack(cfg: Config, w: World, w': World, p: Port, q: Port, e: Reservation, g: Gate)
    requires p.addr in w.links && p.addr.level < |cfg.powerDown| == |cfg.sleep| == |cfg.wake|
    requires TracksPort(cfg, w, p) && w.now <= w'.now
    requires p != q && q.addr in w.links && w'.links == w.links[q.addr := SetGate(w.links[q.addr], q.half, g)]
    requires w'.log == w.log + [e] && e.port == q
    ensures TracksPort(cfg, w', p)
  {
    ReplayAppend(TimesOf(cfg, p), w.log, e, p);
  }

  lemma ChargesAppend(cfg: Config, log: seq<Reservation>, e: Reservation)
    requires |cfg.powerDown| == |cfg.sleep| == |cfg.wake|
    requires ChargesAreWaits(cfg, log) && ChargeIsWait(cfg, log, e)
    ensures ChargesAreWaits(cfg, log + [e])
  {
    var log' := log + [e];
    forall k | 0 <= k < |log'| ensures ChargeIsWait(cfg, log'[..k], log'[k]) {
      assert log'[..k] == log[..k];
      if k == |log| {
        assert log[..k] == log;
      }
    }
  }

  lemma CrossingTracks(sh: Shape, cfg: Config, w: World, w': World, i: nat, mv: Move)
    requires sh.Admissible() && cfg.Valid(sh) && mv.Moved? && mv.event.Crossed? && w.now <= w'.now
    requires Reserves(sh, cfg, w.links, w'.now, mv) && w'.links == mv.links
    requires w'.log == w.log + [Reservation(i, mv.event.port, w'.now, mv.event.wake, mv.event.until)]
    requires Tracks(sh, cfg, w) && ChargesAreWaits(cfg, w.log)
    ensures Tracks(sh, cfg, w') && ChargesAreWaits(cfg, w'.log)
  {
    var q := mv.event.port;
    var e := Reservation(i, q, w'.now, mv.event.wake, mv.event.until);
    var g := Gate(e.until, e.until + cfg.powerDown[q.addr.level]);
    ReservationTracks(sh, cfg, w, w', i, mv);
    ChargesAppend(cfg, w.log, e);
    forall p: Port | p.addr in w'.links && p.addr.level < sh.Levels() ensures TracksPort(cfg, w', p) {
      if p != q {
        OthersTrack(cfg, w, w', p, q, e, g);
      }
    }
  }
}
