/**
 * The power behaviour of one link direction, as a timed automaton that knows nothing of the time stamps the
 * program keeps, and the proof that the time stamps track it.
 */
module EeePower {
  import opened EeeRouting

  /** Transmitting or waking; awake and idle; falling asleep; asleep.  `left` is the time left in the state. */
  datatype Power = Busy(left: real) | Idle(left: real) | FallingAsleep(left: real) | Asleep

  /** How long an idle link stays awake, takes to fall asleep and takes to wake up. */
  datatype PowerTimes = PowerTimes(powerDown: real, sleep: real, wake: real)
  {
    predicate Valid() { 0.0 <= powerDown && 0.0 <= sleep && 0.0 <= wake }
  }

  function Rank(p: Power): nat {
    match p case Busy(_) => 3 case Idle(_) => 2 case FallingAsleep(_) => 1 case Asleep => 0
  }

  /** The automaton left alone for some time. */
  function Elapse(t: PowerTimes, p: Power, dt: real): Power
    decreases Rank(p)
  {
    match p
    case Busy(left) => if dt < left then Busy(left - dt) else Elapse(t, Idle(t.powerDown), dt - left)
    case Idle(left) => if dt <= left then Idle(left - dt) else Elapse(t, FallingAsleep(t.sleep), dt - left)
    case FallingAsleep(left) => if dt < left then FallingAsleep(left - dt) else Asleep
    case Asleep => Asleep
  }

  /** Time before a link that is not busy can carry data: it must finish falling asleep before it can wake. */
  function WaitFor(t: PowerTimes, p: Power): real {
    match p
    case Busy(_) => 0.0
    case Idle(_) => 0.0
    case FallingAsleep(left) => left + t.wake
    case Asleep => t.wake
  }

  /** A link that is used for `work` is busy while it wakes up and while it transmits. */
  function Use(t: PowerTimes, p: Power, work: real): Power {
    Elapse(t, Busy(WaitFor(t, p) + work), 0.0)
  }

  /** The automaton has no memory beyond its state. */
  lemma {:induction false} ElapseAdditive(t: PowerTimes, p: Power, a: real, b: real)
    requires t.Valid() && 0.0 <= a && 0.0 <= b
    ensures Elapse(t, Elapse(t, p, a), b) == Elapse(t, p, a + b)
    decreases Rank(p)
  {
    match p
    case Busy(left) => if left <= a { ElapseAdditive(t, Idle(t.powerDown), a - left, b); }
                       assert a + b - left == a - left + b;
    case Idle(left) => if left < a { ElapseAdditive(t, FallingAsleep(t.sleep), a - left, b); }
                       assert a + b - left == a - left + b;
    case FallingAsleep(_) =>
    case Asleep =>
  }

  /** A direction's stamps are those of its last use, or the ones it was configured with. */
  predicate Consistent(t: PowerTimes, g: Gate) {
    g.off == g.free + t.powerDown || g == Gate(0.0, -1.0)
  }

  /** The automaton state that two time stamps stand for. */
  function StateAt(t: PowerTimes, g: Gate, now: real): Power {
    if now < g.free then Busy(g.free - now)
    else if now <= g.off then Idle(g.off - now)
    else if now - g.off < t.sleep then FallingAsleep(t.sleep - (now - g.off))
    else Asleep
  }

  /** The stamps follow the automaton as time passes. */
  lemma StampsTrackElapse(t: PowerTimes, g: Gate, now: real, later: real)
    requires t.Valid() && Consistent(t, g) && 0.0 <= now <= later
    ensures StateAt(t, g, later) == Elapse(t, StateAt(t, g, now), later - now)
  {
    if now < g.free {
      var d := later - now;
      var left := g.free - now;
      if left <= d {
        assert Elapse(t, Busy(left), d) == Elapse(t, Idle(t.powerDown), d - left);
        if t.powerDown < d - left {
          assert Elapse(t, Idle(t.powerDown), d - left) == Elapse(t, FallingAsleep(t.sleep), d - left - t.powerDown);
          assert later - g.off == d - left - t.powerDown;
        }
      }
    } else if now <= g.off {
      var left := g.off - now;
      if left < later - now {
        assert Elapse(t, Idle(left), later - now) == Elapse(t, FallingAsleep(t.sleep), later - now - left);
      }
    }
  }

  /** The extra delay the program charges is exactly what the automaton still needs. */
  lemma WakeDelayIsWait(t: PowerTimes, g: Gate, now: real)
    requires g.free <= now
    ensures WakeDelay(t.sleep, t.wake, g.off, now) == WaitFor(t, StateAt(t, g, now))
  {
  }

  /** The stamps the program writes stand for the used automaton. */
  lemma StampsTrackUse(t: PowerTimes, g: Gate, now: real, work: real, until: real)
    requires t.Valid() && 0.0 <= work && g.free <= now
    requires until == now + WakeDelay(t.sleep, t.wake, g.off, now) + work
    ensures StateAt(t, Gate(until, until + t.powerDown), now) == Use(t, StateAt(t, g, now), work)
    ensures Consistent(t, Gate(until, until + t.powerDown))
  {
    WakeDelayIsWait(t, g, now);
  }

  /** A link found off carries no data before it could have fallen asleep and woken up again. */
  lemma OffLinkStartsLate(t: PowerTimes, g: Gate, now: real)
    requires t.Valid() && g.free <= now && g.off < now
    ensures g.off + t.sleep + t.wake <= now + WakeDelay(t.sleep, t.wake, g.off, now)
    ensures now < g.off + t.sleep ==>
      now + WakeDelay(t.sleep, t.wake, g.off, now) == g.off + t.sleep + t.wake
  {
  }
}
