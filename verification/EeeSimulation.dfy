/** The network with the program's own sizes and transfer times, and the event loop that drives its threads. */
module EeeSimulation {
  import opened EeeShape
  import opened EeeWiring
  import opened EeeRouting
  import opened EeeRuns
  import opened EeeTheorems

  /** Per-level latency and bandwidth of the configuration file; bandwidth 0 stands for infinite. */
  datatype Speeds = Speeds(latency: seq<real>, bandwidth: seq<real>)
  {
    predicate Valid() {
      |latency| == |bandwidth|
      && forall l :: 0 <= l < |latency| ==> 0.0 <= latency[l] && 0.0 <= bandwidth[l]
    }
  }

  /** eee_calc_nw_bw_lat: upward transfers divide the bandwidth by a thousand times more than downward ones. */
  function TransferTime(s: Speeds, d: Direction, l: nat, bytes: nat): real
    requires s.Valid()
  {
    if |s.latency| <= l || d.Unset? then 0.0
    else if s.bandwidth[l] == 0.0 then s.latency[l]
    else
      var rate := s.bandwidth[l] * 1048576.0 / (if d.Up? then 1000000000.0 else 1000000.0);
      s.latency[l] + (bytes as real) / rate
  }

  lemma QuotientNonNegative(a: real, b: real)
    requires 0.0 <= a && 0.0 < b
    ensures 0.0 <= a / b
  {
  }

  lemma TransferTimeNonNegative(s: Speeds, d: Direction, l: nat, bytes: nat)
    requires s.Valid()
    ensures 0.0 <= TransferTime(s, d, l, bytes)
  {
    if l < |s.latency| && !d.Unset? && s.bandwidth[l] != 0.0 {
      var rate := s.bandwidth[l] * 1048576.0 / (if d.Up? then 1000000000.0 else 1000000.0);
      QuotientNonNegative(bytes as real, rate);
    }
  }

  lemma QuotientTimes(a: real, b: real)
    requires 0.0 < b
    ensures a / b * b == a
  {
  }

  /** Infinite bandwidth leaves the latency; else what is on top of it is the size over the bandwidth. */
  lemma TransferTimeIsLatencyAndSize(s: Speeds, l: nat, bytes: nat)
    requires s.Valid() && l < |s.latency|
    ensures var up, down := TransferTime(s, Up, l, bytes), TransferTime(s, Down, l, bytes);
      if s.bandwidth[l] == 0.0 then up == down == s.latency[l]
      else
        && (up - s.latency[l]) * s.bandwidth[l] * 1048576.0 == bytes as real * 1000000000.0
        && (down - s.latency[l]) * s.bandwidth[l] * 1048576.0 == bytes as real * 1000000.0
  {
    if s.bandwidth[l] != 0.0 {
      var b := s.bandwidth[l] * 1048576.0;
      QuotientTimes(bytes as real, b / 1000000000.0);
      QuotientTimes(bytes as real, b / 1000000.0);
      TimesScaled(bytes as real / (b / 1000000000.0), s.bandwidth[l], 1000000000.0, bytes as real);
      TimesScaled(bytes as real / (b / 1000000.0), s.bandwidth[l], 1000000.0, bytes as real);
    }
  }

  lemma TimesScaled(x: real, bandwidth: real, scale: real, size: real)
    requires 0.0 < scale && x * (bandwidth * 1048576.0 / scale) == size
    ensures x * bandwidth * 1048576.0 == size * scale
  {
    var rate := bandwidth * 1048576.0 / scale;
    QuotientTimes(bandwidth * 1048576.0, scale);
    assert x * (rate * scale) == x * rate * scale;
    assert x * (bandwidth * 1048576.0) == x * bandwidth * 1048576.0;
  }

  function ConfigOf(s: Speeds, headerSize: nat, wake: seq<real>, sleep: seq<real>, powerDown: seq<real>,
                    hop: seq<real>): Config
    requires s.Valid()
  {
    Config(true, headerSize, wake, sleep, powerDown, hop,
           (d: Direction, l: nat, bytes: nat) => if s.Valid() then TransferTime(s, d, l, bytes) else 0.0)
  }

  lemma ConfigOfValid(s: Speeds, sh: Shape, headerSize: nat, wake: seq<real>, sleep: seq<real>,
                      powerDown: seq<real>, hop: seq<real>)
    requires s.Valid() && |wake| == |sleep| == |powerDown| == |hop| == sh.Levels()
    requires forall l :: 0 <= l < sh.Levels() ==>
      0.0 <= wake[l] && 0.0 <= sleep[l] && 0.0 <= powerDown[l] && 0.0 <= hop[l]
    ensures ConfigOf(s, headerSize, wake, sleep, powerDown, hop).Valid(sh)
  {
    var cfg := ConfigOf(s, headerSize, wake, sleep, powerDown, hop);
    forall d, l, n ensures 0.0 <= cfg.transfer(d, l, n) {
      TransferTimeNonNegative(s, d, l, n);
    }
  }

  lemma {:induction false} RunAppend(sh: Shape, cfg: Config, w: World, picks: seq<nat>, i: nat)
    requires sh.Sized() && cfg.Fits(sh) && IsRun(sh, cfg, w, picks)
    requires MayFire(After(sh, cfg, w, picks), i)
    ensures IsRun(sh, cfg, w, picks + [i])
    ensures After(sh, cfg, w, picks + [i]) == Fire(sh, cfg, After(sh, cfg, w, picks), i)
    decreases |picks|
  {
    var all := picks + [i];
    if picks == [] {
      assert all[1..] == [];
    } else {
      assert all[1..] == picks[1..] + [i];
      RunAppend(sh, cfg, Fire(sh, cfg, w, picks[0]), picks[1..], i);
    }
  }

  predicate Distinct(threads: seq<Thread>) { forall i, j :: 0 <= i < j < |threads| ==> threads[i] != threads[j] }

  /** The objects and the scheduled times show the world `w`. */
  ghost predicate Shows(threads: seq<Thread>, net: SwitchFabric, at: seq<real>, w: World)
    reads threads, net`links
  {
    && |threads| == |at| == |w.flights| && net.links == w.links
    && forall i :: 0 <= i < |threads| ==> threads[i].State() == w.flights[i].msg && at[i] == w.flights[i].at
  }

  /** What the event loop maintains of the model. */
  ghost predicate Reached(sh: Shape, cfg: Config, w0: World, picks: seq<nat>, w: World)
    requires sh.Admissible() && cfg.Valid(sh)
  {
    Safe(sh, w) && IsRun(sh, cfg, w0, picks) && w == After(sh, cfg, w0, picks)
  }

  /** The event queue: an earliest thread that is not done, if there is one. */
  method SelectEarliest(threads: seq<Thread>, net: SwitchFabric, cfg: Config, at: seq<real>,
                        ghost w0: World, ghost picks: seq<nat>, ghost w: World)
    returns (k: nat, found: bool)
    requires net.shape.Admissible() && cfg.Valid(net.shape)
    requires Reached(net.shape, cfg, w0, picks, w) && Shows(threads, net, at, w)
    ensures found ==> MayFire(w, k)
    ensures !found ==> AllDone(w)
  {
    k, found := 0, false;
    for j := 0 to |threads|
      invariant found ==> k < j && Pending(w, k)
      invariant found ==> forall x: nat | x < j && Pending(w, x) :: w.flights[k].at <= w.flights[x].at
      invariant !found ==> forall x: nat | x < j :: w.flights[x].msg.done
    {
      assert threads[j].State() == w.flights[j].msg;
      if !threads[j].done && (!found || at[j] < at[k]) {
        k, found := j, true;
      }
    }
  }

  lemma ReachedStep(sh: Shape, cfg: Config, w0: World, picks: seq<nat>, w: World, k: nat)
    requires sh.Admissible() && cfg.Valid(sh) && Reached(sh, cfg, w0, picks, w) && MayFire(w, k)
    ensures Safe(sh, w) && Reached(sh, cfg, w0, picks + [k], Fire(sh, cfg, w, k))
    ensures var w' := Fire(sh, cfg, w, k);
      TotalLeft(sh, w') < TotalLeft(sh, w)
      || (TotalLeft(sh, w') == TotalLeft(sh, w) && TotalBlocked(sh, w') < TotalBlocked(sh, w))
  {
    FireMeasure(sh, cfg, w, k);
    RunAppend(sh, cfg, w0, picks, k);
  }

  /** The end of the loop: nothing is pending, so everything has been delivered. */
  lemma ReachedEnd(sh: Shape, cfg: Config, w0: World, picks: seq<nat>)
    requires sh.Admissible() && cfg.Valid(sh) && IsRun(sh, cfg, w0, picks) && Sound(sh, cfg, w0)
    requires AllDone(After(sh, cfg, w0, picks))
    ensures AllDelivered(sh, cfg, w0, picks)
  {
    RunSound(sh, cfg, w0, picks);
    var w := After(sh, cfg, w0, picks);
    forall i: nat | i < |w.flights| ensures Delivered(sh, cfg, w, i) {
      DoneIsDelivered(sh, cfg, w, i);
    }
  }

  predicate AllDone(w: World) { forall j: nat | j < |w.flights| :: w.flights[j].msg.done }

  lemma ShownDone(threads: seq<Thread>, net: SwitchFabric, at: seq<real>, w: World)
    requires Shows(threads, net, at, w) && forall j: nat | j < |threads| :: threads[j].done
    ensures AllDone(w)
  {
    forall j: nat | j < |w.flights| ensures w.flights[j].msg.done {
      assert threads[j].State() == w.flights[j].msg;
    }
  }

  ghost predicate AllDelivered(sh: Shape, cfg: Config, w0: World, picks: seq<nat>)
    requires sh.Admissible() && cfg.Valid(sh) && IsRun(sh, cfg, w0, picks)
  {
    var w := After(sh, cfg, w0, picks);
    forall i: nat | i < |w.flights| :: Delivered(sh, cfg, w, i)
  }

  /** One turn of the event loop: call the selected thread and schedule it after the delay it returns. */
  method CallThread(threads: seq<Thread>, net: SwitchFabric, cfg: Config, at: seq<real>, k: nat, ghost w: World)
    returns (at': seq<real>)
    requires net.shape.Admissible() && cfg.Valid(net.shape) && net.Counted()
    requires Distinct(threads)
    requires Safe(net.shape, w) && Shows(threads, net, at, w) && MayFire(w, k)
    modifies threads, net`links
    ensures net.Counted() && Shows(threads, net, at', Fire(net.shape, cfg, w, k))
  {
    FireFollowsRoute(net.shape, cfg, w, k);
    var r := threads[k].EeeNetwork(net, cfg, at[k]);
    at' := at[k := at[k] + r.time];
  }

  /** One turn of the event loop, as a step of a run. */
  method Turn(threads: seq<Thread>, net: SwitchFabric, cfg: Config, at: seq<real>, k: nat,
              ghost w0: World, ghost picks: seq<nat>, ghost w: World)
    returns (at': seq<real>, ghost picks': seq<nat>, ghost w': World)
    requires net.shape.Admissible() && cfg.Valid(net.shape) && net.Counted() && Distinct(threads)
    requires Reached(net.shape, cfg, w0, picks, w) && Shows(threads, net, at, w) && MayFire(w, k)
    modifies threads, net`links
    ensures net.Counted()
    ensures Reached(net.shape, cfg, w0, picks', w') && Shows(threads, net, at', w') && picks' == picks + [k]
    ensures var sh := net.shape;
      TotalLeft(sh, w') < TotalLeft(sh, w)
      || (TotalLeft(sh, w') == TotalLeft(sh, w) && TotalBlocked(sh, w') < TotalBlocked(sh, w))
  {
    ReachedStep(net.shape, cfg, w0, picks, w, k);
    at' := CallThread(threads, net, cfg, at, k, w);
    picks', w' := picks + [k], Fire(net.shape, cfg, w, k);
  }

  /** The event loop proper, entered in any world a run can reach. */
  method EventLoop(threads: seq<Thread>, net: SwitchFabric, cfg: Config, starts: seq<real>, ghost w0: World)
    returns (ends: seq<real>, ghost picks: seq<nat>)
    requires net.shape.Admissible() && cfg.Valid(net.shape) && net.Counted() && Distinct(threads)
    requires Reached(net.shape, cfg, w0, [], w0) && Shows(threads, net, starts, w0)
    modifies threads, net`links
    ensures IsRun(net.shape, cfg, w0, picks)
    ensures Shows(threads, net, ends, After(net.shape, cfg, w0, picks))
    ensures forall j: nat | j < |threads| :: threads[j].done
  {
    ends, picks := starts, [];
    ghost var w := w0;
    var more := true;
    while more
      invariant net.Counted() && Reached(net.shape, cfg, w0, picks, w) && Shows(threads, net, ends, w)
      invariant !more ==> AllDone(w)
      decreases more, TotalLeft(net.shape, w), TotalBlocked(net.shape, w)
    {
      var k;
      k, more := SelectEarliest(threads, net, cfg, ends, w0, picks, w);
      if more {
        ends, picks, w := Turn(threads, net, cfg, ends, k, w0, picks, w);
      }
    }
    forall j: nat | j < |threads| ensures threads[j].done {
      assert threads[j].State() == w.flights[j].msg;
    }
  }

  /** Call threads in time order until all are done; the objects end as some complete run of the model does. */
  method RunToCompletion(threads: seq<Thread>, net: SwitchFabric, cfg: Config, starts: seq<real>, ghost w0: World)
    returns (ends: seq<real>, ghost picks: seq<nat>)
    requires net.shape.Admissible() && cfg.Valid(net.shape) && net.Counted() && Distinct(threads)
    requires Initial(net.shape, w0) && Shows(threads, net, starts, w0)
    modifies threads, net`links
    ensures IsRun(net.shape, cfg, w0, picks)
    ensures Shows(threads, net, ends, After(net.shape, cfg, w0, picks))
    ensures AllDelivered(net.shape, cfg, w0, picks)
  {
    InitialSound(net.shape, cfg, w0);
    ends, picks := EventLoop(threads, net, cfg, starts, w0);
    ShownDone(threads, net, ends, After(net.shape, cfg, w0, picks));
    ReachedEnd(net.shape, cfg, w0, picks);
  }

  // ----- the program's own network

  /** A message that has not set out. */
  predicate Unsent(m: Msg, nodes: nat) {
    m.src < nodes && m.dst < nodes && m.level == -1 && !m.linkDone && !m.done
  }

  /** The messages, each starting at its time, in a configured network. */
  function StartWorld(links: map<LinkAddr, Link>, messages: seq<Msg>, starts: seq<real>): World
    requires |messages| == |starts|
  {
    World(0.0, seq(|messages|, (i: nat) requires i < |messages| => Flight(messages[i], starts[i], starts[i], 0.0, 0.0)),
          links, [], [], false)
  }

  /** An object for each message. */
  method CreateThreads(messages: seq<Msg>) returns (threads: seq<Thread>)
    ensures |threads| == |messages| && Distinct(threads)
    ensures forall i :: 0 <= i < |threads| ==> fresh(threads[i]) && threads[i].State() == messages[i]
  {
    threads := [];
    for n := 0 to |messages|
      invariant |threads| == n && Distinct(threads)
      invariant forall i :: 0 <= i < n ==> fresh(threads[i]) && threads[i].State() == messages[i]
    {
      var t := new Thread(messages[n]);
      threads := threads + [t];
    }
  }

  /**
   * The program as it is configured: level sizes a quarter of the nodes, 4 and 2, transfer times from latency and
   * bandwidth.  For every positive multiple of 16 nodes, all messages are delivered.
   */
  method Simulate(nodes: nat, messages: seq<Msg>, starts: seq<real>, s: Speeds, headerSize: nat, wake: seq<real>,
                  sleep: seq<real>, powerDown: seq<real>, hop: seq<real>)
    returns (threads: seq<Thread>, net: SwitchFabric, ends: seq<real>, ghost w0: World, ghost picks: seq<nat>)
    requires 0 < nodes && nodes % 16 == 0 && s.Valid()
    requires |wake| == |sleep| == |powerDown| == |hop| == 3
    requires forall l :: 0 <= l < 3 ==> 0.0 <= wake[l] && 0.0 <= sleep[l] && 0.0 <= powerDown[l] && 0.0 <= hop[l]
    requires |messages| == |starts|
    requires forall i :: 0 <= i < |messages| ==> Unsent(messages[i], nodes) && 0.0 <= starts[i]
    ensures net.shape == CodeShape(nodes) && net.shape.Admissible()
    ensures Initial(net.shape, w0) && w0 == StartWorld(w0.links, messages, starts)
    ensures var cfg := ConfigOf(s, headerSize, wake, sleep, powerDown, hop);
      && cfg.Valid(net.shape) && IsRun(net.shape, cfg, w0, picks)
      && Shows(threads, net, ends, After(net.shape, cfg, w0, picks)) && AllDelivered(net.shape, cfg, w0, picks)
  {
    CodeShapeAdmissible(nodes);
    net := new SwitchFabric(nodes, [nodes / 4, 4, 2]);
    var ok := net.Configure();
    threads := CreateThreads(messages);
    var cfg := ConfigOf(s, headerSize, wake, sleep, powerDown, hop);
    ConfigOfValid(s, net.shape, headerSize, wake, sleep, powerDown, hop);
    w0 := StartWorld(net.links, messages, starts);
    ends, picks := RunToCompletion(threads, net, cfg, starts, w0);
  }
}
