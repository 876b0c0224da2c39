/** The counters of sends and receives that have not met their other side yet, across all threads of a translation. */
module PrvPending {
  import opened Counting
  import opened PrvThread
  import opened PrvAppend
  import opened PrvEndpoints

  /** A point-to-point record written by thread `who` for a partner whose first thread is `partner`. */
  datatype Written = Written(who: nat, partner: nat, op: CommOp)

  datatype Pending = Pending(sends: seq<nat>, recvs: seq<nat>)

  predicate InRange(w: Written, threads: nat) { w.who < threads && w.partner < threads }

  /** A send takes back a receive that the partner has pending, or becomes pending itself; a receive likewise. */
  function Count(p: Pending, w: Written): (p': Pending)
    requires |p.sends| == |p.recvs| && InRange(w, |p.sends|)
    ensures |p'.sends| == |p.sends| && |p'.recvs| == |p.recvs|
  {
    if Sends(w.op) then
      if p.recvs[w.partner] == 0 then p.(sends := p.sends[w.who := p.sends[w.who] + 1])
      else p.(recvs := p.recvs[w.partner := p.recvs[w.partner] - 1])
    else if Receives(w.op) then
      if p.sends[w.partner] == 0 then p.(recvs := p.recvs[w.who := p.recvs[w.who] + 1])
      else p.(sends := p.sends[w.partner := p.sends[w.partner] - 1])
    else p
  }

  function Zeros(threads: nat): seq<nat> { seq(threads, _ => 0) }

  lemma {:induction false} SumOfZeros(n: nat)
    ensures Sum(Zeros(n)) == 0
  {
    if n != 0 {
      assert Zeros(n)[..n - 1] == Zeros(n - 1);
      SumOfZeros(n - 1);
    }
  }

  lemma CountMovesOne(p: Pending, w: Written)
    requires |p.sends| == |p.recvs| && InRange(w, |p.sends|)
    ensures Sum(Count(p, w).sends) - Sum(Count(p, w).recvs)
         == Sum(p.sends) - Sum(p.recvs) + (if Sends(w.op) then 1 else if Receives(w.op) then -1 else 0)
  {
    if Sends(w.op) {
      if p.recvs[w.partner] == 0 {
        SumUpdate(p.sends, w.who, p.sends[w.who] + 1);
      } else {
        SumUpdate(p.recvs, w.partner, p.recvs[w.partner] - 1);
      }
    } else if Receives(w.op) {
      if p.sends[w.partner] == 0 {
        SumUpdate(p.recvs, w.who, p.recvs[w.who] + 1);
      } else {
        SumUpdate(p.sends, w.partner, p.sends[w.partner] - 1);
      }
    }
  }

  // ----- the outputs of the threads

  function Side(op: CommOp): int { if Sends(op) then 1 else if Receives(op) then -1 else 0 }

  /** Sends less receives in an output. */
  function OutSurplus(out: seq<Out>): int { SendCount(PtpsOf(out)) - ReceiveCount(PtpsOf(out)) }

  /** How many point-to-point records an output holds. */
  function OutCount(out: seq<Out>): nat { |PtpsOf(out)| }

  /** The point-to-point record that a translator writes for a record, if any. */
  function Wrote(c: Setup, s: State, r: Record): Action { if r.Comm? then ActionFor(c, s, r) else Skip }

  lemma RecordSurplus(c: Setup, s: State, r: Record)
    ensures var s', action := OnRecord(c, s, r), Wrote(c, s, r);
      && OutSurplus(s'.out) == OutSurplus(s.out) + (if action.Print? then Side(action.op) else 0)
      && OutCount(s'.out) == OutCount(s.out) + (if action.Print? then 1 else 0)
  {
    RecordPtps(c, s, r);
    WroteIsFor(c, s, r);
    CountsMore(PtpsOf(s.out), PtpFor(c, s.mpiStack, r));
  }

  lemma WroteIsFor(c: Setup, s: State, r: Record)
    ensures var p, action := PtpFor(c, s.mpiStack, r), Wrote(c, s, r);
      && |p| == (if action.Print? then 1 else 0)
      && (p != [] ==> p[0].PointToPoint? && p[0].op == action.op && p[0].partner == Partner(c, r))
  {
  }

  // ----- all threads together

  /** The threads of a translation, and the counters they share. */
  datatype Threads = Threads(states: seq<State>, pending: Pending)

  /** A turn: thread `who` translates a record, or ends a batch. */
  datatype Turn = Translate(who: nat, rec: Record) | Finish(who: nat)

  /** The turn is for a thread that exists; what it writes is for a task that exists, whose first thread is known. */
  predicate Playable(setups: seq<Setup>, first: seq<nat>, ts: Threads, turn: Turn) {
    && |setups| == |ts.states| == |ts.pending.sends| == |ts.pending.recvs| && turn.who < |setups|
    && (turn.Translate? && Wrote(setups[turn.who], ts.states[turn.who], turn.rec).Print? ==>
          var partner := Partner(setups[turn.who], turn.rec);
          0 <= partner < |first| && first[partner] < |setups|)
  }

  function Play(setups: seq<Setup>, first: seq<nat>, ts: Threads, turn: Turn): Threads
    requires Playable(setups, first, ts, turn)
  {
    var c, s := setups[turn.who], ts.states[turn.who];
    match turn
    case Translate(who, r) =>
      var action := Wrote(c, s, r);
      Threads(ts.states[who := OnRecord(c, s, r)],
              if action.Print? then Count(ts.pending, Written(who, first[Partner(c, r)], action.op)) else ts.pending)
    case Finish(who) => ts.(states := ts.states[who := EndBatch(s)])
  }

  predicate IsInterleaving(setups: seq<Setup>, first: seq<nat>, ts: Threads, turns: seq<Turn>)
    decreases |turns|
  {
    turns == [] || (Playable(setups, first, ts, turns[0])
                    && IsInterleaving(setups, first, Play(setups, first, ts, turns[0]), turns[1..]))
  }

  function PlayAll(setups: seq<Setup>, first: seq<nat>, ts: Threads, turns: seq<Turn>): Threads
    requires IsInterleaving(setups, first, ts, turns)
    decreases |turns|
  {
    if turns == [] then ts else PlayAll(setups, first, Play(setups, first, ts, turns[0]), turns[1..])
  }

  /** Sends less receives in the outputs of all threads. */
  function AllSurplus(states: seq<State>): int {
    if states == [] then 0 else AllSurplus(states[..|states| - 1]) + OutSurplus(states[|states| - 1].out)
  }

  lemma {:induction false} AllSurplusUpdate(states: seq<State>, i: nat, s: State)
    requires i < |states|
    ensures AllSurplus(states[i := s]) == AllSurplus(states) - OutSurplus(states[i].out) + OutSurplus(s.out)
  {
    var n := |states| - 1;
    if i == n {
      assert states[i := s][..n] == states[..n];
    } else {
      assert states[i := s][..n] == states[..n][i := s];
      AllSurplusUpdate(states[..n], i, s);
    }
  }

  lemma PlayKeepsBalance(setups: seq<Setup>, first: seq<nat>, ts: Threads, turn: Turn)
    requires Playable(setups, first, ts, turn)
    ensures var ts' := Play(setups, first, ts, turn);
      Sum(ts'.pending.sends) - Sum(ts'.pending.recvs) - AllSurplus(ts'.states)
        == Sum(ts.pending.sends) - Sum(ts.pending.recvs) - AllSurplus(ts.states)
  {
    var c, s := setups[turn.who], ts.states[turn.who];
    match turn
    case Translate(who, r) =>
      RecordSurplus(c, s, r);
      AllSurplusUpdate(ts.states, who, OnRecord(c, s, r));
      var action := Wrote(c, s, r);
      if action.Print? {
        CountMovesOne(ts.pending, Written(who, first[Partner(c, r)], action.op));
      }
    case Finish(who) =>
      BatchEndPtps(s);
      AllSurplusUpdate(ts.states, who, EndBatch(s));
  }

  /**
   * However the threads of a translation take turns, the counters agree with their outputs: what is pending of sends
   * less what is pending of receives grows with the sends less the receives in all outputs.
   */
  lemma {:induction false} OutputsArePending(setups: seq<Setup>, first: seq<nat>, ts: Threads, turns: seq<Turn>)
    requires IsInterleaving(setups, first, ts, turns)
    ensures var ts' := PlayAll(setups, first, ts, turns);
      Sum(ts'.pending.sends) - Sum(ts'.pending.recvs) - AllSurplus(ts'.states)
        == Sum(ts.pending.sends) - Sum(ts.pending.recvs) - AllSurplus(ts.states)
    decreases |turns|
  {
    if turns != [] {
      PlayKeepsBalance(setups, first, ts, turns[0]);
      OutputsArePending(setups, first, Play(setups, first, ts, turns[0]), turns[1..]);
    }
  }

  /** New translators, and no send or receive pending. */
  predicate Fresh(setups: seq<Setup>, ts: Threads) {
    && |ts.states| == |setups| && ts.pending == Pending(Zeros(|setups|), Zeros(|setups|))
    && forall i :: 0 <= i < |setups| ==> OnlyFirstRecords(ts.states[i])
  }

  predicate OnlyFirstRecords(s: State) { forall r :: r in s.out ==> !r.PointToPoint? }

  lemma {:induction false} FreshSurplus(states: seq<State>)
    requires forall s :: s in states ==> OutSurplus(s.out) == 0
    ensures AllSurplus(states) == 0
  {
    if states != [] {
      FreshSurplus(states[..|states| - 1]);
    }
  }

  /** From the constructors on, pending sends less pending receives are the sends less the receives of all outputs. */
  lemma PendingIsAllSurplus(setups: seq<Setup>, first: seq<nat>, ts: Threads, turns: seq<Turn>)
    requires Fresh(setups, ts) && IsInterleaving(setups, first, ts, turns)
    ensures var ts' := PlayAll(setups, first, ts, turns);
      Sum(ts'.pending.sends) - Sum(ts'.pending.recvs) == AllSurplus(ts'.states)
  {
    forall s | s in ts.states ensures OutSurplus(s.out) == 0 {
      var i :| 0 <= i < |ts.states| && ts.states[i] == s;
      assert OnlyFirstRecords(ts.states[i]);
      NoPtps(s.out);
    }
    FreshSurplus(ts.states);
    SumOfZeros(|setups|);
    OutputsArePending(setups, first, ts, turns);
  }

  /** The point-to-point records in the outputs of all threads. */
  function AllCount(states: seq<State>): nat {
    if states == [] then 0 else AllCount(states[..|states| - 1]) + OutCount(states[|states| - 1].out)
  }

  lemma {:induction false} AllCountUpdate(states: seq<State>, i: nat, s: State)
    requires i < |states|
    ensures AllCount(states[i := s]) == AllCount(states) - OutCount(states[i].out) + OutCount(s.out)
  {
    var n := |states| - 1;
    if i == n {
      assert states[i := s][..n] == states[..n];
    } else {
      assert states[i := s][..n] == states[..n][i := s];
      AllCountUpdate(states[..n], i, s);
    }
  }

  /** No counter is above `bound`. */
  predicate Below(p: Pending, bound: nat) {
    && (forall i :: 0 <= i < |p.sends| ==> p.sends[i] <= bound)
    && (forall i :: 0 <= i < |p.recvs| ==> p.recvs[i] <= bound)
  }

  lemma CountBelow(p: Pending, w: Written, bound: nat)
    requires |p.sends| == |p.recvs| && InRange(w, |p.sends|) && Below(p, bound)
    ensures Below(Count(p, w), bound + 1)
  {
  }

  lemma PlayBelow(setups: seq<Setup>, first: seq<nat>, ts: Threads, turn: Turn)
    requires Playable(setups, first, ts, turn) && Below(ts.pending, AllCount(ts.states))
    ensures var ts' := Play(setups, first, ts, turn); Below(ts'.pending, AllCount(ts'.states))
  {
    var c, s := setups[turn.who], ts.states[turn.who];
    match turn
    case Translate(who, r) =>
      RecordSurplus(c, s, r);
      AllCountUpdate(ts.states, who, OnRecord(c, s, r));
      var action := Wrote(c, s, r);
      if action.Print? {
        CountBelow(ts.pending, Written(who, first[Partner(c, r)], action.op), AllCount(ts.states));
      }
    case Finish(who) =>
      BatchEndPtps(s);
      AllCountUpdate(ts.states, who, EndBatch(s));
  }

  lemma {:induction false} CountersStayBelow(setups: seq<Setup>, first: seq<nat>, ts: Threads, turns: seq<Turn>)
    requires IsInterleaving(setups, first, ts, turns) && Below(ts.pending, AllCount(ts.states))
    ensures var ts' := PlayAll(setups, first, ts, turns); Below(ts'.pending, AllCount(ts'.states))
    decreases |turns|
  {
    if turns != [] {
      PlayBelow(setups, first, ts, turns[0]);
      CountersStayBelow(setups, first, Play(setups, first, ts, turns[0]), turns[1..]);
    }
  }

  /**
   * After any interleaving no counter is above the number of point-to-point records in the outputs, so fewer than
   * 2^32 of them keep every counter in its 32 bits; and none is ever taken below zero.
   */
  lemma CountersFit(setups: seq<Setup>, first: seq<nat>, ts: Threads, turns: seq<Turn>)
    requires Fresh(setups, ts) && IsInterleaving(setups, first, ts, turns)
    ensures var ts' := PlayAll(setups, first, ts, turns); Below(ts'.pending, AllCount(ts'.states))
  {
    CountersStayBelow(setups, first, ts, turns);
  }

  // ----- whose counters

  predicate HasSide(p: Out) { p.PointToPoint? && (Sends(p.op) || Receives(p.op)) }

  /** All sends and receives among some records are for the task whose first thread is `to`. */
  predicate OnlyWith(ps: seq<Out>, first: seq<nat>, to: nat) {
    forall p :: p in ps && HasSide(p) && 0 <= p.partner < |first| ==> first[p.partner] == to
  }

  /** None of them is for the tasks of `a` and `b`. */
  predicate NeverWith(ps: seq<Out>, first: seq<nat>, a: nat, b: nat) {
    forall p :: p in ps && HasSide(p) && 0 <= p.partner < |first| ==> first[p.partner] != a && first[p.partner] != b
  }

  /** By the outputs, threads `a` and `b` have talked to each other only, and the others to neither of them. */
  predicate OnlyEachOther(first: seq<nat>, states: seq<State>, a: nat, b: nat) {
    && a < |states| && b < |states|
    && OnlyWith(PtpsOf(states[a].out), first, b) && OnlyWith(PtpsOf(states[b].out), first, a)
    && forall i :: 0 <= i < |states| && i != a && i != b ==> NeverWith(PtpsOf(states[i].out), first, a, b)
  }

  /** How far `x` exceeds `y`. */
  function Excess(x: nat, y: nat): nat { if y < x then x - y else 0 }

  /** What `a` has sent and `b` not received, or the other way round, and nothing else, is pending. */
  predicate ChannelPending(ts: Threads, a: nat, b: nat)
    requires a < |ts.states| && b < |ts.states| && |ts.states| == |ts.pending.sends| == |ts.pending.recvs|
  {
    var sent, received := SendCount(PtpsOf(ts.states[a].out)), ReceiveCount(PtpsOf(ts.states[b].out));
    ts.pending.sends[a] == Excess(sent, received) && ts.pending.recvs[b] == Excess(received, sent)
  }

  predicate BothPending(ts: Threads, a: nat, b: nat) {
    && a < |ts.states| && b < |ts.states| && |ts.states| == |ts.pending.sends| == |ts.pending.recvs|
    && ChannelPending(ts, a, b) && ChannelPending(ts, b, a)
  }

  /** Outputs only grow. */
  lemma PtpsGrow(setups: seq<Setup>, first: seq<nat>, ts: Threads, turn: Turn, i: nat)
    requires Playable(setups, first, ts, turn) && i < |ts.states|
    ensures PtpsOf(ts.states[i].out) <= PtpsOf(Play(setups, first, ts, turn).states[i].out)
  {
    match turn
    case Translate(who, r) => RecordPtps(setups[who], ts.states[who], r);
    case Finish(who) => BatchEndPtps(ts.states[who]);
  }

  lemma {:induction false} AllPtpsGrow(setups: seq<Setup>, first: seq<nat>, ts: Threads, turns: seq<Turn>, i: nat)
    requires IsInterleaving(setups, first, ts, turns) && i < |ts.states|
    ensures |PlayAll(setups, first, ts, turns).states| == |ts.states|
    ensures PtpsOf(ts.states[i].out) <= PtpsOf(PlayAll(setups, first, ts, turns).states[i].out)
    decreases |turns|
  {
    if turns != [] {
      PtpsGrow(setups, first, ts, turns[0], i);
      AllPtpsGrow(setups, first, Play(setups, first, ts, turns[0]), turns[1..], i);
    }
  }

  lemma StillEachOther(first: seq<nat>, states: seq<State>, states': seq<State>, a: nat, b: nat)
    requires OnlyEachOther(first, states', a, b) && |states| == |states'|
    requires forall i :: 0 <= i < |states| ==> PtpsOf(states[i].out) <= PtpsOf(states'[i].out)
    ensures OnlyEachOther(first, states, a, b)
  {
    forall i, p | 0 <= i < |states| && p in PtpsOf(states[i].out) ensures p in PtpsOf(states'[i].out) {
      InLonger(PtpsOf(states[i].out), PtpsOf(states'[i].out), p);
    }
  }

  lemma InLonger(ps: seq<Out>, qs: seq<Out>, p: Out)
    requires ps <= qs && p in ps
    ensures p in qs
  {
    var k :| 0 <= k < |ps| && ps[k] == p;
    assert qs[k] == p;
  }

  /** The record is one of `a` for `b`, or of `b` for `a`, or of another for another. */
  predicate OnChannel(w: Written, a: nat, b: nat) {
    && (w.who == a ==> w.partner == b) && (w.who == b ==> w.partner == a)
    && (w.who != a && w.who != b ==> w.partner != a && w.partner != b)
  }

  lemma CountOnChannel(p: Pending, w: Written, a: nat, b: nat, sent: nat, received: nat)
    requires |p.sends| == |p.recvs| && InRange(w, |p.sends|) && a < |p.sends| && b < |p.sends|
    requires Sends(w.op) || Receives(w.op) ==> OnChannel(w, a, b)
    requires p.sends[a] == Excess(sent, received) && p.recvs[b] == Excess(received, sent)
    ensures var sent' := sent + if w.who == a && Sends(w.op) then 1 else 0;
      var received' := received + if w.who == b && Receives(w.op) then 1 else 0;
      Count(p, w).sends[a] == Excess(sent', received') && Count(p, w).recvs[b] == Excess(received', sent')
  {
  }

  lemma WrittenOnChannel(first: seq<nat>, states: seq<State>, who: nat, p: Out, a: nat, b: nat)
    requires OnlyEachOther(first, states, a, b) && who < |states| && p in PtpsOf(states[who].out)
    requires p.PointToPoint? && 0 <= p.partner < |first|
    ensures HasSide(p) ==> OnChannel(Written(who, first[p.partner], p.op), a, b)
  {
  }

  /** What one printed record adds to the output of its thread. */
  lemma PrintedOne(c: Setup, s: State, r: Record)
    requires Wrote(c, s, r).Print?
    ensures var ps, ps', action := PtpsOf(s.out), PtpsOf(OnRecord(c, s, r).out), Wrote(c, s, r);
      && SendCount(ps') == SendCount(ps) + (if Sends(action.op) then 1 else 0)
      && ReceiveCount(ps') == ReceiveCount(ps) + (if Receives(action.op) then 1 else 0)
      && exists p :: p in ps' && p.PointToPoint? && p.op == action.op && p.partner == Partner(c, r)
  {
    var ps, p := PtpsOf(s.out), PtpFor(c, s.mpiStack, r);
    RecordPtps(c, s, r);
    WroteIsFor(c, s, r);
    CountsMore(ps, p);
    assert p[0] in ps + p;
  }

  /** Thread `who` has written `w`. */
  lemma OneMoreWritten(ts: Threads, w: Written, s: State, a: nat, b: nat)
    requires |ts.states| == |ts.pending.sends| == |ts.pending.recvs| && InRange(w, |ts.states|)
    requires a < |ts.states| && b < |ts.states| && ChannelPending(ts, a, b)
    requires Sends(w.op) || Receives(w.op) ==> OnChannel(w, a, b)
    requires SendCount(PtpsOf(s.out)) == SendCount(PtpsOf(ts.states[w.who].out)) + if Sends(w.op) then 1 else 0
    requires ReceiveCount(PtpsOf(s.out)) == ReceiveCount(PtpsOf(ts.states[w.who].out)) + if Receives(w.op) then 1 else 0
    ensures ChannelPending(Threads(ts.states[w.who := s], Count(ts.pending, w)), a, b)
  {
    CountOnChannel(ts.pending, w, a, b,
                   SendCount(PtpsOf(ts.states[a].out)), ReceiveCount(PtpsOf(ts.states[b].out)));
  }

  lemma PrintPending(setups: seq<Setup>, first: seq<nat>, ts: Threads, who: nat, r: Record, a: nat, b: nat)
    requires Playable(setups, first, ts, Translate(who, r)) && Wrote(setups[who], ts.states[who], r).Print?
    requires a < |ts.states| && b < |ts.states| && ChannelPending(ts, a, b)
    requires OnlyEachOther(first, Play(setups, first, ts, Translate(who, r)).states, a, b)
    ensures ChannelPending(Play(setups, first, ts, Translate(who, r)), a, b)
  {
    var c, s := setups[who], ts.states[who];
    var action, s' := Wrote(c, s, r), OnRecord(c, s, r);
    PrintedOne(c, s, r);
    var p :| p in PtpsOf(s'.out) && p.PointToPoint? && p.op == action.op && p.partner == Partner(c, r);
    WrittenOnChannel(first, ts.states[who := s'], who, p, a, b);
    OneMoreWritten(ts, Written(who, first[Partner(c, r)], action.op), s', a, b);
  }

  lemma QuietPending(setups: seq<Setup>, first: seq<nat>, ts: Threads, turn: Turn, a: nat, b: nat)
    requires Playable(setups, first, ts, turn) && a < |ts.states| && b < |ts.states| && ChannelPending(ts, a, b)
    requires turn.Translate? ==> !Wrote(setups[turn.who], ts.states[turn.who], turn.rec).Print?
    ensures ChannelPending(Play(setups, first, ts, turn), a, b)
  {
    var c, s := setups[turn.who], ts.states[turn.who];
    match turn
    case Translate(who, r) =>
      RecordPtps(c, s, r);
      WroteIsFor(c, s, r);
      assert PtpsOf(s.out) + [] == PtpsOf(s.out);
    case Finish(who) =>
      BatchEndPtps(s);
  }

  lemma PlayPending(setups: seq<Setup>, first: seq<nat>, ts: Threads, turn: Turn, a: nat, b: nat)
    requires Playable(setups, first, ts, turn) && BothPending(ts, a, b)
    requires OnlyEachOther(first, Play(setups, first, ts, turn).states, a, b)
    ensures BothPending(Play(setups, first, ts, turn), a, b)
  {
    if turn.Translate? && Wrote(setups[turn.who], ts.states[turn.who], turn.rec).Print? {
      PrintPending(setups, first, ts, turn.who, turn.rec, a, b);
      EitherOrder(first, Play(setups, first, ts, turn).states, a, b);
      PrintPending(setups, first, ts, turn.who, turn.rec, b, a);
    } else {
      QuietPending(setups, first, ts, turn, a, b);
      QuietPending(setups, first, ts, turn, b, a);
    }
  }

  lemma EitherOrder(first: seq<nat>, states: seq<State>, a: nat, b: nat)
    requires OnlyEachOther(first, states, a, b)
    ensures OnlyEachOther(first, states, b, a)
  {
    forall i | 0 <= i < |states| && i != a && i != b ensures NeverWith(PtpsOf(states[i].out), first, b, a) {
      assert NeverWith(PtpsOf(states[i].out), first, a, b);
    }
  }

  lemma {:induction false} ChannelsStayPending(setups: seq<Setup>, first: seq<nat>, ts: Threads, turns: seq<Turn>,
                                               a: nat, b: nat)
    requires IsInterleaving(setups, first, ts, turns) && BothPending(ts, a, b)
    requires OnlyEachOther(first, PlayAll(setups, first, ts, turns).states, a, b)
    ensures BothPending(PlayAll(setups, first, ts, turns), a, b)
    decreases |turns|
  {
    if turns != [] {
      var ts' := Play(setups, first, ts, turns[0]);
      forall i | 0 <= i < |ts'.states|
        ensures |PlayAll(setups, first, ts', turns[1..]).states| == |ts'.states|
        ensures PtpsOf(ts'.states[i].out) <= PtpsOf(PlayAll(setups, first, ts', turns[1..]).states[i].out)
      {
        AllPtpsGrow(setups, first, ts', turns[1..], i);
      }
      StillEachOther(first, ts'.states, PlayAll(setups, first, ts', turns[1..]).states, a, b);
      PlayPending(setups, first, ts, turns[0], a, b);
      ChannelsStayPending(setups, first, ts', turns[1..], a, b);
    }
  }

  /**
   * Two threads that talk to each other only, however all threads take turns: pending are exactly the sends of each
   * that the other has not received, or the receives that the other has not sent.  Matched traffic leaves nothing.
   */
  lemma PairLeavesExcess(setups: seq<Setup>, first: seq<nat>, ts: Threads, turns: seq<Turn>, a: nat, b: nat)
    requires Fresh(setups, ts) && IsInterleaving(setups, first, ts, turns)
    requires OnlyEachOther(first, PlayAll(setups, first, ts, turns).states, a, b)
    ensures var ts' := PlayAll(setups, first, ts, turns);
      var outA, outB := PtpsOf(ts'.states[a].out), PtpsOf(ts'.states[b].out);
      && |ts'.pending.sends| == |ts'.pending.recvs| == |ts'.states|
      && ts'.pending.sends[a] == Excess(SendCount(outA), ReceiveCount(outB))
      && ts'.pending.recvs[b] == Excess(ReceiveCount(outB), SendCount(outA))
      && ts'.pending.sends[b] == Excess(SendCount(outB), ReceiveCount(outA))
      && ts'.pending.recvs[a] == Excess(ReceiveCount(outA), SendCount(outB))
  {
    forall i | 0 <= i < |ts.states| ensures PtpsOf(ts.states[i].out) == [] {
      assert OnlyFirstRecords(ts.states[i]);
      NoPtps(ts.states[i].out);
    }
    SameThreads(setups, first, ts, turns);
    ChannelsStayPending(setups, first, ts, turns, a, b);
  }

  lemma {:induction false} SameThreads(setups: seq<Setup>, first: seq<nat>, ts: Threads, turns: seq<Turn>)
    requires IsInterleaving(setups, first, ts, turns)
    ensures |PlayAll(setups, first, ts, turns).states| == |ts.states|
    decreases |turns|
  {
    if turns != [] {
      SameThreads(setups, first, Play(setups, first, ts, turns[0]), turns[1..]);
    }
  }

  /** The counters of all threads. */
  class Counters {
    var sends: array<nat>
    var recvs: array<nat>

    ghost predicate Valid()
      reads this, sends, recvs
    {
      sends.Length == recvs.Length && sends != recvs
    }

    function Now(): Pending
      reads this, sends, recvs
    {
      Pending(sends[..], recvs[..])
    }

    constructor (threads: nat)
      ensures Valid() && fresh(sends) && fresh(recvs) && Now() == Pending(Zeros(threads), Zeros(threads))
    {
      sends := new nat[threads](_ => 0);
      recvs := new nat[threads](_ => 0);
      new;
      assert sends[..] == Zeros(threads) && recvs[..] == Zeros(threads);
    }

    method Update(w: Written)
      requires Valid() && InRange(w, sends.Length)
      modifies sends, recvs
      ensures Valid() && Now() == Count(old(Now()), w)
    {
      if Sends(w.op) {
        if recvs[w.partner] == 0 {
          sends[w.who] := sends[w.who] + 1;
        } else {
          recvs[w.partner] := recvs[w.partner] - 1;
        }
      } else if Receives(w.op) {
        if sends[w.partner] == 0 {
          recvs[w.who] := recvs[w.who] + 1;
        } else {
          sends[w.partner] := sends[w.partner] - 1;
        }
      }
    }
  }
}
