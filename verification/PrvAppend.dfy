/** What one record adds to the output of a thread. */
module PrvAppend {
  import opened PrvThread

  function BurstUpTo(s: State, time: Time): seq<Out> {
    if s.lastBlockEnd < time then [Burst(Elapsed(s.lastBlockEnd, time))] else []
  }

  function BarrierOf(c: Setup, value: int): seq<Out> {
    if value == INIT_CALL && c.initBarrier then [InitBarrier] else []
  }

  function TakenBy(s: State, value: int): seq<Out> {
    if value == WAIT_CALL && !s.waitWithComm && s.inFlight != [] then [CollectiveWait(s.inFlight[0])] else []
  }

  function NoopOf(c: Setup, s: State, value: int): seq<Out> {
    if s.printed || BarrierOf(c, value) != [] then [] else [Noop]
  }

  /** A generic event outside of MPI blocks ends the burst. */
  predicate Breaks(s: State, time: Time, t: int) {
    (s.lastBlockEnd != time || (s.lastBlockEnd == 0 && time == 0)) && s.mpiStack == [] && !KeepsBurst(t)
  }

  function GenericAdds(s: State, time: Time, t: int, v: int): seq<Out> {
    if Breaks(s, time, t) then [Burst(Elapsed(s.lastBlockEnd, time)), UserEvent(t, v)] else [UserEvent(t, v)]
  }

  function MpiAdds(c: Setup, s: State, time: Time, t: int, v: int): seq<Out> {
    if v != 0 then BurstUpTo(s, time) + [BlockBegin(t, v)]
    else if s.mpiStack == [] then []
    else
      var value := s.mpiStack[|s.mpiStack| - 1].value;
      BarrierOf(c, value) + TakenBy(s, value) + NoopOf(c, s, value) + [BlockEnd(t)]
  }

  function UserAdds(s: State, time: Time, t: int, v: int): seq<Out> {
    if v != 0 then BurstUpTo(s, time) + [BlockBegin(t, v)]
    else if s.userStack == [] then []
    else BurstUpTo(s, time) + [BlockEnd(t)]
  }

  /** What becomes of a communication endpoint in the call that is open. */
  function ActionFor(c: Setup, s: State, r: Record): Action
    requires r.Comm?
  {
    if s.mpiStack == [] then Skip else ActionOf(c.callOf(s.mpiStack[|s.mpiStack| - 1].value), r.kind)
  }

  function CommAdds(c: Setup, s: State, r: Record): seq<Out>
    requires r.Comm?
  {
    match ActionFor(c, s, r)
    case Print(op, _) =>
      PseudoEvents(s, Partner(c, r), r) + [PointToPoint(op, Partner(c, r), r.size, r.tag, r.commId)]
    case _ => []
  }

  function Adds(c: Setup, s: State, r: Record): seq<Out> {
    if r.Comm? then CommAdds(c, s, r)
    else if IsPseudo(r.eventType) then []
    else if IsMpi(r.eventType) then MpiAdds(c, s, r.time, r.eventType, r.value)
    else if IsUser(r.eventType) then UserAdds(s, r.time, r.eventType, r.value)
    else GenericAdds(s, r.time, r.eventType, r.value)
  }

  function EndAdds(s: State): seq<Out> { if s.pending && 2 <= s.fields then [Collective(s.partial)] else [] }

  // ----- that this is what the translator does

  /** States that differ only in the collective that is being gathered. */
  predicate SameButGathering(s: State, s': State) {
    && s'.out == s.out && s'.mpiStack == s.mpiStack && s'.userStack == s.userStack
    && s'.lastBlockEnd == s.lastBlockEnd && s'.printed == s.printed && s'.waitWithComm == s.waitWithComm
    && s'.inFlight == s.inFlight
  }

  lemma FieldOnly(s: State, t: int, v: int)
    ensures SameButGathering(s, CollectField(s, t, v))
  {
  }

  lemma StartOnly(c: Setup, s: State, t: int, v: int)
    ensures SameButGathering(s, StartCollective(c, s, t, v))
  {
  }

  lemma GatheringOnly(c: Setup, s: State, t: int, v: int)
    ensures SameButGathering(s, WithCollective(c, s, t, v))
  {
    FieldOnly(s, t, v);
    StartOnly(c, CollectField(s, t, v), t, v);
  }

  lemma GenericAppends(s: State, time: Time, t: int, v: int)
    ensures GenericEvent(s, time, t, v).out == s.out + GenericAdds(s, time, t, v)
  {
    if Breaks(s, time, t) {
      BreakAppends(s, time, t, v);
    }
  }

  lemma BreakAppends(s: State, time: Time, t: int, v: int)
    requires Breaks(s, time, t)
    ensures GenericEvent(s, time, t, v).out == s.out + [Burst(Elapsed(s.lastBlockEnd, time)), UserEvent(t, v)]
  {
    var burst, event := Burst(Elapsed(s.lastBlockEnd, time)), UserEvent(t, v);
    assert s.out + [burst] + [event] == s.out + [burst, event];
  }

  lemma BarrierAppends(c: Setup, s: State, value: int)
    ensures var s' := AfterBarrier(c, s, value);
      && s'.out == s.out + BarrierOf(c, value) && s'.waitWithComm == s.waitWithComm && s'.inFlight == s.inFlight
      && s'.printed == (s.printed || BarrierOf(c, value) != [])
  {
  }

  lemma WaitAppends(s: State, value: int)
    ensures AfterWait(s, value).out == s.out + TakenBy(s, value) && AfterWait(s, value).printed == s.printed
  {
  }

  lemma NoopAppends(s: State)
    ensures AfterNoop(s).out == s.out + if s.printed then [] else [Noop]
  {
  }

  lemma ClosingAppends(c: Setup, s: State)
    requires s.mpiStack != []
    ensures var value := s.mpiStack[|s.mpiStack| - 1].value;
      BeforeEnd(c, s).out == s.out + (BarrierOf(c, value) + TakenBy(s, value) + NoopOf(c, s, value))
  {
    var value := s.mpiStack[|s.mpiStack| - 1].value;
    var s1 := AfterBarrier(c, s, value);
    BarrierAppends(c, s, value);
    WaitAppends(s1, value);
    NoopAppends(AfterWait(s1, value));
    Together(s.out, BarrierOf(c, value), TakenBy(s, value), NoopOf(c, s, value));
  }

  lemma Together(out: seq<Out>, a: seq<Out>, b: seq<Out>, d: seq<Out>)
    ensures out + a + b + d == out + (a + b + d)
  {
  }

  lemma MpiAppends(c: Setup, s: State, time: Time, t: int, v: int)
    ensures MpiEvent(c, s, time, t, v).out == s.out + MpiAdds(c, s, time, t, v)
  {
    if v != 0 {
      assert UpTo(s, time).out == s.out + BurstUpTo(s, time);
      Together(s.out, BurstUpTo(s, time), [BlockBegin(t, v)], []);
    } else if s.mpiStack != [] {
      EndAppends(c, s, time, t);
    }
  }

  lemma EndAppends(c: Setup, s: State, time: Time, t: int)
    requires s.mpiStack != []
    ensures CloseMpi(c, s, time, t).out == s.out + MpiAdds(c, s, time, t, 0)
  {
    var value := s.mpiStack[|s.mpiStack| - 1].value;
    var closing := BarrierOf(c, value) + TakenBy(s, value) + NoopOf(c, s, value);
    ClosingAppends(c, s);
    assert s.out + closing + [BlockEnd(t)] == s.out + (closing + [BlockEnd(t)]);
  }

  lemma UpToAppends(s: State, time: Time)
    ensures UpTo(s, time).out == s.out + BurstUpTo(s, time) && UpTo(s, time).userStack == s.userStack
  {
  }

  lemma UserOpens(s: State, time: Time, t: int, v: int)
    ensures OpenUser(s, time, t, v).out == s.out + [BlockBegin(t, v)]
    ensures s.userStack != [] ==> CloseUser(s, time, t).out == s.out + [BlockEnd(t)]
  {
  }

  lemma UserAppends(s: State, time: Time, t: int, v: int)
    ensures UserBlockEvent(s, time, t, v).out == s.out + UserAdds(s, time, t, v)
  {
    var s1, burst := UpTo(s, time), BurstUpTo(s, time);
    UpToAppends(s, time);
    UserOpens(s1, time, t, v);
    if v != 0 {
      assert UserAdds(s, time, t, v) == burst + [BlockBegin(t, v)];
      assert s.out + burst + [BlockBegin(t, v)] == s.out + (burst + [BlockBegin(t, v)]);
    } else if s.userStack != [] {
      assert UserAdds(s, time, t, v) == burst + [BlockEnd(t)];
      assert s.out + burst + [BlockEnd(t)] == s.out + (burst + [BlockEnd(t)]);
    }
  }

  lemma EventAppends(c: Setup, s: State, e: Record)
    requires e.Event?
    ensures OnEvent(c, s, e).out == s.out + Adds(c, s, e)
  {
    if !IsPseudo(e.eventType) {
      var s1 := WithCollective(c, s, e.eventType, e.value);
      GatheringOnly(c, s, e.eventType, e.value);
      if IsMpi(e.eventType) {
        MpiAppends(c, s1, e.time, e.eventType, e.value);
      } else if IsUser(e.eventType) {
        UserAppends(s1, e.time, e.eventType, e.value);
      } else {
        GenericAppends(s1, e.time, e.eventType, e.value);
      }
    }
  }

  lemma CommAppends(c: Setup, s: State, r: Record)
    requires r.Comm?
    ensures OnComm(c, s, r).out == s.out + CommAdds(c, s, r)
  {
    var action := ActionFor(c, s, r);
    if action.Print? {
      PrintAppends(c, s, c.callOf(s.mpiStack[|s.mpiStack| - 1].value), action.op, action.primitive, r);
    } else {
      QuietComm(c, s, r);
    }
  }

  lemma PrintAppends(c: Setup, s: State, call: Call, op: CommOp, primitive: bool, r: Record)
    requires r.Comm?
    ensures PrintComm(c, s, call, op, primitive, r).out
         == s.out + (PseudoEvents(s, Partner(c, r), r) + [PointToPoint(op, Partner(c, r), r.size, r.tag, r.commId)])
  {
  }

  lemma QuietComm(c: Setup, s: State, r: Record)
    requires r.Comm? && !ActionFor(c, s, r).Print?
    ensures OnComm(c, s, r).out == s.out
  {
    if s.mpiStack != [] {
      QuietAct(c, s, c.callOf(s.mpiStack[|s.mpiStack| - 1].value), r);
    }
  }

  lemma QuietAct(c: Setup, s: State, call: Call, r: Record)
    requires r.Comm? && !ActionOf(call, r.kind).Print?
    ensures Act(c, s, call, r).out == s.out
  {
    SkipOrWrong(c, s, call, r);
  }

  lemma SkipOrWrong(c: Setup, s: State, call: Call, r: Record)
    requires r.Comm? && !ActionOf(call, r.kind).Print?
    ensures Act(c, s, call, r) == s || Act(c, s, call, r) == s.(wrong := true)
  {
    match ActionOf(call, r.kind)
    case Skip =>
    case Wrong =>
  }

  /** Every record only adds to the output, and adds exactly this. */
  lemma RecordAppends(c: Setup, s: State, r: Record)
    ensures OnRecord(c, s, r).out == s.out + Adds(c, s, r)
  {
    if r.Event? {
      EventAppends(c, s, r);
    } else {
      CommAppends(c, s, r);
    }
  }

  lemma BatchEndAppends(s: State)
    ensures EndBatch(s).out == s.out + EndAdds(s)
  {
  }

  // ----- what one record does to the fields that decide about waits

  /** The open MPI calls after a record. */
  function StackAfter(stack: seq<Block>, r: Record): seq<Block> {
    if IsMpiBegin(r) then stack + [Block(r.eventType, r.value)]
    else if IsMpiEnd(r) && stack != [] then stack[..|stack| - 1]
    else stack
  }

  /** The flag of point-to-point waits after a record. */
  function WaitedAfter(c: Setup, s: State, r: Record): bool {
    if IsMpiBegin(r) then s.waitWithComm && r.value != WAIT_CALL
    else if r.Comm? && ActionFor(c, s, r).Print? then
      s.waitWithComm || c.callOf(s.mpiStack[|s.mpiStack| - 1].value).WaitCall?
    else s.waitWithComm
  }

  function InFlightAfter(s: State, r: Record): seq<GlobalOp> {
    if IsMpiEnd(r) && s.mpiStack != [] && TakenBy(s, s.mpiStack[|s.mpiStack| - 1].value) != [] then s.inFlight[1..]
    else s.inFlight
  }

  predicate SameWaiting(s: State, s': State) {
    s'.mpiStack == s.mpiStack && s'.waitWithComm == s.waitWithComm && s'.inFlight == s.inFlight
  }

  lemma UpToWaiting(s: State, time: Time)
    ensures SameWaiting(s, UpTo(s, time))
  {
  }

  lemma OpenWaiting(c: Setup, s: State, time: Time, t: int, v: int)
    requires v != 0
    ensures var s' := MpiEvent(c, s, time, t, v);
      && s'.mpiStack == s.mpiStack + [Block(t, v)] && s'.inFlight == s.inFlight
      && s'.waitWithComm == (s.waitWithComm && v != WAIT_CALL)
  {
    UpToWaiting(s, time);
  }

  lemma BarrierWaiting(c: Setup, s: State, value: int)
    ensures SameWaiting(s, AfterBarrier(c, s, value))
  {
  }

  lemma NoopWaiting(s: State)
    ensures SameWaiting(s, AfterNoop(s))
  {
  }

  lemma TakeWaiting(s: State, value: int)
    ensures var s' := AfterWait(s, value);
      && s'.mpiStack == s.mpiStack && s'.waitWithComm == s.waitWithComm
      && s'.inFlight == if TakenBy(s, value) != [] then s.inFlight[1..] else s.inFlight
  {
  }

  lemma CloseWaiting(c: Setup, s: State, time: Time, t: int)
    requires s.mpiStack != []
    ensures var s', value := CloseMpi(c, s, time, t), s.mpiStack[|s.mpiStack| - 1].value;
      && s'.mpiStack == s.mpiStack[..|s.mpiStack| - 1] && s'.waitWithComm == s.waitWithComm
      && s'.inFlight == if TakenBy(s, value) != [] then s.inFlight[1..] else s.inFlight
  {
    var value := s.mpiStack[|s.mpiStack| - 1].value;
    BarrierWaiting(c, s, value);
    TakeWaiting(AfterBarrier(c, s, value), value);
    NoopWaiting(AfterWait(AfterBarrier(c, s, value), value));
  }

  lemma UserWaiting(s: State, time: Time, t: int, v: int)
    ensures SameWaiting(s, UserBlockEvent(s, time, t, v))
  {
    UpToWaiting(s, time);
    if v != 0 {
      UserOpenWaiting(UpTo(s, time), time, t, v);
    } else if s.userStack != [] {
      UpToAppends(s, time);
      UserCloseWaiting(UpTo(s, time), time, t);
    }
  }

  lemma UserOpenWaiting(s: State, time: Time, t: int, v: int)
    ensures SameWaiting(s, OpenUser(s, time, t, v))
  {
  }

  lemma UserCloseWaiting(s: State, time: Time, t: int)
    requires s.userStack != []
    ensures SameWaiting(s, CloseUser(s, time, t))
  {
  }

  lemma GenericWaiting(s: State, time: Time, t: int, v: int)
    ensures SameWaiting(s, GenericEvent(s, time, t, v))
  {
  }

  lemma EventWaiting(c: Setup, s: State, e: Record)
    requires e.Event?
    ensures var s' := OnEvent(c, s, e);
      && s'.mpiStack == StackAfter(s.mpiStack, e) && s'.waitWithComm == WaitedAfter(c, s, e)
      && s'.inFlight == InFlightAfter(s, e)
  {
    if !IsPseudo(e.eventType) {
      var s1 := WithCollective(c, s, e.eventType, e.value);
      GatheringOnly(c, s, e.eventType, e.value);
      if IsMpi(e.eventType) {
        MpiWaiting(c, s1, e);
      } else if IsUser(e.eventType) {
        UserWaiting(s1, e.time, e.eventType, e.value);
      } else {
        GenericWaiting(s1, e.time, e.eventType, e.value);
      }
    }
  }

  lemma MpiWaiting(c: Setup, s: State, e: Record)
    requires e.Event? && IsMpi(e.eventType)
    ensures var s' := MpiEvent(c, s, e.time, e.eventType, e.value);
      && s'.mpiStack == StackAfter(s.mpiStack, e) && s'.waitWithComm == WaitedAfter(c, s, e)
      && s'.inFlight == InFlightAfter(s, e)
  {
    if e.value != 0 {
      OpenWaiting(c, s, e.time, e.eventType, e.value);
    } else if s.mpiStack != [] {
      CloseWaiting(c, s, e.time, e.eventType);
    }
  }

  lemma ActPrints(c: Setup, s: State, call: Call, r: Record, action: Action)
    requires r.Comm? && action == ActionOf(call, r.kind) && action.Print?
    ensures Act(c, s, call, r) == PrintComm(c, s, call, action.op, action.primitive, r)
  {
  }

  lemma ActWaiting(c: Setup, s: State, call: Call, r: Record, action: Action)
    requires r.Comm? && action == ActionOf(call, r.kind) && action.Print?
    ensures var s' := Act(c, s, call, r);
      s'.mpiStack == s.mpiStack && s'.inFlight == s.inFlight && s'.waitWithComm == (s.waitWithComm || call.WaitCall?)
  {
    ActPrints(c, s, call, r, action);
    PrintWaiting(c, s, call, action.op, action.primitive, r);
  }

  lemma QuietWaiting(c: Setup, s: State, call: Call, r: Record)
    requires r.Comm? && !ActionOf(call, r.kind).Print?
    ensures SameWaiting(s, Act(c, s, call, r))
  {
    SkipOrWrong(c, s, call, r);
  }

  lemma PrintWaiting(c: Setup, s: State, call: Call, op: CommOp, primitive: bool, r: Record)
    requires r.Comm?
    ensures var s' := PrintComm(c, s, call, op, primitive, r);
      s'.mpiStack == s.mpiStack && s'.inFlight == s.inFlight && s'.waitWithComm == (s.waitWithComm || call.WaitCall?)
  {
  }

  /** Stack, flag and collectives in flight after a record. */
  lemma RecordWaiting(c: Setup, s: State, r: Record)
    ensures var s' := OnRecord(c, s, r);
      && s'.mpiStack == StackAfter(s.mpiStack, r) && s'.waitWithComm == WaitedAfter(c, s, r)
      && s'.inFlight == InFlightAfter(s, r)
  {
    if r.Event? {
      EventWaiting(c, s, r);
    } else if s.mpiStack != [] {
      CommWaiting(c, s, r);
    }
  }

  lemma CommWaiting(c: Setup, s: State, r: Record)
    requires r.Comm? && s.mpiStack != []
    ensures var s' := OnComm(c, s, r);
      s'.mpiStack == s.mpiStack && s'.inFlight == s.inFlight && s'.waitWithComm == WaitedAfter(c, s, r)
  {
    var call, action := c.callOf(s.mpiStack[|s.mpiStack| - 1].value), ActionFor(c, s, r);
    if action.Print? {
      ActWaiting(c, s, call, r, action);
    } else {
      QuietWaiting(c, s, call, r);
    }
  }

  lemma BatchEndWaiting(s: State)
    ensures EndBatch(s).mpiStack == s.mpiStack && EndBatch(s).waitWithComm == s.waitWithComm
    ensures EndBatch(s).inFlight
         == s.inFlight + if s.pending && 2 <= s.fields && IsAsync(s.partial) then [s.partial] else []
  {
  }
}
