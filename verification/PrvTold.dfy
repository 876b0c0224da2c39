/** The bursts, blocks, events, communications and barriers of an output, told from the records alone. */
module PrvTold {
  import opened PrvThread
  import opened PrvAppend
  import opened PrvEndpoints
  import opened PrvQueue
  import opened Sequences

  predicate Tells(r: Out) {
    r.Burst? || r.BlockBegin? || r.BlockEnd? || r.UserEvent? || r.PointToPoint? || r.InitBarrier?
  }

  /** An output without collectives, waits for them, and no-operations. */
  function ToldOf(out: seq<Out>): seq<Out> {
    if out == [] then []
    else ToldOf(out[..|out| - 1]) + if Tells(out[|out| - 1]) then [out[|out| - 1]] else []
  }

  lemma ToldMore(out: seq<Out>, r: Out)
    ensures ToldOf(out + [r]) == ToldOf(out) + if Tells(r) then [r] else []
  {
    WithoutLast(out, r);
  }

  lemma {:induction false} ToldConcat(a: seq<Out>, b: seq<Out>)
    ensures ToldOf(a + b) == ToldOf(a) + ToldOf(b)
  {
    if b == [] {
      assert a + b == a;
    } else {
      var n := |b| - 1;
      ToldConcat(a, b[..n]);
      LastApart(a, b);
      ToldMore(a + b[..n], b[n]);
      ToldMore(b[..n], b[n]);
    }
  }

  lemma {:induction false} NothingTold(out: seq<Out>)
    requires forall r :: r in out ==> !Tells(r)
    ensures ToldOf(out) == []
  {
    if out != [] {
      assert out[|out| - 1] in out;
      NothingTold(out[..|out| - 1]);
    }
  }

  lemma {:induction false} AllTold(out: seq<Out>)
    requires forall r :: r in out ==> Tells(r)
    ensures ToldOf(out) == out
  {
    if out != [] {
      assert out[|out| - 1] in out;
      AllTold(out[..|out| - 1]);
      LastApart([], out);
    }
  }

  // ----- from the records

  /** A communication that came from pseudo events is written as such again: kind, partner, size, tag, communicator. */
  function EndpointEvents(c: Setup, r: Record): seq<Out>
    requires r.Comm?
  {
    [UserEvent(9, match r.kind
                  case LogicalSend => 0 case PhysicalSend => 1 case LogicalRecv => 2 case PhysicalRecv => 3),
     UserEvent(10, if c.simulated then r.partner else r.partner - 1),
     UserEvent(12, r.size), UserEvent(13, r.tag), UserEvent(14, r.commId)]
  }

  /** What has been told so far, and what decides about the next record. */
  datatype Log = Log(open: seq<Block>, users: nat, pseudo: nat, mark: Time, told: seq<Out>)

  /** The time since the last mark, modulo 2^64. */
  function Since(mark: Time, time: Time): seq<Out> { [Burst((time - mark) % TWO_TO_64)] }

  predicate IsMpiType(t: int) { 50000001 <= t <= 50000004 }

  predicate IsUserType(t: int) { 60000019 <= t <= 60000021 }

  /** Events outside of MPI calls that end the burst before them, unless it is empty and not the very first. */
  predicate EndsBurst(g: Log, time: Time, t: int) {
    g.open == [] && t != 40000003 && t != 50000300 && t != 50000301 && (g.mark != time || time == 0)
  }

  /** What a record is written as. */
  function ToldFor(c: Setup, g: Log, r: Record): seq<Out> {
    match r
    case Comm(_, _, _, _, _, _) =>
      var p := PtpFor(c, g.open, r);
      (if 0 < g.pseudo && p != [] then EndpointEvents(c, r) else []) + p
    case Event(time, t, v) =>
      var burst := if g.mark < time then Since(g.mark, time) else [];
      if 9 <= t <= 16 then []
      else if IsMpiType(t) then
        if v != 0 then burst + [BlockBegin(t, v)]
        else if g.open == [] then []
        else if g.open[|g.open| - 1].value == 31 && c.initBarrier then [InitBarrier, BlockEnd(t)]
        else [BlockEnd(t)]
      else if IsUserType(t) then
        if v != 0 then burst + [BlockBegin(t, v)] else if g.users == 0 then [] else burst + [BlockEnd(t)]
      else if EndsBurst(g, time, t) then Since(g.mark, time) + [UserEvent(t, v)]
      else [UserEvent(t, v)]
  }

  /** The end of a call, a user block and an event that ends a burst leave a mark. */
  function MarkAfter(g: Log, r: Record): Time {
    match r
    case Comm(_, _, _, _, _, _) => g.mark
    case Event(time, t, v) =>
      if 9 <= t <= 16 then g.mark
      else if IsMpiType(t) then if v == 0 && g.open != [] then time else g.mark
      else if IsUserType(t) then if v != 0 || g.users != 0 then time else g.mark
      else if EndsBurst(g, time, t) then time
      else g.mark
  }

  function UsersAfter(users: nat, r: Record): nat {
    if !r.Event? || !IsUserType(r.eventType) then users
    else if r.value != 0 then users + 1
    else if users == 0 then 0
    else users - 1
  }

  function PseudoAfter(c: Setup, open: seq<Block>, pseudo: nat, r: Record): nat {
    if r.Event? && 9 <= r.eventType <= 16 then pseudo + 1
    else if r.Comm? && PtpFor(c, open, r) != [] && 0 < pseudo then pseudo - 1
    else pseudo
  }

  function Enter(c: Setup, g: Log, r: Record): Log {
    Log(StackAfter(g.open, r), UsersAfter(g.users, r), PseudoAfter(c, g.open, g.pseudo, r), MarkAfter(g, r),
        g.told + ToldFor(c, g, r))
  }

  function EnterAll(c: Setup, g: Log, rs: seq<Record>): Log {
    if rs == [] then g else Enter(c, EnterAll(c, g, rs[..|rs| - 1]), rs[|rs| - 1])
  }

  // ----- what one record adds

  /** What decides about the next record. */
  function View(s: State): Log
    requires 0 <= s.pseudo
  {
    Log(s.mpiStack, |s.userStack|, s.pseudo, s.lastBlockEnd, [])
  }

  lemma CommTold(c: Setup, s: State, r: Record)
    requires r.Comm? && 0 <= s.pseudo
    ensures ToldOf(CommAdds(c, s, r)) == ToldFor(c, View(s), r)
  {
    AllTold(CommAdds(c, s, r));
    if ActionFor(c, s, r).Print? && s.pseudo == 0 {
      assert [] + PtpFor(c, s.mpiStack, r) == PtpFor(c, s.mpiStack, r);
    }
  }

  lemma SinceIsElapsed(mark: Time, time: Time)
    ensures Since(mark, time) == [Burst(Elapsed(mark, time))]
  {
    if mark <= time {
      assert (time - mark) % TWO_TO_64 == time - mark;
    } else {
      assert time - mark == -1 * TWO_TO_64 + (time - mark + TWO_TO_64);
    }
  }

  /** What an MPI event is written as, case by case. */
  lemma ToldForMpi(c: Setup, g: Log, e: Record)
    requires e.Event? && IsMpi(e.eventType)
    ensures ToldFor(c, g, e) ==
      if e.value != 0 then
        (if g.mark < e.time then Since(g.mark, e.time) else []) + [BlockBegin(e.eventType, e.value)]
      else if g.open == [] then []
      else
        (if g.open[|g.open| - 1].value == 31 && c.initBarrier then [InitBarrier] else []) + [BlockEnd(e.eventType)]
  {
  }

  lemma MpiTold(c: Setup, s: State, e: Record)
    requires e.Event? && IsMpi(e.eventType) && 0 <= s.pseudo
    ensures ToldOf(MpiAdds(c, s, e.time, e.eventType, e.value)) == ToldFor(c, View(s), e)
  {
    ToldForMpi(c, View(s), e);
    if e.value != 0 {
      BurstThen(s, e.time, BlockBegin(e.eventType, e.value));
      assert MpiAdds(c, s, e.time, e.eventType, e.value)
          == BurstUpTo(s, e.time) + [BlockBegin(e.eventType, e.value)];
    } else if s.mpiStack != [] {
      EndTold(c, s, e);
    } else {
      assert MpiAdds(c, s, e.time, e.eventType, 0) == [];
    }
  }

  lemma ToldQuietly(a: seq<Out>, b: seq<Out>)
    requires forall r :: r in b ==> !Tells(r)
    ensures ToldOf(a + b) == ToldOf(a)
  {
    NothingTold(b);
    ToldConcat(a, b);
  }

  lemma ClosingTold(barrier: seq<Out>, wait: seq<Out>, noop: seq<Out>, end: Out)
    requires (forall r :: r in barrier ==> Tells(r)) && Tells(end)
    requires (forall r :: r in wait ==> !Tells(r)) && (forall r :: r in noop ==> !Tells(r))
    ensures ToldOf(barrier + wait + noop + [end]) == barrier + [end]
  {
    AllTold(barrier);
    var told := barrier + wait;
    ToldQuietly(barrier, wait);
    ToldQuietly(told, noop);
    ToldMore(told + noop, end);
  }

  lemma EndTold(c: Setup, s: State, e: Record)
    requires e.Event? && s.mpiStack != [] && e.value == 0
    ensures ToldOf(MpiAdds(c, s, e.time, e.eventType, 0))
         == (if s.mpiStack[|s.mpiStack| - 1].value == 31 && c.initBarrier then [InitBarrier] else [])
            + [BlockEnd(e.eventType)]
  {
    var value := s.mpiStack[|s.mpiStack| - 1].value;
    ClosingTold(BarrierOf(c, value), TakenBy(s, value), NoopOf(c, s, value), BlockEnd(e.eventType));
  }

  lemma BurstThen(s: State, time: Time, r: Out)
    requires Tells(r)
    ensures ToldOf(BurstUpTo(s, time) + [r])
         == (if s.lastBlockEnd < time then Since(s.lastBlockEnd, time) else []) + [r]
  {
    SinceIsElapsed(s.lastBlockEnd, time);
    AllTold(BurstUpTo(s, time) + [r]);
  }

  /** What a user block event is written as, case by case. */
  lemma ToldForUser(c: Setup, g: Log, e: Record)
    requires e.Event? && IsUser(e.eventType)
    ensures var burst := if g.mark < e.time then Since(g.mark, e.time) else [];
      ToldFor(c, g, e) ==
        if e.value != 0 then burst + [BlockBegin(e.eventType, e.value)]
        else if g.users == 0 then []
        else burst + [BlockEnd(e.eventType)]
  {
  }

  lemma UserTold(c: Setup, s: State, e: Record)
    requires e.Event? && IsUser(e.eventType) && 0 <= s.pseudo
    ensures ToldOf(UserAdds(s, e.time, e.eventType, e.value)) == ToldFor(c, View(s), e)
  {
    ToldForUser(c, View(s), e);
    if e.value != 0 {
      BurstThen(s, e.time, BlockBegin(e.eventType, e.value));
    } else if s.userStack != [] {
      BurstThen(s, e.time, BlockEnd(e.eventType));
    }
  }

  /** What any other event is written as, case by case. */
  lemma ToldForGeneric(c: Setup, g: Log, e: Record)
    requires e.Event? && !IsPseudo(e.eventType) && !IsMpi(e.eventType) && !IsUser(e.eventType)
    ensures ToldFor(c, g, e) ==
      (if EndsBurst(g, e.time, e.eventType) then Since(g.mark, e.time) else []) + [UserEvent(e.eventType, e.value)]
  {
  }

  lemma GenericTold(c: Setup, s: State, e: Record)
    requires e.Event? && 0 <= s.pseudo && !IsPseudo(e.eventType) && !IsMpi(e.eventType) && !IsUser(e.eventType)
    ensures ToldOf(GenericAdds(s, e.time, e.eventType, e.value)) == ToldFor(c, View(s), e)
  {
    var event := UserEvent(e.eventType, e.value);
    ToldForGeneric(c, View(s), e);
    SinceIsElapsed(s.lastBlockEnd, e.time);
    if Breaks(s, e.time, e.eventType) {
      assert GenericAdds(s, e.time, e.eventType, e.value) == Since(s.lastBlockEnd, e.time) + [event];
      AllTold(Since(s.lastBlockEnd, e.time) + [event]);
    } else {
      assert GenericAdds(s, e.time, e.eventType, e.value) == [] + [event];
      AllTold([] + [event]);
    }
  }

  lemma AddsTold(c: Setup, s: State, r: Record)
    requires 0 <= s.pseudo
    ensures ToldOf(Adds(c, s, r)) == ToldFor(c, View(s), r)
  {
    if r.Comm? {
      CommTold(c, s, r);
    } else if IsPseudo(r.eventType) {
    } else if IsMpi(r.eventType) {
      MpiTold(c, s, r);
    } else if IsUser(r.eventType) {
      UserTold(c, s, r);
    } else {
      GenericTold(c, s, r);
    }
  }

  // ----- user blocks, pseudo events and last mark of the state

  /** User blocks, pseudo events and mark are the same. */
  predicate SameCounts(s: State, s': State) {
    s'.userStack == s.userStack && s'.pseudo == s.pseudo && s'.lastBlockEnd == s.lastBlockEnd
  }

  /** They are as a record leaves them. */
  predicate CountsAfter(c: Setup, s: State, r: Record, s': State)
    requires 0 <= s.pseudo
  {
    && |s'.userStack| == UsersAfter(|s.userStack|, r) && s'.pseudo == PseudoAfter(c, s.mpiStack, s.pseudo, r)
    && s'.lastBlockEnd == MarkAfter(View(s), r)
  }

  lemma UpToCounts(s: State, time: Time)
    ensures SameCounts(s, UpTo(s, time))
  {
  }

  lemma OpenCounts(c: Setup, s: State, time: Time, t: int, v: int)
    requires v != 0
    ensures SameCounts(s, MpiEvent(c, s, time, t, v))
  {
  }

  lemma ClosingCounts(c: Setup, s: State, value: int)
    ensures SameCounts(s, AfterNoop(AfterWait(AfterBarrier(c, s, value), value)))
  {
    BarrierCounts(c, s, value);
    WaitCounts(AfterBarrier(c, s, value), value);
    NoopCounts(AfterWait(AfterBarrier(c, s, value), value));
  }

  lemma BarrierCounts(c: Setup, s: State, value: int)
    ensures SameCounts(s, AfterBarrier(c, s, value))
  {
  }

  lemma WaitCounts(s: State, value: int)
    ensures SameCounts(s, AfterWait(s, value))
  {
  }

  lemma NoopCounts(s: State)
    ensures SameCounts(s, AfterNoop(s))
  {
  }

  lemma BeforeEndCounts(c: Setup, s: State)
    requires s.mpiStack != []
    ensures SameCounts(s, BeforeEnd(c, s)) && BeforeEnd(c, s).mpiStack == s.mpiStack
  {
    var value := s.mpiStack[|s.mpiStack| - 1].value;
    ClosingCounts(c, s, value);
    BarrierWaiting(c, s, value);
    TakeWaiting(AfterBarrier(c, s, value), value);
    NoopWaiting(AfterWait(AfterBarrier(c, s, value), value));
  }

  lemma PopCounts(s: State, time: Time, t: int)
    requires s.mpiStack != []
    ensures var s' := PopMpi(s, time, t);
      s'.userStack == s.userStack && s'.pseudo == s.pseudo && s'.lastBlockEnd == time
  {
  }

  lemma CloseKeeps(c: Setup, s: State, time: Time, t: int)
    requires s.mpiStack != []
    ensures var s' := CloseMpi(c, s, time, t);
      s'.userStack == s.userStack && s'.pseudo == s.pseudo && s'.lastBlockEnd == time
  {
    BeforeEndCounts(c, s);
    PopCounts(BeforeEnd(c, s), time, t);
  }

  lemma EndMark(c: Setup, s: State, e: Record)
    requires IsMpiEnd(e) && s.mpiStack != [] && 0 <= s.pseudo
    ensures MarkAfter(View(s), e) == e.time && UsersAfter(|s.userStack|, e) == |s.userStack|
    ensures PseudoAfter(c, s.mpiStack, s.pseudo, e) == s.pseudo
  {
  }

  lemma CloseCounts(c: Setup, s: State, e: Record)
    requires IsMpiEnd(e) && s.mpiStack != [] && 0 <= s.pseudo
    ensures CountsAfter(c, s, e, CloseMpi(c, s, e.time, e.eventType))
  {
    EndMark(c, s, e);
    CloseKeeps(c, s, e.time, e.eventType);
  }

  lemma MpiCounts(c: Setup, s: State, e: Record)
    requires e.Event? && IsMpi(e.eventType) && 0 <= s.pseudo
    ensures CountsAfter(c, s, e, MpiEvent(c, s, e.time, e.eventType, e.value))
  {
    if e.value != 0 {
      OpenCounts(c, s, e.time, e.eventType, e.value);
    } else if s.mpiStack != [] {
      CloseCounts(c, s, e);
    }
  }

  lemma GenericCounts(c: Setup, s: State, e: Record)
    requires e.Event? && 0 <= s.pseudo && !IsPseudo(e.eventType) && !IsMpi(e.eventType) && !IsUser(e.eventType)
    ensures CountsAfter(c, s, e, GenericEvent(s, e.time, e.eventType, e.value))
  {
    GenericMark(s, e);
    if Breaks(s, e.time, e.eventType) {
      BreakCounts(s, e.time, e.eventType, e.value);
    } else {
      KeepCounts(s, e.time, e.eventType, e.value);
    }
  }

  lemma GenericMark(s: State, e: Record)
    requires e.Event? && 0 <= s.pseudo && !IsPseudo(e.eventType) && !IsMpi(e.eventType) && !IsUser(e.eventType)
    ensures MarkAfter(View(s), e) == if Breaks(s, e.time, e.eventType) then e.time else s.lastBlockEnd
  {
  }

  lemma KeepCounts(s: State, time: Time, t: int, v: int)
    requires !Breaks(s, time, t)
    ensures SameCounts(s, GenericEvent(s, time, t, v))
  {
  }

  lemma BreakCounts(s: State, time: Time, t: int, v: int)
    requires Breaks(s, time, t)
    ensures var s' := GenericEvent(s, time, t, v);
      s'.userStack == s.userStack && s'.pseudo == s.pseudo && s'.lastBlockEnd == time
  {
  }

  lemma UserCounts(c: Setup, s: State, e: Record)
    requires e.Event? && IsUser(e.eventType) && 0 <= s.pseudo
    ensures CountsAfter(c, s, e, UserBlockEvent(s, e.time, e.eventType, e.value))
  {
    UpToCounts(s, e.time);
    if e.value != 0 {
      OpenUserCounts(UpTo(s, e.time), e.time, e.eventType, e.value);
    } else if s.userStack != [] {
      CloseUserCounts(UpTo(s, e.time), e.time, e.eventType);
    }
  }

  lemma OpenUserCounts(s: State, time: Time, t: int, v: int)
    ensures var s' := OpenUser(s, time, t, v);
      |s'.userStack| == |s.userStack| + 1 && s'.pseudo == s.pseudo && s'.lastBlockEnd == time
  {
  }

  lemma CloseUserCounts(s: State, time: Time, t: int)
    requires s.userStack != []
    ensures var s' := CloseUser(s, time, t);
      |s'.userStack| == |s.userStack| - 1 && s'.pseudo == s.pseudo && s'.lastBlockEnd == time
  {
  }

  lemma GatheringCounts(c: Setup, s: State, t: int, v: int)
    ensures SameCounts(s, WithCollective(c, s, t, v))
  {
    FieldCounts(s, t, v);
    StartCounts(c, CollectField(s, t, v), t, v);
  }

  lemma FieldCounts(s: State, t: int, v: int)
    ensures SameCounts(s, CollectField(s, t, v))
  {
  }

  lemma StartCounts(c: Setup, s: State, t: int, v: int)
    ensures SameCounts(s, StartCollective(c, s, t, v))
  {
  }

  lemma BlockCounts(c: Setup, s: State, e: Record)
    requires e.Event? && !IsPseudo(e.eventType) && 0 <= s.pseudo
    ensures CountsAfter(c, s, e, BlockOrGeneric(c, s, e.time, e.eventType, e.value))
  {
    if IsMpi(e.eventType) {
      MpiCounts(c, s, e);
    } else if IsUser(e.eventType) {
      UserCounts(c, s, e);
    } else {
      GenericCounts(c, s, e);
    }
  }

  lemma EventCounts(c: Setup, s: State, e: Record)
    requires e.Event? && 0 <= s.pseudo
    ensures CountsAfter(c, s, e, OnEvent(c, s, e))
  {
    if !IsPseudo(e.eventType) {
      GatheringCounts(c, s, e.eventType, e.value);
      GatheringOnly(c, s, e.eventType, e.value);
      BlockCounts(c, WithCollective(c, s, e.eventType, e.value), e);
    }
  }

  lemma PrintCounts(c: Setup, s: State, call: Call, op: CommOp, primitive: bool, r: Record)
    requires r.Comm?
    ensures var s' := PrintComm(c, s, call, op, primitive, r);
      && s'.userStack == s.userStack && s'.lastBlockEnd == s.lastBlockEnd
      && s'.pseudo == if 0 < s.pseudo then s.pseudo - 1 else s.pseudo
  {
  }

  lemma QuietCounts(c: Setup, s: State, call: Call, r: Record)
    requires r.Comm? && !ActionOf(call, r.kind).Print?
    ensures SameCounts(s, Act(c, s, call, r))
  {
    SkipOrWrong(c, s, call, r);
  }

  lemma PrintsFor(c: Setup, s: State, r: Record)
    requires r.Comm?
    ensures PtpFor(c, s.mpiStack, r) != [] <==> ActionFor(c, s, r).Print?
  {
  }

  lemma OnCommCounts(c: Setup, s: State, r: Record)
    requires r.Comm?
    ensures var s' := OnComm(c, s, r);
      && s'.userStack == s.userStack && s'.lastBlockEnd == s.lastBlockEnd
      && s'.pseudo == if ActionFor(c, s, r).Print? && 0 < s.pseudo then s.pseudo - 1 else s.pseudo
  {
    if s.mpiStack != [] {
      var call, action := c.callOf(s.mpiStack[|s.mpiStack| - 1].value), ActionFor(c, s, r);
      if action.Print? {
        ActPrints(c, s, call, r, action);
        PrintCounts(c, s, call, action.op, action.primitive, r);
      } else {
        QuietCounts(c, s, call, r);
      }
    }
  }

  lemma CommCounts(c: Setup, s: State, r: Record)
    requires r.Comm? && 0 <= s.pseudo
    ensures CountsAfter(c, s, r, OnComm(c, s, r))
  {
    PrintsFor(c, s, r);
    OnCommCounts(c, s, r);
  }

  // ----- every run

  /** The state has what the log has, and tells as much behind what it began with. */
  predicate Logged(s: State, g: Log, first: seq<Out>) {
    && s.mpiStack == g.open && |s.userStack| == g.users && s.pseudo == g.pseudo && s.lastBlockEnd == g.mark
    && ToldOf(s.out) == first + g.told
  }

  lemma RecordCounts(c: Setup, s: State, r: Record)
    requires 0 <= s.pseudo
    ensures CountsAfter(c, s, r, OnRecord(c, s, r))
  {
    if r.Event? {
      EventCounts(c, s, r);
    } else {
      CommCounts(c, s, r);
    }
  }

  lemma RecordTold(c: Setup, s: State, r: Record)
    requires 0 <= s.pseudo
    ensures ToldOf(OnRecord(c, s, r).out) == ToldOf(s.out) + ToldFor(c, View(s), r)
  {
    RecordAppends(c, s, r);
    ToldConcat(s.out, Adds(c, s, r));
    AddsTold(c, s, r);
  }

  /** What was told before does not matter. */
  lemma ToldIgnored(c: Setup, g: Log, r: Record)
    ensures ToldFor(c, g, r) == ToldFor(c, g.(told := []), r) && MarkAfter(g, r) == MarkAfter(g.(told := []), r)
  {
  }

  lemma StepLogged(s: State, s': State, g: Log, g': Log, first: seq<Out>, more: seq<Out>)
    requires Logged(s, g, first) && ToldOf(s'.out) == ToldOf(s.out) + more && g'.told == g.told + more
    requires s'.mpiStack == g'.open && |s'.userStack| == g'.users && s'.pseudo == g'.pseudo
    requires s'.lastBlockEnd == g'.mark
    ensures Logged(s', g', first)
  {
  }

  lemma RecordLogged(c: Setup, s: State, g: Log, first: seq<Out>, r: Record)
    requires Logged(s, g, first)
    ensures Logged(OnRecord(c, s, r), Enter(c, g, r), first)
  {
    assert View(s) == g.(told := []);
    ToldIgnored(c, g, r);
    RecordTold(c, s, r);
    RecordStack(c, s, r);
    RecordCounts(c, s, r);
    StepLogged(s, OnRecord(c, s, r), g, Enter(c, g, r), first, ToldFor(c, g, r));
  }

  lemma RecordStack(c: Setup, s: State, r: Record)
    ensures OnRecord(c, s, r).mpiStack == StackAfter(s.mpiStack, r)
  {
    RecordWaiting(c, s, r);
  }

  lemma {:induction false} RecordsLogged(c: Setup, s: State, g: Log, first: seq<Out>, rs: seq<Record>)
    requires Logged(s, g, first)
    ensures Logged(OnRecords(c, s, rs), EnterAll(c, g, rs), first)
  {
    if rs != [] {
      var n := |rs| - 1;
      RecordsLogged(c, s, g, first, rs[..n]);
      RecordLogged(c, OnRecords(c, s, rs[..n]), EnterAll(c, g, rs[..n]), first, rs[n]);
    }
  }

  lemma BatchEndLogged(s: State, g: Log, first: seq<Out>)
    requires Logged(s, g, first)
    ensures Logged(EndBatch(s), g, first)
  {
    BatchEndAppends(s);
    NothingTold(EndAdds(s));
    ToldConcat(s.out, EndAdds(s));
    BatchEndWaiting(s);
    BatchEndCounts(s);
  }

  lemma BatchEndCounts(s: State)
    ensures SameCounts(s, EndBatch(s))
  {
  }

  lemma EnterMore(c: Setup, g: Log, rs: seq<Record>, r: Record)
    ensures EnterAll(c, g, rs + [r]) == Enter(c, EnterAll(c, g, rs), r)
  {
    WithoutLast(rs, r);
  }

  lemma {:induction false} EnterConcat(c: Setup, g: Log, a: seq<Record>, b: seq<Record>)
    ensures EnterAll(c, g, a + b) == EnterAll(c, EnterAll(c, g, a), b)
  {
    if b == [] {
      assert a + b == a;
    } else {
      var n := |b| - 1;
      EnterConcat(c, g, a, b[..n]);
      LastApart(a, b);
      EnterMore(c, g, a + b[..n], b[n]);
      EnterMore(c, EnterAll(c, g, a), b[..n], b[n]);
    }
  }

  lemma {:induction false} BatchesLogged(c: Setup, s: State, g: Log, first: seq<Out>, batches: seq<seq<Record>>)
    requires Logged(s, g, first)
    ensures Logged(OnBatches(c, s, batches), EnterAll(c, g, Flat(batches)), first)
  {
    if batches != [] {
      var n := |batches| - 1;
      var s', g' := OnBatches(c, s, batches[..n]), EnterAll(c, g, Flat(batches[..n]));
      BatchesLogged(c, s, g, first, batches[..n]);
      RecordsLogged(c, s', g', first, batches[n]);
      BatchEndLogged(OnRecords(c, s', batches[n]), EnterAll(c, g', batches[n]), first);
      EnterConcat(c, g, Flat(batches[..n]), batches[n]);
    }
  }

  /** What the constructor tells: an empty burst on a first thread, and its time before the start if it begins idle. */
  function FirstTold(c: Setup, emptyTask: bool, firstIdle: bool, initialTime: Time): seq<Out> {
    if c.thread != 1 then []
    else if emptyTask || !firstIdle then [Burst(0)]
    else [Burst(0), BlockBegin(0, 1), Burst(initialTime), BlockEnd(0)]
  }

  /** Where the first burst begins. */
  function FirstMark(c: Setup, emptyTask: bool, firstIdle: bool, initialTime: Time): Time {
    if emptyTask || (firstIdle && c.thread != 1) then 0 else initialTime
  }

  /**
   * In every run the output without collectives, their waits and no-operations is what the records stand for, one
   * after the other: bursts over the time between marks, blocks and events with their own types and values, endpoints
   * in the call around them.
   */
  lemma OutputTold(c: Setup, emptyTask: bool, firstIdle: bool, initialTime: Time, batches: seq<seq<Record>>)
    ensures var mark := FirstMark(c, emptyTask, firstIdle, initialTime);
      ToldOf(OnBatches(c, NewState(c, emptyTask, firstIdle, initialTime), batches).out)
        == FirstTold(c, emptyTask, firstIdle, initialTime) + EnterAll(c, Log([], 0, 0, mark, []), Flat(batches)).told
  {
    var s, first := NewState(c, emptyTask, firstIdle, initialTime), FirstTold(c, emptyTask, firstIdle, initialTime);
    assert s.out == first;
    AllTold(s.out);
    assert first + [] == first;
    BatchesLogged(c, s, Log([], 0, 0, s.lastBlockEnd, []), first, batches);
  }

  /** After some batches the thread is in a block exactly if, by the records, an MPI call is open. */
  lemma InsideFollowsRecords(c: Setup, emptyTask: bool, firstIdle: bool, initialTime: Time, batches: seq<seq<Record>>)
    ensures InsideOf(c, NewState(c, emptyTask, firstIdle, initialTime))(batches) <==> OpenAfter(Flat(batches)) != []
  {
    NoPtps(FirstRecords(c, emptyTask, firstIdle, initialTime));
    BatchesWritten(c, NewState(c, emptyTask, firstIdle, initialTime), batches);
  }

  /** Each batch is its stretch, sorted by the sort for blocks exactly if an MPI call is open before it. */
  predicate SortedByCalls(sort: Sort, batches: seq<seq<Record>>, raws: seq<seq<Record>>) {
    && |raws| == |batches|
    && forall k :: 0 <= k < |raws| ==>
         batches[k] == if 1 < |raws[k]| then sort(OpenAfter(Flat(batches[..k])) != [], raws[k]) else raws[k]
  }

  lemma MadeByCalls(c: Setup, emptyTask: bool, firstIdle: bool, initialTime: Time, sort: Sort,
                    batches: seq<seq<Record>>, raws: seq<seq<Record>>)
    requires MadeOf(InsideOf(c, NewState(c, emptyTask, firstIdle, initialTime)), sort, batches, raws)
    ensures SortedByCalls(sort, batches, raws)
  {
    forall k | 0 <= k < |raws|
      ensures batches[k] == if 1 < |raws[k]| then sort(OpenAfter(Flat(batches[..k])) != [], raws[k]) else raws[k]
    {
      assert MadeOfOne(InsideOf(c, NewState(c, emptyTask, firstIdle, initialTime)), sort, batches, k, raws[k]);
      InsideFollowsRecords(c, emptyTask, firstIdle, initialTime, batches[..k]);
    }
  }

  /** The batches of a thread are stretches of what it was given, each through the sort for where the thread is. */
  lemma SortFollowsRecords(c: Setup, emptyTask: bool, firstIdle: bool, initialTime: Time, sort: Sort, rs: seq<Record>)
      returns (raws: seq<seq<Record>>)
    ensures var inside := InsideOf(c, NewState(c, emptyTask, firstIdle, initialTime));
      var q := Finished(inside, sort, rs);
      && SortedByCalls(sort, q.batches, raws)
      && Flat(raws) == Kept(inside, sort, rs) && (q.dropped == [] ==> Flat(raws) == rs)
  {
    var inside := InsideOf(c, NewState(c, emptyTask, firstIdle, initialTime));
    raws := BatchesAreSorted(inside, sort, rs);
    MadeByCalls(c, emptyTask, firstIdle, initialTime, sort, Finished(inside, sort, rs).batches, raws);
  }
}
