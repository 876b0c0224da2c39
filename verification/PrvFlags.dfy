/** What the flags of a translator report at the end: which kinds of records it has met. */
module PrvFlags {
  import opened PrvSplit
  import opened PrvThread
  import opened PrvAppend
  import opened PrvEndpoints
  import opened PrvQueue
  import opened Sequences

  /** A question about a record and the MPI calls that are open around it. */
  type Question = (seq<Block>, Record) -> bool

  /** Some record of those before `n` gives a yes. */
  predicate SomeRecord(rs: seq<Record>, ask: Question) {
    exists j :: 0 <= j < |rs| && AskedAt(rs, ask, j)
  }

  predicate AskedAt(rs: seq<Record>, ask: Question, j: nat)
    requires j < |rs|
  {
    ask(OpenAfter(rs[..j]), rs[j])
  }

  /** A communication outside of all calls. */
  function Outside(): Question { (open: seq<Block>, r: Record) => r.Comm? && open == [] }

  /** A communication that the call around it cannot have: a send where there is none, or a receive in a send. */
  function Misplaced(c: Setup): Question {
    (open: seq<Block>, r: Record) => r.Comm? && open != [] && CannotHave(c.callOf(open[|open| - 1].value), r.kind)
  }

  predicate CannotHave(call: Call, kind: Kind) {
    match call
    case RecvCall => IsSend(kind)
    case ImmediateRecvCall => IsSend(kind)
    case WaitCall => IsSend(kind)
    case WaitManyCall => IsSend(kind)
    case SendCall => kind.PhysicalSend? || kind.LogicalRecv?
    case ImmediateSendCall => kind.PhysicalSend? || kind.LogicalRecv?
    case ReadySendCall => kind.PhysicalSend? || kind.LogicalRecv?
    case SendRecvCall => false
    case StartCall => false
    case OtherCall => false
  }

  /** A message received while waiting for several. */
  function ReceivedAmongMany(c: Setup): Question {
    (open: seq<Block>, r: Record) =>
      r.Comm? && r.kind.PhysicalRecv? && open != [] && c.callOf(open[|open| - 1].value).WaitManyCall?
  }

  /** The end of call 31, with the option for a barrier there. */
  function EndsInit(c: Setup): Question {
    (open: seq<Block>, r: Record) => IsMpiEnd(r) && open != [] && open[|open| - 1].value == 31 && c.initBarrier
  }

  lemma SomeMore(rs: seq<Record>, r: Record, ask: Question)
    ensures SomeRecord(rs + [r], ask) <==> SomeRecord(rs, ask) || ask(OpenAfter(rs), r)
  {
    var all := rs + [r];
    WithoutLast(rs, r);
    forall j | 0 <= j < |rs| ensures AskedAt(all, ask, j) <==> AskedAt(rs, ask, j) {
      assert all[..j] == rs[..j];
    }
    assert AskedAt(all, ask, |rs|) <==> ask(OpenAfter(rs), r);
    if SomeRecord(rs, ask) {
      var j :| 0 <= j < |rs| && AskedAt(rs, ask, j);
      assert AskedAt(all, ask, j);
    }
  }

  // ----- one record

  predicate SameFlags(s: State, s': State) {
    && s'.outside == s.outside && s'.wrong == s.wrong && s'.nonDeterministic == s.nonDeterministic
    && s'.barrierWritten == s.barrierWritten
  }

  lemma UpToFlags(s: State, time: Time)
    ensures SameFlags(s, UpTo(s, time))
  {
  }

  lemma OpenMpiFlags(s: State, t: int, v: int)
    ensures SameFlags(s, OpenMpi(s, t, v))
  {
  }

  lemma BarrierFlags(c: Setup, s: State, value: int)
    ensures var s' := AfterBarrier(c, s, value);
      && s'.outside == s.outside && s'.wrong == s.wrong && s'.nonDeterministic == s.nonDeterministic
      && s'.barrierWritten == (s.barrierWritten || (value == 31 && c.initBarrier))
  {
  }

  lemma WaitFlags(s: State, value: int)
    ensures SameFlags(s, AfterWait(s, value))
  {
  }

  lemma NoopFlags(s: State)
    ensures SameFlags(s, AfterNoop(s))
  {
  }

  lemma UserFlags(s: State, time: Time, t: int, v: int)
    ensures SameFlags(s, UserBlockEvent(s, time, t, v))
  {
    UpToFlags(s, time);
    UpToAppends(s, time);
    if v != 0 {
      OpenUserFlags(UpTo(s, time), time, t, v);
    } else if s.userStack != [] {
      CloseUserFlags(UpTo(s, time), time, t);
    }
  }

  lemma OpenUserFlags(s: State, time: Time, t: int, v: int)
    ensures SameFlags(s, OpenUser(s, time, t, v))
  {
  }

  lemma CloseUserFlags(s: State, time: Time, t: int)
    requires s.userStack != []
    ensures SameFlags(s, CloseUser(s, time, t))
  {
  }

  lemma GenericFlags(s: State, time: Time, t: int, v: int)
    ensures SameFlags(s, GenericEvent(s, time, t, v))
  {
    if Breaks(s, time, t) {
      BreakFlags(s, time, t, v);
    }
  }

  lemma BreakFlags(s: State, time: Time, t: int, v: int)
    requires Breaks(s, time, t)
    ensures SameFlags(s, GenericEvent(s, time, t, v))
  {
  }

  lemma GatheringFlags(c: Setup, s: State, t: int, v: int)
    ensures SameFlags(s, WithCollective(c, s, t, v))
  {
    FieldFlags(s, t, v);
    StartFlags(c, CollectField(s, t, v), t, v);
  }

  lemma FieldFlags(s: State, t: int, v: int)
    ensures SameFlags(s, CollectField(s, t, v))
  {
  }

  lemma StartFlags(c: Setup, s: State, t: int, v: int)
    ensures SameFlags(s, StartCollective(c, s, t, v))
  {
  }

  /** All flags but that of the barrier. */
  predicate OnlyBarrier(s: State, s': State, barrier: bool) {
    && s'.outside == s.outside && s'.wrong == s.wrong && s'.nonDeterministic == s.nonDeterministic
    && s'.barrierWritten == (s.barrierWritten || barrier)
  }

  lemma CloseFlags(c: Setup, s: State, time: Time, t: int)
    requires s.mpiStack != []
    ensures OnlyBarrier(s, CloseMpi(c, s, time, t), s.mpiStack[|s.mpiStack| - 1].value == 31 && c.initBarrier)
  {
    var value := s.mpiStack[|s.mpiStack| - 1].value;
    BarrierFlags(c, s, value);
    WaitFlags(AfterBarrier(c, s, value), value);
    NoopFlags(AfterWait(AfterBarrier(c, s, value), value));
  }

  lemma BeginFlags(c: Setup, s: State, time: Time, t: int, v: int)
    requires v != 0
    ensures SameFlags(s, MpiEvent(c, s, time, t, v))
  {
    UpToFlags(s, time);
    OpenMpiFlags(UpTo(s, time), t, v);
  }

  lemma MpiFlags(c: Setup, s: State, e: Record)
    requires e.Event? && IsMpi(e.eventType)
    ensures OnlyBarrier(s, MpiEvent(c, s, e.time, e.eventType, e.value), EndsInit(c)(s.mpiStack, e))
  {
    if e.value != 0 {
      BeginFlags(c, s, e.time, e.eventType, e.value);
    } else if s.mpiStack != [] {
      CloseFlags(c, s, e.time, e.eventType);
    }
  }

  lemma EventFlags(c: Setup, s: State, e: Record)
    requires e.Event?
    ensures OnlyBarrier(s, OnEvent(c, s, e), EndsInit(c)(s.mpiStack, e))
  {
    if !IsPseudo(e.eventType) {
      var s1 := WithCollective(c, s, e.eventType, e.value);
      GatheringFlags(c, s, e.eventType, e.value);
      GatheringOnly(c, s, e.eventType, e.value);
      if IsMpi(e.eventType) {
        MpiFlags(c, s1, e);
      } else if IsUser(e.eventType) {
        UserFlags(s1, e.time, e.eventType, e.value);
      } else {
        GenericFlags(s1, e.time, e.eventType, e.value);
      }
    }
  }

  lemma PrintFlags(c: Setup, s: State, call: Call, op: CommOp, primitive: bool, r: Record)
    requires r.Comm?
    ensures var s' := PrintComm(c, s, call, op, primitive, r);
      && s'.outside == s.outside && s'.wrong == s.wrong && s'.barrierWritten == s.barrierWritten
      && s'.nonDeterministic == (s.nonDeterministic || call.WaitManyCall?)
  {
  }

  /** By the table of calls: which communications are wrong, and which are received while waiting for several. */
  lemma TableFlags(call: Call, kind: Kind)
    ensures ActionOf(call, kind).Wrong? <==> CannotHave(call, kind)
    ensures call.WaitManyCall? ==> (ActionOf(call, kind).Print? <==> kind.PhysicalRecv?)
  {
  }

  lemma QuietFlags(c: Setup, s: State, call: Call, r: Record)
    requires r.Comm? && !ActionOf(call, r.kind).Print?
    ensures var s' := Act(c, s, call, r);
      && s'.outside == s.outside && s'.barrierWritten == s.barrierWritten
      && s'.nonDeterministic == s.nonDeterministic && s'.wrong == (s.wrong || ActionOf(call, r.kind).Wrong?)
  {
    match ActionOf(call, r.kind)
    case Skip =>
    case Wrong =>
  }

  lemma ActFlags(c: Setup, s: State, call: Call, r: Record)
    requires r.Comm?
    ensures var s' := Act(c, s, call, r);
      && s'.outside == s.outside && s'.barrierWritten == s.barrierWritten
      && s'.wrong == (s.wrong || CannotHave(call, r.kind))
      && s'.nonDeterministic == (s.nonDeterministic || (call.WaitManyCall? && r.kind.PhysicalRecv?))
  {
    var action := ActionOf(call, r.kind);
    TableFlags(call, r.kind);
    if action.Print? {
      ActPrints(c, s, call, r, action);
      PrintFlags(c, s, call, action.op, action.primitive, r);
      WaitManyPrints(call, r.kind);
    } else {
      QuietFlags(c, s, call, r);
    }
  }

  lemma WaitManyPrints(call: Call, kind: Kind)
    requires ActionOf(call, kind).Print?
    ensures call.WaitManyCall? ==> kind.PhysicalRecv?
  {
  }

  lemma CommFlags(c: Setup, s: State, r: Record)
    requires r.Comm?
    ensures var s' := OnComm(c, s, r);
      && s'.outside == (s.outside || s.mpiStack == []) && s'.barrierWritten == s.barrierWritten
      && s'.wrong == (s.wrong || Misplaced(c)(s.mpiStack, r))
      && s'.nonDeterministic == (s.nonDeterministic || ReceivedAmongMany(c)(s.mpiStack, r))
  {
    if s.mpiStack != [] {
      ActFlags(c, s, c.callOf(s.mpiStack[|s.mpiStack| - 1].value), r);
    }
  }

  // ----- every run

  /** Each flag is up exactly if some record so far gave reason to. */
  predicate FlagsTell(c: Setup, s: State, rs: seq<Record>) {
    && s.outside == SomeRecord(rs, Outside()) && s.wrong == SomeRecord(rs, Misplaced(c))
    && s.nonDeterministic == SomeRecord(rs, ReceivedAmongMany(c))
    && s.barrierWritten == SomeRecord(rs, EndsInit(c))
  }

  lemma RecordFlags(c: Setup, s: State, before: seq<Record>, r: Record)
    requires FlagsTell(c, s, before) && s.mpiStack == OpenAfter(before)
    ensures FlagsTell(c, OnRecord(c, s, r), before + [r])
  {
    SomeMore(before, r, Outside());
    SomeMore(before, r, Misplaced(c));
    SomeMore(before, r, ReceivedAmongMany(c));
    SomeMore(before, r, EndsInit(c));
    if r.Event? {
      EventFlags(c, s, r);
    } else {
      CommFlags(c, s, r);
    }
  }

  lemma {:induction false} RecordsFlags(c: Setup, s: State, before: seq<Record>, rs: seq<Record>)
    requires FlagsTell(c, s, before) && AsWritten(c, s, before)
    ensures FlagsTell(c, OnRecords(c, s, rs), before + rs)
  {
    if rs == [] {
      assert before + rs == before;
    } else {
      var n := |rs| - 1;
      RecordsFlags(c, s, before, rs[..n]);
      RecordsWritten(c, s, before, rs[..n]);
      LastApart(before, rs);
      RecordFlags(c, OnRecords(c, s, rs[..n]), before + rs[..n], rs[n]);
    }
  }

  lemma BatchEndFlags(s: State)
    ensures SameFlags(s, EndBatch(s))
  {
  }

  lemma {:induction false} BatchesFlags(c: Setup, s: State, batches: seq<seq<Record>>)
    requires FlagsTell(c, s, []) && s.mpiStack == [] && PtpsOf(s.out) == []
    ensures FlagsTell(c, OnBatches(c, s, batches), Flat(batches))
  {
    if batches != [] {
      var n := |batches| - 1;
      var before := OnBatches(c, s, batches[..n]);
      BatchesFlags(c, s, batches[..n]);
      BatchesWritten(c, s, batches[..n]);
      RecordsFlags(c, before, Flat(batches[..n]), batches[n]);
      BatchEndFlags(OnRecords(c, before, batches[n]));
    }
  }

  /**
   * In every run the flags are up exactly if there was a communication outside of all calls, one that its call cannot
   * have, a message received while waiting for several, or an end of MPI_Init that got its barrier.
   */
  lemma FlagsIff(c: Setup, emptyTask: bool, firstIdle: bool, initialTime: Time, batches: seq<seq<Record>>)
    ensures var s, rs := OnBatches(c, NewState(c, emptyTask, firstIdle, initialTime), batches), Flat(batches);
      && (s.outside <==> SomeRecord(rs, Outside())) && (s.wrong <==> SomeRecord(rs, Misplaced(c)))
      && (s.nonDeterministic <==> SomeRecord(rs, ReceivedAmongMany(c)))
      && (s.barrierWritten <==> SomeRecord(rs, EndsInit(c)))
  {
    NoPtps(FirstRecords(c, emptyTask, firstIdle, initialTime));
    BatchesFlags(c, NewState(c, emptyTask, firstIdle, initialTime), batches);
  }
}
