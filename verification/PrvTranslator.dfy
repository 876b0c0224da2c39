/**
 * The translator of one thread as it is: fields that every record updates in place, and an output file it appends to.
 * Each method is tied to the function of `PrvThread` or `PrvQueue` that says what it does.
 */
module PrvTranslator {
  import opened PrvThread
  import opened PrvQueue
  import opened PrvThreadLaws

  class Translator {
    const setup: Setup
    const sort: Sort

    var out: seq<Out>
    var mpiStack: seq<Block>
    var userStack: seq<Block>
    var lastBlockEnd: Time
    var printed: bool
    var waitWithComm: bool
    var pending: bool
    var partial: GlobalOp
    var fields: nat
    var inFlight: seq<GlobalOp>
    var pseudo: int
    var outside: bool
    var wrong: bool
    var nonDeterministic: bool
    var barrierWritten: bool

    var recordStack: seq<Record>
    var disordered: bool

    /** The batches translated so far and the records dropped. */
    ghost var batches: seq<seq<Record>>
    ghost var dropped: seq<Record>

    function Now(): State
      reads this
    {
      State(out, mpiStack, userStack, lastBlockEnd, printed, waitWithComm, pending, partial, fields, inFlight,
            pseudo, outside, wrong, nonDeterministic, barrierWritten)
    }

    ghost function Line(): Queue
      reads this
    {
      Queue(batches, recordStack, dropped, disordered)
    }

    constructor (c: Setup, sort: Sort, emptyTask: bool, firstIdle: bool, initialTime: Time)
      ensures setup == c && this.sort == sort
      ensures Now() == NewState(c, emptyTask, firstIdle, initialTime)
      ensures Line() == Queue([], [], [], false)
    {
      setup, this.sort := c, sort;
      mpiStack, userStack, recordStack, inFlight := [], [], [], [];
      printed, waitWithComm, pending, outside, wrong := false, false, false, false, false;
      nonDeterministic, barrierWritten, disordered := false, false, false;
      partial, fields, pseudo := GlobalOp(0, 0, 0, 0, false, 0, 0), 0, 0;
      batches, dropped := [], [];
      out, lastBlockEnd := [], 0;
      new;
      WriteFirst(emptyTask, firstIdle, initialTime);
    }

    method WriteFirst(emptyTask: bool, firstIdle: bool, initialTime: Time)
      requires out == [] && lastBlockEnd == 0
      modifies `out, `lastBlockEnd
      ensures out == FirstRecords(setup, emptyTask, firstIdle, initialTime)
      ensures lastBlockEnd == if !emptyTask && (!firstIdle || setup.thread == 1) then initialTime else 0
    {
      if setup.thread == 1 {
        Write(Burst(0));
      }
      if !emptyTask && firstIdle && setup.thread == 1 {
        Write(BlockBegin(0, 1));
        Write(Burst(initialTime));
        Write(BlockEnd(0));
        lastBlockEnd := initialTime;
      }
      if !emptyTask && !firstIdle {
        lastBlockEnd := initialTime;
      }
    }

    method Write(r: Out)
      modifies `out
      ensures out == old(out) + [r]
    {
      out := out + [r];
    }

    method GenerateBurst(time: Time)
      modifies `out
      ensures Now() == WithBurst(old(Now()), time)
    {
      Write(Burst(Elapsed(lastBlockEnd, time)));
    }

    // ----- events

    method Event2GlobalOp(eventType: int, value: int)
      modifies `partial, `fields
      requires pending
      ensures Now() == CollectField(old(Now()), eventType, value)
    {
      if eventType == OP_SENDSIZE {
        partial, fields := partial.(sendSize := value), fields + 1;
      } else if eventType == OP_RECVSIZE {
        partial, fields := partial.(recvSize := value), fields + 1;
      } else if eventType == OP_ROOT {
        if value == 1 {
          partial := partial.(root := true);
        }
        fields := fields + 1;
      } else if eventType == OP_COMM {
        partial, fields := partial.(comm := value), fields + 1;
      }
    }

    method Collect(eventType: int, value: int)
      modifies `partial, `fields, `pending
      ensures Now() == WithCollective(setup, old(Now()), eventType, value)
    {
      if pending {
        Event2GlobalOp(eventType, value);
      }
      if eventType == MPI_COLLECTIVE && value != 0 {
        pending := true;
        partial := GlobalOp(setup.task, setup.thread, setup.operationOf(value), 0, false, 0, 0);
        fields := 1;
      }
    }

    method WriteGeneric(time: Time, eventType: int, value: int)
      modifies `out, `lastBlockEnd
      ensures Now() == GenericEvent(old(Now()), time, eventType, value)
    {
      if (lastBlockEnd != time || (lastBlockEnd == 0 && time == 0)) && |mpiStack| == 0 {
        if !KeepsBurst(eventType) {
          GenerateBurst(time);
          lastBlockEnd := time;
        }
      }
      Write(UserEvent(eventType, value));
    }

    method BeginMpi(time: Time, eventType: int, value: int)
      modifies `out, `mpiStack, `printed, `waitWithComm
      ensures Now() == OpenMpi(UpTo(old(Now()), time), eventType, value)
    {
      if time > lastBlockEnd {
        GenerateBurst(time);
      }
      Write(BlockBegin(eventType, value));
      mpiStack := mpiStack + [Block(eventType, value)];
      printed := false;
      if value == WAIT_CALL {
        waitWithComm := false;
      }
    }

    method WriteInitBarrier(value: int)
      modifies `out, `printed, `barrierWritten
      ensures Now() == AfterBarrier(setup, old(Now()), value)
    {
      if value == INIT_CALL && setup.initBarrier {
        Write(InitBarrier);
        barrierWritten := true;
        printed := true;
      }
    }

    method WriteCollectiveWait(value: int)
      modifies `out, `inFlight
      ensures Now() == AfterWait(old(Now()), value)
    {
      if value == WAIT_CALL && waitWithComm == false && |inFlight| > 0 {
        Write(CollectiveWait(inFlight[0]));
        inFlight := inFlight[1..];
      }
    }

    method WriteNoop()
      modifies `out
      ensures Now() == AfterNoop(old(Now()))
    {
      if !printed {
        Write(Noop);
      }
    }

    method EndMpi(time: Time, eventType: int)
      requires mpiStack != []
      modifies `out, `mpiStack, `lastBlockEnd, `printed, `barrierWritten, `inFlight
      ensures Now() == CloseMpi(setup, old(Now()), time, eventType)
    {
      ghost var s := Now();
      var value := mpiStack[|mpiStack| - 1].value;
      WriteInitBarrier(value);
      WriteCollectiveWait(value);
      WriteNoop();
      assert Now() == BeforeEnd(setup, s);
      Pop(time, eventType);
    }

    method Pop(time: Time, eventType: int)
      requires mpiStack != []
      modifies `out, `mpiStack, `lastBlockEnd
      ensures Now() == PopMpi(old(Now()), time, eventType)
    {
      mpiStack := mpiStack[..|mpiStack| - 1];
      lastBlockEnd := time;
      Write(BlockEnd(eventType));
    }

    method BeginUser(time: Time, eventType: int, value: int)
      modifies `out, `userStack, `lastBlockEnd
      ensures Now() == OpenUser(UpTo(old(Now()), time), time, eventType, value)
    {
      if time > lastBlockEnd {
        GenerateBurst(time);
      }
      lastBlockEnd := time;
      Write(BlockBegin(eventType, value));
      userStack := userStack + [Block(eventType, value)];
    }

    method EndUser(time: Time, eventType: int)
      requires userStack != []
      modifies `out, `userStack, `lastBlockEnd
      ensures Now() == CloseUser(UpTo(old(Now()), time), time, eventType)
    {
      userStack := userStack[..|userStack| - 1];
      if time > lastBlockEnd {
        GenerateBurst(time);
      }
      lastBlockEnd := time;
      Write(BlockEnd(eventType));
    }

    method BlockEvent(time: Time, eventType: int, value: int)
      modifies `out, `mpiStack, `userStack, `lastBlockEnd, `printed, `waitWithComm, `barrierWritten, `inFlight
      ensures Now() == BlockOrGeneric(setup, old(Now()), time, eventType, value)
    {
      if IsMpi(eventType) {
        if value != 0 {
          BeginMpi(time, eventType, value);
        } else if |mpiStack| != 0 {
          EndMpi(time, eventType);
        }
      } else if IsUser(eventType) {
        if value != 0 {
          BeginUser(time, eventType, value);
        } else if |userStack| != 0 {
          EndUser(time, eventType);
        }
      } else {
        WriteGeneric(time, eventType, value);
      }
    }

    method EventToDimemas(e: Record)
      requires e.Event?
      modifies this
      ensures Now() == OnEvent(setup, old(Now()), e) && Line() == old(Line())
    {
      if IsPseudo(e.eventType) {
        pseudo := pseudo + 1;
      } else {
        Collect(e.eventType, e.value);
        BlockEvent(e.time, e.eventType, e.value);
      }
    }

    // ----- communications

    method PrintPseudo(partner: int, r: Record)
      requires r.Comm?
      modifies `out, `pseudo
      ensures out == old(out) + PseudoEvents(old(Now()), partner, r)
      ensures pseudo == if 0 < old(pseudo) then old(pseudo) - 1 else old(pseudo)
    {
      if pseudo > 0 {
        Write(UserEvent(9, KindNumber(r.kind)));
        Write(UserEvent(10, partner));
        Write(UserEvent(12, r.size));
        Write(UserEvent(13, r.tag));
        Write(UserEvent(14, r.commId));
        pseudo := pseudo - 1;
      }
    }

    method PrintEndpoint(op: CommOp, r: Record)
      requires r.Comm?
      modifies `out, `pseudo
      ensures out == old(out) + (PseudoEvents(old(Now()), Partner(setup, r), r)
                                 + [PointToPoint(op, Partner(setup, r), r.size, r.tag, r.commId)])
      ensures pseudo == if 0 < old(pseudo) then old(pseudo) - 1 else old(pseudo)
    {
      PrintPseudo(Partner(setup, r), r);
      Write(PointToPoint(op, Partner(setup, r), r.size, r.tag, r.commId));
    }

    method PrintPrimitive(call: Call, op: CommOp, primitive: bool, r: Record)
      requires r.Comm?
      modifies `out, `pseudo, `printed, `waitWithComm, `nonDeterministic
      ensures Now() == PrintComm(setup, old(Now()), call, op, primitive, r)
    {
      if primitive {
        printed := true;
      }
      PrintEndpoint(op, r);
      if call.WaitCall? {
        waitWithComm := true;
      }
      if call.WaitManyCall? {
        nonDeterministic := true;
      }
    }

    /** The kinds of an endpoint inside a call that receives. */
    method InReceive(call: Call, r: Record)
      requires r.Comm? && (call.RecvCall? || call.ImmediateRecvCall?)
      modifies this
      ensures Now() == Act(setup, old(Now()), call, r) && Line() == old(Line())
    {
      if r.kind.LogicalRecv? {
        if call.RecvCall? {
          PrintPrimitive(call, NxRecv, true, r);
        } else {
          PrintPrimitive(call, NxIrecv, true, r);
        }
      } else if !r.kind.PhysicalRecv? {
        wrong := true;
      }
    }

    /** Inside a call that sends; a wait may appear there in traces that were simulated. */
    method InSend(call: Call, r: Record)
      requires r.Comm? && (call.SendCall? || call.ImmediateSendCall? || call.ReadySendCall?)
      modifies this
      ensures Now() == Act(setup, old(Now()), call, r) && Line() == old(Line())
    {
      if r.kind.LogicalSend? {
        if call.SendCall? {
          PrintPrimitive(call, NxBlockingSend, true, r);
        } else if call.ReadySendCall? {
          PrintPrimitive(call, NxImmediateReadySend, true, r);
        } else {
          PrintPrimitive(call, NxImmediateSend, true, r);
        }
      } else if r.kind.PhysicalRecv? {
        PrintPrimitive(call, NxWait, false, r);
      } else {
        wrong := true;
      }
    }

    method InWait(call: Call, r: Record)
      requires r.Comm? && (call.WaitCall? || call.WaitManyCall?)
      modifies this
      ensures Now() == Act(setup, old(Now()), call, r) && Line() == old(Line())
    {
      if r.kind.PhysicalRecv? {
        PrintPrimitive(call, NxWait, true, r);
      } else if !r.kind.LogicalRecv? {
        wrong := true;
      }
    }

    method InSendReceive(call: Call, r: Record)
      requires r.Comm? && call.SendRecvCall?
      modifies this
      ensures Now() == Act(setup, old(Now()), call, r) && Line() == old(Line())
    {
      if r.kind.LogicalRecv? {
        PrintPrimitive(call, NxIrecv, true, r);
      } else if r.kind.LogicalSend? {
        PrintPrimitive(call, NxSend, true, r);
      } else if r.kind.PhysicalRecv? {
        PrintPrimitive(call, NxWait, true, r);
      }
    }

    method InStart(call: Call, r: Record)
      requires r.Comm? && call.StartCall?
      modifies this
      ensures Now() == Act(setup, old(Now()), call, r) && Line() == old(Line())
    {
      if r.kind.LogicalSend? {
        PrintPrimitive(call, NxBlockingSend, true, r);
      } else if r.kind.LogicalRecv? {
        PrintPrimitive(call, NxIrecv, true, r);
      }
    }

    method CommToDimemas(r: Record)
      requires r.Comm?
      modifies this
      ensures Now() == OnComm(setup, old(Now()), r) && Line() == old(Line())
    {
      if |mpiStack| == 0 {
        outside := true;
      } else {
        var call := setup.callOf(mpiStack[|mpiStack| - 1].value);
        match call {
          case RecvCall => InReceive(call, r);
          case SendCall => InSend(call, r);
          case ImmediateSendCall => InSend(call, r);
          case ReadySendCall => InSend(call, r);
          case ImmediateRecvCall => InReceive(call, r);
          case WaitCall => InWait(call, r);
          case WaitManyCall => InWait(call, r);
          case SendRecvCall => InSendReceive(call, r);
          case StartCall => InStart(call, r);
          case OtherCall =>
        }
      }
    }

    // ----- batches

    method FinalizeGlobalOp()
      requires pending
      modifies `out, `inFlight, `pending, `fields
      ensures Now() == EndBatch(old(Now()))
    {
      if fields >= 2 {
        if IsAsync(partial) {
          inFlight := inFlight + [partial];
        }
        Write(Collective(partial));
        fields := 0;
      }
      pending := false;
    }

    method Translate(batch: seq<Record>)
      modifies this
      ensures Now() == OnRecords(setup, old(Now()), batch) && Line() == old(Line())
    {
      ghost var s := Now();
      var i := 0;
      assert batch[..0] == [];
      while i < |batch|
        invariant i <= |batch|
        invariant Now() == OnRecords(setup, s, batch[..i]) && Line() == old(Line())
      {
        OneMoreRecord(setup, s, batch, i);
        ToDimemas(batch[i]);
        i := i + 1;
      }
      assert batch[..i] == batch;
    }

    method ToDimemas(r: Record)
      modifies this
      ensures Now() == OnRecord(setup, old(Now()), r) && Line() == old(Line())
    {
      if r.Event? {
        EventToDimemas(r);
      } else {
        CommToDimemas(r);
      }
    }

    method TranslateBatch(batch: seq<Record>)
      modifies this
      ensures Now() == EndBatch(OnRecords(setup, old(Now()), batch)) && Line() == old(Line())
    {
      Translate(batch);
      ghost var s := Now();
      if pending {
        FinalizeGlobalOp();
      }
    }

    /** The translator is where its batches take it. */
    ghost predicate Follows(s0: State)
      reads this
    {
      Now() == OnBatches(setup, s0, batches)
    }

    method ReorderAndFlush(ghost s0: State)
      requires Follows(s0)
      modifies this
      ensures Follows(s0) && Line() == Flush(sort, old(mpiStack) != [], old(Line()))
    {
      if |recordStack| == 0 {
        return;
      }
      var batch := recordStack;
      if |recordStack| > 1 {
        batch := sort(|mpiStack| > 0, recordStack);
      }
      FlushBatch(batch, s0);
    }

    method FlushBatch(batch: seq<Record>, ghost s0: State)
      requires Follows(s0)
      modifies this
      ensures Follows(s0) && Line() == old(Line()).(batches := old(batches) + [batch], stack := [])
    {
      OneMoreBatch(setup, s0, batches, batch);
      TranslateBatch(batch);
      ClearStack(batch);
    }

    method ClearStack(ghost batch: seq<Record>)
      modifies `recordStack, `batches
      ensures Now() == old(Now()) && Line() == old(Line()).(batches := old(batches) + [batch], stack := [])
    {
      recordStack := [];
      batches := batches + [batch];
    }

    method Restack(rs: seq<Record>)
      modifies `recordStack
      ensures Line() == old(Line()).(stack := rs) && Now() == old(Now())
    {
      recordStack := rs;
    }

    /** A record later than the stack. */
    method PushLater(r: Record, ghost s0: State)
      requires Follows(s0) && recordStack != [] && recordStack[|recordStack| - 1].time < r.time
      modifies this
      ensures Follows(s0) && Line() == Flush(sort, old(mpiStack) != [], old(Line())).(stack := [r])
    {
      ReorderAndFlush(s0);
      Restack([r]);
    }

    /** A record of the time of the stack. */
    method PushSame(r: Record, ghost s0: State)
      requires Follows(s0) && recordStack != [] && recordStack[|recordStack| - 1].time == r.time
      modifies this
      ensures Follows(s0)
      ensures var q1 := old(Line()).(stack := old(recordStack) + [r]);
        Line() == if IsMpiEnd(r) then Flush(sort, old(mpiStack) != [], q1) else q1
    {
      Restack(recordStack + [r]);
      if IsMpiEnd(r) {
        ReorderAndFlush(s0);
        Restack([]);
      }
    }

    method PushRecord(r: Record, ghost s0: State)
      requires Follows(s0)
      modifies this
      ensures Follows(s0) && Line() == Push(sort, old(mpiStack) != [], old(Line()), r)
    {
      if |recordStack| > 0 {
        var last := recordStack[|recordStack| - 1];
        if last.time < r.time {
          PushLater(r, s0);
        } else if last.time == r.time {
          PushSame(r, s0);
        } else {
          disordered := true;
          dropped := dropped + [r];
        }
      } else {
        Restack(recordStack + [r]);
      }
    }

    method LastFlush(ghost s0: State)
      requires Follows(s0)
      modifies this
      ensures Follows(s0) && Line() == Flush(sort, old(mpiStack) != [], old(Line()))
    {
      ReorderAndFlush(s0);
    }

    /** All the records of the thread, one by one, and the last flush. */
    method TranslateAll(rs: seq<Record>)
      requires Line() == Queue([], [], [], false)
      modifies this
      ensures Line() == Finished(InsideOf(setup, old(Now())), sort, rs) && Follows(old(Now()))
    {
      ghost var s0 := Now();
      var i := 0;
      while i < |rs|
        invariant i <= |rs|
        invariant Follows(s0) && Line() == PushAll(InsideOf(setup, s0), sort, rs[..i])
      {
        OneMorePush(InsideOf(setup, s0), sort, rs, i);
        PushRecord(rs[i], s0);
        i := i + 1;
      }
      assert rs[..i] == rs;
      LastFlush(s0);
    }
  }

  /** One thread from its constructor to its last flush. */
  method TranslateThread(c: Setup, sort: Sort, emptyTask: bool, firstIdle: bool, initialTime: Time, rs: seq<Record>)
      returns (out: seq<Out>, disordered: bool)
    requires Rearranges(sort)
    ensures var s0 := NewState(c, emptyTask, firstIdle, initialTime);
      out == OnBatches(c, s0, Finished(InsideOf(c, s0), sort, rs).batches).out
    ensures disordered <==> !InOrder(rs)
    ensures ReadAll(c, out).Reading? && Waits(out) <= Asyncs(out)
  {
    ghost var s0 := NewState(c, emptyTask, firstIdle, initialTime);
    var t := new Translator(c, sort, emptyTask, firstIdle, initialTime);
    t.TranslateAll(rs);
    NothingLost(InsideOf(c, s0), sort, rs);
    EveryOutputReadable(c, emptyTask, firstIdle, initialTime, t.batches);
    out, disordered := t.out, t.disordered;
  }
}
