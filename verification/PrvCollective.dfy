/** How a collective is put together from the events that share its time. */
module PrvCollective {
  import opened PrvThread

  predicate StartsCollective(r: Record) { r.Event? && r.eventType == MPI_COLLECTIVE && r.value != 0 }

  predicate GivesField(r: Record) { r.Event? && IsField(r.eventType) }

  /** The value of the last event of a type, or a default. */
  function LastValue(rs: seq<Record>, eventType: int, default: int): int {
    if rs == [] then default
    else
      var r := rs[|rs| - 1];
      if r.Event? && r.eventType == eventType then r.value else LastValue(rs[..|rs| - 1], eventType, default)
  }

  function FieldCount(rs: seq<Record>): nat {
    if rs == [] then 0 else FieldCount(rs[..|rs| - 1]) + if GivesField(rs[|rs| - 1]) then 1 else 0
  }

  predicate NamesRoot(rs: seq<Record>) { exists r :: r in rs && r.Event? && r.eventType == OP_ROOT && r.value == 1 }

  /** The collective of call `value`, with the fields that the events after it give. */
  function Gathered(c: Setup, value: int, rs: seq<Record>): GlobalOp {
    GlobalOp(c.task, c.thread, c.operationOf(value), LastValue(rs, OP_COMM, 0), NamesRoot(rs),
             LastValue(rs, OP_SENDSIZE, 0), LastValue(rs, OP_RECVSIZE, 0))
  }

  predicate SameGathering(s: State, s': State) {
    s'.pending == s.pending && s'.partial == s.partial && s'.fields == s.fields
  }

  // ----- writing does not touch what is being gathered

  lemma MpiEventLeaves(c: Setup, s: State, time: Time, t: int, v: int)
    ensures SameGathering(s, MpiEvent(c, s, time, t, v))
  {
    if v == 0 && s.mpiStack != [] {
      BeforeEndLeaves(c, s);
    }
  }

  lemma BeforeEndLeaves(c: Setup, s: State)
    requires s.mpiStack != []
    ensures SameGathering(s, BeforeEnd(c, s)) && BeforeEnd(c, s).mpiStack == s.mpiStack
  {
    var value := s.mpiStack[|s.mpiStack| - 1].value;
    BarrierLeaves(c, s, value);
    WaitLeaves(AfterBarrier(c, s, value), value);
    NoopLeaves(AfterWait(AfterBarrier(c, s, value), value));
  }

  lemma BarrierLeaves(c: Setup, s: State, value: int)
    ensures SameGathering(s, AfterBarrier(c, s, value)) && AfterBarrier(c, s, value).mpiStack == s.mpiStack
  {
  }

  lemma WaitLeaves(s: State, value: int)
    ensures SameGathering(s, AfterWait(s, value)) && AfterWait(s, value).mpiStack == s.mpiStack
  {
  }

  lemma NoopLeaves(s: State)
    ensures SameGathering(s, AfterNoop(s)) && AfterNoop(s).mpiStack == s.mpiStack
  {
  }

  lemma UpToLeaves(s: State, time: Time)
    ensures SameGathering(s, UpTo(s, time)) && UpTo(s, time).userStack == s.userStack
  {
  }

  lemma UserLeaves(s: State, time: Time, t: int, v: int)
    ensures SameGathering(s, OpenUser(s, time, t, v))
    ensures s.userStack != [] ==> SameGathering(s, CloseUser(s, time, t))
  {
  }

  lemma UserBlockLeaves(s: State, time: Time, t: int, v: int)
    ensures SameGathering(s, UserBlockEvent(s, time, t, v))
  {
    UpToLeaves(s, time);
    UserLeaves(UpTo(s, time), time, t, v);
  }

  lemma GenericLeaves(s: State, time: Time, t: int, v: int)
    ensures SameGathering(s, GenericEvent(s, time, t, v))
  {
  }

  lemma WritingLeaves(c: Setup, s: State, time: Time, t: int, v: int)
    ensures SameGathering(s, BlockOrGeneric(c, s, time, t, v))
  {
    MpiEventLeaves(c, s, time, t, v);
    UserBlockLeaves(s, time, t, v);
    GenericLeaves(s, time, t, v);
  }

  lemma CommLeaves(c: Setup, s: State, r: Record)
    requires r.Comm?
    ensures SameGathering(s, OnComm(c, s, r))
  {
    if s.mpiStack != [] {
      var call := c.callOf(s.mpiStack[|s.mpiStack| - 1].value);
      var action := ActionOf(call, r.kind);
      if action.Print? {
        PrintLeaves(c, s, call, action.op, action.primitive, r);
      }
    }
  }

  lemma PrintLeaves(c: Setup, s: State, call: Call, op: CommOp, primitive: bool, r: Record)
    requires r.Comm?
    ensures SameGathering(s, PrintComm(c, s, call, op, primitive, r))
  {
  }

  /** One record behind the call. */
  lemma GatherOne(c: Setup, s: State, r: Record)
    requires s.pending && !StartsCollective(r)
    ensures var s' := OnRecord(c, s, r);
      && s'.pending && s'.fields == s.fields + (if GivesField(r) then 1 else 0)
      && s'.partial == if GivesField(r) then WithField(s.partial, r.eventType, r.value) else s.partial
  {
    if r.Event? {
      GatherEvent(c, s, r);
    } else {
      CommLeaves(c, s, r);
    }
  }

  lemma GatherEvent(c: Setup, s: State, e: Record)
    requires s.pending && e.Event? && !StartsCollective(e)
    ensures var s' := OnEvent(c, s, e);
      && s'.pending && s'.fields == s.fields + (if GivesField(e) then 1 else 0)
      && s'.partial == if GivesField(e) then WithField(s.partial, e.eventType, e.value) else s.partial
  {
    if !IsPseudo(e.eventType) {
      var s1 := WithCollective(c, s, e.eventType, e.value);
      assert s1 == CollectField(s, e.eventType, e.value);
      WritingLeaves(c, s1, e.time, e.eventType, e.value);
    }
  }

  lemma StartOne(c: Setup, s: State, r: Record)
    requires StartsCollective(r)
    ensures var s' := OnRecord(c, s, r);
      s'.pending && s'.fields == 1 && s'.partial == Gathered(c, r.value, [])
  {
    WritingLeaves(c, WithCollective(c, s, r.eventType, r.value), r.time, r.eventType, r.value);
  }

  lemma GatherField(c: Setup, value: int, rs: seq<Record>, r: Record)
    ensures Gathered(c, value, rs + [r])
         == if GivesField(r) then WithField(Gathered(c, value, rs), r.eventType, r.value) else Gathered(c, value, rs)
  {
    assert (rs + [r])[..|rs|] == rs;
    assert NamesRoot(rs + [r]) <==> NamesRoot(rs) || (r.Event? && r.eventType == OP_ROOT && r.value == 1) by {
      if NamesRoot(rs) {
        var x :| x in rs && x.Event? && x.eventType == OP_ROOT && x.value == 1;
        assert x in rs + [r];
      }
      assert r in rs + [r];
    }
  }

  lemma {:induction false} GatheredFrom(c: Setup, s: State, value: int, rs: seq<Record>)
    requires s.pending && s.fields == 1 && s.partial == Gathered(c, value, [])
    requires forall r :: r in rs ==> !StartsCollective(r)
    ensures var s' := OnRecords(c, s, rs);
      s'.pending && s'.fields == 1 + FieldCount(rs) && s'.partial == Gathered(c, value, rs)
  {
    if rs != [] {
      var n := |rs| - 1;
      GatheredFrom(c, s, value, rs[..n]);
      GatherOne(c, OnRecords(c, s, rs[..n]), rs[n]);
      GatherField(c, value, rs[..n], rs[n]);
      assert rs[..n] + [rs[n]] == rs;
    }
  }

  lemma {:induction false} RecordsInTwo(c: Setup, s: State, front: seq<Record>, back: seq<Record>)
    ensures OnRecords(c, s, front + back) == OnRecords(c, OnRecords(c, s, front), back)
  {
    if back == [] {
      assert front + back == front;
    } else {
      var n := |back| - 1;
      RecordsInTwo(c, s, front, back[..n]);
      assert (front + back)[..|front + back| - 1] == front + back[..n];
    }
  }

  /**
   * A batch with a collective call ends by writing that collective, with the last value that each kind of event gave
   * after the call, if there was any such event; without one nothing is written for it.
   */
  lemma BatchWritesCollective(c: Setup, s: State, front: seq<Record>, call: Record, rs: seq<Record>)
    requires StartsCollective(call) && forall r :: r in rs ==> !StartsCollective(r)
    ensures var s1 := OnRecords(c, s, front + [call] + rs);
      var g := Gathered(c, call.value, rs);
      && EndBatch(s1).out == s1.out + (if exists r :: r in rs && GivesField(r) then [Collective(g)] else [])
      && !EndBatch(s1).pending
  {
    var s0 := OnRecords(c, s, front + [call]);
    assert (front + [call])[..|front|] == front;
    StartOne(c, OnRecords(c, s, front), call);
    GatheredFrom(c, s0, call.value, rs);
    RecordsInTwo(c, s, front + [call], rs);
    SomeField(rs);
  }

  lemma {:induction false} SomeField(rs: seq<Record>)
    ensures 0 < FieldCount(rs) <==> exists r :: r in rs && GivesField(r)
  {
    if rs != [] {
      var n := |rs| - 1;
      SomeField(rs[..n]);
      assert rs == rs[..n] + [rs[n]];
      assert rs[n] in rs;
    }
  }
}
