/**
 * Where the time of a thread goes: into bursts and into MPI blocks, and once each, except for the bursts that are
 * written inside MPI blocks.
 */
module PrvThreadTime {
  import opened PrvThread
  import opened PrvQueue

  // ----- time in the output

  function BurstSum(out: seq<Out>): nat {
    if out == [] then 0
    else
      var r := out[|out| - 1];
      BurstSum(out[..|out| - 1]) + if r.Burst? then r.duration else 0
  }

  lemma SumMore(out: seq<Out>, r: Out)
    ensures BurstSum(out + [r]) == BurstSum(out) + if r.Burst? then r.duration else 0
  {
    assert (out + [r])[..|out|] == out;
  }

  lemma {:induction false} SumSame(out: seq<Out>, more: seq<Out>)
    requires forall r :: r in more ==> !r.Burst?
    ensures BurstSum(out + more) == BurstSum(out)
  {
    if more == [] {
      assert out + more == out;
    } else {
      var n := |more| - 1;
      SumSame(out, more[..n]);
      assert out + more == out + more[..n] + [more[n]];
      SumMore(out + more[..n], more[n]);
    }
  }

  // ----- time in the input

  /**
   * A book kept from the records alone: the time of the last one, the open MPI blocks and when the outermost began,
   * the open user blocks, the last time that ended a burst or an MPI block, the time spent in outermost MPI blocks
   * that have ended, and the time that is written again by bursts inside MPI blocks.  `Unfit` for records out of
   * order and for the counters of probe and test calls.
   */
  datatype Book =
    | Unfit
    | Book(now: Time, depth: nat, since: Time, users: nat, mark: Time, inside: int, rewritten: int)

  predicate IsCounter(t: int) { t == PROBE_COUNTER || t == PROBE_TIME_COUNTER || t == TEST_COUNTER }

  function NewBook(start: Time): Book { Book(start, 0, start, 0, start, 0, 0) }

  /** The end of a user block, if one is open, or its beginning: a burst ends. */
  predicate IsUserMark(b: Book, r: Record)
    requires b.Book?
  {
    r.Event? && IsUser(r.eventType) && (r.value != 0 || 0 < b.users)
  }

  /** The time that a record makes the translator write for a second time: a burst while an MPI block is open. */
  function WrittenAgain(b: Book, r: Record): int
    requires b.Book?
  {
    if 0 < b.depth && (IsMpiBegin(r) || IsUserMark(b, r)) then r.time - b.mark else 0
  }

  function Enter(b: Book, r: Record): Book {
    if b.Unfit? || r.time < b.now || (r.Event? && IsCounter(r.eventType)) then Unfit
    else
      var b1 := b.(now := r.time, rewritten := b.rewritten + WrittenAgain(b, r));
      if IsMpiBegin(r) then b1.(depth := b.depth + 1, since := if b.depth == 0 then r.time else b.since)
      else if IsMpiEnd(r) then
        if b.depth == 0 then b1
        else b1.(depth := b.depth - 1, mark := r.time,
                 inside := if b.depth == 1 then b.inside + (r.time - b.since) else b.inside)
      else if IsUserMark(b, r) then
        b1.(mark := r.time, users := if r.value != 0 then b.users + 1 else b.users - 1)
      else if
        r.Event? && !IsUser(r.eventType) && !IsPseudo(r.eventType) && b.depth == 0 && !KeepsBurst(r.eventType)
      then
        b1.(mark := r.time)
      else b1
  }

  function EnterAll(b: Book, rs: seq<Record>): Book {
    if rs == [] then b else Enter(EnterAll(b, rs[..|rs| - 1]), rs[|rs| - 1])
  }

  function EnterBatches(b: Book, batches: seq<seq<Record>>): Book {
    if batches == [] then b else EnterAll(EnterBatches(b, batches[..|batches| - 1]), batches[|batches| - 1])
  }

  lemma {:induction false} BookStays(b: Book, rs: seq<Record>)
    requires EnterAll(b, rs).Book?
    ensures b.Book?
  {
    if rs != [] {
      BookStays(b, rs[..|rs| - 1]);
    }
  }

  // ----- both agree

  /**
   * `spent` is the time in bursts since `start`.  Together with the time in MPI blocks it is the time that has passed,
   * up to the last mark or to the beginning of the block that is open, and what was written again.
   */
  predicate Settled(b: Book, spent: int, start: Time) {
    && b.Book? && b.mark <= b.now && b.since <= b.now && 0 <= b.rewritten
    && spent + b.inside == (if b.depth == 0 then b.mark else b.since) - start + b.rewritten
  }

  predicate Balanced(b: Book, base: int, start: Time, s: State) {
    && Settled(b, BurstSum(s.out) - base, start)
    && b.depth == |s.mpiStack| && b.users == |s.userStack| && b.mark == s.lastBlockEnd
  }

  /** Nothing that takes time: the same sum, the same blocks. */
  predicate Timeless(s: State, s': State) {
    && BurstSum(s'.out) == BurstSum(s.out) && s'.mpiStack == s.mpiStack && s'.userStack == s.userStack
    && s'.lastBlockEnd == s.lastBlockEnd
  }

  lemma BurstTime(s: State, time: Time)
    ensures BurstSum(WithBurst(s, time).out) == BurstSum(s.out) + Elapsed(s.lastBlockEnd, time)
  {
    SumMore(s.out, Burst(Elapsed(s.lastBlockEnd, time)));
  }

  lemma EmitTime(s: State, r: Out)
    requires !r.Burst?
    ensures Timeless(s, Emit(s, [r]))
  {
    SumMore(s.out, r);
  }

  lemma GenericTime(s: State, time: Time, t: int, v: int)
    ensures var s' := GenericEvent(s, time, t, v);
      && s'.mpiStack == s.mpiStack && s'.userStack == s.userStack
      && s'.lastBlockEnd == (if s.mpiStack == [] && !KeepsBurst(t) then time else s.lastBlockEnd)
      && BurstSum(s'.out)
         == BurstSum(s.out) + if s.mpiStack == [] && !KeepsBurst(t) then Elapsed(s.lastBlockEnd, time) else 0
  {
    if (s.lastBlockEnd != time || (s.lastBlockEnd == 0 && time == 0)) && s.mpiStack == [] && !KeepsBurst(t) {
      var s1 := WithBurst(s, time).(lastBlockEnd := time);
      BurstTime(s, time);
      EmitTime(s1, UserEvent(t, v));
      assert GenericEvent(s, time, t, v) == Emit(s1, [UserEvent(t, v)]);
    } else {
      EmitTime(s, UserEvent(t, v));
      assert GenericEvent(s, time, t, v) == Emit(s, [UserEvent(t, v)]);
    }
  }

  lemma UpToTime(s: State, time: Time)
    requires s.lastBlockEnd <= time
    ensures BurstSum(UpTo(s, time).out) == BurstSum(s.out) + (time - s.lastBlockEnd)
    ensures UpTo(s, time).mpiStack == s.mpiStack && UpTo(s, time).userStack == s.userStack
  {
    BurstTime(s, time);
  }

  lemma OpenMpiTime(s: State, time: Time, t: int, v: int)
    requires s.lastBlockEnd <= time
    ensures var s' := OpenMpi(UpTo(s, time), t, v);
      && |s'.mpiStack| == |s.mpiStack| + 1 && s'.userStack == s.userStack && s'.lastBlockEnd == s.lastBlockEnd
      && BurstSum(s'.out) == BurstSum(s.out) + (time - s.lastBlockEnd)
  {
    UpToTime(s, time);
    SumMore(UpTo(s, time).out, BlockBegin(t, v));
  }

  lemma BarrierTime(c: Setup, s: State, value: int)
    ensures Timeless(s, AfterBarrier(c, s, value))
  {
    EmitTime(s, InitBarrier);
  }

  lemma WaitTime(s: State, value: int)
    ensures Timeless(s, AfterWait(s, value))
  {
    if s.inFlight != [] {
      EmitTime(s, CollectiveWait(s.inFlight[0]));
    }
  }

  lemma NoopTime(s: State)
    ensures Timeless(s, AfterNoop(s))
  {
    EmitTime(s, Noop);
  }

  lemma BeforeEndTime(c: Setup, s: State)
    requires s.mpiStack != []
    ensures Timeless(s, BeforeEnd(c, s))
  {
    var value := s.mpiStack[|s.mpiStack| - 1].value;
    BarrierTime(c, s, value);
    WaitTime(AfterBarrier(c, s, value), value);
    NoopTime(AfterWait(AfterBarrier(c, s, value), value));
  }

  lemma CloseMpiTime(c: Setup, s: State, time: Time, t: int)
    requires s.mpiStack != []
    ensures var s' := CloseMpi(c, s, time, t);
      && |s'.mpiStack| == |s.mpiStack| - 1 && s'.userStack == s.userStack && s'.lastBlockEnd == time
      && BurstSum(s'.out) == BurstSum(s.out)
  {
    BeforeEndTime(c, s);
    SumMore(BeforeEnd(c, s).out, BlockEnd(t));
  }

  lemma OpenUserTime(s: State, time: Time, t: int, v: int)
    ensures var s' := OpenUser(s, time, t, v);
      && s'.mpiStack == s.mpiStack && |s'.userStack| == |s.userStack| + 1
      && BurstSum(s'.out) == BurstSum(s.out) && s'.lastBlockEnd == time
  {
    SumMore(s.out, BlockBegin(t, v));
  }

  lemma CloseUserTime(s: State, time: Time, t: int)
    requires s.userStack != []
    ensures var s' := CloseUser(s, time, t);
      && s'.mpiStack == s.mpiStack && |s'.userStack| == |s.userStack| - 1
      && BurstSum(s'.out) == BurstSum(s.out) && s'.lastBlockEnd == time
  {
    SumMore(s.out, BlockEnd(t));
  }

  lemma UserBlockTime(s: State, time: Time, t: int, v: int)
    requires s.lastBlockEnd <= time
    ensures var s' := UserBlockEvent(s, time, t, v);
      && s'.mpiStack == s.mpiStack
      && |s'.userStack| == |s.userStack| + (if v != 0 then 1 else if s.userStack == [] then 0 else -1)
      && s'.lastBlockEnd == (if v != 0 || s.userStack != [] then time else s.lastBlockEnd)
      && BurstSum(s'.out) - BurstSum(s.out) == s'.lastBlockEnd - s.lastBlockEnd
  {
    UpToTime(s, time);
    if v != 0 {
      OpenUserTime(UpTo(s, time), time, t, v);
    } else if s.userStack != [] {
      CloseUserTime(UpTo(s, time), time, t);
    }
  }

  lemma CollectiveTime(c: Setup, s: State, t: int, v: int)
    ensures Timeless(s, WithCollective(c, s, t, v))
  {
    var s1 := CollectField(s, t, v);
    assert s1.out == s.out && s1.mpiStack == s.mpiStack && s1.userStack == s.userStack
        && s1.lastBlockEnd == s.lastBlockEnd;
  }

  lemma MpiEventTime(c: Setup, b: Book, base: int, start: Time, s: State, e: Record)
    requires e.Event? && IsMpi(e.eventType) && Balanced(b, base, start, s) && Enter(b, e).Book?
    ensures Balanced(Enter(b, e), base, start, MpiEvent(c, s, e.time, e.eventType, e.value))
  {
    if e.value != 0 {
      OpenMpiTime(s, e.time, e.eventType, e.value);
    } else if s.mpiStack != [] {
      CloseMpiTime(c, s, e.time, e.eventType);
    }
  }

  lemma UserEventTime(b: Book, base: int, start: Time, s: State, e: Record)
    requires e.Event? && IsUser(e.eventType) && Balanced(b, base, start, s) && Enter(b, e).Book?
    ensures Balanced(Enter(b, e), base, start, UserBlockEvent(s, e.time, e.eventType, e.value))
  {
    UserBlockTime(s, e.time, e.eventType, e.value);
    UserSettled(b, base, start, s, UserBlockEvent(s, e.time, e.eventType, e.value), e);
  }

  lemma UserSettled(b: Book, base: int, start: Time, s: State, s': State, e: Record)
    requires e.Event? && IsUser(e.eventType) && Balanced(b, base, start, s) && Enter(b, e).Book?
    requires s'.mpiStack == s.mpiStack
    requires |s'.userStack| == |s.userStack| + (if e.value != 0 then 1 else if s.userStack == [] then 0 else -1)
    requires s'.lastBlockEnd == if e.value != 0 || s.userStack != [] then e.time else s.lastBlockEnd
    requires BurstSum(s'.out) - BurstSum(s.out) == s'.lastBlockEnd - s.lastBlockEnd
    ensures Balanced(Enter(b, e), base, start, s')
  {
  }

  lemma GenericEventTime(b: Book, base: int, start: Time, s: State, e: Record)
    requires e.Event? && !IsMpi(e.eventType) && !IsUser(e.eventType) && !IsPseudo(e.eventType)
    requires Balanced(b, base, start, s) && Enter(b, e).Book?
    ensures Balanced(Enter(b, e), base, start, GenericEvent(s, e.time, e.eventType, e.value))
  {
    GenericTime(s, e.time, e.eventType, e.value);
  }

  lemma BlockOrGenericTime(c: Setup, b: Book, base: int, start: Time, s: State, e: Record)
    requires e.Event? && !IsPseudo(e.eventType) && Balanced(b, base, start, s) && Enter(b, e).Book?
    ensures Balanced(Enter(b, e), base, start, BlockOrGeneric(c, s, e.time, e.eventType, e.value))
  {
    if IsMpi(e.eventType) {
      MpiEventTime(c, b, base, start, s, e);
    } else if IsUser(e.eventType) {
      UserEventTime(b, base, start, s, e);
    } else {
      GenericEventTime(b, base, start, s, e);
    }
  }

  lemma EventTime(c: Setup, b: Book, base: int, start: Time, s: State, e: Record)
    requires e.Event? && Balanced(b, base, start, s) && Enter(b, e).Book?
    ensures Balanced(Enter(b, e), base, start, OnEvent(c, s, e))
  {
    if !IsPseudo(e.eventType) {
      CollectiveTime(c, s, e.eventType, e.value);
      BlockOrGenericTime(c, b, base, start, WithCollective(c, s, e.eventType, e.value), e);
    }
  }

  lemma PrintTime(c: Setup, s: State, call: Call, op: CommOp, primitive: bool, r: Record)
    requires r.Comm?
    ensures Timeless(s, PrintComm(c, s, call, op, primitive, r))
  {
    SumSame(s.out, PseudoEvents(s, Partner(c, r), r) + [PointToPoint(op, Partner(c, r), r.size, r.tag, r.commId)]);
  }

  lemma CommTime(c: Setup, s: State, r: Record)
    requires r.Comm?
    ensures Timeless(s, OnComm(c, s, r))
  {
    if s.mpiStack != [] {
      var call := c.callOf(s.mpiStack[|s.mpiStack| - 1].value);
      var action := ActionOf(call, r.kind);
      if action.Print? {
        PrintTime(c, s, call, action.op, action.primitive, r);
      }
    }
  }

  lemma EndBatchTime(s: State)
    ensures Timeless(s, EndBatch(s))
  {
    SumMore(s.out, Collective(s.partial));
  }

  lemma {:induction false} RecordsTime(c: Setup, b: Book, base: int, start: Time, s: State, rs: seq<Record>)
    requires Balanced(b, base, start, s) && EnterAll(b, rs).Book?
    ensures Balanced(EnterAll(b, rs), base, start, OnRecords(c, s, rs))
  {
    if rs != [] {
      var n := |rs| - 1;
      RecordsTime(c, b, base, start, s, rs[..n]);
      if rs[n].Event? {
        EventTime(c, EnterAll(b, rs[..n]), base, start, OnRecords(c, s, rs[..n]), rs[n]);
      } else {
        CommTime(c, OnRecords(c, s, rs[..n]), rs[n]);
      }
    }
  }

  lemma {:induction false} BatchesTime(c: Setup, b: Book, base: int, start: Time, s: State, batches: seq<seq<Record>>)
    requires Balanced(b, base, start, s) && EnterBatches(b, batches).Book?
    ensures Balanced(EnterBatches(b, batches), base, start, OnBatches(c, s, batches))
  {
    if batches != [] {
      var n := |batches| - 1;
      var before, book := OnBatches(c, s, batches[..n]), EnterBatches(b, batches[..n]);
      BookStays(book, batches[n]);
      BatchesTime(c, b, base, start, s, batches[..n]);
      RecordsTime(c, book, base, start, before, batches[n]);
      EndBatchTime(OnRecords(c, before, batches[n]));
    }
  }

  /** The book of a thread from its constructor on. */
  function BookOf(s0: State, batches: seq<seq<Record>>): Book { EnterBatches(NewBook(s0.lastBlockEnd), batches) }

  /**
   * The account of a thread, for all records in time order without counters: the time in bursts and the time in MPI
   * blocks are the time that has passed and what was written again.  No burst wraps around, since the last block end
   * is never ahead of the records.
   */
  lemma TimeIsAccounted(c: Setup, emptyTask: bool, firstIdle: bool, initialTime: Time, batches: seq<seq<Record>>)
    requires BookOf(NewState(c, emptyTask, firstIdle, initialTime), batches).Book?
    ensures var s0 := NewState(c, emptyTask, firstIdle, initialTime);
      var s, b := OnBatches(c, s0, batches), BookOf(s0, batches);
      var spent := BurstSum(s.out) - BurstSum(s0.out);
      && s.lastBlockEnd == b.mark <= b.now && b.depth == |s.mpiStack| && 0 <= b.rewritten
      && (s.mpiStack == [] ==> spent + b.inside == s.lastBlockEnd - s0.lastBlockEnd + b.rewritten)
      && (s.mpiStack != [] ==> spent + b.inside == b.since - s0.lastBlockEnd + b.rewritten)
  {
    var s0 := NewState(c, emptyTask, firstIdle, initialTime);
    BatchesTime(c, NewBook(s0.lastBlockEnd), BurstSum(s0.out), s0.lastBlockEnd, s0, batches);
  }

  /** The constructor: time before the start is in a burst if the thread begins idle, and else left out. */
  lemma FirstTime(c: Setup, emptyTask: bool, firstIdle: bool, initialTime: Time)
    ensures var s0 := NewState(c, emptyTask, firstIdle, initialTime);
      && BurstSum(s0.out) == (if firstIdle && !emptyTask && c.thread == 1 then initialTime else 0)
      && (firstIdle ==> BurstSum(s0.out) == s0.lastBlockEnd)
      && (!firstIdle ==> s0.lastBlockEnd == if emptyTask then 0 else initialTime)
  {
    var burst: seq<Out> := if c.thread == 1 then [Burst(0)] else [];
    if c.thread == 1 {
      SumMore([], Burst(0));
      assert [] + [Burst(0)] == burst;
    }
    if !emptyTask && firstIdle && c.thread == 1 {
      SumMore(burst, BlockBegin(0, 1));
      SumMore(burst + [BlockBegin(0, 1)], Burst(initialTime));
      SumMore(burst + [BlockBegin(0, 1)] + [Burst(initialTime)], BlockEnd(0));
      assert burst + [BlockBegin(0, 1), Burst(initialTime), BlockEnd(0)]
          == burst + [BlockBegin(0, 1)] + [Burst(initialTime)] + [BlockEnd(0)];
    } else {
      assert burst + [] == burst;
    }
  }

  /** Some record after the first `n` makes the translator write time again. */
  ghost predicate WritesAgain(b: Book, rs: seq<Record>) {
    exists n :: 0 <= n < |rs| && AgainAt(b, rs, n)
  }

  predicate AgainAt(b: Book, rs: seq<Record>, n: nat)
    requires n < |rs|
  {
    EnterAll(b, rs[..n]).Book? && WrittenAgain(EnterAll(b, rs[..n]), rs[n]) != 0
  }

  lemma {:induction false} AgainAddsUp(b: Book, rs: seq<Record>)
    requires b.Book? && b.mark <= b.now && EnterAll(b, rs).Book?
    ensures EnterAll(b, rs).mark <= EnterAll(b, rs).now
    ensures b.rewritten <= EnterAll(b, rs).rewritten
    ensures b.rewritten == EnterAll(b, rs).rewritten <==> !WritesAgain(b, rs)
  {
    if rs != [] {
      var n := |rs| - 1;
      AgainAddsUp(b, rs[..n]);
      assert AgainAt(b, rs, n) <==> WrittenAgain(EnterAll(b, rs[..n]), rs[n]) != 0;
      AgainBefore(b, rs);
    }
  }

  lemma AgainBefore(b: Book, rs: seq<Record>)
    requires rs != []
    ensures WritesAgain(b, rs) <==> WritesAgain(b, rs[..|rs| - 1]) || AgainAt(b, rs, |rs| - 1)
  {
    var n := |rs| - 1;
    forall k | 0 <= k < n ensures AgainAt(b, rs, k) <==> AgainAt(b, rs[..n], k) {
      assert rs[..n][..k] == rs[..k];
    }
  }

  lemma {:induction false} BatchesAreFlat(b: Book, batches: seq<seq<Record>>)
    ensures EnterBatches(b, batches) == EnterAll(b, Flat(batches))
  {
    if batches != [] {
      var n := |batches| - 1;
      BatchesAreFlat(b, batches[..n]);
      EnterInTwo(b, Flat(batches[..n]), batches[n]);
    }
  }

  lemma {:induction false} EnterInTwo(b: Book, front: seq<Record>, back: seq<Record>)
    ensures EnterAll(b, front + back) == EnterAll(EnterAll(b, front), back)
  {
    if back == [] {
      assert front + back == front;
    } else {
      var n := |back| - 1;
      EnterInTwo(b, front, back[..n]);
      assert (front + back)[..|front + back| - 1] == front + back[..n];
    }
  }

  /**
   * Time is conserved exactly when nothing is written again: when no nested MPI block begins, and no user block begins
   * or ends inside an MPI block, later than the last mark.
   */
  lemma TimeIsConservedIff(c: Setup, emptyTask: bool, firstIdle: bool, initialTime: Time, batches: seq<seq<Record>>)
    requires BookOf(NewState(c, emptyTask, firstIdle, initialTime), batches).Book?
    requires OnBatches(c, NewState(c, emptyTask, firstIdle, initialTime), batches).mpiStack == []
    ensures var s0 := NewState(c, emptyTask, firstIdle, initialTime);
      var s, b := OnBatches(c, s0, batches), BookOf(s0, batches);
      && (BurstSum(s.out) - BurstSum(s0.out) + b.inside == s.lastBlockEnd - s0.lastBlockEnd
          <==> !WritesAgain(NewBook(s0.lastBlockEnd), Flat(batches)))
  {
    var s0 := NewState(c, emptyTask, firstIdle, initialTime);
    TimeIsAccounted(c, emptyTask, firstIdle, initialTime, batches);
    BatchesAreFlat(NewBook(s0.lastBlockEnd), batches);
    AgainAddsUp(NewBook(s0.lastBlockEnd), Flat(batches));
  }

  predicate Unnested(b: Book, rs: seq<Record>) {
    forall n :: 0 <= n < |rs| ==> NotInside(b, rs, n)
  }

  predicate NotInside(b: Book, rs: seq<Record>, n: nat)
    requires n < |rs|
  {
    var at := EnterAll(b, rs[..n]);
    at.Book? && 0 < at.depth ==> !IsMpiBegin(rs[n]) && !(rs[n].Event? && IsUser(rs[n].eventType))
  }

  /** In particular with MPI blocks that are not nested and hold no user block event. */
  lemma TimeIsConserved(c: Setup, emptyTask: bool, firstIdle: bool, initialTime: Time, batches: seq<seq<Record>>)
    requires BookOf(NewState(c, emptyTask, firstIdle, initialTime), batches).Book?
    requires OnBatches(c, NewState(c, emptyTask, firstIdle, initialTime), batches).mpiStack == []
    requires Unnested(NewBook(NewState(c, emptyTask, firstIdle, initialTime).lastBlockEnd), Flat(batches))
    ensures var s0 := NewState(c, emptyTask, firstIdle, initialTime);
      var s, b := OnBatches(c, s0, batches), BookOf(s0, batches);
      BurstSum(s.out) - BurstSum(s0.out) + b.inside == s.lastBlockEnd - s0.lastBlockEnd
  {
    var b0, rs := NewBook(NewState(c, emptyTask, firstIdle, initialTime).lastBlockEnd), Flat(batches);
    TimeIsConservedIff(c, emptyTask, firstIdle, initialTime, batches);
    forall n | 0 <= n < |rs| ensures !AgainAt(b0, rs, n) {
      assert NotInside(b0, rs, n);
    }
  }

  /** A call of time `outer` with a call of time `inner` inside. */
  function NestedCalls(outer: Time, inner: Time, innerEnd: Time, outerEnd: Time, value: int): seq<seq<Record>> {
    [[Event(outer, MPI_PTOP, value)], [Event(inner, MPI_PTOP, value)], [Event(innerEnd, MPI_PTOP, 0)],
     [Event(outerEnd, MPI_PTOP, 0)]]
  }

  lemma BookOfNestedCalls(start: Time, outer: Time, inner: Time, innerEnd: Time, outerEnd: Time, value: int)
    requires start <= outer <= inner <= innerEnd <= outerEnd && value != 0
    ensures EnterBatches(NewBook(start), NestedCalls(outer, inner, innerEnd, outerEnd, value))
         == Book(outerEnd, 0, outer, 0, outerEnd, outerEnd - outer, inner - start)
  {
    var bs := NestedCalls(outer, inner, innerEnd, outerEnd, value);
    var b1 := Book(outer, 1, outer, 0, start, 0, 0);
    var b2 := Book(inner, 2, outer, 0, start, 0, inner - start);
    var b3 := Book(innerEnd, 1, outer, 0, innerEnd, 0, inner - start);
    EnterOne(NewBook(start), bs[0][0]);
    EnterOne(b1, bs[1][0]);
    EnterOne(b2, bs[2][0]);
    EnterOne(b3, bs[3][0]);
    assert bs[..3][..2][..1] == [bs[0]] && bs[..3][..2] == [bs[0], bs[1]] && bs[..3] == [bs[0], bs[1], bs[2]];
    assert [bs[0]][..0] == [] && [bs[0], bs[1]][..1] == [bs[0]];
    assert EnterBatches(NewBook(start), [bs[0]]) == b1;
    assert EnterBatches(NewBook(start), [bs[0], bs[1]]) == b2;
    assert EnterBatches(NewBook(start), bs[..3]) == b3;
  }

  lemma EnterOne(b: Book, r: Record)
    ensures EnterAll(b, [r]) == Enter(b, r)
  {
    assert [r][..0] == [];
  }

  /** Two nested calls: the time up to the inner one is in the bursts twice. */
  lemma NestedBlocksCountTwice(c: Setup, initialTime: Time, outer: Time, inner: Time, innerEnd: Time, outerEnd: Time,
                               value: int)
    requires initialTime <= outer <= inner <= innerEnd <= outerEnd && value != 0
    ensures var s0 := NewState(c, false, false, initialTime);
      var s := OnBatches(c, s0, NestedCalls(outer, inner, innerEnd, outerEnd, value));
      BurstSum(s.out) - BurstSum(s0.out) + (outerEnd - outer) == (outerEnd - initialTime) + (inner - initialTime)
  {
    BookOfNestedCalls(initialTime, outer, inner, innerEnd, outerEnd, value);
    TimeIsAccounted(c, false, false, initialTime, NestedCalls(outer, inner, innerEnd, outerEnd, value));
  }
}
