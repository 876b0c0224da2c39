/**
 * When a wait call takes a collective although it has received a message, told from the records of a thread alone.
 */
module PrvNestedWaits {
  import opened PrvThread
  import opened PrvThreadLaws
  import opened PrvAppend
  import opened PrvCollective
  import opened PrvEndpoints
  import opened PrvWaits
  import opened PrvWatch
  import Q = PrvQueue
  import opened Sequences

  /** An MPI call that has begun and not ended, and whether it is a wait call that has received a message. */
  datatype Called = Called(call: int, received: bool)

  /**
   * What decides which wait calls take a collective: the calls under way, innermost last; whether a message was
   * received by a wait call since the last wait call began; the number of asynchronous collectives not waited for;
   * and whether some wait call that received a message took one of them.
   */
  datatype Calls = Calls(open: seq<Called>, waited: bool, inFlight: nat, both: bool)

  predicate InWait(k: Calls) { k.open != [] && k.open[|k.open| - 1].call == WAIT_CALL }

  function CallsOne(k: Calls, r: Record): Calls {
    if IsMpiBegin(r) then
      k.(open := k.open + [Called(r.value, false)], waited := k.waited && r.value != WAIT_CALL)
    else if IsMpiEnd(r) && k.open != [] then
      var takes := InWait(k) && !k.waited && 0 < k.inFlight;
      Calls(k.open[..|k.open| - 1], k.waited, if takes then k.inFlight - 1 else k.inFlight,
            k.both || (takes && k.open[|k.open| - 1].received))
    else if InWait(k) && r.Comm? && r.kind.PhysicalRecv? then
      k.(open := k.open[|k.open| - 1 := Called(WAIT_CALL, true)], waited := true)
    else k
  }

  function CallsRecords(k: Calls, rs: seq<Record>): Calls {
    if rs == [] then k else CallsOne(CallsRecords(k, rs[..|rs| - 1]), rs[|rs| - 1])
  }

  /** The last collective call of a batch is asynchronous, and an event after it gives one of its fields. */
  predicate StartsAsync(c: Setup, batch: seq<Record>) {
    exists i :: 0 <= i < |batch| && AsyncAt(c, batch, i)
  }

  predicate AsyncAt(c: Setup, batch: seq<Record>, i: nat)
    requires i < |batch|
  {
    && StartsCollective(batch[i]) && 16 < c.operationOf(batch[i].value)
    && NoneAfter(batch, i) && exists j :: i < j < |batch| && GivesField(batch[j])
  }

  predicate NoneAfter(rs: seq<Record>, i: int)
    requires -1 <= i
  {
    forall j :: i < j < |rs| ==> !StartsCollective(rs[j])
  }

  function CallsBatches(c: Setup, batches: seq<seq<Record>>): Calls {
    if batches == [] then Calls([], false, 0, false)
    else
      var batch := batches[|batches| - 1];
      var k := CallsRecords(CallsBatches(c, batches[..|batches| - 1]), batch);
      if StartsAsync(c, batch) then k.(inFlight := k.inFlight + 1) else k
  }

  // ----- the collectives that a batch puts in flight

  lemma CollectiveLeaves(c: Setup, s: State, r: Record)
    requires !s.pending && !StartsCollective(r)
    ensures !OnRecord(c, s, r).pending
  {
    if r.Comm? {
      CommLeaves(c, s, r);
    } else if !IsPseudo(r.eventType) {
      var s1 := WithCollective(c, s, r.eventType, r.value);
      assert s1 == s;
      WritingLeaves(c, s1, r.time, r.eventType, r.value);
    }
  }

  lemma {:induction false} NothingPending(c: Setup, s: State, rs: seq<Record>)
    requires !s.pending && forall r :: r in rs ==> !StartsCollective(r)
    ensures !OnRecords(c, s, rs).pending
  {
    if rs != [] {
      var n := |rs| - 1;
      NothingPending(c, s, rs[..n]);
      CollectiveLeaves(c, OnRecords(c, s, rs[..n]), rs[n]);
    }
  }

  /** Where the last collective call of a batch stands. */
  lemma {:induction false} LastCollective(rs: seq<Record>) returns (i: int)
    ensures -1 <= i < |rs| && (0 <= i ==> StartsCollective(rs[i])) && NoneAfter(rs, i)
  {
    if rs == [] {
      i := -1;
    } else {
      var n := |rs| - 1;
      if StartsCollective(rs[n]) {
        i := n;
      } else {
        i := LastCollective(rs[..n]);
      }
    }
  }

  /** A batch puts in flight the collective that it starts, if that is asynchronous and has a field. */
  lemma BatchPutsInFlight(c: Setup, s: State, batch: seq<Record>)
    requires !s.pending
    ensures var s1 := OnRecords(c, s, batch);
      && !EndBatch(s1).pending
      && |EndBatch(s1).inFlight| == |s1.inFlight| + if StartsAsync(c, batch) then 1 else 0
  {
    var i := LastCollective(batch);
    BatchEndWaiting(OnRecords(c, s, batch));
    if i < 0 {
      NothingPending(c, s, batch);
    } else {
      StartedAt(c, s, batch, i);
      OnlyAt(c, batch, i);
    }
  }

  lemma OnlyAt(c: Setup, batch: seq<Record>, i: nat)
    requires i < |batch| && StartsCollective(batch[i]) && NoneAfter(batch, i)
    ensures StartsAsync(c, batch) <==> AsyncAt(c, batch, i)
  {
    if StartsAsync(c, batch) {
      var j :| 0 <= j < |batch| && AsyncAt(c, batch, j);
      assert j == i;
    }
  }

  lemma StartedAt(c: Setup, s: State, batch: seq<Record>, i: nat)
    requires i < |batch| && StartsCollective(batch[i]) && NoneAfter(batch, i)
    ensures var s1 := OnRecords(c, s, batch);
      s1.pending && (2 <= s1.fields && IsAsync(s1.partial) <==> AsyncAt(c, batch, i))
  {
    AtApart(batch, i);
    StartedBetween(c, s, batch[..i], batch[i], batch[i + 1..]);
    FieldAfter(batch, i);
  }

  lemma FieldAfter(batch: seq<Record>, i: nat)
    requires i < |batch|
    ensures var rs := batch[i + 1..];
      (exists r :: r in rs && GivesField(r)) <==> (exists j :: i < j < |batch| && GivesField(batch[j]))
  {
    var rs := batch[i + 1..];
    if exists j :: i < j < |batch| && GivesField(batch[j]) {
      var j :| i < j < |batch| && GivesField(batch[j]);
      assert rs[j - i - 1] == batch[j];
    }
    if exists r :: r in rs && GivesField(r) {
      var k :| 0 <= k < |rs| && GivesField(rs[k]);
      assert batch[i + 1 + k] == rs[k];
    }
  }

  lemma StartedBetween(c: Setup, s: State, front: seq<Record>, call: Record, rs: seq<Record>)
    requires StartsCollective(call) && forall r :: r in rs ==> !StartsCollective(r)
    ensures var s1 := OnRecords(c, s, front + [call] + rs);
      && s1.pending && s1.partial.operation == c.operationOf(call.value)
      && (2 <= s1.fields <==> exists r :: r in rs && GivesField(r))
  {
    WithoutLast(front, call);
    StartOne(c, OnRecords(c, s, front), call);
    GatheredFrom(c, OnRecords(c, s, front + [call]), call.value, rs);
    RecordsInTwo(c, s, front + [call], rs);
    SomeField(rs);
  }

  // ----- the calls and the state

  predicate Follows(k: Calls, s: State) {
    && |k.open| == |s.mpiStack| && k.waited == s.waitWithComm && k.inFlight == |s.inFlight|
    && forall d :: 0 <= d < |k.open| ==> k.open[d].call == s.mpiStack[d].value
  }

  lemma InnermostFollows(k: Calls, s: State)
    requires Follows(k, s)
    ensures InWait(k) <==> s.mpiStack != [] && s.mpiStack[|s.mpiStack| - 1].value == WAIT_CALL
  {
  }

  lemma FollowsOne(c: Setup, s: State, k: Calls, r: Record)
    requires WaitIsCallFive(c) && Follows(k, s)
    ensures Follows(CallsOne(k, r), OnRecord(c, s, r))
  {
    RecordWaiting(c, s, r);
    InnermostFollows(k, s);
    FollowsStack(s, k, r);
    FollowsFlag(c, s, k, r);
  }

  lemma FollowsStack(s: State, k: Calls, r: Record)
    requires Follows(k, s)
    ensures var stack, open := StackAfter(s.mpiStack, r), CallsOne(k, r).open;
      |open| == |stack| && forall d :: 0 <= d < |open| ==> open[d].call == stack[d].value
  {
  }

  lemma FollowsFlag(c: Setup, s: State, k: Calls, r: Record)
    requires WaitIsCallFive(c) && Follows(k, s)
    ensures CallsOne(k, r).waited == WaitedAfter(c, s, r) && CallsOne(k, r).inFlight == |InFlightAfter(s, r)|
  {
    InnermostFollows(k, s);
  }

  // ----- the calls and the output

  predicate Watched(w: Watch, k: Calls) {
    && |w.open| == |k.open| && !w.taken && w.both == k.both
    && forall d :: 0 <= d < |k.open| ==> w.open[d].call == k.open[d].call && w.open[d].own == k.open[d].received
  }

  predicate Silent(w: Watch, r: Out) { !MpiBegins(r) && !MpiEnds(r) && !r.CollectiveWait? && !WaitsOn(w, r) }

  lemma {:induction false} WatchSilently(out: seq<Out>, more: seq<Out>)
    requires !WatchAll(out).taken && forall r :: r in more ==> Silent(WatchAll(out), r)
    ensures WatchAll(out + more) == WatchAll(out)
  {
    if more == [] {
      assert out + more == out;
    } else {
      var n := |more| - 1;
      WatchSilently(out, more[..n]);
      LastApart(out, more);
      WatchMore(out + more[..n], more[n]);
      SilentOne(WatchAll(out), |out + more[..n]|, more[n]);
    }
  }

  lemma SilentOne(w: Watch, n: nat, r: Out)
    requires !w.taken && Silent(w, r)
    ensures WatchOne(w, n, r) == w
  {
  }

  lemma InnermostWatched(w: Watch, k: Calls)
    requires Watched(w, k)
    ensures InWait(k) <==> w.open != [] && w.open[|w.open| - 1].call == WAIT_CALL
    ensures w.open != [] ==> (w.open[|w.open| - 1].own <==> k.open[|k.open| - 1].received)
  {
  }

  lemma BeginWatched(s: State, k: Calls, e: Record)
    requires Watched(WatchAll(s.out), k) && IsMpiBegin(e)
    ensures Watched(WatchAll(s.out + (BurstUpTo(s, e.time) + [BlockBegin(e.eventType, e.value)])), CallsOne(k, e))
  {
    var burst, begin := BurstUpTo(s, e.time), BlockBegin(e.eventType, e.value);
    WatchSilently(s.out, burst);
    WatchThen(s.out, burst, begin);
    BeginOne(WatchAll(s.out), k, |s.out + burst|, begin, e);
  }

  lemma WatchThen(out: seq<Out>, more: seq<Out>, r: Out)
    ensures WatchAll(out + (more + [r])) == WatchOne(WatchAll(out + more), |out + more|, r)
  {
    assert out + (more + [r]) == out + more + [r];
    WatchMore(out + more, r);
  }

  lemma BeginOne(w: Watch, k: Calls, n: nat, r: Out, e: Record)
    requires Watched(w, k) && MpiBegins(r) && IsMpiBegin(e) && r.value == e.value
    ensures Watched(WatchOne(w, n, r), CallsOne(k, e))
  {
  }

  lemma WaitWatched(out: seq<Out>, wait: seq<Out>)
    requires !WatchAll(out).taken && |wait| <= 1 && forall r :: r in wait ==> r.CollectiveWait?
    ensures WatchAll(out + wait) == WatchAll(out).(taken := wait != [])
  {
    if wait != [] {
      assert wait == [wait[0]] && wait[0] in wait;
      WatchMore(out, wait[0]);
    } else {
      assert out + wait == out;
    }
  }

  lemma NoopWatched(out: seq<Out>, noop: seq<Out>)
    requires noop == [] || noop == [Noop]
    ensures WatchAll(out + noop) == WatchAll(out)
  {
    if noop != [] {
      WatchMore(out, Noop);
    } else {
      assert out + noop == out;
    }
  }

  /** A closing is watched as taking a collective exactly when one is written. */
  lemma ClosingWatched(out: seq<Out>, barrier: seq<Out>, wait: seq<Out>, noop: seq<Out>)
    requires !WatchAll(out).taken && (barrier == [] || barrier == [InitBarrier]) && (noop == [] || noop == [Noop])
    requires |wait| <= 1 && forall r :: r in wait ==> r.CollectiveWait?
    ensures WatchAll(out + (barrier + wait + noop)) == WatchAll(out).(taken := wait != [])
  {
    WatchSilently(out, barrier);
    WaitWatched(out + barrier, wait);
    NoopWatched(out + barrier + wait, noop);
    Together(out, barrier, wait, noop);
  }

  lemma EndWatched(c: Setup, s: State, k: Calls, e: Record)
    requires Follows(k, s) && Watched(WatchAll(s.out), k) && IsMpiEnd(e) && s.mpiStack != []
    ensures Watched(WatchAll(s.out + MpiAdds(c, s, e.time, e.eventType, 0)), CallsOne(k, e))
  {
    var value := s.mpiStack[|s.mpiStack| - 1].value;
    var barrier, wait, noop := BarrierOf(c, value), TakenBy(s, value), NoopOf(c, s, value);
    var w := WatchAll(s.out);
    ClosingWatched(s.out, barrier, wait, noop);
    var out := s.out + (barrier + wait + noop);
    WatchMore(out, BlockEnd(e.eventType));
    assert s.out + (barrier + wait + noop + [BlockEnd(e.eventType)]) == out + [BlockEnd(e.eventType)];
    InnermostFollows(k, s);
    InnermostWatched(w, k);
    EndOne(w, k, |out|, BlockEnd(e.eventType), wait != [], e);
  }

  lemma EndOne(w: Watch, k: Calls, n: nat, r: Out, takes: bool, e: Record)
    requires Watched(w, k) && MpiEnds(r) && IsMpiEnd(e) && k.open != []
    requires takes <==> InWait(k) && !k.waited && 0 < k.inFlight
    ensures Watched(WatchOne(w.(taken := takes), n, r), CallsOne(k, e))
  {
    InnermostWatched(w, k);
  }

  lemma CommWatched(c: Setup, s: State, k: Calls, r: Record)
    requires WaitIsCallFive(c) && Follows(k, s) && Watched(WatchAll(s.out), k) && r.Comm?
    ensures Watched(WatchAll(s.out + CommAdds(c, s, r)), CallsOne(k, r))
  {
    InnermostFollows(k, s);
    if ActionFor(c, s, r).Print? {
      PrintWatched(c, s, k, r);
    } else {
      assert s.out + CommAdds(c, s, r) == s.out;
    }
  }

  lemma PrintWatched(c: Setup, s: State, k: Calls, r: Record)
    requires Watched(WatchAll(s.out), k) && r.Comm? && ActionFor(c, s, r).Print?
    ensures Watched(WatchAll(s.out + CommAdds(c, s, r)), CallsOne(k, r))
  {
    var op, pseudo := ActionFor(c, s, r).op, PseudoEvents(s, Partner(c, r), r);
    var p2p := PointToPoint(op, Partner(c, r), r.size, r.tag, r.commId);
    WatchSilently(s.out, pseudo);
    WatchThen(s.out, pseudo, p2p);
    EndpointKeepsSide(c.callOf(s.mpiStack[|s.mpiStack| - 1].value), r.kind);
    ReceiveOne(WatchAll(s.out), k, |s.out + pseudo|, p2p, r);
  }

  lemma ReceiveOne(w: Watch, k: Calls, n: nat, p2p: Out, r: Record)
    requires Watched(w, k) && p2p.PointToPoint? && r.Comm? && (p2p.op.NxWait? <==> r.kind.PhysicalRecv?)
    ensures Watched(WatchOne(w, n, p2p), CallsOne(k, r))
  {
    InnermostWatched(w, k);
  }

  lemma EventWatched(c: Setup, s: State, k: Calls, e: Record)
    requires Follows(k, s) && Watched(WatchAll(s.out), k) && e.Event?
    ensures Watched(WatchAll(s.out + Adds(c, s, e)), CallsOne(k, e))
  {
    if IsMpiBegin(e) {
      BeginWatched(s, k, e);
    } else if IsMpiEnd(e) && s.mpiStack != [] {
      EndWatched(c, s, k, e);
    } else {
      OthersSilent(c, s, e);
      WatchSilently(s.out, Adds(c, s, e));
    }
  }

  lemma OthersSilent(c: Setup, s: State, e: Record)
    requires e.Event? && !IsMpiBegin(e) && (IsMpiEnd(e) ==> s.mpiStack == [])
    ensures forall r :: r in Adds(c, s, e) ==> Silent(WatchAll(s.out), r)
  {
  }

  // ----- every run

  predicate Reflects(k: Calls, s: State) { Follows(k, s) && Watched(WatchAll(s.out), k) }

  lemma {:induction false} ReflectsRecords(c: Setup, s: State, k: Calls, rs: seq<Record>)
    requires WaitIsCallFive(c) && Reflects(k, s)
    ensures Reflects(CallsRecords(k, rs), OnRecords(c, s, rs))
  {
    if rs != [] {
      var n := |rs| - 1;
      var s', k', r := OnRecords(c, s, rs[..n]), CallsRecords(k, rs[..n]), rs[n];
      ReflectsRecords(c, s, k, rs[..n]);
      FollowsOne(c, s', k', r);
      RecordAppends(c, s', r);
      if r.Comm? {
        CommWatched(c, s', k', r);
      } else {
        EventWatched(c, s', k', r);
      }
    }
  }

  lemma {:induction false} ReflectsBatches(c: Setup, s: State, batches: seq<seq<Record>>)
    requires WaitIsCallFive(c) && Reflects(Calls([], false, 0, false), s) && !s.pending
    ensures var s' := OnBatches(c, s, batches);
      Reflects(CallsBatches(c, batches), s') && !s'.pending
  {
    if batches != [] {
      var n := |batches| - 1;
      var before, k, batch := OnBatches(c, s, batches[..n]), CallsBatches(c, batches[..n]), batches[n];
      ReflectsBatches(c, s, batches[..n]);
      ReflectsRecords(c, before, k, batch);
      var s1 := OnRecords(c, before, batch);
      BatchPutsInFlight(c, before, batch);
      BatchEndWaiting(s1);
      BatchEndAppends(s1);
      WatchSilently(s1.out, EndAdds(s1));
    }
  }

  /**
   * In every run some wait block takes a collective after a point-to-point wait of its own exactly when, by the
   * records alone, a wait call that received a message ends while the flag is clear and a collective is in flight.
   */
  lemma SomeWaitForBothIff(c: Setup, emptyTask: bool, firstIdle: bool, initialTime: Time, batches: seq<seq<Record>>)
    requires WaitIsCallFive(c)
    ensures SomeBoth(OnBatches(c, NewState(c, emptyTask, firstIdle, initialTime), batches).out)
        <==> CallsBatches(c, batches).both
  {
    var s := NewState(c, emptyTask, firstIdle, initialTime);
    WatchSilently([], s.out);
    assert [] + s.out == s.out;
    ReflectsBatches(c, s, batches);
    BothIsWatched(OnBatches(c, s, batches).out);
  }

  // ----- wait calls that do not nest

  predicate NoNestedWaits(rs: seq<Record>) {
    forall j :: 0 <= j < |rs| && IsMpiBegin(rs[j]) && rs[j].value == WAIT_CALL ==> NoWaitOpen(OpenAfter(rs[..j]))
  }

  predicate NoWaitOpen(stack: seq<Block>) { forall d :: 0 <= d < |stack| ==> stack[d].value != WAIT_CALL }

  /** Who has received a message is a wait call, and the flag is set. */
  predicate ReceivedIsWaited(k: Calls, stack: seq<Block>) {
    && |k.open| == |stack| && !k.both
    && forall d :: 0 <= d < |stack| ==>
         k.open[d].call == stack[d].value && (k.open[d].received ==> k.waited && k.open[d].call == WAIT_CALL)
  }

  lemma OneUnnested(k: Calls, stack: seq<Block>, r: Record)
    requires ReceivedIsWaited(k, stack)
    requires IsMpiBegin(r) && r.value == WAIT_CALL ==> NoWaitOpen(stack)
    ensures ReceivedIsWaited(CallsOne(k, r), StackAfter(stack, r))
  {
  }

  lemma {:induction false} RecordsUnnested(k: Calls, before: seq<Record>, rs: seq<Record>)
    requires ReceivedIsWaited(k, OpenAfter(before)) && NoNestedWaits(before + rs)
    ensures ReceivedIsWaited(CallsRecords(k, rs), OpenAfter(before + rs))
  {
    if rs == [] {
      assert before + rs == before;
    } else {
      var n := |rs| - 1;
      var all := before + rs[..n];
      LastApart(before, rs);
      WithoutLast(all, rs[n]);
      PrefixUnnested(before + rs, |all|);
      RecordsUnnested(k, before, rs[..n]);
      if IsMpiBegin(rs[n]) && rs[n].value == WAIT_CALL {
        LastUnnested(all, rs[n]);
      }
      OneUnnested(CallsRecords(k, rs[..n]), OpenAfter(all), rs[n]);
    }
  }

  lemma LastUnnested(rs: seq<Record>, r: Record)
    requires NoNestedWaits(rs + [r]) && IsMpiBegin(r) && r.value == WAIT_CALL
    ensures NoWaitOpen(OpenAfter(rs))
  {
    WithoutLast(rs, r);
  }

  lemma PrefixUnnested(rs: seq<Record>, n: nat)
    requires n <= |rs| && NoNestedWaits(rs)
    ensures NoNestedWaits(rs[..n])
  {
    forall j | 0 <= j < n ensures rs[..n][..j] == rs[..j] {
    }
  }

  lemma {:induction false} BatchesUnnested(c: Setup, batches: seq<seq<Record>>)
    requires NoNestedWaits(Q.Flat(batches))
    ensures ReceivedIsWaited(CallsBatches(c, batches), OpenAfter(Q.Flat(batches)))
  {
    if batches != [] {
      var n := |batches| - 1;
      var front := Q.Flat(batches[..n]);
      assert (front + batches[n])[..|front|] == front;
      PrefixUnnested(front + batches[n], |front|);
      BatchesUnnested(c, batches[..n]);
      RecordsUnnested(CallsBatches(c, batches[..n]), front, batches[n]);
    }
  }

  /** When no wait call begins inside another, no wait block that has a point-to-point wait takes a collective. */
  lemma UnnestedWaitsForOne(c: Setup, emptyTask: bool, firstIdle: bool, initialTime: Time, batches: seq<seq<Record>>,
                            e: nat, i: nat)
    requires WaitIsCallFive(c) && NoNestedWaits(Q.Flat(batches))
    requires EndsWaitBlock(OnBatches(c, NewState(c, emptyTask, firstIdle, initialTime), batches).out, e, i)
    ensures !WaitsForBoth(OnBatches(c, NewState(c, emptyTask, firstIdle, initialTime), batches).out, e, i)
  {
    var out := OnBatches(c, NewState(c, emptyTask, firstIdle, initialTime), batches).out;
    BatchesUnnested(c, batches);
    SomeWaitForBothIff(c, emptyTask, firstIdle, initialTime, batches);
    assert !BothAt(out, e, i);
  }

  // ----- wait calls that do

  lemma OneRecordBatch(c: Setup, batches: seq<seq<Record>>, r: Record)
    ensures CallsBatches(c, batches + [[r]]) == CallsOne(CallsBatches(c, batches), r)
  {
    var k := CallsBatches(c, batches);
    assert (batches + [[r]])[..|batches|] == batches;
    assert [r][..0] == [] && CallsRecords(k, [r]) == CallsOne(CallsRecords(k, []), r);
  }

  /** An asynchronous collective: the call with one of its fields, and its end. */
  function AsyncCall(v: int, comm: int, begin: Time, end: Time): seq<seq<Record>> {
    [AsyncBegin(v, comm, begin), [Event(end, MPI_COLLECTIVE, 0)]]
  }

  function AsyncBegin(v: int, comm: int, time: Time): seq<Record> {
    [Event(time, MPI_COLLECTIVE, v), Event(time, OP_COMM, comm)]
  }

  lemma AsyncCallInFlight(c: Setup, batches: seq<seq<Record>>, v: int, comm: int, begin: Time, end: Time)
    requires v != 0 && v != WAIT_CALL && 16 < c.operationOf(v)
    requires CallsBatches(c, batches).open == []
    ensures var k := CallsBatches(c, batches);
      CallsBatches(c, batches + AsyncCall(v, comm, begin, end)) == k.(inFlight := k.inFlight + 1)
  {
    var k := CallsBatches(c, batches);
    var call, field := Event(begin, MPI_COLLECTIVE, v), Event(begin, OP_COMM, comm);
    var k1 := CallsBatches(c, batches + [[call, field]]);
    assert k1 == k.(open := [Called(v, false)], inFlight := k.inFlight + 1) by {
      assert (batches + [[call, field]])[..|batches|] == batches;
      assert [call, field][..1] == [call] && [call][..0] == [];
      assert CallsRecords(k, [call, field]) == CallsOne(CallsOne(CallsRecords(k, []), call), field);
      assert AsyncAt(c, [call, field], 0);
    }
    assert batches + AsyncCall(v, comm, begin, end) == batches + [[call, field]] + [[Event(end, MPI_COLLECTIVE, 0)]];
    OneRecordBatch(c, batches + [[call, field]], Event(end, MPI_COLLECTIVE, 0));
  }

  /** A wait call that receives a message, with another wait call inside it. */
  function NestedWait(r: Record, begin: Time, inner: Time, innerEnd: Time, end: Time): seq<seq<Record>> {
    [[Event(begin, MPI_PTOP, WAIT_CALL)]] + [[r]] + [[Event(inner, MPI_PTOP, WAIT_CALL)]]
    + [[Event(innerEnd, MPI_PTOP, 0)]] + [[Event(end, MPI_PTOP, 0)]]
  }

  lemma NestedWaitCalls(c: Setup, batches: seq<seq<Record>>, r: Record,
                        begin: Time, inner: Time, innerEnd: Time, end: Time)
    requires CallsBatches(c, batches).open == [] && 2 <= CallsBatches(c, batches).inFlight
    requires r.Comm? && r.kind.PhysicalRecv?
    ensures CallsBatches(c, batches + NestedWait(r, begin, inner, innerEnd, end)).both
  {
    var wait, end1, end2 := Event(begin, MPI_PTOP, WAIT_CALL), Event(innerEnd, MPI_PTOP, 0), Event(end, MPI_PTOP, 0);
    var a := batches + [[wait]];
    var b := a + [[r]];
    var d := b + [[Event(inner, MPI_PTOP, WAIT_CALL)]];
    WaitReceives(c, batches, wait, r, Event(inner, MPI_PTOP, WAIT_CALL));
    OneRecordBatch(c, d, end1);
    OneRecordBatch(c, d + [[end1]], end2);
    InnerThenOuter(CallsBatches(c, d), end1, end2);
    assert batches + NestedWait(r, begin, inner, innerEnd, end) == d + [[end1]] + [[end2]];
  }

  lemma WaitReceives(c: Setup, batches: seq<seq<Record>>, wait: Record, r: Record, inner: Record)
    requires CallsBatches(c, batches).open == [] && IsMpiBegin(wait) && wait.value == WAIT_CALL
    requires IsMpiBegin(inner) && inner.value == WAIT_CALL && r.Comm? && r.kind.PhysicalRecv?
    ensures var k, k' := CallsBatches(c, batches), CallsBatches(c, batches + [[wait]] + [[r]] + [[inner]]);
      && k'.open == [Called(WAIT_CALL, true), Called(WAIT_CALL, false)] && !k'.waited
      && k'.inFlight == k.inFlight
  {
    OneRecordBatch(c, batches, wait);
    OneRecordBatch(c, batches + [[wait]], r);
    OneRecordBatch(c, batches + [[wait]] + [[r]], inner);
  }

  lemma InnerThenOuter(k: Calls, inner: Record, outer: Record)
    requires k.open == [Called(WAIT_CALL, true), Called(WAIT_CALL, false)] && !k.waited && 2 <= k.inFlight
    requires IsMpiEnd(inner) && IsMpiEnd(outer)
    ensures CallsOne(CallsOne(k, inner), outer).both
  {
    assert CallsOne(k, inner).open == [Called(WAIT_CALL, true)];
  }

  function TwoCollectivesAndNestedWait(v: int, comm: int, r: Record, t: seq<Time>): seq<seq<Record>>
    requires |t| == 9
  {
    AsyncCall(v, comm, t[0], t[1]) + AsyncCall(v, comm, t[2], t[3]) + NestedWait(r, t[4], t[6], t[7], t[8])
  }

  lemma TheyComeInBatches(sort: Q.Sort, v: int, comm: int, r: Record, t: seq<Time>)
    requires |t| == 9 && (forall i :: 0 < i < 9 ==> t[i - 1] < t[i]) && r.time == t[5]
    requires forall inBlock, n | 0 <= n < 9 :: sort(inBlock, AsyncBegin(v, comm, t[n])) == AsyncBegin(v, comm, t[n])
    ensures Q.Separate(sort, TwoCollectivesAndNestedWait(v, comm, r, t))
  {
    var bs := TwoCollectivesAndNestedWait(v, comm, r, t);
    assert |bs| == 9 && bs[0] == AsyncBegin(v, comm, t[0]) && bs[2] == AsyncBegin(v, comm, t[2]);
    forall k | 0 <= k < 9
      ensures Q.Settled(sort, bs[k])
      ensures bs[k][0].time == t[k]
    {
    }
  }

  /**
   * A failing run: with two asynchronous collectives in flight, a wait call that receives a message and has another
   * wait call inside takes a collective as well.  Each record has a later time than the one before, except that a
   * collective comes with its communicator; the sorts leave these two as they are.
   */
  lemma NestedWaitTakesBoth(c: Setup, emptyTask: bool, firstIdle: bool, initialTime: Time,
                            sort: Q.Sort, v: int, comm: int, r: Record, t: seq<Time>)
    requires WaitIsCallFive(c) && v != 0 && v != WAIT_CALL && 16 < c.operationOf(v)
    requires |t| == 9 && (forall i :: 0 < i < 9 ==> t[i - 1] < t[i])
    requires r.Comm? && r.kind.PhysicalRecv? && r.time == t[5]
    requires forall inBlock, n | 0 <= n < 9 :: sort(inBlock, AsyncBegin(v, comm, t[n])) == AsyncBegin(v, comm, t[n])
    ensures var s, rs :=
        NewState(c, emptyTask, firstIdle, initialTime), Q.Flat(TwoCollectivesAndNestedWait(v, comm, r, t));
      SomeBoth(OnBatches(c, s, Q.Finished(Q.InsideOf(c, s), sort, rs).batches).out)
  {
    var s, batches := NewState(c, emptyTask, firstIdle, initialTime), TwoCollectivesAndNestedWait(v, comm, r, t);
    var first, second := AsyncCall(v, comm, t[0], t[1]), AsyncCall(v, comm, t[2], t[3]);
    assert [] + first == first;
    AsyncCallInFlight(c, [], v, comm, t[0], t[1]);
    AsyncCallInFlight(c, first, v, comm, t[2], t[3]);
    NestedWaitCalls(c, first + second, r, t[4], t[6], t[7], t[8]);
    SomeWaitForBothIff(c, emptyTask, firstIdle, initialTime, batches);
    TheyComeInBatches(sort, v, comm, r, t);
    Q.FinishedInBatches(Q.InsideOf(c, s), sort, batches);
  }
}
