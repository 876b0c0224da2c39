/** Where no-operations are written: only at the end of MPI blocks, and only where nothing else was. */
module PrvNoops {
  import opened PrvSplit
  import opened PrvThread
  import opened PrvThreadLaws
  import opened PrvAppend
  import opened PrvWaits
  import opened Sequences

  /** Calls that send one message; a wait inside is for its completion. */
  predicate IsSending(call: Call) { call.SendCall? || call.ImmediateSendCall? || call.ReadySendCall? }

  /** The innermost MPI block open at `k` is that of a sending call. */
  predicate InSending(c: Setup, out: seq<Out>, k: nat)
    requires k <= |out|
  {
    var at := Open(out[..k]);
    at != [] && out[at[|at| - 1]].BlockBegin? && IsSending(c.callOf(out[at[|at| - 1]].value))
  }

  /** At `k` stands a barrier of MPI_Init, or a point-to-point record other than a wait inside a sending call. */
  predicate WorksAt(c: Setup, out: seq<Out>, k: nat)
    requires k < |out|
  {
    out[k].InitBarrier? || (out[k].PointToPoint? && !(out[k].op.NxWait? && InSending(c, out, k)))
  }

  /** Such a record stands before `e`, and no MPI block has begun since. */
  ghost predicate WorkSinceBegin(c: Setup, out: seq<Out>, e: nat)
    requires e <= |out|
  {
    exists k :: 0 <= k < e && WorksAt(c, out, k) && NoBeginBetween(out, k, e)
  }

  predicate NoBeginBetween(out: seq<Out>, k: nat, e: nat)
    requires e <= |out|
  {
    forall b :: k < b < e ==> !MpiBegins(out[b])
  }

  // ----- step by step

  function Worked(c: Setup, out: seq<Out>): bool {
    if out == [] || MpiBegins(out[|out| - 1]) then false
    else WorksAt(c, out, |out| - 1) || Worked(c, out[..|out| - 1])
  }

  lemma WorkedMore(c: Setup, out: seq<Out>, r: Out)
    ensures Worked(c, out + [r]) == (!MpiBegins(r) && (WorksAt(c, out + [r], |out|) || Worked(c, out)))
  {
    WithoutLast(out, r);
  }

  lemma WorksAtPrefix(c: Setup, out: seq<Out>, n: nat, k: nat)
    requires k < n <= |out|
    ensures WorksAt(c, out[..n], k) <==> WorksAt(c, out, k)
  {
    assert out[..n][..k] == out[..k];
  }

  lemma WorkSincePrefix(c: Setup, out: seq<Out>, n: nat, e: nat)
    requires e <= n <= |out|
    ensures WorkSinceBegin(c, out[..n], e) <==> WorkSinceBegin(c, out, e)
  {
    forall k | 0 <= k < e
      ensures WorksAt(c, out[..n], k) <==> WorksAt(c, out, k)
      ensures NoBeginBetween(out[..n], k, e) <==> NoBeginBetween(out, k, e)
    {
      WorksAtPrefix(c, out, n, k);
      SameBegins(out, n, k, e);
    }
  }

  lemma SameBegins(out: seq<Out>, n: nat, k: nat, e: nat)
    requires e <= n <= |out|
    ensures NoBeginBetween(out[..n], k, e) <==> NoBeginBetween(out, k, e)
  {
    forall b | k < b < e ensures out[..n][b] == out[b] {
    }
  }

  lemma {:induction false} WorkedIff(c: Setup, out: seq<Out>)
    ensures Worked(c, out) <==> WorkSinceBegin(c, out, |out|)
  {
    if out != [] {
      var n := |out| - 1;
      WorkedIff(c, out[..n]);
      WorkSincePrefix(c, out, n, n);
      WorkSinceMore(c, out);
    }
  }

  lemma WorkSinceMore(c: Setup, out: seq<Out>)
    requires out != []
    ensures var n := |out| - 1;
      WorkSinceBegin(c, out, n + 1) <==> !MpiBegins(out[n]) && (WorksAt(c, out, n) || WorkSinceBegin(c, out, n))
  {
    var n := |out| - 1;
    if WorkSinceBegin(c, out, n + 1) {
      var k :| 0 <= k < n + 1 && WorksAt(c, out, k) && NoBeginBetween(out, k, n + 1);
      assert k < n ==> NoBeginBetween(out, k, n);
    }
    if !MpiBegins(out[n]) && WorkSinceBegin(c, out, n) {
      var k :| 0 <= k < n && WorksAt(c, out, k) && NoBeginBetween(out, k, n);
      assert NoBeginBetween(out, k, n + 1);
    }
    if !MpiBegins(out[n]) && WorksAt(c, out, n) {
      assert NoBeginBetween(out, n, n + 1);
    }
  }

  /** A no-operation stands before the end of an MPI block if nothing else does, and nowhere else. */
  predicate RightAt(c: Setup, out: seq<Out>, e: nat)
    requires e < |out|
  {
    && (MpiEnds(out[e]) ==> ((0 < e && out[e - 1].Noop?) <==> !Worked(c, out[..e])))
    && (out[e].Noop? ==> e + 1 < |out| && MpiEnds(out[e + 1]))
  }

  predicate NoopsRight(c: Setup, out: seq<Out>) { forall e :: 0 <= e < |out| ==> RightAt(c, out, e) }

  lemma RightAtMore(c: Setup, out: seq<Out>, r: Out, e: nat)
    requires e < |out| && RightAt(c, out, e)
    ensures RightAt(c, out + [r], e)
  {
    assert (out + [r])[..e] == out[..e];
  }

  lemma RightMore(c: Setup, out: seq<Out>, r: Out)
    requires NoopsRight(c, out) && !r.Noop? && !MpiEnds(r)
    ensures NoopsRight(c, out + [r])
  {
    forall e | 0 <= e < |out| + 1 ensures RightAt(c, out + [r], e) {
      if e < |out| {
        RightAtMore(c, out, r, e);
      }
    }
  }

  /** The end of a block in which something was written. */
  lemma RightEnd(c: Setup, out: seq<Out>, r: Out)
    requires NoopsRight(c, out) && MpiEnds(r) && Worked(c, out)
    ensures NoopsRight(c, out + [r])
  {
    var all := out + [r];
    assert all[..|out|] == out;
    if out != [] {
      assert RightAt(c, out, |out| - 1);
    }
    forall e | 0 <= e < |all| ensures RightAt(c, all, e) {
      if e < |out| {
        RightAtMore(c, out, r, e);
      }
    }
  }

  /** The end of a block in which nothing was. */
  lemma RightNoopEnd(c: Setup, out: seq<Out>, r: Out)
    requires NoopsRight(c, out) && MpiEnds(r) && !Worked(c, out)
    ensures NoopsRight(c, out + [Noop] + [r])
  {
    var all := out + [Noop] + [r];
    WorkedMore(c, out, Noop);
    assert all[..|out| + 1] == out + [Noop];
    forall e | 0 <= e < |all| ensures RightAt(c, all, e) {
      if e < |out| {
        RightAtMore(c, out, Noop, e);
        RightAtMore(c, out + [Noop], r, e);
      }
    }
  }

  // ----- records that neither work nor begin or end

  predicate Idle(r: Out) {
    !MpiBegins(r) && !MpiEnds(r) && !r.Noop? && !r.InitBarrier? && !r.PointToPoint?
  }

  lemma {:induction false} IdleTail(c: Setup, out: seq<Out>, more: seq<Out>)
    requires forall r :: r in more ==> Idle(r)
    ensures Worked(c, out + more) == Worked(c, out) && Open(out + more) == Open(out)
    ensures NoopsRight(c, out) ==> NoopsRight(c, out + more)
  {
    if more == [] {
      assert out + more == out;
    } else {
      var n := |more| - 1;
      IdleTail(c, out, more[..n]);
      LastApart(out, more);
      assert more[n] in more;
      IdleMore(c, out + more[..n], more[n]);
    }
  }

  lemma IdleMore(c: Setup, out: seq<Out>, r: Out)
    requires Idle(r)
    ensures Worked(c, out + [r]) == Worked(c, out) && Open(out + [r]) == Open(out)
    ensures NoopsRight(c, out) ==> NoopsRight(c, out + [r])
  {
    WithoutLast(out, r);
    if NoopsRight(c, out) {
      RightMore(c, out, r);
    }
  }

  // ----- the flag of the translator

  lemma OpenPrinted(c: Setup, s: State, time: Time, t: int, v: int)
    requires v != 0
    ensures !MpiEvent(c, s, time, t, v).printed
  {
  }

  lemma ClosePrinted(c: Setup, s: State, time: Time, t: int)
    requires s.mpiStack != []
    ensures CloseMpi(c, s, time, t).printed == (s.printed || BarrierOf(c, s.mpiStack[|s.mpiStack| - 1].value) != [])
  {
    var value := s.mpiStack[|s.mpiStack| - 1].value;
    BarrierAppends(c, s, value);
    WaitAppends(AfterBarrier(c, s, value), value);
    NoopPrinted(AfterWait(AfterBarrier(c, s, value), value));
  }

  lemma NoopPrinted(s: State)
    ensures AfterNoop(s).printed == s.printed
  {
  }

  lemma UserPrinted(s: State, time: Time, t: int, v: int)
    ensures UserBlockEvent(s, time, t, v).printed == s.printed
  {
    UpToPrinted(s, time);
    UpToAppends(s, time);
    if v != 0 {
      UserOpenPrinted(UpTo(s, time), time, t, v);
    } else if s.userStack != [] {
      UserClosePrinted(UpTo(s, time), time, t);
    }
  }

  lemma UpToPrinted(s: State, time: Time)
    ensures UpTo(s, time).printed == s.printed
  {
  }

  lemma UserOpenPrinted(s: State, time: Time, t: int, v: int)
    ensures OpenUser(s, time, t, v).printed == s.printed
  {
  }

  lemma UserClosePrinted(s: State, time: Time, t: int)
    requires s.userStack != []
    ensures CloseUser(s, time, t).printed == s.printed
  {
  }

  lemma GenericPrinted(s: State, time: Time, t: int, v: int)
    ensures GenericEvent(s, time, t, v).printed == s.printed
  {
  }

  predicate NeitherBeginsNorEnds(s: State, r: Record) {
    r.Event? && !IsMpiBegin(r) && (IsMpiEnd(r) ==> s.mpiStack == [])
  }

  lemma MpiPrinted(c: Setup, s: State, e: Record)
    requires e.Event? && IsMpi(e.eventType)
    ensures MpiEvent(c, s, e.time, e.eventType, e.value).printed == PrintedAfter(c, s, e)
  {
    if e.value != 0 {
      OpenPrinted(c, s, e.time, e.eventType, e.value);
    } else if s.mpiStack != [] {
      ClosePrinted(c, s, e.time, e.eventType);
    }
  }

  /** The flag after an event. */
  function PrintedAfter(c: Setup, s: State, e: Record): bool
    requires e.Event?
  {
    if IsMpiBegin(e) then false
    else if IsMpiEnd(e) && s.mpiStack != [] then
      s.printed || BarrierOf(c, s.mpiStack[|s.mpiStack| - 1].value) != []
    else s.printed
  }

  lemma EventPrinted(c: Setup, s: State, e: Record)
    requires e.Event?
    ensures OnEvent(c, s, e).printed == PrintedAfter(c, s, e)
  {
    if !IsPseudo(e.eventType) {
      var s1 := WithCollective(c, s, e.eventType, e.value);
      GatheringOnly(c, s, e.eventType, e.value);
      if IsMpi(e.eventType) {
        MpiPrinted(c, s1, e);
      } else if IsUser(e.eventType) {
        UserPrinted(s1, e.time, e.eventType, e.value);
      } else {
        GenericPrinted(s1, e.time, e.eventType, e.value);
      }
    }
  }

  lemma CommPrinted(c: Setup, s: State, r: Record)
    requires r.Comm?
    ensures var action := ActionFor(c, s, r);
      OnComm(c, s, r).printed == (s.printed || (action.Print? && action.primitive))
  {
    if s.mpiStack != [] {
      var call, action := c.callOf(s.mpiStack[|s.mpiStack| - 1].value), ActionFor(c, s, r);
      if action.Print? {
        ActPrints(c, s, call, r, action);
        PrintPrinted(c, s, call, action.op, action.primitive, r);
      } else {
        SkipOrWrong(c, s, call, r);
      }
    }
  }

  lemma PrintPrinted(c: Setup, s: State, call: Call, op: CommOp, primitive: bool, r: Record)
    requires r.Comm?
    ensures PrintComm(c, s, call, op, primitive, r).printed == (s.printed || primitive)
  {
  }

  /** What does not count as work is a wait inside a sending call, and nothing else. */
  lemma PrimitiveIff(call: Call, kind: Kind)
    ensures var action := ActionOf(call, kind);
      action.Print? ==> (action.primitive <==> !(action.op.NxWait? && IsSending(call)))
  {
  }

  // ----- every record

  /** The flag says whether anything was written, and so far the no-operations are right. */
  predicate NoopsKept(c: Setup, s: State) {
    Consistent(c, s) && s.printed == Worked(c, s.out) && NoopsRight(c, s.out)
  }

  lemma BeginNoops(c: Setup, s: State, e: Record)
    requires NoopsRight(c, s.out) && IsMpiBegin(e)
    ensures var out := s.out + (BurstUpTo(s, e.time) + [BlockBegin(e.eventType, e.value)]);
      NoopsRight(c, out) && !Worked(c, out)
  {
    var burst, begin := BurstUpTo(s, e.time), BlockBegin(e.eventType, e.value);
    IdleTail(c, s.out, burst);
    assert s.out + (burst + [begin]) == s.out + burst + [begin];
    RightMore(c, s.out + burst, begin);
    WorkedMore(c, s.out + burst, begin);
  }

  lemma BarrierNoops(c: Setup, out: seq<Out>, barrier: seq<Out>)
    requires NoopsRight(c, out) && (barrier == [] || barrier == [InitBarrier])
    ensures NoopsRight(c, out + barrier) && Worked(c, out + barrier) == (Worked(c, out) || barrier != [])
  {
    if barrier == [] {
      assert out + barrier == out;
    } else {
      RightMore(c, out, InitBarrier);
      WorkedMore(c, out, InitBarrier);
    }
  }

  lemma ClosingWorked(c: Setup, out: seq<Out>, closing: seq<Out>, r: Out)
    requires NoopsRight(c, out + closing) && Worked(c, out + closing) && MpiEnds(r)
    ensures NoopsRight(c, out + (closing + [] + [r])) && Worked(c, out + (closing + [] + [r]))
  {
    assert out + (closing + [] + [r]) == out + closing + [r];
    RightEnd(c, out + closing, r);
    WorkedMore(c, out + closing, r);
  }

  lemma ClosingIdle(c: Setup, out: seq<Out>, closing: seq<Out>, r: Out)
    requires NoopsRight(c, out + closing) && !Worked(c, out + closing) && MpiEnds(r)
    ensures NoopsRight(c, out + (closing + [Noop] + [r])) && !Worked(c, out + (closing + [Noop] + [r]))
  {
    var before := out + closing;
    assert out + (closing + [Noop] + [r]) == before + [Noop] + [r];
    RightNoopEnd(c, before, r);
    WorkedMore(c, before, Noop);
    WorkedMore(c, before + [Noop], r);
  }

  /** The records of a closing, with a no-operation exactly if it is needed. */
  lemma ClosingNoops(c: Setup, out: seq<Out>, barrier: seq<Out>, wait: seq<Out>, noop: seq<Out>, r: Out)
    requires NoopsRight(c, out) && (barrier == [] || barrier == [InitBarrier]) && MpiEnds(r)
    requires (forall x :: x in wait ==> x.CollectiveWait?)
    requires noop == if Worked(c, out) || barrier != [] then [] else [Noop]
    ensures var all := out + (barrier + wait + noop + [r]);
      NoopsRight(c, all) && Worked(c, all) == (Worked(c, out) || barrier != [])
  {
    BarrierNoops(c, out, barrier);
    IdleTail(c, out + barrier, wait);
    assert out + (barrier + wait) == out + barrier + wait;
    if noop == [] {
      ClosingWorked(c, out, barrier + wait, r);
    } else {
      ClosingIdle(c, out, barrier + wait, r);
    }
  }

  lemma EndNoops(c: Setup, s: State, e: Record)
    requires NoopsKept(c, s) && IsMpiEnd(e) && s.mpiStack != []
    ensures var out := s.out + MpiAdds(c, s, e.time, e.eventType, 0);
      NoopsRight(c, out)
      && Worked(c, out) == (s.printed || BarrierOf(c, s.mpiStack[|s.mpiStack| - 1].value) != [])
  {
    var value := s.mpiStack[|s.mpiStack| - 1].value;
    ClosingNoops(c, s.out, BarrierOf(c, value), TakenBy(s, value), NoopOf(c, s, value), BlockEnd(e.eventType));
  }

  lemma OthersIdle(c: Setup, s: State, e: Record)
    requires NeitherBeginsNorEnds(s, e)
    ensures forall r :: r in Adds(c, s, e) ==> Idle(r)
  {
  }

  lemma EventNoops(c: Setup, s: State, e: Record)
    requires NoopsKept(c, s) && e.Event?
    ensures var out := s.out + Adds(c, s, e);
      NoopsRight(c, out) && Worked(c, out) == OnEvent(c, s, e).printed
  {
    EventPrinted(c, s, e);
    if IsMpiBegin(e) {
      BeginNoops(c, s, e);
    } else if IsMpiEnd(e) && s.mpiStack != [] {
      EndNoops(c, s, e);
    } else {
      OthersIdle(c, s, e);
      IdleTail(c, s.out, Adds(c, s, e));
    }
  }

  /** The innermost open call of the state is the one open in the output. */
  lemma SendingIsOpen(c: Setup, s: State, more: seq<Out>)
    requires Consistent(c, s) && s.mpiStack != [] && forall r :: r in more ==> Idle(r)
    ensures InSending(c, s.out + more, |s.out + more|)
        <==> IsSending(c.callOf(s.mpiStack[|s.mpiStack| - 1].value))
  {
    var out := s.out + more;
    OpenIsBlocks(c, s.out);
    IdleTail(c, s.out, more);
    assert out[..|out|] == out;
    var at := Open(s.out);
    assert BeginsAs(s.out, at[|at| - 1], s.mpiStack[|s.mpiStack| - 1].value);
    assert out[at[|at| - 1]] == s.out[at[|at| - 1]];
  }

  lemma PrintNoops(c: Setup, s: State, r: Record)
    requires NoopsKept(c, s) && r.Comm? && ActionFor(c, s, r).Print?
    ensures var out := s.out + CommAdds(c, s, r);
      NoopsRight(c, out) && Worked(c, out) == (s.printed || ActionFor(c, s, r).primitive)
  {
    var action, pseudo := ActionFor(c, s, r), PseudoEvents(s, Partner(c, r), r);
    var p2p := PointToPoint(action.op, Partner(c, r), r.size, r.tag, r.commId);
    var before := s.out + pseudo;
    IdleTail(c, s.out, pseudo);
    SendingIsOpen(c, s, pseudo);
    PrimitiveIff(c.callOf(s.mpiStack[|s.mpiStack| - 1].value), r.kind);
    assert s.out + (pseudo + [p2p]) == before + [p2p];
    RightMore(c, before, p2p);
    WorkedMore(c, before, p2p);
    PtpWorks(c, before, p2p);
  }

  lemma PtpWorks(c: Setup, out: seq<Out>, p2p: Out)
    requires p2p.PointToPoint?
    ensures WorksAt(c, out + [p2p], |out|) <==> !(p2p.op.NxWait? && InSending(c, out, |out|))
  {
    assert (out + [p2p])[..|out|] == out[..|out|];
  }

  lemma RecordNoops(c: Setup, s: State, r: Record)
    requires NoopsKept(c, s)
    ensures NoopsKept(c, OnRecord(c, s, r))
  {
    RecordAppends(c, s, r);
    if r.Event? {
      EventNoops(c, s, r);
      EventKeeps(c, s, r);
    } else {
      CommNoops(c, s, r);
      CommKeeps(c, s, r);
    }
  }

  lemma CommNoops(c: Setup, s: State, r: Record)
    requires NoopsKept(c, s) && r.Comm?
    ensures var out := s.out + CommAdds(c, s, r);
      NoopsRight(c, out) && Worked(c, out) == OnComm(c, s, r).printed
  {
    CommPrinted(c, s, r);
    if ActionFor(c, s, r).Print? {
      PrintNoops(c, s, r);
    } else {
      assert s.out + CommAdds(c, s, r) == s.out;
    }
  }

  lemma {:induction false} RecordsNoops(c: Setup, s: State, rs: seq<Record>)
    requires NoopsKept(c, s)
    ensures NoopsKept(c, OnRecords(c, s, rs))
  {
    if rs != [] {
      RecordsNoops(c, s, rs[..|rs| - 1]);
      RecordNoops(c, OnRecords(c, s, rs[..|rs| - 1]), rs[|rs| - 1]);
    }
  }

  lemma EndAddsIdle(s: State)
    ensures forall r :: r in EndAdds(s) ==> Idle(r)
  {
  }

  lemma BatchEndNoops(c: Setup, s: State)
    requires NoopsKept(c, s)
    ensures NoopsKept(c, EndBatch(s))
  {
    EndBatchKeeps(c, s);
    BatchEndPrinted(s);
    BatchEndAppends(s);
    EndAddsIdle(s);
    IdleTail(c, s.out, EndAdds(s));
  }

  lemma BatchEndPrinted(s: State)
    ensures EndBatch(s).printed == s.printed
  {
  }

  lemma {:induction false} BatchesNoops(c: Setup, s: State, batches: seq<seq<Record>>)
    requires NoopsKept(c, s)
    ensures NoopsKept(c, OnBatches(c, s, batches))
  {
    if batches != [] {
      var n := |batches| - 1;
      BatchesNoops(c, s, batches[..n]);
      RecordsNoops(c, OnBatches(c, s, batches[..n]), batches[n]);
      BatchEndNoops(c, OnRecords(c, OnBatches(c, s, batches[..n]), batches[n]));
    }
  }

  lemma NewNoops(c: Setup, emptyTask: bool, firstIdle: bool, initialTime: Time)
    ensures NoopsKept(c, NewState(c, emptyTask, firstIdle, initialTime))
  {
    NewConsistent(c, emptyTask, firstIdle, initialTime);
    var first := FirstRecords(c, emptyTask, firstIdle, initialTime);
    IdleTail(c, [], first);
    assert [] + first == first;
  }

  /**
   * In every run a no-operation stands before the end of an MPI block exactly when, since the last MPI block began,
   * nothing was written but bursts, events, collectives and waits of sending calls; and it stands nowhere else.
   */
  lemma NoopIff(c: Setup, emptyTask: bool, firstIdle: bool, initialTime: Time, batches: seq<seq<Record>>, e: nat)
    requires e < |OnBatches(c, NewState(c, emptyTask, firstIdle, initialTime), batches).out|
    ensures var out := OnBatches(c, NewState(c, emptyTask, firstIdle, initialTime), batches).out;
      && (MpiEnds(out[e]) ==> ((0 < e && out[e - 1].Noop?) <==> !WorkSinceBegin(c, out, e)))
      && (out[e].Noop? ==> e + 1 < |out| && MpiEnds(out[e + 1]))
  {
    var s := NewState(c, emptyTask, firstIdle, initialTime);
    NewNoops(c, emptyTask, firstIdle, initialTime);
    BatchesNoops(c, s, batches);
    var out := OnBatches(c, s, batches).out;
    assert RightAt(c, out, e);
    WorkedIff(c, out[..e]);
    WorkSincePrefix(c, out, e, e);
  }
}
