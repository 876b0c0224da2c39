/** What the output of a thread looks like, whatever its input. */
module PrvThreadLaws {
  import opened PrvSplit
  import opened PrvThread

  // ----- reading the output

  /**
   * How far a reader of the output has come: the open MPI blocks, how many of them (the outermost ones) already hold
   * something that Dimemas simulates, the number of open user blocks, whether a point-to-point wait of a wait block
   * has been read since the last wait block began, whether a collective wait has just been read, and the asynchronous
   * collectives not yet waited for.  `Broken` once something was read that should not be there.
   */
  datatype Reading =
    | Broken
    | Reading(blocks: seq<Block>, filled: nat, users: nat, waited: bool, took: bool, unmatched: seq<GlobalOp>)

  predicate InCall(rd: Reading, call: int)
    requires rd.Reading?
  {
    rd.blocks != [] && rd.blocks[|rd.blocks| - 1].value == call
  }

  /** A wait block may end: it has taken a collective, or a point-to-point wait was read, or there is none to take. */
  predicate WaitSettled(rd: Reading)
    requires rd.Reading?
  {
    InCall(rd, WAIT_CALL) ==> rd.took || rd.waited || rd.unmatched == []
  }

  /**
   * Reading one record.  A block ends only if one is open, and an MPI block only if something was written in it.
   * Communications, barriers of MPI_Init and no-operations are read inside MPI blocks only.  A collective wait is
   * read only at the end of a wait block, only if no point-to-point wait was read since the last wait block began,
   * and names the oldest collective not yet waited for; and then it must not be missing.
   */
  function Read(c: Setup, rd: Reading, r: Out): Reading {
    if rd.Broken? || (rd.took && !r.Noop? && !r.BlockEnd?) then Broken
    else
      match r
      case Burst(_) => rd
      case UserEvent(_, _) => rd
      case BlockBegin(t, v) =>
        if IsMpi(t) then
          rd.(blocks := rd.blocks + [Block(t, v)], waited := if v == WAIT_CALL then false else rd.waited)
        else if IsUser(t) then rd.(users := rd.users + 1)
        else rd
      case BlockEnd(t) =>
        if IsMpi(t) then
          if rd.blocks != [] && rd.filled == |rd.blocks| && WaitSettled(rd) then
            rd.(blocks := rd.blocks[..|rd.blocks| - 1], filled := rd.filled - 1, took := false)
          else Broken
        else if rd.took then Broken
        else if IsUser(t) then if rd.users == 0 then Broken else rd.(users := rd.users - 1)
        else rd
      case PointToPoint(op, _, _, _, _) =>
        if rd.blocks == [] then Broken
        else rd.(filled := |rd.blocks|,
                 waited := rd.waited || (op.NxWait? && c.callOf(rd.blocks[|rd.blocks| - 1].value).WaitCall?))
      case Collective(g) =>
        rd.(filled := |rd.blocks|, unmatched := if IsAsync(g) then rd.unmatched + [g] else rd.unmatched)
      case CollectiveWait(g) =>
        if InCall(rd, WAIT_CALL) && !rd.waited && rd.unmatched != [] && rd.unmatched[0] == g then
          rd.(filled := |rd.blocks|, took := true, unmatched := rd.unmatched[1..])
        else Broken
      case InitBarrier => if InCall(rd, INIT_CALL) then rd.(filled := |rd.blocks|) else Broken
      case Noop => if rd.blocks == [] then Broken else rd.(filled := |rd.blocks|)
  }

  function ReadAll(c: Setup, out: seq<Out>): Reading {
    if out == [] then Reading([], 0, 0, false, false, []) else Read(c, ReadAll(c, out[..|out| - 1]), out[|out| - 1])
  }

  lemma ReadMore(c: Setup, out: seq<Out>, r: Out)
    ensures ReadAll(c, out + [r]) == Read(c, ReadAll(c, out), r)
  {
    assert (out + [r])[..|out|] == out;
  }

  // ----- the reading agrees with the state

  predicate Agrees(rd: Reading, s: State) {
    && rd.Reading? && rd.blocks == s.mpiStack && (s.printed ==> rd.filled == |s.mpiStack|)
    && rd.users == |s.userStack| && rd.waited == s.waitWithComm && rd.unmatched == s.inFlight
  }

  predicate Consistent(c: Setup, s: State) { Agrees(ReadAll(c, s.out), s) && !ReadAll(c, s.out).took }

  /** The same at the end of an MPI block, once a wait block has been settled. */
  predicate Closing(c: Setup, s: State) { Agrees(ReadAll(c, s.out), s) && WaitSettled(ReadAll(c, s.out)) }

  predicate SameView(s: State, s': State) {
    && s'.out == s.out && s'.mpiStack == s.mpiStack && s'.userStack == s.userStack && s'.printed == s.printed
    && s'.waitWithComm == s.waitWithComm && s'.inFlight == s.inFlight
  }

  lemma SameReading(c: Setup, s: State, s': State)
    requires Consistent(c, s) && SameView(s, s')
    ensures Consistent(c, s')
  {
  }

  lemma ReadQuietly(c: Setup, out: seq<Out>, r: Out)
    requires (r.Burst? || r.UserEvent?) && (ReadAll(c, out).Reading? ==> !ReadAll(c, out).took)
    ensures ReadAll(c, out + [r]) == ReadAll(c, out)
  {
    ReadMore(c, out, r);
  }

  lemma SameButOut(c: Setup, s: State, s': State)
    requires Consistent(c, s) && ReadAll(c, s'.out) == ReadAll(c, s.out) && SameView(s, s'.(out := s.out))
    ensures Consistent(c, s')
  {
  }

  /** Every open block holds something. */
  predicate Filled(c: Setup, s: State) {
    ReadAll(c, s.out).Reading? && ReadAll(c, s.out).filled == |s.mpiStack|
  }

  lemma BurstKeeps(c: Setup, s: State, time: Time)
    requires Consistent(c, s)
    ensures Consistent(c, WithBurst(s, time))
  {
    ReadQuietly(c, s.out, Burst(Elapsed(s.lastBlockEnd, time)));
    SameButOut(c, s, WithBurst(s, time));
  }

  lemma UserEventKeeps(c: Setup, s: State, t: int, v: int)
    requires Consistent(c, s)
    ensures Consistent(c, Emit(s, [UserEvent(t, v)]))
  {
    ReadQuietly(c, s.out, UserEvent(t, v));
    SameButOut(c, s, Emit(s, [UserEvent(t, v)]));
  }

  lemma GenericKeeps(c: Setup, s: State, time: Time, t: int, v: int)
    requires Consistent(c, s)
    ensures Consistent(c, GenericEvent(s, time, t, v))
  {
    BurstKeeps(c, s, time);
    UserEventKeeps(c, WithBurst(s, time).(lastBlockEnd := time), t, v);
    UserEventKeeps(c, s, t, v);
  }

  lemma UpToKeeps(c: Setup, s: State, time: Time)
    requires Consistent(c, s)
    ensures Consistent(c, UpTo(s, time))
  {
    BurstKeeps(c, s, time);
  }

  lemma OpenMpiKeeps(c: Setup, s: State, t: int, v: int)
    requires Consistent(c, s) && IsMpi(t)
    ensures Consistent(c, OpenMpi(s, t, v))
  {
    ReadMore(c, s.out, BlockBegin(t, v));
  }

  lemma OpenUserKeeps(c: Setup, s: State, time: Time, t: int, v: int)
    requires Consistent(c, s) && IsUser(t)
    ensures Consistent(c, OpenUser(s, time, t, v))
  {
    ReadMore(c, s.out, BlockBegin(t, v));
  }

  lemma CloseUserKeeps(c: Setup, s: State, time: Time, t: int)
    requires Consistent(c, s) && IsUser(t) && s.userStack != []
    ensures Consistent(c, CloseUser(s, time, t))
  {
    ReadMore(c, s.out, BlockEnd(t));
  }

  lemma UserBlockKeeps(c: Setup, s: State, time: Time, t: int, v: int)
    requires Consistent(c, s) && IsUser(t)
    ensures Consistent(c, UserBlockEvent(s, time, t, v))
  {
    UpToKeeps(c, s, time);
    if v != 0 {
      OpenUserKeeps(c, UpTo(s, time), time, t, v);
    } else if s.userStack != [] {
      CloseUserKeeps(c, UpTo(s, time), time, t);
    }
  }

  // ----- closing an MPI block

  lemma BarrierKeeps(c: Setup, s: State)
    requires Consistent(c, s) && s.mpiStack != []
    ensures Consistent(c, AfterBarrier(c, s, s.mpiStack[|s.mpiStack| - 1].value))
  {
    if s.mpiStack[|s.mpiStack| - 1].value == INIT_CALL && c.initBarrier {
      ReadMore(c, s.out, InitBarrier);
    }
  }

  lemma WaitKeeps(c: Setup, s: State)
    requires Consistent(c, s) && s.mpiStack != []
    ensures Closing(c, AfterWait(s, s.mpiStack[|s.mpiStack| - 1].value))
  {
    if s.mpiStack[|s.mpiStack| - 1].value == WAIT_CALL && !s.waitWithComm && s.inFlight != [] {
      ReadMore(c, s.out, CollectiveWait(s.inFlight[0]));
    }
  }

  lemma NoopKeeps(c: Setup, s: State)
    requires Closing(c, s) && s.mpiStack != []
    ensures Closing(c, AfterNoop(s)) && Filled(c, AfterNoop(s))
  {
    if !s.printed {
      ReadMore(c, s.out, Noop);
    }
  }

  lemma PopMpiKeeps(c: Setup, s: State, time: Time, t: int)
    requires Closing(c, s) && s.mpiStack != [] && IsMpi(t) && Filled(c, s)
    ensures Consistent(c, PopMpi(s, time, t))
  {
    ReadMore(c, s.out, BlockEnd(t));
  }

  lemma BeforeNoopKeeps(c: Setup, s: State, value: int)
    requires Consistent(c, s) && s.mpiStack != [] && s.mpiStack[|s.mpiStack| - 1].value == value
    ensures Closing(c, AfterNoop(AfterWait(s, value))) && Filled(c, AfterNoop(AfterWait(s, value)))
    ensures AfterNoop(AfterWait(s, value)).mpiStack == s.mpiStack
  {
    WaitKeeps(c, s);
    NoopKeeps(c, AfterWait(s, value));
  }

  lemma BeforeEndKeeps(c: Setup, s: State)
    requires Consistent(c, s) && s.mpiStack != []
    ensures Closing(c, BeforeEnd(c, s)) && Filled(c, BeforeEnd(c, s))
    ensures BeforeEnd(c, s).mpiStack == s.mpiStack
  {
    var value := s.mpiStack[|s.mpiStack| - 1].value;
    var s1 := AfterBarrier(c, s, value);
    BarrierKeeps(c, s);
    assert s1.mpiStack == s.mpiStack;
    BeforeNoopKeeps(c, s1, value);
  }

  lemma MpiKeeps(c: Setup, s: State, time: Time, t: int, v: int)
    requires Consistent(c, s) && IsMpi(t)
    ensures Consistent(c, MpiEvent(c, s, time, t, v))
  {
    if v != 0 {
      UpToKeeps(c, s, time);
      OpenMpiKeeps(c, UpTo(s, time), t, v);
    } else if s.mpiStack != [] {
      BeforeEndKeeps(c, s);
      PopMpiKeeps(c, BeforeEnd(c, s), time, t);
    }
  }

  // ----- whole runs

  /** Collecting the fields of a collective touches nothing that a reader sees. */
  lemma FieldLeaves(s: State, t: int, v: int)
    ensures SameView(s, CollectField(s, t, v))
  {
  }

  lemma StartLeaves(c: Setup, s: State, t: int, v: int)
    ensures SameView(s, StartCollective(c, s, t, v))
  {
  }

  lemma CollectiveKeeps(c: Setup, s: State, t: int, v: int)
    requires Consistent(c, s)
    ensures Consistent(c, WithCollective(c, s, t, v))
  {
    FieldLeaves(s, t, v);
    SameReading(c, s, CollectField(s, t, v));
    StartLeaves(c, CollectField(s, t, v), t, v);
    SameReading(c, CollectField(s, t, v), WithCollective(c, s, t, v));
  }

  lemma BlockOrGenericKeeps(c: Setup, s: State, time: Time, t: int, v: int)
    requires Consistent(c, s)
    ensures Consistent(c, BlockOrGeneric(c, s, time, t, v))
  {
    if IsMpi(t) {
      MpiKeeps(c, s, time, t, v);
    } else if IsUser(t) {
      UserBlockKeeps(c, s, time, t, v);
    } else {
      GenericKeeps(c, s, time, t, v);
    }
  }

  lemma EventKeeps(c: Setup, s: State, e: Record)
    requires Consistent(c, s) && e.Event?
    ensures Consistent(c, OnEvent(c, s, e))
  {
    if !IsPseudo(e.eventType) {
      CollectiveKeeps(c, s, e.eventType, e.value);
      BlockOrGenericKeeps(c, WithCollective(c, s, e.eventType, e.value), e.time, e.eventType, e.value);
    }
  }

  lemma UserEventsKeep(c: Setup, s: State, es: seq<Out>)
    requires Consistent(c, s) && forall e :: e in es ==> e.UserEvent?
    ensures Consistent(c, Emit(s, es))
  {
    if es == [] {
      assert s.out + es == s.out;
    } else {
      var n := |es| - 1;
      UserEventsKeep(c, s, es[..n]);
      UserEventKeeps(c, Emit(s, es[..n]), es[n].eventType, es[n].value);
      assert s.out + es[..n] + [es[n]] == s.out + es;
    }
  }

  lemma WaitsOnly(kind: Kind)
    ensures ActionOf(WaitCall, kind).Print? ==> ActionOf(WaitCall, kind).op.NxWait?
  {
  }

  /** A communication inside a block. */
  lemma PointToPointKeeps(c: Setup, s: State, op: CommOp, partner: int, r: Record)
    requires Consistent(c, s) && s.mpiStack != [] && r.Comm?
    ensures var call := c.callOf(s.mpiStack[|s.mpiStack| - 1].value);
      Consistent(c, Emit(s, [PointToPoint(op, partner, r.size, r.tag, r.commId)]).(
        printed := true, waitWithComm := s.waitWithComm || (op.NxWait? && call.WaitCall?)))
  {
    ReadMore(c, s.out, PointToPoint(op, partner, r.size, r.tag, r.commId));
  }

  lemma PrintKeeps(c: Setup, s: State, call: Call, op: CommOp, primitive: bool, r: Record)
    requires Consistent(c, s) && s.mpiStack != [] && r.Comm?
    requires call == c.callOf(s.mpiStack[|s.mpiStack| - 1].value) && (call.WaitCall? ==> op.NxWait?)
    ensures Consistent(c, PrintComm(c, s, call, op, primitive, r))
  {
    var partner := Partner(c, r);
    var pseudo := PseudoEvents(s, partner, r);
    UserEventsKeep(c, s, pseudo);
    PointToPointKeeps(c, Emit(s, pseudo), op, partner, r);
    var p2p := PointToPoint(op, partner, r.size, r.tag, r.commId);
    assert s.out + pseudo + [p2p] == s.out + (pseudo + [p2p]);
  }

  lemma CommKeeps(c: Setup, s: State, r: Record)
    requires Consistent(c, s) && r.Comm?
    ensures Consistent(c, OnComm(c, s, r))
  {
    if s.mpiStack != [] {
      var call := c.callOf(s.mpiStack[|s.mpiStack| - 1].value);
      var action := ActionOf(call, r.kind);
      WaitsOnly(r.kind);
      if action.Print? {
        PrintKeeps(c, s, call, action.op, action.primitive, r);
      }
    }
  }

  lemma EndBatchKeeps(c: Setup, s: State)
    requires Consistent(c, s)
    ensures Consistent(c, EndBatch(s))
  {
    if s.pending && 2 <= s.fields {
      WrittenKeeps(c, s);
    } else {
      SameReading(c, s, EndBatch(s));
    }
  }

  lemma WrittenKeeps(c: Setup, s: State)
    requires Consistent(c, s) && s.pending && 2 <= s.fields
    ensures Consistent(c, EndBatch(s))
  {
    var out' := s.out + [Collective(s.partial)];
    ReadMore(c, s.out, Collective(s.partial));
    assert EndBatch(s).out == out';
    assert ReadAll(c, out') == Read(c, ReadAll(c, s.out), Collective(s.partial));
  }

  lemma {:induction false} RecordsKeep(c: Setup, s: State, rs: seq<Record>)
    requires Consistent(c, s)
    ensures Consistent(c, OnRecords(c, s, rs))
  {
    if rs != [] {
      var n := |rs| - 1;
      RecordsKeep(c, s, rs[..n]);
      if rs[n].Event? {
        EventKeeps(c, OnRecords(c, s, rs[..n]), rs[n]);
      } else {
        CommKeeps(c, OnRecords(c, s, rs[..n]), rs[n]);
      }
    }
  }

  lemma {:induction false} BatchesKeep(c: Setup, s: State, batches: seq<seq<Record>>)
    requires Consistent(c, s)
    ensures Consistent(c, OnBatches(c, s, batches))
  {
    if batches != [] {
      var n := |batches| - 1;
      var before := OnBatches(c, s, batches[..n]);
      BatchesKeep(c, s, batches[..n]);
      RecordsKeep(c, before, batches[n]);
      EndBatchKeeps(c, OnRecords(c, before, batches[n]));
    }
  }

  lemma NewConsistent(c: Setup, emptyTask: bool, firstIdle: bool, initialTime: Time)
    ensures Consistent(c, NewState(c, emptyTask, firstIdle, initialTime))
  {
    var burst := if c.thread == 1 then [Burst(0)] else [];
    OnlyQuiet(c, burst);
    OnlyQuiet(c, burst + [BlockBegin(0, 1), Burst(initialTime), BlockEnd(0)]);
    assert burst + [] == burst;
  }

  /** Bursts and blocks of neither MPI nor user functions open nothing. */
  lemma {:induction false} OnlyQuiet(c: Setup, out: seq<Out>)
    requires forall r :: r in out ==> r.Burst? || r == BlockBegin(0, 1) || r == BlockEnd(0)
    ensures ReadAll(c, out) == Reading([], 0, 0, false, false, [])
  {
    if out != [] {
      assert out[|out| - 1] in out;
      OnlyQuiet(c, out[..|out| - 1]);
    }
  }

  /**
   * Whatever the records and however they are cut into batches, the output can be read to its end, and what the
   * reader has open is what the translator has on its stacks.
   */
  lemma OutputReadable(c: Setup, emptyTask: bool, firstIdle: bool, initialTime: Time, batches: seq<seq<Record>>)
    ensures var s := OnBatches(c, NewState(c, emptyTask, firstIdle, initialTime), batches);
      var rd := ReadAll(c, s.out);
      && rd.Reading? && rd.blocks == s.mpiStack && rd.users == |s.userStack|
      && rd.unmatched == s.inFlight && rd.waited == s.waitWithComm
  {
    NewConsistent(c, emptyTask, firstIdle, initialTime);
    BatchesKeep(c, NewState(c, emptyTask, firstIdle, initialTime), batches);
  }

  // ----- what a readable output means for collectives

  function Asyncs(out: seq<Out>): seq<GlobalOp> {
    if out == [] then []
    else
      Asyncs(out[..|out| - 1]) + AsyncOf(out[|out| - 1])
  }

  function Waits(out: seq<Out>): seq<GlobalOp> {
    if out == [] then []
    else
      Waits(out[..|out| - 1]) + WaitOf(out[|out| - 1])
  }

  /** First in, first out: the collectives waited for are the first asynchronous ones, in order. */
  lemma {:induction false} FirstInFirstOut(c: Setup, out: seq<Out>)
    requires ReadAll(c, out).Reading?
    ensures Asyncs(out) == Waits(out) + ReadAll(c, out).unmatched
  {
    if out != [] {
      var n := |out| - 1;
      FirstInFirstOut(c, out[..n]);
      MatchOne(c, ReadAll(c, out[..n]), out[n], Asyncs(out[..n]), Waits(out[..n]));
    }
  }

  function AsyncOf(r: Out): seq<GlobalOp> { if r.Collective? && IsAsync(r.g) then [r.g] else [] }

  function WaitOf(r: Out): seq<GlobalOp> { if r.CollectiveWait? then [r.g] else [] }

  lemma MatchOne(c: Setup, rd: Reading, r: Out, asyncs: seq<GlobalOp>, waits: seq<GlobalOp>)
    requires rd.Reading? && Read(c, rd, r).Reading? && asyncs == waits + rd.unmatched
    ensures asyncs + AsyncOf(r) == waits + WaitOf(r) + Read(c, rd, r).unmatched
  {
  }

  lemma PrefixReadable(c: Setup, out: seq<Out>, n: nat)
    requires ReadAll(c, out).Reading? && n <= |out|
    ensures ReadAll(c, out[..n]).Reading?
  {
    if n < |out| {
      PrefixReadable(c, out[..|out| - 1], n);
      assert out[..|out| - 1][..n] == out[..n];
    } else {
      assert out[..n] == out;
    }
  }

  /** In every prefix of every output, the k-th collective wait carries the k-th asynchronous collective. */
  lemma CollectivesMatchInOrder(c: Setup, emptyTask: bool, firstIdle: bool, initialTime: Time,
                                batches: seq<seq<Record>>, n: nat)
    requires n <= |OnBatches(c, NewState(c, emptyTask, firstIdle, initialTime), batches).out|
    ensures var out := OnBatches(c, NewState(c, emptyTask, firstIdle, initialTime), batches).out;
      Waits(out[..n]) <= Asyncs(out[..n])
  {
    var out := OnBatches(c, NewState(c, emptyTask, firstIdle, initialTime), batches).out;
    OutputReadable(c, emptyTask, firstIdle, initialTime, batches);
    PrefixReadable(c, out, n);
    FirstInFirstOut(c, out[..n]);
  }

  lemma EveryOutputReadable(c: Setup, emptyTask: bool, firstIdle: bool, initialTime: Time, batches: seq<seq<Record>>)
    ensures var out := OnBatches(c, NewState(c, emptyTask, firstIdle, initialTime), batches).out;
      ReadAll(c, out).Reading? && Waits(out) <= Asyncs(out)
  {
    OutputReadable(c, emptyTask, firstIdle, initialTime, batches);
    FirstInFirstOut(c, OnBatches(c, NewState(c, emptyTask, firstIdle, initialTime), batches).out);
  }

  // ----- what a readable output means for blocks

  predicate MpiBegins(r: Out) { r.BlockBegin? && IsMpi(r.eventType) }

  predicate MpiEnds(r: Out) { r.BlockEnd? && IsMpi(r.eventType) }

  predicate Simulated(r: Out) {
    r.PointToPoint? || r.Collective? || r.CollectiveWait? || r.InitBarrier? || r.Noop?
  }

  /** MPI blocks begun less MPI blocks ended: a plain count, which an unbalanced output would make negative. */
  function MpiDepth(out: seq<Out>): int {
    if out == [] then 0
    else
      var r := out[|out| - 1];
      MpiDepth(out[..|out| - 1]) + (if MpiBegins(r) then 1 else if MpiEnds(r) then -1 else 0)
  }

  lemma {:induction false} DepthIsBlocks(c: Setup, out: seq<Out>)
    requires ReadAll(c, out).Reading?
    ensures MpiDepth(out) == |ReadAll(c, out).blocks| && ReadAll(c, out).filled <= MpiDepth(out)
  {
    if out != [] {
      DepthIsBlocks(c, out[..|out| - 1]);
    }
  }

  /** From `i` on, `out` stays at least `d` deep. */
  predicate Deep(out: seq<Out>, i: nat, d: int) { forall m :: i < m <= |out| ==> d <= MpiDepth(out[..m]) }

  lemma DeepMore(out: seq<Out>, r: Out, i: nat, d: int)
    requires Deep(out, i, d) && d <= MpiDepth(out + [r])
    ensures Deep(out + [r], i, d)
  {
    forall m | i < m <= |out + [r]| ensures d <= MpiDepth((out + [r])[..m]) {
      if m <= |out| {
        assert (out + [r])[..m] == out[..m];
      } else {
        assert (out + [r])[..m] == out + [r];
      }
    }
  }

  /** Where the open block at depth `d` began. */
  lemma {:induction false} OpenedAt(c: Setup, out: seq<Out>, d: nat) returns (i: nat)
    requires ReadAll(c, out).Reading? && 1 <= d <= MpiDepth(out)
    ensures i < |out| && MpiBegins(out[i]) && MpiDepth(out[..i]) == d - 1 && Deep(out, i, d)
  {
    var n := |out| - 1;
    assert out[..n] + [out[n]] == out;
    DepthIsBlocks(c, out[..n]);
    if MpiBegins(out[n]) && MpiDepth(out) == d {
      i := n;
      assert out[..n + 1] == out;
    } else {
      i := OpenedAt(c, out[..n], d);
      assert out[..n][..i] == out[..i];
      DeepMore(out[..n], out[n], i, d);
    }
  }

  /** Where the open block at depth `d` began, and a record inside it that Dimemas simulates. */
  lemma {:induction false} FilledAt(c: Setup, out: seq<Out>, d: nat) returns (i: nat, k: nat)
    requires ReadAll(c, out).Reading? && 1 <= d <= ReadAll(c, out).filled
    ensures i < k < |out| && MpiBegins(out[i]) && MpiDepth(out[..i]) == d - 1 && Deep(out, i, d) && Simulated(out[k])
  {
    var n := |out| - 1;
    assert out[..n] + [out[n]] == out;
    DepthIsBlocks(c, out);
    DepthIsBlocks(c, out[..n]);
    if Simulated(out[n]) {
      i := OpenedAt(c, out[..n], d);
      k := n;
    } else {
      i, k := FilledAt(c, out[..n], d);
    }
    assert out[..n][..i] == out[..i];
    DeepMore(out[..n], out[n], i, d);
  }

  /**
   * In the output of every run, each end of an MPI block has its beginning, the last place where the output was as
   * deep as it is after the end, and between the two a record that Dimemas simulates.
   */
  lemma ClosedBlocksHoldSomething(c: Setup, emptyTask: bool, firstIdle: bool, initialTime: Time,
                                  batches: seq<seq<Record>>, j: nat) returns (i: nat, k: nat)
    requires var out := OnBatches(c, NewState(c, emptyTask, firstIdle, initialTime), batches).out;
      j < |out| && MpiEnds(out[j])
    ensures var out := OnBatches(c, NewState(c, emptyTask, firstIdle, initialTime), batches).out;
      && i < k < j && MpiBegins(out[i]) && Simulated(out[k])
      && 0 <= MpiDepth(out[..i]) == MpiDepth(out[..j + 1]) && Deep(out[..j], i, MpiDepth(out[..i]) + 1)
  {
    var out := OnBatches(c, NewState(c, emptyTask, firstIdle, initialTime), batches).out;
    OutputReadable(c, emptyTask, firstIdle, initialTime, batches);
    i, k := EndsMatch(c, out, j);
  }

  lemma EndsMatch(c: Setup, out: seq<Out>, j: nat) returns (i: nat, k: nat)
    requires ReadAll(c, out).Reading? && j < |out| && MpiEnds(out[j])
    ensures i < k < j && MpiBegins(out[i]) && Simulated(out[k])
    ensures 0 <= MpiDepth(out[..i]) == MpiDepth(out[..j + 1]) && Deep(out[..j], i, MpiDepth(out[..i]) + 1)
  {
    PrefixReadable(c, out, j + 1);
    assert out[..j + 1] == out[..j] + [out[j]];
    i, k := EndHasItsBegin(c, out[..j], out[j]);
    assert out[..j][..i] == out[..i];
  }

  lemma EndHasItsBegin(c: Setup, out: seq<Out>, r: Out) returns (i: nat, k: nat)
    requires ReadAll(c, out + [r]).Reading? && MpiEnds(r)
    ensures i < k < |out| && MpiBegins(out[i]) && Simulated(out[k])
    ensures 0 <= MpiDepth(out[..i]) == MpiDepth(out + [r]) && Deep(out, i, MpiDepth(out[..i]) + 1)
  {
    ReadMore(c, out, r);
    assert (out + [r])[..|out|] == out;
    DepthIsBlocks(c, out);
    i, k := FilledAt(c, out, ReadAll(c, out).filled);
  }
}
