/** The point-to-point records of an output, told from the records alone. */
module PrvEndpoints {
  import opened PrvSplit
  import opened PrvThread
  import opened PrvAppend
  import opened PrvQueue
  import opened Sequences

  /** The point-to-point records of an output, in order. */
  function PtpsOf(out: seq<Out>): seq<Out> {
    if out == [] then []
    else PtpsOf(out[..|out| - 1]) + if out[|out| - 1].PointToPoint? then [out[|out| - 1]] else []
  }

  lemma PtpsMore(out: seq<Out>, r: Out)
    ensures PtpsOf(out + [r]) == PtpsOf(out) + if r.PointToPoint? then [r] else []
  {
    WithoutLast(out, r);
  }

  lemma {:induction false} PtpsConcat(a: seq<Out>, b: seq<Out>)
    ensures PtpsOf(a + b) == PtpsOf(a) + PtpsOf(b)
  {
    if b == [] {
      assert a + b == a;
    } else {
      var n := |b| - 1;
      PtpsConcat(a, b[..n]);
      LastApart(a, b);
      PtpsMore(a + b[..n], b[n]);
      PtpsMore(b[..n], b[n]);
    }
  }

  lemma {:induction false} NoPtps(out: seq<Out>)
    requires forall r :: r in out ==> !r.PointToPoint?
    ensures PtpsOf(out) == []
  {
    if out != [] {
      assert out[|out| - 1] in out;
      NoPtps(out[..|out| - 1]);
    }
  }

  /** What is written for an endpoint when the innermost open call is `stack`'s last. */
  function PtpFor(c: Setup, stack: seq<Block>, r: Record): seq<Out> {
    if !r.Comm? || stack == [] then []
    else
      match ActionOf(c.callOf(stack[|stack| - 1].value), r.kind)
      case Print(op, _) =>
        [PointToPoint(op, if c.simulated then r.partner else r.partner - 1, r.size, r.tag, r.commId)]
      case _ => []
  }

  lemma QuietThen(quiet: seq<Out>, p2p: Out)
    requires (forall r :: r in quiet ==> !r.PointToPoint?) && p2p.PointToPoint?
    ensures PtpsOf(quiet + [p2p]) == [p2p]
  {
    NoPtps(quiet);
    PtpsMore(quiet, p2p);
  }

  lemma PseudoIsQuiet(s: State, partner: int, r: Record)
    requires r.Comm?
    ensures forall x :: x in PseudoEvents(s, partner, r) ==> !x.PointToPoint?
  {
  }

  lemma PrintedPtp(c: Setup, s: State, r: Record)
    requires r.Comm? && ActionFor(c, s, r).Print?
    ensures PtpsOf(CommAdds(c, s, r)) == PtpFor(c, s.mpiStack, r)
  {
    var op, partner := ActionFor(c, s, r).op, Partner(c, r);
    PseudoIsQuiet(s, partner, r);
    QuietThen(PseudoEvents(s, partner, r), PointToPoint(op, partner, r.size, r.tag, r.commId));
  }

  lemma AddsPtp(c: Setup, s: State, r: Record)
    ensures PtpsOf(Adds(c, s, r)) == PtpFor(c, s.mpiStack, r)
  {
    if r.Event? {
      EventAddsNone(c, s, r);
      NoPtps(Adds(c, s, r));
    } else if ActionFor(c, s, r).Print? {
      PrintedPtp(c, s, r);
    }
  }

  lemma EventAddsNone(c: Setup, s: State, e: Record)
    requires e.Event?
    ensures forall r :: r in Adds(c, s, e) ==> !r.PointToPoint?
  {
  }

  lemma RecordPtps(c: Setup, s: State, r: Record)
    ensures PtpsOf(OnRecord(c, s, r).out) == PtpsOf(s.out) + PtpFor(c, s.mpiStack, r)
  {
    RecordAppends(c, s, r);
    PtpsConcat(s.out, Adds(c, s, r));
    AddsPtp(c, s, r);
  }

  lemma BatchEndPtps(s: State)
    ensures PtpsOf(EndBatch(s).out) == PtpsOf(s.out)
  {
    BatchEndAppends(s);
    PtpsConcat(s.out, EndAdds(s));
    NoPtps(EndAdds(s));
  }

  // ----- from the records alone

  /** The open MPI calls after some records. */
  function OpenAfter(rs: seq<Record>): seq<Block> {
    if rs == [] then [] else StackAfter(OpenAfter(rs[..|rs| - 1]), rs[|rs| - 1])
  }

  /** What the endpoints among some records are written as, each by the call that is open around it. */
  function WrittenFor(c: Setup, rs: seq<Record>): seq<Out> {
    if rs == [] then []
    else WrittenFor(c, rs[..|rs| - 1]) + PtpFor(c, OpenAfter(rs[..|rs| - 1]), rs[|rs| - 1])
  }

  /** The state has the open calls and the point-to-point records that some records lead to. */
  predicate AsWritten(c: Setup, s: State, rs: seq<Record>) {
    s.mpiStack == OpenAfter(rs) && PtpsOf(s.out) == WrittenFor(c, rs)
  }

  lemma RecordWritten(c: Setup, s: State, before: seq<Record>, r: Record)
    requires AsWritten(c, s, before)
    ensures AsWritten(c, OnRecord(c, s, r), before + [r])
  {
    WithoutLast(before, r);
    RecordWaiting(c, s, r);
    RecordPtps(c, s, r);
  }

  lemma {:induction false} RecordsWritten(c: Setup, s: State, before: seq<Record>, rs: seq<Record>)
    requires AsWritten(c, s, before)
    ensures AsWritten(c, OnRecords(c, s, rs), before + rs)
  {
    if rs == [] {
      assert before + rs == before;
    } else {
      var n := |rs| - 1;
      RecordsWritten(c, s, before, rs[..n]);
      LastApart(before, rs);
      RecordWritten(c, OnRecords(c, s, rs[..n]), before + rs[..n], rs[n]);
    }
  }

  lemma {:induction false} BatchesWritten(c: Setup, s: State, batches: seq<seq<Record>>)
    requires s.mpiStack == [] && PtpsOf(s.out) == []
    ensures AsWritten(c, OnBatches(c, s, batches), Flat(batches))
  {
    if batches != [] {
      var n := |batches| - 1;
      var before := OnBatches(c, s, batches[..n]);
      BatchesWritten(c, s, batches[..n]);
      RecordsWritten(c, before, Flat(batches[..n]), batches[n]);
      BatchEndWaiting(OnRecords(c, before, batches[n]));
      BatchEndPtps(OnRecords(c, before, batches[n]));
    }
  }

  /**
   * In every run the point-to-point records of the output are those of the endpoints, one after the other, each with
   * the partner, size, tag and communicator of its endpoint, and as the call open around it has it.
   */
  lemma EndpointsWritten(c: Setup, emptyTask: bool, firstIdle: bool, initialTime: Time, batches: seq<seq<Record>>)
    ensures PtpsOf(OnBatches(c, NewState(c, emptyTask, firstIdle, initialTime), batches).out)
         == WrittenFor(c, Flat(batches))
  {
    NoPtps(FirstRecords(c, emptyTask, firstIdle, initialTime));
    BatchesWritten(c, NewState(c, emptyTask, firstIdle, initialTime), batches);
  }

  // ----- which side

  predicate Sends(op: CommOp) { op.NxSend? || op.NxBlockingSend? || op.NxImmediateSend? || op.NxImmediateReadySend? }

  predicate Receives(op: CommOp) { op.NxRecv? || op.NxIrecv? }

  /**
   * A send endpoint is written as a send, a logical receive as a receive, a physical receive as a wait, a physical
   * send not at all.  Receives block in receive calls only, sends do not block in immediate calls and in MPI_Sendrecv.
   */
  lemma EndpointKeepsSide(call: Call, kind: Kind)
    ensures ActionOf(call, kind).Print? ==> var op := ActionOf(call, kind).op;
      && (Sends(op) <==> kind.LogicalSend?) && (Receives(op) <==> kind.LogicalRecv?)
      && (op.NxWait? <==> kind.PhysicalRecv?)
      && (op.NxRecv? <==> call.RecvCall? && kind.LogicalRecv?)
      && (op.NxBlockingSend? <==> kind.LogicalSend? && (call.SendCall? || call.StartCall?))
      && (op.NxImmediateReadySend? <==> kind.LogicalSend? && call.ReadySendCall?)
      && (op.NxImmediateSend? <==> kind.LogicalSend? && call.ImmediateSendCall?)
      && (op.NxSend? <==> kind.LogicalSend? && call.SendRecvCall?)
  {
  }

  /** Calls in which an endpoint of this kind is written. */
  predicate WritesKind(call: Call, kind: Kind) {
    match kind
    case LogicalSend =>
      call.SendCall? || call.ImmediateSendCall? || call.ReadySendCall? || call.SendRecvCall? || call.StartCall?
    case LogicalRecv => call.RecvCall? || call.ImmediateRecvCall? || call.SendRecvCall? || call.StartCall?
    case PhysicalRecv =>
      || call.SendCall? || call.ImmediateSendCall? || call.ReadySendCall?
      || call.WaitCall? || call.WaitManyCall? || call.SendRecvCall?
    case PhysicalSend => false
  }

  /** The record is an endpoint of a kind inside a call that writes it. */
  predicate Counts(c: Setup, open: seq<Block>, r: Record, kind: Kind) {
    r.Comm? && r.kind == kind && open != [] && WritesKind(c.callOf(open[|open| - 1].value), kind)
  }

  /** How many such endpoints some records hold. */
  function KindCount(c: Setup, rs: seq<Record>, kind: Kind): nat {
    if rs == [] then 0
    else
      KindCount(c, rs[..|rs| - 1], kind)
      + if Counts(c, OpenAfter(rs[..|rs| - 1]), rs[|rs| - 1], kind) then 1 else 0
  }

  function SendCount(ps: seq<Out>): nat {
    if ps == [] then 0
    else
      var p := ps[|ps| - 1];
      SendCount(ps[..|ps| - 1]) + if p.PointToPoint? && Sends(p.op) then 1 else 0
  }

  function ReceiveCount(ps: seq<Out>): nat {
    if ps == [] then 0
    else
      var p := ps[|ps| - 1];
      ReceiveCount(ps[..|ps| - 1]) + if p.PointToPoint? && Receives(p.op) then 1 else 0
  }

  lemma CountsMore(ps: seq<Out>, p: seq<Out>)
    requires |p| <= 1 && (p != [] ==> p[0].PointToPoint?)
    ensures SendCount(ps + p) == SendCount(ps) + if p != [] && Sends(p[0].op) then 1 else 0
    ensures ReceiveCount(ps + p) == ReceiveCount(ps) + if p != [] && Receives(p[0].op) then 1 else 0
  {
    if p != [] {
      WithoutLast(ps, p[0]);
      assert p == [p[0]];
    } else {
      assert ps + p == ps;
    }
  }

  lemma {:induction false} SidesCounted(c: Setup, rs: seq<Record>)
    ensures SendCount(WrittenFor(c, rs)) == KindCount(c, rs, LogicalSend)
    ensures ReceiveCount(WrittenFor(c, rs)) == KindCount(c, rs, LogicalRecv)
  {
    if rs != [] {
      var n := |rs| - 1;
      SidesCounted(c, rs[..n]);
      OneSide(c, OpenAfter(rs[..n]), rs[n]);
      CountsMore(WrittenFor(c, rs[..n]), PtpFor(c, OpenAfter(rs[..n]), rs[n]));
    }
  }

  lemma OneSide(c: Setup, open: seq<Block>, r: Record)
    ensures var p := PtpFor(c, open, r);
      && |p| <= 1 && (p != [] ==> p[0].PointToPoint?)
      && (p != [] && Sends(p[0].op) <==> Counts(c, open, r, LogicalSend))
      && (p != [] && Receives(p[0].op) <==> Counts(c, open, r, LogicalRecv))
  {
    if r.Comm? && open != [] {
      EndpointKeepsSide(c.callOf(open[|open| - 1].value), r.kind);
    }
  }

  /** In every run as many sends are written as there are logical sends inside sending calls, and so for receives. */
  lemma SendsAndReceivesWritten(c: Setup, emptyTask: bool, firstIdle: bool, initialTime: Time,
                                batches: seq<seq<Record>>)
    ensures var ps := PtpsOf(OnBatches(c, NewState(c, emptyTask, firstIdle, initialTime), batches).out);
      && SendCount(ps) == KindCount(c, Flat(batches), LogicalSend)
      && ReceiveCount(ps) == KindCount(c, Flat(batches), LogicalRecv)
  {
    EndpointsWritten(c, emptyTask, firstIdle, initialTime, batches);
    SidesCounted(c, Flat(batches));
  }
}
