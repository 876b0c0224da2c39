/**
 * Which waits take a collective.  A wait block that wrote a point-to-point wait should leave the asynchronous
 * collectives alone; the translator keeps one flag for this, which the beginning of any wait block clears.
 */
module PrvWaits {
  import opened PrvThread
  import opened PrvThreadLaws

  /** In the tables of the translator call number 5 is MPI_Wait, and no other is. */
  ghost predicate WaitIsCallFive(c: Setup) { forall v :: c.callOf(v).WaitCall? <==> v == WAIT_CALL }

  // ----- blocks of an output, by the positions where they begin

  /** Where the open MPI blocks began, outermost first. */
  function Open(out: seq<Out>): (at: seq<nat>)
    ensures forall d :: 0 <= d < |at| ==> at[d] < |out|
  {
    if out == [] then []
    else
      var at, r := Open(out[..|out| - 1]), out[|out| - 1];
      if MpiBegins(r) then at + [|out| - 1] else if MpiEnds(r) && at != [] then at[..|at| - 1] else at
  }

  predicate WaitBegins(r: Out) { MpiBegins(r) && r.value == WAIT_CALL }

  /** The innermost MPI block open at `k` began at `i`. */
  predicate Inside(out: seq<Out>, i: nat, k: nat)
    requires k <= |out|
  {
    var at := Open(out[..k]);
    at != [] && at[|at| - 1] == i
  }

  /** At `k` stands a point-to-point wait directly inside a wait block. */
  predicate PtpWaitAt(out: seq<Out>, k: nat)
    requires k < |out|
  {
    var at := Open(out[..k]);
    && out[k].PointToPoint? && out[k].op.NxWait?
    && at != [] && WaitBegins(out[at[|at| - 1]])
  }

  /** Another wait block began after `k` and before `p`. */
  ghost predicate WaitBeganBetween(out: seq<Out>, k: nat, p: nat)
    requires p <= |out|
  {
    exists b :: k < b < p && WaitBegins(out[b])
  }

  /** Since every point-to-point wait before `p` another wait block has begun. */
  ghost predicate AllOvertaken(out: seq<Out>, p: nat)
    requires p <= |out|
  {
    forall k :: 0 <= k < p && PtpWaitAt(out, k) ==> WaitBeganBetween(out, k, p)
  }

  predicate BeginsAs(out: seq<Out>, i: nat, value: int) { i < |out| && MpiBegins(out[i]) && out[i].value == value }

  /** Each position is that of the beginning of the block. */
  predicate BeginAt(out: seq<Out>, at: seq<nat>, blocks: seq<Block>) {
    |at| == |blocks| && forall d :: 0 <= d < |at| ==> BeginsAs(out, at[d], blocks[d].value)
  }

  lemma BeginAtMore(out: seq<Out>, n: nat, at: seq<nat>, blocks: seq<Block>)
    requires n <= |out| && BeginAt(out[..n], at, blocks)
    ensures BeginAt(out, at, blocks)
  {
    forall d | 0 <= d < |at| ensures BeginsAs(out, at[d], blocks[d].value) {
      assert BeginsAs(out[..n], at[d], blocks[d].value);
    }
  }

  lemma PushBegin(out: seq<Out>, at: seq<nat>, blocks: seq<Block>, i: nat, b: Block)
    requires BeginAt(out, at, blocks) && BeginsAs(out, i, b.value)
    ensures BeginAt(out, at + [i], blocks + [b])
  {
  }

  lemma PopBegin(out: seq<Out>, at: seq<nat>, blocks: seq<Block>)
    requires BeginAt(out, at, blocks) && at != []
    ensures BeginAt(out, at[..|at| - 1], blocks[..|blocks| - 1])
  {
  }

  /** The positions are those of the blocks that a reader has open. */
  lemma {:induction false} OpenIsBlocks(c: Setup, out: seq<Out>)
    requires ReadAll(c, out).Reading?
    ensures BeginAt(out, Open(out), ReadAll(c, out).blocks)
  {
    if out != [] {
      var n, r := |out| - 1, out[|out| - 1];
      var at, rd := Open(out[..n]), ReadAll(c, out[..n]);
      OpenIsBlocks(c, out[..n]);
      BeginAtMore(out, n, at, rd.blocks);
      BlocksAfter(c, rd, r);
      if MpiBegins(r) {
        PushBegin(out, at, rd.blocks, n, Block(r.eventType, r.value));
      } else if MpiEnds(r) {
        PopBegin(out, at, rd.blocks);
      }
    }
  }

  lemma BlocksAfter(c: Setup, rd: Reading, r: Out)
    requires rd.Reading? && Read(c, rd, r).Reading?
    ensures MpiEnds(r) ==> rd.blocks != []
    ensures Read(c, rd, r).blocks ==
      if MpiBegins(r) then rd.blocks + [Block(r.eventType, r.value)]
      else if MpiEnds(r) then rd.blocks[..|rd.blocks| - 1] else rd.blocks
  {
  }

  // ----- the flag of the reader

  /** Everything before `n` looks the same in a longer output. */
  lemma SamePositions(out: seq<Out>, n: nat, k: nat)
    requires k < n <= |out|
    ensures PtpWaitAt(out[..n], k) <==> PtpWaitAt(out, k)
  {
    assert out[..n][..k] == out[..k];
  }

  lemma OvertakenMore(out: seq<Out>)
    requires out != []
    ensures var n := |out| - 1;
      AllOvertaken(out, |out|) <==>
        if WaitBegins(out[n]) then true else AllOvertaken(out[..n], n) && !PtpWaitAt(out, n)
  {
    var n := |out| - 1;
    forall k | 0 <= k < n
      ensures PtpWaitAt(out[..n], k) <==> PtpWaitAt(out, k)
      ensures WaitBeganBetween(out, k, |out|) <==> WaitBeganBetween(out[..n], k, n) || WaitBegins(out[n])
    {
      SamePositions(out, n, k);
      if WaitBeganBetween(out[..n], k, n) {
        var b :| k < b < n && WaitBegins(out[..n][b]);
        assert WaitBegins(out[b]);
      }
      if WaitBegins(out[n]) {
        assert k < n < |out| && WaitBegins(out[n]);
      }
      if WaitBeganBetween(out, k, |out|) {
        var b :| k < b < |out| && WaitBegins(out[b]);
        assert b < n ==> WaitBegins(out[..n][b]);
      }
    }
  }

  lemma {:induction false} FlagIsOvertaken(c: Setup, out: seq<Out>)
    requires WaitIsCallFive(c) && ReadAll(c, out).Reading?
    ensures ReadAll(c, out).waited <==> !AllOvertaken(out, |out|)
  {
    if out != [] {
      var n := |out| - 1;
      FlagIsOvertaken(c, out[..n]);
      OvertakenMore(out);
      OpenIsBlocks(c, out[..n]);
      FlagStep(c, ReadAll(c, out[..n]), out[n]);
    }
  }

  lemma FlagStep(c: Setup, rd: Reading, r: Out)
    requires WaitIsCallFive(c) && rd.Reading? && Read(c, rd, r).Reading?
    ensures Read(c, rd, r).waited ==
      if WaitBegins(r) then false
      else rd.waited || (InCall(rd, WAIT_CALL) && r.PointToPoint? && r.op.NxWait?)
  {
  }

  // ----- the end of a block

  predicate IsClosing(r: Out) { r.CollectiveWait? || r.Noop? }

  /** Where the records that the end of a block at `e` writes before it begin. */
  function ClosingStart(out: seq<Out>, e: nat): (p: nat)
    requires e <= |out|
    ensures p <= e && forall k :: p <= k < e ==> IsClosing(out[k])
    ensures 0 < p ==> !IsClosing(out[p - 1])
  {
    if e != 0 && IsClosing(out[e - 1]) then ClosingStart(out, e - 1) else e
  }

  /** A collective wait stands between `p` and `m`. */
  ghost predicate Takes(out: seq<Out>, p: nat, m: nat)
    requires m <= |out|
  {
    exists j :: p <= j < m && out[j].CollectiveWait?
  }

  /** The block begun at `i` has a point-to-point wait of its own before `e`. */
  ghost predicate HasPtpWait(out: seq<Out>, i: nat, e: nat)
    requires e <= |out|
  {
    exists k :: i < k < e && Inside(out, i, k) && PtpWaitAt(out, k)
  }

  lemma ClosingStep(c: Setup, rd: Reading, r: Out)
    requires rd.Reading? && IsClosing(r) && Read(c, rd, r).Reading?
    ensures var rd' := Read(c, rd, r);
      && rd'.blocks == rd.blocks && rd'.waited == rd.waited && (rd'.took <==> rd.took || r.CollectiveWait?)
      && (r.Noop? ==> rd'.unmatched == rd.unmatched)
      && (r.CollectiveWait? ==> !rd.took && !rd.waited && rd.unmatched != [])
  {
  }

  /** What a closing has changed: nothing, or it has taken a collective that was there to take. */
  predicate ClosedBy(a: Reading, b: Reading, takes: bool) {
    && a.Reading? && b.Reading? && a.blocks == b.blocks && a.waited == b.waited && b.took == takes
    && (if takes then a.unmatched != [] && !a.waited else b.unmatched == a.unmatched)
  }

  lemma ClosedMore(c: Setup, a: Reading, b: Reading, takes: bool, r: Out)
    requires ClosedBy(a, b, takes) && IsClosing(r) && Read(c, b, r).Reading?
    ensures ClosedBy(a, Read(c, b, r), takes || r.CollectiveWait?)
  {
    ClosingStep(c, b, r);
  }

  lemma TakesMore(out: seq<Out>, p: nat, m: nat)
    requires p < m <= |out|
    ensures Takes(out, p, m) <==> Takes(out, p, m - 1) || out[m - 1].CollectiveWait?
  {
  }

  /** From the start of a closing on only the taking of a collective happens. */
  lemma {:induction false} ClosingReads(c: Setup, out: seq<Out>, p: nat, m: nat)
    requires ReadAll(c, out).Reading? && p <= m <= |out| && forall k :: p <= k < m ==> IsClosing(out[k])
    requires ReadAll(c, out[..p]).Reading? ==> !ReadAll(c, out[..p]).took
    ensures ClosedBy(ReadAll(c, out[..p]), ReadAll(c, out[..m]), Takes(out, p, m))
  {
    PrefixReadable(c, out, m);
    if p < m {
      ClosingReads(c, out, p, m - 1);
      assert out[..m] == out[..m - 1] + [out[m - 1]];
      ReadMore(c, out[..m - 1], out[m - 1]);
      ClosedMore(c, ReadAll(c, out[..p]), ReadAll(c, out[..m - 1]), Takes(out, p, m - 1), out[m - 1]);
      TakesMore(out, p, m);
    }
  }

  /** Only a closing leaves the reader with a collective just taken. */
  lemma TookIsClosing(c: Setup, out: seq<Out>)
    requires ReadAll(c, out).Reading? && ReadAll(c, out).took
    ensures out != [] && IsClosing(out[|out| - 1])
  {
  }

  /**
   * What the end of a wait block does, in every readable output: it takes a collective exactly when one is in flight
   * and every point-to-point wait written so far has been overtaken by the beginning of another wait block.
   */
  lemma WaitTakesIff(c: Setup, out: seq<Out>, e: nat, i: nat)
    requires WaitIsCallFive(c) && ReadAll(c, out).Reading? && e < |out| && MpiEnds(out[e])
    requires Inside(out, i, e) && WaitBegins(out[i])
    ensures var p := ClosingStart(out, e);
      Takes(out, p, e) <==> |Waits(out[..p])| < |Asyncs(out[..p])| && AllOvertaken(out[..p], p)
  {
    var p := ClosingStart(out, e);
    ClosingFromStart(c, out, e);
    BeforeEndSettled(c, out, e, i);
    FlagIsOvertaken(c, out[..p]);
    FirstInFirstOut(c, out[..p]);
  }

  lemma ClosingFromStart(c: Setup, out: seq<Out>, e: nat)
    requires ReadAll(c, out).Reading? && e <= |out|
    ensures var p := ClosingStart(out, e);
      var a, b := ReadAll(c, out[..p]), ReadAll(c, out[..e]);
      && a.Reading? && b.Reading? && a.waited == b.waited && (b.took <==> Takes(out, p, e))
      && (if b.took then a.unmatched != [] && !a.waited else b.unmatched == a.unmatched)
  {
    var p := ClosingStart(out, e);
    PrefixReadable(c, out, p);
    if ReadAll(c, out[..p]).took {
      TookIsClosing(c, out[..p]);
    }
    ClosingReads(c, out, p, e);
  }

  lemma BeforeEndSettled(c: Setup, out: seq<Out>, e: nat, i: nat)
    requires ReadAll(c, out).Reading? && e < |out| && MpiEnds(out[e]) && Inside(out, i, e) && WaitBegins(out[i])
    ensures var b := ReadAll(c, out[..e]);
      b.Reading? && (b.took || b.waited || b.unmatched == [])
  {
    PrefixReadable(c, out, e);
    PrefixReadable(c, out, e + 1);
    assert out[..e + 1] == out[..e] + [out[e]];
    ReadMore(c, out[..e], out[e]);
    OpenIsBlocks(c, out[..e]);
    EndSettled(c, ReadAll(c, out[..e]), out[e]);
  }

  lemma EndSettled(c: Setup, rd: Reading, r: Out)
    requires rd.Reading? && MpiEnds(r) && Read(c, rd, r).Reading?
    ensures rd.blocks != [] && WaitSettled(rd)
  {
  }

  /**
   * A wait block takes a collective after a point-to-point wait of its own exactly when it has one, a collective is in
   * flight, and since every point-to-point wait another wait block has begun: one nested in it, without such a wait.
   */
  lemma WaitsForBothIff(c: Setup, emptyTask: bool, firstIdle: bool, initialTime: Time, batches: seq<seq<Record>>,
                        e: nat, i: nat)
    requires WaitIsCallFive(c)
    requires EndsWaitBlock(OnBatches(c, NewState(c, emptyTask, firstIdle, initialTime), batches).out, e, i)
    ensures WaitsForBoth(OnBatches(c, NewState(c, emptyTask, firstIdle, initialTime), batches).out, e, i) <==>
      WaitWasOvertaken(OnBatches(c, NewState(c, emptyTask, firstIdle, initialTime), batches).out, e, i)
  {
    var out := OnBatches(c, NewState(c, emptyTask, firstIdle, initialTime), batches).out;
    EveryOutputReadable(c, emptyTask, firstIdle, initialTime, batches);
    WaitTakesIff(c, out, e, i);
    if HasPtpWait(out, i, e) && AllOvertaken(out[..ClosingStart(out, e)], ClosingStart(out, e)) {
      OvertakenInside(out, e, i);
    }
  }

  /** At `e` the wait block begun at `i` ends. */
  predicate EndsWaitBlock(out: seq<Out>, e: nat, i: nat) {
    e < |out| && MpiEnds(out[e]) && Inside(out, i, e) && i < |out| && WaitBegins(out[i])
  }

  /** It has a point-to-point wait of its own and takes a collective as well. */
  ghost predicate WaitsForBoth(out: seq<Out>, e: nat, i: nat)
    requires e < |out|
  {
    HasPtpWait(out, i, e) && Takes(out, ClosingStart(out, e), e)
  }

  /**
   * It has a point-to-point wait of its own, a collective is in flight, and another wait block has begun inside it,
   * after every point-to-point wait.
   */
  ghost predicate WaitWasOvertaken(out: seq<Out>, e: nat, i: nat)
    requires e < |out|
  {
    var p := ClosingStart(out, e);
    && HasPtpWait(out, i, e) && |Waits(out[..p])| < |Asyncs(out[..p])|
    && WaitBeganBetween(out, i, p) && AllOvertaken(out[..p], p)
  }

  /** What overtook a point-to-point wait of a block began inside that block. */
  lemma OvertakenInside(out: seq<Out>, e: nat, i: nat)
    requires e <= |out| && HasPtpWait(out, i, e) && AllOvertaken(out[..ClosingStart(out, e)], ClosingStart(out, e))
    ensures WaitBeganBetween(out, i, ClosingStart(out, e))
  {
    var p := ClosingStart(out, e);
    var k :| i < k < e && Inside(out, i, k) && PtpWaitAt(out, k);
    assert k < p;
    SamePositions(out, p, k);
    var b :| k < b < p && WaitBegins(out[..p][b]);
    assert WaitBegins(out[b]);
  }
}
