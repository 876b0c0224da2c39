/** Watching, record by record, for wait blocks that wait for a message and for a collective. */
module PrvWatch {
  import opened PrvThread
  import opened PrvThreadLaws
  import opened PrvWaits

  /** An open MPI block: where it began, its call, and whether it has a point-to-point wait of its own. */
  datatype Held = Held(at: nat, call: int, own: bool)

  /** The open blocks, whether the closing being read takes a collective, and whether some block waited for both. */
  datatype Watch = Watch(open: seq<Held>, taken: bool, both: bool)

  /** A point-to-point wait directly inside a wait block. */
  predicate WaitsOn(w: Watch, r: Out) {
    r.PointToPoint? && r.op.NxWait? && w.open != [] && w.open[|w.open| - 1].call == WAIT_CALL
  }

  /** The end of a wait block that has a point-to-point wait of its own and has just taken a collective. */
  predicate EndsBoth(w: Watch, r: Out) {
    && MpiEnds(r) && w.open != [] && w.open[|w.open| - 1].call == WAIT_CALL && w.open[|w.open| - 1].own && w.taken
  }

  function WatchOne(w: Watch, n: nat, r: Out): Watch {
    if MpiBegins(r) then w.(open := w.open + [Held(n, r.value, false)], taken := false)
    else if MpiEnds(r) && w.open != [] then
      Watch(w.open[..|w.open| - 1], false, w.both || EndsBoth(w, r))
    else if WaitsOn(w, r) then
      w.(open := w.open[|w.open| - 1 := w.open[|w.open| - 1].(own := true)], taken := false)
    else w.(taken := r.CollectiveWait? || (r.Noop? && w.taken))
  }

  function WatchAll(out: seq<Out>): Watch {
    if out == [] then Watch([], false, false) else WatchOne(WatchAll(out[..|out| - 1]), |out| - 1, out[|out| - 1])
  }

  lemma WatchMore(out: seq<Out>, r: Out)
    ensures WatchAll(out + [r]) == WatchOne(WatchAll(out), |out|, r)
  {
    assert (out + [r])[..|out|] == out;
  }

  // ----- what is watched is what is so

  /** The open blocks are those of the output. */
  predicate OpenWatched(out: seq<Out>) {
    var w, at := WatchAll(out), Open(out);
    |w.open| == |at| && forall d :: 0 <= d < |at| ==> w.open[d].at == at[d] && BeginsAs(out, at[d], w.open[d].call)
  }

  lemma {:induction false} OpenIsWatched(out: seq<Out>)
    ensures OpenWatched(out)
  {
    if out != [] {
      var n := |out| - 1;
      OpenIsWatched(out[..n]);
      forall i, call ensures BeginsAs(out[..n], i, call) ==> BeginsAs(out, i, call) {
      }
      OpenWatchedStep(out);
    }
  }

  lemma OpenWatchedStep(out: seq<Out>)
    requires out != [] && OpenWatched(out[..|out| - 1])
    requires forall i, call :: BeginsAs(out[..|out| - 1], i, call) ==> BeginsAs(out, i, call)
    ensures OpenWatched(out)
  {
    var n := |out| - 1;
    var r, w, at := out[n], WatchAll(out[..n]), Open(out[..n]);
    assert forall d :: 0 <= d < |at| ==> BeginsAs(out, at[d], w.open[d].call);
    if MpiBegins(r) {
      assert BeginsAs(out, n, r.value);
    } else if MpiEnds(r) && at != [] {
    } else {
    }
  }

  ghost predicate OwnWatched(out: seq<Out>) {
    forall d :: 0 <= d < |WatchAll(out).open| ==>
      (WatchAll(out).open[d].own <==> HasPtpWait(out, WatchAll(out).open[d].at, |out|))
  }

  lemma HasPtpWaitMore(out: seq<Out>, i: nat)
    requires out != []
    ensures var n := |out| - 1;
      HasPtpWait(out, i, |out|) <==> HasPtpWait(out[..n], i, n) || (i < n && Inside(out, i, n) && PtpWaitAt(out, n))
  {
    var n := |out| - 1;
    HasPtpWaitPrefix(out, i, n);
    if HasPtpWait(out, i, |out|) {
      var k :| i < k < |out| && Inside(out, i, k) && PtpWaitAt(out, k);
      assert k < n ==> HasPtpWait(out, i, n);
    }
  }

  lemma HasPtpWaitPrefix(out: seq<Out>, i: nat, n: nat)
    requires n <= |out|
    ensures HasPtpWait(out[..n], i, n) <==> HasPtpWait(out, i, n)
  {
    forall k | i < k < n
      ensures Inside(out[..n], i, k) <==> Inside(out, i, k)
      ensures PtpWaitAt(out[..n], k) <==> PtpWaitAt(out, k)
    {
      assert out[..n][..k] == out[..k];
    }
    if HasPtpWait(out, i, n) {
      var k :| i < k < n && Inside(out, i, k) && PtpWaitAt(out, k);
      assert Inside(out[..n], i, k) && PtpWaitAt(out[..n], k);
    }
  }

  lemma {:induction false} OpenIncreases(out: seq<Out>)
    ensures forall d, d' :: 0 <= d < d' < |Open(out)| ==> Open(out)[d] < Open(out)[d']
  {
    if out != [] {
      OpenIncreases(out[..|out| - 1]);
    }
  }

  lemma {:induction false} OwnIsWatched(out: seq<Out>)
    ensures OwnWatched(out)
  {
    if out != [] {
      var n := |out| - 1;
      OwnIsWatched(out[..n]);
      OpenIsWatched(out[..n]);
      forall d | 0 <= d < |WatchAll(out).open|
        ensures WatchAll(out).open[d].own <==> HasPtpWait(out, WatchAll(out).open[d].at, |out|)
      {
        HasPtpWaitMore(out, WatchAll(out).open[d].at);
        OwnStep(out, d);
      }
    }
  }

  lemma InsideAt(out: seq<Out>, n: nat, d: nat)
    requires n <= |out| && d < |Open(out[..n])|
    ensures Inside(out, Open(out[..n])[d], n) <==> d == |Open(out[..n])| - 1
  {
    var at := Open(out[..n]);
    OpenIncreases(out[..n]);
    if d < |at| - 1 {
      assert at[d] < at[|at| - 1];
    }
  }

  lemma OwnStep(out: seq<Out>, d: nat)
    requires out != [] && OwnWatched(out[..|out| - 1]) && OpenWatched(out[..|out| - 1])
    requires d < |WatchAll(out).open|
    ensures var n, i := |out| - 1, WatchAll(out).open[d].at;
      var hasPtpWait := HasPtpWait(out[..n], i, n) || (i < n && Inside(out, i, n) && PtpWaitAt(out, n));
      WatchAll(out).open[d].own <==> hasPtpWait
  {
    var n := |out| - 1;
    var w, at := WatchAll(out[..n]), Open(out[..n]);
    PtpWatched(out);
    if d < |at| {
      InsideAt(out, n, d);
      assert w.open[d].own <==> HasPtpWait(out[..n], at[d], n);
      OwnOne(w, n, out[n], d);
    }
  }

  lemma PtpWatched(out: seq<Out>)
    requires out != [] && OpenWatched(out[..|out| - 1])
    ensures PtpWaitAt(out, |out| - 1) <==> WaitsOn(WatchAll(out[..|out| - 1]), out[|out| - 1])
  {
    var n := |out| - 1;
    var w, at := WatchAll(out[..n]), Open(out[..n]);
    if at != [] {
      assert BeginsAs(out[..n], at[|at| - 1], w.open[|w.open| - 1].call);
    }
  }

  lemma OwnOne(w: Watch, n: nat, r: Out, d: nat)
    requires d < |w.open| && d < |WatchOne(w, n, r).open|
    ensures var h := WatchOne(w, n, r).open[d];
      h.at == w.open[d].at && (h.own <==> w.open[d].own || (WaitsOn(w, r) && d == |w.open| - 1))
  {
  }


  // ----- what a closing takes

  lemma {:induction false} ClosingStartPrefix(out: seq<Out>, n: nat, e: nat)
    requires e <= n <= |out|
    ensures ClosingStart(out[..n], e) == ClosingStart(out, e)
  {
    if e != 0 {
      ClosingStartPrefix(out, n, e - 1);
    }
  }

  lemma TakesPrefix(out: seq<Out>, n: nat, p: nat, e: nat)
    requires e <= n <= |out|
    ensures Takes(out[..n], p, e) <==> Takes(out, p, e)
  {
    if Takes(out, p, e) {
      var j :| p <= j < e && out[j].CollectiveWait?;
      assert out[..n][j].CollectiveWait?;
    }
  }

  ghost predicate Taking(out: seq<Out>, e: nat)
    requires e <= |out|
  {
    Takes(out, ClosingStart(out, e), e)
  }

  lemma TakingPrefix(out: seq<Out>, n: nat, e: nat)
    requires e <= n <= |out|
    ensures Taking(out[..n], e) <==> Taking(out, e)
  {
    ClosingStartPrefix(out, n, e);
    TakesPrefix(out, n, ClosingStart(out, e), e);
  }

  lemma {:induction false} TakenIsWatched(out: seq<Out>)
    ensures WatchAll(out).taken <==> Taking(out, |out|)
  {
    if out != [] {
      var n := |out| - 1;
      TakenIsWatched(out[..n]);
      TakingPrefix(out, n, n);
      if IsClosing(out[n]) {
        TakesMore(out, ClosingStart(out, n), n + 1);
      }
    }
  }

  // ----- waiting for both

  ghost predicate BothAt(out: seq<Out>, e: nat, i: nat) { EndsWaitBlock(out, e, i) && WaitsForBoth(out, e, i) }

  ghost predicate SomeBoth(out: seq<Out>) { exists e: nat, i: nat :: BothAt(out, e, i) }

  lemma BothAtPrefix(out: seq<Out>, n: nat, e: nat, i: nat)
    requires e < n <= |out|
    ensures BothAt(out[..n], e, i) <==> BothAt(out, e, i)
  {
    assert out[..n][..e] == out[..e];
    TakingPrefix(out, n, e);
    HasPtpWaitPrefix(out, i, e);
    HasPtpWaitPrefix(out[..n], i, e);
    if EndsWaitBlock(out, e, i) {
      assert i < e;
    }
  }

  /** The wait block that ends at the last record is the innermost one watched. */
  lemma EndIsWatched(out: seq<Out>, i: nat)
    requires out != []
    ensures var w, r := WatchAll(out[..|out| - 1]), out[|out| - 1];
      EndsWaitBlock(out, |out| - 1, i) <==>
        MpiEnds(r) && w.open != [] && w.open[|w.open| - 1].call == WAIT_CALL && w.open[|w.open| - 1].at == i
  {
    var n := |out| - 1;
    var w, at := WatchAll(out[..n]), Open(out[..n]);
    OpenIsWatched(out[..n]);
    if at != [] {
      assert BeginsAs(out[..n], at[|at| - 1], w.open[|w.open| - 1].call);
    }
  }

  /** What it waits for is watched as well. */
  lemma BothAreWatched(out: seq<Out>, i: nat)
    requires out != [] && WatchAll(out[..|out| - 1]).open != []
    requires var open := WatchAll(out[..|out| - 1]).open; open[|open| - 1].at == i
    ensures var w := WatchAll(out[..|out| - 1]);
      WaitsForBoth(out, |out| - 1, i) <==> w.open[|w.open| - 1].own && w.taken
  {
    var n := |out| - 1;
    var w := WatchAll(out[..n]);
    OwnIsWatched(out[..n]);
    assert w.open[|w.open| - 1].own <==> HasPtpWait(out[..n], w.open[|w.open| - 1].at, n);
    TakenIsWatched(out[..n]);
    TakingPrefix(out, n, n);
    HasPtpWaitPrefix(out, i, n);
  }

  lemma BothAtEnd(out: seq<Out>, i: nat)
    requires out != []
    ensures var w := WatchAll(out[..|out| - 1]);
      BothAt(out, |out| - 1, i) <==> EndsBoth(w, out[|out| - 1]) && w.open[|w.open| - 1].at == i
  {
    EndIsWatched(out, i);
    var open := WatchAll(out[..|out| - 1]).open;
    if open != [] && open[|open| - 1].at == i {
      BothAreWatched(out, i);
    }
  }

  lemma SomeBothBefore(out: seq<Out>)
    requires out != [] && SomeBoth(out[..|out| - 1])
    ensures SomeBoth(out)
  {
    var e: nat, i: nat :| BothAt(out[..|out| - 1], e, i);
    BothAtPrefix(out, |out| - 1, e, i);
  }

  lemma SomeBothNow(out: seq<Out>)
    requires out != [] && EndsBoth(WatchAll(out[..|out| - 1]), out[|out| - 1])
    ensures SomeBoth(out)
  {
    var open := WatchAll(out[..|out| - 1]).open;
    BothAtEnd(out, open[|open| - 1].at);
  }

  lemma OneOfBoth(out: seq<Out>, e: nat, i: nat)
    requires out != [] && BothAt(out, e, i)
    ensures SomeBoth(out[..|out| - 1]) || EndsBoth(WatchAll(out[..|out| - 1]), out[|out| - 1])
  {
    if e < |out| - 1 {
      BothAtPrefix(out, |out| - 1, e, i);
      BothIsSome(out[..|out| - 1], e, i);
    } else {
      BothAtEnd(out, i);
    }
  }

  lemma BothIsSome(out: seq<Out>, e: nat, i: nat)
    requires BothAt(out, e, i)
    ensures SomeBoth(out)
  {
  }

  lemma SomeBothMore(out: seq<Out>)
    requires out != []
    ensures SomeBoth(out) <==> SomeBoth(out[..|out| - 1]) || EndsBoth(WatchAll(out[..|out| - 1]), out[|out| - 1])
  {
    if SomeBoth(out[..|out| - 1]) {
      SomeBothBefore(out);
    }
    if EndsBoth(WatchAll(out[..|out| - 1]), out[|out| - 1]) {
      SomeBothNow(out);
    }
    if SomeBoth(out) {
      var e: nat, i: nat :| BothAt(out, e, i);
      OneOfBoth(out, e, i);
    }
  }

  /** The watch notices whether a wait block waits for both. */
  lemma {:induction false} BothIsWatched(out: seq<Out>)
    ensures WatchAll(out).both <==> SomeBoth(out)
  {
    if out != [] {
      BothIsWatched(out[..|out| - 1]);
      SomeBothMore(out);
      BothStep(WatchAll(out[..|out| - 1]), |out| - 1, out[|out| - 1]);
    }
  }

  lemma BothStep(w: Watch, n: nat, r: Out)
    ensures WatchOne(w, n, r).both <==> w.both || EndsBoth(w, r)
  {
  }
}
