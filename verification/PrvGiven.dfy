/** What a thread is given, record by record of the merge: its events one by one, and blocks for the time it is idle. */
module PrvGiven {
  import opened PrvSplit
  import Merge = PrvMerge
  import opened PrvThread
  import opened PrvDispatch
  import opened Sequences

  /** What one record of the merge gives to its thread: an idle block before it, if any, and its own records. */
  datatype Part = Part(gap: seq<Record>, body: seq<Record>)

  function Joined(parts: seq<Part>): seq<Record> {
    if parts == [] then []
    else Joined(parts[..|parts| - 1]) + parts[|parts| - 1].gap + parts[|parts| - 1].body
  }

  /** The last state before `n` and everything behind it reach until `t`. */
  ghost predicate ReachesUntil(own: seq<Merge.Selected>, n: nat, t: int)
    requires n <= |own|
  {
    exists k :: 0 <= k < n && LastStateAt(own, n, k) && LatestFrom(own, n, k, t)
  }

  predicate LastStateAt(own: seq<Merge.Selected>, n: nat, k: nat)
    requires k < n <= |own|
  {
    IsState(own[k]) && forall j :: k < j < n ==> !IsState(own[j])
  }

  /** `t` is the latest of the end of the state at `k` and the times of the records behind it. */
  ghost predicate LatestFrom(own: seq<Merge.Selected>, n: nat, k: nat, t: int)
    requires k < n <= |own| && IsState(own[k])
  {
    && own[k].rec.end <= t && (forall j :: k < j < n ==> Merge.TimeOfSelected(own[j]) <= t)
    && (own[k].rec.end == t || exists j :: k < j < n && Merge.TimeOfSelected(own[j]) == t)
  }

  /** The idle block before the record at `n` spans the time from where its last state reaches to the record. */
  ghost predicate GapAt(own: seq<Merge.Selected>, n: nat, gap: seq<Record>)
    requires n < |own| && Fits(own[n])
  {
    var now: Time := Merge.TimeOfSelected(own[n]);
    if IsState(own[n]) then gap == []
    else
      || (gap == [] && forall t :: ReachesUntil(own, n, t) ==> now <= t)
      || (exists t: Time :: ReachesUntil(own, n, t) && t < now && gap == [Event(t, 0, 1), Event(now, 0, 0)])
  }

  /** An idle state is a block, an event one record for each of its pairs, an endpoint its communication. */
  predicate BodyOf(s: Merge.Selected, body: seq<Record>)
    requires Fits(s)
  {
    match s
    case FromTrace(State(begin, _, _, end, value)) =>
      body == if value == 0 then [Event(begin, 0, 1), Event(end, 0, 0)] else []
    case FromTrace(Event(time, _, _, pairs)) =>
      && |body| == |pairs|
      && forall i :: 0 <= i < |pairs| ==> body[i] == Event(time, pairs[i].eventType, pairs[i].value)
    case FromComms(e) =>
      body == [Comm(e.time, e.kind, e.partner.task, e.size, e.tag, e.commId)]
  }

  ghost predicate PartAt(own: seq<Merge.Selected>, n: nat, p: Part)
    requires n < |own| && AllFit(own)
  {
    assert own[n] in own;
    GapAt(own, n, p.gap) && BodyOf(own[n], p.body)
  }

  ghost predicate PartsOf(own: seq<Merge.Selected>, parts: seq<Part>)
    requires AllFit(own)
  {
    |parts| == |own| && forall n :: 0 <= n < |own| ==> PartAt(own, n, parts[n])
  }

  // ----- a longer stream begins with the same parts

  lemma ReachesPrefix(own: seq<Merge.Selected>, m: nat, n: nat, t: int)
    requires n <= m <= |own|
    ensures ReachesUntil(own[..m], n, t) <==> ReachesUntil(own, n, t)
  {
    forall k | 0 <= k < n
      ensures LastStateAt(own[..m], n, k) <==> LastStateAt(own, n, k)
      ensures IsState(own[k]) ==> (LatestFrom(own[..m], n, k, t) <==> LatestFrom(own, n, k, t))
    {
      SameUpTo(own, m, n, k, t);
    }
  }

  lemma SameUpTo(own: seq<Merge.Selected>, m: nat, n: nat, k: nat, t: int)
    requires k < n <= m <= |own|
    ensures LastStateAt(own[..m], n, k) <==> LastStateAt(own, n, k)
    ensures IsState(own[k]) ==> (LatestFrom(own[..m], n, k, t) <==> LatestFrom(own, n, k, t))
  {
    forall j | k <= j < n ensures own[..m][j] == own[j] {
    }
    if IsState(own[k]) && LatestFrom(own, n, k, t) && own[k].rec.end != t {
      var j :| k < j < n && Merge.TimeOfSelected(own[j]) == t;
      assert Merge.TimeOfSelected(own[..m][j]) == t;
    }
  }

  lemma GapPrefix(own: seq<Merge.Selected>, m: nat, n: nat, gap: seq<Record>)
    requires n < m <= |own| && Fits(own[n]) && GapAt(own[..m], n, gap)
    ensures GapAt(own, n, gap)
  {
    forall t ensures ReachesUntil(own[..m], n, t) <==> ReachesUntil(own, n, t) {
      ReachesPrefix(own, m, n, t);
    }
    assert own[..m][n] == own[n];
  }

  // ----- the last state of a lane

  /** The lane knows how far the last state and what is behind it reach. */
  ghost predicate Knows(l: Lane, own: seq<Merge.Selected>) {
    match l.last
    case NoState => forall k :: 0 <= k < |own| ==> !IsState(own[k])
    case EndsAt(end) => ReachesUntil(own, |own|, end)
  }

  lemma ReachesOnce(own: seq<Merge.Selected>, n: nat, t: int, t': int)
    requires n <= |own| && ReachesUntil(own, n, t) && ReachesUntil(own, n, t')
    ensures t == t'
  {
    var k :| 0 <= k < n && LastStateAt(own, n, k) && LatestFrom(own, n, k, t);
    var k' :| 0 <= k' < n && LastStateAt(own, n, k') && LatestFrom(own, n, k', t');
    assert k == k';
  }

  lemma StateReaches(own: seq<Merge.Selected>, s: Merge.Selected)
    requires IsState(s)
    ensures ReachesUntil(own + [s], |own| + 1, s.rec.end)
  {
    var all := own + [s];
    assert LastStateAt(all, |all|, |own|) && LatestFrom(all, |all|, |own|, s.rec.end);
  }

  lemma LaterReaches(own: seq<Merge.Selected>, s: Merge.Selected, t: int)
    requires !IsState(s) && ReachesUntil(own, |own|, t)
    ensures var now := Merge.TimeOfSelected(s); ReachesUntil(own + [s], |own| + 1, if t < now then now else t)
  {
    var all, n, now := own + [s], |own|, Merge.TimeOfSelected(s);
    var k :| 0 <= k < n && LastStateAt(own, n, k) && LatestFrom(own, n, k, t);
    assert forall j :: 0 <= j < n ==> all[j] == own[j];
    assert all[n] == s;
    assert LastStateAt(all, n + 1, k);
    if t < now {
      assert LatestFrom(all, n + 1, k, now);
    } else if own[k].rec.end != t {
      var j :| k < j < n && Merge.TimeOfSelected(own[j]) == t;
      assert Merge.TimeOfSelected(all[j]) == t;
    }
  }

  lemma KnowsMore(l: Lane, own: seq<Merge.Selected>, s: Merge.Selected)
    requires Knows(l, own) && Fits(s)
    ensures Knows(Dispatch(l, s), own + [s])
  {
    if IsState(s) {
      StateReaches(own, s);
    } else if l.last.EndsAt? {
      LaterReaches(own, s, l.last.end);
    } else {
      assert forall k :: 0 <= k < |own| + 1 ==> !IsState((own + [s])[k]);
    }
  }

  // ----- one more record

  /** What one record adds. */
  function PartFor(l: Lane, s: Merge.Selected): Part
    requires Fits(s)
  {
    var now: Time := Merge.TimeOfSelected(s);
    var gap := if !IsState(s) && l.last.EndsAt? && l.last.end < now then IdleBlock(l.last.end, now) else [];
    match s
    case FromTrace(State(begin, _, _, end, value)) => Part(gap, if value == 0 then IdleBlock(begin, end) else [])
    case FromTrace(Event(time, _, _, pairs)) => Part(gap, SubEvents(time, pairs))
    case FromComms(e) => Part(gap, [Comm(e.time, e.kind, e.partner.task, e.size, e.tag, e.commId)])
  }

  lemma DispatchPart(l: Lane, s: Merge.Selected)
    requires Fits(s)
    ensures Dispatch(l, s).pushed == l.pushed + PartFor(l, s).gap + PartFor(l, s).body
  {
  }

  lemma {:induction false} SubEventsByPosition(time: Time, pairs: seq<Merge.Pair>)
    ensures |SubEvents(time, pairs)| == |pairs|
    ensures forall i :: 0 <= i < |pairs| ==>
      SubEvents(time, pairs)[i] == Event(time, pairs[i].eventType, pairs[i].value)
  {
    if pairs != [] {
      SubEventsByPosition(time, pairs[..|pairs| - 1]);
    }
  }

  lemma BodyIsRight(l: Lane, s: Merge.Selected)
    requires Fits(s)
    ensures BodyOf(s, PartFor(l, s).body)
  {
    if s.FromTrace? && s.rec.Event? {
      SubEventsByPosition(s.rec.time, s.rec.pairs);
    }
  }

  lemma GapIsRight(l: Lane, own: seq<Merge.Selected>, s: Merge.Selected)
    requires Knows(l, own) && Fits(s)
    ensures GapAt(own + [s], |own|, PartFor(l, s).gap)
  {
    var all, n := own + [s], |own|;
    assert all[n] == s && all[..n] == own;
    forall t ensures ReachesUntil(own, n, t) <==> ReachesUntil(all, n, t) {
      ReachesPrefix(all, n, n, t);
    }
    if !IsState(s) && l.last.EndsAt? {
      forall t | ReachesUntil(all, n, t) ensures t == l.last.end {
        ReachesOnce(own, n, t, l.last.end);
      }
    }
  }

  lemma PartsMore(own: seq<Merge.Selected>, s: Merge.Selected, parts: seq<Part>, p: Part)
    requires AllFit(own + [s]) && AllFit(own) && PartsOf(own, parts)
    requires Fits(s) && GapAt(own + [s], |own|, p.gap) && BodyOf(s, p.body)
    ensures PartsOf(own + [s], parts + [p])
  {
    var all := own + [s];
    assert all[..|own|] == own;
    forall n | 0 <= n < |all| ensures PartAt(all, n, (parts + [p])[n]) {
      if n < |own| {
        assert PartAt(own, n, parts[n]) && all[n] == own[n];
        GapPrefix(all, |own|, n, parts[n].gap);
      }
    }
  }

  lemma {:induction false} GivenWithLast(own: seq<Merge.Selected>) returns (parts: seq<Part>)
    requires AllFit(own)
    ensures PartsOf(own, parts) && DispatchAll(own).pushed == Joined(parts) && Knows(DispatchAll(own), own)
  {
    if own == [] {
      parts := [];
    } else {
      var n := |own| - 1;
      var front, s := own[..n], own[n];
      assert front + [s] == own && s in own;
      assert forall x :: x in front ==> x in own;
      parts := GivenWithLast(front);
      var l := DispatchAll(front);
      DispatchPart(l, s);
      BodyIsRight(l, s);
      GapIsRight(l, front, s);
      KnowsMore(l, front, s);
      PartsMore(front, s, parts, PartFor(l, s));
      WithoutLast(parts, PartFor(l, s));
      parts := parts + [PartFor(l, s)];
    }
  }

  /**
   * What a thread is given is, one after the other, the parts of its records: each event type with its value, each
   * endpoint as its communication, and idle blocks over exactly the idle states and the gaps behind states.
   */
  lemma GivenByPosition(own: seq<Merge.Selected>) returns (parts: seq<Part>)
    requires AllFit(own)
    ensures PartsOf(own, parts) && DispatchAll(own).pushed == Joined(parts)
  {
    parts := GivenWithLast(own);
  }

  // ----- the records of a thread are those of the two inputs

  /** The records of a trace that belong to a thread. */
  function TraceOf(trace: seq<Merge.TraceRecord>, task: int, thread: int): seq<Merge.TraceRecord> {
    if trace == [] then []
    else
      var r := trace[|trace| - 1];
      TraceOf(trace[..|trace| - 1], task, thread) + if r.task == task && r.thread == thread then [r] else []
  }

  /** The endpoints that belong to a thread. */
  function EndpointsOf(comms: seq<Endpoint>, task: int, thread: int): seq<Endpoint> {
    if comms == [] then []
    else
      var e := comms[|comms| - 1];
      EndpointsOf(comms[..|comms| - 1], task, thread)
      + if e.owner.task == task && e.owner.thread == thread then [e] else []
  }

  lemma {:induction false} TracePartMore(out: seq<Merge.Selected>, s: Merge.Selected)
    ensures Merge.TracePart(out + [s]) == if s.FromTrace? then Merge.TracePart(out) + [s.rec] else Merge.TracePart(out)
  {
    if out == [] {
      assert [] + [s] == [s] && [s][1..] == [];
    } else {
      TracePartMore(out[1..], s);
      assert (out + [s])[1..] == out[1..] + [s] && (out + [s])[0] == out[0];
    }
  }

  lemma {:induction false} CommsPartMore(out: seq<Merge.Selected>, s: Merge.Selected)
    ensures Merge.CommsPart(out + [s])
         == if s.FromComms? then Merge.CommsPart(out) + [s.endpoint] else Merge.CommsPart(out)
  {
    if out == [] {
      assert [] + [s] == [s] && [s][1..] == [];
    } else {
      CommsPartMore(out[1..], s);
      assert (out + [s])[1..] == out[1..] + [s] && (out + [s])[0] == out[0];
    }
  }

  lemma OwnMore(out: seq<Merge.Selected>, s: Merge.Selected, task: int, thread: int)
    ensures Own(out + [s], task, thread)
         == if Owned(s, task, thread) then Own(out, task, thread) + [s] else Own(out, task, thread)
  {
    WithoutLast(out, s);
  }

  lemma TraceOfMore(trace: seq<Merge.TraceRecord>, r: Merge.TraceRecord, task: int, thread: int)
    ensures TraceOf(trace + [r], task, thread)
         == if r.task == task && r.thread == thread then TraceOf(trace, task, thread) + [r]
            else TraceOf(trace, task, thread)
  {
    WithoutLast(trace, r);
  }

  lemma EndpointsOfMore(comms: seq<Endpoint>, e: Endpoint, task: int, thread: int)
    ensures EndpointsOf(comms + [e], task, thread)
         == if e.owner.task == task && e.owner.thread == thread then EndpointsOf(comms, task, thread) + [e]
            else EndpointsOf(comms, task, thread)
  {
    WithoutLast(comms, e);
  }

  lemma OwnKeepsOneRecord(out: seq<Merge.Selected>, r: Merge.TraceRecord, task: int, thread: int)
    requires Merge.TracePart(Own(out, task, thread)) == TraceOf(Merge.TracePart(out), task, thread)
    ensures Merge.TracePart(Own(out + [Merge.FromTrace(r)], task, thread))
         == TraceOf(Merge.TracePart(out + [Merge.FromTrace(r)]), task, thread)
  {
    OwnMore(out, Merge.FromTrace(r), task, thread);
    TracePartMore(out, Merge.FromTrace(r));
    TraceOfMore(Merge.TracePart(out), r, task, thread);
    if r.task == task && r.thread == thread {
      TracePartMore(Own(out, task, thread), Merge.FromTrace(r));
    }
  }

  lemma OwnKeepsOneEndpoint(out: seq<Merge.Selected>, e: Endpoint, task: int, thread: int)
    requires Merge.CommsPart(Own(out, task, thread)) == EndpointsOf(Merge.CommsPart(out), task, thread)
    ensures Merge.CommsPart(Own(out + [Merge.FromComms(e)], task, thread))
         == EndpointsOf(Merge.CommsPart(out + [Merge.FromComms(e)]), task, thread)
  {
    OwnMore(out, Merge.FromComms(e), task, thread);
    CommsPartMore(out, Merge.FromComms(e));
    EndpointsOfMore(Merge.CommsPart(out), e, task, thread);
    if e.owner.task == task && e.owner.thread == thread {
      CommsPartMore(Own(out, task, thread), Merge.FromComms(e));
    }
  }

  /** A record leaves the endpoints alone, and an endpoint the records. */
  lemma OtherPart(out: seq<Merge.Selected>, s: Merge.Selected, task: int, thread: int)
    ensures s.FromTrace? ==>
      && Merge.CommsPart(out + [s]) == Merge.CommsPart(out)
      && Merge.CommsPart(Own(out + [s], task, thread)) == Merge.CommsPart(Own(out, task, thread))
    ensures s.FromComms? ==>
      && Merge.TracePart(out + [s]) == Merge.TracePart(out)
      && Merge.TracePart(Own(out + [s], task, thread)) == Merge.TracePart(Own(out, task, thread))
  {
    OwnMore(out, s, task, thread);
    TracePartMore(out, s);
    CommsPartMore(out, s);
    if Owned(s, task, thread) {
      TracePartMore(Own(out, task, thread), s);
      CommsPartMore(Own(out, task, thread), s);
    }
  }

  lemma OwnKeepsOne(out: seq<Merge.Selected>, s: Merge.Selected, task: int, thread: int)
    requires Merge.TracePart(Own(out, task, thread)) == TraceOf(Merge.TracePart(out), task, thread)
    requires Merge.CommsPart(Own(out, task, thread)) == EndpointsOf(Merge.CommsPart(out), task, thread)
    ensures Merge.TracePart(Own(out + [s], task, thread)) == TraceOf(Merge.TracePart(out + [s]), task, thread)
    ensures Merge.CommsPart(Own(out + [s], task, thread)) == EndpointsOf(Merge.CommsPart(out + [s]), task, thread)
  {
    OtherPart(out, s, task, thread);
    match s
    case FromTrace(r) => OwnKeepsOneRecord(out, r, task, thread);
    case FromComms(e) => OwnKeepsOneEndpoint(out, e, task, thread);
  }

  lemma {:induction false} OwnKeeps(out: seq<Merge.Selected>, task: int, thread: int)
    ensures Merge.TracePart(Own(out, task, thread)) == TraceOf(Merge.TracePart(out), task, thread)
    ensures Merge.CommsPart(Own(out, task, thread)) == EndpointsOf(Merge.CommsPart(out), task, thread)
  {
    if out != [] {
      var n := |out| - 1;
      OwnKeeps(out[..n], task, thread);
      LastApart([], out);
      OwnKeepsOne(out[..n], out[n], task, thread);
    }
  }

  /** From the two inputs: a thread is given the parts of its own records of the trace and of its own endpoints. */
  lemma ThreadIsGivenItsOwn(mpiTypes: set<int>, trace: seq<Merge.TraceRecord>, comms: seq<Endpoint>,
                            task: int, thread: int) returns (own: seq<Merge.Selected>, parts: seq<Part>)
    requires AllFit(Own(Merge.Merged(mpiTypes, trace, comms), task, thread)) && Merge.NoEmptyEvent(trace)
    ensures own == Own(Merge.Merged(mpiTypes, trace, comms), task, thread)
    ensures Merge.TracePart(own) == TraceOf(trace, task, thread)
    ensures Merge.CommsPart(own) == EndpointsOf(comms, task, thread)
    ensures PartsOf(own, parts) && DispatchAll(own).pushed == Joined(parts)
  {
    own := Own(Merge.Merged(mpiTypes, trace, comms), task, thread);
    Merge.MergeConserves(mpiTypes, trace, comms);
    OwnKeeps(Merge.Merged(mpiTypes, trace, comms), task, thread);
    parts := GivenByPosition(own);
  }
}
