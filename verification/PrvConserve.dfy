/** What becomes of the communications of a trace, from the first pass to the translation of each thread. */
module PrvConserve {
  import opened PrvSplit
  import Merge = PrvMerge
  import opened PrvThread
  import opened PrvQueue
  import opened PrvDispatch
  import opened PrvGiven
  import opened Sequences

  predicate OwnedBy(e: Endpoint, task: int, thread: int) { e.owner.task == task && e.owner.thread == thread }

  predicate TimesFit(es: seq<Endpoint>) { forall e :: e in es ==> e.time < TWO_TO_64 }

  /** The records that the owner of some endpoints is given for them, in their order. */
  function CommsFor(es: seq<Endpoint>, task: int, thread: int): seq<Record>
    requires TimesFit(es)
  {
    if es == [] then []
    else CommsFor(es[..|es| - 1], task, thread) + CommFor(es[|es| - 1], task, thread)
  }

  function CommFor(e: Endpoint, task: int, thread: int): seq<Record>
    requires e.time < TWO_TO_64
  {
    if OwnedBy(e, task, thread) then [Comm(e.time, e.kind, e.partner.task, e.size, e.tag, e.commId)] else []
  }

  function CommRecords(rs: seq<Record>): seq<Record> {
    if rs == [] then []
    else CommRecords(rs[..|rs| - 1]) + if rs[|rs| - 1].Comm? then [rs[|rs| - 1]] else []
  }

  // ----- from the merge to the thread

  lemma CommRecordsMore(rs: seq<Record>, r: Record)
    ensures CommRecords(rs + [r]) == CommRecords(rs) + if r.Comm? then [r] else []
  {
    WithoutLast(rs, r);
  }

  lemma {:induction false} CommRecordsConcat(a: seq<Record>, b: seq<Record>)
    ensures CommRecords(a + b) == CommRecords(a) + CommRecords(b)
  {
    if b == [] {
      assert a + b == a;
    } else {
      var n := |b| - 1;
      CommRecordsConcat(a, b[..n]);
      LastApart(a, b);
      CommRecordsMore(a + b[..n], b[n]);
      CommRecordsMore(b[..n], b[n]);
    }
  }

  lemma {:induction false} SubEventsNoComms(time: Time, pairs: seq<Merge.Pair>)
    ensures CommRecords(SubEvents(time, pairs)) == []
  {
    if pairs != [] {
      var n := |pairs| - 1;
      SubEventsNoComms(time, pairs[..n]);
      CommRecordsConcat(SubEvents(time, pairs[..n]), [Event(time, pairs[n].eventType, pairs[n].value)]);
    }
  }

  lemma IdleNoComms(begin: Time, end: Time)
    ensures CommRecords(IdleBlock(begin, end)) == []
  {
    assert IdleBlock(begin, end)[..1] == [Event(begin, 0, 1)] && IdleBlock(begin, end)[..0] == [];
    assert CommRecords([Event(begin, 0, 1)]) == [];
  }

  lemma CheckIdleNoComms(l: Lane, now: Time)
    ensures CommRecords(CheckIdle(l, now).pushed) == CommRecords(l.pushed)
  {
    if l.last.EndsAt? && l.last.end < now {
      IdleNoComms(l.last.end, now);
      CommRecordsConcat(l.pushed, IdleBlock(l.last.end, now));
    }
  }

  lemma DispatchComms(l: Lane, s: Merge.Selected)
    requires Fits(s)
    ensures CommRecords(Dispatch(l, s).pushed) == CommRecords(l.pushed)
      + if s.FromComms? then CommFor(s.endpoint, s.endpoint.owner.task, s.endpoint.owner.thread) else []
  {
    match s
    case FromTrace(State(begin, _, _, end, value)) =>
      IdleNoComms(begin, end);
      CommRecordsConcat(l.pushed, IdleBlock(begin, end));
      assert l.pushed + [] == l.pushed;
    case FromTrace(Event(time, _, _, pairs)) =>
      CheckIdleNoComms(l, time);
      SubEventsNoComms(time, pairs);
      CommRecordsConcat(CheckIdle(l, time).pushed, SubEvents(time, pairs));
    case FromComms(e) =>
      CheckIdleNoComms(l, e.time);
      CommRecordsConcat(CheckIdle(l, e.time).pushed,
                        [Comm(e.time, e.kind, e.partner.task, e.size, e.tag, e.commId)]);
  }

  lemma CommsForMore(es: seq<Endpoint>, e: Endpoint, task: int, thread: int)
    requires TimesFit(es + [e])
    ensures TimesFit(es) && CommsFor(es + [e], task, thread) == CommsFor(es, task, thread) + CommFor(e, task, thread)
  {
    assert forall x :: x in es ==> x in es + [e];
    assert e in es + [e];
    assert (es + [e])[..|es|] == es;
  }

  lemma DispatchMore(own: seq<Merge.Selected>, s: Merge.Selected)
    requires AllFit(own + [s])
    ensures AllFit(own) && DispatchAll(own + [s]) == Dispatch(DispatchAll(own), s)
  {
    assert forall x :: x in own ==> x in own + [s];
    assert s in own + [s];
    assert (own + [s])[..|own|] == own;
  }

  lemma GivenOneMore(out: seq<Merge.Selected>, s: Merge.Selected, task: int, thread: int)
    requires AllFit(Own(out + [s], task, thread)) && TimesFit(Merge.CommsPart(out + [s]))
    requires AllFit(Own(out, task, thread)) && TimesFit(Merge.CommsPart(out))
    requires CommRecords(DispatchAll(Own(out, task, thread)).pushed) == CommsFor(Merge.CommsPart(out), task, thread)
    ensures CommRecords(DispatchAll(Own(out + [s], task, thread)).pushed)
         == CommsFor(Merge.CommsPart(out + [s]), task, thread)
  {
    var own, es := Own(out, task, thread), Merge.CommsPart(out);
    OwnMore(out, s, task, thread);
    CommsPartMore(out, s);
    assert es + [] == es && own + [] == own;
    if s.FromComms? {
      CommsForMore(es, s.endpoint, task, thread);
    }
    if Owned(s, task, thread) {
      DispatchMore(own, s);
      DispatchComms(DispatchAll(own), s);
    }
  }

  /** A thread is given the communication records of its own endpoints, in their order. */
  lemma {:induction false} GivenComms(out: seq<Merge.Selected>, task: int, thread: int)
    requires AllFit(Own(out, task, thread)) && TimesFit(Merge.CommsPart(out))
    ensures CommRecords(DispatchAll(Own(out, task, thread)).pushed) == CommsFor(Merge.CommsPart(out), task, thread)
  {
    if out != [] {
      var n := |out| - 1;
      assert out[..n] + [out[n]] == out;
      CommsPartMore(out[..n], out[n]);
      OwnMore(out[..n], out[n], task, thread);
      assert forall e :: e in Merge.CommsPart(out[..n]) ==> e in Merge.CommsPart(out);
      assert forall x :: x in Own(out[..n], task, thread) ==> x in Own(out, task, thread);
      GivenComms(out[..n], task, thread);
      GivenOneMore(out[..n], out[n], task, thread);
    }
  }

  // ----- the order does not matter

  lemma {:induction false} CommsForConcat(a: seq<Endpoint>, b: seq<Endpoint>, task: int, thread: int)
    requires TimesFit(a + b)
    ensures TimesFit(a) && TimesFit(b)
    ensures CommsFor(a + b, task, thread) == CommsFor(a, task, thread) + CommsFor(b, task, thread)
  {
    FitApart(a, b);
    if b == [] {
      assert a + b == a;
    } else {
      var n := |b| - 1;
      LastApart(a, b);
      CommsForMore(a + b[..n], b[n], task, thread);
      CommsForMore(b[..n], b[n], task, thread);
      CommsForConcat(a, b[..n], task, thread);
    }
  }

  lemma FitApart(a: seq<Endpoint>, b: seq<Endpoint>)
    requires TimesFit(a + b)
    ensures TimesFit(a) && TimesFit(b)
  {
    assert forall e :: e in a || e in b ==> e in a + b;
  }

  lemma CommsForWithout(a: seq<Endpoint>, k: nat, task: int, thread: int)
    requires TimesFit(a) && k < |a|
    ensures TimesFit(a[..k] + a[k + 1..])
    ensures multiset(CommsFor(a, task, thread))
         == multiset(CommsFor(a[..k] + a[k + 1..], task, thread)) + multiset(CommFor(a[k], task, thread))
  {
    var front, e, back := a[..k], a[k], a[k + 1..];
    AtApart(a, k);
    CommsForConcat(front + [e], back, task, thread);
    CommsForMore(front, e, task, thread);
    CommsForConcat(front, back, task, thread);
  }

  lemma {:induction false} SameComms(a: seq<Endpoint>, b: seq<Endpoint>, task: int, thread: int)
    requires TimesFit(a) && TimesFit(b) && multiset(a) == multiset(b)
    ensures multiset(CommsFor(a, task, thread)) == multiset(CommsFor(b, task, thread))
    decreases |b|
  {
    if b == [] {
      assert |a| == |multiset(a)| == 0;
    } else {
      var n := |b| - 1;
      var k := OneOf(a, b, n);
      var rest := a[..k] + a[k + 1..];
      CommsForWithout(a, k, task, thread);
      LastApart([], b);
      CommsForMore(b[..n], b[n], task, thread);
      SameRest(a, b, k);
      SameComms(rest, b[..n], task, thread);
    }
  }

  lemma SameRest(a: seq<Endpoint>, b: seq<Endpoint>, k: nat)
    requires b != [] && multiset(a) == multiset(b) && k < |a| && a[k] == b[|b| - 1]
    ensures multiset(a[..k] + a[k + 1..]) == multiset(b[..|b| - 1])
  {
    var n := |b| - 1;
    RemoveAt(a, k);
    RemoveAt(b, n);
    assert b[..n] + b[n + 1..] == b[..n];
  }

  lemma {:induction false} CommRecordsCount(rs: seq<Record>, r: Record)
    ensures multiset(CommRecords(rs))[r] == if r.Comm? then multiset(rs)[r] else 0
  {
    if rs != [] {
      var n := |rs| - 1;
      CommRecordsCount(rs[..n], r);
      LastApart([], rs);
      CommRecordsMore(rs[..n], rs[n]);
      assert multiset(rs) == multiset(rs[..n]) + multiset{rs[n]};
    }
  }

  lemma SameCommRecords(a: seq<Record>, b: seq<Record>, rs: seq<Record>)
    requires multiset(a) + multiset(b) == multiset(rs)
    ensures multiset(CommRecords(a)) + multiset(CommRecords(b)) == multiset(CommRecords(rs))
  {
    forall r
      ensures (multiset(CommRecords(a)) + multiset(CommRecords(b)))[r] == multiset(CommRecords(rs))[r]
    {
      CommRecordsCount(a, r);
      CommRecordsCount(b, r);
      CommRecordsCount(rs, r);
    }
  }

  // ----- in the fields of the communications

  predicate TimesAre64Bit(c: Communication) {
    && c.logicalSend < TWO_TO_64 && c.physicalSend < TWO_TO_64
    && c.logicalRecv < TWO_TO_64 && c.physicalRecv < TWO_TO_64
  }

  predicate AllTimesFit(records: seq<Parsed>) {
    forall r :: 0 <= r < |records| && records[r].CommRecord? ==> TimesAre64Bit(records[r].comm)
  }

  /** What a communication, the `id`-th record, is for a thread: the sends it makes and the receives it gets. */
  function EndsIn(c: Communication, id: nat, task: int, thread: int): seq<Record>
    requires TimesAre64Bit(c)
  {
    var sends, receives := c.src.task == task && c.src.thread == thread, c.dst.task == task && c.dst.thread == thread;
    var logicalSend := Comm(c.logicalSend, LogicalSend, c.dst.task, c.size, c.tag, id);
    var physicalSend := Comm(c.physicalSend, PhysicalSend, c.dst.task, c.size, c.tag, id);
    var logicalRecv := Comm(c.logicalRecv, LogicalRecv, c.src.task, c.size, c.tag, id);
    var physicalRecv := Comm(c.physicalRecv, PhysicalRecv, c.src.task, c.size, c.tag, id);
    if sends && receives then [logicalSend, logicalRecv, physicalSend, physicalRecv]
    else if sends then [logicalSend, physicalSend]
    else if receives then [logicalRecv, physicalRecv]
    else []
  }

  /** What the first `n` records of a trace hold for a thread. */
  function EndsOf(records: seq<Parsed>, n: nat, task: int, thread: int): seq<Record>
    requires n <= |records| && AllTimesFit(records)
  {
    if n == 0 then []
    else
      EndsOf(records, n - 1, task, thread)
      + match records[n - 1] case EventRecord => [] case CommRecord(c) => EndsIn(c, n, task, thread)
  }

  lemma FourFor(c: Communication, n: nat, task: int, thread: int)
    requires TimesAre64Bit(c)
    ensures TimesFit(FourOf(c, n))
    ensures CommsFor(FourOf(c, n), task, thread)
         == CommFor(EndpointOf(LogicalSend, c, n), task, thread)
            + CommFor(EndpointOf(LogicalRecv, c, n), task, thread)
            + CommFor(EndpointOf(PhysicalSend, c, n), task, thread)
            + CommFor(EndpointOf(PhysicalRecv, c, n), task, thread)
  {
    var ls, lr := EndpointOf(LogicalSend, c, n), EndpointOf(LogicalRecv, c, n);
    var ps, pr := EndpointOf(PhysicalSend, c, n), EndpointOf(PhysicalRecv, c, n);
    assert FourOf(c, n) == [] + [ls] + [lr] + [ps] + [pr];
    CommsForMore([], ls, task, thread);
    CommsForMore([] + [ls], lr, task, thread);
    CommsForMore([] + [ls] + [lr], ps, task, thread);
    CommsForMore([] + [ls] + [lr] + [ps], pr, task, thread);
  }

  lemma FourAreEnds(c: Communication, n: nat, task: int, thread: int)
    requires TimesAre64Bit(c)
    ensures TimesFit(FourOf(c, n)) && CommsFor(FourOf(c, n), task, thread) == EndsIn(c, n, task, thread)
  {
    FourFor(c, n, task, thread);
  }

  lemma FourMore(before: seq<Endpoint>, c: Communication, n: nat, task: int, thread: int)
    requires TimesFit(before) && TimesAre64Bit(c)
    ensures TimesFit(before + FourOf(c, n))
    ensures CommsFor(before + FourOf(c, n), task, thread) == CommsFor(before, task, thread) + EndsIn(c, n, task, thread)
  {
    FourAreEnds(c, n, task, thread);
    CommsForConcat(before, FourOf(c, n), task, thread);
  }

  lemma {:induction false} SplitIsEnds(records: seq<Parsed>, n: nat, task: int, thread: int)
    requires n <= |records| && AllTimesFit(records)
    ensures TimesFit(SplitFrom(records, n))
    ensures CommsFor(SplitFrom(records, n), task, thread) == EndsOf(records, n, task, thread)
  {
    if n != 0 {
      var before := SplitFrom(records, n - 1);
      SplitIsEnds(records, n - 1, task, thread);
      match records[n - 1]
      case EventRecord =>
        assert SplitFrom(records, n) == before;
      case CommRecord(c) =>
        FourMore(before, c, n, task, thread);
    }
  }

  /**
   * From the communications of a trace to the translation of a thread.  The communication records that the thread
   * translates, with those it drops, are exactly the sends and receives that the trace has for it, whatever the order
   * in which things happen; when nothing happens inside its idle states, it drops none.
   */
  lemma EndpointsReachTheirThread(mpiTypes: set<int>, records: seq<Parsed>, trace: seq<Merge.TraceRecord>,
                                  endpoints: seq<Endpoint>, task: int, thread: int, inside: Inside, sort: Sort)
    requires multiset(endpoints) == multiset(SplitFrom(records, |records|)) && StrictlySorted(endpoints)
    requires AllTimesFit(records) && Merge.TraceSorted(trace) && Rearranges(sort)
    requires AllFit(Own(Merge.Merged(mpiTypes, trace, endpoints), task, thread))
    ensures var own := Own(Merge.Merged(mpiTypes, trace, endpoints), task, thread);
      var q := Finished(inside, sort, DispatchAll(own).pushed);
      && multiset(CommRecords(Flat(q.batches))) + multiset(CommRecords(q.dropped))
           == multiset(EndsOf(records, |records|, task, thread))
      && (IdleIsQuiet(own) ==> q.dropped == [])
  {
    var all, out := SplitFrom(records, |records|), Merge.Merged(mpiTypes, trace, endpoints);
    var given := DispatchAll(Own(out, task, thread)).pushed;
    var q := Finished(inside, sort, given);
    SplitIsEnds(records, |records|, task, thread);
    assert TimesFit(endpoints) by {
      forall e | e in endpoints ensures e in all {
        assert e in multiset(all);
      }
    }
    Merge.MergeConserves(mpiTypes, trace, endpoints);
    GivenComms(out, task, thread);
    SameComms(endpoints, all, task, thread);
    NothingLost(inside, sort, given);
    SameCommRecords(Flat(q.batches), q.dropped, given);
    if IdleIsQuiet(Own(out, task, thread)) {
      ThreadTranslatedOnceInOrder(mpiTypes, trace, endpoints, task, thread, inside, sort);
    }
  }

  lemma EndsStep(records: seq<Parsed>, n: nat, task: int, thread: int)
    requires 0 < n <= |records| && AllTimesFit(records)
    ensures EndsOf(records, n - 1, task, thread) <= EndsOf(records, n, task, thread)
  {
  }

  lemma {:induction false} PrefixesGrow(parts: seq<seq<Record>>, k: nat, n: nat)
    requires k <= n < |parts| && forall i :: 0 < i < |parts| ==> parts[i - 1] <= parts[i]
    ensures parts[k] <= parts[n]
  {
    if k < n {
      PrefixesGrow(parts, k, n - 1);
      assert parts[n - 1] <= parts[n];
    }
  }

  /** What all beginnings of a trace hold. */
  lemma EndsSoFar(records: seq<Parsed>, n: nat, task: int, thread: int) returns (parts: seq<seq<Record>>)
    requires n <= |records| && AllTimesFit(records)
    ensures |parts| == n + 1 && forall i :: 0 <= i <= n ==> parts[i] == EndsOf(records, i, task, thread)
    ensures forall i :: 0 < i <= n ==> parts[i - 1] <= parts[i]
  {
    parts := seq(n + 1, (i: nat) requires i <= n => EndsOf(records, i, task, thread));
    forall i | 0 < i <= n ensures parts[i - 1] <= parts[i] {
      EndsStep(records, i, task, thread);
    }
  }

  lemma EndsGrow(records: seq<Parsed>, k: nat, n: nat, task: int, thread: int)
    requires k <= n <= |records| && AllTimesFit(records)
    ensures EndsOf(records, k, task, thread) <= EndsOf(records, n, task, thread)
  {
    var parts := EndsSoFar(records, n, task, thread);
    PrefixesGrow(parts, k, n);
  }

  lemma EndsLast(records: seq<Parsed>, r: nat, task: int, thread: int)
    requires r < |records| && AllTimesFit(records) && records[r].CommRecord?
    ensures EndsOf(records, r + 1, task, thread)
         == EndsOf(records, r, task, thread) + EndsIn(records[r].comm, r + 1, task, thread)
  {
  }

  lemma InEither(front: seq<Record>, back: seq<Record>, all: seq<Record>)
    requires front + back <= all
    ensures forall e :: e in back ==> e in all
  {
    forall e | e in back ensures e in all {
      var k :| 0 <= k < |back| && back[k] == e;
      assert all[|front| + k] == (front + back)[|front| + k];
    }
  }

  lemma EndsHold(records: seq<Parsed>, n: nat, r: nat, task: int, thread: int)
    requires r < n <= |records| && AllTimesFit(records) && records[r].CommRecord?
    ensures forall e :: e in EndsIn(records[r].comm, r + 1, task, thread) ==> e in EndsOf(records, n, task, thread)
  {
    EndsLast(records, r, task, thread);
    EndsGrow(records, r + 1, n, task, thread);
    InEither(EndsOf(records, r, task, thread), EndsIn(records[r].comm, r + 1, task, thread),
             EndsOf(records, n, task, thread));
  }

  /** The communication, the `id`-th record, is among what its sender and its receiver translate. */
  predicate Arrived(c: Communication, id: nat, sender: seq<Record>, receiver: seq<Record>)
    requires TimesAre64Bit(c)
  {
    && Comm(c.logicalSend, LogicalSend, c.dst.task, c.size, c.tag, id) in sender
    && Comm(c.physicalSend, PhysicalSend, c.dst.task, c.size, c.tag, id) in sender
    && Comm(c.logicalRecv, LogicalRecv, c.src.task, c.size, c.tag, id) in receiver
    && Comm(c.physicalRecv, PhysicalRecv, c.src.task, c.size, c.tag, id) in receiver
  }

  lemma EndsArrive(c: Communication, id: nat, sender: seq<Record>, receiver: seq<Record>)
    requires TimesAre64Bit(c)
    requires forall e :: e in EndsIn(c, id, c.src.task, c.src.thread) ==> e in sender
    requires forall e :: e in EndsIn(c, id, c.dst.task, c.dst.thread) ==> e in receiver
    ensures Arrived(c, id, sender, receiver)
  {
    assert Comm(c.logicalSend, LogicalSend, c.dst.task, c.size, c.tag, id) in EndsIn(c, id, c.src.task, c.src.thread);
    assert Comm(c.physicalSend, PhysicalSend, c.dst.task, c.size, c.tag, id) in EndsIn(c, id, c.src.task, c.src.thread);
    assert Comm(c.logicalRecv, LogicalRecv, c.src.task, c.size, c.tag, id) in EndsIn(c, id, c.dst.task, c.dst.thread);
    assert Comm(c.physicalRecv, PhysicalRecv, c.src.task, c.size, c.tag, id) in EndsIn(c, id, c.dst.task, c.dst.thread);
  }

  /** What a thread translates. */
  ghost function TranslatedBy(mpiTypes: set<int>, trace: seq<Merge.TraceRecord>, endpoints: seq<Endpoint>,
                              who: Party, inside: Inside, sort: Sort): seq<Record>
    requires AllFit(Own(Merge.Merged(mpiTypes, trace, endpoints), who.task, who.thread))
  {
    var own := Own(Merge.Merged(mpiTypes, trace, endpoints), who.task, who.thread);
    Flat(Finished(inside, sort, DispatchAll(own).pushed).batches)
  }

  /** Each communication of the trace is translated by both of its threads, if both are quiet while idle. */
  lemma CommunicationArrives(mpiTypes: set<int>, records: seq<Parsed>, trace: seq<Merge.TraceRecord>,
                             endpoints: seq<Endpoint>, r: nat,
                             inside: Inside, inside': Inside, sort: Sort, sort': Sort)
    requires multiset(endpoints) == multiset(SplitFrom(records, |records|)) && StrictlySorted(endpoints)
    requires AllTimesFit(records) && Merge.TraceSorted(trace) && Rearranges(sort) && Rearranges(sort')
    requires r < |records| && records[r].CommRecord?
    requires forall p :: p in [records[r].comm.src, records[r].comm.dst] ==>
      var own := Own(Merge.Merged(mpiTypes, trace, endpoints), p.task, p.thread);
      AllFit(own) && IdleIsQuiet(own)
    ensures var c := records[r].comm;
      Arrived(c, r + 1, TranslatedBy(mpiTypes, trace, endpoints, c.src, inside, sort),
              TranslatedBy(mpiTypes, trace, endpoints, c.dst, inside', sort'))
  {
    var c := records[r].comm;
    assert c.src in [c.src, c.dst] && c.dst in [c.src, c.dst];
    EndpointsReachTheirThread(mpiTypes, records, trace, endpoints, c.src.task, c.src.thread, inside, sort);
    EndpointsReachTheirThread(mpiTypes, records, trace, endpoints, c.dst.task, c.dst.thread, inside', sort');
    EndsHold(records, |records|, r, c.src.task, c.src.thread);
    EndsHold(records, |records|, r, c.dst.task, c.dst.thread);
    NoneDropped(TranslatedBy(mpiTypes, trace, endpoints, c.src, inside, sort),
                EndsOf(records, |records|, c.src.task, c.src.thread));
    NoneDropped(TranslatedBy(mpiTypes, trace, endpoints, c.dst, inside', sort'),
                EndsOf(records, |records|, c.dst.task, c.dst.thread));
    EndsArrive(c, r + 1, TranslatedBy(mpiTypes, trace, endpoints, c.src, inside, sort),
               TranslatedBy(mpiTypes, trace, endpoints, c.dst, inside', sort'));
  }

  lemma NoneDropped(translated: seq<Record>, ends: seq<Record>)
    requires multiset(CommRecords(translated)) + multiset(CommRecords([])) == multiset(ends)
    ensures forall r :: r in ends ==> r in translated
  {
    forall r | r in ends ensures r in translated {
      CommRecordsCount(translated, r);
      assert r in multiset(ends);
    }
  }
}
