/** Second pass of the translator: the records of the trace and the sorted endpoints, merged into one stream. */
module PrvMerge {
  import opened Options
  import opened PrvSplit

  datatype Pair = Pair(eventType: int, value: int)

  /** Records that the second pass reads: events, states with their beginning as time, and global operations. */
  datatype TraceRecord =
    | Event(time: nat, task: int, thread: int, pairs: seq<Pair>)
    | State(time: nat, task: int, thread: int, end: nat, value: int)
    | GlobalOp(time: nat, task: int, thread: int)

  datatype Selected = FromTrace(rec: TraceRecord) | FromComms(endpoint: Endpoint)

  function TimeOfSelected(s: Selected): nat {
    match s case FromTrace(r) => r.time case FromComms(e) => e.time
  }

  datatype ParseResult = Parsed(pairs: seq<Pair>) | WrongRecord | Unpaired | NoPairs

  /** ParseEvent: the tokens behind the five header fields, two by two. */
  method ParseEvent(headerOk: bool, tokens: seq<int>) returns (r: ParseResult)
    ensures r.WrongRecord? <==> !headerOk
    ensures r.Unpaired? <==> headerOk && |tokens| % 2 == 1
    ensures r.NoPairs? <==> headerOk && |tokens| == 0
    ensures r.Parsed? ==> r.pairs != [] && 2 * |r.pairs| == |tokens|
    ensures r.Parsed? ==> forall i :: 0 <= i < |r.pairs| ==> r.pairs[i] == Pair(tokens[2 * i], tokens[2 * i + 1])
  {
    if !headerOk { return WrongRecord; }
    var pairs: seq<Pair> := [];
    var k := 0;
    while k < |tokens|
      invariant k == 2 * |pairs| <= |tokens|
      invariant forall i :: 0 <= i < |pairs| ==> pairs[i] == Pair(tokens[2 * i], tokens[2 * i + 1])
    {
      if k + 1 == |tokens| { return Unpaired; }
      pairs := pairs + [Pair(tokens[k], tokens[k + 1])];
      k := k + 2;
    }
    if |pairs| == 0 { return NoPairs; }
    r := Parsed(pairs);
  }

  // ----- what the merge is

  predicate IsBlockEnd(mpiTypes: set<int>, r: TraceRecord) {
    r.Event? && r.pairs != [] && r.pairs[0].eventType in mpiTypes && r.pairs[0].value == 0
  }

  /** The trace record goes first unless an endpoint is due: earlier, or then for another task or at a block end. */
  predicate TraceFirst(mpiTypes: set<int>, r: TraceRecord, e: Endpoint) {
    || r.time < e.time
    || (r.time == e.time && r.task == e.owner.task && !IsBlockEnd(mpiTypes, r) && !(r.Event? && r.pairs == []))
  }

  /** An event without pairs that meets an endpoint of its task and time disappears. */
  predicate Swallowed(r: TraceRecord, e: Endpoint) {
    r.Event? && r.pairs == [] && r.time == e.time && r.task == e.owner.task
  }

  /** What one selection does with the heads of the two inputs. */
  datatype Choice = Stop | TakeTrace | TakeComm | TakeCommLoseTrace

  function Choose(mpiTypes: set<int>, trace: Option<TraceRecord>, comm: Option<Endpoint>): Choice {
    match (trace, comm)
    case (None, None) => Stop
    case (None, Some(_)) => TakeComm
    case (Some(_), None) => TakeTrace
    case (Some(r), Some(e)) =>
      if TraceFirst(mpiTypes, r, e) then TakeTrace else if Swallowed(r, e) then TakeCommLoseTrace else TakeComm
  }

  function Head<T>(s: seq<T>): Option<T> { if s == [] then None else Some(s[0]) }

  function ChooseHead(mpiTypes: set<int>, trace: seq<TraceRecord>, comms: seq<Endpoint>): (c: Choice)
    ensures c.TakeTrace? || c.TakeCommLoseTrace? ==> trace != []
    ensures c.TakeComm? || c.TakeCommLoseTrace? ==> comms != []
  {
    Choose(mpiTypes, Head(trace), Head(comms))
  }

  function Merged(mpiTypes: set<int>, trace: seq<TraceRecord>, comms: seq<Endpoint>): seq<Selected>
    decreases |trace| + |comms|
  {
    match ChooseHead(mpiTypes, trace, comms)
    case Stop => []
    case TakeTrace => [FromTrace(trace[0])] + Merged(mpiTypes, trace[1..], comms)
    case TakeComm => [FromComms(comms[0])] + Merged(mpiTypes, trace, comms[1..])
    case TakeCommLoseTrace => [FromComms(comms[0])] + Merged(mpiTypes, trace[1..], comms[1..])
  }

  function TracePart(s: seq<Selected>): seq<TraceRecord> {
    if s == [] then [] else (if s[0].FromTrace? then [s[0].rec] else []) + TracePart(s[1..])
  }

  function CommsPart(s: seq<Selected>): seq<Endpoint> {
    if s == [] then [] else (if s[0].FromComms? then [s[0].endpoint] else []) + CommsPart(s[1..])
  }

  /** Every event has a pair, as ParseEvent guarantees. */
  predicate NoEmptyEvent(trace: seq<TraceRecord>) {
    forall i :: 0 <= i < |trace| ==> trace[i].Event? ==> trace[i].pairs != []
  }

  /** Both inputs come out in their own order, the endpoints complete, the trace too if no event is empty. */
  lemma {:induction false} MergeConserves(mpiTypes: set<int>, trace: seq<TraceRecord>, comms: seq<Endpoint>)
    ensures NoEmptyEvent(trace) ==> TracePart(Merged(mpiTypes, trace, comms)) == trace
    ensures CommsPart(Merged(mpiTypes, trace, comms)) == comms
    decreases |trace| + |comms|
  {
    var m := Merged(mpiTypes, trace, comms);
    match ChooseHead(mpiTypes, trace, comms)
    case Stop =>
    case TakeTrace =>
      MergeConserves(mpiTypes, trace[1..], comms);
      assert m[1..] == Merged(mpiTypes, trace[1..], comms);
    case TakeComm =>
      MergeConserves(mpiTypes, trace, comms[1..]);
      assert m[1..] == Merged(mpiTypes, trace, comms[1..]);
    case TakeCommLoseTrace =>
      MergeConserves(mpiTypes, trace[1..], comms[1..]);
      assert m[1..] == Merged(mpiTypes, trace[1..], comms[1..]);
  }

  /** Without that guarantee a record can be lost. */
  lemma EmptyEventLost()
    ensures var p := Party(0, 1, 1, 1);
      TracePart(Merged({}, [Event(5, 1, 1, [])], [Endpoint(LogicalSend, 5, p, p, 0, 0, 1, 0)])) == []
  {
    var p := Party(0, 1, 1, 1);
    var e := Endpoint(LogicalSend, 5, p, p, 0, 0, 1, 0);
    assert [e][1..] == [] && [Event(5, 1, 1, [])][1..] == [];
    assert Merged({}, [], []) == [];
    assert Merged({}, [Event(5, 1, 1, [])], [e]) == [FromComms(e)];
  }

  predicate TraceSorted(trace: seq<TraceRecord>) {
    forall i, j :: 0 <= i < j < |trace| ==> trace[i].time <= trace[j].time
  }

  predicate CommsSorted(comms: seq<Endpoint>) {
    forall i, j :: 0 <= i < j < |comms| ==> comms[i].time <= comms[j].time
  }

  predicate OutputSorted(s: seq<Selected>) {
    forall i, j :: 0 <= i < j < |s| ==> TimeOfSelected(s[i]) <= TimeOfSelected(s[j])
  }

  predicate NotBefore(s: seq<Selected>, t: nat) {
    forall i :: 0 <= i < |s| ==> t <= TimeOfSelected(s[i])
  }

  lemma {:induction false} MergeNotBefore(mpiTypes: set<int>, trace: seq<TraceRecord>, comms: seq<Endpoint>, t: nat)
    requires forall i :: 0 <= i < |trace| ==> t <= trace[i].time
    requires forall i :: 0 <= i < |comms| ==> t <= comms[i].time
    ensures NotBefore(Merged(mpiTypes, trace, comms), t)
    decreases |trace| + |comms|
  {
    match ChooseHead(mpiTypes, trace, comms)
    case Stop =>
    case TakeTrace => MergeNotBefore(mpiTypes, trace[1..], comms, t);
    case TakeComm => MergeNotBefore(mpiTypes, trace, comms[1..], t);
    case TakeCommLoseTrace => MergeNotBefore(mpiTypes, trace[1..], comms[1..], t);
  }

  lemma SortedCons(s: Selected, rest: seq<Selected>)
    requires OutputSorted(rest) && NotBefore(rest, TimeOfSelected(s))
    ensures OutputSorted([s] + rest)
  {
  }

  /** Merging two sorted inputs gives a sorted output. */
  lemma {:induction false} MergeSorted(mpiTypes: set<int>, trace: seq<TraceRecord>, comms: seq<Endpoint>)
    requires TraceSorted(trace) && CommsSorted(comms)
    ensures OutputSorted(Merged(mpiTypes, trace, comms))
    decreases |trace| + |comms|
  {
    match ChooseHead(mpiTypes, trace, comms)
    case Stop =>
    case TakeTrace =>
      MergeSorted(mpiTypes, trace[1..], comms);
      MergeNotBefore(mpiTypes, trace[1..], comms, trace[0].time);
      SortedCons(FromTrace(trace[0]), Merged(mpiTypes, trace[1..], comms));
    case TakeComm =>
      MergeSorted(mpiTypes, trace, comms[1..]);
      MergeNotBefore(mpiTypes, trace, comms[1..], comms[0].time);
      SortedCons(FromComms(comms[0]), Merged(mpiTypes, trace, comms[1..]));
    case TakeCommLoseTrace =>
      MergeSorted(mpiTypes, trace[1..], comms[1..]);
      MergeNotBefore(mpiTypes, trace[1..], comms[1..], comms[0].time);
      SortedCons(FromComms(comms[0]), Merged(mpiTypes, trace[1..], comms[1..]));
  }

  /** An MPI block ends in the output only after every endpoint that is not later, of any task. */
  lemma {:induction false} BlockEndAfterEndpoints(mpiTypes: set<int>, trace: seq<TraceRecord>, comms: seq<Endpoint>,
                                                  k: nat)
    requires CommsSorted(comms) && k < |Merged(mpiTypes, trace, comms)|
    requires Merged(mpiTypes, trace, comms)[k].FromTrace?
    requires var r := Merged(mpiTypes, trace, comms)[k].rec;
      r.Event? && r.pairs != [] && r.pairs[0].eventType in mpiTypes && r.pairs[0].value == 0
    ensures var out := CommsPart(Merged(mpiTypes, trace, comms)[..k]);
      && |out| <= |comms| && out == comms[..|out|]
      && forall i :: |out| <= i < |comms| ==> Merged(mpiTypes, trace, comms)[k].rec.time < comms[i].time
    decreases |trace| + |comms|
  {
    var m := Merged(mpiTypes, trace, comms);
    if k == 0 {
      assert m[..0] == [];
    } else {
      assert m[..k][0] == m[0] && m[..k][1..] == m[1..][..k - 1];
      match ChooseHead(mpiTypes, trace, comms)
      case TakeTrace => BlockEndAfterEndpoints(mpiTypes, trace[1..], comms, k - 1);
      case TakeComm => BlockEndAfterEndpoints(mpiTypes, trace, comms[1..], k - 1);
      case TakeCommLoseTrace => BlockEndAfterEndpoints(mpiTypes, trace[1..], comms[1..], k - 1);
    }
  }

  // ----- which of two simultaneous records of a task comes first

  /**
   * An endpoint is due before a trace record if it is earlier, or simultaneous and of another task, or simultaneous
   * with the end of an MPI block or with an event without pairs.
   */
  predicate Due(mpiTypes: set<int>, e: Endpoint, r: TraceRecord) {
    || e.time < r.time
    || (e.time == r.time && e.owner.task != r.task)
    || (e.time == r.time && r.Event?
        && (r.pairs == [] || (r.pairs[0].eventType in mpiTypes && r.pairs[0].value == 0)))
  }

  /** How many endpoints stand in `out` before its trace record number `a`. */
  function EndpointsBefore(out: seq<Selected>, a: nat): nat {
    if out == [] then 0
    else if out[0].FromComms? then 1 + EndpointsBefore(out[1..], a)
    else if a == 0 then 0
    else EndpointsBefore(out[1..], a - 1)
  }

  /** The first endpoint from `b` on that lets the trace record go first. */
  function FirstAllowed(mpiTypes: set<int>, r: TraceRecord, comms: seq<Endpoint>, b: nat): (k: nat)
    requires b <= |comms|
    ensures b <= k <= |comms|
    ensures forall i :: b <= i < k ==> Due(mpiTypes, comms[i], r)
    ensures k < |comms| ==> !Due(mpiTypes, comms[k], r)
    decreases |comms| - b
  {
    if b == |comms| || !Due(mpiTypes, comms[b], r) then b else FirstAllowed(mpiTypes, r, comms, b + 1)
  }

  /** Endpoints taken before trace record `a` is reached, and before it goes out. */
  function Reached(mpiTypes: set<int>, trace: seq<TraceRecord>, comms: seq<Endpoint>, a: nat): (k: nat)
    requires a < |trace|
    ensures k <= |comms|
    decreases a, 0
  {
    if a == 0 then 0 else Left(mpiTypes, trace, comms, a - 1)
  }

  function Left(mpiTypes: set<int>, trace: seq<TraceRecord>, comms: seq<Endpoint>, a: nat): (k: nat)
    requires a < |trace|
    ensures Reached(mpiTypes, trace, comms, a) <= k <= |comms|
    decreases a, 1
  {
    FirstAllowed(mpiTypes, trace[a], comms, Reached(mpiTypes, trace, comms, a))
  }

  lemma {:induction false} FirstAllowedShift(mpiTypes: set<int>, r: TraceRecord, comms: seq<Endpoint>, b: nat)
    requires b < |comms|
    ensures FirstAllowed(mpiTypes, r, comms, b + 1) == FirstAllowed(mpiTypes, r, comms[1..], b) + 1
    decreases |comms| - b
  {
    if b + 1 < |comms| {
      FirstAllowedShift(mpiTypes, r, comms, b + 1);
    }
  }

  /** Once the first endpoint is taken, everything shifts by one. */
  lemma {:induction false} LeftWithoutEndpoint(mpiTypes: set<int>, trace: seq<TraceRecord>, comms: seq<Endpoint>,
                                               a: nat)
    requires a < |trace| && comms != [] && Due(mpiTypes, comms[0], trace[0])
    ensures Left(mpiTypes, trace, comms, a) == Left(mpiTypes, trace, comms[1..], a) + 1
  {
    if a == 0 {
      FirstAllowedShift(mpiTypes, trace[0], comms, 0);
    } else {
      LeftWithoutEndpoint(mpiTypes, trace, comms, a - 1);
      FirstAllowedShift(mpiTypes, trace[a], comms, Left(mpiTypes, trace, comms[1..], a - 1));
    }
  }

  lemma {:induction false} LeftWithoutRecord(mpiTypes: set<int>, trace: seq<TraceRecord>, comms: seq<Endpoint>, a: nat)
    requires 0 < a < |trace| && (comms == [] || !Due(mpiTypes, comms[0], trace[0]))
    ensures Left(mpiTypes, trace, comms, a) == Left(mpiTypes, trace[1..], comms, a - 1)
  {
    if 1 < a {
      LeftWithoutRecord(mpiTypes, trace, comms, a - 1);
    }
  }

  /** The merge puts exactly those endpoints before a trace record that were taken when it goes out. */
  lemma {:induction false} BeforeIsLeft(mpiTypes: set<int>, trace: seq<TraceRecord>, comms: seq<Endpoint>, a: nat)
    requires NoEmptyEvent(trace) && a < |trace|
    ensures EndpointsBefore(Merged(mpiTypes, trace, comms), a) == Left(mpiTypes, trace, comms, a)
    decreases |trace| + |comms|
  {
    var m := Merged(mpiTypes, trace, comms);
    match ChooseHead(mpiTypes, trace, comms)
    case TakeTrace =>
      assert m[1..] == Merged(mpiTypes, trace[1..], comms);
      if a != 0 {
        BeforeIsLeft(mpiTypes, trace[1..], comms, a - 1);
        LeftWithoutRecord(mpiTypes, trace, comms, a);
      }
    case TakeComm =>
      assert m[1..] == Merged(mpiTypes, trace, comms[1..]);
      BeforeIsLeft(mpiTypes, trace, comms[1..], a);
      LeftWithoutEndpoint(mpiTypes, trace, comms, a);
  }

  /** A record that is reached before endpoint `b` is taken, and goes out after it. */
  predicate HoldsUp(mpiTypes: set<int>, trace: seq<TraceRecord>, comms: seq<Endpoint>, q: nat, b: nat)
    requires q < |trace| && b < |comms|
  {
    && Reached(mpiTypes, trace, comms, q) <= b
    && forall i :: Reached(mpiTypes, trace, comms, q) <= i <= b ==> Due(mpiTypes, comms[i], trace[q])
  }

  lemma {:induction false} HeldUpBySome(mpiTypes: set<int>, trace: seq<TraceRecord>, comms: seq<Endpoint>,
                                        a: nat, b: nat)
    requires a < |trace| && b < Left(mpiTypes, trace, comms, a)
    ensures exists q :: 0 <= q <= a && HoldsUp(mpiTypes, trace, comms, q, b)
  {
    if b < Reached(mpiTypes, trace, comms, a) {
      HeldUpBySome(mpiTypes, trace, comms, a - 1, b);
    } else {
      assert HoldsUp(mpiTypes, trace, comms, a, b);
    }
  }

  lemma {:induction false} LeftGrows(mpiTypes: set<int>, trace: seq<TraceRecord>, comms: seq<Endpoint>, q: nat, a: nat)
    requires q <= a < |trace|
    ensures Left(mpiTypes, trace, comms, q) <= Left(mpiTypes, trace, comms, a)
  {
    if q < a {
      LeftGrows(mpiTypes, trace, comms, q, a - 1);
    }
  }

  /**
   * An endpoint comes out before a record of its task and time that ends no block exactly when an earlier record of
   * that time holds the trace up for longer than the endpoint: one that ends a block, or one of another task that met
   * no endpoint of its own task on the way.
   */
  lemma EndpointFirstIff(mpiTypes: set<int>, trace: seq<TraceRecord>, comms: seq<Endpoint>, a: nat, b: nat)
    requires TraceSorted(trace) && CommsSorted(comms) && NoEmptyEvent(trace) && a < |trace| && b < |comms|
    requires trace[a].time == comms[b].time && trace[a].task == comms[b].owner.task && !IsBlockEnd(mpiTypes, trace[a])
    ensures b < EndpointsBefore(Merged(mpiTypes, trace, comms), a) <==>
      exists q :: 0 <= q < a && HoldsUp(mpiTypes, trace, comms, q, b)
    ensures forall q :: 0 <= q < a && HoldsUp(mpiTypes, trace, comms, q, b) ==>
      trace[q].time == trace[a].time && (IsBlockEnd(mpiTypes, trace[q]) || trace[q].task != trace[a].task)
  {
    BeforeIsLeft(mpiTypes, trace, comms, a);
    if b < Left(mpiTypes, trace, comms, a) {
      HeldUpBefore(mpiTypes, trace, comms, a, b);
    }
    forall q | 0 <= q < a && HoldsUp(mpiTypes, trace, comms, q, b)
      ensures b < Left(mpiTypes, trace, comms, a)
      ensures trace[q].time == trace[a].time && (IsBlockEnd(mpiTypes, trace[q]) || trace[q].task != trace[a].task)
    {
      HolderStays(mpiTypes, trace, comms, q, a, b);
    }
  }

  lemma HeldUpBefore(mpiTypes: set<int>, trace: seq<TraceRecord>, comms: seq<Endpoint>, a: nat, b: nat)
    requires a < |trace| && b < |comms| && !Due(mpiTypes, comms[b], trace[a])
    requires b < Left(mpiTypes, trace, comms, a)
    ensures exists q :: 0 <= q < a && HoldsUp(mpiTypes, trace, comms, q, b)
  {
    HeldUpBySome(mpiTypes, trace, comms, a, b);
    var q :| 0 <= q <= a && HoldsUp(mpiTypes, trace, comms, q, b);
    assert q != a;
  }

  lemma HolderStays(mpiTypes: set<int>, trace: seq<TraceRecord>, comms: seq<Endpoint>, q: nat, a: nat, b: nat)
    requires TraceSorted(trace) && NoEmptyEvent(trace) && q < a < |trace| && b < |comms|
    requires trace[a].time == comms[b].time && trace[a].task == comms[b].owner.task
    requires HoldsUp(mpiTypes, trace, comms, q, b)
    ensures b < Left(mpiTypes, trace, comms, a)
    ensures trace[q].time == trace[a].time && (IsBlockEnd(mpiTypes, trace[q]) || trace[q].task != trace[a].task)
  {
    LeftGrows(mpiTypes, trace, comms, q, a);
    assert Due(mpiTypes, comms[b], trace[q]) && trace[q].time <= trace[a].time;
  }

  /** If only records of its task precede it at its time, and none ends a block, a record precedes its endpoints. */
  lemma RecordBeforeItsEndpoints(mpiTypes: set<int>, trace: seq<TraceRecord>, comms: seq<Endpoint>, a: nat, b: nat)
    requires TraceSorted(trace) && CommsSorted(comms) && NoEmptyEvent(trace) && a < |trace| && b < |comms|
    requires trace[a].time == comms[b].time && trace[a].task == comms[b].owner.task
    requires forall q :: 0 <= q <= a && trace[q].time == trace[a].time ==>
      && trace[q].task == trace[a].task
      && (trace[q].Event? ==> trace[q].pairs[0].eventType !in mpiTypes || trace[q].pairs[0].value != 0)
    ensures EndpointsBefore(Merged(mpiTypes, trace, comms), a) <= b
  {
    EndpointFirstIff(mpiTypes, trace, comms, a, b);
  }

  /** A state of another task is enough to let an endpoint out before the beginning of its call. */
  lemma EndpointBeforeItsCall()
    ensures var p := Party(0, 1, 1, 1);
      var e := Endpoint(LogicalSend, 5, p, p, 0, 0, 1, 0);
      var idle, call := State(5, 2, 1, 9, 0), Event(5, 1, 1, [Pair(50000001, 1)]);
      Merged({50000001}, [idle, call], [e]) == [FromComms(e), FromTrace(idle), FromTrace(call)]
  {
    var p := Party(0, 1, 1, 1);
    var e := Endpoint(LogicalSend, 5, p, p, 0, 0, 1, 0);
    var idle, call := State(5, 2, 1, 9, 0), Event(5, 1, 1, [Pair(50000001, 1)]);
    assert [e][1..] == [] && [idle, call][1..] == [call] && [call][1..] == [];
    assert Merged({50000001}, [], []) == [];
    assert Merged({50000001}, [call], []) == [FromTrace(call)];
    assert Merged({50000001}, [idle, call], []) == [FromTrace(idle), FromTrace(call)];
  }

  // ----- SelectNextRecord

  /** The parser's input and the cursors that SelectNextRecord keeps between calls. */
  class Merger {
    const mpiTypes: set<int>
    const input: seq<TraceRecord>
    const comms: seq<Endpoint>
    /** The trace ends in a line that cannot be parsed. */
    const broken: bool
    var next: nat
    var parserError: bool
    var currentTraceRecord: Option<TraceRecord>
    var communicationIndex: nat
    var lastRecordTrace: bool
    var error: bool

    constructor (mpiTypes: set<int>, input: seq<TraceRecord>, comms: seq<Endpoint>, broken: bool)
      ensures this.mpiTypes == mpiTypes && this.input == input && this.comms == comms && this.broken == broken
      ensures Valid() && TraceLeft() == input && CommsLeft() == comms && !error
    {
      this.mpiTypes, this.input, this.comms, this.broken := mpiTypes, input, comms, broken;
      next, parserError, currentTraceRecord := 0, false, None;
      communicationIndex, lastRecordTrace, error := 0, true, false;
    }

    ghost predicate Valid()
      reads this
    {
      && next <= |input| && communicationIndex <= |comms|
      && (parserError ==> broken && next == |input| && currentTraceRecord.None?)
      && (!lastRecordTrace && currentTraceRecord.None? ==> next == |input| && parserError == broken)
    }

    /** Trace records not yet returned; one of them may be held as the current record. */
    ghost function TraceLeft(): seq<TraceRecord>
      requires Valid()
      reads this
    {
      if lastRecordTrace || currentTraceRecord.None? then input[next..] else [currentTraceRecord.value] + input[next..]
    }

    ghost function CommsLeft(): seq<Endpoint>
      requires Valid()
      reads this
    {
      comms[communicationIndex..]
    }

    method GetNextRecord() returns (r: Option<TraceRecord>)
      requires next <= |input|
      modifies this`next, this`parserError
      ensures if old(next) == |input| then r.None? && next == |input| && parserError == (old(parserError) || broken)
              else r == Some(input[old(next)]) && next == old(next) + 1 && parserError == old(parserError)
    {
      if next == |input| {
        parserError := parserError || broken;
        r := None;
      } else {
        r := Some(input[next]);
        next := next + 1;
      }
    }

    /** The branches of SelectNextRecord once the trace record has been read. */
    method Decide() returns (choice: Choice)
      requires Valid()
      ensures choice == Choose(mpiTypes, currentTraceRecord,
                               if communicationIndex == |comms| then None else Some(comms[communicationIndex]))
    {
      if currentTraceRecord.None? {
        return if communicationIndex == |comms| then Stop else TakeComm;
      }
      var current := currentTraceRecord.value;
      if communicationIndex == |comms| { return TakeTrace; }
      var comm := comms[communicationIndex];
      if current.time < comm.time { return TakeTrace; }
      if comm.time < current.time { return TakeComm; }
      if current.task != comm.owner.task { return TakeComm; }
      if current.Event? {
        if 1 <= |current.pairs| {
          if current.pairs[0].eventType in mpiTypes && current.pairs[0].value != 0 {
            return TakeTrace;
          } else if current.pairs[0].eventType in mpiTypes {
            return TakeComm;
          } else {
            return TakeTrace;
          }
        } else {
          return TakeCommLoseTrace;
        }
      } else {
        return TakeTrace;
      }
    }

    /** The trace record is held or about to be read; after reading it is held, or there is none. */
    ghost predicate Read(trace: seq<TraceRecord>)
      requires Valid()
      reads this
    {
      currentTraceRecord == Head(trace) && (if trace == [] then next == |input| else trace[1..] == input[next..])
    }

    /** One step of the merge, or the end of it, or the end of a broken trace. */
    method SelectNextRecord() returns (r: Option<Selected>)
      requires Valid()
      modifies this
      ensures Valid()
      ensures var trace, comms := old(TraceLeft()), old(CommsLeft());
        if trace == [] && broken then r.None? && error && TraceLeft() == [] && CommsLeft() == comms
        else
          && error == old(error)
          && match ChooseHead(mpiTypes, trace, comms)
             case Stop => r.None? && TraceLeft() == [] && CommsLeft() == []
             case TakeTrace => r == Some(FromTrace(trace[0])) && TraceLeft() == trace[1..] && CommsLeft() == comms
             case TakeComm => r == Some(FromComms(comms[0])) && TraceLeft() == trace && CommsLeft() == comms[1..]
             case TakeCommLoseTrace =>
               r == Some(FromComms(comms[0])) && TraceLeft() == trace[1..] && CommsLeft() == comms[1..]
    {
      ghost var trace := TraceLeft();
      if lastRecordTrace {
        currentTraceRecord := GetNextRecord();
      }
      assert Read(trace);
      if currentTraceRecord.None? && parserError {
        error := true;
        return None;
      }
      var choice := Decide();
      match choice {
        case Stop =>
          r := None;
        case TakeTrace =>
          lastRecordTrace := true;
          r := Some(FromTrace(currentTraceRecord.value));
        case TakeComm =>
          lastRecordTrace := false;
          communicationIndex := communicationIndex + 1;
          r := Some(FromComms(comms[communicationIndex - 1]));
        case TakeCommLoseTrace =>
          lastRecordTrace := true;
          communicationIndex := communicationIndex + 1;
          r := Some(FromComms(comms[communicationIndex - 1]));
      }
    }

    /** One step of the reading loop: what it selects is the next record of the merge. */
    method SelectOne() returns (r: Option<Selected>)
      requires Valid()
      modifies this
      ensures Valid()
      ensures r.None? && broken ==> error
      ensures r.None? && !broken ==> Merged(mpiTypes, old(TraceLeft()), old(CommsLeft())) == [] && error == old(error)
      ensures r.Some? ==> error == old(error)
      ensures r.Some? ==> |TraceLeft()| + |CommsLeft()| < |old(TraceLeft())| + |old(CommsLeft())|
      ensures r.Some? ==>
        Merged(mpiTypes, old(TraceLeft()), old(CommsLeft())) == [r.value] + Merged(mpiTypes, TraceLeft(), CommsLeft())
    {
      r := SelectNextRecord();
    }

    /** The reading loop of the second pass. */
    method SelectAll() returns (out: seq<Selected>)
      requires Valid()
      modifies this
      ensures out <= Merged(mpiTypes, old(TraceLeft()), old(CommsLeft()))
      ensures !broken ==> out == Merged(mpiTypes, old(TraceLeft()), old(CommsLeft())) && error == old(error)
      ensures broken ==> error
    {
      ghost var trace, comms := TraceLeft(), CommsLeft();
      ghost var all := Merged(mpiTypes, trace, comms);
      out := [];
      while true
        invariant Valid() && trace == TraceLeft() && comms == CommsLeft() && error == old(error)
        invariant all == out + Merged(mpiTypes, trace, comms)
        decreases |trace| + |comms|
      {
        var r := SelectOne();
        if r.None? { break; }
        assert all == (out + [r.value]) + Merged(mpiTypes, TraceLeft(), CommsLeft());
        out := out + [r.value];
        trace, comms := TraceLeft(), CommsLeft();
      }
    }
  }
}
