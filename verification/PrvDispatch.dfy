/**
 * The loop of the second pass between the merge and the threads: every selected record goes to its thread, events are
 * taken apart, and gaps between states become idle blocks.
 */
module PrvDispatch {
  import opened PrvSplit
  import M = PrvMerge
  import opened PrvThread
  import opened PrvQueue

  predicate Owned(s: M.Selected, task: int, thread: int) {
    match s
    case FromTrace(r) => r.task == task && r.thread == thread
    case FromComms(e) => e.owner.task == task && e.owner.thread == thread
  }

  /** The selected records of one thread. */
  function Own(out: seq<M.Selected>, task: int, thread: int): seq<M.Selected> {
    if out == [] then []
    else
      var s := out[|out| - 1];
      Own(out[..|out| - 1], task, thread) + if Owned(s, task, thread) then [s] else []
  }

  /** What is known of a selected record: its times are 64-bit numbers, and it is no global operation. */
  predicate Fits(s: M.Selected) {
    && M.TimeOfSelected(s) < TWO_TO_64
    && (s.FromTrace? ==> !s.rec.GlobalOp? && (s.rec.State? ==> s.rec.time <= s.rec.end < TWO_TO_64))
  }

  predicate AllFit(out: seq<M.Selected>) { forall s :: s in out ==> Fits(s) }

  datatype LastState = NoState | EndsAt(end: Time)

  /** What a thread has been given, and the end of its last state. */
  datatype Lane = Lane(pushed: seq<Record>, last: LastState)

  function IdleBlock(begin: Time, end: Time): seq<Record> { [Event(begin, 0, 1), Event(end, 0, 0)] }

  /** CheckIdleState: the gap since the last state becomes an idle block, and a state that ends now. */
  function CheckIdle(l: Lane, now: Time): Lane {
    if l.last.EndsAt? && l.last.end < now then Lane(l.pushed + IdleBlock(l.last.end, now), EndsAt(now)) else l
  }

  /** One event per type and value. */
  function SubEvents(time: Time, pairs: seq<M.Pair>): seq<Record> {
    if pairs == [] then []
    else SubEvents(time, pairs[..|pairs| - 1])
         + [Event(time, pairs[|pairs| - 1].eventType, pairs[|pairs| - 1].value)]
  }

  function Dispatch(l: Lane, s: M.Selected): Lane
    requires Fits(s)
  {
    match s
    case FromTrace(State(begin, _, _, end, value)) =>
      Lane(l.pushed + if value == 0 then IdleBlock(begin, end) else [], EndsAt(end))
    case FromTrace(Event(time, _, _, pairs)) =>
      var l1 := CheckIdle(l, time);
      l1.(pushed := l1.pushed + SubEvents(time, pairs))
    case FromComms(e) =>
      var l1 := CheckIdle(l, e.time);
      l1.(pushed := l1.pushed + [Comm(e.time, e.kind, e.partner.task, e.size, e.tag, e.commId)])
  }

  function DispatchAll(own: seq<M.Selected>): Lane
    requires AllFit(own)
  {
    if own == [] then Lane([], NoState) else Dispatch(DispatchAll(own[..|own| - 1]), own[|own| - 1])
  }

  // ----- time order

  predicate Later(own: seq<M.Selected>) {
    forall i, j :: 0 <= i < j < |own| ==> M.TimeOfSelected(own[i]) <= M.TimeOfSelected(own[j])
  }

  predicate IsState(s: M.Selected) { s.FromTrace? && s.rec.State? }

  predicate IsIdle(s: M.Selected) { IsState(s) && s.rec.value == 0 }

  /** The states of a thread follow one another. */
  predicate StatesFollow(own: seq<M.Selected>) {
    forall i, j :: 0 <= i < j < |own| && IsState(own[i]) && IsState(own[j]) ==> own[i].rec.end <= own[j].rec.time
  }

  /** Nothing happens to a thread inside its idle states. */
  predicate IdleIsQuiet(own: seq<M.Selected>) {
    forall i, j :: 0 <= i < j < |own| && IsIdle(own[i]) ==> own[i].rec.end <= M.TimeOfSelected(own[j])
  }

  predicate EndOfIdle(own: seq<M.Selected>, time: Time) {
    exists i :: 0 <= i < |own| && IsIdle(own[i]) && own[i].rec.end == time
  }

  /** Everything given to the thread is in order; it is no later than the last record, or else ends an idle state. */
  predicate UpToDate(l: Lane, own: seq<M.Selected>) {
    && NonDecreasing(l.pushed)
    && (forall r :: r in l.pushed ==>
          EndOfIdle(own, r.time) || (own != [] && r.time <= M.TimeOfSelected(own[|own| - 1])))
    && (l.last.EndsAt? ==> NoLaterThan(l.pushed, l.last.end))
  }

  lemma AppendLater(a: seq<Record>, b: seq<Record>, t: Time)
    requires NonDecreasing(a) && NonDecreasing(b) && NoLaterThan(a, t) && forall r :: r in b ==> t <= r.time
    ensures NonDecreasing(a + b)
  {
    var c := a + b;
    forall i, j | 0 <= i < j < |c| ensures c[i].time <= c[j].time {
      if i < |a| <= j {
        assert a[i] in a && b[j - |a|] in b;
      }
    }
  }

  lemma {:induction false} SubEventsAt(time: Time, pairs: seq<M.Pair>)
    ensures |SubEvents(time, pairs)| == |pairs| && forall r :: r in SubEvents(time, pairs) ==> r.time == time
  {
    if pairs != [] {
      SubEventsAt(time, pairs[..|pairs| - 1]);
    }
  }

  /** Before a record is dispatched, nothing given to its thread is later than it. */
  lemma NothingLater(l: Lane, own: seq<M.Selected>, s: M.Selected)
    requires UpToDate(l, own) && Later(own + [s]) && IdleIsQuiet(own + [s]) && Fits(s)
    ensures NoLaterThan(l.pushed, M.TimeOfSelected(s))
  {
    var all := own + [s];
    forall r | r in l.pushed ensures r.time <= M.TimeOfSelected(s) {
      if EndOfIdle(own, r.time) {
        var i :| 0 <= i < |own| && IsIdle(own[i]) && own[i].rec.end == r.time;
        assert all[i] == own[i] && all[|own|] == s;
      } else {
        assert all[|own| - 1] == own[|own| - 1] && all[|own|] == s;
      }
    }
  }

  /** Records at one time, given to a thread that has nothing later: the gap since the last state comes first. */
  lemma CheckedInOrder(l: Lane, time: Time, more: seq<Record>)
    requires NonDecreasing(l.pushed) && NoLaterThan(l.pushed, time)
    requires l.last.EndsAt? ==> NoLaterThan(l.pushed, l.last.end)
    requires forall r :: r in more ==> r.time == time
    ensures var l1 := CheckIdle(l, time);
      && NonDecreasing(l1.pushed + more) && NoLaterThan(l1.pushed + more, time)
      && (l1.last.EndsAt? ==> NoLaterThan(l1.pushed + more, l1.last.end))
  {
    var l1 := CheckIdle(l, time);
    if l.last.EndsAt? && l.last.end < time {
      AppendLater(l.pushed, IdleBlock(l.last.end, time), l.last.end);
    }
    AppendLater(l1.pushed, more, time);
  }

  lemma DispatchUpToDate(l: Lane, own: seq<M.Selected>, s: M.Selected)
    requires UpToDate(l, own) && Later(own + [s]) && IdleIsQuiet(own + [s]) && Fits(s)
    ensures UpToDate(Dispatch(l, s), own + [s])
  {
    NothingLater(l, own, s);
    match s
    case FromTrace(State(begin, _, _, end, value)) =>
      assert (own + [s])[|own|] == s;
      if value == 0 {
        AppendLater(l.pushed, IdleBlock(begin, end), begin);
        assert EndOfIdle(own + [s], end);
      }
    case FromTrace(Event(time, _, _, pairs)) =>
      SubEventsAt(time, pairs);
      CheckedInOrder(l, time, SubEvents(time, pairs));
      assert (own + [s])[|own|] == s;
    case FromComms(e) =>
      CheckedInOrder(l, e.time, [Comm(e.time, e.kind, e.partner.task, e.size, e.tag, e.commId)]);
      assert (own + [s])[|own|] == s;
  }

  lemma {:induction false} QuietIsOrdered(own: seq<M.Selected>)
    requires AllFit(own) && Later(own) && IdleIsQuiet(own)
    ensures UpToDate(DispatchAll(own), own)
  {
    if own != [] {
      var n := |own| - 1;
      QuietIsOrdered(own[..n]);
      assert own[..n] + [own[n]] == own;
      DispatchUpToDate(DispatchAll(own[..n]), own[..n], own[n]);
    }
  }

  // ----- and only then

  /** The record gives something to its thread. */
  predicate Gives(s: M.Selected) { IsIdle(s) || s.FromComms? || (s.FromTrace? && s.rec.Event? && s.rec.pairs != []) }

  lemma DispatchAppends(l: Lane, s: M.Selected)
    requires Fits(s)
    ensures l.pushed <= Dispatch(l, s).pushed
    ensures Gives(s) ==> |l.pushed| < |Dispatch(l, s).pushed|
    ensures Gives(s) ==>
      Dispatch(l, s).pushed[|Dispatch(l, s).pushed| - 1].time == if IsIdle(s) then s.rec.end else M.TimeOfSelected(s)
  {
    if s.FromTrace? && s.rec.Event? {
      SubEventsAt(s.rec.time, s.rec.pairs);
      var more := SubEvents(s.rec.time, s.rec.pairs);
      if more != [] {
        assert more[|more| - 1] in more;
      }
    }
  }

  lemma {:induction false} DispatchGrows(own: seq<M.Selected>, n: nat)
    requires AllFit(own) && n <= |own|
    ensures DispatchAll(own[..n]).pushed <= DispatchAll(own).pushed
  {
    if n == |own| {
      assert own[..n] == own;
    } else {
      var m := |own| - 1;
      DispatchGrows(own[..m], n);
      assert own[..m][..n] == own[..n];
      DispatchAppends(DispatchAll(own[..m]), own[m]);
    }
  }

  predicate Growing(g: seq<seq<Record>>) { forall m, n :: 0 <= m <= n < |g| ==> g[m] <= g[n] }

  predicate EndsLater(before: seq<Record>, after: seq<Record>, time: nat) {
    |before| < |after| && after[|after| - 1].time == time
  }

  function LastTime(s: M.Selected): nat { if IsIdle(s) then s.rec.end else M.TimeOfSelected(s) }

  predicate GivesAll(own: seq<M.Selected>, g: seq<seq<Record>>) {
    |g| == |own| + 1 && forall n :: 0 <= n < |own| && Gives(own[n]) ==> EndsLater(g[n], g[n + 1], LastTime(own[n]))
  }

  /** What a thread has been given after each of its records. */
  lemma GivenSoFar(own: seq<M.Selected>) returns (g: seq<seq<Record>>)
    requires AllFit(own)
    ensures Growing(g) && GivesAll(own, g) && g[|own|] == DispatchAll(own).pushed
  {
    g := seq(|own| + 1, n requires 0 <= n <= |own| => DispatchAll(own[..n]).pushed);
    forall m, n | 0 <= m <= n < |g| ensures g[m] <= g[n] {
      assert own[..n][..m] == own[..m];
      DispatchGrows(own[..n], m);
    }
    forall n | 0 <= n < |own| && Gives(own[n]) ensures EndsLater(g[n], g[n + 1], LastTime(own[n])) {
      assert own[..n + 1][..n] == own[..n];
      DispatchAppends(DispatchAll(own[..n]), own[n]);
    }
    assert own[..|own|] == own;
  }

  /** A record inside an idle state is given to its thread behind the end of that state. */
  lemma UnquietIsDisordered(own: seq<M.Selected>, i: nat, j: nat)
    requires AllFit(own) && i < j < |own|
    requires IsIdle(own[i]) && Gives(own[j]) && !IsIdle(own[j]) && M.TimeOfSelected(own[j]) < own[i].rec.end
    ensures !NonDecreasing(DispatchAll(own).pushed)
  {
    var g := GivenSoFar(own);
    UnquietHistory(own, g, i, j);
  }

  lemma UnquietHistory(own: seq<M.Selected>, g: seq<seq<Record>>, i: nat, j: nat)
    requires Growing(g) && GivesAll(own, g) && i < j < |own|
    requires IsIdle(own[i]) && Gives(own[j]) && !IsIdle(own[j]) && M.TimeOfSelected(own[j]) < own[i].rec.end
    ensures !NonDecreasing(g[|own|])
  {
    assert EndsLater(g[i], g[i + 1], LastTime(own[i])) && EndsLater(g[j], g[j + 1], LastTime(own[j]));
    TwoInPrefix(g[i + 1], g[j], g[j + 1], g[|own|]);
  }

  lemma TwoInPrefix(a: seq<Record>, b: seq<Record>, c: seq<Record>, all: seq<Record>)
    requires a != [] && a <= b && |b| < |c| && b <= c <= all && c[|c| - 1].time < a[|a| - 1].time
    ensures !NonDecreasing(all)
  {
    assert all[|a| - 1] == a[|a| - 1] && all[|c| - 1] == c[|c| - 1];
  }

  /** A thread is given its records in time order exactly when nothing happens inside its idle states. */
  lemma OrderedIffQuiet(own: seq<M.Selected>)
    requires AllFit(own) && Later(own) && StatesFollow(own)
    requires forall s :: s in own ==> IsState(s) || Gives(s)
    ensures NonDecreasing(DispatchAll(own).pushed) <==> IdleIsQuiet(own)
  {
    if IdleIsQuiet(own) {
      QuietIsOrdered(own);
    } else {
      var i, j :| 0 <= i < j < |own| && IsIdle(own[i]) && M.TimeOfSelected(own[j]) < own[i].rec.end;
      assert own[j] in own;
      UnquietIsDisordered(own, i, j);
    }
  }

  // ----- from the merge to the thread

  lemma {:induction false} OwnIn(out: seq<M.Selected>, task: int, thread: int)
    ensures forall s :: s in Own(out, task, thread) ==> s in out && Owned(s, task, thread)
  {
    if out != [] {
      OwnIn(out[..|out| - 1], task, thread);
    }
  }

  lemma {:induction false} OwnLater(out: seq<M.Selected>, task: int, thread: int)
    requires M.OutputSorted(out)
    ensures Later(Own(out, task, thread))
  {
    if out != [] {
      var n := |out| - 1;
      OwnLater(out[..n], task, thread);
      OwnIn(out[..n], task, thread);
      var before, own := Own(out[..n], task, thread), Own(out, task, thread);
      forall i, j | 0 <= i < j < |own| ensures M.TimeOfSelected(own[i]) <= M.TimeOfSelected(own[j]) {
        if j == |before| {
          assert own[i] == before[i] && before[i] in out[..n];
          var k :| 0 <= k < n && out[k] == own[i];
        } else {
          assert own[i] == before[i] && own[j] == before[j];
        }
      }
    }
  }

  /**
   * The second pass for one thread, from the sorted inputs to the last flush.  If nothing happens inside the thread's
   * idle states, everything it is given is translated exactly once, in time order, and nothing is dropped.
   */
  lemma ThreadTranslatedOnceInOrder(mpiTypes: set<int>, trace: seq<M.TraceRecord>, comms: seq<Endpoint>,
                                    task: int, thread: int, inside: Inside, sort: Sort)
    requires M.TraceSorted(trace) && M.CommsSorted(comms) && Rearranges(sort)
    requires AllFit(Own(M.Merged(mpiTypes, trace, comms), task, thread))
    requires IdleIsQuiet(Own(M.Merged(mpiTypes, trace, comms), task, thread))
    ensures var given := DispatchAll(Own(M.Merged(mpiTypes, trace, comms), task, thread)).pushed;
      var q := Finished(inside, sort, given);
      && multiset(Flat(q.batches)) == multiset(given) && NonDecreasing(Flat(q.batches))
      && q.stack == [] && q.dropped == [] && !q.disordered
  {
    var out := M.Merged(mpiTypes, trace, comms);
    M.MergeSorted(mpiTypes, trace, comms);
    OwnLater(out, task, thread);
    QuietIsOrdered(Own(out, task, thread));
    TranslatedOnceInOrder(inside, sort, DispatchAll(Own(out, task, thread)).pushed);
  }

  lemma {:induction false} InOrderPrefix(rs: seq<Record>, n: nat)
    requires n <= |rs|
    ensures InOrder(rs) ==> InOrder(rs[..n])
  {
    if n == |rs| {
      assert rs[..n] == rs;
    } else {
      InOrderPrefix(rs[..|rs| - 1], n);
      assert rs[..|rs| - 1][..n] == rs[..n];
    }
  }

  /** A record straight after the end of an idle state, and earlier than it. */
  lemma EarlierAfterIdle(rs: seq<Record>, n: nat)
    requires n + 1 < |rs| && rs[n].Event? && rs[n].eventType == 0 && rs[n + 1].time < rs[n].time
    ensures !InOrder(rs)
  {
    assert rs[..n + 2][..n + 1] == rs[..n + 1];
    InOrderPrefix(rs, n + 2);
  }

  /** What a thread is given by a record inside its last state, directly behind what it was given before. */
  lemma GivenInside(l: Lane, s: M.Selected)
    requires Fits(s) && Gives(s) && !IsState(s) && l.last.EndsAt? && M.TimeOfSelected(s) < l.last.end
    ensures |l.pushed| < |Dispatch(l, s).pushed| && Dispatch(l, s).pushed[|l.pushed|].time == M.TimeOfSelected(s)
  {
    if s.FromTrace? {
      SubEventsAt(s.rec.time, s.rec.pairs);
      assert SubEvents(s.rec.time, s.rec.pairs)[0] in SubEvents(s.rec.time, s.rec.pairs);
    }
  }

  /** Right after an idle state, a record inside it comes out of order. */
  lemma {:induction false} UnquietNext(own: seq<M.Selected>, i: nat)
    requires AllFit(own) && i + 1 < |own| && IsIdle(own[i])
    requires Gives(own[i + 1]) && !IsState(own[i + 1]) && M.TimeOfSelected(own[i + 1]) < own[i].rec.end
    ensures !InOrder(DispatchAll(own).pushed)
  {
    var l, s := DispatchAll(own[..i]), own[i];
    assert Fits(s);
    assert own[..i + 1][..i] == own[..i] && own[..i + 2][..i + 1] == own[..i + 1];
    var a := l.pushed + IdleBlock(s.rec.time, s.rec.end);
    assert DispatchAll(own[..i + 1]) == Lane(a, EndsAt(s.rec.end));
    GivenInside(Lane(a, EndsAt(s.rec.end)), own[i + 1]);
    DispatchAppends(Lane(a, EndsAt(s.rec.end)), own[i + 1]);
    UnquietGiven(a, DispatchAll(own[..i + 2]).pushed);
    DispatchGrows(own, i + 2);
    StillOutOfOrder(DispatchAll(own[..i + 2]).pushed, DispatchAll(own).pushed);
  }

  lemma UnquietGiven(a: seq<Record>, b: seq<Record>)
    requires a <= b && 0 < |a| < |b| && a[|a| - 1].Event? && a[|a| - 1].eventType == 0
    requires b[|a|].time < a[|a| - 1].time
    ensures !InOrder(b)
  {
    assert b[|a| - 1] == a[|a| - 1];
    EarlierAfterIdle(b, |a| - 1);
  }

  lemma StillOutOfOrder(a: seq<Record>, b: seq<Record>)
    requires a <= b && !InOrder(a)
    ensures !InOrder(b)
  {
    assert b[..|a|] == a;
    InOrderPrefix(b, |a|);
  }

  /** Nothing of a thread is dropped exactly when nothing happens inside its idle states. */
  lemma ThreadDropsIff(own: seq<M.Selected>, inside: Inside, sort: Sort)
    requires AllFit(own) && Later(own) && StatesFollow(own) && forall s :: s in own ==> IsState(s) || Gives(s)
    ensures PushAll(inside, sort, DispatchAll(own).pushed).dropped == [] <==> IdleIsQuiet(own)
  {
    DroppedIff(inside, sort, DispatchAll(own).pushed);
    if IdleIsQuiet(own) {
      QuietIsOrdered(own);
      NonDecreasingInOrder(DispatchAll(own).pushed);
    } else {
      var i, j :| 0 <= i < j < |own| && IsIdle(own[i]) && M.TimeOfSelected(own[j]) < own[i].rec.end;
      assert own[i + 1] in own && M.TimeOfSelected(own[i + 1]) <= M.TimeOfSelected(own[j]);
      UnquietNext(own, i);
    }
  }

  // ----- the loop

  /** One turn of the loop for a record of this thread. */
  method DispatchOne(l: Lane, s: M.Selected) returns (l': Lane)
    requires Fits(s)
    ensures l' == Dispatch(l, s)
  {
    match s
    case FromTrace(State(begin, _, _, end, value)) =>
      l' := l;
      if value == 0 {
        l' := l'.(pushed := l'.pushed + IdleBlock(begin, end));
      }
      l' := l'.(last := EndsAt(end));
    case FromTrace(Event(time, _, _, pairs)) =>
      l' := CheckIdle(l, time);
      var given := l'.pushed;
      for i := 0 to |pairs|
        invariant l' == CheckIdle(l, time).(pushed := given + SubEvents(time, pairs[..i]))
      {
        assert pairs[..i + 1][..i] == pairs[..i];
        l' := l'.(pushed := l'.pushed + [Event(time, pairs[i].eventType, pairs[i].value)]);
      }
      assert pairs[..|pairs|] == pairs;
    case FromComms(e) =>
      l' := CheckIdle(l, e.time);
      l' := l'.(pushed := l'.pushed + [Comm(e.time, e.kind, e.partner.task, e.size, e.tag, e.commId)]);
  }

  datatype Id = Id(task: int, thread: int)

  function IdOf(s: M.Selected): Id {
    match s
    case FromTrace(r) => Id(r.task, r.thread)
    case FromComms(e) => Id(e.owner.task, e.owner.thread)
  }

  function Strangers(out: seq<M.Selected>, ids: set<Id>): nat {
    if out == [] then 0 else Strangers(out[..|out| - 1], ids) + if IdOf(out[|out| - 1]) in ids then 0 else 1
  }

  /** Where in the stream the records of unknown threads stand. */
  function StrangersAt(out: seq<M.Selected>, ids: set<Id>): set<nat> {
    set n: nat | n < |out| && IdOf(out[n]) !in ids
  }

  lemma {:induction false} StrangersCounted(out: seq<M.Selected>, ids: set<Id>)
    ensures Strangers(out, ids) == |StrangersAt(out, ids)|
  {
    if out == [] {
      assert StrangersAt(out, ids) == {};
    } else {
      var n := |out| - 1;
      StrangersCounted(out[..n], ids);
      assert StrangersAt(out, ids)
          == StrangersAt(out[..n], ids) + if IdOf(out[n]) in ids then {} else {n};
    }
  }

  method DispatchNext(ghost out: seq<M.Selected>, s: M.Selected, ids: set<Id>, lanes: map<Id, Lane>, wrong: nat)
      returns (lanes': map<Id, Lane>, wrong': nat)
    requires Fits(s) && lanes.Keys == ids && forall id :: id in ids ==> LaneOf(out, id, lanes[id])
    ensures lanes'.Keys == ids && forall id :: id in ids ==> LaneOf(out + [s], id, lanes'[id])
    ensures wrong' == wrong + if IdOf(s) in ids then 0 else 1
  {
    lanes', wrong' := lanes, wrong;
    if IdOf(s) !in ids {
      wrong' := wrong + 1;
    } else {
      var l := DispatchOne(lanes[IdOf(s)], s);
      lanes' := lanes[IdOf(s) := l];
    }
    forall id | id in ids ensures LaneOf(out + [s], id, lanes'[id]) {
      LaneStep(out, s, id, lanes[id]);
    }
  }

  /** Every thread gets its own records, whatever the others get; records of unknown threads are only counted. */
  method DispatchRecords(out: seq<M.Selected>, ids: set<Id>) returns (lanes: map<Id, Lane>, wrong: nat)
    requires AllFit(out)
    ensures lanes.Keys == ids && wrong == |StrangersAt(out, ids)|
    ensures forall id :: id in ids ==> LaneOf(out, id, lanes[id])
  {
    lanes, wrong := map id | id in ids :: Lane([], NoState), 0;
    for n := 0 to |out|
      invariant lanes.Keys == ids && wrong == Strangers(out[..n], ids)
      invariant forall id :: id in ids ==> LaneOf(out[..n], id, lanes[id])
    {
      var s := out[n];
      assert out[..n + 1][..n] == out[..n] && s in out;
      lanes, wrong := DispatchNext(out[..n], s, ids, lanes, wrong);
      assert out[..n + 1] == out[..n] + [s];
    }
    assert out[..|out|] == out;
    StrangersCounted(out, ids);
  }

  predicate LaneOf(out: seq<M.Selected>, id: Id, l: Lane) {
    AllFit(Own(out, id.task, id.thread)) && l == DispatchAll(Own(out, id.task, id.thread))
  }

  lemma LaneStep(out: seq<M.Selected>, s: M.Selected, id: Id, l: Lane)
    requires LaneOf(out, id, l) && Fits(s)
    ensures LaneOf(out + [s], id, if IdOf(s) == id then Dispatch(l, s) else l)
  {
    var own := Own(out, id.task, id.thread);
    assert (out + [s])[..|out|] == out;
    assert (own + [s])[..|own|] == own && own + [] == own;
  }
}
