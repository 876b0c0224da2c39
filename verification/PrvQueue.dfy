/**
 * How the records of a thread wait for translation: those that share a time are stacked, sorted, and translated
 * together as a batch.
 */
module PrvQueue {
  import opened PrvThread

  /** The two sorts, inside and outside of a block: any rearrangement. */
  type Sort = (bool, seq<Record>) -> seq<Record>

  ghost predicate Rearranges(sort: Sort) {
    forall inBlock, rs :: multiset(sort(inBlock, rs)) == multiset(rs)
  }

  datatype Queue = Queue(batches: seq<seq<Record>>, stack: seq<Record>, dropped: seq<Record>, disordered: bool)

  /** ReorderAndFlush */
  function Flush(sort: Sort, inBlock: bool, q: Queue): Queue {
    if q.stack == [] then q
    else
      var batch := if 1 < |q.stack| then sort(inBlock, q.stack) else q.stack;
      q.(batches := q.batches + [batch], stack := [])
  }

  /** PushRecord */
  function Push(sort: Sort, inBlock: bool, q: Queue, r: Record): Queue {
    if q.stack == [] then q.(stack := [r])
    else if q.stack[|q.stack| - 1].time < r.time then Flush(sort, inBlock, q).(stack := [r])
    else if q.stack[|q.stack| - 1].time == r.time then
      var q1 := q.(stack := q.stack + [r]);
      if IsMpiEnd(r) then Flush(sort, inBlock, q1) else q1
    else q.(disordered := true, dropped := q.dropped + [r])
  }

  /** Whether the translator is inside an MPI block once some batches have been translated. */
  type Inside = seq<seq<Record>> -> bool

  function InsideOf(c: Setup, s: State): Inside { batches => OnBatches(c, s, batches).mpiStack != [] }

  function PushAll(inside: Inside, sort: Sort, rs: seq<Record>): Queue {
    if rs == [] then Queue([], [], [], false)
    else
      var q := PushAll(inside, sort, rs[..|rs| - 1]);
      Push(sort, inside(q.batches), q, rs[|rs| - 1])
  }

  lemma OneMorePush(inside: Inside, sort: Sort, rs: seq<Record>, i: nat)
    requires i < |rs|
    ensures var q := PushAll(inside, sort, rs[..i]);
      PushAll(inside, sort, rs[..i + 1]) == Push(sort, inside(q.batches), q, rs[i])
  {
    assert rs[..i + 1][..i] == rs[..i];
  }

  /** All the records of a thread, and LastFlush. */
  function Finished(inside: Inside, sort: Sort, rs: seq<Record>): Queue {
    var q := PushAll(inside, sort, rs);
    Flush(sort, inside(q.batches), q)
  }

  // ----- nothing is lost

  function Flat(batches: seq<seq<Record>>): seq<Record> {
    if batches == [] then [] else Flat(batches[..|batches| - 1]) + batches[|batches| - 1]
  }

  lemma FlatMore(batches: seq<seq<Record>>, batch: seq<Record>)
    ensures Flat(batches + [batch]) == Flat(batches) + batch
  {
    assert (batches + [batch])[..|batches|] == batches;
  }

  function Content(q: Queue): multiset<Record> {
    multiset(Flat(q.batches)) + multiset(q.stack) + multiset(q.dropped)
  }

  lemma FlushKeepsAll(sort: Sort, inBlock: bool, q: Queue)
    requires Rearranges(sort)
    ensures Content(Flush(sort, inBlock, q)) == Content(q)
  {
    if q.stack != [] {
      FlatMore(q.batches, if 1 < |q.stack| then sort(inBlock, q.stack) else q.stack);
    }
  }

  lemma PushAddsOne(sort: Sort, inBlock: bool, q: Queue, r: Record)
    requires Rearranges(sort)
    ensures Content(Push(sort, inBlock, q, r)) == Content(q) + multiset{r}
  {
    if q.stack == [] {
      FirstAddsOne(q, r);
      assert Push(sort, inBlock, q, r) == q.(stack := [r]);
    } else if q.stack[|q.stack| - 1].time < r.time {
      LaterAddsOne(sort, inBlock, q, r);
    } else if q.stack[|q.stack| - 1].time == r.time {
      SameTimeAddsOne(sort, inBlock, q, r);
    } else {
      DropAddsOne(q, r);
      assert Push(sort, inBlock, q, r) == q.(disordered := true, dropped := q.dropped + [r]);
    }
  }

  lemma LaterAddsOne(sort: Sort, inBlock: bool, q: Queue, r: Record)
    requires Rearranges(sort) && q.stack != [] && q.stack[|q.stack| - 1].time < r.time
    ensures Content(Push(sort, inBlock, q, r)) == Content(q) + multiset{r}
  {
    var f := Flush(sort, inBlock, q);
    FlushKeepsAll(sort, inBlock, q);
    FirstAddsOne(f, r);
    assert Push(sort, inBlock, q, r) == f.(stack := [r]);
  }

  lemma SameTimeAddsOne(sort: Sort, inBlock: bool, q: Queue, r: Record)
    requires Rearranges(sort)
    ensures var q1 := q.(stack := q.stack + [r]);
      Content(q1) == Content(q) + multiset{r} && Content(Flush(sort, inBlock, q1)) == Content(q) + multiset{r}
  {
    StackAddsOne(q, r);
    FlushKeepsAll(sort, inBlock, q.(stack := q.stack + [r]));
  }

  lemma FirstAddsOne(q: Queue, r: Record)
    requires q.stack == []
    ensures Content(q.(stack := [r])) == Content(q) + multiset{r}
  {
  }

  lemma StackAddsOne(q: Queue, r: Record)
    ensures Content(q.(stack := q.stack + [r])) == Content(q) + multiset{r}
  {
    assert multiset(q.stack + [r]) == multiset(q.stack) + multiset{r};
  }

  lemma DropAddsOne(q: Queue, r: Record)
    ensures Content(q.(disordered := true, dropped := q.dropped + [r])) == Content(q) + multiset{r}
  {
    assert multiset(q.dropped + [r]) == multiset(q.dropped) + multiset{r};
  }

  lemma {:induction false} PushedIsKept(inside: Inside, sort: Sort, rs: seq<Record>)
    requires Rearranges(sort)
    ensures Content(PushAll(inside, sort, rs)) == multiset(rs)
  {
    if rs != [] {
      var n := |rs| - 1;
      var q := PushAll(inside, sort, rs[..n]);
      assert Content(q) == multiset(rs[..n]) by {
        PushedIsKept(inside, sort, rs[..n]);
      }
      PushAddsOne(sort, inside(q.batches), q, rs[n]);
      LastOne(rs);
    }
  }

  lemma LastOne(rs: seq<Record>)
    requires rs != []
    ensures multiset(rs) == multiset(rs[..|rs| - 1]) + multiset{rs[|rs| - 1]}
  {
    assert rs == rs[..|rs| - 1] + [rs[|rs| - 1]];
  }

  // ----- one time at a time

  predicate OneTime(rs: seq<Record>) { forall i, j :: 0 <= i < j < |rs| ==> rs[i].time == rs[j].time }

  lemma SortedOneTime(sort: Sort, inBlock: bool, rs: seq<Record>)
    requires Rearranges(sort) && OneTime(rs) && rs != []
    ensures OneTime(sort(inBlock, rs)) && sort(inBlock, rs) != []
    ensures sort(inBlock, rs)[0].time == rs[0].time
  {
    var ts := sort(inBlock, rs);
    assert multiset(ts) == multiset(rs);
    assert rs[0] in multiset(ts);
    forall r | r in ts ensures r.time == rs[0].time {
      assert r in multiset(rs);
    }
  }

  predicate Batched(q: Queue) {
    && OneTime(q.stack)
    && (forall i :: 0 <= i < |q.batches| ==> q.batches[i] != [] && OneTime(q.batches[i]))
    && (q.disordered <==> q.dropped != [])
  }

  lemma FlushBatched(sort: Sort, inBlock: bool, q: Queue)
    requires Rearranges(sort) && Batched(q)
    ensures Batched(Flush(sort, inBlock, q))
  {
    if 1 < |q.stack| {
      SortedOneTime(sort, inBlock, q.stack);
    }
  }

  /** In every run the stack and each batch hold a single time, and the thread is disordered if a record was dropped. */
  lemma {:induction false} AlwaysBatched(inside: Inside, sort: Sort, rs: seq<Record>)
    requires Rearranges(sort)
    ensures Batched(PushAll(inside, sort, rs))
  {
    if rs != [] {
      var n := |rs| - 1;
      var q := PushAll(inside, sort, rs[..n]);
      AlwaysBatched(inside, sort, rs[..n]);
      PushBatched(sort, inside(q.batches), q, rs[n]);
    }
  }

  lemma PushBatched(sort: Sort, inBlock: bool, q: Queue, r: Record)
    requires Rearranges(sort) && Batched(q)
    ensures Batched(Push(sort, inBlock, q, r))
  {
    if q.stack != [] {
      if q.stack[|q.stack| - 1].time < r.time {
        FlushBatched(sort, inBlock, q);
      } else if q.stack[|q.stack| - 1].time == r.time {
        StackedBatched(q, r);
        FlushBatched(sort, inBlock, q.(stack := q.stack + [r]));
      }
    }
  }

  lemma StackedBatched(q: Queue, r: Record)
    requires Batched(q) && q.stack != [] && q.stack[|q.stack| - 1].time == r.time
    ensures Batched(q.(stack := q.stack + [r]))
  {
    var s := q.stack + [r];
    forall i, j | 0 <= i < j < |s| ensures s[i].time == s[j].time {
      assert i < |q.stack| - 1 ==> q.stack[i].time == q.stack[|q.stack| - 1].time;
    }
  }

  // ----- exactly when a record is dropped

  /** The last record is the end of an MPI block that found others of its time on the stack, and emptied it. */
  predicate Emptied(rs: seq<Record>) {
    rs == [] || (IsMpiEnd(rs[|rs| - 1]) && 2 <= |rs| && rs[|rs| - 2].time == rs[|rs| - 1].time
                 && !Emptied(rs[..|rs| - 1]))
  }

  /** Every record is as late as the one before it, unless the stack was emptied just then. */
  predicate InOrder(rs: seq<Record>) {
    rs == [] || (InOrder(rs[..|rs| - 1])
                 && (Emptied(rs[..|rs| - 1]) || rs[|rs| - 2].time <= rs[|rs| - 1].time))
  }

  lemma {:induction false} StackFollows(inside: Inside, sort: Sort, rs: seq<Record>)
    requires InOrder(rs)
    ensures var q := PushAll(inside, sort, rs);
      q.dropped == [] && (q.stack == [] <==> Emptied(rs)) && (q.stack != [] ==> q.stack[|q.stack| - 1] == rs[|rs| - 1])
  {
    if rs != [] {
      StackFollows(inside, sort, rs[..|rs| - 1]);
    }
  }

  lemma {:induction false} DroppedStays(inside: Inside, sort: Sort, rs: seq<Record>)
    requires !InOrder(rs)
    ensures PushAll(inside, sort, rs).dropped != []
  {
    if InOrder(rs[..|rs| - 1]) {
      StackFollows(inside, sort, rs[..|rs| - 1]);
    } else {
      DroppedStays(inside, sort, rs[..|rs| - 1]);
    }
  }

  /** Nothing is dropped exactly when the records come in order. */
  lemma DroppedIff(inside: Inside, sort: Sort, rs: seq<Record>)
    ensures PushAll(inside, sort, rs).dropped == [] <==> InOrder(rs)
  {
    if InOrder(rs) {
      StackFollows(inside, sort, rs);
    } else {
      DroppedStays(inside, sort, rs);
    }
  }

  // ----- records in time order

  predicate NonDecreasing(rs: seq<Record>) { forall i, j :: 0 <= i < j < |rs| ==> rs[i].time <= rs[j].time }

  lemma {:induction false} NonDecreasingInOrder(rs: seq<Record>)
    requires NonDecreasing(rs)
    ensures InOrder(rs)
  {
    if rs != [] {
      NonDecreasingInOrder(rs[..|rs| - 1]);
    }
  }

  predicate NoLaterThan(rs: seq<Record>, time: Time) { forall r :: r in rs ==> r.time <= time }

  /** What has been translated is in time order, and so is what waits. */
  predicate Ordered(q: Queue, last: Time) {
    && NonDecreasing(Flat(q.batches) + q.stack) && NoLaterThan(Flat(q.batches) + q.stack, last) && OneTime(q.stack)
    && (q.stack != [] ==> q.stack[|q.stack| - 1].time == last)
  }

  lemma FlushOrdered(sort: Sort, inBlock: bool, q: Queue, last: Time)
    requires Rearranges(sort) && Ordered(q, last)
    ensures Ordered(Flush(sort, inBlock, q), last)
  {
    if q.stack != [] {
      var batch := if 1 < |q.stack| then sort(inBlock, q.stack) else q.stack;
      FlatMore(q.batches, batch);
      SameTimes(sort, inBlock, q.stack);
      assert |batch| == |q.stack| by {
        assert |multiset(batch)| == |multiset(q.stack)|;
      }
      SwapTail(Flat(q.batches), q.stack, batch, last);
      assert Flat(q.batches) + batch + [] == Flat(q.batches) + batch;
    }
  }

  lemma SameTimes(sort: Sort, inBlock: bool, rs: seq<Record>)
    requires Rearranges(sort) && OneTime(rs) && rs != []
    ensures var batch := if 1 < |rs| then sort(inBlock, rs) else rs;
      forall r :: r in batch ==> r.time == rs[0].time
  {
    var ts := sort(inBlock, rs);
    assert multiset(ts) == multiset(rs);
    forall r | r in ts ensures r.time == rs[0].time {
      assert r in multiset(rs);
    }
  }

  lemma SwapTail(front: seq<Record>, tail: seq<Record>, tail': seq<Record>, last: Time)
    requires NonDecreasing(front + tail) && NoLaterThan(front + tail, last) && tail != []
    requires forall r :: r in tail' ==> r.time == tail[0].time
    ensures NonDecreasing(front + tail') && NoLaterThan(front + tail', last)
  {
    var a, b := front + tail, front + tail';
    assert a[|front|] == tail[0] && tail[0] in a;
    forall i | 0 <= i < |b| ensures b[i].time <= tail[0].time && (i < |front| ==> b[i] == a[i]) {
      if i < |front| {
        assert a[i].time <= a[|front|].time;
      } else {
        assert b[i] in tail';
      }
    }
    forall i, j | 0 <= i < j < |b| ensures b[i].time <= b[j].time {
      if j < |front| {
        assert a[i].time <= a[j].time;
      } else {
        assert b[j] in tail';
      }
    }
  }

  lemma AddLater(q: Queue, r: Record, last: Time)
    requires Ordered(q, last) && last <= r.time && (q.stack == [] || last == r.time)
    ensures Ordered(q.(stack := q.stack + [r]), r.time)
  {
    assert Flat(q.batches) + (q.stack + [r]) == Flat(q.batches) + q.stack + [r];
    OneLater(Flat(q.batches) + q.stack, r, last);
  }

  lemma OneLater(a: seq<Record>, r: Record, last: Time)
    requires NonDecreasing(a) && NoLaterThan(a, last) && last <= r.time
    ensures NonDecreasing(a + [r]) && NoLaterThan(a + [r], r.time)
  {
    var b := a + [r];
    forall i, j | 0 <= i < j < |b| ensures b[i].time <= b[j].time {
      if j == |a| {
        assert a[i] in a;
      } else {
        assert a[i].time <= a[j].time;
      }
    }
    forall x | x in b ensures x.time <= r.time {
      assert x in a || x == r;
    }
  }

  lemma FirstLater(q: Queue, r: Record, last: Time)
    requires Ordered(q, last) && last <= r.time && q.stack == []
    ensures Ordered(q.(stack := [r]), r.time)
  {
    AddLater(q, r, last);
    assert q.stack + [r] == [r];
  }

  lemma PushOrdered(sort: Sort, inBlock: bool, q: Queue, r: Record, last: Time)
    requires Rearranges(sort) && Ordered(q, last) && last <= r.time
    ensures Ordered(Push(sort, inBlock, q, r), r.time)
  {
    if q.stack == [] {
      FirstLater(q, r, last);
    } else if last < r.time {
      FlushOrdered(sort, inBlock, q, last);
      FirstLater(Flush(sort, inBlock, q), r, last);
    } else {
      AddLater(q, r, last);
      FlushOrdered(sort, inBlock, q.(stack := q.stack + [r]), r.time);
    }
  }

  lemma {:induction false} AlwaysOrdered(inside: Inside, sort: Sort, rs: seq<Record>, last: Time)
    requires Rearranges(sort) && NonDecreasing(rs) && (rs == [] || last == rs[|rs| - 1].time)
    ensures Ordered(PushAll(inside, sort, rs), last)
  {
    if rs != [] {
      var n := |rs| - 1;
      var q := PushAll(inside, sort, rs[..n]);
      var before := if n == 0 then last else rs[n - 1].time;
      AlwaysOrdered(inside, sort, rs[..n], before);
      PushOrdered(sort, inside(q.batches), q, rs[n], before);
    }
  }

  /**
   * A thread whose records come in time order: each is translated exactly once, in time order, and nothing is left.
   */
  lemma TranslatedOnceInOrder(inside: Inside, sort: Sort, rs: seq<Record>)
    requires Rearranges(sort) && NonDecreasing(rs)
    ensures var q := Finished(inside, sort, rs);
      && multiset(Flat(q.batches)) == multiset(rs) && NonDecreasing(Flat(q.batches))
      && q.stack == [] && q.dropped == [] && !q.disordered
  {
    var last := if rs == [] then 0 else rs[|rs| - 1].time;
    var q := PushAll(inside, sort, rs);
    AlwaysOrdered(inside, sort, rs, last);
    AlwaysBatched(inside, sort, rs);
    FlushOrdered(sort, inside(q.batches), q, last);
    PushedIsKept(inside, sort, rs);
    FlushKeepsAll(sort, inside(q.batches), q);
    NonDecreasingInOrder(rs);
    DroppedIff(inside, sort, rs);
    var f := Finished(inside, sort, rs);
    assert Flat(f.batches) + f.stack == Flat(f.batches);
  }

  /** And whatever the order, LastFlush leaves only what was dropped untranslated. */
  lemma NothingLost(inside: Inside, sort: Sort, rs: seq<Record>)
    requires Rearranges(sort)
    ensures var q := Finished(inside, sort, rs);
      && q.stack == [] && multiset(Flat(q.batches)) + multiset(q.dropped) == multiset(rs)
      && (q.disordered <==> q.dropped != []) && (q.disordered <==> !InOrder(rs))
  {
    PushedIsKept(inside, sort, rs);
    FlushKeepsAll(sort, inside(PushAll(inside, sort, rs).batches), PushAll(inside, sort, rs));
    NothingStacked(Finished(inside, sort, rs));
    AlwaysBatched(inside, sort, rs);
    DroppedIff(inside, sort, rs);
  }

  lemma NothingStacked(q: Queue)
    requires q.stack == []
    ensures Content(q) == multiset(Flat(q.batches)) + multiset(q.dropped)
  {
  }

  // ----- records that come in batches

  /** Records of one time, of which only the first may end a block, and which the sorts leave as they are. */
  ghost predicate Settled(sort: Sort, batch: seq<Record>) {
    && batch != [] && (forall j :: 0 < j < |batch| ==> batch[j].time == batch[0].time && !IsMpiEnd(batch[j]))
    && (1 < |batch| ==> forall inBlock :: sort(inBlock, batch) == batch)
  }

  /** Such batches, each later than the one before. */
  ghost predicate Separate(sort: Sort, batches: seq<seq<Record>>) {
    && (forall k :: 0 <= k < |batches| ==> Settled(sort, batches[k]))
    && forall k :: 0 < k < |batches| ==> batches[k - 1][0].time < batches[k][0].time
  }

  lemma SameTimeStacks(sort: Sort, inBlock: bool, q: Queue, batch: seq<Record>, n: nat)
    requires Settled(sort, batch) && 0 < n < |batch| && q.stack == batch[..n]
    ensures Push(sort, inBlock, q, batch[n]) == q.(stack := batch[..n] + [batch[n]])
  {
    assert q.stack[|q.stack| - 1] == batch[n - 1];
    assert n == 1 || batch[n - 1].time == batch[0].time;
  }

  lemma PushMore(inside: Inside, sort: Sort, rs: seq<Record>, r: Record, q: Queue)
    requires PushAll(inside, sort, rs) == q
    ensures PushAll(inside, sort, rs + [r]) == Push(sort, inside(q.batches), q, r)
  {
    assert (rs + [r])[..|rs|] == rs;
  }

  lemma OneLonger(front: seq<Record>, batch: seq<Record>, n: nat)
    requires n < |batch|
    ensures front + batch[..n] + [batch[n]] == front + batch[..n + 1] && batch[..n] + [batch[n]] == batch[..n + 1]
  {
  }

  lemma {:induction false} StackGrows(inside: Inside, sort: Sort, front: seq<Record>, done: seq<seq<Record>>,
                                      batch: seq<Record>, n: nat)
    requires Settled(sort, batch) && 0 < n <= |batch|
    requires PushAll(inside, sort, front + [batch[0]]) == Queue(done, [batch[0]], [], false)
    ensures PushAll(inside, sort, front + batch[..n]) == Queue(done, batch[..n], [], false)
  {
    if n == 1 {
      assert batch[..1] == [batch[0]];
    } else {
      StackGrows(inside, sort, front, done, batch, n - 1);
      OneLonger(front, batch, n - 1);
      SameTimeStacks(sort, inside(done), Queue(done, batch[..n - 1], [], false), batch, n - 1);
      PushMore(inside, sort, front + batch[..n - 1], batch[n - 1], Queue(done, batch[..n - 1], [], false));
    }
  }

  lemma {:induction false} PushedInBatches(inside: Inside, sort: Sort, batches: seq<seq<Record>>, n: nat)
    requires Separate(sort, batches) && 0 < n <= |batches|
    ensures PushAll(inside, sort, Flat(batches[..n])) == Queue(batches[..n - 1], batches[n - 1], [], false)
  {
    var front, batch := Flat(batches[..n - 1]), batches[n - 1];
    if 1 < n {
      PushedInBatches(inside, sort, batches, n - 1);
      LaterBatch(sort, inside(batches[..n - 2]), batches, n - 1);
      PushMore(inside, sort, front, batch[0], Queue(batches[..n - 2], batches[n - 2], [], false));
    } else {
      PushMore(inside, sort, front, batch[0], Queue([], [], [], false));
    }
    StackGrows(inside, sort, front, batches[..n - 1], batch, |batch|);
    FlatUpTo(batches, n);
  }

  lemma FlatUpTo(batches: seq<seq<Record>>, n: nat)
    requires 0 < n <= |batches|
    ensures var batch := batches[n - 1];
      batch[..|batch|] == batch && Flat(batches[..n]) == Flat(batches[..n - 1]) + batch
  {
    assert batches[..n] == batches[..n - 1] + [batches[n - 1]];
    FlatMore(batches[..n - 1], batches[n - 1]);
  }

  lemma LaterBatch(sort: Sort, inBlock: bool, batches: seq<seq<Record>>, m: nat)
    requires Separate(sort, batches) && 0 < m < |batches|
    ensures Push(sort, inBlock, Queue(batches[..m - 1], batches[m - 1], [], false), batches[m][0])
         == Queue(batches[..m], [batches[m][0]], [], false)
  {
    var before := batches[m - 1];
    assert before[|before| - 1].time == before[0].time;
    assert batches[..m - 1] + [before] == batches[..m];
  }

  /** A thread whose records come in such batches translates just these. */
  lemma FinishedInBatches(inside: Inside, sort: Sort, batches: seq<seq<Record>>)
    requires Separate(sort, batches)
    ensures Finished(inside, sort, Flat(batches)) == Queue(batches, [], [], false)
  {
    if batches != [] {
      var n := |batches|;
      PushedInBatches(inside, sort, batches, n);
      assert batches[..n] == batches && batches[..n - 1] + [batches[n - 1]] == batches;
    }
  }

  // ----- what a batch is made of

  /** Each batch is what was stacked for it, sorted by the sort for where the thread was, if there is more than one. */
  predicate MadeOf(inside: Inside, sort: Sort, batches: seq<seq<Record>>, raws: seq<seq<Record>>) {
    |raws| == |batches| && forall k :: 0 <= k < |batches| ==> MadeOfOne(inside, sort, batches, k, raws[k])
  }

  predicate MadeOfOne(inside: Inside, sort: Sort, batches: seq<seq<Record>>, k: nat, raw: seq<Record>)
    requires k < |batches|
  {
    batches[k] == if 1 < |raw| then sort(inside(batches[..k]), raw) else raw
  }

  lemma MadeMore(inside: Inside, sort: Sort, batches: seq<seq<Record>>, raws: seq<seq<Record>>, raw: seq<Record>)
    requires MadeOf(inside, sort, batches, raws)
    ensures var batch := if 1 < |raw| then sort(inside(batches), raw) else raw;
      MadeOf(inside, sort, batches + [batch], raws + [raw])
  {
    var batch := if 1 < |raw| then sort(inside(batches), raw) else raw;
    var all, raws' := batches + [batch], raws + [raw];
    forall k | 0 <= k < |all| ensures MadeOfOne(inside, sort, all, k, raws'[k]) {
      assert all[..k] == batches[..k];
      if k < |batches| {
        assert MadeOfOne(inside, sort, batches, k, raws[k]);
      } else {
        assert batches[..k] == batches;
      }
    }
  }

  /** A flush turns the stack into the next batch. */
  lemma FlushMade(inside: Inside, sort: Sort, q: Queue, raws: seq<seq<Record>>, rs: seq<Record>)
      returns (raws': seq<seq<Record>>)
    requires MadeOf(inside, sort, q.batches, raws) && Flat(raws) + q.stack == rs
    ensures var q' := Flush(sort, inside(q.batches), q);
      MadeOf(inside, sort, q'.batches, raws') && Flat(raws') + q'.stack == rs && q'.stack == []
  {
    raws' := raws;
    if q.stack != [] {
      MadeMore(inside, sort, q.batches, raws, q.stack);
      FlatMore(raws, q.stack);
      raws' := raws + [q.stack];
    }
  }

  lemma StackedMade(raws: seq<seq<Record>>, stack: seq<Record>, rs: seq<Record>, r: Record)
    requires Flat(raws) + stack == rs
    ensures Flat(raws) + (stack + [r]) == rs + [r]
  {
  }

  lemma PushMade(inside: Inside, sort: Sort, q: Queue, raws: seq<seq<Record>>, rs: seq<Record>, r: Record)
      returns (raws': seq<seq<Record>>)
    requires MadeOf(inside, sort, q.batches, raws) && Flat(raws) + q.stack == rs
    ensures var q' := Push(sort, inside(q.batches), q, r);
      MadeOf(inside, sort, q'.batches, raws')
      && Flat(raws') + q'.stack == if q'.dropped == q.dropped then rs + [r] else rs
  {
    raws' := raws;
    StackedMade(raws, q.stack, rs, r);
    if q.stack == [] {
      assert q.stack + [r] == [r];
    } else if q.stack[|q.stack| - 1].time < r.time {
      raws' := FlushMade(inside, sort, q, raws, rs);
      StackedMade(raws', [], rs, r);
      assert [] + [r] == [r];
    } else if q.stack[|q.stack| - 1].time == r.time && IsMpiEnd(r) {
      raws' := FlushMade(inside, sort, q.(stack := q.stack + [r]), raws, rs + [r]);
    }
  }

  /** The records that are not dropped, in the order in which they were pushed. */
  function Kept(inside: Inside, sort: Sort, rs: seq<Record>): seq<Record> {
    if rs == [] then []
    else
      var n := |rs| - 1;
      var before := Kept(inside, sort, rs[..n]);
      if PushAll(inside, sort, rs).dropped == PushAll(inside, sort, rs[..n]).dropped then before + [rs[n]] else before
  }

  lemma {:induction false} AllMade(inside: Inside, sort: Sort, rs: seq<Record>) returns (raws: seq<seq<Record>>)
    ensures var q := PushAll(inside, sort, rs);
      MadeOf(inside, sort, q.batches, raws) && Flat(raws) + q.stack == Kept(inside, sort, rs)
  {
    raws := [];
    if rs != [] {
      var n := |rs| - 1;
      raws := AllMade(inside, sort, rs[..n]);
      raws := PushMade(inside, sort, PushAll(inside, sort, rs[..n]), raws, Kept(inside, sort, rs[..n]), rs[n]);
    }
  }

  lemma {:induction false} KeptAll(inside: Inside, sort: Sort, rs: seq<Record>)
    requires PushAll(inside, sort, rs).dropped == []
    ensures Kept(inside, sort, rs) == rs
  {
    if rs != [] {
      var n := |rs| - 1;
      DroppedGrows(sort, inside(PushAll(inside, sort, rs[..n]).batches), PushAll(inside, sort, rs[..n]), rs[n]);
      KeptAll(inside, sort, rs[..n]);
      assert rs[..n] + [rs[n]] == rs;
    }
  }

  lemma DroppedGrows(sort: Sort, inBlock: bool, q: Queue, r: Record)
    ensures Push(sort, inBlock, q, r).dropped == q.dropped || Push(sort, inBlock, q, r).dropped == q.dropped + [r]
  {
  }

  /**
   * Every batch is a stretch of what was pushed and not dropped, in the order of pushing, sorted as fits the place
   * where it is translated; all stretches together are everything.
   */
  lemma BatchesAreSorted(inside: Inside, sort: Sort, rs: seq<Record>) returns (raws: seq<seq<Record>>)
    ensures var q := Finished(inside, sort, rs);
      && MadeOf(inside, sort, q.batches, raws) && Flat(raws) == Kept(inside, sort, rs)
      && (q.dropped == [] ==> Flat(raws) == rs)
  {
    var q := PushAll(inside, sort, rs);
    raws := AllMade(inside, sort, rs);
    raws := FlushMade(inside, sort, q, raws, Kept(inside, sort, rs));
    if q.dropped == [] {
      KeptAll(inside, sort, rs);
    }
  }
}
