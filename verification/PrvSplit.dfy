/** First pass of the translator: every communication becomes four endpoints, put into one total order. */
module PrvSplit {

  datatype Kind = LogicalSend | PhysicalSend | LogicalRecv | PhysicalRecv

  datatype Party = Party(cpu: int, app: int, task: int, thread: int)

  datatype Communication = Communication(
    logicalSend: nat, physicalSend: nat, logicalRecv: nat, physicalRecv: nat,
    src: Party, dst: Party, size: int, tag: int, recordCount: nat)

  /** The records of the first pass over a trace that was not produced by the simulator. */
  datatype Parsed = EventRecord | CommRecord(comm: Communication)

  datatype Endpoint = Endpoint(
    kind: Kind, time: nat, owner: Party, partner: Party, size: int, tag: int, commId: nat, order: nat)

  predicate IsSend(k: Kind) { k.LogicalSend? || k.PhysicalSend? }

  function TimeOf(c: Communication, k: Kind): nat {
    match k
    case LogicalSend => c.logicalSend
    case PhysicalSend => c.physicalSend
    case LogicalRecv => c.logicalRecv
    case PhysicalRecv => c.physicalRecv
  }

  /** Constructor of PartialCommunication: send endpoints belong to the source, receive endpoints to the destination. */
  function EndpointOf(k: Kind, c: Communication, commId: nat): Endpoint {
    Endpoint(k, TimeOf(c, k), if IsSend(k) then c.src else c.dst, if IsSend(k) then c.dst else c.src,
             c.size, c.tag, commId, c.recordCount)
  }

  /** The comparison of two communication endpoints, branch by branch. */
  predicate InBlockBefore(a: Endpoint, b: Endpoint) {
    if a.time != b.time then a.time < b.time
    else if a.kind == b.kind then a.order < b.order
    else if a.kind.LogicalRecv? then true
    else if a.kind.LogicalSend? && b.kind.PhysicalSend? then true
    else if a.kind.PhysicalSend? && b.kind.PhysicalRecv? then true
    else if a.kind.LogicalSend? && b.kind.PhysicalRecv? then true
    else false
  }

  function KindRank(k: Kind): nat {
    match k case LogicalRecv => 0 case LogicalSend => 1 case PhysicalSend => 2 case PhysicalRecv => 3
  }

  /**
   * The comparison orders by time, then by kind as receive-logical, send-logical, send-physical, receive-physical,
   * then by trace order.
   */
  lemma InBlockIsLexicographic(a: Endpoint, b: Endpoint)
    ensures InBlockBefore(a, b) <==>
      || a.time < b.time
      || (a.time == b.time && KindRank(a.kind) < KindRank(b.kind))
      || (a.time == b.time && a.kind == b.kind && a.order < b.order)
  {
  }

  /** Endpoints that the comparison can tell apart. */
  predicate Distinguishable(s: seq<Endpoint>) {
    forall i, j :: 0 <= i < j < |s| ==> InBlockBefore(s[i], s[j]) || InBlockBefore(s[j], s[i])
  }

  lemma InBlockStrictOrder(a: Endpoint, b: Endpoint, c: Endpoint)
    ensures !InBlockBefore(a, a)
    ensures InBlockBefore(a, b) ==> !InBlockBefore(b, a)
    ensures InBlockBefore(a, b) && InBlockBefore(b, c) ==> InBlockBefore(a, c)
    ensures !InBlockBefore(a, b) && !InBlockBefore(b, a) <==> a.time == b.time && a.kind == b.kind && a.order == b.order
  {
  }

  /** What a sort by the comparison guarantees. */
  predicate Sorted(s: seq<Endpoint>) {
    forall i, j :: 0 <= i < j < |s| ==> !InBlockBefore(s[j], s[i])
  }

  predicate StrictlySorted(s: seq<Endpoint>) {
    forall i, j :: 0 <= i < j < |s| ==> InBlockBefore(s[i], s[j])
  }

  /** Endpoints of communications read in trace order. */
  function SplitFrom(records: seq<Parsed>, n: nat): (s: seq<Endpoint>)
    requires n <= |records|
  {
    if n == 0 then []
    else SplitFrom(records, n - 1) + match records[n - 1] case EventRecord => [] case CommRecord(c) => FourOf(c, n)
  }

  function FourOf(c: Communication, commId: nat): seq<Endpoint> {
    [EndpointOf(LogicalSend, c, commId), EndpointOf(LogicalRecv, c, commId),
     EndpointOf(PhysicalSend, c, commId), EndpointOf(PhysicalRecv, c, commId)]
  }

  function CommCount(records: seq<Parsed>, n: nat): nat
    requires n <= |records|
  {
    if n == 0 then 0 else CommCount(records, n - 1) + if records[n - 1].CommRecord? then 1 else 0
  }

  /** The parser numbers its records upwards. */
  predicate Numbered(records: seq<Parsed>) {
    forall i, j :: 0 <= i < j < |records| && records[i].CommRecord? && records[j].CommRecord? ==>
      records[i].comm.recordCount < records[j].comm.recordCount
  }

  /** The endpoint is one of the four of record `r`. */
  predicate ComesFrom(records: seq<Parsed>, e: Endpoint, r: nat) {
    r < |records| && records[r].CommRecord? && e == EndpointOf(e.kind, records[r].comm, r + 1)
  }

  /** The endpoint is one of the four of some record before `n`. */
  ghost predicate ComesFromBefore(records: seq<Parsed>, n: nat, e: Endpoint) {
    exists r: nat :: r < n && ComesFrom(records, e, r)
  }

  predicate HoldsAllOf(s: seq<Endpoint>, c: Communication, commId: nat) {
    forall kind :: EndpointOf(kind, c, commId) in s
  }

  /** Four endpoints for each communication. */
  lemma {:induction false} SplitCounts(records: seq<Parsed>, n: nat)
    requires n <= |records|
    ensures |SplitFrom(records, n)| == 4 * CommCount(records, n)
  {
    if n != 0 {
      SplitCounts(records, n - 1);
    }
  }

  /** Nothing but endpoints of communications comes out. */
  lemma {:induction false} SplitOnlyEndpoints(records: seq<Parsed>, n: nat, e: Endpoint)
    requires n <= |records| && e in SplitFrom(records, n)
    ensures ComesFromBefore(records, n, e)
  {
    if e in SplitFrom(records, n - 1) {
      SplitOnlyEndpoints(records, n - 1, e);
    } else {
      assert ComesFrom(records, e, n - 1);
    }
  }

  /** Every communication comes out with all four kinds. */
  lemma {:induction false} SplitAllEndpoints(records: seq<Parsed>, n: nat, r: nat)
    requires r < n <= |records| && records[r].CommRecord?
    ensures HoldsAllOf(SplitFrom(records, n), records[r].comm, r + 1)
  {
    var last := records[n - 1];
    if r == n - 1 {
      var four := FourOf(last.comm, n);
      forall kind ensures EndpointOf(kind, last.comm, n) in SplitFrom(records, n) {
        assert EndpointOf(kind, last.comm, n) == four[
          match kind case LogicalSend => 0 case LogicalRecv => 1 case PhysicalSend => 2 case PhysicalRecv => 3];
      }
    } else {
      SplitAllEndpoints(records, n - 1, r);
    }
  }

  /** The comparison tells all endpoints of a trace apart. */
  lemma {:induction false} SplitDistinguishable(records: seq<Parsed>, n: nat)
    requires n <= |records| && Numbered(records)
    ensures Distinguishable(SplitFrom(records, n))
  {
    if n != 0 {
      SplitDistinguishable(records, n - 1);
      if records[n - 1].CommRecord? {
        var before, four := SplitFrom(records, n - 1), FourOf(records[n - 1].comm, n);
        forall i | 0 <= i < |before| ensures before[i].order < records[n - 1].comm.recordCount {
          SplitOnlyEndpoints(records, n - 1, before[i]);
        }
        AppendDistinguishable(before, four, records[n - 1].comm.recordCount);
      }
    }
  }

  lemma AppendDistinguishable(before: seq<Endpoint>, four: seq<Endpoint>, order: nat)
    requires Distinguishable(before) && Distinguishable(four)
    requires forall i :: 0 <= i < |before| ==> before[i].order < order
    requires forall i :: 0 <= i < |four| ==> four[i].order == order
    ensures Distinguishable(before + four)
  {
  }

  // ----- sorting

  lemma PermutationDistinguishable(s: seq<Endpoint>, t: seq<Endpoint>)
    requires multiset(s) == multiset(t) && Distinguishable(s)
    ensures Distinguishable(t)
  {
    forall i, j | 0 <= i < j < |t| ensures InBlockBefore(t[i], t[j]) || InBlockBefore(t[j], t[i]) {
      var k, l := TwoOf(s, t, i, j);
    }
  }

  lemma RemoveAt(s: seq<Endpoint>, k: nat)
    requires k < |s|
    ensures multiset(s[..k] + s[k + 1..]) == multiset(s) - multiset{s[k]}
  {
    assert s == s[..k] + [s[k]] + s[k + 1..];
  }

  /** Two positions of a permutation come from two positions of the original. */
  lemma TwoOf(s: seq<Endpoint>, t: seq<Endpoint>, i: nat, j: nat) returns (k: nat, l: nat)
    requires multiset(s) == multiset(t) && i < j < |t|
    ensures k < |s| && l < |s| && k != l && s[k] == t[i] && s[l] == t[j]
  {
    k := OneOf(s, t, i);
    var rest := s[..k] + s[k + 1..];
    RemoveAt(s, k);
    RemoveAt(t, i);
    assert t[j] == (t[..i] + t[i + 1..])[j - 1];
    var m := OneOf(rest, t[..i] + t[i + 1..], j - 1);
    l := if m < k then m else m + 1;
  }

  lemma OneOf(s: seq<Endpoint>, t: seq<Endpoint>, i: nat) returns (k: nat)
    requires multiset(s) == multiset(t) && i < |t|
    ensures k < |s| && s[k] == t[i]
  {
    assert t[i] in multiset(s);
    k :| 0 <= k < |s| && s[k] == t[i];
  }

  lemma SortedIsStrict(s: seq<Endpoint>)
    requires Sorted(s) && Distinguishable(s)
    ensures StrictlySorted(s)
  {
  }

  lemma SameFirst(s: seq<Endpoint>, t: seq<Endpoint>)
    requires s != [] && t != [] && multiset(s) == multiset(t) && StrictlySorted(s) && StrictlySorted(t)
    ensures s[0] == t[0]
  {
    assert s[0] in multiset(t) && t[0] in multiset(s);
    var i :| 0 <= i < |t| && t[i] == s[0];
    var j :| 0 <= j < |s| && s[j] == t[0];
  }

  /** A strict total order leaves a sort no choice. */
  lemma {:induction false} SortedUnique(s: seq<Endpoint>, t: seq<Endpoint>)
    requires multiset(s) == multiset(t) && StrictlySorted(s) && StrictlySorted(t)
    ensures s == t
  {
    if s == [] {
      assert |t| == |multiset(t)| == 0;
    } else {
      assert |s| == |multiset(s)| == |multiset(t)| == |t|;
      SameFirst(s, t);
      assert s == [s[0]] + s[1..] && t == [t[0]] + t[1..];
      assert multiset(s[1..]) == multiset(s) - multiset{s[0]};
      assert multiset(t[1..]) == multiset(t) - multiset{t[0]};
      SortedUnique(s[1..], t[1..]);
    }
  }

  /** Insert into a sorted sequence, behind everything that is not after `e`. */
  method Insert(s: seq<Endpoint>, e: Endpoint) returns (t: seq<Endpoint>)
    requires Sorted(s)
    ensures Sorted(t) && multiset(t) == multiset(s) + multiset{e}
  {
    var k := 0;
    while k < |s| && !InBlockBefore(e, s[k])
      invariant 0 <= k <= |s|
      invariant forall i :: 0 <= i < k ==> !InBlockBefore(e, s[i])
    {
      k := k + 1;
    }
    t := s[..k] + [e] + s[k..];
    InsertedSorted(s, k, e);
    InsertedOnce(s, k, e);
  }

  lemma InsertedOnce(s: seq<Endpoint>, k: nat, e: Endpoint)
    requires k <= |s|
    ensures multiset(s[..k] + [e] + s[k..]) == multiset(s) + multiset{e}
  {
    assert s == s[..k] + s[k..];
  }

  /** Behind everything that is not after `e`, and before the first that is. */
  lemma InsertedSorted(s: seq<Endpoint>, k: nat, e: Endpoint)
    requires Sorted(s) && k <= |s| && (forall i :: 0 <= i < k ==> !InBlockBefore(e, s[i]))
    requires k < |s| ==> InBlockBefore(e, s[k])
    ensures Sorted(s[..k] + [e] + s[k..])
  {
    var t := s[..k] + [e] + s[k..];
    forall i | k <= i < |s| ensures !InBlockBefore(s[i], e) {
      InsertedBefore(s, k, i, e);
    }
    forall i, j | 0 <= i < j < |t| ensures !InBlockBefore(t[j], t[i]) {
      var a, b := if i < k then i else i - 1, if j < k then j else j - 1;
      assert i != k ==> t[i] == s[a];
      assert j != k ==> t[j] == s[b];
    }
  }

  lemma InsertedBefore(s: seq<Endpoint>, k: nat, i: nat, e: Endpoint)
    requires Sorted(s) && k <= i < |s| && InBlockBefore(e, s[k])
    ensures !InBlockBefore(s[i], e)
  {
    InBlockIsLexicographic(e, s[k]);
    InBlockIsLexicographic(s[i], s[k]);
    InBlockIsLexicographic(s[i], e);
  }

  /** The sort at the end of the first pass. */
  method SortEndpoints(s: seq<Endpoint>) returns (t: seq<Endpoint>)
    ensures Sorted(t) && multiset(t) == multiset(s)
  {
    t := [];
    for n := 0 to |s|
      invariant Sorted(t) && multiset(t) == multiset(s[..n])
    {
      t := Insert(t, s[n]);
      assert s[..n + 1] == s[..n] + [s[n]];
    }
    assert s[..|s|] == s;
  }

  /** SplitCommunications on a trace without simulator events. */
  method SplitCommunications(records: seq<Parsed>) returns (endpoints: seq<Endpoint>)
    requires Numbered(records)
    ensures multiset(endpoints) == multiset(SplitFrom(records, |records|))
    ensures StrictlySorted(endpoints)
  {
    endpoints := [];
    var pseudoCommId: nat := 0;
    for n := 0 to |records|
      invariant pseudoCommId == n && endpoints == SplitFrom(records, n)
    {
      pseudoCommId := pseudoCommId + 1;
      match records[n] {
        case EventRecord =>
        case CommRecord(c) =>
          endpoints := endpoints + [EndpointOf(LogicalSend, c, pseudoCommId)];
          endpoints := endpoints + [EndpointOf(LogicalRecv, c, pseudoCommId)];
          endpoints := endpoints + [EndpointOf(PhysicalSend, c, pseudoCommId)];
          endpoints := endpoints + [EndpointOf(PhysicalRecv, c, pseudoCommId)];
      }
    }
    var unsorted := endpoints;
    endpoints := SortEndpoints(unsorted);
    SplitDistinguishable(records, |records|);
    PermutationDistinguishable(unsorted, endpoints);
    SortedIsStrict(endpoints);
  }

  /** Any two results that meet the contract of SplitCommunications are the same list. */
  lemma SplitDetermined(records: seq<Parsed>, s: seq<Endpoint>, t: seq<Endpoint>)
    requires Numbered(records)
    requires multiset(s) == multiset(SplitFrom(records, |records|)) && Sorted(s)
    requires multiset(t) == multiset(SplitFrom(records, |records|)) && Sorted(t)
    ensures s == t && |s| == 4 * CommCount(records, |records|)
  {
    SplitCounts(records, |records|);
    SplitDistinguishable(records, |records|);
    PermutationDistinguishable(SplitFrom(records, |records|), s);
    PermutationDistinguishable(SplitFrom(records, |records|), t);
    SortedIsStrict(s);
    SortedIsStrict(t);
    SortedUnique(s, t);
    assert |s| == |multiset(s)|;
    assert |SplitFrom(records, |records|)| == |multiset(SplitFrom(records, |records|))|;
  }
}
