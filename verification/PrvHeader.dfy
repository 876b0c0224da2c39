/** Reading the header of the output file back: the numbers in it, in order, are what it was written from. */
module PrvHeader {
  import opened PrvIndex

  /** All numbers in a text. */
  function NumbersIn(s: string): seq<nat> {
    if s == "" then []
    else
      var d := DigitRun(s);
      if d == 0 then NumbersIn(s[1..]) else [Value(s[..d])] + NumbersIn(s[d..])
  }

  /** A text that does not go on with a digit. */
  predicate Apart(tail: string) { tail != "" && !IsDigit(tail[0]) }

  lemma NumberThen(n: nat, tail: string)
    requires Apart(tail)
    ensures NumbersIn(Decimal(n) + tail) == [n] + NumbersIn(tail)
  {
    var d, s := Decimal(n), Decimal(n) + tail;
    DecimalDigits(n);
    DigitRunOf(d, tail);
    DecimalRoundTrip(n);
    assert s[..|d|] == d && s[|d|..] == tail;
  }

  lemma MarkThen(mark: char, tail: string)
    requires !IsDigit(mark)
    ensures NumbersIn([mark] + tail) == NumbersIn(tail)
  {
    assert ([mark] + tail)[1..] == tail;
  }

  // ----- any reader that takes numbers and skips marks

  type Reader = string -> seq<nat>

  ghost predicate Reads(f: Reader) {
    && f("") == []
    && (forall n: nat, tail | Apart(tail) :: f(Decimal(n) + tail) == [n] + f(tail))
    && (forall mark: char, tail | !IsDigit(mark) :: f([mark] + tail) == f(tail))
  }

  /** Such as this one. */
  lemma NumbersInReads()
    ensures Reads(NumbersIn)
  {
    forall n: nat, tail | Apart(tail) ensures NumbersIn(Decimal(n) + tail) == [n] + NumbersIn(tail) {
      NumberThen(n, tail);
    }
    forall mark: char, tail | !IsDigit(mark) ensures NumbersIn([mark] + tail) == NumbersIn(tail) {
      MarkThen(mark, tail);
    }
  }

  lemma Take(f: Reader, n: nat, tail: string)
    requires Reads(f) && Apart(tail)
    ensures f(Decimal(n) + tail) == [n] + f(tail)
  {
  }

  lemma Skip(f: Reader, mark: char, tail: string)
    requires Reads(f) && !IsDigit(mark)
    ensures f([mark] + tail) == f(tail) && Apart([mark] + tail)
  {
  }

  lemma {:induction false} SkipAll(f: Reader, s: string)
    requires Reads(f) && forall i :: 0 <= i < |s| ==> !IsDigit(s[i])
    ensures f(s) == []
  {
    if s != "" {
      Skip(f, s[0], s[1..]);
      SkipAll(f, s[1..]);
      assert [s[0]] + s[1..] == s;
    }
  }

  lemma OneThread(f: Reader, n: nat, comma: string, tail: string)
    requires Reads(f) && (comma == "," || (comma == "" && Apart(tail)))
    ensures f(Decimal(n) + (comma + tail)) == [n] + f(tail)
  {
    if comma == "," {
      Skip(f, ',', tail);
      Take(f, n, [','] + tail);
      assert comma + tail == [','] + tail;
    } else {
      Take(f, n, tail);
      assert comma + tail == tail;
    }
  }

  lemma JoinedApart(s: seq<nat>, n: nat, tail: string)
    requires 0 < n <= |s|
    ensures Joined(s, n) + tail == Joined(s, n - 1) + (Decimal(s[n - 1]) + ((if n < |s| then "," else "") + tail))
    ensures s[..n] == s[..n - 1] + [s[n - 1]]
  {
  }

  lemma OneThreadMore(f: Reader, all: string, front: string, n: nat, comma: string, tail: string, before: seq<nat>)
    requires Reads(f) && (comma == "," || (comma == "" && Apart(tail)))
    requires all == front + (Decimal(n) + (comma + tail))
    requires f(all) == before + f(Decimal(n) + (comma + tail))
    ensures f(all) == before + [n] + f(tail)
  {
    OneThread(f, n, comma, tail);
  }

  /** The thread counts, with whatever follows them. */
  lemma {:induction false} ThreadsThen(f: Reader, s: seq<nat>, n: nat, tail: string)
    requires Reads(f) && n <= |s| && (0 < n == |s| ==> Apart(tail))
    ensures f(Joined(s, n) + tail) == s[..n] + f(tail)
  {
    if n == 0 {
      assert Joined(s, 0) + tail == tail;
    } else {
      var comma := if n < |s| then "," else "";
      JoinedApart(s, n, tail);
      ThreadsThen(f, s, n - 1, Decimal(s[n - 1]) + (comma + tail));
      OneThreadMore(f, Joined(s, n) + tail, Joined(s, n - 1), s[n - 1], comma, tail, s[..n - 1]);
    }
  }

  /** The tasks from `i` on that are marked. */
  function MarkedFrom(acc: seq<bool>, i: nat): seq<nat>
    requires i <= |acc|
    decreases |acc| - i
  {
    if i == |acc| then [] else (if acc[i] then [i] else []) + MarkedFrom(acc, i + 1)
  }

  lemma {:induction false} NoneMarked(acc: seq<bool>, i: nat)
    requires i <= |acc| && CountTrue(acc[i..]) == 0
    ensures MarkedFrom(acc, i) == []
    decreases |acc| - i
  {
    if i < |acc| {
      assert acc[i..][1..] == acc[i + 1..];
      NoneMarked(acc, i + 1);
    }
  }

  lemma ItemThen(f: Reader, marked: bool, i: nat, mark: char, tail: string)
    requires Reads(f) && !IsDigit(mark)
    ensures f((if marked then Decimal(i) else "") + ([mark] + tail)) == (if marked then [i] else []) + f(tail)
  {
    Skip(f, mark, tail);
    if marked {
      Take(f, i, [mark] + tail);
    } else {
      assert "" + ([mark] + tail) == [mark] + tail;
    }
  }

  lemma PieceApart(acc: seq<bool>, i: nat, left: nat, tail: string)
    requires i < |acc|
    ensures var mark := if 0 < left then ',' else ')';
      var item := (if acc[i] then Decimal(i) else "") + ([mark] + tail);
      AccPiece(acc, i, left) + tail == if i == 0 then ['('] + item else item
  {
  }

  lemma PieceThen(f: Reader, acc: seq<bool>, i: nat, left: nat, tail: string)
    requires Reads(f) && i < |acc|
    ensures f(AccPiece(acc, i, left) + tail) == (if acc[i] then [i] else []) + f(tail)
  {
    PieceApart(acc, i, left, tail);
    ItemThen(f, acc[i], i, if 0 < left then ',' else ')', tail);
  }

  lemma AccSplit(acc: seq<bool>, i: nat, left: nat, tail: string)
    requires i < |acc| && left != 0
    ensures var left' := if acc[i] then left - 1 else left;
      AccList(acc, i, left) + tail == AccPiece(acc, i, left') + (AccList(acc, i + 1, left') + tail)
  {
  }

  /** One piece more in front. */
  lemma PieceMore(f: Reader, acc: seq<bool>, i: nat, left: nat, all: string, rest: string, told: seq<nat>, tail: string)
    requires Reads(f) && i < |acc| && all == AccPiece(acc, i, left) + rest && f(rest) == told + f(tail)
    ensures f(all) == (if acc[i] then [i] else []) + told + f(tail)
  {
    PieceThen(f, acc, i, left, rest);
  }

  /** The accelerator tasks, with whatever follows them. */
  lemma {:induction false} AccThen(f: Reader, acc: seq<bool>, i: nat, left: nat, tail: string)
    requires Reads(f) && i <= |acc| && left == CountTrue(acc[i..])
    ensures f(AccList(acc, i, left) + tail) == MarkedFrom(acc, i) + f(tail)
    decreases |acc| - i
  {
    if i == |acc| || left == 0 {
      NoneMarked(acc, i);
      assert AccList(acc, i, left) + tail == tail;
    } else {
      var left' := if acc[i] then left - 1 else left;
      assert acc[i..][1..] == acc[i + 1..];
      AccThen(f, acc, i + 1, left', tail);
      AccSplit(acc, i, left, tail);
      PieceMore(f, acc, i, left', AccList(acc, i, left) + tail, AccList(acc, i + 1, left') + tail,
                MarkedFrom(acc, i + 1), tail);
    }
  }

  lemma AccApart(acc: seq<bool>, tail: string)
    requires Apart(tail)
    ensures Apart(AccList(acc, 0, CountTrue(acc)) + tail)
  {
  }

  // ----- the header

  /** What the header says behind the position of the index. */
  function Told(h: Header): seq<nat> {
    [|h.threads|] + h.threads + [h.communicators, CountTrue(h.accTasks)] + MarkedFrom(h.accTasks, 0)
  }

  lemma Regroup(a: string, b: string, c: string, d: string, e: string, tail: string)
    ensures ":" + a + "(" + b + ")," + c + "," + d + e + tail
         == [':'] + (a + (['('] + (b + ([')'] + ([','] + (c + ([','] + (d + (e + tail)))))))))
  {
    var rest := c + ([','] + (d + (e + tail)));
    assert c + "," + d + e + tail == rest;
    assert ":" + a + "(" + b + ")," + rest == [':'] + (a + (['('] + (b + ([')'] + ([','] + rest)))));
    assert ":" + a + "(" + b + ")," + c + "," + d + e + tail == ":" + a + "(" + b + ")," + (c + "," + d + e + tail);
  }

  lemma TasksThen(f: Reader, n: nat, list: string, threads: seq<nat>, tail: string)
    requires Reads(f) && f(list + ([')'] + ([','] + tail))) == threads + f([')'] + ([','] + tail))
    ensures f([':'] + (Decimal(n) + (['('] + (list + ([')'] + ([','] + tail)))))) == [n] + threads + f(tail)
  {
    Skip(f, ',', tail);
    Skip(f, ')', [','] + tail);
    var more := list + ([')'] + ([','] + tail));
    Skip(f, '(', more);
    Take(f, n, ['('] + more);
    Skip(f, ':', Decimal(n) + (['('] + more));
  }

  lemma CommsThen(f: Reader, n: nat, count: nat, acc: string)
    requires Reads(f) && Apart(acc)
    ensures f(Decimal(n) + ([','] + (Decimal(count) + acc))) == [n, count] + f(acc)
  {
    Take(f, count, acc);
    Skip(f, ',', Decimal(count) + acc);
    Take(f, n, [','] + (Decimal(count) + acc));
  }

  lemma RestThen(f: Reader, h: Header, tail: string)
    requires Reads(f) && Apart(tail)
    ensures f(Rest(h) + tail) == Told(h) + f(tail) && Apart(Rest(h) + tail)
  {
    var n, count := |h.threads|, CountTrue(h.accTasks);
    var threads, list := Joined(h.threads, n), AccList(h.accTasks, 0, count);
    var comms := Decimal(h.communicators) + ([','] + (Decimal(count) + (list + tail)));
    assert h.accTasks[0..] == h.accTasks && h.threads[..n] == h.threads;
    AccThen(f, h.accTasks, 0, count, tail);
    AccApart(h.accTasks, tail);
    CommsThen(f, h.communicators, count, list + tail);
    ThreadsThen(f, h.threads, n, [')'] + ([','] + comms));
    TasksThen(f, n, threads, h.threads, comms);
    Regroup(Decimal(n), threads, Decimal(h.communicators), Decimal(count), list, tail);
  }

  lemma HeaderApart(prefix: string, digits: string, rest: string, spaces: string)
    ensures |prefix| <= |prefix + digits + rest + spaces + "\n"|
    ensures (prefix + digits + rest + spaces + "\n")[|prefix|..] == digits + (rest + (spaces + "\n"))
  {
  }

  lemma PiecesRead(f: Reader, prefix: string, position: nat, rest: string, spaces: string, told: seq<nat>)
    requires Reads(f) && Apart(rest + (spaces + "\n")) && forall i :: 0 <= i < |spaces| ==> spaces[i] == ' '
    requires f(rest + (spaces + "\n")) == told + f(spaces + "\n")
    ensures |prefix| <= |prefix + Decimal(position) + rest + spaces + "\n"|
    ensures f((prefix + Decimal(position) + rest + spaces + "\n")[|prefix|..]) == [position] + told
  {
    HeaderApart(prefix, Decimal(position), rest, spaces);
    Take(f, position, rest + (spaces + "\n"));
    SkipAll(f, spaces + "\n");
  }

  lemma PrefixApart(name: string, rest: string)
    ensures var text := "#DIMEMAS:\"" + name + "\":1," + rest;
      && 10 + |name| + 4 <= |text| && text[..10] == "#DIMEMAS:\"" && text[10..10 + |name|] == name
      && text[10 + |name|..14 + |name|] == "\":1,"
  {
    var text := "#DIMEMAS:\"" + name + "\":1," + rest;
    assert text == "#DIMEMAS:\"" + (name + ("\":1," + rest));
  }

  /** The header begins with the name of the trace in quotes. */
  lemma NameReads(h: Header, position: nat)
    requires 0 < position
    ensures var text := Definitive(h, position);
      && 14 + |h.name| == |Prefix(h)| <= |text|
      && text[..10] == "#DIMEMAS:\"" && text[10..10 + |h.name|] == h.name
      && text[10 + |h.name|..14 + |h.name|] == "\":1,"
  {
    var rest := Decimal(position) + Rest(h) + Spaces((RESERVE - |Decimal(position)|) % UINT32) + "\n";
    PrefixApart(h.name, rest);
    DefinitiveApart(Prefix(h), Decimal(position), Rest(h), Spaces((RESERVE - |Decimal(position)|) % UINT32));
  }

  lemma DefinitiveApart(prefix: string, digits: string, rest: string, spaces: string)
    ensures prefix + digits + rest + spaces + "\n" == prefix + (digits + rest + spaces + "\n")
  {
  }

  /**
   * Behind the name the definitive header tells any reader the position of the index, the number of tasks and the
   * number of threads of each, the number of communicators, and how many accelerator tasks there are and which.
   */
  lemma HeaderReads(f: Reader, h: Header, position: nat)
    requires Reads(f) && 0 < position
    ensures |Prefix(h)| <= |Definitive(h, position)|
    ensures f(Definitive(h, position)[|Prefix(h)|..]) == [position] + Told(h)
  {
    var spaces := Spaces((RESERVE - |Decimal(position)|) % UINT32);
    RestThen(f, h, spaces + "\n");
    PiecesRead(f, Prefix(h), position, Rest(h), spaces, Told(h));
  }
}
