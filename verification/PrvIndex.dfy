/**
 * The output file of the translator: a header with room for the position of the offset index, the streams of all
 * threads, the index itself, and the header written again over its placeholder.
 */
module PrvIndex {

  const RESERVE: nat := 15              // OFFSETS_OFFSET_RESERVE
  const UINT32: int := 0x1_0000_0000
  const BLOCK: nat := 1048576           // size of Merge's copy buffer
  const INDEX_LIMIT: int := 1_000_000_000_000_000  // the first number with 16 digits

  // ----- decimal numbers

  function Digit(d: nat): char
    requires d < 10
  {
    "0123456789"[d]
  }

  function DigitValue(c: char): nat { if '0' <= c <= '9' then c as int - '0' as int else 0 }

  predicate IsDigit(c: char) { '0' <= c <= '9' }

  lemma DigitRoundTrip(d: nat)
    requires d < 10
    ensures IsDigit(Digit(d)) && DigitValue(Digit(d)) == d
  {
  }

  /** printf of an unsigned number. */
  function Decimal(n: nat): (s: string)
    ensures s != []
  {
    if n < 10 then [Digit(n)] else Decimal(n / 10) + [Digit(n % 10)]
  }

  predicate AllDigits(s: string) { forall i :: 0 <= i < |s| ==> IsDigit(s[i]) }

  lemma {:induction false} DecimalDigits(n: nat)
    ensures AllDigits(Decimal(n))
  {
    DigitRoundTrip(n % 10);
    if 10 <= n {
      DecimalDigits(n / 10);
    }
  }

  function Value(s: string): nat {
    if s == [] then 0 else Value(s[..|s| - 1]) * 10 + DigitValue(s[|s| - 1])
  }

  lemma {:induction false} DecimalRoundTrip(n: nat)
    ensures Value(Decimal(n)) == n
  {
    DigitRoundTrip(n % 10);
    if n < 10 {
      assert Decimal(n)[..0] == [];
    } else {
      DecimalRoundTrip(n / 10);
      assert Decimal(n)[..|Decimal(n)| - 1] == Decimal(n / 10);
    }
  }

  function Power10(k: nat): nat { if k == 0 then 1 else 10 * Power10(k - 1) }

  /** A number has at most `k` digits exactly when it is below ten to the `k`. */
  lemma {:induction false} DecimalLength(n: nat, k: nat)
    requires 0 < k
    ensures |Decimal(n)| <= k <==> n < Power10(k)
  {
    if n < 10 {
      PowerAtLeast(k);
    } else if k == 1 {
      assert Power10(1) == 10 * Power10(0);
    } else {
      DecimalLength(n / 10, k - 1);
    }
  }

  lemma {:induction false} PowerAtLeast(k: nat)
    requires 0 < k
    ensures 10 <= Power10(k)
  {
    if k != 1 {
      PowerAtLeast(k - 1);
    }
  }

  lemma PowerOfReserve()
    ensures Power10(RESERVE) == INDEX_LIMIT
  {
    assert Power10(5) == 100_000;
    assert Power10(10) == 10_000_000_000;
  }

  /** The digits at the front of a text, read as a number, as a reader of the trace does. */
  function ReadNumber(s: string): nat { Value(s[..DigitRun(s)]) }

  function DigitRun(s: string): (n: nat)
    ensures n <= |s|
  {
    if s == [] || !IsDigit(s[0]) then 0 else 1 + DigitRun(s[1..])
  }

  lemma {:induction false} DigitRunOf(d: string, rest: string)
    requires AllDigits(d) && rest != [] && !IsDigit(rest[0])
    ensures DigitRun(d + rest) == |d|
  {
    if d == [] {
      assert d + rest == rest;
    } else {
      assert (d + rest)[1..] == d[1..] + rest;
      DigitRunOf(d[1..], rest);
    }
  }

  lemma ReadNumberOf(n: nat, rest: string)
    requires rest != [] && !IsDigit(rest[0])
    ensures ReadNumber(Decimal(n) + rest) == n
  {
    DecimalDigits(n);
    DigitRunOf(Decimal(n), rest);
    assert (Decimal(n) + rest)[..|Decimal(n)|] == Decimal(n);
    DecimalRoundTrip(n);
  }

  // ----- the header

  /** Everything the header mentions except the index position. */
  datatype Header = Header(name: string, threads: seq<nat>, communicators: nat, accTasks: seq<bool>)

  function Spaces(n: nat): string { seq(n, _ => ' ') }

  function Prefix(h: Header): string { "#DIMEMAS:\"" + h.name + "\":1," }

  /** The first `n` of some numbers, with commas between all of them. */
  function Joined(s: seq<nat>, n: nat): string
    requires n <= |s|
  {
    if n == 0 then "" else Joined(s, n - 1) + Decimal(s[n - 1]) + if n < |s| then "," else ""
  }

  function CountTrue(s: seq<bool>): nat { if s == [] then 0 else CountTrue(s[1..]) + if s[0] then 1 else 0 }

  /** The list of accelerator tasks as the loop prints it; tasks before the first one also leave a comma. */
  function AccList(acc: seq<bool>, i: nat, left: nat): string
    requires i <= |acc|
    decreases |acc| - i
  {
    if i == |acc| || left == 0 then ""
    else
      var left' := if acc[i] then left - 1 else left;
      AccPiece(acc, i, left') + AccList(acc, i + 1, left')
  }

  function AccPiece(acc: seq<bool>, i: nat, left': nat): string
    requires i < |acc|
  {
    (if i == 0 then "(" else "") + (if acc[i] then Decimal(i) else "") + (if 0 < left' then "," else ")")
  }

  function Rest(h: Header): string {
    ":" + Decimal(|h.threads|) + "(" + Joined(h.threads, |h.threads|) + ")," + Decimal(h.communicators)
    + "," + Decimal(CountTrue(h.accTasks)) + AccList(h.accTasks, 0, CountTrue(h.accTasks))
  }

  /** The header as first written: crosses in place of the index position. */
  function Placeholder(h: Header): string {
    Prefix(h) + seq(RESERVE, _ => 'X') + Rest(h) + "\n"
  }

  /** The header as written again: the position in decimal, the room it leaves filled up at the end of the line. */
  function Definitive(h: Header, position: nat): string
    requires 0 < position
  {
    var digits := Decimal(position);
    Prefix(h) + digits + Rest(h) + Spaces((RESERVE - |digits|) % UINT32) + "\n"
  }

  /** The definitive header is exactly as long as its placeholder for every position of at most 15 digits. */
  lemma HeaderFitsIff(h: Header, position: nat)
    requires 0 < position
    ensures |Definitive(h, position)| == |Placeholder(h)| <==> position < INDEX_LIMIT
  {
    var digits := Decimal(position);
    DecimalLength(position, RESERVE);
    PowerOfReserve();
    if RESERVE < |digits| {
      PaddingWraps(|digits|);
    }
  }

  /** One digit too many, and the unsigned subtraction asks for padding that is anything but zero. */
  lemma PaddingWraps(n: nat)
    requires RESERVE < n
    ensures n + (RESERVE - n) % UINT32 != RESERVE
  {
  }

  // ----- writing the file

  /** The list of thread streams, task by task. */
  type Streams = seq<seq<string>>

  function Concat(parts: seq<string>): string {
    if parts == [] then "" else Concat(parts[..|parts| - 1]) + parts[|parts| - 1]
  }

  function ConcatTasks(streams: Streams): string {
    if streams == [] then "" else ConcatTasks(streams[..|streams| - 1]) + Concat(streams[|streams| - 1])
  }

  /** Position of a thread's stream in the file. */
  function StartOf(base: nat, streams: Streams, task: nat, thread: nat): nat
    requires task < |streams| && thread <= |streams[task]|
  {
    base + |ConcatTasks(streams[..task])| + |Concat(streams[task][..thread])|
  }

  function OffsetsOf(offsets: seq<nat>): string {
    if offsets == [] then "" else ":" + Decimal(offsets[0]) + OffsetsOf(offsets[1..])
  }

  /** One line of the index, the task and the offsets of its threads, followed by more lines. */
  function IndexLine(task: nat, offsets: seq<nat>, more: string): string {
    "s:" + (Decimal(task) + (OffsetsOf(offsets) + ("\n" + more)))
  }

  /** The lines from task `i` on. */
  function Index(offsets: seq<seq<nat>>, i: nat): string
    requires i <= |offsets|
    decreases |offsets| - i
  {
    if i == |offsets| then "" else IndexLine(i, offsets[i], Index(offsets, i + 1))
  }

  // ----- reading the index back

  /** Offsets up to the end of the line, and what follows them. */
  function ParseOffsets(s: string): (seq<nat>, string) {
    if s == [] || s[0] != ':' then ([], s)
    else
      var d := DigitRun(s[1..]);
      var (offsets, rest) := ParseOffsets(s[1 + d..]);
      ([ReadNumber(s[1..])] + offsets, rest)
  }

  /** The line of a task begins with the marker and the number of the task. */
  predicate IsLineOf(s: string, task: nat) {
    2 <= |s| && s[0] == 's' && s[1] == ':' && 0 < DigitRun(s[2..]) && ReadNumber(s[2..]) == task
  }

  /** The offsets of the next `n` lines, of `task` and those behind it, as far as they are there. */
  function ParseIndex(s: string, task: nat, n: nat): seq<seq<nat>>
    decreases n
  {
    if n == 0 || !IsLineOf(s, task) then []
    else
      var (offsets, rest) := ParseOffsets(s[2 + DigitRun(s[2..])..]);
      if rest == [] || rest[0] != '\n' then [] else [offsets] + ParseIndex(rest[1..], task + 1, n - 1)
  }

  lemma ParseOneOffset(n: nat, tail: string)
    requires tail != [] && !IsDigit(tail[0])
    ensures ParseOffsets(":" + (Decimal(n) + tail)) == ([n] + ParseOffsets(tail).0, ParseOffsets(tail).1)
  {
    var s := ":" + (Decimal(n) + tail);
    assert s[1..] == Decimal(n) + tail;
    DecimalDigits(n);
    DigitRunOf(Decimal(n), tail);
    ReadNumberOf(n, tail);
    assert s[1 + |Decimal(n)|..] == tail;
  }

  lemma OffsetsOfFirst(offsets: seq<nat>, rest: string)
    requires rest != [] && rest[0] == '\n'
    ensures var tail := OffsetsOf(offsets) + rest; tail != [] && !IsDigit(tail[0])
  {
  }

  lemma {:induction false} ParseOffsetsOf(offsets: seq<nat>, rest: string)
    requires rest != [] && rest[0] == '\n'
    ensures ParseOffsets(OffsetsOf(offsets) + rest) == (offsets, rest)
  {
    if offsets == [] {
      assert OffsetsOf(offsets) + rest == rest;
    } else {
      var tail := OffsetsOf(offsets[1..]) + rest;
      assert OffsetsOf(offsets) + rest == ":" + (Decimal(offsets[0]) + tail);
      OffsetsOfFirst(offsets[1..], rest);
      ParseOneOffset(offsets[0], tail);
      ParseOffsetsOf(offsets[1..], rest);
      assert [offsets[0]] + offsets[1..] == offsets;
    }
  }

  /** A reader takes `line` off the front of `s` and goes on with `more`. */
  predicate TakesLine(s: string, task: nat, line: seq<nat>, more: string, n: nat) {
    0 < n && ParseIndex(s, task, n) == [line] + ParseIndex(more, task + 1, n - 1)
  }

  lemma ParseOneLine(s: string, task: nat, offsets: seq<nat>, more: string, n: nat)
    requires 0 < n && s == IndexLine(task, offsets, more)
    ensures TakesLine(s, task, offsets, more, n)
  {
    var d, tail := Decimal(task), OffsetsOf(offsets) + ("\n" + more);
    assert s[2..] == d + tail;
    OffsetsOfFirst(offsets, "\n" + more);
    DecimalDigits(task);
    DigitRunOf(d, tail);
    assert s[2 + |d|..] == tail;
    ParseOffsetsOf(offsets, "\n" + more);
    ReadNumberOf(task, tail);
    ParseLineBy(s, |d|, task, offsets, more, n);
  }

  lemma ParseLineBy(s: string, digits: nat, task: nat, offsets: seq<nat>, more: string, n: nat)
    requires 0 < n && IsLineOf(s, task) && digits == DigitRun(s[2..]) && 2 + digits <= |s|
    requires ParseOffsets(s[2 + digits..]) == (offsets, "\n" + more)
    ensures TakesLine(s, task, offsets, more, n)
  {
    assert ("\n" + more)[1..] == more;
  }

  /** The text from each line of the index on, and the empty text behind the last. */
  ghost predicate IndexTexts(texts: seq<string>, offsets: seq<seq<nat>>) {
    && |texts| == |offsets| + 1 && texts[|offsets|] == ""
    && forall i :: 0 <= i < |offsets| ==> texts[i] == IndexLine(i, offsets[i], texts[i + 1])
  }

  lemma {:induction false} TextsOf(offsets: seq<seq<nat>>) returns (texts: seq<string>)
    ensures IndexTexts(texts, offsets) && texts[0] == Index(offsets, 0)
  {
    texts := seq(|offsets| + 1, i requires 0 <= i <= |offsets| => Index(offsets, i));
  }

  /** The reader takes a line off the front of each text and goes on with the next. */
  ghost predicate TakesLines(texts: seq<string>, offsets: seq<seq<nat>>) {
    && |texts| == |offsets| + 1
    && forall i :: 0 <= i < |offsets| ==> TakesLine(texts[i], i, offsets[i], texts[i + 1], |offsets| - i)
  }

  lemma TextsTaken(texts: seq<string>, offsets: seq<seq<nat>>)
    requires IndexTexts(texts, offsets)
    ensures TakesLines(texts, offsets)
  {
    forall i | 0 <= i < |offsets| ensures TakesLine(texts[i], i, offsets[i], texts[i + 1], |offsets| - i) {
      ParseOneLine(texts[i], i, offsets[i], texts[i + 1], |offsets| - i);
    }
  }

  lemma {:induction false} ParseTexts(texts: seq<string>, offsets: seq<seq<nat>>, i: nat)
    requires i <= |offsets| && TakesLines(texts, offsets)
    ensures ParseIndex(texts[i], i, |offsets| - i) == offsets[i..]
    decreases |offsets| - i
  {
    if i < |offsets| {
      ParseTexts(texts, offsets, i + 1);
      assert TakesLine(texts[i], i, offsets[i], texts[i + 1], |offsets| - i);
      assert [offsets[i]] + offsets[i + 1..] == offsets[i..];
    }
  }

  /** Reading the index gives back the offsets it was written from. */
  lemma ParseIndexOf(offsets: seq<seq<nat>>)
    ensures ParseIndex(Index(offsets, 0), 0, |offsets|) == offsets
  {
    var texts := TextsOf(offsets);
    TextsTaken(texts, offsets);
    ParseTexts(texts, offsets, 0);
    assert offsets[0..] == offsets;
  }

  /** Writing at a position of an existing file. */
  function Overwrite(file: string, at: nat, text: string): string
    requires at <= |file|
  {
    file[..at] + text + (if at + |text| <= |file| then file[at + |text|..] else "")
  }

  lemma {:induction false} ConcatAt(parts: seq<string>, k: nat)
    requires k < |parts|
    ensures |Concat(parts[..k])| + |parts[k]| <= |Concat(parts)|
    ensures Concat(parts)[|Concat(parts[..k])|..|Concat(parts[..k])| + |parts[k]|] == parts[k]
  {
    var n := |parts| - 1;
    if k < n {
      assert parts[..n][..k] == parts[..k];
      ConcatAt(parts[..n], k);
    }
  }

  lemma {:induction false} ConcatTasksAt(streams: Streams, task: nat)
    requires task < |streams|
    ensures |ConcatTasks(streams[..task])| + |Concat(streams[task])| <= |ConcatTasks(streams)|
    ensures var start := |ConcatTasks(streams[..task])|;
      ConcatTasks(streams)[start..start + |Concat(streams[task])|] == Concat(streams[task])
  {
    var n := |streams| - 1;
    if task < n {
      assert streams[..n][..task] == streams[..task];
      ConcatTasksAt(streams[..n], task);
    }
  }

  /** The thread counts, as the loop of WriteNewFormatHeader prints them. */
  method ThreadsText(threads: seq<nat>) returns (text: string)
    ensures text == Joined(threads, |threads|)
  {
    text := "";
    for i := 0 to |threads|
      invariant text == Joined(threads, i)
    {
      text := text + Decimal(threads[i]);
      if i < |threads| - 1 {
        text := text + ",";
      }
    }
  }

  /** The accelerator tasks, as its other loop prints them. */
  method AcceleratorsText(acc: seq<bool>) returns (text: string)
    ensures text == AccList(acc, 0, CountTrue(acc))
  {
    text := "";
    var left, i := CountTrue(acc), 0;
    while i < |acc| && 0 < left
      invariant i <= |acc| && text + AccList(acc, i, left) == AccList(acc, 0, CountTrue(acc))
    {
      var piece := if i == 0 then "(" else "";
      if acc[i] {
        piece := piece + Decimal(i);
        left := left - 1;
      }
      if 0 < left {
        piece := piece + ",";
      } else {
        piece := piece + ")";
      }
      assert piece == AccPiece(acc, i, left);
      ConcatAssociative(text, piece, AccList(acc, i + 1, left));
      text := text + piece;
      i := i + 1;
    }
  }

  lemma OverwriteEnd(file: string, text: string)
    ensures Overwrite(file, |file|, text) == file + text
  {
  }

  lemma ConcatAssociative(a: string, b: string, c: string)
    ensures (a + b) + c == a + (b + c)
  {
  }

  /** The header behind the index position. */
  method RestText(h: Header) returns (text: string)
    ensures text == Rest(h)
  {
    var threads := ThreadsText(h.threads);
    var accelerators := AcceleratorsText(h.accTasks);
    text := ":" + Decimal(|h.threads|) + "(" + threads + ")," + Decimal(h.communicators)
            + "," + Decimal(CountTrue(h.accTasks)) + accelerators;
  }

  /** The output file: a text and a position. */
  class TraceFile {
    var text: string
    var at: nat

    constructor ()
      ensures text == "" && at == 0
    {
      text, at := "", 0;
    }

    /** fprintf at the current position. */
    method Print(s: string)
      requires at <= |text|
      modifies this
      ensures at == old(at) + |s| <= |text| && text == Overwrite(old(text), old(at), s)
    {
      text := Overwrite(text, at, s);
      at := at + |s|;
    }

    /** WriteNewFormatHeader: at the current position with a placeholder, or over the start with a position. */
    method WriteHeader(h: Header, position: nat)
      requires at <= |text|
      modifies this
      ensures at <= |text|
      ensures
        if position == 0 then text == Overwrite(old(text), old(at), Placeholder(h)) && at == old(at) + |Placeholder(h)|
        else text == Overwrite(old(text), 0, Definitive(h, position)) && at == |Definitive(h, position)|
    {
      var line := "#DIMEMAS:\"" + h.name + "\":1,";
      var length: nat := 0;
      if position == 0 {
        line := line + seq(RESERVE, _ => 'X');
      } else {
        at := 0;
        length := |Decimal(position)|;
        line := line + Decimal(position);
      }
      var rest := RestText(h);
      line := line + rest;
      if position != 0 {
        line := line + Spaces((RESERVE - length) % UINT32);
      }
      Print(line + "\n");
    }

    method Append(s: string)
      requires at == |text|
      modifies this
      ensures text == old(text) + s && at == |text|
    {
      OverwriteEnd(text, s);
      Print(s);
    }

    /** TaskTranslationInfo::Merge: copy a thread's temporary file in blocks until a short block is read. */
    method Merge(stream: string)
      requires at == |text|
      modifies this
      ensures text == old(text) + stream && at == |text|
    {
      var read: nat, more := 0, true;
      assert stream[..0] == "";
      while more
        invariant read <= |stream| && text == old(text) + stream[..read] && at == |text|
        invariant !more ==> read == |stream|
        decreases more, |stream| - read
      {
        var n := if |stream| - read < BLOCK then |stream| - read else BLOCK;
        ConcatAssociative(old(text), stream[..read], stream[read..read + n]);
        assert stream[..read] + stream[read..read + n] == stream[..read + n];
        Append(stream[read..read + n]);
        read := read + n;
        more := n == BLOCK;
      }
      assert stream[..|stream|] == stream;
    }

    /** Append all streams of a task, noting where each begins. */
    method MergeTask(streams: seq<string>) returns (offsets: seq<nat>)
      requires at == |text|
      modifies this
      ensures at == |text| && text == old(text) + Concat(streams)
      ensures |offsets| == |streams|
      ensures forall j :: 0 <= j < |streams| ==> offsets[j] == |old(text)| + |Concat(streams[..j])|
    {
      offsets := [];
      for j := 0 to |streams|
        invariant |offsets| == j && at == |text| && text == old(text) + Concat(streams[..j])
        invariant forall k :: 0 <= k < j ==> offsets[k] == |old(text)| + |Concat(streams[..k])|
      {
        offsets := offsets + [at];
        assert streams[..j + 1][..j] == streams[..j];
        ConcatAssociative(old(text), Concat(streams[..j]), streams[j]);
        Merge(streams[j]);
      }
      assert streams[..|streams|] == streams;
    }

    method MergeAll(streams: Streams) returns (offsets: seq<seq<nat>>)
      requires at == |text|
      modifies this
      ensures at == |text| && text == old(text) + ConcatTasks(streams)
      ensures |offsets| == |streams|
      ensures forall i :: 0 <= i < |streams| ==> |offsets[i]| == |streams[i]|
      ensures forall i, j :: 0 <= i < |streams| && 0 <= j < |streams[i]| ==>
        offsets[i][j] == StartOf(|old(text)|, streams, i, j)
    {
      offsets := [];
      for i := 0 to |streams|
        invariant |offsets| == i && at == |text| && text == old(text) + ConcatTasks(streams[..i])
        invariant forall k :: 0 <= k < i ==> |offsets[k]| == |streams[k]|
        invariant forall k, j :: 0 <= k < i && 0 <= j < |streams[k]| ==>
          offsets[k][j] == StartOf(|old(text)|, streams, k, j)
      {
        assert streams[..i + 1][..i] == streams[..i];
        ConcatAssociative(old(text), ConcatTasks(streams[..i]), Concat(streams[i]));
        var line := MergeTask(streams[i]);
        offsets := offsets + [line];
      }
      assert streams[..|streams|] == streams;
    }

    /** The index at the end of the file. */
    method PrintIndex(offsets: seq<seq<nat>>)
      requires at == |text|
      modifies this
      ensures at == |text| && text == old(text) + Index(offsets, 0)
    {
      ghost var all := text + Index(offsets, 0);
      for i := 0 to |offsets|
        invariant at == |text| && text + Index(offsets, i) == all
      {
        PrintIndexLine(i, offsets[i], Index(offsets, i + 1));
      }
      assert text + "" == text;
    }

    method PrintIndexLine(task: nat, offsets: seq<nat>, ghost more: string)
      requires at == |text|
      modifies this
      ensures at == |text| && text + more == old(text) + IndexLine(task, offsets, more)
    {
      var entries := OffsetsText(offsets);
      var line := "s:" + (Decimal(task) + (entries + "\n"));
      LineThenMore(Decimal(task), entries, more);
      ConcatAssociative(text, line, more);
      Append(line);
    }
  }

  lemma LineThenMore(d: string, entries: string, more: string)
    ensures "s:" + (d + (entries + "\n")) + more == "s:" + (d + (entries + ("\n" + more)))
  {
  }

  /** The offsets of one line, as the loop over the threads prints them. */
  method OffsetsText(offsets: seq<nat>) returns (text: string)
    ensures text == OffsetsOf(offsets)
  {
    text := "";
    assert offsets[0..] == offsets && text + OffsetsOf(offsets) == OffsetsOf(offsets);
    for j := 0 to |offsets|
      invariant text + OffsetsOf(offsets[j..]) == OffsetsOf(offsets)
    {
      var piece := ":" + Decimal(offsets[j]);
      assert offsets[j..][1..] == offsets[j + 1..];
      ConcatAssociative(text, piece, OffsetsOf(offsets[j + 1..]));
      text := text + piece;
    }
  }

  /** Every stream is found at its offset, before `limit`. */
  ghost predicate StreamsLieAt(file: string, streams: Streams, offsets: seq<seq<nat>>, limit: nat) {
    && limit <= |file| && |offsets| == |streams|
    && (forall i :: 0 <= i < |streams| ==> |offsets[i]| == |streams[i]|)
    && forall i, j :: 0 <= i < |streams| && 0 <= j < |streams[i]| ==>
         && offsets[i][j] + |streams[i][j]| <= limit
         && file[offsets[i][j]..offsets[i][j] + |streams[i][j]|] == streams[i][j]
  }

  /** What a reader finds: the index position in the header, the offsets there, each stream at its offset. */
  ghost predicate ReadsBack(file: string, h: Header, streams: Streams) {
    |Prefix(h)| <= |file| &&
    var position := ReadNumber(file[|Prefix(h)|..]);
    position <= |file| && StreamsLieAt(file, streams, ParseIndex(file[position..], 0, |streams|), position)
  }

  lemma SliceOfSlice(s: string, a: nat, b: nat, c: nat, d: nat)
    requires a <= b <= |s| && c <= d <= b - a
    ensures s[a..b][c..d] == s[a + c..a + d]
  {
    var x, y := s[a..b][c..d], s[a + c..a + d];
    assert |x| == |y| && forall k :: 0 <= k < |x| ==> x[k] == y[k];
    assert x == y;
  }

  lemma SliceOfMiddle(front: string, middle: string, tail: string, a: nat, b: nat)
    requires a <= b <= |middle|
    ensures |front| + b <= |front + middle + tail|
    ensures (front + middle + tail)[|front| + a..|front| + b] == middle[a..b]
  {
  }

  /** The stream of a thread lies where its offset says. */
  lemma StreamAt(front: string, streams: Streams, tail: string, i: nat, j: nat)
    requires i < |streams| && j < |streams[i]|
    ensures var at := StartOf(|front|, streams, i, j);
      && at + |streams[i][j]| <= |front| + |ConcatTasks(streams)|
      && (front + ConcatTasks(streams) + tail)[at..at + |streams[i][j]|] == streams[i][j]
  {
    var all, a := ConcatTasks(streams), StartOf(0, streams, i, j);
    StreamInTasks(streams, i, j);
    SliceOfMiddle(front, all, tail, a, a + |streams[i][j]|);
  }

  lemma StreamInTasks(streams: Streams, i: nat, j: nat)
    requires i < |streams| && j < |streams[i]|
    ensures var at := StartOf(0, streams, i, j);
      at + |streams[i][j]| <= |ConcatTasks(streams)| && ConcatTasks(streams)[at..at + |streams[i][j]|] == streams[i][j]
  {
    ConcatTasksAt(streams, i);
    ConcatAt(streams[i], j);
    PartOfPart(ConcatTasks(streams), |ConcatTasks(streams[..i])|, Concat(streams[i]),
               |Concat(streams[i][..j])|, streams[i][j]);
  }

  lemma PartOfPart(all: string, a: nat, part: string, b: nat, piece: string)
    requires a + |part| <= |all| && all[a..a + |part|] == part
    requires b + |piece| <= |part| && part[b..b + |piece|] == piece
    ensures all[a + b..a + b + |piece|] == piece
  {
    SliceOfSlice(all, a, a + |part|, b, b + |piece|);
  }

  /** The header starts with its prefix and the digits, then a colon. */
  lemma DefinitiveReads(h: Header, position: nat, tail: string)
    requires 0 < position
    ensures |Prefix(h)| <= |Definitive(h, position) + tail|
    ensures ReadNumber((Definitive(h, position) + tail)[|Prefix(h)|..]) == position
  {
    var digits := Decimal(position);
    var after := Rest(h) + Spaces((RESERVE - |digits|) % UINT32) + "\n";
    assert after[0] == ':';
    assert Definitive(h, position) == Prefix(h) + digits + after;
    NumberBehind(Prefix(h), position, after, tail);
  }

  lemma NumberBehind(front: string, position: nat, after: string, tail: string)
    requires after != [] && !IsDigit(after[0])
    ensures ReadNumber((front + Decimal(position) + after + tail)[|front|..]) == position
  {
    assert (front + Decimal(position) + after + tail)[|front|..] == Decimal(position) + (after + tail);
    ReadNumberOf(position, after + tail);
  }

  lemma IndexIsSuffix(front: string, middle: string, index: string)
    ensures |front| + |middle| <= |front + middle + index|
    ensures (front + middle + index)[|front| + |middle|..] == index
  {
  }

  lemma FileReadsBack(h: Header, front: string, streams: Streams, offsets: seq<seq<nat>>)
    requires |offsets| == |streams| && forall i :: 0 <= i < |streams| ==> |offsets[i]| == |streams[i]|
    requires forall i, j :: 0 <= i < |streams| && 0 <= j < |streams[i]| ==>
      offsets[i][j] == StartOf(|front|, streams, i, j)
    requires var file := front + ConcatTasks(streams) + Index(offsets, 0);
      |Prefix(h)| <= |file| && ReadNumber(file[|Prefix(h)|..]) == |front| + |ConcatTasks(streams)|
    ensures ReadsBack(front + ConcatTasks(streams) + Index(offsets, 0), h, streams)
  {
    var middle, index := ConcatTasks(streams), Index(offsets, 0);
    IndexIsSuffix(front, middle, index);
    ParseIndexOf(offsets);
    StreamsAt(front, streams, index, offsets);
    ReadsBackBy(front + middle + index, h, streams, |front| + |middle|, index, offsets);
  }

  lemma ReadsBackBy(file: string, h: Header, streams: Streams, position: nat, index: string, offsets: seq<seq<nat>>)
    requires |Prefix(h)| <= |file| && ReadNumber(file[|Prefix(h)|..]) == position <= |file|
    requires file[position..] == index && ParseIndex(index, 0, |streams|) == offsets
    requires StreamsLieAt(file, streams, offsets, position)
    ensures ReadsBack(file, h, streams)
  {
  }

  lemma PositionReads(h: Header, position: nat, communicators: string, middle: string, index: string)
    requires 0 < position
    ensures var file := Definitive(h, position) + communicators + middle + index;
      |Prefix(h)| <= |file| && ReadNumber(file[|Prefix(h)|..]) == position
  {
    var file := Definitive(h, position) + communicators + middle + index;
    assert file == Definitive(h, position) + (communicators + middle + index);
    DefinitiveReads(h, position, communicators + middle + index);
  }

  lemma StreamsAt(front: string, streams: Streams, tail: string, offsets: seq<seq<nat>>)
    requires |offsets| == |streams| && forall i :: 0 <= i < |streams| ==> |offsets[i]| == |streams[i]|
    requires forall i, j :: 0 <= i < |streams| && 0 <= j < |streams[i]| ==>
      offsets[i][j] == StartOf(|front|, streams, i, j)
    ensures StreamsLieAt(front + ConcatTasks(streams) + tail, streams, offsets, |front| + |ConcatTasks(streams)|)
  {
    var file := front + ConcatTasks(streams) + tail;
    forall i, j | 0 <= i < |streams| && 0 <= j < |streams[i]|
      ensures offsets[i][j] + |streams[i][j]| <= |front| + |ConcatTasks(streams)|
      ensures file[offsets[i][j]..offsets[i][j] + |streams[i][j]|] == streams[i][j]
    {
      StreamAt(front, streams, tail, i, j);
    }
  }

  /** Patching a header of the same length leaves the rest of the file alone. */
  lemma PatchKeepsRest(placeholder: string, definitive: string, communicators: string, streams: string, index: string)
    requires |definitive| == |placeholder|
    ensures Overwrite(placeholder + communicators + streams + index, 0, definitive)
         == definitive + communicators + streams + index
  {
    var body := communicators + streams + index;
    assert placeholder + communicators + streams + index == placeholder + body;
    assert definitive + communicators + streams + index == definitive + body;
    assert Overwrite(placeholder + body, 0, definitive) == definitive + body;
  }

  /** The end of Translate: header, communicators, streams, index, and the header once more. */
  method WriteTrace(h: Header, communicators: string, streams: Streams) returns (f: TraceFile, position: nat)
    ensures position == |Placeholder(h)| + |communicators| + |ConcatTasks(streams)|
    ensures position < INDEX_LIMIT ==> ReadsBack(f.text, h, streams)
  {
    f := new TraceFile();
    f.WriteHeader(h, 0);
    assert f.text == Placeholder(h);
    f.Append(communicators);
    var offsets := f.MergeAll(streams);
    position := f.at;
    f.PrintIndex(offsets);
    f.WriteHeader(h, position);
    if position < INDEX_LIMIT {
      HeaderFitsIff(h, position);
      PatchKeepsRest(Placeholder(h), Definitive(h, position), communicators, ConcatTasks(streams), Index(offsets, 0));
      PositionReads(h, position, communicators, ConcatTasks(streams), Index(offsets, 0));
      FileReadsBack(h, Definitive(h, position) + communicators, streams, offsets);
    }
  }
}
