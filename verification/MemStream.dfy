/**
 * open_memstream on top of a callback stream: a growable buffer that behaves like a seekable file although the byte
 * at the current position is overwritten by a terminating NUL and kept aside.
 */
module MemStream {

  newtype byte = x: int | 0 <= x < 256

  const NUL: byte := 0
  const INITIAL_ALLOC: nat := 64
  const WORD: int := 0x1_0000_0000_0000_0000     // values of size_t
  const HALF_WORD: int := 0x8000_0000_0000_0000  // ssize_t and off_t are negative from here on
  const INT_LIMIT: int := 0x8000_0000            // values of int

  datatype Whence = SeekSet | SeekCur | SeekEnd

  datatype Error = TooBig | NoMemory

  datatype Result = Ok(count: nat) | Failed(error: Error)

  // ----- what a file is

  datatype File = File(content: seq<byte>, pos: nat)

  function Zeros(n: nat): seq<byte> { seq(n, _ => NUL) }

  /** The content, extended with NUL bytes up to `n`. */
  function Padded(content: seq<byte>, n: nat): seq<byte> {
    if |content| < n then content + Zeros(n - |content|) else content
  }

  /** Bytes from `pos` on are replaced; a gap before `pos` reads as NUL; writing nothing changes nothing. */
  function PlainWrite(f: File, data: seq<byte>): File {
    if data == [] then f
    else
      var end := f.pos + |data|;
      File(Padded(f.content, f.pos)[..f.pos] + data + (if end < |f.content| then f.content[end..] else []), end)
  }

  function SeekBase(f: File, whence: Whence): nat {
    match whence case SeekSet => 0 case SeekCur => f.pos case SeekEnd => |f.content|
  }

  /** A seek succeeds when it leads to a position that off_t can hold. */
  predicate SeekOk(f: File, offset: int, whence: Whence) {
    0 <= SeekBase(f, whence) + offset < HALF_WORD
  }

  function PlainSeek(f: File, offset: int, whence: Whence): File {
    if SeekOk(f, offset, whence) then f.(pos := SeekBase(f, whence) + offset) else f
  }

  /** What mem_write does.  Writing nothing is not neutral: it clears the current byte or pads up to the position. */
  function CodeWrite(f: File, data: seq<byte>): File {
    if data != [] then PlainWrite(f, data)
    else if f.pos < |f.content| then f.(content := f.content[f.pos := NUL])
    else f.(content := Padded(f.content, f.pos))
  }

  /** mem_write is a file write exactly when it writes something, or is at the end, or on a NUL byte. */
  lemma CodeWriteIsPlainIff(f: File, data: seq<byte>)
    ensures CodeWrite(f, data) == PlainWrite(f, data) <==>
      data != [] || f.pos == |f.content| || (f.pos < |f.content| && f.content[f.pos] == NUL)
  {
    if data == [] {
      if f.pos < |f.content| {
        assert f.content[f.pos := NUL][f.pos] == NUL;
      } else if |f.content| < f.pos {
        assert |Padded(f.content, f.pos)| == f.pos;
      }
    }
  }

  /** An empty write loses a byte of the file. */
  lemma EmptyWriteLosesByte()
    ensures var f := File([7], 0); CodeWrite(f, []).content == [NUL] && PlainWrite(f, []).content == [7]
  {
  }

  /** A write reads back: its own bytes, the old ones around them, and NUL in a gap. */
  lemma PlainWriteReadsBack(f: File, data: seq<byte>, i: nat)
    requires data != [] && i < |PlainWrite(f, data).content|
    ensures |PlainWrite(f, data).content| == (if f.pos + |data| < |f.content| then |f.content| else f.pos + |data|)
    ensures PlainWrite(f, data).content[i]
         == if f.pos <= i < f.pos + |data| then data[i - f.pos] else if i < |f.content| then f.content[i] else NUL
  {
  }

  /** Where each seek leads, in content and position of the file. */
  lemma SeekLeads(f: File, k: int, whence: Whence)
    ensures var target := match whence case SeekSet => k case SeekCur => f.pos + k case SeekEnd => |f.content| + k;
      && PlainSeek(f, k, whence).content == f.content
      && PlainSeek(f, k, whence).pos == if 0 <= target < HALF_WORD then target else f.pos
  {
  }

  /** Writing behind a seek to the end appends. */
  lemma AppendsAtEnd(f: File, data: seq<byte>)
    requires |f.content| < HALF_WORD
    ensures PlainWrite(PlainSeek(f, 0, SeekEnd), data).content == f.content + data
    ensures PlainWrite(PlainSeek(f, 0, SeekEnd), data).pos == |f.content| + |data|
  {
    var e := PlainSeek(f, 0, SeekEnd);
    assert e == File(f.content, |f.content|);
    assert f.content[..|f.content|] == f.content;
  }

  /** A seek by nothing stays, a seek to a position leads there, and seeks by steps add up where each succeeds. */
  lemma SeeksAddUp(f: File, k: int, n: int)
    requires f.pos < HALF_WORD
    ensures PlainSeek(f, 0, SeekCur) == f
    ensures 0 <= k < HALF_WORD ==> PlainSeek(f, k, SeekSet) == File(f.content, k)
    ensures SeekOk(f, k, SeekCur) && SeekOk(PlainSeek(f, k, SeekCur), n, SeekCur) ==>
      PlainSeek(PlainSeek(f, k, SeekCur), n, SeekCur) == PlainSeek(f, k + n, SeekCur)
    ensures SeekOk(f, k, SeekSet) && SeekOk(PlainSeek(f, k, SeekSet), n, SeekCur) ==>
      PlainSeek(PlainSeek(f, k, SeekSet), n, SeekCur) == PlainSeek(f, k + n, SeekSet)
    ensures SeekOk(f, k, SeekEnd) && SeekOk(PlainSeek(f, k, SeekEnd), n, SeekCur) ==>
      PlainSeek(PlainSeek(f, k, SeekEnd), n, SeekCur) == PlainSeek(f, k + n, SeekEnd)
  {
  }

  function Max(a: nat, b: nat): nat { if a < b then b else a }

  /** Byte `i` after clearing `raw` from `eof` to `pos` and copying `data` to `pos`. */
  function Copied(raw: seq<byte>, eof: nat, pos: nat, data: seq<byte>, i: nat): byte
    requires i < |raw|
  {
    if pos <= i < pos + |data| then data[i - pos] else if eof <= i < pos then NUL else raw[i]
  }

  /**
   * `raw` is a buffer that shows the file with NUL at the position; `stored` is that buffer after the gap was
   * cleared and the data copied in.  Up to the new end it is the written file.
   */
  lemma StoredIsWritten(f: File, data: seq<byte>, raw: seq<byte>, stored: seq<byte>)
    requires |raw| == |stored| && |f.content| <= |raw| && f.pos + |data| <= |raw|
    requires forall i :: 0 <= i < |f.content| ==> raw[i] == if i == f.pos then NUL else f.content[i]
    requires forall i :: 0 <= i < |stored| ==> stored[i] == Copied(raw, |f.content|, f.pos, data, i)
    ensures stored[..Max(|f.content|, f.pos + |data|)] == CodeWrite(f, data).content
  {
    var shown, written := stored[..Max(|f.content|, f.pos + |data|)], CodeWrite(f, data).content;
    assert |shown| == |written|;
    forall i | 0 <= i < |shown| ensures shown[i] == written[i] {
      if data != [] {
        PlainWriteReadsBack(f, data, i);
      }
    }
  }

  // ----- 64-bit arithmetic

  function ToSigned(x: int): int {
    var u := x % WORD;
    if u < HALF_WORD then u else u - WORD
  }

  lemma ToSignedOfSmall(x: int)
    requires -HALF_WORD <= x < WORD
    ensures ToSigned(x) == if x < HALF_WORD then x else x - WORD
  {
    if x < 0 {
      assert x % WORD == x + WORD;
    }
  }

  // ----- growth

  /** The capacity after a reallocation: half as much again, or what is needed; only that once three times wraps. */
  function NextCapacity(capacity: nat, needed: nat): nat {
    if 3 * capacity < WORD then Max(3 * capacity / 2, needed) else needed
  }

  /** Capacity and copied bytes once there is room for a need: a reallocation copies the whole buffer. */
  function Grown(capacity: nat, copied: nat, needed: nat): (nat, nat) {
    if needed <= capacity then (capacity, copied) else (NextCapacity(capacity, needed), copied + capacity)
  }

  /** Capacity and copied bytes after some needs, one after the other. */
  function Regrown(capacity: nat, copied: nat, needs: seq<nat>): (nat, nat) {
    if needs == [] then (capacity, copied)
    else
      var (c, k) := Regrown(capacity, copied, needs[..|needs| - 1]);
      Grown(c, k, needs[|needs| - 1])
  }

  /**
   * As long as three times the capacity does not wrap, all copies together stay below three capacities, however the
   * stream is written.
   */
  lemma {:induction false} CopiesBounded(capacity: nat, copied: nat, needs: seq<nat>)
    requires copied <= 3 * capacity && 2 <= capacity
    requires |needs| == 0 || 3 * Regrown(capacity, copied, needs[..|needs| - 1]).0 < WORD
    ensures Regrown(capacity, copied, needs).1 <= 3 * Regrown(capacity, copied, needs).0
    ensures capacity <= Regrown(capacity, copied, needs).0
  {
    if needs != [] {
      var n := |needs| - 1;
      if n != 0 {
        RegrownGrows(capacity, copied, needs[..n]);
      }
      CopiesBounded(capacity, copied, needs[..n]);
    }
  }

  /** What a stream keeps of its capacity, in terms of the furthest end written, and of its copies. */
  predicate Bounded(capacity: nat, copied: nat, furthest: nat, wrapped: bool) {
    && 2 * capacity <= 3 * furthest
    && (wrapped ==> WORD <= 3 * capacity) && (!wrapped ==> copied <= 3 * capacity)
  }

  lemma BoundsKept(capacity: nat, copied: nat, needed: nat, furthest: nat, wrapped: bool)
    requires 2 <= capacity < needed && Bounded(capacity, copied, furthest, wrapped)
    ensures needed <= NextCapacity(capacity, needed)
    ensures Bounded(NextCapacity(capacity, needed), copied + capacity, Max(furthest, needed),
                    wrapped || WORD <= 3 * capacity)
  {
  }

  lemma RegrownGrows(capacity: nat, copied: nat, needs: seq<nat>)
    requires needs != []
    ensures Regrown(capacity, copied, needs[..|needs| - 1]).0 <= Regrown(capacity, copied, needs).0
  {
  }

  /** From then on four writes that each need one byte more than there is break the bound, from any capacity. */
  lemma CopiesUnbounded(capacity: nat, copied: nat)
    requires WORD <= 3 * capacity
    ensures var (c, k) := Regrown(capacity, copied, [capacity + 1, capacity + 2, capacity + 3, capacity + 4]);
      c == capacity + 4 && k == copied + 4 * capacity + 6 && 3 * c < k
  {
    var needs := [capacity + 1, capacity + 2, capacity + 3, capacity + 4];
    assert needs[..3] == [capacity + 1, capacity + 2, capacity + 3];
    assert needs[..3][..2] == [capacity + 1, capacity + 2] && needs[..3][..2][..1] == [capacity + 1];
    assert needs[..3][..2][..1][..0] == [];
    assert Regrown(capacity, copied, needs[..3][..2][..1]) == (capacity + 1, copied + capacity);
    assert Regrown(capacity, copied, needs[..3][..2]) == (capacity + 2, copied + 2 * capacity + 1);
    assert Regrown(capacity, copied, needs[..3]) == (capacity + 3, copied + 3 * capacity + 3);
  }

  // ----- the stream

  class Stream {
    var buf: array<byte>
    var len: nat
    var pos: nat
    var eof: nat
    var capacity: nat
    var c: byte
    /** Bytes that reallocations may have copied, and one more than the furthest byte written. */
    ghost var copied: nat
    ghost var furthest: nat
    /** A reallocation has started from a capacity whose triple wraps. */
    ghost var wrapped: bool

    ghost predicate Valid()
      reads this, buf
    {
      && capacity == buf.Length
      && eof < capacity < WORD && pos < HALF_WORD && eof < HALF_WORD
      && len == (if pos < eof then pos else eof)
      && buf[eof] == NUL && buf[len] == NUL
      && eof < furthest && INITIAL_ALLOC <= capacity && Bounded(capacity, copied, furthest, wrapped)
    }

    /** The file the stream stands for: the kept byte is put back at the position. */
    ghost function AsFile(): File
      requires Valid()
      reads this, buf
    {
      File(if pos < eof then buf[..eof][pos := c] else buf[..eof], pos)
    }

    constructor ()
      ensures Valid() && fresh(buf)
      ensures AsFile() == File([], 0) && len == 0 && copied == 0 && furthest == INITIAL_ALLOC
    {
      var block := new byte[INITIAL_ALLOC];
      block[0] := NUL;
      buf, len := block, 0;
      pos, eof, c, capacity := 0, 0, NUL, INITIAL_ALLOC;
      copied, furthest, wrapped := 0, INITIAL_ALLOC, false;
    }

    /** realloc: a block of the new size that starts like the old one. */
    static method Reallocate(was: array<byte>, size: nat) returns (block: array<byte>)
      ensures fresh(block) && block.Length == size
      ensures forall i :: 0 <= i < size && i < was.Length ==> block[i] == was[i]
    {
      block := new byte[size];
      forall i | 0 <= i < size && i < was.Length {
        block[i] := was[i];
      }
    }

    /** The geometric growth of mem_write, with the wrap-around of size_t. */
    static method NewSize(capacity: nat, needed: nat) returns (size: nat)
      requires capacity < needed <= HALF_WORD
      ensures size == NextCapacity(capacity, needed)
      ensures needed <= size && 2 * size <= 3 * needed && size < WORD
    {
      TripleWraps(capacity);
      size := (capacity * 3 % WORD) / 2;
      if size < needed {
        size := needed;
      }
    }

    static lemma TripleWraps(capacity: nat)
      requires capacity < HALF_WORD
      ensures capacity * 3 % WORD == if 3 * capacity < WORD then 3 * capacity else 3 * capacity - WORD
    {
    }

    /** Make room for the bytes and their NUL. */
    method Grow(needed: nat)
      requires Valid() && capacity < needed <= HALF_WORD
      modifies this`buf, this`capacity, this`copied, this`furthest, this`wrapped
      ensures Valid() && AsFile() == old(AsFile()) && needed <= capacity && fresh(buf)
      ensures furthest == Max(old(furthest), needed)
      ensures (capacity, copied) == Grown(old(capacity), old(copied), needed)
    {
      var size := NewSize(capacity, needed);
      var block := Reallocate(buf, size);
      BoundsKept(capacity, copied, needed, furthest, wrapped);
      copied, wrapped, furthest := copied + capacity, wrapped || WORD <= 3 * capacity, Max(furthest, needed);
      buf, capacity := block, size;
      assert buf[..eof] == old(buf[..eof]) && buf[eof] == NUL && buf[len] == NUL;
    }

    /** Clear the gap between the end of file and the position, then copy the data in. */
    method CopyIn(data: seq<byte>)
      requires pos + |data| < buf.Length
      modifies buf
      ensures forall i :: 0 <= i < buf.Length ==> buf[i] == Copied(old(buf[..]), eof, pos, data, i)
    {
      if eof < pos {
        forall i | eof <= i < pos {
          buf[i] := NUL;
        }
      }
      forall i | 0 <= i < |data| {
        buf[pos + i] := data[i];
      }
      ghost var now := buf[..];
      forall i | 0 <= i < buf.Length ensures buf[i] == Copied(old(buf[..]), eof, pos, data, i) {
        if pos <= i < pos + |data| {
          assert buf[pos + (i - pos)] == data[i - pos];
        }
      }
    }

    /** The copying of a write: up to the new end the buffer shows the file as written. */
    method CopyWritten(data: seq<byte>)
      requires Valid() && pos + |data| < capacity
      modifies buf
      ensures buf[..Max(eof, pos + |data|)] == CodeWrite(old(AsFile()), data).content
      ensures eof < pos + |data| || buf[eof] == NUL
    {
      ghost var f := AsFile();
      CopyIn(data);
      StoredIsWritten(f, data, old(buf[..]), buf[..]);
      assert buf[..][..Max(eof, pos + |data|)] == buf[..Max(eof, pos + |data|)];
    }

    /** The part of mem_write after the buffer has room. */
    method Store(data: seq<byte>)
      requires Valid() && pos + |data| < capacity && pos + |data| < HALF_WORD
      modifies this`pos, this`eof, this`len, this`c, this`furthest, buf
      ensures Valid() && AsFile() == CodeWrite(old(AsFile()), data) && len == pos == old(pos) + |data|
      ensures eof == Max(old(eof), pos)
      ensures furthest == if old(furthest) <= pos then pos + 1 else old(furthest)
    {
      CopyWritten(data);
      ghost var stored := buf[..];
      Advance(|data|);
      assert AsFile().content == stored[..eof];
    }

    /** Move behind the bytes just copied, remember the byte there, and terminate. */
    method Advance(n: nat)
      requires pos + n < buf.Length
      modifies this`pos, this`eof, this`len, this`c, this`furthest, buf
      ensures pos == len == old(pos) + n && eof == Max(old(eof), pos)
      ensures buf[..] == old(buf[..])[pos := NUL]
      ensures old(eof) >= pos ==> c == old(buf[..])[pos]
      ensures furthest == if old(furthest) <= pos then pos + 1 else old(furthest)
    {
      pos := pos + n;
      if eof < pos {
        eof := pos;
      } else {
        c := buf[pos];
      }
      buf[pos] := NUL;
      len := pos;
      if furthest <= pos {
        furthest := pos + 1;
      }
    }

    /** Room for a NUL at `end`, with memory if that needs any. */
    method MakeRoom(end: nat)
      requires Valid() && end < HALF_WORD
      modifies this`buf, this`capacity, this`copied, this`furthest, this`wrapped
      ensures Valid() && AsFile() == old(AsFile()) && (buf == old(buf) || fresh(buf)) && end < capacity
      ensures furthest == if old(capacity) <= end then Max(old(furthest), end + 1) else old(furthest)
      ensures (capacity, copied) == Grown(old(capacity), old(copied), end + 1)
    {
      if capacity <= end {
        Grow(end + 1);
      }
    }

    /** A write with enough memory: room first, then the bytes. */
    method Put(data: seq<byte>)
      requires Valid() && pos + |data| < HALF_WORD
      modifies this, buf
      ensures Valid() && (buf == old(buf) || fresh(buf))
      ensures AsFile() == CodeWrite(old(AsFile()), data) && len == pos == old(pos) + |data|
      ensures eof == Max(old(eof), pos) && furthest == Max(old(furthest), pos + 1)
      ensures (capacity, copied) == Grown(old(capacity), old(copied), pos + 1)
    {
      MakeRoom(pos + |data|);
      StoreAfter(data);
    }

    /** What a write of `n` bytes will return. */
    method Foresee(n: nat, memory: bool) returns (r: Result)
      requires Valid() && n < INT_LIMIT
      ensures r == if HALF_WORD <= pos + n then Failed(TooBig)
                   else if capacity <= pos + n && !memory then Failed(NoMemory)
                   else Ok(n)
    {
      ToSignedOfSmall(pos + n);
      if ToSigned(pos + n) < 0 {
        return Failed(TooBig);
      }
      if capacity <= pos + n && !memory {
        return Failed(NoMemory);
      }
      r := Ok(n);
    }

    /** mem_write.  `memory` says whether realloc succeeds, should it be needed. */
    method Write(data: seq<byte>, memory: bool) returns (r: Result)
      requires Valid() && |data| < INT_LIMIT
      modifies this, buf
      ensures Valid() && (buf == old(buf) || fresh(buf))
      ensures eof == if r.Ok? then Max(old(eof), pos) else old(eof)
      ensures var end := old(pos) + |data|;
        r == if HALF_WORD <= end then Failed(TooBig)
             else if old(capacity) <= end && !memory then Failed(NoMemory)
             else Ok(|data|)
      ensures AsFile() == if r.Ok? then CodeWrite(old(AsFile()), data) else old(AsFile())
      ensures len == if r.Ok? then old(pos) + |data| else old(len)
      ensures var end := old(pos) + |data|;
        furthest == if r.Ok? then Max(old(furthest), end + 1) else old(furthest)
      ensures var end := old(pos) + |data|;
        (capacity, copied)
          == if r.Ok? then Grown(old(capacity), old(copied), end + 1) else (old(capacity), old(copied))
    {
      r := Foresee(|data|, memory);
      if r.Ok? {
        Put(data);
      }
    }

    /** Store, with the furthest end as a write leaves it whether or not the buffer has just grown for it. */
    method StoreAfter(data: seq<byte>)
      requires Valid() && pos + |data| < capacity && pos + |data| < HALF_WORD
      modifies this`pos, this`eof, this`len, this`c, this`furthest, buf
      ensures Valid() && AsFile() == CodeWrite(old(AsFile()), data) && len == pos == old(pos) + |data|
      ensures eof == Max(old(eof), pos) && furthest == Max(old(furthest), pos + 1)
    {
      Store(data);
    }

    /** Where a seek leads: a negative number if nowhere. */
    method Target(offset: int, whence: Whence) returns (target: int)
      requires Valid() && -HALF_WORD <= offset < HALF_WORD
      ensures target < HALF_WORD && (0 <= target <==> SeekOk(AsFile(), offset, whence))
      ensures 0 <= target ==> PlainSeek(AsFile(), offset, whence) == AsFile().(pos := target)
    {
      target := offset;
      if whence.SeekCur? {
        ToSignedOfSmall(offset + pos);
        target := ToSigned(offset + pos);
      } else if whence.SeekEnd? {
        ToSignedOfSmall(offset + eof);
        target := ToSigned(offset + eof);
      }
    }

    /** mem_seek, with the wrap-around of adding a size_t to an off_t.  A failed seek changes nothing. */
    method Seek(offset: int, whence: Whence) returns (r: int)
      requires Valid() && -HALF_WORD <= offset < HALF_WORD
      modifies this`pos, this`len, this`c, buf
      ensures Valid() && eof == old(eof) && furthest == old(furthest)
      ensures AsFile() == PlainSeek(old(AsFile()), offset, whence)
      ensures if SeekOk(old(AsFile()), offset, whence) then r == pos && len == Min(pos, |AsFile().content|)
              else r == -1 && pos == old(pos) && len == old(len) && buf[..] == old(buf[..])
    {
      var target := Target(offset, whence);
      if target < 0 {
        return -1;
      }
      MoveTo(target);
      r := target;
    }

    /** Put the kept byte back and keep the byte at the new position instead. */
    method MoveTo(target: nat)
      requires Valid() && target < HALF_WORD
      modifies this`pos, this`len, this`c, buf
      ensures Valid() && AsFile() == old(AsFile()).(pos := target) && len == Min(target, eof)
    {
      ghost var content := AsFile().content;
      PutBack();
      assert buf[..eof] == content;
      pos := target;
      if pos < eof {
        c := buf[pos];
        buf[pos] := NUL;
        len := pos;
        assert buf[..eof][pos := c] == content;
      } else {
        len := eof;
      }
    }

    /** Restore the byte under the terminator. */
    method PutBack()
      requires Valid()
      modifies this`c, buf
      ensures buf[..eof] == old(AsFile().content) && buf[eof] == NUL
    {
      if pos < eof {
        buf[pos] := c;
        c := NUL;
      }
    }

    /** mem_close: the user's buffer ends up no longer than its content up to `len`, still terminated. */
    method Close(memory: bool) returns (block: array<byte>)
      requires Valid()
      modifies this`buf
      ensures block == buf && block.Length == (if memory then len + 1 else old(buf).Length)
      ensures len < block.Length && block[len] == NUL
      ensures len <= |old(AsFile()).content| && block[..len] == old(AsFile()).content[..len]
    {
      if memory {
        buf := Reallocate(buf, len + 1);
      }
      block := buf;
    }
  }

  function Min(a: nat, b: nat): nat { if a < b then a else b }

  /** open_memstream: fails without the user's variables, without memory, or when the stream cannot be registered. */
  method Open(haveBuf: bool, haveLen: bool, cookieMemory: bool, bufferMemory: bool, registered: bool)
    returns (s: Stream?)
    ensures s != null <==> haveBuf && haveLen && cookieMemory && bufferMemory && registered
    ensures s != null ==> fresh(s) && fresh(s.buf) && s.Valid() && s.AsFile() == File([], 0) && s.len == 0
    ensures s != null ==> s.copied == 0 && s.furthest == INITIAL_ALLOC
  {
    s := null;
    if !haveBuf || !haveLen { return; }
    if !cookieMemory { return; }
    if !bufferMemory { return; }
    if registered {
      s := new Stream();
    }
  }

  // ----- whole sessions

  datatype Op =
    | WriteOp(data: seq<byte>, memory: bool)
    | SeekOp(offset: int, whence: Whence)

  predicate ValidOp(op: Op) {
    match op
    case WriteOp(data, _) => 0 < |data| < INT_LIMIT
    case SeekOp(offset, _) => -HALF_WORD <= offset < HALF_WORD
  }

  /** One operation on a plain file; a write that reports an error leaves it alone. */
  function PlainApply(f: File, op: Op, ok: bool): File {
    match op
    case WriteOp(data, _) => if ok then PlainWrite(f, data) else f
    case SeekOp(offset, whence) => PlainSeek(f, offset, whence)
  }

  function PlainSession(f: File, ops: seq<Op>, oks: seq<bool>): File
    requires |ops| == |oks|
  {
    if ops == [] then f
    else PlainApply(PlainSession(f, ops[..|ops| - 1], oks[..|ops| - 1]), ops[|ops| - 1], oks[|ops| - 1])
  }

  /** An operation reports success exactly when it should; a write may also fail for lack of memory. */
  predicate ReportsTruly(f: File, op: Op, ok: bool) {
    match op
    case WriteOp(data, memory) =>
      (ok ==> f.pos + |data| < HALF_WORD) && (memory && f.pos + |data| < HALF_WORD ==> ok)
    case SeekOp(offset, whence) => ok <==> SeekOk(f, offset, whence)
  }

  method PerformOne(s: Stream, op: Op) returns (ok: bool)
    requires s.Valid() && ValidOp(op)
    modifies s, s.buf
    ensures s.Valid() && (s.buf == old(s.buf) || fresh(s.buf))
    ensures s.AsFile() == PlainApply(old(s.AsFile()), op, ok) && ReportsTruly(old(s.AsFile()), op, ok)
    ensures s.furthest <= Max(old(s.furthest), s.eof + 1) && old(s.eof) <= s.eof
  {
    match op {
      case WriteOp(data, memory) =>
        var r := s.Write(data, memory);
        ok := r.Ok?;
      case SeekOp(offset, whence) =>
        var r := s.Seek(offset, whence);
        ok := r != -1;
    }
  }

  /** The stream is where a session takes a plain file. */
  ghost predicate Mirrors(s: Stream, ops: seq<Op>, oks: seq<bool>)
    reads s, s.buf
  {
    && s.Valid() && |oks| == |ops|
    && s.AsFile() == PlainSession(File([], 0), ops, oks) && AllReportsTrue(ops, oks)
    && s.furthest <= Max(INITIAL_ALLOC, s.eof + 1)
  }

  method PerformNext(s: Stream, ghost ops: seq<Op>, oks: seq<bool>, op: Op) returns (oks': seq<bool>)
    requires Mirrors(s, ops, oks) && ValidOp(op)
    modifies s, s.buf
    ensures Mirrors(s, ops + [op], oks') && (s.buf == old(s.buf) || fresh(s.buf))
  {
    var ok := PerformOne(s, op);
    SessionSnoc(ops, oks, op, ok);
    oks' := oks + [ok];
  }

  method PerformAll(s: Stream, ops: seq<Op>) returns (oks: seq<bool>)
    requires s.Valid() && s.AsFile() == File([], 0) && s.furthest == INITIAL_ALLOC
    requires forall op :: op in ops ==> ValidOp(op)
    modifies s, s.buf
    ensures Mirrors(s, ops, oks)
  {
    oks := [];
    ghost var b := s.buf;
    for i := 0 to |ops|
      invariant Mirrors(s, ops[..i], oks) && (s.buf == b || fresh(s.buf))
    {
      assert ops[i] in ops;
      assert ops[..i + 1] == ops[..i] + [ops[i]];
      oks := PerformNext(s, ops[..i], oks, ops[i]);
    }
    assert ops[..|ops|] == ops;
  }

  /**
   * Every sequence of non-empty writes and seeks on a new stream is the same sequence on a plain file.  Afterwards
   * the terminator is in place, the capacity is at most one and a half times the furthest end ever written, and all
   * reallocations together copied at most three times the capacity, unless one started from a third of all memory.
   */
  method Perform(s: Stream, ops: seq<Op>) returns (oks: seq<bool>)
    requires s.Valid() && s.AsFile() == File([], 0) && s.furthest == INITIAL_ALLOC
    requires forall op :: op in ops ==> ValidOp(op)
    modifies s, s.buf
    ensures s.Valid() && |oks| == |ops|
    ensures s.AsFile() == PlainSession(File([], 0), ops, oks)
    ensures AllReportsTrue(ops, oks)
    ensures var f := s.AsFile();
      && s.len == Min(f.pos, |f.content|) && s.buf[s.len] == NUL
      && 2 * s.capacity <= 3 * s.furthest && s.furthest <= Max(INITIAL_ALLOC, |f.content| + 1)
      && (s.wrapped ==> WORD <= 3 * s.capacity) && (!s.wrapped ==> s.copied <= 3 * s.capacity)
  {
    oks := PerformAll(s, ops);
  }

  /** Each outcome of a session is right for the file at that moment. */
  ghost predicate AllReportsTrue(ops: seq<Op>, oks: seq<bool>)
    requires |ops| == |oks|
  {
    forall i :: 0 <= i < |ops| ==> ReportsTruly(PlainSession(File([], 0), ops[..i], oks[..i]), ops[i], oks[i])
  }

  lemma SessionSnoc(ops: seq<Op>, oks: seq<bool>, op: Op, ok: bool)
    requires |ops| == |oks| && AllReportsTrue(ops, oks)
    requires ReportsTruly(PlainSession(File([], 0), ops, oks), op, ok)
    ensures PlainSession(File([], 0), ops + [op], oks + [ok])
         == PlainApply(PlainSession(File([], 0), ops, oks), op, ok)
    ensures AllReportsTrue(ops + [op], oks + [ok])
  {
    assert (ops + [op])[..|ops|] == ops && (oks + [ok])[..|oks|] == oks;
    var ops', oks' := ops + [op], oks + [ok];
    forall i | 0 <= i <= |ops|
      ensures ReportsTruly(PlainSession(File([], 0), ops'[..i], oks'[..i]), ops'[i], oks'[i])
    {
      if i < |ops| {
        assert ops'[..i] == ops[..i] && oks'[..i] == oks[..i];
      }
    }
  }

  // ----- seeks on the object

  /** Seek to the end and write: the bytes are appended, or nothing has changed but the position. */
  method Append(s: Stream, data: seq<byte>, memory: bool) returns (r: Result)
    requires s.Valid() && 0 < |data| < INT_LIMIT
    modifies s, s.buf
    ensures s.Valid() && (s.buf == old(s.buf) || fresh(s.buf))
    ensures var was := old(s.AsFile()).content;
      && s.AsFile().content == (if r.Ok? then was + data else was)
      && s.AsFile().pos == (if r.Ok? then |was| + |data| else |was|)
      && (memory && |was| + |data| < HALF_WORD ==> r == Ok(|data|))
  {
    AppendsAtEnd(s.AsFile(), data);
    var k := s.Seek(0, SeekEnd);
    r := s.Write(data, memory);
  }

  /** The position, asked for with a seek. */
  method Tell(s: Stream) returns (k: int)
    requires s.Valid()
    modifies s, s.buf
    ensures s.Valid() && s.buf == old(s.buf) && s.AsFile() == old(s.AsFile()) && k == s.AsFile().pos
  {
    SeeksAddUp(s.AsFile(), 0, 0);
    k := s.Seek(0, SeekCur);
  }

  /** Two relative seeks that succeed lead where one by their sum leads. */
  method SeekTwice(s: Stream, m: int, n: int) returns (k: int)
    requires s.Valid() && -HALF_WORD <= m < HALF_WORD && -HALF_WORD <= n < HALF_WORD
    modifies s, s.buf
    ensures s.Valid() && s.AsFile().content == old(s.AsFile().content)
    ensures var p := old(s.AsFile().pos);
      0 <= p + m < HALF_WORD && 0 <= p + m + n < HALF_WORD ==> k == s.AsFile().pos == p + m + n
  {
    SeekLeads(s.AsFile(), m, SeekCur);
    SeekLeads(PlainSeek(s.AsFile(), m, SeekCur), n, SeekCur);
    k := s.Seek(m, SeekCur);
    k := s.Seek(n, SeekCur);
  }

  // ----- a session that copies too much

  /** Write one byte at a position. */
  method WriteAt(s: Stream, at: nat)
    requires s.Valid() && at + 1 < HALF_WORD
    modifies s, s.buf
    ensures s.Valid() && (s.buf == old(s.buf) || fresh(s.buf))
    ensures (s.capacity, s.copied) == Grown(old(s.capacity), old(s.copied), at + 2)
  {
    var k := s.Seek(at, SeekSet);
    assert s.pos == at;
    var r := s.Write([65], true);
  }

  /**
   * A new stream whose copies exceed three capacities: a byte at a third of all memory, from where on three times the
   * capacity wraps, and then four times a byte at the end of the buffer.
   */
  method CopyTooMuch() returns (s: Stream)
    ensures fresh(s) && s.Valid() && s.wrapped && 3 * s.capacity < s.copied
  {
    s := new Stream();
    WriteAt(s, WORD / 3);
    var third := s.capacity;
    for n := 0 to 4
      invariant s.Valid() && fresh(s) && fresh(s.buf)
      invariant s.capacity == third + n && INITIAL_ALLOC + n * third <= s.copied
    {
      WriteAt(s, s.capacity - 1);
    }
  }
}
