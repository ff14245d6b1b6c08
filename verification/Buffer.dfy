/** The growable byte buffer of buffer/buffer.h and buffer/buffer.cc. */
module ByteBuffer {
  import opened Text

  const CHEAP_PREPEND: nat := 8
  const EXTRA_BUFFER: nat := 65536

  function Max(a: nat, b: nat): nat { if a < b then b else a }

  /** The memory bound: the capacity a buffer may have reached. */
  function CapacityBound(initial: nat, peak: nat): nat {
    Max(CHEAP_PREPEND + initial, 2 * peak + CHEAP_PREPEND)
  }

  /** A plain byte queue, seen through `Contents()`, kept in one array:
      prependable bytes, then the content, then writable bytes. */
  class Buffer {
    var data: array<char>
    var readerIndex: nat
    var writerIndex: nat
    ghost const initial: nat
    ghost var peak: nat  // the most content the buffer has held so far

    ghost predicate Valid()
      reads this, data
    {
      && CHEAP_PREPEND <= readerIndex <= writerIndex <= data.Length
      && writerIndex - readerIndex <= peak
      && data.Length <= CapacityBound(initial, peak)
    }

    ghost function Contents(): (s: string)
      requires Valid()
      reads this, data
      ensures |s| == writerIndex - readerIndex
    {
      data[readerIndex..writerIndex]
    }

    constructor (initialSize: nat)
      ensures Valid() && fresh(data)
      ensures Contents() == "" && initial == initialSize && peak == 0
    {
      data := new char[CHEAP_PREPEND + initialSize];
      readerIndex, writerIndex := CHEAP_PREPEND, CHEAP_PREPEND;
      initial, peak := initialSize, 0;
    }

    function ReadableBytes(): (n: nat)
      requires Valid()
      reads this, data
      ensures n == |Contents()|
    {
      writerIndex - readerIndex
    }

    function WritableBytes(): nat
      requires Valid()
      reads this, data
    {
      data.Length - writerIndex
    }

    /** The first `n` readable bytes, copied out (`std::string(peek(), n)`). */
    method Peek(n: nat) returns (s: string)
      requires Valid() && n <= |Contents()|
      ensures s == Contents()[..n]
    {
      s := data[readerIndex..readerIndex + n];
    }

    /** `findCrlf` over the readable region, by the scan the source does. */
    method FindCrlf() returns (p: Option<nat>)
      requires Valid()
      ensures p == FirstCrlf(Contents())
    {
      var i := readerIndex;
      while i + 1 < writerIndex
        invariant readerIndex <= i <= writerIndex
        invariant forall q :: 0 <= q < i - readerIndex ==> !CrlfAt(Contents(), q)
      {
        if data[i] == '\r' && data[i + 1] == '\n' {
          assert CrlfAt(Contents(), i - readerIndex);
          return Some(i - readerIndex);
        }
        i := i + 1;
      }
      return None;
    }

    method Retrieve(len: nat)
      requires Valid() && len <= |Contents()|
      modifies this`readerIndex, this`writerIndex
      ensures Valid()
      ensures Contents() == old(Contents())[len..]
    {
      if len < ReadableBytes() {
        readerIndex := readerIndex + len;
      } else {
        RetrieveAll();
      }
    }

    method RetrieveAll()
      requires Valid()
      modifies this`readerIndex, this`writerIndex
      ensures Valid()
      ensures Contents() == ""
    {
      readerIndex, writerIndex := CHEAP_PREPEND, CHEAP_PREPEND;
    }

    method RetrieveAsString(len: nat) returns (s: string)
      requires Valid() && len <= |Contents()|
      modifies this`readerIndex, this`writerIndex
      ensures Valid()
      ensures s == old(Contents())[..len]
      ensures Contents() == old(Contents())[len..]
    {
      s := Peek(len);
      Retrieve(len);
    }

    /** Grows, or moves the content down when that makes enough room.  Growth is
        in anticipation of `len` more bytes, so the peak counts them. */
    method MakeSpace(len: nat)
      requires Valid() && WritableBytes() < len
      modifies this, data
      ensures Valid() && Contents() == old(Contents())
      ensures WritableBytes() >= len
      ensures data == old(data) || fresh(data)
      ensures peak == Max(old(peak), |Contents()| + len)
    {
      peak := Max(peak, ReadableBytes() + len);
      if WritableBytes() + readerIndex < len + CHEAP_PREPEND {
        Grow(writerIndex + len);
      } else {
        var readable := ReadableBytes();
        MoveDown(readerIndex, readable);
        readerIndex := CHEAP_PREPEND;
        writerIndex := readerIndex + readable;
      }
    }

    /** Copies everything to a larger array. */
    method Grow(size: nat)
      requires data.Length <= size && readerIndex <= writerIndex <= data.Length
      modifies this`data
      ensures fresh(data) && data.Length == size
      ensures data[readerIndex..writerIndex] == old(data[readerIndex..writerIndex])
    {
      var bigger := new char[size];
      forall i | 0 <= i < data.Length {
        bigger[i] := data[i];
      }
      data := bigger;
    }

    /** memmove of `n` bytes from `from` down to the end of the prepend area. */
    method MoveDown(from: nat, n: nat)
      requires CHEAP_PREPEND <= from && from + n <= data.Length
      modifies data
      ensures data[CHEAP_PREPEND..CHEAP_PREPEND + n] == old(data[from..from + n])
    {
      var moved := data[from..from + n];
      forall k | 0 <= k < n {
        data[CHEAP_PREPEND + k] := moved[k];
      }
    }

    method EnsureWritable(len: nat)
      requires Valid()
      modifies this, data
      ensures Valid() && Contents() == old(Contents())
      ensures WritableBytes() >= len
      ensures data == old(data) || fresh(data)
      ensures peak == old(peak) || peak == Max(old(peak), |Contents()| + len)
    {
      if WritableBytes() < len {
        MakeSpace(len);
      }
    }

    method Append(s: string)
      requires Valid()
      modifies this, data
      ensures Valid() && Contents() == old(Contents()) + s
      ensures data == old(data) || fresh(data)
      ensures peak == Max(old(peak), |Contents()|)
    {
      EnsureWritable(|s|);
      Store(s);
    }

    /** memcpy into the writable region and advance the writer. */
    method Store(s: string)
      requires Valid() && |s| <= WritableBytes()
      modifies this`writerIndex, this`peak, data
      ensures Valid() && Contents() == old(Contents()) + s
      ensures peak == Max(old(peak), |Contents()|)
    {
      forall i | 0 <= i < |s| {
        data[writerIndex + i] := s[i];
      }
      writerIndex := writerIndex + |s|;
      peak := Max(peak, writerIndex - readerIndex);
    }

    /** What one scatter read may take: the writable region plus, when that is
        the smaller, a 64 KiB side buffer. */
    function ReadRoom(): nat
      requires Valid()
      reads this, data
    {
      if WritableBytes() < EXTRA_BUFFER then WritableBytes() + EXTRA_BUFFER else WritableBytes()
    }

    /** `readFd`: `got` is what readv delivered (None on an error).  The bytes fill
        the writable region and the rest, from the side buffer, is appended. */
    method ReadFd(got: Option<string>) returns (n: int)
      requires Valid()
      requires got.Some? ==> |got.value| <= ReadRoom()
      modifies this, data
      ensures Valid()
      ensures n == (if got.Some? then |got.value| else -1)
      ensures Contents() == old(Contents()) + (if got.Some? then got.value else "")
      ensures data == old(data) || fresh(data)
      ensures peak == Max(old(peak), |Contents()|)
    {
      match got
      case None =>
        n := -1;
        assert Contents() + "" == Contents();
      case Some(bytes) =>
        n := |bytes|;
        var writable := WritableBytes();
        if n <= writable {
          Store(bytes);
        } else {
          Store(bytes[..writable]);
          Append(bytes[writable..]);
          assert bytes[..writable] + bytes[writable..] == bytes;
        }
    }
  }

  // ---- Every run ---------------------------------------------------------------

  datatype Op = Append(bytes: string) | Retrieve(len: nat) | ReadFd(bytes: string)

  /** The plain byte queue that the buffer implements; a caller may not retrieve
      more than there is, so a longer request takes everything. */
  function Apply(content: string, op: Op): string {
    match op
    case Append(s) => content + s
    case ReadFd(s) => content + s
    case Retrieve(n) => if n <= |content| then content[n..] else ""
  }

  function After(content: string, ops: seq<Op>): string {
    if ops == [] then content else Apply(After(content, ops[..|ops| - 1]), ops[|ops| - 1])
  }

  /** The most content the queue holds at any point of the run. */
  function PeakOf(ops: seq<Op>): nat {
    if ops == [] then 0 else Max(PeakOf(ops[..|ops| - 1]), |After("", ops)|)
  }

  /** Reads until the `arrived` bytes are taken, as much per call as there is room. */
  method Drain(b: Buffer, arrived: string)
    requires b.Valid()
    modifies b, b.data
    ensures b.Valid() && b.Contents() == old(b.Contents()) + arrived
    ensures b.data == old(b.data) || fresh(b.data)
    ensures b.peak == Max(old(b.peak), |b.Contents()|)
  {
    var taken := 0;
    assert b.Contents() + arrived[..0] == b.Contents();
    while taken < |arrived|
      invariant 0 <= taken <= |arrived|
      invariant b.Valid() && b.Contents() == old(b.Contents()) + arrived[..taken]
      invariant b.data == old(b.data) || fresh(b.data)
      invariant b.peak == Max(old(b.peak), |b.Contents()|)
    {
      var next := if |arrived| < taken + b.ReadRoom() then |arrived| else taken + b.ReadRoom();
      var n := b.ReadFd(Some(arrived[taken..next]));
      assert arrived[..taken] + arrived[taken..next] == arrived[..next];
      taken := next;
    }
    assert arrived[..|arrived|] == arrived;
  }

  method Perform(b: Buffer, op: Op)
    requires b.Valid()
    modifies b, b.data
    ensures b.Valid() && b.Contents() == Apply(old(b.Contents()), op)
    ensures b.data == old(b.data) || fresh(b.data)
    ensures b.peak == Max(old(b.peak), |b.Contents()|)
  {
    match op
    case Append(s) => b.Append(s);
    case ReadFd(s) => Drain(b, s);
    case Retrieve(n) => b.Retrieve(if n <= b.ReadableBytes() then n else b.ReadableBytes());
  }

  lemma OneMore(ops: seq<Op>, i: nat)
    requires i < |ops|
    ensures After("", ops[..i + 1]) == Apply(After("", ops[..i]), ops[i])
    ensures PeakOf(ops[..i + 1]) == Max(PeakOf(ops[..i]), |After("", ops[..i + 1])|)
  {
    assert ops[..i + 1][..i] == ops[..i];
  }

  /** In every run the array implements the queue, and its capacity is bounded by
      the initial size and twice the peak content, however long the run is. */
  method Replay(initialSize: nat, ops: seq<Op>) returns (b: Buffer)
    ensures b.Valid() && b.Contents() == After("", ops)
    ensures b.data.Length <= CapacityBound(initialSize, PeakOf(ops))
  {
    hide Apply;
    b := new Buffer(initialSize);
    for i := 0 to |ops|
      invariant b.Valid() && fresh(b) && fresh(b.data)
      invariant b.initial == initialSize
      invariant b.Contents() == After("", ops[..i]) && b.peak == PeakOf(ops[..i])
    {
      OneMore(ops, i);
      Perform(b, ops[i]);
    }
    assert ops[..|ops|] == ops;
  }
}
