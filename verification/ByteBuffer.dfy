/**
 The byte buffer: an array with a readable region between two indices. Operations move the
 indices, compact the region to the front, or grow the array; what a user sees is a queue of
 bytes, `Contents()`.
 */
module ByteBuffers {
  import opened Sequences
  import opened Endian

  const INITIAL_SIZE: nat := 1024
  const EXTRA: nat := 65536
  const CR: Byte := 13
  const LF: Byte := 10

  /** What readv returns: an error, or the bytes it read in order. */
  datatype Readv = Failed(errno: int) | Got(bytes: seq<Byte>)

  function Max(a: nat, b: nat): nat { if a < b then b else a }

  class ByteBuffer {
    var buffer: array<Byte>
    var readerIndex: nat
    var writerIndex: nat

    predicate Valid()
      reads this
    {
      readerIndex <= writerIndex <= buffer.Length
    }

    ghost function Contents(): seq<Byte>
      requires Valid()
      reads this, buffer
    {
      buffer[readerIndex..writerIndex]
    }

    function ReadableBytes(): (n: nat)
      requires Valid()
      reads this, buffer
      ensures n == |Contents()|
    {
      writerIndex - readerIndex
    }

    function WritableBytes(): nat
      requires Valid()
      reads this
    {
      buffer.Length - writerIndex
    }

    /** A copy of the first bytes. */
    function Peek(len: nat): (s: seq<Byte>)
      requires Valid() && len <= ReadableBytes()
      reads this, buffer
      ensures s == Contents()[..len]
    {
      buffer[readerIndex..readerIndex + len]
    }

    constructor (initialSize: nat)
      ensures Valid() && fresh(buffer) && Contents() == [] && buffer.Length == initialSize
      ensures readerIndex == writerIndex == 0
    {
      buffer := new Byte[initialSize](_ => 0);
      readerIndex, writerIndex := 0, 0;
    }

    // -------------------------------------------------------------- consuming

    method SkipAll()
      requires Valid()
      modifies `readerIndex, `writerIndex
      ensures Valid() && Contents() == []
    {
      readerIndex, writerIndex := 0, 0;
    }

    method SkipReadBytes(len: nat)
      requires Valid() && len <= ReadableBytes()
      modifies `readerIndex, `writerIndex
      ensures Valid() && Contents() == old(Contents())[len..]
    {
      if len < ReadableBytes() {
        readerIndex := readerIndex + len;
      } else {
        SkipAll();
      }
    }

    method SkipAsString(len: nat) returns (s: seq<Byte>)
      requires Valid() && len <= ReadableBytes()
      modifies `readerIndex, `writerIndex
      ensures Valid() && old(Contents()) == s + Contents() && |s| == len
    {
      s := Peek(len);
      SkipReadBytes(len);
    }

    // -------------------------------------------------------------- producing

    /** Moves the readable region to the front, first byte first. */
    method Compact()
      requires Valid()
      modifies this, buffer
      ensures Valid() && buffer == old(buffer) && readerIndex == 0 && Contents() == old(Contents())
    {
      var readable := ReadableBytes();
      var i := 0;
      while i < readable
        invariant 0 <= i <= readable
        invariant readerIndex == old(readerIndex) && writerIndex == old(writerIndex) && buffer == old(buffer)
        invariant forall k :: 0 <= k < i ==> buffer[k] == old(buffer[readerIndex + k])
        invariant forall k :: i <= k < buffer.Length ==> buffer[k] == old(buffer[k])
        modifies buffer
      {
        buffer[i] := buffer[readerIndex + i];
        i := i + 1;
      }
      readerIndex := 0;
      writerIndex := readable;
    }

    /** std::vector::resize to a larger size. */
    method Resize(size: nat)
      requires Valid() && buffer.Length <= size
      modifies `buffer
      ensures Valid() && fresh(buffer) && buffer.Length == size && Contents() == old(Contents())
    {
      var grown := new Byte[size](_ => 0);
      for i := 0 to buffer.Length
        invariant forall k :: 0 <= k < i ==> grown[k] == buffer[k]
        modifies grown
      {
        grown[i] := buffer[i];
      }
      buffer := grown;
    }

    /** Compacts when that makes room, and grows otherwise. */
    method ExpandCapacity(len: nat)
      requires Valid() && WritableBytes() < len
      modifies this, buffer
      ensures Valid() && (buffer == old(buffer) || fresh(buffer)) && Contents() == old(Contents())
      ensures WritableBytes() >= len
      ensures buffer.Length ==
        if old(WritableBytes() + readerIndex) < len then old(writerIndex) + len else old(buffer.Length)
    {
      if WritableBytes() + readerIndex < len {
        Resize(writerIndex + len);
      } else {
        assert 0 < readerIndex;
        Compact();
      }
    }

    method EnsureWritableBytes(len: nat)
      requires Valid()
      modifies this, buffer
      ensures Valid() && (buffer == old(buffer) || fresh(buffer)) && Contents() == old(Contents())
      ensures WritableBytes() >= len
      ensures buffer.Length ==
        if old(WritableBytes() + readerIndex) < len then old(writerIndex) + len else old(buffer.Length)
    {
      if WritableBytes() < len {
        ExpandCapacity(len);
      }
    }

    /** Makes readable what has been put behind the readable region. */
    method SkipWriteBytes(len: nat)
      requires Valid() && len <= WritableBytes()
      modifies `writerIndex
      ensures Valid() && writerIndex == old(writerIndex) + len
      ensures Contents() == old(Contents()) + buffer[old(writerIndex)..old(writerIndex) + len]
    {
      writerIndex := writerIndex + len;
    }

    /** Puts bytes behind the readable region. */
    method CopyIn(data: seq<Byte>)
      requires Valid() && |data| <= WritableBytes()
      modifies buffer
      ensures Contents() == old(Contents()) && buffer[writerIndex..writerIndex + |data|] == data
    {
      for i := 0 to |data|
        invariant forall k :: 0 <= k < i ==> buffer[writerIndex + k] == data[k]
        invariant forall k :: 0 <= k < writerIndex ==> buffer[k] == old(buffer[k])
      {
        buffer[writerIndex + i] := data[i];
      }
    }

    method Write(data: seq<Byte>)
      requires Valid()
      modifies this, buffer
      ensures Valid() && (buffer == old(buffer) || fresh(buffer)) && Contents() == old(Contents()) + data
      ensures buffer.Length ==
        if old(WritableBytes() + readerIndex) < |data| then old(writerIndex) + |data| else old(buffer.Length)
    {
      EnsureWritableBytes(|data|);
      CopyIn(data);
      SkipWriteBytes(|data|);
    }

    method Swap(rhs: ByteBuffer)
      requires Valid() && rhs.Valid()
      modifies this, rhs
      ensures Valid() && rhs.Valid() && buffer == old(rhs.buffer) && rhs.buffer == old(buffer)
      ensures Contents() == old(rhs.Contents()) && rhs.Contents() == old(Contents())
    {
      buffer, rhs.buffer := rhs.buffer, buffer;
      readerIndex, rhs.readerIndex := rhs.readerIndex, readerIndex;
      writerIndex, rhs.writerIndex := rhs.writerIndex, writerIndex;
    }

    method Shrink()
      requires Valid()
      modifies this
      ensures Valid() && fresh(buffer) && Contents() == old(Contents())
      ensures buffer.Length == Max(1024, |Contents()|)
    {
      var view := Peek(ReadableBytes());
      var other := new ByteBuffer(INITIAL_SIZE);
      other.EnsureWritableBytes(|view|);
      other.Write(view);
      Swap(other);
    }

    /** How much one readv may deliver: the writable region, and the spill buffer when that is small. */
    function ReadvLimit(): nat
      requires Valid()
      reads this
    {
      WritableBytes() + if WritableBytes() < EXTRA then EXTRA else 0
    }

    /**
     Appends exactly the bytes read, in order; on an error nothing changes. At most 131071 bytes
     arrive when the spill buffer is in use, and the array grows only if it had to spill.
     */
    method ReadFD(got: Readv) returns (n: int, savedErrno: Option<int>)
      requires Valid() && (got.Got? ==> |got.bytes| <= ReadvLimit())
      modifies this, buffer
      ensures Valid() && (buffer == old(buffer) || fresh(buffer))
      ensures got.Failed? ==> n == -1 && savedErrno == Some(got.errno) && Contents() == old(Contents())
      ensures got.Got? ==> n == |got.bytes| && savedErrno == None && Contents() == old(Contents()) + got.bytes
      ensures old(WritableBytes()) < 65536 ==> n <= 131071
      ensures n <= old(WritableBytes()) ==> buffer.Length == old(buffer.Length)
    {
      savedErrno := None;
      if got.Failed? {
        return -1, Some(got.errno);
      }
      var writable := WritableBytes();
      n := |got.bytes|;
      var direct := if n <= writable then got.bytes else got.bytes[..writable];
      CopyIn(direct);
      if n <= writable {
        SkipWriteBytes(n);
      } else {
        SkipWriteBytes(writable);
        assert Contents() == old(Contents()) + got.bytes[..writable];
        Write(got.bytes[writable..]);
        assert got.bytes[..writable] + got.bytes[writable..] == got.bytes;
      }
    }

    // -------------------------------------------------------------- integers

    method WriteInt(host: Host, width: nat, x: int)
      requires Valid()
      modifies this, buffer
      ensures Valid() && (buffer == old(buffer) || fresh(buffer))
      ensures Contents() == old(Contents()) + BE(width, x % Range(width))
    {
      WireForm(host, width, x);
      Write(Encode(host, width, x));
    }

    method PeekInt(host: Host, width: nat) returns (x: int)
      requires Valid() && width <= ReadableBytes()
      ensures x == Signed(width, FromBE(Contents()[..width]))
    {
      var b := Peek(width);
      LoadedBigEndian(host, b);
      x := Decode(host, b);
    }

    method ReadInt(host: Host, width: nat) returns (x: int)
      requires Valid() && width <= ReadableBytes()
      modifies `readerIndex, `writerIndex
      ensures Valid() && Contents() == old(Contents())[width..]
      ensures x == Signed(width, FromBE(old(Contents())[..width]))
    {
      x := PeekInt(host, width);
      SkipReadBytes(width);
    }

    // -------------------------------------------------------------- searching

    /** The first line end at or after `start`, counted from the start of the readable region. */
    method FindEOL(start: nat) returns (r: Option<nat>)
      requires Valid() && start <= ReadableBytes()
      ensures r.Some? ==>
        start <= r.value < |Contents()| && Contents()[r.value] == 10 && 10 !in Contents()[start..r.value]
      ensures r == None ==> 10 !in Contents()[start..]
    {
      var i := start;
      while i < ReadableBytes()
        invariant start <= i <= ReadableBytes()
        invariant LF !in Contents()[start..i]
      {
        if buffer[readerIndex + i] == LF {
          return Some(i);
        }
        assert Contents()[start..i + 1] == Contents()[start..i] + [Contents()[i]];
        i := i + 1;
      }
      return None;
    }

    ghost predicate CRLFAt(i: nat)
      requires Valid()
      reads this, buffer
    {
      i + 1 < |Contents()| && Contents()[i] == 13 && Contents()[i + 1] == 10
    }

    /** The first carriage return and line feed at or after `start`. */
    method FindCRLF(start: nat) returns (r: Option<nat>)
      requires Valid() && start <= ReadableBytes()
      ensures r.Some? ==> start <= r.value && CRLFAt(r.value) && forall k :: start <= k < r.value ==> !CRLFAt(k)
      ensures r == None ==> forall k :: start <= k ==> !CRLFAt(k)
    {
      var i := start;
      while i + 1 < ReadableBytes()
        invariant start <= i
        invariant forall k :: start <= k < i ==> !CRLFAt(k)
      {
        if buffer[readerIndex + i] == CR && buffer[readerIndex + i + 1] == LF {
          return Some(i);
        }
        i := i + 1;
      }
      return None;
    }

    // -------------------------------------------------------------- every run

    /** Does one operation; one that the buffer's assertions forbid does nothing. */
    method Do(op: Op)
      requires Valid()
      modifies this, buffer
      ensures Valid() && (buffer == old(buffer) || fresh(buffer)) && Contents() == Apply(old(Contents()), op)
    {
      match op
      case Append(data) => Write(data);
      case Consume(len) =>
        if len <= ReadableBytes() {
          SkipReadBytes(len);
        }
      case ConsumeAll => SkipAll();
      case Reserve(len) => EnsureWritableBytes(len);
      case ShrinkToFit => Shrink();
      case AppendInt(host, width, x) => WriteInt(host, width, x);
      case Receive(available) => Drain(available);
    }

    /** Reads until the descriptor has nothing left, as much as the limit allows each time. */
    method Drain(available: seq<Byte>)
      requires Valid()
      modifies this, buffer
      ensures Valid() && (buffer == old(buffer) || fresh(buffer)) && Contents() == old(Contents()) + available
    {
      var i := 0;
      while i < |available|
        invariant 0 <= i <= |available|
        invariant Valid() && (buffer == old(buffer) || fresh(buffer))
        invariant Contents() == old(Contents()) + available[..i]
      {
        var n := if |available| - i <= ReadvLimit() then |available| - i else ReadvLimit();
        var part := available[i..i + n];
        Regroup(old(Contents()), available[..i], part);
        assert available[..i] + part == available[..i + n];
        var _, _ := ReadFD(Got(part));
        i := i + n;
      }
      assert available[..i] == available;
    }

    /** Every run: through compaction, growth and shrinking, the contents are those of a plain queue. */
    method Run(ops: seq<Op>)
      requires Valid()
      modifies this, buffer
      ensures Valid() && (buffer == old(buffer) || fresh(buffer)) && Contents() == ApplyAll(old(Contents()), ops)
    {
      for i := 0 to |ops|
        invariant Valid() && (buffer == old(buffer) || fresh(buffer))
        invariant Contents() == ApplyAll(old(Contents()), ops[..i])
      {
        assert ops[..i + 1][..i] == ops[..i];
        Do(ops[i]);
      }
      assert ops[..|ops|] == ops;
    }
  }

  datatype Op =
    | Append(data: seq<Byte>)
    | Consume(len: nat)
    | ConsumeAll
    | Reserve(len: nat)
    | ShrinkToFit
    | AppendInt(host: Host, width: nat, x: int)
    | Receive(available: seq<Byte>)

  /** What an operation does to the queue of bytes. */
  function Apply(q: seq<Byte>, op: Op): seq<Byte> {
    match op
    case Append(data) => q + data
    case Consume(len) => if len <= |q| then q[len..] else q
    case ConsumeAll => []
    case Reserve(_) => q
    case ShrinkToFit => q
    case AppendInt(_, width, x) => q + BE(width, x % Range(width))
    case Receive(available) => q + available
  }

  function ApplyAll(q: seq<Byte>, ops: seq<Op>): seq<Byte>
    decreases |ops|
  {
    if ops == [] then q else Apply(ApplyAll(q, ops[..|ops| - 1]), ops[|ops| - 1])
  }

  /** First in, first out: what is consumed and what is left is what was appended. */
  function Appended(op: Op): seq<Byte> {
    match op
    case Append(data) => data
    case AppendInt(_, width, x) => BE(width, x % Range(width))
    case Receive(available) => available
    case _ => []
  }

  function Consumed(q: seq<Byte>, op: Op): seq<Byte> {
    match op
    case Consume(len) => if len <= |q| then q[..len] else []
    case ConsumeAll => q
    case _ => []
  }

  function AllAppended(ops: seq<Op>): seq<Byte>
    decreases |ops|
  {
    if ops == [] then [] else AllAppended(ops[..|ops| - 1]) + Appended(ops[|ops| - 1])
  }

  function AllConsumed(q: seq<Byte>, ops: seq<Op>): seq<Byte>
    decreases |ops|
  {
    if ops == [] then []
    else var front := ops[..|ops| - 1];
      AllConsumed(q, front) + Consumed(ApplyAll(q, front), ops[|ops| - 1])
  }

  lemma StepKeepsOrder(q: seq<Byte>, op: Op)
    ensures Consumed(q, op) + Apply(q, op) == q + Appended(op)
  {
  }

  lemma {:induction false} FirstInFirstOut(q: seq<Byte>, ops: seq<Op>)
    ensures AllConsumed(q, ops) + ApplyAll(q, ops) == q + AllAppended(ops)
    decreases |ops|
  {
    hide Apply, Consumed, Appended;
    if ops != [] {
      var front, op := ops[..|ops| - 1], ops[|ops| - 1];
      FirstInFirstOut(q, front);
      var q1 := ApplyAll(q, front);
      StepKeepsOrder(q1, op);
      Regroup(AllConsumed(q, front), Consumed(q1, op), Apply(q1, op));
      Regroup(AllConsumed(q, front), q1, Appended(op));
      Regroup(q, AllAppended(front), Appended(op));
    }
  }
}
