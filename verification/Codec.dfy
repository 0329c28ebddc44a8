/**
 The length-header codec: a message travels as its length in four big-endian bytes followed by
 its bytes. `Decode` says what the receiving loop does to the bytes in its buffer.
 */
module Codec {
  import opened Sequences
  import opened Endian
  import B = ByteBuffers

  const HEADER: nat := 4
  const LIMIT: nat := 65536

  /** What one call delivers, what it leaves in the buffer, and whether it met an over-long header. */
  datatype Decoded = Decoded(messages: seq<seq<Byte>>, rest: seq<Byte>, invalid: bool)

  function Header(b: seq<Byte>): nat
    requires |b| >= HEADER
  {
    FromBE(b[..HEADER])
  }

  function Decode(b: seq<Byte>): Decoded
    decreases |b|
  {
    if |b| < HEADER then Decoded([], b, false)
    else if Header(b) > LIMIT then Decoded([], b, true)
    else if |b| < Header(b) + HEADER then Decoded([], b, false)
    else
      var end := HEADER + Header(b);
      var d := Decode(b[end..]);
      d.(messages := [b[HEADER..end]] + d.messages)
  }

  function Frame(m: seq<Byte>): seq<Byte> { BE(HEADER, |m| % Range(HEADER)) + m }

  function Frames(ms: seq<seq<Byte>>): seq<Byte> {
    if ms == [] then [] else Frame(ms[0]) + Frames(ms[1..])
  }

  predicate AllShort(ms: seq<seq<Byte>>) { forall i :: 0 <= i < |ms| ==> |ms[i]| <= 65536 }

  // ---------------------------------------------------------------- chunking

  /** The receiver's calls over a sequence of chunks, starting with `buffer` left over. */
  function Receive(buffer: seq<Byte>, chunks: seq<seq<Byte>>): Decoded
    decreases |chunks|
  {
    if chunks == [] then Decoded([], buffer, false)
    else
      var d := Decode(buffer + chunks[0]);
      var r := Receive(d.rest, chunks[1..]);
      Decoded(d.messages + r.messages, r.rest, d.invalid || r.invalid)
  }

  lemma HeaderKept(a: seq<Byte>, b: seq<Byte>)
    requires |a| >= HEADER
    ensures Header(a + b) == Header(a)
  {
    assert (a + b)[..HEADER] == a[..HEADER];
  }

  /** Decoding more bytes continues from what was left. */
  lemma {:induction false} DecodeContinues(a: seq<Byte>, b: seq<Byte>)
    ensures var d, e := Decode(a), Decode(Decode(a).rest + b);
      Decode(a + b) == Decoded(d.messages + e.messages, e.rest, e.invalid)
    decreases |a|
  {
    hide Header;
    if |a| >= HEADER && Header(a) <= LIMIT && |a| >= Header(a) + HEADER {
      var end := HEADER + Header(a);
      HeaderKept(a, b);
      DecodeContinues(a[end..], b);
      assert (a + b)[end..] == a[end..] + b && (a + b)[HEADER..end] == a[HEADER..end];
      var d, e := Decode(a[end..]), Decode(Decode(a[end..]).rest + b);
      Regroup([a[HEADER..end]], d.messages, e.messages);
    } else {
      assert Decode(a).messages + Decode(a + b).messages == Decode(a + b).messages;
    }
  }

  lemma {:induction false} InvalidStays(a: seq<Byte>, b: seq<Byte>)
    requires Decode(a).invalid
    ensures Decode(Decode(a).rest + b) == Decoded([], Decode(a).rest + b, true)
    decreases |a|
  {
    if Header(a) > LIMIT {
      HeaderKept(a, b);
    } else {
      InvalidStays(a[HEADER + Header(a)..], b);
    }
  }

  /** What is delivered does not depend on how the bytes were cut into chunks. */
  lemma {:induction false} ChunkingIrrelevant(buffer: seq<Byte>, chunks: seq<seq<Byte>>)
    requires Decode(buffer) == Decoded([], buffer, false)
    ensures Receive(buffer, chunks) == Decode(buffer + Join(chunks))
    decreases |chunks|
  {
    if chunks == [] {
      assert buffer + Join(chunks) == buffer;
    } else {
      var b := buffer + chunks[0];
      var d := Decode(b);
      assert buffer + Join(chunks) == b + Join(chunks[1..]);
      DecodeContinues(b, Join(chunks[1..]));
      DecodeStops(b);
      if d.invalid {
        InvalidStays(b, Join(chunks[1..]));
        Blocked(d.rest, chunks[1..]);
      } else {
        ChunkingIrrelevant(d.rest, chunks[1..]);
      }
    }
  }

  /** Decoding what is left again delivers nothing. */
  lemma {:induction false} DecodeStops(b: seq<Byte>)
    ensures var d := Decode(b); Decode(d.rest) == Decoded([], d.rest, d.invalid)
    decreases |b|
  {
    if |b| >= HEADER && Header(b) <= LIMIT && |b| >= Header(b) + HEADER {
      DecodeStops(b[HEADER + Header(b)..]);
    }
  }

  /** Once an over-long header is at the front, nothing is ever delivered again. */
  lemma {:induction false} Blocked(buffer: seq<Byte>, chunks: seq<seq<Byte>>)
    requires |buffer| >= HEADER && Header(buffer) > LIMIT
    ensures Receive(buffer, chunks) == Decoded([], buffer + Join(chunks), chunks != [])
    decreases |chunks|
  {
    if chunks != [] {
      HeaderKept(buffer, chunks[0]);
      Blocked(buffer + chunks[0], chunks[1..]);
      assert buffer + Join(chunks) == buffer + chunks[0] + Join(chunks[1..]);
    } else {
      assert buffer + Join(chunks) == buffer;
    }
  }

  // ---------------------------------------------------------------- framing

  lemma HeaderRange()
    ensures Range(HEADER) == 0x1_0000_0000
  {
    assert Range(2) == 65536;
    assert Range(3) == 16777216;
  }

  lemma FrameHeader(m: seq<Byte>, b: seq<Byte>)
    requires |m| < Range(HEADER)
    ensures |Frame(m)| == HEADER + |m| && Header(Frame(m) + b) == |m|
  {
    BEInverse(HEADER, |m|);
    assert (Frame(m) + b)[..HEADER] == BE(HEADER, |m|);
  }

  /** A frame is four bytes of length, most significant first, and then the message. */
  lemma FrameBytes(m: seq<Byte>)
    requires |m| < 0x1_0000_0000
    ensures var f := Frame(m);
      && |f| == 4 + |m| && f[4..] == m
      && f[0] as nat * 0x1_000000 + f[1] as nat * 0x1_0000 + f[2] as nat * 0x100 + f[3] as nat == |m|
  {
    HeaderRange();
    FourBytes(|m|);
  }

  /** Complete frames in front are delivered; then the rest is decoded. */
  lemma {:induction false} DecodeFrames(ms: seq<seq<Byte>>, tail: seq<Byte>)
    requires AllShort(ms)
    ensures var d := Decode(tail);
      Decode(Frames(ms) + tail) == Decoded(ms + d.messages, d.rest, d.invalid)
    decreases |ms|
  {
    if ms == [] {
      assert Frames(ms) + tail == tail && ms + Decode(tail).messages == Decode(tail).messages;
    } else {
      var m, after := ms[0], Frames(ms[1..]) + tail;
      HeaderRange();
      FrameHeader(m, after);
      var b := Frame(m) + after;
      assert Frames(ms) + tail == b;
      assert b[HEADER..HEADER + |m|] == m && b[HEADER + |m|..] == after;
      hide Header;
      DecodeFrames(ms[1..], tail);
      assert ms == [m] + ms[1..];
      Regroup([m], ms[1..], Decode(tail).messages);
    }
  }

  lemma {:induction false} DeliveredShort(b: seq<Byte>)
    ensures AllShort(Decode(b).messages)
    decreases |b|
  {
    if |b| >= HEADER && Header(b) <= LIMIT && |b| >= Header(b) + HEADER {
      DeliveredShort(b[HEADER + Header(b)..]);
    }
  }

  /**
   Encoding a list of messages and delivering the bytes in any chunking gives exactly that list,
   with nothing left over, if and only if no message is over-long.
   */
  lemma RoundTrip(ms: seq<seq<Byte>>, chunks: seq<seq<Byte>>)
    requires Join(chunks) == Frames(ms)
    ensures Receive([], chunks) == Decoded(ms, [], false) <==> AllShort(ms)
  {
    assert [] + Join(chunks) == Frames(ms) + [];
    ChunkingIrrelevant([], chunks);
    DeliveredShort(Frames(ms) + []);
    if AllShort(ms) {
      DecodeFrames(ms, []);
      assert ms + [] == ms;
    }
  }

  lemma {:induction false} FramesSplit(ms: seq<seq<Byte>>, k: nat)
    requires k <= |ms|
    ensures Frames(ms) == Frames(ms[..k]) + Frames(ms[k..])
  {
    hide Frame;
    if k > 0 {
      FramesSplit(ms[1..], k - 1);
      assert ms[..k][1..] == ms[1..][..k - 1] && ms[k..] == ms[1..][k - 1..] && ms[..k][0] == ms[0];
      Regroup(Frame(ms[0]), Frames(ms[1..][..k - 1]), Frames(ms[k..]));
    } else {
      assert ms[k..] == ms;
    }
  }

  /** An unfinished frame is left alone. */
  lemma Unfinished(m: seq<Byte>, t: seq<Byte>)
    requires |m| <= LIMIT && t <= Frame(m) && |t| < |Frame(m)|
    ensures Decode(t) == Decoded([], t, false)
  {
    HeaderRange();
    FrameHeader(m, []);
    assert Frame(m) + [] == Frame(m);
    if |t| >= HEADER {
      assert t[..HEADER] == Frame(m)[..HEADER];
    }
  }

  /**
   After any chunks that make up a beginning of the encoded messages, precisely the complete
   frames so far have been delivered: `k` of them fit and the next does not.
   */
  lemma CompleteFramesSoFar(ms: seq<seq<Byte>>, chunks: seq<seq<Byte>>, k: nat)
    requires AllShort(ms) && Join(chunks) <= Frames(ms) && k <= |ms|
    requires |Frames(ms[..k])| <= |Join(chunks)|
    requires k < |ms| ==> |Join(chunks)| < |Frames(ms[..k])| + |Frame(ms[k])|
    ensures Receive([], chunks) == Decoded(ms[..k], Join(chunks)[|Frames(ms[..k])|..], false)
  {
    var p, done := Join(chunks), Frames(ms[..k]);
    var t := p[|done|..];
    FramesSplit(ms, k);
    PrefixParts(p, done, Frames(ms[k..]));
    assert [] + p == p;
    hide Decode, Receive;
    if k < |ms| {
      assert ms[k..][0] == ms[k];
      PrefixOfFirst(t, Frame(ms[k]), Frames(ms[k..][1..]));
      Unfinished(ms[k], t);
    } else {
      assert ms[k..] == [];
      assert t == [];
      NothingToDecode();
    }
    NothingToDecode();
    ChunkingIrrelevant([], chunks);
    DecodeFrames(ms[..k], t);
    assert ms[..k] + [] == ms[..k];
  }

  lemma NothingToDecode()
    ensures Decode([]) == Decoded([], [], false)
  {
  }

  lemma PrefixParts(p: seq<Byte>, done: seq<Byte>, more: seq<Byte>)
    requires p <= done + more && |done| <= |p|
    ensures p == done + p[|done|..] && p[|done|..] <= more
  {
    assert done == (done + more)[..|done|];
    assert p[|done|..] == (done + more)[|done|..|p|];
  }

  lemma PrefixOfFirst(t: seq<Byte>, first: seq<Byte>, more: seq<Byte>)
    requires t <= first + more && |t| < |first|
    ensures t <= first
  {
  }

  /** The first over-long message ends all delivery, for ever. */
  lemma OverlongBlocks(ms: seq<seq<Byte>>, j: nat, more: seq<seq<Byte>>)
    requires j < |ms| && AllShort(ms[..j]) && 65536 < |ms[j]| < 0x1_0000_0000
    ensures Decode(Frames(ms)) == Decoded(ms[..j], Frames(ms[j..]), true)
    ensures Receive(Frames(ms[j..]), more).messages == []
  {
    HeaderRange();
    FramesSplit(ms, j);
    var tail := Frames(ms[j..]);
    assert tail == Frame(ms[j]) + Frames(ms[j..][1..]);
    FrameHeader(ms[j], Frames(ms[j..][1..]));
    DecodeFrames(ms[..j], tail);
    assert ms[..j] + [] == ms[..j];
    Blocked(tail, more);
  }

  // ---------------------------------------------------------------- the code of the source

  /** The receiving loop. The callback's messages are collected; `invalid` says Shutdown was called. */
  method OnMessage(host: Host, buf: B.ByteBuffer) returns (messages: seq<seq<Byte>>, invalid: bool)
    requires buf.Valid()
    modifies buf
    ensures buf.Valid() && buf.buffer == old(buf.buffer)
    ensures Decoded(messages, buf.Contents(), invalid) == Decode(old(buf.Contents()))
  {
    hide Header;
    messages, invalid := [], false;
    ghost var start := buf.Contents();
    while buf.ReadableBytes() >= HEADER
      invariant buf.Valid() && buf.buffer == old(buf.buffer) && !invalid
      invariant var d := Decode(buf.Contents());
        Decode(start) == Decoded(messages + d.messages, d.rest, d.invalid)
      decreases buf.ReadableBytes()
    {
      ghost var b := buf.Contents();
      var len := PeekHeader(host, buf);
      if len > LIMIT {
        invalid := true;
        break;
      } else if buf.ReadableBytes() >= len + HEADER {
        var message := TakeMessage(buf, len);
        Regroup(messages, [message], Decode(buf.Contents()).messages);
        messages := messages + [message];
      } else {
        break;
      }
    }
    assert messages + [] == messages;
  }

  method TakeMessage(buf: B.ByteBuffer, len: nat) returns (message: seq<Byte>)
    requires buf.Valid() && len + HEADER <= buf.ReadableBytes()
    modifies buf
    ensures buf.Valid() && buf.buffer == old(buf.buffer) && buf.Contents() == old(buf.Contents())[HEADER + len..]
    ensures message == old(buf.Contents())[HEADER..HEADER + len]
  {
    buf.SkipReadBytes(HEADER);
    message := buf.Peek(len);
    buf.SkipReadBytes(len);
  }

  method PeekHeader(host: Host, buf: B.ByteBuffer) returns (len: nat)
    requires buf.Valid() && buf.ReadableBytes() >= HEADER
    ensures len == Header(buf.Contents())
  {
    var b := buf.Peek(HEADER);
    LoadedBigEndian(host, b);
    len := Ntoh(host, HEADER, Load(host, b));
  }

  /** The buffer handed to the connection. */
  method Send(host: Host, message: seq<Byte>) returns (buf: B.ByteBuffer)
    ensures fresh(buf) && buf.Valid() && buf.Contents() == Frame(message)
  {
    buf := new B.ByteBuffer(B.INITIAL_SIZE);
    StoredBigEndian(host, HEADER, Unsigned(HEADER, |message|));
    buf.Write(Store(host, HEADER, Hton(host, HEADER, Unsigned(HEADER, |message|))));
    buf.Write(message);
  }
}
