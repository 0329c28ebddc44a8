/** The two ends of ttcp as objects whose message callbacks loop over a byte buffer. */
module TtcpEnds {
  import opened Sequences
  import opened Endian
  import B = ByteBuffers
  import T = Ttcp

  /** The transmitting side's context and the state of its connection. */
  class Transmitter {
    const number: int
    const length: nat
    const output: seq<Byte>
    var count: int
    var bytes: int
    var down: bool

    ghost function Abs(): T.Sender
      reads this
    {
      T.Sender(number, length, count, bytes, down)
    }

    constructor (number: int, length: nat, output: seq<Byte>)
      ensures this.number == number && this.length == length && this.output == output
      ensures Abs() == T.Sender(number, length, 1, length, false)
    {
      this.number, this.length, this.output := number, length, output;
      count, bytes, down := 1, length, false;
    }

    /** One turn of the loop; `more` says whether the loop goes on. */
    method Turn(host: Host, buf: B.ByteBuffer) returns (more: bool, out: seq<Byte>)
      requires buf.Valid() && buf.ReadableBytes() >= T.INT
      modifies this, buf
      ensures buf.Valid() && buf.buffer == old(buf.buffer) && buf.ReadableBytes() < old(buf.ReadableBytes())
      ensures T.OnAcks(old(Abs()), output, old(buf.Contents())) ==
        if more then var t := T.OnAcks(Abs(), output, buf.Contents()); t.(out := out + t.out)
        else T.SenderReply(Abs(), buf.Contents(), out)
    {
      more, out := true, [];
      var n := buf.ReadInt(host, T.INT);
      if n == length {
        if count < number {
          out := if down then [] else output;
          count := count + 1;
          bytes := bytes + n;
        } else {
          down := true;
          more := false;
        }
      } else {
        down := true;
        more := false;
      }
    }

    method OnMessage(host: Host, buf: B.ByteBuffer) returns (out: seq<Byte>)
      requires buf.Valid()
      modifies this, buf
      ensures buf.Valid() && buf.buffer == old(buf.buffer)
      ensures T.SenderReply(Abs(), buf.Contents(), out) == T.OnAcks(old(Abs()), output, old(buf.Contents()))
    {
      out := [];
      ghost var all := T.OnAcks(Abs(), output, buf.Contents());
      var more := true;
      while more && buf.ReadableBytes() >= T.INT
        invariant buf.Valid() && buf.buffer == old(buf.buffer)
        invariant all ==
          if more then var t := T.OnAcks(Abs(), output, buf.Contents()); t.(out := out + t.out)
          else T.SenderReply(Abs(), buf.Contents(), out)
        decreases buf.ReadableBytes()
      {
        hide T.OnAcks;
        var sent;
        more, sent := Turn(host, buf);
        Regroup(out, sent, T.OnAcks(Abs(), output, buf.Contents()).out);
        out := out + sent;
      }
      assert out + [] == out;
    }
  }

  /** The payload message, built in place behind its length. */
  method BuildOutput(host: Host, length: nat) returns (output: B.ByteBuffer)
    ensures fresh(output) && fresh(output.buffer) && output.Valid() && output.Contents() == T.Payload(length)
  {
    output := new B.ByteBuffer(B.INITIAL_SIZE);
    output.WriteInt(host, T.INT, length);
    output.EnsureWritableBytes(length);
    FillPattern(output, length);
    output.SkipWriteBytes(length);
  }

  method FillPattern(output: B.ByteBuffer, length: nat)
    requires output.Valid() && length <= output.WritableBytes()
    modifies output.buffer
    ensures output.Contents() == old(output.Contents())
    ensures output.buffer[output.writerIndex..output.writerIndex + length] ==
            seq(length, i requires 0 <= i => T.PATTERN[i % 16])
  {
    var i := 0;
    while i < length
      invariant 0 <= i <= length
      invariant forall k :: 0 <= k < output.writerIndex ==> output.buffer[k] == old(output.buffer[k])
      invariant forall k :: 0 <= k < i ==> output.buffer[output.writerIndex + k] == T.PATTERN[k % 16]
    {
      output.buffer[output.writerIndex + i] := T.PATTERN[i % 16];
      i := i + 1;
    }
  }

  /** The receiving side's context and the state of its connection. */
  class ReceivingEnd {
    var number: int
    var length: int
    var count: int
    var bytes: int
    var down: bool
    var output: seq<Byte>

    ghost function Abs(): T.Receiver
      reads this
    {
      T.Receiver(number, length, count, bytes, down, output)
    }

    constructor ()
      ensures Abs() == T.Receiver(0, 0, 0, 0, false, [])
    {
      number, length, count, bytes, down, output := 0, 0, 0, 0, false, [];
    }

    /** One turn of the loop; `more` says whether the loop goes on. */
    method Turn(host: Host, buf: B.ByteBuffer) returns (more: bool, out: seq<Byte>)
      requires buf.Valid() && buf.ReadableBytes() >= T.INT
      modifies this, buf
      ensures buf.Valid() && buf.buffer == old(buf.buffer)
      ensures buf.ReadableBytes() <= old(buf.ReadableBytes())
      ensures more && buf.ReadableBytes() == old(buf.ReadableBytes()) ==> T.Left(Abs()) < old(T.Left(Abs()))
      ensures T.OnData(old(Abs()), old(buf.Contents())) ==
        if more then var t := T.OnData(Abs(), buf.Contents()); t.(out := out + t.out)
        else T.ReceiverReply(Abs(), buf.Contents(), out)
    {
      more, out := true, [];
      if number == 0 && length == 0 {
        if buf.ReadableBytes() >= 2 * T.INT {
          ReadSession(host, buf);
        } else {
          more := false;
        }
      } else {
        more, out := TakePayload(host, buf);
      }
    }

    /** Counts a payload, answers it, and shuts down after the last one. */
    method Acknowledge() returns (more: bool, out: seq<Byte>)
      modifies this
      ensures Abs() == T.Acknowledged(old(Abs())) && out == T.IfUp(old(down), old(output))
      ensures more <==> old(count) + 1 < old(number)
      ensures more ==> T.Left(Abs()) < old(T.Left(Abs()))
    {
      more, out := true, if down then [] else output;
      count := count + 1;
      bytes := bytes + length;
      if count >= number {
        down := true;
        more := false;
      }
    }

    /** Within a session. */
    method TakePayload(host: Host, buf: B.ByteBuffer) returns (more: bool, out: seq<Byte>)
      requires buf.Valid() && buf.ReadableBytes() >= T.INT && !(number == 0 && length == 0)
      modifies this, buf
      ensures buf.Valid() && buf.buffer == old(buf.buffer)
      ensures buf.ReadableBytes() <= old(buf.ReadableBytes())
      ensures more && buf.ReadableBytes() == old(buf.ReadableBytes()) ==> T.Left(Abs()) < old(T.Left(Abs()))
      ensures T.OnData(old(Abs()), old(buf.Contents())) ==
        if more then var t := T.OnData(Abs(), buf.Contents()); t.(out := out + t.out)
        else T.ReceiverReply(Abs(), buf.Contents(), out)
    {
      T.OnDataInSession(Abs(), buf.Contents());
      hide Unsigned, Signed, FromBE, T.OnData, T.Acknowledged, T.IfUp, T.Left;
      more, out := true, [];
      var totalLen := Unsigned(T.INT, length + T.INT);
      var n := buf.PeekInt(host, T.INT);
      if n == length {
        if buf.ReadableBytes() >= totalLen {
          buf.SkipReadBytes(totalLen);
          more, out := Acknowledge();
        } else {
          more := false;
        }
      } else {
        down := true;
        more := false;
      }
    }

    method OnMessage(host: Host, buf: B.ByteBuffer) returns (out: seq<Byte>)
      requires buf.Valid()
      modifies this, buf
      ensures buf.Valid() && buf.buffer == old(buf.buffer)
      ensures T.ReceiverReply(Abs(), buf.Contents(), out) == T.OnData(old(Abs()), old(buf.Contents()))
    {
      out := [];
      ghost var all := T.OnData(Abs(), buf.Contents());
      var more := true;
      while more && buf.ReadableBytes() >= T.INT
        invariant buf.Valid() && buf.buffer == old(buf.buffer)
        invariant all ==
          if more then var t := T.OnData(Abs(), buf.Contents()); t.(out := out + t.out)
          else T.ReceiverReply(Abs(), buf.Contents(), out)
        decreases more, buf.ReadableBytes(), T.Left(Abs())
      {
        hide T.OnData, T.Left;
        var sent;
        more, sent := Turn(host, buf);
        Regroup(out, sent, T.OnData(Abs(), buf.Contents()).out);
        out := out + sent;
      }
      assert out + [] == out;
    }

    method ReadSession(host: Host, buf: B.ByteBuffer)
      requires buf.Valid() && buf.ReadableBytes() >= 2 * T.INT
      modifies this, buf
      ensures buf.Valid() && buf.buffer == old(buf.buffer) && buf.Contents() == old(buf.Contents())[2 * T.INT..]
      ensures var b := old(buf.Contents());
        Abs() == old(Abs()).(number := T.Front(b), length := T.Front(b[T.INT..]),
                             output := old(output) + T.Int32(length))
    {
      number := buf.ReadInt(host, T.INT);
      length := buf.ReadInt(host, T.INT);
      WireForm(host, T.INT, length);
      output := output + Encode(host, T.INT, length);
    }
  }
}
