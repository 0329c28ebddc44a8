/**
 The ttcp throughput program: a transmitter sends `number` payloads of `length` bytes, each
 after the receiver has acknowledged the one before. The two ends exchange byte streams that
 the network may cut anywhere; here they are pure functions of the bytes in their buffers,
 and a state machine of both.
 */
module Ttcp {
  import opened Endian

  const INT: nat := 4
  /** The sixteen hexadecimal digits as characters. */
  const PATTERN: seq<Byte> := [48, 49, 50, 51, 52, 53, 54, 55, 56, 57, 65, 66, 67, 68, 69, 70]

  // ---------------------------------------------------------------- what travels

  function Int32(x: int): (b: seq<Byte>)
    ensures |b| == INT
  {
    BE(INT, x % Range(INT))
  }

  /** The integer in the first four bytes. */
  function Front(b: seq<Byte>): int
    requires |b| >= INT
  {
    Signed(INT, FromBE(b[..INT]))
  }

  function Payload(length: nat): (p: seq<Byte>)
    ensures |p| == INT + length
  {
    Int32(length) + seq(length, i requires 0 <= i => PATTERN[i % 16])
  }

  function Session(number: int, length: int): seq<Byte> { Int32(number) + Int32(length) }

  // ---------------------------------------------------------------- the transmitter

  datatype Sender = Sender(number: int, length: int, count: int, bytes: int, down: bool)

  datatype SenderReply = SenderReply(s: Sender, rest: seq<Byte>, out: seq<Byte>)

  /** A connection that has been shut down sends nothing. */
  function IfUp(down: bool, b: seq<Byte>): seq<Byte> { if down then [] else b }

  /** trans::onMessage; `output` is the payload message in the context. */
  function OnAcks(s: Sender, output: seq<Byte>, b: seq<Byte>): SenderReply
    decreases |b|
  {
    if |b| < INT then SenderReply(s, b, [])
    else if Front(b) != s.length || s.count >= s.number then SenderReply(s.(down := true), b[INT..], [])
    else
      var t := OnAcks(s.(count := s.count + 1, bytes := s.bytes + Front(b)), output, b[INT..]);
      t.(out := IfUp(s.down, output) + t.out)
  }

  // ---------------------------------------------------------------- the receiver

  datatype Receiver = Receiver(number: int, length: int, count: int, bytes: int, down: bool, output: seq<Byte>)

  datatype ReceiverReply = ReceiverReply(r: Receiver, rest: seq<Byte>, out: seq<Byte>)

  function Left(r: Receiver): nat { if r.count < r.number then r.number - r.count else 0 }

  /** The length of a payload message as the unsigned integer the code computes. */
  function TotalLength(r: Receiver): nat { Unsigned(INT, r.length + INT) }

  function Acknowledged(r: Receiver): Receiver {
    r.(count := r.count + 1, bytes := r.bytes + r.length, down := r.down || r.count + 1 >= r.number)
  }

  /** receiving::onMessage. */
  function OnData(r: Receiver, b: seq<Byte>): ReceiverReply
    decreases |b|, Left(r)
  {
    if |b| < INT then ReceiverReply(r, b, [])
    else if r.number == 0 && r.length == 0 then
      if |b| < 2 * INT then ReceiverReply(r, b, [])
      else
        var number, length := Front(b), Front(b[INT..]);
        OnData(r.(number := number, length := length, output := r.output + Int32(length)), b[2 * INT..])
    else if Front(b) != r.length then ReceiverReply(r.(down := true), b, [])
    else if |b| < TotalLength(r) then ReceiverReply(r, b, [])
    else if r.count + 1 >= r.number then
      ReceiverReply(Acknowledged(r), b[TotalLength(r)..], IfUp(r.down, r.output))
    else
      var t := OnData(Acknowledged(r), b[TotalLength(r)..]);
      t.(out := IfUp(r.down, r.output) + t.out)
  }

  /** One turn of the receiver's loop within a session. */
  lemma OnDataInSession(r: Receiver, b: seq<Byte>)
    requires |b| >= INT && !(r.number == 0 && r.length == 0)
    ensures Front(b) != r.length ==> OnData(r, b) == ReceiverReply(r.(down := true), b, [])
    ensures Front(b) == r.length && |b| < TotalLength(r) ==> OnData(r, b) == ReceiverReply(r, b, [])
    ensures Front(b) == r.length && |b| >= TotalLength(r) ==>
      var rest, out := b[TotalLength(r)..], IfUp(r.down, r.output);
      if r.count + 1 >= r.number then OnData(r, b) == ReceiverReply(Acknowledged(r), rest, out)
      else var t := OnData(Acknowledged(r), rest); OnData(r, b) == t.(out := out + t.out)
  {
  }

  // ---------------------------------------------------------------- both ends

  /** `senderBuf` and `receiverBuf` are input buffers; `toS` and `toR` are bytes on their way. */
  datatype State = State(s: Sender, r: Receiver, senderBuf: seq<Byte>, receiverBuf: seq<Byte>,
                         toS: seq<Byte>, toR: seq<Byte>, senderClosed: bool, receiverClosed: bool)

  datatype Step = DeliverToSender(k: nat) | DeliverToReceiver(k: nat) | EndAtSender | EndAtReceiver

  /** Connected: the session message and the first payload are on their way. */
  function Init(number: int, length: nat): State {
    State(Sender(number, length, 1, length, false), Receiver(0, 0, 0, 0, false, []), [], [], [],
          Session(number, length) + Payload(length), false, false)
  }

  /** A side sees the end of the stream when the other has shut down and all bytes have arrived. */
  predicate Enabled(st: State, a: Step) {
    match a
    case DeliverToSender(k) => 0 < k <= |st.toS| && !st.senderClosed
    case DeliverToReceiver(k) => 0 < k <= |st.toR| && !st.receiverClosed
    case EndAtSender => st.r.down && st.toS == [] && !st.senderClosed
    case EndAtReceiver => st.s.down && st.toR == [] && !st.receiverClosed
  }

  function Next(st: State, length: nat, a: Step): State
    requires Enabled(st, a)
  {
    match a
    case DeliverToSender(k) =>
      var t := OnAcks(st.s, Payload(length), st.senderBuf + st.toS[..k]);
      st.(s := t.s, senderBuf := t.rest, toS := st.toS[k..], toR := st.toR + t.out)
    case DeliverToReceiver(k) =>
      var t := OnData(st.r, st.receiverBuf + st.toR[..k]);
      st.(r := t.r, receiverBuf := t.rest, toR := st.toR[k..], toS := st.toS + t.out)
    case EndAtSender => st.(senderClosed := true)
    case EndAtReceiver => st.(receiverClosed := true)
  }

  // ---------------------------------------------------------------- the invariant

  /** Acknowledgements the transmitter has consumed: one per further payload, and the final one. */
  function Consumed(s: Sender): int { s.count - 1 + if s.down then 1 else 0 }

  function Acks(st: State): int { st.r.count - Consumed(st.s) }

  function Repeat(n: int, b: seq<Byte>): seq<Byte> { if n <= 0 then [] else b + Repeat(n - 1, b) }

  ghost predicate CountsOk(st: State, number: int, length: nat) {
    && st.s.number == number && st.s.length == length
    && 1 <= st.s.count <= number && 0 <= st.r.count <= number
    && st.s.bytes == st.s.count * length && st.r.bytes == st.r.count * length
    && (st.r.down <==> st.r.count == number)
    && (st.s.down ==> st.s.count == number && st.r.count == number)
    && 0 <= Acks(st) <= 1
  }

  ghost predicate AckStreamOk(st: State, length: nat) {
    && st.senderBuf + st.toS == Repeat(Acks(st), Int32(length))
    && |st.senderBuf| < INT
  }

  ghost predicate DataStreamOk(st: State, number: int, length: nat) {
    if st.r.number == 0 && st.r.length == 0 then
      && st.r.count == 0 && st.s.count == 1 && st.r.output == []
      && st.receiverBuf + st.toR == Session(number, length) + Payload(length)
      && |st.receiverBuf| < 2 * INT
    else
      && st.r.number == number && st.r.length == length && st.r.output == Int32(length)
      && st.receiverBuf + st.toR == Repeat(st.s.count - st.r.count, Payload(length))
      && |st.receiverBuf| < INT + length
  }

  ghost predicate Inv(st: State, number: int, length: nat) {
    && CountsOk(st, number, length) && AckStreamOk(st, length) && DataStreamOk(st, number, length)
    && (st.senderClosed || st.receiverClosed ==> st.s.count == number && st.r.count == number && st.s.down)
  }

  predicate Parameters(number: int, length: nat) {
    1 <= number < 0x8000_0000 && length + 4 < 0x8000_0000
  }

  // ---------------------------------------------------------------- one end at a time

  lemma FrontIs(x: int, tail: seq<Byte>)
    requires -0x8000_0000 <= x < 0x8000_0000
    ensures Front(Int32(x) + tail) == x && (Int32(x) + tail)[INT..] == tail
  {
    assert Range(2) == 65536 && Range(3) == 16777216 && Range(4) == 0x1_0000_0000;
    BEInverse(INT, x % Range(INT));
    SignedRange(INT, x);
    assert (Int32(x) + tail)[..INT] == Int32(x);
  }

  /** The number four bytes denote, the most significant first. */
  function Word(b: seq<Byte>): nat
    requires |b| == 4
  {
    b[0] as nat * 0x1_000000 + b[1] as nat * 0x1_0000 + b[2] as nat * 0x100 + b[3] as nat
  }

  lemma IntWord(x: nat)
    requires x < 0x1_0000_0000
    ensures Word(Int32(x)) == x
  {
    assert Range(2) == 65536 && Range(3) == 16777216 && Range(4) == 0x1_0000_0000;
    FourBytes(x);
  }

  /** A session is the number of payloads, then their length; a payload its length, then the digits over and over. */
  lemma WireFormat(number: int, length: nat, i: nat)
    requires Parameters(number, length)
    ensures var s, p := Session(number, length), Payload(length);
      && |s| == 8 && Word(s[..4]) == number && Word(s[4..]) == length
      && |p| == 4 + length && Word(p[..4]) == length
      && (i < length ==> p[4 + i] as nat == if i % 16 < 10 then 48 + i % 16 else 55 + i % 16)
  {
    hide Word, BE, Range;
    IntWord(number);
    IntWord(length);
    assert Session(number, length)[..4] == Int32(number) && Session(number, length)[4..] == Int32(length);
    assert Payload(length)[..4] == Int32(length);
  }

  /** The transmitter's call when at most one acknowledgement is outstanding. */
  lemma OneAck(s: Sender, output: seq<Byte>, length: nat)
    requires Parameters(s.number, length) && s.length == length && s.count <= s.number && !s.down
    ensures OnAcks(s, output, Int32(length)) ==
      if s.count < s.number then SenderReply(s.(count := s.count + 1, bytes := s.bytes + length), [], output)
      else SenderReply(s.(down := true), [], [])
  {
    FrontIs(length, []);
    assert Int32(length) + [] == Int32(length);
    if s.count < s.number {
      var s1 := s.(count := s.count + 1, bytes := s.bytes + length);
      assert OnAcks(s1, output, []) == SenderReply(s1, [], []);
      assert output + [] == output;
    }
  }

  /** A payload that has not fully arrived is left in the buffer; a full one is acknowledged. */
  lemma OnePayload(r: Receiver, b: seq<Byte>, length: nat)
    requires Parameters(r.number, length) && r.length == length && r.count < r.number && !r.down
    requires b <= Payload(length)
    ensures OnData(r, b) ==
      if |b| < INT + length then ReceiverReply(r, b, [])
      else ReceiverReply(Acknowledged(r), [], r.output)
  {
    if |b| >= INT {
      PayloadFront(b, length);
      TotalLengthIs(r);
      if |b| == INT + length && r.count + 1 < r.number {
        assert OnData(Acknowledged(r), []) == ReceiverReply(Acknowledged(r), [], []);
        assert r.output + [] == r.output;
      }
    }
  }

  lemma PayloadFront(b: seq<Byte>, length: nat)
    requires INT <= |b| && b <= Payload(length) && length < 0x8000_0000
    ensures Front(b) == length
  {
    FrontIs(length, Payload(length)[INT..]);
    assert Payload(length) == Int32(length) + Payload(length)[INT..];
    assert b[..INT] == Payload(length)[..INT];
  }

  lemma TotalLengthIs(r: Receiver)
    requires 0 <= r.length && r.length + INT < 0x8000_0000
    ensures TotalLength(r) == r.length + INT
  {
    assert Range(2) == 65536 && Range(3) == 16777216 && Range(4) == 0x1_0000_0000;
  }

  /** The session message is taken only when all of it is there. */
  lemma SessionFirst(r: Receiver, b: seq<Byte>, number: int, length: nat)
    requires Parameters(number, length) && r.number == 0 && r.length == 0 && r.output == []
    requires b <= Session(number, length) + Payload(length)
    ensures OnData(r, b) ==
      if |b| < 2 * INT then ReceiverReply(r, b, [])
      else OnData(r.(number := number, length := length, output := Int32(length)), b[2 * INT..])
  {
    if |b| >= 2 * INT {
      var tail := b[2 * INT..];
      assert b == Int32(number) + (Int32(length) + tail);
      FrontIs(number, Int32(length) + tail);
      FrontIs(length, tail);
      assert [] + Int32(length) == Int32(length);
    }
  }

  // ---------------------------------------------------------------- every step

  lemma Cut(buf: seq<Byte>, way: seq<Byte>, k: nat, whole: seq<Byte>)
    requires buf + way == whole && k <= |way|
    ensures (buf + way[..k]) + way[k..] == whole && buf + way[..k] <= whole
  {
    assert way == way[..k] + way[k..];
  }

  lemma RepeatOne(b: seq<Byte>)
    ensures Repeat(1, b) == b
  {
    assert Repeat(1, b) == b + Repeat(0, b);
  }

  lemma SenderStep(st: State, number: int, length: nat, k: nat)
    requires Parameters(number, length) && Inv(st, number, length) && Enabled(st, DeliverToSender(k))
    ensures Inv(Next(st, length, DeliverToSender(k)), number, length)
  {
    var ack, b := Int32(length), st.senderBuf + st.toS[..k];
    hide Payload, Session, Int32;
    RepeatOne(ack);
    RepeatOne(Payload(length));
    assert Acks(st) == 1;
    Cut(st.senderBuf, st.toS, k, ack);
    if |b| == INT {
      assert b == ack && st.toS[k..] == [];
      OneAck(st.s, Payload(length), length);
      assert st.receiverBuf == [] && st.toR == [];
      var r := Next(st, length, DeliverToSender(k));
      assert [] + Payload(length) == Payload(length);
      assert (st.s.count + 1) * length == st.s.count * length + length;
      assert r.senderBuf + r.toS == [];
    } else {
      assert OnAcks(st.s, Payload(length), b) == SenderReply(st.s, b, []);
      assert st.toR + [] == st.toR;
    }
  }

  /** Once the session is known: what a call does with a beginning of the payload on its way. */
  lemma ReceiverInSession(st: State, b: seq<Byte>, way: seq<Byte>, number: int, length: nat)
    requires Parameters(number, length) && CountsOk(st, number, length) && AckStreamOk(st, length)
    requires st.r.number == number && st.r.length == length && st.r.output == Int32(length)
    requires st.s.count == st.r.count + 1 && b + way == Payload(length)
    requires !st.senderClosed && !st.receiverClosed
    ensures var t := OnData(st.r, b);
      Inv(st.(r := t.r, receiverBuf := t.rest, toR := way, toS := st.toS + t.out), number, length)
  {
    hide Payload, Session, Int32;
    var ack := Int32(length);
    RepeatOne(ack);
    RepeatOne(Payload(length));
    assert Acks(st) == 0 && st.senderBuf == [] && st.toS == [];
    assert b <= Payload(length);
    OnePayload(st.r, b, length);
    if |b| < INT + length {
      assert st.toS + [] == st.toS;
    } else {
      assert way == [];
      assert [] + ack == ack && st.toS + ack == ack;
      assert (st.r.count + 1) * length == st.r.count * length + length;
    }
  }

  lemma DropSession(b: seq<Byte>, way: seq<Byte>, number: int, length: nat)
    requires b + way == Session(number, length) + Payload(length) && |b| >= 2 * INT
    ensures b[2 * INT..] + way == Payload(length)
  {
    assert b[2 * INT..] + way == (b + way)[2 * INT..];
    assert (Session(number, length) + Payload(length))[2 * INT..] == Payload(length);
  }

  lemma ReceiverBeforeSession(st: State, number: int, length: nat, k: nat)
    requires Parameters(number, length) && Inv(st, number, length) && Enabled(st, DeliverToReceiver(k))
    requires st.r.number == 0 && st.r.length == 0
    ensures Inv(Next(st, length, DeliverToReceiver(k)), number, length)
  {
    hide Payload, Session, Int32, OnData, Repeat;
    var b, way := st.receiverBuf + st.toR[..k], st.toR[k..];
    Cut(st.receiverBuf, st.toR, k, Session(number, length) + Payload(length));
    SessionFirst(st.r, b, number, length);
    if |b| < 2 * INT {
      assert st.toS + [] == st.toS;
    } else {
      DropSession(b, way, number, length);
      var st1 := st.(r := st.r.(number := number, length := length, output := Int32(length)));
      ReceiverInSession(st1, b[2 * INT..], way, number, length);
    }
  }

  lemma ReceiverStep(st: State, number: int, length: nat, k: nat)
    requires Parameters(number, length) && Inv(st, number, length) && Enabled(st, DeliverToReceiver(k))
    ensures Inv(Next(st, length, DeliverToReceiver(k)), number, length)
  {
    hide Payload, Session, Int32, OnData;
    if st.r.number == 0 && st.r.length == 0 {
      ReceiverBeforeSession(st, number, length, k);
    } else {
      RepeatOne(Payload(length));
      Cut(st.receiverBuf, st.toR, k, Repeat(st.s.count - st.r.count, Payload(length)));
      ReceiverInSession(st, st.receiverBuf + st.toR[..k], st.toR[k..], number, length);
    }
  }

  lemma SessionLength(number: int, length: int)
    ensures |Session(number, length)| == 2 * INT
  {
  }

  /** A side ends only when everything has been counted on both. */
  lemma EndStep(st: State, number: int, length: nat, a: Step)
    requires Parameters(number, length) && Inv(st, number, length)
    requires (a.EndAtSender? || a.EndAtReceiver?) && Enabled(st, a)
    ensures Inv(Next(st, length, a), number, length)
  {
    RepeatOne(Int32(length));
  }

  // ---------------------------------------------------------------- every run

  predicate IsRun(number: int, length: nat, steps: seq<Step>)
    decreases |steps|
  {
    steps == [] ||
    var front := steps[..|steps| - 1];
    IsRun(number, length, front) && Enabled(After(number, length, front), steps[|steps| - 1])
  }

  function After(number: int, length: nat, steps: seq<Step>): State
    decreases |steps|
  {
    if steps == [] then Init(number, length)
    else
      var st := After(number, length, steps[..|steps| - 1]);
      if Enabled(st, steps[|steps| - 1]) then Next(st, length, steps[|steps| - 1]) else st
  }

  lemma {:induction false} RunKeepsInv(number: int, length: nat, steps: seq<Step>)
    requires Parameters(number, length) && IsRun(number, length, steps)
    ensures Inv(After(number, length, steps), number, length)
    decreases |steps|
  {
    if steps == [] {
      SessionLength(number, length);
    } else {
      var front, a := steps[..|steps| - 1], steps[|steps| - 1];
      RunKeepsInv(number, length, front);
      hide Inv, Next;
      var st := After(number, length, front);
      match a {
        case DeliverToSender(k) => SenderStep(st, number, length, k);
        case DeliverToReceiver(k) => ReceiverStep(st, number, length, k);
        case EndAtSender => EndStep(st, number, length, a);
        case EndAtReceiver => EndStep(st, number, length, a);
      }
    }
  }

  /** Acknowledgements on their way to or in the buffer of the transmitter, in bytes. */
  function UnprocessedAckBytes(st: State): nat { |st.senderBuf| + |st.toS| }

  /**
   Until the final acknowledgement is consumed, payloads sent plus acknowledgements not yet
   processed equal payloads received plus one; each side's bytes are its count times the
   length; and a side closes only when both counts are the number.
   */
  predicate InStep(st: State, number: int, length: nat) {
    && (!st.s.down ==> INT * st.s.count + UnprocessedAckBytes(st) == INT * (st.r.count + 1))
    && (st.s.down ==> UnprocessedAckBytes(st) == 0 && st.s.count == number && st.r.count == number)
    && st.s.bytes == st.s.count * length && st.r.bytes == st.r.count * length
    && (st.senderClosed || st.receiverClosed ==> st.s.count == number && st.r.count == number)
    && st.r.count <= st.s.count <= st.r.count + 1
  }

  lemma StopAndWaitAt(st: State, number: int, length: nat)
    requires Parameters(number, length) && Inv(st, number, length)
    ensures InStep(st, number, length)
  {
    RepeatOne(Int32(length));
    assert UnprocessedAckBytes(st) == |st.senderBuf + st.toS|;
    assert |Int32(length)| == INT;
    hide Int32, Payload, Session, DataStreamOk;
  }

  /**
   Stop and wait, in every run and so under any chunking.
   */
  lemma StopAndWait(number: int, length: nat, steps: seq<Step>)
    requires Parameters(number, length) && IsRun(number, length, steps)
    ensures InStep(After(number, length, steps), number, length)
  {
    RunKeepsInv(number, length, steps);
    hide IsRun, After, Inv, InStep;
    StopAndWaitAt(After(number, length, steps), number, length);
  }

  // ---------------------------------------------------------------- every run comes to its end

  predicate Finished(st: State) { st.senderClosed && st.receiverClosed }

  lemma NotStuckAt(st: State, number: int, length: nat)
    requires Parameters(number, length) && Inv(st, number, length) && !Finished(st)
    ensures exists a :: Enabled(st, a)
  {
    RepeatOne(Int32(length));
    RepeatOne(Payload(length));
    SessionLength(number, length);
    assert st.senderBuf + [] == st.senderBuf && st.receiverBuf + [] == st.receiverBuf;
    if st.toS != [] && !st.senderClosed {
      assert Enabled(st, DeliverToSender(1));
    } else if st.toR != [] && !st.receiverClosed {
      assert Enabled(st, DeliverToReceiver(1));
    } else if !st.senderClosed && st.r.down {
      assert Enabled(st, EndAtSender);
    } else {
      assert Enabled(st, EndAtReceiver);
    }
  }

  /** No run gets stuck: until both sides have closed, some step is enabled. */
  lemma NoRunGetsStuck(number: int, length: nat, steps: seq<Step>)
    requires Parameters(number, length) && IsRun(number, length, steps)
    ensures Finished(After(number, length, steps)) || exists a :: Enabled(After(number, length, steps), a)
  {
    RunKeepsInv(number, length, steps);
    if !Finished(After(number, length, steps)) {
      NotStuckAt(After(number, length, steps), number, length);
    }
  }

  /** The bytes still to be delivered to either side, and the closes still to come. */
  function ToDo(st: State, number: int, length: nat): int {
    |st.toR| + (number - st.s.count) * (INT + length) + |st.toS| + INT * (number - st.r.count)
    + (if st.senderClosed then 0 else 1) + (if st.receiverClosed then 0 else 1)
  }

  lemma SenderDoes(st: State, number: int, length: nat, k: nat)
    requires Parameters(number, length) && Inv(st, number, length) && Enabled(st, DeliverToSender(k))
    ensures ToDo(Next(st, length, DeliverToSender(k)), number, length) < ToDo(st, number, length)
  {
    var ack, b := Int32(length), st.senderBuf + st.toS[..k];
    RepeatOne(ack);
    Cut(st.senderBuf, st.toS, k, ack);
    hide Int32, Session;
    if |b| == INT {
      assert b == ack;
      OneAck(st.s, Payload(length), length);
      assert (number - st.s.count) * (INT + length) == (number - (st.s.count + 1)) * (INT + length) + (INT + length);
    } else {
      assert OnAcks(st.s, Payload(length), b) == SenderReply(st.s, b, []);
    }
  }

  lemma PayloadDoes(r: Receiver, b: seq<Byte>, way: seq<Byte>, number: int, length: nat)
    requires Parameters(number, length) && r.number == number && r.length == length && r.output == Int32(length)
    requires r.count < number && !r.down && b + way == Payload(length)
    ensures var t := OnData(r, b);
      t.r.count >= r.count && |t.out| == INT * (t.r.count - r.count)
  {
    assert b <= Payload(length);
    OnePayload(r, b, length);
  }

  lemma ReceiverDoes(st: State, number: int, length: nat, k: nat)
    requires Parameters(number, length) && Inv(st, number, length) && Enabled(st, DeliverToReceiver(k))
    ensures ToDo(Next(st, length, DeliverToReceiver(k)), number, length) < ToDo(st, number, length)
  {
    hide Payload, Session, Int32, OnData;
    var b, way := st.receiverBuf + st.toR[..k], st.toR[k..];
    RepeatOne(Payload(length));
    if st.r.number == 0 && st.r.length == 0 {
      Cut(st.receiverBuf, st.toR, k, Session(number, length) + Payload(length));
      SessionFirst(st.r, b, number, length);
      if |b| >= 2 * INT {
        DropSession(b, way, number, length);
        var r := st.r.(number := number, length := length, output := Int32(length));
        PayloadDoes(r, b[2 * INT..], way, number, length);
      }
    } else {
      Cut(st.receiverBuf, st.toR, k, Payload(length));
      PayloadDoes(st.r, b, way, number, length);
    }
  }

  /**
   Every run is finite: it has at most one step per byte to be delivered and one per close. So,
   as none gets stuck, every run that goes on ends with both sides closed and both counts at
   the number.
   */
  lemma {:induction false} RunsAreFinite(number: int, length: nat, steps: seq<Step>)
    requires Parameters(number, length) && IsRun(number, length, steps)
    ensures |steps| + ToDo(After(number, length, steps), number, length) <= ToDo(Init(number, length), number, length)
    ensures ToDo(After(number, length, steps), number, length) >= 0
    decreases |steps|
  {
    RunKeepsInv(number, length, steps);
    ToDoIsNat(After(number, length, steps), number, length);
    if steps != [] {
      var front, a := steps[..|steps| - 1], steps[|steps| - 1];
      RunKeepsInv(number, length, front);
      RunsAreFinite(number, length, front);
      hide Inv, ToDo, Next;
      var st := After(number, length, front);
      match a {
        case DeliverToSender(k) => SenderDoes(st, number, length, k);
        case DeliverToReceiver(k) => ReceiverDoes(st, number, length, k);
        case EndAtSender => EndDoes(st, number, length, a);
        case EndAtReceiver => EndDoes(st, number, length, a);
      }
    }
  }

  lemma EndDoes(st: State, number: int, length: nat, a: Step)
    requires (a.EndAtSender? || a.EndAtReceiver?) && Enabled(st, a)
    ensures ToDo(Next(st, length, a), number, length) < ToDo(st, number, length)
  {
  }

  lemma ToDoIsNat(st: State, number: int, length: nat)
    requires st.s.count <= number && st.r.count <= number
    ensures ToDo(st, number, length) >= 0
  {
    Product(number - st.s.count, INT + length);
  }

  lemma Product(a: nat, b: nat)
    ensures a * b >= 0
  {
  }
}
