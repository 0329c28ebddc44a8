/**
 One TCP connection driven from its own loop thread, on values: its four states, its interest
 in epoll events, and an output path that writes directly when it can and buffers what is
 left. `TcpConnections` has the object that computes these functions.
 */
module Connections {
  import Endian

  type Byte = Endian.Byte

  datatype ConnState = Disconnected | Connecting | Connected | Disconnecting

  /** The registration of the descriptor with the loop's epoll server. */
  datatype Interest = NotRegistered | Registered(read: bool, write: bool)

  /** What the kernel answers to one write: how many bytes it took at most, or a failure. */
  datatype WriteResult = Wrote(n: nat) | Failed(brokenPipe: bool)

  /** Whether an event was readable, and then what the read returned. */
  datatype ReadResult = NotReadable | ReadBytes | EndOfFile | ReadError

  /**
   `open` is false once a write has failed: the socket is then closed and its descriptor is -1.
   `kernel` holds the bytes the kernel has taken. The counters say how often the connection
   callback has reported up and down, the close callback has run, the write half has been shut
   down, and a write-complete callback has been queued. `aborted` records a failed assertion.
   */
  datatype Conn = Conn(state: ConnState, interest: Interest, output: seq<Byte>, open: bool, forceCloses: nat,
                       ups: nat, downs: nat, closes: nat, kernel: seq<Byte>, shutdowns: nat, completes: nat,
                       aborted: bool)

  /**
   What can happen to a connection. The calls its callbacks make are actions of their own: the
   callbacks run last in their step, or between its reading and its writing half, which may
   then be taken as two events.
   */
  datatype Action =
    | Establish
    | Send(message: seq<Byte>, result: WriteResult)
    | Shutdown
    | ForceClose
    | RunForceClose
    | Event(read: ReadResult, write: bool, result: WriteResult)
    | Destroy

  const INIT := Conn(Connecting, NotRegistered, [], true, 0, 0, 0, 0, [], 0, 0, false)

  // ---------------------------------------------------------------- the code of the source

  /** Looks the socket's descriptor up in the epoll server; -1 is never there. */
  predicate HasRegisterWrite(c: Conn) { c.open && c.interest.Registered? && c.interest.write }

  function SetWriteInterest(c: Conn, on: bool): Conn {
    if c.open && c.interest.Registered? then c.(interest := c.interest.(write := on)) else c
  }

  /** How much of `data` the kernel takes; a negative result closes the socket, whatever the error was. */
  function Count(data: seq<Byte>, result: WriteResult): (n: nat)
    ensures n <= |data|
  {
    if result.Failed? then 0 else if result.n < |data| then result.n else |data|
  }

  function Write(c: Conn, data: seq<Byte>, result: WriteResult): Conn {
    if !c.open || result.Failed? then c.(open := false) else c.(kernel := c.kernel + data[..Count(data, result)])
  }

  function Buffer(c: Conn, rest: seq<Byte>): Conn {
    if rest == [] then c else
    var c1 := c.(output := c.output + rest);
    if HasRegisterWrite(c1) then c1 else SetWriteInterest(c1, true)
  }

  function SendInLoop(c: Conn, data: seq<Byte>, result: WriteResult): Conn {
    if c.state == Disconnected then c
    else if HasRegisterWrite(c) || c.output != [] then Buffer(c, data)
    else
      var c1 := Write(c, data, result);
      if c1.open then
        var n := Count(data, result);
        if n == |data| then c1.(completes := c1.completes + 1) else Buffer(c1, data[n..])
      else if c.open && result.brokenPipe then c1
      else Buffer(c1, data)
  }

  function ShutdownInLoop(c: Conn): Conn {
    if !HasRegisterWrite(c) && c.open then c.(shutdowns := c.shutdowns + 1) else c
  }

  function HandleClose(c: Conn): Conn {
    if c.state != Connected && c.state != Disconnecting then c.(aborted := true) else
    c.(state := Disconnected, interest := if c.open then NotRegistered else c.interest,
       downs := c.downs + 1, closes := c.closes + 1)
  }

  function HandleRead(c: Conn, read: ReadResult): Conn { if read.EndOfFile? then HandleClose(c) else c }

  function HandleWrite(c: Conn, result: WriteResult): Conn {
    if !HasRegisterWrite(c) then c else
    var c1, n := Write(c, c.output, result), Count(c.output, result);
    if !c1.open || n == 0 then c1
    else if n < |c.output| then c1.(output := c.output[n..])
    else
      var c2 := SetWriteInterest(c1.(output := []), false);
      var c3 := c2.(completes := c2.completes + 1);
      if c3.state == Disconnecting then ShutdownInLoop(c3) else c3
  }

  function OnEvent(c: Conn, read: ReadResult, write: bool, result: WriteResult): Conn {
    var c1 := HandleRead(c, read);
    if write then HandleWrite(c1, result) else c1
  }

  function ConnectEstablished(c: Conn): Conn {
    if c.state != Connecting then c.(aborted := true) else
    c.(state := Connected, interest := Registered(true, false), ups := c.ups + 1)
  }

  function ConnectDestroyed(c: Conn): Conn {
    if c.state != Connected then c else
    c.(state := Disconnected, interest := if c.open then NotRegistered else c.interest, downs := c.downs + 1)
  }

  /**
   An action that cannot occur in the present state changes nothing. That an establishment only
   occurs while connecting is a fact about the server: Lifecycle.EstablishKeepsInv proves it.
   */
  function Apply(c: Conn, a: Action): Conn {
    match a
    case Establish => if c.state == Connecting then ConnectEstablished(c) else c
    case Send(message, result) => if c.state == Connected then SendInLoop(c, message, result) else c
    case Shutdown => if c.state == Connected then ShutdownInLoop(c.(state := Disconnecting)) else c
    case ForceClose =>
      if c.state == Connected || c.state == Disconnecting
      then c.(state := Disconnecting, forceCloses := c.forceCloses + 1) else c
    case RunForceClose =>
      if c.forceCloses == 0 then c else
      var c1 := c.(forceCloses := c.forceCloses - 1);
      if c.state == Connected || c.state == Disconnecting then HandleClose(c1) else c1
    case Event(read, write, result) =>
      if c.open && c.interest.Registered? then OnEvent(c, read, write, result) else c
    case Destroy => ConnectDestroyed(c)
  }

  function Run(actions: seq<Action>): Conn
    decreases |actions|
  {
    if actions == [] then INIT else Apply(Run(actions[..|actions| - 1]), actions[|actions| - 1])
  }

  // ---------------------------------------------------------------- what the user asked for

  /** The messages sent while the connection was connected, joined. */
  function Sent(actions: seq<Action>): seq<Byte>
    decreases |actions|
  {
    if actions == [] then [] else
    var init, a := actions[..|actions| - 1], actions[|actions| - 1];
    Sent(init) + if a.Send? && Run(init).state == Connected then a.message else []
  }

  /** Shutdown was called while the connection was connected. */
  predicate AskedToShutDown(actions: seq<Action>)
    decreases |actions|
  {
    actions != [] &&
    var init, a := actions[..|actions| - 1], actions[|actions| - 1];
    AskedToShutDown(init) || (a.Shutdown? && Run(init).state == Connected)
  }

  // ---------------------------------------------------------------- the invariant

  ghost predicate StreamOk(c: Conn, sent: seq<Byte>) {
    && c.kernel <= sent
    && (c.open ==> c.kernel + c.output == sent)
    && (c.open && c.interest.Registered? ==> (c.interest.write <==> c.output != []))
  }

  ghost predicate StateOk(c: Conn) {
    && !c.aborted
    && (c.open ==> (c.interest.Registered? <==> c.state == Connected || c.state == Disconnecting))
    && (c.interest.Registered? ==> c.interest.read)
    && (c.state == Connecting ==> c.open && c.output == [])
    && c.ups == (if c.state == Connecting then 0 else 1)
    && c.downs == (if c.state == Disconnected then 1 else 0)
    && c.closes <= c.downs
  }

  ghost predicate ShutdownOk(c: Conn, sent: seq<Byte>, asked: bool) {
    && c.shutdowns <= 1
    && (c.shutdowns == 1 ==> c.kernel == sent)
    && (c.shutdowns == 1 || asked ==> c.state == Disconnecting || c.state == Disconnected)
    && (asked && c.open && c.output == [] ==> c.shutdowns == 1)
  }

  ghost predicate Inv(c: Conn, sent: seq<Byte>, asked: bool) {
    StreamOk(c, sent) && StateOk(c) && ShutdownOk(c, sent, asked)
  }

  lemma Prefix(a: seq<Byte>, b: seq<Byte>, c: seq<Byte>)
    requires a <= b
    ensures a <= b + c
  {
  }

  lemma Cut(kernel: seq<Byte>, data: seq<Byte>, n: nat)
    requires n <= |data|
    ensures (kernel + data[..n]) + data[n..] == kernel + data && kernel + data[..n] <= kernel + data
    ensures n == |data| ==> data[..n] == data
  {
    assert data == data[..n] + data[n..];
  }

  /** Putting the rest of a message in the buffer. */
  lemma BufferOk(c: Conn, rest: seq<Byte>, sent: seq<Byte>)
    requires c.kernel <= sent && (c.open ==> c.kernel + (c.output + rest) == sent)
    requires StateOk(c) && c.state != Connecting
    requires c.open && c.interest.Registered? ==> (c.interest.write <==> c.output != [])
    ensures var r := Buffer(c, rest);
      && StreamOk(r, sent) && StateOk(r) && r.state == c.state && r.shutdowns == c.shutdowns
      && r.kernel == c.kernel && r.open == c.open
  {
    assert rest == [] ==> c.output + rest == c.output;
  }

  lemma SendOk(c: Conn, data: seq<Byte>, result: WriteResult, sent: seq<Byte>)
    requires StreamOk(c, sent) && StateOk(c) && c.state == Connected
    ensures var r := SendInLoop(c, data, result);
      StreamOk(r, sent + data) && StateOk(r) && r.state == Connected && r.shutdowns == c.shutdowns
  {
    hide StateOk;
    Prefix(c.kernel, sent, data);
    assert c.kernel + (c.output + data) == (c.kernel + c.output) + data;
    if HasRegisterWrite(c) || c.output != [] {
      BufferOk(c, data, sent + data);
    } else {
      assert c.output + data == data;
      var n, c1 := Count(data, result), Write(c, data, result);
      Cut(c.kernel, data, n);
      StateOkFrame(c, c1);
      if c1.open {
        assert c.kernel + c.output == c.kernel;
        assert c1.output + data[n..] == data[n..];
        assert c1.kernel + c1.output == c1.kernel;
        if n < |data| { BufferOk(c1, data[n..], sent + data); }
        StateOkFrame(c1, SendInLoop(c, data, result));
      } else if !(c.open && result.brokenPipe) {
        BufferOk(c1, data, sent + data);
      }
    }
  }

  /** The state part depends on the state, the interest and the counters only. */
  lemma StateOkFrame(c: Conn, r: Conn)
    requires StateOk(c) && c.state != Connecting && (r.open ==> c.open) && r.aborted == c.aborted
    requires r.state == c.state && r.interest.Registered? == c.interest.Registered?
    requires r.interest.Registered? && c.interest.Registered? && c.interest.read ==> r.interest.read
    requires r.ups == c.ups && r.downs == c.downs && r.closes == c.closes
    ensures StateOk(r)
  {
  }

  lemma HandleWriteOk(c: Conn, result: WriteResult, sent: seq<Byte>, asked: bool)
    requires Inv(c, sent, asked) && c.state != Connecting
    ensures Inv(HandleWrite(c, result), sent, asked)
  {
    if HasRegisterWrite(c) {
      Cut(c.kernel, c.output, Count(c.output, result));
      assert c.kernel + c.output[..0] == c.kernel;
      var r := HandleWrite(c, result);
      StateOkFrame(c, r);
      assert r.kernel + [] == r.kernel;
    }
  }

  lemma StepKeepsInv(c: Conn, a: Action, sent: seq<Byte>, asked: bool)
    requires Inv(c, sent, asked)
    ensures Inv(Apply(c, a), sent + (if a.Send? && c.state == Connected then a.message else []),
                asked || (a.Shutdown? && c.state == Connected))
  {
    assert sent + [] == sent;
    match a
    case Send(message, result) =>
      if c.state == Connected { SendOk(c, message, result, sent); }
    case Event(read, write, result) =>
      if c.open && c.interest.Registered? {
        var c1 := HandleRead(c, read);
        assert Inv(c1, sent, asked);
        HandleWriteOk(c1, result, sent, asked);
      }
    case Shutdown => assert c.kernel + [] == c.kernel;
    case _ =>
  }

  lemma {:induction false} RunKeepsInv(actions: seq<Action>)
    ensures Inv(Run(actions), Sent(actions), AskedToShutDown(actions))
    decreases |actions|
  {
    if actions != [] {
      var init, a := actions[..|actions| - 1], actions[|actions| - 1];
      RunKeepsInv(init);
      hide Inv, Apply;
      StepKeepsInv(Run(init), a, Sent(init), AskedToShutDown(init));
    }
  }

  // ---------------------------------------------------------------- what the invariant means

  /** In every run the assertions hold; up is reported once, then down at most once, then at most one close. */
  lemma StatesInOrder(actions: seq<Action>)
    ensures var c := Run(actions);
      && !c.aborted && c.ups <= 1 && c.downs <= c.ups && c.closes <= c.downs
      && (c.state == Disconnected <==> c.downs == 1)
  {
    RunKeepsInv(actions);
  }

  /**
   In every run the kernel has taken a prefix of what was sent while connected. As long as no
   write has failed, that prefix and the buffer are all of it, and write interest is on exactly
   when the buffer is not empty.
   */
  lemma ByteStream(actions: seq<Action>)
    ensures var c := Run(actions);
      && c.kernel <= Sent(actions)
      && (c.open ==> c.kernel + c.output == Sent(actions))
      && (c.open && c.interest.Registered? ==> (c.interest.write <==> c.output != []))
  {
    RunKeepsInv(actions);
  }

  predicate WriteFails(a: Action) { (a.Send? || a.Event?) && a.result.Failed? }

  /** The socket stays open as long as the kernel fails no write. */
  lemma {:induction false} OpenUnlessWriteFails(actions: seq<Action>)
    requires forall i :: 0 <= i < |actions| ==> !WriteFails(actions[i])
    ensures Run(actions).open
    decreases |actions|
  {
    if actions != [] {
      OpenUnlessWriteFails(actions[..|actions| - 1]);
      assert !WriteFails(actions[|actions| - 1]);
    }
  }

  /**
   Graceful shutdown flushes. The write half is shut down at most once, and only with every byte
   sent taken by the kernel; and once Shutdown has been called on a connected connection, it is
   shut down exactly when the kernel has taken everything, unless a write fails.
   */
  lemma GracefulShutdown(actions: seq<Action>)
    ensures var c := Run(actions);
      && c.shutdowns <= 1 && (c.shutdowns == 1 ==> c.kernel == Sent(actions))
      && (AskedToShutDown(actions) && c.open ==> (c.shutdowns == 1 <==> c.kernel == Sent(actions)))
  {
    RunKeepsInv(actions);
    var c := Run(actions);
    if c.open && c.kernel == Sent(actions) {
      assert |c.kernel + c.output| == |c.kernel| + |c.output|;
      assert c.output == [];
    }
  }

  /** A write-complete callback is queued only when the kernel has taken every byte sent. */
  lemma CompleteMeansWritten(actions: seq<Action>, a: Action)
    requires Run(actions + [a]).completes > Run(actions).completes
    ensures Run(actions + [a]).kernel == Sent(actions + [a])
  {
    var all := actions + [a];
    assert all[..|all| - 1] == actions;
    RunKeepsInv(all);
    RunKeepsInv(actions);
    var c, r := Run(actions), Run(all);
    assert r == Apply(c, a);
    CompletesOnlyWhenEmpty(c, a);
    assert r.kernel + [] == r.kernel;
  }

  lemma CompletesOnlyWhenEmpty(c: Conn, a: Action)
    requires Apply(c, a).completes > c.completes
    ensures Apply(c, a).open && Apply(c, a).output == []
  {
  }

  /** Nothing is accepted or written after the write half has been shut down. */
  lemma {:induction false} NothingAfterShutdown(actions: seq<Action>, more: seq<Action>)
    requires Run(actions).shutdowns == 1
    ensures Run(actions + more).shutdowns == 1
    ensures Sent(actions + more) == Sent(actions) && Run(actions + more).kernel == Run(actions).kernel
    decreases |more|
  {
    if more == [] {
      assert actions + more == actions;
    } else {
      var init, a := more[..|more| - 1], more[|more| - 1];
      assert (actions + more)[..|actions + more| - 1] == actions + init;
      NothingAfterShutdown(actions, init);
      RunKeepsInv(actions + init);
      RunKeepsInv(actions + more);
      ShutdownStays(Run(actions + init), a);
    }
  }

  lemma ShutdownStays(c: Conn, a: Action)
    ensures Apply(c, a).shutdowns >= c.shutdowns
  {
  }

  // ---------------------------------------------------------------- what each action does

  function Min(a: nat, b: nat): nat { if a < b then a else b }

  lemma RunThen(actions: seq<Action>, a: Action)
    ensures Run(actions + [a]) == Apply(Run(actions), a)
    ensures Inv(Run(actions), Sent(actions), AskedToShutDown(actions))
  {
    assert (actions + [a])[..|actions|] == actions;
    RunKeepsInv(actions);
  }

  /**
   An output event on a live connection: as much of the buffer as the kernel takes goes out, the
   rest stays, write interest stays on exactly while something is left; when a non-empty buffer
   empties, one write-complete is queued, and a disconnecting connection is shut down.
   */
  lemma OutputEvent(actions: seq<Action>, read: ReadResult, n: nat)
    requires var c := Run(actions); c.open && c.interest.Registered? && !read.EndOfFile?
    ensures var c, r := Run(actions), Run(actions + [Event(read, true, Wrote(n))]);
      var k := Min(n, |c.output|);
      var done := c.output != [] && k == |c.output|;
      && r.kernel == c.kernel + c.output[..k] && r.output == c.output[k..] && r.open && r.state == c.state
      && r.interest == Registered(true, r.output != [])
      && r.completes == c.completes + (if done then 1 else 0)
      && r.shutdowns == c.shutdowns + (if done && c.state == Disconnecting then 1 else 0)
      && r.forceCloses == c.forceCloses && r.downs == c.downs && r.closes == c.closes
  {
    hide Run, Sent, AskedToShutDown;
    RunThen(actions, Event(read, true, Wrote(n)));
    var c := Run(actions);
    assert c.kernel + c.output[..0] == c.kernel && c.output[0..] == c.output;
  }

  /** A failed output event closes the socket if something was to be written, and changes nothing else. */
  lemma FailedOutputEvent(actions: seq<Action>, read: ReadResult, brokenPipe: bool)
    requires var c := Run(actions); c.open && c.interest.Registered? && !read.EndOfFile?
    ensures var c, r := Run(actions), Run(actions + [Event(read, true, Failed(brokenPipe))]);
      r == c.(open := c.output == [])
  {
    hide Run, Sent, AskedToShutDown;
    RunThen(actions, Event(read, true, Failed(brokenPipe)));
  }

  /** A send on an open, connected connection writes at once what the kernel takes and buffers the rest. */
  lemma SendWrites(actions: seq<Action>, message: seq<Byte>, n: nat)
    requires var c := Run(actions); c.open && c.state == Connected
    ensures var c, r := Run(actions), Run(actions + [Send(message, Wrote(n))]);
      var k := if c.output == [] then Min(n, |message|) else 0;
      && r.kernel == c.kernel + message[..k] && r.output == c.output + message[k..] && r.open
      && r.interest == Registered(true, r.output != [])
      && r.completes == c.completes + (if c.output == [] && k == |message| then 1 else 0)
      && r.state == c.state && r.shutdowns == c.shutdowns && r.forceCloses == c.forceCloses
  {
    hide Run, Sent, AskedToShutDown;
    RunThen(actions, Send(message, Wrote(n)));
    var c := Run(actions);
    assert c.kernel + message[..0] == c.kernel && message[0..] == message;
    assert c.output + [] == c.output && [] + message == message;
    assert n >= |message| ==> message[|message|..] == [] && message[..|message|] == message;
  }

  /** A failed direct write closes the socket; the message is buffered unless the peer is known to be gone. */
  lemma SendFails(actions: seq<Action>, message: seq<Byte>, brokenPipe: bool)
    requires var c := Run(actions); c.open && c.state == Connected && c.output == []
    ensures var c, r := Run(actions), Run(actions + [Send(message, Failed(brokenPipe))]);
      r == c.(open := false, output := if brokenPipe then [] else message)
  {
    hide Run, Sent, AskedToShutDown;
    RunThen(actions, Send(message, Failed(brokenPipe)));
    assert [] + message == message;
  }

  /** After a failed write a connected connection only buffers what is sent. */
  lemma SendAfterFailure(actions: seq<Action>, message: seq<Byte>, result: WriteResult)
    requires var c := Run(actions); !c.open && c.state == Connected
    ensures var c := Run(actions); Run(actions + [Send(message, result)]) == c.(output := c.output + message)
  {
    hide Run, Sent, AskedToShutDown;
    RunThen(actions, Send(message, result));
    assert Run(actions).output + [] == Run(actions).output;
  }

  /** Only a connected connection takes a message. */
  lemma SendIgnored(actions: seq<Action>, message: seq<Byte>, result: WriteResult)
    requires Run(actions).state != Connected
    ensures Run(actions + [Send(message, result)]) == Run(actions)
  {
    hide Run, Sent, AskedToShutDown;
    RunThen(actions, Send(message, result));
  }

  /** The end of the input closes a live connection: unregistered, one down report, one close callback. */
  lemma EndOfInputCloses(actions: seq<Action>, write: bool, result: WriteResult)
    requires var c := Run(actions); c.open && c.interest.Registered?
    ensures var c, r := Run(actions), Run(actions + [Event(EndOfFile, write, result)]);
      r == c.(state := Disconnected, interest := NotRegistered, downs := 1, closes := c.closes + 1)
  {
    hide Run, Sent, AskedToShutDown;
    RunThen(actions, Event(EndOfFile, write, result));
  }

  /** Other input changes nothing in the connection itself. */
  lemma InputChangesNothing(actions: seq<Action>, read: ReadResult, result: WriteResult)
    requires !read.EndOfFile?
    ensures Run(actions + [Event(read, false, result)]) == Run(actions)
  {
    hide Run, Sent, AskedToShutDown;
    RunThen(actions, Event(read, false, result));
  }

  lemma EstablishConnects(actions: seq<Action>)
    requires Run(actions).state == Connecting
    ensures Run(actions + [Establish]) ==
            Run(actions).(state := Connected, interest := Registered(true, false), ups := 1)
  {
    hide Run, Sent, AskedToShutDown;
    RunThen(actions, Establish);
  }

  /** Shutdown of a connected connection with nothing to write shuts the write half down at once. */
  lemma ShutdownTakesEffect(actions: seq<Action>)
    requires Run(actions).state == Connected
    ensures var c := Run(actions);
      Run(actions + [Shutdown]) ==
      c.(state := Disconnecting, shutdowns := if c.open && c.output == [] then 1 else 0)
  {
    hide Run, Sent, AskedToShutDown;
    RunThen(actions, Shutdown);
  }

  /** A forced close is queued, and when it runs closes a connection that is still live, and only such a one. */
  lemma ForceCloseCloses(actions: seq<Action>)
    requires var c := Run(actions); c.state == Connected || c.state == Disconnecting
    ensures var c := Run(actions);
      && Run(actions + [ForceClose]) == c.(state := Disconnecting, forceCloses := c.forceCloses + 1)
      && (c.forceCloses > 0 ==>
            Run(actions + [RunForceClose]) ==
            c.(state := Disconnected, interest := if c.open then NotRegistered else c.interest, downs := 1,
               closes := c.closes + 1, forceCloses := c.forceCloses - 1))
  {
    hide Run, Sent, AskedToShutDown;
    RunThen(actions, ForceClose);
    RunThen(actions, RunForceClose);
  }

  lemma LateForceCloseDoesNothing(actions: seq<Action>)
    requires var c := Run(actions); c.state == Disconnected && c.forceCloses > 0
    ensures Run(actions + [RunForceClose]) == Run(actions).(forceCloses := Run(actions).forceCloses - 1)
  {
    hide Run, Sent, AskedToShutDown;
    RunThen(actions, RunForceClose);
  }

  /** Destruction of a connection that is still connected reports it down, without the close callback. */
  lemma DestroyReportsDown(actions: seq<Action>)
    ensures var c := Run(actions);
      Run(actions + [Destroy]) ==
      if c.state == Connected
      then c.(state := Disconnected, interest := if c.open then NotRegistered else c.interest, downs := 1) else c
  {
    hide Run, Sent, AskedToShutDown;
    RunThen(actions, Destroy);
  }
}
