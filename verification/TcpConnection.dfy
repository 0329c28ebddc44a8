/** The TCP connection as an object; each method is proved to compute its function in `Connections`. */
module TcpConnections {
  import opened C = Connections

  class TCPConnection {
    var state: ConnState
    var interest: Interest
    var outputBuffer: seq<Byte>
    var socketOpen: bool
    var queuedForceCloses: nat
    var ups: nat
    var downs: nat
    var closes: nat
    var kernel: seq<Byte>
    var writeShutdowns: nat
    var writeCompletes: nat
    var aborted: bool

    ghost function Abs(): Conn
      reads this
    {
      Conn(state, interest, outputBuffer, socketOpen, queuedForceCloses, ups, downs, closes, kernel,
           writeShutdowns, writeCompletes, aborted)
    }

    constructor ()
      ensures Abs() == INIT
    {
      state, interest, outputBuffer, socketOpen, queuedForceCloses := Connecting, NotRegistered, [], true, 0;
      ups, downs, closes, kernel, writeShutdowns, writeCompletes, aborted := 0, 0, 0, [], 0, 0, false;
    }

    predicate HasRegisterWrite()
      reads this
    {
      socketOpen && interest.Registered? && interest.write
    }

    method SetWriteInterest(on: bool)
      modifies `interest
      ensures Abs() == C.SetWriteInterest(old(Abs()), on)
    {
      if socketOpen && interest.Registered? {
        interest := interest.(write := on);
      }
    }

    /** A negative result closes the socket, whatever the error was. */
    method Write(data: seq<Byte>, result: WriteResult) returns (nwrote: int)
      modifies `kernel, `socketOpen
      ensures Abs() == C.Write(old(Abs()), data, result)
      ensures nwrote == if socketOpen then Count(data, result) else -1
    {
      if !socketOpen || result.Failed? {
        socketOpen := false;
        return -1;
      }
      nwrote := if result.n < |data| then result.n else |data|;
      kernel := kernel + data[..nwrote];
    }

    /** Only a connected connection accepts a message. */
    method Send(message: seq<Byte>, result: WriteResult)
      modifies this
      ensures Abs() == Apply(old(Abs()), Action.Send(message, result))
    {
      if state == Connected {
        SendInLoop(message, result);
      }
    }

    method SendInLoop(data: seq<Byte>, result: WriteResult)
      modifies this
      ensures Abs() == C.SendInLoop(old(Abs()), data, result)
    {
      var nwrote, remaining, faultError := 0, |data|, false;
      if state == Disconnected {
        return;
      }
      if !HasRegisterWrite() && outputBuffer == [] {
        var wasOpen := socketOpen;
        nwrote := Write(data, result);
        if nwrote >= 0 {
          remaining := |data| - nwrote;
          if remaining == 0 {
            writeCompletes := writeCompletes + 1;
          }
        } else {
          nwrote := 0;
          faultError := wasOpen && result.brokenPipe;
        }
      }
      if !faultError && remaining > 0 {
        assert nwrote == 0 ==> data[nwrote..] == data;
        outputBuffer := outputBuffer + data[nwrote..];
        if !HasRegisterWrite() {
          SetWriteInterest(true);
        }
      }
    }

    method Shutdown()
      modifies this
      ensures Abs() == Apply(old(Abs()), Action.Shutdown)
    {
      if state == Connected {
        state := Disconnecting;
        ShutdownInLoop();
      }
    }

    method ShutdownInLoop()
      modifies `writeShutdowns
      ensures Abs() == C.ShutdownInLoop(old(Abs()))
    {
      if !HasRegisterWrite() && socketOpen {
        writeShutdowns := writeShutdowns + 1;
      }
    }

    method ForceClose()
      modifies `state, `queuedForceCloses
      ensures Abs() == Apply(old(Abs()), Action.ForceClose)
    {
      if state == Connected || state == Disconnecting {
        state := Disconnecting;
        queuedForceCloses := queuedForceCloses + 1;
      }
    }

    /** Runs a force-close that has been queued. */
    method ForceCloseInLoop()
      requires queuedForceCloses > 0
      modifies this
      ensures Abs() == Apply(old(Abs()), RunForceClose)
    {
      queuedForceCloses := queuedForceCloses - 1;
      if state == Connected || state == Disconnecting {
        HandleClose();
      }
    }

    method ConnectEstablished()
      modifies this
      ensures Abs() == C.ConnectEstablished(old(Abs()))
    {
      if state != Connecting {
        aborted := true;
        return;
      }
      state := Connected;
      interest := Registered(true, false);
      ups := ups + 1;
    }

    method UnregisterFD()
      modifies `interest
      ensures interest == if socketOpen then NotRegistered else old(interest)
    {
      if socketOpen {
        interest := NotRegistered;
      }
    }

    method ConnectDestroyed()
      modifies this
      ensures Abs() == C.ConnectDestroyed(old(Abs()))
    {
      if state == Connected {
        state := Disconnected;
        UnregisterFD();
        downs := downs + 1;
      }
    }

    /** An event on the descriptor: reading comes first and may close the connection. */
    method OnEvent(read: ReadResult, write: bool, result: WriteResult)
      modifies this
      ensures Abs() == C.OnEvent(old(Abs()), read, write, result)
    {
      if read != NotReadable {
        HandleRead(read);
      }
      if write {
        HandleWrite(result);
      }
    }

    method HandleRead(read: ReadResult)
      modifies this
      ensures Abs() == C.HandleRead(old(Abs()), read)
    {
      if read == EndOfFile {
        HandleClose();
      }
    }

    method HandleWrite(result: WriteResult)
      modifies this
      ensures Abs() == C.HandleWrite(old(Abs()), result)
    {
      if HasRegisterWrite() {
        var n := Write(outputBuffer, result);
        if n > 0 {
          outputBuffer := outputBuffer[n..];
          if outputBuffer == [] {
            SetWriteInterest(false);
            writeCompletes := writeCompletes + 1;
            if state == Disconnecting {
              ShutdownInLoop();
            }
          }
        }
      }
    }

    method HandleClose()
      modifies this
      ensures Abs() == C.HandleClose(old(Abs()))
    {
      if state != Connected && state != Disconnecting {
        aborted := true;
        return;
      }
      state := Disconnected;
      UnregisterFD();
      downs := downs + 1;
      closes := closes + 1;
    }

    method Do(a: Action)
      modifies this
      ensures Abs() == Apply(old(Abs()), a)
    {
      match a {
        case Establish => if state == Connecting { ConnectEstablished(); }
        case Send(message, result) => Send(message, result);
        case Shutdown => Shutdown();
        case ForceClose => ForceClose();
        case RunForceClose => if queuedForceCloses > 0 { ForceCloseInLoop(); }
        case Event(read, write, result) =>
          if socketOpen && interest.Registered? { OnEvent(read, write, result); }
        case Destroy => ConnectDestroyed();
      }
    }

    /** A whole life: what holds of every run of the functions holds of the object. */
    method RunActions(actions: seq<Action>)
      requires Abs() == INIT
      modifies this
      ensures Abs() == Run(actions)
      ensures !aborted && kernel <= Sent(actions) && (socketOpen ==> kernel + outputBuffer == Sent(actions))
      ensures writeShutdowns <= 1 && (writeShutdowns == 1 ==> kernel == Sent(actions))
    {
      for i := 0 to |actions|
        invariant Abs() == Run(actions[..i])
      {
        assert actions[..i + 1][..i] == actions[..i];
        Do(actions[i]);
      }
      assert actions[..|actions|] == actions;
      RunKeepsInv(actions);
    }
  }
}
