/**
 The TCP server as an object, with the loops and connections its methods reach: its methods do
 to the fields what Lifecycle says, so every run of the object is a run of Lifecycle.
 */
module TcpServers {
  import C = Connections
  import opened L = Lifecycle

  class TCPServer {
    var conns: map<nat, Conn>
    var connections: set<nat>
    var queues: map<nat, seq<Task>>
    var nextConnId: nat
    var aborted: bool

    ghost function Abs(): State
      reads this
    {
      State(conns, connections, queues, nextConnId, aborted)
    }

    constructor ()
      ensures Abs() == INIT
    {
      conns, connections, queues, nextConnId, aborted := map[], {}, map[], 1, false;
    }

    method Enqueue(loop: nat, t: Task)
      modifies `queues
      ensures Abs() == QueueInLoop(old(Abs()), loop, t)
    {
      queues := queues[loop := (if loop in queues then queues[loop] else []) + [t]];
    }

    method Establish(id: nat)
      modifies this
      ensures Abs() == ConnectEstablished(old(Abs()), id)
    {
      if id !in conns || conns[id].state != C.Connecting {
        aborted := true;
        return;
      }
      var c := conns[id];
      conns := conns[id := c.(state := C.Connected, registered := true,
                             history := Then(c.history, [Established, Up]))];
    }

    method Destroy(id: nat)
      modifies this
      ensures Abs() == ConnectDestroyed(old(Abs()), id)
    {
      if id !in conns {
        aborted := true;
        return;
      }
      var c := conns[id];
      if c.state == C.Connected {
        conns := conns[id := c.(state := C.Disconnected, registered := false,
                               history := Then(c.history, [Down, Destroyed]))];
      } else {
        conns := conns[id := c.(history := Then(c.history, [Destroyed]))];
      }
    }

    /** Runs on the accepting loop; `ioLoop` is the pool's choice. The name it gives is not in use. */
    method NewConnection(ioLoop: nat)
      requires Inv(Abs())
      modifies this
      ensures Abs() == L.NewConnection(old(Abs()), ioLoop) && Inv(Abs())
      ensures connections == old(connections) + {old(nextConnId)} && old(nextConnId) !in old(connections)
    {
      AcceptKeepsInv(Abs(), ioLoop);
      FreshId(Abs());
      assert nextConnId !in connections;
      var id := nextConnId;
      nextConnId := nextConnId + 1;
      conns := conns[id := Conn(ioLoop, C.Connecting, false, [Inserted])];
      connections := connections + {id};
      if ioLoop == 0 {
        Establish(id);
      } else {
        Enqueue(ioLoop, Task.Establish(id));
      }
    }

    /** The close callback, called on loop `here`. */
    method RemoveConnection(here: nat, id: nat)
      modifies this
      ensures Abs() == if here == 0 then L.RemoveConnectionInLoop(old(Abs()), id)
                       else QueueInLoop(old(Abs()), 0, Remove(id))
    {
      if here == 0 {
        RemoveConnectionInLoop(id);
      } else {
        Enqueue(0, Remove(id));
      }
    }

    method RemoveConnectionInLoop(id: nat)
      modifies this
      ensures Abs() == L.RemoveConnectionInLoop(old(Abs()), id)
    {
      if id !in conns || id !in connections {
        aborted := true;
        return;
      }
      var c := conns[id];
      connections := connections - {id};
      conns := conns[id := c.(history := Then(c.history, [Erased]))];
      Enqueue(c.loop, Task.Destroy(id));
    }

    method Close(id: nat)
      modifies this
      ensures Abs() == HandleClose(old(Abs()), id)
    {
      if id !in conns || !(conns[id].state == C.Connected || conns[id].state == C.Disconnecting) {
        aborted := true;
        return;
      }
      var c := conns[id];
      conns := conns[id := c.(state := C.Disconnected, registered := false,
                             history := Then(c.history, [Down, Closed]))];
      RemoveConnection(c.loop, id);
    }

    /**
     A loop takes the first task of its queue. A removal finds the connection in the table: the
     erase takes exactly that entry out.
     */
    method RunTask(loop: nat)
      requires Inv(Abs()) && Q(Abs(), loop) != []
      modifies this
      ensures Abs() == Next(old(Abs()), Step.RunTask(loop)) && Inv(Abs())
      ensures var t := old(Q(Abs(), loop)[0]);
        t.Remove? ==> t.id in old(connections) && connections == old(connections) - {t.id} && !aborted
    {
      hide Inv, Cnt, L.ConnectEstablished, L.ConnectDestroyed, L.RemoveConnectionInLoop, L.HandleClose, Then;
      StepKeepsInv(Abs(), Step.RunTask(loop));
      var t := queues[loop][0];
      if t.Remove? {
        RemovalFindsItsEntry(Abs(), loop);
      }
      queues := queues[loop := queues[loop][1..]];
      match t {
        case Establish(id) => Establish(id);
        case Remove(id) => RemoveConnectionInLoop(id);
        case Destroy(id) => Destroy(id);
        case ForceCloseInLoop(id) =>
          if id in conns && (conns[id].state == C.Connected || conns[id].state == C.Disconnecting) {
            Close(id);
          }
      }
    }

    method Shutdown(id: nat)
      requires id in conns
      modifies this
      ensures Abs() == Next(old(Abs()), Step.Shutdown(id))
    {
      if conns[id].state == C.Connected {
        conns := conns[id := conns[id].(state := C.Disconnecting)];
      }
    }

    method ForceClose(id: nat)
      requires id in conns
      modifies this
      ensures Abs() == Next(old(Abs()), Step.ForceClose(id))
    {
      if conns[id].state == C.Connected || conns[id].state == C.Disconnecting {
        var loop := conns[id].loop;
        conns := conns[id := conns[id].(state := C.Disconnecting)];
        Enqueue(loop, ForceCloseInLoop(id));
      }
    }

    method Do(a: Step)
      requires Inv(Abs()) && Enabled(Abs(), a)
      modifies this
      ensures Abs() == Next(old(Abs()), a) && Inv(Abs())
    {
      StepKeepsInv(Abs(), a);
      hide Inv;
      match a {
        case Accept(loop) => NewConnection(loop);
        case RunTask(loop) => RunTask(loop);
        case PeerCloses(id) => Close(id);
        case Shutdown(id) => Shutdown(id);
        case ForceClose(id) => ForceClose(id);
      }
    }

    /** Every interleaving: each connection's history is a beginning of one life, and no assertion fails. */
    method Run(steps: seq<Step>)
      requires Abs() == INIT && IsRun(steps)
      modifies this
      ensures Abs() == After(steps) && !aborted
      ensures forall id :: id in conns ==> Orderly(conns[id], id in connections)
    {
      RunKeepsInv([]);
      for i := 0 to |steps|
        invariant Abs() == After(steps[..i]) && Inv(Abs())
      {
        RunPrefix(steps, i + 1);
        assert steps[..i + 1][..i] == steps[..i];
        Do(steps[i]);
      }
      assert steps[..|steps|] == steps;
      forall id | id in conns ensures Orderly(conns[id], id in connections) {
        LifecycleIsOrderly(steps, id);
      }
      NothingAborted(Abs());
    }
  }

  lemma NothingAborted(s: State)
    requires Inv(s)
    ensures !s.aborted
  {
  }
}
