/**
 The two views of a connection belong together: what the loops of a server do to one of its
 connections is a run of that connection alone.
 */
module Projection {
  import C = Connections
  import opened L = Lifecycle

  /** The same state and registration, and the callbacks of the history counted. */
  predicate Projects(c: Conn, cc: C.Conn) {
    && cc.state == c.state && (cc.interest.Registered? <==> c.registered) && cc.open
    && cc.ups == (if Up in c.history then 1 else 0)
    && cc.downs == (if Down in c.history then 1 else 0)
    && cc.closes == (if Closed in c.history then 1 else 0)
  }

  /** The connection a step works on. */
  function Subject(s: State, a: Step): nat
    requires Enabled(s, a)
  {
    match a
    case Accept(_) => s.nextId
    case RunTask(loop) => Q(s, loop)[0].id
    case PeerCloses(id) => id
    case Shutdown(id) => id
    case ForceClose(id) => id
  }

  /** What the step is to its connection. */
  function ActionOf(s: State, a: Step): seq<C.Action>
    requires Enabled(s, a)
  {
    match a
    case Accept(loop) => if loop == 0 then [C.Establish] else []
    case RunTask(loop) =>
      (match Q(s, loop)[0]
       case Establish(_) => [C.Establish]
       case Destroy(_) => [C.Destroy]
       case ForceCloseInLoop(_) => [C.RunForceClose]
       case Remove(_) => [])
    case PeerCloses(_) => [C.Event(C.EndOfFile, false, C.Wrote(0))]
    case Shutdown(_) => [C.Shutdown]
    case ForceClose(_) => [C.ForceClose]
  }

  /** The run of connection `id` within a run of the loops. */
  function Actions(steps: seq<Step>, id: nat): seq<C.Action>
    decreases |steps|
  {
    if steps == [] then [] else
    var init, a := steps[..|steps| - 1], steps[|steps| - 1];
    var s := After(init);
    Actions(init, id) + if Enabled(s, a) && Subject(s, a) == id then ActionOf(s, a) else []
  }

  function ApplyAll(cc: C.Conn, actions: seq<C.Action>): C.Conn
    requires |actions| <= 1
  {
    if actions == [] then cc else C.Apply(cc, actions[0])
  }

  /** The same in terms of how far the connection has come. */
  predicate Fits(c: Conn, cc: C.Conn) {
    && cc.state == c.state && (cc.interest.Registered? <==> c.registered) && cc.open
    && cc.ups == (if Age(c) >= 3 then 1 else 0)
    && cc.downs == (if Age(c) >= 4 then 1 else 0)
    && cc.closes == (if Age(c) >= 5 then 1 else 0)
  }

  /** `id` is not there yet, or is what its own run says, with as many force-closes queued on its loop. */
  ghost predicate Joined(s: State, id: nat, cc: C.Conn) {
    if id !in s.conns then cc == C.INIT && NoTasks(s, id)
    else
      && Fits(s.conns[id], cc)
      && forall l: nat :: Cnt(s, l, ForceCloseInLoop(id)) == if l == s.conns[id].loop then cc.forceCloses else 0
  }

  // ---------------------------------------------------------------- steps of other connections

  lemma OthersUntouched(s: State, a: Step, id: nat)
    requires Inv(s) && Enabled(s, a) && Subject(s, a) != id
    ensures var r := Next(s, a);
      && (id in r.conns <==> id in s.conns) && (id in s.conns ==> r.conns[id] == s.conns[id])
      && forall l: nat, u: Task :: u.id == id ==> Cnt(r, l, u) == Cnt(s, l, u)
  {
    var r, sub := Next(s, a), Subject(s, a);
    match a
    case Accept(loop) => AcceptQueues(s, loop);
    case RunTask(loop) =>
      PopCounts(s, loop);
      TaskQueues(Popped(s, loop), Q(s, loop)[0]);
    case PeerCloses(i) => CloseQueues(s, i);
    case Shutdown(i) => SameQueues(s, r);
    case ForceClose(i) =>
      var s1 := SetConn(s, i, s.conns[i].(state := C.Disconnecting));
      SameQueues(s, s1);
      QueueCounts(s1, s.conns[i].loop, ForceCloseInLoop(i));
  }

  lemma AcceptQueues(s: State, loop: nat)
    ensures var r, id := NewConnection(s, loop), s.nextId;
      forall l: nat, u: Task ::
        Cnt(r, l, u) == Cnt(s, l, u) + if loop != 0 && l == loop && u == Establish(id) then 1 else 0
  {
    var id, r := s.nextId, NewConnection(s, loop);
    var s1 := SetConn(s, id, Conn(loop, C.Connecting, false, [Inserted]))
              .(connections := s.connections + {id}, nextId := id + 1);
    SameQueues(s, s1);
    QueueCounts(s1, loop, Establish(id));
    if loop == 0 { SameQueues(s1, r); }
  }

  lemma RemoveQueues(s: State, id: nat)
    ensures var r := RemoveConnectionInLoop(s, id);
      forall l: nat, u: Task :: u.id != id || u.ForceCloseInLoop? ==> Cnt(r, l, u) == Cnt(s, l, u)
  {
    if id !in s.conns || id !in s.connections {
      SameQueues(s, RemoveConnectionInLoop(s, id));
    } else {
      var c := s.conns[id];
      var s1 := SetConn(s, id, c.(history := Then(c.history, [Erased]))).(connections := s.connections - {id});
      SameQueues(s, s1);
      QueueCounts(s1, c.loop, Destroy(id));
    }
  }

  lemma CloseQueues(s: State, id: nat)
    ensures var r := HandleClose(s, id);
      forall l: nat, u: Task :: u.id != id || u.ForceCloseInLoop? ==> Cnt(r, l, u) == Cnt(s, l, u)
  {
    if id !in s.conns || !(s.conns[id].state == C.Connected || s.conns[id].state == C.Disconnecting) {
      SameQueues(s, HandleClose(s, id));
    } else {
      var c := s.conns[id];
      var c1 := c.(state := C.Disconnected, registered := false, history := Then(c.history, [Down, Closed]));
      var s1 := SetConn(s, id, c1);
      SameQueues(s, s1);
      RemoveQueues(s1, id);
      QueueCounts(s1, 0, Remove(id));
    }
  }

  lemma TaskQueues(s: State, t: Task)
    ensures var r := Exec(s, t);
      forall l: nat, u: Task :: u.id != t.id || u.ForceCloseInLoop? ==> Cnt(r, l, u) == Cnt(s, l, u)
  {
    match t
    case Establish(id) => SameQueues(s, Exec(s, t));
    case Destroy(id) => SameQueues(s, Exec(s, t));
    case Remove(id) => RemoveQueues(s, id);
    case ForceCloseInLoop(id) => CloseQueues(s, id);
  }

  // ---------------------------------------------------------------- steps of the connection itself

  /** What the age of a connection says about its history. */
  lemma Ages(c: Conn, listed: bool)
    requires ConnOk(c, listed)
    ensures (Up in c.history <==> Age(c) >= 3) && (Down in c.history <==> Age(c) >= 4)
    ensures Closed in c.history <==> Age(c) >= 5
  {
    var h := c.history;
    assert h == LIFE[..|h|];
    LifePrefix(|h|);
    assert LIFE[4] == Closed;
    if |h| >= 5 { assert LIFE[..|h|][4] == Closed; }
  }

  lemma AcceptJoined(s: State, loop: nat, cc: C.Conn)
    requires Inv(s) && Joined(s, s.nextId, cc)
    ensures var a := Accept(loop); Joined(Next(s, a), s.nextId, ApplyAll(cc, ActionOf(s, a)))
  {
    FreshId(s);
    hide Cnt, Inv, Then;
    AcceptQueues(s, loop);
    ThenLength([Inserted], [Established, Up]);
  }

  lemma ThenLength(h: seq<Event>, events: seq<Event>)
    ensures |Then(h, events)| == |h| + |events|
  {
  }

  /** A task other than a force-close leaves the queued force-closes alone. */
  lemma TaskJoined(s: State, loop: nat, cc: C.Conn)
    requires Inv(s) && Q(s, loop) != [] && !Q(s, loop)[0].ForceCloseInLoop? && Joined(s, Q(s, loop)[0].id, cc)
    ensures var a := RunTask(loop); Joined(Next(s, a), Q(s, loop)[0].id, ApplyAll(cc, ActionOf(s, a)))
  {
    hide Cnt, Inv, Then;
    var t, p := Q(s, loop)[0], Popped(s, loop);
    HeadCounted(s, loop);
    PopCounts(s, loop);
    TaskQueues(p, t);
    Facts(s, t.id);
    assert Cnt(s, loop, t) > 0;
    var h := s.conns[t.id].history;
    assert t.Remove? ==> t.id in s.connections;
    hide ConnOk, CountsOk;
    match t
    case Establish(id) => ThenLength(h, [Established, Up]);
    case Destroy(id) => ThenLength(h, [Destroyed]);
    case Remove(id) => ThenLength(h, [Erased]);
  }

  lemma CloseFits(c: Conn, c': Conn, cc: C.Conn)
    requires Fits(c, cc) && Age(c) == 3 && (c.state == C.Connected || c.state == C.Disconnecting)
    requires c'.state == C.Disconnected && !c'.registered && Age(c') >= 5
    ensures Fits(c', C.HandleClose(cc)) && C.HandleClose(cc).forceCloses == cc.forceCloses
  {
  }

  /** What closing does to the connection's own record. */
  lemma Closes(s: State, id: nat)
    requires id in s.conns && (s.conns[id].state == C.Connected || s.conns[id].state == C.Disconnecting)
    ensures var r := HandleClose(s, id);
      && id in r.conns && r.conns[id].state == C.Disconnected && !r.conns[id].registered
      && r.conns[id].loop == s.conns[id].loop && Age(r.conns[id]) >= Age(s.conns[id]) + 2
  {
    var h := s.conns[id].history;
    ThenLength(h, [Down, Closed]);
    ThenLength(Then(h, [Down, Closed]), [Erased]);
    hide Then, QueueInLoop;
    QueueCounts(s, 0, Remove(id));
    CloseRecord(s, id);
  }

  lemma CloseRecord(s: State, id: nat)
    requires id in s.conns && (s.conns[id].state == C.Connected || s.conns[id].state == C.Disconnecting)
    ensures var r, h := HandleClose(s, id), Then(s.conns[id].history, [Down, Closed]);
      && id in r.conns && r.conns[id].state == C.Disconnected && !r.conns[id].registered
      && r.conns[id].loop == s.conns[id].loop && (r.conns[id].history == h || r.conns[id].history == Then(h, [Erased]))
  {
  }

  lemma ForceTaskJoined(s: State, loop: nat, cc: C.Conn)
    requires Inv(s) && Q(s, loop) != [] && Q(s, loop)[0].ForceCloseInLoop? && Joined(s, Q(s, loop)[0].id, cc)
    ensures var a := RunTask(loop); Joined(Next(s, a), Q(s, loop)[0].id, ApplyAll(cc, ActionOf(s, a)))
  {
    hide Cnt, Inv, HandleClose;
    var t, p := Q(s, loop)[0], Popped(s, loop);
    HeadCounted(s, loop);
    PopCounts(s, loop);
    CloseQueues(p, t.id);
    Facts(s, t.id);
    var c := s.conns[t.id];
    assert Cnt(s, loop, t) > 0 && cc.forceCloses > 0;
    if c.state == C.Connected || c.state == C.Disconnecting {
      Closes(p, t.id);
      CloseFits(c, HandleClose(p, t.id).conns[t.id], cc.(forceCloses := cc.forceCloses - 1));
    }
  }

  lemma PeerJoined(s: State, id: nat, cc: C.Conn)
    requires Inv(s) && Enabled(s, PeerCloses(id)) && Joined(s, id, cc)
    ensures var a := PeerCloses(id); Joined(Next(s, a), id, ApplyAll(cc, ActionOf(s, a)))
  {
    hide Cnt, Inv, HandleClose;
    Facts(s, id);
    CloseQueues(s, id);
    Closes(s, id);
    CloseFits(s.conns[id], HandleClose(s, id).conns[id], cc);
  }

  lemma UserJoined(s: State, a: Step, cc: C.Conn)
    requires Inv(s) && Enabled(s, a) && (a.Shutdown? || a.ForceClose?) && Joined(s, a.id, cc)
    ensures Joined(Next(s, a), a.id, ApplyAll(cc, ActionOf(s, a)))
  {
    hide Cnt, Inv;
    var r, c := Next(s, a), s.conns[a.id];
    if a.Shutdown? {
      SameQueues(s, r);
    } else {
      var s1 := SetConn(s, a.id, c.(state := C.Disconnecting));
      SameQueues(s, s1);
      QueueCounts(s1, c.loop, ForceCloseInLoop(a.id));
    }
  }

  lemma StepJoined(s: State, a: Step, id: nat, cc: C.Conn)
    requires Inv(s) && Enabled(s, a) && Joined(s, id, cc)
    ensures Joined(Next(s, a), id, ApplyAll(cc, if Subject(s, a) == id then ActionOf(s, a) else []))
  {
    if Subject(s, a) != id {
      OthersUntouched(s, a, id);
      hide Cnt, Inv, Next;
    } else {
      hide Joined, Inv, Next, ActionOf;
      match a
      case Accept(loop) => AcceptJoined(s, loop, cc);
      case RunTask(loop) =>
        if Q(s, loop)[0].ForceCloseInLoop? { ForceTaskJoined(s, loop, cc); } else { TaskJoined(s, loop, cc); }
      case PeerCloses(_) => PeerJoined(s, id, cc);
      case Shutdown(_) => UserJoined(s, a, cc);
      case ForceClose(_) => UserJoined(s, a, cc);
    }
  }

  lemma RunSnoc(actions: seq<C.Action>, more: seq<C.Action>)
    requires |more| <= 1
    ensures C.Run(actions + more) == ApplyAll(C.Run(actions), more)
  {
    if more == [] {
      assert actions + more == actions;
    } else {
      assert (actions + more)[..|actions|] == actions;
    }
  }

  lemma {:induction false} RunJoined(steps: seq<Step>, id: nat)
    requires IsRun(steps)
    ensures Joined(After(steps), id, C.Run(Actions(steps, id)))
    decreases |steps|
  {
    hide Joined, Inv, Next;
    if steps == [] {
      NotThereYet(id);
    } else {
      var init, a := steps[..|steps| - 1], steps[|steps| - 1];
      RunKeepsInv(init);
      RunJoined(init, id);
      var s := After(init);
      StepJoined(s, a, id, C.Run(Actions(init, id)));
      RunSnoc(Actions(init, id), if Subject(s, a) == id then ActionOf(s, a) else []);
    }
  }

  lemma NotThereYet(id: nat)
    ensures Joined(INIT, id, C.Run([]))
  {
  }

  /**
   In every interleaving of the loops, each connection is in the state in which its own sequence
   of actions leaves a connection by itself, with the same registration and callbacks.
   */
  lemma EachConnectionIsARun(steps: seq<Step>, id: nat)
    requires IsRun(steps) && id in After(steps).conns
    ensures Projects(After(steps).conns[id], C.Run(Actions(steps, id)))
  {
    RunJoined(steps, id);
    RunKeepsInv(steps);
    Facts(After(steps), id);
    Ages(After(steps).conns[id], id in After(steps).connections);
  }
}
