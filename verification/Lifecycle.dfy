/**
 The life of the connections of a TCP server across its accepting loop (number 0) and any
 number of I/O loops. Each loop runs its queued tasks in order; accepting, peers closing, and
 users calling Shutdown or ForceClose from any thread interleave with them freely.
 */
module Lifecycle {
  import C = Connections

  /** What happens to a connection, in the order in which it must happen. */
  datatype Event = Inserted | Established | Up | Down | Closed | Erased | Destroyed

  const LIFE := [Inserted, Established, Up, Down, Closed, Erased, Destroyed]

  datatype Conn = Conn(loop: nat, state: C.ConnState, registered: bool, history: seq<Event>)

  datatype Task = Establish(id: nat) | ForceCloseInLoop(id: nat) | Remove(id: nat) | Destroy(id: nat)

  /** `aborted` records that an assertion of the source has failed. */
  datatype State = State(conns: map<nat, Conn>, connections: set<nat>, queues: map<nat, seq<Task>>,
                         nextId: nat, aborted: bool)

  datatype Step =
    | Accept(loop: nat)
    | RunTask(loop: nat)
    | PeerCloses(id: nat)
    | Shutdown(id: nat)
    | ForceClose(id: nat)

  const INIT := State(map[], {}, map[], 1, false)

  function Q(s: State, loop: nat): seq<Task> { if loop in s.queues then s.queues[loop] else [] }

  function QueueInLoop(s: State, loop: nat, t: Task): State {
    s.(queues := s.queues[loop := Q(s, loop) + [t]])
  }

  function SetConn(s: State, id: nat, c: Conn): State { s.(conns := s.conns[id := c]) }

  /** A history with further events. */
  function Then(h: seq<Event>, events: seq<Event>): seq<Event> { h + events }

  // ---------------------------------------------------------------- the code of the source

  function ConnectEstablished(s: State, id: nat): State {
    if id !in s.conns || s.conns[id].state != C.Connecting then s.(aborted := true) else
    var c := s.conns[id];
    SetConn(s, id, c.(state := C.Connected, registered := true, history := Then(c.history, [Established, Up])))
  }

  function ConnectDestroyed(s: State, id: nat): State {
    if id !in s.conns then s.(aborted := true) else
    var c := s.conns[id];
    if c.state == C.Connected
    then SetConn(s, id, c.(state := C.Disconnected, registered := false, history := Then(c.history, [Down, Destroyed])))
    else SetConn(s, id, c.(history := Then(c.history, [Destroyed])))
  }

  function RemoveConnectionInLoop(s: State, id: nat): State {
    if id !in s.conns || id !in s.connections then s.(aborted := true) else
    var c := s.conns[id];
    QueueInLoop(SetConn(s, id, c.(history := Then(c.history, [Erased]))).(connections := s.connections - {id}),
                c.loop, Destroy(id))
  }

  /** Runs on the connection's loop; RunInLoop is immediate when that is the accepting loop. */
  function HandleClose(s: State, id: nat): State {
    if id !in s.conns || !(s.conns[id].state == C.Connected || s.conns[id].state == C.Disconnecting)
    then s.(aborted := true) else
    var c := s.conns[id];
    var c1 := c.(state := C.Disconnected, registered := false, history := Then(c.history, [Down, Closed]));
    var s1 := SetConn(s, id, c1);
    if c.loop == 0 then RemoveConnectionInLoop(s1, id) else QueueInLoop(s1, 0, Remove(id))
  }

  function NewConnection(s: State, loop: nat): State {
    var id := s.nextId;
    var s1 := SetConn(s, id, Conn(loop, C.Connecting, false, [Inserted]))
              .(connections := s.connections + {id}, nextId := id + 1);
    if loop == 0 then ConnectEstablished(s1, id) else QueueInLoop(s1, loop, Establish(id))
  }

  function Exec(s: State, t: Task): State {
    match t
    case Establish(id) => ConnectEstablished(s, id)
    case Remove(id) => RemoveConnectionInLoop(s, id)
    case Destroy(id) => ConnectDestroyed(s, id)
    case ForceCloseInLoop(id) =>
      if id in s.conns && (s.conns[id].state == C.Connected || s.conns[id].state == C.Disconnecting)
      then HandleClose(s, id) else s
  }

  predicate Enabled(s: State, a: Step) {
    match a
    case Accept(_) => true
    case RunTask(loop) => Q(s, loop) != []
    case PeerCloses(id) => id in s.conns && s.conns[id].registered
    case Shutdown(id) => id in s.conns
    case ForceClose(id) => id in s.conns
  }

  function Next(s: State, a: Step): State
    requires Enabled(s, a)
  {
    match a
    case Accept(loop) => NewConnection(s, loop)
    case RunTask(loop) => Exec(s.(queues := s.queues[loop := Q(s, loop)[1..]]), Q(s, loop)[0])
    case PeerCloses(id) => HandleClose(s, id)
    case Shutdown(id) =>
      if s.conns[id].state == C.Connected
      then SetConn(s, id, s.conns[id].(state := C.Disconnecting)) else s
    case ForceClose(id) =>
      if s.conns[id].state == C.Connected || s.conns[id].state == C.Disconnecting
      then QueueInLoop(SetConn(s, id, s.conns[id].(state := C.Disconnecting)), s.conns[id].loop, ForceCloseInLoop(id))
      else s
  }

  // ---------------------------------------------------------------- the invariant

  /** How often a task is queued on a loop. */
  function Cnt(s: State, loop: nat, t: Task): nat { Count(Q(s, loop), t) }

  function Count(q: seq<Task>, t: Task): nat {
    if q == [] then 0
    else Count(q[..|q| - 1], t) + if q[|q| - 1] == t then 1 else 0
  }

  /** How far the connection has come: the length of its history. */
  function Age(c: Conn): nat { |c.history| }

  ghost predicate Life(h: seq<Event>) { h <= LIFE }

  /** How a history grows. */
  lemma Grow(h: seq<Event>)
    requires Life(h)
    ensures Life([Inserted])
    ensures forall events :: |Then(h, events)| == |h| + |events|
    ensures |h| == 1 ==> Life(Then(h, [Established, Up]))
    ensures |h| == 3 ==> Life(Then(h, [Down, Closed]))
    ensures |h| == 5 ==> Life(Then(h, [Erased]))
    ensures |h| == 6 ==> Life(Then(h, [Destroyed]))
  {
    assert h == LIFE[..|h|];
    assert [Inserted] == LIFE[..1];
    if |h| == 1 { assert Then(h, [Established, Up]) == LIFE[..3]; }
    if |h| == 3 { assert Then(h, [Down, Closed]) == LIFE[..5]; }
    if |h| == 5 { assert Then(h, [Erased]) == LIFE[..6]; }
    if |h| == 6 { assert Then(h, [Destroyed]) == LIFE[..7]; }
  }

  /** The history is a beginning of a life, and the other fields are what that age calls for. */
  ghost predicate ConnOk(c: Conn, listed: bool) {
    && Life(c.history)
    && (c.registered <==> Age(c) == 3)
    && match Age(c)
       case 1 => c.state == C.Connecting && listed
       case 3 => (c.state == C.Connected || c.state == C.Disconnecting) && listed
       case 5 => c.state == C.Disconnected && listed && c.loop != 0
       case 6 => c.state == C.Disconnected && !listed
       case 7 => c.state == C.Disconnected && !listed
       case _ => false
  }

  /** What carries a connection to its next age is queued once, on the right loop only. */
  ghost predicate CountsOk(s: State, id: nat, c: Conn) {
    forall loop: nat ::
      && Cnt(s, loop, Establish(id)) == (if loop == c.loop && Age(c) == 1 then 1 else 0)
      && Cnt(s, loop, Remove(id)) == (if loop == 0 && Age(c) == 5 then 1 else 0)
      && Cnt(s, loop, Destroy(id)) == (if loop == c.loop && Age(c) == 6 then 1 else 0)
      && (Cnt(s, loop, ForceCloseInLoop(id)) > 0 ==> Age(c) >= 3)
  }

  ghost predicate IdOk(s: State, id: nat) {
    && id in s.conns
    && ConnOk(s.conns[id], id in s.connections)
    && CountsOk(s, id, s.conns[id])
  }

  ghost predicate NoTasks(s: State, id: nat) {
    forall loop: nat, t: Task :: t.id == id ==> Cnt(s, loop, t) == 0
  }

  ghost predicate Inv(s: State) {
    && !s.aborted
    && (forall id :: id in s.conns ==> id < s.nextId && IdOk(s, id))
    && (forall id :: id in s.connections ==> id in s.conns)
    && (forall id :: id !in s.conns ==> NoTasks(s, id))
  }

  // ---------------------------------------------------------------- one connection at a time

  lemma {:induction false} CountPop(q: seq<Task>, t: Task)
    requires q != []
    ensures Count(q, t) == Count(q[1..], t) + if q[0] == t then 1 else 0
  {
    if |q| > 1 {
      CountPop(q[..|q| - 1], t);
      assert q[..|q| - 1][1..] == q[1..][..|q| - 2];
    }
  }

  lemma QueueCounts(s: State, loop: nat, t: Task)
    ensures var r := QueueInLoop(s, loop, t); r == s.(queues := r.queues)
    ensures var r := QueueInLoop(s, loop, t);
      forall l: nat, u: Task :: Cnt(r, l, u) == Cnt(s, l, u) + if l == loop && u == t then 1 else 0
  {
    assert (Q(s, loop) + [t])[..|Q(s, loop)|] == Q(s, loop);
  }

  function Popped(s: State, loop: nat): State
    requires Q(s, loop) != []
  {
    s.(queues := s.queues[loop := Q(s, loop)[1..]])
  }

  lemma PopCounts(s: State, loop: nat)
    requires Q(s, loop) != []
    ensures var r := Popped(s, loop); r == s.(queues := r.queues)
    ensures var r := Popped(s, loop);
      forall l: nat, u: Task :: Cnt(s, l, u) == Cnt(r, l, u) + if l == loop && u == Q(s, loop)[0] then 1 else 0
  {
    forall u: Task { CountPop(Q(s, loop), u); }
  }

  /** Nothing but connection `id` differs between the two states. */
  ghost predicate SameElse(s: State, r: State, id: nat) {
    && (forall x :: x != id ==> (x in r.conns <==> x in s.conns) && (x in r.connections <==> x in s.connections))
    && (forall x :: x != id && x in s.conns && x in r.conns ==> r.conns[x] == s.conns[x])
    && (forall l: nat, u: Task :: u.id != id ==> Cnt(r, l, u) == Cnt(s, l, u))
  }

  lemma Assemble(s: State, r: State, id: nat)
    requires Inv(s) && SameElse(s, r, id) && !r.aborted && s.nextId <= r.nextId && id < r.nextId && IdOk(r, id)
    ensures Inv(r)
  {
    hide ConnOk, Cnt, Count;
    forall x | x in r.conns ensures x < r.nextId && IdOk(r, x) {
      if x != id {
        assert IdOk(s, x);
      }
    }
    forall x | x !in r.conns ensures NoTasks(r, x) {
      assert NoTasks(s, x);
    }
  }

  /** The facts a case needs about the connection it works on. */
  lemma Facts(s: State, id: nat)
    requires Inv(s) && id in s.conns
    ensures id < s.nextId && IdOk(s, id) && !s.aborted
  {
  }

  lemma FreshId(s: State)
    requires Inv(s)
    ensures s.nextId !in s.conns && NoTasks(s, s.nextId) && !s.aborted
  {
  }

  lemma AcceptKeepsInv(s: State, loop: nat)
    requires Inv(s)
    ensures Inv(NewConnection(s, loop))
  {
    hide Cnt, Count, Q, Inv, Life, QueueInLoop, Popped, Then;
    var id := s.nextId;
    FreshId(s);
    var s1 := SetConn(s, id, Conn(loop, C.Connecting, false, [Inserted]))
              .(connections := s.connections + {id}, nextId := id + 1);
    Grow([]);
    Grow([Inserted]);
    SameQueues(s, s1);
    QueueCounts(s1, loop, Establish(id));
    var r := NewConnection(s, loop);
    if loop == 0 {
      SameQueues(s1, r);
    }
    assert IdOk(r, id);
    Assemble(s, r, id);
  }

  lemma SameQueues(s: State, r: State)
    requires s.queues == r.queues
    ensures forall l: nat, u: Task :: Cnt(r, l, u) == Cnt(s, l, u)
  {
  }

  /** Closing, from an event or a task: `s` is the state before, `p` that in which the code runs. */
  lemma CloseKeepsInv(s: State, p: State, id: nat)
    requires Inv(s) && id in s.conns && Age(s.conns[id]) == 3
    requires p == s.(queues := p.queues)
    requires forall l: nat, u: Task :: u != ForceCloseInLoop(id) ==> Cnt(p, l, u) == Cnt(s, l, u)
    ensures Inv(HandleClose(p, id))
  {
    hide Cnt, Count, Q, Inv, Life, QueueInLoop, Popped, Then;
    Facts(s, id);
    var c := s.conns[id];
    var r := HandleClose(p, id);
    var c1 := c.(state := C.Disconnected, registered := false, history := Then(c.history, [Down, Closed]));
    var s1 := SetConn(p, id, c1);
    SameQueues(p, s1);
    Grow(c.history);
    Grow(c1.history);
    if c.loop == 0 {
      var c2 := c1.(history := Then(c1.history, [Erased]));
      var s2 := SetConn(s1, id, c2).(connections := s1.connections - {id});
      SameQueues(s1, s2);
      QueueCounts(s2, 0, Destroy(id));
      assert r == QueueInLoop(s2, 0, Destroy(id));
    } else {
      QueueCounts(s1, 0, Remove(id));
    }
    assert IdOk(r, id);
    Assemble(s, r, id);
  }

  lemma EstablishKeepsInv(s: State, loop: nat)
    requires Inv(s) && Q(s, loop) != [] && Q(s, loop)[0].Establish?
    ensures Inv(ConnectEstablished(Popped(s, loop), Q(s, loop)[0].id))
  {
    hide Cnt, Count, Q, Inv, Life, QueueInLoop, Popped, Then;
    var t := Q(s, loop)[0];
    HeadCounted(s, loop);
    PopCounts(s, loop);
    Facts(s, t.id);
    assert Cnt(s, loop, t) > 0;
    var p := Popped(s, loop);
    var r := ConnectEstablished(p, t.id);
    SameQueues(p, r);
    Grow(s.conns[t.id].history);
    assert IdOk(r, t.id);
    Assemble(s, r, t.id);
  }

  /** A task at the head of a queue is counted, so its connection exists. */
  lemma HeadCounted(s: State, loop: nat)
    requires Inv(s) && Q(s, loop) != []
    ensures var t := Q(s, loop)[0]; Cnt(s, loop, t) > 0 && t.id in s.conns
  {
    var t := Q(s, loop)[0];
    CountPop(Q(s, loop), t);
    if t.id !in s.conns {
      assert NoTasks(s, t.id);
    }
  }

  lemma RemoveKeepsInv(s: State, loop: nat)
    requires Inv(s) && Q(s, loop) != [] && Q(s, loop)[0].Remove?
    ensures Inv(RemoveConnectionInLoop(Popped(s, loop), Q(s, loop)[0].id))
  {
    hide Cnt, Count, Q, Inv, Life, QueueInLoop, Popped, Then;
    var t := Q(s, loop)[0];
    HeadCounted(s, loop);
    PopCounts(s, loop);
    Facts(s, t.id);
    assert Cnt(s, loop, t) > 0;
    var c := s.conns[t.id];
    var p := Popped(s, loop);
    var c1 := c.(history := Then(c.history, [Erased]));
    Grow(c.history);
    var s1 := SetConn(p, t.id, c1).(connections := s.connections - {t.id});
    SameQueues(p, s1);
    QueueCounts(s1, c.loop, Destroy(t.id));
    var r := RemoveConnectionInLoop(p, t.id);
    assert r == QueueInLoop(s1, c.loop, Destroy(t.id));
    assert IdOk(r, t.id);
    Assemble(s, r, t.id);
  }

  /** A queued removal takes exactly one entry out of the table, and then one destruction is queued. */
  lemma RemovalFindsItsEntry(s: State, loop: nat)
    requires Inv(s) && Q(s, loop) != [] && Q(s, loop)[0].Remove?
    ensures var id := Q(s, loop)[0].id; var r := RemoveConnectionInLoop(Popped(s, loop), id);
      && id in s.connections && r.connections == s.connections - {id} && !r.aborted
      && id in r.conns && Cnt(r, r.conns[id].loop, Destroy(id)) == 1
  {
    var t := Q(s, loop)[0];
    RemoveKeepsInv(s, loop);
    HeadCounted(s, loop);
    Facts(s, t.id);
    Facts(RemoveConnectionInLoop(Popped(s, loop), t.id), t.id);
  }

  lemma DestroyKeepsInv(s: State, loop: nat)
    requires Inv(s) && Q(s, loop) != [] && Q(s, loop)[0].Destroy?
    ensures Inv(ConnectDestroyed(Popped(s, loop), Q(s, loop)[0].id))
  {
    hide Cnt, Count, Q, Inv, Life, QueueInLoop, Popped, Then;
    var t := Q(s, loop)[0];
    HeadCounted(s, loop);
    PopCounts(s, loop);
    Facts(s, t.id);
    assert Cnt(s, loop, t) > 0;
    var p := Popped(s, loop);
    var r := ConnectDestroyed(p, t.id);
    SameQueues(p, r);
    Grow(s.conns[t.id].history);
    assert IdOk(r, t.id);
    Assemble(s, r, t.id);
  }

  lemma ForceTaskKeepsInv(s: State, loop: nat)
    requires Inv(s) && Q(s, loop) != [] && Q(s, loop)[0].ForceCloseInLoop?
    ensures Inv(Exec(Popped(s, loop), Q(s, loop)[0]))
  {
    hide Cnt, Count, Q, Inv, Life, QueueInLoop, Popped, Then;
    var t := Q(s, loop)[0];
    HeadCounted(s, loop);
    PopCounts(s, loop);
    Facts(s, t.id);
    var p := Popped(s, loop);
    if Age(s.conns[t.id]) == 3 {
      CloseKeepsInv(s, p, t.id);
    } else {
      assert Cnt(s, loop, t) > 0;
      assert IdOk(p, t.id);
      Assemble(s, p, t.id);
    }
  }

  lemma UserKeepsInv(s: State, a: Step)
    requires Inv(s) && Enabled(s, a) && (a.Shutdown? || a.ForceClose?)
    ensures Inv(Next(s, a))
  {
    hide Cnt, Count, Q, Inv, Life, QueueInLoop, Popped, Then;
    Facts(s, a.id);
    var c := s.conns[a.id];
    var s1 := SetConn(s, a.id, c.(state := C.Disconnecting));
    SameQueues(s, s1);
    QueueCounts(s1, c.loop, ForceCloseInLoop(a.id));
    var r := Next(s, a);
    if r != s {
      assert IdOk(r, a.id);
      Assemble(s, r, a.id);
    }
  }

  lemma StepKeepsInv(s: State, a: Step)
    requires Inv(s) && Enabled(s, a)
    ensures Inv(Next(s, a))
  {
    match a
    case Accept(loop) => AcceptKeepsInv(s, loop);
    case PeerCloses(id) =>
      Facts(s, id);
      CloseKeepsInv(s, s, id);
    case RunTask(loop) =>
      hide Inv, ConnectEstablished, RemoveConnectionInLoop, ConnectDestroyed, HandleClose;
      match Q(s, loop)[0] {
        case Establish(_) => EstablishKeepsInv(s, loop);
        case Remove(_) => RemoveKeepsInv(s, loop);
        case Destroy(_) => DestroyKeepsInv(s, loop);
        case ForceCloseInLoop(_) => ForceTaskKeepsInv(s, loop);
      }
    case Shutdown(_) => UserKeepsInv(s, a);
    case ForceClose(_) => UserKeepsInv(s, a);
  }

  // ---------------------------------------------------------------- every run

  predicate IsRun(steps: seq<Step>)
    decreases |steps|
  {
    steps == [] ||
    (IsRun(steps[..|steps| - 1]) && Enabled(After(steps[..|steps| - 1]), steps[|steps| - 1]))
  }

  function After(steps: seq<Step>): State
    decreases |steps|
  {
    if steps == [] then INIT
    else
      var s := After(steps[..|steps| - 1]);
      if Enabled(s, steps[|steps| - 1]) then Next(s, steps[|steps| - 1]) else s
  }

  lemma {:induction false} RunKeepsInv(steps: seq<Step>)
    requires IsRun(steps)
    ensures Inv(After(steps))
    decreases |steps|
  {
    if steps != [] {
      RunKeepsInv(steps[..|steps| - 1]);
      hide Inv, Next;
      StepKeepsInv(After(steps[..|steps| - 1]), steps[|steps| - 1]);
    }
  }

  /** A beginning of one life, with the registration and the table entry that go with it. */
  predicate Orderly(c: Conn, listed: bool) {
    && c.history <= LIFE
    && (c.registered <==> Up in c.history && Down !in c.history)
    && (listed <==> Erased !in c.history)
    && (c.registered ==> listed)
  }

  /**
   Over all interleavings, what has happened to each connection is a beginning of one life:
   inserted, established once, up once, down once, closed once, erased once, destroyed. It is
   registered with epoll only between up and down, and then it is in the server's table. No
   assertion fails: in particular every erase finds exactly one entry.
   */
  lemma LifecycleIsOrderly(steps: seq<Step>, id: nat)
    requires IsRun(steps) && id in After(steps).conns
    ensures !After(steps).aborted && Orderly(After(steps).conns[id], id in After(steps).connections)
  {
    RunKeepsInv(steps);
    Facts(After(steps), id);
    var h := After(steps).conns[id].history;
    assert h == LIFE[..|h|];
    LifePrefix(|h|);
  }

  /** No connection leaks: when no loop has a task queued, each is either registered or has had its whole life. */
  lemma NoConnectionLeaks(steps: seq<Step>, id: nat)
    requires IsRun(steps) && id in After(steps).conns && forall loop: nat :: Q(After(steps), loop) == []
    ensures var c := After(steps).conns[id]; c.registered || c.history == LIFE
  {
    var s := After(steps);
    RunKeepsInv(steps);
    Facts(s, id);
    var c := s.conns[id];
    assert Cnt(s, c.loop, Establish(id)) == 0 && Cnt(s, 0, Remove(id)) == 0 && Cnt(s, c.loop, Destroy(id)) == 0;
  }

  lemma {:induction false} RunPrefix(steps: seq<Step>, n: nat)
    requires IsRun(steps) && n <= |steps|
    ensures IsRun(steps[..n]) && (n > 0 ==> Enabled(After(steps[..n - 1]), steps[n - 1]))
    decreases |steps|
  {
    if n == |steps| {
      assert steps[..n] == steps;
    } else {
      var m := |steps| - 1;
      assert steps[..m][..n] == steps[..n];
      assert n > 0 ==> steps[..m][..n - 1] == steps[..n - 1] && steps[..m][n - 1] == steps[n - 1];
      RunPrefix(steps[..m], n);
    }
  }

  lemma LifePrefix(k: nat)
    requires k <= |LIFE|
    ensures Up in LIFE[..k] <==> k >= 3
    ensures Down in LIFE[..k] <==> k >= 4
    ensures Erased in LIFE[..k] <==> k >= 6
  {
    assert LIFE[2] == Up && LIFE[3] == Down && LIFE[5] == Erased;
    if k >= 3 { assert LIFE[..k][2] == Up; }
    if k >= 4 { assert LIFE[..k][3] == Down; }
    if k >= 6 { assert LIFE[..k][5] == Erased; }
  }

  // ---------------------------------------------------------------- where connections live

  /** The loops connections were accepted for, in order. */
  function Accepts(steps: seq<Step>): seq<nat>
    decreases |steps|
  {
    if steps == [] then [] else
    var a := steps[|steps| - 1];
    Accepts(steps[..|steps| - 1]) + if a.Accept? then [a.loop] else []
  }

  lemma StepKeepsLoops(s: State, a: Step)
    requires Inv(s) && Enabled(s, a)
    ensures var r := Next(s, a);
      && r.nextId == s.nextId + (if a.Accept? then 1 else 0)
      && r.conns.Keys == s.conns.Keys + (if a.Accept? then {s.nextId} else {})
      && (forall x :: x in s.conns && x in r.conns ==> r.conns[x].loop == s.conns[x].loop)
      && (a.Accept? ==> r.conns[s.nextId].loop == a.loop)
  {
    hide Cnt, Count, CountsOk, NoTasks;
    if a.RunTask? { HeadCounted(s, a.loop); }
    if a.PeerCloses? { Facts(s, a.id); }
    if a.Accept? { FreshId(s); }
  }

  /** The n-th accepted connection is number n, and it stays for ever on the loop it was accepted for. */
  lemma {:induction false} ConnectionsStayOnTheirLoop(steps: seq<Step>)
    requires IsRun(steps)
    ensures var s := After(steps);
      && s.nextId == 1 + |Accepts(steps)|
      && (forall id :: id in s.conns <==> 1 <= id <= |Accepts(steps)|)
      && (forall id :: id in s.conns ==> s.conns[id].loop == Accepts(steps)[id - 1])
    decreases |steps|
  {
    if steps != [] {
      var init, a := steps[..|steps| - 1], steps[|steps| - 1];
      ConnectionsStayOnTheirLoop(init);
      RunKeepsInv(init);
      hide Inv, Next;
      StepKeepsLoops(After(init), a);
      var s := After(steps);
      forall id | id in s.conns ensures 1 <= id <= |Accepts(steps)| && s.conns[id].loop == Accepts(steps)[id - 1] {
        assert id in s.conns.Keys;
      }
      forall id | 1 <= id <= |Accepts(steps)| ensures id in s.conns {
        assert id in s.conns.Keys;
      }
    }
  }

  // ---------------------------------------------------------------- tasks run in the order of posting

  /** A connection that closes has its removal queued, or when it lives on the accepting loop its destruction. */
  function ClosePosts(home: nat, id: nat, loop: nat): seq<Task> {
    if loop != 0 then [] else if home == 0 then [Destroy(id)] else [Remove(id)]
  }

  predicate Live(s: State, id: nat) {
    id in s.conns && (s.conns[id].state == C.Connected || s.conns[id].state == C.Disconnecting)
  }

  /** What a step posts to a loop. */
  function PostedTo(s: State, a: Step, loop: nat): seq<Task>
    requires Enabled(s, a)
  {
    match a
    case Accept(l) => if l == loop && loop != 0 then [Establish(s.nextId)] else []
    case PeerCloses(id) => ClosePosts(s.conns[id].loop, id, loop)
    case Shutdown(_) => []
    case ForceClose(id) => if Live(s, id) && loop == s.conns[id].loop then [ForceCloseInLoop(id)] else []
    case RunTask(l) =>
      match Q(s, l)[0]
      case ForceCloseInLoop(id) => if Live(s, id) then ClosePosts(s.conns[id].loop, id, loop) else []
      case Remove(id) => if id in s.conns && loop == s.conns[id].loop then [Destroy(id)] else []
      case _ => []
  }

  /** A step appends what it posts; running takes from the front. */
  lemma StepPosts(s: State, a: Step, loop: nat)
    requires Inv(s) && Enabled(s, a)
    ensures Q(Next(s, a), loop) ==
            (if a == RunTask(loop) then Q(s, loop)[1..] else Q(s, loop)) + PostedTo(s, a, loop)
  {
    hide Cnt, Count, CountsOk, NoTasks;
    var rest := if a == RunTask(loop) then Q(s, loop)[1..] else Q(s, loop);
    assert rest + [] == rest;
    if a.RunTask? {
      HeadCounted(s, a.loop);
      Facts(s, Q(s, a.loop)[0].id);
      if Q(s, a.loop)[0].Remove? { RemovalFindsItsEntry(s, a.loop); }
    }
    if a.PeerCloses? { Facts(s, a.id); }
    if a.Accept? { FreshId(s); }
  }

  /** All that was posted to a loop, in order. */
  function Posted(steps: seq<Step>, loop: nat): seq<Task>
    requires IsRun(steps)
    decreases |steps|
  {
    if steps == [] then [] else
    var init, a := steps[..|steps| - 1], steps[|steps| - 1];
    Posted(init, loop) + PostedTo(After(init), a, loop)
  }

  /** What the loop has run. */
  function Ran(steps: seq<Step>, loop: nat): seq<Task>
    requires IsRun(steps)
    decreases |steps|
  {
    if steps == [] then [] else
    var init, a := steps[..|steps| - 1], steps[|steps| - 1];
    Ran(init, loop) + if a == RunTask(loop) then [Q(After(init), loop)[0]] else []
  }

  /** Every loop runs its tasks first in, first out: those run and those still queued are those posted. */
  lemma {:induction false} TasksRunInOrder(steps: seq<Step>, loop: nat)
    requires IsRun(steps)
    ensures Ran(steps, loop) + Q(After(steps), loop) == Posted(steps, loop)
    decreases |steps|
  {
    if steps != [] {
      var init, a := steps[..|steps| - 1], steps[|steps| - 1];
      var s := After(init);
      TasksRunInOrder(init, loop);
      RunKeepsInv(init);
      hide Inv, Next, PostedTo;
      StepPosts(s, a, loop);
      if a == RunTask(loop) {
        assert Q(s, loop) == [Q(s, loop)[0]] + Q(s, loop)[1..];
      }
    }
  }
}
