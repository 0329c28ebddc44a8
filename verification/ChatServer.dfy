/**
 The threaded chat server's connection set. It is shared by pointer: a change copies the set
 first unless the server holds the only pointer, and a broadcast iterates over the set it took
 a pointer to, without the lock. Threads interleave between the steps below.
 */
module ChatServer {
  import opened Sequences

  datatype Change = Change(conn: nat, up: bool)

  /** `at` is the number of changes made when the pointer was taken. */
  datatype Broadcast = Broadcast(list: nat, at: nat, sent: seq<nat>, done: bool)

  /**
   The mutex: free, or held by a change that has just entered, has found the set shared, has
   made a copy, or has the set to itself.
   */
  datatype Lock =
    | Free
    | Entered(change: Change)
    | Shared(change: Change)
    | Copied(change: Change, copy: nat)
    | Unshared(change: Change)

  /** `lists` are the sets in memory with the use counts of the pointers to them. */
  datatype State = State(lists: map<nat, set<nat>>, refs: map<nat, nat>, current: nat, nextId: nat,
                         lock: Lock, changes: seq<Change>, broadcasts: map<nat, Broadcast>)

  datatype Step =
    | Acquire(change: Change)
    | Test
    | Copy
    | Reset
    | Mutate
    | Snapshot(b: nat)
    | SendTo(b: nat, conn: nat)
    | Finish(b: nat)

  const INIT := State(map[0 := {}], map[0 := 1], 0, 1, Free, [], map[])

  predicate Active(s: State, b: nat) { b in s.broadcasts && !s.broadcasts[b].done }

  predicate AllSent(members: set<nat>, sent: seq<nat>) { forall c :: c in members ==> c in sent }

  predicate Enabled(s: State, a: Step) {
    match a
    case Acquire(_) => s.lock.Free?
    case Test => s.lock.Entered? && s.current in s.refs
    case Copy => s.lock.Shared? && s.current in s.lists
    case Reset => s.lock.Copied? && s.current in s.refs
    case Mutate => s.lock.Unshared? && s.current in s.lists
    case Snapshot(b) => s.lock.Free? && b !in s.broadcasts && s.current in s.refs
    case SendTo(b, conn) =>
      && Active(s, b) && s.broadcasts[b].list in s.lists
      && conn in s.lists[s.broadcasts[b].list] && conn !in s.broadcasts[b].sent
    case Finish(b) =>
      && Active(s, b) && s.broadcasts[b].list in s.lists && s.broadcasts[b].list in s.refs
      && AllSent(s.lists[s.broadcasts[b].list], s.broadcasts[b].sent)
  }

  /** Gives a pointer up; the last one frees the set. */
  function Release(s: State, l: nat): State
    requires l in s.refs
  {
    if s.refs[l] <= 1 then s.(lists := s.lists - {l}, refs := s.refs - {l})
    else s.(refs := s.refs[l := s.refs[l] - 1])
  }

  function Changed(members: set<nat>, c: Change): set<nat> {
    if c.up then members + {c.conn} else members - {c.conn}
  }

  function Next(s: State, a: Step): State
    requires Enabled(s, a)
  {
    match a
    case Acquire(change) => s.(lock := Entered(change))
    case Test => s.(lock := if s.refs[s.current] == 1 then Unshared(s.lock.change) else Shared(s.lock.change))
    case Copy =>
      s.(lists := s.lists[s.nextId := s.lists[s.current]], refs := s.refs[s.nextId := 1],
         nextId := s.nextId + 1, lock := Copied(s.lock.change, s.nextId))
    case Reset => Release(s, s.current).(current := s.lock.copy, lock := Unshared(s.lock.change))
    case Mutate =>
      s.(lists := s.lists[s.current := Changed(s.lists[s.current], s.lock.change)],
         changes := s.changes + [s.lock.change], lock := Free)
    case Snapshot(b) =>
      s.(broadcasts := s.broadcasts[b := Broadcast(s.current, |s.changes|, [], false)],
         refs := s.refs[s.current := s.refs[s.current] + 1])
    case SendTo(b, conn) =>
      s.(broadcasts := s.broadcasts[b := s.broadcasts[b].(sent := s.broadcasts[b].sent + [conn])])
    case Finish(b) =>
      Release(s.(broadcasts := s.broadcasts[b := s.broadcasts[b].(done := true)]), s.broadcasts[b].list)
  }

  // ---------------------------------------------------------------- reference

  /** Who is connected after the given changes. */
  function Members(changes: seq<Change>): set<nat> {
    if changes == [] then {}
    else Changed(Members(changes[..|changes| - 1]), changes[|changes| - 1])
  }

  /** The last change of this connection was that it came up. */
  ghost predicate IsUp(changes: seq<Change>, c: nat) {
    exists i :: 0 <= i < |changes| && changes[i] == Change(c, true) &&
                forall j :: i < j < |changes| ==> changes[j].conn != c
  }

  lemma {:induction false} MembersAreUp(changes: seq<Change>, c: nat)
    ensures c in Members(changes) <==> IsUp(changes, c)
  {
    if changes != [] {
      var n := |changes| - 1;
      var init := changes[..n];
      MembersAreUp(init, c);
      if changes[n].conn == c {
        assert changes[n].up ==> IsUp(changes, c) by { assert changes[n] == Change(c, changes[n].up); }
      } else {
        if IsUp(init, c) {
          var i :| 0 <= i < n && init[i] == Change(c, true) && forall j :: i < j < n ==> init[j].conn != c;
          assert changes[i] == Change(c, true);
        }
        if IsUp(changes, c) {
          var i :| 0 <= i <= n && changes[i] == Change(c, true) && forall j :: i < j <= n ==> changes[j].conn != c;
          assert init[i] == Change(c, true);
        }
      }
    }
  }

  // ---------------------------------------------------------------- the invariant

  function Holders(s: State, l: nat): set<nat> {
    set b | b in s.broadcasts && !s.broadcasts[b].done && s.broadcasts[b].list == l
  }

  /** The server's own pointers to a set: its field, and a copy it is about to put there. */
  function Own(s: State, l: nat): nat {
    (if l == s.current then 1 else 0) + if s.lock.Copied? && l == s.lock.copy then 1 else 0
  }

  ghost predicate CountOk(s: State, l: nat)
    requires l in s.refs
  {
    s.refs[l] == |Holders(s, l)| + Own(s, l) && s.refs[l] > 0
  }

  ghost predicate TableOk(s: State) {
    && s.current in s.lists && s.lists[s.current] == Members(s.changes)
    && (forall l :: l in s.lists <==> l in s.refs)
    && (forall l :: l in s.refs ==> l < s.nextId && CountOk(s, l))
    && (s.lock.Unshared? ==> s.refs[s.current] == 1)
    && (s.lock.Copied? ==>
          var c := s.lock.copy; c != s.current && c in s.lists && s.lists[c] == Members(s.changes) && s.refs[c] == 1)
  }

  /** A broadcast's set is still there, as it was when the pointer was taken. */
  ghost predicate BroadcastOk(s: State, b: nat)
    requires b in s.broadcasts
  {
    var x := s.broadcasts[b];
    && x.at <= |s.changes| && NoDup(x.sent)
    && (forall c :: c in x.sent ==> c in Members(s.changes[..x.at]))
    && (x.done ==> AllSent(Members(s.changes[..x.at]), x.sent))
    && (!x.done ==> x.list in s.lists && s.lists[x.list] == Members(s.changes[..x.at]))
  }

  ghost predicate Inv(s: State) {
    && TableOk(s)
    && forall b :: b in s.broadcasts ==> BroadcastOk(s, b)
  }

  // ---------------------------------------------------------------- every step

  lemma SameHolders(s: State, r: State)
    requires forall b :: Active(s, b) <==> Active(r, b)
    requires forall b :: Active(s, b) && Active(r, b) ==> s.broadcasts[b].list == r.broadcasts[b].list
    ensures forall l :: Holders(r, l) == Holders(s, l)
  {
    forall l ensures Holders(r, l) == Holders(s, l) {
      forall b ensures b in Holders(r, l) <==> b in Holders(s, l) {
        assert Active(s, b) <==> Active(r, b);
      }
    }
  }

  lemma NoHoldersYet(s: State)
    requires Inv(s)
    ensures Holders(s, s.nextId) == {}
  {
    forall b | Active(s, b) ensures s.broadcasts[b].list != s.nextId {
      assert BroadcastOk(s, b);
    }
  }

  /** The part of a step that concerns the table, when it leaves every pointer to a set alone but `l`'s. */
  lemma CountsKept(s: State, r: State, l: nat)
    requires forall x :: x in s.refs && x != l ==> CountOk(s, x)
    requires forall x :: x in r.refs && x != l ==> x in s.refs && r.refs[x] == s.refs[x]
    requires forall x :: x != l ==> Holders(r, x) == Holders(s, x) && Own(r, x) == Own(s, x)
    ensures forall x :: x in r.refs && x != l ==> CountOk(r, x)
  {
    hide Holders, Own;
    forall x | x in r.refs && x != l ensures CountOk(r, x) {
      assert CountOk(s, x);
    }
  }

  lemma LockTable(s: State, a: Step)
    requires TableOk(s) && Enabled(s, a) && (a.Acquire? || a == Test)
    ensures TableOk(Next(s, a))
  {
    hide Holders, Members;
    var r := Next(s, a);
    SameHolders(s, r);
    CountsKept(s, r, s.nextId);
  }

  lemma CopyTable(s: State)
    requires TableOk(s) && Enabled(s, Copy) && Holders(s, s.nextId) == {}
    ensures TableOk(Next(s, Copy))
  {
    hide Holders, Members;
    var r := Next(s, Copy);
    SameHolders(s, r);
    CountsKept(s, r, s.nextId);
    assert CountOk(r, s.nextId);
  }

  /** The old set may be freed here: another thread may have dropped its pointer since the test. */
  lemma ResetTable(s: State)
    requires TableOk(s) && Enabled(s, Reset)
    ensures TableOk(Next(s, Reset))
  {
    hide Holders, Members;
    var r := Next(s, Reset);
    SameHolders(s, r);
    assert CountOk(s, s.current) && CountOk(s, s.lock.copy);
    forall l | l in r.refs ensures l < r.nextId && CountOk(r, l) {
      assert CountOk(s, l);
    }
  }

  lemma MutateTable(s: State)
    requires TableOk(s) && Enabled(s, Mutate)
    ensures TableOk(Next(s, Mutate))
  {
    hide Holders, Members, Changed;
    var r := Next(s, Mutate);
    SameHolders(s, r);
    MembersSnoc(s.changes, s.lock.change);
    CountsKept(s, r, s.nextId);
  }

  lemma MembersSnoc(changes: seq<Change>, c: Change)
    ensures Members(changes + [c]) == Changed(Members(changes), c)
  {
    assert (changes + [c])[..|changes|] == changes;
  }

  lemma SnapshotHolders(s: State, b: nat)
    requires Enabled(s, Snapshot(b))
    ensures var r := Next(s, Snapshot(b));
      && |Holders(r, s.current)| == |Holders(s, s.current)| + 1
      && forall l :: l != s.current ==> Holders(r, l) == Holders(s, l)
  {
    var r := Next(s, Snapshot(b));
    forall l ensures Holders(r, l) == if l == s.current then Holders(s, l) + {b} else Holders(s, l) {
      forall x ensures x in Holders(r, l) <==> x in Holders(s, l) || (l == s.current && x == b) { }
    }
    assert b !in Holders(s, s.current);
  }

  lemma SnapshotTable(s: State, b: nat)
    requires TableOk(s) && Enabled(s, Snapshot(b))
    ensures TableOk(Next(s, Snapshot(b)))
  {
    hide Holders, Members;
    var r := Next(s, Snapshot(b));
    SnapshotHolders(s, b);
    assert CountOk(s, s.current);
    CountsKept(s, r, s.current);
    assert CountOk(r, s.current);
  }

  lemma SendTable(s: State, b: nat, conn: nat)
    requires TableOk(s) && Enabled(s, SendTo(b, conn))
    ensures TableOk(Next(s, SendTo(b, conn)))
  {
    hide Holders, Members;
    var r := Next(s, SendTo(b, conn));
    SameHolders(s, r);
    CountsKept(s, r, s.nextId);
  }

  lemma FinishHolders(s: State, b: nat)
    requires Enabled(s, Finish(b))
    ensures var r, list := Next(s, Finish(b)), s.broadcasts[b].list;
      && |Holders(r, list)| == |Holders(s, list)| - 1
      && forall l :: l != list ==> Holders(r, l) == Holders(s, l)
  {
    var r, list := Next(s, Finish(b)), s.broadcasts[b].list;
    assert b in Holders(s, list);
    assert Holders(r, list) == Holders(s, list) - {b};
  }

  lemma FinishTable(s: State, b: nat)
    requires TableOk(s) && Enabled(s, Finish(b))
    ensures TableOk(Next(s, Finish(b)))
  {
    hide Holders, Members;
    var r, list := Next(s, Finish(b)), s.broadcasts[b].list;
    FinishHolders(s, b);
    assert CountOk(s, list);
    CountsKept(s, r, list);
    if list in r.refs {
      assert CountOk(r, list);
    }
  }

  lemma TableStep(s: State, a: Step)
    requires Inv(s) && Enabled(s, a)
    ensures TableOk(Next(s, a))
  {
    hide TableOk, Holders, Next, Enabled;
    match a
    case Acquire(_) => LockTable(s, a);
    case Test => LockTable(s, a);
    case Copy =>
      NoHoldersYet(s);
      CopyTable(s);
    case Reset => ResetTable(s);
    case Mutate => MutateTable(s);
    case Snapshot(b) => SnapshotTable(s, b);
    case SendTo(b, conn) => SendTable(s, b, conn);
    case Finish(b) => FinishTable(s, b);
  }

  // ---------------------------------------------------------------- what a step leaves alone

  lemma OldLists(s: State, b: nat)
    requires Inv(s) && Active(s, b)
    ensures s.broadcasts[b].list in s.lists && s.broadcasts[b].list < s.nextId
  {
    assert BroadcastOk(s, b);
  }

  /** No broadcast holds the set that is about to change. */
  lemma UnsharedHasNoHolders(s: State, b: nat)
    requires TableOk(s) && s.lock.Unshared? && Active(s, b)
    ensures s.broadcasts[b].list != s.current
  {
    assert CountOk(s, s.current);
    assert |Holders(s, s.current)| == 0;
    assert b !in Holders(s, s.current);
  }

  lemma ResetKeeps(s: State, b: nat)
    requires TableOk(s) && Enabled(s, Reset) && Active(s, b) && s.broadcasts[b].list in s.lists
    ensures s.broadcasts[b].list in Next(s, Reset).lists
  {
    hide Members;
    assert CountOk(s, s.current);
    if s.broadcasts[b].list == s.current {
      assert b in Holders(s, s.current);
      assert |Holders(s, s.current)| > 0;
    }
  }

  /** A set is freed only when no other broadcast holds it. */
  lemma FinishKeeps(s: State, b: nat, x: nat)
    requires TableOk(s) && Enabled(s, Finish(b)) && Active(s, x) && x != b && s.broadcasts[x].list in s.lists
    ensures s.broadcasts[x].list in Next(s, Finish(b)).lists
  {
    hide Members;
    var list := s.broadcasts[b].list;
    assert CountOk(s, list);
    if s.broadcasts[x].list == list {
      CardinalityTwo(b, x, Holders(s, list));
    }
  }

  lemma CardinalityTwo(b: nat, x: nat, h: set<nat>)
    requires b != x && b in h && x in h
    ensures |h| >= 2
  {
    assert h == {b, x} + (h - {b, x});
  }

  lemma StepLeavesIt(s: State, a: Step, b: nat)
    requires Inv(s) && Enabled(s, a) && Active(s, b) && a != Finish(b)
    ensures var r, list := Next(s, a), s.broadcasts[b].list;
      && Active(r, b) && r.broadcasts[b].list == list
      && list in s.lists && list in r.lists && r.lists[list] == s.lists[list]
  {
    hide Members, NoDup, AllSent;
    OldLists(s, b);
    match a
    case Mutate => UnsharedHasNoHolders(s, b);
    case Finish(x) => FinishKeeps(s, x, b);
    case Reset => ResetKeeps(s, b);
    case _ =>
  }

  lemma BroadcastKept(s: State, r: State, b: nat)
    requires b in s.broadcasts && b in r.broadcasts && r.broadcasts[b] == s.broadcasts[b] && BroadcastOk(s, b)
    requires s.changes <= r.changes
    requires var x := s.broadcasts[b];
      !x.done ==> x.list in s.lists && x.list in r.lists && r.lists[x.list] == s.lists[x.list]
    ensures BroadcastOk(r, b)
  {
    var at := s.broadcasts[b].at;
    assert r.changes[..at] == s.changes[..at];
  }

  predicate Concerns(a: Step, b: nat) { (a.Snapshot? || a.SendTo? || a.Finish?) && a.b == b }

  lemma OthersKept(s: State, a: Step, b: nat)
    requires Inv(s) && Enabled(s, a) && b in s.broadcasts && !Concerns(a, b)
    ensures b in Next(s, a).broadcasts && BroadcastOk(Next(s, a), b)
  {
    hide TableOk, Members, NoDup, AllSent;
    assert BroadcastOk(s, b);
    if Active(s, b) { StepLeavesIt(s, a, b); }
    BroadcastKept(s, Next(s, a), b);
  }

  lemma SnapshotStep(s: State, b: nat)
    requires Inv(s) && Enabled(s, Snapshot(b))
    ensures BroadcastOk(Next(s, Snapshot(b)), b)
  {
    assert s.changes[..|s.changes|] == s.changes;
  }

  lemma SendStep(s: State, b: nat, conn: nat)
    requires Inv(s) && Enabled(s, SendTo(b, conn))
    ensures BroadcastOk(Next(s, SendTo(b, conn)), b)
  {
    hide TableOk, Members, NoDup, AllSent;
    assert BroadcastOk(s, b);
    Extend(s.broadcasts[b].sent, conn);
  }

  lemma Extend(sent: seq<nat>, conn: nat)
    requires conn !in sent
    ensures NoDup(sent) ==> NoDup(sent + [conn])
    ensures forall c :: c in sent + [conn] <==> c in sent || c == conn
  {
  }

  lemma FinishStep(s: State, b: nat)
    requires Inv(s) && Enabled(s, Finish(b))
    ensures BroadcastOk(Next(s, Finish(b)), b)
  {
    hide TableOk, Members, NoDup, AllSent;
    assert BroadcastOk(s, b);
  }

  lemma StepKeepsInv(s: State, a: Step)
    requires Inv(s) && Enabled(s, a)
    ensures Inv(Next(s, a))
  {
    TableStep(s, a);
    var r := Next(s, a);
    forall b | b in r.broadcasts ensures BroadcastOk(r, b) {
      if Concerns(a, b) {
        hide Inv, BroadcastOk;
        if a.Snapshot? { SnapshotStep(s, b); }
        else if a.SendTo? { SendStep(s, b, a.conn); }
        else { FinishStep(s, b); }
      } else {
        NoNewBroadcast(s, a, b);
        OthersKept(s, a, b);
      }
    }
  }

  lemma NoNewBroadcast(s: State, a: Step, b: nat)
    requires Enabled(s, a) && b in Next(s, a).broadcasts && !Concerns(a, b)
    ensures b in s.broadcasts
  {
  }

  // ---------------------------------------------------------------- every run

  predicate IsRun(steps: seq<Step>)
    decreases |steps|
  {
    steps == [] ||
    (IsRun(steps[..|steps| - 1]) && Enabled(After(steps[..|steps| - 1]), steps[|steps| - 1]))
  }

  function After(steps: seq<Step>): State
    decreases |steps|
  {
    if steps == [] then INIT
    else
      var s := After(steps[..|steps| - 1]);
      if Enabled(s, steps[|steps| - 1]) then Next(s, steps[|steps| - 1]) else s
  }

  lemma {:induction false} RunKeepsInv(steps: seq<Step>)
    requires IsRun(steps)
    ensures Inv(After(steps))
    decreases |steps|
  {
    if steps == [] {
      assert Holders(INIT, 0) == {};
    } else {
      RunKeepsInv(steps[..|steps| - 1]);
      hide Inv, Next;
      StepKeepsInv(After(steps[..|steps| - 1]), steps[|steps| - 1]);
    }
  }

  /** No step of any thread changes or frees a set while a broadcast iterates over it. */
  lemma IteratedSetIsNeverMutated(steps: seq<Step>, a: Step, b: nat)
    requires IsRun(steps) && Enabled(After(steps), a)
    requires Active(After(steps), b) && a != Finish(b)
    ensures var s, r := After(steps), Next(After(steps), a);
      var list := s.broadcasts[b].list;
      && Active(r, b) && r.broadcasts[b].list == list
      && list in s.lists && list in r.lists && r.lists[list] == s.lists[list]
  {
    RunKeepsInv(steps);
    StepLeavesIt(After(steps), a, b);
  }

  /** A finished broadcast went, once each, to exactly the connections that were up at its snapshot. */
  lemma BroadcastReachesItsSnapshot(steps: seq<Step>, b: nat)
    requires IsRun(steps) && b in After(steps).broadcasts
    ensures var s := After(steps); var x := s.broadcasts[b];
      && x.at <= |s.changes| && NoDup(x.sent)
      && (forall c :: c in x.sent ==> IsUp(s.changes[..x.at], c))
      && (x.done ==> forall c :: c in x.sent <==> IsUp(s.changes[..x.at], c))
      && (!x.done ==> x.list in s.lists && forall c :: c in s.lists[x.list] <==> IsUp(s.changes[..x.at], c))
      && s.current in s.lists && (forall c :: c in s.lists[s.current] <==> IsUp(s.changes, c))
  {
    RunKeepsInv(steps);
    var s := After(steps);
    assert BroadcastOk(s, b);
    hide Inv, Members, IsUp;
    forall c { MembersAreUp(s.changes[..s.broadcasts[b].at], c); }
    forall c { MembersAreUp(s.changes, c); }
  }

  // ---------------------------------------------------------------- in terms of the steps

  /** The connections that came up and went down, in the order in which the lock was taken for them. */
  function Acquired(steps: seq<Step>): seq<Change>
    decreases |steps|
  {
    if steps == [] then [] else
    var a := steps[|steps| - 1];
    Acquired(steps[..|steps| - 1]) + if a.Acquire? then [a.change] else []
  }

  /** Whom a broadcast has been sent to, in order. */
  function SentTo(steps: seq<Step>, b: nat): seq<nat>
    decreases |steps|
  {
    if steps == [] then [] else
    var a := steps[|steps| - 1];
    SentTo(steps[..|steps| - 1], b) + if a.SendTo? && a.b == b then [a.conn] else []
  }

  /** The change that holds the lock. */
  function Pending(lock: Lock): seq<Change> { if lock.Free? then [] else [lock.change] }

  /** Every change takes effect, in the order in which they took the lock. */
  lemma {:induction false} ChangesTakeEffect(steps: seq<Step>)
    requires IsRun(steps)
    ensures After(steps).changes + Pending(After(steps).lock) == Acquired(steps)
    decreases |steps|
  {
    if steps != [] {
      ChangesTakeEffect(steps[..|steps| - 1]);
    }
  }

  lemma {:induction false} BroadcastFollows(steps: seq<Step>, b: nat)
    requires IsRun(steps)
    ensures b in After(steps).broadcasts <==> Snapshot(b) in steps
    ensures b in After(steps).broadcasts ==>
              After(steps).broadcasts[b].sent == SentTo(steps, b) &&
              (After(steps).broadcasts[b].done <==> Finish(b) in steps)
    ensures b !in After(steps).broadcasts ==> SentTo(steps, b) == [] && Finish(b) !in steps
    decreases |steps|
  {
    if steps != [] {
      var init, a := steps[..|steps| - 1], steps[|steps| - 1];
      BroadcastFollows(init, b);
      assert steps == init + [a];
      BroadcastStep(After(init), a, b);
    }
  }

  lemma BroadcastStep(s: State, a: Step, b: nat)
    requires Enabled(s, a)
    ensures var r := Next(s, a);
      && (b in r.broadcasts <==> b in s.broadcasts || a == Snapshot(b))
      && (a == Snapshot(b) ==> b !in s.broadcasts && r.broadcasts[b].sent == [] && !r.broadcasts[b].done)
      && ((a.SendTo? || a.Finish?) && a.b == b ==> b in s.broadcasts)
      && (b in s.broadcasts ==>
            && r.broadcasts[b].at == s.broadcasts[b].at
            && r.broadcasts[b].sent == s.broadcasts[b].sent + (if a.SendTo? && a.b == b then [a.conn] else [])
            && (r.broadcasts[b].done <==> s.broadcasts[b].done || a == Finish(b)))
      && s.changes <= r.changes
  {
    assert b in s.broadcasts ==> s.broadcasts[b].sent + [] == s.broadcasts[b].sent;
  }

  /** A snapshot sees the changes whose locks were taken before it, and no others. */
  lemma {:induction false} SnapshotSees(steps: seq<Step>, b: nat, i: nat)
    requires IsRun(steps) && i < |steps| && steps[i] == Snapshot(b)
    ensures var s := After(steps);
      && b in s.broadcasts && s.broadcasts[b].at <= |s.changes|
      && s.changes[..s.broadcasts[b].at] == Acquired(steps[..i])
    decreases |steps|
  {
    var init, a := steps[..|steps| - 1], steps[|steps| - 1];
    var s := After(init);
    if i == |steps| - 1 {
      ChangesTakeEffect(init);
      assert s.changes + [] == s.changes && s.changes[..|s.changes|] == s.changes;
    } else {
      assert init[..i] == steps[..i];
      SnapshotSees(init, b, i);
      hide Next, Enabled;
      BroadcastStep(s, a, b);
    }
  }

  /**
   Over all interleavings: a broadcast whose snapshot is the i-th step goes, once each, only to
   connections whose last change before that step was that they came up, and when it has
   finished, it has gone to all of them.
   */
  lemma BroadcastReachesWhoWasUp(steps: seq<Step>, b: nat, i: nat)
    requires IsRun(steps) && i < |steps| && steps[i] == Snapshot(b)
    ensures NoDup(SentTo(steps, b))
    ensures forall c :: c in SentTo(steps, b) ==> IsUp(Acquired(steps[..i]), c)
    ensures Finish(b) in steps ==> forall c :: c in SentTo(steps, b) <==> IsUp(Acquired(steps[..i]), c)
  {
    BroadcastFollows(steps, b);
    SnapshotSees(steps, b, i);
    BroadcastReachesItsSnapshot(steps, b);
  }

  /** No step of a change ever finds its set freed, and the set it changes is its own: the assertion holds. */
  lemma ChangeIsNeverStuck(steps: seq<Step>)
    requires IsRun(steps)
    ensures var s := After(steps);
      && (s.lock.Free? ==> forall c :: Enabled(s, Acquire(c)))
      && (s.lock.Entered? ==> Enabled(s, Test)) && (s.lock.Shared? ==> Enabled(s, Copy))
      && (s.lock.Copied? ==> Enabled(s, Reset))
      && (s.lock.Unshared? ==> Enabled(s, Mutate) && s.current in s.refs && s.refs[s.current] == 1)
  {
    RunKeepsInv(steps);
  }
}
