/**
 The alarm half of the epoll server, on values: a time-ordered multimap of alarms whose
 iterators survive insertions and erasures, the set that forbids registering an alarm twice,
 the tokens the alarms keep, and the loop that fires what is due.
 */
module Alarms {
  import opened Sequences

  /** A multimap node; `id` is its address, which is what an iterator holds. */
  datatype Entry = Entry(id: nat, time: int, alarm: nat)

  /**
   `tokens` holds the `token_` of each alarm whose `registered_` is true. `aborted` records
   that the fatal check for a doubly registered alarm has fired.
   */
  datatype State = State(queue: seq<Entry>, all: set<nat>, tokens: map<nat, nat>, skip: set<nat>,
                         nextId: nat, aborted: bool)

  datatype Op = Register(time: int, alarm: nat) | Unregister(alarm: nat)

  /** One run of OnAlarm: the calls it makes, then the time it returns. */
  datatype Script = Script(ops: seq<Op>, ret: int)

  // ---------------------------------------------------------------- the multimap

  /** Insertion goes behind every entry of the same time. */
  function Insert(q: seq<Entry>, e: Entry): seq<Entry> {
    if q == [] then [e]
    else if q[0].time <= e.time then [q[0]] + Insert(q[1..], e)
    else [e] + q
  }

  function Erase(q: seq<Entry>, id: nat): seq<Entry> {
    if q == [] then [] else if q[0].id == id then q[1..] else [q[0]] + Erase(q[1..], id)
  }

  /** The entries from the one an iterator points at to the end. */
  function From(q: seq<Entry>, id: nat): (r: seq<Entry>)
    ensures |r| <= |q|
  {
    if q == [] || q[0].id == id then q else From(q[1..], id)
  }

  function Rest(q: seq<Entry>, cur: Option<nat>): seq<Entry> {
    if cur.None? then [] else From(q, cur.value)
  }

  function FirstId(q: seq<Entry>): Option<nat> { if q == [] then None else Some(q[0].id) }

  // ---------------------------------------------------------------- the public API

  function RegisterAlarm(s: State, time: int, alarm: nat): State {
    if alarm in s.all then s.(aborted := true) else
    s.(queue := Insert(s.queue, Entry(s.nextId, time, alarm)),
       all := s.all + {alarm},
       tokens := s.tokens[alarm := s.nextId],
       nextId := s.nextId + 1)
  }

  function UnregisterIfRegistered(s: State, alarm: nat): State {
    if alarm !in s.tokens then s else
    s.(queue := Erase(s.queue, s.tokens[alarm]), all := s.all - {alarm}, tokens := s.tokens - {alarm})
  }

  function Apply(s: State, op: Op): State {
    match op
    case Register(time, alarm) => RegisterAlarm(s, time, alarm)
    case Unregister(alarm) => UnregisterIfRegistered(s, alarm)
  }

  /** The calls of a callback, one after the other; the fatal check ends the process and so the rest. */
  function ApplyAll(s: State, ops: seq<Op>): State
    decreases |ops|
  {
    if ops == [] then s else
    var m := ApplyAll(s, ops[..|ops| - 1]);
    if m.aborted then m else Apply(m, ops[|ops| - 1])
  }

  function ScriptAt(scripts: seq<Script>, k: nat): Script {
    if k < |scripts| then scripts[k] else Script([], 0)
  }

  // ---------------------------------------------------------------- one firing

  /** The alarm leaves the duplicate set and forgets its token, then runs. */
  function BeginFire(s: State, alarm: nat): State {
    s.(all := s.all - {alarm}, tokens := s.tokens - {alarm})
  }

  /** The fired entry is erased; a positive return value registers the alarm again. */
  function EndFire(s: State, e: Entry, ret: int, now: int): State {
    var s1 := s.(queue := Erase(s.queue, e.id));
    if ret <= 0 then s1
    else RegisterAlarm(if ret <= now then s1.(skip := s1.skip + {e.alarm}) else s1, ret, e.alarm)
  }

  function Fire(s: State, e: Entry, script: Script, now: int): State {
    var m := ApplyAll(BeginFire(s, e.alarm), script.ops);
    if m.aborted then m else EndFire(m, e, script.ret, now)
  }

  /** The iterator is advanced after OnAlarm has returned and before the entry is erased. */
  function Advance(s: State, e: Entry, script: Script): Option<nat> {
    var rest := From(ApplyAll(BeginFire(s, e.alarm), script.ops).queue, e.id);
    if rest == [] then None else FirstId(rest[1..])
  }

  // ---------------------------------------------------------------- the invariant

  predicate Before(e: Entry, f: Entry) { e.time < f.time || (e.time == f.time && e.id < f.id) }

  /** Time order, with entries of the same time in the order of their insertion. */
  ghost predicate Ordered(q: seq<Entry>) {
    forall i, j :: 0 <= i < j < |q| ==> Before(q[i], q[j])
  }

  ghost predicate DistinctIds(q: seq<Entry>) {
    forall i, j :: 0 <= i < j < |q| ==> q[i].id != q[j].id
  }

  ghost predicate QueueOk(q: seq<Entry>, bound: nat) {
    Ordered(q) && DistinctIds(q) && forall e :: e in q ==> e.id < bound
  }

  /**
   Every entry but the one being fired is the one entry its alarm's token points at, and
   every token points at such an entry.
   */
  ghost predicate Agree(s: State, firing: Option<nat>) {
    && s.all == s.tokens.Keys
    && (forall e :: e in s.queue && Some(e.id) != firing ==> e.alarm in s.tokens && s.tokens[e.alarm] == e.id)
    && (forall a :: a in s.tokens ==>
          Some(s.tokens[a]) != firing && exists e :: e in s.queue && e.id == s.tokens[a] && e.alarm == a)
  }

  ghost predicate Inv(s: State, firing: Option<nat>) {
    QueueOk(s.queue, s.nextId) && Agree(s, firing)
  }

  // ---------------------------------------------------------------- facts about the multimap

  lemma {:induction false} InsertMembers(q: seq<Entry>, e: Entry)
    ensures forall f :: f in Insert(q, e) <==> f in q || f == e
  {
    if q != [] {
      assert q == [q[0]] + q[1..];
      InsertMembers(q[1..], e);
    }
  }

  lemma {:induction false} EraseMembers(q: seq<Entry>, id: nat)
    requires DistinctIds(q)
    ensures forall f :: f in Erase(q, id) <==> f in q && f.id != id
  {
    if q != [] {
      assert q == [q[0]] + q[1..];
      EraseMembers(q[1..], id);
      if q[0].id == id {
        assert forall f :: f in q[1..] ==> f.id != id;
      }
    }
  }

  /** A fresh entry keeps the order, ties included, because its id is larger than any before. */
  lemma {:induction false} InsertOk(q: seq<Entry>, e: Entry)
    requires QueueOk(q, e.id)
    ensures QueueOk(Insert(q, e), e.id + 1)
  {
    InsertMembers(q, e);
    if q != [] {
      assert q[0] in q;
      TailOk(q, e.id);
      if q[0].time <= e.time {
        InsertOk(q[1..], e);
        InsertMembers(q[1..], e);
        assert forall f :: f in Insert(q[1..], e) ==> Before(q[0], f) && q[0].id != f.id;
        ConsOk(q[0], Insert(q[1..], e), e.id + 1);
      } else {
        assert forall f :: f in q ==> Before(e, f) && e.id != f.id;
        ConsOk(e, q, e.id + 1);
      }
    }
  }

  lemma TailOk(q: seq<Entry>, bound: nat)
    requires QueueOk(q, bound) && q != []
    ensures QueueOk(q[1..], bound)
    ensures forall f :: f in q[1..] ==> Before(q[0], f) && q[0].id != f.id
  {
  }

  lemma ConsOk(e: Entry, q: seq<Entry>, bound: nat)
    requires QueueOk(q, bound) && e.id < bound
    requires forall f :: f in q ==> Before(e, f) && e.id != f.id
    ensures QueueOk([e] + q, bound)
  {
    var r := [e] + q;
    forall i, j | 0 <= i < j < |r| ensures Before(r[i], r[j]) && r[i].id != r[j].id {
      assert r[j] == q[j - 1] && r[j] in q;
      assert i > 0 ==> r[i] == q[i - 1];
    }
  }

  lemma {:induction false} EraseOk(q: seq<Entry>, id: nat, bound: nat)
    requires QueueOk(q, bound)
    ensures QueueOk(Erase(q, id), bound)
  {
    if q != [] {
      assert q[0] in q;
      TailOk(q, bound);
      if q[0].id != id {
        EraseOk(q[1..], id, bound);
        EraseMembers(q[1..], id);
        ConsOk(q[0], Erase(q[1..], id), bound);
      }
    }
  }

  // ---------------------------------------------------------------- the invariant is kept

  lemma AgreeInsert(s: State, r: State, firing: Option<nat>, e: Entry)
    requires Agree(s, firing) && e.alarm !in s.tokens && Some(e.id) != firing
    requires r.all == s.all + {e.alarm} && r.tokens == s.tokens[e.alarm := e.id]
    requires forall f :: f in r.queue <==> f in s.queue || f == e
    requires forall f :: f in s.queue && f.alarm == e.alarm ==> Some(f.id) == firing
    ensures Agree(r, firing)
  {
    forall a | a in r.tokens
      ensures Some(r.tokens[a]) != firing && exists f :: f in r.queue && f.id == r.tokens[a] && f.alarm == a
    {
      if a == e.alarm {
        assert e in r.queue;
      } else {
        var f :| f in s.queue && f.id == s.tokens[a] && f.alarm == a;
        assert f in r.queue;
      }
    }
  }

  lemma RegisterKeepsInv(s: State, firing: Option<nat>, time: int, alarm: nat)
    requires Inv(s, firing) && (firing.Some? ==> firing.value < s.nextId)
    ensures Inv(RegisterAlarm(s, time, alarm), firing)
  {
    if alarm !in s.all {
      var e := Entry(s.nextId, time, alarm);
      assert alarm !in s.tokens && forall f :: f in s.queue && f.alarm == alarm ==> Some(f.id) == firing;
      hide QueueOk, Agree, Insert;
      InsertOk(s.queue, e);
      InsertMembers(s.queue, e);
      AgreeInsert(s, RegisterAlarm(s, time, alarm), firing, e);
    }
  }

  lemma UnregisterKeepsInv(s: State, firing: Option<nat>, alarm: nat)
    requires Inv(s, firing)
    ensures Inv(UnregisterIfRegistered(s, alarm), firing)
  {
    if alarm in s.tokens {
      EraseOk(s.queue, s.tokens[alarm], s.nextId);
      EraseMembers(s.queue, s.tokens[alarm]);
      var r := UnregisterIfRegistered(s, alarm);
      var g :| g in s.queue && g.id == s.tokens[alarm] && g.alarm == alarm;
      SameId(s.queue);
      forall a | a in r.tokens
        ensures Some(r.tokens[a]) != firing && exists f :: f in r.queue && f.id == r.tokens[a] && f.alarm == a
      {
        var f :| f in s.queue && f.id == s.tokens[a] && f.alarm == a;
        assert f.id != g.id;
        assert f in r.queue;
      }
    }
  }

  lemma SameId(q: seq<Entry>)
    requires DistinctIds(q)
    ensures forall e, f :: e in q && f in q && e.id == f.id ==> e == f
  {
  }

  lemma {:induction false} ScriptKeepsInv(s: State, e: Entry, ops: seq<Op>)
    requires Inv(s, Some(e.id)) && e in s.queue
    ensures Inv(ApplyAll(s, ops), Some(e.id)) && e in ApplyAll(s, ops).queue
    ensures ApplyAll(s, ops).skip == s.skip
    decreases |ops|
  {
    if ops != [] {
      ScriptKeepsInv(s, e, ops[..|ops| - 1]);
      OpKeepsInv(ApplyAll(s, ops[..|ops| - 1]), e, ops[|ops| - 1]);
    }
  }

  lemma OpKeepsInv(s: State, e: Entry, op: Op)
    requires Inv(s, Some(e.id)) && e in s.queue
    ensures Inv(Apply(s, op), Some(e.id)) && e in Apply(s, op).queue
  {
    match op
    case Register(time, alarm) =>
      RegisterKeepsInv(s, Some(e.id), time, alarm);
      InsertMembers(s.queue, Entry(s.nextId, time, alarm));
    case Unregister(alarm) =>
      UnregisterKeepsInv(s, Some(e.id), alarm);
      if alarm in s.tokens {
        EraseMembers(s.queue, s.tokens[alarm]);
      }
  }

  lemma BeginKeepsInv(s: State, e: Entry)
    requires Inv(s, None) && e in s.queue
    ensures Inv(BeginFire(s, e.alarm), Some(e.id))
    ensures forall f :: f in s.queue && f.id != e.id ==> f.alarm != e.alarm
  {
    SameId(s.queue);
    var r := BeginFire(s, e.alarm);
    forall a | a in r.tokens
      ensures r.tokens[a] != e.id && exists f :: f in r.queue && f.id == r.tokens[a] && f.alarm == a
    {
      var f :| f in s.queue && f.id == s.tokens[a] && f.alarm == a;
    }
  }

  lemma EndKeepsInv(s: State, e: Entry, ret: int, now: int)
    requires Inv(s, Some(e.id)) && e in s.queue
    ensures Inv(EndFire(s, e, ret, now), None)
  {
    var s1 := s.(queue := Erase(s.queue, e.id));
    EraseOk(s.queue, e.id, s.nextId);
    EraseMembers(s.queue, e.id);
    assert Inv(s1, None) by {
      forall a | a in s1.tokens
        ensures exists f :: f in s1.queue && f.id == s1.tokens[a] && f.alarm == a
      {
        var f :| f in s.queue && f.id == s.tokens[a] && f.alarm == a;
        assert f in s1.queue;
      }
    }
    var s2 := if ret <= now then s1.(skip := s1.skip + {e.alarm}) else s1;
    assert Inv(s2, None);
    RegisterKeepsInv(s2, None, ret, e.alarm);
  }

  /** Every firing that lives leaves the table, the duplicate set and the tokens in agreement. */
  lemma FireKeepsInv(s: State, e: Entry, script: Script, now: int)
    requires Inv(s, None) && e in s.queue
    ensures var r := Fire(s, e, script, now);
      !r.aborted ==> Inv(r, None) && forall f :: f in r.queue ==> f.id != e.id
  {
    BeginKeepsInv(s, e);
    var m := ApplyAll(BeginFire(s, e.alarm), script.ops);
    ScriptKeepsInv(BeginFire(s, e.alarm), e, script.ops);
    EndKeepsInv(m, e, script.ret, now);
    EraseMembers(m.queue, e.id);
    InsertMembers(Erase(m.queue, e.id), Entry(m.nextId, script.ret, e.alarm));
  }

  // ---------------------------------------------------------------- when a firing dies

  /** The duplicate set after some calls, as far as they live. */
  function AllAfter(all: set<nat>, ops: seq<Op>): set<nat>
    decreases |ops|
  {
    if ops == [] then all else
    var m := AllAfter(all, ops[..|ops| - 1]);
    match ops[|ops| - 1]
    case Register(_, alarm) => m + {alarm}
    case Unregister(alarm) => m - {alarm}
  }

  /** Some call registers an alarm that is in the duplicate set by then. */
  predicate OpsAbort(all: set<nat>, ops: seq<Op>)
    decreases |ops|
  {
    ops != [] &&
    var init, op := ops[..|ops| - 1], ops[|ops| - 1];
    OpsAbort(all, init) || (op.Register? && op.alarm in AllAfter(all, init))
  }

  /** A call does so, or the return value does after the callback has registered its own alarm. */
  predicate FireAborts(all: set<nat>, alarm: nat, script: Script) {
    OpsAbort(all - {alarm}, script.ops) || (script.ret > 0 && alarm in AllAfter(all - {alarm}, script.ops))
  }

  function AllNext(all: set<nat>, alarm: nat, script: Script): set<nat> {
    AllAfter(all - {alarm}, script.ops) + if script.ret > 0 then {alarm} else {}
  }

  lemma {:induction false} OpsAbortIff(s: State, firing: Option<nat>, ops: seq<Op>)
    requires Inv(s, firing) && !s.aborted && (firing.Some? ==> firing.value < s.nextId)
    ensures var r := ApplyAll(s, ops);
      && Inv(r, firing) && s.nextId <= r.nextId
      && (r.aborted <==> OpsAbort(s.all, ops)) && (!r.aborted ==> r.all == AllAfter(s.all, ops))
    decreases |ops|
  {
    if ops != [] {
      var init, op := ops[..|ops| - 1], ops[|ops| - 1];
      OpsAbortIff(s, firing, init);
      var m := ApplyAll(s, init);
      if !m.aborted {
        match op
        case Register(time, alarm) => RegisterKeepsInv(m, firing, time, alarm);
        case Unregister(alarm) => UnregisterKeepsInv(m, firing, alarm);
      }
    }
  }

  /** A firing trips the duplicate check exactly then, and otherwise leaves this duplicate set. */
  lemma FireAbortsIff(s: State, e: Entry, script: Script, now: int)
    requires Inv(s, None) && !s.aborted && e in s.queue
    ensures var r := Fire(s, e, script, now);
      && (r.aborted <==> FireAborts(s.all, e.alarm, script))
      && (!r.aborted ==> r.all == AllNext(s.all, e.alarm, script))
  {
    BeginKeepsInv(s, e);
    OpsAbortIff(BeginFire(s, e.alarm), Some(e.id), script.ops);
  }

  // ---------------------------------------------------------------- what is left to fire

  predicate IsPending(e: Entry, now: int, skip: set<nat>) { e.time <= now && e.alarm !in skip }

  /** The entries that are due and were not put back in this round. */
  function Pending(q: seq<Entry>, now: int, skip: set<nat>): (r: seq<Entry>)
    ensures |r| <= |q|
    ensures forall f :: f in r <==> f in q && IsPending(f, now, skip)
  {
    if q == [] then []
    else if IsPending(q[0], now, skip) then [q[0]] + Pending(q[1..], now, skip)
    else Pending(q[1..], now, skip)
  }

  predicate Drops(ops: seq<Op>, alarm: nat) {
    exists i :: 0 <= i < |ops| && ops[i] == Unregister(alarm)
  }

  function Survivors(q: seq<Entry>, ops: seq<Op>): (r: seq<Entry>)
    ensures |r| <= |q|
    ensures forall f :: f in r <==> f in q && !Drops(ops, f.alarm)
  {
    if q == [] then []
    else if Drops(ops, q[0].alarm) then Survivors(q[1..], ops)
    else [q[0]] + Survivors(q[1..], ops)
  }

  /** The reference for a round: fire the first, strike out what its callback unregisters. */
  function Expected(due: seq<Entry>, scripts: seq<Script>, k: nat): seq<Entry>
    decreases |due|
  {
    if due == [] then [] else
    [due[0]] + Expected(Survivors(due[1..], ScriptAt(scripts, k).ops), scripts, k + 1)
  }

  lemma {:induction false} FromInsert(q: seq<Entry>, id: nat, x: Entry)
    requires Ordered(q) && From(q, id) != [] && x.id != id
    ensures var b := From(q, id);
      b[0] in q && b[0].id == id && From(Insert(q, x), id) == if b[0].time <= x.time then Insert(b, x) else b
  {
    if q[0].id != id {
      assert Ordered(q[1..]);
      FromInsert(q[1..], id, x);
    }
  }

  lemma {:induction false} EraseAbsent(q: seq<Entry>, id: nat)
    requires forall f :: f in q ==> f.id != id
    ensures Erase(q, id) == q
  {
    if q != [] {
      assert q[0] in q;
      EraseAbsent(q[1..], id);
    }
  }

  lemma {:induction false} FromErase(q: seq<Entry>, id: nat, id2: nat)
    requires DistinctIds(q) && id != id2
    ensures From(Erase(q, id2), id) == Erase(From(q, id), id2)
  {
    if q != [] {
      assert DistinctIds(q[1..]);
      FromErase(q[1..], id, id2);
      if q[0].id == id2 {
        FromSuffix(q[1..], id);
        assert forall f :: f in q[1..] ==> f.id != id2;
        EraseAbsent(From(q[1..], id), id2);
      }
    }
  }

  lemma {:induction false} FromSuffix(q: seq<Entry>, id: nat)
    ensures exists k :: 0 <= k <= |q| && From(q, id) == q[k..]
    ensures forall f :: f in From(q, id) ==> f in q
    ensures From(q, id) != [] ==> From(q, id)[0].id == id
  {
    if q == [] || q[0].id == id {
      assert q[0..] == q;
    } else {
      FromSuffix(q[1..], id);
      var k :| 0 <= k <= |q[1..]| && From(q[1..], id) == q[1..][k..];
      assert From(q, id) == q[k + 1..];
    }
  }

  lemma {:induction false} FromPresent(q: seq<Entry>, e: Entry)
    requires e in q && DistinctIds(q)
    ensures From(q, e.id) != [] && From(q, e.id)[0] == e
  {
    if q[0].id != e.id {
      assert DistinctIds(q[1..]);
      FromPresent(q[1..], e);
    }
  }

  /** Once its entry is erased, what followed it is what its successor's iterator sees. */
  lemma {:induction false} FromSuccessor(q: seq<Entry>, id: nat)
    requires DistinctIds(q) && |From(q, id)| > 1
    ensures From(Erase(q, id), From(q, id)[1].id) == From(q, id)[1..]
    ensures From(q, From(q, id)[1].id) == From(q, id)[1..]
  {
    assert DistinctIds(q[1..]);
    if q[0].id == id {
      assert q[0].id != q[1].id;
    } else {
      FromSuffix(q[1..], id);
      assert From(q[1..], id)[1] in q[1..];
      FromSuccessor(q[1..], id);
    }
  }

  /** Filtering commutes with insertion. */
  lemma {:induction false} PendingInsert(q: seq<Entry>, x: Entry, now: int, skip: set<nat>)
    requires Ordered(q)
    ensures Pending(Insert(q, x), now, skip) ==
      if IsPending(x, now, skip) then Insert(Pending(q, now, skip), x) else Pending(q, now, skip)
  {
    if q != [] {
      assert Ordered(q[1..]);
      PendingInsert(q[1..], x, now, skip);
      if q[0].time > x.time {
        assert ([x] + q)[1..] == q;
        PendingLater(q, x, now, skip);
      }
    }
  }

  lemma PendingLater(q: seq<Entry>, x: Entry, now: int, skip: set<nat>)
    requires Ordered(q) && q != [] && q[0].time > x.time
    ensures Insert(Pending(q, now, skip), x) == [x] + Pending(q, now, skip)
  {
    var r := Pending(q, now, skip);
    if r != [] {
      assert r[0] in r && r[0] in q;
    }
  }

  /** Erasing the one entry of an alarm is striking the alarm out. */
  lemma {:induction false} PendingErase(q: seq<Entry>, id: nat, alarm: nat, now: int, skip: set<nat>)
    requires DistinctIds(q) && forall f :: f in q ==> (f.id == id <==> f.alarm == alarm)
    ensures Pending(Erase(q, id), now, skip) == Survivors(Pending(q, now, skip), [Unregister(alarm)])
  {
    var ops := [Unregister(alarm)];
    assert ops[0] == Unregister(alarm);
    assert forall a :: Drops(ops, a) <==> a == alarm;
    if q != [] {
      assert q[0] in q && DistinctIds(q[1..]);
      PendingErase(q[1..], id, alarm, now, skip);
      if q[0].id == id {
        assert forall f :: f in q[1..] ==> f.id != id;
        EraseAbsent(q[1..], id);
      }
    }
  }

  lemma {:induction false} SurvivorsAll(q: seq<Entry>, ops: seq<Op>)
    requires forall f :: f in q ==> !Drops(ops, f.alarm)
    ensures Survivors(q, ops) == q
  {
    if q != [] {
      assert q[0] in q;
      SurvivorsAll(q[1..], ops);
    }
  }

  lemma {:induction false} SurvivorsSnoc(q: seq<Entry>, ops: seq<Op>, op: Op)
    ensures Survivors(q, ops + [op]) == Survivors(Survivors(q, ops), [op])
  {
    if q != [] {
      SurvivorsSnoc(q[1..], ops, op);
      DropsSnoc(ops, op, q[0].alarm);
    }
  }

  lemma DropsSnoc(ops: seq<Op>, op: Op, alarm: nat)
    ensures Drops(ops + [op], alarm) <==> Drops(ops, alarm) || Drops([op], alarm)
  {
    if Drops(ops, alarm) {
      var i :| 0 <= i < |ops| && ops[i] == Unregister(alarm);
      assert (ops + [op])[i] == ops[i];
    }
    if op == Unregister(alarm) {
      assert (ops + [op])[|ops|] == op && [op][0] == op;
    }
  }

  // ---------------------------------------------------------------- the reference for a round

  /**
   What a round has left to do, without the map, its iterators and the tokens: the due entries
   ahead, the duplicate and skip sets, and the identity of the next entry.
   */
  datatype Work = Work(due: seq<Entry>, all: set<nat>, skip: set<nat>, nextId: nat, aborted: bool)

  /** A call made while an entry of time `at` fires: a new entry joins if it is due and not behind. */
  function OpWork(w: Work, op: Op, at: int, now: int): Work {
    match op
    case Register(time, alarm) =>
      if alarm in w.all then w.(aborted := true) else
      var x := Entry(w.nextId, time, alarm);
      w.(due := if at <= time && IsPending(x, now, w.skip) then Insert(w.due, x) else w.due,
         all := w.all + {alarm}, nextId := w.nextId + 1)
    case Unregister(alarm) => w.(due := Survivors(w.due, [op]), all := w.all - {alarm})
  }

  function OpsWork(w: Work, ops: seq<Op>, at: int, now: int): Work
    decreases |ops|
  {
    if ops == [] then w else
    var m := OpsWork(w, ops[..|ops| - 1], at, now);
    if m.aborted then m else OpWork(m, ops[|ops| - 1], at, now)
  }

  /** After the callback; an alarm put back by the return value is not due again in the round. */
  function EndWork(w: Work, alarm: nat, ret: int, now: int): Work {
    if w.aborted || ret <= 0 then w
    else if alarm in w.all then w.(aborted := true)
    else w.(all := w.all + {alarm}, skip := if ret <= now then w.skip + {alarm} else w.skip, nextId := w.nextId + 1)
  }

  function FireWork(w: Work, script: Script, now: int): Work
    requires w.due != []
  {
    var e := w.due[0];
    EndWork(OpsWork(w.(due := w.due[1..], all := w.all - {e.alarm}), script.ops, e.time, now), e.alarm, script.ret, now)
  }

  datatype Result = Result(fired: seq<Entry>, left: Work)

  function ScriptsLeft(scripts: seq<Script>, k: nat): nat { if k < |scripts| then |scripts| - k else 0 }

  /** Fire the first entry, do what its callback does, go on; the fatal check ends it. */
  function Reference(w: Work, scripts: seq<Script>, k: nat, now: int): Result
    decreases ScriptsLeft(scripts, k), |w.due|
  {
    if w.due == [] || w.aborted then Result([], w) else
    var m := FireWork(w, ScriptAt(scripts, k), now);
    var r := Reference(m, scripts, k + 1, now);
    Result([w.due[0]] + r.fired, r.left)
  }

  // ---------------------------------------------------------------- one firing moves the round on

  ghost function WorkAt(s: State, b: seq<Entry>, now: int): Work {
    Work(Pending(b, now, s.skip), s.all, s.skip, s.nextId, s.aborted)
  }

  ghost predicate Tail(s: State, e: Entry, b: seq<Entry>) { From(s.queue, e.id) == [e] + b }

  /** In the tail, an entry carries an alarm exactly when the alarm's token points at it. */
  lemma TailAgrees(s: State, e: Entry, b: seq<Entry>)
    requires Inv(s, Some(e.id)) && Tail(s, e, b)
    ensures DistinctIds(b)
    ensures forall f :: f in b ==> f.alarm in s.tokens && s.tokens[f.alarm] == f.id
    ensures forall f, a :: f in b && a in s.tokens && f.id == s.tokens[a] ==> f.alarm == a
  {
    FromSuffix(s.queue, e.id);
    SuffixDistinct(s.queue, e, b);
    assert forall f :: f in b ==> f in [e] + b;
    SameId(s.queue);
    forall f, a | f in b && a in s.tokens && f.id == s.tokens[a]
      ensures f.alarm == a
    {
      var g :| g in s.queue && g.id == s.tokens[a] && g.alarm == a;
    }
  }

  lemma SuffixDistinct(q: seq<Entry>, e: Entry, b: seq<Entry>)
    requires DistinctIds(q) && From(q, e.id) == [e] + b
    ensures DistinctIds(b) && forall f :: f in b ==> f.id != e.id
  {
    FromSuffix(q, e.id);
    var k :| 0 <= k <= |q| && From(q, e.id) == q[k..];
    assert b == q[k..][1..] == q[k + 1..];
  }

  lemma SuffixOrdered(q: seq<Entry>, e: Entry, b: seq<Entry>)
    requires Ordered(q) && From(q, e.id) == [e] + b
    ensures Ordered(b)
  {
    FromSuffix(q, e.id);
    var k :| 0 <= k <= |q| && From(q, e.id) == q[k..];
    assert b == q[k..][1..] == q[k + 1..];
  }

  lemma RegisterOnTail(s: State, e: Entry, b: seq<Entry>, time: int, alarm: nat, now: int)
    returns (b': seq<Entry>)
    requires Inv(s, Some(e.id)) && e in s.queue && Tail(s, e, b)
    ensures Tail(RegisterAlarm(s, time, alarm), e, b')
    ensures WorkAt(RegisterAlarm(s, time, alarm), b', now)
         == OpWork(WorkAt(s, b, now), Register(time, alarm), e.time, now)
  {
    hide Agree, Pending, IsPending, Ordered, DistinctIds;
    b' := b;
    if alarm !in s.all {
      var x := Entry(s.nextId, time, alarm);
      FromInsert(s.queue, e.id, x);
      assert ([e] + b)[1..] == b;
      if e.time <= time {
        b' := Insert(b, x);
        SuffixOrdered(s.queue, e, b);
        PendingInsert(b, x, now, s.skip);
      }
    }
  }

  lemma EraseOnTail(q: seq<Entry>, e: Entry, b: seq<Entry>, id: nat)
    requires DistinctIds(q) && From(q, e.id) == [e] + b && id != e.id
    ensures From(Erase(q, id), e.id) == [e] + Erase(b, id)
  {
    FromErase(q, e.id, id);
    assert ([e] + b)[1..] == b;
  }

  lemma TokensOf(s: State, e: Entry, alarm: nat)
    requires Inv(s, Some(e.id))
    ensures DistinctIds(s.queue) && s.all == s.tokens.Keys && (alarm in s.tokens ==> s.tokens[alarm] != e.id)
  {
  }

  lemma UnregisterOnTail(s: State, e: Entry, b: seq<Entry>, alarm: nat, now: int) returns (b': seq<Entry>)
    requires Inv(s, Some(e.id)) && e in s.queue && Tail(s, e, b)
    ensures Tail(UnregisterIfRegistered(s, alarm), e, b')
    ensures WorkAt(UnregisterIfRegistered(s, alarm), b', now)
         == OpWork(WorkAt(s, b, now), Unregister(alarm), e.time, now)
  {
    hide Inv, DistinctIds, Pending, IsPending, Survivors, Drops, Erase, From;
    TailAgrees(s, e, b);
    TokensOf(s, e, alarm);
    if alarm in s.tokens {
      var id := s.tokens[alarm];
      EraseOnTail(s.queue, e, b, id);
      b' := Erase(b, id);
      PendingErase(b, id, alarm, now, s.skip);
    } else {
      b' := b;
      KeepsAll(s, b, alarm, now);
    }
  }

  lemma KeepsAll(s: State, b: seq<Entry>, alarm: nat, now: int)
    requires alarm !in s.tokens && forall f :: f in b ==> f.alarm in s.tokens
    ensures Survivors(Pending(b, now, s.skip), [Unregister(alarm)]) == Pending(b, now, s.skip)
  {
    SurvivorsAll(Pending(b, now, s.skip), [Unregister(alarm)]);
  }

  lemma {:induction false} OpsOnTail(s: State, e: Entry, b: seq<Entry>, ops: seq<Op>, now: int)
    returns (b': seq<Entry>)
    requires Inv(s, Some(e.id)) && e in s.queue && Tail(s, e, b)
    ensures Tail(ApplyAll(s, ops), e, b') && (ops == [] ==> b' == b)
    ensures WorkAt(ApplyAll(s, ops), b', now) == OpsWork(WorkAt(s, b, now), ops, e.time, now)
    decreases |ops|
  {
    hide Inv, Tail, RegisterAlarm, UnregisterIfRegistered, OpWork;
    b' := b;
    if ops != [] {
      var init, op := ops[..|ops| - 1], ops[|ops| - 1];
      b' := OpsOnTail(s, e, b, init, now);
      ScriptKeepsInv(s, e, init);
      if !ApplyAll(s, init).aborted {
        match op
        case Register(time, alarm) => b' := RegisterOnTail(ApplyAll(s, init), e, b', time, alarm, now);
        case Unregister(alarm) => b' := UnregisterOnTail(ApplyAll(s, init), e, b', alarm, now);
      }
    }
  }

  lemma {:induction false} PendingSkipMore(q: seq<Entry>, now: int, skip: set<nat>, alarm: nat)
    requires forall f :: f in q ==> f.alarm != alarm
    ensures Pending(q, now, skip + {alarm}) == Pending(q, now, skip)
  {
    if q != [] {
      assert q[0] in q;
      PendingSkipMore(q[1..], now, skip, alarm);
    }
  }

  /** Erasing the fired entry and putting the alarm back leaves the same work to do. */
  lemma EndOnTail(s: State, e: Entry, b: seq<Entry>, ret: int, now: int)
    requires Inv(s, Some(e.id)) && e in s.queue && Tail(s, e, b) && (ret > 0 ==> e.alarm !in s.all)
    ensures var r := EndFire(s, e, ret, now);
      && Pending(Rest(r.queue, FirstId(b)), now, r.skip) == Pending(b, now, s.skip)
      && (b != [] ==> Rest(r.queue, FirstId(b)) != [])
      && (ret <= 0 ==> Rest(r.queue, FirstId(b)) == b)
  {
    TailAgrees(s, e, b);
    hide Ordered, DistinctIds, Insert, Erase, Pending, IsPending;
    if b != [] {
      var q := Erase(s.queue, e.id);
      FromSuccessor(s.queue, e.id);
      assert ([e] + b)[1..] == b;
      EraseOk(s.queue, e.id, s.nextId);
      if ret > 0 {
        PendingSkipMore(b, now, s.skip, e.alarm);
        FromSuffix(q, b[0].id);
        EraseMembers(s.queue, e.id);
        BackOnTail(q, b, Entry(s.nextId, ret, e.alarm), now, if ret <= now then s.skip + {e.alarm} else s.skip);
      }
    }
  }

  lemma BackOnTail(q: seq<Entry>, b: seq<Entry>, x: Entry, now: int, skip: set<nat>)
    requires QueueOk(q, x.id) && b != [] && From(q, b[0].id) == b && b[0] in q
    requires x.time <= now ==> x.alarm in skip
    ensures From(Insert(q, x), b[0].id) != []
    ensures Pending(From(Insert(q, x), b[0].id), now, skip) == Pending(b, now, skip)
  {
    FromInsert(q, b[0].id, x);
    SuffixOf(q, b);
    PendingInsert(b, x, now, skip);
    InsertMembers(b, x);
  }

  lemma SuffixOf(q: seq<Entry>, b: seq<Entry>)
    requires Ordered(q) && b != [] && From(q, b[0].id) == b
    ensures Ordered(b)
  {
    FromSuffix(q, b[0].id);
  }

  lemma EndIsEndWork(s: State, e: Entry, b: seq<Entry>, ret: int, now: int)
    requires Inv(s, Some(e.id)) && e in s.queue && Tail(s, e, b) && !s.aborted
    ensures var r, w := EndFire(s, e, ret, now), EndWork(WorkAt(s, b, now), e.alarm, ret, now);
      && (r.aborted <==> w.aborted)
      && (!r.aborted ==>
            && Inv(r, None) && (FirstId(b).Some? ==> Rest(r.queue, FirstId(b)) != [])
            && WorkAt(r, Rest(r.queue, FirstId(b)), now) == w
            && (ret <= 0 ==> Rest(r.queue, FirstId(b)) == b))
  {
    hide QueueOk, Agree, Insert, Erase, Pending, Rest;
    if ret > 0 ==> e.alarm !in s.all {
      EndOnTail(s, e, b, ret, now);
      EndKeepsInv(s, e, ret, now);
      NothingRest(EndFire(s, e, ret, now).queue);
    }
  }

  lemma NothingRest(q: seq<Entry>)
    ensures Rest(q, FirstId([])) == []
  {
  }

  /** After a firing that lives, the iterator sees exactly what the reference has left. */
  lemma FireOnRest(s: State, e: Entry, b: seq<Entry>, script: Script, now: int)
    requires Inv(s, None) && !s.aborted && From(s.queue, e.id) == [e] + b && IsPending(e, now, s.skip)
    ensures var r, next := Fire(s, e, script, now), Advance(s, e, script);
      var w := FireWork(WorkAt(s, [e] + b, now), script, now);
      && e in s.queue && Pending([e] + b, now, s.skip) == [e] + Pending(b, now, s.skip)
      && (r.aborted <==> w.aborted)
      && (!r.aborted ==>
            && Inv(r, None) && (next.Some? ==> Rest(r.queue, next) != [])
            && WorkAt(r, Rest(r.queue, next), now) == w
            && (script.ops == [] && script.ret <= 0 ==> Rest(r.queue, next) == b))
  {
    FromSuffix(s.queue, e.id);
    assert ([e] + b)[0] == e && e in [e] + b && ([e] + b)[1..] == b;
    assert Pending([e] + b, now, s.skip) == [e] + Pending(b, now, s.skip);
    assert ([e] + Pending(b, now, s.skip))[1..] == Pending(b, now, s.skip);
    BeginKeepsInv(s, e);
    hide Inv, OpsWork, ApplyAll, Pending, Rest, EndFire;
    var s1 := BeginFire(s, e.alarm);
    ScriptKeepsInv(s1, e, script.ops);
    var b' := OpsOnTail(s1, e, b, script.ops, now);
    var w0 := WorkAt(s, [e] + b, now);
    assert WorkAt(s1, b, now) == w0.(due := w0.due[1..], all := w0.all - {e.alarm});
    var s2 := ApplyAll(s1, script.ops);
    assert ([e] + b')[1..] == b';
    if !s2.aborted {
      EndIsEndWork(s2, e, b', script.ret, now);
    }
  }

  // ---------------------------------------------------------------- the round

  datatype Outcome = Outcome(final: State, fired: seq<Entry>)

  ghost predicate RoundOk(s: State, cur: Option<nat>) {
    Inv(s, None) && !s.aborted && (cur.Some? ==> Rest(s.queue, cur) != [])
  }

  lemma Step(s: State, cur: Option<nat>, now: int, scripts: seq<Script>, k: nat)
    requires RoundOk(s, cur) && cur.Some? && Rest(s.queue, cur)[0].time <= now
    ensures var rest := Rest(s.queue, cur); var e := rest[0]; var script := ScriptAt(scripts, k);
      var w := WorkAt(s, rest, now);
      if e.alarm in s.skip then
        && RoundOk(s, FirstId(rest[1..])) && Rest(s.queue, FirstId(rest[1..])) == rest[1..]
        && WorkAt(s, rest[1..], now) == w
      else
        var r, next := Fire(s, e, script, now), Advance(s, e, script);
        && e in s.queue && w.due != [] && w.due[0] == e
        && (r.aborted <==> FireWork(w, script, now).aborted)
        && (!r.aborted ==> RoundOk(r, next) && WorkAt(r, Rest(r.queue, next), now) == FireWork(w, script, now))
        && (!r.aborted && k >= |scripts| ==> |Rest(r.queue, next)| < |rest|)
  {
    var rest := Rest(s.queue, cur);
    FromSuffix(s.queue, cur.value);
    assert rest == [rest[0]] + rest[1..];
    if rest[0].alarm in s.skip {
      if |rest| > 1 {
        FromSuccessor(s.queue, cur.value);
      }
    } else {
      hide Fire, Advance, FireWork;
      FireOnRest(s, rest[0], rest[1..], ScriptAt(scripts, k), now);
    }
  }

  /** The loop of CallAndReregisterAlarmEvents; `k` counts the callbacks run so far. */
  ghost function Round(s: State, cur: Option<nat>, now: int, scripts: seq<Script>, k: nat): Outcome
    requires RoundOk(s, cur)
    decreases ScriptsLeft(scripts, k), |Rest(s.queue, cur)|
  {
    if cur.None? then Outcome(s.(skip := {}), []) else
    var rest := Rest(s.queue, cur);
    var e := rest[0];
    if e.time > now then Outcome(s.(skip := {}), []) else
    Step(s, cur, now, scripts, k);
    if e.alarm in s.skip then Round(s, FirstId(rest[1..]), now, scripts, k)
    else
      var script := ScriptAt(scripts, k);
      var r := Fire(s, e, script, now);
      if r.aborted then Outcome(r, [e])
      else
        var o := Round(r, Advance(s, e, script), now, scripts, k + 1);
        Outcome(o.final, [e] + o.fired)
  }

  lemma SkipIsFree(s: State, skip: set<nat>)
    requires Inv(s, None)
    ensures Inv(s.(skip := skip), None)
  {
  }

  lemma RoundEnds(s: State, now: int, scripts: seq<Script>, k: nat)
    requires RoundOk(s, None)
    ensures Round(s, None, now, scripts, k) == Outcome(s.(skip := {}), [])
  {
  }

  lemma RoundStarts(s: State)
    requires Inv(s, None) && !s.aborted
    ensures RoundOk(s, FirstId(s.queue))
  {
  }

  /** The four ways the loop body of a round can go. */
  lemma RoundUnfolds(s: State, cur: Option<nat>, now: int, scripts: seq<Script>, k: nat)
    requires RoundOk(s, cur) && cur.Some?
    ensures var rest := Rest(s.queue, cur); var e := rest[0]; var o := Round(s, cur, now, scripts, k);
      if e.time > now then o == Outcome(s.(skip := {}), [])
      else if e.alarm in s.skip then
        var next := FirstId(rest[1..]);
        RoundOk(s, next) && o == Round(s, next, now, scripts, k) && |Rest(s.queue, next)| < |rest|
      else
        var r, next := Fire(s, e, ScriptAt(scripts, k), now), Advance(s, e, ScriptAt(scripts, k));
        && e in s.queue
        && if r.aborted then o == Outcome(r, [e])
           else
             && RoundOk(r, next)
             && o == Outcome(Round(r, next, now, scripts, k + 1).final, [e] + Round(r, next, now, scripts, k + 1).fired)
             && (k >= |scripts| ==> |Rest(r.queue, next)| < |rest|)
  {
    FromSuffix(s.queue, cur.value);
    if Rest(s.queue, cur)[0].time <= now {
      hide Inv, Fire, Advance, FireWork, WorkAt;
      Step(s, cur, now, scripts, k);
    }
  }

  lemma {:induction false} NothingPending(q: seq<Entry>, now: int, skip: set<nat>)
    requires Ordered(q) && (q != [] ==> q[0].time > now)
    ensures Pending(q, now, skip) == []
  {
    if |q| > 1 {
      assert Ordered(q[1..]) && Before(q[0], q[1]);
      NothingPending(q[1..], now, skip);
    }
  }

  lemma NothingLeft(q: seq<Entry>, id: nat, now: int, skip: set<nat>, bound: nat)
    requires QueueOk(q, bound) && From(q, id) != [] && From(q, id)[0].time > now
    ensures Pending(From(q, id), now, skip) == []
  {
    FromSuffix(q, id);
    NothingPending(From(q, id), now, skip);
  }

  /**
   Whatever the callbacks do, a round over the live map fires exactly what the reference fires,
   and dies exactly where the reference does.
   */
  lemma {:induction false} RoundIsReference(s: State, cur: Option<nat>, now: int, scripts: seq<Script>, k: nat)
    requires RoundOk(s, cur)
    ensures var o := Round(s, cur, now, scripts, k);
      var ref := Reference(WorkAt(s, Rest(s.queue, cur), now), scripts, k, now);
      && o.fired == ref.fired && (o.final.aborted <==> ref.left.aborted)
      && (!o.final.aborted ==> Inv(o.final, None) && o.final.skip == {} && o.final.all == ref.left.all)
    decreases ScriptsLeft(scripts, k), |Rest(s.queue, cur)|
  {
    hide Fire, Advance, Ordered, DistinctIds, Agree, FireWork;
    SkipIsFree(s, {});
    if cur.Some? {
      var rest := Rest(s.queue, cur);
      var e := rest[0];
      if e.time > now {
        NothingLeft(s.queue, cur.value, now, s.skip, s.nextId);
      } else {
        Step(s, cur, now, scripts, k);
        if e.alarm in s.skip {
          RoundIsReference(s, FirstId(rest[1..]), now, scripts, k);
        } else {
          var script := ScriptAt(scripts, k);
          var r := Fire(s, e, script, now);
          if !r.aborted {
            RoundIsReference(r, Advance(s, e, script), now, scripts, k + 1);
          }
        }
      }
    }
  }

  // ---------------------------------------------------------------- order, for all callbacks

  /** Everything ahead is due, in order, and comes after an entry fired already. */
  ghost predicate Ahead(w: Work, e: Entry, now: int) {
    QueueOk(w.due, w.nextId) && e.id < w.nextId && forall f :: f in w.due ==> Before(e, f) && f.time <= now
  }

  lemma {:induction false} SurvivorsOk(q: seq<Entry>, ops: seq<Op>, bound: nat)
    requires QueueOk(q, bound)
    ensures QueueOk(Survivors(q, ops), bound)
  {
    if q != [] {
      assert q[0] in q;
      TailOk(q, bound);
      SurvivorsOk(q[1..], ops, bound);
      if !Drops(ops, q[0].alarm) {
        ConsOk(q[0], Survivors(q[1..], ops), bound);
      }
    }
  }

  lemma {:induction false} OpsStayAhead(w: Work, ops: seq<Op>, e: Entry, now: int)
    requires Ahead(w, e, now)
    ensures Ahead(OpsWork(w, ops, e.time, now), e, now)
    decreases |ops|
  {
    if ops != [] {
      var init, op := ops[..|ops| - 1], ops[|ops| - 1];
      OpsStayAhead(w, init, e, now);
      var m := OpsWork(w, init, e.time, now);
      match op
      case Register(time, alarm) =>
        var x := Entry(m.nextId, time, alarm);
        InsertOk(m.due, x);
        InsertMembers(m.due, x);
      case Unregister(_) =>
        SurvivorsOk(m.due, [op], m.nextId);
    }
  }

  /** Whatever the callbacks do, firings are in time order, ties in insertion order, and never early. */
  lemma {:induction false} ReferenceInOrder(w: Work, scripts: seq<Script>, k: nat, now: int)
    requires QueueOk(w.due, w.nextId) && forall f :: f in w.due ==> f.time <= now
    ensures var fired := Reference(w, scripts, k, now).fired;
      Ordered(fired) && forall f :: f in fired ==> f.time <= now
    ensures forall e :: Ahead(w, e, now) ==> forall f :: f in Reference(w, scripts, k, now).fired ==> Before(e, f)
    decreases ScriptsLeft(scripts, k), |w.due|
  {
    if w.due != [] && !w.aborted {
      var e, script := w.due[0], ScriptAt(scripts, k);
      assert e in w.due;
      TailOk(w.due, w.nextId);
      var w1 := w.(due := w.due[1..], all := w.all - {e.alarm});
      OpsStayAhead(w1, script.ops, e, now);
      var m := FireWork(w, script, now);
      assert Ahead(m, e, now);
      ReferenceInOrder(m, scripts, k + 1, now);
      InFront(e, Reference(m, scripts, k + 1, now).fired);
      hide Ordered;
      forall x | Ahead(w, x, now) ensures forall f :: f in Reference(w, scripts, k, now).fired ==> Before(x, f) {
      }
    }
  }

  lemma InFront(e: Entry, q: seq<Entry>)
    requires Ordered(q) && forall f :: f in q ==> Before(e, f)
    ensures Ordered([e] + q)
  {
    var r := [e] + q;
    forall i, j | 0 <= i < j < |r| ensures Before(r[i], r[j]) {
      assert r[j] == q[j - 1] && r[j] in q;
      assert i > 0 ==> r[i] == q[i - 1];
    }
  }

  /** A round of any callbacks fires in order and never early. */
  lemma RoundInOrder(s: State, now: int, scripts: seq<Script>)
    requires Inv(s, None) && !s.aborted
    ensures RoundOk(s, FirstId(s.queue))
    ensures var fired := Round(s, FirstId(s.queue), now, scripts, 0).fired;
      Ordered(fired) && forall f :: f in fired ==> f.time <= now
  {
    RoundStarts(s);
    RoundIsReference(s, FirstId(s.queue), now, scripts, 0);
    assert Rest(s.queue, FirstId(s.queue)) == s.queue;
    PendingOk(s.queue, now, s.skip, s.nextId);
    ReferenceInOrder(WorkAt(s, s.queue, now), scripts, 0, now);
  }

  lemma {:induction false} PendingOk(q: seq<Entry>, now: int, skip: set<nat>, bound: nat)
    requires QueueOk(q, bound)
    ensures QueueOk(Pending(q, now, skip), bound)
  {
    if q != [] {
      assert q[0] in q;
      TailOk(q, bound);
      PendingOk(q[1..], now, skip, bound);
      if IsPending(q[0], now, skip) {
        ConsOk(q[0], Pending(q[1..], now, skip), bound);
      }
    }
  }

  // ---------------------------------------------------------------- a round that is put off no further

  /** How many firings come before the one that dies; all of them if none does. */
  function FirstAbort(all: set<nat>, fired: seq<Entry>, scripts: seq<Script>, k: nat): (n: nat)
    ensures n <= |fired|
    decreases |fired|
  {
    if fired == [] || FireAborts(all, fired[0].alarm, ScriptAt(scripts, k)) then 0
    else 1 + FirstAbort(AllNext(all, fired[0].alarm, ScriptAt(scripts, k)), fired[1..], scripts, k + 1)
  }

  /** Up to the firing that dies, if there is one. */
  function Lived(fired: seq<Entry>, n: nat): seq<Entry>
    requires n <= |fired|
  {
    if n < |fired| then fired[..n + 1] else fired
  }

  /** Some call registers alarm `b` at `t`, due and not behind, and no call after it takes it back. */
  predicate LeftBy(ops: seq<Op>, at: int, now: int, skip: set<nat>, t: int, b: nat) {
    at <= t <= now && b !in skip &&
    exists i :: 0 <= i < |ops| && ops[i] == Register(t, b) && !Drops(ops[i + 1..], b)
  }

  /**
   Of the firings `x`, of which `n` live: one that comes before an entry of time `t` takes alarm
   `b` off, or the process dies before that entry's turn.
   */
  predicate TakenOff(t: int, b: nat, x: seq<Entry>, n: nat, scripts: seq<Script>, k: nat)
    requires n <= |x|
  {
    || (exists j :: 0 <= j < n && x[j].time <= t && DroppedBy(scripts, k + j, b))
    || (n < |x| && x[n].time <= t)
  }

  function SkipNext(skip: set<nat>, alarm: nat, script: Script, now: int): set<nat> {
    if 0 < script.ret <= now then skip + {alarm} else skip
  }

  /** All that a callback leaves due and ahead is taken off by the firings `x` before its turn. */
  ghost predicate LeavesNothing(ops: seq<Op>, at: int, now: int, skip: set<nat>,
                                x: seq<Entry>, n: nat, scripts: seq<Script>, k: nat)
    requires n <= |x|
  {
    forall t, b :: LeftBy(ops, at, now, skip, t, b) ==> TakenOff(t, b, x, n, scripts, k)
  }

  /** Whatever a firing leaves that is due and ahead, a later firing takes off before its turn. */
  ghost predicate Quiet(x: seq<Entry>, n: nat, scripts: seq<Script>, k: nat, now: int, skip: set<nat>)
    requires n <= |x|
    decreases |x|
  {
    n == 0 ||
    var script := ScriptAt(scripts, k);
    && LeavesNothing(script.ops, x[0].time, now, skip, x[1..], n - 1, scripts, k + 1)
    && Quiet(x[1..], n - 1, scripts, k + 1, now, SkipNext(skip, x[0].alarm, script, now))
  }

  predicate DroppedBy(scripts: seq<Script>, n: nat, alarm: nat) { Drops(ScriptAt(scripts, n).ops, alarm) }

  /** The entries that are older than the round. */
  function Old(q: seq<Entry>, bound: nat): (r: seq<Entry>)
    ensures |r| <= |q|
    ensures forall f :: f in r <==> f in q && f.id < bound
  {
    if q == [] then [] else if q[0].id < bound then [q[0]] + Old(q[1..], bound) else Old(q[1..], bound)
  }

  lemma {:induction false} OldInsert(q: seq<Entry>, x: Entry, bound: nat)
    requires x.id >= bound
    ensures Old(Insert(q, x), bound) == Old(q, bound)
  {
    if q != [] {
      OldInsert(q[1..], x, bound);
      assert ([x] + q)[1..] == q;
    }
  }

  lemma {:induction false} OldSurvivors(q: seq<Entry>, ops: seq<Op>, bound: nat)
    ensures Old(Survivors(q, ops), bound) == Survivors(Old(q, bound), ops)
  {
    if q != [] {
      OldSurvivors(q[1..], ops, bound);
    }
  }

  lemma {:induction false} OldAll(q: seq<Entry>, bound: nat)
    requires forall f :: f in q ==> f.id < bound
    ensures Old(q, bound) == q
  {
    if q != [] {
      assert q[0] in q;
      OldAll(q[1..], bound);
    }
  }

  /** What a callback does to the due entries that were there before it, and to the duplicate set. */
  lemma {:induction false} OpsOnOld(w: Work, ops: seq<Op>, at: int, now: int, bound: nat)
    requires !w.aborted && bound <= w.nextId
    ensures var r := OpsWork(w, ops, at, now);
      && (r.aborted <==> OpsAbort(w.all, ops)) && r.skip == w.skip && w.nextId <= r.nextId
      && (!r.aborted ==> r.all == AllAfter(w.all, ops) && Old(r.due, bound) == Survivors(Old(w.due, bound), ops))
    decreases |ops|
  {
    hide Old, Survivors, Insert;
    if ops == [] {
      SurvivorsAll(Old(w.due, bound), ops);
    } else {
      var init, op := ops[..|ops| - 1], ops[|ops| - 1];
      assert ops == init + [op];
      OpsOnOld(w, init, at, now, bound);
      var m := OpsWork(w, init, at, now);
      SurvivorsSnoc(Old(w.due, bound), init, op);
      match op
      case Register(time, alarm) =>
        OldInsert(m.due, Entry(m.nextId, time, alarm), bound);
        SurvivorsAll(Survivors(Old(w.due, bound), init), [op]);
      case Unregister(_) =>
        OldSurvivors(m.due, [op], bound);
    }
  }

  lemma FireOnOld(w: Work, script: Script, now: int, bound: nat)
    requires !w.aborted && w.due != [] && bound <= w.nextId
    ensures var r := FireWork(w, script, now); var e := w.due[0];
      && (r.aborted <==> FireAborts(w.all, e.alarm, script)) && w.nextId <= r.nextId
      && (!r.aborted ==>
            && r.all == AllNext(w.all, e.alarm, script) && r.skip == SkipNext(w.skip, e.alarm, script, now)
            && Old(r.due, bound) == Survivors(Old(w.due[1..], bound), script.ops))
  {
    var e := w.due[0];
    OpsOnOld(w.(due := w.due[1..], all := w.all - {e.alarm}), script.ops, e.time, now, bound);
  }

  // ---------------------------------------------------------------- what one callback leaves behind

  predicate NewIn(q: seq<Entry>, bound: nat, t: int, b: nat) {
    exists f :: f in q && f.id >= bound && f.time == t && f.alarm == b
  }

  lemma LeftBySnoc(ops: seq<Op>, op: Op, at: int, now: int, skip: set<nat>, t: int, b: nat)
    ensures LeftBy(ops + [op], at, now, skip, t, b) <==>
      || (op == Register(t, b) && at <= t <= now && b !in skip)
      || (LeftBy(ops, at, now, skip, t, b) && op != Unregister(b))
  {
    var all := ops + [op];
    assert all[|ops|] == op && all[|ops| + 1..] == [];
    forall i | 0 <= i < |ops|
      ensures all[i] == ops[i] && (Drops(all[i + 1..], b) <==> Drops(ops[i + 1..], b) || op == Unregister(b))
    {
      assert all[i + 1..] == ops[i + 1..] + [op];
      DropsSnoc(ops[i + 1..], op, b);
      assert [op][0] == op;
    }
  }

  lemma NewAfterInsert(q: seq<Entry>, x: Entry, bound: nat, t: int, b: nat)
    requires x.id >= bound
    ensures NewIn(Insert(q, x), bound, t, b) <==> NewIn(q, bound, t, b) || (x.time == t && x.alarm == b)
  {
    InsertMembers(q, x);
    if NewIn(q, bound, t, b) {
      var f :| f in q && f.id >= bound && f.time == t && f.alarm == b;
      assert f in Insert(q, x);
    }
    assert x in Insert(q, x);
  }

  lemma NewAfterUnregister(q: seq<Entry>, alarm: nat, bound: nat, t: int, b: nat)
    ensures NewIn(Survivors(q, [Unregister(alarm)]), bound, t, b) <==> NewIn(q, bound, t, b) && b != alarm
  {
    var ops := [Unregister(alarm)];
    assert ops[0] == Unregister(alarm);
    if NewIn(q, bound, t, b) && b != alarm {
      var f :| f in q && f.id >= bound && f.time == t && f.alarm == b;
      assert f in Survivors(q, ops);
    }
  }

  lemma {:induction false} OpsLeave(w: Work, ops: seq<Op>, at: int, now: int, t: int, b: nat)
    requires !w.aborted && !OpsWork(w, ops, at, now).aborted && forall f :: f in w.due ==> f.id < w.nextId
    ensures var r := OpsWork(w, ops, at, now);
      && r.skip == w.skip && w.nextId <= r.nextId
      && (NewIn(r.due, w.nextId, t, b) <==> LeftBy(ops, at, now, w.skip, t, b))
    decreases |ops|
  {
    if ops != [] {
      var init, op := ops[..|ops| - 1], ops[|ops| - 1];
      assert ops == init + [op];
      OpsLeave(w, init, at, now, t, b);
      LeftBySnoc(init, op, at, now, w.skip, t, b);
      var m := OpsWork(w, init, at, now);
      hide NewIn, LeftBy, Insert, Survivors;
      match op
      case Register(time, alarm) => NewAfterInsert(m.due, Entry(m.nextId, time, alarm), w.nextId, t, b);
      case Unregister(alarm) => NewAfterUnregister(m.due, alarm, w.nextId, t, b);
    }
  }

  /**
   Exactly what one callback that lives adds to the round: the entries it registers that are due
   and not behind, of alarms not put back in this round, and that it does not take back itself.
   */
  lemma FireLeaves(w: Work, script: Script, now: int, t: int, b: nat)
    requires !w.aborted && w.due != [] && forall f :: f in w.due ==> f.id < w.nextId
    requires !FireWork(w, script, now).aborted
    ensures NewIn(FireWork(w, script, now).due, w.nextId, t, b) <==>
            LeftBy(script.ops, w.due[0].time, now, w.skip, t, b)
  {
    var e := w.due[0];
    OpsLeave(w.(due := w.due[1..], all := w.all - {e.alarm}), script.ops, e.time, now, t, b);
  }

  // ---------------------------------------------------------------- when only what was due fires

  ghost predicate OnlyOld(fired: seq<Entry>, bound: nat) { forall f :: f in fired ==> f.id < bound }

  /** One firing of an old entry, seen by the reference and by the simple list. */
  lemma OldFires(w: Work, scripts: seq<Script>, k: nat, now: int, bound: nat)
    requires !w.aborted && w.due != [] && w.due[0].id < bound <= w.nextId
    ensures var e, script := w.due[0], ScriptAt(scripts, k);
      var m, ref, x := FireWork(w, script, now), Reference(w, scripts, k, now), Expected(Old(w.due, bound), scripts, k);
      var after := Reference(m, scripts, k + 1, now);
      && ref.fired == [e] + after.fired && ref.left == after.left && w.nextId <= m.nextId && x != [] && x[0] == e
      && (m.aborted ==> after.fired == [] && after.left == m && FirstAbort(w.all, x, scripts, k) == 0)
      && (!m.aborted ==>
            && x[1..] == Expected(Old(m.due, bound), scripts, k + 1)
            && m.skip == SkipNext(w.skip, e.alarm, script, now)
            && FirstAbort(w.all, x, scripts, k) == 1 + FirstAbort(m.all, x[1..], scripts, k + 1))
  {
    var e, script, olds := w.due[0], ScriptAt(scripts, k), Old(w.due, bound);
    assert olds == [e] + Old(w.due[1..], bound) && olds[1..] == Old(w.due[1..], bound);
    FireOnOld(w, script, now, bound);
    hide FireWork, FireAborts, AllNext, Survivors, Old;
    var rest := Expected(Survivors(olds[1..], script.ops), scripts, k + 1);
    assert ([e] + rest)[1..] == rest;
  }

  /** If nothing registered since fires, the firings are those of the simple list, up to the one that dies. */
  lemma {:induction false} OldFiringsAreExpected(w: Work, scripts: seq<Script>, k: nat, now: int, bound: nat)
    requires !w.aborted && bound <= w.nextId && OnlyOld(Reference(w, scripts, k, now).fired, bound)
    ensures var x, ref := Expected(Old(w.due, bound), scripts, k), Reference(w, scripts, k, now);
      var n := FirstAbort(w.all, x, scripts, k);
      ref.fired == Lived(x, n) && (ref.left.aborted <==> n < |x|)
    decreases ScriptsLeft(scripts, k), |w.due|
  {
    if w.due != [] {
      var m := FireWork(w, ScriptAt(scripts, k), now);
      FirstIsOld(w.due[0], Reference(m, scripts, k + 1, now).fired, bound);
      OldFires(w, scripts, k, now, bound);
      hide OnlyOld, FireWork, Reference, Expected, FirstAbort, Old;
      var x := Expected(Old(w.due, bound), scripts, k);
      assert x == [x[0]] + x[1..];
      if !m.aborted {
        if k >= |scripts| { GetsShorter(w, scripts, k, now); }
        OldFiringsAreExpected(m, scripts, k + 1, now, bound);
        LivedCons(x, FirstAbort(m.all, x[1..], scripts, k + 1));
      }
    }
  }

  lemma LivedCons(x: seq<Entry>, n: nat)
    requires x != [] && n <= |x| - 1
    ensures Lived(x, n + 1) == [x[0]] + Lived(x[1..], n)
  {
  }

  lemma FirstIsOld(e: Entry, fired: seq<Entry>, bound: nat)
    requires OnlyOld([e] + fired, bound)
    ensures e.id < bound && OnlyOld(fired, bound)
  {
    assert ([e] + fired)[0] == e;
    forall f | f in fired ensures f.id < bound { assert f in [e] + fired; }
  }

  /** What is due and new is taken off before its turn. */
  ghost predicate NewTakenOff(w: Work, bound: nat, x: seq<Entry>, n: nat, scripts: seq<Script>, k: nat)
    requires n <= |x|
  {
    forall t, b :: NewIn(w.due, bound, t, b) ==> TakenOff(t, b, x, n, scripts, k)
  }

  ghost predicate Sound(w: Work, now: int) {
    !w.aborted && QueueOk(w.due, w.nextId) && forall f :: f in w.due ==> f.time <= now
  }

  lemma SoundFire(w: Work, script: Script, now: int)
    requires Sound(w, now) && w.due != [] && !FireWork(w, script, now).aborted
    ensures Sound(FireWork(w, script, now), now)
    ensures forall f :: f in w.due ==> w.due[0].time <= f.time
  {
    var e := w.due[0];
    assert e in w.due;
    TailOk(w.due, w.nextId);
    OpsStayAhead(w.(due := w.due[1..], all := w.all - {e.alarm}), script.ops, e, now);
  }

  lemma TakenOffStep(t: int, b: nat, x: seq<Entry>, n: nat, scripts: seq<Script>, k: nat)
    requires 0 < n <= |x|
    ensures TakenOff(t, b, x, n, scripts, k) <==>
      (x[0].time <= t && DroppedBy(scripts, k, b)) || TakenOff(t, b, x[1..], n - 1, scripts, k + 1)
  {
    hide DroppedBy;
    var y := x[1..];
    if j :| 0 <= j < n && x[j].time <= t && DroppedBy(scripts, k + j, b) {
      if j > 0 {
        assert y[j - 1] == x[j] && k + 1 + (j - 1) == k + j;
      }
    }
    if j :| 0 <= j < n - 1 && y[j].time <= t && DroppedBy(scripts, k + 1 + j, b) {
      assert x[j + 1] == y[j] && k + (j + 1) == k + 1 + j;
    }
    if x[0].time <= t && DroppedBy(scripts, k, b) {
      assert DroppedBy(scripts, k + 0, b);
    }
  }

  /** A new entry at the front is not taken off: every older entry comes after it. */
  lemma NewFirst(w: Work, bound: nat, x: seq<Entry>, n: nat, scripts: seq<Script>, k: nat)
    requires w.due != [] && w.due[0].id >= bound && Ordered(w.due) && n <= |x|
    requires forall f :: f in x ==> f in w.due && f.id < bound
    ensures !NewTakenOff(w, bound, x, n, scripts, k)
  {
    var e := w.due[0];
    assert e in w.due;
    assert NewIn(w.due, bound, e.time, e.alarm);
    forall j | 0 <= j < |x| ensures x[j].time > e.time {
      assert x[j] in x;
      var i :| 0 <= i < |w.due| && w.due[i] == x[j];
      assert i > 0 && Before(w.due[0], w.due[i]);
    }
    assert !TakenOff(e.time, e.alarm, x, n, scripts, k);
  }

  lemma NewAfterFire(w: Work, script: Script, now: int, bound: nat, t: int, b: nat)
    requires Sound(w, now) && w.due != [] && w.due[0].id < bound <= w.nextId && !FireWork(w, script, now).aborted
    ensures NewIn(FireWork(w, script, now).due, bound, t, b) <==>
      || (NewIn(w.due, bound, t, b) && !Drops(script.ops, b))
      || LeftBy(script.ops, w.due[0].time, now, w.skip, t, b)
  {
    var m, rest := FireWork(w, script, now), w.due[1..];
    assert w.due == [w.due[0]] + rest;
    FireLeaves(w, script, now, t, b);
    FireOnOld(w, script, now, w.nextId);
    OldAll(rest, w.nextId);
    hide FireWork, LeftBy, QueueOk;
    assert forall f :: f in m.due && f.id < w.nextId <==> f in rest && !Drops(script.ops, f.alarm) by {
      assert forall f :: f in Old(m.due, w.nextId) <==> f in m.due && f.id < w.nextId;
      assert forall f :: f in Survivors(rest, script.ops) <==> f in rest && !Drops(script.ops, f.alarm);
    }
    if f :| f in m.due && f.id >= bound && f.time == t && f.alarm == b {
      if f.id < w.nextId {
        assert f in w.due;
      } else {
        assert NewIn(m.due, w.nextId, t, b);
      }
    }
    if NewIn(w.due, bound, t, b) && !Drops(script.ops, b) {
      var f :| f in w.due && f.id >= bound && f.time == t && f.alarm == b;
      assert f in rest && f in m.due;
    }
    if NewIn(m.due, w.nextId, t, b) {
      var f :| f in m.due && f.id >= w.nextId && f.time == t && f.alarm == b;
      assert f.id >= bound;
    }
  }

  /** Taking a firing off the front moves the burden of proof on by one callback. */
  lemma NewTakenOffStep(w: Work, bound: nat, x: seq<Entry>, n: nat, scripts: seq<Script>, k: nat, now: int)
    requires Sound(w, now) && w.due != [] && w.due[0].id < bound <= w.nextId && 0 < n <= |x| && x[0] == w.due[0]
    requires !FireWork(w, ScriptAt(scripts, k), now).aborted
    ensures var script := ScriptAt(scripts, k);
      NewTakenOff(FireWork(w, script, now), bound, x[1..], n - 1, scripts, k + 1) <==>
      && NewTakenOff(w, bound, x, n, scripts, k)
      && LeavesNothing(script.ops, x[0].time, now, w.skip, x[1..], n - 1, scripts, k + 1)
  {
    var script := ScriptAt(scripts, k);
    var m, y := FireWork(w, script, now), x[1..];
    SoundFire(w, script, now);
    forall t: int, b: nat
      ensures NewIn(m.due, bound, t, b) <==>
        || (NewIn(w.due, bound, t, b) && !Drops(script.ops, b))
        || LeftBy(script.ops, x[0].time, now, w.skip, t, b)
      ensures TakenOff(t, b, x, n, scripts, k) <==>
        (x[0].time <= t && DroppedBy(scripts, k, b)) || TakenOff(t, b, y, n - 1, scripts, k + 1)
      ensures NewIn(w.due, bound, t, b) ==> x[0].time <= t
    {
      NewAfterFire(w, script, now, bound, t, b);
      TakenOffStep(t, b, x, n, scripts, k);
    }
    hide NewIn, LeftBy, TakenOff, Drops, FireWork, Sound;
    if NewTakenOff(m, bound, y, n - 1, scripts, k + 1) {
      forall t, b | NewIn(w.due, bound, t, b) ensures TakenOff(t, b, x, n, scripts, k) {
        if !Drops(script.ops, b) { assert NewIn(m.due, bound, t, b); }
      }
      forall t, b | LeftBy(script.ops, x[0].time, now, w.skip, t, b) ensures TakenOff(t, b, y, n - 1, scripts, k + 1) {
        assert NewIn(m.due, bound, t, b);
      }
    }
  }

  /** The claim of OnlyOldIff. */
  ghost predicate FiresOnlyOldIff(w: Work, scripts: seq<Script>, k: nat, now: int, bound: nat) {
    var x := Expected(Old(w.due, bound), scripts, k);
    var n := FirstAbort(w.all, x, scripts, k);
    OnlyOld(Reference(w, scripts, k, now).fired, bound) <==>
    NewTakenOff(w, bound, x, n, scripts, k) && Quiet(x, n, scripts, k, now, w.skip)
  }

  lemma QuietUnfolds(x: seq<Entry>, n: nat, scripts: seq<Script>, k: nat, now: int, skip: set<nat>)
    requires 0 < n <= |x|
    ensures var script := ScriptAt(scripts, k);
      Quiet(x, n, scripts, k, now, skip) <==>
      && LeavesNothing(script.ops, x[0].time, now, skip, x[1..], n - 1, scripts, k + 1)
      && Quiet(x[1..], n - 1, scripts, k + 1, now, SkipNext(skip, x[0].alarm, script, now))
  {
  }

  lemma OldFiresIff(w: Work, scripts: seq<Script>, k: nat, now: int, bound: nat)
    requires Sound(w, now) && w.due != [] && w.due[0].id < bound <= w.nextId
    requires var m := FireWork(w, ScriptAt(scripts, k), now);
      !m.aborted ==> FiresOnlyOldIff(m, scripts, k + 1, now, bound)
    ensures FiresOnlyOldIff(w, scripts, k, now, bound)
  {
    OrderOf(w, now);
    OldFires(w, scripts, k, now, bound);
    var x, m := Expected(Old(w.due, bound), scripts, k), FireWork(w, ScriptAt(scripts, k), now);
    var n := FirstAbort(w.all, x, scripts, k);
    hide NewTakenOff, LeavesNothing, Quiet, OnlyOld, FireWork, Sound, Reference, Expected, FirstAbort, Old, SkipNext,
      ScriptAt;
    OnlyOldCons(w.due[0], Reference(m, scripts, k + 1, now).fired, bound);
    if m.aborted {
      DiesAtOnce(w, bound, x, scripts, k, now);
    } else {
      QuietUnfolds(x, n, scripts, k, now, w.skip);
      NewTakenOffStep(w, bound, x, n, scripts, k, now);
    }
  }

  /**
   Exactly when nothing registered during the round fires: what is due and new now, and what each
   firing leaves, is taken off before its turn.
   */
  lemma {:induction false} OnlyOldIff(w: Work, scripts: seq<Script>, k: nat, now: int, bound: nat)
    requires Sound(w, now) && bound <= w.nextId
    ensures FiresOnlyOldIff(w, scripts, k, now, bound)
    decreases ScriptsLeft(scripts, k), |w.due|
  {
    hide FiresOnlyOldIff, Sound, FireWork;
    if w.due == [] {
      NothingDue(w, scripts, k, now, bound);
    } else if w.due[0].id >= bound {
      NewWouldFire(w, scripts, k, now, bound);
    } else {
      OrderOf(w, now);
      var m := FireWork(w, ScriptAt(scripts, k), now);
      if !m.aborted {
        SoundFire(w, ScriptAt(scripts, k), now);
        IdsGrow(w, ScriptAt(scripts, k), now);
        if k >= |scripts| { GetsShorter(w, scripts, k, now); }
        OnlyOldIff(m, scripts, k + 1, now, bound);
      }
      OldFiresIff(w, scripts, k, now, bound);
    }
  }

  lemma IdsGrow(w: Work, script: Script, now: int)
    requires !w.aborted && w.due != []
    ensures w.nextId <= FireWork(w, script, now).nextId
  {
    FireOnOld(w, script, now, w.nextId);
  }

  lemma GetsShorter(w: Work, scripts: seq<Script>, k: nat, now: int)
    requires w.due != [] && k >= |scripts|
    ensures |FireWork(w, ScriptAt(scripts, k), now).due| < |w.due|
  {
  }

  lemma OrderOf(w: Work, now: int)
    requires Sound(w, now)
    ensures !w.aborted && Ordered(w.due)
  {
  }

  lemma NothingDue(w: Work, scripts: seq<Script>, k: nat, now: int, bound: nat)
    requires w.due == []
    ensures FiresOnlyOldIff(w, scripts, k, now, bound)
  {
    assert Reference(w, scripts, k, now).fired == [];
  }

  lemma NewWouldFire(w: Work, scripts: seq<Script>, k: nat, now: int, bound: nat)
    requires Sound(w, now) && w.due != [] && w.due[0].id >= bound
    ensures FiresOnlyOldIff(w, scripts, k, now, bound)
  {
    var x := Expected(Old(w.due, bound), scripts, k);
    var fired := Reference(w, scripts, k, now).fired;
    assert fired[0] == w.due[0] && fired[0] in fired;
    ExpectedFromDue(Old(w.due, bound), scripts, k);
    hide NewTakenOff, Reference, Expected, FirstAbort, Quiet;
    NewFirst(w, bound, x, FirstAbort(w.all, x, scripts, k), scripts, k);
  }

  lemma OnlyOldCons(e: Entry, fired: seq<Entry>, bound: nat)
    requires e.id < bound
    ensures OnlyOld([e] + fired, bound) <==> OnlyOld(fired, bound)
  {
    if OnlyOld([e] + fired, bound) {
      forall f | f in fired ensures f.id < bound { assert f in [e] + fired; }
    }
  }

  lemma DiesAtOnce(w: Work, bound: nat, x: seq<Entry>, scripts: seq<Script>, k: nat, now: int)
    requires w.due != [] && Ordered(w.due) && x != [] && x[0] == w.due[0]
    ensures NewTakenOff(w, bound, x, 0, scripts, k) && Quiet(x, 0, scripts, k, now, w.skip) && OnlyOld([], bound)
  {
    forall t, b | NewIn(w.due, bound, t, b) ensures TakenOff(t, b, x, 0, scripts, k) {
      var f :| f in w.due && f.id >= bound && f.time == t && f.alarm == b;
      var i :| 0 <= i < |w.due| && w.due[i] == f;
      assert i > 0 ==> Before(w.due[0], w.due[i]);
    }
  }

  // ---------------------------------------------------------------- what a round means

  /**
   A whole round from the first entry fires the simple list of what was due when it began, up to
   and including the first firing that trips the duplicate check, exactly when every entry a
   firing leaves due and ahead is taken off by a later one before its turn.
   */
  lemma RoundFromStart(s: State, now: int, scripts: seq<Script>)
    requires Inv(s, None) && !s.aborted && s.skip == {}
    ensures RoundOk(s, FirstId(s.queue))
    ensures var o, x := Round(s, FirstId(s.queue), now, scripts, 0), Expected(Pending(s.queue, now, {}), scripts, 0);
      var n := FirstAbort(s.all, x, scripts, 0);
      && (o.fired == Lived(x, n) <==> Quiet(x, n, scripts, 0, now, {}))
      && (Quiet(x, n, scripts, 0, now, {}) ==> (o.final.aborted <==> n < |x|))
      && (!o.final.aborted ==> Inv(o.final, None) && o.final.skip == {})
  {
    RoundStarts(s);
    RoundIsReference(s, FirstId(s.queue), now, scripts, 0);
    assert Rest(s.queue, FirstId(s.queue)) == s.queue;
    var w := WorkAt(s, s.queue, now);
    PendingOk(s.queue, now, s.skip, s.nextId);
    OldAll(w.due, s.nextId);
    var x := Expected(w.due, scripts, 0);
    OnlyOldIff(w, scripts, 0, now, s.nextId);
    ExpectedFromDue(w.due, scripts, 0);
    NothingNew(w.due, s.nextId);
    if OnlyOld(Reference(w, scripts, 0, now).fired, s.nextId) {
      OldFiringsAreExpected(w, scripts, 0, now, s.nextId);
    }
  }

  lemma NothingNew(q: seq<Entry>, bound: nat)
    requires forall f :: f in q ==> f.id < bound
    ensures forall t, b :: !NewIn(q, bound, t, b)
  {
  }

  /** Firings are in time order with ties in insertion order, and each is of an entry that was due. */
  lemma {:induction false} ExpectedOrdered(due: seq<Entry>, scripts: seq<Script>, k: nat)
    requires Ordered(due)
    ensures Ordered(Expected(due, scripts, k))
    ensures forall f :: f in Expected(due, scripts, k) ==> f in due
    decreases |due|
  {
    if due != [] {
      var rest := Survivors(due[1..], ScriptAt(scripts, k).ops);
      assert Ordered(due[1..]);
      SurvivorsOrdered(due[1..], ScriptAt(scripts, k).ops);
      ExpectedOrdered(rest, scripts, k + 1);
      var e := Expected(rest, scripts, k + 1);
      assert forall f :: f in e ==> f in due[1..];
      forall i, j | 0 <= i < j < |[due[0]] + e| ensures Before(([due[0]] + e)[i], ([due[0]] + e)[j]) {
        assert e[j - 1] in due[1..];
      }
    }
  }

  lemma {:induction false} SurvivorsOrdered(q: seq<Entry>, ops: seq<Op>)
    requires Ordered(q)
    ensures Ordered(Survivors(q, ops))
  {
    if q != [] {
      assert Ordered(q[1..]);
      SurvivorsOrdered(q[1..], ops);
      assert forall f :: f in q[1..] ==> Before(q[0], f);
      var r := Survivors(q[1..], ops);
      forall i, j | 0 <= i < j < |[q[0]] + r| ensures Before(([q[0]] + r)[i], ([q[0]] + r)[j]) {
        assert r[j - 1] in r;
      }
    }
  }

  /** A due alarm does not fire only if a callback that did fire unregistered it. */
  lemma {:induction false} OmittedWasUnregistered(due: seq<Entry>, scripts: seq<Script>, k: nat, e: Entry)
    requires e in due && e !in Expected(due, scripts, k)
    ensures exists n: nat :: k <= n < k + |Expected(due, scripts, k)| && DroppedBy(scripts, n, e.alarm)
    decreases |due|
  {
    var rest := Survivors(due[1..], ScriptAt(scripts, k).ops);
    assert Expected(due, scripts, k) == [due[0]] + Expected(rest, scripts, k + 1);
    assert due[0] in Expected(due, scripts, k);
    assert e in due[1..];
    if e !in rest {
      assert DroppedBy(scripts, k, e.alarm);
    } else {
      OmittedWasUnregistered(rest, scripts, k + 1, e);
    }
  }

  /** An alarm that fires was unregistered by none of the callbacks before it. */
  lemma {:induction false} FiredWasNotUnregistered(due: seq<Entry>, scripts: seq<Script>, k: nat, p: nat, j: nat)
    requires j < p < |Expected(due, scripts, k)|
    ensures !DroppedBy(scripts, k + j, Expected(due, scripts, k)[p].alarm)
    decreases |due|
  {
    var rest := Survivors(due[1..], ScriptAt(scripts, k).ops);
    var e := Expected(rest, scripts, k + 1);
    assert Expected(due, scripts, k)[p] == e[p - 1];
    ExpectedFromDue(rest, scripts, k + 1);
    assert e[p - 1] in rest;
    if j > 0 {
      FiredWasNotUnregistered(rest, scripts, k + 1, p - 1, j - 1);
    }
  }

  lemma {:induction false} ExpectedFromDue(due: seq<Entry>, scripts: seq<Script>, k: nat)
    ensures forall f :: f in Expected(due, scripts, k) ==> f in due
    decreases |due|
  {
    if due != [] {
      ExpectedFromDue(Survivors(due[1..], ScriptAt(scripts, k).ops), scripts, k + 1);
    }
  }

  // ---------------------------------------------------------------- what the skip set achieves

  /** Every alarm ahead is registered, was not put back in this round, and is ahead once. */
  ghost predicate DueOnce(w: Work) {
    DistinctAlarms(w.due) && forall f :: f in w.due ==> f.alarm in w.all && f.alarm !in w.skip
  }

  ghost predicate DistinctAlarms(q: seq<Entry>) {
    forall i, j :: 0 <= i < j < |q| ==> q[i].alarm != q[j].alarm
  }

  lemma {:induction false} InsertDistinct(q: seq<Entry>, x: Entry)
    requires DistinctAlarms(q) && forall f :: f in q ==> f.alarm != x.alarm
    ensures DistinctAlarms(Insert(q, x))
  {
    if q != [] {
      assert q[0] in q && DistinctAlarms(q[1..]);
      if q[0].time <= x.time {
        InsertDistinct(q[1..], x);
        InsertMembers(q[1..], x);
        FrontDistinct(q[0], Insert(q[1..], x));
      } else {
        FrontDistinct(x, q);
      }
    }
  }

  lemma FrontDistinct(e: Entry, q: seq<Entry>)
    requires DistinctAlarms(q) && forall f :: f in q ==> f.alarm != e.alarm
    ensures DistinctAlarms([e] + q)
  {
    var r := [e] + q;
    forall i, j | 0 <= i < j < |r| ensures r[i].alarm != r[j].alarm {
      assert r[j] == q[j - 1] && r[j] in q;
      assert i > 0 ==> r[i] == q[i - 1];
    }
  }

  lemma {:induction false} SurvivorsDistinct(q: seq<Entry>, ops: seq<Op>)
    requires DistinctAlarms(q)
    ensures DistinctAlarms(Survivors(q, ops))
  {
    if q != [] {
      assert DistinctAlarms(q[1..]);
      SurvivorsDistinct(q[1..], ops);
      assert forall f :: f in q[1..] ==> f.alarm != q[0].alarm;
      FrontDistinct(q[0], Survivors(q[1..], ops));
    }
  }

  lemma OpKeepsDueOnce(w: Work, op: Op, at: int, now: int)
    requires DueOnce(w)
    ensures DueOnce(OpWork(w, op, at, now)) && OpWork(w, op, at, now).skip == w.skip
  {
    assert DistinctAlarms(w.due);
    match op
    case Register(time, alarm) =>
      if alarm !in w.all {
        var x := Entry(w.nextId, time, alarm);
        InsertDistinct(w.due, x);
        InsertMembers(w.due, x);
        hide Insert;
        assert DistinctAlarms(OpWork(w, op, at, now).due);
      }
    case Unregister(alarm) =>
      SurvivorsDistinct(w.due, [op]);
      assert [op][0] == op;
      assert DistinctAlarms(OpWork(w, op, at, now).due);
  }

  lemma {:induction false} OpsKeepDueOnce(w: Work, ops: seq<Op>, at: int, now: int)
    requires DueOnce(w)
    ensures DueOnce(OpsWork(w, ops, at, now)) && OpsWork(w, ops, at, now).skip == w.skip
    decreases |ops|
  {
    hide DueOnce, OpWork;
    if ops != [] {
      OpsKeepDueOnce(w, ops[..|ops| - 1], at, now);
      OpKeepsDueOnce(OpsWork(w, ops[..|ops| - 1], at, now), ops[|ops| - 1], at, now);
    }
  }

  lemma FireKeepsDueOnce(w: Work, script: Script, now: int)
    requires DueOnce(w) && w.due != []
    ensures var r := FireWork(w, script, now);
      DueOnce(r) && w.skip <= r.skip && (0 < script.ret <= now && !r.aborted ==> w.due[0].alarm in r.skip)
  {
    var e, rest := w.due[0], w.due[1..];
    assert forall f :: f in rest ==> f in w.due && f.alarm != e.alarm;
    OpsKeepDueOnce(w.(due := rest, all := w.all - {e.alarm}), script.ops, e.time, now);
  }

  lemma {:induction false} SkippedNeverFires(w: Work, scripts: seq<Script>, k: nat, now: int, alarm: nat)
    requires DueOnce(w) && alarm in w.skip
    ensures forall f :: f in Reference(w, scripts, k, now).fired ==> f.alarm != alarm
    decreases ScriptsLeft(scripts, k), |w.due|
  {
    if w.due != [] && !w.aborted {
      assert w.due[0] in w.due;
      FireKeepsDueOnce(w, ScriptAt(scripts, k), now);
      if k >= |scripts| { GetsShorter(w, scripts, k, now); }
      hide DueOnce, FireWork;
      SkippedNeverFires(FireWork(w, ScriptAt(scripts, k), now), scripts, k + 1, now, alarm);
    }
  }

  lemma {:induction false} PutBackDoesNotFireAgain(w: Work, scripts: seq<Script>, k: nat, now: int, j: nat, p: nat)
    requires DueOnce(w) && j < p < |Reference(w, scripts, k, now).fired| && 0 < ScriptAt(scripts, k + j).ret <= now
    ensures var fired := Reference(w, scripts, k, now).fired; fired[p].alarm != fired[j].alarm
    decreases j
  {
    hide DueOnce, FireWork;
    var m, fired := FireWork(w, ScriptAt(scripts, k), now), Reference(w, scripts, k, now).fired;
    var later := Reference(m, scripts, k + 1, now).fired;
    assert fired == [w.due[0]] + later && fired[p] == later[p - 1];
    FireKeepsDueOnce(w, ScriptAt(scripts, k), now);
    if j == 0 {
      assert ScriptAt(scripts, k + 0) == ScriptAt(scripts, k);
      assert !m.aborted;
      SkippedNeverFires(m, scripts, k + 1, now, w.due[0].alarm);
      assert later[p - 1] in later;
    } else {
      assert k + 1 + (j - 1) == k + j && fired[j] == later[j - 1];
      PutBackDoesNotFireAgain(m, scripts, k + 1, now, j - 1, p - 1);
    }
  }

  /** Whatever the callbacks do, an alarm that returns a time at or before now is not fired again in the round. */
  lemma RoundFiresPutBackOnce(s: State, now: int, scripts: seq<Script>, j: nat, p: nat)
    requires Inv(s, None) && !s.aborted
    ensures RoundOk(s, FirstId(s.queue))
    ensures var fired := Round(s, FirstId(s.queue), now, scripts, 0).fired;
      j < p < |fired| && 0 < ScriptAt(scripts, j).ret <= now ==> fired[p].alarm != fired[j].alarm
  {
    hide Inv, RoundOk, Round, Reference, DueOnce, Rest, ScriptAt;
    RoundStarts(s);
    RoundIsReference(s, FirstId(s.queue), now, scripts, 0);
    RestFromStart(s.queue);
    var w := WorkAt(s, s.queue, now);
    PendingDueOnce(s, now);
    if j < p < |Reference(w, scripts, 0, now).fired| && 0 < ScriptAt(scripts, j).ret <= now {
      PutBackDoesNotFireAgain(w, scripts, 0, now, j, p);
    }
  }

  lemma RestFromStart(q: seq<Entry>)
    ensures Rest(q, FirstId(q)) == q
  {
  }

  lemma PendingDueOnce(s: State, now: int)
    requires Inv(s, None)
    ensures DueOnce(WorkAt(s, s.queue, now))
  {
    var q := Pending(s.queue, now, s.skip);
    PendingOk(s.queue, now, s.skip, s.nextId);
    forall i, j | 0 <= i < j < |q| ensures q[i].alarm != q[j].alarm {
      assert q[i] in q && q[j] in q && q[i].id != q[j].id;
      assert s.tokens[q[i].alarm] == q[i].id && s.tokens[q[j].alarm] == q[j].id;
    }
  }

  // ---------------------------------------------------------------- a round without end

  /** Callbacks that register each other's alarm at `now`, turn and turn about. */
  function Alternating(a: nat, b: nat, now: int, n: nat): seq<Script> {
    seq(n, i requires 0 <= i => Script([Register(now, if i % 2 == 0 then b else a)], 0))
  }

  lemma {:induction false} AlternatingFires(id: nat, a: nat, b: nat, now: int, n: nat, k: nat)
    requires a != b && k <= n
    ensures var x := if k % 2 == 0 then a else b;
      var w := Work([Entry(id, now, x)], {x}, {}, id + 1, false);
      |Reference(w, Alternating(a, b, now, n), k, now).fired| == n - k + 1
    decreases n - k
  {
    var x, y := if k % 2 == 0 then a else b, if k % 2 == 0 then b else a;
    var scripts := Alternating(a, b, now, n);
    var w := Work([Entry(id, now, x)], {x}, {}, id + 1, false);
    assert ScriptAt(scripts, k) == if k < n then Script([Register(now, y)], 0) else Script([], 0);
    FireAlone(id, x, y, now);
    hide FireWork, Alternating, ScriptAt;
    if k < n {
      AlternatingFires(id + 1, a, b, now, n, k + 1);
    }
  }

  lemma FireAlone(id: nat, x: nat, y: nat, now: int)
    ensures var w := Work([Entry(id, now, x)], {x}, {}, id + 1, false);
      && FireWork(w, Script([Register(now, y)], 0), now) == Work([Entry(id + 1, now, y)], {y}, {}, id + 2, false)
      && FireWork(w, Script([], 0), now) == Work([], {}, {}, id + 1, false)
  {
    var w1, op := Work([], {}, {}, id + 1, false), Register(now, y);
    assert [Entry(id, now, x)][1..] == [] && {x} - {x} == {};
    assert [op][..0] == [];
    assert OpsWork(w1, [], now, now) == w1;
    assert OpsWork(w1, [op], now, now) == OpWork(w1, op, now, now);
  }

  /**
   The bound on registration times is needed: with one alarm due, two callbacks that register
   each other at `now` keep a round going for any number of firings.
   */
  lemma RoundHasNoBound(id: nat, a: nat, b: nat, now: int, n: nat)
    requires a != b
    ensures var s := State([Entry(id, now, a)], {a}, map[a := id], {}, id + 1, false);
      RoundOk(s, Some(id)) && |Round(s, Some(id), now, Alternating(a, b, now, n), 0).fired| == n + 1
  {
    var s := State([Entry(id, now, a)], {a}, map[a := id], {}, id + 1, false);
    assert s.queue[0] in s.queue;
    RoundStarts(s);
    RoundIsReference(s, Some(id), now, Alternating(a, b, now, n), 0);
    assert Pending(s.queue, now, {}) == s.queue by { assert s.queue[1..] == []; }
    AlternatingFires(id, a, b, now, n, 0);
  }

  // ---------------------------------------------------------------- what is registered for when

  /** Calls on a plain map from alarms to their times. */
  function TimesAfter(times: map<nat, int>, ops: seq<Op>): map<nat, int>
    decreases |ops|
  {
    if ops == [] then times else
    var m := TimesAfter(times, ops[..|ops| - 1]);
    match ops[|ops| - 1]
    case Register(time, alarm) => m[alarm := time]
    case Unregister(alarm) => m - {alarm}
  }

  /** One firing on such a map: the alarm goes, its calls are made, and its return value puts it back. */
  function TimesNext(times: map<nat, int>, alarm: nat, script: Script): map<nat, int> {
    var m := TimesAfter(times - {alarm}, script.ops);
    if script.ret > 0 then m[alarm := script.ret] else m
  }

  function TimesRound(times: map<nat, int>, fired: seq<Entry>, scripts: seq<Script>, k: nat): map<nat, int>
    decreases |fired|
  {
    if fired == [] then times else
    TimesRound(TimesNext(times, fired[0].alarm, ScriptAt(scripts, k)), fired[1..], scripts, k + 1)
  }

  /** The entries but the one being fired are those of the map. */
  ghost predicate Keeps(s: State, firing: Option<nat>, times: map<nat, int>) {
    && times.Keys == s.all
    && forall e :: e in s.queue && Some(e.id) != firing ==> e.alarm in times && times[e.alarm] == e.time
  }

  lemma RegisterTimes(s: State, firing: Option<nat>, time: int, alarm: nat, times: map<nat, int>)
    requires Inv(s, firing) && Keeps(s, firing, times) && alarm !in s.all
    ensures Keeps(RegisterAlarm(s, time, alarm), firing, times[alarm := time])
  {
    InsertMembers(s.queue, Entry(s.nextId, time, alarm));
  }

  lemma UnregisterTimes(s: State, firing: Option<nat>, alarm: nat, times: map<nat, int>)
    requires Inv(s, firing) && Keeps(s, firing, times)
    ensures Keeps(UnregisterIfRegistered(s, alarm), firing, times - {alarm})
  {
    if alarm in s.tokens {
      EraseMembers(s.queue, s.tokens[alarm]);
    } else {
      assert times - {alarm} == times;
    }
  }

  lemma {:induction false} OpsTimes(s: State, e: Entry, ops: seq<Op>, times: map<nat, int>)
    requires Inv(s, Some(e.id)) && e in s.queue && Keeps(s, Some(e.id), times)
    ensures var r := ApplyAll(s, ops); !r.aborted ==> Keeps(r, Some(e.id), TimesAfter(times, ops))
    decreases |ops|
  {
    if ops != [] {
      var init, op := ops[..|ops| - 1], ops[|ops| - 1];
      OpsTimes(s, e, init, times);
      ScriptKeepsInv(s, e, init);
      var m := ApplyAll(s, init);
      hide Inv, Keeps;
      if !m.aborted {
        match op
        case Register(time, alarm) =>
          if alarm !in m.all { RegisterTimes(m, Some(e.id), time, alarm, TimesAfter(times, init)); }
        case Unregister(alarm) => UnregisterTimes(m, Some(e.id), alarm, TimesAfter(times, init));
      }
    }
  }

  /** A firing that lives does to the alarms and their times what it does on the plain map. */
  lemma FireTimes(s: State, e: Entry, script: Script, now: int, times: map<nat, int>)
    requires Inv(s, None) && e in s.queue && Keeps(s, None, times)
    ensures var r := Fire(s, e, script, now);
      !r.aborted ==> Inv(r, None) && Keeps(r, None, TimesNext(times, e.alarm, script))
  {
    FireKeepsInv(s, e, script, now);
    BeginKeepsInv(s, e);
    var b := BeginFire(s, e.alarm);
    assert Keeps(b, Some(e.id), times - {e.alarm});
    OpsTimes(b, e, script.ops, times - {e.alarm});
    ScriptKeepsInv(b, e, script.ops);
    var m := ApplyAll(b, script.ops);
    if !m.aborted {
      EndTimes(m, e, script.ret, now, TimesAfter(times - {e.alarm}, script.ops));
    }
  }

  lemma EndTimes(m: State, e: Entry, ret: int, now: int, times: map<nat, int>)
    requires Inv(m, Some(e.id)) && e in m.queue && Keeps(m, Some(e.id), times) && !m.aborted
    ensures var r := EndFire(m, e, ret, now);
      !r.aborted ==> Keeps(r, None, if ret > 0 then times[e.alarm := ret] else times)
  {
    EraseMembers(m.queue, e.id);
    InsertMembers(Erase(m.queue, e.id), Entry(m.nextId, ret, e.alarm));
  }

  /** After a round that lives, what is registered for when is what the fired callbacks asked for, in order. */
  lemma {:induction false} RoundTimes(s: State, cur: Option<nat>, now: int, scripts: seq<Script>, k: nat,
                                      times: map<nat, int>)
    requires RoundOk(s, cur) && Keeps(s, None, times)
    ensures var o := Round(s, cur, now, scripts, k);
      !o.final.aborted ==> Keeps(o.final, None, TimesRound(times, o.fired, scripts, k))
    decreases ScriptsLeft(scripts, k), |Rest(s.queue, cur)|
  {
    if cur.None? {
      RoundEnds(s, now, scripts, k);
    } else {
      hide Fire, Advance, Round, TimesNext;
      RoundUnfolds(s, cur, now, scripts, k);
      var rest := Rest(s.queue, cur);
      var e, script := rest[0], ScriptAt(scripts, k);
      if e.time <= now {
        if e.alarm in s.skip {
          RoundTimes(s, FirstId(rest[1..]), now, scripts, k, times);
        } else {
          var r := Fire(s, e, script, now);
          if !r.aborted {
            FireTimes(s, e, script, now, times);
            RoundTimes(r, Advance(s, e, script), now, scripts, k + 1, TimesNext(times, e.alarm, script));
            var later := Round(r, Advance(s, e, script), now, scripts, k + 1).fired;
            assert ([e] + later)[1..] == later;
          }
        }
      }
    }
  }

  /** The time of the first entry of an alarm. */
  function TimeOf(q: seq<Entry>, alarm: nat): int {
    if q == [] then 0 else if q[0].alarm == alarm then q[0].time else TimeOf(q[1..], alarm)
  }

  /** The registered alarms with their times. */
  ghost function Times(s: State): map<nat, int> { map a | a in s.all :: TimeOf(s.queue, a) }

  lemma {:induction false} TimeOfEntry(q: seq<Entry>, e: Entry)
    requires e in q && forall f :: f in q && f.alarm == e.alarm ==> f == e
    ensures TimeOf(q, e.alarm) == e.time
  {
    assert q[0] in q;
    if q[0] != e { TimeOfEntry(q[1..], e); }
  }

  /** Each registered alarm is queued once, at its time, and nothing else is. */
  lemma TimesAreQueued(s: State, times: map<nat, int>)
    requires Inv(s, None)
    ensures forall e, f :: e in s.queue && f in s.queue && e.alarm == f.alarm ==> e == f
    ensures Keeps(s, None, times) <==> times == Times(s)
  {
    SameId(s.queue);
    forall e | e in s.queue ensures Times(s)[e.alarm] == e.time {
      TimeOfEntry(s.queue, e);
    }
    assert Times(s).Keys == s.all;
    if Keeps(s, None, times) {
      forall a | a in times ensures times[a] == Times(s)[a] {
        assert a in s.tokens;
        var e :| e in s.queue && e.id == s.tokens[a] && e.alarm == a;
      }
    }
  }

  /** A round that lives leaves the alarms registered for the times its callbacks asked for, in order. */
  lemma RoundReschedules(s: State, now: int, scripts: seq<Script>)
    requires RoundOk(s, FirstId(s.queue))
    ensures var o := Round(s, FirstId(s.queue), now, scripts, 0);
      !o.final.aborted ==> Times(o.final) == TimesRound(Times(s), o.fired, scripts, 0)
  {
    var o := Round(s, FirstId(s.queue), now, scripts, 0);
    RoundIsReference(s, FirstId(s.queue), now, scripts, 0);
    hide Inv, Times, Keeps, Round;
    TimesAreQueued(s, Times(s));
    RoundTimes(s, FirstId(s.queue), now, scripts, 0, Times(s));
    if !o.final.aborted {
      TimesAreQueued(o.final, TimesRound(Times(s), o.fired, scripts, 0));
    }
  }

  // ---------------------------------------------------------------- how long to wait

  /** The wait chosen before epoll_wait, in microseconds, when an alarm is registered. */
  function WaitUs(next: int, now: int, timeout: int): int {
    if next - now < timeout || timeout < 0 then (if next - now > 0 then next - now else 0) else timeout
  }

  /** The wait handed to epoll_wait, in milliseconds; the division truncates. */
  function EpollWaitMs(waitUs: int, readyListEmpty: bool): int {
    if waitUs == 0 || !readyListEmpty then 0
    else if waitUs < 0 then -1
    else (if waitUs < 1000 then 1000 else waitUs) / 1000
  }

  /**
   The wait is the time left until the first alarm, or the timeout if there is one and it is
   shorter, in whole milliseconds rounded down but never to nothing; with something ready there
   is no wait, and without alarms a negative timeout waits for ever.
   */
  lemma WaitIsTheShorter(next: int, now: int, timeout: int)
    ensures var left := if next > now then next - now else 0;
      var us := if 0 <= timeout < left then timeout else left;
      && EpollWaitMs(WaitUs(next, now, timeout), true) == (if 0 < us < 1000 then 1 else us / 1000)
      && EpollWaitMs(WaitUs(next, now, timeout), false) == 0
    ensures EpollWaitMs(timeout, true) == if timeout < 0 then -1 else if 0 < timeout < 1000 then 1 else timeout / 1000
  {
  }

  /**
   epoll_wait never sleeps past the first alarm, except that an alarm less than a millisecond
   away is waited for a whole millisecond.
   */
  lemma WaitMeetsFirstAlarm(next: int, now: int, timeout: int, readyListEmpty: bool)
    ensures var ms := EpollWaitMs(WaitUs(next, now, timeout), readyListEmpty);
      var left := if next - now > 0 then next - now else 0;
      && 0 <= ms
      && ms * 1000 < left + 1000
      && (ms * 1000 > left <==> readyListEmpty && timeout != 0 && 0 < left < 1000)
  {
  }
}
