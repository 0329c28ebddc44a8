/**
 EpollTimer on top of the alarms: a deadline per timer, kept in step with the registration of
 its alarm by Set, Cancel, Update and fire, also when a timer's own callback calls them.
 */
module Timers {
  import opened Sequences
  import opened Alarms

  datatype TimerOp = Set(timer: nat, deadline: int) | Cancel(timer: nat) | Update(timer: nat, deadline: int)

  /** What has happened to the timers, as a user would tell it. */
  datatype Event = Armed(timer: nat) | Disarmed(timer: nat) | Ran(timer: nat)

  /** The deadlines are microseconds since the epoch; a timer at zero is not set. */
  datatype TState = TState(alarms: State, deadlines: map<nat, int>, log: seq<Event>)

  function Deadline(s: TState, t: nat): int { if t in s.deadlines then s.deadlines[t] else 0 }

  predicate IsSet(s: TState, t: nat) { Deadline(s, t) != 0 }

  function SetDeadline(s: TState, t: nat, d: int): TState { s.(deadlines := s.deadlines[t := d]) }

  function SetImpl(s: TState, t: nat): TState { s.(alarms := RegisterAlarm(s.alarms, Deadline(s, t), t)) }

  function CancelImpl(s: TState, t: nat): TState { s.(alarms := UnregisterIfRegistered(s.alarms, t)) }

  function Log(s: TState, e: Event): TState { s.(log := s.log + [e]) }

  function SetTimer(s: TState, t: nat, d: int): TState {
    Log(SetImpl(SetDeadline(s, t, d), t), Armed(t))
  }

  function CancelTimer(s: TState, t: nat): TState {
    if !IsSet(s, t) then s else Log(CancelImpl(SetDeadline(s, t, 0), t), Disarmed(t))
  }

  function UpdateTimer(s: TState, t: nat, d: int): TState {
    if d == 0 then CancelTimer(s, t)
    else if IsSet(s, t) then Log(SetImpl(SetDeadline(CancelImpl(SetDeadline(s, t, 0), t), t, d), t), Armed(t))
    else Log(SetImpl(SetDeadline(s, t, d), t), Armed(t))
  }

  function ApplyTimer(s: TState, op: TimerOp): TState {
    match op
    case Set(t, d) => SetTimer(s, t, d)
    case Cancel(t) => CancelTimer(s, t)
    case Update(t, d) => UpdateTimer(s, t, d)
  }

  function ApplyTimers(s: TState, ops: seq<TimerOp>): TState
    decreases |ops|
  {
    if ops == [] then s else ApplyTimer(ApplyTimers(s, ops[..|ops| - 1]), ops[|ops| - 1])
  }

  /** A timer is set only while it is not set, and to an initialised time. */
  predicate Legal(s: TState, op: TimerOp) { op.Set? ==> !IsSet(s, op.timer) && op.deadline != 0 }

  predicate LegalAll(s: TState, ops: seq<TimerOp>)
    decreases |ops|
  {
    ops == [] ||
    (LegalAll(s, ops[..|ops| - 1]) && Legal(ApplyTimers(s, ops[..|ops| - 1]), ops[|ops| - 1]))
  }

  /** EpollTimerImpl::OnAlarm: forget the token, then fire the timer if it is still set. */
  function OnAlarm(s: TState, t: nat, ops: seq<TimerOp>): TState {
    var s1 := s.(alarms := BeginFire(s.alarms, t));
    if !IsSet(s1, t) then s1 else ApplyTimers(Log(SetDeadline(s1, t, 0), Ran(t)), ops)
  }

  /** OnAlarm always returns zero, so the fired entry is only erased. */
  function FireTimer(s: TState, e: Entry, ops: seq<TimerOp>): TState {
    var s1 := OnAlarm(s, e.alarm, ops);
    s1.(alarms := s1.alarms.(queue := Erase(s1.alarms.queue, e.id)))
  }

  // ---------------------------------------------------------------- the invariant

  /** The last thing that happened to the timer was that it was armed. */
  predicate LastArmed(log: seq<Event>, t: nat)
    decreases |log|
  {
    log != [] &&
    var e := log[|log| - 1];
    if e.timer == t then e.Armed? else LastArmed(log[..|log| - 1], t)
  }

  /** A callback runs only while its timer is armed: never after a cancel or a run, until set again. */
  ghost predicate LogOk(log: seq<Event>) {
    forall i :: 0 <= i < |log| && log[i].Ran? ==> LastArmed(log[..i], log[i].timer)
  }

  ghost predicate Agreement(s: TState, firing: Option<nat>) {
    && (forall t: nat :: IsSet(s, t) <==> t in s.alarms.tokens)
    && (forall t: nat :: IsSet(s, t) <==> LastArmed(s.log, t))
    && (forall e :: e in s.alarms.queue && Some(e.id) != firing ==> e.time == Deadline(s, e.alarm))
  }

  /** A timer is set iff its alarm is registered, with one entry, keyed by its deadline. */
  ghost predicate TimersOk(s: TState, firing: Option<nat>) {
    && Inv(s.alarms, firing) && !s.alarms.aborted && (firing.Some? ==> firing.value < s.alarms.nextId)
    && Agreement(s, firing) && LogOk(s.log)
  }

  lemma LogStep(log: seq<Event>, e: Event)
    requires LogOk(log) && (e.Ran? ==> LastArmed(log, e.timer))
    ensures LogOk(log + [e])
    ensures forall t: nat :: LastArmed(log + [e], t) <==> if t == e.timer then e.Armed? else LastArmed(log, t)
  {
    var r := log + [e];
    assert r[..|log|] == log;
    forall i | 0 <= i < |r| && r[i].Ran? ensures LastArmed(r[..i], r[i].timer) {
      assert r[..i] == log[..i];
      assert i < |log| ==> log[i] == r[i];
      assert log[..|log|] == log;
    }
  }

  /** The deadline a timer has after some calls: that of the last one that concerns it. */
  function DeadlineAfter(deadline: int, ops: seq<TimerOp>, t: nat): int
    decreases |ops|
  {
    if ops == [] then deadline else
    var op := ops[|ops| - 1];
    if op.timer == t then (if op.Cancel? then 0 else op.deadline)
    else DeadlineAfter(deadline, ops[..|ops| - 1], t)
  }

  /** Calls leave every timer with the deadline last asked for. */
  lemma {:induction false} CallsSetDeadlines(s: TState, ops: seq<TimerOp>, t: nat)
    ensures Deadline(ApplyTimers(s, ops), t) == DeadlineAfter(Deadline(s, t), ops, t)
    decreases |ops|
  {
    if ops != [] {
      CallsSetDeadlines(s, ops[..|ops| - 1], t);
    }
  }

  /** A timer that fires is unset when its callback starts. */
  lemma FiringUnsets(s: TState, e: Entry, ops: seq<TimerOp>, t: nat)
    requires IsSet(s, e.alarm)
    ensures Deadline(FireTimer(s, e, ops), t) ==
            DeadlineAfter(if t == e.alarm then 0 else Deadline(s, t), ops, t)
  {
    var s1 := s.(alarms := BeginFire(s.alarms, e.alarm));
    CallsSetDeadlines(Log(SetDeadline(s1, e.alarm, 0), Ran(e.alarm)), ops, t);
  }

  /** The alarm calls a timer call amounts to, whatever the state. */
  function Compile(op: TimerOp): seq<Op> {
    match op
    case Set(t, d) => [Register(d, t)]
    case Cancel(t) => [Unregister(t)]
    case Update(t, d) => if d == 0 then [Unregister(t)] else [Unregister(t), Register(d, t)]
  }

  lemma ApplyOne(s: State, op: Op)
    requires !s.aborted
    ensures ApplyAll(s, [op]) == Apply(s, op)
  {
    assert [op][..0] == [] && ApplyAll(s, []) == s;
  }

  lemma ApplyPair(s: State, op: Op, op': Op)
    requires !s.aborted && !Apply(s, op).aborted
    ensures ApplyAll(s, [op, op']) == Apply(Apply(s, op), op')
  {
    assert [op, op'][..1] == [op];
    ApplyOne(s, op);
  }

  /** Arming a timer that is not set. */
  lemma ArmKeepsOk(s: TState, firing: Option<nat>, t: nat, d: int)
    requires TimersOk(s, firing) && !IsSet(s, t) && d != 0
    ensures TimersOk(SetTimer(s, t, d), firing)
    ensures SetTimer(s, t, d).alarms == RegisterAlarm(s.alarms, d, t)
  {
    RegisterKeepsInv(s.alarms, firing, d, t);
    InsertMembers(s.alarms.queue, Entry(s.alarms.nextId, d, t));
    LogStep(s.log, Armed(t));
    var r := SetTimer(s, t, d);
    forall e | e in r.alarms.queue && Some(e.id) != firing
      ensures e.time == Deadline(r, e.alarm)
    {
      if e.id != s.alarms.nextId {
        assert e in s.alarms.queue;
        assert e.alarm in s.alarms.tokens;
      }
    }
  }

  /** Disarming a timer that is set; the log entry is the caller's. */
  lemma DisarmKeepsOk(s: TState, firing: Option<nat>, t: nat)
    requires TimersOk(s, firing) && IsSet(s, t)
    ensures TimersOk(CancelTimer(s, t), firing)
    ensures CancelTimer(s, t).alarms == UnregisterIfRegistered(s.alarms, t)
  {
    UnregisterKeepsInv(s.alarms, firing, t);
    EraseMembers(s.alarms.queue, s.alarms.tokens[t]);
    LogStep(s.log, Disarmed(t));
    var r := CancelTimer(s, t);
    forall e | e in r.alarms.queue && Some(e.id) != firing
      ensures e.time == Deadline(r, e.alarm)
    {
      assert e in s.alarms.queue;
      assert e.alarm != t;
    }
  }

  /** Re-arming a set timer is a cancel followed by a set, with one entry in the log. */
  lemma RearmKeepsOk(s: TState, firing: Option<nat>, t: nat, d: int)
    requires TimersOk(s, firing) && IsSet(s, t) && d != 0
    ensures TimersOk(UpdateTimer(s, t, d), firing)
    ensures UpdateTimer(s, t, d).alarms == RegisterAlarm(UnregisterIfRegistered(s.alarms, t), d, t)
  {
    DisarmKeepsOk(s, firing, t);
    var m := CancelTimer(s, t);
    ArmKeepsOk(m, firing, t, d);
    var via, r := SetTimer(m, t, d), UpdateTimer(s, t, d);
    assert r.alarms == via.alarms && r.log == s.log + [Armed(t)];
    assert forall x: nat :: Deadline(r, x) == Deadline(via, x);
    LogStep(s.log, Armed(t));
    LogStep(s.log, Disarmed(t));
    LogStep(m.log, Armed(t));
    assert forall x: nat :: LastArmed(r.log, x) <==> LastArmed(via.log, x);
  }

  /** Every legal timer call keeps the agreement, never aborts, and is its compiled alarm calls. */
  lemma TimerOpOk(s: TState, firing: Option<nat>, op: TimerOp)
    requires TimersOk(s, firing) && Legal(s, op)
    ensures TimersOk(ApplyTimer(s, op), firing)
    ensures ApplyTimer(s, op).alarms == ApplyAll(s.alarms, Compile(op))
  {
    hide TimersOk, Inv, RegisterAlarm, UnregisterIfRegistered, LogOk;
    NotSetNotRegistered(s, firing, op.timer);
    match op
    case Set(t, d) =>
      ArmKeepsOk(s, firing, t, d);
      ApplyOne(s.alarms, Register(d, t));
    case Cancel(t) =>
      CancelOk(s, firing, t);
    case Update(t, d) =>
      if d == 0 {
        CancelOk(s, firing, t);
      } else {
        ApplyPair(s.alarms, Unregister(t), Register(d, t));
        if IsSet(s, t) {
          RearmKeepsOk(s, firing, t, d);
        } else {
          ArmKeepsOk(s, firing, t, d);
          UnregisterAbsent(s.alarms, t);
        }
      }
  }

  /** Setting a timer dies on the duplicate check exactly when the timer is already set. */
  lemma SetAbortsIffSet(s: TState, firing: Option<nat>, t: nat, d: int)
    requires TimersOk(s, firing)
    ensures SetTimer(s, t, d).alarms.aborted <==> IsSet(s, t)
  {
    assert IsSet(s, t) <==> t in s.alarms.all;
  }

  lemma NotSetNotRegistered(s: TState, firing: Option<nat>, t: nat)
    requires TimersOk(s, firing)
    ensures !IsSet(s, t) ==> t !in s.alarms.tokens
    ensures !s.alarms.aborted && !Apply(s.alarms, Unregister(t)).aborted
  {
  }

  lemma UnregisterAbsent(s: State, t: nat)
    requires t !in s.tokens
    ensures UnregisterIfRegistered(s, t) == s
  {
  }

  lemma CancelOk(s: TState, firing: Option<nat>, t: nat)
    requires TimersOk(s, firing)
    ensures TimersOk(CancelTimer(s, t), firing)
    ensures CancelTimer(s, t).alarms == ApplyAll(s.alarms, [Unregister(t)])
  {
    ApplyOne(s.alarms, Unregister(t));
    if IsSet(s, t) {
      DisarmKeepsOk(s, firing, t);
    }
  }

  // ---------------------------------------------------------------- callbacks and runs

  function CompileAll(ops: seq<TimerOp>): seq<Op>
    decreases |ops|
  {
    if ops == [] then [] else CompileAll(ops[..|ops| - 1]) + Compile(ops[|ops| - 1])
  }

  lemma {:induction false} ApplyConcat(s: State, a: seq<Op>, b: seq<Op>)
    ensures ApplyAll(s, a + b) == ApplyAll(ApplyAll(s, a), b)
    decreases |b|
  {
    if b == [] {
      assert a + b == a;
    } else {
      assert (a + b)[..|a + b| - 1] == a + b[..|b| - 1];
      ApplyConcat(s, a, b[..|b| - 1]);
    }
  }

  lemma {:induction false} TimerOpsOk(s: TState, firing: Option<nat>, ops: seq<TimerOp>)
    requires TimersOk(s, firing) && LegalAll(s, ops)
    ensures TimersOk(ApplyTimers(s, ops), firing)
    ensures ApplyTimers(s, ops).alarms == ApplyAll(s.alarms, CompileAll(ops))
    decreases |ops|
  {
    hide TimersOk, Compile, ApplyTimer;
    if ops != [] {
      var init := ops[..|ops| - 1];
      TimerOpsOk(s, firing, init);
      TimerOpOk(ApplyTimers(s, init), firing, ops[|ops| - 1]);
      ApplyConcat(s.alarms, CompileAll(init), Compile(ops[|ops| - 1]));
    }
  }

  /** The state in which a timer's callback starts: unset, unregistered, its entry still in the map. */
  function AtCallback(s: TState, t: nat): TState {
    Log(SetDeadline(s.(alarms := BeginFire(s.alarms, t)), t, 0), Ran(t))
  }

  lemma CallbackStartsOk(s: TState, e: Entry)
    requires TimersOk(s, None) && e in s.alarms.queue
    ensures IsSet(s, e.alarm) && Deadline(s, e.alarm) == e.time
    ensures TimersOk(AtCallback(s, e.alarm), Some(e.id))
  {
    BeginKeepsInv(s.alarms, e);
    LogStep(s.log, Ran(e.alarm));
    var r := AtCallback(s, e.alarm);
    forall f | f in r.alarms.queue && f.id != e.id
      ensures f.time == Deadline(r, f.alarm)
    {
      assert f.alarm != e.alarm;
    }
  }

  /**
   Firing a timer runs its callback, whatever the callback does with this timer or others;
   to the alarms it is one firing of the compiled script.
   */
  lemma FireTimerOk(s: TState, e: Entry, ops: seq<TimerOp>, now: int)
    requires TimersOk(s, None) && e in s.alarms.queue && LegalAll(AtCallback(s, e.alarm), ops)
    ensures TimersOk(FireTimer(s, e, ops), None)
    ensures FireTimer(s, e, ops).alarms == Fire(s.alarms, e, Script(CompileAll(ops), 0), now)
    ensures FireTimer(s, e, ops) == EraseFired(ApplyTimers(AtCallback(s, e.alarm), ops), e)
  {
    hide LegalAll, Agree, QueueOk;
    CallbackStartsOk(s, e);
    var m := AtCallback(s, e.alarm);
    TimerOpsOk(m, Some(e.id), ops);
    ScriptKeepsInv(m.alarms, e, CompileAll(ops));
    EraseFiredOk(ApplyTimers(m, ops), e);
  }

  function EraseFired(s: TState, e: Entry): TState {
    s.(alarms := s.alarms.(queue := Erase(s.alarms.queue, e.id)))
  }

  lemma EraseFiredOk(s: TState, e: Entry)
    requires TimersOk(s, Some(e.id)) && e in s.alarms.queue
    ensures TimersOk(EraseFired(s, e), None)
  {
    EndKeepsInv(s.alarms, e, 0, 0);
    EraseMembers(s.alarms.queue, e.id);
  }

  datatype Action = Call(op: TimerOp) | FireAt(index: nat, ops: seq<TimerOp>)

  predicate LegalAction(s: TState, a: Action) {
    match a
    case Call(op) => Legal(s, op)
    case FireAt(i, ops) => i < |s.alarms.queue| && LegalAll(AtCallback(s, s.alarms.queue[i].alarm), ops)
  }

  function Act(s: TState, a: Action): TState {
    match a
    case Call(op) => ApplyTimer(s, op)
    case FireAt(i, ops) => if i < |s.alarms.queue| then FireTimer(s, s.alarms.queue[i], ops) else s
  }

  function Run(s: TState, actions: seq<Action>): TState
    decreases |actions|
  {
    if actions == [] then s else Act(Run(s, actions[..|actions| - 1]), actions[|actions| - 1])
  }

  predicate LegalRun(s: TState, actions: seq<Action>)
    decreases |actions|
  {
    actions == [] ||
    (LegalRun(s, actions[..|actions| - 1]) && LegalAction(Run(s, actions[..|actions| - 1]), actions[|actions| - 1]))
  }

  const FRESH := TState(State([], {}, map[], {}, 0, false), map[], [])

  /**
   In every run of timer calls and firings, set timers are exactly the registered alarms, no
   check fails, and no callback runs unless its timer was set and neither cancelled nor run since.
   */
  lemma {:induction false} RunKeepsTimersOk(actions: seq<Action>)
    requires LegalRun(FRESH, actions)
    ensures TimersOk(Run(FRESH, actions), None)
    decreases |actions|
  {
    if actions != [] {
      var n := |actions| - 1;
      RunKeepsTimersOk(actions[..n]);
      var s := Run(FRESH, actions[..n]);
      match actions[n]
      case Call(op) =>
        TimerOpOk(s, None, op);
      case FireAt(i, ops) =>
        assert s.alarms.queue[i] in s.alarms.queue;
        FireTimerOk(s, s.alarms.queue[i], ops, 0);
    }
  }

  // ---------------------------------------------------------------- a round of timers

  function OpsAt(scripts: seq<seq<TimerOp>>, k: nat): seq<TimerOp> { if k < |scripts| then scripts[k] else [] }

  /** The alarm callbacks of timers whose own callbacks are `scripts`. */
  function CompileScripts(scripts: seq<seq<TimerOp>>): seq<Script> {
    seq(|scripts|, i requires 0 <= i < |scripts| => Script(CompileAll(scripts[i]), 0))
  }

  lemma CompiledAt(scripts: seq<seq<TimerOp>>, k: nat)
    ensures ScriptAt(CompileScripts(scripts), k) == Script(CompileAll(OpsAt(scripts, k)), 0)
  {
  }

  function FireTimers(s: TState, fired: seq<Entry>, scripts: seq<seq<TimerOp>>, k: nat): TState
    decreases |fired|
  {
    if fired == [] then s
    else FireTimers(FireTimer(s, fired[0], OpsAt(scripts, k)), fired[1..], scripts, k + 1)
  }

  /** Every callback of the round sets only timers that are not set. */
  predicate LegalFirings(s: TState, fired: seq<Entry>, scripts: seq<seq<TimerOp>>, k: nat)
    decreases |fired|
  {
    fired == [] ||
    (LegalAll(AtCallback(s, fired[0].alarm), OpsAt(scripts, k)) &&
     LegalFirings(FireTimer(s, fired[0], OpsAt(scripts, k)), fired[1..], scripts, k + 1))
  }

  lemma {:induction false} LegalPrefix(s: TState, fired: seq<Entry>, n: nat, scripts: seq<seq<TimerOp>>, k: nat)
    requires n <= |fired| && LegalFirings(s, fired, scripts, k)
    ensures LegalFirings(s, fired[..n], scripts, k)
    decreases |fired|
  {
    if n > 0 {
      assert fired[..n][0] == fired[0] && fired[..n][1..] == fired[1..][..n - 1];
      LegalPrefix(FireTimer(s, fired[0], OpsAt(scripts, k)), fired[1..], n - 1, scripts, k + 1);
    }
  }

  /** The timers whose callbacks have run, in order. */
  function Runs(log: seq<Event>): seq<nat>
    decreases |log|
  {
    if log == [] then [] else
    Runs(log[..|log| - 1]) + if log[|log| - 1].Ran? then [log[|log| - 1].timer] else []
  }

  function TimersOf(fired: seq<Entry>): seq<nat> {
    seq(|fired|, i requires 0 <= i < |fired| => fired[i].alarm)
  }

  lemma RunsSnoc(log: seq<Event>, e: Event)
    ensures Runs(log + [e]) == Runs(log) + if e.Ran? then [e.timer] else []
  {
    assert (log + [e])[..|log|] == log;
  }

  lemma {:induction false} CallsRunNothing(s: TState, ops: seq<TimerOp>)
    ensures Runs(ApplyTimers(s, ops).log) == Runs(s.log)
    decreases |ops|
  {
    if ops != [] {
      var m := ApplyTimers(s, ops[..|ops| - 1]);
      CallsRunNothing(s, ops[..|ops| - 1]);
      var t := ops[|ops| - 1].timer;
      RunsSnoc(m.log, Armed(t));
      RunsSnoc(m.log, Disarmed(t));
    }
  }

  /**
   A round over timers: nothing dies, the timers stay in agreement with the alarms, and the
   callbacks that run are those of the entries the round fires, in that order.
   */
  lemma {:induction false} TimerRound(s: TState, cur: Option<nat>, now: int, scripts: seq<seq<TimerOp>>, k: nat)
    requires TimersOk(s, None) && RoundOk(s.alarms, cur)
    requires LegalFirings(s, Round(s.alarms, cur, now, CompileScripts(scripts), k).fired, scripts, k)
    ensures var o := Round(s.alarms, cur, now, CompileScripts(scripts), k);
      var r := FireTimers(s, o.fired, scripts, k);
      && TimersOk(r, None) && !o.final.aborted && o.final == r.alarms.(skip := {})
      && Runs(r.log) == Runs(s.log) + TimersOf(o.fired)
    decreases ScriptsLeft(CompileScripts(scripts), k), |Rest(s.alarms.queue, cur)|
  {
    hide TimersOk, Round, Inv, Fire, FireTimer, Advance, AtCallback, CompileAll, CompileScripts, Runs, LegalAll, From;
    var a, compiled := s.alarms, CompileScripts(scripts);
    if cur.None? {
      RoundEnds(a, now, compiled, k);
    } else {
      RoundUnfolds(a, cur, now, compiled, k);
      CompiledAt(scripts, k);
      var rest := Rest(a.queue, cur);
      var e := rest[0];
      if e.time <= now {
        if e.alarm in a.skip {
          TimerRound(s, FirstId(rest[1..]), now, scripts, k);
        } else {
          TimerFires(s, e, OpsAt(scripts, k), now);
          var o := Round(a, cur, now, compiled, k);
          assert o.fired[0] == e;
          var s1, next := FireTimer(s, e, OpsAt(scripts, k)), Advance(a, e, ScriptAt(compiled, k));
          var rest1 := Round(s1.alarms, next, now, compiled, k + 1).fired;
          assert o.fired[1..] == rest1;
          TimerRound(s1, next, now, scripts, k + 1);
          assert TimersOf([e] + rest1) == [e.alarm] + TimersOf(rest1);
        }
      }
    }
  }

  lemma TimerFires(s: TState, e: Entry, ops: seq<TimerOp>, now: int)
    requires TimersOk(s, None) && e in s.alarms.queue && (LegalAll(AtCallback(s, e.alarm), ops))
    ensures var r := FireTimer(s, e, ops);
      && TimersOk(r, None) && !r.alarms.aborted && r.alarms == Fire(s.alarms, e, Script(CompileAll(ops), 0), now)
      && Runs(r.log) == Runs(s.log) + [e.alarm]
  {
    FireTimerOk(s, e, ops, now);
    hide Fire, CompileAll, LegalAll, Inv;
    CallsRunNothing(AtCallback(s, e.alarm), ops);
    RunsSnoc(s.log, Ran(e.alarm));
  }

  /** Some call of a callback cancels or updates the timer. */
  predicate Cancels(ops: seq<TimerOp>, t: nat) {
    exists i :: 0 <= i < |ops| && ops[i].timer == t && !ops[i].Set?
  }

  lemma {:induction false} DropsOnlyIfCancels(ops: seq<TimerOp>, t: nat)
    requires Drops(CompileAll(ops), t)
    ensures Cancels(ops, t)
    decreases |ops|
  {
    var init, op := ops[..|ops| - 1], ops[|ops| - 1];
    var i :| 0 <= i < |CompileAll(ops)| && CompileAll(ops)[i] == Unregister(t);
    if i < |CompileAll(init)| {
      assert CompileAll(init)[i] == Unregister(t);
      DropsOnlyIfCancels(init, t);
      var j :| 0 <= j < |init| && init[j].timer == t && !init[j].Set?;
      assert ops[j] == init[j];
    } else {
      assert Compile(op)[i - |CompileAll(init)|] == Unregister(t);
    }
  }

  /** The timers due when a round begins, without those a callback of the round takes off. */
  ghost function DueTimers(s: TState, now: int, scripts: seq<seq<TimerOp>>): seq<Entry> {
    Expected(Pending(s.alarms.queue, now, {}), CompileScripts(scripts), 0)
  }

  /** No callback leaves a timer set to a time that is due and ahead, unless a later one takes it off in time. */
  ghost predicate QuietTimers(s: TState, now: int, scripts: seq<seq<TimerOp>>) {
    var x, compiled := DueTimers(s, now, scripts), CompileScripts(scripts);
    Quiet(x, FirstAbort(s.alarms.all, x, compiled, 0), compiled, 0, now, {})
  }

  /** Then, and by RoundFromStart only then, a round runs exactly those timers in that order; nothing dies. */
  lemma TimerRoundFromStart(s: TState, now: int, scripts: seq<seq<TimerOp>>)
    requires TimersOk(s, None) && s.alarms.skip == {} && QuietTimers(s, now, scripts)
    requires LegalFirings(s, DueTimers(s, now, scripts), scripts, 0)
    ensures RoundOk(s.alarms, FirstId(s.alarms.queue))
    ensures var o := Round(s.alarms, FirstId(s.alarms.queue), now, CompileScripts(scripts), 0);
      var x := DueTimers(s, now, scripts);
      var r := FireTimers(s, x, scripts, 0);
      && o.fired == x && !o.final.aborted && TimersOk(r, None) && o.final == r.alarms.(skip := {})
      && Runs(r.log) == Runs(s.log) + TimersOf(x)
  {
    hide TimersOk, Round, RoundOk, DueTimers, CompileScripts, FirstAbort, FireTimers, LegalFirings, QuietTimers, Runs;
    var x, compiled := DueTimers(s, now, scripts), CompileScripts(scripts);
    OkMeansAlive(s);
    QuietRound(s, now, scripts);
    var n := FirstAbort(s.alarms.all, x, compiled, 0);
    LegalPrefix(s, x, if n < |x| then n + 1 else |x|, scripts, 0);
    assert x[..|x|] == x;
    TimerRound(s, FirstId(s.alarms.queue), now, scripts, 0);
  }

  lemma QuietRound(s: TState, now: int, scripts: seq<seq<TimerOp>>)
    requires TimersOk(s, None) && s.alarms.skip == {} && QuietTimers(s, now, scripts)
    ensures RoundOk(s.alarms, FirstId(s.alarms.queue))
    ensures var x, compiled := DueTimers(s, now, scripts), CompileScripts(scripts);
      var n, o := FirstAbort(s.alarms.all, x, compiled, 0), Round(s.alarms, FirstId(s.alarms.queue), now, compiled, 0);
      o.fired == Lived(x, n) && (o.final.aborted <==> n < |x|)
  {
    hide Inv, RoundOk, Round, CompileScripts, FirstAbort, Quiet, Expected, Agreement, LogOk;
    RoundFromStart(s.alarms, now, CompileScripts(scripts));
  }

  lemma OkMeansAlive(s: TState)
    requires TimersOk(s, None)
    ensures RoundOk(s.alarms, FirstId(s.alarms.queue))
  {
    RoundStarts(s.alarms);
  }

  /** They come in deadline order, each at most once, and each was set to a time that has come. */
  lemma RunTimersWereDue(s: TState, now: int, scripts: seq<seq<TimerOp>>, i: nat)
    requires TimersOk(s, None)
    ensures var x := DueTimers(s, now, scripts);
      Ordered(x) && (i < |x| ==> IsSet(s, x[i].alarm) && Deadline(s, x[i].alarm) == x[i].time <= now)
  {
    var due, x := Pending(s.alarms.queue, now, {}), DueTimers(s, now, scripts);
    PendingOk(s.alarms.queue, now, {}, s.alarms.nextId);
    ExpectedOrdered(due, CompileScripts(scripts), 0);
    hide Ordered, Expected, LogOk, DistinctIds;
    if i < |x| {
      assert x[i] in x && x[i] in due;
    }
  }

  /** A timer whose time has come runs in the round unless a callback of it cancels or updates the timer. */
  lemma DueTimerRuns(s: TState, now: int, scripts: seq<seq<TimerOp>>, t: nat)
    requires TimersOk(s, None) && IsSet(s, t) && Deadline(s, t) <= now
    ensures var x := DueTimers(s, now, scripts);
      || (exists i :: 0 <= i < |x| && x[i].alarm == t)
      || (exists n: nat :: n < |x| && Cancels(OpsAt(scripts, n), t))
  {
    var compiled, x := CompileScripts(scripts), DueTimers(s, now, scripts);
    var due := Pending(s.alarms.queue, now, {});
    assert t in s.alarms.tokens;
    var e :| e in s.alarms.queue && e.id == s.alarms.tokens[t] && e.alarm == t;
    assert e in due;
    hide TimersOk, Expected, Pending;
    if e !in x {
      OmittedWasUnregistered(due, compiled, 0, e);
      var n: nat :| 0 <= n < |x| && DroppedBy(compiled, n, e.alarm);
      CompiledAt(scripts, n);
      DropsOnlyIfCancels(OpsAt(scripts, n), t);
    }
  }

  /** And a timer that runs was cancelled or updated by none of the callbacks before it. */
  lemma RunTimerWasNotCancelled(s: TState, now: int, scripts: seq<seq<TimerOp>>, p: nat, j: nat)
    requires j < p < |DueTimers(s, now, scripts)|
    ensures !Cancels(OpsAt(scripts, j), DueTimers(s, now, scripts)[p].alarm)
  {
    hide Expected, Pending, Drops, Cancels, CompileAll, CompileScripts, ScriptAt, OpsAt;
    var compiled, t := CompileScripts(scripts), DueTimers(s, now, scripts)[p].alarm;
    FiredWasNotUnregistered(Pending(s.alarms.queue, now, {}), compiled, 0, p, j);
    CompiledAt(scripts, j);
    if Cancels(OpsAt(scripts, j), t) {
      CancelsDrops(OpsAt(scripts, j), t);
    }
  }

  lemma {:induction false} CancelsDrops(ops: seq<TimerOp>, t: nat)
    requires Cancels(ops, t)
    ensures Drops(CompileAll(ops), t)
    decreases |ops|
  {
    var init, op := ops[..|ops| - 1], ops[|ops| - 1];
    var front, all := CompileAll(init), CompileAll(ops);
    var i :| 0 <= i < |ops| && ops[i].timer == t && !ops[i].Set?;
    if i < |init| {
      assert init[i] == ops[i];
      CancelsDrops(init, t);
      var j :| 0 <= j < |front| && front[j] == Unregister(t);
      assert all[j] == Unregister(t);
    } else {
      assert all[|front|] == Compile(op)[0] == Unregister(t);
    }
  }
}
