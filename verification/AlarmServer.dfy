/**
 The alarm half of the epoll server and the EpollTimer class as they are written, each method
 proved to compute the function of the same name in `Alarms` or `Timers`.
 */
module AlarmServers {
  import opened Sequences
  import opened Alarms
  import T = Timers

  class AlarmServer {
    var alarmMap: seq<Entry>
    var allAlarms: set<nat>
    var skipped: set<nat>
    var nextId: nat
    var aborted: bool
    /** The `token_` of each alarm object whose `registered_` is true, by the object's address. */
    var tokens: map<nat, nat>

    ghost function Abs(): State
      reads this
    {
      State(alarmMap, allAlarms, tokens, skipped, nextId, aborted)
    }

    constructor ()
      ensures Abs() == State([], {}, map[], {}, 0, false)
    {
      alarmMap, allAlarms, skipped, nextId, aborted, tokens := [], {}, {}, 0, false, map[];
    }

    method RegisterAlarm(time: int, alarm: nat)
      modifies this
      ensures Abs() == Alarms.RegisterAlarm(old(Abs()), time, alarm)
    {
      if alarm in allAlarms {
        aborted := true;
        return;
      }
      alarmMap := Insert(alarmMap, Entry(nextId, time, alarm));
      allAlarms := allAlarms + {alarm};
      OnRegistration(alarm, nextId);
      nextId := nextId + 1;
    }

    method OnRegistration(alarm: nat, token: nat)
      modifies `tokens
      ensures tokens == old(tokens)[alarm := token]
    {
      tokens := tokens[alarm := token];
    }

    /** The caller must hold a valid iterator, to `e`, and `e` must not be firing. */
    method UnregisterAlarm(token: nat, ghost e: Entry, ghost firing: Option<nat>)
      requires Inv(Abs(), firing) && Some(token) != firing && e in alarmMap && e.id == token
      modifies this
      ensures Abs() == Alarms.UnregisterIfRegistered(old(Abs()), e.alarm)
    {
      var i := 0;
      while alarmMap[i].id != token
        invariant 0 <= i < |alarmMap| && e in alarmMap[i..]
        decreases |alarmMap| - i
      {
        i := i + 1;
      }
      SameId(alarmMap);
      assert alarmMap[i] in alarmMap;
      var cb := alarmMap[i].alarm;
      alarmMap := Erase(alarmMap, token);
      allAlarms := allAlarms - {cb};
      tokens := tokens - {cb};
    }

    method UnregisterIfRegistered(alarm: nat, ghost firing: Option<nat>)
      requires Inv(Abs(), firing)
      modifies this
      ensures Abs() == Alarms.UnregisterIfRegistered(old(Abs()), alarm)
    {
      if alarm !in tokens {
        return;
      }
      ghost var g :| g in alarmMap && g.id == tokens[alarm] && g.alarm == alarm;
      UnregisterAlarm(tokens[alarm], g, firing);
    }

    /** The body of a user's OnAlarm, while entry `e` is firing. */
    method RunOps(ops: seq<Op>, ghost e: Entry)
      requires Inv(Abs(), Some(e.id)) && e in alarmMap
      modifies this
      ensures Abs() == ApplyAll(old(Abs()), ops)
    {
      hide Inv;
      for i := 0 to |ops|
        invariant Abs() == ApplyAll(old(Abs()), ops[..i])
        invariant Inv(Abs(), Some(e.id)) && e in alarmMap
      {
        assert ops[..i + 1][..i] == ops[..i];
        if !aborted {
          OpKeepsInv(Abs(), e, ops[i]);
          match ops[i] {
            case Register(time, alarm) => RegisterAlarm(time, alarm);
            case Unregister(alarm) => UnregisterIfRegistered(alarm, Some(e.id));
          }
        }
      }
      assert ops[..|ops|] == ops;
    }

    /** The entry an iterator points at, and the iterator after it. */
    method Deref(it: nat) returns (e: Entry, next: Option<nat>)
      requires From(alarmMap, it) != []
      ensures e == From(alarmMap, it)[0] && next == FirstId(From(alarmMap, it)[1..])
    {
      var q := From(alarmMap, it);
      e, next := q[0], if |q| > 1 then Some(q[1].id) else None;
    }

    /** Fires the entry under the iterator and returns the iterator to go on from. */
    method FireEntry(e: Entry, script: Script, now: int) returns (next: Option<nat>)
      requires Inv(Abs(), None) && e in alarmMap
      modifies this
      ensures Abs() == Fire(old(Abs()), e, script, now) && (!aborted ==> next == Advance(old(Abs()), e, script))
    {
      hide Inv, ApplyAll;
      next := None;
      BeginKeepsInv(Abs(), e);
      ScriptKeepsInv(BeginFire(Abs(), e.alarm), e, script.ops);
      allAlarms := allAlarms - {e.alarm};
      tokens := tokens - {e.alarm};
      RunOps(script.ops, e);
      if aborted {
        return;
      }
      assert From(alarmMap, e.id) != [] && From(alarmMap, e.id)[0] == e by {
        QueueOf(Abs(), Some(e.id));
        FromPresent(alarmMap, e);
      }
      var _, after := Deref(e.id);
      next := after;
      alarmMap := Erase(alarmMap, e.id);
      if script.ret > 0 {
        if script.ret <= now {
          skipped := skipped + {e.alarm};
        }
        RegisterAlarm(script.ret, e.alarm);
      }
    }

    /** One turn of the loop: stop at the first entry not due, pass over a skipped one, or fire. */
    method Turn(it: nat, now: int, ghost scripts: seq<Script>, ghost k: nat, script: Script)
      returns (next: Option<nat>, fired: seq<Entry>)
      requires RoundOk(Abs(), Some(it)) && script == ScriptAt(scripts, k)
      modifies this
      ensures aborted ==> Round(old(Abs()), Some(it), now, scripts, k) == Outcome(Abs(), fired)
      ensures !aborted ==> RoundOk(Abs(), next)
      ensures !aborted ==> var o := Round(Abs(), next, now, scripts, k + |fired|);
        Round(old(Abs()), Some(it), now, scripts, k) == Outcome(o.final, fired + o.fired)
      ensures !aborted && next.Some? ==>
        Smaller(scripts, k + |fired|, Rest(alarmMap, next), k, Rest(old(alarmMap), Some(it)))
    {
      hide Inv, Fire, Advance;
      RoundUnfolds(Abs(), Some(it), now, scripts, k);
      var e, after := Deref(it);
      if e.time > now {
        next, fired := None, [];
      } else if e.alarm in skipped {
        hide Round;
        next, fired := after, [];
      } else {
        hide Round;
        next := FireEntry(e, script, now);
        fired := [e];
      }
    }

    /** The whole round, for any finite sequence of callbacks; the fatal check ends it. */
    method CallAndReregisterAlarmEvents(now: int, scripts: seq<Script>) returns (fired: seq<Entry>)
      requires Inv(Abs(), None) && !aborted
      modifies this
      ensures RoundOk(old(Abs()), FirstId(old(alarmMap)))
      ensures Outcome(Abs(), fired) == Round(old(Abs()), FirstId(old(alarmMap)), now, scripts, 0)
    {
      hide RoundOk, Inv, ScriptAt, Round, From;
      RoundStarts(Abs());
      fired := [];
      var it := if alarmMap == [] then None else Some(alarmMap[0].id);
      ghost var start := Round(Abs(), it, now, scripts, 0);
      while it.Some?
        invariant !aborted && RoundOk(Abs(), it)
        invariant var o := Round(Abs(), it, now, scripts, |fired|);
          start == Outcome(o.final, fired + o.fired)
        decreases it.Some?, ScriptsLeft(scripts, |fired|), |Rest(alarmMap, it)|
      {
        var next, f := Turn(it.value, now, scripts, |fired|, ScriptAt(scripts, |fired|));
        if aborted {
          fired := fired + f;
          return;
        }
        ghost var o := Round(Abs(), next, now, scripts, |fired| + |f|);
        assert fired + (f + o.fired) == (fired + f) + o.fired;
        it, fired := next, fired + f;
      }
      RoundEnds(Abs(), now, scripts, |fired|);
      skipped := {};
    }
  }

  /** The measure of a round: callbacks left to run, then entries ahead. */
  ghost predicate Smaller(scripts: seq<Script>, k': nat, rest': seq<Entry>, k: nat, rest: seq<Entry>) {
    || ScriptsLeft(scripts, k') < ScriptsLeft(scripts, k)
    || (ScriptsLeft(scripts, k') == ScriptsLeft(scripts, k) && |rest'| < |rest|)
  }

  lemma QueueOf(s: State, firing: Option<nat>)
    requires Inv(s, firing)
    ensures DistinctIds(s.queue)
  {
  }

  class EpollTimer {
    const addr: nat
    const server: AlarmServer
    var deadline: int

    /** Set exactly when the alarm of this timer is registered; `firing` is the entry being fired. */
    ghost predicate Valid(firing: Option<nat>)
      reads this, server
    {
      && Inv(server.Abs(), firing) && (firing.Some? ==> firing.value < server.nextId) && !server.aborted
      && (deadline != 0 <==> addr in server.tokens)
    }

    /** A timer may be made at any time, also inside an alarm's callback. */
    constructor (addr: nat, server: AlarmServer, ghost firing: Option<nat>)
      requires Inv(server.Abs(), firing) && (firing.Some? ==> firing.value < server.nextId) && !server.aborted
      requires addr !in server.tokens
      ensures this.addr == addr && this.server == server && deadline == 0 && Valid(firing)
    {
      this.addr, this.server, deadline := addr, server, 0;
    }

    predicate IsSet()
      reads this
    {
      deadline != 0
    }

    method Set(newDeadline: int, ghost firing: Option<nat>)
      requires Valid(firing) && !IsSet() && newDeadline != 0
      modifies this, server
      ensures Valid(firing) && deadline == newDeadline
      ensures server.Abs() == ApplyAll(old(server.Abs()), T.Compile(T.Set(addr, newDeadline)))
    {
      deadline := newDeadline;
      SetImpl(firing);
      T.ApplyOne(old(server.Abs()), Register(newDeadline, addr));
    }

    method Cancel(ghost firing: Option<nat>)
      requires Valid(firing)
      modifies this, server
      ensures Valid(firing) && !IsSet()
      ensures server.Abs() == ApplyAll(old(server.Abs()), T.Compile(T.Cancel(addr)))
    {
      T.ApplyOne(server.Abs(), Unregister(addr));
      if !IsSet() {
        return;
      }
      deadline := 0;
      CancelImpl(firing);
    }

    method Update(newDeadline: int, ghost firing: Option<nat>)
      requires Valid(firing)
      modifies this, server
      ensures Valid(firing) && deadline == newDeadline
      ensures server.Abs() == ApplyAll(old(server.Abs()), T.Compile(T.Update(addr, newDeadline)))
    {
      if newDeadline == 0 {
        Cancel(firing);
        return;
      }
      T.ApplyPair(server.Abs(), Unregister(addr), Register(newDeadline, addr));
      var wasSet := IsSet();
      deadline := newDeadline;
      if wasSet {
        UpdateImpl(firing);
      } else {
        SetImpl(firing);
      }
    }

    method SetImpl(ghost firing: Option<nat>)
      requires Inv(server.Abs(), firing) && (firing.Some? ==> firing.value < server.nextId) && !server.aborted
      requires addr !in server.tokens && deadline != 0
      modifies server
      ensures Valid(firing) && server.Abs() == RegisterAlarm(old(server.Abs()), deadline, addr)
    {
      RegisterKeepsInv(server.Abs(), firing, deadline, addr);
      server.RegisterAlarm(deadline, addr);
    }

    method CancelImpl(ghost firing: Option<nat>)
      requires Inv(server.Abs(), firing) && (firing.Some? ==> firing.value < server.nextId) && !server.aborted
      requires deadline == 0
      modifies server
      ensures Valid(firing) && server.Abs() == UnregisterIfRegistered(old(server.Abs()), addr)
    {
      UnregisterKeepsInv(server.Abs(), firing, addr);
      server.UnregisterIfRegistered(addr, firing);
    }

    method UpdateImpl(ghost firing: Option<nat>)
      requires Inv(server.Abs(), firing) && (firing.Some? ==> firing.value < server.nextId) && !server.aborted
      requires deadline != 0
      modifies this, server
      ensures Valid(firing) && deadline == old(deadline)
      ensures server.Abs() == RegisterAlarm(UnregisterIfRegistered(old(server.Abs()), addr), deadline, addr)
    {
      var newDeadline := deadline;
      deadline := 0;
      CancelImpl(firing);
      deadline := newDeadline;
      SetImpl(firing);
    }

    /**
     fire, called while entry `e` of this timer is being fired and its token is forgotten: `s` is
     the state with this timer unset. A set timer runs its callback, whose calls may be on any
     timer of the board; an unset one does nothing.
     */
    method Fire(board: Board, calls: seq<T.TimerOp>, ghost s: T.TState, ghost firing: Option<nat>) returns (ran: bool)
      requires T.TimersOk(s, firing) && T.LegalAll(s, calls) && OnBoard(board, calls)
      requires addr in board && board[addr] == this && !T.IsSet(s, addr)
      requires server.Abs() == s.alarms && forall k :: k in board ==> At(board, server, k)
      requires forall k :: k in board && k != addr ==> board[k].deadline == T.Deadline(s, k)
      modifies board.Values, server
      ensures ran == (old(deadline) != 0)
      ensures var r := if ran then T.ApplyTimers(s, calls) else s;
        T.TimersOk(r, firing) && Matches(board, server, r)
    {
      hide T.TimersOk, T.LegalAll, T.ApplyTimers;
      ran := IsSet();
      if !ran {
        return;
      }
      deadline := 0;
      RunCalls(board, server, calls, s, firing);
    }
  }

  /** Timers by the addresses of their alarms. */
  type Board = map<nat, EpollTimer>

  predicate OnBoard(board: Board, calls: seq<T.TimerOp>) { forall i :: 0 <= i < |calls| ==> calls[i].timer in board }

  predicate At(board: Board, server: AlarmServer, k: nat)
    requires k in board
  {
    board[k].addr == k && board[k].server == server
  }

  /** The objects hold what the value state says. */
  ghost predicate Matches(board: Board, server: AlarmServer, s: T.TState)
    reads server, board.Values
  {
    && server.Abs() == s.alarms
    && forall k :: k in board ==> At(board, server, k) && board[k].deadline == T.Deadline(s, k)
  }

  /** One call on one timer computes the value function. */
  method Call(board: Board, server: AlarmServer, op: T.TimerOp, ghost s: T.TState, ghost firing: Option<nat>)
    requires T.TimersOk(s, firing) && T.Legal(s, op) && op.timer in board && Matches(board, server, s)
    modifies board.Values, server
    ensures Matches(board, server, T.ApplyTimer(s, op)) && T.TimersOk(T.ApplyTimer(s, op), firing)
  {
    T.TimerOpOk(s, firing, op);
    var timer := board[op.timer];
    assert timer.Valid(firing);
    ghost var r := T.ApplyTimer(s, op);
    assert forall k: nat :: k != op.timer ==> T.Deadline(r, k) == T.Deadline(s, k);
    assert forall k :: k in board && k != op.timer ==> board[k] != timer;
    hide Inv, T.TimersOk, T.Compile, ApplyAll;
    match op {
      case Set(_, d) => timer.Set(d, firing);
      case Cancel(_) => timer.Cancel(firing);
      case Update(_, d) => timer.Update(d, firing);
    }
  }

  method RunCalls(board: Board, server: AlarmServer, calls: seq<T.TimerOp>,
                  ghost s: T.TState, ghost firing: Option<nat>)
    requires T.TimersOk(s, firing) && T.LegalAll(s, calls) && OnBoard(board, calls) && Matches(board, server, s)
    modifies board.Values, server
    ensures var r := T.ApplyTimers(s, calls); Matches(board, server, r) && T.TimersOk(r, firing)
  {
    hide T.TimersOk, Matches, T.ApplyTimer, T.Legal;
    for i := 0 to |calls|
      invariant var m := T.ApplyTimers(s, calls[..i]); Matches(board, server, m) && T.TimersOk(m, firing)
    {
      ghost var m := T.ApplyTimers(s, calls[..i]);
      assert calls[..i + 1][..i] == calls[..i];
      LegalAt(s, calls, i);
      Call(board, server, calls[i], m, firing);
    }
    assert calls[..|calls|] == calls;
  }

  lemma {:induction false} LegalAt(s: T.TState, calls: seq<T.TimerOp>, i: nat)
    requires T.LegalAll(s, calls) && i < |calls|
    ensures T.Legal(T.ApplyTimers(s, calls[..i]), calls[i])
    decreases |calls|
  {
    var n := |calls| - 1;
    if i < n {
      assert calls[..n][..i] == calls[..i] && calls[..n][i] == calls[i];
      LegalAt(s, calls[..n], i);
    }
  }
}
