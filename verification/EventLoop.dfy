/**
 The functor queue of an event loop and the pipe that wakes it: any number of threads queue
 functors and wake the loop, in any interleaving with the loop thread's own steps. Each step
 is one critical section, one system call or one assignment of the source.
 */
module EventLoops {

  datatype Pc =
    | Outside                  // Loop has not been called yet
    | Check                    // at the loop condition
    | Waiting                  // inside epoll_wait
    | Handling                 // running fd callbacks and alarms
    | Draining                 // inside the read loop of the wake pipe's callback
    | Marked                   // calling_pending_functors_ is set, the queue not yet taken
    | Running                  // running the functors of a round
    | MustWake                 // a functor has queued another and has yet to call Wake
    | Finished                 // Loop has returned; it may be entered again

  /**
   `batch` is what is left of the taken vector, `pipe` the bytes in the wake pipe, `waking` the
   threads between a push (or a quit) and their Wake. `first` holds from the entry into Loop
   until its first round is over. `silent` holds while the queue may contain a functor the loop thread queued without a
   wake. `pushed` and `ran` are histories, `base` and `taken` those of the current round.
   */
  datatype State = State(pc: Pc, calling: bool, quit: bool, queue: seq<nat>, batch: seq<nat>, pipe: nat,
                         waking: set<nat>, first: bool, silent: bool,
                         pushed: seq<nat>, ran: seq<nat>, base: seq<nat>, taken: seq<nat>)

  datatype Step =
    | ThreadPush(thread: nat, functor: nat)
    | ThreadQuit(thread: nat)
    | ThreadWake(thread: nat)
    | StartLoop
    | EnterWait
    | LeaveLoop
    | WaitReturns
    | LoopPush(functor: nat)      // the loop thread queues a functor outside a round
    | LoopQuit                    // the loop thread calls Quit
    | BeginDrain
    | DrainRead
    | EndDrain
    | Mark
    | Take
    | RunNext
    | FunctorPush(functor: nat)   // a running functor queues another
    | FunctorWake
    | EndRound

  const INIT := State(Outside, false, false, [], [], 0, {}, true, false, [], [], [], [])

  predicate Enabled(s: State, a: Step) {
    match a
    case ThreadPush(t, _) => t !in s.waking
    case ThreadQuit(t) => t !in s.waking
    case ThreadWake(t) => t in s.waking
    case StartLoop => s.pc == Outside || s.pc == Finished
    case EnterWait => s.pc == Check && !s.quit
    case LeaveLoop => s.pc == Check && s.quit
    case WaitReturns => s.pc == Waiting
    case LoopPush(_) => s.pc == Outside || s.pc == Handling || s.pc == Finished
    case LoopQuit => s.pc == Outside || s.pc == Handling || s.pc == Running || s.pc == Finished
    case BeginDrain => s.pc == Handling
    case DrainRead => s.pc == Draining && s.pipe > 0
    case EndDrain => s.pc == Draining && s.pipe == 0
    case Mark => s.pc == Handling
    case Take => s.pc == Marked
    case RunNext => s.pc == Running && s.batch != []
    case FunctorPush(_) => s.pc == Running && |s.batch| < |s.taken|
    case FunctorWake => s.pc == MustWake
    case EndRound => s.pc == Running && s.batch == []
  }

  function Push(s: State, f: nat): State { s.(queue := s.queue + [f], pushed := s.pushed + [f]) }

  /** One read of the pipe takes as many bytes as an int holds, or all there are. */
  function DrainedBy(pipe: nat): nat { if pipe < 4 then 0 else pipe - 4 }

  function Next(s: State, a: Step): State {
    match a
    case ThreadPush(t, f) => Push(s, f).(waking := s.waking + {t})
    case ThreadQuit(t) => s.(quit := true, waking := s.waking + {t})
    case ThreadWake(t) => s.(pipe := s.pipe + 1, waking := s.waking - {t})
    case StartLoop => s.(pc := Check, quit := false, first := true)
    case EnterWait => s.(pc := Waiting)
    case LeaveLoop => s.(pc := Finished)
    case WaitReturns => s.(pc := Handling)
    case LoopPush(f) => Push(s, f).(silent := true)
    case LoopQuit => s.(quit := true)
    case BeginDrain => s.(pc := Draining)
    case DrainRead => s.(pipe := DrainedBy(s.pipe))
    case EndDrain => s.(pc := Handling)
    case Mark => s.(pc := Marked, calling := true)
    case Take => s.(pc := Running, batch := s.queue, queue := [], silent := false, base := s.ran, taken := s.queue)
    case RunNext => if s.batch == [] then s else s.(ran := s.ran + [s.batch[0]], batch := s.batch[1..])
    case FunctorPush(f) => if s.calling then Push(s, f).(pc := MustWake) else Push(s, f)
    case FunctorWake => s.(pc := Running, pipe := s.pipe + 1)
    case EndRound => s.(pc := Check, calling := false, first := false)
  }

  /** A run: the states visited, each step enabled where it is taken. */
  predicate IsRun(steps: seq<Step>)
    decreases |steps|
  {
    steps == [] || (IsRun(steps[..|steps| - 1]) && Enabled(After(steps[..|steps| - 1]), steps[|steps| - 1]))
  }

  function After(steps: seq<Step>): State
    decreases |steps|
  {
    if steps == [] then INIT else Next(After(steps[..|steps| - 1]), steps[|steps| - 1])
  }

  // ---------------------------------------------------------------- the invariant

  /** Something will make the next wait return: a byte in the pipe, or a wake on its way. */
  predicate WakeComing(s: State) { s.pipe > 0 || s.waking != {} }

  predicate InRound(s: State) { s.pc == Running || s.pc == MustWake }

  /** Nothing queued is lost, repeated or reordered. */
  ghost predicate HistoryOk(s: State) {
    && s.ran + s.batch + s.queue == s.pushed
    && (InRound(s) ==> s.ran + s.batch == s.base + s.taken && |s.batch| <= |s.taken|)
    && (!InRound(s) ==> s.batch == [])
  }

  /** Since the queue was last taken, only pushes that come with a wake have reached it. */
  predicate WakeOk(s: State) {
    && (s.calling <==> s.pc == Marked || InRound(s))
    && (s.queue != [] && (InRound(s) || s.pc == Check || s.pc == Waiting) ==>
          s.silent || WakeComing(s) || s.pc == MustWake)
    && (s.silent ==> !InRound(s))
    && (s.silent && (s.pc == Check || s.pc == Waiting) ==> s.first)
    && (s.queue != [] && (s.pc == Outside || s.pc == Finished) ==> s.silent || WakeComing(s))
    && (s.pc == Outside ==> s.first)
    && (s.pc == Waiting && s.quit ==> WakeComing(s))
  }

  ghost predicate Inv(s: State) { HistoryOk(s) && WakeOk(s) }

  lemma StepKeepsHistory(s: State, a: Step)
    requires HistoryOk(s) && Enabled(s, a)
    ensures HistoryOk(Next(s, a))
  {
    if a.ThreadPush? || a.LoopPush? || a.FunctorPush? {
      assert s.ran + s.batch + (s.queue + [a.functor]) == s.pushed + [a.functor];
    } else if a == Take {
      assert s.ran + s.batch + s.queue == s.ran + s.queue + [];
    } else if a == RunNext {
      assert s.ran + [s.batch[0]] + s.batch[1..] == s.ran + s.batch;
    }
  }

  lemma StepKeepsWake(s: State, a: Step)
    requires WakeOk(s) && Enabled(s, a)
    ensures WakeOk(Next(s, a))
  {
    if a.ThreadPush? || a.ThreadQuit? {
      assert a.thread in Next(s, a).waking;
    }
  }

  lemma StepKeepsInv(s: State, a: Step)
    requires Inv(s) && Enabled(s, a)
    ensures Inv(Next(s, a))
  {
    hide HistoryOk, WakeOk, Enabled, Next;
    StepKeepsHistory(s, a);
    StepKeepsWake(s, a);
  }

  lemma {:induction false} RunKeepsInv(steps: seq<Step>)
    requires IsRun(steps)
    ensures Inv(After(steps))
    decreases |steps|
  {
    if steps != [] {
      RunKeepsInv(steps[..|steps| - 1]);
      StepKeepsInv(After(steps[..|steps| - 1]), steps[|steps| - 1]);
    }
  }

  // ---------------------------------------------------------------- what the invariant means

  /**
   No lost wake-up. Whenever the loop is in epoll_wait after the first round of a Loop, a queued functor
   (or a quit) has a byte in the pipe or a thread about to write one.
   */
  lemma NoLostWakeup(steps: seq<Step>)
    requires IsRun(steps) && After(steps).pc == Waiting
    ensures var s := After(steps);
      && (s.queue != [] && !s.first ==> WakeComing(s))
      && (s.quit ==> WakeComing(s))
  {
    RunKeepsInv(steps);
  }

  // ---------------------------------------------------------------- exactly when a wake is coming

  predicate IsWake(a: Step) { a.ThreadWake? || a.FunctorWake? }

  /** A byte written in step `i` that no drain of the pipe has come after. */
  predicate LastingWake(steps: seq<Step>, i: nat) {
    i < |steps| && IsWake(steps[i]) && forall j :: i < j < |steps| ==> steps[j] != EndDrain
  }

  predicate ByteLeft(steps: seq<Step>) { exists i: nat :: i < |steps| && LastingWake(steps, i) }

  predicate IsCall(a: Step, t: nat) { (a.ThreadPush? || a.ThreadQuit?) && a.thread == t }

  /** Thread `t` has queued or quit in step `i` and has not called Wake since. */
  predicate PendingCall(steps: seq<Step>, i: nat, t: nat) {
    i < |steps| && IsCall(steps[i], t) && forall j :: i < j < |steps| ==> steps[j] != ThreadWake(t)
  }

  predicate CallLeft(steps: seq<Step>, t: nat) { exists i: nat :: i < |steps| && PendingCall(steps, i, t) }

  lemma ByteLeftSnoc(steps: seq<Step>, a: Step)
    ensures ByteLeft(steps + [a]) <==> IsWake(a) || (a != EndDrain && ByteLeft(steps))
  {
    var r := steps + [a];
    assert r[|steps|] == a && forall j :: 0 <= j < |steps| ==> steps[j] == r[j];
    if IsWake(a) {
      assert LastingWake(r, |steps|);
    }
    if a != EndDrain && ByteLeft(steps) {
      var i: nat :| i < |steps| && LastingWake(steps, i);
      assert LastingWake(r, i);
    }
    if ByteLeft(r) && !IsWake(a) {
      var i: nat :| i < |r| && LastingWake(r, i);
      assert LastingWake(steps, i);
    }
  }

  lemma CallLeftSnoc(steps: seq<Step>, a: Step, t: nat)
    ensures CallLeft(steps + [a], t) <==> IsCall(a, t) || (a != ThreadWake(t) && CallLeft(steps, t))
  {
    var r := steps + [a];
    assert r[|steps|] == a && forall j :: 0 <= j < |steps| ==> steps[j] == r[j];
    if IsCall(a, t) {
      assert PendingCall(r, |steps|, t);
    }
    if a != ThreadWake(t) && CallLeft(steps, t) {
      var i: nat :| i < |steps| && PendingCall(steps, i, t);
      assert PendingCall(r, i, t);
    }
    if CallLeft(r, t) && !IsCall(a, t) {
      var i: nat :| i < |r| && PendingCall(r, i, t);
      assert PendingCall(steps, i, t);
    }
  }

  lemma PipeStep(s: State, a: Step)
    requires Enabled(s, a) && Next(s, a).pc != Draining
    ensures s.pc == Draining ==> a == EndDrain
    ensures Next(s, a).pipe > 0 <==> IsWake(a) || (a != EndDrain && s.pipe > 0)
  {
    if a.ThreadPush? || a.LoopPush? || a.FunctorPush? {
      PushKeeps(s, a.functor);
      hide Push;
    }
  }

  lemma PushKeeps(s: State, f: nat)
    ensures Push(s, f).pipe == s.pipe && Push(s, f).pc == s.pc
  {
  }

  lemma WakingStep(s: State, a: Step, t: nat)
    requires Enabled(s, a)
    ensures t in Next(s, a).waking <==> IsCall(a, t) || (a != ThreadWake(t) && t in s.waking)
  {
  }

  lemma {:induction false} PipeIff(steps: seq<Step>)
    requires IsRun(steps) && After(steps).pc != Draining
    ensures After(steps).pipe > 0 <==> ByteLeft(steps)
    decreases |steps|
  {
    hide ByteLeft, IsWake, Next, Enabled;
    if steps == [] {
      NothingLeft(0);
    } else {
      var init, a := steps[..|steps| - 1], steps[|steps| - 1];
      assert steps == init + [a];
      ByteLeftSnoc(init, a);
      PipeStep(After(init), a);
      if After(init).pc != Draining {
        PipeIff(init);
      }
    }
  }

  lemma NothingLeft(t: nat)
    ensures !ByteLeft([]) && !CallLeft([], t)
  {
  }

  lemma {:induction false} WakingIff(steps: seq<Step>, t: nat)
    requires IsRun(steps)
    ensures t in After(steps).waking <==> CallLeft(steps, t)
    decreases |steps|
  {
    hide CallLeft, IsCall, Next, Enabled;
    if steps == [] {
      NothingLeft(t);
    } else {
      var init, a := steps[..|steps| - 1], steps[|steps| - 1];
      assert steps == init + [a];
      WakingIff(init, t);
      CallLeftSnoc(init, a, t);
      WakingStep(After(init), a, t);
    }
  }

  /**
   In every run, and so in the first wait of every Loop, a wake is coming exactly when a byte was
   written after the last drain or a thread has called and not woken the loop yet. What the loop
   thread itself queues outside a round does not count.
   */
  lemma WakeComingIff(steps: seq<Step>)
    requires IsRun(steps) && After(steps).pc != Draining
    ensures WakeComing(After(steps)) <==> ByteLeft(steps) || exists t :: CallLeft(steps, t)
  {
    hide ByteLeft, CallLeft, IsRun, After;
    PipeIff(steps);
    var waking := After(steps).waking;
    if waking != {} {
      var t :| t in waking;
      WakingIff(steps, t);
    }
    if t :| CallLeft(steps, t) {
      WakingIff(steps, t);
    }
  }

  /** Another thread has queued a functor or asked the loop to quit. */
  predicate AnyThreadCalled(steps: seq<Step>) {
    exists i :: 0 <= i < |steps| && (steps[i].ThreadPush? || steps[i].ThreadQuit?)
  }

  predicate OutOfLoopBody(s: State) { s.pc == Outside || s.pc == Check || s.pc == Waiting || s.pc == Finished }

  /** Before any wait has returned, that is exactly when another thread has called at all. */
  lemma {:induction false} FirstWaitIsWokenIff(steps: seq<Step>)
    requires IsRun(steps) && WaitReturns !in steps
    ensures OutOfLoopBody(After(steps)) && (WakeComing(After(steps)) <==> AnyThreadCalled(steps))
    decreases |steps|
  {
    hide WakeComing, OutOfLoopBody, AnyThreadCalled, Next, Enabled;
    if steps == [] {
      NothingYet();
    } else {
      var init, a := steps[..|steps| - 1], steps[|steps| - 1];
      assert a in steps && forall b :: b in init ==> b in steps;
      FirstWaitIsWokenIff(init);
      FirstWaitStep(After(init), a);
      assert steps == init + [a];
      ThreadCalledSnoc(init, a);
    }
  }

  lemma NothingYet()
    ensures !WakeComing(INIT) && !AnyThreadCalled([]) && OutOfLoopBody(INIT)
  {
  }

  lemma FirstWaitStep(s: State, a: Step)
    requires Enabled(s, a) && OutOfLoopBody(s) && a != WaitReturns
    ensures OutOfLoopBody(Next(s, a))
    ensures WakeComing(Next(s, a)) <==> WakeComing(s) || a.ThreadPush? || a.ThreadQuit?
  {
    if a.ThreadPush? || a.ThreadQuit? {
      assert a.thread in Next(s, a).waking;
    }
  }

  lemma ThreadCalledSnoc(steps: seq<Step>, a: Step)
    ensures AnyThreadCalled(steps + [a]) <==> AnyThreadCalled(steps) || a.ThreadPush? || a.ThreadQuit?
  {
    var r := steps + [a];
    assert r[|steps|] == a;
    if AnyThreadCalled(steps) {
      var i :| 0 <= i < |steps| && (steps[i].ThreadPush? || steps[i].ThreadQuit?);
      assert r[i] == steps[i];
    }
  }

  /** So a functor that only the loop thread has queued waits for the timeout. */
  lemma QueuedBeforeLoopIsNotWoken(f: nat)
    ensures var steps := [LoopPush(f), StartLoop, EnterWait];
      IsRun(steps) && var s := After(steps); s.pc == Waiting && s.queue == [f] && !WakeComing(s)
  {
    var a, b, c := LoopPush(f), StartLoop, EnterWait;
    var s := RunOfThree(a, b, c);
    FirstWaitIsWokenIff([a, b, c]);
  }

  predicate IsQuit(a: Step) { a.ThreadQuit? || a.LoopQuit? }

  /** Quit is called in step `i` and Loop is not entered after it. */
  predicate LastingQuit(steps: seq<Step>, i: nat) {
    i < |steps| && IsQuit(steps[i]) && forall j :: i < j < |steps| ==> steps[j] != StartLoop
  }

  predicate QuitSinceStart(steps: seq<Step>) { exists i: nat :: i < |steps| && LastingQuit(steps, i) }

  /** A quit is kept exactly when Loop is not entered after it. */
  lemma {:induction false} QuitIsKeptIff(steps: seq<Step>)
    requires IsRun(steps)
    ensures After(steps).quit <==> QuitSinceStart(steps)
    decreases |steps|
  {
    hide QuitSinceStart, Next, Enabled;
    if steps == [] {
      NoQuitYet();
    } else {
      var init, a := steps[..|steps| - 1], steps[|steps| - 1];
      QuitIsKeptIff(init);
      QuitStep(After(init), a);
      assert steps == init + [a];
      QuitSnoc(init, a);
    }
  }

  lemma NoQuitYet()
    ensures !QuitSinceStart([])
  {
  }

  lemma QuitStep(s: State, a: Step)
    requires Enabled(s, a)
    ensures Next(s, a).quit <==> IsQuit(a) || (a != StartLoop && s.quit)
  {
  }

  lemma QuitSnoc(steps: seq<Step>, a: Step)
    ensures QuitSinceStart(steps + [a]) <==> IsQuit(a) || (a != StartLoop && QuitSinceStart(steps))
  {
    var r := steps + [a];
    assert r[|steps|] == a;
    if IsQuit(a) {
      assert LastingQuit(r, |steps|);
    }
    if a != StartLoop && QuitSinceStart(steps) {
      var i: nat :| i < |steps| && LastingQuit(steps, i);
      assert LastingQuit(r, i);
    }
    if QuitSinceStart(r) && !IsQuit(a) {
      var i: nat :| i < |r| && LastingQuit(r, i);
      assert forall j :: 0 <= j < |steps| ==> steps[j] == r[j];
      assert LastingQuit(steps, i);
    }
  }

  /** So a quit that comes before Loop is forgotten, whoever made it. */
  lemma QuitBeforeLoopIsLost(quit: Step)
    requires IsQuit(quit)
    ensures IsRun([quit, StartLoop]) && !After([quit, StartLoop]).quit && Enabled(After([quit, StartLoop]), EnterWait)
  {
    var steps := [quit, StartLoop];
    assert steps[..1] == [quit] && [quit][..0] == [];
    assert After([]) == INIT && IsRun([]) && IsRun([quit]);
    QuitIsKeptIff(steps);
  }

  /** Unfolds a run of three steps. */
  lemma RunOfThree(a: Step, b: Step, c: Step) returns (s: State)
    requires Enabled(INIT, a) && Enabled(Next(INIT, a), b) && Enabled(Next(Next(INIT, a), b), c)
    ensures IsRun([a, b, c]) && s == After([a, b, c]) == Next(Next(Next(INIT, a), b), c)
  {
    assert [a, b, c][..2] == [a, b] && [a, b][..1] == [a] && [a][..0] == [];
    assert After([]) == INIT && IsRun([]);
    assert After([a]) == Next(INIT, a) && IsRun([a]);
    assert After([a, b]) == Next(Next(INIT, a), b) && IsRun([a, b]);
    s := After([a, b, c]);
  }

  // ---------------------------------------------------------------- order, told by the steps alone

  predicate IsPush(a: Step) { a.ThreadPush? || a.LoopPush? || a.FunctorPush? }

  /** The functors of the steps that queue one, in the order of the steps. */
  function Queued(steps: seq<Step>): seq<nat>
    decreases |steps|
  {
    if steps == [] then [] else
    var a := steps[|steps| - 1];
    Queued(steps[..|steps| - 1]) + if IsPush(a) then [a.functor] else []
  }

  /** How many functors have been run. */
  function RunCount(steps: seq<Step>): nat
    decreases |steps|
  {
    if steps == [] then 0 else
    RunCount(steps[..|steps| - 1]) + if steps[|steps| - 1] == RunNext then 1 else 0
  }

  lemma StepQueues(s: State, a: Step)
    requires Enabled(s, a)
    ensures Next(s, a).pushed == s.pushed + if IsPush(a) then [a.functor] else []
    ensures |Next(s, a).ran| == |s.ran| + if a == RunNext then 1 else 0
  {
    assert s.pushed + [] == s.pushed;
  }

  lemma {:induction false} PushedIsQueued(steps: seq<Step>)
    requires IsRun(steps)
    ensures After(steps).pushed == Queued(steps) && |After(steps).ran| == RunCount(steps)
    decreases |steps|
  {
    hide Next, Enabled;
    if steps != [] {
      PushedIsQueued(steps[..|steps| - 1]);
      StepQueues(After(steps[..|steps| - 1]), steps[|steps| - 1]);
    }
  }

  /**
   Functors run at most once and in exact enqueue order over all rounds: those run so far are the
   first that the steps queued, those taken but not yet run come next, then those in the queue.
   */
  lemma RunsInEnqueueOrder(steps: seq<Step>)
    requires IsRun(steps)
    ensures var s := After(steps);
      && s.ran + s.batch + s.queue == Queued(steps)
      && RunCount(steps) <= |Queued(steps)| && s.ran == Queued(steps)[..RunCount(steps)]
  {
    hide WakeOk, IsRun, After;
    RunKeepsInv(steps);
    PushedIsQueued(steps);
    var s := After(steps);
    assert s.ran + s.batch + s.queue == s.ran + (s.batch + s.queue);
  }

  /** The queue was last taken in step `i`. */
  predicate LastTake(steps: seq<Step>, i: nat) {
    i < |steps| && steps[i] == Take && forall j :: i < j < |steps| ==> steps[j] != Take
  }

  lemma RoundStep(s: State, a: Step)
    requires HistoryOk(s) && Enabled(s, a) && InRound(Next(s, a))
    ensures a == Take ==> Next(s, a).ran + Next(s, a).batch == s.ran + s.batch + s.queue
    ensures a != Take ==> InRound(s) && Next(s, a).ran + Next(s, a).batch == s.ran + s.batch
  {
    if a == RunNext {
      assert s.ran + [s.batch[0]] + s.batch[1..] == s.ran + s.batch;
    } else if a == Take {
      assert s.ran + [] + s.queue == s.ran + s.queue;
    }
  }

  /** In a round, what has run and what is left of the batch is all that was queued before its swap. */
  lemma {:induction false} RoundHasWhatWasQueued(steps: seq<Step>, i: nat)
    requires IsRun(steps) && InRound(After(steps)) && LastTake(steps, i)
    ensures After(steps).ran + After(steps).batch == Queued(steps[..i])
    decreases |steps|
  {
    hide WakeOk, Next, Enabled;
    var init, a := steps[..|steps| - 1], steps[|steps| - 1];
    RunKeepsInv(init);
    RoundStep(After(init), a);
    if a == Take {
      assert i == |steps| - 1;
      RunsInEnqueueOrder(init);
    } else {
      assert i < |init| && init[..i] == steps[..i];
      assert forall j :: 0 <= j < |init| ==> init[j] == steps[j];
      RoundHasWhatWasQueued(init, i);
    }
  }

  /** A round that is over has run precisely what was queued before its swap, whatever was queued since. */
  lemma RoundRunsItsBatch(steps: seq<Step>, i: nat)
    requires IsRun(steps) && Enabled(After(steps), EndRound) && LastTake(steps, i)
    ensures After(steps).ran == Queued(steps[..i])
  {
    RoundHasWhatWasQueued(steps, i);
    var s := After(steps);
    assert s.ran + [] == s.ran;
  }

  /** Each read of the pipe's callback takes up to four bytes and at least one, so the drain comes to its end. */
  lemma DrainComesToItsEnd(s: State)
    requires Enabled(s, DrainRead)
    ensures var r := Next(s, DrainRead);
      r.pipe < s.pipe && s.pipe - r.pipe <= 4 && (r.pipe > 0 ==> s.pipe - r.pipe == 4) && r == s.(pipe := r.pipe)
  {
  }

  /** No step of any thread adds to a round in progress, so its functors can only run out. */
  lemma RoundOnlyShrinks(s: State, a: Step)
    requires Inv(s) && InRound(s) && Enabled(s, a)
    ensures var r := Next(s, a);
      && |r.batch| == |s.batch| - (if a == RunNext then 1 else 0)
      && (r.taken == s.taken && r.base == s.base)
      && r.ran == s.base + s.taken[..|s.taken| - |r.batch|]
  {
    hide WakeOk;
    var r := Next(s, a);
    assert r.ran + r.batch == s.base + s.taken by {
      if a == RunNext {
        assert s.ran + [s.batch[0]] + s.batch[1..] == s.ran + s.batch;
      } else {
        assert r.ran == s.ran && r.batch == s.batch;
      }
    }
    hide HistoryOk, Enabled;
    PrefixOf(r.ran, r.batch, s.base, s.taken);
  }

  lemma PrefixOf(a: seq<nat>, b: seq<nat>, c: seq<nat>, d: seq<nat>)
    requires a + b == c + d && |b| <= |d|
    ensures a == c + d[..|d| - |b|]
  {
    assert a == (a + b)[..|a|];
  }

  // ---------------------------------------------------------------- the round as code

  /** What is queued while the i-th functor of a round runs, by itself or by other threads. */
  function Requeued(scripts: seq<seq<nat>>, i: nat): seq<nat> { if i < |scripts| then scripts[i] else [] }

  function AllRequeued(scripts: seq<seq<nat>>, n: nat): seq<nat> {
    if n == 0 then [] else AllRequeued(scripts, n - 1) + Requeued(scripts, n - 1)
  }

  class EventLoop {
    var pendingFunctors: seq<nat>
    var callingPendingFunctors: bool
    var pipe: nat
    var ran: seq<nat>

    constructor ()
      ensures pendingFunctors == [] && !callingPendingFunctors && pipe == 0 && ran == []
    {
      pendingFunctors, callingPendingFunctors, pipe, ran := [], false, 0, [];
    }

    method QueueInLoop(functor: nat, inLoopThread: bool)
      modifies `pendingFunctors, `pipe
      ensures pendingFunctors == old(pendingFunctors) + [functor]
      ensures pipe == old(pipe) + (if !inLoopThread || callingPendingFunctors then 1 else 0)
    {
      pendingFunctors := pendingFunctors + [functor];
      if !inLoopThread || callingPendingFunctors {
        pipe := pipe + 1;
      }
    }

    /**
     Runs the functors present at the swap, in order, and no others; everything queued
     meanwhile is left for the next round, with a wake for each.
     */
    method DoPendingFunctors(scripts: seq<seq<nat>>, byLoopThread: bool)
      requires !callingPendingFunctors
      modifies this
      ensures ran == old(ran) + old(pendingFunctors)
      ensures pendingFunctors == AllRequeued(scripts, |old(pendingFunctors)|)
      ensures pipe == old(pipe) + |pendingFunctors| && !callingPendingFunctors
    {
      callingPendingFunctors := true;
      var functors := pendingFunctors;
      pendingFunctors := [];
      for i := 0 to |functors|
        invariant callingPendingFunctors
        invariant ran == old(ran) + functors[..i]
        invariant pendingFunctors == AllRequeued(scripts, i)
        invariant pipe == old(pipe) + |pendingFunctors|
      {
        ran := ran + [functors[i]];
        ghost var before := pendingFunctors;
        var more := Requeued(scripts, i);
        for j := 0 to |more|
          modifies `pendingFunctors, `pipe
          invariant pendingFunctors == before + more[..j]
          invariant pipe == old(pipe) + |pendingFunctors| && callingPendingFunctors
        {
          QueueInLoop(more[j], byLoopThread);
          assert more[..j + 1] == more[..j] + [more[j]];
        }
        assert more[..|more|] == more;
        assert old(ran) + functors[..i + 1] == old(ran) + functors[..i] + [functors[i]];
      }
      assert functors[..|functors|] == functors;
      callingPendingFunctors := false;
    }
  }
}
