/**
 The fd half of the epoll server, seen through plain values: the callback table, the two
 ready lists as sequences of descriptors, and the interest set held by the kernel.

 A user callback is an arbitrary finite script of public API calls. `EpollServers` proves
 that the intrusive linked lists of the server compute exactly these functions; this module
 proves what every run of them keeps.
 */
module FdTable {
  import opened Sequences

  /** An event mask, as the set of its bit positions. */
  type Mask = set<nat>

  const EPOLLIN: Mask := {0}
  const EPOLLOUT: Mask := {2}
  const EPOLLERR: Mask := {3}
  const EPOLLHUP: Mask := {4}

  /** What one table node holds, its list links aside; `cb` is None once unregistered in use. */
  datatype Entry = Entry(cb: Option<nat>, mask: Mask, asserted: Mask, fake: Mask, inUse: bool)

  /** `aborted` records that a fatal check of the server has fired. */
  datatype State = State(table: map<int, Entry>, ready: seq<int>, tmp: seq<int>,
                         kernel: map<int, Mask>, aborted: bool)

  datatype Call =
    | Register(fd: int, cb: nat, mask: Mask)
    | Unregister(fd: int)
    | Modify(fd: int, remove: Mask, add: Mask)
    | Handle(fd: int, mask: Mask)
    | SetReady(fd: int, mask: Mask)
    | SetNotReady(fd: int)

  /** One run of OnEvent: the calls it makes, then the mask it leaves in `out_ready_mask`. */
  datatype Script = Script(calls: seq<Call>, out: Mask)

  /** One OnEvent invocation made by the server. */
  datatype Dispatch = Dispatch(fd: int, cb: nat, events: Mask)

  datatype Action =
    | Api(call: Call)
    | Poll(events: seq<(int, Mask)>, scripts: seq<Script>)

  // ---------------------------------------------------------------- sequences of descriptors

  /** `s` without the first occurrence of `x`. */
  function Without(s: seq<int>, x: int): (r: seq<int>)
    ensures |r| <= |s|
    ensures x !in s ==> r == s
    ensures forall y :: y in r ==> y in s
    ensures forall y :: y in s && y != x ==> y in r
  {
    if s == [] then [] else if s[0] == x then s[1..] else [s[0]] + Without(s[1..], x)
  }

  lemma {:induction false} WithoutIs(a: seq<int>, x: int, b: seq<int>)
    requires x !in a
    ensures Without(a + [x] + b, x) == a + b
  {
    var s := a + [x] + b;
    if a == [] {
      assert s[1..] == b && a + b == b;
    } else {
      assert s[0] == a[0] && a[0] != x;
      assert s[1..] == a[1..] + [x] + b;
      WithoutIs(a[1..], x, b);
      assert [a[0]] + (a[1..] + b) == a + b;
    }
  }

  ghost predicate IsCut(s: seq<int>, i: nat, r: seq<int>)
    requires i < |s|
  {
    && |r| == |s| - 1
    && (forall k :: 0 <= k < i ==> r[k] == s[k])
    && (forall k :: i <= k < |r| ==> r[k] == s[k + 1])
  }

  lemma SliceOut(s: seq<int>, i: nat)
    requires i < |s|
    ensures s == s[..i] + [s[i]] + s[i + 1..] && IsCut(s, i, s[..i] + s[i + 1..])
  {
  }

  lemma CutNoDup(s: seq<int>, i: nat, r: seq<int>)
    requires i < |s| && NoDup(s) && IsCut(s, i, r)
    ensures NoDup(r) && s[i] !in r
  {
  }

  lemma NotBefore(s: seq<int>, i: nat)
    requires i < |s| && NoDup(s)
    ensures s[i] !in s[..i]
  {
  }

  lemma WithoutAt(s: seq<int>, i: nat)
    requires i < |s| && NoDup(s)
    ensures Without(s, s[i]) == s[..i] + s[i + 1..]
    ensures NoDup(Without(s, s[i])) && s[i] !in Without(s, s[i])
  {
    hide Without, NoDup, IsCut;
    SliceOut(s, i);
    NotBefore(s, i);
    CutNoDup(s, i, s[..i] + s[i + 1..]);
    WithoutIs(s[..i], s[i], s[i + 1..]);
  }

  lemma WithoutNoDup(s: seq<int>, x: int)
    requires NoDup(s)
    ensures NoDup(Without(s, x)) && x !in Without(s, x)
  {
    if x in s {
      var i :| 0 <= i < |s| && s[i] == x;
      WithoutAt(s, i);
    }
  }

  // ---------------------------------------------------------------- the kernel interest set

  function KernelMask(mask: Mask): Mask { mask + EPOLLERR + EPOLLHUP }

  /** epoll_ctl fails, and the server aborts, when the descriptor is already in the set. */
  function AddFD(s: State, fd: int, mask: Mask): State {
    if fd in s.kernel then s.(aborted := true) else s.(kernel := s.kernel[fd := KernelMask(mask)])
  }

  /** epoll_ctl fails, and the server aborts, when the descriptor is not in the set. */
  function ModFD(s: State, fd: int, mask: Mask): State {
    if fd !in s.kernel then s.(aborted := true) else s.(kernel := s.kernel[fd := KernelMask(mask)])
  }

  function DelFD(s: State, fd: int): State {
    if fd !in s.kernel then s.(aborted := true) else s.(kernel := s.kernel - {fd})
  }

  // ---------------------------------------------------------------- the public API

  function AddToReadyList(s: State, fd: int): State {
    if fd in s.ready || fd in s.tmp then s else s.(ready := [fd] + s.ready)
  }

  function RemoveFromReadyList(s: State, fd: int): State {
    s.(ready := Without(s.ready, fd), tmp := Without(s.tmp, fd))
  }

  predicate Live(s: State, fd: int) { fd in s.table && s.table[fd].cb.Some? }

  function RegisterFD(s: State, fd: int, cb: nat, mask: Mask): State {
    if fd in s.table then
      var s1 := if s.table[fd].cb.Some?
                then ModFD(RemoveFromReadyList(s, fd), fd, mask)
                else AddFD(s, fd, mask);
      s1.(table := s.table[fd := s.table[fd].(cb := Some(cb), mask := mask, fake := {})])
    else
      AddFD(s, fd, mask).(table := s.table[fd := Entry(Some(cb), mask, {}, {}, false)])
  }

  function UnregisterFD(s: State, fd: int): State {
    if !Live(s, fd) then s else
    var s1 := DelFD(RemoveFromReadyList(s, fd), fd);
    if !s.table[fd].inUse
    then s1.(table := s.table - {fd})
    else s1.(table := s.table[fd := s.table[fd].(cb := None, mask := {}, fake := {})])
  }

  function ModifyFD(s: State, fd: int, remove: Mask, add: Mask): State {
    if !Live(s, fd) then s else
    SetMask(s, fd, s.table[fd].mask - remove + add)
  }

  function SetMask(s: State, fd: int, mask: Mask): State
    requires fd in s.table
  {
    ModFD(s, fd, mask).(table := s.table[fd := s.table[fd].(mask := mask)])
  }

  function HandleEvent(s: State, fd: int, mask: Mask): State {
    if !Live(s, fd) then s else
    AddToReadyList(s.(table := s.table[fd := s.table[fd].(asserted := mask)]), fd)
  }

  function SetFDReady(s: State, fd: int, fake: Mask): State {
    if !Live(s, fd) then s else
    AddToReadyList(s.(table := s.table[fd := s.table[fd].(fake := fake)]), fd)
  }

  function SetFDNotReady(s: State, fd: int): State {
    if fd in s.table then RemoveFromReadyList(s, fd) else s
  }

  function Apply(s: State, c: Call): (r: State)
    ensures |r.tmp| <= |s.tmp|
  {
    match c
    case Register(fd, cb, mask) => RegisterFD(s, fd, cb, mask)
    case Unregister(fd) => UnregisterFD(s, fd)
    case Modify(fd, remove, add) => ModifyFD(s, fd, remove, add)
    case Handle(fd, mask) => HandleEvent(s, fd, mask)
    case SetReady(fd, mask) => SetFDReady(s, fd, mask)
    case SetNotReady(fd) => SetFDNotReady(s, fd)
  }

  function ApplyAll(s: State, calls: seq<Call>): (r: State)
    ensures |r.tmp| <= |s.tmp|
    decreases |calls|
  {
    if calls == [] then s else Apply(ApplyAll(s, calls[..|calls| - 1]), calls[|calls| - 1])
  }

  // ---------------------------------------------------------------- the dispatch pass

  function ScriptAt(scripts: seq<Script>, k: nat): Script {
    if k < |scripts| then scripts[k] else Script([], {})
  }

  /** The head of `tmp` is unlinked, its event bits are consumed and the node is pinned. */
  function BeginDispatch(s: State): (r: State)
    requires s.tmp != []
    ensures |r.tmp| < |s.tmp|
  {
    var fd := s.tmp[0];
    var s1 := RemoveFromReadyList(s, fd);
    if fd in s.table
    then s1.(table := s.table[fd := s.table[fd].(asserted := {}, fake := {}, inUse := true)])
    else s1
  }

  /** After OnEvent: the node is unpinned, then erased, put back on the list, or left alone. */
  function EndDispatch(s: State, fd: int, out: Mask): (r: State)
    ensures r.tmp == s.tmp
  {
    if fd !in s.table then s else
    var e := s.table[fd].(inUse := false);
    if e.cb.None? then s.(table := s.table - {fd})
    else if out != {} then AddToReadyList(s.(table := s.table[fd := e.(fake := out)]), fd)
    else s.(table := s.table[fd := e])
  }

  function DispatchOne(s: State, script: Script): (r: State)
    requires s.tmp != []
    ensures |r.tmp| < |s.tmp|
  {
    EndDispatch(ApplyAll(BeginDispatch(s), script.calls), s.tmp[0], script.out)
  }

  function DispatchOf(s: State): Dispatch
    requires s.tmp != []
  {
    var fd := s.tmp[0];
    if Live(s, fd)
    then Dispatch(fd, s.table[fd].cb.value, s.table[fd].asserted + s.table[fd].fake)
    else Dispatch(fd, 0, {})
  }

  /** The loop over `tmp`; `k` counts the callbacks run so far in the pass. */
  function Drain(s: State, scripts: seq<Script>, k: nat): State
    decreases |s.tmp|
  {
    if s.tmp == [] then s else Drain(DispatchOne(s, ScriptAt(scripts, k)), scripts, k + 1)
  }

  function DrainTrace(s: State, scripts: seq<Script>, k: nat): seq<Dispatch>
    decreases |s.tmp|
  {
    if s.tmp == [] then [] else
    [DispatchOf(s)] + DrainTrace(DispatchOne(s, ScriptAt(scripts, k)), scripts, k + 1)
  }

  function Swap(s: State): State { s.(ready := s.tmp, tmp := s.ready) }

  function HandleAll(s: State, events: seq<(int, Mask)>): State
    decreases |events|
  {
    if events == [] then s else
    var n := |events| - 1;
    HandleEvent(HandleAll(s, events[..n]), events[n].0, events[n].1)
  }

  /** One round: file the events epoll_wait returned, then run the ready list. */
  function PollOnce(s: State, events: seq<(int, Mask)>, scripts: seq<Script>): State {
    var s1 := HandleAll(s, events);
    if s1.ready == [] then s1 else Drain(Swap(s1), scripts, 0)
  }

  function Act(s: State, a: Action): State {
    match a
    case Api(c) => Apply(s, c)
    case Poll(events, scripts) => PollOnce(s, events, scripts)
  }

  function Run(s: State, actions: seq<Action>): State
    decreases |actions|
  {
    if actions == [] then s else Act(Run(s, actions[..|actions| - 1]), actions[|actions| - 1])
  }

  /** The constructor registers the read end of the wake pipe. */
  function Initial(readFd: int, wakeCb: nat): State {
    RegisterFD(State(map[], [], [], map[], false), readFd, wakeCb, EPOLLIN)
  }

  // ---------------------------------------------------------------- the invariant

  function KernelOf(table: map<int, Entry>): map<int, Mask> {
    map fd | fd in table && table[fd].cb.Some? :: KernelMask(table[fd].mask)
  }

  ghost predicate ListsOk(s: State) {
    && NoDup(s.ready) && NoDup(s.tmp)
    && (forall fd :: fd in s.ready ==> fd !in s.tmp && Live(s, fd))
    && (forall fd :: fd in s.tmp ==> Live(s, fd))
  }

  /** `current` is the descriptor whose OnEvent is running, if any: its node is always alive. */
  ghost predicate TableOk(s: State, current: Option<int>) {
    && (forall fd :: fd in s.table ==> (s.table[fd].inUse <==> current == Some(fd)))
    && (forall fd :: fd in s.table && s.table[fd].cb.None? ==> current == Some(fd))
    && (current.Some? ==> current.value in s.table)
  }

  ghost predicate Inv(s: State, current: Option<int>) {
    ListsOk(s) && TableOk(s, current) && s.kernel == KernelOf(s.table) && !s.aborted
  }

  lemma RemoveKeepsLists(s: State, fd: int)
    requires NoDup(s.ready) && NoDup(s.tmp)
    requires forall x :: x in s.ready ==> x !in s.tmp
    ensures var r := RemoveFromReadyList(s, fd);
      && NoDup(r.ready) && NoDup(r.tmp)
      && fd !in r.ready && fd !in r.tmp
      && (forall x :: x in r.ready ==> x in s.ready && x !in r.tmp)
      && (forall x :: x in r.tmp ==> x in s.tmp)
  {
    WithoutNoDup(s.ready, fd);
    WithoutNoDup(s.tmp, fd);
  }

  /** What a change to one node does to the kernel's mirror of the table. */
  lemma KernelUpdate(table: map<int, Entry>, fd: int, e: Entry)
    ensures fd in KernelOf(table) <==> fd in table && table[fd].cb.Some?
    ensures KernelOf(table[fd := e]) ==
      if e.cb.Some? then KernelOf(table)[fd := KernelMask(e.mask)] else KernelOf(table) - {fd}
    ensures KernelOf(table - {fd}) == KernelOf(table) - {fd}
    ensures fd in table && e.cb == table[fd].cb && e.mask == table[fd].mask ==>
      KernelOf(table[fd := e]) == KernelOf(table)
    ensures fd !in table || table[fd].cb.None? ==> KernelOf(table) - {fd} == KernelOf(table)
  {
  }

  lemma RegisterKeepsInv(s: State, current: Option<int>, fd: int, cb: nat, mask: Mask)
    requires Inv(s, current)
    ensures Inv(RegisterFD(s, fd, cb, mask), current)
  {
    hide NoDup, Without, KernelOf, KernelMask;
    RemoveKeepsLists(s, fd);
    var r := RegisterFD(s, fd, cb, mask);
    KernelUpdate(s.table, fd, r.table[fd]);
  }

  lemma UnregisterKeepsInv(s: State, current: Option<int>, fd: int)
    requires Inv(s, current)
    ensures Inv(UnregisterFD(s, fd), current)
  {
    hide NoDup, Without, KernelOf, KernelMask;
    RemoveKeepsLists(s, fd);
    if Live(s, fd) {
      KernelUpdate(s.table, fd, s.table[fd].(cb := None, mask := {}, fake := {}));
    }
  }

  lemma SetMaskKeepsInv(s: State, current: Option<int>, fd: int, mask: Mask)
    requires Inv(s, current) && Live(s, fd)
    ensures Inv(SetMask(s, fd, mask), current)
  {
    var r := SetMask(s, fd, mask);
    assert r.kernel == KernelOf(r.table);
  }

  lemma ReadyKeepsInv(s: State, current: Option<int>, fd: int, e: Entry)
    requires Inv(s, current) && Live(s, fd)
    requires e.cb.Some? && e.mask == s.table[fd].mask && e.inUse == s.table[fd].inUse
    ensures Inv(AddToReadyList(s.(table := s.table[fd := e]), fd), current)
    ensures Inv(s.(table := s.table[fd := e]), current)
  {
    assert KernelOf(s.table[fd := e]) == KernelOf(s.table);
    hide NoDup, KernelOf;
    PushNoDup(s.ready, fd);
  }

  /** Every public call keeps the invariant, whether or not a callback is running. */
  lemma ApplyKeepsInv(s: State, current: Option<int>, c: Call)
    requires Inv(s, current)
    ensures Inv(Apply(s, c), current)
  {
    match c
    case Register(fd, cb, mask) => RegisterKeepsInv(s, current, fd, cb, mask);
    case Unregister(fd) => UnregisterKeepsInv(s, current, fd);
    case Modify(fd, remove, add) => if Live(s, fd) { SetMaskKeepsInv(s, current, fd, s.table[fd].mask - remove + add); }
    case Handle(fd, mask) => if Live(s, fd) { ReadyKeepsInv(s, current, fd, s.table[fd].(asserted := mask)); }
    case SetReady(fd, mask) => if Live(s, fd) { ReadyKeepsInv(s, current, fd, s.table[fd].(fake := mask)); }
    case SetNotReady(fd) => RemoveKeepsLists(s, fd);
  }

  lemma {:induction false} ScriptKeepsInv(s: State, current: Option<int>, calls: seq<Call>)
    requires Inv(s, current)
    ensures Inv(ApplyAll(s, calls), current)
    decreases |calls|
  {
    if calls != [] {
      ScriptKeepsInv(s, current, calls[..|calls| - 1]);
      ApplyKeepsInv(ApplyAll(s, calls[..|calls| - 1]), current, calls[|calls| - 1]);
    }
  }

  lemma BeginKeepsInv(s: State)
    requires Inv(s, None) && s.tmp != []
    ensures Inv(BeginDispatch(s), Some(s.tmp[0]))
    ensures BeginDispatch(s).tmp == s.tmp[1..]
  {
    assert s.tmp[0] in s.tmp;
    RemoveKeepsLists(s, s.tmp[0]);
    var r := BeginDispatch(s);
    assert KernelOf(r.table) == KernelOf(s.table);
  }

  lemma EndKeepsInv(s: State, fd: int, out: Mask)
    requires Inv(s, Some(fd))
    ensures Inv(EndDispatch(s, fd, out), None)
  {
    hide NoDup, KernelOf, KernelMask;
    var e := s.table[fd].(inUse := false);
    KernelUpdate(s.table, fd, e);
    KernelUpdate(s.table, fd, e.(fake := out));
    PushNoDup(s.ready, fd);
  }

  lemma PushNoDup(s: seq<int>, fd: int)
    ensures NoDup(s) && fd !in s ==> NoDup([fd] + s)
  {
  }

  lemma DispatchKeepsInv(s: State, script: Script)
    requires Inv(s, None) && s.tmp != []
    ensures Inv(DispatchOne(s, script), None)
  {
    BeginKeepsInv(s);
    ScriptKeepsInv(BeginDispatch(s), Some(s.tmp[0]), script.calls);
    EndKeepsInv(ApplyAll(BeginDispatch(s), script.calls), s.tmp[0], script.out);
  }

  lemma {:induction false} DrainKeepsInv(s: State, scripts: seq<Script>, k: nat)
    requires Inv(s, None)
    ensures Inv(Drain(s, scripts, k), None) && Drain(s, scripts, k).tmp == []
    decreases |s.tmp|
  {
    if s.tmp != [] {
      DispatchKeepsInv(s, ScriptAt(scripts, k));
      DrainKeepsInv(DispatchOne(s, ScriptAt(scripts, k)), scripts, k + 1);
    }
  }

  lemma {:induction false} HandleAllKeepsInv(s: State, events: seq<(int, Mask)>)
    requires Inv(s, None) && s.tmp == []
    ensures Inv(HandleAll(s, events), None) && HandleAll(s, events).tmp == []
    decreases |events|
  {
    if events != [] {
      var n := |events| - 1;
      HandleAllKeepsInv(s, events[..n]);
      ApplyKeepsInv(HandleAll(s, events[..n]), None, Handle(events[n].0, events[n].1));
    }
  }

  /**
   Every state the server can reach, through any calls from outside and any callbacks that
   call back in the middle of a pass, satisfies the invariant and has never aborted.
   */
  lemma {:induction false} RunKeepsInv(readFd: int, wakeCb: nat, actions: seq<Action>)
    ensures var s := Run(Initial(readFd, wakeCb), actions); Inv(s, None) && s.tmp == []
    decreases |actions|
  {
    if actions == [] {
      RegisterKeepsInv(State(map[], [], [], map[], false), None, readFd, wakeCb, EPOLLIN);
    } else {
      var n := |actions| - 1;
      RunKeepsInv(readFd, wakeCb, actions[..n]);
      var s := Run(Initial(readFd, wakeCb), actions[..n]);
      match actions[n]
      case Api(c) =>
        ApplyKeepsInv(s, None, c);
      case Poll(events, scripts) =>
        HandleAllKeepsInv(s, events);
        DrainKeepsInv(Swap(HandleAll(s, events)), scripts, 0);
    }
  }

  // ---------------------------------------------------------------- what each call does, and to nothing else

  /** The node and the kernel mask of every other descriptor are as they were. */
  ghost predicate OthersKept(s: State, r: State, fd: int) {
    forall x :: x != fd ==>
      && (x in r.table <==> x in s.table) && (x in s.table && x in r.table ==> r.table[x] == s.table[x])
      && (x in r.kernel <==> x in s.kernel) && (x in s.kernel && x in r.kernel ==> r.kernel[x] == s.kernel[x])
  }

  lemma LiveIsInKernel(s: State, current: Option<int>, fd: int)
    requires Inv(s, current)
    ensures fd in s.kernel <==> Live(s, fd)
    ensures Live(s, fd) ==> forall b: nat :: b in s.kernel[fd] <==> b in s.table[fd].mask || b == 3 || b == 4
    ensures !Live(s, fd) ==> fd !in s.ready && fd !in s.tmp
  {
  }

  /** A node is in use exactly while its callback runs; a removal takes a node off both lists. */
  lemma NodeFacts(s: State, current: Option<int>, fd: int)
    requires Inv(s, current)
    ensures !s.aborted && (current == Some(fd) <==> fd in s.table && s.table[fd].inUse)
    ensures fd !in Without(s.ready, fd) && fd !in Without(s.tmp, fd)
    ensures !Live(s, fd) ==> Without(s.ready, fd) == s.ready && Without(s.tmp, fd) == s.tmp
  {
    WithoutNoDup(s.ready, fd);
    WithoutNoDup(s.tmp, fd);
  }

  /** Registering, also over another callback or a node in use: the callback and mask asked for, off both lists. */
  lemma RegisterEffect(s: State, current: Option<int>, fd: int, cb: nat, mask: Mask)
    requires Inv(s, current)
    ensures var r := Apply(s, Register(fd, cb, mask));
      && Live(r, fd) && r.table[fd].cb == Some(cb) && r.table[fd].mask == mask && r.table[fd].fake == {}
      && r.table[fd].inUse == (current == Some(fd))
      && r.table[fd].asserted == (if fd in s.table then s.table[fd].asserted else {})
      && fd in r.kernel && (forall b: nat :: b in r.kernel[fd] <==> b in mask || b == 3 || b == 4)
      && r.ready == Without(s.ready, fd) && r.tmp == Without(s.tmp, fd) && fd !in r.ready && fd !in r.tmp
      && OthersKept(s, r, fd) && !r.aborted
  {
    hide Inv, Without, KernelMask;
    RegisterKeepsInv(s, current, fd, cb, mask);
    LiveIsInKernel(s, current, fd);
    NodeFacts(s, current, fd);
    var r := Apply(s, Register(fd, cb, mask));
    LiveIsInKernel(r, current, fd);
    NodeFacts(r, current, fd);
  }

  /** Unregistering: out of the kernel and off both lists; only a node in use stays, without callback. */
  lemma UnregisterEffect(s: State, current: Option<int>, fd: int)
    requires Inv(s, current)
    ensures var r := Apply(s, Unregister(fd));
      if !Live(s, fd) then r == s
      else
        && fd !in r.kernel && !Live(r, fd) && (fd in r.table <==> current == Some(fd))
        && (fd in r.table ==> r.table[fd].inUse && r.table[fd].mask == {} && r.table[fd].fake == {})
        && r.ready == Without(s.ready, fd) && r.tmp == Without(s.tmp, fd) && fd !in r.ready && fd !in r.tmp
        && OthersKept(s, r, fd) && !r.aborted
  {
    hide Inv, Without, KernelMask;
    UnregisterKeepsInv(s, current, fd);
    LiveIsInKernel(s, current, fd);
    NodeFacts(s, current, fd);
    NodeFacts(Apply(s, Unregister(fd)), current, fd);
  }

  /** Changing a mask: exactly the bits asked for come and go, in the node and in the kernel. */
  lemma ModifyEffect(s: State, current: Option<int>, fd: int, remove: Mask, add: Mask)
    requires Inv(s, current)
    ensures var r := Apply(s, Modify(fd, remove, add));
      if !Live(s, fd) then r == s
      else
        && fd in s.kernel && fd in r.kernel
        && (forall b: nat ::
              b in r.kernel[fd] <==> b in add || b == 3 || b == 4 || (b in s.kernel[fd] && b !in remove))
        && (forall b: nat :: b in r.table[fd].mask <==> b in add || (b in s.table[fd].mask && b !in remove))
        && r.table[fd] == s.table[fd].(mask := r.table[fd].mask)
        && r.ready == s.ready && r.tmp == s.tmp && OthersKept(s, r, fd) && !r.aborted
  {
    LiveIsInKernel(s, current, fd);
    if Live(s, fd) {
      SetMaskKeepsInv(s, current, fd, s.table[fd].mask - remove + add);
      LiveIsInKernel(Apply(s, Modify(fd, remove, add)), current, fd);
    }
    hide Inv, KernelMask, KernelOf;
  }

  /** An event from the kernel, or a faked one, is recorded; a descriptor on no list goes to the ready list's head. */
  lemma ReadyEffect(s: State, current: Option<int>, c: Call)
    requires Inv(s, current) && (c.Handle? || c.SetReady?)
    ensures var r := Apply(s, c);
      if !Live(s, c.fd) then r == s
      else
        && c.fd in r.table
        && r.table[c.fd] == (if c.Handle? then s.table[c.fd].(asserted := c.mask) else s.table[c.fd].(fake := c.mask))
        && r.ready == (if c.fd in s.ready || c.fd in s.tmp then s.ready else [c.fd] + s.ready) && r.tmp == s.tmp
        && r.kernel == s.kernel && OthersKept(s, r, c.fd) && !r.aborted
  {
  }

  /** Withdrawing readiness takes the descriptor off its list and leaves all else. */
  lemma NotReadyEffect(s: State, current: Option<int>, fd: int)
    requires Inv(s, current)
    ensures var r := Apply(s, SetNotReady(fd));
      && fd !in r.ready && fd !in r.tmp && r.table == s.table && r.kernel == s.kernel && !r.aborted
      && r.ready == Without(s.ready, fd) && r.tmp == Without(s.tmp, fd)
  {
    RemoveKeepsLists(s, fd);
    LiveIsInKernel(s, current, fd);
    hide Without;
  }

  /** The server starts with the wake pipe alone, for reading. */
  lemma InitialEffect(readFd: int, wakeCb: nat)
    ensures var s := Initial(readFd, wakeCb);
      && s.table == map[readFd := Entry(Some(wakeCb), {0}, {}, {}, false)] && s.kernel == map[readFd := {0, 3, 4}]
      && s.ready == [] && s.tmp == [] && !s.aborted
  {
    assert KernelMask({0}) == {0, 3, 4};
  }

  /** Taking the first descriptor of a pass: its events are consumed and its node is pinned. */
  lemma BeginEffect(s: State)
    requires Inv(s, None) && s.tmp != []
    ensures var r, fd := BeginDispatch(s), s.tmp[0];
      && r.tmp == s.tmp[1..] && r.ready == s.ready && r.kernel == s.kernel && OthersKept(s, r, fd)
      && fd in s.table && fd in r.table
      && r.table[fd] == s.table[fd].(asserted := {}, fake := {}, inUse := true)
  {
    BeginKeepsInv(s);
    assert s.tmp[0] in s.tmp;
  }

  /** After OnEvent: gone if it was unregistered, at the head of the ready list if it asked to be, else left. */
  lemma EndEffect(s: State, fd: int, out: Mask)
    requires Inv(s, Some(fd))
    ensures var r := EndDispatch(s, fd, out);
      && r.tmp == s.tmp && r.kernel == s.kernel && OthersKept(s, r, fd) && fd in s.table
      && (!Live(s, fd) ==> fd !in r.table && r.ready == s.ready)
      && (Live(s, fd) && out == {} ==>
            fd in r.table && r.table[fd] == s.table[fd].(inUse := false) && r.ready == s.ready)
      && (Live(s, fd) && out != {} ==>
            && fd in r.table && r.table[fd] == s.table[fd].(inUse := false, fake := out)
            && r.ready == if fd in s.ready || fd in s.tmp then s.ready else [fd] + s.ready)
  {
    EndKeepsInv(s, fd, out);
  }

  /** A call on another descriptor leaves this one's node alone, and on the list it is on. */
  lemma CallLeaves(s: State, current: Option<int>, c: Call, fd: int)
    requires Inv(s, current) && c.fd != fd
    ensures var r := Apply(s, c);
      && (fd in r.table <==> fd in s.table) && (fd in s.table ==> r.table[fd] == s.table[fd])
      && (fd in r.ready <==> fd in s.ready) && (fd in r.tmp <==> fd in s.tmp)
  {
    match c
    case Register(x, cb, mask) =>
      RegisterEffect(s, current, x, cb, mask);
      hide Inv, Apply;
    case Unregister(x) =>
      UnregisterEffect(s, current, x);
      hide Inv, Apply;
    case Modify(x, remove, add) =>
      ModifyEffect(s, current, x, remove, add);
      hide Inv, Apply;
    case Handle(x, mask) =>
      ReadyEffect(s, current, c);
      hide Inv, Apply;
    case SetReady(x, mask) =>
      ReadyEffect(s, current, c);
      hide Inv, Apply;
    case SetNotReady(x) =>
      NotReadyEffect(s, current, x);
      hide Inv, Apply;
  }

  lemma {:induction false} ScriptLeaves(s: State, current: Option<int>, calls: seq<Call>, fd: int)
    requires Inv(s, current) && forall i :: 0 <= i < |calls| ==> calls[i].fd != fd
    ensures var r := ApplyAll(s, calls);
      && (fd in r.table <==> fd in s.table) && (fd in s.table ==> r.table[fd] == s.table[fd])
      && (fd in r.ready <==> fd in s.ready) && (fd in r.tmp <==> fd in s.tmp)
    decreases |calls|
  {
    hide Inv, Apply;
    if calls != [] {
      var init := calls[..|calls| - 1];
      assert calls[|calls| - 1].fd != fd && forall i :: 0 <= i < |init| ==> init[i] == calls[i];
      ScriptLeaves(s, current, init, fd);
      ScriptKeepsInv(s, current, init);
      CallLeaves(ApplyAll(s, init), current, calls[|calls| - 1], fd);
    }
  }

  /**
   A callback that makes no call on its own descriptor: what was pending has been delivered, what
   it asked for in its out mask is pending now, and it is at the head of the ready list exactly
   if it asked for something.
   */
  lemma DispatchSettles(s: State, script: Script)
    requires Inv(s, None) && s.tmp != []
    requires forall i :: 0 <= i < |script.calls| ==> script.calls[i].fd != s.tmp[0]
    ensures var r, fd := DispatchOne(s, script), s.tmp[0];
      && Live(r, fd) && r.table[fd] == s.table[fd].(asserted := {}, fake := script.out)
      && fd !in r.tmp && (fd in r.ready <==> script.out != {}) && (script.out != {} ==> r.ready[0] == fd)
  {
    var fd, b := s.tmp[0], BeginDispatch(s);
    BeginKeepsInv(s);
    BeginEffect(s);
    HeadIsOnOneList(s);
    ScriptLeaves(b, Some(fd), script.calls, fd);
    ScriptKeepsInv(b, Some(fd), script.calls);
    hide Inv, ApplyAll, BeginDispatch, EndDispatch;
    EndEffect(ApplyAll(b, script.calls), fd, script.out);
  }

  lemma HeadIsOnOneList(s: State)
    requires Inv(s, None) && s.tmp != []
    ensures s.tmp[0] !in s.ready && s.tmp[0] !in s.tmp[1..] && Live(s, s.tmp[0]) && !s.table[s.tmp[0]].inUse
  {
    var fd := s.tmp[0];
    assert fd in s.tmp;
    assert forall x :: x in s.ready ==> x !in s.tmp;
    assert forall j :: 0 < j < |s.tmp| ==> s.tmp[j] != fd;
  }

  // ---------------------------------------------------------------- who is run in a pass

  /** The calls that take a descriptor off the list it is on. */
  predicate TakesOff(c: Call, fd: int) {
    (c.Register? || c.Unregister? || c.SetNotReady?) && c.fd == fd
  }

  predicate AnyTakesOff(calls: seq<Call>, fd: int) {
    exists i :: 0 <= i < |calls| && TakesOff(calls[i], fd)
  }

  function Survivors(s: seq<int>, calls: seq<Call>): (r: seq<int>)
    ensures |r| <= |s|
    ensures forall x :: x in r <==> x in s && !AnyTakesOff(calls, x)
  {
    if s == [] then []
    else if AnyTakesOff(calls, s[0]) then Survivors(s[1..], calls)
    else [s[0]] + Survivors(s[1..], calls)
  }

  /**
   The reference for a pass, with no server state in it: run the first descriptor, strike out
   those its callback takes off, go on with the rest.
   */
  function Expected(list: seq<int>, scripts: seq<Script>, k: nat): seq<int>
    decreases |list|
  {
    if list == [] then [] else
    [list[0]] + Expected(Survivors(list[1..], ScriptAt(scripts, k).calls), scripts, k + 1)
  }

  lemma {:induction false} SurvivorsNone(s: seq<int>, calls: seq<Call>)
    requires forall x :: x in s ==> !AnyTakesOff(calls, x)
    ensures Survivors(s, calls) == s
  {
    if s != [] {
      assert s[0] in s;
      SurvivorsNone(s[1..], calls);
    }
  }

  lemma {:induction false} SurvivorsOne(s: seq<int>, c: Call)
    requires NoDup(s)
    ensures (c.Register? || c.Unregister? || c.SetNotReady?) ==> Survivors(s, [c]) == Without(s, c.fd)
    ensures (c.Modify? || c.Handle? || c.SetReady?) ==> Survivors(s, [c]) == s
  {
    if s != [] {
      assert [c][0] == c;
      SurvivorsOne(s[1..], c);
      if TakesOff(c, s[0]) {
        assert AnyTakesOff([c], s[0]);
        assert forall x :: x in s[1..] ==> !AnyTakesOff([c], x);
        SurvivorsNone(s[1..], [c]);
      }
    }
  }

  lemma {:induction false} SurvivorsSnoc(s: seq<int>, calls: seq<Call>, c: Call)
    ensures Survivors(s, calls + [c]) == Survivors(Survivors(s, calls), [c])
  {
    if s != [] {
      SurvivorsSnoc(s[1..], calls, c);
      AnySnoc(calls, c, s[0]);
    }
  }

  lemma AnySnoc(calls: seq<Call>, c: Call, fd: int)
    ensures AnyTakesOff(calls + [c], fd) <==> AnyTakesOff(calls, fd) || AnyTakesOff([c], fd)
  {
    if AnyTakesOff(calls, fd) {
      var i :| 0 <= i < |calls| && TakesOff(calls[i], fd);
      assert (calls + [c])[i] == calls[i];
    }
    if TakesOff(c, fd) {
      assert (calls + [c])[|calls|] == c && [c][0] == c;
    }
  }

  /** Every descriptor still on `tmp` has the callback it had. */
  ghost predicate KeepsCallbacks(s: State, r: State) {
    forall fd :: fd in r.tmp ==> Live(s, fd) && Live(r, fd) && r.table[fd].cb == s.table[fd].cb
  }

  lemma CallOnTmp(m: State, current: Option<int>, c: Call)
    requires Inv(m, current)
    ensures Apply(m, c).tmp == Survivors(m.tmp, [c])
  {
    SurvivorsOne(m.tmp, c);
    hide NoDup, Without, KernelOf, Survivors;
    if c.Register? || c.Unregister? || c.SetNotReady? {
      assert Apply(m, c).tmp == Without(m.tmp, c.fd);
    } else {
      assert Apply(m, c).tmp == m.tmp;
    }
  }

  lemma CallKeepsCallbacks(m: State, current: Option<int>, c: Call)
    requires Inv(m, current)
    ensures KeepsCallbacks(m, Apply(m, c))
  {
    var r := Apply(m, c);
    CallOnTmp(m, current, c);
    forall fd | fd in r.tmp
      ensures Live(m, fd) && Live(r, fd) && r.table[fd].cb == m.table[fd].cb
    {
      assert fd in m.tmp && !AnyTakesOff([c], fd);
      assert [c][0] == c;
      hide Survivors, AnyTakesOff;
      CallKeepsCallback(m, c, fd);
    }
  }

  lemma CallKeepsCallback(m: State, c: Call, fd: int)
    requires Live(m, fd) && !TakesOff(c, fd)
    ensures Live(Apply(m, c), fd) && Apply(m, c).table[fd].cb == m.table[fd].cb
  {
    hide Without, KernelMask;
  }

  /** A callback can only strike descriptors out of the pass, and keeps the others' callbacks. */
  lemma {:induction false} ScriptOnTmp(s: State, current: Option<int>, calls: seq<Call>)
    requires Inv(s, current)
    ensures ApplyAll(s, calls).tmp == Survivors(s.tmp, calls)
    ensures KeepsCallbacks(s, ApplyAll(s, calls))
    decreases |calls|
  {
    if calls == [] {
      SurvivorsNone(s.tmp, calls);
    } else {
      var init, c := calls[..|calls| - 1], calls[|calls| - 1];
      assert calls == init + [c];
      ScriptOnTmp(s, current, init);
      ScriptKeepsInv(s, current, init);
      CallOnTmp(ApplyAll(s, init), current, c);
      CallKeepsCallbacks(ApplyAll(s, init), current, c);
      SurvivorsSnoc(s.tmp, init, c);
    }
  }

  function Fds(trace: seq<Dispatch>): seq<int> {
    seq(|trace|, i requires 0 <= i < |trace| => trace[i].fd)
  }

  /**
   A pass runs exactly the reference list, each descriptor with the callback it had when the
   pass began. Nothing put on the ready list during the pass can be in it.
   */
  lemma {:induction false} PassRunsExpected(s: State, scripts: seq<Script>, k: nat)
    requires Inv(s, None)
    ensures Fds(DrainTrace(s, scripts, k)) == Expected(s.tmp, scripts, k)
    ensures SameCallbacks(s, DrainTrace(s, scripts, k))
    decreases |s.tmp|
  {
    if s.tmp != [] {
      var r := DispatchOne(s, ScriptAt(scripts, k));
      DispatchOnTmp(s, ScriptAt(scripts, k));
      DispatchKeepsInv(s, ScriptAt(scripts, k));
      PassRunsExpected(r, scripts, k + 1);
      ExpectedFromList(r.tmp, scripts, k + 1);
      ExtendTrace(s, r, DrainTrace(r, scripts, k + 1));
    }
  }

  lemma ExtendTrace(s: State, r: State, t: seq<Dispatch>)
    requires ListsOk(s) && s.tmp != [] && SameCallbacks(r, t)
    requires forall x :: x in Fds(t) ==> x in r.tmp
    requires KeepsCallbacks(s, r)
    ensures Fds([DispatchOf(s)] + t) == [s.tmp[0]] + Fds(t)
    ensures SameCallbacks(s, [DispatchOf(s)] + t)
  {
    assert s.tmp[0] in s.tmp;
    forall i | 0 <= i < |t| ensures Live(s, t[i].fd) && s.table[t[i].fd].cb == Some(t[i].cb) {
      assert Fds(t)[i] == t[i].fd;
    }
  }

  predicate SameCallbacks(s: State, t: seq<Dispatch>) {
    forall i :: 0 <= i < |t| ==> Live(s, t[i].fd) && s.table[t[i].fd].cb == Some(t[i].cb)
  }

  lemma DispatchOnTmp(s: State, script: Script)
    requires Inv(s, None) && s.tmp != []
    ensures DispatchOne(s, script).tmp == Survivors(s.tmp[1..], script.calls)
    ensures KeepsCallbacks(s, DispatchOne(s, script))
  {
    var b := BeginDispatch(s);
    BeginKeepsInv(s);
    ScriptOnTmp(b, Some(s.tmp[0]), script.calls);
    var r := ApplyAll(b, script.calls);
    assert KeepsCallbacks(s, r) by {
      assert forall fd :: fd in r.tmp ==> Live(b, fd) && Live(s, fd) && b.table[fd].cb == s.table[fd].cb;
    }
    EndKeepsCallbacks(s, r, s.tmp[0], script.out);
  }

  lemma EndKeepsCallbacks(s: State, r: State, fd: int, out: Mask)
    requires KeepsCallbacks(s, r)
    ensures KeepsCallbacks(s, EndDispatch(r, fd, out))
  {
  }

  lemma {:induction false} ExpectedFromList(list: seq<int>, scripts: seq<Script>, k: nat)
    ensures forall x :: x in Expected(list, scripts, k) ==> x in list
    decreases |list|
  {
    if list != [] {
      ExpectedFromList(Survivors(list[1..], ScriptAt(scripts, k).calls), scripts, k + 1);
    }
  }

  /** The reference runs no descriptor twice. */
  lemma {:induction false} ExpectedNoDup(list: seq<int>, scripts: seq<Script>, k: nat)
    requires NoDup(list)
    ensures NoDup(Expected(list, scripts, k))
    decreases |list|
  {
    if list != [] {
      var rest := Survivors(list[1..], ScriptAt(scripts, k).calls);
      SurvivorsNoDup(list[1..], ScriptAt(scripts, k).calls);
      ExpectedNoDup(rest, scripts, k + 1);
      ExpectedFromList(rest, scripts, k + 1);
      assert list[0] !in list[1..];
    }
  }

  lemma {:induction false} SurvivorsNoDup(s: seq<int>, calls: seq<Call>)
    requires NoDup(s)
    ensures NoDup(Survivors(s, calls))
  {
    if s != [] {
      SurvivorsNoDup(s[1..], calls);
      assert s[0] !in s[1..];
    }
  }

  predicate TakenOffBy(scripts: seq<Script>, n: nat, fd: int) {
    AnyTakesOff(ScriptAt(scripts, n).calls, fd)
  }

  /** A descriptor of the list is left out only if a callback that did run took it off. */
  lemma {:induction false} OmittedWasTakenOff(list: seq<int>, scripts: seq<Script>, k: nat, fd: int)
    requires fd in list && fd !in Expected(list, scripts, k)
    ensures exists n: nat :: k <= n < k + |Expected(list, scripts, k)| && TakenOffBy(scripts, n, fd)
    decreases |list|
  {
    var rest := Survivors(list[1..], ScriptAt(scripts, k).calls);
    assert Expected(list, scripts, k) == [list[0]] + Expected(rest, scripts, k + 1);
    assert list[0] in Expected(list, scripts, k);
    assert fd in list[1..];
    if fd !in rest {
      assert TakenOffBy(scripts, k, fd);
    } else {
      OmittedWasTakenOff(rest, scripts, k + 1, fd);
    }
  }

  /** Conversely, a descriptor that runs was taken off by none of the callbacks before it. */
  lemma {:induction false} RunWasNotTakenOff(list: seq<int>, scripts: seq<Script>, k: nat, p: nat, j: nat)
    requires NoDup(list) && j < p < |Expected(list, scripts, k)|
    ensures !TakenOffBy(scripts, k + j, Expected(list, scripts, k)[p])
    decreases |list|
  {
    var calls := ScriptAt(scripts, k).calls;
    var rest := Survivors(list[1..], calls);
    var e := Expected(rest, scripts, k + 1);
    assert Expected(list, scripts, k)[p] == e[p - 1];
    ExpectedFromList(rest, scripts, k + 1);
    assert e[p - 1] in rest;
    if j > 0 {
      SurvivorsNoDup(list[1..], calls);
      RunWasNotTakenOff(rest, scripts, k + 1, p - 1, j - 1);
    }
  }

  // ---------------------------------------------------------------- what a callback is told

  /** What OnEvent would be told about a descriptor now. */
  function Events(s: State, fd: int): Mask
    requires fd in s.table
  {
    s.table[fd].asserted + s.table[fd].fake
  }

  /** The calls that record events for a descriptor. */
  predicate Raises(c: Call, fd: int) { (c.Handle? || c.SetReady?) && c.fd == fd }

  predicate AnyRaises(calls: seq<Call>, fd: int) {
    exists i :: 0 <= i < |calls| && Raises(calls[i], fd)
  }

  lemma CallKeepsEvents(m: State, c: Call, fd: int)
    requires Live(m, fd) && !TakesOff(c, fd) && !Raises(c, fd)
    ensures Live(Apply(m, c), fd) && Events(Apply(m, c), fd) == Events(m, fd)
  {
    hide Without, KernelMask;
  }

  lemma {:induction false} ScriptKeepsEvents(s: State, calls: seq<Call>, fd: int)
    requires Live(s, fd) && !AnyTakesOff(calls, fd) && !AnyRaises(calls, fd)
    ensures Live(ApplyAll(s, calls), fd) && Events(ApplyAll(s, calls), fd) == Events(s, fd)
    decreases |calls|
  {
    if calls != [] {
      var init, c := calls[..|calls| - 1], calls[|calls| - 1];
      assert forall i :: 0 <= i < |init| ==> init[i] == calls[i];
      ScriptKeepsEvents(s, init, fd);
      CallKeepsEvents(ApplyAll(s, init), c, fd);
    }
  }

  /** Taking one descriptor off the pass and putting it back leaves the others' events alone. */
  lemma FrameKeepsEvents(s: State, fd: int, other: int, out: Mask)
    requires Live(s, fd) && fd != other
    ensures s.tmp != [] && s.tmp[0] == other ==>
      Live(BeginDispatch(s), fd) && Events(BeginDispatch(s), fd) == Events(s, fd)
    ensures Live(EndDispatch(s, other, out), fd) && Events(EndDispatch(s, other, out), fd) == Events(s, fd)
  {
    hide Without;
  }

  lemma LeftInPass(s: State, script: Script, fd: int)
    requires Inv(s, None) && s.tmp != [] && fd in DispatchOne(s, script).tmp
    ensures fd in s.tmp && fd != s.tmp[0] && Live(s, fd) && !AnyTakesOff(script.calls, fd)
  {
    hide DispatchOne, AnyTakesOff, Survivors;
    DispatchOnTmp(s, script);
    assert fd in s.tmp[1..];
  }

  lemma DispatchKeepsEvents(s: State, script: Script, fd: int)
    requires Inv(s, None) && s.tmp != [] && fd in DispatchOne(s, script).tmp && !AnyRaises(script.calls, fd)
    ensures fd in s.tmp && Live(s, fd) && Live(DispatchOne(s, script), fd)
    ensures Events(DispatchOne(s, script), fd) == Events(s, fd)
  {
    LeftInPass(s, script, fd);
    hide Inv, ApplyAll, AnyTakesOff, AnyRaises, BeginDispatch, EndDispatch, Events, Live;
    var b := BeginDispatch(s);
    FrameKeepsEvents(s, fd, s.tmp[0], script.out);
    ScriptKeepsEvents(b, script.calls, fd);
    FrameKeepsEvents(ApplyAll(b, script.calls), fd, s.tmp[0], script.out);
  }

  predicate RaisedBy(scripts: seq<Script>, n: nat, fd: int) { AnyRaises(ScriptAt(scripts, n).calls, fd) }

  /** Each OnEvent of a pass is told what was recorded at the swap, unless a callback before it recorded more. */
  lemma {:induction false} PassDeliversEvents(s: State, scripts: seq<Script>, k: nat, p: nat)
    requires Inv(s, None) && p < |DrainTrace(s, scripts, k)|
    requires forall n: nat :: k <= n < k + p ==> !RaisedBy(scripts, n, DrainTrace(s, scripts, k)[p].fd)
    ensures var d := DrainTrace(s, scripts, k)[p]; d.fd in s.tmp && Live(s, d.fd) && d.events == Events(s, d.fd)
    decreases p
  {
    assert s.tmp[0] in s.tmp;
    if p > 0 {
      var script := ScriptAt(scripts, k);
      var r := DispatchOne(s, script);
      var d := DrainTrace(s, scripts, k)[p];
      assert d == DrainTrace(r, scripts, k + 1)[p - 1];
      assert !RaisedBy(scripts, k, d.fd);
      DispatchKeepsInv(s, script);
      PassDeliversEvents(r, scripts, k + 1, p - 1);
      hide DispatchOne, DrainTrace, Events, Live, AnyRaises;
      DispatchKeepsEvents(s, script, d.fd);
    }
  }

  ghost predicate DistinctFds(events: seq<(int, Mask)>) {
    forall i, j :: 0 <= i < j < |events| ==> events[i].0 != events[j].0
  }

  /** Filing what epoll_wait returned puts each registered descriptor on the list with its events. */
  lemma {:induction false} EventsAreFiled(s: State, events: seq<(int, Mask)>, i: nat)
    requires s.tmp == [] && DistinctFds(events) && i < |events| && Live(s, events[i].0)
    ensures var r := HandleAll(s, events); var (fd, mask) := events[i];
      r.tmp == [] && fd in r.ready && Live(r, fd) && mask <= Events(r, fd)
    decreases |events|
  {
    var n := |events| - 1;
    HandleAllKeepsLive(s, events[..n], events[i].0);
    if i < n {
      EventsAreFiled(s, events[..n], i);
    }
  }

  lemma {:induction false} HandleAllKeepsLive(s: State, events: seq<(int, Mask)>, fd: int)
    requires s.tmp == [] && Live(s, fd)
    ensures HandleAll(s, events).tmp == [] && Live(HandleAll(s, events), fd)
    decreases |events|
  {
    if events != [] {
      HandleAllKeepsLive(s, events[..|events| - 1], fd);
    }
  }

  /**
   A polling round tells each callback at least what the kernel reported for its descriptor,
   unless a callback run before it in the round recorded something else.
   */
  lemma RoundDeliversKernelEvents(s: State, events: seq<(int, Mask)>, scripts: seq<Script>, i: nat, p: nat)
    requires Inv(s, None) && s.tmp == [] && DistinctFds(events) && i < |events| && Live(s, events[i].0)
    requires var trace := DrainTrace(Swap(HandleAll(s, events)), scripts, 0);
      p < |trace| && trace[p].fd == events[i].0 && forall n: nat :: n < p ==> !RaisedBy(scripts, n, trace[p].fd)
    ensures events[i].1 <= DrainTrace(Swap(HandleAll(s, events)), scripts, 0)[p].events
  {
    EventsAreFiled(s, events, i);
    HandleAllKeepsInv(s, events);
    var r := HandleAll(s, events);
    assert Inv(Swap(r), None);
    PassDeliversEvents(Swap(r), scripts, 0, p);
  }

  // ---------------------------------------------------------------- who is run, and who is left, after a round

  /** Each registered descriptor the kernel reported is run in the round, unless a callback of it takes it off. */
  lemma RoundRunsTheReported(s: State, events: seq<(int, Mask)>, scripts: seq<Script>, i: nat)
    requires Inv(s, None) && s.tmp == [] && DistinctFds(events) && i < |events| && Live(s, events[i].0)
    ensures var trace := DrainTrace(Swap(HandleAll(s, events)), scripts, 0);
      || (exists p :: 0 <= p < |trace| && trace[p].fd == events[i].0)
      || (exists n: nat :: n < |trace| && TakenOffBy(scripts, n, events[i].0))
  {
    EventsAreFiled(s, events, i);
    HandleAllKeepsInv(s, events);
    var w, fd := Swap(HandleAll(s, events)), events[i].0;
    assert Inv(w, None) && fd in w.tmp;
    PassRunsExpected(w, scripts, 0);
    hide Inv, HandleAll, DrainTrace, Expected;
    var trace := DrainTrace(w, scripts, 0);
    assert |Fds(trace)| == |trace|;
    if fd in Expected(w.tmp, scripts, 0) {
      var p :| 0 <= p < |Fds(trace)| && Fds(trace)[p] == fd;
      assert trace[p].fd == fd;
    } else {
      OmittedWasTakenOff(w.tmp, scripts, 0, fd);
    }
  }

  lemma CallLists(s: State, c: Call, fd: int)
    requires fd in Apply(s, c).ready && fd !in s.ready
    ensures Raises(c, fd)
  {
  }

  lemma {:induction false} ScriptLists(s: State, calls: seq<Call>, fd: int)
    requires fd in ApplyAll(s, calls).ready && fd !in s.ready
    ensures AnyRaises(calls, fd)
    decreases |calls|
  {
    hide Apply;
    var init, c := calls[..|calls| - 1], calls[|calls| - 1];
    assert forall i :: 0 <= i < |init| ==> init[i] == calls[i];
    if fd in ApplyAll(s, init).ready {
      ScriptLists(s, init, fd);
      var i :| 0 <= i < |init| && Raises(init[i], fd);
      assert Raises(calls[i], fd);
    } else {
      CallLists(ApplyAll(s, init), c, fd);
      assert Raises(calls[|calls| - 1], fd);
    }
  }

  lemma DispatchLists(s: State, script: Script, fd: int)
    requires Inv(s, None) && s.tmp != [] && fd in DispatchOne(s, script).ready && fd !in s.ready
    ensures AnyRaises(script.calls, fd) || (fd == s.tmp[0] && script.out != {})
  {
    var b := BeginDispatch(s);
    BeginKeepsInv(s);
    BeginEffect(s);
    ScriptKeepsInv(b, Some(s.tmp[0]), script.calls);
    var m := ApplyAll(b, script.calls);
    EndEffect(m, s.tmp[0], script.out);
    hide Inv, ApplyAll, BeginDispatch, EndDispatch;
    if fd in m.ready {
      ScriptLists(b, script.calls, fd);
    }
  }

  /** The callback recorded events for the descriptor, or was its own and asked to be called again. */
  predicate AskedBy(d: Dispatch, script: Script, fd: int) {
    AnyRaises(script.calls, fd) || (d.fd == fd && script.out != {})
  }

  predicate AskedFor(trace: seq<Dispatch>, scripts: seq<Script>, k: nat, fd: int) {
    exists n: nat :: n < |trace| && AskedBy(trace[n], ScriptAt(scripts, k + n), fd)
  }

  lemma AskedForCons(d: Dispatch, later: seq<Dispatch>, scripts: seq<Script>, k: nat, fd: int)
    requires AskedBy(d, ScriptAt(scripts, k), fd) || AskedFor(later, scripts, k + 1, fd)
    ensures AskedFor([d] + later, scripts, k, fd)
  {
    hide AskedBy, ScriptAt;
    var trace := [d] + later;
    if AskedBy(d, ScriptAt(scripts, k), fd) {
      assert trace[0] == d && AskedBy(trace[0], ScriptAt(scripts, k + 0), fd);
    } else {
      var n: nat :| n < |later| && AskedBy(later[n], ScriptAt(scripts, k + 1 + n), fd);
      assert trace[n + 1] == later[n] && k + (n + 1) == k + 1 + n;
      assert AskedBy(trace[n + 1], ScriptAt(scripts, k + (n + 1)), fd);
    }
  }

  /** What a pass leaves on the ready list was there before or was asked for by a callback of the pass. */
  lemma {:induction false} LeftReadyWasAskedFor(s: State, scripts: seq<Script>, k: nat, fd: int)
    requires Inv(s, None) && fd in Drain(s, scripts, k).ready && fd !in s.ready
    ensures AskedFor(DrainTrace(s, scripts, k), scripts, k, fd)
    decreases |s.tmp|
  {
    if s.tmp != [] {
      var script := ScriptAt(scripts, k);
      var r := DispatchOne(s, script);
      DispatchKeepsInv(s, script);
      assert DispatchOf(s).fd == s.tmp[0];
      hide Inv, DispatchOne, DispatchOf, AskedFor;
      if fd in r.ready {
        DispatchLists(s, script, fd);
      } else {
        LeftReadyWasAskedFor(r, scripts, k + 1, fd);
      }
      AskedForCons(DispatchOf(s), DrainTrace(r, scripts, k + 1), scripts, k, fd);
    }
  }

  /** After a round the pass list is empty, and the ready list holds only what was asked for during the round. */
  lemma RoundLeavesWhatWasAskedFor(s: State, events: seq<(int, Mask)>, scripts: seq<Script>, fd: int)
    requires Inv(s, None) && s.tmp == []
    ensures var r := PollOnce(s, events, scripts);
      r.tmp == [] && (fd in r.ready ==> AskedFor(DrainTrace(Swap(HandleAll(s, events)), scripts, 0), scripts, 0, fd))
  {
    HandleAllKeepsInv(s, events);
    var s1 := HandleAll(s, events);
    assert Inv(Swap(s1), None);
    hide Inv, HandleAll, Drain, DrainTrace, AskedFor;
    if s1.ready != [] {
      DrainKeepsInv(Swap(s1), scripts, 0);
      if fd in PollOnce(s, events, scripts).ready {
        LeftReadyWasAskedFor(Swap(s1), scripts, 0, fd);
      }
    }
  }

  /**
   The client-to-connection hand-over: a callback that unregisters its own descriptor and
   registers it again leaves one live node, with the new callback and nothing pinned.
   */
  lemma HandOver(s: State, cb: nat, mask: Mask)
    requires Inv(s, None) && s.tmp != []
    ensures var fd := s.tmp[0];
      var r := DispatchOne(s, Script([Unregister(fd), Register(fd, cb, mask)], {}));
      && Live(r, fd) && r.table[fd].cb == Some(cb) && r.table[fd].mask == mask
      && r.kernel == s.kernel[fd := KernelMask(mask)]
      && fd !in r.ready && fd !in r.tmp && !r.aborted
  {
    var fd := s.tmp[0];
    var b := BeginDispatch(s);
    BeginKeepsInv(s);
    ApplyTwo(b, Unregister(fd), Register(fd, cb, mask));
    ReregisterInUse(b, fd, cb, mask);
  }

  lemma ApplyTwo(s: State, c1: Call, c2: Call)
    ensures ApplyAll(s, [c1, c2]) == Apply(Apply(s, c1), c2)
  {
    assert [c1, c2][..1] == [c1] && [c1][..0] == [];
    assert ApplyAll(s, []) == s;
    assert ApplyAll(s, [c1]) == Apply(s, c1);
  }

  lemma ReregisterInUse(b: State, fd: int, cb: nat, mask: Mask)
    requires Inv(b, Some(fd)) && Live(b, fd)
    ensures var r := RegisterFD(UnregisterFD(b, fd), fd, cb, mask);
      && r.table == b.table[fd := b.table[fd].(cb := Some(cb), mask := mask, fake := {})]
      && r.kernel == b.kernel[fd := KernelMask(mask)]
      && fd !in r.ready && fd !in r.tmp && !r.aborted
  {
    RemoveKeepsLists(b, fd);
  }
}
