/**
 The epoll server's fd half as it is written: the table holds the callback nodes by value,
 and the nodes are threaded through an intrusive doubly linked list with two heads. Each
 method is proved to compute the function of the same name in `FdTable`.
 */
module EpollServers {
  import opened Sequences
  import opened FdTable
  import opened Chains

  /** A pointer to a node: the key it sits under and the stamp of its allocation. */
  datatype Ptr = Ptr(fd: int, addr: nat)

  /** The `le_prev` field: the address of the pointer that points at the node, or null. */
  datatype Link = Unlinked | ReadyHead | TmpHead | NextOf(p: Ptr)

  datatype Node = Node(addr: nat, leNext: Option<Ptr>, lePrev: Link, data: Entry)

  type Nodes = map<int, Node>

  /** The node `p` points at has not been erased, nor replaced by another under its key. */
  predicate Alive(m: Nodes, p: Ptr) { p.fd in m && m[p.fd].addr == p.addr }

  function PtrTo(m: Nodes, fd: int): Ptr
    requires fd in m
  {
    Ptr(fd, m[fd].addr)
  }

  function SetNext(m: Nodes, p: Ptr, v: Option<Ptr>): Nodes
    requires Alive(m, p)
  {
    m[p.fd := m[p.fd].(leNext := v)]
  }

  function SetPrev(m: Nodes, p: Ptr, v: Link): Nodes
    requires Alive(m, p)
  {
    m[p.fd := m[p.fd].(lePrev := v)]
  }

  function SetData(m: Nodes, p: Ptr, e: Entry): Nodes
    requires Alive(m, p)
  {
    m[p.fd := m[p.fd].(data := e)]
  }

  // ---------------------------------------------------------------- abstraction

  function Key(o: Option<Ptr>): Option<int> { if o.None? then None else Some(o.value.fd) }

  function BackOf(p: Link): Back {
    match p
    case Unlinked => Loose
    case ReadyHead => FromReady
    case TmpHead => FromTmp
    case NextOf(q) => After(q.fd)
  }

  ghost function LinksOf(m: Nodes): Links {
    Links(map fd | fd in m :: Key(m[fd].leNext), map fd | fd in m :: BackOf(m[fd].lePrev))
  }

  ghost function TableOf(m: Nodes): map<int, Entry> { map fd | fd in m :: m[fd].data }

  /** No linked node holds a dangling pointer; a loose node may, for its `leNext` is never read. */
  ghost predicate NoDangling(m: Nodes) {
    forall fd :: fd in m && m[fd].lePrev != Unlinked ==> NoDanglingAt(m, fd)
  }

  predicate NoDanglingAt(m: Nodes, fd: int)
    requires fd in m
  {
    && (m[fd].leNext.Some? ==> Alive(m, m[fd].leNext.value))
    && (m[fd].lePrev.NextOf? ==> Alive(m, m[fd].lePrev.p))
  }

  ghost predicate HeadOk(m: Nodes, head: Option<Ptr>, s: seq<int>) {
    Key(head) == First(s) && (head.Some? ==> Alive(m, head.value))
  }

  lemma SetNextLinks(m: Nodes, p: Ptr, v: Option<Ptr>)
    requires Alive(m, p)
    ensures LinksOf(SetNext(m, p, v)) == LinksOf(m).(next := LinksOf(m).next[p.fd := Key(v)])
    ensures TableOf(SetNext(m, p, v)) == TableOf(m)
  {
    var r := SetNext(m, p, v);
    assert LinksOf(r).prev == LinksOf(m).prev;
    assert LinksOf(r).next == LinksOf(m).next[p.fd := Key(v)];
  }

  lemma SetPrevLinks(m: Nodes, p: Ptr, v: Link)
    requires Alive(m, p)
    ensures LinksOf(SetPrev(m, p, v)) == LinksOf(m).(prev := LinksOf(m).prev[p.fd := BackOf(v)])
    ensures TableOf(SetPrev(m, p, v)) == TableOf(m)
  {
    var r := SetPrev(m, p, v);
    assert LinksOf(r).prev == LinksOf(m).prev[p.fd := BackOf(v)];
    assert LinksOf(r).next == LinksOf(m).next;
  }

  lemma SetDataLinks(m: Nodes, p: Ptr, e: Entry)
    requires Alive(m, p)
    ensures LinksOf(SetData(m, p, e)) == LinksOf(m)
    ensures TableOf(SetData(m, p, e)) == TableOf(m)[p.fd := e]
    ensures NoDangling(m) ==> NoDangling(SetData(m, p, e))
  {
    var r := SetData(m, p, e);
    assert LinksOf(r).prev == LinksOf(m).prev;
    assert LinksOf(r).next == LinksOf(m).next;
  }

  // ---------------------------------------------------------------- the list macros

  /** LIST_INSERT_HEAD on the ready list, whose first node is `first`. */
  function InsertHead(m: Nodes, first: Option<Ptr>, p: Ptr): Nodes
    requires Alive(m, p) && (first.Some? ==> Alive(m, first.value))
  {
    var m1 := SetNext(m, p, first);
    var m2 := if first.Some? then SetPrev(m1, first.value, NextOf(p)) else m1;
    SetPrev(m2, p, ReadyHead)
  }

  ghost predicate SameStamps(m: Nodes, r: Nodes) {
    m.Keys == r.Keys && forall fd :: fd in m ==> m[fd].addr == r[fd].addr
  }

  ghost predicate Shape(m: Nodes, rf: Option<Ptr>, tf: Option<Ptr>, ready: seq<int>, tmp: seq<int>) {
    && ListsValid(LinksOf(m), ready, tmp)
    && NoDangling(m)
    && HeadOk(m, rf, ready) && HeadOk(m, tf, tmp)
  }

  lemma InsertHeadLinks(m: Nodes, first: Option<Ptr>, p: Ptr, ready: seq<int>)
    requires Alive(m, p) && HeadOk(m, first, ready)
    ensures LinksOf(InsertHead(m, first, p)) == Pushed(LinksOf(m), ready, p.fd)
    ensures TableOf(InsertHead(m, first, p)) == TableOf(m)
  {
    var m1 := SetNext(m, p, first);
    var m2 := if first.Some? then SetPrev(m1, first.value, NextOf(p)) else m1;
    SetNextLinks(m, p, first);
    if first.Some? {
      SetPrevLinks(m1, first.value, NextOf(p));
    }
    SetPrevLinks(m2, p, ReadyHead);
  }

  lemma InsertHeadShape(m: Nodes, rf: Option<Ptr>, tf: Option<Ptr>, ready: seq<int>, tmp: seq<int>, p: Ptr)
    requires Shape(m, rf, tf, ready, tmp) && Alive(m, p) && m[p.fd].lePrev == Unlinked
    ensures var r := InsertHead(m, rf, p);
      && Shape(r, Some(p), tf, [p.fd] + ready, tmp) && SameStamps(m, r) && TableOf(r) == TableOf(m)
      && p.fd !in ready && p.fd !in tmp
  {
    assert LinksOf(m).prev[p.fd] == Loose;
    PushValid(LinksOf(m), ready, tmp, p.fd);
    InsertHeadLinks(m, rf, p, ready);
    if rf.Some? {
      assert rf.value.fd in ready && LinksOf(m).prev[rf.value.fd] == BackOf(m[rf.value.fd].lePrev);
    }
    InsertHeadDangling(m, rf, p);
  }

  lemma InsertHeadDangling(m: Nodes, first: Option<Ptr>, p: Ptr)
    requires NoDangling(m) && Alive(m, p) && m[p.fd].lePrev == Unlinked
    requires first.Some? ==> Alive(m, first.value) && m[first.value.fd].lePrev != Unlinked
    ensures NoDangling(InsertHead(m, first, p)) && SameStamps(m, InsertHead(m, first, p))
  {
    var r := InsertHead(m, first, p);
    forall fd | fd in r && r[fd].lePrev != Unlinked
      ensures NoDanglingAt(r, fd)
    {
      if fd != p.fd {
        assert m[fd].lePrev != Unlinked;
        assert NoDanglingAt(m, fd);
      }
    }
  }

  /** LIST_REMOVE, on the nodes. */
  function Unlink(m: Nodes, p: Ptr): Nodes
    requires Alive(m, p) && NoDanglingAt(m, p.fd)
  {
    var n := m[p.fd];
    var m1 := if n.leNext.Some? then SetPrev(m, n.leNext.value, n.lePrev) else m;
    var m2 := if n.lePrev.NextOf? then SetNext(m1, n.lePrev.p, n.leNext) else m1;
    SetPrev(m2, p, Unlinked)
  }

  lemma UnlinkLinks(m: Nodes, p: Ptr)
    requires Alive(m, p) && NoDanglingAt(m, p.fd)
    requires m[p.fd].leNext.Some? ==> m[p.fd].leNext.value.fd != p.fd
    ensures LinksOf(Unlink(m, p)) == Spliced(LinksOf(m), p.fd)
    ensures TableOf(Unlink(m, p)) == TableOf(m)
  {
    var n := m[p.fd];
    assert LinksOf(m).next[p.fd] == Key(n.leNext) && LinksOf(m).prev[p.fd] == BackOf(n.lePrev);
    hide LinksOf, TableOf;
    var m1 := if n.leNext.Some? then SetPrev(m, n.leNext.value, n.lePrev) else m;
    var m2 := if n.lePrev.NextOf? then SetNext(m1, n.lePrev.p, n.leNext) else m1;
    if n.leNext.Some? {
      SetPrevLinks(m, n.leNext.value, n.lePrev);
    }
    if n.lePrev.NextOf? {
      SetNextLinks(m1, n.lePrev.p, n.leNext);
    }
    SetPrevLinks(m2, p, Unlinked);
  }

  lemma UnlinkStamps(m: Nodes, p: Ptr)
    requires Alive(m, p) && NoDanglingAt(m, p.fd)
    ensures SameStamps(m, Unlink(m, p)) && p.fd in Unlink(m, p) && Unlink(m, p)[p.fd].lePrev == Unlinked
  {
  }

  /** What a listed node's two links say about its place in its list. */
  lemma Place(m: Nodes, rf: Option<Ptr>, tf: Option<Ptr>, ready: seq<int>, tmp: seq<int>, fd: int)
    returns (k: nat)
    requires Shape(m, rf, tf, ready, tmp) && fd in m && m[fd].lePrev != Unlinked
    ensures fd in ready <==> fd !in tmp
    ensures var s := if fd in ready then ready else tmp;
      && k < |s| && s[k] == fd && Key(m[fd].leNext) == First(s[k + 1..])
      && BackOf(m[fd].lePrev) == (if k > 0 then After(s[k - 1]) else if fd in ready then FromReady else FromTmp)
      && Without(s, fd) == s[..k] + s[k + 1..]
  {
    hide Without;
    var l := LinksOf(m);
    assert l.prev[fd] == BackOf(m[fd].lePrev) && l.next[fd] == Key(m[fd].leNext);
    var s := if fd in ready then ready else tmp;
    k :| 0 <= k < |s| && s[k] == fd;
    ChainAt(l, if fd in ready then FromReady else FromTmp, s, k);
    WithoutAt(s, k);
  }

  lemma Neighbours(m: Nodes, rf: Option<Ptr>, tf: Option<Ptr>, ready: seq<int>, tmp: seq<int>, fd: int)
    requires Shape(m, rf, tf, ready, tmp) && fd in m && m[fd].lePrev != Unlinked
    ensures NeighboursLinked(m, fd)
  {
    var k := Place(m, rf, tf, ready, tmp, fd);
    var s := if fd in ready then ready else tmp;
    assert NoDanglingAt(m, fd);
    hide Chain, Without;
    if k > 0 {
      assert s[k - 1] in s && s[k - 1] != fd;
      Linked(m, ready, tmp, s[k - 1]);
    }
    if k + 1 < |s| {
      assert s[k + 1..][0] == s[k + 1] && s[k + 1] in s && s[k + 1] != fd;
      Linked(m, ready, tmp, s[k + 1]);
    }
  }

  lemma Linked(m: Nodes, ready: seq<int>, tmp: seq<int>, fd: int)
    requires ListsValid(LinksOf(m), ready, tmp) && fd in m && (fd in ready || fd in tmp)
    ensures m[fd].lePrev != Unlinked
  {
    assert LinksOf(m).prev[fd] == BackOf(m[fd].lePrev);
  }

  predicate NeighboursLinked(m: Nodes, fd: int)
    requires fd in m
  {
    && NoDanglingAt(m, fd)
    && (m[fd].leNext.Some? ==> m[fd].leNext.value.fd != fd && m[m[fd].leNext.value.fd].lePrev != Unlinked)
    && (m[fd].lePrev.NextOf? ==> m[fd].lePrev.p.fd != fd && m[m[fd].lePrev.p.fd].lePrev != Unlinked)
  }

  lemma UnlinkShape(m: Nodes, rf: Option<Ptr>, tf: Option<Ptr>, ready: seq<int>, tmp: seq<int>, p: Ptr)
    requires Shape(m, rf, tf, ready, tmp) && Alive(m, p) && m[p.fd].lePrev != Unlinked
    ensures NoDanglingAt(m, p.fd)
    ensures var r := Unlink(m, p); var n := m[p.fd];
      && Shape(r, if n.lePrev == ReadyHead then n.leNext else rf, if n.lePrev == TmpHead then n.leNext else tf,
               Without(ready, p.fd), Without(tmp, p.fd))
      && SameStamps(m, r) && TableOf(r) == TableOf(m) && p.fd in r && r[p.fd].lePrev == Unlinked
      && |ready| + |tmp| == |Without(ready, p.fd)| + |Without(tmp, p.fd)| + 1
  {
    var k := Place(m, rf, tf, ready, tmp, p.fd);
    Neighbours(m, rf, tf, ready, tmp, p.fd);
    assert LinksOf(m).prev[p.fd] == BackOf(m[p.fd].lePrev);
    UnlinkLinks(m, p);
    UnlinkStamps(m, p);
    CutValid(LinksOf(m), ready, tmp, p.fd);
    UnlinkDangling(m, p);
  }

  lemma UnlinkDangling(m: Nodes, p: Ptr)
    requires NoDangling(m) && Alive(m, p) && m[p.fd].lePrev != Unlinked && NeighboursLinked(m, p.fd)
    ensures NoDangling(Unlink(m, p))
  {
    UnlinkStamps(m, p);
    var r := Unlink(m, p);
    forall fd | fd in r && r[fd].lePrev != Unlinked
      ensures NoDanglingAt(r, fd)
    {
      assert m[fd].lePrev != Unlinked;
      assert NoDanglingAt(m, fd);
    }
  }

  // ---------------------------------------------------------------- the table operations

  lemma SetDataShape(m: Nodes, rf: Option<Ptr>, tf: Option<Ptr>, ready: seq<int>, tmp: seq<int>, p: Ptr, e: Entry)
    requires Shape(m, rf, tf, ready, tmp) && Alive(m, p)
    ensures var r := SetData(m, p, e);
      && Shape(r, rf, tf, ready, tmp) && SameStamps(m, r) && TableOf(r) == TableOf(m)[p.fd := e]
  {
    SetDataLinks(m, p, e);
  }

  /** Inserting a fresh node touches no list. */
  lemma NewNodeShape(m: Nodes, rf: Option<Ptr>, tf: Option<Ptr>, ready: seq<int>, tmp: seq<int>, fd: int, n: Node)
    requires Shape(m, rf, tf, ready, tmp) && fd !in m && n.lePrev == Unlinked
    ensures Shape(m[fd := n], rf, tf, ready, tmp) && TableOf(m[fd := n]) == TableOf(m)[fd := n.data]
  {
    var l, r := LinksOf(m), LinksOf(m[fd := n]);
    assert r.next == l.next[fd := Key(n.leNext)];
    assert r.prev == l.prev[fd := Loose];
    assert fd !in l.next;
    hide LinksOf, ListsValid;
    GrowValid(l, ready, tmp, fd, Key(n.leNext));
  }

  /** Erasing a loose node leaves no pointer to it behind. */
  lemma EraseShape(m: Nodes, rf: Option<Ptr>, tf: Option<Ptr>, ready: seq<int>, tmp: seq<int>, fd: int)
    requires Shape(m, rf, tf, ready, tmp) && fd in m && m[fd].lePrev == Unlinked
    ensures Shape(m - {fd}, rf, tf, ready, tmp) && TableOf(m - {fd}) == TableOf(m) - {fd}
  {
    var l, r := LinksOf(m), LinksOf(m - {fd});
    assert l.prev[fd] == Loose;
    ShrinkValid(l, ready, tmp, fd);
    assert r.next == l.next - {fd};
    assert r.prev == l.prev - {fd};
    forall x | x in m - {fd} && m[x].lePrev != Unlinked
      ensures NoDanglingAt(m - {fd}, x)
    {
      Neighbours(m, rf, tf, ready, tmp, x);
    }
    assert rf.Some? ==> rf.value.fd in ready;
    assert tf.Some? ==> tf.value.fd in tmp;
  }

  /** The swap of the two heads at the start of a pass, with the back link of the first node. */
  function Reheaded(m: Nodes, first: Option<Ptr>): Nodes
    requires first.Some? ==> Alive(m, first.value)
  {
    if first.Some? then SetPrev(m, first.value, TmpHead) else m
  }

  lemma SwapShape(m: Nodes, rf: Option<Ptr>, tf: Option<Ptr>, ready: seq<int>)
    requires Shape(m, rf, tf, ready, [])
    ensures rf.Some? ==> Alive(m, rf.value)
    ensures var r := Reheaded(m, rf);
      Shape(r, tf, rf, [], ready) && SameStamps(m, r) && TableOf(r) == TableOf(m)
  {
    if rf.Some? {
      var l, r := LinksOf(m), Reheaded(m, rf);
      SetPrevLinks(m, rf.value, TmpHead);
      ChainIn(l, FromReady, ready);
      assert ready[0] in ready && ready[0] !in ready[1..];
      ChainRehead(l, LinksOf(r), FromReady, ready, FromTmp);
      forall x | x in r && r[x].lePrev != Unlinked
        ensures NoDanglingAt(r, x)
      {
        assert l.prev[x] == BackOf(m[x].lePrev) && NoDanglingAt(m, x);
      }
      assert forall x :: x in m ==> LinksOf(r).prev[x] == BackOf(r[x].lePrev) && l.prev[x] == BackOf(m[x].lePrev);
    }
  }

  lemma Listed(m: Nodes, rf: Option<Ptr>, tf: Option<Ptr>, ready: seq<int>, tmp: seq<int>)
    requires Shape(m, rf, tf, ready, tmp)
    ensures forall fd :: fd in m ==> (m[fd].lePrev == Unlinked <==> fd !in ready && fd !in tmp)
    ensures rf.Some? ==> Alive(m, rf.value)
    ensures tf.Some? ==> Alive(m, tf.value)
    ensures Key(rf) == First(ready) && Key(tf) == First(tmp)
  {
    assert forall x :: x in m ==> LinksOf(m).prev[x] == BackOf(m[x].lePrev);
  }

  /** The same nodes with the same data, whatever their links. */
  ghost predicate SameNodes(m: Nodes, r: Nodes) {
    SameStamps(m, r) && forall fd :: fd in m ==> r[fd].data == m[fd].data
  }

  lemma SameTable(m: Nodes, r: Nodes)
    requires (m == r || SameStamps(m, r)) && TableOf(m) == TableOf(r)
    ensures SameNodes(m, r)
  {
    forall fd | fd in m ensures r[fd].data == m[fd].data {
      assert TableOf(m)[fd] == m[fd].data && TableOf(r)[fd] == r[fd].data;
    }
  }

  /** A node whose OnEvent is running is neither erased nor reallocated. */
  ghost predicate PinsKept(m: Nodes, r: Nodes) {
    forall fd :: fd in m && m[fd].data.inUse ==> fd in r && r[fd].addr == m[fd].addr && r[fd].data.inUse
  }

  ghost predicate StampsBelow(m: Nodes, bound: nat) { forall fd :: fd in m ==> m[fd].addr < bound }

  lemma SameBound(m: Nodes, r: Nodes, bound: nat)
    requires SameStamps(m, r) && StampsBelow(m, bound)
    ensures StampsBelow(r, bound)
  {
  }

  lemma Overwritten(table: map<int, Entry>, fd: int, e: Entry, e': Entry)
    ensures table[fd := e] - {fd} == table - {fd} && table[fd := e][fd := e'] == table[fd := e']
  {
  }

  /** All that removing a linked node does, head and counter included. */
  lemma RemoveShape(m: Nodes, rf: Option<Ptr>, tf: Option<Ptr>, ready: seq<int>, tmp: seq<int>, p: Ptr, bound: nat)
    requires Shape(m, rf, tf, ready, tmp) && Alive(m, p) && m[p.fd].lePrev != Unlinked && StampsBelow(m, bound)
    ensures NoDanglingAt(m, p.fd)
    ensures var r := Unlink(m, p); var n := m[p.fd];
      var rf', tf' := if n.lePrev == ReadyHead then n.leNext else rf, if n.lePrev == TmpHead then n.leNext else tf;
      var ready', tmp' := Without(ready, p.fd), Without(tmp, p.fd);
      && Shape(r, rf', tf', ready', tmp') && StampsBelow(r, bound)
      && SameNodes(m, r) && TableOf(r) == TableOf(m) && p.fd in r && r[p.fd].lePrev == Unlinked
      && |ready| + |tmp| == |ready'| + |tmp'| + 1
      && (|ready'| + |tmp'| == 0 ==> rf' == None && tf' == None)
  {
    hide Shape, TableOf, Without, Unlink, StampsBelow;
    UnlinkShape(m, rf, tf, ready, tmp, p);
    SameTable(m, Unlink(m, p));
    SameBound(m, Unlink(m, p), bound);
    var n := m[p.fd];
    Listed(Unlink(m, p), if n.lePrev == ReadyHead then n.leNext else rf, if n.lePrev == TmpHead then n.leNext else tf,
           Without(ready, p.fd), Without(tmp, p.fd));
  }

  lemma WithoutAbsent(s: seq<int>, x: int)
    requires x !in s
    ensures Without(s, x) == s
  {
  }

  class EpollServer {
    var cbMap: Nodes
    var nextAddr: nat
    var readyFirst: Option<Ptr>
    var tmpFirst: Option<Ptr>
    var readyListSize: int
    var kernel: map<int, Mask>
    var aborted: bool
    ghost var ready: seq<int>
    ghost var tmp: seq<int>

    ghost predicate Valid()
      reads this
    {
      && Shape(cbMap, readyFirst, tmpFirst, ready, tmp)
      && StampsBelow(cbMap, nextAddr)
      && readyListSize == |ready| + |tmp|
    }

    ghost function Abs(): State
      reads this
    {
      State(TableOf(cbMap), ready, tmp, kernel, aborted)
    }

    constructor (readFd: int, wakeCb: nat)
      ensures Valid() && Abs() == Initial(readFd, wakeCb)
    {
      cbMap, nextAddr, readyFirst, tmpFirst, readyListSize := map[], 0, None, None, 0;
      kernel, aborted, ready, tmp := map[], false, [], [];
      new;
      assert TableOf(cbMap) == map[];
      RegisterFD(readFd, wakeCb, EPOLLIN);
    }

    method AddToReadyList(p: Ptr)
      requires Valid() && Alive(cbMap, p)
      modifies `cbMap, `readyFirst, `readyListSize, `ready
      ensures Valid() && Abs() == FdTable.AddToReadyList(old(Abs()), p.fd)
      ensures SameNodes(old(cbMap), cbMap)
    {
      hide Shape, InsertHead, TableOf;
      Listed(cbMap, readyFirst, tmpFirst, ready, tmp);
      if cbMap[p.fd].lePrev == Unlinked {
        InsertHeadShape(cbMap, readyFirst, tmpFirst, ready, tmp, p);
        SameTable(cbMap, InsertHead(cbMap, readyFirst, p));
        cbMap, readyFirst := InsertHead(cbMap, readyFirst, p), Some(p);
        readyListSize, ready := readyListSize + 1, [p.fd] + ready;
      }
    }

    method RemoveFromReadyList(p: Ptr)
      requires Valid() && Alive(cbMap, p)
      modifies `cbMap, `readyFirst, `tmpFirst, `readyListSize, `ready, `tmp
      ensures Valid() && Abs() == FdTable.RemoveFromReadyList(old(Abs()), p.fd)
      ensures SameNodes(old(cbMap), cbMap) && cbMap[p.fd].lePrev == Unlinked
    {
      hide Shape, TableOf, Without, Unlink, SameNodes, StampsBelow;
      Listed(cbMap, readyFirst, tmpFirst, ready, tmp);
      SameTable(cbMap, cbMap);
      var n := cbMap[p.fd];
      if n.lePrev != Unlinked {
        RemoveShape(cbMap, readyFirst, tmpFirst, ready, tmp, p, nextAddr);
        cbMap := Unlink(cbMap, p);
        if n.lePrev == ReadyHead {
          readyFirst := n.leNext;
        } else if n.lePrev == TmpHead {
          tmpFirst := n.leNext;
        }
        readyListSize := readyListSize - 1;
        ready, tmp := Without(ready, p.fd), Without(tmp, p.fd);
        assert readyListSize == 0 ==> readyFirst == None && tmpFirst == None;
      } else {
        WithoutAbsent(ready, p.fd);
        WithoutAbsent(tmp, p.fd);
      }
    }

    /** Writes the fields of a node other than its links. */
    method SetNode(p: Ptr, e: Entry)
      requires Valid() && Alive(cbMap, p)
      modifies `cbMap
      ensures Valid() && Abs() == old(Abs()).(table := old(Abs()).table[p.fd := e])
      ensures SameStamps(old(cbMap), cbMap) && cbMap == old(cbMap)[p.fd := old(cbMap)[p.fd].(data := e)]
    {
      hide Shape, TableOf;
      SetDataShape(cbMap, readyFirst, tmpFirst, ready, tmp, p, e);
      cbMap := SetData(cbMap, p, e);
    }

    method NewNode(fd: int, e: Entry)
      requires Valid() && fd !in cbMap
      modifies `cbMap, `nextAddr
      ensures Valid() && Abs() == old(Abs()).(table := old(Abs()).table[fd := e])
      ensures PinsKept(old(cbMap), cbMap)
    {
      hide Shape, TableOf;
      NewNodeShape(cbMap, readyFirst, tmpFirst, ready, tmp, fd, Node(nextAddr, None, Unlinked, e));
      cbMap, nextAddr := cbMap[fd := Node(nextAddr, None, Unlinked, e)], nextAddr + 1;
    }

    /** Erasing is safe only for a node on no list whose OnEvent is not running. */
    method Erase(p: Ptr)
      requires Valid() && Alive(cbMap, p) && cbMap[p.fd].lePrev == Unlinked && !cbMap[p.fd].data.inUse
      modifies `cbMap
      ensures Valid() && Abs() == old(Abs()).(table := old(Abs()).table - {p.fd})
      ensures PinsKept(old(cbMap), cbMap) && cbMap == old(cbMap) - {p.fd}
    {
      hide Shape, TableOf;
      EraseShape(cbMap, readyFirst, tmpFirst, ready, tmp, p.fd);
      cbMap := cbMap - {p.fd};
    }

    method AddFD(fd: int, mask: Mask)
      modifies `kernel, `aborted
      ensures Abs() == FdTable.AddFD(old(Abs()), fd, mask)
    {
      if fd in kernel {
        aborted := true;
      } else {
        kernel := kernel[fd := KernelMask(mask)];
      }
    }

    method ModFD(fd: int, mask: Mask)
      modifies `kernel, `aborted
      ensures Abs() == FdTable.ModFD(old(Abs()), fd, mask)
    {
      if fd !in kernel {
        aborted := true;
      } else {
        kernel := kernel[fd := KernelMask(mask)];
      }
    }

    method DelFD(fd: int)
      modifies `kernel, `aborted
      ensures Abs() == FdTable.DelFD(old(Abs()), fd)
    {
      if fd !in kernel {
        aborted := true;
      } else {
        kernel := kernel - {fd};
      }
    }

    method RegisterFD(fd: int, cb: nat, mask: Mask)
      requires Valid()
      modifies this
      ensures Valid() && Abs() == FdTable.RegisterFD(old(Abs()), fd, cb, mask)
      ensures PinsKept(old(cbMap), cbMap)
    {
      hide Shape, ListsOk, Without;
      if fd in cbMap {
        var p := PtrTo(cbMap, fd);
        if cbMap[fd].data.cb.Some? {
          RemoveFromReadyList(p);
          ModFD(fd, mask);
        } else {
          AddFD(fd, mask);
        }
        SetNode(p, cbMap[fd].data.(cb := Some(cb), mask := mask, fake := {}));
      } else {
        AddFD(fd, mask);
        NewNode(fd, Entry(Some(cb), mask, {}, {}, false));
      }
    }

    method UnregisterFD(fd: int)
      requires Valid()
      modifies this
      ensures Valid() && Abs() == FdTable.UnregisterFD(old(Abs()), fd)
      ensures PinsKept(old(cbMap), cbMap)
    {
      hide Shape, Without;
      if fd !in cbMap || cbMap[fd].data.cb.None? {
        return;
      }
      var p := PtrTo(cbMap, fd);
      RemoveFromReadyList(p);
      DelFD(fd);
      if !cbMap[fd].data.inUse {
        Erase(p);
      } else {
        SetNode(p, cbMap[fd].data.(cb := None, mask := {}, fake := {}));
      }
    }

    method ModifyFD(fd: int, remove: Mask, add: Mask)
      requires Valid()
      modifies this
      ensures Valid() && Abs() == FdTable.ModifyFD(old(Abs()), fd, remove, add)
      ensures PinsKept(old(cbMap), cbMap)
    {
      hide Shape;
      if fd in cbMap && cbMap[fd].data.cb.Some? {
        var mask := cbMap[fd].data.mask - remove + add;
        ModFD(fd, mask);
        SetNode(PtrTo(cbMap, fd), cbMap[fd].data.(mask := mask));
      }
    }

    method HandleEvent(fd: int, mask: Mask)
      requires Valid()
      modifies this
      ensures Valid() && Abs() == FdTable.HandleEvent(old(Abs()), fd, mask)
      ensures PinsKept(old(cbMap), cbMap)
    {
      hide Shape;
      if fd in cbMap && cbMap[fd].data.cb.Some? {
        var p := PtrTo(cbMap, fd);
        SetNode(p, cbMap[fd].data.(asserted := mask));
        AddToReadyList(p);
      }
    }

    method SetFDReady(fd: int, fake: Mask)
      requires Valid()
      modifies this
      ensures Valid() && Abs() == FdTable.SetFDReady(old(Abs()), fd, fake)
      ensures PinsKept(old(cbMap), cbMap)
    {
      hide Shape;
      if fd in cbMap && cbMap[fd].data.cb.Some? {
        var p := PtrTo(cbMap, fd);
        SetNode(p, cbMap[fd].data.(fake := fake));
        AddToReadyList(p);
      }
    }

    method SetFDNotReady(fd: int)
      requires Valid()
      modifies this
      ensures Valid() && Abs() == FdTable.SetFDNotReady(old(Abs()), fd)
      ensures PinsKept(old(cbMap), cbMap)
    {
      hide Shape, Without;
      if fd in cbMap {
        RemoveFromReadyList(PtrTo(cbMap, fd));
      }
    }
  
    method IsFDReady(fd: int) returns (r: bool)
      requires Valid()
      ensures r <==> Live(Abs(), fd) && (fd in ready || fd in tmp)
    {
      Listed(cbMap, readyFirst, tmpFirst, ready, tmp);
      r := fd in cbMap && cbMap[fd].data.cb.Some? && cbMap[fd].lePrev != Unlinked;
    }

    /** Follows `leNext` from a list head to the null at its end. */
    method CountFrom(first: Option<Ptr>, head: Back, ghost s: seq<int>) returns (count: nat)
      requires ListsValid(LinksOf(cbMap), ready, tmp) && NoDangling(cbMap)
      requires (head == FromReady && s == ready) || (head == FromTmp && s == tmp)
      requires HeadOk(cbMap, first, s)
      ensures count == |s|
    {
      count := 0;
      var cur := first;
      while cur.Some?
        invariant count <= |s| && HeadOk(cbMap, cur, s[count..])
        decreases |s| - count
      {
        var l := LinksOf(cbMap);
        assert s[count] == cur.value.fd;
        ChainAt(l, head, s, count);
        assert l.prev[s[count]] == BackOf(cbMap[s[count]].lePrev);
        assert NoDanglingAt(cbMap, s[count]);
        cur := cbMap[cur.value.fd].leNext;
        count := count + 1;
      }
    }

    /** The server's own consistency check: it can never fail. */
    method VerifyReadyList() returns (ok: bool)
      requires Valid()
      ensures ok
    {
      var r := CountFrom(readyFirst, FromReady, ready);
      var t := CountFrom(tmpFirst, FromTmp, tmp);
      ok := readyListSize == r + t;
    }

    method Execute(c: Call)
      requires Valid()
      modifies this
      ensures Valid() && Abs() == Apply(old(Abs()), c)
      ensures PinsKept(old(cbMap), cbMap)
    {
      hide Shape, PinsKept, TableOf, FdTable.RegisterFD, FdTable.UnregisterFD, FdTable.ModifyFD,
        FdTable.HandleEvent, FdTable.SetFDReady, FdTable.SetFDNotReady;
      match c {
        case Register(fd, cb, mask) => RegisterFD(fd, cb, mask);
        case Unregister(fd) => UnregisterFD(fd);
        case Modify(fd, remove, add) => ModifyFD(fd, remove, add);
        case Handle(fd, mask) => HandleEvent(fd, mask);
        case SetReady(fd, mask) => SetFDReady(fd, mask);
        case SetNotReady(fd) => SetFDNotReady(fd);
      }
    }

    /** The body of a user's OnEvent. */
    method RunScript(calls: seq<Call>)
      requires Valid()
      modifies this
      ensures Valid() && Abs() == ApplyAll(old(Abs()), calls)
      ensures PinsKept(old(cbMap), cbMap)
    {
      hide Shape, TableOf, Apply;
      for i := 0 to |calls|
        invariant Valid() && Abs() == ApplyAll(old(Abs()), calls[..i])
        invariant PinsKept(old(cbMap), cbMap)
      {
        Execute(calls[i]);
        assert calls[..i + 1][..i] == calls[..i];
      }
      assert calls[..|calls|] == calls;
    }

    /** The dispatch loop. Every dereference of `p` after OnEvent is of a node still allocated. */
    method CallReadyListCallbacks(scripts: seq<Script>) returns (trace: seq<Dispatch>)
      requires Valid() && Inv(Abs(), None) && tmp == []
      modifies this
      ensures Valid() && Inv(Abs(), None) && tmp == []
      ensures Abs() == Drain(Swap(old(Abs())), scripts, 0)
      ensures trace == DrainTrace(Swap(old(Abs())), scripts, 0)
    {
      hide Shape, Inv, DispatchOne, DispatchOf, TableOf, StampsBelow, Swap;
      SwapHeads();
      ghost var s0 := Abs();
      trace := [];
      while tmpFirst.Some?
        invariant Valid() && Inv(Abs(), None) && (tmpFirst.Some? <==> tmp != [])
        invariant Drain(Abs(), scripts, |trace|) == Drain(s0, scripts, 0)
        invariant trace + DrainTrace(Abs(), scripts, |trace|) == DrainTrace(s0, scripts, 0)
        decreases |tmp|
      {
        ghost var before := trace;
        ghost var s := Abs();
        var d := DispatchFirst(ScriptAt(scripts, |trace|));
        trace := trace + [d];
        assert before + ([d] + DrainTrace(Abs(), scripts, |trace|)) == trace + DrainTrace(Abs(), scripts, |trace|);
        Listed(cbMap, readyFirst, tmpFirst, ready, tmp);
      }
    }

    method SwapHeads()
      requires Valid() && tmp == [] && Inv(Abs(), None)
      modifies this
      ensures Valid() && Abs() == Swap(old(Abs())) && Inv(Abs(), None)
      ensures tmpFirst.Some? <==> tmp != []
    {
      hide Shape, TableOf;
      Listed(cbMap, readyFirst, tmpFirst, ready, tmp);
      SwapShape(cbMap, readyFirst, tmpFirst, ready);
      readyFirst, tmpFirst := tmpFirst, readyFirst;
      cbMap := Reheaded(cbMap, tmpFirst);
      ready, tmp := tmp, ready;
    }

    /** One turn of the loop: unlink the first node, run its OnEvent, settle its fate. */
    method DispatchFirst(script: Script) returns (d: Dispatch)
      requires Valid() && Inv(Abs(), None) && tmpFirst.Some?
      modifies this
      ensures old(tmp) != [] && d == DispatchOf(old(Abs())) && Abs() == DispatchOne(old(Abs()), script)
      ensures Valid() && Inv(Abs(), None)
      ensures old(tmpFirst).value.fd in cbMap ==> Alive(cbMap, old(tmpFirst).value)
    {
      hide Shape;
      Listed(cbMap, readyFirst, tmpFirst, ready, tmp);
      assert readyListSize > 0;
      DispatchKeepsInv(Abs(), script);
      var p := tmpFirst.value;
      d := Begin(p);
      BeginKeepsInv(old(Abs()));
      ScriptKeepsInv(Abs(), Some(p.fd), script.calls);
      ghost var pinned := cbMap;
      RunScript(script.calls);
      assert pinned[p.fd].data.inUse;
      assert Alive(cbMap, p);
      assert TableOf(cbMap)[p.fd] == cbMap[p.fd].data;
      End(p, script.out);
    }

    method Begin(p: Ptr) returns (d: Dispatch)
      requires Valid() && Inv(Abs(), None) && tmpFirst == Some(p) && Alive(cbMap, p) && tmp != [] && tmp[0] == p.fd
      modifies this
      ensures Valid() && Abs() == BeginDispatch(old(Abs())) && d == DispatchOf(old(Abs()))
      ensures Alive(cbMap, p) && cbMap[p.fd].data.inUse
    {
      hide Shape, Without;
      assert tmp[0] in tmp;
      assert Live(Abs(), p.fd);
      RemoveFromReadyList(p);
      var e := cbMap[p.fd].data;
      d := Dispatch(p.fd, e.cb.value, e.asserted + e.fake);
      SetNode(p, e.(asserted := {}, fake := {}, inUse := true));
    }

    method End(p: Ptr, out: Mask)
      requires Valid() && Alive(cbMap, p)
      requires cbMap[p.fd].data.cb.None? ==> p.fd !in ready && p.fd !in tmp
      modifies this
      ensures Valid() && Abs() == EndDispatch(old(Abs()), p.fd, out)
      ensures p.fd in cbMap ==> Alive(cbMap, p)
    {
      Listed(cbMap, readyFirst, tmpFirst, ready, tmp);
      assert TableOf(cbMap)[p.fd] == cbMap[p.fd].data;
      hide Shape, TableOf;
      var e := cbMap[p.fd].data.(inUse := false);
      Overwritten(TableOf(cbMap), p.fd, e, e.(fake := out));
      SetNode(p, e);
      if e.cb.None? {
        Erase(p);
      } else if out != {} {
        SetNode(p, e.(fake := out));
        AddToReadyList(p);
      }
    }

    /**
     A callback that unregisters its own descriptor and registers it again, as the client does
     when it hands a descriptor to a connection: the very same node, now with the new callback.
     */
    method HandOver(cb: nat, mask: Mask)
      requires Valid() && Inv(Abs(), None) && tmpFirst.Some?
      modifies this
      ensures Valid() && Inv(Abs(), None)
      ensures var p := old(tmpFirst).value;
        && Alive(cbMap, p) && cbMap[p.fd].data.cb == Some(cb) && cbMap[p.fd].data.mask == mask
        && cbMap[p.fd].lePrev == Unlinked && kernel == old(kernel)[p.fd := KernelMask(mask)] && !aborted
    {
      var p := tmpFirst.value;
      Listed(cbMap, readyFirst, tmpFirst, ready, tmp);
      FdTable.HandOver(Abs(), cb, mask);
      hide Shape, Inv, DispatchOne;
      var _ := DispatchFirst(Script([Unregister(p.fd), Register(p.fd, cb, mask)], {}));
      assert Live(Abs(), p.fd) && Abs().table[p.fd] == cbMap[p.fd].data;
      Listed(cbMap, readyFirst, tmpFirst, ready, tmp);
    }

    /** One round of the server: the events of epoll_wait are filed, then the ready list runs. */
    method WaitForEventsAndCallHandleEvents(events: seq<(int, Mask)>, scripts: seq<Script>)
      returns (trace: seq<Dispatch>)
      requires Valid() && Inv(Abs(), None) && tmp == []
      modifies this
      ensures Valid() && Abs() == PollOnce(old(Abs()), events, scripts)
      ensures Inv(Abs(), None) && tmp == []
      ensures trace == DrainTrace(Swap(HandleAll(old(Abs()), events)), scripts, 0)
    {
      hide Shape, Inv;
      HandleAllKeepsInv(Abs(), events);
      for i := 0 to |events|
        invariant Valid() && Abs() == HandleAll(old(Abs()), events[..i])
      {
        HandleEvent(events[i].0, events[i].1);
        assert events[..i + 1][..i] == events[..i];
      }
      assert events[..|events|] == events;
      Listed(cbMap, readyFirst, tmpFirst, ready, tmp);
      trace := [];
      if readyFirst.Some? {
        trace := CallReadyListCallbacks(scripts);
      }
    }

    method Do(a: Action)
      requires Valid() && Inv(Abs(), None) && tmp == []
      modifies this
      ensures Valid() && Abs() == Act(old(Abs()), a) && Inv(Abs(), None) && tmp == []
    {
      hide Shape, Inv, Apply, PollOnce;
      match a {
        case Api(c) =>
          ApplyKeepsInv(Abs(), None, c);
          Execute(c);
        case Poll(events, scripts) =>
          var _ := WaitForEventsAndCallHandleEvents(events, scripts);
      }
    }

    /** Every run of the object is a run of the functions, and the ready-list check passes after each action. */
    method RunActions(actions: seq<Action>) returns (ok: bool)
      requires Valid() && Inv(Abs(), None) && tmp == []
      modifies this
      ensures Valid() && Abs() == Run(old(Abs()), actions) && Inv(Abs(), None) && tmp == [] && ok
    {
      hide Shape, Inv, Act;
      ok := true;
      for i := 0 to |actions|
        invariant Valid() && Abs() == Run(old(Abs()), actions[..i]) && Inv(Abs(), None) && tmp == [] && ok
      {
        Do(actions[i]);
        ok := VerifyReadyList();
        assert actions[..i + 1][..i] == actions[..i];
      }
      assert actions[..|actions|] == actions;
    }
  }
}
