/**
 Doubly linked chains, as the LIST macros build them, on values: each descriptor has a
 forward link and a back link, and a chain is read off from a list head.
 */
module Chains {
  import opened Sequences
  import opened FdTable

  /** Where a node's `le_prev` points: at a list head, or at the forward link of a node. */
  datatype Back = Loose | FromReady | FromTmp | After(fd: int)

  datatype Links = Links(next: map<int, Option<int>>, prev: map<int, Back>)

  ghost predicate Wf(l: Links) { l.next.Keys == l.prev.Keys }

  function First(s: seq<int>): Option<int> { if s == [] then None else Some(s[0]) }

  /** Starting behind `from`, the links run through exactly `s`, forwards and backwards. */
  ghost predicate Chain(l: Links, from: Back, s: seq<int>)
    requires Wf(l)
    decreases |s|
  {
    s == [] ||
    (s[0] in l.next && l.prev[s[0]] == from && l.next[s[0]] == First(s[1..]) && Chain(l, After(s[0]), s[1..]))
  }

  /** Both lists are chains, they share no node, and every other node is loose. */
  ghost predicate ListsValid(l: Links, ready: seq<int>, tmp: seq<int>) {
    && Wf(l)
    && NoDup(ready) && NoDup(tmp) && (forall fd :: fd in ready ==> fd !in tmp)
    && Chain(l, FromReady, ready)
    && Chain(l, FromTmp, tmp)
    && (forall fd :: fd in l.next ==> (l.prev[fd] == Loose <==> fd !in ready && fd !in tmp))
  }

  ghost predicate SameAt(l: Links, r: Links, fd: int)
    requires Wf(l) && Wf(r)
  {
    fd in l.next && fd in r.next && l.next[fd] == r.next[fd] && l.prev[fd] == r.prev[fd]
  }

  ghost predicate SameOn(l: Links, r: Links, s: seq<int>)
    requires Wf(l) && Wf(r)
  {
    forall i :: 0 <= i < |s| ==> SameAt(l, r, s[i])
  }

  lemma {:induction false} ChainFrame(l: Links, r: Links, from: Back, s: seq<int>)
    requires Wf(l) && Wf(r) && Chain(l, from, s) && SameOn(l, r, s)
    ensures Chain(r, from, s)
    decreases |s|
  {
    if s != [] {
      assert SameAt(l, r, s[0]);
      ChainFrame(l, r, After(s[0]), s[1..]);
    }
  }

  lemma {:induction false} ChainIn(l: Links, from: Back, s: seq<int>)
    requires Wf(l) && Chain(l, from, s)
    ensures forall fd :: fd in s ==> fd in l.next
    decreases |s|
  {
    if s != [] {
      ChainIn(l, After(s[0]), s[1..]);
    }
  }

  lemma {:induction false} ChainAt(l: Links, from: Back, s: seq<int>, k: nat)
    requires Wf(l) && Chain(l, from, s) && k < |s|
    ensures s[k] in l.next
    ensures l.next[s[k]] == First(s[k + 1..])
    ensures l.prev[s[k]] == if k == 0 then from else After(s[k - 1])
    decreases |s|
  {
    if k > 0 {
      ChainAt(l, After(s[0]), s[1..], k - 1);
      assert s[1..][k..] == s[k + 1..];
    }
  }

  /** The same chain behind another back link. */
  lemma ChainRehead(l: Links, r: Links, from: Back, s: seq<int>, from': Back)
    requires Wf(l) && Wf(r) && Chain(l, from, s)
    requires s != [] ==>
      SameOn(l, r, s[1..]) && s[0] in r.next && r.next[s[0]] == l.next[s[0]] && r.prev[s[0]] == from'
    ensures Chain(r, from', s)
  {
    if s != [] {
      ChainFrame(l, r, After(s[0]), s[1..]);
    }
  }

  // ---------------------------------------------------------------- LIST_INSERT_HEAD

  function Pushed(l: Links, ready: seq<int>, fd: int): Links {
    Links(l.next[fd := First(ready)],
          (if ready == [] then l.prev else l.prev[ready[0] := After(fd)])[fd := FromReady])
  }

  lemma PushValid(l: Links, ready: seq<int>, tmp: seq<int>, fd: int)
    requires ListsValid(l, ready, tmp) && fd in l.next && l.prev[fd] == Loose
    ensures ListsValid(Pushed(l, ready, fd), [fd] + ready, tmp)
  {
    var r := Pushed(l, ready, fd);
    ChainIn(l, FromTmp, tmp);
    ChainIn(l, FromReady, ready);
    assert ready != [] ==> ready[0] in ready && ready[0] !in ready[1..];
    ChainFrame(l, r, FromTmp, tmp);
    ChainRehead(l, r, FromReady, ready, After(fd));
    assert ([fd] + ready)[1..] == ready;
    assert Chain(r, FromReady, [fd] + ready);
  }

  // ---------------------------------------------------------------- LIST_REMOVE

  /** The node after `fd`, if any, points back where `fd` did; what pointed at `fd` skips it. */
  function Spliced(l: Links, fd: int): Links
    requires Wf(l) && fd in l.next
  {
    var next := if l.prev[fd].After? then l.next[l.prev[fd].fd := l.next[fd]] else l.next;
    var prev := if l.next[fd].Some? then l.prev[l.next[fd].value := l.prev[fd]] else l.prev;
    Links(next, prev[fd := Loose])
  }

  lemma ChainCutFirst(l: Links, from: Back, s: seq<int>)
    requires Wf(l) && s != [] && Chain(l, from, s) && NoDup(s)
    requires from.After? ==> from.fd in l.next && from.fd !in s
    ensures Wf(Spliced(l, s[0])) && Chain(Spliced(l, s[0]), from, s[1..])
  {
    var r, t := Spliced(l, s[0]), s[1..];
    ChainIn(l, from, s);
    assert t != [] ==> t[0] in s && t[0] !in t[1..];
    assert forall i :: 0 <= i < |t| ==> t[i] in s && t[i] != s[0];
    ChainRehead(l, r, After(s[0]), t, from);
  }

  lemma ChainTail(l: Links, from: Back, s: seq<int>)
    requires Wf(l) && s != [] && Chain(l, from, s)
    ensures s[0] in l.next && Chain(l, After(s[0]), s[1..])
  {
  }

  lemma ChainCons(l: Links, from: Back, x: int, s: seq<int>)
    requires Wf(l) && Chain(l, After(x), s) && x in l.next && l.prev[x] == from && l.next[x] == First(s)
    ensures Chain(l, from, [x] + s)
  {
    assert ([x] + s)[1..] == s;
  }

  lemma {:induction false} ChainCut(l: Links, from: Back, s: seq<int>, k: nat)
    requires Wf(l) && Chain(l, from, s) && NoDup(s) && k < |s| && s[k] in l.next
    requires from.After? ==> from.fd in l.next && from.fd !in s
    ensures Wf(Spliced(l, s[k])) && Chain(Spliced(l, s[k]), from, s[..k] + s[k + 1..])
    decreases |s|
  {
    hide Spliced, Chain, NoDup;
    var t := s[1..];
    if k == 0 {
      assert s[..0] + s[1..] == t;
      ChainCutFirst(l, from, s);
    } else {
      TailNoDup(s);
      ChainTail(l, from, s);
      ChainCut(l, After(s[0]), t, k - 1);
      CutTail(s, k);
      ChainHeadKept(l, from, s, k);
      ChainCons(Spliced(l, s[k]), from, s[0], t[..k - 1] + t[k..]);
    }
  }

  lemma CutTail(s: seq<int>, k: nat)
    requires 0 < k < |s|
    ensures var cut, t := s[..k] + s[k + 1..], s[1..];
      cut == [s[0]] + (t[..k - 1] + t[k..]) && t[k - 1] == s[k]
  {
  }

  lemma TailNoDup(s: seq<int>)
    requires s != [] && NoDup(s)
    ensures NoDup(s[1..]) && s[0] !in s[1..]
  {
  }

  lemma ChainHeadKept(l: Links, from: Back, s: seq<int>, k: nat)
    requires Wf(l) && Chain(l, from, s) && NoDup(s) && 0 < k < |s| && s[k] in l.next
    ensures var r := Spliced(l, s[k]);
      && s[0] in r.next && r.prev[s[0]] == from
      && r.next[s[0]] == First(s[1..][..k - 1] + s[1..][k..])
  {
    ChainAt(l, from, s, k);
    assert s[k + 1..] == s[1..][k..];
    assert k + 1 < |s| ==> s[k + 1..][0] == s[k + 1];
  }

  lemma CutValid(l: Links, ready: seq<int>, tmp: seq<int>, fd: int)
    requires ListsValid(l, ready, tmp) && fd in l.next && l.prev[fd] != Loose
    ensures ListsValid(Spliced(l, fd), Without(ready, fd), Without(tmp, fd))
  {
    if fd in ready {
      CutOne(l, FromReady, ready, FromTmp, tmp, fd);
    } else {
      CutOne(l, FromTmp, tmp, FromReady, ready, fd);
    }
  }

  lemma CutOne(l: Links, head: Back, s: seq<int>, head': Back, t: seq<int>, fd: int)
    requires Wf(l) && NoDup(s) && NoDup(t) && (forall x :: x in s ==> x !in t) && fd in s
    requires Chain(l, head, s) && Chain(l, head', t) && !head.After? && head != Loose
    requires forall x :: x in l.next ==> (l.prev[x] == Loose <==> x !in s && x !in t)
    requires fd in l.next
    ensures var r, s' := Spliced(l, fd), Without(s, fd);
      && Wf(r) && NoDup(s') && Without(t, fd) == t
      && Chain(r, head, s') && Chain(r, head', t)
      && (forall x :: x in r.next ==> (r.prev[x] == Loose <==> x !in s' && x !in t))
  {
    var k :| 0 <= k < |s| && s[k] == fd;
    WithoutAt(s, k);
    ChainCut(l, head, s, k);
    ChainIn(l, head', t);
    CutTouches(l, head, s, k);
    ChainFrame(l, Spliced(l, fd), head', t);
  }

  /** Splicing writes only inside the chain, and makes no other node of it loose. */
  lemma CutTouches(l: Links, head: Back, s: seq<int>, k: nat)
    requires Wf(l) && NoDup(s) && Chain(l, head, s) && !head.After? && head != Loose && k < |s| && s[k] in l.next
    ensures var r := Spliced(l, s[k]);
      && r.next.Keys == l.next.Keys == r.prev.Keys && r.prev[s[k]] == Loose
      && (forall x :: x in l.next && x !in s ==> r.next[x] == l.next[x] && r.prev[x] == l.prev[x])
      && (forall x :: x in l.next && x != s[k] ==> (r.prev[x] == Loose ==> l.prev[x] == Loose))
      && (forall x :: x in l.next && x != s[k] && l.prev[x] == Loose ==> r.prev[x] == Loose || x in s)
  {
    ChainIn(l, head, s);
    ChainAt(l, head, s, k);
    assert k + 1 < |s| ==> s[k + 1..][0] == s[k + 1] && s[k + 1] in s;
    assert k > 0 ==> s[k - 1] in s;
  }

  // ---------------------------------------------------------------- nodes that come and go

  lemma GrowValid(l: Links, ready: seq<int>, tmp: seq<int>, fd: int, next: Option<int>)
    requires ListsValid(l, ready, tmp) && fd !in l.next
    ensures ListsValid(Links(l.next[fd := next], l.prev[fd := Loose]), ready, tmp)
  {
    var r := Links(l.next[fd := next], l.prev[fd := Loose]);
    ChainIn(l, FromReady, ready);
    ChainIn(l, FromTmp, tmp);
    ChainFrame(l, r, FromReady, ready);
    ChainFrame(l, r, FromTmp, tmp);
  }

  lemma ShrinkValid(l: Links, ready: seq<int>, tmp: seq<int>, fd: int)
    requires ListsValid(l, ready, tmp) && fd in l.next && l.prev[fd] == Loose
    ensures ListsValid(Links(l.next - {fd}, l.prev - {fd}), ready, tmp)
  {
    var r := Links(l.next - {fd}, l.prev - {fd});
    ChainIn(l, FromReady, ready);
    ChainIn(l, FromTmp, tmp);
    ChainFrame(l, r, FromReady, ready);
    ChainFrame(l, r, FromTmp, tmp);
  }
}
