/** Every entry stays in exactly the list its state says, through each micro-step of the looper. */
module LooperInvariant {
  import opened Seqs
  import opened Rings
  import opened LooperModel

  // ---------- the pending list seen kind by kind

  function Only(kind: Kind, r: Ref): seq<nat> {
    if r.kind == kind then [r.index] else []
  }

  lemma {:induction false} OfConcat(kind: Kind, p: seq<Ref>, q: seq<Ref>)
    ensures Of(kind, p + q) == Of(kind, p) + Of(kind, q)
  {
    if p == [] {
      assert p + q == q;
    } else {
      OfConcat(kind, p[1..], q);
      assert (p + q)[1..] == p[1..] + q;
    }
  }

  lemma OfAppend(kind: Kind, p: seq<Ref>, r: Ref)
    ensures Of(kind, p + [r]) == Of(kind, p) + Only(kind, r)
    ensures r.kind != kind ==> Of(kind, p + [r]) == Of(kind, p)
  {
    OfConcat(kind, p, [r]);
    assert [r][1..] == [];
  }

  lemma {:induction false} OfMember(kind: Kind, p: seq<Ref>, i: nat)
    ensures i in Of(kind, p) <==> Ref(kind, i) in p
  {
    if p != [] {
      OfMember(kind, p[1..], i);
      assert p == [p[0]] + p[1..];
    }
  }

  /** Taking position `j` out of the list takes one entry out of the view of its kind. */
  lemma OfRemoveAt(kind: Kind, p: seq<Ref>, j: nat)
    requires j < |p|
    ensures |Of(kind, p[..j])| + |Only(kind, p[j])| <= |Of(kind, p)|
    ensures p[j].kind != kind ==> Of(kind, RemoveAt(p, j)) == Of(kind, p)
    ensures p[j].kind == kind ==>
              && |Of(kind, p[..j])| < |Of(kind, p)|
              && Of(kind, p)[|Of(kind, p[..j])|] == p[j].index
              && Of(kind, RemoveAt(p, j)) == RemoveAt(Of(kind, p), |Of(kind, p[..j])|)
  {
    hide Of;
    assert p == (p[..j] + [p[j]]) + p[j + 1..];
    OfConcat(kind, p[..j] + [p[j]], p[j + 1..]);
    OfAppend(kind, p[..j], p[j]);
    OfConcat(kind, p[..j], p[j + 1..]);
  }

  lemma {:induction false} OfTranspose(kind: Kind, p: seq<Ref>, a: nat, b: nat)
    ensures Of(kind, TransposeAll(Ref(SocketKind, a), Ref(SocketKind, b), p)) ==
            if kind == SocketKind then TransposeAll(a, b, Of(kind, p)) else Of(kind, p)
  {
    var q := TransposeAll(Ref(SocketKind, a), Ref(SocketKind, b), p);
    if p != [] {
      OfTranspose(kind, p[1..], a, b);
      assert q[1..] == TransposeAll(Ref(SocketKind, a), Ref(SocketKind, b), p[1..]);
    }
  }

  lemma InvSorted(s: State)
    requires Inv(s)
    ensures Sorted(s.timers)
  {
  }

  // ---------- timers

  lemma InsertTimerSorted(t: Timers, i: nat, e: TimerEntry)
    requires Sorted(t) && i < |t.entries| && i !in t.used
    ensures Sorted(InsertTimer(t, i, e))
  {
    hide InsertPosition;
    var u := InsertTimer(t, i, e);
    var k := InsertPosition(t, e.actionTime, 0);
    forall a | 0 <= a < |u.used| ensures u.used[a] < |u.entries| {
      InsertedAt(t, i, e, a);
    }
    forall a, b | 0 <= a < b < |u.used| ensures u.entries[u.used[a]].actionTime <= u.entries[u.used[b]].actionTime {
      InsertedAt(t, i, e, a);
      InsertedAt(t, i, e, b);
      if k < b { assert t.entries[t.used[k]].actionTime <= t.entries[t.used[b - 1]].actionTime; }
    }
  }

  /** Where an entry of the new list comes from, and on which side of the new time it is. */
  lemma InsertedAt(t: Timers, i: nat, e: TimerEntry, a: nat)
    requires Sorted(t) && i < |t.entries| && i !in t.used && a <= |t.used|
    ensures var u := InsertTimer(t, i, e); var k := InsertPosition(t, e.actionTime, 0); var o := if a < k then a else a - 1;
      && |u.used| == |t.used| + 1 && u.used[a] < |u.entries| == |t.entries|
      && (a == k ==> u.entries[u.used[a]] == e)
      && (a != k ==> 0 <= o < |t.used| && u.used[a] == t.used[o] && u.entries[u.used[a]] == t.entries[t.used[o]])
      && (a < k ==> u.entries[u.used[a]].actionTime <= e.actionTime)
      && (a > k ==> e.actionTime <= u.entries[u.used[a]].actionTime)
  {
    hide InsertPosition;
    var k := InsertPosition(t, e.actionTime, 0);
    if k < a { assert t.entries[t.used[k]].actionTime <= t.entries[t.used[a - 1]].actionTime; }
  }

  lemma InsertTimerMembers(t: Timers, i: nat, e: TimerEntry)
    requires Sorted(t) && i < |t.entries| && i !in t.used && NoDup(t.used)
    ensures NoDup(InsertTimer(t, i, e).used)
    ensures forall j :: j in InsertTimer(t, i, e).used <==> j == i || j in t.used
  {
  }

  /** Every timer but `i` is where its state says, and `i` is in no list. */
  ghost predicate TimerInvBut(t: Timers, pend: seq<nat>, i: nat) {
    && i < |t.entries|
    && NoDup(t.free) && (forall j :: j in t.free <==> j != i && TimerIs(t, j, {Free}))
    && NoDup(t.used) && (forall j :: j in t.used <==> j != i && TimerIs(t, j, {Used}))
    && NoDup(pend) && (forall j :: j in pend <==> j != i && TimerIs(t, j, {Action, Destroy}))
    && Sorted(t)
    && forall j :: 0 <= j < |t.entries| ==> NonceOk(t.entries[j].nonce)
  }

  lemma DetachPendingTimer(t: Timers, pend: seq<nat>, k: nat)
    requires TimerInv(t, pend) && k < |pend|
    ensures TimerInvBut(t, RemoveAt(pend, k), pend[k])
  {
    RemoveMembers(pend, k);
    assert pend[k] in pend;
  }

  lemma DetachUsedTimer(t: Timers, pend: seq<nat>, k: nat)
    requires TimerInv(t, pend) && k < |t.used|
    ensures TimerInvBut(t.(used := RemoveAt(t.used, k)), pend, t.used[k])
  {
    RemoveMembers(t.used, k);
    assert t.used[k] in t.used;
  }

  lemma DetachFreeTimer(t: Timers, pend: seq<nat>)
    requires TimerInv(t, pend) && t.free != []
    ensures TimerInvBut(t.(free := t.free[1..]), pend, t.free[0])
  {
    TailMembers(t.free);
    assert t.free[0] in t.free;
  }

  lemma AttachFreeTimer(t: Timers, pend: seq<nat>, i: nat, e: TimerEntry)
    requires TimerInvBut(t, pend, i) && e.phase == Free && NonceOk(e.nonce)
    ensures TimerInv(t.(entries := t.entries[i := e], free := t.free + [i]), pend)
  {
    AppendMembers(t.free, i);
    assert forall a :: 0 <= a < |t.used| ==> t.used[a] in t.used;
  }

  lemma AttachPendingTimer(t: Timers, pend: seq<nat>, i: nat, e: TimerEntry)
    requires TimerInvBut(t, pend, i) && e.phase in {Action, Destroy} && NonceOk(e.nonce)
    ensures TimerInv(t.(entries := t.entries[i := e]), pend + [i])
  {
    AppendMembers(pend, i);
    assert forall a :: 0 <= a < |t.used| ==> t.used[a] in t.used;
  }

  lemma AttachUsedTimer(t: Timers, pend: seq<nat>, i: nat, e: TimerEntry)
    requires TimerInvBut(t, pend, i) && e.phase == Used && NonceOk(e.nonce)
    ensures TimerInv(InsertTimer(t, i, e), pend)
  {
    InsertTimerSorted(t, i, e);
    InsertTimerMembers(t, i, e);
  }

  lemma FireTimerInv(t: Timers, pend: seq<nat>)
    requires TimerInv(t, pend) && t.used != []
    ensures TimerInv(t.(entries := t.entries[t.used[0] := t.entries[t.used[0]].(phase := Action)], used := t.used[1..]),
                     pend + [t.used[0]])
  {
    var i := t.used[0];
    DetachUsedTimer(t, pend, 0);
    assert RemoveAt(t.used, 0) == t.used[1..];
    AttachPendingTimer(t.(used := t.used[1..]), pend, i, t.entries[i].(phase := Action));
  }

  lemma PopDetachedTimerInv(t: Timers, i: nat, rest: seq<nat>)
    requires TimerInvBut(t, rest, i) && t.entries[i].phase in {Action, Destroy}
    ensures TimerInv(PopTimer(t, i).part, if PopTimer(t, i).back then rest + [i] else rest)
  {
    hide TimerInv, InsertTimer;
    var e := t.entries[i];
    if e.phase == Destroy || (e.interval == 0 && e.destroy == Null) {
      AttachFreeTimer(t, rest, i, e.(phase := Free));
    } else if e.interval == 0 {
      AttachPendingTimer(t, rest, i, e.(phase := Destroy));
    } else {
      AttachUsedTimer(t, rest, i, e.(phase := Used, actionTime := e.actionTime + e.interval));
    }
  }

  lemma PopTimerInv(t: Timers, i: nat, rest: seq<nat>)
    requires TimerInv(t, [i] + rest)
    ensures i < |t.entries|
    ensures TimerInv(PopTimer(t, i).part, if PopTimer(t, i).back then rest + [i] else rest)
  {
    DetachPendingTimer(t, [i] + rest, 0);
    assert RemoveAt([i] + rest, 0) == rest;
    assert i in [i] + rest;
    PopDetachedTimerInv(t, i, rest);
  }

  // ---------- dispatches

  lemma PopDispatchInv(d: Dispatches, i: nat, rest: seq<nat>)
    requires DispatchInv(d, [i] + rest)
    ensures i < |d.entries|
    ensures DispatchInv(PopDispatch(d, i).part, if PopDispatch(d, i).back then rest + [i] else rest)
  {
    var pend := [i] + rest;
    assert pend[0] == i && pend[1..] == rest;
    assert i in pend;
    TailMembers(pend);
    AppendMembers(rest, i);
    AppendMembers(d.free, i);
  }

  // ---------- sockets

  lemma PopSocketInv(k: Sockets, i: nat, rest: seq<nat>)
    requires SocketInv(k, [i] + rest)
    ensures i < k.pollSize <= |k.entries| == |k.pollfd|
    ensures SocketInv(PopSocket(k, i).part, if PopSocket(k, i).back then rest + [i] else rest)
    ensures PopSocket(k, i).part.pollSize == k.pollSize
  {
    var pend := [i] + rest;
    assert pend[0] == i && pend[1..] == rest;
    assert i in pend;
    TailMembers(pend);
    AppendMembers(rest, i);
    AppendMembers(k.used, i);
  }

  lemma KeepSocketInv(k: Sockets, pend: seq<nat>)
    requires SocketInv(k, pend) && k.used != [] && k.used[0] < |k.entries| && k.entries[k.used[0]].phase == Used
    ensures SocketInv(k.(pollfd := k.pollfd[k.used[0] := k.pollfd[k.used[0]].(revents := 0)], used := k.used[1..]),
                      pend + [k.used[0]])
  {
  }

  lemma DropTombstoneInv(k: Sockets, pend: seq<nat>)
    requires SocketInv(k, pend) && k.used != [] && k.used[0] < |k.entries| && k.entries[k.used[0]].phase == Free
    ensures k.used[0] < k.pollSize
    ensures SocketInv(DropTombstone(k, k.used[0]), TransposeAll(k.used[0], k.pollSize - 1, pend))
  {
    var i, last := k.used[0], k.pollSize - 1;
    assert i in k.used;
    if i == last {
      TailMembers(k.used);
      assert TransposeAll(i, last, pend) == pend;
    } else {
      DropInnerTombstoneInv(k, pend);
    }
  }

  lemma DropInnerTombstoneInv(k: Sockets, pend: seq<nat>)
    requires SocketInv(k, pend) && k.used != [] && k.used[0] < k.pollSize - 1 && k.entries[k.used[0]].phase == Free
    ensures SocketInv(DropTombstone(k, k.used[0]), TransposeAll(k.used[0], k.pollSize - 1, pend))
  {
    hide SocketInv;
    var i, last := k.used[0], k.pollSize - 1;
    SocketLists(k, pend);
    var u, q, n := TransposeAll(i, last, k.used), TransposeAll(i, last, pend), DropTombstone(k, i);
    TransposeMembers(i, last, k.used);
    TransposeMembers(i, last, pend);
    assert u[0] == last;
    TailMembers(u);
    forall j: nat | j < |k.entries| ensures n.entries[j].phase == if j == last then Free else k.entries[Transpose(i, last, j)].phase {
    }
    RenamedInv(k, pend, i, n, q);
  }

  lemma SocketLists(k: Sockets, pend: seq<nat>)
    requires SocketInv(k, pend) && k.used != []
    ensures NoDup(k.used) && NoDup(pend) && k.used[0] in k.used && k.used[0] < k.pollSize && k.entries[k.used[0]].phase in {Free, Used}
    ensures k.pollSize <= |k.entries| == |k.pollfd|
    ensures forall j :: 0 <= j < |k.entries| ==> NonceOk(k.entries[j].nonce)
  {
  }

  /** The invariant of `n` and `q`, in which slot `i` has taken the part of the last slot. */
  lemma RenamedInv(k: Sockets, pend: seq<nat>, i: nat, n: Sockets, q: seq<nat>)
    requires SocketInv(k, pend) && i < k.pollSize - 1 && i in k.used && k.entries[i].phase == Free
    requires n.pollSize == k.pollSize - 1 && n.free == [k.pollSize - 1] + k.free
    requires |n.entries| == |n.pollfd| == |k.entries| && NoDup(n.used) && NoDup(q)
    requires forall j: nat :: j in n.used <==> j != n.pollSize && Transpose(i, n.pollSize, j) in k.used
    requires forall j: nat :: j in q <==> Transpose(i, n.pollSize, j) in pend
    requires forall j: nat :: j < |k.entries| ==>
      n.entries[j].phase == (if j == n.pollSize then Free else k.entries[Transpose(i, n.pollSize, j)].phase) && NonceOk(n.entries[j].nonce)
    ensures SocketInv(n, q)
  {
  }

  lemma TransposeMembers(a: nat, b: nat, s: seq<nat>)
    requires NoDup(s)
    ensures NoDup(TransposeAll(a, b, s))
    ensures forall x: nat :: x in TransposeAll(a, b, s) <==> Transpose(a, b, x) in s
  {
  }
}
