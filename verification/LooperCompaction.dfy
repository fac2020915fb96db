/** The compaction of the poll array: a tombstone is overwritten by the last slot while the list that
    is being walked, and the list already built, keep their order. */
module LooperCompaction {
  import opened Words
  import opened Seqs
  import opened Rings
  import opened LooperModel
  import opened LooperInvariant
  import opened LooperSteps

  /** Everything about a polled socket that must survive the move to another slot. */
  datatype Record = Record(socket: SocketReg, events: int)

  /** The records of the live sockets among the slots `xs`, in that order. */
  function Live(k: Sockets, xs: seq<nat>): seq<Record>
    requires |k.entries| == |k.pollfd| && forall j :: 0 <= j < |xs| ==> xs[j] < |k.entries|
  {
    if xs == [] then [] else
      (if k.entries[xs[0]].phase == Used then [Record(SocketRegOf(k, xs[0]), k.pollfd[xs[0]].events)] else [])
      + Live(k, xs[1..])
  }

  ghost predicate InSlots(k: Sockets, xs: seq<nat>) {
    |k.entries| == |k.pollfd| && forall j :: 0 <= j < |xs| ==> xs[j] < |k.entries|
  }

  lemma {:induction false} LiveConcat(k: Sockets, xs: seq<nat>, ys: seq<nat>)
    requires InSlots(k, xs) && InSlots(k, ys)
    ensures InSlots(k, xs + ys) && Live(k, xs + ys) == Live(k, xs) + Live(k, ys)
  {
    if xs == [] {
      assert xs + ys == ys;
    } else {
      LiveConcat(k, xs[1..], ys);
      assert (xs + ys)[1..] == xs[1..] + ys;
    }
  }

  /** Two states that agree on the slots of a list agree on its live records. */
  lemma {:induction false} LiveRenamed(k: Sockets, xs: seq<nat>, n: Sockets, ys: seq<nat>)
    requires InSlots(k, xs) && InSlots(n, ys) && |xs| == |ys|
    requires forall j :: 0 <= j < |xs| ==>
      && n.entries[ys[j]].phase == k.entries[xs[j]].phase
      && SocketRegOf(n, ys[j]) == SocketRegOf(k, xs[j])
      && n.pollfd[ys[j]].events == k.pollfd[xs[j]].events
    ensures Live(n, ys) == Live(k, xs)
  {
    if xs != [] {
      LiveRenamed(k, xs[1..], n, ys[1..]);
    }
  }

  /** Moving the last slot into the tombstone `i` renames the two slots and loses no live record. */
  lemma DropKeepsLive(k: Sockets, i: nat, xs: seq<nat>)
    requires k.used != [] && i < k.pollSize <= |k.entries| == |k.pollfd| && InSlots(k, xs)
    requires forall j :: 0 <= j < |xs| ==> xs[j] != i && xs[j] < k.pollSize
    ensures InSlots(DropTombstone(k, i), TransposeAll(i, k.pollSize - 1, xs))
    ensures Live(DropTombstone(k, i), TransposeAll(i, k.pollSize - 1, xs)) == Live(k, xs)
  {
    LiveRenamed(k, xs, DropTombstone(k, i), TransposeAll(i, k.pollSize - 1, xs));
  }

  /** The slots `xs` hold sockets that are Used and have seen no events since. */
  ghost predicate Fresh(k: Sockets, xs: seq<nat>) {
    && InSlots(k, xs)
    && forall j :: 0 <= j < |xs| ==> k.entries[xs[j]].phase == Used && k.pollfd[xs[j]].revents == 0
  }

  lemma SlotsInRange(k: Sockets, pend: seq<nat>)
    requires SocketInv(k, pend)
    ensures InSlots(k, pend) && InSlots(k, k.used)
    ensures forall j :: 0 <= j < |pend| ==> pend[j] < k.pollSize && pend[j] !in k.used
    ensures forall j :: 0 <= j < |k.used| ==> k.used[j] < k.pollSize
  {
    assert forall j :: 0 <= j < |pend| ==> pend[j] in pend;
    assert forall j :: 0 <= j < |k.used| ==> k.used[j] in k.used;
  }

  /** The service order: what has been moved to the pending list, then what is still to be walked. */
  ghost function Service(k: Sockets, pend: seq<nat>): seq<Record>
    requires InSlots(k, pend) && InSlots(k, k.used)
  {
    Live(k, pend) + Live(k, k.used)
  }

  lemma KeepService(k: Sockets, pend: seq<nat>, n: Sockets)
    requires SocketInv(k, pend) && Fresh(k, pend) && k.used != [] && k.used[0] < |k.entries|
    requires k.entries[k.used[0]].phase == Used
    requires n == k.(pollfd := k.pollfd[k.used[0] := k.pollfd[k.used[0]].(revents := 0)], used := k.used[1..])
    ensures InSlots(k, k.used) && InSlots(n, n.used) && Fresh(n, pend + [k.used[0]])
    ensures Service(n, pend + [k.used[0]]) == Service(k, pend)
  {
    hide SocketInv, Live;
    var i, rest := k.used[0], k.used[1..];
    SlotsInRange(k, pend);
    assert k.used == [i] + rest;
    LiveConcat(k, [i], rest);
    RecordsKept(k, n, i, pend);
    RecordsKept(k, n, i, [i]);
    RecordsKept(k, n, i, rest);
    LiveConcat(n, pend, [i]);
  }

  /** Clearing `revents` of a slot leaves every record as it was. */
  lemma RecordsKept(k: Sockets, n: Sockets, i: nat, xs: seq<nat>)
    requires InSlots(k, xs) && i < |k.entries| && n.entries == k.entries && n.pollfd == k.pollfd[i := k.pollfd[i].(revents := 0)]
    ensures InSlots(n, xs) && Live(n, xs) == Live(k, xs)
  {
    hide Live;
    LiveRenamed(k, xs, n, xs);
  }

  /** After a drop the walk goes on with the renamed rest of the list. */
  lemma DropWalk(k: Sockets, pend: seq<nat>)
    requires SocketInv(k, pend) && k.used != [] && k.used[0] < k.pollSize
    ensures DropTombstone(k, k.used[0]).used == TransposeAll(k.used[0], k.pollSize - 1, k.used[1..])
    ensures forall j :: 0 <= j < |pend| ==> pend[j] != k.used[0] && pend[j] < k.pollSize
    ensures forall j :: 1 <= j < |k.used| ==> k.used[j] != k.used[0] && k.used[j] < k.pollSize
  {
    var i, last := k.used[0], k.pollSize - 1;
    SlotsInRange(k, pend);
    assert i in k.used;
    assert TransposeAll(i, last, k.used)[1..] == TransposeAll(i, last, k.used[1..]);
    assert i == last ==> TransposeAll(i, last, k.used) == k.used;
  }

  lemma DropFresh(k: Sockets, i: nat, pend: seq<nat>)
    requires Fresh(k, pend) && k.used != [] && i < k.pollSize <= |k.entries| == |k.pollfd|
    requires forall j :: 0 <= j < |pend| ==> pend[j] != i && pend[j] < k.pollSize
    ensures Fresh(DropTombstone(k, i), TransposeAll(i, k.pollSize - 1, pend))
  {
  }

  lemma DropService(k: Sockets, pend: seq<nat>)
    requires SocketInv(k, pend) && Fresh(k, pend) && k.used != [] && k.used[0] < k.pollSize
    requires k.entries[k.used[0]].phase == Free
    ensures var n, q := DropTombstone(k, k.used[0]), TransposeAll(k.used[0], k.pollSize - 1, pend);
      InSlots(k, k.used) && InSlots(n, n.used) && Fresh(n, q) && Service(n, q) == Service(k, pend)
  {
    var i, rest := k.used[0], k.used[1..];
    SlotsInRange(k, pend);
    DropWalk(k, pend);
    DropFresh(k, i, pend);
    assert Live(k, k.used) == Live(k, rest);
    hide SocketInv, DropTombstone, Live, TransposeAll;
    assert forall j :: 0 <= j < |rest| ==> rest[j] == k.used[j + 1];
    DropKeepsLive(k, i, pend);
    DropKeepsLive(k, i, rest);
  }

  lemma CompactStepService(s: State)
    requires Inv(s) && Fresh(s.sockets, Of(SocketKind, s.pending)) && s.sockets.used != [] && s.running.None?
    ensures InSlots(s.sockets, s.sockets.used) && s.sockets.used[0] < s.sockets.pollSize && Inv(CompactStep(s))
    ensures var n := CompactStep(s);
      && Fresh(n.sockets, Of(SocketKind, n.pending)) && InSlots(n.sockets, n.sockets.used)
      && Service(n.sockets, Of(SocketKind, n.pending)) == Service(s.sockets, Of(SocketKind, s.pending))
      && n == s.(sockets := n.sockets, pending := n.pending)
      && (forall kind :: kind != SocketKind ==> Of(kind, n.pending) == Of(kind, s.pending))
  {
    hide TimerInv, SocketInv, DispatchInv, Of, Live, Service, DropTombstone, TransposeAll;
    CompactStepInv(s);
    var k := s.sockets;
    var i, pend := k.used[0], Of(SocketKind, s.pending);
    SlotsInRange(k, pend);
    SocketLists(k, pend);
    if k.entries[i].phase == Used {
      forall kind ensures Of(kind, s.pending + [Ref(SocketKind, i)]) == Of(kind, s.pending) + Only(kind, Ref(SocketKind, i)) {
        OfAppend(kind, s.pending, Ref(SocketKind, i));
      }
      KeepService(k, pend, CompactStep(s).sockets);
    } else {
      forall kind ensures Of(kind, CompactStep(s).pending) == if kind == SocketKind then TransposeAll(i, k.pollSize - 1, pend) else Of(kind, s.pending) {
        OfTranspose(kind, s.pending, i, k.pollSize - 1);
      }
      DropService(k, pend);
    }
  }

  lemma {:induction false} CompactService(s: State)
    requires Inv(s) && Fresh(s.sockets, Of(SocketKind, s.pending)) && s.running.None?
    ensures var n := Compact(s);
      && Inv(n) && InSlots(s.sockets, s.sockets.used)
      && n.sockets.used == [] && Fresh(n.sockets, Of(SocketKind, n.pending))
      && Live(n.sockets, Of(SocketKind, n.pending)) == Service(s.sockets, Of(SocketKind, s.pending))
      && n == s.(sockets := n.sockets, pending := n.pending)
      && (forall kind :: kind != SocketKind ==> Of(kind, n.pending) == Of(kind, s.pending))
    decreases |s.sockets.used|
  {
    CompactInv(s);
    SlotsInRange(s.sockets, Of(SocketKind, s.pending));
    if s.sockets.used != [] {
      CompactStepInv(s);
      CompactStepService(s);
      hide Inv, Of, Live, CompactStep, Fresh;
      CompactService(CompactStep(s));
    }
  }

  lemma {:induction false} CountBelow(xs: seq<nat>, n: nat)
    requires NoDup(xs) && forall i: nat :: i in xs <==> i < n
    ensures |xs| == n
    decreases n
  {
    assert xs == [] || xs[0] in xs;
    if n > 0 {
      assert n - 1 in xs;
      var k :| 0 <= k < |xs| && xs[k] == n - 1;
      RemoveMembers(xs, k);
      CountBelow(RemoveAt(xs, k), n - 1);
    }
  }

  /** What nextEvent leaves behind when nothing is pending: exactly the tombstones are gone, every live
      socket has kept its descriptor, events, handlers and userdata and its turn, the live sockets fill
      the slots from 0 and wait in the pending list with no events seen, and the free list is the rest
      of the slots in order. */
  lemma Compaction(s: State)
    requires Inv(s) && s.running.None? && s.pending == []
    ensures InSlots(s.sockets, s.sockets.used)
    ensures var n := Compact(s); var pend := Of(SocketKind, n.pending);
      && n.sockets.used == []
      && Fresh(n.sockets, pend)
      && Live(n.sockets, pend) == Live(s.sockets, s.sockets.used)
      && |Live(s.sockets, s.sockets.used)| == n.sockets.pollSize == |pend|
      && (forall i: nat :: i in pend <==> i < n.sockets.pollSize)
      && |n.sockets.free| + n.sockets.pollSize == |s.sockets.entries|
      && (forall j :: 0 <= j < |n.sockets.free| ==> n.sockets.free[j] == n.sockets.pollSize + j)
      && n.timers == s.timers && n.dispatches == s.dispatches && n.log == s.log
  {
    CompactService(s);
    var n := Compact(s);
    var pend := Of(SocketKind, n.pending);
    assert Of(SocketKind, s.pending) == [];
    CompactSlots(s);
    AllLive(n.sockets, pend);
    hide TimerInv, DispatchInv, Of, Live, Fresh, Compact;
    assert forall i: nat :: i in pend <==> i < n.sockets.pollSize;
    CountBelow(pend, n.sockets.pollSize);
  }

  lemma {:induction false} AllLive(k: Sockets, xs: seq<nat>)
    requires Fresh(k, xs)
    ensures |Live(k, xs)| == |xs|
  {
    if xs != [] {
      AllLive(k, xs[1..]);
    }
  }

  lemma {:induction false} CompactSlots(s: State)
    requires Inv(s) && s.running.None?
    ensures |Compact(s).sockets.entries| == |s.sockets.entries|
    decreases |s.sockets.used|
  {
    if s.sockets.used != [] {
      CompactStepInv(s);
      CompactSlots(CompactStep(s));
    }
  }
}
