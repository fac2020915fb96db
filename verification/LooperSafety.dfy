/** Over every run, each entry is in exactly one list, the one its state says. */
module LooperSafety {
  import opened Words
  import opened Seqs
  import opened Rings
  import opened LooperModel
  import opened LooperInvariant
  import opened LooperSteps

  lemma SetTimerInv(s: State, actionTime: int, interval: int, action: nat, destroy: Handler, userdata: int)
    requires Inv(s)
    ensures Inv(SetTimer(s, actionTime, interval, action, destroy, userdata).0)
    ensures SetTimer(s, actionTime, interval, action, destroy, userdata).1 == 0 <==> s.timers.free == []
  {
    var t := s.timers;
    if t.free != [] {
      assert t.free[0] in t.free;
      var i := t.free[0];
      var e := TimerEntry(Used, NextNonce(t.entries[i].nonce), interval, actionTime, action, destroy, userdata, s.nextSerial);
      DetachFreeTimer(t, Of(TimerKind, s.pending));
      AttachUsedTimer(t.(free := t.free[1..]), Of(TimerKind, s.pending), i, e);
    }
  }

  /** Taking `r` out of the pending list. */
  lemma UnlinkPending(p: seq<Ref>, r: Ref, kind: Kind)
    requires r in p
    ensures kind != r.kind ==> Of(kind, RemoveAt(p, IndexOf(p, r))) == Of(kind, p)
    ensures kind == r.kind ==>
              exists j :: 0 <= j < |Of(kind, p)| && Of(kind, p)[j] == r.index
                          && Of(kind, RemoveAt(p, IndexOf(p, r))) == RemoveAt(Of(kind, p), j)
  {
    OfRemoveAt(kind, p, IndexOf(p, r));
  }

  lemma UnlinkTimerInv(s: State, i: nat)
    requires Inv(s) && i < |s.timers.entries| && s.timers.entries[i].phase in {Used, Action}
    ensures var u := UnlinkTimer(s, i);
      && TimerInvBut(u.timers, Of(TimerKind, u.pending), i)
      && Of(SocketKind, u.pending) == Of(SocketKind, s.pending)
      && Of(DispatchKind, u.pending) == Of(DispatchKind, s.pending)
      && u == s.(timers := u.timers, pending := u.pending) && u.timers.entries == s.timers.entries
  {
    hide SocketInv, DispatchInv, Of;
    var pend := Of(TimerKind, s.pending);
    if s.timers.entries[i].phase == Used {
      assert i in s.timers.used;
      DetachUsedTimer(s.timers, pend, IndexOf(s.timers.used, i));
    } else {
      var r := Ref(TimerKind, i);
      assert i in pend;
      OfMember(TimerKind, s.pending, i);
      UnlinkPending(s.pending, r, SocketKind);
      UnlinkPending(s.pending, r, DispatchKind);
      UnlinkPending(s.pending, r, TimerKind);
      var j :| 0 <= j < |pend| && pend[j] == i && Of(TimerKind, RemoveAt(s.pending, IndexOf(s.pending, r))) == RemoveAt(pend, j);
      DetachPendingTimer(s.timers, pend, j);
    }
  }

  lemma UsedTimerListed(s: State, i: nat)
    requires Inv(s) && i < |s.timers.entries| && s.timers.entries[i].phase == Used
    ensures i in s.timers.used
  {
  }

  /** The used list does not mention the first free timer. */
  lemma FreeTimerSorted(s: State)
    requires Inv(s) && s.timers.free != []
    ensures Sorted(s.timers) && Sorted(s.timers.(free := s.timers.free[1..])) && s.timers.free[0] < |s.timers.entries|
  {
    assert s.timers.free[0] in s.timers.free;
  }

  lemma UnlinkSocketFrame(s: State, i: nat)
    ensures var u := UnlinkSocket(s, i);
      u == s.(pending := u.pending, sockets := s.sockets.(used := u.sockets.used))
  {
  }

  lemma ClearTimerInv(s: State, id: Id, isInterval: bool)
    requires Inv(s) && Enabled(s, ClearTimerStep(id, isInterval))
    ensures Inv(ClearTimer(s, id, isInterval).0)
  {
    var i := id.index;
    var e := s.timers.entries[i];
    if Clears(s.timers, id, isInterval) && e.phase != Destroy {
      UnlinkTimerInv(s, i);
      var u := UnlinkTimer(s, i);
      hide SocketInv, DispatchInv, Of, UnlinkTimer;
      if e.destroy == Null {
        AttachFreeTimer(u.timers, Of(TimerKind, u.pending), i, e.(phase := Free));
      } else {
        AttachPendingTimer(u.timers, Of(TimerKind, u.pending), i, e.(phase := Destroy));
        var r := Ref(TimerKind, i);
        OfAppend(TimerKind, u.pending, r);
        OfAppend(SocketKind, u.pending, r);
        OfAppend(DispatchKind, u.pending, r);
      }
    }
  }

  lemma AddSocketInv(s: State, handle: int, action: nat, destroy: Handler, userdata: int)
    requires Inv(s)
    ensures Inv(AddSocket(s, handle, action, destroy, userdata).0)
    ensures AddSocket(s, handle, action, destroy, userdata).1 <==> s.sockets.pollSize < |s.sockets.entries|
  {
    hide TimerInv, DispatchInv, Of;
    if s.sockets.free != [] {
      var r := Ref(SocketKind, s.sockets.free[0]);
      OfAppend(TimerKind, s.pending, r);
      OfAppend(SocketKind, s.pending, r);
      OfAppend(DispatchKind, s.pending, r);
      AppendMembers(Of(SocketKind, s.pending), r.index);
    }
  }

  /** Socket `i` taken out of its list and put back as a tombstone or for its destroy handler. */
  lemma MoveSocketInv(k: Sockets, pend: seq<nat>, i: nat, u: Sockets, q: seq<nat>, e: SocketEntry)
    requires SocketInv(k, pend) && i < k.pollSize && k.entries[i].phase in {Used, Action} && NonceOk(e.nonce)
    requires u == k.(used := u.used)
    requires NoDup(u.used) && forall j :: j in u.used <==> j != i && j in k.used
    requires NoDup(q) && forall j :: j in q <==> j != i && j in pend
    ensures e.phase == Free ==> SocketInv(u.(entries := k.entries[i := e], used := u.used + [i]), q)
    ensures e.phase == Destroy ==> SocketInv(u.(entries := k.entries[i := e]), q + [i])
  {
  }

  lemma UnlinkSocketInv(s: State, i: nat)
    requires Inv(s) && i < s.sockets.pollSize && s.sockets.entries[i].phase in {Used, Action}
    ensures var u := UnlinkSocket(s, i);
      && u == s.(sockets := s.sockets.(used := u.sockets.used), pending := u.pending)
      && NoDup(u.sockets.used) && (forall j :: j in u.sockets.used <==> j != i && j in s.sockets.used)
      && NoDup(Of(SocketKind, u.pending))
      && (forall j :: j in Of(SocketKind, u.pending) <==> j != i && j in Of(SocketKind, s.pending))
      && Of(TimerKind, u.pending) == Of(TimerKind, s.pending)
      && Of(DispatchKind, u.pending) == Of(DispatchKind, s.pending)
  {
    hide TimerInv, DispatchInv, Of;
    var pend := Of(SocketKind, s.pending);
    if i in s.sockets.used {
      RemoveMembers(s.sockets.used, IndexOf(s.sockets.used, i));
    } else {
      var r := Ref(SocketKind, i);
      assert i in pend;
      OfMember(SocketKind, s.pending, i);
      UnlinkPending(s.pending, r, TimerKind);
      UnlinkPending(s.pending, r, DispatchKind);
      UnlinkPending(s.pending, r, SocketKind);
      var j :| 0 <= j < |pend| && pend[j] == i && Of(SocketKind, RemoveAt(s.pending, IndexOf(s.pending, r))) == RemoveAt(pend, j);
      RemoveMembers(pend, j);
    }
  }

  lemma EndSocketInv(s: State, i: nat)
    requires Inv(s) && i < s.sockets.pollSize && s.sockets.entries[i].phase in {Used, Action}
    ensures Inv(EndSocket(s, i))
  {
    var u, e := UnlinkSocket(s, i), s.sockets.entries[i];
    UnlinkSocketInv(s, i);
    hide TimerInv, DispatchInv, Of, UnlinkSocket;
    var r := Ref(SocketKind, i);
    OfAppend(TimerKind, u.pending, r);
    OfAppend(SocketKind, u.pending, r);
    OfAppend(DispatchKind, u.pending, r);
    var phase := if e.destroy == Null then Free else Destroy;
    MoveSocketInv(s.sockets, Of(SocketKind, s.pending), i, u.sockets, Of(SocketKind, u.pending), e.(phase := phase));
    hide SocketInv;
  }

  lemma RemoveSocketInv(s: State, handle: int)
    requires Inv(s)
    ensures Inv(RemoveSocket(s, handle).0)
  {
    var i := FindSocket(s.sockets, handle, 0);
    hide EndSocket;
    if i < s.sockets.pollSize && s.sockets.entries[i].phase !in {Destroy, Free} {
      EndSocketInv(s, i);
    }
  }

  lemma DispatchStepInv(s: State, action: nat, destroy: Handler, userdata: int)
    requires Inv(s)
    ensures Inv(Dispatch(s, action, destroy, userdata).0)
    ensures Dispatch(s, action, destroy, userdata).1 <==> s.dispatches.free != []
  {
    hide TimerInv, SocketInv, Of;
    var d := s.dispatches;
    if d.free != [] {
      assert d.free[0] in d.free;
      TailMembers(d.free);
      var r := Ref(DispatchKind, d.free[0]);
      OfAppend(TimerKind, s.pending, r);
      OfAppend(SocketKind, s.pending, r);
      OfAppend(DispatchKind, s.pending, r);
      AppendMembers(Of(DispatchKind, s.pending), r.index);
    }
  }

  lemma ReturnInv(s: State, events: int)
    requires Inv(s) && s.running.Some?
    ensures Inv(Return(s, events))
  {
  }

  lemma PollInv(s: State, reports: seq<int>)
    requires Inv(s) && |reports| == s.sockets.pollSize
    ensures Inv(Poll(s, reports))
  {
  }

  /** Every operation keeps every entry in the list its state says. */
  lemma ApplyInv(s: State, step: Step)
    requires Inv(s) && Enabled(s, step)
    ensures Inv(Apply(s, step))
  {
    hide Inv, NextEvent, Return, Poll, SetTimer, ClearTimer, AddSocket, RemoveSocket, Dispatch;
    match step {
      case NextEventStep(now) => NextEventInv(s, now);
      case ReturnStep(events) => ReturnInv(s, events);
      case PollStep(reports) => PollInv(s, reports);
      case SetTimerStep(actionTime, interval, action, destroy, userdata) =>
        SetTimerInv(s, actionTime, interval, action, destroy, userdata);
      case ClearTimerStep(id, isInterval) => ClearTimerInv(s, id, isInterval);
      case AddSocketStep(handle, action, destroy, userdata) => AddSocketInv(s, handle, action, destroy, userdata);
      case RemoveSocketStep(handle) => RemoveSocketInv(s, handle);
      case DispatchStep(action, destroy, userdata) => DispatchStepInv(s, action, destroy, userdata);
    }
  }

  // ---------- which socket a removal reaches

  lemma EndSocketEntries(s: State, i: nat)
    requires i < |s.sockets.entries| == |s.sockets.pollfd|
    ensures var n, k := EndSocket(s, i).sockets, s.sockets;
      && n.pollfd == k.pollfd && n.pollSize == k.pollSize && n.free == k.free
      && n.entries[i].phase in {Free, Destroy} && n.entries == k.entries[i := n.entries[i]]
  {
  }

  /** removeSocket ends a live socket with the given descriptor if and only if no earlier slot has the same
      one; it says that it did in any case. */
  lemma RemoveReaches(s: State, handle: int, i: nat)
    requires Inv(s) && i < s.sockets.pollSize <= |s.sockets.entries| == |s.sockets.pollfd|
    requires s.sockets.pollfd[i].fd == handle && s.sockets.entries[i].phase in {Used, Action}
    ensures var r := RemoveSocket(s, handle);
      && r.1 && |r.0.sockets.entries| == |s.sockets.entries|
      && (r.0.sockets.entries[i].phase in {Free, Destroy} <==> forall j :: 0 <= j < i ==> s.sockets.pollfd[j].fd != handle)
  {
    var f := FindSocket(s.sockets, handle, 0);
    EndSocketEntries(s, f);
    hide Inv, EndSocket, FindSocket;
  }

  lemma AddSocketSlot(s: State, handle: int, action: nat, destroy: Handler, userdata: int)
    requires Inv(s) && s.sockets.pollSize < |s.sockets.entries|
    ensures var k := s.sockets; var n := AddSocket(s, handle, action, destroy, userdata).0.sockets;
      && |k.entries| == |k.pollfd| && n.pollSize == k.pollSize + 1 && |n.entries| == |n.pollfd| == |k.entries|
      && n.pollfd == k.pollfd[k.pollSize := Pollfd(handle, 0, 0)]
      && n.entries == k.entries[k.pollSize := n.entries[k.pollSize]] && n.entries[k.pollSize].phase == Used
  {
  }

  lemma FoundAt(k: Sockets, handle: int, i: nat)
    requires i < k.pollSize <= |k.pollfd| && k.pollfd[i].fd == handle
    requires forall j :: 0 <= j < i ==> k.pollfd[j].fd != handle
    ensures FindSocket(k, handle, 0) == i
  {
  }

  /** The failing case: a socket is added, removed and added again before the worker has compacted the slots.
      Its descriptor is then still in the slot of the first registration, so removing it once more reports
      success and does nothing. */
  lemma ReaddedSocketStays(s: State, handle: int, action: nat, destroy: Handler, userdata: int)
    requires Inv(s) && s.sockets.pollSize + 2 <= |s.sockets.entries| == |s.sockets.pollfd|
    requires forall j :: 0 <= j < s.sockets.pollSize ==> s.sockets.pollfd[j].fd != handle
    ensures var s1 := AddSocket(s, handle, action, destroy, userdata).0;
      Inv(s1) && var s2 := RemoveSocket(s1, handle).0;
      Inv(s2) && var s3 := AddSocket(s2, handle, action, destroy, userdata).0;
      && Inv(s3) && s3.sockets.pollSize == s.sockets.pollSize + 2 <= |s3.sockets.entries|
      && s3.sockets.entries[s.sockets.pollSize + 1].phase == Used && RemoveSocket(s3, handle) == (s3, true)
  {
    hide Inv, EndSocket, AddSocket;
    var i := s.sockets.pollSize;
    AddSocketInv(s, handle, action, destroy, userdata);
    AddSocketSlot(s, handle, action, destroy, userdata);
    var s1 := AddSocket(s, handle, action, destroy, userdata).0;
    RemoveSocketInv(s1, handle);
    FoundAt(s1.sockets, handle, i);
    EndSocketEntries(s1, i);
    var s2 := RemoveSocket(s1, handle).0;
    AddSocketInv(s2, handle, action, destroy, userdata);
    AddSocketSlot(s2, handle, action, destroy, userdata);
    var s3 := AddSocket(s2, handle, action, destroy, userdata).0;
    FoundAt(s3.sockets, handle, i);
  }
}
