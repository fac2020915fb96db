/** Runs: any sequence of operations on a looper, from its creation. */
module LooperRuns {
  import opened Words
  import opened Seqs
  import opened Rings
  import opened LooperModel
  import opened LooperInvariant
  import opened LooperSteps
  import opened LooperSafety
  import opened LooperHistory

  /** The lists match the states, and the history is one the states account for. */
  ghost predicate Good(s: State) {
    && Inv(s)
    && TimerHistory(s.timers.entries, s.log, s.nextSerial)
    && SocketHistory(s.sockets, s.running, s.log, s.nextSerial)
    && DispatchHistory(s.dispatches, Of(DispatchKind, s.pending), s.log)
  }

  /** An event of one kind leaves the other two histories alone. */
  lemma OtherHistories(s: State, e: Event, next': nat)
    requires Good(s) && s.nextSerial <= next'
    ensures TimerSerial(e).None? ==> TimerHistory(s.timers.entries, s.log + [e], next')
    ensures SocketSerial(e).None? ==> SocketHistory(s.sockets, s.running, s.log + [e], next')
    ensures !e.Dispatched? && !e.DispatchRun? && !e.DispatchDestroyed? ==>
              DispatchHistory(s.dispatches, Of(DispatchKind, s.pending), s.log + [e])
  {
    if TimerSerial(e).None? { TimerOther(s.timers.entries, s.log, s.nextSerial, e, next'); }
    if SocketSerial(e).None? { SocketOther(s.sockets, s.running, s.log, s.nextSerial, e, next'); }
    if !e.Dispatched? && !e.DispatchRun? && !e.DispatchDestroyed? {
      DispatchOther(s.dispatches, Of(DispatchKind, s.pending), s.log, e);
    }
  }

  lemma FireGood(s: State)
    requires Good(s) && s.timers.used != []
    ensures Good(FireTimer(s))
  {
    hide Of, SocketHistory, DispatchHistory;
    FireInv(s);
    var i := s.timers.used[0];
    assert i in s.timers.used;
    hide Inv;
    var x := s.timers.entries[i];
    var e := TimerFired(TimerRegOf(s.timers, i));
    OfAppend(DispatchKind, s.pending, Ref(TimerKind, i));
    TimerMoves(s.timers.entries, s.log, s.nextSerial, i, x.(phase := Action), e, x.serial, s.nextSerial);
    OtherHistories(s, e, s.nextSerial);
  }

  lemma PopTimerOwn(s: State)
    requires Good(s) && s.pending != [] && s.pending[0].kind == TimerKind
    ensures InRange(s, s.pending[0])
    ensures var n := Pop(s).state; TimerHistory(n.timers.entries, n.log, n.nextSerial)
  {
    var i := s.pending[0].index;
    OfMember(TimerKind, s.pending, i);
    assert i in Of(TimerKind, s.pending);
    hide Of, DispatchHistory, SocketHistory, SocketInv, DispatchInv, TimerHistory, PopTimer;
    PopTimerHistory(s.timers, i, s.log, s.nextSerial);
    hide Inv, TimerInv;
  }

  lemma PopTimerGood(s: State)
    requires Good(s) && s.pending != [] && s.pending[0].kind == TimerKind
    ensures InRange(s, s.pending[0]) && Good(Pop(s).state)
  {
    PopTimerOwn(s);
    PopInv(s);
    PopTimerStep(s);
    PopTimerEvent(s.timers, s.pending[0].index);
    hide Inv, Of, PopTimer, SocketHistory, DispatchHistory, TimerHistory;
    var p := PopTimer(s.timers, s.pending[0].index);
    if p.event.Some? {
      OtherHistories(s, p.event.value, s.nextSerial);
    }
  }

  lemma PopTimerEvent(t: Timers, i: nat)
    requires Sorted(t) && i < |t.entries|
    ensures var e := PopTimer(t, i).event; e.Some? ==> e.value.TimerDestroyed?
  {
  }

  lemma PopSocketEvent(k: Sockets, i: nat)
    requires i < |k.entries| == |k.pollfd|
    ensures var e := PopSocket(k, i).event; e.Some? ==> e.value.SocketCalled? || e.value.SocketDestroyed?
  {
  }

  lemma PopDispatchEvent(d: Dispatches, i: nat)
    requires i < |d.entries|
    ensures var e := PopDispatch(d, i).event; e.Some? ==> e.value.DispatchRun? || e.value.DispatchDestroyed?
  {
  }

  lemma PopSocketOwn(s: State)
    requires Good(s) && s.pending != [] && s.pending[0].kind == SocketKind && s.running.None?
    ensures InRange(s, s.pending[0])
    ensures var n := Pop(s).state; SocketHistory(n.sockets, n.running, n.log, n.nextSerial)
  {
    var i := s.pending[0].index;
    OfMember(SocketKind, s.pending, i);
    assert i in Of(SocketKind, s.pending);
    hide Of, DispatchHistory, TimerHistory, TimerInv, DispatchInv;
    PopSocketHistory(s.sockets, i, s.log, s.nextSerial);
    hide Inv, SocketInv, PopSocket, SocketHistory;
  }

  lemma PopSocketGood(s: State)
    requires Good(s) && s.pending != [] && s.pending[0].kind == SocketKind && s.running.None?
    ensures InRange(s, s.pending[0]) && Good(Pop(s).state)
  {
    hide TimerInv, SocketInv, DispatchInv, TimerHistory, SocketHistory, DispatchHistory, Of, PopSocket;
    PopInv(s);
    PopSocketStep(s);
    PopSocketOwn(s);
    PopSocketEvent(s.sockets, s.pending[0].index);
    var p := PopSocket(s.sockets, s.pending[0].index);
    if p.event.Some? {
      OtherHistories(s, p.event.value, s.nextSerial);
    }
    hide Inv;
  }

  lemma PendingDispatch(s: State)
    requires Inv(s) && s.pending != [] && s.pending[0].kind == DispatchKind
    ensures var i, rest := s.pending[0].index, Of(DispatchKind, s.pending[1..]);
      Of(DispatchKind, s.pending) == [i] + rest && i < |s.dispatches.entries| && i !in rest && s.dispatches.entries[i].phase != Free
  {
    hide TimerInv, SocketInv;
    var i, rest := s.pending[0].index, Of(DispatchKind, s.pending[1..]);
    assert Of(DispatchKind, s.pending) == [i] + rest;
    assert i in [i] + rest;
    TailMembers([i] + rest);
    assert ([i] + rest)[1..] == rest;
  }

  lemma PopDispatchOwn(s: State)
    requires Good(s) && s.pending != [] && s.pending[0].kind == DispatchKind
    ensures InRange(s, s.pending[0])
    ensures var n := Pop(s).state; DispatchHistory(n.dispatches, Of(DispatchKind, n.pending), n.log)
  {
    hide TimerInv, SocketInv, DispatchInv, PopDispatch, SocketHistory, DispatchHistory, TimerHistory, Of;
    var i, rest := s.pending[0].index, Of(DispatchKind, s.pending[1..]);
    PendingDispatch(s);
    PopPending(DispatchKind, s.pending, PopDispatch(s.dispatches, i).back);
    PopDispatchHistory(s.dispatches, i, rest, s.log);
    assert rest + [] == rest;
    PopInv(s);
    hide Inv;
  }

  lemma PopDispatchGood(s: State)
    requires Good(s) && s.pending != [] && s.pending[0].kind == DispatchKind
    ensures InRange(s, s.pending[0]) && Good(Pop(s).state)
  {
    hide TimerInv, SocketInv, DispatchInv, TimerHistory, SocketHistory, DispatchHistory, Of, PopDispatch;
    PopInv(s);
    PopDispatchOwn(s);
    PopDispatchEvent(s.dispatches, s.pending[0].index);
    var p := PopDispatch(s.dispatches, s.pending[0].index);
    if p.event.Some? {
      OtherHistories(s, p.event.value, s.nextSerial);
    }
    hide Inv;
  }

  lemma PopGood(s: State)
    requires Good(s) && s.pending != [] && s.running.None?
    ensures InRange(s, s.pending[0]) && Good(Pop(s).state)
    ensures Pop(s).event.None? ==> Pop(s).state.running.None?
  {
    match s.pending[0].kind {
      case TimerKind => PopTimerGood(s);
      case SocketKind => PopSocketGood(s);
      case DispatchKind => PopDispatchGood(s);
    }
  }

  lemma CompactStepOwn(s: State)
    requires Good(s) && s.sockets.used != [] && s.running.None? && s.sockets.used[0] < s.sockets.pollSize
    ensures SocketHistory(CompactStep(s).sockets, None, s.log, s.nextSerial)
  {
    var k, i := s.sockets, s.sockets.used[0];
    hide Inv, Of, DispatchHistory, TimerHistory, DropTombstone, TransposeAll, SocketHistory;
    if k.entries[i].phase == Used {
      KeepSocketHistory(k, i, s.log, s.nextSerial);
    } else {
      DropTombstoneHistory(k, i, s.log, s.nextSerial);
    }
  }

  lemma CompactStepGood(s: State)
    requires Good(s) && s.sockets.used != [] && s.running.None?
    ensures s.sockets.used[0] < s.sockets.pollSize && Good(CompactStep(s))
  {
    hide Inv, Of, DispatchHistory, TimerHistory, DropTombstone, TransposeAll, SocketHistory;
    CompactStepInv(s);
    OfAppend(DispatchKind, s.pending, Ref(SocketKind, s.sockets.used[0]));
    OfTranspose(DispatchKind, s.pending, s.sockets.used[0], s.sockets.pollSize - 1);
    CompactStepOwn(s);
  }

  lemma {:induction false} CompactGood(s: State)
    requires Good(s) && s.running.None?
    ensures Good(Compact(s))
    decreases |s.sockets.used|
  {
    if s.sockets.used != [] {
      CompactStepInv(s);
      CompactStepGood(s);
      CompactGood(CompactStep(s));
    }
  }

  lemma {:induction false} DrainGood(s: State)
    requires Good(s) && s.running.None?
    ensures Good(Drain(s).state)
    decreases ActionSockets(s), |s.pending|
  {
    if s.pending == [] {
      CompactGood(s);
    } else {
      PopInv(s);
      PopGood(s);
      if Pop(s).event.None? {
        DrainGood(Pop(s).state);
      }
    }
  }

  lemma NextEventGood(s: State, now: int)
    requires Good(s) && s.running.None?
    ensures Good(NextEvent(s, now).state)
  {
    hide TimerHistory, SocketHistory, DispatchHistory, Of, Drain, FireTimer;
    if s.timers.used == [] {
      DrainGood(s.(pollTimeout := -1));
    } else {
      assert s.timers.used[0] in s.timers.used;
      var timeout := ToInt32(s.timers.entries[s.timers.used[0]].actionTime - now);
      if timeout <= 0 {
        FireGood(s);
      } else {
        DrainGood(s.(pollTimeout := timeout));
      }
    }
  }

  // ---------- the public operations

  lemma SetTimerGood(s: State, actionTime: int, interval: int, action: nat, destroy: Handler, userdata: int)
    requires Good(s)
    ensures Good(SetTimer(s, actionTime, interval, action, destroy, userdata).0)
  {
    SetTimerInv(s, actionTime, interval, action, destroy, userdata);
    var t := s.timers;
    if t.free != [] {
      var i := t.free[0];
      assert i in t.free;
      var n := s.nextSerial;
      var x := TimerEntry(Used, NextNonce(t.entries[i].nonce), interval, actionTime, action, destroy, userdata, n);
      var e := TimerSet(TimerReg(n, interval, action, destroy, userdata), actionTime);
      TimerMoves(t.entries, s.log, n, i, x, e, n, n + 1);
      hide SocketHistory, DispatchHistory, TimerHistory, Of, SocketInv, DispatchInv;
      OtherHistories(s, e, n + 1);
    }
  }

  lemma ClearTimerGood(s: State, id: Id, isInterval: bool)
    requires Good(s) && Enabled(s, ClearTimerStep(id, isInterval))
    ensures Good(ClearTimer(s, id, isInterval).0)
  {
    ClearTimerInv(s, id, isInterval);
    var i := id.index;
    var x := s.timers.entries[i];
    if Clears(s.timers, id, isInterval) && x.phase != Destroy {
      UnlinkTimerInv(s, i);
      var u := UnlinkTimer(s, i);
      var e := TimerCleared(TimerRegOf(s.timers, i));
      var y := x.(phase := if x.destroy == Null then Free else Destroy);
      TimerMoves(s.timers.entries, s.log, s.nextSerial, i, y, e, x.serial, s.nextSerial);
      hide Inv, SocketHistory, DispatchHistory, TimerHistory, Of, UnlinkTimer;
      OtherHistories(s, e, s.nextSerial);
      OfAppend(DispatchKind, u.pending, Ref(TimerKind, i));
    }
  }

  lemma AddSocketFrame(s: State, handle: int, action: nat, destroy: Handler, userdata: int)
    requires Inv(s) && s.sockets.free != []
    ensures var n := AddSocket(s, handle, action, destroy, userdata).0; var k := s.sockets; var i := k.pollSize;
      && i < |k.entries| == |k.pollfd| && i !in k.used
      && |n.sockets.entries| == |k.entries| && n.sockets.entries == k.entries[i := n.sockets.entries[i]]
      && n.sockets.entries[i].phase == Used && n.sockets.entries[i].serial == s.nextSerial
      && n.sockets.pollfd == k.pollfd[i := Pollfd(handle, 0, 0)]
      && n.sockets.used == k.used && n.sockets.pollSize == i + 1 && n.pollTimeout == s.pollTimeout && n.nextSerial == s.nextSerial + 1
      && n.log == s.log + [SocketAdded(SocketReg(s.nextSerial, handle, action, destroy, userdata))]
  {
    hide TimerInv, DispatchInv, Of;
  }

  lemma AddSocketOwn(s: State, handle: int, action: nat, destroy: Handler, userdata: int)
    requires Good(s) && s.sockets.free != []
    ensures var n := AddSocket(s, handle, action, destroy, userdata).0;
      SocketHistory(n.sockets, n.running, n.log, n.nextSerial)
  {
    var n := AddSocket(s, handle, action, destroy, userdata).0;
    var e := SocketAdded(SocketReg(s.nextSerial, handle, action, destroy, userdata));
    hide TimerInv, DispatchInv, DispatchHistory, TimerHistory, Of;
    AddSocketFrame(s, handle, action, destroy, userdata);
    SocketMoves(s.sockets, s.running, s.log, s.nextSerial, s.sockets.pollSize, n.sockets, s.running, e, s.nextSerial, n.nextSerial);
  }

  lemma AddSocketGood(s: State, handle: int, action: nat, destroy: Handler, userdata: int)
    requires Good(s)
    ensures Good(AddSocket(s, handle, action, destroy, userdata).0)
  {
    hide TimerInv, SocketInv, DispatchInv, SocketHistory, DispatchHistory, TimerHistory, Of;
    AddSocketInv(s, handle, action, destroy, userdata);
    if s.sockets.free != [] {
      AddSocketOwn(s, handle, action, destroy, userdata);
      OtherHistories(s, SocketAdded(SocketReg(s.nextSerial, handle, action, destroy, userdata)), s.nextSerial + 1);
      OfAppend(DispatchKind, s.pending, Ref(SocketKind, s.sockets.free[0]));
    }
  }

  /** What its removal does to the life of a socket. */
  lemma EndLife(k: Sockets, running: Option<nat>, i: nat, k': Sockets, q: SocketLife)
    requires i < |k.entries| == |k.pollfd| == |k'.entries| && k'.pollfd == k.pollfd
    requires k.entries[i].phase in {Used, Action} && SlotLife(k, running, i, q)
    requires k'.entries[i] == k.entries[i].(phase := if k.entries[i].destroy == Null then Free else Destroy)
    ensures var q' := SocketNext(q, SocketRemoved(SocketRegOf(k, i)));
      q' != Misused && SlotLife(k', running, i, q') && (Unserved(q') ==> Counted(k', running, i))
  {
  }

  lemma SlotSerial(s: State, i: nat)
    requires Good(s) && i < s.sockets.pollSize && s.sockets.entries[i].phase in {Used, Action}
    ensures s.sockets.entries[i].serial < s.nextSerial
  {
  }

  lemma EndSocketOwn(s: State, i: nat)
    requires Good(s) && i < s.sockets.pollSize && s.sockets.entries[i].phase in {Used, Action}
    ensures var n := EndSocket(s, i); SocketHistory(n.sockets, n.running, n.log, n.nextSerial)
  {
    hide TimerInv, DispatchInv, SocketInv, DispatchHistory, TimerHistory, Of, UnlinkSocket, SlotLife, SocketNext;
    var n := EndSocket(s, i);
    var e := SocketRemoved(SocketRegOf(s.sockets, i));
    var serial := s.sockets.entries[i].serial;
    UnlinkSocketInv(s, i);
    SlotSerial(s, i);
    EndLife(s.sockets, s.running, i, n.sockets, SocketLifeOf(s.log, serial));
    SocketMoves(s.sockets, s.running, s.log, s.nextSerial, i, n.sockets, s.running, e, serial, s.nextSerial);
  }

  lemma RemoveSocketGood(s: State, handle: int)
    requires Good(s)
    ensures Good(RemoveSocket(s, handle).0)
  {
    RemoveSocketInv(s, handle);
    var i := FindSocket(s.sockets, handle, 0);
    hide TimerHistory, DispatchHistory, SocketHistory, EndSocket;
    if i < s.sockets.pollSize && s.sockets.entries[i].phase !in {Destroy, Free} {
      EndSocketGood(s, i);
    }
  }

  lemma EndSocketGood(s: State, i: nat)
    requires Good(s) && i < s.sockets.pollSize <= |s.sockets.entries| == |s.sockets.pollfd|
    requires s.sockets.entries[i].phase in {Used, Action}
    ensures Good(EndSocket(s, i))
  {
    hide TimerInv, SocketInv, DispatchInv, SocketHistory, DispatchHistory, TimerHistory, Of, UnlinkSocket;
    EndSocketInv(s, i);
    EndSocketOwn(s, i);
    UnlinkSocketInv(s, i);
    OfAppend(DispatchKind, UnlinkSocket(s, i).pending, Ref(SocketKind, i));
    OtherHistories(s, SocketRemoved(SocketRegOf(s.sockets, i)), s.nextSerial);
  }

  lemma DispatchOwn(s: State, action: nat, destroy: Handler, userdata: int)
    requires Good(s) && s.dispatches.free != []
    ensures var n := Dispatch(s, action, destroy, userdata).0;
      DispatchHistory(n.dispatches, Of(DispatchKind, n.pending), n.log)
  {
    hide TimerInv, SocketInv, SocketHistory, TimerHistory, DispatchHistory, Of;
    var i := s.dispatches.free[0];
    assert i in s.dispatches.free;
    AcceptDispatchHistory(s.dispatches, Of(DispatchKind, s.pending), s.log, i, Dispatch(s, action, destroy, userdata).0.dispatches);
    OfAppend(DispatchKind, s.pending, Ref(DispatchKind, i));
  }

  lemma DispatchGood(s: State, action: nat, destroy: Handler, userdata: int)
    requires Good(s)
    ensures Good(Dispatch(s, action, destroy, userdata).0)
  {
    hide TimerInv, SocketInv, DispatchInv, SocketHistory, TimerHistory, DispatchHistory, Of;
    DispatchStepInv(s, action, destroy, userdata);
    if s.dispatches.free != [] {
      DispatchOwn(s, action, destroy, userdata);
      OtherHistories(s, Dispatched(DispatchReg(s.nextSerial, action, destroy, userdata)), s.nextSerial + 1);
    }
  }

  /** What the return of its handler does to the life of a socket. */
  lemma ReturnLife(k: Sockets, i: nat, events: int, q: SocketLife)
    requires i < |k.entries| == |k.pollfd| && k.entries[i].phase != Used && SlotLife(k, Some(i), i, q)
    ensures var k' := k.(pollfd := k.pollfd[i := k.pollfd[i].(events := events)]);
      var q' := SocketNext(q, SocketReturned(SocketRegOf(k, i), events));
      q' != Misused && SlotLife(k', None, i, q') && (Unserved(q') ==> Counted(k', None, i))
  {
  }

  lemma ReturnOwn(s: State, events: int)
    requires Good(s) && s.running.Some?
    ensures var n := Return(s, events); SocketHistory(n.sockets, n.running, n.log, n.nextSerial)
  {
    hide TimerInv, DispatchInv, SocketInv, TimerHistory, DispatchHistory, Of, SlotLife, SocketNext;
    var i, n := s.running.value, Return(s, events);
    var e := SocketReturned(SocketRegOf(s.sockets, i), events);
    var serial := s.sockets.entries[i].serial;
    assert SlotLife(s.sockets, s.running, i, SocketLifeOf(s.log, serial));
    ReturnLife(s.sockets, i, events, SocketLifeOf(s.log, serial));
    assert serial < s.nextSerial by { ReturnSerial(s); }
    SocketMoves(s.sockets, s.running, s.log, s.nextSerial, i, n.sockets, None, e, serial, s.nextSerial);
  }

  lemma ReturnSerial(s: State)
    requires Good(s) && s.running.Some?
    ensures s.running.value < |s.sockets.entries| && s.sockets.entries[s.running.value].serial < s.nextSerial
  {
  }

  lemma ReturnGood(s: State, events: int)
    requires Good(s) && s.running.Some?
    ensures Good(Return(s, events))
  {
    hide TimerInv, DispatchInv, SocketHistory, TimerHistory, DispatchHistory, Of;
    ReturnInv(s, events);
    ReturnOwn(s, events);
    OtherHistories(s, SocketReturned(SocketRegOf(s.sockets, s.running.value), events), s.nextSerial);
  }

  lemma PollGood(s: State, reports: seq<int>)
    requires Good(s) && |reports| == s.sockets.pollSize
    ensures Good(Poll(s, reports))
  {
    PollInv(s, reports);
    if s.pollTimeout != 0 {
      var k, n := s.sockets, Poll(s, reports);
      PolledHistory(k, reports, k.pollSize, s.log, s.nextSerial);
      ReportsAside(k, n.sockets, n.log, n.nextSerial);
      hide Inv, SocketHistory, DispatchHistory, TimerHistory, Of;
      PollsOther(s, reports, k.pollSize);
    }
  }

  /** Polls concern neither timers nor dispatches. */
  lemma {:induction false} PollsOther(s: State, reports: seq<int>, n: nat)
    requires Good(s) && n <= |s.sockets.entries| == |s.sockets.pollfd| && n <= |reports|
    ensures TimerHistory(s.timers.entries, s.log + PollEvents(s.sockets, reports, n), s.nextSerial)
    ensures DispatchHistory(s.dispatches, Of(DispatchKind, s.pending), s.log + PollEvents(s.sockets, reports, n))
  {
    hide Inv, SocketHistory, DispatchHistory, TimerHistory, Of;
    if n == 0 {
      assert s.log + [] == s.log;
    } else {
      PollsOther(s, reports, n - 1);
      var l, k, i := s.log + PollEvents(s.sockets, reports, n - 1), s.sockets, n - 1;
      if k.entries[i].phase == Free {
        assert s.log + PollEvents(k, reports, n) == l;
      } else {
        var e := SocketPolled(SocketRegOf(k, i), k.pollfd[i].events, reports[i]);
        assert s.log + PollEvents(k, reports, n) == l + [e];
        TimerOther(s.timers.entries, l, s.nextSerial, e, s.nextSerial);
        DispatchOther(s.dispatches, Of(DispatchKind, s.pending), l, e);
      }
    }
  }

  lemma ApplyGood(s: State, step: Step)
    requires Good(s) && Enabled(s, step)
    ensures Good(Apply(s, step))
  {
    hide Inv, TimerHistory, SocketHistory, DispatchHistory, NextEvent, Return, Poll, SetTimer, ClearTimer, AddSocket, RemoveSocket,
      Dispatch;
    match step {
      case NextEventStep(now) => NextEventGood(s, now);
      case ReturnStep(events) => ReturnGood(s, events);
      case PollStep(reports) => PollGood(s, reports);
      case SetTimerStep(actionTime, interval, action, destroy, userdata) =>
        SetTimerGood(s, actionTime, interval, action, destroy, userdata);
      case ClearTimerStep(id, isInterval) => ClearTimerGood(s, id, isInterval);
      case AddSocketStep(handle, action, destroy, userdata) => AddSocketGood(s, handle, action, destroy, userdata);
      case RemoveSocketStep(handle) => RemoveSocketGood(s, handle);
      case DispatchStep(action, destroy, userdata) => DispatchGood(s, action, destroy, userdata);
    }
  }

  // ---------- whole runs

  /** `steps` can be taken one after the other from `s`. */
  ghost predicate Runs(s: State, steps: seq<Step>)
    requires Inv(s)
    decreases |steps|
  {
    steps == [] || (Enabled(s, steps[0]) && (ApplyInv(s, steps[0]); Runs(Apply(s, steps[0]), steps[1..])))
  }

  ghost function After(s: State, steps: seq<Step>): State
    requires Inv(s) && Runs(s, steps)
    decreases |steps|
  {
    if steps == [] then s else
      ApplyInv(s, steps[0]);
      After(Apply(s, steps[0]), steps[1..])
  }

  lemma BlankGood(timerLimit: nat, socketLimit: nat, dispatchLimit: nat)
    ensures Good(Blank(timerLimit, socketLimit, dispatchLimit))
  {
    BlankInv(timerLimit, socketLimit, dispatchLimit);
  }

  lemma CreateGood(timerLimit: nat, socketLimit: nat, dispatchLimit: nat, wakeup: int, wakeupAction: nat, thiz: int)
    ensures var r := Create(timerLimit, socketLimit, dispatchLimit, wakeup, wakeupAction, thiz);
      && (r.Some? <==> timerLimit <= 0xFFFF && socketLimit <= 0xFFFE && dispatchLimit <= 0xFFFF)
      && (r.Some? ==> Good(r.value) && r.value.sockets.pollSize == 1 && r.value.pending == [Ref(SocketKind, 0)])
  {
    hide TimerInv, DispatchInv, SocketInv, TimerHistory, SocketHistory, DispatchHistory, Of;
    var limit := if socketLimit == 0 then 1 else socketLimit;
    BlankGood(timerLimit, limit, dispatchLimit);
    var blank := Blank(timerLimit, limit, dispatchLimit);
    AddSocketGood(blank, wakeup, wakeupAction, Null, thiz);
    BlankInv(timerLimit, limit, dispatchLimit);
    assert blank.sockets.free[0] == 0;
  }

  /** Every state of every run is accounted for. */
  lemma {:induction false} RunsGood(s: State, steps: seq<Step>)
    requires Good(s) && Runs(s, steps)
    ensures Good(After(s, steps))
    decreases |steps|
  {
    if steps != [] {
      ApplyInv(s, steps[0]);
      ApplyGood(s, steps[0]);
      RunsGood(Apply(s, steps[0]), steps[1..]);
    }
  }

  /** After any run from creation: every entry is in the one list its state says, and every timer,
      socket and dispatch has lived as it should. */
  lemma EveryRun(timerLimit: nat, socketLimit: nat, dispatchLimit: nat, wakeup: int, wakeupAction: nat, thiz: int, steps: seq<Step>)
    requires timerLimit <= 0xFFFF && socketLimit <= 0xFFFE && dispatchLimit <= 0xFFFF
    ensures var r := Create(timerLimit, socketLimit, dispatchLimit, wakeup, wakeupAction, thiz);
      r.Some? && Inv(r.value) && (Runs(r.value, steps) ==>
        var s := After(r.value, steps);
        && Inv(s)
        && (forall n: nat :: TimerLifeOf(s.log, n) != Wrong)
        && (forall n: nat :: SocketLifeOf(s.log, n) != Misused)
        && DispatchHistory(s.dispatches, Of(DispatchKind, s.pending), s.log))
  {
    CreateGood(timerLimit, socketLimit, dispatchLimit, wakeup, wakeupAction, thiz);
    var s := Create(timerLimit, socketLimit, dispatchLimit, wakeup, wakeupAction, thiz).value;
    hide Create, TimerInv, SocketInv, DispatchInv, Of;
    if Runs(s, steps) {
      RunsGood(s, steps);
    }
  }

  // ---------- what the histories promise

  /** Dispatches run first in, first out, each at most once, and so do their destroy handlers; those
      that have not run are exactly the ones still waiting in the pending list, in order. */
  lemma DispatchOrder(s: State)
    requires Good(s)
    ensures Ran(s.log) <= Accepted(s.log)
    ensures Destroyed(s.log) <= WithDestroy(Ran(s.log))
    ensures Of(DispatchKind, s.pending) == [] ==>
              Ran(s.log) == Accepted(s.log) && Destroyed(s.log) == WithDestroy(Ran(s.log))
  {
  }

  predicate EndsTimer(e: Event) {
    e.TimerCleared? || e.TimerDestroyed?
  }

  /** Once a timer has been cleared or destroyed nothing more is heard of it; in particular it never
      fires again. */
  lemma {:induction false} TimerSilent(log: seq<Event>, n: nat, i: nat, j: nat)
    requires TimerLifeOf(log, n) != Wrong && i < j < |log|
    requires TimerSerial(log[i]) == Some(n) && EndsTimer(log[i])
    ensures TimerSerial(log[j]) != Some(n)
  {
    TimerOver(log, n, i);
    TimerOverAt(log, n, i, j);
  }

  lemma {:induction false} TimerOver(log: seq<Event>, n: nat, i: nat)
    requires TimerLifeOf(log, n) != Wrong && i < |log|
    requires TimerSerial(log[i]) == Some(n) && EndsTimer(log[i])
    ensures TimerLifeOf(log[..i + 1], n) == Over
  {
    PrefixNotWrong(log, n, i + 1);
    assert log[..i + 1][..i] == log[..i];
  }

  lemma {:induction false} PrefixNotWrong(log: seq<Event>, n: nat, i: nat)
    requires TimerLifeOf(log, n) != Wrong && i <= |log|
    ensures TimerLifeOf(log[..i], n) != Wrong
  {
    if i < |log| {
      var front := log[..|log| - 1];
      PrefixNotWrong(front, n, i);
      assert front[..i] == log[..i];
    } else {
      assert log[..i] == log;
    }
  }

  lemma {:induction false} TimerOverAt(log: seq<Event>, n: nat, i: nat, j: nat)
    requires TimerLifeOf(log, n) != Wrong && i < j < |log| && TimerLifeOf(log[..i + 1], n) == Over
    ensures TimerSerial(log[j]) != Some(n) && TimerLifeOf(log[..j + 1], n) == Over
    decreases j
  {
    PrefixNotWrong(log, n, j + 1);
    if j > i + 1 {
      TimerOverAt(log, n, i, j - 1);
    }
    assert log[..j + 1][..j] == log[..j];
  }

  /** A timer set with interval 0 fires at most once. */
  lemma {:induction false} OneShotFiresOnce(log: seq<Event>, n: nat, i: nat, j: nat)
    requires TimerLifeOf(log, n) != Wrong && i < j < |log|
    requires log[i].TimerFired? && log[i].timer.serial == n && log[i].timer.interval == 0
    ensures !(log[j].TimerFired? && log[j].timer.serial == n)
  {
    PrefixNotWrong(log, n, i + 1);
    assert log[..i + 1][..i] == log[..i];
    SpentAt(log, n, i, j);
  }

  lemma {:induction false} SpentAt(log: seq<Event>, n: nat, i: nat, j: nat)
    requires TimerLifeOf(log, n) != Wrong && i < j < |log|
    requires TimerLifeOf(log[..i + 1], n).Fired? || TimerLifeOf(log[..i + 1], n).Over?
    ensures !(log[j].TimerFired? && log[j].timer.serial == n)
    ensures TimerLifeOf(log[..j + 1], n).Fired? || TimerLifeOf(log[..j + 1], n).Over?
    decreases j
  {
    PrefixNotWrong(log, n, j + 1);
    if j > i + 1 {
      SpentAt(log, n, i, j - 1);
    }
    assert log[..j + 1][..j] == log[..j];
  }

  lemma {:induction false} PrefixNotMisused(log: seq<Event>, n: nat, i: nat)
    requires SocketLifeOf(log, n) != Misused && i <= |log|
    ensures SocketLifeOf(log[..i], n) != Misused
  {
    if i < |log| {
      var front := log[..|log| - 1];
      PrefixNotMisused(front, n, i);
      assert front[..i] == log[..i];
    } else {
      assert log[..i] == log;
    }
  }

  predicate EndsSocket(e: Event) {
    e.SocketRemoved? || e.SocketDestroyed? || (e.SocketReturned? && e.events == 0)
  }

  /** Once a socket was removed, or its handler has returned 0, the handler is never called again; once
      it was destroyed nothing more is heard of it, so the destroy handler runs at most once. */
  lemma {:induction false} SocketSilent(log: seq<Event>, n: nat, i: nat, j: nat)
    requires SocketLifeOf(log, n) != Misused && i < j < |log|
    requires SocketSerial(log[i]) == Some(n) && EndsSocket(log[i])
    ensures SocketSerial(log[j]) == Some(n) ==> !log[j].SocketCalled? && !log[j].SocketAdded?
    ensures log[i].SocketDestroyed? ==> SocketSerial(log[j]) != Some(n)
  {
    PrefixNotMisused(log, n, i + 1);
    assert log[..i + 1][..i] == log[..i];
    EndedAt(log, n, i, j);
  }

  lemma {:induction false} EndedAt(log: seq<Event>, n: nat, i: nat, j: nat)
    requires SocketLifeOf(log, n) != Misused && i < j < |log|
    requires SocketLifeOf(log[..i + 1], n).Ended? || SocketLifeOf(log[..i + 1], n).Gone?
    ensures SocketLifeOf(log[..i + 1], n).Gone? ==> SocketLifeOf(log[..j + 1], n).Gone? && SocketSerial(log[j]) != Some(n)
    ensures SocketLifeOf(log[..j + 1], n).Ended? || SocketLifeOf(log[..j + 1], n).Gone?
    ensures SocketSerial(log[j]) == Some(n) ==> !log[j].SocketCalled? && !log[j].SocketAdded?
    decreases j
  {
    PrefixNotMisused(log, n, j + 1);
    if j > i + 1 {
      EndedAt(log, n, i, j - 1);
    }
    assert log[..j + 1][..j] == log[..j];
  }

  /** A destroy handler only runs when there is one, after the socket has ended and while its action
      handler is not running. */
  lemma SocketDestroyedAfterEnd(log: seq<Event>, n: nat, j: nat)
    requires SocketLifeOf(log, n) != Misused && j < |log| && SocketSerial(log[j]) == Some(n) && log[j].SocketDestroyed?
    ensures log[j].socket.destroy != Null && SocketLifeOf(log[..j], n) == Ended(log[j].socket, false)
  {
    PrefixNotMisused(log, n, j + 1);
    assert log[..j + 1][..j] == log[..j];
  }
}
