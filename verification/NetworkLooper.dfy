/** The looper as the object it is in libnetq/NetworkLooper.c: entry arrays and a poll array that are
    overwritten in place, and lists that entries move between. Each method is proved against its
    counterpart in LooperSteps. */
module NetworkLooper {
  import opened Words
  import opened Seqs
  import opened Rings
  import opened LooperModel
  import opened LooperInvariant
  import opened LooperSteps
  import opened LooperSafety

  /** The loops that add every entry to the back of its free list. */
  method LinkAll(n: nat) returns (list: seq<nat>)
    ensures list == Range(n)
  {
    list := [];
    for i := 0 to n
      invariant |list| == i && forall j :: 0 <= j < i ==> list[j] == j
    {
      list := list + [i];
    }
  }

  class Looper {
    const timerEntries: array<TimerEntry>
    const socketEntries: array<SocketEntry>
    const dispatchEntries: array<DispatchEntry>
    const pollfd: array<Pollfd>

    var pollTimeout: int
    var pollSize: nat
    var pendingList: seq<Ref>
    var usedTimerList: seq<nat>
    var freeTimerList: seq<nat>
    var usedSocketList: seq<nat>
    var freeSocketList: seq<nat>
    var freeDispatchList: seq<nat>

    var nextSerial: nat
    var running: Option<nat>
    ghost var log: seq<Event>

    ghost function TimersView(): Timers
      reads this`usedTimerList, this`freeTimerList, timerEntries
    {
      Timers(timerEntries[..], usedTimerList, freeTimerList)
    }

    ghost function SocketsView(): Sockets
      reads this`pollSize, this`usedSocketList, this`freeSocketList, socketEntries, pollfd
    {
      Sockets(socketEntries[..], pollfd[..], pollSize, usedSocketList, freeSocketList)
    }

    ghost function DispatchesView(): Dispatches
      reads this`freeDispatchList, dispatchEntries
    {
      Dispatches(dispatchEntries[..], freeDispatchList)
    }

    ghost function View(): State
      reads this, timerEntries, socketEntries, dispatchEntries, pollfd
    {
      State(pendingList, TimersView(), SocketsView(), DispatchesView(), pollTimeout, running, nextSerial, log)
    }

    ghost predicate Valid()
      reads this, timerEntries, socketEntries, dispatchEntries, pollfd
    {
      && Inv(View())
      && timerEntries as object != socketEntries as object && timerEntries as object != dispatchEntries as object
      && timerEntries as object != pollfd as object && socketEntries as object != dispatchEntries as object
      && socketEntries as object != pollfd as object && dispatchEntries as object != pollfd as object
    }

    /** insertTimer: walk the used list and link entry `i` before the first later one. */
    method InsertTimer(i: nat, x: TimerEntry)
      requires i < timerEntries.Length && Sorted(TimersView())
      modifies this`usedTimerList, timerEntries
      ensures TimersView() == LooperModel.InsertTimer(old(TimersView()), i, x)
    {
      ghost var t := TimersView();
      var k := 0;
      while k < |usedTimerList| && timerEntries[usedTimerList[k]].actionTime <= x.actionTime
        invariant k <= |usedTimerList|
        invariant InsertPosition(t, x.actionTime, k) == InsertPosition(t, x.actionTime, 0)
      {
        k := k + 1;
      }
      usedTimerList := InsertAt(usedTimerList, k, i);
      timerEntries[i] := x;
    }

    /** The kTimerIn.. cases of the switch in nextEvent. */
    method TimerCase(i: nat) returns (event: Option<Event>)
      requires i < timerEntries.Length && Sorted(TimersView())
      modifies this`pendingList, this`usedTimerList, this`freeTimerList, timerEntries
      ensures var p := PopTimer(old(TimersView()), i);
        && TimersView() == p.part && event == p.event
        && pendingList == old(pendingList) + BackOf(Ref(TimerKind, i), p.back)
    {
      var x := timerEntries[i];
      event := None;
      match x.phase {
        case Action =>
          if x.interval != 0 {
            InsertTimer(i, x.(phase := Used, actionTime := x.actionTime + x.interval));
          } else if x.destroy == Null {
            timerEntries[i] := x.(phase := Free);
            freeTimerList := freeTimerList + [i];
          } else {
            timerEntries[i] := x.(phase := Destroy);
            pendingList := pendingList + [Ref(TimerKind, i)];
            event := Some(TimerDestroyed(TimerReg(x.serial, x.interval, x.action, x.destroy, x.userdata)));
          }
        case Destroy =>
          timerEntries[i] := x.(phase := Free);
          freeTimerList := freeTimerList + [i];
        case _ =>
      }
    }

    /** The kSocketIn.. cases. */
    method SocketCase(i: nat) returns (event: Option<Event>)
      requires i < socketEntries.Length == pollfd.Length
      modifies this`pendingList, this`usedSocketList, socketEntries
      ensures var p := LooperModel.PopSocket(old(SocketsView()), i);
        && SocketsView() == p.part && event == p.event
        && pendingList == old(pendingList) + BackOf(Ref(SocketKind, i), p.back)
    {
      var x := socketEntries[i];
      event := None;
      match x.phase {
        case Used =>
          socketEntries[i] := x.(phase := Action);
          pendingList := pendingList + [Ref(SocketKind, i)];
          event := Some(SocketCalled(SocketReg(x.serial, pollfd[i].fd, x.action, x.destroy, x.userdata), pollfd[i].revents));
        case Action =>
          if pollfd[i].events != 0 {
            socketEntries[i] := x.(phase := Used);
            usedSocketList := usedSocketList + [i];
          } else if x.destroy == Null {
            socketEntries[i] := x.(phase := Free);
            usedSocketList := usedSocketList + [i];
          } else {
            socketEntries[i] := x.(phase := Destroy);
            pendingList := pendingList + [Ref(SocketKind, i)];
          }
        case Destroy =>
          socketEntries[i] := x.(phase := Free);
          usedSocketList := usedSocketList + [i];
          event := Some(SocketDestroyed(SocketReg(x.serial, pollfd[i].fd, x.action, x.destroy, x.userdata)));
        case _ =>
      }
    }

    /** The kDispatchIn.. cases. */
    method DispatchCase(i: nat) returns (event: Option<Event>)
      requires i < dispatchEntries.Length
      modifies this`pendingList, this`freeDispatchList, dispatchEntries
      ensures var p := LooperModel.PopDispatch(old(DispatchesView()), i);
        && DispatchesView() == p.part && event == p.event
        && pendingList == old(pendingList) + BackOf(Ref(DispatchKind, i), p.back)
    {
      var x := dispatchEntries[i];
      event := None;
      match x.phase {
        case Used =>
          dispatchEntries[i] := x.(phase := Action);
          pendingList := pendingList + [Ref(DispatchKind, i)];
          event := Some(DispatchRun(DispatchReg(x.serial, x.action, x.destroy, x.userdata)));
        case Action =>
          if x.destroy == Null {
            dispatchEntries[i] := x.(phase := Free);
            freeDispatchList := freeDispatchList + [i];
          } else {
            dispatchEntries[i] := x.(phase := Destroy);
            pendingList := pendingList + [Ref(DispatchKind, i)];
            event := Some(DispatchDestroyed(DispatchReg(x.serial, x.action, x.destroy, x.userdata)));
          }
        case Destroy =>
          dispatchEntries[i] := x.(phase := Free);
          freeDispatchList := freeDispatchList + [i];
        case _ =>
      }
    }

    method Announce(event: Option<Event>)
      modifies this`pollTimeout, this`log
      ensures View() == Record(old(View()), event)
    {
      if event.Some? {
        pollTimeout := 0;
        log := log + [event.value];
      }
    }

    /** One turn of the loop over the pending list. */
    method PopHead() returns (event: Option<Event>)
      requires Valid() && pendingList != [] && InRange(View(), pendingList[0])
      modifies this, timerEntries, socketEntries, dispatchEntries
      ensures Valid() && Outcome(View(), event) == Pop(old(View()))
    {
      hide Inv, PopTimer, LooperModel.PopSocket, LooperModel.PopDispatch, LooperModel.Record;
      PopInv(View());
      InvSorted(View());
      var r := pendingList[0];
      pendingList := pendingList[1..];
      match r.kind {
        case TimerKind =>
          event := TimerCase(r.index);
        case SocketKind =>
          event := SocketCase(r.index);
          if event.Some? && event.value.SocketCalled? {
            running := Some(r.index);
          }
        case DispatchKind =>
          event := DispatchCase(r.index);
      }
      Announce(event);
    }

    /** The tombstone at `i` is overwritten by the last polled slot. */
    method DropSlot(i: nat)
      requires i < pollSize <= socketEntries.Length == pollfd.Length && usedSocketList != []
      modifies this`pollSize, this`usedSocketList, this`freeSocketList, this`pendingList, socketEntries, pollfd
      ensures SocketsView() == DropTombstone(old(SocketsView()), i)
      ensures pendingList == TransposeAll(Ref(SocketKind, i), Ref(SocketKind, old(pollSize) - 1), old(pendingList))
    {
      pollSize := pollSize - 1;
      var last := pollSize;
      if i != last {
        pollfd[i] := pollfd[last];
        usedSocketList := TransposeAll(i, last, usedSocketList);
        pendingList := TransposeAll(Ref(SocketKind, i), Ref(SocketKind, last), pendingList);
        socketEntries[i] := socketEntries[last].(nonce := socketEntries[i].nonce);
        socketEntries[last] := socketEntries[last].(phase := Free);
      } else {
        assert TransposeAll(Ref(SocketKind, i), Ref(SocketKind, last), pendingList) == pendingList;
      }
      usedSocketList := usedSocketList[1..];
      freeSocketList := [last] + freeSocketList;
    }

    /** One turn of the walk over the used socket list. */
    method WalkStep()
      requires Valid() && usedSocketList != [] && running.None?
      requires usedSocketList[0] < pollSize <= socketEntries.Length == pollfd.Length
      modifies this, socketEntries, pollfd
      ensures Valid() && View() == CompactStep(old(View()))
    {
      hide Inv, DropTombstone, TransposeAll;
      CompactStepInv(View());
      var i := usedSocketList[0];
      if socketEntries[i].phase == Used {
        pollfd[i] := pollfd[i].(revents := 0);
        usedSocketList := usedSocketList[1..];
        pendingList := pendingList + [Ref(SocketKind, i)];
      } else {
        DropSlot(i);
      }
    }

    /** nextEvent: lines 358-506. The event tells which callback the worker has to run. */
    method NextEvent(now: int) returns (event: Option<Event>)
      requires Valid() && running.None?
      modifies this, timerEntries, socketEntries, dispatchEntries, pollfd
      ensures Valid() && Outcome(View(), event) == LooperSteps.NextEvent(old(View()), now)
    {
      ghost var s := View();
      hide TimerInv, SocketInv, DispatchInv, Drain;
      NextEventInv(s, now);
      if usedTimerList == [] {
        pollTimeout := -1;
      } else {
        InvSorted(s);
        var i := usedTimerList[0];
        pollTimeout := ToInt32(timerEntries[i].actionTime - now);
        if pollTimeout <= 0 {
          event := FireTimer();
          return;
        }
      }
      event := DrainPending();
    }

    /** The first timer is due. */
    method FireTimer() returns (event: Option<Event>)
      requires Valid() && usedTimerList != []
      modifies this, timerEntries
      ensures Sorted(old(TimersView())) && old(usedTimerList[0]) < timerEntries.Length
      ensures Valid() && View() == LooperModel.FireTimer(old(View()))
      ensures event == Some(TimerFired(TimerRegOf(old(TimersView()), old(usedTimerList[0]))))
    {
      InvSorted(View());
      FireInv(View());
      hide Inv;
      var i := usedTimerList[0];
      var x := timerEntries[i];
      usedTimerList := usedTimerList[1..];
      timerEntries[i] := x.(phase := Action);
      pendingList := pendingList + [Ref(TimerKind, i)];
      event := Some(TimerFired(TimerReg(x.serial, x.interval, x.action, x.destroy, x.userdata)));
      Announce(event);
      pollTimeout := 0;
    }

    /** The loop over the pending list, then the walk over the used socket list. */
    method DrainPending() returns (event: Option<Event>)
      requires Valid() && running.None?
      modifies this, timerEntries, socketEntries, dispatchEntries, pollfd
      ensures Valid() && Outcome(View(), event) == Drain(old(View()))
    {
      hide TimerInv, SocketInv, DispatchInv, Of, Pop, CompactStep;
      ghost var s := View();
      while pendingList != []
        invariant Valid() && running.None? && Drain(View()) == Drain(s)
        decreases ActionSockets(View()), |pendingList|
      {
        PopInv(View());
        PopRunning(View());
        event := PopHead();
        if event.Some? {
          return;
        }
      }
      ghost var t := View();
      while usedSocketList != []
        invariant Valid() && running.None? && Compact(View()) == Compact(t)
        decreases |usedSocketList|
      {
        CompactStepInv(View());
        WalkStep();
      }
      event := None;
    }

    // ---------- the public operations

    /** What NQNetworkLooper_create allocates and links: lines 232-274. */
    constructor (timerLimit: nat, socketLimit: nat, dispatchLimit: nat)
      ensures Valid() && fresh(timerEntries) && fresh(socketEntries) && fresh(dispatchEntries) && fresh(pollfd)
      ensures View() == Blank(timerLimit, socketLimit, dispatchLimit)
    {
      timerEntries := new TimerEntry[timerLimit](_ => TimerEntry(Free, 1, 0, 0, 0, Null, 0, 0));
      socketEntries := new SocketEntry[socketLimit](_ => SocketEntry(Free, 1, 0, Null, 0, 0));
      dispatchEntries := new DispatchEntry[dispatchLimit](_ => DispatchEntry(Free, 1, 0, Null, 0, 0));
      pollfd := new Pollfd[socketLimit](_ => Pollfd(0, 0, 0));
      pollTimeout, pollSize, nextSerial := 0, 0, 0;
      pendingList, usedTimerList, usedSocketList := [], [], [];
      running, log := None, [];
      var freeTimers := LinkAll(timerLimit);
      var freeSockets := LinkAll(socketLimit);
      var freeDispatches := LinkAll(dispatchLimit);
      freeTimerList, freeSocketList, freeDispatchList := freeTimers, freeSockets, freeDispatches;
      new;
      BlankInv(timerLimit, socketLimit, dispatchLimit);
      assert timerEntries[..] == seq(timerLimit, _ => TimerEntry(Free, 1, 0, 0, 0, Null, 0, 0));
      assert socketEntries[..] == seq(socketLimit, _ => SocketEntry(Free, 1, 0, Null, 0, 0));
      assert dispatchEntries[..] == seq(dispatchLimit, _ => DispatchEntry(Free, 1, 0, Null, 0, 0));
      assert pollfd[..] == seq(socketLimit, _ => Pollfd(0, 0, 0));
    }

    method SetTimer(actionTime: int, interval: int, action: nat, destroy: Handler, userdata: int) returns (id: nat)
      requires Valid()
      modifies this, timerEntries
      ensures Valid() && (View(), id) == LooperSteps.SetTimer(old(View()), actionTime, interval, action, destroy, userdata)
    {
      hide TimerInv, SocketInv, DispatchInv, Of;
      SetTimerInv(View(), actionTime, interval, action, destroy, userdata);
      if freeTimerList == [] {
        return 0;
      }
      FreeTimerSorted(View());
      var i := freeTimerList[0];
      assert i in freeTimerList;
      hide Inv;
      var x := TimerEntry(Used, NextNonce(timerEntries[i].nonce), interval, actionTime, action, destroy, userdata, nextSerial);
      freeTimerList := freeTimerList[1..];
      InsertTimer(i, x);
      id := IdValue(i, x.nonce);
      log := log + [TimerSet(TimerReg(nextSerial, interval, action, destroy, userdata), actionTime)];
      nextSerial := nextSerial + 1;
    }

    /** NQNetworkLooper_setTimeout and NQNetworkLooper_setInterval; `now` is the clock. */
    method SetTimeout(now: int, delay: int, action: nat, destroy: Handler, userdata: int) returns (id: nat)
      requires Valid()
      modifies this, timerEntries
      ensures Valid() && (View(), id) == LooperSteps.SetTimer(old(View()), now + delay, 0, action, destroy, userdata)
    {
      id := SetTimer(now + delay, 0, action, destroy, userdata);
    }

    method SetInterval(now: int, delay: int, action: nat, destroy: Handler, userdata: int) returns (id: nat)
      requires Valid()
      modifies this, timerEntries
      ensures Valid() && (View(), id) == LooperSteps.SetTimer(old(View()), now + delay, delay, action, destroy, userdata)
    {
      id := SetTimer(now + delay, delay, action, destroy, userdata);
    }

    method ClearTimer(id: Id, isInterval: bool) returns (cleared: bool)
      requires Valid() && Enabled(View(), ClearTimerStep(id, isInterval))
      modifies this, timerEntries
      ensures Valid() && (View(), cleared) == LooperSteps.ClearTimer(old(View()), id, isInterval)
    {
      hide Inv;
      ClearTimerInv(View(), id, isInterval);
      var i := id.index;
      var x := timerEntries[i];
      if x.nonce != id.nonce || (x.interval != 0) != isInterval {
        return false;
      }
      if x.phase != Destroy {
        RemoveTimer(i);
        log := log + [TimerCleared(TimerReg(x.serial, x.interval, x.action, x.destroy, x.userdata))];
        if x.destroy == Null {
          timerEntries[i] := x.(phase := Free);
          freeTimerList := freeTimerList + [i];
        } else {
          timerEntries[i] := x.(phase := Destroy);
          pendingList := pendingList + [Ref(TimerKind, i)];
        }
      }
      cleared := true;
    }

    /** NQListHead_remove for a timer: it leaves the list its links are in. */
    method RemoveTimer(i: nat)
      requires Valid() && i < timerEntries.Length
      modifies this`usedTimerList, this`pendingList
      ensures View() == UnlinkTimer(old(View()), i)
    {
      hide Inv;
      if timerEntries[i].phase == Used {
        UsedTimerListed(View(), i);
        usedTimerList := RemoveAt(usedTimerList, IndexOf(usedTimerList, i));
      } else if Ref(TimerKind, i) in pendingList {
        pendingList := RemoveAt(pendingList, IndexOf(pendingList, Ref(TimerKind, i)));
      }
    }

    method AddSocket(handle: int, action: nat, destroy: Handler, userdata: int) returns (added: bool)
      requires Valid()
      modifies this, socketEntries, pollfd
      ensures Valid() && (View(), added) == LooperSteps.AddSocket(old(View()), handle, action, destroy, userdata)
    {
      hide TimerInv, DispatchInv, Of;
      AddSocketInv(View(), handle, action, destroy, userdata);
      if freeSocketList == [] {
        return false;
      }
      var i := freeSocketList[0];
      assert i == pollSize < socketEntries.Length;
      hide Inv;
      var nonce := NextNonce(socketEntries[i].nonce);
      socketEntries[i] := SocketEntry(Used, nonce, action, destroy, userdata, nextSerial);
      pollSize := pollSize + 1;
      pollfd[i] := Pollfd(handle, 0, 0);
      freeSocketList := freeSocketList[1..];
      pendingList := pendingList + [Ref(SocketKind, i)];
      log := log + [SocketAdded(SocketReg(nextSerial, handle, action, destroy, userdata))];
      nextSerial := nextSerial + 1;
      added := IdValue(i, nonce) != 0;
    }

    method RemoveSocket(handle: int) returns (removed: bool)
      requires Valid()
      modifies this, socketEntries
      ensures Valid() && (View(), removed) == LooperSteps.RemoveSocket(old(View()), handle)
    {
      ghost var s := View();
      RemoveSocketInv(s, handle);
      hide TimerInv, DispatchInv, Of, UnlinkSocket;
      var i := 0;
      while i < pollSize && pollfd[i].fd != handle
        invariant i <= pollSize && FindSocket(s.sockets, handle, i) == FindSocket(s.sockets, handle, 0)
      {
        i := i + 1;
      }
      removed := i < pollSize;
      if removed && socketEntries[i].phase != Destroy && socketEntries[i].phase != Free {
        DetachSocket(i);
      }
    }

    /** Lines 737-747 of removeSocket. */
    method DetachSocket(i: nat)
      requires i < socketEntries.Length == pollfd.Length
      modifies this, socketEntries
      ensures View() == EndSocket(old(View()), i)
    {
      var x := socketEntries[i];
      UnlinkSocketFrame(View(), i);
      hide UnlinkSocket;
      RemoveSocketLink(i);
      log := log + [SocketRemoved(SocketReg(x.serial, pollfd[i].fd, x.action, x.destroy, x.userdata))];
      if x.destroy == Null {
        socketEntries[i] := x.(phase := Free);
        usedSocketList := usedSocketList + [i];
      } else {
        socketEntries[i] := x.(phase := Destroy);
        pendingList := pendingList + [Ref(SocketKind, i)];
      }
    }

    /** NQListHead_remove for a socket: it leaves the list its links are in. */
    method RemoveSocketLink(i: nat)
      modifies this`usedSocketList, this`pendingList
      ensures View() == UnlinkSocket(old(View()), i)
    {
      if i in usedSocketList {
        usedSocketList := RemoveAt(usedSocketList, IndexOf(usedSocketList, i));
      } else if Ref(SocketKind, i) in pendingList {
        pendingList := RemoveAt(pendingList, IndexOf(pendingList, Ref(SocketKind, i)));
      }
    }

    method Dispatch(action: nat, destroy: Handler, userdata: int) returns (accepted: bool)
      requires Valid()
      modifies this, dispatchEntries
      ensures Valid() && (View(), accepted) == LooperSteps.Dispatch(old(View()), action, destroy, userdata)
    {
      DispatchStepInv(View(), action, destroy, userdata);
      if freeDispatchList == [] {
        return false;
      }
      var i := freeDispatchList[0];
      assert i in freeDispatchList;
      hide Inv;
      var nonce := NextNonce(dispatchEntries[i].nonce);
      dispatchEntries[i] := DispatchEntry(Used, nonce, action, destroy, userdata, nextSerial);
      freeDispatchList := freeDispatchList[1..];
      pendingList := pendingList + [Ref(DispatchKind, i)];
      log := log + [Dispatched(DispatchReg(nextSerial, action, destroy, userdata))];
      nextSerial := nextSerial + 1;
      accepted := IdValue(i, nonce) != 0;
    }

    /** The socket handler that nextEvent asked for has returned `events`. */
    method HandlerReturned(i: nat, events: int)
      requires Valid() && running == Some(i)
      modifies this`running, this`log, pollfd
      ensures Valid() && View() == Return(old(View()), events)
    {
      ReturnInv(View(), events);
      log := log + [SocketReturned(SocketRegOf(SocketsView(), i), events)];
      pollfd[i] := pollfd[i].(events := events);
      running := None;
    }

    /** NQNetworkLooper_poll; the system call waits for `waited` and writes `reports` into the polled slots. */
    method Poll(timeout: int, reports: seq<int>) returns (waited: Option<int>)
      requires Valid() && |reports| == pollSize
      modifies this`pollTimeout, this`log, pollfd
      ensures Valid() && View() == LooperSteps.Poll(old(View()), reports)
      ensures waited == if old(pollTimeout) == 0 then None else Some(PollWait(old(pollTimeout), timeout))
    {
      if pollTimeout == 0 {
        return None;
      }
      PollInv(View(), reports);
      assert pollSize <= socketEntries.Length == pollfd.Length;
      hide Inv;
      var wait := timeout;
      if timeout == -1 {
        wait := pollTimeout;
      } else if pollTimeout != -1 && pollTimeout < timeout {
        wait := pollTimeout;
      }
      log := log + PollEvents(SocketsView(), reports, pollSize);
      WriteReports(reports);
      pollTimeout := 0;
      waited := Some(wait);
    }

    /** What the system call writes. */
    method WriteReports(reports: seq<int>)
      requires |reports| == pollSize <= pollfd.Length
      modifies pollfd
      ensures pollfd[..] == Reported(old(SocketsView()), reports, pollSize).pollfd
    {
      ghost var k := SocketsView();
      for i := 0 to pollSize
        invariant pollfd[..] == Reported(k, reports, i).pollfd
      {
        pollfd[i] := pollfd[i].(revents := reports[i]);
      }
    }

    /** NQNetworkLooper_performOnce2 with callbacks that make no calls of their own; `reply` is what a
        socket handler returns. The result is the poll timeout. */
    method PerformOnce2(now: int, reply: int) returns (timeout: int)
      requires Valid() && running.None?
      modifies this, timerEntries, socketEntries, dispatchEntries, pollfd
      ensures Valid() && running.None? && timeout == pollTimeout
      ensures var o := LooperSteps.NextEvent(old(View()), now).state;
        Inv(o) && View() == if o.running.Some? then Return(o, reply) else o
    {
      var event := NextEvent(now);
      if running.Some? {
        HandlerReturned(running.value, reply);
      }
      timeout := pollTimeout;
    }
  }
}
