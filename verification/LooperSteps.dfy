/** The operations of libnetq/NetworkLooper.c as functions from state to state, and runs of them. */
module LooperSteps {
  import opened Words
  import opened Seqs
  import opened Rings
  import opened LooperModel
  import opened LooperInvariant

  // ---------- nextEvent

  ghost function ActionSockets(s: State): set<nat> {
    set i: nat | i < |s.sockets.entries| && s.sockets.entries[i].phase == Action
  }

  /** The pending list after its head `r` was handled, kind by kind. */
  lemma PopPending(kind: Kind, p: seq<Ref>, back: bool)
    requires p != []
    ensures Of(kind, p) == Only(kind, p[0]) + Of(kind, p[1..])
    ensures Of(kind, p[1..] + BackOf(p[0], back)) == Of(kind, p[1..]) + (if back then Only(kind, p[0]) else [])
  {
    OfConcat(kind, p[1..], BackOf(p[0], back));
    assert [p[0]][1..] == [];
    assert Of(kind, p[1..]) + [] == Of(kind, p[1..]);
  }

  lemma PopTimerStep(s: State)
    requires Inv(s) && s.pending != [] && s.pending[0].kind == TimerKind
    ensures InRange(s, s.pending[0])
    ensures TimerInv(Pop(s).state.timers, Of(TimerKind, Pop(s).state.pending))
    ensures Of(SocketKind, Pop(s).state.pending) == Of(SocketKind, s.pending)
    ensures Of(DispatchKind, Pop(s).state.pending) == Of(DispatchKind, s.pending)
    ensures Pop(s).event.None? ==> |Pop(s).state.pending| < |s.pending|
  {
    assert Sorted(s.timers);
    hide TimerInv, SocketInv, DispatchInv, Of, PopTimer;
    var i, rest := s.pending[0].index, Of(TimerKind, s.pending[1..]);
    PopPending(TimerKind, s.pending, false);
    assert Of(TimerKind, s.pending) == [i] + rest;
    PopTimerInv(s.timers, i, rest);
    var back := PopTimer(s.timers, i).back;
    PopPending(TimerKind, s.pending, back);
    PopPending(SocketKind, s.pending, back);
    PopPending(DispatchKind, s.pending, back);
  }

  lemma PopSocketStep(s: State)
    requires Inv(s) && s.pending != [] && s.pending[0].kind == SocketKind
    ensures InRange(s, s.pending[0])
    ensures SocketInv(Pop(s).state.sockets, Of(SocketKind, Pop(s).state.pending))
    ensures Pop(s).state.sockets.pollSize == s.sockets.pollSize && s.pending[0].index < s.sockets.pollSize
    ensures Of(TimerKind, Pop(s).state.pending) == Of(TimerKind, s.pending)
    ensures Of(DispatchKind, Pop(s).state.pending) == Of(DispatchKind, s.pending)
    ensures Pop(s).event.None? ==> s.sockets.entries[s.pending[0].index].phase == Action
  {
    hide Of;
    var i, rest := s.pending[0].index, Of(SocketKind, s.pending[1..]);
    PopPending(SocketKind, s.pending, false);
    assert Of(SocketKind, s.pending) == [i] + rest;
    PopSocketInv(s.sockets, i, rest);
    assert i in [i] + rest;
    assert PopSocket(s.sockets, i).event.None? ==> s.sockets.entries[i].phase == Action;
    hide SocketInv, DispatchInv, PopSocket;
    var back := PopSocket(s.sockets, i).back;
    PopPending(TimerKind, s.pending, back);
    PopPending(SocketKind, s.pending, back);
    PopPending(DispatchKind, s.pending, back);
  }

  lemma PopDispatchStep(s: State)
    requires Inv(s) && s.pending != [] && s.pending[0].kind == DispatchKind
    ensures InRange(s, s.pending[0])
    ensures DispatchInv(Pop(s).state.dispatches, Of(DispatchKind, Pop(s).state.pending))
    ensures Of(TimerKind, Pop(s).state.pending) == Of(TimerKind, s.pending)
    ensures Of(SocketKind, Pop(s).state.pending) == Of(SocketKind, s.pending)
    ensures Pop(s).event.None? ==> |Pop(s).state.pending| < |s.pending|
  {
    hide TimerInv, SocketInv, Of;
    var i, rest := s.pending[0].index, Of(DispatchKind, s.pending[1..]);
    PopPending(DispatchKind, s.pending, false);
    assert Of(DispatchKind, s.pending) == [i] + rest;
    PopDispatchInv(s.dispatches, i, rest);
    var back := PopDispatch(s.dispatches, i).back;
    PopPending(TimerKind, s.pending, back);
    PopPending(SocketKind, s.pending, back);
    PopPending(DispatchKind, s.pending, back);
  }

  lemma PopInv(s: State)
    requires Inv(s) && s.pending != []
    ensures InRange(s, s.pending[0])
    ensures Inv(Pop(s).state)
    ensures Pop(s).event.None? ==>
              || ActionSockets(Pop(s).state) < ActionSockets(s)
              || (ActionSockets(Pop(s).state) == ActionSockets(s) && |Pop(s).state.pending| < |s.pending|)
  {
    hide Of;
    match s.pending[0].kind {
      case TimerKind => PopTimerStep(s);
      case SocketKind =>
        PopSocketStep(s);
        var i := s.pending[0].index;
        if Pop(s).event.None? {
          assert i in ActionSockets(s) && i !in ActionSockets(Pop(s).state);
        }
      case DispatchKind => PopDispatchStep(s);
    }
  }

  /** Only a socket's action handler is left running. */
  lemma PopRunning(s: State)
    requires Inv(s) && s.pending != []
    ensures InRange(s, s.pending[0])
    ensures Pop(s).event.None? ==> Pop(s).state.running == s.running
  {
    PopInv(s);
  }

  lemma FireInv(s: State)
    requires Inv(s) && s.timers.used != []
    ensures Inv(FireTimer(s))
  {
    var r := Ref(TimerKind, s.timers.used[0]);
    OfAppend(TimerKind, s.pending, r);
    OfAppend(SocketKind, s.pending, r);
    OfAppend(DispatchKind, s.pending, r);
    FireTimerInv(s.timers, Of(TimerKind, s.pending));
  }

  lemma CompactStepInv(s: State)
    requires Inv(s) && s.sockets.used != [] && s.running.None?
    ensures s.sockets.used[0] < s.sockets.pollSize <= |s.sockets.entries| == |s.sockets.pollfd|
    ensures Inv(CompactStep(s)) && |CompactStep(s).sockets.used| == |s.sockets.used| - 1
    ensures CompactStep(s).running == s.running
  {
    var k := s.sockets;
    var i := k.used[0];
    assert i in k.used;
    var pend := Of(SocketKind, s.pending);
    if k.entries[i].phase == Used {
      var r := Ref(SocketKind, i);
      OfAppend(TimerKind, s.pending, r);
      OfAppend(SocketKind, s.pending, r);
      OfAppend(DispatchKind, s.pending, r);
      KeepSocketInv(k, pend);
    } else {
      DropTombstoneStep(s);
    }
  }

  lemma DropTombstoneStep(s: State)
    requires Inv(s) && s.sockets.used != [] && s.running.None?
    requires s.sockets.used[0] < s.sockets.pollSize && s.sockets.entries[s.sockets.used[0]].phase == Free
    ensures Inv(CompactStep(s))
  {
    hide TimerInv, DispatchInv, Of;
    var k := s.sockets;
    var i := k.used[0];
    OfTranspose(TimerKind, s.pending, i, k.pollSize - 1);
    OfTranspose(SocketKind, s.pending, i, k.pollSize - 1);
    OfTranspose(DispatchKind, s.pending, i, k.pollSize - 1);
    DropTombstoneInv(k, Of(SocketKind, s.pending));
  }

  /** The walk over the used socket list: lines 474-502. */
  function Compact(s: State): State
    requires Inv(s) && s.running.None?
    decreases |s.sockets.used|
  {
    if s.sockets.used == [] then s else
      CompactStepInv(s);
      Compact(CompactStep(s))
  }

  /** The loop over the pending list, then the compaction: lines 377-505. */
  function Drain(s: State): Outcome
    requires Inv(s) && s.running.None?
    decreases ActionSockets(s), |s.pending|
  {
    if s.pending == [] then Outcome(Compact(s), None) else
      PopInv(s);
      var p := Pop(s);
      if p.event.Some? then p else Drain(p.state)
  }

  /** nextEvent: lines 358-506. */
  function NextEvent(s: State, now: int): Outcome
    requires Inv(s) && s.running.None?
  {
    if s.timers.used == [] then Drain(s.(pollTimeout := -1)) else
      var first := s.timers.used[0];
      var timeout := ToInt32(s.timers.entries[first].actionTime - now);
      if timeout <= 0 then
        Outcome(FireTimer(s), Some(TimerFired(TimerRegOf(s.timers, first))))
      else
        Drain(s.(pollTimeout := timeout))
  }

  /** The two ways nextEvent can go: the first timer fires, or the pending list is worked off. */
  function SleepOf(s: State, now: int): int
    requires Inv(s)
  {
    InvSorted(s);
    if s.timers.used == [] then -1 else ToInt32(s.timers.entries[s.timers.used[0]].actionTime - now)
  }

  predicate FirstFires(s: State, now: int)
    requires Inv(s)
  {
    s.timers.used != [] && SleepOf(s, now) <= 0
  }

  lemma NextEventIs(s: State, now: int)
    requires Inv(s) && s.running.None?
    ensures Sorted(s.timers) && (s.timers.used != [] ==> s.timers.used[0] < |s.timers.entries|)
    ensures FirstFires(s, now) ==> NextEvent(s, now) == Outcome(FireTimer(s), Some(TimerFired(TimerRegOf(s.timers, s.timers.used[0]))))
    ensures !FirstFires(s, now) ==>
      Inv(s.(pollTimeout := SleepOf(s, now))) && NextEvent(s, now) == Drain(s.(pollTimeout := SleepOf(s, now)))
  {
    InvSorted(s);
    hide TimerInv, SocketInv, DispatchInv, Of, Drain;
  }

  lemma CompactInv(s: State)
    requires Inv(s) && s.running.None?
    ensures Inv(Compact(s)) && Compact(s).running.None?
    decreases |s.sockets.used|
  {
    if s.sockets.used != [] {
      CompactStepInv(s);
      CompactInv(CompactStep(s));
    }
  }

  lemma DrainInv(s: State)
    requires Inv(s) && s.running.None?
    ensures Inv(Drain(s).state)
    decreases ActionSockets(s), |s.pending|
  {
    if s.pending == [] {
      CompactInv(s);
    } else {
      PopInv(s);
      if Pop(s).event.None? {
        DrainInv(Pop(s).state);
      }
    }
  }

  lemma NextEventInv(s: State, now: int)
    requires Inv(s) && s.running.None?
    ensures Inv(NextEvent(s, now).state)
  {
    if s.timers.used == [] {
      DrainInv(s.(pollTimeout := -1));
    } else {
      assert s.timers.used[0] in s.timers.used;
      var timeout := ToInt32(s.timers.entries[s.timers.used[0]].actionTime - now);
      if timeout <= 0 {
        FireInv(s);
      } else {
        DrainInv(s.(pollTimeout := timeout));
      }
    }
  }

  // ---------- the public operations

  datatype Id = Id(index: nat, nonce: nat)

  /** setTimer: lines 609-638. The result is the id's value, or 0 when no entry is free. */
  function SetTimer(s: State, actionTime: int, interval: int, action: nat, destroy: Handler, userdata: int): (State, nat)
    requires Inv(s)
  {
    var t := s.timers;
    if t.free == [] then (s, 0) else
      assert t.free[0] in t.free;
      var i := t.free[0];
      var e := TimerEntry(Used, NextNonce(t.entries[i].nonce), interval, actionTime, action, destroy, userdata, s.nextSerial);
      (s.(timers := InsertTimer(t.(free := t.free[1..]), i, e),
          nextSerial := s.nextSerial + 1,
          log := s.log + [TimerSet(TimerReg(s.nextSerial, interval, action, destroy, userdata), actionTime)]),
       IdValue(i, e.nonce))
  }

  /** The entry that clearTimer acts on: the id and the kind of timer must match. */
  predicate Clears(t: Timers, id: Id, isInterval: bool)
    requires id.index < |t.entries|
  {
    t.entries[id.index].nonce == id.nonce && (t.entries[id.index].interval != 0) == isInterval
  }

  /** NQListHead_remove on whatever list entry `i` is in: the used list or the pending list. */
  function UnlinkTimer(s: State, i: nat): State
    requires Inv(s) && i < |s.timers.entries|
  {
    if s.timers.entries[i].phase == Used then
      s.(timers := s.timers.(used := RemoveAt(s.timers.used, IndexOf(s.timers.used, i))))
    else if Ref(TimerKind, i) in s.pending then
      s.(pending := RemoveAt(s.pending, IndexOf(s.pending, Ref(TimerKind, i))))
    else
      s
  }

  /** clearTimer: lines 640-669. Clearing the id of a freed timer is excluded, as line 653 asserts. */
  function ClearTimer(s: State, id: Id, isInterval: bool): (State, bool)
    requires Inv(s) && id.index < |s.timers.entries|
    requires Clears(s.timers, id, isInterval) ==> s.timers.entries[id.index].phase != Free
  {
    var i := id.index;
    var e := s.timers.entries[i];
    if !Clears(s.timers, id, isInterval) then (s, false)
    else if e.phase == Destroy then (s, true)
    else
      var u := UnlinkTimer(s, i);
      var log := s.log + [TimerCleared(TimerRegOf(s.timers, i))];
      if e.destroy == Null then
        (u.(timers := u.timers.(entries := u.timers.entries[i := e.(phase := Free)], free := u.timers.free + [i]), log := log), true)
      else
        (u.(timers := u.timers.(entries := u.timers.entries[i := e.(phase := Destroy)]),
            pending := u.pending + [Ref(TimerKind, i)], log := log), true)
  }

  /** NQNetworkLooper_addSocket: lines 691-725. */
  function AddSocket(s: State, handle: int, action: nat, destroy: Handler, userdata: int): (State, bool)
    requires Inv(s)
  {
    var k := s.sockets;
    if k.free == [] then (s, false) else
      var i := k.free[0];
      var e := SocketEntry(Used, NextNonce(k.entries[i].nonce), action, destroy, userdata, s.nextSerial);
      (s.(sockets := k.(entries := k.entries[i := e], pollfd := k.pollfd[i := Pollfd(handle, 0, 0)],
                        pollSize := k.pollSize + 1, free := k.free[1..]),
          pending := s.pending + [Ref(SocketKind, i)],
          nextSerial := s.nextSerial + 1,
          log := s.log + [SocketAdded(SocketReg(s.nextSerial, handle, action, destroy, userdata))]),
       IdValue(i, e.nonce) != 0)
  }

  /** The first polled slot with descriptor `handle`, or pollSize. */
  function FindSocket(k: Sockets, handle: int, from: nat): (r: nat)
    requires from <= k.pollSize <= |k.pollfd|
    ensures from <= r <= k.pollSize
    ensures forall i :: from <= i < r ==> k.pollfd[i].fd != handle
    ensures r < k.pollSize ==> k.pollfd[r].fd == handle
    decreases k.pollSize - from
  {
    if from == k.pollSize || k.pollfd[from].fd == handle then from else FindSocket(k, handle, from + 1)
  }

  /** NQListHead_remove on whatever list socket `i` is in. */
  function UnlinkSocket(s: State, i: nat): State {
    if i in s.sockets.used then
      s.(sockets := s.sockets.(used := RemoveAt(s.sockets.used, IndexOf(s.sockets.used, i))))
    else if Ref(SocketKind, i) in s.pending then
      s.(pending := RemoveAt(s.pending, IndexOf(s.pending, Ref(SocketKind, i))))
    else
      s
  }

  /** The socket in slot `i` goes to its destroy handler, or becomes a tombstone: lines 737-747. */
  function EndSocket(s: State, i: nat): State
    requires i < |s.sockets.entries| == |s.sockets.pollfd|
  {
    var u := UnlinkSocket(s, i);
    var e := s.sockets.entries[i];
    var log := s.log + [SocketRemoved(SocketRegOf(s.sockets, i))];
    if e.destroy == Null then
      u.(sockets := u.sockets.(entries := s.sockets.entries[i := e.(phase := Free)], used := u.sockets.used + [i]), log := log)
    else
      u.(sockets := u.sockets.(entries := s.sockets.entries[i := e.(phase := Destroy)]),
         pending := u.pending + [Ref(SocketKind, i)], log := log)
  }

  /** NQNetworkLooper_removeSocket: lines 727-756. */
  function RemoveSocket(s: State, handle: int): (State, bool)
    requires Inv(s)
  {
    var i := FindSocket(s.sockets, handle, 0);
    if i == s.sockets.pollSize then (s, false)
    else if s.sockets.entries[i].phase in {Destroy, Free} then (s, true)
    else (EndSocket(s, i), true)
  }

  /** NQNetworkLooper_dispatch: lines 758-783. */
  function Dispatch(s: State, action: nat, destroy: Handler, userdata: int): (State, bool)
    requires Inv(s)
  {
    var d := s.dispatches;
    if d.free == [] then (s, false) else
      assert d.free[0] in d.free;
      var i := d.free[0];
      var e := DispatchEntry(Used, NextNonce(d.entries[i].nonce), action, destroy, userdata, s.nextSerial);
      (s.(dispatches := d.(entries := d.entries[i := e], free := d.free[1..]),
          pending := s.pending + [Ref(DispatchKind, i)],
          nextSerial := s.nextSerial + 1,
          log := s.log + [Dispatched(DispatchReg(s.nextSerial, action, destroy, userdata))]),
       IdValue(i, e.nonce) != 0)
  }

  /** The socket handler that is executing returns: line 536 of performOnce2. */
  function Return(s: State, events: int): State
    requires Inv(s) && s.running.Some?
  {
    var i := s.running.value;
    var k := s.sockets;
    s.(sockets := k.(pollfd := k.pollfd[i := k.pollfd[i].(events := events)]), running := None,
       log := s.log + [SocketReturned(SocketRegOf(k, i), events)])
  }

  /** What the poll of the first `n` slots tells: the descriptors still in use, with what was asked for and what
      was seen. */
  function PollEvents(k: Sockets, reports: seq<int>, n: nat): seq<Event>
    requires n <= |k.entries| == |k.pollfd| && n <= |reports|
  {
    if n == 0 then [] else
      PollEvents(k, reports, n - 1)
      + if k.entries[n - 1].phase == Free then [] else [SocketPolled(SocketRegOf(k, n - 1), k.pollfd[n - 1].events, reports[n - 1])]
  }

  /** The slots after the poll has written the first `n` reports. */
  function Reported(k: Sockets, reports: seq<int>, n: nat): (r: Sockets)
    requires n <= |k.pollfd| && n <= |reports|
    ensures |r.pollfd| == |k.pollfd|
    ensures forall i :: 0 <= i < |k.pollfd| ==> r.pollfd[i] == if i < n then k.pollfd[i].(revents := reports[i]) else k.pollfd[i]
  {
    k.(pollfd := seq(|k.pollfd|, i requires 0 <= i < |k.pollfd| => if i < n then k.pollfd[i].(revents := reports[i]) else k.pollfd[i]))
  }

  /** NQNetworkLooper_poll: lines 575-588. The system call writes `reports` into the revents of the polled slots. */
  function Poll(s: State, reports: seq<int>): State
    requires Inv(s) && |reports| == s.sockets.pollSize
  {
    if s.pollTimeout == 0 then s else
      s.(sockets := Reported(s.sockets, reports, s.sockets.pollSize), pollTimeout := 0,
         log := s.log + PollEvents(s.sockets, reports, s.sockets.pollSize))
  }

  /** How long the system call may wait, -1 being for ever: lines 580-583. */
  function PollWait(pollTimeout: int, timeout: int): int {
    if timeout == -1 then pollTimeout
    else if pollTimeout != -1 then (if pollTimeout < timeout then pollTimeout else timeout)
    else timeout
  }

  // ---------- creation and runs

  /** The lists and entries that NQNetworkLooper_create sets up, before it adds its wakeup socket. */
  function Blank(timerLimit: nat, socketLimit: nat, dispatchLimit: nat): State {
    State([],
          Timers(seq(timerLimit, _ => TimerEntry(Free, 1, 0, 0, 0, Null, 0, 0)), [], Range(timerLimit)),
          Sockets(seq(socketLimit, _ => SocketEntry(Free, 1, 0, Null, 0, 0)), seq(socketLimit, _ => Pollfd(0, 0, 0)),
                  0, [], Range(socketLimit)),
          Dispatches(seq(dispatchLimit, _ => DispatchEntry(Free, 1, 0, Null, 0, 0)), Range(dispatchLimit)),
          0, None, 0, [])
  }

  lemma BlankInv(timerLimit: nat, socketLimit: nat, dispatchLimit: nat)
    ensures Inv(Blank(timerLimit, socketLimit, dispatchLimit))
  {
    var s := Blank(timerLimit, socketLimit, dispatchLimit);
    forall i: nat ensures i in s.timers.free <==> TimerIs(s.timers, i, {Free}) {
      if i < timerLimit { assert s.timers.free[i] == i; }
    }
    forall i: nat ensures i in s.dispatches.free <==> DispatchIs(s.dispatches, i, {Free}) {
      if i < dispatchLimit { assert s.dispatches.free[i] == i; }
    }
  }

  /** NQNetworkLooper_create: lines 206-279; `wakeup` is the descriptor of the wakeup event and
      `wakeupAction` its handler. */
  function Create(timerLimit: nat, socketLimit: nat, dispatchLimit: nat, wakeup: int, wakeupAction: nat, thiz: int): Option<State> {
    if 0xFFFF < timerLimit || 0xFFFE < socketLimit || 0xFFFF < dispatchLimit then None else
      var blank := Blank(timerLimit, if socketLimit == 0 then 1 else socketLimit, dispatchLimit);
      BlankInv(timerLimit, if socketLimit == 0 then 1 else socketLimit, dispatchLimit);
      Some(AddSocket(blank, wakeup, wakeupAction, Null, thiz).0)
  }

  /** One call from outside, one `nextEvent`, the return of a socket handler, or a poll. */
  datatype Step =
    | NextEventStep(now: int)
    | ReturnStep(events: int)
    | PollStep(reports: seq<int>)
    | SetTimerStep(actionTime: int, interval: int, action: nat, destroy: Handler, userdata: int)
    | ClearTimerStep(id: Id, isInterval: bool)
    | AddSocketStep(handle: int, action: nat, destroy: Handler, userdata: int)
    | RemoveSocketStep(handle: int)
    | DispatchStep(action: nat, destroy: Handler, userdata: int)

  predicate Enabled(s: State, step: Step) {
    match step
    case NextEventStep(_) => s.running.None?
    case ReturnStep(_) => s.running.Some?
    case PollStep(reports) => |reports| == s.sockets.pollSize
    case ClearTimerStep(id, isInterval) =>
      && id.index < |s.timers.entries|
      && (Clears(s.timers, id, isInterval) ==> s.timers.entries[id.index].phase != Free)
    case _ => true
  }

  function Apply(s: State, step: Step): State
    requires Inv(s) && Enabled(s, step)
  {
    match step
    case NextEventStep(now) => NextEvent(s, now).state
    case ReturnStep(events) => Return(s, events)
    case PollStep(reports) => Poll(s, reports)
    case SetTimerStep(actionTime, interval, action, destroy, userdata) =>
      SetTimer(s, actionTime, interval, action, destroy, userdata).0
    case ClearTimerStep(id, isInterval) => ClearTimer(s, id, isInterval).0
    case AddSocketStep(handle, action, destroy, userdata) => AddSocket(s, handle, action, destroy, userdata).0
    case RemoveSocketStep(handle) => RemoveSocket(s, handle).0
    case DispatchStep(action, destroy, userdata) => Dispatch(s, action, destroy, userdata).0
  }
}
