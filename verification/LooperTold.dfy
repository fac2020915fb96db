/** What socket handlers and polls are told: a handler gets what the poll before has seen at its descriptor, and a poll
    asks for what the handler has answered last. */
module LooperTold {
  import opened Words
  import opened Seqs
  import opened Rings
  import opened LooperModel
  import opened LooperInvariant
  import opened LooperSteps
  import opened LooperSafety
  import opened LooperHistory
  import opened LooperRuns
  import opened LooperCompaction

  /** The events the handler of registration `n` has asked for last; none before it has run. */
  function LastAnswer(log: seq<Event>, n: nat): int {
    if log == [] then 0 else
      var e := log[|log| - 1];
      if e.SocketReturned? && e.socket.serial == n then e.events else LastAnswer(log[..|log| - 1], n)
  }

  /** What the last poll has seen for registration `n` and its handler has not been told; a report is told once. */
  function Unsent(log: seq<Event>, n: nat): int {
    if log == [] then 0 else
      var e := log[|log| - 1];
      if e.SocketPolled? && e.socket.serial == n then e.revents
      else if e.SocketCalled? && e.socket.serial == n then 0
      else Unsent(log[..|log| - 1], n)
  }

  lemma ToldAppend(log: seq<Event>, e: Event, n: nat)
    ensures LastAnswer(log + [e], n) == if e.SocketReturned? && e.socket.serial == n then e.events else LastAnswer(log, n)
    ensures Unsent(log + [e], n) ==
            if e.SocketPolled? && e.socket.serial == n then e.revents
            else if e.SocketCalled? && e.socket.serial == n then 0 else Unsent(log, n)
    ensures SocketSerial(e) != Some(n) ==> LastAnswer(log + [e], n) == LastAnswer(log, n) && Unsent(log + [e], n) == Unsent(log, n)
  {
    assert (log + [e])[..|log|] == log;
  }

  /** What an event tells is right after the events before it. */
  predicate Right(log: seq<Event>, e: Event) {
    match e
    case SocketCalled(r, revents) => revents == Unsent(log, r.serial)
    case SocketPolled(r, events, _) => events == LastAnswer(log, r.serial)
    case _ => true
  }

  ghost predicate Truthful(log: seq<Event>) {
    forall j :: 0 <= j < |log| ==> Right(log[..j], log[j])
  }

  lemma TruthfulAppend(log: seq<Event>, e: Event)
    requires Truthful(log) && Right(log, e)
    ensures Truthful(log + [e])
  {
    forall j | 0 <= j < |log| + 1 ensures Right((log + [e])[..j], (log + [e])[j]) {
      assert (log + [e])[..j] == log[..j];
      assert log[..|log|] == log;
    }
  }

  // ---------- the slots hold what is told

  /** A slot that waits for its turn holds the report that is still to be told; after its turn there is none. */
  predicate SlotTold(k: Sockets, log: seq<Event>, i: nat)
    requires i < |k.entries| == |k.pollfd|
  {
    var x, n := k.entries[i], k.entries[i].serial;
    x.phase != Free ==>
      && k.pollfd[i].events == LastAnswer(log, n)
      && (x.phase == Used && i !in k.used ==> k.pollfd[i].revents == Unsent(log, n))
      && (x.phase == Action || (x.phase == Used && i in k.used) ==> Unsent(log, n) == 0)
  }

  ghost predicate SocketsTold(k: Sockets, log: seq<Event>, next: nat) {
    && k.pollSize <= |k.entries| == |k.pollfd|
    && (forall i :: 0 <= i < k.pollSize ==> SlotTold(k, log, i))
    && (forall n: nat :: n >= next ==> LastAnswer(log, n) == 0 && Unsent(log, n) == 0)
    && Truthful(log)
  }

  /** Everything live waits for its turn: so it is when a poll is possible. */
  ghost predicate AllWait(k: Sockets)
    requires k.pollSize <= |k.entries|
  {
    forall i :: 0 <= i < k.pollSize ==> k.entries[i].phase != Action && (i in k.used ==> k.entries[i].phase == Free)
  }

  ghost predicate Told(s: State) {
    && Good(s) && SocketsTold(s.sockets, s.log, s.nextSerial)
    && (s.pollTimeout != 0 ==> AllWait(s.sockets))
  }

  lemma ToldOther(k: Sockets, log: seq<Event>, next: nat, e: Event, next': nat)
    requires SocketsTold(k, log, next) && SocketSerial(e).None? && next <= next'
    ensures SocketsTold(k, log + [e], next')
  {
    hide LastAnswer, Unsent;
    TruthfulAppend(log, e);
    forall n: nat ensures LastAnswer(log + [e], n) == LastAnswer(log, n) && Unsent(log + [e], n) == Unsent(log, n) {
      ToldAppend(log, e, n);
    }
    forall j | 0 <= j < k.pollSize ensures SlotTold(k, log + [e], j) {
      assert SlotTold(k, log, j);
    }
  }

  /** Slot `i` changes with an event of its registration. */
  lemma ToldMoves(k: Sockets, log: seq<Event>, next: nat, i: nat, k': Sockets, e: Event, next': nat)
    requires SocketsTold(k, log, next) && i < k'.pollSize <= |k'.entries| == |k'.pollfd| == |k.entries|
    requires SocketSerial(e) == Some(k'.entries[i].serial) && next <= next' && k'.entries[i].serial < next' && Right(log, e)
    requires forall j :: 0 <= j < k'.pollSize && j != i ==>
      && j < k.pollSize && k'.entries[j] == k.entries[j] && k'.pollfd[j] == k.pollfd[j] && (j in k'.used <==> j in k.used)
      && (k.entries[j].phase != Free ==> k.entries[j].serial != k'.entries[i].serial)
    requires SlotTold(k', log + [e], i)
    ensures SocketsTold(k', log + [e], next')
  {
    hide LastAnswer, Unsent;
    TruthfulAppend(log, e);
    forall n: nat | n != k'.entries[i].serial ensures LastAnswer(log + [e], n) == LastAnswer(log, n) && Unsent(log + [e], n) == Unsent(log, n) {
      ToldAppend(log, e, n);
    }
    forall j | 0 <= j < k'.pollSize && j != i ensures SlotTold(k', log + [e], j) {
      assert SlotTold(k, log, j);
    }
  }

  /** Slots change without an event. */
  lemma ToldQuiet(k: Sockets, log: seq<Event>, next: nat, i: nat, k': Sockets)
    requires SocketsTold(k, log, next) && k'.pollSize == k.pollSize && |k'.entries| == |k'.pollfd| == |k.entries|
    requires forall j :: 0 <= j < k.pollSize && j != i ==>
      k'.entries[j] == k.entries[j] && k'.pollfd[j] == k.pollfd[j] && (j in k'.used <==> j in k.used)
    requires i < k.pollSize && SlotTold(k', log, i)
    ensures SocketsTold(k', log, next)
  {
    hide LastAnswer, Unsent;
    forall j | 0 <= j < k.pollSize && j != i ensures SlotTold(k', log, j) {
      assert SlotTold(k, log, j);
    }
  }

  // ---------- nextEvent

  /** No other slot has the registration of slot `i`. */
  lemma OwnSerial(s: State, i: nat)
    requires Good(s) && i < s.sockets.pollSize && Counted(s.sockets, s.running, i)
    ensures s.sockets.entries[i].serial < s.nextSerial
    ensures forall j :: 0 <= j < s.sockets.pollSize && j != i && s.sockets.entries[j].phase != Free ==>
              s.sockets.entries[j].serial != s.sockets.entries[i].serial
  {
    hide TimerInv, DispatchInv, SocketInv, TimerHistory, DispatchHistory, Of;
    var k := s.sockets;
    assert SlotLife(k, s.running, i, SocketLifeOf(s.log, k.entries[i].serial));
    forall j | 0 <= j < k.pollSize && j != i && k.entries[j].phase != Free ensures k.entries[j].serial != k.entries[i].serial {
      assert Counted(k, s.running, j);
    }
  }

  lemma PopSocketTold(s: State)
    requires Good(s) && SocketsTold(s.sockets, s.log, s.nextSerial) && s.running.None?
    requires s.pending != [] && s.pending[0].kind == SocketKind
    ensures InRange(s, s.pending[0])
    ensures var n := Pop(s).state; SocketsTold(n.sockets, n.log, n.nextSerial)
  {
    var i := s.pending[0].index;
    hide Good, LastAnswer, Unsent, Truthful;
    GoodInv(s);
    PendingSocket(s);
    OwnSerial(s, i);
    hide Inv;
    var k, p := s.sockets, PopSocket(s.sockets, i);
    assert SlotTold(k, s.log, i);
    if p.event.Some? {
      ToldAppend(s.log, p.event.value, k.entries[i].serial);
      ToldMoves(k, s.log, s.nextSerial, i, p.part, p.event.value, s.nextSerial);
    } else {
      ToldQuiet(k, s.log, s.nextSerial, i, p.part);
    }
  }

  lemma GoodInv(s: State)
    requires Good(s)
    ensures Inv(s)
  {
  }

  lemma PendingSocket(s: State)
    requires Inv(s) && s.pending != [] && s.pending[0].kind == SocketKind
    ensures var i := s.pending[0].index;
      && Sorted(s.timers) && i < s.sockets.pollSize <= |s.sockets.entries| == |s.sockets.pollfd| && i !in s.sockets.used
      && s.sockets.entries[i].phase in {Used, Action, Destroy}
  {
    var i := s.pending[0].index;
    OfMember(SocketKind, s.pending, i);
    assert i in Of(SocketKind, s.pending);
  }

  lemma PopTold(s: State)
    requires Good(s) && SocketsTold(s.sockets, s.log, s.nextSerial) && s.running.None? && s.pending != []
    ensures InRange(s, s.pending[0])
    ensures var n := Pop(s).state; Good(n) && SocketsTold(n.sockets, n.log, n.nextSerial) && (Pop(s).event.None? ==> n.running.None?)
  {
    PopGood(s);
    if s.pending[0].kind == SocketKind {
      PopSocketTold(s);
    } else {
      PopAside(s);
      hide Good, SocketsTold, Pop;
      var e := Pop(s).event;
      if e.Some? { ToldOther(s.sockets, s.log, s.nextSerial, e.value, s.nextSerial); }
    }
  }

  lemma PopAside(s: State)
    requires Inv(s) && s.pending != [] && s.pending[0].kind != SocketKind
    ensures InRange(s, s.pending[0]) && Sorted(s.timers)
    ensures var o := Pop(s);
      && o.state.sockets == s.sockets && o.state.nextSerial == s.nextSerial
      && o.state.log == s.log + (if o.event.Some? then [o.event.value] else []) && (o.event.Some? ==> SocketSerial(o.event.value).None?)
  {
    PopInv(s);
    InvSorted(s);
    hide TimerInv, SocketInv, DispatchInv, Of, PopTimer, PopDispatch;
    var i := s.pending[0].index;
    if s.pending[0].kind == TimerKind { PopTimerEvent(s.timers, i); } else { PopDispatchEvent(s.dispatches, i); }
    assert s.log + [] == s.log;
  }

  lemma CompactStepTold(s: State)
    requires Good(s) && SocketsTold(s.sockets, s.log, s.nextSerial) && s.running.None? && s.sockets.used != []
    ensures s.sockets.used[0] < s.sockets.pollSize && Good(CompactStep(s))
    ensures var n := CompactStep(s); SocketsTold(n.sockets, n.log, n.nextSerial) && n.running.None?
  {
    CompactStepGood(s);
    CompactStepInv(s);
    var k, i := s.sockets, s.sockets.used[0];
    SlotsApart(s);
    hide Inv, TimerHistory, SocketHistory, DispatchHistory, LastAnswer, Unsent, Of;
    assert SlotTold(k, s.log, i);
    if k.entries[i].phase == Used {
      ToldQuiet(k, s.log, s.nextSerial, i, CompactStep(s).sockets);
    } else {
      DropTold(k, s.log, s.nextSerial);
    }
  }

  lemma SlotsApart(s: State)
    requires Inv(s) && s.sockets.used != []
    ensures s.sockets.used[0] !in s.sockets.used[1..] && NoDup(s.sockets.used)
    ensures forall j :: j in s.sockets.used && j != s.sockets.used[0] ==> j in s.sockets.used[1..]
    ensures s.sockets.used[0] in s.sockets.used && s.sockets.entries[s.sockets.used[0]].phase in {Used, Free}
  {
    TailMembers(s.sockets.used);
    assert s.sockets.used[0] in s.sockets.used;
  }

  lemma DropTold(k: Sockets, log: seq<Event>, next: nat)
    requires SocketsTold(k, log, next) && k.used != [] && NoDup(k.used) && k.used[0] < k.pollSize && k.entries[k.used[0]].phase == Free
    ensures SocketsTold(DropTombstone(k, k.used[0]), log, next)
  {
    hide LastAnswer, Unsent;
    var i, last, n := k.used[0], k.pollSize - 1, DropTombstone(k, k.used[0]);
    DropUsed(k);
    forall j | 0 <= j < n.pollSize ensures SlotTold(n, log, j) {
      assert SlotTold(k, log, Transpose(i, last, j));
    }
  }

  lemma DropUsed(k: Sockets)
    requires k.used != [] && NoDup(k.used) && k.used[0] < k.pollSize <= |k.entries| == |k.pollfd|
    ensures var n := DropTombstone(k, k.used[0]);
      forall j: nat :: j < n.pollSize ==> (j in n.used <==> Transpose(k.used[0], k.pollSize - 1, j) in k.used)
  {
    var i, last := k.used[0], k.pollSize - 1;
    TransposeMembers(i, last, k.used);
    TailMembers(TransposeAll(i, last, k.used));
    TailMembers(k.used);
    assert i == last ==> TransposeAll(i, last, k.used) == k.used;
  }

  lemma {:induction false} CompactTold(s: State)
    requires Good(s) && SocketsTold(s.sockets, s.log, s.nextSerial) && s.running.None?
    ensures var n := Compact(s);
      Good(n) && SocketsTold(n.sockets, n.log, n.nextSerial) && n.running.None? && n.sockets.used == []
    decreases |s.sockets.used|
  {
    hide TimerHistory, SocketHistory, DispatchHistory, SocketsTold, CompactStep;
    if s.sockets.used != [] {
      CompactStepInv(s);
      CompactStepTold(s);
      CompactTold(CompactStep(s));
    }
  }

  /** When nothing is left to do every socket waits for its turn. */
  lemma IdleWaits(s: State)
    requires Inv(s) && s.running.None? && s.pending == []
    ensures Inv(Compact(s)) && AllWait(Compact(s).sockets)
  {
    CompactInv(s);
    Compaction(s);
    hide TimerInv, DispatchInv, Of, LooperCompaction.Live;
    var n := Compact(s);
    forall i | 0 <= i < n.sockets.pollSize ensures n.sockets.entries[i].phase == Used {
      assert i in Of(SocketKind, n.pending);
    }
  }

  lemma {:induction false} DrainTold(s: State)
    requires Good(s) && SocketsTold(s.sockets, s.log, s.nextSerial) && s.running.None?
    ensures Told(Drain(s).state)
    ensures Drain(s).event.Some? ==> Drain(s).state.pollTimeout == 0
    decreases ActionSockets(s), |s.pending|
  {
    hide TimerHistory, SocketHistory, DispatchHistory, SocketsTold, TimerInv, SocketInv, DispatchInv, Of, AllWait;
    if s.pending == [] {
      CompactTold(s);
      IdleWaits(s);
    } else {
      InvSorted(s);
      PopInv(s);
      PopTold(s);
      if Pop(s).event.None? { DrainTold(Pop(s).state); }
    }
  }

  lemma SetTimeoutGood(s: State, timeout: int)
    requires Good(s) && s.running.None?
    ensures Good(s.(pollTimeout := timeout))
  {
    hide TimerHistory, SocketHistory, DispatchHistory, TimerInv, SocketInv, DispatchInv, Of;
  }

  lemma FireTold(s: State)
    requires Told(s) && s.timers.used != []
    ensures Sorted(s.timers) && Told(FireTimer(s))
  {
    InvSorted(s);
    FireGood(s);
    hide TimerHistory, SocketHistory, DispatchHistory, SocketsTold, TimerInv, SocketInv, DispatchInv, Of, AllWait;
    ToldOther(s.sockets, s.log, s.nextSerial, TimerFired(TimerRegOf(s.timers, s.timers.used[0])), s.nextSerial);
  }

  lemma NextEventTold(s: State, now: int)
    requires Told(s) && s.running.None?
    ensures Told(NextEvent(s, now).state)
    ensures NextEvent(s, now).event.Some? ==> NextEvent(s, now).state.pollTimeout == 0
  {
    NextEventIs(s, now);
    hide Inv, TimerHistory, SocketHistory, DispatchHistory, SocketsTold, AllWait, Drain, NextEvent;
    if FirstFires(s, now) {
      FireTold(s);
    } else {
      SetTimeoutGood(s, SleepOf(s, now));
      DrainTold(s.(pollTimeout := SleepOf(s, now)));
    }
  }

  // ---------- the public operations

  lemma SetTimerTold(s: State, actionTime: int, interval: int, action: nat, destroy: Handler, userdata: int)
    requires Told(s)
    ensures Told(SetTimer(s, actionTime, interval, action, destroy, userdata).0)
  {
    hide TimerHistory, SocketHistory, DispatchHistory, SocketsTold, AllWait, TimerInv, SocketInv, DispatchInv;
    SetTimerGood(s, actionTime, interval, action, destroy, userdata);
    if s.timers.free != [] {
      FreeTimerSorted(s);
      hide Inv;
      var e := TimerSet(TimerReg(s.nextSerial, interval, action, destroy, userdata), actionTime);
      ToldOther(s.sockets, s.log, s.nextSerial, e, s.nextSerial + 1);
    }
  }

  lemma ClearTimerAside(s: State, id: Id, isInterval: bool)
    requires Inv(s) && Enabled(s, ClearTimerStep(id, isInterval))
    ensures var n := ClearTimer(s, id, isInterval).0;
      && n.sockets == s.sockets && n.pollTimeout == s.pollTimeout && n.nextSerial == s.nextSerial
      && (n.log == s.log || n.log == s.log + [TimerCleared(TimerRegOf(s.timers, id.index))])
  {
    hide Inv;
  }

  lemma ClearTimerTold(s: State, id: Id, isInterval: bool)
    requires Told(s) && Enabled(s, ClearTimerStep(id, isInterval))
    ensures Told(ClearTimer(s, id, isInterval).0)
  {
    hide Good, SocketsTold, AllWait, ClearTimer;
    ToldInv(s);
    ClearTimerGood(s, id, isInterval);
    ClearTimerAside(s, id, isInterval);
    hide Inv;
    ToldOther(s.sockets, s.log, s.nextSerial, TimerCleared(TimerRegOf(s.timers, id.index)), s.nextSerial);
  }

  lemma DispatchAside(s: State, action: nat, destroy: Handler, userdata: int)
    requires Inv(s)
    ensures var n := Dispatch(s, action, destroy, userdata).0;
      && n.sockets == s.sockets && n.pollTimeout == s.pollTimeout
      && (n == s || (n.nextSerial == s.nextSerial + 1 && n.log == s.log + [Dispatched(DispatchReg(s.nextSerial, action, destroy, userdata))]))
  {
    hide TimerInv, SocketInv, Of;
  }

  lemma DispatchTold(s: State, action: nat, destroy: Handler, userdata: int)
    requires Told(s)
    ensures Told(Dispatch(s, action, destroy, userdata).0)
  {
    hide Good, SocketsTold, AllWait, Dispatch;
    ToldInv(s);
    DispatchGood(s, action, destroy, userdata);
    DispatchAside(s, action, destroy, userdata);
    hide Inv;
    ToldOther(s.sockets, s.log, s.nextSerial, Dispatched(DispatchReg(s.nextSerial, action, destroy, userdata)), s.nextSerial + 1);
  }

  lemma AddSocketTold(s: State, handle: int, action: nat, destroy: Handler, userdata: int)
    requires Told(s)
    ensures Told(AddSocket(s, handle, action, destroy, userdata).0)
  {
    hide Good, LastAnswer, Unsent, Truthful;
    ToldInv(s);
    AddSocketGood(s, handle, action, destroy, userdata);
    if s.sockets.free != [] {
      AddSocketFrame(s, handle, action, destroy, userdata);
      SerialsOld(s);
      hide AddSocket, Inv;
      var e := SocketAdded(SocketReg(s.nextSerial, handle, action, destroy, userdata));
      var n := AddSocket(s, handle, action, destroy, userdata).0;
      ToldAppend(s.log, e, s.nextSerial);
      ToldMoves(s.sockets, s.log, s.nextSerial, s.sockets.pollSize, n.sockets, e, n.nextSerial);
    }
  }

  lemma SerialsOld(s: State)
    requires Good(s)
    ensures s.sockets.pollSize <= |s.sockets.entries|
    ensures forall j :: 0 <= j < s.sockets.pollSize && s.sockets.entries[j].phase != Free ==> s.sockets.entries[j].serial < s.nextSerial
  {
    forall j | 0 <= j < s.sockets.pollSize && s.sockets.entries[j].phase != Free ensures s.sockets.entries[j].serial < s.nextSerial {
      OwnSerial(s, j);
    }
  }

  lemma EndSocketFrame(s: State, i: nat)
    requires Inv(s) && i < s.sockets.pollSize <= |s.sockets.entries| == |s.sockets.pollfd| && s.sockets.entries[i].phase in {Used, Action}
    ensures var n := EndSocket(s, i); var k := s.sockets; var e := k.entries[i];
      && n.sockets.entries == k.entries[i := e.(phase := if e.destroy == Null then Free else Destroy)]
      && n.sockets.pollfd == k.pollfd && n.sockets.pollSize == k.pollSize && n.pollTimeout == s.pollTimeout && n.nextSerial == s.nextSerial
      && (forall j :: j != i ==> (j in n.sockets.used <==> j in k.used))
      && n.log == s.log + [SocketRemoved(SocketRegOf(k, i))]
  {
    UnlinkSocketInv(s, i);
    hide Inv, UnlinkSocket, Of;
  }

  lemma EndSocketTold(s: State, i: nat)
    requires Told(s) && i < s.sockets.pollSize <= |s.sockets.entries| == |s.sockets.pollfd| && s.sockets.entries[i].phase in {Used, Action}
    ensures Told(EndSocket(s, i))
  {
    hide Good, LastAnswer, Unsent, Truthful;
    ToldInv(s);
    EndSocketGood(s, i);
    EndSocketFrame(s, i);
    OwnSerial(s, i);
    hide EndSocket, Inv;
    var e, n := SocketRemoved(SocketRegOf(s.sockets, i)), EndSocket(s, i);
    assert SlotTold(s.sockets, s.log, i);
    ToldAppend(s.log, e, s.sockets.entries[i].serial);
    ToldMoves(s.sockets, s.log, s.nextSerial, i, n.sockets, e, s.nextSerial);
  }

  lemma RemoveSocketTold(s: State, handle: int)
    requires Told(s)
    ensures Told(RemoveSocket(s, handle).0)
  {
    hide TimerHistory, SocketHistory, DispatchHistory, SocketsTold, AllWait, EndSocket, TimerInv, DispatchInv, Of;
    var i := FindSocket(s.sockets, handle, 0);
    if i < s.sockets.pollSize && s.sockets.entries[i].phase !in {Destroy, Free} {
      EndSocketTold(s, i);
    }
  }

  lemma ReturnTold(s: State, events: int)
    requires Told(s) && s.running.Some?
    ensures Told(Return(s, events))
  {
    hide Good, LastAnswer, Unsent, Truthful;
    ToldInv(s);
    ReturnGood(s, events);
    RunningSlot(s);
    var i := s.running.value;
    OwnSerial(s, i);
    hide Inv;
    var e, n := SocketReturned(SocketRegOf(s.sockets, i), events), Return(s, events);
    assert SlotTold(s.sockets, s.log, i);
    ToldAppend(s.log, e, s.sockets.entries[i].serial);
    ToldMoves(s.sockets, s.log, s.nextSerial, i, n.sockets, e, s.nextSerial);
  }

  lemma RunningSlot(s: State)
    requires Good(s) && s.running.Some?
    ensures s.running.value < s.sockets.pollSize <= |s.sockets.entries| == |s.sockets.pollfd|
    ensures s.sockets.entries[s.running.value].phase != Used && s.pollTimeout == 0
  {
  }

  lemma {:induction false} PolledTold(s: State, reports: seq<int>, n: nat)
    requires Good(s) && SocketsTold(s.sockets, s.log, s.nextSerial) && AllWait(s.sockets) && s.running.None?
    requires n <= s.sockets.pollSize && n <= |reports|
    ensures SocketsTold(Reported(s.sockets, reports, n), s.log + PollEvents(s.sockets, reports, n), s.nextSerial)
  {
    hide Good, Reported, AllWait;
    var k := s.sockets;
    if n == 0 {
      assert s.log + [] == s.log;
      ReportedNone(k, reports);
    } else {
      PolledTold(s, reports, n - 1);
      hide SocketsTold;
      PolledOne(s, reports, n);
    }
  }

  lemma ReportedNone(k: Sockets, reports: seq<int>)
    ensures Reported(k, reports, 0) == k
  {
    assert Reported(k, reports, 0).pollfd == k.pollfd;
  }

  lemma PolledOne(s: State, reports: seq<int>, n: nat)
    requires Good(s) && s.sockets.pollSize <= |s.sockets.entries| == |s.sockets.pollfd| && AllWait(s.sockets) && s.running.None?
    requires 0 < n <= s.sockets.pollSize && n <= |reports|
    requires SocketsTold(Reported(s.sockets, reports, n - 1), s.log + PollEvents(s.sockets, reports, n - 1), s.nextSerial)
    ensures SocketsTold(Reported(s.sockets, reports, n), s.log + PollEvents(s.sockets, reports, n), s.nextSerial)
  {
    hide LastAnswer, Unsent, Good, Reported, Truthful;
    var k, next, i, l := s.sockets, s.nextSerial, n - 1, s.log + PollEvents(s.sockets, reports, n - 1);
    var r, r' := Reported(k, reports, n - 1), Reported(k, reports, n);
    ReportedFrame(k, reports, n);
    assert SlotTold(r, l, i);
    if k.entries[i].phase == Free {
      assert s.log + PollEvents(k, reports, n) == l;
      ToldQuiet(r, l, next, i, r');
    } else {
      var e := SocketPolled(SocketRegOf(k, i), k.pollfd[i].events, reports[i]);
      assert s.log + PollEvents(k, reports, n) == l + [e];
      OwnSerial(s, i);
      hide PollEvents;
      ToldAppend(l, e, k.entries[i].serial);
      ToldMoves(r, l, next, i, r', e, next);
    }
  }

  lemma ReportedFrame(k: Sockets, reports: seq<int>, n: nat)
    requires 0 < n <= |k.pollfd| && n <= |reports|
    ensures var r, r' := Reported(k, reports, n - 1), Reported(k, reports, n);
      && r == k.(pollfd := r.pollfd) && r' == k.(pollfd := r'.pollfd) && r'.pollfd == r.pollfd[n - 1 := r'.pollfd[n - 1]]
      && r.pollfd[n - 1] == k.pollfd[n - 1] && r'.pollfd[n - 1] == k.pollfd[n - 1].(revents := reports[n - 1])
  {
  }

  lemma PollTold(s: State, reports: seq<int>)
    requires Told(s) && |reports| == s.sockets.pollSize
    ensures Told(Poll(s, reports))
  {
    PollGood(s, reports);
    if s.pollTimeout != 0 {
      IdleNotRunning(s);
      PolledTold(s, reports, s.sockets.pollSize);
      hide Inv, TimerHistory, SocketHistory, DispatchHistory, SocketsTold;
    }
  }

  lemma IdleNotRunning(s: State)
    requires Inv(s) && s.pollTimeout != 0
    ensures s.running.None? && s.sockets.pollSize <= |s.sockets.entries| == |s.sockets.pollfd|
  {
  }

  lemma ApplyTold(s: State, step: Step)
    requires Told(s) && Enabled(s, step)
    ensures Told(Apply(s, step))
  {
    hide Good, SocketsTold, AllWait, Inv, NextEvent, Return, Poll, SetTimer, ClearTimer, AddSocket, RemoveSocket, Dispatch;
    ToldInv(s);
    match step {
      case NextEventStep(now) => NextEventTold(s, now);
      case ReturnStep(events) => ReturnTold(s, events);
      case PollStep(reports) => PollTold(s, reports);
      case SetTimerStep(actionTime, interval, action, destroy, userdata) =>
        SetTimerTold(s, actionTime, interval, action, destroy, userdata);
      case ClearTimerStep(id, isInterval) => ClearTimerTold(s, id, isInterval);
      case AddSocketStep(handle, action, destroy, userdata) => AddSocketTold(s, handle, action, destroy, userdata);
      case RemoveSocketStep(handle) => RemoveSocketTold(s, handle);
      case DispatchStep(action, destroy, userdata) => DispatchTold(s, action, destroy, userdata);
    }
  }

  lemma ToldInv(s: State)
    requires Told(s)
    ensures Inv(s) && Good(s)
  {
  }

  lemma {:induction false} RunsTold(s: State, steps: seq<Step>)
    requires Told(s) && Runs(s, steps)
    ensures Told(After(s, steps))
    decreases |steps|
  {
    hide Told, Inv, Good, Apply;
    ToldInv(s);
    if steps != [] {
      ApplyInv(s, steps[0]);
      ApplyTold(s, steps[0]);
      RunsTold(Apply(s, steps[0]), steps[1..]);
    }
  }

  lemma CreateIs(timerLimit: nat, socketLimit: nat, dispatchLimit: nat, wakeup: int, wakeupAction: nat, thiz: int)
    requires timerLimit <= 0xFFFF && socketLimit <= 0xFFFE && dispatchLimit <= 0xFFFF
    ensures var blank := Blank(timerLimit, if socketLimit == 0 then 1 else socketLimit, dispatchLimit);
      Inv(blank) && Create(timerLimit, socketLimit, dispatchLimit, wakeup, wakeupAction, thiz)
                    == Some(AddSocket(blank, wakeup, wakeupAction, Null, thiz).0)
  {
    BlankInv(timerLimit, if socketLimit == 0 then 1 else socketLimit, dispatchLimit);
    hide Inv, Blank, AddSocket;
  }

  lemma CreateTold(timerLimit: nat, socketLimit: nat, dispatchLimit: nat, wakeup: int, wakeupAction: nat, thiz: int)
    requires timerLimit <= 0xFFFF && socketLimit <= 0xFFFE && dispatchLimit <= 0xFFFF
    ensures var r := Create(timerLimit, socketLimit, dispatchLimit, wakeup, wakeupAction, thiz);
      r.Some? && Told(r.value)
  {
    hide Told, Good, Inv, Blank, AddSocket, Create;
    CreateIs(timerLimit, socketLimit, dispatchLimit, wakeup, wakeupAction, thiz);
    var limit := if socketLimit == 0 then 1 else socketLimit;
    BlankGood(timerLimit, limit, dispatchLimit);
    BlankTold(timerLimit, limit, dispatchLimit);
    AddSocketTold(Blank(timerLimit, limit, dispatchLimit), wakeup, wakeupAction, Null, thiz);
  }

  lemma BlankTold(timerLimit: nat, socketLimit: nat, dispatchLimit: nat)
    requires Good(Blank(timerLimit, socketLimit, dispatchLimit))
    ensures Told(Blank(timerLimit, socketLimit, dispatchLimit))
  {
    hide Good;
  }

  /** After any run from creation, polls included: whenever the handler of a socket was called, it was told what the
      last poll had seen at its descriptor, once, and nothing if there was no poll since it was told last; and
      whenever its descriptor was polled, the poll asked for the events its handler had answered last. */
  lemma HandlersAreTold(timerLimit: nat, socketLimit: nat, dispatchLimit: nat, wakeup: int, wakeupAction: nat, thiz: int,
                        steps: seq<Step>, j: nat)
    requires timerLimit <= 0xFFFF && socketLimit <= 0xFFFE && dispatchLimit <= 0xFFFF
    ensures var r := Create(timerLimit, socketLimit, dispatchLimit, wakeup, wakeupAction, thiz);
      r.Some? && Inv(r.value) && (Runs(r.value, steps) ==>
        var log := After(r.value, steps).log;
        && (j < |log| && log[j].SocketCalled? ==> log[j].revents == Unsent(log[..j], log[j].socket.serial))
        && (j < |log| && log[j].SocketPolled? ==> log[j].events == LastAnswer(log[..j], log[j].socket.serial)))
  {
    hide Create, Inv, Good, Apply, AllWait;
    CreateTold(timerLimit, socketLimit, dispatchLimit, wakeup, wakeupAction, thiz);
    var s := Create(timerLimit, socketLimit, dispatchLimit, wakeup, wakeupAction, thiz).value;
    ToldInv(s);
    if Runs(s, steps) {
      RunsTold(s, steps);
      var log := After(s, steps).log;
      if j < |log| { assert Right(log[..j], log[j]); }
    }
  }

  lemma LiveSlot(s: State, n: nat) returns (i: nat)
    requires Good(s) && s.running.None? && SocketLifeOf(s.log, n).Live?
    ensures i < s.sockets.pollSize <= |s.sockets.entries| && s.sockets.entries[i].serial == n && s.sockets.entries[i].phase in {Used, Action}
  {
    hide Inv, TimerHistory, DispatchHistory, SocketLifeOf;
    var k := s.sockets;
    assert HasSlot(k, s.running, n);
    i :| 0 <= i < k.pollSize && Counted(k, s.running, i) && k.entries[i].serial == n;
    assert SlotLife(k, s.running, i, SocketLifeOf(s.log, n));
  }

  /** A poll sees every socket that has not ended, and what it reports there is what the handler will be told. */
  lemma PollReaches(s: State, reports: seq<int>, n: nat)
    requires Told(s) && |reports| == s.sockets.pollSize && s.pollTimeout != 0 && SocketLifeOf(s.log, n).Live?
    ensures exists i :: 0 <= i < |reports| && Unsent(Poll(s, reports).log, n) == reports[i]
                        && s.sockets.pollSize <= |s.sockets.entries| && s.sockets.entries[i].serial == n
  {
    hide Good, LastAnswer, Unsent, Truthful, SocketLifeOf;
    ToldInv(s);
    IdleNotRunning(s);
    PollTold(s, reports);
    var i := LiveSlot(s, n);
    hide Inv;
    var p := Poll(s, reports);
    assert SlotTold(p.sockets, p.log, i);
  }

  /** Every poll the worker makes follows an event-less nextEvent; then it waits no longer than that allows. */
  lemma WaitIsShort(pollTimeout: int, timeout: int)
    requires pollTimeout >= -1 && timeout >= -1
    ensures var w := PollWait(pollTimeout, timeout);
      && (w == -1 <==> pollTimeout == -1 && timeout == -1) && w >= -1
      && (pollTimeout != -1 ==> w <= pollTimeout) && (timeout != -1 ==> w <= timeout)
      && (w == pollTimeout || w == timeout)
  {
  }
}
