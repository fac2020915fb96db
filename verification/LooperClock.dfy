/** Runs of the looper by one clock that never goes back, with the delays of C's int: no timer fires early, but a
    timer that is overdue by more than 2^31 milliseconds is missed. */
module LooperClock {
  import opened Words
  import opened Seqs
  import opened Rings
  import opened LooperModel
  import opened LooperInvariant
  import opened LooperSteps
  import opened LooperSafety
  import opened LooperRuns
  import opened LooperCompaction
  import opened LooperProgress
  import opened LooperTimeout

  const INT_MAX := 0x7FFF_FFFF

  /** A step and the time of the clock when it is made. */
  datatype Tick = Tick(now: int, step: Step)

  /** nextEvent is given the time, and a timer is set by setTimeout or setInterval: its delay is an int, and the
      interval is 0 or the delay. */
  predicate Timely(t: Tick) {
    match t.step
    case NextEventStep(now) => now == t.now
    case SetTimerStep(actionTime, interval, _, _, _) =>
      && -INT_MAX - 1 <= actionTime - t.now <= INT_MAX && (interval == 0 || interval == actionTime - t.now)
    case _ => true
  }

  predicate Clocked(ticks: seq<Tick>, from: int) {
    ticks == [] || (from <= ticks[0].now && Timely(ticks[0]) && Clocked(ticks[1..], ticks[0].now))
  }

  function Steps(ticks: seq<Tick>): seq<Step> {
    if ticks == [] then [] else [ticks[0].step] + Steps(ticks[1..])
  }

  /** The time of the last tick. */
  function Until(ticks: seq<Tick>, from: int): int {
    if ticks == [] then from else ticks[|ticks| - 1].now
  }

  /** Every timer is due within INT_MAX milliseconds, and one that waits to be armed again was due. */
  ghost predicate Near(t: Timers, now: int) {
    forall i :: 0 <= i < |t.entries| ==>
      && t.entries[i].interval <= INT_MAX
      && (t.entries[i].phase == Used ==> t.entries[i].actionTime <= now + INT_MAX)
      && (t.entries[i].phase == Action ==> t.entries[i].actionTime <= now)
  }

  lemma NearLater(t: Timers, now: int, later: int)
    requires Near(t, now) && now <= later
    ensures Near(t, later)
  {
  }

  lemma PopTimerNear(t: Timers, i: nat, now: int)
    requires Sorted(t) && i < |t.entries| && Near(t, now)
    ensures Near(PopTimer(t, i).part, now)
  {
  }

  lemma PopNear(s: State, now: int)
    requires Inv(s) && s.pending != [] && Near(s.timers, now)
    ensures InRange(s, s.pending[0]) && Near(Pop(s).state.timers, now)
  {
    hide Near, TimerInv, SocketInv, DispatchInv, Of, PopTimer, PopSocket, PopDispatch;
    PopInv(s);
    InvSorted(s);
    if s.pending[0].kind == TimerKind { PopTimerNear(s.timers, s.pending[0].index, now); }
  }

  lemma {:induction false} DrainNear(s: State, now: int)
    requires Inv(s) && s.running.None? && Near(s.timers, now)
    ensures Near(Drain(s).state.timers, now)
    decreases ActionSockets(s), |s.pending|
  {
    hide Near, TimerInv, SocketInv, DispatchInv, Of, Pop;
    if s.pending == [] {
      CompactTimers(s);
    } else {
      InvSorted(s);
      PopInv(s);
      PopRunning(s);
      PopNear(s, now);
      if Pop(s).event.None? { DrainNear(Pop(s).state, now); }
    }
  }

  lemma FireNear(s: State, now: int)
    requires Inv(s) && s.timers.used != [] && Near(s.timers, now) && FirstTime(s) <= now
    ensures Sorted(s.timers) && Near(FireTimer(s).timers, now)
  {
    InvSorted(s);
  }

  /** What is less than 2^31 milliseconds ahead keeps its sign when it is cut. */
  lemma NearFirst(s: State, now: int)
    requires Inv(s) && s.timers.used != [] && Near(s.timers, now)
    ensures FirstTime(s) - now <= INT_MAX
    ensures ToInt32(FirstTime(s) - now) <= 0 ==> FirstTime(s) <= now
  {
    var i := s.timers.used[0];
    assert i in s.timers.used && TimerIs(s.timers, i, {Used});
  }

  lemma NextEventNear(s: State, now: int)
    requires Inv(s) && s.running.None? && Near(s.timers, now)
    ensures Near(NextEvent(s, now).state.timers, now)
  {
    hide Near, TimerInv, SocketInv, DispatchInv, Of, Drain, ToInt32;
    if s.timers.used == [] {
      DrainNear(s.(pollTimeout := -1), now);
    } else {
      NearFirst(s, now);
      InvSorted(s);
      var timeout := ToInt32(FirstTime(s) - now);
      if timeout <= 0 { FireNear(s, now); } else { DrainNear(s.(pollTimeout := timeout), now); }
    }
  }

  lemma SetTimerNear(s: State, t: Tick)
    requires Inv(s) && t.step.SetTimerStep? && Timely(t) && Near(s.timers, t.now)
    ensures Near(Apply(s, t.step).timers, t.now)
  {
    FreeSorted(s);
  }

  lemma FreeSorted(s: State)
    requires Inv(s)
    ensures s.timers.free != [] ==> s.timers.free[0] < |s.timers.entries| && Sorted(s.timers.(free := s.timers.free[1..]))
  {
    if s.timers.free != [] { FreeTimerSorted(s); }
  }

  lemma ClearTimerNear(s: State, t: Tick)
    requires Inv(s) && t.step.ClearTimerStep? && Enabled(s, t.step) && Near(s.timers, t.now)
    ensures Near(Apply(s, t.step).timers, t.now)
  {
    hide TimerInv, SocketInv, DispatchInv, Of, IndexOf, RemoveAt;
  }

  lemma OtherNear(s: State, step: Step)
    requires Inv(s) && Enabled(s, step) && !step.NextEventStep? && !step.SetTimerStep? && !step.ClearTimerStep?
    ensures Apply(s, step).timers == s.timers
  {
    hide TimerInv, DispatchInv, Of;
    if step.RemoveSocketStep? {
      var i := FindSocket(s.sockets, step.handle, 0);
      if i < s.sockets.pollSize { UnlinkSocketFrame(s, i); }
    }
  }

  lemma ApplyNear(s: State, t: Tick)
    requires Inv(s) && Enabled(s, t.step) && Timely(t) && Near(s.timers, t.now)
    ensures Near(Apply(s, t.step).timers, t.now)
  {
    hide Near, Inv, NextEvent, SetTimer, ClearTimer;
    match t.step {
      case NextEventStep(now) => NextEventNear(s, now);
      case SetTimerStep(_, _, _, _, _) => SetTimerNear(s, t);
      case ClearTimerStep(_, _) => ClearTimerNear(s, t);
      case _ => OtherNear(s, t.step);
    }
  }

  lemma {:induction false} RunNear(s: State, ticks: seq<Tick>, from: int)
    requires Inv(s) && Runs(s, Steps(ticks)) && Clocked(ticks, from) && Near(s.timers, from)
    ensures Near(After(s, Steps(ticks)).timers, Until(ticks, from))
    decreases |ticks|
  {
    hide Near, Inv, Apply;
    if ticks != [] {
      var t := ticks[0];
      assert Steps(ticks)[0] == t.step && Steps(ticks)[1..] == Steps(ticks[1..]);
      NearLater(s.timers, from, t.now);
      ApplyInv(s, t.step);
      ApplyNear(s, t);
      RunNear(Apply(s, t.step), ticks[1..], t.now);
    }
  }

  // ---------- from creation on

  /** A looper just created, and its wakeup socket waiting to be called. */
  ghost predicate Started(s: State, timerLimit: nat) {
    && Inv(s) && s.running.None? && s.pending == [Ref(SocketKind, 0)]
    && |s.timers.entries| == timerLimit && s.timers.used == [] && s.timers.free == Range(timerLimit)
    && (forall i :: 0 <= i < timerLimit ==> s.timers.entries[i] == TimerEntry(Free, 1, 0, 0, 0, Null, 0, 0))
    && s.sockets.used == [] && s.sockets.pollSize == 1 <= |s.sockets.entries| == |s.sockets.pollfd| && s.sockets.entries[0].phase == Used
  }

  lemma CreateStarted(timerLimit: nat, socketLimit: nat, dispatchLimit: nat, wakeup: int, wakeupAction: nat, thiz: int)
    requires timerLimit <= 0xFFFF && socketLimit <= 0xFFFE && dispatchLimit <= 0xFFFF
    ensures var r := Create(timerLimit, socketLimit, dispatchLimit, wakeup, wakeupAction, thiz);
      r.Some? && Started(r.value, timerLimit)
  {
    hide TimerInv, SocketInv, DispatchInv, Of;
    CreateGood(timerLimit, socketLimit, dispatchLimit, wakeup, wakeupAction, thiz);
    EveryRun(timerLimit, socketLimit, dispatchLimit, wakeup, wakeupAction, thiz, []);
  }

  lemma StartedNear(s: State, timerLimit: nat, now: int)
    requires Started(s, timerLimit)
    ensures Near(s.timers, now)
  {
    hide Inv;
  }

  /** Over every run by one clock no timer fires early, and none is left waiting unless the first one is overdue by
      so much that the cut of the difference to an int turns its sign. */
  lemma ClockedFires(timerLimit: nat, socketLimit: nat, dispatchLimit: nat, wakeup: int, wakeupAction: nat, thiz: int,
                     ticks: seq<Tick>, from: int, now: int)
    requires timerLimit <= 0xFFFF && socketLimit <= 0xFFFE && dispatchLimit <= 0xFFFF
    requires Clocked(ticks, from) && Until(ticks, from) <= now
    ensures var r := Create(timerLimit, socketLimit, dispatchLimit, wakeup, wakeupAction, thiz);
      r.Some? && Inv(r.value) && (Runs(r.value, Steps(ticks)) && After(r.value, Steps(ticks)).running.None? ==>
        var s := After(r.value, Steps(ticks));
        && Inv(s)
        && (Fires(NextEvent(s, now)) ==> AnyDue(s, now))
        && (AnyDue(s, now) && !Fires(NextEvent(s, now)) <==>
              s.timers.used != [] && 0x8000_0000 < (now - FirstTime(s)) && 0x8000_0000 < (now - FirstTime(s)) % WORD))
  {
    hide Create, Runs, After, Near, Inv, NextEvent, Fires;
    CreateStarted(timerLimit, socketLimit, dispatchLimit, wakeup, wakeupAction, thiz);
    var s := Create(timerLimit, socketLimit, dispatchLimit, wakeup, wakeupAction, thiz).value;
    StartedNear(s, timerLimit, from);
    if Runs(s, Steps(ticks)) {
      RunNear(s, ticks, from);
      RunInv(s, Steps(ticks));
      var n := After(s, Steps(ticks));
      NearLater(n.timers, Until(ticks, from), now);
      if n.running.None? { NearFires(n, now); }
    }
  }

  lemma {:induction false} RunInv(s: State, steps: seq<Step>)
    requires Inv(s) && Runs(s, steps)
    ensures Inv(After(s, steps))
    decreases |steps|
  {
    hide Inv, Apply;
    if steps != [] {
      ApplyInv(s, steps[0]);
      RunInv(Apply(s, steps[0]), steps[1..]);
    }
  }

  lemma NearFires(s: State, now: int)
    requires Inv(s) && s.running.None? && Near(s.timers, now)
    ensures Fires(NextEvent(s, now)) ==> AnyDue(s, now)
    ensures AnyDue(s, now) && !Fires(NextEvent(s, now)) <==>
              s.timers.used != [] && 0x8000_0000 < (now - FirstTime(s)) && 0x8000_0000 < (now - FirstTime(s)) % WORD
  {
    hide Near, Inv, NextEvent, Fires, AnyDue;
    FiresByCut(s, now);
    DueIsFirstDue(s, now);
    if s.timers.used != [] {
      NearFirst(s, now);
      CutOfOverdue(now - FirstTime(s));
    }
  }

  lemma CutOfOverdue(late: int)
    ensures late >= 0 ==> (ToInt32(-late) > 0 <==> 0x8000_0000 < late % WORD)
    ensures 0 <= late <= 0x8000_0000 ==> late % WORD <= 0x8000_0000
  {
  }

  // ---------- the failing inputs, from creation

  /** One timer is set, and the wakeup socket has not been called yet. */
  ghost predicate OneTimer(s: State, actionTime: int, interval: int) {
    && Inv(s) && s.running.None? && s.pending == [Ref(SocketKind, 0)]
    && 0 < |s.timers.entries| && s.timers.used == [0] && TimerAt(s, Used, actionTime, interval)
    && s.sockets.used == [] && s.sockets.pollSize == 1 <= |s.sockets.entries| == |s.sockets.pollfd| && s.sockets.entries[0].phase == Used
  }

  predicate TimerAt(s: State, phase: Phase, actionTime: int, interval: int)
    requires 0 < |s.timers.entries|
  {
    var e := s.timers.entries[0];
    e.phase == phase && e.actionTime == actionTime && e.interval == interval
  }

  lemma SetOne(s: State, timerLimit: nat, actionTime: int, interval: int, action: nat, destroy: Handler, userdata: int)
    requires Started(s, timerLimit) && timerLimit > 0
    ensures OneTimer(Apply(s, SetTimerStep(actionTime, interval, action, destroy, userdata)), actionTime, interval)
  {
    hide SocketInv, DispatchInv, Of;
    SetTimerInv(s, actionTime, interval, action, destroy, userdata);
    FreeSorted(s);
  }

  /** A timeout is set with delay 0 at time 0, and nextEvent is called 2^31 + 1 milliseconds later: the timer is due
      and does not fire. */
  lemma OverdueTimerMissed(timerLimit: nat, socketLimit: nat, dispatchLimit: nat, wakeup: int, wakeupAction: nat, thiz: int,
                           action: nat, destroy: Handler, userdata: int)
    requires 0 < timerLimit <= 0xFFFF && socketLimit <= 0xFFFE && dispatchLimit <= 0xFFFF
    ensures var r := Create(timerLimit, socketLimit, dispatchLimit, wakeup, wakeupAction, thiz);
      r.Some? && Inv(r.value)
    ensures var r := Create(timerLimit, socketLimit, dispatchLimit, wakeup, wakeupAction, thiz);
      var s := Apply(r.value, SetTimerStep(0, 0, action, destroy, userdata)); var now := 0x8000_0001;
      Inv(s) && s.running.None? && AnyDue(s, now) && !Fires(NextEvent(s, now))
  {
    hide Create, NextEvent, Fires, AnyDue, Apply, TimerInv, SocketInv, DispatchInv, Of;
    CreateStarted(timerLimit, socketLimit, dispatchLimit, wakeup, wakeupAction, thiz);
    var s := Create(timerLimit, socketLimit, dispatchLimit, wakeup, wakeupAction, thiz).value;
    SetOne(s, timerLimit, 0, 0, action, destroy, userdata);
    var n := Apply(s, SetTimerStep(0, 0, action, destroy, userdata));
    FiresByCut(n, 0x8000_0001);
    DueIsFirstDue(n, 0x8000_0001);
  }

  /** The timer is due: it fires. */
  lemma FireOne(s: State, now: int, interval: int)
    requires OneTimer(s, now, interval)
    ensures var o := NextEvent(s, now);
      && Inv(o.state) && Fires(o) && o.state.running.None? && o.state.pending == [Ref(SocketKind, 0), Ref(TimerKind, 0)]
      && o.state.timers.used == [] && 0 < |o.state.timers.entries| && TimerAt(o.state, Action, now, interval)
      && o.state.sockets == s.sockets
  {
    hide SocketInv, DispatchInv, Of, Drain;
    NextEventInv(s, now);
  }

  /** Then the wakeup socket is called. */
  lemma CallSocket(s: State, now: int, interval: int)
    requires Inv(s) && s.running.None? && s.pending == [Ref(SocketKind, 0), Ref(TimerKind, 0)]
    requires s.timers.used == [] && 0 < |s.timers.entries| && TimerAt(s, Action, now, interval)
    requires s.sockets.used == [] && s.sockets.pollSize == 1 <= |s.sockets.entries| == |s.sockets.pollfd| && s.sockets.entries[0].phase == Used
    ensures var o := NextEvent(s, now).state;
      && Inv(o) && o.running == Some(0) && o.pending == [Ref(TimerKind, 0), Ref(SocketKind, 0)]
      && o.timers == s.timers && o.sockets.used == [] && o.sockets.pollSize == 1 <= |o.sockets.entries| == |o.sockets.pollfd|
      && o.sockets.entries[0].phase == Action
  {
    hide SocketInv, DispatchInv, TimerInv, Of, Compact;
    NextEventInv(s, now);
    InvSorted(s);
    var t := s.(pollTimeout := -1);
    PopInv(t);
    assert Pop(t).event.Some?;
  }

  /** Nothing is left to do, the timer is set for later, and the worker is told to sleep for ever. */
  ghost predicate Asleep(s: State, now: int, interval: int)
    requires Inv(s) && s.running.None?
  {
    var o := NextEvent(s, now);
    && o.event.None? && o.state.pollTimeout == -1 && o.state.timers.used == [0] && 0 < |o.state.timers.entries|
    && TimerAt(o.state, Used, now + interval, interval) && !WakesInTime(o.state, now)
  }

  lemma PopRearms(s: State, now: int, interval: int)
    requires Inv(s) && s.running.None? && s.pending == [Ref(TimerKind, 0), Ref(SocketKind, 0)] && interval != 0
    requires s.timers.used == [] && 0 < |s.timers.entries| && TimerAt(s, Action, now, interval)
    ensures Sorted(s.timers) && InRange(s, s.pending[0])
    ensures var o := Pop(s); var u := o.state;
      && o.event.None? && u == s.(timers := u.timers, pending := [Ref(SocketKind, 0)])
      && u.timers.used == [0] && 0 < |u.timers.entries| && TimerAt(u, Used, now + interval, interval)
  {
    hide SocketInv, DispatchInv, TimerInv, Of;
    PopInv(s);
    InvSorted(s);
  }

  lemma PopKeeps(s: State)
    requires Inv(s) && s.running.None? && s.pending == [Ref(SocketKind, 0)] && 0 < |s.sockets.entries| == |s.sockets.pollfd|
    requires s.sockets.entries[0].phase == Action && s.sockets.pollfd[0].events != 0
    ensures Sorted(s.timers) && InRange(s, s.pending[0])
    ensures Pop(s).event.None? && Pop(s).state.pending == [] && Pop(s).state == s.(sockets := Pop(s).state.sockets, pending := [])
  {
    hide SocketInv, DispatchInv, TimerInv, Of;
    InvSorted(s);
  }

  /** Its handler returns, and nextEvent arms the timer again with nothing else to do. */
  lemma RearmOne(s: State, now: int, interval: int)
    requires Inv(s) && s.running.None? && s.pending == [Ref(TimerKind, 0), Ref(SocketKind, 0)] && interval != 0
    requires s.timers.used == [] && 0 < |s.timers.entries| && TimerAt(s, Action, now, interval)
    requires 1 <= |s.sockets.entries| == |s.sockets.pollfd| && s.sockets.entries[0].phase == Action && s.sockets.pollfd[0].events != 0
    ensures Asleep(s, now, interval)
  {
    hide SocketInv, DispatchInv, TimerInv, Of, Pop, Compact;
    NextEventInv(s, now);
    var t := s.(pollTimeout := -1);
    PopInv(t);
    PopRearms(t, now, interval);
    var u := Pop(t).state;
    PopInv(u);
    PopKeeps(u);
    var v := Pop(u).state;
    CompactTimers(v);
    CompactTimeout(v);
    assert Drain(v) == Outcome(Compact(v), None);
    assert Drain(t) == Drain(u) == Drain(v);
  }

  lemma {:induction false} CompactTimeout(s: State)
    requires Inv(s) && s.running.None?
    ensures Compact(s).pollTimeout == s.pollTimeout
    decreases |s.sockets.used|
  {
    if s.sockets.used != [] {
      CompactStepInv(s);
      CompactTimeout(CompactStep(s));
    }
  }

  /** A socket's handler has returned, and nothing else has changed. */
  lemma ReturnKeeps(s: State, events: int)
    requires Inv(s) && s.running == Some(0)
    ensures var n := Apply(s, ReturnStep(events));
      && Inv(n) && n.running.None? && n.pending == s.pending && n.timers == s.timers
      && 1 <= |n.sockets.entries| == |n.sockets.pollfd| && n.sockets.entries == s.sockets.entries && n.sockets.pollfd[0].events == events
  {
    hide TimerInv, DispatchInv, Of;
    ReturnInv(s, events);
  }

  /** One interval timer, and what the worker does when it is due. */
  function IntervalTicks(start: int, delay: int, action: nat, destroy: Handler, userdata: int, events: int): seq<Tick> {
    [Tick(start, SetTimerStep(start + delay, delay, action, destroy, userdata)), Tick(start + delay, NextEventStep(start + delay)),
     Tick(start + delay, NextEventStep(start + delay)), Tick(start + delay, ReturnStep(events))]
  }

  lemma TicksAreClocked(start: int, delay: int, action: nat, destroy: Handler, userdata: int, events: int)
    requires 0 < delay <= INT_MAX
    ensures Clocked(IntervalTicks(start, delay, action, destroy, userdata, events), start)
    ensures Steps(IntervalTicks(start, delay, action, destroy, userdata, events)) ==
            [SetTimerStep(start + delay, delay, action, destroy, userdata), NextEventStep(start + delay), NextEventStep(start + delay), ReturnStep(events)]
  {
    var ticks := IntervalTicks(start, delay, action, destroy, userdata, events);
    var due := start + delay;
    var b, d := Tick(due, NextEventStep(due)), Tick(due, ReturnStep(events));
    assert ticks[1..] == [b, b, d] && [b, b, d][1..] == [b, d] && [b, d][1..] == [d] && [d][1..] == [];
    assert Clocked([d], due) && Steps([d]) == [d.step];
    assert Clocked([b, d], due) && Steps([b, d]) == [b.step, d.step];
    assert Clocked([b, b, d], due) && Steps([b, b, d]) == [b.step, b.step, d.step];
  }

  /** A looper is created and one interval of `delay` milliseconds is set at time `start`. When it is due the worker
      calls nextEvent three times: the timer fires, the wakeup socket is called and its handler keeps it, and then
      nothing is left to do. The timer is armed again for start + 2 * delay, and the worker is told to sleep for
      ever. */
  lemma IntervalSleepsForever(timerLimit: nat, socketLimit: nat, dispatchLimit: nat, wakeup: int, wakeupAction: nat, thiz: int,
                              start: int, delay: int, action: nat, destroy: Handler, userdata: int, events: int)
    requires 0 < timerLimit <= 0xFFFF && socketLimit <= 0xFFFE && dispatchLimit <= 0xFFFF && 0 < delay <= INT_MAX && events != 0
    ensures var r := Create(timerLimit, socketLimit, dispatchLimit, wakeup, wakeupAction, thiz);
      var ticks := IntervalTicks(start, delay, action, destroy, userdata, events);
      && r.Some? && Inv(r.value) && Clocked(ticks, start) && Runs(r.value, Steps(ticks))
      && var s := After(r.value, Steps(ticks)); Inv(s) && s.running.None? && Asleep(s, start + delay, delay)
  {
    hide Create, NextEvent, SetTimer, Return, Inv, Runs, After, Asleep, IntervalTicks;
    CreateStarted(timerLimit, socketLimit, dispatchLimit, wakeup, wakeupAction, thiz);
    var s := Create(timerLimit, socketLimit, dispatchLimit, wakeup, wakeupAction, thiz).value;
    var due := start + delay;
    var arm := SetTimerStep(due, delay, action, destroy, userdata);
    TicksAreClocked(start, delay, action, destroy, userdata, events);
    SetOne(s, timerLimit, due, delay, action, destroy, userdata);
    var s1 := Apply(s, arm);
    FireOne(s1, due, delay);
    var s2 := Apply(s1, NextEventStep(due));
    CallSocket(s2, due, delay);
    var s3 := Apply(s2, NextEventStep(due));
    ReturnKeeps(s3, events);
    var s4 := Apply(s3, ReturnStep(events));
    RearmOne(s4, due, delay);
    FourSteps(s, arm, NextEventStep(due), NextEventStep(due), ReturnStep(events));
  }

  lemma FourSteps(s: State, a: Step, b: Step, c: Step, d: Step)
    requires Inv(s) && Enabled(s, a) && Inv(Apply(s, a)) && Enabled(Apply(s, a), b) && Inv(Apply(Apply(s, a), b))
    requires Enabled(Apply(Apply(s, a), b), c) && Inv(Apply(Apply(Apply(s, a), b), c)) && Enabled(Apply(Apply(Apply(s, a), b), c), d)
    ensures Runs(s, [a, b, c, d]) && After(s, [a, b, c, d]) == Apply(Apply(Apply(Apply(s, a), b), c), d)
  {
    hide Apply, Inv, Enabled;
    var s1 := Apply(s, a);
    var s2 := Apply(s1, b);
    var s3 := Apply(s2, c);
    ApplyInv(s3, d);
    LastStep(Apply(s3, d));
    FirstStep(s3, d, []);
    FirstStep(s2, c, [d]);
    FirstStep(s1, b, [c, d]);
    FirstStep(s, a, [b, c, d]);
    assert [d] + [] == [d] && [c] + [d] == [c, d] && [b] + [c, d] == [b, c, d] && [a] + [b, c, d] == [a, b, c, d];
  }

  lemma LastStep(s: State)
    requires Inv(s)
    ensures Runs(s, []) && After(s, []) == s
  {
    hide Inv;
  }

  lemma FirstStep(s: State, a: Step, rest: seq<Step>)
    requires Inv(s) && Enabled(s, a) && Inv(Apply(s, a)) && Runs(Apply(s, a), rest)
    ensures Runs(s, [a] + rest) && After(s, [a] + rest) == After(Apply(s, a), rest)
  {
    hide Apply, Inv, Enabled;
    assert ([a] + rest)[1..] == rest;
  }
}
