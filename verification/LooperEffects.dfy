/** What each call of the looper does to the whole state, and what it means for the registrations over runs. */
module LooperEffects {
  import opened Words
  import opened Seqs
  import opened Rings
  import opened LooperModel
  import opened LooperInvariant
  import opened LooperSteps
  import opened LooperSafety
  import opened LooperHistory
  import opened LooperRuns
  import opened LooperCompaction
  import opened LooperProgress
  import opened LooperTimeout
  import opened LooperTold

  // ---------- nextEvent: one event, and how long to sleep

  lemma {:induction false} DrainTells(s: State)
    requires Inv(s) && s.running.None?
    ensures var o := Drain(s);
      && o.state.log == s.log + (if o.event.Some? then [o.event.value] else [])
      && o.state.pollTimeout == (if o.event.Some? then 0 else s.pollTimeout)
      && o.state.nextSerial == s.nextSerial
    decreases ActionSockets(s), |s.pending|
  {
    InvSorted(s);
    if s.pending == [] {
      assert Fresh(s.sockets, Of(SocketKind, s.pending));
      CompactService(s);
      assert s.log + [] == s.log;
    } else {
      PopInv(s);
      PopRunning(s);
      hide TimerInv, SocketInv, DispatchInv, Of, PopTimer, PopSocket, PopDispatch;
      if Pop(s).event.None? { DrainTells(Pop(s).state); }
    }
  }

  /** nextEvent adds its event to the history and nothing else. The worker is not to sleep at all after an event;
      without one it is to sleep until the first timer that was set is due, or for ever if none was. */
  lemma NextEventTells(s: State, now: int)
    requires Inv(s) && s.running.None?
    ensures var o := NextEvent(s, now);
      && o.state.log == s.log + (if o.event.Some? then [o.event.value] else [])
      && o.state.pollTimeout == (if o.event.Some? then 0 else if s.timers.used == [] then -1 else ToInt32(FirstTime(s) - now))
      && (o.state.pollTimeout == 0 <==> o.event.Some?)
      && o.state.nextSerial == s.nextSerial
  {
    NextEventIs(s, now);
    hide Inv, Drain, NextEvent;
    if !FirstFires(s, now) { DrainTells(s.(pollTimeout := SleepOf(s, now))); }
  }

  // ---------- timers fire when they should

  /** A timer fires only while it is set, when the time it is set for is reached as far as an int tells, and no other
      timer of the list is set for an earlier time. From then on it is set for one interval later. */
  lemma FiringIsRight(s: State, now: int)
    requires Good(s) && s.running.None? && Fires(NextEvent(s, now))
    ensures var r := NextEvent(s, now).event.value.timer; var due := DueOf(s.log, r.serial);
      && TimerLifeOf(s.log, r.serial) == Armed(r)
      && ToInt32(due - now) <= 0
      && (forall i :: 0 <= i < |s.timers.entries| && s.timers.entries[i].phase == Used ==> due <= s.timers.entries[i].actionTime)
      && DueOf(NextEvent(s, now).state.log, r.serial) == due + r.interval
  {
    hide SocketHistory, DispatchHistory, NextEvent, FireTimer, TimerLifeOf, DueOf, SocketInv, DispatchInv, Of;
    FiresByCut(s, now);
    NextEventIs(s, now);
    NextEventTells(s, now);
    var i := s.timers.used[0];
    assert i in s.timers.used;
    assert TimerIs(s.timers, i, {Used});
    hide Inv;
    forall j | 0 <= j < |s.timers.entries| && s.timers.entries[j].phase == Used ensures s.timers.entries[i].actionTime <= s.timers.entries[j].actionTime {
      FirstIsEarliest(s, j);
    }
    TimerLifeAppend(s.log, TimerFired(TimerRegOf(s.timers, i)), s.timers.entries[i].serial);
  }

  // ---------- first come, first served

  /** What was in a list is still in front, in its order. */
  predicate InFront(s: State, n: State) {
    && s.timers.free <= n.timers.free && s.dispatches.free <= n.dispatches.free
    && s.sockets.used <= n.sockets.used && s.sockets.free == n.sockets.free
  }

  lemma PartsServe(s: State, i: nat)
    ensures Sorted(s.timers) && i < |s.timers.entries| ==> s.timers.free <= PopTimer(s.timers, i).part.free
    ensures i < |s.dispatches.entries| ==> s.dispatches.free <= PopDispatch(s.dispatches, i).part.free
    ensures i < |s.sockets.entries| == |s.sockets.pollfd| ==>
      s.sockets.used <= PopSocket(s.sockets, i).part.used && s.sockets.free == PopSocket(s.sockets, i).part.free
  {
    hide Sorted, InsertPosition;
  }

  lemma PopServes(s: State)
    requires Inv(s) && s.pending != []
    ensures InRange(s, s.pending[0]) && InFront(s, Pop(s).state) && s.pending[1..] <= Pop(s).state.pending
  {
    PopInv(s);
    InvSorted(s);
    hide Inv, Sorted, PopTimer, PopSocket, PopDispatch;
    PartsServe(s, s.pending[0].index);
  }

  lemma {:induction false} CompactLeaves(s: State)
    requires Inv(s) && s.running.None?
    ensures Compact(s).timers == s.timers && Compact(s).dispatches == s.dispatches
    decreases |s.sockets.used|
  {
    if s.sockets.used != [] {
      CompactStepInv(s);
      CompactLeaves(CompactStep(s));
    }
  }

  lemma {:induction false} DrainServes(s: State)
    requires Inv(s) && s.running.None?
    ensures var o := Drain(s); var n := o.state;
      && s.timers.free <= n.timers.free && s.dispatches.free <= n.dispatches.free
      && (o.event.Some? ==> InFront(s, n) && exists k :: 0 < k <= |s.pending| && s.pending[k..] <= n.pending)
    decreases ActionSockets(s), |s.pending|
  {
    if s.pending == [] {
      CompactLeaves(s);
    } else {
      PopInv(s);
      PopRunning(s);
      PopServes(s);
      var p := Pop(s).state;
      hide TimerInv, SocketInv, DispatchInv, Of, Pop;
      if Pop(s).event.None? {
        DrainServes(p);
        if Drain(p).event.Some? { StillBehind(s.pending, p.pending, Drain(p).state.pending); }
      }
    }
  }

  lemma StillBehind(a: seq<Ref>, b: seq<Ref>, c: seq<Ref>)
    requires a != [] && a[1..] <= b && exists k :: 0 < k <= |b| && b[k..] <= c
    ensures exists k :: 0 < k <= |a| && a[k..] <= c
  {
    var k :| 0 < k <= |b| && b[k..] <= c;
    var m := |a| - 1;
    if k <= m {
      assert a[k + 1..] == a[1..][k..] && a[1..] == b[..m];
      assert b[..m][k..] == b[k..][..m - k];
      assert a[k + 1..] <= c;
    } else {
      assert a[|a|..] == [];
    }
  }

  /** nextEvent takes its work from the front of the pending list and puts everything behind what is there: entries that
      become free behind the free ones, sockets that go back behind those that have been looked at. Together with
      `SetTimerDoes`, `ClearTimerDoes` and `DispatchDoes` every list is a queue. */
  lemma EventServes(s: State, now: int)
    requires Inv(s) && s.running.None?
    ensures var o := NextEvent(s, now); var n := o.state;
      && s.timers.free <= n.timers.free && s.dispatches.free <= n.dispatches.free
      && (o.event.Some? ==> InFront(s, n) && exists k :: 0 <= k <= |s.pending| && s.pending[k..] <= n.pending)
  {
    NextEventIs(s, now);
    if FirstFires(s, now) {
      assert s.pending[0..] == s.pending;
    } else {
      hide Inv, Drain, NextEvent;
      DrainServes(s.(pollTimeout := SleepOf(s, now)));
    }
  }

  // ---------- nothing is left behind

  lemma {:induction false} DrainIdle(s: State)
    requires Inv(s) && s.running.None? && Drain(s).event.None?
    ensures var n := Drain(s).state;
      && Inv(n) && n.running.None? && Of(TimerKind, n.pending) == [] && Of(DispatchKind, n.pending) == []
      && (forall i :: 0 <= i < n.sockets.pollSize ==> i < |n.sockets.entries| && n.sockets.entries[i].phase == Used)
    decreases ActionSockets(s), |s.pending|
  {
    if s.pending == [] {
      CompactInv(s);
      assert Fresh(s.sockets, Of(SocketKind, s.pending));
      CompactService(s);
      Compaction(s);
      var n := Compact(s);
      forall i | 0 <= i < n.sockets.pollSize ensures i < |n.sockets.entries| && n.sockets.entries[i].phase == Used {
        assert i in Of(SocketKind, n.pending);
      }
    } else {
      PopInv(s);
      PopRunning(s);
      hide TimerInv, SocketInv, DispatchInv, Of, Pop;
      DrainIdle(Pop(s).state);
    }
  }

  lemma IdleLists(s: State, now: int)
    requires Inv(s) && s.running.None? && NextEvent(s, now).event.None?
    ensures var n := NextEvent(s, now).state;
      && Inv(n) && n.running.None? && Of(TimerKind, n.pending) == [] && Of(DispatchKind, n.pending) == []
      && (forall i :: 0 <= i < n.sockets.pollSize ==> i < |n.sockets.entries| && n.sockets.entries[i].phase == Used)
  {
    NextEventIs(s, now);
    hide Inv, Drain, NextEvent;
    DrainIdle(s.(pollTimeout := SleepOf(s, now)));
  }

  /** When nextEvent finds nothing to do, nothing is left to do. Every timer that is to fire again is in the list, set
      for its time; every one-shot timer that has fired has had its destroy handler called, if it has one; every
      socket that has not ended waits in the poll array; every one that has ended has had its destroy handler called,
      if it has one; every dispatch has run and been destroyed. */
  lemma IdleMeansDone(s: State, now: int)
    requires Good(s) && s.running.None? && NextEvent(s, now).event.None?
    ensures var n := NextEvent(s, now).state;
      && (forall m: nat :: TimerLifeOf(n.log, m).Armed? ==> exists i: nat :: SetFor(n, i, m))
      && (forall m: nat :: TimerLifeOf(n.log, m).Fired? ==> TimerLifeOf(n.log, m).reg.destroy == Null)
      && (forall m: nat :: SocketLifeOf(n.log, m).Live? ==> exists i: nat :: Polled(n, i, m))
      && (forall m: nat :: SocketLifeOf(n.log, m).Ended? ==> SocketLifeOf(n.log, m).reg.destroy == Null)
      && (forall m: nat :: !SocketLifeOf(n.log, m).Called?)
      && Ran(n.log) == Accepted(n.log) && Destroyed(n.log) == WithDestroy(Ran(n.log))
  {
    NextEventGood(s, now);
    IdleLists(s, now);
    var n := NextEvent(s, now).state;
    hide NextEvent;
    DispatchOrder(n);
    NoActionLeft(n);
    IdleTimers(n);
    IdleSockets(n);
  }

  /** The timer of registration `m` is in the list of timers, for the time it is due. */
  predicate SetFor(n: State, i: nat, m: nat) {
    && i < |n.timers.entries| && n.timers.entries[i].phase == Used && n.timers.entries[i].serial == m
    && i in n.timers.used && n.timers.entries[i].actionTime == DueOf(n.log, m) && Armed(TimerRegOf(n.timers, i)) == TimerLifeOf(n.log, m)
  }

  predicate Polled(n: State, i: nat, m: nat) {
    && i < n.sockets.pollSize <= |n.sockets.entries| == |n.sockets.pollfd| && n.sockets.entries[i].phase == Used
    && SocketLife.Live(SocketRegOf(n.sockets, i)) == SocketLifeOf(n.log, m) && n.sockets.entries[i].serial == m
  }

  lemma IdleTimers(n: State)
    requires Good(n) && forall i :: 0 <= i < |n.timers.entries| ==> n.timers.entries[i].phase != Action
    ensures forall m: nat :: TimerLifeOf(n.log, m).Armed? ==> exists i: nat :: SetFor(n, i, m)
    ensures forall m: nat :: TimerLifeOf(n.log, m).Fired? ==> TimerLifeOf(n.log, m).reg.destroy == Null
  {
    hide SocketHistory, DispatchHistory, TimerLifeOf, DueOf, SocketInv, DispatchInv, Of;
    forall m: nat | Unfinished(TimerLifeOf(n.log, m)) ensures TimerLifeOf(n.log, m).Armed? && exists i: nat :: SetFor(n, i, m) {
      assert Kept(n.timers.entries, m);
      var i :| 0 <= i < |n.timers.entries| && Current(n.timers.entries[i]) && n.timers.entries[i].serial == m;
      UsedTimerListed(n, i);
      assert SetFor(n, i, m);
    }
  }

  lemma IdleSockets(n: State)
    requires Good(n) && n.running.None?
    requires forall i :: 0 <= i < n.sockets.pollSize ==> i < |n.sockets.entries| && n.sockets.entries[i].phase == Used
    ensures forall m: nat :: SocketLifeOf(n.log, m).Live? ==> exists i: nat :: Polled(n, i, m)
    ensures forall m: nat :: SocketLifeOf(n.log, m).Ended? ==> SocketLifeOf(n.log, m).reg.destroy == Null
    ensures forall m: nat :: !SocketLifeOf(n.log, m).Called?
  {
    hide Inv, TimerHistory, DispatchHistory, SocketLifeOf;
    forall m: nat | Unserved(SocketLifeOf(n.log, m)) ensures SocketLifeOf(n.log, m).Live? && exists i: nat :: Polled(n, i, m) {
      assert HasSlot(n.sockets, n.running, m);
      var i :| 0 <= i < n.sockets.pollSize && Counted(n.sockets, n.running, i) && n.sockets.entries[i].serial == m;
      assert SlotLife(n.sockets, n.running, i, SocketLifeOf(n.log, m));
      assert Polled(n, i, m);
    }
  }

  // ---------- a registration stays what it was

  function TimerRegistration(e: Event): TimerReg
    requires TimerSerial(e).Some?
  {
    e.timer
  }

  function SocketRegistration(e: Event): SocketReg
    requires SocketSerial(e).Some?
  {
    e.socket
  }

  /** All that is ever heard of a timer carries the interval, handlers and userdata it was set with. */
  lemma {:induction false} TimerStays(log: seq<Event>, n: nat, i: nat, j: nat)
    requires TimerLifeOf(log, n) != Wrong && i < |log| && j < |log|
    requires TimerSerial(log[i]) == Some(n) && TimerSerial(log[j]) == Some(n)
    ensures TimerRegistration(log[i]) == TimerRegistration(log[j])
  {
    OneTimer(log, n, i);
    OneTimer(log, n, j);
  }

  /** The registration with which a serial number was used first. */
  function FirstTimer(log: seq<Event>, n: nat): Option<TimerReg> {
    if log == [] then None else
      var q, e := FirstTimer(log[..|log| - 1], n), log[|log| - 1];
      if q.None? && TimerSerial(e) == Some(n) then Some(TimerRegistration(e)) else q
  }

  lemma {:induction false} OneTimer(log: seq<Event>, n: nat, i: nat)
    requires TimerLifeOf(log, n) != Wrong && i < |log| && TimerSerial(log[i]) == Some(n)
    ensures FirstTimer(log, n) == Some(TimerRegistration(log[i]))
    decreases |log|
  {
    var k := |log| - 1;
    var front := log[..k];
    TimerKnown(front, n);
    if i < k {
      assert front[i] == log[i];
      OneTimer(front, n, i);
    }
  }

  lemma {:induction false} TimerKnown(log: seq<Event>, n: nat)
    ensures TimerLifeOf(log, n).Unset? ==> FirstTimer(log, n).None?
    ensures TimerLifeOf(log, n).Armed? || TimerLifeOf(log, n).Fired? ==> FirstTimer(log, n) == Some(TimerLifeOf(log, n).reg)
    decreases |log|
  {
    if log != [] { TimerKnown(log[..|log| - 1], n); }
  }

  function FirstSocket(log: seq<Event>, n: nat): Option<SocketReg> {
    if log == [] then None else
      var q, e := FirstSocket(log[..|log| - 1], n), log[|log| - 1];
      if q.None? && SocketSerial(e) == Some(n) then Some(SocketRegistration(e)) else q
  }

  /** The same for sockets, descriptor included. */
  lemma {:induction false} SocketStays(log: seq<Event>, n: nat, i: nat, j: nat)
    requires SocketLifeOf(log, n) != Misused && i < |log| && j < |log|
    requires SocketSerial(log[i]) == Some(n) && SocketSerial(log[j]) == Some(n)
    ensures SocketRegistration(log[i]) == SocketRegistration(log[j])
  {
    OneSocket(log, n, i);
    OneSocket(log, n, j);
  }

  lemma {:induction false} OneSocket(log: seq<Event>, n: nat, i: nat)
    requires SocketLifeOf(log, n) != Misused && i < |log| && SocketSerial(log[i]) == Some(n)
    ensures FirstSocket(log, n) == Some(SocketRegistration(log[i]))
    decreases |log|
  {
    var k := |log| - 1;
    var front := log[..k];
    SocketKnown(front, n);
    if i < k {
      assert front[i] == log[i];
      OneSocket(front, n, i);
    }
  }

  lemma {:induction false} SocketKnown(log: seq<Event>, n: nat)
    ensures SocketLifeOf(log, n).Absent? ==> FirstSocket(log, n).None?
    ensures SocketLifeOf(log, n).Live? || SocketLifeOf(log, n).Called? || SocketLifeOf(log, n).Ended? ==>
              FirstSocket(log, n) == Some(SocketLifeOf(log, n).reg)
    decreases |log|
  {
    if log != [] { SocketKnown(log[..|log| - 1], n); }
  }

  // ---------- the calls, one by one

  /** Nothing but the timers, the pending list and the history is touched. */
  predicate OnlyTimers(s: State, n: State) {
    n.sockets == s.sockets && n.dispatches == s.dispatches && n.running == s.running && n.pollTimeout == s.pollTimeout
  }

  /** setTimer: with a free entry, the first one now holds exactly what was asked for, under a nonce it did not have;
      it is in the list behind everything that is not later and in front of everything later. */
  lemma SetTimerDoes(s: State, actionTime: int, interval: int, action: nat, destroy: Handler, userdata: int)
    requires Inv(s)
    ensures var r := SetTimer(s, actionTime, interval, action, destroy, userdata); var t := s.timers; var u := r.0.timers;
      && (t.free == [] ==> r == (s, 0))
      && (t.free != [] ==>
            var i := t.free[0];
            && i < |t.entries| == |u.entries| && u.entries == t.entries[i := u.entries[i]]
            && TimerRegOf(u, i) == TimerReg(s.nextSerial, interval, action, destroy, userdata)
            && u.entries[i].phase == Used && u.entries[i].actionTime == actionTime
            && u.entries[i].nonce != t.entries[i].nonce && NonceOk(u.entries[i].nonce)
            && r.1 == i + 0x10000 * u.entries[i].nonce
            && u.free == t.free[1..] && r.0.pending == s.pending && OnlyTimers(s, r.0) && r.0.nextSerial == s.nextSerial + 1
            && r.0.log == s.log + [TimerSet(TimerRegOf(u, i), actionTime)]
            && exists p :: 0 <= p <= |t.used| && u.used == t.used[..p] + [i] + t.used[p..] && Between(t, p, actionTime))
  {
    if s.timers.free != [] {
      FreeTimerSorted(s);
      assert s.timers.free[0] in s.timers.free;
      hide SocketInv, DispatchInv, Of, InsertPosition;
      var p := InsertPosition(s.timers.(free := s.timers.free[1..]), actionTime, 0);
      BetweenAll(s.timers, p, actionTime);
      assert InsertAt(s.timers.used, p, s.timers.free[0]) == s.timers.used[..p] + [s.timers.free[0]] + s.timers.used[p..];
    }
  }

  ghost predicate Between(t: Timers, p: nat, time: int) {
    && (forall a :: 0 <= a < p && a < |t.used| ==> t.used[a] < |t.entries| && t.entries[t.used[a]].actionTime <= time)
    && (forall a :: p <= a < |t.used| ==> t.used[a] < |t.entries| && time < t.entries[t.used[a]].actionTime)
  }

  lemma BetweenAll(t: Timers, p: nat, time: int)
    requires Sorted(t) && p <= |t.used|
    requires forall a :: 0 <= a < p ==> t.entries[t.used[a]].actionTime <= time
    requires p < |t.used| ==> time < t.entries[t.used[p]].actionTime
    ensures Between(t, p, time)
  {
  }

  /** clearTimer: it answers whether nonce and kind are those of the entry. Then a timer that was not on its way to be
      freed is taken out of its list, and goes to the back of the free list, or of the pending list when it has a
      destroy handler; nothing else changes, and the history says that it was cleared. */
  lemma ClearTimerDoes(s: State, id: Id, isInterval: bool)
    requires Inv(s) && Enabled(s, ClearTimerStep(id, isInterval))
    ensures var r := ClearTimer(s, id, isInterval); var i := id.index; var e := s.timers.entries[i]; var n := r.0;
      && (r.1 <==> e.nonce == id.nonce && (isInterval <==> e.interval != 0))
      && (!r.1 || e.phase == Destroy ==> n == s)
      && (r.1 && e.phase != Destroy ==>
            && e.phase in {Used, Action}
            && n.timers.entries == s.timers.entries[i := e.(phase := if e.destroy == Null then Free else Destroy)]
            && n.timers.used == Without(s.timers.used, i)
            && n.timers.free == s.timers.free + (if e.destroy == Null then [i] else [])
            && n.pending == Without(s.pending, Ref(TimerKind, i)) + (if e.destroy == Null then [] else [Ref(TimerKind, i)])
            && OnlyTimers(s, n) && n.nextSerial == s.nextSerial
            && n.log == s.log + [TimerCleared(TimerReg(e.serial, e.interval, e.action, e.destroy, e.userdata))])
  {
    hide Inv;
    var i := id.index;
    var e := s.timers.entries[i];
    if Clears(s.timers, id, isInterval) && e.phase != Destroy {
      WhereTimer(s, i);
      if e.phase == Used {
        WithoutOne(s.timers.used, IndexOf(s.timers.used, i));
        WithoutNone(s.pending, Ref(TimerKind, i));
      } else {
        WithoutOne(s.pending, IndexOf(s.pending, Ref(TimerKind, i)));
        WithoutNone(s.timers.used, i);
      }
    }
  }

  /** The list without the entries that are `x`. */
  function Without<T(==)>(xs: seq<T>, x: T): seq<T> {
    if xs == [] then [] else (if xs[0] == x then [] else [xs[0]]) + Without(xs[1..], x)
  }

  lemma {:induction false} WithoutNone<T>(xs: seq<T>, x: T)
    requires x !in xs
    ensures Without(xs, x) == xs
  {
    if xs != [] { WithoutNone(xs[1..], x); }
  }

  lemma {:induction false} WithoutOne<T>(xs: seq<T>, k: nat)
    requires NoDup(xs) && k < |xs|
    ensures Without(xs, xs[k]) == RemoveAt(xs, k)
  {
    if k == 0 {
      TailMembers(xs);
      WithoutNone(xs[1..], xs[0]);
    } else {
      WithoutOne(xs[1..], k - 1);
      assert xs == [xs[0]] + xs[1..];
      assert RemoveAt(xs, k) == [xs[0]] + RemoveAt(xs[1..], k - 1);
    }
  }

  lemma PendingApart(s: State)
    requires Inv(s)
    ensures NoDup(s.pending)
  {
    forall a, b | 0 <= a < b < |s.pending| ensures s.pending[a] != s.pending[b] {
      PendingDistinct(s, a, b);
    }
  }

  lemma WhereTimer(s: State, i: nat)
    requires Inv(s) && i < |s.timers.entries| && s.timers.entries[i].phase in {Used, Action}
    ensures NoDup(s.pending) && NoDup(s.timers.used)
    ensures s.timers.entries[i].phase == Used ==> i in s.timers.used && Ref(TimerKind, i) !in s.pending
    ensures s.timers.entries[i].phase == Action ==> i !in s.timers.used && Ref(TimerKind, i) in s.pending
  {
    PendingApart(s);
    OfMember(TimerKind, s.pending, i);
    hide SocketInv, DispatchInv, Of;
  }

  /** addSocket: with a free slot, the socket is the last one that is polled, with no events asked for or seen, and at
      the back of the pending list. */
  lemma AddSocketDoes(s: State, handle: int, action: nat, destroy: Handler, userdata: int)
    requires Inv(s)
    ensures var r := AddSocket(s, handle, action, destroy, userdata); var k := s.sockets; var n := r.0.sockets; var i := k.pollSize;
      && (r.1 <==> i < |k.entries|)
      && (!r.1 ==> r.0 == s)
      && (r.1 ==>
            && |k.entries| == |n.entries| == |n.pollfd| && n.entries == k.entries[i := n.entries[i]]
            && n.pollfd == k.pollfd[i := Pollfd(handle, 0, 0)] && n.pollSize == i + 1 && n.used == k.used && n.free == k.free[1..]
            && SocketRegOf(n, i) == SocketReg(s.nextSerial, handle, action, destroy, userdata) && n.entries[i].phase == Used
            && r.0.pending == s.pending + [Ref(SocketKind, i)] && r.0.nextSerial == s.nextSerial + 1
            && r.0.timers == s.timers && r.0.dispatches == s.dispatches && r.0.running == s.running && r.0.pollTimeout == s.pollTimeout
            && r.0.log == s.log + [SocketAdded(SocketRegOf(n, i))])
  {
    hide TimerInv, DispatchInv, Of;
  }

  /** removeSocket: it answers whether the descriptor is polled. The first slot that has it, if its socket has not
      ended, goes to the list of tombstones, or to the back of the pending list when it has a destroy handler. */
  lemma RemoveSocketDoes(s: State, handle: int)
    requires Inv(s)
    ensures var r := RemoveSocket(s, handle); var k := s.sockets;
      && k.pollSize <= |k.entries| == |k.pollfd|
      && (r.1 <==> exists i :: 0 <= i < k.pollSize && k.pollfd[i].fd == handle)
      && (r.0 == s || exists i :: 0 <= i < k.pollSize && Ends(s, i, handle, r.0))
      && (forall i :: 0 <= i < k.pollSize && FirstWith(k, i, handle) && k.entries[i].phase in {Used, Action} ==> Ends(s, i, handle, r.0))
  {
    var i := FindSocket(s.sockets, handle, 0);
    if i < s.sockets.pollSize && s.sockets.entries[i].phase in {Used, Action} {
      EndSocketDoes(s, i);
    }
    hide TimerInv, DispatchInv, Of, EndSocket, Ends;
  }

  ghost predicate FirstWith(k: Sockets, i: nat, handle: int) {
    i < |k.pollfd| && k.pollfd[i].fd == handle && forall j :: 0 <= j < i ==> k.pollfd[j].fd != handle
  }

  predicate Ends(s: State, i: nat, handle: int, n: State) {
    var k := s.sockets;
    && i < |k.entries| == |k.pollfd| && k.pollfd[i].fd == handle && k.entries[i].phase in {Used, Action}
    && var e := k.entries[i];
    && n.sockets.entries == k.entries[i := e.(phase := if e.destroy == Null then Free else Destroy)]
    && n.sockets.used == Without(k.used, i) + (if e.destroy == Null then [i] else [])
    && n.pending == Without(s.pending, Ref(SocketKind, i)) + (if e.destroy == Null then [] else [Ref(SocketKind, i)])
    && n.sockets == k.(entries := n.sockets.entries, used := n.sockets.used)
    && n == s.(sockets := n.sockets, pending := n.pending, log := n.log)
    && n.log == s.log + [SocketRemoved(SocketReg(e.serial, handle, e.action, e.destroy, e.userdata))]
  }

  lemma EndSocketDoes(s: State, i: nat)
    requires Inv(s) && i < s.sockets.pollSize <= |s.sockets.entries| == |s.sockets.pollfd| && s.sockets.entries[i].phase in {Used, Action}
    ensures Ends(s, i, s.sockets.pollfd[i].fd, EndSocket(s, i))
  {
    WhereSocket(s, i);
    hide Inv;
    if i in s.sockets.used {
      WithoutOne(s.sockets.used, IndexOf(s.sockets.used, i));
      WithoutNone(s.pending, Ref(SocketKind, i));
    } else {
      WithoutOne(s.pending, IndexOf(s.pending, Ref(SocketKind, i)));
      WithoutNone(s.sockets.used, i);
    }
  }

  lemma WhereSocket(s: State, i: nat)
    requires Inv(s) && i < s.sockets.pollSize
    ensures NoDup(s.pending) && NoDup(s.sockets.used)
    ensures i in s.sockets.used <==> Ref(SocketKind, i) !in s.pending
  {
    PendingApart(s);
    OfMember(SocketKind, s.pending, i);
    hide TimerInv, DispatchInv, Of;
  }

  /** dispatch: with a free entry, the first one holds what was asked for and waits at the back of the pending list. */
  lemma DispatchDoes(s: State, action: nat, destroy: Handler, userdata: int)
    requires Inv(s)
    ensures var r := Dispatch(s, action, destroy, userdata); var d := s.dispatches; var n := r.0.dispatches;
      && (r.1 <==> d.free != [])
      && (!r.1 ==> r.0 == s)
      && (r.1 ==>
            var i := d.free[0];
            && i < |d.entries| == |n.entries| && n.entries == d.entries[i := n.entries[i]] && n.free == d.free[1..]
            && DispatchRegOf(n, i) == DispatchReg(s.nextSerial, action, destroy, userdata) && n.entries[i].phase == Used
            && r.0.pending == s.pending + [Ref(DispatchKind, i)] && r.0.nextSerial == s.nextSerial + 1
            && r.0.timers == s.timers && r.0.sockets == s.sockets && r.0.running == s.running && r.0.pollTimeout == s.pollTimeout
            && r.0.log == s.log + [Dispatched(DispatchRegOf(n, i))])
  {
    if s.dispatches.free != [] { assert s.dispatches.free[0] in s.dispatches.free; }
    hide TimerInv, SocketInv, Of;
  }

  /** The assertion of clearTimer fails exactly for the identifier of a timer whose entry is in the free list. */
  lemma ClearAsserts(s: State, id: Id, isInterval: bool)
    requires Inv(s) && id.index < |s.timers.entries|
    ensures !Enabled(s, ClearTimerStep(id, isInterval)) <==>
              && id.index in s.timers.free && s.timers.entries[id.index].nonce == id.nonce
              && (isInterval <==> s.timers.entries[id.index].interval != 0)
  {
    assert id.index in s.timers.free <==> TimerIs(s.timers, id.index, {Free});
  }

  /** Clearing a timer without a destroy handler twice makes it fail. */
  lemma ClearedTwiceAsserts(s: State, actionTime: int, interval: int, action: nat, userdata: int)
    requires Inv(s) && s.timers.free != [] && |s.timers.entries| <= 0xFFFF
    ensures var r := SetTimer(s, actionTime, interval, action, Null, userdata); var clear := ClearTimerStep(IdOf(r.1), interval != 0);
      Inv(r.0) && Enabled(r.0, clear) && Inv(Apply(r.0, clear)) && !Enabled(Apply(r.0, clear), clear)
  {
    hide SetTimer, Inv, IdOf, IdValue, ClearTimer, Enabled, Between;
    SetTimerInv(s, actionTime, interval, action, Null, userdata);
    SetTimerDoes(s, actionTime, interval, action, Null, userdata);
    var r, i := SetTimer(s, actionTime, interval, action, Null, userdata), s.timers.free[0];
    IdsTellApart(i, r.0.timers.entries[i].nonce);
    IdValueIs(i, r.0.timers.entries[i].nonce);
    ClearedTwice(r.0, IdOf(r.1), interval != 0);
  }

  lemma ClearedTwice(s: State, id: Id, isInterval: bool)
    requires Inv(s) && id.index < |s.timers.entries| && s.timers.entries[id.index].phase == Used && s.timers.entries[id.index].destroy == Null
    requires s.timers.entries[id.index].nonce == id.nonce && (isInterval <==> s.timers.entries[id.index].interval != 0)
    ensures var clear := ClearTimerStep(id, isInterval);
      Enabled(s, clear) && Inv(Apply(s, clear)) && !Enabled(Apply(s, clear), clear)
  {
    hide Inv, ClearTimer;
    ClearTimerInv(s, id, isInterval);
    ClearTimerDoes(s, id, isInterval);
  }

  /** What creation leaves: as many entries as asked for, all free and in order, and the wakeup socket. */
  lemma CreateDoes(timerLimit: nat, socketLimit: nat, dispatchLimit: nat, wakeup: int, wakeupAction: nat, thiz: int)
    requires timerLimit <= 0xFFFF && socketLimit <= 0xFFFE && dispatchLimit <= 0xFFFF
    ensures var r := Create(timerLimit, socketLimit, dispatchLimit, wakeup, wakeupAction, thiz);
      && r.Some? && var s := r.value; var wake := SocketReg(0, wakeup, wakeupAction, Null, thiz);
      && |s.timers.entries| == timerLimit && s.timers.used == [] && |s.timers.free| == timerLimit
      && (forall i :: 0 <= i < timerLimit ==> s.timers.free[i] == i && s.timers.entries[i].phase == Free)
      && |s.dispatches.entries| == dispatchLimit == |s.dispatches.free|
      && (forall i :: 0 <= i < dispatchLimit ==> s.dispatches.free[i] == i && s.dispatches.entries[i].phase == Free)
      && |s.sockets.entries| == |s.sockets.pollfd| == (if socketLimit == 0 then 1 else socketLimit)
      && s.sockets.pollSize == 1 && SocketRegOf(s.sockets, 0) == wake && s.sockets.entries[0].phase == Used
      && s.sockets.pollfd[0] == Pollfd(wakeup, 0, 0)
      && s.pending == [Ref(SocketKind, 0)] && s.pollTimeout == 0 && s.running.None? && s.log == [SocketAdded(wake)]
  {
    CreateIs(timerLimit, socketLimit, dispatchLimit, wakeup, wakeupAction, thiz);
    var blank := Blank(timerLimit, if socketLimit == 0 then 1 else socketLimit, dispatchLimit);
    AddSocketDoes(blank, wakeup, wakeupAction, Null, thiz);
    hide Inv, AddSocket, Create;
  }

  // ---------- after a clear, over runs

  lemma ApplyGrows(s: State, step: Step)
    requires Inv(s) && Enabled(s, step)
    ensures s.log <= Apply(s, step).log
  {
    match step {
      case NextEventStep(now) => NextEventTells(s, now); hide Inv, NextEvent;
      case ClearTimerStep(id, isInterval) => ClearTimerAside(s, id, isInterval); hide Inv, ClearTimer;
      case RemoveSocketStep(handle) => RemoveSocketDoes(s, handle); hide Inv, RemoveSocket;
      case _ => hide Inv;
    }
  }

  lemma {:induction false} RunGrows(s: State, steps: seq<Step>)
    requires Inv(s) && Runs(s, steps)
    ensures s.log <= After(s, steps).log
    decreases |steps|
  {
    if steps != [] {
      hide Inv, Apply, Enabled;
      ApplyInv(s, steps[0]);
      ApplyGrows(s, steps[0]);
      RunGrows(Apply(s, steps[0]), steps[1..]);
    }
  }

  lemma ClearedIsOver(s: State, id: Id, isInterval: bool)
    requires Good(s) && Enabled(s, ClearTimerStep(id, isInterval)) && ClearTimer(s, id, isInterval).1
    ensures TimerLifeOf(ClearTimer(s, id, isInterval).0.log, s.timers.entries[id.index].serial) == Over
  {
    ClearTimerDoes(s, id, isInterval);
    hide Inv, SocketHistory, DispatchHistory, ClearTimer, TimerLifeOf;
    var e := s.timers.entries[id.index];
    if e.phase != Destroy {
      TimerLifeAppend(s.log, TimerCleared(TimerEntryReg(e)), e.serial);
    }
  }

  lemma {:induction false} StaysOver(log: seq<Event>, n: nat, m: nat)
    requires m <= |log| && TimerLifeOf(log, n) != Wrong && TimerLifeOf(log[..m], n) == Over
    ensures forall j :: m <= j < |log| ==> TimerSerial(log[j]) != Some(n)
    decreases |log|
  {
    if m < |log| {
      var front := log[..|log| - 1];
      assert front[..m] == log[..m];
      assert forall j :: 0 <= j < |front| ==> front[j] == log[j];
      StaysOver(front, n, m);
      StillOver(front, n, m);
    }
  }

  lemma {:induction false} StillOver(log: seq<Event>, n: nat, m: nat)
    requires m <= |log| && TimerLifeOf(log[..m], n) == Over && forall j :: m <= j < |log| ==> TimerSerial(log[j]) != Some(n)
    ensures TimerLifeOf(log, n) == Over
    decreases |log|
  {
    if m < |log| {
      var front := log[..|log| - 1];
      assert front[..m] == log[..m];
      assert forall j :: 0 <= j < |front| ==> front[j] == log[j];
      StillOver(front, n, m);
    } else {
      assert log[..m] == log;
    }
  }

  /** Once clearTimer has answered true for a timer, no run after it contains anything more of that timer; in
      particular it never fires again. */
  lemma ClearedNeverFires(s: State, id: Id, isInterval: bool, steps: seq<Step>)
    requires Good(s) && Enabled(s, ClearTimerStep(id, isInterval)) && ClearTimer(s, id, isInterval).1
    ensures var n := ClearTimer(s, id, isInterval).0; Inv(n) && (Runs(n, steps) ==>
      var log := After(n, steps).log;
      |n.log| <= |log| && forall j :: |n.log| <= j < |log| ==> TimerSerial(log[j]) != Some(s.timers.entries[id.index].serial))
  {
    hide ClearTimer, Good, Inv;
    GoodInv(s);
    ClearTimerGood(s, id, isInterval);
    ClearedIsOver(s, id, isInterval);
    var n := ClearTimer(s, id, isInterval).0;
    GoodInv(n);
    if Runs(n, steps) {
      RunGrows(n, steps);
      RunsGood(n, steps);
      NeverWrong(After(n, steps), s.timers.entries[id.index].serial);
      assert After(n, steps).log[..|n.log|] == n.log;
      StaysOver(After(n, steps).log, s.timers.entries[id.index].serial, |n.log|);
    }
  }

  lemma NeverWrong(s: State, n: nat)
    requires Good(s)
    ensures TimerLifeOf(s.log, n) != Wrong
  {
  }

  // ---------- identifiers

  /** The two halves of an EntryId. */
  function IdOf(value: nat): Id {
    Id(value % 0x10000, value / 0x10000)
  }

  /** Within the limits of a looper an identifier is not 0 and tells slot and nonce apart. */
  lemma IdsTellApart(i: nat, nonce: nat)
    requires i < 0x10000 && NonceOk(nonce)
    ensures IdValue(i, nonce) != 0 && IdOf(IdValue(i, nonce)) == Id(i, nonce)
  {
  }

  /** How often the entry in slot `i` is given to a new timer during a run. */
  ghost function Reuses(s: State, steps: seq<Step>, i: nat): nat
    requires Inv(s) && Runs(s, steps)
    decreases |steps|
  {
    if steps == [] then 0 else
      ApplyInv(s, steps[0]);
      (if steps[0].SetTimerStep? && s.timers.free != [] && s.timers.free[0] == i then 1 else 0)
      + Reuses(Apply(s, steps[0]), steps[1..], i)
  }

  /** The nonces of a slot go round in 65535 steps, 0 being left out. */
  function NonceAfter(nonce: nat, n: nat): nat
    requires NonceOk(nonce)
  {
    (nonce - 1 + n) % 0xFFFF + 1
  }

  lemma NonceStep(nonce: nat, n: nat)
    requires NonceOk(nonce)
    ensures NonceAfter(nonce, 0) == nonce && NonceOk(NextNonce(nonce)) && NextNonce(nonce) == NonceAfter(nonce, 1)
    ensures NonceAfter(NextNonce(nonce), n) == NonceAfter(nonce, n + 1)
  {
    if nonce == 0xFFFF { assert (0xFFFF + n) % 0xFFFF == n % 0xFFFF; }
  }

  lemma NonceReturns(nonce: nat, n: nat)
    requires NonceOk(nonce)
    ensures NonceAfter(nonce, n) == nonce <==> n % 0xFFFF == 0
  {
    var q, r := n / 0xFFFF, n % 0xFFFF;
    Cut(nonce - 1 + r, q);
  }

  lemma {:induction false} Cut(x: nat, q: nat)
    ensures (x + 0xFFFF * q) % 0xFFFF == x % 0xFFFF
  {
    if q > 0 {
      Cut(x, q - 1);
      var y := x + 0xFFFF * (q - 1);
      assert x + 0xFFFF * q == y + 0xFFFF;
    }
  }

  lemma SetTimerNonce(s: State, step: Step, i: nat)
    requires Inv(s) && step.SetTimerStep? && i < |s.timers.entries|
    ensures var t, u := s.timers, Apply(s, step).timers;
      |u.entries| == |t.entries|
      && u.entries[i].nonce == if t.free != [] && t.free[0] == i then NextNonce(t.entries[i].nonce) else t.entries[i].nonce
  {
    if s.timers.free != [] { FreeTimerSorted(s); }
    hide Inv;
  }

  ghost predicate SameNonces(t: Timers, u: Timers) {
    |u.entries| == |t.entries| && forall i :: 0 <= i < |t.entries| ==> u.entries[i].nonce == t.entries[i].nonce
  }

  lemma {:induction false} DrainNonces(s: State)
    requires Inv(s) && s.running.None?
    ensures SameNonces(s.timers, Drain(s).state.timers)
    decreases ActionSockets(s), |s.pending|
  {
    if s.pending == [] {
      CompactTimers(s);
    } else {
      PopInv(s);
      PopRunning(s);
      PopNonces(s);
      hide TimerInv, SocketInv, DispatchInv, Of, Pop;
      if Pop(s).event.None? { DrainNonces(Pop(s).state); }
    }
  }

  lemma PopNonces(s: State)
    requires Inv(s) && s.pending != []
    ensures InRange(s, s.pending[0]) && Sorted(s.timers) && SameNonces(s.timers, Pop(s).state.timers)
  {
    PopInv(s);
    InvSorted(s);
    hide TimerInv, SocketInv, DispatchInv, Of, PopSocket, PopDispatch;
  }

  lemma OtherNonces(s: State, step: Step)
    requires Inv(s) && Enabled(s, step) && !step.SetTimerStep?
    ensures SameNonces(s.timers, Apply(s, step).timers)
  {
    match step {
      case NextEventStep(now) =>
        NextEventIs(s, now);
        hide Inv, NextEvent, Drain;
        if !FirstFires(s, now) { DrainNonces(s.(pollTimeout := SleepOf(s, now))); }
      case ClearTimerStep(id, isInterval) => ClearTimerDoes(s, id, isInterval); hide Inv, ClearTimer;
      case RemoveSocketStep(handle) => RemoveSocketDoes(s, handle); hide Inv, RemoveSocket;
      case _ => hide Inv;
    }
  }

  /** Over any run the nonce of an entry counts how often it was reused. */
  lemma {:induction false} RunNonces(s: State, steps: seq<Step>, i: nat)
    requires Inv(s) && Runs(s, steps) && i < |s.timers.entries| && NonceOk(s.timers.entries[i].nonce)
    ensures var n := After(s, steps);
      |n.timers.entries| == |s.timers.entries|
      && n.timers.entries[i].nonce == NonceAfter(s.timers.entries[i].nonce, Reuses(s, steps, i))
    decreases |steps|
  {
    hide Inv, Apply, Enabled, NonceAfter, NextNonce;
    var nonce := s.timers.entries[i].nonce;
    NonceStep(nonce, 0);
    if steps != [] {
      ApplyInv(s, steps[0]);
      if steps[0].SetTimerStep? { SetTimerNonce(s, steps[0], i); } else { OtherNonces(s, steps[0]); }
      var n := Apply(s, steps[0]);
      RunNonces(n, steps[1..], i);
      NonceStep(nonce, Reuses(n, steps[1..], i));
    }
  }

  /** The identifier of a timer is accepted, however much happens in between, exactly while its entry has been reused
      a multiple of 65535 times and holds a timer of the same kind. */
  lemma IdentifierLasts(s: State, actionTime: int, interval: int, action: nat, destroy: Handler, userdata: int,
                        steps: seq<Step>, isInterval: bool)
    requires Inv(s) && s.timers.free != [] && |s.timers.entries| <= 0xFFFF
    ensures var r := SetTimer(s, actionTime, interval, action, destroy, userdata); var id := IdOf(r.1);
      && Inv(r.0) && r.1 != 0 && id.index == s.timers.free[0] < |r.0.timers.entries|
      && (Runs(r.0, steps) ==>
            var n := After(r.0, steps);
            && id.index < |n.timers.entries|
            && (Clears(n.timers, id, isInterval) <==>
                  Reuses(r.0, steps, id.index) % 0xFFFF == 0 && (n.timers.entries[id.index].interval != 0) == isInterval))
  {
    SetTimerInv(s, actionTime, interval, action, destroy, userdata);
    SetTimerDoes(s, actionTime, interval, action, destroy, userdata);
    var r := SetTimer(s, actionTime, interval, action, destroy, userdata);
    var i := s.timers.free[0];
    hide SetTimer, Inv, IdOf, IdValue, NonceAfter;
    IdsTellApart(i, r.0.timers.entries[i].nonce);
    IdValueIs(i, r.0.timers.entries[i].nonce);
    if Runs(r.0, steps) {
      RunNonces(r.0, steps, i);
      NonceReturns(r.0.timers.entries[i].nonce, Reuses(r.0, steps, i));
    }
  }

  lemma IdValueIs(i: nat, nonce: nat)
    ensures IdValue(i, nonce) == i + 0x10000 * nonce
  {
  }

  /** No two timers have the same identifier at the same time. */
  lemma IdentifiersDiffer(s: State, i: nat, j: nat)
    requires Inv(s) && i < j < |s.timers.entries| <= 0xFFFF
    ensures IdValue(i, s.timers.entries[i].nonce) != IdValue(j, s.timers.entries[j].nonce)
  {
    hide SocketInv, DispatchInv, Of;
    IdsTellApart(i, s.timers.entries[i].nonce);
    IdsTellApart(j, s.timers.entries[j].nonce);
  }
}
