/** When timers fire, and how long the worker may sleep when nextEvent has nothing to do. */
module LooperTimeout {
  import opened Words
  import opened Seqs
  import opened Rings
  import opened LooperModel
  import opened LooperInvariant
  import opened LooperSteps
  import opened LooperSafety
  import opened LooperCompaction

  function FirstTime(s: State): int
    requires Inv(s) && s.timers.used != []
  {
    InvSorted(s);
    s.timers.entries[s.timers.used[0]].actionTime
  }

  predicate Fires(o: Outcome) {
    o.event.Some? && o.event.value.TimerFired?
  }

  lemma {:induction false} DrainFiresNone(s: State)
    requires Inv(s) && s.running.None?
    ensures !Fires(Drain(s))
    decreases ActionSockets(s), |s.pending|
  {
    if s.pending != [] {
      PopInv(s);
      if Pop(s).event.None? { DrainFiresNone(Pop(s).state); }
    }
  }

  lemma FirstIsEarliest(s: State, i: nat)
    requires Inv(s) && TimerIs(s.timers, i, {Used})
    ensures s.timers.used != [] && FirstTime(s) <= s.timers.entries[i].actionTime
  {
  }

  ghost predicate AnyDue(s: State, now: int) {
    exists i: nat :: TimerIs(s.timers, i, {Used}) && s.timers.entries[i].actionTime <= now
  }

  lemma DueIsFirstDue(s: State, now: int)
    requires Inv(s)
    ensures AnyDue(s, now) <==> s.timers.used != [] && FirstTime(s) <= now
  {
  }

  lemma FiresByCut(s: State, now: int)
    requires Inv(s) && s.running.None?
    ensures Fires(NextEvent(s, now)) <==> s.timers.used != [] && ToInt32(FirstTime(s) - now) <= 0
  {
    InvSorted(s);
    if s.timers.used == [] {
      DrainFiresNone(s.(pollTimeout := -1));
    } else if ToInt32(FirstTime(s) - now) > 0 {
      DrainFiresNone(s.(pollTimeout := ToInt32(FirstTime(s) - now)));
    }
  }

  /** What is left of a time difference after it was cut to 32 bits still has the sign it should have. */
  predicate SignSurvives(d: int) {
    var r := d % 0x1_0000_0000;
    if d <= 0 then r == 0 || 0x8000_0000 <= r else 0 < r < 0x8000_0000
  }

  /** nextEvent fires a timer just when one is due if and only if the cut of the int64_t difference to an int
      (line 364) leaves its sign alone; in particular for the first timer less than 2^31 milliseconds away. */
  lemma FiresWhenDue(s: State, now: int)
    requires Inv(s) && s.running.None?
    ensures (Fires(NextEvent(s, now)) <==> AnyDue(s, now)) <==> (s.timers.used == [] || SignSurvives(FirstTime(s) - now))
    ensures s.timers.used != [] && -0x8000_0000 <= FirstTime(s) - now < 0x8000_0000 ==> SignSurvives(FirstTime(s) - now)
  {
    FiresByCut(s, now);
    DueIsFirstDue(s, now);
  }

  // ---------- the sleep

  /** No timer, set or about to be re-armed, is earlier than `x`. */
  ghost predicate NoneBefore(t: Timers, x: int) {
    forall i :: 0 <= i < |t.entries| ==>
      && (t.entries[i].phase == Used ==> x <= t.entries[i].actionTime)
      && (t.entries[i].phase == Action && t.entries[i].interval != 0 ==> x <= t.entries[i].actionTime + t.entries[i].interval)
  }

  lemma PopNoneBefore(s: State, x: int)
    requires Inv(s) && s.pending != []
    ensures InRange(s, s.pending[0])
    ensures Pop(s).event.None? ==> (NoneBefore(Pop(s).state.timers, x) <==> NoneBefore(s.timers, x))
  {
    PopInv(s);
    hide SocketInv, DispatchInv, Of, PopSocket, PopDispatch;
    var i := s.pending[0].index;
    if s.pending[0].kind == TimerKind {
      OfMember(TimerKind, s.pending, i);
      PopTimerNoneBefore(s.timers, i, x);
    }
  }

  lemma PopTimerNoneBefore(t: Timers, i: nat, x: int)
    requires Sorted(t) && i < |t.entries| && t.entries[i].phase in {Action, Destroy}
    ensures PopTimer(t, i).event.None? ==> (NoneBefore(PopTimer(t, i).part, x) <==> NoneBefore(t, x))
  {
    var n := PopTimer(t, i).part;
    assert forall j :: 0 <= j < |t.entries| && j != i ==> n.entries[j] == t.entries[j];
  }

  /** When nothing is left to do no timer is in between, and the times are the ones known before. */
  lemma {:induction false} DrainNoneBefore(s: State, x: int)
    requires Inv(s) && s.running.None? && Drain(s).event.None?
    ensures var n := Drain(s).state;
      && Inv(n) && (NoneBefore(n.timers, x) <==> NoneBefore(s.timers, x))
      && Of(TimerKind, n.pending) == [] && n.pollTimeout == s.pollTimeout
    decreases ActionSockets(s), |s.pending|
  {
    if s.pending == [] {
      assert Fresh(s.sockets, Of(SocketKind, s.pending));
      CompactService(s);
    } else {
      PopInv(s);
      PopRunning(s);
      PopNoneBefore(s, x);
      DrainNoneBefore(Pop(s).state, x);
    }
  }

  /** The worker that sleeps for pollTimeout wakes up in time for every timer. */
  ghost predicate WakesInTime(n: State, now: int) {
    forall i :: 0 <= i < |n.timers.entries| && n.timers.entries[i].phase == Used ==>
      n.pollTimeout >= 0 && now + n.pollTimeout <= if now < n.timers.entries[i].actionTime then n.timers.entries[i].actionTime else now
  }

  /** When the sleep computed from the first timer ends. */
  function SleepEnds(s: State, now: int): int
    requires Inv(s) && s.timers.used != []
  {
    now + ToInt32(FirstTime(s) - now)
  }

  /** The first timer is not overdue, and no interval timer that has just fired is armed again for a time before
      the sleep ends. */
  ghost predicate NoEarlierRearm(s: State, now: int)
    requires Inv(s)
  {
    && (s.timers.used != [] ==> now < FirstTime(s))
    && forall i :: 0 <= i < |s.timers.entries| && s.timers.entries[i].phase == Action && s.timers.entries[i].interval != 0 ==>
         s.timers.used != [] && SleepEnds(s, now) <= s.timers.entries[i].actionTime + s.timers.entries[i].interval
  }

  /** The sleep is computed before the pending interval timers are armed again (lines 360-364 come before
      line 388), so the worker wakes up in time if and only if none of them comes first. The sleep ends when
      the first timer is due, or earlier when that is 2^31 milliseconds away or more; a timer overdue by more
      than that would be missed. */
  lemma SleepIsRight(s: State, now: int)
    requires Inv(s) && s.running.None? && NextEvent(s, now).event.None?
    ensures WakesInTime(NextEvent(s, now).state, now) <==> NoEarlierRearm(s, now)
    ensures s.timers.used != [] && -0x8000_0000 <= FirstTime(s) - now < 0x8000_0000 ==>
              now < FirstTime(s) == SleepEnds(s, now)
  {
    FiresByCut(s, now);
    if s.timers.used == [] {
      SleepWithoutTimers(s, now);
    } else {
      NothingFired(s, now);
      SleepWithTimers(s, now);
    }
  }

  lemma NothingFired(s: State, now: int)
    requires Inv(s) && s.running.None? && NextEvent(s, now).event.None? && s.timers.used != []
    ensures ToInt32(FirstTime(s) - now) > 0 && (SleepEnds(s, now) <= FirstTime(s) <==> now < FirstTime(s))
  {
  }

  lemma NoActionLeft(n: State)
    requires Inv(n) && Of(TimerKind, n.pending) == []
    ensures forall i :: 0 <= i < |n.timers.entries| ==> n.timers.entries[i].phase != Action
  {
    forall i | 0 <= i < |n.timers.entries| ensures n.timers.entries[i].phase != Action {
      assert i !in Of(TimerKind, n.pending);
    }
  }

  lemma SleepWithTimers(s: State, now: int)
    requires Inv(s) && s.running.None? && NextEvent(s, now).event.None? && s.timers.used != []
    requires ToInt32(FirstTime(s) - now) > 0 && (SleepEnds(s, now) <= FirstTime(s) <==> now < FirstTime(s))
    ensures WakesInTime(NextEvent(s, now).state, now) <==> NoEarlierRearm(s, now)
  {
    hide Inv, Drain, NextEvent, ToInt32;
    var x := SleepEnds(s, now);
    NextEventIs(s, now);
    DrainNoneBefore(s.(pollTimeout := SleepOf(s, now)), x);
    var n := NextEvent(s, now).state;
    NoActionLeft(n);
    FirstAmongUsed(s);
    assert NoEarlierRearm(s, now) <==> NoneBefore(s.timers, x);
    assert WakesInTime(n, now) <==> NoneBefore(n.timers, x);
  }

  lemma FirstAmongUsed(s: State)
    requires Inv(s) && s.timers.used != []
    ensures s.timers.used[0] < |s.timers.entries| && s.timers.entries[s.timers.used[0]].phase == Used
    ensures forall i: nat :: TimerIs(s.timers, i, {Used}) ==> FirstTime(s) <= s.timers.entries[i].actionTime
  {
    assert s.timers.used[0] in s.timers.used && TimerIs(s.timers, s.timers.used[0], {Used});
    forall i: nat | TimerIs(s.timers, i, {Used}) ensures FirstTime(s) <= s.timers.entries[i].actionTime {
      FirstIsEarliest(s, i);
    }
  }

  lemma NoUsedTimers(s: State)
    requires Inv(s) && s.timers.used == []
    ensures forall i :: 0 <= i < |s.timers.entries| ==> s.timers.entries[i].phase != Used
  {
    forall i | 0 <= i < |s.timers.entries| ensures s.timers.entries[i].phase != Used {
      assert i !in s.timers.used;
    }
  }

  lemma SleepWithoutTimers(s: State, now: int)
    requires Inv(s) && s.running.None? && NextEvent(s, now).event.None? && s.timers.used == []
    ensures WakesInTime(NextEvent(s, now).state, now) <==> NoEarlierRearm(s, now)
  {
    hide TimerInv, SocketInv, DispatchInv, Of, Drain;
    var t := s.(pollTimeout := -1);
    var n := NextEvent(s, now).state;
    NoUsedTimers(s);
    DrainNoneBefore(t, 0);
    NoActionLeft(n);
    if NoEarlierRearm(s, now) {
      forall i | 0 <= i < |n.timers.entries| ensures n.timers.entries[i].phase != Used {
        DrainNoneBefore(t, n.timers.entries[i].actionTime + 1);
        assert NoneBefore(s.timers, n.timers.entries[i].actionTime + 1);
      }
    } else {
      var i :| 0 <= i < |s.timers.entries| && s.timers.entries[i].phase == Action && s.timers.entries[i].interval != 0;
      var x := s.timers.entries[i].actionTime + s.timers.entries[i].interval + 1;
      DrainNoneBefore(t, x);
      assert !NoneBefore(n.timers, x);
    }
  }
}
