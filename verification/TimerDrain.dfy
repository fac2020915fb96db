/** NQLooper_performTimer (libnetq/Looper.c): shifting timers out of the queue at one fixed time. */
module TimerDrain {
  import opened Words
  import opened Seqs
  import opened BitOps
  import opened TimerQueueModel
  import opened TimerQueueIds
  import opened TimerQueueSafety

  /** How often a timer is due up to `now`. */
  function Due(e: Entry, now: int): nat {
    if !e.active || now < e.timePoint then 0
    else if !e.interval || e.timeout <= 0 then 1
    else (now - e.timePoint) / e.timeout + 1
  }

  function TotalDue(es: seq<Entry>, now: int): nat {
    if es == [] then 0 else Due(es[0], now) + TotalDue(es[1..], now)
  }

  lemma {:induction false} TotalUpdate(es: seq<Entry>, i: nat, e: Entry, now: int)
    requires i < |es|
    ensures TotalDue(es[i := e], now) == TotalDue(es, now) - Due(es[i], now) + Due(e, now)
  {
    if i == 0 {
      assert es[i := e][1..] == es[1..];
    } else {
      TotalUpdate(es[1..], i - 1, e, now);
      assert es[i := e][1..] == es[1..][i - 1 := e];
    }
  }

  lemma DivDown(x: nat, d: nat)
    requires d > 0 && x >= d
    ensures x / d == (x - d) / d + 1
  {
    ModUnique(x, d, (x - d) / d + 1, (x - d) % d);
  }

  lemma DueStep(e: Entry, now: int)
    requires e.active && e.timePoint <= now && e.interval && e.timeout > 0
    ensures Due(e, now) == Due(e.(timePoint := e.timePoint + e.timeout), now) + 1
  {
    var x := now - e.timePoint;
    if x >= e.timeout {
      DivDown(x, e.timeout);
    } else {
      ModUnique(x, e.timeout, 0, x);
    }
  }

  /** The entry of the first timer after it has been shifted out. */
  function Next(e: Entry, n: nat): Entry
  {
    if e.interval then e.(timePoint := e.timePoint + e.timeout)
    else e.(id := (e.id + n) % WORD, active := false, uses := e.uses + 1)
  }

  lemma ShiftEntry(q: Queue, now: int)
    requires Inv(q) && now != -1 && Shift(q, now).fired.Some?
    ensures var r := Shift(q, now); var i := q.active[0];
      && i < |q.entries| && r.fired == Some(i) && r.result == 0
      && q.entries[i].active && q.entries[i].timePoint <= now && q.entries[i].timeout > 0
      && r.queue.entries == q.entries[i := Next(q.entries[i], |q.entries|)]
  {
  }

  lemma ShiftLowersDue(q: Queue, now: int)
    requires Inv(q) && now != -1 && Shift(q, now).fired.Some?
    ensures TotalDue(Shift(q, now).queue.entries, now) < TotalDue(q.entries, now)
  {
    ShiftEntry(q, now);
    var i := q.active[0];
    var e := q.entries[i];
    if e.interval { DueStep(e, now); }
    TotalUpdate(q.entries, i, Next(e, |q.entries|), now);
  }

  /** One pass through the loop of performTimer: the slot, the time it was due, and what is called. */
  datatype Firing = Firing(slot: nat, timePoint: int, data: TimerData)

  /** Shift until nothing is due. */
  function Drain(q: Queue, now: int): (Queue, seq<Firing>)
    requires Inv(q) && now != -1
    decreases TotalDue(q.entries, now)
  {
    var r := Shift(q, now);
    if r.fired.None? then (q, []) else
      ShiftInv(q, now);
      ShiftEntry(q, now);
      ShiftLowersDue(q, now);
      var i := q.active[0];
      var rest := Drain(r.queue, now);
      (rest.0, [Firing(i, q.entries[i].timePoint, FiredData(q.entries[i], now))] + rest.1)
  }

  lemma {:induction false} DrainInv(q: Queue, now: int)
    requires Inv(q) && now != -1
    ensures var n := Drain(q, now).0; Inv(n) && |n.entries| == |q.entries| && Shift(n, now).fired.None?
    decreases TotalDue(q.entries, now)
  {
    if Shift(q, now).fired.Some? {
      ShiftInv(q, now);
      ShiftEntry(q, now);
      ShiftLowersDue(q, now);
      DrainInv(Shift(q, now).queue, now);
    }
  }

  // ---------- what each timer gets

  /** The times slot `i` fired. */
  function TimesOf(log: seq<Firing>, i: nat): seq<int> {
    if log == [] then [] else (if log[0].slot == i then [log[0].timePoint] else []) + TimesOf(log[1..], i)
  }

  /** t, t + d, t + 2 d, and so on. */
  function Series(t: int, d: int, n: nat): (r: seq<int>)
    ensures |r| == n && forall k :: 0 <= k < n ==> r[k] == t + k * d
    decreases n
  {
    if n == 0 then [] else
      var rest := Series(t + d, d, n - 1);
      assert forall k :: 1 <= k < n ==> rest[k - 1] == t + k * d by {
        forall k | 1 <= k < n ensures rest[k - 1] == t + k * d {
          assert rest[k - 1] == t + d + (k - 1) * d;
        }
      }
      [t] + rest
  }

  /** A timer after everything due has fired: an interval timer is due again at the first point of its own
      series after `now`, a one-shot timer has given its slot back. */
  function Settled(e: Entry, now: int, n: nat): Entry {
    if Due(e, now) == 0 then e
    else if e.interval then e.(timePoint := e.timePoint + Due(e, now) * e.timeout)
    else Next(e, n)
  }

  lemma SettledStep(e: Entry, now: int, n: nat)
    requires e.active && e.timePoint <= now && e.timeout > 0
    ensures Due(e, now) == Due(Next(e, n), now) + 1
    ensures Settled(Next(e, n), now, n) == Settled(e, now, n)
    ensures Series(e.timePoint, e.timeout, Due(e, now)) == [e.timePoint] + Series(Next(e, n).timePoint, e.timeout, Due(Next(e, n), now))
  {
    if e.interval {
      DueStep(e, now);
      var k := Due(Next(e, n), now);
      assert (k + 1) * e.timeout == k * e.timeout + e.timeout;
    }
  }

  /** Every timer fires exactly as often as it is due, at its own times and without drift. It hands out its own
      userdata and handler, and its destroy handler only if it is not to fire again. */
  lemma {:induction false} DrainFires(q: Queue, now: int, i: nat)
    requires Inv(q) && now != -1 && i < |q.entries|
    ensures var r := Drain(q, now); var e := q.entries[i];
      && TimesOf(r.1, i) == Series(e.timePoint, e.timeout, Due(e, now))
      && (forall k :: 0 <= k < |r.1| && r.1[k].slot == i ==>
            r.1[k].data == TimerData(e.data.userdata, e.data.handle, if e.interval then Null else e.data.destroy))
      && |r.0.entries| == |q.entries| && r.0.entries[i] == Settled(e, now, |q.entries|)
    decreases TotalDue(q.entries, now)
  {
    hide Inv, Release, Insert, Series, Position;
    var s := Shift(q, now);
    if s.fired.None? {
      NothingDue(q, now, i);
    } else {
      ShiftInv(q, now);
      ShiftEntry(q, now);
      ShiftLowersDue(q, now);
      DrainFires(s.queue, now, i);
      var j := q.active[0];
      if i == j {
        SettledStep(q.entries[i], now, |q.entries|);
        assert FiredData(Next(q.entries[i], |q.entries|), now) == FiredData(q.entries[i], now);
      }
    }
  }

  lemma NothingDue(q: Queue, now: int, i: nat)
    requires Inv(q) && now != -1 && i < |q.entries| && Shift(q, now).fired.None?
    ensures Due(q.entries[i], now) == 0
  {
  }

  lemma ShiftNotEarlier(q: Queue, now: int, x: int)
    requires Inv(q) && now != -1 && Shift(q, now).fired.Some? && q.entries[q.active[0]].timePoint >= x
    ensures var n := Shift(q, now).queue; Inv(n) && (n.active != [] ==> n.entries[n.active[0]].timePoint >= x)
  {
    ShiftInv(q, now);
    TakeFirst(q);
    var n := Shift(q, now).queue;
    forall a | 0 <= a < |n.active| ensures n.entries[n.active[a]].timePoint >= x {
      assert n.active[a] in n.active;
    }
  }

  /** The firings belong to times between `low` and `high`, and come in time order. */
  ghost predicate TimeOrder(log: seq<Firing>, low: int, high: int) {
    && (forall a :: 0 <= a < |log| ==> low <= log[a].timePoint <= high)
    && forall a, b :: 0 <= a < b < |log| ==> log[a].timePoint <= log[b].timePoint
  }

  lemma TimeOrderCons(f: Firing, log: seq<Firing>, low: int, high: int)
    requires TimeOrder(log, f.timePoint, high) && low <= f.timePoint <= high
    ensures TimeOrder([f] + log, low, high)
  {
  }

  /** Timers fire in the order of the times they were due. */
  lemma {:induction false} DrainInTimeOrder(q: Queue, now: int, low: int)
    requires Inv(q) && now != -1 && (q.active != [] ==> low <= q.entries[q.active[0]].timePoint)
    ensures TimeOrder(Drain(q, now).1, low, now)
    decreases TotalDue(q.entries, now)
  {
    hide Inv, Release, Insert, TotalDue, TimeOrder;
    var log := Drain(q, now).1;
    if Shift(q, now).fired.Some? {
      ShiftEntry(q, now);
      ShiftLowersDue(q, now);
      var e := q.entries[q.active[0]];
      ShiftNotEarlier(q, now, e.timePoint);
      var n := Shift(q, now).queue;
      DrainInTimeOrder(n, now, e.timePoint);
      TimeOrderCons(Firing(q.active[0], e.timePoint, FiredData(e, now)), Drain(n, now).1, low, now);
    } else {
      EmptyTimeOrder(low, now);
    }
  }

  lemma EmptyTimeOrder(low: int, high: int)
    ensures TimeOrder([], low, high)
  {
  }

  // ---------- when the loop ends

  /** `n` calls of shiftTimer. */
  function Shifts(q: Queue, now: int, n: nat): (r: Queue)
    requires Inv(q)
    ensures Inv(r)
    decreases n
  {
    hide Inv, Shift;
    if n == 0 then q else ShiftInv(q, now); Shifts(Shift(q, now).queue, now, n - 1)
  }

  /** The next time of a timer after `now`, if it stays in the queue. */
  function Upcoming(e: Entry, now: int): Option<int> {
    var s := Settled(e, now, 0);
    if s.active then Some(s.timePoint) else None
  }

  ghost predicate ComesFirst(q: Queue, now: int, i: nat)
    requires i < |q.entries|
  {
    && Upcoming(q.entries[i], now).Some?
    && forall j :: 0 <= j < |q.entries| && Upcoming(q.entries[j], now).Some? ==>
         Upcoming(q.entries[i], now).value <= Upcoming(q.entries[j], now).value
  }

  /** The first timer left after draining is not a multiple of 2^32 milliseconds away. */
  ghost predicate FirstNotFalseZero(q: Queue, now: int) {
    forall i :: 0 <= i < |q.entries| && ComesFirst(q, now, i) ==> (Upcoming(q.entries[i], now).value - now) % WORD != 0
  }

  /** Something is still due, or shiftTimer says so: the loop goes round again. */
  predicate GoesRound(q: Queue, now: int)
    requires Inv(q)
  {
    Shift(q, now).result == 0
  }

  lemma {:induction false} DrainedIsReached(q: Queue, now: int)
    requires Inv(q) && now != -1
    ensures var log := Drain(q, now).1;
      && Shifts(q, now, |log|) == Drain(q, now).0
      && forall n :: 0 <= n < |log| ==> GoesRound(Shifts(q, now, n), now)
    decreases TotalDue(q.entries, now)
  {
    var s := Shift(q, now);
    if s.fired.Some? {
      ShiftInv(q, now);
      ShiftEntry(q, now);
      ShiftLowersDue(q, now);
      DrainedIsReached(s.queue, now);
      var log := Drain(q, now).1;
      forall n | 0 <= n < |log| ensures GoesRound(Shifts(q, now, n), now) {
        if n > 0 { assert Shifts(q, now, n) == Shifts(s.queue, now, n - 1); }
      }
    }
  }

  lemma {:induction false} StaysStuck(q: Queue, now: int, n: nat)
    requires Inv(q) && Shift(q, now).queue == q
    ensures Shifts(q, now, n) == q
  {
    if n > 0 { StaysStuck(q, now, n - 1); }
  }

  lemma {:induction false} ShiftsAdd(q: Queue, now: int, m: nat, n: nat)
    requires Inv(q)
    ensures Shifts(q, now, m + n) == Shifts(Shifts(q, now, m), now, n)
    decreases m
  {
    hide Inv, Shift;
    if m > 0 {
      ShiftInv(q, now);
      ShiftsAdd(Shift(q, now).queue, now, m - 1, n);
    }
  }

  /** The loop of performTimer ends if and only if the first timer left is not a multiple of 2^32
      milliseconds away: otherwise the int that shiftTimer returns is 0 although nothing is due. */
  lemma LoopEnds(q: Queue, now: int)
    requires Inv(q) && now != -1
    ensures (exists n :: !GoesRound(Shifts(q, now, n), now)) <==> FirstNotFalseZero(q, now)
  {
    hide Inv, Drain, Shifts, FirstNotFalseZero, Insert, Release, ToInt32;
    DrainInv(q, now);
    DrainedIsReached(q, now);
    var d, k := Drain(q, now).0, |Drain(q, now).1|;
    FirstLeft(q, now);
    if GoesRound(d, now) {
      forall n: nat ensures GoesRound(Shifts(q, now, n), now) {
        if n >= k {
          ShiftsAdd(q, now, k, n - k);
          StaysStuck(d, now, n - k);
        }
      }
    } else {
      assert !GoesRound(Shifts(q, now, k), now);
    }
  }

  lemma DrainedUpcoming(q: Queue, now: int, i: nat)
    requires Inv(q) && now != -1 && i < |q.entries|
    ensures var d := Drain(q, now).0;
      |d.entries| == |q.entries| && Upcoming(q.entries[i], now) == if d.entries[i].active then Some(d.entries[i].timePoint) else None
  {
    hide Inv, Drain;
    DrainFires(q, now, i);
  }

  lemma FirstOfActive(q: Queue, now: int)
    requires Inv(q) && now != -1 && Shift(q, now).fired.None?
    ensures forall i :: 0 <= i < |q.entries| && q.entries[i].active ==>
      q.active != [] && q.active[0] < |q.entries| && q.entries[q.active[0]].timePoint <= q.entries[i].timePoint
    ensures q.active != [] ==> q.active[0] < |q.entries| && q.entries[q.active[0]].active
    ensures GoesRound(q, now) <==> q.active != [] && (q.entries[q.active[0]].timePoint - now) % WORD == 0
  {
    ActiveFirst(q);
    if q.active != [] { ZeroInt(q.entries[q.active[0]].timePoint - now); }
    hide Inv, Release, Insert, ToInt32;
  }

  lemma ZeroInt(x: int)
    ensures ToInt32(x) == 0 <==> x % WORD == 0
  {
  }

  lemma ActiveFirst(q: Queue)
    requires Inv(q)
    ensures forall i :: 0 <= i < |q.entries| && q.entries[i].active ==>
      q.active != [] && q.active[0] < |q.entries| && q.entries[q.active[0]].timePoint <= q.entries[i].timePoint
    ensures q.active != [] ==> q.active[0] < |q.entries| && q.entries[q.active[0]].active
  {
    hide Sized, IdOf;
    if q.active != [] { assert q.active[0] in q.active; }
    forall i | 0 <= i < |q.entries| && q.entries[i].active
      ensures q.active != [] && q.active[0] < |q.entries| && q.entries[q.active[0]].timePoint <= q.entries[i].timePoint
    {
      assert i in q.active;
    }
  }

  lemma FirstLeft(q: Queue, now: int)
    requires Inv(q) && now != -1
    ensures Inv(Drain(q, now).0) && (GoesRound(Drain(q, now).0, now) <==> !FirstNotFalseZero(q, now))
  {
    hide Inv, Drain, GoesRound, Shift, Upcoming;
    DrainInv(q, now);
    var d := Drain(q, now).0;
    FirstOfActive(d, now);
    forall i | 0 <= i < |q.entries|
      ensures Upcoming(q.entries[i], now) == if d.entries[i].active then Some(d.entries[i].timePoint) else None
    {
      DrainedUpcoming(q, now, i);
    }
    if d.active != [] {
      assert ComesFirst(q, now, d.active[0]);
    }
  }

  // ---------- what the loop calls

  /** The callbacks a firing leads to: the handler, then the destroy handler. */
  function CallsOf(data: TimerData): seq<(nat, int)> {
    (if data.handle.Code? then [(data.handle.address, data.userdata)] else [])
    + if data.destroy.Code? then [(data.destroy.address, data.userdata)] else []
  }

  function AllCalls(log: seq<Firing>): seq<(nat, int)> {
    if log == [] then [] else CallsOf(log[0].data) + AllCalls(log[1..])
  }

  /** The same calls again and again. */
  function Again(calls: seq<(nat, int)>, n: nat): seq<(nat, int)> {
    if n == 0 then [] else calls + Again(calls, n - 1)
  }

  /** The local state of performTimer between two rounds of its loop. `data` is the variable of that name, which
      nothing initialises; `over` says that the loop has ended, and `undefined` that it has used `data` before
      anything was written to it, from where on nothing is known. */
  datatype Loop = Loop(queue: Queue, data: Option<TimerData>, calls: seq<(nat, int)>, over: bool, undefined: bool)

  /** One round: shiftTimer writes to `data` only when it takes a timer out. */
  function Round(l: Loop, now: int): Loop
    requires Inv(l.queue) && now != -1
  {
    if l.over || l.undefined then l else
      var r := Shift(l.queue, now);
      if r.result != 0 then l.(queue := r.queue, over := true)
      else if r.fired.Some? then
        ShiftEntry(l.queue, now);
        var data := FiredData(l.queue.entries[r.fired.value], now);
        l.(queue := r.queue, data := Some(data), calls := l.calls + CallsOf(data))
      else if l.data.Some? then l.(queue := r.queue, calls := l.calls + CallsOf(l.data.value))
      else l.(queue := r.queue, undefined := true)
  }

  lemma RoundInv(l: Loop, now: int)
    requires Inv(l.queue) && now != -1
    ensures Inv(Round(l, now).queue)
  {
    ShiftInv(l.queue, now);
  }

  function Rounds(l: Loop, now: int, n: nat): (r: Loop)
    requires Inv(l.queue) && now != -1
    ensures Inv(r.queue)
    decreases n
  {
    if n == 0 then l else RoundInv(l, now); Rounds(Round(l, now), now, n - 1)
  }

  function Entered(q: Queue): Loop {
    Loop(q, None, [], false, false)
  }

  /** What `data` holds after the firings of `log`. */
  function LastData(data: Option<TimerData>, log: seq<Firing>): Option<TimerData> {
    if log == [] then data else Some(log[|log| - 1].data)
  }

  lemma {:induction false} RoundsAdd(l: Loop, now: int, m: nat, n: nat)
    requires Inv(l.queue) && now != -1
    ensures Rounds(l, now, m + n) == Rounds(Rounds(l, now, m), now, n)
    decreases m
  {
    hide Inv, Round;
    if m > 0 {
      RoundInv(l, now);
      RoundsAdd(Round(l, now), now, m - 1, n);
    }
  }

  /** While something is due, each round fires one timer. */
  lemma {:induction false} RoundsFire(l: Loop, now: int)
    requires Inv(l.queue) && now != -1 && !l.over && !l.undefined
    ensures var log := Drain(l.queue, now).1;
      Rounds(l, now, |log|) == Loop(Drain(l.queue, now).0, LastData(l.data, log), l.calls + AllCalls(log), false, false)
    decreases TotalDue(l.queue.entries, now)
  {
    hide Inv, TotalDue, FiredData, CallsOf, Shift;
    var q := l.queue;
    var log := Drain(q, now).1;
    if Shift(q, now).fired.Some? {
      ShiftInv(q, now);
      ShiftEntry(q, now);
      ShiftLowersDue(q, now);
      var rest := Drain(Shift(q, now).queue, now).1;
      RoundsFire(Round(l, now), now);
      assert log[1..] == rest;
      assert l.calls + CallsOf(log[0].data) + AllCalls(rest) == l.calls + (CallsOf(log[0].data) + AllCalls(rest));
    } else {
      assert l.calls + [] == l.calls;
    }
  }

  lemma {:induction false} RoundsStuck(l: Loop, now: int, n: nat)
    requires Inv(l.queue) && now != -1 && !l.over && !l.undefined && Shift(l.queue, now).fired.None? && GoesRound(l.queue, now)
    ensures l.data.Some? ==> Rounds(l, now, n) == l.(calls := l.calls + Again(CallsOf(l.data.value), n))
    ensures l.data.None? && n > 0 ==> Rounds(l, now, n) == l.(undefined := true)
    decreases n
  {
    hide Inv, CallsOf;
    assert Shift(l.queue, now).queue == l.queue;
    if n == 0 {
      assert l.calls + [] == l.calls;
    } else if l.data.Some? {
      var c := CallsOf(l.data.value);
      RoundsStuck(Round(l, now), now, n - 1);
      assert l.calls + c + Again(c, n - 1) == l.calls + (c + Again(c, n - 1));
    } else {
      Stays(Round(l, now), now, n - 1);
    }
  }

  lemma {:induction false} Stays(l: Loop, now: int, n: nat)
    requires Inv(l.queue) && now != -1 && (l.over || l.undefined)
    ensures Rounds(l, now, n) == l
  {
    if n > 0 { Stays(l, now, n - 1); }
  }

  /** What performTimer does, for any number of rounds: first it calls the handlers of everything due, in order.
      Then it ends, if the first timer left is not a multiple of 2^32 milliseconds away. Otherwise every further
      round calls the handlers of the timer that fired last once more, its destroy handler included; and if none
      has fired, the first round calls through a variable nothing has been written to. */
  lemma PerformTimerDoes(q: Queue, now: int, n: nat)
    requires Inv(q) && now != -1
    ensures var d := Drain(q, now); var l := Rounds(Entered(q), now, |d.1| + n);
      && l.queue == d.0
      && (FirstNotFalseZero(q, now) ==> !l.undefined && l.over == (n > 0) && l.calls == AllCalls(d.1))
      && (!FirstNotFalseZero(q, now) && d.1 != [] ==>
            !l.undefined && !l.over && l.calls == AllCalls(d.1) + Again(CallsOf(d.1[|d.1| - 1].data), n))
      && (!FirstNotFalseZero(q, now) && d.1 == [] ==> l.undefined == (n > 0) && !l.over && l.calls == [])
  {
    hide Inv, FirstNotFalseZero, CallsOf, Shift, Round, Drain, TotalDue;
    var d := Drain(q, now);
    RoundsFire(Entered(q), now);
    assert [] + AllCalls(d.1) == AllCalls(d.1);
    var l := Rounds(Entered(q), now, |d.1|);
    RoundsAdd(Entered(q), now, |d.1|, n);
    DrainInv(q, now);
    FirstLeft(q, now);
    if GoesRound(d.0, now) {
      RoundsStuck(l, now, n);
    } else if n > 0 {
      LastRound(l, now);
      Stays(Round(l, now), now, n - 1);
    }
  }

  lemma LastRound(l: Loop, now: int)
    requires Inv(l.queue) && now != -1 && !l.over && !l.undefined && Shift(l.queue, now).fired.None? && !GoesRound(l.queue, now)
    ensures Round(l, now) == l.(over := true)
  {
  }

  lemma {:induction false} SomeDue(q: Queue, now: int)
    requires Inv(q) && now != -1
    ensures Drain(q, now).1 == [] <==> forall i :: 0 <= i < |q.entries| ==> Due(q.entries[i], now) == 0
  {
    hide Inv, TotalDue;
    if Shift(q, now).fired.Some? {
      ShiftEntry(q, now);
      ShiftLowersDue(q, now);
    } else {
      forall i | 0 <= i < |q.entries| ensures Due(q.entries[i], now) == 0 {
        NothingDue(q, now, i);
      }
    }
  }

  /** performTimer reads the uninitialised variable if and only if no timer is due and the first one is a
      multiple of 2^32 milliseconds away. */
  lemma ReadsUnwritten(q: Queue, now: int)
    requires Inv(q) && now != -1
    ensures (exists n :: Rounds(Entered(q), now, n).undefined) <==>
            !FirstNotFalseZero(q, now) && forall i :: 0 <= i < |q.entries| ==> Due(q.entries[i], now) == 0
  {
    hide Inv, FirstNotFalseZero, Round, Drain, Due, Rounds;
    SomeDue(q, now);
    PerformTimerDoes(q, now, 1);
    if n: nat :| Rounds(Entered(q), now, n).undefined {
      var k := |Drain(q, now).1|;
      Sticky(Entered(q), now, n, k);
      PerformTimerDoes(q, now, n);
    }
  }

  lemma Sticky(l: Loop, now: int, n: nat, k: nat)
    requires Inv(l.queue) && now != -1 && Rounds(l, now, n).undefined
    ensures Rounds(l, now, k + n).undefined
  {
    hide Inv, Round;
    RoundsAdd(l, now, n, k);
    Stays(Rounds(l, now, n), now, k);
  }

  // ---------- the failing inputs

  /** One timer, exactly 2^32 milliseconds ahead: the very first round calls through uninitialised memory. */
  lemma FalseZeroReadsUnwritten(q: Queue, now: int)
    requires Inv(q) && now != -1 && |q.active| == 1 && q.active[0] < |q.entries| && q.entries[q.active[0]].timePoint == now + WORD
    ensures Rounds(Entered(q), now, 1).undefined
  {
  }

  /** A one-shot timer that is due, and another one exactly 2^32 milliseconds ahead: after n + 1 rounds the handler
      and the destroy handler of the first have been called n + 1 times, and the loop goes on. */
  lemma FalseZeroCallsAgain(q: Queue, now: int, n: nat)
    requires Inv(q) && now != -1 && |q.active| == 2 && q.active[0] < |q.entries| && q.active[1] < |q.entries|
    requires q.entries[q.active[0]].timePoint <= now && !q.entries[q.active[0]].interval
    requires q.entries[q.active[1]].timePoint == now + WORD
    ensures var l := Rounds(Entered(q), now, n + 1);
      !l.over && !l.undefined && l.calls == Again(CallsOf(q.entries[q.active[0]].data), n + 1)
  {
    hide CallsOf, Rounds;
    var i, j := q.active[0], q.active[1];
    assert i in q.active && j in q.active && i != j;
    var l := Round(Entered(q), now);
    ShiftInv(q, now);
    assert l.queue.active == [j];
    RoundsStuck(l, now, n);
    FirstThen(Entered(q), now, n);
    assert [] + CallsOf(q.entries[i].data) == CallsOf(q.entries[i].data);
  }

  lemma FirstThen(l: Loop, now: int, n: nat)
    requires Inv(l.queue) && now != -1
    ensures Inv(Round(l, now).queue) && Rounds(l, now, n + 1) == Rounds(Round(l, now), now, n)
  {
    hide Inv, Round;
    RoundInv(l, now);
  }

  /** Both states are reached from a new queue of two slots by starting a timer, or two, at time 0. */
  lemma FalseZeroStarted(first: TimerData, second: TimerData, n: nat)
    ensures Inv(Blank(2))
    ensures var q := Start(Blank(2), false, 0, WORD, first).0;
      Inv(q) && Rounds(Entered(q), 0, 1).undefined
    ensures var p := Start(Blank(2), false, 0, 1, first).0;
      Inv(p) && var q := Start(p, false, 0, 1 + WORD, second).0;
      Inv(q) && !Rounds(Entered(q), 1, n + 1).over && Rounds(Entered(q), 1, n + 1).calls == Again(CallsOf(first), n + 1)
  {
    hide CallsOf, Rounds;
    assert Pow2(1) == 2 && Sized(2);
    BlankInv(2);
    StartInv(Blank(2), false, 0, WORD, first);
    FalseZeroReadsUnwritten(Start(Blank(2), false, 0, WORD, first).0, 0);
    StartInv(Blank(2), false, 0, 1, first);
    var p := Start(Blank(2), false, 0, 1, first).0;
    StartInv(p, false, 0, 1 + WORD, second);
    FalseZeroCallsAgain(Start(p, false, 0, 1 + WORD, second).0, 1, n);
  }
}
