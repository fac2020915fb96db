/** What the loops over the timers call: each callback as often as timers that have it are due. */
module TimerCalls {
  import opened Words
  import opened Seqs
  import opened TimerQueueModel
  import opened TimerQueueSafety
  import opened TimerDrain

  /** What a timer calls when it fires: its handler, and directly after it, unless it is to fire again, its destroy
      handler. */
  function Own(e: Entry): seq<(nat, int)> {
    match (e.data.handle, e.data.destroy)
    case (Null, Null) => []
    case (Code(h), Null) => [(h, e.data.userdata)]
    case (Null, Code(d)) => if e.interval then [] else [(d, e.data.userdata)]
    case (Code(h), Code(d)) => if e.interval then [(h, e.data.userdata)] else [(h, e.data.userdata), (d, e.data.userdata)]
  }

  /** The calls of the timers that fired, one after the other. */
  function CallsBySlot(q: Queue, log: seq<Firing>): seq<(nat, int)>
    requires forall k :: 0 <= k < |log| ==> log[k].slot < |q.entries|
  {
    if log == [] then [] else Own(q.entries[log[0].slot]) + CallsBySlot(q, log[1..])
  }

  lemma {:induction false} SlotsExist(q: Queue, now: int)
    requires Inv(q) && now != -1
    ensures forall k :: 0 <= k < |Drain(q, now).1| ==> Drain(q, now).1[k].slot < |q.entries|
    decreases TotalDue(q.entries, now)
  {
    hide Inv, TotalDue, FiredData;
    if Shift(q, now).fired.Some? {
      ShiftInv(q, now);
      ShiftEntry(q, now);
      ShiftLowersDue(q, now);
      hide Shift;
      SlotsExist(Shift(q, now).queue, now);
    }
  }

  lemma {:induction false} CallsAre(q: Queue, log: seq<Firing>)
    requires forall k :: 0 <= k < |log| ==> log[k].slot < |q.entries| && var e := q.entries[log[k].slot];
      log[k].data == TimerData(e.data.userdata, e.data.handle, if e.interval then Null else e.data.destroy)
    ensures AllCalls(log) == CallsBySlot(q, log)
  {
    if log != [] { CallsAre(q, log[1..]); }
  }

  /** The callbacks of the drain are those of the timers that fired, in the order they fired. */
  lemma DrainCalls(q: Queue, now: int)
    requires Inv(q) && now != -1
    ensures forall k :: 0 <= k < |Drain(q, now).1| ==> Drain(q, now).1[k].slot < |q.entries|
    ensures AllCalls(Drain(q, now).1) == CallsBySlot(q, Drain(q, now).1)
  {
    SlotsExist(q, now);
    var log := Drain(q, now).1;
    hide Inv, Drain, FiredData, AllCalls, CallsBySlot;
    forall k | 0 <= k < |log|
      ensures log[k].slot < |q.entries| && var e := q.entries[log[k].slot];
        log[k].data == TimerData(e.data.userdata, e.data.handle, if e.interval then Null else e.data.destroy)
    {
      DrainFires(q, now, log[k].slot);
    }
    CallsAre(q, log);
  }

  // ---------- how often a callback is called

  function Count(call: (nat, int), calls: seq<(nat, int)>): nat {
    if calls == [] then 0 else (if calls[0] == call then 1 else 0) + Count(call, calls[1..])
  }

  lemma {:induction false} CountConcat(call: (nat, int), a: seq<(nat, int)>, b: seq<(nat, int)>)
    ensures Count(call, a + b) == Count(call, a) + Count(call, b)
  {
    if a == [] {
      assert a + b == b;
    } else {
      CountConcat(call, a[1..], b);
      assert (a + b)[1..] == a[1..] + b;
    }
  }

  /** Over all timers, how often each is due times how often it makes the call. */
  function Weighted(es: seq<Entry>, now: int, call: (nat, int)): nat {
    if es == [] then 0 else Due(es[0], now) * Count(call, Own(es[0])) + Weighted(es[1..], now, call)
  }

  lemma {:induction false} WeightedUpdate(es: seq<Entry>, i: nat, e: Entry, now: int, call: (nat, int))
    requires i < |es|
    ensures Weighted(es[i := e], now, call) ==
            Weighted(es, now, call) - Due(es[i], now) * Count(call, Own(es[i])) + Due(e, now) * Count(call, Own(e))
  {
    hide Due, Own, Count;
    if i == 0 {
      assert es[i := e][1..] == es[1..];
    } else {
      WeightedUpdate(es[1..], i - 1, e, now, call);
      assert es[i := e][1..] == es[1..][i - 1 := e];
    }
  }

  lemma OneFewer(e: Entry, n: nat, now: int, call: (nat, int))
    requires e.active && e.timePoint <= now && e.timeout > 0
    ensures Due(e, now) * Count(call, Own(e)) == Due(Next(e, n), now) * Count(call, Own(Next(e, n))) + Count(call, Own(e))
  {
    SettledStep(e, now, n);
    assert Own(Next(e, n)) == Own(e);
    var d, c := Due(Next(e, n), now), Count(call, Own(e));
    assert (d + 1) * c == d * c + c;
  }

  /** Every callback is called exactly as often as the timers that have it are due: the handler of an interval timer at
      every firing, its destroy handler never, and the destroy handler of a one-shot timer as often as its handler. */
  lemma {:induction false} CallsAsDue(q: Queue, now: int, call: (nat, int))
    requires Inv(q) && now != -1
    ensures Count(call, AllCalls(Drain(q, now).1)) == Weighted(q.entries, now, call)
    decreases TotalDue(q.entries, now)
  {
    hide Inv, TotalDue, Due, Own, Count, Weighted, Next;
    if Shift(q, now).fired.Some? {
      ShiftInv(q, now);
      ShiftEntry(q, now);
      ShiftLowersDue(q, now);
      var i, r := q.active[0], Shift(q, now).queue;
      var e := q.entries[i];
      CallsAsDue(r, now, call);
      OneFewer(e, |q.entries|, now, call);
      WeightedUpdate(q.entries, i, Next(e, |q.entries|), now, call);
      FiredCalls(e, now);
      CountConcat(call, Own(e), AllCalls(Drain(r, now).1));
      assert Drain(q, now).1 == [Firing(i, e.timePoint, FiredData(e, now))] + Drain(r, now).1;
      assert Drain(q, now).1[1..] == Drain(r, now).1;
    } else {
      NoCount(call);
      forall i | 0 <= i < |q.entries| ensures Due(q.entries[i], now) == 0 { NothingDue(q, now, i); }
      NoWeight(q.entries, now, call);
    }
  }

  lemma FiredCalls(e: Entry, now: int)
    requires now != -1
    ensures CallsOf(FiredData(e, now)) == Own(e)
  {
  }

  lemma NoCount(call: (nat, int))
    ensures Count(call, []) == 0
  {
  }

  lemma {:induction false} NoWeight(es: seq<Entry>, now: int, call: (nat, int))
    requires forall i :: 0 <= i < |es| ==> Due(es[i], now) == 0
    ensures Weighted(es, now, call) == 0
  {
    hide Due, Own, Count;
    if es != [] { NoWeight(es[1..], now, call); }
  }

  // ---------- the time to wait

  /** NQTimerQueue_timeout: -1 without timers, 0 when one is due, and otherwise how far away the earliest one is, as far
      as an int can tell; shiftTimer says the same when nothing is due. */
  lemma TimeoutIs(q: Queue, now: int)
    requires Inv(q)
    ensures (forall i :: 0 <= i < |q.entries| ==> !q.entries[i].active) ==> Timeout(q, now) == -1
    ensures forall i :: 0 <= i < |q.entries| && Earliest(q, i) ==>
      Timeout(q, now) == if q.entries[i].timePoint <= now then 0 else ToInt32(q.entries[i].timePoint - now)
    ensures now != -1 && Shift(q, now).fired.None? ==> Shift(q, now).result == Timeout(q, now)
  {
    hide Inv, ToInt32, Earliest, Shift, Timeout;
    FirstEarliest(q);
    TimeoutOfFirst(q, now);
  }

  lemma TimeoutOfFirst(q: Queue, now: int)
    requires Inv(q)
    ensures q.active != [] ==> q.active[0] < |q.entries|
    ensures Timeout(q, now) ==
      if q.active == [] then -1
      else if q.entries[q.active[0]].timePoint <= now then 0
      else ToInt32(q.entries[q.active[0]].timePoint - now)
    ensures now != -1 && Shift(q, now).fired.None? ==> Shift(q, now).result == Timeout(q, now)
  {
    if q.active != [] { assert q.active[0] in q.active; }
    hide Inv, ToInt32, Insert, Release;
  }

  lemma FirstEarliest(q: Queue)
    requires Inv(q)
    ensures q.active != [] ==> q.active[0] < |q.entries| && q.entries[q.active[0]].active
    ensures q.active == [] <==> forall i :: 0 <= i < |q.entries| ==> !q.entries[i].active
    ensures q.active == [] ==> forall i :: 0 <= i < |q.entries| ==> !Earliest(q, i)
    ensures q.active != [] ==> forall i :: 0 <= i < |q.entries| && Earliest(q, i) ==> q.entries[i].timePoint == q.entries[q.active[0]].timePoint
  {
    hide Sized, IdOf;
    if q.active != [] {
      var f := q.active[0];
      assert f in q.active;
      forall i | 0 <= i < |q.entries| && Earliest(q, i) ensures q.entries[i].timePoint == q.entries[f].timePoint {
        assert i in q.active;
      }
    } else {
      forall i | 0 <= i < |q.entries| ensures !q.entries[i].active { assert i !in q.active; }
    }
  }

  ghost predicate Earliest(q: Queue, i: nat) {
    && i < |q.entries| && q.entries[i].active
    && forall j :: 0 <= j < |q.entries| && q.entries[j].active ==> q.entries[i].timePoint <= q.entries[j].timePoint
  }

  // ---------- emptying the queue

  /** NQLooper_finalize: shiftTimer with -1 until the queue is empty. What is called are the destroy handlers of all
      timers, interval or not. */
  function Emptied(q: Queue): (Queue, seq<(nat, int)>)
    requires Inv(q)
    decreases |q.active|
  {
    var r := Shift(q, -1);
    if r.result < 0 then (q, []) else
      ShiftInv(q, -1);
      ShiftShortens(q);
      var data := FiredData(q.entries[r.fired.value], -1);
      var rest := Emptied(r.queue);
      (rest.0, (if data.destroy.Code? then [(data.destroy.address, data.userdata)] else []) + rest.1)
  }

  lemma ShiftShortens(q: Queue)
    requires Inv(q) && Shift(q, -1).result >= 0
    ensures var r := Shift(q, -1);
      && q.active != [] && q.active[0] < |q.entries| && r.fired == Some(q.active[0]) && r.queue.active == q.active[1..]
      && forall i :: i in r.queue.active ==> i < |q.entries| == |r.queue.entries| && r.queue.entries[i] == q.entries[i]
  {
    TakeFirst(q);
  }

  /** The destroy handlers of these timers, next one first. */
  function Destroys(ts: seq<Timer>): seq<(nat, int)> {
    if ts == [] then [] else
      (match ts[0].data.destroy case Code(d) => [(d, ts[0].data.userdata)] case Null => []) + Destroys(ts[1..])
  }

  /** Every timer's destroy handler is called once, in the order of their times, and no timer is left. */
  lemma {:induction false} AllDestroyed(q: Queue)
    requires Inv(q)
    ensures Emptied(q).0.active == [] && Emptied(q).1 == Destroys(Timers(q))
    decreases |q.active|
  {
    if Shift(q, -1).result >= 0 {
      ShiftInv(q, -1);
      ShiftShortens(q);
      ShiftTakesFirst(q, -1);
      hide Inv, Shift;
      AllDestroyed(Shift(q, -1).queue);
    }
  }
}
