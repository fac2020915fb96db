/** The timer queue as the object it is in libnetq/TimerQueue.c, and the loop of libnetq/Looper.c that
    empties it of due timers. */
module TimerQueue {
  import opened Words
  import opened Seqs
  import opened BitOps
  import opened TimerQueueModel
  import opened TimerQueueIds
  import opened TimerQueueSafety
  import opened TimerDrain
  import opened TimerCalls

  class Queue {
    const allocTimer: array<Entry>
    var activeList: seq<nat>
    var freeList: seq<nat>

    ghost function View(): TimerQueueModel.Queue
      reads this, allocTimer
    {
      TimerQueueModel.Queue(allocTimer[..], activeList, freeList)
    }

    ghost predicate Valid()
      reads this, allocTimer
    {
      Inv(View())
    }

    /** NQTimerQueue_init over zeroed memory. */
    constructor (allocCount: nat)
      requires Sized(allocCount)
      ensures Valid() && fresh(allocTimer) && View() == Blank(allocCount)
    {
      allocTimer := new Entry[allocCount](i => Entry(false, false, 0, 0, 0, TimerData(0, Null, Null), 0));
      activeList := [];
      freeList := [];
      new;
      for index := 0 to allocCount
        invariant activeList == [] && |freeList| == index && forall j :: 0 <= j < index ==> freeList[j] == j
        invariant forall j :: 0 <= j < allocCount ==>
          allocTimer[j] == Entry(false, false, if j < index then j + 1 else 0, 0, 0, TimerData(0, Null, Null), 0)
      {
        allocTimer[index] := allocTimer[index].(id := index + 1);
        freeList := freeList + [index];
      }
      GenerationsDivide(allocCount);
      BlankInv(allocCount);
      assert View() == Blank(allocCount);
    }

    /** NQTimerList_insert. The walk compares with the list head as well before it stops there: `headTime` is
        what the memory of the head holds where a timer has its time. */
    method Insert(i: nat, headTime: int)
      requires i < allocTimer.Length && Sorted(View())
      modifies this`activeList
      ensures activeList == InsertAt(old(activeList), Position(old(View()), allocTimer[i].timePoint, 0), i)
    {
      var time := allocTimer[i].timePoint;
      if activeList == [] {
        activeList := InsertAt(activeList, 0, i);
        return;
      }
      var k := 0;
      while true
        invariant k <= |activeList| && activeList == old(activeList)
        invariant Position(old(View()), time, k) == Position(old(View()), time, 0)
        decreases |activeList| - k
      {
        if time < if k < |activeList| then allocTimer[activeList[k]].timePoint else headTime {
          activeList := InsertAt(activeList, k, i);
          return;
        }
        if k == |activeList| {
          activeList := InsertAt(activeList, k, i);
          return;
        }
        k := k + 1;
      }
    }

    /** Slot `i`, which is in no list, gets its new entry and its place in the active list. */
    method Place(i: nat, e: Entry, headTime: int)
      requires i < allocTimer.Length && Sorted(View()) && i !in activeList
      modifies this`activeList, allocTimer
      ensures View() == TimerQueueModel.Insert(old(View()), i, e)
    {
      PositionUpdate(View(), i, e);
      allocTimer[i] := e;
      Insert(i, headTime);
    }

    method Release(i: nat)
      requires i < allocTimer.Length
      modifies this`freeList, allocTimer
      ensures View() == TimerQueueModel.Release(old(View()), i)
    {
      var e := allocTimer[i];
      allocTimer[i] := e.(id := (e.id + allocTimer.Length) % WORD, active := false, uses := e.uses + 1);
      freeList := freeList + [i];
    }

    method Timeout(now: int) returns (timeout: int)
      requires Valid()
      ensures timeout == TimerQueueModel.Timeout(View(), now)
    {
      if activeList == [] {
        return -1;
      }
      assert activeList[0] in activeList;
      var t := allocTimer[activeList[0]].timePoint;
      timeout := if now < t then ToInt32(t - now) else 0;
    }

    /** NQTimerQueue_shiftTimer. `was` is what the caller's variable holds before the call, if anything has been
        written to it, and `data` what it holds afterwards. */
    method ShiftTimer(now: int, headTime: int, was: Option<TimerData>)
      returns (result: int, fired: Option<nat>, data: Option<TimerData>)
      requires Valid()
      modifies this, allocTimer
      ensures Valid() && Shifted(View(), result, fired) == Shift(old(View()), now)
      ensures fired.None? ==> data == was
      ensures fired.Some? ==> fired.value < |old(View()).entries| && var e := old(View()).entries[fired.value];
        data == Some(TimerData(e.data.userdata, e.data.handle, if e.interval && now != -1 then Null else e.data.destroy))
    {
      hide Inv, InvBut, Sorted, Position, TimerQueueModel.Insert, TimerQueueModel.Release;
      ShiftInv(View(), now);
      data := was;
      if activeList == [] {
        return -1, None, data;
      }
      ghost var q := View();
      TakeFirst(q);
      var i := activeList[0];
      var e := allocTimer[i];
      if now == -1 {
        activeList := activeList[1..];
        Release(i);
        return 0, Some(i), Some(e.data);
      }
      var timeout := if now < e.timePoint then e.timePoint - now else 0;
      if timeout > 0 {
        return ToInt32(timeout), None, data;
      }
      activeList := activeList[1..];
      data := Some(TimerData(e.data.userdata, e.data.handle, if e.interval then Null else e.data.destroy));
      if e.interval {
        Place(i, e.(timePoint := e.timePoint + e.timeout), headTime);
      } else {
        Release(i);
      }
      return 0, Some(i), data;
    }

    method StartTimer(interval: bool, now: int, timeout: int, data: TimerData, headTime: int) returns (id: nat)
      requires Valid()
      modifies this, allocTimer
      ensures Valid() && (View(), id) == Start(old(View()), interval, now, timeout, data)
    {
      StartInv(View(), interval, now, timeout, data);
      if timeout <= 0 || freeList == [] {
        return INVALID;
      }
      TakeFree(View());
      var i := freeList[0];
      freeList := freeList[1..];
      var e := allocTimer[i].(active := true, interval := interval, timeout := timeout, timePoint := timeout + now, data := data);
      Place(i, e, headTime);
      id := e.id;
    }

    method StopTimer(id: nat) returns (data: Option<TimerData>)
      requires Valid()
      modifies this, allocTimer
      ensures Valid() && (View(), data) == Stop(old(View()), id)
    {
      StopInv(View(), id);
      if id == INVALID {
        return None;
      }
      var i := SlotOf(allocTimer.Length, id);
      var e := allocTimer[i];
      if e.id != id || !e.active {
        return None;
      }
      activeList := RemoveAt(activeList, IndexOf(activeList, i));
      Release(i);
      data := Some(e.data);
    }
  }

  /** Where an entry belongs does not depend on what its own slot held before. */
  lemma {:induction false} PositionUpdate(q: TimerQueueModel.Queue, i: nat, e: Entry)
    requires Sorted(q) && i < |q.entries| && i !in q.active
    ensures var n := q.(entries := q.entries[i := e]);
      Sorted(n) && forall time: int, k: nat :: k <= |q.active| ==> Position(n, time, k) == Position(q, time, k)
  {
    var n := q.(entries := q.entries[i := e]);
    UpdateSorted(q, i, e);
    forall time: int, k: nat | k <= |q.active| ensures Position(n, time, k) == Position(q, time, k) {
      PositionSame(q, n, time, k);
    }
  }

  lemma {:induction false} PositionSame(q: TimerQueueModel.Queue, n: TimerQueueModel.Queue, time: int, k: nat)
    requires Sorted(q) && Sorted(n) && q.active == n.active && k <= |q.active|
    requires forall a :: 0 <= a < |q.active| ==> n.entries[q.active[a]] == q.entries[q.active[a]]
    ensures Position(n, time, k) == Position(q, time, k)
    decreases |q.active| - k
  {
    if k < |q.active| { PositionSame(q, n, time, k + 1); }
  }

  /** NQTimerQueue_create. */
  method Create(maxSize: nat) returns (queue: Queue?)
    requires maxSize < Pow2(64)
    ensures queue == null <==> maxSize == 0 || maxSize >= 0x1_0000
    ensures queue != null ==> fresh(queue) && queue.Valid() && maxSize < queue.allocTimer.Length <= 2 * maxSize
                              && queue.View() == Blank(queue.allocTimer.Length)
  {
    CreateInv(maxSize);
    if maxSize == 0 {
      return null;
    }
    var n := GetFls(maxSize, 64);
    if n > 16 {
      return null;
    }
    queue := new Queue(Pow2(n));
  }

  /** A looper as far as its timers are concerned: `calls` are the callbacks made, with their arguments. */
  class Looper {
    const timerQueue: Queue
    var poolTime: int
    ghost var calls: seq<(nat, int)>

    constructor (timerQueue: Queue)
      ensures this.timerQueue == timerQueue && calls == []
    {
      this.timerQueue := timerQueue;
      poolTime := 0;
      calls := [];
    }

    method Call(handler: Handler, userdata: int)
      modifies this`calls
      ensures calls == old(calls) + if handler.Code? then [(handler.address, userdata)] else []
    {
      if handler != Null {
        calls := calls + [(handler.address, userdata)];
      }
    }

    /** The body of the loop of NQLooper_performTimer; `was` and `data` are its local variable before and after.
        Nothing is claimed once `undefined` says that the callbacks were read from it before anything was written. */
    method Turn(headTime: int, was: Option<TimerData>) returns (over: bool, undefined: bool, data: Option<TimerData>)
      requires timerQueue.Valid() && poolTime != -1
      modifies this`calls, timerQueue, timerQueue.allocTimer
      ensures timerQueue.Valid()
      ensures Loop(timerQueue.View(), data, calls, over, undefined) == Round(Loop(old(timerQueue.View()), was, old(calls), false, false), poolTime)
    {
      hide Inv, Shift, FiredData;
      ghost var q := timerQueue.View();
      DrainStep(q, poolTime);
      over, undefined := false, false;
      var timeout, fired;
      timeout, fired, data := timerQueue.ShiftTimer(poolTime, headTime, was);
      if fired.Some? { HandedOut(q.entries[fired.value], poolTime); }
      if timeout != 0 {
        over := true;
      } else if data.None? {
        undefined := true;
      } else {
        Call(data.value.handle, data.value.userdata);
        Call(data.value.destroy, data.value.userdata);
      }
    }

    /** NQLooper_performTimer with callbacks that do not call the looper, as far as its first `limit` rounds. */
    method PerformRounds(headTime: int, limit: nat) returns (over: bool, undefined: bool, ghost data: Option<TimerData>)
      requires timerQueue.Valid() && poolTime != -1 && calls == []
      modifies this`calls, timerQueue, timerQueue.allocTimer
      ensures timerQueue.Valid()
      ensures Loop(timerQueue.View(), data, calls, over, undefined) == Rounds(Entered(old(timerQueue.View())), poolTime, limit)
    {
      hide Inv, Round;
      ghost var q := timerQueue.View();
      var local: Option<TimerData> := None;
      over, undefined, data := false, false, local;
      var n := 0;
      while n < limit && !over && !undefined
        invariant n <= limit && timerQueue.Valid() && data == local
        invariant Rounds(Loop(timerQueue.View(), local, calls, over, undefined), poolTime, limit - n) == Rounds(Entered(q), poolTime, limit)
      {
        over, undefined, local := Turn(headTime, local);
        n, data := n + 1, local;
      }
      Stays(Loop(timerQueue.View(), local, calls, true, undefined), poolTime, limit - n);
      Stays(Loop(timerQueue.View(), local, calls, over, true), poolTime, limit - n);
    }

    /** The loop of NQLooper_finalize over the timers. */
    method Finalize(headTime: int)
      requires timerQueue.Valid()
      modifies this`calls, timerQueue, timerQueue.allocTimer
      ensures timerQueue.Valid() && timerQueue.View() == Emptied(old(timerQueue.View())).0
      ensures calls == old(calls) + Emptied(old(timerQueue.View())).1
    {
      hide Inv, Shift, Emptied;
      ghost var q := timerQueue.View();
      var data: Option<TimerData> := None;
      while true
        invariant timerQueue.Valid() && Emptied(timerQueue.View()).0 == Emptied(q).0
        invariant calls + Emptied(timerQueue.View()).1 == old(calls) + Emptied(q).1
        decreases |timerQueue.View().active|
      {
        EmptyStep(timerQueue.View());
        var result, fired;
        result, fired, data := timerQueue.ShiftTimer(-1, headTime, data);
        if result < 0 {
          break;
        }
        Call(data.value.destroy, data.value.userdata);
      }
    }

    /** The whole of NQLooper_performTimer where it ends. */
    method PerformTimer(headTime: int)
      requires timerQueue.Valid() && poolTime != -1 && FirstNotFalseZero(timerQueue.View(), poolTime)
      modifies this`calls, timerQueue, timerQueue.allocTimer
      ensures timerQueue.Valid() && timerQueue.View() == Drain(old(timerQueue.View()), poolTime).0
      ensures calls == old(calls) + AllCalls(Drain(old(timerQueue.View()), poolTime).1)
    {
      hide Inv, Drain, Round, TotalDue, FirstNotFalseZero, AllCalls;
      ghost var q := timerQueue.View();
      FirstLeft(q, poolTime);
      var data: Option<TimerData> := None;
      while true
        invariant timerQueue.Valid() && Drain(timerQueue.View(), poolTime).0 == Drain(q, poolTime).0
        invariant calls + AllCalls(Drain(timerQueue.View(), poolTime).1) == old(calls) + AllCalls(Drain(q, poolTime).1)
        decreases TotalDue(timerQueue.View().entries, poolTime)
      {
        TurnDrains(Loop(timerQueue.View(), data, calls, false, false), poolTime);
        var over, undefined;
        over, undefined, data := Turn(headTime, data);
        if over {
          break;
        }
      }
    }
  }

  /** One turn of the loop that empties the queue. */
  lemma EmptyStep(q: TimerQueueModel.Queue)
    requires Inv(q)
    ensures Shift(q, -1).result < 0 ==> Shift(q, -1).queue == q && Emptied(q) == (q, [])
    ensures Shift(q, -1).result >= 0 ==>
      && q.active != [] && q.active[0] < |q.entries| && Shift(q, -1).fired == Some(q.active[0])
      && Inv(Shift(q, -1).queue) && |Shift(q, -1).queue.active| < |q.active|
    ensures Shift(q, -1).result >= 0 ==>
      var data, rest := q.entries[q.active[0]].data, Emptied(Shift(q, -1).queue);
      Emptied(q) == (rest.0, (if data.destroy.Code? then [(data.destroy.address, data.userdata)] else []) + rest.1)
  {
    if Shift(q, -1).result >= 0 {
      ShiftInv(q, -1);
      ShiftShortens(q);
    }
  }

  lemma HandedOut(e: Entry, now: int)
    ensures FiredData(e, now) == TimerData(e.data.userdata, e.data.handle, if e.interval && now != -1 then Null else e.data.destroy)
  {
  }

  /** A round of a loop that will end. */
  lemma TurnDrains(l: Loop, now: int)
    requires Inv(l.queue) && now != -1 && !l.over && !l.undefined
    requires Inv(Drain(l.queue, now).0) && !GoesRound(Drain(l.queue, now).0, now)
    ensures var m := Round(l, now);
      && Inv(m.queue) && !m.undefined && Drain(m.queue, now).0 == Drain(l.queue, now).0
      && m.calls + AllCalls(Drain(m.queue, now).1) == l.calls + AllCalls(Drain(l.queue, now).1)
      && (m.over ==> m.queue == Drain(m.queue, now).0 && m.calls + AllCalls(Drain(m.queue, now).1) == m.calls)
      && (!m.over ==> TotalDue(m.queue.entries, now) < TotalDue(l.queue.entries, now))
  {
    hide Inv, TotalDue, FiredData, CallsOf, Shift;
    DrainStep(l.queue, now);
    var r := Shift(l.queue, now);
    if r.fired.Some? {
      var c := CallsOf(FiredData(l.queue.entries[r.fired.value], now));
      assert l.calls + c + AllCalls(Drain(r.queue, now).1) == l.calls + (c + AllCalls(Drain(r.queue, now).1));
    } else {
      assert l.calls + [] == l.calls;
    }
  }

  /** One turn of the loop. */
  lemma DrainStep(q: TimerQueueModel.Queue, now: int)
    requires Inv(q) && now != -1
    ensures var r := Shift(q, now);
      && (r.fired.None? ==> r.queue == q && Drain(q, now) == (q, []))
      && (r.fired.Some? ==>
            && r.result == 0 && r.fired.value < |q.entries|
            && Inv(r.queue) && TotalDue(r.queue.entries, now) < TotalDue(q.entries, now)
            && Drain(q, now).0 == Drain(r.queue, now).0
            && AllCalls(Drain(q, now).1) == CallsOf(FiredData(q.entries[r.fired.value], now)) + AllCalls(Drain(r.queue, now).1))
  {
    if Shift(q, now).fired.Some? {
      ShiftInv(q, now);
      ShiftEntry(q, now);
      ShiftLowersDue(q, now);
    }
  }
}
