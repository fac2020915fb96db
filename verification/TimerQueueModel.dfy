/** libnetq/TimerQueue.c: a fixed number of slots, a sorted active list and a free list. */
module TimerQueueModel {
  import opened Words
  import opened Seqs
  import opened BitOps

  /** A callback pointer that may be NULL. */
  datatype Handler = Null | Code(address: nat)

  datatype TimerData = TimerData(userdata: int, handle: Handler, destroy: Handler)

  /** `uses` counts how often the slot has been released; no branch of the queue depends on it. */
  datatype Entry = Entry(active: bool, interval: bool, id: nat, timeout: int, timePoint: int, data: TimerData, uses: nat)

  datatype Queue = Queue(entries: seq<Entry>, active: seq<nat>, free: seq<nat>)

  const INVALID := 0

  /** The identifier of slot `index` after it has been released `uses` times. */
  function IdOf(allocCount: nat, index: nat, uses: nat): nat {
    (index + 1 + uses * allocCount) % WORD
  }

  // ---------- invariant

  ghost predicate Sorted(q: Queue) {
    && (forall a :: 0 <= a < |q.active| ==> q.active[a] < |q.entries|)
    && forall a, b :: 0 <= a < b < |q.active| ==> q.entries[q.active[a]].timePoint <= q.entries[q.active[b]].timePoint
  }

  /** The number of slots is a power of two not above 2^16. */
  ghost predicate Sized(n: nat) {
    exists k :: 1 <= k <= 16 && n == Pow2(k)
  }

  ghost predicate Inv(q: Queue) {
    && Sized(|q.entries|)
    && NoDup(q.active) && (forall i: nat :: i in q.active <==> i < |q.entries| && q.entries[i].active)
    && NoDup(q.free) && (forall i: nat :: i in q.free <==> i < |q.entries| && !q.entries[i].active)
    && Sorted(q)
    && (forall i :: 0 <= i < |q.entries| ==> q.entries[i].id == IdOf(|q.entries|, i, q.entries[i].uses))
    && (forall i :: 0 <= i < |q.entries| && q.entries[i].active ==> q.entries[i].timeout > 0)
  }

  // ---------- operations

  /** Where NQTimerList_insert links an entry due at `time`: before the first later one. */
  function Position(q: Queue, time: int, from: nat): (r: nat)
    requires Sorted(q) && from <= |q.active|
    ensures from <= r <= |q.active|
    ensures forall a :: from <= a < r ==> q.entries[q.active[a]].timePoint <= time
    ensures r < |q.active| ==> time < q.entries[q.active[r]].timePoint
    decreases |q.active| - from
  {
    if from == |q.active| || time < q.entries[q.active[from]].timePoint then from else Position(q, time, from + 1)
  }

  function Insert(q: Queue, i: nat, e: Entry): Queue
    requires Sorted(q) && i < |q.entries|
  {
    q.(entries := q.entries[i := e], active := InsertAt(q.active, Position(q, e.timePoint, 0), i))
  }

  /** Slot `i` goes back to the free list with its next identifier. */
  function Release(q: Queue, i: nat): Queue
    requires i < |q.entries|
  {
    var e := q.entries[i];
    q.(entries := q.entries[i := e.(id := (e.id + |q.entries|) % WORD, active := false, uses := e.uses + 1)],
       free := q.free + [i])
  }

  /** NQTimerQueue_startTimer: lines 171-193. */
  function Start(q: Queue, interval: bool, now: int, timeout: int, data: TimerData): (Queue, nat)
    requires Inv(q)
  {
    if timeout <= 0 || q.free == [] then (q, INVALID) else
      assert q.free[0] in q.free;
      var i := q.free[0];
      var e := q.entries[i].(active := true, interval := interval, timeout := timeout, timePoint := timeout + now, data := data);
      (Insert(q.(free := q.free[1..]), i, e), e.id)
  }

  /** The slot an identifier can belong to: line 200. The subtraction is that of uint32_t. */
  function SlotOf(allocCount: nat, id: nat): (r: nat)
    requires allocCount > 0
    ensures r < allocCount
  {
    (id + WORD - 1) % WORD % allocCount
  }

  /** NQTimerQueue_stopTimer: lines 208-223; the data of the stopped timer, or nothing. */
  function Stop(q: Queue, id: nat): (Queue, Option<TimerData>)
    requires Inv(q)
  {
    var i := SlotOf(|q.entries|, id);
    if id == INVALID || q.entries[i].id != id || !q.entries[i].active then (q, None)
    else (Release(q.(active := RemoveAt(q.active, IndexOf(q.active, i))), i), Some(q.entries[i].data))
  }

  /** What NQTimerQueue_shiftTimer hands out. */
  datatype Shifted = Shifted(queue: Queue, result: int, fired: Option<nat>)

  /** NQTimerQueue_shiftTimer: lines 124-169. `fired` is the slot that was taken out; with now == -1 the first
      timer is taken out whether it is due or not. */
  function Shift(q: Queue, now: int): Shifted
    requires Inv(q)
  {
    if q.active == [] then Shifted(q, -1, None) else
      assert q.active[0] in q.active;
      var i := q.active[0];
      var e := q.entries[i];
      var rest := q.(active := q.active[1..]);
      if now == -1 then Shifted(Release(rest, i), 0, Some(i))
      else if now < e.timePoint then Shifted(q, ToInt32(e.timePoint - now), None)
      else if e.interval then Shifted(Insert(rest, i, e.(timePoint := e.timePoint + e.timeout)), 0, Some(i))
      else Shifted(Release(rest, i), 0, Some(i))
  }

  /** The data NQTimerQueue_shiftTimer copies: the destroy handler of an interval timer is held back, unless
      the queue is being emptied with now == -1. */
  function FiredData(e: Entry, now: int): TimerData {
    e.data.(destroy := if e.interval && now != -1 then Null else e.data.destroy)
  }

  /** NQTimerQueue_timeout: lines 111-122. */
  function Timeout(q: Queue, now: int): int
    requires Inv(q)
  {
    if q.active == [] then -1 else
      assert q.active[0] in q.active;
      var t := q.entries[q.active[0]].timePoint;
      if now < t then ToInt32(t - now) else 0
  }

  /** NQTimerQueue_init over zeroed memory: lines 73-86. */
  function Blank(allocCount: nat): Queue {
    Queue(seq(allocCount, i requires 0 <= i < allocCount => Entry(false, false, i + 1, 0, 0, TimerData(0, Null, Null), 0)),
          [], Range(allocCount))
  }

  /** The size NQTimerQueue_create chooses, or none: lines 88-97. */
  function AllocCount(maxSize: nat): Option<nat> {
    if maxSize == 0 || BitLength(maxSize) > 16 then None else Some(Pow2(BitLength(maxSize)))
  }
}
