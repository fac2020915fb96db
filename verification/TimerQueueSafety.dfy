/** What every call on a timer queue keeps, and what each of them does to the timers a caller sees. */
module TimerQueueSafety {
  import opened Words
  import opened Seqs
  import opened BitOps
  import opened TimerQueueModel
  import opened TimerQueueIds

  // ---------- the invariant

  lemma InsertMembers(s: seq<nat>, k: nat, x: nat)
    requires k <= |s| && x !in s && NoDup(s)
    ensures NoDup(InsertAt(s, k, x)) && forall y :: y in InsertAt(s, k, x) <==> y in s || y == x
  {
    InsertNoDup(s, k, x);
    assert s == s[..k] + s[k..];
  }

  lemma RemoveSorted(q: Queue, k: nat)
    requires Sorted(q) && k < |q.active|
    ensures Sorted(q.(active := RemoveAt(q.active, k)))
  {
    var n := q.(active := RemoveAt(q.active, k));
    forall a, b | 0 <= a < b < |n.active| ensures n.entries[n.active[a]].timePoint <= n.entries[n.active[b]].timePoint {
      var a1, b1 := if a < k then a else a + 1, if b < k then b else b + 1;
      assert n.active[a] == q.active[a1] && n.active[b] == q.active[b1];
    }
    forall a | 0 <= a < |n.active| ensures n.active[a] < |n.entries| {
      assert n.active[a] == q.active[if a < k then a else a + 1];
    }
  }

  lemma UpdateSorted(q: Queue, i: nat, e: Entry)
    requires Sorted(q) && i < |q.entries| && i !in q.active
    ensures Sorted(q.(entries := q.entries[i := e]))
  {
  }

  lemma InsertSorted(q: Queue, i: nat, e: Entry)
    requires Sorted(q) && i < |q.entries| && i !in q.active
    ensures Sorted(Insert(q, i, e))
  {
    UpdateSorted(q, i, e);
    var n := Insert(q, i, e);
    var k := Position(q, e.timePoint, 0);
    forall a | 0 <= a < |n.active| ensures n.active[a] < |n.entries| {
      assert a < k ==> n.active[a] == q.active[a];
      assert a > k ==> n.active[a] == q.active[a - 1];
    }
    forall a, b | 0 <= a < b < |n.active| ensures n.entries[n.active[a]].timePoint <= n.entries[n.active[b]].timePoint {
      assert a < k ==> n.active[a] == q.active[a];
      assert a > k ==> n.active[a] == q.active[a - 1];
      assert b < k ==> n.active[b] == q.active[b];
      assert b > k ==> n.active[b] == q.active[b - 1] && q.entries[q.active[k]].timePoint <= q.entries[q.active[b - 1]].timePoint;
    }
  }

  /** The free and active lists while one slot is in neither: everything the invariant says but for slot `i`. */
  ghost predicate InvBut(q: Queue, i: nat) {
    && Sized(|q.entries|) && i < |q.entries|
    && NoDup(q.active) && (forall j: nat :: j in q.active <==> j < |q.entries| && j != i && q.entries[j].active)
    && NoDup(q.free) && (forall j: nat :: j in q.free <==> j < |q.entries| && j != i && !q.entries[j].active)
    && Sorted(q)
    && (forall j :: 0 <= j < |q.entries| ==> q.entries[j].id == IdOf(|q.entries|, j, q.entries[j].uses))
    && (forall j :: 0 <= j < |q.entries| && j != i && q.entries[j].active ==> q.entries[j].timeout > 0)
  }

  lemma TakeActive(q: Queue, k: nat)
    requires Inv(q) && k < |q.active|
    ensures InvBut(q.(active := RemoveAt(q.active, k)), q.active[k])
  {
    assert q.active[k] in q.active;
    RemoveMembers(q.active, k);
    RemoveSorted(q, k);
  }

  lemma TakeFree(q: Queue)
    requires Inv(q) && q.free != []
    ensures InvBut(q.(free := q.free[1..]), q.free[0])
    ensures q.free[0] < |q.entries| && q.free[0] !in q.active && Sorted(q)
  {
    assert q.free[0] in q.free;
    TailMembers(q.free);
  }

  lemma InsertInv(q: Queue, i: nat, e: Entry)
    requires InvBut(q, i) && e.active && e.timeout > 0 && e.id == q.entries[i].id && e.uses == q.entries[i].uses
    ensures Inv(Insert(q, i, e))
  {
    InsertSorted(q, i, e);
    InsertMembers(q.active, Position(q, e.timePoint, 0), i);
  }

  lemma NextId(n: nat, i: nat, u: nat)
    ensures (IdOf(n, i, u) + n) % WORD == IdOf(n, i, u + 1)
  {
    assert (u + 1) * n == u * n + n;
    var x := i + 1 + u * n;
    assert (x % WORD + n) % WORD == (x + n) % WORD;
  }

  lemma ReleaseInv(q: Queue, i: nat)
    requires InvBut(q, i)
    ensures Inv(Release(q, i))
  {
    NextId(|q.entries|, i, q.entries[i].uses);
    hide IdOf, Sized;
    AppendMembers(q.free, i);
    var n := Release(q, i);
    assert forall j :: 0 <= j < |q.entries| && j != i ==> n.entries[j] == q.entries[j];
    UpdateSorted(q, i, n.entries[i]);
  }

  lemma CreateInv(maxSize: nat)
    ensures AllocCount(maxSize).None? <==> maxSize == 0 || maxSize >= 0x1_0000
    ensures AllocCount(maxSize).Some? ==> var n := AllocCount(maxSize).value;
      maxSize < n <= 2 * maxSize && Inv(Blank(n)) && |Blank(n).entries| == n
  {
    var b := BitLength(maxSize);
    Pow2Of32();
    if b > 16 {
      Pow2Monotone(16, b - 1);
    } else {
      Pow2Monotone(b, 16);
    }
    if maxSize > 0 && b <= 16 {
      var n := Pow2(b);
      GenerationsDivide(n);
      BlankInv(n);
    }
  }

  lemma BlankInv(n: nat)
    requires Sized(n) && n <= 0x1_0000
    ensures Inv(Blank(n))
  {
    var q := Blank(n);
    forall i | 0 <= i < n ensures q.entries[i].id == IdOf(n, i, 0) {
      assert 0 * n == 0;
    }
    forall i: nat ensures i in q.free <==> i < n {
      if i < n { assert q.free[i] == i; }
    }
  }

  lemma StartInv(q: Queue, interval: bool, now: int, timeout: int, data: TimerData)
    requires Inv(q)
    ensures Inv(Start(q, interval, now, timeout, data).0)
  {
    hide Sized, Sorted, IdOf, InvBut;
    if timeout > 0 && q.free != [] {
      TakeFree(q);
      var i := q.free[0];
      hide Inv, Insert;
      InsertInv(q.(free := q.free[1..]), i,
                q.entries[i].(active := true, interval := interval, timeout := timeout, timePoint := timeout + now, data := data));
    }
  }

  lemma StopInv(q: Queue, id: nat)
    requires Inv(q)
    ensures Inv(Stop(q, id).0)
  {
    var i := SlotOf(|q.entries|, id);
    if Stop(q, id).1.Some? {
      TakeActive(q, IndexOf(q.active, i));
      ReleaseInv(q.(active := RemoveAt(q.active, IndexOf(q.active, i))), i);
    }
  }

  lemma TakeFirst(q: Queue)
    requires Inv(q) && q.active != []
    ensures var i := q.active[0];
      i < |q.entries| && q.entries[i].active && q.entries[i].timeout > 0 && i !in q.active[1..] && InvBut(q.(active := q.active[1..]), i)
      && Sorted(q.(active := q.active[1..]))
  {
    assert q.active[0] in q.active;
    TakeActive(q, 0);
    assert RemoveAt(q.active, 0) == q.active[1..];
  }

  lemma ShiftInv(q: Queue, now: int)
    requires Inv(q)
    ensures Inv(Shift(q, now).queue)
  {
    hide Inv, InvBut, Sorted, Insert, Release;
    if Shift(q, now).fired.Some? {
      TakeFirst(q);
      var i := q.active[0];
      var e := q.entries[i];
      var rest := q.(active := q.active[1..]);
      if now == -1 || !e.interval {
        ReleaseInv(rest, i);
      } else {
        InsertInv(rest, i, e.(timePoint := e.timePoint + e.timeout));
      }
    }
  }

  // ---------- the timers a caller sees

  /** An active timer without its slot. */
  datatype Timer = Timer(id: nat, interval: bool, timeout: int, timePoint: int, data: TimerData)

  function TimerOf(e: Entry): Timer {
    Timer(e.id, e.interval, e.timeout, e.timePoint, e.data)
  }

  /** The active timers, next one first. */
  function Timers(q: Queue): (r: seq<Timer>)
    requires Sorted(q)
    ensures |r| == |q.active| && forall a :: 0 <= a < |r| ==> r[a] == TimerOf(q.entries[q.active[a]])
  {
    seq(|q.active|, a requires 0 <= a < |q.active| => TimerOf(q.entries[q.active[a]]))
  }

  /** Insertion in time order, behind the timers due at the same time. */
  function ByTime(ts: seq<Timer>, t: Timer): seq<Timer> {
    if ts == [] || t.timePoint < ts[0].timePoint then [t] + ts else [ts[0]] + ByTime(ts[1..], t)
  }

  lemma {:induction false} ByTimeAt(ts: seq<Timer>, t: Timer, k: nat)
    requires k <= |ts| && (forall a :: 0 <= a < k ==> ts[a].timePoint <= t.timePoint)
    requires k < |ts| ==> t.timePoint < ts[k].timePoint
    ensures ByTime(ts, t) == ts[..k] + [t] + ts[k..]
  {
    if k > 0 {
      ByTimeAt(ts[1..], t, k - 1);
      assert ts[..k] == [ts[0]] + ts[1..][..k - 1];
      assert ts[1..][k - 1..] == ts[k..];
    } else {
      assert ts[..0] + [t] + ts[0..] == [t] + ts;
    }
  }

  lemma InsertTimers(q: Queue, i: nat, e: Entry)
    requires Sorted(q) && i < |q.entries| && i !in q.active
    ensures Sorted(Insert(q, i, e)) && Timers(Insert(q, i, e)) == ByTime(Timers(q), TimerOf(e))
  {
    InsertSorted(q, i, e);
    var k := Position(q, e.timePoint, 0);
    ByTimeAt(Timers(q), TimerOf(e), k);
    TimersInserted(q, Insert(q, i, e), i, e, k);
    hide Position, Sorted, ByTime, Insert, TimerOf;
  }

  lemma TimersInserted(q: Queue, n: Queue, i: nat, e: Entry, k: nat)
    requires Sorted(q) && Sorted(n) && i < |q.entries| && i !in q.active && k <= |q.active|
    requires n.entries == q.entries[i := e] && n.active == InsertAt(q.active, k, i)
    ensures Timers(n) == Timers(q)[..k] + [TimerOf(e)] + Timers(q)[k..]
  {
    assert forall a :: 0 <= a < |q.active| ==> q.active[a] < |q.entries| && q.active[a] != i;
    hide Sorted, TimerOf;
    var ts := Timers(q);
    forall a | 0 <= a < |n.active| ensures Timers(n)[a] == (ts[..k] + [TimerOf(e)] + ts[k..])[a] {
      if a < k {
        assert n.active[a] == q.active[a];
      } else if a > k {
        assert n.active[a] == q.active[a - 1];
      }
    }
  }

  lemma ReleaseTimers(q: Queue, i: nat)
    requires Sorted(q) && i < |q.entries| && i !in q.active
    ensures Sorted(Release(q, i)) && Timers(Release(q, i)) == Timers(q)
  {
    var n := Release(q, i);
    UpdateSorted(q, i, n.entries[i]);
    assert forall a :: 0 <= a < |q.active| ==> n.entries[n.active[a]] == q.entries[q.active[a]];
  }

  /** The order of ByTime is stable: the new timer goes behind everything not later than it. */
  lemma ByTimeIsStable(q: Queue, t: Timer)
    requires Sorted(q)
    ensures exists k :: 0 <= k <= |q.active| && ByTime(Timers(q), t) == Timers(q)[..k] + [t] + Timers(q)[k..]
                     && forall a :: 0 <= a < |q.active| ==> (Timers(q)[a].timePoint <= t.timePoint <==> a < k)
  {
    var k := Position(q, t.timePoint, 0);
    ByTimeAt(Timers(q), t, k);
    forall a | 0 <= a < |q.active| ensures Timers(q)[a].timePoint <= t.timePoint <==> a < k {
    }
  }

  /** A start is refused exactly when the delay is not positive or every slot is taken; otherwise the new
      timer is put behind the timers due no later, and nothing else changes. */
  lemma StartAddsTimer(q: Queue, interval: bool, now: int, timeout: int, data: TimerData)
    requires Inv(q)
    ensures var r := Start(q, interval, now, timeout, data);
      && Inv(r.0)
      && (timeout <= 0 || |q.active| == |q.entries| ==> r == (q, INVALID))
      && (timeout > 0 && |q.active| < |q.entries| ==>
            Timers(r.0) == ByTime(Timers(q), Timer(r.1, interval, timeout, now + timeout, data)))
  {
    hide InvBut, Insert, Position, ByTime, Inv;
    StartInv(q, interval, now, timeout, data);
    SlotsAreShared(q);
    if timeout > 0 && q.free != [] {
      TakeFree(q);
      var i := q.free[0];
      var rest := q.(free := q.free[1..]);
      assert Timers(rest) == Timers(q);
      InsertTimers(rest, i,
                   q.entries[i].(active := true, interval := interval, timeout := timeout, timePoint := timeout + now, data := data));
    }
  }

  function ToSet(s: seq<nat>): (r: set<nat>)
    ensures forall x :: x in r <==> x in s
  {
    set x | x in s
  }

  lemma {:induction false} DistinctSize(s: seq<nat>)
    requires NoDup(s)
    ensures |ToSet(s)| == |s|
  {
    if s != [] {
      TailMembers(s);
      DistinctSize(s[1..]);
      assert ToSet(s) == ToSet(s[1..]) + {s[0]};
    } else {
      assert ToSet(s) == {};
    }
  }

  lemma {:induction false} RangeSize(n: nat)
    ensures |ToSet(Range(n))| == n && forall i: nat :: i in ToSet(Range(n)) <==> i < n
  {
    forall i: nat ensures i in Range(n) <==> i < n {
      if i < n { assert Range(n)[i] == i; }
    }
    DistinctSize(Range(n));
  }

  /** The two lists share out the slots. */
  lemma SlotsAreShared(q: Queue)
    requires Inv(q)
    ensures |q.active| + |q.free| == |q.entries|
  {
    hide Sized, IdOf, Sorted;
    DistinctSize(q.active);
    DistinctSize(q.free);
    RangeSize(|q.entries|);
    assert ToSet(q.active) * ToSet(q.free) == {};
    assert ToSet(q.active) + ToSet(q.free) == ToSet(Range(|q.entries|));
  }

  /** Two active timers never share an identifier. */
  lemma IdsDiffer(q: Queue, a: nat, b: nat)
    requires Inv(q) && a < |q.active| && b < |q.active| && q.entries[q.active[a]].id == q.entries[q.active[b]].id
    ensures a == b
  {
    hide Sized, SlotOf, IdOf;
    var i, j := q.active[a], q.active[b];
    assert i in q.active && j in q.active;
    SlotOfId(|q.entries|, i, q.entries[i].uses);
    SlotOfId(|q.entries|, j, q.entries[j].uses);
  }

  /** Stop takes out the active timer that holds a nonzero identifier and hands back its data. */
  lemma StopCancels(q: Queue, k: nat)
    requires Inv(q) && k < |q.active| && Timers(q)[k].id != INVALID
    ensures var r := Stop(q, Timers(q)[k].id);
      Inv(r.0) && r.1 == Some(Timers(q)[k].data) && Timers(r.0) == RemoveAt(Timers(q), k)
  {
    var i := q.active[k];
    assert i in q.active;
    StopInv(q, Timers(q)[k].id);
    SlotOfId(|q.entries|, i, q.entries[i].uses);
    hide Sized, SlotOf, IdOf, Inv;
    var r := Stop(q, Timers(q)[k].id);
    var x := IndexOf(q.active, i);
    assert x == k by {
      assert Inv(q) && NoDup(q.active);
    }
    forall a | 0 <= a < |r.0.active| ensures Timers(r.0)[a] == RemoveAt(Timers(q), k)[a] {
      var b := if a < k then a else a + 1;
      assert r.0.active[a] == q.active[b];
      assert q.active[b] != i by { assert NoDup(q.active); }
    }
  }

  /** Any other identifier is refused and changes nothing. */
  lemma StopRefuses(q: Queue, id: nat)
    requires Inv(q)
    ensures var r := Stop(q, id);
      && (r.1.None? ==> r.0 == q)
      && (r.1.Some? ==> id != INVALID && exists k :: 0 <= k < |q.active| && Timers(q)[k].id == id)
  {
    if Stop(q, id).1.Some? {
      var i := SlotOf(|q.entries|, id);
      var k :| 0 <= k < |q.active| && q.active[k] == i;
      assert Timers(q)[k].id == id;
    }
  }

  /** What a call of shiftTimer does to the timers. */
  lemma ShiftTakesFirst(q: Queue, now: int)
    requires Inv(q)
    ensures var r := Shift(q, now); var ts := Timers(q);
      && Inv(r.queue)
      && (ts == [] ==> r == Shifted(q, -1, None))
      && (ts != [] && now != -1 && now < ts[0].timePoint ==> r == Shifted(q, ToInt32(ts[0].timePoint - now), None))
      && (ts != [] && (now == -1 || ts[0].timePoint <= now) ==>
            && r.result == 0
            && Timers(r.queue) == if ts[0].interval && now != -1 then ByTime(ts[1..], ts[0].(timePoint := ts[0].timePoint + ts[0].timeout))
                                  else ts[1..])
  {
    hide InvBut, Insert, Release, Position, ByTime;
    ShiftInv(q, now);
    if Shift(q, now).fired.Some? {
      TakeFirst(q);
      hide Inv;
      var i := q.active[0];
      var e := q.entries[i];
      var rest := q.(active := q.active[1..]);
      assert Timers(rest) == Timers(q)[1..];
      if now == -1 || !e.interval {
        ReleaseTimers(rest, i);
      } else {
        InsertTimers(rest, i, e.(timePoint := e.timePoint + e.timeout));
      }
    }
  }

  // ---------- identifiers still to be handed out

  /** The identifiers of the free slots, in the order of the free list. */
  function Supply(q: Queue): (r: seq<nat>)
    requires Inv(q)
    ensures |r| == |q.free| && forall a :: 0 <= a < |r| ==> q.free[a] < |q.entries| && r[a] == q.entries[q.free[a]].id
  {
    hide Sized, Sorted, IdOf;
    assert forall a :: 0 <= a < |q.free| ==> q.free[a] in q.free;
    seq(|q.free|, a requires 0 <= a < |q.free| => q.entries[q.free[a]].id)
  }

  /** A start hands out the identifier that has waited longest. */
  lemma StartTakes(q: Queue, interval: bool, now: int, timeout: int, data: TimerData)
    requires Inv(q) && timeout > 0 && |q.active| < |q.entries|
    ensures var r := Start(q, interval, now, timeout, data);
      Inv(r.0) && Supply(q) != [] && r.1 == Supply(q)[0] && Supply(r.0) == Supply(q)[1..]
  {
    StartInv(q, interval, now, timeout, data);
    SlotsAreShared(q);
    TakeFree(q);
    hide Sized, Sorted, IdOf, InvBut;
    var i, r := q.free[0], Start(q, interval, now, timeout, data);
    assert r.0.entries == q.entries[i := r.0.entries[i]] && r.0.free == q.free[1..];
    assert forall a :: 1 <= a < |q.free| ==> q.free[a] != i;
    hide Inv;
    assert forall a :: 0 <= a < |r.0.free| ==> Supply(r.0)[a] == Supply(q)[1..][a];
  }

  lemma ReleaseSupplies(q: Queue, n: Queue, i: nat)
    requires Inv(q) && Inv(n) && i < |q.entries| && i !in q.free
    requires n.entries == Release(q, i).entries && n.free == Release(q, i).free
    ensures Supply(n) == Supply(q) + [(q.entries[i].id + |q.entries|) % 0x1_0000_0000]
  {
    hide Inv;
    assert forall a :: 0 <= a < |q.free| ==> q.free[a] in q.free && q.free[a] != i;
    assert forall a :: 0 <= a < |q.free| ==> Supply(n)[a] == Supply(q)[a];
  }

  /** A stopped timer gives its slot back under a new identifier, which waits behind all others. */
  lemma StopGivesBack(q: Queue, k: nat)
    requires Inv(q) && k < |q.active| && Timers(q)[k].id != INVALID
    ensures var r := Stop(q, Timers(q)[k].id);
      Inv(r.0) && Supply(r.0) == Supply(q) + [(Timers(q)[k].id + |q.entries|) % 0x1_0000_0000]
  {
    var i := q.active[k];
    assert i in q.active && i !in q.free;
    StopInv(q, Timers(q)[k].id);
    SlotOfId(|q.entries|, i, q.entries[i].uses);
    hide Sized, SlotOf, IdOf, Inv, Release;
    var r := Stop(q, Timers(q)[k].id).0;
    var rest := q.(active := RemoveAt(q.active, IndexOf(q.active, i)));
    SameRelease(q, rest, i);
    ReleaseSupplies(q, r, i);
  }

  lemma SameRelease(q: Queue, rest: Queue, i: nat)
    requires i < |q.entries| && rest.entries == q.entries && rest.free == q.free
    ensures Release(rest, i).entries == Release(q, i).entries && Release(rest, i).free == Release(q, i).free
  {
  }

  /** So does a timer that has fired, unless it is set again. */
  lemma ShiftGivesBack(q: Queue, now: int)
    requires Inv(q)
    ensures var r := Shift(q, now); var ts := Timers(q);
      && Inv(r.queue) && (r.fired.Some? ==> ts != [])
      && Supply(r.queue) == if r.fired.None? || (ts[0].interval && now != -1) then Supply(q)
                            else Supply(q) + [(ts[0].id + |q.entries|) % 0x1_0000_0000]
  {
    ShiftInv(q, now);
    var r := Shift(q, now);
    if r.fired.Some? {
      var i := q.active[0];
      assert i in q.active && i !in q.free;
      var rest := q.(active := q.active[1..]);
      if q.entries[i].interval && now != -1 {
        InsertKeepsSupply(q, r.queue, i);
      } else {
        SameRelease(q, rest, i);
        hide Inv, Release;
        ReleaseSupplies(q, r.queue, i);
      }
    }
  }

  lemma InsertKeepsSupply(q: Queue, n: Queue, i: nat)
    requires Inv(q) && Inv(n) && i < |q.entries| == |n.entries| && n.free == q.free && n.entries == q.entries[i := n.entries[i]] && n.entries[i].id == q.entries[i].id
    ensures Supply(n) == Supply(q)
  {
    hide Inv;
    assert forall a :: 0 <= a < |q.free| ==> Supply(n)[a] == Supply(q)[a];
  }
}
