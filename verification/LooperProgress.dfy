/** No starvation: whatever is pending is handled within a bounded number of calls of `nextEvent`,
    even when interval timers are due all the time. */
module LooperProgress {
  import opened Words
  import opened Seqs
  import opened Rings
  import opened LooperModel
  import opened LooperInvariant
  import opened LooperSteps
  import opened LooperSafety

  /** How many heads the loop over the pending list handles before it stops. */
  function DrainPops(s: State): nat
    requires Inv(s) && s.running.None?
    decreases ActionSockets(s), |s.pending|
  {
    if s.pending == [] then 0 else
      PopInv(s);
      var p := Pop(s);
      if p.event.Some? then 1 else 1 + DrainPops(p.state)
  }

  /** How many pending entries one call of nextEvent handles; none when it fires a timer. */
  function Handled(s: State, now: int): nat
    requires Inv(s) && s.running.None?
  {
    if s.timers.used == [] then DrainPops(s.(pollTimeout := -1)) else
      var timeout := ToInt32(s.timers.entries[s.timers.used[0]].actionTime - now);
      if timeout <= 0 then 0 else DrainPops(s.(pollTimeout := timeout))
  }

  /** The entry behind `r` has not been touched. */
  ghost predicate Untouched(s: State, n: State, r: Ref) {
    && InRange(s, r) && InRange(n, r)
    && match r.kind
       case TimerKind => n.timers.entries[r.index] == s.timers.entries[r.index]
       case SocketKind =>
         && n.sockets.entries[r.index] == s.sockets.entries[r.index]
         && n.sockets.pollfd[r.index].fd == s.sockets.pollfd[r.index].fd
       case DispatchKind => n.dispatches.entries[r.index] == s.dispatches.entries[r.index]
  }

  lemma PendingDistinct(s: State, a: nat, b: nat)
    requires Inv(s) && a < b < |s.pending|
    ensures s.pending[a] != s.pending[b] && InRange(s, s.pending[b])
  {
    var p, kind := s.pending, s.pending[b].kind;
    var i, j := |Of(kind, p[..a])|, |Of(kind, p[..b])|;
    OfRemoveAt(kind, p, a);
    OfRemoveAt(kind, p, b);
    assert Of(kind, p)[j] == p[b].index;
    assert Of(kind, p)[j] in Of(kind, p);
    if p[a].kind == kind {
      assert p[..b] == (p[..a] + [p[a]]) + p[a + 1..b];
      OfConcat(kind, p[..a] + [p[a]], p[a + 1..b]);
      OfAppend(kind, p[..a], p[a]);
      assert i < j;
    }
  }

  /** Handling the head leaves the entries behind it alone, and in order. */
  lemma PopBehind(s: State, k: nat)
    requires Inv(s) && 0 < k < |s.pending|
    ensures InRange(s, s.pending[0])
    ensures k - 1 < |Pop(s).state.pending| && Pop(s).state.pending[k - 1] == s.pending[k]
    ensures Untouched(s, Pop(s).state, s.pending[k])
  {
    hide TimerInv, SocketInv, DispatchInv, Of, PopTimer, PopSocket, PopDispatch;
    PopInv(s);
    PendingDistinct(s, 0, k);
    PopOthers(s, s.pending[k]);
  }

  lemma PopTimerOther(t: Timers, i: nat, j: nat)
    requires Sorted(t) && i < |t.entries| && j < |t.entries| && i != j
    ensures j < |PopTimer(t, i).part.entries| && PopTimer(t, i).part.entries[j] == t.entries[j]
  {
  }

  lemma PopSocketOther(k: Sockets, i: nat, j: nat)
    requires i < |k.entries| == |k.pollfd| && j < |k.entries| && i != j
    ensures var n := PopSocket(k, i).part;
      |n.entries| == |n.pollfd| && j < |n.entries| && n.entries[j] == k.entries[j] && n.pollfd == k.pollfd
  {
  }

  lemma PopOthers(s: State, r: Ref)
    requires Inv(s) && s.pending != [] && r != s.pending[0] && InRange(s, r)
    ensures InRange(s, s.pending[0]) && Untouched(s, Pop(s).state, r)
  {
    hide TimerInv, SocketInv, DispatchInv, Of, PopTimer, PopSocket;
    PopInv(s);
    InvSorted(s);
    var i := s.pending[0].index;
    match s.pending[0].kind {
      case TimerKind => if r.kind == TimerKind { PopTimerOther(s.timers, i, r.index); }
      case SocketKind => if r.kind == SocketKind { PopSocketOther(s.sockets, i, r.index); }
      case DispatchKind =>
    }
  }

  lemma {:induction false} DrainBehind(s: State, k: nat)
    requires Inv(s) && s.running.None? && k < |s.pending| && DrainPops(s) <= k
    ensures var n := Drain(s).state; var j := k - DrainPops(s);
      && 0 < DrainPops(s) && j < |n.pending| && n.pending[j] == s.pending[k] && Untouched(s, n, s.pending[k])
    decreases ActionSockets(s), |s.pending|
  {
    hide TimerInv, SocketInv, DispatchInv, Of, Pop, Compact;
    InvSorted(s);
    PopInv(s);
    if k > 0 {
      PopBehind(s, k);
      if Pop(s).event.None? {
        PopRunning(s);
        DrainBehind(Pop(s).state, k - 1);
      }
    }
  }

  /** One call: either the entry at position `k` was among those handled, or it has moved forward, or it
      has stayed while a due timer was fired. */
  lemma NextEventBehind(s: State, now: int, k: nat)
    requires Inv(s) && s.running.None? && k < |s.pending| && Handled(s, now) <= k
    ensures var n := NextEvent(s, now).state; var j := k - Handled(s, now);
      && j < |n.pending| && n.pending[j] == s.pending[k] && Untouched(s, n, s.pending[k])
      && (Handled(s, now) == 0 ==> |n.timers.used| < |s.timers.used|)
  {
    PendingInRange(s, k);
    hide TimerInv, SocketInv, DispatchInv, Of, Drain, DrainPops;
    if s.timers.used == [] {
      DrainBehind(s.(pollTimeout := -1), k);
    } else {
      InvSorted(s);
      var timeout := ToInt32(s.timers.entries[s.timers.used[0]].actionTime - now);
      if timeout > 0 {
        DrainBehind(s.(pollTimeout := timeout), k);
      } else {
        FireBehind(s, k);
      }
    }
  }

  lemma PendingInRange(s: State, k: nat)
    requires Inv(s) && k < |s.pending|
    ensures InRange(s, s.pending[k])
  {
    OfMember(s.pending[k].kind, s.pending, s.pending[k].index);
  }

  lemma FireBehind(s: State, k: nat)
    requires Inv(s) && s.timers.used != [] && k < |s.pending|
    ensures var n := FireTimer(s);
      n.pending[k] == s.pending[k] && Untouched(s, n, s.pending[k]) && |n.timers.used| < |s.timers.used|
  {
    OfMember(s.pending[k].kind, s.pending, s.pending[k].index);
    var i := s.timers.used[0];
    assert i in s.timers.used;
    hide SocketInv, DispatchInv, Of;
  }

  // ---------- the bound

  /** A call of nextEvent at time `now`; `events` is what the socket handler returns if it calls one. */
  datatype Call = Call(now: int, events: int)

  function Round(s: State, c: Call): State
    requires Inv(s) && s.running.None?
  {
    NextEventInv(s, c.now);
    var n := NextEvent(s, c.now).state;
    if n.running.Some? then Return(n, c.events) else n
  }

  lemma RoundInv(s: State, c: Call)
    requires Inv(s) && s.running.None?
    ensures Inv(Round(s, c)) && Round(s, c).running.None?
  {
    NextEventInv(s, c.now);
    var n := NextEvent(s, c.now).state;
    if n.running.Some? { ReturnInv(n, c.events); }
  }

  function Rounds(s: State, calls: seq<Call>): State
    requires Inv(s) && s.running.None?
    decreases |calls|
  {
    if calls == [] then s else
      RoundInv(s, calls[0]);
      Rounds(Round(s, calls[0]), calls[1..])
  }

  lemma {:induction false} RoundsInv(s: State, calls: seq<Call>)
    requires Inv(s) && s.running.None?
    ensures Inv(Rounds(s, calls)) && Rounds(s, calls).running.None?
    decreases |calls|
  {
    if calls != [] {
      RoundInv(s, calls[0]);
      RoundsInv(Round(s, calls[0]), calls[1..]);
    }
  }

  lemma {:induction false} DistinctBelow(xs: seq<nat>, n: nat)
    requires NoDup(xs) && forall i :: i in xs ==> i < n
    ensures |xs| <= n
    decreases n
  {
    assert xs != [] ==> xs[0] in xs;
    if n > 0 && n - 1 in xs {
      var k :| 0 <= k < |xs| && xs[k] == n - 1;
      RemoveMembers(xs, k);
      DistinctBelow(RemoveAt(xs, k), n - 1);
    } else if n > 0 {
      DistinctBelow(xs, n - 1);
    }
  }

  lemma UsedBound(s: State)
    requires Inv(s)
    ensures |s.timers.used| <= |s.timers.entries|
  {
    DistinctBelow(s.timers.used, |s.timers.entries|);
  }

  lemma PopTimerLimit(s: State)
    requires Inv(s) && s.pending != []
    ensures InRange(s, s.pending[0]) && |Pop(s).state.timers.entries| == |s.timers.entries|
  {
    PopInv(s);
    hide TimerInv, SocketInv, DispatchInv, Of;
  }

  lemma {:induction false} CompactTimers(s: State)
    requires Inv(s) && s.running.None?
    ensures Compact(s).timers == s.timers
    decreases |s.sockets.used|
  {
    if s.sockets.used != [] {
      CompactStepInv(s);
      CompactTimers(CompactStep(s));
    }
  }

  lemma {:induction false} DrainTimerLimit(s: State)
    requires Inv(s) && s.running.None?
    ensures |Drain(s).state.timers.entries| == |s.timers.entries|
    decreases ActionSockets(s), |s.pending|
  {
    if s.pending == [] {
      CompactTimers(s);
    } else {
      PopInv(s);
      PopTimerLimit(s);
      if Pop(s).event.None? { DrainTimerLimit(Pop(s).state); }
    }
  }

  lemma RoundTimerLimit(s: State, c: Call)
    requires Inv(s) && s.running.None?
    ensures |Round(s, c).timers.entries| == |s.timers.entries|
  {
    hide TimerInv, SocketInv, DispatchInv, Of, Drain;
    NextEventInv(s, c.now);
    if s.timers.used == [] {
      DrainTimerLimit(s.(pollTimeout := -1));
    } else {
      InvSorted(s);
      var timeout := ToInt32(s.timers.entries[s.timers.used[0]].actionTime - c.now);
      if timeout > 0 { DrainTimerLimit(s.(pollTimeout := timeout)); }
    }
  }

  /** Position of the entry in the pending list first, timers that can still cut in second. */
  function Ahead(s: State, k: nat): nat {
    k * (|s.timers.entries| + 1) + |s.timers.used|
  }

  lemma RoundBehind(s: State, c: Call, k: nat)
    requires Inv(s) && s.running.None? && k < |s.pending| && Handled(s, c.now) <= k
    ensures var n := Round(s, c); var j := k - Handled(s, c.now);
      && j < |n.pending| && n.pending[j] == s.pending[k] && Untouched(s, n, s.pending[k])
      && Inv(n) && Ahead(n, j) < Ahead(s, k)
  {
    RoundInv(s, c);
    NextEventInv(s, c.now);
    NextEventBehind(s, c.now, k);
    RoundTimerLimit(s, c);
    UsedBound(Round(s, c));
    hide Inv, NextEvent, Handled, Untouched;
    AheadFalls(k, Handled(s, c.now), |s.timers.entries|, |s.timers.used|, |Round(s, c).timers.used|);
    var n := NextEvent(s, c.now).state;
    assert Untouched(s, Round(s, c), s.pending[k]) by { UntouchedReturn(s, n, s.pending[k], c); }
  }

  lemma UntouchedReturn(s: State, n: State, r: Ref, c: Call)
    requires Inv(n) && Untouched(s, n, r)
    ensures n.running.Some? ==> Untouched(s, Return(n, c.events), r)
  {
    hide TimerInv, DispatchInv, Of;
  }

  lemma AheadFalls(k: nat, pops: nat, limit: nat, used: nat, used': nat)
    requires pops <= k && used' <= limit && (pops == 0 ==> used' < used)
    ensures (k - pops) * (limit + 1) + used' < k * (limit + 1) + used
  {
    var w := limit + 1;
    assert (k - pops) * w == k * w - pops * w;
    if pops > 0 {
      assert pops * w == w + (pops - 1) * w;
    }
  }

  /** Whatever is at position `k` of the pending list is handled by one of the next
      (k + 1) * (timerLimit + 1) calls, untouched until then, whatever the clock shows and whatever
      socket handlers return. */
  lemma {:induction false} NoStarvation(s: State, k: nat, calls: seq<Call>) returns (m: nat, j: nat)
    requires Inv(s) && s.running.None? && k < |s.pending|
    requires |calls| >= (k + 1) * (|s.timers.entries| + 1)
    ensures m < (k + 1) * (|s.timers.entries| + 1)
    ensures var n := Rounds(s, calls[..m]);
      && Inv(n) && n.running.None?
      && j <= k && j < |n.pending| && n.pending[j] == s.pending[k] && Untouched(s, n, s.pending[k])
      && Handled(n, calls[m].now) > j
  {
    UsedBound(s);
    assert Ahead(s, k) < (k + 1) * (|s.timers.entries| + 1);
    m, j := HandledWithin(s, k, calls);
  }

  lemma {:induction false} HandledWithin(s: State, k: nat, calls: seq<Call>) returns (m: nat, j: nat)
    requires Inv(s) && s.running.None? && k < |s.pending| && |calls| > Ahead(s, k)
    ensures m <= Ahead(s, k)
    ensures var n := Rounds(s, calls[..m]);
      && Inv(n) && n.running.None?
      && j <= k && j < |n.pending| && n.pending[j] == s.pending[k] && Untouched(s, n, s.pending[k])
      && Handled(n, calls[m].now) > j
    decreases Ahead(s, k)
  {
    hide TimerInv, SocketInv, DispatchInv, Of, NextEvent, Handled, Round;
    PendingInRange(s, k);
    if Handled(s, calls[0].now) > k {
      m, j := 0, k;
    } else {
      RoundInv(s, calls[0]);
      RoundBehind(s, calls[0], k);
      var n := Round(s, calls[0]);
      m, j := HandledWithin(n, k - Handled(s, calls[0].now), calls[1..]);
      assert calls[..m + 1][1..] == calls[1..][..m];
      m := m + 1;
    }
  }

  // ---------- what being handled means

  lemma {:induction false} DispatchHandled(s: State, k: nat)
    requires Inv(s) && s.running.None? && k < |s.pending| && k < DrainPops(s) && InRange(s, s.pending[k])
    requires s.pending[k].kind == DispatchKind && s.dispatches.entries[s.pending[k].index].phase == Used
    ensures Drain(s).event == Some(DispatchRun(DispatchRegOf(s.dispatches, s.pending[k].index)))
    decreases ActionSockets(s), |s.pending|
  {
    PopInv(s);
    if k > 0 {
      PopBehind(s, k);
      hide TimerInv, SocketInv, DispatchInv, Of, Pop;
      DispatchHandled(Pop(s).state, k - 1);
    }
  }

  lemma {:induction false} SocketHandled(s: State, k: nat)
    requires Inv(s) && s.running.None? && k < |s.pending| && k < DrainPops(s) && InRange(s, s.pending[k])
    requires s.pending[k].kind == SocketKind && s.sockets.entries[s.pending[k].index].phase == Destroy
    ensures Drain(s).event == Some(SocketDestroyed(SocketRegOf(s.sockets, s.pending[k].index)))
    decreases ActionSockets(s), |s.pending|
  {
    PopInv(s);
    if k > 0 {
      PopBehind(s, k);
      hide TimerInv, SocketInv, DispatchInv, Of;
      assert Pop(s).event.None?;
      hide Pop;
      SocketHandled(Pop(s).state, k - 1);
    }
  }

  /** An accepted dispatch at position `k` of the pending list is run, and a socket waiting there for its
      destroy handler is destroyed, by one of the next (k + 1) * (timerLimit + 1) calls. */
  lemma EventuallyRun(s: State, k: nat, calls: seq<Call>) returns (m: nat)
    requires Inv(s) && s.running.None? && k < |s.pending| && InRange(s, s.pending[k])
    requires |calls| >= (k + 1) * (|s.timers.entries| + 1)
    ensures m < (k + 1) * (|s.timers.entries| + 1)
    ensures Inv(Rounds(s, calls[..m])) && Rounds(s, calls[..m]).running.None?
    ensures s.pending[k].kind == DispatchKind && s.dispatches.entries[s.pending[k].index].phase == Used ==>
      NextEvent(Rounds(s, calls[..m]), calls[m].now).event
      == Some(DispatchRun(DispatchRegOf(s.dispatches, s.pending[k].index)))
    ensures s.pending[k].kind == SocketKind && s.sockets.entries[s.pending[k].index].phase == Destroy ==>
      NextEvent(Rounds(s, calls[..m]), calls[m].now).event
      == Some(SocketDestroyed(SocketRegOf(s.sockets, s.pending[k].index)))
  {
    hide TimerInv, SocketInv, DispatchInv, Of, Round, Rounds;
    var j: nat;
    m, j := NoStarvation(s, k, calls);
    var n := Rounds(s, calls[..m]);
    hide Drain, DrainPops;
    HandledEvent(n, calls[m].now, j);
  }

  lemma HandledEvent(n: State, now: int, j: nat)
    requires Inv(n) && n.running.None? && j < |n.pending| && InRange(n, n.pending[j]) && Handled(n, now) > j
    ensures n.pending[j].kind == DispatchKind && n.dispatches.entries[n.pending[j].index].phase == Used ==>
      NextEvent(n, now).event == Some(DispatchRun(DispatchRegOf(n.dispatches, n.pending[j].index)))
    ensures n.pending[j].kind == SocketKind && n.sockets.entries[n.pending[j].index].phase == Destroy ==>
      NextEvent(n, now).event == Some(SocketDestroyed(SocketRegOf(n.sockets, n.pending[j].index)))
  {
    InvSorted(n);
    hide TimerInv, SocketInv, DispatchInv, Of, Drain, DrainPops;
    var timeout := if n.timers.used == [] then -1 else ToInt32(n.timers.entries[n.timers.used[0]].actionTime - now);
    var n' := n.(pollTimeout := timeout);
    if n.pending[j].kind == DispatchKind && n.dispatches.entries[n.pending[j].index].phase == Used {
      DispatchHandled(n', j);
    }
    if n.pending[j].kind == SocketKind && n.sockets.entries[n.pending[j].index].phase == Destroy {
      SocketHandled(n', j);
    }
  }
}
