/** What the history of a looper can look like: the life of every registration, over every run. */
module LooperHistory {
  import opened Words
  import opened Seqs
  import opened Rings
  import opened LooperModel
  import opened LooperInvariant
  import opened LooperSteps
  import opened LooperSafety

  // ---------- the life of one timer

  /** `Armed`: set, and due again. `Fired`: a one-shot timer that has run. `Over`: cleared or destroyed.
      `Wrong`: the history shows something no timer may do. */
  datatype TimerLife = Unset | Armed(reg: TimerReg) | Fired(reg: TimerReg) | Over | Wrong

  /** An interval timer fires any number of times until it is cleared. A one-shot timer fires at most
      once; after that it is destroyed, if it has a destroy handler, or cleared. Nothing else happens
      to it, and nothing at all after it was cleared or destroyed. */
  function TimerNext(q: TimerLife, e: Event): TimerLife {
    match (q, e)
    case (Unset, TimerSet(r, _)) => Armed(r)
    case (Armed(r), TimerFired(f)) => if f != r then Wrong else if r.interval != 0 then Armed(r) else Fired(r)
    case (Armed(r), TimerCleared(c)) => if c == r then Over else Wrong
    case (Fired(r), TimerCleared(c)) => if c == r then Over else Wrong
    case (Fired(r), TimerDestroyed(f)) => if f == r && r.destroy != Null then Over else Wrong
    case _ => Wrong
  }

  function TimerSerial(e: Event): Option<nat> {
    match e
    case TimerSet(r, _) => Some(r.serial)
    case TimerCleared(r) => Some(r.serial)
    case TimerFired(r) => Some(r.serial)
    case TimerDestroyed(r) => Some(r.serial)
    case _ => None
  }

  function TimerLifeOf(log: seq<Event>, serial: nat): TimerLife {
    if log == [] then Unset else
      var q, e := TimerLifeOf(log[..|log| - 1], serial), log[|log| - 1];
      if TimerSerial(e) == Some(serial) then TimerNext(q, e) else q
  }

  /** The time for which a timer is set next: the one it was set for, and one interval later after each firing. */
  function DueNext(due: int, e: Event): int {
    match e
    case TimerSet(_, first) => first
    case TimerFired(r) => due + r.interval
    case _ => due
  }

  function DueOf(log: seq<Event>, serial: nat): int {
    if log == [] then 0 else
      var due, e := DueOf(log[..|log| - 1], serial), log[|log| - 1];
      if TimerSerial(e) == Some(serial) then DueNext(due, e) else due
  }

  // ---------- the life of one socket

  /** `Live`: registered. `Called`: its action handler is running. `Ended`: the handler returned 0 or the
      socket was removed, `returning` telling that the handler is still running. `Gone`: destroyed. */
  datatype SocketLife =
    | Absent | Live(reg: SocketReg) | Called(reg: SocketReg) | Ended(reg: SocketReg, returning: bool) | Gone | Misused

  /** Until a socket ends its handler is only called and returns, one call at a time. After it has ended
      the handler that was running may still return, and the destroy handler runs at most once, only
      if there is one, and as the last thing. Its descriptor is polled only between calls. */
  function SocketNext(q: SocketLife, e: Event): SocketLife {
    match (q, e)
    case (Absent, SocketAdded(r)) => Live(r)
    case (Live(r), SocketCalled(c, _)) => if c == r then Called(r) else Misused
    case (Live(r), SocketRemoved(c)) => if c == r then Ended(r, false) else Misused
    case (Live(r), SocketPolled(c, _, _)) => if c == r then q else Misused
    case (Called(r), SocketReturned(c, events)) =>
      if c != r then Misused else if events != 0 then Live(r) else Ended(r, false)
    case (Called(r), SocketRemoved(c)) => if c == r then Ended(r, true) else Misused
    case (Ended(r, returning), SocketReturned(c, _)) => if c == r && returning then Ended(r, false) else Misused
    case (Ended(r, returning), SocketRemoved(c)) => if c == r then q else Misused
    case (Ended(r, returning), SocketPolled(c, _, _)) => if c == r && !returning then q else Misused
    case (Ended(r, returning), SocketDestroyed(c)) => if c == r && r.destroy != Null && !returning then Gone else Misused
    case _ => Misused
  }

  function SocketSerial(e: Event): Option<nat> {
    match e
    case SocketAdded(r) => Some(r.serial)
    case SocketRemoved(r) => Some(r.serial)
    case SocketCalled(r, _) => Some(r.serial)
    case SocketReturned(r, _) => Some(r.serial)
    case SocketPolled(r, _, _) => Some(r.serial)
    case SocketDestroyed(r) => Some(r.serial)
    case _ => None
  }

  function SocketLifeOf(log: seq<Event>, serial: nat): SocketLife {
    if log == [] then Absent else
      var q, e := SocketLifeOf(log[..|log| - 1], serial), log[|log| - 1];
      if SocketSerial(e) == Some(serial) then SocketNext(q, e) else q
  }

  // ---------- dispatches, in order

  /** The accepted dispatches, in the order of acceptance. */
  function Accepted(log: seq<Event>): seq<DispatchReg> {
    if log == [] then [] else
      Accepted(log[..|log| - 1]) + (if log[|log| - 1].Dispatched? then [log[|log| - 1].dispatch] else [])
  }

  /** The dispatches whose action has run, in the order of running. */
  function Ran(log: seq<Event>): seq<DispatchReg> {
    if log == [] then [] else
      Ran(log[..|log| - 1]) + (if log[|log| - 1].DispatchRun? then [log[|log| - 1].dispatch] else [])
  }

  /** The dispatches whose destroy handler has run, in the order of running. */
  function Destroyed(log: seq<Event>): seq<DispatchReg> {
    if log == [] then [] else
      Destroyed(log[..|log| - 1]) + (if log[|log| - 1].DispatchDestroyed? then [log[|log| - 1].dispatch] else [])
  }

  function WithDestroy(rs: seq<DispatchReg>): seq<DispatchReg> {
    if rs == [] then [] else
      WithDestroy(rs[..|rs| - 1]) + (if rs[|rs| - 1].destroy != Null then [rs[|rs| - 1]] else [])
  }

  ghost predicate InEntries(d: Dispatches, pend: seq<nat>) {
    forall j :: 0 <= j < |pend| ==> pend[j] < |d.entries|
  }

  /** Pending dispatches whose action is still to run. */
  function Waiting(d: Dispatches, pend: seq<nat>): seq<DispatchReg>
    requires InEntries(d, pend)
  {
    if pend == [] then [] else
      (if d.entries[pend[0]].phase == Used then [DispatchRegOf(d, pend[0])] else []) + Waiting(d, pend[1..])
  }

  /** Pending dispatches whose action has run and whose destroy handler is still to run. */
  function Undestroyed(d: Dispatches, pend: seq<nat>): seq<DispatchReg>
    requires InEntries(d, pend)
  {
    if pend == [] then [] else
      (if d.entries[pend[0]].phase == Action && d.entries[pend[0]].destroy != Null then [DispatchRegOf(d, pend[0])] else [])
      + Undestroyed(d, pend[1..])
  }

  // ---------- timers: the state tells the life

  function TimerEntryReg(e: TimerEntry): TimerReg {
    TimerReg(e.serial, e.interval, e.action, e.destroy, e.userdata)
  }

  predicate Current(e: TimerEntry) {
    e.phase in {Used, Action}
  }

  /** The life so far of the timer in a Used or Action entry. */
  function ExpectedLife(e: TimerEntry): TimerLife {
    if e.phase == Action && e.interval == 0 then Fired(TimerEntryReg(e)) else Armed(TimerEntryReg(e))
  }

  /** The timer is still to fire, or its destroy handler still to be called. */
  predicate Unfinished(q: TimerLife) {
    q.Armed? || (q.Fired? && q.reg.destroy != Null)
  }

  ghost predicate Kept(es: seq<TimerEntry>, n: nat) {
    exists i :: 0 <= i < |es| && Current(es[i]) && es[i].serial == n
  }

  /** When the timer of a Used or Action entry is due next. */
  function DueAgain(e: TimerEntry): int {
    e.actionTime + if e.phase == Action then e.interval else 0
  }

  /** No timer is forgotten, each is set for the time it should be, and one that goes to be freed is over. */
  ghost predicate TimerLedger(es: seq<TimerEntry>, log: seq<Event>) {
    && (forall n: nat :: Unfinished(TimerLifeOf(log, n)) ==> Kept(es, n))
    && (forall i :: 0 <= i < |es| && Current(es[i]) ==> DueOf(log, es[i].serial) == DueAgain(es[i]))
    && (forall i :: 0 <= i < |es| && es[i].phase == Destroy ==> TimerLifeOf(log, es[i].serial) == Over)
  }

  ghost predicate TimerHistory(es: seq<TimerEntry>, log: seq<Event>, next: nat) {
    TimerLives(es, log, next) && TimerLedger(es, log)
  }

  ghost predicate TimerLives(es: seq<TimerEntry>, log: seq<Event>, next: nat) {
    && (forall n: nat :: n >= next ==> TimerLifeOf(log, n) == Unset)
    && (forall n: nat :: TimerLifeOf(log, n) != Wrong)
    && (forall i :: 0 <= i < |es| && Current(es[i]) ==> TimerLifeOf(log, es[i].serial) == ExpectedLife(es[i]))
    && (forall i, j :: 0 <= i < j < |es| && Current(es[i]) && Current(es[j]) ==> es[i].serial != es[j].serial)
  }

  lemma TimerLifeAppend(log: seq<Event>, e: Event, n: nat)
    ensures TimerLifeOf(log + [e], n) ==
            if TimerSerial(e) == Some(n) then TimerNext(TimerLifeOf(log, n), e) else TimerLifeOf(log, n)
    ensures DueOf(log + [e], n) == if TimerSerial(e) == Some(n) then DueNext(DueOf(log, n), e) else DueOf(log, n)
  {
  }

  /** Events of the other kinds do not concern timers. */
  lemma TimerOther(es: seq<TimerEntry>, log: seq<Event>, next: nat, e: Event, next': nat)
    requires TimerHistory(es, log, next) && TimerSerial(e).None? && next <= next'
    ensures TimerHistory(es, log + [e], next')
  {
    forall n: nat ensures TimerLifeOf(log + [e], n) == TimerLifeOf(log, n) && DueOf(log + [e], n) == DueOf(log, n) {
      TimerLifeAppend(log, e, n);
    }
    hide TimerLifeOf, DueOf;
  }

  /** An entry changes without an event. */
  lemma TimerQuiet(es: seq<TimerEntry>, log: seq<Event>, next: nat, i: nat, x: TimerEntry)
    requires TimerHistory(es, log, next) && i < |es|
    requires Current(x) ==> Current(es[i]) && x.serial == es[i].serial && ExpectedLife(x) == ExpectedLife(es[i]) && DueAgain(x) == DueAgain(es[i])
    requires Current(es[i]) && !Current(x) ==> !Unfinished(ExpectedLife(es[i]))
    requires x.phase != Destroy
    ensures TimerHistory(es[i := x], log, next)
  {
    hide TimerLifeOf, DueOf;
    forall n: nat | Unfinished(TimerLifeOf(log, n)) ensures Kept(es[i := x], n) {
      var j :| 0 <= j < |es| && Current(es[j]) && es[j].serial == n;
      assert Current(es[i := x][j]) && es[i := x][j].serial == n;
    }
  }

  /** An entry changes to `x` with an event of the registration `n`. */
  lemma TimerMoves(es: seq<TimerEntry>, log: seq<Event>, next: nat, i: nat, x: TimerEntry, e: Event, n: nat, next': nat)
    requires TimerHistory(es, log, next) && i < |es| && TimerSerial(e) == Some(n) && next <= next' && n < next'
    requires (Current(es[i]) && es[i].serial == n) || (!Current(es[i]) && n >= next)
    requires TimerNext(TimerLifeOf(log, n), e) != Wrong
    requires Current(x) ==> x.serial == n && TimerNext(TimerLifeOf(log, n), e) == ExpectedLife(x) && DueNext(DueOf(log, n), e) == DueAgain(x)
    requires Unfinished(TimerNext(TimerLifeOf(log, n), e)) ==> Current(x)
    requires x.phase == Destroy ==> x.serial == n && TimerNext(TimerLifeOf(log, n), e) == Over
    ensures TimerHistory(es[i := x], log + [e], next')
  {
    forall m: nat
      ensures TimerLifeOf(log + [e], m) == if m == n then TimerNext(TimerLifeOf(log, n), e) else TimerLifeOf(log, m)
      ensures DueOf(log + [e], m) == if m == n then DueNext(DueOf(log, n), e) else DueOf(log, m)
    {
      TimerLifeAppend(log, e, m);
    }
    hide TimerLifeOf, DueOf, DueNext;
    assert TimerLives(es[i := x], log + [e], next');
    forall m: nat | Unfinished(TimerLifeOf(log + [e], m)) ensures Kept(es[i := x], m) {
      if m == n {
        assert Current(es[i := x][i]);
      } else {
        var j :| 0 <= j < |es| && Current(es[j]) && es[j].serial == m;
        assert Current(es[i := x][j]) && es[i := x][j].serial == m;
      }
    }
  }

  lemma PopTimerHistory(t: Timers, i: nat, log: seq<Event>, next: nat)
    requires TimerHistory(t.entries, log, next) && Sorted(t) && i < |t.entries| && t.entries[i].phase in {Action, Destroy}
    ensures var p := PopTimer(t, i);
      TimerHistory(p.part.entries, if p.event.Some? then log + [p.event.value] else log, next)
  {
    var p, x := PopTimer(t, i), t.entries[i];
    if p.event.Some? {
      TimerMoves(t.entries, log, next, i, p.part.entries[i], p.event.value, x.serial, next);
    } else {
      TimerQuiet(t.entries, log, next, i, p.part.entries[i]);
    }
  }

  // ---------- sockets: the slot tells the life

  predicate Counted(k: Sockets, running: Option<nat>, i: nat)
    requires i < |k.entries|
  {
    k.entries[i].phase != Free || running == Some(i)
  }

  /** The life so far of the socket in slot `i`. */
  predicate SlotLife(k: Sockets, running: Option<nat>, i: nat, q: SocketLife)
    requires i < |k.entries| == |k.pollfd|
  {
    var r := SocketRegOf(k, i);
    match k.entries[i].phase
    case Used => q == Live(r) && running != Some(i)
    case Action =>
      q == if running == Some(i) then Called(r) else if k.pollfd[i].events != 0 then Live(r) else Ended(r, false)
    case Destroy => q == Ended(r, running == Some(i)) && r.destroy != Null
    case Free => running == Some(i) ==> q == Ended(r, true) && r.destroy == Null
  }

  /** The socket is still to be served, or its destroy handler still to be called. */
  predicate Unserved(q: SocketLife) {
    q.Live? || q.Called? || (q.Ended? && (q.returning || q.reg.destroy != Null))
  }

  ghost predicate HasSlot(k: Sockets, running: Option<nat>, n: nat)
    requires k.pollSize <= |k.entries|
  {
    exists i :: 0 <= i < k.pollSize && Counted(k, running, i) && k.entries[i].serial == n
  }

  ghost predicate SocketHistory(k: Sockets, running: Option<nat>, log: seq<Event>, next: nat) {
    && SocketLives(k, running, log, next)
    && forall n: nat :: Unserved(SocketLifeOf(log, n)) ==> HasSlot(k, running, n)
  }

  ghost predicate SocketLives(k: Sockets, running: Option<nat>, log: seq<Event>, next: nat) {
    && |k.entries| == |k.pollfd| && k.pollSize <= |k.entries|
    && (forall n: nat :: n >= next ==> SocketLifeOf(log, n) == Absent)
    && (forall n: nat :: SocketLifeOf(log, n) != Misused)
    && (forall i :: 0 <= i < k.pollSize ==> SlotLife(k, running, i, SocketLifeOf(log, k.entries[i].serial)))
    && (forall i, j :: 0 <= i < j < k.pollSize && Counted(k, running, i) && Counted(k, running, j) ==>
          k.entries[i].serial != k.entries[j].serial)
    && (running.Some? ==> running.value < k.pollSize && k.entries[running.value].phase != Used)
  }

  lemma SocketLifeAppend(log: seq<Event>, e: Event, n: nat)
    ensures SocketLifeOf(log + [e], n) ==
            if SocketSerial(e) == Some(n) then SocketNext(SocketLifeOf(log, n), e) else SocketLifeOf(log, n)
  {
  }

  /** Events of the other kinds do not concern sockets. */
  lemma SocketOther(k: Sockets, running: Option<nat>, log: seq<Event>, next: nat, e: Event, next': nat)
    requires SocketHistory(k, running, log, next) && SocketSerial(e).None? && next <= next'
    ensures SocketHistory(k, running, log + [e], next')
  {
    forall n: nat ensures SocketLifeOf(log + [e], n) == SocketLifeOf(log, n) {
      SocketLifeAppend(log, e, n);
    }
    hide SocketLifeOf;
  }

  /** `k'` differs from `k` at most in slot `i`, the lists, and the events seen by the others. */
  ghost predicate OtherSlotsSame(k: Sockets, running: Option<nat>, i: nat, k': Sockets, running': Option<nat>) {
    && |k'.entries| == |k'.pollfd| == |k.entries| == |k.pollfd|
    && i <= k.pollSize && k'.pollSize <= |k.entries|
    && k'.pollSize == (if i < k.pollSize then k.pollSize else k.pollSize + 1)
    && (forall j :: 0 <= j < k.pollSize && j != i ==>
         && k'.entries[j] == k.entries[j] && k'.pollfd[j].fd == k.pollfd[j].fd && k'.pollfd[j].events == k.pollfd[j].events
         && (running == Some(j) <==> running' == Some(j)))
    && (running'.Some? ==> running'.value < k'.pollSize && k'.entries[running'.value].phase != Used)
  }

  /** A slot changes without an event. */
  lemma SocketQuiet(k: Sockets, running: Option<nat>, log: seq<Event>, next: nat, i: nat, k': Sockets)
    requires SocketHistory(k, running, log, next) && i < k.pollSize && OtherSlotsSame(k, running, i, k', running)
    requires k'.entries[i].serial == k.entries[i].serial
    requires Counted(k', running, i) ==> Counted(k, running, i)
    requires Counted(k', running, i) || !Unserved(SocketLifeOf(log, k.entries[i].serial))
    requires SlotLife(k', running, i, SocketLifeOf(log, k.entries[i].serial))
    ensures SocketHistory(k', running, log, next)
  {
    hide SocketLifeOf, Unserved;
    assert k'.pollSize == k.pollSize;
    forall j | 0 <= j < k'.pollSize ensures SlotLife(k', running, j, SocketLifeOf(log, k'.entries[j].serial)) {
      assert j != i ==> SlotLife(k, running, j, SocketLifeOf(log, k.entries[j].serial));
    }
    forall n: nat | Unserved(SocketLifeOf(log, n)) ensures HasSlot(k', running, n) {
      var j :| 0 <= j < k.pollSize && Counted(k, running, j) && k.entries[j].serial == n;
      assert Counted(k', running, j) && k'.entries[j].serial == n;
    }
  }

  /** Slot `i` changes with an event of the registration `n`. */
  lemma SocketMoves(k: Sockets, running: Option<nat>, log: seq<Event>, next: nat,
                    i: nat, k': Sockets, running': Option<nat>, e: Event, n: nat, next': nat)
    requires SocketHistory(k, running, log, next) && OtherSlotsSame(k, running, i, k', running')
    requires SocketSerial(e) == Some(n) && next <= next' && n < next'
    requires (i < k.pollSize && Counted(k, running, i) && k.entries[i].serial == n) || (i >= k.pollSize && n >= next)
    requires SocketNext(SocketLifeOf(log, n), e) != Misused
    requires k'.entries[i].serial == n && SlotLife(k', running', i, SocketNext(SocketLifeOf(log, n), e))
    requires Unserved(SocketNext(SocketLifeOf(log, n), e)) ==> Counted(k', running', i)
    ensures SocketHistory(k', running', log + [e], next')
  {
    hide SocketLifeOf, SocketNext, SlotLife, Counted;
    forall m: nat ensures SocketLifeOf(log + [e], m) == if m == n then SocketNext(SocketLifeOf(log, n), e) else SocketLifeOf(log, m) {
      SocketLifeAppend(log, e, m);
    }
    forall j | 0 <= j < k'.pollSize && j != i
      ensures SlotLife(k', running', j, SocketLifeOf(log + [e], k'.entries[j].serial))
      ensures Counted(k', running', j) ==> Counted(k, running, j) && k'.entries[j].serial == k.entries[j].serial != n
    {
      SlotKept(k, running, log, next, i, k', running', j, n);
    }
    forall m: nat | Unserved(SocketLifeOf(log + [e], m)) ensures HasSlot(k', running', m) {
      if m == n {
        assert Counted(k', running', i) && k'.entries[i].serial == m;
      } else {
        SlotMoved(k, running, log, next, i, k', running', n, m);
      }
    }
  }

  /** A registration other than `n` keeps its slot. */
  lemma SlotMoved(k: Sockets, running: Option<nat>, log: seq<Event>, next: nat,
                  i: nat, k': Sockets, running': Option<nat>, n: nat, m: nat)
    requires SocketHistory(k, running, log, next) && OtherSlotsSame(k, running, i, k', running')
    requires (i < k.pollSize && Counted(k, running, i) && k.entries[i].serial == n) || (i >= k.pollSize && n >= next)
    requires m != n && HasSlot(k, running, m)
    ensures HasSlot(k', running', m)
  {
    hide SocketLifeOf, SlotLife;
    var j :| 0 <= j < k.pollSize && Counted(k, running, j) && k.entries[j].serial == m;
    SlotKept(k, running, log, next, i, k', running', j, n);
    assert Counted(k', running', j) && k'.entries[j].serial == m;
  }

  /** Slot `j` keeps its life, and is not the registration `n` unless it no longer matters. */
  lemma SlotKept(k: Sockets, running: Option<nat>, log: seq<Event>, next: nat,
                 i: nat, k': Sockets, running': Option<nat>, j: nat, n: nat)
    requires SocketHistory(k, running, log, next) && OtherSlotsSame(k, running, i, k', running')
    requires (i < k.pollSize && Counted(k, running, i) && k.entries[i].serial == n) || (i >= k.pollSize && n >= next)
    requires j < k.pollSize && j != i
    ensures SlotLife(k', running', j, SocketLifeOf(log, k'.entries[j].serial))
    ensures k'.entries[j].serial == k.entries[j].serial
    ensures Counted(k', running', j) <==> Counted(k, running, j)
    ensures Counted(k, running, j) ==> k.entries[j].serial != n
    ensures !Counted(k, running, j) ==> forall q :: SlotLife(k', running', j, q)
  {
  }

  lemma PopSocketHistory(k: Sockets, i: nat, log: seq<Event>, next: nat)
    requires SocketHistory(k, None, log, next) && i < k.pollSize && k.entries[i].phase in {Used, Action, Destroy}
    ensures var p := PopSocket(k, i);
      SocketHistory(p.part, if p.event.Some? && p.event.value.SocketCalled? then Some(i) else None,
                    if p.event.Some? then log + [p.event.value] else log, next)
  {
    var p, n := PopSocket(k, i), k.entries[i].serial;
    assert SlotLife(k, None, i, SocketLifeOf(log, n));
    assert n < next;
    if p.event.Some? {
      var running := if p.event.value.SocketCalled? then Some(i) else None;
      SocketMoves(k, None, log, next, i, p.part, running, p.event.value, n, next);
    } else {
      SocketQuiet(k, None, log, next, i, p.part);
    }
  }

  /** Keeping a socket in the walk only clears the events it has seen. */
  lemma KeepSocketHistory(k: Sockets, i: nat, log: seq<Event>, next: nat)
    requires SocketHistory(k, None, log, next) && i < k.pollSize && k.used != []
    ensures SocketHistory(k.(pollfd := k.pollfd[i := k.pollfd[i].(revents := 0)], used := k.used[1..]), None, log, next)
  {
    ReportsAside(k, k.(pollfd := k.pollfd[i := k.pollfd[i].(revents := 0)], used := k.used[1..]), log, next);
  }

  /** What a poll has seen plays no part in the life of a socket. */
  lemma ReportsAside(k: Sockets, k': Sockets, log: seq<Event>, next: nat)
    requires SocketHistory(k, None, log, next) && k'.entries == k.entries && k'.pollSize == k.pollSize && |k'.pollfd| == |k.pollfd|
    requires forall i :: 0 <= i < |k.pollfd| ==> k'.pollfd[i].fd == k.pollfd[i].fd && k'.pollfd[i].events == k.pollfd[i].events
    ensures SocketHistory(k', None, log, next)
  {
    hide SocketLifeOf;
    forall i | 0 <= i < k.pollSize ensures SlotLife(k', None, i, SocketLifeOf(log, k'.entries[i].serial)) {
      assert SlotLife(k, None, i, SocketLifeOf(log, k.entries[i].serial));
    }
    forall n: nat | Unserved(SocketLifeOf(log, n)) ensures HasSlot(k', None, n) {
      var j :| 0 <= j < k.pollSize && Counted(k, None, j) && k.entries[j].serial == n;
      assert Counted(k', None, j);
    }
  }

  lemma {:induction false} PolledHistory(k: Sockets, reports: seq<int>, n: nat, log: seq<Event>, next: nat)
    requires SocketHistory(k, None, log, next) && n <= k.pollSize && n <= |reports|
    ensures |k.entries| == |k.pollfd| && SocketHistory(k, None, log + PollEvents(k, reports, n), next)
  {
    hide SocketHistory;
    HistorySlots(k, None, log, next);
    if n == 0 {
      assert log + [] == log;
    } else {
      PolledHistory(k, reports, n - 1, log, next);
      var l, i := log + PollEvents(k, reports, n - 1), n - 1;
      if k.entries[i].phase != Free {
        var e := SocketPolled(SocketRegOf(k, i), k.pollfd[i].events, reports[i]);
        assert log + PollEvents(k, reports, n) == l + [e];
        OnePolled(k, i, l, next, k.pollfd[i].events, reports[i]);
      } else {
        assert log + PollEvents(k, reports, n) == l;
      }
    }
  }

  lemma HistorySlots(k: Sockets, running: Option<nat>, log: seq<Event>, next: nat)
    requires SocketHistory(k, running, log, next)
    ensures k.pollSize <= |k.entries| == |k.pollfd|
  {
  }

  lemma OnePolled(k: Sockets, i: nat, log: seq<Event>, next: nat, events: int, revents: int)
    requires SocketHistory(k, None, log, next) && i < k.pollSize && k.entries[i].phase != Free
    ensures SocketHistory(k, None, log + [SocketPolled(SocketRegOf(k, i), events, revents)], next)
  {
    hide SocketLifeOf;
    var q := SocketLifeOf(log, k.entries[i].serial);
    assert SlotLife(k, None, i, q);
    SocketMoves(k, None, log, next, i, k, None, SocketPolled(SocketRegOf(k, i), events, revents), k.entries[i].serial, next);
  }

  /** Moving the last slot into a tombstone moves its life along. */
  lemma DropTombstoneHistory(k: Sockets, i: nat, log: seq<Event>, next: nat)
    requires SocketHistory(k, None, log, next) && i < k.pollSize && k.used != [] && k.entries[i].phase == Free
    ensures SocketHistory(DropTombstone(k, i), None, log, next)
  {
    var k' := DropTombstone(k, i);
    forall j | 0 <= j < k'.pollSize ensures SlotLife(k', None, j, SocketLifeOf(log, k'.entries[j].serial)) {
      assert SlotLife(k, None, Transpose(i, k.pollSize - 1, j), SocketLifeOf(log, k.entries[Transpose(i, k.pollSize - 1, j)].serial));
    }
    hide SocketLifeOf;
    forall n: nat | Unserved(SocketLifeOf(log, n)) ensures HasSlot(k', None, n) {
      var j :| 0 <= j < k.pollSize && Counted(k, None, j) && k.entries[j].serial == n;
      var m := Transpose(i, k.pollSize - 1, j);
      assert Counted(k', None, m) && k'.entries[m].serial == n;
    }
  }

  // ---------- dispatches: first in, first out

  ghost predicate DispatchHistory(d: Dispatches, pend: seq<nat>, log: seq<Event>) {
    && InEntries(d, pend)
    && Accepted(log) == Ran(log) + Waiting(d, pend)
    && WithDestroy(Ran(log)) == Destroyed(log) + Undestroyed(d, pend)
  }

  lemma {:induction false} PendingAppend(d: Dispatches, p: seq<nat>, i: nat)
    requires InEntries(d, p) && i < |d.entries|
    ensures InEntries(d, p + [i])
    ensures Waiting(d, p + [i]) == if d.entries[i].phase == Used then Waiting(d, p) + [DispatchRegOf(d, i)] else Waiting(d, p)
    ensures Undestroyed(d, p + [i]) ==
      if d.entries[i].phase == Action && d.entries[i].destroy != Null then Undestroyed(d, p) + [DispatchRegOf(d, i)]
      else Undestroyed(d, p)
  {
    if p == [] {
      assert [i][1..] == [];
    } else {
      PendingAppend(d, p[1..], i);
      assert (p + [i])[1..] == p[1..] + [i];
    }
  }

  lemma {:induction false} PendingSame(d: Dispatches, p: seq<nat>, i: nat, x: DispatchEntry, free: seq<nat>)
    requires InEntries(d, p) && i < |d.entries| && i !in p
    ensures InEntries(d.(entries := d.entries[i := x], free := free), p)
    ensures Waiting(d.(entries := d.entries[i := x], free := free), p) == Waiting(d, p)
    ensures Undestroyed(d.(entries := d.entries[i := x], free := free), p) == Undestroyed(d, p)
  {
    if p != [] {
      assert p == [p[0]] + p[1..];
      PendingSame(d, p[1..], i, x, free);
    }
  }

  /** What one more event adds to the filtered histories. */
  lemma FiltersAppend(log: seq<Event>, e: Event)
    ensures Accepted(log + [e]) == if e.Dispatched? then Accepted(log) + [e.dispatch] else Accepted(log)
    ensures Ran(log + [e]) == if e.DispatchRun? then Ran(log) + [e.dispatch] else Ran(log)
    ensures Destroyed(log + [e]) == if e.DispatchDestroyed? then Destroyed(log) + [e.dispatch] else Destroyed(log)
    ensures WithDestroy(Ran(log + [e])) ==
      if e.DispatchRun? && e.dispatch.destroy != Null then WithDestroy(Ran(log)) + [e.dispatch] else WithDestroy(Ran(log))
  {
  }

  lemma DispatchOther(d: Dispatches, pend: seq<nat>, log: seq<Event>, e: Event)
    requires DispatchHistory(d, pend, log) && !e.Dispatched? && !e.DispatchRun? && !e.DispatchDestroyed?
    ensures DispatchHistory(d, pend, log + [e])
  {
    FiltersAppend(log, e);
  }

  lemma PopDispatchHistory(d: Dispatches, i: nat, rest: seq<nat>, log: seq<Event>)
    requires DispatchHistory(d, [i] + rest, log) && i < |d.entries| && i !in rest && d.entries[i].phase != Free
    ensures var p := PopDispatch(d, i);
      DispatchHistory(p.part, if p.back then rest + [i] else rest, if p.event.Some? then log + [p.event.value] else log)
  {
    hide Waiting, Undestroyed, Accepted, Ran, Destroyed, WithDestroy;
    var p, r := PopDispatch(d, i), DispatchRegOf(d, i);
    PendingSplit(d, i, rest);
    PendingSame(d, rest, i, p.part.entries[i], p.part.free);
    if p.back { PendingAppend(p.part, rest, i); }
    if p.event.Some? { FiltersAppend(log, p.event.value); }
    Associative(Ran(log), [r], Waiting(d, rest));
    Associative(Destroyed(log), [r], Undestroyed(d, rest));
    Associative(Destroyed(log), Undestroyed(d, rest), [r]);
  }

  /** The head of the pending dispatches and the rest. */
  lemma PendingSplit(d: Dispatches, i: nat, rest: seq<nat>)
    requires InEntries(d, [i] + rest)
    ensures i < |d.entries| && InEntries(d, rest)
    ensures Waiting(d, [i] + rest) ==
      if d.entries[i].phase == Used then [DispatchRegOf(d, i)] + Waiting(d, rest) else Waiting(d, rest)
    ensures Undestroyed(d, [i] + rest) ==
      if d.entries[i].phase == Action && d.entries[i].destroy != Null then [DispatchRegOf(d, i)] + Undestroyed(d, rest)
      else Undestroyed(d, rest)
  {
    assert ([i] + rest)[0] == i && ([i] + rest)[1..] == rest;
    assert forall j :: 0 <= j < |rest| ==> rest[j] == ([i] + rest)[j + 1];
  }

  lemma AcceptDispatchHistory(d: Dispatches, pend: seq<nat>, log: seq<Event>, i: nat, n: Dispatches)
    requires DispatchHistory(d, pend, log) && i < |d.entries| == |n.entries| && i !in pend
    requires n == d.(entries := d.entries[i := n.entries[i]], free := n.free) && n.entries[i].phase == Used
    ensures DispatchHistory(n, pend + [i], log + [Dispatched(DispatchRegOf(n, i))])
  {
    var r := DispatchRegOf(n, i);
    PendingSame(d, pend, i, n.entries[i], n.free);
    PendingAppend(n, pend, i);
    FiltersAppend(log, Dispatched(r));
    Associative(Ran(log), Waiting(d, pend), [r]);
    hide Waiting, Undestroyed, Accepted, Ran, Destroyed, WithDestroy, DispatchRegOf;
  }

  lemma Associative<T>(a: seq<T>, b: seq<T>, c: seq<T>)
    ensures (a + b) + c == a + (b + c)
  {
  }
}
