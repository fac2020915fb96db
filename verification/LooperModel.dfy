/** libnetq/NetworkLooper.c as a state machine: what each list, entry and pollfd slot holds, and
    what one API call or one `nextEvent` does to them. Lists are the rings of List.h without their
    heads, front first. */
module LooperModel {
  import opened Words
  import opened Seqs
  import opened Rings

  /** The four states an entry goes through; kTimerIn.., kSocketIn.. and kDispatchIn.. are kept apart
      by the kind of the entry. */
  datatype Phase = Free | Used | Action | Destroy

  datatype Kind = TimerKind | SocketKind | DispatchKind

  /** An entry as a member of a list. */
  datatype Ref = Ref(kind: Kind, index: nat)

  /** A callback pointer that may be NULL. */
  datatype Handler = Null | Code(address: nat)

  /** `serial` numbers the registrations in the order they were accepted. It stands for the identity of
      a registration in the statements below; no branch of the looper depends on it. */
  datatype TimerEntry = TimerEntry(
    phase: Phase, nonce: nat, interval: int, actionTime: int,
    action: nat, destroy: Handler, userdata: int, serial: nat)

  datatype SocketEntry = SocketEntry(
    phase: Phase, nonce: nat, action: nat, destroy: Handler, userdata: int, serial: nat)

  datatype DispatchEntry = DispatchEntry(
    phase: Phase, nonce: nat, action: nat, destroy: Handler, userdata: int, serial: nat)

  datatype Pollfd = Pollfd(fd: int, events: int, revents: int)

  datatype Timers = Timers(entries: seq<TimerEntry>, used: seq<nat>, free: seq<nat>)

  datatype Sockets = Sockets(
    entries: seq<SocketEntry>, pollfd: seq<Pollfd>, pollSize: nat, used: seq<nat>, free: seq<nat>)

  datatype Dispatches = Dispatches(entries: seq<DispatchEntry>, free: seq<nat>)

  /** What identifies a registration to its owner. */
  datatype TimerReg = TimerReg(serial: nat, interval: int, action: nat, destroy: Handler, userdata: int)
  datatype SocketReg = SocketReg(serial: nat, fd: int, action: nat, destroy: Handler, userdata: int)
  datatype DispatchReg = DispatchReg(serial: nat, action: nat, destroy: Handler, userdata: int)

  /** The history of a looper: registrations, removals and callbacks, in order. */
  datatype Event =
    | TimerSet(timer: TimerReg, due: int)
    | TimerCleared(timer: TimerReg)
    | TimerFired(timer: TimerReg)
    | TimerDestroyed(timer: TimerReg)
    | SocketAdded(socket: SocketReg)
    | SocketRemoved(socket: SocketReg)
    | SocketCalled(socket: SocketReg, revents: int)
    | SocketReturned(socket: SocketReg, events: int)
    | SocketPolled(socket: SocketReg, events: int, revents: int)
    | SocketDestroyed(socket: SocketReg)
    | Dispatched(dispatch: DispatchReg)
    | DispatchRun(dispatch: DispatchReg)
    | DispatchDestroyed(dispatch: DispatchReg)

  /** `running` is the socket entry whose action handler is executing, if any. */
  datatype State = State(
    pending: seq<Ref>, timers: Timers, sockets: Sockets, dispatches: Dispatches,
    pollTimeout: int, running: Option<nat>, nextSerial: nat, log: seq<Event>)

  datatype Outcome = Outcome(state: State, event: Option<Event>)

  // ---------- views of the state

  /** The entries of one kind in a list, in list order. */
  function Of(kind: Kind, p: seq<Ref>): seq<nat> {
    if p == [] then []
    else (if p[0].kind == kind then [p[0].index] else []) + Of(kind, p[1..])
  }

  function TimerRegOf(t: Timers, i: nat): TimerReg
    requires i < |t.entries|
  {
    var e := t.entries[i];
    TimerReg(e.serial, e.interval, e.action, e.destroy, e.userdata)
  }

  function SocketRegOf(k: Sockets, i: nat): SocketReg
    requires i < |k.entries| == |k.pollfd|
  {
    var e := k.entries[i];
    SocketReg(e.serial, k.pollfd[i].fd, e.action, e.destroy, e.userdata)
  }

  function DispatchRegOf(d: Dispatches, i: nat): DispatchReg
    requires i < |d.entries|
  {
    var e := d.entries[i];
    DispatchReg(e.serial, e.action, e.destroy, e.userdata)
  }

  // ---------- each list holds what the states of its entries say

  predicate TimerIs(t: Timers, i: nat, phases: set<Phase>) {
    i < |t.entries| && t.entries[i].phase in phases
  }

  predicate DispatchIs(d: Dispatches, i: nat, phases: set<Phase>) {
    i < |d.entries| && d.entries[i].phase in phases
  }

  /** Earliest time first. */
  ghost predicate Sorted(t: Timers) {
    && (forall a :: 0 <= a < |t.used| ==> t.used[a] < |t.entries|)
    && forall a, b :: 0 <= a < b < |t.used| ==> t.entries[t.used[a]].actionTime <= t.entries[t.used[b]].actionTime
  }

  predicate NonceOk(nonce: nat) {
    0 < nonce < 0x10000
  }

  /** Timers: Free in the free list, Used in the used list sorted by time, Action or Destroy pending. */
  ghost predicate TimerInv(t: Timers, pend: seq<nat>) {
    && NoDup(t.free) && (forall i :: i in t.free <==> TimerIs(t, i, {Free}))
    && NoDup(t.used) && (forall i :: i in t.used <==> TimerIs(t, i, {Used}))
    && NoDup(pend) && (forall i :: i in pend <==> TimerIs(t, i, {Action, Destroy}))
    && Sorted(t)
    && forall i :: 0 <= i < |t.entries| ==> NonceOk(t.entries[i].nonce)
  }

  /** Dispatches: Free in the free list, otherwise pending. */
  ghost predicate DispatchInv(d: Dispatches, pend: seq<nat>) {
    && NoDup(d.free) && (forall i :: i in d.free <==> DispatchIs(d, i, {Free}))
    && NoDup(pend) && (forall i :: i in pend <==> DispatchIs(d, i, {Used, Action, Destroy}))
    && forall i :: 0 <= i < |d.entries| ==> NonceOk(d.entries[i].nonce)
  }

  /** Sockets: the first `pollSize` entries are split between the pending and the used list; only the
      used list holds tombstones (Free), only the pending list holds Action and Destroy. The others
      are Free and in the free list, in index order. */
  ghost predicate SocketInv(k: Sockets, pend: seq<nat>) {
    && |k.entries| == |k.pollfd| && k.pollSize <= |k.entries|
    && |k.free| == |k.entries| - k.pollSize
    && (forall j :: 0 <= j < |k.free| ==> k.free[j] == k.pollSize + j)
    && NoDup(k.used) && NoDup(pend)
    && (forall i :: i in k.used ==> i < k.pollSize && k.entries[i].phase in {Used, Free} && i !in pend)
    && (forall i :: i in pend ==> i < k.pollSize && k.entries[i].phase in {Used, Action, Destroy} && i !in k.used)
    && (forall i :: 0 <= i < k.pollSize ==> i in k.used || i in pend)
    && (forall i :: k.pollSize <= i < |k.entries| ==> k.entries[i].phase == Free)
    && forall i :: 0 <= i < |k.entries| ==> NonceOk(k.entries[i].nonce)
  }

  ghost predicate Inv(s: State) {
    && TimerInv(s.timers, Of(TimerKind, s.pending))
    && SocketInv(s.sockets, Of(SocketKind, s.pending))
    && DispatchInv(s.dispatches, Of(DispatchKind, s.pending))
    && (s.running.Some? ==> s.running.value < s.sockets.pollSize && s.pollTimeout == 0)
  }

  // ---------- operations

  /** The nonce part of reinitBaseEntry: 16 bits, never zero. */
  function NextNonce(nonce: nat): (r: nat)
    ensures NonceOk(r)
  {
    var n := (nonce + 1) % 0x10000;
    if n == 0 then 1 else n
  }

  /** The 32-bit value of an EntryId. */
  function IdValue(index: nat, nonce: nat): nat {
    index + 0x10000 * nonce
  }

  /** The position where insertTimer links an entry due at `time`: before the first later one. */
  function InsertPosition(t: Timers, time: int, from: nat): (r: nat)
    requires Sorted(t) && from <= |t.used|
    ensures from <= r <= |t.used|
    ensures forall a :: from <= a < r ==> t.entries[t.used[a]].actionTime <= time
    ensures r < |t.used| ==> time < t.entries[t.used[r]].actionTime
    decreases |t.used| - from
  {
    if from == |t.used| || time < t.entries[t.used[from]].actionTime then from
    else InsertPosition(t, time, from + 1)
  }

  /** insertTimer for entry `i`, whose new contents are `e`. */
  function InsertTimer(t: Timers, i: nat, e: TimerEntry): Timers
    requires Sorted(t) && i < |t.entries|
  {
    t.(entries := t.entries[i := e], used := InsertAt(t.used, InsertPosition(t, e.actionTime, 0), i))
  }

  /** What handling the head of the pending list does to the part of the state it belongs to; `back`
      says that the entry goes to the back of the pending list. */
  datatype Popped<T> = Popped(part: T, back: bool, event: Option<Event>)

  /** The kTimerIn.. cases of nextEvent. */
  function PopTimer(t: Timers, i: nat): (r: Popped<Timers>)
    requires Sorted(t) && i < |t.entries|
    ensures r.back <==> r.event.Some?
  {
    var e := t.entries[i];
    match e.phase
    case Action =>
      if e.interval != 0 then
        Popped(InsertTimer(t, i, e.(phase := Used, actionTime := e.actionTime + e.interval)), false, None)
      else if e.destroy == Null then
        Popped(t.(entries := t.entries[i := e.(phase := Free)], free := t.free + [i]), false, None)
      else
        Popped(t.(entries := t.entries[i := e.(phase := Destroy)]), true, Some(TimerDestroyed(TimerRegOf(t, i))))
    case Destroy =>
      Popped(t.(entries := t.entries[i := e.(phase := Free)], free := t.free + [i]), false, None)
    case _ =>
      Popped(t, false, None)
  }

  /** The kSocketIn.. cases of nextEvent. */
  function PopSocket(k: Sockets, i: nat): Popped<Sockets>
    requires i < |k.entries| == |k.pollfd|
  {
    var e := k.entries[i];
    match e.phase
    case Used =>
      Popped(k.(entries := k.entries[i := e.(phase := Action)]), true,
             Some(SocketCalled(SocketRegOf(k, i), k.pollfd[i].revents)))
    case Action =>
      if k.pollfd[i].events != 0 then
        Popped(k.(entries := k.entries[i := e.(phase := Used)], used := k.used + [i]), false, None)
      else if e.destroy == Null then
        Popped(k.(entries := k.entries[i := e.(phase := Free)], used := k.used + [i]), false, None)
      else
        Popped(k.(entries := k.entries[i := e.(phase := Destroy)]), true, None)
    case Destroy =>
      Popped(k.(entries := k.entries[i := e.(phase := Free)], used := k.used + [i]), false,
             Some(SocketDestroyed(SocketRegOf(k, i))))
    case _ =>
      Popped(k, false, None)
  }

  /** The kDispatchIn.. cases of nextEvent. */
  function PopDispatch(d: Dispatches, i: nat): (r: Popped<Dispatches>)
    requires i < |d.entries|
    ensures r.back <==> r.event.Some?
  {
    var e := d.entries[i];
    match e.phase
    case Used =>
      Popped(d.(entries := d.entries[i := e.(phase := Action)]), true, Some(DispatchRun(DispatchRegOf(d, i))))
    case Action =>
      if e.destroy == Null then
        Popped(d.(entries := d.entries[i := e.(phase := Free)], free := d.free + [i]), false, None)
      else
        Popped(d.(entries := d.entries[i := e.(phase := Destroy)]), true, Some(DispatchDestroyed(DispatchRegOf(d, i))))
    case Destroy =>
      Popped(d.(entries := d.entries[i := e.(phase := Free)], free := d.free + [i]), false, None)
    case _ =>
      Popped(d, false, None)
  }

  function Record(s: State, event: Option<Event>): State {
    if event.Some? then s.(log := s.log + [event.value], pollTimeout := 0) else s
  }

  function BackOf(r: Ref, back: bool): seq<Ref> {
    if back then [r] else []
  }

  predicate InRange(s: State, r: Ref) {
    match r.kind
    case TimerKind => r.index < |s.timers.entries|
    case SocketKind => r.index < |s.sockets.entries| == |s.sockets.pollfd|
    case DispatchKind => r.index < |s.dispatches.entries|
  }

  /** One turn of the loop over the pending list: lines 377-472. */
  function Pop(s: State): Outcome
    requires Sorted(s.timers) && s.pending != [] && InRange(s, s.pending[0])
  {
    var r, rest := s.pending[0], s.pending[1..];
    match r.kind
    case TimerKind =>
      var p := PopTimer(s.timers, r.index);
      Outcome(Record(s.(pending := rest + BackOf(r, p.back), timers := p.part), p.event), p.event)
    case SocketKind =>
      var p := PopSocket(s.sockets, r.index);
      Outcome(Record(s.(pending := rest + BackOf(r, p.back), sockets := p.part,
                        running := if p.event.Some? && p.event.value.SocketCalled? then Some(r.index) else s.running),
                     p.event), p.event)
    case DispatchKind =>
      var p := PopDispatch(s.dispatches, r.index);
      Outcome(Record(s.(pending := rest + BackOf(r, p.back), dispatches := p.part), p.event), p.event)
  }

  /** The first timer is due: lines 367-371. */
  function FireTimer(s: State): State
    requires Sorted(s.timers) && s.timers.used != []
  {
    var i := s.timers.used[0];
    s.(timers := s.timers.(entries := s.timers.entries[i := s.timers.entries[i].(phase := Action)],
                           used := s.timers.used[1..]),
       pending := s.pending + [Ref(TimerKind, i)],
       pollTimeout := 0,
       log := s.log + [TimerFired(TimerRegOf(s.timers, i))])
  }

  // ---------- compaction of the poll array

  /** A tombstone at `i`: the last slot moves into it and leaves the walk. Lines 486-498; the swap of
      list places is List.h's NQListHead_swap, which renames the two entries in every list. */
  function DropTombstone(k: Sockets, i: nat): Sockets
    requires i < k.pollSize <= |k.entries| == |k.pollfd| && k.used != []
  {
    var last := k.pollSize - 1;
    var moved := if i == last then k else
      k.(pollfd := k.pollfd[i := k.pollfd[last]],
         used := TransposeAll(i, last, k.used),
         entries := k.entries[i := k.entries[last].(nonce := k.entries[i].nonce)]
                             [last := k.entries[last].(phase := Free)]);
    moved.(pollSize := last, used := moved.used[1..], free := [last] + k.free)
  }

  /** One turn of the walk over the used socket list: lines 475-502. */
  function CompactStep(s: State): State
    requires s.sockets.used != []
    requires s.sockets.used[0] < s.sockets.pollSize <= |s.sockets.entries| == |s.sockets.pollfd|
  {
    var k := s.sockets;
    var i := k.used[0];
    if k.entries[i].phase == Used then
      s.(sockets := k.(pollfd := k.pollfd[i := k.pollfd[i].(revents := 0)], used := k.used[1..]),
         pending := s.pending + [Ref(SocketKind, i)])
    else
      s.(sockets := DropTombstone(k, i),
         pending := TransposeAll(Ref(SocketKind, i), Ref(SocketKind, k.pollSize - 1), s.pending))
  }
}
