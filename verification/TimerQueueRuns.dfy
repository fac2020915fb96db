/** Timer identifiers over whole runs of calls. */
module TimerQueueRuns {
  import opened Words
  import opened Seqs
  import opened BitOps
  import opened TimerQueueModel
  import opened TimerQueueIds
  import opened TimerQueueSafety

  datatype Call =
    | StartCall(interval: bool, startedAt: int, timeout: int, data: TimerData)
    | StopCall(id: nat)
    | ShiftCall(now: int)

  function Apply(q: Queue, c: Call): (r: Queue)
    requires Inv(q)
    ensures Inv(r)
  {
    match c
    case StartCall(interval, now, timeout, data) => StartInv(q, interval, now, timeout, data); Start(q, interval, now, timeout, data).0
    case StopCall(id) => StopInv(q, id); Stop(q, id).0
    case ShiftCall(now) => ShiftInv(q, now); Shift(q, now).queue
  }

  function After(q: Queue, calls: seq<Call>): (r: Queue)
    requires Inv(q)
    ensures Inv(r)
    decreases calls
  {
    hide Inv, Apply;
    if calls == [] then q else After(Apply(q, calls[0]), calls[1..])
  }

  /** The call gives slot `i` back to the free list. */
  predicate Releases(q: Queue, c: Call, i: nat)
    requires Inv(q)
  {
    i < |q.entries| == |Apply(q, c).entries| && q.entries[i].active && !Apply(q, c).entries[i].active
  }

  function CountReleases(q: Queue, calls: seq<Call>, i: nat): nat
    requires Inv(q)
    decreases calls
  {
    hide Inv, Apply, Releases;
    if calls == [] then 0
    else (if Releases(q, calls[0], i) then 1 else 0) + CountReleases(Apply(q, calls[0]), calls[1..], i)
  }

  lemma InsertEntry(q: Queue, i: nat, e: Entry)
    requires Sorted(q) && i < |q.entries|
    ensures Insert(q, i, e).entries == q.entries[i := e]
  {
  }

  lemma CallReleases(q: Queue, c: Call, i: nat)
    requires Inv(q) && i < |q.entries|
    ensures var n := Apply(q, c);
      |n.entries| == |q.entries| && n.entries[i].uses == q.entries[i].uses + if Releases(q, c, i) then 1 else 0
  {
    hide Inv, InvBut, Position, Insert, SlotOf, IndexOf;
    match c {
      case StartCall(interval, now, timeout, data) =>
        if timeout > 0 && q.free != [] {
          TakeFree(q);
          var j := q.free[0];
          InsertEntry(q.(free := q.free[1..]), j,
                      q.entries[j].(active := true, interval := interval, timeout := timeout, timePoint := timeout + now, data := data));
        }
      case StopCall(id) =>
      case ShiftCall(now) =>
        if q.active != [] {
          TakeFirst(q);
          var j := q.active[0];
          var e := q.entries[j];
          InsertEntry(q.(active := q.active[1..]), j, e.(timePoint := e.timePoint + e.timeout));
        }
    }
  }

  lemma {:induction false} RunReleases(q: Queue, calls: seq<Call>, i: nat)
    requires Inv(q) && i < |q.entries|
    ensures var n := After(q, calls);
      |n.entries| == |q.entries| && n.entries[i].uses == q.entries[i].uses + CountReleases(q, calls, i)
    decreases calls
  {
    hide Inv, Apply, Releases;
    if calls != [] {
      CallReleases(q, calls[0], i);
      RunReleases(Apply(q, calls[0]), calls[1..], i);
    }
  }

  /** An identifier is good for as long as its slot has not been released. Afterwards it is refused, until
      the slot has been released a multiple of 2^32 / allocCount times and is taken again. */
  lemma StaleIdentifier(q: Queue, calls: seq<Call>, i: nat)
    requires Inv(q) && i < |q.entries| && q.entries[i].id != INVALID
    ensures var n := After(q, calls);
      && |n.entries| == |q.entries| && Generations(|q.entries|) > 0
      && (Stop(n, q.entries[i].id).1.Some? <==> n.entries[i].active && CountReleases(q, calls, i) % Generations(|q.entries|) == 0)
  {
    hide CountReleases, After, Sized, IdOf, SlotOf, Generations;
    var n := After(q, calls);
    var m := |q.entries|;
    RunReleases(q, calls, i);
    var e := q.entries[i];
    assert e.id == IdOf(m, i, e.uses);
    assert n.entries[i].id == IdOf(m, i, n.entries[i].uses);
    SlotOfId(m, i, e.uses);
    SameId(m, i, e.uses, n.entries[i].uses);
  }

  /** A start that is accepted hands out an identifier the caller cannot tell from a refusal exactly when the
      slot is the last one and has been released 2^32 / allocCount - 1 times, or as often again. */
  lemma StartReturnsZero(q: Queue, interval: bool, now: int, timeout: int, data: TimerData)
    requires Inv(q) && timeout > 0 && q.free != []
    ensures var i := q.free[0];
      && i < |q.entries| && Generations(|q.entries|) > 0
      && (Start(q, interval, now, timeout, data).1 == INVALID <==>
            i == |q.entries| - 1 && (q.entries[i].uses + 1) % Generations(|q.entries|) == 0)
  {
    TakeFree(q);
    var i := q.free[0];
    ZeroId(|q.entries|, i, q.entries[i].uses);
  }
}
