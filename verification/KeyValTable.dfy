/** The table of libnetq/KeyVal.c as linked nodes: lookups, splices and walks over the single chain. */
module KeyValTable {
  import opened Words
  import opened Seqs
  import opened Hash
  import opened KeyVal

  /** The node behind position `i` of bucket `b`: the next entry, the next head, or nothing. */
  ghost function NextNode(heads: seq<Node>, buckets: seq<seq<Node>>, b: nat, i: nat): Node?
    requires |heads| == |buckets| && b < |buckets| && i <= |buckets[b]|
  {
    if i < |buckets[b]| then buckets[b][i] else if b + 1 < |heads| then heads[b + 1] else null
  }

  /** All entries from position `i` of bucket `b` on. */
  ghost function Rest(buckets: seq<seq<Node>>, b: nat, i: nat): seq<Node>
    requires b < |buckets| && i <= |buckets[b]|
  {
    buckets[b][i..] + Flat(buckets, b + 1)
  }

  ghost predicate HeadsOk(heads: seq<Node>) {
    && |heads| == COUNT && (forall b :: 0 <= b < COUNT ==> heads[b].klenz == 0)
    && forall b, c :: 0 <= b < c < COUNT ==> heads[b] != heads[c]
  }

  // ---------- what giving the table back does to its nodes

  /** The fields of a node are read, or its memory is given back. */
  datatype Access = Read(node: Node) | Free(node: Node)

  /** The nodes given back, in order. */
  ghost function Freed(log: seq<Access>): seq<Node> {
    if log == [] then [] else
      var last := log[|log| - 1];
      Freed(log[..|log| - 1]) + if last.Free? then [last.node] else []
  }

  /** No node is read or given back again once it has been given back. */
  ghost predicate NothingAfterFree(log: seq<Access>) {
    forall i, j :: 0 <= i < j < |log| && log[i].Free? ==> log[j].node != log[i].node
  }

  lemma {:induction false} FreedHas(log: seq<Access>, k: nat)
    requires k < |log| && log[k].Free?
    ensures log[k].node in Freed(log)
    decreases |log|
  {
    var n := |log| - 1;
    if k < n {
      assert log[..n][k] == log[k];
      FreedHas(log[..n], k);
    }
  }

  lemma OneAccess(log: seq<Access>, a: Access)
    requires NothingAfterFree(log) && a.node !in Freed(log)
    ensures NothingAfterFree(log + [a]) && Freed(log + [a]) == Freed(log) + if a.Free? then [a.node] else []
  {
    assert (log + [a])[..|log|] == log;
    forall i | 0 <= i < |log| && log[i].Free? ensures log[i].node != a.node { FreedHas(log, i); }
  }

  class Table {
    const data: seq<Node>
    var count: nat
    ghost var buckets: seq<seq<Node>>
    ghost var contents: map<Bytes, Bytes>

    ghost function Entries(): set<Node>
      reads this
    {
      set b, i | 0 <= b < |buckets| && 0 <= i < |buckets[b]| :: buckets[b][i]
    }

    /** One chain: each head leads to its bucket, and the end of a bucket to the next head. */
    ghost predicate Linked()
      requires HeadsOk(data) && BucketsOk(buckets)
      reads this, data, Entries()
    {
      && (forall b :: 0 <= b < COUNT ==> data[b].next == NextNode(data, buckets, b, 0))
      && forall b, i :: 0 <= b < COUNT && 0 <= i < |buckets[b]| ==> buckets[b][i].next == NextNode(data, buckets, b, i + 1)
    }

    ghost predicate Valid()
      reads this, data, Entries()
    {
      && HeadsOk(data) && BucketsOk(buckets) && Represents(buckets, contents) && count == |contents|
      && Linked()
    }

    /** NQKeyVal_create. */
    constructor ()
      ensures Valid() && contents == map[] && fresh(data)
    {
      count := 0;
      buckets := seq(COUNT, _ => []);
      contents := map[];
      var heads: seq<Node> := [];
      for i := 0 to COUNT
        invariant |heads| == i && fresh(heads) && forall c :: 0 <= c < i ==> heads[c].klenz == 0
        invariant forall c, d :: 0 <= c < d < i ==> heads[c] != heads[d]
      {
        var head := new Node(0, 0, [], null);
        heads := heads + [head];
      }
      data := heads;
      new;
      for i := 0 to COUNT
        invariant HeadsOk(data) && fresh(data) && buckets == seq(COUNT, _ => []) && contents == map[] && count == 0
        invariant forall c :: 0 <= c < i ==> data[c].next == if c + 1 == COUNT then null else data[c + 1]
      {
        data[i].next := if i + 1 == COUNT then null else data[i + 1];
      }
      assert forall b :: 0 <= b < COUNT ==> NextNode(data, buckets, b, 0) == if b + 1 == COUNT then null else data[b + 1];
    }

    /** The two inner loops of NQKeyVal_get: where the value starts if the entry has the key. */
    static method SameKey(e: Node, key: seq<Byte>) returns (value: Option<nat>)
      requires EntryOk(e) && 0 in key
      ensures 0 < e.klenz < |e.payload|
      ensures value == if KeyOf(e) == key[..StrLen(key)] then Some(e.klenz) else None
    {
      hide StrLen, EntryOk;
      EntryFacts(e);
      var k := 0;
      while e.payload[k] == key[k]
        invariant k <= StrLen(key) && k < e.klenz && e.payload[..k] == key[..k]
        decreases e.klenz - k
      {
        if e.payload[k] == 0 {
          return Some(k + 1);
        }
        k := k + 1;
      }
      value := None;
    }

    /** NQKeyVal_get, with `key` the memory of a NUL-terminated string. */
    method Get(key: seq<Byte>) returns (val: Option<Bytes>)
      requires Valid() && 0 in key
      ensures var k := key[..StrLen(key)];
        val == if k in contents then Some(contents[k]) else None
    {
      hide HashOf, StrLen, EntryOk, BucketOk, Represents, HeadsOk, Flat, KeyOf, ValOf, Holds, Rest;
      HeadCount(data);
      var hash := CStringWithSeed(SEED, key);
      ghost var k := key[..StrLen(key)];
      var b := hash % COUNT;
      var iter := data[b].next;
      ghost var i := 0;
      while iter != null && iter.klenz != 0
        invariant i <= |buckets[b]| && iter == NextNode(data, buckets, b, i)
        invariant forall j :: 0 <= j < i ==> 0 < buckets[b][j].klenz <= |buckets[b][j].payload| && KeyOf(buckets[b][j]) != k
        decreases |buckets[b]| - i
      {
        NextIs(data, buckets, b, i);
        EntryBound(buckets, contents, b, i);
        if iter.hash == hash {
          var value := SameKey(iter, key);
          if value.Some? {
            StoredValue(iter);
            return Some(iter.payload[value.value..][..StrLen(iter.payload[value.value..])]);
          }
        }
        iter := iter.next;
        i := i + 1;
      }
      NextIs(data, buckets, b, i);
      if k in contents { BoundIsFound(buckets, contents, b, k); }
      val := None;
    }

    /** NQKeyVal_set with enough memory, on two NUL-terminated strings. */
    method Set(key: seq<Byte>, val: seq<Byte>) returns (ok: bool)
      requires Valid() && 0 in key && 0 in val
      modifies this, data, Entries()
      ensures Valid() && fresh(Entries() - old(Entries()))
      ensures var k, v := key[..StrLen(key)], val[..StrLen(val)];
        && ok == (|k| < WORD - 1)
        && contents == if ok then old(contents)[k := v] else old(contents)
    {
      var klen := StrLen(key);
      if WORD - 1 <= klen {
        return false;
      }
      var hash := StringWithSeed(SEED, key, klen);
      var k, v := key[..klen], val[..StrLen(val)];
      var iter := new Node(klen + 1, hash, k + [0] + v + [0], null);
      Link(iter, k, v);
      ok := true;
    }

    /** The chain with `iter` in front of bucket `b` and its entry `p`, if there is one, left out. */
    ghost predicate Spliced(b: nat, iter: Node, p: nat)
      requires b < COUNT && HeadsOk(data) && |buckets| == COUNT && p <= |buckets[b]|
      reads this, data, Entries(), iter
    {
      && data[b].next == iter && iter.next == Skip(data, buckets, b, p, 0)
      && (forall c :: 0 <= c < COUNT && c != b ==> data[c].next == NextNode(data, buckets, c, 0))
      && (forall i :: 0 <= i < |buckets[b]| && i != p ==> buckets[b][i].next == Skip(data, buckets, b, p, i + 1))
      && forall c, i :: 0 <= c < COUNT && c != b && 0 <= i < |buckets[c]| ==> buckets[c][i].next == NextNode(data, buckets, c, i + 1)
    }

    /** Entry `p` is taken out of the chain. */
    method Unlink(iter: Node, prev: Node, next: Node, b: nat, ghost p: nat)
      requires HeadsOk(data) && BucketsOk(buckets) && iter !in Entries() && iter !in data
      requires b < COUNT && p < |buckets[b]| && next == buckets[b][p] && prev == (if p == 0 then iter else buckets[b][p - 1])
      requires Spliced(b, iter, |buckets[b]|)
      modifies prev
      ensures Spliced(b, iter, p)
    {
      hide EntryOk, BucketOk;
      forall c, i | 0 <= c < COUNT && 0 <= i < |buckets[c]| && (c, i) != (b, p - 1) ensures buckets[c][i] != prev {
        InEntries(c, i);
        if p > 0 { PlacesDiffer(data, buckets, c, i, b, p - 1); }
      }
      forall c | 0 <= c < COUNT ensures data[c] != prev {
        if p > 0 { PlacesDiffer(data, buckets, b, p - 1, c, 0); }
      }
      assert next.next == NextNode(data, buckets, b, p + 1);
      prev.next := next.next;
    }

    lemma InEntries(c: nat, i: nat)
      requires c < |buckets| && i < |buckets[c]|
      ensures buckets[c][i] in Entries()
    {
    }

    /** The bookkeeping of a set that has left entry `p` out. */
    ghost method Adopt(iter: Node, key: Bytes, val: Bytes, b: nat, p: nat)
      requires HeadsOk(data) && BucketsOk(buckets) && Represents(buckets, contents)
      requires IsText(key) && IsText(val) && Holds(iter, key, val) && b == BucketFor(key) && FirstWith(buckets[b], b, key, p)
      requires Spliced(b, iter, p) && count == |contents| + if p == |buckets[b]| then 1 else 0
      modifies this`buckets, this`contents
      ensures Valid() && contents == old(contents)[key := val] && Entries() <= old(Entries()) + {iter}
    {
      hide EntryOk, HashOf, Represents, BucketOk, Holds;
      SetRepresents(buckets, contents, iter, key, val, p);
      BoundIff(buckets, contents, key, p);
      ghost var n: seq<seq<Node>> := buckets[b := SetBucket(buckets[b], iter, p)];
      forall i | 0 <= i < |n[b]| ensures n[b][i].next == NextNode(data, n, b, i + 1) {
        NextAfter(data, buckets, b, iter, p, i);
      }
      buckets := n;
      contents := contents[key := val];
    }

    /** The new entry comes between the head of its bucket and what was there. */
    method PushFront(iter: Node, b: nat) returns (next: Node?)
      requires HeadsOk(data) && BucketsOk(buckets) && Linked() && b < COUNT && iter !in Entries() && iter !in data
      modifies data[b], iter
      ensures Spliced(b, iter, |buckets[b]|) && next == NextNode(data, buckets, b, 0)
    {
      hide EntryOk, BucketOk;
      forall c, i | 0 <= c < COUNT && 0 <= i < |buckets[c]| ensures buckets[c][i] != iter && buckets[c][i] != data[b] {
        InEntries(c, i);
        PlacesDiffer(data, buckets, c, i, b, 0);
      }
      next := data[b].next;
      iter.next := next;
      data[b].next := iter;
    }

    /** The walk behind the new entry: the old entry of the key, if there is one, is unlinked. */
    method UnlinkOld(iter: Node, key: Bytes, ghost val: Bytes, b: nat, first: Node?) returns (found: bool, ghost p: nat)
      requires HeadsOk(data) && BucketsOk(buckets) && iter !in Entries() && iter !in data
      requires Holds(iter, key, val) && b == BucketFor(key) && first == NextNode(data, buckets, b, 0)
      requires Spliced(b, iter, |buckets[b]|)
      modifies Entries(), iter
      ensures FirstWith(buckets[b], b, key, p) && Spliced(b, iter, p) && found == (p < |buckets[b]|)
    {
      hide HashOf, EntryOk, BucketOk, Holds, KeyOf, ValOf;
      var prev, next := iter, first;
      p := 0;
      while next != null && next.klenz != 0
        invariant p <= |buckets[b]| && next == NextNode(data, buckets, b, p)
        invariant prev == if p == 0 then iter else buckets[b][p - 1]
        invariant Spliced(b, iter, |buckets[b]|)
        invariant forall j :: 0 <= j < p ==> 0 < buckets[b][j].klenz <= |buckets[b][j].payload| && KeyOf(buckets[b][j]) != key
        decreases |buckets[b]| - p
      {
        NextIs(data, buckets, b, p);
        SameHash(buckets[b], b, p, iter, key, val);
        if next.hash == iter.hash && KeyOf(next) == key {
          Unlink(iter, prev, next, b, p);
          return true, p;
        }
        prev := next;
        next := next.next;
        p := p + 1;
      }
      NextIs(data, buckets, b, p);
      found := false;
    }

    /** The second half of NQKeyVal_set. */
    method Link(iter: Node, key: Bytes, ghost val: Bytes)
      requires Valid() && IsText(key) && IsText(val) && Holds(iter, key, val) && iter !in Entries() && iter !in data
      modifies this, data, Entries(), iter
      ensures Valid() && contents == old(contents)[key := val] && Entries() <= old(Entries()) + {iter}
    {
      hide HashOf, EntryOk, Represents, BucketOk, Holds, FirstWith;
      HoldsHash(iter, key, val);
      var b := iter.hash % COUNT;
      var next := PushFront(iter, b);
      var found, p := UnlinkOld(iter, key, val, b, next);
      if !found {
        count := count + 1;
      }
      FirstBound(buckets[b], b, key, p);
      Adopt(iter, key, val, b, p);
    }

    // ---------- walks

    /** NQKeyValIter_next from the head of bucket `b`, or from entry `i - 1` of it: heads are stepped over. */
    method IterNext(iter: Node, ghost b: nat, ghost i: nat) returns (next: Node?, ghost c: nat, ghost j: nat)
      requires Valid() && b < COUNT && i <= |buckets[b]| && iter == NodeAt(data, buckets, b, i)
      ensures next == null <==> Rest(buckets, b, i) == []
      ensures next != null ==> c < COUNT && 0 < j <= |buckets[c]| && next == buckets[c][j - 1]
                               && Rest(buckets, b, i) == [next] + Rest(buckets, c, j)
    {
      hide EntryOk, Represents, BucketOk, Flat;
      c, j := b, i;
      next := iter;
      while true
        invariant c < COUNT && j <= |buckets[c]| && next == NodeAt(data, buckets, c, j)
        invariant Rest(buckets, c, j) == Rest(buckets, b, i)
        decreases COUNT - c
      {
        NextIs(data, buckets, c, j);
        RestStep(buckets, c, j);
        next := next.next;
        if next == null || next.klenz != 0 {
          if next != null { j := j + 1; }
          return;
        }
        c, j := c + 1, 0;
      }
    }

    /** NQKeyVal_begin, and then NQKeyValIter_next until the end: what a caller sees. */
    method Walk() returns (visited: seq<Node>)
      requires Valid()
      ensures visited == Flat(buckets, 0) && Lists(visited, contents)
    {
      hide Represents, BucketOk, HeadsOk, EntryOk, Flat, Lists, Rest, NextNode;
      HeadCount(data);
      OneEntryPerKey(buckets, contents);
      ListsAll(Flat(buckets, 0), contents);
      visited := [];
      if count == 0 {
        return;
      }
      FlatRest(buckets);
      var iter: Node?;
      ghost var b: nat, i: nat;
      iter, b, i := IterNext(data[0], 0, 0);
      while iter != null
        invariant iter != null ==> b < COUNT && 0 < i <= |buckets[b]| && iter == buckets[b][i - 1]
        invariant Flat(buckets, 0) == visited + if iter == null then [] else [iter] + Rest(buckets, b, i)
        decreases |Flat(buckets, 0)| - |visited|
      {
        visited := visited + [iter];
        iter, b, i := IterNext(iter, b, i);
      }
    }

    /** NQKeyVal_destroy: the walk reads the chain, gives back each entry once and stops with the last one; `log` is
        every access to a node, in order. */
    method Destroy() returns (freed: seq<Node>, ghost log: seq<Access>)
      requires Valid()
      modifies this`count
      ensures freed == Flat(buckets, 0) && count == 0
      ensures forall i, j :: 0 <= i < j < |freed| ==> freed[i] != freed[j]
      ensures NothingAfterFree(log) && Freed(log) == freed
    {
      hide Represents, BucketsOk, Flat, Lists, Rest, From, NodeAt, NextNode, NothingAfterFree, Freed;
      OneEntryPerKey(buckets, contents);
      ListsAll(Flat(buckets, 0), contents);
      WalkStarts(data, buckets);
      freed, log := [], [];
      NoAccess();
      var iter: Node? := data[0];
      ghost var b, i := 0, 0;
      while count != 0
        invariant HeadsOk(data) && BucketsOk(buckets) && Linked() && |buckets| == COUNT
        invariant count == |Flat(buckets, 0)| - |freed| && NothingAfterFree(log) && Freed(log) == freed
        invariant iter != null ==> b < COUNT && i <= |buckets[b]| && iter == NodeAt(data, buckets, b, i)
        invariant Flat(buckets, 0) == freed + if iter == null then [] else From(buckets, b, i)
        decreases if iter == null then 0 else COUNT - b, if iter == null then 0 else |buckets[b]| - i
      {
        WalkStep(data, buckets, freed, b, i);
        LinkOf(b, i);
        OneAccess(log, Read(iter));
        log := log + [Read(iter)];
        var next := iter.next;
        if iter.klenz != 0 {
          OneAccess(log, Free(iter));
          log := log + [Free(iter)];
          freed := freed + [iter];
          count := count - 1;
        }
        iter := next;
        if i < |buckets[b]| {
          i := i + 1;
        } else {
          b, i := b + 1, 0;
        }
      }
      FreedOnce(log);
    }

    lemma LinkOf(b: nat, i: nat)
      requires HeadsOk(data) && BucketsOk(buckets) && Linked() && b < COUNT && i <= |buckets[b]|
      ensures NodeAt(data, buckets, b, i).next == NextNode(data, buckets, b, i)
    {
    }
  }

  lemma {:induction false} FreedOnce(log: seq<Access>)
    requires NothingAfterFree(log)
    ensures forall i, j :: 0 <= i < j < |Freed(log)| ==> Freed(log)[i] != Freed(log)[j]
    decreases |log|
  {
    if log != [] {
      var n := |log| - 1;
      var before := log[..n];
      assert forall i :: 0 <= i < n ==> before[i] == log[i];
      FreedOnce(before);
      if log[n].node in Freed(before) { HasFreed(before, log[n].node); }
    }
  }

  lemma {:induction false} HasFreed(log: seq<Access>, node: Node)
    requires node in Freed(log)
    ensures exists k :: 0 <= k < |log| && log[k] == Free(node)
    decreases |log|
  {
    var n := |log| - 1;
    if log[n] != Free(node) {
      HasFreed(log[..n], node);
      var k :| 0 <= k < n && log[..n][k] == Free(node);
      assert log[k] == Free(node);
    }
  }

  lemma NoAccess()
    ensures NothingAfterFree([]) && Freed([]) == []
  {
  }

  lemma ListsAll(es: seq<Node>, contents: map<Bytes, Bytes>)
    requires Lists(es, contents)
    ensures |es| == |contents|
  {
  }

  lemma WalkStarts(heads: seq<Node>, buckets: seq<seq<Node>>)
    requires HeadsOk(heads) && BucketsOk(buckets)
    ensures |buckets| == COUNT && heads[0] == NodeAt(heads, buckets, 0, 0) && Flat(buckets, 0) == From(buckets, 0, 0)
  {
  }

  /** One step of the walk that gives nodes back: where it is, what is left, and that the node is still there. */
  lemma WalkStep(heads: seq<Node>, buckets: seq<seq<Node>>, freed: seq<Node>, b: nat, i: nat)
    requires HeadsOk(heads) && BucketsOk(buckets) && b < COUNT && i <= |buckets[b]|
    requires Flat(buckets, 0) == freed + From(buckets, b, i)
    ensures var n := NodeAt(heads, buckets, b, i); var next := NextNode(heads, buckets, b, i);
      && n !in freed && (n.klenz != 0 <==> i > 0)
      && (next == null <==> i == |buckets[b]| && b + 1 == COUNT)
      && (i < |buckets[b]| ==> next == NodeAt(heads, buckets, b, i + 1))
      && (i == |buckets[b]| && b + 1 < COUNT ==> next == NodeAt(heads, buckets, b + 1, 0))
      && Flat(buckets, 0) == freed + (if i > 0 then [n] else [])
                             + if i < |buckets[b]| then From(buckets, b, i + 1) else if b + 1 < COUNT then From(buckets, b + 1, 0) else []
  {
    hide EntryOk, BucketOk, Flat, Rest;
    NotYetFreed(buckets, freed, b, i, NodeAt(heads, buckets, b, i), heads);
    AtEntry(heads, buckets, b, i);
    FromStep(buckets, b, i);
  }

  /** The head of bucket `b`, or its entry `i - 1`. */
  ghost function NodeAt(heads: seq<Node>, buckets: seq<seq<Node>>, b: nat, i: nat): Node
    requires |heads| == |buckets| && b < |buckets| && i <= |buckets[b]|
  {
    if i == 0 then heads[b] else buckets[b][i - 1]
  }

  /** The entries from the node at that place on, itself included. */
  ghost function From(buckets: seq<seq<Node>>, b: nat, i: nat): seq<Node>
    requires b < |buckets| && i <= |buckets[b]|
  {
    if i == 0 then Rest(buckets, b, 0) else Rest(buckets, b, i - 1)
  }

  lemma RestStep(buckets: seq<seq<Node>>, b: nat, i: nat)
    requires b < |buckets| && i <= |buckets[b]|
    ensures i < |buckets[b]| ==> Rest(buckets, b, i) == [buckets[b][i]] + Rest(buckets, b, i + 1)
    ensures i == |buckets[b]| ==> Rest(buckets, b, i) == if b + 1 < |buckets| then Rest(buckets, b + 1, 0) else []
  {
  }

  lemma FlatRest(buckets: seq<seq<Node>>)
    requires |buckets| == COUNT
    ensures Flat(buckets, 0) == Rest(buckets, 0, 0)
  {
  }

  lemma FromStep(buckets: seq<seq<Node>>, b: nat, i: nat)
    requires b < |buckets| && i <= |buckets[b]|
    ensures From(buckets, b, i) == (if i == 0 then [] else [buckets[b][i - 1]])
                                   + if i < |buckets[b]| then From(buckets, b, i + 1)
                                     else if b + 1 < |buckets| then From(buckets, b + 1, 0) else []
  {
    RestStep(buckets, b, i);
    if i > 0 { RestStep(buckets, b, i - 1); }
  }

  lemma AtEntry(heads: seq<Node>, buckets: seq<seq<Node>>, b: nat, i: nat)
    requires HeadsOk(heads) && BucketsOk(buckets) && b < COUNT && i <= |buckets[b]|
    ensures NodeAt(heads, buckets, b, i).klenz != 0 <==> i > 0
  {
    if i > 0 { NextIs(heads, buckets, b, i - 1); }
  }

  lemma NotYetFreed(buckets: seq<seq<Node>>, freed: seq<Node>, b: nat, i: nat, iter: Node, heads: seq<Node>)
    requires HeadsOk(heads) && BucketsOk(buckets) && b < COUNT && i <= |buckets[b]| && iter == NodeAt(heads, buckets, b, i)
    requires Flat(buckets, 0) == freed + From(buckets, b, i)
    ensures iter !in freed
  {
    hide EntryOk, BucketOk, Flat, Rest;
    FlatIsOk(buckets, 0);
    AtEntry(heads, buckets, b, i);
    FromStep(buckets, b, i);
    var f := Flat(buckets, 0);
    forall k | 0 <= k < |freed| ensures freed[k] != iter {
      assert f[k] == freed[k] && f[k] in f;
      if i > 0 {
        assert f[|freed|] == From(buckets, b, i)[0] == iter;
        assert KeyOf(f[k]) != KeyOf(f[|freed|]);
      }
    }
  }

  lemma FirstBound(bucket: seq<Node>, b: nat, key: Bytes, p: nat)
    requires BucketOk(bucket, b) && FirstWith(bucket, b, key, p)
    ensures p <= |bucket|
  {
  }

  /** A node with bytes is an entry; anything else ends the bucket. */
  lemma NextIs(heads: seq<Node>, buckets: seq<seq<Node>>, b: nat, i: nat)
    requires HeadsOk(heads) && BucketsOk(buckets) && b < COUNT && i <= |buckets[b]|
    ensures var n := NextNode(heads, buckets, b, i); (n != null && n.klenz != 0) <==> i < |buckets[b]|
  {
    hide EntryOk;
    assert BucketOk(buckets[b], b);
    if i < |buckets[b]| { assert buckets[b][i] in buckets[b]; }
  }

  lemma HoldsHash(e: Node, key: Bytes, val: Bytes)
    requires Holds(e, key, val)
    ensures e.hash % COUNT == BucketFor(key)
  {
  }

  /** Equal keys have equal hashes, so comparing the hashes first loses nothing. */
  lemma SameHash(bucket: seq<Node>, b: nat, i: nat, e: Node, key: Bytes, val: Bytes)
    requires BucketOk(bucket, b) && i < |bucket| && Holds(e, key, val)
    ensures 0 < bucket[i].klenz < |bucket[i].payload| && (KeyOf(bucket[i]) == key ==> bucket[i].hash == e.hash)
  {
    EntryFacts(bucket[i]);
  }

  /** What follows position `i` of bucket `b` when entry `p` is left out. */
  ghost function Skip(heads: seq<Node>, buckets: seq<seq<Node>>, b: nat, p: nat, i: nat): Node?
    requires |heads| == |buckets| && b < |buckets| && i <= |buckets[b]|
  {
    if i == p < |buckets[b]| then NextNode(heads, buckets, b, i + 1) else NextNode(heads, buckets, b, i)
  }

  /** In the new bucket the links of the spliced chain are those of neighbours. */
  lemma NextAfter(heads: seq<Node>, buckets: seq<seq<Node>>, b: nat, e: Node, p: nat, i: nat)
    requires |heads| == |buckets| && b < |buckets| && p <= |buckets[b]| && i < |SetBucket(buckets[b], e, p)|
    ensures var n := buckets[b := SetBucket(buckets[b], e, p)]; var o := if i - 1 < p then i - 1 else i;
      && (i == 0 ==> n[b][i] == e && NextNode(heads, n, b, 1) == Skip(heads, buckets, b, p, 0))
      && (i > 0 ==> 0 <= o < |buckets[b]| && o != p && n[b][i] == buckets[b][o]
                    && NextNode(heads, n, b, i + 1) == Skip(heads, buckets, b, p, o + 1))
  {
    SetBucketAt(buckets[b], e, p, i);
    if i + 1 < |SetBucket(buckets[b], e, p)| { SetBucketAt(buckets[b], e, p, i + 1); }
  }

  lemma BoundIff(buckets: seq<seq<Node>>, contents: map<Bytes, Bytes>, key: Bytes, p: nat)
    requires BucketsOk(buckets) && Represents(buckets, contents) && FirstWith(buckets[BucketFor(key)], BucketFor(key), key, p)
    ensures key in contents <==> p < |buckets[BucketFor(key)]|
  {
    var b := BucketFor(key);
    if key in contents { BoundIsFound(buckets, contents, b, key); }
    if p < |buckets[b]| { assert KeyOf(buckets[b][p]) in contents; }
  }

  lemma HeadCount(heads: seq<Node>)
    requires HeadsOk(heads)
    ensures |heads| == COUNT
  {
  }

  lemma EntryBound(buckets: seq<seq<Node>>, contents: map<Bytes, Bytes>, b: nat, i: nat)
    requires BucketsOk(buckets) && Represents(buckets, contents) && b < COUNT && i < |buckets[b]|
    ensures var e := buckets[b][i];
      && EntryOk(e) && 0 < e.klenz < |e.payload| && e.hash == HashOf(SEED, KeyOf(e))
      && KeyOf(e) in contents && contents[KeyOf(e)] == ValOf(e)
  {
    hide EntryOk;
    assert BucketOk(buckets[b], b) && buckets[b][i] in buckets[b];
    EntryFacts(buckets[b][i]);
  }

  /** The value of an entry is a NUL-terminated string behind its key. */
  lemma StoredValue(e: Node)
    requires EntryOk(e)
    ensures 0 < e.klenz < |e.payload| && 0 in e.payload[e.klenz..]
    ensures e.payload[e.klenz..][..StrLen(e.payload[e.klenz..])] == ValOf(e)
  {
    EntryFacts(e);
    var m := e.payload[e.klenz..];
    assert m == ValOf(e) + [0];
    StrLenIs(m, |m| - 1);
  }

  lemma BoundIsFound(buckets: seq<seq<Node>>, contents: map<Bytes, Bytes>, b: nat, k: Bytes)
    requires BucketsOk(buckets) && Represents(buckets, contents) && b == BucketFor(k) && k in contents
    ensures exists j :: 0 <= j < |buckets[b]| && KeyOf(buckets[b][j]) == k
  {
    assert HasKey(buckets[b], b, k);
  }

  /** Nodes of different places are different. */
  lemma PlacesDiffer(heads: seq<Node>, buckets: seq<seq<Node>>, b: nat, i: nat, c: nat, j: nat)
    requires HeadsOk(heads) && BucketsOk(buckets) && b < COUNT && c < COUNT && i < |buckets[b]|
    ensures buckets[b][i] != heads[c]
    ensures j < |buckets[c]| && (b, i) != (c, j) ==> buckets[b][i] != buckets[c][j]
  {
    hide EntryOk;
    assert BucketOk(buckets[b], b) && BucketOk(buckets[c], c);
    assert buckets[b][i] in buckets[b];
    if j < |buckets[c]| {
      assert buckets[c][j] in buckets[c];
      if b == c && i != j {
        assert KeyOf(buckets[b][i]) != KeyOf(buckets[b][j]);
      }
    }
  }
}
