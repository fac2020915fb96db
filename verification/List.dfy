/** Sequences seen as lists of distinct entries: insertion and removal at a position. */
module Seqs {

  ghost predicate NoDup<T>(s: seq<T>) {
    forall i, j :: 0 <= i < j < |s| ==> s[i] != s[j]
  }

  function InsertAt<T>(s: seq<T>, k: nat, x: T): (r: seq<T>)
    requires k <= |s|
    ensures |r| == |s| + 1 && r[k] == x
    ensures forall i {:trigger r[i]} {:trigger s[i]} :: 0 <= i < k ==> r[i] == s[i]
    ensures forall i {:trigger r[i]} :: k < i < |r| ==> r[i] == s[i - 1]
  {
    s[..k] + [x] + s[k..]
  }

  function RemoveAt<T>(s: seq<T>, k: nat): (r: seq<T>)
    requires k < |s|
    ensures |r| == |s| - 1
    ensures forall i {:trigger r[i]} {:trigger s[i]} :: 0 <= i < k ==> r[i] == s[i]
    ensures forall i {:trigger r[i]} :: k <= i < |r| ==> r[i] == s[i + 1]
  {
    s[..k] + s[k + 1..]
  }

  lemma TailMembers<T>(s: seq<T>)
    requires s != [] && NoDup(s)
    ensures NoDup(s[1..])
    ensures forall x :: x in s[1..] <==> x in s && x != s[0]
  {
  }

  lemma AppendMembers<T>(s: seq<T>, x: T)
    requires x !in s && NoDup(s)
    ensures NoDup(s + [x])
    ensures forall y :: y in s + [x] <==> y in s || y == x
  {
  }

  lemma RemoveMembers<T>(s: seq<T>, k: nat)
    requires k < |s| && NoDup(s)
    ensures NoDup(RemoveAt(s, k))
    ensures forall x :: x in RemoveAt(s, k) <==> x in s && x != s[k]
  {
  }

  lemma InsertNoDup<T>(s: seq<T>, k: nat, x: T)
    requires k <= |s| && x !in s && NoDup(s)
    ensures NoDup(InsertAt(s, k, x))
  {
  }

  /** The position of `x` in `s`. */
  function IndexOf<T(==)>(s: seq<T>, x: T): (r: nat)
    requires x in s
    ensures r < |s| && s[r] == x
  {
    if s[0] == x then 0 else IndexOf(s[1..], x) + 1
  }

  /** 0, 1 and so on. */
  function Range(n: nat): (r: seq<nat>)
    ensures |r| == n && forall i :: 0 <= i < n ==> r[i] == i
  {
    seq(n, i => i)
  }
}

/** The ring algebra behind libnetq/List.h.
    A set of linked nodes is a permutation `next` with inverse `prev`; every list is one cycle
    of it. The operations are described on permutations first and the pointer code is proved
    against that description. */
module Rings {
  import opened Seqs

  /** `f` and `g` are mutually inverse permutations of the same finite set. */
  ghost predicate Inverse<T>(f: map<T, T>, g: map<T, T>) {
    && f.Keys == g.Keys
    && (forall x {:trigger f[x]} :: x in f ==> f[x] in f && g[f[x]] == x)
    && (forall x {:trigger g[x]} :: x in f ==> g[x] in f && f[g[x]] == x)
  }

  function Succ(i: nat, n: nat): (r: nat)
    requires i < n
  {
    if i + 1 == n then 0 else i + 1
  }

  /** `c` lists one cycle of `f` in order, starting anywhere. */
  ghost predicate Cycle<T>(f: map<T, T>, c: seq<T>) {
    && |c| > 0
    && NoDup(c)
    && forall i {:trigger c[i]} :: 0 <= i < |c| ==> c[i] in f && f[c[i]] == c[Succ(i, |c|)]
  }

  function Transpose<T(==)>(a: T, b: T, x: T): T {
    if x == a then b else if x == b then a else x
  }

  function TransposeAll<T(==)>(a: T, b: T, c: seq<T>): (r: seq<T>)
    ensures |r| == |c|
    ensures forall i :: 0 <= i < |c| ==> r[i] == Transpose(a, b, c[i])
  {
    seq(|c|, i requires 0 <= i < |c| => Transpose(a, b, c[i]))
  }

  /** `h` is (a b) . f . (a b). */
  ghost predicate Conjugate<T>(f: map<T, T>, a: T, b: T, h: map<T, T>) {
    && a in f && b in f && f.Keys == h.Keys
    && forall x {:trigger h[x]} :: x in f ==> Transpose(a, b, x) in f && h[x] == Transpose(a, b, f[Transpose(a, b, x)])
  }

  /** `h` is `f` with `x` linked in right after `p`. Before, `x` is alone or not linked at all. */
  ghost predicate LinkAfter<T>(f: map<T, T>, p: T, x: T, h: map<T, T>) {
    && p in f && p != x && h.Keys == f.Keys + {x}
    && h[p] == x && h[x] == f[p]
    && forall y {:trigger h[y]} {:trigger f[y]} :: y in f && y != p && y != x ==> h[y] == f[y]
  }

  /** `h` is `f` with `x`, whose predecessor is `p`, cut out of its cycle and left alone. */
  ghost predicate Unlink<T>(f: map<T, T>, p: T, x: T, h: map<T, T>) {
    && p in f && x in f && f[p] == x && h.Keys == f.Keys
    && h[x] == x && (p != x ==> h[p] == f[x])
    && forall y {:trigger h[y]} {:trigger f[y]} :: y in f && y != p && y != x ==> h[y] == f[y]
  }

  /** Swapping two nodes relabels every ring by the transposition, whether the nodes share a ring,
      are neighbours, are alone or coincide. */
  lemma ConjugateCycle<T>(f: map<T, T>, a: T, b: T, h: map<T, T>, c: seq<T>)
    requires Conjugate(f, a, b, h) && Cycle(f, c)
    ensures Cycle(h, TransposeAll(a, b, c))
  {
    var d := TransposeAll(a, b, c);
    forall i | 0 <= i < |d| ensures d[i] in h && h[d[i]] == d[Succ(i, |d|)] {
      assert Transpose(a, b, d[i]) == c[i];
    }
  }

  /** NQListHead_addFront(c[k], x) as a list operation: `x` follows `c[k]`. */
  lemma LinkAfterCycle<T>(f: map<T, T>, c: seq<T>, k: nat, x: T, h: map<T, T>)
    requires Cycle(f, c) && k < |c| && x !in c && LinkAfter(f, c[k], x, h)
    ensures Cycle(h, InsertAt(c, k + 1, x))
  {
    var d := InsertAt(c, k + 1, x);
    forall i | 0 <= i < |d| ensures d[i] in h && h[d[i]] == d[Succ(i, |d|)] {
      if i < k {
        assert d[i] == c[i] && d[i + 1] == c[i + 1];
      } else if i == k {
        assert d[i] == c[k] && d[i + 1] == x;
      } else {
        assert d[i] == if i == k + 1 then x else c[i - 1];
        assert d[Succ(i, |d|)] == c[Succ(i - 1, |c|)];
      }
    }
    InsertNoDup(c, k + 1, x);
  }

  /** NQListHead_remove(c[k]) as a list operation. */
  lemma UnlinkCycle<T>(f: map<T, T>, c: seq<T>, k: nat, h: map<T, T>)
    requires Cycle(f, c) && k < |c| && Unlink(f, c[if k == 0 then |c| - 1 else k - 1], c[k], h)
    ensures Cycle(h, [c[k]])
    ensures |c| > 1 ==> Cycle(h, RemoveAt(c, k))
  {
    if |c| > 1 {
      var d := RemoveAt(c, k);
      forall i | 0 <= i < |d| ensures d[i] in h && h[d[i]] == d[Succ(i, |d|)] {
        var j := if i < k then i else i + 1;
        assert d[i] == c[j] && c[j] != c[k];
      }
    }
  }

  /** Rings that contain neither of the two nodes are untouched by linking and unlinking. */
  lemma OtherCycles<T>(f: map<T, T>, p: T, x: T, h: map<T, T>, c: seq<T>)
    requires Cycle(f, c) && (LinkAfter(f, p, x, h) || Unlink(f, p, x, h)) && p !in c && x !in c
    ensures Cycle(h, c)
  {
    forall i | 0 <= i < |c| ensures c[i] in h && h[c[i]] == c[Succ(i, |c|)] {
      assert c[i] in f;
    }
  }

  // ---------- a list is a ring with its head

  /** The list of `head` holds `entries`, front first. */
  ghost predicate ListOf<T>(f: map<T, T>, head: T, entries: seq<T>) {
    Cycle(f, [head] + entries)
  }

  /** What stands before entry `k`: the entry before it, or the head. */
  function Before<T>(head: T, entries: seq<T>, k: nat): T
    requires k <= |entries|
  {
    if k == 0 then head else entries[k - 1]
  }

  /** Linking a node in behind position `k` inserts it there; behind the last entry, that is
      NQListHead_addBack on the head, it appends it. */
  lemma LinkInserts<T>(f: map<T, T>, head: T, entries: seq<T>, k: nat, x: T, h: map<T, T>)
    requires ListOf(f, head, entries) && k <= |entries| && x != head && x !in entries
    requires LinkAfter(f, Before(head, entries, k), x, h)
    ensures ListOf(h, head, InsertAt(entries, k, x))
    ensures k == |entries| ==> ListOf(h, head, entries + [x])
  {
    hide Cycle, LinkAfter;
    var c := [head] + entries;
    LinkAfterCycle(f, c, k, x, h);
    assert InsertAt(c, k + 1, x) == [head] + InsertAt(entries, k, x);
    if k == |entries| { assert InsertAt(entries, k, x) == entries + [x]; }
  }

  /** NQListHead_remove takes an entry out of its list. */
  lemma UnlinkRemoves<T>(f: map<T, T>, head: T, entries: seq<T>, k: nat, h: map<T, T>)
    requires ListOf(f, head, entries) && k < |entries| && Unlink(f, Before(head, entries, k), entries[k], h)
    ensures ListOf(h, head, RemoveAt(entries, k))
  {
    hide Cycle, Unlink;
    var c := [head] + entries;
    assert c[k + 1] == entries[k] && c[k] == Before(head, entries, k);
    UnlinkCycle(f, c, k + 1, h);
    assert RemoveAt(c, k + 1) == [head] + RemoveAt(entries, k);
  }

  /** NQListHead_swap on two entries, of the same list or of two, exchanges their places in every list. */
  lemma SwapExchanges<T>(f: map<T, T>, a: T, b: T, h: map<T, T>, head: T, entries: seq<T>)
    requires ListOf(f, head, entries) && Conjugate(f, a, b, h) && head != a && head != b
    ensures ListOf(h, head, TransposeAll(a, b, entries))
  {
    ConjugateCycle(f, a, b, h, [head] + entries);
    assert TransposeAll(a, b, [head] + entries) == [head] + TransposeAll(a, b, entries);
  }

  /** An operation on one list leaves the others as they are. */
  lemma OtherLists<T>(f: map<T, T>, p: T, x: T, h: map<T, T>, head: T, entries: seq<T>)
    requires ListOf(f, head, entries) && (LinkAfter(f, p, x, h) || Unlink(f, p, x, h)) && p !in [head] + entries && x !in [head] + entries
    ensures ListOf(h, head, entries)
  {
    OtherCycles(f, p, x, h, [head] + entries);
  }
}

/** libnetq/List.h itself: nodes with `next` and `prev` fields that the operations rewrite. */
module IntrusiveList {
  import opened Rings

  class ListHead {
    var next: ListHead
    var prev: ListHead

    constructor ()
      ensures next == this && prev == this
    {
      next := this;
      prev := this;
    }
  }

  ghost function Next(S: set<ListHead>): map<ListHead, ListHead>
    reads S
  {
    map n | n in S :: n.next
  }

  ghost function Prev(S: set<ListHead>): map<ListHead, ListHead>
    reads S
  {
    map n | n in S :: n.prev
  }

  /** The nodes of `S` form complete rings: `prev` is the inverse of `next` and neither leaves `S`. */
  ghost predicate Linked(S: set<ListHead>)
    reads S
  {
    && (forall n {:trigger n.next} :: n in S ==> n.next in S && n.next.prev == n)
    && (forall n {:trigger n.prev} :: n in S ==> n.prev in S && n.prev.next == n)
  }

  /** Linked nodes are a permutation and its inverse, so the lemmas about rings apply to them. */
  lemma LinkedIsInverse(S: set<ListHead>)
    requires Linked(S)
    ensures Inverse(Next(S), Prev(S))
  {
  }

  method Init(thiz: ListHead)
    modifies thiz
    ensures thiz.next == thiz && thiz.prev == thiz
  {
    thiz.next := thiz;
    thiz.prev := thiz;
  }

  method IsEmpty(thiz: ListHead) returns (r: bool)
    ensures r <==> thiz.next == thiz
  {
    r := thiz == thiz.next;
  }

  /** `list` goes right after `thiz`. The links `list` had before are not read, so it may be
      uninitialised as long as no linked node refers to it. */
  method AddFront(thiz: ListHead, list: ListHead, ghost S: set<ListHead>)
    requires Linked(S) && thiz in S && list !in S
    modifies S, list
    ensures Linked(S + {list})
    ensures LinkAfter(old(Next(S)), thiz, list, Next(S + {list}))
  {
    list.prev := thiz;
    list.next := thiz.next;
    list.next.prev := list;
    thiz.next := list;
  }

  /** `list` goes right before `thiz`. */
  method AddBack(thiz: ListHead, list: ListHead, ghost S: set<ListHead>)
    requires Linked(S) && thiz in S && list !in S
    modifies S, list
    ensures Linked(S + {list})
    ensures LinkAfter(old(Next(S)), old(thiz.prev), list, Next(S + {list}))
  {
    list.next := thiz;
    list.prev := thiz.prev;
    list.prev.next := list;
    thiz.prev := list;
  }

  /** Takes `thiz` out of its ring and leaves it alone, no longer referred to by the others. */
  method Remove(thiz: ListHead, ghost S: set<ListHead>)
    requires Linked(S) && thiz in S
    modifies S
    ensures Linked(S) && Linked(S - {thiz})
    ensures Unlink(old(Next(S)), old(thiz.prev), thiz, Next(S))
  {
    var next := thiz.next;
    var prev := thiz.prev;
    prev.next := next;
    next.prev := prev;
    Init(thiz);
  }

  /** Every link is what `f` and `g` say, seen through the transposition of `a` and `b`. */
  ghost predicate Swapped(S: set<ListHead>, f: map<ListHead, ListHead>, g: map<ListHead, ListHead>, a: ListHead, b: ListHead)
    requires f.Keys == g.Keys == S && a in S && b in S
    reads S
  {
    && (forall n {:trigger n.next} :: n in S ==> n.next == Transpose(a, b, f[Transpose(a, b, n)]))
    && (forall n {:trigger n.prev} :: n in S ==> n.prev == Transpose(a, b, g[Transpose(a, b, n)]))
  }

  /** Links that are conjugates of an inverse pair are complete rings again. */
  lemma SwappedLinked(S: set<ListHead>, f: map<ListHead, ListHead>, g: map<ListHead, ListHead>, a: ListHead, b: ListHead)
    requires f.Keys == g.Keys == S && a in S && b in S && Inverse(f, g) && Swapped(S, f, g, a, b)
    ensures Linked(S)
  {
    forall n {:trigger n.next} | n in S ensures n.next in S && n.next.prev == n {
      var m := Transpose(a, b, n);
      var p := f[m];
      assert p in f && g[p] == m;
      assert n.next == Transpose(a, b, p);
      assert n.next.prev == Transpose(a, b, g[p]);
    }
    forall n {:trigger n.prev} | n in S ensures n.prev in S && n.prev.next == n {
      var m := Transpose(a, b, n);
      var p := g[m];
      assert p in f && f[p] == m;
      assert n.prev == Transpose(a, b, p);
      assert n.prev.next == Transpose(a, b, f[p]);
    }
  }

  lemma SwappedConjugates(S: set<ListHead>, f: map<ListHead, ListHead>, g: map<ListHead, ListHead>, a: ListHead, b: ListHead)
    requires f.Keys == g.Keys == S && a in S && b in S && Swapped(S, f, g, a, b)
    ensures Conjugate(f, a, b, Next(S)) && Conjugate(g, a, b, Prev(S))
  {
  }

  /** NQListHead_swap when `alone` is by itself and `b` is not: lines 86-92 and, mirrored, 95-101. */
  method SwapWithAlone(alone: ListHead, b: ListHead, ghost S: set<ListHead>)
    requires Linked(S) && alone in S && b in S && alone.next == alone && b.next != b
    modifies S
    ensures forall n {:trigger n.next} :: n in S ==> n.next == Transpose(alone, b, old(Transpose(alone, b, n).next))
    ensures forall n {:trigger n.prev} :: n in S ==> n.prev == Transpose(alone, b, old(Transpose(alone, b, n).prev))
  {
    alone.next := b.next;
    alone.next.prev := alone;
    alone.prev := b.prev;
    alone.prev.next := alone;
    Init(b);
  }

  /** NQListHead_swap when neither node is alone: lines 104-114. */
  method SwapLinked(a: ListHead, b: ListHead, ghost S: set<ListHead>)
    requires Linked(S) && a in S && b in S && a.next != a && b.next != b
    modifies S
    ensures forall n {:trigger n.next} :: n in S ==> n.next == Transpose(a, b, old(Transpose(a, b, n).next))
    ensures forall n {:trigger n.prev} :: n in S ==> n.prev == Transpose(a, b, old(Transpose(a, b, n).prev))
  {
    var temp := a.next;
    a.next := b.next;
    a.next.prev := a;
    b.next := temp;
    b.next.prev := b;
    temp := a.prev;
    a.prev := b.prev;
    a.prev.next := a;
    b.prev := temp;
    b.prev.next := b;
  }

  /** The pointer updates of NQListHead_swap, in every case. */
  method SwapLinks(a: ListHead, b: ListHead, ghost S: set<ListHead>)
    requires Linked(S) && a in S && b in S
    modifies S
    ensures forall n {:trigger n.next} :: n in S ==> n.next == Transpose(a, b, old(Transpose(a, b, n).next))
    ensures forall n {:trigger n.prev} :: n in S ==> n.prev == Transpose(a, b, old(Transpose(a, b, n).prev))
  {
    var aEmpty := IsEmpty(a);
    var bEmpty := IsEmpty(b);
    if aEmpty {
      if bEmpty {
        return;
      }
      SwapWithAlone(a, b, S);
    } else if bEmpty {
      SwapWithAlone(b, a, S);
    } else {
      SwapLinked(a, b, S);
    }
  }

  /** Exchanges the places of `a` and `b`: all rings are relabelled by the transposition. */
  method Swap(a: ListHead, b: ListHead, ghost S: set<ListHead>)
    requires Linked(S) && a in S && b in S
    modifies S
    ensures Linked(S)
    ensures Conjugate(old(Next(S)), a, b, Next(S))
    ensures Conjugate(old(Prev(S)), a, b, Prev(S))
  {
    ghost var f, g := Next(S), Prev(S);
    LinkedIsInverse(S);
    SwapLinks(a, b, S);
    assert Swapped(S, f, g, a, b);
    SwappedConjugates(S, f, g, a, b);
    SwappedLinked(S, f, g, a, b);
  }

  /** Puts `newList` in the place of `oldList`, which is left alone; `newList` need not be initialised. As far as the
      rings are concerned this is the exchange of a linked node with one that is alone. */
  method Replace(oldList: ListHead, newList: ListHead, ghost S: set<ListHead>)
    requires Linked(S) && oldList in S && newList !in S
    modifies S, newList
    ensures Linked(S + {newList})
    ensures Conjugate(old(Next(S))[newList := newList], oldList, newList, Next(S + {newList}))
  {
    ghost var T := S + {newList};
    ghost var f, g := Next(S), Prev(S);
    LinkedIsInverse(S);
    InverseGrows(f, g, newList);
    ReplaceLinks(oldList, newList, S, f, g);
    f, g := f[newList := newList], g[newList := newList];
    SwappedConjugates(T, f, g, oldList, newList);
    SwappedLinked(T, f, g, oldList, newList);
  }

  lemma InverseGrows(f: map<ListHead, ListHead>, g: map<ListHead, ListHead>, x: ListHead)
    requires Inverse(f, g) && x !in f
    ensures Inverse(f[x := x], g[x := x])
  {
  }

  /** The pointer updates of NQListHead_replace. */
  method ReplaceLinks(oldList: ListHead, newList: ListHead, ghost S: set<ListHead>,
                      ghost f: map<ListHead, ListHead>, ghost g: map<ListHead, ListHead>)
    requires Linked(S) && oldList in S && newList !in S && f == Next(S) && g == Prev(S)
    modifies S, newList
    ensures Swapped(S + {newList}, f[newList := newList], g[newList := newList], oldList, newList)
  {
    newList.next := oldList.next;
    newList.next.prev := newList;
    newList.prev := oldList.prev;
    newList.prev.next := newList;
    Init(oldList);
    if f[oldList] == oldList {
      assert newList.next == newList && newList.prev == newList;
      assert forall n {:trigger n.next} :: n in S ==> n.next == f[n] && n.prev == g[n];
    } else {
      assert newList.next == f[oldList] && newList.prev == g[oldList] && oldList.next == oldList.prev == oldList;
      assert forall n {:trigger n.next} :: n in S && n != oldList ==> n.next == if f[n] == oldList then newList else f[n];
      assert forall n {:trigger n.prev} :: n in S && n != oldList ==> n.prev == if g[n] == oldList then newList else g[n];
    }
  }
}
