/** libnetq/KeyVal.c: a hash table whose 64 buckets share one linked chain. */
module KeyVal {
  import opened Words
  import opened Seqs
  import opened Hash

  type Bytes = seq<Byte>

  /** A string without its terminating NUL. */
  predicate IsText(s: Bytes) {
    0 !in s
  }

  /** NQKeyValIter and the bytes behind it: key, NUL, value, NUL. A bucket head has klenz 0 and no bytes. */
  class Node {
    var next: Node?
    const klenz: nat
    const hash: nat
    const payload: Bytes

    constructor (klenz: nat, hash: nat, payload: Bytes, next: Node?)
      ensures this.klenz == klenz && this.hash == hash && this.payload == payload && this.next == next
    {
      this.klenz := klenz;
      this.hash := hash;
      this.payload := payload;
      this.next := next;
    }
  }

  const COUNT := 64

  // ---------- entries and buckets, as far as they never change

  ghost predicate EntryOk(e: Node) {
    exists key, val :: IsText(key) && IsText(val) && Holds(e, key, val)
  }

  ghost predicate Holds(e: Node, key: Bytes, val: Bytes) {
    e.klenz == |key| + 1 && e.hash == HashOf(SEED, key) && e.payload == key + [0] + val + [0]
  }

  function KeyOf(e: Node): Bytes
    requires 0 < e.klenz <= |e.payload|
  {
    e.payload[..e.klenz - 1]
  }

  function ValOf(e: Node): Bytes
    requires e.klenz < |e.payload|
  {
    e.payload[e.klenz..|e.payload| - 1]
  }

  lemma HoldsBoth(e: Node, key: Bytes, val: Bytes)
    requires Holds(e, key, val)
    ensures 0 < e.klenz < |e.payload| && KeyOf(e) == key && ValOf(e) == val && e.payload[e.klenz - 1] == 0
  {
  }

  lemma EntryFacts(e: Node)
    requires EntryOk(e)
    ensures 0 < e.klenz < |e.payload| && IsText(KeyOf(e)) && IsText(ValOf(e)) && Holds(e, KeyOf(e), ValOf(e))
  {
    var key, val :| IsText(key) && IsText(val) && Holds(e, key, val);
    HoldsBoth(e, key, val);
  }

  ghost predicate BucketOk(bucket: seq<Node>, b: nat) {
    && (forall e :: e in bucket ==> EntryOk(e) && e.hash % COUNT == b && 0 < e.klenz < |e.payload|)
    && forall i, j :: 0 <= i < j < |bucket| ==> KeyOf(bucket[i]) != KeyOf(bucket[j])
  }

  ghost predicate BucketsOk(buckets: seq<seq<Node>>) {
    |buckets| == COUNT && forall b :: 0 <= b < COUNT ==> BucketOk(buckets[b], b)
  }

  function BucketFor(key: Bytes): (b: nat)
    ensures b < COUNT
  {
    HashOf(SEED, key) % COUNT
  }

  /** The bucket is the last six bits of the hash, which starts from 0x9E3779B9. */
  lemma BucketIs(key: Bytes)
    ensures BucketFor(key) == Digits(0x9E3779B9, key) % 0x1_0000_0000 % 64
  {
    HashIs(0x9E3779B9, key);
    hide HashOf, Digits;
  }

  /** The key is bound to the value of its entry, and nothing else is bound. */
  ghost predicate Represents(buckets: seq<seq<Node>>, contents: map<Bytes, Bytes>)
    requires BucketsOk(buckets)
  {
    && (forall b, i :: 0 <= b < COUNT && 0 <= i < |buckets[b]| ==>
          KeyOf(buckets[b][i]) in contents && contents[KeyOf(buckets[b][i])] == ValOf(buckets[b][i]))
    && forall key :: key in contents ==> IsText(key) && HasKey(buckets[BucketFor(key)], BucketFor(key), key)
  }

  ghost predicate HasKey(bucket: seq<Node>, b: nat, key: Bytes)
    requires BucketOk(bucket, b)
  {
    exists i :: 0 <= i < |bucket| && KeyOf(bucket[i]) == key
  }

  /** All entries, bucket after bucket. */
  function Flat(buckets: seq<seq<Node>>, b: nat): seq<Node>
    requires b <= |buckets|
    decreases |buckets| - b
  {
    if b == |buckets| then [] else buckets[b] + Flat(buckets, b + 1)
  }

  /** The entry of a key is in the bucket its hash names. */
  lemma KeyInItsBucket(bucket: seq<Node>, b: nat, i: nat)
    requires BucketOk(bucket, b) && i < |bucket|
    ensures BucketFor(KeyOf(bucket[i])) == b
  {
    EntryFacts(bucket[i]);
  }

  // ---------- what a set does to a bucket

  /** The new entry in front; the old entry of the key at `p`, if there is one, is gone. */
  function SetBucket(bucket: seq<Node>, e: Node, p: nat): seq<Node>
    requires p <= |bucket|
  {
    [e] + if p == |bucket| then bucket else RemoveAt(bucket, p)
  }

  ghost predicate FirstWith(bucket: seq<Node>, b: nat, key: Bytes, p: nat)
    requires BucketOk(bucket, b)
  {
    && p <= |bucket| && (forall i :: 0 <= i < p ==> KeyOf(bucket[i]) != key)
    && (p < |bucket| ==> KeyOf(bucket[p]) == key)
  }

  lemma SetBucketAt(bucket: seq<Node>, e: Node, p: nat, i: nat)
    requires p <= |bucket| && i < |SetBucket(bucket, e, p)|
    ensures i == 0 ==> SetBucket(bucket, e, p)[i] == e
    ensures i > 0 ==> var o := if i - 1 < p then i - 1 else i; o < |bucket| && SetBucket(bucket, e, p)[i] == bucket[o]
  {
  }

  lemma SetBucketOk(bucket: seq<Node>, b: nat, e: Node, key: Bytes, val: Bytes, p: nat)
    requires BucketOk(bucket, b) && IsText(key) && IsText(val) && Holds(e, key, val) && b == BucketFor(key) && FirstWith(bucket, b, key, p)
    ensures BucketOk(SetBucket(bucket, e, p), b) && 0 < e.klenz < |e.payload| && KeyOf(e) == key && ValOf(e) == val
  {
  }

  /** Everything in the new bucket is bound as the new contents say. */
  lemma SetBindings(buckets: seq<seq<Node>>, contents: map<Bytes, Bytes>, e: Node, key: Bytes, val: Bytes, p: nat, c: nat, i: nat)
    requires BucketsOk(buckets) && Represents(buckets, contents) && IsText(key) && IsText(val) && Holds(e, key, val)
    requires FirstWith(buckets[BucketFor(key)], BucketFor(key), key, p) && c < COUNT
    requires i < |if c == BucketFor(key) then SetBucket(buckets[c], e, p) else buckets[c]|
    ensures var x := (if c == BucketFor(key) then SetBucket(buckets[c], e, p) else buckets[c])[i]; var m := contents[key := val];
      0 < x.klenz < |x.payload| && KeyOf(x) in m && m[KeyOf(x)] == ValOf(x)
  {
    hide EntryOk, Holds, HashOf, BucketFor, SetBucket;
    var b := BucketFor(key);
    if c == b {
      SetBucketOk(buckets[b], b, e, key, val, p);
      SetBucketAt(buckets[b], e, p, i);
    } else {
      KeyInItsBucket(buckets[c], c, i);
    }
  }

  lemma SetFinds(bucket: seq<Node>, b: nat, e: Node, key: Bytes, val: Bytes, p: nat, k: Bytes)
    requires BucketOk(bucket, b) && FirstWith(bucket, b, key, p) && IsText(key) && IsText(val) && Holds(e, key, val) && b == BucketFor(key)
    requires k == key || HasKey(bucket, b, k)
    ensures BucketOk(SetBucket(bucket, e, p), b) && HasKey(SetBucket(bucket, e, p), b, k)
  {
    hide EntryOk, Holds, HashOf, BucketFor;
    SetBucketOk(bucket, b, e, key, val, p);
    var n := SetBucket(bucket, e, p);
    if k == key {
      assert n[0] == e;
    } else {
      var i :| 0 <= i < |bucket| && KeyOf(bucket[i]) == k;
      assert n[if i < p then i + 1 else i] == bucket[i];
    }
  }

  lemma SetRepresents(buckets: seq<seq<Node>>, contents: map<Bytes, Bytes>, e: Node, key: Bytes, val: Bytes, p: nat)
    requires BucketsOk(buckets) && Represents(buckets, contents) && IsText(key) && IsText(val) && Holds(e, key, val)
    requires FirstWith(buckets[BucketFor(key)], BucketFor(key), key, p)
    ensures var n := buckets[BucketFor(key) := SetBucket(buckets[BucketFor(key)], e, p)];
      BucketsOk(n) && Represents(n, contents[key := val])
  {
    hide EntryOk, Holds, HashOf, BucketFor, SetBucket, HasKey, BucketOk;
    var b := BucketFor(key);
    SetBucketOk(buckets[b], b, e, key, val, p);
    var n: seq<seq<Node>> := buckets[b := SetBucket(buckets[b], e, p)];
    var m := contents[key := val];
    forall c: nat, i: nat | c < COUNT && i < |n[c]|
      ensures 0 < n[c][i].klenz < |n[c][i].payload| && KeyOf(n[c][i]) in m && m[KeyOf(n[c][i])] == ValOf(n[c][i])
    {
      SetBindings(buckets, contents, e, key, val, p, c, i);
    }
    forall k | k in m ensures IsText(k) && HasKey(n[BucketFor(k)], BucketFor(k), k) {
      if BucketFor(k) == b { SetFinds(buckets[b], b, e, key, val, p, k); }
    }
  }

  // ---------- the entries of all buckets

  function Keys(es: seq<Node>): (r: seq<Bytes>)
    requires forall e :: e in es ==> 0 < e.klenz <= |e.payload|
    ensures |r| == |es| && forall i :: 0 <= i < |es| ==> r[i] == KeyOf(es[i])
  {
    seq(|es|, i requires 0 <= i < |es| => KeyOf(es[i]))
  }

  /** Everything in Flat comes from some bucket, and the keys are all different. */
  ghost predicate FlatOk(buckets: seq<seq<Node>>, b: nat)
    requires b <= |buckets|
  {
    var f := Flat(buckets, b);
    && (forall e :: e in f ==> 0 < e.klenz < |e.payload| && b <= BucketFor(KeyOf(e)) < |buckets| && e in buckets[BucketFor(KeyOf(e))])
    && forall i, j :: 0 <= i < j < |f| ==> KeyOf(f[i]) != KeyOf(f[j])
  }

  lemma {:induction false} FlatIsOk(buckets: seq<seq<Node>>, b: nat)
    requires BucketsOk(buckets) && b <= COUNT
    ensures FlatOk(buckets, b)
    decreases COUNT - b
  {
    if b < COUNT {
      FlatIsOk(buckets, b + 1);
      var g, rest, f := buckets[b], Flat(buckets, b + 1), Flat(buckets, b);
      assert BucketOk(g, b);
      forall e | e in f ensures 0 < e.klenz < |e.payload| && b <= BucketFor(KeyOf(e)) < |buckets| && e in buckets[BucketFor(KeyOf(e))] {
        if e !in rest {
          var i :| 0 <= i < |g| && g[i] == e;
          KeyInItsBucket(g, b, i);
        }
      }
      forall i, j | 0 <= i < j < |f| ensures KeyOf(f[i]) != KeyOf(f[j]) {
        if i < |g| { KeyInItsBucket(g, b, i); }
        if j >= |g| { assert f[j] == rest[j - |g|] && f[j] in rest; }
        if i >= |g| { assert f[i] == rest[i - |g|]; }
      }
    }
  }

  lemma {:induction false} InFlat(buckets: seq<seq<Node>>, b: nat, c: nat, i: nat)
    requires b <= c < |buckets| && i < |buckets[c]|
    ensures buckets[c][i] in Flat(buckets, b)
    decreases c - b
  {
    if b < c { InFlat(buckets, b + 1, c, i); }
  }

  function ToSet(s: seq<Bytes>): (r: set<Bytes>)
    ensures forall x :: x in r <==> x in s
  {
    set x | x in s
  }

  lemma {:induction false} DistinctSize(s: seq<Bytes>)
    requires NoDup(s)
    ensures |ToSet(s)| == |s|
  {
    if s == [] {
      assert ToSet(s) == {};
    } else {
      TailMembers(s);
      DistinctSize(s[1..]);
      assert ToSet(s) == ToSet(s[1..]) + {s[0]};
    }
  }

  lemma FlatKeyBound(buckets: seq<seq<Node>>, contents: map<Bytes, Bytes>, e: Node)
    requires BucketsOk(buckets) && Represents(buckets, contents) && FlatOk(buckets, 0) && e in Flat(buckets, 0)
    ensures 0 < e.klenz < |e.payload| && KeyOf(e) in contents && contents[KeyOf(e)] == ValOf(e)
  {
  }

  lemma BoundKeyFlat(buckets: seq<seq<Node>>, contents: map<Bytes, Bytes>, key: Bytes)
    requires BucketsOk(buckets) && Represents(buckets, contents) && FlatOk(buckets, 0) && key in contents
    ensures key in Keys(Flat(buckets, 0))
  {
    hide Flat, BucketFor, EntryOk, FlatOk;
    var b := BucketFor(key);
    assert HasKey(buckets[b], b, key);
    var i :| 0 <= i < |buckets[b]| && KeyOf(buckets[b][i]) == key;
    InFlat(buckets, 0, b, i);
    FlatWellFormed(buckets);
    var f := Flat(buckets, 0);
    var j :| 0 <= j < |f| && f[j] == buckets[b][i];
    assert Keys(f)[j] == key;
  }

  lemma FlatWellFormed(buckets: seq<seq<Node>>)
    requires FlatOk(buckets, 0)
    ensures forall e :: e in Flat(buckets, 0) ==> 0 < e.klenz < |e.payload|
  {
  }

  /** One entry for each key, with its value, and no other. */
  ghost predicate Lists(es: seq<Node>, contents: map<Bytes, Bytes>) {
    && (forall e :: e in es ==> 0 < e.klenz < |e.payload| && KeyOf(e) in contents && contents[KeyOf(e)] == ValOf(e))
    && NoDup(Keys(es)) && ToSet(Keys(es)) == contents.Keys && |es| == |contents|
  }

  lemma OneEntryPerKey(buckets: seq<seq<Node>>, contents: map<Bytes, Bytes>)
    requires BucketsOk(buckets) && Represents(buckets, contents)
    ensures Lists(Flat(buckets, 0), contents)
  {
    hide Flat, BucketsOk, Represents, BucketFor;
    FlatIsOk(buckets, 0);
    var f := Flat(buckets, 0);
    var ks := Keys(f);
    DistinctSize(ks);
    forall e | e in f ensures 0 < e.klenz < |e.payload| && KeyOf(e) in contents && contents[KeyOf(e)] == ValOf(e) {
      FlatKeyBound(buckets, contents, e);
    }
    forall k | k in contents ensures k in ks {
      BoundKeyFlat(buckets, contents, k);
    }
    forall k | k in ks ensures k in contents {
      var j :| 0 <= j < |ks| && ks[j] == k;
      assert f[j] in f;
    }
    assert ToSet(ks) == contents.Keys;
    assert |contents| == |contents.Keys|;
  }
}
