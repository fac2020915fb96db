/** libnetq/Hash.c: one hash, over a NUL-terminated string or over a string of given length. */
module Hash {
  import opened Words

  const SEED := 0x9E3779B9

  function Step(hash: nat, b: Byte): (r: nat)
    ensures r < WORD
  {
    (hash * 33 + b) % WORD
  }

  function HashOf(hash: nat, s: seq<Byte>): (r: nat)
    ensures hash < WORD ==> r < WORD
    decreases |s|
  {
    if s == [] then hash else HashOf(Step(hash, s[0]), s[1..])
  }

  /** strlen: the bytes before the first NUL. */
  function StrLen(memory: seq<Byte>): (n: nat)
    requires 0 in memory
    ensures n < |memory| && memory[n] == 0 && forall i :: 0 <= i < n ==> memory[i] != 0
  {
    if memory[0] == 0 then 0 else 1 + StrLen(memory[1..])
  }

  lemma {:induction false} StrLenIs(memory: seq<Byte>, n: nat)
    requires n < |memory| && memory[n] == 0 && forall i :: 0 <= i < n ==> memory[i] != 0
    ensures 0 in memory && StrLen(memory) == n
  {
  }

  lemma {:induction false} HashStep(hash: nat, s: seq<Byte>, n: nat)
    requires n < |s|
    ensures HashOf(hash, s[..n + 1]) == Step(HashOf(hash, s[..n]), s[n])
    decreases n
  {
    if n == 0 {
      assert s[..1][1..] == [];
    } else {
      assert s[..n + 1][1..] == s[1..][..n] && s[..n][1..] == s[1..][..n - 1];
      HashStep(Step(hash, s[0]), s[1..], n - 1);
    }
  }

  /** The number that the bytes are the digits of, to the base 33, behind the seed. */
  function Digits(seed: nat, s: seq<Byte>): nat {
    if s == [] then seed else 33 * Digits(seed, s[..|s| - 1]) + s[|s| - 1]
  }

  lemma StepIs(x: nat, b: Byte)
    ensures Step(x % WORD, b) == (33 * x + b) % WORD
  {
    assert 33 * x + b == (x % WORD * 33 + b) + WORD * (33 * (x / WORD));
    DropWords(x % WORD * 33 + b, 33 * (x / WORD));
  }

  lemma DropWords(x: nat, m: nat)
    ensures (x + WORD * m) % WORD == x % WORD
  {
  }

  /** The hash is that number modulo 2^32. */
  lemma {:induction false} HashIs(seed: nat, s: seq<Byte>)
    requires seed < 0x1_0000_0000
    ensures HashOf(seed, s) == Digits(seed, s) % 0x1_0000_0000
  {
    if s != [] {
      var n := |s| - 1;
      HashIs(seed, s[..n]);
      HashStep(seed, s, n);
      StepIs(Digits(seed, s[..n]), s[n]);
      assert s[..n + 1] == s;
    }
  }

  /** NQHashCStringWithSeed. */
  method CStringWithSeed(seed: nat, characters: seq<Byte>) returns (hash: nat)
    requires 0 in characters
    ensures hash == HashOf(seed, characters[..StrLen(characters)])
  {
    hide StrLen;
    hash := seed;
    var p := 0;
    assert characters[..0] == [];
    while characters[p] != 0
      invariant p <= StrLen(characters) && hash == HashOf(seed, characters[..p])
      decreases StrLen(characters) - p
    {
      HashStep(seed, characters, p);
      hash := Step(hash, characters[p]);
      p := p + 1;
    }
  }

  /** NQHashStringWithSeed. */
  method StringWithSeed(seed: nat, characters: seq<Byte>, length: nat) returns (hash: nat)
    requires length <= |characters|
    ensures hash == HashOf(seed, characters[..length])
  {
    hash := seed;
    var p, rest := 0, length;
    assert characters[..0] == [];
    while rest != 0
      invariant p + rest == length && hash == HashOf(seed, characters[..p])
    {
      HashStep(seed, characters, p);
      hash := Step(hash, characters[p]);
      p, rest := p + 1, rest - 1;
    }
  }
}
