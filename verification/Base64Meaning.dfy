/** What the characters of an encoding are: the alphabets of RFC 4648 letter by letter, and the six bits each character
    stands for. */
module Base64Meaning {
  import opened Base64

  /** The alphabets of tables 1 and 2 of RFC 4648. */
  function Letters(url: bool): (s: string)
    ensures |s| == 64
  {
    "ABCDEFGHIJKLM" + "NOPQRSTUVWXYZ" + "abcdefghijklm" + "nopqrstuvwxyz" + "0123456789" + if url then "-_" else "+/"
  }

  predicate Rising(s: string, c: nat) {
    forall i :: 0 <= i < |s| ==> s[i] as int == c + i
  }

  lemma PiecesRise()
    ensures Rising("ABCDEFGHIJKLM", 65) && Rising("NOPQRSTUVWXYZ", 78) && Rising("abcdefghijklm", 97)
    ensures Rising("nopqrstuvwxyz", 110) && Rising("0123456789", 48)
  {
  }

  lemma LetterAt(i: nat, url: bool)
    requires i < 64
    ensures Letters(url)[i] as int ==
      if i < 26 then 65 + i else if i < 52 then 97 + (i - 26) else if i < 62 then 48 + (i - 52)
      else if i == 62 then (if url then 45 else 43) else (if url then 95 else 47)
  {
    PiecesRise();
    var a, b, c, d, e, f := "ABCDEFGHIJKLM", "NOPQRSTUVWXYZ", "abcdefghijklm", "nopqrstuvwxyz", "0123456789", if url then "-_" else "+/";
    assert i < 13 ==> Letters(url)[i] == a[i];
    assert 13 <= i < 26 ==> Letters(url)[i] == b[i - 13];
    assert 26 <= i < 39 ==> Letters(url)[i] == c[i - 26];
    assert 39 <= i < 52 ==> Letters(url)[i] == d[i - 39];
    assert 52 <= i < 62 ==> Letters(url)[i] == e[i - 52];
    assert 62 <= i ==> Letters(url)[i] == f[i - 62];
  }

  /** The character is the letter of the six bits. */
  predicate IsLetter(c: bv8, url: bool, bits: bv24) {
    bits < 64 && c as int == Letters(url)[bits as int] as int
  }

  lemma SixBits(b: bv8)
    requires b < 64
    ensures b as int < 64 && (b as bv24) as int == b as int && b as bv24 < 64
  {
  }

  /** The encoder's table holds the letters. */
  lemma EncIsLetter(b: bv8, url: bool)
    requires b < 64
    ensures IsLetter(EncMap(b, url), url, b as bv24)
  {
    SixBits(b);
    LetterAt(b as int, url);
    hide Letters;
  }

  /** The decoder's table gives the index of a letter, and nothing for all other characters. */
  lemma DecIsIndex(c: bv8, url: bool)
    ensures if DecMap(c, url) == UNKN then forall i :: 0 <= i < 64 ==> Letters(url)[i] as int != c as int
            else IsLetter(c, url, DecMap(c, url) as bv24)
  {
    if DecMap(c, url) == UNKN {
      forall i: nat | i < 64 ensures Letters(url)[i] as int != c as int {
        var b := i as bv8;
        EncIsLetter(b, url);
        MapsBack(b, url);
        ByteIndex(i);
        hide EncMap, DecMap, Letters;
      }
    } else {
      MapsForth(c, url);
      EncIsLetter(DecMap(c, url), url);
    }
  }

  lemma ByteIndex(i: nat)
    requires i < 64
    ensures (i as bv8) < 64 && ((i as bv8) as bv24) as int == i
  {
  }

  // ---------- the bits

  /** Three bytes as one number. */
  function Three(x: bv8, y: bv8, z: bv8): bv24 {
    (x as bv24) * 0x1_0000 + (y as bv24) * 0x100 + (z as bv24)
  }

  lemma GroupBits(x: bv8, y: bv8, z: bv8)
    ensures var n := Three(x, y, z);
      && First(x) as bv24 == n / 0x4_0000 && Second(x, y) as bv24 == n / 0x1000 % 64
      && Third(y, z) as bv24 == n / 64 % 64 && Fourth(z) as bv24 == n % 64
  {
  }

  function ByteAt(x: seq<bv8>, i: nat): bv8 {
    if i < |x| then x[i] else 0
  }

  /** Three bytes make four letters, most significant bits first; at the end zeros stand for bytes that are not there,
      and characters without any bit of a byte are '=' or left out. */
  ghost predicate GroupIs(x: seq<bv8>, s: seq<bv8>, f: Flags, k: nat)
  {
    var n := Three(ByteAt(x, 3 * k), ByteAt(x, 3 * k + 1), ByteAt(x, 3 * k + 2));
    && |s| >= 4 * k + 2 && IsLetter(s[4 * k], f.url, n / 0x4_0000) && IsLetter(s[4 * k + 1], f.url, n / 0x1000 % 64)
    && (if 3 * k + 1 < |x| then |s| > 4 * k + 2 && IsLetter(s[4 * k + 2], f.url, n / 64 % 64)
        else if f.nonPad then |s| == 4 * k + 2
        else |s| == 4 * k + 4 && s[4 * k + 2] as int == '=' as int)
    && (if 3 * k + 2 < |x| then |s| > 4 * k + 3 && IsLetter(s[4 * k + 3], f.url, n % 64)
        else if f.nonPad then |s| <= 4 * k + 3
        else |s| == 4 * k + 4 && s[4 * k + 3] as int == '=' as int)
  }

  lemma GroupLetters(a: bv8, b: bv8, c: bv8, url: bool)
    ensures var n := Three(a, b, c);
      && IsLetter(EncMap(First(a), url), url, n / 0x4_0000) && IsLetter(EncMap(Second(a, b), url), url, n / 0x1000 % 64)
      && IsLetter(EncMap(Third(b, c), url), url, n / 64 % 64) && IsLetter(EncMap(Fourth(c), url), url, n % 64)
  {
    GroupBits(a, b, c);
    Groups(a, b, c);
    hide IsLetter, EncMap, First, Second, Third, Fourth, Three;
    EncIsLetter(First(a), url);
    EncIsLetter(Second(a, b), url);
    EncIsLetter(Third(b, c), url);
    EncIsLetter(Fourth(c), url);
  }

  lemma FirstGroup(x: seq<bv8>, f: Flags)
    requires x != []
    ensures GroupIs(x, Full(x, f), f, 0)
  {
    PadIs();
    hide IsLetter, EncMap, First, Second, Third, Fourth, Three;
    GroupLetters(x[0], ByteAt(x, 1), ByteAt(x, 2), f.url);
    StartOf(x, f);
  }

  lemma PadIs()
    ensures PAD as int == '=' as int
  {
  }

  lemma StartOf(x: seq<bv8>, f: Flags)
    requires x != []
    ensures var s := Full(x, f); var y, z := ByteAt(x, 1), ByteAt(x, 2);
      && |s| >= 2 && s[0] == EncMap(First(x[0]), f.url) && s[1] == EncMap(Second(x[0], y), f.url)
      && (if |x| > 1 then |s| > 2 && s[2] == EncMap(Third(y, z), f.url) else if f.nonPad then |s| == 2 else |s| == 4 && s[2] == PAD)
      && (if |x| > 2 then |s| > 3 && s[3] == EncMap(Fourth(z), f.url) else if f.nonPad then |s| <= 3 else |s| == 4 && s[3] == PAD)
  {
    hide EncMap, First, Second, Third, Fourth;
  }

  /** Every group of an encoding. */
  lemma {:induction false} FullMeans(x: seq<bv8>, f: Flags, k: nat)
    requires 3 * k < |x|
    ensures GroupIs(x, Full(x, f), f, k)
    decreases k
  {
    if k == 0 {
      FirstGroup(x, f);
    } else {
      FullMeans(x[3..], f, k - 1);
      hide EncMap, First, Second, Third, Fourth;
      NextGroup(x, Full(x, f), f, k);
    }
  }

  lemma NextGroup(x: seq<bv8>, s: seq<bv8>, f: Flags, k: nat)
    requires |x| > 3 && |s| >= 4 && k > 0 && 3 * k < |x| && GroupIs(x[3..], s[4..], f, k - 1)
    ensures GroupIs(x, s, f, k)
  {
    hide IsLetter, Three;
    var y, t, j := x[3..], s[4..], k - 1;
    assert ByteAt(y, 3 * j) == ByteAt(x, 3 * k) && ByteAt(y, 3 * j + 1) == ByteAt(x, 3 * k + 1) && ByteAt(y, 3 * j + 2) == ByteAt(x, 3 * k + 2);
    assert |t| == |s| - 4 && t[4 * j] == s[4 * k] && t[4 * j + 1] == s[4 * k + 1];
    assert |t| > 4 * j + 2 ==> t[4 * j + 2] == s[4 * k + 2];
    assert |t| > 4 * j + 3 ==> t[4 * j + 3] == s[4 * k + 3];
  }
}
