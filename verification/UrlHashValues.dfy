/** Known FNV-1a values, bit by bit. */
module UrlHashValues {
  import opened UrlHash

  lemma {:induction false} XorZero(a: nat)
    ensures Xor(a, 0) == a
  {
    if a > 0 { XorZero(a / 2); }
  }

  function Bit(b: bool): nat {
    if b then 1 else 0
  }

  /** The number h followed by the binary digits. */
  function Value(h: nat, bits: seq<bool>): nat {
    if bits == [] then h else 2 * Value(h, bits[..|bits| - 1]) + Bit(bits[|bits| - 1])
  }

  function Differ(a: seq<bool>, b: seq<bool>): (r: seq<bool>)
    requires |a| == |b|
  {
    seq(|a|, i requires 0 <= i < |a| => a[i] != b[i])
  }

  lemma XorDigit(a: nat, b: nat, p: bool, q: bool)
    ensures Xor(2 * a + Bit(p), 2 * b + Bit(q)) == 2 * Xor(a, b) + Bit(p != q)
  {
    var x, y := 2 * a + Bit(p), 2 * b + Bit(q);
    assert x / 2 == a && y / 2 == b && x % 2 == Bit(p) && y % 2 == Bit(q);
    XorHalves(x, y);
  }

  lemma {:induction false} XorValue(h: nat, a: seq<bool>, b: seq<bool>)
    requires |a| == |b|
    ensures Xor(Value(h, a), Value(0, b)) == Value(h, Differ(a, b))
  {
    if a == [] {
      XorZero(h);
    } else {
      var n := |a| - 1;
      XorValue(h, a[..n], b[..n]);
      assert Differ(a, b)[..n] == Differ(a[..n], b[..n]);
      XorDigit(Value(h, a[..n]), Value(0, b[..n]), a[n], b[n]);
    }
  }

  lemma ValueFour(h: nat, d: seq<bool>)
    requires |d| == 4
    ensures Value(h, d) == 16 * h + 8 * Bit(d[0]) + 4 * Bit(d[1]) + 2 * Bit(d[2]) + Bit(d[3])
  {
    assert d[..3][..2] == d[..2] && d[..2][..1] == d[..1] && d[..1][..0] == [];
    assert Value(h, d[..1]) == 2 * h + Bit(d[0]);
    assert Value(h, d[..2]) == 4 * h + 2 * Bit(d[0]) + Bit(d[1]);
    assert Value(h, d[..3]) == 8 * h + 4 * Bit(d[0]) + 2 * Bit(d[1]) + Bit(d[2]);
  }

  lemma {:induction false} ValueJoin(h: nat, d: seq<bool>, e: seq<bool>)
    ensures Value(h, d + e) == Value(Value(h, d), e)
  {
    if e == [] {
      assert d + e == d;
    } else {
      assert (d + e)[..|d + e| - 1] == d + e[..|e| - 1];
      ValueJoin(h, d, e[..|e| - 1]);
    }
  }

  /** Half a byte as a number. */
  function Nibble(d: seq<bool>): nat
    requires |d| == 4
  {
    8 * Bit(d[0]) + 4 * Bit(d[1]) + 2 * Bit(d[2]) + Bit(d[3])
  }

  lemma ValueByte(h: nat, d: seq<bool>, e: seq<bool>)
    requires |d| == |e| == 4
    ensures Value(h, d + e) == 256 * h + 16 * Nibble(d) + Nibble(e)
  {
    ValueJoin(h, d, e);
    ValueFour(h, d);
    ValueFour(Value(h, d), e);
  }

  /** An exclusive or with a byte, half a byte at a time. */
  lemma XorByte(h: nat, a: seq<bool>, b: seq<bool>, c: seq<bool>, d: seq<bool>)
    requires |a| == |b| == |c| == |d| == 4
    ensures Xor(256 * h + 16 * Nibble(a) + Nibble(b), 16 * Nibble(c) + Nibble(d)) ==
      256 * h + 16 * Nibble(Differ(a, c)) + Nibble(Differ(b, d))
  {
    ValueByte(h, a, b);
    ValueByte(0, c, d);
    XorValue(h, a + b, c + d);
    assert Differ(a + b, c + d) == Differ(a, c) + Differ(b, d);
    ValueByte(h, Differ(a, c), Differ(b, d));
  }

  lemma SlashRound(h: nat, a: nat, b: nat)
    requires h == 8461469 && a == 256 * h + 197 && b == 47
    ensures Xor(a, b) == 2166136298
  {
    var p, q, r, s := [true, true, false, false], [false, true, false, true], [false, false, true, false], [true, true, true, true];
    XorByte(h, p, q, r, s);
    assert Differ(p, r) == [true, true, true, false] && Differ(q, s) == [true, false, true, false];
  }

  lemma LetterRound(h: nat, a: nat, b: nat)
    requires h == 2755735 && a == 256 * h + 94 && b == 97
    ensures Xor(a, b) == 705468223
  {
    var p, q, r, s := [false, true, false, true], [true, true, true, false], [false, true, true, false], [false, false, false, true];
    XorByte(h, p, q, r, s);
    assert Differ(p, r) == [false, false, true, true] && Differ(q, s) == [true, true, true, true];
  }

  lemma SlashTimes(x: nat)
    requires x == 2166136298
    ensures (x * PRIME) % WORD == 705468254
  {
  }

  lemma LetterTimes(x: nat)
    requires x == 705468223
    ensures (x * PRIME) % WORD == 1892816941
  {
  }

  lemma SlashMix(a: nat, b: Byte, x: nat)
    requires a == OFFSET_BASIS && b == 47 && x == Xor(a, b)
    ensures (x * PRIME) % WORD == 705468254
  {
    SlashRound(8461469, a, b);
    SlashTimes(x);
  }

  lemma LetterMix(a: nat, b: Byte, x: nat)
    requires a == 705468254 && b == 97 && x == Xor(a, b)
    ensures (x * PRIME) % WORD == 1892816941
  {
    LetterRound(2755735, a, b);
    LetterTimes(x);
  }

  /** Known values: the hashes and the buckets of "/" and of "/a". */
  lemma KnownHashes(url: Url)
    requires |url| == 2 && url[0] == 47 && url[1] == 97
    ensures Fnv(url[..1]) == 705468254 && Bucket(url[..1]) == 862
    ensures Fnv(url) == 1892816941 && Bucket(url) == 45
  {
    assert url[..1][..0] == [];
    SlashMix(Fnv([]), url[0], Xor(Fnv([]), url[0]));
    LetterMix(Fnv(url[..1]), url[1], Xor(Fnv(url[..1]), url[1]));
  }
}
