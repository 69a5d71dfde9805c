/** The 32-bit FNV-1a hash that spreads URLs over the cache's 1024 buckets. */
module UrlHash {
  const OFFSET_BASIS: nat := 2166136261
  const PRIME: nat := 16777619
  const WORD: nat := 0x1_0000_0000
  const MAX_BUCKETS: nat := 1024

  type Byte = b: int | 0 <= b < 256
  type Url = seq<Byte>

  /** Bitwise exclusive or. */
  function Xor(a: nat, b: nat): nat
    decreases a + b
  {
    if a == 0 && b == 0 then 0 else 2 * Xor(a / 2, b / 2) + (a % 2 + b % 2) % 2
  }

  /** One round: exclusive or with the byte, then multiply, in 32 bits. */
  function Mix(hash: nat, b: Byte): (r: nat)
    ensures r < WORD
  {
    (Xor(hash, b) * PRIME) % WORD
  }

  /** The hash after all bytes of the URL. */
  function Fnv(url: Url): nat {
    if url == [] then OFFSET_BASIS else Mix(Fnv(url[..|url| - 1]), url[|url| - 1])
  }

  function Bucket(url: Url): (b: nat)
    ensures b < MAX_BUCKETS
  {
    Fnv(url) % MAX_BUCKETS
  }

  method HashUrl(url: Url) returns (hash: nat)
    ensures hash == Fnv(url)
  {
    hash := OFFSET_BASIS;
    for i := 0 to |url|
      invariant hash == Fnv(url[..i])
    {
      assert url[..i + 1][..i] == url[..i];
      hash := Xor(hash, url[i]);
      hash := (hash * PRIME) % WORD;
    }
    assert url[..|url|] == url;
  }

  // ----- no two bytes collide -----

  lemma XorHalves(a: nat, b: nat)
    ensures Xor(a, b) / 2 == Xor(a / 2, b / 2) && Xor(a, b) % 2 == (a % 2 + b % 2) % 2
    ensures Xor(a, b) == 2 * Xor(a / 2, b / 2) + (a % 2 + b % 2) % 2
  {
  }

  lemma ParityTwice(a: nat, b: nat)
    ensures ((a % 2 + b % 2) % 2 + b % 2) % 2 == a % 2
  {
  }

  lemma {:induction false} XorTwice(a: nat, b: nat)
    ensures Xor(Xor(a, b), b) == a
    decreases a + b
  {
    if a != 0 || b != 0 {
      XorTwice(a / 2, b / 2);
      XorHalves(a, b);
      XorHalves(Xor(a, b), b);
      ParityTwice(a, b);
    }
  }

  lemma {:induction false} XorCommutes(a: nat, b: nat)
    ensures Xor(a, b) == Xor(b, a)
    decreases a + b
  {
    if a != 0 || b != 0 { XorCommutes(a / 2, b / 2); }
  }

  function Pow2(k: nat): (p: nat)
    ensures p >= 1
  {
    if k == 0 then 1 else 2 * Pow2(k - 1)
  }

  lemma HalfMod(x: nat, m: nat)
    requires m >= 1
    ensures x % (2 * m) == 2 * ((x / 2) % m) + x % 2
  {
    var q, r := (x / 2) / m, (x / 2) % m;
    assert x == 2 * (q * m + r) + x % 2;
    assert x == q * (2 * m) + (2 * r + x % 2);
    ModUnique(x, 2 * m, q, 2 * r + x % 2);
  }

  lemma NoMultiple(m: int, d: int)
    requires m >= 1 && -m < m * d < m
    ensures d == 0
  {
  }

  lemma ModUnique(x: nat, m: nat, q: nat, r: nat)
    requires m >= 1 && r < m && x == q * m + r
    ensures x % m == r
  {
    assert m * (x / m - q) == r - x % m;
    NoMultiple(m, x / m - q);
  }

  /** The low bits of an exclusive or depend on the low bits only. */
  lemma {:induction false} XorLow(a: nat, b: nat, k: nat)
    ensures Xor(a, b) % Pow2(k) == Xor(a % Pow2(k), b % Pow2(k))
    decreases k
  {
    if k > 0 {
      var m := Pow2(k - 1);
      XorLow(a / 2, b / 2, k - 1);
      HalfMod(a, m);
      HalfMod(b, m);
      HalfMod(Xor(a, b), m);
      var a', b' := a % Pow2(k), b % Pow2(k);
      assert a' / 2 == (a / 2) % m && b' / 2 == (b / 2) % m && a' % 2 == a % 2 && b' % 2 == b % 2;
      XorHalves(a, b);
      XorHalves(a', b');
    } else {
      assert Pow2(0) == 1;
    }
  }

  lemma DropWord(a: nat)
    ensures (a % WORD) % MAX_BUCKETS == a % MAX_BUCKETS
  {
    SameRemainder(a, a % WORD, 4194304 * (a / WORD), 0, a % WORD);
  }

  /** 155 is the inverse of the multiplier modulo 1024. */
  lemma Undo(x: nat, a: nat, r: nat)
    requires x * PRIME == 1024 * a + r
    ensures x == 1024 * (155 * a - 2539581 * x) + 155 * r
  {
  }

  lemma Reduced(x: nat, c: int, r: nat)
    requires x == 1024 * c + r
    ensures x % MAX_BUCKETS == r % MAX_BUCKETS
  {
    ModUnique(x, MAX_BUCKETS, c + r / MAX_BUCKETS, r % MAX_BUCKETS);
  }

  lemma SameRemainder(x: nat, y: nat, c: int, d: int, r: nat)
    requires x == 1024 * c + r && y == 1024 * d + r
    ensures x % MAX_BUCKETS == y % MAX_BUCKETS
  {
    Reduced(x, c, r);
    Reduced(y, d, r);
  }

  lemma Odd(x: nat, y: nat)
    requires (x * PRIME) % MAX_BUCKETS == (y * PRIME) % MAX_BUCKETS
    ensures x % MAX_BUCKETS == y % MAX_BUCKETS
  {
    var r := (x * PRIME) % MAX_BUCKETS;
    var a, b := (x * PRIME) / MAX_BUCKETS, (y * PRIME) / MAX_BUCKETS;
    Undo(x, a, r);
    Undo(y, b, r);
    SameRemainder(x, y, 155 * a - 2539581 * x, 155 * b - 2539581 * y, 155 * r);
  }

  /** The multiplier is odd: multiplying loses no bucket number. */
  lemma TimesInjective(x: nat, y: nat)
    requires ((x * PRIME) % WORD) % MAX_BUCKETS == ((y * PRIME) % WORD) % MAX_BUCKETS
    ensures x % MAX_BUCKETS == y % MAX_BUCKETS
  {
    DropWord(x * PRIME);
    DropWord(y * PRIME);
    Odd(x, y);
  }

  lemma BucketBits()
    ensures Pow2(10) == MAX_BUCKETS
  {
    assert Pow2(5) == 32;
    assert Pow2(10) == 32 * Pow2(5);
  }

  /** The bucket bits of an exclusive or with a byte. */
  lemma XorBucket(h: nat, b: Byte)
    ensures Xor(h, b) % MAX_BUCKETS == Xor(h % MAX_BUCKETS, b)
  {
    BucketBits();
    XorLow(h, b, 10);
    ModUnique(b, Pow2(10), 0, b);
  }

  lemma MixBucket(h: nat, g: nat, a: Byte, b: Byte)
    requires Mix(h, a) % MAX_BUCKETS == Mix(g, b) % MAX_BUCKETS
    ensures Xor(h, a) % MAX_BUCKETS == Xor(g, b) % MAX_BUCKETS
  {
    TimesInjective(Xor(h, a), Xor(g, b));
  }

  /** Rounds with the same byte keep different bucket numbers different. */
  lemma MixInjective(h: nat, g: nat, b: Byte)
    requires Mix(h, b) % MAX_BUCKETS == Mix(g, b) % MAX_BUCKETS
    ensures h % MAX_BUCKETS == g % MAX_BUCKETS
  {
    MixBucket(h, g, b, b);
    XorBucket(h, b);
    XorBucket(g, b);
    XorTwice(h % MAX_BUCKETS, b);
    XorTwice(g % MAX_BUCKETS, b);
  }

  /** Rounds with different bytes separate equal bucket numbers. */
  lemma MixSeparates(h: nat, g: nat, a: Byte, b: Byte)
    requires h % MAX_BUCKETS == g % MAX_BUCKETS && Mix(h, a) % MAX_BUCKETS == Mix(g, b) % MAX_BUCKETS
    ensures a == b
  {
    MixBucket(h, g, a, b);
    XorBucket(h, a);
    XorBucket(g, b);
    var x := h % MAX_BUCKETS;
    XorCommutes(x, a);
    XorCommutes(x, b);
    XorTwice(a, x);
    XorTwice(b, x);
  }

  /** URLs of the same length that differ in exactly one byte never share a bucket. */
  lemma {:induction false} OneByteSeparates(u: Url, v: Url, k: nat)
    requires |u| == |v| && k < |u| && u[k] != v[k]
    requires forall i :: 0 <= i < |u| && i != k ==> u[i] == v[i]
    ensures Bucket(u) != Bucket(v)
  {
    var n := |u| - 1;
    if Bucket(u) == Bucket(v) {
      if k == n {
        assert u[..n] == v[..n];
        MixSeparates(Fnv(u[..n]), Fnv(v[..n]), u[n], v[n]);
      } else {
        MixInjective(Fnv(u[..n]), Fnv(v[..n]), u[n]);
        OneByteSeparates(u[..n], v[..n], k);
      }
    }
  }
}
