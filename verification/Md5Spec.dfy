/** The MD5 message digest as RFC 1321 defines it, sections 3.1 to 3.5. */
module Md5Spec {
  import opened Octets

  type word = bv32

  datatype Regs = Regs(a: word, b: word, c: word, d: word)

  // Section 3.3
  const Initial := Regs(0x67452301, 0xefcdab89, 0x98badcfe, 0x10325476)

  // Section 3.4: the four auxiliary functions
  function F(x: word, y: word, z: word): word { (x & y) | (!x & z) }
  function G(x: word, y: word, z: word): word { (x & z) | (y & !z) }
  function H(x: word, y: word, z: word): word { x ^ y ^ z }
  function I(x: word, y: word, z: word): word { y ^ (x | !z) }

  function Rotate(w: word, s: nat): word
    requires s <= 32
  {
    (w << s) | (w >> (32 - s))
  }

  /** The function, the word of the block, the shift and the constant that step `i` uses. */
  function Aux(i: nat, x: word, y: word, z: word): word {
    if i < 16 then F(x, y, z) else if i < 32 then G(x, y, z) else if i < 48 then H(x, y, z) else I(x, y, z)
  }

  function K(i: nat): (k: nat)
    ensures k < 16
  {
    if i < 16 then i % 16 else if i < 32 then (5 * i + 1) % 16 else if i < 48 then (3 * i + 5) % 16 else (7 * i) % 16
  }

  function Shift(i: nat): (s: nat)
    ensures s <= 32
  {
    if i < 16 then
      if i % 4 == 0 then 7 else if i % 4 == 1 then 12 else if i % 4 == 2 then 17 else 22
    else if i < 32 then
      if i % 4 == 0 then 5 else if i % 4 == 1 then 9 else if i % 4 == 2 then 14 else 20
    else if i < 48 then
      if i % 4 == 0 then 4 else if i % 4 == 1 then 11 else if i % 4 == 2 then 16 else 23
    else
      if i % 4 == 0 then 6 else if i % 4 == 1 then 10 else if i % 4 == 2 then 15 else 21
  }

  /** T[i + 1], the integer part of 4294967296 * abs(sin(i + 1)), tabulated four to a line. */
  function T(i: nat): word {
    if i < 32 then (if i < 16 then T1(i) else T2(i)) else (if i < 48 then T3(i) else T4(i))
  }

  function T1(i: nat): word {
    match i
    case 0 => 0xd76aa478
    case 1 => 0xe8c7b756
    case 2 => 0x242070db
    case 3 => 0xc1bdceee
    case 4 => 0xf57c0faf
    case 5 => 0x4787c62a
    case 6 => 0xa8304613
    case 7 => 0xfd469501
    case 8 => 0x698098d8
    case 9 => 0x8b44f7af
    case 10 => 0xffff5bb1
    case 11 => 0x895cd7be
    case 12 => 0x6b901122
    case 13 => 0xfd987193
    case 14 => 0xa679438e
    case _ => 0x49b40821
  }

  function T2(i: nat): word {
    match i
    case 16 => 0xf61e2562
    case 17 => 0xc040b340
    case 18 => 0x265e5a51
    case 19 => 0xe9b6c7aa
    case 20 => 0xd62f105d
    case 21 => 0x02441453
    case 22 => 0xd8a1e681
    case 23 => 0xe7d3fbc8
    case 24 => 0x21e1cde6
    case 25 => 0xc33707d6
    case 26 => 0xf4d50d87
    case 27 => 0x455a14ed
    case 28 => 0xa9e3e905
    case 29 => 0xfcefa3f8
    case 30 => 0x676f02d9
    case _ => 0x8d2a4c8a
  }

  function T3(i: nat): word {
    match i
    case 32 => 0xfffa3942
    case 33 => 0x8771f681
    case 34 => 0x6d9d6122
    case 35 => 0xfde5380c
    case 36 => 0xa4beea44
    case 37 => 0x4bdecfa9
    case 38 => 0xf6bb4b60
    case 39 => 0xbebfbc70
    case 40 => 0x289b7ec6
    case 41 => 0xeaa127fa
    case 42 => 0xd4ef3085
    case 43 => 0x04881d05
    case 44 => 0xd9d4d039
    case 45 => 0xe6db99e5
    case 46 => 0x1fa27cf8
    case _ => 0xc4ac5665
  }

  function T4(i: nat): word {
    match i
    case 48 => 0xf4292244
    case 49 => 0x432aff97
    case 50 => 0xab9423a7
    case 51 => 0xfc93a039
    case 52 => 0x655b59c3
    case 53 => 0x8f0ccc92
    case 54 => 0xffeff47d
    case 55 => 0x85845dd1
    case 56 => 0x6fa87e4f
    case 57 => 0xfe2ce6e0
    case 58 => 0xa3014314
    case 59 => 0x4e0811a1
    case 60 => 0xf7537e82
    case 61 => 0xbd3af235
    case 62 => 0x2ad7d2bb
    case _ => 0xeb86d391
  }

  /** b + ((a + f + x + t) <<< s) */
  function Mix(f: word, a: word, b: word, x: word, s: nat, t: word): word
    requires s <= 32
  {
    b + Rotate(a + f + x + t, s)
  }

  /** One step of section 3.4, written with the registers moving instead of their names. */
  function Step(i: nat, r: Regs, x: seq<word>): Regs
    requires |x| == 16
  {
    Regs(r.d, Mix(Aux(i, r.b, r.c, r.d), r.a, r.b, x[K(i)], Shift(i), T(i)), r.b, r.c)
  }

  /** The first `n` of the 64 steps. */
  function Steps(n: nat, r: Regs, x: seq<word>): Regs
    requires |x| == 16
  {
    if n == 0 then r else Step(n - 1, Steps(n - 1, r, x), x)
  }

  /** Addition of words, modulo 2^32. */
  function Add(x: word, y: word): word {
    x + y
  }

  function Sum(r: Regs, s: Regs): Regs {
    Regs(Add(r.a, s.a), Add(r.b, s.b), Add(r.c, s.c), Add(r.d, s.d))
  }

  /** Section 3.4, step 4 for one 16-word block. */
  function Block(r: Regs, x: seq<word>): Regs
    requires |x| == 16
  {
    Sum(Steps(64, r, x), r)
  }

  // Section 2: a word is four bytes, low-order byte first
  function Word(b: seq<octet>): word
    requires |b| == 4
  {
    (b[0] as word) | ((b[1] as word) << 8) | ((b[2] as word) << 16) | ((b[3] as word) << 24)
  }

  function Words(b: seq<octet>): (x: seq<word>)
    requires |b| == 64
    ensures |x| == 16
  {
    seq(16, k requires 0 <= k < 16 => Word(b[4 * k..4 * k + 4]))
  }

  function Blocks(r: Regs, b: seq<octet>): Regs
    requires |b| % 64 == 0
    decreases |b|
  {
    if |b| == 0 then r else Block(Blocks(r, b[..|b| - 64]), Words(b[|b| - 64..]))
  }

  function Zeros(n: nat): (z: seq<octet>)
    ensures |z| == n
  {
    seq(n, _ => 0)
  }

  // Section 3.1: a single 1 bit, then zeros up to 448 modulo 512 bits
  function PadLength(n: nat): (p: nat)
    ensures 1 <= p <= 64 && (n + p) % 64 == 56
  {
    (119 - n % 64) % 64 + 1
  }

  function LittleEndian(n: nat, bytes: nat): (s: seq<octet>)
    ensures |s| == bytes
  {
    if bytes == 0 then [] else [(n % 256) as octet] + LittleEndian(n / 256, bytes - 1)
  }

  function BitCount(n: nat): nat {
    (8 * n) % 0x1_0000_0000_0000_0000
  }

  // Section 3.2: the length in bits modulo 2^64, low-order byte first
  function LengthField(n: nat): (s: seq<octet>)
    ensures |s| == 8
  {
    LittleEndian(BitCount(n), 8)
  }

  function Padding(n: nat): (s: seq<octet>)
    ensures |s| == PadLength(n)
  {
    [0x80] + Zeros(PadLength(n) - 1)
  }

  function Padded(m: seq<octet>): (p: seq<octet>)
    ensures |p| % 64 == 0
  {
    PaddedWhole(|m|, |Padding(|m|)|, |LengthField(|m|)|);
    m + Padding(|m|) + LengthField(|m|)
  }

  lemma PaddedWhole(n: nat, pad: nat, field: nat)
    requires pad == PadLength(n) && field == 8
    ensures (n + pad + field) % 64 == 0
  {
  }

  function WordBytes(w: word): seq<octet> {
    [(w & 0xff) as octet, ((w >> 8) & 0xff) as octet, ((w >> 16) & 0xff) as octet, ((w >> 24) & 0xff) as octet]
  }

  // Section 3.5
  function Output(r: Regs): seq<octet> {
    WordBytes(r.a) + WordBytes(r.b) + WordBytes(r.c) + WordBytes(r.d)
  }

  function Digest(m: seq<octet>): seq<octet> {
    Output(Blocks(Initial, Padded(m)))
  }

  lemma {:induction false} BlocksAppend(r: Regs, a: seq<octet>, b: seq<octet>)
    requires |a| % 64 == 0 && |b| % 64 == 0
    ensures |a + b| % 64 == 0
    ensures Blocks(r, a + b) == Blocks(Blocks(r, a), b)
    decreases |b|
  {
    hide Block, Words;
    if |b| == 0 {
      assert a + b == a;
    } else {
      var init := b[..|b| - 64];
      assert (a + b)[..|a + b| - 64] == a + init;
      assert (a + b)[|a + b| - 64..] == b[|b| - 64..];
      BlocksAppend(r, a, init);
    }
  }

  lemma OneBlock(r: Regs, b: seq<octet>)
    requires |b| == 64
    ensures Blocks(r, b) == Block(r, Words(b))
  {
    hide Block, Words;
    assert b[..0] == [];
    assert b[0..] == b;
  }
}
