/** The incremental MD5 of c_md5.c: a context with four words, a 64-bit byte count split in two and
    a 128-byte staging buffer. */
module Md5 {
  import opened Bytes
  import opened Octets
  import opened Md5Spec

  // The rounds use these optimised forms of the auxiliary functions.
  function FF(b: word, c: word, d: word): word { d ^ (b & (c ^ d)) }
  function FG(b: word, c: word, d: word): word { FF(d, b, c) }
  function FH(b: word, c: word, d: word): word { b ^ c ^ d }
  function FI(b: word, c: word, d: word): word { c ^ (b | !d) }

  /** The OP macros: the new value of the register they assign. */
  function Op(f: word, a: word, b: word, x: word, s: nat, t: word): word
    requires s <= 32
  {
    Rotate(a + (f + x + t), s) + b
  }

  function AuxFast(i: nat, b: word, c: word, d: word): word {
    if i < 16 then FF(b, c, d) else if i < 32 then FG(b, c, d) else if i < 48 then FH(b, c, d) else FI(b, c, d)
  }

  lemma SelectBits(b: word, c: word, d: word)
    ensures d ^ (b & (c ^ d)) == (b & c) | (!b & d)
  {
  }

  lemma SelectBitsSwapped(b: word, c: word, d: word)
    ensures c ^ (d & (b ^ c)) == (b & d) | (c & !d)
  {
  }

  lemma AddReordered(a: word, f: word, x: word, t: word)
    ensures a + (f + x + t) == a + f + x + t
  {
  }

  lemma AddCommutes(a: word, b: word)
    ensures a + b == b + a
  {
  }

  lemma FFisF(x: word, y: word, z: word)
    ensures FF(x, y, z) == F(x, y, z)
  {
    SelectBits(x, y, z);
  }

  lemma FGisG(x: word, y: word, z: word)
    ensures FG(x, y, z) == G(x, y, z)
  {
    SelectBitsSwapped(x, y, z);
  }

  lemma FHisH(x: word, y: word, z: word)
    ensures FH(x, y, z) == H(x, y, z)
  {
  }

  lemma FIisI(x: word, y: word, z: word)
    ensures FI(x, y, z) == I(x, y, z)
  {
  }

  /** Bit by bit, the optimised forms are the functions of the RFC. */
  lemma OptimisedForms(i: nat, x: word, y: word, z: word)
    ensures AuxFast(i, x, y, z) == Aux(i, x, y, z)
  {
    hide FF, FG, FH, FI, F, G, H, I;
    FFisF(x, y, z);
    FGisG(x, y, z);
    FHisH(x, y, z);
    FIisI(x, y, z);
  }

  lemma OpIsStep(i: nat, r: Regs, x: seq<word>)
    requires |x| == 16
    ensures Step(i, r, x) == Regs(r.d, Op(AuxFast(i, r.b, r.c, r.d), r.a, r.b, x[K(i)], Shift(i), T(i)), r.b, r.c)
  {
    hide AuxFast, Aux, Mix, Op, K, Shift, T;
    OptimisedForms(i, r.b, r.c, r.d);
    OpIsMix(Aux(i, r.b, r.c, r.d), r.a, r.b, x[K(i)], Shift(i), T(i));
  }

  lemma OpIsMix(f: word, a: word, b: word, x: word, s: nat, t: word)
    requires s <= 32
    ensures Op(f, a, b, x, s, t) == Mix(f, a, b, x, s, t)
  {
    hide Rotate;
    AddReordered(a, f, x, t);
    AddCommutes(b, Rotate(a + f + x + t, s));
  }

  // What the code writes out at each step is what the schedule gives.
  lemma Table1()
    ensures K(0) == 0 && Shift(0) == 7 && T(0) == 0xd76aa478
    ensures K(1) == 1 && Shift(1) == 12 && T(1) == 0xe8c7b756
    ensures K(2) == 2 && Shift(2) == 17 && T(2) == 0x242070db
    ensures K(3) == 3 && Shift(3) == 22 && T(3) == 0xc1bdceee
    ensures K(4) == 4 && Shift(4) == 7 && T(4) == 0xf57c0faf
    ensures K(5) == 5 && Shift(5) == 12 && T(5) == 0x4787c62a
    ensures K(6) == 6 && Shift(6) == 17 && T(6) == 0xa8304613
    ensures K(7) == 7 && Shift(7) == 22 && T(7) == 0xfd469501
    ensures K(8) == 8 && Shift(8) == 7 && T(8) == 0x698098d8
    ensures K(9) == 9 && Shift(9) == 12 && T(9) == 0x8b44f7af
    ensures K(10) == 10 && Shift(10) == 17 && T(10) == 0xffff5bb1
    ensures K(11) == 11 && Shift(11) == 22 && T(11) == 0x895cd7be
    ensures K(12) == 12 && Shift(12) == 7 && T(12) == 0x6b901122
    ensures K(13) == 13 && Shift(13) == 12 && T(13) == 0xfd987193
    ensures K(14) == 14 && Shift(14) == 17 && T(14) == 0xa679438e
    ensures K(15) == 15 && Shift(15) == 22 && T(15) == 0x49b40821
  {
  }

  lemma Table2()
    ensures K(16) == 1 && Shift(16) == 5 && T(16) == 0xf61e2562
    ensures K(17) == 6 && Shift(17) == 9 && T(17) == 0xc040b340
    ensures K(18) == 11 && Shift(18) == 14 && T(18) == 0x265e5a51
    ensures K(19) == 0 && Shift(19) == 20 && T(19) == 0xe9b6c7aa
    ensures K(20) == 5 && Shift(20) == 5 && T(20) == 0xd62f105d
    ensures K(21) == 10 && Shift(21) == 9 && T(21) == 0x02441453
    ensures K(22) == 15 && Shift(22) == 14 && T(22) == 0xd8a1e681
    ensures K(23) == 4 && Shift(23) == 20 && T(23) == 0xe7d3fbc8
    ensures K(24) == 9 && Shift(24) == 5 && T(24) == 0x21e1cde6
    ensures K(25) == 14 && Shift(25) == 9 && T(25) == 0xc33707d6
    ensures K(26) == 3 && Shift(26) == 14 && T(26) == 0xf4d50d87
    ensures K(27) == 8 && Shift(27) == 20 && T(27) == 0x455a14ed
    ensures K(28) == 13 && Shift(28) == 5 && T(28) == 0xa9e3e905
    ensures K(29) == 2 && Shift(29) == 9 && T(29) == 0xfcefa3f8
    ensures K(30) == 7 && Shift(30) == 14 && T(30) == 0x676f02d9
    ensures K(31) == 12 && Shift(31) == 20 && T(31) == 0x8d2a4c8a
  {
  }

  lemma Table3()
    ensures K(32) == 5 && Shift(32) == 4 && T(32) == 0xfffa3942
    ensures K(33) == 8 && Shift(33) == 11 && T(33) == 0x8771f681
    ensures K(34) == 11 && Shift(34) == 16 && T(34) == 0x6d9d6122
    ensures K(35) == 14 && Shift(35) == 23 && T(35) == 0xfde5380c
    ensures K(36) == 1 && Shift(36) == 4 && T(36) == 0xa4beea44
    ensures K(37) == 4 && Shift(37) == 11 && T(37) == 0x4bdecfa9
    ensures K(38) == 7 && Shift(38) == 16 && T(38) == 0xf6bb4b60
    ensures K(39) == 10 && Shift(39) == 23 && T(39) == 0xbebfbc70
    ensures K(40) == 13 && Shift(40) == 4 && T(40) == 0x289b7ec6
    ensures K(41) == 0 && Shift(41) == 11 && T(41) == 0xeaa127fa
    ensures K(42) == 3 && Shift(42) == 16 && T(42) == 0xd4ef3085
    ensures K(43) == 6 && Shift(43) == 23 && T(43) == 0x04881d05
    ensures K(44) == 9 && Shift(44) == 4 && T(44) == 0xd9d4d039
    ensures K(45) == 12 && Shift(45) == 11 && T(45) == 0xe6db99e5
    ensures K(46) == 15 && Shift(46) == 16 && T(46) == 0x1fa27cf8
    ensures K(47) == 2 && Shift(47) == 23 && T(47) == 0xc4ac5665
  {
  }

  lemma Table4()
    ensures K(48) == 0 && Shift(48) == 6 && T(48) == 0xf4292244
    ensures K(49) == 7 && Shift(49) == 10 && T(49) == 0x432aff97
    ensures K(50) == 14 && Shift(50) == 15 && T(50) == 0xab9423a7
    ensures K(51) == 5 && Shift(51) == 21 && T(51) == 0xfc93a039
    ensures K(52) == 12 && Shift(52) == 6 && T(52) == 0x655b59c3
    ensures K(53) == 3 && Shift(53) == 10 && T(53) == 0x8f0ccc92
    ensures K(54) == 10 && Shift(54) == 15 && T(54) == 0xffeff47d
    ensures K(55) == 1 && Shift(55) == 21 && T(55) == 0x85845dd1
    ensures K(56) == 8 && Shift(56) == 6 && T(56) == 0x6fa87e4f
    ensures K(57) == 15 && Shift(57) == 10 && T(57) == 0xfe2ce6e0
    ensures K(58) == 6 && Shift(58) == 15 && T(58) == 0xa3014314
    ensures K(59) == 13 && Shift(59) == 21 && T(59) == 0x4e0811a1
    ensures K(60) == 4 && Shift(60) == 6 && T(60) == 0xf7537e82
    ensures K(61) == 11 && Shift(61) == 10 && T(61) == 0xbd3af235
    ensures K(62) == 2 && Shift(62) == 15 && T(62) == 0x2ad7d2bb
    ensures K(63) == 9 && Shift(63) == 21 && T(63) == 0xeb86d391
  {
  }

  /** Four steps bring the moving registers back to their names. */
  lemma FourSteps(i: nat, r: Regs, x: seq<word>, a: word, b: word, c: word, d: word)
    requires |x| == 16 && i % 4 == 0 && Regs(a, b, c, d) == Steps(i, r, x)
    ensures var a' := Op(AuxFast(i, b, c, d), a, b, x[K(i)], Shift(i), T(i));
            var d' := Op(AuxFast(i + 1, a', b, c), d, a', x[K(i + 1)], Shift(i + 1), T(i + 1));
            var c' := Op(AuxFast(i + 2, d', a', b), c, d', x[K(i + 2)], Shift(i + 2), T(i + 2));
            var b' := Op(AuxFast(i + 3, c', d', a'), b, c', x[K(i + 3)], Shift(i + 3), T(i + 3));
            Regs(a', b', c', d') == Steps(i + 4, r, x)
  {
    hide AuxFast, Op, K, T, Shift, Step, Steps;
    var s0 := Steps(i, r, x);
    var s1, s2, s3 := Step(i, s0, x), Step(i + 1, Step(i, s0, x), x), Step(i + 2, Step(i + 1, Step(i, s0, x), x), x);
    UnfoldFour(i, r, x);
    OpIsStep(i, s0, x);
    OpIsStep(i + 1, s1, x);
    OpIsStep(i + 2, s2, x);
    OpIsStep(i + 3, s3, x);
  }

  lemma UnfoldFour(i: nat, r: Regs, x: seq<word>)
    requires |x| == 16
    ensures Steps(i + 4, r, x) == Step(i + 3, Step(i + 2, Step(i + 1, Step(i, Steps(i, r, x), x), x), x), x)
  {
    hide Step;
    assert Steps(i + 2, r, x) == Step(i + 1, Steps(i + 1, r, x), x);
    assert Steps(i + 3, r, x) == Step(i + 2, Steps(i + 2, r, x), x);
  }

  /** Round 1. */
  method Round1(ghost r: Regs, x: seq<word>, a: word, b: word, c: word, d: word)
    returns (A: word, B: word, C: word, D: word)
    requires |x| == 16 && Regs(a, b, c, d) == Steps(0, r, x)
    ensures Regs(A, B, C, D) == Steps(16, r, x)
  {
    hide Steps, Op, FF, FG, FH, FI, K, Shift, T;
    A, B, C, D := a, b, c, d;
    Table1();
    FourSteps(0, r, x, A, B, C, D);
    A := Op(FF(B, C, D), A, B, x[0], 7, 0xd76aa478);
    D := Op(FF(A, B, C), D, A, x[1], 12, 0xe8c7b756);
    C := Op(FF(D, A, B), C, D, x[2], 17, 0x242070db);
    B := Op(FF(C, D, A), B, C, x[3], 22, 0xc1bdceee);
    FourSteps(4, r, x, A, B, C, D);
    A := Op(FF(B, C, D), A, B, x[4], 7, 0xf57c0faf);
    D := Op(FF(A, B, C), D, A, x[5], 12, 0x4787c62a);
    C := Op(FF(D, A, B), C, D, x[6], 17, 0xa8304613);
    B := Op(FF(C, D, A), B, C, x[7], 22, 0xfd469501);
    FourSteps(8, r, x, A, B, C, D);
    A := Op(FF(B, C, D), A, B, x[8], 7, 0x698098d8);
    D := Op(FF(A, B, C), D, A, x[9], 12, 0x8b44f7af);
    C := Op(FF(D, A, B), C, D, x[10], 17, 0xffff5bb1);
    B := Op(FF(C, D, A), B, C, x[11], 22, 0x895cd7be);
    FourSteps(12, r, x, A, B, C, D);
    A := Op(FF(B, C, D), A, B, x[12], 7, 0x6b901122);
    D := Op(FF(A, B, C), D, A, x[13], 12, 0xfd987193);
    C := Op(FF(D, A, B), C, D, x[14], 17, 0xa679438e);
    B := Op(FF(C, D, A), B, C, x[15], 22, 0x49b40821);
  }

  /** Round 2. */
  method Round2(ghost r: Regs, x: seq<word>, a: word, b: word, c: word, d: word)
    returns (A: word, B: word, C: word, D: word)
    requires |x| == 16 && Regs(a, b, c, d) == Steps(16, r, x)
    ensures Regs(A, B, C, D) == Steps(32, r, x)
  {
    hide Steps, Op, FF, FG, FH, FI, K, Shift, T;
    A, B, C, D := a, b, c, d;
    Table2();
    FourSteps(16, r, x, A, B, C, D);
    A := Op(FG(B, C, D), A, B, x[1], 5, 0xf61e2562);
    D := Op(FG(A, B, C), D, A, x[6], 9, 0xc040b340);
    C := Op(FG(D, A, B), C, D, x[11], 14, 0x265e5a51);
    B := Op(FG(C, D, A), B, C, x[0], 20, 0xe9b6c7aa);
    FourSteps(20, r, x, A, B, C, D);
    A := Op(FG(B, C, D), A, B, x[5], 5, 0xd62f105d);
    D := Op(FG(A, B, C), D, A, x[10], 9, 0x02441453);
    C := Op(FG(D, A, B), C, D, x[15], 14, 0xd8a1e681);
    B := Op(FG(C, D, A), B, C, x[4], 20, 0xe7d3fbc8);
    FourSteps(24, r, x, A, B, C, D);
    A := Op(FG(B, C, D), A, B, x[9], 5, 0x21e1cde6);
    D := Op(FG(A, B, C), D, A, x[14], 9, 0xc33707d6);
    C := Op(FG(D, A, B), C, D, x[3], 14, 0xf4d50d87);
    B := Op(FG(C, D, A), B, C, x[8], 20, 0x455a14ed);
    FourSteps(28, r, x, A, B, C, D);
    A := Op(FG(B, C, D), A, B, x[13], 5, 0xa9e3e905);
    D := Op(FG(A, B, C), D, A, x[2], 9, 0xfcefa3f8);
    C := Op(FG(D, A, B), C, D, x[7], 14, 0x676f02d9);
    B := Op(FG(C, D, A), B, C, x[12], 20, 0x8d2a4c8a);
  }

  /** Round 3. */
  method Round3(ghost r: Regs, x: seq<word>, a: word, b: word, c: word, d: word)
    returns (A: word, B: word, C: word, D: word)
    requires |x| == 16 && Regs(a, b, c, d) == Steps(32, r, x)
    ensures Regs(A, B, C, D) == Steps(48, r, x)
  {
    hide Steps, Op, FF, FG, FH, FI, K, Shift, T;
    A, B, C, D := a, b, c, d;
    Table3();
    FourSteps(32, r, x, A, B, C, D);
    A := Op(FH(B, C, D), A, B, x[5], 4, 0xfffa3942);
    D := Op(FH(A, B, C), D, A, x[8], 11, 0x8771f681);
    C := Op(FH(D, A, B), C, D, x[11], 16, 0x6d9d6122);
    B := Op(FH(C, D, A), B, C, x[14], 23, 0xfde5380c);
    FourSteps(36, r, x, A, B, C, D);
    A := Op(FH(B, C, D), A, B, x[1], 4, 0xa4beea44);
    D := Op(FH(A, B, C), D, A, x[4], 11, 0x4bdecfa9);
    C := Op(FH(D, A, B), C, D, x[7], 16, 0xf6bb4b60);
    B := Op(FH(C, D, A), B, C, x[10], 23, 0xbebfbc70);
    FourSteps(40, r, x, A, B, C, D);
    A := Op(FH(B, C, D), A, B, x[13], 4, 0x289b7ec6);
    D := Op(FH(A, B, C), D, A, x[0], 11, 0xeaa127fa);
    C := Op(FH(D, A, B), C, D, x[3], 16, 0xd4ef3085);
    B := Op(FH(C, D, A), B, C, x[6], 23, 0x04881d05);
    FourSteps(44, r, x, A, B, C, D);
    A := Op(FH(B, C, D), A, B, x[9], 4, 0xd9d4d039);
    D := Op(FH(A, B, C), D, A, x[12], 11, 0xe6db99e5);
    C := Op(FH(D, A, B), C, D, x[15], 16, 0x1fa27cf8);
    B := Op(FH(C, D, A), B, C, x[2], 23, 0xc4ac5665);
  }

  /** Round 4. */
  method Round4(ghost r: Regs, x: seq<word>, a: word, b: word, c: word, d: word)
    returns (A: word, B: word, C: word, D: word)
    requires |x| == 16 && Regs(a, b, c, d) == Steps(48, r, x)
    ensures Regs(A, B, C, D) == Steps(64, r, x)
  {
    hide Steps, Op, FF, FG, FH, FI, K, Shift, T;
    A, B, C, D := a, b, c, d;
    Table4();
    FourSteps(48, r, x, A, B, C, D);
    A := Op(FI(B, C, D), A, B, x[0], 6, 0xf4292244);
    D := Op(FI(A, B, C), D, A, x[7], 10, 0x432aff97);
    C := Op(FI(D, A, B), C, D, x[14], 15, 0xab9423a7);
    B := Op(FI(C, D, A), B, C, x[5], 21, 0xfc93a039);
    FourSteps(52, r, x, A, B, C, D);
    A := Op(FI(B, C, D), A, B, x[12], 6, 0x655b59c3);
    D := Op(FI(A, B, C), D, A, x[3], 10, 0x8f0ccc92);
    C := Op(FI(D, A, B), C, D, x[10], 15, 0xffeff47d);
    B := Op(FI(C, D, A), B, C, x[1], 21, 0x85845dd1);
    FourSteps(56, r, x, A, B, C, D);
    A := Op(FI(B, C, D), A, B, x[8], 6, 0x6fa87e4f);
    D := Op(FI(A, B, C), D, A, x[15], 10, 0xfe2ce6e0);
    C := Op(FI(D, A, B), C, D, x[6], 15, 0xa3014314);
    B := Op(FI(C, D, A), B, C, x[13], 21, 0x4e0811a1);
    FourSteps(60, r, x, A, B, C, D);
    A := Op(FI(B, C, D), A, B, x[4], 6, 0xf7537e82);
    D := Op(FI(A, B, C), D, A, x[11], 10, 0xbd3af235);
    C := Op(FI(D, A, B), C, D, x[2], 15, 0x2ad7d2bb);
    B := Op(FI(C, D, A), B, C, x[9], 21, 0xeb86d391);
  }

  const TWO32: nat := 0x1_0000_0000
  const TWO64: nat := 0x1_0000_0000_0000_0000

  /** The 64-bit count held in two words. */
  function Count(total0: nat, total1: nat): nat {
    TWO32 * total1 + total0
  }

  function AddCount(total0: nat, total1: nat, len: nat): (nat, nat) {
    var low := (total0 + len) % TWO32;
    (low, if low < len then (total1 + 1) % TWO32 else total1)
  }

  /** The low word wraps exactly when it ends below what was added, so the carry is never missed. */
  lemma CarryIsExact(total0: nat, total1: nat, len: nat, n: nat)
    requires total0 < TWO32 && total1 < TWO32 && len < TWO32 && Count(total0, total1) == n % TWO64
    ensures var (low, high) := AddCount(total0, total1, len);
            low < TWO32 && high < TWO32 && Count(low, high) == (n + len) % TWO64
  {
    var (low, high) := AddCount(total0, total1, len);
    var q := n / TWO64;
    var wrap := total0 + len >= TWO32;
    assert low == total0 + len - if wrap then TWO32 else 0;
    if wrap && total1 == TWO32 - 1 {
      Remainder(n + len, q + 1, Count(low, high));
    } else {
      Remainder(n + len, q, Count(low, high));
    }
  }

  lemma Remainder(x: nat, q: nat, r: nat)
    requires x == TWO64 * q + r && r < TWO64
    ensures x % TWO64 == r
  {
  }

  lemma {:induction false} LittleEndianJoin(low: nat, high: nat, i: nat, j: nat)
    requires low < Pow256(i)
    ensures LittleEndian(low + Pow256(i) * high, i + j) == LittleEndian(low, i) + LittleEndian(high, j)
  {
    if i == 0 {
      assert LittleEndian(low, 0) == [];
    } else {
      var rest := Pow256(i - 1) * high;
      Factor(Pow256(i - 1), high);
      LowDigit(low, rest);
      LittleEndianJoin(low / 256, high, i - 1, j);
    }
  }

  lemma Factor(p: nat, high: nat)
    ensures 256 * p * high == 256 * (p * high)
  {
  }

  lemma LowDigit(low: nat, rest: nat)
    ensures (low + 256 * rest) % 256 == low % 256 && (low + 256 * rest) / 256 == low / 256 + rest
  {
  }

  function Pow256(i: nat): (p: nat)
    ensures p > 0
  {
    if i == 0 then 1 else 256 * Pow256(i - 1)
  }

  /** The words written at the end: 8 times the byte count, split over two words. */
  function LowBits(total0: nat): nat {
    (total0 * 8) % TWO32
  }

  function HighBits(total0: nat, total1: nat): nat {
    (total1 * 8) % TWO32 + total0 / 0x2000_0000
  }

  // Words and numbers, one step at a time.

  lemma OrAdds(total0: word, total1: word)
    ensures ((total1 << 3) | (total0 >> 29)) as nat == (total1 << 3) as nat + (total0 >> 29) as nat
  {
  }

  lemma ShiftedUp(x: word)
    requires x < 0x2000_0000
    ensures (x << 3) as nat == 8 * (x as nat)
  {
  }

  lemma ShiftedDown(x: word)
    ensures (x >> 29) as nat == x as nat / 0x2000_0000
  {
  }

  lemma LowPart(x: word)
    ensures (x & 0x1FFF_FFFF) < 0x2000_0000 && x << 3 == (x & 0x1FFF_FFFF) << 3
  {
  }

  lemma TwoParts(x: word)
    ensures x as nat == (x & 0x1FFF_FFFF) as nat + 0x2000_0000 * ((x >> 29) as nat)
  {
  }

  lemma LowPartSmall(x: word)
    ensures (x & 0x1FFF_FFFF) as nat < 0x2000_0000
  {
    NoHighPart(x);
    ShiftedDown(x & 0x1FFF_FFFF);
    QuotientZero((x & 0x1FFF_FFFF) as nat);
  }

  lemma QuotientZero(n: nat)
    requires n / 0x2000_0000 == 0
    ensures n < 0x2000_0000
  {
  }

  lemma NoHighPart(x: word)
    ensures ((x & 0x1FFF_FFFF) >> 29) as nat == 0
  {
  }

  lemma RemainderIs(n: nat, low: nat, high: nat)
    requires n == low + 0x2000_0000 * high && low < 0x2000_0000
    ensures n % 0x2000_0000 == low
  {
  }

  lemma LowPartNumber(x: word)
    ensures (x & 0x1FFF_FFFF) as nat == x as nat % 0x2000_0000
  {
    TwoParts(x);
    LowPartSmall(x);
    RemainderIs(x as nat, (x & 0x1FFF_FFFF) as nat, (x >> 29) as nat);
  }

  lemma TimesEight(n: nat)
    ensures 8 * (n % 0x2000_0000) == (n * 8) % TWO32
  {
  }

  lemma ShiftedNumber(x: word)
    ensures (x << 3) as nat == (x as nat * 8) % TWO32
  {
    LowPart(x);
    ShiftedUp(x & 0x1FFF_FFFF);
    LowPartNumber(x);
    TimesEight(x as nat);
  }

  /** The two words as the code computes them, by shifts and an or, are those numbers. */
  lemma BitWords(total0: word, total1: word)
    ensures (total0 << 3) as nat == LowBits(total0 as nat)
    ensures ((total1 << 3) | (total0 >> 29)) as nat == HighBits(total0 as nat, total1 as nat)
  {
    ShiftedNumber(total0);
    ShiftedNumber(total1);
    ShiftedDown(total0);
    OrAdds(total0, total1);
  }

  // n * 8 modulo 2^32, and what is carried out of it.
  lemma EightTimes(n: nat)
    requires n < TWO32
    ensures 8 * n == (n * 8) % TWO32 + TWO32 * (n / 0x2000_0000)
  {
  }

  lemma BitCountWords(total0: nat, total1: nat, n: nat)
    requires total0 < TWO32 && total1 < TWO32 && Count(total0, total1) == n % TWO64
    ensures BitCount(n) == LowBits(total0) + Pow256(4) * HighBits(total0, total1) && LowBits(total0) < Pow256(4)
  {
    assert Pow256(4) == TWO32;
    hide Pow256;
    var low, high := LowBits(total0), HighBits(total0, total1);
    var q, over1 := n / TWO64, total1 / 0x2000_0000;
    EightTimes(total0);
    EightTimes(total1);
    HighSmall(total0, total1);
    assert n == TWO64 * q + total0 + TWO32 * total1;
    assert 8 * n == TWO64 * (8 * q + over1) + (low + TWO32 * high);
    Remainder(8 * n, 8 * q + over1, low + TWO32 * high);
  }

  lemma HighSmall(total0: nat, total1: nat)
    requires total0 < TWO32 && total1 < TWO32
    ensures HighBits(total0, total1) < TWO32
  {
  }

  /** Section 3.2: the emitted words are the bit count modulo 2^64, low-order word first. */
  lemma LengthWords(total0: nat, total1: nat, n: nat)
    requires total0 < TWO32 && total1 < TWO32 && Count(total0, total1) == n % TWO64
    ensures LengthField(n) == LittleEndian(LowBits(total0), 4) + LittleEndian(HighBits(total0, total1), 4)
  {
    hide LittleEndian, BitCount, LowBits, HighBits, Pow256;
    BitCountWords(total0, total1, n);
    LittleEndianJoin(LowBits(total0), HighBits(total0, total1), 4, 4);
  }

  /** Section 3.1: for every staged length the pad completes whole blocks inside the buffer. */
  lemma PadFillsBlocks(buflen: nat, n: nat)
    requires buflen <= 64 && n % 64 == buflen % 64
    ensures CodePad(buflen) == PadLength(n)
    ensures (buflen + CodePad(buflen) + 8) % 64 == 0
    ensures 64 <= buflen + CodePad(buflen) + 8 <= 128
  {
  }

  function CodePad(bytes: nat): nat
    requires bytes <= 64
  {
    if bytes >= 56 then 64 + 56 - bytes else 56 - bytes
  }

  class Md5Ctx {
    var a: word
    var b: word
    var c: word
    var d: word
    var total0: nat
    var total1: nat
    var buflen: nat
    const buffer: array<octet>

    /** Message bytes that went into the words; the rest of the message is staged in `buffer`. */
    ghost var hashed: seq<octet>

    ghost predicate Valid()
      reads this
    {
      Hashed() && buflen <= 64
    }

    ghost predicate Hashed()
      reads this
    {
      && buffer.Length == 128
      && |hashed| % 64 == 0 && Regs(a, b, c, d) == Blocks(Initial, hashed)
      && total0 < TWO32 && total1 < TWO32 && Count(total0, total1) == |hashed| % TWO64
    }

    /** The message so far. */
    ghost function Message(): seq<octet>
      requires Valid()
      reads this, buffer
    {
      hashed + buffer[..buflen]
    }

    // md5_init_ctx
    constructor ()
      ensures Valid() && Message() == [] && buflen == 0 && fresh(buffer)
    {
      hide Block, Words;
      a, b, c, d := 0x67452301, 0xefcdab89, 0x98badcfe, 0x10325476;
      total0, total1, buflen := 0, 0, 0;
      buffer := new octet[128];
      hashed := [];
    }

    // md5_process_block
    method ProcessBlock(data: seq<octet>)
      requires |data| % 64 == 0 && |data| < TWO32
      modifies this`a, this`b, this`c, this`d, this`total0, this`total1
      ensures Regs(a, b, c, d) == Blocks(Regs(old(a), old(b), old(c), old(d)), data)
      ensures (total0, total1) == AddCount(old(total0), old(total1), |data|)
    {
      hide Add, Block, Blocks, Words, Steps;
      var A, B, C, D := a, b, c, d;
      ghost var start := Regs(a, b, c, d);
      total0 := (total0 + |data|) % TWO32;
      if total0 < |data| {
        total1 := (total1 + 1) % TWO32;
      }
      NoBlocks(start);
      assert data[..0] == [];
      var pos := 0;
      while pos < |data|
        invariant pos % 64 == 0 && pos <= |data|
        invariant Regs(A, B, C, D) == Blocks(start, data[..pos])
        invariant (total0, total1) == AddCount(old(total0), old(total1), |data|)
      {
        var correctWords := Words(data[pos..pos + 64]);
        ghost var saved := Regs(A, B, C, D);
        var A', B', C', D' := Rounds(saved, correctWords, A, B, C, D);
        A, B, C, D := Add(A', A), Add(B', B), Add(C', C), Add(D', D);
        BlockIs(saved, correctWords, Regs(A', B', C', D'));
        OneBlock(saved, data[pos..pos + 64]);
        BlocksAppend(start, data[..pos], data[pos..pos + 64]);
        assert data[..pos] + data[pos..pos + 64] == data[..pos + 64];
        pos := pos + 64;
      }
      assert data[..pos] == data;
      a, b, c, d := A, B, C, D;
    }

    method Rounds(ghost r: Regs, x: seq<word>, a: word, b: word, c: word, d: word)
      returns (A: word, B: word, C: word, D: word)
      requires |x| == 16 && r == Regs(a, b, c, d)
      ensures Regs(A, B, C, D) == Steps(64, r, x)
    {
      hide Step;
      assert Steps(0, r, x) == r;
      A, B, C, D := Round1(r, x, a, b, c, d);
      A, B, C, D := Round2(r, x, A, B, C, D);
      A, B, C, D := Round3(r, x, A, B, C, D);
      A, B, C, D := Round4(r, x, A, B, C, D);
    }

    /** md5_process_block on the next bytes of the message. */
    method Hash(data: seq<octet>)
      requires Hashed() && |data| % 64 == 0 && |data| < TWO32
      modifies this`a, this`b, this`c, this`d, this`total0, this`total1, this`hashed
      ensures Hashed() && hashed == old(hashed) + data
    {
      hide Block, Blocks, Words;
      BlocksAppend(Initial, hashed, data);
      CarryIsExact(total0, total1, |data|, |hashed|);
      ProcessBlock(data);
      hashed := hashed + data;
    }

    /** First fill up the staged bytes, if there are any; only with none staged is anything left. */
    method TopUp(data: seq<octet>) returns (rest: seq<octet>)
      requires Valid()
      modifies this, buffer
      ensures Valid() && Message() + rest == old(Message()) + data
      ensures |rest| <= |data| && (rest != [] ==> buflen == 0)
    {
      hide Block, Blocks, Words;
      rest := data;
      if buflen != 0 {
        var add := if 128 - buflen > |data| then |data| else 128 - buflen;
        assert data == data[..add] + data[add..];
        Stage(data[..add]);
        assert hashed + buffer[..buflen] == old(Message()) + data[..add];
        if buflen > 64 {
          HashStaged();
        }
        rest := data[add..];
      }
    }

    // md5_process_bytes
    method ProcessBytes(data: seq<octet>)
      requires Valid() && |data| < TWO32
      modifies this, buffer
      ensures Valid() && Message() == old(Message()) + data
    {
      hide Block, Blocks, Words;
      var rest := TopUp(data);
      if |rest| > 64 {
        var whole := |rest| / 64 * 64;
        ghost var before := Message();
        assert rest == rest[..whole] + rest[whole..];
        Hash(rest[..whole]);
        assert buffer[..buflen] == [];
        assert Message() == before + rest[..whole];
        rest := rest[whole..];
      }
      StageRest(rest);
    }

    /** What is left goes to the front of the empty buffer. */
    method StageRest(rest: seq<octet>)
      requires Valid() && |rest| <= 64 && (rest != [] ==> buflen == 0)
      modifies this`buflen, buffer
      ensures Valid() && Message() == old(Message()) + rest
    {
      hide Block, Blocks, Words;
      if |rest| > 0 {
        forall k | 0 <= k < |rest| {
          buffer[k] := rest[k];
        }
        buflen := |rest|;
        assert buffer[..buflen] == rest;
      }
    }

    /** Whole blocks of the staged bytes are hashed and the remainder moves to the front. */
    method HashStaged()
      requires Hashed() && 64 < buflen <= 128
      modifies this`a, this`b, this`c, this`d, this`total0, this`total1, this`hashed, this`buflen, buffer
      ensures Valid() && Message() == old(hashed + buffer[..buflen]) && buflen == old(buflen) % 64
    {
      hide Block, Blocks, Words;
      var whole := buflen / 64 * 64;
      var left := buflen % 64;
      ghost var staged := buffer[..buflen];
      assert staged == buffer[..whole] + buffer[whole..buflen];
      Hash(buffer[..whole]);
      forall k | 0 <= k < left {
        buffer[k] := buffer[whole + k];
      }
      buflen := left;
      assert buffer[..buflen] == staged[whole..];
    }

    // md5_finish_ctx
    method Finish() returns (digest: seq<octet>)
      requires Valid()
      modifies this, buffer
      ensures digest == Digest(old(Message()))
    {
      hide Digest, Blocks, LittleEndian, LengthField, Padding, Padded, PadLength, LowBits, HighBits, Count;
      ghost var message := Message();
      var bytes := buflen;
      CountBytes(bytes);
      var pad := if bytes >= 56 then 64 + 56 - bytes else 56 - bytes;
      PadFillsBlocks(bytes, |message|);
      LengthWords(total0, total1, |message|);
      StagePadAndLength(message, pad);
      digest := OutputOf(message);
    }

    /** Process the last bytes and put out the words. */
    method OutputOf(ghost message: seq<octet>) returns (digest: seq<octet>)
      requires buffer.Length == 128 && buflen % 64 == 0 && buflen <= 128
      requires |hashed| % 64 == 0 && Regs(a, b, c, d) == Blocks(Initial, hashed)
      requires hashed + buffer[..buflen] == Padded(message)
      modifies this`a, this`b, this`c, this`d, this`total0, this`total1
      ensures digest == Digest(message)
    {
      hide Block, Blocks, Words, Padded, Output;
      BlocksAppend(Initial, hashed, buffer[..buflen]);
      ProcessBlock(buffer[..buflen]);
      digest := Output(Regs(a, b, c, d));
    }

    /** The double word increment. */
    method CountBytes(len: nat)
      requires Hashed() && len < TWO32
      modifies this`total0, this`total1
      ensures total0 < TWO32 && total1 < TWO32 && Count(total0, total1) == (|hashed| + len) % TWO64
    {
      hide Blocks;
      CarryIsExact(total0, total1, len, |hashed|);
      total0 := (total0 + len) % TWO32;
      if total0 < len {
        total1 := (total1 + 1) % TWO32;
      }
    }

    method StagePadAndLength(ghost message: seq<octet>, pad: nat)
      requires buffer.Length == 128 && buflen + pad + 8 <= 128 && message == hashed + buffer[..buflen]
      requires pad == PadLength(|message|)
      requires LengthField(|message|) == LittleEndian(LowBits(total0), 4) + LittleEndian(HighBits(total0, total1), 4)
      modifies this`buflen, buffer
      ensures buflen == old(buflen) + pad + 8 && hashed + buffer[..buflen] == Padded(message)
    {
      hide LittleEndian, LengthField, Padding, LowBits, HighBits;
      PadIsFillbuf(|message|);
      Stage(Fillbuf()[..pad]);
      Stage(LittleEndian(LowBits(total0), 4));
      Stage(LittleEndian(HighBits(total0, total1), 4));
      assert hashed + buffer[..buflen] == message + Padding(|message|) + LengthField(|message|);
    }

    /** memcpy to the end of the staged bytes. */
    method Stage(data: seq<octet>)
      requires buffer.Length == 128 && buflen + |data| <= 128
      modifies this`buflen, buffer
      ensures buflen == old(buflen) + |data| && buffer[..buflen] == old(buffer[..buflen]) + data
    {
      forall k | 0 <= k < |data| {
        buffer[buflen + k] := data[k];
      }
      buflen := buflen + |data|;
    }
  }

  lemma NoBlocks(r: Regs)
    ensures Blocks(r, []) == r
  {
  }

  lemma BlockIs(r: Regs, x: seq<word>, s: Regs)
    requires |x| == 16 && s == Steps(64, r, x)
    ensures Block(r, x) == Sum(s, r)
  {
    hide Steps, Sum;
  }

  function Fillbuf(): (s: seq<octet>)
    ensures |s| == 64
  {
    [0x80] + Zeros(63)
  }

  lemma PadIsFillbuf(n: nat)
    ensures Fillbuf()[..PadLength(n)] == Padding(n)
  {
  }

  /** A stdio stream.  `short` are the lengths the underlying reads would stop at and `failsAt` the
      call that meets an error; both are arbitrary. */
  class Stream {
    const content: seq<octet>
    const short: seq<nat>
    const failsAt: int
    var pos: nat
    var calls: nat
    var error: bool

    ghost predicate Valid()
      reads this
    {
      pos <= |content|
    }

    constructor (content: seq<octet>, short: seq<nat>, failsAt: int)
      ensures Valid() && pos == 0 && !error && this.content == content
    {
      this.content, this.short, this.failsAt := content, short, failsAt;
      pos, calls, error := 0, 0, false;
    }

    /** At least one byte arrives unless the file ends or an error occurs. */
    method Fread(want: nat) returns (data: seq<octet>)
      requires Valid() && want > 0
      modifies this
      ensures Valid() && pos == old(pos) + |data| && data == content[old(pos)..pos] && |data| <= want
      ensures old(error) ==> error
      ensures error && !old(error) ==> data == []
      ensures data == [] && !error ==> pos == |content|
    {
      var n := if calls < |short| && 1 <= short[calls] < want then short[calls] else want;
      if n > |content| - pos {
        n := |content| - pos;
      }
      if calls == failsAt {
        n, error := 0, true;
      }
      data := content[pos..pos + n];
      pos, calls := pos + n, calls + 1;
    }
  }

  const BLOCKSIZE: nat := 4096

  /** One block, taking care for partial reads; `last` is what the last call returned. */
  method ReadBlock(stream: Stream) returns (block: seq<octet>, last: nat)
    requires stream.Valid() && !stream.error
    modifies stream
    ensures stream.Valid() && |block| <= BLOCKSIZE
    ensures stream.pos == old(stream.pos) + |block| && block == stream.content[old(stream.pos)..stream.pos]
    ensures stream.error ==> last == 0
    ensures last == 0 && !stream.error ==> stream.pos == |stream.content|
    ensures last != 0 ==> |block| == BLOCKSIZE
  {
    var data := stream.Fread(BLOCKSIZE);
    block, last := data, |data|;
    while |block| < BLOCKSIZE && last != 0
      invariant stream.Valid() && |block| <= BLOCKSIZE && last <= |block|
      invariant stream.pos == old(stream.pos) + |block| && block == stream.content[old(stream.pos)..stream.pos]
      invariant stream.error ==> last == 0
      invariant last == 0 && !stream.error ==> stream.pos == |stream.content|
      decreases BLOCKSIZE - |block|, last
    {
      data := stream.Fread(BLOCKSIZE - |block|);
      block, last := block + data, |data|;
    }
  }

  // md5_stream
  method Md5Stream(stream: Stream) returns (failed: bool, digest: seq<octet>)
    requires stream.Valid() && stream.pos == 0 && !stream.error
    modifies stream
    ensures failed == stream.error
    ensures !failed ==> digest == Digest(stream.content)
  {
    hide Block, Blocks, Words, Digest;
    var ctx := new Md5Ctx();
    failed, digest := false, [];
    var block, n := ReadBlock(stream);
    while n != 0
      invariant stream.Valid() && ctx.Valid() && ctx.buflen == 0 && fresh(ctx) && fresh(ctx.buffer)
      invariant ctx.Message() == stream.content[..stream.pos - |block|] && |block| <= stream.pos
      invariant block == stream.content[stream.pos - |block|..stream.pos] && |block| <= BLOCKSIZE
      invariant stream.error ==> n == 0
      invariant n == 0 && !stream.error ==> stream.pos == |stream.content|
      invariant n != 0 ==> |block| == BLOCKSIZE
      decreases |stream.content| - stream.pos + |block|
    {
      Longer(stream.content, stream.pos - |block|, stream.pos);
      ctx.Hash(block);
      assert ctx.buffer[..0] == [] && ctx.Message() == stream.content[..stream.pos];
      block, n := ReadBlock(stream);
    }
    if stream.error {
      failed := true;
      return;
    }
    Longer(stream.content, stream.pos - |block|, stream.pos);
    assert stream.content[..stream.pos] == stream.content;
    digest := ProcessLast(ctx, block);
  }

  lemma Longer(content: seq<octet>, from: nat, to: nat)
    requires from <= to <= |content|
    ensures content[..from] + content[from..to] == content[..to]
  {
  }

  // The bytes of the last block, if there are any, and the digest.
  method ProcessLast(ctx: Md5Ctx, block: seq<octet>) returns (digest: seq<octet>)
    requires ctx.Valid() && |block| <= BLOCKSIZE
    modifies ctx, ctx.buffer
    ensures digest == Digest(old(ctx.Message()) + block)
  {
    hide Block, Blocks, Words, Digest;
    if |block| > 0 {
      ctx.ProcessBytes(block);
    } else {
      assert ctx.Message() + block == ctx.Message();
    }
    digest := ctx.Finish();
  }

  /** Chunking independence: however the message is split over calls, its digest is the RFC's. */
  method Md5OfChunks(chunks: seq<seq<octet>>) returns (digest: seq<octet>)
    requires forall i :: 0 <= i < |chunks| ==> |chunks[i]| < TWO32
    ensures digest == Digest(Flatten(chunks))
  {
    hide Block, Blocks, Words, Digest;
    var ctx := new Md5Ctx();
    for i := 0 to |chunks|
      invariant ctx.Valid() && fresh(ctx) && fresh(ctx.buffer)
      invariant ctx.Message() == Flatten(chunks[..i])
    {
      ctx.ProcessBytes(chunks[i]);
      assert chunks[..i + 1][..i] == chunks[..i];
    }
    assert chunks[..|chunks|] == chunks;
    digest := ctx.Finish();
  }
}
