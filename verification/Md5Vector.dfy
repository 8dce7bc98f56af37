/** Words as numbers, and one value of the test suite in section A.5 of RFC 1321, worked out step by step. It fixes the constants of the
    specification and the order of the bytes in a word. */
module Md5Vector {
  import opened Octets
  import opened Md5Spec
  import Md5

  /** Section 2: a word is four bytes, the first counting least. */
  lemma WordNumber(b: seq<octet>)
    requires |b| == 4
    ensures Word(b) as nat == b[0] as nat + 256 * (b[1] as nat) + 0x1_0000 * (b[2] as nat) + 0x100_0000 * (b[3] as nat)
  {
    OrNumber(b[0], b[1], b[2], b[3]);
  }

  lemma OrNumber(a: octet, b: octet, c: octet, d: octet)
    ensures ((a as word) | ((b as word) << 8) | ((c as word) << 16) | ((d as word) << 24)) as nat ==
            a as nat + 256 * (b as nat) + 0x1_0000 * (c as nat) + 0x100_0000 * (d as nat)
  {
  }

  /** And is put out as the same four bytes. */
  lemma WordRoundTrip(b: seq<octet>)
    requires |b| == 4
    ensures WordBytes(Word(b)) == b
  {
    BytesOf(b[0], b[1], b[2], b[3]);
    assert b == [b[0], b[1], b[2], b[3]];
  }

  lemma BytesOf(a: octet, b: octet, c: octet, d: octet)
    ensures WordBytes(Word([a, b, c, d])) == [a, b, c, d]
  {
  }

  // "abc"
  const Abc: seq<octet> := [0x61, 0x62, 0x63]

  // Its one block: the message with the bit behind it, and its length of 24 bits.
  const X: seq<word> := [0x80636261, 0, 0, 0, 0, 0, 0, 0, 0, 0, 0, 0, 0, 0, 24, 0]

  // The words of round 1.
  lemma Words1()
    ensures F(0xefcdab89, 0x98badcfe, 0x10325476) == 0x98badcfe && Mix(0x98badcfe, 0x67452301, 0xefcdab89, 0x80636261, 7, 0xd76aa478) == 0xd6d117b4
    ensures F(0xd6d117b4, 0xefcdab89, 0x98badcfe) == 0xceebcbca && Mix(0xceebcbca, 0x10325476, 0xd6d117b4, 0, 12, 0xe8c7b756) == 0x344a8432
    ensures F(0x344a8432, 0xd6d117b4, 0xefcdab89) == 0xdfc52fb9 && Mix(0xdfc52fb9, 0x98badcfe, 0x344a8432, 0, 17, 0x242070db) == 0x2f6fbd72
    ensures F(0x2f6fbd72, 0x344a8432, 0xd6d117b4) == 0xf4da86b6 && Mix(0xf4da86b6, 0xefcdab89, 0x2f6fbd72, 0, 22, 0xc1bdceee) == 0x7ad956f2
    ensures F(0x7ad956f2, 0x2f6fbd72, 0x344a8432) == 0x2e4b9472 && Mix(0x2e4b9472, 0xd6d117b4, 0x7ad956f2, 0, 7, 0xf57c0faf) == 0xc73741ef
    ensures F(0xc73741ef, 0x7ad956f2, 0x2f6fbd72) == 0x6a59fcf2 && Mix(0x6a59fcf2, 0x344a8432, 0xc73741ef, 0, 12, 0x4787c62a) == 0x8bac3051
    ensures F(0x8bac3051, 0xc73741ef, 0x7ad956f2) == 0xf37546e3 && Mix(0xf37546e3, 0x2f6fbd72, 0x8bac3051, 0, 17, 0xa8304613) == 0x207dc67b
    ensures F(0x207dc67b, 0x8bac3051, 0xc73741ef) == 0xc72e01d5 && Mix(0xc72e01d5, 0x7ad956f2, 0x207dc67b, 0, 22, 0xfd469501) == 0x928d99f6
    ensures F(0x928d99f6, 0x207dc67b, 0x8bac3051) == 0x092da073 && Mix(0x092da073, 0xc73741ef, 0x928d99f6, 0, 7, 0x698098d8) == 0x854b3712
    ensures F(0x854b3712, 0x928d99f6, 0x207dc67b) == 0xa03dd17b && Mix(0xa03dd17b, 0x8bac3051, 0x854b3712, 0, 12, 0x8b44f7af) == 0x74e2f284
    ensures F(0x74e2f284, 0x854b3712, 0x928d99f6) == 0x864f3b72 && Mix(0x864f3b72, 0x207dc67b, 0x74e2f284, 0, 17, 0xffff5bb1) == 0x3020401c
    ensures F(0x3020401c, 0x74e2f284, 0x854b3712) == 0xb56b7706 && Mix(0xb56b7706, 0x928d99f6, 0x3020401c, 0, 22, 0x895cd7be) == 0x5ed49596
    ensures F(0x5ed49596, 0x3020401c, 0x74e2f284) == 0x30226214 && Mix(0x30226214, 0x854b3712, 0x5ed49596, 0, 7, 0x6b901122) == 0xdda9b9a6
    ensures F(0xdda9b9a6, 0x5ed49596, 0x3020401c) == 0x7c80d19e && Mix(0x7c80d19e, 0x74e2f284, 0xdda9b9a6, 0, 12, 0xfd987193) == 0xa1051895
    ensures F(0xa1051895, 0xdda9b9a6, 0x5ed49596) == 0xdfd19d86 && Mix(0xdfd19d86, 0x3020401c, 0xa1051895, 24, 17, 0xa679438e) == 0xe396856b
    ensures F(0xe396856b, 0xa1051895, 0xdda9b9a6) == 0xbd2d3885 && Mix(0xbd2d3885, 0x5ed49596, 0xe396856b, 0, 22, 0x49b40821) == 0x72aff2e0
  {
  }

  // The words of round 2.
  lemma Words2()
    ensures G(0x72aff2e0, 0xe396856b, 0xa1051895) == 0x629795ea && Mix(0x629795ea, 0xdda9b9a6, 0x72aff2e0, 0, 5, 0xf61e2562) == 0x3e9e9126
    ensures G(0x3e9e9126, 0x72aff2e0, 0xe396856b) == 0x32bff3a2 && Mix(0x32bff3a2, 0xa1051895, 0x3e9e9126, 0, 9, 0xc040b340) == 0x4a1d804e
    ensures G(0x4a1d804e, 0x3e9e9126, 0x72aff2e0) == 0x4e1d8146 && Mix(0x4e1d8146, 0xe396856b, 0x4a1d804e, 0, 14, 0x265e5a51) == 0xe25e1652
    ensures G(0xe25e1652, 0x4a1d804e, 0x3e9e9126) == 0x621f104a && Mix(0x621f104a, 0x72aff2e0, 0xe25e1652, 0x80636261, 20, 0xe9b6c7aa) == 0xb5b204e4
    ensures G(0xb5b204e4, 0xe25e1652, 0x4a1d804e) == 0xa0521654 && Mix(0xa0521654, 0x3e9e9126, 0xb5b204e4, 0, 5, 0xd62f105d) == 0x59a8ffda
    ensures G(0x59a8ffda, 0xb5b204e4, 0xe25e1652) == 0x55a816f6 && Mix(0x55a816f6, 0x4a1d804e, 0x59a8ffda, 0, 9, 0x02441453) == 0x6d002f1e
    ensures G(0x6d002f1e, 0x59a8ffda, 0xb5b204e4) == 0x6d08ff1e && Mix(0x6d08ff1e, 0xe25e1652, 0x6d002f1e, 0, 14, 0xd8a1e681) == 0xabfc7920
    ensures G(0xabfc7920, 0x6d002f1e, 0x59a8ffda) == 0x2da87904 && Mix(0x2da87904, 0xb5b204e4, 0xabfc7920, 0, 20, 0xe7d3fbc8) == 0x47092c07
    ensures G(0x47092c07, 0xabfc7920, 0x6d002f1e) == 0xc7fc7c26 && Mix(0xc7fc7c26, 0x59a8ffda, 0x47092c07, 0, 5, 0x21e1cde6) == 0xb7f268cf
    ensures G(0xb7f268cf, 0x47092c07, 0xabfc7920) == 0xe7f16c07 && Mix(0xe7f16c07, 0x6d002f1e, 0xb7f268cf, 24, 9, 0xc33707d6) == 0x09388eff
    ensures G(0x09388eff, 0xb7f268cf, 0x47092c07) == 0xb1fa4ccf && Mix(0xb1fa4ccf, 0xabfc7920, 0x09388eff, 0, 14, 0xf4d50d87) == 0xfe1623b1
    ensures G(0xfe1623b1, 0x09388eff, 0xb7f268cf) == 0xbe1aa6b1 && Mix(0xbe1aa6b1, 0x47092c07, 0xfe1623b1, 0, 20, 0x455a14ed) == 0x786acb8f
    ensures G(0x786acb8f, 0xfe1623b1, 0x09388eff) == 0xfe2eab8f && Mix(0xfe2eab8f, 0xb7f268cf, 0x786acb8f, 0, 5, 0xa9e3e905) == 0x790a77fb
    ensures G(0x790a77fb, 0x786acb8f, 0xfe1623b1) == 0x786aebbf && Mix(0x786aebbf, 0x09388eff, 0x790a77fb, 0, 9, 0xfcefa3f8) == 0x9f47e4f8
    ensures G(0x9f47e4f8, 0x790a77fb, 0x786acb8f) == 0x1942f4f8 && Mix(0x1942f4f8, 0xfe1623b1, 0x9f47e4f8, 0, 14, 0x676f02d9) == 0xa62884aa
    ensures G(0xa62884aa, 0x9f47e4f8, 0x790a77fb) == 0xa64d84aa && Mix(0xa64d84aa, 0x786acb8f, 0xa62884aa, 0, 20, 0x8d2a4c8a) == 0x726342d3
  {
  }

  // The words of round 3.
  lemma Words3()
    ensures H(0x726342d3, 0xa62884aa, 0x9f47e4f8) == 0x4b0c2281 && Mix(0x4b0c2281, 0x790a77fb, 0x726342d3, 0, 4, 0xfffa3942) == 0xb3707ebf
    ensures H(0xb3707ebf, 0x726342d3, 0xa62884aa) == 0x673bb8c6 && Mix(0x673bb8c6, 0x9f47e4f8, 0xb3707ebf, 0, 11, 0x8771f681) == 0x60127b2e
    ensures H(0x60127b2e, 0xb3707ebf, 0x726342d3) == 0xa1014742 && Mix(0xa1014742, 0xa62884aa, 0x60127b2e, 0, 16, 0x6d9d6122) == 0x8d212ff5
    ensures H(0x8d212ff5, 0x60127b2e, 0xb3707ebf) == 0x5e432a64 && Mix(0x5e432a64, 0x726342d3, 0x8d212ff5, 24, 23, 0xfde5380c) == 0x3b0875c7
    ensures H(0x3b0875c7, 0x8d212ff5, 0x60127b2e) == 0xd63b211c && Mix(0xd63b211c, 0xb3707ebf, 0x3b0875c7, 0, 4, 0xa4beea44) == 0x21b117b9
    ensures H(0x21b117b9, 0x3b0875c7, 0x8d212ff5) == 0x97984d8b && Mix(0x97984d8b, 0x60127b2e, 0x21b117b9, 0, 11, 0x4bdecfa9) == 0x6e7429d5
    ensures H(0x6e7429d5, 0x21b117b9, 0x3b0875c7) == 0x74cd4bab && Mix(0x74cd4bab, 0x8d212ff5, 0x6e7429d5, 0, 16, 0xf6bb4b60) == 0x3575227e
    ensures H(0x3575227e, 0x6e7429d5, 0x21b117b9) == 0x7ab01c12 && Mix(0x7ab01c12, 0x3b0875c7, 0x3575227e, 0, 23, 0xbebfbc70) == 0x5a2f5ea5
    ensures H(0x5a2f5ea5, 0x3575227e, 0x6e7429d5) == 0x012e550e && Mix(0x012e550e, 0x21b117b9, 0x5a2f5ea5, 0, 4, 0x289b7ec6) == 0x11de1779
    ensures H(0x11de1779, 0x5a2f5ea5, 0x3575227e) == 0x7e846ba2 && Mix(0x7e846ba2, 0x6e7429d5, 0x11de1779, 0x80636261, 11, 0xeaa127fa) == 0xfadcaa38
    ensures H(0xfadcaa38, 0x11de1779, 0x5a2f5ea5) == 0xb12de3e4 && Mix(0xb12de3e4, 0x3575227e, 0xfadcaa38, 0, 16, 0xd4ef3085) == 0x31c465ca
    ensures H(0x31c465ca, 0xfadcaa38, 0x11de1779) == 0xdac6d88b && Mix(0xdac6d88b, 0x5a2f5ea5, 0x31c465ca, 0, 23, 0x04881d05) == 0x4c6124f4
    ensures H(0x4c6124f4, 0x31c465ca, 0xfadcaa38) == 0x8779eb06 && Mix(0x8779eb06, 0x11de1779, 0x4c6124f4, 0, 4, 0xd9d4d039) == 0x7f2e507b
    ensures H(0x7f2e507b, 0x4c6124f4, 0x31c465ca) == 0x028b1145 && Mix(0x028b1145, 0xfadcaa38, 0x7f2e507b, 0, 11, 0xe6db99e5) == 0x99d9679d
    ensures H(0x99d9679d, 0x7f2e507b, 0x4c6124f4) == 0xaa961312 && Mix(0xaa961312, 0x31c465ca, 0x99d9679d, 0, 16, 0x1fa27cf8) == 0x8fae6399
    ensures H(0x8fae6399, 0x99d9679d, 0x7f2e507b) == 0x6959547f && Mix(0x6959547f, 0x4c6124f4, 0x8fae6399, 0, 23, 0xc4ac5665) == 0x7beb9700
  {
  }

  // The words of round 4.
  lemma Words4()
    ensures I(0x7beb9700, 0x8fae6399, 0x99d9679d) == 0xf041fcfb && Mix(0xf041fcfb, 0x7f2e507b, 0x7beb9700, 0x80636261, 6, 0xf4292244) == 0x7b201df8
    ensures I(0x7b201df8, 0x7beb9700, 0x8fae6399) == 0x009a0afe && Mix(0x009a0afe, 0x99d9679d, 0x7b201df8, 0, 10, 0x432aff97) == 0xf4e8e96e
    ensures I(0xf4e8e96e, 0x7b201df8, 0x7beb9700) == 0x8fdcf407 && Mix(0x8fdcf407, 0x8fae6399, 0xf4e8e96e, 24, 15, 0xab9423a7) == 0xb298cefd
    ensures I(0xb298cefd, 0xf4e8e96e, 0x7b201df8) == 0x42370791 && Mix(0x42370791, 0x7beb9700, 0xb298cefd, 0, 21, 0xfc93a039) == 0x8bf025c4
    ensures I(0x8bf025c4, 0xb298cefd, 0xf4e8e96e) == 0x396ff928 && Mix(0x396ff928, 0x7b201df8, 0x8bf025c4, 0, 6, 0x655b59c3) == 0x06cc5e8a
    ensures I(0x06cc5e8a, 0x8bf025c4, 0xb298cefd) == 0xc41f5a4e && Mix(0xc41f5a4e, 0xf4e8e96e, 0x06cc5e8a, 0, 10, 0x8f0ccc92) == 0x5b0d97aa
    ensures I(0x5b0d97aa, 0x06cc5e8a, 0x8bf025c4) == 0x79c38131 && Mix(0x79c38131, 0xb298cefd, 0x5b0d97aa, 0, 15, 0xffeff47d) == 0x7d632dd0
    ensures I(0x7d632dd0, 0x5b0d97aa, 0x06cc5e8a) == 0xa67e3a5f && Mix(0xa67e3a5f, 0x8bf025c4, 0x7d632dd0, 0, 21, 0x85845dd1) == 0x3bfa2c27
    ensures I(0x3bfa2c27, 0x7d632dd0, 0x5b0d97aa) == 0xc29941a7 && Mix(0xc29941a7, 0x06cc5e8a, 0x3bfa2c27, 0, 6, 0x6fa87e4f) == 0x7f81cc35
    ensures I(0x7f81cc35, 0x3bfa2c27, 0x7d632dd0) == 0xc467f218 && Mix(0xc467f218, 0x5b0d97aa, 0x7f81cc35, 0, 10, 0xfe2ce6e0) == 0x094454ab
    ensures I(0x094454ab, 0x7f81cc35, 0x3bfa2c27) == 0xb2c41bce && Mix(0xb2c41bce, 0x7d632dd0, 0x094454ab, 0, 15, 0xa3014314) == 0x4f9dbe3f
    ensures I(0x4f9dbe3f, 0x094454ab, 0x7f81cc35) == 0xc6bbeb54 && Mix(0xc6bbeb54, 0x3bfa2c27, 0x4f9dbe3f, 0, 21, 0x4e0811a1) == 0x7327d604
    ensures I(0x7327d604, 0x4f9dbe3f, 0x094454ab) == 0xb822416b && Mix(0xb822416b, 0x7f81cc35, 0x7327d604, 0, 6, 0xf7537e82) == 0x310ade8f
    ensures I(0x310ade8f, 0x7327d604, 0x4f9dbe3f) == 0xc24d09cb && Mix(0xc24d09cb, 0x094454ab, 0x310ade8f, 0, 10, 0xbd3af235) == 0x624d8cb2
    ensures I(0x624d8cb2, 0x310ade8f, 0x7327d604) == 0xdfd77374 && Mix(0xdfd77374, 0x4f9dbe3f, 0x624d8cb2, 0, 15, 0x2ad7d2bb) == 0xe484b9d8
    ensures I(0xe484b9d8, 0x624d8cb2, 0x310ade8f) == 0x8cb8354a && Mix(0x8cb8354a, 0x7327d604, 0xe484b9d8, 0, 21, 0xeb86d391) == 0xc08226b3
  {
  }

  lemma Rounds(i: nat, x: word, y: word, z: word)
    ensures i < 16 ==> Aux(i, x, y, z) == F(x, y, z)
    ensures 16 <= i < 32 ==> Aux(i, x, y, z) == G(x, y, z)
    ensures 32 <= i < 48 ==> Aux(i, x, y, z) == H(x, y, z)
    ensures 48 <= i ==> Aux(i, x, y, z) == I(x, y, z)
  {
    hide F, G, H, I;
  }

  lemma Places()
    ensures X[0] == 0x80636261 && X[14] == 24 && forall k :: 0 < k < 16 && k != 14 ==> X[k] == 0
  {
  }

  /** A step that computes the word `w`. */
  lemma Next(i: nat, a: word, b: word, c: word, d: word, w: word)
    requires i < 64 && Steps(i, Initial, X) == Regs(a, b, c, d)
    requires Mix(Aux(i, b, c, d), a, b, X[K(i)], Shift(i), T(i)) == w
    ensures Steps(i + 1, Initial, X) == Regs(d, w, b, c)
  {
    hide Aux, K, Shift, T, Mix;
  }

  lemma Trace1()
    requires Steps(0, Initial, X) == Regs(0x67452301, 0xefcdab89, 0x98badcfe, 0x10325476)
    ensures Steps(16, Initial, X) == Regs(0xdda9b9a6, 0x72aff2e0, 0xe396856b, 0xa1051895)
  {
    hide Steps, Aux, F, G, H, I, Mix, K, Shift, T;
    Places();
    Md5.Table1();
    Words1();
    Rounds(0, 0xefcdab89, 0x98badcfe, 0x10325476);
    Next(0, 0x67452301, 0xefcdab89, 0x98badcfe, 0x10325476, 0xd6d117b4);
    Rounds(1, 0xd6d117b4, 0xefcdab89, 0x98badcfe);
    Next(1, 0x10325476, 0xd6d117b4, 0xefcdab89, 0x98badcfe, 0x344a8432);
    Rounds(2, 0x344a8432, 0xd6d117b4, 0xefcdab89);
    Next(2, 0x98badcfe, 0x344a8432, 0xd6d117b4, 0xefcdab89, 0x2f6fbd72);
    Rounds(3, 0x2f6fbd72, 0x344a8432, 0xd6d117b4);
    Next(3, 0xefcdab89, 0x2f6fbd72, 0x344a8432, 0xd6d117b4, 0x7ad956f2);
    Rounds(4, 0x7ad956f2, 0x2f6fbd72, 0x344a8432);
    Next(4, 0xd6d117b4, 0x7ad956f2, 0x2f6fbd72, 0x344a8432, 0xc73741ef);
    Rounds(5, 0xc73741ef, 0x7ad956f2, 0x2f6fbd72);
    Next(5, 0x344a8432, 0xc73741ef, 0x7ad956f2, 0x2f6fbd72, 0x8bac3051);
    Rounds(6, 0x8bac3051, 0xc73741ef, 0x7ad956f2);
    Next(6, 0x2f6fbd72, 0x8bac3051, 0xc73741ef, 0x7ad956f2, 0x207dc67b);
    Rounds(7, 0x207dc67b, 0x8bac3051, 0xc73741ef);
    Next(7, 0x7ad956f2, 0x207dc67b, 0x8bac3051, 0xc73741ef, 0x928d99f6);
    Rounds(8, 0x928d99f6, 0x207dc67b, 0x8bac3051);
    Next(8, 0xc73741ef, 0x928d99f6, 0x207dc67b, 0x8bac3051, 0x854b3712);
    Rounds(9, 0x854b3712, 0x928d99f6, 0x207dc67b);
    Next(9, 0x8bac3051, 0x854b3712, 0x928d99f6, 0x207dc67b, 0x74e2f284);
    Rounds(10, 0x74e2f284, 0x854b3712, 0x928d99f6);
    Next(10, 0x207dc67b, 0x74e2f284, 0x854b3712, 0x928d99f6, 0x3020401c);
    Rounds(11, 0x3020401c, 0x74e2f284, 0x854b3712);
    Next(11, 0x928d99f6, 0x3020401c, 0x74e2f284, 0x854b3712, 0x5ed49596);
    Rounds(12, 0x5ed49596, 0x3020401c, 0x74e2f284);
    Next(12, 0x854b3712, 0x5ed49596, 0x3020401c, 0x74e2f284, 0xdda9b9a6);
    Rounds(13, 0xdda9b9a6, 0x5ed49596, 0x3020401c);
    Next(13, 0x74e2f284, 0xdda9b9a6, 0x5ed49596, 0x3020401c, 0xa1051895);
    Rounds(14, 0xa1051895, 0xdda9b9a6, 0x5ed49596);
    Next(14, 0x3020401c, 0xa1051895, 0xdda9b9a6, 0x5ed49596, 0xe396856b);
    Rounds(15, 0xe396856b, 0xa1051895, 0xdda9b9a6);
    Next(15, 0x5ed49596, 0xe396856b, 0xa1051895, 0xdda9b9a6, 0x72aff2e0);
  }

  lemma Trace2()
    requires Steps(16, Initial, X) == Regs(0xdda9b9a6, 0x72aff2e0, 0xe396856b, 0xa1051895)
    ensures Steps(32, Initial, X) == Regs(0x790a77fb, 0x726342d3, 0xa62884aa, 0x9f47e4f8)
  {
    hide Steps, Aux, F, G, H, I, Mix, K, Shift, T;
    Places();
    Md5.Table2();
    Words2();
    Rounds(16, 0x72aff2e0, 0xe396856b, 0xa1051895);
    Next(16, 0xdda9b9a6, 0x72aff2e0, 0xe396856b, 0xa1051895, 0x3e9e9126);
    Rounds(17, 0x3e9e9126, 0x72aff2e0, 0xe396856b);
    Next(17, 0xa1051895, 0x3e9e9126, 0x72aff2e0, 0xe396856b, 0x4a1d804e);
    Rounds(18, 0x4a1d804e, 0x3e9e9126, 0x72aff2e0);
    Next(18, 0xe396856b, 0x4a1d804e, 0x3e9e9126, 0x72aff2e0, 0xe25e1652);
    Rounds(19, 0xe25e1652, 0x4a1d804e, 0x3e9e9126);
    Next(19, 0x72aff2e0, 0xe25e1652, 0x4a1d804e, 0x3e9e9126, 0xb5b204e4);
    Rounds(20, 0xb5b204e4, 0xe25e1652, 0x4a1d804e);
    Next(20, 0x3e9e9126, 0xb5b204e4, 0xe25e1652, 0x4a1d804e, 0x59a8ffda);
    Rounds(21, 0x59a8ffda, 0xb5b204e4, 0xe25e1652);
    Next(21, 0x4a1d804e, 0x59a8ffda, 0xb5b204e4, 0xe25e1652, 0x6d002f1e);
    Rounds(22, 0x6d002f1e, 0x59a8ffda, 0xb5b204e4);
    Next(22, 0xe25e1652, 0x6d002f1e, 0x59a8ffda, 0xb5b204e4, 0xabfc7920);
    Rounds(23, 0xabfc7920, 0x6d002f1e, 0x59a8ffda);
    Next(23, 0xb5b204e4, 0xabfc7920, 0x6d002f1e, 0x59a8ffda, 0x47092c07);
    Rounds(24, 0x47092c07, 0xabfc7920, 0x6d002f1e);
    Next(24, 0x59a8ffda, 0x47092c07, 0xabfc7920, 0x6d002f1e, 0xb7f268cf);
    Rounds(25, 0xb7f268cf, 0x47092c07, 0xabfc7920);
    Next(25, 0x6d002f1e, 0xb7f268cf, 0x47092c07, 0xabfc7920, 0x09388eff);
    Rounds(26, 0x09388eff, 0xb7f268cf, 0x47092c07);
    Next(26, 0xabfc7920, 0x09388eff, 0xb7f268cf, 0x47092c07, 0xfe1623b1);
    Rounds(27, 0xfe1623b1, 0x09388eff, 0xb7f268cf);
    Next(27, 0x47092c07, 0xfe1623b1, 0x09388eff, 0xb7f268cf, 0x786acb8f);
    Rounds(28, 0x786acb8f, 0xfe1623b1, 0x09388eff);
    Next(28, 0xb7f268cf, 0x786acb8f, 0xfe1623b1, 0x09388eff, 0x790a77fb);
    Rounds(29, 0x790a77fb, 0x786acb8f, 0xfe1623b1);
    Next(29, 0x09388eff, 0x790a77fb, 0x786acb8f, 0xfe1623b1, 0x9f47e4f8);
    Rounds(30, 0x9f47e4f8, 0x790a77fb, 0x786acb8f);
    Next(30, 0xfe1623b1, 0x9f47e4f8, 0x790a77fb, 0x786acb8f, 0xa62884aa);
    Rounds(31, 0xa62884aa, 0x9f47e4f8, 0x790a77fb);
    Next(31, 0x786acb8f, 0xa62884aa, 0x9f47e4f8, 0x790a77fb, 0x726342d3);
  }

  lemma Trace3()
    requires Steps(32, Initial, X) == Regs(0x790a77fb, 0x726342d3, 0xa62884aa, 0x9f47e4f8)
    ensures Steps(48, Initial, X) == Regs(0x7f2e507b, 0x7beb9700, 0x8fae6399, 0x99d9679d)
  {
    hide Steps, Aux, F, G, H, I, Mix, K, Shift, T;
    Places();
    Md5.Table3();
    Words3();
    Rounds(32, 0x726342d3, 0xa62884aa, 0x9f47e4f8);
    Next(32, 0x790a77fb, 0x726342d3, 0xa62884aa, 0x9f47e4f8, 0xb3707ebf);
    Rounds(33, 0xb3707ebf, 0x726342d3, 0xa62884aa);
    Next(33, 0x9f47e4f8, 0xb3707ebf, 0x726342d3, 0xa62884aa, 0x60127b2e);
    Rounds(34, 0x60127b2e, 0xb3707ebf, 0x726342d3);
    Next(34, 0xa62884aa, 0x60127b2e, 0xb3707ebf, 0x726342d3, 0x8d212ff5);
    Rounds(35, 0x8d212ff5, 0x60127b2e, 0xb3707ebf);
    Next(35, 0x726342d3, 0x8d212ff5, 0x60127b2e, 0xb3707ebf, 0x3b0875c7);
    Rounds(36, 0x3b0875c7, 0x8d212ff5, 0x60127b2e);
    Next(36, 0xb3707ebf, 0x3b0875c7, 0x8d212ff5, 0x60127b2e, 0x21b117b9);
    Rounds(37, 0x21b117b9, 0x3b0875c7, 0x8d212ff5);
    Next(37, 0x60127b2e, 0x21b117b9, 0x3b0875c7, 0x8d212ff5, 0x6e7429d5);
    Rounds(38, 0x6e7429d5, 0x21b117b9, 0x3b0875c7);
    Next(38, 0x8d212ff5, 0x6e7429d5, 0x21b117b9, 0x3b0875c7, 0x3575227e);
    Rounds(39, 0x3575227e, 0x6e7429d5, 0x21b117b9);
    Next(39, 0x3b0875c7, 0x3575227e, 0x6e7429d5, 0x21b117b9, 0x5a2f5ea5);
    Rounds(40, 0x5a2f5ea5, 0x3575227e, 0x6e7429d5);
    Next(40, 0x21b117b9, 0x5a2f5ea5, 0x3575227e, 0x6e7429d5, 0x11de1779);
    Rounds(41, 0x11de1779, 0x5a2f5ea5, 0x3575227e);
    Next(41, 0x6e7429d5, 0x11de1779, 0x5a2f5ea5, 0x3575227e, 0xfadcaa38);
    Rounds(42, 0xfadcaa38, 0x11de1779, 0x5a2f5ea5);
    Next(42, 0x3575227e, 0xfadcaa38, 0x11de1779, 0x5a2f5ea5, 0x31c465ca);
    Rounds(43, 0x31c465ca, 0xfadcaa38, 0x11de1779);
    Next(43, 0x5a2f5ea5, 0x31c465ca, 0xfadcaa38, 0x11de1779, 0x4c6124f4);
    Rounds(44, 0x4c6124f4, 0x31c465ca, 0xfadcaa38);
    Next(44, 0x11de1779, 0x4c6124f4, 0x31c465ca, 0xfadcaa38, 0x7f2e507b);
    Rounds(45, 0x7f2e507b, 0x4c6124f4, 0x31c465ca);
    Next(45, 0xfadcaa38, 0x7f2e507b, 0x4c6124f4, 0x31c465ca, 0x99d9679d);
    Rounds(46, 0x99d9679d, 0x7f2e507b, 0x4c6124f4);
    Next(46, 0x31c465ca, 0x99d9679d, 0x7f2e507b, 0x4c6124f4, 0x8fae6399);
    Rounds(47, 0x8fae6399, 0x99d9679d, 0x7f2e507b);
    Next(47, 0x4c6124f4, 0x8fae6399, 0x99d9679d, 0x7f2e507b, 0x7beb9700);
  }

  lemma Trace4()
    requires Steps(48, Initial, X) == Regs(0x7f2e507b, 0x7beb9700, 0x8fae6399, 0x99d9679d)
    ensures Steps(64, Initial, X) == Regs(0x310ade8f, 0xc08226b3, 0xe484b9d8, 0x624d8cb2)
  {
    hide Steps, Aux, F, G, H, I, Mix, K, Shift, T;
    Places();
    Md5.Table4();
    Words4();
    Rounds(48, 0x7beb9700, 0x8fae6399, 0x99d9679d);
    Next(48, 0x7f2e507b, 0x7beb9700, 0x8fae6399, 0x99d9679d, 0x7b201df8);
    Rounds(49, 0x7b201df8, 0x7beb9700, 0x8fae6399);
    Next(49, 0x99d9679d, 0x7b201df8, 0x7beb9700, 0x8fae6399, 0xf4e8e96e);
    Rounds(50, 0xf4e8e96e, 0x7b201df8, 0x7beb9700);
    Next(50, 0x8fae6399, 0xf4e8e96e, 0x7b201df8, 0x7beb9700, 0xb298cefd);
    Rounds(51, 0xb298cefd, 0xf4e8e96e, 0x7b201df8);
    Next(51, 0x7beb9700, 0xb298cefd, 0xf4e8e96e, 0x7b201df8, 0x8bf025c4);
    Rounds(52, 0x8bf025c4, 0xb298cefd, 0xf4e8e96e);
    Next(52, 0x7b201df8, 0x8bf025c4, 0xb298cefd, 0xf4e8e96e, 0x06cc5e8a);
    Rounds(53, 0x06cc5e8a, 0x8bf025c4, 0xb298cefd);
    Next(53, 0xf4e8e96e, 0x06cc5e8a, 0x8bf025c4, 0xb298cefd, 0x5b0d97aa);
    Rounds(54, 0x5b0d97aa, 0x06cc5e8a, 0x8bf025c4);
    Next(54, 0xb298cefd, 0x5b0d97aa, 0x06cc5e8a, 0x8bf025c4, 0x7d632dd0);
    Rounds(55, 0x7d632dd0, 0x5b0d97aa, 0x06cc5e8a);
    Next(55, 0x8bf025c4, 0x7d632dd0, 0x5b0d97aa, 0x06cc5e8a, 0x3bfa2c27);
    Rounds(56, 0x3bfa2c27, 0x7d632dd0, 0x5b0d97aa);
    Next(56, 0x06cc5e8a, 0x3bfa2c27, 0x7d632dd0, 0x5b0d97aa, 0x7f81cc35);
    Rounds(57, 0x7f81cc35, 0x3bfa2c27, 0x7d632dd0);
    Next(57, 0x5b0d97aa, 0x7f81cc35, 0x3bfa2c27, 0x7d632dd0, 0x094454ab);
    Rounds(58, 0x094454ab, 0x7f81cc35, 0x3bfa2c27);
    Next(58, 0x7d632dd0, 0x094454ab, 0x7f81cc35, 0x3bfa2c27, 0x4f9dbe3f);
    Rounds(59, 0x4f9dbe3f, 0x094454ab, 0x7f81cc35);
    Next(59, 0x3bfa2c27, 0x4f9dbe3f, 0x094454ab, 0x7f81cc35, 0x7327d604);
    Rounds(60, 0x7327d604, 0x4f9dbe3f, 0x094454ab);
    Next(60, 0x7f81cc35, 0x7327d604, 0x4f9dbe3f, 0x094454ab, 0x310ade8f);
    Rounds(61, 0x310ade8f, 0x7327d604, 0x4f9dbe3f);
    Next(61, 0x094454ab, 0x310ade8f, 0x7327d604, 0x4f9dbe3f, 0x624d8cb2);
    Rounds(62, 0x624d8cb2, 0x310ade8f, 0x7327d604);
    Next(62, 0x4f9dbe3f, 0x624d8cb2, 0x310ade8f, 0x7327d604, 0xe484b9d8);
    Rounds(63, 0xe484b9d8, 0x624d8cb2, 0x310ade8f);
    Next(63, 0x7327d604, 0xe484b9d8, 0x624d8cb2, 0x310ade8f, 0xc08226b3);
  }

  lemma AbcBlock()
    ensures Block(Initial, X) == Regs(0x98500190, 0xb04fd23c, 0x7d3f96d6, 0x727fe128)
  {
    hide Step;
    assert Steps(0, Initial, X) == Initial;
    hide Steps;
    Trace1();
    Trace2();
    Trace3();
    Trace4();
  }

  lemma {:induction false} NoBytes(k: nat)
    ensures LittleEndian(0, k) == Zeros(k)
  {
    if k > 0 {
      NoBytes(k - 1);
      assert Zeros(k) == [0] + Zeros(k - 1);
    }
  }

  lemma TwentyFour()
    ensures LittleEndian(24, 8) == [24] + Zeros(7)
  {
    NoBytes(7);
  }

  lemma AbcLength()
    ensures LengthField(3) == [24] + Zeros(7)
  {
    TwentyFour();
    hide LittleEndian;
    assert BitCount(3) == 24;
  }

  lemma AbcPadding()
    ensures Padding(3) == [0x80] + Zeros(52)
  {
    assert PadLength(3) == 53;
  }

  lemma AbcPadded()
    ensures Padded(Abc) == Abc + ([0x80] + Zeros(52)) + ([24] + Zeros(7))
  {
    hide LengthField, Padding, Zeros, PadLength;
    AbcLength();
    AbcPadding();
  }

  lemma AbcWords()
    ensures |Padded(Abc)| == 64 && Words(Padded(Abc)) == X
  {
    hide Padded;
    AbcPadded();
    var p := Padded(Abc);
    forall k | 0 <= k < 16 ensures Word(p[4 * k..4 * k + 4]) == X[k] {
      var w := p[4 * k..4 * k + 4];
      if k == 0 {
        assert w == [0x61, 0x62, 0x63, 0x80];
      } else if k == 14 {
        assert w == [24, 0, 0, 0];
      } else {
        assert w == [0, 0, 0, 0];
      }
    }
  }

  lemma AbcBytes()
    ensures WordBytes(0x98500190) == [0x90, 0x01, 0x50, 0x98]
    ensures WordBytes(0xb04fd23c) == [0x3c, 0xd2, 0x4f, 0xb0]
    ensures WordBytes(0x7d3f96d6) == [0xd6, 0x96, 0x3f, 0x7d]
    ensures WordBytes(0x727fe128) == [0x28, 0xe1, 0x7f, 0x72]
  {
  }

  /** MD5 ("abc") = 900150983cd24fb0d6963f7d28e17f72 */
  lemma AbcDigest()
    ensures Digest(Abc) == [0x90, 0x01, 0x50, 0x98, 0x3c, 0xd2, 0x4f, 0xb0, 0xd6, 0x96, 0x3f, 0x7d, 0x28, 0xe1, 0x7f, 0x72]
  {
    hide Padded, Words, Block, Blocks, WordBytes;
    AbcWords();
    OneBlock(Initial, Padded(Abc));
    AbcBlock();
    AbcBytes();
    assert Digest(Abc) == Output(Regs(0x98500190, 0xb04fd23c, 0x7d3f96d6, 0x727fe128));
  }
}
