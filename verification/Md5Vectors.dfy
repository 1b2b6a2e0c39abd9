/**
 Known digests. They pin what the hasher and its specification share: the rotation, the
 word order, the addition, the tables and the start values.

 The steps of a block are followed on literal words: first the value each step computes,
 then the registers it leaves.
 */
module Md5Vectors {
  import opened Bytes
  import opened Md5Spec
  import BitLengths

  /** The circular shift is the one built into bit vectors, by each amount that is used. */
  lemma RotationIs(x: bv32)
    ensures RotateLeft(x, 7) == x.RotateLeft(7) && RotateLeft(x, 12) == x.RotateLeft(12)
    ensures RotateLeft(x, 17) == x.RotateLeft(17) && RotateLeft(x, 22) == x.RotateLeft(22)
    ensures RotateLeft(x, 5) == x.RotateLeft(5) && RotateLeft(x, 9) == x.RotateLeft(9)
    ensures RotateLeft(x, 14) == x.RotateLeft(14) && RotateLeft(x, 20) == x.RotateLeft(20)
    ensures RotateLeft(x, 4) == x.RotateLeft(4) && RotateLeft(x, 11) == x.RotateLeft(11)
    ensures RotateLeft(x, 16) == x.RotateLeft(16) && RotateLeft(x, 23) == x.RotateLeft(23)
    ensures RotateLeft(x, 6) == x.RotateLeft(6) && RotateLeft(x, 10) == x.RotateLeft(10)
    ensures RotateLeft(x, 15) == x.RotateLeft(15) && RotateLeft(x, 21) == x.RotateLeft(21)
  {
  }

  // ---------------------------------------------------------------------
  // The constants of the steps
  // ---------------------------------------------------------------------

  lemma Constants1()
    ensures T(0) == 0xd76aa478 && Shift(0) == 7 && WordIndex(0) == 0
    ensures T(1) == 0xe8c7b756 && Shift(1) == 12 && WordIndex(1) == 1
    ensures T(2) == 0x242070db && Shift(2) == 17 && WordIndex(2) == 2
    ensures T(3) == 0xc1bdceee && Shift(3) == 22 && WordIndex(3) == 3
    ensures T(4) == 0xf57c0faf && Shift(4) == 7 && WordIndex(4) == 4
    ensures T(5) == 0x4787c62a && Shift(5) == 12 && WordIndex(5) == 5
    ensures T(6) == 0xa8304613 && Shift(6) == 17 && WordIndex(6) == 6
    ensures T(7) == 0xfd469501 && Shift(7) == 22 && WordIndex(7) == 7
    ensures T(8) == 0x698098d8 && Shift(8) == 7 && WordIndex(8) == 8
    ensures T(9) == 0x8b44f7af && Shift(9) == 12 && WordIndex(9) == 9
    ensures T(10) == 0xffff5bb1 && Shift(10) == 17 && WordIndex(10) == 10
    ensures T(11) == 0x895cd7be && Shift(11) == 22 && WordIndex(11) == 11
    ensures T(12) == 0x6b901122 && Shift(12) == 7 && WordIndex(12) == 12
    ensures T(13) == 0xfd987193 && Shift(13) == 12 && WordIndex(13) == 13
    ensures T(14) == 0xa679438e && Shift(14) == 17 && WordIndex(14) == 14
    ensures T(15) == 0x49b40821 && Shift(15) == 22 && WordIndex(15) == 15
  {
  }

  lemma Constants2()
    ensures T(16) == 0xf61e2562 && Shift(16) == 5 && WordIndex(16) == 1
    ensures T(17) == 0xc040b340 && Shift(17) == 9 && WordIndex(17) == 6
    ensures T(18) == 0x265e5a51 && Shift(18) == 14 && WordIndex(18) == 11
    ensures T(19) == 0xe9b6c7aa && Shift(19) == 20 && WordIndex(19) == 0
    ensures T(20) == 0xd62f105d && Shift(20) == 5 && WordIndex(20) == 5
    ensures T(21) == 0x02441453 && Shift(21) == 9 && WordIndex(21) == 10
    ensures T(22) == 0xd8a1e681 && Shift(22) == 14 && WordIndex(22) == 15
    ensures T(23) == 0xe7d3fbc8 && Shift(23) == 20 && WordIndex(23) == 4
    ensures T(24) == 0x21e1cde6 && Shift(24) == 5 && WordIndex(24) == 9
    ensures T(25) == 0xc33707d6 && Shift(25) == 9 && WordIndex(25) == 14
    ensures T(26) == 0xf4d50d87 && Shift(26) == 14 && WordIndex(26) == 3
    ensures T(27) == 0x455a14ed && Shift(27) == 20 && WordIndex(27) == 8
    ensures T(28) == 0xa9e3e905 && Shift(28) == 5 && WordIndex(28) == 13
    ensures T(29) == 0xfcefa3f8 && Shift(29) == 9 && WordIndex(29) == 2
    ensures T(30) == 0x676f02d9 && Shift(30) == 14 && WordIndex(30) == 7
    ensures T(31) == 0x8d2a4c8a && Shift(31) == 20 && WordIndex(31) == 12
  {
  }

  lemma Constants3()
    ensures T(32) == 0xfffa3942 && Shift(32) == 4 && WordIndex(32) == 5
    ensures T(33) == 0x8771f681 && Shift(33) == 11 && WordIndex(33) == 8
    ensures T(34) == 0x6d9d6122 && Shift(34) == 16 && WordIndex(34) == 11
    ensures T(35) == 0xfde5380c && Shift(35) == 23 && WordIndex(35) == 14
    ensures T(36) == 0xa4beea44 && Shift(36) == 4 && WordIndex(36) == 1
    ensures T(37) == 0x4bdecfa9 && Shift(37) == 11 && WordIndex(37) == 4
    ensures T(38) == 0xf6bb4b60 && Shift(38) == 16 && WordIndex(38) == 7
    ensures T(39) == 0xbebfbc70 && Shift(39) == 23 && WordIndex(39) == 10
    ensures T(40) == 0x289b7ec6 && Shift(40) == 4 && WordIndex(40) == 13
    ensures T(41) == 0xeaa127fa && Shift(41) == 11 && WordIndex(41) == 0
    ensures T(42) == 0xd4ef3085 && Shift(42) == 16 && WordIndex(42) == 3
    ensures T(43) == 0x04881d05 && Shift(43) == 23 && WordIndex(43) == 6
    ensures T(44) == 0xd9d4d039 && Shift(44) == 4 && WordIndex(44) == 9
    ensures T(45) == 0xe6db99e5 && Shift(45) == 11 && WordIndex(45) == 12
    ensures T(46) == 0x1fa27cf8 && Shift(46) == 16 && WordIndex(46) == 15
    ensures T(47) == 0xc4ac5665 && Shift(47) == 23 && WordIndex(47) == 2
  {
  }

  lemma Constants4()
    ensures T(48) == 0xf4292244 && Shift(48) == 6 && WordIndex(48) == 0
    ensures T(49) == 0x432aff97 && Shift(49) == 10 && WordIndex(49) == 7
    ensures T(50) == 0xab9423a7 && Shift(50) == 15 && WordIndex(50) == 14
    ensures T(51) == 0xfc93a039 && Shift(51) == 21 && WordIndex(51) == 5
    ensures T(52) == 0x655b59c3 && Shift(52) == 6 && WordIndex(52) == 12
    ensures T(53) == 0x8f0ccc92 && Shift(53) == 10 && WordIndex(53) == 3
    ensures T(54) == 0xffeff47d && Shift(54) == 15 && WordIndex(54) == 10
    ensures T(55) == 0x85845dd1 && Shift(55) == 21 && WordIndex(55) == 1
    ensures T(56) == 0x6fa87e4f && Shift(56) == 6 && WordIndex(56) == 8
    ensures T(57) == 0xfe2ce6e0 && Shift(57) == 10 && WordIndex(57) == 15
    ensures T(58) == 0xa3014314 && Shift(58) == 15 && WordIndex(58) == 6
    ensures T(59) == 0x4e0811a1 && Shift(59) == 21 && WordIndex(59) == 13
    ensures T(60) == 0xf7537e82 && Shift(60) == 6 && WordIndex(60) == 4
    ensures T(61) == 0xbd3af235 && Shift(61) == 10 && WordIndex(61) == 11
    ensures T(62) == 0x2ad7d2bb && Shift(62) == 15 && WordIndex(62) == 2
    ensures T(63) == 0xeb86d391 && Shift(63) == 21 && WordIndex(63) == 9
  {
  }

  // ---------------------------------------------------------------------
  // Following a block
  // ---------------------------------------------------------------------

  /** After `i` steps from the start the registers are these. */
  predicate At(words: seq<bv32>, i: nat, a: bv32, b: bv32, c: bv32, d: bv32) {
    |words| == 16 && i <= 64 && Steps(RFC, START, words, 0, i) == Registers(a, b, c, d)
  }

  lemma Next(words: seq<bv32>, i: nat, word: bv32, s: bv6, t: bv32, a: bv32, b: bv32, c: bv32, d: bv32, value: bv32)
    requires i < 64 && At(words, i, a, b, c, d)
    requires words[WordIndex(i)] == word && Shift(i) == s && T(i) == t
    requires value == Mix(
      if i < 16 then F(b, c, d) else if i < 32 then G(b, c, d) else if i < 48 then H(b, c, d) else I(b, c, d),
      a, b, word, s, t)
    ensures At(words, i + 1, d, value, b, c)
  {
    hide Mix, F, G, H, I, T, Shift, WordIndex;
  }

  lemma WordIs(block: seq<byte>, k: nat, b0: byte, b1: byte, b2: byte, b3: byte, word: bv32)
    requires |block| == 64 && k < 16 && block[4 * k] == b0 && block[4 * k + 1] == b1
    requires block[4 * k + 2] == b2 && block[4 * k + 3] == b3
    requires b0 as nat + 256 * b1 as nat + 65536 * b2 as nat + 16777216 * b3 as nat == word as nat
    ensures WordsOf(block)[k] == word
  {
    assert block[4 * k..4 * k + 4] == [b0, b1, b2, b3];
    FourDigits([b0, b1, b2, b3]);
    hide FromLittleEndian;
    WordValue([b0, b1, b2, b3], word);
    hide Word;
  }

  lemma WordValue(bytes: seq<byte>, word: bv32)
    requires |bytes| == 4 && FromLittleEndian(bytes) == word as nat
    ensures Word(bytes) == word
  {
    hide FromLittleEndian;
  }

  lemma BytesOf(n: nat, b0: byte, b1: byte, b2: byte, b3: byte)
    requires n == b0 as nat + 256 * b1 as nat + 65536 * b2 as nat + 16777216 * b3 as nat
    ensures LittleEndian(n) == [b0, b1, b2, b3]
  {
    FourDigits([b0, b1, b2, b3]);
    DigitsOfValue([b0, b1, b2, b3]);
  }

  lemma WordBytes(x: bv32, b0: byte, b1: byte, b2: byte, b3: byte)
    requires x as nat == b0 as nat + 256 * b1 as nat + 65536 * b2 as nat + 16777216 * b3 as nat
    ensures LittleEndian(x as nat) == [b0, b1, b2, b3]
  {
    BytesOf(x as nat, b0, b1, b2, b3);
  }

  /** The digest of a message that fits one block: the registers after it are added to the start values. */
  lemma DigestIs(message: seq<byte>, s: Registers<bv32>, r: Registers<bv32>)
    requires |Padded(message)| == 64 && At(WordsOf(Padded(message)), 64, s.a, s.b, s.c, s.d)
    requires r.a == Plus(START.a, s.a) && r.b == Plus(START.b, s.b)
    requires r.c == Plus(START.c, s.c) && r.d == Plus(START.d, s.d)
    ensures MessageDigest(message) == Output(r)
  {
    hide Padded, WordsOf, Output, Plus, Steps;
    OneBlock(Padded(message));
    hide Absorb;
  }

  lemma OneBlock(block: seq<byte>)
    requires |block| == 64
    ensures Absorb(START, block) == Process(START, block)
  {
    hide Process;
    assert block[..0] == [] && block[0..] == block;
  }

  // ---------------------------------------------------------------------
  // The empty message (section A.5 of RFC 1321)
  // ---------------------------------------------------------------------

  predicate EmptyWords(words: seq<bv32>) {
    && |words| == 16
    && words[0] == 0x00000080 && words[1] == 0x00000000 && words[2] == 0x00000000 && words[3] == 0x00000000
    && words[4] == 0x00000000 && words[5] == 0x00000000 && words[6] == 0x00000000 && words[7] == 0x00000000
    && words[8] == 0x00000000 && words[9] == 0x00000000 && words[10] == 0x00000000 && words[11] == 0x00000000
    && words[12] == 0x00000000 && words[13] == 0x00000000 && words[14] == 0x00000000 && words[15] == 0x00000000
  }

  lemma EmptySteps1(words: seq<bv32>)
    requires EmptyWords(words) && At(words, 0, 0x67452301, 0xefcdab89, 0x98badcfe, 0x10325476)
    ensures At(words, 8, 0x32033344, 0x9bc13ce9, 0xf5b158db, 0x2f35d494)
  {
    Constants1();
    hide T, Shift, WordIndex, At;
    Next(words, 0, 0x00000080, 7, 0xd76aa478, 0x67452301, 0xefcdab89, 0x98badcfe, 0x10325476, 0xa5202774);
    Next(words, 1, 0x00000000, 12, 0xe8c7b756, 0x10325476, 0xa5202774, 0xefcdab89, 0x98badcfe, 0xf59592dd);
    Next(words, 2, 0x00000000, 17, 0x242070db, 0x98badcfe, 0xf59592dd, 0xa5202774, 0xefcdab89, 0xe7f06b23);
    Next(words, 3, 0x00000000, 22, 0xc1bdceee, 0xefcdab89, 0xe7f06b23, 0xf59592dd, 0xa5202774, 0x1b163203);
    Next(words, 4, 0x00000000, 7, 0xf57c0faf, 0xa5202774, 0x1b163203, 0xe7f06b23, 0xf59592dd, 0x32033344);
    Next(words, 5, 0x00000000, 12, 0x4787c62a, 0xf59592dd, 0x32033344, 0x1b163203, 0xe7f06b23, 0x2f35d494);
    Next(words, 6, 0x00000000, 17, 0xa8304613, 0xe7f06b23, 0x2f35d494, 0x32033344, 0x1b163203, 0xf5b158db);
    Next(words, 7, 0x00000000, 22, 0xfd469501, 0x1b163203, 0xf5b158db, 0x2f35d494, 0x32033344, 0x9bc13ce9);
  }

  lemma EmptySteps2(words: seq<bv32>)
    requires EmptyWords(words) && At(words, 8, 0x32033344, 0x9bc13ce9, 0xf5b158db, 0x2f35d494)
    ensures At(words, 16, 0xf56c7cf1, 0xd6819c6a, 0x5aa53f75, 0x374943a7)
  {
    Constants1();
    hide T, Shift, WordIndex, At;
    Next(words, 8, 0x00000000, 7, 0x698098d8, 0x32033344, 0x9bc13ce9, 0xf5b158db, 0x2f35d494, 0x3893b991);
    Next(words, 9, 0x00000000, 12, 0x8b44f7af, 0x2f35d494, 0x3893b991, 0x9bc13ce9, 0xf5b158db, 0xfce4a312);
    Next(words, 10, 0x00000000, 17, 0xffff5bb1, 0xf5b158db, 0xfce4a312, 0x3893b991, 0x9bc13ce9, 0xe1ef0576);
    Next(words, 11, 0x00000000, 22, 0x895cd7be, 0x9bc13ce9, 0xe1ef0576, 0xfce4a312, 0x3893b991, 0x70768a29);
    Next(words, 12, 0x00000000, 7, 0x6b901122, 0x3893b991, 0x70768a29, 0xe1ef0576, 0xfce4a312, 0xf56c7cf1);
    Next(words, 13, 0x00000000, 12, 0xfd987193, 0xfce4a312, 0xf56c7cf1, 0x70768a29, 0xe1ef0576, 0x374943a7);
    Next(words, 14, 0x00000000, 17, 0xa679438e, 0xe1ef0576, 0x374943a7, 0xf56c7cf1, 0x70768a29, 0x5aa53f75);
    Next(words, 15, 0x00000000, 22, 0x49b40821, 0x70768a29, 0x5aa53f75, 0x374943a7, 0xf56c7cf1, 0xd6819c6a);
  }

  lemma EmptySteps3(words: seq<bv32>)
    requires EmptyWords(words) && At(words, 16, 0xf56c7cf1, 0xd6819c6a, 0x5aa53f75, 0x374943a7)
    ensures At(words, 24, 0x3d1e3e6c, 0xe422531a, 0xeb41643e, 0x68b7b3e3)
  {
    Constants2();
    hide T, Shift, WordIndex, At;
    Next(words, 16, 0x00000000, 5, 0xf61e2562, 0xf56c7cf1, 0xd6819c6a, 0x5aa53f75, 0x374943a7, 0x1c7d7513);
    Next(words, 17, 0x00000000, 9, 0xc040b340, 0x374943a7, 0x1c7d7513, 0xd6819c6a, 0x5aa53f75, 0x7bd57a3a);
    Next(words, 18, 0x00000000, 14, 0x265e5a51, 0x5aa53f75, 0x7bd57a3a, 0x1c7d7513, 0xd6819c6a, 0xc095f13a);
    Next(words, 19, 0x00000080, 20, 0xe9b6c7aa, 0xd6819c6a, 0xc095f13a, 0x7bd57a3a, 0x1c7d7513, 0xbd782e17);
    Next(words, 20, 0x00000000, 5, 0xd62f105d, 0x1c7d7513, 0xbd782e17, 0xc095f13a, 0x7bd57a3a, 0x3d1e3e6c);
    Next(words, 21, 0x00000000, 9, 0x02441453, 0x7bd57a3a, 0x3d1e3e6c, 0xbd782e17, 0xc095f13a, 0x68b7b3e3);
    Next(words, 22, 0x00000000, 14, 0xd8a1e681, 0xc095f13a, 0x68b7b3e3, 0x3d1e3e6c, 0xbd782e17, 0xeb41643e);
    Next(words, 23, 0x00000000, 20, 0xe7d3fbc8, 0xbd782e17, 0xeb41643e, 0x68b7b3e3, 0x3d1e3e6c, 0xe422531a);
  }

  lemma EmptySteps4(words: seq<bv32>)
    requires EmptyWords(words) && At(words, 24, 0x3d1e3e6c, 0xe422531a, 0xeb41643e, 0x68b7b3e3)
    ensures At(words, 32, 0x13707036, 0xa2205f1f, 0x1c31c384, 0xae7813db)
  {
    Constants2();
    hide T, Shift, WordIndex, At;
    Next(words, 24, 0x00000000, 5, 0x21e1cde6, 0x3d1e3e6c, 0xe422531a, 0xeb41643e, 0x68b7b3e3, 0x306ec122);
    Next(words, 25, 0x00000000, 9, 0xc33707d6, 0x68b7b3e3, 0x306ec122, 0xe422531a, 0xeb41643e, 0xd28c77c2);
    Next(words, 26, 0x00000000, 14, 0xf4d50d87, 0xeb41643e, 0xd28c77c2, 0x306ec122, 0xe422531a, 0xa3c663da);
    Next(words, 27, 0x00000000, 20, 0x455a14ed, 0xe422531a, 0xa3c663da, 0xd28c77c2, 0x306ec122, 0xa0572807);
    Next(words, 28, 0x00000000, 5, 0xa9e3e905, 0x306ec122, 0xa0572807, 0xa3c663da, 0xd28c77c2, 0x13707036);
    Next(words, 29, 0x00000000, 9, 0xfcefa3f8, 0xd28c77c2, 0x13707036, 0xa0572807, 0xa3c663da, 0xae7813db);
    Next(words, 30, 0x00000000, 14, 0x676f02d9, 0xa3c663da, 0xae7813db, 0x13707036, 0xa0572807, 0x1c31c384);
    Next(words, 31, 0x00000000, 20, 0x8d2a4c8a, 0xa0572807, 0x1c31c384, 0xae7813db, 0x13707036, 0xa2205f1f);
  }

  lemma EmptySteps5(words: seq<bv32>)
    requires EmptyWords(words) && At(words, 32, 0x13707036, 0xa2205f1f, 0x1c31c384, 0xae7813db)
    ensures At(words, 40, 0x5f7a9b2e, 0xc5dc8c15, 0x91ca4cb7, 0xabc34e16)
  {
    Constants3();
    hide T, Shift, WordIndex, At;
    Next(words, 32, 0x00000000, 4, 0xfffa3942, 0x13707036, 0xa2205f1f, 0x1c31c384, 0xae7813db, 0xdf63eaa1);
    Next(words, 33, 0x00000000, 11, 0x8771f681, 0xae7813db, 0xdf63eaa1, 0xa2205f1f, 0x1c31c384, 0xc3689f5b);
    Next(words, 34, 0x00000000, 16, 0x6d9d6122, 0x1c31c384, 0xc3689f5b, 0xdf63eaa1, 0xa2205f1f, 0x12f3e755);
    Next(words, 35, 0x00000000, 23, 0xfde5380c, 0xa2205f1f, 0x12f3e755, 0xc3689f5b, 0xdf63eaa1, 0x004b6669);
    Next(words, 36, 0x00000000, 4, 0xa4beea44, 0xdf63eaa1, 0x004b6669, 0x12f3e755, 0xc3689f5b, 0x5f7a9b2e);
    Next(words, 37, 0x00000000, 11, 0x4bdecfa9, 0xc3689f5b, 0x5f7a9b2e, 0x004b6669, 0x12f3e755, 0xabc34e16);
    Next(words, 38, 0x00000000, 16, 0xf6bb4b60, 0x12f3e755, 0xabc34e16, 0x5f7a9b2e, 0x004b6669, 0x91ca4cb7);
    Next(words, 39, 0x00000000, 23, 0xbebfbc70, 0x004b6669, 0x91ca4cb7, 0xabc34e16, 0x5f7a9b2e, 0xc5dc8c15);
  }

  lemma EmptySteps6(words: seq<bv32>)
    requires EmptyWords(words) && At(words, 40, 0x5f7a9b2e, 0xc5dc8c15, 0x91ca4cb7, 0xabc34e16)
    ensures At(words, 48, 0x3f55edfd, 0xca7d2dbd, 0x68d84ea2, 0x22a31f54)
  {
    Constants3();
    hide T, Shift, WordIndex, At;
    Next(words, 40, 0x00000000, 4, 0x289b7ec6, 0x5f7a9b2e, 0xc5dc8c15, 0x91ca4cb7, 0xabc34e16, 0x4497169d);
    Next(words, 41, 0x00000080, 11, 0xeaa127fa, 0xabc34e16, 0x4497169d, 0xc5dc8c15, 0x91ca4cb7, 0x76fd93d4);
    Next(words, 42, 0x00000000, 16, 0xd4ef3085, 0x91ca4cb7, 0x76fd93d4, 0x4497169d, 0xc5dc8c15, 0xfd95f243);
    Next(words, 43, 0x00000000, 23, 0x04881d05, 0xc5dc8c15, 0xfd95f243, 0x76fd93d4, 0x4497169d, 0x0fe32453);
    Next(words, 44, 0x00000000, 4, 0xd9d4d039, 0x4497169d, 0x0fe32453, 0xfd95f243, 0x76fd93d4, 0x3f55edfd);
    Next(words, 45, 0x00000000, 11, 0xe6db99e5, 0x76fd93d4, 0x3f55edfd, 0x0fe32453, 0xfd95f243, 0x22a31f54);
    Next(words, 46, 0x00000000, 16, 0x1fa27cf8, 0xfd95f243, 0x22a31f54, 0x3f55edfd, 0x0fe32453, 0x68d84ea2);
    Next(words, 47, 0x00000000, 23, 0xc4ac5665, 0x0fe32453, 0x68d84ea2, 0x22a31f54, 0x3f55edfd, 0xca7d2dbd);
  }

  lemma EmptySteps7(words: seq<bv32>)
    requires EmptyWords(words) && At(words, 48, 0x3f55edfd, 0xca7d2dbd, 0x68d84ea2, 0x22a31f54)
    ensures At(words, 56, 0x5625a114, 0x1e77fa61, 0x392ad0d0, 0x3450f42b)
  {
    Constants4();
    hide T, Shift, WordIndex, At;
    Next(words, 48, 0x00000080, 6, 0xf4292244, 0x3f55edfd, 0xca7d2dbd, 0x68d84ea2, 0x22a31f54, 0x93aa2577);
    Next(words, 49, 0x00000000, 10, 0x432aff97, 0x22a31f54, 0x93aa2577, 0xca7d2dbd, 0x68d84ea2, 0x1688dc85);
    Next(words, 50, 0x00000000, 15, 0xab9423a7, 0x68d84ea2, 0x1688dc85, 0x93aa2577, 0xca7d2dbd, 0xcd85b8cb);
    Next(words, 51, 0x00000000, 21, 0xfc93a039, 0xca7d2dbd, 0xcd85b8cb, 0x1688dc85, 0x93aa2577, 0x561e0689);
    Next(words, 52, 0x00000000, 6, 0x655b59c3, 0x93aa2577, 0x561e0689, 0xcd85b8cb, 0x1688dc85, 0x5625a114);
    Next(words, 53, 0x00000000, 10, 0x8f0ccc92, 0x1688dc85, 0x5625a114, 0x561e0689, 0xcd85b8cb, 0x3450f42b);
    Next(words, 54, 0x00000000, 15, 0xffeff47d, 0xcd85b8cb, 0x3450f42b, 0x5625a114, 0x561e0689, 0x392ad0d0);
    Next(words, 55, 0x00000000, 21, 0x85845dd1, 0x561e0689, 0x392ad0d0, 0x3450f42b, 0x5625a114, 0x1e77fa61);
  }

  lemma EmptySteps8(words: seq<bv32>)
    requires EmptyWords(words) && At(words, 56, 0x5625a114, 0x1e77fa61, 0x392ad0d0, 0x3450f42b)
    ensures At(words, 64, 0x7246fad3, 0x14e45506, 0xff4ea3eb, 0x6e10a476)
  {
    Constants4();
    hide T, Shift, WordIndex, At;
    Next(words, 56, 0x00000000, 6, 0x6fa87e4f, 0x5625a114, 0x1e77fa61, 0x392ad0d0, 0x3450f42b, 0x474a9c8c);
    Next(words, 57, 0x00000000, 10, 0xfe2ce6e0, 0x3450f42b, 0x474a9c8c, 0x1e77fa61, 0x392ad0d0, 0xdfce00bc);
    Next(words, 58, 0x00000000, 15, 0xa3014314, 0x392ad0d0, 0xdfce00bc, 0x474a9c8c, 0x1e77fa61, 0x36594b14);
    Next(words, 59, 0x00000000, 21, 0x4e0811a1, 0x1e77fa61, 0x36594b14, 0xdfce00bc, 0x474a9c8c, 0x30130182);
    Next(words, 60, 0x00000000, 6, 0xf7537e82, 0x474a9c8c, 0x30130182, 0x36594b14, 0xdfce00bc, 0x7246fad3);
    Next(words, 61, 0x00000000, 10, 0xbd3af235, 0xdfce00bc, 0x7246fad3, 0x30130182, 0x36594b14, 0x6e10a476);
    Next(words, 62, 0x00000000, 15, 0x2ad7d2bb, 0x36594b14, 0x6e10a476, 0x7246fad3, 0x30130182, 0xff4ea3eb);
    Next(words, 63, 0x00000000, 21, 0xeb86d391, 0x30130182, 0xff4ea3eb, 0x6e10a476, 0x7246fad3, 0x14e45506);
  }

  lemma EmptyBlock(words: seq<bv32>)
    requires EmptyWords(words)
    ensures At(words, 64, 0x7246fad3, 0x14e45506, 0xff4ea3eb, 0x6e10a476)
  {
    assert At(words, 0, 0x67452301, 0xefcdab89, 0x98badcfe, 0x10325476);
    hide At, EmptyWords;
    EmptySteps1(words);
    EmptySteps2(words);
    EmptySteps3(words);
    EmptySteps4(words);
    EmptySteps5(words);
    EmptySteps6(words);
    EmptySteps7(words);
    EmptySteps8(words);
  }

  lemma EmptyPadded()
    ensures Padded([]) ==
      [0x80, 0x00, 0x00, 0x00, 0x00, 0x00, 0x00, 0x00, 0x00, 0x00, 0x00, 0x00, 0x00, 0x00, 0x00, 0x00] +
      [0x00, 0x00, 0x00, 0x00, 0x00, 0x00, 0x00, 0x00, 0x00, 0x00, 0x00, 0x00, 0x00, 0x00, 0x00, 0x00] +
      [0x00, 0x00, 0x00, 0x00, 0x00, 0x00, 0x00, 0x00, 0x00, 0x00, 0x00, 0x00, 0x00, 0x00, 0x00, 0x00] +
      [0x00, 0x00, 0x00, 0x00, 0x00, 0x00, 0x00, 0x00, 0x00, 0x00, 0x00, 0x00, 0x00, 0x00, 0x00, 0x00]
  {
    assert ZeroCount(0) == 55 && BitLengths.LengthWords(0) == (0, 0);
    BytesOf(0, 0, 0, 0, 0);
    BytesOf(0, 0, 0, 0, 0);
    hide LittleEndian, ZeroCount, BitLengths.LengthWords;
  }

  lemma EmptyRow1(block: seq<byte>)
    requires |block| == 64 && block[0..16] == [
      0x80, 0x00, 0x00, 0x00, 0x00, 0x00, 0x00, 0x00, 0x00, 0x00, 0x00, 0x00, 0x00, 0x00, 0x00, 0x00]
    ensures WordsOf(block)[0] == 0x00000080 && WordsOf(block)[1] == 0x00000000
    ensures WordsOf(block)[2] == 0x00000000 && WordsOf(block)[3] == 0x00000000
  {
    var row := block[0..16];
    WordIs(block, 0, row[0], row[1], row[2], row[3], 0x00000080);
    WordIs(block, 1, row[4], row[5], row[6], row[7], 0x00000000);
    WordIs(block, 2, row[8], row[9], row[10], row[11], 0x00000000);
    WordIs(block, 3, row[12], row[13], row[14], row[15], 0x00000000);
  }

  lemma EmptyRow2(block: seq<byte>)
    requires |block| == 64 && block[16..32] == [
      0x00, 0x00, 0x00, 0x00, 0x00, 0x00, 0x00, 0x00, 0x00, 0x00, 0x00, 0x00, 0x00, 0x00, 0x00, 0x00]
    ensures WordsOf(block)[4] == 0x00000000 && WordsOf(block)[5] == 0x00000000
    ensures WordsOf(block)[6] == 0x00000000 && WordsOf(block)[7] == 0x00000000
  {
    var row := block[16..32];
    WordIs(block, 4, row[0], row[1], row[2], row[3], 0x00000000);
    WordIs(block, 5, row[4], row[5], row[6], row[7], 0x00000000);
    WordIs(block, 6, row[8], row[9], row[10], row[11], 0x00000000);
    WordIs(block, 7, row[12], row[13], row[14], row[15], 0x00000000);
  }

  lemma EmptyRow3(block: seq<byte>)
    requires |block| == 64 && block[32..48] == [
      0x00, 0x00, 0x00, 0x00, 0x00, 0x00, 0x00, 0x00, 0x00, 0x00, 0x00, 0x00, 0x00, 0x00, 0x00, 0x00]
    ensures WordsOf(block)[8] == 0x00000000 && WordsOf(block)[9] == 0x00000000
    ensures WordsOf(block)[10] == 0x00000000 && WordsOf(block)[11] == 0x00000000
  {
    var row := block[32..48];
    WordIs(block, 8, row[0], row[1], row[2], row[3], 0x00000000);
    WordIs(block, 9, row[4], row[5], row[6], row[7], 0x00000000);
    WordIs(block, 10, row[8], row[9], row[10], row[11], 0x00000000);
    WordIs(block, 11, row[12], row[13], row[14], row[15], 0x00000000);
  }

  lemma EmptyRow4(block: seq<byte>)
    requires |block| == 64 && block[48..64] == [
      0x00, 0x00, 0x00, 0x00, 0x00, 0x00, 0x00, 0x00, 0x00, 0x00, 0x00, 0x00, 0x00, 0x00, 0x00, 0x00]
    ensures WordsOf(block)[12] == 0x00000000 && WordsOf(block)[13] == 0x00000000
    ensures WordsOf(block)[14] == 0x00000000 && WordsOf(block)[15] == 0x00000000
  {
    var row := block[48..64];
    WordIs(block, 12, row[0], row[1], row[2], row[3], 0x00000000);
    WordIs(block, 13, row[4], row[5], row[6], row[7], 0x00000000);
    WordIs(block, 14, row[8], row[9], row[10], row[11], 0x00000000);
    WordIs(block, 15, row[12], row[13], row[14], row[15], 0x00000000);
  }

  lemma EmptyInWords()
    ensures |Padded([])| == 64 && EmptyWords(WordsOf(Padded([])))
  {
    EmptyPadded();
    hide Padded;
    hide WordsOf;
    var block := Padded([]);
    EmptyRow1(block);
    EmptyRow2(block);
    EmptyRow3(block);
    EmptyRow4(block);
  }

  lemma EmptyOutput()
    ensures Output(Registers(0xd98c1dd4, 0x04b2008f, 0x980980e9, 0x7e42f8ec)) == [
      0xd4, 0x1d, 0x8c, 0xd9, 0x8f, 0x00, 0xb2, 0x04, 0xe9, 0x80, 0x09, 0x98, 0xec, 0xf8, 0x42, 0x7e]
  {
    WordBytes(0xd98c1dd4, 0xd4, 0x1d, 0x8c, 0xd9);
    WordBytes(0x04b2008f, 0x8f, 0x00, 0xb2, 0x04);
    WordBytes(0x980980e9, 0xe9, 0x80, 0x09, 0x98);
    WordBytes(0x7e42f8ec, 0xec, 0xf8, 0x42, 0x7e);
    hide LittleEndian;
  }

  lemma EmptyDigest()
    ensures MessageDigest([]) == [
      0xd4, 0x1d, 0x8c, 0xd9, 0x8f, 0x00, 0xb2, 0x04, 0xe9, 0x80, 0x09, 0x98, 0xec, 0xf8, 0x42, 0x7e]
  {
    hide EmptyWords, At, WordsOf, Padded, MessageDigest, Output;
    EmptyInWords();
    EmptyBlock(WordsOf(Padded([])));
    DigestIs([], Registers(0x7246fad3, 0x14e45506, 0xff4ea3eb, 0x6e10a476),
             Registers(0xd98c1dd4, 0x04b2008f, 0x980980e9, 0x7e42f8ec));
    EmptyOutput();
  }

  // ---------------------------------------------------------------------
  // "The quick brown fox jumps over the lazy dog"
  // ---------------------------------------------------------------------

  const FOX: seq<byte> :=
    [0x54, 0x68, 0x65, 0x20, 0x71, 0x75, 0x69, 0x63, 0x6b, 0x20, 0x62, 0x72, 0x6f, 0x77, 0x6e, 0x20] +
    [0x66, 0x6f, 0x78, 0x20, 0x6a, 0x75, 0x6d, 0x70, 0x73, 0x20, 0x6f, 0x76, 0x65, 0x72, 0x20, 0x74] +
    [0x68, 0x65, 0x20, 0x6c, 0x61, 0x7a, 0x79, 0x20, 0x64, 0x6f, 0x67]

  predicate FoxWords(words: seq<bv32>) {
    && |words| == 16
    && words[0] == 0x20656854 && words[1] == 0x63697571 && words[2] == 0x7262206b && words[3] == 0x206e776f
    && words[4] == 0x20786f66 && words[5] == 0x706d756a && words[6] == 0x766f2073 && words[7] == 0x74207265
    && words[8] == 0x6c206568 && words[9] == 0x20797a61 && words[10] == 0x80676f64 && words[11] == 0x00000000
    && words[12] == 0x00000000 && words[13] == 0x00000000 && words[14] == 0x00000158 && words[15] == 0x00000000
  }

  lemma FoxSteps1(words: seq<bv32>)
    requires FoxWords(words) && At(words, 0, 0x67452301, 0xefcdab89, 0x98badcfe, 0x10325476)
    ensures At(words, 8, 0x640b8027, 0x3caf3300, 0x87539299, 0x9130dcb7)
  {
    Constants1();
    hide T, Shift, WordIndex, At;
    Next(words, 0, 0x20656854, 7, 0xd76aa478, 0x67452301, 0xefcdab89, 0x98badcfe, 0x10325476, 0xd7d41184);
    Next(words, 1, 0x63697571, 12, 0xe8c7b756, 0x10325476, 0xd7d41184, 0xefcdab89, 0x98badcfe, 0xfcc78449);
    Next(words, 2, 0x7262206b, 17, 0x242070db, 0x98badcfe, 0xfcc78449, 0xd7d41184, 0xefcdab89, 0x304f925c);
    Next(words, 3, 0x206e776f, 22, 0xc1bdceee, 0xefcdab89, 0x304f925c, 0xfcc78449, 0xd7d41184, 0x1c0206b8);
    Next(words, 4, 0x20786f66, 7, 0xf57c0faf, 0xd7d41184, 0x1c0206b8, 0x304f925c, 0xfcc78449, 0x640b8027);
    Next(words, 5, 0x706d756a, 12, 0x4787c62a, 0xfcc78449, 0x640b8027, 0x1c0206b8, 0x304f925c, 0x9130dcb7);
    Next(words, 6, 0x766f2073, 17, 0xa8304613, 0x304f925c, 0x9130dcb7, 0x640b8027, 0x1c0206b8, 0x87539299);
    Next(words, 7, 0x74207265, 22, 0xfd469501, 0x1c0206b8, 0x87539299, 0x9130dcb7, 0x640b8027, 0x3caf3300);
  }

  lemma FoxSteps2(words: seq<bv32>)
    requires FoxWords(words) && At(words, 8, 0x640b8027, 0x3caf3300, 0x87539299, 0x9130dcb7)
    ensures At(words, 16, 0xd83df4bd, 0x5f98dbfa, 0xba2a7422, 0xb9f6e20c)
  {
    Constants1();
    hide T, Shift, WordIndex, At;
    Next(words, 8, 0x6c206568, 7, 0x698098d8, 0x640b8027, 0x3caf3300, 0x87539299, 0x9130dcb7, 0x9cddc25f);
    Next(words, 9, 0x20797a61, 12, 0x8b44f7af, 0x9130dcb7, 0x9cddc25f, 0x3caf3300, 0x87539299, 0x82f23826);
    Next(words, 10, 0x80676f64, 17, 0xffff5bb1, 0x87539299, 0x82f23826, 0x9cddc25f, 0x3caf3300, 0x445bc154);
    Next(words, 11, 0x00000000, 22, 0x895cd7be, 0x3caf3300, 0x445bc154, 0x82f23826, 0x9cddc25f, 0x77b379d7);
    Next(words, 12, 0x00000000, 7, 0x6b901122, 0x9cddc25f, 0x77b379d7, 0x445bc154, 0x82f23826, 0xd83df4bd);
    Next(words, 13, 0x00000000, 12, 0xfd987193, 0x82f23826, 0xd83df4bd, 0x77b379d7, 0x445bc154, 0xb9f6e20c);
    Next(words, 14, 0x00000158, 17, 0xa679438e, 0x445bc154, 0xb9f6e20c, 0xd83df4bd, 0x77b379d7, 0xba2a7422);
    Next(words, 15, 0x00000000, 22, 0x49b40821, 0x77b379d7, 0xba2a7422, 0xb9f6e20c, 0xd83df4bd, 0x5f98dbfa);
  }

  lemma FoxSteps3(words: seq<bv32>)
    requires FoxWords(words) && At(words, 16, 0xd83df4bd, 0x5f98dbfa, 0xba2a7422, 0xb9f6e20c)
    ensures At(words, 24, 0x29b3f213, 0x79b516bb, 0xaf2f41f5, 0xc7c720df)
  {
    Constants2();
    hide T, Shift, WordIndex, At;
    Next(words, 16, 0x63697571, 5, 0xf61e2562, 0xd83df4bd, 0x5f98dbfa, 0xba2a7422, 0xb9f6e20c, 0x0b659343);
    Next(words, 17, 0x766f2073, 9, 0xc040b340, 0xb9f6e20c, 0x0b659343, 0x5f98dbfa, 0xba2a7422, 0xba08c5c3);
    Next(words, 18, 0x00000000, 14, 0x265e5a51, 0xba2a7422, 0xba08c5c3, 0x0b659343, 0x5f98dbfa, 0x5e168480);
    Next(words, 19, 0x20656854, 20, 0xe9b6c7aa, 0x5f98dbfa, 0x5e168480, 0xba08c5c3, 0x0b659343, 0x6598c09d);
    Next(words, 20, 0x706d756a, 5, 0xd62f105d, 0x0b659343, 0x6598c09d, 0x5e168480, 0xba08c5c3, 0x29b3f213);
    Next(words, 21, 0x80676f64, 9, 0x02441453, 0xba08c5c3, 0x29b3f213, 0x6598c09d, 0x5e168480, 0xc7c720df);
    Next(words, 22, 0x00000000, 14, 0xd8a1e681, 0x5e168480, 0xc7c720df, 0x29b3f213, 0x6598c09d, 0xaf2f41f5);
    Next(words, 23, 0x20786f66, 20, 0xe7d3fbc8, 0x6598c09d, 0xaf2f41f5, 0xc7c720df, 0x29b3f213, 0x79b516bb);
  }

  lemma FoxSteps4(words: seq<bv32>)
    requires FoxWords(words) && At(words, 24, 0x29b3f213, 0x79b516bb, 0xaf2f41f5, 0xc7c720df)
    ensures At(words, 32, 0x783665b1, 0xa14e96ed, 0xced65265, 0xd7e7680d)
  {
    Constants2();
    hide T, Shift, WordIndex, At;
    Next(words, 24, 0x20797a61, 5, 0x21e1cde6, 0x29b3f213, 0x79b516bb, 0xaf2f41f5, 0xc7c720df, 0x31449975);
    Next(words, 25, 0x00000158, 9, 0xc33707d6, 0xc7c720df, 0x31449975, 0x79b516bb, 0xaf2f41f5, 0x55c7b36e);
    Next(words, 26, 0x206e776f, 14, 0xf4d50d87, 0xaf2f41f5, 0x55c7b36e, 0x31449975, 0x79b516bb, 0x6e5df8fc);
    Next(words, 27, 0x6c206568, 20, 0x455a14ed, 0x79b516bb, 0x6e5df8fc, 0x55c7b36e, 0x31449975, 0x2746f870);
    Next(words, 28, 0x00000000, 5, 0xa9e3e905, 0x31449975, 0x2746f870, 0x6e5df8fc, 0x55c7b36e, 0x783665b1);
    Next(words, 29, 0x7262206b, 9, 0xfcefa3f8, 0x55c7b36e, 0x783665b1, 0x2746f870, 0x6e5df8fc, 0xd7e7680d);
    Next(words, 30, 0x74207265, 14, 0x676f02d9, 0x6e5df8fc, 0xd7e7680d, 0x783665b1, 0x2746f870, 0xced65265);
    Next(words, 31, 0x00000000, 20, 0x8d2a4c8a, 0x2746f870, 0xced65265, 0xd7e7680d, 0x783665b1, 0xa14e96ed);
  }

  lemma FoxSteps5(words: seq<bv32>)
    requires FoxWords(words) && At(words, 32, 0x783665b1, 0xa14e96ed, 0xced65265, 0xd7e7680d)
    ensures At(words, 40, 0x5b4eae46, 0xcbe60abc, 0xde246f3a, 0x9c92ed12)
  {
    Constants3();
    hide T, Shift, WordIndex, At;
    Next(words, 32, 0x706d756a, 4, 0xfffa3942, 0x783665b1, 0xa14e96ed, 0xced65265, 0xd7e7680d, 0xb32aa517);
    Next(words, 33, 0x6c206568, 11, 0x8771f681, 0xd7e7680d, 0xb32aa517, 0xa14e96ed, 0xced65265, 0x14575258);
    Next(words, 34, 0x00000000, 16, 0x6d9d6122, 0xced65265, 0x14575258, 0xb32aa517, 0xa14e96ed, 0x298094ff);
    Next(words, 35, 0x00000158, 23, 0xfde5380c, 0xa14e96ed, 0x298094ff, 0x14575258, 0xb32aa517, 0x2a17ad99);
    Next(words, 36, 0x63697571, 4, 0xa4beea44, 0xb32aa517, 0x2a17ad99, 0x298094ff, 0x14575258, 0x5b4eae46);
    Next(words, 37, 0x20786f66, 11, 0x4bdecfa9, 0x14575258, 0x5b4eae46, 0x2a17ad99, 0x298094ff, 0x9c92ed12);
    Next(words, 38, 0x74207265, 16, 0xf6bb4b60, 0x298094ff, 0x9c92ed12, 0x5b4eae46, 0x2a17ad99, 0xde246f3a);
    Next(words, 39, 0x80676f64, 23, 0xbebfbc70, 0x2a17ad99, 0xde246f3a, 0x9c92ed12, 0x5b4eae46, 0xcbe60abc);
  }

  lemma FoxSteps6(words: seq<bv32>)
    requires FoxWords(words) && At(words, 40, 0x5b4eae46, 0xcbe60abc, 0xde246f3a, 0x9c92ed12)
    ensures At(words, 48, 0xddc672c8, 0x60590164, 0x4f59dd0e, 0x07005f10)
  {
    Constants3();
    hide T, Shift, WordIndex, At;
    Next(words, 40, 0x00000000, 4, 0x289b7ec6, 0x5b4eae46, 0xcbe60abc, 0xde246f3a, 0x9c92ed12, 0x9f9164bc);
    Next(words, 41, 0x20656854, 11, 0xeaa127fa, 0x9c92ed12, 0x9f9164bc, 0xcbe60abc, 0xde246f3a, 0x0386364b);
    Next(words, 42, 0x206e776f, 16, 0xd4ef3085, 0xde246f3a, 0x0386364b, 0x9f9164bc, 0xcbe60abc, 0x72ff61be);
    Next(words, 43, 0x766f2073, 23, 0x04881d05, 0xcbe60abc, 0x72ff61be, 0x0386364b, 0x9f9164bc, 0x319a447b);
    Next(words, 44, 0x20797a61, 4, 0xd9d4d039, 0x9f9164bc, 0x319a447b, 0x72ff61be, 0x0386364b, 0xddc672c8);
    Next(words, 45, 0x00000000, 11, 0xe6db99e5, 0x0386364b, 0xddc672c8, 0x319a447b, 0x72ff61be, 0x07005f10);
    Next(words, 46, 0x00000000, 16, 0x1fa27cf8, 0x72ff61be, 0x07005f10, 0xddc672c8, 0x319a447b, 0x4f59dd0e);
    Next(words, 47, 0x7262206b, 23, 0xc4ac5665, 0x319a447b, 0x4f59dd0e, 0x07005f10, 0xddc672c8, 0x60590164);
  }

  lemma FoxSteps7(words: seq<bv32>)
    requires FoxWords(words) && At(words, 48, 0xddc672c8, 0x60590164, 0x4f59dd0e, 0x07005f10)
    ensures At(words, 56, 0x8f6d06ae, 0x4e5f2898, 0x42d1d7a5, 0x622ea6ce)
  {
    Constants4();
    hide T, Shift, WordIndex, At;
    Next(words, 48, 0x20656854, 6, 0xf4292244, 0xddc672c8, 0x60590164, 0x4f59dd0e, 0x07005f10, 0xdf3791ce);
    Next(words, 49, 0x74207265, 10, 0x432aff97, 0x07005f10, 0xdf3791ce, 0x60590164, 0x4f59dd0e, 0xc9462f46);
    Next(words, 50, 0x00000158, 15, 0xab9423a7, 0x4f59dd0e, 0xc9462f46, 0xdf3791ce, 0x60590164, 0x8155ad25);
    Next(words, 51, 0x706d756a, 21, 0xfc93a039, 0x60590164, 0x8155ad25, 0xc9462f46, 0xdf3791ce, 0x709c6bdf);
    Next(words, 52, 0x00000000, 6, 0x655b59c3, 0xdf3791ce, 0x709c6bdf, 0x8155ad25, 0xc9462f46, 0x8f6d06ae);
    Next(words, 53, 0x206e776f, 10, 0x8f0ccc92, 0xc9462f46, 0x8f6d06ae, 0x709c6bdf, 0x8155ad25, 0x622ea6ce);
    Next(words, 54, 0x80676f64, 15, 0xffeff47d, 0x8155ad25, 0x622ea6ce, 0x8f6d06ae, 0x709c6bdf, 0x42d1d7a5);
    Next(words, 55, 0x63697571, 21, 0x85845dd1, 0x709c6bdf, 0x42d1d7a5, 0x622ea6ce, 0x8f6d06ae, 0x4e5f2898);
  }

  lemma FoxSteps8(words: seq<bv32>)
    requires FoxWords(words) && At(words, 56, 0x8f6d06ae, 0x4e5f2898, 0x42d1d7a5, 0x622ea6ce)
    ensures At(words, 64, 0x3637ed9d, 0x92e87fae, 0x9c62fb6d, 0xc5e74fcc)
  {
    Constants4();
    hide T, Shift, WordIndex, At;
    Next(words, 56, 0x6c206568, 6, 0x6fa87e4f, 0x8f6d06ae, 0x4e5f2898, 0x42d1d7a5, 0x622ea6ce, 0x5f8548da);
    Next(words, 57, 0x00000000, 10, 0xfe2ce6e0, 0x622ea6ce, 0x5f8548da, 0x4e5f2898, 0x42d1d7a5, 0x8ebd0923);
    Next(words, 58, 0x766f2073, 15, 0xa3014314, 0x42d1d7a5, 0x8ebd0923, 0x5f8548da, 0x4e5f2898, 0xf831a760);
    Next(words, 59, 0x00000000, 21, 0x4e0811a1, 0x4e5f2898, 0xf831a760, 0x8ebd0923, 0x5f8548da, 0x08140d1f);
    Next(words, 60, 0x20786f66, 6, 0xf7537e82, 0x5f8548da, 0x08140d1f, 0xf831a760, 0x8ebd0923, 0x3637ed9d);
    Next(words, 61, 0x00000000, 10, 0xbd3af235, 0x8ebd0923, 0x3637ed9d, 0x08140d1f, 0xf831a760, 0xc5e74fcc);
    Next(words, 62, 0x7262206b, 15, 0x2ad7d2bb, 0xf831a760, 0xc5e74fcc, 0x3637ed9d, 0x08140d1f, 0x9c62fb6d);
    Next(words, 63, 0x20797a61, 21, 0xeb86d391, 0x08140d1f, 0x9c62fb6d, 0xc5e74fcc, 0x3637ed9d, 0x92e87fae);
  }

  lemma FoxBlock(words: seq<bv32>)
    requires FoxWords(words)
    ensures At(words, 64, 0x3637ed9d, 0x92e87fae, 0x9c62fb6d, 0xc5e74fcc)
  {
    assert At(words, 0, 0x67452301, 0xefcdab89, 0x98badcfe, 0x10325476);
    hide At, FoxWords;
    FoxSteps1(words);
    FoxSteps2(words);
    FoxSteps3(words);
    FoxSteps4(words);
    FoxSteps5(words);
    FoxSteps6(words);
    FoxSteps7(words);
    FoxSteps8(words);
  }

  lemma FoxPadded()
    ensures Padded(FOX) ==
      [0x54, 0x68, 0x65, 0x20, 0x71, 0x75, 0x69, 0x63, 0x6b, 0x20, 0x62, 0x72, 0x6f, 0x77, 0x6e, 0x20] +
      [0x66, 0x6f, 0x78, 0x20, 0x6a, 0x75, 0x6d, 0x70, 0x73, 0x20, 0x6f, 0x76, 0x65, 0x72, 0x20, 0x74] +
      [0x68, 0x65, 0x20, 0x6c, 0x61, 0x7a, 0x79, 0x20, 0x64, 0x6f, 0x67, 0x80, 0x00, 0x00, 0x00, 0x00] +
      [0x00, 0x00, 0x00, 0x00, 0x00, 0x00, 0x00, 0x00, 0x58, 0x01, 0x00, 0x00, 0x00, 0x00, 0x00, 0x00]
  {
    assert ZeroCount(43) == 12 && BitLengths.LengthWords(43) == (344, 0);
    BytesOf(344, 88, 1, 0, 0);
    BytesOf(0, 0, 0, 0, 0);
    hide LittleEndian, ZeroCount, BitLengths.LengthWords;
  }

  lemma FoxRow1(block: seq<byte>)
    requires |block| == 64 && block[0..16] == [
      0x54, 0x68, 0x65, 0x20, 0x71, 0x75, 0x69, 0x63, 0x6b, 0x20, 0x62, 0x72, 0x6f, 0x77, 0x6e, 0x20]
    ensures WordsOf(block)[0] == 0x20656854 && WordsOf(block)[1] == 0x63697571
    ensures WordsOf(block)[2] == 0x7262206b && WordsOf(block)[3] == 0x206e776f
  {
    var row := block[0..16];
    WordIs(block, 0, row[0], row[1], row[2], row[3], 0x20656854);
    WordIs(block, 1, row[4], row[5], row[6], row[7], 0x63697571);
    WordIs(block, 2, row[8], row[9], row[10], row[11], 0x7262206b);
    WordIs(block, 3, row[12], row[13], row[14], row[15], 0x206e776f);
  }

  lemma FoxRow2(block: seq<byte>)
    requires |block| == 64 && block[16..32] == [
      0x66, 0x6f, 0x78, 0x20, 0x6a, 0x75, 0x6d, 0x70, 0x73, 0x20, 0x6f, 0x76, 0x65, 0x72, 0x20, 0x74]
    ensures WordsOf(block)[4] == 0x20786f66 && WordsOf(block)[5] == 0x706d756a
    ensures WordsOf(block)[6] == 0x766f2073 && WordsOf(block)[7] == 0x74207265
  {
    var row := block[16..32];
    WordIs(block, 4, row[0], row[1], row[2], row[3], 0x20786f66);
    WordIs(block, 5, row[4], row[5], row[6], row[7], 0x706d756a);
    WordIs(block, 6, row[8], row[9], row[10], row[11], 0x766f2073);
    WordIs(block, 7, row[12], row[13], row[14], row[15], 0x74207265);
  }

  lemma FoxRow3(block: seq<byte>)
    requires |block| == 64 && block[32..48] == [
      0x68, 0x65, 0x20, 0x6c, 0x61, 0x7a, 0x79, 0x20, 0x64, 0x6f, 0x67, 0x80, 0x00, 0x00, 0x00, 0x00]
    ensures WordsOf(block)[8] == 0x6c206568 && WordsOf(block)[9] == 0x20797a61
    ensures WordsOf(block)[10] == 0x80676f64 && WordsOf(block)[11] == 0x00000000
  {
    var row := block[32..48];
    WordIs(block, 8, row[0], row[1], row[2], row[3], 0x6c206568);
    WordIs(block, 9, row[4], row[5], row[6], row[7], 0x20797a61);
    WordIs(block, 10, row[8], row[9], row[10], row[11], 0x80676f64);
    WordIs(block, 11, row[12], row[13], row[14], row[15], 0x00000000);
  }

  lemma FoxRow4(block: seq<byte>)
    requires |block| == 64 && block[48..64] == [
      0x00, 0x00, 0x00, 0x00, 0x00, 0x00, 0x00, 0x00, 0x58, 0x01, 0x00, 0x00, 0x00, 0x00, 0x00, 0x00]
    ensures WordsOf(block)[12] == 0x00000000 && WordsOf(block)[13] == 0x00000000
    ensures WordsOf(block)[14] == 0x00000158 && WordsOf(block)[15] == 0x00000000
  {
    var row := block[48..64];
    WordIs(block, 12, row[0], row[1], row[2], row[3], 0x00000000);
    WordIs(block, 13, row[4], row[5], row[6], row[7], 0x00000000);
    WordIs(block, 14, row[8], row[9], row[10], row[11], 0x00000158);
    WordIs(block, 15, row[12], row[13], row[14], row[15], 0x00000000);
  }

  lemma FoxInWords()
    ensures |Padded(FOX)| == 64 && FoxWords(WordsOf(Padded(FOX)))
  {
    FoxPadded();
    hide Padded;
    hide WordsOf;
    var block := Padded(FOX);
    FoxRow1(block);
    FoxRow2(block);
    FoxRow3(block);
    FoxRow4(block);
  }

  lemma FoxOutput()
    ensures Output(Registers(0x9d7d109e, 0x82b62b37, 0x351dd86b, 0xd619a442)) == [
      0x9e, 0x10, 0x7d, 0x9d, 0x37, 0x2b, 0xb6, 0x82, 0x6b, 0xd8, 0x1d, 0x35, 0x42, 0xa4, 0x19, 0xd6]
  {
    WordBytes(0x9d7d109e, 0x9e, 0x10, 0x7d, 0x9d);
    WordBytes(0x82b62b37, 0x37, 0x2b, 0xb6, 0x82);
    WordBytes(0x351dd86b, 0x6b, 0xd8, 0x1d, 0x35);
    WordBytes(0xd619a442, 0x42, 0xa4, 0x19, 0xd6);
    hide LittleEndian;
  }

  lemma FoxDigest()
    ensures MessageDigest(FOX) == [
      0x9e, 0x10, 0x7d, 0x9d, 0x37, 0x2b, 0xb6, 0x82, 0x6b, 0xd8, 0x1d, 0x35, 0x42, 0xa4, 0x19, 0xd6]
  {
    hide FoxWords, At, WordsOf, Padded, MessageDigest, Output;
    FoxInWords();
    FoxBlock(WordsOf(Padded(FOX)));
    DigestIs(FOX, Registers(0x3637ed9d, 0x92e87fae, 0x9c62fb6d, 0xc5e74fcc),
             Registers(0x9d7d109e, 0x82b62b37, 0x351dd86b, 0xd619a442));
    FoxOutput();
  }
}
