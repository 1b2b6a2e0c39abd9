/** The message digest of RFC 1321, as its section 3 defines it. */
module Md5Spec {
  import BitLengths
  import opened Bytes

  datatype Registers<+W> = Registers(a: W, b: W, c: W, d: W)

  /** Section 3.3. */
  const START: Registers<bv32> := Registers(0x67452301, 0xefcdab89, 0x98badcfe, 0x10325476)

  // The auxiliary functions of section 3.4.

  function F(x: bv32, y: bv32, z: bv32): bv32 { (x & y) | (!x & z) }

  function G(x: bv32, y: bv32, z: bv32): bv32 { (x & z) | (y & !z) }

  function H(x: bv32, y: bv32, z: bv32): bv32 { x ^ y ^ z }

  function I(x: bv32, y: bv32, z: bv32): bv32 { y ^ (x | !z) }

  /** The circular shift by `n` bit positions, for n up to 32. */
  function RotateLeft(x: bv32, n: bv6): bv32 {
    if n <= 32 then (x << n) | (x >> (32 - n)) else x
  }

  /** b + ((a + f + word + t) <<< s), where f is the value of an auxiliary function. */
  function Mix(f: bv32, a: bv32, b: bv32, word: bv32, s: bv6, t: bv32): bv32 {
    b + RotateLeft(a + f + word + t, s)
  }

  /**
   The operations on words that the 64 steps use. Which step uses which word, shift
   and constant, and in what order, has nothing to do with what the operations are.
   */
  datatype Operations<!W> = Operations(
    f: (W, W, W) -> W, g: (W, W, W) -> W, h: (W, W, W) -> W, i: (W, W, W) -> W,
    op: (W, W, W, W, bv6, bv32) -> W)

  const RFC: Operations<bv32> := Operations(F, G, H, I, Mix)

  // The table of section 3.4, four entries to a row.
  const SINES: seq<seq<bv32>> := [
    [0xd76aa478, 0xe8c7b756, 0x242070db, 0xc1bdceee],
    [0xf57c0faf, 0x4787c62a, 0xa8304613, 0xfd469501],
    [0x698098d8, 0x8b44f7af, 0xffff5bb1, 0x895cd7be],
    [0x6b901122, 0xfd987193, 0xa679438e, 0x49b40821],
    [0xf61e2562, 0xc040b340, 0x265e5a51, 0xe9b6c7aa],
    [0xd62f105d, 0x02441453, 0xd8a1e681, 0xe7d3fbc8],
    [0x21e1cde6, 0xc33707d6, 0xf4d50d87, 0x455a14ed],
    [0xa9e3e905, 0xfcefa3f8, 0x676f02d9, 0x8d2a4c8a],
    [0xfffa3942, 0x8771f681, 0x6d9d6122, 0xfde5380c],
    [0xa4beea44, 0x4bdecfa9, 0xf6bb4b60, 0xbebfbc70],
    [0x289b7ec6, 0xeaa127fa, 0xd4ef3085, 0x04881d05],
    [0xd9d4d039, 0xe6db99e5, 0x1fa27cf8, 0xc4ac5665],
    [0xf4292244, 0x432aff97, 0xab9423a7, 0xfc93a039],
    [0x655b59c3, 0x8f0ccc92, 0xffeff47d, 0x85845dd1],
    [0x6fa87e4f, 0xfe2ce6e0, 0xa3014314, 0x4e0811a1],
    [0xf7537e82, 0xbd3af235, 0x2ad7d2bb, 0xeb86d391]]

  /** The integer part of 4294967296 times abs(sin(i + 1)), from the table. */
  function T(i: nat): bv32
    requires i < 64
  {
    SINES[i / 4][i % 4]
  }

  const SHIFTS: seq<seq<bv6>> := [[7, 12, 17, 22], [5, 9, 14, 20], [4, 11, 16, 23], [6, 10, 15, 21]]

  function Shift(i: nat): bv6
    requires i < 64
  {
    SHIFTS[i / 16][i % 4]
  }

  /** Which word of the block step `i` uses. */
  function WordIndex(i: nat): (k: nat)
    ensures k < 16
  {
    if i < 16 then i else if i < 32 then (1 + 5 * i) % 16 else if i < 48 then (5 + 3 * i) % 16 else 7 * i % 16
  }

  function Auxiliary<W>(o: Operations<W>, i: nat): (W, W, W) -> W {
    if i < 16 then o.f else if i < 32 then o.g else if i < 48 then o.h else o.i
  }

  /** One step; the registers then exchange their roles, so that the next step again works on `a`. */
  function Step<W>(o: Operations<W>, r: Registers<W>, words: seq<W>, i: nat): Registers<W>
    requires |words| == 16 && i < 64
  {
    var f := Auxiliary(o, i)(r.b, r.c, r.d);
    Registers(r.d, o.op(f, r.a, r.b, words[WordIndex(i)], Shift(i), T(i)), r.b, r.c)
  }

  /** Steps `first` up to but not including `last`. */
  function Steps<W>(o: Operations<W>, r: Registers<W>, words: seq<W>, first: nat, last: nat): Registers<W>
    requires |words| == 16 && first <= last <= 64
    decreases last
  {
    if first == last then r else Step(o, Steps(o, r, words, first, last - 1), words, last - 1)
  }

  /** The sixteen words of a block, each from four bytes, lowest first. */
  function WordsOf(block: seq<byte>): (words: seq<bv32>)
    requires |block| == 64
    ensures |words| == 16
  {
    seq(16, k requires 0 <= k < 16 => Word(block[4 * k..4 * k + 4]))
  }

  function Word(bytes: seq<byte>): bv32
    requires |bytes| == 4
  {
    FourDigits(bytes);
    FromLittleEndian(bytes) as bv32
  }

  /** Addition of words, modulo 2^32. */
  function Plus(x: bv32, y: bv32): bv32 {
    x + y
  }

  /** Section 3.4 for one block. */
  function Process(r: Registers<bv32>, block: seq<byte>): Registers<bv32>
    requires |block| == 64
  {
    var s := Steps(RFC, r, WordsOf(block), 0, 64);
    Registers(Plus(r.a, s.a), Plus(r.b, s.b), Plus(r.c, s.c), Plus(r.d, s.d))
  }

  /** Section 3.4 for a sequence of blocks. */
  function Absorb(r: Registers<bv32>, blocks: seq<byte>): Registers<bv32>
    requires |blocks| % 64 == 0
    decreases |blocks|
  {
    if blocks == [] then r
    else
      var n := |blocks| - 64;
      Process(Absorb(r, blocks[..n]), blocks[n..])
  }

  /** Zeros that bring a message of `n` bytes and the byte 80 to 56 bytes modulo 64 (section 3.1). */
  function ZeroCount(n: nat): (k: nat)
    ensures k < 64 && (n + 1 + k) % 64 == 56
  {
    (119 - n % 64) % 64
  }

  function Zeros(n: nat): (z: seq<byte>)
    ensures |z| == n
  {
    seq(n, _ => 0)
  }

  /** Padding and length, for a length given as two words. */
  function Tail(n: nat, length: (nat, nat)): (tail: seq<byte>)
    ensures (n + |tail|) % 64 == 0
  {
    [0x80] + Zeros(ZeroCount(n)) + LittleEndian(length.0) + LittleEndian(length.1)
  }

  /** Sections 3.1 and 3.2. */
  function Padded(message: seq<byte>): (blocks: seq<byte>)
    ensures |blocks| % 64 == 0
  {
    message + Tail(|message|, BitLengths.LengthWords(|message|))
  }

  /** Section 3.5. */
  function Output(r: Registers<bv32>): (digest: seq<byte>)
    ensures |digest| == 16
  {
    LittleEndian(r.a as nat) + LittleEndian(r.b as nat) + LittleEndian(r.c as nat) + LittleEndian(r.d as nat)
  }

  function MessageDigest(message: seq<byte>): seq<byte> {
    Output(Absorb(START, Padded(message)))
  }

  lemma AbsorbBlock(r: Registers<bv32>, blocks: seq<byte>, block: seq<byte>)
    requires |blocks| % 64 == 0 && |block| == 64
    ensures Absorb(r, blocks + block) == Process(Absorb(r, blocks), block)
  {
  }

  lemma {:induction false} StepsSplit<W>(o: Operations<W>, r: Registers<W>, words: seq<W>, middle: nat, last: nat)
    requires |words| == 16 && middle <= last <= 64
    ensures Steps(o, r, words, 0, last) == Steps(o, Steps(o, r, words, 0, middle), words, middle, last)
  {
    if middle < last {
      StepsSplit(o, r, words, middle, last - 1);
    }
  }
}
