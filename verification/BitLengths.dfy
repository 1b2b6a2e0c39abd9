/** The bit length of a message as two 32-bit words: RFC 1321 against the carry code. */
module BitLengths {
  /** Section 3.2 of RFC 1321: the low 64 bits of the bit length of `n` bytes, low word first. */
  function LengthWords(n: nat): (nat, nat) {
    (8 * n % 0x1_0000_0000, 8 * n / 0x1_0000_0000 % 0x1_0000_0000)
  }

  function Count(b: bool): nat {
    if b then 1 else 0
  }

  /** The two words as the code computes them from the block counter and the buffer count. */
  function CodedLength(nblocks: nat, count: nat): (nat, nat) {
    var low := nblocks * 64 % 0x1_0000_0000;
    var sum := (low + count) % 0x1_0000_0000;
    var lsb := sum * 8 % 0x1_0000_0000;
    (lsb, Count(low < nblocks) + nblocks / 0x400_0000 + Count(sum < low) + Count(lsb < sum) + sum / 0x2000_0000)
  }

  /** For a message of `n` bytes: the block counter has 32 bits. */
  function CodedLengthOf(n: nat): (nat, nat) {
    CodedLength(n / 64 % 0x1_0000_0000, n % 64)
  }

  /**
   The byte count, up to the 2^61 at which bit lengths repeat, has 32 bits and
   multiplying it by 8 modulo 2^32 does not make it smaller.
   */
  predicate NoFalseCarry(n: nat) {
    var m := n % 0x2000_0000_0000_0000;
    m < 0x1_0000_0000 && 8 * m % 0x1_0000_0000 >= m
  }

  /** All of this fits 32-bit words: the high word stays below 76. */
  method BitLength(nblocks: nat, count: nat) returns (lsb: nat, msb: nat)
    requires nblocks < 0x1_0000_0000 && count < 64
    ensures (lsb, msb) == CodedLength(nblocks, count)
    ensures lsb < 0x1_0000_0000 && msb < 76
  {
    msb := 0;
    var t := nblocks;
    lsb := t * 64 % 0x1_0000_0000;
    if lsb < t {
      msb := msb + 1;
    }
    msb := msb + t / 0x400_0000;
    t := lsb;
    lsb := (t + count) % 0x1_0000_0000;
    if lsb < t {
      msb := msb + 1;
    }
    t := lsb;
    lsb := t * 8 % 0x1_0000_0000;
    if lsb < t {
      msb := msb + 1;
    }
    msb := msb + t / 0x2000_0000;
  }

  /** The byte count split at the places where the code drops bits. */
  lemma Split(n: nat) returns (epoch: nat, high: nat, low: nat)
    ensures n == 0x40_0000_0000 * epoch + 0x1_0000_0000 * high + low
    ensures high < 64 && low < 0x1_0000_0000
    ensures n / 64 % 0x1_0000_0000 == 0x400_0000 * high + low / 64 && n % 64 == low % 64
  {
    epoch := n / 0x40_0000_0000;
    high := n % 0x40_0000_0000 / 0x1_0000_0000;
    low := n % 0x1_0000_0000;
    assert n == 0x40_0000_0000 * epoch + 0x1_0000_0000 * high + low;
    assert n / 64 == 0x1_0000_0000 * epoch + 0x400_0000 * high + low / 64;
  }

  lemma TrueWords(n: nat, epoch: nat, high: nat, low: nat)
    requires n == 0x40_0000_0000 * epoch + 0x1_0000_0000 * high + low && high < 64 && low < 0x1_0000_0000
    ensures LengthWords(n) ==
      (low * 8 % 0x1_0000_0000, 512 * (epoch % 0x80_0000) + 8 * high + low / 0x2000_0000)
  {
    hide LengthWords;
    var k, e := low / 0x2000_0000, epoch % 0x80_0000;
    assert 8 * n == 0x1_0000_0000 * (512 * epoch + 8 * high + k) + 8 * (low % 0x2000_0000);
    assert low * 8 == 0x1_0000_0000 * k + 8 * (low % 0x2000_0000);
    Divides(8 * n, 512 * epoch + 8 * high + k, 8 * (low % 0x2000_0000));
    Divides(low * 8, k, 8 * (low % 0x2000_0000));
    assert 512 * epoch + 8 * high + k == 0x1_0000_0000 * (epoch / 0x80_0000) + (512 * e + 8 * high + k);
    Divides(512 * epoch + 8 * high + k, epoch / 0x80_0000, 512 * e + 8 * high + k);
    TwoWords(n);
  }

  lemma Divides(x: nat, q: nat, r: nat)
    requires x == 0x1_0000_0000 * q + r && r < 0x1_0000_0000
    ensures x / 0x1_0000_0000 == q && x % 0x1_0000_0000 == r
  {
  }

  lemma TwoWords(n: nat)
    ensures LengthWords(n) == (8 * n % 0x1_0000_0000, 8 * n / 0x1_0000_0000 % 0x1_0000_0000)
  {
  }

  lemma Product(high: nat, blocks: nat)
    requires high < 64 && blocks < 0x400_0000
    ensures (0x400_0000 * high + blocks) * 64 % 0x1_0000_0000 == blocks * 64
    ensures (0x400_0000 * high + blocks) / 0x400_0000 == high
  {
  }

  lemma Fits(x: nat)
    requires x < 0x1_0000_0000
    ensures x % 0x1_0000_0000 == x
  {
  }

  lemma CodedWords(high: nat, blocks: nat, count: nat, low: nat)
    requires high < 64 && blocks < 0x400_0000 && count < 64 && low == blocks * 64 + count
    ensures CodedLength(0x400_0000 * high + blocks, count) ==
      (low * 8 % 0x1_0000_0000,
       Count(blocks * 64 < 0x400_0000 * high + blocks) + high
         + Count(low * 8 % 0x1_0000_0000 < low) + low / 0x2000_0000)
  {
    hide CodedLength;
    Product(high, blocks);
    Fits(low);
    Assembled(0x400_0000 * high + blocks, count, blocks * 64, low, low * 8 % 0x1_0000_0000);
  }

  lemma Assembled(nblocks: nat, count: nat, low: nat, sum: nat, lsb: nat)
    requires low == nblocks * 64 % 0x1_0000_0000 && sum == (low + count) % 0x1_0000_0000
    requires lsb == sum * 8 % 0x1_0000_0000
    ensures CodedLength(nblocks, count) ==
      (lsb, Count(low < nblocks) + nblocks / 0x400_0000 + Count(sum < low) + Count(lsb < sum) + sum / 0x2000_0000)
  {
  }

  lemma CodedWordsOf(n: nat, epoch: nat, high: nat, low: nat)
    requires n / 64 % 0x1_0000_0000 == 0x400_0000 * high + low / 64 && n % 64 == low % 64
    requires high < 64 && low < 0x1_0000_0000
    ensures CodedLengthOf(n) ==
      (low * 8 % 0x1_0000_0000,
       Count(low / 64 * 64 < 0x400_0000 * high + low / 64) + high
         + Count(low * 8 % 0x1_0000_0000 < low) + low / 0x2000_0000)
  {
    hide CodedLength;
    CodedWords(high, low / 64, low % 64, low);
  }

  lemma NoFalseCarryMeans(n: nat, epoch: nat, high: nat, low: nat)
    requires n == 0x40_0000_0000 * epoch + 0x1_0000_0000 * high + low && high < 64 && low < 0x1_0000_0000
    ensures NoFalseCarry(n) <==> epoch % 0x80_0000 == 0 && high == 0 && low * 8 % 0x1_0000_0000 >= low
  {
    var e := epoch % 0x80_0000;
    assert n == 0x2000_0000_0000_0000 * (epoch / 0x80_0000) + (0x40_0000_0000 * e + 0x1_0000_0000 * high + low);
    assert n % 0x2000_0000_0000_0000 == 0x40_0000_0000 * e + 0x1_0000_0000 * high + low;
  }

  /** Everything in terms of the parts of the byte count: its cycle, the bits beyond 32, and the low 32 bits. */
  lemma Parts(n: nat) returns (epoch: nat, high: nat, low: nat, blocks: nat, top: nat, lsb: nat)
    ensures LengthWords(n) == (lsb, 512 * epoch + 8 * high + top)
    ensures CodedLengthOf(n) == (lsb, Count(blocks * 64 < 0x400_0000 * high + blocks) + high + Count(lsb < low) + top)
    ensures NoFalseCarry(n) <==> epoch == 0 && high == 0 && lsb >= low
  {
    epoch, high, low := Split(n);
    TrueWords(n, epoch, high, low);
    CodedWordsOf(n, epoch, high, low);
    NoFalseCarryMeans(n, epoch, high, low);
    epoch, blocks, top, lsb := epoch % 0x80_0000, low / 64, low / 0x2000_0000, low * 8 % 0x1_0000_0000;
  }

  /** The low word is always right; both words if and only if no carry test misfires. */
  lemma LengthExactIff(n: nat)
    ensures CodedLengthOf(n).0 == LengthWords(n).0
    ensures CodedLengthOf(n) == LengthWords(n) <==> NoFalseCarry(n)
  {
    var epoch, high, low, blocks, top, lsb := Parts(n);
    Compare(epoch, high, low, lsb, blocks, top);
  }

  /** The high words differ by the misfired carries against multiples of 7 and 512. */
  lemma Compare(epoch: nat, high: nat, low: nat, lsb: nat, blocks: nat, top: nat)
    ensures (Count(blocks * 64 < 0x400_0000 * high + blocks) + high + Count(lsb < low) + top
             == 512 * epoch + 8 * high + top)
      <==> epoch == 0 && high == 0 && lsb >= low
  {
  }

  /** Below 2^29 bytes the length is right. */
  lemma LengthBound(n: nat)
    requires n < 0x2000_0000
    ensures CodedLengthOf(n) == LengthWords(n)
  {
    hide CodedLengthOf, LengthWords;
    LengthExactIff(n);
    assert n % 0x2000_0000_0000_0000 == n && 8 * n % 0x1_0000_0000 == 8 * n;
  }

  /** The bound is tight: at 2^29 bytes the high word is 2 instead of 1. */
  lemma LengthBoundTight()
    ensures CodedLengthOf(0x2000_0000) == (0, 2) && LengthWords(0x2000_0000) == (0, 1)
  {
    hide CodedLengthOf;
    CodedWordsOf(0x2000_0000, 0, 0, 0x2000_0000);
  }
}
