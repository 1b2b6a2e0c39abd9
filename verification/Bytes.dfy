/** Bytes and the little-endian form of 32-bit words. */
module Bytes {
  newtype byte = b: int | 0 <= b < 256

  const TWO32: nat := 0x1_0000_0000

  /** The `count` lowest base-256 digits of `n`, lowest first. */
  function Digits(n: nat, count: nat): (b: seq<byte>)
    ensures |b| == count
  {
    if count == 0 then [] else [(n % 256) as byte] + Digits(n / 256, count - 1)
  }

  function FromDigits(b: seq<byte>): nat {
    if b == [] then 0 else b[0] as nat + 256 * FromDigits(b[1..])
  }

  /** The four bytes of the low 32 bits of `n`. */
  function LittleEndian(n: nat): (b: seq<byte>)
    ensures |b| == 4
  {
    Digits(n, 4)
  }

  function FromLittleEndian(b: seq<byte>): nat
    requires |b| == 4
  {
    FromDigits(b)
  }

  lemma FourDigits(b: seq<byte>)
    requires |b| == 4
    ensures FromDigits(b) == b[0] as nat + 256 * b[1] as nat + 65536 * b[2] as nat + 16777216 * b[3] as nat
    ensures FromLittleEndian(b) < TWO32
  {
    var b1, b2, b3 := b[1..], b[1..][1..], b[1..][1..][1..];
    assert FromDigits(b3) == b3[0] as nat + 256 * FromDigits(b3[1..]) == b[3] as nat;
    assert FromDigits(b2) == b2[0] as nat + 256 * FromDigits(b3) == b[2] as nat + 256 * b[3] as nat;
    assert FromDigits(b1) == b1[0] as nat + 256 * FromDigits(b2);
  }

  lemma DigitsStep(n: nat, count: nat)
    requires count > 0
    ensures FromDigits(Digits(n, count)) == n % 256 + 256 * FromDigits(Digits(n / 256, count - 1))
  {
  }

  lemma LittleEndianValue(n: nat)
    ensures FromLittleEndian(LittleEndian(n)) == n % TWO32
  {
    DigitsStep(n, 4);
    DigitsStep(n / 256, 3);
    DigitsStep(n / 256 / 256, 2);
    DigitsStep(n / 256 / 256 / 256, 1);
    LowWord(n, n / 256, n / 256 / 256, n / 256 / 256 / 256);
  }

  lemma LowWord(n: nat, q1: nat, q2: nat, q3: nat)
    requires q1 == n / 256 && q2 == q1 / 256 && q3 == q2 / 256
    ensures n % TWO32 == n % 256 + 256 * (q1 % 256 + 256 * (q2 % 256 + 256 * (q3 % 256)))
  {
  }

  lemma {:induction false} DigitsOfValue(b: seq<byte>)
    ensures Digits(FromDigits(b), |b|) == b
  {
    if b != [] {
      DigitsOfValue(b[1..]);
      assert FromDigits(b) % 256 == b[0] as nat && FromDigits(b) / 256 == FromDigits(b[1..]);
      assert b == [b[0]] + b[1..];
    }
  }

  /** Equal bytes mean equal low words, and conversely. */
  lemma LittleEndianInjective(a: nat, b: nat)
    ensures LittleEndian(a) == LittleEndian(b) <==> a % TWO32 == b % TWO32
  {
    LittleEndianValue(a);
    LittleEndianValue(b);
    DigitsOfValue(LittleEndian(a));
    DigitsOfValue(LittleEndian(b));
  }
}
