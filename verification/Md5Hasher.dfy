/** Identities on 32-bit words, apart from everything else so that they are decided quickly. */
module BitTricks {
  lemma Choose(b: bv32, c: bv32, d: bv32)
    ensures d ^ (b & (c ^ d)) == (b & c) | (!b & d)
  {
  }

  lemma ChooseBack(b: bv32, c: bv32, d: bv32)
    ensures c ^ (d & (b ^ c)) == (b & d) | (c & !d)
  {
  }
}

/**
 The incremental hasher: a 64-byte buffer, a 32-bit block counter, an unrolled
 transformation, and a final step that pads and appends the bit length.
 */
module Md5Hasher {
  import opened Bytes
  import opened Sequences
  import opened Md5Spec
  import opened BitLengths
  import opened Wrappers
  import BitTricks

  // ---------------------------------------------------------------------
  // The transformation
  // ---------------------------------------------------------------------

  // The macros of the transformation, the first in its optimised form.

  function FF(b: bv32, c: bv32, d: bv32): bv32 { d ^ (b & (c ^ d)) }

  function FG(b: bv32, c: bv32, d: bv32): bv32 { FF(d, b, c) }

  function FH(b: bv32, c: bv32, d: bv32): bv32 { b ^ c ^ d }

  function FI(b: bv32, c: bv32, d: bv32): bv32 { c ^ (b | !d) }

  function OP(f: bv32, a: bv32, b: bv32, word: bv32, s: bv6, t: bv32): bv32 {
    RotateLeft(a + (f + word + t), s) + b
  }

  const MACROS: Operations<bv32> := Operations(FF, FG, FH, FI, OP)

  lemma MacrosAgree(x: bv32, y: bv32, z: bv32)
    ensures FF(x, y, z) == F(x, y, z) && FG(x, y, z) == G(x, y, z)
    ensures FH(x, y, z) == H(x, y, z) && FI(x, y, z) == I(x, y, z)
  {
    FAgrees(x, y, z);
    GAgrees(x, y, z);
    hide FF, FG, F, G;
  }

  lemma FAgrees(x: bv32, y: bv32, z: bv32)
    ensures FF(x, y, z) == F(x, y, z)
  {
    BitTricks.Choose(x, y, z);
  }

  lemma GAgrees(x: bv32, y: bv32, z: bv32)
    ensures FG(x, y, z) == G(x, y, z)
  {
    BitTricks.ChooseBack(x, y, z);
  }

  lemma OPAgrees(f: bv32, a: bv32, b: bv32, word: bv32, s: bv6, t: bv32)
    ensures OP(f, a, b, word, s, t) == Mix(f, a, b, word, s, t)
  {
  }

  lemma StepAgrees(r: Registers<bv32>, words: seq<bv32>, i: nat)
    requires |words| == 16 && i < 64
    ensures Step(MACROS, r, words, i) == Step(RFC, r, words, i)
  {
    MacrosAgree(r.b, r.c, r.d);
    OPAgrees(Auxiliary(RFC, i)(r.b, r.c, r.d), r.a, r.b, words[WordIndex(i)], Shift(i), T(i));
  }

  lemma {:induction false} StepsAgree(r: Registers<bv32>, words: seq<bv32>, last: nat)
    requires |words| == 16 && last <= 64
    ensures Steps(MACROS, r, words, 0, last) == Steps(RFC, r, words, 0, last)
  {
    if last > 0 {
      StepsAgree(r, words, last - 1);
      StepAgrees(Steps(RFC, r, words, 0, last - 1), words, last - 1);
    }
  }

  /** Round 1, unrolled. */
  method Round1<W>(o: Operations<W>, r: Registers<W>, words: seq<W>) returns (r': Registers<W>)
    requires |words| == 16
    ensures r' == Steps(o, r, words, 0, 16)
  {
    var A, B, C, D := r.a, r.b, r.c, r.d;
    A := o.op(o.f(B, C, D), A, B, words[0], 7, 0xd76aa478);
    D := o.op(o.f(A, B, C), D, A, words[1], 12, 0xe8c7b756);
    assert Registers(C, D, A, B) == Steps(o, r, words, 0, 2);
    C := o.op(o.f(D, A, B), C, D, words[2], 17, 0x242070db);
    B := o.op(o.f(C, D, A), B, C, words[3], 22, 0xc1bdceee);
    assert Registers(A, B, C, D) == Steps(o, r, words, 0, 4);
    A := o.op(o.f(B, C, D), A, B, words[4], 7, 0xf57c0faf);
    D := o.op(o.f(A, B, C), D, A, words[5], 12, 0x4787c62a);
    assert Registers(C, D, A, B) == Steps(o, r, words, 0, 6);
    C := o.op(o.f(D, A, B), C, D, words[6], 17, 0xa8304613);
    B := o.op(o.f(C, D, A), B, C, words[7], 22, 0xfd469501);
    assert Registers(A, B, C, D) == Steps(o, r, words, 0, 8);
    A := o.op(o.f(B, C, D), A, B, words[8], 7, 0x698098d8);
    D := o.op(o.f(A, B, C), D, A, words[9], 12, 0x8b44f7af);
    assert Registers(C, D, A, B) == Steps(o, r, words, 0, 10);
    C := o.op(o.f(D, A, B), C, D, words[10], 17, 0xffff5bb1);
    B := o.op(o.f(C, D, A), B, C, words[11], 22, 0x895cd7be);
    assert Registers(A, B, C, D) == Steps(o, r, words, 0, 12);
    A := o.op(o.f(B, C, D), A, B, words[12], 7, 0x6b901122);
    D := o.op(o.f(A, B, C), D, A, words[13], 12, 0xfd987193);
    assert Registers(C, D, A, B) == Steps(o, r, words, 0, 14);
    C := o.op(o.f(D, A, B), C, D, words[14], 17, 0xa679438e);
    B := o.op(o.f(C, D, A), B, C, words[15], 22, 0x49b40821);
    assert Registers(A, B, C, D) == Steps(o, r, words, 0, 16);
    r' := Registers(A, B, C, D);
  }

  /** Round 2, unrolled. */
  method Round2<W>(o: Operations<W>, r: Registers<W>, words: seq<W>) returns (r': Registers<W>)
    requires |words| == 16
    ensures r' == Steps(o, r, words, 16, 32)
  {
    var A, B, C, D := r.a, r.b, r.c, r.d;
    A := o.op(o.g(B, C, D), A, B, words[1], 5, 0xf61e2562);
    D := o.op(o.g(A, B, C), D, A, words[6], 9, 0xc040b340);
    assert Registers(C, D, A, B) == Steps(o, r, words, 16, 18);
    C := o.op(o.g(D, A, B), C, D, words[11], 14, 0x265e5a51);
    B := o.op(o.g(C, D, A), B, C, words[0], 20, 0xe9b6c7aa);
    assert Registers(A, B, C, D) == Steps(o, r, words, 16, 20);
    A := o.op(o.g(B, C, D), A, B, words[5], 5, 0xd62f105d);
    D := o.op(o.g(A, B, C), D, A, words[10], 9, 0x02441453);
    assert Registers(C, D, A, B) == Steps(o, r, words, 16, 22);
    C := o.op(o.g(D, A, B), C, D, words[15], 14, 0xd8a1e681);
    B := o.op(o.g(C, D, A), B, C, words[4], 20, 0xe7d3fbc8);
    assert Registers(A, B, C, D) == Steps(o, r, words, 16, 24);
    A := o.op(o.g(B, C, D), A, B, words[9], 5, 0x21e1cde6);
    D := o.op(o.g(A, B, C), D, A, words[14], 9, 0xc33707d6);
    assert Registers(C, D, A, B) == Steps(o, r, words, 16, 26);
    C := o.op(o.g(D, A, B), C, D, words[3], 14, 0xf4d50d87);
    B := o.op(o.g(C, D, A), B, C, words[8], 20, 0x455a14ed);
    assert Registers(A, B, C, D) == Steps(o, r, words, 16, 28);
    A := o.op(o.g(B, C, D), A, B, words[13], 5, 0xa9e3e905);
    D := o.op(o.g(A, B, C), D, A, words[2], 9, 0xfcefa3f8);
    assert Registers(C, D, A, B) == Steps(o, r, words, 16, 30);
    C := o.op(o.g(D, A, B), C, D, words[7], 14, 0x676f02d9);
    B := o.op(o.g(C, D, A), B, C, words[12], 20, 0x8d2a4c8a);
    assert Registers(A, B, C, D) == Steps(o, r, words, 16, 32);
    r' := Registers(A, B, C, D);
  }

  /** Round 3, unrolled. */
  method Round3<W>(o: Operations<W>, r: Registers<W>, words: seq<W>) returns (r': Registers<W>)
    requires |words| == 16
    ensures r' == Steps(o, r, words, 32, 48)
  {
    var A, B, C, D := r.a, r.b, r.c, r.d;
    A := o.op(o.h(B, C, D), A, B, words[5], 4, 0xfffa3942);
    D := o.op(o.h(A, B, C), D, A, words[8], 11, 0x8771f681);
    assert Registers(C, D, A, B) == Steps(o, r, words, 32, 34);
    C := o.op(o.h(D, A, B), C, D, words[11], 16, 0x6d9d6122);
    B := o.op(o.h(C, D, A), B, C, words[14], 23, 0xfde5380c);
    assert Registers(A, B, C, D) == Steps(o, r, words, 32, 36);
    A := o.op(o.h(B, C, D), A, B, words[1], 4, 0xa4beea44);
    D := o.op(o.h(A, B, C), D, A, words[4], 11, 0x4bdecfa9);
    assert Registers(C, D, A, B) == Steps(o, r, words, 32, 38);
    C := o.op(o.h(D, A, B), C, D, words[7], 16, 0xf6bb4b60);
    B := o.op(o.h(C, D, A), B, C, words[10], 23, 0xbebfbc70);
    assert Registers(A, B, C, D) == Steps(o, r, words, 32, 40);
    A := o.op(o.h(B, C, D), A, B, words[13], 4, 0x289b7ec6);
    D := o.op(o.h(A, B, C), D, A, words[0], 11, 0xeaa127fa);
    assert Registers(C, D, A, B) == Steps(o, r, words, 32, 42);
    C := o.op(o.h(D, A, B), C, D, words[3], 16, 0xd4ef3085);
    B := o.op(o.h(C, D, A), B, C, words[6], 23, 0x04881d05);
    assert Registers(A, B, C, D) == Steps(o, r, words, 32, 44);
    A := o.op(o.h(B, C, D), A, B, words[9], 4, 0xd9d4d039);
    D := o.op(o.h(A, B, C), D, A, words[12], 11, 0xe6db99e5);
    assert Registers(C, D, A, B) == Steps(o, r, words, 32, 46);
    C := o.op(o.h(D, A, B), C, D, words[15], 16, 0x1fa27cf8);
    B := o.op(o.h(C, D, A), B, C, words[2], 23, 0xc4ac5665);
    assert Registers(A, B, C, D) == Steps(o, r, words, 32, 48);
    r' := Registers(A, B, C, D);
  }

  /** Round 4, unrolled. */
  method Round4<W>(o: Operations<W>, r: Registers<W>, words: seq<W>) returns (r': Registers<W>)
    requires |words| == 16
    ensures r' == Steps(o, r, words, 48, 64)
  {
    var A, B, C, D := r.a, r.b, r.c, r.d;
    A := o.op(o.i(B, C, D), A, B, words[0], 6, 0xf4292244);
    D := o.op(o.i(A, B, C), D, A, words[7], 10, 0x432aff97);
    assert Registers(C, D, A, B) == Steps(o, r, words, 48, 50);
    C := o.op(o.i(D, A, B), C, D, words[14], 15, 0xab9423a7);
    B := o.op(o.i(C, D, A), B, C, words[5], 21, 0xfc93a039);
    assert Registers(A, B, C, D) == Steps(o, r, words, 48, 52);
    A := o.op(o.i(B, C, D), A, B, words[12], 6, 0x655b59c3);
    D := o.op(o.i(A, B, C), D, A, words[3], 10, 0x8f0ccc92);
    assert Registers(C, D, A, B) == Steps(o, r, words, 48, 54);
    C := o.op(o.i(D, A, B), C, D, words[10], 15, 0xffeff47d);
    B := o.op(o.i(C, D, A), B, C, words[1], 21, 0x85845dd1);
    assert Registers(A, B, C, D) == Steps(o, r, words, 48, 56);
    A := o.op(o.i(B, C, D), A, B, words[8], 6, 0x6fa87e4f);
    D := o.op(o.i(A, B, C), D, A, words[15], 10, 0xfe2ce6e0);
    assert Registers(C, D, A, B) == Steps(o, r, words, 48, 58);
    C := o.op(o.i(D, A, B), C, D, words[6], 15, 0xa3014314);
    B := o.op(o.i(C, D, A), B, C, words[13], 21, 0x4e0811a1);
    assert Registers(A, B, C, D) == Steps(o, r, words, 48, 60);
    A := o.op(o.i(B, C, D), A, B, words[4], 6, 0xf7537e82);
    D := o.op(o.i(A, B, C), D, A, words[11], 10, 0xbd3af235);
    assert Registers(C, D, A, B) == Steps(o, r, words, 48, 62);
    C := o.op(o.i(D, A, B), C, D, words[2], 15, 0x2ad7d2bb);
    B := o.op(o.i(C, D, A), B, C, words[9], 21, 0xeb86d391);
    assert Registers(A, B, C, D) == Steps(o, r, words, 48, 64);
    r' := Registers(A, B, C, D);
  }

  /** The 64 unrolled steps are the 64 steps of the table, whatever the operations. */
  method Unrolled<W>(o: Operations<W>, r: Registers<W>, words: seq<W>) returns (r': Registers<W>)
    requires |words| == 16
    ensures r' == Steps(o, r, words, 0, 64)
  {
    r' := Round1(o, r, words);
    StepsSplit(o, r, words, 16, 32);
    r' := Round2(o, r', words);
    StepsSplit(o, r, words, 32, 48);
    r' := Round3(o, r', words);
    StepsSplit(o, r, words, 48, 64);
    r' := Round4(o, r', words);
  }

  // ---------------------------------------------------------------------
  // The hasher
  // ---------------------------------------------------------------------

  /** Padding with the length as the code computes it. */
  function CodedTail(n: nat): seq<byte> {
    Tail(n, CodedLengthOf(n))
  }

  lemma OneMoreBlock(n: nat)
    requires n % 64 == 0
    ensures (n + 64) % 64 == 0 && (n + 64) / 64 % TWO32 == (n / 64 % TWO32 + 1) % TWO32
  {
  }

  class MD5Hasher {
    var A: bv32
    var B: bv32
    var C: bv32
    var D: bv32
    var nblocks: nat
    const buf: array<byte>
    var count: nat

    // All bytes given to transform() since init(), and all bytes written.
    ghost var transformed: seq<byte>
    ghost var written: seq<byte>

    function State(): Registers<bv32>
      reads this
    {
      Registers(A, B, C, D)
    }

    /** The registers have absorbed all complete blocks of what was written; the buffer holds the rest. */
    ghost predicate Valid()
      reads this, buf
    {
      && buf.Length == 64 && count <= 64
      && |transformed| % 64 == 0 && nblocks == |transformed| / 64 % TWO32
      && State() == Absorb(START, transformed)
      && written == transformed + buf[..count]
    }

    constructor ()
      ensures Valid() && written == [] && count == 0 && fresh(buf)
    {
      buf := new byte[64];
      new;
      Init();
    }

    method Init()
      requires buf.Length == 64
      modifies this, buf
      ensures Valid() && written == [] && count == 0
    {
      A, B, C, D := 0x67452301, 0xefcdab89, 0x98badcfe, 0x10325476;
      nblocks := 0;
      count := 0;
      for i := 0 to 64
        invariant State() == START && nblocks == count == 0
      {
        buf[i] := 0;
      }
      transformed, written := [], [];
    }

    method Transform(data: seq<byte>)
      requires |data| == 64
      modifies this`A, this`B, this`C, this`D
      ensures State() == Process(old(State()), data)
    {
      hide WordsOf, Steps, Plus;
      var words := WordsOf(data);
      var r := Unrolled(MACROS, State(), words);
      StepsAgree(State(), words, 64);
      A, B, C, D := Plus(A, r.a), Plus(B, r.b), Plus(C, r.c), Plus(D, r.d);
    }

    /** Transforms one block that continues what was transformed before, and counts it. */
    method TransformAndCount(block: seq<byte>)
      requires |block| == 64 && |transformed| % 64 == 0 && nblocks == |transformed| / 64 % TWO32
      requires State() == Absorb(START, transformed)
      modifies this`A, this`B, this`C, this`D, this`nblocks, this`count, this`transformed
      ensures transformed == old(transformed) + block && |transformed| % 64 == 0
      ensures nblocks == |transformed| / 64 % TWO32 && count == 0
      ensures State() == Absorb(START, transformed)
    {
      hide Absorb, Process;
      Transform(block);
      count := 0;
      OneMoreBlock(|transformed|);
      nblocks := (nblocks + 1) % TWO32;
      AbsorbBlock(START, transformed, block);
      transformed := transformed + block;
    }

    /** What a call with a null buffer does: a full buffer is transformed. */
    method Flush()
      requires Valid()
      modifies this`A, this`B, this`C, this`D, this`nblocks, this`count, this`transformed
      ensures Valid() && count < 64 && count == (if old(count) == 64 then 0 else old(count))
    {
      hide Absorb;
      if count == 64 {
        assert buf[..64] == buf[..];
        TransformAndCount(buf[..]);
      }
    }

    /** Transforms the whole blocks of `data` from a position on; returns the position after them. */
    method TakeBlocks(data: seq<byte>, from: nat) returns (position: nat)
      requires Valid() && count == 0 && from <= |data|
      modifies this`A, this`B, this`C, this`D, this`nblocks, this`count, this`transformed, this`written
      ensures Valid() && count == 0 && from <= position <= |data| < position + 64
      ensures written == old(written) + data[from..position]
    {
      hide Absorb;
      position := from;
      while |data| - position >= 64
        invariant Valid() && from <= position <= |data| && count == 0
        invariant written == old(written) + data[from..position]
      {
        var block := data[position..position + 64];
        assert data[from..position + 64] == data[from..position] + block;
        TransformAndCount(block);
        written := written + block;
        position := position + 64;
      }
    }

    /** Appends to the buffer, from `data[from..]`, as much as fits; returns the new position in `data`. */
    method Fill(data: seq<byte>, from: nat) returns (position: nat)
      requires Valid() && from <= |data|
      modifies this`count, this`written, buf
      ensures Valid() && from <= position <= |data|
      ensures transformed == old(transformed) && nblocks == old(nblocks)
      ensures written == old(written) + data[from..position]
      ensures position == |data| || count == 64
      ensures old(count) <= count <= 64 && count - old(count) == position - from
    {
      hide Absorb;
      position := from;
      while position < |data| && count < 64
        invariant Valid() && from <= position <= |data|
        invariant transformed == old(transformed) && nblocks == old(nblocks)
        invariant written == old(written) + data[from..position]
        invariant count - old(count) == position - from
      {
        buf[count] := data[position];
        count := count + 1;
        assert data[from..position + 1] == data[from..position] + [data[position]];
        assert buf[..count] == buf[..count - 1] + [data[position]];
        written := written + [data[position]];
        position := position + 1;
      }
    }

    /** With an empty buffer: whole blocks are transformed from the input, the rest is kept. */
    method TakeRest(data: seq<byte>, from: nat)
      requires Valid() && count == 0 && from <= |data|
      modifies this, buf
      ensures Valid() && count < 64 && written == old(written) + data[from..]
    {
      hide Valid;
      var middle := TakeBlocks(data, from);
      var position := Fill(data, middle);
      assert data[from..] == data[from..middle] + data[middle..position];
    }

    /**
     Takes in more of the message; a null buffer only flushes. However the message
     is split into calls, the hasher ends up in the state that depends on it alone.
     */
    method Write(inbuf: Option<seq<byte>>)
      requires Valid()
      modifies this, buf
      ensures Valid() && count < 64
      ensures written == old(written) + if inbuf.Some? then inbuf.value else []
      ensures inbuf.None? ==> count == if old(count) == 64 then 0 else old(count)
      decreases inbuf.Some?
    {
      hide Valid;
      Flush();
      if inbuf.None? {
        return;
      }
      var data := inbuf.value;
      var position := 0;
      if count > 0 {
        position := Fill(data, 0);
        Write(None);
        if position == |data| {
          assert data[0..position] == data;
          return;
        }
      }
      assert count == 0 && written == old(written) + data[..position];
      TakeRest(data, position);
      assert data == data[..position] + data[position..];
    }

    method SetWord(at: nat, word: nat)
      requires at + 4 <= buf.Length
      modifies buf
      ensures buf[at..at + 4] == LittleEndian(word)
      ensures buf[..at] == old(buf[..at]) && buf[at + 4..] == old(buf[at + 4..])
    {
      var bytes := LittleEndian(word);
      for i := 0 to 4
        invariant buf[at..at + i] == bytes[..i]
        invariant buf[..at] == old(buf[..at]) && buf[at + 4..] == old(buf[at + 4..])
      {
        buf[at + i] := bytes[i];
      }
    }

    /** Zero bytes up to a given count. */
    method PadZeros(limit: nat)
      requires Valid() && count <= limit <= 64
      modifies this`count, this`written, buf
      ensures Valid() && count == limit && transformed == old(transformed)
      ensures written == old(written) + Zeros(limit - old(count))
    {
      hide Absorb;
      while count < limit
        invariant Valid() && old(count) <= count <= limit && transformed == old(transformed)
        invariant written == old(written) + Zeros(count - old(count))
      {
        buf[count] := 0;
        count := count + 1;
        assert buf[..count] == buf[..count - 1] + [0];
        assert Zeros(count - old(count)) == Zeros(count - 1 - old(count)) + [0];
        written := written + [0];
      }
    }

    method PadMark()
      requires Valid() && count < 64
      modifies this`count, this`written, buf
      ensures Valid() && count == old(count) + 1 && transformed == old(transformed)
      ensures written == old(written) + [0x80]
    {
      hide Absorb;
      buf[count] := 0x80;
      count := count + 1;
      assert buf[..count] == buf[..count - 1] + [0x80];
      written := written + [0x80];
    }

    /** Pads until only the eight length bytes of the last block are missing, in an extra block if need be. */
    method Pad()
      requires Valid() && count < 64
      modifies this, buf
      ensures |transformed| % 64 == 0 && State() == Absorb(START, transformed)
      ensures transformed + buf[..56] == old(written) + [0x80] + Zeros(ZeroCount(|old(written)|))
    {
      hide Absorb;
      var c := count;
      assert |written| % 64 == c;
      if count < 56 {
        PadMark();
        PadZeros(56);
      } else {
        PadMark();
        PadZeros(64);
        FlushPadding();
        Reassociate(old(written) + [0x80], Zeros(63 - c), Zeros(56));
        assert Zeros(63 - c) + Zeros(56) == Zeros(119 - c);
      }
    }

    /** The extra block: the full buffer is transformed and the next block starts with zeros. */
    method FlushPadding()
      requires Valid() && count == 64
      modifies this, buf
      ensures |transformed| % 64 == 0 && State() == Absorb(START, transformed)
      ensures transformed == old(written) && buf[..56] == Zeros(56)
    {
      hide Absorb;
      Write(None);
      assert written == transformed + buf[..0] == transformed;
      assert written == old(written) + [] == old(written);
      ClearFront();
    }

    method ClearFront()
      requires buf.Length == 64
      modifies buf
      ensures buf[..56] == Zeros(56)
    {
      for i := 0 to 56
        invariant buf[..i] == Zeros(i)
      {
        buf[i] := 0;
      }
    }

    /** Ends the message: padding, length and the last block, after which the buffer starts with the digest. */
    method Final()
      requires Valid()
      modifies this, buf
      ensures transformed == old(written) + CodedTail(|old(written)|)
      ensures |transformed| % 64 == 0 && State() == Absorb(START, transformed)
      ensures buf[..16] == Output(State())
    {
      hide Absorb, LittleEndian, CodedLength;
      Write(None);
      var lsb, msb := BitLength(nblocks, count);
      CountersOfLength();
      Pad();
      LastBlock(lsb, msb);
      Reassociate(old(written), [0x80] + Zeros(ZeroCount(|old(written)|)), LittleEndian(lsb) + LittleEndian(msb));
      WriteOutput();
    }

    /** The length bytes complete the last block. */
    method LastBlock(lsb: nat, msb: nat)
      requires buf.Length == 64 && |transformed| % 64 == 0 && State() == Absorb(START, transformed)
      modifies this, buf
      ensures transformed == old(transformed + buf[..56]) + LittleEndian(lsb) + LittleEndian(msb)
      ensures |transformed| % 64 == 0 && State() == Absorb(START, transformed)
    {
      hide Absorb, Process, LittleEndian;
      SetWord(56, lsb);
      SetWord(60, msb);
      var block := buf[..];
      assert block == old(buf[..56]) + LittleEndian(lsb) + LittleEndian(msb) by {
        assert block[..56] == old(buf[..56]);
        assert block[56..60] == LittleEndian(lsb) && block[60..64] == LittleEndian(msb);
      }
      Transform(block);
      AbsorbBlock(START, transformed, block);
      transformed := transformed + block;
    }

    method WriteOutput()
      requires buf.Length == 64
      modifies buf
      ensures buf[..16] == Output(State())
    {
      hide LittleEndian;
      ghost var a, b, c := LittleEndian(A as nat), LittleEndian(B as nat), LittleEndian(C as nat);
      SetWord(0, A as nat);
      assert buf[..4] == a;
      SetWord(4, B as nat);
      assert buf[..8] == buf[..4] + buf[4..8] == a + b;
      SetWord(8, C as nat);
      assert buf[..12] == buf[..8] + buf[8..12] == a + b + c;
      SetWord(12, D as nat);
      assert buf[..16] == buf[..12] + buf[12..16] == a + b + c + LittleEndian(D as nat);
    }

    lemma CountersOfLength()
      requires Valid() && count < 64
      ensures CodedLength(nblocks, count) == CodedLengthOf(|written|)
    {
      hide Absorb;
      assert |written| / 64 == |transformed| / 64 && |written| % 64 == count;
    }

    /** The digest of a whole message. */
    method Hash(message: seq<byte>) returns (digest: seq<byte>)
      requires buf.Length == 64
      modifies this, buf
      ensures digest == CodedDigest(message)
      ensures NoFalseCarry(|message|) ==> digest == MessageDigest(message)
    {
      hide Absorb, Output, Tail, CodedLengthOf, BitLengths.LengthWords, NoFalseCarry;
      Init();
      Write(Some(message));
      assert written == message;
      Final();
      digest := buf[..16];
      PaddingExactIff(message);
    }
  }

  /** What the hasher computes: RFC 1321 but for the length words. */
  function CodedDigest(message: seq<byte>): seq<byte> {
    Output(Absorb(START, message + CodedTail(|message|)))
  }

  /** The blocks transformed are the blocks of the padded message if and only if no carry test misfires. */
  lemma PaddingExactIff(message: seq<byte>)
    ensures message + CodedTail(|message|) == Padded(message) <==> NoFalseCarry(|message|)
  {
    hide NoFalseCarry, CodedLengthOf, BitLengths.LengthWords, LittleEndian;
    var n := |message|;
    var coded, exact := CodedLengthOf(n), BitLengths.LengthWords(n);
    LengthExactIff(n);
    WordsSmall(n);
    LittleEndianInjective(coded.0, exact.0);
    LittleEndianInjective(coded.1, exact.1);
    assert (message + CodedTail(n))[n..] == CodedTail(n) && Padded(message)[n..] == Tail(n, exact);
    TailInjective(n, coded, exact);
  }

  lemma WordsSmall(n: nat)
    ensures CodedLengthOf(n).1 < TWO32 && BitLengths.LengthWords(n).1 < TWO32
    ensures CodedLengthOf(n).0 < TWO32 && BitLengths.LengthWords(n).0 < TWO32
  {
  }

  lemma TailInjective(n: nat, x: (nat, nat), y: (nat, nat))
    ensures Tail(n, x) == Tail(n, y) <==>
      LittleEndian(x.0) == LittleEndian(y.0) && LittleEndian(x.1) == LittleEndian(y.1)
  {
    hide LittleEndian;
    var k := 1 + ZeroCount(n);
    assert Tail(n, x)[k..k + 4] == LittleEndian(x.0) && Tail(n, x)[k + 4..] == LittleEndian(x.1);
    assert Tail(n, y)[k..k + 4] == LittleEndian(y.0) && Tail(n, y)[k + 4..] == LittleEndian(y.1);
  }

  /** However two hashers were fed, if they took in the same bytes they are in the same state. */
  lemma SplitIndependent(first: MD5Hasher, second: MD5Hasher)
    requires first.Valid() && second.Valid() && first.count < 64 && second.count < 64
    requires first.written == second.written
    ensures first.State() == second.State() && first.nblocks == second.nblocks && first.count == second.count
    ensures first.buf[..first.count] == second.buf[..second.count]
  {
    hide Absorb;
    SamePieces(first.transformed, first.buf[..first.count], second.transformed, second.buf[..second.count]);
  }

  /** Whole blocks and a shorter rest are determined by the bytes they make up. */
  lemma SamePieces(a: seq<byte>, b: seq<byte>, c: seq<byte>, d: seq<byte>)
    requires a + b == c + d && |a| % 64 == |c| % 64 == 0 && |b| < 64 && |d| < 64
    ensures a == c && b == d
  {
    assert |b| == |a + b| % 64 == |d|;
    assert a == (a + b)[..|a|] && c == (c + d)[..|a|];
    assert b == (a + b)[|a|..] && d == (c + d)[|a|..];
  }
}
