/** The compression step of MD5: the definition of section 3.4 of RFC 1321 by its
    schedule of operations, and the program's unrolled code, proved to compute it. */
module Md5Compression {

  import opened Octets

  type Word = bv32

  /** The four chaining registers. */
  datatype Chain = Chain(a: Word, b: Word, c: Word, d: Word)

  // ---- the definition -------------------------------------------------------------

  function F(x: Word, y: Word, z: Word): Word { (x & y) | (!x & z) }
  function G(x: Word, y: Word, z: Word): Word { (x & z) | (y & !z) }
  function H(x: Word, y: Word, z: Word): Word { x ^ y ^ z }
  function I(x: Word, y: Word, z: Word): Word { y ^ (x | !z) }

  /** Addition of words, modulo 2^32. */
  function Plus(a: Word, b: Word): Word { a + b }

  function Rotate(w: Word, s: nat): Word
    requires 0 < s < 32
  {
    w.RotateLeft(s)
  }

  /** Which of the four functions an operation uses. */
  function Mix(i: nat, x: Word, y: Word, z: Word): Word
    requires i < 64
  {
    if i < 16 then F(x, y, z) else if i < 32 then G(x, y, z) else if i < 48 then H(x, y, z) else I(x, y, z)
  }

  /** Which word of the block an operation takes. */
  function WordIndex(i: nat): (k: nat)
    requires i < 64
    ensures k < 16
  {
    if i < 16 then i else if i < 32 then (5 * i + 1) % 16 else if i < 48 then (3 * i + 5) % 16 else 7 * i % 16
  }

  /** By how much an operation rotates. */
  function Shift(i: nat): (s: nat)
    requires i < 64
    ensures 0 < s < 32
  {
    var r := i % 4;
    if i < 16 then 7 + 5 * r
    else if i < 32 then if r == 0 then 5 else if r == 1 then 9 else if r == 2 then 14 else 20
    else if i < 48 then if r == 0 then 4 else if r == 1 then 11 else if r == 2 then 16 else 23
    else if r == 0 then 6 else if r == 1 then 10 else if r == 2 then 15 else 21
  }

  /** The additive constant of an operation: the integer part of 2^32 times |sin(i + 1)|. */
  function T(i: nat): Word
    requires i < 64
  {
    if i < 4 then Nth(i - 0, 0xd76aa478, 0xe8c7b756, 0x242070db, 0xc1bdceee)
    else if i < 8 then Nth(i - 4, 0xf57c0faf, 0x4787c62a, 0xa8304613, 0xfd469501)
    else if i < 12 then Nth(i - 8, 0x698098d8, 0x8b44f7af, 0xffff5bb1, 0x895cd7be)
    else if i < 16 then Nth(i - 12, 0x6b901122, 0xfd987193, 0xa679438e, 0x49b40821)
    else if i < 20 then Nth(i - 16, 0xf61e2562, 0xc040b340, 0x265e5a51, 0xe9b6c7aa)
    else if i < 24 then Nth(i - 20, 0xd62f105d, 0x02441453, 0xd8a1e681, 0xe7d3fbc8)
    else if i < 28 then Nth(i - 24, 0x21e1cde6, 0xc33707d6, 0xf4d50d87, 0x455a14ed)
    else if i < 32 then Nth(i - 28, 0xa9e3e905, 0xfcefa3f8, 0x676f02d9, 0x8d2a4c8a)
    else if i < 36 then Nth(i - 32, 0xfffa3942, 0x8771f681, 0x6d9d6122, 0xfde5380c)
    else if i < 40 then Nth(i - 36, 0xa4beea44, 0x4bdecfa9, 0xf6bb4b60, 0xbebfbc70)
    else if i < 44 then Nth(i - 40, 0x289b7ec6, 0xeaa127fa, 0xd4ef3085, 0x04881d05)
    else if i < 48 then Nth(i - 44, 0xd9d4d039, 0xe6db99e5, 0x1fa27cf8, 0xc4ac5665)
    else if i < 52 then Nth(i - 48, 0xf4292244, 0x432aff97, 0xab9423a7, 0xfc93a039)
    else if i < 56 then Nth(i - 52, 0x655b59c3, 0x8f0ccc92, 0xffeff47d, 0x85845dd1)
    else if i < 60 then Nth(i - 56, 0x6fa87e4f, 0xfe2ce6e0, 0xa3014314, 0x4e0811a1)
    else Nth(i - 60, 0xf7537e82, 0xbd3af235, 0x2ad7d2bb, 0xeb86d391)
  }

  function Nth(i: nat, a: Word, b: Word, c: Word, d: Word): Word
    requires i < 4
  {
    if i == 0 then a else if i == 1 then b else if i == 2 then c else d
  }

  /** One operation; afterwards the registers have moved on by one place. */
  function Operation(i: nat, s: Chain, x: seq<Word>): Chain
    requires i < 64 && |x| == 16
  {
    var mixed := Plus(s.b, Rotate(Plus(s.a, Plus(Mix(i, s.b, s.c, s.d), Plus(x[WordIndex(i)], T(i)))), Shift(i)));
    Chain(s.d, mixed, s.b, s.c)
  }

  function Operations(n: nat, s: Chain, x: seq<Word>): Chain
    requires n <= 64 && |x| == 16
  {
    if n == 0 then s else Operation(n - 1, Operations(n - 1, s, x), x)
  }

  /** A byte as a word, and the low byte of a word. */
  function Widened(b: Byte): Word { b as bv32 }

  function LowByte(w: Word): Byte { (w & 0xff) as int }

  function Joined(b0: Word, b1: Word, b2: Word, b3: Word): Word {
    b0 | (b1 << 8) | (b2 << 16) | (b3 << 24)
  }

  /** Four bytes, low byte first. */
  function WordAt(block: seq<Byte>, i: nat): Word
    requires 4 * i + 3 < |block|
  {
    Joined(Widened(block[4 * i]), Widened(block[4 * i + 1]), Widened(block[4 * i + 2]), Widened(block[4 * i + 3]))
  }

  function Words(block: seq<Byte>): (x: seq<Word>)
    requires |block| == 64
    ensures |x| == 16
  {
    seq(16, i requires 0 <= i < 16 => WordAt(block, i))
  }

  function Sum(s: Chain, t: Chain): Chain {
    Chain(Plus(s.a, t.a), Plus(s.b, t.b), Plus(s.c, t.c), Plus(s.d, t.d))
  }

  /** The chaining registers after one block. */
  function Compress(h: Chain, block: seq<Byte>): Chain
    requires |block| == 64
  {
    Sum(h, Operations(64, h, Words(block)))
  }

  // ---- the program's code ---------------------------------------------------------

  function F1(x: Word, y: Word, z: Word): Word { z ^ (x & (y ^ z)) }
  function F2(x: Word, y: Word, z: Word): Word { F1(z, x, y) }
  function F3(x: Word, y: Word, z: Word): Word { x ^ y ^ z }
  function F4(x: Word, y: Word, z: Word): Word { y ^ (x | !z) }

  /** The step macro: add, rotate by two shifts, add. */
  function Md5Step(mixed: Word, w: Word, x: Word, data: Word, s: nat): Word
    requires 0 < s < 32
  {
    Plus(ShiftBoth(Plus(w, Plus(mixed, data)), s), x)
  }

  function ShiftBoth(w: Word, s: nat): Word
    requires 0 < s < 32
  {
    (w << s) | (w >> 32 - s)
  }

  /** The program's function for operation i. */
  function Mixed(i: nat, x: Word, y: Word, z: Word): Word
    requires i < 64
  {
    if i < 16 then F1(x, y, z) else if i < 32 then F2(x, y, z) else if i < 48 then F3(x, y, z) else F4(x, y, z)
  }

  /** The optimized selection is the selection: where a bit of x is set it takes y, elsewhere z. */
  lemma Selects(x: Word, y: Word, z: Word)
    ensures z ^ (x & (y ^ z)) == (x & y) | (!x & z)
  {
  }

  lemma SelectsLast(x: Word, y: Word, z: Word)
    ensures y ^ (z & (x ^ y)) == (x & z) | (y & !z)
  {
  }

  lemma MixedIsMix(i: nat, x: Word, y: Word, z: Word)
    requires i < 64
    ensures Mixed(i, x, y, z) == Mix(i, x, y, z)
  {
    hide F, G, H, I, F1, F2, F3, F4;
    OptimizedSelections(x, y, z);
    OtherMixes(x, y, z);
  }

  lemma OptimizedSelections(x: Word, y: Word, z: Word)
    ensures F1(x, y, z) == F(x, y, z) && F2(x, y, z) == G(x, y, z)
  {
    Selects(x, y, z);
    SelectsLast(x, y, z);
  }

  lemma OtherMixes(x: Word, y: Word, z: Word)
    ensures F3(x, y, z) == H(x, y, z) && F4(x, y, z) == I(x, y, z)
  {
  }

  lemma ShiftsRotate(w: Word, s: nat)
    requires s in {4, 5, 6, 7, 9, 10, 11, 12, 14, 15, 16, 17, 20, 21, 22, 23}
    ensures ShiftBoth(w, s) == Rotate(w, s)
  {
    assert ShiftBoth(w, 4) == Rotate(w, 4);
    assert ShiftBoth(w, 5) == Rotate(w, 5);
    assert ShiftBoth(w, 6) == Rotate(w, 6);
    assert ShiftBoth(w, 7) == Rotate(w, 7);
    assert ShiftBoth(w, 9) == Rotate(w, 9);
    assert ShiftBoth(w, 10) == Rotate(w, 10);
    assert ShiftBoth(w, 11) == Rotate(w, 11);
    assert ShiftBoth(w, 12) == Rotate(w, 12);
    assert ShiftBoth(w, 14) == Rotate(w, 14);
    assert ShiftBoth(w, 15) == Rotate(w, 15);
    assert ShiftBoth(w, 16) == Rotate(w, 16);
    assert ShiftBoth(w, 17) == Rotate(w, 17);
    assert ShiftBoth(w, 20) == Rotate(w, 20);
    assert ShiftBoth(w, 21) == Rotate(w, 21);
    assert ShiftBoth(w, 22) == Rotate(w, 22);
    assert ShiftBoth(w, 23) == Rotate(w, 23);
  }

  lemma Commute(a: Word, b: Word)
    ensures Plus(a, b) == Plus(b, a)
  {
  }

  /** Operation i takes word k and constant t and rotates by r. */
  predicate Row(i: nat, k: nat, t: Word, r: nat)
    requires i < 64
  {
    WordIndex(i) == k && T(i) == t && Shift(i) == r
  }

  /** One statement of the unrolled code is one operation of the schedule. */
  lemma Advance(i: nat, h: Chain, x: seq<Word>, s: Chain, k: nat, t: Word, r: nat)
    requires i < 64 && |x| == 16 && Operations(i, h, x) == s && k < 16 && 0 < r < 32 && Row(i, k, t, r)
    ensures Operations(i + 1, h, x) ==
            Chain(s.d, Md5Step(Mixed(i, s.b, s.c, s.d), s.a, s.b, Plus(x[k], t), r), s.b, s.c)
  {
    hide T, Mix, Mixed, ShiftBoth, Rotate, Plus, WordIndex, Shift;
    var m, w := Mix(i, s.b, s.c, s.d), x[k];
    MixedIsMix(i, s.b, s.c, s.d);
    ShiftIsListed(i);
    var sum := Plus(s.a, Plus(m, Plus(w, t)));
    ShiftsRotate(sum, r);
    Commute(s.b, Rotate(sum, r));
  }

  lemma ShiftIsListed(i: nat)
    requires i < 64
    ensures Shift(i) in {4, 5, 6, 7, 9, 10, 11, 12, 14, 15, 16, 17, 20, 21, 22, 23}
  {
  }

  lemma FirstTable()
    ensures Row(0, 0, 0xd76aa478, 7)
    ensures Row(1, 1, 0xe8c7b756, 12)
    ensures Row(2, 2, 0x242070db, 17)
    ensures Row(3, 3, 0xc1bdceee, 22)
    ensures Row(4, 4, 0xf57c0faf, 7)
    ensures Row(5, 5, 0x4787c62a, 12)
    ensures Row(6, 6, 0xa8304613, 17)
    ensures Row(7, 7, 0xfd469501, 22)
    ensures Row(8, 8, 0x698098d8, 7)
    ensures Row(9, 9, 0x8b44f7af, 12)
    ensures Row(10, 10, 0xffff5bb1, 17)
    ensures Row(11, 11, 0x895cd7be, 22)
    ensures Row(12, 12, 0x6b901122, 7)
    ensures Row(13, 13, 0xfd987193, 12)
    ensures Row(14, 14, 0xa679438e, 17)
    ensures Row(15, 15, 0x49b40821, 22)
  {
  }

  method FirstRoundBegun(ghost h: Chain, x: seq<Word>, a0: Word, b0: Word, c0: Word, d0: Word)
    returns (a: Word, b: Word, c: Word, d: Word)
    requires |x| == 16 && Operations(0, h, x) == Chain(a0, b0, c0, d0)
    ensures Operations(8, h, x) == Chain(a, b, c, d)
  {
    hide F1, F2, F3, F4, Plus, Md5Step, Operations, Row;
    FirstTable();
    a, b, c, d := a0, b0, c0, d0;
    Advance(0, h, x, Chain(a, b, c, d), 0, 0xd76aa478, 7);
    a := Md5Step(F1(b, c, d), a, b, Plus(x[0], 0xd76aa478), 7);
    Advance(1, h, x, Chain(d, a, b, c), 1, 0xe8c7b756, 12);
    d := Md5Step(F1(a, b, c), d, a, Plus(x[1], 0xe8c7b756), 12);
    Advance(2, h, x, Chain(c, d, a, b), 2, 0x242070db, 17);
    c := Md5Step(F1(d, a, b), c, d, Plus(x[2], 0x242070db), 17);
    Advance(3, h, x, Chain(b, c, d, a), 3, 0xc1bdceee, 22);
    b := Md5Step(F1(c, d, a), b, c, Plus(x[3], 0xc1bdceee), 22);
    Advance(4, h, x, Chain(a, b, c, d), 4, 0xf57c0faf, 7);
    a := Md5Step(F1(b, c, d), a, b, Plus(x[4], 0xf57c0faf), 7);
    Advance(5, h, x, Chain(d, a, b, c), 5, 0x4787c62a, 12);
    d := Md5Step(F1(a, b, c), d, a, Plus(x[5], 0x4787c62a), 12);
    Advance(6, h, x, Chain(c, d, a, b), 6, 0xa8304613, 17);
    c := Md5Step(F1(d, a, b), c, d, Plus(x[6], 0xa8304613), 17);
    Advance(7, h, x, Chain(b, c, d, a), 7, 0xfd469501, 22);
    b := Md5Step(F1(c, d, a), b, c, Plus(x[7], 0xfd469501), 22);
  }

  method FirstRoundEnded(ghost h: Chain, x: seq<Word>, a0: Word, b0: Word, c0: Word, d0: Word)
    returns (a: Word, b: Word, c: Word, d: Word)
    requires |x| == 16 && Operations(8, h, x) == Chain(a0, b0, c0, d0)
    ensures Operations(16, h, x) == Chain(a, b, c, d)
  {
    hide F1, F2, F3, F4, Plus, Md5Step, Operations, Row;
    FirstTable();
    a, b, c, d := a0, b0, c0, d0;
    Advance(8, h, x, Chain(a, b, c, d), 8, 0x698098d8, 7);
    a := Md5Step(F1(b, c, d), a, b, Plus(x[8], 0x698098d8), 7);
    Advance(9, h, x, Chain(d, a, b, c), 9, 0x8b44f7af, 12);
    d := Md5Step(F1(a, b, c), d, a, Plus(x[9], 0x8b44f7af), 12);
    Advance(10, h, x, Chain(c, d, a, b), 10, 0xffff5bb1, 17);
    c := Md5Step(F1(d, a, b), c, d, Plus(x[10], 0xffff5bb1), 17);
    Advance(11, h, x, Chain(b, c, d, a), 11, 0x895cd7be, 22);
    b := Md5Step(F1(c, d, a), b, c, Plus(x[11], 0x895cd7be), 22);
    Advance(12, h, x, Chain(a, b, c, d), 12, 0x6b901122, 7);
    a := Md5Step(F1(b, c, d), a, b, Plus(x[12], 0x6b901122), 7);
    Advance(13, h, x, Chain(d, a, b, c), 13, 0xfd987193, 12);
    d := Md5Step(F1(a, b, c), d, a, Plus(x[13], 0xfd987193), 12);
    Advance(14, h, x, Chain(c, d, a, b), 14, 0xa679438e, 17);
    c := Md5Step(F1(d, a, b), c, d, Plus(x[14], 0xa679438e), 17);
    Advance(15, h, x, Chain(b, c, d, a), 15, 0x49b40821, 22);
    b := Md5Step(F1(c, d, a), b, c, Plus(x[15], 0x49b40821), 22);
  }

  method FirstRound(ghost h: Chain, x: seq<Word>, a0: Word, b0: Word, c0: Word, d0: Word)
    returns (a: Word, b: Word, c: Word, d: Word)
    requires |x| == 16 && Operations(0, h, x) == Chain(a0, b0, c0, d0)
    ensures Operations(16, h, x) == Chain(a, b, c, d)
  {
    hide Operations;
    a, b, c, d := FirstRoundBegun(h, x, a0, b0, c0, d0);
    a, b, c, d := FirstRoundEnded(h, x, a, b, c, d);
  }

  lemma SecondTable()
    ensures Row(16, 1, 0xf61e2562, 5)
    ensures Row(17, 6, 0xc040b340, 9)
    ensures Row(18, 11, 0x265e5a51, 14)
    ensures Row(19, 0, 0xe9b6c7aa, 20)
    ensures Row(20, 5, 0xd62f105d, 5)
    ensures Row(21, 10, 0x02441453, 9)
    ensures Row(22, 15, 0xd8a1e681, 14)
    ensures Row(23, 4, 0xe7d3fbc8, 20)
    ensures Row(24, 9, 0x21e1cde6, 5)
    ensures Row(25, 14, 0xc33707d6, 9)
    ensures Row(26, 3, 0xf4d50d87, 14)
    ensures Row(27, 8, 0x455a14ed, 20)
    ensures Row(28, 13, 0xa9e3e905, 5)
    ensures Row(29, 2, 0xfcefa3f8, 9)
    ensures Row(30, 7, 0x676f02d9, 14)
    ensures Row(31, 12, 0x8d2a4c8a, 20)
  {
  }

  method SecondRound(ghost h: Chain, x: seq<Word>, a0: Word, b0: Word, c0: Word, d0: Word)
    returns (a: Word, b: Word, c: Word, d: Word)
    requires |x| == 16 && Operations(16, h, x) == Chain(a0, b0, c0, d0)
    ensures Operations(32, h, x) == Chain(a, b, c, d)
  {
    hide F1, F2, F3, F4, Plus, Md5Step, Operations, Row;
    SecondTable();
    a, b, c, d := a0, b0, c0, d0;
    Advance(16, h, x, Chain(a, b, c, d), 1, 0xf61e2562, 5);
    a := Md5Step(F2(b, c, d), a, b, Plus(x[1], 0xf61e2562), 5);
    Advance(17, h, x, Chain(d, a, b, c), 6, 0xc040b340, 9);
    d := Md5Step(F2(a, b, c), d, a, Plus(x[6], 0xc040b340), 9);
    Advance(18, h, x, Chain(c, d, a, b), 11, 0x265e5a51, 14);
    c := Md5Step(F2(d, a, b), c, d, Plus(x[11], 0x265e5a51), 14);
    Advance(19, h, x, Chain(b, c, d, a), 0, 0xe9b6c7aa, 20);
    b := Md5Step(F2(c, d, a), b, c, Plus(x[0], 0xe9b6c7aa), 20);
    Advance(20, h, x, Chain(a, b, c, d), 5, 0xd62f105d, 5);
    a := Md5Step(F2(b, c, d), a, b, Plus(x[5], 0xd62f105d), 5);
    Advance(21, h, x, Chain(d, a, b, c), 10, 0x02441453, 9);
    d := Md5Step(F2(a, b, c), d, a, Plus(x[10], 0x02441453), 9);
    Advance(22, h, x, Chain(c, d, a, b), 15, 0xd8a1e681, 14);
    c := Md5Step(F2(d, a, b), c, d, Plus(x[15], 0xd8a1e681), 14);
    Advance(23, h, x, Chain(b, c, d, a), 4, 0xe7d3fbc8, 20);
    b := Md5Step(F2(c, d, a), b, c, Plus(x[4], 0xe7d3fbc8), 20);
    Advance(24, h, x, Chain(a, b, c, d), 9, 0x21e1cde6, 5);
    a := Md5Step(F2(b, c, d), a, b, Plus(x[9], 0x21e1cde6), 5);
    Advance(25, h, x, Chain(d, a, b, c), 14, 0xc33707d6, 9);
    d := Md5Step(F2(a, b, c), d, a, Plus(x[14], 0xc33707d6), 9);
    Advance(26, h, x, Chain(c, d, a, b), 3, 0xf4d50d87, 14);
    c := Md5Step(F2(d, a, b), c, d, Plus(x[3], 0xf4d50d87), 14);
    Advance(27, h, x, Chain(b, c, d, a), 8, 0x455a14ed, 20);
    b := Md5Step(F2(c, d, a), b, c, Plus(x[8], 0x455a14ed), 20);
    Advance(28, h, x, Chain(a, b, c, d), 13, 0xa9e3e905, 5);
    a := Md5Step(F2(b, c, d), a, b, Plus(x[13], 0xa9e3e905), 5);
    Advance(29, h, x, Chain(d, a, b, c), 2, 0xfcefa3f8, 9);
    d := Md5Step(F2(a, b, c), d, a, Plus(x[2], 0xfcefa3f8), 9);
    Advance(30, h, x, Chain(c, d, a, b), 7, 0x676f02d9, 14);
    c := Md5Step(F2(d, a, b), c, d, Plus(x[7], 0x676f02d9), 14);
    Advance(31, h, x, Chain(b, c, d, a), 12, 0x8d2a4c8a, 20);
    b := Md5Step(F2(c, d, a), b, c, Plus(x[12], 0x8d2a4c8a), 20);
  }

  lemma ThirdTable()
    ensures Row(32, 5, 0xfffa3942, 4)
    ensures Row(33, 8, 0x8771f681, 11)
    ensures Row(34, 11, 0x6d9d6122, 16)
    ensures Row(35, 14, 0xfde5380c, 23)
    ensures Row(36, 1, 0xa4beea44, 4)
    ensures Row(37, 4, 0x4bdecfa9, 11)
    ensures Row(38, 7, 0xf6bb4b60, 16)
    ensures Row(39, 10, 0xbebfbc70, 23)
    ensures Row(40, 13, 0x289b7ec6, 4)
    ensures Row(41, 0, 0xeaa127fa, 11)
    ensures Row(42, 3, 0xd4ef3085, 16)
    ensures Row(43, 6, 0x04881d05, 23)
    ensures Row(44, 9, 0xd9d4d039, 4)
    ensures Row(45, 12, 0xe6db99e5, 11)
    ensures Row(46, 15, 0x1fa27cf8, 16)
    ensures Row(47, 2, 0xc4ac5665, 23)
  {
  }

  method ThirdRound(ghost h: Chain, x: seq<Word>, a0: Word, b0: Word, c0: Word, d0: Word)
    returns (a: Word, b: Word, c: Word, d: Word)
    requires |x| == 16 && Operations(32, h, x) == Chain(a0, b0, c0, d0)
    ensures Operations(48, h, x) == Chain(a, b, c, d)
  {
    hide F1, F2, F3, F4, Plus, Md5Step, Operations, Row;
    ThirdTable();
    a, b, c, d := a0, b0, c0, d0;
    Advance(32, h, x, Chain(a, b, c, d), 5, 0xfffa3942, 4);
    a := Md5Step(F3(b, c, d), a, b, Plus(x[5], 0xfffa3942), 4);
    Advance(33, h, x, Chain(d, a, b, c), 8, 0x8771f681, 11);
    d := Md5Step(F3(a, b, c), d, a, Plus(x[8], 0x8771f681), 11);
    Advance(34, h, x, Chain(c, d, a, b), 11, 0x6d9d6122, 16);
    c := Md5Step(F3(d, a, b), c, d, Plus(x[11], 0x6d9d6122), 16);
    Advance(35, h, x, Chain(b, c, d, a), 14, 0xfde5380c, 23);
    b := Md5Step(F3(c, d, a), b, c, Plus(x[14], 0xfde5380c), 23);
    Advance(36, h, x, Chain(a, b, c, d), 1, 0xa4beea44, 4);
    a := Md5Step(F3(b, c, d), a, b, Plus(x[1], 0xa4beea44), 4);
    Advance(37, h, x, Chain(d, a, b, c), 4, 0x4bdecfa9, 11);
    d := Md5Step(F3(a, b, c), d, a, Plus(x[4], 0x4bdecfa9), 11);
    Advance(38, h, x, Chain(c, d, a, b), 7, 0xf6bb4b60, 16);
    c := Md5Step(F3(d, a, b), c, d, Plus(x[7], 0xf6bb4b60), 16);
    Advance(39, h, x, Chain(b, c, d, a), 10, 0xbebfbc70, 23);
    b := Md5Step(F3(c, d, a), b, c, Plus(x[10], 0xbebfbc70), 23);
    Advance(40, h, x, Chain(a, b, c, d), 13, 0x289b7ec6, 4);
    a := Md5Step(F3(b, c, d), a, b, Plus(x[13], 0x289b7ec6), 4);
    Advance(41, h, x, Chain(d, a, b, c), 0, 0xeaa127fa, 11);
    d := Md5Step(F3(a, b, c), d, a, Plus(x[0], 0xeaa127fa), 11);
    Advance(42, h, x, Chain(c, d, a, b), 3, 0xd4ef3085, 16);
    c := Md5Step(F3(d, a, b), c, d, Plus(x[3], 0xd4ef3085), 16);
    Advance(43, h, x, Chain(b, c, d, a), 6, 0x04881d05, 23);
    b := Md5Step(F3(c, d, a), b, c, Plus(x[6], 0x04881d05), 23);
    Advance(44, h, x, Chain(a, b, c, d), 9, 0xd9d4d039, 4);
    a := Md5Step(F3(b, c, d), a, b, Plus(x[9], 0xd9d4d039), 4);
    Advance(45, h, x, Chain(d, a, b, c), 12, 0xe6db99e5, 11);
    d := Md5Step(F3(a, b, c), d, a, Plus(x[12], 0xe6db99e5), 11);
    Advance(46, h, x, Chain(c, d, a, b), 15, 0x1fa27cf8, 16);
    c := Md5Step(F3(d, a, b), c, d, Plus(x[15], 0x1fa27cf8), 16);
    Advance(47, h, x, Chain(b, c, d, a), 2, 0xc4ac5665, 23);
    b := Md5Step(F3(c, d, a), b, c, Plus(x[2], 0xc4ac5665), 23);
  }

  lemma FourthTable()
    ensures Row(48, 0, 0xf4292244, 6)
    ensures Row(49, 7, 0x432aff97, 10)
    ensures Row(50, 14, 0xab9423a7, 15)
    ensures Row(51, 5, 0xfc93a039, 21)
    ensures Row(52, 12, 0x655b59c3, 6)
    ensures Row(53, 3, 0x8f0ccc92, 10)
    ensures Row(54, 10, 0xffeff47d, 15)
    ensures Row(55, 1, 0x85845dd1, 21)
    ensures Row(56, 8, 0x6fa87e4f, 6)
    ensures Row(57, 15, 0xfe2ce6e0, 10)
    ensures Row(58, 6, 0xa3014314, 15)
    ensures Row(59, 13, 0x4e0811a1, 21)
    ensures Row(60, 4, 0xf7537e82, 6)
    ensures Row(61, 11, 0xbd3af235, 10)
    ensures Row(62, 2, 0x2ad7d2bb, 15)
    ensures Row(63, 9, 0xeb86d391, 21)
  {
  }

  method FourthRound(ghost h: Chain, x: seq<Word>, a0: Word, b0: Word, c0: Word, d0: Word)
    returns (a: Word, b: Word, c: Word, d: Word)
    requires |x| == 16 && Operations(48, h, x) == Chain(a0, b0, c0, d0)
    ensures Operations(64, h, x) == Chain(a, b, c, d)
  {
    hide F1, F2, F3, F4, Plus, Md5Step, Operations, Row;
    FourthTable();
    a, b, c, d := a0, b0, c0, d0;
    Advance(48, h, x, Chain(a, b, c, d), 0, 0xf4292244, 6);
    a := Md5Step(F4(b, c, d), a, b, Plus(x[0], 0xf4292244), 6);
    Advance(49, h, x, Chain(d, a, b, c), 7, 0x432aff97, 10);
    d := Md5Step(F4(a, b, c), d, a, Plus(x[7], 0x432aff97), 10);
    Advance(50, h, x, Chain(c, d, a, b), 14, 0xab9423a7, 15);
    c := Md5Step(F4(d, a, b), c, d, Plus(x[14], 0xab9423a7), 15);
    Advance(51, h, x, Chain(b, c, d, a), 5, 0xfc93a039, 21);
    b := Md5Step(F4(c, d, a), b, c, Plus(x[5], 0xfc93a039), 21);
    Advance(52, h, x, Chain(a, b, c, d), 12, 0x655b59c3, 6);
    a := Md5Step(F4(b, c, d), a, b, Plus(x[12], 0x655b59c3), 6);
    Advance(53, h, x, Chain(d, a, b, c), 3, 0x8f0ccc92, 10);
    d := Md5Step(F4(a, b, c), d, a, Plus(x[3], 0x8f0ccc92), 10);
    Advance(54, h, x, Chain(c, d, a, b), 10, 0xffeff47d, 15);
    c := Md5Step(F4(d, a, b), c, d, Plus(x[10], 0xffeff47d), 15);
    Advance(55, h, x, Chain(b, c, d, a), 1, 0x85845dd1, 21);
    b := Md5Step(F4(c, d, a), b, c, Plus(x[1], 0x85845dd1), 21);
    Advance(56, h, x, Chain(a, b, c, d), 8, 0x6fa87e4f, 6);
    a := Md5Step(F4(b, c, d), a, b, Plus(x[8], 0x6fa87e4f), 6);
    Advance(57, h, x, Chain(d, a, b, c), 15, 0xfe2ce6e0, 10);
    d := Md5Step(F4(a, b, c), d, a, Plus(x[15], 0xfe2ce6e0), 10);
    Advance(58, h, x, Chain(c, d, a, b), 6, 0xa3014314, 15);
    c := Md5Step(F4(d, a, b), c, d, Plus(x[6], 0xa3014314), 15);
    Advance(59, h, x, Chain(b, c, d, a), 13, 0x4e0811a1, 21);
    b := Md5Step(F4(c, d, a), b, c, Plus(x[13], 0x4e0811a1), 21);
    Advance(60, h, x, Chain(a, b, c, d), 4, 0xf7537e82, 6);
    a := Md5Step(F4(b, c, d), a, b, Plus(x[4], 0xf7537e82), 6);
    Advance(61, h, x, Chain(d, a, b, c), 11, 0xbd3af235, 10);
    d := Md5Step(F4(a, b, c), d, a, Plus(x[11], 0xbd3af235), 10);
    Advance(62, h, x, Chain(c, d, a, b), 2, 0x2ad7d2bb, 15);
    c := Md5Step(F4(d, a, b), c, d, Plus(x[2], 0x2ad7d2bb), 15);
    Advance(63, h, x, Chain(b, c, d, a), 9, 0xeb86d391, 21);
    b := Md5Step(F4(c, d, a), b, c, Plus(x[9], 0xeb86d391), 21);
  }

  ghost function Chaining(buf: array<Word>): Chain
    requires buf.Length == 4
    reads buf
  {
    Chain(buf[0], buf[1], buf[2], buf[3])
  }

  /** MD5Transform: the chaining registers are replaced by their compression with the
      64 bytes of the input buffer, read as words low byte first. */
  method Transform(buf: array<Word>, input: array<Byte>)
    requires buf.Length == 4 && input.Length == 64
    modifies buf
    ensures Chaining(buf) == Compress(old(Chaining(buf)), input[..])
  {
    hide Operations, Plus, WordAt;
    ghost var h := Chaining(buf);
    var x := Words(input[..]);
    assert Operations(0, h, x) == h by { Begins(h, x); }
    var a, b, c, d := FirstRound(h, x, buf[0], buf[1], buf[2], buf[3]);
    a, b, c, d := SecondRound(h, x, a, b, c, d);
    a, b, c, d := ThirdRound(h, x, a, b, c, d);
    a, b, c, d := FourthRound(h, x, a, b, c, d);
    buf[0] := Plus(buf[0], a);
    buf[1] := Plus(buf[1], b);
    buf[2] := Plus(buf[2], c);
    buf[3] := Plus(buf[3], d);
  }

  lemma {:induction false} Begins(h: Chain, x: seq<Word>)
    requires |x| == 16
    ensures Operations(0, h, x) == h
  {
  }
}
