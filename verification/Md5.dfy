/** MD5 of a byte stream: the digest as sections 3.1 to 3.5 of RFC 1321 define it,
    and the program's context, which takes the stream in pieces of any size. */
module Md5 {
  import opened Md5Compression
  import opened Octets

  const TWO32: int := 0x1_0000_0000
  const TWO64: int := 0x1_0000_0000_0000_0000

  // ---- the definition ----------------------------------------------------------

  const INITIAL: Chain := Chain(0x67452301, 0xefcdab89, 0x98badcfe, 0x10325476)

  /** The registers after some blocks of 64 bytes, taken from `h`. */
  function Fold(h: Chain, m: seq<Byte>, blocks: nat): Chain
    requires |m| == 64 * blocks
    decreases blocks
  {
    if blocks == 0 then h else Compress(Fold(h, m[..|m| - 64], blocks - 1), m[|m| - 64..])
  }

  /** The weight of byte `k` of a number, low byte first. */
  function Weight(k: nat): (p: nat)
    requires k < 8
    ensures p > 0
  {
    if k == 0 then 1 else if k == 1 then 0x100 else if k == 2 then 0x1_0000 else if k == 3 then 0x100_0000
    else if k == 4 then 0x1_0000_0000 else if k == 5 then 0x100_0000_0000
    else if k == 6 then 0x1_0000_0000_0000 else 0x100_0000_0000_0000
  }

  function ByteValue(n: nat, k: nat): nat
    requires k < 8
  {
    n / Weight(k) % 256
  }

  function ByteOf(n: nat, k: nat): Byte
    requires k < 8
  {
    ByteValue(n, k)
  }

  function Low(n: nat, bytes: nat): (s: seq<Byte>)
    requires bytes <= 8
    ensures |s| == bytes
  {
    seq(bytes, k requires 0 <= k < bytes => ByteOf(n, k))
  }

  /** How many blocks a message of `n` bytes takes with its 0x80 and its eight length bytes. */
  function PaddedBlocks(n: nat): (blocks: nat)
    ensures n + 9 <= 64 * blocks < n + 73
  {
    (n + 8) / 64 + 1
  }

  /** The padding of a message of `n` bytes: a one bit, zeros, and its length in bits modulo 2^64. */
  function Padding(n: nat): (p: seq<Byte>)
    ensures n + |p| == 64 * PaddedBlocks(n)
  {
    [0x80] + Zeros(64 * PaddedBlocks(n) - n - 9) + Low(8 * n % TWO64, 8)
  }

  /** The zeros bring the length to 56 modulo 64, as section 3.1 of RFC 1321 has it, and are the fewest that do. */
  lemma ZerosBring56(n: nat)
    ensures var z := 64 * PaddedBlocks(n) - n - 9; 0 <= z < 64 && (n + 1 + z) % 64 == 56
  {
    var b := PaddedBlocks(n) - 1;
    assert n + 1 + (64 * PaddedBlocks(n) - n - 9) == 64 * b + 56;
  }

  function WordBytes(w: Word): (s: seq<Byte>)
    ensures |s| == 4
  {
    [LowByte(w), LowByte(w >> 8), LowByte(w >> 16), LowByte(w >> 24)]
  }

  function Encode(h: Chain): (d: seq<Byte>)
    ensures |d| == 16
  {
    WordBytes(h.a) + WordBytes(h.b) + WordBytes(h.c) + WordBytes(h.d)
  }

  /** The digest of a message. */
  function Digest(m: seq<Byte>): (d: seq<Byte>)
    ensures |d| == 16
  {
    Encode(Fold(INITIAL, m + Padding(|m|), PaddedBlocks(|m|)))
  }

  /** How many whole blocks some bytes make, those blocks, and the bytes after them. */
  function BlocksIn(n: nat): (blocks: nat)
    ensures 64 * blocks <= n < 64 * blocks + 64
  {
    n / 64
  }

  function Whole(m: seq<Byte>): (w: seq<Byte>)
    ensures |w| == 64 * BlocksIn(|m|)
  {
    m[..64 * BlocksIn(|m|)]
  }

  function Tail(m: seq<Byte>): (t: seq<Byte>)
    ensures |t| == |m| - 64 * BlocksIn(|m|)
  {
    m[64 * BlocksIn(|m|)..]
  }

  lemma FoldBlock(h: Chain, m: seq<Byte>, blocks: nat, block: seq<Byte>)
    requires |m| == 64 * blocks && |block| == 64
    ensures Fold(h, m + block, blocks + 1) == Compress(Fold(h, m, blocks), block)
  {
    hide Compress;
    var all := m + block;
    assert all[..|all| - 64] == m && all[|all| - 64..] == block;
  }

  // ---- the bit counter ----------------------------------------------------------

  /** The two counter words stand for the stream's length in bits. */
  ghost predicate Counts(bits0: int, bits1: int, n: nat) {
    0 <= bits0 < TWO32 && 0 <= bits1 < TWO32 && bits1 * TWO32 + bits0 == 8 * n % TWO64
  }

  /** Adding to the low word and carrying into the high word when it wrapped adds the lengths. */
  lemma CarryCounts(bits0: int, bits1: int, n: nat, len: nat)
    requires Counts(bits0, bits1, n) && len < TWO32
    ensures var low := (bits0 + len * 8 % TWO32) % TWO32;
            var carried := if low < bits0 then (bits1 + 1) % TWO32 else bits1;
            Counts(low, (carried + len / 0x2000_0000) % TWO32, n + len)
  {
    var added := len * 8 % TWO32;
    var low := (bits0 + added) % TWO32;
    var c := if low < bits0 then 1 else 0;
    WrapTest(bits0, added);
    var eighth := len / 0x2000_0000;
    Eighths(len);
    WrapTwice(bits1, c, eighth);
    var high := (bits1 + c + eighth) % TWO32;
    var r := (bits1 + c + eighth) / TWO32;
    var q := 8 * n / TWO64;
    Sums(8 * n, q, bits1, bits0, 8 * len, eighth, added, c, low, high, r);
    Quotient(8 * (n + len), q + r, high * TWO32 + low);
  }

  lemma WrapTwice(x: int, c: int, y: int)
    requires 0 <= x < TWO32 && 0 <= c <= 1
    ensures (if c == 1 then (x + 1) % TWO32 else x) == (x + c) % TWO32
    ensures ((x + c) % TWO32 + y) % TWO32 == (x + c + y) % TWO32
  {
    assert c == 1 && x == TWO32 - 1 ==> (x + c) % TWO32 == 0;
    if x + c == TWO32 { assert (x + c + y) % TWO32 == y % TWO32; }
  }

  lemma Sums(n8: int, q: int, bits1: int, bits0: int, len8: int, eighth: int, added: int, c: int, low: int, high: int,
             r: int)
    requires n8 == q * TWO64 + bits1 * TWO32 + bits0
    requires len8 == TWO32 * eighth + added
    requires low == bits0 + added - c * TWO32
    requires bits1 + c + eighth == r * TWO32 + high
    ensures n8 + len8 == (q + r) * TWO64 + high * TWO32 + low
  {
  }

  /** An unsigned sum wrapped exactly when it came out smaller than what was added to. */
  lemma WrapTest(x: int, added: int)
    requires 0 <= x < TWO32 && 0 <= added < TWO32
    ensures (x + added) % TWO32 == x + added - if (x + added) % TWO32 < x then TWO32 else 0
  {
  }

  lemma Eighths(len: nat)
    ensures len * 8 == TWO32 * (len / 0x2000_0000) + len * 8 % TWO32
  {
  }

  lemma Quotient(x: int, q: int, r: int)
    requires x == q * TWO64 + r && 0 <= r < TWO64
    ensures x % TWO64 == r
  {
  }

  /** The low counter word tells how many bytes wait in the block buffer. */
  lemma CountsTail(bits0: int, bits1: int, n: nat)
    requires Counts(bits0, bits1, n)
    ensures bits0 / 8 % 64 == n - 64 * BlocksIn(n)
  {
    var q := 8 * n / TWO64;
    var waiting := n - q * 0x2000_0000_0000_0000 - bits1 * 0x2000_0000;
    assert bits0 == 8 * waiting;
    assert waiting == n - 64 * (q * 0x80_0000_0000_0000 + bits1 * 0x80_0000);
    hide BlocksIn;
    Remainder(waiting, n - 64 * BlocksIn(n), q * 0x80_0000_0000_0000 + bits1 * 0x80_0000 - BlocksIn(n));
  }

  lemma Remainder(x: int, y: int, q: int)
    requires x == y - 64 * q && 0 <= y < 64
    ensures x % 64 == y
  {
  }

  lemma CounterBytes(bits0: int, bits1: int, n: nat)
    requires Counts(bits0, bits1, n)
    ensures Low(bits0, 4) + Low(bits1, 4) == Low(8 * n % TWO64, 8)
  {
    hide ByteValue;
    var x := bits1 * TWO32 + bits0;
    var both := Low(bits0, 4) + Low(bits1, 4);
    forall k | 0 <= k < 8
      ensures both[k] == Low(x, 8)[k]
    {
      if k < 4 { LowHalf(bits0, bits1, k); } else { HighHalf(bits0, bits1, k); }
    }
  }

  lemma LowHalf(bits0: int, bits1: int, k: nat)
    requires 0 <= bits0 < TWO32 && 0 <= bits1 && k < 4
    ensures ByteValue(bits1 * TWO32 + bits0, k) == ByteValue(bits0, k)
  {
    var x := bits1 * TWO32 + bits0;
    if k == 0 {
      Multiple256(x, bits0, bits1 * 0x100_0000);
    } else if k == 1 {
      Quotient8(x, bits0, bits1);
      Multiple256(x / 0x100, bits0 / 0x100, bits1 * 0x1_0000);
    } else if k == 2 {
      Quotient16(x, bits0, bits1);
      Multiple256(x / 0x1_0000, bits0 / 0x1_0000, bits1 * 0x100);
    } else {
      Quotient24(x, bits0, bits1);
      Multiple256(x / 0x100_0000, bits0 / 0x100_0000, bits1);
    }
  }

  lemma Multiple256(x: int, y: int, q: int)
    requires x == 256 * q + y
    ensures x % 256 == y % 256
  {
  }

  lemma Quotient8(x: int, y: int, q: int)
    requires x == q * TWO32 + y
    ensures x / 0x100 == q * 0x100_0000 + y / 0x100
  {
  }

  lemma Quotient16(x: int, y: int, q: int)
    requires x == q * TWO32 + y
    ensures x / 0x1_0000 == q * 0x1_0000 + y / 0x1_0000
  {
  }

  lemma Quotient24(x: int, y: int, q: int)
    requires x == q * TWO32 + y
    ensures x / 0x100_0000 == q * 0x100 + y / 0x100_0000
  {
  }

  lemma HighHalf(bits0: int, bits1: int, k: nat)
    requires 0 <= bits0 < TWO32 && 0 <= bits1 && 4 <= k < 8
    ensures ByteValue(bits1 * TWO32 + bits0, k) == ByteValue(bits1, k - 4)
  {
    var x := bits1 * TWO32 + bits0;
    assert x / TWO32 == bits1;
    if k == 5 {
      assert x / 0x100_0000_0000 == bits1 / 0x100;
    } else if k == 6 {
      assert x / 0x1_0000_0000_0000 == bits1 / 0x1_0000;
    } else if k == 7 {
      assert x / 0x100_0000_0000_0000 == bits1 / 0x100_0000;
    }
  }

  /** The digest bytes hold the registers: reading four of them as a word gives one back. */
  lemma WordBytesReadBack(w: Word)
    ensures WordAt(WordBytes(w), 0) == w
  {
    hide Widened, LowByte, Joined;
    LowByteWidened(w);
    LowByteWidened(w >> 8);
    LowByteWidened(w >> 16);
    LowByteWidened(w >> 24);
    JoinedBytes(w);
  }

  /** Different registers give different digests. */
  lemma EncodeIsInjective(g: Chain, h: Chain)
    requires Encode(g) == Encode(h)
    ensures g == h
  {
    hide WordBytes, WordAt;
    assert forall x: Chain ::
      WordBytes(x.a) == Encode(x)[..4] && WordBytes(x.b) == Encode(x)[4..8] &&
      WordBytes(x.c) == Encode(x)[8..12] && WordBytes(x.d) == Encode(x)[12..];
    WordBytesReadBack(g.a);
    WordBytesReadBack(g.b);
    WordBytesReadBack(g.c);
    WordBytesReadBack(g.d);
    WordBytesReadBack(h.a);
    WordBytesReadBack(h.b);
    WordBytesReadBack(h.c);
    WordBytesReadBack(h.d);
  }

  lemma LowByteWidened(w: Word)
    ensures Widened(LowByte(w)) == w & 0xff
  {
    WordOfNumber(w & 0xff);
  }

  lemma WordOfNumber(w: Word)
    ensures ((w as int) as bv32) == w
  {
  }

  lemma JoinedBytes(w: Word)
    ensures Joined(w & 0xff, (w >> 8) & 0xff, (w >> 16) & 0xff, (w >> 24) & 0xff) == w
  {
  }

  // ---- streams ------------------------------------------------------------------

  lemma WholeThenTail(m: seq<Byte>)
    ensures m == Whole(m) + Tail(m)
  {
  }

  lemma SplitStream(m: seq<Byte>, whole: seq<Byte>, blocks: nat, rest: seq<Byte>)
    requires m == whole + rest && |whole| == 64 * blocks && |rest| < 64
    ensures BlocksIn(|m|) == blocks && Whole(m) == whole && Tail(m) == rest
  {
    hide BlocksIn;
    assert BlocksIn(|m|) == blocks;
  }

  lemma FoldNothing()
    ensures Folded([]) == INITIAL && Tail([]) == []
  {
  }

  /** The registers of a stream: its whole blocks, folded. */
  function Folded(m: seq<Byte>): Chain {
    Fold(INITIAL, Whole(m), BlocksIn(|m|))
  }

  /** The end of the padded message. */
  function LastBlock(m: seq<Byte>): (last: seq<Byte>)
    ensures |last| == 64
  {
    var padded := m + Padding(|m|);
    padded[|padded| - 64..]
  }

  /** A block completed by the padding, and the length in it or in one block more. */
  lemma PaddedInOneBlock(m: seq<Byte>, last: seq<Byte>)
    requires |Tail(m)| < 56
    requires last == Tail(m) + [0x80] + Zeros(55 - |Tail(m)|) + Low(8 * |m| % TWO64, 8)
    ensures Digest(m) == Encode(Compress(Folded(m), last)) && last == LastBlock(m)
  {
    hide Compress, Low, BlocksIn, PaddedBlocks, Fold, Encode;
    var b := BlocksIn(|m|);
    assert PaddedBlocks(|m|) == b + 1;
    assert m + Padding(|m|) == Whole(m) + last by { WholeThenTail(m); }
    FoldBlock(INITIAL, Whole(m), b, last);
  }

  lemma PaddedInTwoBlocks(m: seq<Byte>, first: seq<Byte>, last: seq<Byte>)
    requires |Tail(m)| >= 56
    requires first == Tail(m) + [0x80] + Zeros(63 - |Tail(m)|)
    requires last == Zeros(56) + Low(8 * |m| % TWO64, 8)
    ensures Digest(m) == Encode(Compress(Compress(Folded(m), first), last)) && last == LastBlock(m)
  {
    hide Compress, Low, BlocksIn, PaddedBlocks, Fold, Encode;
    var t, b := |Tail(m)|, BlocksIn(|m|);
    assert PaddedBlocks(|m|) == b + 2;
    assert Zeros(119 - t) == Zeros(63 - t) + Zeros(56);
    assert m + Padding(|m|) == Whole(m) + first + last by { WholeThenTail(m); }
    FoldBlock(INITIAL, Whole(m), b, first);
    FoldBlock(INITIAL, Whole(m) + first, b + 1, last);
  }

  // ---- the context -----------------------------------------------------------------

  class MD5Context {
    const buf: array<Word>
    var bits0: nat
    var bits1: nat
    const input: array<Byte>
    /** Every byte given so far. */
    ghost var stream: seq<Byte>

    /** The registers have taken the whole blocks of the stream, the block buffer
        starts with the bytes after them, the counter holds the length in bits. */
    ghost predicate Valid()
      reads this, buf, input
    {
      buf.Length == 4 && input.Length == 64 && Chaining(buf) == Folded(stream) &&
      input[..|Tail(stream)|] == Tail(stream) && Counts(bits0, bits1, |stream|)
    }

    /** MD5Init */
    constructor ()
      ensures Valid() && stream == [] && fresh(buf) && fresh(input)
    {
      buf := new Word[4];
      input := new Byte[64];
      bits0, bits1 := 0, 0;
      stream := [];
      new;
      hide Fold, Whole, Tail, BlocksIn;
      FoldNothing();
      buf[0], buf[1], buf[2], buf[3] := 0x67452301, 0xefcdab89, 0x98badcfe, 0x10325476;
    }

    /** The counting at the head of MD5Update. */
    method Count(ghost n: nat, len: nat)
      requires Counts(bits0, bits1, n) && len < TWO32
      modifies this`bits0, this`bits1
      ensures Counts(bits0, bits1, n + len)
    {
      CarryCounts(bits0, bits1, n, len);
      var t := bits0;
      bits0 := (t + len * 8 % TWO32) % TWO32;
      if bits0 < t {
        bits1 := (bits1 + 1) % TWO32;
      }
      bits1 := (bits1 + len / 0x2000_0000) % TWO32;
    }

    /** A full block buffer goes into the registers. */
    method TakeBlock(ghost whole: seq<Byte>, ghost blocks: nat)
      requires buf.Length == 4 && input.Length == 64 && |whole| == 64 * blocks
      requires Chaining(buf) == Fold(INITIAL, whole, blocks)
      modifies buf
      ensures Chaining(buf) == Fold(INITIAL, whole + input[..], blocks + 1)
    {
      hide Compress;
      Transform(buf, input);
      FoldBlock(INITIAL, whole, blocks, input[..]);
    }

    /** The loop of MD5Update: data goes in 64 bytes at a time. */
    method TakeBlocks(data: seq<Byte>, start: nat, ghost before: seq<Byte>, ghost blocks: nat)
      returns (at: nat, ghost after: nat)
      requires buf.Length == 4 && input.Length == 64 && start <= |data|
      requires |before| == 64 * blocks && Chaining(buf) == Fold(INITIAL, before, blocks)
      modifies buf, input
      ensures start <= at <= |data| < at + 64 && |before + data[start..at]| == 64 * after
      ensures Chaining(buf) == Fold(INITIAL, before + data[start..at], after)
    {
      hide Fold, Chaining;
      at := start;
      after := blocks;
      ghost var whole := before;
      assert whole == before + data[start..at];
      while |data| - at >= 64
        invariant start <= at <= |data| && |whole| == 64 * after
        invariant whole == before + data[start..at]
        invariant Chaining(buf) == Fold(INITIAL, whole, after)
      {
        Memcpy(input, 0, data[at..at + 64]);
        assert input[..] == data[at..at + 64];
        TakeBlock(whole, after);
        whole := whole + input[..];
        after := after + 1;
        at := at + 64;
      }
    }

    /** The end of MD5Update: what is left of the data waits at the start of the block buffer. */
    method KeepRest(rest: seq<Byte>, ghost whole: seq<Byte>, ghost blocks: nat)
      requires buf.Length == 4 && input.Length == 64 && |rest| < 64
      requires |whole| == 64 * blocks && Chaining(buf) == Fold(INITIAL, whole, blocks)
      requires stream == whole + rest && Counts(bits0, bits1, |stream|)
      modifies input
      ensures Valid()
    {
      hide Fold, Counts, Chaining, Whole, Tail, BlocksIn;
      Memcpy(input, 0, rest);
      SplitStream(stream, whole, blocks, rest);
    }

    /** Data that does not fill the block buffer joins what waits in it. */
    method KeepMore(t: nat, data: seq<Byte>, ghost whole: seq<Byte>, ghost blocks: nat)
      requires buf.Length == 4 && input.Length == 64 && t + |data| < 64
      requires |whole| == 64 * blocks && Chaining(buf) == Fold(INITIAL, whole, blocks)
      requires stream == whole + (input[..t] + data) && Counts(bits0, bits1, |stream|)
      modifies input
      ensures Valid()
    {
      hide Fold, Counts, Chaining, Whole, Tail, BlocksIn;
      ghost var rest := input[..t] + data;
      Memcpy(input, t, data);
      SplitStream(stream, whole, blocks, rest);
    }

    /** The leading odd-sized chunk of MD5Update: the waiting block is completed from the data. */
    method FillBlock(t: nat, data: seq<Byte>, ghost whole: seq<Byte>, ghost blocks: nat)
      requires buf.Length == 4 && input.Length == 64 && t + |data| == 64
      requires |whole| == 64 * blocks && Chaining(buf) == Fold(INITIAL, whole, blocks)
      modifies buf, input
      ensures Chaining(buf) == Fold(INITIAL, whole + (old(input[..t]) + data), blocks + 1)
    {
      hide Fold, Chaining;
      Memcpy(input, t, data);
      assert input[..] == old(input[..t]) + data;
      TakeBlock(whole, blocks);
    }

    /** MD5Update: the stream grows by the data, whatever the sizes of the pieces. */
    method Update(data: seq<Byte>)
      requires Valid() && |data| < TWO32
      modifies this, buf, input
      ensures Valid() && stream == old(stream) + data
    {
      hide Fold, Counts, Chaining, Whole, Tail, BlocksIn;
      CountsTail(bits0, bits1, |stream|);
      var t := bits0 / 8 % 64;
      Count(|stream|, |data|);
      ghost var whole, tail, blocks := Whole(stream), Tail(stream), BlocksIn(|stream|);
      WholeThenTail(stream);
      stream := stream + data;

      var at := 0;
      if t != 0 {
        var room := 64 - t;
        if |data| < room {
          assert stream == whole + (tail + data);
          KeepMore(t, data, whole, blocks);
          return;
        }
        FillBlock(t, data[..room], whole, blocks);
        at := room;
        whole := whole + (tail + data[..room]);
        blocks := blocks + 1;
      }
      assert whole + data[at..] == stream;
      ghost var after;
      var rest;
      rest, after := TakeBlocks(data, at, whole, blocks);
      assert data[at..rest] + data[rest..] == data[at..];
      KeepRest(data[rest..], whole + data[at..rest], after);
    }

    method RegisterBytes() returns (bytes: seq<Byte>)
      requires buf.Length == 4
      ensures bytes == Encode(Chaining(buf)) && bytes[8..] == WordBytes(buf[2]) + WordBytes(buf[3])
    {
      bytes := WordBytes(buf[0]) + WordBytes(buf[1]) + WordBytes(buf[2]) + WordBytes(buf[3]);
    }

    /** The end of the padding: the length in bits, low word first. */
    method WriteLength()
      requires input.Length == 64
      modifies input
      ensures input[..] == old(input[..56]) + (Low(bits0, 4) + Low(bits1, 4))
    {
      hide Low;
      Memcpy(input, 56, Low(bits0, 4));
      Memcpy(input, 60, Low(bits1, 4));
    }

    /** Padding that leaves no room for the length: it fills this block and starts another. */
    method PadTwoBlocks(p: nat, count: nat)
      requires Padding(p, count) && count < 8
      modifies buf, input
      ensures Encode(Compress(Chaining(buf), input[..])) == Digest(stream) && input[..] == LastBlock(stream)
    {
      hide Compress, Folded, Counts, Low, Whole, Tail, BlocksIn, Chaining, Digest, LastBlock;
      Memcpy(input, p, Zeros(count));
      ghost var first := input[..];
      assert first == Tail(stream) + [0x80] + Zeros(63 - |Tail(stream)|);
      Transform(buf, input);
      Memcpy(input, 0, Zeros(56));
      WriteLength();
      assert input[..] == Zeros(56) + (Low(bits0, 4) + Low(bits1, 4));
      CounterBytes(bits0, bits1, |stream|);
      PaddedInTwoBlocks(stream, first, input[..]);
    }

    method PadOneBlock(p: nat, count: nat)
      requires Padding(p, count) && count >= 8
      modifies input
      ensures Encode(Compress(Chaining(buf), input[..])) == Digest(stream) && input[..] == LastBlock(stream)
    {
      hide Compress, Folded, Counts, Low, Whole, Tail, BlocksIn, Chaining, Digest, LastBlock;
      Memcpy(input, p, Zeros(count - 8));
      WriteLength();
      assert input[..] == Tail(stream) + [0x80] + Zeros(55 - |Tail(stream)|) + (Low(bits0, 4) + Low(bits1, 4));
      CounterBytes(bits0, bits1, |stream|);
      PaddedInOneBlock(stream, input[..]);
    }

    /** The first padding byte is in place and `count` bytes are left after it. */
    ghost predicate Padding(p: nat, count: nat)
      reads this, buf, input
    {
      Valid() && p == |Tail(stream)| + 1 && p + count == 64 && input[..p] == Tail(stream) + [0x80]
    }

    /** MD5Final: the digest of the stream. Afterwards eight bytes of the context, the size of a
        pointer to it, are zero: half of the digest and the last block stay readable. */
    method Final() returns (digest: seq<Byte>)
      requires Valid()
      modifies this, buf, input
      ensures digest == Digest(old(stream))
      ensures buf[0] == 0 && buf[1] == 0
      ensures digest[8..] == WordBytes(buf[2]) + WordBytes(buf[3]) && input[..] == LastBlock(old(stream))
    {
      hide Compress, Folded, Counts, Low, Whole, Tail, BlocksIn, Chaining, WordBytes, Digest, LastBlock;
      CountsTail(bits0, bits1, |stream|);
      var count := bits0 / 8 % 64;
      Memcpy(input, count, [0x80]);
      var p := count + 1;
      count := 64 - 1 - count;
      assert input[..p - 1] == Tail(stream);
      if count < 8 {
        PadTwoBlocks(p, count);
      } else {
        PadOneBlock(p, count);
      }
      Transform(buf, input);
      digest := RegisterBytes();
      buf[0], buf[1] := 0, 0;
    }
  }

  /** MD5Calc */
  method Calc(data: seq<Byte>) returns (digest: seq<Byte>)
    requires |data| < TWO32
    ensures digest == Digest(data)
  {
    var context := new MD5Context();
    context.Update(data);
    assert context.stream == data;
    digest := context.Final();
  }

  /** However a stream is cut into pieces, the digest is that of the whole. */
  method CalcInPieces(pieces: seq<seq<Byte>>) returns (digest: seq<Byte>)
    requires forall i :: 0 <= i < |pieces| ==> |pieces[i]| < TWO32
    ensures digest == Digest(Concatenation(pieces))
  {
    var context := new MD5Context();
    for i := 0 to |pieces|
      invariant context.Valid() && context.stream == Concatenation(pieces[..i])
      invariant fresh(context) && fresh(context.buf) && fresh(context.input)
    {
      assert pieces[..i + 1][..i] == pieces[..i];
      context.Update(pieces[i]);
    }
    assert pieces[..|pieces|] == pieces;
    digest := context.Final();
  }

  function Concatenation(pieces: seq<seq<Byte>>): seq<Byte> {
    if pieces == [] then [] else Concatenation(pieces[..|pieces| - 1]) + pieces[|pieces| - 1]
  }
}
