/** Octets: numbers below 256 that can be combined bit by bit. */
module Octets {

  type Byte = x: int | 0 <= x < 256

  /** The low eight bits of a number. */
  function Octet(n: nat): Byte {
    n % 256
  }

  function Zeros(n: nat): (z: seq<Byte>)
    ensures |z| == n
  {
    seq(n, _ => 0)
  }

  function Pow2(k: nat): nat {
    if k == 0 then 1 else 2 * Pow2(k - 1)
  }

  /** Exclusive or of two numbers of `k` bits: a bit is set where exactly one of them has it set. */
  function XorBits(a: nat, b: nat, k: nat): (c: nat)
    ensures c < Pow2(k)
    decreases k
  {
    if k == 0 then 0 else 2 * XorBits(a / 2, b / 2, k - 1) + (if a % 2 == b % 2 then 0 else 1)
  }

  lemma {:induction false} XorBitsTwice(a: nat, b: nat, k: nat)
    requires a < Pow2(k)
    ensures XorBits(XorBits(a, b, k), b, k) == a
    decreases k
  {
    if k > 0 {
      var c := XorBits(a, b, k);
      assert c / 2 == XorBits(a / 2, b / 2, k - 1);
      XorBitsTwice(a / 2, b / 2, k - 1);
    }
  }

  lemma {:induction false} XorBitsZero(a: nat, b: nat, k: nat)
    requires a < Pow2(k) && b < Pow2(k)
    ensures XorBits(a, b, k) == 0 <==> a == b
    decreases k
  {
    if k > 0 {
      XorBitsZero(a / 2, b / 2, k - 1);
    }
  }

  function XorByte(a: Byte, b: Byte): Byte {
    assert Pow2(8) == 256;
    XorBits(a, b, 8)
  }

  lemma XorByteTwice(a: Byte, b: Byte)
    ensures XorByte(XorByte(a, b), b) == a
  {
    hide XorBits;
    assert Pow2(8) == 256;
    XorBitsTwice(a, b, 8);
  }

  lemma XorByteZero(a: Byte, b: Byte)
    ensures XorByte(a, b) == 0 <==> a == b
  {
    hide XorBits;
    assert Pow2(8) == 256;
    XorBitsZero(a, b, 8);
  }

  /** `d` with `bytes` written at an offset. */
  function Put(d: seq<Byte>, at: nat, bytes: seq<Byte>): (r: seq<Byte>)
    requires at + |bytes| <= |d|
    ensures |r| == |d|
  {
    d[..at] + bytes + d[at + |bytes|..]
  }

  method Memcpy(dst: array<Byte>, at: nat, src: seq<Byte>)
    requires at + |src| <= dst.Length
    modifies dst
    ensures dst[..] == Put(old(dst[..]), at, src)
  {
    forall k | 0 <= k < |src| {
      dst[at + k] := src[k];
    }
  }
}
