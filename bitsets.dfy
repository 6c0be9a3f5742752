/** dccl::Bitset as a sequence of bits. Index 0 is the least significant bit,
    which is also the first bit of a field on the wire: codecs read and write
    their fields from that end. */
module Bitsets {

  type Bits = seq<bool>

  const BitsInByte: nat := 8

  function Pow2(n: nat): (r: nat)
    ensures r >= 1
  {
    if n == 0 then 1 else 2 * Pow2(n - 1)
  }

  /** Bitset::to_ulong(): the unsigned value the bits spell. */
  function ToNat(b: Bits): (r: nat)
    ensures r < Pow2(|b|)
  {
    if b == [] then 0 else (if b[0] then 1 else 0) + 2 * ToNat(b[1..])
  }

  /** The constructor Bitset(num_bits, value): the low `width` bits of `value`,
      the higher ones dropped. */
  function FromNat(width: nat, value: nat): (r: Bits)
    ensures |r| == width
  {
    if width == 0 then [] else [value % 2 == 1] + FromNat(width - 1, value / 2)
  }

  /** Bitset::prepend(head): `head` becomes the low-order (first) part. */
  function Prepend(b: Bits, head: Bits): (r: Bits)
    ensures |r| == |head| + |b|
    ensures r[..|head|] == head && r[|head|..] == b
  {
    head + b
  }

  lemma Pow2Byte()
    ensures Pow2(BitsInByte) == 256
  {
    assert Pow2(2) == 4;
    assert Pow2(4) == 16;
  }

  /** Splitting off the lowest bit of a remainder modulo 2^w. */
  lemma ModPow2Step(width: nat, value: nat)
    requires width > 0
    ensures value % Pow2(width) == value % 2 + 2 * ((value / 2) % Pow2(width - 1))
  {
    var p := Pow2(width - 1);
    var q, r := value / 2, value % 2;
    var a, b := q / p, q % p;
    assert value == 2 * p * a + (2 * b + r) by {
      assert value == 2 * q + r;
      assert q == p * a + b;
    }
    assert 0 <= 2 * b + r < 2 * p;
    ModUnique(value, 2 * p, a, 2 * b + r);
  }

  lemma ModUnique(x: int, m: int, a: int, b: int)
    requires 0 <= b < m && x == m * a + b
    ensures x % m == b
  {
    var q, r := x / m, x % m;
    assert m * (a - q) == r - b by {
      assert x == m * q + r;
    }
    if a > q {
      MulAtLeast(m, a - q);
    } else if a < q {
      MulAtLeast(m, q - a);
    }
  }

  lemma MulAtLeast(m: int, k: int)
    requires m > 0 && k >= 1
    ensures m * k >= m
  {
  }

  /** Reading a Bitset(width, value) back gives the value modulo 2^width. */
  lemma {:induction false} ToNatFromNat(width: nat, value: nat)
    ensures ToNat(FromNat(width, value)) == value % Pow2(width)
  {
    if width > 0 {
      var b := FromNat(width, value);
      assert b[1..] == FromNat(width - 1, value / 2);
      ToNatFromNat(width - 1, value / 2);
      ModPow2Step(width, value);
    }
  }

  /** Every bit string is the Bitset of its own value. */
  lemma {:induction false} FromNatToNat(b: Bits)
    ensures FromNat(|b|, ToNat(b)) == b
  {
    if b != [] {
      var v := ToNat(b);
      assert v % 2 == (if b[0] then 1 else 0);
      assert v / 2 == ToNat(b[1..]);
      FromNatToNat(b[1..]);
    }
  }

  /** A Bitset handed to a decoder: the bits it has fetched so far and the bits
      its parent (the rest of the message) still holds. */
  class Bitset {
    var bits: Bits
    var rest: Bits

    constructor (bits: Bits, rest: Bits)
      ensures this.bits == bits && this.rest == rest
    {
      this.bits := bits;
      this.rest := rest;
    }

    /** to_ulong() */
    function ToULong(): nat
      reads this
    {
      ToNat(bits)
    }

    /** get_more_bits(n): move the next n bits of the parent to the high end.
        Asking for more than the parent holds is an underrun (dccl throws). */
    method GetMoreBits(n: nat) returns (ok: bool)
      modifies this
      ensures ok <==> n <= |old(rest)|
      ensures ok ==> bits == old(bits) + old(rest)[..n] && rest == old(rest)[n..]
      ensures !ok ==> bits == old(bits) && rest == old(rest)
    {
      ok := n <= |rest|;
      if ok {
        bits := bits + rest[..n];
        rest := rest[n..];
      }
    }

    /** operator>>=(n): discard the n lowest bits. */
    method ShiftRight(n: nat)
      modifies this`bits
      ensures bits == if n <= |old(bits)| then old(bits)[n..] else []
    {
      if n <= |bits| {
        bits := bits[n..];
      } else {
        bits := [];
      }
    }
  }
}
