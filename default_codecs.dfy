/** The two library codecs the legacy-compatibility codecs build on,
    dccl::DefaultIdentifierCodec and dccl::DefaultNumericFieldCodec. Their code
    is not part of this model: each is a record of its operations, and the
    `Lawful...` predicates state the contract every lemma that needs one assumes. */
module DefaultCodecs {
  import opened Wrappers
  import opened IntTypes
  import opened Bitsets

  /** DefaultIdentifierCodec. `decode` reads its field from the front of the
      remaining message and answers None when it cannot. */
  datatype IdentifierCodec = IdentifierCodec(
    encode: uint32 -> Bits,
    size: uint32 -> nat,
    decode: Bits -> Option<uint32>,
    minSize: nat,
    maxSize: nat,
    maxId: uint32)

  /** The contract assumed of DefaultIdentifierCodec: sizes agree with
      encodings and lie within [minSize, maxSize]; every id up to maxId
      decodes back from the front of a message; it never yields an id above
      maxId, which lies below the legacy range 0x0CC10000 (the library's ids
      have at most 15 bits). */
  ghost predicate LawfulIdentifier(c: IdentifierCodec) {
    && c.maxId < 0x0CC1_0000
    && (forall id: uint32 :: |c.encode(id)| == c.size(id))
    && (forall id: uint32 :: c.minSize <= c.size(id) <= c.maxSize)
    && (forall id: uint32, tail: Bits :: id <= c.maxId ==> c.decode(c.encode(id) + tail) == Some(id))
    && (forall s: Bits :: c.decode(s).Some? ==> c.decode(s).value <= c.maxId)
  }

  /** DefaultNumericFieldCodec<uint32> configured with a field's min() and max(). */
  datatype NumericCodec = NumericCodec(
    encode: uint32 -> Bits,
    decode: Bits -> Option<uint32>,
    size: nat)

  /** The contract assumed of DefaultNumericFieldCodec over [lo, hi]: a fixed
      size, exact round trip inside the range, nothing decoded outside it. */
  ghost predicate LawfulNumeric(c: NumericCodec, lo: nat, hi: nat) {
    && (forall x: uint32 :: lo <= x <= hi ==> |c.encode(x)| == c.size)
    && (forall x: uint32, tail: Bits :: lo <= x <= hi ==> c.decode(c.encode(x) + tail) == Some(x))
    && (forall s: Bits :: c.decode(s).Some? ==> lo <= c.decode(s).value <= hi)
  }

  // ----- The assumed contracts can be met -----

  /** A plain 16-bit identifier codec, which meets LawfulIdentifier. */
  function SixteenBitIdentifier(): IdentifierCodec {
    IdentifierCodec(
      (id: uint32) => FromNat(16, id),
      (id: uint32) => 16,
      s => if |s| < 16 || ToNat(s[..16]) > 0xFFFF then None else Some(ToNat(s[..16])),
      16, 16, 0xFFFF)
  }

  lemma Pow2Sixteen()
    ensures Pow2(16) == 0x1_0000
  {
    assert Pow2(4) == 16;
    assert Pow2(8) == 256;
    assert Pow2(12) == 4096;
  }

  lemma ReadBackFront(width: nat, x: nat, tail: Bits)
    requires x < Pow2(width)
    ensures (FromNat(width, x) + tail)[..width] == FromNat(width, x)
    ensures ToNat((FromNat(width, x) + tail)[..width]) == x
  {
    assert (FromNat(width, x) + tail)[..width] == FromNat(width, x);
    ToNatFromNat(width, x);
  }

  lemma IdentifierContractSatisfiable()
    ensures LawfulIdentifier(SixteenBitIdentifier())
  {
    var c := SixteenBitIdentifier();
    Pow2Sixteen();
    forall id: uint32, tail: Bits | id <= c.maxId
      ensures c.decode(c.encode(id) + tail) == Some(id)
    {
      ReadBackFront(16, id, tail);
    }
  }

  /** A plain one-byte numeric codec over [0, 255], which meets LawfulNumeric. */
  function ByteNumeric(): NumericCodec {
    NumericCodec(
      (x: uint32) => FromNat(8, x),
      s => if |s| < 8 || ToNat(s[..8]) > 255 then None else Some(ToNat(s[..8])),
      8)
  }

  lemma NumericContractSatisfiable()
    ensures LawfulNumeric(ByteNumeric(), 0, 255)
  {
    var c := ByteNumeric();
    Pow2Byte();
    forall x: uint32, tail: Bits | 0 <= x <= 255
      ensures c.decode(c.encode(x) + tail) == Some(x)
    {
      ReadBackFront(8, x, tail);
    }
  }
}
