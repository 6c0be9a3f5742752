/** LegacyCCLIdentifierCodec: one leading byte tells the legacy CCL numbering
    space from the DCCL one. A legacy id (high half 0x0CC1) goes out as a bare
    byte; any other id goes out through DefaultIdentifierCodec behind the
    reserved header byte 32. */
module CclIdentifier {
  import opened Wrappers
  import opened IntTypes
  import opened Bitsets
  import opened DefaultCodecs

  /** DCCL_CCL_HEADER: the byte that announces a DCCL (non-legacy) identifier. */
  const DcclCclHeader: nat := 32

  /** CCL_DCCL_ID_PREFIX: the high half shared by every legacy CCL identifier. */
  const CclDcclIdPrefix: nat := 0x0CC1_0000

  /** `(id & 0xFFFF0000) == CCL_DCCL_ID_PREFIX`, stated on the integer value. */
  predicate IsLegacy(id: uint32) {
    id / 0x1_0000 == CclDcclIdPrefix / 0x1_0000
  }

  /** encode(wire_value). A legacy id keeps only the low 8 bits of its low half
      (Bitset(BITS_IN_BYTE, wire_value & 0xFFFF)). */
  function Encode(c: IdentifierCodec, id: uint32): Bits {
    if IsLegacy(id) then FromNat(BitsInByte, id % 0x1_0000)
    else Prepend(c.encode(id), FromNat(BitsInByte, DcclCclHeader))
  }

  /** encode(): the encoding of id 0. */
  function EncodeDefault(c: IdentifierCodec): Bits {
    Encode(c, 0)
  }

  /** size(field_value) */
  function Size(c: IdentifierCodec, id: uint32): nat {
    if IsLegacy(id) then BitsInByte else BitsInByte + c.size(id)
  }

  /** size(): the size of id 0. */
  function SizeDefault(c: IdentifierCodec): nat {
    Size(c, 0)
  }

  function MinSize(): nat {
    BitsInByte
  }

  function MaxSize(c: IdentifierCodec): nat {
    BitsInByte + c.maxSize
  }

  datatype DecodeError =
    | BitsetUnderrun       // get_more_bits found fewer bits than it was asked for
    | DefaultDecodeFailed  // DefaultIdentifierCodec::decode failed

  /** What decode(bits) returns when `fetched` is the byte the framework hands
      it and `rest` is the remainder of the message. */
  function DecodeFields(c: IdentifierCodec, fetched: Bits, rest: Bits): (r: Result<uint32, DecodeError>)
    requires |fetched| == BitsInByte
  {
    Pow2Byte();
    var cclId := ToNat(fetched);
    if cclId == DcclCclHeader then
      if |rest| < c.minSize then Err(BitsetUnderrun)
      else match c.decode(rest)
        case Some(id) => Ok(id)
        case None => Err(DefaultDecodeFailed)
    else Ok(CclDcclIdPrefix + cclId)
  }

  /** Decoding the identifier at the front of a whole message. */
  function DecodeMessage(c: IdentifierCodec, msg: Bits): Result<uint32, DecodeError> {
    if |msg| < BitsInByte then Err(BitsetUnderrun)
    else DecodeFields(c, msg[..BitsInByte], msg[BitsInByte..])
  }

  /** decode(Bitset*): reads the first byte; on the header, fetches
      DefaultIdentifierCodec::min_size() more bits, drops the header byte and
      hands the Bitset to DefaultIdentifierCodec::decode (whose own further
      fetching is not modelled); otherwise adds the legacy prefix back. */
  method Decode(c: IdentifierCodec, bits: Bitset) returns (r: Result<uint32, DecodeError>)
    requires |bits.bits| == MinSize()
    modifies bits
    ensures r == DecodeFields(c, old(bits.bits), old(bits.rest))
    ensures ToNat(old(bits.bits)) == DcclCclHeader && c.minSize <= |old(bits.rest)| ==>
      bits.bits == old(bits.rest)[..c.minSize] && bits.rest == old(bits.rest)[c.minSize..]
    ensures ToNat(old(bits.bits)) != DcclCclHeader || |old(bits.rest)| < c.minSize ==>
      bits.bits == old(bits.bits) && bits.rest == old(bits.rest)
  {
    Pow2Byte();
    var cclId := bits.ToULong();
    if cclId == DcclCclHeader {
      var ok := bits.GetMoreBits(c.minSize);
      if !ok {
        return Err(BitsetUnderrun);
      }
      bits.ShiftRight(BitsInByte);
      assert bits.bits + bits.rest == old(bits.rest);
      var id := c.decode(bits.bits + bits.rest);
      if id.Some? {
        r := Ok(id.value);
      } else {
        r := Err(DefaultDecodeFailed);
      }
    } else {
      r := Ok(CclDcclIdPrefix + cclId);
    }
  }

  // ----- Encoding -----

  /** A legacy id goes out as exactly one byte, carrying the low 8 bits of its
      value and no header. */
  lemma LegacyEncoding(c: IdentifierCodec, id: uint32)
    requires IsLegacy(id)
    ensures |Encode(c, id)| == Size(c, id) == BitsInByte
    ensures ToNat(Encode(c, id)) == id % 256
  {
    ToNatFromNat(BitsInByte, id % 0x1_0000);
    Pow2Byte();
    LowByteOfLowHalf(id);
  }

  lemma LowByteOfLowHalf(x: nat)
    ensures (x % 0x1_0000) % 256 == x % 256
  {
    var q, r := x / 0x1_0000, x % 0x1_0000;
    var q2, t := r / 256, r % 256;
    assert x == 256 * (256 * q + q2) + t;
    ModUnique(x, 256, 256 * q + q2, t);
  }

  /** Any other id goes out as the header byte 32 followed by the default
      codec's encoding, and its size is 8 more than the default codec's. */
  lemma CurrentEncoding(c: IdentifierCodec, id: uint32)
    requires !IsLegacy(id)
    ensures Encode(c, id)[..BitsInByte] == FromNat(BitsInByte, DcclCclHeader)
    ensures ToNat(Encode(c, id)[..BitsInByte]) == DcclCclHeader
    ensures Encode(c, id)[BitsInByte..] == c.encode(id)
    ensures Size(c, id) == BitsInByte + c.size(id)
  {
    ToNatFromNat(BitsInByte, DcclCclHeader);
    Pow2Byte();
  }

  /** The default encode() and size() use id 0, which is not a legacy id. */
  lemma DefaultIsCurrent(c: IdentifierCodec)
    ensures !IsLegacy(0)
    ensures EncodeDefault(c) == FromNat(BitsInByte, DcclCclHeader) + c.encode(0)
    ensures SizeDefault(c) == BitsInByte + c.size(0)
  {
  }

  /** size(v) is the length of encode(v). */
  lemma SizeIsEncodingLength(c: IdentifierCodec, id: uint32)
    requires LawfulIdentifier(c)
    ensures |Encode(c, id)| == Size(c, id)
  {
  }

  /** min_size() <= size(v) <= max_size() for every id. */
  lemma SizeBounds(c: IdentifierCodec, id: uint32)
    requires LawfulIdentifier(c)
    ensures MinSize() <= Size(c, id) <= MaxSize(c)
    ensures MinSize() <= SizeDefault(c) <= MaxSize(c)
  {
    assert c.minSize <= c.size(id) <= c.maxSize;
    assert c.minSize <= c.size(0) <= c.maxSize;
  }

  // ----- Decoding -----

  /** Decode, both branches: the header byte hands the rest to the default
      codec; any other byte b is the legacy id 0x0CC10000 + b. */
  lemma DecodeBranches(c: IdentifierCodec, msg: Bits)
    requires |msg| >= BitsInByte
    ensures ToNat(msg[..BitsInByte]) == DcclCclHeader ==>
      DecodeMessage(c, msg) ==
        if |msg| - BitsInByte < c.minSize then Err(BitsetUnderrun)
        else if c.decode(msg[BitsInByte..]).Some? then Ok(c.decode(msg[BitsInByte..]).value)
        else Err(DefaultDecodeFailed)
    ensures ToNat(msg[..BitsInByte]) != DcclCclHeader ==>
      DecodeMessage(c, msg) == Ok(CclDcclIdPrefix + ToNat(msg[..BitsInByte]))
  {
  }

  /** Every decoded id lies in exactly one numbering space, and which one is
      decided by the first byte alone. */
  lemma DecodedSpaceFollowsFirstByte(c: IdentifierCodec, msg: Bits)
    requires LawfulIdentifier(c)
    requires DecodeMessage(c, msg).Ok?
    ensures |msg| >= BitsInByte
    ensures IsLegacy(DecodeMessage(c, msg).value) <==> ToNat(msg[..BitsInByte]) != DcclCclHeader
  {
    Pow2Byte();
    assert ToNat(msg[..BitsInByte]) < 256;
  }

  // ----- Round trips -----

  /** A non-legacy id the default codec can carry comes back from the front of
      any message. */
  lemma CurrentRoundTrip(c: IdentifierCodec, id: uint32, tail: Bits)
    requires LawfulIdentifier(c)
    requires !IsLegacy(id) && id <= c.maxId
    ensures DecodeMessage(c, Encode(c, id) + tail) == Ok(id)
  {
    var msg := Encode(c, id) + tail;
    CurrentEncoding(c, id);
    assert msg[..BitsInByte] == Encode(c, id)[..BitsInByte];
    assert msg[BitsInByte..] == c.encode(id) + tail;
    assert c.decode(c.encode(id) + tail) == Some(id);
  }

  /** A legacy id 0x0CC10000 + k with k < 256 and k != 32 comes back. */
  lemma LegacyRoundTrip(c: IdentifierCodec, k: nat, tail: Bits)
    requires k < 256 && k != DcclCclHeader
    ensures IsLegacy(CclDcclIdPrefix + k)
    ensures DecodeMessage(c, Encode(c, CclDcclIdPrefix + k) + tail) == Ok(CclDcclIdPrefix + k)
  {
    var id: uint32 := CclDcclIdPrefix + k;
    var msg := Encode(c, id) + tail;
    LegacyEncoding(c, id);
    assert msg[..BitsInByte] == Encode(c, id);
  }

  /** The legacy id 0x0CC10020 encodes to the header byte itself, so decode
      takes the DCCL branch and never returns it. */
  lemma HeaderCollision(c: IdentifierCodec, tail: Bits)
    requires LawfulIdentifier(c)
    ensures Encode(c, CclDcclIdPrefix + DcclCclHeader) == FromNat(BitsInByte, DcclCclHeader)
    ensures DecodeMessage(c, Encode(c, CclDcclIdPrefix + DcclCclHeader) + tail) ==
      if |tail| < c.minSize then Err(BitsetUnderrun)
      else if c.decode(tail).Some? then Ok(c.decode(tail).value)
      else Err(DefaultDecodeFailed)
    ensures DecodeMessage(c, Encode(c, CclDcclIdPrefix + DcclCclHeader) + tail) != Ok(CclDcclIdPrefix + DcclCclHeader)
  {
    var id: uint32 := CclDcclIdPrefix + DcclCclHeader;
    var msg := Encode(c, id) + tail;
    LegacyEncoding(c, id);
    assert msg[..BitsInByte] == Encode(c, id);
    assert msg[BitsInByte..] == tail;
  }

  /** A legacy id 0x0CC10000 + k goes out as the byte k mod 256. */
  lemma LegacyByte(c: IdentifierCodec, k: nat)
    requires k < 0x1_0000
    ensures Encode(c, CclDcclIdPrefix + k) == FromNat(BitsInByte, k % 256)
  {
    var id: uint32 := CclDcclIdPrefix + k;
    LegacyEncoding(c, id);
    ModUnique(id, 256, CclDcclIdPrefix / 256 + k / 256, k % 256);
    FromNatToNat(Encode(c, id));
  }

  /** A legacy id whose low half exceeds one byte loses its high byte: it
      encodes like 0x0CC10000 + (k mod 256) and does not come back. */
  lemma LegacyHighByteLost(c: IdentifierCodec, k: nat, tail: Bits)
    requires LawfulIdentifier(c)
    requires 256 <= k < 0x1_0000
    ensures Encode(c, CclDcclIdPrefix + k) == Encode(c, CclDcclIdPrefix + k % 256)
    ensures DecodeMessage(c, Encode(c, CclDcclIdPrefix + k) + tail) != Ok(CclDcclIdPrefix + k)
  {
    var b := Encode(c, CclDcclIdPrefix + k);
    LegacyByte(c, k);
    LegacyByte(c, k % 256);
    LegacyEncoding(c, CclDcclIdPrefix + k);
    var msg := b + tail;
    assert msg[..BitsInByte] == b;
  }

  /** Two concrete encodings: id 100000 starts with the byte 0x20; id
      0x0CC10005 is the single byte 5. */
  lemma EncodingExamples(c: IdentifierCodec)
    ensures ToNat(Encode(c, 100000)[..BitsInByte]) == 0x20
    ensures Encode(c, 0x0CC1_0005) == FromNat(BitsInByte, 5) && ToNat(Encode(c, 0x0CC1_0005)) == 5
  {
    CurrentEncoding(c, 100000);
    LegacyEncoding(c, 0x0CC1_0005);
  }
}
