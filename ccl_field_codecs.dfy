/** The legacy CCL field codecs of ccl_compatibility.h: the fix-age quantiser
    and the bit widths and option checks of the fixed-width codecs. */
module CclFieldCodecs {
  import opened Wrappers
  import opened IntTypes
  import opened Bitsets
  import opened DefaultCodecs

  // ----- LegacyCCLFixAgeCodec -----

  /** SCALE_FACTOR: the age is sent in units of 4. */
  const FixAgeScaleFactor: nat := 4

  /** max(): (1 << BITS_IN_BYTE) - 1, returned as a double. */
  function FixAgeMax(): nat {
    Pow2(BitsInByte) - 1
  }

  /** min() */
  function FixAgeMin(): nat {
    0
  }

  /** validate() does nothing: fix-age has no required option. */
  function FixAgeValidate(): Outcome<string> {
    Pass
  }

  /** The conversion of an unsigned value to `unsigned char`: modulo 256. */
  function ToUChar(x: nat): (r: nat)
    ensures r < 256 && (r - x) % 256 == 0
  {
    x % 256
  }

  /** The value encode(wire_value) hands to DefaultNumericFieldCodec, as the
      source computes it: `std::min<unsigned char>` converts both operands to
      unsigned char BEFORE comparing them. */
  function FixAgePackAsWritten(v: uint32): nat {
    var cap := ToUChar(FixAgeMax());
    var q := ToUChar(v / FixAgeScaleFactor);
    if q < cap then q else cap
  }

  /** The value encode(wire_value) evidently means to send: the quotient
      capped at max() before any narrowing. */
  function FixAgePack(v: uint32): nat {
    var q := v / FixAgeScaleFactor;
    if q < FixAgeMax() then q else FixAgeMax()
  }

  /** encode(wire_value) as the source writes it. */
  function FixAgeEncodeAsWritten(c: NumericCodec, v: uint32): Bits {
    c.encode(FixAgePackAsWritten(v))
  }

  /** encode(wire_value) with the intended cap. */
  function FixAgeEncode(c: NumericCodec, v: uint32): Bits {
    Pow2Byte();
    c.encode(FixAgePack(v))
  }

  /** encode(): encode(max()), so the value 255 is quantised like any other. */
  function FixAgeEncodeDefault(c: NumericCodec): Bits {
    Pow2Byte();
    FixAgeEncodeAsWritten(c, FixAgeMax())
  }

  /** decode(bits): SCALE_FACTOR times the packed value, in uint32 arithmetic. */
  function FixAgeDecode(c: NumericCodec, s: Bits): Option<uint32> {
    match c.decode(s)
    case Some(x) => Some((FixAgeScaleFactor * x) % TwoTo32)
    case None => None
  }

  /** As written, the cap never takes effect (the narrowed quotient is at most
      255 already): the packed value is the quotient modulo 256. */
  lemma FixAgeCapIsDead(v: uint32)
    ensures FixAgePackAsWritten(v) == (v / FixAgeScaleFactor) % 256
  {
    Pow2Byte();
  }

  /** What the corrected codec packs is the quotient capped at 255. */
  lemma FixAgePackBounds(v: uint32)
    ensures FixAgePack(v) <= 255
    ensures FixAgePack(v) <= v / FixAgeScaleFactor
    ensures v / FixAgeScaleFactor <= 255 ==> FixAgePack(v) == v / FixAgeScaleFactor
  {
    Pow2Byte();
  }

  /** Below 1024 the source and the corrected codec pack the same value. */
  lemma FixAgeAgreesBelow1024(c: NumericCodec, v: uint32)
    requires v < 1024
    ensures FixAgePackAsWritten(v) == FixAgePack(v)
    ensures FixAgeEncodeAsWritten(c, v) == FixAgeEncode(c, v)
  {
    Pow2Byte();
  }

  /** The source's own round trip, for every age: what comes back is four
      times the quotient modulo 256, a multiple of 4 never above the age. */
  lemma FixAgeRoundTripAsWritten(c: NumericCodec, v: uint32, tail: Bits)
    requires LawfulNumeric(c, FixAgeMin(), FixAgeMax())
    ensures |FixAgeEncodeAsWritten(c, v)| == c.size
    ensures var d := FixAgeDecode(c, FixAgeEncodeAsWritten(c, v) + tail);
      && d == Some(4 * ((v / 4) % 256))
      && d.value % FixAgeScaleFactor == 0
      && d.value <= v
  {
    Pow2Byte();
    FixAgeCapIsDead(v);
    var p: uint32 := FixAgePackAsWritten(v);
    assert c.decode(c.encode(p) + tail) == Some(p);
  }

  /** The corrected fix-age quantiser: decode(encode(v)) is a multiple of 4, never
      above v, less than 4 below it when v < 1024, and 1020 from 1020 up. */
  lemma FixAgeRoundTrip(c: NumericCodec, v: uint32, tail: Bits)
    requires LawfulNumeric(c, FixAgeMin(), FixAgeMax())
    ensures |FixAgeEncode(c, v)| == c.size
    ensures var d := FixAgeDecode(c, FixAgeEncode(c, v) + tail);
      && d.Some?
      && d.value % FixAgeScaleFactor == 0
      && d.value <= v
      && (v < 1024 ==> v - d.value < FixAgeScaleFactor && d.value == 4 * (v / 4))
      && (v >= 1020 ==> d.value == 1020)
  {
    Pow2Byte();
    var p: uint32 := FixAgePack(v);
    assert 0 <= p <= FixAgeMax();
    assert c.decode(c.encode(p) + tail) == Some(p);
    assert (FixAgeScaleFactor * p) % TwoTo32 == 4 * p;
  }

  /** The corrected quantisation preserves order: older fixes never decode as
      younger (FixAgeAsWrittenWraps shows the source's does not). */
  lemma FixAgeMonotone(c: NumericCodec, v: uint32, w: uint32, tail: Bits)
    requires LawfulNumeric(c, FixAgeMin(), FixAgeMax())
    requires v <= w
    ensures FixAgeDecode(c, FixAgeEncode(c, v) + tail).Some?
    ensures FixAgeDecode(c, FixAgeEncode(c, w) + tail).Some?
    ensures FixAgeDecode(c, FixAgeEncode(c, v) + tail).value <= FixAgeDecode(c, FixAgeEncode(c, w) + tail).value
  {
    Pow2Byte();
    var p, q: uint32 := FixAgePack(v), FixAgePack(w);
    assert p <= q;
    assert c.decode(c.encode(p) + tail) == Some(p);
    assert c.decode(c.encode(q) + tail) == Some(q);
    assert (FixAgeScaleFactor * p) % TwoTo32 == 4 * p;
    assert (FixAgeScaleFactor * q) % TwoTo32 == 4 * q;
  }

  /** The source wraps: an age of 1024 goes out as 0 and comes back as 0,
      where the capped codec gives 1020; the order of 1023 and 1024 flips. */
  lemma FixAgeAsWrittenWraps(c: NumericCodec, tail: Bits)
    requires LawfulNumeric(c, FixAgeMin(), FixAgeMax())
    ensures FixAgePackAsWritten(1024) == 0
    ensures FixAgeDecode(c, FixAgeEncodeAsWritten(c, 1024) + tail) == Some(0)
    ensures FixAgeDecode(c, FixAgeEncodeAsWritten(c, 1023) + tail) == Some(1020)
    ensures FixAgeDecode(c, FixAgeEncode(c, 1024) + tail) == Some(1020)
  {
    Pow2Byte();
    assert FixAgePackAsWritten(1024) == 0;
    assert FixAgePackAsWritten(1023) == 255;
    assert FixAgePack(1024) == 255;
    assert c.decode(c.encode(0) + tail) == Some(0);
    assert c.decode(c.encode(255) + tail) == Some(255);
  }

  /** encode() quantises max() = 255 like a value: it packs 63, read back as 252. */
  lemma FixAgeDefault(c: NumericCodec, tail: Bits)
    requires LawfulNumeric(c, FixAgeMin(), FixAgeMax())
    ensures FixAgeEncodeDefault(c) == c.encode(63)
    ensures FixAgeDecode(c, FixAgeEncodeDefault(c) + tail) == Some(252)
  {
    Pow2Byte();
    assert FixAgePackAsWritten(255) == 63;
    assert c.decode(c.encode(63) + tail) == Some(63);
  }

  // ----- The fixed-width codecs -----

  /** The (dccl.field).ccl options a codec consults: protobuf's has_...() flags
      and the stored bit_size (the field's default when it is absent). */
  datatype CclOptions = CclOptions(hasBitSize: bool, bitSize: uint32, hasThrustModeTag: bool)

  datatype FixedCodec =
    | Heading | HiResAltitude | Depth | Velocity | Speed | Watts
    | GfiPitchOil | Salinity | Temperature | SoundSpeed

  const HiResAltitudeCompressedByteSize: nat := 2
  const GfiPitchOilCompressedByteSize: nat := 2

  /** size() of each codec: a constant, except for depth, which reads the
      bit_size option. No codec's size depends on the value encoded. */
  function FixedSize(codec: FixedCodec, opts: CclOptions): nat {
    match codec
    case HiResAltitude => HiResAltitudeCompressedByteSize * BitsInByte
    case GfiPitchOil => GfiPitchOilCompressedByteSize * BitsInByte
    case Depth => opts.bitSize
    case _ => BitsInByte
  }

  /** validate(): depth needs bit_size, speed needs thrust_mode_tag, the others
      inherit a validate() that checks nothing. */
  function FixedValidate(codec: FixedCodec, opts: CclOptions): Outcome<string> {
    match codec
    case Depth =>
      if opts.hasBitSize then Pass else Fail("missing (dccl.field).ccl.bit_size")
    case Speed =>
      if opts.hasThrustModeTag then Pass else Fail("missing (dccl.field).ccl.thrust_mode_tag")
    case _ => Pass
  }

  /** The wire widths: one byte for heading, velocity, speed, watts, salinity,
      temperature and sound speed; two bytes for hi-res altitude and
      GFIPitchOil, whatever the options. */
  lemma FixedWidths(codec: FixedCodec, opts: CclOptions)
    ensures codec in {Heading, Velocity, Speed, Watts, Salinity, Temperature, SoundSpeed} ==>
      FixedSize(codec, opts) == 8
    ensures codec in {HiResAltitude, GfiPitchOil} ==> FixedSize(codec, opts) == 16
    ensures codec != Depth ==> FixedSize(codec, opts) == FixedSize(codec, CclOptions(false, 0, false))
  {
  }

  /** Depth validates exactly when bit_size is present, and then its size is
      that option. */
  lemma DepthOption(opts: CclOptions)
    ensures FixedValidate(Depth, opts).Pass? <==> opts.hasBitSize
    ensures !opts.hasBitSize ==> FixedValidate(Depth, opts) == Fail("missing (dccl.field).ccl.bit_size")
    ensures FixedValidate(Depth, opts).Pass? ==> FixedSize(Depth, opts) == opts.bitSize
  {
  }

  /** Speed validates exactly when thrust_mode_tag is present; the other
      codecs (and fix-age) always validate, and no codec but depth looks at
      bit_size. */
  lemma OtherOptions(codec: FixedCodec, opts: CclOptions)
    ensures FixedValidate(Speed, opts).Pass? <==> opts.hasThrustModeTag
    ensures !opts.hasThrustModeTag ==> FixedValidate(Speed, opts) == Fail("missing (dccl.field).ccl.thrust_mode_tag")
    ensures codec != Depth && codec != Speed ==> FixedValidate(codec, opts) == Pass
    ensures FixAgeValidate() == Pass
  {
  }
}
