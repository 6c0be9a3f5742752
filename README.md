# DCCL legacy-compatibility codecs and DCCLMessageVal, in Dafny

This project models two parts of the DCCL (Dynamic Compact Control Language)
codec layer. It proves what they do.

1. **The legacy CCL compatibility codecs** of `src/ccl/ccl_compatibility.h`:
   - `LegacyCCLIdentifierCodec` sends message ids from two numbering spaces through one leading byte. Ids with high half `0x0CC1` are legacy CCL ids and go out as a bare byte. Every other id goes out through `DefaultIdentifierCodec` behind the reserved header byte 32.
   - `LegacyCCLFixAgeCodec` is a lossy quantiser: it divides by 4 and decodes by multiplying by 4.
   - The sizes and `validate()` checks of the fixed-width legacy codecs: heading, hi-res altitude, depth, velocity, speed, watts, GFIPitchOil, salinity, temperature and sound speed.
2. **`goby::acomms::DCCLMessageVal`** of `src/acomms/libdccl/message_val.cpp`. It is a field value with a type tag and one storage field per tag. It has fallible `get()` accessors, "safe" conversion operators that substitute defaults, a conversion to and from a vector, and its `==` operators.

Files (one module each):
- `wrappers.dfy` — Option / Result / Outcome.
- `int_types.dfy` — `uint32`, `int32`, `int64` and the wrap-around conversions.
- `bitsets.dfy` — `dccl::Bitset` as `seq<bool>`, least significant bit first. The `Bitset` class holds the fetched bits and the parent's unread bits.
- `default_codecs.dfy` — the default identifier and numeric codecs as records of functions, with the contracts assumed of them (`LawfulIdentifier`, `LawfulNumeric`). It also holds two small instances, `SixteenBitIdentifier` and `ByteNumeric`, with lemmas proving that these instances meet the contracts. So the assumptions are consistent.
- `ccl_identifier.dfy`, `ccl_field_codecs.dfy` — the legacy codecs.
- `string_util.dfy` — `boost::iequals` in the "C" locale and the decimal rendering of a `long`.
- `message_val.dfy` — `DCCLMessageVal`.

The class `MessageVals.MessageVal` has the six fields that `init()`, the constructors and `set()` overwrite in place. The `get()` overloads, the safe operators and `==` are pure functions of a `Fields` snapshot of those fields.

Floating-point work is left to a `Numerics` parameter: parsing, `unbiased_round` plus `numeric_cast`, narrowing to `float`, and the fixed/scientific rendering. Only the tag logic, the boolean literals and the defaults are pinned down.

Three behaviours of the code that the model follows, although the code's names or comments suggest otherwise:
- `a == b` does not convert either operand. It switches on `b`'s tag and compares `b` with `a`'s stored field of that tag, which is stale when the tags differ (see Findings).
- A legacy id whose low half exceeds 255 is not recovered, because only the low 8 bits are sent (`LegacyHighByteLost`).
- The fix-age codec's default `encode()` goes through `encode(max())`. So it quantises 255 like any other age: it packs 63, which decodes to 252, not 1020 (`FixAgeDefault`).

## Model

| member | source | states |
|---|---|---|
| Bitsets.ToNat | src/ccl/ccl_compatibility.h:66 | `to_ulong()`: the number the bits spell, least significant bit first, always below 2^length; ToNatFromNat and FromNatToNat tie it to the constructor |
| Bitsets.FromNat | src/ccl/ccl_compatibility.h:53 | the constructor `Bitset(num_bits, value)`: exactly `num_bits` bits, holding the low bits of `value` (ToNatFromNat) |
| Bitsets.ToNatFromNat | src/ccl/ccl_compatibility.h:53 | reading back `Bitset(width, value)` with `to_ulong()` gives `value mod 2^width` |
| Bitsets.FromNatToNat | src/ccl/ccl_compatibility.h:66 | every bit string is the Bitset of its own `to_ulong()` value |
| Bitsets.Prepend | src/ccl/ccl_compatibility.h:58-59 | `prepend(head)` puts `head` first (low-order) and keeps the rest after it |
| Bitsets.Bitset.constructor | src/ccl/ccl_compatibility.h:64 | the Bitset handed to `decode`: the bits fetched so far and the parent's unread bits, as given |
| Bitsets.Bitset.ToULong | src/ccl/ccl_compatibility.h:66 | `bits->to_ulong()` reads the fetched bits as a number (ToNat) |
| Bitsets.Bitset.GetMoreBits | src/ccl/ccl_compatibility.h:71 | succeeds exactly when the parent holds n bits; then moves them to the high end and removes them from the parent; on underrun nothing changes |
| Bitsets.Bitset.ShiftRight | src/ccl/ccl_compatibility.h:72 | `>>= n` discards the n lowest bits |
| CclIdentifier.IsLegacy | src/ccl/ccl_compatibility.h:50 | the test `(wire_value & 0xFFFF0000) == CCL_DCCL_ID_PREFIX`: the id's high half is 0x0CC1 |
| CclIdentifier.Encode | src/ccl/ccl_compatibility.h:48-62 | `encode(wire_value)`, both branches; LegacyEncoding, CurrentEncoding and the round trips state what it produces |
| CclIdentifier.EncodeDefault | src/ccl/ccl_compatibility.h:45-46 | `encode()` is `encode(0)`; DefaultIsCurrent states its bits |
| CclIdentifier.Size | src/ccl/ccl_compatibility.h:85-97 | `size(field_value)`, both branches; SizeIsEncodingLength and SizeBounds state its properties |
| CclIdentifier.SizeDefault | src/ccl/ccl_compatibility.h:82-83 | `size()` is `size(0)` (DefaultIsCurrent, SizeBounds) |
| CclIdentifier.MinSize | src/ccl/ccl_compatibility.h:102-103 | `min_size()` is one byte (SizeBounds) |
| CclIdentifier.MaxSize | src/ccl/ccl_compatibility.h:99-100 | `max_size()` is one byte more than the default codec's (SizeBounds) |
| CclIdentifier.LegacyEncoding | src/ccl/ccl_compatibility.h:48-54 | an id with high half 0x0CC1 encodes to exactly 8 bits, with no header, carrying `id mod 256`; its size is 8 |
| CclIdentifier.CurrentEncoding | src/ccl/ccl_compatibility.h:55-60 | any other id encodes as the byte 32 followed by the default codec's encoding; its size is `8 + DefaultIdentifierCodec::size(id)` |
| CclIdentifier.DefaultIsCurrent | src/ccl/ccl_compatibility.h:45-46 | `encode()` and `size()` use id 0, which takes the non-legacy branch |
| CclIdentifier.SizeIsEncodingLength | src/ccl/ccl_compatibility.h:85-97 | `size(v)` is the length of `encode(v)` for every id |
| CclIdentifier.SizeBounds | src/ccl/ccl_compatibility.h:99-103 | `min_size() == 8 <= size(v) <= max_size() == 8 + DefaultIdentifierCodec::max_size()` for every v and for `size()` |
| CclIdentifier.DecodeFields | src/ccl/ccl_compatibility.h:64-80 | what `decode(bits)` returns for the framework's first byte and the parent's remaining bits; DecodeBranches and the round trips state it |
| CclIdentifier.DecodeMessage | src/ccl/ccl_compatibility.h:64-80 | decoding the id at the front of a whole message: the first 8 bits are the framework's byte, and a shorter message is an underrun |
| CclIdentifier.Decode | src/ccl/ccl_compatibility.h:64-80 | the decode method returns the decoding of its first byte and the parent's bits. On the header it fetches `min_size()` more bits and drops the header byte; otherwise it leaves the Bitset alone |
| CclIdentifier.DecodeBranches | src/ccl/ccl_compatibility.h:66-79 | first byte 32: an underrun if fewer than `min_size()` bits follow, else the default decode of what follows; any other byte b: `0x0CC10000 + b` |
| CclIdentifier.DecodedSpaceFollowsFirstByte | src/ccl/ccl_compatibility.h:68-78 | a decoded id is legacy exactly when the first byte was not the header |
| CclIdentifier.CurrentRoundTrip | src/ccl/ccl_compatibility.h:55-73 | every non-legacy id the default codec carries decodes back from the front of any message |
| CclIdentifier.LegacyRoundTrip | src/ccl/ccl_compatibility.h:50-78 | the legacy id `0x0CC10000 + k` decodes back for every `k < 256` with `k != 32` |
| CclIdentifier.HeaderCollision | src/ccl/ccl_compatibility.h:40-73 | `0x0CC10020` encodes to the header byte itself, is decoded by the DCCL branch, and is never returned |
| CclIdentifier.LegacyByte | src/ccl/ccl_compatibility.h:50-53 | the legacy id `0x0CC10000 + k` goes out as the byte `k mod 256` |
| CclIdentifier.LegacyHighByteLost | src/ccl/ccl_compatibility.h:53 | legacy ids that differ only above bit 7 encode alike; one with a low half of 256 or more never decodes back |
| CclIdentifier.EncodingExamples | src/ccl/ccl_compatibility.h:48-60 | id 100000 encodes starting with byte 0x20; `0x0CC10005` encodes to the single byte 5 |
| CclFieldCodecs.FixAgeMax | src/ccl/ccl_compatibility.h:140 | `max()` is `(1 << 8) - 1` = 255 (FixAgeDefault, FixAgeRoundTrip) |
| CclFieldCodecs.FixAgeMin | src/ccl/ccl_compatibility.h:141 | `min()` is 0; with `max()` it is the range of the numeric codec the lemmas assume |
| CclFieldCodecs.FixAgeValidate | src/ccl/ccl_compatibility.h:142 | `validate()` checks nothing (OtherOptions) |
| CclFieldCodecs.FixAgePackAsWritten | src/ccl/ccl_compatibility.h:131 | the value the source hands to the numeric codec, narrowing before the minimum (FixAgeCapIsDead) |
| CclFieldCodecs.FixAgePack | src/ccl/ccl_compatibility.h:131 | the corrected value: the quotient capped at `max()` before narrowing (FixAgePackBounds) |
| CclFieldCodecs.FixAgeEncodeAsWritten | src/ccl/ccl_compatibility.h:128-132 | `encode(wire_value)` as written (FixAgeRoundTripAsWritten, FixAgeAsWrittenWraps) |
| CclFieldCodecs.FixAgeEncode | src/ccl/ccl_compatibility.h:128-132 | the corrected `encode(wire_value)` (FixAgeRoundTrip, FixAgeMonotone) |
| CclFieldCodecs.FixAgeEncodeDefault | src/ccl/ccl_compatibility.h:123-126 | `encode()` is `encode(max())` on the source's encoding (FixAgeDefault) |
| CclFieldCodecs.FixAgeDecode | src/ccl/ccl_compatibility.h:134-138 | `decode(bits)` is `SCALE_FACTOR` times the numeric codec's decode, in 32-bit arithmetic; both round-trip lemmas state it |
| CclFieldCodecs.ToUChar | src/ccl/ccl_compatibility.h:131 | the conversion to `unsigned char` lands below 256 and is congruent to its argument mod 256 |
| CclFieldCodecs.FixAgeCapIsDead | src/ccl/ccl_compatibility.h:128-132 | as written, the packed value is always `(v / 4) mod 256`, so the cap at `max()` never applies |
| CclFieldCodecs.FixAgePackBounds | src/ccl/ccl_compatibility.h:128-132 | the corrected packed value is at most 255 and at most `v / 4`, and it equals `v / 4` whenever that fits |
| CclFieldCodecs.FixAgeAgreesBelow1024 | src/ccl/ccl_compatibility.h:128-132 | below 1024 the as-written codec and the corrected one encode identically |
| CclFieldCodecs.FixAgeRoundTripAsWritten | src/ccl/ccl_compatibility.h:128-138 | with the source's encoding, `decode(encode(v) + tail)` is `4 * ((v / 4) mod 256)` for every age: a multiple of 4, never above v; the encoding has the numeric codec's size |
| CclFieldCodecs.FixAgeRoundTrip | src/ccl/ccl_compatibility.h:128-138 | for the corrected codec, `decode(encode(v))` is a multiple of 4 and at most v; for `v < 1024` it is `4 * (v / 4)`, within 3 of v; from 1020 up it is 1020; the encoding has the numeric codec's size |
| CclFieldCodecs.FixAgeMonotone | src/ccl/ccl_compatibility.h:128-138 | for the corrected codec, `v <= w` implies `decode(encode(v)) <= decode(encode(w))`; the source's codec breaks this at 1024 (FixAgeAsWrittenWraps) |
| CclFieldCodecs.FixAgeAsWrittenWraps | src/ccl/ccl_compatibility.h:130-131 | as written, age 1024 packs 0 and decodes to 0, while 1023 decodes to 1020; the corrected codec decodes 1024 to 1020 |
| CclFieldCodecs.FixAgeDefault | src/ccl/ccl_compatibility.h:123-126 | `encode()` packs `255 / 4 == 63`, which decodes to 252 |
| CclFieldCodecs.FixedSize | src/ccl/ccl_compatibility.h:166-279 | the `size()` of each fixed-width codec (FixedWidths, DepthOption) |
| CclFieldCodecs.FixedValidate | src/ccl/ccl_compatibility.h:191-230 | the `validate()` of each fixed-width codec: depth's and speed's `require`, the others' empty check (DepthOption, OtherOptions) |
| CclFieldCodecs.FixedWidths | src/ccl/ccl_compatibility.h:166-279 | heading, velocity, speed, watts, salinity, temperature and sound speed take 8 bits; hi-res altitude and GFIPitchOil take 16; no width but depth's reads an option |
| CclFieldCodecs.DepthOption | src/ccl/ccl_compatibility.h:197-205 | depth validates exactly when `bit_size` is present, fails otherwise with "missing (dccl.field).ccl.bit_size", and its size is that option |
| CclFieldCodecs.OtherOptions | src/ccl/ccl_compatibility.h:226-229 | speed validates exactly when `thrust_mode_tag` is present, failing otherwise with "missing (dccl.field).ccl.thrust_mode_tag"; the other codecs and fix-age always validate |
| StringUtil.IEquals | src/acomms/libdccl/message_val.cpp:160-162 | `boost::iequals` in the "C" locale: equal lengths and equal characters after ASCII upper-casing (IEqualsIsUpperEquality) |
| StringUtil.IEqualsIsUpperEquality | src/acomms/libdccl/message_val.cpp:160-162 | case-insensitive comparison is equality after upper-casing the whole strings |
| StringUtil.BooleanLiterals | src/acomms/libdccl/message_val.cpp:159-166 | strings that match "true" never match "false"; "1" and "0" match only themselves; "TRUE" matches "true" |
| StringUtil.NatToDecimal | src/acomms/libdccl/message_val.cpp:143 | the rendering of a natural number is non-empty decimal digits without a leading zero |
| StringUtil.IntToDecimal | src/acomms/libdccl/message_val.cpp:143 | the rendering of a long starts with '-' exactly when it is negative, followed by digits |
| StringUtil.DecimalRoundTrip | src/acomms/libdccl/message_val.cpp:143 | the digits of a natural number read back as that number |
| IntTypes.ToInt32 | src/acomms/libdccl/message_val.cpp:294-297 | `operator int()` narrows modulo 2^32 and keeps every value that fits |
| IntTypes.ToUnsigned32 | src/acomms/libdccl/message_val.cpp:299-302 | `operator unsigned()` converts modulo 2^32 and keeps every value that fits |
| MessageVals.LongToDouble | src/acomms/libdccl/message_val.cpp:247-250 | a long of magnitude at most 2^53 converts exactly; larger ones are left to Numerics |
| MessageVals.TrueFalseLiteral | src/acomms/libdccl/message_val.cpp:199-204 | the fallback reads true exactly for "true" in any case and false exactly for "false" in any case |
| MessageVals.GetString | src/acomms/libdccl/message_val.cpp:124-153 | `get(std::string&)`, all five tags (BoolAndSameTag, LongToText, NotypeDefaults) |
| MessageVals.GetBool | src/acomms/libdccl/message_val.cpp:155-185 | `get(bool&)`, all five tags (StringToBool, BoolAndSameTag, NotypeDefaults) |
| MessageVals.GetLong | src/acomms/libdccl/message_val.cpp:187-224 | `get(long&)`, all five tags (StringToNumber, UnparsableText, BoolAndSameTag, NotypeDefaults) |
| MessageVals.GetDouble | src/acomms/libdccl/message_val.cpp:226-260 | `get(double&)`, all five tags (StringToNumber, LongToDouble, BoolAndSameTag, NotypeDefaults) |
| MessageVals.AsDouble | src/acomms/libdccl/message_val.cpp:265-270 | `operator double()`: the get result or NaN (SafeOperators) |
| MessageVals.AsBool | src/acomms/libdccl/message_val.cpp:273-278 | `operator bool()`: the get result or false (SafeOperators) |
| MessageVals.AsString | src/acomms/libdccl/message_val.cpp:280-285 | `operator std::string()`: the get result or "" (SafeOperators) |
| MessageVals.AsLong | src/acomms/libdccl/message_val.cpp:287-292 | `operator long()`: the get result or 0 (SafeOperators) |
| MessageVals.AsInt | src/acomms/libdccl/message_val.cpp:294-297 | `operator int()`: `long(*this)` narrowed (SafeOperators, ToInt32) |
| MessageVals.AsUnsigned | src/acomms/libdccl/message_val.cpp:299-302 | `operator unsigned()`: `long(*this)` converted (SafeOperators, ToUnsigned32) |
| MessageVals.AsFloat | src/acomms/libdccl/message_val.cpp:304-307 | `operator float()`: `double(*this)` narrowed; NaN passes through (NotypeDefaults) |
| MessageVals.EqString | src/acomms/libdccl/message_val.cpp:326-330 | `operator==(const std::string&)` (TypedEquality) |
| MessageVals.EqDouble | src/acomms/libdccl/message_val.cpp:332-336 | `operator==(double)`, with IEEE NaN (TypedEquality) |
| MessageVals.EqLong | src/acomms/libdccl/message_val.cpp:338-342 | `operator==(long)` (TypedEquality) |
| MessageVals.EqBool | src/acomms/libdccl/message_val.cpp:344-348 | `operator==(bool)` (TypedEquality) |
| MessageVals.Equals | src/acomms/libdccl/message_val.cpp:314-324 | `operator==(const DCCLMessageVal&)` as written (EqualsReadsStoredField, EqualsIgnoresLeftTag, EqualsReflexive) |
| MessageVals.MessageVal.Init | src/acomms/libdccl/message_val.cpp:37-45 | afterwards: empty string, zeros, false, precision `MAX_DBL_PRECISION`, no type |
| MessageVals.MessageVal.constructor | src/acomms/libdccl/message_val.cpp:48-49 | a default-constructed value has the fields `init()` leaves |
| MessageVals.MessageVal.FromString | src/acomms/libdccl/message_val.cpp:52-57 | the init fields with only the string and the tag replaced |
| MessageVals.MessageVal.FromDouble | src/acomms/libdccl/message_val.cpp:68-74 | the init fields with only the double, the precision and the tag replaced |
| MessageVals.MessageVal.FromFloat | src/acomms/libdccl/message_val.cpp:76-81 | the init fields with only the double and the tag replaced; the precision stays `MAX_DBL_PRECISION` |
| MessageVals.MessageVal.FromLong | src/acomms/libdccl/message_val.cpp:83-88 | the init fields with only the long and the tag replaced |
| MessageVals.MessageVal.FromInt | src/acomms/libdccl/message_val.cpp:90-95 | the init fields with the int widened into the long field and the tag replaced |
| MessageVals.MessageVal.FromBool | src/acomms/libdccl/message_val.cpp:97-102 | the init fields with only the bool and the tag replaced |
| MessageVals.Collapse | src/acomms/libdccl/message_val.cpp:105-111 | a vector of size 1 gives its element; any other size gives the "vector is not size 1" error |
| MessageVals.MessageVal.FromVector | src/acomms/libdccl/message_val.cpp:105-111 | the vector constructor makes a fresh copy of the single element, or fails exactly as `Collapse` says |
| MessageVals.MessageVal.SetString | src/acomms/libdccl/message_val.cpp:114-115 | only the string and the tag change; the other fields keep their old contents |
| MessageVals.MessageVal.SetDouble | src/acomms/libdccl/message_val.cpp:116-117 | only the double, the precision and the tag change |
| MessageVals.MessageVal.SetLong | src/acomms/libdccl/message_val.cpp:118-119 | only the long and the tag change |
| MessageVals.MessageVal.SetBool | src/acomms/libdccl/message_val.cpp:120-121 | only the bool and the tag change |
| MessageVals.MessageVal.AsVector | src/acomms/libdccl/message_val.cpp:309-312 | the vector conversion collapses back to the value itself |
| MessageVals.NotypeDefaults | src/acomms/libdccl/message_val.cpp:150-152 | with no type every `get` fails. The safe operators give 0 (long, int, unsigned), false, "" and NaN (double, float). Nothing equals it |
| MessageVals.NotypeOnTheLeft | src/acomms/libdccl/message_val.cpp:314-324 | as written, a value with no type on the left equals long 0, false, "" and the double 0.0; the corrected comparison gives the first three and no double |
| MessageVals.SafeOperators | src/acomms/libdccl/message_val.cpp:265-307 | each safe operator returns its `get` result or its default, and int / unsigned keep every long that fits |
| MessageVals.StringToBool | src/acomms/libdccl/message_val.cpp:159-166 | text reads as true exactly for "true" (any case) or "1", as false exactly for "false" (any case) or "0", and fails otherwise |
| MessageVals.StringToNumber | src/acomms/libdccl/message_val.cpp:191-241 | text reads as the parsed (and, for long, rounded) number. When that throws, "true" / "false" in any case read as 1 / 0; anything else fails |
| MessageVals.UnparsableText | src/acomms/libdccl/message_val.cpp:191-206 | unparsable text that is no boolean literal fails `get(long)`, and the safe operators give 0 and NaN |
| MessageVals.BoolAndSameTag | src/acomms/libdccl/message_val.cpp:124-260 | a bool reads as 1 / 0, 1.0 / 0.0 and "true" / "false"; a value read in its own type is its stored field |
| MessageVals.BoolTextRoundTrip | src/acomms/libdccl/message_val.cpp:146-166 | a bool rendered as text reads back as the same bool |
| MessageVals.LongToText | src/acomms/libdccl/message_val.cpp:142-144 | a long renders as text with a '-' exactly when negative, and a non-negative one reads back as its value |
| MessageVals.TypedEquality | src/acomms/libdccl/message_val.cpp:326-348 | comparison with a plain value holds exactly when the matching `get` succeeds with that value; a NaN argument never compares equal |
| MessageVals.EqualsReadsStoredField | src/acomms/libdccl/message_val.cpp:314-324 | `a == b` compares b's value in its own type with a's stored field of that type, and is false when b has no type |
| MessageVals.EqualsIgnoresLeftTag | src/acomms/libdccl/message_val.cpp:316 | a's tag plays no part in `a == b` |
| MessageVals.EqualsReflexive | src/acomms/libdccl/message_val.cpp:314-324 | a typed value equals itself unless it is a NaN double |
| MessageVals.EqualsSwitchesOnWrongOperand | src/acomms/libdccl/message_val.cpp:316 | as written, double 1.0 != long 1, long 1 != true and "TRUE" != true. The corrected comparison holds in all three, given that 1.0 rounds to 1 and 1 casts to true. Converting the right operand into the left's type instead still gives "TRUE" != true |
| MessageVals.EqualsIntendedConvertsLeft | src/acomms/libdccl/message_val.cpp:314-324 | the corrected `a == b` holds exactly when a, read through the safe operator of b's type, is b's stored value; NaN equals nothing, and an untyped b equals nothing |
| MessageVals.EqualsIntendedAgreesOnSameTag | src/acomms/libdccl/message_val.cpp:314-324 | when a holds a value of b's type, the corrected and the as-written comparison agree |

## Findings

| source | as written | input that shows it | evidently intended | confidence | as-written member | corrected member |
|---|---|---|---|---|---|---|
| src/ccl/ccl_compatibility.h:131 | the minimum is taken after both operands are narrowed to `unsigned char`. So the quotient `v / 4` wraps modulo 256 and the cap at `max()` = 255 never applies | age 1024: packs 0 and decodes to 0, younger than age 1023 (1020) | cap the quotient at 255 before narrowing, so every age from 1020 up decodes to 1020 | not executed; high | CclFieldCodecs.FixAgeAsWrittenWraps | CclFieldCodecs.FixAgeRoundTrip |
| src/acomms/libdccl/message_val.cpp:316 | `operator==(mv)` switches on the right operand's tag and compares it with the left operand's stored field of that tag, which is stale or the init default when the tags differ | long 1 == true is false (the left value's bool field is the init `false`) | keep the switch on b's tag but compare b with a converted into that type (`mv == std::string(*this)`, `mv == long(*this)`, …), so double 1.0 == long 1, long 1 == true and "TRUE" == true all hold. Switching on a's tag and converting b into it would still make "TRUE" == true false, because true renders as "true" | not executed; medium | MessageVals.EqualsSwitchesOnWrongOperand | MessageVals.EqualsIntendedConvertsLeft |

The corrected fix-age encoding is `FixAgeEncode`, which the round-trip and ordering lemmas use. The source's encoding is `FixAgeEncodeAsWritten`. The corrected comparison is `EqualsIntended`; the source's is `Equals`. `EqualsRightIntoLeft` is the other possible repair, and it does not meet the "TRUE" example. The source's `encode()` is `FixAgeEncodeDefault`, on the as-written encoding.

## Left out

- The lat/lon, time-date, heading, altitude, depth, velocity, speed, watts, GFIPitchOil, salinity, temperature and sound-speed `encode`/`decode` bodies: the header only declares them. Only their sizes and `validate()` are modelled. The lat/lon and time-date `size()` bodies are also only declared, so those two codecs are absent.
- `dccl3_load` and the registration of these codecs: the C entry point's body is not part of this model.
- `DefaultIdentifierCodec` and `DefaultNumericFieldCodec` are not part of this model. They are parameters with assumed contracts (`LawfulIdentifier`, `LawfulNumeric`). `LawfulIdentifier` also assumes that the default codec never decodes an id at or above the legacy range.
- The base class `TypedFixedFieldCodec` (`size(value)`, `min_size()`, `max_size()`, the default `validate()`) is not part of this model. The fixed codecs' sizes take no value. The codecs that do not override `validate()` are taken to pass.
- Protobuf option lookup (`GetExtension(ccl)`) is the record `CclOptions`: the `has_` flags and the stored `bit_size`.
- The Bitset internals (`get_more_bits`, `>>=`, `to_ulong`, `prepend`) belong to `dccl/bitset.h`, which is not part of this model. `>>=` is modelled as discarding the low bits, so the Bitset shrinks.
- CclIdentifier.CurrentRoundTrip: depends on `>>=` shortening the Bitset, so that after the header byte is dropped, the bits the default codec reads (its own `get_more_bits` included) begin right after that byte. Under the meaning `>>=` has on `std::bitset` or `boost::dynamic_bitset`, where the size stays and zeros fill in, those bits would sit above 8 zero bits. Long-form ids would then not come back. `dccl/bitset.h` is not part of this model.
- CclIdentifier.Decode: does not state the Bitset's state after `DefaultIdentifierCodec::decode`, because that codec's own fetching of further bits is not modelled. It requires the framework's 8 bits on entry.
- CclIdentifier.IsLegacy: the mask test `(id & 0xFFFF0000) == 0x0CC10000` is stated as `id / 65536 == 0x0CC1`. On 32-bit ids the two are the same.
- Floating point in `message_val.cpp` is left to `Numerics`: `lexical_cast<double>`, `unbiased_round` with `numeric_cast<long>`, `numeric_cast<bool>` (of a double and of a long), the fixed/scientific rendering with `log10` and `setprecision`, long-to-double rounding beyond 2^53, and double-to-float narrowing. `Double` has no negative zero.
- The `operator<<` printers for a value and a vector: output formatting only.
- `MAX_DBL_PRECISION` is declared in `message_val.h`, which is not part of this model, so its value is left unspecified.
- The `const char*` constructor does the same as the `std::string` one and is modelled by `FromString`. `long` is taken to be 64 bits.
- Which value the safe `operator float()` gives for a finite double is left to `Numerics`; NaN and the infinities pass through.
