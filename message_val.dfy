/** goby::acomms::DCCLMessageVal: a field value that carries a type tag and one
    storage field per tag. The objects are modelled by a class whose fields
    the constructors and set() overwrite; the accessors and comparisons are
    functions of a snapshot of those fields. Floating-point parsing, rounding,
    narrowing and formatting are parameters (Numerics): only the tag logic,
    the boolean literals and the defaults are fixed here. */
module MessageVals {
  import opened Wrappers
  import opened IntTypes
  import opened StringUtil

  /** MAX_DBL_PRECISION, declared in message_val.h, which is not part of this
      model: its value is left unspecified. */
  const MaxDblPrecision: int32

  /** The type tag type_. */
  datatype CppType = CppNotype | CppString | CppDouble | CppLong | CppBool

  /** An IEEE double as far as this file needs one: finite values, the two
      infinities and NaN. */
  datatype Double = Finite(value: real) | PosInf | NegInf | NaN

  /** C++ `==` on doubles: NaN equals nothing, itself included. */
  predicate DoubleEq(x: Double, y: Double) {
    x != NaN && y != NaN && x == y
  }

  /** The conversions this file leaves to the C++ and boost libraries. */
  datatype Numerics = Numerics(
    parseDouble: string -> Option<Double>,   // boost::lexical_cast<double>; None when it throws
    roundToLong: Double -> Option<int64>,    // numeric_cast<long>(unbiased_round(d, 0)); None when it throws
    doubleToBool: Double -> Option<bool>,    // numeric_cast<bool>(double); None when it throws
    longToBool: int64 -> Option<bool>,       // numeric_cast<bool>(long); None when it throws
    formatDouble: (Double, int32) -> string, // the fixed / scientific rendering with a precision
    wideLongToDouble: int64 -> Double,       // long to double beyond 2^53, where it rounds
    narrowToFloat: real -> Double)           // double to float of a finite value

  /** The fields of a DCCLMessageVal: sval_, dval_, lval_, bval_, precision_, type_. */
  datatype Fields = Fields(sval: string, dval: Double, lval: int64, bval: bool, precision: int32, tag: CppType)

  /** The fields as init() leaves them. */
  function InitFields(): Fields {
    Fields("", Finite(0.0), 0, false, MaxDblPrecision, CppNotype)
  }

  const TwoTo53: int := 0x20_0000_0000_0000

  /** numeric_cast<double>(long): exact up to 2^53 in magnitude; it never throws. */
  function LongToDouble(n: Numerics, l: int64): (d: Double)
    ensures -TwoTo53 <= l <= TwoTo53 ==> d == Finite(l as real)
  {
    if -TwoTo53 <= l <= TwoTo53 then Finite(l as real) else n.wideLongToDouble(l)
  }

  /** The case-insensitive "true" / "false" fallback of get(long) and get(double). */
  function TrueFalseLiteral(s: string): (r: Option<bool>)
    ensures r == Some(true) <==> IEquals(s, "true")
    ensures r == Some(false) <==> IEquals(s, "false")
  {
    BooleanLiterals(s);
    if IEquals(s, "true") then Some(true)
    else if IEquals(s, "false") then Some(false)
    else None
  }

  function BoolToInt(b: bool): int64 {
    if b then 1 else 0
  }

  // ----- The four get() overloads -----

  /** get(std::string&) */
  function GetString(n: Numerics, v: Fields): Option<string> {
    match v.tag
    case CppString => Some(v.sval)
    case CppDouble => Some(n.formatDouble(v.dval, v.precision))
    case CppLong => Some(IntToDecimal(v.lval))
    case CppBool => Some(if v.bval then "true" else "false")
    case CppNotype => None
  }

  /** get(bool&) */
  function GetBool(n: Numerics, v: Fields): Option<bool> {
    match v.tag
    case CppString =>
      if IEquals(v.sval, "true") || IEquals(v.sval, "1") then Some(true)
      else if IEquals(v.sval, "false") || IEquals(v.sval, "0") then Some(false)
      else None
    case CppDouble => n.doubleToBool(v.dval)
    case CppLong => n.longToBool(v.lval)
    case CppBool => Some(v.bval)
    case CppNotype => None
  }

  /** get(long&): text is parsed as a double and rounded; when either step
      throws, the boolean literals are tried. */
  function GetLong(n: Numerics, v: Fields): Option<int64> {
    match v.tag
    case CppString =>
      var parsed := n.parseDouble(v.sval);
      var rounded := if parsed.Some? then n.roundToLong(parsed.value) else None;
      if rounded.Some? then rounded
      else (match TrueFalseLiteral(v.sval)
        case Some(b) => Some(BoolToInt(b))
        case None => None)
    case CppDouble => n.roundToLong(v.dval)
    case CppLong => Some(v.lval)
    case CppBool => Some(BoolToInt(v.bval))
    case CppNotype => None
  }

  /** get(double&): text is parsed; when parsing throws, the boolean literals
      are tried. */
  function GetDouble(n: Numerics, v: Fields): Option<Double> {
    match v.tag
    case CppString =>
      var parsed := n.parseDouble(v.sval);
      if parsed.Some? then parsed
      else (match TrueFalseLiteral(v.sval)
        case Some(b) => Some(Finite(if b then 1.0 else 0.0))
        case None => None)
    case CppDouble => Some(v.dval)
    case CppLong => Some(LongToDouble(n, v.lval))
    case CppBool => Some(Finite(if v.bval then 1.0 else 0.0))
    case CppNotype => None
  }

  // ----- The safe conversion operators -----

  /** operator double(): NaN when get(double&) fails. */
  function AsDouble(n: Numerics, v: Fields): Double {
    GetDouble(n, v).GetOr(NaN)
  }

  /** operator bool(): false when get(bool&) fails. */
  function AsBool(n: Numerics, v: Fields): bool {
    GetBool(n, v).GetOr(false)
  }

  /** operator std::string(): "" when get(std::string&) fails. */
  function AsString(n: Numerics, v: Fields): string {
    GetString(n, v).GetOr("")
  }

  /** operator long(): 0 when get(long&) fails. */
  function AsLong(n: Numerics, v: Fields): int64 {
    GetLong(n, v).GetOr(0)
  }

  /** operator int(): long(*this) narrowed to int. */
  function AsInt(n: Numerics, v: Fields): int32 {
    ToInt32(AsLong(n, v))
  }

  /** operator unsigned(): long(*this) converted to unsigned. */
  function AsUnsigned(n: Numerics, v: Fields): uint32 {
    ToUnsigned32(AsLong(n, v))
  }

  /** operator float(): double(*this) narrowed to float; NaN and the
      infinities stay what they are. */
  function AsFloat(n: Numerics, v: Fields): Double {
    match AsDouble(n, v)
    case Finite(x) => n.narrowToFloat(x)
    case other => other
  }

  // ----- Comparisons -----

  /** operator==(const std::string&) */
  predicate EqString(n: Numerics, v: Fields, s: string) {
    var us := GetString(n, v);
    us.Some? && us.value == s
  }

  /** operator==(double) */
  predicate EqDouble(n: Numerics, v: Fields, d: Double) {
    var us := GetDouble(n, v);
    us.Some? && DoubleEq(us.value, d)
  }

  /** operator==(long) */
  predicate EqLong(n: Numerics, v: Fields, l: int64) {
    var us := GetLong(n, v);
    us.Some? && us.value == l
  }

  /** operator==(bool) */
  predicate EqBool(n: Numerics, v: Fields, b: bool) {
    var us := GetBool(n, v);
    us.Some? && us.value == b
  }

  /** operator==(const DCCLMessageVal& mv), `a == b` as the source writes it:
      the switch is on b's tag, and b is compared with a's stored field of
      that tag, whatever a's own tag is. */
  predicate Equals(n: Numerics, a: Fields, b: Fields) {
    match b.tag
    case CppString => EqString(n, b, a.sval)
    case CppDouble => EqDouble(n, b, a.dval)
    case CppLong => EqLong(n, b, a.lval)
    case CppBool => EqBool(n, b, a.bval)
    case CppNotype => false
  }

  /** `a == b` with the stale fields replaced by conversions, the smallest
      change to the switch of operator==: still on b's tag, but b is compared
      with a converted into b's type (`mv == std::string(*this)`,
      `mv == double(*this)`, `mv == long(*this)`, `mv == bool(*this)`). */
  predicate EqualsIntended(n: Numerics, a: Fields, b: Fields) {
    match b.tag
    case CppString => EqString(n, b, AsString(n, a))
    case CppDouble => EqDouble(n, b, AsDouble(n, a))
    case CppLong => EqLong(n, b, AsLong(n, a))
    case CppBool => EqBool(n, b, AsBool(n, a))
    case CppNotype => false
  }

  /** The other repair one might read into the comparison: switch on a's own
      tag and convert b into it. It is recorded to show why it is not the
      correction: it still tells "TRUE" from true. */
  predicate EqualsRightIntoLeft(n: Numerics, a: Fields, b: Fields) {
    match a.tag
    case CppString => EqString(n, b, a.sval)
    case CppDouble => EqDouble(n, b, a.dval)
    case CppLong => EqLong(n, b, a.lval)
    case CppBool => EqBool(n, b, a.bval)
    case CppNotype => false
  }

  /** The Numerics behaviour the mixed-type examples rely on: the double 1.0
      rounds to the long 1, and numeric_cast<bool> takes 1 to true. */
  predicate SmallIntegersExact(n: Numerics) {
    n.roundToLong(Finite(1.0)) == Some(1) && n.longToBool(1) == Some(true)
  }

  // ----- Properties of the accessors -----

  /** A value with no type fails every get(), so every safe operator yields
      its default, and it equals nothing. */
  lemma NotypeDefaults(n: Numerics, v: Fields, a: Fields)
    requires v.tag == CppNotype
    ensures GetString(n, v).None? && GetBool(n, v).None? && GetLong(n, v).None? && GetDouble(n, v).None?
    ensures AsLong(n, v) == 0 && AsInt(n, v) == 0 && AsUnsigned(n, v) == 0
    ensures !AsBool(n, v) && AsString(n, v) == ""
    ensures AsDouble(n, v) == NaN && AsFloat(n, v) == NaN
    ensures !Equals(n, a, v) && !EqualsIntended(n, a, v)
  {
  }

  /** The other direction does not hold: as written, a value with no type on
      the left equals long 0, false, "" and the double 0.0, because its stored
      fields are the init() ones. The corrected comparison reads it through the
      safe operators, so it equals 0, false and "" but no double (it reads as
      NaN). */
  lemma NotypeOnTheLeft(n: Numerics)
    ensures Equals(n, InitFields(), InitFields().(lval := 0, tag := CppLong))
    ensures Equals(n, InitFields(), InitFields().(bval := false, tag := CppBool))
    ensures Equals(n, InitFields(), InitFields().(sval := "", tag := CppString))
    ensures Equals(n, InitFields(), InitFields().(dval := Finite(0.0), tag := CppDouble))
    ensures EqualsIntended(n, InitFields(), InitFields().(lval := 0, tag := CppLong))
    ensures EqualsIntended(n, InitFields(), InitFields().(bval := false, tag := CppBool))
    ensures EqualsIntended(n, InitFields(), InitFields().(sval := "", tag := CppString))
    ensures !EqualsIntended(n, InitFields(), InitFields().(dval := Finite(0.0), tag := CppDouble))
  {
  }

  /** The safe operators return what get() returns, and their default when it fails. */
  lemma SafeOperators(n: Numerics, v: Fields)
    ensures AsDouble(n, v) == if GetDouble(n, v).Some? then GetDouble(n, v).value else NaN
    ensures AsBool(n, v) == (GetBool(n, v).Some? && GetBool(n, v).value)
    ensures AsString(n, v) == if GetString(n, v).Some? then GetString(n, v).value else ""
    ensures AsLong(n, v) == if GetLong(n, v).Some? then GetLong(n, v).value else 0
    ensures -TwoTo31 <= AsLong(n, v) < TwoTo31 ==> AsInt(n, v) == AsLong(n, v)
    ensures 0 <= AsLong(n, v) ==> AsUnsigned(n, v) == AsLong(n, v) % TwoTo32
  {
  }

  /** Text reads as a bool exactly when it is "true", "false" (in any case),
      "1" or "0". */
  lemma StringToBool(n: Numerics, v: Fields)
    requires v.tag == CppString
    ensures GetBool(n, v) == Some(true) <==> IEquals(v.sval, "true") || v.sval == "1"
    ensures GetBool(n, v) == Some(false) <==> IEquals(v.sval, "false") || v.sval == "0"
    ensures GetBool(n, v).None? <==>
      !IEquals(v.sval, "true") && !IEquals(v.sval, "false") && v.sval != "1" && v.sval != "0"
  {
    BooleanLiterals(v.sval);
  }

  /** Text reads as a number when it parses (and, for long, rounds into
      range); failing that, "true" and "false" in any case read as 1 and 0;
      anything else fails. */
  lemma StringToNumber(n: Numerics, v: Fields)
    requires v.tag == CppString
    ensures n.parseDouble(v.sval).Some? ==> GetDouble(n, v) == n.parseDouble(v.sval)
    ensures n.parseDouble(v.sval).None? ==>
      GetDouble(n, v) == if IEquals(v.sval, "true") then Some(Finite(1.0))
                         else if IEquals(v.sval, "false") then Some(Finite(0.0)) else None
    ensures n.parseDouble(v.sval).Some? && n.roundToLong(n.parseDouble(v.sval).value).Some? ==>
      GetLong(n, v) == n.roundToLong(n.parseDouble(v.sval).value)
    ensures n.parseDouble(v.sval).None? || n.roundToLong(n.parseDouble(v.sval).value).None? ==>
      GetLong(n, v) == if IEquals(v.sval, "true") then Some(1)
                       else if IEquals(v.sval, "false") then Some(0) else None
  {
    BooleanLiterals(v.sval);
  }

  /** Text that does not parse and is no boolean literal reads as no number:
      the safe operators give 0 and NaN. */
  lemma UnparsableText(n: Numerics, s: string)
    requires n.parseDouble(s).None? && !IEquals(s, "true") && !IEquals(s, "false")
    ensures GetLong(n, InitFields().(sval := s, tag := CppString)).None?
    ensures AsLong(n, InitFields().(sval := s, tag := CppString)) == 0
    ensures AsDouble(n, InitFields().(sval := s, tag := CppString)) == NaN
  {
  }

  /** A bool reads as 1 / 0, 1.0 / 0.0 and "true" / "false"; a value read in
      its own type is its stored field. */
  lemma BoolAndSameTag(n: Numerics, v: Fields)
    ensures v.tag == CppBool ==>
      && GetBool(n, v) == Some(v.bval)
      && GetLong(n, v) == Some(if v.bval then 1 else 0)
      && GetDouble(n, v) == Some(Finite(if v.bval then 1.0 else 0.0))
      && GetString(n, v) == Some(if v.bval then "true" else "false")
    ensures v.tag == CppString ==> GetString(n, v) == Some(v.sval)
    ensures v.tag == CppDouble ==> GetDouble(n, v) == Some(v.dval)
    ensures v.tag == CppLong ==> GetLong(n, v) == Some(v.lval)
  {
  }

  /** A bool rendered as text reads back as the same bool. */
  lemma BoolTextRoundTrip(n: Numerics, b: bool)
    ensures GetBool(n, InitFields().(sval := AsString(n, InitFields().(bval := b, tag := CppBool)), tag := CppString)) == Some(b)
  {
  }

  /** A long rendered as text: a sign for negative values, then decimal digits. */
  lemma LongToText(n: Numerics, v: Fields)
    requires v.tag == CppLong
    ensures GetString(n, v).Some?
    ensures GetString(n, v).value[0] == '-' <==> v.lval < 0
    ensures v.lval >= 0 ==> DecimalValue(GetString(n, v).value) == v.lval
  {
    if v.lval >= 0 {
      DecimalRoundTrip(v.lval);
    }
  }

  // ----- Properties of the comparisons -----

  /** The typed comparisons hold exactly when the matching get() succeeds with
      the argument; a NaN argument never compares equal. */
  lemma TypedEquality(n: Numerics, v: Fields, s: string, d: Double, l: int64, b: bool)
    ensures EqString(n, v, s) <==> GetString(n, v) == Some(s)
    ensures EqLong(n, v, l) <==> GetLong(n, v) == Some(l)
    ensures EqBool(n, v, b) <==> GetBool(n, v) == Some(b)
    ensures EqDouble(n, v, d) <==> d != NaN && GetDouble(n, v) == Some(d)
  {
  }

  /** `a == b` as written compares b's own field with a's stored field of the
      same tag, and is false when b has no type. */
  lemma EqualsReadsStoredField(n: Numerics, a: Fields, b: Fields)
    ensures Equals(n, a, b) <==>
      match b.tag
      case CppString => b.sval == a.sval
      case CppDouble => DoubleEq(b.dval, a.dval)
      case CppLong => b.lval == a.lval
      case CppBool => b.bval == a.bval
      case CppNotype => false
  {
  }

  /** a's own tag plays no part in `a == b` as written. */
  lemma EqualsIgnoresLeftTag(n: Numerics, a: Fields, b: Fields, t: CppType)
    ensures Equals(n, a, b) == Equals(n, a.(tag := t), b)
  {
  }

  /** A typed value equals itself unless it is a NaN double. */
  lemma EqualsReflexive(n: Numerics, a: Fields)
    requires a.tag != CppNotype
    ensures Equals(n, a, a) <==> !(a.tag == CppDouble && a.dval == NaN)
  {
  }

  /** Three mixed-type comparisons that should hold: double 1.0 == long 1,
      long 1 == true and "TRUE" == true. As written all three are false, since
      b is compared with a's init() field of b's type. The corrected
      comparison makes all three true. Switching on a's tag instead gets the
      first two but not the third, because true renders as "true". */
  lemma EqualsSwitchesOnWrongOperand(n: Numerics)
    requires SmallIntegersExact(n)
    ensures !Equals(n, InitFields().(dval := Finite(1.0), tag := CppDouble), InitFields().(lval := 1, tag := CppLong))
    ensures !Equals(n, InitFields().(lval := 1, tag := CppLong), InitFields().(bval := true, tag := CppBool))
    ensures !Equals(n, InitFields().(sval := "TRUE", tag := CppString), InitFields().(bval := true, tag := CppBool))
    ensures EqualsIntended(n, InitFields().(dval := Finite(1.0), tag := CppDouble), InitFields().(lval := 1, tag := CppLong))
    ensures EqualsIntended(n, InitFields().(lval := 1, tag := CppLong), InitFields().(bval := true, tag := CppBool))
    ensures EqualsIntended(n, InitFields().(sval := "TRUE", tag := CppString), InitFields().(bval := true, tag := CppBool))
    ensures EqualsRightIntoLeft(n, InitFields().(dval := Finite(1.0), tag := CppDouble), InitFields().(lval := 1, tag := CppLong))
    ensures EqualsRightIntoLeft(n, InitFields().(lval := 1, tag := CppLong), InitFields().(bval := true, tag := CppBool))
    ensures !EqualsRightIntoLeft(n, InitFields().(sval := "TRUE", tag := CppString), InitFields().(bval := true, tag := CppBool))
  {
    BooleanLiterals("TRUE");
    assert "true" != "TRUE" by {
      assert "true"[0] != "TRUE"[0];
    }
  }

  /** The corrected comparison reads a in b's type and compares it with b's
      own stored value; a NaN on either side never compares equal. */
  lemma EqualsIntendedConvertsLeft(n: Numerics, a: Fields, b: Fields)
    ensures b.tag == CppString ==> (EqualsIntended(n, a, b) <==> AsString(n, a) == b.sval)
    ensures b.tag == CppDouble ==> (EqualsIntended(n, a, b) <==> DoubleEq(b.dval, AsDouble(n, a)))
    ensures b.tag == CppLong ==> (EqualsIntended(n, a, b) <==> AsLong(n, a) == b.lval)
    ensures b.tag == CppBool ==> (EqualsIntended(n, a, b) <==> AsBool(n, a) == b.bval)
    ensures b.tag == CppNotype ==> !EqualsIntended(n, a, b)
  {
  }

  /** Where a really holds a value of b's type, the corrected comparison is
      the source's: the fix only changes comparisons across types. */
  lemma EqualsIntendedAgreesOnSameTag(n: Numerics, a: Fields, b: Fields)
    requires a.tag == b.tag
    ensures EqualsIntended(n, a, b) <==> Equals(n, a, b)
  {
  }

  // ----- Vectors -----

  const VectorSizeError: string := "vector cast to DCCLMessageVal failed: vector is not size 1"

  /** What DCCLMessageVal(const std::vector<DCCLMessageVal>&) makes of a vector. */
  function Collapse(vm: seq<Fields>): (r: Result<Fields, string>)
    ensures r.Ok? <==> |vm| == 1
    ensures r.Ok? ==> r.value == vm[0]
    ensures r.Err? ==> r.error == VectorSizeError
  {
    if |vm| != 1 then Err(VectorSizeError) else Ok(vm[0])
  }

  class MessageVal {
    var sval: string
    var dval: Double
    var lval: int64
    var bval: bool
    var precision: int32
    var tag: CppType

    /** The snapshot the accessors read. */
    function Value(): Fields
      reads this
    {
      Fields(sval, dval, lval, bval, precision, tag)
    }

    /** init() */
    method Init()
      modifies this
      ensures Value() == InitFields()
    {
      sval := "";
      dval := Finite(0.0);
      lval := 0;
      bval := false;
      precision := MaxDblPrecision;
      tag := CppNotype;
    }

    /** DCCLMessageVal() */
    constructor ()
      ensures Value() == InitFields()
    {
      new;
      Init();
    }

    /** DCCLMessageVal(const std::string&) and DCCLMessageVal(const char*) */
    constructor FromString(s: string)
      ensures Value() == InitFields().(sval := s, tag := CppString)
    {
      new;
      Init();
      sval := s;
      tag := CppString;
    }

    /** DCCLMessageVal(double d, int p = MAX_DBL_PRECISION) */
    constructor FromDouble(d: Double, p: int32)
      ensures Value() == InitFields().(dval := d, precision := p, tag := CppDouble)
    {
      new;
      Init();
      dval := d;
      precision := p;
      tag := CppDouble;
    }

    /** DCCLMessageVal(float): the float widened to double; the precision
        stays MAX_DBL_PRECISION. */
    constructor FromFloat(f: Double)
      ensures Value() == InitFields().(dval := f, tag := CppDouble)
    {
      new;
      Init();
      dval := f;
      tag := CppDouble;
    }

    /** DCCLMessageVal(long) */
    constructor FromLong(l: int64)
      ensures Value() == InitFields().(lval := l, tag := CppLong)
    {
      new;
      Init();
      lval := l;
      tag := CppLong;
    }

    /** DCCLMessageVal(int): the int widened to long. */
    constructor FromInt(i: int32)
      ensures Value() == InitFields().(lval := i, tag := CppLong)
    {
      new;
      Init();
      lval := i;
      tag := CppLong;
    }

    /** DCCLMessageVal(bool) */
    constructor FromBool(b: bool)
      ensures Value() == InitFields().(bval := b, tag := CppBool)
    {
      new;
      Init();
      bval := b;
      tag := CppBool;
    }

    /** DCCLMessageVal(const std::vector<DCCLMessageVal>&): a copy of the one
        element, or the DCCLException the constructor throws. */
    static method FromVector(vm: seq<Fields>) returns (r: Result<MessageVal, string>)
      ensures r.Ok? <==> Collapse(vm).Ok?
      ensures r.Ok? ==> fresh(r.value) && r.value.Value() == Collapse(vm).value
      ensures r.Err? ==> r.error == Collapse(vm).error
    {
      if |vm| != 1 {
        return Err(VectorSizeError);
      }
      var m := new MessageVal();
      m.sval, m.dval, m.lval, m.bval, m.precision, m.tag :=
        vm[0].sval, vm[0].dval, vm[0].lval, vm[0].bval, vm[0].precision, vm[0].tag;
      r := Ok(m);
    }

    /** set(std::string) */
    method SetString(s: string)
      modifies this
      ensures Value() == old(Value()).(sval := s, tag := CppString)
    {
      sval := s;
      tag := CppString;
    }

    /** set(double, int precision = MAX_DBL_PRECISION) */
    method SetDouble(d: Double, p: int32)
      modifies this
      ensures Value() == old(Value()).(dval := d, precision := p, tag := CppDouble)
    {
      dval := d;
      tag := CppDouble;
      precision := p;
    }

    /** set(long) */
    method SetLong(l: int64)
      modifies this
      ensures Value() == old(Value()).(lval := l, tag := CppLong)
    {
      lval := l;
      tag := CppLong;
    }

    /** set(bool) */
    method SetBool(b: bool)
      modifies this
      ensures Value() == old(Value()).(bval := b, tag := CppBool)
    {
      bval := b;
      tag := CppBool;
    }

    /** operator std::vector<DCCLMessageVal>(): a vector holding one copy. */
    function AsVector(): (vm: seq<Fields>)
      reads this
      ensures Collapse(vm) == Ok(Value())
    {
      [Value()]
    }
  }
}
