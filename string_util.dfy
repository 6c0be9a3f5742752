/** The string helpers DCCLMessageVal relies on: boost::iequals in the
    classic "C" locale and the decimal rendering of goby::util::as<std::string>. */
module StringUtil {

  /** std::toupper in the "C" locale: only 'a'..'z' change. */
  function ToUpper(c: char): char {
    if 'a' <= c <= 'z' then (c as int - 32) as char else c
  }

  /** boost::iequals(s, t): same length, equal after upper-casing each character. */
  predicate IEquals(s: string, t: string) {
    |s| == |t| && forall i :: 0 <= i < |s| ==> ToUpper(s[i]) == ToUpper(t[i])
  }

  /** The whole string upper-cased, an independent reference for IEquals. */
  function Upper(s: string): (r: string)
    ensures |r| == |s|
    ensures forall i :: 0 <= i < |s| ==> r[i] == ToUpper(s[i])
  {
    if s == [] then [] else [ToUpper(s[0])] + Upper(s[1..])
  }

  /** iequals is equality of the upper-cased strings. */
  lemma IEqualsIsUpperEquality(s: string, t: string)
    ensures IEquals(s, t) <==> Upper(s) == Upper(t)
  {
    if Upper(s) == Upper(t) {
      assert |s| == |t|;
      forall i | 0 <= i < |s| ensures ToUpper(s[i]) == ToUpper(t[i]) {
        assert Upper(s)[i] == Upper(t)[i];
      }
    }
  }

  /** The literals "true", "false", "1" and "0" are matched by disjoint sets
      of strings; "1" and "0" only by themselves; "TRUE" matches "true". */
  lemma BooleanLiterals(s: string)
    ensures !(IEquals(s, "true") && IEquals(s, "false"))
    ensures IEquals(s, "1") <==> s == "1"
    ensures IEquals(s, "0") <==> s == "0"
    ensures !(IEquals(s, "true") && IEquals(s, "1")) && !(IEquals(s, "false") && IEquals(s, "0"))
    ensures IEquals("TRUE", "true") && IEquals("False", "false")
  {
    if IEquals(s, "1") {
      assert ToUpper(s[0]) == '1';
      assert s == [s[0]];
    }
    if IEquals(s, "0") {
      assert ToUpper(s[0]) == '0';
      assert s == [s[0]];
    }
  }

  function DigitChar(d: nat): (c: char)
    requires d < 10
    ensures '0' <= c <= '9'
  {
    "0123456789"[d]
  }

  /** The decimal digits of n, most significant first, without leading zeros. */
  function NatToDecimal(n: nat): (r: string)
    ensures |r| >= 1
    ensures forall i :: 0 <= i < |r| ==> '0' <= r[i] <= '9'
    ensures |r| > 1 ==> r[0] != '0'
    ensures n < 10 <==> |r| == 1
  {
    if n < 10 then [DigitChar(n)] else NatToDecimal(n / 10) + [DigitChar(n % 10)]
  }

  /** as<std::string>(long), which writes the value with operator<<: a '-' before
      the digits of a negative value. */
  function IntToDecimal(x: int): (r: string)
    ensures |r| >= 1
    ensures r[0] == '-' <==> x < 0
    ensures forall i :: (if x < 0 then 1 else 0) <= i < |r| ==> '0' <= r[i] <= '9'
  {
    if x < 0 then "-" + NatToDecimal(-x) else NatToDecimal(x)
  }

  /** The value the digits spell, the partner of NatToDecimal. */
  function DecimalValue(s: string): nat
    requires forall i :: 0 <= i < |s| ==> '0' <= s[i] <= '9'
  {
    if s == [] then 0 else 10 * DecimalValue(s[..|s| - 1]) + (s[|s| - 1] as int - '0' as int)
  }

  /** The rendering of a natural number reads back as that number. */
  lemma {:induction false} DecimalRoundTrip(n: nat)
    ensures DecimalValue(NatToDecimal(n)) == n
  {
    if n >= 10 {
      var r := NatToDecimal(n);
      assert r[..|r| - 1] == NatToDecimal(n / 10);
      DecimalRoundTrip(n / 10);
      assert "0123456789"[n % 10] as int - '0' as int == n % 10;
    } else {
      assert "0123456789"[n] as int - '0' as int == n;
    }
  }
}
