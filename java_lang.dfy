/**
 * The few pieces of the Java runtime the element table and the bibliography
 * formatter depend on: 32-bit integers, Integer.parseInt and Integer.toString,
 * the "null" that string concatenation prints for a null reference, boxed
 * doubles as opaque 64-bit values, and a StringBuffer.
 */
module JavaLang {
  import opened Wrappers

  const INT_MIN: int := -0x8000_0000
  const INT_MAX: int := 0x7fff_ffff

  /** java.lang.Integer's value range. */
  newtype Int32 = n: int | -0x8000_0000 <= n < 0x8000_0000

  /** A java.lang.Double: its IEEE 754 bit pattern, never computed with here. */
  datatype Double = Double(bits: bv64)

  /** The exceptions the modelled code can raise. */
  datatype JavaException =
    | NullPointerException
    | NumberFormatException
    | CDKException(message: string)

  // ---------------------------------------------------------------------------
  // Decimal digits

  predicate IsDigit(c: char) {
    '0' <= c <= '9'
  }

  predicate AllDigits(s: string) {
    forall i | 0 <= i < |s| :: IsDigit(s[i])
  }

  function DigitValue(c: char): nat
    requires IsDigit(c)
  {
    (c as int) - ('0' as int)
  }

  function DigitChar(d: nat): (c: char)
    requires d < 10
    ensures IsDigit(c) && DigitValue(c) == d
  {
    ('0' as int + d) as char
  }

  /** The value of a string of decimal digits, most significant first. */
  function DigitsValue(s: string): nat
    requires AllDigits(s)
  {
    if s == [] then 0 else 10 * DigitsValue(s[..|s| - 1]) + DigitValue(s[|s| - 1])
  }

  /** The decimal digits of n without leading zeros ("0" for zero). */
  function NatDigits(n: nat): (s: string)
    ensures |s| >= 1 && AllDigits(s)
  {
    if n < 10 then [DigitChar(n)] else NatDigits(n / 10) + [DigitChar(n % 10)]
  }

  lemma {:induction false} NatDigitsValue(n: nat)
    ensures DigitsValue(NatDigits(n)) == n
  {
    if n >= 10 {
      var s := NatDigits(n);
      assert s[..|s| - 1] == NatDigits(n / 10);
      NatDigitsValue(n / 10);
    }
  }

  // ---------------------------------------------------------------------------
  // Integer.parseInt and Integer.toString

  /**
   * Integer.parseInt(s) in radix 10: an optional '-' or '+' and at least one
   * digit, nothing else (no blanks), and a value in the Int32 range; anything
   * else is a NumberFormatException, modelled as None.
   */
  function ParseInt(s: string): (r: Option<Int32>)
    ensures r.Some? ==> |s| >= 1
    ensures s == [] || s == "-" || s == "+" ==> r == None
    ensures (exists i | 0 <= i < |s| :: s[i] == ' ') ==> r == None
  {
    if s == [] then None
    else
      var signed := s[0] == '-' || s[0] == '+';
      var digits := if signed then s[1..] else s;
      if digits == [] || !AllDigits(digits) then None
      else
        var n: int := DigitsValue(digits);
        var v := if s[0] == '-' then -n else n;
        if INT_MIN <= v <= INT_MAX then Some(v as Int32) else None
  }

  /** Integer.toString(n): a '-' for negative values, then the digits of |n|. */
  function IntToString(n: Int32): (s: string)
    ensures |s| >= 1
    ensures n < 0 <==> s[0] == '-'
  {
    if n < 0 then "-" + NatDigits(-(n as int)) else NatDigits(n as int)
  }

  /** Integer.parseInt reads back what Integer.toString printed. */
  lemma IntRoundTrip(n: Int32)
    ensures ParseInt(IntToString(n)) == Some(n)
  {
    if n < 0 {
      var digits := NatDigits(-(n as int));
      assert IntToString(n)[1..] == digits;
      NatDigitsValue(-(n as int));
    } else {
      NatDigitsValue(n as int);
    }
  }

  /**
   * Blanks are not trimmed: any text with a leading or trailing blank is a
   * NumberFormatException, while bare and signed digits parse.
   */
  lemma ParseIntUntrimmed(s: string)
    ensures ParseInt(" " + s) == None && ParseInt(s + " ") == None
    ensures ParseInt("7") == Some(7 as Int32)
    ensures ParseInt("-7") == Some(-7 as Int32) && ParseInt("+7") == Some(7 as Int32)
  {
    assert (" " + s)[0] == ' ';
    assert (s + " ")[|s|] == ' ';
    assert "-7"[1..] == "7" && "+7"[1..] == "7";
    assert DigitsValue("7") == 7 by {
      assert "7"[..0] == [];
    }
  }

  // ---------------------------------------------------------------------------
  // String conversion of possibly-null references

  /** A String reference as string concatenation prints it. */
  function JStr(s: Option<string>): (r: string)
    ensures s.Some? ==> r == s.value
    ensures s.None? ==> r == "null"
  {
    match s
    case Some(v) => v
    case None => "null"
  }

  /** An Integer reference as string concatenation prints it. */
  function JInt(n: Option<Int32>): (r: string)
    ensures n.None? ==> r == "null"
    ensures n.Some? ==> r == IntToString(n.value)
  {
    match n
    case Some(v) => IntToString(v)
    case None => "null"
  }

  /** A Double reference as string concatenation prints it; `format` is Double.toString. */
  function JDouble(format: Double -> string, d: Option<Double>): (r: string)
    ensures d.None? ==> r == "null"
    ensures d.Some? ==> r == format(d.value)
  {
    match d
    case Some(v) => format(v)
    case None => "null"
  }

  /** java.lang.StringBuffer, as far as appending goes. */
  class StringBuffer {
    var text: string

    constructor ()
      ensures text == ""
    {
      text := "";
    }

    /** append(s): s goes at the end and nothing else changes. */
    method Append(s: string)
      modifies this
      ensures text == old(text) + s
    {
      text := text + s;
    }

    method ToString() returns (s: string)
      ensures s == text
    {
      s := text;
    }
  }
}
