/**
 * Java `int` arithmetic and the number conversions the template expander uses:
 * Integer.valueOf, Double.valueOf and Integer.toString.
 */
module JavaNumbers {
  import opened Faults

  const IntMin: int := -0x8000_0000
  const IntMax: int := 0x7fff_ffff

  predicate IsInt(x: int)
  {
    IntMin <= x <= IntMax
  }

  /** The value a Java `int` expression yields for the exact result `x` (two's-complement wrap-around). */
  function Wrap(x: int): (r: int)
    ensures IsInt(r)
    ensures IsInt(x) ==> r == x
    ensures x > IntMax && x <= 2 * IntMax + 1 ==> r == x - 0x1_0000_0000
  {
    (x - IntMin) % 0x1_0000_0000 + IntMin
  }

  predicate IsDigit(c: char)
  {
    '0' <= c <= '9'
  }

  predicate AllDigits(s: string)
  {
    forall i :: 0 <= i < |s| ==> IsDigit(s[i])
  }

  /** The value of a string of decimal digits. */
  function DigitsValue(s: string): nat
    requires AllDigits(s)
    decreases |s|
  {
    if s == [] then 0 else DigitsValue(s[..|s| - 1]) * 10 + (s[|s| - 1] as int - '0' as int)
  }

  function Pow10(n: nat): (r: nat)
    ensures r > 0
  {
    if n == 0 then 1 else 10 * Pow10(n - 1)
  }

  /**
   * Integer.valueOf on ASCII text: an optional sign and at least one digit whose
   * value fits an `int`; anything else raises NumberFormatException.
   */
  function ParseInt(s: string): (r: Result<int>)
    ensures r.Success? ==> IsInt(r.value)
    ensures r.Failure? ==> r.error == Runtime(NumberFormat)
  {
    var signed := |s| > 0 && (s[0] == '-' || s[0] == '+');
    var digits := if signed then s[1..] else s;
    if digits == [] || !AllDigits(digits) then Failure(Runtime(NumberFormat))
    else
      var v: int := if signed && s[0] == '-' then 0 - DigitsValue(digits) as int else DigitsValue(digits);
      if IsInt(v) then Success(v) else Failure(Runtime(NumberFormat))
  }

  /** The text shape `-?\d*\.?\d*` that the decimal template arguments are captured with. */
  predicate IsDecimalText(s: string)
  {
    var a := if |s| > 0 && s[0] == '-' then 1 else 0;
    var dot := DigitRunEnd(s, a);
    AllDigits(s[a..dot]) && (dot == |s| || (s[dot] == '.' && AllDigits(s[dot + 1..])))
  }

  /** The index of the first character at or after `from` that is not a digit. */
  function DigitRunEnd(s: string, from: nat): (r: nat)
    requires from <= |s|
    ensures from <= r <= |s| && AllDigits(s[from..r]) && (r < |s| ==> !IsDigit(s[r]))
    decreases |s| - from
  {
    if from == |s| || !IsDigit(s[from]) then from
    else
      var r := DigitRunEnd(s, from + 1);
      assert s[from..r] == [s[from]] + s[from + 1..r];
      r
  }

  /** The end of a digit run is the first non-digit after it, so any such position is that end. */
  lemma {:induction false} DigitRunEndUnique(s: string, from: nat, r: nat)
    requires from <= r <= |s| && AllDigits(s[from..r]) && (r < |s| ==> !IsDigit(s[r]))
    ensures DigitRunEnd(s, from) == r
    decreases r - from
  {
    if from < r {
      assert s[from..r][0] == s[from];
      assert s[from + 1..r] == s[from..r][1..];
      DigitRunEndUnique(s, from + 1, r);
    }
  }

  /**
   * The end of the longest run from `j` of the shape `-?\d*\.?\d*`; the run
   * is never followed by a character that would extend it.
   */
  function DecimalRunEnd(s: string, j: nat): (e: nat)
    requires j <= |s|
    ensures j <= e <= |s| && IsDecimalText(s[j..e])
  {
    var a := if j < |s| && s[j] == '-' then j + 1 else j;
    var d := DigitRunEnd(s, a);
    var e := if d < |s| && s[d] == '.' then DigitRunEnd(s, d + 1) else d;
    DecimalRunShape(s, j, a, d, e);
    e
  }

  lemma DecimalRunShape(s: string, j: nat, a: nat, d: nat, e: nat)
    requires j <= |s| && a == (if j < |s| && s[j] == '-' then j + 1 else j)
    requires a <= |s| && d == DigitRunEnd(s, a)
    requires e == (if d < |s| && s[d] == '.' then DigitRunEnd(s, d + 1) else d)
    ensures j <= e <= |s| && IsDecimalText(s[j..e])
  {
    assert a <= d <= e;
    var t := s[j..e];
    var ta := if |t| > 0 && t[0] == '-' then 1 else 0;
    assert ta == a - j;
    assert t[ta..d - j] == s[a..d];
    assert AllDigits(t[ta..d - j]);
    if d - j < |t| {
      assert t[d - j] == s[d];
    }
    DigitRunEndUnique(t, ta, d - j);
    if d < e {
      assert t[d - j + 1..] == s[d + 1..e];
    }
  }

  /**
   * Double.valueOf on a text of the captured shape: it needs at least one digit
   * (so "", "-", "." and "-." raise NumberFormatException); the value is the
   * exact decimal the text denotes.
   */
  function ParseDecimal(s: string): (r: Result<real>)
    requires IsDecimalText(s)
    ensures r.Failure? <==> forall i :: 0 <= i < |s| ==> !IsDigit(s[i])
    ensures r.Failure? ==> r.error == Runtime(NumberFormat)
  {
    var a := if |s| > 0 && s[0] == '-' then 1 else 0;
    var dot := DigitRunEnd(s, a);
    var whole := s[a..dot];
    var fraction := if dot == |s| then "" else s[dot + 1..];
    if whole == [] && fraction == [] then
      assert forall i :: 0 <= i < |s| ==> !IsDigit(s[i]) by {
        assert a == 0 ==> s == s[..dot] + s[dot..];
      }
      Failure(Runtime(NumberFormat))
    else
      assert IsDigit(if whole != [] then whole[0] else fraction[0]);
      var magnitude := DigitsValue(whole) as real + DigitsValue(fraction) as real / Pow10(|fraction|) as real;
      Success(if a == 1 then -magnitude else magnitude)
  }

  function DigitChar(d: nat): (c: char)
    requires d < 10
    ensures IsDigit(c)
  {
    ('0' as int + d) as char
  }

  function NatToString(n: nat): (s: string)
    ensures |s| > 0 && AllDigits(s)
    decreases n
  {
    if n < 10 then [DigitChar(n)] else NatToString(n / 10) + [DigitChar(n % 10)]
  }

  /** Integer.toString: a minus sign for negative values, then the decimal digits. */
  function IntToString(n: int): (s: string)
    ensures |s| > 0
  {
    if n < 0 then "-" + NatToString(-n) else NatToString(n)
  }

  lemma {:induction false} NatToStringValue(n: nat)
    ensures DigitsValue(NatToString(n)) == n
    decreases n
  {
    if n >= 10 {
      var s := NatToString(n);
      assert s[..|s| - 1] == NatToString(n / 10);
      NatToStringValue(n / 10);
    }
  }

  /** Integer.valueOf reads back what Integer.toString wrote. */
  lemma IntToStringRoundTrip(n: int)
    requires IsInt(n)
    ensures ParseInt(IntToString(n)) == Success(n)
  {
    var s := IntToString(n);
    if n < 0 {
      var d := NatToString(-n);
      assert s[0] == '-' && s[1..] == d;
      NatToStringValue(-n);
    } else {
      assert IsDigit(s[0]);
      NatToStringValue(n);
    }
  }
}
