/** Decimal integers as text: `str(n)` and `int(token)` of the host language. */
module Numerals {
  import opened Results
  import opened Text

  predicate AllDigits(s: string) {
    forall i :: 0 <= i < |s| ==> IsDigit(s[i])
  }

  function DigitChar(d: nat): (c: char)
    requires d < 10
    ensures IsDigit(c)
  {
    ('0' as int + d) as char
  }

  function DigitValue(c: char): (d: nat)
    requires IsDigit(c)
    ensures d < 10 && DigitChar(d) == c
  {
    c as int - '0' as int
  }

  /** The decimal digits of `n`, most significant first, without leading zeros. */
  function NatToString(n: nat): (r: string)
    ensures |r| >= 1 && AllDigits(r)
    ensures n >= 10 ==> r[0] != '0'
    decreases n
  {
    if n < 10 then [DigitChar(n)] else NatToString(n / 10) + [DigitChar(n % 10)]
  }

  /** `str(n)` for an integer. */
  function IntToString(n: int): (r: string)
    ensures |r| >= 1 && IsWord(r)
    ensures ',' !in r && '{' !in r && '*' !in r
  {
    if n < 0 then "-" + NatToString(-n) else NatToString(n)
  }

  /** The value of a non-empty run of decimal digits. */
  function DigitsValue(ds: string): nat
    requires AllDigits(ds)
    decreases |ds|
  {
    if |ds| == 0 then 0 else DigitsValue(ds[..|ds| - 1]) * 10 + DigitValue(ds[|ds| - 1])
  }

  /** `int(token)` of the 2.x runtime: surrounding whitespace is ignored, then an
      optional sign, then (after the sign) whitespace again, then at least one decimal
      digit must make up the whole token; anything else raises ValueError. */
  function ParseInt(s: string): (r: Result<int>)
    ensures r.Ok? ==> |Strip(s)| >= 1
    ensures r.Err? ==> r == Err(ValueError)
  {
    var t := Strip(s);
    if |t| >= 1 && (t[0] == '-' || t[0] == '+') then
      var ds := TrimLeft(t[1..]);
      if |ds| >= 1 && AllDigits(ds) then
        Ok(if t[0] == '-' then -(DigitsValue(ds) as int) else DigitsValue(ds))
      else
        Err(ValueError)
    else if |t| >= 1 && AllDigits(t) then
      Ok(DigitsValue(t))
    else
      Err(ValueError)
  }

  lemma {:induction false} DigitsOfNat(n: nat)
    ensures DigitsValue(NatToString(n)) == n
    decreases n
  {
    if n >= 10 {
      var r := NatToString(n);
      assert r[..|r| - 1] == NatToString(n / 10);
      DigitsOfNat(n / 10);
    }
  }

  /** `int(str(n)) == n`: the text the source writes for an index reads back as it. */
  lemma ParseIntToString(n: int)
    ensures ParseInt(IntToString(n)) == Ok(n)
  {
    var s := IntToString(n);
    StripWord(s);
    assert Strip(s) == s;
    if n < 0 {
      var d := NatToString(-n);
      assert s == "-" + d;
      assert s[1..] == d;
      assert TrimLeft(d) == d;
      DigitsOfNat(-n);
      assert |s| >= 2 && s[0] == '-' && AllDigits(s[1..]);
    } else {
      DigitsOfNat(n);
      assert s[0] != '-' && s[0] != '+';
    }
  }

  /** Blanks between the sign and the digits are skipped: `int('- 1') == -1`. */
  lemma {:induction false} ParseSignGap(sign: char, gap: string, ds: string)
    requires sign == '-' || sign == '+'
    requires Blank(gap) && |ds| >= 1 && AllDigits(ds)
    ensures ParseInt([sign] + gap + ds)
      == Ok(if sign == '-' then -(DigitsValue(ds) as int) else DigitsValue(ds))
  {
    var s := [sign] + gap + ds;
    assert s[0] == sign && s[|s| - 1] == ds[|ds| - 1];
    StripWord(s);
    assert s[1..] == gap + ds;
    TrimLeftAfterBlank(gap, ds);
  }

  /** The amount `- 1` of a radical action reads as minus one. */
  lemma SignBlankDigit()
    ensures ParseInt("- 1") == Ok(-1)
  {
    ParseSignGap('-', " ", "1");
    assert ['-'] + " " + "1" == "- 1";
    assert DigitsValue("1") == DigitsValue("1"[..0]) * 10 + DigitValue('1');
  }

  /** Distinct integers are written differently, so comparing `str(a) == str(b)`
      compares `a` with `b`. */
  lemma IntToStringInjective(a: int, b: int)
    ensures IntToString(a) == IntToString(b) <==> a == b
  {
    if IntToString(a) == IntToString(b) {
      ParseIntToString(a);
      ParseIntToString(b);
    }
  }

  /** A single digit character parses to its value. */
  lemma ParseDigit(c: char)
    requires IsDigit(c)
    ensures ParseInt([c]) == Ok(DigitValue(c) as int)
  {
    StripWord([c]);
    assert Strip([c]) == [c];
    assert AllDigits([c]);
    assert [c][..0] == [];
    assert DigitsValue([c]) == DigitsValue([]) * 10 + DigitValue(c);
  }

  /** A larger number never has fewer digits. */
  lemma {:induction false} NatToStringMonotone(a: nat, b: nat)
    requires a <= b
    ensures |NatToString(a)| <= |NatToString(b)|
    decreases b
  {
    if a >= 10 {
      NatToStringMonotone(a / 10, b / 10);
    }
  }

  /** A value from 0 to 9 is written as one digit. */
  lemma SmallToString(v: int)
    requires 0 <= v < 10
    ensures IntToString(v) == [DigitChar(v)]
  {
  }
}
