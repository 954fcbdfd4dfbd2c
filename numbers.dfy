/** Decimal integer text as Rust's `str::parse::<i32>` reads it, and the
    `Display` rendering of an `i32` that it inverts. */
module Numbers {
  import opened Wrappers
  import opened Scalar

  predicate IsDigit(c: char) { '0' <= c <= '9' }

  predicate AllDigits(s: string) { forall i :: 0 <= i < |s| ==> IsDigit(s[i]) }

  /** Value of a digit string read most-significant first. */
  function DigitsValue(s: string): nat
    requires AllDigits(s)
  {
    if |s| == 0 then 0
    else DigitsValue(s[..|s| - 1]) * 10 + (s[|s| - 1] as int - '0' as int)
  }

  predicate IsSign(c: char) { c == '+' || c == '-' }

  /** Integer text: an optional `+` or `-`, then at least one ASCII digit and nothing else. */
  predicate IsIntegerText(s: string)
  {
    && |s| > 0
    && (IsSign(s[0]) ==> |s| > 1)
    && forall i :: 0 <= i < |s| ==> IsDigit(s[i]) || (i == 0 && IsSign(s[i]))
  }

  /** The value integer text denotes, with no range limit. */
  function SignedValue(s: string): int
    requires IsIntegerText(s)
  {
    if s[0] == '-' then 0 - DigitsValue(s[1..])
    else if s[0] == '+' then DigitsValue(s[1..])
    else DigitsValue(s)
  }

  /** `parse::<i32>`: integer text whose value lies inside the `i32` range.
      Anything else (empty text, a lone sign, a decimal point, an exponent,
      overflow) fails. */
  function ParseI32(s: string): (r: Option<I32>)
    ensures r.Some? <==> IsIntegerText(s) && -0x8000_0000 <= SignedValue(s) < 0x8000_0000
    ensures r.Some? ==> r.value == SignedValue(s)
    ensures r.Some? && AllDigits(s) ==> r.value == DigitsValue(s)
  {
    if |s| == 0 then None
    else
      var digits := if s[0] == '-' || s[0] == '+' then s[1..] else s;
      if |digits| == 0 || !AllDigits(digits) then None
      else
        var v: int := if s[0] == '-' then 0 - DigitsValue(digits) else DigitsValue(digits);
        if -0x8000_0000 <= v < 0x8000_0000 then Some(v) else None
  }

  /** A `+` sign, leading zeros and a negative zero are all accepted; a lone
      sign is not. */
  lemma ParseI32Signs()
    ensures ParseI32("+7") == Some(7)
    ensures ParseI32("007") == Some(7)
    ensures ParseI32("-0") == Some(0)
    ensures ParseI32("-") == None && ParseI32("+") == None
  {
    assert DigitsValue("0") == 0 && DigitsValue("00") == 0 && DigitsValue("007") == 7;
  }

  /** The digits of the two values just outside the positive end of the `i32` range. */
  lemma RangeEndDigits()
    ensures DigitsValue("2147483648") == 0x8000_0000
    ensures DigitsValue("2147483649") == 0x8000_0001
  {
    assert DigitsValue("2") == 2;
    assert "21"[..1] == "2";
    assert DigitsValue("21") == 21;
    assert "214"[..2] == "21";
    assert DigitsValue("214") == 214;
    assert "2147"[..3] == "214";
    assert DigitsValue("2147") == 2147;
    assert "21474"[..4] == "2147";
    assert DigitsValue("21474") == 21474;
    assert "214748"[..5] == "21474";
    assert DigitsValue("214748") == 214748;
    assert "2147483"[..6] == "214748";
    assert DigitsValue("2147483") == 2147483;
    assert "21474836"[..7] == "2147483";
    assert DigitsValue("21474836") == 21474836;
    assert "214748364"[..8] == "21474836";
    assert DigitsValue("214748364") == 214748364;
    assert "2147483648"[..9] == "214748364";
    assert DigitsValue("2147483648") == 2147483648;
    assert "2147483649"[..9] == "214748364";
    assert DigitsValue("2147483649") == 2147483649;
  }

  /** The least `i32` is accepted; one past either end of the range is not. */
  lemma ParseI32RangeEnds()
    ensures ParseI32("-2147483648") == Some(-0x8000_0000)
    ensures ParseI32("2147483648") == None && ParseI32("-2147483649") == None
  {
    RangeEndDigits();
    assert "-2147483648"[1..] == "2147483648";
    assert "-2147483649"[1..] == "2147483649";
  }

  function DigitChar(d: nat): (c: char)
    requires d < 10
    ensures IsDigit(c) && c as int - '0' as int == d
  {
    ('0' as int + d) as char
  }

  /** Decimal rendering of a natural number, without leading zeros. */
  function FormatNat(n: nat): (s: string)
    ensures |s| > 0 && AllDigits(s)
    ensures s[0] == '0' ==> n == 0
  {
    if n < 10 then [DigitChar(n)] else FormatNat(n / 10) + [DigitChar(n % 10)]
  }

  /** `i32`'s `Display`: a leading `-` for negative values. */
  function FormatI32(x: I32): string
  {
    if x < 0 then "-" + FormatNat(-(x as int)) else FormatNat(x)
  }

  lemma {:induction false} DigitsValueOfFormat(n: nat)
    ensures DigitsValue(FormatNat(n)) == n
  {
    var s := FormatNat(n);
    if n >= 10 {
      DigitsValueOfFormat(n / 10);
      assert s[..|s| - 1] == FormatNat(n / 10);
    }
  }

  /** Parsing the rendering of any `i32` gives it back. */
  lemma ParseFormatRoundTrip(x: I32)
    ensures ParseI32(FormatI32(x)) == Some(x)
  {
    var s := FormatI32(x);
    var n: nat := if x < 0 then -(x as int) else x as int;
    var t := FormatNat(n);
    DigitsValueOfFormat(n);
    if x < 0 {
      assert s == "-" + t;
      assert s[0] == '-' && s[1..] == t;
    } else {
      assert s == t && IsDigit(s[0]);
    }
  }
}
