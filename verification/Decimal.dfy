/** Decimal integers as Rust's `parse` and `to_string` treat them, and the lossless conversion
    built from the two (crates/ambiguity-policy/src/lib.rs). */
module Decimal {
  import opened Common

  predicate IsDigit(c: char) { '0' <= c <= '9' }

  predicate AllDigits(s: string) { s != "" && forall i :: 0 <= i < |s| ==> IsDigit(s[i]) }

  function DigitsValue(s: string): nat
    requires forall i :: 0 <= i < |s| ==> IsDigit(s[i])
  {
    if s == "" then 0
    else
      assert IsDigit(s[|s| - 1]);
      DigitsValue(s[..|s| - 1]) * 10 + (s[|s| - 1] as int - '0' as int)
  }

  /** `str::parse` for an unsigned type: an optional plus sign, then digits within range. */
  function ParseUnsigned(s: string, maximum: nat): Option<nat>
  {
    var body := if |s| > 1 && s[0] == '+' then s[1..] else s;
    if AllDigits(body) && DigitsValue(body) <= maximum then Some(DigitsValue(body)) else None
  }

  /** `str::parse::<i64>`: an optional sign, then digits within range. */
  function ParseI64(s: string): Option<I64>
  {
    if |s| > 1 && s[0] == '-' then
      if AllDigits(s[1..]) && DigitsValue(s[1..]) <= 0x8000_0000_0000_0000 then Some(0 - DigitsValue(s[1..])) else None
    else
      match ParseUnsigned(s, 0x7FFF_FFFF_FFFF_FFFF)
      case None => None
      case Some(n) => Some(n)
  }

  function DigitChar(n: nat): (c: char)
    requires n < 10
    ensures IsDigit(c) && c as int - '0' as int == n
  {
    ('0' as int + n) as char
  }

  function FormatNat(n: nat): (s: string)
    ensures AllDigits(s)
  {
    if n < 10 then [DigitChar(n)] else FormatNat(n / 10) + [DigitChar(n % 10)]
  }

  /** `i64::to_string`. */
  function FormatInteger(n: I64): string
  {
    if n < 0 then "-" + FormatNat(0 - n) else FormatNat(n)
  }

  lemma {:induction false} ValueOfFormat(n: nat)
    ensures DigitsValue(FormatNat(n)) == n
  {
    var s := FormatNat(n);
    if n < 10 {
      assert s[..|s| - 1] == "";
    } else {
      ValueOfFormat(n / 10);
      assert s[..|s| - 1] == FormatNat(n / 10);
    }
  }

  lemma ParseOfFormat(n: I64)
    ensures ParseI64(FormatInteger(n)) == Some(n)
  {
    var s := FormatInteger(n);
    if n < 0 {
      ValueOfFormat(0 - n);
      assert s[1..] == FormatNat(0 - n);
    } else {
      ValueOfFormat(n);
    }
  }

  /** `parse_integer_losslessly`: accepted only when formatting restores the text. */
  function ParseIntegerLosslessly(s: string): Option<I64>
  {
    match ParseI64(s)
    case None => None
    case Some(n) => if FormatInteger(n) == s then Some(n) else None
  }

  /** Lossless parsing and formatting are inverse to each other. */
  lemma LosslessIsInverse(s: string, n: I64)
    ensures ParseIntegerLosslessly(s) == Some(n) <==> s == FormatInteger(n)
  {
    ParseOfFormat(n);
  }

  /** Digits without a leading zero, after an optional minus sign that is not followed by zero. */
  predicate CanonicalDecimal(s: string)
  {
    var body := if s != "" && s[0] == '-' then s[1..] else s;
    AllDigits(body) && (body[0] == '0' ==> s == "0")
  }

  lemma {:induction false} FormatOfValue(s: string)
    requires AllDigits(s) && (s[0] == '0' ==> |s| == 1)
    ensures FormatNat(DigitsValue(s)) == s
    ensures s[0] != '0' ==> DigitsValue(s) > 0
  {
    var k := |s| - 1;
    assert IsDigit(s[k]);
    assert s == s[..k] + [s[k]];
    if k > 0 {
      FormatOfValue(s[..k]);
      assert DigitsValue(s) / 10 == DigitsValue(s[..k]);
      assert DigitsValue(s) % 10 == s[k] as int - '0' as int;
      assert DigitChar(DigitsValue(s) % 10) == s[k];
    } else {
      assert s[..k] == "";
      assert IsDigit(s[0]);
      assert DigitsValue(s) == s[0] as int - '0' as int;
    }
  }

  lemma {:induction false} FormatHasNoLeadingZero(n: nat)
    ensures FormatNat(n)[0] == '0' ==> n == 0
    ensures n == 0 ==> FormatNat(n) == "0"
  {
    if n >= 10 {
      FormatHasNoLeadingZero(n / 10);
    }
  }

  lemma CanonicalIsAccepted(s: string)
    requires CanonicalDecimal(s) && ParseI64(s).Some?
    ensures ParseIntegerLosslessly(s).Some?
  {
    if s[0] == '-' {
      FormatOfValue(s[1..]);
      assert s == "-" + s[1..];
    } else {
      FormatOfValue(s);
    }
  }

  lemma FormatIsCanonical(n: I64)
    ensures CanonicalDecimal(FormatInteger(n))
  {
    if n < 0 {
      FormatHasNoLeadingZero(0 - n);
      assert FormatInteger(n)[1..] == FormatNat(0 - n);
    } else {
      FormatHasNoLeadingZero(n);
    }
  }

  /** The accepted strings, described by their form: canonical decimals in the `Int64` range. */
  lemma LosslessAcceptsCanonical(s: string)
    ensures ParseIntegerLosslessly(s).Some? <==> CanonicalDecimal(s) && ParseI64(s).Some?
  {
    if CanonicalDecimal(s) && ParseI64(s).Some? {
      CanonicalIsAccepted(s);
    }
    if n :| ParseIntegerLosslessly(s) == Some(n) {
      LosslessIsInverse(s, n);
      FormatIsCanonical(n);
    }
  }

  // ---------------------------------------------------------------------------
  // What parsing accepts beside canonical decimals
  // ---------------------------------------------------------------------------

  /** The digits are so many zeroes and then `n` in canonical form, or nothing if `n` is zero. */
  predicate Spelled(digits: string, zeroes: nat, n: nat)
  {
    && zeroes <= |digits| && (forall i :: 0 <= i < zeroes ==> digits[i] == '0')
    && (if zeroes == |digits| then n == 0 else n > 0 && digits[zeroes..] == FormatNat(n))
  }

  /** `s` is a sign, possibly empty, and digits worth `n`; leading zeroes do not count. */
  ghost predicate Signed(s: string, sign: string, n: nat)
  {
    sign <= s && AllDigits(s[|sign|..]) && exists zeroes: nat :: Spelled(s[|sign|..], zeroes, n)
  }

  lemma {:induction false} DropZero(s: string)
    requires |s| > 1 && AllDigits(s) && s[0] == '0'
    ensures AllDigits(s[1..]) && DigitsValue(s) == DigitsValue(s[1..])
    decreases |s|
  {
    var k := |s| - 1;
    assert s[1..][..k - 1] == s[..k][1..];
    if k > 1 {
      DropZero(s[..k]);
    } else {
      assert s[..k] == ['0'] && s[..k][..0] == "" && s[1..][..0] == "";
    }
  }

  lemma {:induction false} LeadingZeroes(digits: string) returns (zeroes: nat)
    requires AllDigits(digits)
    ensures Spelled(digits, zeroes, DigitsValue(digits))
    decreases |digits|
  {
    if digits[0] != '0' {
      zeroes := 0;
      FormatOfValue(digits);
      assert digits[0..] == digits;
    } else if |digits| == 1 {
      zeroes := 1;
      assert digits[..0] == "";
    } else {
      DropZero(digits);
      zeroes := LeadingZeroes(digits[1..]);
      OneMoreZero(digits, zeroes, DigitsValue(digits));
      zeroes := zeroes + 1;
    }
  }

  lemma OneMoreZero(digits: string, zeroes: nat, n: nat)
    requires digits != "" && digits[0] == '0'
    ensures Spelled(digits[1..], zeroes, n) <==> Spelled(digits, zeroes + 1, n)
  {
    var rest := digits[1..];
    if zeroes <= |rest| {
      assert digits[zeroes + 1..] == rest[zeroes..];
      assert forall i :: 0 <= i < |rest| ==> rest[i] == digits[i + 1];
      assert forall i :: 0 < i < |digits| ==> digits[i] == rest[i - 1];
    }
  }

  lemma {:induction false} ZeroesAndDigits(digits: string, zeroes: nat, n: nat)
    requires AllDigits(digits) && Spelled(digits, zeroes, n)
    ensures DigitsValue(digits) == n
    decreases |digits|
  {
    if zeroes == 0 {
      assert digits[0..] == digits;
      ValueOfFormat(n);
    } else if |digits| == 1 {
      assert digits[..0] == "";
    } else {
      DropZero(digits);
      OneMoreZero(digits, zeroes - 1, n);
      ZeroesAndDigits(digits[1..], zeroes - 1, n);
    }
  }

  /** The value of a digit string is the number it spells once leading zeroes are dropped. */
  lemma SignedExact(s: string, sign: string, n: nat)
    requires sign <= s
    ensures Signed(s, sign, n) <==> AllDigits(s[|sign|..]) && DigitsValue(s[|sign|..]) == n
  {
    var digits := s[|sign|..];
    if AllDigits(digits) {
      var first := LeadingZeroes(digits);
      if zeroes: nat :| Spelled(digits, zeroes, n) {
        ZeroesAndDigits(digits, zeroes, n);
      }
    }
  }

  lemma UnsignedExact(s: string, maximum: nat, n: nat)
    ensures ParseUnsigned(s, maximum) == Some(n) <==> n <= maximum && (Signed(s, "", n) || Signed(s, "+", n))
  {
    SignedExact(s, "", n);
    assert s[0..] == s;
    if "+" <= s {
      SignedExact(s, "+", n);
      assert !IsDigit(s[0]);
    }
  }

  /** `str::parse::<i64>` accepts an optional sign and digits, leading zeroes included, within range. */
  lemma SignedIntegerExact(s: string, n: I64)
    ensures ParseI64(s) == Some(n) <==>
            || (n >= 0 && (Signed(s, "", n) || Signed(s, "+", n)))
            || (n <= 0 && Signed(s, "-", 0 - n))
  {
    if n >= 0 {
      UnsignedExact(s, 0x7FFF_FFFF_FFFF_FFFF, n);
    }
    if "-" <= s {
      if n <= 0 {
        SignedExact(s, "-", 0 - n);
      }
      assert !IsDigit(s[0]);
    }
  }
}
