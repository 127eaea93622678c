/** Decimal numbers in text, as the formatting macros print them. */
module Numerals {

  function DigitChar(d: nat): char
    requires d < 10
  {
    '0' + d as char
  }

  function DigitValue(c: char): int {
    c as int - '0' as int
  }

  predicate IsDigit(c: char) {
    '0' <= c <= '9'
  }

  function Decimal(n: nat): (text: string)
    ensures text != "" && forall c :: c in text ==> IsDigit(c)
  {
    if n < 10 then [DigitChar(n)] else Decimal(n / 10) + [DigitChar(n % 10)]
  }

  function Value(digits: string): int {
    if digits == "" then 0 else 10 * Value(digits[..|digits| - 1]) + DigitValue(digits[|digits| - 1])
  }

  /** What is printed reads back as the same number. */
  lemma {:induction false} ValueOfDecimal(n: nat)
    ensures Value(Decimal(n)) == n
  {
    if n >= 10 {
      ValueOfDecimal(n / 10);
      assert Decimal(n)[..|Decimal(n)| - 1] == Decimal(n / 10);
    } else {
      assert Value([]) == 0;
      assert Decimal(n)[..0] == [];
    }
  }

  function Zeros(n: nat): (text: string)
    ensures |text| == n
  {
    seq(n, _ => '0')
  }

  /** `n` with zeros in front to fill `width` places. */
  function Padded(n: nat, width: nat): (text: string)
    ensures |text| >= width && text != "" && forall c :: c in text ==> IsDigit(c)
  {
    var digits := Decimal(n);
    if |digits| >= width then digits else Zeros(width - |digits|) + digits
  }

  lemma {:induction false} ZerosAddNothing(zeros: nat, digits: string)
    ensures Value(Zeros(zeros) + digits) == Value(digits)
    decreases |digits|, zeros
  {
    var text := Zeros(zeros) + digits;
    if digits != "" {
      assert text[..|text| - 1] == Zeros(zeros) + digits[..|digits| - 1];
      ZerosAddNothing(zeros, digits[..|digits| - 1]);
    } else if zeros > 0 {
      assert text[..|text| - 1] == Zeros(zeros - 1) + digits;
      ZerosAddNothing(zeros - 1, digits);
    } else {
      assert text == digits;
    }
  }

  lemma ValueOfPadded(n: nat, width: nat)
    ensures Value(Padded(n, width)) == n
  {
    hide Value, Zeros;
    var digits := Decimal(n);
    ValueOfDecimal(n);
    if |digits| < width { ZerosAddNothing(width - |digits|, digits); }
  }

  lemma TwoPlaces(n: nat)
    requires n < 100
    ensures |Padded(n, 2)| == 2
  {
    assert |Decimal(n)| <= 2;
  }

  /** No more digits than needed: the first is zero for zero alone. */
  lemma {:induction false} NoLeadingZero(n: nat)
    ensures Decimal(n)[0] == '0' <==> n == 0
    ensures |Decimal(n)| <= 3 <==> n < 1_000
    ensures |Decimal(n)| <= 4 <==> n < 10_000
  {
    if n >= 10 {
      NoLeadingZero(n / 10);
      assert Decimal(n)[0] == Decimal(n / 10)[0];
      DigitCount(n);
    }
  }

  lemma DigitCount(n: nat)
    ensures |Decimal(n)| <= 1 <==> n < 10
    ensures |Decimal(n)| <= 2 <==> n < 100
    ensures |Decimal(n)| <= 3 <==> n < 1_000
    ensures |Decimal(n)| <= 4 <==> n < 10_000
  {
    if n >= 10 {
      assert |Decimal(n)| == |Decimal(n / 10)| + 1;
      if n >= 100 {
        assert |Decimal(n / 10)| == |Decimal(n / 100)| + 1 by { assert n / 10 / 10 == n / 100; }
        if n >= 1_000 {
          assert |Decimal(n / 100)| == |Decimal(n / 1_000)| + 1 by { assert n / 100 / 10 == n / 1_000; }
          if n >= 10_000 {
            assert |Decimal(n / 1_000)| == |Decimal(n / 10_000)| + 1 by { assert n / 1_000 / 10 == n / 10_000; }
          }
        }
      }
    }
  }

  /** Three or four places hold what fits in them exactly; more is printed whole. */
  lemma Places(n: nat, width: nat)
    requires width == 3 || width == 4
    ensures |Padded(n, width)| == width <==> n < (if width == 3 then 1_000 else 10_000)
    ensures |Padded(n, width)| > width ==> Padded(n, width)[0] != '0'
    ensures IsDigit(Padded(n, width)[0])
  {
    NoLeadingZero(n);
    assert Padded(n, width)[0] in Padded(n, width);
  }

  /** A number printed in at least `width` places, the sign among them. */
  function SignedPadded(n: int, width: nat): (text: string)
    requires width > 0
    ensures text != ""
  {
    if n >= 0 then Padded(n, width) else "-" + Padded(-n, width - 1)
  }

  function SignedValue(text: string): int {
    if text != "" && text[0] == '-' then -Value(text[1..]) else Value(text)
  }

  lemma SignedRoundTrip(n: int, width: nat)
    requires width > 0
    ensures SignedValue(SignedPadded(n, width)) == n
  {
    if n >= 0 {
      ValueOfPadded(n, width);
      var text := Padded(n, width);
      assert text[0] in text;
    } else {
      ValueOfPadded(-n, width - 1);
      assert SignedPadded(n, width)[1..] == Padded(-n, width - 1);
    }
  }
}
