/** Decimal printing and the strict `i64` parser used for `created` and `expires`. */
module Decimal {
  import opened Wrappers

  const I64_MAX := 0x7FFF_FFFF_FFFF_FFFF
  const I64_MIN := -0x8000_0000_0000_0000

  predicate IsDigit(c: char) {
    '0' <= c <= '9'
  }

  predicate AllDigits(s: string) {
    forall c :: c in s ==> IsDigit(c)
  }

  function ShowNat(n: nat): (s: string)
    ensures s != "" && AllDigits(s)
  {
    if n < 10 then [('0' as int + n) as char]
    else ShowNat(n / 10) + [('0' as int + n % 10) as char]
  }

  function ShowInt(n: int): string {
    if n < 0 then "-" + ShowNat(-n) else ShowNat(n)
  }

  function DigitsValue(s: string): nat
    requires AllDigits(s)
  {
    if s == "" then 0 else
      assert s[|s| - 1] in s;
      DigitsValue(s[..|s| - 1]) * 10 + (s[|s| - 1] as int - '0' as int)
  }

  /** An optional sign, then at least one digit, and the value must fit 64 bits. */
  function ParseI64(s: string): Option<int> {
    var signed := s != "" && (s[0] == '+' || s[0] == '-');
    var digits := if signed then s[1..] else s;
    if digits == "" || !AllDigits(digits) then None else
      var n: int := if signed && s[0] == '-' then 0 - DigitsValue(digits) else DigitsValue(digits);
      if I64_MIN <= n <= I64_MAX then Some(n) else None
  }

  const U64_MAX := 0xFFFF_FFFF_FFFF_FFFF

  /** An optional plus sign, then at least one digit, and the value must fit 64 bits. */
  function ParseU64(s: string): Option<nat> {
    var digits := if s != "" && s[0] == '+' then s[1..] else s;
    if digits == "" || !AllDigits(digits) || DigitsValue(digits) > U64_MAX then None
    else Some(DigitsValue(digits))
  }

  lemma {:induction false} ShowNatValue(n: nat)
    ensures DigitsValue(ShowNat(n)) == n
  {
    var s := ShowNat(n);
    if n < 10 {
      assert s[..0] == "";
    } else {
      ShowNatValue(n / 10);
      assert s[..|s| - 1] == ShowNat(n / 10);
    }
  }

  /** Printing is injective, so identifiers built from counters are distinct. */
  lemma ShowNatInjective(a: nat, b: nat)
    requires ShowNat(a) == ShowNat(b)
    ensures a == b
  {
    ShowNatValue(a);
    ShowNatValue(b);
  }

  /** Every 64-bit integer survives printing and parsing. */
  lemma ParsePrinted(n: int)
    requires I64_MIN <= n <= I64_MAX
    ensures ParseI64(ShowInt(n)) == Some(n)
  {
    var d := ShowNat(if n < 0 then -n else n);
    ShowNatValue(if n < 0 then -n else n);
    assert d[0] in d;
    if n < 0 {
      assert ("-" + d)[1..] == d;
    }
  }

  // ---- Exactly which texts are numbers -----------------------------------------------------

  predicate AllZeros(s: string) {
    forall c :: c in s ==> c == '0'
  }

  lemma {:induction false} DigitsAppend(a: string, c: char)
    requires AllDigits(a) && IsDigit(c)
    ensures AllDigits(a + [c]) && DigitsValue(a + [c]) == DigitsValue(a) * 10 + (c as int - '0' as int)
  {
    assert (a + [c])[..|a|] == a;
  }

  lemma {:induction false} OnlyZeros(zeros: string)
    requires AllZeros(zeros)
    ensures AllDigits(zeros) && DigitsValue(zeros) == 0
  {
    if zeros != "" {
      var front, last := zeros[..|zeros| - 1], zeros[|zeros| - 1];
      assert last in zeros && forall c :: c in front ==> c in zeros;
      OnlyZeros(front);
      assert zeros == front + [last];
    }
  }

  lemma {:induction false} LeadingZeros(zeros: string, digits: string)
    requires AllZeros(zeros) && AllDigits(digits)
    ensures AllDigits(zeros + digits) && DigitsValue(zeros + digits) == DigitsValue(digits)
    decreases |zeros| + |digits|
  {
    if digits == "" {
      assert zeros + digits == zeros;
      OnlyZeros(zeros);
    } else {
      var front, last := digits[..|digits| - 1], digits[|digits| - 1];
      assert last in digits && forall c :: c in front ==> c in digits;
      LeadingZeros(zeros, front);
      hide DigitsValue;
      DigitsAppend(zeros + front, last);
      DigitsAppend(front, last);
      assert digits == front + [last] && zeros + digits == zeros + front + [last];
    }
  }

  lemma ShowMore(n: nat, c: char)
    requires IsDigit(c)
    ensures ShowNat(c as int - '0' as int) == [c]
    ensures n > 0 ==> ShowNat(n * 10 + (c as int - '0' as int)) == ShowNat(n) + [c]
  {
    var d := c as int - '0' as int;
    assert (n * 10 + d) / 10 == n && (n * 10 + d) % 10 == d;
  }

  /** Digits are the printed number behind some zeros. */
  lemma {:induction false} DigitsAreShown(digits: string) returns (zeros: string)
    requires digits != "" && AllDigits(digits)
    ensures AllZeros(zeros) && digits == zeros + ShowNat(DigitsValue(digits))
    decreases |digits|
  {
    var front, last := digits[..|digits| - 1], digits[|digits| - 1];
    assert last in digits && forall c :: c in front ==> c in digits;
    var n := DigitsValue(front);
    ShowMore(n, last);
    ShowMore(0, '0');
    assert DigitsValue(digits) == n * 10 + (last as int - '0' as int);
    assert digits == front + [last];
    zeros := "";
    if front == "" {
      assert n == 0;
    } else {
      zeros := DigitsAreShown(front);
      hide ShowNat, DigitsValue;
      if n == 0 {
        zeros := zeros + "0";
        assert front == zeros;
      } else {
        assert zeros + ShowNat(n) + [last] == zeros + (ShowNat(n) + [last]);
      }
    }
  }

  /** The text is a sign that fits, any zeros, and the number as it prints. */
  ghost predicate Denotes(s: string, n: int) {
    exists sign: string, zeros: string ::
      && SignFits(sign, n) && AllZeros(zeros)
      && s == sign + (zeros + ShowNat(if n < 0 then -n else n))
  }

  predicate SignFits(sign: string, n: int) {
    (sign == "-" && n <= 0) || ((sign == "" || sign == "+") && n >= 0)
  }

  lemma DenotesParses(sign: string, zeros: string, n: int)
    requires SignFits(sign, n) && AllZeros(zeros) && I64_MIN <= n <= I64_MAX
    ensures ParseI64(sign + (zeros + ShowNat(if n < 0 then -n else n))) == Some(n)
  {
    var shown := ShowNat(if n < 0 then -n else n);
    LeadingZeros(zeros, shown);
    ShowNatValue(if n < 0 then -n else n);
    var digits := zeros + shown;
    assert digits[0] in digits;
    hide ShowNat;
    if sign == "" {
      assert sign + digits == digits;
    } else {
      assert (sign + digits)[1..] == digits;
    }
  }

  /** The parser accepts exactly the texts that denote a 64-bit integer, and as that integer. */
  lemma ParseI64Exactly(s: string, n: int)
    ensures ParseI64(s) == Some(n) <==> I64_MIN <= n <= I64_MAX && Denotes(s, n)
  {
    if ParseI64(s) == Some(n) {
      var signed := s[0] == '+' || s[0] == '-';
      var digits := if signed then s[1..] else s;
      var zeros := DigitsAreShown(digits);
      var sign := if signed then [s[0]] else "";
      assert s == sign + digits;
      hide ShowNat, DigitsValue;
      assert DigitsValue(digits) == if n < 0 then -n else n;
      assert SignFits(sign, n) && s == sign + (zeros + ShowNat(if n < 0 then -n else n));
    }
    if I64_MIN <= n <= I64_MAX && Denotes(s, n) {
      var sign: string, zeros: string :| SignFits(sign, n) && AllZeros(zeros)
                                         && s == sign + (zeros + ShowNat(if n < 0 then -n else n));
      DenotesParses(sign, zeros, n);
    }
  }

  /** The unsigned parser accepts a printed number, with or without a plus sign and zeros, up to the largest one. */
  lemma ParseU64Printed(plus: bool, zeros: string, n: nat)
    requires AllZeros(zeros)
    ensures ParseU64((if plus then "+" else "") + (zeros + ShowNat(n))) == if n <= U64_MAX then Some(n) else None
  {
    LeadingZeros(zeros, ShowNat(n));
    ShowNatValue(n);
    var digits := zeros + ShowNat(n);
    assert digits[0] in digits;
    hide ShowNat;
    if plus {
      assert ("+" + digits)[1..] == digits;
    } else {
      assert "" + digits == digits;
    }
  }

  /** And nothing but digits behind at most a plus sign. */
  lemma ParseU64Only(s: string) returns (plus: bool, zeros: string)
    requires ParseU64(s).Some?
    ensures AllZeros(zeros) && s == (if plus then "+" else "") + (zeros + ShowNat(ParseU64(s).value))
  {
    plus := s != "" && s[0] == '+';
    var digits := if plus then s[1..] else s;
    zeros := DigitsAreShown(digits);
    assert s == (if plus then "+" else "") + digits;
  }
}
