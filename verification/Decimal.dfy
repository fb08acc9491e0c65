// Rust's decimal `Display` and `FromStr` for the integer widths the stored
// cursors, fingerprints and route keys use.
module Decimal {
  import opened Basics

  const U32_MAX: nat := 0xFFFF_FFFF
  const U64_MAX: nat := 0xFFFF_FFFF_FFFF_FFFF
  const I64_MAX: int := 0x7FFF_FFFF_FFFF_FFFF

  predicate IsDigit(c: char) {
    '0' <= c <= '9'
  }

  predicate AllDigits(s: string) {
    forall i :: 0 <= i < |s| ==> IsDigit(s[i])
  }

  function DigitChar(d: nat): (c: char)
    requires d < 10
    ensures IsDigit(c) && c as int - '0' as int == d
  {
    (d + '0' as int) as char
  }

  function Show(n: nat): (s: string)
    ensures AllDigits(s) && s != ""
  {
    if n < 10 then [DigitChar(n)] else Show(n / 10) + [DigitChar(n % 10)]
  }

  function ShowInt(n: int): string {
    if n < 0 then "-" + Show(-n) else Show(n)
  }

  function Value(s: string): nat
    requires AllDigits(s)
  {
    if s == "" then 0 else 10 * Value(s[..|s| - 1]) + (s[|s| - 1] as int - '0' as int)
  }

  lemma {:induction false} ValueOfShow(n: nat)
    ensures Value(Show(n)) == n
  {
    if n >= 10 {
      ValueOfShow(n / 10);
      assert Show(n)[..|Show(n)| - 1] == Show(n / 10);
    } else {
      assert Show(n)[..0] == "";
    }
  }

  // `parse::<uN>()`: an optional plus sign, then at least one digit, in range.
  function ParseUnsigned(s: string, max: nat): Option<nat> {
    var digits := if "+" <= s then s[1..] else s;
    if digits != "" && AllDigits(digits) && Value(digits) <= max then Some(Value(digits)) else None
  }

  // `parse::<i64>()`: a minus sign reaches one value further than a plus sign.
  function ParseI64(s: string): Option<int> {
    if "-" <= s then
      var digits := s[1..];
      if digits != "" && AllDigits(digits) && Value(digits) <= I64_MAX + 1
      then var n: int := Value(digits); Some(-n) else None
    else
      match ParseUnsigned(s, I64_MAX)
      case Some(n) => Some(n)
      case None => None
  }

  lemma ParseUnsignedOfShow(n: nat, max: nat)
    requires n <= max
    ensures ParseUnsigned(Show(n), max) == Some(n)
  {
    ValueOfShow(n);
    assert IsDigit(Show(n)[0]);
  }

  lemma ParseI64OfShow(n: int)
    requires -I64_MAX - 1 <= n <= I64_MAX
    ensures ParseI64(ShowInt(n)) == Some(n)
  {
    if n < 0 {
      ValueOfShow(-n);
      assert ("-" + Show(-n))[1..] == Show(-n);
    } else {
      ParseUnsignedOfShow(n, I64_MAX);
      assert IsDigit(Show(n)[0]);
    }
  }

  lemma ShowIntInjective(m: int, n: int)
    requires ShowInt(m) == ShowInt(n)
    ensures m == n
  {
    assert IsDigit(Show(if m < 0 then -m else m)[0]) && IsDigit(Show(if n < 0 then -n else n)[0]);
    if m < 0 {
      assert ShowInt(m)[1..] == Show(-m) && ShowInt(n)[1..] == Show(-n);
      ValueOfShow(-m);
      ValueOfShow(-n);
    } else {
      ValueOfShow(m);
      ValueOfShow(n);
    }
  }

  // `{:032x}`: thirty-two hexadecimal digits, most significant first.
  function HexChar(d: nat): char
    requires d < 16
  {
    if d < 10 then (d + '0' as int) as char else (d - 10 + 'a' as int) as char
  }

  function Hex(width: nat, n: nat): (s: string)
    ensures |s| == width
  {
    if width == 0 then "" else Hex(width - 1, n / 16) + [HexChar(n % 16)]
  }

  function Pow16(w: nat): (r: nat)
    ensures r > 0
  {
    if w == 0 then 1 else 16 * Pow16(w - 1)
  }

  // Padded to a width that holds both numbers, hexadecimal tells them apart.
  lemma {:induction false} HexInjective(width: nat, m: nat, n: nat)
    requires m < Pow16(width) && n < Pow16(width)
    requires Hex(width, m) == Hex(width, n)
    ensures m == n
  {
    if width > 0 {
      var a, b := Hex(width - 1, m / 16), Hex(width - 1, n / 16);
      assert a == Hex(width, m)[..width - 1] == Hex(width, n)[..width - 1] == b;
      assert HexChar(m % 16) == Hex(width, m)[width - 1] == Hex(width, n)[width - 1] == HexChar(n % 16);
      HexInjective(width - 1, m / 16, n / 16);
      assert m % 16 == n % 16;
    }
  }
}
