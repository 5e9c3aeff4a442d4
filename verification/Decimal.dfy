/** Unsigned decimal numbers as `str::parse` reads them and `{}` writes them. */
module Decimal {
  import opened Common

  predicate Digit(c: char) {
    '0' <= c <= '9'
  }

  /** `char::is_alphanumeric`; `unicode` classifies the letters and digits outside ASCII. */
  predicate Alphanumeric(c: char, unicode: char -> bool) {
    if c as int < 128 then 'a' <= c <= 'z' || 'A' <= c <= 'Z' || Digit(c) else unicode(c)
  }

  /** Within ASCII these are the 62 letters and digits, whatever the classification outside. */
  lemma AsciiAlphanumeric(c: char, unicode: char -> bool)
    requires c as int < 128
    ensures Alphanumeric(c, unicode) <==> 48 <= c as int <= 57 || 65 <= c as int <= 90 || 97 <= c as int <= 122
  {
  }

  predicate AllDigits(s: string) {
    forall i :: 0 <= i < |s| ==> Digit(s[i])
  }

  function Value(s: string): nat
    requires AllDigits(s)
  {
    if s == [] then 0 else Value(s[..|s| - 1]) * 10 + (s[|s| - 1] as int - '0' as int)
  }

  /** One optional `+`, then at least one digit, and no overflow of 64 bits. */
  function ParseUnsigned(s: string): Option<nat> {
    var body := if s != [] && s[0] == '+' then s[1..] else s;
    if body == [] || !AllDigits(body) || Value(body) > U64_MAX then None else Some(Value(body))
  }

  function DigitOf(n: nat): (c: char)
    requires n < 10
    ensures Digit(c) && c as int - '0' as int == n
  {
    (n + '0' as int) as char
  }

  function Show(n: nat): (s: string)
    ensures s != [] && AllDigits(s)
  {
    if n < 10 then [DigitOf(n)] else Show(n / 10) + [DigitOf(n % 10)]
  }

  lemma {:induction false} ValueOfShow(n: nat)
    ensures Value(Show(n)) == n
  {
    var s := Show(n);
    if n < 10 {
      assert s[..0] == [];
    } else {
      assert s[..|s| - 1] == Show(n / 10);
      ValueOfShow(n / 10);
    }
  }

  /** What is written is read back. */
  lemma ParseOfShow(n: nat)
    requires n <= U64_MAX
    ensures ParseUnsigned(Show(n)) == Some(n)
  {
    ValueOfShow(n);
    assert Digit(Show(n)[0]);
  }

  lemma {:induction false} LeadingZero(s: string)
    requires AllDigits(s)
    ensures AllDigits("0" + s) && Value("0" + s) == Value(s)
    decreases |s|
  {
    if s == [] {
      assert "0" + s == "0" && "0"[..0] == [];
    } else {
      LeadingZero(s[..|s| - 1]);
      assert ("0" + s)[..|s|] == "0" + s[..|s| - 1];
    }
  }

  /** Nothing above 64 bits is read. */
  lemma NoOverflow(n: nat)
    ensures ParseUnsigned(Show(n)).Some? <==> n <= 0xFFFF_FFFF_FFFF_FFFF
  {
    ValueOfShow(n);
    assert Digit(Show(n)[0]);
  }

  /** A plus sign and leading zeros are read over; nothing else but digits is read. */
  lemma ParseMeans(s: string, n: nat)
    requires n <= U64_MAX
    ensures ParseUnsigned("+" + Show(n)) == ParseUnsigned("0" + Show(n)) == Some(n)
    ensures ParseUnsigned(s).Some? ==> AllDigits(if s[0] == '+' then s[1..] else s) && s != "+"
  {
    ValueOfShow(n);
    LeadingZero(Show(n));
    assert ("+" + Show(n))[1..] == Show(n);
  }
}
