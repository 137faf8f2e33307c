/** The decimal encoder `itoa` of cmd/service/service_test.go: an int64 is
    written into a 20-byte buffer from the right, one digit per step, and
    a minus sign is put in front of a negative number. Bytes are modelled
    as `char`. */
module DecimalText {

  const MinInt64: int := -0x8000_0000_0000_0000
  const MaxInt64: int := 0x7fff_ffff_ffff_ffff

  newtype int64 = x: int | -0x8000_0000_0000_0000 <= x <= 0x7fff_ffff_ffff_ffff

  /** Go's `-x` on an int64: two's-complement negation, which maps the
      smallest int64 to itself. */
  function Negate(x: int64): (r: int64)
    ensures x as int != MinInt64 ==> r as int == -(x as int)
    ensures x as int == MinInt64 ==> r == x
  {
    var wide := -(x as int);
    // reduce modulo 2^64 into the int64 range
    (if wide > MaxInt64 then wide - 0x1_0000_0000_0000_0000 else wide) as int64
  }

  predicate IsDigit(c: char)
  {
    '0' <= c <= '9'
  }

  function DigitChar(d: int): (c: char)
    requires 0 <= d < 10
    ensures IsDigit(c)
  {
    ('0' as int + d) as char
  }

  function DigitValue(c: char): (d: int)
    requires IsDigit(c)
    ensures 0 <= d < 10 && DigitChar(d) == c
  {
    c as int - '0' as int
  }

  function Pow10(k: nat): (r: nat)
    ensures r >= 1
  {
    if k == 0 then 1 else 10 * Pow10(k - 1)
  }

  /** The decimal digits of `n`, most significant first; none for 0. */
  function Digits(n: nat): string
  {
    if n == 0 then [] else Digits(n / 10) + [DigitChar(n % 10)]
  }

  /** The text `itoa` is meant to produce: "0", or the digits of the
      magnitude with a minus sign in front of a negative number. */
  function Decimal(x: int): string
  {
    if x == 0 then "0" else if x < 0 then "-" + Digits(-x) else Digits(x)
  }

  predicate AllDigits(s: string)
  {
    forall k | 0 <= k < |s| :: IsDigit(s[k])
  }

  /** Digits of a positive number in canonical form: at least one, and no
      leading zero. */
  predicate CanonicalDigits(s: string)
  {
    |s| > 0 && AllDigits(s) && s[0] != '0'
  }

  /** The decimal texts of integers: "0", a canonical digit string, or a
      minus sign followed by one. */
  predicate CanonicalDecimal(s: string)
  {
    s == "0" || CanonicalDigits(s) || (|s| > 0 && s[0] == '-' && CanonicalDigits(s[1..]))
  }

  /** Reading a digit string as a decimal number. */
  function ParseDigits(s: string): nat
    requires AllDigits(s)
  {
    if s == [] then 0 else ParseDigits(s[..|s| - 1]) * 10 + DigitValue(s[|s| - 1])
  }

  /** Reading a decimal text with an optional minus sign. */
  function Parse(s: string): int
    requires CanonicalDecimal(s)
  {
    if s[0] == '-' then -(ParseDigits(s[1..]) as int) else ParseDigits(s)
  }

  /** The digits of a positive number are a canonical digit string. */
  lemma {:induction false} DigitsCanonical(n: nat)
    ensures n == 0 ==> Digits(n) == []
    ensures n > 0 ==> CanonicalDigits(Digits(n))
  {
    if n > 0 {
      var p := n / 10;
      DigitsCanonical(p);
      if p == 0 {
        assert Digits(n) == [DigitChar(n % 10)];
      } else {
        assert Digits(n)[0] == Digits(p)[0];
      }
    }
  }

  /** Reading back the digits of `n` gives `n`. */
  lemma {:induction false} ParseDigitsOfDigits(n: nat)
    ensures AllDigits(Digits(n)) && ParseDigits(Digits(n)) == n
  {
    DigitsCanonical(n);
    if n > 0 {
      var s := Digits(n);
      ParseDigitsOfDigits(n / 10);
      assert s[..|s| - 1] == Digits(n / 10);
    }
  }

  /** A canonical digit string stands for a positive number. */
  lemma {:induction false} ParseDigitsPositive(s: string)
    requires CanonicalDigits(s)
    ensures ParseDigits(s) > 0
  {
    var p := s[..|s| - 1];
    if |p| > 0 {
      assert p[0] == s[0];
      ParseDigitsPositive(p);
    }
  }

  /** Writing out the number a canonical digit string stands for gives the
      string back. */
  lemma {:induction false} DigitsOfParseDigits(s: string)
    requires CanonicalDigits(s)
    ensures Digits(ParseDigits(s)) == s
  {
    var p, c := s[..|s| - 1], s[|s| - 1];
    var n := ParseDigits(s);
    assert n / 10 == ParseDigits(p) && n % 10 == DigitValue(c);
    if |p| == 0 {
      assert s == [c];
    } else {
      assert p[0] == s[0];
      DigitsOfParseDigits(p);
      ParseDigitsPositive(p);
      assert s == p + [c];
    }
  }

  /** Round trip one way: every integer's decimal text is canonical and
      reads back as that integer. */
  lemma ParseDecimal(x: int)
    ensures CanonicalDecimal(Decimal(x)) && Parse(Decimal(x)) == x
  {
    if x > 0 {
      DigitsCanonical(x);
      ParseDigitsOfDigits(x);
    } else if x < 0 {
      DigitsCanonical(-x);
      ParseDigitsOfDigits(-x);
      assert Decimal(x)[1..] == Digits(-x);
    } else {
      assert "0"[..0] == [];
    }
  }

  /** Round trip the other way: every canonical decimal text is the text
      of the integer it reads as. */
  lemma DecimalOfParse(s: string)
    requires CanonicalDecimal(s)
    ensures Decimal(Parse(s)) == s
  {
    if s == "0" {
    } else if s[0] == '-' {
      DigitsOfParseDigits(s[1..]);
      ParseDigitsPositive(s[1..]);
    } else {
      DigitsOfParseDigits(s);
      ParseDigitsPositive(s);
    }
  }

  /** A number below 10^k has at most k digits; so every int64 magnitude
      (below 10^19) fits in the 20-byte buffer. */
  lemma {:induction false} DigitsLength(n: nat, k: nat)
    requires n < Pow10(k)
    ensures |Digits(n)| <= k
  {
    if n > 0 {
      assert k > 0;
      DigitsLength(n / 10, k - 1);
    }
  }

  lemma Pow10Nineteen()
    ensures Pow10(19) == 10_000_000_000_000_000_000
  {
    assert Pow10(3) == 1_000;
    assert Pow10(6) == 1_000_000;
    assert Pow10(9) == 1_000_000_000;
    assert Pow10(12) == 1_000_000_000_000;
    assert Pow10(15) == 1_000_000_000_000_000;
    assert Pow10(18) == 1_000_000_000_000_000_000;
  }

  /** The magnitude of any int64 (at most 2^63) has at most 19 digits, so
      it fits in the 20-byte buffer of `itoa`. */
  lemma Int64DigitsFit(n: nat)
    requires n <= -MinInt64
    ensures |Digits(n)| <= 19
  {
    Pow10Nineteen();
    DigitsLength(n, 19);
  }

  /** A sign ("-" for a negative number, "" otherwise) followed by the
      digits of the magnitude of a non-zero number is its decimal text. */
  lemma SignedDigitsAreDecimal(x: int, sign: string, digits: string)
    requires x != 0
    requires sign == if x < 0 then "-" else ""
    requires digits == Digits(if x < 0 then -x else x)
    ensures sign + digits == Decimal(x)
    ensures CanonicalDecimal(sign + digits) && Parse(sign + digits) == x
  {
    ParseDecimal(x);
  }

  /** `itoa`. The buffer holds the digits written so far in `buf[i..]`,
      and `Digits(magnitude) == Digits(v) + buf[i..]` holds at every step,
      where `magnitude` is |x| and `v` the part not yet written.
      For the smallest int64, `-x` wraps back to a negative number, the
      loop never runs and the text is a lone minus sign. */
  method Itoa(x: int64) returns (s: string)
    ensures x as int != MinInt64 ==> s == Decimal(x as int)
    ensures x as int != MinInt64 ==> CanonicalDecimal(s) && Parse(s) == x as int
    ensures MinInt64 < x as int < 0 ==> s == "-" + Decimal(-(x as int))
    ensures x as int == MinInt64 ==> s == "-"
  {
    if x == 0 {
      ParseDecimal(0);
      return "0";
    }
    var sign := "";
    var v := x;
    if v < 0 {
      sign := "-";
      v := Negate(v);
    }
    var buf := new char[20];
    var i := buf.Length;
    ghost var magnitude: nat := if v > 0 then v as int else 0;
    Int64DigitsFit(magnitude);
    while v > 0
      invariant 0 <= i <= 20
      invariant v < 0 ==> i == 20 && x as int == MinInt64
      invariant v >= 0 ==> Digits(magnitude) == Digits(v as int) + buf[i..]
    {
      i := i - 1;
      buf[i] := DigitChar((v % 10) as int);
      assert buf[i..] == [buf[i]] + buf[i + 1..];
      v := v / 10;
    }
    s := sign + buf[i..];
    if x as int == MinInt64 {
      assert buf[i..] == [];
    } else {
      assert v == 0 && Digits(magnitude) == buf[i..];
      SignedDigitsAreDecimal(x as int, sign, buf[i..]);
    }
  }
}
