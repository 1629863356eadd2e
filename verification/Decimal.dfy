/** Decimal text of integers, and the logger's conversion through a fixed buffer. */
module Decimal {
  import opened Text

  const MIN_INT64: int := -0x8000_0000_0000_0000
  const MAX_INT64: int := 0x7fff_ffff_ffff_ffff

  function DigitChar(d: nat): char
    requires d < 10
  {
    '0' + d as char
  }

  /** Digits of n, none for zero. */
  function Digits(n: nat): string {
    if n == 0 then "" else Digits(n / 10) + [DigitChar(n % 10)]
  }

  function Natural(n: nat): string {
    if n == 0 then "0" else Digits(n)
  }

  function Integer(n: int): string {
    if n < 0 then "-" + Natural(-n) else Natural(n)
  }

  predicate IsDigit(c: char) { '0' as int <= c as int <= '9' as int }

  /** What a reader makes of a string of digits. */
  function ReadDigits(s: string): nat
    requires forall i :: 0 <= i < |s| ==> IsDigit(s[i])
  {
    if s == "" then 0
    else
      var d := s[|s| - 1];
      assert IsDigit(d);
      10 * ReadDigits(s[..|s| - 1]) + (d as int - '0' as int)
  }

  /** Reading the printed number gives it back, and the text has no leading zero. */
  lemma {:induction false} DigitsReadBack(n: nat)
    ensures forall i :: 0 <= i < |Digits(n)| ==> IsDigit(Digits(n)[i])
    ensures ReadDigits(Digits(n)) == n
    ensures 0 < n ==> Digits(n) != "" && Digits(n)[0] != '0'
  {
    if n != 0 {
      DigitsReadBack(n / 10);
      var s := Digits(n);
      assert s[..|s| - 1] == Digits(n / 10);
    }
  }

  predicate AllDigits(s: string) {
    s != "" && forall i :: 0 <= i < |s| ==> IsDigit(s[i])
  }

  /** A reader of signed decimal text: an optional minus and at least one digit. */
  function ReadSigned(s: string): Result<int> {
    if s != "" && s[0] == '-' then
      if AllDigits(s[1..]) then (var n: int := ReadDigits(s[1..]); Ok(-n)) else Err
    else if AllDigits(s) then Ok(ReadDigits(s))
    else Err
  }

  /** No leading zero, unless the number is a single zero. */
  predicate IsCanonical(s: string) {
    var d := if s != "" && s[0] == '-' then s[1..] else s;
    d != "" && (d[0] == '0' ==> s == "0")
  }

  lemma NaturalReadsBack(n: nat)
    ensures var s := Natural(n);
            AllDigits(s) && ReadDigits(s) == n && s[0] != '-' && (s[0] == '0' ==> s == "0")
  {
    DigitsReadBack(n);
    if n == 0 {
      assert "0"[..0] == "";
      assert ReadDigits("0") == 10 * ReadDigits("") + ('0' as int - '0' as int);
    }
  }

  /** Every integer, zero and negative ones included, is read back from its text. */
  lemma IntegerReadsBack(n: int)
    ensures ReadSigned(Integer(n)) == Ok(n) && IsCanonical(Integer(n))
  {
    hide Natural, ReadDigits, AllDigits;
    if n < 0 {
      NaturalReadsBack(-n);
      assert Integer(n)[1..] == Natural(-n);
      NaturalZero(-n);
    } else {
      NaturalReadsBack(n);
    }
  }

  lemma NaturalZero(n: nat)
    ensures Natural(n) == "0" ==> n == 0
  {
    NaturalReadsBack(n);
    NaturalReadsBack(0);
  }

  function Pow10(k: nat): nat {
    if k == 0 then 1 else 10 * Pow10(k - 1)
  }

  lemma {:induction false} DigitCount(n: nat, k: nat)
    ensures |Digits(n)| <= k <==> n < Pow10(k)
  {
    if n != 0 && k != 0 {
      DigitCount(n / 10, k - 1);
    } else if n != 0 {
      assert |Digits(n)| > 0;
    } else {
      PowPositive(k);
    }
  }

  lemma {:induction false} PowPositive(k: nat)
    ensures 1 <= Pow10(k)
  {
    if k != 0 {
      PowPositive(k - 1);
    }
  }

  lemma Int64HasNineteenDigits(n: nat)
    requires n <= MAX_INT64
    ensures |Digits(n)| <= 19
  {
    DigitCount(n, 19);
    assert Pow10(10) == 10_000_000_000;
    assert Pow10(15) == 1_000_000_000_000_000;
    assert Pow10(19) == 10_000_000_000_000_000_000;
  }

  lemma SignAlone()
    ensures ReadSigned("-").Err?
  {
  }

  lemma LastDigit(n: nat)
    requires n != 0
    ensures Digits(n) == Digits(n / 10) + [DigitChar(n % 10)]
  {
  }

  lemma NoDigits()
    ensures Digits(0) == ""
  {
  }

  /** The wrapped negation of the smallest int64 is itself. */
  function Negate64(n: int): (r: int)
    requires MIN_INT64 <= n <= MAX_INT64
    ensures MIN_INT64 <= r <= MAX_INT64
    ensures r == -n <==> n != MIN_INT64
  {
    if n == MIN_INT64 then MIN_INT64 else -n
  }

  /** Fills a buffer of twenty octets from its end. For every int64 but the smallest the result
      is its decimal text, from which a reader gets the number back; for the smallest it is the
      sign alone, which no reader takes for a number. */
  method IntToStr(n: int) returns (s: string)
    requires MIN_INT64 <= n <= MAX_INT64
    ensures n != MIN_INT64 ==> s == Integer(n)
    ensures n != MIN_INT64 ==> ReadSigned(s) == Ok(n) && IsCanonical(s)
    ensures n == MIN_INT64 ==> s == "-" && ReadSigned(s).Err?
  {
    hide Digits, ReadSigned, IsCanonical, Natural;
    IntegerReadsBack(n);
    SignAlone();
    SmallNaturals(if n < 0 then -n else n);
    if n == 0 {
      return "0";
    }
    var neg := n < 0;
    var m := if neg then Negate64(n) else n;
    var buf := new char[20];
    var i := FillDigits(m, buf);
    if neg {
      i := i - 1;
      buf[i] := '-';
      assert buf[i..] == "-" + buf[i + 1..];
    }
    s := buf[i..];
  }

  lemma SmallNaturals(n: nat)
    ensures Natural(0) == "0" && Digits(0) == ""
    ensures n != 0 ==> Natural(n) == Digits(n)
  {
  }

  /** Writes the digits of a positive number at the end of the buffer. */
  method FillDigits(n: int, buf: array<char>) returns (i: nat)
    requires n <= MAX_INT64 && buf.Length == 20
    modifies buf
    ensures 1 <= i <= 20 && buf[i..] == Digits(if n < 0 then 0 else n)
  {
    hide Digits, DigitChar;
    ghost var m0: nat := if n < 0 then 0 else n;
    Int64HasNineteenDigits(m0);
    NoDigits();
    var m := n;
    i := buf.Length;
    while m > 0
      invariant m <= m0 && (m < 0 ==> m0 == 0)
      invariant 0 <= i <= 20
      invariant i == 20 - (|Digits(m0)| - |Digits(if m < 0 then 0 else m)|)
      invariant Digits(m0) == Digits(if m < 0 then 0 else m) + buf[i..]
      decreases m
    {
      LastDigit(m);
      i := i - 1;
      buf[i] := DigitChar(m % 10);
      assert buf[i..] == [DigitChar(m % 10)] + buf[i + 1..];
      m := m / 10;
    }
  }
}
