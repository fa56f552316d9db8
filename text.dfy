/**
  * The text rendering rules of the C++ standard stream that the monitor writes
  * to: padding a field to the stream's width, and writing an integer in decimal
  * or in lower-case hexadecimal. Each rendering comes with the parser that
  * reads it back, and round-trip lemmas tie the two together.
  */
module Text {
  import opened Wrappers

  /** The two bases the monitor switches between. */
  type Radix = r: nat | r == 10 || r == 16 witness 10

  /** The stream's `adjustfield`: `std::left` pads after the text, `std::right` before it. */
  datatype Adjust = Left | Right

  function Max(a: int, b: int): (r: int) { if a < b then b else a }

  function Spaces(n: nat): (r: string)
  {
    seq(n, _ => ' ')
  }

  /**
    * A formatted insertion under `std::setw(width)`: the text is padded with
    * spaces up to `width` on the side the adjustment says, and never truncated.
    */
  function Fill(s: string, width: nat, adjust: Adjust): (r: string)
    ensures |r| == Max(width, |s|)
    ensures adjust == Left ==> r == s + Spaces(|r| - |s|)
    ensures adjust == Right ==> r == Spaces(|r| - |s|) + s
  {
    if width <= |s| then s
    else if adjust == Left then s + Spaces(width - |s|)
    else Spaces(width - |s|) + s
  }

  /** The digit `d` as `std::dec` and `std::hex` write it: lower case, as without `std::uppercase`. */
  function DigitChar(d: nat): (c: char)
    requires d < 16
  {
    if d < 10 then ('0' as int + d) as char else ('a' as int + d - 10) as char
  }

  /** The characters a numeral in the given radix is made of. */
  predicate IsDigit(c: char, radix: Radix)
  {
    '0' <= c <= '9' || (radix == 16 && 'a' <= c <= 'f')
  }

  /** The numeral of a natural number: most significant digit first, no leading zeros. */
  function Numeral(n: nat, radix: Radix): (r: string)
    decreases n
  {
    if n < radix then [DigitChar(n)]
    else Numeral(n / radix, radix) + [DigitChar(n % radix)]
  }

  /** The value of one digit character, the inverse of `DigitChar`. */
  function DigitValue(c: char): (r: nat)
  {
    if '0' <= c <= '9' then c as int - '0' as int
    else if 'a' <= c <= 'f' then c as int - 'a' as int + 10
    else 0
  }

  predicate IsNumeral(s: string, radix: Radix)
  {
    |s| >= 1 && forall i | 0 <= i < |s| :: IsDigit(s[i], radix)
  }

  /** The value of a numeral, read most significant digit first. */
  function NumeralValue(s: string, radix: Radix): (r: nat)
  {
    if s == [] then 0
    else NumeralValue(s[..|s| - 1], radix) * radix + DigitValue(s[|s| - 1])
  }

  /**
    * A numeral is made of digits of its radix only, starts with '0' exactly
    * when it is the numeral of zero, and reads back as the number it was
    * made from.
    */
  lemma {:induction false} NumeralRoundTrip(n: nat, radix: Radix)
    ensures IsNumeral(Numeral(n, radix), radix)
    ensures Numeral(n, radix)[0] == '0' <==> n == 0
    ensures NumeralValue(Numeral(n, radix), radix) == n
    decreases n
  {
    var r := Numeral(n, radix);
    if n < radix {
      assert r[..0] == [];
    } else {
      var p := Numeral(n / radix, radix);
      NumeralRoundTrip(n / radix, radix);
      assert r == p + [DigitChar(n % radix)];
      assert r[..|r| - 1] == p;
      assert r[0] == p[0];
    }
  }

  function Pow(b: nat, k: nat): (r: nat)
  {
    if k == 0 then 1 else b * Pow(b, k - 1)
  }

  /** The numeral of `n` has at most `k` digits whenever `n < radix^k`. */
  lemma {:induction false} NumeralLength(n: nat, radix: Radix, k: nat)
    requires 1 <= k && n < Pow(radix, k)
    ensures |Numeral(n, radix)| <= k
    decreases k
  {
    if n >= radix {
      assert n / radix < Pow(radix, k - 1);
      NumeralLength(n / radix, radix, k - 1);
    }
  }

  /** `std::cout << x` for a signed integer under `std::dec`: a '-' sign, then the digits. */
  function Decimal(x: int): (r: string)
  {
    if x < 0 then "-" + Numeral(-x, 10) else Numeral(x, 10)
  }

  /** `std::cout << n` for an unsigned value under `std::hex`: lower case, no "0x", no padding. */
  function Hex(n: nat): (r: string)
  {
    Numeral(n, 16)
  }

  /** Reads a decimal integer written with an optional leading '-'. */
  function ParseInt(s: string): (r: Option<int>)
  {
    if |s| >= 1 && s[0] == '-' then
      if IsNumeral(s[1..], 10) then Some(0 - NumeralValue(s[1..], 10)) else None
    else if IsNumeral(s, 10) then Some(NumeralValue(s, 10))
    else None
  }

  /** Reads an unsigned lower-case hexadecimal numeral. */
  function ParseHex(s: string): (r: Option<nat>)
  {
    if IsNumeral(s, 16) then Some(NumeralValue(s, 16)) else None
  }

  lemma DecimalRoundTrip(x: int)
    ensures ParseInt(Decimal(x)) == Some(x)
    ensures |Decimal(x)| >= 1 && Decimal(x)[0] != ' '
    ensures ' ' !in Decimal(x)
  {
    NumeralRoundTrip(if x < 0 then -x else x, 10);
    if x < 0 {
      assert Decimal(x)[1..] == Numeral(-x, 10);
      assert Numeral(-x, 10)[0] != '-';
    }
  }

  lemma HexRoundTrip(n: nat)
    ensures ParseHex(Hex(n)) == Some(n)
    ensures |Hex(n)| >= 1 && ' ' !in Hex(n)
    ensures Hex(n)[0] == '0' ==> n == 0
  {
    NumeralRoundTrip(n, 16);
  }

  /** A decimal fits a field of width `k` when it needs at most `k` characters. */
  lemma DecimalFits(x: int, k: nat)
    requires 1 <= k
    requires 0 - Pow(10, k - 1) < x < Pow(10, k)
    ensures |Decimal(x)| <= k
  {
    if x >= 0 {
      NumeralLength(x, 10, k);
    } else {
      NumeralLength(-x, 10, k - 1);
    }
  }

  /** Drops the padding in front of a right-aligned field. */
  function TrimLeft(s: string): (r: string)
  {
    if |s| > 0 && s[0] == ' ' then TrimLeft(s[1..]) else s
  }

  /** Drops the padding after a left-aligned field. */
  function TrimRight(s: string): (r: string)
  {
    if |s| > 0 && s[|s| - 1] == ' ' then TrimRight(s[..|s| - 1]) else s
  }

  lemma {:induction false} TrimLeftPadding(n: nat, t: string)
    requires t == [] || t[0] != ' '
    ensures TrimLeft(Spaces(n) + t) == t
    decreases n
  {
    if n > 0 {
      assert (Spaces(n) + t)[1..] == Spaces(n - 1) + t;
      TrimLeftPadding(n - 1, t);
    }
  }

  lemma {:induction false} TrimRightPadding(t: string, n: nat)
    requires t == [] || t[|t| - 1] != ' '
    ensures TrimRight(t + Spaces(n)) == t
    decreases n
  {
    if n > 0 {
      assert (t + Spaces(n))[..|t| + n - 1] == t + Spaces(n - 1);
      TrimRightPadding(t, n - 1);
    } else {
      assert t + Spaces(0) == t;
    }
  }

  /** A right-aligned decimal field reads back as the value written into it. */
  lemma RightFieldRoundTrip(x: int, width: nat)
    ensures ParseInt(TrimLeft(Fill(Decimal(x), width, Right))) == Some(x)
  {
    DecimalRoundTrip(x);
    var d := Decimal(x);
    var f := Fill(d, width, Right);
    assert f == Spaces(|f| - |d|) + d;
    TrimLeftPadding(|f| - |d|, d);
  }

  /** A left-aligned label reads back as itself once its trailing padding is dropped. */
  lemma LeftFieldRoundTrip(s: string, width: nat)
    requires s == [] || s[|s| - 1] != ' '
    ensures TrimRight(Fill(s, width, Left)) == s
  {
    var f := Fill(s, width, Left);
    assert f == s + Spaces(|f| - |s|);
    TrimRightPadding(s, |f| - |s|);
  }
}
