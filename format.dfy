/**
 * Python's `%d` and `%<width>d` conversions of integers to text, as used to
 * build every display text of the monitor, together with the inverse reading
 * that shows no information is lost by the formatting.
 */
module Format {

  predicate IsDigit(c: char) {
    '0' <= c <= '9'
  }

  function DigitChar(n: nat): (c: char)
    requires n < 10
    ensures IsDigit(c)
  {
    (48 + n) as char
  }

  function DigitValue(c: char): nat {
    if IsDigit(c) then c as int - 48 else 0
  }

  /** The decimal digits of `n`, most significant first, without leading zeros. */
  function Decimal(n: nat): (s: string)
    ensures |s| >= 1
    ensures forall i :: 0 <= i < |s| ==> IsDigit(s[i])
    ensures |s| > 1 ==> s[0] != '0'
    decreases n
  {
    if n < 10 then [DigitChar(n)] else Decimal(n / 10) + [DigitChar(n % 10)]
  }

  /** Reads a string of digits back as a number (the inverse of Decimal). */
  function ParseDecimal(s: string): nat
    decreases |s|
  {
    if s == [] then 0 else 10 * ParseDecimal(s[..|s| - 1]) + DigitValue(s[|s| - 1])
  }

  lemma {:induction false} ParseDecimalInverts(n: nat)
    ensures ParseDecimal(Decimal(n)) == n
    decreases n
  {
    if n >= 10 {
      var s := Decimal(n / 10) + [DigitChar(n % 10)];
      assert s[..|s| - 1] == Decimal(n / 10);
      ParseDecimalInverts(n / 10);
    }
  }

  /** A number below 10^k has at most k digits. */
  lemma {:induction false} DecimalLength(n: nat, k: nat)
    requires n < Power10(k)
    ensures |Decimal(n)| <= if k == 0 then 1 else k
    decreases k
  {
    if n >= 10 {
      assert Power10(0) == 1 && Power10(1) == 10;
      DecimalLength(n / 10, k - 1);
    }
  }

  function Power10(k: nat): (p: nat)
    ensures p >= 1
  {
    if k == 0 then 1 else 10 * Power10(k - 1)
  }

  /** Python's `'%d' % n`: the digits, preceded by '-' when `n` is negative. */
  function FormatInt(n: int): (s: string)
    ensures |s| >= 1 && s[0] != ' '
    ensures s[0] == '-' <==> n < 0
    ensures IsDigit(s[0]) || s[0] == '-'
    ensures forall i :: 1 <= i < |s| ==> IsDigit(s[i])
  {
    if n < 0 then "-" + Decimal(-n) else Decimal(n)
  }

  /** Reads an optional '-' followed by digits (the inverse of FormatInt). */
  function ParseInt(s: string): int {
    if |s| > 0 && s[0] == '-' then 0 - ParseDecimal(s[1..]) else ParseDecimal(s)
  }

  lemma ParseIntInverts(n: int)
    ensures ParseInt(FormatInt(n)) == n
  {
    var s := FormatInt(n);
    if n < 0 {
      assert s == "-" + Decimal(-n);
      assert s[1..] == Decimal(-n);
      ParseDecimalInverts(-n);
    } else {
      assert s == Decimal(n);
      assert IsDigit(s[0]);
      ParseDecimalInverts(n);
    }
  }

  /** Right-justifies `s` in a field of `width` characters; a longer `s` is never cut. */
  function PadLeft(s: string, width: int): (r: string)
    ensures |r| == if |s| < width then width else |s|
    ensures |s| <= |r| && r[|r| - |s|..] == s
    ensures forall i :: 0 <= i < |r| - |s| ==> r[i] == ' '
  {
    if |s| < width then seq(width - |s|, _ => ' ') + s else s
  }

  /** Python's `'%<width>d' % n`. */
  function FormatWidth(n: int, width: int): string {
    PadLeft(FormatInt(n), width)
  }

  /** Drops leading spaces. */
  function TrimLeft(s: string): string
    decreases |s|
  {
    if |s| > 0 && s[0] == ' ' then TrimLeft(s[1..]) else s
  }

  lemma {:induction false} TrimLeftPadding(s: string, width: int)
    requires |s| > 0 && s[0] != ' '
    ensures TrimLeft(PadLeft(s, width)) == s
    decreases width - |s|
  {
    if |s| < width {
      var r := PadLeft(s, width);
      assert r[0] == ' ';
      assert r[1..] == PadLeft(s, width - 1);
      TrimLeftPadding(s, width - 1);
    }
  }

  /** The padded field still reads back as the number it shows. */
  lemma FormatWidthInverts(n: int, width: int)
    ensures ParseInt(TrimLeft(FormatWidth(n, width))) == n
  {
    TrimLeftPadding(FormatInt(n), width);
    ParseIntInverts(n);
  }

  /** A non-negative number below 10^k fills a field of width k exactly. */
  lemma FormatWidthExact(n: int, k: nat)
    requires 1 <= k && 0 <= n < Power10(k)
    ensures |FormatWidth(n, k)| == k
  {
    DecimalLength(n, k);
  }
}
