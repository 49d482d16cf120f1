/**
 * The parts of C's printf family that list.c relies on: decimal rendering of
 * an `int` (`%i`), padding of a string to a field width (`%-Ns`, `%Ns`), the
 * cut that `snprintf` applies when its buffer is too small, and the sequence
 * of padded, space-separated columns that the runtime-built format strings
 * of list.c describe.
 */
module CFormat {
  import opened Wrappers

  /** A C `int`. */
  type Int32 = x: int | -0x8000_0000 <= x < 0x8000_0000

  function Min(a: int, b: int): int { if a < b then a else b }

  function Spaces(n: nat): (r: string)
    ensures |r| == n
    ensures forall i :: 0 <= i < n ==> r[i] == ' '
  {
    if n == 0 then "" else Spaces(n - 1) + " "
  }

  predicate AllSpaces(s: string) { forall i :: 0 <= i < |s| ==> s[i] == ' ' }

  // ---------------------------------------------------------------------
  // Padding: `%-Ns` (left-justified) and `%Ns` (right-justified)
  // ---------------------------------------------------------------------

  datatype Align = Left | Right

  /** A string printed in a field of minimum width `width`: blanks fill the
    * field on the side away from the alignment, and a string longer than the
    * field is printed whole. */
  function Pad(s: string, width: nat, align: Align): (r: string)
    ensures |r| == if |s| < width then width else |s|
  {
    var fill := if |s| < width then Spaces(width - |s|) else "";
    if align == Left then s + fill else fill + s
  }

  /** The padded field holds the text, whole, at the side it is justified
    * to, and blanks elsewhere. */
  lemma PadContent(s: string, width: nat, align: Align)
    ensures var r := Pad(s, width, align);
            (align == Left ==> r[..|s|] == s && AllSpaces(r[|s|..]))
            && (align == Right ==> r[|r| - |s|..] == s && AllSpaces(r[..|r| - |s|]))
  {
  }

  /** `f` is `s` printed as `%-Ns` with N = `width`, followed by one blank:
    * the text at the left, then blanks only, as wide as the larger of the
    * text and the field, plus the blank. */
  predicate LeftField(f: string, s: string, width: nat)
  {
    |f| == (if |s| < width then width else |s|) + 1
    && f[..|s|] == s && AllSpaces(f[|s|..])
  }

  /** A left-justified cell prints as a left-justified field. */
  lemma LeftCellContent(s: string, width: nat)
    ensures LeftField(CellText(Cell(s, width, Left)), s, width)
  {
    PadContent(s, width, Left);
    assert CellText(Cell(s, width, Left))[|s|..] == Pad(s, width, Left)[|s|..] + " ";
  }

  // ---------------------------------------------------------------------
  // `%i`: decimal rendering of an integer, and its inverse
  // ---------------------------------------------------------------------

  predicate IsDigit(c: char) { '0' <= c <= '9' }

  predicate AllDigits(s: string) { forall i :: 0 <= i < |s| ==> IsDigit(s[i]) }

  function DigitChar(d: nat): (c: char)
    requires d < 10
    ensures IsDigit(c) && (c as int) - ('0' as int) == d
  {
    ('0' as int + d) as char
  }

  /** The digits of `n`, most significant first, without leading zeros. */
  function NatToStr(n: nat): (r: string)
    ensures 1 <= |r| && AllDigits(r)
    ensures |r| > 1 ==> r[0] != '0'
  {
    if n < 10 then [DigitChar(n)] else NatToStr(n / 10) + [DigitChar(n % 10)]
  }

  /** `printf("%i", n)`. */
  function IntToStr(n: int): (r: string)
    ensures 1 <= |r|
    ensures n < 0 <==> r[0] == '-'
  {
    if n < 0 then "-" + NatToStr(-n) else NatToStr(n)
  }

  /** The value of a string of decimal digits. */
  function DecValue(s: string): nat
    requires AllDigits(s)
  {
    if s == [] then 0 else 10 * DecValue(s[..|s| - 1]) + ((s[|s| - 1] as int) - ('0' as int))
  }

  /** Reads back what `%i` printed: an optional minus sign followed by digits. */
  function ParseInt(s: string): Option<int>
  {
    if 1 <= |s| && AllDigits(s) then Some(DecValue(s))
    else if 2 <= |s| && s[0] == '-' && AllDigits(s[1..]) then Some(0 - DecValue(s[1..]))
    else None
  }

  lemma {:induction false} NatToStrValue(n: nat)
    ensures DecValue(NatToStr(n)) == n
  {
    if n >= 10 {
      var r := NatToStr(n);
      assert r[..|r| - 1] == NatToStr(n / 10);
      NatToStrValue(n / 10);
    }
  }

  /** `%i` loses nothing: the printed text reads back as the integer printed. */
  lemma IntToStrRoundTrip(n: int)
    ensures ParseInt(IntToStr(n)) == Some(n)
  {
    if n < 0 {
      var d := NatToStr(-n);
      var r := IntToStr(n);
      assert r == "-" + d && r[1..] == d;
      assert !IsDigit(r[0]);
      NatToStrValue(-n);
    } else {
      NatToStrValue(n);
    }
  }

  function Pow10(k: nat): (p: nat)
    ensures p >= 1
  {
    if k == 0 then 1 else 10 * Pow10(k - 1)
  }

  /** A number below 10^k has at most k digits, and exactly k when it is at
    * least 10^(k-1). */
  lemma {:induction false} NatToStrLength(n: nat, k: nat)
    requires 1 <= k && n < Pow10(k)
    ensures |NatToStr(n)| <= k
    ensures Pow10(k - 1) <= n ==> |NatToStr(n)| == k
  {
    if n >= 10 {
      assert k >= 2 by { assert Pow10(1) == 10; }
      NatToStrLength(n / 10, k - 1);
    } else if k >= 2 {
      assert Pow10(k - 1) >= 10 by { Pow10AtLeastTen(k - 1); }
    }
  }

  lemma {:induction false} Pow10AtLeastTen(k: nat)
    requires k >= 1
    ensures Pow10(k) >= 10
  {
    if k > 1 { Pow10AtLeastTen(k - 1); }
  }

  /** `%i` of a C `int` takes at most 11 characters ("-2147483648"), and at
    * most 10 when the value is not negative. */
  lemma Int32Width(n: Int32)
    ensures |IntToStr(n)| <= 11
    ensures n >= 0 ==> |IntToStr(n)| <= 10
  {
    assert Pow10(10) == 10_000_000_000;
    if n < 0 { NatToStrLength(-(n as int), 10); } else { NatToStrLength(n, 10); }
  }

  // ---------------------------------------------------------------------
  // snprintf: the text a buffer of `size` bytes receives
  // ---------------------------------------------------------------------

  /** What `snprintf(buf, size, ...)` leaves in `buf` when the complete
    * formatted text is `s`: at most `size - 1` characters and a NUL. */
  function Snprintf(size: nat, s: string): (r: string)
    requires size >= 1
    ensures |r| < size
    ensures r <= s
    ensures r == s <==> |s| < size
  {
    if |s| < size then s else s[..size - 1]
  }

  // ---------------------------------------------------------------------
  // Cells: one `%-Ns ` / `%Ns ` conversion and the blank after it
  // ---------------------------------------------------------------------

  /** One conversion of a format string such as "%-4i %-8s %14s": the text,
    * the minimum field width and the justification. */
  datatype Cell = Cell(text: string, width: nat, align: Align)

  /** One cell as printed: the padded text and the blank after it. */
  function CellText(c: Cell): (r: string)
    ensures |c.text| <= c.width ==> |r| == c.width + 1
  {
    Pad(c.text, c.width, c.align) + " "
  }
}
