/** Hexadecimal text as printf's "%0<w>x" writes it and as scanf's "%<w>x"
    and strtol(..., 16) read it (hex digits only: the leading white space,
    sign and "0x" prefix those readers also accept are not part of this model). */
module Hex {
  import opened Common

  predicate IsHexDigit(c: char) {
    '0' <= c <= '9' || 'a' <= c <= 'f' || 'A' <= c <= 'F'
  }

  predicate AllHex(s: string) {
    forall i :: 0 <= i < |s| ==> IsHexDigit(s[i])
  }

  function DigitValue(c: char): (v: nat)
    requires IsHexDigit(c)
    ensures v < 16
  {
    if '0' <= c <= '9' then c as int - '0' as int
    else if 'a' <= c <= 'f' then c as int - 'a' as int + 10
    else c as int - 'A' as int + 10
  }

  /** The lower-case digit "%x" prints for d. */
  function HexChar(d: nat): (c: char)
    requires d < 16
    ensures IsHexDigit(c) && DigitValue(c) == d
    ensures !('A' <= c <= 'F')
  {
    if d < 10 then ('0' as int + d) as char else ('a' as int + d - 10) as char
  }

  function Pow16(n: nat): (p: nat)
    ensures p >= 1
  {
    if n == 0 then 1 else 16 * Pow16(n - 1)
  }

  lemma {:induction false} Pow16Monotone(a: nat, b: nat)
    requires a <= b
    ensures Pow16(a) <= Pow16(b)
  {
    if a < b {
      Pow16Monotone(a, b - 1);
    }
  }

  lemma Pow16Values()
    ensures Pow16(2) == U8 && Pow16(4) == U16 && Pow16(6) == U24
    ensures Pow16(8) == U32 && Pow16(16) == U64
  {
  }

  /** "%0<width>x" of a value that has at most width hex digits: exactly width
      digits, zero-padded on the left. */
  function Fixed(v: nat, width: nat): (s: string)
    requires v < Pow16(width)
    ensures |s| == width && AllHex(s)
  {
    if width == 0 then [] else Fixed(v / 16, width - 1) + [HexChar(v % 16)]
  }

  /** The number a string of hex digits denotes, most significant digit first. */
  function Value(s: string): (v: nat)
    requires AllHex(s)
    ensures v < Pow16(|s|)
  {
    if s == [] then 0 else Value(s[..|s| - 1]) * 16 + DigitValue(s[|s| - 1])
  }

  /** Reading back what "%0<width>x" printed gives the printed value. */
  lemma {:induction false} ValueOfFixed(v: nat, width: nat)
    requires v < Pow16(width)
    ensures Value(Fixed(v, width)) == v
  {
    if width > 0 {
      var s := Fixed(v, width);
      assert s[..|s| - 1] == Fixed(v / 16, width - 1);
      ValueOfFixed(v / 16, width - 1);
    }
  }

  /** Length of the run of hex digits that starts s, capped at max: the
      characters a "%<max>x" conversion (or strtol, with max = |s|) consumes. */
  function HexRun(s: string, max: nat): (n: nat)
    ensures n <= max && n <= |s|
    ensures AllHex(s[..n])
    ensures n < max && n < |s| ==> !IsHexDigit(s[n])
  {
    if max == 0 || s == [] || !IsHexDigit(s[0]) then 0
    else
      var n := 1 + HexRun(s[1..], max - 1);
      assert s[..n] == [s[0]] + s[1..][..n - 1];
      n
  }

  /** A run of digits that fills the width, or that is followed by a
      non-digit, is consumed whole and no further. */
  lemma {:induction false} HexRunOfDigits(a: string, b: string, max: nat)
    requires AllHex(a) && |a| <= max
    requires |a| == max || b == [] || !IsHexDigit(b[0])
    ensures HexRun(a + b, max) == |a|
  {
    if a != [] {
      assert (a + b)[1..] == a[1..] + b;
      HexRunOfDigits(a[1..], b, max - 1);
    }
  }

  /** The value strtol(s, NULL, 16) computes before any range limit: that of
      the leading run of hex digits, 0 when there is none. */
  function LeadingValue(s: string): nat {
    Value(s[..HexRun(s, |s|)])
  }

  lemma LeadingValueOfFixed(v: nat, width: nat)
    requires v < Pow16(width)
    ensures LeadingValue(Fixed(v, width)) == v
  {
    var s := Fixed(v, width);
    HexRunOfDigits(s, [], |s|);
    assert s + [] == s;
    assert s[..|s|] == s;
    ValueOfFixed(v, width);
  }
}
