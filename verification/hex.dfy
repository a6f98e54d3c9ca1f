/** Lower-case hexadecimal formatting as done by Python's `"%06x" % v`, and its inverse. */
module HexFormat {

  predicate IsLowerHexDigit(c: char)
  {
    '0' <= c <= '9' || 'a' <= c <= 'f'
  }

  predicate IsLowerHex(s: string)
  {
    forall i :: 0 <= i < |s| ==> IsLowerHexDigit(s[i])
  }

  function DigitValue(c: char): (d: nat)
    requires IsLowerHexDigit(c)
    ensures d < 16
  {
    if c <= '9' then c as int - '0' as int else c as int - 'a' as int + 10
  }

  /** The digit for `d`; `DigitValue` reads it back. */
  function DigitChar(d: nat): (c: char)
    requires d < 16
    ensures IsLowerHexDigit(c) && DigitValue(c) == d
  {
    if d < 10 then ('0' as int + d) as char else ('a' as int + d - 10) as char
  }

  /** `v` in base 16 without leading zeros (`"%x" % v`). */
  function Hex(v: nat): (s: string)
    ensures 1 <= |s| && IsLowerHex(s)
    decreases v
  {
    if v < 16 then [DigitChar(v)] else Hex(v / 16) + [DigitChar(v % 16)]
  }

  function Zeros(n: nat): (s: string)
  {
    seq(n, _ => '0')
  }

  /** `"%06x" % v`: the hex digits of `v`, left-padded with '0' to at least six characters. */
  function Format06x(v: nat): string
  {
    var h := Hex(v);
    if |h| >= 6 then h else Zeros(6 - |h|) + h
  }

  /** The number a string of lower-case hex digits denotes (most significant digit first). */
  function ParseHex(s: string): nat
    requires IsLowerHex(s)
    decreases |s|
  {
    if s == [] then 0 else 16 * ParseHex(s[..|s| - 1]) + DigitValue(s[|s| - 1])
  }

  function Pow16(k: nat): nat
  {
    if k == 0 then 1 else 16 * Pow16(k - 1)
  }

  lemma {:induction false} ParseHexOfHex(v: nat)
    ensures ParseHex(Hex(v)) == v
    decreases v
  {
    if v >= 16 {
      var h := Hex(v);
      assert h[..|h| - 1] == Hex(v / 16);
      ParseHexOfHex(v / 16);
    }
  }

  lemma {:induction false} ParseHexOfZeros(n: nat)
    ensures IsLowerHex(Zeros(n)) && ParseHex(Zeros(n)) == 0
  {
    if n > 0 {
      assert Zeros(n)[..n - 1] == Zeros(n - 1);
      ParseHexOfZeros(n - 1);
    }
  }

  /** Leading zeros do not change the value. */
  lemma {:induction false} ParseHexIgnoresLeadingZeros(n: nat, s: string)
    requires IsLowerHex(s)
    ensures IsLowerHex(Zeros(n) + s) && ParseHex(Zeros(n) + s) == ParseHex(s)
    decreases |s|
  {
    var z := Zeros(n) + s;
    if s == [] {
      assert z == Zeros(n);
      ParseHexOfZeros(n);
    } else {
      assert z[..|z| - 1] == Zeros(n) + s[..|s| - 1];
      ParseHexIgnoresLeadingZeros(n, s[..|s| - 1]);
    }
  }

  /** A value below 16^k needs at most k digits. */
  lemma {:induction false} HexLength(v: nat, k: nat)
    requires 1 <= k && v < Pow16(k)
    ensures |Hex(v)| <= k
    decreases v
  {
    if v >= 16 {
      assert k >= 2;
      assert v / 16 < Pow16(k - 1);
      HexLength(v / 16, k - 1);
    }
  }

  /** `"%06x" % v` is at least six lower-case hex digits that read back as `v`. */
  lemma Format06xRoundTrip(v: nat)
    ensures |Format06x(v)| >= 6 && IsLowerHex(Format06x(v))
    ensures ParseHex(Format06x(v)) == v
  {
    ParseHexOfHex(v);
    if |Hex(v)| < 6 {
      ParseHexIgnoresLeadingZeros(6 - |Hex(v)|, Hex(v));
    }
  }

  /**
   * A value drawn from [0, 0xFFFFFF] is written as exactly six lower-case hex
   * digits with no prefix, and those digits read back as the value.
   */
  lemma ColorCodeFormat(v: nat)
    requires v <= 0xFFFFFF
    ensures |Format06x(v)| == 6 && IsLowerHex(Format06x(v))
    ensures ParseHex(Format06x(v)) == v
  {
    assert Pow16(6) == 0x1000000;
    HexLength(v, 6);
    Format06xRoundTrip(v);
  }

  /** Different values give different strings. */
  lemma Format06xInjective(v: nat, w: nat)
    requires v <= 0xFFFFFF && w <= 0xFFFFFF && v != w
    ensures Format06x(v) != Format06x(w)
  {
    ColorCodeFormat(v);
    ColorCodeFormat(w);
  }
}
